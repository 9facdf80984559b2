/** ged_parser.py, the single-file predecessor of models.py, src/parser.py
    and src/user_stories.py. Its `Gedline` class is the one of models.py
    (modelled by `GedLines.Decode`), and its `parse_ged`,
    `parse_single_individual` and `parse_single_family` run the same loops,
    except that an individual's `famc`/`fams` and a family's `child` are
    single values that each `FAMC`/`FAMS`/`CHIL` line overwrites. Its three
    rules stop at the first problem and only return a flag. */
module Legacy {
  import opened Wrappers
  import opened Text
  import opened Dates
  import opened GedLines
  import opened Entities
  import opened Builder
  import opened Parser
  import opened Lookup
  import DateRules

  datatype LegacyIndividual = LegacyIndividual(
    uid: string,
    intId: nat,
    name: Option<seq<string>>,
    sex: Option<string>,
    birth: Option<Date>,
    death: Option<Date>,
    famc: Option<string>,
    fams: Option<string>)

  datatype LegacyFamily = LegacyFamily(
    uid: string,
    intId: nat,
    marriage: Option<Date>,
    husband: Option<string>,
    wife: Option<string>,
    child: Option<string>,
    divorce: Option<Date>)

  datatype LegacyPopulation = LegacyPopulation(individuals: seq<LegacyIndividual>, families: seq<LegacyFamily>)

  /** The legacy `Individual(uid)`: the same numeric id rule, and every
      field, the links included, starts as `None`. */
  function NewLegacyIndividual(uid: string): (r: Option<LegacyIndividual>)
    ensures r.Some? <==> !NoDigits(uid)
    ensures r.Some? ==> r.value == LegacyOfIndividual(NewIndividual(uid).value)
  {
    var n :- FirstNumber(uid);
    Some(LegacyIndividual(uid, n, None, None, None, None, None, None))
  }

  function NewLegacyFamily(uid: string): (r: Option<LegacyFamily>)
    ensures r.Some? <==> !NoDigits(uid)
    ensures r.Some? ==> r.value == LegacyOfFamily(NewFamily(uid).value)
  {
    var n :- FirstNumber(uid);
    Some(LegacyFamily(uid, n, None, None, None, None, None))
  }

  // ---------------------------------------------------------------------------
  // The record loops

  datatype LegacyIndividualState = LegacyIndividualState(ind: LegacyIndividual, pending: Option<Event>)
  datatype LegacyFamilyState = LegacyFamilyState(fam: LegacyFamily, pending: Option<Event>)

  /** One pass of the loop body of the legacy `parse_single_individual`. */
  function LegacyIndividualStep(s: LegacyIndividualState, l: GedLine): (r: Result<LegacyIndividualState, ErrorKind>)
    ensures r.Success? ==> r.value.ind.uid == s.ind.uid && r.value.ind.intId == s.ind.intId
  {
    match KindOf(l)
    case NameLine => Success(s.(ind := s.ind.(name := l.args)))
    case SexLine =>
      if FirstArg(l).None? then Failure(MissingArgument)
      else Success(s.(ind := s.ind.(sex := FirstArg(l))))
    case EventLine(Birth) => Success(s.(pending := Some(Birth)))
    case EventLine(Death) => Success(s.(pending := Some(Death)))
    case FamcLine =>
      if FirstArg(l).None? then Failure(MissingArgument)
      else Success(s.(ind := s.ind.(famc := FirstArg(l))))
    case FamsLine =>
      if FirstArg(l).None? then Failure(MissingArgument)
      else Success(s.(ind := s.ind.(fams := FirstArg(l))))
    case DateLine =>
      if s.pending == Some(Birth) then
        var d :- ParseDate(ArgsOf(l));
        Success(LegacyIndividualState(s.ind.(birth := Some(d)), None))
      else if s.pending == Some(Death) then
        var d :- ParseDate(ArgsOf(l));
        Success(LegacyIndividualState(s.ind.(death := Some(d)), None))
      else Success(s)
    case _ => Success(s)
  }

  function BuildLegacyIndividual(s: LegacyIndividualState, body: seq<GedLine>, n: nat): (r: Result<LegacyIndividualState, ParseError>)
    requires n <= |body|
    ensures r.Failure? ==> r.error.line < n
  {
    if n == 0 then Success(s)
    else
      var prev :- BuildLegacyIndividual(s, body, n - 1);
      match LegacyIndividualStep(prev, body[n - 1])
      case Success(next) => Success(next)
      case Failure(e) => Failure(ParseError(n - 1, e))
  }

  /** One pass of the loop body of the legacy `parse_single_family`. */
  function LegacyFamilyStep(s: LegacyFamilyState, l: GedLine): (r: Result<LegacyFamilyState, ErrorKind>)
    ensures r.Success? ==> r.value.fam.uid == s.fam.uid && r.value.fam.intId == s.fam.intId
  {
    match KindOf(l)
    case EventLine(Marriage) => Success(s.(pending := Some(Marriage)))
    case EventLine(Divorce) => Success(s.(pending := Some(Divorce)))
    case HusbLine =>
      if FirstArg(l).None? then Failure(MissingArgument)
      else Success(s.(fam := s.fam.(husband := FirstArg(l))))
    case WifeLine =>
      if FirstArg(l).None? then Failure(MissingArgument)
      else Success(s.(fam := s.fam.(wife := FirstArg(l))))
    case ChilLine =>
      if FirstArg(l).None? then Failure(MissingArgument)
      else Success(s.(fam := s.fam.(child := FirstArg(l))))
    case DateLine =>
      if s.pending == Some(Marriage) then
        var d :- ParseDate(ArgsOf(l));
        Success(LegacyFamilyState(s.fam.(marriage := Some(d)), None))
      else if s.pending == Some(Divorce) then
        var d :- ParseDate(ArgsOf(l));
        Success(LegacyFamilyState(s.fam.(divorce := Some(d)), None))
      else Success(s)
    case _ => Success(s)
  }

  function BuildLegacyFamily(s: LegacyFamilyState, body: seq<GedLine>, n: nat): (r: Result<LegacyFamilyState, ParseError>)
    requires n <= |body|
    ensures r.Failure? ==> r.error.line < n
  {
    if n == 0 then Success(s)
    else
      var prev :- BuildLegacyFamily(s, body, n - 1);
      match LegacyFamilyStep(prev, body[n - 1])
      case Success(next) => Success(next)
      case Failure(e) => Failure(ParseError(n - 1, e))
  }

  // ---------------------------------------------------------------------------
  // Agreement with the list-valued records

  /** The last element of a list, which a scalar that every line overwrites
      ends up holding. */
  function LastOf(xs: seq<string>): Option<string> {
    if |xs| == 0 then None else Some(xs[|xs| - 1])
  }

  /** A record of src/parser.py seen through the legacy fields: each link
      list becomes its last element. */
  function LegacyOfIndividual(ind: Individual): LegacyIndividual {
    LegacyIndividual(ind.uid, ind.intId, ind.name, ind.sex, ind.birth, ind.death, LastOf(ind.famc), LastOf(ind.fams))
  }

  function LegacyOfFamily(f: Family): LegacyFamily {
    LegacyFamily(f.uid, f.intId, f.marriage, f.husband, f.wife, LastOf(f.children), f.divorce)
  }

  function LegacyOfIndividualState(st: IndividualState): LegacyIndividualState {
    LegacyIndividualState(LegacyOfIndividual(st.ind), st.pending)
  }

  function LegacyOfFamilyState(st: FamilyState): LegacyFamilyState {
    LegacyFamilyState(LegacyOfFamily(st.fam), st.pending)
  }

  /** A result of the list-valued loop seen through the legacy fields: the
      same error, or the projected state. */
  function LegacyOfIndividualResult<E>(r: Result<IndividualState, E>): Result<LegacyIndividualState, E> {
    match r
    case Success(st) => Success(LegacyOfIndividualState(st))
    case Failure(e) => Failure(e)
  }

  function LegacyOfFamilyResult<E>(r: Result<FamilyState, E>): Result<LegacyFamilyState, E> {
    match r
    case Success(st) => Success(LegacyOfFamilyState(st))
    case Failure(e) => Failure(e)
  }

  lemma LegacyIndividualStepAgrees(s: IndividualState, l: GedLine)
    ensures LegacyIndividualStep(LegacyOfIndividualState(s), l) == LegacyOfIndividualResult(IndividualStep(s, l))
  {
  }

  /** The legacy individual loop builds, line for line, the record of
      src/parser.py with each link list cut down to its last element, and
      raises at the same line. */
  lemma {:induction false} LegacyIndividualAgrees(s: IndividualState, body: seq<GedLine>, n: nat)
    requires n <= |body|
    ensures BuildLegacyIndividual(LegacyOfIndividualState(s), body, n) == LegacyOfIndividualResult(BuildIndividual(s, body, n))
  {
    if n > 0 {
      LegacyIndividualAgrees(s, body, n - 1);
      var prev := BuildIndividual(s, body, n - 1);
      if prev.Success? {
        var st := IndividualStep(prev.value, body[n - 1]);
        LegacyIndividualStepAgrees(prev.value, body[n - 1]);
        if st.Success? {
          assert BuildIndividual(s, body, n) == Success(st.value);
        } else {
          assert BuildIndividual(s, body, n) == Failure(ParseError(n - 1, st.error));
        }
      }
    }
  }

  lemma LegacyFamilyStepAgrees(s: FamilyState, l: GedLine)
    ensures LegacyFamilyStep(LegacyOfFamilyState(s), l) == LegacyOfFamilyResult(FamilyStep(s, l))
  {
  }

  /** The legacy family loop keeps the last `CHIL` line where src/parser.py
      keeps them all. */
  lemma {:induction false} LegacyFamilyAgrees(s: FamilyState, body: seq<GedLine>, n: nat)
    requires n <= |body|
    ensures BuildLegacyFamily(LegacyOfFamilyState(s), body, n) == LegacyOfFamilyResult(BuildFamily(s, body, n))
  {
    if n > 0 {
      LegacyFamilyAgrees(s, body, n - 1);
      var prev := BuildFamily(s, body, n - 1);
      if prev.Success? {
        var st := FamilyStep(prev.value, body[n - 1]);
        LegacyFamilyStepAgrees(prev.value, body[n - 1]);
        if st.Success? {
          assert BuildFamily(s, body, n) == Success(st.value);
        } else {
          assert BuildFamily(s, body, n) == Failure(ParseError(n - 1, st.error));
        }
      }
    }
  }

  // ---------------------------------------------------------------------------
  // parse_ged

  function ParseLegacyIndividual(g: seq<GedLine>, h: nat): (r: Result<LegacyIndividual, ParseError>)
    requires h < |g|
    ensures r.Success? ==> g[h].xref == Some(r.value.uid)
  {
    match g[h].xref
    case None => Failure(ParseError(h, MissingId))
    case Some(x) =>
      match NewLegacyIndividual(x)
      case None => Failure(ParseError(h, IdWithoutNumber))
      case Some(ind) =>
        var b := Body(g, h);
        match BuildLegacyIndividual(LegacyIndividualState(ind, None), b, |b|)
        case Failure(e) => Failure(ParseError(e.line + h + 1, e.kind))
        case Success(st) =>
          LegacyIndividualUid(LegacyIndividualState(ind, None), b, |b|);
          Success(st.ind)
  }

  lemma {:induction false} LegacyIndividualUid(s: LegacyIndividualState, body: seq<GedLine>, n: nat)
    requires n <= |body| && BuildLegacyIndividual(s, body, n).Success?
    ensures BuildLegacyIndividual(s, body, n).value.ind.uid == s.ind.uid
  {
    if n > 0 {
      LegacyIndividualUid(s, body, n - 1);
    }
  }

  function ParseLegacyFamily(g: seq<GedLine>, h: nat): (r: Result<LegacyFamily, ParseError>)
    requires h < |g|
    ensures r.Success? ==> g[h].xref == Some(r.value.uid)
  {
    match g[h].xref
    case None => Failure(ParseError(h, MissingId))
    case Some(x) =>
      match NewLegacyFamily(x)
      case None => Failure(ParseError(h, IdWithoutNumber))
      case Some(fam) =>
        var b := Body(g, h);
        match BuildLegacyFamily(LegacyFamilyState(fam, None), b, |b|)
        case Failure(e) => Failure(ParseError(e.line + h + 1, e.kind))
        case Success(st) =>
          LegacyFamilyUid(LegacyFamilyState(fam, None), b, |b|);
          Success(st.fam)
  }

  lemma {:induction false} LegacyFamilyUid(s: LegacyFamilyState, body: seq<GedLine>, n: nat)
    requires n <= |body| && BuildLegacyFamily(s, body, n).Success?
    ensures BuildLegacyFamily(s, body, n).value.fam.uid == s.fam.uid
  {
    if n > 0 {
      LegacyFamilyUid(s, body, n - 1);
    }
  }

  /** The two-`if` loop of the legacy `parse_ged` from line `i`. */
  function LegacyParseFrom(g: seq<GedLine>, i: nat): (r: Result<LegacyPopulation, ParseError>)
    requires i <= |g|
    decreases |g| - i
  {
    if i == |g| then Success(LegacyPopulation([], []))
    else if g[i].tag == Some("INDI") then
      var ind :- ParseLegacyIndividual(g, i);
      var rest :- LegacyParseFrom(g, i + 1);
      Success(rest.(individuals := [ind] + rest.individuals))
    else if g[i].tag == Some("FAM") then
      var fam :- ParseLegacyFamily(g, i);
      var rest :- LegacyParseFrom(g, i + 1);
      Success(rest.(families := [fam] + rest.families))
    else LegacyParseFrom(g, i + 1)
  }

  /** The legacy `parse_ged`: the same decoding of every line, then the
      legacy records. */
  function LegacyParseGed(lines: seq<string>): (r: Result<LegacyPopulation, ParseError>)
    ensures DecodeAll(lines).Failure? ==> r == Failure(DecodeAll(lines).error)
  {
    var g :- DecodeAll(lines);
    LegacyParseFrom(g, 0)
  }

  function LegacyOfPopulation(p: Population): LegacyPopulation {
    LegacyPopulation(
      seq(|p.individuals|, i requires 0 <= i < |p.individuals| => LegacyOfIndividual(p.individuals[i])),
      seq(|p.families|, i requires 0 <= i < |p.families| => LegacyOfFamily(p.families[i])))
  }

  lemma ParseLegacyIndividualAgrees(g: seq<GedLine>, h: nat)
    requires h < |g|
    ensures ParseIndividual(g, h).Success? <==> ParseLegacyIndividual(g, h).Success?
    ensures ParseIndividual(g, h).Failure? ==> ParseLegacyIndividual(g, h).error == ParseIndividual(g, h).error
    ensures ParseIndividual(g, h).Success? ==> ParseLegacyIndividual(g, h).value == LegacyOfIndividual(ParseIndividual(g, h).value)
  {
    if g[h].xref.Some? && NewIndividual(g[h].xref.value).Some? {
      var ind := NewIndividual(g[h].xref.value).value;
      LegacyIndividualAgrees(IndividualState(ind, None), Body(g, h), |Body(g, h)|);
    }
  }

  lemma ParseLegacyFamilyAgrees(g: seq<GedLine>, h: nat)
    requires h < |g|
    ensures ParseFamily(g, h).Success? <==> ParseLegacyFamily(g, h).Success?
    ensures ParseFamily(g, h).Failure? ==> ParseLegacyFamily(g, h).error == ParseFamily(g, h).error
    ensures ParseFamily(g, h).Success? ==> ParseLegacyFamily(g, h).value == LegacyOfFamily(ParseFamily(g, h).value)
  {
    if g[h].xref.Some? && NewFamily(g[h].xref.value).Some? {
      var fam := NewFamily(g[h].xref.value).value;
      LegacyFamilyAgrees(FamilyState(fam, None), Body(g, h), |Body(g, h)|);
    }
  }

  /** The legacy parser fails where src/parser.py fails, with the same
      error, and otherwise returns the same records in the same order, each
      link list cut down to its last element. */
  lemma {:induction false} LegacyParseFromAgrees(g: seq<GedLine>, i: nat)
    requires i <= |g|
    ensures ParseFrom(g, i).Success? <==> LegacyParseFrom(g, i).Success?
    ensures ParseFrom(g, i).Failure? ==> LegacyParseFrom(g, i).error == ParseFrom(g, i).error
    ensures ParseFrom(g, i).Success? ==> LegacyParseFrom(g, i).value == LegacyOfPopulation(ParseFrom(g, i).value)
    decreases |g| - i
  {
    if i < |g| {
      LegacyParseFromAgrees(g, i + 1);
      if g[i].tag == Some("INDI") {
        ParseLegacyIndividualAgrees(g, i);
        if ParseFrom(g, i).Success? {
          var rest := ParseFrom(g, i + 1).value;
          var p := ParseFrom(g, i).value;
          assert p.individuals == [ParseIndividual(g, i).value] + rest.individuals;
          assert LegacyOfPopulation(p).individuals
            == [LegacyOfIndividual(ParseIndividual(g, i).value)] + LegacyOfPopulation(rest).individuals;
        }
      } else if g[i].tag == Some("FAM") {
        ParseLegacyFamilyAgrees(g, i);
        if ParseFrom(g, i).Success? {
          var rest := ParseFrom(g, i + 1).value;
          var p := ParseFrom(g, i).value;
          assert p.families == [ParseFamily(g, i).value] + rest.families;
          assert LegacyOfPopulation(p).families
            == [LegacyOfFamily(ParseFamily(g, i).value)] + LegacyOfPopulation(rest).families;
        }
      }
    }
  }

  lemma LegacyParseGedAgrees(lines: seq<string>)
    ensures ParseGed(lines).Success? <==> LegacyParseGed(lines).Success?
    ensures ParseGed(lines).Failure? ==> LegacyParseGed(lines).error == ParseGed(lines).error
    ensures ParseGed(lines).Success? ==> LegacyParseGed(lines).value == LegacyOfPopulation(ParseGed(lines).value)
  {
    if DecodeAll(lines).Success? {
      LegacyParseFromAgrees(DecodeAll(lines).value, 0);
    }
  }
}

module LegacyRules {
  import opened Wrappers
  import opened Dates
  import opened Entities
  import opened Lookup
  import opened DateRules

  // The three rules of ged_parser.py read only the ids, dates and spouse
  // pointers, which its records share with those of src/parser.py, so they
  // are stated over the same records as the rules of src/user_stories.py.
  // Each returns `False` at the first problem instead of reporting it.

  /** The legacy `birth_before_death` compares `death < birthdate` for
      every individual it reaches that has a death; a missing birth there
      raises `TypeError`. */
  predicate BirthKnownWhereReached(inds: seq<Individual>) {
    forall i :: 0 <= i < |inds| && inds[i].death.Some? && (forall j :: 0 <= j < i ==> !DiedBeforeBorn(inds[j]))
      ==> inds[i].birth.Some?
  }

  /** The legacy US03: `False` exactly when someone died before being born.
      Where the rule of src/user_stories.py is defined as well, the two give
      the same verdict. */
  method LegacyBirthBeforeDeath(inds: seq<Individual>) returns (ok: bool)
    requires BirthKnownWhereReached(inds)
    ensures ok <==> forall i :: 0 <= i < |inds| ==> !DiedBeforeBorn(inds[i])
    ensures ok == BirthBeforeDeath(inds).passed
  {
    var i := 0;
    while i < |inds|
      invariant 0 <= i <= |inds|
      invariant forall j :: 0 <= j < i ==> !DiedBeforeBorn(inds[j])
    {
      if inds[i].death.Some? {
        if Precedes(inds[i].death.value, inds[i].birth.value) {
          return false;
        }
      }
      i := i + 1;
    }
    return true;
  }

  /** The last-match loop `for indiv in individuals: if indiv.uid ==
      family.husband: husband = indiv ...` for both spouses at once. */
  method FindSpouses(inds: seq<Individual>, f: Family) returns (husband: Option<Individual>, wife: Option<Individual>)
    ensures husband == Resolve(inds, f.husband)
    ensures wife == Resolve(inds, f.wife)
  {
    husband, wife := None, None;
    ghost var hk: Option<nat>, wk: Option<nat> := None, None;
    var k := 0;
    while k < |inds|
      invariant 0 <= k <= |inds|
      invariant hk == LastWithUid(inds, f.husband, k) && wk == LastWithUid(inds, f.wife, k)
      invariant husband == (if hk.Some? then Some(inds[hk.value]) else None)
      invariant wife == (if wk.Some? then Some(inds[wk.value]) else None)
    {
      if Some(inds[k].uid) == f.husband {
        husband, hk := Some(inds[k]), Some(k);
      }
      if Some(inds[k].uid) == f.wife {
        wife, wk := Some(inds[k]), Some(k);
      }
      k := k + 1;
    }
  }

  /** For a family with event date `d`, the legacy checks read the wife's
      death, then, unless that already failed, the husband's: each spouse
      read must resolve, or `None.death` raises `AttributeError`. */
  predicate SpousesReadResolve(inds: seq<Individual>, f: Family, d: Option<Date>) {
    d.Some? ==>
      && Resolve(inds, f.wife).Some?
      && (!DiedBefore(inds, f.wife, d) ==> Resolve(inds, f.husband).Some?)
  }

  predicate MarriageSpousesKnownWhereReached(inds: seq<Individual>, fams: seq<Family>) {
    forall i :: 0 <= i < |fams| && (forall j :: 0 <= j < i ==> !US05Violation(inds, fams[j]))
      ==> SpousesReadResolve(inds, fams[i], fams[i].marriage)
  }

  predicate DivorceSpousesKnownWhereReached(inds: seq<Individual>, fams: seq<Family>) {
    forall i :: 0 <= i < |fams| && (forall j :: 0 <= j < i ==> !US06Violation(inds, fams[j]))
      ==> SpousesReadResolve(inds, fams[i], fams[i].divorce)
  }

  /** The legacy US05: `False` exactly when a spouse of a married family died
      before the marriage. It asks less of its input than the rule of
      src/user_stories.py, and agrees with it wherever that is defined. */
  method LegacyMarriageBeforeDeath(inds: seq<Individual>, fams: seq<Family>) returns (ok: bool)
    requires MarriageSpousesKnownWhereReached(inds, fams)
    ensures ok <==> forall i :: 0 <= i < |fams| ==> !US05Violation(inds, fams[i])
    ensures (forall i :: 0 <= i < |fams| && fams[i].marriage.Some? ==> SpousesResolve(inds, fams[i]))
      ==> ok == MarriageBeforeDeath(inds, fams).passed
  {
    var i := 0;
    while i < |fams|
      invariant 0 <= i <= |fams|
      invariant forall j :: 0 <= j < i ==> !US05Violation(inds, fams[j])
    {
      var family := fams[i];
      if family.marriage.Some? {
        var husband, wife := FindSpouses(inds, family);
        if wife.value.death.Some? && Precedes(wife.value.death.value, family.marriage.value) {
          return false;
        }
        if husband.value.death.Some? && Precedes(husband.value.death.value, family.marriage.value) {
          return false;
        }
      }
      i := i + 1;
    }
    return true;
  }

  /** The legacy US06, the same loop over divorce dates. */
  method LegacyDivorceBeforeDeath(inds: seq<Individual>, fams: seq<Family>) returns (ok: bool)
    requires DivorceSpousesKnownWhereReached(inds, fams)
    ensures ok <==> forall i :: 0 <= i < |fams| ==> !US06Violation(inds, fams[i])
    ensures (forall i :: 0 <= i < |fams| && fams[i].divorce.Some? ==> SpousesResolve(inds, fams[i]))
      ==> ok == DivorceBeforeDeath(inds, fams).passed
  {
    var i := 0;
    while i < |fams|
      invariant 0 <= i <= |fams|
      invariant forall j :: 0 <= j < i ==> !US06Violation(inds, fams[j])
    {
      var family := fams[i];
      if family.divorce.Some? {
        var husband, wife := FindSpouses(inds, family);
        if wife.value.death.Some? && Precedes(wife.value.death.value, family.divorce.value) {
          return false;
        }
        if husband.value.death.Some? && Precedes(husband.value.death.value, family.divorce.value) {
          return false;
        }
      }
      i := i + 1;
    }
    return true;
  }
}
