/** `parse_ged` of src/parser.py: decode every line, then build one record
    per `INDI` or `FAM` line, in line order, from the lines of its body. */
module Parser {
  import opened Wrappers
  import opened Text
  import opened Dates
  import opened GedLines
  import opened Entities
  import opened Builder

  /** The two lists `parse_ged` returns. */
  datatype Population = Population(individuals: seq<Individual>, families: seq<Family>)

  // ---------------------------------------------------------------------------
  // One record

  /** An error raised at line `e.line` of a body, reported at its line in
      the file, `d` lines further on. */
  function Shifted<T>(r: Result<T, ParseError>, d: nat): (s: Result<T, ParseError>)
    ensures s.Success? <==> r.Success?
    ensures s.Success? ==> s.value == r.value
    ensures s.Failure? ==> s.error == ParseError(r.error.line + d, r.error.kind)
  {
    match r
    case Success(v) => Success(v)
    case Failure(e) => Failure(ParseError(e.line + d, e.kind))
  }

  /** The loop of `parse_single_individual` over a whole body, from the
      record the constructor made. */
  function IndividualOfBody(ind: Individual, b: seq<GedLine>): (r: Result<Individual, ParseError>)
    ensures r.Success? ==> r.value.uid == ind.uid && r.value.intId == ind.intId
    ensures r.Failure? ==> r.error.line < |b|
  {
    match BuildIndividual(IndividualState(ind, None), b, |b|)
    case Failure(e) => Failure(e)
    case Success(st) =>
      IndividualLinks(IndividualState(ind, None), b, |b|);
      Success(st.ind)
  }

  /** The loop of `parse_single_family` over a whole body. */
  function FamilyOfBody(fam: Family, b: seq<GedLine>): (r: Result<Family, ParseError>)
    ensures r.Success? ==> r.value.uid == fam.uid && r.value.intId == fam.intId
    ensures r.Failure? ==> r.error.line < |b|
  {
    match BuildFamily(FamilyState(fam, None), b, |b|)
    case Failure(e) => Failure(e)
    case Success(st) =>
      FamilyChildren(FamilyState(fam, None), b, |b|);
      Success(st.fam)
  }

  /** `parse_single_individual(gedlist, h, xref)`: the constructor needs an
      xref with a digit in it, then the loop runs over the body. */
  function ParseIndividual(g: seq<GedLine>, h: nat): (r: Result<Individual, ParseError>)
    requires h < |g|
    ensures r.Success? ==> g[h].xref == Some(r.value.uid)
    ensures r.Failure? ==> h <= r.error.line < |g|
  {
    match g[h].xref
    case None => Failure(ParseError(h, MissingId))
    case Some(x) =>
      match NewIndividual(x)
      case None => Failure(ParseError(h, IdWithoutNumber))
      case Some(ind) => Shifted(IndividualOfBody(ind, Body(g, h)), h + 1)
  }

  /** `parse_single_family(gedlist, h, xref)`. */
  function ParseFamily(g: seq<GedLine>, h: nat): (r: Result<Family, ParseError>)
    requires h < |g|
    ensures r.Success? ==> g[h].xref == Some(r.value.uid)
    ensures r.Failure? ==> h <= r.error.line < |g|
  {
    match g[h].xref
    case None => Failure(ParseError(h, MissingId))
    case Some(x) =>
      match NewFamily(x)
      case None => Failure(ParseError(h, IdWithoutNumber))
      case Some(fam) => Shifted(FamilyOfBody(fam, Body(g, h)), h + 1)
  }

  /** A body is read to its end exactly when every line is accepted in the
      date context the lines before it leave; otherwise the error is at the
      first line that is not. */
  lemma IndividualOfBodyOutcome(ind: Individual, b: seq<GedLine>)
    ensures IndividualOfBody(ind, b).Success? <==>
      forall k :: 0 <= k < |b| ==> AcceptedAt(b, k, IndividualEvents, IndividualArgKinds)
    ensures IndividualOfBody(ind, b).Failure? ==>
      var e := IndividualOfBody(ind, b).error.line;
      && !AcceptedAt(b, e, IndividualEvents, IndividualArgKinds)
      && forall j :: 0 <= j < e ==> AcceptedAt(b, j, IndividualEvents, IndividualArgKinds)
  {
    IndividualAccepted(IndividualState(ind, None), b, |b|);
  }

  lemma FamilyOfBodyOutcome(fam: Family, b: seq<GedLine>)
    ensures FamilyOfBody(fam, b).Success? <==>
      forall k :: 0 <= k < |b| ==> AcceptedAt(b, k, FamilyEvents, FamilyArgKinds)
    ensures FamilyOfBody(fam, b).Failure? ==>
      var e := FamilyOfBody(fam, b).error.line;
      && !AcceptedAt(b, e, FamilyEvents, FamilyArgKinds)
      && forall j :: 0 <= j < e ==> AcceptedAt(b, j, FamilyEvents, FamilyArgKinds)
  {
    FamilyAccepted(FamilyState(fam, None), b, |b|);
  }

  /** An individual record is built exactly when its header has an xref with
      a digit and every body line is accepted; the error names the header
      line for a bad id and otherwise the first line that is not accepted. */
  lemma ParseIndividualOutcome(g: seq<GedLine>, h: nat)
    requires h < |g|
    ensures var b := Body(g, h);
      ParseIndividual(g, h).Success? <==>
        && g[h].xref.Some? && !NoDigits(g[h].xref.value)
        && forall k :: 0 <= k < |b| ==> AcceptedAt(b, k, IndividualEvents, IndividualArgKinds)
    ensures g[h].xref.None? ==> ParseIndividual(g, h) == Failure(ParseError(h, MissingId))
    ensures g[h].xref.Some? && NoDigits(g[h].xref.value) ==>
      ParseIndividual(g, h) == Failure(ParseError(h, IdWithoutNumber))
    ensures g[h].xref.Some? && !NoDigits(g[h].xref.value) && ParseIndividual(g, h).Failure? ==>
      var b := Body(g, h);
      var k := ParseIndividual(g, h).error.line - (h + 1);
      && 0 <= k < |b|
      && !AcceptedAt(b, k, IndividualEvents, IndividualArgKinds)
      && forall j :: 0 <= j < k ==> AcceptedAt(b, j, IndividualEvents, IndividualArgKinds)
  {
    if g[h].xref.Some? && !NoDigits(g[h].xref.value) {
      IndividualOfBodyOutcome(NewIndividual(g[h].xref.value).value, Body(g, h));
    }
  }

  /** The family counterpart of `ParseIndividualOutcome`. */
  lemma ParseFamilyOutcome(g: seq<GedLine>, h: nat)
    requires h < |g|
    ensures var b := Body(g, h);
      ParseFamily(g, h).Success? <==>
        && g[h].xref.Some? && !NoDigits(g[h].xref.value)
        && forall k :: 0 <= k < |b| ==> AcceptedAt(b, k, FamilyEvents, FamilyArgKinds)
    ensures g[h].xref.None? ==> ParseFamily(g, h) == Failure(ParseError(h, MissingId))
    ensures g[h].xref.Some? && NoDigits(g[h].xref.value) ==>
      ParseFamily(g, h) == Failure(ParseError(h, IdWithoutNumber))
    ensures g[h].xref.Some? && !NoDigits(g[h].xref.value) && ParseFamily(g, h).Failure? ==>
      var b := Body(g, h);
      var k := ParseFamily(g, h).error.line - (h + 1);
      && 0 <= k < |b|
      && !AcceptedAt(b, k, FamilyEvents, FamilyArgKinds)
      && forall j :: 0 <= j < k ==> AcceptedAt(b, j, FamilyEvents, FamilyArgKinds)
  {
    if g[h].xref.Some? && !NoDigits(g[h].xref.value) {
      FamilyOfBodyOutcome(NewFamily(g[h].xref.value).value, Body(g, h));
    }
  }

  /** What a built individual holds: the numeric id of its xref, the family
      links of its `FAMC`/`FAMS` lines in order, the arguments of its last
      `NAME` line and the first argument of its last `SEX` line. */
  lemma ParseIndividualFields(g: seq<GedLine>, h: nat)
    requires h < |g| && ParseIndividual(g, h).Success?
    ensures var r := ParseIndividual(g, h).value;
      var b := Body(g, h);
      && FirstNumber(r.uid) == Some(r.intId)
      && r.famc == FirstArgs(b, |b|, FamcLine)
      && r.fams == FirstArgs(b, |b|, FamsLine)
      && r.name == (match LastOfKind(b, |b|, NameLine) case None => None case Some(k) => b[k].args)
      && r.sex == (match LastOfKind(b, |b|, SexLine) case None => None case Some(k) => FirstArg(b[k]))
  {
    var b := Body(g, h);
    var s := IndividualState(NewIndividual(g[h].xref.value).value, None);
    IndividualLinks(s, b, |b|);
    IndividualNameSex(s, b, |b|);
  }

  /** A built individual's birth and death are the dates of the last `DATE`
      lines read while `BIRT` and `DEAT` were pending, and absent otherwise. */
  lemma ParseIndividualDates(g: seq<GedLine>, h: nat)
    requires h < |g| && ParseIndividual(g, h).Success?
    ensures var r := ParseIndividual(g, h).value;
      var b := Body(g, h);
      && r.birth == (match LastDateFor(b, |b|, Birth, IndividualEvents) case None => None case Some(k) => DateOf(b[k]))
      && r.death == (match LastDateFor(b, |b|, Death, IndividualEvents) case None => None case Some(k) => DateOf(b[k]))
  {
    var b := Body(g, h);
    IndividualDates(IndividualState(NewIndividual(g[h].xref.value).value, None), b, |b|);
  }

  /** What a built family holds: the numeric id of its xref, the first
      arguments of its `CHIL` lines in order, and the first arguments of its
      last `HUSB` and `WIFE` lines. */
  lemma ParseFamilyFields(g: seq<GedLine>, h: nat)
    requires h < |g| && ParseFamily(g, h).Success?
    ensures var r := ParseFamily(g, h).value;
      var b := Body(g, h);
      && FirstNumber(r.uid) == Some(r.intId)
      && r.children == FirstArgs(b, |b|, ChilLine)
      && r.husband == (match LastOfKind(b, |b|, HusbLine) case None => None case Some(k) => FirstArg(b[k]))
      && r.wife == (match LastOfKind(b, |b|, WifeLine) case None => None case Some(k) => FirstArg(b[k]))
  {
    var b := Body(g, h);
    var s := FamilyState(NewFamily(g[h].xref.value).value, None);
    FamilyChildren(s, b, |b|);
    FamilySpouses(s, b, |b|);
  }

  /** A built family's marriage and divorce are the dates of the last `DATE`
      lines read while `MARR` and `DIV` were pending. */
  lemma ParseFamilyDates(g: seq<GedLine>, h: nat)
    requires h < |g| && ParseFamily(g, h).Success?
    ensures var r := ParseFamily(g, h).value;
      var b := Body(g, h);
      && r.marriage == (match LastDateFor(b, |b|, Marriage, FamilyEvents) case None => None case Some(k) => DateOf(b[k]))
      && r.divorce == (match LastDateFor(b, |b|, Divorce, FamilyEvents) case None => None case Some(k) => DateOf(b[k]))
  {
    var b := Body(g, h);
    FamilyDates(FamilyState(NewFamily(g[h].xref.value).value, None), b, |b|);
  }

  /** A header directly followed by a level-0 line, or by nothing, gives the
      record the constructor makes: every field at its default. */
  lemma EmptyBodyDefaults(g: seq<GedLine>, h: nat)
    requires h < |g| && g[h].xref.Some? && !NoDigits(g[h].xref.value)
    requires h + 1 == |g| || g[h + 1].level == 0
    ensures ParseIndividual(g, h) == Success(NewIndividual(g[h].xref.value).value)
    ensures ParseFamily(g, h) == Success(NewFamily(g[h].xref.value).value)
  {
  }

  /** An event line replaces the pending one and a `DATE` line uses it up:
      after `BIRT`, `DEAT`, `DATE d1`, `DATE d2` only the death is set, to
      `d1`, and the second date is read with nothing pending and dropped. */
  lemma EventContextOverwritten(ind: Individual, d1: Date, d2: Date)
    ensures var b := [
        GedLine(1, Some("BIRT"), None, Some([])),
        GedLine(1, Some("DEAT"), None, Some([])),
        GedLine(2, Some("DATE"), None, Some(FormatDate(d1))),
        GedLine(2, Some("DATE"), None, Some(FormatDate(d2)))];
      IndividualOfBody(ind, b) == Success(ind.(death := Some(d1)))
  {
    var l0 := GedLine(1, Some("BIRT"), None, Some([]));
    var l1 := GedLine(1, Some("DEAT"), None, Some([]));
    var l2 := GedLine(2, Some("DATE"), None, Some(FormatDate(d1)));
    var l3 := GedLine(2, Some("DATE"), None, Some(FormatDate(d2)));
    var b := [l0, l1, l2, l3];
    var s0 := IndividualState(ind, None);
    var s1 := IndividualState(ind, Some(Birth));
    var s2 := IndividualState(ind, Some(Death));
    var s3 := IndividualState(ind.(death := Some(d1)), None);
    EventContextSteps(ind);
    DateLineSetsDeath(ind, d1);
    DateLineKind(FormatDate(d2));
    DateLineUnpending(s3, l3);
    assert BuildIndividual(s0, b, 1) == Success(s1);
    assert BuildIndividual(s0, b, 2) == Success(s2);
    assert BuildIndividual(s0, b, 3) == Success(s3);
    assert BuildIndividual(s0, b, 4) == Success(s3);
  }

  lemma EventContextSteps(ind: Individual)
    ensures IndividualStep(IndividualState(ind, None), GedLine(1, Some("BIRT"), None, Some([])))
      == Success(IndividualState(ind, Some(Birth)))
    ensures IndividualStep(IndividualState(ind, Some(Birth)), GedLine(1, Some("DEAT"), None, Some([])))
      == Success(IndividualState(ind, Some(Death)))
  {
  }

  /** A `DATE` line read with nothing pending changes nothing. */
  lemma DateLineUnpending(s: IndividualState, l: GedLine)
    requires s.pending.None? && KindOf(l) == DateLine
    ensures IndividualStep(s, l) == Success(s)
  {
  }

  lemma DateLineKind(args: seq<string>)
    ensures KindOf(GedLine(2, Some("DATE"), None, Some(args))) == DateLine
  {
  }

  lemma DateLineSetsDeath(ind: Individual, d: Date)
    ensures IndividualStep(IndividualState(ind, Some(Death)), GedLine(2, Some("DATE"), None, Some(FormatDate(d))))
      == Success(IndividualState(ind.(death := Some(d)), None))
  {
    var l := GedLine(2, Some("DATE"), None, Some(FormatDate(d)));
    assert KindOf(l) == DateLine;
    ParseFormatDate(d);
  }

  // ---------------------------------------------------------------------------
  // The whole file

  /** Positions at or after `i` of the lines tagged `tag`, in order. */
  function HeaderPositions(g: seq<GedLine>, tag: string, i: nat): (ps: seq<nat>)
    requires i <= |g|
    ensures forall j :: 0 <= j < |ps| ==> i <= ps[j] < |g| && g[ps[j]].tag == Some(tag)
    ensures forall j, k :: 0 <= j < k < |ps| ==> ps[j] < ps[k]
    ensures forall p :: i <= p < |g| && g[p].tag == Some(tag) ==> p in ps
    decreases |g| - i
  {
    if i == |g| then []
    else if g[i].tag == Some(tag) then [i] + HeaderPositions(g, tag, i + 1)
    else HeaderPositions(g, tag, i + 1)
  }

  /** Whether the record, if any, that line `h` opens is built without raising. */
  predicate HeaderOk(g: seq<GedLine>, h: nat)
    requires h < |g|
  {
    && (g[h].tag == Some("INDI") ==> ParseIndividual(g, h).Success?)
    && (g[h].tag == Some("FAM") ==> ParseFamily(g, h).Success?)
  }

  /** The error the record opened at `h` raises. */
  function HeaderError(g: seq<GedLine>, h: nat): ParseError
    requires h < |g| && !HeaderOk(g, h)
  {
    if g[h].tag == Some("INDI") then ParseIndividual(g, h).error else ParseFamily(g, h).error
  }

  /** The records of the headers at or after `i`, in line order, or the
      error of the first header that raises. */
  function ParseFrom(g: seq<GedLine>, i: nat): (r: Result<Population, ParseError>)
    requires i <= |g|
    ensures r.Failure? ==> i <= r.error.line < |g|
    decreases |g| - i
  {
    if i == |g| then Success(Population([], []))
    else if g[i].tag == Some("INDI") then
      var ind :- ParseIndividual(g, i);
      var rest :- ParseFrom(g, i + 1);
      Success(rest.(individuals := [ind] + rest.individuals))
    else if g[i].tag == Some("FAM") then
      var fam :- ParseFamily(g, i);
      var rest :- ParseFrom(g, i + 1);
      Success(rest.(families := [fam] + rest.families))
    else ParseFrom(g, i + 1)
  }

  /** `parse_ged` on the lines of a file: a failure carries the index of the
      line that raised. */
  function ParseGed(lines: seq<string>): (r: Result<Population, ParseError>)
    ensures DecodeAll(lines).Failure? ==> r == Failure(DecodeAll(lines).error)
    ensures r.Failure? ==> r.error.line < |lines|
  {
    var g :- DecodeAll(lines);
    ParseFrom(g, 0)
  }

  /** `inds` are the records built at the header positions `hs`, one each, in order. */
  predicate BuiltIndividuals(g: seq<GedLine>, hs: seq<nat>, inds: seq<Individual>)
    decreases |hs|
  {
    if |hs| == 0 then inds == []
    else
      && |inds| > 0 && hs[0] < |g| && ParseIndividual(g, hs[0]) == Success(inds[0])
      && BuiltIndividuals(g, hs[1..], inds[1..])
  }

  /** `fams` are the records built at the header positions `hs`, one each, in order. */
  predicate BuiltFamilies(g: seq<GedLine>, hs: seq<nat>, fams: seq<Family>)
    decreases |hs|
  {
    if |hs| == 0 then fams == []
    else
      && |fams| > 0 && hs[0] < |g| && ParseFamily(g, hs[0]) == Success(fams[0])
      && BuiltFamilies(g, hs[1..], fams[1..])
  }

  /** One individual per `INDI` line, in line order, each the record built
      from that header. */
  lemma {:induction false} ParseFromIndividuals(g: seq<GedLine>, i: nat)
    requires i <= |g| && ParseFrom(g, i).Success?
    ensures BuiltIndividuals(g, HeaderPositions(g, "INDI", i), ParseFrom(g, i).value.individuals)
    decreases |g| - i
  {
    if i < |g| {
      ParseFromStepIndividuals(g, i);
      ParseFromIndividuals(g, i + 1);
      HeaderPositionsStep(g, "INDI", i);
      BuiltIndividualsStep(g, i, ParseFrom(g, i).value.individuals, ParseFrom(g, i + 1).value.individuals,
        HeaderPositions(g, "INDI", i), HeaderPositions(g, "INDI", i + 1));
    }
  }

  lemma BuiltIndividualsStep(g: seq<GedLine>, i: nat, xs: seq<Individual>, rest: seq<Individual>, hs: seq<nat>, hsRest: seq<nat>)
    requires i < |g|
    requires hs == (if g[i].tag == Some("INDI") then [i] else []) + hsRest
    requires g[i].tag == Some("INDI") ==> ParseIndividual(g, i).Success? && xs == [ParseIndividual(g, i).value] + rest
    requires g[i].tag != Some("INDI") ==> xs == rest
    requires BuiltIndividuals(g, hsRest, rest)
    ensures BuiltIndividuals(g, hs, xs)
  {
  }


  /** One family per `FAM` line, in line order, each the record built
      from that header. */
  lemma {:induction false} ParseFromFamilies(g: seq<GedLine>, i: nat)
    requires i <= |g| && ParseFrom(g, i).Success?
    ensures BuiltFamilies(g, HeaderPositions(g, "FAM", i), ParseFrom(g, i).value.families)
    decreases |g| - i
  {
    if i < |g| {
      ParseFromStepFamilies(g, i);
      ParseFromFamilies(g, i + 1);
      HeaderPositionsStep(g, "FAM", i);
      var xs, rest := ParseFrom(g, i).value.families, ParseFrom(g, i + 1).value.families;
      if g[i].tag == Some("FAM") {
        BuiltFamiliesStep(g, i, xs, rest, HeaderPositions(g, "FAM", i), HeaderPositions(g, "FAM", i + 1));
      } else {
        assert xs == rest && HeaderPositions(g, "FAM", i) == HeaderPositions(g, "FAM", i + 1);
      }
    }
  }

  lemma BuiltFamiliesStep(g: seq<GedLine>, i: nat, xs: seq<Family>, rest: seq<Family>, hs: seq<nat>, hsRest: seq<nat>)
    requires i < |g|
    requires hs == (if g[i].tag == Some("FAM") then [i] else []) + hsRest
    requires g[i].tag == Some("FAM") ==> ParseFamily(g, i).Success? && xs == [ParseFamily(g, i).value] + rest
    requires g[i].tag != Some("FAM") ==> xs == rest
    requires BuiltFamilies(g, hsRest, rest)
    ensures BuiltFamilies(g, hs, xs)
  {
  }


  /** What one line adds to the individuals of a successful parse. */
  lemma ParseFromStepIndividuals(g: seq<GedLine>, i: nat)
    requires i < |g| && ParseFrom(g, i).Success?
    ensures ParseFrom(g, i + 1).Success?
    ensures var p, rest := ParseFrom(g, i).value, ParseFrom(g, i + 1).value;
      if g[i].tag == Some("INDI")
      then ParseIndividual(g, i).Success? && p.individuals == [ParseIndividual(g, i).value] + rest.individuals
      else p.individuals == rest.individuals
  {
  }

  /** What one line adds to the families of a successful parse. */
  lemma ParseFromStepFamilies(g: seq<GedLine>, i: nat)
    requires i < |g| && ParseFrom(g, i).Success?
    ensures ParseFrom(g, i + 1).Success?
    ensures var p, rest := ParseFrom(g, i).value, ParseFrom(g, i + 1).value;
      if g[i].tag == Some("FAM")
      then ParseFamily(g, i).Success? && p.families == [ParseFamily(g, i).value] + rest.families
      else p.families == rest.families
  {
  }

  lemma HeaderPositionsStep(g: seq<GedLine>, tag: string, i: nat)
    requires i < |g|
    ensures HeaderPositions(g, tag, i)
      == (if g[i].tag == Some(tag) then [i] else []) + HeaderPositions(g, tag, i + 1)
  {
  }

  /** Parsing succeeds exactly when every header's record is built. */
  lemma {:induction false} ParseFromSucceeds(g: seq<GedLine>, i: nat)
    requires i <= |g|
    ensures ParseFrom(g, i).Success? <==> forall h :: i <= h < |g| ==> HeaderOk(g, h)
    ensures ParseFrom(g, i).Failure? ==>
      exists h :: i <= h < |g| && !HeaderOk(g, h) && ParseFrom(g, i).error == HeaderError(g, h)
        && forall j :: i <= j < h ==> HeaderOk(g, j)
    decreases |g| - i
  {
    if i < |g| {
      ParseFromSucceeds(g, i + 1);
      ParseFromHead(g, i);
      if ParseFrom(g, i).Failure? && HeaderOk(g, i) {
        var h :| i + 1 <= h < |g| && !HeaderOk(g, h) && ParseFrom(g, i + 1).error == HeaderError(g, h)
          && forall j :: i + 1 <= j < h ==> HeaderOk(g, j);
        assert forall j :: i <= j < h ==> HeaderOk(g, j);
      }
    }
  }

  /** The first line decides the outcome when its record raises, and
      otherwise leaves it to the lines after it. */
  lemma ParseFromHead(g: seq<GedLine>, i: nat)
    requires i < |g|
    ensures !HeaderOk(g, i) ==> ParseFrom(g, i) == Failure(HeaderError(g, i))
    ensures HeaderOk(g, i) ==> ParseFrom(g, i).Success? == ParseFrom(g, i + 1).Success?
    ensures HeaderOk(g, i) && ParseFrom(g, i).Failure? ==> ParseFrom(g, i).error == ParseFrom(g, i + 1).error
  {
  }
}
