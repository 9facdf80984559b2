/** The parent/child and spouse rules of src/user_stories.py, US08 to US12.
    Like the date-order rules, each goes through the whole population with
    no early exit and returns `False` exactly when it reported something. */
module FamilyRules {
  import opened Wrappers
  import opened Dates
  import opened Entities
  import opened Findings
  import opened Lookup

  // ---------------------------------------------------------------------------
  // US08 birth_before_marriage_of_parents

  /** `family.uid == individual.famc[0]`: the family is the one the
      individual is listed as a child of (only the first `FAMC` counts). */
  predicate ChildOf(ind: Individual, f: Family) {
    |ind.famc| > 0 && f.uid == ind.famc[0]
  }

  /** Born strictly before the parents' marriage. */
  predicate BornBeforeMarriage(ind: Individual, f: Family) {
    f.marriage.Some? && ind.birth.Some? && Precedes(ind.birth.value, f.marriage.value)
  }

  /** Born strictly after the parents' divorce; the rule only looks at the
      divorce of a family that also has a marriage date. */
  predicate BornAfterDivorce(ind: Individual, f: Family) {
    f.marriage.Some? && f.divorce.Some? && ind.birth.Some? && Precedes(f.divorce.value, ind.birth.value)
  }

  /** `family.marriage > individual.birthdate` compares a date with `None`,
      and raises, when a child of a married family has no birth date. */
  predicate US08Comparable(ind: Individual, f: Family) {
    ChildOf(ind, f) && f.marriage.Some? ==> ind.birth.Some?
  }

  predicate US08Flags(ind: Individual, f: Family) {
    ChildOf(ind, f) && (BornBeforeMarriage(ind, f) || BornAfterDivorce(ind, f))
  }

  /** `g` is what US08 reports for child `ind` of family `f`. */
  predicate US08Reports(ind: Individual, f: Family, g: Finding) {
    US08Flags(ind, f) && g == AnomalyOf(US08, [ind.uid, f.uid])
  }

  function US08Pair(ind: Individual, f: Family): (fs: seq<Finding>)
    requires US08Comparable(ind, f)
    ensures fs == [] <==> !US08Flags(ind, f)
    ensures forall g :: g in fs <==> US08Reports(ind, f, g)
    ensures |fs| == Flag(ChildOf(ind, f) && BornBeforeMarriage(ind, f)) + Flag(ChildOf(ind, f) && BornAfterDivorce(ind, f))
  {
    if !ChildOf(ind, f) || f.marriage.None? then []
    else
      var birth, m := ind.birth.value, f.marriage.value;
      (if Precedes(birth, m) then [AnomalyOf(US08, [ind.uid, f.uid])] else [])
      + (if f.divorce.Some? && Precedes(f.divorce.value, birth) then [AnomalyOf(US08, [ind.uid, f.uid])] else [])
  }

  /** The inner loop: every family carrying the id, with no `break`. */
  function US08Individual(ind: Individual, fams: seq<Family>): (fs: seq<Finding>)
    requires forall j :: 0 <= j < |fams| ==> US08Comparable(ind, fams[j])
    ensures fs == [] <==> forall j :: 0 <= j < |fams| ==> !US08Flags(ind, fams[j])
    ensures forall g :: g in fs <==> exists j :: 0 <= j < |fams| && US08Reports(ind, fams[j], g)
  {
    var parts := seq(|fams|, j requires 0 <= j < |fams| => US08Pair(ind, fams[j]));
    assert forall j :: 0 <= j < |fams| ==> parts[j] == US08Pair(ind, fams[j]);
    Scan(parts).findings
  }

  /** Every child of a married family has a birth date to compare. */
  predicate ChildBirthsComparable(inds: seq<Individual>, fams: seq<Family>) {
    forall i, j :: 0 <= i < |inds| && 0 <= j < |fams| ==> US08Comparable(inds[i], fams[j])
  }

  /** US08 `birth_before_marriage_of_parents`: an anomaly naming the child
      and the family for each family that carries the child's first `FAMC`
      id and married after the birth, and another when it also divorced
      before the birth. */
  function BirthBeforeMarriageOfParents(inds: seq<Individual>, fams: seq<Family>): (o: Outcome)
    requires ChildBirthsComparable(inds, fams)
    ensures o.passed <==> forall i, j :: 0 <= i < |inds| && 0 <= j < |fams| ==> !US08Flags(inds[i], fams[j])
    ensures forall g :: g in o.findings <==>
      exists i, j :: 0 <= i < |inds| && 0 <= j < |fams| && US08Reports(inds[i], fams[j], g)
  {
    var parts := seq(|inds|, i requires 0 <= i < |inds| => US08Individual(inds[i], fams));
    assert forall i :: 0 <= i < |inds| ==> parts[i] == US08Individual(inds[i], fams);
    Scan(parts)
  }

  /** A child born both before the marriage and after the divorce (the
      divorce date being earlier than the marriage) is reported twice for
      the same family. */
  lemma US08ReportsTwice(ind: Individual, f: Family)
    requires ChildOf(ind, f) && BornBeforeMarriage(ind, f) && BornAfterDivorce(ind, f)
    ensures US08Pair(ind, f) == [AnomalyOf(US08, [ind.uid, f.uid]), AnomalyOf(US08, [ind.uid, f.uid])]
    ensures Precedes(f.divorce.value, f.marriage.value)
  {
  }

  // ---------------------------------------------------------------------------
  // US09 birth_before_death_of_parents

  /** The days `timedelta(days=266)` stands for: roughly nine months. */
  const GestationDays: int := 266

  /** Family `p` carries the individual's first `FAMC` id and no earlier family does. */
  predicate IsFirstParentFamily(fams: seq<Family>, ind: Individual, p: int) {
    0 <= p < |fams| && ChildOf(ind, fams[p]) && forall k :: 0 <= k < p ==> !ChildOf(ind, fams[k])
  }

  /** The family of the loop with `break`: the first whose id is the
      individual's first `FAMC` id. */
  function ParentFamily(fams: seq<Family>, ind: Individual): (r: Option<Family>)
    ensures r.Some? ==> r.value in fams && ChildOf(ind, r.value)
    ensures r.None? <==> forall j :: 0 <= j < |fams| ==> !ChildOf(ind, fams[j])
  {
    if |ind.famc| == 0 then None
    else
      match FamilyWithUid(fams, ind.famc[0], 0)
      case None => None
      case Some(k) => Some(fams[k])
  }

  /** With several families carrying the `FAMC` id, the loop breaks at the
      first of them. */
  lemma ParentFamilyIsFirst(fams: seq<Family>, ind: Individual, p: int)
    requires IsFirstParentFamily(fams, ind, p)
    ensures ParentFamily(fams, ind) == Some(fams[p])
  {
  }

  /** The father the last-match loop finds, for someone with a parent family. */
  function Father(inds: seq<Individual>, fams: seq<Family>, ind: Individual): (r: Option<Individual>)
    ensures r.Some? ==> ParentFamily(fams, ind).Some? && r.value in inds
    ensures r.Some? ==> HasUid(r.value, ParentFamily(fams, ind).value.husband)
    ensures ParentFamily(fams, ind).Some? && r.None? ==>
      forall k :: 0 <= k < |inds| ==> !HasUid(inds[k], ParentFamily(fams, ind).value.husband)
    ensures ParentFamily(fams, ind).Some? ==> r == Resolve(inds, ParentFamily(fams, ind).value.husband)
  {
    match ParentFamily(fams, ind)
    case None => None
    case Some(f) => Resolve(inds, f.husband)
  }

  /** The mother the last-match loop finds, for someone with a parent family. */
  function Mother(inds: seq<Individual>, fams: seq<Family>, ind: Individual): (r: Option<Individual>)
    ensures r.Some? ==> ParentFamily(fams, ind).Some? && r.value in inds
    ensures r.Some? ==> HasUid(r.value, ParentFamily(fams, ind).value.wife)
    ensures ParentFamily(fams, ind).Some? && r.None? ==>
      forall k :: 0 <= k < |inds| ==> !HasUid(inds[k], ParentFamily(fams, ind).value.wife)
    ensures ParentFamily(fams, ind).Some? ==> r == Resolve(inds, ParentFamily(fams, ind).value.wife)
  {
    match ParentFamily(fams, ind)
    case None => None
    case Some(f) => Resolve(inds, f.wife)
  }

  /** What `birth_before_death_of_parents` needs of an individual with a
      `FAMC` id so as not to raise: the family and both parents exist
      (`father.death` on `None` raises), a dead father's child has a birth
      date at least 267 days after 0001-01-01 (`birthdate - timedelta(266)`),
      and a dead mother's child has a birth date. */
  predicate US09Defined(inds: seq<Individual>, fams: seq<Family>, ind: Individual) {
    |ind.famc| > 0 ==>
      && ParentFamily(fams, ind).Some?
      && Father(inds, fams, ind).Some? && Mother(inds, fams, ind).Some?
      && (Father(inds, fams, ind).value.death.Some? ==> ind.birth.Some? && Ordinal(ind.birth.value) > GestationDays)
      && (Mother(inds, fams, ind).value.death.Some? ==> ind.birth.Some?)
  }

  /** The father died more than 266 days before the birth. */
  predicate FatherDiedTooEarly(inds: seq<Individual>, fams: seq<Family>, ind: Individual) {
    && Father(inds, fams, ind).Some? && Father(inds, fams, ind).value.death.Some? && ind.birth.Some?
    && Ordinal(Father(inds, fams, ind).value.death.value) < Ordinal(ind.birth.value) - GestationDays
  }

  /** The mother died strictly before the birth. */
  predicate MotherDiedBefore(inds: seq<Individual>, fams: seq<Family>, ind: Individual) {
    && Mother(inds, fams, ind).Some? && Mother(inds, fams, ind).value.death.Some? && ind.birth.Some?
    && Precedes(Mother(inds, fams, ind).value.death.value, ind.birth.value)
  }

  /** `g` is what US09 reports for `ind`. */
  predicate US09Reports(inds: seq<Individual>, fams: seq<Family>, ind: Individual, g: Finding) {
    && (FatherDiedTooEarly(inds, fams, ind) || MotherDiedBefore(inds, fams, ind))
    && ParentFamily(fams, ind).Some? && g == ErrorOf(US09, [ParentFamily(fams, ind).value.uid, ind.uid])
  }

  function US09Individual(inds: seq<Individual>, fams: seq<Family>, ind: Individual): (fs: seq<Finding>)
    requires US09Defined(inds, fams, ind)
    ensures fs == [] <==> !FatherDiedTooEarly(inds, fams, ind) && !MotherDiedBefore(inds, fams, ind)
    ensures forall g :: g in fs <==> US09Reports(inds, fams, ind, g)
    ensures |fs| == Flag(FatherDiedTooEarly(inds, fams, ind)) + Flag(MotherDiedBefore(inds, fams, ind))
  {
    if |ind.famc| == 0 then []
    else
      var fam, father, mother := ParentFamily(fams, ind).value, Father(inds, fams, ind).value, Mother(inds, fams, ind).value;
      (if father.death.Some? && Ordinal(father.death.value) < Ordinal(ind.birth.value) - GestationDays
       then [ErrorOf(US09, [fam.uid, ind.uid])] else [])
      + (if mother.death.Some? && Precedes(mother.death.value, ind.birth.value)
         then [ErrorOf(US09, [fam.uid, ind.uid])] else [])
  }

  /** Every individual with a parent family can read both parents, as US09 does. */
  predicate ParentsResolve(inds: seq<Individual>, fams: seq<Family>) {
    forall i :: 0 <= i < |inds| ==> US09Defined(inds, fams, inds[i])
  }

  /** The reports of US09, one entry per individual in list order. */
  function US09Parts(inds: seq<Individual>, fams: seq<Family>): (parts: seq<seq<Finding>>)
    requires ParentsResolve(inds, fams)
    ensures |parts| == |inds|
    ensures forall i :: 0 <= i < |inds| ==>
      (parts[i] == [] <==> !FatherDiedTooEarly(inds, fams, inds[i]) && !MotherDiedBefore(inds, fams, inds[i]))
    ensures forall i, g :: 0 <= i < |inds| ==> (g in parts[i] <==> US09Reports(inds, fams, inds[i], g))
  {
    seq(|inds|, i requires 0 <= i < |inds| => US09Individual(inds, fams, inds[i]))
  }

  /** US09 `birth_before_death_of_parents`: an error naming the parents'
      family and the child when the father died more than 266 days before
      the birth, and another when the mother died before it. */
  function BirthBeforeDeathOfParents(inds: seq<Individual>, fams: seq<Family>): (o: Outcome)
    requires ParentsResolve(inds, fams)
    ensures o.passed <==> forall i :: 0 <= i < |inds| ==>
      !FatherDiedTooEarly(inds, fams, inds[i]) && !MotherDiedBefore(inds, fams, inds[i])
    ensures forall g :: g in o.findings <==> exists i :: 0 <= i < |inds| && US09Reports(inds, fams, inds[i], g)
  {
    var parts := US09Parts(inds, fams);
    Scan(parts)
  }

  /** A child born within 266 days of the father's death, to a mother alive
      at the birth, draws no report at all: the rule has no anomaly for a
      father who died during the pregnancy. */
  lemma PosthumousChildNotReported(inds: seq<Individual>, fams: seq<Family>, ind: Individual)
    requires US09Defined(inds, fams, ind) && |ind.famc| > 0
    requires Father(inds, fams, ind).value.death.Some?
    requires Ordinal(ind.birth.value) - GestationDays <= Ordinal(Father(inds, fams, ind).value.death.value)
    requires Mother(inds, fams, ind).value.death.None?
    ensures US09Individual(inds, fams, ind) == []
  {
  }

  // ---------------------------------------------------------------------------
  // US10 marriage_age

  /** `datetime(today.year - 14, today.month, today.day)`. */
  function MinBirth(today: Date): (d: Ymd)
    ensures IsCalendarDate(d) <==>
      today.year - 14 >= MinYear && !(today.month == 2 && today.day == 29 && !IsLeapYear(today.year - 14))
  {
    Ymd(today.year - 14, today.month, today.day)
  }

  /** The husband and wife the early-exit loop of `marriage_age` holds. */
  function MarriageAgeSpouses(inds: seq<Individual>, f: Family): (r: (Option<Individual>, Option<Individual>))
    ensures r.0.Some? ==> r.0.value in inds && HasUid(r.0.value, f.husband)
    ensures r.1.Some? ==> r.1.value in inds && HasUid(r.1.value, f.wife)
    ensures r.0.None? <==> forall k :: 0 <= k < |inds| ==> !HasUid(inds[k], f.husband)
    ensures r.1.None? <==> forall k :: 0 <= k < |inds| ==> !HasUid(inds[k], f.wife)
  {
    var scan := SpouseScan(inds, f.husband, f.wife, 0, None, None);
    (if scan.0.Some? then Some(inds[scan.0.value]) else None,
     if scan.1.Some? then Some(inds[scan.1.value]) else None)
  }

  /** When both spouses are present, `marriage_age` holds, for each, the
      last individual with the id among those up to the position where the
      later of the two first appears; later duplicates are never read. */
  lemma MarriageAgeSpousesStop(inds: seq<Individual>, f: Family)
    requires FirstWithUid(inds, f.husband, 0).Some? && FirstWithUid(inds, f.wife, 0).Some?
    ensures var p := BothFirstSeen(inds, f.husband, f.wife);
      LastWithUid(inds, f.husband, p + 1).Some? && LastWithUid(inds, f.wife, p + 1).Some? &&
      MarriageAgeSpouses(inds, f)
        == (Some(inds[LastWithUid(inds, f.husband, p + 1).value]), Some(inds[LastWithUid(inds, f.wife, p + 1).value]))
  {
    SpouseScanStops(inds, f.husband, f.wife);
  }

  /** Both spouses are found and have a birth date; `husband.birthdate` on
      `None`, or `None > min_birt`, raises. */
  predicate US10Defined(inds: seq<Individual>, f: Family) {
    var sp := MarriageAgeSpouses(inds, f);
    sp.0.Some? && sp.1.Some? && sp.0.value.birth.Some? && sp.1.value.birth.Some?
  }

  /** Born strictly after `min`, i.e. younger than 14 years today. */
  predicate BornAfterDate(ind: Individual, min: Date) {
    ind.birth.Some? && Precedes(min, ind.birth.value)
  }

  /** A spouse was found and is younger than 14 years today. */
  predicate TooYoung(sp: Option<Individual>, min: Date) {
    sp.Some? && BornAfterDate(sp.value, min)
  }

  /** `g` is what US10 reports for family `f`. */
  predicate US10Reports(inds: seq<Individual>, f: Family, min: Date, g: Finding) {
    var sp := MarriageAgeSpouses(inds, f);
    || (sp.0.Some? && BornAfterDate(sp.0.value, min) && g == AnomalyOf(US10, [f.uid, sp.0.value.uid]))
    || (sp.1.Some? && BornAfterDate(sp.1.value, min) && g == AnomalyOf(US10, [f.uid, sp.1.value.uid]))
  }

  predicate US10Flags(inds: seq<Individual>, f: Family, min: Date) {
    var sp := MarriageAgeSpouses(inds, f);
    (sp.0.Some? && BornAfterDate(sp.0.value, min)) || (sp.1.Some? && BornAfterDate(sp.1.value, min))
  }

  function US10Family(inds: seq<Individual>, f: Family, min: Date): (fs: seq<Finding>)
    requires US10Defined(inds, f)
    ensures fs == [] <==> !US10Flags(inds, f, min)
    ensures forall g :: g in fs <==> US10Reports(inds, f, min, g)
    ensures |fs| == Flag(TooYoung(MarriageAgeSpouses(inds, f).0, min)) + Flag(TooYoung(MarriageAgeSpouses(inds, f).1, min))
  {
    var sp := MarriageAgeSpouses(inds, f);
    var husband, wife := sp.0.value, sp.1.value;
    (if Precedes(min, husband.birth.value) then [AnomalyOf(US10, [f.uid, husband.uid])] else [])
    + (if Precedes(min, wife.birth.value) then [AnomalyOf(US10, [f.uid, wife.uid])] else [])
  }

  /** Every family's spouses are found, with birth dates, as US10 reads them. */
  predicate SpouseBirthsKnown(inds: seq<Individual>, fams: seq<Family>) {
    forall i :: 0 <= i < |fams| ==> US10Defined(inds, fams[i])
  }

  /** US10 `marriage_age`: an anomaly naming the family and the spouse for
      each spouse born after the same day 14 years ago, husband first.
      `datetime(...)` raises for a 29 February that the earlier year does
      not have, hence the requirement that the day exists. */
  function MarriageAge(inds: seq<Individual>, fams: seq<Family>, today: Date): (o: Outcome)
    requires IsCalendarDate(MinBirth(today))
    requires SpouseBirthsKnown(inds, fams)
    ensures o.passed <==> forall i :: 0 <= i < |fams| ==> !US10Flags(inds, fams[i], MinBirth(today))
    ensures forall g :: g in o.findings <==> exists i :: 0 <= i < |fams| && US10Reports(inds, fams[i], MinBirth(today), g)
  {
    var min: Date := MinBirth(today);
    var parts := seq(|fams|, i requires 0 <= i < |fams| => US10Family(inds, fams[i], min));
    assert forall i :: 0 <= i < |fams| ==> parts[i] == US10Family(inds, fams[i], min);
    Scan(parts)
  }

  /** When neither spouse's id is shared, the early-exit loop finds the same
      individuals as the last-match loop of the other rules. */
  lemma MarriageAgeSpousesUnique(inds: seq<Individual>, f: Family)
    requires Resolve(inds, f.husband).Some? && Resolve(inds, f.wife).Some?
    requires UniqueUid(inds, f.husband) && UniqueUid(inds, f.wife)
    ensures MarriageAgeSpouses(inds, f) == (Resolve(inds, f.husband), Resolve(inds, f.wife))
  {
    SpouseScanUnique(inds, f.husband, f.wife);
  }

  // ---------------------------------------------------------------------------
  // US11 no_bigamy

  /** `fam_compare.marriage > family.marriage` is `False` for two missing
      dates and raises for one. */
  predicate MarriagesComparable(f: Family, c: Family) {
    f.marriage.Some? <==> c.marriage.Some?
  }

  /** `c` was married strictly after `f`. */
  predicate MarriedLater(f: Family, c: Family) {
    f.marriage.Some? && c.marriage.Some? && Precedes(f.marriage.value, c.marriage.value)
  }

  /** The husband of `f` married again in `c`, and `f`'s divorce came before
      that marriage or `f`'s wife had died before it. */
  predicate HusbandSideFlag(inds: seq<Individual>, f: Family, c: Family) {
    && c.husband == f.husband && MarriedLater(f, c) && f.divorce.Some? && First(inds, f.wife).Some?
    && (|| Precedes(f.divorce.value, c.marriage.value)
        || (First(inds, f.wife).value.death.Some? && Precedes(First(inds, f.wife).value.death.value, c.marriage.value)))
  }

  /** The wife of `f` married again in `c`, and `f`'s divorce came after that
      marriage or `f`'s husband had died before `f`'s own marriage. */
  predicate WifeSideFlag(inds: seq<Individual>, f: Family, c: Family) {
    && c.wife == f.wife && MarriedLater(f, c) && f.divorce.Some? && First(inds, f.husband).Some?
    && (|| Precedes(c.marriage.value, f.divorce.value)
        || (First(inds, f.husband).value.death.Some? && Precedes(First(inds, f.husband).value.death.value, f.marriage.value)))
  }

  /** What `no_bigamy` needs of a pair of distinct families so as not to
      raise: comparable marriage dates when a spouse is shared; for a later
      marriage, the other spouse found by `next(...)` and a divorce date to
      compare; and, when it reports, three ids to join. */
  predicate US11Defined(inds: seq<Individual>, f: Family, c: Family) {
    && (c.husband == f.husband || c.wife == f.wife ==> MarriagesComparable(f, c))
    && (c.husband == f.husband && MarriedLater(f, c) ==> First(inds, f.wife).Some? && f.divorce.Some?)
    && (c.wife == f.wife && MarriedLater(f, c) ==> First(inds, f.husband).Some? && f.divorce.Some?)
    && (HusbandSideFlag(inds, f, c) ==> c.wife.Some? && f.husband.Some?)
    && (WifeSideFlag(inds, f, c) ==> c.husband.Some? && f.wife.Some?)
  }

  /** `g` is what US11 reports for family `f` compared with `c`. */
  predicate US11Reports(inds: seq<Individual>, f: Family, c: Family, g: Finding) {
    || (&& HusbandSideFlag(inds, f, c) && f.wife.Some? && c.wife.Some? && f.husband.Some?
        && g == AnomalyOf(US11, [f.wife.value, c.wife.value, f.husband.value]))
    || (&& WifeSideFlag(inds, f, c) && f.husband.Some? && c.husband.Some? && f.wife.Some?
        && g == AnomalyOf(US11, [f.husband.value, c.husband.value, f.wife.value]))
  }

  function US11Pair(inds: seq<Individual>, f: Family, c: Family): (fs: seq<Finding>)
    requires US11Defined(inds, f, c)
    ensures fs == [] <==> !HusbandSideFlag(inds, f, c) && !WifeSideFlag(inds, f, c)
    ensures forall g :: g in fs <==> US11Reports(inds, f, c, g)
    ensures |fs| == Flag(HusbandSideFlag(inds, f, c)) + Flag(WifeSideFlag(inds, f, c))
  {
    (if c.husband == f.husband && MarriedLater(f, c) then
       var wife := First(inds, f.wife).value;
       if Precedes(f.divorce.value, c.marriage.value) || (wife.death.Some? && Precedes(wife.death.value, c.marriage.value))
       then [AnomalyOf(US11, [f.wife.value, c.wife.value, f.husband.value])] else []
     else [])
    + (if c.wife == f.wife && MarriedLater(f, c) then
         var husb := First(inds, f.husband).value;
         if Precedes(c.marriage.value, f.divorce.value) || (husb.death.Some? && Precedes(husb.death.value, f.marriage.value))
         then [AnomalyOf(US11, [f.husband.value, c.husband.value, f.wife.value])] else []
       else [])
  }

  /** The inner loop for family `fams[i]`, skipping the family itself. */
  function US11Family(inds: seq<Individual>, fams: seq<Family>, i: nat): (fs: seq<Finding>)
    requires i < |fams|
    requires forall j :: 0 <= j < |fams| && j != i ==> US11Defined(inds, fams[i], fams[j])
    ensures fs == [] <==> forall j :: 0 <= j < |fams| && j != i ==>
      !HusbandSideFlag(inds, fams[i], fams[j]) && !WifeSideFlag(inds, fams[i], fams[j])
    ensures forall g :: g in fs <==> exists j :: 0 <= j < |fams| && j != i && US11Reports(inds, fams[i], fams[j], g)
  {
    var parts := seq(|fams|, j requires 0 <= j < |fams| => if j == i then [] else US11Pair(inds, fams[i], fams[j]));
    US11FamilyScan(inds, fams, i, parts);
    Scan(parts).findings
  }

  /** The scan of the per-pair findings, with the family's own slot empty. */
  lemma US11FamilyScan(inds: seq<Individual>, fams: seq<Family>, i: nat, parts: seq<seq<Finding>>)
    requires i < |fams|
    requires forall j :: 0 <= j < |fams| && j != i ==> US11Defined(inds, fams[i], fams[j])
    requires |parts| == |fams| && parts[i] == []
    requires forall j :: 0 <= j < |fams| && j != i ==> parts[j] == US11Pair(inds, fams[i], fams[j])
    ensures Scan(parts).findings == [] <==> forall j :: 0 <= j < |fams| && j != i ==>
      !HusbandSideFlag(inds, fams[i], fams[j]) && !WifeSideFlag(inds, fams[i], fams[j])
    ensures forall g :: g in Scan(parts).findings <==>
      exists j :: 0 <= j < |fams| && j != i && US11Reports(inds, fams[i], fams[j], g)
  {
  }

  /** Every pair of distinct families US11 compares can be compared without raising. */
  predicate RemarriagesComparable(inds: seq<Individual>, fams: seq<Family>) {
    forall i, j :: 0 <= i < |fams| && 0 <= j < |fams| && i != j ==> US11Defined(inds, fams[i], fams[j])
  }

  /** US11 `no_bigamy`: every ordered pair of distinct families is compared,
      on the husband's side and then on the wife's. */
  function NoBigamy(inds: seq<Individual>, fams: seq<Family>): (o: Outcome)
    requires RemarriagesComparable(inds, fams)
    ensures o.passed <==> forall i, j :: 0 <= i < |fams| && 0 <= j < |fams| && i != j ==>
      !HusbandSideFlag(inds, fams[i], fams[j]) && !WifeSideFlag(inds, fams[i], fams[j])
    ensures forall g :: g in o.findings <==>
      exists i, j :: 0 <= i < |fams| && 0 <= j < |fams| && i != j && US11Reports(inds, fams[i], fams[j], g)
  {
    var parts := seq(|fams|, i requires 0 <= i < |fams| => US11Family(inds, fams, i));
    NoBigamyPassed(inds, fams, parts);
    NoBigamyFindings(inds, fams, parts);
    Scan(parts)
  }

  lemma NoBigamyPassed(inds: seq<Individual>, fams: seq<Family>, parts: seq<seq<Finding>>)
    requires forall i, j :: 0 <= i < |fams| && 0 <= j < |fams| && i != j ==> US11Defined(inds, fams[i], fams[j])
    requires |parts| == |fams| && forall i :: 0 <= i < |fams| ==> parts[i] == US11Family(inds, fams, i)
    ensures Scan(parts).passed <==> forall i, j :: 0 <= i < |fams| && 0 <= j < |fams| && i != j ==>
      !HusbandSideFlag(inds, fams[i], fams[j]) && !WifeSideFlag(inds, fams[i], fams[j])
  {
    if !Scan(parts).passed {
      var i :| 0 <= i < |parts| && parts[i] != [];
      assert US11Family(inds, fams, i) != [];
    }
    if Scan(parts).passed {
      forall i, j | 0 <= i < |fams| && 0 <= j < |fams| && i != j
        ensures !HusbandSideFlag(inds, fams[i], fams[j]) && !WifeSideFlag(inds, fams[i], fams[j])
      {
        assert parts[i] == [];
      }
    }
  }

  lemma NoBigamyFindings(inds: seq<Individual>, fams: seq<Family>, parts: seq<seq<Finding>>)
    requires forall i, j :: 0 <= i < |fams| && 0 <= j < |fams| && i != j ==> US11Defined(inds, fams[i], fams[j])
    requires |parts| == |fams| && forall i :: 0 <= i < |fams| ==> parts[i] == US11Family(inds, fams, i)
    ensures forall g :: g in Scan(parts).findings <==>
      exists i, j :: 0 <= i < |fams| && 0 <= j < |fams| && i != j && US11Reports(inds, fams[i], fams[j], g)
  {
    forall g ensures g in Scan(parts).findings <==>
      exists i, j :: 0 <= i < |fams| && 0 <= j < |fams| && i != j && US11Reports(inds, fams[i], fams[j], g)
    {
      if g in Scan(parts).findings {
        var i :| 0 <= i < |parts| && g in parts[i];
        assert g in US11Family(inds, fams, i);
      }
      if exists i, j :: 0 <= i < |fams| && 0 <= j < |fams| && i != j && US11Reports(inds, fams[i], fams[j], g) {
        var i, j :| 0 <= i < |fams| && 0 <= j < |fams| && i != j && US11Reports(inds, fams[i], fams[j], g);
        assert g in parts[i];
      }
    }
  }

  /** On the husband's side the test is inverted: a man who divorced and
      only then married again is reported ... */
  lemma RemarriageAfterDivorceReported(inds: seq<Individual>, f: Family, c: Family)
    requires c.husband == f.husband && MarriedLater(f, c) && First(inds, f.wife).Some?
    requires f.divorce.Some? && Precedes(f.divorce.value, c.marriage.value)
    ensures HusbandSideFlag(inds, f, c)
  {
  }

  /** ... while one who married again before the divorce, his first wife
      still alive, is not. */
  lemma MarriageBeforeDivorceNotReported(inds: seq<Individual>, f: Family, c: Family)
    requires c.husband == f.husband && MarriedLater(f, c) && First(inds, f.wife).Some?
    requires f.divorce.Some? && Precedes(c.marriage.value, f.divorce.value)
    requires First(inds, f.wife).value.death.None?
    ensures !HusbandSideFlag(inds, f, c)
  {
  }

  // ---------------------------------------------------------------------------
  // US12 parents_not_too_old

  const DaysIn60Years: int := 21900
  const DaysIn80Years: int := 29200

  /** The child with id `c` was born more than 21900 days after its mother
      (`next(...)` finds both). */
  predicate MotherTooOld(inds: seq<Individual>, f: Family, c: string) {
    var mother, child := First(inds, f.wife), First(inds, Some(c));
    && mother.Some? && child.Some? && mother.value.birth.Some? && child.value.birth.Some?
    && Ordinal(child.value.birth.value) - Ordinal(mother.value.birth.value) > DaysIn60Years
  }

  predicate FatherTooOld(inds: seq<Individual>, f: Family, c: string) {
    var father, child := First(inds, f.husband), First(inds, Some(c));
    && father.Some? && child.Some? && father.value.birth.Some? && child.value.birth.Some?
    && Ordinal(child.value.birth.value) - Ordinal(father.value.birth.value) > DaysIn80Years
  }

  /** `child.birthdate - mother.birthdate` raises unless both dates are
      there, for every child and parent that `next(...)` finds. */
  predicate US12ChildDefined(inds: seq<Individual>, f: Family, c: string) {
    var mother, father, child := First(inds, f.wife), First(inds, f.husband), First(inds, Some(c));
    child.Some? ==>
      && (mother.Some? ==> child.value.birth.Some? && mother.value.birth.Some?)
      && (father.Some? ==> child.value.birth.Some? && father.value.birth.Some?)
  }

  /** `g` is what US12 reports for child `c` of family `f`: the ids of the
      parent and of the child. */
  predicate US12Reports(inds: seq<Individual>, f: Family, c: string, g: Finding) {
    || (MotherTooOld(inds, f, c) && f.wife.Some? && g == AnomalyOf(US12, [f.wife.value, c]))
    || (FatherTooOld(inds, f, c) && f.husband.Some? && g == AnomalyOf(US12, [f.husband.value, c]))
  }

  function US12Child(inds: seq<Individual>, f: Family, c: string): (fs: seq<Finding>)
    requires US12ChildDefined(inds, f, c)
    ensures fs == [] <==> !MotherTooOld(inds, f, c) && !FatherTooOld(inds, f, c)
    ensures forall g :: g in fs <==> US12Reports(inds, f, c, g)
    ensures |fs| == Flag(MotherTooOld(inds, f, c)) + Flag(FatherTooOld(inds, f, c))
  {
    var mother, father, child := First(inds, f.wife), First(inds, f.husband), First(inds, Some(c));
    if child.None? then []
    else
      (if mother.Some? && Ordinal(child.value.birth.value) - Ordinal(mother.value.birth.value) > DaysIn60Years
       then [AnomalyOf(US12, [mother.value.uid, child.value.uid])] else [])
      + (if father.Some? && Ordinal(child.value.birth.value) - Ordinal(father.value.birth.value) > DaysIn80Years
         then [AnomalyOf(US12, [father.value.uid, child.value.uid])] else [])
  }

  function US12Family(inds: seq<Individual>, f: Family): (fs: seq<Finding>)
    requires forall k :: 0 <= k < |f.children| ==> US12ChildDefined(inds, f, f.children[k])
    ensures fs == [] <==> forall k :: 0 <= k < |f.children| ==>
      !MotherTooOld(inds, f, f.children[k]) && !FatherTooOld(inds, f, f.children[k])
    ensures forall g :: g in fs <==> exists k :: 0 <= k < |f.children| && US12Reports(inds, f, f.children[k], g)
  {
    var parts := seq(|f.children|, k requires 0 <= k < |f.children| => US12Child(inds, f, f.children[k]));
    assert forall k :: 0 <= k < |f.children| ==> parts[k] == US12Child(inds, f, f.children[k]);
    Scan(parts).findings
  }

  /** Every child of every family can be compared with its parents as US12 does. */
  predicate ParentAgesDefined(inds: seq<Individual>, fams: seq<Family>) {
    forall i, k :: 0 <= i < |fams| && 0 <= k < |fams[i].children| ==>
      US12ChildDefined(inds, fams[i], fams[i].children[k])
  }

  /** US12 `parents_not_too_old`: for every family (the filter `children is
      not []` keeps them all) and every child id in it, an anomaly when the
      mother is more than 21900 days and another when the father is more
      than 29200 days older than the child. */
  function ParentsNotTooOld(inds: seq<Individual>, fams: seq<Family>): (o: Outcome)
    requires ParentAgesDefined(inds, fams)
    ensures o.passed <==> forall i, k :: 0 <= i < |fams| && 0 <= k < |fams[i].children| ==>
      !MotherTooOld(inds, fams[i], fams[i].children[k]) && !FatherTooOld(inds, fams[i], fams[i].children[k])
    ensures forall g :: g in o.findings <==>
      exists i, k :: 0 <= i < |fams| && 0 <= k < |fams[i].children| && US12Reports(inds, fams[i], fams[i].children[k], g)
  {
    var parts := seq(|fams|, i requires 0 <= i < |fams| => US12Family(inds, fams[i]));
    ParentsNotTooOldPassed(inds, fams, parts);
    ParentsNotTooOldFindings(inds, fams, parts);
    Scan(parts)
  }

  lemma ParentsNotTooOldPassed(inds: seq<Individual>, fams: seq<Family>, parts: seq<seq<Finding>>)
    requires forall i, k :: 0 <= i < |fams| && 0 <= k < |fams[i].children| ==>
      US12ChildDefined(inds, fams[i], fams[i].children[k])
    requires |parts| == |fams| && forall i :: 0 <= i < |fams| ==> parts[i] == US12Family(inds, fams[i])
    ensures Scan(parts).passed <==> forall i, k :: 0 <= i < |fams| && 0 <= k < |fams[i].children| ==>
      !MotherTooOld(inds, fams[i], fams[i].children[k]) && !FatherTooOld(inds, fams[i], fams[i].children[k])
  {
  }

  lemma ParentsNotTooOldFindings(inds: seq<Individual>, fams: seq<Family>, parts: seq<seq<Finding>>)
    requires forall i, k :: 0 <= i < |fams| && 0 <= k < |fams[i].children| ==>
      US12ChildDefined(inds, fams[i], fams[i].children[k])
    requires |parts| == |fams| && forall i :: 0 <= i < |fams| ==> parts[i] == US12Family(inds, fams[i])
    ensures forall g :: g in Scan(parts).findings <==>
      exists i, k :: 0 <= i < |fams| && 0 <= k < |fams[i].children| && US12Reports(inds, fams[i], fams[i].children[k], g)
  {
  }
}
