/** The date-order rules of src/user_stories.py, US01 to US07. Each scans the
    whole population with no early exit; the returned flag is `False` exactly
    when something was reported.

    `now` is `datetime.now()`: a moment strictly after midnight of `today`.
    A date held by a record is a midnight, so `d > now` holds exactly when
    `d` is a later day than `today`, and `d < now` exactly when `d` is
    `today` or earlier. Adding a `timedelta` of N days moves a date's
    ordinal by N (`Dates.OrdinalOfNextDay`), so such sums are compared on
    ordinals. */
module DateRules {
  import opened Wrappers
  import opened Dates
  import opened Entities
  import opened Findings
  import opened Lookup

  /** `d and d > now`. */
  predicate InFuture(d: Option<Date>, today: Date) {
    d.Some? && Precedes(today, d.value)
  }

  // ---------------------------------------------------------------------------
  // US01 dates_before_current

  /** A family reported by US01 names its husband and wife in the location,
      which `','.join` cannot do with an absent spouse. */
  predicate US01Reportable(f: Family, today: Date) {
    InFuture(f.marriage, today) || InFuture(f.divorce, today) ==> f.husband.Some? && f.wife.Some?
  }

  /** `g` is what US01 reports for family `f`. */
  predicate US01FamilyReports(f: Family, today: Date, g: Finding) {
    && (InFuture(f.marriage, today) || InFuture(f.divorce, today))
    && f.husband.Some? && f.wife.Some? && g == ErrorOf(US01, [f.uid, f.husband.value, f.wife.value])
  }

  /** `g` is what US01 reports for individual `ind`. */
  predicate US01IndividualReports(ind: Individual, today: Date, g: Finding) {
    (InFuture(ind.birth, today) || InFuture(ind.death, today)) && g == ErrorOf(US01, [ind.uid])
  }

  function US01Family(f: Family, today: Date): (fs: seq<Finding>)
    requires US01Reportable(f, today)
    ensures fs == [] <==> !InFuture(f.marriage, today) && !InFuture(f.divorce, today)
    ensures forall g :: g in fs <==> US01FamilyReports(f, today, g)
    ensures |fs| == Flag(InFuture(f.marriage, today)) + Flag(InFuture(f.divorce, today))
  {
    (if InFuture(f.marriage, today) then [ErrorOf(US01, [f.uid, f.husband.value, f.wife.value])] else [])
    + (if InFuture(f.divorce, today) then [ErrorOf(US01, [f.uid, f.husband.value, f.wife.value])] else [])
  }

  function US01Individual(ind: Individual, today: Date): (fs: seq<Finding>)
    ensures fs == [] <==> !InFuture(ind.birth, today) && !InFuture(ind.death, today)
    ensures forall g :: g in fs <==> US01IndividualReports(ind, today, g)
    ensures |fs| == Flag(InFuture(ind.birth, today)) + Flag(InFuture(ind.death, today))
  {
    (if InFuture(ind.birth, today) then [ErrorOf(US01, [ind.uid])] else [])
    + (if InFuture(ind.death, today) then [ErrorOf(US01, [ind.uid])] else [])
  }

  /** Every family with a future date has both spouse pointers, which US01 prints. */
  predicate FutureFamiliesLocatable(fams: seq<Family>, today: Date) {
    forall i :: 0 <= i < |fams| ==> US01Reportable(fams[i], today)
  }

  /** US01 `dates_before_current`: families first, then individuals. It
      passes exactly when no marriage, divorce, birth or death lies after
      today; each report names the record with the future date. */
  function DatesBeforeCurrent(inds: seq<Individual>, fams: seq<Family>, today: Date): (o: Outcome)
    requires FutureFamiliesLocatable(fams, today)
    ensures o.passed <==>
      && (forall i :: 0 <= i < |fams| ==> !InFuture(fams[i].marriage, today) && !InFuture(fams[i].divorce, today))
      && (forall i :: 0 <= i < |inds| ==> !InFuture(inds[i].birth, today) && !InFuture(inds[i].death, today))
    ensures forall g :: g in o.findings <==>
      (exists i :: 0 <= i < |fams| && US01FamilyReports(fams[i], today, g))
      || (exists i :: 0 <= i < |inds| && US01IndividualReports(inds[i], today, g))
  {
    var a := seq(|fams|, i requires 0 <= i < |fams| => US01Family(fams[i], today));
    var b := seq(|inds|, i requires 0 <= i < |inds| => US01Individual(inds[i], today));
    assert forall i :: 0 <= i < |fams| ==> a[i] == US01Family(fams[i], today);
    assert forall i :: 0 <= i < |inds| ==> b[i] == US01Individual(inds[i], today);
    ScanAppend(a, b);
    Scan(a + b)
  }

  // ---------------------------------------------------------------------------
  // US02 birth_before_marriage, US05 marriage_before_death, US06 divorce_before_death

  /** Both spouses of a family resolve to individuals; the rules that look
      them up with the last-match loop read `wife.birthdate`, `wife.death`
      ... without a check, which raises `AttributeError` on `None`. */
  predicate SpousesResolve(inds: seq<Individual>, f: Family) {
    Resolve(inds, f.husband).Some? && Resolve(inds, f.wife).Some?
  }

  /** The spouse `uid` resolves to was born strictly after date `d`. */
  predicate BornAfter(inds: seq<Individual>, uid: Option<string>, d: Option<Date>) {
    && d.Some? && Resolve(inds, uid).Some?
    && Resolve(inds, uid).value.birth.Some? && Precedes(d.value, Resolve(inds, uid).value.birth.value)
  }

  /** The spouse `uid` resolves to died strictly before date `d`. */
  predicate DiedBefore(inds: seq<Individual>, uid: Option<string>, d: Option<Date>) {
    && d.Some? && Resolve(inds, uid).Some?
    && Resolve(inds, uid).value.death.Some? && Precedes(Resolve(inds, uid).value.death.value, d.value)
  }

  /** The id of the individual `uid` resolves to. */
  function Resolved(inds: seq<Individual>, uid: Option<string>): string
    requires Resolve(inds, uid).Some?
  {
    Resolve(inds, uid).value.uid
  }

  /** `g` is what US02 reports for family `f`. */
  predicate US02Reports(inds: seq<Individual>, f: Family, g: Finding) {
    || (BornAfter(inds, f.wife, f.marriage) && g == ErrorOf(US02, [Resolved(inds, f.wife)]))
    || (BornAfter(inds, f.husband, f.marriage) && g == ErrorOf(US02, [Resolved(inds, f.husband)]))
  }

  /** `f` calls for a US02 report. */
  predicate US02Violation(inds: seq<Individual>, f: Family) {
    BornAfter(inds, f.wife, f.marriage) || BornAfter(inds, f.husband, f.marriage)
  }

  function US02Family(inds: seq<Individual>, f: Family): (fs: seq<Finding>)
    requires f.marriage.Some? ==> SpousesResolve(inds, f)
    ensures fs == [] <==> !US02Violation(inds, f)
    ensures forall g :: g in fs <==> US02Reports(inds, f, g)
    ensures |fs| == Flag(BornAfter(inds, f.wife, f.marriage)) + Flag(BornAfter(inds, f.husband, f.marriage))
  {
    if f.marriage.None? then []
    else
      var m, wife, husband := f.marriage.value, Resolve(inds, f.wife).value, Resolve(inds, f.husband).value;
      (if wife.birth.Some? && Precedes(m, wife.birth.value) then [ErrorOf(US02, [wife.uid])] else [])
      + (if husband.birth.Some? && Precedes(m, husband.birth.value) then [ErrorOf(US02, [husband.uid])] else [])
  }

  /** Both spouses of every married family resolve to individuals. */
  predicate MarriedSpousesResolve(inds: seq<Individual>, fams: seq<Family>) {
    forall i :: 0 <= i < |fams| && fams[i].marriage.Some? ==> SpousesResolve(inds, fams[i])
  }

  /** US02 `birth_before_marriage`: passes exactly when, in every family
      with a marriage date, neither spouse was born after it; each error
      names the spouse. */
  function BirthBeforeMarriage(inds: seq<Individual>, fams: seq<Family>): (o: Outcome)
    requires MarriedSpousesResolve(inds, fams)
    ensures o.passed <==> forall i :: 0 <= i < |fams| ==> !US02Violation(inds, fams[i])
    ensures forall g :: g in o.findings <==> exists i :: 0 <= i < |fams| && US02Reports(inds, fams[i], g)
  {
    var parts := seq(|fams|, i requires 0 <= i < |fams| => US02Family(inds, fams[i]));
    assert forall i :: 0 <= i < |fams| ==> parts[i] == US02Family(inds, fams[i]);
    Scan(parts)
  }

  /** `g` is what US05 reports for family `f`. */
  predicate US05Reports(inds: seq<Individual>, f: Family, g: Finding) {
    || (DiedBefore(inds, f.wife, f.marriage) && g == ErrorOf(US05, [f.uid, Resolved(inds, f.wife)]))
    || (DiedBefore(inds, f.husband, f.marriage) && g == ErrorOf(US05, [f.uid, Resolved(inds, f.husband)]))
  }

  /** `f` calls for a US05 report. */
  predicate US05Violation(inds: seq<Individual>, f: Family) {
    DiedBefore(inds, f.wife, f.marriage) || DiedBefore(inds, f.husband, f.marriage)
  }

  function US05Family(inds: seq<Individual>, f: Family): (fs: seq<Finding>)
    requires f.marriage.Some? ==> SpousesResolve(inds, f)
    ensures fs == [] <==> !US05Violation(inds, f)
    ensures forall g :: g in fs <==> US05Reports(inds, f, g)
    ensures |fs| == Flag(DiedBefore(inds, f.wife, f.marriage)) + Flag(DiedBefore(inds, f.husband, f.marriage))
  {
    if f.marriage.None? then []
    else
      var m, wife, husband := f.marriage.value, Resolve(inds, f.wife).value, Resolve(inds, f.husband).value;
      (if wife.death.Some? && Precedes(wife.death.value, m) then [ErrorOf(US05, [f.uid, wife.uid])] else [])
      + (if husband.death.Some? && Precedes(husband.death.value, m) then [ErrorOf(US05, [f.uid, husband.uid])] else [])
  }

  /** US05 `marriage_before_death`: passes exactly when no spouse of a
      married family died strictly before the marriage; each error names
      the family and that spouse. */
  function MarriageBeforeDeath(inds: seq<Individual>, fams: seq<Family>): (o: Outcome)
    requires MarriedSpousesResolve(inds, fams)
    ensures o.passed <==> forall i :: 0 <= i < |fams| ==> !US05Violation(inds, fams[i])
    ensures forall g :: g in o.findings <==> exists i :: 0 <= i < |fams| && US05Reports(inds, fams[i], g)
  {
    var parts := seq(|fams|, i requires 0 <= i < |fams| => US05Family(inds, fams[i]));
    assert forall i :: 0 <= i < |fams| ==> parts[i] == US05Family(inds, fams[i]);
    Scan(parts)
  }

  /** `g` is what US06 reports for family `f`. */
  predicate US06Reports(inds: seq<Individual>, f: Family, g: Finding) {
    || (DiedBefore(inds, f.wife, f.divorce) && g == ErrorOf(US06, [f.uid, Resolved(inds, f.wife)]))
    || (DiedBefore(inds, f.husband, f.divorce) && g == ErrorOf(US06, [f.uid, Resolved(inds, f.husband)]))
  }

  /** `f` calls for a US06 report. */
  predicate US06Violation(inds: seq<Individual>, f: Family) {
    DiedBefore(inds, f.wife, f.divorce) || DiedBefore(inds, f.husband, f.divorce)
  }

  function US06Family(inds: seq<Individual>, f: Family): (fs: seq<Finding>)
    requires f.divorce.Some? ==> SpousesResolve(inds, f)
    ensures fs == [] <==> !US06Violation(inds, f)
    ensures forall g :: g in fs <==> US06Reports(inds, f, g)
    ensures |fs| == Flag(DiedBefore(inds, f.wife, f.divorce)) + Flag(DiedBefore(inds, f.husband, f.divorce))
  {
    if f.divorce.None? then []
    else
      var m, wife, husband := f.divorce.value, Resolve(inds, f.wife).value, Resolve(inds, f.husband).value;
      (if wife.death.Some? && Precedes(wife.death.value, m) then [ErrorOf(US06, [f.uid, wife.uid])] else [])
      + (if husband.death.Some? && Precedes(husband.death.value, m) then [ErrorOf(US06, [f.uid, husband.uid])] else [])
  }

  /** Both spouses of every divorced family resolve to individuals. */
  predicate DivorcedSpousesResolve(inds: seq<Individual>, fams: seq<Family>) {
    forall i :: 0 <= i < |fams| && fams[i].divorce.Some? ==> SpousesResolve(inds, fams[i])
  }

  /** US06 `divorce_before_death`: passes exactly when no spouse of a
      divorced family died strictly before the divorce; each error names
      the family and that spouse. */
  function DivorceBeforeDeath(inds: seq<Individual>, fams: seq<Family>): (o: Outcome)
    requires DivorcedSpousesResolve(inds, fams)
    ensures o.passed <==> forall i :: 0 <= i < |fams| ==> !US06Violation(inds, fams[i])
    ensures forall g :: g in o.findings <==> exists i :: 0 <= i < |fams| && US06Reports(inds, fams[i], g)
  {
    var parts := seq(|fams|, i requires 0 <= i < |fams| => US06Family(inds, fams[i]));
    assert forall i :: 0 <= i < |fams| ==> parts[i] == US06Family(inds, fams[i]);
    Scan(parts)
  }

  // ---------------------------------------------------------------------------
  // US03 birth_before_death, US04 marriage_before_divorce

  /** Death strictly before birth, both recorded. */
  predicate DiedBeforeBorn(ind: Individual) {
    ind.death.Some? && ind.birth.Some? && Precedes(ind.death.value, ind.birth.value)
  }

  function US03Individual(ind: Individual): (fs: seq<Finding>)
    ensures fs == [] <==> !DiedBeforeBorn(ind)
    ensures fs != [] ==> fs == [ErrorOf(US03, [ind.uid])]
  {
    if ind.death.Some? && ind.birth.Some? && Precedes(ind.death.value, ind.birth.value)
    then [ErrorOf(US03, [ind.uid])] else []
  }

  /** US03 `birth_before_death`: one error naming each individual whose
      death is strictly before the birth, in input order. */
  function BirthBeforeDeath(inds: seq<Individual>): (o: Outcome)
    ensures o.passed <==> forall i :: 0 <= i < |inds| ==> !DiedBeforeBorn(inds[i])
    ensures forall g :: g in o.findings <==> exists i :: 0 <= i < |inds| && DiedBeforeBorn(inds[i]) && g == ErrorOf(US03, [inds[i].uid])
  {
    var parts := seq(|inds|, i requires 0 <= i < |inds| => US03Individual(inds[i]));
    var o := Scan(parts);
    assert forall i :: 0 <= i < |inds| ==> parts[i] == US03Individual(inds[i]);
    o
  }

  /** Marriage strictly after divorce, both recorded. */
  predicate MarriedAfterDivorce(f: Family) {
    f.marriage.Some? && f.divorce.Some? && Precedes(f.divorce.value, f.marriage.value)
  }

  function US04Family(f: Family): (fs: seq<Finding>)
    requires MarriedAfterDivorce(f) ==> f.husband.Some? && f.wife.Some?
    ensures fs == [] <==> !MarriedAfterDivorce(f)
    ensures fs != [] ==> fs == [ErrorOf(US04, [f.uid, f.husband.value, f.wife.value])]
  {
    if f.marriage.Some? && f.divorce.Some? && Precedes(f.divorce.value, f.marriage.value)
    then [ErrorOf(US04, [f.uid, f.husband.value, f.wife.value])] else []
  }

  /** Every family married after its divorce has both spouse pointers, which US04 prints. */
  predicate ReversedFamiliesLocatable(fams: seq<Family>) {
    forall i :: 0 <= i < |fams| && MarriedAfterDivorce(fams[i]) ==> fams[i].husband.Some? && fams[i].wife.Some?
  }

  /** US04 `marriage_before_divorce`: one error naming the family and both
      spouses for each family married strictly after its divorce. */
  function MarriageBeforeDivorce(fams: seq<Family>): (o: Outcome)
    requires ReversedFamiliesLocatable(fams)
    ensures o.passed <==> forall i :: 0 <= i < |fams| ==> !MarriedAfterDivorce(fams[i])
    ensures forall g :: g in o.findings <==>
      exists i :: 0 <= i < |fams| && MarriedAfterDivorce(fams[i]) && g == ErrorOf(US04, [fams[i].uid, fams[i].husband.value, fams[i].wife.value])
  {
    var parts := seq(|fams|, i requires 0 <= i < |fams| => US04Family(fams[i]));
    var o := Scan(parts);
    assert forall i :: 0 <= i < |fams| ==> parts[i] == US04Family(fams[i]);
    o
  }

  // ---------------------------------------------------------------------------
  // US07 age_less_150

  const DaysIn150Years: int := 54750

  /** `birthdate + timedelta(days=54750)` stays within the years `datetime`
      can hold; past 9999-12-31 it raises `OverflowError`. */
  predicate AgeLimitRepresentable(ind: Individual) {
    ind.birth.Some? ==> Ordinal(ind.birth.value) + DaysIn150Years <= MaxOrdinal
  }

  /** Died more than 150 years (54750 days) after birth. */
  predicate DiedOver150(ind: Individual) {
    ind.death.Some? && ind.birth.Some? && Ordinal(ind.birth.value) + DaysIn150Years < Ordinal(ind.death.value)
  }

  /** Alive, and 54750 days after birth is today or earlier. */
  predicate LivingOver150(ind: Individual, today: Date) {
    ind.death.None? && ind.birth.Some? && Ordinal(ind.birth.value) + DaysIn150Years <= Ordinal(today)
  }

  function US07Deceased(ind: Individual): (fs: seq<Finding>)
    ensures fs == [] <==> !DiedOver150(ind)
    ensures forall g :: g in fs <==> DiedOver150(ind) && g == ErrorOf(US07, [ind.uid])
    ensures fs != [] ==> fs == [ErrorOf(US07, [ind.uid])]
  {
    if ind.death.Some? && ind.birth.Some? && Ordinal(ind.birth.value) + DaysIn150Years < Ordinal(ind.death.value)
    then [ErrorOf(US07, [ind.uid])] else []
  }

  function US07Living(ind: Individual, today: Date): (fs: seq<Finding>)
    ensures fs == [] <==> !LivingOver150(ind, today)
    ensures forall g :: g in fs <==> LivingOver150(ind, today) && g == ErrorOf(US07, [ind.uid])
    ensures fs != [] ==> fs == [ErrorOf(US07, [ind.uid])]
  {
    if ind.death.None? && ind.birth.Some? && Ordinal(ind.birth.value) + DaysIn150Years <= Ordinal(today)
    then [ErrorOf(US07, [ind.uid])] else []
  }

  /** `g` is what US07 reports for `ind`. */
  predicate US07Reports(ind: Individual, today: Date, g: Finding) {
    (DiedOver150(ind) || LivingOver150(ind, today)) && g == ErrorOf(US07, [ind.uid])
  }

  /** Every birth date plus 150 years is a date `datetime` can hold. */
  predicate AgeLimitsRepresentable(inds: seq<Individual>) {
    forall i :: 0 <= i < |inds| ==> AgeLimitRepresentable(inds[i])
  }

  /** US07 `age_less_150`: first every deceased individual who died over 150
      years old, then every living one who is over 150 years old today. */
  function AgeLess150(inds: seq<Individual>, today: Date): (o: Outcome)
    requires AgeLimitsRepresentable(inds)
    ensures o.passed <==> forall i :: 0 <= i < |inds| ==> !DiedOver150(inds[i]) && !LivingOver150(inds[i], today)
    ensures forall g :: g in o.findings <==> exists i :: 0 <= i < |inds| && US07Reports(inds[i], today, g)
  {
    var a := seq(|inds|, i requires 0 <= i < |inds| => US07Deceased(inds[i]));
    var b := seq(|inds|, i requires 0 <= i < |inds| => US07Living(inds[i], today));
    US07Loops(inds, today, a, b);
    Scan(a + b)
  }

  /** The two loops of `age_less_150` together report one error per
      individual over the age limit, dead or alive. */
  lemma US07Loops(inds: seq<Individual>, today: Date, a: seq<seq<Finding>>, b: seq<seq<Finding>>)
    requires |a| == |b| == |inds|
    requires forall i :: 0 <= i < |inds| ==> a[i] == US07Deceased(inds[i]) && b[i] == US07Living(inds[i], today)
    ensures Scan(a + b).passed <==> forall i :: 0 <= i < |inds| ==> !DiedOver150(inds[i]) && !LivingOver150(inds[i], today)
    ensures forall g :: g in Scan(a + b).findings <==> exists i :: 0 <= i < |inds| && US07Reports(inds[i], today, g)
  {
    ScanAppend(a, b);
    forall g ensures g in Scan(a + b).findings <==> exists i :: 0 <= i < |inds| && US07Reports(inds[i], today, g) {
      if exists i :: 0 <= i < |inds| && US07Reports(inds[i], today, g) {
        var i :| 0 <= i < |inds| && US07Reports(inds[i], today, g);
        assert g in a[i] || g in b[i];
      }
    }
  }

  /** The 150-year boundary differs between the two loops: someone who died
      exactly 54750 days after birth is not reported, while someone alive
      whose 54750th day after birth is today is, because `now` is later than
      that day's midnight. */
  lemma Exactly150Years(ind: Individual, day: Date)
    requires ind.birth.Some? && Ordinal(day) == Ordinal(ind.birth.value) + DaysIn150Years
    ensures US07Deceased(ind.(death := Some(day))) == []
    ensures US07Living(ind.(death := None), day) == [ErrorOf(US07, [ind.uid])]
  {
  }
}
