/** `validation` of src/user_stories.py: every rule once, in sprint order,
    after a first `marriage_age` run made before the table header is printed,
    so that `marriage_age` reports twice. The run reports the findings of
    the fifteen calls one after another; the rules' return values are
    dropped. */
module Validation {
  import opened Dates
  import opened Entities
  import opened Findings
  import opened DateRules
  import opened FamilyRules
  import opened Kinship

  /** The stories that report through `report_error`; all the others report
      through `report_anomaly`. */
  const ErrorStories: set<Story> := {US01, US02, US03, US04, US05, US06, US07, US09}
  const AnomalyStories: set<Story> := {US08, US10, US11, US12, US17, US18}

  /** Every rule of the run can read what it reads without raising: the
      preconditions of the fifteen calls together. */
  predicate Checkable(inds: seq<Individual>, fams: seq<Family>, today: Date, fuel: nat) {
    && IsCalendarDate(MinBirth(today)) && SpouseBirthsKnown(inds, fams)
    && FutureFamiliesLocatable(fams, today)
    && MarriedSpousesResolve(inds, fams)
    && ReversedFamiliesLocatable(fams)
    && DivorcedSpousesResolve(inds, fams)
    && AgeLimitsRepresentable(inds)
    && ChildBirthsComparable(inds, fams)
    && ParentsResolve(inds, fams)
    && ParentAgesDefined(inds, fams)
    && RemarriagesComparable(inds, fams)
    && DescendantsWithin(fams, fuel)
  }

  /** Every finding of `fs` is of user story `story`, with severity `sev`. */
  predicate Tagged(fs: seq<Finding>, story: Story, sev: Severity) {
    forall g :: g in fs ==> g.story == story && g.severity == sev
  }

  /** What each rule returns and reports when called once. */
  datatype RuleOutcomes = RuleOutcomes(
    us01: Outcome,
    us02: Outcome,
    us03: Outcome,
    us04: Outcome,
    us05: Outcome,
    us06: Outcome,
    us07: Outcome,
    us08: Outcome,
    us09: Outcome,
    us10: Outcome,
    us11: Outcome,
    us12: Outcome,
    us17: Outcome,
    us18: Outcome)

  /** Each rule reported only under its own story, with its own severity,
      and returned `False` exactly when it reported something. */
  predicate WellFormed(r: RuleOutcomes) {
    && Tagged(r.us01.findings, US01, Error) && Honest(r.us01)
    && Tagged(r.us02.findings, US02, Error) && Honest(r.us02)
    && Tagged(r.us03.findings, US03, Error) && Honest(r.us03)
    && Tagged(r.us04.findings, US04, Error) && Honest(r.us04)
    && Tagged(r.us05.findings, US05, Error) && Honest(r.us05)
    && Tagged(r.us06.findings, US06, Error) && Honest(r.us06)
    && Tagged(r.us07.findings, US07, Error) && Honest(r.us07)
    && Tagged(r.us08.findings, US08, Anomaly) && Honest(r.us08)
    && Tagged(r.us09.findings, US09, Error) && Honest(r.us09)
    && Tagged(r.us10.findings, US10, Anomaly) && Honest(r.us10)
    && Tagged(r.us11.findings, US11, Anomaly) && Honest(r.us11)
    && Tagged(r.us12.findings, US12, Anomaly) && Honest(r.us12)
    && Tagged(r.us17.findings, US17, Anomaly) && Honest(r.us17)
    && Tagged(r.us18.findings, US18, Anomaly) && Honest(r.us18)
  }

  /** A rule's verdict agrees with what it reported. */
  predicate Honest(o: Outcome) {
    o.passed <==> o.findings == []
  }

  /** The rules run once each against the same records. */
  function RunRules(inds: seq<Individual>, fams: seq<Family>, today: Date, fuel: nat): (r: RuleOutcomes)
    requires Checkable(inds, fams, today, fuel)
    ensures WellFormed(r)
  {
    RulesTagged(inds, fams, today, fuel);
    RuleOutcomes(
      DatesBeforeCurrent(inds, fams, today),
      BirthBeforeMarriage(inds, fams),
      BirthBeforeDeath(inds),
      MarriageBeforeDivorce(fams),
      MarriageBeforeDeath(inds, fams),
      DivorceBeforeDeath(inds, fams),
      AgeLess150(inds, today),
      BirthBeforeMarriageOfParents(inds, fams),
      BirthBeforeDeathOfParents(inds, fams),
      MarriageAge(inds, fams, today),
      NoBigamy(inds, fams),
      ParentsNotTooOld(inds, fams),
      NoMarriageToDescendants(fams, fuel),
      NoSiblingMarriage(inds, fams))
  }

  /** The findings of the fifteen calls of `validation`, in call order:
      `marriage_age` first, then sprint by sprint, `marriage_age` again
      among the second sprint's rules. */
  function InCallOrder(r: RuleOutcomes): (fs: seq<Finding>)
    ensures multiset(fs) ==
      multiset(r.us01.findings) + multiset(r.us02.findings) + multiset(r.us03.findings)
      + multiset(r.us04.findings) + multiset(r.us05.findings) + multiset(r.us06.findings)
      + multiset(r.us07.findings) + multiset(r.us08.findings) + multiset(r.us09.findings)
      + multiset(r.us10.findings) + multiset(r.us10.findings) + multiset(r.us11.findings)
      + multiset(r.us12.findings) + multiset(r.us17.findings) + multiset(r.us18.findings)
  {
    r.us10.findings + BetweenCalls(r) + FromSecondCall(r)
  }

  /** The rules called between the two calls of `marriage_age`: US01 to US09,
      in story order. */
  function BetweenCalls(r: RuleOutcomes): seq<Finding>
  {
    r.us01.findings
    + r.us02.findings
    + r.us03.findings
    + r.us04.findings
    + r.us05.findings
    + r.us06.findings
    + r.us07.findings
    + r.us08.findings
    + r.us09.findings
  }

  /** The second call of `marriage_age` and the rules after it, in the order
      `validation` calls them. */
  function FromSecondCall(r: RuleOutcomes): seq<Finding>
  {
    r.us10.findings
    + r.us12.findings
    + r.us11.findings
    + r.us18.findings
    + r.us17.findings
  }

  /** The findings of one `validation` run, in the order they are reported;
      the rules' return values are dropped. `today` stands for
      `datetime.now()`, read the same at every call; the US17 closure is
      computed with `fuel` rounds. */
  function Validate(inds: seq<Individual>, fams: seq<Family>, today: Date, fuel: nat): (fs: seq<Finding>)
    requires Checkable(inds, fams, today, fuel)
    ensures forall g :: g in fs ==> g.story in ErrorStories + AnomalyStories
    ensures forall g :: g in fs ==> (g.severity == Error <==> g.story in ErrorStories)
  {
    var r := RunRules(inds, fams, today, fuel);
    InCallOrderSeverities(r);
    InCallOrder(r)
  }

  // Each rule reports only under its own story and with its own severity.

  lemma MarriageAgeTagged(inds: seq<Individual>, fams: seq<Family>, today: Date)
    requires IsCalendarDate(MinBirth(today))
    requires SpouseBirthsKnown(inds, fams)
    ensures Tagged(MarriageAge(inds, fams, today).findings, US10, Anomaly)
    ensures Honest(MarriageAge(inds, fams, today))
  {
  }

  lemma DatesBeforeCurrentTagged(inds: seq<Individual>, fams: seq<Family>, today: Date)
    requires FutureFamiliesLocatable(fams, today)
    ensures Tagged(DatesBeforeCurrent(inds, fams, today).findings, US01, Error)
    ensures Honest(DatesBeforeCurrent(inds, fams, today))
  {
  }

  lemma BirthBeforeMarriageTagged(inds: seq<Individual>, fams: seq<Family>)
    requires MarriedSpousesResolve(inds, fams)
    ensures Tagged(BirthBeforeMarriage(inds, fams).findings, US02, Error)
    ensures Honest(BirthBeforeMarriage(inds, fams))
  {
  }

  lemma BirthBeforeDeathTagged(inds: seq<Individual>)
    ensures Tagged(BirthBeforeDeath(inds).findings, US03, Error)
    ensures Honest(BirthBeforeDeath(inds))
  {
  }

  lemma MarriageBeforeDivorceTagged(fams: seq<Family>)
    requires ReversedFamiliesLocatable(fams)
    ensures Tagged(MarriageBeforeDivorce(fams).findings, US04, Error)
    ensures Honest(MarriageBeforeDivorce(fams))
  {
  }

  lemma MarriageBeforeDeathTagged(inds: seq<Individual>, fams: seq<Family>)
    requires MarriedSpousesResolve(inds, fams)
    ensures Tagged(MarriageBeforeDeath(inds, fams).findings, US05, Error)
    ensures Honest(MarriageBeforeDeath(inds, fams))
  {
  }

  lemma DivorceBeforeDeathTagged(inds: seq<Individual>, fams: seq<Family>)
    requires DivorcedSpousesResolve(inds, fams)
    ensures Tagged(DivorceBeforeDeath(inds, fams).findings, US06, Error)
    ensures Honest(DivorceBeforeDeath(inds, fams))
  {
  }

  lemma AgeLess150Tagged(inds: seq<Individual>, today: Date)
    requires AgeLimitsRepresentable(inds)
    ensures Tagged(AgeLess150(inds, today).findings, US07, Error)
    ensures Honest(AgeLess150(inds, today))
  {
  }

  lemma BirthBeforeMarriageOfParentsTagged(inds: seq<Individual>, fams: seq<Family>)
    requires ChildBirthsComparable(inds, fams)
    ensures Tagged(BirthBeforeMarriageOfParents(inds, fams).findings, US08, Anomaly)
    ensures Honest(BirthBeforeMarriageOfParents(inds, fams))
  {
  }

  lemma BirthBeforeDeathOfParentsTagged(inds: seq<Individual>, fams: seq<Family>)
    requires ParentsResolve(inds, fams)
    ensures Tagged(BirthBeforeDeathOfParents(inds, fams).findings, US09, Error)
    ensures Honest(BirthBeforeDeathOfParents(inds, fams))
  {
  }

  lemma ParentsNotTooOldTagged(inds: seq<Individual>, fams: seq<Family>)
    requires ParentAgesDefined(inds, fams)
    ensures Tagged(ParentsNotTooOld(inds, fams).findings, US12, Anomaly)
    ensures Honest(ParentsNotTooOld(inds, fams))
  {
  }

  lemma NoBigamyTagged(inds: seq<Individual>, fams: seq<Family>)
    requires RemarriagesComparable(inds, fams)
    ensures Tagged(NoBigamy(inds, fams).findings, US11, Anomaly)
    ensures Honest(NoBigamy(inds, fams))
  {
  }

  lemma NoSiblingMarriageTagged(inds: seq<Individual>, fams: seq<Family>)
    ensures Tagged(NoSiblingMarriage(inds, fams).findings, US18, Anomaly)
    ensures Honest(NoSiblingMarriage(inds, fams))
  {
  }

  lemma NoMarriageToDescendantsTagged(fams: seq<Family>, fuel: nat)
    requires DescendantsWithin(fams, fuel)
    ensures Tagged(NoMarriageToDescendants(fams, fuel).findings, US17, Anomaly)
    ensures Honest(NoMarriageToDescendants(fams, fuel))
  {
  }

  lemma RulesTagged(inds: seq<Individual>, fams: seq<Family>, today: Date, fuel: nat)
    requires Checkable(inds, fams, today, fuel)
    ensures Tagged(MarriageAge(inds, fams, today).findings, US10, Anomaly)
    ensures Honest(MarriageAge(inds, fams, today))
    ensures Tagged(DatesBeforeCurrent(inds, fams, today).findings, US01, Error)
    ensures Honest(DatesBeforeCurrent(inds, fams, today))
    ensures Tagged(BirthBeforeMarriage(inds, fams).findings, US02, Error)
    ensures Honest(BirthBeforeMarriage(inds, fams))
    ensures Tagged(BirthBeforeDeath(inds).findings, US03, Error)
    ensures Honest(BirthBeforeDeath(inds))
    ensures Tagged(MarriageBeforeDivorce(fams).findings, US04, Error)
    ensures Honest(MarriageBeforeDivorce(fams))
    ensures Tagged(MarriageBeforeDeath(inds, fams).findings, US05, Error)
    ensures Honest(MarriageBeforeDeath(inds, fams))
    ensures Tagged(DivorceBeforeDeath(inds, fams).findings, US06, Error)
    ensures Honest(DivorceBeforeDeath(inds, fams))
    ensures Tagged(AgeLess150(inds, today).findings, US07, Error)
    ensures Honest(AgeLess150(inds, today))
    ensures Tagged(BirthBeforeMarriageOfParents(inds, fams).findings, US08, Anomaly)
    ensures Honest(BirthBeforeMarriageOfParents(inds, fams))
    ensures Tagged(BirthBeforeDeathOfParents(inds, fams).findings, US09, Error)
    ensures Honest(BirthBeforeDeathOfParents(inds, fams))
    ensures Tagged(ParentsNotTooOld(inds, fams).findings, US12, Anomaly)
    ensures Honest(ParentsNotTooOld(inds, fams))
    ensures Tagged(NoBigamy(inds, fams).findings, US11, Anomaly)
    ensures Honest(NoBigamy(inds, fams))
    ensures Tagged(NoSiblingMarriage(inds, fams).findings, US18, Anomaly)
    ensures Honest(NoSiblingMarriage(inds, fams))
    ensures Tagged(NoMarriageToDescendants(fams, fuel).findings, US17, Anomaly)
    ensures Honest(NoMarriageToDescendants(fams, fuel))
  {
    MarriageAgeTagged(inds, fams, today);
    DatesBeforeCurrentTagged(inds, fams, today);
    BirthBeforeMarriageTagged(inds, fams);
    BirthBeforeDeathTagged(inds);
    MarriageBeforeDivorceTagged(fams);
    MarriageBeforeDeathTagged(inds, fams);
    DivorceBeforeDeathTagged(inds, fams);
    AgeLess150Tagged(inds, today);
    BirthBeforeMarriageOfParentsTagged(inds, fams);
    BirthBeforeDeathOfParentsTagged(inds, fams);
    ParentsNotTooOldTagged(inds, fams);
    NoBigamyTagged(inds, fams);
    NoSiblingMarriageTagged(inds, fams);
    NoMarriageToDescendantsTagged(fams, fuel);
  }

  lemma InCallOrderSeverities(r: RuleOutcomes)
    requires WellFormed(r)
    ensures forall g :: g in InCallOrder(r) ==> g.story in ErrorStories + AnomalyStories
    ensures forall g :: g in InCallOrder(r) ==> (g.severity == Error <==> g.story in ErrorStories)
  {
  }

  /** `marriage_age` runs twice, so each of its findings is reported exactly
      twice as often as one run of it reports it, and no other rule
      reports under US10. */
  lemma MarriageAgeReportedTwice(inds: seq<Individual>, fams: seq<Family>, today: Date, fuel: nat)
    requires Checkable(inds, fams, today, fuel)
    ensures forall g: Finding :: g.story == US10 ==>
      multiset(Validate(inds, fams, today, fuel))[g] == 2 * multiset(MarriageAge(inds, fams, today).findings)[g]
  {
    var r := RunRules(inds, fams, today, fuel);
    InCallOrderCounts(r);
  }

  lemma InCallOrderCounts(r: RuleOutcomes)
    requires WellFormed(r)
    ensures forall g: Finding :: g.story == US10 ==>
      multiset(InCallOrder(r))[g] == 2 * multiset(r.us10.findings)[g]
  {
  }

  lemma InCallOrderCount(r: RuleOutcomes, g: Finding)
    requires WellFormed(r) && g.story == US10
    ensures multiset(InCallOrder(r))[g] == 2 * multiset(r.us10.findings)[g]
  {
    BetweenCallsCount(r, g);
    FromSecondCallCount(r, g);
  }

  lemma BetweenCallsCount(r: RuleOutcomes, g: Finding)
    requires WellFormed(r) && g.story == US10
    ensures multiset(BetweenCalls(r))[g] == 0
  {
  }

  lemma FromSecondCallCount(r: RuleOutcomes, g: Finding)
    requires WellFormed(r) && g.story == US10
    ensures multiset(FromSecondCall(r))[g] == multiset(r.us10.findings)[g]
  {
  }

  /** A run reports nothing exactly when every rule returns `True`. */
  lemma CleanRun(inds: seq<Individual>, fams: seq<Family>, today: Date, fuel: nat)
    requires Checkable(inds, fams, today, fuel)
    ensures Validate(inds, fams, today, fuel) == [] <==>
      && MarriageAge(inds, fams, today).passed
      && DatesBeforeCurrent(inds, fams, today).passed
      && BirthBeforeMarriage(inds, fams).passed
      && BirthBeforeDeath(inds).passed
      && MarriageBeforeDivorce(fams).passed
      && MarriageBeforeDeath(inds, fams).passed
      && DivorceBeforeDeath(inds, fams).passed
      && AgeLess150(inds, today).passed
      && BirthBeforeMarriageOfParents(inds, fams).passed
      && BirthBeforeDeathOfParents(inds, fams).passed
      && ParentsNotTooOld(inds, fams).passed
      && NoBigamy(inds, fams).passed
      && NoSiblingMarriage(inds, fams).passed
      && NoMarriageToDescendants(fams, fuel).passed
  {
    var r := RunRules(inds, fams, today, fuel);
    InCallOrderEmpty(r);
  }

  lemma InCallOrderEmpty(r: RuleOutcomes)
    requires WellFormed(r)
    ensures InCallOrder(r) == [] <==>
      && r.us01.passed
      && r.us02.passed
      && r.us03.passed
      && r.us04.passed
      && r.us05.passed
      && r.us06.passed
      && r.us07.passed
      && r.us08.passed
      && r.us09.passed
      && r.us10.passed
      && r.us11.passed
      && r.us12.passed
      && r.us17.passed
      && r.us18.passed
  {
  }

  /** The location lists after a run: an id is on the error list exactly
      when a finding of one of the error stories names it, and on the
      anomaly list exactly when a finding of one of the other stories does. */
  lemma RunLocations(inds: seq<Individual>, fams: seq<Family>, today: Date, fuel: nat, x: string)
    requires Checkable(inds, fams, today, fuel)
    ensures var fs := Validate(inds, fams, today, fuel);
      && (x in Locations(fs, Error) <==> exists g :: g in fs && g.story in ErrorStories && x in g.ids)
      && (x in Locations(fs, Anomaly) <==> exists g :: g in fs && g.story in AnomalyStories && x in g.ids)
  {
    SeverityLocations(Validate(inds, fams, today, fuel), x);
  }

  lemma SeverityLocations(fs: seq<Finding>, x: string)
    requires forall g :: g in fs ==> g.story in ErrorStories + AnomalyStories
    requires forall g :: g in fs ==> (g.severity == Error <==> g.story in ErrorStories)
    ensures x in Locations(fs, Error) <==> exists g :: g in fs && g.story in ErrorStories && x in g.ids
    ensures x in Locations(fs, Anomaly) <==> exists g :: g in fs && g.story in AnomalyStories && x in g.ids
  {
    LocationsMember(fs, Error, x);
    LocationsMember(fs, Anomaly, x);
    assert ErrorStories !! AnomalyStories;
    if exists g :: g in fs && g.story in ErrorStories && x in g.ids {
      var g :| g in fs && g.story in ErrorStories && x in g.ids;
      var k :| 0 <= k < |fs| && fs[k] == g;
    }
    if exists g :: g in fs && g.story in AnomalyStories && x in g.ids {
      var g :| g in fs && g.story in AnomalyStories && x in g.ids;
      var k :| 0 <= k < |fs| && fs[k] == g;
    }
  }
}
