/** The rules of src/user_stories.py that follow the family tree: US17
    (`no_marriage_to_decendants`, with its helper `return_children`) and
    US18 (`no_sibling_marriage`). */
module Kinship {
  import opened Wrappers
  import opened Entities
  import opened Findings
  import opened Lookup

  // ---------------------------------------------------------------------------
  // US17 no_marriage_to_decendants

  /** The descendant list of `no_marriage_to_decendants`: a `for` loop over
      a list that the loop body extends, so it runs until position `i`
      catches up with the end. Each step appends `return_children` of the
      entry at `i`. On a family tree with a cycle the Python loop never
      ends; `fuel` bounds the number of steps and `None` means it ran out. */
  function Expand(fams: seq<Family>, list: seq<string>, i: nat, fuel: nat): (r: Option<seq<string>>)
    requires i <= |list|
    ensures r.Some? ==> list <= r.value
    decreases fuel
  {
    if i == |list| then Some(list)
    else if fuel == 0 then None
    else Expand(fams, Grow(fams, list, i), i + 1, fuel - 1)
  }

  /** One pass of the loop body: `return_children` of the entry at `i`,
      when there are any, appended to the list. */
  function Grow(fams: seq<Family>, list: seq<string>, i: nat): (r: seq<string>)
    requires i < |list|
    ensures list <= r
    ensures forall c :: c in r <==> c in list || (ReturnChildren(list[i], fams).Some? && c in ReturnChildren(list[i], fams).value)
  {
    var more := ReturnChildren(list[i], fams);
    if more.Some? then list + more.value else list
  }

  /** The descendants of family `f`: its children, then their children and
      so on, with repetitions, in the order the loop appends them. */
  function Descendants(fams: seq<Family>, f: Family, fuel: nat): (r: Option<seq<string>>)
    ensures r.Some? ==> f.children <= r.value
  {
    Expand(fams, f.children, 0, fuel)
  }

  /** Once the loop has finished, more fuel changes nothing. */
  lemma {:induction false} ExpandFuel(fams: seq<Family>, list: seq<string>, i: nat, fuel: nat, more: nat)
    requires i <= |list| && Expand(fams, list, i, fuel).Some? && fuel <= more
    ensures Expand(fams, list, i, more) == Expand(fams, list, i, fuel)
    decreases fuel
  {
    if i < |list| {
      ExpandFuel(fams, Grow(fams, list, i), i + 1, fuel - 1, more - 1);
    }
  }

  /** Everyone `return_children` names for `x` is in `s`. */
  predicate ChildrenWithin(fams: seq<Family>, x: string, s: set<string>) {
    ReturnChildren(x, fams).Some? ==> forall c :: c in ReturnChildren(x, fams).value ==> c in s
  }

  /** A set of ids closed under `return_children`. */
  predicate Closed(fams: seq<Family>, s: set<string>) {
    forall x :: x in s ==> ChildrenWithin(fams, x, s)
  }

  /** The first `i` entries of the list have had their children appended. */
  predicate Processed(fams: seq<Family>, list: seq<string>, i: nat)
    requires i <= |list|
  {
    forall k :: 0 <= k < i ==> ChildrenWithin(fams, list[k], set x | x in list)
  }

  lemma {:induction false} ExpandClosed(fams: seq<Family>, list: seq<string>, i: nat, fuel: nat)
    requires i <= |list| && Expand(fams, list, i, fuel).Some? && Processed(fams, list, i)
    ensures var r := Expand(fams, list, i, fuel).value; Processed(fams, r, |r|)
    decreases fuel
  {
    if i < |list| {
      var next := Grow(fams, list, i);
      forall k | 0 <= k < i + 1 ensures ChildrenWithin(fams, next[k], set x | x in next) {
        assert next[k] == list[k];
        assert forall x :: x in list ==> x in next;
      }
      ExpandClosed(fams, next, i + 1, fuel - 1);
    }
  }

  lemma {:induction false} ExpandWithin(fams: seq<Family>, list: seq<string>, i: nat, fuel: nat, s: set<string>)
    requires i <= |list| && Expand(fams, list, i, fuel).Some?
    requires Closed(fams, s) && forall x :: x in list ==> x in s
    ensures forall x :: x in Expand(fams, list, i, fuel).value ==> x in s
    decreases fuel
  {
    if i < |list| {
      assert ChildrenWithin(fams, list[i], s);
      ExpandWithin(fams, Grow(fams, list, i), i + 1, fuel - 1, s);
    }
  }

  /** The descendant list holds exactly the least set that contains the
      family's children and is closed under `return_children`: it contains
      the children, it is closed, and it lies within every such set. */
  lemma DescendantsLeast(fams: seq<Family>, f: Family, fuel: nat, s: set<string>)
    requires Descendants(fams, f, fuel).Some?
    requires Closed(fams, s) && forall c :: c in f.children ==> c in s
    ensures forall c :: c in f.children ==> c in Descendants(fams, f, fuel).value
    ensures Closed(fams, set x | x in Descendants(fams, f, fuel).value)
    ensures forall x :: x in Descendants(fams, f, fuel).value ==> x in s
  {
    var r := Descendants(fams, f, fuel).value;
    ExpandClosed(fams, f.children, 0, fuel);
    var rs := set y | y in r;
    forall x | x in rs ensures ChildrenWithin(fams, x, rs) {
      var k :| 0 <= k < |r| && r[k] == x;
    }
    ExpandWithin(fams, f.children, 0, fuel, s);
  }

  /** `family.husband and family.wife`: a missing or empty id is false. */
  predicate Truthy(id: Option<string>) {
    id.Some? && id.value != ""
  }

  /** The wife of `f` is on the descendant list of `f`. */
  predicate WifeIsDescendant(fams: seq<Family>, f: Family, fuel: nat) {
    && Truthy(f.husband) && Truthy(f.wife)
    && Descendants(fams, f, fuel).Some? && f.wife.value in Descendants(fams, f, fuel).value
  }

  /** `g` is what US17 reports for `f`. */
  predicate US17Reports(fams: seq<Family>, f: Family, fuel: nat, g: Finding) {
    WifeIsDescendant(fams, f, fuel) && g == AnomalyOf(US17, [f.wife.value, f.husband.value])
  }

  /** The two checks of the rule test the same condition, so a family is
      reported twice or not at all. */
  function US17Family(fams: seq<Family>, f: Family, fuel: nat): (fs: seq<Finding>)
    requires Descendants(fams, f, fuel).Some?
    ensures fs == [] <==> !WifeIsDescendant(fams, f, fuel)
    ensures fs != [] ==> |fs| == 2 && fs[0] == fs[1]
    ensures forall g :: g in fs <==> US17Reports(fams, f, fuel, g)
  {
    var decendants := Descendants(fams, f, fuel).value;
    var first := if Truthy(f.husband) && Truthy(f.wife) && f.wife.value in decendants
      then [AnomalyOf(US17, [f.wife.value, f.husband.value])] else [];
    var second := if Truthy(f.husband) && Truthy(f.wife) && f.wife.value in decendants
      then [AnomalyOf(US17, [f.wife.value, f.husband.value])] else [];
    first + second
  }

  /** Every family's descendants are collected within `fuel` rounds. */
  predicate DescendantsWithin(fams: seq<Family>, fuel: nat) {
    forall i :: 0 <= i < |fams| ==> Descendants(fams, fams[i], fuel).Some?
  }

  /** US17 `no_marriage_to_decendants`: for each family, two anomalies
      naming the wife and the husband when the wife is among the family's
      descendants. `fuel` must let every descendant loop finish. */
  function NoMarriageToDescendants(fams: seq<Family>, fuel: nat): (o: Outcome)
    requires DescendantsWithin(fams, fuel)
    ensures o.passed <==> forall i :: 0 <= i < |fams| ==> !WifeIsDescendant(fams, fams[i], fuel)
    ensures forall g :: g in o.findings <==> exists i :: 0 <= i < |fams| && US17Reports(fams, fams[i], fuel, g)
  {
    var parts := seq(|fams|, i requires 0 <= i < |fams| => US17Family(fams, fams[i], fuel));
    assert forall i :: 0 <= i < |fams| ==> parts[i] == US17Family(fams, fams[i], fuel);
    Scan(parts)
  }

  /** The verdict does not depend on the fuel, once it is enough. */
  lemma NoMarriageToDescendantsFuel(fams: seq<Family>, fuel: nat, more: nat)
    requires forall i :: 0 <= i < |fams| ==> Descendants(fams, fams[i], fuel).Some?
    requires fuel <= more
    ensures forall i :: 0 <= i < |fams| ==> Descendants(fams, fams[i], more).Some?
    ensures NoMarriageToDescendants(fams, more) == NoMarriageToDescendants(fams, fuel)
  {
    forall i | 0 <= i < |fams| ensures Descendants(fams, fams[i], more) == Descendants(fams, fams[i], fuel) {
      ExpandFuel(fams, fams[i].children, 0, fuel, more);
    }
    assert forall i :: 0 <= i < |fams| ==> US17Family(fams, fams[i], more) == US17Family(fams, fams[i], fuel);
    var a := seq(|fams|, i requires 0 <= i < |fams| => US17Family(fams, fams[i], more));
    var b := seq(|fams|, i requires 0 <= i < |fams| => US17Family(fams, fams[i], fuel));
    assert a == b;
  }

  /** Only the wife is looked for among the descendants: a husband on the
      list draws no report while the wife is not on it. */
  lemma HusbandNotChecked(fams: seq<Family>, f: Family, fuel: nat)
    requires Descendants(fams, f, fuel).Some? && f.husband.Some?
    requires f.husband.value in Descendants(fams, f, fuel).value
    requires f.wife.None? || f.wife.value !in Descendants(fams, f, fuel).value
    ensures US17Family(fams, f, fuel) == []
  {
  }

  // ---------------------------------------------------------------------------
  // US18 no_sibling_marriage

  /** The record at the index `Lookup.FamilyWithHusband` finds: what
      `no_sibling_marriage` reads the wife from. */
  function FamilyAsHusband(fams: seq<Family>, uid: string): (r: Option<Family>)
    ensures r.Some? ==> r.value in fams && r.value.husband == Some(uid)
    ensures r.None? <==> forall k :: 0 <= k < |fams| ==> fams[k].husband != Some(uid)
  {
    match FamilyWithHusband(fams, uid, 0)
    case None => None
    case Some(k) => Some(fams[k])
  }

  /** With several families naming `uid` as husband, the first of them. */
  lemma FamilyAsHusbandIsFirst(fams: seq<Family>, uid: string, p: int)
    requires IsFirstHusband(fams, uid, p)
    ensures FamilyAsHusband(fams, uid) == Some(fams[p])
  {
  }

  /** `s` is a child of `f`, and the first family with `s` as husband has a
      wife who is also a child of `f`. */
  predicate MarriedSibling(fams: seq<Family>, f: Family, s: Individual) {
    && s.uid in f.children
    && FamilyAsHusband(fams, s.uid).Some?
    && FamilyAsHusband(fams, s.uid).value.wife.Some?
    && FamilyAsHusband(fams, s.uid).value.wife.value in f.children
  }

  /** `g` is what US18 reports for sibling `s` in family `f`. */
  predicate US18Reports(fams: seq<Family>, f: Family, s: Individual, g: Finding) {
    MarriedSibling(fams, f, s) && g == AnomalyOf(US18, [s.uid, FamilyAsHusband(fams, s.uid).value.wife.value])
  }

  function US18Sibling(fams: seq<Family>, f: Family, s: Individual): (fs: seq<Finding>)
    ensures fs == [] <==> !MarriedSibling(fams, f, s)
    ensures forall g :: g in fs <==> US18Reports(fams, f, s, g)
    ensures fs != [] ==> fs == [AnomalyOf(US18, [s.uid, FamilyAsHusband(fams, s.uid).value.wife.value])]
  {
    if s.uid !in f.children then []
    else
      match FamilyAsHusband(fams, s.uid)
      case None => []
      case Some(sibFam) =>
        if sibFam.wife.Some? && sibFam.wife.value in f.children
        then [AnomalyOf(US18, [s.uid, sibFam.wife.value])] else []
  }

  /** The individuals whose id is among the children of `f`, in input
      order; everyone else contributes nothing. */
  function US18Family(inds: seq<Individual>, fams: seq<Family>, f: Family): (fs: seq<Finding>)
    ensures fs == [] <==> forall k :: 0 <= k < |inds| ==> !MarriedSibling(fams, f, inds[k])
    ensures forall g :: g in fs <==> exists k :: 0 <= k < |inds| && US18Reports(fams, f, inds[k], g)
  {
    var parts := seq(|inds|, k requires 0 <= k < |inds| => US18Sibling(fams, f, inds[k]));
    assert forall k :: 0 <= k < |inds| ==> parts[k] == US18Sibling(fams, f, inds[k]);
    Scan(parts).findings
  }

  /** US18 `no_sibling_marriage`: for each family and each of its children
      found among the individuals, an anomaly naming the child and the wife
      of the first family with that child as husband, when she is a child of
      the same family. */
  function NoSiblingMarriage(inds: seq<Individual>, fams: seq<Family>): (o: Outcome)
    ensures o.passed <==> forall i, k :: 0 <= i < |fams| && 0 <= k < |inds| ==> !MarriedSibling(fams, fams[i], inds[k])
    ensures forall g :: g in o.findings <==>
      exists i, k :: 0 <= i < |fams| && 0 <= k < |inds| && US18Reports(fams, fams[i], inds[k], g)
  {
    var parts := seq(|fams|, i requires 0 <= i < |fams| => US18Family(inds, fams, fams[i]));
    NoSiblingMarriagePassed(inds, fams, parts);
    NoSiblingMarriageFindings(inds, fams, parts);
    Scan(parts)
  }

  lemma NoSiblingMarriagePassed(inds: seq<Individual>, fams: seq<Family>, parts: seq<seq<Finding>>)
    requires |parts| == |fams| && forall i :: 0 <= i < |fams| ==> parts[i] == US18Family(inds, fams, fams[i])
    ensures Scan(parts).passed <==> forall i, k :: 0 <= i < |fams| && 0 <= k < |inds| ==> !MarriedSibling(fams, fams[i], inds[k])
  {
  }

  lemma NoSiblingMarriageFindings(inds: seq<Individual>, fams: seq<Family>, parts: seq<seq<Finding>>)
    requires |parts| == |fams| && forall i :: 0 <= i < |fams| ==> parts[i] == US18Family(inds, fams, fams[i])
    ensures forall g :: g in Scan(parts).findings <==>
      exists i, k :: 0 <= i < |fams| && 0 <= k < |inds| && US18Reports(fams, fams[i], inds[k], g)
  {
  }

  /** Only the first family with the sibling as husband is looked at: a
      brother who married outside the family first and his sister later is
      not reported. */
  lemma LaterSiblingMarriageMissed(fams: seq<Family>, f: Family, s: Individual, j: nat)
    requires s.uid in f.children && j < |fams|
    requires fams[j].husband == Some(s.uid) && fams[j].wife.Some? && fams[j].wife.value !in f.children
    requires forall k :: 0 <= k < j ==> fams[k].husband != Some(s.uid)
    ensures US18Sibling(fams, f, s) == []
  {
  }
}
