/** The ways src/user_stories.py finds a record by id. Spouses and parents
    are looked up by a loop that keeps the last match, by `next(...)` that
    takes the first, or (in `marriage_age`) by a loop that stops once both
    spouses have been seen. Ids compare as `Option<string>` because a
    family's husband or wife may be absent, and an absent id matches no
    individual. */
module Lookup {
  import opened Wrappers
  import opened Entities

  predicate HasUid(ind: Individual, uid: Option<string>) {
    uid == Some(ind.uid)
  }

  /** Position `p` holds the id and no later position does. */
  predicate IsLastMatch(inds: seq<Individual>, uid: Option<string>, p: int) {
    0 <= p < |inds| && HasUid(inds[p], uid) && forall k :: p < k < |inds| ==> !HasUid(inds[k], uid)
  }

  /** Position `p` holds the id and no earlier position does. */
  predicate IsFirstMatch(inds: seq<Individual>, uid: Option<string>, p: int) {
    0 <= p < |inds| && HasUid(inds[p], uid) && forall k :: 0 <= k < p ==> !HasUid(inds[k], uid)
  }

  /** `for indiv in individuals: if indiv.uid == uid: found = indiv` over the
      first `n` individuals: the position of the last match. */
  function LastWithUid(inds: seq<Individual>, uid: Option<string>, n: nat): (r: Option<nat>)
    requires n <= |inds|
    ensures r.Some? ==> r.value < n && HasUid(inds[r.value], uid)
    ensures r.Some? ==> forall k :: r.value < k < n ==> !HasUid(inds[k], uid)
    ensures r.None? <==> forall k :: 0 <= k < n ==> !HasUid(inds[k], uid)
  {
    if n == 0 then None
    else if HasUid(inds[n - 1], uid) then Some(n - 1)
    else LastWithUid(inds, uid, n - 1)
  }

  /** The individual the last-match loop leaves behind, if any. */
  function Resolve(inds: seq<Individual>, uid: Option<string>): (r: Option<Individual>)
    ensures r.Some? ==> r.value in inds && HasUid(r.value, uid)
    ensures r.None? <==> forall k :: 0 <= k < |inds| ==> !HasUid(inds[k], uid)
  {
    match LastWithUid(inds, uid, |inds|)
    case None => None
    case Some(k) => Some(inds[k])
  }

  /** With the id shared, the loop leaves behind the individual at the last
      position that carries it. */
  lemma ResolveIsLast(inds: seq<Individual>, uid: Option<string>, p: int)
    requires IsLastMatch(inds, uid, p)
    ensures Resolve(inds, uid) == Some(inds[p])
  {
  }

  /** `next(x for x in individuals if x.uid == uid)` from position `i`: the
      position of the first match. */
  function FirstWithUid(inds: seq<Individual>, uid: Option<string>, i: nat): (r: Option<nat>)
    requires i <= |inds|
    ensures r.Some? ==> i <= r.value < |inds| && HasUid(inds[r.value], uid)
    ensures r.Some? ==> forall k :: i <= k < r.value ==> !HasUid(inds[k], uid)
    ensures r.None? <==> forall k :: i <= k < |inds| ==> !HasUid(inds[k], uid)
    decreases |inds| - i
  {
    if i == |inds| then None
    else if HasUid(inds[i], uid) then Some(i)
    else FirstWithUid(inds, uid, i + 1)
  }

  /** The individual `next(...)` yields, `None` standing for the default. */
  function First(inds: seq<Individual>, uid: Option<string>): (r: Option<Individual>)
    ensures r.Some? ==> r.value in inds && HasUid(r.value, uid)
    ensures r.None? <==> forall k :: 0 <= k < |inds| ==> !HasUid(inds[k], uid)
  {
    match FirstWithUid(inds, uid, 0)
    case None => None
    case Some(k) => Some(inds[k])
  }

  /** With the id shared, `next(...)` yields the individual at the first
      position that carries it. */
  lemma FirstIsFirst(inds: seq<Individual>, uid: Option<string>, p: int)
    requires IsFirstMatch(inds, uid, p)
    ensures First(inds, uid) == Some(inds[p])
  {
  }

  /** Whether at most one individual carries the id. */
  predicate UniqueUid(inds: seq<Individual>, uid: Option<string>) {
    forall j, k :: 0 <= j < k < |inds| && HasUid(inds[j], uid) ==> !HasUid(inds[k], uid)
  }

  /** Taking the first match and taking the last agree exactly when the id
      is not shared: with duplicated ids the rules that use `next(...)` and
      those that loop see different records. */
  lemma FirstLastAgree(inds: seq<Individual>, uid: Option<string>)
    ensures FirstWithUid(inds, uid, 0) == LastWithUid(inds, uid, |inds|) <==> UniqueUid(inds, uid)
  {
  }

  /** The husband/wife loop of `marriage_age`: like the last-match loop, but
      it stops as soon as both spouses have been seen. `hs`/`ws` are what the
      loop holds before position `i`. */
  function SpouseScan(inds: seq<Individual>, h: Option<string>, w: Option<string>,
                      i: nat, hs: Option<nat>, ws: Option<nat>): (r: (Option<nat>, Option<nat>))
    requires i <= |inds|
    requires hs.Some? ==> hs.value < |inds| && HasUid(inds[hs.value], h)
    requires ws.Some? ==> ws.value < |inds| && HasUid(inds[ws.value], w)
    ensures r.0.Some? ==> r.0.value < |inds| && HasUid(inds[r.0.value], h)
    ensures r.1.Some? ==> r.1.value < |inds| && HasUid(inds[r.1.value], w)
    ensures r.0.None? ==> hs.None? && forall k :: i <= k < |inds| ==> !HasUid(inds[k], h)
    ensures r.1.None? ==> ws.None? && forall k :: i <= k < |inds| ==> !HasUid(inds[k], w)
    decreases |inds| - i
  {
    if i == |inds| then (hs, ws)
    else
      var hs' := if HasUid(inds[i], h) then Some(i) else hs;
      var ws' := if HasUid(inds[i], w) then Some(i) else ws;
      if hs'.Some? && ws'.Some? then (hs', ws')
      else SpouseScan(inds, h, w, i + 1, hs', ws')
  }

  /** When both spouses are present, the scan stops at the position `p`
      where the later of the two first appears, and holds the last match of
      each among the individuals up to `p`. */
  lemma SpouseScanStops(inds: seq<Individual>, h: Option<string>, w: Option<string>)
    requires FirstWithUid(inds, h, 0).Some? && FirstWithUid(inds, w, 0).Some?
    ensures SpouseScan(inds, h, w, 0, None, None)
      == (LastWithUid(inds, h, BothFirstSeen(inds, h, w) + 1), LastWithUid(inds, w, BothFirstSeen(inds, h, w) + 1))
  {
    SpouseScanFrom(inds, h, w, 0, BothFirstSeen(inds, h, w));
  }

  /** The position where the later of the two spouses first appears. */
  function BothFirstSeen(inds: seq<Individual>, h: Option<string>, w: Option<string>): (p: nat)
    requires FirstWithUid(inds, h, 0).Some? && FirstWithUid(inds, w, 0).Some?
    ensures p < |inds|
    ensures p == FirstWithUid(inds, h, 0).value || p == FirstWithUid(inds, w, 0).value
    ensures FirstWithUid(inds, h, 0).value <= p && FirstWithUid(inds, w, 0).value <= p
  {
    var fh, fw := FirstWithUid(inds, h, 0).value, FirstWithUid(inds, w, 0).value;
    if fh < fw then fw else fh
  }

  /** Whether both spouses occur among the first `n` individuals. */
  predicate BothSeen(inds: seq<Individual>, h: Option<string>, w: Option<string>, n: nat)
    requires n <= |inds|
  {
    LastWithUid(inds, h, n).Some? && LastWithUid(inds, w, n).Some?
  }

  lemma {:induction false} SpouseScanFrom(inds: seq<Individual>, h: Option<string>, w: Option<string>, i: nat, p: nat)
    requires i <= p < |inds|
    requires HasUid(inds[p], h) || HasUid(inds[p], w)
    requires LastWithUid(inds, h, p + 1).Some? && LastWithUid(inds, w, p + 1).Some?
    requires forall n :: i < n <= p ==> !BothSeen(inds, h, w, n)
    ensures SpouseScan(inds, h, w, i, LastWithUid(inds, h, i), LastWithUid(inds, w, i))
      == (LastWithUid(inds, h, p + 1), LastWithUid(inds, w, p + 1))
    decreases p - i
  {
    SpouseScanStep(inds, h, w, i);
    if i < p {
      assert !BothSeen(inds, h, w, i + 1);
      SpouseScanFrom(inds, h, w, i + 1, p);
    }
  }

  /** One step of the scan, seen through the last-match positions. */
  lemma SpouseScanStep(inds: seq<Individual>, h: Option<string>, w: Option<string>, i: nat)
    requires i < |inds|
    ensures var hs, ws := LastWithUid(inds, h, i + 1), LastWithUid(inds, w, i + 1);
      SpouseScan(inds, h, w, i, LastWithUid(inds, h, i), LastWithUid(inds, w, i))
        == if hs.Some? && ws.Some? then (hs, ws) else SpouseScan(inds, h, w, i + 1, hs, ws)
  {
  }

  /** With neither id shared, the scan finds the same positions as the
      last-match loop over the whole list. */
  lemma SpouseScanUnique(inds: seq<Individual>, h: Option<string>, w: Option<string>)
    requires LastWithUid(inds, h, |inds|).Some? && LastWithUid(inds, w, |inds|).Some?
    requires UniqueUid(inds, h) && UniqueUid(inds, w)
    ensures SpouseScan(inds, h, w, 0, None, None) == (LastWithUid(inds, h, |inds|), LastWithUid(inds, w, |inds|))
  {
    FirstLastAgree(inds, h);
    FirstLastAgree(inds, w);
    SpouseScanFirstIsLast(inds, h, w);
  }

  lemma SpouseScanFirstIsLast(inds: seq<Individual>, h: Option<string>, w: Option<string>)
    requires LastWithUid(inds, h, |inds|).Some? && LastWithUid(inds, w, |inds|).Some?
    requires FirstWithUid(inds, h, 0) == LastWithUid(inds, h, |inds|)
    requires FirstWithUid(inds, w, 0) == LastWithUid(inds, w, |inds|)
    ensures SpouseScan(inds, h, w, 0, None, None) == (LastWithUid(inds, h, |inds|), LastWithUid(inds, w, |inds|))
  {
    var p := BothFirstSeen(inds, h, w);
    assert LastWithUid(inds, h, p + 1) == LastWithUid(inds, h, |inds|) by { LastUpTo(inds, h, p + 1); }
    assert LastWithUid(inds, w, p + 1) == LastWithUid(inds, w, |inds|) by { LastUpTo(inds, w, p + 1); }
    SpouseScanStops(inds, h, w);
  }

  /** The last match among the first `n` is the last match overall once `n`
      is past it. */
  lemma LastUpTo(inds: seq<Individual>, uid: Option<string>, n: nat)
    requires n <= |inds|
    requires LastWithUid(inds, uid, |inds|).Some? && LastWithUid(inds, uid, |inds|).value < n
    ensures LastWithUid(inds, uid, n) == LastWithUid(inds, uid, |inds|)
  {
  }

  lemma LastStep(inds: seq<Individual>, uid: Option<string>, i: nat)
    requires i < |inds|
    ensures LastWithUid(inds, uid, i + 1) == if HasUid(inds[i], uid) then Some(i) else LastWithUid(inds, uid, i)
  {
  }

  // ---------------------------------------------------------------------------
  // Families

  /** `for family in families: if family.uid == uid: ...; break`: the first
      family with that id. */
  function FamilyWithUid(fams: seq<Family>, uid: string, i: nat): (r: Option<nat>)
    requires i <= |fams|
    ensures r.Some? ==> i <= r.value < |fams| && fams[r.value].uid == uid
    ensures r.Some? ==> forall k :: i <= k < r.value ==> fams[k].uid != uid
    ensures r.None? <==> forall k :: i <= k < |fams| ==> fams[k].uid != uid
    decreases |fams| - i
  {
    if i == |fams| then None
    else if fams[i].uid == uid then Some(i)
    else FamilyWithUid(fams, uid, i + 1)
  }

  /** `next((x for x in families if x.husband == uid), None)`. */
  function FamilyWithHusband(fams: seq<Family>, uid: string, i: nat): (r: Option<nat>)
    requires i <= |fams|
    ensures r.Some? ==> i <= r.value < |fams| && fams[r.value].husband == Some(uid)
    ensures r.Some? ==> forall k :: i <= k < r.value ==> fams[k].husband != Some(uid)
    ensures r.None? <==> forall k :: i <= k < |fams| ==> fams[k].husband != Some(uid)
    decreases |fams| - i
  {
    if i == |fams| then None
    else if fams[i].husband == Some(uid) then Some(i)
    else FamilyWithHusband(fams, uid, i + 1)
  }

  /** `next((x for x in families if x.wife == uid), None)`. */
  function FamilyWithWife(fams: seq<Family>, uid: string, i: nat): (r: Option<nat>)
    requires i <= |fams|
    ensures r.Some? ==> i <= r.value < |fams| && fams[r.value].wife == Some(uid)
    ensures r.Some? ==> forall k :: i <= k < r.value ==> fams[k].wife != Some(uid)
    ensures r.None? <==> forall k :: i <= k < |fams| ==> fams[k].wife != Some(uid)
    decreases |fams| - i
  {
    if i == |fams| then None
    else if fams[i].wife == Some(uid) then Some(i)
    else FamilyWithWife(fams, uid, i + 1)
  }

  /** Family `k` has `uid` as wife and no earlier family does. */
  predicate IsFirstWife(fams: seq<Family>, uid: string, k: int) {
    0 <= k < |fams| && fams[k].wife == Some(uid) && forall j :: 0 <= j < k ==> fams[j].wife != Some(uid)
  }

  /** Family `k` has `uid` as husband and no earlier family does. */
  predicate IsFirstHusband(fams: seq<Family>, uid: string, k: int) {
    0 <= k < |fams| && fams[k].husband == Some(uid) && forall j :: 0 <= j < k ==> fams[j].husband != Some(uid)
  }

  /** `return_children(uid, families)`: the children of the first family
      with `uid` as husband, or failing that of the first with `uid` as
      wife; `None` for someone who is never a spouse. */
  function ReturnChildren(uid: string, fams: seq<Family>): (r: Option<seq<string>>)
    ensures r.None? <==> forall k :: 0 <= k < |fams| ==> fams[k].husband != Some(uid) && fams[k].wife != Some(uid)
    ensures r.Some? ==>
      exists k :: 0 <= k < |fams| && r.value == fams[k].children && (fams[k].husband == Some(uid) || fams[k].wife == Some(uid))
  {
    match FamilyWithHusband(fams, uid, 0)
    case Some(k) => Some(fams[k].children)
    case None =>
      match FamilyWithWife(fams, uid, 0)
      case Some(k) => Some(fams[k].children)
      case None => None
  }

  /** A husband's children come from the family where he is husband, even
      when he is also a wife somewhere earlier in the list. */
  lemma ReturnChildrenPrefersHusband(uid: string, fams: seq<Family>, k: nat)
    requires IsFirstHusband(fams, uid, k)
    ensures ReturnChildren(uid, fams) == Some(fams[k].children)
  {
  }

  /** Someone who is husband nowhere gets the children of the first family
      that has them as wife. */
  lemma ReturnChildrenWifeFallback(uid: string, fams: seq<Family>, k: nat)
    requires forall j :: 0 <= j < |fams| ==> fams[j].husband != Some(uid)
    requires IsFirstWife(fams, uid, k)
    ensures ReturnChildren(uid, fams) == Some(fams[k].children)
  {
  }
}
