/** The records the parser builds (the `Individual` and `Family` classes of
    models.py). Dates are midnight `datetime`s, held as `Date`; cross-references
    between records are xref strings such as `@I1@` and `@F1@`. */
module Entities {
  import opened Wrappers
  import opened Text
  import opened Dates

  /** An individual. `intId` is the number inside the xref, used only to sort
      records for display. */
  datatype Individual = Individual(
    uid: string,
    intId: nat,
    name: Option<seq<string>>,
    sex: Option<string>,
    birth: Option<Date>,
    death: Option<Date>,
    famc: seq<string>,
    fams: seq<string>)

  /** A family: spouses and children are xrefs of individuals. */
  datatype Family = Family(
    uid: string,
    intId: nat,
    marriage: Option<Date>,
    husband: Option<string>,
    wife: Option<string>,
    children: seq<string>,
    divorce: Option<Date>)

  /** `Individual(uid)`. The constructor reads the first run of digits of the
      xref as the numeric id, and raises when there is none, so the record
      exists exactly for xrefs that contain a digit; every other field starts
      empty. */
  function NewIndividual(uid: string): (r: Option<Individual>)
    ensures r.Some? <==> !NoDigits(uid)
    ensures r.Some? ==> r.value.uid == uid && FirstNumber(uid) == Some(r.value.intId)
    ensures r.Some? ==> r.value.name.None? && r.value.sex.None?
    ensures r.Some? ==> r.value.birth.None? && r.value.death.None?
    ensures r.Some? ==> r.value.famc == [] && r.value.fams == []
  {
    var n :- FirstNumber(uid);
    Some(Individual(uid, n, None, None, None, None, [], []))
  }

  /** `Family(uid)`, with the same numeric id rule as `NewIndividual`; spouses
      and dates start absent and the child list starts empty. */
  function NewFamily(uid: string): (r: Option<Family>)
    ensures r.Some? <==> !NoDigits(uid)
    ensures r.Some? ==> r.value.uid == uid && FirstNumber(uid) == Some(r.value.intId)
    ensures r.Some? ==> r.value.marriage.None? && r.value.divorce.None?
    ensures r.Some? ==> r.value.husband.None? && r.value.wife.None? && r.value.children == []
  {
    var n :- FirstNumber(uid);
    Some(Family(uid, n, None, None, None, [], None))
  }

  /** For the usual xref shape, a letter prefix, a number and a closing `@`,
      the numeric id is that number: `@I12@` gets 12. */
  lemma NumericIdOfXref(prefix: string, n: nat)
    requires NoDigits(prefix)
    ensures NewIndividual(prefix + NatToString(n) + "@").Some?
    ensures NewIndividual(prefix + NatToString(n) + "@").value.intId == n
    ensures NewFamily(prefix + NatToString(n) + "@").Some?
    ensures NewFamily(prefix + NatToString(n) + "@").value.intId == n
  {
    FirstNumberOfDecoratedNumber(prefix, n, "@");
  }
}
