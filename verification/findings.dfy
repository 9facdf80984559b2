/** What the validation rules of src/user_stories.py report. Each call of
    `report_error` or `report_anomaly` becomes one `Finding`; the two module
    lists `error_locations` and `anomaly_locations` are the ids of the
    findings of each severity, in the order they were reported. */
module Findings {

  datatype Severity = Error | Anomaly

  /** The user stories that report, by the type string they pass to
      `report_error` or `report_anomaly` (`US01` ...). */
  datatype Story = US01 | US02 | US03 | US04 | US05 | US06 | US07 | US08 | US09 | US10 | US11 | US12 | US17 | US18

  /** One report: its severity, the user story that raised it and the ids it
      lists as the location. The printed description is not kept. */
  datatype Finding = Finding(severity: Severity, story: Story, ids: seq<string>)

  function ErrorOf(story: Story, ids: seq<string>): Finding {
    Finding(Error, story, ids)
  }

  function AnomalyOf(story: Story, ids: seq<string>): Finding {
    Finding(Anomaly, story, ids)
  }

  /** What a rule returns (`return_flag`) together with what it reported. */
  datatype Outcome = Outcome(passed: bool, findings: seq<Finding>)

  /** The lists one after another. */
  function Concat<T>(xs: seq<seq<T>>): seq<T>
  {
    if |xs| == 0 then [] else xs[0] + Concat(xs[1..])
  }

  lemma {:induction false} ConcatEmpty<T>(xs: seq<seq<T>>)
    ensures Concat(xs) == [] <==> forall i :: 0 <= i < |xs| ==> xs[i] == []
  {
    if |xs| > 0 {
      ConcatEmpty(xs[1..]);
      assert forall i :: 1 <= i < |xs| ==> xs[1..][i - 1] == xs[i];
    }
  }

  /** Something is in the concatenation exactly when it is in one of the lists. */
  lemma {:induction false} ConcatMember<T>(xs: seq<seq<T>>, x: T)
    ensures x in Concat(xs) <==> exists i :: 0 <= i < |xs| && x in xs[i]
  {
    if |xs| > 0 {
      ConcatMember(xs[1..], x);
      if x in Concat(xs[1..]) {
        var i :| 0 <= i < |xs[1..]| && x in xs[1..][i];
        assert x in xs[i + 1];
      }
      if exists i :: 1 <= i < |xs| && x in xs[i] {
        var i :| 1 <= i < |xs| && x in xs[i];
        assert xs[1..][i - 1] == xs[i];
      }
    }
  }

  lemma {:induction false} ConcatAppend<T>(xs: seq<seq<T>>, ys: seq<seq<T>>)
    ensures Concat(xs + ys) == Concat(xs) + Concat(ys)
  {
    if |xs| > 0 {
      assert (xs + ys)[1..] == xs[1..] + ys;
      ConcatAppend(xs[1..], ys);
    } else {
      assert xs + ys == ys;
    }
  }

  /** One when `b` holds, zero otherwise: how many reports one check makes. */
  function Flag(b: bool): nat {
    if b then 1 else 0
  }

  /** The number of items in all the lists together. */
  function TotalSize<T>(xs: seq<seq<T>>): nat
  {
    if |xs| == 0 then 0 else |xs[0]| + TotalSize(xs[1..])
  }

  lemma {:induction false} ConcatSize<T>(xs: seq<seq<T>>)
    ensures |Concat(xs)| == TotalSize(xs)
  {
    if |xs| > 0 {
      ConcatSize(xs[1..]);
    }
  }

  /** A rule that goes through every record with no early exit: it reports
      what each record calls for, in record order, and returns `True` exactly
      when no record called for a report. */
  function Scan(parts: seq<seq<Finding>>): (o: Outcome)
    ensures o.passed <==> forall i :: 0 <= i < |parts| ==> parts[i] == []
    ensures o.passed <==> o.findings == []
    ensures forall f :: f in o.findings <==> exists i :: 0 <= i < |parts| && f in parts[i]
  {
    ConcatEmpty(parts);
    forall f ensures f in Concat(parts) <==> exists i :: 0 <= i < |parts| && f in parts[i] {
      ConcatMember(parts, f);
    }
    Outcome(Concat(parts) == [], Concat(parts))
  }

  /** Nothing is merged or dropped: a scan makes exactly as many reports as
      the records together called for. */
  lemma ScanSize(parts: seq<seq<Finding>>)
    ensures |Scan(parts).findings| == TotalSize(parts)
  {
  }

  /** Two scans one after the other, as in a rule with two loops. */
  lemma ScanAppend(a: seq<seq<Finding>>, b: seq<seq<Finding>>)
    ensures Scan(a + b).passed <==>
      (forall i :: 0 <= i < |a| ==> a[i] == []) && (forall i :: 0 <= i < |b| ==> b[i] == [])
    ensures forall f :: f in Scan(a + b).findings <==>
      (exists i :: 0 <= i < |a| && f in a[i]) || (exists i :: 0 <= i < |b| && f in b[i])
  {
    assert forall i :: 0 <= i < |a| ==> (a + b)[i] == a[i];
    assert forall i :: 0 <= i < |b| ==> (a + b)[|a| + i] == b[i];
    forall f | f in Scan(a + b).findings
      ensures (exists i :: 0 <= i < |a| && f in a[i]) || (exists i :: 0 <= i < |b| && f in b[i])
    {
      var i :| 0 <= i < |a| + |b| && f in (a + b)[i];
      if i >= |a| {
        assert (a + b)[|a| + (i - |a|)] == b[i - |a|];
      }
    }
  }

  /** The ids that `report_error` (for `Error`) or `report_anomaly` (for
      `Anomaly`) appended, over a run that reported `fs`. */
  function Locations(fs: seq<Finding>, sev: Severity): (ids: seq<string>)
    ensures forall x :: x in ids ==> exists k :: 0 <= k < |fs| && fs[k].severity == sev && x in fs[k].ids
  {
    if |fs| == 0 then []
    else
      var last := fs[|fs| - 1];
      Locations(fs[..|fs| - 1], sev) + (if last.severity == sev then last.ids else [])
  }

  /** Reporting more appends to the location lists and never rewrites them. */
  lemma {:induction false} LocationsAppend(a: seq<Finding>, b: seq<Finding>, sev: Severity)
    ensures Locations(a + b, sev) == Locations(a, sev) + Locations(b, sev)
    decreases |b|
  {
    if |b| == 0 {
      assert a + b == a;
    } else {
      var b' := b[..|b| - 1];
      assert (a + b)[..|a + b| - 1] == a + b';
      LocationsAppend(a, b', sev);
    }
  }

  /** Every id reported lands in exactly one of the two lists: their lengths
      add up to the number of ids reported. */
  lemma {:induction false} LocationsPartition(fs: seq<Finding>)
    ensures |Locations(fs, Error)| + |Locations(fs, Anomaly)| == IdCount(fs)
  {
    if |fs| > 0 {
      LocationsPartition(fs[..|fs| - 1]);
    }
  }

  /** An id is in a location list exactly when some report of that
      severity listed it. */
  lemma {:induction false} LocationsMember(fs: seq<Finding>, sev: Severity, x: string)
    ensures x in Locations(fs, sev) <==> exists k :: 0 <= k < |fs| && fs[k].severity == sev && x in fs[k].ids
  {
    if |fs| > 0 {
      var init := fs[..|fs| - 1];
      LocationsMember(init, sev, x);
      assert forall k :: 0 <= k < |init| ==> init[k] == fs[k];
      if x in Locations(init, sev) {
        var k :| 0 <= k < |init| && init[k].severity == sev && x in init[k].ids;
        assert fs[k] == init[k];
      }
    }
  }

  function IdCount(fs: seq<Finding>): nat
  {
    if |fs| == 0 then 0 else IdCount(fs[..|fs| - 1]) + |fs[|fs| - 1].ids|
  }

  /** `report_error` and `report_anomaly` replayed over a run: for each
      report of the severity, `for loc in location: ...append(loc)`. */
  method CollectLocations(fs: seq<Finding>, sev: Severity) returns (locs: seq<string>)
    ensures locs == Locations(fs, sev)
  {
    locs := [];
    var i := 0;
    while i < |fs|
      invariant 0 <= i <= |fs|
      invariant locs == Locations(fs[..i], sev)
    {
      var before := locs;
      if fs[i].severity == sev {
        var location := fs[i].ids;
        var j := 0;
        while j < |location|
          invariant 0 <= j <= |location|
          invariant locs == before + location[..j]
        {
          locs := locs + [location[j]];
          j := j + 1;
        }
        assert location[..j] == location;
      }
      assert fs[..i + 1][..i] == fs[..i];
      i := i + 1;
    }
    assert fs[..i] == fs;
  }
}
