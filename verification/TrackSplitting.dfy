/** How the recent track of a flight is cut to a view: in separate paths for a display provider, and in one list for a
    service provider. Samples are of any type; `inside` tells whether one lies in the view. */
module TrackSplitting {
  import opened Common

  // ----- the maximal runs of samples inside the view, among the first `n` -----

  /** The samples from `lo` up to but not including `hi`. */
  datatype Run = Run(lo: nat, hi: nat)

  ghost predicate IsMaximalRun<S>(xs: seq<S>, inside: S -> bool, n: nat, r: Run)
    requires n <= |xs|
  {
    && r.lo < r.hi <= n
    && (forall k :: r.lo <= k < r.hi ==> inside(xs[k]))
    && (r.lo == 0 || !inside(xs[r.lo - 1]))
    && (r.hi == n || !inside(xs[r.hi]))
  }

  predicate LastInside<S>(xs: seq<S>, inside: S -> bool, n: nat)
    requires n <= |xs|
  {
    n > 0 && inside(xs[n - 1])
  }

  /** In order with a gap between each two, and the last one `open` or not at the end of the samples. */
  ghost predicate InOrder(runs: seq<Run>, n: nat, open: bool) {
    && (forall i :: 0 <= i < |runs| ==> runs[i].lo < runs[i].hi <= n)
    && (forall i, j :: 0 <= i < j < |runs| ==> runs[i].hi < runs[j].lo)
    && (if open then runs != [] && runs[|runs| - 1].hi == n else forall i :: 0 <= i < |runs| ==> runs[i].hi < n)
  }

  /** The runs after sample `n`, given those before it. */
  function NextRuns(runs: seq<Run>, n: nat, insideBefore: bool, insideNow: bool): (after: seq<Run>)
    requires InOrder(runs, n, insideBefore)
    ensures InOrder(after, n + 1, insideNow)
  {
    if !insideNow then runs
    else if insideBefore then runs[..|runs| - 1] + [Run(runs[|runs| - 1].lo, n + 1)]
    else runs + [Run(n, n + 1)]
  }

  function Runs<S>(xs: seq<S>, inside: S -> bool, n: nat): (runs: seq<Run>)
    requires n <= |xs|
    ensures InOrder(runs, n, LastInside(xs, inside, n))
  {
    if n == 0 then []
    else NextRuns(Runs(xs, inside, n - 1), n - 1, LastInside(xs, inside, n - 1), inside(xs[n - 1]))
  }

  /** The runs listed are exactly the maximal runs; the contract of `Runs` says that they are in order. */
  lemma {:induction false} RunsAreMaximal<S>(xs: seq<S>, inside: S -> bool, n: nat, r: Run)
    requires n <= |xs|
    ensures r in Runs(xs, inside, n) <==> IsMaximalRun(xs, inside, n, r)
  {
    hide InOrder, IsMaximalRun;
    if n == 0 {
      NoRuns(xs, inside, r);
    } else {
      var runs := Runs(xs, inside, n - 1);
      RunsAreMaximal(xs, inside, n - 1, r);
      if inside(xs[n - 1]) && LastInside(xs, inside, n - 1) {
        var last := runs[|runs| - 1];
        assert runs == runs[..|runs| - 1] + [last];
        RunsAreMaximal(xs, inside, n - 1, last);
        RunsAreMaximal(xs, inside, n - 1, Run(r.lo, n - 1));
        LastRunGrows(xs, inside, n, r, runs);
      } else {
        OtherRuns(xs, inside, n, r, runs);
      }
    }
  }

  lemma NoRuns<S>(xs: seq<S>, inside: S -> bool, r: Run)
    ensures !IsMaximalRun(xs, inside, 0, r)
    ensures Paths(xs, inside, 0) == []
  {
  }

  lemma NoRunGoesOn<S>(xs: seq<S>, inside: S -> bool, n: nat, r: Run)
    requires 0 < n <= |xs| && !inside(xs[n - 1])
    ensures IsMaximalRun(xs, inside, n, r) <==> IsMaximalRun(xs, inside, n - 1, r)
  {
  }

  lemma RunStarts<S>(xs: seq<S>, inside: S -> bool, n: nat, r: Run)
    requires 0 < n <= |xs| && inside(xs[n - 1]) && !LastInside(xs, inside, n - 1)
    ensures IsMaximalRun(xs, inside, n, r) <==> IsMaximalRun(xs, inside, n - 1, r) || r == Run(n - 1, n)
  {
    if n >= 2 {
      assert !inside(xs[n - 2]);
    }
  }

  lemma OtherRuns<S>(xs: seq<S>, inside: S -> bool, n: nat, r: Run, runs: seq<Run>)
    requires 0 < n <= |xs| && InOrder(runs, n - 1, LastInside(xs, inside, n - 1))
    requires !(inside(xs[n - 1]) && LastInside(xs, inside, n - 1))
    requires r in runs <==> IsMaximalRun(xs, inside, n - 1, r)
    ensures r in NextRuns(runs, n - 1, LastInside(xs, inside, n - 1), inside(xs[n - 1])) <==>
            IsMaximalRun(xs, inside, n, r)
  {
    hide IsMaximalRun;
    if inside(xs[n - 1]) {
      RunStarts(xs, inside, n, r);
    } else {
      NoRunGoesOn(xs, inside, n, r);
    }
  }

  lemma LastRunGrows<S>(xs: seq<S>, inside: S -> bool, n: nat, r: Run, runs: seq<Run>)
    requires 0 < n <= |xs| && InOrder(runs, n - 1, true) && inside(xs[n - 1]) && LastInside(xs, inside, n - 1)
    requires r in runs <==> IsMaximalRun(xs, inside, n - 1, r)
    requires Run(r.lo, n - 1) in runs <==> IsMaximalRun(xs, inside, n - 1, Run(r.lo, n - 1))
    requires IsMaximalRun(xs, inside, n - 1, runs[|runs| - 1])
    ensures r in NextRuns(runs, n - 1, true, true) <==> IsMaximalRun(xs, inside, n, r)
  {
    var m := |runs| - 1;
    var after := NextRuns(runs, n - 1, true, true);
    assert after[m] == Run(runs[m].lo, n);
    if r.hi == n {
      assert r in after <==> r.lo == runs[m].lo;
    } else {
      assert r in after <==> r in runs && r.hi != n - 1;
    }
  }

  // ----- paths -----

  /** The samples of a run, with the sample before it and the sample after it where there are any. */
  function Extended<S>(xs: seq<S>, n: nat, r: Run): seq<S>
    requires r.lo <= r.hi <= n <= |xs|
  {
    xs[if r.lo > 0 then r.lo - 1 else 0..if r.hi < n then r.hi + 1 else n]
  }

  function PathsOf<S>(xs: seq<S>, n: nat, runs: seq<Run>): seq<seq<S>>
    requires n <= |xs| && forall i :: 0 <= i < |runs| ==> runs[i].lo < runs[i].hi <= n
  {
    seq(|runs|, i requires 0 <= i < |runs| => Extended(xs, n, runs[i]))
  }

  function Paths<S>(xs: seq<S>, inside: S -> bool, n: nat): seq<seq<S>>
    requires n <= |xs|
  {
    PathsOf(xs, n, Runs(xs, inside, n))
  }

  lemma ClosedPathsStay<S>(xs: seq<S>, n: nat, runs: seq<Run>)
    requires n < |xs| && InOrder(runs, n, false)
    ensures PathsOf(xs, n + 1, runs) == PathsOf(xs, n, runs)
  {
  }

  lemma PathsOfMore<S>(xs: seq<S>, n: nat, runs: seq<Run>, r: Run)
    requires n <= |xs| && r.lo < r.hi <= n && forall i :: 0 <= i < |runs| ==> runs[i].lo < runs[i].hi <= n
    ensures PathsOf(xs, n, runs + [r]) == PathsOf(xs, n, runs) + [Extended(xs, n, r)]
  {
  }

  lemma LastPathGrows<S>(xs: seq<S>, n: nat, runs: seq<Run>, insideNow: bool)
    requires n < |xs| && InOrder(runs, n, true)
    ensures var m, next := |runs| - 1, NextRuns(runs, n, true, insideNow);
            && PathsOf(xs, n, runs) == PathsOf(xs, n, runs[..m]) + [Extended(xs, n, runs[m])]
            && PathsOf(xs, n + 1, next) == PathsOf(xs, n, runs[..m]) + [Extended(xs, n, runs[m]) + [xs[n]]]
  {
    hide PathsOf, Extended, NextRuns, InOrder;
    var m, next := |runs| - 1, NextRuns(runs, n, true, insideNow);
    LastOfNext(runs, n, insideNow);
    ClosedPathsStay(xs, n, runs[..m]);
    PathsOfMore(xs, n, runs[..m], runs[m]);
    PathsOfMore(xs, n + 1, runs[..m], next[m]);
    LastRunExtends(xs, n, runs[m], next[m]);
  }

  lemma LastOfNext(runs: seq<Run>, n: nat, insideNow: bool)
    requires InOrder(runs, n, true)
    ensures var m, next := |runs| - 1, NextRuns(runs, n, true, insideNow);
            && m >= 0 && |next| == m + 1 && next == runs[..m] + [next[m]] && runs == runs[..m] + [runs[m]]
            && runs[m].lo < runs[m].hi == n && next[m].lo == runs[m].lo && n <= next[m].hi <= n + 1
            && InOrder(runs[..m], n, false)
            && (forall i :: 0 <= i < m ==> runs[..m][i].lo < runs[..m][i].hi <= n)
            && (forall i :: 0 <= i < |runs| ==> runs[i].lo < runs[i].hi <= n)
            && (forall i :: 0 <= i < |next| ==> next[i].lo < next[i].hi <= n + 1)
  {
    var m, next := |runs| - 1, NextRuns(runs, n, true, insideNow);
    assert runs == runs[..m] + [runs[m]];
    assert next == runs[..m] + [if insideNow then Run(runs[m].lo, n + 1) else runs[m]];
  }

  lemma LastRunExtends<S>(xs: seq<S>, n: nat, r: Run, next: Run)
    requires n < |xs| && r.lo < r.hi == n && next.lo == r.lo && n <= next.hi <= n + 1
    ensures Extended(xs, n + 1, next) == Extended(xs, n, r) + [xs[n]]
  {
  }

  lemma PathStarts<S>(xs: seq<S>, n: nat, runs: seq<Run>)
    requires n < |xs| && InOrder(runs, n, false)
    ensures PathsOf(xs, n + 1, NextRuns(runs, n, false, true)) ==
            PathsOf(xs, n, runs) + [if n == 0 then [xs[n]] else [xs[n - 1], xs[n]]]
  {
    ClosedPathsStay(xs, n, runs);
    assert Extended(xs, n + 1, Run(n, n + 1)) == if n == 0 then [xs[n]] else [xs[n - 1], xs[n]];
    var next := NextRuns(runs, n, false, true);
    assert PathsOf(xs, n + 1, next) == PathsOf(xs, n + 1, runs) + [Extended(xs, n + 1, Run(n, n + 1))];
  }

  /** What one more sample does: it ends the last path, starts a new one, or is not shown. */
  lemma PathsStep<S>(xs: seq<S>, inside: S -> bool, n: nat)
    requires n < |xs|
    ensures var before, after := Paths(xs, inside, n), Paths(xs, inside, n + 1);
            if LastInside(xs, inside, n) then
              before != [] && after == before[..|before| - 1] + [before[|before| - 1] + [xs[n]]]
            else if inside(xs[n]) then
              after == before + [if n == 0 then [xs[n]] else [xs[n - 1], xs[n]]]
            else after == before
  {
    var runs := Runs(xs, inside, n);
    if LastInside(xs, inside, n) {
      LastPathGrows(xs, n, runs, inside(xs[n]));
    } else if inside(xs[n]) {
      PathStarts(xs, n, runs);
    } else {
      ClosedPathsStay(xs, n, runs);
    }
  }

  method SplitPaths<S>(xs: seq<S>, inside: S -> bool) returns (paths: seq<seq<S>>)
    ensures paths == Paths(xs, inside, |xs|)
  {
    hide Paths;
    paths := [];
    var currentPath: seq<S>, previous: Option<S> := [], None;
    NoRuns(xs, inside, Run(0, 0));
    for i := 0 to |xs|
      invariant currentPath != [] <==> LastInside(xs, inside, i)
      invariant Paths(xs, inside, i) == if currentPath == [] then paths else paths + [currentPath]
      invariant previous == if i == 0 then None else Some(xs[i - 1])
    {
      PathsStep(xs, inside, i);
      ghost var before := Paths(xs, inside, i);
      if currentPath != [] {
        assert before[..|before| - 1] == paths && before[|before| - 1] == currentPath;
      }
      if inside(xs[i]) {
        if currentPath == [] && previous.Some? {
          currentPath := currentPath + [previous.value];
        }
        currentPath := currentPath + [xs[i]];
        assert !LastInside(xs, inside, i) ==> currentPath == if i == 0 then [xs[i]] else [xs[i - 1], xs[i]];
      } else {
        if currentPath != [] {
          currentPath := currentPath + [xs[i]];
          paths := paths + [currentPath];
          currentPath := [];
        }
      }
      previous := Some(xs[i]);
    }
    if currentPath != [] {
      paths := paths + [currentPath];
    }
  }

  // ----- the list of a service provider -----

  function Flatten<S>(paths: seq<seq<S>>): seq<S> {
    if paths == [] then [] else Flatten(paths[..|paths| - 1]) + paths[|paths| - 1]
  }

  lemma FlattenMore<S>(paths: seq<seq<S>>, path: seq<S>)
    ensures Flatten(paths + [path]) == Flatten(paths) + path
  {
    assert (paths + [path])[..|paths|] == paths;
  }

  lemma FlattenStep<S>(xs: seq<S>, inside: S -> bool, n: nat)
    requires n < |xs|
    ensures Flatten(Paths(xs, inside, n + 1)) ==
            Flatten(Paths(xs, inside, n)) +
            (if LastInside(xs, inside, n) then [xs[n]]
             else if !inside(xs[n]) then []
             else if n == 0 then [xs[n]] else [xs[n - 1], xs[n]])
  {
    hide Paths, Flatten;
    PathsStep(xs, inside, n);
    var before, after := Paths(xs, inside, n), Paths(xs, inside, n + 1);
    if LastInside(xs, inside, n) {
      var m := |before| - 1;
      assert before == before[..m] + [before[m]];
      FlattenMore(before[..m], before[m]);
      FlattenMore(before[..m], before[m] + [xs[n]]);
    } else if inside(xs[n]) {
      FlattenMore(before, if n == 0 then [xs[n]] else [xs[n - 1], xs[n]]);
    }
  }

  /** The samples in the time range. */
  function Relevant<S>(telemetry: seq<S>, at: S -> Time, t0: Time, t1: Time, n: nat): seq<S>
    requires n <= |telemetry|
  {
    if n == 0 then []
    else Relevant(telemetry, at, t0, t1, n - 1) + (if t0 <= at(telemetry[n - 1]) <= t1 then [telemetry[n - 1]] else [])
  }

  lemma {:induction false} RelevantIsPrefix<S>(telemetry: seq<S>, at: S -> Time, t0: Time, t1: Time, n: nat)
    requires n <= |telemetry|
    ensures Relevant(telemetry, at, t0, t1, n) <= Relevant(telemetry, at, t0, t1, |telemetry|)
    decreases |telemetry| - n
  {
    if n < |telemetry| {
      RelevantIsPrefix(telemetry, at, t0, t1, n + 1);
    }
  }

  /** Exactly the samples in the time range, its ends included, are kept, in their order: the i-th sample, when it is
      kept, stands behind those that are kept of the samples before it. */
  lemma {:induction false} RelevantExactly<S>(
    telemetry: seq<S>, at: S -> Time, t0: Time, t1: Time, n: nat, i: nat)
    requires i < n <= |telemetry|
    ensures |Relevant(telemetry, at, t0, t1, 0)| == 0
    ensures var here, next := |Relevant(telemetry, at, t0, t1, i)|, |Relevant(telemetry, at, t0, t1, i + 1)|;
            if at(telemetry[i]) < t0 || t1 < at(telemetry[i]) then next == here
            else next == here + 1 <= |Relevant(telemetry, at, t0, t1, n)|
                 && Relevant(telemetry, at, t0, t1, n)[here] == telemetry[i]
  {
    if i < n - 1 {
      RelevantExactly(telemetry, at, t0, t1, n - 1, i);
      assert Relevant(telemetry, at, t0, t1, n - 1) <= Relevant(telemetry, at, t0, t1, n);
    }
  }

  /** The states selected are the paths into which the samples in the time range split, one after the other. */
  method SelectRelevantStates<S>(telemetry: seq<S>, at: S -> Time, inside: S -> bool, t0: Time, t1: Time)
    returns (recentStates: seq<S>)
    ensures var xs := Relevant(telemetry, at, t0, t1, |telemetry|);
            recentStates == Flatten(Paths(xs, inside, |xs|))
  {
    hide Paths, Flatten;
    ghost var xs := Relevant(telemetry, at, t0, t1, |telemetry|);
    recentStates := [];
    var previouslyOutside, previouslyInside, previous: Option<S> := false, false, None;
    ghost var n := 0;
    NothingShown(xs, inside);
    for i := 0 to |telemetry|
      invariant n <= |xs| && Relevant(telemetry, at, t0, t1, i) == xs[..n]
      invariant recentStates == Flatten(Paths(xs, inside, n))
      invariant previouslyInside == LastInside(xs, inside, n)
      invariant previouslyOutside == (n > 0 && !inside(xs[n - 1]))
      invariant previous == if n == 0 then None else Some(xs[n - 1])
    {
      var state := telemetry[i];
      if at(state) < t0 || at(state) > t1 {
        continue;
      }
      RelevantIsPrefix(telemetry, at, t0, t1, i + 1);
      assert n < |xs| && xs[n] == state && xs[..n + 1] == xs[..n] + [state];
      FlattenStep(xs, inside, n);
      if inside(state) {
        if previouslyOutside {
          recentStates := recentStates + [previous.value];
        }
        recentStates := recentStates + [state];
        previouslyInside := true;
        previouslyOutside := false;
      } else {
        if previouslyInside {
          recentStates := recentStates + [state];
        }
        previouslyOutside := true;
        previouslyInside := false;
      }
      previous := Some(state);
      n := n + 1;
    }
    assert xs[..n] == xs;
  }

  lemma NothingShown<S>(xs: seq<S>, inside: S -> bool)
    ensures Flatten(Paths(xs, inside, 0)) == []
  {
    NoRuns(xs, inside, Run(0, 0));
  }

  // ----- how often a sample is shown -----

  function Bit(b: bool): nat {
    if b then 1 else 0
  }

  /** A sample inside the view is shown once, one outside once for each neighbour inside, of the first `n`. */
  function TimesShown<S>(xs: seq<S>, inside: S -> bool, n: nat, k: nat): nat
    requires k < n <= |xs|
  {
    if inside(xs[k]) then 1
    else Bit(k > 0 && inside(xs[k - 1])) + Bit(k + 1 < n && inside(xs[k + 1]))
  }

  /** How often the value `y` should be shown on account of the first `m` of `n` samples. */
  function Shown<S(==)>(xs: seq<S>, inside: S -> bool, n: nat, y: S, m: nat): nat
    requires m <= n <= |xs|
  {
    if m == 0 then 0
    else Shown(xs, inside, n, y, m - 1) + (if xs[m - 1] == y then TimesShown(xs, inside, n, m - 1) else 0)
  }

  lemma {:induction false} ShownEarlier<S>(xs: seq<S>, inside: S -> bool, n: nat, y: S, m: nat)
    requires m < n < |xs|
    ensures Shown(xs, inside, n + 1, y, m) == Shown(xs, inside, n, y, m)
  {
    if m > 0 {
      ShownEarlier(xs, inside, n, y, m - 1);
    }
  }

  /** Every value is in the list exactly as often as it should be shown. */
  lemma {:induction false} EachIsShown<S>(xs: seq<S>, inside: S -> bool, n: nat, y: S)
    requires n <= |xs|
    ensures multiset(Flatten(Paths(xs, inside, n)))[y] == Shown(xs, inside, n, y, n)
  {
    hide Paths, Flatten;
    if n == 0 {
      NothingShown(xs, inside);
    } else {
      var k := n - 1;
      EachIsShown(xs, inside, k, y);
      FlattenStep(xs, inside, k);
      if k > 0 {
        ShownEarlier(xs, inside, k, y, k - 1);
      }
    }
  }
}
