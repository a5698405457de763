/** Peak use of the parking places of a vertiport, by a sweep over the starts and ends of the busy periods. */
module VertiportParking {
  import opened Common
  import opened VertiportPeriods

  datatype Change = Change(time: Time, change: int)

  /** The start and the end of each of the first `n` periods that meet the window. */
  function Changes(busy: seq<TimePeriod>, n: nat, window: TimePeriod): seq<Change>
    requires n <= |busy|
  {
    if n == 0 then [] else
    Changes(busy, n - 1, window)
    + if window.IntersectsWith(busy[n - 1]) then [Change(busy[n - 1].from, 1), Change(busy[n - 1].to, -1)] else []
  }

  predicate Sorted(cs: seq<Change>) {
    forall i, j :: 0 <= i < j < |cs| ==> cs[i].time <= cs[j].time
  }

  function Sum(cs: seq<Change>, n: nat): int
    requires n <= |cs|
  {
    if n == 0 then 0 else Sum(cs, n - 1) + cs[n - 1].change
  }

  /** The highest of the sums of the first changes. */
  function Highest(cs: seq<Change>, n: nat): int
    requires n <= |cs|
  {
    if n == 0 then 0 else
    if Sum(cs, n) > Highest(cs, n - 1) then Sum(cs, n) else Highest(cs, n - 1)
  }

  /** Sorts by time only: changes at the same time end up in an order the caller knows nothing about. */
  method SortByTime(changes: seq<Change>) returns (sorted: seq<Change>)
    ensures Sorted(sorted) && multiset(sorted) == multiset(changes)
  {
    hide Sorted;
    sorted := [];
    assert Sorted(sorted) by { NothingIsSorted(); }
    for i := 0 to |changes|
      invariant Sorted(sorted) && multiset(sorted) == multiset(changes[..i])
    {
      assert changes[..i + 1] == changes[..i] + [changes[i]];
      sorted := Insert(sorted, changes[i]);
    }
    assert changes[..|changes|] == changes;
  }

  lemma NothingIsSorted()
    ensures Sorted([])
  {
  }

  method Insert(cs: seq<Change>, c: Change) returns (longer: seq<Change>)
    requires Sorted(cs)
    ensures Sorted(longer) && multiset(longer) == multiset(cs) + multiset{c}
  {
    var k := 0;
    while k < |cs| && cs[k].time < c.time
      invariant 0 <= k <= |cs| && forall j :: 0 <= j < k ==> cs[j].time < c.time
    {
      k := k + 1;
    }
    Inserted(cs, k, c);
    longer := cs[..k] + [c] + cs[k..];
  }

  lemma Inserted(cs: seq<Change>, k: nat, c: Change)
    requires Sorted(cs) && k <= |cs|
    requires forall j :: 0 <= j < k ==> cs[j].time < c.time
    requires k < |cs| ==> c.time <= cs[k].time
    ensures Sorted(cs[..k] + [c] + cs[k..])
    ensures multiset(cs[..k] + [c] + cs[k..]) == multiset(cs) + multiset{c}
  {
    InsertedOnce(cs, k, c);
    var longer := cs[..k] + [c] + cs[k..];
    assert forall i :: 0 <= i < |longer| ==> longer[i] == if i < k then cs[i] else if i == k then c else cs[i - 1];
  }

  lemma InsertedOnce(cs: seq<Change>, k: nat, c: Change)
    requires k <= |cs|
    ensures multiset(cs[..k] + [c] + cs[k..]) == multiset(cs) + multiset{c}
  {
    assert cs == cs[..k] + cs[k..];
  }

  method ComputeNumberOfUsedParkingPlaces(
    constraints: seq<TimePeriod>, operationalIntents: seq<TimePeriod>, timeStart: Time, timeEnd: Time) returns (r: int)
    ensures var busy := constraints + operationalIntents;
            exists sorted :: Sorted(sorted)
                             && multiset(sorted) == multiset(Changes(busy, |busy|, TimePeriod(timeStart, timeEnd)))
                             && r == ToInt32(Highest(sorted, |sorted|))
    ensures var busy, window := constraints + operationalIntents, TimePeriod(timeStart, timeEnd);
            Forward(busy) && timeStart < timeEnd ==>
              exists peak :: Brackets(busy, window, peak) && r == ToInt32(peak)
  {
    var mainTimePeriod := TimePeriod(timeStart, timeEnd);
    var busyTimePeriods: seq<TimePeriod> := [];
    for i := 0 to |constraints|
      invariant busyTimePeriods == constraints[..i]
    {
      busyTimePeriods := busyTimePeriods + [constraints[i]];
    }
    for i := 0 to |operationalIntents|
      invariant busyTimePeriods == constraints + operationalIntents[..i]
    {
      busyTimePeriods := busyTimePeriods + [operationalIntents[i]];
    }
    assert busyTimePeriods == constraints + operationalIntents;
    var changes: seq<Change> := [];
    for i := 0 to |busyTimePeriods|
      invariant changes == Changes(busyTimePeriods, i, mainTimePeriod)
    {
      var tp := busyTimePeriods[i];
      if mainTimePeriod.IntersectsWith(tp) {
        changes := changes + [Change(tp.from, 1), Change(tp.to, -1)];
      }
    }
    changes := SortByTime(changes);
    var numberOfUsedPlaces := 0;
    var maxNumberOfUsedPlaces := 0;
    for i := 0 to |changes|
      invariant numberOfUsedPlaces == Sum(changes, i) && maxNumberOfUsedPlaces == Highest(changes, i)
    {
      numberOfUsedPlaces := numberOfUsedPlaces + changes[i].change;
      if numberOfUsedPlaces > maxNumberOfUsedPlaces {
        maxNumberOfUsedPlaces := numberOfUsedPlaces;
      }
    }
    if Forward(busyTimePeriods) && timeStart < timeEnd {
      SweepIsBracketed(busyTimePeriods, mainTimePeriod, changes);
      assert Brackets(busyTimePeriods, mainTimePeriod, maxNumberOfUsedPlaces);
    }
    return ToInt32(maxNumberOfUsedPlaces);
  }

  // ----- what the sweep measures -----

  /** The period covers `t`; a closed one covers its end too. */
  predicate Covers(p: TimePeriod, t: Time, closed: bool) {
    p.from <= t && (t < p.to || (closed && t == p.to))
  }

  /** How many of the first `n` periods cover `t`. */
  function Count(busy: seq<TimePeriod>, n: nat, t: Time, closed: bool): nat
    requires n <= |busy|
  {
    if n == 0 then 0 else Count(busy, n - 1, t, closed) + if Covers(busy[n - 1], t, closed) then 1 else 0
  }

  /** The same, of the periods that meet the window. */
  function Meeting(busy: seq<TimePeriod>, n: nat, window: TimePeriod, t: Time, closed: bool): nat
    requires n <= |busy|
  {
    if n == 0 then 0 else
    Meeting(busy, n - 1, window, t, closed)
    + if window.IntersectsWith(busy[n - 1]) && Covers(busy[n - 1], t, closed) then 1 else 0
  }

  /** What one change contributes to the number of periods covering `t`. */
  function Weight(c: Change, t: Time, closed: bool): int {
    if c.time < t || (c.time == t && (c.change > 0 || !closed)) then c.change else 0
  }

  function Weights(cs: seq<Change>, n: nat, t: Time, closed: bool): int
    requires n <= |cs|
  {
    if n == 0 then 0 else Weights(cs, n - 1, t, closed) + Weight(cs[n - 1], t, closed)
  }

  lemma {:induction false} WeightsConcat(a: seq<Change>, b: seq<Change>, n: nat, t: Time, closed: bool)
    requires n <= |b|
    ensures Weights(a + b, |a| + n, t, closed) == Weights(a, |a|, t, closed) + Weights(b, n, t, closed)
  {
    if n == 0 {
      WeightsPrefix(a, b, |a|, t, closed);
    } else {
      WeightsConcat(a, b, n - 1, t, closed);
    }
  }

  lemma {:induction false} WeightsPrefix(a: seq<Change>, b: seq<Change>, n: nat, t: Time, closed: bool)
    requires n <= |a|
    ensures Weights(a + b, n, t, closed) == Weights(a, n, t, closed)
  {
    if n > 0 { WeightsPrefix(a, b, n - 1, t, closed); }
  }

  lemma WithoutOne(a: seq<Change>, front: seq<Change>, back: seq<Change>, c: Change)
    requires multiset(a + [c]) == multiset(front + ([c] + back))
    ensures multiset(a) == multiset(front + back)
  {
    assert multiset(a) == multiset(a + [c]) - multiset{c};
    assert multiset(front + back) == multiset(front + ([c] + back)) - multiset{c};
  }

  lemma WeightsWithout(front: seq<Change>, back: seq<Change>, c: Change, t: Time, closed: bool)
    ensures var all := front + ([c] + back);
            Weights(all, |all|, t, closed) == Weights(front + back, |front + back|, t, closed) + Weight(c, t, closed)
  {
    WeightsConcat(front, [c] + back, 1 + |back|, t, closed);
    WeightsConcat([c], back, |back|, t, closed);
    WeightsConcat(front, back, |back|, t, closed);
    assert Weights([c], 0, t, closed) == 0;
    assert Weights([c], 1, t, closed) == Weight(c, t, closed);
  }

  /** The weights add up to the same in every order of the changes. */
  lemma {:induction false} WeightsPermute(a: seq<Change>, b: seq<Change>, t: Time, closed: bool)
    requires multiset(a) == multiset(b)
    ensures Weights(a, |a|, t, closed) == Weights(b, |b|, t, closed)
    decreases |a|
  {
    if a == [] {
      assert |multiset(b)| == 0;
    } else {
      var n := |a| - 1;
      var init, c := a[..n], a[n];
      assert a == init + [c];
      var front, back := Around(a, b, c);
      WithoutOne(init, front, back, c);
      WeightsPermute(init, front + back, t, closed);
      WeightsPrefix(init, [c], n, t, closed);
      WeightsWithout(front, back, c, t, closed);
    }
  }

  lemma Around(a: seq<Change>, b: seq<Change>, c: Change) returns (front: seq<Change>, back: seq<Change>)
    requires multiset(a) == multiset(b) && c in a
    ensures b == front + ([c] + back)
  {
    assert c in multiset(b);
    var k :| 0 <= k < |b| && b[k] == c;
    front, back := b[..k], b[k + 1..];
  }

  lemma {:induction false} WeightsCount(busy: seq<TimePeriod>, n: nat, window: TimePeriod, t: Time, closed: bool)
    requires n <= |busy| && Forward(busy)
    ensures var cs := Changes(busy, n, window);
            Weights(cs, |cs|, t, closed) == Meeting(busy, n, window, t, closed)
  {
    if n > 0 {
      WeightsCount(busy, n - 1, window, t, closed);
      var p := busy[n - 1];
      if window.IntersectsWith(p) {
        var pair := [Change(p.from, 1), Change(p.to, -1)];
        WeightsConcat(Changes(busy, n - 1, window), pair, 2, t, closed);
        assert Weights(pair, 0, t, closed) == 0;
        assert Weights(pair, 1, t, closed) == Weight(pair[0], t, closed);
        assert Weights(pair, 2, t, closed) == Weight(pair[0], t, closed) + Weight(pair[1], t, closed);
      } else {
        assert Changes(busy, n, window) == Changes(busy, n - 1, window);
      }
    }
  }

  /** The sum of the changes up to and including time `t` is the sum of their weights there. */
  lemma {:induction false} SumReaches(cs: seq<Change>, n: nat, t: Time)
    requires Sorted(cs) && n <= |cs|
    ensures exists k :: 0 <= k <= n && Sum(cs, k) == Weights(cs, n, t, false)
  {
    if n > 0 && cs[n - 1].time > t {
      SumReaches(cs, n - 1, t);
    } else {
      SumIsWeights(cs, n, t);
    }
  }

  lemma {:induction false} SumIsWeights(cs: seq<Change>, n: nat, t: Time)
    requires n <= |cs| && forall i :: 0 <= i < n ==> cs[i].time <= t
    ensures Sum(cs, n) == Weights(cs, n, t, false)
  {
    if n > 0 { SumIsWeights(cs, n - 1, t); }
  }

  /** No sum of first changes exceeds the closed weights at the time of the last of them. */
  lemma {:induction false} SumIsBounded(cs: seq<Change>, k: nat, n: nat)
    requires Sorted(cs) && 0 < k <= |cs| && n <= |cs|
    requires forall i :: 0 <= i < |cs| ==> cs[i].change == 1 || cs[i].change == -1
    ensures Sum(cs, if n < k then n else k) <= Weights(cs, n, cs[k - 1].time, true)
  {
    if n > 0 {
      SumIsBounded(cs, k, n - 1);
      assert n - 1 < k - 1 ==> cs[n - 1].time <= cs[k - 1].time;
      assert n - 1 > k - 1 ==> cs[k - 1].time <= cs[n - 1].time;
    }
  }

  lemma {:induction false} HighestIsSum(cs: seq<Change>, n: nat)
    requires n <= |cs|
    ensures forall k :: 0 <= k <= n ==> Sum(cs, k) <= Highest(cs, n)
    ensures Highest(cs, n) == 0 || exists k :: 0 < k <= n && Sum(cs, k) == Highest(cs, n)
    ensures Highest(cs, n) >= 0
  {
    if n > 0 {
      HighestIsSum(cs, n - 1);
      assert Highest(cs, n) == Sum(cs, n) || Highest(cs, n) == Highest(cs, n - 1);
    }
  }

  lemma {:induction false} ChangesAreUnits(busy: seq<TimePeriod>, n: nat, window: TimePeriod)
    requires n <= |busy|
    ensures forall c :: c in Changes(busy, n, window) ==> c.change == 1 || c.change == -1
  {
    if n > 0 { ChangesAreUnits(busy, n - 1, window); }
  }

  // ----- the bracket -----

  /** An instant of the window nearest to `t`. */
  function Clamp(t: Time, window: TimePeriod): Time {
    if t < window.from then window.from else if t >= window.to then window.to - 1 else t
  }

  /** Whatever meets the window and covers `t` covers the instant of the window nearest to `t`: intervals that meet
      pairwise have an instant in common. */
  lemma {:induction false} PeakIsInWindow(busy: seq<TimePeriod>, n: nat, window: TimePeriod, t: Time, closed: bool)
    requires n <= |busy| && window.from < window.to
    ensures Meeting(busy, n, window, t, closed) <= Meeting(busy, n, window, Clamp(t, window), closed)
    ensures Meeting(busy, n, window, t, closed) <= Count(busy, n, Clamp(t, window), closed)
    ensures window.Holds(t) ==> Count(busy, n, t, false) == Meeting(busy, n, window, t, false)
  {
    if n > 0 { PeakIsInWindow(busy, n - 1, window, t, closed); }
  }

  predicate Active(busy: seq<TimePeriod>, i: nat, window: TimePeriod, t: Time)
    requires i < |busy|
  {
    window.IntersectsWith(busy[i]) && Covers(busy[i], t, true)
  }

  /** The latest start among the periods active at `t`, or something earlier than `t` when there is none. */
  ghost function LatestStart(busy: seq<TimePeriod>, n: nat, window: TimePeriod, t: Time): (latest: Time)
    requires n <= |busy|
    ensures latest <= t
    ensures forall i :: 0 <= i < n && Active(busy, i, window, t) ==> busy[i].from <= latest
    ensures (exists i :: 0 <= i < n && Active(busy, i, window, t) && busy[i].from == latest)
            || forall i :: 0 <= i < n ==> !Active(busy, i, window, t)
  {
    if n == 0 then t - 1 else
    var before := LatestStart(busy, n - 1, window, t);
    if !Active(busy, n - 1, window, t) then before
    else if (exists i :: 0 <= i < n - 1 && Active(busy, i, window, t)) && before > busy[n - 1].from then before
    else busy[n - 1].from
  }

  lemma {:induction false} ActiveGoOn(busy: seq<TimePeriod>, n: nat, window: TimePeriod, t: Time, at: Time)
    requires n <= |busy| && at <= t
    requires forall i :: 0 <= i < n && Active(busy, i, window, t) ==> busy[i].from <= at && busy[i].to != at
    ensures Meeting(busy, n, window, t, true) <= Meeting(busy, n, window, at, false)
  {
    if n > 0 {
      ActiveGoOn(busy, n - 1, window, t, at);
      assert Active(busy, n - 1, window, t) ==> Covers(busy[n - 1], at, false);
    }
  }

  /** A time at which the periods that meet the window number at least the highest sum. */
  lemma ReachedAt(busy: seq<TimePeriod>, window: TimePeriod, sorted: seq<Change>) returns (t: Time)
    requires Forward(busy) && Sorted(sorted) && multiset(sorted) == multiset(Changes(busy, |busy|, window))
    ensures Highest(sorted, |sorted|) <= Meeting(busy, |busy|, window, t, true)
  {
    HighestIsSum(sorted, |sorted|);
    t := 0;
    if Highest(sorted, |sorted|) > 0 {
      var k :| 0 < k <= |sorted| && Sum(sorted, k) == Highest(sorted, |sorted|);
      var n, cs := |busy|, Changes(busy, |busy|, window);
      ChangesAreUnits(busy, n, window);
      forall i | 0 <= i < |sorted| ensures sorted[i].change == 1 || sorted[i].change == -1 {
        assert sorted[i] in multiset(sorted);
        assert sorted[i] in cs;
      }
      SumIsBounded(sorted, k, |sorted|);
      t := sorted[k - 1].time;
      WeightsPermute(sorted, cs, t, true);
      WeightsCount(busy, n, window, t, true);
    }
  }

  lemma OpenIsReached(busy: seq<TimePeriod>, window: TimePeriod, sorted: seq<Change>, t: Time)
    requires Forward(busy) && window.Holds(t)
    requires Sorted(sorted) && multiset(sorted) == multiset(Changes(busy, |busy|, window))
    ensures Count(busy, |busy|, t, false) <= Highest(sorted, |sorted|)
  {
    HighestIsSum(sorted, |sorted|);
    SumReaches(sorted, |sorted|, t);
    WeightsPermute(sorted, Changes(busy, |busy|, window), t, false);
    WeightsCount(busy, |busy|, window, t, false);
    PeakIsInWindow(busy, |busy|, window, t, false);
  }

  /** At least the number of places in use at any instant of the window, with ends left out, and at most the number
      in use at some instant of it by the periods that meet the window, with ends included. */
  ghost predicate Brackets(busy: seq<TimePeriod>, window: TimePeriod, peak: int) {
    && (forall t :: window.Holds(t) ==> Count(busy, |busy|, t, false) <= peak)
    && (exists t :: window.Holds(t) && peak <= Meeting(busy, |busy|, window, t, true))
  }

  /** For busy periods that do not end before they start and a nonempty window, the highest sum in any sorted order
      of the changes brackets the use of the window. */
  lemma SweepIsBracketed(busy: seq<TimePeriod>, window: TimePeriod, sorted: seq<Change>)
    requires Forward(busy) && window.from < window.to
    requires Sorted(sorted) && multiset(sorted) == multiset(Changes(busy, |busy|, window))
    ensures Brackets(busy, window, Highest(sorted, |sorted|))
  {
    var n := |busy|;
    forall t | window.Holds(t) ensures Count(busy, n, t, false) <= Highest(sorted, |sorted|) {
      OpenIsReached(busy, window, sorted, t);
    }
    var t := ReachedAt(busy, window, sorted);
    PeakIsInWindow(busy, n, window, t, true);
    assert window.Holds(Clamp(t, window));
  }

  /** No period that meets the window starts when one of them ends. */
  ghost predicate NoTouching(busy: seq<TimePeriod>, window: TimePeriod) {
    forall i, j :: 0 <= i < |busy| && 0 <= j < |busy|
                   && window.IntersectsWith(busy[i]) && window.IntersectsWith(busy[j])
                   ==> busy[i].from != busy[j].to
  }

  lemma OpenInWindow(busy: seq<TimePeriod>, window: TimePeriod, t: Time) returns (at: Time)
    requires window.from < window.to && NoTouching(busy, window)
    ensures window.Holds(at) && Meeting(busy, |busy|, window, t, true) <= Count(busy, |busy|, at, false)
  {
    var latest := LatestStart(busy, |busy|, window, t);
    ActiveGoOn(busy, |busy|, window, t, latest);
    PeakIsInWindow(busy, |busy|, window, latest, false);
    at := Clamp(latest, window);
  }

  /** Then the result is exactly the peak number of places in use, and the peak is reached inside the window. */
  lemma SweepIsExact(busy: seq<TimePeriod>, window: TimePeriod, sorted: seq<Change>)
    requires Forward(busy) && window.from < window.to && NoTouching(busy, window)
    requires Sorted(sorted) && multiset(sorted) == multiset(Changes(busy, |busy|, window))
    ensures forall t :: window.Holds(t) ==> Count(busy, |busy|, t, false) <= Highest(sorted, |sorted|)
    ensures exists t :: window.Holds(t) && Count(busy, |busy|, t, false) == Highest(sorted, |sorted|)
  {
    SweepIsBracketed(busy, window, sorted);
    var t := ReachedAt(busy, window, sorted);
    var at := OpenInWindow(busy, window, t);
  }

  // ----- what the order of simultaneous changes can do -----

  /** Sorted by time, and at one time the starts first (`closed`) or the ends first. */
  predicate Arranged(cs: seq<Change>, closed: bool) {
    forall i, j :: 0 <= i < j < |cs| ==> Precedes(cs[i], cs[j], closed)
  }

  predicate Precedes(c: Change, d: Change, closed: bool) {
    c.time < d.time || (c.time == d.time && if closed then c.change >= d.change else c.change <= d.change)
  }

  /** The highest number of periods that meet the window and cover one instant. */
  ghost predicate IsPeak(busy: seq<TimePeriod>, window: TimePeriod, closed: bool, peak: int) {
    && (forall t :: Meeting(busy, |busy|, window, t, closed) <= peak)
    && (exists t :: Meeting(busy, |busy|, window, t, closed) == peak)
  }

  /** One of the orders that the sort may leave the changes in. */
  ghost predicate IsSweepOf(sorted: seq<Change>, busy: seq<TimePeriod>, window: TimePeriod) {
    Sorted(sorted) && multiset(sorted) == multiset(Changes(busy, |busy|, window))
  }

  lemma {:induction false} Arrangement(cs: seq<Change>, closed: bool) returns (sorted: seq<Change>)
    ensures Arranged(sorted, closed) && Sorted(sorted) && multiset(sorted) == multiset(cs)
  {
    if cs == [] {
      sorted := [];
    } else {
      var n := |cs| - 1;
      assert cs == cs[..n] + [cs[n]];
      var before := Arrangement(cs[..n], closed);
      sorted := Placed(before, cs[n], closed);
    }
    assert forall i, j :: 0 <= i < j < |sorted| ==> Precedes(sorted[i], sorted[j], closed);
  }

  lemma {:induction false} Placed(cs: seq<Change>, c: Change, closed: bool) returns (longer: seq<Change>)
    requires Arranged(cs, closed)
    ensures Arranged(longer, closed) && multiset(longer) == multiset(cs) + multiset{c}
  {
    if cs == [] || Precedes(cs[|cs| - 1], c, closed) {
      longer := cs + [c];
      forall i | 0 <= i < |cs| ensures Precedes(cs[i], c, closed) {
        assert i == |cs| - 1 || Precedes(cs[i], cs[|cs| - 1], closed);
      }
    } else {
      var n := |cs| - 1;
      assert cs == cs[..n] + [cs[n]];
      var before := Placed(cs[..n], c, closed);
      longer := before + [cs[n]];
      assert Precedes(c, cs[n], closed);
      forall i | 0 <= i < |before| ensures Precedes(before[i], cs[n], closed) {
        assert before[i] in multiset(before);
        assert before[i] in cs[..n] || before[i] == c;
      }
    }
  }

  /** With starts first the sums reach every closed number. */
  lemma {:induction false} SumReachesClosed(cs: seq<Change>, n: nat, t: Time)
    requires Arranged(cs, true) && n <= |cs| && Units(cs)
    ensures exists k :: 0 <= k <= n && Sum(cs, k) == Weights(cs, n, t, true)
  {
    if n > 0 && (cs[n - 1].time > t || (cs[n - 1].time == t && cs[n - 1].change < 0)) {
      SumReachesClosed(cs, n - 1, t);
    } else {
      SumIsClosedWeights(cs, n, t);
    }
  }

  ghost predicate Units(cs: seq<Change>) {
    forall i :: 0 <= i < |cs| ==> cs[i].change == 1 || cs[i].change == -1
  }

  lemma {:induction false} SumIsClosedWeights(cs: seq<Change>, n: nat, t: Time)
    requires n <= |cs| && Units(cs)
    requires forall i :: 0 <= i < n ==> cs[i].time < t || (cs[i].time == t && cs[i].change > 0)
    ensures Sum(cs, n) == Weights(cs, n, t, true)
  {
    if n > 0 { SumIsClosedWeights(cs, n - 1, t); }
  }

  /** With ends first no sum exceeds the half-open numbers. */
  lemma {:induction false} SumIsBoundedOpen(cs: seq<Change>, k: nat, n: nat)
    requires Arranged(cs, false) && Units(cs) && 0 < k <= |cs| && n <= |cs|
    ensures var t := if cs[k - 1].change > 0 then cs[k - 1].time else cs[k - 1].time - 1;
            Sum(cs, if n < k then n else k) <= Weights(cs, n, t, false)
  {
    if n > 0 {
      SumIsBoundedOpen(cs, k, n - 1);
      assert n - 1 < k - 1 ==> Precedes(cs[n - 1], cs[k - 1], false);
      assert n - 1 > k - 1 ==> Precedes(cs[k - 1], cs[n - 1], false);
    }
  }

  lemma SweepIsUnits(sorted: seq<Change>, busy: seq<TimePeriod>, window: TimePeriod)
    requires IsSweepOf(sorted, busy, window)
    ensures Units(sorted)
  {
    var cs := Changes(busy, |busy|, window);
    ChangesAreUnits(busy, |busy|, window);
    forall i | 0 <= i < |sorted| ensures sorted[i].change == 1 || sorted[i].change == -1 {
      assert sorted[i] in multiset(sorted);
      assert sorted[i] in cs;
    }
  }

  lemma WeightsMeet(sorted: seq<Change>, busy: seq<TimePeriod>, window: TimePeriod, t: Time, closed: bool)
    requires Forward(busy) && IsSweepOf(sorted, busy, window)
    ensures Weights(sorted, |sorted|, t, closed) == Meeting(busy, |busy|, window, t, closed)
  {
    WeightsPermute(sorted, Changes(busy, |busy|, window), t, closed);
    WeightsCount(busy, |busy|, window, t, closed);
  }

  /** Every order gives at least the half-open peak and at most the closed one. */
  lemma SweepIsBetweenPeaks(sorted: seq<Change>, busy: seq<TimePeriod>, window: TimePeriod, open: int, closed: int)
    requires Forward(busy) && IsSweepOf(sorted, busy, window)
    requires IsPeak(busy, window, false, open) && IsPeak(busy, window, true, closed)
    ensures open <= Highest(sorted, |sorted|) <= closed
  {
    HighestIsSum(sorted, |sorted|);
    var t :| Meeting(busy, |busy|, window, t, false) == open;
    SumReaches(sorted, |sorted|, t);
    WeightsMeet(sorted, busy, window, t, false);
    var at := ReachedAt(busy, window, sorted);
  }

  /** Ends first gives the half-open peak. */
  lemma EndsFirst(sorted: seq<Change>, busy: seq<TimePeriod>, window: TimePeriod)
    requires Forward(busy) && IsSweepOf(sorted, busy, window) && Arranged(sorted, false)
    ensures IsPeak(busy, window, false, Highest(sorted, |sorted|))
  {
    var highest := Highest(sorted, |sorted|);
    HighestIsSum(sorted, |sorted|);
    SweepIsUnits(sorted, busy, window);
    forall t ensures Meeting(busy, |busy|, window, t, false) <= highest {
      SumReaches(sorted, |sorted|, t);
      WeightsMeet(sorted, busy, window, t, false);
    }
    if highest == 0 {
      assert Meeting(busy, |busy|, window, 0, false) == 0;
    } else {
      var k :| 0 < k <= |sorted| && Sum(sorted, k) == highest;
      SumIsBoundedOpen(sorted, k, |sorted|);
      var t := if sorted[k - 1].change > 0 then sorted[k - 1].time else sorted[k - 1].time - 1;
      WeightsMeet(sorted, busy, window, t, false);
      assert Meeting(busy, |busy|, window, t, false) == highest;
    }
  }

  /** Starts first gives the closed peak. */
  lemma StartsFirst(sorted: seq<Change>, busy: seq<TimePeriod>, window: TimePeriod)
    requires Forward(busy) && IsSweepOf(sorted, busy, window) && Arranged(sorted, true)
    ensures IsPeak(busy, window, true, Highest(sorted, |sorted|))
  {
    var highest := Highest(sorted, |sorted|);
    HighestIsSum(sorted, |sorted|);
    SweepIsUnits(sorted, busy, window);
    forall t ensures Meeting(busy, |busy|, window, t, true) <= highest {
      SumReachesClosed(sorted, |sorted|, t);
      WeightsMeet(sorted, busy, window, t, true);
    }
    var at := ReachedAt(busy, window, sorted);
    assert Meeting(busy, |busy|, window, at, true) == highest;
  }

  ghost predicate OrderIsIrrelevant(busy: seq<TimePeriod>, window: TimePeriod) {
    forall a, b :: IsSweepOf(a, busy, window) && IsSweepOf(b, busy, window) ==> Highest(a, |a|) == Highest(b, |b|)
  }

  /** Both peaks are results of the sweep, all results lie between them, and so the result does not depend on the order
      of simultaneous changes exactly when the two are equal: as many places are in use at some instant without the
      periods that end just then. */
  lemma ResultIsDetermined(busy: seq<TimePeriod>, window: TimePeriod, open: int, closed: int)
    requires Forward(busy) && IsPeak(busy, window, false, open) && IsPeak(busy, window, true, closed)
    ensures open <= closed
    ensures exists sorted :: IsSweepOf(sorted, busy, window) && Highest(sorted, |sorted|) == open
    ensures exists sorted :: IsSweepOf(sorted, busy, window) && Highest(sorted, |sorted|) == closed
    ensures OrderIsIrrelevant(busy, window) <==> open == closed
  {
    var changes := Changes(busy, |busy|, window);
    var a := Arrangement(changes, false);
    var b := Arrangement(changes, true);
    EndsFirst(a, busy, window);
    StartsFirst(b, busy, window);
    SweepIsBetweenPeaks(b, busy, window, open, closed);
    hide Changes, Sorted;
    assert Highest(a, |a|) == open && Highest(b, |b|) == closed;
    if open == closed {
      forall c, d | IsSweepOf(c, busy, window) && IsSweepOf(d, busy, window)
        ensures Highest(c, |c|) == Highest(d, |d|)
      {
        SweepIsBetweenPeaks(c, busy, window, open, closed);
        SweepIsBetweenPeaks(d, busy, window, open, closed);
      }
    }
  }

  /** There always are such peaks, and they are reached inside a nonempty window. */
  lemma PeaksExist(busy: seq<TimePeriod>, window: TimePeriod, closed: bool) returns (peak: int, t: Time)
    requires Forward(busy) && window.from < window.to
    ensures IsPeak(busy, window, closed, peak)
    ensures window.Holds(t) && Meeting(busy, |busy|, window, t, closed) == peak
  {
    var sorted := Arrangement(Changes(busy, |busy|, window), closed);
    peak := Highest(sorted, |sorted|);
    if closed {
      StartsFirst(sorted, busy, window);
    } else {
      EndsFirst(sorted, busy, window);
    }
    var at :| Meeting(busy, |busy|, window, at, closed) == peak;
    PeakIsInWindow(busy, |busy|, window, at, closed);
    t := Clamp(at, window);
  }

  const handOver: seq<TimePeriod> := [TimePeriod(0, 5), TimePeriod(5, 9)]
  const endFirst: seq<Change> := [Change(0, 1)] + [Change(5, -1)] + [Change(5, 1)] + [Change(9, -1)]
  const startFirst: seq<Change> := [Change(0, 1)] + [Change(5, 1)] + [Change(5, -1)] + [Change(9, -1)]

  lemma HandOverPeaks()
    ensures Highest(endFirst, 4) == 1 && Highest(startFirst, 4) == 2
  {
    assert Sum(endFirst, 1) == 1 && Sum(endFirst, 2) == 0 && Sum(endFirst, 3) == 1 && Sum(endFirst, 4) == 0;
    assert Sum(startFirst, 1) == 1 && Sum(startFirst, 2) == 2 && Sum(startFirst, 3) == 1 && Sum(startFirst, 4) == 0;
    assert Highest(endFirst, 1) == 1 && Highest(endFirst, 2) == 1 && Highest(endFirst, 3) == 1;
    assert Highest(startFirst, 1) == 1 && Highest(startFirst, 2) == 2 && Highest(startFirst, 3) == 2;
  }

  /** Otherwise the order of changes at one time matters: a place handed over at an instant counts as one or two. */
  lemma TiesMatter()
    ensures forall sorted :: sorted == endFirst || sorted == startFirst ==>
              Sorted(sorted) && multiset(sorted) == multiset(Changes(handOver, 2, TimePeriod(0, 9)))
    ensures Highest(endFirst, 4) == 1 && Highest(startFirst, 4) == 2
  {
    HandOverPeaks();
    assert Changes(handOver, 1, TimePeriod(0, 9)) == [Change(0, 1), Change(5, -1)];
    assert Changes(handOver, 2, TimePeriod(0, 9)) == endFirst;
  }
}
