/** Free time at a vertiport: the busy periods cut out of a window. */
module VertiportPeriods {
  import opened Common

  datatype TimePeriod = TimePeriod(from: Time, to: Time) {
    predicate IntersectsWith(other: TimePeriod) {
      !(from > other.to || from == other.to || to < other.from || to == other.from)
    }

    /** The period contains `t`, when its end is left out. */
    predicate Holds(t: Time) {
      from <= t < to
    }
  }

  // ----- cutting one period out of another -----

  function CutPieces(tp: TimePeriod, cut: TimePeriod): Result<seq<TimePeriod>, Error> {
    if (tp.from > cut.from && tp.to < cut.to) || (tp.from == cut.from && tp.to == cut.to) then Ok([])
    else if tp.from >= cut.from && tp.to > cut.to then Ok([TimePeriod(cut.to, tp.to)])
    else if tp.to <= cut.to && tp.from < cut.from then Ok([TimePeriod(tp.from, cut.from)])
    else if tp.to > cut.to && tp.from < cut.from then Ok([TimePeriod(tp.from, cut.from), TimePeriod(cut.to, tp.to)])
    else Err(BadRequest)
  }

  method Cut(tp: TimePeriod, cut: TimePeriod) returns (r: Result<seq<TimePeriod>, Error>)
    ensures r == CutPieces(tp, cut)
  {
    var result: seq<TimePeriod> := [];
    if (tp.from > cut.from && tp.to < cut.to) || (tp.from == cut.from && tp.to == cut.to) {
      return Ok(result);
    }
    if (tp.from > cut.from || tp.from == cut.from) && tp.to > cut.to {
      result := result + [TimePeriod(cut.to, tp.to)];
      assert result == [TimePeriod(cut.to, tp.to)];
      return Ok(result);
    }
    if (tp.to < cut.to || tp.to == cut.to) && tp.from < cut.from {
      result := result + [TimePeriod(tp.from, cut.from)];
      assert result == [TimePeriod(tp.from, cut.from)];
      return Ok(result);
    }
    if tp.to > cut.to && tp.from < cut.from {
      result := result + [TimePeriod(tp.from, cut.from)];
      result := result + [TimePeriod(cut.to, tp.to)];
      assert result == [TimePeriod(tp.from, cut.from), TimePeriod(cut.to, tp.to)];
      return Ok(result);
    }
    return Err(BadRequest);
  }

  /** A cut fails just when it covers the period and shares exactly one end with it. */
  lemma CutFailsExactly(tp: TimePeriod, cut: TimePeriod)
    requires tp.from <= tp.to && cut.from <= cut.to && tp.IntersectsWith(cut)
    ensures CutPieces(tp, cut).Err? <==>
              cut.from <= tp.from && tp.to <= cut.to && (cut.from == tp.from <==> cut.to != tp.to)
  {
  }

  // ----- cutting many periods -----

  predicate Holding(ps: seq<TimePeriod>, t: Time) {
    exists i :: 0 <= i < |ps| && ps[i].Holds(t)
  }

  /** Nonempty periods, one after the other. */
  predicate Ordered(ps: seq<TimePeriod>) {
    && (forall i :: 0 <= i < |ps| ==> ps[i].from < ps[i].to)
    && (forall i, j :: 0 <= i < j < |ps| ==> ps[i].to <= ps[j].from)
  }

  /** Nonempty periods with some time between each two of them. */
  predicate Separated(ps: seq<TimePeriod>) {
    && (forall i :: 0 <= i < |ps| ==> ps[i].from < ps[i].to)
    && (forall i, j :: 0 <= i < j < |ps| ==> ps[i].to < ps[j].from)
  }

  predicate Within(ps: seq<TimePeriod>, from: Time, to: Time) {
    forall i :: 0 <= i < |ps| ==> from <= ps[i].from && ps[i].to <= to
  }

  function Pieces(period: TimePeriod, busy: TimePeriod): Result<seq<TimePeriod>, Error> {
    if period.IntersectsWith(busy) then CutPieces(period, busy) else Ok([period])
  }

  /** One busy period cut out of each of the first `n` free ones. */
  function CutAll(free: seq<TimePeriod>, n: nat, busy: TimePeriod): Result<seq<TimePeriod>, Error>
    requires n <= |free|
  {
    if n == 0 then Ok([]) else
    var before :- CutAll(free, n - 1, busy);
    var pieces :- Pieces(free[n - 1], busy);
    Ok(before + pieces)
  }

  /** What the first `n` busy periods leave of the window. */
  function Free(busy: seq<TimePeriod>, n: nat, window: TimePeriod): Result<seq<TimePeriod>, Error>
    requires n <= |busy|
  {
    if n == 0 then Ok([window]) else
    var free :- Free(busy, n - 1, window);
    CutAll(free, |free|, busy[n - 1])
  }

  lemma {:induction false} CutAllErrors(free: seq<TimePeriod>, n: nat, busy: TimePeriod)
    requires n <= |free| && CutAll(free, n, busy).Err?
    ensures CutAll(free, |free|, busy) == CutAll(free, n, busy)
    decreases |free| - n
  {
    if n < |free| {
      CutAllErrors(free, n + 1, busy);
    }
  }

  lemma {:induction false} FreeErrors(busy: seq<TimePeriod>, n: nat, window: TimePeriod)
    requires n <= |busy| && Free(busy, n, window).Err?
    ensures Free(busy, |busy|, window) == Free(busy, n, window)
    decreases |busy| - n
  {
    if n < |busy| {
      FreeErrors(busy, n + 1, window);
    }
  }

  /** Constraints come first, then operational intents. */
  method ComputeFreeTimePeriods(
    constraints: seq<TimePeriod>, operationalIntents: seq<TimePeriod>, timeStart: Time, timeEnd: Time)
    returns (r: Result<seq<TimePeriod>, Error>)
    ensures var busy := constraints + operationalIntents;
            r == Free(busy, |busy|, TimePeriod(timeStart, timeEnd))
  {
    var resultingTimePeriods := [TimePeriod(timeStart, timeEnd)];
    var busyTimePeriods: seq<TimePeriod> := [];
    for i := 0 to |constraints|
      invariant busyTimePeriods == constraints[..i]
    {
      busyTimePeriods := busyTimePeriods + [constraints[i]];
    }
    for i := 0 to |operationalIntents|
      invariant busyTimePeriods == constraints + operationalIntents[..i]
    {
      busyTimePeriods := busyTimePeriods + [operationalIntents[i]];
    }
    assert busyTimePeriods == constraints + operationalIntents;
    for k := 0 to |busyTimePeriods|
      invariant Free(busyTimePeriods, k, TimePeriod(timeStart, timeEnd)) == Ok(resultingTimePeriods)
    {
      var newResultingTimePeriods: seq<TimePeriod> := [];
      for i := 0 to |resultingTimePeriods|
        invariant CutAll(resultingTimePeriods, i, busyTimePeriods[k]) == Ok(newResultingTimePeriods)
      {
        var period := resultingTimePeriods[i];
        if period.IntersectsWith(busyTimePeriods[k]) {
          var res := Cut(period, busyTimePeriods[k]);
          if res.Err? {
            CutAllErrors(resultingTimePeriods, i + 1, busyTimePeriods[k]);
            FreeErrors(busyTimePeriods, k + 1, TimePeriod(timeStart, timeEnd));
            return Err(res.error);
          }
          newResultingTimePeriods := newResultingTimePeriods + res.value;
        } else {
          newResultingTimePeriods := newResultingTimePeriods + [period];
        }
      }
      resultingTimePeriods := newResultingTimePeriods;
    }
    return Ok(resultingTimePeriods);
  }

  // ----- what is left is what is free -----

  lemma PiecesOf(period: TimePeriod, busy: TimePeriod)
    requires period.from < period.to && busy.from <= busy.to && Pieces(period, busy).Ok?
    ensures var ps := Pieces(period, busy).value;
            && Ordered(ps) && Within(ps, period.from, period.to)
            && (busy.from < busy.to ==> Separated(ps))
            && forall t :: Holding(ps, t) <==> period.Holds(t) && !busy.Holds(t)
  {
    var ps := Pieces(period, busy).value;
    forall t ensures Holding(ps, t) <==> period.Holds(t) && !busy.Holds(t) {
      if period.Holds(t) && !busy.Holds(t) {
        assert |ps| > 0;
        assert ps[0].Holds(t) || ps[|ps| - 1].Holds(t);
      }
    }
  }

  lemma HoldingOne(p: TimePeriod)
    ensures forall t :: Holding([p], t) <==> p.Holds(t)
  {
    assert [p][0] == p;
  }

  lemma HoldingConcat(a: seq<TimePeriod>, b: seq<TimePeriod>)
    ensures forall t :: Holding(a + b, t) <==> Holding(a, t) || Holding(b, t)
  {
    forall t ensures Holding(a + b, t) <==> Holding(a, t) || Holding(b, t) {
      if Holding(a, t) {
        var i :| 0 <= i < |a| && a[i].Holds(t);
        assert (a + b)[i].Holds(t);
      }
      if Holding(b, t) {
        var i :| 0 <= i < |b| && b[i].Holds(t);
        assert (a + b)[|a| + i].Holds(t);
      }
    }
  }

  lemma {:induction false} CutAllIsExact(free: seq<TimePeriod>, n: nat, busy: TimePeriod)
    requires Ordered(free) && n <= |free| && busy.from <= busy.to && CutAll(free, n, busy).Ok?
    ensures var left := CutAll(free, n, busy).value;
            && Ordered(left)
            && (n > 0 ==> Within(left, free[0].from, free[n - 1].to))
            && (n == 0 ==> left == [])
            && (Separated(free) && busy.from < busy.to ==> Separated(left))
            && forall t :: Holding(left, t) <==> Holding(free[..n], t) && !busy.Holds(t)
  {
    if n > 0 {
      CutAllIsExact(free, n - 1, busy);
      var before, pieces := CutAll(free, n - 1, busy).value, Pieces(free[n - 1], busy).value;
      PiecesOf(free[n - 1], busy);
      HoldingConcat(before, pieces);
      HoldingConcat(free[..n - 1], [free[n - 1]]);
      assert free[..n] == free[..n - 1] + [free[n - 1]];
      HoldingOne(free[n - 1]);
      ConcatOrdered(before, pieces, if n > 1 then free[n - 2].to else free[n - 1].from, free[n - 1].from);
    }
  }

  lemma ConcatOrdered(a: seq<TimePeriod>, b: seq<TimePeriod>, end: Time, start: Time)
    requires Ordered(a) && Ordered(b)
    requires forall i :: 0 <= i < |a| ==> a[i].to <= end
    requires forall i :: 0 <= i < |b| ==> start <= b[i].from
    requires end <= start
    ensures Ordered(a + b)
    ensures Separated(a) && Separated(b) && (a == [] || end < start) ==> Separated(a + b)
  {
  }

  predicate Busy(busy: seq<TimePeriod>, t: Time) {
    exists k :: 0 <= k < |busy| && busy[k].Holds(t)
  }

  /** On a nonempty window and busy periods that do not end before they start, a successful computation returns
      nonempty periods in the window, in order and without overlap, that hold an instant of the window exactly when
      no busy period does. When no busy period is empty, any two of them are apart. */
  lemma {:induction false} FreeIsExact(busy: seq<TimePeriod>, n: nat, window: TimePeriod)
    requires n <= |busy| && window.from < window.to && Free(busy, n, window).Ok?
    requires forall k :: 0 <= k < |busy| ==> busy[k].from <= busy[k].to
    ensures var free := Free(busy, n, window).value;
            && Ordered(free) && Within(free, window.from, window.to)
            && ((forall k :: 0 <= k < |busy| ==> busy[k].from < busy[k].to) ==> Separated(free))
            && forall t :: Holding(free, t) <==> window.Holds(t) && !Busy(busy[..n], t)
  {
    var free := Free(busy, n, window).value;
    if n == 0 {
      HoldingOne(window);
    } else {
      FreeIsExact(busy, n - 1, window);
      var before := Free(busy, n - 1, window).value;
      CutAllIsExact(before, |before|, busy[n - 1]);
      assert before[..|before|] == before;
      forall t ensures Busy(busy[..n], t) <==> Busy(busy[..n - 1], t) || busy[n - 1].Holds(t) {
        assert busy[..n][n - 1] == busy[n - 1];
        assert forall k :: 0 <= k < n - 1 ==> busy[..n][k] == busy[..n - 1][k];
      }
    }
  }

  /** A busy period covers a free one and shares exactly one end with it. */
  predicate Spoils(period: TimePeriod, busy: TimePeriod) {
    && period.IntersectsWith(busy) && busy.from <= period.from && period.to <= busy.to
    && (busy.from == period.from <==> busy.to != period.to)
  }

  lemma {:induction false} CutAllFailsExactly(free: seq<TimePeriod>, n: nat, busy: TimePeriod)
    requires Ordered(free) && n <= |free| && busy.from <= busy.to
    ensures CutAll(free, n, busy).Err? <==> exists i :: 0 <= i < n && Spoils(free[i], busy)
  {
    if n > 0 {
      CutAllFailsExactly(free, n - 1, busy);
      if free[n - 1].IntersectsWith(busy) { CutFailsExactly(free[n - 1], busy); }
    }
  }

  predicate SpoiledBy(busy: seq<TimePeriod>, k: nat, window: TimePeriod)
    requires k < |busy|
  {
    var free := Free(busy, k, window);
    free.Ok? && exists i :: 0 <= i < |free.value| && Spoils(free.value[i], busy[k])
  }

  /** The computation fails just when a busy period spoils one of the periods that the earlier ones left free. */
  lemma {:induction false} FreeFailsExactly(busy: seq<TimePeriod>, n: nat, window: TimePeriod)
    requires n <= |busy| && window.from < window.to
    requires forall k :: 0 <= k < |busy| ==> busy[k].from <= busy[k].to
    ensures Free(busy, n, window).Err? <==> exists k :: 0 <= k < n && SpoiledBy(busy, k, window)
  {
    if n > 0 {
      FreeFailsExactly(busy, n - 1, window);
      var before := Free(busy, n - 1, window);
      if before.Ok? {
        FreeIsExact(busy, n - 1, window);
        CutAllFailsExactly(before.value, |before.value|, busy[n - 1]);
        assert Free(busy, n, window) == CutAll(before.value, |before.value|, busy[n - 1]);
        assert Free(busy, n, window).Err? <==> SpoiledBy(busy, n - 1, window);
      }
    }
  }

  // ----- the gaps between busy periods, from the input alone -----

  predicate BusyAt(busy: seq<TimePeriod>, n: nat, t: Time)
    requires n <= |busy|
  {
    exists k :: 0 <= k < n && busy[k].Holds(t)
  }

  /** One of the first `n` periods is empty, at `t`. */
  predicate PointAt(busy: seq<TimePeriod>, n: nat, t: Time)
    requires n <= |busy|
  {
    exists k :: 0 <= k < n && busy[k].from == t == busy[k].to
  }

  /** A stretch of the window that the first `n` periods leave free and that ends, on each side, at the window, at a
      busy instant or at an empty busy period. */
  ghost predicate IsGap(busy: seq<TimePeriod>, n: nat, window: TimePeriod, g: TimePeriod)
    requires n <= |busy|
  {
    && window.from <= g.from < g.to <= window.to
    && (forall t :: g.Holds(t) ==> !BusyAt(busy, n, t))
    && (forall t :: g.from < t < g.to ==> !PointAt(busy, n, t))
    && (g.from == window.from || BusyAt(busy, n, g.from - 1) || PointAt(busy, n, g.from))
    && (g.to == window.to || BusyAt(busy, n, g.to) || PointAt(busy, n, g.to))
  }

  lemma OneMoreBusy(busy: seq<TimePeriod>, n: nat, t: Time)
    requires n < |busy|
    ensures BusyAt(busy, n + 1, t) <==> BusyAt(busy, n, t) || busy[n].Holds(t)
    ensures PointAt(busy, n + 1, t) <==> PointAt(busy, n, t) || busy[n].from == t == busy[n].to
  {
  }

  lemma PieceIsGap(busy: seq<TimePeriod>, n: nat, window: TimePeriod, g: TimePeriod, p: TimePeriod)
    requires n < |busy| && busy[n].from <= busy[n].to && IsGap(busy, n, window, g)
    requires Pieces(g, busy[n]).Ok? && p in Pieces(g, busy[n]).value
    ensures IsGap(busy, n + 1, window, p)
  {
    hide BusyAt, PointAt;
    var m := n + 1;
    forall t ensures BusyAt(busy, m, t) <==> BusyAt(busy, n, t) || busy[n].Holds(t) {
      OneMoreBusy(busy, n, t);
    }
    forall t ensures PointAt(busy, m, t) <==> PointAt(busy, n, t) || busy[n].from == t == busy[n].to {
      OneMoreBusy(busy, n, t);
    }
  }

  lemma {:induction false} CutAllMembers(free: seq<TimePeriod>, n: nat, busy: TimePeriod, p: TimePeriod)
    returns (i: nat)
    requires n <= |free| && CutAll(free, n, busy).Ok? && p in CutAll(free, n, busy).value
    ensures i < n && Pieces(free[i], busy).Ok? && p in Pieces(free[i], busy).value
  {
    hide Pieces;
    if p in Pieces(free[n - 1], busy).value {
      i := n - 1;
    } else {
      i := CutAllMembers(free, n - 1, busy, p);
    }
  }

  ghost predicate Forward(busy: seq<TimePeriod>) {
    forall k :: 0 <= k < |busy| ==> busy[k].from <= busy[k].to
  }

  lemma {:induction false} FreeAreGaps(busy: seq<TimePeriod>, n: nat, window: TimePeriod, g: TimePeriod)
    requires n <= |busy| && window.from < window.to && Forward(busy)
    requires Free(busy, n, window).Ok? && g in Free(busy, n, window).value
    ensures IsGap(busy, n, window, g)
  {
    if n > 0 {
      var before := Free(busy, n - 1, window).value;
      var i := CutAllMembers(before, |before|, busy[n - 1], g);
      FreeAreGaps(busy, n - 1, window, before[i]);
      PieceIsGap(busy, n - 1, window, before[i], g);
    }
  }

  lemma GapsAreApart(busy: seq<TimePeriod>, n: nat, window: TimePeriod, g: TimePeriod, h: TimePeriod, t: Time)
    requires n <= |busy| && IsGap(busy, n, window, g) && IsGap(busy, n, window, h) && g.Holds(t) && h.Holds(t)
    ensures g == h
  {
    GapIsMaximal(busy, n, window, g, h, t);
    GapIsMaximal(busy, n, window, h, g, t);
  }

  lemma GapIsMaximal(busy: seq<TimePeriod>, n: nat, window: TimePeriod, g: TimePeriod, h: TimePeriod, t: Time)
    requires n <= |busy| && IsGap(busy, n, window, g) && IsGap(busy, n, window, h) && g.Holds(t) && h.Holds(t)
    ensures g.from <= h.from && h.to <= g.to
  {
    hide BusyAt, PointAt;
    var before, after := g.from - 1, g.to;
    var busyBefore, busyAfter := BusyAt(busy, n, before), BusyAt(busy, n, after);
  }

  /** What is free are exactly the gaps. */
  lemma FreeIsGaps(busy: seq<TimePeriod>, n: nat, window: TimePeriod, g: TimePeriod)
    requires n <= |busy| && window.from < window.to && Forward(busy) && Free(busy, n, window).Ok?
    ensures g in Free(busy, n, window).value <==> IsGap(busy, n, window, g)
  {
    var free := Free(busy, n, window).value;
    if g in free {
      FreeAreGaps(busy, n, window, g);
    } else if IsGap(busy, n, window, g) {
      FreeIsExact(busy, n, window);
      assert g.Holds(g.from) && !BusyAt(busy, n, g.from);
      assert !Busy(busy[..n], g.from);
      var i :| 0 <= i < |free| && free[i].Holds(g.from);
      assert free[i] in free;
      FreeAreGaps(busy, n, window, free[i]);
      GapsAreApart(busy, n, window, g, free[i], g.from);
    }
  }

  /** A busy period covers a gap that the earlier ones leave, and shares exactly one end with it. */
  ghost predicate SpoilsAGap(busy: seq<TimePeriod>, k: nat, window: TimePeriod)
    requires k < |busy|
  {
    exists g :: IsGap(busy, k, window, g) && Spoils(g, busy[k])
  }

  lemma {:induction false} ErrorsStay(busy: seq<TimePeriod>, k: nat, n: nat, window: TimePeriod)
    requires k <= n <= |busy| && Free(busy, k, window).Err?
    ensures Free(busy, n, window).Err?
  {
    if k < n { ErrorsStay(busy, k, n - 1, window); }
  }

  /** The computation fails exactly when some busy period does so. */
  lemma FreeFailsByGaps(busy: seq<TimePeriod>, n: nat, window: TimePeriod)
    requires n <= |busy| && window.from < window.to && Forward(busy)
    ensures Free(busy, n, window).Err? <==> exists k :: 0 <= k < n && SpoilsAGap(busy, k, window)
  {
    hide IsGap, Spoils;
    FreeFailsExactly(busy, n, window);
    if k :| 0 <= k < n && SpoiledBy(busy, k, window) {
      var free := Free(busy, k, window).value;
      var i :| 0 <= i < |free| && Spoils(free[i], busy[k]);
      FreeAreGaps(busy, k, window, free[i]);
      assert SpoilsAGap(busy, k, window);
    }
    if k :| 0 <= k < n && SpoilsAGap(busy, k, window) {
      var g :| IsGap(busy, k, window, g) && Spoils(g, busy[k]);
      if Free(busy, k, window).Err? {
        ErrorsStay(busy, k, n, window);
      } else {
        FreeIsGaps(busy, k, window, g);
        assert SpoiledBy(busy, k, window);
      }
    }
  }

  // ----- the order of the busy periods -----

  /** Periods with time between them are determined by the instants they hold. */
  lemma {:induction false} SeparatedIsUnique(a: seq<TimePeriod>, b: seq<TimePeriod>)
    requires Separated(a) && Separated(b) && forall t :: Holding(a, t) <==> Holding(b, t)
    ensures a == b
  {
    if a != [] { FirstInstants(a); }
    if b != [] { FirstInstants(b); }
    if a != [] && b != [] {
      SameFirst(a, b);
      SameFirst(b, a);
      forall t ensures Holding(a[1..], t) <==> Holding(b[1..], t) {
        TailHolds(a, t);
        TailHolds(b, t);
      }
      SeparatedIsUnique(a[1..], b[1..]);
    }
  }

  lemma TailHolds(a: seq<TimePeriod>, t: Time)
    requires Separated(a) && a != []
    ensures Holding(a[1..], t) <==> Holding(a, t) && !a[0].Holds(t)
  {
    if Holding(a, t) && !a[0].Holds(t) {
      var i :| 0 <= i < |a| && a[i].Holds(t);
      assert a[1..][i - 1].Holds(t);
    }
  }

  lemma FirstInstants(a: seq<TimePeriod>)
    requires Separated(a) && a != []
    ensures Holding(a, a[0].from) && !Holding(a, a[0].to)
    ensures forall t :: Holding(a, t) ==> a[0].from <= t
  {
    assert a[0].Holds(a[0].from);
    forall i, t | 0 <= i < |a| && a[i].Holds(t) ensures a[0].from <= t && t != a[0].to {
      assert i > 0 ==> a[0].to < a[i].from;
    }
  }

  lemma SameFirst(a: seq<TimePeriod>, b: seq<TimePeriod>)
    requires Separated(a) && Separated(b) && a != [] && b != []
    requires forall t :: Holding(a, t) <==> Holding(b, t)
    ensures a[0].from <= b[0].from && a[0].to <= b[0].to
  {
    assert forall t :: a[0].Holds(t) ==> Holding(a, t);
    FirstInstants(a);
    FirstInstants(b);
  }

  lemma LastIsLast(a: seq<TimePeriod>, b: seq<TimePeriod>)
    requires Ordered(a) && Ordered(b) && a != [] && b != [] && forall p :: p in a <==> p in b
    ensures a[|a| - 1] == b[|b| - 1]
  {
    var last, end := a[|a| - 1], b[|b| - 1];
    assert last in a && end in b;
    var i :| 0 <= i < |a| && a[i] == end;
    var j :| 0 <= j < |b| && b[j] == last;
  }

  lemma WithoutLast(a: seq<TimePeriod>, p: TimePeriod)
    requires Ordered(a) && a != []
    ensures Ordered(a[..|a| - 1])
    ensures p in a[..|a| - 1] <==> p in a && p != a[|a| - 1]
  {
    var m := |a| - 1;
    assert a == a[..m] + [a[m]];
  }

  lemma EmptyTogether(a: seq<TimePeriod>, b: seq<TimePeriod>)
    requires forall p :: p in a <==> p in b
    ensures a == [] <==> b == []
  {
    if a != [] { assert a[0] in b; }
    if b != [] { assert b[0] in a; }
  }

  /** Periods in order are determined by which they are. */
  lemma {:induction false} OrderedIsUnique(a: seq<TimePeriod>, b: seq<TimePeriod>)
    requires Ordered(a) && Ordered(b) && forall p :: p in a <==> p in b
    ensures a == b
  {
    hide Ordered;
    EmptyTogether(a, b);
    if a != [] {
      LastIsLast(a, b);
      var m, n := |a| - 1, |b| - 1;
      WithoutLast(a, a[m]);
      WithoutLast(b, b[n]);
      forall p ensures p in a[..m] <==> p in b[..n] {
        WithoutLast(a, p);
        WithoutLast(b, p);
      }
      OrderedIsUnique(a[..m], b[..n]);
      assert a == a[..m] + [a[m]] && b == b[..n] + [b[n]];
    }
  }

  lemma SameGaps(busy: seq<TimePeriod>, other: seq<TimePeriod>, window: TimePeriod, g: TimePeriod)
    requires forall p :: p in busy ==> p in other
    requires forall p :: p in other ==> p in busy
    ensures IsGap(busy, |busy|, window, g) <==> IsGap(other, |other|, window, g)
  {
    forall t ensures BusyAt(busy, |busy|, t) <==> BusyAt(other, |other|, t) {
      SameBusy(busy, other, t);
      SameBusy(other, busy, t);
    }
    forall t ensures PointAt(busy, |busy|, t) <==> PointAt(other, |other|, t) {
      SameBusy(busy, other, t);
      SameBusy(other, busy, t);
    }
    hide BusyAt, PointAt;
  }

  lemma SameBusy(busy: seq<TimePeriod>, other: seq<TimePeriod>, t: Time)
    requires forall p :: p in busy ==> p in other
    ensures BusyAt(busy, |busy|, t) ==> BusyAt(other, |other|, t)
    ensures PointAt(busy, |busy|, t) ==> PointAt(other, |other|, t)
  {
    if k :| 0 <= k < |busy| && busy[k].Holds(t) { assert busy[k] in other; }
    if k :| 0 <= k < |busy| && busy[k].from == t == busy[k].to { assert busy[k] in other; }
  }

  /** Two lists of the same busy periods, in any order, give the same free periods when both succeed. */
  lemma OrderDoesNotMatter(busy: seq<TimePeriod>, other: seq<TimePeriod>, window: TimePeriod)
    requires multiset(busy) == multiset(other) && window.from < window.to && Forward(busy)
    requires Free(busy, |busy|, window).Ok? && Free(other, |other|, window).Ok?
    ensures Free(busy, |busy|, window) == Free(other, |other|, window)
  {
    hide Free, IsGap;
    forall p ensures p in busy <==> p in other {
      assert p in multiset(busy) <==> p in multiset(other);
    }
    assert Forward(other) by {
      forall k | 0 <= k < |other| ensures other[k].from <= other[k].to {
        assert other[k] in busy;
      }
    }
    FreeIsExact(busy, |busy|, window);
    FreeIsExact(other, |other|, window);
    var free, others := Free(busy, |busy|, window).value, Free(other, |other|, window).value;
    forall g ensures g in free <==> g in others {
      FreeIsGaps(busy, |busy|, window, g);
      FreeIsGaps(other, |other|, window, g);
      SameGaps(busy, other, window, g);
    }
    OrderedIsUnique(free, others);
  }

  /** Whether the computation succeeds does depend on the order. */
  lemma SuccessDependsOnOrder()
    ensures var long, short, window := TimePeriod(0, 10), TimePeriod(0, 5), TimePeriod(0, 10);
            Free([long, short], 2, window) == Ok([]) && Free([short, long], 2, window) == Err(BadRequest)
  {
    var long, short, window := TimePeriod(0, 10), TimePeriod(0, 5), TimePeriod(0, 10);
    assert CutAll([window], 0, long) == Ok([]) && CutAll([window], 0, short) == Ok([]);
    assert CutAll([window], 1, long) == Ok([] + []);
    var ls, sl, all, tail := [long, short], [short, long], [window], [TimePeriod(5, 10)];
    assert Free(ls, 0, window) == Ok(all) && Free(sl, 0, window) == Ok(all) && |all| == 1 && |tail| == 1;
    assert CutAll(all, |all|, long) == Ok([] + []) && CutAll(all, |all|, short) == Ok([] + tail);
    var none: seq<TimePeriod> := [];
    assert ls[0] == long && sl[0] == short && none + none == none && none + tail == tail;
    assert Free(ls, 1, window) == Ok([]);
    assert Free(sl, 1, window) == Ok(tail);
    assert CutAll(tail, 0, long) == Ok([]);
    assert CutAll(tail, |tail|, long) == Err(BadRequest);
  }
}
