/** Four-dimensional volumes and their union. */
module Volumes {
  import opened Common

  datatype Volume3D = Volume3D(lo: Option<real>, hi: Option<real>, footprint: Option<Result<set<Cell>, Error>>)

  datatype Volume4D = Volume4D(space: Option<Volume3D>, start: Option<Time>, end: Option<Time>) {
    function CalculateSpatialCovering(): Result<set<Cell>, Error> {
      if space.None? || space.value.footprint.None? then Err(BadRequest) else space.value.footprint.value
    }
  }

  function TimeP(t: Time): Option<Time> {
    if t == ZERO_TIME then None else Some(t)
  }

  // ----- one volume merged into the union built so far -----

  function Earlier(acc: Option<Time>, t: Option<Time>): Option<Time> {
    if t.None? then acc
    else if acc.None? then TimeP(t.value)
    else if t.value < acc.value then t else acc
  }

  function Later(acc: Option<Time>, t: Option<Time>): Option<Time> {
    if t.None? then acc
    else if acc.None? then TimeP(t.value)
    else if t.value > acc.value then t else acc
  }

  function Lower(acc: Option<real>, x: Option<real>): Option<real> {
    if x.None? then acc else if acc.None? || x.value < acc.value then x else acc
  }

  function Higher(acc: Option<real>, x: Option<real>): Option<real> {
    if x.None? then acc else if acc.None? || x.value > acc.value then x else acc
  }

  function CellsOf(v: Volume3D): set<Cell> {
    if v.footprint.Some? && v.footprint.value.Ok? then v.footprint.value.value else {}
  }

  function MergeSpace(acc: Option<Volume3D>, s: Option<Volume3D>): Result<Option<Volume3D>, Error> {
    if s.None? then Ok(acc) else
    var base := if acc.None? then Volume3D(None, None, None) else acc.value;
    var lo, hi := Lower(base.lo, s.value.lo), Higher(base.hi, s.value.hi);
    match s.value.footprint
    case None => Ok(Some(Volume3D(lo, hi, base.footprint)))
    case Some(Err(e)) => Err(e)
    case Some(Ok(cells)) => Ok(Some(Volume3D(lo, hi, Some(Ok(CellsOf(base) + cells)))))
  }

  /** The union of the first `n` volumes. */
  function UnionOf(volumes: seq<Volume4D>, n: nat): (r: Result<Volume4D, Error>)
    requires n <= |volumes|
    ensures r.Ok? && r.value.space.Some? && r.value.space.value.footprint.Some? ==>
              r.value.space.value.footprint.value.Ok?
  {
    if n == 0 then Ok(Volume4D(None, None, None)) else
    var acc :- UnionOf(volumes, n - 1);
    var v := volumes[n - 1];
    var space :- MergeSpace(acc.space, v.space);
    Ok(Volume4D(space, Earlier(acc.start, v.start), Later(acc.end, v.end)))
  }

  function Union(volumes: seq<Volume4D>): (r: Result<Volume4D, Error>)
  {
    UnionOf(volumes, |volumes|)
  }

  method UnionVolumes4D(volumes: seq<Volume4D>) returns (r: Result<Volume4D, Error>)
    ensures r == Union(volumes)
  {
    var result := Volume4D(None, None, None);
    for i := 0 to |volumes|
      invariant UnionOf(volumes, i) == Ok(result)
    {
      var volume := volumes[i];
      ghost var before := result;
      if volume.end.Some? {
        if result.end.Some? {
          if volume.end.value > result.end.value {
            result := result.(end := volume.end);
          }
        } else {
          result := result.(end := TimeP(volume.end.value));
        }
      }
      if volume.start.Some? {
        if result.start.Some? {
          if volume.start.value < result.start.value {
            result := result.(start := volume.start);
          }
        } else {
          result := result.(start := TimeP(volume.start.value));
        }
      }
      assert result == Volume4D(before.space, Earlier(before.start, volume.start), Later(before.end, volume.end));
      if volume.space.Some? {
        var space := MergeVolume3D(result.space, volume.space.value);
        if space.Err? {
          UnionErrors(volumes, i + 1);
          return Err(space.error);
        }
        result := result.(space := Some(space.value));
      }
    }
    return Ok(result);
  }

  method MergeVolume3D(acc: Option<Volume3D>, added: Volume3D) returns (r: Result<Volume3D, Error>)
    ensures MergeSpace(acc, Some(added)) == if r.Ok? then Ok(Some(r.value)) else Err(r.error)
  {
    var space := if acc.None? then Volume3D(None, None, None) else acc.value;
    if added.lo.Some? && (space.lo.None? || added.lo.value < space.lo.value) {
      space := space.(lo := added.lo);
    }
    if added.hi.Some? && (space.hi.None? || added.hi.value > space.hi.value) {
      space := space.(hi := added.hi);
    }
    if added.footprint.Some? {
      var covering := added.footprint.value;
      if covering.Err? {
        return Err(covering.error);
      }
      space := space.(footprint := Some(Ok(CellsOf(space) + covering.value)));
    }
    return Ok(space);
  }

  lemma {:induction false} UnionErrors(volumes: seq<Volume4D>, i: nat)
    requires i <= |volumes| && UnionOf(volumes, i).Err?
    ensures Union(volumes) == UnionOf(volumes, i)
    decreases |volumes| - i
  {
    if i < |volumes| {
      UnionErrors(volumes, i + 1);
    }
  }

  // ----- what the union means -----

  ghost predicate IsLowest(m: Option<real>, all: set<real>) {
    if m.None? then all == {} else m.value in all && forall x :: x in all ==> m.value <= x
  }

  ghost predicate IsHighest(m: Option<real>, all: set<real>) {
    if m.None? then all == {} else m.value in all && forall x :: x in all ==> x <= m.value
  }

  /** The spatial parts of the first `n` volumes. */
  ghost function Spaces(volumes: seq<Volume4D>, n: nat): set<Volume3D>
    requires n <= |volumes|
  {
    if n == 0 then {} else
    Spaces(volumes, n - 1) + (if volumes[n - 1].space.Some? then {volumes[n - 1].space.value} else {})
  }

  ghost function Lows(spaces: set<Volume3D>): set<real> {
    set s | s in spaces && s.lo.Some? :: s.lo.value
  }

  ghost function Highs(spaces: set<Volume3D>): set<real> {
    set s | s in spaces && s.hi.Some? :: s.hi.value
  }

  /** What the union `space` of the volumes `spaces` has to be: the lowest and the highest altitude given, and a
      cell just when one of the volumes has it. */
  ghost predicate Covers(space: Option<Volume3D>, spaces: set<Volume3D>) {
    if space.None? then spaces == {} else
    && spaces != {}
    && IsLowest(space.value.lo, Lows(spaces))
    && IsHighest(space.value.hi, Highs(spaces))
    && (space.value.footprint.Some? <==> exists s :: s in spaces && s.footprint.Some?)
    && forall c :: c in CellsOf(space.value) <==> exists s :: s in spaces && c in CellsOf(s)
  }

  lemma MergedBounds(acc: Volume3D, spaces: set<Volume3D>, s: Volume3D)
    requires IsLowest(acc.lo, Lows(spaces)) && IsHighest(acc.hi, Highs(spaces))
    ensures IsLowest(Lower(acc.lo, s.lo), Lows(spaces + {s})) && IsHighest(Higher(acc.hi, s.hi), Highs(spaces + {s}))
  {
    assert Lows(spaces + {s}) == Lows(spaces) + (if s.lo.Some? then {s.lo.value} else {});
    assert Highs(spaces + {s}) == Highs(spaces) + (if s.hi.Some? then {s.hi.value} else {});
  }

  lemma MergedSpaces(acc: Option<Volume3D>, spaces: set<Volume3D>, s: Volume3D)
    requires Covers(acc, spaces) && MergeSpace(acc, Some(s)).Ok?
    ensures Covers(MergeSpace(acc, Some(s)).value, spaces + {s})
  {
    hide IsLowest, IsHighest, Lows, Highs, Lower, Higher;
    var base := if acc.None? then Volume3D(None, None, None) else acc.value;
    var merged := MergeSpace(acc, Some(s)).value.value;
    if acc.None? {
      NoBounds();
    }
    MergedBounds(base, spaces, s);
    assert CellsOf(merged) == CellsOf(base) + CellsOf(s);
    assert merged.footprint.Some? <==> base.footprint.Some? || s.footprint.Some?;
    assert s in spaces + {s};
  }

  lemma NoBounds()
    ensures IsLowest(None, Lows({})) && IsHighest(None, Highs({}))
  {
  }

  /** In space the union is exact: it fails just when some covering fails, and otherwise covers the volumes. */
  lemma {:induction false} UnionInSpace(volumes: seq<Volume4D>, n: nat)
    requires n <= |volumes|
    ensures UnionOf(volumes, n).Ok? <==>
              forall s :: s in Spaces(volumes, n) && s.footprint.Some? ==> s.footprint.value.Ok?
    ensures UnionOf(volumes, n).Ok? ==> Covers(UnionOf(volumes, n).value.space, Spaces(volumes, n))
  {
    if n > 0 {
      UnionInSpace(volumes, n - 1);
      assert Spaces(volumes, n - 1) + {} == Spaces(volumes, n - 1);
      if volumes[n - 1].space.Some? && UnionOf(volumes, n).Ok? {
        MergedSpaces(UnionOf(volumes, n - 1).value.space, Spaces(volumes, n - 1), volumes[n - 1].space.value);
      }
    }
  }

  // ----- the union in time -----

  /** The start times given by the first `n` volumes, in order. */
  function Starts(volumes: seq<Volume4D>, n: nat): seq<Time>
    requires n <= |volumes|
  {
    if n == 0 then [] else
    Starts(volumes, n - 1) + (if volumes[n - 1].start.Some? then [volumes[n - 1].start.value] else [])
  }

  function Ends(volumes: seq<Volume4D>, n: nat): seq<Time>
    requires n <= |volumes|
  {
    if n == 0 then [] else
    Ends(volumes, n - 1) + (if volumes[n - 1].end.Some? then [volumes[n - 1].end.value] else [])
  }

  /** What is left of a list of times after the zero times at its front. */
  function Trim(ts: seq<Time>): seq<Time> {
    if ts != [] && ts[0] == ZERO_TIME then Trim(ts[1..]) else ts
  }

  ghost predicate IsEarliest(m: Option<Time>, ts: seq<Time>) {
    if m.None? then ts == [] else m.value in ts && forall t :: t in ts ==> m.value <= t
  }

  ghost predicate IsLatest(m: Option<Time>, ts: seq<Time>) {
    if m.None? then ts == [] else m.value in ts && forall t :: t in ts ==> t <= m.value
  }

  lemma {:induction false} TrimSnoc(ts: seq<Time>, t: Time)
    ensures Trim(ts + [t]) == if Trim(ts) == [] && t == ZERO_TIME then [] else Trim(ts) + [t]
  {
    if ts == [] {
      assert ts + [t] == [t] && [t][1..] == [];
    } else if ts[0] == ZERO_TIME {
      TrimSnoc(ts[1..], t);
      assert (ts + [t])[1..] == ts[1..] + [t];
    }
  }

  lemma {:induction false} TrimDropsZeros(ts: seq<Time>)
    ensures forall x :: x in Trim(ts) ==> x in ts
    ensures forall x :: x in ts ==> x in Trim(ts) || x == ZERO_TIME
    ensures Trim(ts) == ts <==> ts == [] || ts[0] != ZERO_TIME
    ensures |Trim(ts)| <= |ts|
  {
    if ts != [] && ts[0] == ZERO_TIME {
      TrimDropsZeros(ts[1..]);
    }
  }

  lemma MergedTimes(m: Option<Time>, ts: seq<Time>, t: Time)
    ensures IsEarliest(m, Trim(ts)) ==> IsEarliest(Earlier(m, Some(t)), Trim(ts + [t]))
    ensures IsLatest(m, Trim(ts)) ==> IsLatest(Later(m, Some(t)), Trim(ts + [t]))
  {
    TrimSnoc(ts, t);
    assert t in Trim(ts) + [t];
  }

  lemma {:induction false} UnionTimes(volumes: seq<Volume4D>, n: nat)
    requires n <= |volumes| && UnionOf(volumes, n).Ok?
    ensures IsEarliest(UnionOf(volumes, n).value.start, Trim(Starts(volumes, n)))
    ensures IsLatest(UnionOf(volumes, n).value.end, Trim(Ends(volumes, n)))
  {
    if n > 0 {
      UnionTimes(volumes, n - 1);
      var last, acc := volumes[n - 1], UnionOf(volumes, n - 1).value;
      if last.start.Some? { MergedTimes(acc.start, Starts(volumes, n - 1), last.start.value); }
      if last.end.Some? { MergedTimes(acc.end, Ends(volumes, n - 1), last.end.value); }
      assert Starts(volumes, n - 1) + [] == Starts(volumes, n - 1);
      assert Ends(volumes, n - 1) + [] == Ends(volumes, n - 1);
    }
  }

  /** The union starts at the earliest start of its volumes unless zero times in front were the earliest ones:
      those are dropped. The same holds of the ends. */
  lemma UnionCoversTimes(volumes: seq<Volume4D>)
    requires Union(volumes).Ok?
    ensures var starts := Starts(volumes, |volumes|);
            IsEarliest(Union(volumes).value.start, starts) <==>
              (starts != [] && starts[0] == ZERO_TIME ==> exists t :: t in Trim(starts) && t <= ZERO_TIME)
    ensures var ends := Ends(volumes, |volumes|);
            IsLatest(Union(volumes).value.end, ends) <==>
              (ends != [] && ends[0] == ZERO_TIME ==> exists t :: t in Trim(ends) && t >= ZERO_TIME)
  {
    var starts, ends := Starts(volumes, |volumes|), Ends(volumes, |volumes|);
    UnionTimes(volumes, |volumes|);
    TrimDropsZeros(starts);
    TrimDropsZeros(ends);
    assert starts != [] ==> starts[0] in starts;
    assert ends != [] ==> ends[0] in ends;
  }

  lemma ZeroStartIsDropped()
    ensures var v, w := Volume4D(None, Some(ZERO_TIME), Some(9)), Volume4D(None, Some(5), Some(9));
            && Union([v, w]) == Ok(Volume4D(None, Some(5), Some(9)))
            && Union([w, v]) == Ok(Volume4D(None, Some(ZERO_TIME), Some(9)))
  {
    var v, w := Volume4D(None, Some(ZERO_TIME), Some(9)), Volume4D(None, Some(5), Some(9));
    assert UnionOf([v, w], 1) == Ok(Volume4D(None, None, Some(9)));
    assert UnionOf([w, v], 1) == Ok(w);
  }
}
