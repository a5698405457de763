/** The start and end time of a subscription request, and the limits put on them. The SCD, VRP and RID services
    each hold the same text of this code. */
module SubscriptionTimes {
  import opened Common

  datatype Range = Range(start: Option<Time>, end: Option<Time>)

  /** The range that a request ends up with; `prior` is the range of the subscription it replaces. */
  function Adjusted(now: Time, asked: Range, prior: Option<Range>): Result<Range, Error> {
    if asked.start.Some? && now - asked.start.value > MAX_CLOCK_SKEW then Err(BadRequest) else
    var start := if asked.start.Some? then asked.start
                 else if prior.None? then Some(now) else prior.value.start;
    var end := if asked.end.None? && prior.Some? then prior.value.end else asked.end;
    if start.None? then Err(NilDereference) else
    var last := if end.None? then start.value + MAX_SUBSCRIPTION_DURATION else end.value;
    if last < start.value || last - start.value > MAX_SUBSCRIPTION_DURATION then Err(BadRequest)
    else Ok(Range(start, Some(last)))
  }

  /** A complete range of at most 24 hours, as every stored explicit subscription has it. */
  predicate Bounded(r: Range) {
    r.start.Some? && r.end.Some? && 0 <= r.end.value - r.start.value <= MAX_SUBSCRIPTION_DURATION
  }

  /** Whatever is adjusted is bounded and keeps the times asked for; a range that starts too early never is. When
      a bounded subscription is replaced, times left out are its own and nothing is dereferenced that is absent. */
  lemma AdjustedIsBounded(now: Time, asked: Range, prior: Option<Range>)
    ensures var r := Adjusted(now, asked, prior);
            && (r.Ok? ==>
                  && Bounded(r.value)
                  && (asked.start.Some? ==> r.value.start == asked.start && asked.start.value >= now - MAX_CLOCK_SKEW)
                  && (asked.end.Some? ==> r.value.end == asked.end))
            && (prior.Some? && Bounded(prior.value) ==>
                  && r != Err(NilDereference)
                  && (asked == Range(None, None) ==> r == Ok(prior.value)))
            && (prior.None? ==>
                  && r != Err(NilDereference)
                  && (asked == Range(None, None) ==>
                        r == Ok(Range(Some(now), Some(now + MAX_SUBSCRIPTION_DURATION)))))
  {
  }

  /** The start is the one asked for, else that of the predecessor, else now. */
  ghost predicate IsStart(now: Time, asked: Range, prior: Option<Range>, start: Time) {
    && (asked.start.Some? ==> start == asked.start.value)
    && (asked.start.None? && prior.Some? ==> prior.value.start == Some(start))
    && (asked.start.None? && prior.None? ==> start == now)
  }

  /** The end is the one asked for, else that of the predecessor, else 24 hours after the start. */
  ghost predicate IsEnd(asked: Range, prior: Option<Range>, start: Time, end: Time) {
    && (asked.end.Some? ==> end == asked.end.value)
    && (asked.end.None? && prior.Some? && prior.value.end.Some? ==> end == prior.value.end.value)
    && (asked.end.None? && (prior.None? || prior.value.end.None?) ==> end == start + 24 * 3_600_000_000_000)
  }

  /** Each time on its own, and when they are accepted: when they lie 0 to 24 hours apart and a start that was asked for
      is at most five minutes ago. The start that is missed by a nil dereference is that of a predecessor without. */
  lemma AdjustedExactly(now: Time, asked: Range, prior: Option<Range>, start: Time, end: Time)
    requires IsStart(now, asked, prior, start) && IsEnd(asked, prior, start, end)
    ensures var r := Adjusted(now, asked, prior);
            && r == (if r.Ok? then Ok(Range(Some(start), Some(end))) else Err(BadRequest))
            && (r.Ok? <==>
                  && start <= end <= start + 24 * 3_600_000_000_000
                  && (asked.start.Some? ==> now <= asked.start.value + 300_000_000_000))
  {
  }

  lemma AdjustedMissesStart(now: Time, asked: Range, prior: Option<Range>)
    ensures Adjusted(now, asked, prior) == Err(NilDereference) <==>
              asked.start.None? && prior.Some? && prior.value.start.None?
    ensures Adjusted(now, asked, prior) != Err(NilDereference) <==>
              exists start, end :: IsStart(now, asked, prior, start) && IsEnd(asked, prior, start, end)
  {
    if asked.start.Some? || prior.None? || prior.value.start.Some? {
      var start := if asked.start.Some? then asked.start.value
                   else if prior.Some? then prior.value.start.value else now;
      var end := if asked.end.Some? then asked.end.value
                 else if prior.Some? && prior.value.end.Some? then prior.value.end.value
                 else start + 24 * 3_600_000_000_000;
      assert IsStart(now, asked, prior, start) && IsEnd(asked, prior, start, end);
    }
  }

  class TimeRange {
    var start: Option<Time>
    var end: Option<Time>

    constructor (start: Option<Time>, end: Option<Time>)
      ensures Value() == Range(start, end)
    {
      this.start, this.end := start, end;
    }

    function Value(): Range
      reads this
    {
      Range(start, end)
    }

    method AdjustTimeRange(now: Time, prior: Option<Range>) returns (r: Result<(), Error>)
      modifies this
      ensures var spec := Adjusted(now, old(Value()), prior);
              if spec.Ok? then r == Ok(()) && Value() == spec.value else r == Err(spec.error)
    {
      if start.None? {
        if prior.None? {
          start := Some(now);
        } else {
          start := prior.value.start;
        }
      } else {
        if now - start.value > MAX_CLOCK_SKEW {
          return Err(BadRequest);
        }
      }
      if end.None? && prior.Some? {
        end := prior.value.end;
      }
      if start.None? {
        return Err(NilDereference);
      }
      if end.None? {
        end := Some(start.value + MAX_SUBSCRIPTION_DURATION);
      }
      if end.value - start.value < 0 {
        return Err(BadRequest);
      }
      if end.value - start.value > MAX_SUBSCRIPTION_DURATION {
        return Err(BadRequest);
      }
      return Ok(());
    }
  }
}
