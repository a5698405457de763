/** Remote ID subscriptions, and the limit on how many of them one owner may have in a cell. */
module RemoteId {
  import opened Common
  import opened SubscriptionTimes

  const MAX_SUBSCRIPTIONS_PER_AREA := 10

  type Owner = string
  type Version = string

  datatype Subscription = Subscription(
    owner: Owner, url: string, index: int, cells: set<Cell>, range: Range, version: Version)

  type Rows = map<Id, Subscription>

  datatype Request = Request(
    id: Id, owner: Owner, url: string, cells: set<Cell>, range: Range, version: Option<Version>)

  predicate Live(s: Subscription, t: Time) {
    s.range.end.Some? && s.range.end.value >= t
  }

  function StoredIn(rows: Rows, owner: Owner, cell: Cell): set<Id> {
    set id | id in rows && rows[id].owner == owner && cell in rows[id].cells
  }

  function LiveIn(rows: Rows, owner: Owner, cell: Cell, t: Time): set<Id> {
    set id | id in StoredIn(rows, owner, cell) && Live(rows[id], t)
  }

  predicate Full(rows: Rows, owner: Owner, cells: set<Cell>, t: Time) {
    exists c | c in cells :: |LiveIn(rows, owner, c, t)| >= MAX_SUBSCRIPTIONS_PER_AREA
  }

  // ----- transactions; `asked` is the clock when the request is checked, `now` when the query runs -----

  function Insert(rows: Rows, q: Request, asked: Time, now: Time, version: Version): Result<Rows, Error> {
    var range :- Adjusted(asked, q.range, None);
    if q.id in rows then Err(AlreadyExists)
    else if Full(rows, q.owner, q.cells, now) then Err(Exhausted)
    else Ok(rows[q.id := Subscription(q.owner, q.url, 0, q.cells, range, version)])
  }

  function Update(rows: Rows, q: Request, asked: Time, now: Time, version: Version): Result<Rows, Error> {
    if q.id !in rows then Err(NotFound)
    else if q.version != Some(rows[q.id].version) then Err(VersionMismatch)
    else if rows[q.id].owner != q.owner then Err(PermissionDenied)
    else
      var range :- Adjusted(asked, q.range, Some(rows[q.id].range));
      if Full(rows, q.owner, q.cells, now) then Err(Exhausted)
      else Ok(rows[q.id := Subscription(q.owner, q.url, 0, q.cells, range, version)])
  }

  function Delete(rows: Rows, id: Id, owner: Owner, version: Option<Version>): Result<Rows, Error> {
    if id !in rows then Err(NotFound)
    else if version != Some(rows[id].version) then Err(VersionMismatch)
    else if rows[id].owner != owner then Err(PermissionDenied)
    else Ok(rows - {id})
  }

  /** What a change of a service area does to the subscriptions: the live ones in its cells count one more. */
  function Notified(rows: Rows, cells: set<Cell>, now: Time): Rows {
    map id | id in rows ::
      if rows[id].cells * cells != {} && Live(rows[id], now) then rows[id].(index := rows[id].index + 1) else rows[id]
  }

  class App {
    var rows: Rows

    constructor ()
      ensures rows == map[]
    {
      rows := map[];
    }

    /** The count in the cell, of these, where the owner has the most live subscriptions. */
    method MaxSubscriptionCountInCellsByOwner(cells: set<Cell>, owner: Owner, now: Time) returns (count: nat)
      ensures forall c :: c in cells ==> |LiveIn(rows, owner, c, now)| <= count
      ensures count > 0 ==> exists c :: c in cells && |LiveIn(rows, owner, c, now)| == count
    {
      count := 0;
      var list := Enumerate(cells);
      for i := 0 to |list|
        invariant forall c :: c in list[..i] ==> |LiveIn(rows, owner, c, now)| <= count
        invariant count > 0 ==> exists c :: c in cells && |LiveIn(rows, owner, c, now)| == count
      {
        assert list[i] in list;
        var inCell := |LiveIn(rows, owner, list[i], now)|;
        if inCell > count {
          count := inCell;
        }
      }
      assert list[..|list|] == list;
    }

    method InsertSubscription(q: Request, asked: Time, now: Time, version: Version)
      returns (r: Result<Subscription, Error>)
      modifies this
      ensures Stored(Insert(old(rows), q, asked, now, version), old(rows), q.id, r)
    {
      var times := new TimeRange(q.range.start, q.range.end);
      var _ :- times.AdjustTimeRange(asked, None);
      if q.id in rows {
        return Err(AlreadyExists);
      }
      var count := MaxSubscriptionCountInCellsByOwner(q.cells, q.owner, now);
      if count >= MAX_SUBSCRIPTIONS_PER_AREA {
        return Err(Exhausted);
      }
      var s := Subscription(q.owner, q.url, 0, q.cells, times.Value(), version);
      rows := rows[q.id := s];
      return Ok(s);
    }

    method UpdateSubscription(q: Request, asked: Time, now: Time, version: Version)
      returns (r: Result<Subscription, Error>)
      modifies this
      ensures Stored(Update(old(rows), q, asked, now, version), old(rows), q.id, r)
    {
      if q.id !in rows {
        return Err(NotFound);
      } else if q.version != Some(rows[q.id].version) {
        return Err(VersionMismatch);
      } else if rows[q.id].owner != q.owner {
        return Err(PermissionDenied);
      }
      var times := new TimeRange(q.range.start, q.range.end);
      var _ :- times.AdjustTimeRange(asked, Some(rows[q.id].range));
      var count := MaxSubscriptionCountInCellsByOwner(q.cells, q.owner, now);
      if count >= MAX_SUBSCRIPTIONS_PER_AREA {
        return Err(Exhausted);
      }
      var s := Subscription(q.owner, q.url, 0, q.cells, times.Value(), version);
      rows := rows[q.id := s];
      return Ok(s);
    }

    method DeleteSubscription(id: Id, owner: Owner, version: Option<Version>) returns (r: Result<Subscription, Error>)
      modifies this
      ensures rows == StoreAfter(Delete(old(rows), id, owner, version), old(rows))
      ensures if Delete(old(rows), id, owner, version).Ok? then r == Ok(old(rows)[id])
              else r == Err(Delete(old(rows), id, owner, version).error)
    {
      if id !in rows {
        return Err(NotFound);
      } else if version != Some(rows[id].version) {
        return Err(VersionMismatch);
      } else if rows[id].owner != owner {
        return Err(PermissionDenied);
      }
      var s := rows[id];
      rows := rows - {id};
      return Ok(s);
    }

    /** The state of the application after a write of `id` that was specified as `spec`, and its answer. */
    ghost predicate Stored(spec: Result<Rows, Error>, before: Rows, id: Id, r: Result<Subscription, Error>)
      reads this
    {
      && rows == StoreAfter(spec, before)
      && (if spec.Ok? then id in rows && r == Ok(rows[id]) else r == Err(spec.error))
    }
  }

  function StoreAfter(r: Result<Rows, Error>, before: Rows): Rows {
    if r.Ok? then r.value else before
  }

  // ----- runs -----

  datatype Call =
    | InsertCall(q: Request)
    | UpdateCall(q: Request)
    | DeleteCall(id: Id, owner: Owner, version: Option<Version>)
    | ServiceAreaCall(cells: set<Cell>)

  datatype Event = Event(call: Call, asked: Time, now: Time, version: Version)

  function Step(rows: Rows, e: Event): Result<Rows, Error> {
    match e.call
    case InsertCall(q) => Insert(rows, q, e.asked, e.now, e.version)
    case UpdateCall(q) => Update(rows, q, e.asked, e.now, e.version)
    case DeleteCall(id, owner, version) => Delete(rows, id, owner, version)
    case ServiceAreaCall(cells) => Ok(Notified(rows, cells, e.now))
  }

  /** The store after the first `n` events. */
  function After(events: seq<Event>, n: nat): Rows
    requires n <= |events|
  {
    if n == 0 then map[] else StoreAfter(Step(After(events, n - 1), events[n - 1]), After(events, n - 1))
  }

  ghost predicate Ordered(events: seq<Event>) {
    forall i, j :: 0 <= i < j < |events| ==> events[i].now <= events[j].now
  }

  // ----- the quota on live subscriptions -----

  ghost predicate Quota(rows: Rows, t: Time) {
    forall owner, cell :: |LiveIn(rows, owner, cell, t)| <= MAX_SUBSCRIPTIONS_PER_AREA
  }

  lemma QuotaLater(rows: Rows, t: Time, u: Time)
    requires Quota(rows, t) && t <= u
    ensures Quota(rows, u)
  {
    forall owner, cell ensures |LiveIn(rows, owner, cell, u)| <= MAX_SUBSCRIPTIONS_PER_AREA {
      SubsetIsSmaller(LiveIn(rows, owner, cell, u), LiveIn(rows, owner, cell, t));
    }
  }

  lemma SmallerKeepsQuota(rows: Rows, after: Rows, t: Time)
    requires Quota(rows, t)
    requires forall owner, cell :: LiveIn(after, owner, cell, t) <= LiveIn(rows, owner, cell, t)
    ensures Quota(after, t)
  {
    forall owner, cell ensures |LiveIn(after, owner, cell, t)| <= MAX_SUBSCRIPTIONS_PER_AREA {
      SubsetIsSmaller(LiveIn(after, owner, cell, t), LiveIn(rows, owner, cell, t));
    }
  }

  lemma WriteKeepsQuota(rows: Rows, id: Id, s: Subscription, t: Time)
    requires Quota(rows, t) && !Full(rows, s.owner, s.cells, t)
    ensures Quota(rows[id := s], t)
  {
    var next := rows[id := s];
    forall owner, cell ensures |LiveIn(next, owner, cell, t)| <= MAX_SUBSCRIPTIONS_PER_AREA {
      var before, after := LiveIn(rows, owner, cell, t), LiveIn(next, owner, cell, t);
      if owner == s.owner && cell in s.cells {
        assert after <= before + {id};
        SubsetIsSmaller(after, before + {id});
      } else {
        SubsetIsSmaller(after, before);
      }
    }
  }

  lemma StepKeepsQuota(rows: Rows, e: Event)
    requires Quota(rows, e.now)
    ensures Quota(StoreAfter(Step(rows, e), rows), e.now)
  {
    hide Quota, Full;
    match e.call
    case InsertCall(q) =>
      if Step(rows, e).Ok? { WriteKeepsQuota(rows, q.id, Step(rows, e).value[q.id], e.now); }
    case UpdateCall(q) =>
      if Step(rows, e).Ok? { WriteKeepsQuota(rows, q.id, Step(rows, e).value[q.id], e.now); }
    case DeleteCall(id, _, _) => SmallerKeepsQuota(rows, rows - {id}, e.now);
    case ServiceAreaCall(cells) => SmallerKeepsQuota(rows, Notified(rows, cells, e.now), e.now);
  }

  /** At every time from the last call on, no owner has more than ten live subscriptions in any cell. */
  lemma {:induction false} QuotaOverRuns(events: seq<Event>, n: nat, t: Time)
    requires Ordered(events) && n <= |events| && (n > 0 ==> events[n - 1].now <= t)
    ensures Quota(After(events, n), t)
  {
    if n > 0 {
      var e := events[n - 1];
      QuotaOverRuns(events, n - 1, e.now);
      hide Quota, Step;
      StepKeepsQuota(After(events, n - 1), e);
      QuotaLater(After(events, n), e.now, t);
    } else {
      forall owner, cell ensures LiveIn(After(events, 0), owner, cell, t) == {} {
      }
    }
  }

  // ----- where the limit is stricter, and where it is weaker, than a quota on what is stored -----

  lemma LiveAfterWrite(rows: Rows, id: Id, s: Subscription, owner: Owner, cell: Cell, t: Time)
    ensures var counts := owner == s.owner && cell in s.cells && Live(s, t);
            LiveIn(rows[id := s], owner, cell, t) == LiveIn(rows, owner, cell, t) - {id} + if counts then {id} else {}
  {
  }

  /** A write keeps the quota exactly when the new row has ended or each of its cells holds fewer than ten others. */
  lemma WriteKeepsQuotaExactly(rows: Rows, id: Id, s: Subscription, t: Time)
    requires Quota(rows, t)
    ensures Quota(rows[id := s], t) <==>
            (Live(s, t) ==> forall c ::
               c in s.cells ==> |LiveIn(rows, s.owner, c, t) - {id}| < MAX_SUBSCRIPTIONS_PER_AREA)
  {
    var next := rows[id := s];
    forall owner, cell
      ensures var counts := owner == s.owner && cell in s.cells && Live(s, t);
              |LiveIn(next, owner, cell, t)| == |LiveIn(rows, owner, cell, t) - {id}| + (if counts then 1 else 0)
      ensures |LiveIn(rows, owner, cell, t) - {id}| <= |LiveIn(rows, owner, cell, t)|
    {
      LiveAfterWrite(rows, id, s, owner, cell, t);
      SubsetIsSmaller(LiveIn(rows, owner, cell, t) - {id}, LiveIn(rows, owner, cell, t));
    }
    hide LiveIn, Live;
  }

  /** An update counts the copy that it replaces: it is refused exactly when a requested cell holds ten live
      subscriptions of the owner, itself among them or not. What it asks for would have kept the quota exactly when
      it is for a time that has passed, or each requested cell holds fewer than ten others; so always when its cells
      are among those of the live row that it replaces. */
  lemma UpdateCountsItself(rows: Rows, q: Request, asked: Time, now: Time, version: Version)
    requires Quota(rows, now) && q.id in rows && rows[q.id].owner == q.owner && q.version == Some(rows[q.id].version)
    requires Adjusted(asked, q.range, Some(rows[q.id].range)).Ok?
    ensures Update(rows, q, asked, now, version) == Err(Exhausted) <==>
            exists c :: c in q.cells && |LiveIn(rows, q.owner, c, now)| == MAX_SUBSCRIPTIONS_PER_AREA
    ensures var range := Adjusted(asked, q.range, Some(rows[q.id].range)).value;
            var s := Subscription(q.owner, q.url, 0, q.cells, range, version);
            && (Quota(rows[q.id := s], now) <==>
                  (Live(s, now) ==> forall c ::
                     c in q.cells ==> |LiveIn(rows, q.owner, c, now) - {q.id}| < MAX_SUBSCRIPTIONS_PER_AREA))
            && (Live(rows[q.id], now) && q.cells <= rows[q.id].cells ==> Quota(rows[q.id := s], now))
  {
    var range := Adjusted(asked, q.range, Some(rows[q.id].range)).value;
    var s := Subscription(q.owner, q.url, 0, q.cells, range, version);
    hide Adjusted;
    WriteKeepsQuotaExactly(rows, q.id, s, now);
    if Live(rows[q.id], now) && q.cells <= rows[q.id].cells {
      InPlaceKeepsQuota(rows, q.id, s, now);
    }
    hide Live, LiveIn;
  }

  lemma InPlaceKeepsQuota(rows: Rows, id: Id, s: Subscription, now: Time)
    requires Quota(rows, now) && id in rows && rows[id].owner == s.owner
    requires Live(rows[id], now) && s.cells <= rows[id].cells
    ensures Quota(rows[id := s], now)
  {
    SmallerKeepsQuota(rows, rows[id := s], now);
  }

  ghost predicate StoredQuota(rows: Rows) {
    forall owner, cell :: |StoredIn(rows, owner, cell)| <= MAX_SUBSCRIPTIONS_PER_AREA
  }

  lemma StoredAfterInsert(rows: Rows, id: Id, s: Subscription, owner: Owner, cell: Cell)
    requires id !in rows
    ensures var after := StoredIn(rows[id := s], owner, cell);
            |after| == |StoredIn(rows, owner, cell)| + (if owner == s.owner && cell in s.cells then 1 else 0)
  {
    var before := StoredIn(rows, owner, cell);
    assert StoredIn(rows[id := s], owner, cell) ==
      if owner == s.owner && cell in s.cells then before + {id} else before;
  }

  /** Expired subscriptions are not counted, so an insertion takes the number stored in a cell above ten exactly when
      a requested cell holds ten already, some of them expired. */
  lemma InsertKeepsStoredQuota(rows: Rows, q: Request, asked: Time, now: Time, version: Version)
    requires StoredQuota(rows) && Insert(rows, q, asked, now, version).Ok?
    ensures StoredQuota(Insert(rows, q, asked, now, version).value) <==>
            forall c :: c in q.cells ==> |StoredIn(rows, q.owner, c)| < MAX_SUBSCRIPTIONS_PER_AREA
  {
    var after := Insert(rows, q, asked, now, version).value;
    var s := after[q.id];
    assert after == rows[q.id := s];
    hide StoredIn, Adjusted, Full;
    forall owner, cell
      ensures |StoredIn(after, owner, cell)| ==
              |StoredIn(rows, owner, cell)| + (if owner == s.owner && cell in s.cells then 1 else 0)
    {
      StoredAfterInsert(rows, q.id, s, owner, cell);
    }
  }

  lemma StoredAfterWrite(rows: Rows, id: Id, s: Subscription, owner: Owner, cell: Cell)
    ensures StoredIn(rows[id := s], owner, cell) ==
            StoredIn(rows, owner, cell) - {id} + (if owner == s.owner && cell in s.cells then {id} else {})
  {
  }

  /** An update that moves cells can break that quota as well: it keeps it exactly when each requested cell holds fewer
      than ten other subscriptions of the owner. */
  lemma UpdateKeepsStoredQuota(rows: Rows, q: Request, asked: Time, now: Time, version: Version)
    requires StoredQuota(rows) && Update(rows, q, asked, now, version).Ok?
    ensures StoredQuota(Update(rows, q, asked, now, version).value) <==>
            forall c :: c in q.cells ==> |StoredIn(rows, q.owner, c) - {q.id}| < MAX_SUBSCRIPTIONS_PER_AREA
  {
    var after := Update(rows, q, asked, now, version).value;
    var s := after[q.id];
    assert after == rows[q.id := s];
    hide StoredIn, Adjusted, Full;
    forall owner, cell
      ensures |StoredIn(after, owner, cell)| ==
              |StoredIn(rows, owner, cell) - {q.id}| + (if owner == s.owner && cell in s.cells then 1 else 0)
      ensures |StoredIn(rows, owner, cell) - {q.id}| <= |StoredIn(rows, owner, cell)|
    {
      StoredAfterWrite(rows, q.id, s, owner, cell);
      SubsetIsSmaller(StoredIn(rows, owner, cell) - {q.id}, StoredIn(rows, owner, cell));
    }
  }

  /** What a call asks the cells to hold: room for one more beside the other subscriptions of the owner. */
  ghost predicate Room(rows: Rows, e: Event) {
    (e.call.InsertCall? || e.call.UpdateCall?) && Step(rows, e).Ok? ==>
      forall c :: c in e.call.q.cells ==>
        |StoredIn(rows, e.call.q.owner, c) - {e.call.q.id}| < MAX_SUBSCRIPTIONS_PER_AREA
  }

  lemma InsertIsNew(rows: Rows, q: Request, asked: Time, now: Time, version: Version)
    requires Insert(rows, q, asked, now, version).Ok?
    ensures forall c :: StoredIn(rows, q.owner, c) - {q.id} == StoredIn(rows, q.owner, c)
  {
    hide Adjusted, Full;
  }

  lemma FewerKeepStoredQuota(rows: Rows, after: Rows)
    requires StoredQuota(rows)
    requires forall owner, cell :: StoredIn(after, owner, cell) <= StoredIn(rows, owner, cell)
    ensures StoredQuota(after)
  {
    forall owner, cell ensures |StoredIn(after, owner, cell)| <= MAX_SUBSCRIPTIONS_PER_AREA {
      SubsetIsSmaller(StoredIn(after, owner, cell), StoredIn(rows, owner, cell));
    }
  }

  lemma StepKeepsStoredQuota(rows: Rows, e: Event)
    requires StoredQuota(rows)
    ensures StoredQuota(StoreAfter(Step(rows, e), rows)) <==> Room(rows, e)
  {
    hide StoredQuota, Insert, Update;
    if Step(rows, e).Ok? {
      match e.call
      case InsertCall(q) =>
        InsertIsNew(rows, q, e.asked, e.now, e.version);
        InsertKeepsStoredQuota(rows, q, e.asked, e.now, e.version);
      case UpdateCall(q) => UpdateKeepsStoredQuota(rows, q, e.asked, e.now, e.version);
      case DeleteCall(id, _, _) => FewerKeepStoredQuota(rows, rows - {id});
      case ServiceAreaCall(cells) => FewerKeepStoredQuota(rows, Notified(rows, cells, e.now));
    }
  }

  ghost predicate StoredQuotaAt(events: seq<Event>, n: nat)
    requires n <= |events|
  {
    StoredQuota(After(events, n))
  }

  ghost predicate RoomAt(events: seq<Event>, n: nat)
    requires n < |events|
  {
    Room(After(events, n), events[n])
  }

  lemma TurnKeepsStoredQuota(events: seq<Event>, n: nat)
    requires n < |events| && StoredQuotaAt(events, n)
    ensures StoredQuotaAt(events, n + 1) <==> RoomAt(events, n)
  {
    hide Step, StoredQuota, Room;
    StepKeepsStoredQuota(After(events, n), events[n]);
  }

  /** At all points of a run an owner has at most ten rows in a cell, if and only if every insertion and update that
      commits finds room; deletions and changes of service areas do no harm. */
  lemma {:induction false} StoredQuotaOverRuns(events: seq<Event>, n: nat)
    requires n <= |events|
    ensures (forall k :: 0 <= k <= n ==> StoredQuotaAt(events, k)) <==> (forall k :: 0 <= k < n ==> RoomAt(events, k))
  {
    hide StoredQuotaAt, RoomAt, After;
    if n == 0 {
      NothingStored(events);
    } else {
      StoredQuotaOverRuns(events, n - 1);
      if StoredQuotaAt(events, n - 1) {
        TurnKeepsStoredQuota(events, n - 1);
      }
    }
  }

  lemma NothingStored(events: seq<Event>)
    ensures StoredQuotaAt(events, 0)
  {
    forall owner, cell ensures StoredIn(After(events, 0), owner, cell) == {} {
    }
  }

  /** Over runs the number stored has no bound: `n` subscriptions, each inserted when the one before has expired. */
  function Successive(n: nat): (events: seq<Event>)
    ensures |events| == n && Ordered(events)
  {
    seq(n, i => SuccessiveInsert(i))
  }

  function SuccessiveInsert(i: int): Event {
    var t := i * (MAX_SUBSCRIPTION_DURATION + 1);
    var id := if i < 0 then "" else seq(i, _ => 'x');
    Event(InsertCall(Request(id, "o", "u", {0}, Range(None, None), None)), t, t, "v")
  }

  /** The owner has `k` subscriptions, all in cell 0 only, all expired by the time of the next event. */
  ghost predicate AllExpired(rows: Rows, k: nat) {
    && |StoredIn(rows, "o", 0)| == k
    && forall id :: id in rows ==>
         && |id| < k && rows[id].owner == "o" && rows[id].cells == {0}
         && !Live(rows[id], k * (MAX_SUBSCRIPTION_DURATION + 1))
  }

  lemma SuccessiveStep(rows: Rows, k: nat)
    requires AllExpired(rows, k)
    ensures AllExpired(StoreAfter(Step(rows, SuccessiveInsert(k)), rows), k + 1)
  {
    var e := SuccessiveInsert(k);
    var q := e.call.q;
    assert LiveIn(rows, "o", 0, e.now) == {};
    assert !Full(rows, "o", {0}, e.now);
    var s := Subscription("o", "u", 0, {0}, Range(Some(e.now), Some(e.now + MAX_SUBSCRIPTION_DURATION)), "v");
    StoredAfterInsert(rows, q.id, s, "o", 0);
    hide StoredIn, Full;
    assert Step(rows, e) == Ok(rows[q.id := s]);
  }

  lemma {:induction false} SuccessiveRun(events: seq<Event>, k: nat)
    requires k <= |events| && forall i :: 0 <= i < k ==> events[i] == SuccessiveInsert(i)
    ensures AllExpired(After(events, k), k)
  {
    hide Step;
    if k == 0 {
      assert StoredIn(map[], "o", 0) == {};
    } else {
      SuccessiveRun(events, k - 1);
      SuccessiveStep(After(events, k - 1), k - 1);
    }
  }

  lemma StoredIsUnbounded(n: nat)
    ensures |StoredIn(After(Successive(n), n), "o", 0)| == n
  {
    SuccessiveRun(Successive(n), n);
  }

  /** Ten expired subscriptions in one cell, and an eleventh that an update moves there. */
  function MovingRun(): (events: seq<Event>)
    ensures |events| == 12
  {
    var t := 10 * (MAX_SUBSCRIPTION_DURATION + 1);
    seq(12, i =>
      if i < 10 then SuccessiveInsert(i)
      else if i == 10 then Event(InsertCall(Request(OTHER, "o", "u", {1}, Range(None, None), None)), t, t, "v")
      else Event(UpdateCall(Request(OTHER, "o", "u", {0}, Range(None, None), Some("v"))), t, t, "w"))
  }

  const OTHER: Id := "xxxxxxxxxx"

  lemma ElevenRows(ten: Rows, s: Subscription)
    requires AllExpired(ten, 10) && s.owner == "o" && s.cells == {1}
    ensures OTHER !in ten && StoredQuota(ten[OTHER := s])
  {
    var eleven := ten[OTHER := s];
    forall owner, cell ensures |StoredIn(eleven, owner, cell)| <= MAX_SUBSCRIPTIONS_PER_AREA {
      StoredAfterWrite(ten, OTHER, s, owner, cell);
      if owner != "o" || cell != 0 {
        assert StoredIn(ten, owner, cell) == {};
        SubsetIsSmaller(StoredIn(eleven, owner, cell), {OTHER});
      } else {
        assert StoredIn(eleven, "o", 0) == StoredIn(ten, "o", 0);
      }
    }
  }

  lemma InsertOther(ten: Rows, t: Time)
    requires AllExpired(ten, 10) && t == 10 * (MAX_SUBSCRIPTION_DURATION + 1)
    ensures Insert(ten, Request(OTHER, "o", "u", {1}, Range(None, None), None), t, t, "v") ==
            Ok(ten[OTHER := Subscription("o", "u", 0, {1}, Range(Some(t), Some(t + MAX_SUBSCRIPTION_DURATION)), "v")])
  {
    assert LiveIn(ten, "o", 1, t) == {};
    assert !Full(ten, "o", {1}, t);
  }

  lemma MoveOther(ten: Rows, s: Subscription, t: Time)
    requires AllExpired(ten, 10) && t == 10 * (MAX_SUBSCRIPTION_DURATION + 1)
    requires s.owner == "o" && s.cells == {1} && s.version == "v"
    requires s.range == Range(Some(t), Some(t + MAX_SUBSCRIPTION_DURATION))
    ensures Update(ten[OTHER := s], Request(OTHER, "o", "u", {0}, Range(None, None), Some("v")), t, t, "w") ==
            Ok(ten[OTHER := s][OTHER := Subscription("o", "u", 0, {0}, s.range, "w")])
  {
    var eleven := ten[OTHER := s];
    assert LiveIn(eleven, "o", 0, t) == {};
    assert !Full(eleven, "o", {0}, t);
  }

  lemma MovingEvents()
    ensures var events, t := MovingRun(), 10 * (MAX_SUBSCRIPTION_DURATION + 1);
            && (forall i :: 0 <= i < 10 ==> events[i] == SuccessiveInsert(i))
            && events[10] == Event(InsertCall(Request(OTHER, "o", "u", {1}, Range(None, None), None)), t, t, "v")
            && events[11] == Event(UpdateCall(Request(OTHER, "o", "u", {0}, Range(None, None), Some("v"))), t, t, "w")
  {
  }

  lemma MovingIsOrdered()
    ensures Ordered(MovingRun())
  {
    MovingEvents();
    hide MovingRun;
  }

  lemma UpdateBreaksStoredQuota()
    ensures Ordered(MovingRun())
    ensures StoredQuota(After(MovingRun(), 11)) && !StoredQuota(After(MovingRun(), 12))
  {
    hide Insert, Update, AllExpired, StoredQuota, After, MovingRun, SuccessiveInsert, Ordered;
    var events, t := MovingRun(), 10 * (MAX_SUBSCRIPTION_DURATION + 1);
    MovingEvents();
    MovingIsOrdered();
    SuccessiveRun(events, 10);
    var ten := After(events, 10);
    var range := Range(Some(t), Some(t + MAX_SUBSCRIPTION_DURATION));
    var before, moved := Subscription("o", "u", 0, {1}, range, "v"), Subscription("o", "u", 0, {0}, range, "w");
    InsertOther(ten, t);
    MoveOther(ten, before, t);
    TwoSteps(events, 10, ten[OTHER := before], ten[OTHER := before][OTHER := moved]);
    ElevenRows(ten, before);
    ElevenInOneCell(ten, before, moved);
  }

  lemma TwoSteps(events: seq<Event>, n: nat, one: Rows, two: Rows)
    requires n + 2 <= |events|
    requires Step(After(events, n), events[n]) == Ok(one) && Step(one, events[n + 1]) == Ok(two)
    ensures After(events, n + 1) == one && After(events, n + 2) == two
  {
    hide Step;
    assert After(events, n + 1) == one;
  }

  lemma ElevenInOneCell(ten: Rows, before: Subscription, moved: Subscription)
    requires AllExpired(ten, 10) && before.cells == {1} && moved.owner == "o" && moved.cells == {0}
    ensures !StoredQuota(ten[OTHER := before][OTHER := moved])
  {
    assert ten[OTHER := before][OTHER := moved] == ten[OTHER := moved];
    StoredAfterInsert(ten, OTHER, moved, "o", 0);
    assert |StoredIn(ten[OTHER := moved], "o", 0)| == 11;
  }

  // ----- notification indices -----

  /** The index of a subscription falls exactly when it is updated after a notification. */
  lemma IndexFallsExactly(rows: Rows, e: Event, id: Id)
    requires id in rows && id in StoreAfter(Step(rows, e), rows)
    ensures StoreAfter(Step(rows, e), rows)[id].index < rows[id].index <==>
            Step(rows, e).Ok? && e.call.UpdateCall? && e.call.q.id == id && rows[id].index > 0
  {
    hide Adjusted, Full;
  }

  predicate StoredAt(events: seq<Event>, n: nat, id: Id)
    requires n <= |events|
  {
    id in After(events, n)
  }

  function IndexAt(events: seq<Event>, n: nat, id: Id): int
    requires n <= |events| && StoredAt(events, n, id)
  {
    After(events, n)[id].index
  }

  predicate UpdatedAt(events: seq<Event>, n: nat, id: Id)
    requires n < |events|
  {
    Step(After(events, n), events[n]).Ok? && events[n].call.UpdateCall? && events[n].call.q.id == id
  }

  /** So over a run it never falls while the subscription is stored and not updated. */
  lemma {:induction false} IndicesNeverFall(events: seq<Event>, i: nat, j: nat, id: Id)
    requires i <= j <= |events| && forall k :: i <= k <= j ==> StoredAt(events, k, id)
    requires forall k :: i <= k < j ==> !UpdatedAt(events, k, id)
    ensures IndexAt(events, i, id) <= IndexAt(events, j, id)
  {
    if i < j {
      IndicesNeverFall(events, i, j - 1, id);
      assert StoredAt(events, j - 1, id) && StoredAt(events, j, id) && !UpdatedAt(events, j - 1, id);
      hide Step;
      IndexFallsExactly(After(events, j - 1), events[j - 1], id);
    }
  }

  /** A subscription that is notified of a service area and then updated. */
  function ForgettingRun(): (events: seq<Event>)
    ensures |events| == 3 && Ordered(events)
  {
    [ Event(InsertCall(Request("a", "o", "u", {0}, Range(None, None), None)), 0, 0, "v"),
      Event(ServiceAreaCall({0}), 1, 1, ""),
      Event(UpdateCall(Request("a", "o", "u", {0}, Range(None, None), Some("v"))), 2, 2, "w") ]
  }

  lemma UpdateForgets()
    ensures StoredAt(ForgettingRun(), 2, "a") && IndexAt(ForgettingRun(), 2, "a") == 1
    ensures StoredAt(ForgettingRun(), 3, "a") && IndexAt(ForgettingRun(), 3, "a") == 0
  {
    var events, day := ForgettingRun(), Range(Some(0), Some(MAX_SUBSCRIPTION_DURATION));
    var s := Subscription("o", "u", 0, {0}, day, "v");
    assert LiveIn(map[], "o", 0, 0) == {};
    assert !Full(map[], "o", {0}, 0);
    assert After(events, 0) == map[];
    assert After(events, 1) == map["a" := s];
    assert 0 in s.cells * {0};
    var told := map["a" := s.(index := 1)];
    assert After(events, 2) == told;
    SubsetIsSmaller(LiveIn(told, "o", 0, 2), {"a"});
    assert !Full(told, "o", {0}, 2);
  }
}
