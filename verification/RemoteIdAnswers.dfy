/** Which answer each remote ID transaction gives, what it writes, and who may change what over runs. */
module RemoteIdAnswers {
  import opened Common
  import Versions
  import opened SubscriptionTimes
  import opened RemoteId

  const DAY := 24 * 3_600_000_000_000
  const FIVE_MINUTES := 300_000_000_000

  predicate TimesAccepted(q: Request, asked: Time, start: Time, end: Time) {
    start <= end <= start + DAY && (q.range.start.Some? ==> asked <= q.range.start.value + FIVE_MINUTES)
  }

  /** The subscriptions of the owner in the cell that have not ended. */
  function Crowd(rows: Rows, owner: Owner, cell: Cell, now: Time): set<Id> {
    set id | id in rows && rows[id].owner == owner && cell in rows[id].cells
             && rows[id].range.end.Some? && now <= rows[id].range.end.value
  }

  /** Some requested cell has ten of them. */
  ghost predicate Crowded(rows: Rows, q: Request, now: Time) {
    exists c :: c in q.cells && |Crowd(rows, q.owner, c, now)| >= 10
  }

  lemma CrowdedExactly(rows: Rows, q: Request, now: Time)
    ensures Full(rows, q.owner, q.cells, now) <==> Crowded(rows, q, now)
  {
    forall c ensures Crowd(rows, q.owner, c, now) == LiveIn(rows, q.owner, c, now) {
    }
    hide Crowd, LiveIn;
  }

  /** The row of a request that is accepted. */
  function Row(q: Request, start: Time, end: Time, version: Version): Subscription {
    Subscription(q.owner, q.url, 0, q.cells, Range(Some(start), Some(end)), version)
  }

  /** The answer to an insertion: with the times for it, an ID that is free and room in its cells, exactly this row is
      added. */
  lemma InsertAnswer(rows: Rows, q: Request, asked: Time, now: Time, version: Version, start: Time, end: Time)
    requires IsStart(asked, q.range, None, start) && IsEnd(q.range, None, start, end)
    ensures var r, timely := Insert(rows, q, asked, now, version), TimesAccepted(q, asked, start, end);
            && (r == Err(BadRequest) <==> !timely)
            && (r == Err(AlreadyExists) <==> timely && q.id in rows)
            && (r == Err(Exhausted) <==> timely && q.id !in rows && Crowded(rows, q, now))
            && (timely && q.id !in rows && !Crowded(rows, q, now) ==>
                  r == Ok(rows[q.id := Row(q, start, end, version)]))
  {
    AdjustedExactly(asked, q.range, None, start, end);
    CrowdedExactly(rows, q, now);
    hide Full, Crowded, Adjusted;
  }

  /** There always are such times. */
  lemma InsertTimes(asked: Time, q: Request) returns (start: Time, end: Time)
    ensures IsStart(asked, q.range, None, start) && IsEnd(q.range, None, start, end)
  {
    start := if q.range.start.Some? then q.range.start.value else asked;
    end := if q.range.end.Some? then q.range.end.value else start + DAY;
  }

  /** The answer to an update: the version presented has to be the current one and the client the owner. Exactly this
      row takes the place of the old one, each time being the one asked for or else the old one. */
  lemma UpdateAnswer(rows: Rows, q: Request, asked: Time, now: Time, version: Version, start: Time, end: Time)
    requires q.id in rows
    requires IsStart(asked, q.range, Some(rows[q.id].range), start)
    requires IsEnd(q.range, Some(rows[q.id].range), start, end)
    ensures var r, timely := Update(rows, q, asked, now, version), TimesAccepted(q, asked, start, end);
            var current, own := q.version == Some(rows[q.id].version), q.owner == rows[q.id].owner;
            && (r == Err(VersionMismatch) <==> !current)
            && (r == Err(PermissionDenied) <==> current && !own)
            && (r == Err(BadRequest) <==> current && own && !timely)
            && (r == Err(Exhausted) <==> current && own && timely && Crowded(rows, q, now))
            && (current && own && timely && !Crowded(rows, q, now) ==>
                  r == Ok(rows[q.id := Row(q, start, end, version)]))
  {
    AdjustedExactly(asked, q.range, Some(rows[q.id].range), start, end);
    CrowdedExactly(rows, q, now);
    hide Full, Crowded, Adjusted;
  }

  lemma UpdateOfNothing(rows: Rows, q: Request, asked: Time, now: Time, version: Version)
    ensures Update(rows, q, asked, now, version) == Err(NotFound) <==> q.id !in rows
    ensures Update(rows, q, asked, now, version) == Err(NilDereference) ==>
              q.id in rows && q.range.start.None? && rows[q.id].range.start.None?
    ensures q.id in rows && (q.range.start.Some? || rows[q.id].range.start.Some?) ==>
              exists start, end :: IsStart(asked, q.range, Some(rows[q.id].range), start)
                                   && IsEnd(q.range, Some(rows[q.id].range), start, end)
  {
    hide Full;
    if q.id in rows {
      AdjustedMissesStart(asked, q.range, Some(rows[q.id].range));
    }
  }

  lemma DeleteAnswer(rows: Rows, id: Id, owner: Owner, version: Option<Version>)
    ensures var r := Delete(rows, id, owner, version);
            && (r == Err(NotFound) <==> id !in rows)
            && (r == Err(VersionMismatch) <==> id in rows && version != Some(rows[id].version))
            && (r == Err(PermissionDenied) <==>
                  id in rows && version == Some(rows[id].version) && owner != rows[id].owner)
            && (id in rows && version == Some(rows[id].version) && owner == rows[id].owner ==> r == Ok(rows - {id}))
  {
  }

  /** A change of a service area raises by one the index of exactly the subscriptions that have a cell of it and have
      not ended. */
  lemma NotifiedExactly(rows: Rows, cells: set<Cell>, now: Time, id: Id)
    ensures var after := Notified(rows, cells, now);
            && after.Keys == rows.Keys
            && (id in rows ==>
                  && after[id] == rows[id].(index := after[id].index)
                  && after[id].index == rows[id].index +
                       if rows[id].cells * cells != {} && rows[id].range.end.Some? && now <= rows[id].range.end.value
                       then 1 else 0)
  {
  }

  // ----- rows belong to their owners -----

  function CallerOf(call: Call): Option<Owner> {
    match call
    case InsertCall(q) => Some(q.owner)
    case UpdateCall(q) => Some(q.owner)
    case DeleteCall(_, owner, _) => Some(owner)
    case ServiceAreaCall(_) => None
  }

  function TargetOf(call: Call): Option<Id> {
    match call
    case InsertCall(q) => Some(q.id)
    case UpdateCall(q) => Some(q.id)
    case DeleteCall(id, _, _) => Some(id)
    case ServiceAreaCall(_) => None
  }

  /** A call that commits is about a row of the caller, or a new one that is the caller's then; other rows stay as they
      are, but for the index when a service area changes. */
  lemma StepIsTheOwners(rows: Rows, e: Event, id: Id)
    requires Step(rows, e).Ok?
    ensures var after := Step(rows, e).value;
            if TargetOf(e.call) == Some(id) then
              && (id in rows ==> Some(rows[id].owner) == CallerOf(e.call))
              && (id in after ==> Some(after[id].owner) == CallerOf(e.call))
              && (id in after <==> !e.call.DeleteCall?)
            else
              && (id in after <==> id in rows)
              && (id in rows ==> after[id] == rows[id].(index := after[id].index))
              && (id in rows && !e.call.ServiceAreaCall? ==> after[id] == rows[id])
  {
    hide Insert, Update, Delete, Notified, Crowded, IsStart, IsEnd;
    match e.call
    case InsertCall(q) =>
      var start, end := InsertTimes(e.asked, q);
      InsertAnswer(rows, q, e.asked, e.now, e.version, start, end);
    case UpdateCall(q) => UpdateIsTheOwners(rows, q, e.asked, e.now, e.version);
    case DeleteCall(i, owner, version) => DeleteAnswer(rows, i, owner, version);
    case ServiceAreaCall(cells) => NotifiedExactly(rows, cells, e.now, id);
  }

  lemma UpdateIsTheOwners(rows: Rows, q: Request, asked: Time, now: Time, version: Version)
    requires Update(rows, q, asked, now, version).Ok?
    ensures var after := Update(rows, q, asked, now, version).value;
            && q.id in rows && rows[q.id].owner == q.owner && q.version == Some(rows[q.id].version)
            && q.id in after && after[q.id].owner == q.owner && after[q.id].version == version
            && after == rows[q.id := after[q.id]]
  {
    hide Full, Adjusted;
  }

  ghost predicate OwnsAt(events: seq<Event>, n: nat, id: Id, owner: Owner)
    requires n <= |events|
  {
    id in After(events, n) && After(events, n)[id].owner == owner
  }

  ghost predicate OwnerDeletes(events: seq<Event>, n: nat, id: Id, owner: Owner)
    requires n < |events|
  {
    && Step(After(events, n), events[n]).Ok? && events[n].call.DeleteCall?
    && events[n].call.id == id && events[n].call.owner == owner
  }

  lemma OwnerGoesOn(events: seq<Event>, n: nat, id: Id, owner: Owner)
    requires n < |events| && OwnsAt(events, n, id, owner) && !OwnerDeletes(events, n, id, owner)
    ensures OwnsAt(events, n + 1, id, owner)
  {
    hide Step;
    if Step(After(events, n), events[n]).Ok? {
      StepIsTheOwners(After(events, n), events[n], id);
    }
  }

  /** A subscription stays stored, and stays its owner's, until the owner deletes it. */
  lemma {:induction false} OwnerIsKept(events: seq<Event>, i: nat, j: nat, id: Id, owner: Owner)
    requires i <= j <= |events| && OwnsAt(events, i, id, owner)
    requires forall k :: i <= k < j ==> !OwnerDeletes(events, k, id, owner)
    ensures OwnsAt(events, j, id, owner)
  {
    hide OwnsAt, OwnerDeletes;
    if i < j {
      OwnerIsKept(events, i, j - 1, id, owner);
      OwnerGoesOn(events, j - 1, id, owner);
    }
  }

  // ----- no lost updates -----

  function VersionsOf(rows: Rows): Versions.Table<Id> {
    map id | id in rows :: rows[id].version
  }

  /** What an event does to the versions. A version that a client sends is never empty. */
  function ChangeOf(rows: Rows, e: Event): Versions.Change<Id> {
    if Step(rows, e).Err? then Versions.Keep else
    match e.call
    case InsertCall(q) => Versions.Put(q.id, "", e.version)
    case UpdateCall(q) => Versions.Put(q.id, if q.version.Some? then q.version.value else "", e.version)
    case DeleteCall(id, _, _) => Versions.Remove(id)
    case ServiceAreaCall(_) => Versions.Keep
  }

  function ChangesOf(events: seq<Event>): nat -> Versions.Change<Id> {
    (n: nat) => if n < |events| then ChangeOf(After(events, n), events[n]) else Versions.Keep
  }

  ghost predicate NamedVersions(rows: Rows) {
    forall id :: id in rows ==> rows[id].version != ""
  }

  lemma StepIsRight(rows: Rows, e: Event)
    requires NamedVersions(rows)
    ensures VersionsOf(StoreAfter(Step(rows, e), rows)) == Versions.Applied(VersionsOf(rows), ChangeOf(rows, e))
    ensures Versions.Right(VersionsOf(rows), ChangeOf(rows, e))
    ensures e.version != "" ==> NamedVersions(StoreAfter(Step(rows, e), rows))
  {
    hide Insert, Update, Delete, Notified, Crowded, IsStart, IsEnd;
    if Step(rows, e).Ok? {
      match e.call
      case InsertCall(q) =>
        var start, end := InsertTimes(e.asked, q);
        InsertAnswer(rows, q, e.asked, e.now, e.version, start, end);
      case UpdateCall(q) => UpdateIsTheOwners(rows, q, e.asked, e.now, e.version);
      case DeleteCall(id, owner, version) => DeleteAnswer(rows, id, owner, version);
      case ServiceAreaCall(cells) =>
        var after := Notified(rows, cells, e.now);
        forall id
          ensures after.Keys == rows.Keys && (id in rows ==> after[id] == rows[id].(index := after[id].index))
        {
          NotifiedExactly(rows, cells, e.now, id);
        }
    }
  }

  /** New versions are nonempty, and have not been given before. */
  ghost predicate FreshVersions(events: seq<Event>) {
    forall n :: 0 <= n < |events| ==>
      events[n].version != "" && events[n].version !in Versions.Issued(ChangesOf(events), n)
  }

  lemma {:induction false} VersionsOverRuns(events: seq<Event>, n: nat)
    requires n <= |events| && forall k :: 0 <= k < |events| ==> events[k].version != ""
    ensures Versions.After(ChangesOf(events), n) == VersionsOf(After(events, n)) && NamedVersions(After(events, n))
  {
    hide Step, ChangeOf, VersionsOf, NamedVersions, Versions.Applied, Versions.Right;
    if n == 0 {
      assert VersionsOf(map[]) == map[] && NamedVersions(map[]) by {
        NoVersions();
      }
    } else {
      VersionsOverRuns(events, n - 1);
      StepIsRight(After(events, n - 1), events[n - 1]);
    }
  }

  lemma NoVersions()
    ensures VersionsOf(map[]) == map[] && NamedVersions(map[])
  {
  }

  lemma ChangeAt(events: seq<Event>, n: nat)
    ensures var c := ChangesOf(events)(n);
            && (n >= |events| ==> c == Versions.Keep)
            && !c.Rewrite? && (c.Put? ==> n < |events| && c.version == events[n].version)
  {
    hide Step, After;
  }

  lemma VersionsOfRun(events: seq<Event>)
    requires FreshVersions(events)
    ensures Versions.AllRight(ChangesOf(events)) && Versions.Fresh(ChangesOf(events))
  {
    hide After, ChangeOf, Versions.Right, Versions.After, Versions.Issued;
    var changes := ChangesOf(events);
    forall n: nat ensures Versions.RightAt(changes, n) && Versions.FreshAt(changes, n) {
      ChangeAt(events, n);
      if n < |events| {
        VersionsOverRuns(events, n);
        StepIsRight(After(events, n), events[n]);
      } else {
        KeepIsRight(Versions.After(changes, n));
      }
    }
  }

  lemma KeepIsRight(table: Versions.Table<Id>)
    ensures Versions.Right(table, Versions.Keep)
  {
  }

  predicate Commits(events: seq<Event>, n: nat)
    requires n < |events|
  {
    Step(After(events, n), events[n]).Ok?
  }

  lemma CommittedUpdate(events: seq<Event>, n: nat)
    requires n < |events| && Commits(events, n) && events[n].call.UpdateCall? && events[n].call.q.version.Some?
    ensures ChangesOf(events)(n) ==
            Versions.Put(events[n].call.q.id, events[n].call.q.version.value, events[n].version)
  {
    hide Step, After;
  }

  /** Of two updates of one subscription that present the same version, at most one commits. */
  lemma NoLostUpdates(events: seq<Event>, i: nat, j: nat)
    requires FreshVersions(events) && i < j < |events|
    requires events[i].call.UpdateCall? && events[j].call.UpdateCall?
    requires events[i].call.q.id == events[j].call.q.id && events[i].call.q.version == events[j].call.q.version
    ensures !(Commits(events, i) && Commits(events, j))
  {
    hide Commits, ChangesOf, FreshVersions, Versions.AllRight, Versions.Fresh;
    if Commits(events, i) && Commits(events, j) {
      VersionsOfRun(events);
      CommittedPresents(events, i);
      CommittedPresents(events, j);
      CommittedUpdate(events, i);
      CommittedUpdate(events, j);
      Versions.NoLostPuts(ChangesOf(events), i, j);
    }
  }

  lemma CommittedPresents(events: seq<Event>, n: nat)
    requires FreshVersions(events) && n < |events| && Commits(events, n) && events[n].call.UpdateCall?
    ensures events[n].call.q.version.Some? && events[n].call.q.version.value != ""
  {
    VersionsOverRuns(events, n);
    hide After, Update;
    var q := events[n].call.q;
    UpdateIsTheOwners(After(events, n), q, events[n].asked, events[n].now, events[n].version);
  }
}
