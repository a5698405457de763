/** Which answer each transaction of the strategic coordination service gives, and what it writes, field by field. */
module ScdAnswers {
  import opened Common
  import opened Volumes
  import opened SubscriptionTimes
  import opened Subscribers
  import opened ScdModel

  const DAY := 24 * 3_600_000_000_000
  const FIVE_MINUTES := 300_000_000_000

  // ----- volumes that touch -----

  /** At some instant, ends included; a missing bound excludes nothing. */
  predicate TimesTouch(start: Option<Time>, end: Option<Time>, v: Box) {
    && (start.Some? && v.end.Some? ==> start.value <= v.end.value)
    && (v.start.Some? && end.Some? ==> v.start.value <= end.value)
  }

  ghost predicate CellsMeet(a: set<Cell>, b: set<Cell>) {
    exists c :: c in a && c in b
  }

  ghost predicate Near(a: Box, v: Box) {
    CellsMeet(a.cells, v.cells) && TimesTouch(a.start, a.end, v)
  }

  predicate AltitudesTouch(a: Box, v: Box) {
    && (a.lo.Some? && v.hi.Some? ==> a.lo.value <= v.hi.value)
    && (v.lo.Some? && a.hi.Some? ==> v.lo.value <= a.hi.value)
  }

  lemma OverlapsExactly(a: Box, v: Box)
    ensures Overlaps(a, v) <==> Near(a, v) && AltitudesTouch(a, v)
    ensures InVolume(a.cells, Range(a.start, a.end), v) <==> Near(a, v)
  {
    CellsMeetExactly(a.cells, v.cells);
  }

  lemma CellsMeetExactly(a: set<Cell>, b: set<Cell>)
    ensures a * b != {} <==> CellsMeet(a, b)
  {
    if CellsMeet(a, b) {
      var c :| c in a && c in b;
      assert c in a * b;
    } else {
      forall c ensures c !in a * b {
      }
    }
  }

  predicate Holds(b: Box, c: Cell, z: real, t: Time) {
    && c in b.cells
    && (b.lo.Some? ==> b.lo.value <= z) && (b.hi.Some? ==> z <= b.hi.value)
    && (b.start.Some? ==> b.start.value <= t) && (b.end.Some? ==> t <= b.end.value)
  }

  predicate Proper(b: Box) {
    && (b.lo.Some? && b.hi.Some? ==> b.lo.value <= b.hi.value)
    && (b.start.Some? && b.end.Some? ==> b.start.value <= b.end.value)
  }

  /** Two volumes overlap exactly when some cell, altitude and instant is in both. */
  lemma OverlapIsCommonPoint(a: Box, v: Box)
    requires Proper(a) && Proper(v)
    ensures Overlaps(a, v) <==> exists c, z, t :: Holds(a, c, z, t) && Holds(v, c, z, t)
  {
    OverlapsExactly(a, v);
    if c, z, t :| Holds(a, c, z, t) && Holds(v, c, z, t) {
      assert c in a.cells && c in v.cells;
    }
    if Overlaps(a, v) {
      var c :| c in a.cells && c in v.cells;
      var z := CommonAltitude(a, v);
      var t := CommonInstant(a, v);
      assert Holds(a, c, z, t) && Holds(v, c, z, t);
    }
  }

  lemma CommonAltitude(a: Box, v: Box) returns (z: real)
    requires Proper(a) && Proper(v) && AltitudesTouch(a, v)
    ensures (a.lo.Some? ==> a.lo.value <= z) && (a.hi.Some? ==> z <= a.hi.value)
    ensures (v.lo.Some? ==> v.lo.value <= z) && (v.hi.Some? ==> z <= v.hi.value)
  {
    if a.lo.Some? && (v.lo.None? || v.lo.value <= a.lo.value) {
      z := a.lo.value;
    } else if v.lo.Some? {
      z := v.lo.value;
    } else if a.hi.Some? && (v.hi.None? || a.hi.value <= v.hi.value) {
      z := a.hi.value;
    } else if v.hi.Some? {
      z := v.hi.value;
    } else {
      z := 0.0;
    }
  }

  lemma CommonInstant(a: Box, v: Box) returns (t: Time)
    requires Proper(a) && Proper(v) && TimesTouch(a.start, a.end, v)
    ensures (a.start.Some? ==> a.start.value <= t) && (a.end.Some? ==> t <= a.end.value)
    ensures (v.start.Some? ==> v.start.value <= t) && (v.end.Some? ==> t <= v.end.value)
  {
    if a.start.Some? && (v.start.None? || v.start.value <= a.start.value) {
      t := a.start.value;
    } else if v.start.Some? {
      t := v.start.value;
    } else if a.end.Some? && (v.end.None? || a.end.value <= v.end.value) {
      t := a.end.value;
    } else if v.end.Some? {
      t := v.end.value;
    } else {
      t := 0;
    }
  }

  // ----- putting an intent -----

  ghost predicate UrlAccepted(cfg: Config, url: string) {
    cfg.enableHttp || cfg.validBaseUrl(url)
  }

  /** A union of volumes with a covering. */
  ghost predicate IsUnion(extents: seq<Volume4D>, u: Box) {
    Union(extents) == Ok(Volume4D(Some(Volume3D(u.lo, u.hi, Some(Ok(u.cells)))), u.start, u.end))
  }

  /** The request is right whatever is stored, and is about the volume `u`. */
  ghost predicate FitIntent(cfg: Config, ovn: Ovn, p: IntentParams, now: Time, u: Box) {
    && p.baseUrl != "" && UrlAccepted(cfg, p.baseUrl)
    && p.state in ["Accepted", "Activated", "Nonconforming", "Contingent"]
    && IsUnion(p.extents, u)
    && u.start.Some? && u.end.Some? && u.start.value <= u.end.value && now <= u.end.value
    && (ovn == "" ==> p.state == "Accepted")
  }

  lemma CheckedExactly(cfg: Config, ovn: Ovn, p: IntentParams, now: Time)
    ensures var r := CheckIntentParams(cfg, ovn, p, now);
            && (forall u :: r == Ok(u) <==> FitIntent(cfg, ovn, p, now, u))
            && (r.Err? ==> r == Err(BadRequest))
  {
  }

  /** The client owns the intent and names its current version, or asks for a new one that is not there yet. */
  predicate RightOwner(st: Store, id: Id, manager: Manager, ovn: Ovn) {
    if id in st.intents then st.intents[id].manager == manager && st.intents[id].ovn == ovn else ovn == ""
  }

  predicate Contains(s: ScdSubscription, u: Box)
    requires u.start.Some? && u.end.Some?
  {
    && (s.range.start.Some? ==> s.range.start.value <= u.start.value)
    && (s.range.end.Some? ==> u.end.value <= s.range.end.value)
    && u.cells <= s.area
  }

  /** A subscription can be made, or the one named is there, is the client's, and is implicit or contains the volume. */
  ghost predicate CanAttach(
    subs: map<Id, ScdSubscription>, cfg: Config, manager: Manager, p: IntentParams, u: Box)
    requires u.start.Some? && u.end.Some?
  {
    if p.subscriptionId == "" then p.newSubscriptionUrl != "" && UrlAccepted(cfg, p.newSubscriptionUrl)
    else
      && p.subscriptionId in subs && subs[p.subscriptionId].manager == manager
      && (subs[p.subscriptionId].implicit || Contains(subs[p.subscriptionId], u))
  }

  predicate WantsConstraints(subs: map<Id, ScdSubscription>, p: IntentParams) {
    if p.subscriptionId == "" then p.newSubscriptionForConstraints
    else p.subscriptionId in subs && subs[p.subscriptionId].notifyForConstraints
  }

  ghost predicate IntentMissing(st: Store, u: Box, key: seq<Ovn>, id: Id) {
    && id in st.intents && st.intents[id].ovn !in key
    && Near(st.intents[id].box, u) && AltitudesTouch(st.intents[id].box, u)
  }

  ghost predicate ConstraintMissing(st: Store, u: Box, key: seq<Ovn>, id: Id) {
    id in st.constraints && st.constraints[id].ovn !in key && Near(st.constraints[id].box, u)
  }

  predicate NeedsKey(p: IntentParams) {
    p.state == "Accepted" || p.state == "Activated"
  }

  ghost predicate SomeMissing(st: Store, p: IntentParams, u: Box) {
    || (exists id :: IntentMissing(st, u, p.key, id))
    || (WantsConstraints(st.subscriptions, p) && exists id :: ConstraintMissing(st, u, p.key, id))
  }

  /** What a client is told of an OVN that it does not have: its own as it is, of another's only that there is one. */
  ghost predicate Shown(shown: Ovn, owner: Manager, client: Manager, ovn: Ovn) {
    shown == (if owner == client then ovn else "Available from USS")
  }

  /** Exactly the missing intents, and the missing constraints if the subscription wants them. */
  ghost predicate ListsMissing(st: Store, manager: Manager, p: IntentParams, u: Box, e: Error) {
    && e.MissingOvns?
    && (forall id :: id in e.intents <==> IntentMissing(st, u, p.key, id))
    && (forall id :: id in e.intents ==>
          Shown(e.intents[id], st.intents[id].manager, manager, st.intents[id].ovn))
    && (forall id :: id in e.constraints <==>
          WantsConstraints(st.subscriptions, p) && ConstraintMissing(st, u, p.key, id))
    && (forall id :: id in e.constraints ==>
          Shown(e.constraints[id], st.constraints[id].manager, manager, st.constraints[id].ovn))
  }

  lemma MissingExactly(st: Store, manager: Manager, u: Box, key: seq<Ovn>)
    ensures var m := MissingIntents(st.intents, manager, u, key);
            var c := MissingConstraints(st.constraints, manager, u, key);
            && (forall id :: id in m <==> IntentMissing(st, u, key, id))
            && (forall id :: id in m ==> Shown(m[id], st.intents[id].manager, manager, st.intents[id].ovn))
            && (forall id :: id in c <==> ConstraintMissing(st, u, key, id))
            && (forall id :: id in c ==> Shown(c[id], st.constraints[id].manager, manager, st.constraints[id].ovn))
  {
    forall id | id in st.intents
      ensures Overlaps(st.intents[id].box, u) <==> Near(st.intents[id].box, u) && AltitudesTouch(st.intents[id].box, u)
    {
      OverlapsExactly(st.intents[id].box, u);
    }
    forall id | id in st.constraints
      ensures ConstraintInVolume(st.constraints[id], u) <==> Near(st.constraints[id].box, u)
    {
      OverlapsExactly(st.constraints[id].box, u);
    }
    hide Overlaps, ConstraintInVolume, Near, AltitudesTouch;
  }

  lemma KeyExactly(st: Store, manager: Manager, p: IntentParams, u: Box)
    ensures var r := CheckKey(st.intents, st.constraints, manager, p, u, WantsConstraints(st.subscriptions, p));
            && (r.Ok? <==> u.cells != {} && !SomeMissing(st, p, u))
            && (u.cells == {} ==> r == Err(BadRequest))
            && (r.Err? && u.cells != {} ==> ListsMissing(st, manager, p, u, r.error))
  {
    MissingExactly(st, manager, u, p.key);
    hide MissingIntents, MissingConstraints, IntentMissing, ConstraintMissing, Shown, WantsConstraints;
    var m, c := MissingIntents(st.intents, manager, u, p.key), MissingConstraints(st.constraints, manager, u, p.key);
    assert m != map[] <==> exists id :: id in m;
    assert c != map[] <==> exists id :: id in c;
  }

  lemma AttachExactly(
    subs: map<Id, ScdSubscription>, cfg: Config, manager: Manager, p: IntentParams, u: Box, env: Env)
    requires u.start.Some? && u.end.Some?
    ensures var r := AttachSubscription(subs, cfg, manager, p, u, env);
            && (r.Ok? <==> CanAttach(subs, cfg, manager, p, u))
            && (r == Err(PermissionDenied) <==>
                  p.subscriptionId != "" && p.subscriptionId in subs && subs[p.subscriptionId].manager != manager)
            && (r.Err? ==> r == Err(PermissionDenied) || r == Err(BadRequest))
            && (r.Ok? ==> r.value.subscriptions[r.value.id].notifyForConstraints == WantsConstraints(subs, p))
  {
  }

  /** The answer to a request for an intent in the volume `u`. What a client may not change it may not change first of
      all; what it may change must be as it thinks it is; then the subscription has to do, and last the key. */
  lemma PutIntentAnswer(
    st: Store, cfg: Config, id: Id, manager: Manager, ovn: Ovn, p: IntentParams, env: Env, u: Box)
    requires FitIntent(cfg, ovn, p, env.now, u)
    ensures var r := PutIntent(st, cfg, id, manager, ovn, p, env);
            && (r.Ok? <==>
                  && RightOwner(st, id, manager, ovn) && CanAttach(st.subscriptions, cfg, manager, p, u)
                  && (NeedsKey(p) ==> u.cells != {} && !SomeMissing(st, p, u)))
            && (r == Err(PermissionDenied) <==>
                  if id in st.intents && st.intents[id].manager != manager then true
                  else
                    && RightOwner(st, id, manager, ovn)
                    && p.subscriptionId != "" && p.subscriptionId in st.subscriptions
                    && st.subscriptions[p.subscriptionId].manager != manager)
            && (r == Err(VersionMismatch) <==>
                  id in st.intents && st.intents[id].manager == manager && st.intents[id].ovn != ovn)
            && (r == Err(NotFound) <==> id !in st.intents && ovn != "")
            && (r.Err? && r.error.MissingOvns? <==>
                  && RightOwner(st, id, manager, ovn) && CanAttach(st.subscriptions, cfg, manager, p, u)
                  && NeedsKey(p) && u.cells != {} && SomeMissing(st, p, u))
            && (r.Err? && r.error.MissingOvns? ==> ListsMissing(st, manager, p, u, r.error))
            && (r.Err? ==> r.error in {PermissionDenied, VersionMismatch, NotFound, BadRequest} || r.error.MissingOvns?)
  {
    CheckedExactly(cfg, ovn, p, env.now);
    AttachExactly(st.subscriptions, cfg, manager, p, u, env);
    KeyExactly(st, manager, p, u);
    hide CheckIntentParams, AttachSubscription, CheckKey, WriteIntent, CanAttach, SomeMissing, ListsMissing, FitIntent;
  }

  /** A request that is right for no volume is a bad one. */
  lemma UnfitIntent(st: Store, cfg: Config, id: Id, manager: Manager, ovn: Ovn, p: IntentParams, env: Env)
    ensures (exists u :: FitIntent(cfg, ovn, p, env.now, u))
            || PutIntent(st, cfg, id, manager, ovn, p, env) == Err(BadRequest)
  {
    CheckedExactly(cfg, ovn, p, env.now);
    hide FitIntent, CheckIntentParams;
    var r := CheckIntentParams(cfg, ovn, p, env.now);
    if r.Ok? {
      assert FitIntent(cfg, ovn, p, env.now, r.value);
    }
  }

  // ----- what a put of an intent writes -----

  /** The same row but for the notification index. */
  predicate SameRow(before: ScdSubscription, after: ScdSubscription) {
    after == before.(index := after.index)
  }

  predicate IsEarlier(a: Option<Time>, u: Option<Time>, r: Option<Time>) {
    (r == a || r == u) && (a.Some? <==> r.Some?) && (a.Some? && u.Some? ==> r.value <= a.value && r.value <= u.value)
  }

  predicate IsLater(a: Option<Time>, u: Option<Time>, r: Option<Time>) {
    (r == a || r == u) && (a.Some? <==> r.Some?) && (a.Some? && u.Some? ==> a.value <= r.value && u.value <= r.value)
  }

  /** A named subscription stays as it is when it contains the volume. Otherwise it is implicit and is stretched over
      both, under a new version; a bound that it does not have it does not get. */
  predicate StretchedOver(before: ScdSubscription, u: Box, version: Ovn, after: ScdSubscription)
    requires u.start.Some? && u.end.Some?
  {
    if Contains(before, u) then SameRow(before, after)
    else
      && before.implicit
      && after == before.(index := after.index, version := version, range := after.range, area := before.area + u.cells)
      && IsEarlier(before.range.start, u.start, after.range.start) && IsLater(before.range.end, u.end, after.range.end)
  }

  /** What becomes of the subscription that an intent is attached to. */
  predicate AttachedRow(
    subs: map<Id, ScdSubscription>, manager: Manager, p: IntentParams, u: Box, env: Env, after: ScdSubscription)
    requires u.start.Some? && u.end.Some? && (p.subscriptionId != "" ==> p.subscriptionId in subs)
  {
    if p.subscriptionId != "" then StretchedOver(subs[p.subscriptionId], u, env.subscriptionOvn, after)
    else
      after == Subscription(env.subscriptionOvn, after.index, manager, Range(u.start, u.end), p.newSubscriptionUrl,
                            true, p.newSubscriptionForConstraints, true, u.cells)
  }

  function TargetId(p: IntentParams, env: Env): Id {
    if p.subscriptionId == "" then env.newId else p.subscriptionId
  }

  lemma AttachWrites(
    subs: map<Id, ScdSubscription>, cfg: Config, manager: Manager, p: IntentParams, u: Box, env: Env)
    requires u.start.Some? && u.end.Some? && AttachSubscription(subs, cfg, manager, p, u, env).Ok?
    ensures var r, s := AttachSubscription(subs, cfg, manager, p, u, env).value, TargetId(p, env);
            && r.id == s && s in r.subscriptions && r.subscriptions == subs[s := r.subscriptions[s]]
            && (p.subscriptionId != "" ==> p.subscriptionId in subs)
            && AttachedRow(subs, manager, p, u, env, r.subscriptions[s])
  {
    if p.subscriptionId != "" && u.cells <= subs[p.subscriptionId].area {
      assert subs[p.subscriptionId].area + u.cells == subs[p.subscriptionId].area;
    }
  }

  lemma AttachedRowAnyIndex(
    subs: map<Id, ScdSubscription>, manager: Manager, p: IntentParams, u: Box, env: Env, s: ScdSubscription,
    after: ScdSubscription)
    requires u.start.Some? && u.end.Some? && (p.subscriptionId != "" ==> p.subscriptionId in subs)
    requires AttachedRow(subs, manager, p, u, env, s) && SameRow(s, after)
    ensures AttachedRow(subs, manager, p, u, env, after)
  {
  }

  lemma NotifyWrites(st: Store, v: Box, forIntents: bool)
    ensures var out := Notify(st, v, forIntents).store;
            && out.intents == st.intents && out.constraints == st.constraints
            && out.subscriptions.Keys == st.subscriptions.Keys
            && forall s :: s in st.subscriptions ==> SameRow(st.subscriptions[s], out.subscriptions[s])
  {
  }

  /** A put writes this intent, and this subscription; of other subscriptions nothing but the index. */
  lemma PutIntentWrites(
    st: Store, cfg: Config, id: Id, manager: Manager, ovn: Ovn, p: IntentParams, env: Env, u: Box)
    requires FitIntent(cfg, ovn, p, env.now, u) && PutIntent(st, cfg, id, manager, ovn, p, env).Ok?
    ensures var out, s := PutIntent(st, cfg, id, manager, ovn, p, env).value.store, TargetId(p, env);
            var version := ToInt32((if id in st.intents then st.intents[id].version else 0) + 1);
            && out.intents == st.intents[id := Intent(manager, version, p.state, env.intentOvn, p.baseUrl, s, u)]
            && out.constraints == st.constraints
            && out.subscriptions.Keys == st.subscriptions.Keys + {s}
            && (p.subscriptionId != "" ==> p.subscriptionId in st.subscriptions)
            && AttachedRow(st.subscriptions, manager, p, u, env, out.subscriptions[s])
            && forall x :: x in st.subscriptions && x != s ==> SameRow(st.subscriptions[x], out.subscriptions[x])
  {
    CheckedExactly(cfg, ovn, p, env.now);
    hide CheckIntentParams, AttachSubscription, CheckKey, FitIntent, Notify, AttachedRow, NotifiedBox, SameRow;
    AttachWrites(st.subscriptions, cfg, manager, p, u, env);
    var attached := AttachSubscription(st.subscriptions, cfg, manager, p, u, env).value;
    var prior := CurrentIntent(st, id, manager, ovn).value;
    var version := ToInt32((if prior.None? then 0 else prior.value.version) + 1);
    var intent := Intent(manager, version, p.state, env.intentOvn, p.baseUrl, attached.id, u);
    var v := NotifiedBox(u, if prior.None? then None else Some(prior.value.box));
    NotifyWrites(Store(st.intents[id := intent], attached.subscriptions, st.constraints), v, true);
    var out := PutIntent(st, cfg, id, manager, ovn, p, env).value.store;
    AttachedRowAnyIndex(st.subscriptions, manager, p, u, env,
                        attached.subscriptions[attached.id], out.subscriptions[attached.id]);
  }

  // ----- deleting an intent -----

  /** Only the owner deletes; that an intent depends on the subscription it names makes one of the errors impossible. */
  lemma DeleteIntentAnswer(st: Store, id: Id, manager: Manager)
    ensures var r := DeleteIntent(st, id, manager);
            var owned := id in st.intents && st.intents[id].manager == manager;
            && (r.Ok? <==> owned && st.intents[id].subscriptionId in st.subscriptions)
            && (r == Err(NotFound) <==> id !in st.intents)
            && (r == Err(PermissionDenied) <==> id in st.intents && st.intents[id].manager != manager)
            && (r == Err(SubscriptionMissing) <==> owned && st.intents[id].subscriptionId !in st.subscriptions)
            && (r.Err? ==> r.error in {NotFound, PermissionDenied, SubscriptionMissing})
  {
    if id in st.intents {
      assert id in Dependents(st.intents, st.intents[id].subscriptionId);
    }
  }

  lemma OnlyDependent(intents: map<Id, Intent>, id: Id, s: Id)
    requires id in intents && intents[id].subscriptionId == s
    ensures |Dependents(intents, s)| == 1 <==> forall i :: i in intents && intents[i].subscriptionId == s ==> i == id
  {
    var dependents := Dependents(intents, s);
    assert id in dependents;
    if forall i :: i in intents && intents[i].subscriptionId == s ==> i == id {
      assert dependents == {id};
    } else {
      var i :| i in intents && intents[i].subscriptionId == s && i != id;
      assert {i, id} <= dependents;
      SubsetIsSmaller({i, id}, dependents);
    }
  }

  /** A deletion removes this intent, and its subscription when this is implicit and no other intent names it. */
  lemma DeleteIntentWrites(st: Store, id: Id, manager: Manager)
    requires DeleteIntent(st, id, manager).Ok?
    ensures var out, s := DeleteIntent(st, id, manager).value.store, st.intents[id].subscriptionId;
            && out.intents == st.intents - {id} && out.constraints == st.constraints
            && (forall x :: x in st.subscriptions && x !in out.subscriptions <==>
                  && x == s && s in st.subscriptions && st.subscriptions[s].implicit
                  && forall i :: i in st.intents && st.intents[i].subscriptionId == s ==> i == id)
            && out.subscriptions.Keys <= st.subscriptions.Keys
            && forall x :: x in out.subscriptions ==> SameRow(st.subscriptions[x], out.subscriptions[x])
  {
    OnlyDependent(st.intents, id, st.intents[id].subscriptionId);
    NotifyWrites(st, st.intents[id].box, true);
    hide Notify, Dependents, SameRow;
  }

  // ----- subscriptions -----

  /** The request is right whatever is stored, and is about these cells. */
  ghost predicate FitSubscription(cfg: Config, p: SubscriptionParams, cells: set<Cell>) {
    && UrlAccepted(cfg, p.baseUrl) && (p.notifyForIntents || p.notifyForConstraints)
    && p.extents.space.Some?
    && (p.extents.space.value.footprint == Some(Ok(cells))
        || (p.extents.space.value.footprint.None? && cells == {}))
  }

  /** A request without a spatial part is not answered; any other that is right for no cells is a bad one. */
  lemma UnfitSubscription(
    st: Store, cfg: Config, id: Id, manager: Manager, version: Ovn, p: SubscriptionParams, env: Env)
    ensures (exists cells :: FitSubscription(cfg, p, cells))
            || PutSubscription(st, cfg, id, manager, version, p, env) ==
                 Err(if UrlAccepted(cfg, p.baseUrl) && p.extents.space.None? then NilDereference else BadRequest)
  {
    var cells := RequestedCells(p.extents);
    if cells.Ok? && UrlAccepted(cfg, p.baseUrl) && (p.notifyForIntents || p.notifyForConstraints) {
      assert FitSubscription(cfg, p, cells.value);
    }
  }

  function PriorRange(st: Store, id: Id): Option<Range> {
    if id in st.subscriptions then Some(st.subscriptions[id].range) else None
  }

  /** The times that the request ends up with. */
  ghost predicate TimesFor(st: Store, id: Id, p: SubscriptionParams, now: Time, start: Time, end: Time) {
    var asked := Range(p.extents.start, p.extents.end);
    IsStart(now, asked, PriorRange(st, id), start) && IsEnd(asked, PriorRange(st, id), start, end)
  }

  predicate TimesAccepted(p: SubscriptionParams, now: Time, start: Time, end: Time) {
    start <= end <= start + DAY && (p.extents.start.Some? ==> now <= p.extents.start.value + FIVE_MINUTES)
  }

  /** The intent lies in the cells, between the altitudes, and in the times but for a start five minutes early. */
  predicate CoveredBy(op: Box, cells: set<Cell>, lo: Option<real>, hi: Option<real>, start: Time, end: Time) {
    && op.cells <= cells
    && op.lo.Some? && lo.Some? && lo.value <= op.lo.value
    && op.hi.Some? && hi.Some? && op.hi.value <= hi.value
    && op.start.Some? && start <= op.start.value + FIVE_MINUTES
    && op.end.Some? && op.end.value <= end
  }

  ghost predicate AllCovered(
    st: Store, id: Id, p: SubscriptionParams, cells: set<Cell>, start: Time, end: Time)
    requires p.extents.space.Some?
  {
    forall d :: d in st.intents && st.intents[d].subscriptionId == id ==>
      CoveredBy(st.intents[d].box, cells, p.extents.space.value.lo, p.extents.space.value.hi, start, end)
  }

  lemma CoveredExactly(st: Store, id: Id, p: SubscriptionParams, cells: set<Cell>, start: Time, end: Time)
    requires p.extents.space.Some? && start <= end <= start + DAY
    ensures var space := p.extents.space.value;
            CoversDependents(st, id, cells, space.lo, space.hi, Range(Some(start), Some(end))) <==>
              AllCovered(st, id, p, cells, start, end)
  {
    var space, range := p.extents.space.value, Range(Some(start), Some(end));
    forall d | d in st.intents
      ensures ValidateDependentOp(cells, space.lo, space.hi, range, st.intents[d].box).Ok? <==>
                CoveredBy(st.intents[d].box, cells, space.lo, space.hi, start, end)
    {
    }
    hide ValidateDependentOp, CoveredBy;
    assert forall d :: d in Dependents(st.intents, id) <==> d in st.intents && st.intents[d].subscriptionId == id;
  }

  /** What would have to be compared next, of altitudes and times in this order, is absent. */
  predicate LacksBound(op: Box, cells: set<Cell>, lo: Option<real>, hi: Option<real>, start: Time) {
    var cellsIn, altitudes := op.cells <= cells, op.lo.Some? && lo.Some? && op.hi.Some? && hi.Some?;
    && cellsIn
    && if altitudes then
         && lo.value <= op.lo.value && op.hi.value <= hi.value
         && (op.start.None? || (op.end.None? && start <= op.start.value + FIVE_MINUTES))
       else op.lo.None? || lo.None? || lo.value <= op.lo.value
  }

  /** The error of one dependent intent, if any. */
  predicate IsToBlame(
    op: Box, cells: set<Cell>, lo: Option<real>, hi: Option<real>, start: Time, end: Time, e: Error)
  {
    if LacksBound(op, cells, lo, hi, start) then e == NilDereference
    else e == BadRequest && !CoveredBy(op, cells, lo, hi, start, end)
  }

  lemma ToBlameExactly(
    op: Box, cells: set<Cell>, lo: Option<real>, hi: Option<real>, start: Time, end: Time, e: Error)
    requires start <= end <= start + DAY
    ensures ValidateDependentOp(cells, lo, hi, Range(Some(start), Some(end)), op) == Err(e) <==>
            IsToBlame(op, cells, lo, hi, start, end, e)
  {
  }

  /** The errors for which a dependent intent can be to blame: it lacks a bound, or it is not covered. */
  lemma UncoveredExactly(
    st: Store, cfg: Config, id: Id, p: SubscriptionParams, now: Time, cells: set<Cell>, start: Time, end: Time,
    e: Error)
    requires FitSubscription(cfg, p, cells) && TimesFor(st, id, p, now, start, end) && TimesAccepted(p, now, start, end)
    ensures var space := p.extents.space.value;
            SomeDependentFails(st, id, p, now, e) <==>
              exists d :: d in st.intents && st.intents[d].subscriptionId == id
                          && IsToBlame(st.intents[d].box, cells, space.lo, space.hi, start, end, e)
  {
    var asked, range := Range(p.extents.start, p.extents.end), Range(Some(start), Some(end));
    AdjustedExactly(now, asked, PriorRange(st, id), start, end);
    assert RequestedCells(p.extents) == Ok(cells) && Adjusted(now, asked, PriorRange(st, id)) == Ok(range);
    hide ValidateDependentOp, IsToBlame, IsStart, IsEnd, Adjusted, RequestedCells, FitSubscription;
    var space := p.extents.space.value;
    forall d | d in st.intents
      ensures ValidateDependentOp(cells, space.lo, space.hi, range, st.intents[d].box) == Err(e) <==>
              IsToBlame(st.intents[d].box, cells, space.lo, space.hi, start, end, e)
    {
      ToBlameExactly(st.intents[d].box, cells, space.lo, space.hi, start, end, e);
    }
  }

  /** The answer to a request that is right in itself: one who presents no version wants a new subscription, any other
      wants to replace the version that is presented; that must be the current one, and the client's own. */
  lemma PutSubscriptionAnswer(
    st: Store, cfg: Config, id: Id, manager: Manager, version: Ovn, p: SubscriptionParams, env: Env,
    cells: set<Cell>, start: Time, end: Time)
    requires FitSubscription(cfg, p, cells) && TimesFor(st, id, p, env.now, start, end)
    ensures var r := PutSubscription(st, cfg, id, manager, version, p, env);
            var timely, stored := TimesAccepted(p, env.now, start, end), id in st.subscriptions;
            && (r == Err(NotFound) <==> timely && !stored && version != "")
            && (r == Err(AlreadyExists) <==> timely && stored && version == "")
            && (r == Err(VersionMismatch) <==>
                  timely && stored && version != "" && version != st.subscriptions[id].version)
            && (r == Err(PermissionDenied) <==>
                  && timely && stored && version != "" && version == st.subscriptions[id].version
                  && manager != st.subscriptions[id].manager)
            && (r.Ok? <==>
                  && timely
                  && (if stored then
                        && version != "" && version == st.subscriptions[id].version
                        && manager == st.subscriptions[id].manager && AllCovered(st, id, p, cells, start, end)
                      else version == "")
                  && (p.notifyForConstraints ==> p.extents.space.value.footprint.Some?))
            && (r.Err? ==> r.error in {NotFound, AlreadyExists, VersionMismatch, PermissionDenied, BadRequest})
  {
    var asked := Range(p.extents.start, p.extents.end);
    AdjustedExactly(env.now, asked, PriorRange(st, id), start, end);
    if TimesAccepted(p, env.now, start, end) {
      CoveredExactly(st, id, p, cells, start, end);
    }
    hide Adjusted, CoversDependents, AllCovered, IsStart, IsEnd;
  }

  lemma MissedStart(
    st: Store, cfg: Config, id: Id, manager: Manager, version: Ovn, p: SubscriptionParams, env: Env,
    cells: set<Cell>)
    requires FitSubscription(cfg, p, cells)
    ensures (exists start, end :: TimesFor(st, id, p, env.now, start, end))
            || PutSubscription(st, cfg, id, manager, version, p, env) == Err(NilDereference)
  {
    var asked := Range(p.extents.start, p.extents.end);
    AdjustedMissesStart(env.now, asked, PriorRange(st, id));
    hide Adjusted, CoversDependents;
    if start, end :|
      IsStart(env.now, asked, PriorRange(st, id), start) && IsEnd(asked, PriorRange(st, id), start, end) {
      assert TimesFor(st, id, p, env.now, start, end);
    }
  }

  /** A put writes this row, explicit from now on and with the index that it had, and nothing else. */
  lemma PutSubscriptionWrites(
    st: Store, cfg: Config, id: Id, manager: Manager, version: Ovn, p: SubscriptionParams, env: Env,
    cells: set<Cell>, start: Time, end: Time)
    requires FitSubscription(cfg, p, cells) && TimesFor(st, id, p, env.now, start, end)
    requires PutSubscription(st, cfg, id, manager, version, p, env).Ok?
    ensures var index := if id in st.subscriptions then st.subscriptions[id].index else 0;
            var row := Subscription(env.subscriptionOvn, index, manager, Range(Some(start), Some(end)), p.baseUrl,
                                    p.notifyForIntents, p.notifyForConstraints, false, cells);
            PutSubscription(st, cfg, id, manager, version, p, env) ==
              Ok(Store(st.intents, st.subscriptions[id := row], st.constraints))
  {
    AdjustedExactly(env.now, Range(p.extents.start, p.extents.end), PriorRange(st, id), start, end);
    hide Adjusted, CoversDependents, IsStart, IsEnd;
  }

  lemma DeleteSubscriptionAnswer(st: Store, id: Id, manager: Manager)
    ensures var r := DeleteSubscription(st, id, manager);
            var needed := exists d :: d in st.intents && st.intents[d].subscriptionId == id;
            && (r == Err(NotFound) <==> id !in st.subscriptions)
            && (r == Err(PermissionDenied) <==> id in st.subscriptions && st.subscriptions[id].manager != manager)
            && (r == Err(BadRequest) <==>
                  id in st.subscriptions && st.subscriptions[id].manager == manager && needed)
            && (id in st.subscriptions && st.subscriptions[id].manager == manager && !needed ==>
                  r == Ok(Store(st.intents, st.subscriptions - {id}, st.constraints)))
  {
    var dependents := Dependents(st.intents, id);
    assert forall d :: d in dependents <==> d in st.intents && st.intents[d].subscriptionId == id;
    assert dependents != {} <==> exists d :: d in dependents;
  }

  // ----- constraints -----

  /** The request is right whatever is stored, and is about the volume `u`. */
  ghost predicate FitConstraint(cfg: Config, p: ConstraintParams, u: Box) {
    && p.baseUrl != "" && UrlAccepted(cfg, p.baseUrl)
    && IsUnion(p.extents, u) && u.start.Some? && u.end.Some?
  }

  lemma PutConstraintAnswer(
    st: Store, cfg: Config, id: Id, manager: Manager, ovn: Ovn, p: ConstraintParams, env: Env, u: Box)
    requires FitConstraint(cfg, p, u)
    ensures var r, stored := PutConstraint(st, cfg, id, manager, ovn, p, env), id in st.constraints;
            && (r == Err(PermissionDenied) <==> stored && st.constraints[id].manager != manager)
            && (r == Err(VersionMismatch) <==>
                  if stored then st.constraints[id].manager == manager && st.constraints[id].ovn != ovn else ovn != "")
            && (r.Ok? <==>
                  if stored then st.constraints[id].manager == manager && st.constraints[id].ovn == ovn else ovn == "")
            && (r.Err? ==> r.error in {PermissionDenied, VersionMismatch})
  {
    hide NotifiedBox, Notify;
  }

  lemma UnfitConstraint(st: Store, cfg: Config, id: Id, manager: Manager, ovn: Ovn, p: ConstraintParams, env: Env)
    ensures (exists u :: FitConstraint(cfg, p, u))
            || PutConstraint(st, cfg, id, manager, ovn, p, env) == Err(BadRequest)
  {
    hide NotifiedBox, Notify;
    var v := Union(p.extents);
    if v.Ok? && BoxOf(v.value).Ok? && p.baseUrl != "" && UrlAccepted(cfg, p.baseUrl)
       && v.value.start.Some? && v.value.end.Some? {
      assert FitConstraint(cfg, p, BoxOf(v.value).value);
    }
  }

  lemma PutConstraintWrites(
    st: Store, cfg: Config, id: Id, manager: Manager, ovn: Ovn, p: ConstraintParams, env: Env, u: Box)
    requires FitConstraint(cfg, p, u) && PutConstraint(st, cfg, id, manager, ovn, p, env).Ok?
    ensures var out := PutConstraint(st, cfg, id, manager, ovn, p, env).value.store;
            var version := ToInt32((if id in st.constraints then st.constraints[id].version else 0) + 1);
            && out.constraints == st.constraints[id := Constraint(manager, version, env.constraintOvn, p.baseUrl, u)]
            && out.intents == st.intents && out.subscriptions.Keys == st.subscriptions.Keys
            && forall s :: s in st.subscriptions ==> SameRow(st.subscriptions[s], out.subscriptions[s])
  {
    hide NotifiedBox, Notify, SameRow;
    var version := ToInt32((if id in st.constraints then st.constraints[id].version else 0) + 1);
    var written := Constraint(manager, version, env.constraintOvn, p.baseUrl, u);
    var v := NotifiedBox(u, if id in st.constraints then Some(st.constraints[id].box) else None);
    NotifyWrites(Store(st.intents, st.subscriptions, st.constraints[id := written]), v, false);
  }

  lemma DeleteConstraintAnswer(st: Store, id: Id, manager: Manager)
    ensures var r := DeleteConstraint(st, id, manager);
            && (r == Err(NotFound) <==> id !in st.constraints)
            && (r == Err(PermissionDenied) <==> id in st.constraints && st.constraints[id].manager != manager)
            && (r.Err? ==> r.error in {NotFound, PermissionDenied})
            && (r.Ok? ==>
                  && r.value.store.constraints == st.constraints - {id} && r.value.store.intents == st.intents
                  && r.value.store.subscriptions.Keys == st.subscriptions.Keys
                  && forall s :: s in st.subscriptions ==> SameRow(st.subscriptions[s], r.value.store.subscriptions[s]))
  {
    hide Notify, SameRow;
    if id in st.constraints {
      NotifyWrites(st.(constraints := st.constraints - {id}), st.constraints[id].box, false);
    }
  }
}
