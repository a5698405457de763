/** Strategic coordination: what each transaction does to the store, as functions from store to store. */
module ScdModel {
  import opened Common
  import opened Volumes
  import opened SubscriptionTimes
  import opened Subscribers

  /** A volume whose covering has been computed. */
  datatype Box = Box(start: Option<Time>, end: Option<Time>, lo: Option<real>, hi: Option<real>, cells: set<Cell>) {
    function AsVolume(): Volume4D {
      Volume4D(Some(Volume3D(lo, hi, Some(Ok(cells)))), start, end)
    }
  }

  datatype Intent = Intent(
    manager: Manager, version: int, state: string, ovn: Ovn, url: string, subscriptionId: Id, box: Box)

  type ScdSubscription = Subscription<set<Cell>>

  datatype Constraint = Constraint(manager: Manager, version: int, ovn: Ovn, url: string, box: Box)

  datatype Store = Store(
    intents: map<Id, Intent>, subscriptions: map<Id, ScdSubscription>, constraints: map<Id, Constraint>)

  // ----- searches: null bounds match everything, bounds that touch match -----

  predicate AltitudeAtMost(a: Option<real>, b: Option<real>) {
    a.None? || b.None? || a.value <= b.value
  }

  predicate Overlaps(a: Box, v: Box) {
    && a.cells * v.cells != {}
    && AltitudeAtMost(v.lo, a.hi) && AltitudeAtMost(a.lo, v.hi)
    && TimeAtMost(v.start, a.end) && TimeAtMost(a.start, v.end)
  }

  /** Subscriptions and constraints are searched without regard to altitude. */
  predicate InVolume(cells: set<Cell>, range: Range, v: Box) {
    && cells * v.cells != {}
    && TimeAtMost(range.start, v.end) && TimeAtMost(v.start, range.end)
  }

  predicate ConstraintInVolume(c: Constraint, v: Box) {
    InVolume(c.box.cells, Range(c.box.start, c.box.end), v)
  }

  predicate Interested(s: ScdSubscription, v: Box, forIntents: bool) {
    InVolume(s.area, s.range, v) && Wants(s, forIntents)
  }

  function InterestedIn(subs: map<Id, ScdSubscription>, v: Box, forIntents: bool): set<Id> {
    set id | id in subs && Interested(subs[id], v, forIntents)
  }

  function Dependents(intents: map<Id, Intent>, subscriptionId: Id): set<Id> {
    set id | id in intents && intents[id].subscriptionId == subscriptionId
  }

  /** The volume to notify about when `u` replaces `prior`. */
  function NotifiedBox(u: Box, prior: Option<Box>): Box {
    if prior.None? then u else
    var both := Union([u.AsVolume(), prior.value.AsVolume()]);
    if both.Ok? && both.value.space.Some? then
      var s := both.value.space.value;
      Box(both.value.start, both.value.end, s.lo, s.hi, CellsOf(s))
    else u
  }

  lemma UnionOfBoxes(u: Box, w: Box)
    ensures var r := Union([u.AsVolume(), w.AsVolume()]);
            && r.Ok? && r.value.space.Some?
            && NotifiedBox(u, Some(w)) ==
                 Box(Earlier(Earlier(None, u.start), w.start), Later(Later(None, u.end), w.end),
                     Lower(u.lo, w.lo), Higher(u.hi, w.hi), u.cells + w.cells)
  {
    var vs := [u.AsVolume(), w.AsVolume()];
    assert MergeSpace(None, vs[0].space) == Ok(vs[0].space) by {
      assert CellsOf(Volume3D(None, None, None)) + u.cells == u.cells;
    }
    assert UnionOf(vs, 1) == Ok(Volume4D(vs[0].space, Earlier(None, u.start), Later(None, u.end)));
  }

  /** The stored result of a transaction, and the subscriptions that its response tells the client to notify. */
  datatype Outcome = Outcome(store: Store, notified: map<Id, ScdSubscription>)

  function Notify(st: Store, v: Box, forIntents: bool): Outcome {
    var ids := InterestedIn(st.subscriptions, v, forIntents);
    var subs := Incremented(st.subscriptions, ids);
    Outcome(st.(subscriptions := subs), map id | id in ids :: subs[id])
  }

  // ----- operational intents -----

  datatype IntentParams = IntentParams(
    baseUrl: string, state: string, extents: seq<Volume4D>, key: seq<Ovn>,
    subscriptionId: Id, newSubscriptionUrl: string, newSubscriptionForConstraints: bool)

  function BoxOf(v: Volume4D): Result<Box, Error> {
    var cells :- v.CalculateSpatialCovering();
    Ok(Box(v.start, v.end, v.space.value.lo, v.space.value.hi, cells))
  }

  function CheckIntentParams(cfg: Config, ovn: Ovn, p: IntentParams, now: Time): (r: Result<Box, Error>)
    ensures r.Ok? ==> r.value.start.Some? && r.value.end.Some? && r.value.start.value <= r.value.end.value
    ensures r.Ok? ==> IsValidInDSS(p.state) && now <= r.value.end.value
  {
    if p.baseUrl == "" || !cfg.AcceptsUrl(p.baseUrl) || !IsValidInDSS(p.state) then Err(BadRequest) else
    var u := Union(p.extents);
    if u.Err? || u.value.start.None? || u.value.end.None? || now > u.value.end.value then Err(BadRequest) else
    var box := BoxOf(u.value);
    if box.Err? || u.value.end.value < u.value.start.value then Err(BadRequest)
    else if ovn == "" && p.state != "Accepted" then Err(BadRequest)
    else Ok(box.value)
  }

  /** The existing intent, when the request names its current version; none when it asks for a new intent. */
  function CurrentIntent(st: Store, id: Id, manager: Manager, ovn: Ovn): Result<Option<Intent>, Error> {
    if id in st.intents then
      if st.intents[id].manager != manager then Err(PermissionDenied)
      else if st.intents[id].ovn != ovn then Err(VersionMismatch)
      else Ok(Some(st.intents[id]))
    else if ovn != "" then Err(NotFound)
    else Ok(None)
  }

  /** An implicit subscription stretched over the intent; an explicit one has to cover it already. */
  function Widened(sub: ScdSubscription, u: Box): Result<ScdSubscription, Error>
    requires u.start.Some? && u.end.Some?
  {
    var late := sub.range.start.Some? && sub.range.start.value > u.start.value;
    var early := sub.range.end.Some? && sub.range.end.value < u.end.value;
    var small := !(u.cells <= sub.area);
    if (late || early || small) && !sub.implicit then Err(BadRequest) else
    Ok(sub.(range := Range(if late then u.start else sub.range.start, if early then u.end else sub.range.end),
            area := if small then sub.area + u.cells else sub.area))
  }

  datatype Attached = Attached(subscriptions: map<Id, ScdSubscription>, id: Id)

  function AttachSubscription(
    subs: map<Id, ScdSubscription>, cfg: Config, manager: Manager, p: IntentParams, u: Box, env: Env)
    : (r: Result<Attached, Error>)
    requires u.start.Some? && u.end.Some?
    ensures r.Ok? ==> r.value.id in r.value.subscriptions
  {
    if p.subscriptionId == "" then
      if p.newSubscriptionUrl == "" || !cfg.AcceptsUrl(p.newSubscriptionUrl) then Err(BadRequest) else
      var sub := Subscription(env.subscriptionOvn, 0, manager, Range(u.start, u.end), p.newSubscriptionUrl,
                              true, p.newSubscriptionForConstraints, true, u.cells);
      Ok(Attached(subs[env.newId := sub], env.newId))
    else if p.subscriptionId !in subs then Err(BadRequest)
    else if subs[p.subscriptionId].manager != manager then Err(PermissionDenied)
    else
      var sub :- Widened(subs[p.subscriptionId], u);
      if sub == subs[p.subscriptionId] then Ok(Attached(subs, p.subscriptionId))
      else Ok(Attached(subs[p.subscriptionId := sub.(version := env.subscriptionOvn)], p.subscriptionId))
  }

  function MissingIntents(intents: map<Id, Intent>, manager: Manager, u: Box, key: seq<Ovn>): map<Id, Ovn> {
    map id | id in intents && Overlaps(intents[id].box, u) && intents[id].ovn !in key ::
      Masked(intents[id].manager, manager, intents[id].ovn)
  }

  function MissingConstraints(constraints: map<Id, Constraint>, manager: Manager, u: Box, key: seq<Ovn>): map<Id, Ovn> {
    map id | id in constraints && ConstraintInVolume(constraints[id], u) && constraints[id].ovn !in key ::
      Masked(constraints[id].manager, manager, constraints[id].ovn)
  }

  /** The key must hold the OVN of every intent in the volume and, for some clients, of every constraint. A search
      for intents needs at least one cell. */
  function CheckKey(
    intents: map<Id, Intent>, constraints: map<Id, Constraint>, manager: Manager, p: IntentParams, u: Box,
    constraintsToo: bool): Result<(), Error>
  {
    if u.cells == {} then Err(BadRequest) else
    var missing := MissingIntents(intents, manager, u, p.key);
    var others := if constraintsToo then MissingConstraints(constraints, manager, u, p.key) else map[];
    if missing != map[] || others != map[] then Err(MissingOvns(missing, others)) else Ok(())
  }

  /** The intent written in place of `prior` with the next version number, and the notifications due. */
  function WriteIntent(
    st: Store, id: Id, manager: Manager, prior: Option<Intent>, p: IntentParams, u: Box, subscriptionId: Id, env: Env)
    : Outcome
  {
    var version := ToInt32((if prior.None? then 0 else prior.value.version) + 1);
    var intent := Intent(manager, version, p.state, env.intentOvn, p.baseUrl, subscriptionId, u);
    var v := NotifiedBox(u, if prior.None? then None else Some(prior.value.box));
    Notify(st.(intents := st.intents[id := intent]), v, true)
  }

  function PutIntent(
    st: Store, cfg: Config, id: Id, manager: Manager, ovn: Ovn, p: IntentParams, env: Env): Result<Outcome, Error>
  {
    var u :- CheckIntentParams(cfg, ovn, p, env.now);
    var prior :- CurrentIntent(st, id, manager, ovn);
    var attached :- AttachSubscription(st.subscriptions, cfg, manager, p, u, env);
    var constraintsToo := attached.subscriptions[attached.id].notifyForConstraints;
    var _ :- if RequiresKey(p.state) then CheckKey(st.intents, st.constraints, manager, p, u, constraintsToo)
             else Ok(());
    Ok(WriteIntent(st.(subscriptions := attached.subscriptions), id, manager, prior, p, u, attached.id, env))
  }

  function DeleteIntent(st: Store, id: Id, manager: Manager): Result<Outcome, Error> {
    if id !in st.intents then Err(NotFound) else
    var prior := st.intents[id];
    if prior.manager != manager then Err(PermissionDenied)
    else if prior.subscriptionId !in st.subscriptions then Err(SubscriptionMissing) else
    var implicit := st.subscriptions[prior.subscriptionId].implicit;
    var dependents := Dependents(st.intents, prior.subscriptionId);
    if implicit && dependents == {} then Err(NoDependents) else
    var told := Notify(st, prior.box, true);
    var subs := told.store.subscriptions;
    Ok(told.(store := Store(st.intents - {id},
                            if implicit && |dependents| == 1 then subs - {prior.subscriptionId} else subs,
                            st.constraints)))
  }

  // ----- subscriptions -----

  datatype SubscriptionParams = SubscriptionParams(
    baseUrl: string, extents: Volume4D, notifyForIntents: bool, notifyForConstraints: bool)

  function RequestedCells(v: Volume4D): Result<set<Cell>, Error> {
    if v.space.None? then Err(NilDereference)
    else if v.space.value.footprint.None? then Ok({})
    else if v.space.value.footprint.value.Err? then Err(BadRequest)
    else v.space.value.footprint.value
  }

  /** Whether a requested subscription covers an intent that depends on it: in its cells, in altitude, and in time
      with a start at most five minutes late. */
  function ValidateDependentOp(cells: set<Cell>, lo: Option<real>, hi: Option<real>, range: Range, op: Box)
    : Result<(), Error>
    requires Bounded(range)
  {
    if !(op.cells <= cells) then Err(BadRequest)
    else if op.lo.None? || lo.None? then Err(NilDereference)
    else if op.lo.value < lo.value then Err(BadRequest)
    else if op.hi.None? || hi.None? then Err(NilDereference)
    else if op.hi.value > hi.value then Err(BadRequest)
    else if op.start.None? then Err(NilDereference)
    else if range.start.value - op.start.value > MAX_CLOCK_SKEW then Err(BadRequest)
    else if op.end.None? then Err(NilDereference)
    else if op.end.value > range.end.value then Err(BadRequest)
    else Ok(())
  }

  predicate CoversDependents(st: Store, id: Id, cells: set<Cell>, lo: Option<real>, hi: Option<real>, range: Range)
    requires Bounded(range)
  {
    forall d | d in Dependents(st.intents, id) :: ValidateDependentOp(cells, lo, hi, range, st.intents[d].box).Ok?
  }

  /** A dependent intent is not covered, with this error. */
  predicate SomeDependentFails(st: Store, id: Id, p: SubscriptionParams, now: Time, e: Error) {
    var prior := if id in st.subscriptions then Some(st.subscriptions[id].range) else None;
    var cells, range := RequestedCells(p.extents), Adjusted(now, Range(p.extents.start, p.extents.end), prior);
    && cells.Ok? && range.Ok? && Bounded(range.value)
    && exists d | d in Dependents(st.intents, id) ::
         ValidateDependentOp(cells.value, p.extents.space.value.lo, p.extents.space.value.hi, range.value,
                             st.intents[d].box) == Err(e)
  }

  function PutSubscription(
    st: Store, cfg: Config, id: Id, manager: Manager, version: Ovn, p: SubscriptionParams, env: Env)
    : Result<Store, Error>
  {
    if !cfg.AcceptsUrl(p.baseUrl) then Err(BadRequest) else
    var cells :- RequestedCells(p.extents);
    if !p.notifyForIntents && !p.notifyForConstraints then Err(BadRequest) else
    var prior := if id in st.subscriptions then Some(st.subscriptions[id]) else None;
    var range :- Adjusted(env.now, Range(p.extents.start, p.extents.end),
                          if prior.None? then None else Some(prior.value.range));
    AdjustedIsBounded(env.now, Range(p.extents.start, p.extents.end),
                      if prior.None? then None else Some(prior.value.range));
    if prior.None? && version != "" then Err(NotFound)
    else if prior.Some? && version == "" then Err(AlreadyExists)
    else if prior.Some? && version != prior.value.version then Err(VersionMismatch)
    else if prior.Some? && manager != prior.value.manager then Err(PermissionDenied)
    else if prior.Some?
         && !CoversDependents(st, id, cells, p.extents.space.value.lo, p.extents.space.value.hi, range)
    then Err(BadRequest)
    else if p.notifyForConstraints && p.extents.CalculateSpatialCovering().Err? then Err(BadRequest)
    else
      var index := if prior.None? then 0 else prior.value.index;
      var sub := Subscription(env.subscriptionOvn, index, manager, range, p.baseUrl,
                              p.notifyForIntents, p.notifyForConstraints, false, cells);
      Ok(st.(subscriptions := st.subscriptions[id := sub]))
  }

  function DeleteSubscription(st: Store, id: Id, manager: Manager): Result<Store, Error> {
    if id !in st.subscriptions then Err(NotFound)
    else if st.subscriptions[id].manager != manager then Err(PermissionDenied)
    else if Dependents(st.intents, id) != {} then Err(BadRequest)
    else Ok(st.(subscriptions := st.subscriptions - {id}))
  }

  // ----- constraints -----

  datatype ConstraintParams = ConstraintParams(baseUrl: string, extents: seq<Volume4D>)

  function PutConstraint(
    st: Store, cfg: Config, id: Id, manager: Manager, ovn: Ovn, p: ConstraintParams, env: Env): Result<Outcome, Error>
  {
    if p.baseUrl == "" || !cfg.AcceptsUrl(p.baseUrl) then Err(BadRequest) else
    var u := Union(p.extents);
    if u.Err? || u.value.start.None? || u.value.end.None? then Err(BadRequest) else
    var box := BoxOf(u.value);
    if box.Err? then Err(BadRequest) else
    var prior := if id in st.constraints then Some(st.constraints[id]) else None;
    if prior.None? && ovn != "" then Err(VersionMismatch)
    else if prior.Some? && prior.value.manager != manager then Err(PermissionDenied)
    else if prior.Some? && prior.value.ovn != ovn then Err(VersionMismatch)
    else
      var version := ToInt32((if prior.None? then 0 else prior.value.version) + 1);
      var constraint := Constraint(manager, version, env.constraintOvn, p.baseUrl, box.value);
      var v := NotifiedBox(box.value, if prior.None? then None else Some(prior.value.box));
      Ok(Notify(st.(constraints := st.constraints[id := constraint]), v, false))
  }

  function DeleteConstraint(st: Store, id: Id, manager: Manager): Result<Outcome, Error> {
    if id !in st.constraints then Err(NotFound)
    else if st.constraints[id].manager != manager then Err(PermissionDenied)
    else Ok(Notify(st.(constraints := st.constraints - {id}), st.constraints[id].box, false))
  }
}
