/** Vertiport reservations: what each transaction does to the store, as functions from store to store. */
module VertiportModel {
  import opened Common
  import opened SubscriptionTimes
  import opened Subscribers

  /** A zone of a vertiport. */
  datatype Place = Place(vertiport: Id, zone: int)

  datatype Reservation = Reservation(range: Range, place: Place)

  type VertiportSubscription = Subscription<Place>

  datatype Intent = Intent(
    manager: Manager, version: int, state: string, ovn: Ovn, url: string, subscriptionId: Id, reservation: Reservation)

  datatype Constraint = Constraint(manager: Manager, version: int, ovn: Ovn, url: string, reservation: Reservation)

  datatype Store = Store(
    intents: map<Id, Intent>, subscriptions: map<Id, VertiportSubscription>, constraints: map<Id, Constraint>)

  /** What the searches match: the same zone of the same vertiport, at times that touch at least. */
  predicate Meets(a: Reservation, v: Reservation) {
    a.place == v.place && TimeAtMost(a.range.start, v.range.end) && TimeAtMost(v.range.start, a.range.end)
  }

  function Found(subs: map<Id, VertiportSubscription>, v: Reservation): set<Id> {
    set id | id in subs && Meets(Reservation(subs[id].range, subs[id].area), v)
  }

  function Dependents(intents: map<Id, Intent>, subscriptionId: Id): set<Id> {
    set id | id in intents && intents[id].subscriptionId == subscriptionId
  }

  /** The stored result of a transaction, and the subscriptions that its response tells the client to notify. */
  datatype Outcome = Outcome(store: Store, notified: map<Id, VertiportSubscription>)

  function Notify(st: Store, v: Reservation, forIntents: bool): Outcome {
    var ids := Wanting(st.subscriptions, Found(st.subscriptions, v), forIntents);
    var subs := Incremented(st.subscriptions, ids);
    Outcome(st.(subscriptions := subs), map id | id in ids :: subs[id])
  }

  // ----- operational intents -----

  datatype IntentParams = IntentParams(
    baseUrl: string, state: string, reservation: Reservation, key: seq<Ovn>,
    subscriptionId: Id, newSubscriptionUrl: string, newSubscriptionForConstraints: bool)

  predicate ValidIntentParams(cfg: Config, ovn: Ovn, p: IntentParams, now: Time) {
    var range := p.reservation.range;
    && p.baseUrl != "" && cfg.AcceptsUrl(p.baseUrl) && IsValidInDSS(p.state)
    && p.reservation.place.vertiport != ""
    && range.start.Some? && range.end.Some?
    && now <= range.end.value && range.start.value <= range.end.value
    && (ovn == "" ==> p.state == "Accepted")
  }

  /** The existing intent, when the request names its current version; none when it asks for a new intent. */
  function CurrentIntent(st: Store, id: Id, manager: Manager, ovn: Ovn): Result<Option<Intent>, Error> {
    if id in st.intents then
      if st.intents[id].manager != manager then Err(PermissionDenied)
      else if st.intents[id].ovn != ovn then Err(VersionMismatch)
      else Ok(Some(st.intents[id]))
    else if ovn != "" then Err(NotFound)
    else Ok(None)
  }

  /** An implicit subscription is stretched over the times of the intent and moved to its place; an explicit one has
      to cover it already. */
  function Retargeted(sub: VertiportSubscription, u: Reservation): Result<VertiportSubscription, Error>
    requires u.range.start.Some? && u.range.end.Some?
  {
    var late := sub.range.start.Some? && sub.range.start.value > u.range.start.value;
    var early := sub.range.end.Some? && sub.range.end.value < u.range.end.value;
    if (late || early || sub.area != u.place) && !sub.implicit then Err(BadRequest) else
    var start := if late then u.range.start else sub.range.start;
    var end := if early then u.range.end else sub.range.end;
    Ok(sub.(range := Range(start, end), area := u.place))
  }

  datatype Attached = Attached(subscriptions: map<Id, VertiportSubscription>, id: Id)

  function AttachSubscription(
    subs: map<Id, VertiportSubscription>, cfg: Config, manager: Manager, p: IntentParams, env: Env)
    : (r: Result<Attached, Error>)
    requires p.reservation.range.start.Some? && p.reservation.range.end.Some?
    ensures r.Ok? ==> r.value.id in r.value.subscriptions
  {
    if p.subscriptionId == "" then
      if p.newSubscriptionUrl == "" || !cfg.AcceptsUrl(p.newSubscriptionUrl) then Err(BadRequest) else
      var sub := Subscription(env.subscriptionOvn, 0, manager, p.reservation.range, p.newSubscriptionUrl,
                              true, p.newSubscriptionForConstraints, true, p.reservation.place);
      Ok(Attached(subs[env.newId := sub], env.newId))
    else if p.subscriptionId !in subs then Err(BadRequest)
    else if subs[p.subscriptionId].manager != manager then Err(PermissionDenied)
    else
      var sub :- Retargeted(subs[p.subscriptionId], p.reservation);
      if sub == subs[p.subscriptionId] then Ok(Attached(subs, p.subscriptionId))
      else Ok(Attached(subs[p.subscriptionId := sub.(version := env.subscriptionOvn)], p.subscriptionId))
  }

  function MissingIntents(intents: map<Id, Intent>, manager: Manager, u: Reservation, key: seq<Ovn>): map<Id, Ovn> {
    map id | id in intents && Meets(intents[id].reservation, u) && intents[id].ovn !in key ::
      Masked(intents[id].manager, manager, intents[id].ovn)
  }

  function MissingConstraints(constraints: map<Id, Constraint>, manager: Manager, u: Reservation, key: seq<Ovn>)
    : map<Id, Ovn>
  {
    map id | id in constraints && Meets(constraints[id].reservation, u) && constraints[id].ovn !in key ::
      Masked(constraints[id].manager, manager, constraints[id].ovn)
  }

  function CheckKey(
    intents: map<Id, Intent>, constraints: map<Id, Constraint>, manager: Manager, p: IntentParams, constraintsToo: bool)
    : Result<(), Error>
  {
    var missing := MissingIntents(intents, manager, p.reservation, p.key);
    var others := if constraintsToo then MissingConstraints(constraints, manager, p.reservation, p.key) else map[];
    if missing != map[] || others != map[] then Err(MissingOvns(missing, others)) else Ok(())
  }

  /** The intent written in place of `prior` with the next version number. Only the new reservation is notified. */
  function WriteIntent(
    st: Store, id: Id, manager: Manager, prior: Option<Intent>, p: IntentParams, subscriptionId: Id, env: Env): Outcome
  {
    var version := ToInt32((if prior.None? then 0 else prior.value.version) + 1);
    var intent := Intent(manager, version, p.state, env.intentOvn, p.baseUrl, subscriptionId, p.reservation);
    Notify(st.(intents := st.intents[id := intent]), p.reservation, true)
  }

  function PutIntent(
    st: Store, cfg: Config, id: Id, manager: Manager, ovn: Ovn, p: IntentParams, env: Env): Result<Outcome, Error>
  {
    if !ValidIntentParams(cfg, ovn, p, env.now) then Err(BadRequest) else
    var prior :- CurrentIntent(st, id, manager, ovn);
    var attached :- AttachSubscription(st.subscriptions, cfg, manager, p, env);
    var constraintsToo := attached.subscriptions[attached.id].notifyForConstraints;
    var _ :- if RequiresKey(p.state) then CheckKey(st.intents, st.constraints, manager, p, constraintsToo) else Ok(());
    Ok(WriteIntent(st.(subscriptions := attached.subscriptions), id, manager, prior, p, attached.id, env))
  }

  function DeleteIntent(st: Store, id: Id, manager: Manager): Result<Outcome, Error> {
    if id !in st.intents then Err(NotFound) else
    var prior := st.intents[id];
    if prior.manager != manager then Err(PermissionDenied)
    else if prior.subscriptionId !in st.subscriptions then Err(SubscriptionMissing) else
    var implicit := st.subscriptions[prior.subscriptionId].implicit;
    var dependents := Dependents(st.intents, prior.subscriptionId);
    if implicit && dependents == {} then Err(NoDependents) else
    var told := Notify(st, prior.reservation, true);
    var subs := told.store.subscriptions;
    Ok(told.(store := Store(st.intents - {id},
                            if implicit && |dependents| == 1 then subs - {prior.subscriptionId} else subs,
                            st.constraints)))
  }

  // ----- subscriptions -----

  datatype SubscriptionParams = SubscriptionParams(
    baseUrl: string, reservation: Reservation, notifyForIntents: bool, notifyForConstraints: bool)

  function ValidateDependentOp(place: Place, range: Range, op: Reservation): Result<(), Error>
    requires Bounded(range)
  {
    if place != op.place then Err(BadRequest)
    else if op.range.start.None? then Err(NilDereference)
    else if range.start.value - op.range.start.value > MAX_CLOCK_SKEW then Err(BadRequest)
    else if op.range.end.None? then Err(NilDereference)
    else if op.range.end.value > range.end.value then Err(BadRequest)
    else Ok(())
  }

  predicate CoversDependents(st: Store, id: Id, place: Place, range: Range)
    requires Bounded(range)
  {
    forall d | d in Dependents(st.intents, id) :: ValidateDependentOp(place, range, st.intents[d].reservation).Ok?
  }

  /** A dependent intent is not covered, with this error. */
  predicate SomeDependentFails(st: Store, id: Id, p: SubscriptionParams, now: Time, e: Error) {
    var prior := if id in st.subscriptions then Some(st.subscriptions[id].range) else None;
    var range := Adjusted(now, p.reservation.range, prior);
    && range.Ok? && Bounded(range.value)
    && exists d | d in Dependents(st.intents, id) ::
         ValidateDependentOp(p.reservation.place, range.value, st.intents[d].reservation) == Err(e)
  }

  function PutSubscription(
    st: Store, cfg: Config, id: Id, manager: Manager, version: Ovn, p: SubscriptionParams, env: Env)
    : Result<Store, Error>
  {
    if !cfg.AcceptsUrl(p.baseUrl) then Err(BadRequest)
    else if p.reservation.place.vertiport == "" then Err(PermissionDenied)
    else if !p.notifyForIntents && !p.notifyForConstraints then Err(BadRequest) else
    var prior := if id in st.subscriptions then Some(st.subscriptions[id]) else None;
    var range :- Adjusted(env.now, p.reservation.range, if prior.None? then None else Some(prior.value.range));
    AdjustedIsBounded(env.now, p.reservation.range, if prior.None? then None else Some(prior.value.range));
    if prior.None? && version != "" then Err(NotFound)
    else if prior.Some? && version == "" then Err(AlreadyExists)
    else if prior.Some? && version != prior.value.version then Err(VersionMismatch)
    else if prior.Some? && manager != prior.value.manager then Err(PermissionDenied)
    else if prior.Some? && !CoversDependents(st, id, p.reservation.place, range) then Err(BadRequest)
    else
      var index := if prior.None? then 0 else prior.value.index;
      var sub := Subscription(env.subscriptionOvn, index, manager, range, p.baseUrl,
                              p.notifyForIntents, p.notifyForConstraints, false, p.reservation.place);
      Ok(st.(subscriptions := st.subscriptions[id := sub]))
  }

  function DeleteSubscription(st: Store, id: Id, manager: Manager): Result<Store, Error> {
    if id !in st.subscriptions then Err(NotFound)
    else if st.subscriptions[id].manager != manager then Err(PermissionDenied)
    else if Dependents(st.intents, id) != {} then Err(BadRequest)
    else Ok(st.(subscriptions := st.subscriptions - {id}))
  }

  // ----- constraints -----

  datatype ConstraintParams = ConstraintParams(baseUrl: string, reservation: Reservation)

  /** Unlike for an intent nothing is asked of the vertiport or of the order of the times. */
  predicate ValidConstraintParams(cfg: Config, p: ConstraintParams) {
    && p.baseUrl != "" && cfg.AcceptsUrl(p.baseUrl)
    && p.reservation.range.start.Some? && p.reservation.range.end.Some?
  }

  /** Only the new reservation is notified. */
  function PutConstraint(
    st: Store, cfg: Config, id: Id, manager: Manager, ovn: Ovn, p: ConstraintParams, env: Env): Result<Outcome, Error>
  {
    if !ValidConstraintParams(cfg, p) then Err(BadRequest) else
    var prior := if id in st.constraints then Some(st.constraints[id]) else None;
    if prior.None? && ovn != "" then Err(VersionMismatch)
    else if prior.Some? && prior.value.manager != manager then Err(PermissionDenied)
    else if prior.Some? && prior.value.ovn != ovn then Err(VersionMismatch)
    else
      var version := ToInt32((if prior.None? then 0 else prior.value.version) + 1);
      var constraint := Constraint(manager, version, env.constraintOvn, p.baseUrl, p.reservation);
      Ok(Notify(st.(constraints := st.constraints[id := constraint]), p.reservation, false))
  }

  function DeleteConstraint(st: Store, id: Id, manager: Manager): Result<Outcome, Error> {
    if id !in st.constraints then Err(NotFound)
    else if st.constraints[id].manager != manager then Err(PermissionDenied)
    else Ok(Notify(st.(constraints := st.constraints - {id}), st.constraints[id].reservation, false))
  }
}
