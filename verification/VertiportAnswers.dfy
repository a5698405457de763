/** Which answer each transaction of the vertiport service gives, and what it writes, field by field. */
module VertiportAnswers {
  import opened Common
  import opened SubscriptionTimes
  import opened Subscribers
  import opened VertiportModel

  const DAY := 24 * 3_600_000_000_000
  const FIVE_MINUTES := 300_000_000_000

  // ----- reservations that meet -----

  /** At some instant, ends included; a missing bound excludes nothing. */
  predicate TimesTouch(r: Range, q: Range) {
    && (r.start.Some? && q.end.Some? ==> r.start.value <= q.end.value)
    && (q.start.Some? && r.end.Some? ==> q.start.value <= r.end.value)
  }

  predicate At(v: Reservation, place: Place, t: Time) {
    && v.place == place
    && (v.range.start.Some? ==> v.range.start.value <= t) && (v.range.end.Some? ==> t <= v.range.end.value)
  }

  predicate Proper(v: Reservation) {
    v.range.start.Some? && v.range.end.Some? ==> v.range.start.value <= v.range.end.value
  }

  lemma MeetsExactly(a: Reservation, v: Reservation)
    ensures Meets(a, v) <==>
              a.place.vertiport == v.place.vertiport && a.place.zone == v.place.zone && TimesTouch(a.range, v.range)
  {
  }

  /** Two reservations meet exactly when some zone of some vertiport is reserved by both at some instant. */
  lemma MeetingIsCommonInstant(a: Reservation, v: Reservation)
    requires Proper(a) && Proper(v)
    ensures Meets(a, v) <==> exists place, t :: At(a, place, t) && At(v, place, t)
  {
    MeetsExactly(a, v);
    if Meets(a, v) {
      var t := CommonInstant(a.range, v.range);
      assert At(a, a.place, t) && At(v, a.place, t);
    }
  }

  lemma CommonInstant(a: Range, v: Range) returns (t: Time)
    requires a.start.Some? && a.end.Some? ==> a.start.value <= a.end.value
    requires v.start.Some? && v.end.Some? ==> v.start.value <= v.end.value
    requires TimesTouch(a, v)
    ensures (a.start.Some? ==> a.start.value <= t) && (a.end.Some? ==> t <= a.end.value)
    ensures (v.start.Some? ==> v.start.value <= t) && (v.end.Some? ==> t <= v.end.value)
  {
    if a.start.Some? && (v.start.None? || v.start.value <= a.start.value) {
      t := a.start.value;
    } else if v.start.Some? {
      t := v.start.value;
    } else if a.end.Some? && (v.end.None? || a.end.value <= v.end.value) {
      t := a.end.value;
    } else if v.end.Some? {
      t := v.end.value;
    } else {
      t := 0;
    }
  }

  // ----- putting an intent -----

  ghost predicate UrlAccepted(cfg: Config, url: string) {
    cfg.enableHttp || cfg.validBaseUrl(url)
  }

  predicate HasTimes(v: Reservation) {
    v.range.start.Some? && v.range.end.Some?
  }

  /** The request is right whatever is stored. */
  ghost predicate FitIntent(cfg: Config, ovn: Ovn, p: IntentParams, now: Time) {
    && p.baseUrl != "" && UrlAccepted(cfg, p.baseUrl)
    && p.state in ["Accepted", "Activated", "Nonconforming", "Contingent"]
    && p.reservation.place.vertiport != ""
    && HasTimes(p.reservation)
    && p.reservation.range.start.value <= p.reservation.range.end.value && now <= p.reservation.range.end.value
    && (ovn == "" ==> p.state == "Accepted")
  }

  /** The client owns the intent and names its current version, or asks for a new one that is not there yet. */
  predicate RightOwner(st: Store, id: Id, manager: Manager, ovn: Ovn) {
    if id in st.intents then st.intents[id].manager == manager && st.intents[id].ovn == ovn else ovn == ""
  }

  predicate Contains(s: VertiportSubscription, u: Reservation)
    requires HasTimes(u)
  {
    && (s.range.start.Some? ==> s.range.start.value <= u.range.start.value)
    && (s.range.end.Some? ==> u.range.end.value <= s.range.end.value)
    && s.area.vertiport == u.place.vertiport && s.area.zone == u.place.zone
  }

  /** A subscription can be made, or the one named is there, is the client's, and is implicit or contains the times and
      the place. */
  ghost predicate CanAttach(subs: map<Id, VertiportSubscription>, cfg: Config, manager: Manager, p: IntentParams)
    requires HasTimes(p.reservation)
  {
    if p.subscriptionId == "" then p.newSubscriptionUrl != "" && UrlAccepted(cfg, p.newSubscriptionUrl)
    else
      && p.subscriptionId in subs && subs[p.subscriptionId].manager == manager
      && (subs[p.subscriptionId].implicit || Contains(subs[p.subscriptionId], p.reservation))
  }

  predicate WantsConstraints(subs: map<Id, VertiportSubscription>, p: IntentParams) {
    if p.subscriptionId == "" then p.newSubscriptionForConstraints
    else p.subscriptionId in subs && subs[p.subscriptionId].notifyForConstraints
  }

  predicate Near(a: Reservation, v: Reservation) {
    a.place.vertiport == v.place.vertiport && a.place.zone == v.place.zone && TimesTouch(a.range, v.range)
  }

  predicate IntentMissing(st: Store, u: Reservation, key: seq<Ovn>, id: Id) {
    id in st.intents && st.intents[id].ovn !in key && Near(st.intents[id].reservation, u)
  }

  predicate ConstraintMissing(st: Store, u: Reservation, key: seq<Ovn>, id: Id) {
    id in st.constraints && st.constraints[id].ovn !in key && Near(st.constraints[id].reservation, u)
  }

  predicate NeedsKey(p: IntentParams) {
    p.state == "Accepted" || p.state == "Activated"
  }

  ghost predicate SomeMissing(st: Store, p: IntentParams) {
    || (exists id :: IntentMissing(st, p.reservation, p.key, id))
    || (WantsConstraints(st.subscriptions, p) && exists id :: ConstraintMissing(st, p.reservation, p.key, id))
  }

  /** What a client is told of an OVN that it does not have: its own as it is, of another's only that there is one. */
  ghost predicate Shown(shown: Ovn, owner: Manager, client: Manager, ovn: Ovn) {
    shown == (if owner == client then ovn else "Available from USS")
  }

  /** Exactly the missing intents, and the missing constraints if the subscription wants them. */
  ghost predicate ListsMissing(st: Store, manager: Manager, p: IntentParams, e: Error) {
    && e.MissingOvns?
    && (forall id :: id in e.intents <==> IntentMissing(st, p.reservation, p.key, id))
    && (forall id :: id in e.intents ==>
          Shown(e.intents[id], st.intents[id].manager, manager, st.intents[id].ovn))
    && (forall id :: id in e.constraints <==>
          WantsConstraints(st.subscriptions, p) && ConstraintMissing(st, p.reservation, p.key, id))
    && (forall id :: id in e.constraints ==>
          Shown(e.constraints[id], st.constraints[id].manager, manager, st.constraints[id].ovn))
  }

  lemma MissingExactly(st: Store, manager: Manager, u: Reservation, key: seq<Ovn>)
    ensures var m := MissingIntents(st.intents, manager, u, key);
            var c := MissingConstraints(st.constraints, manager, u, key);
            && (forall id :: id in m <==> IntentMissing(st, u, key, id))
            && (forall id :: id in m ==> Shown(m[id], st.intents[id].manager, manager, st.intents[id].ovn))
            && (forall id :: id in c <==> ConstraintMissing(st, u, key, id))
            && (forall id :: id in c ==> Shown(c[id], st.constraints[id].manager, manager, st.constraints[id].ovn))
  {
    forall id | id in st.intents
      ensures Meets(st.intents[id].reservation, u) <==> Near(st.intents[id].reservation, u)
    {
    }
    forall id | id in st.constraints
      ensures Meets(st.constraints[id].reservation, u) <==> Near(st.constraints[id].reservation, u)
    {
    }
    hide Meets, Near;
  }

  lemma KeyExactly(st: Store, manager: Manager, p: IntentParams)
    ensures var r := CheckKey(st.intents, st.constraints, manager, p, WantsConstraints(st.subscriptions, p));
            && (r.Ok? <==> !SomeMissing(st, p))
            && (r.Err? ==> ListsMissing(st, manager, p, r.error))
  {
    MissingExactly(st, manager, p.reservation, p.key);
    hide MissingIntents, MissingConstraints, IntentMissing, ConstraintMissing, Shown, WantsConstraints;
    var m := MissingIntents(st.intents, manager, p.reservation, p.key);
    var c := MissingConstraints(st.constraints, manager, p.reservation, p.key);
    assert m != map[] <==> exists id :: id in m;
    assert c != map[] <==> exists id :: id in c;
  }

  lemma AttachExactly(subs: map<Id, VertiportSubscription>, cfg: Config, manager: Manager, p: IntentParams, env: Env)
    requires HasTimes(p.reservation)
    ensures var r := AttachSubscription(subs, cfg, manager, p, env);
            && (r.Ok? <==> CanAttach(subs, cfg, manager, p))
            && (r == Err(PermissionDenied) <==>
                  p.subscriptionId != "" && p.subscriptionId in subs && subs[p.subscriptionId].manager != manager)
            && (r.Err? ==> r == Err(PermissionDenied) || r == Err(BadRequest))
            && (r.Ok? ==> r.value.subscriptions[r.value.id].notifyForConstraints == WantsConstraints(subs, p))
  {
  }

  lemma ValidExactly(cfg: Config, ovn: Ovn, p: IntentParams, now: Time)
    ensures ValidIntentParams(cfg, ovn, p, now) <==> FitIntent(cfg, ovn, p, now)
  {
  }

  /** The answer to a request for an intent. What a client may not change it may not change first of all; what it may
      change must be as it thinks it is; then the subscription has to do, and last the key. */
  lemma PutIntentAnswer(st: Store, cfg: Config, id: Id, manager: Manager, ovn: Ovn, p: IntentParams, env: Env)
    ensures var r, fit := PutIntent(st, cfg, id, manager, ovn, p, env), FitIntent(cfg, ovn, p, env.now);
            && (!fit ==> r == Err(BadRequest))
            && (r.Ok? <==>
                  && fit && RightOwner(st, id, manager, ovn) && CanAttach(st.subscriptions, cfg, manager, p)
                  && (NeedsKey(p) ==> !SomeMissing(st, p)))
            && (r == Err(PermissionDenied) <==>
                  && fit
                  && if id in st.intents && st.intents[id].manager != manager then true
                     else
                       && RightOwner(st, id, manager, ovn)
                       && p.subscriptionId != "" && p.subscriptionId in st.subscriptions
                       && st.subscriptions[p.subscriptionId].manager != manager)
            && (r == Err(VersionMismatch) <==>
                  fit && id in st.intents && st.intents[id].manager == manager && st.intents[id].ovn != ovn)
            && (r == Err(NotFound) <==> fit && id !in st.intents && ovn != "")
            && (r.Err? && r.error.MissingOvns? <==>
                  && fit && RightOwner(st, id, manager, ovn) && CanAttach(st.subscriptions, cfg, manager, p)
                  && NeedsKey(p) && SomeMissing(st, p))
            && (r.Err? && r.error.MissingOvns? ==> ListsMissing(st, manager, p, r.error))
            && (r.Err? ==> r.error in {PermissionDenied, VersionMismatch, NotFound, BadRequest} || r.error.MissingOvns?)
  {
    ValidExactly(cfg, ovn, p, env.now);
    if FitIntent(cfg, ovn, p, env.now) {
      AttachExactly(st.subscriptions, cfg, manager, p, env);
      KeyExactly(st, manager, p);
    }
    hide AttachSubscription, CheckKey, WriteIntent, CanAttach, SomeMissing, ListsMissing;
  }

  // ----- what a put of an intent writes -----

  /** The same row but for the notification index. */
  predicate SameRow(before: VertiportSubscription, after: VertiportSubscription) {
    after == before.(index := after.index)
  }

  predicate IsEarlier(a: Option<Time>, u: Option<Time>, r: Option<Time>) {
    (r == a || r == u) && (a.Some? <==> r.Some?) && (a.Some? && u.Some? ==> r.value <= a.value && r.value <= u.value)
  }

  predicate IsLater(a: Option<Time>, u: Option<Time>, r: Option<Time>) {
    (r == a || r == u) && (a.Some? <==> r.Some?) && (a.Some? && u.Some? ==> a.value <= r.value && u.value <= r.value)
  }

  /** A named subscription stays as it is when it contains the times and the place. Otherwise it is implicit, and is
      stretched over both times and moved to the place, under a new version. */
  predicate MovedTo(before: VertiportSubscription, u: Reservation, version: Ovn, after: VertiportSubscription)
    requires HasTimes(u)
  {
    if Contains(before, u) then SameRow(before, after)
    else
      && before.implicit
      && after == before.(index := after.index, version := version, range := after.range, area := u.place)
      && IsEarlier(before.range.start, u.range.start, after.range.start)
      && IsLater(before.range.end, u.range.end, after.range.end)
  }

  /** What becomes of the subscription that an intent is attached to. */
  predicate AttachedRow(
    subs: map<Id, VertiportSubscription>, manager: Manager, p: IntentParams, env: Env, after: VertiportSubscription)
    requires HasTimes(p.reservation) && (p.subscriptionId != "" ==> p.subscriptionId in subs)
  {
    if p.subscriptionId != "" then MovedTo(subs[p.subscriptionId], p.reservation, env.subscriptionOvn, after)
    else
      after == Subscription(env.subscriptionOvn, after.index, manager, p.reservation.range, p.newSubscriptionUrl,
                            true, p.newSubscriptionForConstraints, true, p.reservation.place)
  }

  function TargetId(p: IntentParams, env: Env): Id {
    if p.subscriptionId == "" then env.newId else p.subscriptionId
  }

  lemma AttachWrites(subs: map<Id, VertiportSubscription>, cfg: Config, manager: Manager, p: IntentParams, env: Env)
    requires HasTimes(p.reservation) && AttachSubscription(subs, cfg, manager, p, env).Ok?
    ensures var r, s := AttachSubscription(subs, cfg, manager, p, env).value, TargetId(p, env);
            && r.id == s && s in r.subscriptions && r.subscriptions == subs[s := r.subscriptions[s]]
            && (p.subscriptionId != "" ==> p.subscriptionId in subs)
            && AttachedRow(subs, manager, p, env, r.subscriptions[s])
  {
  }

  lemma AttachedRowAnyIndex(
    subs: map<Id, VertiportSubscription>, manager: Manager, p: IntentParams, env: Env, s: VertiportSubscription,
    after: VertiportSubscription)
    requires HasTimes(p.reservation) && (p.subscriptionId != "" ==> p.subscriptionId in subs)
    requires AttachedRow(subs, manager, p, env, s) && SameRow(s, after)
    ensures AttachedRow(subs, manager, p, env, after)
  {
  }

  lemma NotifyWrites(st: Store, v: Reservation, forIntents: bool)
    ensures var out := Notify(st, v, forIntents).store;
            && out.intents == st.intents && out.constraints == st.constraints
            && out.subscriptions.Keys == st.subscriptions.Keys
            && forall s :: s in st.subscriptions ==> SameRow(st.subscriptions[s], out.subscriptions[s])
  {
  }

  /** A put writes this intent, and this subscription; of other subscriptions nothing but the index. */
  lemma PutIntentWrites(st: Store, cfg: Config, id: Id, manager: Manager, ovn: Ovn, p: IntentParams, env: Env)
    requires PutIntent(st, cfg, id, manager, ovn, p, env).Ok?
    ensures var out, s := PutIntent(st, cfg, id, manager, ovn, p, env).value.store, TargetId(p, env);
            var version := ToInt32((if id in st.intents then st.intents[id].version else 0) + 1);
            && HasTimes(p.reservation)
            && out.intents ==
                 st.intents[id := Intent(manager, version, p.state, env.intentOvn, p.baseUrl, s, p.reservation)]
            && out.constraints == st.constraints
            && out.subscriptions.Keys == st.subscriptions.Keys + {s}
            && (p.subscriptionId != "" ==> p.subscriptionId in st.subscriptions)
            && AttachedRow(st.subscriptions, manager, p, env, out.subscriptions[s])
            && forall x :: x in st.subscriptions && x != s ==> SameRow(st.subscriptions[x], out.subscriptions[x])
  {
    hide AttachSubscription, CheckKey, Notify, AttachedRow, SameRow;
    AttachWrites(st.subscriptions, cfg, manager, p, env);
    var attached := AttachSubscription(st.subscriptions, cfg, manager, p, env).value;
    var prior := CurrentIntent(st, id, manager, ovn).value;
    var version := ToInt32((if prior.None? then 0 else prior.value.version) + 1);
    var intent := Intent(manager, version, p.state, env.intentOvn, p.baseUrl, attached.id, p.reservation);
    NotifyWrites(Store(st.intents[id := intent], attached.subscriptions, st.constraints), p.reservation, true);
    var out := PutIntent(st, cfg, id, manager, ovn, p, env).value.store;
    AttachedRowAnyIndex(st.subscriptions, manager, p, env,
                        attached.subscriptions[attached.id], out.subscriptions[attached.id]);
  }

  // ----- deleting an intent -----

  /** Only the owner deletes; that an intent depends on the subscription it names makes one of the errors impossible. */
  lemma DeleteIntentAnswer(st: Store, id: Id, manager: Manager)
    ensures var r := DeleteIntent(st, id, manager);
            var owned := id in st.intents && st.intents[id].manager == manager;
            && (r.Ok? <==> owned && st.intents[id].subscriptionId in st.subscriptions)
            && (r == Err(NotFound) <==> id !in st.intents)
            && (r == Err(PermissionDenied) <==> id in st.intents && st.intents[id].manager != manager)
            && (r == Err(SubscriptionMissing) <==> owned && st.intents[id].subscriptionId !in st.subscriptions)
            && (r.Err? ==> r.error in {NotFound, PermissionDenied, SubscriptionMissing})
  {
    if id in st.intents {
      assert id in Dependents(st.intents, st.intents[id].subscriptionId);
    }
  }

  lemma OnlyDependent(intents: map<Id, Intent>, id: Id, s: Id)
    requires id in intents && intents[id].subscriptionId == s
    ensures |Dependents(intents, s)| == 1 <==> forall i :: i in intents && intents[i].subscriptionId == s ==> i == id
  {
    var dependents := Dependents(intents, s);
    assert id in dependents;
    if forall i :: i in intents && intents[i].subscriptionId == s ==> i == id {
      assert dependents == {id};
    } else {
      var i :| i in intents && intents[i].subscriptionId == s && i != id;
      assert {i, id} <= dependents;
      SubsetIsSmaller({i, id}, dependents);
    }
  }

  /** A deletion removes this intent, and its subscription when this is implicit and no other intent names it. */
  lemma DeleteIntentWrites(st: Store, id: Id, manager: Manager)
    requires DeleteIntent(st, id, manager).Ok?
    ensures var out, s := DeleteIntent(st, id, manager).value.store, st.intents[id].subscriptionId;
            && out.intents == st.intents - {id} && out.constraints == st.constraints
            && (forall x :: x in st.subscriptions && x !in out.subscriptions <==>
                  && x == s && s in st.subscriptions && st.subscriptions[s].implicit
                  && forall i :: i in st.intents && st.intents[i].subscriptionId == s ==> i == id)
            && out.subscriptions.Keys <= st.subscriptions.Keys
            && forall x :: x in out.subscriptions ==> SameRow(st.subscriptions[x], out.subscriptions[x])
  {
    OnlyDependent(st.intents, id, st.intents[id].subscriptionId);
    NotifyWrites(st, st.intents[id].reservation, true);
    hide Notify, Dependents, SameRow;
  }

  // ----- subscriptions -----

  /** The request is right whatever is stored. */
  ghost predicate FitSubscription(cfg: Config, p: SubscriptionParams) {
    && UrlAccepted(cfg, p.baseUrl) && (p.notifyForIntents || p.notifyForConstraints)
    && p.reservation.place.vertiport != ""
  }

  lemma UnfitSubscription(
    st: Store, cfg: Config, id: Id, manager: Manager, version: Ovn, p: SubscriptionParams, env: Env)
    requires !FitSubscription(cfg, p)
    ensures PutSubscription(st, cfg, id, manager, version, p, env) ==
            Err(if UrlAccepted(cfg, p.baseUrl) && p.reservation.place.vertiport == "" then PermissionDenied
                else BadRequest)
  {
  }

  function PriorRange(st: Store, id: Id): Option<Range> {
    if id in st.subscriptions then Some(st.subscriptions[id].range) else None
  }

  /** The times that the request ends up with. */
  ghost predicate TimesFor(st: Store, id: Id, p: SubscriptionParams, now: Time, start: Time, end: Time) {
    var asked := p.reservation.range;
    IsStart(now, asked, PriorRange(st, id), start) && IsEnd(asked, PriorRange(st, id), start, end)
  }

  predicate TimesAccepted(p: SubscriptionParams, now: Time, start: Time, end: Time) {
    && start <= end <= start + DAY
    && (p.reservation.range.start.Some? ==> now <= p.reservation.range.start.value + FIVE_MINUTES)
  }

  /** The intent is at the place, and lies in the times but for a start five minutes early. */
  predicate CoveredBy(op: Reservation, place: Place, start: Time, end: Time) {
    && op.place.vertiport == place.vertiport && op.place.zone == place.zone
    && op.range.start.Some? && start <= op.range.start.value + FIVE_MINUTES
    && op.range.end.Some? && op.range.end.value <= end
  }

  ghost predicate AllCovered(st: Store, id: Id, place: Place, start: Time, end: Time) {
    forall d :: d in st.intents && st.intents[d].subscriptionId == id ==>
      CoveredBy(st.intents[d].reservation, place, start, end)
  }

  lemma CoveredExactly(st: Store, id: Id, place: Place, start: Time, end: Time)
    requires start <= end <= start + DAY
    ensures CoversDependents(st, id, place, Range(Some(start), Some(end))) <==> AllCovered(st, id, place, start, end)
  {
    var range := Range(Some(start), Some(end));
    forall d | d in st.intents
      ensures ValidateDependentOp(place, range, st.intents[d].reservation).Ok? <==>
                CoveredBy(st.intents[d].reservation, place, start, end)
    {
    }
    hide ValidateDependentOp, CoveredBy;
    assert forall d :: d in Dependents(st.intents, id) <==> d in st.intents && st.intents[d].subscriptionId == id;
  }

  /** The time that would have to be compared next is absent. */
  predicate LacksTime(op: Reservation, place: Place, start: Time) {
    && op.place.vertiport == place.vertiport && op.place.zone == place.zone
    && (op.range.start.None? || (op.range.end.None? && start <= op.range.start.value + FIVE_MINUTES))
  }

  /** The errors for which a dependent intent can be to blame: it lacks a time, or it is not covered. */
  lemma UncoveredExactly(
    st: Store, cfg: Config, id: Id, p: SubscriptionParams, now: Time, start: Time, end: Time, e: Error)
    requires FitSubscription(cfg, p) && TimesFor(st, id, p, now, start, end) && TimesAccepted(p, now, start, end)
    ensures SomeDependentFails(st, id, p, now, e) <==>
              exists d :: d in st.intents && st.intents[d].subscriptionId == id
                          && var op := st.intents[d].reservation;
                             if LacksTime(op, p.reservation.place, start) then e == NilDereference
                             else e == BadRequest && !CoveredBy(op, p.reservation.place, start, end)
  {
    var asked, range, place := p.reservation.range, Range(Some(start), Some(end)), p.reservation.place;
    AdjustedExactly(now, asked, PriorRange(st, id), start, end);
    assert Adjusted(now, asked, PriorRange(st, id)) == Ok(range);
    forall d | d in st.intents
      ensures var op := st.intents[d].reservation;
              ValidateDependentOp(place, range, op) == Err(e) <==>
                if LacksTime(op, place, start) then e == NilDereference
                else e == BadRequest && !CoveredBy(op, place, start, end)
    {
    }
    hide ValidateDependentOp, CoveredBy, LacksTime, IsStart, IsEnd, Adjusted;
  }

  /** The answer to a request that is right in itself: one who presents no version wants a new subscription, any other
      wants to replace the version that is presented; that must be the current one, and the client's own. */
  lemma PutSubscriptionAnswer(
    st: Store, cfg: Config, id: Id, manager: Manager, version: Ovn, p: SubscriptionParams, env: Env,
    start: Time, end: Time)
    requires FitSubscription(cfg, p) && TimesFor(st, id, p, env.now, start, end)
    ensures var r := PutSubscription(st, cfg, id, manager, version, p, env);
            var timely, stored := TimesAccepted(p, env.now, start, end), id in st.subscriptions;
            && (r == Err(NotFound) <==> timely && !stored && version != "")
            && (r == Err(AlreadyExists) <==> timely && stored && version == "")
            && (r == Err(VersionMismatch) <==>
                  timely && stored && version != "" && version != st.subscriptions[id].version)
            && (r == Err(PermissionDenied) <==>
                  && timely && stored && version != "" && version == st.subscriptions[id].version
                  && manager != st.subscriptions[id].manager)
            && (r.Ok? <==>
                  && timely
                  && (if stored then
                        && version != "" && version == st.subscriptions[id].version
                        && manager == st.subscriptions[id].manager
                        && AllCovered(st, id, p.reservation.place, start, end)
                      else version == ""))
            && (r.Err? ==> r.error in {NotFound, AlreadyExists, VersionMismatch, PermissionDenied, BadRequest})
  {
    AdjustedExactly(env.now, p.reservation.range, PriorRange(st, id), start, end);
    if TimesAccepted(p, env.now, start, end) {
      CoveredExactly(st, id, p.reservation.place, start, end);
    }
    hide Adjusted, CoversDependents, AllCovered, IsStart, IsEnd;
  }

  lemma MissedStart(st: Store, cfg: Config, id: Id, manager: Manager, version: Ovn, p: SubscriptionParams, env: Env)
    requires FitSubscription(cfg, p)
    ensures (exists start, end :: TimesFor(st, id, p, env.now, start, end))
            || PutSubscription(st, cfg, id, manager, version, p, env) == Err(NilDereference)
  {
    var asked := p.reservation.range;
    AdjustedMissesStart(env.now, asked, PriorRange(st, id));
    hide Adjusted, CoversDependents;
    if start, end :|
      IsStart(env.now, asked, PriorRange(st, id), start) && IsEnd(asked, PriorRange(st, id), start, end) {
      assert TimesFor(st, id, p, env.now, start, end);
    }
  }

  /** A put writes this row, explicit from now on and with the index that it had, and nothing else. */
  lemma PutSubscriptionWrites(
    st: Store, cfg: Config, id: Id, manager: Manager, version: Ovn, p: SubscriptionParams, env: Env,
    start: Time, end: Time)
    requires FitSubscription(cfg, p) && TimesFor(st, id, p, env.now, start, end)
    requires PutSubscription(st, cfg, id, manager, version, p, env).Ok?
    ensures var index := if id in st.subscriptions then st.subscriptions[id].index else 0;
            var row := Subscription(env.subscriptionOvn, index, manager, Range(Some(start), Some(end)), p.baseUrl,
                                    p.notifyForIntents, p.notifyForConstraints, false, p.reservation.place);
            PutSubscription(st, cfg, id, manager, version, p, env) ==
              Ok(Store(st.intents, st.subscriptions[id := row], st.constraints))
  {
    AdjustedExactly(env.now, p.reservation.range, PriorRange(st, id), start, end);
    hide Adjusted, CoversDependents, IsStart, IsEnd;
  }

  lemma DeleteSubscriptionAnswer(st: Store, id: Id, manager: Manager)
    ensures var r := DeleteSubscription(st, id, manager);
            var needed := exists d :: d in st.intents && st.intents[d].subscriptionId == id;
            && (r == Err(NotFound) <==> id !in st.subscriptions)
            && (r == Err(PermissionDenied) <==> id in st.subscriptions && st.subscriptions[id].manager != manager)
            && (r == Err(BadRequest) <==>
                  id in st.subscriptions && st.subscriptions[id].manager == manager && needed)
            && (id in st.subscriptions && st.subscriptions[id].manager == manager && !needed ==>
                  r == Ok(Store(st.intents, st.subscriptions - {id}, st.constraints)))
  {
    var dependents := Dependents(st.intents, id);
    assert forall d :: d in dependents <==> d in st.intents && st.intents[d].subscriptionId == id;
    assert dependents != {} <==> exists d :: d in dependents;
  }

  // ----- constraints -----

  /** The request is right whatever is stored. */
  ghost predicate FitConstraint(cfg: Config, p: ConstraintParams) {
    p.baseUrl != "" && UrlAccepted(cfg, p.baseUrl) && HasTimes(p.reservation)
  }

  lemma PutConstraintAnswer(st: Store, cfg: Config, id: Id, manager: Manager, ovn: Ovn, p: ConstraintParams, env: Env)
    ensures var r, stored := PutConstraint(st, cfg, id, manager, ovn, p, env), id in st.constraints;
            var fit := FitConstraint(cfg, p);
            && (r == Err(BadRequest) <==> !fit)
            && (r == Err(PermissionDenied) <==> fit && stored && st.constraints[id].manager != manager)
            && (r == Err(VersionMismatch) <==>
                  && fit
                  && if stored then st.constraints[id].manager == manager && st.constraints[id].ovn != ovn
                     else ovn != "")
            && (r.Ok? <==>
                  && fit
                  && if stored then st.constraints[id].manager == manager && st.constraints[id].ovn == ovn
                     else ovn == "")
            && (r.Err? ==> r.error in {BadRequest, PermissionDenied, VersionMismatch})
  {
    hide Notify;
  }

  lemma PutConstraintWrites(
    st: Store, cfg: Config, id: Id, manager: Manager, ovn: Ovn, p: ConstraintParams, env: Env)
    requires PutConstraint(st, cfg, id, manager, ovn, p, env).Ok?
    ensures var out := PutConstraint(st, cfg, id, manager, ovn, p, env).value.store;
            var version := ToInt32((if id in st.constraints then st.constraints[id].version else 0) + 1);
            var written := Constraint(manager, version, env.constraintOvn, p.baseUrl, p.reservation);
            && out.constraints == st.constraints[id := written]
            && out.intents == st.intents && out.subscriptions.Keys == st.subscriptions.Keys
            && forall s :: s in st.subscriptions ==> SameRow(st.subscriptions[s], out.subscriptions[s])
  {
    hide Notify, SameRow;
    var version := ToInt32((if id in st.constraints then st.constraints[id].version else 0) + 1);
    var written := Constraint(manager, version, env.constraintOvn, p.baseUrl, p.reservation);
    NotifyWrites(Store(st.intents, st.subscriptions, st.constraints[id := written]), p.reservation, false);
  }

  lemma DeleteConstraintAnswer(st: Store, id: Id, manager: Manager)
    ensures var r := DeleteConstraint(st, id, manager);
            && (r == Err(NotFound) <==> id !in st.constraints)
            && (r == Err(PermissionDenied) <==> id in st.constraints && st.constraints[id].manager != manager)
            && (r.Err? ==> r.error in {NotFound, PermissionDenied})
            && (r.Ok? ==>
                  && r.value.store.constraints == st.constraints - {id} && r.value.store.intents == st.intents
                  && r.value.store.subscriptions.Keys == st.subscriptions.Keys
                  && forall s :: s in st.subscriptions ==> SameRow(st.subscriptions[s], r.value.store.subscriptions[s]))
  {
    hide Notify, SameRow;
    if id in st.constraints {
      NotifyWrites(st.(constraints := st.constraints - {id}), st.constraints[id].reservation, false);
    }
  }
}
