/** Who is told of changed reservations, and where vertiport subscriptions differ from those on volumes at large. */
module VertiportNotifications {
  import opened Common
  import opened SubscriptionTimes
  import opened Subscribers
  import opened VertiportModel
  import opened VertiportRuns
  import opened VertiportAnswers

  predicate Interested(s: VertiportSubscription, v: Reservation, forIntents: bool) {
    Meets(Reservation(s.range, s.area), v) && Wants(s, forIntents)
  }

  function IndexIn(subs: map<Id, VertiportSubscription>, id: Id): int {
    if id in subs then subs[id].index else 0
  }

  /** It is at the place of the reservation, its times touch those of the reservation, and it wants intents or wants
      constraints. */
  predicate Concerned(s: VertiportSubscription, v: Reservation, forIntents: bool) {
    && s.area.vertiport == v.place.vertiport && s.area.zone == v.place.zone && TimesTouch(s.range, v.range)
    && (if forIntents then s.notifyForIntents else s.notifyForConstraints)
  }

  lemma ConcernedExactly(s: VertiportSubscription, v: Reservation, forIntents: bool)
    ensures Concerned(s, v, forIntents) <==> Interested(s, v, forIntents)
  {
  }

  /** Between two sets of subscriptions exactly the ones concerned by `v` went up, each by one; the new rows of those
      are `notified`. A subscription that is new starts from zero. */
  ghost predicate NotifiedOnce(
    before: map<Id, VertiportSubscription>, after: map<Id, VertiportSubscription>, v: Reservation,
    forIntents: bool, notified: map<Id, VertiportSubscription>)
  {
    && (forall s :: s in after ==>
          && (s in notified <==> Concerned(after[s], v, forIntents))
          && after[s].index == IndexIn(before, s) + (if s in notified then 1 else 0))
    && (forall s :: s in notified ==> s in after && notified[s] == after[s])
  }

  lemma NotifyIsOnce(st: Store, v: Reservation, forIntents: bool)
    ensures var told := Notify(st, v, forIntents);
            && told.store.subscriptions.Keys == st.subscriptions.Keys
            && NotifiedOnce(st.subscriptions, told.store.subscriptions, v, forIntents, told.notified)
  {
    var after := Notify(st, v, forIntents).store.subscriptions;
    forall s | s in st.subscriptions
      ensures Concerned(after[s], v, forIntents) <==> Interested(st.subscriptions[s], v, forIntents)
    {
      ConcernedExactly(after[s], v, forIntents);
    }
    hide Concerned, Meets;
  }

  lemma AttachKeepsIndices(
    subs: map<Id, VertiportSubscription>, cfg: Config, manager: Manager, p: IntentParams, env: Env)
    requires Complete(p.reservation.range) && env.newId !in subs
    requires AttachSubscription(subs, cfg, manager, p, env).Ok?
    ensures var after := AttachSubscription(subs, cfg, manager, p, env).value.subscriptions;
            subs.Keys <= after.Keys && forall s :: s in after ==> after[s].index == IndexIn(subs, s)
  {
  }

  /** A put notifies the subscriptions that meet the new reservation, as they are after it, and no other index
      changes. */
  lemma PutIntentNotifies(st: Store, cfg: Config, id: Id, manager: Manager, ovn: Ovn, p: IntentParams, env: Env)
    requires PutIntent(st, cfg, id, manager, ovn, p, env).Ok? && env.newId !in st.subscriptions
    ensures var out := PutIntent(st, cfg, id, manager, ovn, p, env).value;
            && id in out.store.intents && out.store.intents[id].reservation == p.reservation
            && st.subscriptions.Keys <= out.store.subscriptions.Keys
            && NotifiedOnce(st.subscriptions, out.store.subscriptions, p.reservation, true, out.notified)
  {
    hide AttachSubscription, CheckKey, Notify, NotifiedOnce, Interested;
    var attached := AttachSubscription(st.subscriptions, cfg, manager, p, env).value;
    var prior := CurrentIntent(st, id, manager, ovn).value;
    AttachKeepsIndices(st.subscriptions, cfg, manager, p, env);
    WriteNotifies(st.(subscriptions := attached.subscriptions), id, manager, prior, p, attached.id, env);
    assert forall s :: s in attached.subscriptions ==>
      IndexIn(attached.subscriptions, s) == IndexIn(st.subscriptions, s);
    var out := PutIntent(st, cfg, id, manager, ovn, p, env).value;
    SameIndices(st.subscriptions, attached.subscriptions, out, p.reservation);
  }

  lemma WriteNotifies(
    st: Store, id: Id, manager: Manager, prior: Option<Intent>, p: IntentParams, subscriptionId: Id, env: Env)
    ensures var out := WriteIntent(st, id, manager, prior, p, subscriptionId, env);
            && id in out.store.intents && out.store.intents[id].reservation == p.reservation
            && out.store.subscriptions.Keys == st.subscriptions.Keys
            && NotifiedOnce(st.subscriptions, out.store.subscriptions, p.reservation, true, out.notified)
  {
    hide Notify, NotifiedOnce;
    var version := ToInt32((if prior.None? then 0 else prior.value.version) + 1);
    var intent := Intent(manager, version, p.state, env.intentOvn, p.baseUrl, subscriptionId, p.reservation);
    NotifyIsOnce(st.(intents := st.intents[id := intent]), p.reservation, true);
    NotifyWrites(st.(intents := st.intents[id := intent]), p.reservation, true);
  }

  lemma SameIndices(
    before: map<Id, VertiportSubscription>, between: map<Id, VertiportSubscription>, out: Outcome, v: Reservation)
    requires NotifiedOnce(between, out.store.subscriptions, v, true, out.notified)
    requires out.store.subscriptions.Keys == between.Keys
    requires forall s :: s in between ==> IndexIn(between, s) == IndexIn(before, s)
    ensures NotifiedOnce(before, out.store.subscriptions, v, true, out.notified)
  {
  }

  /** That misses the subscriptions that meet only the old reservation. The new one reaches all of those for certain
      if and only if it is at the same place and covers the old times. So it is with constraints. */
  lemma OldReservationIsReached(u: Reservation, prior: Reservation, forIntents: bool)
    requires Complete(u.range) && Complete(prior.range) && prior.range.start.value <= prior.range.end.value
    ensures (forall s :: Concerned(s, prior, forIntents) ==> Concerned(s, u, forIntents)) <==>
            && u.place == prior.place
            && u.range.start.value <= prior.range.start.value && prior.range.end.value <= u.range.end.value
  {
    var first := Range(prior.range.start, prior.range.start);
    var last := Range(prior.range.end, prior.range.end);
    var s0 := Subscription("", 0, "", first, "", forIntents, !forIntents, false, prior.place);
    var s1 := Subscription("", 0, "", last, "", forIntents, !forIntents, false, prior.place);
    assert Concerned(s0, prior, forIntents) && Concerned(s1, prior, forIntents);
    if forall s :: Concerned(s, prior, forIntents) ==> Concerned(s, u, forIntents) {
      assert Concerned(s0, u, forIntents) && Concerned(s1, u, forIntents);
    }
  }

  /** A deletion notifies the subscriptions that meet the reservation; the only one that disappears is an implicit
      one that no other intent depends on, and it is notified like the others. */
  lemma DeleteIntentNotifies(st: Store, id: Id, manager: Manager)
    requires DeleteIntent(st, id, manager).Ok?
    ensures var out, s0 := DeleteIntent(st, id, manager).value, st.intents[id].subscriptionId;
            && (forall s :: s in st.subscriptions ==>
                  (s !in out.store.subscriptions <==>
                     s == s0 && st.subscriptions[s0].implicit && Dependents(st.intents, s0) == {id}))
            && (exists after: map<Id, VertiportSubscription> ::
                  && after.Keys == st.subscriptions.Keys
                  && (forall s :: s in out.store.subscriptions ==> s in after && out.store.subscriptions[s] == after[s])
                  && NotifiedOnce(st.subscriptions, after, st.intents[id].reservation, true, out.notified))
  {
    var told := Notify(st, st.intents[id].reservation, true);
    NotifyIsOnce(st, st.intents[id].reservation, true);
    hide NotifiedOnce;
    var s0 := st.intents[id].subscriptionId;
    var dependents := Dependents(st.intents, s0);
    assert id in dependents;
    if |dependents| == 1 {
      forall i | i in dependents ensures i == id {
        if i != id { SubsetIsSmaller({i, id}, dependents); }
      }
      assert dependents == {id};
    }
    var after := told.store.subscriptions;
    assert NotifiedOnce(st.subscriptions, after, st.intents[id].reservation, true, told.notified);
  }

  /** Constraints are notified in the same way, to the subscriptions that want constraints. */
  lemma PutConstraintNotifies(
    st: Store, cfg: Config, id: Id, manager: Manager, ovn: Ovn, p: ConstraintParams, env: Env)
    requires PutConstraint(st, cfg, id, manager, ovn, p, env).Ok?
    ensures var out := PutConstraint(st, cfg, id, manager, ovn, p, env).value;
            && id in out.store.constraints && out.store.constraints[id].reservation == p.reservation
            && out.store.intents == st.intents && out.store.subscriptions.Keys == st.subscriptions.Keys
            && NotifiedOnce(st.subscriptions, out.store.subscriptions, p.reservation, false, out.notified)
  {
    hide Notify, NotifiedOnce;
    var version := ToInt32((if id in st.constraints then st.constraints[id].version else 0) + 1);
    var constraint := Constraint(manager, version, env.constraintOvn, p.baseUrl, p.reservation);
    NotifyIsOnce(st.(constraints := st.constraints[id := constraint]), p.reservation, false);
    NotifyWrites(st.(constraints := st.constraints[id := constraint]), p.reservation, false);
  }

  lemma DeleteConstraintNotifies(st: Store, id: Id, manager: Manager)
    requires DeleteConstraint(st, id, manager).Ok?
    ensures var out := DeleteConstraint(st, id, manager).value;
            && out.store.constraints == st.constraints - {id}
            && out.store.intents == st.intents && out.store.subscriptions.Keys == st.subscriptions.Keys
            && NotifiedOnce(
                 st.subscriptions, out.store.subscriptions, st.constraints[id].reservation, false, out.notified)
  {
    hide Notify, NotifiedOnce;
    NotifyIsOnce(st.(constraints := st.constraints - {id}), st.constraints[id].reservation, false);
    NotifyWrites(st.(constraints := st.constraints - {id}), st.constraints[id].reservation, false);
  }

  /** In every reachable store: a constraint that is put or deleted notifies the subscription that a stored intent
      names, if and only if this wants constraints, is at the place of the constraint, and touches its times. For an
      intent that the constraint meets, an explicit subscription is at the place, and the times touch if the constraint
      ends no sooner than five minutes after the intent starts. */
  lemma ConstraintIsNotified(
    cfg: Config, events: seq<Event>, n: nat, id: Id, manager: Manager, ovn: Ovn, p: ConstraintParams, env: Env, i: Id)
    requires FreshIds(cfg, events) && n <= |events| && i in After(cfg, events, n).intents
    ensures var st := After(cfg, events, n);
            var s, put, deletion :=
              st.intents[i].subscriptionId, PutConstraint(st, cfg, id, manager, ovn, p, env),
              DeleteConstraint(st, id, manager);
            && s in st.subscriptions && Complete(st.intents[i].reservation.range)
            && (put.Ok? ==> (s in put.value.notified <==> WantsAt(st.subscriptions[s], p.reservation)))
            && (deletion.Ok? ==>
                  && id in st.constraints
                  && (s in deletion.value.notified <==> WantsAt(st.subscriptions[s], st.constraints[id].reservation)))
            && forall v: Reservation :: Near(st.intents[i].reservation, v) ==>
                 ReachedBy(st.subscriptions[s], st.intents[i].reservation, v)
  {
    SupportOverRuns(cfg, events, n);
    var st := After(cfg, events, n);
    hide After, FreshIds, PutConstraint, DeleteConstraint, ReachedBy, Near, WantsAt, NotifiedOnce, Supports;
    var s := st.intents[i].subscriptionId;
    SupportsNear(st.subscriptions[s], st.intents[i]);
    if PutConstraint(st, cfg, id, manager, ovn, p, env).Ok? {
      PutConstraintNotifies(st, cfg, id, manager, ovn, p, env);
      PutConstraintWrites(st, cfg, id, manager, ovn, p, env);
      WantsConstraintsOnce(st, PutConstraint(st, cfg, id, manager, ovn, p, env).value, p.reservation, s);
    }
    DeleteConstraintAnswer(st, id, manager);
    if DeleteConstraint(st, id, manager).Ok? {
      DeleteConstraintNotifies(st, id, manager);
      WantsConstraintsOnce(st, DeleteConstraint(st, id, manager).value, st.constraints[id].reservation, s);
    }
  }

  /** At the place of the reservation if it is explicit, and in its times if that ends late enough. */
  predicate ReachedBy(s: VertiportSubscription, other: Reservation, v: Reservation)
    requires other.range.start.Some?
  {
    && (!s.implicit ==> s.area == v.place)
    && (v.range.end.Some? && other.range.start.value + MAX_CLOCK_SKEW <= v.range.end.value ==>
          TimesTouch(s.range, v.range))
  }

  lemma SupportsNear(s: VertiportSubscription, i: Intent)
    requires Supports(s, i)
    ensures Complete(i.reservation.range)
    ensures forall v: Reservation :: Near(i.reservation, v) ==> ReachedBy(s, i.reservation, v)
  {
  }

  lemma WantsConstraintsOnce(st: Store, out: Outcome, v: Reservation, s: Id)
    requires s in st.subscriptions && s in out.store.subscriptions
    requires SameRow(st.subscriptions[s], out.store.subscriptions[s])
    requires NotifiedOnce(st.subscriptions, out.store.subscriptions, v, false, out.notified)
    ensures s in out.notified <==> WantsAt(st.subscriptions[s], v)
  {
    assert s in out.notified <==> Concerned(out.store.subscriptions[s], v, false);
  }

  /** It wants constraints, is at the place, and touches the times of the reservation. */
  predicate WantsAt(s: VertiportSubscription, v: Reservation) {
    s.notifyForConstraints && s.area == v.place && TimesTouch(s.range, v.range)
  }

  // ----- the place of a shared subscription -----

  /** The subscription of the intent is at the place of the intent. */
  ghost predicate AtPlace(st: Store, i: Id)
    requires i in st.intents
  {
    && st.intents[i].subscriptionId in st.subscriptions
    && st.subscriptions[st.intents[i].subscriptionId].area == st.intents[i].reservation.place
  }

  ghost predicate AllAtPlace(st: Store) {
    forall i :: i in st.intents ==> AtPlace(st, i)
  }

  lemma AttachedPlaces(subs: map<Id, VertiportSubscription>, cfg: Config, manager: Manager, p: IntentParams, env: Env)
    requires Complete(p.reservation.range) && env.newId !in subs
    requires AttachSubscription(subs, cfg, manager, p, env).Ok?
    ensures var attached := AttachSubscription(subs, cfg, manager, p, env).value;
            && attached.id == (if p.subscriptionId == "" then env.newId else p.subscriptionId)
            && attached.subscriptions.Keys == subs.Keys + {attached.id}
            && attached.subscriptions[attached.id].area == p.reservation.place
            && forall s :: s in subs && s != attached.id ==> attached.subscriptions[s] == subs[s]
  {
  }

  lemma WrittenPlaces(
    st: Store, id: Id, manager: Manager, prior: Option<Intent>, p: IntentParams, subscriptionId: Id, env: Env)
    ensures var out := WriteIntent(st, id, manager, prior, p, subscriptionId, env);
            && out.store.intents.Keys == st.intents.Keys + {id}
            && (forall i :: i in st.intents && i != id ==> out.store.intents[i] == st.intents[i])
            && out.store.intents[id].subscriptionId == subscriptionId
            && out.store.intents[id].reservation == p.reservation
            && out.store.subscriptions.Keys == st.subscriptions.Keys
            && forall s :: s in st.subscriptions ==> out.store.subscriptions[s].area == st.subscriptions[s].area
  {
  }

  /** The put asks for a new subscription, or all other intents that depend on the one it names are at its place. */
  predicate Together(st: Store, id: Id, p: IntentParams) {
    || p.subscriptionId == ""
    || forall d | d in Dependents(st.intents, p.subscriptionId) && d != id ::
         st.intents[d].reservation.place == p.reservation.place
  }

  /** Between the two stores intent `id` was put under subscription `s`, which then is at `place`. */
  ghost predicate PutUnder(st: Store, out: Store, id: Id, s: Id, place: Place) {
    && out.intents.Keys == st.intents.Keys + {id} && out.subscriptions.Keys == st.subscriptions.Keys + {s}
    && (forall i :: i in st.intents && i != id ==> out.intents[i] == st.intents[i])
    && out.intents[id].subscriptionId == s && out.intents[id].reservation.place == place
    && (forall x :: x in st.subscriptions && x != s ==> out.subscriptions[x].area == st.subscriptions[x].area)
    && out.subscriptions[s].area == place
  }

  lemma PlaceAfter(st: Store, out: Store, id: Id, s: Id, place: Place, i: Id)
    requires PutUnder(st, out, id, s, place) && i in out.intents && (i in st.intents && i != id ==> AtPlace(st, i))
    ensures AtPlace(out, i) <==>
              (i in Dependents(st.intents, s) && i != id ==> st.intents[i].reservation.place == place)
  {
  }

  lemma PlacesAfter(st: Store, out: Store, id: Id, s: Id, place: Place)
    requires AllAtPlace(st) && PutUnder(st, out, id, s, place)
    ensures AllAtPlace(out) <==>
              forall d :: d in Dependents(st.intents, s) && d != id ==> st.intents[d].reservation.place == place
  {
    forall i | i in out.intents
      ensures AtPlace(out, i) <==>
                (i in Dependents(st.intents, s) && i != id ==> st.intents[i].reservation.place == place)
    {
      PlaceAfter(st, out, id, s, place, i);
    }
    assert forall d :: d in Dependents(st.intents, s) ==> d in out.intents;
    hide AtPlace, PutUnder, Dependents;
  }

  lemma PutIsUnder(st: Store, cfg: Config, id: Id, manager: Manager, ovn: Ovn, p: IntentParams, env: Env)
    requires env.newId !in st.subscriptions && PutIntent(st, cfg, id, manager, ovn, p, env).Ok?
    ensures var s := if p.subscriptionId == "" then env.newId else p.subscriptionId;
            PutUnder(st, PutIntent(st, cfg, id, manager, ovn, p, env).value.store, id, s, p.reservation.place)
  {
    hide AttachSubscription, CheckKey, WriteIntent;
    var prior := CurrentIntent(st, id, manager, ovn).value;
    var attached := AttachSubscription(st.subscriptions, cfg, manager, p, env).value;
    AttachedPlaces(st.subscriptions, cfg, manager, p, env);
    WrittenPlaces(st.(subscriptions := attached.subscriptions), id, manager, prior, p, attached.id, env);
  }

  lemma NoneDepends(st: Store, s: Id)
    requires AllAtPlace(st) && s !in st.subscriptions
    ensures Dependents(st.intents, s) == {}
  {
  }

  /** Exactly such a put keeps all subscriptions at the places of their intents. */
  lemma PutKeepsPlaces(st: Store, cfg: Config, id: Id, manager: Manager, ovn: Ovn, p: IntentParams, env: Env)
    requires AllAtPlace(st) && env.newId !in st.subscriptions && PutIntent(st, cfg, id, manager, ovn, p, env).Ok?
    ensures AllAtPlace(PutIntent(st, cfg, id, manager, ovn, p, env).value.store) <==> Together(st, id, p)
  {
    hide PutIntent, AllAtPlace, PutUnder, Dependents;
    var s := if p.subscriptionId == "" then env.newId else p.subscriptionId;
    PutIsUnder(st, cfg, id, manager, ovn, p, env);
    PlacesAfter(st, PutIntent(st, cfg, id, manager, ovn, p, env).value.store, id, s, p.reservation.place);
    if p.subscriptionId == "" {
      NoneDepends(st, s);
    }
  }

  /** The place is no part of the support that an implicit subscription gives: for any two places, at any time,
      there is a run after which an intent at one of them names a subscription at the other. */
  lemma SharedSubscriptionMoves(cfg: Config, t: Time, p: Place, q: Place) returns (events: seq<Event>)
    requires cfg.enableHttp && p != q && p.vertiport != "" && q.vertiport != ""
    ensures |events| == 2 && FreshIds(cfg, events)
    ensures var st := After(cfg, events, 2);
            && "a" in st.intents && st.intents["a"].reservation.place == p
            && st.intents["a"].subscriptionId in st.subscriptions
            && st.subscriptions[st.intents["a"].subscriptionId].area == q
  {
    var range := Range(Some(t), Some(t + 1));
    var here, there := Reservation(range, p), Reservation(range, q);
    var a := IntentParams("u", "Accepted", here, [], "", "v", false);
    var b := IntentParams("u", "Accepted", there, [], "s", "", false);
    var e0 := Event(PutIntentCall("a", "m", "", a), Env(t, "s", "o", "w", ""));
    var e1 := Event(PutIntentCall("b", "m", "", b), Env(t, "t", "x", "y", ""));
    events := [e0, e1];
    var empty := Store(map[], map[], map[]);
    FirstPut(cfg, t, here, e0);
    var one := Advance(cfg, empty, e0);
    assert After(cfg, events, 1) == one by { assert After(cfg, events, 0) == empty; }
    SecondPut(cfg, t, one, here, there, e1);
  }

  /** A put that creates an intent with a new implicit subscription, where there is nothing that it has to know. */
  lemma NewPut(cfg: Config, st: Store, id: Id, manager: Manager, p: IntentParams, env: Env)
    requires cfg.enableHttp && ValidIntentParams(cfg, "", p, env.now) && id !in st.intents
    requires p.subscriptionId == "" && p.newSubscriptionUrl != "" && !p.newSubscriptionForConstraints
    requires st.intents == map[] && env.newId !in st.subscriptions
    ensures var sub := Subscription(env.subscriptionOvn, 0, manager, p.reservation.range, p.newSubscriptionUrl,
                                    true, false, true, p.reservation.place);
            var attached := st.(subscriptions := st.subscriptions[env.newId := sub]);
            PutIntent(st, cfg, id, manager, "", p, env) ==
              Ok(WriteIntent(attached, id, manager, None, p, env.newId, env))
  {
    assert MissingIntents(st.intents, manager, p.reservation, p.key) == map[];
    hide WriteIntent;
  }

  lemma FirstPut(cfg: Config, t: Time, here: Reservation, e: Event)
    requires cfg.enableHttp && here.place.vertiport != "" && here.range == Range(Some(t), Some(t + 1))
    requires e == Event(PutIntentCall("a", "m", "", IntentParams("u", "Accepted", here, [], "", "v", false)),
                        Env(t, "s", "o", "w", ""))
    ensures var st := Advance(cfg, Store(map[], map[], map[]), e);
            && st.intents.Keys == {"a"} && st.intents["a"].subscriptionId == "s" && st.intents["a"].reservation == here
            && st.subscriptions.Keys == {"s"} && st.constraints == map[]
            && st.subscriptions["s"].implicit && st.subscriptions["s"].manager == "m"
            && st.subscriptions["s"].range == here.range && !st.subscriptions["s"].notifyForConstraints
  {
    hide PutIntent;
    NewPut(cfg, Store(map[], map[], map[]), "a", "m", e.call.intent, e.env);
  }

  lemma SecondPut(cfg: Config, t: Time, st: Store, here: Reservation, there: Reservation, e: Event)
    requires cfg.enableHttp && there.place.vertiport != "" && here.place != there.place
    requires there.range == Range(Some(t), Some(t + 1))
    requires st.intents.Keys == {"a"} && st.intents["a"].subscriptionId == "s" && st.intents["a"].reservation == here
    requires st.subscriptions.Keys == {"s"} && st.constraints == map[]
    requires st.subscriptions["s"].implicit && st.subscriptions["s"].manager == "m"
    requires st.subscriptions["s"].range == there.range && !st.subscriptions["s"].notifyForConstraints
    requires e == Event(PutIntentCall("b", "m", "", IntentParams("u", "Accepted", there, [], "s", "", false)),
                        Env(t, "t", "x", "y", ""))
    ensures var after := Advance(cfg, st, e);
            && "a" in after.intents && after.intents["a"] == st.intents["a"]
            && "s" in after.subscriptions && after.subscriptions["s"].area == there.place
  {
    assert MissingIntents(st.intents, "m", there, []) == map[];
  }

  lemma DeleteIntentKeepsPlaces(st: Store, id: Id, manager: Manager)
    requires AllAtPlace(st) && DeleteIntent(st, id, manager).Ok?
    ensures AllAtPlace(DeleteIntent(st, id, manager).value.store)
  {
    var s := st.intents[id].subscriptionId;
    forall i | i in st.intents && i != id && st.intents[i].subscriptionId == s ensures |Dependents(st.intents, s)| > 1 {
      assert {i, id} <= Dependents(st.intents, s);
      SubsetIsSmaller({i, id}, Dependents(st.intents, s));
    }
  }

  lemma SubscriptionCallsKeepPlaces(cfg: Config, st: Store, e: Event)
    requires AllAtPlace(st) && (e.call.PutSubscriptionCall? || e.call.DeleteSubscriptionCall?) && Step(cfg, st, e).Ok?
    ensures AllAtPlace(Step(cfg, st, e).value)
  {
    hide Adjusted;
    forall i | i in st.intents && st.intents[i].subscriptionId == e.call.id
      ensures i in Dependents(st.intents, e.call.id)
    {
    }
  }

  lemma ConstraintCallsKeepPlaces(cfg: Config, st: Store, e: Event)
    requires AllAtPlace(st) && (e.call.PutConstraintCall? || e.call.DeleteConstraintCall?) && Step(cfg, st, e).Ok?
    ensures AllAtPlace(Step(cfg, st, e).value)
  {
  }

  lemma StepKeepsPlaces(cfg: Config, st: Store, e: Event)
    requires AllAtPlace(st) && e.env.newId !in st.subscriptions
    ensures AllAtPlace(Advance(cfg, st, e)) <==>
              (Step(cfg, st, e).Ok? && e.call.PutIntentCall? ==> Together(st, e.call.id, e.call.intent))
  {
    hide PutIntent, DeleteIntent, PutSubscription, DeleteSubscription, PutConstraint, DeleteConstraint, Together;
    hide AllAtPlace;
    if Step(cfg, st, e).Ok? {
      match e.call
      case PutIntentCall(id, manager, ovn, p) => PutKeepsPlaces(st, cfg, id, manager, ovn, p, e.env);
      case DeleteIntentCall(id, manager) => DeleteIntentKeepsPlaces(st, id, manager);
      case PutSubscriptionCall(_, _, _, _) => SubscriptionCallsKeepPlaces(cfg, st, e);
      case DeleteSubscriptionCall(_, _) => SubscriptionCallsKeepPlaces(cfg, st, e);
      case PutConstraintCall(_, _, _, _) => ConstraintCallsKeepPlaces(cfg, st, e);
      case DeleteConstraintCall(_, _) => ConstraintCallsKeepPlaces(cfg, st, e);
    }
  }

  ghost predicate PlacesAt(cfg: Config, events: seq<Event>, n: nat)
    requires n <= |events|
  {
    AllAtPlace(After(cfg, events, n))
  }

  ghost predicate TogetherAt(cfg: Config, events: seq<Event>, n: nat)
    requires n < |events|
  {
    var st, e := After(cfg, events, n), events[n];
    Step(cfg, st, e).Ok? && e.call.PutIntentCall? ==> Together(st, e.call.id, e.call.intent)
  }

  lemma TurnKeepsPlaces(cfg: Config, events: seq<Event>, n: nat)
    requires FreshIds(cfg, events) && n < |events| && PlacesAt(cfg, events, n)
    ensures PlacesAt(cfg, events, n + 1) <==> TogetherAt(cfg, events, n)
  {
    hide Advance, AllAtPlace;
    StepKeepsPlaces(cfg, After(cfg, events, n), events[n]);
    assert After(cfg, events, n + 1) == Advance(cfg, After(cfg, events, n), events[n]);
  }

  /** At all points of a run the subscriptions are at the places of their intents, if and only if all puts that commit
      are such puts. */
  lemma {:induction false} PlacesOverRuns(cfg: Config, events: seq<Event>, n: nat)
    requires FreshIds(cfg, events) && n <= |events|
    ensures (forall k :: 0 <= k <= n ==> PlacesAt(cfg, events, k)) <==>
            (forall k :: 0 <= k < n ==> TogetherAt(cfg, events, k))
  {
    hide PlacesAt, TogetherAt, FreshIds, After;
    if n == 0 {
      NoPlaces(cfg, events);
    } else {
      PlacesOverRuns(cfg, events, n - 1);
      if PlacesAt(cfg, events, n - 1) {
        TurnKeepsPlaces(cfg, events, n - 1);
      }
    }
  }

  lemma NoPlaces(cfg: Config, events: seq<Event>)
    ensures PlacesAt(cfg, events, 0)
  {
  }

  // ----- a move that leaves a subscription unnotified -----

  /** One client subscribes at `p`; another puts an intent there and then moves it to `q`, all at time `t`. */
  function MovingRun(t: Time, p: Place, q: Place): seq<Event> {
    var range := Range(Some(t), Some(t + 1));
    var here, there := Reservation(range, p), Reservation(range, q);
    [ Event(PutSubscriptionCall("w", "n", "", SubscriptionParams("v", here, true, false)), Env(t, "", "", "x", "")),
      Event(PutIntentCall("a", "m", "", IntentParams("u", "Accepted", here, [], "", "v", false)),
            Env(t, "s", "o", "y", "")),
      Event(PutIntentCall("a", "m", "o", IntentParams("u", "Accepted", there, [], "", "v", false)),
            Env(t, "t", "r", "z", "")) ]
  }

  function Watcher(t: Time, p: Place): VertiportSubscription {
    Subscription("x", 0, "n", Range(Some(t), Some(t + 1)), "v", true, false, false, p)
  }

  lemma WatcherIsPut(cfg: Config, t: Time, p: Place, q: Place)
    requires cfg.enableHttp && p.vertiport != ""
    ensures Advance(cfg, Store(map[], map[], map[]), MovingRun(t, p, q)[0]) ==
            Store(map[], map["w" := Watcher(t, p)], map[])
  {
  }

  lemma MoveIsNotTold(cfg: Config, t: Time, p: Place, q: Place)
    requires cfg.enableHttp && p != q && p.vertiport != "" && q.vertiport != ""
    ensures var events, range := MovingRun(t, p, q), Range(Some(t), Some(t + 1));
            var before, after := After(cfg, events, 2), After(cfg, events, 3);
            && FreshIds(cfg, events)
            && "a" in before.intents && before.intents["a"].reservation == Reservation(range, p)
            && "a" in after.intents && after.intents["a"].reservation == Reservation(range, q)
            && "w" in before.subscriptions && Interested(before.subscriptions["w"], Reservation(range, p), true)
            && "w" in after.subscriptions && after.subscriptions["w"] == before.subscriptions["w"]
  {
    hide Advance;
    var events, range := MovingRun(t, p, q), Range(Some(t), Some(t + 1));
    var one := Store(map[], map["w" := Watcher(t, p)], map[]);
    WatcherIsPut(cfg, t, p, q);
    PutHere(cfg, t, one, Watcher(t, p), events[1], Reservation(range, p));
    var two := Advance(cfg, one, events[1]);
    PutThere(cfg, t, two, events[2], Reservation(range, p), Reservation(range, q));
    ThreeSteps(cfg, events, one, two);
  }

  lemma ThreeSteps(cfg: Config, events: seq<Event>, one: Store, two: Store)
    requires |events| == 3
    requires Advance(cfg, Store(map[], map[], map[]), events[0]) == one && Advance(cfg, one, events[1]) == two
    ensures After(cfg, events, 0) == Store(map[], map[], map[]) && After(cfg, events, 1) == one
    ensures After(cfg, events, 2) == two && After(cfg, events, 3) == Advance(cfg, two, events[2])
  {
    hide Advance;
    assert After(cfg, events, 1) == one;
  }

  lemma PutHere(cfg: Config, t: Time, st: Store, w: VertiportSubscription, e: Event, here: Reservation)
    requires cfg.enableHttp && here.place.vertiport != "" && here.range == Range(Some(t), Some(t + 1))
    requires st == Store(map[], map["w" := w], map[]) && w.notifyForIntents && !w.notifyForConstraints
    requires w.area == here.place && w.range == here.range
    requires e == Event(PutIntentCall("a", "m", "", IntentParams("u", "Accepted", here, [], "", "v", false)),
                        Env(t, "s", "o", "y", ""))
    ensures var out := Advance(cfg, st, e);
            && out.intents.Keys == {"a"} && out.intents["a"].reservation == here && out.intents["a"].ovn == "o"
            && out.intents["a"].manager == "m" && out.subscriptions.Keys == {"s", "w"} && out.constraints == map[]
            && out.subscriptions["w"] == w.(index := w.index + 1)
  {
    hide PutIntent;
    NewPut(cfg, st, "a", "m", e.call.intent, e.env);
  }

  lemma PutThere(cfg: Config, t: Time, st: Store, e: Event, here: Reservation, there: Reservation)
    requires cfg.enableHttp && there.place.vertiport != "" && here.place != there.place
    requires there.range == Range(Some(t), Some(t + 1)) && st.constraints == map[]
    requires st.intents.Keys == {"a"} && st.intents["a"].reservation == here && st.intents["a"].ovn == "o"
    requires st.intents["a"].manager == "m" && st.subscriptions.Keys == {"s", "w"}
    requires st.subscriptions["w"].area == here.place
    requires e == Event(PutIntentCall("a", "m", "o", IntentParams("u", "Accepted", there, [], "", "v", false)),
                        Env(t, "t", "r", "z", ""))
    ensures var out := Advance(cfg, st, e);
            && out.intents.Keys == {"a"} && out.intents["a"].reservation == there
            && "w" in out.subscriptions && out.subscriptions["w"] == st.subscriptions["w"]
  {
    assert MissingIntents(st.intents, "m", there, []) == map[];
  }

  // ----- the subscriptions of other intents -----

  lemma AttachKeepsKind(
    subs: map<Id, VertiportSubscription>, cfg: Config, manager: Manager, p: IntentParams, env: Env, s: Id)
    requires Complete(p.reservation.range) && env.newId !in subs && s in subs
    requires AttachSubscription(subs, cfg, manager, p, env).Ok?
    ensures var after := AttachSubscription(subs, cfg, manager, p, env).value.subscriptions;
            s in after && after[s].notifyForIntents == subs[s].notifyForIntents
  {
  }

  lemma PutStretches(st: Store, cfg: Config, id: Id, manager: Manager, ovn: Ovn, p: IntentParams, env: Env, s: Id)
    requires Sound(st) && PutIntent(st, cfg, id, manager, ovn, p, env).Ok? && env.newId !in st.subscriptions
    requires s in st.subscriptions
    ensures var out := PutIntent(st, cfg, id, manager, ovn, p, env).value.store;
            && s in out.subscriptions && Stretched(st.subscriptions[s], out.subscriptions[s])
            && out.subscriptions[s].notifyForIntents == st.subscriptions[s].notifyForIntents
            && Complete(p.reservation.range)
  {
    var intent := Intent(manager, 0, "", "", "", "", p.reservation);
    AttachmentSupports(st.subscriptions, cfg, manager, p, env, intent);
    AttachKeepsKind(st.subscriptions, cfg, manager, p, env, s);
    hide AttachSubscription, CheckKey, Meets;
  }

  /** In every reachable store: a put that meets another stored intent, whose subscription wants intents, notifies this
      if and only if it is then at the place of the put, and starts before the end of the put. An explicit one is always
      there, and the times of any are right for a put that ends no sooner than five minutes after the other starts. */
  lemma MeetingIsNotified(
    cfg: Config, events: seq<Event>, n: nat, id: Id, manager: Manager, ovn: Ovn, p: IntentParams, env: Env, other: Id)
    requires FreshIds(cfg, events) && n <= |events| && env.newId !in After(cfg, events, n).subscriptions
    requires PutIntent(After(cfg, events, n), cfg, id, manager, ovn, p, env).Ok?
    requires other != id && other in After(cfg, events, n).intents
    requires Meets(After(cfg, events, n).intents[other].reservation, p.reservation)
    ensures var st, out := After(cfg, events, n), PutIntent(After(cfg, events, n), cfg, id, manager, ovn, p, env).value;
            var s := st.intents[other].subscriptionId;
            && Complete(p.reservation.range) && Complete(st.intents[other].reservation.range)
            && s in st.subscriptions && s in out.store.subscriptions && Complete(out.store.subscriptions[s].range)
            && var after, u := out.store.subscriptions[s], p.reservation;
               && (st.subscriptions[s].notifyForIntents ==>
                     (s in out.notified <==>
                        after.area == u.place && after.range.start.value <= u.range.end.value))
               && (!st.subscriptions[s].implicit ==> after.area == u.place)
               && (st.intents[other].reservation.range.start.value + MAX_CLOCK_SKEW <= u.range.end.value ==>
                     after.range.start.value <= u.range.end.value)
  {
    SupportOverRuns(cfg, events, n);
    var st := After(cfg, events, n);
    hide After, FreshIds, PutIntent, Meets;
    PutIntentNotifies(st, cfg, id, manager, ovn, p, env);
    var s := st.intents[other].subscriptionId;
    PutStretches(st, cfg, id, manager, ovn, p, env, s);
    var out := PutIntent(st, cfg, id, manager, ovn, p, env).value;
    StretchedMeets(st.subscriptions[s], out.store.subscriptions[s], st.intents[other], p.reservation);
  }

  lemma StretchedMeets(
    before: VertiportSubscription, after: VertiportSubscription, other: Intent, u: Reservation)
    requires Supports(before, other) && Stretched(before, after) && Meets(other.reservation, u) && Complete(u.range)
    ensures Interested(after, u, true) <==>
              after.notifyForIntents && after.area == u.place && after.range.start.value <= u.range.end.value
    ensures !before.implicit ==> after.area == u.place
    ensures other.reservation.range.start.value + MAX_CLOCK_SKEW <= u.range.end.value ==>
              after.range.start.value <= u.range.end.value
  {
  }

  // ----- indices over runs -----

  /** No call lowers the index of a subscription that it leaves in the store. */
  lemma IndicesNeverDecrease(cfg: Config, st: Store, e: Event, s: Id)
    requires Step(cfg, st, e).Ok? && e.env.newId !in st.subscriptions
    requires s in st.subscriptions && s in Step(cfg, st, e).value.subscriptions
    ensures Step(cfg, st, e).value.subscriptions[s].index >= st.subscriptions[s].index
  {
    match e.call
    case PutIntentCall(id, manager, ovn, p) => PutIntentNotifies(st, cfg, id, manager, ovn, p, e.env);
    case DeleteIntentCall(id, manager) => DeleteIntentNotifies(st, id, manager);
    case PutSubscriptionCall(_, _, _, _) =>
    case DeleteSubscriptionCall(_, _) =>
    case PutConstraintCall(id, manager, ovn, p) => PutConstraintNotifies(st, cfg, id, manager, ovn, p, e.env);
    case DeleteConstraintCall(id, manager) => DeleteConstraintNotifies(st, id, manager);
  }

  predicate StoredAt(cfg: Config, events: seq<Event>, n: nat, s: Id)
    requires n <= |events|
  {
    s in After(cfg, events, n).subscriptions
  }

  function IndexAt(cfg: Config, events: seq<Event>, n: nat, s: Id): int
    requires n <= |events| && StoredAt(cfg, events, n, s)
  {
    After(cfg, events, n).subscriptions[s].index
  }

  lemma IndexGoesOn(cfg: Config, events: seq<Event>, n: nat, s: Id)
    requires n < |events| && events[n].env.newId !in After(cfg, events, n).subscriptions
    requires StoredAt(cfg, events, n, s) && StoredAt(cfg, events, n + 1, s)
    ensures IndexAt(cfg, events, n, s) <= IndexAt(cfg, events, n + 1, s)
  {
    hide Step;
    var st, e := After(cfg, events, n), events[n];
    if Step(cfg, st, e).Ok? {
      IndicesNeverDecrease(cfg, st, e, s);
    }
  }

  /** So over a run the index never falls while the subscription is stored. */
  lemma {:induction false} IndicesNeverFall(cfg: Config, events: seq<Event>, i: nat, j: nat, s: Id)
    requires FreshIds(cfg, events) && i <= j <= |events|
    requires forall k :: i <= k <= j ==> StoredAt(cfg, events, k, s)
    ensures IndexAt(cfg, events, i, s) <= IndexAt(cfg, events, j, s)
  {
    hide After, StoredAt, IndexAt;
    if i < j {
      IndicesNeverFall(cfg, events, i, j - 1, s);
      IndexGoesOn(cfg, events, j - 1, s);
    }
  }
}
