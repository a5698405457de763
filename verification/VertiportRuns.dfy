/** Runs of the vertiport service: any sequence of calls by any clients, one transaction each. */
module VertiportRuns {
  import opened Common
  import opened SubscriptionTimes
  import opened Subscribers
  import opened VertiportModel

  datatype Call =
    | PutIntentCall(id: Id, manager: Manager, ovn: Ovn, intent: IntentParams)
    | DeleteIntentCall(id: Id, manager: Manager)
    | PutSubscriptionCall(id: Id, manager: Manager, version: Ovn, subscription: SubscriptionParams)
    | DeleteSubscriptionCall(id: Id, manager: Manager)
    | PutConstraintCall(id: Id, manager: Manager, ovn: Ovn, constraint: ConstraintParams)
    | DeleteConstraintCall(id: Id, manager: Manager)

  datatype Event = Event(call: Call, env: Env)

  function StoreOf(r: Result<Outcome, Error>): Result<Store, Error> {
    if r.Ok? then Ok(r.value.store) else Err(r.error)
  }

  function Step(cfg: Config, st: Store, e: Event): Result<Store, Error> {
    match e.call
    case PutIntentCall(id, manager, ovn, p) => StoreOf(PutIntent(st, cfg, id, manager, ovn, p, e.env))
    case DeleteIntentCall(id, manager) => StoreOf(DeleteIntent(st, id, manager))
    case PutSubscriptionCall(id, manager, version, p) => PutSubscription(st, cfg, id, manager, version, p, e.env)
    case DeleteSubscriptionCall(id, manager) => DeleteSubscription(st, id, manager)
    case PutConstraintCall(id, manager, ovn, p) => StoreOf(PutConstraint(st, cfg, id, manager, ovn, p, e.env))
    case DeleteConstraintCall(id, manager) => StoreOf(DeleteConstraint(st, id, manager))
  }

  function Advance(cfg: Config, st: Store, e: Event): Store {
    var r := Step(cfg, st, e);
    if r.Ok? then r.value else st
  }

  /** The store after the first `n` events. */
  function After(cfg: Config, events: seq<Event>, n: nat): Store
    requires n <= |events|
  {
    if n == 0 then Store(map[], map[], map[]) else Advance(cfg, After(cfg, events, n - 1), events[n - 1])
  }

  predicate Commits(cfg: Config, events: seq<Event>, n: nat)
    requires n < |events|
  {
    Step(cfg, After(cfg, events, n), events[n]).Ok?
  }

  /** UUIDs generated for implicit subscriptions are new. */
  ghost predicate FreshIds(cfg: Config, events: seq<Event>) {
    forall n :: 0 <= n < |events| ==> events[n].env.newId !in After(cfg, events, n).subscriptions
  }

  // ----- intents and the subscriptions they name -----

  ghost predicate Complete(r: Range) {
    r.start.Some? && r.end.Some?
  }

  /** Same manager, the times covered up to a start five minutes late, and the same place if explicit. */
  ghost predicate Supports(s: VertiportSubscription, i: Intent) {
    var range := i.reservation.range;
    && s.manager == i.manager
    && Complete(range) && Complete(s.range)
    && s.range.start.value <= range.start.value + MAX_CLOCK_SKEW
    && range.end.value <= s.range.end.value
    && (!s.implicit ==> s.area == i.reservation.place)
  }

  ghost predicate Sound(st: Store) {
    && (forall s :: s in st.subscriptions ==> Complete(st.subscriptions[s].range))
    && (forall i :: i in st.intents ==>
          && st.intents[i].subscriptionId in st.subscriptions
          && Supports(st.subscriptions[st.intents[i].subscriptionId], st.intents[i]))
  }

  /** What attaching another intent may do to a subscription. */
  ghost predicate Stretched(before: VertiportSubscription, after: VertiportSubscription) {
    && after.manager == before.manager && after.implicit == before.implicit
    && (!before.implicit ==> after.area == before.area)
    && Complete(before.range) && Complete(after.range)
    && after.range.start.value <= before.range.start.value && before.range.end.value <= after.range.end.value
  }

  lemma AttachmentSupports(
    subs: map<Id, VertiportSubscription>, cfg: Config, manager: Manager, p: IntentParams, env: Env, intent: Intent)
    requires forall s :: s in subs ==> Complete(subs[s].range)
    requires Complete(p.reservation.range) && env.newId !in subs
    requires AttachSubscription(subs, cfg, manager, p, env).Ok?
    ensures var attached := AttachSubscription(subs, cfg, manager, p, env).value;
            && subs.Keys <= attached.subscriptions.Keys
            && (forall s :: s in subs ==> Stretched(subs[s], attached.subscriptions[s]))
            && (forall s :: s in attached.subscriptions ==> Complete(attached.subscriptions[s].range))
            && (intent.manager == manager && intent.reservation == p.reservation ==>
                  Supports(attached.subscriptions[attached.id], intent))
  {
    hide Supports, Stretched, Retargeted;
    forall s | s in subs ensures Stretched(subs[s], subs[s]) {
      StretchedToItself(subs[s]);
    }
    var attached := AttachSubscription(subs, cfg, manager, p, env).value;
    if p.subscriptionId == "" {
      ItsOwnSupports(attached.subscriptions[attached.id], p.reservation, intent);
    } else {
      RetargetedSupports(subs[attached.id], p.reservation, env.subscriptionOvn, intent);
    }
  }

  lemma StretchedToItself(s: VertiportSubscription)
    requires Complete(s.range)
    ensures Stretched(s, s)
  {
  }

  lemma ItsOwnSupports(s: VertiportSubscription, u: Reservation, intent: Intent)
    requires Complete(u.range) && s.range == u.range && s.area == u.place
    ensures intent.manager == s.manager && intent.reservation == u ==> Supports(s, intent)
  {
  }

  lemma RetargetedSupports(sub: VertiportSubscription, u: Reservation, version: Ovn, intent: Intent)
    requires Complete(u.range) && Complete(sub.range) && Retargeted(sub, u).Ok?
    ensures var s := Retargeted(sub, u).value;
            && Complete(s.range) && Stretched(sub, s) && Stretched(sub, s.(version := version))
            && (intent.manager == sub.manager && intent.reservation == u ==>
                  Supports(s, intent) && Supports(s.(version := version), intent))
  {
  }

  lemma NotifyKeepsSound(st: Store, v: Reservation, forIntents: bool)
    requires Sound(st)
    ensures Sound(Notify(st, v, forIntents).store)
  {
  }

  lemma WrittenIsSound(cfg: Config, st: Store, manager: Manager, p: IntentParams, env: Env, id: Id, intent: Intent)
    requires Sound(st) && Complete(p.reservation.range) && env.newId !in st.subscriptions
    requires AttachSubscription(st.subscriptions, cfg, manager, p, env).Ok?
    requires intent.manager == manager && intent.reservation == p.reservation
    requires intent.subscriptionId == AttachSubscription(st.subscriptions, cfg, manager, p, env).value.id
    ensures var attached := AttachSubscription(st.subscriptions, cfg, manager, p, env).value;
            Sound(Store(st.intents[id := intent], attached.subscriptions, st.constraints))
  {
    AttachmentSupports(st.subscriptions, cfg, manager, p, env, intent);
    hide AttachSubscription;
  }

  lemma PutIntentKeepsSound(cfg: Config, st: Store, e: Event)
    requires Sound(st) && e.call.PutIntentCall? && e.env.newId !in st.subscriptions
    requires Step(cfg, st, e).Ok?
    ensures Sound(Step(cfg, st, e).value)
  {
    hide AttachSubscription, Sound, CheckKey, Notify;
    var id, p, manager := e.call.id, e.call.intent, e.call.manager;
    var prior := CurrentIntent(st, id, manager, e.call.ovn).value;
    var attached := AttachSubscription(st.subscriptions, cfg, manager, p, e.env).value;
    var version := ToInt32((if prior.None? then 0 else prior.value.version) + 1);
    var intent := Intent(manager, version, p.state, e.env.intentOvn, p.baseUrl, attached.id, p.reservation);
    WrittenIsSound(cfg, st, manager, p, e.env, id, intent);
    NotifyKeepsSound(Store(st.intents[id := intent], attached.subscriptions, st.constraints), p.reservation, true);
  }

  lemma CoveredIsSupported(st: Store, id: Id, sub: VertiportSubscription, i: Id)
    requires Sound(st) && i in st.intents && st.intents[i].subscriptionId == id && id in st.subscriptions
    requires Bounded(sub.range) && sub.manager == st.subscriptions[id].manager
    requires CoversDependents(st, id, sub.area, sub.range)
    ensures Supports(sub, st.intents[i])
  {
    assert i in Dependents(st.intents, id);
  }

  /** What a put subscription is, and that it covers what depends on the one it replaces. */
  lemma PutSubscriptionEffect(
    st: Store, cfg: Config, id: Id, manager: Manager, version: Ovn, p: SubscriptionParams, env: Env)
    requires PutSubscription(st, cfg, id, manager, version, p, env).Ok?
    ensures var out := PutSubscription(st, cfg, id, manager, version, p, env).value;
            && id in out.subscriptions && out == st.(subscriptions := st.subscriptions[id := out.subscriptions[id]])
            && var sub := out.subscriptions[id];
               && Bounded(sub.range)
               && (id in st.subscriptions ==>
                     sub.manager == st.subscriptions[id].manager && CoversDependents(st, id, sub.area, sub.range))
  {
    hide Adjusted, CoversDependents;
    var prior := if id in st.subscriptions then Some(st.subscriptions[id].range) else None;
    AdjustedIsBounded(env.now, p.reservation.range, prior);
  }

  lemma PutSubscriptionKeepsSound(cfg: Config, st: Store, e: Event)
    requires Sound(st) && e.call.PutSubscriptionCall? && Step(cfg, st, e).Ok?
    ensures Sound(Step(cfg, st, e).value)
  {
    var st', id, p := Step(cfg, st, e).value, e.call.id, e.call.subscription;
    PutSubscriptionEffect(st, cfg, id, e.call.manager, e.call.version, p, e.env);
    hide PutSubscription, Supports, CoversDependents;
    forall i | i in st.intents
      ensures st.intents[i].subscriptionId in st'.subscriptions
      ensures Supports(st'.subscriptions[st.intents[i].subscriptionId], st.intents[i])
    {
      if st.intents[i].subscriptionId == id {
        CoveredIsSupported(st, id, st'.subscriptions[id], i);
      }
    }
  }

  lemma SharedIsKept(intents: map<Id, Intent>, id: Id, i: Id)
    requires id in intents && i in intents && i != id && intents[i].subscriptionId == intents[id].subscriptionId
    ensures |Dependents(intents, intents[id].subscriptionId)| > 1
  {
    var dependents := Dependents(intents, intents[id].subscriptionId);
    assert {i, id} <= dependents;
    SubsetIsSmaller({i, id}, dependents);
  }

  lemma WithoutIsSound(st: Store, out: Store, id: Id)
    requires Sound(st) && out.intents == st.intents - {id} && out.subscriptions.Keys <= st.subscriptions.Keys
    requires forall s :: s in out.subscriptions ==> out.subscriptions[s] == st.subscriptions[s]
    requires forall i :: i in st.intents && i != id ==> st.intents[i].subscriptionId in out.subscriptions
    ensures Sound(out)
  {
    hide Supports;
  }

  lemma DeleteIntentKeepsSound(cfg: Config, st: Store, e: Event)
    requires Sound(st) && e.call.DeleteIntentCall? && Step(cfg, st, e).Ok?
    ensures Sound(Step(cfg, st, e).value)
  {
    hide Sound, Notify, Dependents;
    var id := e.call.id;
    var s := st.intents[id].subscriptionId;
    NotifyKeepsSound(st, st.intents[id].reservation, true);
    var told := Notify(st, st.intents[id].reservation, true).store;
    NotifyKeepsKeys(st, st.intents[id].reservation);
    forall i | i in told.intents && i != id
      ensures told.intents[i].subscriptionId in Step(cfg, st, e).value.subscriptions
    {
      if told.intents[i].subscriptionId == s {
        SharedIsKept(st.intents, id, i);
      }
      NamesStored(told, i);
    }
    WithoutIsSound(told, Step(cfg, st, e).value, id);
  }

  lemma NotifyKeepsKeys(st: Store, v: Reservation)
    ensures Notify(st, v, true).store.intents == st.intents
    ensures Notify(st, v, true).store.subscriptions.Keys == st.subscriptions.Keys
  {
  }

  lemma NamesStored(st: Store, i: Id)
    requires Sound(st) && i in st.intents
    ensures st.intents[i].subscriptionId in st.subscriptions
  {
  }

  lemma ConstraintKeepsSound(cfg: Config, st: Store, e: Event)
    requires Sound(st) && (e.call.PutConstraintCall? || e.call.DeleteConstraintCall?) && Step(cfg, st, e).Ok?
    ensures Sound(Step(cfg, st, e).value)
  {
    hide Notify, Sound;
    var id, constraints := e.call.id, st.constraints;
    match e.call
    case PutConstraintCall(_, manager, _, p) =>
      var version := ToInt32((if id in constraints then constraints[id].version else 0) + 1);
      var constraint := Constraint(manager, version, e.env.constraintOvn, p.baseUrl, p.reservation);
      var written := st.(constraints := constraints[id := constraint]);
      OtherConstraints(st, written);
      NotifyKeepsSound(written, p.reservation, false);
    case DeleteConstraintCall(_, _) =>
      var written := st.(constraints := constraints - {id});
      OtherConstraints(st, written);
      NotifyKeepsSound(written, constraints[id].reservation, false);
  }

  lemma OtherConstraints(st: Store, written: Store)
    requires Sound(st) && written.intents == st.intents && written.subscriptions == st.subscriptions
    ensures Sound(written)
  {
  }

  lemma AdvanceKeepsSound(cfg: Config, st: Store, e: Event)
    requires Sound(st) && e.env.newId !in st.subscriptions
    ensures Sound(Advance(cfg, st, e))
  {
    hide PutIntent, DeleteIntent, PutSubscription, PutConstraint, DeleteConstraint;
    if Step(cfg, st, e).Ok? {
      match e.call
      case PutIntentCall(_, _, _, _) => PutIntentKeepsSound(cfg, st, e);
      case DeleteIntentCall(_, _) => DeleteIntentKeepsSound(cfg, st, e);
      case PutSubscriptionCall(_, _, _, _) => PutSubscriptionKeepsSound(cfg, st, e);
      case DeleteSubscriptionCall(id, _) =>
        forall i | i in st.intents ensures st.intents[i].subscriptionId != id {
          assert i !in Dependents(st.intents, id);
        }
      case PutConstraintCall(_, _, _, _) => ConstraintKeepsSound(cfg, st, e);
      case DeleteConstraintCall(_, _) => ConstraintKeepsSound(cfg, st, e);
    }
  }

  /** In every reachable store each intent is supported by the subscription it names, at its own vertiport and zone
      when that subscription is explicit, even one that was implicit when the intent was put. */
  lemma {:induction false} SupportOverRuns(cfg: Config, events: seq<Event>, n: nat)
    requires FreshIds(cfg, events) && n <= |events|
    ensures Sound(After(cfg, events, n))
  {
    hide Advance;
    if n > 0 {
      SupportOverRuns(cfg, events, n - 1);
      AdvanceKeepsSound(cfg, After(cfg, events, n - 1), events[n - 1]);
    }
  }

  /** Hence the internal errors of a deletion cannot occur, and an owner can always delete an intent of its own. */
  lemma DeletionNeverBreaks(cfg: Config, events: seq<Event>, n: nat, id: Id, manager: Manager)
    requires FreshIds(cfg, events) && n <= |events|
    ensures var st := After(cfg, events, n);
            && DeleteIntent(st, id, manager) != Err(SubscriptionMissing)
            && DeleteIntent(st, id, manager) != Err(NoDependents)
            && (id in st.intents && st.intents[id].manager == manager ==> DeleteIntent(st, id, manager).Ok?)
  {
    SupportOverRuns(cfg, events, n);
    var st := After(cfg, events, n);
    if id in st.intents {
      assert id in Dependents(st.intents, st.intents[id].subscriptionId);
    }
  }

  /** Nor does the check of dependent intents ever meet an absent time: if one is not covered, the put is rejected. */
  lemma DependentsNeverBreak(
    cfg: Config, events: seq<Event>, n: nat, id: Id, p: SubscriptionParams, now: Time, e: Error)
    requires FreshIds(cfg, events) && n <= |events| && SomeDependentFails(After(cfg, events, n), id, p, now, e)
    ensures e == BadRequest
  {
    SupportOverRuns(cfg, events, n);
    hide After, FreshIds, Adjusted;
  }
}
