/** Who is notified of what: the subscriptions in a changed volume, once each. */
module ScdNotifications {
  import opened Common
  import opened Volumes
  import opened SubscriptionTimes
  import opened Subscribers
  import opened ScdModel
  import opened ScdRuns
  import opened ScdAnswers

  function IndexIn(subs: map<Id, ScdSubscription>, id: Id): int {
    if id in subs then subs[id].index else 0
  }

  /** It has a cell of the volume, its times touch those of the volume, and it wants intents or wants constraints. */
  ghost predicate Concerned(s: ScdSubscription, v: Box, forIntents: bool) {
    && CellsMeet(s.area, v.cells) && TimesTouch(s.range.start, s.range.end, v)
    && (if forIntents then s.notifyForIntents else s.notifyForConstraints)
  }

  lemma ConcernedExactly(s: ScdSubscription, v: Box, forIntents: bool)
    ensures Concerned(s, v, forIntents) <==> Interested(s, v, forIntents)
  {
    CellsMeetExactly(s.area, v.cells);
  }

  /** Between two sets of subscriptions exactly the ones concerned by `v` went up, each by one; the new rows of those
      are `notified`. A subscription that is new starts from zero. */
  ghost predicate NotifiedOnce(
    before: map<Id, ScdSubscription>, after: map<Id, ScdSubscription>, v: Box, forIntents: bool,
    notified: map<Id, ScdSubscription>)
  {
    && (forall s :: s in after ==>
          && (s in notified <==> Concerned(after[s], v, forIntents))
          && after[s].index == IndexIn(before, s) + (if s in notified then 1 else 0))
    && (forall s :: s in notified ==> s in after && notified[s] == after[s])
  }

  lemma NotifyIsOnce(st: Store, v: Box, forIntents: bool)
    ensures var told := Notify(st, v, forIntents);
            && told.store.subscriptions.Keys == st.subscriptions.Keys
            && NotifiedOnce(st.subscriptions, told.store.subscriptions, v, forIntents, told.notified)
  {
    var after := Notify(st, v, forIntents).store.subscriptions;
    forall s | s in st.subscriptions
      ensures Concerned(after[s], v, forIntents) <==> Interested(st.subscriptions[s], v, forIntents)
    {
      ConcernedExactly(after[s], v, forIntents);
    }
    hide Concerned, Interested;
  }

  lemma AttachKeepsIndices(
    subs: map<Id, ScdSubscription>, cfg: Config, manager: Manager, p: IntentParams, u: Box, env: Env)
    requires u.start.Some? && u.end.Some? && env.newId !in subs
    requires AttachSubscription(subs, cfg, manager, p, u, env).Ok?
    ensures var after := AttachSubscription(subs, cfg, manager, p, u, env).value.subscriptions;
            subs.Keys <= after.Keys && forall s :: s in after ==> after[s].index == IndexIn(subs, s)
  {
  }

  /** A put notifies the subscriptions in the volume that spans the old and the new intent, and no other index
      changes. */
  lemma PutIntentNotifies(st: Store, cfg: Config, id: Id, manager: Manager, ovn: Ovn, p: IntentParams, env: Env)
    requires PutIntent(st, cfg, id, manager, ovn, p, env).Ok? && env.newId !in st.subscriptions
    ensures var out := PutIntent(st, cfg, id, manager, ovn, p, env).value;
            && id in out.store.intents && st.subscriptions.Keys <= out.store.subscriptions.Keys
            && NotifiedOnce(
                 st.subscriptions, out.store.subscriptions,
                 NotifiedBox(out.store.intents[id].box, if id in st.intents then Some(st.intents[id].box) else None),
                 true, out.notified)
  {
    hide CheckIntentParams, AttachSubscription, CheckKey, NotifiedBox, WriteIntent, NotifiedOnce;
    var u := CheckIntentParams(cfg, ovn, p, env.now).value;
    var prior := CurrentIntent(st, id, manager, ovn).value;
    var attached := AttachSubscription(st.subscriptions, cfg, manager, p, u, env).value;
    var out := PutIntent(st, cfg, id, manager, ovn, p, env).value;
    AttachKeepsIndices(st.subscriptions, cfg, manager, p, u, env);
    WriteNotifies(st.(subscriptions := attached.subscriptions), id, manager, prior, p, u, attached.id, env);
    assert forall s :: s in attached.subscriptions ==>
      IndexIn(attached.subscriptions, s) == IndexIn(st.subscriptions, s);
    SameIndices(st.subscriptions, attached.subscriptions, out,
                NotifiedBox(u, if prior.None? then None else Some(prior.value.box)));
  }

  lemma SameIndices(before: map<Id, ScdSubscription>, between: map<Id, ScdSubscription>, out: Outcome, v: Box)
    requires NotifiedOnce(between, out.store.subscriptions, v, true, out.notified)
    requires out.store.subscriptions.Keys == between.Keys
    requires forall s :: s in between ==> IndexIn(between, s) == IndexIn(before, s)
    ensures NotifiedOnce(before, out.store.subscriptions, v, true, out.notified)
  {
    hide Concerned;
  }

  lemma WriteNotifies(
    st: Store, id: Id, manager: Manager, prior: Option<Intent>, p: IntentParams, u: Box, subscriptionId: Id, env: Env)
    ensures var out := WriteIntent(st, id, manager, prior, p, u, subscriptionId, env);
            && id in out.store.intents && out.store.intents[id].box == u
            && out.store.subscriptions.Keys == st.subscriptions.Keys
            && NotifiedOnce(st.subscriptions, out.store.subscriptions,
                            NotifiedBox(u, if prior.None? then None else Some(prior.value.box)), true, out.notified)
  {
    hide NotifiedBox, Notify, NotifiedOnce;
    var version := ToInt32((if prior.None? then 0 else prior.value.version) + 1);
    var intent := Intent(manager, version, p.state, env.intentOvn, p.baseUrl, subscriptionId, u);
    var v := NotifiedBox(u, if prior.None? then None else Some(prior.value.box));
    NotifyIsOnce(st.(intents := st.intents[id := intent]), v, true);
    NotifyWrites(st.(intents := st.intents[id := intent]), v, true);
  }

  /** A deletion notifies the subscriptions in the volume of the intent; the only one that disappears is an implicit
      one that no other intent depends on, and it is notified like the others. */
  lemma DeleteIntentNotifies(st: Store, id: Id, manager: Manager)
    requires DeleteIntent(st, id, manager).Ok?
    ensures var out, s0 := DeleteIntent(st, id, manager).value, st.intents[id].subscriptionId;
            && (forall s :: s in st.subscriptions ==>
                  (s !in out.store.subscriptions <==>
                     s == s0 && st.subscriptions[s0].implicit && Dependents(st.intents, s0) == {id}))
            && (exists after: map<Id, ScdSubscription> ::
                  && after.Keys == st.subscriptions.Keys
                  && (forall s :: s in out.store.subscriptions ==> s in after && out.store.subscriptions[s] == after[s])
                  && NotifiedOnce(st.subscriptions, after, st.intents[id].box, true, out.notified))
  {
    var told := Notify(st, st.intents[id].box, true);
    NotifyIsOnce(st, st.intents[id].box, true);
    var s0 := st.intents[id].subscriptionId;
    var dependents := Dependents(st.intents, s0);
    assert id in dependents;
    if |dependents| == 1 {
      forall i | i in dependents ensures i == id {
        if i != id { SubsetIsSmaller({i, id}, dependents); }
      }
      assert dependents == {id};
    }
    var after := told.store.subscriptions;
    assert NotifiedOnce(st.subscriptions, after, st.intents[id].box, true, told.notified);
  }

  /** Constraints are notified in the same way, to the subscriptions that want constraints. */
  lemma PutConstraintNotifies(
    st: Store, cfg: Config, id: Id, manager: Manager, ovn: Ovn, p: ConstraintParams, env: Env)
    requires PutConstraint(st, cfg, id, manager, ovn, p, env).Ok?
    ensures var out := PutConstraint(st, cfg, id, manager, ovn, p, env).value;
            && id in out.store.constraints && out.store.intents == st.intents
            && out.store.subscriptions.Keys == st.subscriptions.Keys
            && NotifiedOnce(
                 st.subscriptions, out.store.subscriptions,
                 NotifiedBox(out.store.constraints[id].box,
                             if id in st.constraints then Some(st.constraints[id].box) else None),
                 false, out.notified)
  {
    hide NotifiedBox, Notify, NotifiedOnce;
    var box := BoxOf(Union(p.extents).value).value;
    var version := ToInt32((if id in st.constraints then st.constraints[id].version else 0) + 1);
    var constraint := Constraint(manager, version, env.constraintOvn, p.baseUrl, box);
    var v := NotifiedBox(box, if id in st.constraints then Some(st.constraints[id].box) else None);
    NotifyIsOnce(st.(constraints := st.constraints[id := constraint]), v, false);
    NotifyWrites(st.(constraints := st.constraints[id := constraint]), v, false);
  }

  lemma DeleteConstraintNotifies(st: Store, id: Id, manager: Manager)
    requires DeleteConstraint(st, id, manager).Ok?
    ensures var out := DeleteConstraint(st, id, manager).value;
            && out.store.constraints == st.constraints - {id} && out.store.intents == st.intents
            && out.store.subscriptions.Keys == st.subscriptions.Keys
            && NotifiedOnce(st.subscriptions, out.store.subscriptions, st.constraints[id].box, false, out.notified)
  {
    hide Notify, NotifiedOnce;
    NotifyIsOnce(st.(constraints := st.constraints - {id}), st.constraints[id].box, false);
    NotifyWrites(st.(constraints := st.constraints - {id}), st.constraints[id].box, false);
  }

  /** The notified volume spans both volumes: every subscription that matches the old or the new one matches it.
      This fails only for a new volume whose start or end is the zero time, when the old one does not make up for it. */
  lemma NotifiedVolumeSpansBoth(u: Box, prior: Box)
    requires u.start.Some? && u.end.Some? && prior.start.Some? && prior.end.Some? && u.cells != {}
    requires u.start.value <= u.end.value
    ensures (forall cells, range :: InVolume(cells, range, u) || InVolume(cells, range, prior) ==>
                                      InVolume(cells, range, NotifiedBox(u, Some(prior))))
            <==> && (u.start.value == ZERO_TIME ==> prior.start.value <= ZERO_TIME)
                 && (u.end.value == ZERO_TIME ==> prior.end.value >= ZERO_TIME)
  {
    var v := NotifiedBox(u, Some(prior));
    UnionOfBoxes(u, prior);
    if u.start.value == ZERO_TIME && prior.start.value > ZERO_TIME {
      var early := Range(Some(ZERO_TIME), Some(ZERO_TIME));
      assert InVolume(u.cells, early, u) && !InVolume(u.cells, early, v);
    } else if u.end.value == ZERO_TIME && prior.end.value < ZERO_TIME {
      var late := Range(Some(ZERO_TIME), Some(ZERO_TIME));
      assert InVolume(u.cells, late, u) && !InVolume(u.cells, late, v);
    } else {
      forall cells, range | InVolume(cells, range, u) || InVolume(cells, range, prior)
        ensures InVolume(cells, range, v)
      {
        assert cells * v.cells >= cells * u.cells && cells * v.cells >= cells * prior.cells;
      }
    }
  }

  // ----- a zero time that loses a subscription -----

  function Spot(start: Time, end: Time): Box {
    Box(Some(start), Some(end), Some(0.0), Some(1.0), {0})
  }

  /** At any time `t` after the zero time: one client subscribes from t + 1 to t + 3; another puts an intent from t + 5
      to t + 9, and then widens it to begin at the zero time, which comes second among its extents. */
  function WideningRun(t: Time): seq<Event> {
    var subscription := SubscriptionParams("u", Spot(t + 1, t + 3).AsVolume(), true, false);
    var narrow := IntentParams("u", "Accepted", [Spot(t + 5, t + 9).AsVolume()], [], "", "v", false);
    var extents := [Spot(t + 5, t + 9).AsVolume(), Spot(ZERO_TIME, t + 9).AsVolume()];
    var wide := IntentParams("u", "Accepted", extents, ["o"], "", "v", false);
    [ Event(PutSubscriptionCall("w", "n", "", subscription), Env(t + 1, "", "", "x", "")),
      Event(PutIntentCall("a", "m", "", narrow), Env(t + 1, "s", "o", "y", "")),
      Event(PutIntentCall("a", "m", "o", wide), Env(t + 1, "t", "r", "z", "")) ]
  }

  function Watcher(t: Time): ScdSubscription {
    Subscription("x", 0, "n", Range(Some(t + 1), Some(t + 3)), "u", true, false, false, {0})
  }

  lemma UnionOfSpots(start: Time, end: Time)
    requires ZERO_TIME < start <= end
    ensures Union([Spot(start, end).AsVolume()]) == Ok(Spot(start, end).AsVolume())
    ensures Union([Spot(start, end).AsVolume(), Spot(ZERO_TIME, end).AsVolume()]) == Ok(Spot(ZERO_TIME, end).AsVolume())
  {
    var one, two := [Spot(start, end).AsVolume()], [Spot(start, end).AsVolume(), Spot(ZERO_TIME, end).AsVolume()];
    assert {0} + {0} == {0} && CellsOf(Volume3D(None, None, None)) + {0} == {0};
    assert UnionOf(one, 1) == Ok(Spot(start, end).AsVolume());
    assert UnionOf(two, 1) == Ok(Spot(start, end).AsVolume());
  }

  lemma WideningIsAccepted(cfg: Config, t: Time)
    requires cfg.enableHttp && t > ZERO_TIME
    ensures var e1, e2 := WideningRun(t)[1], WideningRun(t)[2];
            && CheckIntentParams(cfg, "", e1.call.intent, t + 1) == Ok(Spot(t + 5, t + 9))
            && CheckIntentParams(cfg, "o", e2.call.intent, t + 1) == Ok(Spot(ZERO_TIME, t + 9))
  {
    UnionOfSpots(t + 5, t + 9);
  }

  lemma WatcherIsPut(cfg: Config, t: Time)
    requires cfg.enableHttp && t > ZERO_TIME
    ensures Advance(cfg, Store(map[], map[], map[]), WideningRun(t)[0]) == Store(map[], map["w" := Watcher(t)], map[])
  {
  }

  /** The second put is accepted and commits, and the subscription matches the new volume but is not notified. */
  lemma WideningIsNotTold(cfg: Config, t: Time)
    requires cfg.enableHttp && t > ZERO_TIME
    ensures var events := WideningRun(t);
            var before, after := After(cfg, events, 2), After(cfg, events, 3);
            && FreshIds(cfg, events) && Commits(cfg, events, 2)
            && "a" in after.intents && after.intents["a"].box == Spot(ZERO_TIME, t + 9)
            && "w" in before.subscriptions && Interested(before.subscriptions["w"], Spot(ZERO_TIME, t + 9), true)
            && "w" in after.subscriptions && after.subscriptions["w"] == before.subscriptions["w"]
  {
    hide Step, CheckIntentParams;
    var events, one := WideningRun(t), Store(map[], map["w" := Watcher(t)], map[]);
    WatcherIsPut(cfg, t);
    NarrowPut(cfg, one, t);
    var two := Advance(cfg, one, events[1]);
    WidePut(cfg, two, t);
    ThreeSteps(cfg, events, one, two);
    assert 0 in Watcher(t).area * Spot(ZERO_TIME, t + 9).cells;
  }

  lemma ThreeSteps(cfg: Config, events: seq<Event>, one: Store, two: Store)
    requires |events| == 3
    requires Advance(cfg, Store(map[], map[], map[]), events[0]) == one && Advance(cfg, one, events[1]) == two
    ensures After(cfg, events, 0) == Store(map[], map[], map[]) && After(cfg, events, 1) == one
    ensures After(cfg, events, 2) == two && After(cfg, events, 3) == Advance(cfg, two, events[2])
  {
    hide Advance;
    assert After(cfg, events, 1) == one;
  }

  lemma NarrowPut(cfg: Config, st: Store, t: Time)
    requires cfg.enableHttp && t > ZERO_TIME && st == Store(map[], map["w" := Watcher(t)], map[])
    ensures var out := Advance(cfg, st, WideningRun(t)[1]);
            && out.intents.Keys == {"a"} && out.intents["a"].box == Spot(t + 5, t + 9) && out.intents["a"].ovn == "o"
            && out.intents["a"].manager == "m" && out.subscriptions.Keys == {"s", "w"} && out.constraints == map[]
            && out.subscriptions["w"] == Watcher(t)
  {
    WideningIsAccepted(cfg, t);
    hide CheckIntentParams;
    assert MissingIntents(map[], "m", Spot(t + 5, t + 9), []) == map[];
  }

  lemma WidePut(cfg: Config, st: Store, t: Time)
    requires cfg.enableHttp && t > ZERO_TIME && st.constraints == map[]
    requires st.intents.Keys == {"a"} && st.intents["a"].box == Spot(t + 5, t + 9) && st.intents["a"].ovn == "o"
    requires st.intents["a"].manager == "m" && st.subscriptions.Keys == {"s", "w"}
    requires st.subscriptions["w"] == Watcher(t)
    ensures Step(cfg, st, WideningRun(t)[2]).Ok?
    ensures var out := Step(cfg, st, WideningRun(t)[2]).value;
            && "a" in out.intents && out.intents["a"].box == Spot(ZERO_TIME, t + 9)
            && "w" in out.subscriptions && out.subscriptions["w"] == Watcher(t)
  {
    WideningIsAccepted(cfg, t);
    UnionOfBoxes(Spot(ZERO_TIME, t + 9), Spot(t + 5, t + 9));
    hide CheckIntentParams, NotifiedBox;
    assert MissingIntents(st.intents, "m", Spot(ZERO_TIME, t + 9), ["o"]) == map[];
    assert NotifiedBox(Spot(ZERO_TIME, t + 9), Some(Spot(t + 5, t + 9))) == Spot(t + 5, t + 9);
  }

  // ----- implicit subscriptions do what they are for -----

  lemma PutStretches(st: Store, cfg: Config, id: Id, manager: Manager, ovn: Ovn, p: IntentParams, env: Env, s: Id)
    requires Sound(st) && PutIntent(st, cfg, id, manager, ovn, p, env).Ok? && env.newId !in st.subscriptions
    requires s in st.subscriptions
    ensures var out := PutIntent(st, cfg, id, manager, ovn, p, env).value.store;
            && s in out.subscriptions && Stretched(st.subscriptions[s], out.subscriptions[s])
            && out.subscriptions[s].notifyForIntents == st.subscriptions[s].notifyForIntents
            && id in out.intents && out.intents[id].box.start.Some? && out.intents[id].box.end.Some?
            && out.intents[id].box.start.value <= out.intents[id].box.end.value
  {
    hide CheckIntentParams, AttachSubscription, CheckKey, NotifiedBox, Interested, WriteIntent, Supports, Stretched;
    var u := CheckIntentParams(cfg, ovn, p, env.now).value;
    var intent := Intent(manager, 0, "", "", "", "", u);
    AttachmentSupports(st.subscriptions, cfg, manager, p, u, env, intent);
    AttachKeepsKind(st.subscriptions, cfg, manager, p, u, env, s);
    var attached := AttachSubscription(st.subscriptions, cfg, manager, p, u, env).value;
    var prior := CurrentIntent(st, id, manager, ovn).value;
    WriteKeepsAll(st.(subscriptions := attached.subscriptions), id, manager, prior, p, u, attached.id, env, s);
    SameAsStretched(st.subscriptions[s], attached.subscriptions[s],
                    PutIntent(st, cfg, id, manager, ovn, p, env).value.store.subscriptions[s]);
  }

  lemma WriteKeepsAll(
    st: Store, id: Id, manager: Manager, prior: Option<Intent>, p: IntentParams, u: Box, subscriptionId: Id, env: Env,
    s: Id)
    requires s in st.subscriptions
    ensures var out := WriteIntent(st, id, manager, prior, p, u, subscriptionId, env).store;
            && id in out.intents && out.intents[id].box == u && s in out.subscriptions
            && out.subscriptions[s] == st.subscriptions[s].(index := out.subscriptions[s].index)
  {
    hide NotifiedBox, Interested;
  }

  lemma SameAsStretched(before: ScdSubscription, between: ScdSubscription, after: ScdSubscription)
    requires Stretched(before, between) && after == between.(index := after.index)
    ensures Stretched(before, after)
  {
  }

  lemma AttachKeepsKind(
    subs: map<Id, ScdSubscription>, cfg: Config, manager: Manager, p: IntentParams, u: Box, env: Env, s: Id)
    requires u.start.Some? && u.end.Some? && env.newId !in subs && s in subs
    requires AttachSubscription(subs, cfg, manager, p, u, env).Ok?
    ensures var after := AttachSubscription(subs, cfg, manager, p, u, env).value.subscriptions;
            s in after && after[s].notifyForIntents == subs[s].notifyForIntents
  {
  }

  /** In every reachable store: a put that overlaps another stored intent, whose subscription wants intents, notifies
      this if and only if the times of it, as they are after the put, touch those of the notified volume. */
  lemma OverlapIsNotified(
    cfg: Config, events: seq<Event>, n: nat, id: Id, manager: Manager, ovn: Ovn, p: IntentParams, env: Env, other: Id)
    requires FreshIds(cfg, events) && n <= |events| && env.newId !in After(cfg, events, n).subscriptions
    requires PutIntent(After(cfg, events, n), cfg, id, manager, ovn, p, env).Ok?
    requires other != id && other in After(cfg, events, n).intents
    ensures var st, out := After(cfg, events, n), PutIntent(After(cfg, events, n), cfg, id, manager, ovn, p, env).value;
            var s := st.intents[other].subscriptionId;
            && id in out.store.intents && s in st.subscriptions && s in out.store.subscriptions
            && Supports(st.subscriptions[s], st.intents[other])
            && Stretched(st.subscriptions[s], out.store.subscriptions[s])
            && var v := Told(st, id, out.store.intents[id].box);
               (Overlaps(st.intents[other].box, out.store.intents[id].box) && st.subscriptions[s].notifyForIntents ==>
                  var range := out.store.subscriptions[s].range;
                  (s in out.notified <==> TimesTouch(range.start, range.end, v)))
  {
    CoverageOverRuns(cfg, events, n);
    var st := After(cfg, events, n);
    hide After, FreshIds, PutIntent, Overlaps;
    PutIntentNotifies(st, cfg, id, manager, ovn, p, env);
    var out := PutIntent(st, cfg, id, manager, ovn, p, env).value;
    var s, u := st.intents[other].subscriptionId, out.store.intents[id].box;
    PutStretches(st, cfg, id, manager, ovn, p, env, s);
    if Overlaps(st.intents[other].box, u) {
      StretchedShares(st, id, st.subscriptions[s], out.store.subscriptions[s], st.intents[other], u);
    }
  }

  /** The volume that a put of `u` notifies. */
  function Told(st: Store, id: Id, u: Box): Box {
    NotifiedBox(u, if id in st.intents then Some(st.intents[id].box) else None)
  }

  lemma StretchedShares(
    st: Store, id: Id, before: ScdSubscription, after: ScdSubscription, other: Intent, u: Box)
    requires Supports(before, other) && Stretched(before, after) && Overlaps(other.box, u)
    ensures Concerned(after, Told(st, id, u), true) <==>
              after.notifyForIntents && TimesTouch(after.range.start, after.range.end, Told(st, id, u))
  {
    if id in st.intents {
      UnionOfBoxes(u, st.intents[id].box);
    }
    hide NotifiedBox;
    SharesCells(before, after, other, u, Told(st, id, u));
  }

  lemma SharesCells(before: ScdSubscription, after: ScdSubscription, other: Intent, u: Box, v: Box)
    requires Supports(before, other) && before.area <= after.area && u.cells <= v.cells
    requires CellsMeet(other.box.cells, u.cells) || Overlaps(other.box, u)
    ensures CellsMeet(after.area, v.cells)
  {
    CellsMeetExactly(other.box.cells, u.cells);
    var c :| c in other.box.cells && c in u.cells;
    assert c in after.area && c in v.cells;
  }

  /** So a put that ends no sooner than five minutes after the other intent starts notifies it. Only a zero time can
      prevent it, as above. */
  lemma LaterOverlapIsNotified(
    cfg: Config, events: seq<Event>, n: nat, id: Id, manager: Manager, ovn: Ovn, p: IntentParams, env: Env, other: Id)
    requires FreshIds(cfg, events) && n <= |events| && env.newId !in After(cfg, events, n).subscriptions
    requires PutIntent(After(cfg, events, n), cfg, id, manager, ovn, p, env).Ok?
    requires other != id && other in After(cfg, events, n).intents
    ensures var st, out := After(cfg, events, n), PutIntent(After(cfg, events, n), cfg, id, manager, ovn, p, env).value;
            && id in out.store.intents
            && st.intents[other].subscriptionId in st.subscriptions
            && (ReachesOther(st, id, out.store.intents[id].box, st.intents[other].box)
                && st.subscriptions[st.intents[other].subscriptionId].notifyForIntents
                ==> st.intents[other].subscriptionId in out.notified)
  {
    CoverageOverRuns(cfg, events, n);
    OverlapIsNotified(cfg, events, n, id, manager, ovn, p, env, other);
    var st := After(cfg, events, n);
    var out := PutIntent(st, cfg, id, manager, ovn, p, env).value;
    hide After, FreshIds, PutIntent, Told, TimesTouch, Overlaps;
    var s, u := st.intents[other].subscriptionId, out.store.intents[id].box;
    if ReachesOther(st, id, u, st.intents[other].box) {
      StretchedTouches(st, id, st.subscriptions[s], out.store.subscriptions[s], st.intents[other], u);
    }
  }

  /** The new volume overlaps the other one, up to five minutes after its start at least, and loses no zero time. */
  predicate ReachesOther(st: Store, id: Id, u: Box, other: Box) {
    && Overlaps(other, u)
    && other.start.Some? && u.start.Some? && u.end.Some?
    && u.end.value >= other.start.value + MAX_CLOCK_SKEW
    && (id in st.intents && st.intents[id].box.start.Some? && st.intents[id].box.end.Some? ==>
          && (u.start.value == ZERO_TIME ==> st.intents[id].box.start.value <= ZERO_TIME)
          && (u.end.value == ZERO_TIME ==> st.intents[id].box.end.value >= ZERO_TIME))
  }

  lemma StretchedTouches(
    st: Store, id: Id, before: ScdSubscription, after: ScdSubscription, other: Intent, u: Box)
    requires Supports(before, other) && Stretched(before, after) && ReachesOther(st, id, u, other.box)
    requires id in st.intents ==> st.intents[id].box.start.Some? && st.intents[id].box.end.Some?
    ensures TimesTouch(after.range.start, after.range.end, Told(st, id, u))
  {
    if id in st.intents {
      UnionOfBoxes(u, st.intents[id].box);
    }
    hide NotifiedBox;
  }

  /** The volume that a put of constraint `u` notifies. */
  function ToldOfConstraint(st: Store, id: Id, u: Box): Box {
    NotifiedBox(u, if id in st.constraints then Some(st.constraints[id].box) else None)
  }

  lemma CellsOfUnion(u: Box, prior: Option<Box>)
    ensures u.cells <= NotifiedBox(u, prior).cells
  {
    if prior.Some? {
      UnionOfBoxes(u, prior.value);
    }
  }

  /** In every reachable store: a constraint that is put or deleted in a cell of a stored intent is notified to the
      subscription which that intent names, if and only if this wants constraints and its times touch those of the
      notified volume: of the old and the new constraint together, or of the deleted one. */
  lemma ConstraintIsNotified(
    cfg: Config, events: seq<Event>, n: nat, id: Id, manager: Manager, ovn: Ovn, p: ConstraintParams, env: Env, i: Id)
    requires FreshIds(cfg, events) && n <= |events| && i in After(cfg, events, n).intents
    ensures var st := After(cfg, events, n);
            var s, put, deletion :=
              st.intents[i].subscriptionId, PutConstraint(st, cfg, id, manager, ovn, p, env),
              DeleteConstraint(st, id, manager);
            && s in st.subscriptions && Supports(st.subscriptions[s], st.intents[i])
            && (put.Ok? ==>
                  && id in put.value.store.constraints
                  && var u := put.value.store.constraints[id].box;
                     CellsMeet(st.intents[i].box.cells, u.cells) ==>
                       (s in put.value.notified <==>
                          WantsAt(st.subscriptions[s], ToldOfConstraint(st, id, u))))
            && (deletion.Ok? ==>
                  && id in st.constraints
                  && var v := st.constraints[id].box;
                     CellsMeet(st.intents[i].box.cells, v.cells) ==>
                       (s in deletion.value.notified <==> WantsAt(st.subscriptions[s], v)))
  {
    CoverageOverRuns(cfg, events, n);
    var st := After(cfg, events, n);
    hide After, FreshIds, PutConstraint, DeleteConstraint;
    var s := st.intents[i].subscriptionId;
    if PutConstraint(st, cfg, id, manager, ovn, p, env).Ok? {
      PutReachesSupported(st, cfg, id, manager, ovn, p, env, i);
    }
    DeleteConstraintAnswer(st, id, manager);
    if DeleteConstraint(st, id, manager).Ok? {
      DeletionReachesSupported(st, id, manager, i);
    }
  }

  /** It wants constraints, and its times touch those of the volume. */
  predicate WantsAt(s: ScdSubscription, v: Box) {
    s.notifyForConstraints && TimesTouch(s.range.start, s.range.end, v)
  }

  lemma PutReachesSupported(
    st: Store, cfg: Config, id: Id, manager: Manager, ovn: Ovn, p: ConstraintParams, env: Env, i: Id)
    requires Sound(st) && i in st.intents && PutConstraint(st, cfg, id, manager, ovn, p, env).Ok?
    ensures var out, s := PutConstraint(st, cfg, id, manager, ovn, p, env).value, st.intents[i].subscriptionId;
            && s in st.subscriptions && id in out.store.constraints
            && var u := out.store.constraints[id].box;
               CellsMeet(st.intents[i].box.cells, u.cells) ==>
                 (s in out.notified <==> WantsAt(st.subscriptions[s], ToldOfConstraint(st, id, u)))
  {
    PutConstraintNotifies(st, cfg, id, manager, ovn, p, env);
    UnfitConstraint(st, cfg, id, manager, ovn, p, env);
    var u :| FitConstraint(cfg, p, u);
    PutConstraintWrites(st, cfg, id, manager, ovn, p, env, u);
    hide PutConstraint, NotifiedBox, FitConstraint;
    var s := st.intents[i].subscriptionId;
    CellsOfUnion(u, if id in st.constraints then Some(st.constraints[id].box) else None);
    if CellsMeet(st.intents[i].box.cells, u.cells) {
      SharesCells(st.subscriptions[s], st.subscriptions[s], st.intents[i], u, ToldOfConstraint(st, id, u));
    }
  }

  lemma DeletionReachesSupported(st: Store, id: Id, manager: Manager, i: Id)
    requires Sound(st) && i in st.intents && DeleteConstraint(st, id, manager).Ok? && id in st.constraints
    ensures var out, s := DeleteConstraint(st, id, manager).value, st.intents[i].subscriptionId;
            && s in st.subscriptions
            && var v := st.constraints[id].box;
               CellsMeet(st.intents[i].box.cells, v.cells) ==>
                 (s in out.notified <==> WantsAt(st.subscriptions[s], v))
  {
    DeleteConstraintNotifies(st, id, manager);
    DeleteConstraintAnswer(st, id, manager);
    hide DeleteConstraint;
    var s, v := st.intents[i].subscriptionId, st.constraints[id].box;
    if CellsMeet(st.intents[i].box.cells, v.cells) {
      SharesCells(st.subscriptions[s], st.subscriptions[s], st.intents[i], v, v);
    }
  }

  /** So every constraint near an intent is, that ends no sooner than five minutes after the intent starts. */
  lemma NearTouches(s: ScdSubscription, i: Intent, v: Box)
    requires Supports(s, i) && Near(i.box, v) && v.end.Some? && i.box.start.value + MAX_CLOCK_SKEW <= v.end.value
    ensures TimesTouch(s.range.start, s.range.end, v)
  {
  }

  /** No call lowers the index of a subscription that it leaves in the store. */
  lemma IndicesNeverDecrease(cfg: Config, st: Store, e: Event, s: Id)
    requires Step(cfg, st, e).Ok? && e.env.newId !in st.subscriptions
    requires s in st.subscriptions && s in Step(cfg, st, e).value.subscriptions
    ensures Step(cfg, st, e).value.subscriptions[s].index >= st.subscriptions[s].index
  {
    match e.call
    case PutIntentCall(id, manager, ovn, p) => PutIntentNotifies(st, cfg, id, manager, ovn, p, e.env);
    case DeleteIntentCall(id, manager) => DeleteIntentNotifies(st, id, manager);
    case PutSubscriptionCall(_, _, _, _) =>
    case DeleteSubscriptionCall(_, _) =>
    case PutConstraintCall(id, manager, ovn, p) => PutConstraintNotifies(st, cfg, id, manager, ovn, p, e.env);
    case DeleteConstraintCall(id, manager) => DeleteConstraintNotifies(st, id, manager);
  }

  predicate StoredAt(cfg: Config, events: seq<Event>, n: nat, s: Id)
    requires n <= |events|
  {
    s in After(cfg, events, n).subscriptions
  }

  function IndexAt(cfg: Config, events: seq<Event>, n: nat, s: Id): int
    requires n <= |events| && StoredAt(cfg, events, n, s)
  {
    After(cfg, events, n).subscriptions[s].index
  }

  lemma IndexGoesOn(cfg: Config, events: seq<Event>, n: nat, s: Id)
    requires n < |events| && events[n].env.newId !in After(cfg, events, n).subscriptions
    requires StoredAt(cfg, events, n, s) && StoredAt(cfg, events, n + 1, s)
    ensures IndexAt(cfg, events, n, s) <= IndexAt(cfg, events, n + 1, s)
  {
    hide Step;
    var st, e := After(cfg, events, n), events[n];
    if Step(cfg, st, e).Ok? {
      IndicesNeverDecrease(cfg, st, e, s);
    }
  }

  /** So over a run the index never falls while the subscription is stored. */
  lemma {:induction false} IndicesNeverFall(cfg: Config, events: seq<Event>, i: nat, j: nat, s: Id)
    requires FreshIds(cfg, events) && i <= j <= |events|
    requires forall k :: i <= k <= j ==> StoredAt(cfg, events, k, s)
    ensures IndexAt(cfg, events, i, s) <= IndexAt(cfg, events, j, s)
  {
    hide After, StoredAt, IndexAt;
    if i < j {
      IndicesNeverFall(cfg, events, i, j - 1, s);
      IndexGoesOn(cfg, events, j - 1, s);
    }
  }
}
