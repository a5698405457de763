/** Runs of the strategic coordination service: any sequence of calls by any clients, one transaction each. */
module ScdRuns {
  import opened Common
  import Awareness
  import opened SubscriptionTimes
  import Volumes
  import opened Subscribers
  import opened ScdModel

  datatype Call =
    | PutIntentCall(id: Id, manager: Manager, ovn: Ovn, intent: IntentParams)
    | DeleteIntentCall(id: Id, manager: Manager)
    | PutSubscriptionCall(id: Id, manager: Manager, version: Ovn, subscription: SubscriptionParams)
    | DeleteSubscriptionCall(id: Id, manager: Manager)
    | PutConstraintCall(id: Id, manager: Manager, ovn: Ovn, constraint: ConstraintParams)
    | DeleteConstraintCall(id: Id, manager: Manager)

  datatype Event = Event(call: Call, env: Env)

  function StoreOf(r: Result<Outcome, Error>): Result<Store, Error> {
    if r.Ok? then Ok(r.value.store) else Err(r.error)
  }

  function Step(cfg: Config, st: Store, e: Event): Result<Store, Error> {
    match e.call
    case PutIntentCall(id, manager, ovn, p) => StoreOf(PutIntent(st, cfg, id, manager, ovn, p, e.env))
    case DeleteIntentCall(id, manager) => StoreOf(DeleteIntent(st, id, manager))
    case PutSubscriptionCall(id, manager, version, p) => PutSubscription(st, cfg, id, manager, version, p, e.env)
    case DeleteSubscriptionCall(id, manager) => DeleteSubscription(st, id, manager)
    case PutConstraintCall(id, manager, ovn, p) => StoreOf(PutConstraint(st, cfg, id, manager, ovn, p, e.env))
    case DeleteConstraintCall(id, manager) => StoreOf(DeleteConstraint(st, id, manager))
  }

  function Advance(cfg: Config, st: Store, e: Event): Store {
    var r := Step(cfg, st, e);
    if r.Ok? then r.value else st
  }

  /** The store after the first `n` events. */
  function After(cfg: Config, events: seq<Event>, n: nat): Store
    requires n <= |events|
  {
    if n == 0 then Store(map[], map[], map[]) else Advance(cfg, After(cfg, events, n - 1), events[n - 1])
  }

  predicate Commits(cfg: Config, events: seq<Event>, n: nat)
    requires n < |events|
  {
    Step(cfg, After(cfg, events, n), events[n]).Ok?
  }

  /** UUIDs generated for implicit subscriptions are new. */
  ghost predicate FreshIds(cfg: Config, events: seq<Event>) {
    forall n :: 0 <= n < |events| ==> events[n].env.newId !in After(cfg, events, n).subscriptions
  }

  // ----- mutual awareness and no lost puts -----

  /** Intents and constraints together follow the protocol of OVNs and keys. */
  datatype Item = IntentItem(id: Id) | ConstraintItem(id: Id)

  /** What an item occupies; an intent put under a subscription that wants constraints has to know these too. */
  datatype Extent = IntentExtent(box: Box, constraintsToo: bool) | ConstraintExtent(box: Box)

  predicate MustKnow(other: Extent, own: Extent) {
    && own.IntentExtent?
    && match other
       case IntentExtent(box, _) => Overlaps(box, own.box)
       case ConstraintExtent(box) => own.constraintsToo && InVolume(box.cells, Range(box.start, box.end), own.box)
  }

  type Entries = Awareness.Entries<Item, Extent>
  type Action = Awareness.Action<Item, Extent>

  /** The entries are the intents and constraints of the store. */
  ghost predicate Agrees(entries: Entries, st: Store) {
    && (forall id :: IntentItem(id) in entries <==> id in st.intents)
    && (forall id :: id in st.intents ==> AgreesOnIntent(entries[IntentItem(id)], st.intents[id]))
    && (forall id :: ConstraintItem(id) in entries <==> id in st.constraints)
    && (forall id :: id in st.constraints ==> AgreesOnConstraint(entries[ConstraintItem(id)], st.constraints[id]))
  }

  predicate AgreesOnIntent(entry: Awareness.Entry<Extent>, i: Intent) {
    && entry.ovn == i.ovn && entry.version == i.version && entry.state == i.state
    && entry.extent.IntentExtent? && entry.extent.box == i.box
  }

  predicate AgreesOnConstraint(entry: Awareness.Entry<Extent>, c: Constraint) {
    entry.ovn == c.ovn && entry.version == c.version && entry.extent == ConstraintExtent(c.box)
  }

  /** What an event does to the intents and constraints. */
  function ActionOf(cfg: Config, st: Store, e: Event): Action {
    var r := Step(cfg, st, e);
    if r.Err? then Awareness.Keep else
    match e.call
    case PutIntentCall(id, _, ovn, p) => PutOfIntent(r.value, id, ovn, p.key)
    case DeleteIntentCall(id, _) => Awareness.Remove(IntentItem(id))
    case PutConstraintCall(id, _, ovn, _) => PutOfConstraint(r.value, id, ovn)
    case DeleteConstraintCall(id, _) => Awareness.Remove(ConstraintItem(id))
    case _ => Awareness.Keep
  }

  function PutOfIntent(after: Store, id: Id, presented: Ovn, key: seq<Ovn>): Action {
    if id in after.intents && after.intents[id].subscriptionId in after.subscriptions then
      var i := after.intents[id];
      var extent := IntentExtent(i.box, after.subscriptions[i.subscriptionId].notifyForConstraints);
      Awareness.Put(IntentItem(id), presented, key, Awareness.Entry(i.ovn, i.version, i.state, extent))
    else Awareness.Keep
  }

  function PutOfConstraint(after: Store, id: Id, presented: Ovn): Action {
    if id in after.constraints then
      var c := after.constraints[id];
      Awareness.Put(ConstraintItem(id), presented, [], Awareness.Entry(c.ovn, c.version, "", ConstraintExtent(c.box)))
    else Awareness.Keep
  }

  function ActionsOf(cfg: Config, events: seq<Event>): nat -> Action {
    (n: nat) => if n < |events| then ActionOf(cfg, After(cfg, events, n), events[n]) else Awareness.Keep
  }

  /** The OVN that a put gives out, if it commits. */
  function NewOvn(e: Event): Option<Ovn> {
    if e.call.PutIntentCall? then Some(e.env.intentOvn)
    else if e.call.PutConstraintCall? then Some(e.env.constraintOvn)
    else None
  }

  /** OVNs given out are nonempty, and have not been given out before. */
  ghost predicate FreshOvns(cfg: Config, events: seq<Event>) {
    forall n :: 0 <= n < |events| && NewOvn(events[n]).Some? ==>
      var ovn := NewOvn(events[n]).value;
      ovn != "" && ovn !in Awareness.After(ActionsOf(cfg, events), n).issued
  }

  /** Each call writes or removes at most the one intent or constraint that it is about. A put writes the next version
      under a new OVN, and has named the current one. In a state that requires a key no intent was missing from it,
      and no constraint either if the subscription wants constraints. */
  ghost predicate Effect(st: Store, e: Event, after: Store) {
    match e.call
    case PutIntentCall(id, manager, ovn, p) =>
      && after.constraints == st.constraints
      && id in after.intents && after.intents == st.intents[id := after.intents[id]]
      && after.intents[id].subscriptionId in after.subscriptions
      && IntentWritten(st, id, manager, ovn, p, e.env, after.intents[id],
                       after.subscriptions[after.intents[id].subscriptionId].notifyForConstraints)
    case DeleteIntentCall(id, _) =>
      id in st.intents && after.intents == st.intents - {id} && after.constraints == st.constraints
    case PutConstraintCall(id, _, ovn, _) =>
      && after.intents == st.intents
      && id in after.constraints && after.constraints == st.constraints[id := after.constraints[id]]
      && after.constraints[id].ovn == e.env.constraintOvn
      && after.constraints[id].version == ToInt32((if id in st.constraints then st.constraints[id].version else 0) + 1)
      && (if id in st.constraints then st.constraints[id].ovn == ovn else ovn == "")
    case DeleteConstraintCall(id, _) =>
      id in st.constraints && after.constraints == st.constraints - {id} && after.intents == st.intents
    case _ => after.intents == st.intents && after.constraints == st.constraints
  }

  ghost predicate IntentWritten(
    st: Store, id: Id, manager: Manager, ovn: Ovn, p: IntentParams, env: Env, i: Intent, constraintsToo: bool)
  {
    && i.ovn == env.intentOvn && i.state == p.state
    && i.version == ToInt32((if id in st.intents then st.intents[id].version else 0) + 1)
    && (if id in st.intents then st.intents[id].ovn == ovn else ovn == "")
    && (RequiresKey(p.state) ==>
          && MissingIntents(st.intents, manager, i.box, p.key) == map[]
          && (constraintsToo ==> MissingConstraints(st.constraints, manager, i.box, p.key) == map[]))
  }

  lemma PutEffect(cfg: Config, st: Store, e: Event)
    requires e.call.PutIntentCall? && Step(cfg, st, e).Ok?
    ensures Effect(st, e, Step(cfg, st, e).value)
  {
    hide CheckIntentParams, AttachSubscription, NotifiedBox, Interested, MissingIntents, MissingConstraints;
  }

  lemma StepEffect(cfg: Config, st: Store, e: Event)
    requires Step(cfg, st, e).Ok?
    ensures Effect(st, e, Step(cfg, st, e).value)
  {
    hide PutIntent, Adjusted, BoxOf, NotifiedBox;
    if e.call.PutIntentCall? {
      PutEffect(cfg, st, e);
    }
  }

  lemma KnowsAll(entries: Entries, st: Store, manager: Manager, p: IntentParams, own: Extent)
    requires Agrees(entries, st) && own.IntentExtent?
    requires MissingIntents(st.intents, manager, own.box, p.key) == map[]
    requires own.constraintsToo ==> MissingConstraints(st.constraints, manager, own.box, p.key) == map[]
    ensures forall o :: o in entries && MustKnow(entries[o].extent, own) ==> entries[o].ovn in p.key
  {
    hide Overlaps, InVolume;
    forall o | o in entries && MustKnow(entries[o].extent, own) ensures entries[o].ovn in p.key {
      match o
      case IntentItem(id) => assert id !in MissingIntents(st.intents, manager, own.box, p.key);
      case ConstraintItem(id) => assert id !in MissingConstraints(st.constraints, manager, own.box, p.key);
    }
  }

  lemma PutIsCareful(cfg: Config, st: Store, e: Event, entries: Entries)
    requires Agrees(entries, st) && e.call.PutIntentCall?
    requires Step(cfg, st, e).Ok? && Effect(st, e, Step(cfg, st, e).value)
    ensures Awareness.Careful(entries, ActionOf(cfg, st, e), MustKnow)
  {
    hide Step, MissingIntents, MissingConstraints;
    var after, id := Step(cfg, st, e).value, e.call.id;
    var i := after.intents[id];
    var extent := IntentExtent(i.box, after.subscriptions[i.subscriptionId].notifyForConstraints);
    if RequiresKey(e.call.intent.state) {
      KnowsAll(entries, st, e.call.manager, e.call.intent, extent);
    }
    hide MustKnow;
  }

  lemma EffectIsCareful(cfg: Config, st: Store, e: Event, entries: Entries)
    requires Agrees(entries, st) && Step(cfg, st, e).Ok? && Effect(st, e, Step(cfg, st, e).value)
    ensures Awareness.Careful(entries, ActionOf(cfg, st, e), MustKnow)
  {
    hide Step, IntentWritten;
    if e.call.PutIntentCall? {
      PutIsCareful(cfg, st, e, entries);
    }
  }

  lemma AgreesWithIntent(entries: Entries, st: Store, id: Id, entry: Awareness.Entry<Extent>, i: Intent, after: Store)
    requires Agrees(entries, st) && AgreesOnIntent(entry, i)
    requires after.intents == st.intents[id := i] && after.constraints == st.constraints
    ensures Agrees(entries[IntentItem(id) := entry], after)
  {
    hide AgreesOnIntent, AgreesOnConstraint;
  }

  lemma AgreesWithConstraint(
    entries: Entries, st: Store, id: Id, entry: Awareness.Entry<Extent>, c: Constraint, after: Store)
    requires Agrees(entries, st) && AgreesOnConstraint(entry, c)
    requires after.constraints == st.constraints[id := c] && after.intents == st.intents
    ensures Agrees(entries[ConstraintItem(id) := entry], after)
  {
    hide AgreesOnIntent, AgreesOnConstraint;
  }

  lemma AgreesWithout(entries: Entries, st: Store, item: Item, after: Store)
    requires Agrees(entries, st)
    requires after.intents == if item.IntentItem? then st.intents - {item.id} else st.intents
    requires after.constraints == if item.ConstraintItem? then st.constraints - {item.id} else st.constraints
    ensures Agrees(entries - {item}, after)
  {
    hide AgreesOnIntent, AgreesOnConstraint;
  }

  lemma EffectAgrees(cfg: Config, st: Store, e: Event, entries: Entries)
    requires Agrees(entries, st) && Step(cfg, st, e).Ok? && Effect(st, e, Step(cfg, st, e).value)
    ensures Agrees(Awareness.Applied(entries, ActionOf(cfg, st, e)), Step(cfg, st, e).value)
    ensures ActionOf(cfg, st, e).Put? ==> NewOvn(e) == Some(ActionOf(cfg, st, e).entry.ovn)
  {
    hide Step, Agrees;
    var after, action := Step(cfg, st, e).value, ActionOf(cfg, st, e);
    match e.call
    case PutIntentCall(id, _, _, _) => AgreesWithIntent(entries, st, id, action.entry, after.intents[id], after);
    case DeleteIntentCall(id, _) => AgreesWithout(entries, st, IntentItem(id), after);
    case PutConstraintCall(id, _, _, _) =>
      AgreesWithConstraint(entries, st, id, action.entry, after.constraints[id], after);
    case DeleteConstraintCall(id, _) => AgreesWithout(entries, st, ConstraintItem(id), after);
    case _ => SameAgrees(entries, st, after);
  }

  lemma SameAgrees(entries: Entries, st: Store, after: Store)
    requires Agrees(entries, st) && after.intents == st.intents && after.constraints == st.constraints
    ensures Agrees(entries, after)
  {
  }

  lemma StepIsCareful(cfg: Config, st: Store, e: Event, entries: Entries)
    requires Agrees(entries, st)
    ensures var action := ActionOf(cfg, st, e);
            && Awareness.Careful(entries, action, MustKnow)
            && Agrees(Awareness.Applied(entries, action), Advance(cfg, st, e))
            && (action.Put? ==> NewOvn(e) == Some(action.entry.ovn))
  {
    hide Step, Agrees, Effect, MustKnow;
    if Step(cfg, st, e).Ok? {
      StepEffect(cfg, st, e);
      EffectIsCareful(cfg, st, e, entries);
      EffectAgrees(cfg, st, e, entries);
    }
  }

  /** The runs of the service are runs of the protocol. */
  lemma {:induction false} RunRefines(cfg: Config, events: seq<Event>, n: nat)
    requires n <= |events|
    ensures Agrees(Awareness.After(ActionsOf(cfg, events), n).entries, After(cfg, events, n))
  {
    hide Step, After, Advance, ActionOf, ActionsOf, Agrees;
    hide Awareness.After, Awareness.Careful, Awareness.Applied, Awareness.Recorded;
    if n == 0 {
      NoEntries(cfg, events);
    } else {
      RunRefines(cfg, events, n - 1);
      Turn(cfg, events, n - 1);
      var actions := ActionsOf(cfg, events);
      StepIsCareful(cfg, After(cfg, events, n - 1), events[n - 1], Awareness.After(actions, n - 1).entries);
      Awareness.AtTurn(actions, MustKnow, n - 1);
    }
  }

  lemma Turn(cfg: Config, events: seq<Event>, n: nat)
    requires n < |events|
    ensures After(cfg, events, n + 1) == Advance(cfg, After(cfg, events, n), events[n])
    ensures ActionsOf(cfg, events)(n) == ActionOf(cfg, After(cfg, events, n), events[n])
  {
    hide Advance, ActionOf;
  }

  lemma NoEntries(cfg: Config, events: seq<Event>)
    ensures Agrees(Awareness.After(ActionsOf(cfg, events), 0).entries, After(cfg, events, 0))
  {
  }

  lemma ProtocolOfRun(cfg: Config, events: seq<Event>)
    ensures Awareness.AllCareful(ActionsOf(cfg, events), MustKnow)
    ensures FreshOvns(cfg, events) ==> Awareness.FreshOvns(ActionsOf(cfg, events))
  {
    hide ActionOf, After, MustKnow;
    var actions := ActionsOf(cfg, events);
    forall n: nat ensures Awareness.CarefulAt(actions, MustKnow, n) {
      CarefulAt(cfg, events, n);
    }
    forall n: nat ensures FreshOvns(cfg, events) ==> Awareness.FreshAt(actions, n) {
      CarefulAt(cfg, events, n);
    }
  }

  lemma CarefulAt(cfg: Config, events: seq<Event>, n: nat)
    ensures var actions := ActionsOf(cfg, events);
            && Awareness.Careful(Awareness.After(actions, n).entries, actions(n), MustKnow)
            && (n < |events| && actions(n).Put? ==> NewOvn(events[n]) == Some(actions(n).entry.ovn))
            && (n >= |events| ==> actions(n) == Awareness.Keep)
  {
    hide ActionOf, Agrees, After, Advance, Awareness.After;
    if n < |events| {
      RunRefines(cfg, events, n);
      StepIsCareful(cfg, After(cfg, events, n), events[n], Awareness.After(ActionsOf(cfg, events), n).entries);
    }
  }

  /** At every point of every run: whatever an intent has to know and was written before it, the client that wrote the
      intent knew in its current version, unless the state of the intent needs no key. These are the overlapping
      intents, and for a subscription that wanted constraints also the constraints in the volume. Each stored version
      number counts the puts since the intent or constraint was created. */
  lemma MutualAwareness(cfg: Config, events: seq<Event>, n: nat)
    requires n <= |events|
    ensures var w := Awareness.After(ActionsOf(cfg, events), n);
            Agrees(w.entries, After(cfg, events, n)) && Awareness.Aware(w, MustKnow)
  {
    ProtocolOfRun(cfg, events);
    RunRefines(cfg, events, n);
    Awareness.MutualAwareness(ActionsOf(cfg, events), MustKnow, n);
  }

  /** Read for two intents: the one put later knew the current version of the other. */
  lemma IntentsKnowEachOther(cfg: Config, events: seq<Event>, n: nat, a: Id, b: Id)
    requires n <= |events| && a in After(cfg, events, n).intents && b in After(cfg, events, n).intents && a != b
    requires Overlaps(After(cfg, events, n).intents[a].box, After(cfg, events, n).intents[b].box)
    ensures var st, history := After(cfg, events, n), Awareness.After(ActionsOf(cfg, events), n).history;
            && IntentItem(a) in history && IntentItem(b) in history
            && var first, second := history[IntentItem(a)], history[IntentItem(b)];
               && (first.written < second.written || second.written < first.written)
               && (first.written < second.written && RequiresKey(st.intents[b].state) ==>
                     st.intents[a].ovn in second.key)
               && (second.written < first.written && RequiresKey(st.intents[a].state) ==>
                     st.intents[b].ovn in first.key)
  {
    MutualAwareness(cfg, events, n);
    var w := Awareness.After(ActionsOf(cfg, events), n);
    var st := After(cfg, events, n);
    OverlapsIsSymmetric(st.intents[a].box, st.intents[b].box);
    KnowEachOther(w, st, a, b);
  }

  lemma KnowEachOther(w: Awareness.World<Item, Extent>, st: Store, a: Id, b: Id)
    requires Awareness.Aware(w, MustKnow) && Agrees(w.entries, st) && a in st.intents && b in st.intents && a != b
    requires Overlaps(st.intents[a].box, st.intents[b].box) && Overlaps(st.intents[b].box, st.intents[a].box)
    ensures IntentItem(a) in w.history && IntentItem(b) in w.history
    ensures var first, second := w.history[IntentItem(a)], w.history[IntentItem(b)];
            && (first.written < second.written || second.written < first.written)
            && (first.written < second.written && RequiresKey(st.intents[b].state) ==>
                  st.intents[a].ovn in second.key)
            && (second.written < first.written && RequiresKey(st.intents[a].state) ==>
                  st.intents[b].ovn in first.key)
  {
    assert Awareness.AwareOf(w, MustKnow, IntentItem(a), IntentItem(b));
    assert Awareness.AwareOf(w, MustKnow, IntentItem(b), IntentItem(a));
    hide Overlaps;
  }

  /** The intent or constraint that a put is about, and the OVN that it presents. */
  function Target(call: Call): Option<(Item, Ovn)> {
    match call
    case PutIntentCall(id, _, ovn, _) => Some((IntentItem(id), ovn))
    case PutConstraintCall(id, _, ovn, _) => Some((ConstraintItem(id), ovn))
    case _ => None
  }

  lemma CommittedPut(cfg: Config, events: seq<Event>, n: nat)
    requires n < |events| && Commits(cfg, events, n) && Target(events[n].call).Some?
    ensures var action, target := ActionsOf(cfg, events)(n), Target(events[n].call).value;
            action.Put? && action.id == target.0 && action.presented == target.1
  {
    hide Step, IntentWritten;
    StepEffect(cfg, After(cfg, events, n), events[n]);
  }

  lemma IssueCommitted(cfg: Config, events: seq<Event>, n: nat, item: Item, ovn: Ovn)
    requires Awareness.Issues(ActionsOf(cfg, events)(n), item, ovn)
    ensures n < |events| && Commits(cfg, events, n)
    ensures Target(events[n].call).Some? && Target(events[n].call).value.0 == item && NewOvn(events[n]) == Some(ovn)
  {
    CarefulAt(cfg, events, n);
    hide Step, After;
  }

  /** Two puts on one intent or constraint that present the same OVN commit both only when a put on it that commits in
      between, the first of the two included, gives out this OVN again. Nothing is assumed of OVNs here. */
  lemma LostPutReusesOvn(cfg: Config, events: seq<Event>, i: nat, j: nat)
    requires i < j < |events| && Commits(cfg, events, i) && Commits(cfg, events, j)
    requires Target(events[i].call).Some? && Target(events[i].call) == Target(events[j].call)
    requires Target(events[i].call).value.1 != ""
    ensures exists k :: i <= k < j && Reissues(cfg, events, k, Target(events[i].call).value)
  {
    hide Commits, ActionsOf, Awareness.Issues, Reissues, Awareness.AllCareful;
    ProtocolOfRun(cfg, events);
    CommittedPut(cfg, events, i);
    CommittedPut(cfg, events, j);
    var actions, target := ActionsOf(cfg, events), Target(events[i].call).value;
    Awareness.LostPutReusesOvn(actions, MustKnow, i, j);
    var k :| i <= k < j && Awareness.Issues(actions(k), target.0, target.1);
    Reissued(cfg, events, k, target);
  }

  lemma Reissued(cfg: Config, events: seq<Event>, k: nat, target: (Item, Ovn))
    requires Awareness.Issues(ActionsOf(cfg, events)(k), target.0, target.1) && k < |events|
    ensures Reissues(cfg, events, k, target)
  {
    IssueCommitted(cfg, events, k, target.0, target.1);
    hide Commits, NewOvn, Target, ActionsOf;
  }

  /** The event is a put on the item that commits and gives out the OVN. */
  predicate Reissues(cfg: Config, events: seq<Event>, k: nat, target: (Item, Ovn))
    requires k < |events|
  {
    && Commits(cfg, events, k) && NewOvn(events[k]) == Some(target.1)
    && Target(events[k].call).Some? && Target(events[k].call).value.0 == target.0
  }

  /** Of two puts on one intent or constraint that present the same OVN, at most one commits. */
  lemma NoLostPuts(cfg: Config, events: seq<Event>, i: nat, j: nat)
    requires FreshOvns(cfg, events) && i < j < |events|
    requires Target(events[i].call).Some? && Target(events[i].call) == Target(events[j].call)
    requires Target(events[i].call).value.1 != ""
    ensures !(Commits(cfg, events, i) && Commits(cfg, events, j))
  {
    hide Commits, ActionsOf, FreshOvns;
    if Commits(cfg, events, i) && Commits(cfg, events, j) {
      ProtocolOfRun(cfg, events);
      CommittedPut(cfg, events, i);
      CommittedPut(cfg, events, j);
      Awareness.NoLostPuts(ActionsOf(cfg, events), MustKnow, i, j);
    }
  }

  predicate Deletes(call: Call, item: Item) {
    match call
    case DeleteIntentCall(id, _) => item == IntentItem(id)
    case DeleteConstraintCall(id, _) => item == ConstraintItem(id)
    case _ => false
  }

  /** A put that creates an intent or constraint commits after another put on it only when it is deleted in between. */
  lemma NoDoubleCreation(cfg: Config, events: seq<Event>, i: nat, j: nat)
    requires FreshOvns(cfg, events) && i < j < |events|
    requires Target(events[i].call).Some? && Target(events[j].call) == Some((Target(events[i].call).value.0, ""))
    requires Commits(cfg, events, i) && Commits(cfg, events, j)
    ensures exists k :: i < k < j && Deletes(events[k].call, Target(events[i].call).value.0) && Commits(cfg, events, k)
  {
    hide Commits, ActionsOf, FreshOvns, Deletes;
    ProtocolOfRun(cfg, events);
    CommittedPut(cfg, events, i);
    CommittedPut(cfg, events, j);
    var actions, item := ActionsOf(cfg, events), Target(events[i].call).value.0;
    Awareness.NoDoubleCreation(actions, MustKnow, i, j);
    var k :| i < k < j && actions(k) == Awareness.Remove(item);
    CommittedDeletion(cfg, events, k, item);
  }

  lemma CommittedDeletion(cfg: Config, events: seq<Event>, n: nat, item: Item)
    requires n < |events| && ActionsOf(cfg, events)(n) == Awareness.Remove(item)
    ensures Deletes(events[n].call, item) && Commits(cfg, events, n)
  {
    hide Step, After;
  }

  lemma OverlapsIsSymmetric(a: Box, b: Box)
    ensures Overlaps(a, b) <==> Overlaps(b, a)
  {
    assert a.cells * b.cells == b.cells * a.cells;
  }

  // ----- coverage -----

  ghost predicate Complete(r: Range) {
    r.start.Some? && r.end.Some?
  }

  /** Intent and subscription agree in manager, cells and time; the subscription may start five minutes late. */
  ghost predicate Supports(s: ScdSubscription, i: Intent) {
    && s.manager == i.manager
    && i.box.cells <= s.area
    && i.box.start.Some? && i.box.end.Some? && Complete(s.range)
    && s.range.start.value <= i.box.start.value + MAX_CLOCK_SKEW
    && i.box.end.value <= s.range.end.value
  }

  ghost predicate Sound(st: Store) {
    && (forall s :: s in st.subscriptions ==> Complete(st.subscriptions[s].range))
    && (forall i :: i in st.intents ==>
          && st.intents[i].subscriptionId in st.subscriptions
          && Supports(st.subscriptions[st.intents[i].subscriptionId], st.intents[i]))
  }

  /** A subscription that supported an intent still does when it is stretched. */
  ghost predicate Stretched(before: ScdSubscription, after: ScdSubscription) {
    && after.manager == before.manager && before.area <= after.area
    && Complete(before.range) && Complete(after.range)
    && after.range.start.value <= before.range.start.value && before.range.end.value <= after.range.end.value
  }

  lemma AttachmentSupports(
    subs: map<Id, ScdSubscription>, cfg: Config, manager: Manager, p: IntentParams, u: Box, env: Env, intent: Intent)
    requires forall s :: s in subs ==> Complete(subs[s].range)
    requires u.start.Some? && u.end.Some? && env.newId !in subs
    requires AttachSubscription(subs, cfg, manager, p, u, env).Ok?
    ensures var attached := AttachSubscription(subs, cfg, manager, p, u, env).value;
            && subs.Keys <= attached.subscriptions.Keys
            && (forall s :: s in subs ==> Stretched(subs[s], attached.subscriptions[s]))
            && (forall s :: s in attached.subscriptions ==> Complete(attached.subscriptions[s].range))
            && (intent.manager == manager && intent.box == u ==>
                  Supports(attached.subscriptions[attached.id], intent))
  {
    hide Supports, Stretched, Widened;
    forall s | s in subs ensures Stretched(subs[s], subs[s]) {
      StretchedToItself(subs[s]);
    }
    var attached := AttachSubscription(subs, cfg, manager, p, u, env).value;
    if p.subscriptionId == "" {
      ItsOwnSupports(attached.subscriptions[attached.id], u, intent);
    } else {
      WidenedSupports(subs[attached.id], u, env.subscriptionOvn, intent);
    }
  }

  lemma StretchedToItself(s: ScdSubscription)
    requires Complete(s.range)
    ensures Stretched(s, s)
  {
  }

  lemma ItsOwnSupports(s: ScdSubscription, u: Box, intent: Intent)
    requires u.start.Some? && u.end.Some? && s.range == Range(u.start, u.end) && s.area == u.cells
    ensures intent.manager == s.manager && intent.box == u ==> Supports(s, intent)
  {
  }

  lemma WidenedSupports(sub: ScdSubscription, u: Box, version: Ovn, intent: Intent)
    requires u.start.Some? && u.end.Some? && Complete(sub.range) && Widened(sub, u).Ok?
    ensures var s := Widened(sub, u).value;
            && Complete(s.range) && Stretched(sub, s) && Stretched(sub, s.(version := version))
            && (intent.manager == sub.manager && intent.box == u ==>
                  Supports(s, intent) && Supports(s.(version := version), intent))
  {
  }

  lemma NotifyKeepsSound(st: Store, v: Box, forIntents: bool)
    requires Sound(st)
    ensures Sound(Notify(st, v, forIntents).store)
  {
  }

  lemma PutIntentKeepsSound(cfg: Config, st: Store, e: Event)
    requires Sound(st) && e.call.PutIntentCall? && e.env.newId !in st.subscriptions
    requires Step(cfg, st, e).Ok?
    ensures Sound(Step(cfg, st, e).value)
  {
    hide AttachSubscription, Sound, CheckKey, Notify;
    var id, p, manager := e.call.id, e.call.intent, e.call.manager;
    var u := CheckIntentParams(cfg, e.call.ovn, p, e.env.now).value;
    var prior := CurrentIntent(st, id, manager, e.call.ovn).value;
    var attached := AttachSubscription(st.subscriptions, cfg, manager, p, u, e.env).value;
    var version := ToInt32((if prior.None? then 0 else prior.value.version) + 1);
    var intent := Intent(manager, version, p.state, e.env.intentOvn, p.baseUrl, attached.id, u);
    var written := Store(st.intents[id := intent], attached.subscriptions, st.constraints);
    WrittenIsSound(cfg, st, manager, p, u, e.env, id, intent);
    NotifyKeepsSound(written, NotifiedBox(u, if prior.None? then None else Some(prior.value.box)), true);
  }

  lemma WrittenIsSound(
    cfg: Config, st: Store, manager: Manager, p: IntentParams, u: Box, env: Env, id: Id, intent: Intent)
    requires Sound(st) && u.start.Some? && u.end.Some? && env.newId !in st.subscriptions
    requires AttachSubscription(st.subscriptions, cfg, manager, p, u, env).Ok?
    requires intent.manager == manager && intent.box == u
    requires intent.subscriptionId == AttachSubscription(st.subscriptions, cfg, manager, p, u, env).value.id
    ensures var attached := AttachSubscription(st.subscriptions, cfg, manager, p, u, env).value;
            Sound(Store(st.intents[id := intent], attached.subscriptions, st.constraints))
  {
    hide AttachSubscription, Supports, Stretched;
    AttachmentSupports(st.subscriptions, cfg, manager, p, u, env, intent);
    var attached := AttachSubscription(st.subscriptions, cfg, manager, p, u, env).value;
    forall i | i in st.intents
      ensures Supports(attached.subscriptions[st.intents[i].subscriptionId], st.intents[i])
    {
      var s := st.intents[i].subscriptionId;
      StretchedSupports(st.subscriptions[s], attached.subscriptions[s], st.intents[i]);
    }
  }

  lemma StretchedSupports(before: ScdSubscription, after: ScdSubscription, i: Intent)
    requires Supports(before, i) && Stretched(before, after)
    ensures Supports(after, i)
  {
  }

  lemma CoveredIsSupported(st: Store, id: Id, sub: ScdSubscription, lo: Option<real>, hi: Option<real>, i: Id)
    requires Sound(st) && i in st.intents && st.intents[i].subscriptionId == id && id in st.subscriptions
    requires Bounded(sub.range) && sub.manager == st.subscriptions[id].manager
    requires CoversDependents(st, id, sub.area, lo, hi, sub.range)
    ensures Supports(sub, st.intents[i])
  {
    assert i in Dependents(st.intents, id);
  }

  /** What a put subscription is, and that it covers what depends on the one it replaces. */
  lemma PutSubscriptionEffect(
    st: Store, cfg: Config, id: Id, manager: Manager, version: Ovn, p: SubscriptionParams, env: Env)
    requires PutSubscription(st, cfg, id, manager, version, p, env).Ok?
    ensures var out := PutSubscription(st, cfg, id, manager, version, p, env).value;
            && id in out.subscriptions && out == st.(subscriptions := st.subscriptions[id := out.subscriptions[id]])
            && var sub := out.subscriptions[id];
               && Bounded(sub.range) && p.extents.space.Some?
               && (id in st.subscriptions ==>
                     var space := p.extents.space.value;
                     && sub.manager == st.subscriptions[id].manager
                     && CoversDependents(st, id, sub.area, space.lo, space.hi, sub.range))
  {
    hide Adjusted, CoversDependents;
    var prior := if id in st.subscriptions then Some(st.subscriptions[id].range) else None;
    AdjustedIsBounded(env.now, Range(p.extents.start, p.extents.end), prior);
  }

  lemma PutSubscriptionKeepsSound(cfg: Config, st: Store, e: Event)
    requires Sound(st) && e.call.PutSubscriptionCall? && Step(cfg, st, e).Ok?
    ensures Sound(Step(cfg, st, e).value)
  {
    var st', id, p := Step(cfg, st, e).value, e.call.id, e.call.subscription;
    PutSubscriptionEffect(st, cfg, id, e.call.manager, e.call.version, p, e.env);
    hide PutSubscription, Supports, CoversDependents;
    forall i | i in st.intents
      ensures st.intents[i].subscriptionId in st'.subscriptions
      ensures Supports(st'.subscriptions[st.intents[i].subscriptionId], st.intents[i])
    {
      if st.intents[i].subscriptionId == id {
        CoveredIsSupported(st, id, st'.subscriptions[id], p.extents.space.value.lo, p.extents.space.value.hi, i);
      }
    }
  }

  lemma SharedIsKept(intents: map<Id, Intent>, id: Id, i: Id)
    requires id in intents && i in intents && i != id && intents[i].subscriptionId == intents[id].subscriptionId
    ensures |Dependents(intents, intents[id].subscriptionId)| > 1
  {
    var dependents := Dependents(intents, intents[id].subscriptionId);
    assert {i, id} <= dependents;
    SubsetIsSmaller({i, id}, dependents);
  }

  lemma WithoutIsSound(st: Store, out: Store, id: Id)
    requires Sound(st) && out.intents == st.intents - {id} && out.subscriptions.Keys <= st.subscriptions.Keys
    requires forall s :: s in out.subscriptions ==> out.subscriptions[s] == st.subscriptions[s]
    requires forall i :: i in st.intents && i != id ==> st.intents[i].subscriptionId in out.subscriptions
    ensures Sound(out)
  {
    hide Supports;
  }

  lemma DeleteIntentKeepsSound(cfg: Config, st: Store, e: Event)
    requires Sound(st) && e.call.DeleteIntentCall? && Step(cfg, st, e).Ok?
    ensures Sound(Step(cfg, st, e).value)
  {
    hide Sound, Notify, Dependents;
    var id := e.call.id;
    var s := st.intents[id].subscriptionId;
    NotifyKeepsSound(st, st.intents[id].box, true);
    var told := Notify(st, st.intents[id].box, true).store;
    NotifyKeepsKeys(st, st.intents[id].box);
    forall i | i in told.intents && i != id
      ensures told.intents[i].subscriptionId in Step(cfg, st, e).value.subscriptions
    {
      if told.intents[i].subscriptionId == s {
        SharedIsKept(st.intents, id, i);
      }
      NamesStored(told, i);
    }
    WithoutIsSound(told, Step(cfg, st, e).value, id);
  }

  lemma NotifyKeepsKeys(st: Store, v: Box)
    ensures Notify(st, v, true).store.intents == st.intents
    ensures Notify(st, v, true).store.subscriptions.Keys == st.subscriptions.Keys
  {
  }

  lemma NamesStored(st: Store, i: Id)
    requires Sound(st) && i in st.intents
    ensures st.intents[i].subscriptionId in st.subscriptions
  {
  }

  lemma DeleteSubscriptionKeepsSound(cfg: Config, st: Store, e: Event)
    requires Sound(st) && e.call.DeleteSubscriptionCall? && Step(cfg, st, e).Ok?
    ensures Sound(Step(cfg, st, e).value)
  {
    forall i | i in st.intents ensures st.intents[i].subscriptionId != e.call.id {
      assert i !in Dependents(st.intents, e.call.id);
    }
  }

  lemma OtherConstraints(st: Store, written: Store)
    requires Sound(st) && written.intents == st.intents && written.subscriptions == st.subscriptions
    ensures Sound(written)
  {
  }

  lemma ConstraintKeepsSound(cfg: Config, st: Store, e: Event)
    requires Sound(st) && (e.call.PutConstraintCall? || e.call.DeleteConstraintCall?) && Step(cfg, st, e).Ok?
    ensures Sound(Step(cfg, st, e).value)
  {
    hide NotifiedBox, BoxOf, Notify, Sound;
    var id, constraints := e.call.id, st.constraints;
    match e.call
    case PutConstraintCall(_, manager, _, p) =>
      var box := BoxOf(Volumes.Union(p.extents).value).value;
      var version := ToInt32((if id in constraints then constraints[id].version else 0) + 1);
      var constraint := Constraint(manager, version, e.env.constraintOvn, p.baseUrl, box);
      var written := st.(constraints := constraints[id := constraint]);
      OtherConstraints(st, written);
      NotifyKeepsSound(written, NotifiedBox(box, if id in constraints then Some(constraints[id].box) else None), false);
    case DeleteConstraintCall(_, _) =>
      var written := st.(constraints := constraints - {id});
      OtherConstraints(st, written);
      NotifyKeepsSound(written, constraints[id].box, false);
  }

  lemma StepKeepsSound(cfg: Config, st: Store, e: Event)
    requires Sound(st) && e.env.newId !in st.subscriptions && Step(cfg, st, e).Ok?
    ensures Sound(Step(cfg, st, e).value)
  {
    hide Step, Sound;
    match e.call
    case PutIntentCall(_, _, _, _) => PutIntentKeepsSound(cfg, st, e);
    case DeleteIntentCall(_, _) => DeleteIntentKeepsSound(cfg, st, e);
    case PutSubscriptionCall(_, _, _, _) => PutSubscriptionKeepsSound(cfg, st, e);
    case DeleteSubscriptionCall(_, _) => DeleteSubscriptionKeepsSound(cfg, st, e);
    case PutConstraintCall(_, _, _, _) => ConstraintKeepsSound(cfg, st, e);
    case DeleteConstraintCall(_, _) => ConstraintKeepsSound(cfg, st, e);
  }

  lemma AdvanceKeepsSound(cfg: Config, st: Store, e: Event)
    requires Sound(st) && e.env.newId !in st.subscriptions
    ensures Sound(Advance(cfg, st, e))
  {
    hide Step, Sound;
    if Step(cfg, st, e).Ok? {
      StepKeepsSound(cfg, st, e);
    }
  }

  /** In every reachable store each intent is supported by the subscription it names. */
  lemma {:induction false} CoverageOverRuns(cfg: Config, events: seq<Event>, n: nat)
    requires FreshIds(cfg, events) && n <= |events|
    ensures Sound(After(cfg, events, n))
  {
    hide Advance;
    if n > 0 {
      CoverageOverRuns(cfg, events, n - 1);
      AdvanceKeepsSound(cfg, After(cfg, events, n - 1), events[n - 1]);
    }
  }

  /** Hence the internal errors of a deletion cannot occur, an owner can always delete an intent of its own, and
      adjusting the times of a subscription never meets an absent one. */
  lemma DeletionNeverBreaks(cfg: Config, events: seq<Event>, n: nat, id: Id, manager: Manager)
    requires FreshIds(cfg, events) && n <= |events|
    ensures var st := After(cfg, events, n);
            && DeleteIntent(st, id, manager) != Err(SubscriptionMissing)
            && DeleteIntent(st, id, manager) != Err(NoDependents)
            && (id in st.intents && st.intents[id].manager == manager ==> DeleteIntent(st, id, manager).Ok?)
            && forall s, now, asked :: s in st.subscriptions ==>
                 Adjusted(now, asked, Some(st.subscriptions[s].range)) != Err(NilDereference)
  {
    CoverageOverRuns(cfg, events, n);
    var st := After(cfg, events, n);
    if id in st.intents {
      assert id in Dependents(st.intents, st.intents[id].subscriptionId);
    }
  }
}
