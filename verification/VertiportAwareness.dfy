/** Vertiport reservations follow the same protocol of version strings and keys as operational intents at large. */
module VertiportAwareness {
  import opened Common
  import Awareness
  import opened SubscriptionTimes
  import opened Subscribers
  import opened VertiportModel
  import opened VertiportRuns

  /** Intents and constraints together follow the protocol of OVNs and keys. */
  datatype Item = IntentItem(id: Id) | ConstraintItem(id: Id)

  /** What an item occupies; an intent put under a subscription that wants constraints has to know these too. */
  datatype Extent =
    | IntentExtent(reservation: Reservation, constraintsToo: bool) | ConstraintExtent(reservation: Reservation)

  predicate MustKnow(other: Extent, own: Extent) {
    && own.IntentExtent? && Meets(other.reservation, own.reservation)
    && (other.ConstraintExtent? ==> own.constraintsToo)
  }

  type Entries = Awareness.Entries<Item, Extent>
  type Action = Awareness.Action<Item, Extent>

  /** The entries are the intents and constraints of the store. */
  ghost predicate Agrees(entries: Entries, st: Store) {
    && (forall id :: IntentItem(id) in entries <==> id in st.intents)
    && (forall id :: id in st.intents ==> AgreesOnIntent(entries[IntentItem(id)], st.intents[id]))
    && (forall id :: ConstraintItem(id) in entries <==> id in st.constraints)
    && (forall id :: id in st.constraints ==> AgreesOnConstraint(entries[ConstraintItem(id)], st.constraints[id]))
  }

  predicate AgreesOnIntent(entry: Awareness.Entry<Extent>, i: Intent) {
    && entry.ovn == i.ovn && entry.version == i.version && entry.state == i.state
    && entry.extent.IntentExtent? && entry.extent.reservation == i.reservation
  }

  predicate AgreesOnConstraint(entry: Awareness.Entry<Extent>, c: Constraint) {
    entry.ovn == c.ovn && entry.version == c.version && entry.extent == ConstraintExtent(c.reservation)
  }

  /** What an event does to the intents and constraints. */
  function ActionOf(cfg: Config, st: Store, e: Event): Action {
    var r := Step(cfg, st, e);
    if r.Err? then Awareness.Keep else
    match e.call
    case PutIntentCall(id, _, ovn, p) => PutOfIntent(r.value, id, ovn, p.key)
    case DeleteIntentCall(id, _) => Awareness.Remove(IntentItem(id))
    case PutConstraintCall(id, _, ovn, _) => PutOfConstraint(r.value, id, ovn)
    case DeleteConstraintCall(id, _) => Awareness.Remove(ConstraintItem(id))
    case _ => Awareness.Keep
  }

  function PutOfIntent(after: Store, id: Id, presented: Ovn, key: seq<Ovn>): Action {
    if id in after.intents && after.intents[id].subscriptionId in after.subscriptions then
      var i := after.intents[id];
      var extent := IntentExtent(i.reservation, after.subscriptions[i.subscriptionId].notifyForConstraints);
      Awareness.Put(IntentItem(id), presented, key, Awareness.Entry(i.ovn, i.version, i.state, extent))
    else Awareness.Keep
  }

  function PutOfConstraint(after: Store, id: Id, presented: Ovn): Action {
    if id in after.constraints then
      var c := after.constraints[id];
      var entry := Awareness.Entry(c.ovn, c.version, "", ConstraintExtent(c.reservation));
      Awareness.Put(ConstraintItem(id), presented, [], entry)
    else Awareness.Keep
  }

  function ActionsOf(cfg: Config, events: seq<Event>): nat -> Action {
    (n: nat) => if n < |events| then ActionOf(cfg, After(cfg, events, n), events[n]) else Awareness.Keep
  }

  /** The OVN that a put gives out, if it commits. */
  function NewOvn(e: Event): Option<Ovn> {
    if e.call.PutIntentCall? then Some(e.env.intentOvn)
    else if e.call.PutConstraintCall? then Some(e.env.constraintOvn)
    else None
  }

  /** OVNs given out are nonempty, and have not been given out before. */
  ghost predicate FreshOvns(cfg: Config, events: seq<Event>) {
    forall n :: 0 <= n < |events| && NewOvn(events[n]).Some? ==>
      var ovn := NewOvn(events[n]).value;
      ovn != "" && ovn !in Awareness.After(ActionsOf(cfg, events), n).issued
  }

  /** Each call writes or removes at most the one intent or constraint that it is about. A put writes the next version
      under a new OVN, and has named the current one. In a state that requires a key no intent was missing from it,
      and no constraint either if the subscription wants constraints. */
  ghost predicate Effect(st: Store, e: Event, after: Store) {
    match e.call
    case PutIntentCall(id, manager, ovn, p) =>
      && after.constraints == st.constraints
      && id in after.intents && after.intents == st.intents[id := after.intents[id]]
      && after.intents[id].subscriptionId in after.subscriptions
      && IntentWritten(st, id, manager, ovn, p, e.env, after.intents[id],
                       after.subscriptions[after.intents[id].subscriptionId].notifyForConstraints)
    case DeleteIntentCall(id, _) =>
      id in st.intents && after.intents == st.intents - {id} && after.constraints == st.constraints
    case PutConstraintCall(id, _, ovn, _) =>
      && after.intents == st.intents
      && id in after.constraints && after.constraints == st.constraints[id := after.constraints[id]]
      && after.constraints[id].ovn == e.env.constraintOvn
      && after.constraints[id].version == ToInt32((if id in st.constraints then st.constraints[id].version else 0) + 1)
      && (if id in st.constraints then st.constraints[id].ovn == ovn else ovn == "")
    case DeleteConstraintCall(id, _) =>
      id in st.constraints && after.constraints == st.constraints - {id} && after.intents == st.intents
    case _ => after.intents == st.intents && after.constraints == st.constraints
  }

  ghost predicate IntentWritten(
    st: Store, id: Id, manager: Manager, ovn: Ovn, p: IntentParams, env: Env, i: Intent, constraintsToo: bool)
  {
    && i.ovn == env.intentOvn && i.state == p.state
    && i.version == ToInt32((if id in st.intents then st.intents[id].version else 0) + 1)
    && (if id in st.intents then st.intents[id].ovn == ovn else ovn == "")
    && (RequiresKey(p.state) ==>
          && MissingIntents(st.intents, manager, i.reservation, p.key) == map[]
          && (constraintsToo ==> MissingConstraints(st.constraints, manager, i.reservation, p.key) == map[]))
  }

  lemma PutEffect(cfg: Config, st: Store, e: Event)
    requires e.call.PutIntentCall? && Step(cfg, st, e).Ok?
    ensures Effect(st, e, Step(cfg, st, e).value)
  {
    hide AttachSubscription, Meets, MissingIntents, MissingConstraints;
  }

  lemma StepEffect(cfg: Config, st: Store, e: Event)
    requires Step(cfg, st, e).Ok?
    ensures Effect(st, e, Step(cfg, st, e).value)
  {
    hide PutIntent, Adjusted, Meets;
    if e.call.PutIntentCall? {
      PutEffect(cfg, st, e);
    }
  }

  lemma KnowsAll(entries: Entries, st: Store, manager: Manager, p: IntentParams, own: Extent)
    requires Agrees(entries, st) && own.IntentExtent?
    requires MissingIntents(st.intents, manager, own.reservation, p.key) == map[]
    requires own.constraintsToo ==> MissingConstraints(st.constraints, manager, own.reservation, p.key) == map[]
    ensures forall o :: o in entries && MustKnow(entries[o].extent, own) ==> entries[o].ovn in p.key
  {
    hide Meets;
    forall o | o in entries && MustKnow(entries[o].extent, own) ensures entries[o].ovn in p.key {
      match o
      case IntentItem(id) => assert id !in MissingIntents(st.intents, manager, own.reservation, p.key);
      case ConstraintItem(id) => assert id !in MissingConstraints(st.constraints, manager, own.reservation, p.key);
    }
  }

  lemma PutIsCareful(cfg: Config, st: Store, e: Event, entries: Entries)
    requires Agrees(entries, st) && e.call.PutIntentCall?
    requires Step(cfg, st, e).Ok? && Effect(st, e, Step(cfg, st, e).value)
    ensures Awareness.Careful(entries, ActionOf(cfg, st, e), MustKnow)
  {
    hide Step, MissingIntents, MissingConstraints;
    var after, id := Step(cfg, st, e).value, e.call.id;
    var i := after.intents[id];
    var extent := IntentExtent(i.reservation, after.subscriptions[i.subscriptionId].notifyForConstraints);
    if RequiresKey(e.call.intent.state) {
      KnowsAll(entries, st, e.call.manager, e.call.intent, extent);
    }
    hide MustKnow;
  }

  lemma EffectIsCareful(cfg: Config, st: Store, e: Event, entries: Entries)
    requires Agrees(entries, st) && Step(cfg, st, e).Ok? && Effect(st, e, Step(cfg, st, e).value)
    ensures Awareness.Careful(entries, ActionOf(cfg, st, e), MustKnow)
  {
    hide Step, IntentWritten;
    if e.call.PutIntentCall? {
      PutIsCareful(cfg, st, e, entries);
    }
  }

  lemma AgreesWithIntent(entries: Entries, st: Store, id: Id, entry: Awareness.Entry<Extent>, i: Intent, after: Store)
    requires Agrees(entries, st) && AgreesOnIntent(entry, i)
    requires after.intents == st.intents[id := i] && after.constraints == st.constraints
    ensures Agrees(entries[IntentItem(id) := entry], after)
  {
    hide AgreesOnIntent, AgreesOnConstraint;
  }

  lemma AgreesWithConstraint(
    entries: Entries, st: Store, id: Id, entry: Awareness.Entry<Extent>, c: Constraint, after: Store)
    requires Agrees(entries, st) && AgreesOnConstraint(entry, c)
    requires after.constraints == st.constraints[id := c] && after.intents == st.intents
    ensures Agrees(entries[ConstraintItem(id) := entry], after)
  {
    hide AgreesOnIntent, AgreesOnConstraint;
  }

  lemma AgreesWithout(entries: Entries, st: Store, item: Item, after: Store)
    requires Agrees(entries, st)
    requires after.intents == if item.IntentItem? then st.intents - {item.id} else st.intents
    requires after.constraints == if item.ConstraintItem? then st.constraints - {item.id} else st.constraints
    ensures Agrees(entries - {item}, after)
  {
    hide AgreesOnIntent, AgreesOnConstraint;
  }

  lemma EffectAgrees(cfg: Config, st: Store, e: Event, entries: Entries)
    requires Agrees(entries, st) && Step(cfg, st, e).Ok? && Effect(st, e, Step(cfg, st, e).value)
    ensures Agrees(Awareness.Applied(entries, ActionOf(cfg, st, e)), Step(cfg, st, e).value)
    ensures ActionOf(cfg, st, e).Put? ==> NewOvn(e) == Some(ActionOf(cfg, st, e).entry.ovn)
  {
    hide Step, Agrees;
    var after, action := Step(cfg, st, e).value, ActionOf(cfg, st, e);
    match e.call
    case PutIntentCall(id, _, _, _) => AgreesWithIntent(entries, st, id, action.entry, after.intents[id], after);
    case DeleteIntentCall(id, _) => AgreesWithout(entries, st, IntentItem(id), after);
    case PutConstraintCall(id, _, _, _) =>
      AgreesWithConstraint(entries, st, id, action.entry, after.constraints[id], after);
    case DeleteConstraintCall(id, _) => AgreesWithout(entries, st, ConstraintItem(id), after);
    case _ => SameAgrees(entries, st, after);
  }

  lemma SameAgrees(entries: Entries, st: Store, after: Store)
    requires Agrees(entries, st) && after.intents == st.intents && after.constraints == st.constraints
    ensures Agrees(entries, after)
  {
  }

  lemma StepIsCareful(cfg: Config, st: Store, e: Event, entries: Entries)
    requires Agrees(entries, st)
    ensures var action := ActionOf(cfg, st, e);
            && Awareness.Careful(entries, action, MustKnow)
            && Agrees(Awareness.Applied(entries, action), Advance(cfg, st, e))
            && (action.Put? ==> NewOvn(e) == Some(action.entry.ovn))
  {
    hide Step, Agrees, Effect, MustKnow;
    if Step(cfg, st, e).Ok? {
      StepEffect(cfg, st, e);
      EffectIsCareful(cfg, st, e, entries);
      EffectAgrees(cfg, st, e, entries);
    }
  }

  /** The runs of the service are runs of the protocol. */
  lemma {:induction false} RunRefines(cfg: Config, events: seq<Event>, n: nat)
    requires n <= |events|
    ensures Agrees(Awareness.After(ActionsOf(cfg, events), n).entries, After(cfg, events, n))
  {
    hide Step, After, Advance, ActionOf, ActionsOf, Agrees;
    hide Awareness.After, Awareness.Careful, Awareness.Applied, Awareness.Recorded;
    if n == 0 {
      NoEntries(cfg, events);
    } else {
      RunRefines(cfg, events, n - 1);
      Turn(cfg, events, n - 1);
      var actions := ActionsOf(cfg, events);
      StepIsCareful(cfg, After(cfg, events, n - 1), events[n - 1], Awareness.After(actions, n - 1).entries);
      Awareness.AtTurn(actions, MustKnow, n - 1);
    }
  }

  lemma Turn(cfg: Config, events: seq<Event>, n: nat)
    requires n < |events|
    ensures After(cfg, events, n + 1) == Advance(cfg, After(cfg, events, n), events[n])
    ensures ActionsOf(cfg, events)(n) == ActionOf(cfg, After(cfg, events, n), events[n])
  {
    hide Advance, ActionOf;
  }

  lemma NoEntries(cfg: Config, events: seq<Event>)
    ensures Agrees(Awareness.After(ActionsOf(cfg, events), 0).entries, After(cfg, events, 0))
  {
  }

  lemma ProtocolOfRun(cfg: Config, events: seq<Event>)
    ensures Awareness.AllCareful(ActionsOf(cfg, events), MustKnow)
    ensures FreshOvns(cfg, events) ==> Awareness.FreshOvns(ActionsOf(cfg, events))
  {
    hide ActionOf, After, MustKnow;
    var actions := ActionsOf(cfg, events);
    forall n: nat ensures Awareness.CarefulAt(actions, MustKnow, n) {
      CarefulAt(cfg, events, n);
    }
    forall n: nat ensures FreshOvns(cfg, events) ==> Awareness.FreshAt(actions, n) {
      CarefulAt(cfg, events, n);
    }
  }

  lemma CarefulAt(cfg: Config, events: seq<Event>, n: nat)
    ensures var actions := ActionsOf(cfg, events);
            && Awareness.Careful(Awareness.After(actions, n).entries, actions(n), MustKnow)
            && (n < |events| && actions(n).Put? ==> NewOvn(events[n]) == Some(actions(n).entry.ovn))
            && (n >= |events| ==> actions(n) == Awareness.Keep)
  {
    hide ActionOf, Agrees, After, Advance, Awareness.After;
    if n < |events| {
      RunRefines(cfg, events, n);
      StepIsCareful(cfg, After(cfg, events, n), events[n], Awareness.After(ActionsOf(cfg, events), n).entries);
    }
  }

  /** At every point of every run: whatever an intent has to know and was written before it, the client that wrote the
      intent knew in its current version, unless the state of the intent needs no key. These are the intents that
      meet it, and for a subscription that wanted constraints also the constraints that do. Each stored version
      number counts the puts since the intent or constraint was created. */
  lemma MutualAwareness(cfg: Config, events: seq<Event>, n: nat)
    requires n <= |events|
    ensures var w := Awareness.After(ActionsOf(cfg, events), n);
            Agrees(w.entries, After(cfg, events, n)) && Awareness.Aware(w, MustKnow)
  {
    ProtocolOfRun(cfg, events);
    RunRefines(cfg, events, n);
    Awareness.MutualAwareness(ActionsOf(cfg, events), MustKnow, n);
  }

  /** Read for two intents: the one put later knew the current version of the other. */
  lemma IntentsKnowEachOther(cfg: Config, events: seq<Event>, n: nat, a: Id, b: Id)
    requires n <= |events| && a in After(cfg, events, n).intents && b in After(cfg, events, n).intents && a != b
    requires Meets(After(cfg, events, n).intents[a].reservation, After(cfg, events, n).intents[b].reservation)
    ensures var st, history := After(cfg, events, n), Awareness.After(ActionsOf(cfg, events), n).history;
            && IntentItem(a) in history && IntentItem(b) in history
            && var first, second := history[IntentItem(a)], history[IntentItem(b)];
               && (first.written < second.written || second.written < first.written)
               && (first.written < second.written && RequiresKey(st.intents[b].state) ==>
                     st.intents[a].ovn in second.key)
               && (second.written < first.written && RequiresKey(st.intents[a].state) ==>
                     st.intents[b].ovn in first.key)
  {
    MutualAwareness(cfg, events, n);
    var w := Awareness.After(ActionsOf(cfg, events), n);
    var st := After(cfg, events, n);
    MeetsIsSymmetric(st.intents[a].reservation, st.intents[b].reservation);
    KnowEachOther(w, st, a, b);
  }

  lemma KnowEachOther(w: Awareness.World<Item, Extent>, st: Store, a: Id, b: Id)
    requires Awareness.Aware(w, MustKnow) && Agrees(w.entries, st) && a in st.intents && b in st.intents && a != b
    requires Meets(st.intents[a].reservation, st.intents[b].reservation)
    requires Meets(st.intents[b].reservation, st.intents[a].reservation)
    ensures IntentItem(a) in w.history && IntentItem(b) in w.history
    ensures var first, second := w.history[IntentItem(a)], w.history[IntentItem(b)];
            && (first.written < second.written || second.written < first.written)
            && (first.written < second.written && RequiresKey(st.intents[b].state) ==>
                  st.intents[a].ovn in second.key)
            && (second.written < first.written && RequiresKey(st.intents[a].state) ==>
                  st.intents[b].ovn in first.key)
  {
    assert Awareness.AwareOf(w, MustKnow, IntentItem(a), IntentItem(b));
    assert Awareness.AwareOf(w, MustKnow, IntentItem(b), IntentItem(a));
    hide Meets;
  }

  /** The intent or constraint that a put is about, and the OVN that it presents. */
  function Target(call: Call): Option<(Item, Ovn)> {
    match call
    case PutIntentCall(id, _, ovn, _) => Some((IntentItem(id), ovn))
    case PutConstraintCall(id, _, ovn, _) => Some((ConstraintItem(id), ovn))
    case _ => None
  }

  lemma CommittedPut(cfg: Config, events: seq<Event>, n: nat)
    requires n < |events| && Commits(cfg, events, n) && Target(events[n].call).Some?
    ensures var action, target := ActionsOf(cfg, events)(n), Target(events[n].call).value;
            action.Put? && action.id == target.0 && action.presented == target.1
  {
    hide Step, IntentWritten;
    StepEffect(cfg, After(cfg, events, n), events[n]);
  }

  lemma IssueCommitted(cfg: Config, events: seq<Event>, n: nat, item: Item, ovn: Ovn)
    requires Awareness.Issues(ActionsOf(cfg, events)(n), item, ovn)
    ensures n < |events| && Commits(cfg, events, n)
    ensures Target(events[n].call).Some? && Target(events[n].call).value.0 == item && NewOvn(events[n]) == Some(ovn)
  {
    CarefulAt(cfg, events, n);
    hide Step, After;
  }

  /** Two puts on one intent or constraint that present the same OVN commit both only when a put on it that commits in
      between, the first of the two included, gives out this OVN again. Nothing is assumed of OVNs here. */
  lemma LostPutReusesOvn(cfg: Config, events: seq<Event>, i: nat, j: nat)
    requires i < j < |events| && Commits(cfg, events, i) && Commits(cfg, events, j)
    requires Target(events[i].call).Some? && Target(events[i].call) == Target(events[j].call)
    requires Target(events[i].call).value.1 != ""
    ensures exists k :: i <= k < j && Reissues(cfg, events, k, Target(events[i].call).value)
  {
    hide Commits, ActionsOf, Awareness.Issues, Reissues, Awareness.AllCareful;
    ProtocolOfRun(cfg, events);
    CommittedPut(cfg, events, i);
    CommittedPut(cfg, events, j);
    var actions, target := ActionsOf(cfg, events), Target(events[i].call).value;
    Awareness.LostPutReusesOvn(actions, MustKnow, i, j);
    var k :| i <= k < j && Awareness.Issues(actions(k), target.0, target.1);
    Reissued(cfg, events, k, target);
  }

  lemma Reissued(cfg: Config, events: seq<Event>, k: nat, target: (Item, Ovn))
    requires Awareness.Issues(ActionsOf(cfg, events)(k), target.0, target.1) && k < |events|
    ensures Reissues(cfg, events, k, target)
  {
    IssueCommitted(cfg, events, k, target.0, target.1);
    hide Commits, NewOvn, Target, ActionsOf;
  }

  /** The event is a put on the item that commits and gives out the OVN. */
  predicate Reissues(cfg: Config, events: seq<Event>, k: nat, target: (Item, Ovn))
    requires k < |events|
  {
    && Commits(cfg, events, k) && NewOvn(events[k]) == Some(target.1)
    && Target(events[k].call).Some? && Target(events[k].call).value.0 == target.0
  }

  /** Of two puts on one intent or constraint that present the same OVN, at most one commits. */
  lemma NoLostPuts(cfg: Config, events: seq<Event>, i: nat, j: nat)
    requires FreshOvns(cfg, events) && i < j < |events|
    requires Target(events[i].call).Some? && Target(events[i].call) == Target(events[j].call)
    requires Target(events[i].call).value.1 != ""
    ensures !(Commits(cfg, events, i) && Commits(cfg, events, j))
  {
    hide Commits, ActionsOf, FreshOvns;
    if Commits(cfg, events, i) && Commits(cfg, events, j) {
      ProtocolOfRun(cfg, events);
      CommittedPut(cfg, events, i);
      CommittedPut(cfg, events, j);
      Awareness.NoLostPuts(ActionsOf(cfg, events), MustKnow, i, j);
    }
  }

  predicate Deletes(call: Call, item: Item) {
    match call
    case DeleteIntentCall(id, _) => item == IntentItem(id)
    case DeleteConstraintCall(id, _) => item == ConstraintItem(id)
    case _ => false
  }

  /** A put that creates an intent or constraint commits after another put on it only when it is deleted in between. */
  lemma NoDoubleCreation(cfg: Config, events: seq<Event>, i: nat, j: nat)
    requires FreshOvns(cfg, events) && i < j < |events|
    requires Target(events[i].call).Some? && Target(events[j].call) == Some((Target(events[i].call).value.0, ""))
    requires Commits(cfg, events, i) && Commits(cfg, events, j)
    ensures exists k :: i < k < j && Deletes(events[k].call, Target(events[i].call).value.0) && Commits(cfg, events, k)
  {
    hide Commits, ActionsOf, FreshOvns, Deletes;
    ProtocolOfRun(cfg, events);
    CommittedPut(cfg, events, i);
    CommittedPut(cfg, events, j);
    var actions, item := ActionsOf(cfg, events), Target(events[i].call).value.0;
    Awareness.NoDoubleCreation(actions, MustKnow, i, j);
    var k :| i < k < j && actions(k) == Awareness.Remove(item);
    CommittedDeletion(cfg, events, k, item);
  }

  lemma CommittedDeletion(cfg: Config, events: seq<Event>, n: nat, item: Item)
    requires n < |events| && ActionsOf(cfg, events)(n) == Awareness.Remove(item)
    ensures Deletes(events[n].call, item) && Commits(cfg, events, n)
  {
    hide Step, After;
  }

  lemma MeetsIsSymmetric(a: Reservation, b: Reservation)
    ensures Meets(a, b) <==> Meets(b, a)
  {
  }
}
