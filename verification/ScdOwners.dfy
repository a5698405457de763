/** Who may change what over runs of the strategic coordination service, and that no put of a subscription is lost. */
module ScdOwners {
  import opened Common
  import Versions
  import opened SubscriptionTimes
  import opened Subscribers
  import opened ScdModel
  import opened ScdRuns
  import opened ScdAnswers

  // ----- intents and constraints belong to their managers -----

  function OwnerOf(st: Store, item: Item): Option<Manager> {
    match item
    case IntentItem(id) => if id in st.intents then Some(st.intents[id].manager) else None
    case ConstraintItem(id) => if id in st.constraints then Some(st.constraints[id].manager) else None
  }

  /** The intent or constraint that a call puts or deletes. */
  function ItemOf(call: Call): Option<Item> {
    match call
    case PutIntentCall(id, _, _, _) => Some(IntentItem(id))
    case DeleteIntentCall(id, _) => Some(IntentItem(id))
    case PutConstraintCall(id, _, _, _) => Some(ConstraintItem(id))
    case DeleteConstraintCall(id, _) => Some(ConstraintItem(id))
    case _ => None
  }

  predicate Same(st: Store, after: Store, item: Item) {
    match item
    case IntentItem(id) =>
      if id in st.intents then id in after.intents && after.intents[id] == st.intents[id] else id !in after.intents
    case ConstraintItem(id) =>
      if id in st.constraints then id in after.constraints && after.constraints[id] == st.constraints[id]
      else id !in after.constraints
  }

  lemma FitVolume(st: Store, cfg: Config, id: Id, manager: Manager, ovn: Ovn, p: IntentParams, env: Env)
    returns (u: Box)
    requires PutIntent(st, cfg, id, manager, ovn, p, env).Ok?
    ensures FitIntent(cfg, ovn, p, env.now, u)
  {
    UnfitIntent(st, cfg, id, manager, ovn, p, env);
    u :| FitIntent(cfg, ovn, p, env.now, u);
  }

  lemma FitConstraintVolume(
    st: Store, cfg: Config, id: Id, manager: Manager, ovn: Ovn, p: ConstraintParams, env: Env) returns (u: Box)
    requires PutConstraint(st, cfg, id, manager, ovn, p, env).Ok?
    ensures FitConstraint(cfg, p, u)
  {
    UnfitConstraint(st, cfg, id, manager, ovn, p, env);
    u :| FitConstraint(cfg, p, u);
  }

  /** A call that commits is about an intent or constraint of the caller, or a new one that is the caller's then, and
      leaves all others as they are. */
  lemma StepIsTheOwners(cfg: Config, st: Store, e: Event, item: Item)
    requires Step(cfg, st, e).Ok?
    ensures var after := Step(cfg, st, e).value;
            if ItemOf(e.call) == Some(item) then
              && (OwnerOf(st, item).Some? ==> OwnerOf(st, item) == Some(e.call.manager))
              && OwnerOf(after, item) == if Deletes(e.call, item) then None else Some(e.call.manager)
            else Same(st, after, item)
  {
    hide PutIntent, DeleteIntent, PutSubscription, DeleteSubscription, PutConstraint, DeleteConstraint;
    hide FitIntent, FitConstraint, AttachedRow, SameRow, CanAttach, SomeMissing, ListsMissing;
    match e.call
    case PutIntentCall(id, manager, ovn, p) =>
      var u := FitVolume(st, cfg, id, manager, ovn, p, e.env);
      PutIntentAnswer(st, cfg, id, manager, ovn, p, e.env, u);
      PutIntentWrites(st, cfg, id, manager, ovn, p, e.env, u);
    case DeleteIntentCall(id, manager) =>
      DeleteIntentAnswer(st, id, manager);
      DeleteIntentWrites(st, id, manager);
    case PutSubscriptionCall(id, manager, version, p) => OtherTables(cfg, st, e);
    case DeleteSubscriptionCall(id, manager) => OtherTables(cfg, st, e);
    case PutConstraintCall(id, manager, ovn, p) =>
      var u := FitConstraintVolume(st, cfg, id, manager, ovn, p, e.env);
      PutConstraintAnswer(st, cfg, id, manager, ovn, p, e.env, u);
      PutConstraintWrites(st, cfg, id, manager, ovn, p, e.env, u);
    case DeleteConstraintCall(id, manager) => DeleteConstraintAnswer(st, id, manager);
  }

  lemma OtherTables(cfg: Config, st: Store, e: Event)
    requires (e.call.PutSubscriptionCall? || e.call.DeleteSubscriptionCall?) && Step(cfg, st, e).Ok?
    ensures Step(cfg, st, e).value.intents == st.intents && Step(cfg, st, e).value.constraints == st.constraints
  {
    hide Adjusted;
  }

  ghost predicate OwnsAt(cfg: Config, events: seq<Event>, n: nat, item: Item, m: Manager)
    requires n <= |events|
  {
    OwnerOf(After(cfg, events, n), item) == Some(m)
  }

  /** Its owner deletes it with this call. */
  ghost predicate OwnerDeletes(cfg: Config, events: seq<Event>, n: nat, item: Item, m: Manager)
    requires n < |events|
  {
    Commits(cfg, events, n) && Deletes(events[n].call, item) && events[n].call.manager == m
  }

  lemma OwnerGoesOn(cfg: Config, events: seq<Event>, n: nat, item: Item, m: Manager)
    requires n < |events| && OwnsAt(cfg, events, n, item, m) && !OwnerDeletes(cfg, events, n, item, m)
    ensures OwnsAt(cfg, events, n + 1, item, m)
  {
    hide Step;
    var st, e := After(cfg, events, n), events[n];
    if Step(cfg, st, e).Ok? {
      StepIsTheOwners(cfg, st, e, item);
    }
  }

  /** An intent or constraint stays stored, and stays its owner's, until the owner deletes it: nobody else can remove
      it or take it over. */
  lemma {:induction false} OwnerIsKept(cfg: Config, events: seq<Event>, i: nat, j: nat, item: Item, m: Manager)
    requires i <= j <= |events| && OwnsAt(cfg, events, i, item, m)
    requires forall k :: i <= k < j ==> !OwnerDeletes(cfg, events, k, item, m)
    ensures OwnsAt(cfg, events, j, item, m)
  {
    hide OwnsAt, OwnerDeletes;
    if i < j {
      OwnerIsKept(cfg, events, i, j - 1, item, m);
      OwnerGoesOn(cfg, events, j - 1, item, m);
    }
  }

  // ----- subscriptions too -----

  /** A call that commits leaves the subscriptions of other clients as they are, but for the index, and what it makes
      is the caller's. */
  lemma OthersKeepSubscriptions(cfg: Config, st: Store, e: Event, s: Id)
    requires Sound(st) && e.env.newId !in st.subscriptions && Step(cfg, st, e).Ok?
    ensures var after := Step(cfg, st, e).value;
            && (s in st.subscriptions && st.subscriptions[s].manager != e.call.manager ==>
                  s in after.subscriptions && SameRow(st.subscriptions[s], after.subscriptions[s]))
            && (s in after.subscriptions && s !in st.subscriptions ==>
                  after.subscriptions[s].manager == e.call.manager)
            && (s in after.subscriptions && s in st.subscriptions ==>
                  after.subscriptions[s].manager == st.subscriptions[s].manager)
  {
    hide PutIntent, DeleteIntent, PutSubscription, DeleteSubscription, PutConstraint, DeleteConstraint;
    hide FitIntent, FitConstraint, FitSubscription, TimesFor, SomeMissing, ListsMissing;
    match e.call
    case PutIntentCall(id, manager, ovn, p) =>
      var u := FitVolume(st, cfg, id, manager, ovn, p, e.env);
      PutIntentAnswer(st, cfg, id, manager, ovn, p, e.env, u);
      PutIntentWrites(st, cfg, id, manager, ovn, p, e.env, u);
    case DeleteIntentCall(id, manager) =>
      DeleteIntentAnswer(st, id, manager);
      DeleteIntentWrites(st, id, manager);
    case PutSubscriptionCall(id, manager, version, p) =>
      var cells, start, end := FitCells(st, cfg, id, manager, version, p, e.env);
      PutSubscriptionAnswer(st, cfg, id, manager, version, p, e.env, cells, start, end);
      PutSubscriptionWrites(st, cfg, id, manager, version, p, e.env, cells, start, end);
    case DeleteSubscriptionCall(id, manager) => DeleteSubscriptionAnswer(st, id, manager);
    case PutConstraintCall(id, manager, ovn, p) =>
      var u := FitConstraintVolume(st, cfg, id, manager, ovn, p, e.env);
      PutConstraintWrites(st, cfg, id, manager, ovn, p, e.env, u);
    case DeleteConstraintCall(id, manager) => DeleteConstraintAnswer(st, id, manager);
  }

  lemma FitCells(st: Store, cfg: Config, id: Id, manager: Manager, version: Ovn, p: SubscriptionParams, env: Env)
    returns (cells: set<Cell>, start: Time, end: Time)
    requires PutSubscription(st, cfg, id, manager, version, p, env).Ok?
    ensures FitSubscription(cfg, p, cells) && TimesFor(st, id, p, env.now, start, end)
  {
    hide PutSubscription;
    UnfitSubscription(st, cfg, id, manager, version, p, env);
    cells :| FitSubscription(cfg, p, cells);
    MissedStart(st, cfg, id, manager, version, p, env, cells);
    start, end :| TimesFor(st, id, p, env.now, start, end);
  }

  // ----- the versions of subscriptions -----

  function VersionsOf(st: Store): Versions.Table<Id> {
    map s | s in st.subscriptions :: st.subscriptions[s].version
  }

  /** What an event does to the versions of subscriptions. */
  function ChangeOf(cfg: Config, st: Store, e: Event): Versions.Change<Id> {
    var r := Step(cfg, st, e);
    if r.Err? then Versions.Keep else
    match e.call
    case PutSubscriptionCall(id, _, version, _) => Versions.Put(id, version, e.env.subscriptionOvn)
    case DeleteSubscriptionCall(id, _) => Versions.Remove(id)
    case PutIntentCall(_, _, _, p) =>
      var s := TargetId(p, e.env);
      if s in r.value.subscriptions
         && (s !in st.subscriptions || st.subscriptions[s].version != r.value.subscriptions[s].version)
      then Versions.Rewrite(s, e.env.subscriptionOvn) else Versions.Keep
    case DeleteIntentCall(id, _) =>
      if id in st.intents && st.intents[id].subscriptionId in st.subscriptions
         && st.intents[id].subscriptionId !in r.value.subscriptions
      then Versions.Remove(st.intents[id].subscriptionId) else Versions.Keep
    case _ => Versions.Keep
  }

  function ChangesOf(cfg: Config, events: seq<Event>): nat -> Versions.Change<Id> {
    (n: nat) => if n < |events| then ChangeOf(cfg, After(cfg, events, n), events[n]) else Versions.Keep
  }

  lemma SameVersions(st: Store, after: Store)
    requires after.subscriptions.Keys == st.subscriptions.Keys
    requires forall s :: s in st.subscriptions ==> SameRow(st.subscriptions[s], after.subscriptions[s])
    ensures VersionsOf(after) == VersionsOf(st)
  {
  }

  lemma OneVersion(st: Store, after: Store, s: Id)
    requires after.subscriptions.Keys == st.subscriptions.Keys + {s}
    requires forall x :: x in st.subscriptions && x != s ==> SameRow(st.subscriptions[x], after.subscriptions[x])
    ensures VersionsOf(after) == VersionsOf(st)[s := after.subscriptions[s].version]
    ensures s in st.subscriptions && after.subscriptions[s].version == st.subscriptions[s].version ==>
              VersionsOf(after) == VersionsOf(st)
  {
  }

  lemma VersionGone(st: Store, after: Store, s: Id)
    requires after.subscriptions.Keys == st.subscriptions.Keys - {s}
    requires forall x :: x in after.subscriptions ==> SameRow(st.subscriptions[x], after.subscriptions[x])
    ensures VersionsOf(after) == VersionsOf(st) - {s}
  {
  }

  /** The version of a subscription that an intent is attached to is the old one, or that of the call. */
  lemma AttachedVersion(
    subs: map<Id, ScdSubscription>, manager: Manager, p: IntentParams, u: Box, env: Env, after: ScdSubscription)
    requires u.start.Some? && u.end.Some? && (p.subscriptionId != "" ==> p.subscriptionId in subs)
    requires AttachedRow(subs, manager, p, u, env, after)
    ensures after.version == env.subscriptionOvn
            || (p.subscriptionId != "" && after.version == subs[p.subscriptionId].version)
  {
  }

  lemma IntentChangesVersions(cfg: Config, st: Store, e: Event)
    requires e.call.PutIntentCall? && Step(cfg, st, e).Ok?
    ensures VersionsOf(Step(cfg, st, e).value) == Versions.Applied(VersionsOf(st), ChangeOf(cfg, st, e))
  {
    hide PutIntent, FitIntent, VersionsOf, SameRow, AttachedRow;
    var p := e.call.intent;
    var u := FitVolume(st, cfg, e.call.id, e.call.manager, e.call.ovn, p, e.env);
    PutIntentWrites(st, cfg, e.call.id, e.call.manager, e.call.ovn, p, e.env, u);
    var after, s := Step(cfg, st, e).value, TargetId(p, e.env);
    FitHasTimes(cfg, e.call.ovn, p, e.env.now, u);
    AttachedVersion(st.subscriptions, e.call.manager, p, u, e.env, after.subscriptions[s]);
    OneVersion(st, after, s);
  }

  lemma FitHasTimes(cfg: Config, ovn: Ovn, p: IntentParams, now: Time, u: Box)
    requires FitIntent(cfg, ovn, p, now, u)
    ensures u.start.Some? && u.end.Some?
  {
  }

  lemma DeletionChangesVersions(cfg: Config, st: Store, e: Event)
    requires e.call.DeleteIntentCall? && Step(cfg, st, e).Ok?
    ensures VersionsOf(Step(cfg, st, e).value) == Versions.Applied(VersionsOf(st), ChangeOf(cfg, st, e))
  {
    hide DeleteIntent, VersionsOf, SameRow;
    DeleteIntentAnswer(st, e.call.id, e.call.manager);
    DeleteIntentWrites(st, e.call.id, e.call.manager);
    var after, s := Step(cfg, st, e).value, st.intents[e.call.id].subscriptionId;
    if s in after.subscriptions {
      assert after.subscriptions.Keys == st.subscriptions.Keys;
      SameVersions(st, after);
    } else {
      assert after.subscriptions.Keys == st.subscriptions.Keys - {s};
      VersionGone(st, after, s);
    }
  }

  lemma SubscriptionChangesVersions(cfg: Config, st: Store, e: Event)
    requires (e.call.PutSubscriptionCall? || e.call.DeleteSubscriptionCall?) && Step(cfg, st, e).Ok?
    ensures VersionsOf(Step(cfg, st, e).value) == Versions.Applied(VersionsOf(st), ChangeOf(cfg, st, e))
    ensures Versions.Right(VersionsOf(st), ChangeOf(cfg, st, e))
  {
    hide PutSubscription, DeleteSubscription, FitSubscription, TimesFor, AllCovered, TimesAccepted;
    match e.call
    case PutSubscriptionCall(id, manager, version, p) =>
      var cells, start, end := FitCells(st, cfg, id, manager, version, p, e.env);
      PutSubscriptionAnswer(st, cfg, id, manager, version, p, e.env, cells, start, end);
      PutSubscriptionWrites(st, cfg, id, manager, version, p, e.env, cells, start, end);
    case DeleteSubscriptionCall(id, manager) => DeleteSubscriptionAnswer(st, id, manager);
  }

  lemma ConstraintKeepsVersions(cfg: Config, st: Store, e: Event)
    requires (e.call.PutConstraintCall? || e.call.DeleteConstraintCall?) && Step(cfg, st, e).Ok?
    ensures VersionsOf(Step(cfg, st, e).value) == VersionsOf(st)
  {
    hide PutConstraint, DeleteConstraint, FitConstraint, SameRow, VersionsOf;
    match e.call
    case PutConstraintCall(id, manager, ovn, p) =>
      var u := FitConstraintVolume(st, cfg, id, manager, ovn, p, e.env);
      PutConstraintWrites(st, cfg, id, manager, ovn, p, e.env, u);
      SameVersions(st, Step(cfg, st, e).value);
    case DeleteConstraintCall(id, manager) =>
      DeleteConstraintAnswer(st, id, manager);
      SameVersions(st, Step(cfg, st, e).value);
  }

  /** A committed put of a subscription has presented exactly the stored version, or none when nothing was stored. */
  lemma StepIsRight(cfg: Config, st: Store, e: Event)
    ensures VersionsOf(Advance(cfg, st, e)) == Versions.Applied(VersionsOf(st), ChangeOf(cfg, st, e))
    ensures Versions.Right(VersionsOf(st), ChangeOf(cfg, st, e))
    ensures Step(cfg, st, e).Ok? && e.call.PutSubscriptionCall? ==>
              if e.call.id in st.subscriptions then e.call.version == st.subscriptions[e.call.id].version
              else e.call.version == ""
  {
    hide Step, VersionsOf;
    if Step(cfg, st, e).Ok? {
      match e.call
      case PutIntentCall(_, _, _, _) => IntentChangesVersions(cfg, st, e);
      case DeleteIntentCall(_, _) => DeletionChangesVersions(cfg, st, e);
      case PutSubscriptionCall(id, _, _, _) =>
        SubscriptionChangesVersions(cfg, st, e);
        VersionAt(st, id);
      case DeleteSubscriptionCall(_, _) => SubscriptionChangesVersions(cfg, st, e);
      case PutConstraintCall(_, _, _, _) => ConstraintKeepsVersions(cfg, st, e);
      case DeleteConstraintCall(_, _) => ConstraintKeepsVersions(cfg, st, e);
    }
  }

  lemma VersionAt(st: Store, s: Id)
    ensures s in VersionsOf(st) <==> s in st.subscriptions
    ensures s in st.subscriptions ==> VersionsOf(st)[s] == st.subscriptions[s].version
  {
  }

  lemma {:induction false} VersionsOverRuns(cfg: Config, events: seq<Event>, n: nat)
    requires n <= |events|
    ensures Versions.After(ChangesOf(cfg, events), n) == VersionsOf(After(cfg, events, n))
  {
    hide Step, After, Advance, ChangeOf, ChangesOf, VersionsOf;
    hide Versions.After, Versions.Applied, Versions.Right;
    if n == 0 {
      NoVersions(cfg, events);
    } else {
      VersionsOverRuns(cfg, events, n - 1);
      VersionsTurn(cfg, events, n - 1);
      StepIsRight(cfg, After(cfg, events, n - 1), events[n - 1]);
      Versions.AtTurn(ChangesOf(cfg, events), n - 1);
    }
  }

  lemma NoVersions(cfg: Config, events: seq<Event>)
    ensures Versions.After(ChangesOf(cfg, events), 0) == VersionsOf(After(cfg, events, 0)) == map[]
  {
  }

  lemma VersionsTurn(cfg: Config, events: seq<Event>, n: nat)
    requires n < |events|
    ensures After(cfg, events, n + 1) == Advance(cfg, After(cfg, events, n), events[n])
    ensures ChangesOf(cfg, events)(n) == ChangeOf(cfg, After(cfg, events, n), events[n])
  {
    hide Advance, ChangeOf;
  }

  /** New versions of subscriptions are nonempty, and have not been given to any subscription before. */
  ghost predicate FreshVersions(cfg: Config, events: seq<Event>) {
    forall n :: 0 <= n < |events| ==>
      events[n].env.subscriptionOvn != ""
      && events[n].env.subscriptionOvn !in Versions.Issued(ChangesOf(cfg, events), n)
  }

  lemma ChangeAt(cfg: Config, events: seq<Event>, n: nat)
    ensures var c := ChangesOf(cfg, events)(n);
            && (n >= |events| ==> c == Versions.Keep)
            && (c.Put? || c.Rewrite? ==> n < |events| && c.version == events[n].env.subscriptionOvn)
  {
    hide Step, After;
  }

  lemma VersionsOfRun(cfg: Config, events: seq<Event>)
    ensures Versions.AllRight(ChangesOf(cfg, events))
    ensures FreshVersions(cfg, events) ==> Versions.Fresh(ChangesOf(cfg, events))
  {
    hide ChangesOf, After, Versions.Right, Versions.After, Versions.Issued;
    var changes := ChangesOf(cfg, events);
    forall n: nat ensures Versions.RightAt(changes, n) {
      ChangeAt(cfg, events, n);
      if n < |events| {
        VersionsOverRuns(cfg, events, n);
        VersionsTurn(cfg, events, n);
        StepIsRight(cfg, After(cfg, events, n), events[n]);
      } else {
        KeepIsRight(Versions.After(changes, n));
      }
    }
    forall n: nat ensures FreshVersions(cfg, events) ==> Versions.FreshAt(changes, n) {
      ChangeAt(cfg, events, n);
    }
  }

  lemma KeepIsRight(table: Versions.Table<Id>)
    ensures Versions.Right(table, Versions.Keep)
  {
  }

  lemma CommittedSubscription(cfg: Config, events: seq<Event>, n: nat)
    requires n < |events| && Commits(cfg, events, n) && events[n].call.PutSubscriptionCall?
    ensures ChangesOf(cfg, events)(n) ==
            Versions.Put(events[n].call.id, events[n].call.version, events[n].env.subscriptionOvn)
  {
    hide Step, After;
  }

  /** Of two puts on one subscription that present the same version, at most one commits, also when an intent that is
      attached rewrites the subscription in between. */
  lemma NoLostSubscriptions(cfg: Config, events: seq<Event>, i: nat, j: nat)
    requires FreshVersions(cfg, events) && i < j < |events|
    requires events[i].call.PutSubscriptionCall? && events[j].call.PutSubscriptionCall?
    requires events[i].call.id == events[j].call.id && events[i].call.version == events[j].call.version != ""
    ensures !(Commits(cfg, events, i) && Commits(cfg, events, j))
  {
    hide Commits, ChangesOf, FreshVersions, Versions.AllRight, Versions.Fresh;
    if Commits(cfg, events, i) && Commits(cfg, events, j) {
      VersionsOfRun(cfg, events);
      CommittedSubscription(cfg, events, i);
      CommittedSubscription(cfg, events, j);
      Versions.NoLostPuts(ChangesOf(cfg, events), i, j);
    }
  }

  /** The event gives this version to the subscription, as a put of it or by attaching an intent. */
  predicate GivesVersion(cfg: Config, events: seq<Event>, k: nat, s: Id, version: Ovn)
    requires k < |events|
  {
    && Commits(cfg, events, k) && events[k].env.subscriptionOvn == version
    && ((events[k].call.PutSubscriptionCall? && events[k].call.id == s)
        || (events[k].call.PutIntentCall? && TargetId(events[k].call.intent, events[k].env) == s))
  }

  lemma GivenAt(cfg: Config, events: seq<Event>, k: nat, s: Id, version: Ovn)
    requires k < |events| && Versions.Gives(ChangesOf(cfg, events)(k), s, version)
    ensures GivesVersion(cfg, events, k, s, version)
  {
    hide Step, After;
  }

  /** With no assumption on versions they commit both only when that version is given again in between, the first of
      the two puts included. */
  lemma LostSubscriptionReusesVersion(cfg: Config, events: seq<Event>, i: nat, j: nat)
    requires i < j < |events| && Commits(cfg, events, i) && Commits(cfg, events, j)
    requires events[i].call.PutSubscriptionCall? && events[j].call.PutSubscriptionCall?
    requires events[i].call.id == events[j].call.id && events[i].call.version == events[j].call.version != ""
    ensures exists k :: i <= k < j && GivesVersion(cfg, events, k, events[i].call.id, events[i].call.version)
  {
    hide Commits, ChangesOf, GivesVersion, Versions.Gives, Versions.AllRight;
    VersionsOfRun(cfg, events);
    CommittedSubscription(cfg, events, i);
    CommittedSubscription(cfg, events, j);
    var id, version := events[i].call.id, events[i].call.version;
    Versions.LostPutReusesVersion(ChangesOf(cfg, events), i, j);
    var k :| i <= k < j && Versions.Gives(ChangesOf(cfg, events)(k), id, version);
    GivenAt(cfg, events, k, id, version);
  }

  /** The subscription is deleted, by itself or with the last intent that names it. */
  predicate RemovesSubscription(cfg: Config, events: seq<Event>, k: nat, s: Id)
    requires k < |events|
  {
    && Commits(cfg, events, k) && s in After(cfg, events, k).subscriptions
    && s !in After(cfg, events, k + 1).subscriptions
  }

  lemma RemovedAt(cfg: Config, events: seq<Event>, k: nat, s: Id)
    requires k < |events| && ChangesOf(cfg, events)(k) == Versions.Remove(s)
    ensures RemovesSubscription(cfg, events, k, s)
  {
    hide Step;
    var st, e := After(cfg, events, k), events[k];
    if e.call.DeleteSubscriptionCall? {
      DeleteSubscriptionAnswer(st, e.call.id, e.call.manager);
      StepOfDeletion(cfg, st, e);
    }
  }

  lemma StepOfDeletion(cfg: Config, st: Store, e: Event)
    requires e.call.DeleteSubscriptionCall?
    ensures Step(cfg, st, e) == DeleteSubscription(st, e.call.id, e.call.manager)
  {
    hide DeleteSubscription;
  }

  /** A put that creates a subscription commits after another put on it only when it is removed in between. */
  lemma NoDoubleSubscription(cfg: Config, events: seq<Event>, i: nat, j: nat)
    requires i < j < |events| && Commits(cfg, events, i) && Commits(cfg, events, j)
    requires events[i].call.PutSubscriptionCall? && events[j].call.PutSubscriptionCall?
    requires events[i].call.id == events[j].call.id && events[j].call.version == ""
    ensures exists k :: i < k < j && RemovesSubscription(cfg, events, k, events[i].call.id)
  {
    hide Commits, ChangesOf, RemovesSubscription, Versions.AllRight;
    VersionsOfRun(cfg, events);
    CommittedSubscription(cfg, events, i);
    CommittedSubscription(cfg, events, j);
    Versions.NoDoubleCreation(ChangesOf(cfg, events), i, j);
    var k :| i < k < j && ChangesOf(cfg, events)(k) == Versions.Remove(events[i].call.id);
    RemovedAt(cfg, events, k, events[i].call.id);
  }
}
