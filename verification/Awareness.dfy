/** The protocol of version strings and keys that operational intents go through, at large and at vertiports alike:
    a put presents the current OVN of its entity, and a key with the OVNs of the others. `K` names the entities, `E` is
    what one occupies, and `overlap` tells whether an entity has to be known to one that is put. */
module Awareness {
  import opened Common

  datatype Entry<E> = Entry(ovn: Ovn, version: int, state: string, extent: E)

  type Entries<K(==), E> = map<K, Entry<E>>

  /** What one call does to the intents; `Keep` is a call that fails or that is about something else. */
  datatype Action<K, E> =
    | Put(id: K, presented: Ovn, key: seq<Ovn>, entry: Entry<E>)
    | Remove(id: K)
    | Keep

  function Applied<K, E>(entries: Entries<K, E>, a: Action<K, E>): Entries<K, E> {
    match a
    case Put(id, _, _, entry) => entries[id := entry]
    case Remove(id) => entries - {id}
    case Keep => entries
  }

  /** A put writes the next version. It has presented the current OVN, or none for a new intent, and, in a state that
      requires a key, the OVNs of all overlapping intents. */
  ghost predicate Careful<K(!new), E(!new)>(entries: Entries<K, E>, a: Action<K, E>, overlap: (E, E) -> bool) {
    match a
    case Put(id, presented, key, entry) =>
      && entry.version == ToInt32((if id in entries then entries[id].version else 0) + 1)
      && (if id in entries then entries[id].ovn == presented else presented == "")
      && (RequiresKey(entry.state) ==>
            forall o :: o in entries && overlap(entries[o].extent, entry.extent) ==> entries[o].ovn in key)
    case Remove(id) => id in entries
    case Keep => true
  }

  // ----- runs -----

  /** What happened to one intent: when it was last put, with which key, how often since it was created. */
  datatype History = History(written: nat, key: seq<Ovn>, puts: nat)

  /** The intents, the number of calls so far, the history of each intent, and all OVNs given out. */
  datatype World<K, E> = World(entries: Entries<K, E>, clock: nat, history: map<K, History>, issued: set<Ovn>)

  function Recorded<K, E>(w: World<K, E>, a: Action<K, E>): World<K, E> {
    var entries := Applied(w.entries, a);
    match a
    case Put(id, _, key, entry) =>
      var puts := if id in w.history then w.history[id].puts else 0;
      World(entries, w.clock + 1, w.history[id := History(w.clock, key, puts + 1)], w.issued + {entry.ovn})
    case Remove(id) => World(entries, w.clock + 1, w.history - {id}, w.issued)
    case Keep => w.(clock := w.clock + 1)
  }

  /** The world after the first `n` calls. */
  function After<K, E>(actions: nat -> Action<K, E>, n: nat): World<K, E> {
    if n == 0 then World(map[], 0, map[], {}) else Recorded(After(actions, n - 1), actions(n - 1))
  }

  ghost predicate AllCareful<K(!new), E(!new)>(actions: nat -> Action<K, E>, overlap: (E, E) -> bool) {
    forall n: nat :: CarefulAt(actions, overlap, n)
  }

  ghost predicate CarefulAt<K(!new), E(!new)>(actions: nat -> Action<K, E>, overlap: (E, E) -> bool, n: nat) {
    Careful(After(actions, n).entries, actions(n), overlap)
  }

  /** The OVNs given to intents are nonempty and new. */
  ghost predicate FreshOvns<K(!new), E(!new)>(actions: nat -> Action<K, E>) {
    forall n: nat :: FreshAt(actions, n)
  }

  ghost predicate FreshAt<K(!new), E(!new)>(actions: nat -> Action<K, E>, n: nat) {
    IssuesFresh(After(actions, n), actions(n))
  }

  predicate IssuesFresh<K, E>(w: World<K, E>, a: Action<K, E>) {
    a.Put? ==> a.entry.ovn != "" && a.entry.ovn !in w.issued
  }

  lemma AtTurn<K(!new), E(!new)>(actions: nat -> Action<K, E>, overlap: (E, E) -> bool, n: nat)
    ensures After(actions, n + 1) == Recorded(After(actions, n), actions(n))
    ensures After(actions, n + 1).entries == Applied(After(actions, n).entries, actions(n))
    ensures AllCareful(actions, overlap) ==> Careful(After(actions, n).entries, actions(n), overlap)
    ensures FreshOvns(actions) ==> IssuesFresh(After(actions, n), actions(n))
  {
    hide Careful, IssuesFresh;
    assert AllCareful(actions, overlap) ==> CarefulAt(actions, overlap, n);
    assert FreshOvns(actions) ==> FreshAt(actions, n);
  }

  // ----- mutual awareness -----

  /** The intent was put before now, and its version number counts its puts. */
  ghost predicate TrackedAt<K(!new), E(!new)>(w: World<K, E>, a: K)
    requires a in w.history && a in w.entries
  {
    && w.history[a].written < w.clock
    && w.history[a].puts >= 1 && w.entries[a].version == ToInt32(w.history[a].puts)
  }

  ghost predicate Tracked<K(!new), E(!new)>(w: World<K, E>) {
    && w.history.Keys == w.entries.Keys
    && (forall a :: a in w.history ==> TrackedAt(w, a))
    && (forall a, b :: a in w.history && b in w.history && a != b ==> w.history[a].written != w.history[b].written)
  }

  /** The client that wrote `b` after `a`, in a state that requires a key, presented the current OVN of `a`. */
  ghost predicate AwareOf<K(!new), E(!new)>(w: World<K, E>, overlap: (E, E) -> bool, a: K, b: K) {
    a in w.history && b in w.history && a in w.entries && b in w.entries
    && w.history[a].written < w.history[b].written
    && overlap(w.entries[a].extent, w.entries[b].extent) && RequiresKey(w.entries[b].state)
    ==> w.entries[a].ovn in w.history[b].key
  }

  ghost predicate Aware<K(!new), E(!new)>(w: World<K, E>, overlap: (E, E) -> bool) {
    Tracked(w) && forall a, b :: AwareOf(w, overlap, a, b)
  }

  lemma ActionKeepsTrackedAt<K(!new), E(!new)>(w: World<K, E>, action: Action<K, E>, overlap: (E, E) -> bool, a: K)
    requires Tracked(w) && Careful(w.entries, action, overlap)
    requires a in Recorded(w, action).history && a in Recorded(w, action).entries
    ensures TrackedAt(Recorded(w, action), a)
  {
    hide ToInt32;
    if a in w.history {
      assert TrackedAt(w, a);
      ToInt32Successor(w.history[a].puts);
    }
  }

  lemma ActionKeepsApart<K(!new), E(!new)>(w: World<K, E>, action: Action<K, E>, a: K, b: K)
    requires Tracked(w) && a in Recorded(w, action).history && b in Recorded(w, action).history && a != b
    ensures Recorded(w, action).history[a].written != Recorded(w, action).history[b].written
  {
    assert a in w.history ==> TrackedAt(w, a);
    assert b in w.history ==> TrackedAt(w, b);
  }

  lemma ActionKeepsTracked<K(!new), E(!new)>(w: World<K, E>, action: Action<K, E>, overlap: (E, E) -> bool)
    requires Tracked(w) && Careful(w.entries, action, overlap)
    ensures Tracked(Recorded(w, action))
  {
    hide Recorded, TrackedAt, Careful;
    RecordedKeys(w, action);
    var next := Recorded(w, action);
    forall a | a in next.history ensures TrackedAt(next, a) {
      ActionKeepsTrackedAt(w, action, overlap, a);
    }
    forall a, b | a in next.history && b in next.history && a != b
      ensures next.history[a].written != next.history[b].written
    {
      ActionKeepsApart(w, action, a, b);
    }
  }

  lemma RecordedKeys<K(!new), E(!new)>(w: World<K, E>, action: Action<K, E>)
    requires w.history.Keys == w.entries.Keys
    ensures Recorded(w, action).history.Keys == Recorded(w, action).entries.Keys
  {
    if action.Put? {
      assert Recorded(w, action).entries.Keys == w.entries.Keys + {action.id};
    }
  }

  lemma ActionKeepsPairAware<K(!new), E(!new)>(
    w: World<K, E>, action: Action<K, E>, overlap: (E, E) -> bool, a: K, b: K)
    requires Aware(w, overlap) && Careful(w.entries, action, overlap)
    ensures AwareOf(Recorded(w, action), overlap, a, b)
  {
    hide ToInt32;
    assert AwareOf(w, overlap, a, b);
  }

  lemma ActionKeepsAware<K(!new), E(!new)>(w: World<K, E>, action: Action<K, E>, overlap: (E, E) -> bool)
    requires Aware(w, overlap) && Careful(w.entries, action, overlap)
    ensures Aware(Recorded(w, action), overlap)
  {
    hide Careful, AwareOf, Tracked, Recorded;
    var next := Recorded(w, action);
    ActionKeepsTracked(w, action, overlap);
    forall a, b ensures AwareOf(next, overlap, a, b) {
      ActionKeepsPairAware(w, action, overlap, a, b);
    }
  }

  /** In every reachable world, of any two overlapping intents the one put later was put by a client that knew the
      current version of the other one, unless its state needs no key; and each stored version number counts the
      puts since the intent was created. */
  lemma {:induction false} MutualAwareness<K(!new), E(!new)>(
    actions: nat -> Action<K, E>, overlap: (E, E) -> bool, n: nat)
    requires AllCareful(actions, overlap)
    ensures Aware(After(actions, n), overlap)
  {
    hide After, AllCareful, Careful, Aware, Recorded;
    if n == 0 {
      NothingToKnow(actions, overlap);
    } else {
      MutualAwareness(actions, overlap, n - 1);
      AtTurn(actions, overlap, n - 1);
      ActionKeepsAware(After(actions, n - 1), actions(n - 1), overlap);
    }
  }

  lemma NothingToKnow<K(!new), E(!new)>(actions: nat -> Action<K, E>, overlap: (E, E) -> bool)
    ensures Aware(After(actions, 0), overlap)
  {
  }

  // ----- no lost puts -----

  ghost predicate OvnsIssued<K(!new), E(!new)>(w: World<K, E>) {
    forall i :: i in w.entries ==> w.entries[i].ovn in w.issued && w.entries[i].ovn != ""
  }

  lemma {:induction false} OvnsAreIssued<K(!new), E(!new)>(
    actions: nat -> Action<K, E>, overlap: (E, E) -> bool, n: nat)
    requires FreshOvns(actions)
    ensures OvnsIssued(After(actions, n))
  {
    hide FreshOvns, AllCareful;
    if n > 0 {
      OvnsAreIssued(actions, overlap, n - 1);
      AtTurn(actions, overlap, n - 1);
    }
  }

  /** It was given out, and is not the current OVN of this intent. */
  ghost predicate Spent<K(!new), E(!new)>(w: World<K, E>, id: K, ovn: Ovn) {
    ovn in w.issued && (id in w.entries ==> w.entries[id].ovn != ovn)
  }

  lemma ActionSpends<K(!new), E(!new)>(w: World<K, E>, a: Action<K, E>, overlap: (E, E) -> bool, id: K, ovn: Ovn)
    requires Careful(w.entries, a, overlap) && IssuesFresh(w, a)
    ensures Spent(w, id, ovn) ==> Spent(Recorded(w, a), id, ovn)
    ensures OvnsIssued(w) && ovn != "" && a.Put? && a.id == id && a.presented == ovn ==> Spent(Recorded(w, a), id, ovn)
    ensures Spent(w, id, ovn) && ovn != "" ==> !(a.Put? && a.id == id && a.presented == ovn)
  {
  }

  /** An OVN that has been replaced never becomes current again. */
  lemma {:induction false} SpentOvn<K(!new), E(!new)>(
    actions: nat -> Action<K, E>, overlap: (E, E) -> bool, i: nat, n: nat)
    requires AllCareful(actions, overlap) && FreshOvns(actions) && i < n
    requires actions(i).Put? && actions(i).presented != ""
    ensures Spent(After(actions, n), actions(i).id, actions(i).presented)
  {
    hide After, AllCareful, FreshOvns, Careful, IssuesFresh, Spent, Recorded, OvnsIssued;
    AtTurn(actions, overlap, n - 1);
    if n == i + 1 {
      OvnsAreIssued(actions, overlap, i);
    } else {
      SpentOvn(actions, overlap, i, n - 1);
    }
    ActionSpends(After(actions, n - 1), actions(n - 1), overlap, actions(i).id, actions(i).presented);
  }

  /** A put on the intent gives out this OVN. */
  predicate Issues<K(==), E>(a: Action<K, E>, id: K, ovn: Ovn) {
    a.Put? && a.id == id && a.entry.ovn == ovn
  }

  lemma CurrentAfter<K(!new), E(!new)>(w: World<K, E>, a: Action<K, E>, id: K)
    requires id in Recorded(w, a).entries
    ensures Issues(a, id, Recorded(w, a).entries[id].ovn)
            || (id in w.entries && w.entries[id] == Recorded(w, a).entries[id])
  {
  }

  /** The current OVN of an intent was given out by one of the puts on it, not before the put at `i`. */
  lemma {:induction false} CurrentWasIssued<K(!new), E(!new)>(
    actions: nat -> Action<K, E>, overlap: (E, E) -> bool, i: nat, n: nat)
    requires i < n && actions(i).Put? && actions(i).id in After(actions, n).entries
    ensures exists k :: i <= k < n && Issues(actions(k), actions(i).id, After(actions, n).entries[actions(i).id].ovn)
  {
    hide After, AllCareful, FreshOvns, Recorded;
    var id, m := actions(i).id, n - 1;
    AtTurn(actions, overlap, m);
    CurrentAfter(After(actions, m), actions(m), id);
    if i == m {
      PutIssues(After(actions, m), actions(m));
    } else if !Issues(actions(m), id, After(actions, n).entries[id].ovn) {
      CurrentWasIssued(actions, overlap, i, m);
    }
  }

  lemma PutIssues<K(!new), E(!new)>(w: World<K, E>, a: Action<K, E>)
    requires a.Put? && a.id in Recorded(w, a).entries
    ensures Issues(a, a.id, Recorded(w, a).entries[a.id].ovn)
  {
  }

  /** Without any freshness: when two puts on one intent present the same OVN and both take effect, a put on it in
      between, the first of the two included, gave out that OVN again. */
  lemma LostPutReusesOvn<K(!new), E(!new)>(actions: nat -> Action<K, E>, overlap: (E, E) -> bool, i: nat, j: nat)
    requires AllCareful(actions, overlap) && i < j && actions(i).Put? && actions(j).Put?
    requires actions(j).id == actions(i).id && actions(j).presented == actions(i).presented != ""
    ensures exists k :: i <= k < j && Issues(actions(k), actions(i).id, actions(i).presented)
  {
    hide After, AllCareful, FreshOvns, Recorded;
    AtTurn(actions, overlap, j);
    CurrentWasIssued(actions, overlap, i, j);
  }

  /** Of two puts on one intent that present the same OVN, at most one takes effect. */
  lemma NoLostPuts<K(!new), E(!new)>(actions: nat -> Action<K, E>, overlap: (E, E) -> bool, i: nat, j: nat)
    requires AllCareful(actions, overlap) && FreshOvns(actions) && i < j
    requires actions(i).Put? && actions(i).presented != ""
    ensures !(actions(j).Put? && actions(j).id == actions(i).id && actions(j).presented == actions(i).presented)
  {
    hide After, AllCareful, FreshOvns, Careful, IssuesFresh, Spent, Recorded, OvnsIssued;
    SpentOvn(actions, overlap, i, j);
    AtTurn(actions, overlap, j);
    ActionSpends(After(actions, j), actions(j), overlap, actions(i).id, actions(i).presented);
  }

  lemma {:induction false} StaysStored<K(!new), E(!new)>(
    actions: nat -> Action<K, E>, overlap: (E, E) -> bool, i: nat, n: nat)
    requires i < n && actions(i).Put? && forall k :: i < k < n ==> actions(k) != Remove(actions(i).id)
    ensures actions(i).id in After(actions, n).entries
  {
    hide After, AllCareful, FreshOvns;
    AtTurn(actions, overlap, n - 1);
    if n > i + 1 {
      StaysStored(actions, overlap, i, n - 1);
    }
  }

  lemma CreatesNew<K(!new), E(!new)>(w: World<K, E>, a: Action<K, E>, overlap: (E, E) -> bool)
    requires Careful(w.entries, a, overlap) && OvnsIssued(w) && a.Put? && a.presented == ""
    ensures a.id !in w.entries
  {
  }

  /** A put that creates an intent takes effect after another put on it only when the intent is removed in between. */
  lemma NoDoubleCreation<K(!new), E(!new)>(actions: nat -> Action<K, E>, overlap: (E, E) -> bool, i: nat, j: nat)
    requires AllCareful(actions, overlap) && FreshOvns(actions) && i < j
    requires actions(i).Put? && actions(j).Put? && actions(i).id == actions(j).id && actions(j).presented == ""
    ensures exists k :: i < k < j && actions(k) == Remove(actions(i).id)
  {
    hide After, AllCareful, FreshOvns, Careful, IssuesFresh, OvnsIssued;
    OvnsAreIssued(actions, overlap, j);
    AtTurn(actions, overlap, j);
    CreatesNew(After(actions, j), actions(j), overlap);
    if forall k :: i < k < j ==> actions(k) != Remove(actions(i).id) {
      StaysStored(actions, overlap, i, j);
    }
  }
}
