/** Version strings of entities that are replaced only by who presents the current one, but that may also be rewritten
    in passing. Subscriptions are such: a put presents a version, and attaching an intent gives a new one to an implicit
    subscription. */
module Versions {
  import opened Common

  type Table<K(==)> = map<K, Ovn>

  /** `Put` presents a version, the empty one for a new entity; `Rewrite` presents none; `Keep` touches no version. */
  datatype Change<K> =
    | Put(id: K, presented: Ovn, version: Ovn)
    | Rewrite(id: K, version: Ovn)
    | Remove(id: K)
    | Keep

  predicate Gives<K(==)>(c: Change<K>, id: K, version: Ovn) {
    (c.Put? || c.Rewrite?) && c.id == id && c.version == version
  }

  function Applied<K>(table: Table<K>, c: Change<K>): Table<K> {
    match c
    case Put(id, _, version) => table[id := version]
    case Rewrite(id, version) => table[id := version]
    case Remove(id) => table - {id}
    case Keep => table
  }

  /** A put presents exactly the current version of what is there, and none exactly for what is not. */
  predicate Right<K>(table: Table<K>, c: Change<K>) {
    c.Put? ==> if c.id in table then c.presented == table[c.id] && c.presented != "" else c.presented == ""
  }

  /** The versions after the first `n` changes. */
  function After<K>(changes: nat -> Change<K>, n: nat): Table<K> {
    if n == 0 then map[] else Applied(After(changes, n - 1), changes(n - 1))
  }

  function Issued<K>(changes: nat -> Change<K>, n: nat): set<Ovn> {
    if n == 0 then {} else
    Issued(changes, n - 1) +
    (if changes(n - 1).Put? || changes(n - 1).Rewrite? then {changes(n - 1).version} else {})
  }

  ghost predicate RightAt<K(!new)>(changes: nat -> Change<K>, n: nat) {
    Right(After(changes, n), changes(n))
  }

  ghost predicate AllRight<K(!new)>(changes: nat -> Change<K>) {
    forall n: nat :: RightAt(changes, n)
  }

  ghost predicate FreshAt<K(!new)>(changes: nat -> Change<K>, n: nat) {
    var c := changes(n);
    c.Put? || c.Rewrite? ==> c.version != "" && c.version !in Issued(changes, n)
  }

  /** Versions given are nonempty and new. */
  ghost predicate Fresh<K(!new)>(changes: nat -> Change<K>) {
    forall n: nat :: FreshAt(changes, n)
  }

  lemma AtTurn<K(!new)>(changes: nat -> Change<K>, n: nat)
    ensures After(changes, n + 1) == Applied(After(changes, n), changes(n))
    ensures Issued(changes, n + 1) ==
            Issued(changes, n) + (if changes(n).Put? || changes(n).Rewrite? then {changes(n).version} else {})
    ensures AllRight(changes) ==> Right(After(changes, n), changes(n))
  {
    assert AllRight(changes) ==> RightAt(changes, n);
  }

  lemma CurrentAfter<K(!new)>(table: Table<K>, c: Change<K>, id: K)
    requires id in Applied(table, c)
    ensures Gives(c, id, Applied(table, c)[id]) || (id in table && table[id] == Applied(table, c)[id])
  {
  }

  /** The current version of what was written at `i` was given then or later. */
  lemma {:induction false} CurrentWasGiven<K(!new)>(changes: nat -> Change<K>, i: nat, n: nat)
    requires i < n && changes(i).Put? && changes(i).id in After(changes, n)
    ensures exists k :: i <= k < n && Gives(changes(k), changes(i).id, After(changes, n)[changes(i).id])
  {
    hide After, Issued, Applied, Gives, AllRight;
    var id, m := changes(i).id, n - 1;
    AtTurn(changes, m);
    if i == m {
      PutGives(After(changes, m), changes(m));
    } else {
      CurrentAfter(After(changes, m), changes(m), id);
      if !Gives(changes(m), id, After(changes, n)[id]) {
        CurrentWasGiven(changes, i, m);
      }
    }
  }

  lemma PutGives<K(!new)>(table: Table<K>, c: Change<K>)
    requires c.Put? && c.id in Applied(table, c)
    ensures Gives(c, c.id, Applied(table, c)[c.id])
  {
  }

  /** With no assumption on versions: when two puts on one entity present the same version and both take effect, this
      version is given to it again in between, the first of the two included. */
  lemma LostPutReusesVersion<K(!new)>(changes: nat -> Change<K>, i: nat, j: nat)
    requires AllRight(changes) && i < j && changes(i).Put? && changes(j).Put?
    requires changes(j).id == changes(i).id && changes(j).presented == changes(i).presented != ""
    ensures exists k :: i <= k < j && Gives(changes(k), changes(i).id, changes(i).presented)
  {
    hide After, Issued, AllRight;
    AtTurn(changes, j);
    CurrentWasGiven(changes, i, j);
  }

  lemma {:induction false} CurrentWasIssued<K(!new)>(changes: nat -> Change<K>, n: nat, id: K)
    requires id in After(changes, n)
    ensures After(changes, n)[id] in Issued(changes, n)
  {
    hide After, Issued, AllRight;
    if n == 0 {
      Nothing(changes);
    } else {
      AtTurn(changes, n - 1);
      CurrentAfter(After(changes, n - 1), changes(n - 1), id);
      if id in After(changes, n - 1) {
        CurrentWasIssued(changes, n - 1, id);
      }
    }
  }

  lemma Nothing<K(!new)>(changes: nat -> Change<K>)
    ensures After(changes, 0) == map[] && Issued(changes, 0) == {}
  {
  }

  lemma {:induction false} IssuedGrows<K(!new)>(changes: nat -> Change<K>, i: nat, n: nat)
    requires i <= n
    ensures Issued(changes, i) <= Issued(changes, n)
  {
    hide Issued, After, AllRight;
    if i < n {
      IssuedGrows(changes, i, n - 1);
      AtTurn(changes, n - 1);
    }
  }

  /** Of two puts on one entity that present the same version, at most one takes effect. */
  lemma NoLostPuts<K(!new)>(changes: nat -> Change<K>, i: nat, j: nat)
    requires AllRight(changes) && Fresh(changes) && i < j && changes(i).Put? && changes(i).presented != ""
    ensures !(changes(j).Put? && changes(j).id == changes(i).id && changes(j).presented == changes(i).presented)
  {
    hide After, Issued, AllRight, Fresh;
    if changes(j).Put? && changes(j).id == changes(i).id && changes(j).presented == changes(i).presented {
      LostPutReusesVersion(changes, i, j);
      var k :| i <= k < j && Gives(changes(k), changes(i).id, changes(i).presented);
      AtTurn(changes, i);
      CurrentWasIssued(changes, i, changes(i).id);
      IssuedGrows(changes, i, k);
      AtFresh(changes, k);
    }
  }

  lemma AtFresh<K(!new)>(changes: nat -> Change<K>, n: nat)
    requires Fresh(changes)
    ensures forall id, version :: Gives(changes(n), id, version) ==> version !in Issued(changes, n)
  {
    assert FreshAt(changes, n);
  }

  lemma {:induction false} StaysThere<K(!new)>(changes: nat -> Change<K>, i: nat, n: nat)
    requires i < n && changes(i).Put? && forall k :: i < k < n ==> changes(k) != Remove(changes(i).id)
    ensures changes(i).id in After(changes, n)
  {
    hide After, Issued, AllRight;
    AtTurn(changes, n - 1);
    if n > i + 1 {
      StaysThere(changes, i, n - 1);
    }
  }

  /** A put that creates an entity takes effect after another put on it only when that is removed in between. */
  lemma NoDoubleCreation<K(!new)>(changes: nat -> Change<K>, i: nat, j: nat)
    requires AllRight(changes) && i < j && changes(i).Put? && changes(j).Put?
    requires changes(i).id == changes(j).id && changes(j).presented == ""
    ensures exists k :: i < k < j && changes(k) == Remove(changes(i).id)
  {
    hide After, Issued, AllRight;
    AtTurn(changes, j);
    if forall k :: i < k < j ==> changes(k) != Remove(changes(i).id) {
      StaysThere(changes, i, j);
    }
  }
}
