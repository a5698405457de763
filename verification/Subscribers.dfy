/** Subscriptions, their notification indices, and the lists of subscribers sent to clients. The SCD and the VRP
    service hold the same text of this code; they differ in the area that a subscription covers. */
module Subscribers {
  import opened Common
  import opened SubscriptionTimes

  datatype Subscription<A> = Subscription(
    version: Ovn, index: int, manager: Manager, range: Range, url: string,
    notifyForIntents: bool, notifyForConstraints: bool, implicit: bool, area: A)

  function Incremented<A>(subs: map<Id, Subscription<A>>, ids: set<Id>): map<Id, Subscription<A>> {
    map id | id in subs :: if id in ids then subs[id].(index := subs[id].index + 1) else subs[id]
  }

  ghost predicate Distinct<T>(list: seq<T>) {
    forall i, j :: 0 <= i < j < |list| ==> list[i] != list[j]
  }

  /** `list` holds the elements of `s`, each once, in some order. */
  ghost predicate Enumerates<T(!new)>(list: seq<T>, s: set<T>) {
    && (forall x :: x in list <==> x in s)
    && Distinct(list)
  }

  // ----- copies of the subscriptions to notify -----

  datatype Row<A> = Row(id: Id, sub: Subscription<A>)

  /** The rows are exactly these subscriptions, each once. */
  ghost predicate ListsRows<A(!new)>(rows: seq<Row<A>>, subs: map<Id, Subscription<A>>) {
    && (forall row :: row in rows <==> row.id in subs && row.sub == subs[row.id])
    && Distinct(rows)
  }

  predicate Wants<A>(s: Subscription<A>, forIntents: bool) {
    if forIntents then s.notifyForIntents else s.notifyForConstraints
  }

  /** The subscriptions of one service, in the area type `A` of that service. */
  class Table<A> {
    var rows: map<Id, Subscription<A>>

    constructor ()
      ensures rows == map[]
    {
      rows := map[];
    }

    method IncrementNotificationIndices(ids: seq<Id>) returns (indices: seq<int>)
      requires forall id :: id in ids ==> id in rows
      requires Distinct(ids)
      modifies this
      ensures rows.Keys == old(rows.Keys)
      ensures forall s :: Enumerates(ids, s) ==> rows == Incremented(old(rows), s)
      ensures |indices| == |ids| && forall i :: 0 <= i < |ids| ==> indices[i] == rows[ids[i]].index
    {
      indices := [];
      for i := 0 to |ids|
        invariant rows == Incremented(old(rows), set id | id in ids[..i])
        invariant |indices| == i && forall k :: 0 <= k < i ==> indices[k] == rows[ids[k]].index
      {
        var sub := rows[ids[i]];
        assert ids[..i + 1] == ids[..i] + [ids[i]];
        rows := rows[ids[i] := sub.(index := sub.index + 1)];
        indices := indices + [sub.index + 1];
      }
      assert ids[..|ids|] == ids;
      forall s | Enumerates(ids, s) ensures rows == Incremented(old(rows), s) {
        assert s == set id | id in ids;
      }
    }
  }

  /** Of the subscriptions found, those that want this kind of notification. */
  function Wanting<A(!new)>(subs: map<Id, Subscription<A>>, found: set<Id>, forIntents: bool): set<Id> {
    set id | id in found && id in subs && Wants(subs[id], forIntents)
  }

  method InterestedSubscriptions<A(!new)>(t: Table<A>, found: seq<Id>, forIntents: bool, ghost all: set<Id>)
    returns (rows: seq<Row<A>>)
    requires Enumerates(found, all) && all <= t.rows.Keys
    ensures ListsRows(rows, map id | id in Wanting(t.rows, all, forIntents) :: t.rows[id])
  {
    rows := [];
    for i := 0 to |found|
      invariant forall row :: row in rows <==>
                  row.id in found[..i] && row.id in t.rows && row.sub == t.rows[row.id] && Wants(row.sub, forIntents)
      invariant Distinct(rows)
    {
      assert found[i] in found;
      var s := t.rows[found[i]];
      assert found[..i + 1] == found[..i] + [found[i]];
      if Wants(s, forIntents) {
        rows := rows + [Row(found[i], s)];
      }
    }
    assert found[..|found|] == found;
  }

  method WithIndices<A(!new)>(rows: seq<Row<A>>, newIndices: seq<int>) returns (updated: seq<Row<A>>)
    requires |newIndices| == |rows|
    ensures |updated| == |rows|
    ensures forall k :: 0 <= k < |rows| ==> updated[k] == Row(rows[k].id, rows[k].sub.(index := newIndices[k]))
  {
    updated := rows;
    for i := 0 to |newIndices|
      invariant |updated| == |rows|
      invariant forall k :: 0 <= k < i ==> updated[k] == Row(rows[k].id, rows[k].sub.(index := newIndices[k]))
      invariant forall k :: i <= k < |rows| ==> updated[k] == rows[k]
    {
      updated := updated[i := Row(updated[i].id, updated[i].sub.(index := newIndices[i]))];
    }
  }

  /** Raises the index of each listed subscription in the table and in the list. */
  method IncrementNotificationIndices<A(!new)>(t: Table<A>, rows: seq<Row<A>>, ghost subs: map<Id, Subscription<A>>)
    returns (updated: seq<Row<A>>)
    requires ListsRows(rows, subs) && subs.Keys <= t.rows.Keys
    requires forall id :: id in subs ==> subs[id] == t.rows[id]
    modifies t
    ensures t.rows == Incremented(old(t.rows), subs.Keys)
    ensures ListsRows(updated, map id | id in subs :: t.rows[id])
  {
    var ids := RowIds(rows);
    RowIdsOf(rows, subs);
    var newIndices := t.IncrementNotificationIndices(ids);
    updated := WithIndices(rows, newIndices);
    UpdatedRows(rows, updated, subs, map id | id in subs :: t.rows[id]);
  }

  /** Keeps the interested ones of the subscriptions found and raises their indices; the rows hold the new ones. */
  method NotifySubscriptions<A(!new)>(t: Table<A>, found: seq<Id>, forIntents: bool, ghost all: set<Id>)
    returns (rows: seq<Row<A>>)
    requires Enumerates(found, all) && all <= t.rows.Keys
    modifies t
    ensures t.rows == Incremented(old(t.rows), Wanting(old(t.rows), all, forIntents))
    ensures ListsRows(rows, map id | id in Wanting(old(t.rows), all, forIntents) :: t.rows[id])
  {
    ghost var ids := Wanting(t.rows, all, forIntents);
    ghost var subs := map id | id in ids :: t.rows[id];
    assert subs.Keys == ids;
    rows := InterestedSubscriptions(t, found, forIntents, all);
    rows := IncrementNotificationIndices(t, rows, subs);
    assert (map id | id in subs :: t.rows[id]) == map id | id in ids :: t.rows[id];
  }

  function RowIds<A(!new)>(rows: seq<Row<A>>): seq<Id> {
    seq(|rows|, i requires 0 <= i < |rows| => rows[i].id)
  }

  lemma RowIdsOf<A(!new)>(rows: seq<Row<A>>, subs: map<Id, Subscription<A>>)
    requires ListsRows(rows, subs)
    ensures Enumerates(RowIds(rows), subs.Keys)
  {
    forall id | id in subs ensures id in RowIds(rows) {
      var i :| 0 <= i < |rows| && rows[i] == Row(id, subs[id]);
      assert RowIds(rows)[i] == id;
    }
    forall i | 0 <= i < |rows| ensures RowIds(rows)[i] in subs && rows[i] == Row(rows[i].id, subs[rows[i].id]) {
      assert rows[i] in rows;
    }
  }

  lemma UpdatedRows<A(!new)>(
    rows: seq<Row<A>>, updated: seq<Row<A>>, subs: map<Id, Subscription<A>>, subs': map<Id, Subscription<A>>)
    requires ListsRows(rows, subs) && |updated| == |rows| && subs'.Keys == subs.Keys
    requires forall i :: 0 <= i < |rows| ==>
               updated[i].id == rows[i].id && rows[i].id in subs && updated[i].sub == subs'[rows[i].id]
    ensures ListsRows(updated, subs')
  {
    forall row: Row<A> | row.id in subs' && row.sub == subs'[row.id] ensures row in updated {
      var i :| 0 <= i < |rows| && rows[i] == Row(row.id, subs[row.id]);
      assert updated[i] == row;
    }
    forall i, j | 0 <= i < j < |rows| ensures updated[i] != updated[j] {
      assert rows[i] in rows && rows[j] in rows;
    }
  }

  // ----- the subscribers named in a response -----

  datatype SubscriptionState = SubscriptionState(id: Id, index: int)

  datatype SubscriberToNotify = SubscriberToNotify(url: string, states: seq<SubscriptionState>)

  /** The response names exactly these subscriptions, each once, under its own URL and with its own index. */
  ghost predicate Names<A(!new)>(response: seq<SubscriberToNotify>, notified: map<Id, Subscription<A>>) {
    && (forall i, j :: 0 <= i < j < |response| ==> response[i].url != response[j].url)
    && (forall e :: e in response ==> Distinct(e.states))
    && (forall e, state :: e in response && state in e.states ==>
          state.id in notified && e.url == notified[state.id].url && state.index == ToInt32(notified[state.id].index))
    && (forall id :: id in notified ==>
          (exists e :: e in response && SubscriptionState(id, ToInt32(notified[id].index)) in e.states))
  }

  function StatesFor<A(!new)>(rows: seq<Row<A>>, n: nat, url: string): seq<SubscriptionState>
    requires n <= |rows|
  {
    if n == 0 then [] else
    var last := rows[n - 1];
    StatesFor(rows, n - 1, url)
    + (if last.sub.url == url then [SubscriptionState(last.id, ToInt32(last.sub.index))] else [])
  }

  lemma {:induction false} StatesForRows<A(!new)>(
    rows: seq<Row<A>>, n: nat, url: string, subs: map<Id, Subscription<A>>)
    requires ListsRows(rows, subs) && n <= |rows|
    ensures forall state :: state in StatesFor(rows, n, url) <==> exists i ::
              0 <= i < n && rows[i].sub.url == url && state == SubscriptionState(rows[i].id, ToInt32(rows[i].sub.index))
    ensures Distinct(StatesFor(rows, n, url))
  {
    if n > 0 {
      StatesForRows(rows, n - 1, url, subs);
      forall i | 0 <= i < n - 1 ensures rows[i].id != rows[n - 1].id {
        assert rows[i] in rows && rows[n - 1] in rows;
      }
      assert SubscriptionState(rows[n - 1].id, ToInt32(rows[n - 1].sub.index)) !in StatesFor(rows, n - 1, url);
    }
  }

  lemma ResponseNames<A(!new)>(response: seq<SubscriberToNotify>, rows: seq<Row<A>>, notified: map<Id, Subscription<A>>)
    requires ListsRows(rows, notified)
    requires forall i, j :: 0 <= i < j < |response| ==> response[i].url != response[j].url
    requires forall e :: e in response ==> e.states == StatesFor(rows, |rows|, e.url)
    requires forall row :: row in rows ==> exists e :: e in response && e.url == row.sub.url
    ensures Names(response, notified)
  {
    hide StatesFor, ToInt32, Distinct, ListsRows;
    forall e | e in response ensures Distinct(e.states) && NamedIn(e, notified) {
      EntryIsNamed(rows, e, notified);
    }
    forall id | id in notified
      ensures exists e :: e in response && SubscriptionState(id, ToInt32(notified[id].index)) in e.states
    {
      var row := Row(id, notified[id]);
      RowIsThere(rows, id, notified);
      var e :| e in response && e.url == row.sub.url;
      EntryNames(rows, row, notified);
    }
  }

  ghost predicate NamedIn<A(!new)>(e: SubscriberToNotify, notified: map<Id, Subscription<A>>) {
    forall state :: state in e.states ==>
      state.id in notified && e.url == notified[state.id].url && state.index == ToInt32(notified[state.id].index)
  }

  lemma RowIsThere<A(!new)>(rows: seq<Row<A>>, id: Id, notified: map<Id, Subscription<A>>)
    requires ListsRows(rows, notified) && id in notified
    ensures Row(id, notified[id]) in rows
  {
  }

  lemma EntryIsNamed<A(!new)>(rows: seq<Row<A>>, e: SubscriberToNotify, notified: map<Id, Subscription<A>>)
    requires ListsRows(rows, notified) && e.states == StatesFor(rows, |rows|, e.url)
    ensures Distinct(e.states) && NamedIn(e, notified)
  {
    hide StatesFor, ToInt32, Distinct;
    StatesForRows(rows, |rows|, e.url, notified);
    assert forall i :: 0 <= i < |rows| ==> rows[i] in rows;
  }

  lemma EntryNames<A(!new)>(rows: seq<Row<A>>, row: Row<A>, notified: map<Id, Subscription<A>>)
    requires ListsRows(rows, notified) && row in rows
    ensures SubscriptionState(row.id, ToInt32(row.sub.index)) in StatesFor(rows, |rows|, row.sub.url)
  {
    hide StatesFor, ToInt32, Distinct, ListsRows;
    StatesForRows(rows, |rows|, row.sub.url, notified);
  }

  function Under(byUrl: map<string, seq<SubscriptionState>>, url: string): seq<SubscriptionState> {
    if url in byUrl then byUrl[url] else []
  }

  ghost predicate Grouped<A(!new)>(byUrl: map<string, seq<SubscriptionState>>, rows: seq<Row<A>>, n: nat)
    requires n <= |rows|
  {
    && (forall k :: 0 <= k < n ==> rows[k].sub.url in byUrl)
    && (forall url :: GroupedAt(byUrl, rows, n, url))
  }

  ghost predicate GroupedAt<A(!new)>(byUrl: map<string, seq<SubscriptionState>>, rows: seq<Row<A>>, n: nat, url: string)
    requires n <= |rows|
  {
    Under(byUrl, url) == StatesFor(rows, n, url)
  }

  lemma GroupedNext<A(!new)>(byUrl: map<string, seq<SubscriptionState>>, rows: seq<Row<A>>, n: nat)
    requires n < |rows| && Grouped(byUrl, rows, n)
    ensures var sub := rows[n].sub;
            var states := Under(byUrl, sub.url) + [SubscriptionState(rows[n].id, ToInt32(sub.index))];
            Grouped(byUrl[sub.url := states], rows, n + 1)
  {
    var sub := rows[n].sub;
    var states := Under(byUrl, sub.url) + [SubscriptionState(rows[n].id, ToInt32(sub.index))];
    var next, m := byUrl[sub.url := states], n + 1;
    forall url ensures GroupedAt(next, rows, m, url) {
      assert GroupedAt(byUrl, rows, n, url);
    }
  }

  method GroupByURL<A(!new)>(rows: seq<Row<A>>) returns (subscriptionsByURL: map<string, seq<SubscriptionState>>)
    ensures Grouped(subscriptionsByURL, rows, |rows|)
  {
    subscriptionsByURL := map[];
    for i := 0 to |rows|
      invariant Grouped(subscriptionsByURL, rows, i)
    {
      GroupedNext(subscriptionsByURL, rows, i);
      var sub := rows[i].sub;
      var state := SubscriptionState(rows[i].id, ToInt32(sub.index));
      subscriptionsByURL := subscriptionsByURL[sub.url := Under(subscriptionsByURL, sub.url) + [state]];
    }
  }

  /** One entry for each URL, in the order of the URLs. */
  ghost predicate EntriesFor<A(!new)>(response: seq<SubscriberToNotify>, urls: seq<string>, rows: seq<Row<A>>) {
    && |response| == |urls|
    && forall k :: 0 <= k < |urls| ==> response[k] == SubscriberToNotify(urls[k], StatesFor(rows, |rows|, urls[k]))
  }

  lemma EntryNext<A(!new)>(
    byUrl: map<string, seq<SubscriptionState>>, rows: seq<Row<A>>, response: seq<SubscriberToNotify>,
    urls: seq<string>, url: string)
    requires Grouped(byUrl, rows, |rows|) && url in byUrl && EntriesFor(response, urls, rows)
    ensures EntriesFor(response + [SubscriberToNotify(url, byUrl[url])], urls + [url], rows)
  {
    hide StatesFor;
    assert GroupedAt(byUrl, rows, |rows|, url);
  }

  lemma EntriesNameAll<A(!new)>(
    byUrl: map<string, seq<SubscriptionState>>, rows: seq<Row<A>>, response: seq<SubscriberToNotify>,
    urls: seq<string>, notified: map<Id, Subscription<A>>)
    requires ListsRows(rows, notified) && Grouped(byUrl, rows, |rows|) && EntriesFor(response, urls, rows)
    requires forall url :: url in urls <==> url in byUrl
    requires forall i, j :: 0 <= i < j < |urls| ==> urls[i] != urls[j]
    ensures Names(response, notified)
  {
    hide StatesFor, Names, ListsRows;
    forall row | row in rows ensures exists e :: e in response && e.url == row.sub.url {
      var n :| 0 <= n < |rows| && rows[n] == row;
      assert row.sub.url in urls;
      var i :| 0 <= i < |urls| && urls[i] == row.sub.url;
      assert response[i] in response;
    }
    ResponseNames(response, rows, notified);
  }

  method MakeSubscribersToNotify<A(!new)>(rows: seq<Row<A>>, ghost notified: map<Id, Subscription<A>>)
    returns (response: seq<SubscriberToNotify>)
    requires ListsRows(rows, notified)
    ensures Names(response, notified)
  {
    hide StatesFor, Names, Grouped, EntriesFor, ListsRows;
    var subscriptionsByURL := GroupByURL(rows);
    response := [];
    var urls := Enumerate(subscriptionsByURL.Keys);
    assert EntriesFor(response, urls[..0], rows) by {
      NoEntries(rows);
    }
    for i := 0 to |urls|
      invariant EntriesFor(response, urls[..i], rows)
    {
      assert urls[i] in urls && urls[..i + 1] == urls[..i] + [urls[i]];
      EntryNext(subscriptionsByURL, rows, response, urls[..i], urls[i]);
      response := response + [SubscriberToNotify(urls[i], subscriptionsByURL[urls[i]])];
    }
    assert urls[..|urls|] == urls;
    EntriesNameAll(subscriptionsByURL, rows, response, urls, notified);
  }

  lemma NoEntries<A(!new)>(rows: seq<Row<A>>)
    ensures EntriesFor([], [], rows)
  {
  }
}
