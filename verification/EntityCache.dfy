/** Polling for entities: the references come from the DSS, the entities from the USS that each reference names, and
    entities fetched before are kept. */
module EntityCache {
  import opened Common

  datatype Reference = Reference(ussBaseUrl: string, content: string)

  datatype Answer = Answer(success: bool, content: string)

  datatype CachedEntity = CachedEntity(reference: Reference, fetched: Answer)

  /** What the outside does during one poll: the references found, if the DSS answers, and what a USS at a URL would
      answer about an entity. */
  datatype Poll = Poll(references: Option<map<Id, Reference>>, answers: (string, Id) -> Answer) {
    function AnswerFor(id: Id, r: Reference): Answer {
      answers(r.ussBaseUrl, id)
    }
  }

  datatype Fetched = Fetched(newEntities: map<Id, Answer>, cachedEntities: map<Id, Answer>) {
    function EntitiesById(): map<Id, Answer> {
      cachedEntities + newEntities
    }
  }

  type Entries = map<Id, CachedEntity>

  predicate Hit(cache: Entries, id: Id, r: Reference) {
    id in cache && cache[id].reference == r && cache[id].fetched.success
  }

  /** The entities to ask about, of these. */
  function Asked(cache: Entries, refs: map<Id, Reference>, ids: set<Id>): set<Id> {
    set id | id in ids && id in refs && !Hit(cache, id, refs[id])
  }

  function Answers(p: Poll, refs: map<Id, Reference>, asked: set<Id>): map<Id, Answer> {
    map id | id in asked && id in refs :: p.AnswerFor(id, refs[id])
  }

  function Kept(cache: Entries, refs: map<Id, Reference>, ids: set<Id>): map<Id, Answer> {
    map id | id in ids && id in refs && Hit(cache, id, refs[id]) :: cache[id].fetched
  }

  function WithAnswers(cache: Entries, p: Poll, refs: map<Id, Reference>, asked: set<Id>): Entries {
    cache + map id | id in asked && id in refs :: CachedEntity(refs[id], p.AnswerFor(id, refs[id]))
  }

  function PollResult(cache: Entries, p: Poll): Fetched {
    if p.references.None? then Fetched(map[], map[]) else
    var refs := p.references.value;
    Fetched(Answers(p, refs, Asked(cache, refs, refs.Keys)), Kept(cache, refs, refs.Keys))
  }

  function Updated(cache: Entries, p: Poll): Entries {
    if p.references.None? then cache else
    var refs := p.references.value;
    WithAnswers(cache, p, refs, Asked(cache, refs, refs.Keys))
  }

  /** One more entity. */
  lemma OneMore(cache: Entries, p: Poll, refs: map<Id, Reference>, ids: set<Id>, id: Id)
    requires id in refs && id !in ids
    ensures var asked, more := Asked(cache, refs, ids), Asked(cache, refs, ids + {id});
            if Hit(cache, id, refs[id]) then
              && more == asked
              && Kept(cache, refs, ids + {id}) == Kept(cache, refs, ids)[id := cache[id].fetched]
            else
              && Kept(cache, refs, ids + {id}) == Kept(cache, refs, ids)
              && Answers(p, refs, more) == Answers(p, refs, asked)[id := p.AnswerFor(id, refs[id])]
              && WithAnswers(cache, p, refs, more) ==
                   WithAnswers(cache, p, refs, asked)[id := CachedEntity(refs[id], p.AnswerFor(id, refs[id]))]
    ensures Hit(WithAnswers(cache, p, refs, Asked(cache, refs, ids)), id, refs[id]) == Hit(cache, id, refs[id])
    ensures Hit(cache, id, refs[id]) ==> WithAnswers(cache, p, refs, Asked(cache, refs, ids))[id] == cache[id]
  {
    var asked, more := Asked(cache, refs, ids), Asked(cache, refs, ids + {id});
    if Hit(cache, id, refs[id]) {
      assert more == asked;
    } else {
      assert more == asked + {id};
      OneMoreAnswer(cache, p, refs, asked, id);
    }
    hide Answers, Hit;
  }

  lemma OneMoreAnswer(cache: Entries, p: Poll, refs: map<Id, Reference>, asked: set<Id>, id: Id)
    requires asked <= refs.Keys && id in refs
    ensures Answers(p, refs, asked + {id}) == Answers(p, refs, asked)[id := p.AnswerFor(id, refs[id])]
    ensures WithAnswers(cache, p, refs, asked + {id}) ==
              WithAnswers(cache, p, refs, asked)[id := CachedEntity(refs[id], p.AnswerFor(id, refs[id]))]
  {
  }

  lemma NothingAsked(cache: Entries, p: Poll, refs: map<Id, Reference>)
    ensures Answers(p, refs, Asked(cache, refs, {})) == map[] && Kept(cache, refs, {}) == map[]
    ensures WithAnswers(cache, p, refs, Asked(cache, refs, {})) == cache
  {
    assert Asked(cache, refs, {}) == {};
  }

  class Cache {
    var entries: Entries

    constructor ()
      ensures entries == map[]
    {
      entries := map[];
    }

    method Entities(p: Poll) returns (fetched: Fetched)
      modifies this
      ensures fetched == PollResult(old(entries), p)
      ensures entries == Updated(old(entries), p)
    {
      hide Asked, Answers, Kept, WithAnswers;
      var ussQueries: map<Id, Answer>, cachedQueries: map<Id, Answer> := map[], map[];
      if p.references.Some? {
        var refs := p.references.value;
        var ids := Enumerate(refs.Keys);
        ghost var done: set<Id> := {};
        NothingAsked(entries, p, refs);
        for i := 0 to |ids|
          invariant done == set id | id in ids[..i]
          invariant ussQueries == Answers(p, refs, Asked(old(entries), refs, done))
          invariant cachedQueries == Kept(old(entries), refs, done)
          invariant entries == WithAnswers(old(entries), p, refs, Asked(old(entries), refs, done))
        {
          var id := ids[i];
          assert id in ids && id !in done && ids[..i + 1] == ids[..i] + [id];
          OneMore(old(entries), p, refs, done, id);
          done := done + {id};
          var r := refs[id];
          if id in entries && entries[id].reference == r && entries[id].fetched.success {
            cachedQueries := cachedQueries[id := entries[id].fetched];
            continue;
          }
          var answer := p.answers(r.ussBaseUrl, id);
          ussQueries := ussQueries[id := answer];
          entries := entries[id := CachedEntity(r, answer)];
        }
        assert ids[..|ids|] == ids && done == refs.Keys;
      }
      fetched := Fetched(ussQueries, cachedQueries);
    }
  }

  // ----- runs of polls -----

  /** The cache after the first `n` polls. */
  function After(polls: seq<Poll>, n: nat): Entries
    requires n <= |polls|
  {
    if n == 0 then map[] else Updated(After(polls, n - 1), polls[n - 1])
  }

  predicate References(p: Poll, id: Id) {
    p.references.Some? && id in p.references.value
  }

  /** A successful answer about an entity depends on nothing but its reference: it is `truth` of that. */
  ghost predicate Determined(polls: seq<Poll>, truth: (Id, Reference) -> Answer) {
    forall n, id :: 0 <= n < |polls| && References(polls[n], id) ==>
      var r := polls[n].references.value[id];
      var a := polls[n].AnswerFor(id, r);
      a.success ==> a == truth(id, r)
  }

  /** Then every successful entry of the cache is the truth about the reference that is kept with it. */
  lemma {:induction false} CacheIsTrue(polls: seq<Poll>, truth: (Id, Reference) -> Answer, n: nat, id: Id)
    requires Determined(polls, truth) && n <= |polls| && id in After(polls, n)
    ensures var e := After(polls, n)[id]; e.fetched.success ==> e.fetched == truth(id, e.reference)
  {
    if n > 0 {
      var p := polls[n - 1];
      if References(p, id) && !Hit(After(polls, n - 1), id, p.references.value[id]) {
      } else {
        CacheIsTrue(polls, truth, n - 1, id);
      }
    }
  }

  /** New and cached entities share out the referenced ones between them. A cached one is the true answer about the
      current reference, so wherever asking would succeed the poll gives the answer that asking gives. */
  lemma PollIsTrue(polls: seq<Poll>, truth: (Id, Reference) -> Answer, n: nat)
    requires Determined(polls, truth) && n < |polls| && polls[n].references.Some?
    ensures var refs, r := polls[n].references.value, PollResult(After(polls, n), polls[n]);
            && r.newEntities.Keys + r.cachedEntities.Keys == refs.Keys
            && r.newEntities.Keys !! r.cachedEntities.Keys
            && (forall id :: id in r.cachedEntities ==> r.cachedEntities[id] == truth(id, refs[id]))
            && r.EntitiesById().Keys == refs.Keys
            && (forall id :: id in refs && polls[n].AnswerFor(id, refs[id]).success ==>
                  r.EntitiesById()[id] == polls[n].AnswerFor(id, refs[id]))
  {
    var cache, refs := After(polls, n), polls[n].references.value;
    forall id | id in refs && Hit(cache, id, refs[id]) ensures cache[id].fetched == truth(id, refs[id]) {
      CacheIsTrue(polls, truth, n, id);
    }
    forall id | id in refs && polls[n].AnswerFor(id, refs[id]).success
      ensures polls[n].AnswerFor(id, refs[id]) == truth(id, refs[id])
    {
      assert References(polls[n], id);
    }
  }

  /** The last of the first `n` polls that asked about an entity. */
  function LastAsked(polls: seq<Poll>, n: nat, id: Id): Option<nat>
    requires n <= |polls|
  {
    if n == 0 then None
    else if id in PollResult(After(polls, n - 1), polls[n - 1]).newEntities then Some(n - 1)
    else LastAsked(polls, n - 1, id)
  }

  /** Whatever the answers, an entity is in the cache exactly when it was asked about, with the reference and the
      answer of the last time, and it is not asked about again as long as that was a success and the reference is the
      same. */
  lemma {:induction false} CacheIsLastAnswer(polls: seq<Poll>, n: nat, id: Id)
    requires n <= |polls|
    ensures var cache, last := After(polls, n), LastAsked(polls, n, id);
            && (id in cache <==> last.Some?)
            && (last.Some? ==>
                  && last.value < n && References(polls[last.value], id)
                  && var p := polls[last.value];
                     var r := p.references.value[id];
                     && cache[id] == CachedEntity(r, p.AnswerFor(id, r))
                     && (n < |polls| && References(polls[n], id) ==>
                           (id in PollResult(cache, polls[n]).newEntities <==>
                              polls[n].references.value[id] != r || !p.AnswerFor(id, r).success)))
  {
    if n > 0 {
      CacheIsLastAnswer(polls, n - 1, id);
    }
  }
}
