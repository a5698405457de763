/** Which data types of an API are needed by the operations that are kept. */
module TypeFilter {
  import opened Common

  datatype DataType = DataType(name: string, goType: string, fields: seq<string>)

  /** Of a field, parameter or response only the name of its Go type matters; "" stands for no type. */
  datatype Operation = Operation(
    tags: set<string>, parameters: seq<string>, requestBody: string, responses: seq<string>)

  function Base(name: string): string {
    if |name| >= 2 && name[..2] == "[]" then name[2..] else name
  }

  /** The declarations by name; the last one of a name counts. */
  function ByName(types: seq<DataType>, n: nat): map<string, DataType>
    requires n <= |types|
  {
    if n == 0 then map[] else ByName(types, n - 1)[types[n - 1].name := types[n - 1]]
  }

  function References(types: seq<DataType>, name: string): seq<string> {
    var byName := ByName(types, |types|);
    if Base(name) in byName then [byName[Base(name)].goType] + byName[Base(name)].fields else []
  }

  /** The type names in the signature of an operation. */
  function Signature(op: Operation): set<string> {
    set t | t in op.parameters + [op.requestBody] + op.responses && (t in op.parameters || t != "")
  }

  function Roots(ops: seq<Operation>): set<string> {
    set op, t | op in ops && t in Signature(op) :: t
  }

  /** A type of a parameter, or of a body when there is one. */
  predicate InSignature(op: Operation, t: string) {
    t in op.parameters || (t != "" && (t == op.requestBody || t in op.responses))
  }

  lemma RootsExactly(ops: seq<Operation>, t: string)
    ensures t in Roots(ops) <==> exists i :: 0 <= i < |ops| && InSignature(ops[i], t)
  {
    if t in Roots(ops) {
      var op :| op in ops && t in Signature(op);
      var i :| 0 <= i < |ops| && ops[i] == op;
    }
    if i :| 0 <= i < |ops| && InSignature(ops[i], t) {
      assert t in Signature(ops[i]);
    }
  }

  // ----- the types that are needed -----

  /** Holds the signatures of the operations and, with a name, the element type of an array and all that the
      declaration of it refers to. */
  ghost predicate Closed(types: seq<DataType>, roots: set<string>, s: set<string>) {
    && roots <= s
    && forall t :: t in s ==> Base(t) in s && forall r :: r in References(types, t) ==> r in s
  }

  ghost predicate IsLeastClosed(types: seq<DataType>, roots: set<string>, s: set<string>) {
    Closed(types, roots, s) && forall other: set<string> :: Closed(types, roots, other) ==> s <= other
  }

  ghost predicate InAllClosed(types: seq<DataType>, roots: set<string>, s: set<string>) {
    forall other: set<string> :: Closed(types, roots, other) ==> s <= other
  }

  /** A chain of references from a signature to the name at its end. */
  ghost predicate IsPath(types: seq<DataType>, roots: set<string>, path: seq<string>) {
    && path != [] && path[0] in roots
    && forall i :: 0 < i < |path| ==> path[i] == Base(path[i - 1]) || path[i] in References(types, path[i - 1])
  }

  ghost predicate Reachable(types: seq<DataType>, roots: set<string>, name: string) {
    exists path :: IsPath(types, roots, path) && path[|path| - 1] == name
  }

  lemma {:induction false} PathStaysInside(
    types: seq<DataType>, roots: set<string>, s: set<string>, path: seq<string>, i: nat)
    requires Closed(types, roots, s) && IsPath(types, roots, path) && i < |path|
    ensures path[i] in s
  {
    if i > 0 {
      PathStaysInside(types, roots, s, path, i - 1);
    }
  }

  lemma PathGoesOn(types: seq<DataType>, roots: set<string>, name: string, next: string)
    requires Reachable(types, roots, name) && (next == Base(name) || next in References(types, name))
    ensures Reachable(types, roots, next)
  {
    var path :| IsPath(types, roots, path) && path[|path| - 1] == name;
    assert IsPath(types, roots, path + [next]);
    assert (path + [next])[|path + [next]| - 1] == next;
  }

  /** The least closed set holds exactly the names that references lead to from the signatures. */
  lemma NeededIsReachable(types: seq<DataType>, roots: set<string>, s: set<string>, name: string)
    requires IsLeastClosed(types, roots, s)
    ensures name in s <==> Reachable(types, roots, name)
  {
    hide References;
    if Reachable(types, roots, name) {
      var path :| IsPath(types, roots, path) && path[|path| - 1] == name;
      PathStaysInside(types, roots, s, path, |path| - 1);
    }
    ReachedIsClosed(types, roots, s);
  }

  lemma ReachedIsClosed(types: seq<DataType>, roots: set<string>, s: set<string>)
    requires Closed(types, roots, s)
    ensures Closed(types, roots, set t | t in s && Reachable(types, roots, t))
  {
    hide References, Reachable, IsPath;
    forall t | t in roots ensures Reachable(types, roots, t) {
      RootIsReachable(types, roots, t);
    }
    forall t, next | Reachable(types, roots, t) && (next == Base(t) || next in References(types, t))
      ensures Reachable(types, roots, next)
    {
      PathGoesOn(types, roots, t, next);
    }
  }

  lemma RootIsReachable(types: seq<DataType>, roots: set<string>, name: string)
    requires name in roots
    ensures Reachable(types, roots, name)
  {
    assert IsPath(types, roots, [name]) && [name][|[name]| - 1] == name;
  }

  // ----- the worklist -----

  /** An array of arrays is not named as such; its elements have a name of their own. */
  predicate SingleLevel(name: string) {
    Base(Base(name)) == Base(name)
  }

  ghost predicate OneLevel(types: seq<DataType>, roots: set<string>) {
    && (forall t :: t in roots ==> SingleLevel(t))
    && (forall dt :: dt in types ==> SingleLevel(dt.goType) && forall f :: f in dt.fields ==> SingleLevel(f))
  }

  lemma {:induction false} DeclaredByName(types: seq<DataType>, n: nat, name: string)
    requires n <= |types| && name in ByName(types, n)
    ensures ByName(types, n)[name] in types && ByName(types, n)[name].name == name
  {
    if types[n - 1].name != name {
      DeclaredByName(types, n - 1, name);
    }
  }

  lemma ReferencesAreSingleLevel(types: seq<DataType>, roots: set<string>, name: string)
    requires OneLevel(types, roots)
    ensures forall r :: r in References(types, name) ==> SingleLevel(r)
  {
    if Base(name) in ByName(types, |types|) {
      DeclaredByName(types, |types|, Base(name));
    }
  }

  /** What a name refers to is there with it. */
  ghost predicate Followed(types: seq<DataType>, s: set<string>, name: string) {
    Base(name) in s && forall r :: r in References(types, name) ==> r in s
  }

  /** The only names that may not have been followed up are array types that are elements of arrays. */
  ghost predicate FollowedButForNested(types: seq<DataType>, s: set<string>) {
    forall t :: t in s ==> Followed(types, s, t) || (Base(t) != t && exists d :: d in s && Base(d) == t)
  }

  /** Holds the signatures, and with a name all that its declaration refers to. */
  ghost predicate Following(types: seq<DataType>, roots: set<string>, f: set<string>) {
    roots <= f && forall t :: t in f ==> forall r :: r in References(types, t) ==> r in f
  }

  /** Of element types it takes in only those of names that are followed. */
  ghost predicate TakesOnlyElements(types: seq<DataType>, roots: set<string>, s: set<string>) {
    forall f: set<string> :: Following(types, roots, f) ==> s <= f + set t | t in f :: Base(t)
  }

  ghost predicate QueueIsFollowed(types: seq<DataType>, roots: set<string>, queue: seq<string>) {
    forall f: set<string> :: Following(types, roots, f) ==> forall q :: q in queue ==> q in f
  }

  /** Every required name is in the queue, has been followed up, or is the element type of one that has been. */
  ghost predicate Covered(required: set<string>, queue: seq<string>, done: set<string>) {
    forall t :: t in required ==> t in queue || t in done || exists d :: d in done && Base(d) == t
  }

  ghost predicate FollowedUp(types: seq<DataType>, required: set<string>, done: set<string>) {
    forall d :: d in done ==> Base(d) in required && forall r :: r in References(types, d) ==> r in required
  }

  /** The names in the signatures are put in the queue at the start. */
  ghost predicate RootsAreQueued(roots: set<string>, queue: seq<string>, done: set<string>) {
    forall r :: r in roots ==> r in queue || r in done
  }

  ghost predicate RootsAreFollowed(types: seq<DataType>, roots: set<string>, required: set<string>) {
    forall r :: r in roots ==> Followed(types, required, r)
  }

  /** Between two turns: what is required is needed, and what is not in the queue has been followed up, by its own
      name or by that of an array of it. */
  ghost predicate Worklist(
    types: seq<DataType>, roots: set<string>, required: set<string>, queue: seq<string>, done: set<string>)
  {
    && roots <= required && done <= required && InAllClosed(types, roots, required)
    && (forall q :: q in queue ==> q in required) && RootsAreQueued(roots, queue, done)
    && Covered(required, queue, done) && FollowedUp(types, required, done)
    && TakesOnlyElements(types, roots, required) && QueueIsFollowed(types, roots, queue)
    && (OneLevel(types, roots) ==> forall t :: t in required ==> SingleLevel(t))
  }

  lemma EmptyWorklist(types: seq<DataType>, roots: set<string>, required: set<string>, done: set<string>)
    requires Worklist(types, roots, required, [], done) && OneLevel(types, roots)
    ensures IsLeastClosed(types, roots, required)
  {
    forall t | t in required
      ensures Base(t) in required && forall r :: r in References(types, t) ==> r in required
    {
      if t !in done {
        var d :| d in done && Base(d) == t;
        assert SingleLevel(d);
      }
    }
  }

  lemma FollowUp(
    types: seq<DataType>, roots: set<string>, required: set<string>, queue: seq<string>, done: set<string>,
    name: string, after: set<string>, queueAfter: seq<string>)
    requires Worklist(types, roots, required, queue + [name], done)
    requires after == required + {Base(name)} + set r | r in References(types, name)
    requires forall q :: q in queue ==> q in queueAfter
    requires forall q :: q in queueAfter ==> q in queue || q in References(types, name)
    requires forall r :: r in References(types, name) && r !in required && r != Base(name) ==> r in queueAfter
    ensures Worklist(types, roots, after, queueAfter, done + {name})
  {
    hide References, OneLevel, InAllClosed, Base, SingleLevel, Covered, FollowedUp, TakesOnlyElements, QueueIsFollowed;
    assert name in queue + [name];
    assert forall q :: q in queue ==> q in queue + [name];
    StillNeeded(types, roots, required, name, after);
    StillCovered(required, queue, done, name, after, queueAfter, References(types, name));
    StillFollowedUp(types, required, done, name, after);
    StillElements(types, roots, required, queue, name, after, queueAfter);
    if OneLevel(types, roots) {
      ReferencesAreSingleLevel(types, roots, name);
      BaseIsSingleLevel(name);
    }
  }

  lemma StillElements(
    types: seq<DataType>, roots: set<string>, required: set<string>, queue: seq<string>, name: string,
    after: set<string>, queueAfter: seq<string>)
    requires TakesOnlyElements(types, roots, required) && QueueIsFollowed(types, roots, queue + [name])
    requires after == required + {Base(name)} + set r | r in References(types, name)
    requires forall q :: q in queueAfter ==> q in queue || q in References(types, name)
    ensures TakesOnlyElements(types, roots, after) && QueueIsFollowed(types, roots, queueAfter)
  {
    hide References, Base;
    forall f: set<string> | Following(types, roots, f)
      ensures after <= f + (set t | t in f :: Base(t)) && forall q :: q in queueAfter ==> q in f
    {
      assert name in queue + [name] && name in f;
      assert forall q :: q in queue ==> q in queue + [name];
    }
  }

  lemma BaseIsSingleLevel(name: string)
    requires SingleLevel(name)
    ensures SingleLevel(Base(name))
  {
    hide Base;
  }

  lemma StillFollowedUp(
    types: seq<DataType>, required: set<string>, done: set<string>, name: string, after: set<string>)
    requires FollowedUp(types, required, done)
    requires after == required + {Base(name)} + set r | r in References(types, name)
    ensures FollowedUp(types, after, done + {name})
  {
    hide References, Base;
  }

  lemma StillCovered(
    required: set<string>, queue: seq<string>, done: set<string>, name: string, after: set<string>,
    queueAfter: seq<string>, names: seq<string>)
    requires Covered(required, queue + [name], done)
    requires after == required + {Base(name)} + set r | r in names
    requires forall q :: q in queue ==> q in queueAfter
    requires forall r :: r in names && r !in required && r != Base(name) ==> r in queueAfter
    ensures Covered(after, queueAfter, done + {name})
  {
    hide Base;
    var more := done + {name};
    forall t | t in after ensures t in queueAfter || t in more || exists d :: d in more && Base(d) == t {
      if t == Base(name) {
        assert name in more;
      } else if t in required && t !in queue + [name] && t !in done {
        var d :| d in done && Base(d) == t;
        assert d in more;
      }
    }
  }

  lemma StillNeeded(
    types: seq<DataType>, roots: set<string>, required: set<string>, name: string, after: set<string>)
    requires InAllClosed(types, roots, required) && name in required
    requires after == required + {Base(name)} + set r | r in References(types, name)
    ensures InAllClosed(types, roots, after)
  {
    hide References, Base;
  }

  /** The names that can ever be put in the queue. */
  ghost function Universe(types: seq<DataType>, roots: set<string>): set<string> {
    roots + set dt, r | dt in types && r in [dt.goType] + dt.fields :: r
  }

  lemma ReferencesInUniverse(types: seq<DataType>, roots: set<string>, name: string)
    ensures forall r :: r in References(types, name) ==> r in Universe(types, roots)
  {
    if Base(name) in ByName(types, |types|) {
      DeclaredByName(types, |types|, Base(name));
    }
  }

  /** Adds the names that are not yet required, to the set and to the queue. */
  method Require(names: seq<string>, required: set<string>, queue: seq<string>)
    returns (requiredAfter: set<string>, queueAfter: seq<string>)
    ensures requiredAfter == required + set r | r in names
    ensures forall q :: q in queueAfter <==> q in queue || (q in names && q !in required)
    ensures requiredAfter == required ==> queueAfter == queue
  {
    requiredAfter, queueAfter := required, queue;
    for i := 0 to |names|
      invariant requiredAfter == required + set r | r in names[..i]
      invariant forall q :: q in queueAfter <==> q in queue || (q in names[..i] && q !in required)
      invariant requiredAfter == required ==> queueAfter == queue
    {
      assert names[..i + 1] == names[..i] + [names[i]];
      if names[i] !in requiredAfter {
        requiredAfter, queueAfter := requiredAfter + {names[i]}, queueAfter + [names[i]];
      }
    }
    assert names[..|names|] == names;
  }

  /** A turn adds a name that is new to the set, or else shortens the queue. */
  lemma Progress(
    types: seq<DataType>, roots: set<string>, name: string, required: set<string>, queue: seq<string>,
    after: set<string>, queueAfter: seq<string>)
    requires after == required + {Base(name)} + set r | r in References(types, name)
    requires after == required + {Base(name)} ==> queueAfter == queue
    ensures var u := Universe(types, roots);
            |u - after| < |u - required| || (|u - after| <= |u - required| && |queueAfter| < |queue + [name]|)
  {
    hide References, Base;
    var u := Universe(types, roots);
    SubsetIsSmaller(u - after, u - required);
    if r :| r in References(types, name) && r !in required + {Base(name)} {
      ReferencesInUniverse(types, roots, name);
      SubsetIsSmaller(u - after, u - required - {r});
    } else {
      assert after == required + {Base(name)};
    }
  }

  lemma StartWorklist(types: seq<DataType>, roots: set<string>, queue: seq<string>)
    requires forall q :: q in queue <==> q in roots
    ensures Worklist(types, roots, roots, queue, {})
  {
  }

  method SignatureTypes(ops: seq<Operation>) returns (required: set<string>)
    ensures required == Roots(ops)
  {
    required := {};
    for i := 0 to |ops|
      invariant required == Roots(ops[..i])
    {
      assert ops[..i + 1] == ops[..i] + [ops[i]];
      required := required + Signature(ops[i]);
    }
    assert ops[..|ops|] == ops;
  }

  method RequiredTypes(types: seq<DataType>, ops: seq<Operation>) returns (required: set<string>)
    ensures InAllClosed(types, Roots(ops), required) && FollowedButForNested(types, required)
    ensures Roots(ops) <= required && TakesOnlyElements(types, Roots(ops), required)
    ensures RootsAreFollowed(types, Roots(ops), required)
    ensures OneLevel(types, Roots(ops)) ==> IsLeastClosed(types, Roots(ops), required)
  {
    hide Base, Worklist, Universe, Roots, OneLevel, InAllClosed, IsLeastClosed, FollowedButForNested, TakesOnlyElements,
      RootsAreFollowed;
    required := SignatureTypes(ops);
    ghost var roots, done: set<string> := required, {};
    var byName := ByName(types, |types|);
    var queue := Enumerate(required);
    StartWorklist(types, roots, queue);
    while queue != []
      invariant Worklist(types, roots, required, queue, done)
      decreases |Universe(types, roots) - required|, |queue|
    {
      var name := queue[|queue| - 1];
      ghost var before, queueBefore := required, queue[..|queue| - 1];
      assert queue == queueBefore + [name];
      queue := queue[..|queue| - 1];
      required := required + {Base(name)};
      if Base(name) in byName {
        var dt := byName[Base(name)];
        required, queue := Require([dt.goType] + dt.fields, required, queue);
      }
      Progress(types, roots, name, before, queueBefore, required, queue);
      FollowUp(types, roots, before, queueBefore, done, name, required, queue);
      done := done + {name};
    }
    WorklistIsNeeded(types, roots, required, done);
  }

  lemma WorklistIsNeeded(types: seq<DataType>, roots: set<string>, required: set<string>, done: set<string>)
    requires Worklist(types, roots, required, [], done)
    ensures InAllClosed(types, roots, required) && FollowedButForNested(types, required)
    ensures roots <= required && TakesOnlyElements(types, roots, required)
    ensures RootsAreFollowed(types, roots, required)
    ensures OneLevel(types, roots) ==> IsLeastClosed(types, roots, required)
  {
    forall t | t in required && Base(t) == t ensures Followed(types, required, t) {
      if t !in done {
        var d :| d in done && Base(d) == t;
      }
    }
    if OneLevel(types, roots) {
      EmptyWorklist(types, roots, required, done);
    }
  }

  // ----- the filtered API -----

  /** The operations with at least one of the tags, in order. */
  function KeptOperations(ops: seq<Operation>, tags: set<string>, n: nat): seq<Operation>
    requires n <= |ops|
  {
    if n == 0 then []
    else KeptOperations(ops, tags, n - 1) + (if tags * ops[n - 1].tags != {} then [ops[n - 1]] else [])
  }

  /** The declarations of required names, in order. */
  function KeptTypes(types: seq<DataType>, required: set<string>, n: nat): seq<DataType>
    requires n <= |types|
  {
    if n == 0 then []
    else KeptTypes(types, required, n - 1) + (if types[n - 1].name in required then [types[n - 1]] else [])
  }

  ghost predicate HasOneOf(op: Operation, tags: set<string>) {
    exists tag :: tag in tags && tag in op.tags
  }

  lemma TagsMeet(op: Operation, tags: set<string>)
    ensures HasOneOf(op, tags) <==> tags * op.tags != {}
  {
    if tag :| tag in tags && tag in op.tags {
      assert tag in tags * op.tags;
    }
  }

  /** Exactly the operations with one of the tags are kept, in their order and as often as they are there: the i-th,
      when it is kept, stands behind those that are kept of the operations before it. */
  lemma {:induction false} KeptByTag(ops: seq<Operation>, tags: set<string>, n: nat, i: nat)
    requires i < n <= |ops|
    ensures |KeptOperations(ops, tags, 0)| == 0
    ensures var here, next := |KeptOperations(ops, tags, i)|, |KeptOperations(ops, tags, i + 1)|;
            if HasOneOf(ops[i], tags)
            then next == here + 1 <= |KeptOperations(ops, tags, n)| && KeptOperations(ops, tags, n)[here] == ops[i]
            else next == here
  {
    hide HasOneOf;
    if i == n - 1 {
      TagsMeet(ops[i], tags);
    } else {
      KeptByTag(ops, tags, n - 1, i);
      assert KeptOperations(ops, tags, n - 1) <= KeptOperations(ops, tags, n);
    }
  }

  class Api {
    var dataTypes: seq<DataType>
    var operations: seq<Operation>

    constructor (dataTypes: seq<DataType>, operations: seq<Operation>)
      ensures this.dataTypes == dataTypes && this.operations == operations
    {
      this.dataTypes, this.operations := dataTypes, operations;
    }

    method FilterOperations(tags: set<string>) returns (ghost required: set<string>)
      modifies this
      ensures operations == KeptOperations(old(operations), tags, |old(operations)|)
      ensures dataTypes == KeptTypes(old(dataTypes), required, |old(dataTypes)|)
      ensures InAllClosed(old(dataTypes), Roots(operations), required) && FollowedButForNested(old(dataTypes), required)
      ensures Roots(operations) <= required && TakesOnlyElements(old(dataTypes), Roots(operations), required)
      ensures RootsAreFollowed(old(dataTypes), Roots(operations), required)
      ensures OneLevel(old(dataTypes), Roots(operations)) ==>
                IsLeastClosed(old(dataTypes), Roots(operations), required)
    {
      hide OneLevel, InAllClosed, IsLeastClosed, Roots, FollowedButForNested, TakesOnlyElements, RootsAreFollowed;
      var ops: seq<Operation> := [];
      for i := 0 to |operations|
        invariant ops == KeptOperations(operations, tags, i)
      {
        if tags * operations[i].tags != {} {
          ops := ops + [operations[i]];
        }
      }
      operations := ops;
      var names := RequiredTypes(dataTypes, operations);
      required := names;
      var types: seq<DataType> := [];
      for i := 0 to |dataTypes|
        invariant types == KeptTypes(dataTypes, names, i)
      {
        if dataTypes[i].name in names {
          types := types + [dataTypes[i]];
        }
      }
      dataTypes := types;
    }
  }

  lemma {:induction false} KeptAreRequired(types: seq<DataType>, required: set<string>, n: nat, dt: DataType)
    requires n <= |types|
    ensures dt in KeptTypes(types, required, n) <==> dt in types[..n] && dt.name in required
  {
    if n > 0 {
      KeptAreRequired(types, required, n - 1, dt);
      assert types[..n] == types[..n - 1] + [types[n - 1]];
    }
  }

  lemma {:induction false} LastDeclaration(types: seq<DataType>, required: set<string>, n: nat, name: string)
    requires n <= |types| && name in required
    ensures var kept := KeptTypes(types, required, n);
            && (name in ByName(types, n) <==> name in ByName(kept, |kept|))
            && (name in ByName(types, n) ==> ByName(kept, |kept|)[name] == ByName(types, n)[name])
  {
    if n > 0 {
      LastDeclaration(types, required, n - 1, name);
      var before, after := KeptTypes(types, required, n - 1), KeptTypes(types, required, n);
      if types[n - 1].name in required {
        assert after == before + [types[n - 1]];
        SamePrefix(before, after, |before|);
        assert ByName(after, |after|) == ByName(before, |before|)[types[n - 1].name := types[n - 1]];
      } else {
        assert after == before;
      }
    }
  }

  lemma {:induction false} SamePrefix(a: seq<DataType>, b: seq<DataType>, n: nat)
    requires n <= |a| && n <= |b| && a[..n] == b[..n]
    ensures ByName(a, n) == ByName(b, n)
  {
    if n > 0 {
      assert a[..n - 1] == a[..n][..n - 1] && b[..n - 1] == b[..n][..n - 1];
      assert a[n - 1] == a[..n][n - 1] && b[n - 1] == b[..n][n - 1];
      SamePrefix(a, b, n - 1);
    }
  }

  /** The filtered API is self-contained: for every name that the kept operations lead to, what it refers to, and
      what it is declared as, are the same as before. */
  lemma FilteredIsSelfContained(types: seq<DataType>, roots: set<string>, required: set<string>, name: string)
    requires IsLeastClosed(types, roots, required) && Reachable(types, roots, name)
    ensures var kept := KeptTypes(types, required, |types|);
            && References(kept, name) == References(types, name)
            && (Base(name) in ByName(types, |types|) ==>
                  && Base(name) in ByName(kept, |kept|)
                  && ByName(kept, |kept|)[Base(name)] == ByName(types, |types|)[Base(name)]
                  && ByName(types, |types|)[Base(name)] in kept)
  {
    NeededIsReachable(types, roots, required, name);
    LastDeclaration(types, required, |types|, Base(name));
    if Base(name) in ByName(types, |types|) {
      DeclaredByName(types, |types|, Base(name));
      assert types[..|types|] == types;
      KeptAreRequired(types, required, |types|, ByName(types, |types|)[Base(name)]);
    }
  }
}
