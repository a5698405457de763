/** The overall change from one nested dictionary to another. */
module DictChanges {
  import opened Common

  /** A value that is no dictionary counts as a leaf. */
  datatype Value = Leaf(text: string) | Dict(entries: map<string, Value>)

  const EMPTY := Dict(map[])

  datatype Change = NoChange | Added | Changed | Removed

  datatype AttributeError = NotADictionary

  // ----- the lattice of changes -----

  function UpdateOverall(overall: Change, field: Change): Change {
    match overall
    case Changed => Changed
    case NoChange => field
    case Added => if field == Added || field == NoChange then Added else Changed
    case Removed => if field == Removed || field == NoChange then Removed else Changed
  }

  /** The least change that is at least each of these, with `NoChange` below and `Changed` above the other two. */
  function Join(s: set<Change>): Change {
    if Changed in s || (Added in s && Removed in s) then Changed
    else if Added in s then Added
    else if Removed in s then Removed
    else NoChange
  }

  lemma JoinOfUnion(s: set<Change>, t: set<Change>)
    ensures UpdateOverall(Join(s), Join(t)) == Join(s + t)
  {
  }

  // ----- the changes of the leaves -----

  function Get(a: Value, k: string): Value
    requires a.Dict?
  {
    if k in a.entries then a.entries[k] else EMPTY
  }

  function LeafChange(a: Value, k: string, v: Value): Change
    requires a.Dict?
  {
    if Get(a, k) == v then NoChange else if k !in a.entries then Added else Changed
  }

  function KeyChanges(a: Value, b: Value, k: string): set<Change>
    requires a.Dict? && b.Dict? && (k in a.entries || k in b.entries)
    decreases if b == EMPTY then 0 else 1, b, a, 0
  {
    if k in b.entries then
      if b.entries[k].Dict? then Changes(Get(a, k), b.entries[k]) else {LeafChange(a, k, b.entries[k])}
    else if a.entries[k].Dict? then Changes(a.entries[k], EMPTY)
    else {Removed}
  }

  function Changes(a: Value, b: Value): set<Change>
    requires b.Dict?
    decreases if b == EMPTY then 0 else 1, b, a, 1
  {
    if a.Leaf? then {} else
    set k, c | k in a.entries.Keys + b.entries.Keys && c in KeyChanges(a, b, k) :: c
  }

  /** Somewhere a dictionary in `b` meets a value in `a` that is none. */
  predicate Raises(a: Value, b: Value)
    requires b.Dict?
    decreases b
  {
    a.Leaf? || exists k | k in b.entries :: b.entries[k].Dict? && Raises(Get(a, k), b.entries[k])
  }

  // ----- the traversal -----

  ghost function ChangesOf(a: Value, b: Value, keys: set<string>): set<Change>
    requires a.Dict? && b.Dict? && keys <= a.entries.Keys + b.entries.Keys
  {
    set k, c | k in keys && c in KeyChanges(a, b, k) :: c
  }

  lemma OneMoreKey(a: Value, b: Value, keys: set<string>, k: string)
    requires a.Dict? && b.Dict? && keys <= a.entries.Keys + b.entries.Keys && (k in a.entries || k in b.entries)
    ensures ChangesOf(a, b, keys + {k}) == ChangesOf(a, b, keys) + KeyChanges(a, b, k)
  {
    hide KeyChanges;
  }

  predicate RaisesAt(a: Value, b: Value, k: string)
    requires a.Dict? && b.Dict? && k in b.entries
  {
    b.entries[k].Dict? && Raises(Get(a, k), b.entries[k])
  }

  lemma RaisesSomewhere(a: Value, b: Value)
    requires a.Dict? && b.Dict?
    ensures Raises(a, b) <==> exists k :: k in b.entries && RaisesAt(a, b, k)
  {
    if Raises(a, b) {
      var k :| k in b.entries && b.entries[k].Dict? && Raises(Get(a, k), b.entries[k]);
      assert RaisesAt(a, b, k);
    }
  }

  lemma RemovalNeverRaises(a: Value)
    requires a.Dict?
    ensures !Raises(a, EMPTY)
  {
  }

  method ChangeAtKeyOfB(a: Value, b: Value, k: string) returns (r: Result<Change, AttributeError>)
    requires a.Dict? && b.Dict? && k in b.entries
    ensures r == if RaisesAt(a, b, k) then Err(NotADictionary) else Ok(Join(KeyChanges(a, b, k)))
    decreases if b == EMPTY then 0 else 1, b, a, 0
  {
    KeyOfB(a, b, k);
    var v1 := b.entries[k];
    if v1.Dict? {
      r := DictChange(Get(a, k), v1);
    } else {
      r := Ok(LeafChange(a, k, v1));
    }
  }

  method ChangeAtKeyOfA(a: Value, b: Value, k: string) returns (change: Change)
    requires a.Dict? && b.Dict? && k in a.entries && k !in b.entries
    ensures change == Join(KeyChanges(a, b, k))
    decreases if b == EMPTY then 0 else 1, b, a, 0
  {
    KeyOfA(a, b, k);
    var v0 := a.entries[k];
    change := Removed;
    if v0.Dict? {
      RemovalNeverRaises(v0);
      var r := DictChange(v0, EMPTY);
      change := r.value;
    }
  }

  /** Whatever the order in which the keys come, the result is the join of all changes, or an error. */
  method DictChange(a: Value, b: Value) returns (r: Result<Change, AttributeError>)
    requires b.Dict?
    ensures r == if Raises(a, b) then Err(NotADictionary) else Ok(Join(Changes(a, b)))
    decreases if b == EMPTY then 0 else 1, b, a, 2
  {
    hide Join, UpdateOverall, KeyChanges, Raises, RaisesAt, ChangesOf, Changes;
    if a.Leaf? {
      LeafRaises(a, b);
      return Err(NotADictionary);
    }
    RaisesSomewhere(a, b);
    var overall := NoChange;
    ghost var done: set<string> := {};
    NothingSeen(a, b);
    var rest := b.entries.Keys;
    while rest != {}
      invariant rest <= b.entries.Keys && done == b.entries.Keys - rest
      invariant forall k :: k in done ==> !RaisesAt(a, b, k)
      invariant overall == Join(ChangesOf(a, b, done))
    {
      var k :| k in rest;
      rest := rest - {k};
      var change :- ChangeAtKeyOfB(a, b, k);
      OneMoreKey(a, b, done, k);
      JoinOfUnion(ChangesOf(a, b, done), KeyChanges(a, b, k));
      overall, done := UpdateOverall(overall, change), done + {k};
    }
    assert done == b.entries.Keys;
    overall := RemovedKeys(a, b, overall);
    return Ok(overall);
  }

  /** The second loop: the keys of `a` that `b` does not have. */
  method RemovedKeys(a: Value, b: Value, soFar: Change) returns (overall: Change)
    requires a.Dict? && b.Dict? && soFar == Join(ChangesOf(a, b, b.entries.Keys))
    ensures overall == Join(Changes(a, b))
    decreases if b == EMPTY then 0 else 1, b, a, 1
  {
    hide Join, UpdateOverall, KeyChanges, ChangesOf, Changes;
    overall := soFar;
    var rest := a.entries.Keys;
    ghost var done := b.entries.Keys;
    while rest != {}
      invariant rest <= a.entries.Keys && done == a.entries.Keys - rest + b.entries.Keys
      invariant overall == Join(ChangesOf(a, b, done))
    {
      var k :| k in rest;
      rest := rest - {k};
      if k !in b.entries {
        var change := ChangeAtKeyOfA(a, b, k);
        OneMoreKey(a, b, done, k);
        JoinOfUnion(ChangesOf(a, b, done), KeyChanges(a, b, k));
        overall := UpdateOverall(overall, change);
      } else {
        assert done + {k} == done;
      }
      done := done + {k};
    }
    assert done == a.entries.Keys + b.entries.Keys;
    AllSeen(a, b);
  }

  lemma LeafRaises(a: Value, b: Value)
    requires a.Leaf? && b.Dict?
    ensures Raises(a, b)
  {
  }

  lemma NothingSeen(a: Value, b: Value)
    requires a.Dict? && b.Dict?
    ensures Join(ChangesOf(a, b, {})) == NoChange
  {
  }

  lemma AllSeen(a: Value, b: Value)
    requires a.Dict? && b.Dict?
    ensures ChangesOf(a, b, a.entries.Keys + b.entries.Keys) == Changes(a, b)
  {
    hide KeyChanges;
  }

  lemma KeyOfB(a: Value, b: Value, k: string)
    requires a.Dict? && b.Dict? && k in b.entries
    ensures var v := b.entries[k];
            Join(KeyChanges(a, b, k)) == if v.Dict? then Join(Changes(Get(a, k), v)) else LeafChange(a, k, v)
  {
  }

  lemma KeyOfA(a: Value, b: Value, k: string)
    requires a.Dict? && b.Dict? && k in a.entries && k !in b.entries
    ensures var v := a.entries[k];
            Join(KeyChanges(a, b, k)) == if v.Dict? then Join(Changes(v, EMPTY)) else Removed
  {
  }

  // ----- what the changes are, by the places of the leaves -----

  datatype Lookup = Found(value: Value) | Missing | Blocked

  /** The value at a path of keys; the path is missing when a key is, and blocked when it goes on below a leaf. */
  function At(v: Value, path: seq<string>): Lookup {
    if path == [] then Found(v)
    else if v.Leaf? then Blocked
    else if path[0] !in v.entries then Missing
    else At(v.entries[path[0]], path[1..])
  }

  predicate HasLeaf(v: Value, path: seq<string>) {
    At(v, path).Found? && At(v, path).value.Leaf?
  }

  function LeafAt(v: Value, path: seq<string>): Option<string> {
    if HasLeaf(v, path) then Some(At(v, path).value.text) else None
  }

  /** A leaf of `b` is new or not the same, or a leaf of `a` is gone. */
  predicate ChangesAt(a: Value, b: Value, path: seq<string>, c: Change) {
    match c
    case Added => HasLeaf(b, path) && At(a, path).Missing?
    case Changed => HasLeaf(b, path) && At(a, path).Found? && At(a, path) != At(b, path)
    case Removed => HasLeaf(a, path) && At(b, path).Missing?
    case NoChange => HasLeaf(b, path) && At(a, path) == At(b, path)
  }

  /** At this path a dictionary in `b` meets a leaf in `a`. */
  predicate Conflict(a: Value, b: Value, path: seq<string>) {
    HasLeaf(a, path) && At(b, path).Found? && At(b, path).value.Dict?
  }

  lemma AtKey(v: Value, k: string, rest: seq<string>)
    requires v.Dict?
    ensures At(v, [k] + rest) == if k in v.entries then At(v.entries[k], rest) else Missing
  {
    assert ([k] + rest)[1..] == rest;
  }

  /** A path for every change. */
  lemma {:induction false} PathOfChange(a: Value, b: Value, c: Change) returns (path: seq<string>)
    requires b.Dict? && c in Changes(a, b)
    ensures ChangesAt(a, b, path, c)
    decreases if b == EMPTY then 0 else 1, b, a
  {
    hide At;
    var k :| (k in a.entries || k in b.entries) && c in KeyChanges(a, b, k);
    var rest := [];
    if k in b.entries && b.entries[k].Dict? {
      rest := PathOfChange(Get(a, k), b.entries[k], c);
    } else if k !in b.entries && a.entries[k].Dict? {
      rest := PathOfChange(a.entries[k], EMPTY, c);
    }
    path := [k] + rest;
    AtKey(a, k, rest);
    AtKey(b, k, rest);
    AtTheTop(Get(a, k), rest);
    if k in b.entries { AtTheTop(b.entries[k], rest); }
    AtTheTop(EMPTY, rest);
  }

  lemma AtTheTop(v: Value, path: seq<string>)
    ensures path == [] ==> At(v, path) == Found(v)
    ensures path != [] && v == EMPTY ==> At(v, path) == Missing
    ensures path != [] && v.Leaf? ==> At(v, path) == Blocked
  {
  }

  /** A change for every path. */
  lemma {:induction false} ChangeOfPath(a: Value, b: Value, path: seq<string>, c: Change)
    requires b.Dict? && !Raises(a, b) && ChangesAt(a, b, path, c)
    ensures c in Changes(a, b)
    decreases path
  {
    AtTheTop(a, path);
    AtTheTop(b, path);
    var k, rest := path[0], path[1..];
    assert path == [k] + rest;
    AtKey(a, k, rest);
    AtKey(b, k, rest);
    RaisesSomewhere(a, b);
    hide At;
    assert k in a.entries || k in b.entries;
    AtTheTop(Get(a, k), rest);
    AtTheTop(EMPTY, rest);
    if k in b.entries { AtTheTop(b.entries[k], rest); }
    if k in b.entries && b.entries[k].Dict? {
      assert !RaisesAt(a, b, k);
      ChangeOfPath(Get(a, k), b.entries[k], rest, c);
    } else if k !in b.entries && a.entries[k].Dict? {
      RemovalNeverRaises(a.entries[k]);
      ChangeOfPath(a.entries[k], EMPTY, rest, c);
    }
    assert c in KeyChanges(a, b, k);
  }

  ghost predicate Occurs(a: Value, b: Value, c: Change) {
    exists path :: ChangesAt(a, b, path, c)
  }

  /** The overall change, from the leaves alone. */
  lemma OverallByLeaves(a: Value, b: Value)
    requires b.Dict? && !Raises(a, b)
    ensures Join(Changes(a, b)) ==
            if Occurs(a, b, Changed) || (Occurs(a, b, Added) && Occurs(a, b, Removed)) then Changed
            else if Occurs(a, b, Added) then Added
            else if Occurs(a, b, Removed) then Removed
            else NoChange
  {
    forall c ensures Occurs(a, b, c) <==> c in Changes(a, b) {
      if c in Changes(a, b) {
        var path := PathOfChange(a, b, c);
      }
      if Occurs(a, b, c) {
        var path :| ChangesAt(a, b, path, c);
        ChangeOfPath(a, b, path, c);
      }
    }
  }

  lemma {:induction false} ConflictOfRaise(a: Value, b: Value) returns (path: seq<string>)
    requires b.Dict? && Raises(a, b)
    ensures Conflict(a, b, path)
    decreases b
  {
    hide At;
    if a.Leaf? {
      path := [];
      AtTheTop(a, []);
      AtTheTop(b, []);
    } else {
      var k :| k in b.entries && b.entries[k].Dict? && Raises(Get(a, k), b.entries[k]);
      var rest := ConflictOfRaise(Get(a, k), b.entries[k]);
      path := [k] + rest;
      AtKey(a, k, rest);
      AtKey(b, k, rest);
      AtTheTop(Get(a, k), rest);
    }
  }

  lemma {:induction false} RaiseOfConflict(a: Value, b: Value, path: seq<string>)
    requires b.Dict? && Conflict(a, b, path)
    ensures Raises(a, b)
    decreases path
  {
    if path != [] {
      AtTheTop(b.entries[path[0]], path[1..]);
      RaiseOfConflict(a.entries[path[0]], b.entries[path[0]], path[1..]);
    }
  }

  /** The comparison fails exactly when at some path a dictionary in `b` meets a leaf in `a`. */
  lemma RaisesByConflict(a: Value, b: Value)
    requires b.Dict?
    ensures Raises(a, b) <==> exists path :: Conflict(a, b, path)
  {
    if Raises(a, b) {
      var path := ConflictOfRaise(a, b);
    }
    if path :| Conflict(a, b, path) {
      RaiseOfConflict(a, b, path);
    }
  }

  lemma {:induction false} LeafAbove(v: Value, w: Value, path: seq<string>) returns (above: seq<string>)
    requires At(v, path).Blocked? && At(w, path).Found?
    ensures HasLeaf(v, above) && At(w, above).Found? && At(w, above).value.Dict?
    decreases path
  {
    if v.Leaf? {
      above := [];
    } else {
      var rest := LeafAbove(v.entries[path[0]], w.entries[path[0]], path[1..]);
      above := [path[0]] + rest;
      AtKey(v, path[0], rest);
      AtKey(w, path[0], rest);
    }
  }

  /** There is no change exactly when both have the same leaves at the same paths: a dictionary that is missing is the
      same as an empty one. */
  lemma NoChangeIsSameLeaves(a: Value, b: Value)
    requires b.Dict? && !Raises(a, b)
    ensures Join(Changes(a, b)) == NoChange <==> forall path :: LeafAt(a, path) == LeafAt(b, path)
  {
    OverallByLeaves(a, b);
    RaisesByConflict(a, b);
    hide At, Join, Changes, Raises;
    forall path | LeafAt(a, path) != LeafAt(b, path)
      ensures Occurs(a, b, Added) || Occurs(a, b, Changed) || Occurs(a, b, Removed)
    {
      DifferentLeaf(a, b, path);
    }
    if c, path :| c != NoChange && ChangesAt(a, b, path, c) {
      assert LeafAt(a, path) != LeafAt(b, path);
    }
  }

  lemma DifferentLeaf(a: Value, b: Value, path: seq<string>)
    requires LeafAt(a, path) != LeafAt(b, path)
    ensures Occurs(a, b, Added) || Occurs(a, b, Changed) || Occurs(a, b, Removed) || exists p :: Conflict(a, b, p)
  {
    if HasLeaf(b, path) {
      if At(a, path).Missing? {
        assert ChangesAt(a, b, path, Added);
      } else if At(a, path).Found? {
        assert ChangesAt(a, b, path, Changed);
      } else {
        var above := LeafAbove(a, b, path);
        assert Conflict(a, b, above);
      }
    } else if At(b, path).Missing? {
      assert ChangesAt(a, b, path, Removed);
    } else if At(b, path).Blocked? {
      var above := LeafAbove(b, a, path);
      assert ChangesAt(a, b, above, Changed);
    } else {
      assert Conflict(a, b, path);
    }
  }
}
