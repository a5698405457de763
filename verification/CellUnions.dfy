/** Cells of the S2 hierarchy by name. Coverings have cells of one level only; a union in normal form, as the library
    makes it, may have larger ones instead, and the searches compare names. The library itself is not modelled, only
    what it documents of its normal form. */
module CellUnions {
  /** A face and the children passed on the way down from it. `d` below is the length of the names of the one level that
      coverings have, 14 for level 13. */
  type Name = seq<nat>

  predicate IsCell(c: Name, d: nat) {
    1 <= |c| <= d && c[0] < 6 && forall i :: 1 <= i < |c| ==> c[i] < 4
  }

  predicate IsLeaf(c: Name, d: nat) {
    IsCell(c, d) && |c| == d
  }

  function Parent(c: Name): Name
    requires c != []
  {
    c[..|c| - 1]
  }

  ghost predicate AreLeaves(region: set<Name>, d: nat) {
    forall c :: c in region ==> IsLeaf(c, d)
  }

  /** The leaves that the cells contain are those of the region. */
  ghost predicate Covers(cells: set<Name>, region: set<Name>, d: nat) {
    && (forall c :: c in cells ==> IsCell(c, d))
    && forall leaf :: IsLeaf(leaf, d) ==> (leaf in region <==> exists c :: c in cells && c <= leaf)
  }

  /** All four children of the cell are in the set. */
  predicate AllChildren(cells: set<Name>, c: Name) {
    c + [0] in cells && c + [1] in cells && c + [2] in cells && c + [3] in cells
  }

  /** The documented normal form: no cell contains another, and no four cells make up their parent. */
  ghost predicate Normal(cells: set<Name>) {
    && (forall a, b :: a in cells && b in cells && a <= b ==> a == b)
    && (forall c :: c != [] ==> !AllChildren(cells, c))
  }

  /** The cell lies in the region. */
  predicate Inside(region: set<Name>, c: Name, d: nat)
    decreases d - |c|
  {
    if |c| >= d then c in region
    else
      && Inside(region, c + [0], d) && Inside(region, c + [1], d)
      && Inside(region, c + [2], d) && Inside(region, c + [3], d)
  }

  lemma {:induction false} InsideHasLeaves(region: set<Name>, c: Name, d: nat, leaf: Name)
    requires Inside(region, c, d) && IsCell(c, d) && IsLeaf(leaf, d) && c <= leaf
    ensures leaf in region
    decreases d - |c|
  {
    if |c| == d {
      assert leaf == c;
    } else {
      var next := c + [leaf[|c|]];
      assert next <= leaf;
      InsideHasLeaves(region, next, d, leaf);
    }
  }

  lemma {:induction false} InsideByLeaves(region: set<Name>, c: Name, d: nat)
    requires IsCell(c, d) && forall leaf :: IsLeaf(leaf, d) && c <= leaf ==> leaf in region
    ensures Inside(region, c, d)
    decreases d - |c|
  {
    if |c| < d {
      forall k: nat | k < 4 ensures Inside(region, c + [k], d) {
        InsideByLeaves(region, c + [k], d);
      }
    }
  }

  lemma InsideGoesDown(region: set<Name>, a: Name, c: Name, d: nat)
    requires IsCell(a, d) && IsCell(c, d) && a <= c && Inside(region, a, d)
    ensures Inside(region, c, d)
  {
    hide Inside;
    forall leaf | IsLeaf(leaf, d) && c <= leaf ensures leaf in region {
      InsideHasLeaves(region, a, d, leaf);
    }
    InsideByLeaves(region, c, d);
  }

  /** If neither a cell inside the region nor one that contains it is in the union, four children are. */
  lemma {:induction false} ChildrenSomewhere(cells: set<Name>, region: set<Name>, d: nat, c: Name) returns (p: Name)
    requires Covers(cells, region, d) && IsCell(c, d) && Inside(region, c, d)
    requires forall a :: a in cells ==> !(a <= c)
    ensures p != [] && AllChildren(cells, p)
    decreases d - |c|
  {
    if |c| == d {
      assert false;
    }
    p := c;
    if k: nat :| k < 4 && c + [k] !in cells {
      NoneAbove(cells, c, k);
      p := ChildrenSomewhere(cells, region, d, c + [k]);
    }
  }

  lemma NoneAbove(cells: set<Name>, c: Name, k: nat)
    requires (forall a :: a in cells ==> !(a <= c)) && c + [k] !in cells
    ensures forall a :: a in cells ==> !(a <= c + [k])
  {
    forall a | a in cells && a <= c + [k] ensures a == c + [k] || a <= c {
      PrefixOfMore(a, c, k);
    }
  }

  lemma PrefixOfMore(a: Name, c: Name, k: nat)
    requires a <= c + [k]
    ensures a == c + [k] || a <= c
  {
  }

  /** A cell inside the region whose parent is not. */
  ghost predicate Maximal(region: set<Name>, c: Name, d: nat) {
    IsCell(c, d) && Inside(region, c, d) && (|c| > 1 ==> !Inside(region, Parent(c), d))
  }

  lemma NoneAboveParent(cells: set<Name>, c: Name)
    requires Normal(cells) && c in cells && c != []
    ensures forall a :: a in cells ==> !(a <= Parent(c))
  {
    forall a | a in cells ensures !(a <= Parent(c)) {
      assert a <= Parent(c) ==> a <= c && |a| < |c|;
    }
  }

  lemma OfNormalIsMaximal(cells: set<Name>, region: set<Name>, d: nat, c: Name)
    requires Covers(cells, region, d) && Normal(cells) && c in cells
    ensures Maximal(region, c, d)
  {
    hide Inside;
    InsideByLeaves(region, c, d);
    if |c| > 1 && Inside(region, Parent(c), d) {
      NoneAboveParent(cells, c);
      var p := ChildrenSomewhere(cells, region, d, Parent(c));
    }
  }

  lemma MaximalIsInNormal(cells: set<Name>, region: set<Name>, d: nat, c: Name)
    requires Covers(cells, region, d) && Normal(cells) && Maximal(region, c, d)
    ensures c in cells
  {
    hide Inside;
    if a :| a in cells && a <= c && a != c {
      assert a <= Parent(c);
      OfNormalIsMaximal(cells, region, d, a);
      InsideGoesDown(region, a, Parent(c), d);
    } else if c !in cells {
      var p := ChildrenSomewhere(cells, region, d, c);
    }
  }

  /** A union in normal form holds exactly the maximal cells inside its region, so it is the only one of that region. */
  lemma NormalIsUnique(a: set<Name>, b: set<Name>, region: set<Name>, d: nat)
    requires Covers(a, region, d) && Normal(a) && Covers(b, region, d) && Normal(b)
    ensures a == b
    ensures forall c :: c in a <==> Maximal(region, c, d)
  {
    hide Covers, Normal, Maximal;
    forall c ensures (c in a <==> Maximal(region, c, d)) && (c in b <==> Maximal(region, c, d)) {
      if c in a { OfNormalIsMaximal(a, region, d, c); }
      if c in b { OfNormalIsMaximal(b, region, d, c); }
      if Maximal(region, c, d) {
        MaximalIsInNormal(a, region, d, c);
        MaximalIsInNormal(b, region, d, c);
      }
    }
  }

  // ----- searches by name -----

  lemma ParentInside(region: set<Name>, leaf: Name, d: nat)
    requires IsLeaf(leaf, d) && d > 1
    ensures Inside(region, Parent(leaf), d) <==> AllChildren(region, Parent(leaf))
  {
  }

  /** A leaf of the region has its own name in the normal form exactly when one of its siblings is not in the region. */
  lemma FoundByName(cells: set<Name>, region: set<Name>, d: nat, leaf: Name)
    requires Covers(cells, region, d) && Normal(cells) && d > 1 && leaf in region && IsLeaf(leaf, d)
    ensures leaf in cells <==> !AllChildren(region, Parent(leaf))
  {
    hide Covers, Normal, AllChildren;
    NormalIsUnique(cells, cells, region, d);
    ParentInside(region, leaf, d);
  }

  lemma LeafOfUnion(cells: set<Name>, region: set<Name>, d: nat, c: Name)
    requires Covers(cells, region, d) && IsLeaf(c, d) && c in cells
    ensures c in region
  {
    assert c <= c;
  }

  /** A subscription with cells `area` that was widened by `u`: a search by the names of a covering `v` finds it exactly
      when `v` has one of its cells and not all siblings of this are among them. */
  lemma WidenedIsFound(cells: set<Name>, area: set<Name>, u: set<Name>, v: set<Name>, d: nat)
    requires AreLeaves(area, d) && AreLeaves(u, d) && AreLeaves(v, d) && d > 1
    requires Covers(cells, area + u, d) && Normal(cells)
    ensures cells * v != {} <==> exists c :: c in v * (area + u) && !AllChildren(area + u, Parent(c))
  {
    hide Normal, AllChildren;
    forall c | c in v ensures c in cells <==> c in area + u && !AllChildren(area + u, Parent(c)) {
      if c in area + u {
        FoundByName(cells, area + u, d, c);
      } else if c in cells {
        LeafOfUnion(cells, area + u, d, c);
      }
    }
    if c :| c in v * (area + u) && !AllChildren(area + u, Parent(c)) {
      assert c in cells * v;
    }
    if cells * v != {} {
      var c :| c in cells * v;
      assert c in v * (area + u);
    }
  }

  /** No search misses it if and only if there are no four siblings among its cells. */
  lemma AlwaysFound(cells: set<Name>, region: set<Name>, d: nat)
    requires AreLeaves(region, d) && d > 1 && Covers(cells, region, d) && Normal(cells)
    ensures (forall v: set<Name> :: AreLeaves(v, d) && v * region != {} ==> cells * v != {}) <==>
            (forall c :: c in region ==> !AllChildren(region, Parent(c)))
  {
    hide Normal, AllChildren, Covers, Parent;
    if forall v: set<Name> :: AreLeaves(v, d) && v * region != {} ==> cells * v != {} {
      forall c | c in region ensures !AllChildren(region, Parent(c)) {
        OneLeaf(region, c, d);
        assert c in {c} * region && {c} * region != {};
        assert cells * {c} != {} && c in cells;
        FoundByName(cells, region, d, c);
      }
    } else {
      var v: set<Name> :| AreLeaves(v, d) && v * region != {} && cells * v == {};
      var c :| c in v * region;
      OneLeaf(region, c, d);
      assert c !in cells * v;
      FoundByName(cells, region, d, c);
    }
  }

  lemma OneLeaf(region: set<Name>, c: Name, d: nat)
    requires AreLeaves(region, d) && c in region
    ensures IsLeaf(c, d) && AreLeaves({c}, d)
  {
  }

  function Siblings(p: Name): set<Name> {
    {p + [0], p + [1], p + [2], p + [3]}
  }

  /** An input: of a cell `p` one level up, a subscription to three children is widened by the fourth. The normal form
      is `p`, and not even a search by the cells of the intent finds it. */
  lemma FourSiblingsAreLost(p: Name, d: nat)
    requires IsCell(p, d) && |p| == d - 1 && d > 1
    ensures Covers({p}, Siblings(p), d) && Normal({p})
    ensures AreLeaves(Siblings(p), d) && {p} * Siblings(p) == {}
  {
    forall leaf | IsLeaf(leaf, d) ensures leaf in Siblings(p) <==> p <= leaf {
      if p <= leaf {
        assert leaf == p + [leaf[d - 1]];
      }
    }
    forall c: Name ensures !AllChildren({p}, c) {
      assert (c + [0])[|c|] != (c + [1])[|c|];
    }
  }

  // ----- the way back to one level -----

  /** What `Levelify` promises: the cells of the one level that the union contains. */
  ghost predicate Levelified(after: set<Name>, cells: set<Name>, d: nat) {
    forall leaf :: leaf in after <==> IsLeaf(leaf, d) && exists c :: c in cells && c <= leaf
  }

  /** The remote ID service goes back to that level before it searches, and so has exactly the cells of both. */
  lemma LevelifyUndoesNormal(after: set<Name>, cells: set<Name>, area: set<Name>, u: set<Name>, d: nat)
    requires AreLeaves(area, d) && AreLeaves(u, d) && Covers(cells, area + u, d) && Levelified(after, cells, d)
    ensures after == area + u
  {
    forall leaf ensures leaf in after <==> leaf in area + u {
    }
  }
}
