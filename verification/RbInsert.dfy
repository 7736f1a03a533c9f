/** The repair after an insertion: the only defect is a red node x whose parent
    is red, or which is the root. */
module RbInsertFix {
  import opened RbShape
  import opened RbRotate

  ghost predicate Unrepaired(s: Shape, x: Node) {
    && Linked(s) && BlackOk(s)
    && x in s.cells && s.cells[x].red && RedBut(s, x)
    && (s.root != x ==> !Red(s, s.root))
  }

  /** x, its parent p and its grandparent g, with p on the given side of g. */
  ghost predicate Family(s: Shape, x: Node, p: Node, g: Node, side: bool) {
    && x in s.cells && p in s.cells && g in s.cells
    && s.cells[x].parent == p && s.cells[p].parent == g
    && Kid(s.cells[g], side) == p
  }

  lemma RootRepaired(s: Shape, x: Node)
    requires Unrepaired(s, x) && s.cells[x].parent == null
    ensures var t := Painted(s, x, false, s.cells[x].aux.bh + 1); Sound(t) && SameItems(s, t)
  {
    var t := Painted(s, x, false, s.cells[x].aux.bh + 1);
    assert LinkAt(s, x);
    PaintedLinked(s, x, false, s.cells[x].aux.bh + 1);
    forall m <- t.cells ensures BlackAt(t, m) && RedAt(t, m, null) {
      assert BlackAt(s, m) && RedAt(s, m, x) && LinkAt(s, m);
      if m != x { PaintedBlackAt(s, x, false, s.cells[x].aux.bh + 1, m); } else { Apart(s, x); }
    }
  }

  lemma BlackParent(s: Shape, x: Node)
    requires Unrepaired(s, x) && s.cells[x].parent != null && !Red(s, s.cells[x].parent)
    ensures Sound(s)
  {
    assert LinkAt(s, x);
    forall m <- s.cells ensures RedAt(s, m, null) {
      assert RedAt(s, m, x) && LinkAt(s, m);
    }
  }

  /** A red parent has a black parent of its own. */
  lemma GrandparentBlack(s: Shape, x: Node)
    requires Unrepaired(s, x) && Red(s, s.cells[x].parent)
    ensures var p := s.cells[x].parent; var g := s.cells[p].parent;
            g != null && g in s.cells && !s.cells[g].red && (Kid(s.cells[g], true) == p || Kid(s.cells[g], false) == p)
  {
    var p := s.cells[x].parent;
    assert LinkAt(s, x) && LinkAt(s, p);
    Apart(s, p);
    Apart(s, x);
    assert p != s.root;
    assert RedAt(s, s.cells[p].parent, x);
  }

  ghost function Recoloured(s: Shape, p: Node, u: Node, g: Node): Shape
    requires p in s.cells && u in s.cells && g in s.cells
  {
    var s1 := Painted(s, p, false, s.cells[p].aux.bh + 1);
    var s2 := Painted(s1, u, false, s.cells[u].aux.bh + 1);
    Painted(s2, g, true, s.cells[g].aux.bh)
  }

  lemma RecolouredLinked(s: Shape, p: Node, u: Node, g: Node)
    requires Linked(s) && p in s.cells && u in s.cells && g in s.cells
    ensures Linked(Recoloured(s, p, u, g)) && SameItems(s, Recoloured(s, p, u, g))
  {
    var s1 := Painted(s, p, false, s.cells[p].aux.bh + 1);
    var s2 := Painted(s1, u, false, s.cells[u].aux.bh + 1);
    var s3 := Painted(s2, g, true, s.cells[g].aux.bh);
    assert LinkAt(s, p) && LinkAt(s, u) && LinkAt(s, g);
    PaintedLinked(s, p, false, s.cells[p].aux.bh + 1);
    PaintedLinked(s1, u, false, s.cells[u].aux.bh + 1);
    PaintedLinked(s2, g, true, s.cells[g].aux.bh);
    ItemsTrans(s, s1, s2);
    ItemsTrans(s, s2, s3);
  }

  /** With a red uncle the defect moves two levels up. */
  lemma UncleRed(s: Shape, x: Node, p: Node, g: Node, side: bool)
    requires Unrepaired(s, x) && Family(s, x, p, g, side) && s.cells[p].red && !s.cells[g].red
    requires Red(s, Kid(s.cells[g], !side))
    ensures Unrepaired(Recoloured(s, p, Kid(s.cells[g], !side), g), g)
  {
    var u := Kid(s.cells[g], !side);
    var t := Recoloured(s, p, u, g);
    RecolouredLinked(s, p, u, g);
    assert LinkAt(s, g) && LinkAt(s, p) && LinkAt(s, u);
    Apart(s, g);
    assert BlackAt(s, g);
    forall m <- t.cells ensures BlackAt(t, m) && RedAt(t, m, g) {
      assert BlackAt(s, m) && RedAt(s, m, x) && LinkAt(s, m);
      Apart(s, m);
    }
  }

  /** An inner child is turned outside, and the defect moves to the old parent. */
  lemma InnerTurned(s: Shape, x: Node, p: Node, g: Node, side: bool)
    requires Unrepaired(s, x) && Family(s, x, p, g, side) && s.cells[p].red && !s.cells[g].red
    requires Kid(s.cells[p], !side) == x
    ensures var t := Rotated(s, p, side);
            && Unrepaired(t, p) && SameItems(s, t)
            && Family(t, p, x, g, side) && t.cells[x].red && !t.cells[g].red && Kid(t.cells[x], side) == p
            && (Red(t, Kid(t.cells[g], !side)) ==> Red(s, Kid(s.cells[g], !side)))
  {
    var t := Rotated(s, p, side);
    RotatedLinked(s, p, side);
    RotatedItems(s, p, side);
    assert LinkAt(s, g) && LinkAt(s, p) && LinkAt(s, x);
    Apart(s, g);
    Apart(s, p);
    Apart(s, x);
    assert BlackAt(s, p) && BlackAt(s, x);
    assert RedAt(s, x, x) && RedAt(s, p, x);
    forall m <- t.cells ensures BlackAt(t, m) {
      assert BlackAt(s, m);
      if m != p && m != x { RotatedBlackAt(s, p, side, m); }
    }
    InnerRed(s, x, p, g, side);
  }

  lemma InnerRed(s: Shape, x: Node, p: Node, g: Node, side: bool)
    requires Unrepaired(s, x) && Family(s, x, p, g, side) && s.cells[p].red && !s.cells[g].red
    requires Kid(s.cells[p], !side) == x
    ensures RedBut(Rotated(s, p, side), p)
  {
    var t := Rotated(s, p, side);
    assert LinkAt(s, g) && LinkAt(s, p) && LinkAt(s, x);
    Apart(s, g);
    Apart(s, p);
    Apart(s, x);
    assert RedAt(s, x, x) && RedAt(s, p, x);
    forall m <- t.cells ensures RedAt(t, m, p) {
      assert RedAt(s, m, x) && LinkAt(s, m);
      if m != p && m != x {
        assert RedAt(s, m, null);
        RotatedRedAt(s, p, side, m, null);
      }
    }
  }

  /** An outer child with a black uncle: recolouring and one rotation finish. */
  lemma OuterTurned(s: Shape, x: Node, p: Node, g: Node, side: bool)
    requires Unrepaired(s, x) && Family(s, x, p, g, side) && s.cells[p].red && !s.cells[g].red
    requires Kid(s.cells[p], side) == x && !Red(s, Kid(s.cells[g], !side))
    ensures Sound(Turned(s, g, !side, true, false)) && SameItems(s, Turned(s, g, !side, true, false))
  {
    var t := Turned(s, g, !side, true, false);
    TurnedLinked(s, g, !side, true, false);
    TurnedPair(s, g, !side, true, false);
    assert LinkAt(s, g) && LinkAt(s, p) && LinkAt(s, x);
    assert BlackAt(s, g) && BlackAt(s, p) && RedAt(s, p, x);
    forall m <- t.cells ensures BlackAt(t, m) && RedAt(t, m, null) {
      assert BlackAt(s, m) && RedAt(s, m, x) && LinkAt(s, m);
      if m != p && m != g {
        TurnedBlackAt(s, g, !side, true, false, m);
        TurnedRedAt(s, g, !side, true, false, m);
      }
    }
    if s.root != g { TurnedOther(s, g, !side, true, false, s.root); }
  }
}

/** The insertion repair as the program runs it. */
module RbInsertRun {
  import opened RbShape
  import opened RbRotate
  import opened RbHeap
  import opened RbInsertFix

  /** x and its parent are red, the grandparent is black. */
  ghost predicate RedPair(s: Shape, x: Node, p: Node, g: Node, side: bool) {
    Unrepaired(s, x) && Family(s, x, p, g, side) && s.cells[p].red && !s.cells[g].red
  }

  method InsertCase5(t: Tree, node: Node, ghost p: Node, ghost g: Node, ghost side: bool)
    requires t.Sync() && RedPair(t.view, node, p, g, side)
    requires Kid(t.view.cells[p], side) == node && !Red(t.view, Kid(t.view.cells[g], !side))
    modifies t`root, t`view, t.view.cells.Keys
    ensures t.Sync() && Sound(t.view) && SameItems(old(t.view), t.view)
  {
    ghost var s := t.view;
    assert t.SyncAt(node) && t.SyncAt(p) && t.SyncAt(g);
    assert LinkAt(s, g) && LinkAt(s, p);
    Apart(s, g);
    Apart(s, p);
    var parent := node.parent;
    var grandparent := parent.parent;
    var outerLeft := node == parent.left && parent == grandparent.left;
    assert outerLeft == side;
    OuterTurned(s, node, p, g, side);
    PaintsCommute(s, p, false, s.cells[p].aux.bh, g, true, s.cells[g].aux.bh);
    Repainted(s, g, !side, true, false);
    t.SetColor(parent, false, s.cells[p].aux.bh);
    t.SetColor(grandparent, true, s.cells[g].aux.bh);
    if outerLeft {
      t.RotateRight(grandparent);
    } else {
      t.RotateLeft(grandparent);
    }
  }

  method InsertCase4(t: Tree, node: Node, ghost p: Node, ghost g: Node, ghost side: bool)
    requires t.Sync() && RedPair(t.view, node, p, g, side)
    requires !Red(t.view, Kid(t.view.cells[g], !side))
    modifies t`root, t`view, t.view.cells.Keys
    ensures t.Sync() && Sound(t.view) && SameItems(old(t.view), t.view)
  {
    ghost var s := t.view;
    assert t.SyncAt(node) && t.SyncAt(p) && t.SyncAt(g);
    assert LinkAt(s, node) && LinkAt(s, g) && LinkAt(s, p);
    Apart(s, g);
    Apart(s, p);
    var parent := node.parent;
    var grandparent := parent.parent;
    if node == parent.right && parent == grandparent.left {
      InnerTurned(s, node, p, g, side);
      t.RotateLeft(parent);
      assert t.SyncAt(node);
      InsertCase5(t, node.left, node, g, side);
      ItemsTrans(s, Rotated(s, p, side), t.view);
    } else if node == parent.left && parent == grandparent.right {
      InnerTurned(s, node, p, g, side);
      t.RotateRight(parent);
      assert t.SyncAt(node);
      InsertCase5(t, node.right, node, g, side);
      ItemsTrans(s, Rotated(s, p, side), t.view);
    } else {
      InsertCase5(t, node, p, g, side);
    }
  }

  method Recolour(t: Tree, parent: Node, uncle: Node, grandparent: Node)
    requires t.Sync() && parent in t.view.cells && uncle in t.view.cells && grandparent in t.view.cells
    modifies t`view, parent, uncle, grandparent
    ensures t.Sync() && t.view == Recoloured(old(t.view), parent, uncle, grandparent)
  {
    ghost var s := t.view;
    t.SetColor(parent, false, s.cells[parent].aux.bh + 1);
    t.SetColor(uncle, false, s.cells[uncle].aux.bh + 1);
    t.SetColor(grandparent, true, s.cells[grandparent].aux.bh);
  }

  lemma ClimbsTwo(s: Shape, x: Node, p: Node, u: Node, g: Node)
    requires Linked(s) && x in s.cells && p in s.cells && u in s.cells && g in s.cells
    requires s.cells[x].parent == p && s.cells[p].parent == g && Linked(Recoloured(s, p, u, g))
    ensures Depth(Recoloured(s, p, u, g), g) + 2 == Depth(s, x)
    ensures Width(Recoloured(s, p, u, g), g) > Width(s, x) && Width(Recoloured(s, p, u, g), g) <= LIMIT + 1
  {
    ParentIsWider(s, x);
    ParentIsWider(s, p);
    ParentIsWider(s, g);
    var t := Recoloured(s, p, u, g);
    assert t.cells.Keys == s.cells.Keys;
    SameDepth(s, t, g);
  }

  /** climbs counts the recursive calls; each starts two levels higher. */
  method InsertCase3(t: Tree, node: Node, ghost p: Node, ghost g: Node, ghost side: bool) returns (ghost climbs: nat)
    requires t.Sync() && RedPair(t.view, node, p, g, side)
    modifies t`root, t`view, t.view.cells.Keys
    ensures t.Sync() && Sound(t.view) && SameItems(old(t.view), t.view)
    ensures 2 * climbs <= Depth(old(t.view), node)
    decreases LIMIT + 1 - Width(t.view, node), 0
  {
    ghost var s := t.view;
    assert t.SyncAt(node) && t.SyncAt(p) && t.SyncAt(g);
    assert LinkAt(s, node) && LinkAt(s, g) && LinkAt(s, p);
    Apart(s, g);
    var parent := node.parent;
    var grandparent := parent.parent;
    var uncle := if parent == grandparent.left then grandparent.right else grandparent.left;
    assert uncle == Kid(s.cells[g], !side);
    if uncle != null { assert t.SyncAt(uncle); }
    if uncle != null && uncle.red {
      UncleRed(s, node, p, g, side);
      RecolouredLinked(s, p, uncle, g);
      ClimbsTwo(s, node, p, uncle, g);
      Recolour(t, parent, uncle, grandparent);
      ghost var s1 := t.view;
      climbs := InsertCase1(t, grandparent);
      ItemsTrans(s, s1, t.view);
      climbs := climbs + 1;
    } else {
      InsertCase4(t, node, p, g, side);
      climbs := 0;
    }
  }

  method InsertCase2(t: Tree, node: Node) returns (ghost climbs: nat)
    requires t.Sync() && Unrepaired(t.view, node) && t.view.cells[node].parent != null
    modifies t`root, t`view, t.view.cells.Keys
    ensures t.Sync() && Sound(t.view) && SameItems(old(t.view), t.view)
    ensures 2 * climbs <= Depth(old(t.view), node)
    decreases LIMIT + 1 - Width(t.view, node), 1
  {
    ghost var s := t.view;
    assert LinkAt(s, node);
    assert t.SyncAt(node) && t.SyncAt(s.cells[node].parent);
    var parent := node.parent;
    if !parent.red {
      BlackParent(s, node);
      return 0;
    }
    GrandparentBlack(s, node);
    ghost var g := s.cells[parent].parent;
    climbs := InsertCase3(t, node, parent, g, Kid(s.cells[g], true) == parent);
  }

  method InsertCase1(t: Tree, node: Node) returns (ghost climbs: nat)
    requires t.Sync() && Unrepaired(t.view, node)
    modifies t`root, t`view, t.view.cells.Keys
    ensures t.Sync() && Sound(t.view) && SameItems(old(t.view), t.view)
    ensures 2 * climbs <= Depth(old(t.view), node)
    decreases LIMIT + 1 - Width(t.view, node), 2
  {
    ghost var s := t.view;
    assert t.SyncAt(node);
    if node.parent == null {
      RootRepaired(s, node);
      t.SetColor(node, false, s.cells[node].aux.bh + 1);
      return 0;
    }
    climbs := InsertCase2(t, node);
  }
}
