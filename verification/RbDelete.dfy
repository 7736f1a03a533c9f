/** The repair after a removal: the ways down through x pass one black node
    fewer than those through its sibling. d is the dummy leaf that stands for
    the missing child while the repair runs; it counts as no node at all. */
module RbDeleteFix {
  import opened RbShape
  import opened RbRotate

  ghost predicate Hollow(s: Shape, d: Node?) {
    d != null ==> d in s.cells
                  && s.cells[d].left == null && s.cells[d].right == null && !s.cells[d].red && s.cells[d].aux.bh == 0
  }

  ghost predicate BlackBut(s: Shape, d: Node?, p: Node?) {
    forall m {:trigger BlackAt(s, m)} :: m in s.cells && m != d && m != p ==> BlackAt(s, m)
  }

  ghost predicate Balanced(s: Shape, d: Node?) {
    Linked(s) && RedBut(s, null) && !Red(s, s.root) && Hollow(s, d)
  }

  /** Nothing is left to repair but the dummy. */
  ghost predicate Repaired(s: Shape, d: Node?) { Balanced(s, d) && BlackBut(s, d, null) }

  /** p has x on the given side, and x is one black node short. */
  ghost predicate ShortAt(s: Shape, x: Node, p: Node, side: bool)
    requires p in s.cells
  {
    var c := s.cells[p];
    && Kid(c, side) == x
    && Bh(s, Kid(c, !side)) == Bh(s, x) + 1
    && c.aux.bh == Bh(s, x) + 1 + (if c.red then 0 else 1)
  }

  ghost predicate Short(s: Shape, x: Node, d: Node?) {
    && Balanced(s, d) && x in s.cells && !s.cells[x].red
    && BlackBut(s, d, s.cells[x].parent)
    && (s.cells[x].parent != null ==>
          s.cells[x].parent in s.cells
          && (ShortAt(s, x, s.cells[x].parent, true) || ShortAt(s, x, s.cells[x].parent, false)))
  }

  /** x is short below p, on the given side; y is the sibling. */
  ghost predicate Pair(s: Shape, x: Node, p: Node, y: Node, side: bool, d: Node?) {
    && Short(s, x, d) && s.cells[x].parent == p && p in s.cells && y in s.cells
    && ShortAt(s, x, p, side) && Kid(s.cells[p], !side) == y
  }

  /** A short node has a sibling, and neither it nor the parent is the dummy. */
  lemma SiblingExists(s: Shape, x: Node, d: Node?, side: bool)
    requires Short(s, x, d) && s.cells[x].parent != null && ShortAt(s, x, s.cells[x].parent, side)
    ensures var y := Kid(s.cells[s.cells[x].parent], !side);
            y != null && Pair(s, x, s.cells[x].parent, y, side, d)
  {
    assert LinkAt(s, x) && LinkAt(s, s.cells[x].parent);
  }

  lemma PairFacts(s: Shape, x: Node, p: Node, y: Node, side: bool, d: Node?)
    requires Pair(s, x, p, y, side, d)
    ensures y != d && p != d && x != y && x != p && y != p
    ensures LinkAt(s, x) && LinkAt(s, p) && LinkAt(s, y) && BlackAt(s, y)
    ensures RedAt(s, x, null) && RedAt(s, p, null) && RedAt(s, y, null)
    ensures s.cells[y].parent == p && s.cells[y].aux.bh == s.cells[x].aux.bh + 1
  {
    assert LinkAt(s, x) && LinkAt(s, p);
    assert LinkAt(s, y);
    Apart(s, p);
    assert BlackAt(s, y);
    assert RedAt(s, x, null) && RedAt(s, p, null) && RedAt(s, y, null);
  }

  lemma AtRoot(s: Shape, x: Node, d: Node?)
    requires Short(s, x, d) && s.cells[x].parent == null
    ensures Repaired(s, d)
  {
  }

  // ---- case 3: everything black; the defect moves one level up

  ghost function Sunk(s: Shape, p: Node, y: Node): Shape
    requires p in s.cells && y in s.cells
  {
    Painted(Painted(s, y, true, s.cells[y].aux.bh - 1), p, s.cells[p].red, s.cells[p].aux.bh - 1)
  }

  lemma AllBlack(s: Shape, x: Node, p: Node, y: Node, side: bool, d: Node?)
    requires Pair(s, x, p, y, side, d) && !s.cells[p].red && !s.cells[y].red
    requires !Red(s, s.cells[y].left) && !Red(s, s.cells[y].right)
    ensures Short(Sunk(s, p, y), p, d) && SameItems(s, Sunk(s, p, y))
  {
    PairFacts(s, x, p, y, side, d);
    var s1 := Painted(s, y, true, s.cells[y].aux.bh - 1);
    var t := Sunk(s, p, y);
    PaintedLinked(s, y, true, s.cells[y].aux.bh - 1);
    PaintedLinked(s1, p, false, s.cells[p].aux.bh - 1);
    ItemsTrans(s, s1, t);
    forall m <- t.cells ensures RedAt(t, m, null) {
      assert RedAt(s, m, null) && LinkAt(s, m);
    }
    AllBlackHeights(s, x, p, y, side, d);
    SunkShort(s, x, p, y, side, d);
  }

  lemma AllBlackHeights(s: Shape, x: Node, p: Node, y: Node, side: bool, d: Node?)
    requires Pair(s, x, p, y, side, d) && !s.cells[p].red && !s.cells[y].red
    ensures BlackBut(Sunk(s, p, y), d, s.cells[p].parent)
  {
    PairFacts(s, x, p, y, side, d);
    var t, g := Sunk(s, p, y), s.cells[p].parent;
    Apart(s, p);
    Apart(s, y);
    var s1 := Painted(s, y, true, s.cells[y].aux.bh - 1);
    PaintedLinked(s, y, true, s.cells[y].aux.bh - 1);
    forall m | m in t.cells && m != d && m != g ensures BlackAt(t, m) {
      if m != p && m != y {
        assert BlackAt(s, m);
        PaintedBlackAt(s, y, true, s.cells[y].aux.bh - 1, m);
        PaintedBlackAt(s1, p, false, s.cells[p].aux.bh - 1, m);
      }
    }
  }

  lemma SunkShort(s: Shape, x: Node, p: Node, y: Node, side: bool, d: Node?)
    requires Pair(s, x, p, y, side, d) && !s.cells[p].red && !s.cells[y].red
    ensures var t := Sunk(s, p, y); var g := s.cells[p].parent;
            g != null ==> g in s.cells && (ShortAt(t, p, g, true) || ShortAt(t, p, g, false))
  {
    PairFacts(s, x, p, y, side, d);
    var g := s.cells[p].parent;
    if g != null {
      assert LinkAt(s, g);
      Apart(s, g);
      Apart(s, p);
      assert BlackAt(s, g);
    }
  }

  // ---- case 4: a red parent takes the missing black node

  ghost function Swapped(s: Shape, p: Node, y: Node): Shape
    requires p in s.cells && y in s.cells
  {
    Painted(Painted(s, y, true, s.cells[y].aux.bh - 1), p, false, s.cells[p].aux.bh)
  }

  lemma RedParent(s: Shape, x: Node, p: Node, y: Node, side: bool, d: Node?)
    requires Pair(s, x, p, y, side, d) && s.cells[p].red && !s.cells[y].red
    requires !Red(s, s.cells[y].left) && !Red(s, s.cells[y].right)
    ensures Repaired(Swapped(s, p, y), d) && SameItems(s, Swapped(s, p, y))
  {
    PairFacts(s, x, p, y, side, d);
    var s1 := Painted(s, y, true, s.cells[y].aux.bh - 1);
    var t := Swapped(s, p, y);
    PaintedLinked(s, y, true, s.cells[y].aux.bh - 1);
    PaintedLinked(s1, p, false, s.cells[p].aux.bh);
    ItemsTrans(s, s1, t);
    forall m <- t.cells ensures RedAt(t, m, null) {
      assert RedAt(s, m, null) && LinkAt(s, m);
    }
    RedParentHeights(s, x, p, y, side, d);
  }

  lemma RedParentHeights(s: Shape, x: Node, p: Node, y: Node, side: bool, d: Node?)
    requires Pair(s, x, p, y, side, d) && s.cells[p].red && !s.cells[y].red
    ensures BlackBut(Swapped(s, p, y), d, null)
  {
    PairFacts(s, x, p, y, side, d);
    var s1 := Painted(s, y, true, s.cells[y].aux.bh - 1);
    var t := Swapped(s, p, y);
    PaintedLinked(s, y, true, s.cells[y].aux.bh - 1);
    Apart(s, p);
    Apart(s, y);
    forall m | m in t.cells && m != d ensures BlackAt(t, m) {
      if m != p && m != y {
        assert BlackAt(s, m);
        PaintedBlackAt(s, y, true, s.cells[y].aux.bh - 1, m);
        PaintedBlackAt(s1, p, false, s.cells[p].aux.bh, m);
      }
    }
  }

  // ---- the rotations of cases 2, 5 and 6

  /** A rotation away from the dummy leaves it hollow, and leaves every balance
      but those of the two nodes turned as it was. */
  lemma TurnedKeeps(s: Shape, n: Node, left: bool, nred: bool, rred: bool, d: Node?, p: Node?)
    requires CanRotate(s, n, left) && Hollow(s, d) && d != n && d != Kid(s.cells[n], !left)
    requires forall m {:trigger BlackAt(s, m)} ::
               m in s.cells && m != d && m != p && m != n && m != Kid(s.cells[n], !left) ==> BlackAt(s, m)
    ensures var t := Turned(s, n, left, nred, rred);
            && Hollow(t, d) && t.cells.Keys == s.cells.Keys
            && forall m | m in t.cells && m != d && m != p && m != n && m != Kid(s.cells[n], !left) :: BlackAt(t, m)
  {
    var t := Turned(s, n, left, nred, rred);
    TurnedPair(s, n, left, nred, rred);
    if d != null { TurnedOther(s, n, left, nred, rred, d); }
    forall m | m in t.cells && m != d && m != p && m != n && m != Kid(s.cells[n], !left) ensures BlackAt(t, m) {
      assert BlackAt(s, m);
      TurnedBlackAt(s, n, left, nred, rred, m);
    }
  }

  /** No red pair appears when the node coming up is black, or takes the
      colour of the node going down. */
  lemma TurnedReds(s: Shape, n: Node, left: bool, nred: bool, rred: bool)
    requires CanRotate(s, n, left) && RedBut(s, null) && (rred ==> s.cells[n].red)
    ensures var t := Turned(s, n, left, nred, rred);
            && t.cells.Keys == s.cells.Keys
            && forall m | m in t.cells && m != n && m != Kid(s.cells[n], !left) :: RedAt(t, m, null)
  {
    var t := Turned(s, n, left, nred, rred);
    TurnedPair(s, n, left, nred, rred);
    assert LinkAt(s, n);
    forall m | m in t.cells && m != n && m != Kid(s.cells[n], !left) ensures RedAt(t, m, null) {
      assert RedAt(s, m, null) && LinkAt(s, m);
      TurnedRedAt(s, n, left, nred, rred, m);
    }
  }

  lemma TurnedRoot(s: Shape, n: Node, left: bool, nred: bool, rred: bool)
    requires CanRotate(s, n, left) && !Red(s, s.root) && (rred ==> s.cells[n].red)
    ensures !Red(Turned(s, n, left, nred, rred), Turned(s, n, left, nred, rred).root)
  {
    TurnedPair(s, n, left, nred, rred);
    if s.root != n && s.root != null && s.root != Kid(s.cells[n], !left) {
      TurnedOther(s, n, left, nred, rred, s.root);
    }
    assert LinkAt(s, n);
  }

  /** Case 2: a red sibling comes up; x stays short below the same parent,
      which is now red. */
  lemma RedSibling(s: Shape, x: Node, p: Node, y: Node, side: bool, d: Node?)
    requires Pair(s, x, p, y, side, d) && s.cells[y].red
    ensures var t := Turned(s, p, side, true, false);
            Short(t, x, d) && SameItems(s, t) && t.cells[x].parent == p && t.cells[p].red && ShortAt(t, x, p, side)
  {
    PairFacts(s, x, p, y, side, d);
    var t := Turned(s, p, side, true, false);
    TurnedLinked(s, p, side, true, false);
    TurnedPair(s, p, side, true, false);
    TurnedOther(s, p, side, true, false, x);
    TurnedKeeps(s, p, side, true, false, d, p);
    TurnedReds(s, p, side, true, false);
    TurnedRoot(s, p, side, true, false);
    Apart(s, y);
    assert BlackAt(t, y);
    assert RedAt(t, y, null) && RedAt(t, p, null);
    assert RedBut(t, null);
  }

  /** Case 5: an inner red nephew comes up and becomes the sibling. */
  lemma InnerNephew(s: Shape, x: Node, p: Node, y: Node, i: Node, side: bool, d: Node?)
    requires Pair(s, x, p, y, side, d) && !s.cells[y].red && i in s.cells
    requires Kid(s.cells[y], side) == i && s.cells[i].red && !Red(s, Kid(s.cells[y], !side))
    ensures var t := Turned(s, y, !side, true, false);
            Pair(t, x, p, i, side, d) && SameItems(s, t) && !t.cells[i].red && Kid(t.cells[i], !side) == y && Red(t, y)
  {
    PairFacts(s, x, p, y, side, d);
    assert LinkAt(s, i) && BlackAt(s, i) && RedAt(s, i, null);
    Apart(s, y);
    Apart(s, i);
    var t := Turned(s, y, !side, true, false);
    TurnedLinked(s, y, !side, true, false);
    TurnedPair(s, y, !side, true, false);
    TurnedOther(s, y, !side, true, false, x);
    TurnedOther(s, y, !side, true, false, p);
    TurnedRoot(s, y, !side, true, false);
    InnerHeights(s, x, p, y, i, side, d);
    InnerReds(s, x, p, y, i, side, d);
  }

  lemma InnerHeights(s: Shape, x: Node, p: Node, y: Node, i: Node, side: bool, d: Node?)
    requires Pair(s, x, p, y, side, d) && !s.cells[y].red && i in s.cells
    requires Kid(s.cells[y], side) == i && s.cells[i].red
    ensures BlackBut(Turned(s, y, !side, true, false), d, p) && Hollow(Turned(s, y, !side, true, false), d)
  {
    PairFacts(s, x, p, y, side, d);
    assert LinkAt(s, i) && BlackAt(s, i);
    var t := Turned(s, y, !side, true, false);
    TurnedPair(s, y, !side, true, false);
    TurnedKeeps(s, y, !side, true, false, d, p);
    assert BlackAt(t, y) && BlackAt(t, i);
  }

  lemma InnerReds(s: Shape, x: Node, p: Node, y: Node, i: Node, side: bool, d: Node?)
    requires Pair(s, x, p, y, side, d) && !s.cells[y].red && i in s.cells
    requires Kid(s.cells[y], side) == i && s.cells[i].red && !Red(s, Kid(s.cells[y], !side))
    ensures RedBut(Turned(s, y, !side, true, false), null)
  {
    PairFacts(s, x, p, y, side, d);
    assert LinkAt(s, i) && RedAt(s, i, null);
    var t := Turned(s, y, !side, true, false);
    TurnedPair(s, y, !side, true, false);
    TurnedReds(s, y, !side, true, false);
    assert RedAt(t, y, null) && RedAt(t, i, null);
  }

  // ---- case 6: an outer red nephew pays for the missing black node

  ghost function Paid(s: Shape, o: Node): Shape
    requires o in s.cells
  {
    Painted(s, o, false, s.cells[o].aux.bh + 1)
  }

  lemma PaidFacts(s: Shape, x: Node, p: Node, y: Node, o: Node, side: bool, d: Node?)
    requires Pair(s, x, p, y, side, d) && !s.cells[y].red
    requires Kid(s.cells[y], !side) == o && o in s.cells && s.cells[o].red
    ensures var t := Paid(s, o);
            && CanRotate(t, p, side) && SameItems(s, t) && RedBut(t, null) && !Red(t, t.root) && Hollow(t, d)
            && o != p && o != y && t.cells[p] == s.cells[p] && t.cells[y] == s.cells[y]
            && forall m {:trigger BlackAt(t, m)} :: m in t.cells && m != d && m != p && m != y ==> BlackAt(t, m)
  {
    PairFacts(s, x, p, y, side, d);
    assert LinkAt(s, o) && BlackAt(s, o);
    Apart(s, y);
    Apart(s, o);
    var t := Paid(s, o);
    PaintedLinked(s, o, false, s.cells[o].aux.bh + 1);
    forall m <- t.cells ensures RedAt(t, m, null) { assert RedAt(s, m, null); }
    forall m | m in t.cells && m != d && m != p && m != y ensures BlackAt(t, m) {
      assert BlackAt(s, m);
      if m != o { PaintedBlackAt(s, o, false, s.cells[o].aux.bh + 1, m); }
    }
  }

  lemma OuterNephew(s: Shape, x: Node, p: Node, y: Node, o: Node, side: bool, d: Node?)
    requires Pair(s, x, p, y, side, d) && !s.cells[y].red
    requires Kid(s.cells[y], !side) == o && o in s.cells && s.cells[o].red
    ensures CanRotate(Paid(s, o), p, side)
    ensures var u := Turned(Paid(s, o), p, side, false, s.cells[p].red); Repaired(u, d) && SameItems(s, u)
  {
    PairFacts(s, x, p, y, side, d);
    PaidFacts(s, x, p, y, o, side, d);
    var t, pred := Paid(s, o), s.cells[p].red;
    var u := Turned(t, p, side, false, pred);
    TurnedLinked(t, p, side, false, pred);
    ItemsTrans(s, t, u);
    OuterHeights(s, x, p, y, o, side, d);
    TurnedPair(t, p, side, false, pred);
    TurnedReds(t, p, side, false, pred);
    TurnedRoot(t, p, side, false, pred);
    assert RedAt(u, p, null) && RedAt(u, y, null);
    assert RedBut(u, null);
  }

  lemma OuterHeights(s: Shape, x: Node, p: Node, y: Node, o: Node, side: bool, d: Node?)
    requires Pair(s, x, p, y, side, d) && !s.cells[y].red
    requires Kid(s.cells[y], !side) == o && o in s.cells && s.cells[o].red && CanRotate(Paid(s, o), p, side)
    ensures var u := Turned(Paid(s, o), p, side, false, s.cells[p].red); BlackBut(u, d, null) && Hollow(u, d)
  {
    PaidFacts(s, x, p, y, o, side, d);
    PaidBh(s, x, p, y, o, side, d);
    SettledHeights(Paid(s, o), x, p, y, o, side, d);
  }

  lemma PaidBh(s: Shape, x: Node, p: Node, y: Node, o: Node, side: bool, d: Node?)
    requires Pair(s, x, p, y, side, d) && !s.cells[y].red
    requires Kid(s.cells[y], !side) == o && o in s.cells && s.cells[o].red
    ensures var t := Paid(s, o);
            && p != d && y != d && Kid(t.cells[p], side) == x && Kid(t.cells[p], !side) == y
            && Kid(t.cells[y], !side) == o
            && Bh(t, x) + 1 == t.cells[y].aux.bh == Bh(t, o)
            && Bh(t, Kid(t.cells[y], side)) == Bh(t, x)
            && t.cells[p].aux.bh == t.cells[y].aux.bh + (if s.cells[p].red then 0 else 1)
  {
    PairFacts(s, x, p, y, side, d);
    Apart(s, y);
    assert LinkAt(s, o);
  }

  lemma SettledHeights(t: Shape, x: Node, p: Node, y: Node, o: Node, side: bool, d: Node?)
    requires CanRotate(t, p, side) && Hollow(t, d) && p != d && y != d && y in t.cells
    requires Kid(t.cells[p], side) == x && Kid(t.cells[p], !side) == y && Kid(t.cells[y], !side) == o
    requires Bh(t, x) + 1 == t.cells[y].aux.bh == Bh(t, o) && Bh(t, Kid(t.cells[y], side)) == Bh(t, x)
    requires t.cells[p].aux.bh == t.cells[y].aux.bh + (if t.cells[p].red then 0 else 1)
    requires forall m {:trigger BlackAt(t, m)} :: m in t.cells && m != d && m != p && m != y ==> BlackAt(t, m)
    ensures var u := Turned(t, p, side, false, t.cells[p].red); BlackBut(u, d, null) && Hollow(u, d)
  {
    var pred := t.cells[p].red;
    var u := Turned(t, p, side, false, pred);
    TurnedPair(t, p, side, false, pred);
    TurnedKeeps(t, p, side, false, pred, d, p);
    assert BlackAt(u, p) && BlackAt(u, y);
  }
}

/** The removal repair as the program runs it. */
module RbDeleteRun {
  import opened RbShape
  import opened RbRotate
  import opened RbHeap
  import opened RbDeleteFix

  /** The paints of case 6 in the order of the program. */
  lemma Case6Order(s: Shape, p: Node, y: Node, o: Node, pred: bool)
    requires p in s.cells && y in s.cells && o in s.cells && p != y && p != o && y != o
    ensures var s2 := Painted(Painted(s, y, pred, s.cells[y].aux.bh), p, false, s.cells[p].aux.bh);
            Painted(s2, o, false, s.cells[o].aux.bh + 1)
            == Painted(Painted(Paid(s, o), p, false, s.cells[p].aux.bh), y, pred, s.cells[y].aux.bh)
  {
    PaintsCommute(Painted(s, y, pred, s.cells[y].aux.bh), p, false, s.cells[p].aux.bh, o, false, s.cells[o].aux.bh + 1);
    PaintsCommute(s, y, pred, s.cells[y].aux.bh, o, false, s.cells[o].aux.bh + 1);
    PaintsCommute(Paid(s, o), y, pred, s.cells[y].aux.bh, p, false, s.cells[p].aux.bh);
  }

  method Sibling(t: Tree, node: Node, ghost p: Node, ghost y: Node, ghost side: bool, ghost d: Node?) returns (r: Node)
    requires t.Sync() && Pair(t.view, node, p, y, side, d)
    ensures r == y && node.parent == p && (node == p.left) == side
  {
    PairFacts(t.view, node, p, y, side, d);
    Apart(t.view, p);
    assert t.SyncAt(node) && t.SyncAt(p);
    var parent := node.parent;
    if node == parent.left {
      r := parent.right;
    } else {
      r := parent.left;
    }
  }

  /** The colours and the rotation of case 6. */
  method Settle(t: Tree, parent: Node, sibling: Node, outer: Node, isLeft: bool)
    requires t.Sync() && parent in t.view.cells && sibling in t.view.cells && outer in t.view.cells
    requires parent != sibling && parent != outer && sibling != outer && CanRotate(Paid(t.view, outer), parent, isLeft)
    requires Kid(t.view.cells[parent], !isLeft) == sibling
    modifies t`root, t`view, t.view.cells.Keys
    ensures t.Sync()
    ensures t.view == Turned(Paid(old(t.view), outer), parent, isLeft, false, old(t.view).cells[parent].red)
  {
    ghost var s := t.view;
    assert t.SyncAt(parent);
    Case6Order(s, parent, sibling, outer, parent.red);
    Repainted(Paid(s, outer), parent, isLeft, false, parent.red);
    t.SetColor(sibling, parent.red, s.cells[sibling].aux.bh);
    t.SetColor(parent, false, s.cells[parent].aux.bh);
    t.SetColor(outer, false, s.cells[outer].aux.bh + 1);
    if isLeft {
      t.RotateLeft(parent);
    } else {
      t.RotateRight(parent);
    }
  }

  method DeleteCase6(t: Tree, node: Node, ghost p: Node, ghost y: Node, ghost side: bool, ghost d: Node?)
    requires t.Sync() && Pair(t.view, node, p, y, side, d)
    requires !t.view.cells[y].red && Red(t.view, Kid(t.view.cells[y], !side))
    modifies t`root, t`view, t.view.cells.Keys
    ensures t.Sync() && Repaired(t.view, d) && SameItems(old(t.view), t.view)
  {
    ghost var s := t.view;
    var sibling := Sibling(t, node, p, y, side, d);
    var parent := node.parent;
    assert t.SyncAt(y);
    var isLeft := node == parent.left;
    var outer := if isLeft then sibling.right else sibling.left;
    PairFacts(s, node, p, y, side, d);
    PaidFacts(s, node, p, y, outer, side, d);
    OuterNephew(s, node, p, y, outer, side, d);
    Settle(t, parent, sibling, outer, isLeft);
  }

  method DeleteCase5(t: Tree, node: Node, ghost p: Node, ghost y: Node, ghost side: bool, ghost d: Node?)
    requires t.Sync() && Pair(t.view, node, p, y, side, d) && !t.view.cells[y].red
    requires Red(t.view, t.view.cells[y].left) || Red(t.view, t.view.cells[y].right)
    modifies t`root, t`view, t.view.cells.Keys
    ensures t.Sync() && Repaired(t.view, d) && SameItems(old(t.view), t.view)
  {
    ghost var s := t.view;
    PairFacts(s, node, p, y, side, d);
    var sibling := Sibling(t, node, p, y, side, d);
    var parent := node.parent;
    assert t.SyncAt(y);
    var isLeft := node == parent.left;
    var inner := if isLeft then sibling.left else sibling.right;
    var outer := if isLeft then sibling.right else sibling.left;
    var innerRed := RedNode(t, inner);
    var outerRed := RedNode(t, outer);
    if innerRed && !outerRed {
      TurnNephew(t, node, sibling, inner, isLeft, p, d);
      ghost var s1 := t.view;
      DeleteCase6(t, node, p, inner, side, d);
      ItemsTrans(s, s1, t.view);
    } else {
      DeleteCase6(t, node, p, y, side, d);
    }
  }

  method TurnNephew(t: Tree, node: Node, sibling: Node, inner: Node, isLeft: bool, ghost p: Node, ghost d: Node?)
    requires t.Sync() && Pair(t.view, node, p, sibling, isLeft, d) && !t.view.cells[sibling].red
             && inner in t.view.cells
    requires Kid(t.view.cells[sibling], isLeft) == inner && t.view.cells[inner].red
    requires !Red(t.view, Kid(t.view.cells[sibling], !isLeft))
    modifies t`root, t`view, t.view.cells.Keys
    ensures t.Sync() && Pair(t.view, node, p, inner, isLeft, d) && SameItems(old(t.view), t.view)
    ensures !t.view.cells[inner].red && Red(t.view, Kid(t.view.cells[inner], !isLeft))
  {
    ghost var s := t.view;
    InnerNephew(s, node, p, sibling, inner, isLeft, d);
    Repainted(s, sibling, !isLeft, true, false);
    t.SetColor(sibling, true, s.cells[sibling].aux.bh);
    t.SetColor(inner, false, s.cells[inner].aux.bh);
    if isLeft {
      t.RotateRight(sibling);
    } else {
      t.RotateLeft(sibling);
    }
  }

  /** A missing node counts as black. */
  method RedNode(t: Tree, n: Node?) returns (r: bool)
    requires t.Sync() && (n != null ==> n in t.view.cells)
    ensures r == Red(t.view, n)
  {
    if n == null { return false; }
    assert t.SyncAt(n);
    return n.red;
  }

  /** The colours that cases 3 and 4 look at. */
  method Around(t: Tree, node: Node, ghost p: Node, ghost y: Node, ghost side: bool, ghost d: Node?)
    returns (parent: Node, sibling: Node, parentRed: bool, siblingRed: bool, nephewRed: bool)
    requires t.Sync() && Pair(t.view, node, p, y, side, d)
    ensures parent == p && sibling == y && parentRed == t.view.cells[p].red && siblingRed == t.view.cells[y].red
    ensures nephewRed == (Red(t.view, t.view.cells[y].left) || Red(t.view, t.view.cells[y].right))
  {
    PairFacts(t.view, node, p, y, side, d);
    sibling := Sibling(t, node, p, y, side, d);
    parent := node.parent;
    assert t.SyncAt(p) && t.SyncAt(y);
    var leftRed := RedNode(t, sibling.left);
    var rightRed := RedNode(t, sibling.right);
    parentRed, siblingRed, nephewRed := parent.red, sibling.red, leftRed || rightRed;
  }

  method DeleteCase4(t: Tree, node: Node, ghost p: Node, ghost y: Node, ghost side: bool, ghost d: Node?)
    requires t.Sync() && Pair(t.view, node, p, y, side, d) && !t.view.cells[y].red
    requires t.view.cells[p].red || Red(t.view, t.view.cells[y].left) || Red(t.view, t.view.cells[y].right)
    modifies t`root, t`view, t.view.cells.Keys
    ensures t.Sync() && Repaired(t.view, d) && SameItems(old(t.view), t.view)
  {
    ghost var s := t.view;
    var parent, sibling, parentRed, siblingRed, nephewRed := Around(t, node, p, y, side, d);
    if parentRed && !siblingRed && !nephewRed {
      RedParent(s, node, p, y, side, d);
      t.SetColor(sibling, true, s.cells[y].aux.bh - 1);
      t.SetColor(parent, false, s.cells[p].aux.bh);
    } else {
      DeleteCase5(t, node, p, y, side, d);
    }
  }

  /** climbs counts the recursive calls; each starts one level higher, and there
      is none below a red parent. */
  method DeleteCase3(t: Tree, node: Node, ghost p: Node, ghost y: Node, ghost side: bool, ghost d: Node?)
    returns (ghost climbs: nat)
    requires t.Sync() && Pair(t.view, node, p, y, side, d) && !t.view.cells[y].red
    modifies t`root, t`view, t.view.cells.Keys
    ensures t.Sync() && Repaired(t.view, d) && SameItems(old(t.view), t.view)
    ensures climbs <= Depth(old(t.view), node)
    ensures old(t.view).cells[p].red ==> climbs == 0
    decreases LIMIT + 1 - Width(t.view, node), 0
  {
    ghost var s := t.view;
    var parent, sibling, parentRed, siblingRed, nephewRed := Around(t, node, p, y, side, d);
    if !parentRed && !siblingRed && !nephewRed {
      AllBlack(s, node, p, y, side, d);
      ClimbsOne(s, node, p, y, side, d);
      t.SetColor(sibling, true, s.cells[y].aux.bh - 1);
      t.Tune(p, s.cells[p].aux.bh - 1);
      ghost var s1 := t.view;
      climbs := DeleteCase1(t, parent, d);
      ItemsTrans(s, s1, t.view);
      climbs := climbs + 1;
    } else {
      DeleteCase4(t, node, p, y, side, d);
      climbs := 0;
    }
  }

  lemma ClimbsOne(s: Shape, x: Node, p: Node, y: Node, side: bool, d: Node?)
    requires Pair(s, x, p, y, side, d) && Linked(Sunk(s, p, y))
    ensures Depth(Sunk(s, p, y), p) + 1 == Depth(s, x)
    ensures Width(s, x) < Width(Sunk(s, p, y), p) <= LIMIT + 1
  {
    ParentIsWider(s, x);
    ParentIsWider(s, p);
    var t := Sunk(s, p, y);
    assert t.cells.Keys == s.cells.Keys;
    SameDepth(s, t, p);
  }

  /** y is the other child of the node's parent. */
  ghost predicate SiblingOf(s: Shape, node: Node, y: Node) {
    && node in s.cells && y in s.cells && y != node && s.cells[node].parent in s.cells
    && var p := s.cells[s.cells[node].parent]; (p.left == node && p.right == y) || (p.left == y && p.right == node)
  }

  /** Below a red sibling nothing climbs: its rotation makes the parent red. */
  method DeleteCase2(t: Tree, node: Node, ghost d: Node?) returns (ghost climbs: nat)
    requires t.Sync() && Short(t.view, node, d) && t.view.cells[node].parent != null
    modifies t`root, t`view, t.view.cells.Keys
    ensures t.Sync() && Repaired(t.view, d) && SameItems(old(t.view), t.view)
    ensures climbs <= Depth(old(t.view), node)
    ensures forall y | SiblingOf(old(t.view), node, y) :: old(t.view).cells[y].red ==> climbs == 0
    decreases LIMIT + 1 - Width(t.view, node), 1
  {
    ghost var s := t.view;
    ghost var p := s.cells[node].parent;
    ghost var side := ShortAt(s, node, p, true);
    SiblingExists(s, node, d, side);
    ghost var y := Kid(s.cells[p], !side);
    PairFacts(s, node, p, y, side, d);
    var sibling := Sibling(t, node, p, y, side, d);
    var siblingRed := RedNode(t, sibling);
    if siblingRed {
      TurnSibling(t, node, sibling, p, side, d);
      ghost var s1 := t.view;
      SiblingExists(s1, node, d, side);
      ghost var z := Kid(s1.cells[p], !side);
      PairFacts(s1, node, p, z, side, d);
      climbs := DeleteCase3(t, node, p, z, side, d);
      ItemsTrans(s, s1, t.view);
    } else {
      climbs := DeleteCase3(t, node, p, y, side, d);
    }
  }

  method TurnSibling(t: Tree, node: Node, sibling: Node, ghost p: Node, ghost side: bool, ghost d: Node?)
    requires t.Sync() && Pair(t.view, node, p, sibling, side, d) && t.view.cells[sibling].red
    modifies t`root, t`view, t.view.cells.Keys
    ensures t.Sync() && Short(t.view, node, d) && SameItems(old(t.view), t.view)
    ensures t.view.cells[node].parent == p && ShortAt(t.view, node, p, side) && t.view.cells[p].red
    ensures t.view.cells[node].aux == old(t.view).cells[node].aux
  {
    ghost var s := t.view;
    PairFacts(s, node, p, sibling, side, d);
    assert t.SyncAt(node) && t.SyncAt(p);
    Apart(s, p);
    var parent := node.parent;
    var isLeft := node == parent.left;
    RedSibling(s, node, p, sibling, side, d);
    TurnedOther(s, p, side, true, false, node);
    Repainted(s, p, side, true, false);
    t.SetColor(parent, true, s.cells[p].aux.bh);
    t.SetColor(sibling, false, s.cells[sibling].aux.bh);
    if isLeft {
      t.RotateLeft(parent);
    } else {
      t.RotateRight(parent);
    }
  }

  method DeleteCase1(t: Tree, node: Node, ghost d: Node?) returns (ghost climbs: nat)
    requires t.Sync() && Short(t.view, node, d)
    modifies t`root, t`view, t.view.cells.Keys
    ensures t.Sync() && Repaired(t.view, d) && SameItems(old(t.view), t.view)
    ensures climbs <= Depth(old(t.view), node)
    decreases LIMIT + 1 - Width(t.view, node), 2
  {
    assert t.SyncAt(node);
    if node.parent == null {
      AtRoot(t.view, node, d);
      forall n <- t.view.cells ensures Item(t.view, n, t.view) {}
      return 0;
    }
    climbs := DeleteCase2(t, node, d);
  }
}
