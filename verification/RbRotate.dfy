/** Rotations and recolouring: what each writes, and what it keeps. A rotation
    exchanges the black heights of the two nodes it turns. */
module RbRotate {
  import opened RbShape

  ghost function Kid(c: Cell, left: bool): Node? { if left then c.left else c.right }

  ghost function Hung(c: Cell, left: bool, x: Node?): Cell {
    if left then c.(left := x) else c.(right := x)
  }

  /** Whatever pointed at n as a child now points at r. */
  ghost function Relinked(c: Cell, n: Node?, r: Node?): Cell {
    c.(left := if c.left == n then r else c.left, right := if c.right == n then r else c.right)
  }

  ghost function Lowered(c: Cell, left: bool, r: Node, cr: Cell): Cell {
    Hung(c, !left, Kid(cr, left)).(parent := r, aux := LowAux(c.aux, left, cr.aux))
  }

  ghost function LowAux(a: Aux, left: bool, ar: Aux): Aux {
    if left then a.(hi := ar.gk, bh := ar.bh) else a.(lo := ar.gk, bh := ar.bh)
  }

  ghost function Raised(cr: Cell, left: bool, n: Node, c: Cell): Cell {
    Hung(cr, left, n).(parent := c.parent, aux := cr.aux.(lo := c.aux.lo, hi := c.aux.hi, bh := c.aux.bh))
  }

  /** Turns n to the given side; its child on the other side takes its place. */
  ghost function Rotated(s: Shape, n: Node, left: bool): Shape
    requires n in s.cells && Kid(s.cells[n], !left) != null && Kid(s.cells[n], !left) in s.cells
  {
    var c := s.cells[n];
    var r := Kid(c, !left);
    var cr := s.cells[r];
    var b := Kid(cr, left);
    Shape(if s.root == n then r else s.root,
          map m | m in s.cells ::
            if m == n then Lowered(c, left, r, cr)
            else if m == r then Raised(cr, left, n, c)
            else if m == b then s.cells[m].(parent := n)
            else if m == c.parent then Relinked(s.cells[m], n, r)
            else s.cells[m])
  }

  ghost function Painted(s: Shape, n: Node, red: bool, bh: int): Shape
    requires n in s.cells
  {
    var c := s.cells[n];
    s.(cells := s.cells[n := c.(red := red, aux := c.aux.(bh := bh))])
  }

  /** The same nodes hold the same keys and payloads at the same places. */
  ghost predicate SameItems(s: Shape, s': Shape) {
    s'.cells.Keys == s.cells.Keys
    && forall n {:trigger Item(s, n, s')} :: n in s.cells ==> Item(s, n, s')
  }

  ghost predicate Item(s: Shape, n: Node, s': Shape)
    requires n in s.cells && n in s'.cells
  {
    s'.cells[n].key == s.cells[n].key && s'.cells[n].data == s.cells[n].data
    && s'.cells[n].aux.gk == s.cells[n].aux.gk
  }

  lemma ItemsTrans(a: Shape, b: Shape, c: Shape)
    requires SameItems(a, b) && SameItems(b, c)
    ensures SameItems(a, c)
  {
    forall n <- a.cells ensures Item(a, n, c) { assert Item(a, n, b) && Item(b, n, c); }
  }

  ghost predicate CanRotate(s: Shape, n: Node, left: bool) {
    Linked(s) && n in s.cells && Kid(s.cells[n], !left) != null && Kid(s.cells[n], !left) in s.cells
  }

  /** Two children of one node, and a node and its child, are different nodes. */
  lemma Apart(s: Shape, n: Node)
    requires Linked(s) && n in s.cells
    ensures var c := s.cells[n];
            && c.left != n && c.right != n && c.parent != n
            && (c.left != null ==> c.left != c.right && c.left != c.parent)
            && (c.right != null ==> c.right != c.parent)
  {
    var c := s.cells[n];
    assert LinkAt(s, n);
    if c.left != null { assert LinkAt(s, c.left); }
    if c.right != null { assert LinkAt(s, c.right); }
    if c.parent != null { assert LinkAt(s, c.parent); }
  }

  lemma RotatedRoot(s: Shape, n: Node, left: bool)
    requires CanRotate(s, n, left)
    ensures var t := Rotated(s, n, left);
            && (t.root != null ==> t.root in t.cells && t.cells[t.root].parent == null
                                   && t.cells[t.root].aux.lo == -1 && t.cells[t.root].aux.hi == LIMIT)
            && t.root != null && t.cells != map[]
  {
    assert LinkAt(s, n);
    assert LinkAt(s, Kid(s.cells[n], !left));
    Apart(s, n);
    Apart(s, Kid(s.cells[n], !left));
    var t := Rotated(s, n, left);
    assert n in t.cells;
  }

  lemma LoweredLinkAt(s: Shape, n: Node, left: bool)
    requires CanRotate(s, n, left)
    ensures LinkAt(Rotated(s, n, left), n)
  {
    var r := Kid(s.cells[n], !left);
    assert LinkAt(s, n) && LinkAt(s, r);
    Apart(s, n);
    Apart(s, r);
  }

  lemma RaisedLinkAt(s: Shape, n: Node, left: bool)
    requires CanRotate(s, n, left)
    ensures LinkAt(Rotated(s, n, left), Kid(s.cells[n], !left))
  {
    var r := Kid(s.cells[n], !left);
    assert LinkAt(s, n) && LinkAt(s, r);
    Apart(s, n);
    Apart(s, r);
    if s.cells[n].parent != null { assert LinkAt(s, s.cells[n].parent); }
  }

  /** Seen from any other node, its children keep their parent and interval. */
  lemma KidsLinkAt(s: Shape, n: Node, left: bool, m: Node, side: bool)
    requires CanRotate(s, n, left) && m in s.cells && m != n && m != Kid(s.cells[n], !left)
    ensures var t := Rotated(s, n, left); var k := Kid(t.cells[m], side);
            && t.cells[m].aux == s.cells[m].aux
            && (k != null ==> k in t.cells && t.cells[k].parent == m
                              && (|| Kid(s.cells[m], side) == k
                                  || (Kid(s.cells[m], side) == n && k == Kid(s.cells[n], !left)))
                              && t.cells[k].aux.lo == s.cells[Kid(s.cells[m], side)].aux.lo
                              && t.cells[k].aux.hi == s.cells[Kid(s.cells[m], side)].aux.hi)
  {
    var r := Kid(s.cells[n], !left);
    var k := Kid(s.cells[m], side);
    assert LinkAt(s, n) && LinkAt(s, r) && LinkAt(s, m);
    var t := Rotated(s, n, left);
    if k == n {
      assert Kid(t.cells[m], side) == r;
    } else {
      assert Kid(t.cells[m], side) == k;
      if k != null { assert t.cells[k].aux == s.cells[k].aux && t.cells[k].parent == m; }
    }
  }

  lemma ParentLinkAt(s: Shape, n: Node, left: bool, m: Node)
    requires CanRotate(s, n, left) && m in s.cells && m != n && m != Kid(s.cells[n], !left)
    ensures var t := Rotated(s, n, left); var p := t.cells[m].parent;
            && (p == null ==> t.root == m)
            && (p != null ==> p in t.cells && (t.cells[p].left == m || t.cells[p].right == m))
  {
    var r, p := Kid(s.cells[n], !left), s.cells[m].parent;
    assert LinkAt(s, n) && LinkAt(s, r) && LinkAt(s, m);
    var t := Rotated(s, n, left);
    if m == Kid(s.cells[r], left) {
      Apart(s, r);
      assert t.cells[m].parent == n && Kid(t.cells[n], !left) == m;
    } else {
      assert t.cells[m].parent == p;
      if p == n {
        assert Kid(t.cells[n], left) == m;
      } else if p == r {
        assert Kid(t.cells[r], !left) == m;
      } else if p != null {
        assert t.cells[p].left == s.cells[p].left || s.cells[p].left == n;
        assert t.cells[p].right == s.cells[p].right || s.cells[p].right == n;
      }
    }
  }

  lemma RotatedLinkAt(s: Shape, n: Node, left: bool, m: Node)
    requires CanRotate(s, n, left) && m in s.cells
    ensures LinkAt(Rotated(s, n, left), m)
  {
    if m == n { LoweredLinkAt(s, n, left); }
    else if m == Kid(s.cells[n], !left) { RaisedLinkAt(s, n, left); }
    else {
      assert LinkAt(s, m);
      ParentLinkAt(s, n, left, m);
      KidsLinkAt(s, n, left, m, true);
      KidsLinkAt(s, n, left, m, false);
    }
  }

  lemma RotatedItems(s: Shape, n: Node, left: bool)
    requires CanRotate(s, n, left)
    ensures SameItems(s, Rotated(s, n, left))
  {
    var t := Rotated(s, n, left);
    assert t.cells.Keys == s.cells.Keys;
    forall m <- s.cells ensures Item(s, m, t) {}
  }

  lemma RotatedLinked(s: Shape, n: Node, left: bool)
    requires CanRotate(s, n, left)
    ensures Linked(Rotated(s, n, left))
  {
    var t := Rotated(s, n, left);
    RotatedRoot(s, n, left);
    forall m <- t.cells ensures LinkAt(t, m) { RotatedLinkAt(s, n, left, m); }
  }

  // ---- colours and black heights

  /** Away from the two nodes turned, a rotation changes no balance. */
  lemma RotatedBlackAt(s: Shape, n: Node, left: bool, m: Node)
    requires CanRotate(s, n, left) && m in s.cells && m != n && m != Kid(s.cells[n], !left)
    ensures BlackAt(Rotated(s, n, left), m) == BlackAt(s, m)
  {
    var t, r := Rotated(s, n, left), Kid(s.cells[n], !left);
    assert LinkAt(s, m) && LinkAt(s, n) && LinkAt(s, r);
    forall side ensures Bh(t, Kid(t.cells[m], side)) == Bh(s, Kid(s.cells[m], side)) {
      KidBh(s, n, left, m, side);
    }
    assert Kid(t.cells[m], true) == t.cells[m].left && Kid(t.cells[m], false) == t.cells[m].right;
    assert Kid(s.cells[m], true) == s.cells[m].left && Kid(s.cells[m], false) == s.cells[m].right;
  }

  lemma KidBh(s: Shape, n: Node, left: bool, m: Node, side: bool)
    requires CanRotate(s, n, left) && m in s.cells && m != n && m != Kid(s.cells[n], !left)
    ensures var t := Rotated(s, n, left); Bh(t, Kid(t.cells[m], side)) == Bh(s, Kid(s.cells[m], side))
  {
    var t, r, k := Rotated(s, n, left), Kid(s.cells[n], !left), Kid(s.cells[m], side);
    assert LinkAt(s, m) && LinkAt(s, n) && LinkAt(s, r);
    if k == n {
      assert Kid(t.cells[m], side) == r;
    } else {
      assert Kid(t.cells[m], side) == k;
    }
  }

  /** No red pair appears away from the nodes turned, unless the node that
      comes up and its new parent are both red. */
  lemma RotatedRedAt(s: Shape, n: Node, left: bool, m: Node, x: Node?)
    requires CanRotate(s, n, left) && m in s.cells && m != n && m != Kid(s.cells[n], !left)
    requires RedAt(s, m, x)
    requires m == s.cells[n].parent ==> !s.cells[m].red || !Red(s, Kid(s.cells[n], !left))
    ensures RedAt(Rotated(s, n, left), m, x)
  {
    var t, r := Rotated(s, n, left), Kid(s.cells[n], !left);
    assert LinkAt(s, m) && LinkAt(s, n) && LinkAt(s, r);
    var c, d := s.cells[m], t.cells[m];
    assert d.left == c.left || (c.left == n && d.left == r);
    assert d.right == c.right || (c.right == n && d.right == r);
  }

  lemma PaintedLinked(s: Shape, n: Node, red: bool, bh: int)
    requires Linked(s) && n in s.cells && 0 <= bh
    ensures Linked(Painted(s, n, red, bh)) && SameItems(s, Painted(s, n, red, bh))
  {
    var t := Painted(s, n, red, bh);
    assert t.cells.Keys == s.cells.Keys;
    forall m <- t.cells ensures LinkAt(t, m) { assert LinkAt(s, m); }
    forall m <- s.cells ensures Item(s, m, t) {}
  }

  /** Painting a node shows only at the node and its parent. */
  lemma PaintedBlackAt(s: Shape, n: Node, red: bool, bh: int, m: Node)
    requires Linked(s) && n in s.cells && m in s.cells && m != n
    requires bh == s.cells[n].aux.bh || m != s.cells[n].parent
    ensures BlackAt(Painted(s, n, red, bh), m) == BlackAt(s, m)
  {
    assert LinkAt(s, m);
  }

  lemma PaintsCommute(s: Shape, a: Node, ared: bool, abh: int, b: Node, bred: bool, bbh: int)
    requires a in s.cells && b in s.cells && a != b
    ensures Painted(Painted(s, a, ared, abh), b, bred, bbh) == Painted(Painted(s, b, bred, bbh), a, ared, abh)
  {
    var l, r := Painted(Painted(s, a, ared, abh), b, bred, bbh), Painted(Painted(s, b, bred, bbh), a, ared, abh);
    assert l.cells == r.cells;
  }

  // ---- a rotation with both nodes repainted

  ghost function Turned(s: Shape, n: Node, left: bool, nred: bool, rred: bool): Shape
    requires CanRotate(s, n, left)
  {
    var r := Kid(s.cells[n], !left);
    Apart(s, n);
    Rotated(Painted(Painted(s, n, nred, s.cells[n].aux.bh), r, rred, s.cells[r].aux.bh), n, left)
  }

  lemma Repainted(s: Shape, n: Node, left: bool, nred: bool, rred: bool)
    requires CanRotate(s, n, left)
    ensures var r := Kid(s.cells[n], !left);
            var s1 := Painted(s, n, nred, s.cells[n].aux.bh);
            r != n && Linked(s1) && SameItems(s, s1)
            && CanRotate(Painted(s1, r, rred, s.cells[r].aux.bh), n, left)
            && SameItems(s, Painted(s1, r, rred, s.cells[r].aux.bh))
  {
    var r := Kid(s.cells[n], !left);
    Apart(s, n);
    assert LinkAt(s, n) && LinkAt(s, r);
    var s1 := Painted(s, n, nred, s.cells[n].aux.bh);
    PaintedLinked(s, n, nred, s.cells[n].aux.bh);
    PaintedLinked(s1, r, rred, s.cells[r].aux.bh);
    ItemsTrans(s, s1, Painted(s1, r, rred, s.cells[r].aux.bh));
  }

  lemma TurnedLinked(s: Shape, n: Node, left: bool, nred: bool, rred: bool)
    requires CanRotate(s, n, left)
    ensures Linked(Turned(s, n, left, nred, rred)) && SameItems(s, Turned(s, n, left, nred, rred))
  {
    var r := Kid(s.cells[n], !left);
    Repainted(s, n, left, nred, rred);
    var s2 := Painted(Painted(s, n, nred, s.cells[n].aux.bh), r, rred, s.cells[r].aux.bh);
    RotatedLinked(s2, n, left);
    RotatedItems(s2, n, left);
    ItemsTrans(s, s2, Turned(s, n, left, nred, rred));
  }

  /** The two nodes after the turn: their links, and what hangs below them. */
  lemma TurnedPair(s: Shape, n: Node, left: bool, nred: bool, rred: bool)
    requires CanRotate(s, n, left)
    ensures var t := Turned(s, n, left, nred, rred); var r := Kid(s.cells[n], !left);
            var a, b, c := Kid(s.cells[n], left), Kid(s.cells[r], left), Kid(s.cells[r], !left);
            && t.cells.Keys == s.cells.Keys && r != n
            && t.root == (if s.root == n then r else s.root)
            && t.cells[n].red == nred && t.cells[n].aux.bh == s.cells[r].aux.bh && t.cells[n].parent == r
            && Kid(t.cells[n], left) == a && Kid(t.cells[n], !left) == b
            && t.cells[r].red == rred && t.cells[r].aux.bh == s.cells[n].aux.bh
            && t.cells[r].parent == s.cells[n].parent
            && Kid(t.cells[r], left) == n && Kid(t.cells[r], !left) == c
            && Bh(t, a) == Bh(s, a) && Bh(t, b) == Bh(s, b) && Bh(t, c) == Bh(s, c)
            && Red(t, a) == Red(s, a) && Red(t, b) == Red(s, b) && Red(t, c) == Red(s, c)
  {
    var r := Kid(s.cells[n], !left);
    assert LinkAt(s, n) && LinkAt(s, r);
    Apart(s, n);
    Apart(s, r);
    var s2 := Painted(Painted(s, n, nred, s.cells[n].aux.bh), r, rred, s.cells[r].aux.bh);
    var t := Turned(s, n, left, nred, rred);
    assert t.cells.Keys == s2.cells.Keys == s.cells.Keys;
  }

  lemma TurnedOther(s: Shape, n: Node, left: bool, nred: bool, rred: bool, m: Node)
    requires CanRotate(s, n, left) && m in s.cells && m != n && m != Kid(s.cells[n], !left)
    ensures var t := Turned(s, n, left, nred, rred); var r := Kid(s.cells[n], !left);
            && m in t.cells && t.cells[m].aux == s.cells[m].aux && t.cells[m].red == s.cells[m].red
            && t.cells[m].parent == (if m == Kid(s.cells[r], left) then n else s.cells[m].parent)
            && t.cells[m].left == (if s.cells[m].left == n then r else s.cells[m].left)
            && t.cells[m].right == (if s.cells[m].right == n then r else s.cells[m].right)
  {
    var r := Kid(s.cells[n], !left);
    assert LinkAt(s, m) && LinkAt(s, n) && LinkAt(s, r);
  }

  lemma TurnedBlackAt(s: Shape, n: Node, left: bool, nred: bool, rred: bool, m: Node)
    requires CanRotate(s, n, left) && m in s.cells && m != n && m != Kid(s.cells[n], !left)
    ensures m in Turned(s, n, left, nred, rred).cells
    ensures BlackAt(Turned(s, n, left, nred, rred), m) == BlackAt(s, m)
  {
    var r := Kid(s.cells[n], !left);
    Repainted(s, n, left, nred, rred);
    var s1 := Painted(s, n, nred, s.cells[n].aux.bh);
    var s2 := Painted(s1, r, rred, s.cells[r].aux.bh);
    PaintedBlackAt(s, n, nred, s.cells[n].aux.bh, m);
    PaintedBlackAt(s1, r, rred, s.cells[r].aux.bh, m);
    RotatedBlackAt(s2, n, left, m);
  }

  lemma TurnedRedAt(s: Shape, n: Node, left: bool, nred: bool, rred: bool, m: Node)
    requires CanRotate(s, n, left) && m in s.cells && m != n && m != Kid(s.cells[n], !left)
    requires RedAt(s, m, n)
    requires m == s.cells[n].parent ==> !s.cells[m].red || !rred
    ensures m in Turned(s, n, left, nred, rred).cells
    ensures RedAt(Turned(s, n, left, nred, rred), m, null)
  {
    var t, r := Turned(s, n, left, nred, rred), Kid(s.cells[n], !left);
    assert LinkAt(s, m) && LinkAt(s, n) && LinkAt(s, r);
    TurnedOther(s, n, left, nred, rred, m);
    TurnedKid(s, n, left, nred, rred, m, true);
    TurnedKid(s, n, left, nred, rred, m, false);
  }

  lemma TurnedKid(s: Shape, n: Node, left: bool, nred: bool, rred: bool, m: Node, side: bool)
    requires CanRotate(s, n, left) && m in s.cells && m != n && m != Kid(s.cells[n], !left)
    ensures var t := Turned(s, n, left, nred, rred); var k := Kid(s.cells[m], side);
            && m in t.cells
            && Red(t, Kid(t.cells[m], side)) == (if k == n then rred else Red(s, k))
            && (k == n ==> s.cells[n].parent == m)
  {
    var k := Kid(s.cells[m], side);
    assert LinkAt(s, m) && LinkAt(s, n);
    TurnedOther(s, n, left, nred, rred, m);
    if k == n {
      TurnedPair(s, n, left, nred, rred);
    } else if k != null {
      assert LinkAt(s, k);
      TurnedOther(s, n, left, nred, rred, k);
    }
  }
}
