/** Red-black tree nodes with parent links. The shape of a tree is the value of
    all its fields; with it go, for every node, the open interval its subtree
    lies in, its place in the search order and its black height, so that every
    condition speaks about one node and its children. */
module RbShape {

  type Payload = nat

  /** One past the largest key. */
  const LIMIT: int := 0x1_0000_0000

  class Node {
    var parent: Node?
    var left: Node?
    var right: Node?
    var red: bool
    var key32: int
    var data: Payload
    ghost var aux: Aux

    constructor (parent: Node?, key: int, data: Payload, ghost aux: Aux)
      ensures this.parent == parent && left == null && right == null && !red
      ensures key32 == key && this.data == data && this.aux == aux
    {
      this.parent, left, right, red := parent, null, null, false;
      key32, this.data, this.aux := key, data, aux;
    }
  }

  /** gk: place in the search order; lo, hi: bounds of the subtree; bh: black
      nodes on every way down. */
  datatype Aux = Aux(gk: int, lo: int, hi: int, bh: int)

  datatype Cell = Cell(parent: Node?, left: Node?, right: Node?, red: bool, key: int, data: Payload, aux: Aux)

  datatype Shape = Shape(root: Node?, cells: map<Node, Cell>)

  ghost predicate LinkAt(s: Shape, n: Node)
    requires n in s.cells
  {
    var c := s.cells[n];
    && -1 <= c.aux.lo < c.aux.gk < c.aux.hi <= LIMIT && 0 <= c.aux.bh
    && (c.left != null ==>
          c.left in s.cells && s.cells[c.left].parent == n
          && s.cells[c.left].aux.lo == c.aux.lo && s.cells[c.left].aux.hi == c.aux.gk)
    && (c.right != null ==>
          c.right in s.cells && s.cells[c.right].parent == n
          && s.cells[c.right].aux.lo == c.aux.gk && s.cells[c.right].aux.hi == c.aux.hi)
    && (c.parent == null ==> s.root == n)
    && (c.parent != null ==>
          c.parent in s.cells && (s.cells[c.parent].left == n || s.cells[c.parent].right == n))
  }

  /** The cells hang together as one search tree. */
  ghost predicate Linked(s: Shape) {
    && (s.root == null <==> s.cells == map[])
    && (s.root != null ==> s.root in s.cells && s.cells[s.root].parent == null
                           && s.cells[s.root].aux.lo == -1 && s.cells[s.root].aux.hi == LIMIT)
    && forall n {:trigger LinkAt(s, n)} :: n in s.cells ==> LinkAt(s, n)
  }

  ghost function Bh(s: Shape, n: Node?): int { if n != null && n in s.cells then s.cells[n].aux.bh else 0 }

  ghost predicate Red(s: Shape, n: Node?) { n != null && n in s.cells && s.cells[n].red }

  /** Both ways down from n pass the same number of black nodes. */
  ghost predicate BlackAt(s: Shape, n: Node)
    requires n in s.cells
  {
    var c := s.cells[n];
    Bh(s, c.left) == Bh(s, c.right) && c.aux.bh == Bh(s, c.left) + (if c.red then 0 else 1)
  }

  /** n is not a red node with a red child other than x. */
  ghost predicate RedAt(s: Shape, n: Node, x: Node?)
    requires n in s.cells
  {
    var c := s.cells[n];
    c.red ==> (Red(s, c.left) ==> c.left == x) && (Red(s, c.right) ==> c.right == x)
  }

  ghost predicate BlackOk(s: Shape) { forall n {:trigger BlackAt(s, n)} :: n in s.cells ==> BlackAt(s, n) }

  ghost predicate RedBut(s: Shape, x: Node?) { forall n {:trigger RedAt(s, n, x)} :: n in s.cells ==> RedAt(s, n, x) }

  /** A red-black search tree. */
  ghost predicate Sound(s: Shape) {
    Linked(s) && BlackOk(s) && RedBut(s, null) && !Red(s, s.root)
  }

  // ---- search order

  ghost function Width(s: Shape, n: Node): int
    requires n in s.cells
  {
    s.cells[n].aux.hi - s.cells[n].aux.lo
  }

  lemma ParentIsWider(s: Shape, n: Node)
    requires Linked(s) && n in s.cells
    ensures 0 < Width(s, n) <= LIMIT + 1
    ensures s.cells[n].parent != null ==> s.cells[n].parent in s.cells && Width(s, n) < Width(s, s.cells[n].parent)
  {
    assert LinkAt(s, n);
    if s.cells[n].parent != null { assert LinkAt(s, s.cells[n].parent); }
  }

  /** How many links lie between n and the root. */
  ghost function Depth(s: Shape, n: Node): nat
    requires Linked(s) && n in s.cells
    decreases LIMIT + 1 - Width(s, n)
  {
    ParentIsWider(s, n);
    if s.cells[n].parent == null then 0 else 1 + Depth(s, s.cells[n].parent)
  }

  /** Only the parent links matter to the depth. */
  lemma {:induction false} SameDepth(s: Shape, t: Shape, n: Node)
    requires Linked(s) && Linked(t) && n in s.cells && s.cells.Keys <= t.cells.Keys
    requires forall m <- s.cells :: t.cells[m].parent == s.cells[m].parent
    ensures Depth(t, n) == Depth(s, n)
    decreases LIMIT + 1 - Width(s, n)
  {
    ParentIsWider(s, n);
    if s.cells[n].parent != null { SameDepth(s, t, s.cells[n].parent); }
  }

  /** Climbing from m reaches c. */
  ghost predicate Under(s: Shape, m: Node, c: Node)
    requires Linked(s) && m in s.cells
    decreases LIMIT + 1 - Width(s, m)
  {
    ParentIsWider(s, m);
    m == c || (s.cells[m].parent != null && Under(s, s.cells[m].parent, c))
  }

  lemma {:induction false} UnderRoot(s: Shape, m: Node)
    requires Linked(s) && m in s.cells
    ensures s.root != null && Under(s, m, s.root)
    decreases LIMIT + 1 - Width(s, m)
  {
    assert LinkAt(s, m);
    ParentIsWider(s, m);
    if s.cells[m].parent != null { UnderRoot(s, s.cells[m].parent); }
  }

  lemma {:induction false} UnderInterval(s: Shape, m: Node, c: Node)
    requires Linked(s) && m in s.cells && c in s.cells && Under(s, m, c)
    ensures s.cells[c].aux.lo <= s.cells[m].aux.lo && s.cells[m].aux.hi <= s.cells[c].aux.hi
    decreases LIMIT + 1 - Width(s, m)
  {
    if m != c {
      ParentIsWider(s, m);
      assert LinkAt(s, m) && LinkAt(s, s.cells[m].parent);
      UnderInterval(s, s.cells[m].parent, c);
    }
  }

  /** A proper descendant of c is under the child on its side. */
  lemma {:induction false} UnderChild(s: Shape, m: Node, c: Node)
    requires Linked(s) && m in s.cells && c in s.cells && Under(s, m, c)
    ensures var C := s.cells[c]; var k := s.cells[m].aux.gk;
            || m == c
            || (C.left != null && C.left in s.cells && Under(s, m, C.left) && k < C.aux.gk)
            || (C.right != null && C.right in s.cells && Under(s, m, C.right) && k > C.aux.gk)
    decreases LIMIT + 1 - Width(s, m)
  {
    if m != c {
      var p, C := s.cells[m].parent, s.cells[c];
      ParentIsWider(s, m);
      assert LinkAt(s, m) && LinkAt(s, c);
      if p == c {
        assert m == C.left || m == C.right;
      } else {
        UnderChild(s, p, c);
        if C.left != null && Under(s, p, C.left) { UnderInterval(s, m, C.left); }
        else { UnderInterval(s, m, C.right); }
      }
    }
  }

  /** The nodes below c are exactly those whose place lies in c's interval. */
  lemma {:induction false} InInterval(s: Shape, m: Node, c: Node)
    requires Linked(s) && m in s.cells && c in s.cells && s.cells[c].aux.lo < s.cells[m].aux.gk < s.cells[c].aux.hi
    ensures Under(s, m, c)
    decreases LIMIT + 1 - Width(s, c)
  {
    assert LinkAt(s, c);
    ParentIsWider(s, c);
    var p := s.cells[c].parent;
    if p == null {
      UnderRoot(s, m);
    } else {
      assert LinkAt(s, p);
      InInterval(s, m, p);
      UnderChild(s, m, p);
    }
  }

  /** The search step: a node in c's interval is c, or lies in the interval of
      the child on its side. */
  lemma Descend(s: Shape, m: Node, c: Node)
    requires Linked(s) && m in s.cells && c in s.cells && s.cells[c].aux.lo < s.cells[m].aux.gk < s.cells[c].aux.hi
    ensures var C := s.cells[c]; var k := s.cells[m].aux.gk;
            && (k == C.aux.gk ==> m == c)
            && (k < C.aux.gk ==> C.left != null && C.left in s.cells && C.aux.lo < k < s.cells[C.left].aux.hi)
            && (k > C.aux.gk ==> C.right != null && C.right in s.cells && s.cells[C.right].aux.lo < k < C.aux.hi)
  {
    InInterval(s, m, c);
    UnderChild(s, m, c);
    assert LinkAt(s, c);
  }

  lemma DistinctPlaces(s: Shape, m: Node, n: Node)
    requires Linked(s) && m in s.cells && n in s.cells && s.cells[m].aux.gk == s.cells[n].aux.gk
    ensures m == n
  {
    assert LinkAt(s, n);
    Descend(s, m, n);
  }
}
