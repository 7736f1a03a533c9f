/** The height of a sound tree: at most twice the logarithm of its size. */
module RbHeight {
  import opened RbShape
  import opened RbHeap

  function Pow2(n: nat): nat
    ensures Pow2(n) >= 1
  {
    if n == 0 then 1 else 2 * Pow2(n - 1)
  }

  lemma {:induction false} Pow2Monotone(a: nat, b: nat)
    requires a <= b
    ensures Pow2(a) <= Pow2(b)
  {
    if a < b { Pow2Monotone(a, b - 1); }
  }

  lemma {:induction false} Pow2Square(a: nat)
    ensures Pow2(2 * a) == Pow2(a) * Pow2(a)
  {
    if a > 0 {
      Pow2Square(a - 1);
      assert Pow2(2 * a) == 4 * Pow2(2 * (a - 1));
    }
  }

  /** Twice the logarithm: 2^steps is at most (size + 1)^2. */
  ghost predicate Short(steps: nat, size: nat) { Pow2(steps) <= (size + 1) * (size + 1) }

  lemma Shorter(a: nat, b: nat, size: nat)
    requires a <= b && Short(b, size)
    ensures Short(a, size)
  {
    Pow2Monotone(a, b);
  }

  /** The nodes whose place lies between two bounds. */
  ghost function Span(s: Shape, lo: int, hi: int): set<Node> {
    set m | m in s.cells && lo < s.cells[m].aux.gk < hi
  }

  lemma SpanSplits(s: Shape, n: Node)
    requires Linked(s) && n in s.cells
    ensures var a := s.cells[n].aux;
            |Span(s, a.lo, a.hi)| == |Span(s, a.lo, a.gk)| + 1 + |Span(s, a.gk, a.hi)|
  {
    var a := s.cells[n].aux;
    assert LinkAt(s, n);
    var l, r := Span(s, a.lo, a.gk), Span(s, a.gk, a.hi);
    forall m | m in s.cells && s.cells[m].aux.gk == a.gk ensures m == n { DistinctPlaces(s, m, n); }
    assert Span(s, a.lo, a.hi) == l + {n} + r;
    assert l !! {n} && (l + {n}) !! r;
  }

  /** A subtree with black height b has at least 2^b - 1 nodes. */
  lemma {:induction false} BlackHeightSize(s: Shape, n: Node)
    requires Sound(s) && n in s.cells
    ensures s.cells[n].aux.bh >= 0
    ensures Pow2(s.cells[n].aux.bh) <= |Span(s, s.cells[n].aux.lo, s.cells[n].aux.hi)| + 1
    decreases Width(s, n)
  {
    var c := s.cells[n];
    assert LinkAt(s, n) && BlackAt(s, n);
    SpanSplits(s, n);
    if c.left != null { assert LinkAt(s, c.left); BlackHeightSize(s, c.left); }
    if c.right != null { assert LinkAt(s, c.right); BlackHeightSize(s, c.right); }
  }

  /** Going down one level uses up at least one of these. */
  ghost function Potential(s: Shape, n: Node): int
    requires n in s.cells
  {
    2 * s.cells[n].aux.bh + (if s.cells[n].red then 1 else 0)
  }

  lemma {:induction false} DepthBound(s: Shape, n: Node)
    requires Sound(s) && n in s.cells
    ensures s.root != null && s.root in s.cells
    ensures Depth(s, n) + Potential(s, n) <= 2 * s.cells[s.root].aux.bh
    decreases LIMIT + 1 - Width(s, n)
  {
    assert LinkAt(s, n);
    ParentIsWider(s, n);
    var p := s.cells[n].parent;
    if p != null {
      DepthBound(s, p);
      assert LinkAt(s, p) && BlackAt(s, p) && RedAt(s, p, null);
    }
  }

  /** There are few levels above and including n. */
  lemma HeightBound(s: Shape, n: Node)
    requires Sound(s) && n in s.cells
    ensures Short(Depth(s, n) + 1, |s.cells|)
  {
    DepthBound(s, n);
    assert LinkAt(s, n) && BlackAt(s, n);
    if s.cells[n].left != null { assert LinkAt(s, s.cells[n].left); }
    var b := s.cells[s.root].aux.bh;
    assert LinkAt(s, s.root);
    assert Depth(s, n) + 1 <= 2 * b;
    Pow2Monotone(Depth(s, n) + 1, 2 * b);
    Pow2Square(b);
    BlackHeightSize(s, s.root);
    SpanInside(s);
    Square(Pow2(b), |s.cells| + 1);
  }

  lemma SpanInside(s: Shape)
    ensures |Span(s, -1, LIMIT)| <= |s.cells|
  {
    SubsetSize(Span(s, -1, LIMIT), s.cells.Keys);
  }

  lemma {:induction false} SubsetSize(a: set<Node>, b: set<Node>)
    requires a <= b
    ensures |a| <= |b|
  {
    assert b == a + (b - a);
  }

  lemma Square(a: nat, b: nat)
    requires a <= b
    ensures a * a <= b * b
  {
    assert b * b - a * a == (b - a) * (b + a);
  }

  lemma {:induction false} KeysOf(s: Shape, m: map<int, Payload>, a: set<Node>, ks: set<int>)
    requires Linked(s) && Holds(s, m) && a <= s.cells.Keys && ks == set n | n in a :: s.cells[n].key
    ensures |ks| == |a|
    decreases |a|
  {
    if a != {} {
      var n :| n in a;
      assert InMap(s, m, n);
      forall x | x in a && s.cells[x].key == s.cells[n].key ensures x == n {
        assert InMap(s, m, x);
        DistinctPlaces(s, x, n);
      }
      KeysOf(s, m, a - {n}, ks - {s.cells[n].key});
    }
  }

  /** The tree has one node for each key. */
  lemma OneNodeEach(s: Shape, m: map<int, Payload>)
    requires Linked(s) && Holds(s, m)
    ensures |s.cells| == |m|
  {
    var ks := set n | n in s.cells.Keys :: s.cells[n].key;
    KeysOf(s, m, s.cells.Keys, ks);
    forall n <- s.cells ensures s.cells[n].key in m { assert InMap(s, m, n); }
    forall k <- m ensures k in ks { assert HasKey(s, k); }
    assert ks == m.Keys;
  }

  lemma FewLevels(s: Shape, m: map<int, Payload>, n: Node)
    requires Sound(s) && Holds(s, m) && n in s.cells
    ensures Short(Depth(s, n) + 1, |m|)
  {
    HeightBound(s, n);
    OneNodeEach(s, m);
  }
}
