/** The tree in memory: nodes that point at each other, changed field by field.
    The ghost field view is the shape they form. */
module RbHeap {
  import opened RbShape
  import opened RbRotate

  ghost function Put(s: Shape, n: Node, c: Cell): Shape { s.(cells := s.cells[n := c]) }

  /** s holds the entries of m, each at its place in the search order. */
  ghost predicate Holds(s: Shape, m: map<int, Payload>) {
    && (forall n {:trigger InMap(s, m, n)} :: n in s.cells ==> InMap(s, m, n))
    && (forall k {:trigger HasKey(s, k)} :: k in m ==> HasKey(s, k))
  }

  ghost predicate InMap(s: Shape, m: map<int, Payload>, n: Node)
    requires n in s.cells
  {
    var c := s.cells[n];
    c.key == c.aux.gk && c.key in m && m[c.key] == c.data
  }

  ghost predicate HasKey(s: Shape, k: int) { exists n :: n in s.cells && s.cells[n].key == k }

  lemma SameItemsHold(s: Shape, t: Shape, m: map<int, Payload>)
    requires SameItems(s, t) && Holds(s, m)
    ensures Holds(t, m)
  {
    forall n <- t.cells ensures InMap(t, m, n) { assert InMap(s, m, n) && Item(s, n, t); }
    forall k <- m ensures HasKey(t, k) {
      assert HasKey(s, k);
      var n :| n in s.cells && s.cells[n].key == k;
      assert Item(s, n, t);
    }
  }

  class Tree {
    var root: Node?
    ghost var view: Shape
    ghost var contents: map<int, Payload>

    constructor ()
      ensures Valid() && contents == map[]
    {
      root, view, contents := null, Shape(null, map[]), map[];
    }

    /** A sound red-black tree that holds exactly the entries of contents. */
    ghost predicate Valid()
      reads this, view.cells.Keys
    {
      Sync() && Sound(view) && Holds(view, contents)
    }

    ghost predicate SyncAt(n: Node)
      reads this`view, n
    {
      n in view.cells && view.cells[n] == Cell(n.parent, n.left, n.right, n.red, n.key32, n.data, n.aux)
    }

    /** view says what is in memory. */
    ghost predicate Sync()
      reads this`root, this`view, view.cells.Keys
    {
      view.root == root && forall n {:trigger SyncAt(n)} :: n in view.cells ==> SyncAt(n)
    }

    /** A node that was outside the tree is now one of its nodes. */
    ghost method Adopt(x: Node)
      requires Sync() && x !in view.cells
      modifies this`view
      ensures Sync() && view == Put(old(view), x, Cell(x.parent, x.left, x.right, x.red, x.key32, x.data, x.aux))
    {
      view := Put(view, x, Cell(x.parent, x.left, x.right, x.red, x.key32, x.data, x.aux));
      forall m <- view.cells ensures SyncAt(m) { assert m != x ==> old(SyncAt(m)); }
    }

    /** A node leaves the tree. */
    ghost method Drop(x: Node)
      requires Sync()
      modifies this`view
      ensures Sync() && view == old(view).(cells := old(view).cells - {x})
    {
      view := view.(cells := view.cells - {x});
      forall m <- view.cells ensures SyncAt(m) { assert old(SyncAt(m)); }
    }

    method SetParent(n: Node, x: Node?)
      requires Sync() && n in view.cells
      modifies this`view, n`parent
      ensures Sync() && view == Put(old(view), n, old(view).cells[n].(parent := x))
    {
      assert SyncAt(n);
      n.parent := x;
      view := Put(view, n, view.cells[n].(parent := x));
      forall m <- view.cells ensures SyncAt(m) { assert old(SyncAt(m)); }
    }

    method SetLeft(n: Node, x: Node?)
      requires Sync() && n in view.cells
      modifies this`view, n`left
      ensures Sync() && view == Put(old(view), n, old(view).cells[n].(left := x))
    {
      assert SyncAt(n);
      n.left := x;
      view := Put(view, n, view.cells[n].(left := x));
      forall m <- view.cells ensures SyncAt(m) { assert old(SyncAt(m)); }
    }

    method SetRight(n: Node, x: Node?)
      requires Sync() && n in view.cells
      modifies this`view, n`right
      ensures Sync() && view == Put(old(view), n, old(view).cells[n].(right := x))
    {
      assert SyncAt(n);
      n.right := x;
      view := Put(view, n, view.cells[n].(right := x));
      forall m <- view.cells ensures SyncAt(m) { assert old(SyncAt(m)); }
    }

    ghost method SetAux(n: Node, a: Aux)
      requires Sync() && n in view.cells
      modifies this`view, n`aux
      ensures Sync() && view == Put(old(view), n, old(view).cells[n].(aux := a))
    {
      assert SyncAt(n);
      n.aux := a;
      view := Put(view, n, view.cells[n].(aux := a));
      forall m <- view.cells ensures SyncAt(m) { assert old(SyncAt(m)); }
    }

    method SetItem(n: Node, key: int, data: Payload)
      requires Sync() && n in view.cells
      modifies this`view, n`key32, n`data
      ensures Sync() && view == Put(old(view), n, old(view).cells[n].(key := key, data := data))
    {
      assert SyncAt(n);
      n.key32, n.data := key, data;
      view := Put(view, n, view.cells[n].(key := key, data := data));
      forall m <- view.cells ensures SyncAt(m) { assert old(SyncAt(m)); }
    }

    method SetData(n: Node, data: Payload)
      requires Sync() && n in view.cells
      modifies this`view, n`data
      ensures Sync() && view == Put(old(view), n, old(view).cells[n].(data := data))
    {
      assert SyncAt(n);
      n.data := data;
      view := Put(view, n, view.cells[n].(data := data));
      forall m <- view.cells ensures SyncAt(m) { assert old(SyncAt(m)); }
    }

    /** Sets a colour; bh is the black height that goes with it. */
    method SetColor(n: Node, red: bool, ghost bh: int)
      requires Sync() && n in view.cells
      modifies this`view, n`red, n`aux
      ensures Sync() && view == Painted(old(view), n, red, bh)
    {
      assert SyncAt(n);
      n.red := red;
      n.aux := n.aux.(bh := bh);
      view := Painted(view, n, red, bh);
      forall m <- view.cells ensures SyncAt(m) { assert old(SyncAt(m)); }
    }

    /** The colour stays; only the black height is written down anew. */
    ghost method Tune(n: Node, bh: int)
      requires Sync() && n in view.cells
      modifies this`view, n`aux
      ensures Sync() && view == Painted(old(view), n, old(view).cells[n].red, bh)
    {
      SetAux(n, view.cells[n].aux.(bh := bh));
    }

    /** The first half of both rotations: the link to n becomes a link to r. */
    method Redirect(n: Node, r: Node?)
      requires Sync() && n in view.cells && LinkAt(view, n)
      modifies this`root, this`view, view.cells.Keys
      ensures Sync() && view == Redirected(old(view), n, r)
    {
      assert SyncAt(n);
      var p := n.parent;
      if p != null {
        assert SyncAt(p);
        if p.left == n {
          SetLeft(p, r);
        } else {
          SetRight(p, r);
        }
      } else {
        root := r;
        view := view.(root := r);
        forall m <- view.cells ensures SyncAt(m) { assert old(SyncAt(m)); }
      }
    }

    /** The places of the two nodes turned. */
    ghost method Retag(n: Node, r: Node, left: bool, a: Aux, ar: Aux)
      requires Sync() && n in view.cells && r in view.cells && n != r
      modifies this`view, n`aux, r`aux
      ensures Sync() && view == Put(Put(old(view), n, old(view).cells[n].(aux := LowAux(a, left, ar))),
                                    r, old(view).cells[r].(aux := ar.(lo := a.lo, hi := a.hi, bh := a.bh)))
    {
      SetAux(n, LowAux(a, left, ar));
      SetAux(r, ar.(lo := a.lo, hi := a.hi, bh := a.bh));
    }

    method RotateLeft(n: Node)
      requires Sync() && CanRotate(view, n, true)
      modifies this`root, this`view, view.cells.Keys
      ensures Sync() && view == Rotated(old(view), n, true)
    {
      ghost var s := view;
      RotationParts(s, n, true);
      assert SyncAt(n);
      var r, p := n.right, n.parent;
      assert SyncAt(r);
      var b := r.left;
      Redirect(n, r);
      SetParent(r, p);
      SetParent(n, r);
      SetRight(n, b);
      if b != null {
        SetParent(b, n);
      }
      SetLeft(r, n);
      Retag(n, r, true, s.cells[n].aux, s.cells[r].aux);
      assert view == Rewired(s, n, true);
      RewiredIsRotated(s, n, true);
    }

    method RotateRight(n: Node)
      requires Sync() && CanRotate(view, n, false)
      modifies this`root, this`view, view.cells.Keys
      ensures Sync() && view == Rotated(old(view), n, false)
    {
      ghost var s := view;
      RotationParts(s, n, false);
      assert SyncAt(n);
      var r, p := n.left, n.parent;
      assert SyncAt(r);
      var b := r.right;
      Redirect(n, r);
      SetParent(r, p);
      SetParent(n, r);
      SetLeft(n, b);
      if b != null {
        SetParent(b, n);
      }
      SetRight(r, n);
      Retag(n, r, false, s.cells[n].aux, s.cells[r].aux);
      assert view == Rewired(s, n, false);
      RewiredIsRotated(s, n, false);
    }
  }

  ghost function Redirected(s: Shape, n: Node, r: Node?): Shape
    requires n in s.cells && (s.cells[n].parent != null ==> s.cells[n].parent in s.cells)
  {
    var p := s.cells[n].parent;
    if p == null then s.(root := r)
    else if s.cells[p].left == n then Put(s, p, s.cells[p].(left := r))
    else Put(s, p, s.cells[p].(right := r))
  }

  ghost predicate Parts(s: Shape, n: Node, left: bool) {
    && n in s.cells && (s.cells[n].parent != null ==> s.cells[n].parent in s.cells)
    && var r := Kid(s.cells[n], !left);
    && r != null && r in s.cells && r != n && r != s.cells[n].parent && n != s.cells[n].parent
    && var b := Kid(s.cells[r], left);
    && b != n && b != r && (b != null ==> b in s.cells && b != s.cells[n].parent)
  }

  lemma RotationParts(s: Shape, n: Node, left: bool)
    requires CanRotate(s, n, left)
    ensures Parts(s, n, left) && LinkAt(s, n)
  {
    var r := Kid(s.cells[n], !left);
    assert LinkAt(s, n) && LinkAt(s, r);
    Apart(s, n);
    Apart(s, r);
    var b := Kid(s.cells[r], left);
    if b != null { assert LinkAt(s, b); }
    if s.cells[n].parent != null { assert LinkAt(s, s.cells[n].parent); }
  }

  /** The writes of a rotation, one after the other. */
  ghost function Rewired(s: Shape, n: Node, left: bool): Shape
    requires Parts(s, n, left)
  {
    var c := s.cells[n];
    var r := Kid(c, !left);
    var cr := s.cells[r];
    var b := Kid(cr, left);
    var s1 := Redirected(s, n, r);
    var s2 := Put(s1, r, s1.cells[r].(parent := c.parent));
    var s3 := Put(s2, n, s2.cells[n].(parent := r));
    var s4 := Put(s3, n, Hung(s3.cells[n], !left, b));
    var s5 := if b == null then s4 else Put(s4, b, s4.cells[b].(parent := n));
    var s6 := Put(s5, r, Hung(s5.cells[r], left, n));
    Put(Put(s6, n, s6.cells[n].(aux := LowAux(c.aux, left, cr.aux))),
        r, s6.cells[r].(aux := cr.aux.(lo := c.aux.lo, hi := c.aux.hi, bh := c.aux.bh)))
  }

  lemma RewiredPair(s: Shape, n: Node, left: bool)
    requires Parts(s, n, left)
    ensures var t := Rewired(s, n, left); var r := Kid(s.cells[n], !left);
            && t.cells.Keys == s.cells.Keys && t.root == (if s.cells[n].parent == null then r else s.root)
            && t.cells[n] == Lowered(s.cells[n], left, r, s.cells[r])
            && t.cells[r] == Raised(s.cells[r], left, n, s.cells[n])
  {
  }

  lemma RewiredOther(s: Shape, n: Node, left: bool, m: Node)
    requires Parts(s, n, left) && m in s.cells && m != n && m != Kid(s.cells[n], !left)
    ensures var t := Rewired(s, n, left); var r := Kid(s.cells[n], !left); var c := s.cells[m];
            && m in t.cells
            && (m == s.cells[n].parent ==> t.cells[m] == if c.left == n then c.(left := r) else c.(right := r))
            && (m == Kid(s.cells[r], left) ==> t.cells[m] == c.(parent := n))
            && (m != s.cells[n].parent && m != Kid(s.cells[r], left) ==> t.cells[m] == c)
  {
  }

  lemma RewiredIsRotated(s: Shape, n: Node, left: bool)
    requires CanRotate(s, n, left) && Parts(s, n, left)
    ensures Rewired(s, n, left) == Rotated(s, n, left)
  {
    var t, u, r := Rewired(s, n, left), Rotated(s, n, left), Kid(s.cells[n], !left);
    assert LinkAt(s, n) && LinkAt(s, r);
    var p := s.cells[n].parent;
    if p != null {
      assert LinkAt(s, p);
      Apart(s, p);
      assert Relinked(s.cells[p], n, r)
          == if s.cells[p].left == n then s.cells[p].(left := r) else s.cells[p].(right := r);
    }
    RewiredPair(s, n, left);
    forall m <- s.cells ensures t.cells[m] == u.cells[m] {
      if m != n && m != r { RewiredOther(s, n, left, m); }
    }
    assert t.cells == u.cells;
  }
}
