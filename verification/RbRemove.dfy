/** Taking a node with at most one child out of the tree: a leaf takes its
    place, either its only child or a dummy. */
module RbRemoveShape {
  import opened RbShape
  import opened RbRotate
  import opened RbDeleteFix

  /** t is s without n: the other nodes keep their keys, payloads and places. */
  ghost predicate Without(s: Shape, n: Node, t: Shape) {
    t.cells.Keys == s.cells.Keys - {n}
    && forall m {:trigger Item(s, m, t)} :: m in t.cells ==> Item(s, m, t)
  }

  /** The leaf c, with cell cc, in the place of n. */
  ghost function Grafted(s: Shape, n: Node, c: Node, cc: Cell): Shape {
    Shape(if s.root == n then c else s.root,
          map m | m in s.cells.Keys - {n} + {c} :: if m == c then cc else Relinked(s.cells[m], n, c))
  }

  /** cc is a leaf that fits n's place, and n has no descendant but c. */
  ghost predicate Fits(s: Shape, n: Node, c: Node, cc: Cell) {
    && Linked(s) && n in s.cells && c != n
    && cc.parent == s.cells[n].parent && cc.left == null && cc.right == null
    && cc.aux.lo == s.cells[n].aux.lo && cc.aux.hi == s.cells[n].aux.hi
    && cc.aux.lo < cc.aux.gk < cc.aux.hi && 0 <= cc.aux.bh
    && (s.cells[n].left == null || s.cells[n].left == c) && (s.cells[n].right == null || s.cells[n].right == c)
    && (c in s.cells ==> s.cells[c].parent == n && s.cells[c].left == null && s.cells[c].right == null)
  }

  lemma GraftedOther(s: Shape, n: Node, c: Node, cc: Cell, m: Node)
    requires Fits(s, n, c, cc) && m in s.cells && m != n && m != c
    ensures var t := Grafted(s, n, c, cc);
            && m in t.cells && LinkAt(s, m) && LinkAt(s, n)
            && (m == cc.parent ==> t.cells[m] == Relinked(s.cells[m], n, c))
            && (m != cc.parent ==> t.cells[m] == s.cells[m])
            && s.cells[m].parent != n
            && s.cells[m].left != c && s.cells[m].right != c
            && (s.cells[m].left == n ==> s.cells[m].right != n)
  {
    assert LinkAt(s, m) && LinkAt(s, n);
    Apart(s, m);
    if c in s.cells { assert LinkAt(s, c); }
  }

  lemma GraftedLinkAt(s: Shape, n: Node, c: Node, cc: Cell, m: Node)
    requires Fits(s, n, c, cc) && m in s.cells && m != n && m != c
    ensures m in Grafted(s, n, c, cc).cells && LinkAt(Grafted(s, n, c, cc), m)
  {
    GraftedOther(s, n, c, cc, m);
    var k := s.cells[m];
    if k.left != null && k.left != n { GraftedOther(s, n, c, cc, k.left); }
    if k.right != null && k.right != n { GraftedOther(s, n, c, cc, k.right); }
    if k.parent != null && k.parent != c { GraftedOther(s, n, c, cc, k.parent); }
  }

  lemma GraftedLinked(s: Shape, n: Node, c: Node, cc: Cell)
    requires Fits(s, n, c, cc)
    ensures Linked(Grafted(s, n, c, cc))
  {
    var t := Grafted(s, n, c, cc);
    assert LinkAt(s, n) && c in t.cells;
    if cc.parent != null { GraftedParent(s, n, c, cc); }
    forall m <- t.cells ensures LinkAt(t, m) {
      if m != c { GraftedLinkAt(s, n, c, cc, m); }
    }
    assert s.root in s.cells && (s.root == n <==> s.cells[n].parent == null);
    if s.root != n { assert s.root != c; GraftedOther(s, n, c, cc, s.root); }
  }

  lemma GraftedParent(s: Shape, n: Node, c: Node, cc: Cell)
    requires Fits(s, n, c, cc) && cc.parent != null
    ensures var p := cc.parent; var t := Grafted(s, n, c, cc);
            p in s.cells && p != n && p != c && p in t.cells && (t.cells[p].left == c || t.cells[p].right == c)
  {
    assert LinkAt(s, n);
    Apart(s, n);
    GraftedOther(s, n, c, cc, cc.parent);
  }

  // ---- colours and heights after the graft

  lemma GraftedBlackAt(s: Shape, n: Node, c: Node, cc: Cell, m: Node)
    requires Fits(s, n, c, cc) && m in s.cells && m != n && m != c
    requires m == cc.parent ==> cc.aux.bh == s.cells[n].aux.bh
    ensures m in Grafted(s, n, c, cc).cells && BlackAt(Grafted(s, n, c, cc), m) == BlackAt(s, m)
  {
    GraftedOther(s, n, c, cc, m);
    var k, t := s.cells[m], Grafted(s, n, c, cc);
    if k.left != null && k.left != n { GraftedOther(s, n, c, cc, k.left); }
    if k.right != null && k.right != n { GraftedOther(s, n, c, cc, k.right); }
    assert Bh(t, t.cells[m].left) == Bh(s, k.left);
    assert Bh(t, t.cells[m].right) == Bh(s, k.right);
  }

  lemma GraftedRedAt(s: Shape, n: Node, c: Node, cc: Cell, m: Node)
    requires Fits(s, n, c, cc) && m in s.cells && m != n && m != c && RedAt(s, m, null) && !cc.red
    ensures m in Grafted(s, n, c, cc).cells && RedAt(Grafted(s, n, c, cc), m, null)
  {
    GraftedOther(s, n, c, cc, m);
    var k, t := s.cells[m], Grafted(s, n, c, cc);
    if k.left != null && k.left != n { GraftedOther(s, n, c, cc, k.left); }
    if k.right != null && k.right != n { GraftedOther(s, n, c, cc, k.right); }
    assert Red(t, t.cells[m].left) ==> Red(s, k.left);
    assert Red(t, t.cells[m].right) ==> Red(s, k.right);
  }

  lemma GraftedReds(s: Shape, n: Node, c: Node, cc: Cell)
    requires Fits(s, n, c, cc) && RedBut(s, null) && !Red(s, s.root) && !cc.red
    ensures var t := Grafted(s, n, c, cc); RedBut(t, null) && !Red(t, t.root)
  {
    var t := Grafted(s, n, c, cc);
    forall m <- t.cells ensures RedAt(t, m, null) {
      if m != c { assert RedAt(s, m, null); GraftedRedAt(s, n, c, cc, m); }
    }
    assert LinkAt(s, n) && s.root in s.cells;
    if s.root != n && s.root != c { GraftedOther(s, n, c, cc, s.root); }
  }

  lemma GraftedItems(s: Shape, n: Node, c: Node, cc: Cell)
    requires Fits(s, n, c, cc) && c in s.cells
    requires cc.key == s.cells[c].key && cc.data == s.cells[c].data && cc.aux.gk == s.cells[c].aux.gk
    ensures Without(s, n, Grafted(s, n, c, cc))
  {
    var t := Grafted(s, n, c, cc);
    forall m <- t.cells ensures Item(s, m, t) {}
  }

  /** An only child is a red leaf, and its parent is black. */
  lemma OnlyChild(s: Shape, n: Node, side: bool)
    requires Sound(s) && n in s.cells && Kid(s.cells[n], !side) == null && Kid(s.cells[n], side) != null
    ensures var c := Kid(s.cells[n], side);
            && !s.cells[n].red && s.cells[n].aux.bh == 1
            && c in s.cells && s.cells[c].red && s.cells[c].left == null && s.cells[c].right == null
            && s.cells[c].parent == n && s.cells[c].aux.bh == 0
  {
    var c := Kid(s.cells[n], side);
    assert LinkAt(s, n) && BlackAt(s, n) && RedAt(s, n, null);
    assert LinkAt(s, c) && BlackAt(s, c) && RedAt(s, c, null);
    HeightZero(s, c);
    HeightZero(s, s.cells[c].left);
    HeightZero(s, s.cells[c].right);
  }

  lemma HeightZero(s: Shape, c: Node?)
    requires Sound(s) && (c != null ==> c in s.cells)
    ensures Bh(s, c) == 0 ==> c == null || s.cells[c].red
  {
    if c != null {
      assert LinkAt(s, c) && BlackAt(s, c);
      var k := s.cells[c];
      if k.left != null { assert LinkAt(s, k.left); }
    }
  }

  ghost function Adopted(s: Shape, n: Node, c: Node): Cell
    requires n in s.cells && c in s.cells
  {
    var a, k := s.cells[n].aux, s.cells[c];
    k.(parent := s.cells[n].parent, red := false, aux := Aux(k.aux.gk, a.lo, a.hi, 1))
  }

  /** The only child takes its parent's place and colour. */
  lemma ChildTakesOver(s: Shape, n: Node, side: bool)
    requires Sound(s) && n in s.cells && Kid(s.cells[n], !side) == null && Kid(s.cells[n], side) != null
    ensures var c := Kid(s.cells[n], side);
            && c in s.cells
            && var t := Grafted(s, n, c, Adopted(s, n, c)); Sound(t) && Without(s, n, t)
  {
    var c := Kid(s.cells[n], side);
    OnlyChild(s, n, side);
    var cc := Adopted(s, n, c);
    var t := Grafted(s, n, c, cc);
    assert LinkAt(s, n) && LinkAt(s, c);
    Apart(s, n);
    GraftedLinked(s, n, c, cc);
    GraftedReds(s, n, c, cc);
    GraftedItems(s, n, c, cc);
    forall m <- t.cells ensures BlackAt(t, m) {
      if m != c { assert BlackAt(s, m); GraftedBlackAt(s, n, c, cc, m); }
    }
  }

  ghost function Dummy(s: Shape, n: Node, key: int, data: Payload): Cell
    requires n in s.cells
  {
    Cell(s.cells[n].parent, null, null, false, key, data, s.cells[n].aux.(bh := 0))
  }

  /** A dummy takes the place of a leaf; a black leaf leaves it short. */
  lemma DummyTakesOver(s: Shape, n: Node, d: Node, key: int, data: Payload)
    requires Sound(s) && n in s.cells && s.cells[n].left == null && s.cells[n].right == null && d !in s.cells
    ensures var t := Grafted(s, n, d, Dummy(s, n, key, data));
            if s.cells[n].red then Repaired(t, d) else Short(t, d, d)
  {
    var cc := Dummy(s, n, key, data);
    var t := Grafted(s, n, d, cc);
    assert LinkAt(s, n) && BlackAt(s, n);
    GraftedLinked(s, n, d, cc);
    GraftedReds(s, n, d, cc);
    assert d in t.cells;
    forall m | m in t.cells && m != d && (m != cc.parent || s.cells[n].red) ensures BlackAt(t, m) {
      assert BlackAt(s, m);
      GraftedBlackAt(s, n, d, cc, m);
    }
    if cc.parent != null && !s.cells[n].red { DummyShort(s, n, d, cc); }
  }

  lemma DummyShort(s: Shape, n: Node, d: Node, cc: Cell)
    requires Sound(s) && Fits(s, n, d, cc) && d !in s.cells && cc.aux.bh == 0 && cc.parent != null
             && s.cells[n].aux.bh == 1
    ensures var t := Grafted(s, n, d, cc); var p := cc.parent;
            d in t.cells && p in t.cells && (ShortAt(t, d, p, true) || ShortAt(t, d, p, false))
  {
    var p, t := cc.parent, Grafted(s, n, d, cc);
    assert LinkAt(s, n) && LinkAt(s, p) && BlackAt(s, p);
    Apart(s, p);
    GraftedOther(s, n, d, cc, p);
    var k := s.cells[p];
    if k.left != null && k.left != n { GraftedOther(s, n, d, cc, k.left); }
    if k.right != null && k.right != n { GraftedOther(s, n, d, cc, k.right); }
    assert d in t.cells && Bh(t, d) == 0;
    if k.left == n {
      assert Bh(t, t.cells[p].right) == Bh(s, k.right);
      assert ShortAt(t, d, p, true);
    } else {
      assert Bh(t, t.cells[p].left) == Bh(s, k.left);
      assert ShortAt(t, d, p, false);
    }
  }

  // ---- the dummy goes

  ghost function Unhooked(s: Shape, d: Node): Shape {
    Shape(if s.root == d then null else s.root,
          map m | m in s.cells.Keys - {d} :: Relinked(s.cells[m], d, null))
  }

  lemma UnhookedSound(s: Shape, d: Node)
    requires Repaired(s, d)
    ensures Sound(Unhooked(s, d)) && Without(s, d, Unhooked(s, d))
  {
    var t := Unhooked(s, d);
    assert LinkAt(s, d);
    forall m <- t.cells ensures LinkAt(t, m) && BlackAt(t, m) && RedAt(t, m, null) && Item(s, m, t) {
      assert LinkAt(s, m) && BlackAt(s, m) && RedAt(s, m, null);
    }
    UnhookedRoot(s, d);
  }

  lemma UnhookedRoot(s: Shape, d: Node)
    requires Repaired(s, d)
    ensures var t := Unhooked(s, d);
            && (t.root == null <==> t.cells == map[])
            && (t.root != null ==> t.root in t.cells && t.cells[t.root].parent == null
                                   && t.cells[t.root].aux.lo == -1 && t.cells[t.root].aux.hi == LIMIT)
            && !Red(t, t.root)
  {
    var t := Unhooked(s, d);
    assert LinkAt(s, d) && s.root in s.cells;
    if s.root == d {
      forall m <- s.cells ensures m == d {
        UnderRoot(s, m);
        UnderChild(s, m, d);
      }
      assert t.cells.Keys == {};
    } else {
      assert s.root in t.cells;
    }
  }
}

/** Removal of a node with at most one child as the program runs it. */
module RbRemoveRun {
  import opened RbShape
  import opened RbRotate
  import opened RbHeap
  import opened RbDeleteFix
  import opened RbDeleteRun
  import opened RbRemoveShape

  /** s, with the cell of c added when c is not one of its nodes. */
  ghost predicate Prepared(v: Shape, s: Shape, c: Node) {
    c in v.cells && (v == s || (c !in s.cells && v == Put(s, c, v.cells[c])))
  }

  lemma GraftByField(v: Shape, s: Shape, n: Node, c: Node, cc: Cell)
    requires Fits(s, n, c, cc) && Prepared(v, s, c)
    ensures LinkAt(v, n) && c in Redirected(v, n, c).cells
    ensures var r := Redirected(v, n, c); Grafted(s, n, c, cc) == Shape(r.root, r.cells[c := cc] - {n})
    ensures Redirected(v, n, c).cells[c] == v.cells[c]
  {
    assert LinkAt(s, n);
    assert LinkAt(v, n);
    var r, t := Redirected(v, n, c), Grafted(s, n, c, cc);
    if cc.parent != null { GraftedParent(s, n, c, cc); }
    var u := r.cells[c := cc] - {n};
    assert u.Keys == t.cells.Keys;
    forall m <- t.cells ensures u[m] == t.cells[m] {
      if m != c { GraftedOther(s, n, c, cc, m); }
    }
    assert u == t.cells;
  }

  /** The leaf c is linked in the place of node, which leaves the tree. */
  method Graft(t: Tree, node: Node, c: Node, ghost s: Shape, ghost cc: Cell)
    requires t.Sync() && Prepared(t.view, s, c) && Fits(s, node, c, cc)
    requires cc == t.view.cells[c].(parent := s.cells[node].parent, aux := cc.aux)
    modifies t`root, t`view, t.view.cells.Keys
    ensures t.Sync() && t.view == Grafted(s, node, c, cc)
  {
    GraftByField(t.view, s, node, c, cc);
    assert t.SyncAt(node);
    var parent := node.parent;
    ghost var r := Redirected(t.view, node, c);
    PutTwice(r, c, r.cells[c].(parent := parent), cc);
    t.Redirect(node, c);
    t.SetParent(c, parent);
    t.SetAux(c, cc.aux);
    assert t.view == Put(r, c, cc);
    t.Drop(node);
  }

  lemma PutTwice(s: Shape, n: Node, a: Cell, b: Cell)
    ensures Put(Put(s, n, a), n, b) == Put(s, n, b)
  {
    assert Put(Put(s, n, a), n, b).cells == Put(s, n, b).cells;
  }

  lemma PaintedGraft(s: Shape, n: Node, c: Node, cc: Cell, red: bool, bh: int)
    requires c in Grafted(s, n, c, cc).cells
    ensures Painted(Grafted(s, n, c, cc), c, red, bh) == Grafted(s, n, c, cc.(red := red, aux := cc.aux.(bh := bh)))
  {
    var l, r := Painted(Grafted(s, n, c, cc), c, red, bh), Grafted(s, n, c, cc.(red := red, aux := cc.aux.(bh := bh)));
    assert l.cells == r.cells;
  }

  method ReplaceByChild(t: Tree, node: Node, child: Node, ghost side: bool)
    requires t.Sync() && Sound(t.view) && node in t.view.cells
    requires Kid(t.view.cells[node], side) == child && Kid(t.view.cells[node], !side) == null
    modifies t`root, t`view, t.view.cells.Keys
    ensures t.Sync() && Sound(t.view) && Without(old(t.view), node, t.view)
  {
    ghost var s := t.view;
    OnlyChild(s, node, side);
    ChildTakesOver(s, node, side);
    assert LinkAt(s, node) && LinkAt(s, child);
    assert t.SyncAt(node);
    ghost var cc := Adopted(s, node, child).(red := true, aux := Adopted(s, node, child).aux.(bh := 0));
    var red := node.red;
    Graft(t, node, child, s, cc);
    assert t.SyncAt(child);
    if !red {
      if child.red {
        PaintedGraft(s, node, child, cc, false, 1);
        t.SetColor(child, false, 1);
      } else {
        assert false;
      }
    }
  }

  method Unhook(t: Tree, d: Node)
    requires t.Sync() && Repaired(t.view, d)
    modifies t`root, t`view, t.view.cells.Keys
    ensures t.Sync() && t.view == Unhooked(old(t.view), d)
  {
    ghost var s := t.view;
    assert LinkAt(s, d);
    t.Redirect(d, null);
    t.Drop(d);
    UnhookByField(s, d);
  }

  lemma UnhookByField(s: Shape, d: Node)
    requires Repaired(s, d) && LinkAt(s, d)
    ensures var r := Redirected(s, d, null); Unhooked(s, d) == r.(cells := r.cells - {d})
  {
    var r, t := Redirected(s, d, null), Unhooked(s, d);
    var u := r.cells - {d};
    var p := s.cells[d].parent;
    if p != null { Apart(s, d); Apart(s, p); assert LinkAt(s, p); }
    assert u.Keys == t.cells.Keys;
    forall m <- t.cells ensures u[m] == t.cells[m] { assert LinkAt(s, m); }
    assert u == t.cells;
  }

  method ReplaceByDummy(t: Tree, node: Node) returns (ghost climbs: nat)
    requires t.Sync() && Sound(t.view) && node in t.view.cells
    requires t.view.cells[node].left == null && t.view.cells[node].right == null
    modifies t`root, t`view, t.view.cells.Keys
    ensures t.Sync() && Sound(t.view) && Without(old(t.view), node, t.view)
    ensures climbs <= Depth(old(t.view), node)
  {
    ghost var s := t.view;
    assert LinkAt(s, node);
    assert t.SyncAt(node);
    ghost var a := s.cells[node].aux.(bh := 0);
    var red := node.red;
    var dc := new Node(null, 0, 0, a);
    assert dc !in s.cells;
    DummyTakesOver(s, node, dc, 0, 0);
    t.Adopt(dc);
    Graft(t, node, dc, s, Dummy(s, node, 0, 0));
    ghost var s1 := t.view;
    climbs := 0;
    if red {
      ItemsRefl(s1);
    } else {
      DummyDepth(s, node, dc);
      climbs := DeleteCase1(t, dc, dc);
    }
    ghost var s2 := t.view;
    UnhookedSound(s2, dc);
    Unhook(t, dc);
    DummyGone(s, node, dc, s2, t.view);
  }

  lemma ItemsRefl(s: Shape)
    ensures SameItems(s, s)
  {
    forall n <- s.cells ensures Item(s, n, s) {}
  }

  lemma DummyGone(s: Shape, n: Node, d: Node, s2: Shape, t: Shape)
    requires n in s.cells && d !in s.cells && Fits(s, n, d, Dummy(s, n, 0, 0))
    requires SameItems(Grafted(s, n, d, Dummy(s, n, 0, 0)), s2) && Without(s2, d, t)
    ensures Without(s, n, t)
  {
    var s1 := Grafted(s, n, d, Dummy(s, n, 0, 0));
    assert s1.cells.Keys == s.cells.Keys - {n} + {d};
    assert t.cells.Keys == s.cells.Keys - {n};
    forall m <- t.cells ensures Item(s, m, t) {
      assert Item(s1, m, s2) && Item(s2, m, t);
    }
  }

  lemma DummyDepth(s: Shape, n: Node, d: Node)
    requires n in s.cells && Fits(s, n, d, Dummy(s, n, 0, 0)) && d !in s.cells
    requires Linked(Grafted(s, n, d, Dummy(s, n, 0, 0))) && d in Grafted(s, n, d, Dummy(s, n, 0, 0)).cells
    ensures Depth(Grafted(s, n, d, Dummy(s, n, 0, 0)), d) == Depth(s, n)
  {
    var t := Grafted(s, n, d, Dummy(s, n, 0, 0));
    var p := s.cells[n].parent;
    if p != null {
      GraftedParent(s, n, d, Dummy(s, n, 0, 0));
      OthersDepth(s, n, d, p);
    }
  }

  lemma {:induction false} OthersDepth(s: Shape, n: Node, d: Node, m: Node)
    requires n in s.cells && Fits(s, n, d, Dummy(s, n, 0, 0)) && d !in s.cells && m in s.cells && m != n
    requires Linked(Grafted(s, n, d, Dummy(s, n, 0, 0))) && m in Grafted(s, n, d, Dummy(s, n, 0, 0)).cells
    ensures Depth(Grafted(s, n, d, Dummy(s, n, 0, 0)), m) == Depth(s, m)
    decreases LIMIT + 1 - Width(s, m)
  {
    GraftedOther(s, n, d, Dummy(s, n, 0, 0), m);
    ParentIsWider(s, m);
    var p := s.cells[m].parent;
    if p != null { OthersDepth(s, n, d, p); }
  }

  /** Removes a node with at most one child. */
  method RemoveNode(t: Tree, node: Node) returns (ghost climbs: nat)
    requires t.Sync() && Sound(t.view) && node in t.view.cells
    requires t.view.cells[node].left == null || t.view.cells[node].right == null
    modifies t`root, t`view, t.view.cells.Keys
    ensures t.Sync() && Sound(t.view) && Without(old(t.view), node, t.view)
    ensures climbs <= Depth(old(t.view), node)
  {
    assert t.SyncAt(node);
    var child := node.left;
    if node.right != null {
      child := node.right;
    }
    if child == null {
      climbs := ReplaceByDummy(t, node);
    } else {
      ReplaceByChild(t, node, child, child == node.left);
      climbs := 0;
    }
  }
}

/** Taking out a node with two children: its predecessor takes over its place. */
module RbReplace {
  import opened RbShape
  import opened RbRotate
  import opened RbHeap
  import opened RbHeight
  import opened RbRemoveShape
  import opened RbRemoveRun

  ghost function Name(a: Node?, n: Node, x: Node): Node? { if a == n then x else a }

  ghost function Place(v: int, old_: int, new_: int): int { if v == old_ then new_ else v }

  ghost function NewAux(a: Aux, old_: int, new_: int): Aux {
    Aux(Place(a.gk, old_, new_), Place(a.lo, old_, new_), Place(a.hi, old_, new_), a.bh)
  }

  ghost function NewCell(c: Cell, n: Node, x: Node, old_: int, new_: int): Cell {
    c.(parent := Name(c.parent, n, x), left := Name(c.left, n, x), right := Name(c.right, n, x),
    aux := NewAux(c.aux, old_, new_))
  }

  /** x stands where n stood, at the place k. */
  ghost function Renamed(s: Shape, n: Node, x: Node, k: int): Shape
    requires n in s.cells
  {
    Shape(Name(s.root, n, x),
          map m | m in s.cells.Keys - {n} + {x} ::
            NewCell(s.cells[if m == x then n else m], n, x, s.cells[n].aux.gk, k))
  }

  /** The place k can take over from n's: no other node lies between. */
  ghost predicate Adjacent(s: Shape, n: Node, k: int) {
    && n in s.cells && s.cells[n].aux.lo < k < s.cells[n].aux.gk
    && forall m <- s.cells :: m != n ==> s.cells[m].aux.gk < k || s.cells[m].aux.gk > s.cells[n].aux.gk
  }

  lemma RenamedCell(s: Shape, n: Node, x: Node, k: int, m: Node)
    requires n in s.cells && x !in s.cells && m in s.cells
    ensures var t := Renamed(s, n, x, k); var m' := if m == n then x else m;
            m' in t.cells && t.cells[m'] == NewCell(s.cells[m], n, x, s.cells[n].aux.gk, k)
  {
  }

  lemma RenamedLinkAt(s: Shape, n: Node, x: Node, k: int, m: Node)
    requires Sound(s) && Adjacent(s, n, k) && x !in s.cells && m in s.cells
    ensures var t := Renamed(s, n, x, k); var m' := if m == n then x else m;
            m' in t.cells && LinkAt(t, m')
  {
    assert LinkAt(s, m) && LinkAt(s, n);
    RenamedCell(s, n, x, k, m);
    var c := s.cells[m];
    if c.left != null { RenamedCell(s, n, x, k, c.left); }
    if c.right != null { RenamedCell(s, n, x, k, c.right); }
    if c.parent != null { RenamedCell(s, n, x, k, c.parent); }
  }

  lemma RenamedColours(s: Shape, n: Node, x: Node, k: int, m: Node)
    requires Sound(s) && n in s.cells && x !in s.cells && m in s.cells
    ensures var t := Renamed(s, n, x, k); var m' := if m == n then x else m;
            m' in t.cells && BlackAt(t, m') && RedAt(t, m', null)
  {
    assert LinkAt(s, m) && BlackAt(s, m) && RedAt(s, m, null);
    RenamedCell(s, n, x, k, m);
    var c := s.cells[m];
    if c.left != null { RenamedCell(s, n, x, k, c.left); }
    if c.right != null { RenamedCell(s, n, x, k, c.right); }
  }

  lemma RenamedSound(s: Shape, n: Node, x: Node, k: int)
    requires Sound(s) && Adjacent(s, n, k) && x !in s.cells
    ensures Sound(Renamed(s, n, x, k))
  {
    var t := Renamed(s, n, x, k);
    assert LinkAt(s, n) && s.root in s.cells && x in t.cells;
    forall m <- t.cells ensures LinkAt(t, m) && BlackAt(t, m) && RedAt(t, m, null) {
      RenamedLinkAt(s, n, x, k, if m == x then n else m);
      RenamedColours(s, n, x, k, if m == x then n else m);
    }
    RenamedCell(s, n, x, k, s.root);
    assert LinkAt(s, s.root);
  }

  /** The bounds of an interval are places of other nodes, or the ends. */
  lemma {:induction false} LowerBound(s: Shape, n: Node)
    requires Linked(s) && n in s.cells
    ensures var lo := s.cells[n].aux.lo; lo == -1 || exists m :: m in s.cells && s.cells[m].aux.gk == lo
    decreases LIMIT + 1 - Width(s, n)
  {
    assert LinkAt(s, n);
    ParentIsWider(s, n);
    var p := s.cells[n].parent;
    if p != null {
      assert LinkAt(s, p);
      LowerBound(s, p);
      if s.cells[p].right == n { assert s.cells[p].aux.gk == s.cells[n].aux.lo; }
    }
  }

  // ---- the swap with the predecessor

  /** x is the node with the next smaller place. */
  ghost predicate IsPredecessor(s: Shape, n: Node, x: Node) {
    && n in s.cells && x in s.cells && s.cells[x].aux.gk < s.cells[n].aux.gk && s.cells[x].right == null
    && forall m <- s.cells :: !(s.cells[x].aux.gk < s.cells[m].aux.gk < s.cells[n].aux.gk)
  }

  /** Key and payload of x are copied to n, and those of x are cleared. */
  ghost function Copied(s: Shape, n: Node, x: Node): Shape
    requires n in s.cells && x in s.cells
  {
    var s1 := Put(s, n, s.cells[n].(key := s.cells[x].key, data := s.cells[x].data));
    Put(s1, x, s1.cells[x].(key := -1, data := 0))
  }

  lemma CopiedSound(s: Shape, n: Node, x: Node)
    requires Sound(s) && n in s.cells && x in s.cells && n != x
    ensures Sound(Copied(s, n, x))
  {
    SoundIgnoresData(s, n, s.cells[x].key, s.cells[x].data);
    SoundIgnoresData(Put(s, n, s.cells[n].(key := s.cells[x].key, data := s.cells[x].data)), x, -1, 0);
  }

  /** Neither key nor payload of a node matters to the structure. */
  lemma SoundIgnoresData(s: Shape, n: Node, key: int, data: Payload)
    requires Sound(s) && n in s.cells
    ensures Sound(Put(s, n, s.cells[n].(key := key, data := data)))
  {
    var t := Put(s, n, s.cells[n].(key := key, data := data));
    assert n in t.cells;
    forall m <- t.cells ensures LinkAt(t, m) && BlackAt(t, m) && RedAt(t, m, null) {
      assert LinkAt(s, m) && BlackAt(s, m) && RedAt(s, m, null);
    }
  }

  /** With the predecessor gone, its place can take over. */
  lemma GapIsFree(s: Shape, n: Node, x: Node, t: Shape)
    requires Sound(s) && IsPredecessor(s, n, x) && Without(Copied(s, n, x), x, t) && Sound(t)
    ensures Adjacent(t, n, s.cells[x].aux.gk)
  {
    var k, c := s.cells[x].aux.gk, Copied(s, n, x);
    assert LinkAt(s, x);
    forall m <- t.cells ensures t.cells[m].aux.gk == s.cells[m].aux.gk
                                && (m != n ==> t.cells[m].aux.gk < k || t.cells[m].aux.gk > t.cells[n].aux.gk) {
      assert Item(c, m, t) && Item(c, n, t);
      if s.cells[m].aux.gk == k { DistinctPlaces(s, m, x); }
      if s.cells[m].aux.gk == s.cells[n].aux.gk { DistinctPlaces(s, m, n); }
    }
    LowerBound(t, n);
    assert LinkAt(t, n);
  }

  lemma ReplacedItems(s: Shape, n: Node, x: Node, t: Shape)
    requires Sound(s) && IsPredecessor(s, n, x) && Without(Copied(s, n, x), x, t) && Sound(t)
    requires Adjacent(t, n, s.cells[x].aux.gk)
    ensures Without(s, n, Renamed(t, n, x, s.cells[x].aux.gk))
  {
    var k, c := s.cells[x].aux.gk, Copied(s, n, x);
    var u := Renamed(t, n, x, k);
    assert u.cells.Keys == s.cells.Keys - {n};
    forall m <- u.cells ensures Item(s, m, u) {
      assert Item(c, if m == x then n else m, t);
      RenamedCell(t, n, x, k, if m == x then n else m);
    }
  }

  /** The largest node below n's left child; steps counts the links followed. */
  method Predecessor(t: Tree, node: Node) returns (temp: Node, ghost steps: nat)
    requires t.Sync() && Sound(t.view) && node in t.view.cells && t.view.cells[node].left != null
    ensures IsPredecessor(t.view, node, temp) && temp != node
    ensures Depth(t.view, temp) == Depth(t.view, node) + steps
  {
    ghost var s := t.view;
    assert t.SyncAt(node) && LinkAt(s, node);
    temp, steps := node.left, 1;
    assert t.SyncAt(temp) && LinkAt(s, temp);
    while temp.right != null
      invariant temp in s.cells && t.SyncAt(temp) && LinkAt(s, temp)
      invariant s.cells[temp].aux.hi == s.cells[node].aux.gk
      invariant Depth(s, temp) == Depth(s, node) + steps
      decreases Width(s, temp)
    {
      assert t.SyncAt(temp.right) && LinkAt(s, temp.right);
      temp, steps := temp.right, steps + 1;
    }
    forall m | m in s.cells && s.cells[temp].aux.gk < s.cells[m].aux.gk
      ensures s.cells[m].aux.gk >= s.cells[node].aux.gk
    {
      if s.cells[m].aux.gk < s.cells[node].aux.gk { Descend(s, m, temp); }
    }
  }

  // ---- the predecessor takes over n's links

  ghost function Relabelled(s: Shape, old_: int, new_: int): Shape {
    s.(cells := map m | m in s.cells :: s.cells[m].(aux := NewAux(s.cells[m].aux, old_, new_)))
  }

  ghost method Relabel(t: Tree, old_: int, new_: int)
    requires t.Sync()
    modifies t`view, t.view.cells.Keys`aux
    ensures t.Sync() && t.view == Relabelled(old(t.view), old_, new_)
  {
    ghost var s := t.view;
    forall m <- s.cells ensures t.SyncAt(m) {}
    forall m | m in s.cells { m.aux := NewAux(m.aux, old_, new_); }
    t.view := Relabelled(s, old_, new_);
    forall m <- t.view.cells ensures t.SyncAt(m) { assert old(t.SyncAt(m)); }
  }

  ghost function Reparented(s: Shape, c: Node?, x: Node): Shape {
    if c == null || c !in s.cells then s else Put(s, c, s.cells[c].(parent := x))
  }

  /** The links of n, written over to x one after the other. */
  ghost function Moved(s: Shape, n: Node, x: Node): Shape
    requires n in s.cells && (s.cells[n].parent != null ==> s.cells[n].parent in s.cells) && x != n
  {
    var c := s.cells[n];
    var s1 := Redirected(Put(s, x, c), n, x);
    var s2 := Reparented(s1, c.left, x);
    var s3 := Reparented(s2, c.right, x);
    s3.(cells := s3.cells - {n})
  }

  lemma MovedCell(s: Shape, n: Node, x: Node, m: Node)
    requires Linked(s) && n in s.cells && x !in s.cells && m in s.cells && m != n
    ensures (s.cells[n].parent != null ==> s.cells[n].parent in s.cells)
    ensures var t := Moved(s, n, x);
            m in t.cells && t.cells[m] == NewCell(s.cells[m], n, x, s.cells[n].aux.gk, s.cells[n].aux.gk)
  {
    assert LinkAt(s, n) && LinkAt(s, m);
    Apart(s, n);
    Apart(s, m);
    var c := s.cells[n];
    var s1 := Redirected(Put(s, x, c), n, x);
    var s2 := Reparented(s1, c.left, x);
    var s3 := Reparented(s2, c.right, x);
    var goal := NewCell(s.cells[m], n, x, c.aux.gk, c.aux.gk);
    if m == c.parent {
      assert s1.cells[m] == Relinked(s.cells[m], n, x) == goal;
      assert s3.cells[m] == s1.cells[m];
    } else if m == c.left || m == c.right {
      assert s1.cells[m] == s.cells[m];
      assert s3.cells[m] == s.cells[m].(parent := x) == goal;
    } else {
      assert s3.cells[m] == s1.cells[m] == s.cells[m] == goal;
    }
  }

  lemma MovedIsRenamed(s: Shape, n: Node, x: Node)
    requires Linked(s) && n in s.cells && x !in s.cells
    ensures (s.cells[n].parent != null ==> s.cells[n].parent in s.cells)
    ensures Moved(s, n, x) == Renamed(s, n, x, s.cells[n].aux.gk)
  {
    assert LinkAt(s, n);
    Apart(s, n);
    var t, u := Moved(s, n, x), Renamed(s, n, x, s.cells[n].aux.gk);
    assert t.cells.Keys == u.cells.Keys;
    forall m <- u.cells ensures t.cells[m] == u.cells[m] {
      if m != x { MovedCell(s, n, x, m); }
    }
    assert t.cells == u.cells;
  }

  lemma RelabelledRenamed(s: Shape, n: Node, x: Node, k: int)
    requires n in s.cells && x !in s.cells
    ensures Relabelled(Renamed(s, n, x, s.cells[n].aux.gk), s.cells[n].aux.gk, k) == Renamed(s, n, x, k)
  {
    var t, u := Relabelled(Renamed(s, n, x, s.cells[n].aux.gk), s.cells[n].aux.gk, k), Renamed(s, n, x, k);
    assert t.cells == u.cells;
  }

  method Reparent(t: Tree, c: Node?, x: Node)
    requires t.Sync() && (c != null ==> c in t.view.cells)
    modifies t`view, t.view.cells.Keys`parent
    ensures t.Sync() && t.view == Reparented(old(t.view), c, x)
  {
    if c != null { t.SetParent(c, x); }
  }

  /** temp becomes a copy of node. */
  method CopyFields(t: Tree, node: Node, temp: Node)
    requires t.Sync() && node in t.view.cells && temp !in t.view.cells
    modifies t`view, temp
    ensures t.Sync() && t.view == Put(old(t.view), temp, old(t.view).cells[node])
  {
    ghost var s := t.view;
    assert t.SyncAt(node);
    temp.key32, temp.red, temp.data, temp.parent := node.key32, node.red, node.data, node.parent;
    temp.left, temp.right, temp.aux := node.left, node.right, node.aux;
    forall m <- s.cells ensures t.SyncAt(m) { assert old(t.SyncAt(m)); }
    t.Adopt(temp);
  }

  method MoveLinks(t: Tree, node: Node, temp: Node, ghost s: Shape)
    requires t.Sync() && Linked(s) && node in s.cells && temp !in s.cells && t.view == Put(s, temp, s.cells[node])
    modifies t`root, t`view, t.view.cells.Keys
    ensures LinkAt(s, node) && t.Sync() && t.view == Moved(s, node, temp)
  {
    assert LinkAt(s, node);
    assert LinkAt(t.view, node);
    assert t.SyncAt(node);
    var left, right := node.left, node.right;
    t.Redirect(node, temp);
    Reparent(t, left, temp);
    Reparent(t, right, temp);
    t.Drop(node);
  }

  method TakePlace(t: Tree, node: Node, temp: Node, ghost k: int)
    requires t.Sync() && Sound(t.view) && node in t.view.cells && temp !in t.view.cells
    modifies t`root, t`view, t.view.cells.Keys, temp
    ensures t.Sync() && t.view == Renamed(old(t.view), node, temp, k)
  {
    ghost var s := t.view;
    MovedIsRenamed(s, node, temp);
    RelabelledRenamed(s, node, temp, k);
    CopyFields(t, node, temp);
    MoveLinks(t, node, temp, s);
    Relabel(t, s.cells[node].aux.gk, k);
  }

  lemma HoldsWithout(s: Shape, n: Node, t: Shape, m: map<int, Payload>)
    requires Sound(s) && n in s.cells && Without(s, n, t) && Holds(s, m)
    ensures Holds(t, m - {s.cells[n].key})
  {
    var key := s.cells[n].key;
    assert InMap(s, m, n);
    forall c <- t.cells ensures InMap(t, m - {key}, c) {
      assert InMap(s, m, c) && Item(s, c, t);
      if s.cells[c].key == key { DistinctPlaces(s, c, n); }
    }
    forall k <- m - {key} ensures HasKey(t, k) {
      assert HasKey(s, k);
      var c :| c in s.cells && s.cells[c].key == k;
      assert c in t.cells && Item(s, c, t);
    }
  }

  /** The entry of the destructor: node goes, every other entry stays. steps counts
      the links followed to the predecessor, climbs the times the repair starts
      again one level higher. */
  method DeleteNode(t: Tree, node: Node) returns (ghost steps: nat, ghost climbs: nat)
    requires t.Valid() && node in t.view.cells
    modifies t, t.view.cells.Keys
    ensures t.Valid() && t.contents == old(t.contents) - {old(node.key32)}
    ensures t.view.cells.Keys == old(t.view.cells.Keys) - {node}
    ensures Short(steps + 1, |old(t.contents)|) && Short(climbs + 1, |old(t.contents)|)
  {
    ghost var s, m := t.view, t.contents;
    assert t.SyncAt(node) && LinkAt(s, node);
    ghost var key := node.key32;
    if node.left != null && node.right != null {
      ghost var last;
      steps, climbs, last := SwapAndRemove(t, node);
      FewSteps(s, m, last, steps, climbs);
    } else {
      steps := 0;
      climbs := RemoveNode(t, node);
      FewSteps(s, m, node, steps, climbs);
    }
    HoldsWithout(s, node, t.view, m);
    t.contents := m - {key};
  }

  lemma FewSteps(s: Shape, m: map<int, Payload>, n: Node, steps: nat, climbs: nat)
    requires Sound(s) && Holds(s, m) && n in s.cells && steps <= Depth(s, n) && climbs <= Depth(s, n)
    ensures Short(steps + 1, |m|) && Short(climbs + 1, |m|)
  {
    FewLevels(s, m, n);
    Shorter(steps + 1, Depth(s, n) + 1, |m|);
    Shorter(climbs + 1, Depth(s, n) + 1, |m|);
  }

  method SwapAndRemove(t: Tree, node: Node) returns (ghost steps: nat, ghost climbs: nat, ghost last: Node)
    requires t.Sync() && Sound(t.view) && node in t.view.cells && t.view.cells[node].left != null
    modifies t`root, t`view, t.view.cells.Keys
    ensures t.Sync() && Sound(t.view) && Without(old(t.view), node, t.view)
    ensures IsPredecessor(old(t.view), node, last)
    ensures steps <= Depth(old(t.view), last) && climbs <= Depth(old(t.view), last)
  {
    ghost var s := t.view;
    var temp;
    temp, steps := Predecessor(t, node);
    last := temp;
    ghost var k := s.cells[temp].aux.gk;
    assert t.SyncAt(temp);
    CopiedSound(s, node, temp);
    t.SetItem(node, temp.key32, temp.data);
    t.SetItem(temp, -1, 0);
    SameDepth(s, Copied(s, node, temp), temp);
    climbs := RemoveNode(t, temp);
    ghost var s2 := t.view;
    GapIsFree(s, node, temp, s2);
    RenamedSound(s2, node, temp, k);
    ReplacedItems(s, node, temp, s2);
    TakePlace(t, node, temp, k);
  }
}
