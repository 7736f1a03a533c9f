/** Lookup and insertion by key, and what they do to the map the tree holds. */
module RbMap {
  import opened RbShape
  import opened RbRotate
  import opened RbHeap
  import opened RbHeight
  import opened RbInsertFix
  import opened RbInsertRun

  datatype Found = None | Some(value: Payload)

  ghost function Entry(m: map<int, Payload>, key: int): Found {
    if key in m then Some(m[key]) else None
  }

  /** The interval below n still contains the key. */
  ghost predicate Between(s: Shape, n: Node, key: int) {
    n in s.cells && s.cells[n].aux.lo < key < s.cells[n].aux.hi
  }

  lemma StartAtRoot(s: Shape, key: int)
    requires Linked(s) && s.root != null && 0 <= key < LIMIT
    ensures Between(s, s.root, key)
  {
  }

  lemma GoDown(s: Shape, n: Node, key: int, side: bool)
    requires Linked(s) && Between(s, n, key) && (if side then key < s.cells[n].aux.gk else key > s.cells[n].aux.gk)
    requires Kid(s.cells[n], side) != null
    ensures Between(s, Kid(s.cells[n], side), key)
    ensures Width(s, Kid(s.cells[n], side)) < Width(s, n) && 0 <= Width(s, Kid(s.cells[n], side))
  {
    assert LinkAt(s, n) && LinkAt(s, Kid(s.cells[n], side));
  }

  /** Where the way down ends there is no node with the key. */
  lemma NotThere(s: Shape, n: Node, key: int, side: bool, all: map<int, Payload>)
    requires Linked(s) && Between(s, n, key) && (if side then key < s.cells[n].aux.gk else key > s.cells[n].aux.gk)
    requires Kid(s.cells[n], side) == null && Holds(s, all)
    ensures !HasKey(s, key)
  {
    if HasKey(s, key) {
      var m :| m in s.cells && s.cells[m].key == key;
      assert InMap(s, all, m);
      Descend(s, m, n);
    }
  }

  /** steps counts the nodes looked at. */
  method Lookup32(t: Tree, key: int) returns (r: Found, ghost steps: nat)
    requires t.Valid() && 0 <= key < LIMIT
    ensures r == Entry(t.contents, key)
    ensures Short(steps, |t.contents|)
  {
    ghost var s := t.view;
    var node := t.root;
    steps := 0;
    if node != null { StartAtRoot(s, key); }
    while node != null
      invariant node != null ==> Between(s, node, key) && steps == Depth(s, node)
      invariant node == null ==> !HasKey(s, key) && Short(steps, |t.contents|)
      decreases if node == null then 0 else 1 + Width(s, node)
    {
      assert t.SyncAt(node) && LinkAt(s, node) && InMap(s, t.contents, node);
      FewLevels(s, t.contents, node);
      steps := steps + 1;
      if key == node.key32 {
        return Some(node.data), steps;
      }
      ghost var side := key < node.key32;
      if Kid(s.cells[node], side) == null {
        NotThere(s, node, key, side, t.contents);
      } else {
        GoDown(s, node, key, side);
      }
      if key < node.key32 {
        node := node.left;
      } else {
        node := node.right;
      }
    }
    assert key in t.contents ==> HasKey(s, key);
    return None, steps;
  }

  /** A red leaf x in the empty place on the given side of p. */
  ghost function LeafCell(s: Shape, p: Node, side: bool, key: int, data: Payload): Cell
    requires p in s.cells
  {
    var a := s.cells[p].aux;
    Cell(p, null, null, true, key, data, Aux(key, if side then a.lo else a.gk, if side then a.gk else a.hi, 0))
  }

  ghost function WithLeaf(s: Shape, p: Node, x: Node, side: bool, key: int, data: Payload): Shape
    requires p in s.cells
  {
    Put(Put(s, x, LeafCell(s, p, side, key, data)), p, Hung(s.cells[p], side, x))
  }

  lemma LeafHung(s: Shape, p: Node, x: Node, side: bool, key: int, data: Payload)
    requires Sound(s) && Between(s, p, key) && Kid(s.cells[p], side) == null && x !in s.cells
    requires if side then key < s.cells[p].aux.gk else key > s.cells[p].aux.gk
    ensures Unrepaired(WithLeaf(s, p, x, side, key, data), x)
  {
    var t := WithLeaf(s, p, x, side, key, data);
    assert LinkAt(s, p);
    forall m <- t.cells ensures LinkAt(t, m) && BlackAt(t, m) && RedAt(t, m, x) {
      if m != x { assert LinkAt(s, m) && BlackAt(s, m) && RedAt(s, m, null); }
    }
    assert t.cells != map[] by { assert x in t.cells; }
  }

  lemma LeafDepth(s: Shape, p: Node, x: Node, side: bool, key: int, data: Payload)
    requires Linked(s) && p in s.cells && x !in s.cells && Linked(WithLeaf(s, p, x, side, key, data))
    ensures var t := WithLeaf(s, p, x, side, key, data); x in t.cells && Depth(t, x) == 1 + Depth(s, p)
  {
    SameDepth(s, WithLeaf(s, p, x, side, key, data), p);
  }

  lemma LeafHeld(s: Shape, p: Node, x: Node, side: bool, key: int, data: Payload, m: map<int, Payload>)
    requires p in s.cells && x !in s.cells && Holds(s, m) && key !in m
    ensures Holds(WithLeaf(s, p, x, side, key, data), m[key := data])
  {
    var t := WithLeaf(s, p, x, side, key, data);
    forall n <- t.cells ensures InMap(t, m[key := data], n) {
      if n != x { assert InMap(s, m, n); }
    }
    forall k <- m[key := data] ensures HasKey(t, k) {
      if k == key {
        assert x in t.cells && t.cells[x].key == key;
      } else {
        assert HasKey(s, k);
        var n :| n in s.cells && s.cells[n].key == k;
        assert n in t.cells && t.cells[n].key == k;
      }
    }
  }

  /** The first node of the tree is black. */
  lemma FirstNode(x: Node, key: int, data: Payload)
    requires 0 <= key < LIMIT
    ensures var t := Shape(x, map[x := Cell(null, null, null, false, key, data, Aux(key, -1, LIMIT, 1))]);
            Sound(t) && Holds(t, map[key := data])
  {
    var t := Shape(x, map[x := Cell(null, null, null, false, key, data, Aux(key, -1, LIMIT, 1))]);
    assert x in t.cells && t.cells[x].key == key;
    assert HasKey(t, key);
    forall m <- t.cells ensures LinkAt(t, m) && BlackAt(t, m) && RedAt(t, m, null) && InMap(t, map[key := data], m) {}
  }

  lemma EmptyHolds(s: Shape, m: map<int, Payload>)
    requires s.cells == map[] && Holds(s, m)
    ensures m == map[]
  {
    forall k ensures k !in m { assert k in m <==> k in m && HasKey(s, k); }
  }

  lemma NewData(s: Shape, n: Node, data: Payload, m: map<int, Payload>)
    requires Sound(s) && Holds(s, m) && n in s.cells
    ensures var t := Put(s, n, s.cells[n].(data := data)); Sound(t) && Holds(t, m[s.cells[n].key := data])
  {
    var t, key := Put(s, n, s.cells[n].(data := data)), s.cells[n].key;
    assert n in t.cells;
    forall k <- t.cells ensures LinkAt(t, k) && BlackAt(t, k) && RedAt(t, k, null) {
      assert LinkAt(s, k) && BlackAt(s, k) && RedAt(s, k, null);
    }
    NewDataHeld(s, n, data, m);
  }

  lemma NewDataHeld(s: Shape, n: Node, data: Payload, m: map<int, Payload>)
    requires Sound(s) && Holds(s, m) && n in s.cells
    ensures Holds(Put(s, n, s.cells[n].(data := data)), m[s.cells[n].key := data])
  {
    var t, key := Put(s, n, s.cells[n].(data := data)), s.cells[n].key;
    assert InMap(s, m, n);
    forall k <- t.cells ensures InMap(t, m[key := data], k) {
      assert InMap(s, m, k);
      if s.cells[k].key == key { DistinctPlaces(s, k, n); }
    }
    forall k <- m[key := data] ensures HasKey(t, k) {
      assert HasKey(s, k);
      var x :| x in s.cells && s.cells[x].key == k;
      assert x in t.cells && t.cells[x].key == k;
    }
  }

  lemma LeafByField(s: Shape, p: Node, x: Node, side: bool, key: int, data: Payload)
    requires p in s.cells && x !in s.cells
    ensures var s1 := Put(s, x, LeafCell(s, p, side, key, data).(red := false));
            Painted(Put(s1, p, Hung(s1.cells[p], side, x)), x, true, 0) == WithLeaf(s, p, x, side, key, data)
  {
    var s1 := Put(s, x, LeafCell(s, p, side, key, data).(red := false));
    var t := Painted(Put(s1, p, Hung(s1.cells[p], side, x)), x, true, 0);
    assert t.cells == WithLeaf(s, p, x, side, key, data).cells;
  }

  /** Creates a node and links it below p. */
  method CreateNode(t: Tree, p: Node, side: bool, key: int, data: Payload) returns (x: Node)
    requires t.Sync() && p in t.view.cells
    modifies t`view, p
    ensures t.Sync() && fresh(x) && t.view == WithLeaf(old(t.view), p, x, side, key, data)
  {
    ghost var s := t.view;
    ghost var leaf := LeafCell(s, p, side, key, data);
    x := new Node(p, key, data, leaf.aux);
    assert x !in s.cells;
    LeafByField(s, p, x, side, key, data);
    t.Adopt(x);
    if side { t.SetLeft(p, x); } else { t.SetRight(p, x); }
    t.SetColor(x, true, 0);
  }

  /** Hangs a new red leaf below p and repairs the tree. */
  method HangLeaf(t: Tree, p: Node, side: bool, key: int, data: Payload) returns (ghost climbs: nat)
    requires t.Valid() && Between(t.view, p, key) && Kid(t.view.cells[p], side) == null && key !in t.contents
    requires if side then key < t.view.cells[p].aux.gk else key > t.view.cells[p].aux.gk
    modifies t, t.view.cells.Keys
    ensures t.Valid() && t.contents == old(t.contents)[key := data]
    ensures fresh(t.view.cells.Keys - old(t.view.cells.Keys))
    ensures 2 * climbs <= 1 + Depth(old(t.view), p)
  {
    ghost var s, m := t.view, t.contents;
    var x := CreateNode(t, p, side, key, data);
    ghost var s1 := t.view;
    LeafHung(s, p, x, side, key, data);
    LeafHeld(s, p, x, side, key, data, m);
    LeafDepth(s, p, x, side, key, data);
    climbs := InsertCase1(t, x);
    SameItemsHold(s1, t.view, m[key := data]);
    t.contents := m[key := data];
    assert t.view.cells.Keys == s.cells.Keys + {x};
  }

  /** steps counts the nodes looked at on the way down, climbs the times the repair
      starts again two levels higher. */
  method Insert32(t: Tree, key: int, data: Payload) returns (r: Found, ghost steps: nat, ghost climbs: nat)
    requires t.Valid() && 0 <= key < LIMIT
    modifies t, t.view.cells.Keys
    ensures t.Valid() && t.contents == old(t.contents)[key := data]
    ensures r == Entry(old(t.contents), key)
    ensures fresh(t.view.cells.Keys - old(t.view.cells.Keys))
    ensures Short(steps, |old(t.contents)|) && 2 * climbs <= steps
  {
    ghost var s, m := t.view, t.contents;
    steps, climbs := 0, 0;
    var node := t.root;
    if node == null {
      node := new Node(null, key, data, Aux(key, -1, LIMIT, 1));
      FirstNode(node, key, data);
      EmptyHolds(s, m);
      t.root := node;
      t.view := Shape(node, map[node := Cell(null, null, null, false, key, data, Aux(key, -1, LIMIT, 1))]);
      t.contents := map[key := data];
      assert t.SyncAt(node);
      return None, steps, climbs;
    }
    StartAtRoot(s, key);
    while true
      invariant t.Valid() && t.view == s && t.contents == m && unchanged(t) && unchanged(s.cells.Keys)
      invariant node != null && Between(s, node, key) && steps == Depth(s, node) && climbs == 0
      decreases Width(s, node)
    {
      FewLevels(s, m, node);
      steps := steps + 1;
      assert t.SyncAt(node) && LinkAt(s, node) && InMap(s, m, node);
      if key == node.key32 {
        NewData(s, node, data, m);
        r := Some(node.data);
        t.SetData(node, data);
        t.contents := m[key := data];
        return r, steps, climbs;
      }
      var side := key < node.key32;
      var next := if side then node.left else node.right;
      if next == null {
        NotThere(s, node, key, side, m);
        assert key in m ==> HasKey(s, key);
        climbs := HangLeaf(t, node, side, key, data);
        return None, steps, climbs;
      }
      GoDown(s, node, key, side);
      node := next;
    }
  }
}
