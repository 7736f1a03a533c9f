/** Walking one tree in order, and its first entry. */
module RbTraverse {
  import opened RbShape
  import opened RbHeap
  import opened RbMap
  import opened Stops

  datatype Item = Item(key: int, data: Payload)

  ghost function ItemOf(s: Shape, n: Node): Item
    requires n in s.cells
  {
    Item(s.cells[n].key, s.cells[n].data)
  }

  /** The entries below n from left to right. */
  ghost function InOrder(s: Shape, n: Node?): seq<Item>
    requires Linked(s) && (n != null ==> n in s.cells)
    decreases if n == null then 0 else 1 + Width(s, n)
  {
    if n == null then []
    else
      assert LinkAt(s, n);
      var c := s.cells[n];
      assert c.left != null ==> LinkAt(s, c.left);
      assert c.right != null ==> LinkAt(s, c.right);
      InOrder(s, c.left) + [ItemOf(s, n)] + InOrder(s, c.right)
  }

  ghost predicate Ordered(q: seq<Item>, lo: int, hi: int) {
    && (forall i | 0 <= i < |q| :: lo < q[i].key < hi)
    && forall i, j | 0 <= i < j < |q| :: q[i].key < q[j].key
  }

  lemma OrderedJoin(a: seq<Item>, x: Item, b: seq<Item>, lo: int, hi: int)
    requires lo < x.key < hi && Ordered(a, lo, x.key) && Ordered(b, x.key, hi)
    ensures Ordered(a + [x] + b, lo, hi)
  {
  }

  /** Every entry below n once, in ascending order. */
  lemma {:induction false} InOrderIsOrdered(s: Shape, n: Node?, lo: int, hi: int, m: map<int, Payload>)
    requires Linked(s) && Holds(s, m)
    requires n != null ==> n in s.cells && s.cells[n].aux.lo == lo && s.cells[n].aux.hi == hi
    ensures Ordered(InOrder(s, n), lo, hi)
    decreases if n == null then 0 else 1 + Width(s, n)
  {
    if n != null {
      var c := s.cells[n];
      assert LinkAt(s, n) && InMap(s, m, n);
      if c.left != null { assert LinkAt(s, c.left); }
      if c.right != null { assert LinkAt(s, c.right); }
      InOrderIsOrdered(s, c.left, lo, c.aux.gk, m);
      InOrderIsOrdered(s, c.right, c.aux.gk, hi, m);
      OrderedJoin(InOrder(s, c.left), ItemOf(s, n), InOrder(s, c.right), lo, hi);
    }
  }

  lemma {:induction false} InOrderHasAll(s: Shape, n: Node, x: Node)
    requires Linked(s) && n in s.cells && x in s.cells && Under(s, x, n)
    ensures ItemOf(s, x) in InOrder(s, n)
    decreases Width(s, n)
  {
    var c := s.cells[n];
    assert LinkAt(s, n);
    UnderChild(s, x, n);
    if x != n {
      if c.left != null && c.left in s.cells && Under(s, x, c.left) && s.cells[x].aux.gk < c.aux.gk {
        assert LinkAt(s, c.left);
        InOrderHasAll(s, c.left, x);
      } else {
        assert LinkAt(s, c.right);
        InOrderHasAll(s, c.right, x);
      }
    }
  }

  lemma {:induction false} InOrderHasOnly(s: Shape, n: Node?, m: map<int, Payload>, i: nat)
    requires Linked(s) && Holds(s, m) && (n != null ==> n in s.cells) && i < |InOrder(s, n)|
    ensures var e := InOrder(s, n)[i]; e.key in m && m[e.key] == e.data
    decreases if n == null then 0 else 1 + Width(s, n)
  {
    var c := s.cells[n];
    assert LinkAt(s, n) && InMap(s, m, n);
    if c.left != null { assert LinkAt(s, c.left); }
    if c.right != null { assert LinkAt(s, c.right); }
    var l := |InOrder(s, c.left)|;
    if i < l {
      InOrderHasOnly(s, c.left, m, i);
    } else if i > l {
      InOrderHasOnly(s, c.right, m, i - l - 1);
    }
  }

  /** q lists the map: each entry once, in ascending order of the keys. */
  ghost predicate Lists(q: seq<Item>, m: map<int, Payload>) {
    && (forall i, j | 0 <= i < j < |q| :: q[i].key < q[j].key)
    && (forall i | 0 <= i < |q| :: q[i].key in m && m[q[i].key] == q[i].data)
    && (forall k <- m :: Item(k, m[k]) in q)
  }

  lemma InOrderLists(s: Shape, m: map<int, Payload>)
    requires Linked(s) && Holds(s, m)
    ensures Lists(InOrder(s, s.root), m)
  {
    var q := InOrder(s, s.root);
    InOrderIsOrdered(s, s.root, -1, LIMIT, m);
    forall i | 0 <= i < |q| ensures q[i].key in m && m[q[i].key] == q[i].data { InOrderHasOnly(s, s.root, m, i); }
    forall k <- m ensures Item(k, m[k]) in q {
      assert HasKey(s, k);
      var x :| x in s.cells && s.cells[x].key == k;
      assert InMap(s, m, x);
      UnderRoot(s, x);
      InOrderHasAll(s, s.root, x);
    }
  }

  /** The callback is shown the data of an entry. */
  function OnData(cb: (nat, Payload) -> int): (nat, Item) -> int { (k: nat, x: Item) => cb(k, x.data) }

  /** The walk below one node, k visits having been made before. */
  method TraverseNode(t: Tree, node: Node, cb: (nat, Payload) -> int, k: nat) returns (w: Seen<Item>)
    requires t.Sync() && Linked(t.view) && node in t.view.cells
    ensures w == Until(InOrder(t.view, node), OnData(cb), k)
    decreases Width(t.view, node)
  {
    ghost var s, c := t.view, t.view.cells[node];
    assert t.SyncAt(node) && LinkAt(s, node);
    assert c.left != null ==> LinkAt(s, c.left);
    assert c.right != null ==> LinkAt(s, c.right);
    UntilAround(InOrder(s, c.left), ItemOf(s, node), InOrder(s, c.right), OnData(cb), k);
    w := Seen([], 0);
    if node.left != null {
      w := TraverseNode(t, node.left, cb, k);
      if w.ret != 0 { return; }
    }
    var ret := cb(k + |w.items|, node.data);
    w := Seen(w.items + [Item(node.key32, node.data)], ret);
    if ret != 0 { return; }
    if node.right != null {
      var v := TraverseNode(t, node.right, cb, k + |w.items|);
      w := Seen(w.items + v.items, v.ret);
    }
  }

  /** The walk sees the entries of the map, each once and by ascending key, up to
      the first that stops it. */
  method Traverse(t: Tree, cb: (nat, Payload) -> int) returns (w: Seen<Item>)
    requires t.Valid()
    ensures exists q :: Lists(q, t.contents) && w == Until(q, OnData(cb), 0)
  {
    InOrderLists(t.view, t.contents);
    if t.root == null { return Seen([], 0); }
    w := TraverseNode(t, t.root, cb, 0);
  }

  /** The leftmost node holds the entry with the least key. */
  method FindFirst(t: Tree) returns (r: Found)
    requires t.Valid()
    ensures r == None <==> t.contents == map[]
    ensures r.Some? ==> exists k :: k in t.contents && t.contents[k] == r.value && forall j <- t.contents :: k <= j
  {
    ghost var s, m := t.view, t.contents;
    var node := t.root;
    if node == null { EmptyHolds(s, m); return None; }
    while node.left != null
      invariant node in s.cells && s.cells[node].aux.lo == -1
      decreases Width(s, node)
    {
      assert t.SyncAt(node) && LinkAt(s, node);
      assert LinkAt(s, node.left);
      node := node.left;
    }
    assert t.SyncAt(node) && LinkAt(s, node) && InMap(s, m, node);
    forall j <- m ensures node.key32 <= j {
      assert HasKey(s, j);
      var x :| x in s.cells && s.cells[x].key == j;
      assert InMap(s, m, x) && LinkAt(s, x);
      if j < node.key32 { Descend(s, x, node); }
    }
    return Some(node.data);
  }
}
