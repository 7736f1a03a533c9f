/** The walk through trees of trees with a callback that may stop it, and its
    order at one level as the heap tree of that level gives it. */
module NestedWalk {
  import opened NestedTree
  import opened Stops
  import RbTraverse

  function OnVisit(cb: (nat, Payload) -> int): (nat, Visit) -> int { (k: nat, v: Visit) => cb(k, v.data) }

  lemma {:induction false} UntilPrefixed(k: int, vs: seq<Visit>, cb: (nat, Payload) -> int, j: nat)
    ensures var w := Until(vs, OnVisit(cb), j);
            Until(Prefixed(k, vs), OnVisit(cb), j) == Seen(Prefixed(k, w.items), w.ret)
  {
    var r := Prefixed(k, vs);
    if vs != [] {
      assert r[1..] == Prefixed(k, vs[1..]);
      UntilPrefixed(k, vs[1..], cb, j + 1);
      var w := Until(vs[1..], OnVisit(cb), j + 1);
      assert [r[0]] + Prefixed(k, w.items) == Prefixed(k, [vs[0]] + w.items);
      assert Prefixed(k, [vs[0]]) == [r[0]];
    }
  }

  // ---- the walk as the program makes it

  /** j visits have been made before. */
  ghost function Walk(t: Tree, n: nat, cb: (nat, Payload) -> int, j: nat): Seen<Visit>
    requires n >= 1 && WellShaped(t, Uniform(n))
    decreases n, 1, 0
  {
    WalkOf(t, n, Ascending(t.entries.Keys), cb, j)
  }

  /** The nodes of one tree in order; the first answer other than 0 ends the walk. */
  ghost function WalkOf(t: Tree, n: nat, ks: seq<int>, cb: (nat, Payload) -> int, j: nat): Seen<Visit>
    requires n >= 1 && WellShaped(t, Uniform(n)) && forall k <- ks :: k in t.entries
    decreases n, 0, |ks|
  {
    if ks == [] then Seen([], 0)
    else
      var w := WalkAt(t, n, ks[0], cb, j);
      if w.ret != 0 then w
      else
        var v := WalkOf(t, n, ks[1..], cb, j + |w.items|);
        Seen(w.items + v.items, v.ret)
  }

  ghost function WalkAt(t: Tree, n: nat, k: int, cb: (nat, Payload) -> int, j: nat): Seen<Visit>
    requires n >= 1 && WellShaped(t, Uniform(n)) && k in t.entries
    decreases n, 0, 0
  {
    assert |[k]| == 1;
    if n == 1 then
      Seen([Visit([k], t.entries[k].value)], cb(j, t.entries[k].value))
    else
      UniformRest(n, k);
      var w := Walk(t.entries[k].tree, n - 1, cb, j);
      Seen(Prefixed(k, w.items), w.ret)
  }

  /** The walk makes the visits of the full walk, in order, up to the one that stops it. */
  lemma {:induction false} WalkStops(t: Tree, n: nat, cb: (nat, Payload) -> int, j: nat)
    requires n >= 1 && WellShaped(t, Uniform(n))
    ensures Walk(t, n, cb, j) == Until(Visits(t, n), OnVisit(cb), j)
    decreases n, 1, 0
  {
    WalkOfStops(t, n, Ascending(t.entries.Keys), cb, j);
  }

  lemma {:induction false} WalkOfStops(t: Tree, n: nat, ks: seq<int>, cb: (nat, Payload) -> int, j: nat)
    requires n >= 1 && WellShaped(t, Uniform(n)) && forall k <- ks :: k in t.entries
    ensures WalkOf(t, n, ks, cb, j) == Until(VisitsOf(t, n, ks), OnVisit(cb), j)
    decreases n, 0, |ks|
  {
    if ks != [] {
      WalkAtStops(t, n, ks[0], cb, j);
      WalkOfStops(t, n, ks[1..], cb, j + |WalkAt(t, n, ks[0], cb, j).items|);
      UntilThen(VisitsAt(t, n, ks[0]), VisitsOf(t, n, ks[1..]), OnVisit(cb), j);
    }
  }

  lemma {:induction false} WalkAtStops(t: Tree, n: nat, k: int, cb: (nat, Payload) -> int, j: nat)
    requires n >= 1 && WellShaped(t, Uniform(n)) && k in t.entries
    ensures WalkAt(t, n, k, cb, j) == Until(VisitsAt(t, n, k), OnVisit(cb), j)
    decreases n, 0, 0
  {
    assert |[k]| == 1;
    if n == 1 {
      var v := Visit([k], t.entries[k].value);
      assert VisitsAt(t, n, k) == [v];
      UntilOne(v, OnVisit(cb), j);
    } else {
      UniformRest(n, k);
      WalkStops(t.entries[k].tree, n - 1, cb, j);
      UntilPrefixed(k, Visits(t.entries[k].tree, n - 1), cb, j);
    }
  }

  // ---- the order at one level

  ghost function Words(q: seq<RbTraverse.Item>): seq<int> {
    seq(|q|, i requires 0 <= i < |q| => q[i].key)
  }

  /** What the heap tree of a level lists, it lists in the order of this walk. */
  lemma LevelOrder(q: seq<RbTraverse.Item>, m: map<int, Payload>)
    requires RbTraverse.Lists(q, m)
    ensures Words(q) == Ascending(m.Keys)
  {
    var a := Words(q);
    assert forall i, j | 0 <= i < j < |a| :: a[i] < a[j];
    forall k ensures k in a <==> k in Ascending(m.Keys) { ListsWord(q, m, k); }
    OneOrder(a, Ascending(m.Keys));
  }

  lemma ListsWord(q: seq<RbTraverse.Item>, m: map<int, Payload>, k: int)
    requires RbTraverse.Lists(q, m)
    ensures k in Words(q) <==> k in m
  {
    var a := Words(q);
    if k in a {
      var i :| 0 <= i < |a| && a[i] == k;
      assert q[i].key in m;
    }
    if k in m {
      var i :| 0 <= i < |q| && q[i] == RbTraverse.Item(k, m[k]);
      assert a[i] == k;
    }
  }

  /** There is one ascending sequence of given numbers. */
  lemma {:induction false} OneOrder(a: seq<int>, b: seq<int>)
    requires (forall i, j | 0 <= i < j < |a| :: a[i] < a[j]) && (forall i, j | 0 <= i < j < |b| :: b[i] < b[j])
    requires forall k :: k in a <==> k in b
    ensures a == b
    decreases |a|
  {
    assert |a| > 0 ==> a[0] in a && a[0] in b;
    assert |b| > 0 ==> b[0] in b && b[0] in a;
    if a != [] {
      SameFirst(a, b);
      SameRest(a, b);
      OneOrder(a[1..], b[1..]);
      assert a == [a[0]] + a[1..] && b == [b[0]] + b[1..];
    }
  }

  lemma SameFirst(a: seq<int>, b: seq<int>)
    requires (forall i, j | 0 <= i < j < |a| :: a[i] < a[j]) && (forall i, j | 0 <= i < j < |b| :: b[i] < b[j])
    requires (forall k :: k in a <==> k in b) && a != [] && b != []
    ensures a[0] == b[0]
  {
    assert a[0] in b && b[0] in a;
    var i :| 0 <= i < |b| && b[i] == a[0];
    var j :| 0 <= j < |a| && a[j] == b[0];
  }

  lemma SameRest(a: seq<int>, b: seq<int>)
    requires (forall i, j | 0 <= i < j < |a| :: a[i] < a[j]) && (forall i, j | 0 <= i < j < |b| :: b[i] < b[j])
    requires (forall k :: k in a <==> k in b) && a != [] && b != [] && a[0] == b[0]
    ensures forall k :: k in a[1..] <==> k in b[1..]
  {
    forall k ensures k in a[1..] <==> k in b[1..] {
      assert k in a[1..] ==> k in a && k != a[0];
      assert k in b[1..] ==> k in b && k != b[0];
      assert a == [a[0]] + a[1..] && b == [b[0]] + b[1..];
    }
  }
}
