/** A walk whose callback may stop it. The callback has a state of its own, so its
    answer may depend on the number of the visit as well as on what it is shown. */
module Stops {

  /** What was seen, and the last answer. */
  datatype Seen<T> = Seen(items: seq<T>, ret: int)

  /** The entries up to the first whose callback answers something else than 0; k
      visits have been made before. */
  function Until<T>(q: seq<T>, cb: (nat, T) -> int, k: nat): Seen<T> {
    if q == [] then Seen([], 0)
    else if cb(k, q[0]) != 0 then Seen([q[0]], cb(k, q[0]))
    else
      var w := Until(q[1..], cb, k + 1);
      Seen([q[0]] + w.items, w.ret)
  }

  /** It is the beginning of the listing, all of it unless a callback stops it; only
      the last one seen can do so, and its answer is the result. */
  lemma {:induction false} UntilMeans<T>(q: seq<T>, cb: (nat, T) -> int, k: nat)
    ensures var w := Until(q, cb, k);
            && w.items <= q && (w.ret == 0 ==> w.items == q)
            && (w.ret != 0 ==> w.items != [] && cb(k + |w.items| - 1, w.items[|w.items| - 1]) == w.ret)
            && forall i | 0 <= i < |w.items| :: w.ret == 0 || i < |w.items| - 1 ==> cb(k + i, w.items[i]) == 0
  {
    if q != [] && cb(k, q[0]) == 0 {
      UntilMeans(q[1..], cb, k + 1);
      var w, v := Until(q, cb, k), Until(q[1..], cb, k + 1);
      forall i | 0 <= i < |w.items| && (w.ret == 0 || i < |w.items| - 1) ensures cb(k + i, w.items[i]) == 0 {
        if i > 0 { assert w.items[i] == v.items[i - 1] && cb(k + 1 + (i - 1), v.items[i - 1]) == 0; }
      }
    }
  }

  lemma {:induction false} UntilJoin<T>(a: seq<T>, b: seq<T>, cb: (nat, T) -> int, k: nat)
    ensures var w, v := Until(a, cb, k), Until(b, cb, k + |a|);
            && (w.ret == 0 ==> w.items == a)
            && Until(a + b, cb, k) == if w.ret != 0 then w else Seen(a + v.items, v.ret)
  {
    if a == [] {
      assert a + b == b && a + Until(b, cb, k).items == Until(b, cb, k).items;
    } else {
      assert (a + b)[1..] == a[1..] + b;
      UntilJoin(a[1..], b, cb, k + 1);
    }
  }

  /** One listing after the other. */
  lemma {:induction false} UntilThen<T>(a: seq<T>, b: seq<T>, cb: (nat, T) -> int, k: nat)
    ensures var w := Until(a, cb, k);
            var v := Until(b, cb, k + |w.items|);
            Until(a + b, cb, k) == if w.ret != 0 then w else Seen(w.items + v.items, v.ret)
  {
    UntilJoin(a, b, cb, k);
  }

  lemma UntilOne<T>(x: T, cb: (nat, T) -> int, k: nat)
    ensures Until([x], cb, k) == Seen([x], cb(k, x))
  {
    assert [x][1..] == [];
  }

  /** Left of an entry, the entry itself, right of it. */
  lemma {:induction false} UntilAround<T>(l: seq<T>, x: T, r: seq<T>, cb: (nat, T) -> int, k: nat)
    ensures var w, v, a := Until(l, cb, k), Until(r, cb, k + |l| + 1), cb(k + |l|, x);
            && (w.ret == 0 ==> w.items == l)
            && Until(l + [x] + r, cb, k)
               == if w.ret != 0 then w else if a != 0 then Seen(l + [x], a) else Seen(l + [x] + v.items, v.ret)
  {
    UntilJoin(l + [x], r, cb, k);
    UntilJoin(l, [x], cb, k);
    UntilOne(x, cb, k + |l|);
  }
}
