/** Trees of trees: a key is an array of words, each word picks the entry of one
    tree, and the entry of every word but the last is again a tree. Each tree is
    taken as the finite map it holds. The program does not tell a payload from a
    subtree; Confused is what would happen if it took one for the other. */
module NestedTree {

  import Ltdb

  type Payload = nat
  type Bytes = seq<Ltdb.byte>
  type Key = seq<int>

  datatype Tree = Tree(entries: map<int, Entry>)

  datatype Entry = Data(value: Payload) | Sub(tree: Tree)

  datatype Found = Missing | Hit(value: Payload) | Mixed

  datatype Outcome = Done(tree: Tree) | Confused

  type Callback = Found -> Payload

  const EMPTY := Tree(map[])

  function Lookup(t: Tree, key: Key): Found
    requires |key| >= 1
    decreases |key|
  {
    if key[0] !in t.entries then Missing
    else match t.entries[key[0]]
      case Data(d) => if |key| == 1 then Hit(d) else Mixed
      case Sub(u) => if |key| == 1 then Mixed else Lookup(u, key[1..])
  }

  /** The callback is given what the key holds, and its answer is stored. */
  function Insert(t: Tree, key: Key, cb: Callback): Outcome
    requires |key| >= 1
    decreases |key|
  {
    var k := key[0];
    if |key| == 1 then
      if k !in t.entries then Done(Tree(t.entries[k := Data(cb(Missing))]))
      else match t.entries[k]
        case Data(d) => Done(Tree(t.entries[k := Data(cb(Hit(d)))]))
        case Sub(_) => Confused
    else if k in t.entries && t.entries[k].Data? then Confused
    else
      var u := if k in t.entries then t.entries[k].tree else EMPTY;
      match Insert(u, key[1..], cb)
      case Confused => Confused
      case Done(u') => Done(Tree(t.entries[k := Sub(u')]))
  }

  /** Freeing the payload of a key takes its node out of its tree; a subtree that
      becomes empty is freed with it, and so on upwards. */
  function Remove(t: Tree, key: Key): Tree
    requires |key| >= 1
    decreases |key|
  {
    var k := key[0];
    if k !in t.entries then t
    else match t.entries[k]
      case Data(_) => if |key| == 1 then Tree(t.entries - {k}) else t
      case Sub(u) =>
        if |key| == 1 then t
        else
          var u' := Remove(u, key[1..]);
          if u'.entries == map[] then Tree(t.entries - {k}) else Tree(t.entries[k := Sub(u')])
  }

  // ---- which keys may live together

  /** No key in use is the beginning of another. */
  ghost predicate PrefixFree(d: iset<Key>) {
    && [] !in d
    && forall a, b :: a in d && b in d && a <= b ==> a == b
  }

  /** What may follow the word k. */
  ghost function Rest(d: iset<Key>, k: int): iset<Key> { iset r: Key | [k] + r in d }

  lemma RestPrefixFree(d: iset<Key>, k: int)
    requires PrefixFree(d) && [k] !in d
    ensures PrefixFree(Rest(d, k))
  {
    forall a, b | a in Rest(d, k) && b in Rest(d, k) && a <= b ensures a == b {
      assert [k] + a <= [k] + b;
      assert a == ([k] + a)[1..] && b == ([k] + b)[1..];
    }
    assert [k] + [] == [k];
  }

  /** Payloads sit where a key ends, no subtree is empty. */
  ghost predicate WellShaped(t: Tree, d: iset<Key>)
    decreases t
  {
    forall k <- t.entries ::
      && (t.entries[k].Data? ==> [k] in d)
      && (t.entries[k].Sub? ==>
            [k] !in d && t.entries[k].tree.entries != map[] && WellShaped(t.entries[k].tree, Rest(d, k)))
  }

  lemma Longer(d: iset<Key>, key: Key)
    requires PrefixFree(d) && key in d && |key| > 1
    ensures [key[0]] !in d && key[1..] in Rest(d, key[0])
  {
    assert [key[0]] <= key;
    assert [key[0]] + key[1..] == key;
  }

  lemma SharedHead(d: iset<Key>, key: Key, other: Key)
    requires PrefixFree(d) && key in d && other in d && other != key && |key| > 1
    requires |other| >= 1 && other[0] == key[0]
    ensures |other| > 1
  {
    assert |other| == 1 ==> other <= key;
  }

  /** A lookup never takes a payload for a subtree or the other way round. */
  lemma {:induction false} NeverMixed(t: Tree, d: iset<Key>, key: Key)
    requires PrefixFree(d) && WellShaped(t, d) && key in d
    ensures |key| >= 1 && Lookup(t, key) != Mixed
    decreases |key|
  {
    if |key| > 1 {
      Longer(d, key);
      if key[0] in t.entries && t.entries[key[0]].Sub? {
        RestPrefixFree(d, key[0]);
        NeverMixed(t.entries[key[0]].tree, Rest(d, key[0]), key[1..]);
      }
    } else {
      var k := key[0];
      assert k in t.entries && t.entries[k].Sub? ==> [k] !in d;
      assert [k] == key;
    }
  }

  /** Insertion changes the map at the given key and nowhere else. */
  lemma {:induction false} InsertAgrees(t: Tree, d: iset<Key>, key: Key, cb: Callback)
    requires PrefixFree(d) && WellShaped(t, d) && key in d
    ensures |key| >= 1
    ensures var r := Insert(t, key, cb);
            && r.Done? && WellShaped(r.tree, d) && r.tree.entries != map[]
            && Lookup(r.tree, key) == Hit(cb(Lookup(t, key)))
    decreases |key|
  {
    var k := key[0];
    if |key| == 1 {
      assert [k] == key;
      assert k in Insert(t, key, cb).tree.entries;
    } else {
      Longer(d, key);
      RestPrefixFree(d, k);
      var u := if k in t.entries then t.entries[k].tree else EMPTY;
      InsertAgrees(u, Rest(d, k), key[1..], cb);
      assert k in Insert(t, key, cb).tree.entries;
      if k !in t.entries { assert Lookup(EMPTY, key[1..]) == Missing; }
    }
  }

  lemma {:induction false} InsertKeepsOthers(t: Tree, d: iset<Key>, key: Key, cb: Callback, other: Key)
    requires PrefixFree(d) && WellShaped(t, d) && key in d && other in d && other != key
    ensures |key| >= 1 && |other| >= 1 && Insert(t, key, cb).Done?
    ensures Lookup(Insert(t, key, cb).tree, other) == Lookup(t, other)
    decreases |key|
  {
    InsertAgrees(t, d, key, cb);
    var k := key[0];
    if |key| == 1 {
      assert [k] == key;
      assert other[0] == k ==> key <= other;
    } else if other[0] == k {
      Longer(d, key);
      RestPrefixFree(d, k);
      SharedHead(d, key, other);
      Longer(d, other);
      assert other == [k] + other[1..] && key == [k] + key[1..];
      var u := if k in t.entries then t.entries[k].tree else EMPTY;
      InsertKeepsOthers(u, Rest(d, k), key[1..], cb, other[1..]);
      if k !in t.entries { assert Lookup(EMPTY, other[1..]) == Missing; }
    }
  }

  /** Removal forgets the given key and no other, and leaves no empty subtree. */
  lemma {:induction false} RemoveAgrees(t: Tree, d: iset<Key>, key: Key)
    requires PrefixFree(d) && WellShaped(t, d) && key in d
    ensures |key| >= 1
    ensures WellShaped(Remove(t, key), d) && Lookup(Remove(t, key), key) == Missing
    decreases |key|
  {
    var k := key[0];
    if |key| == 1 {
      assert [k] == key;
    } else {
      Longer(d, key);
      RestPrefixFree(d, k);
      if k in t.entries { RemoveAgrees(t.entries[k].tree, Rest(d, k), key[1..]); }
    }
  }

  lemma {:induction false} RemoveKeepsOthers(t: Tree, d: iset<Key>, key: Key, other: Key)
    requires PrefixFree(d) && WellShaped(t, d) && key in d && other in d && other != key
    ensures |key| >= 1 && |other| >= 1
    ensures Lookup(Remove(t, key), other) == Lookup(t, other)
    decreases |key|
  {
    var k := key[0];
    if |key| == 1 {
      assert [k] == key;
      assert other[0] == k ==> key <= other;
    } else if other[0] == k {
      Longer(d, key);
      RestPrefixFree(d, k);
      SharedHead(d, key, other);
      Longer(d, other);
      assert other == [k] + other[1..] && key == [k] + key[1..];
      if k in t.entries { RemoveKeepsOthers(t.entries[k].tree, Rest(d, k), key[1..], other[1..]); }
    }
  }

  /** The condition is needed: a key below a payload makes the program take the
      payload for a tree. */
  lemma {:induction false} PrefixMixes(a: Key, b: Key, cb: Callback)
    requires |a| >= 1 && a < b
    ensures Insert(EMPTY, a, cb).Done? && Lookup(Insert(EMPTY, a, cb).tree, b) == Mixed
    decreases |a|
  {
    if |a| > 1 { PrefixMixes(a[1..], b[1..], cb); }
  }

  // ---- whole runs

  datatype Op = Store(key: Key, cb: Callback) | Free(key: Key)

  ghost function Run(t: Tree, ops: seq<Op>): Outcome
    requires forall i | 0 <= i < |ops| :: |ops[i].key| >= 1
    decreases |ops|
  {
    if ops == [] then Done(t)
    else match ops[0]
      case Free(key) => Run(Remove(t, key), ops[1..])
      case Store(key, cb) =>
        var r := Insert(t, key, cb);
        if r.Done? then Run(r.tree, ops[1..]) else Confused
  }

  ghost function InMap(m: map<Key, Payload>, key: Key): Found { if key in m then Hit(m[key]) else Missing }

  ghost function MapRun(m: map<Key, Payload>, ops: seq<Op>): map<Key, Payload>
    decreases |ops|
  {
    if ops == [] then m
    else match ops[0]
      case Free(key) => MapRun(m - {key}, ops[1..])
      case Store(key, cb) => MapRun(m[key := cb(InMap(m, key))], ops[1..])
  }

  ghost predicate Agrees(t: Tree, d: iset<Key>, m: map<Key, Payload>) {
    forall key :: key in d && |key| >= 1 ==> Lookup(t, key) == InMap(m, key)
  }

  /** From any agreeing state, every run of stores and frees goes through and the
      trees keep agreeing with a finite map. */
  lemma {:induction false} RunAgrees(t: Tree, d: iset<Key>, m: map<Key, Payload>, ops: seq<Op>)
    requires PrefixFree(d) && WellShaped(t, d) && Agrees(t, d, m)
    requires forall i | 0 <= i < |ops| :: ops[i].key in d
    ensures forall i | 0 <= i < |ops| :: |ops[i].key| >= 1
    ensures var r := Run(t, ops); r.Done? && WellShaped(r.tree, d) && Agrees(r.tree, d, MapRun(m, ops))
    decreases |ops|
  {
    if ops != [] {
      var key := ops[0].key;
      match ops[0]
      case Free(_) =>
        RemoveAgrees(t, d, key);
        forall other | other in d && |other| >= 1 ensures Lookup(Remove(t, key), other) == InMap(m - {key}, other) {
          if other != key { RemoveKeepsOthers(t, d, key, other); }
        }
        RunAgrees(Remove(t, key), d, m - {key}, ops[1..]);
      case Store(_, cb) =>
        InsertAgrees(t, d, key, cb);
        var u, m' := Insert(t, key, cb).tree, m[key := cb(InMap(m, key))];
        forall other | other in d && |other| >= 1 ensures Lookup(u, other) == InMap(m', other) {
          if other != key { InsertKeepsOthers(t, d, key, cb, other); }
        }
        RunAgrees(u, d, m', ops[1..]);
    }
  }

  // ---- keys of records: the number of words, then the bytes padded with zeros

  function Word(b: Bytes): int {
    var at := (i: nat) => if i < |b| then b[i] as int else 0;
    at(0) + 0x100 * at(1) + 0x1_0000 * at(2) + 0x100_0000 * at(3)
  }

  function Words(b: Bytes): (w: Key)
    ensures |w| == (|b| + 3) / 4
  {
    if |b| <= 4 then (if b == [] then [] else [Word(b)])
    else [Word(b[..4])] + Words(b[4..])
  }

  function Encode(b: Bytes): Key { [(|b| + 3) / 4 + 1] + Words(b) }

  /** Keys that begin with their own length. */
  ghost const COUNTED: iset<Key> := iset key: Key | |key| >= 1 && key[0] == |key|

  lemma EncodedKeys(b: Bytes)
    ensures PrefixFree(COUNTED) && Encode(b) in COUNTED
  {
    forall a: Key, c: Key | a in COUNTED && c in COUNTED && a <= c ensures a == c {
      assert a == c[..|a|];
    }
  }

  /** The bytes of a key, with zeros up to a whole number of words. */
  function ZeroPadded(b: Bytes): (p: Bytes)
    ensures |p| == 4 * ((|b| + 3) / 4) && b <= p && forall i | |b| <= i < |p| :: p[i] == 0
  {
    b + seq(4 * ((|b| + 3) / 4) - |b|, _ => 0)
  }

  lemma {:induction false} WordsOfPadded(b: Bytes)
    ensures Words(ZeroPadded(b)) == Words(b)
  {
    var p := ZeroPadded(b);
    if |b| > 4 {
      assert p[..4] == b[..4] && p[4..] == ZeroPadded(b[4..]);
      WordsOfPadded(b[4..]);
    }
  }

  lemma SameWord(a: Bytes, b: Bytes)
    requires |a| == |b| == 4 && Word(a) == Word(b)
    ensures a == b
  {
    var n := a[0] as int + 0x100 * (a[1] as int) + 0x1_0000 * (a[2] as int) + 0x100_0000 * (a[3] as int);
    assert Word(a) == n;
    assert n == b[0] as int + 0x100 * (b[1] as int) + 0x1_0000 * (b[2] as int) + 0x100_0000 * (b[3] as int);
  }

  lemma FirstWord(p: Bytes)
    requires |p| >= 4
    ensures Words(p) != [] && Words(p)[0] == Word(p[..4]) && Words(p)[1..] == Words(p[4..])
  {
    if |p| == 4 { assert p[..4] == p && p[4..] == []; }
  }

  lemma {:induction false} WholeWords(p: Bytes, q: Bytes)
    requires |p| % 4 == 0 && |q| % 4 == 0 && Words(p) == Words(q)
    ensures p == q
  {
    if p != [] {
      FirstWord(p);
      FirstWord(q);
      SameWord(p[..4], q[..4]);
      WholeWords(p[4..], q[4..]);
      assert p == p[..4] + p[4..] && q == q[..4] + q[4..];
    }
  }

  /** Keys encode alike exactly when they have the same number of words and differ in
      nothing but zeros at the end of the last one. */
  lemma EncodeAlike(a: Bytes, b: Bytes)
    ensures Encode(a) == Encode(b) <==> (|a| + 3) / 4 == (|b| + 3) / 4 && ZeroPadded(a) == ZeroPadded(b)
  {
    WordsOfPadded(a);
    WordsOfPadded(b);
    if Encode(a) == Encode(b) {
      assert Encode(a)[1..] == Words(a) && Encode(b)[1..] == Words(b);
      WholeWords(ZeroPadded(a), ZeroPadded(b));
    }
  }

  // ---- walking the trees of keys of one length

  ghost function Uniform(n: nat): iset<Key> { iset key: Key | |key| == n }

  lemma UniformRest(n: nat, k: int)
    requires n >= 1
    ensures PrefixFree(Uniform(n)) && Rest(Uniform(n), k) == Uniform(n - 1)
  {
    forall a: Key, b: Key | a in Uniform(n) && b in Uniform(n) && a <= b ensures a == b {
      assert a == b[..|a|];
    }
    forall r: Key ensures r in Rest(Uniform(n), k) <==> r in Uniform(n - 1) {
      assert |[k] + r| == 1 + |r|;
    }
  }

  ghost function Least(s: set<int>): (least: int)
    requires s != {}
    ensures least in s && forall y <- s :: least <= y
    decreases |s|
  {
    assert exists x :: x in s by { assert (forall x :: x !in s) ==> s == {}; }
    var x :| x in s;
    var r := s - {x};
    if |r| == 0 then
      assert forall y <- s :: y == x || y in r;
      x
    else
      var y := Least(r);
      assert forall z <- s :: z == x || z in r;
      if x < y then x else y
  }

  ghost function Ascending(s: set<int>): (q: seq<int>)
    ensures forall i, j | 0 <= i < j < |q| :: q[i] < q[j]
    ensures forall k :: k in q <==> k in s
    decreases |s|
  {
    if s == {} then []
    else
      var x := Least(s);
      var q := Ascending(s - {x});
      assert forall i | 0 <= i < |q| :: q[i] in q && x < q[i];
      [x] + q
  }

  datatype Visit = Visit(key: Key, data: Payload)

  function Prefixed(k: int, vs: seq<Visit>): (r: seq<Visit>)
    ensures |r| == |vs| && forall i | 0 <= i < |r| :: r[i] == Visit([k] + vs[i].key, vs[i].data)
  {
    seq(|vs|, i requires 0 <= i < |vs| => Visit([k] + vs[i].key, vs[i].data))
  }

  /** The payloads in the order of the walk, each with its key. */
  ghost function Visits(t: Tree, n: nat): seq<Visit>
    requires n >= 1 && WellShaped(t, Uniform(n))
    decreases n, 1, 0
  {
    VisitsOf(t, n, Ascending(t.entries.Keys))
  }

  ghost function VisitsOf(t: Tree, n: nat, ks: seq<int>): seq<Visit>
    requires n >= 1 && WellShaped(t, Uniform(n)) && forall k <- ks :: k in t.entries
    decreases n, 0, |ks|
  {
    if ks == [] then [] else VisitsAt(t, n, ks[0]) + VisitsOf(t, n, ks[1..])
  }

  ghost function VisitsAt(t: Tree, n: nat, k: int): seq<Visit>
    requires n >= 1 && WellShaped(t, Uniform(n)) && k in t.entries
    decreases n, 0, 0
  {
    if n == 1 then
      assert |[k]| == 1;
      [Visit([k], t.entries[k].value)]
    else
      UniformRest(n, k);
      assert |[k]| == 1;
      Prefixed(k, Visits(t.entries[k].tree, n - 1))
  }

  predicate LexLess(a: Key, b: Key)
    decreases |a|
  {
    |a| > 0 && |b| > 0 && (a[0] < b[0] || (a[0] == b[0] && LexLess(a[1..], b[1..])))
  }

  ghost predicate Sorted(vs: seq<Visit>) {
    forall i, j | 0 <= i < j < |vs| :: LexLess(vs[i].key, vs[j].key)
  }

  /** Every visit below the word k carries that word first. */
  ghost predicate Headed(vs: seq<Visit>, ks: seq<int>) {
    forall i | 0 <= i < |vs| :: |vs[i].key| >= 1 && vs[i].key[0] in ks
  }

  lemma PrefixedSorted(k: int, vs: seq<Visit>)
    requires Sorted(vs)
    ensures Sorted(Prefixed(k, vs)) && Headed(Prefixed(k, vs), [k])
  {
    var r := Prefixed(k, vs);
    forall i, j | 0 <= i < j < |r| ensures LexLess(r[i].key, r[j].key) {
      assert r[i].key[1..] == vs[i].key && r[j].key[1..] == vs[j].key;
    }
  }

  lemma JoinSorted(a: seq<Visit>, k: int, b: seq<Visit>, ks: seq<int>)
    requires Sorted(a) && Headed(a, [k]) && Sorted(b) && Headed(b, ks) && forall j <- ks :: k < j
    ensures Sorted(a + b) && Headed(a + b, [k] + ks)
  {
  }

  /** The walk goes through the keys in lexicographic order. */
  lemma {:induction false} VisitsSorted(t: Tree, n: nat)
    requires n >= 1 && WellShaped(t, Uniform(n))
    ensures Sorted(Visits(t, n))
    decreases n, 2, 0
  {
    VisitsOfSorted(t, n, Ascending(t.entries.Keys));
  }

  lemma {:induction false} VisitsOfSorted(t: Tree, n: nat, ks: seq<int>)
    requires n >= 1 && WellShaped(t, Uniform(n)) && (forall k <- ks :: k in t.entries)
    requires forall i, j | 0 <= i < j < |ks| :: ks[i] < ks[j]
    ensures Sorted(VisitsOf(t, n, ks)) && Headed(VisitsOf(t, n, ks), ks)
    decreases n, 1, |ks|
  {
    if ks != [] {
      var k := ks[0];
      VisitsOfSorted(t, n, ks[1..]);
      VisitsAtSorted(t, n, k);
      JoinSorted(VisitsAt(t, n, k), k, VisitsOf(t, n, ks[1..]), ks[1..]);
      assert [k] + ks[1..] == ks;
    }
  }

  lemma {:induction false} VisitsAtSorted(t: Tree, n: nat, k: int)
    requires n >= 1 && WellShaped(t, Uniform(n)) && k in t.entries
    ensures Sorted(VisitsAt(t, n, k)) && Headed(VisitsAt(t, n, k), [k])
    decreases n, 0, 1
  {
    if n == 1 {
      assert VisitsAt(t, n, k) == [Visit([k], t.entries[k].value)] by { assert |[k]| == 1; }
    } else {
      var vs := BelowSorted(t, n, k);
      PrefixedSorted(k, vs);
    }
  }

  lemma {:induction false} BelowSorted(t: Tree, n: nat, k: int) returns (vs: seq<Visit>)
    requires n > 1 && WellShaped(t, Uniform(n)) && k in t.entries
    ensures Sorted(vs) && VisitsAt(t, n, k) == Prefixed(k, vs)
    decreases n, 0, 0
  {
    UniformRest(n, k);
    assert |[k]| == 1;
    VisitsSorted(t.entries[k].tree, n - 1);
    vs := Visits(t.entries[k].tree, n - 1);
  }

  lemma PrefixedHas(k: int, vs: seq<Visit>, key: Key, data: Payload)
    requires |key| >= 1
    ensures Visit(key, data) in Prefixed(k, vs) <==> key[0] == k && Visit(key[1..], data) in vs
  {
    var r := Prefixed(k, vs);
    assert key == [key[0]] + key[1..];
    if Visit(key, data) in r {
      var i :| 0 <= i < |r| && r[i] == Visit(key, data);
      assert ([k] + vs[i].key)[1..] == vs[i].key;
      assert vs[i] in vs;
    }
    if key[0] == k && Visit(key[1..], data) in vs {
      var i :| 0 <= i < |vs| && vs[i] == Visit(key[1..], data);
      assert r[i] in r;
    }
  }

  /** The walk meets exactly the payloads that lookups find. */
  lemma {:induction false} VisitsExact(t: Tree, n: nat, key: Key, data: Payload)
    requires n >= 1 && WellShaped(t, Uniform(n)) && |key| == n
    ensures Visit(key, data) in Visits(t, n) <==> Lookup(t, key) == Hit(data)
    decreases n, 1, 0
  {
    VisitsOfExact(t, n, Ascending(t.entries.Keys), key, data);
  }

  lemma {:induction false} VisitsOfExact(t: Tree, n: nat, ks: seq<int>, key: Key, data: Payload)
    requires n >= 1 && WellShaped(t, Uniform(n)) && |key| == n && forall k <- ks :: k in t.entries
    ensures Visit(key, data) in VisitsOf(t, n, ks) <==> key[0] in ks && Lookup(t, key) == Hit(data)
    decreases n, 0, |ks|
  {
    if ks != [] {
      var k := ks[0];
      VisitsOfExact(t, n, ks[1..], key, data);
      VisitsAtExact(t, n, k, key, data);
      assert ks == [k] + ks[1..];
    }
  }

  lemma {:induction false} VisitsAtExact(t: Tree, n: nat, k: int, key: Key, data: Payload)
    requires n >= 1 && WellShaped(t, Uniform(n)) && |key| == n && k in t.entries
    ensures Visit(key, data) in VisitsAt(t, n, k) <==> key[0] == k && Lookup(t, key) == Hit(data)
    decreases n, 0, 0
  {
    assert |[k]| == 1;
    if n == 1 {
      VisitsAtLeaf(t, k, key, data);
    } else {
      UniformRest(n, k);
      VisitsExact(t.entries[k].tree, n - 1, key[1..], data);
      PrefixedHas(k, Visits(t.entries[k].tree, n - 1), key, data);
    }
  }

  lemma VisitsAtLeaf(t: Tree, k: int, key: Key, data: Payload)
    requires WellShaped(t, Uniform(1)) && |key| == 1 && k in t.entries
    ensures Visit(key, data) in VisitsAt(t, 1, k) <==> key[0] == k && Lookup(t, key) == Hit(data)
  {
    assert |[k]| == 1 && key == [key[0]];
    assert VisitsAt(t, 1, k) == [Visit([k], t.entries[k].value)];
  }

  ghost function FindFirst(t: Tree, n: nat): Found
    decreases n
  {
    if n < 1 || t.entries == map[] then Missing
    else
      match t.entries[Least(t.entries.Keys)]
      case Data(d) => if n == 1 then Hit(d) else Mixed
      case Sub(u) => if n == 1 then Mixed else FindFirst(u, n - 1)
  }

  lemma LeastFirst(t: Tree, n: nat)
    requires n >= 1 && WellShaped(t, Uniform(n)) && t.entries != map[]
    ensures var k := Least(t.entries.Keys);
            && k in t.entries && VisitsAt(t, n, k) <= Visits(t, n)
  {
    var ks := Ascending(t.entries.Keys);
    var k := Least(t.entries.Keys);
    assert ks[0] == k;
    assert Visits(t, n) == VisitsAt(t, n, k) + VisitsOf(t, n, ks[1..]);
  }

  /** The first entry is the least key's. */
  lemma {:induction false} FirstIsLeast(t: Tree, n: nat)
    requires n >= 1 && WellShaped(t, Uniform(n))
    ensures t.entries == map[] ==> Visits(t, n) == [] && FindFirst(t, n) == Missing
    ensures t.entries != map[] ==> Visits(t, n) != [] && FindFirst(t, n) == Hit(Visits(t, n)[0].data)
    decreases n
  {
    if t.entries != map[] {
      var k := Least(t.entries.Keys);
      LeastFirst(t, n);
      assert |[k]| == 1;
      if n > 1 {
        UniformRest(n, k);
        FirstIsLeast(t.entries[k].tree, n - 1);
      }
      assert VisitsAt(t, n, k) != [] && Visits(t, n)[0] == VisitsAt(t, n, k)[0];
    }
  }
}
