/** The chain walks of the offline checker, as functions, and what they mean. */
module JournalVerifyChains {
  import opened JournalDef
  import opened EntryArrays
  import opened JournalView
  import opened JournalVerifySpec

  function Prefixed(l: seq<nat>, o: Option<seq<nat>>): Option<seq<nat>> {
    match o
    case None => None
    case Some(r) => Some(l + r)
  }

  function Min(a: nat, b: nat): nat {
    if a < b then a else b
  }

  /** Array a may be visited: it is an array of the file and leads nowhere but forward. */
  predicate ArrayOk(objs: Heap, arrays: seq<nat>, a: nat) {
    a != 0 && a in arrays && IsArray(objs, a) && objs[a].slots != [] && (objs[a].next == 0 || objs[a].next > a)
  }

  /** The first n items stored in the chain that starts at a, if the chain is sound that far. */
  function Collect(objs: Heap, arrays: seq<nat>, a: nat, n: nat): Option<seq<nat>>
    decreases n
  {
    if n == 0 then Some([])
    else if !ArrayOk(objs, arrays, a) then None
    else
      var u := Min(n, |objs[a].slots|);
      Prefixed(objs[a].slots[..u], Collect(objs, arrays, objs[a].next, n - u))
  }

  lemma {:induction false} FlatCons(objs: Heap, chain: seq<nat>)
    requires chain != []
    ensures Flat(objs, chain) == Slots(objs, chain[0]) + Flat(objs, chain[1..])
  {
    if |chain| == 1 {
      assert chain[..0] == [] && chain[1..] == [];
      assert Flat(objs, chain[..0]) == [];
    } else {
      hide Slots;
      var front := chain[..|chain| - 1];
      FlatCons(objs, front);
      var t := chain[1..];
      assert t[..|t| - 1] == front[1..] && t[|t| - 1] == chain[|chain| - 1] && front[0] == chain[0];
      assert Flat(objs, t) == Flat(objs, front[1..]) + Slots(objs, chain[|chain| - 1]);
      assert Flat(objs, chain) == Flat(objs, front) + Slots(objs, chain[|chain| - 1]);
      assert Slots(objs, chain[0]) + (Flat(objs, front[1..]) + Slots(objs, chain[|chain| - 1])) ==
             (Slots(objs, chain[0]) + Flat(objs, front[1..])) + Slots(objs, chain[|chain| - 1]);
    }
  }

  lemma {:induction false} CollectSize(objs: Heap, arrays: seq<nat>, a: nat, n: nat)
    ensures Collect(objs, arrays, a, n).Some? ==> |Collect(objs, arrays, a, n).value| == n
    decreases n
  {
    if n > 0 && ArrayOk(objs, arrays, a) {
      CollectSize(objs, arrays, objs[a].next, n - Min(n, |objs[a].slots|));
    }
  }

  /** What is collected is stored in a chain. */
  lemma {:induction false} CollectStores(objs: Heap, arrays: seq<nat>, a: nat, n: nat) returns (chain: seq<nat>)
    requires Collect(objs, arrays, a, n).Some?
    ensures Stores(objs, arrays, a, chain, Collect(objs, arrays, a, n).value)
    decreases n
  {
    if n == 0 {
      chain := [];
    } else {
      var u := Min(n, |objs[a].slots|);
      var rest := CollectStores(objs, arrays, objs[a].next, n - u);
      chain := [a] + rest;
      StoresCons(objs, arrays, a, rest, n);
    }
  }

  lemma {:induction false} StoresCons(objs: Heap, arrays: seq<nat>, a: nat, rest: seq<nat>, n: nat)
    requires n > 0 && ArrayOk(objs, arrays, a)
    requires var u := Min(n, |objs[a].slots|);
             && Collect(objs, arrays, objs[a].next, n - u).Some?
             && Stores(objs, arrays, objs[a].next, rest, Collect(objs, arrays, objs[a].next, n - u).value)
    ensures Stores(objs, arrays, a, [a] + rest, Collect(objs, arrays, a, n).value)
  {
    var slots := objs[a].slots;
    var u := Min(n, |slots|);
    var l := Collect(objs, arrays, objs[a].next, n - u).value;
    var chain := [a] + rest;
    CollectSize(objs, arrays, objs[a].next, n - u);
    FlatCons(objs, chain);
    assert chain[1..] == rest;
    PathCons(objs, a, rest);
    assert Slots(objs, a) == slots;
    assert forall j :: 1 <= j < |chain| ==> chain[j] == rest[j - 1];
    hide Path, Flat, ArrayOk, Slots;
    StoredCons(objs, a, rest, u, l);
  }

  /** What is stored in front of l. */
  lemma {:induction false} StoredCons(objs: Heap, a: nat, rest: seq<nat>, u: nat, l: seq<nat>)
    requires u <= |Slots(objs, a)| && u > 0 && l <= Flat(objs, rest)
    requires if rest == [] then l == [] else u == |Slots(objs, a)| && |Flat(objs, rest[..|rest| - 1])| < |l|
    ensures var chain := [a] + rest;
            Slots(objs, a)[..u] + l <= Flat(objs, chain) && |Flat(objs, chain[..|chain| - 1])| < u + |l|
  {
    var chain := [a] + rest;
    FlatCons(objs, chain);
    assert chain[1..] == rest;
    if rest == [] {
      assert chain[..0] == [];
    } else {
      var front := chain[..|chain| - 1];
      FlatCons(objs, front);
      assert front[1..] == rest[..|rest| - 1];
      assert Slots(objs, a)[..u] == Slots(objs, a);
    }
  }

  lemma {:induction false} PathCons(objs: Heap, a: nat, rest: seq<nat>)
    requires a != 0 && IsArray(objs, a) && objs[a].slots != [] && Path(objs, objs[a].next, rest)
    ensures Path(objs, a, [a] + rest)
  {
    var chain := [a] + rest;
    forall j, k | 0 <= j && k == j + 1 && k < |chain| ensures objs[chain[j]].next == chain[k] {
      if j > 0 {
        assert objs[rest[j - 1]].next == rest[k - 1];
      }
    }
  }

  /** What is stored in a chain is collected. */
  lemma {:induction false} StoresCollect(objs: Heap, arrays: seq<nat>, a: nat, chain: seq<nat>, list: seq<nat>)
    requires Stores(objs, arrays, a, chain, list)
    ensures Collect(objs, arrays, a, |list|) == Some(list)
    decreases |list|
  {
    if list == [] {
    } else {
      assert chain == [] ==> Flat(objs, chain) == [];
      assert chain != [] && chain[0] == a;
      var slots := objs[a].slots;
      var u := Min(|list|, |slots|);
      FlatCons(objs, chain);
      PrefixTail(list, slots, Flat(objs, chain[1..]), u);
      StoresTail(objs, arrays, a, chain, list, u);
      StoresCollect(objs, arrays, objs[a].next, chain[1..], list[u..]);
    }
  }

  lemma {:induction false} PathTail(objs: Heap, a: nat, chain: seq<nat>)
    requires Path(objs, a, chain) && chain != []
    ensures Path(objs, objs[a].next, chain[1..])
  {
    var rest := chain[1..];
    forall j, k | 0 <= j && k == j + 1 && k < |rest| ensures objs[rest[j]].next == rest[k] {
      assert objs[chain[j + 1]].next == chain[k + 1];
    }
    if rest != [] {
      assert objs[chain[0]].next == chain[1];
    }
  }

  lemma {:induction false} PrefixTail(list: seq<nat>, head: seq<nat>, tail: seq<nat>, u: nat)
    requires list <= head + tail && u == Min(|list|, |head|)
    ensures list[u..] <= tail && list == head[..u] + list[u..]
  {
    var flat := head + tail;
    assert list == flat[..|list|];
    if u == |head| {
      assert list[u..] == tail[..|list| - u];
    }
  }

  lemma {:induction false} StoresTail(objs: Heap, arrays: seq<nat>, a: nat, chain: seq<nat>, list: seq<nat>, u: nat)
    requires Stores(objs, arrays, a, chain, list) && chain != [] && list != []
    requires a == chain[0] && u == Min(|list|, |objs[a].slots|)
    ensures Stores(objs, arrays, objs[a].next, chain[1..], list[u..])
  {
    assert IsArray(objs, a);
    hide Flat, Path;
    var rest := chain[1..];
    PathTail(objs, a, chain);
    FlatCons(objs, chain);
    PrefixTail(list, objs[a].slots, Flat(objs, rest), u);
    if rest != [] {
      var front := chain[..|chain| - 1];
      FlatCons(objs, front);
      assert front[1..] == rest[..|rest| - 1];
    }
  }

  // ---------- hash chains ----------

  /** The data objects on the chain of bucket b from p on, if the chain is sound. */
  function WalkBucket(objs: Heap, data: seq<nat>, n: nat, b: nat, p: nat, limit: nat): Option<seq<nat>>
    requires n > 0
    decreases p != 0, if p <= limit then limit - p + 1 else 0
  {
    if p == 0 then Some([])
    else if p > limit || p !in data || !Is(objs, p, KData) then None
    else if objs[p].nextHash != 0 && objs[p].nextHash <= p then None
    else if BucketOf(objs[p].hash, n) != b then None
    else Prefixed([p], WalkBucket(objs, data, n, b, objs[p].nextHash, limit))
  }

  /** A part of a bucket's chain, from `head` to its end. */
  ghost predicate ChainFrom(objs: Heap, n: nat, b: nat, head: nat, c: seq<nat>)
    requires n > 0
  {
    && Increasing(c)
    && head == (if c == [] then 0 else c[0])
    && (forall i :: 0 <= i < |c| ==> c[i] != 0 && Is(objs, c[i], KData) && BucketOf(HashAt(objs, c[i]), n) == b)
    && (forall i, j :: 0 <= i && j == i + 1 && j < |c| ==> NextHashAt(objs, c[i]) == c[j])
    && (c != [] ==> NextHashAt(objs, c[|c| - 1]) == 0)
  }

  lemma {:induction false} ChainFromBucket(objs: Heap, n: nat, b: nat, item: HashItem, c: seq<nat>)
    requires n > 0
    ensures BucketChain(objs, KData, n, b, item, c) <==> ChainFrom(objs, n, b, item.head, c) && item.tail == LastOr0(c)
  {
    hide BucketOf;
  }

  lemma {:induction false} WalkIsChain(objs: Heap, data: seq<nat>, n: nat, b: nat, p: nat, limit: nat)
    requires n > 0 && WalkBucket(objs, data, n, b, p, limit).Some?
    ensures var c := WalkBucket(objs, data, n, b, p, limit).value;
            ChainFrom(objs, n, b, p, c) && forall i :: 0 <= i < |c| ==> c[i] in data
    decreases p != 0, if p <= limit then limit - p + 1 else 0
  {
    hide BucketOf;
    if p != 0 {
      var next := objs[p].nextHash;
      WalkIsChain(objs, data, n, b, next, limit);
      var c := WalkBucket(objs, data, n, b, next, limit).value;
      forall i, j | 0 <= i && j == i + 1 && j < |[p] + c| ensures NextHashAt(objs, ([p] + c)[i]) == ([p] + c)[j] {
        if i > 0 {
          assert NextHashAt(objs, c[i - 1]) == c[j - 1];
        }
      }
      if c != [] {
        assert forall i :: 0 <= i < |c| ==> c[0] <= c[i];
      }
    }
  }

  lemma {:induction false} ChainIsWalked(objs: Heap, data: seq<nat>, n: nat, b: nat, p: nat, limit: nat, c: seq<nat>)
    requires n > 0 && ChainFrom(objs, n, b, p, c) && forall i :: 0 <= i < |c| ==> c[i] in data && c[i] <= limit
    ensures WalkBucket(objs, data, n, b, p, limit) == Some(c)
    decreases |c|
  {
    hide BucketOf;
    if c != [] {
      assert c[0] == p && Is(objs, p, KData) && HashAt(objs, p) == objs[p].hash && NextHashAt(objs, p) == objs[p].nextHash;
      var t := c[1..];
      forall i, j | 0 <= i && j == i + 1 && j < |t| ensures NextHashAt(objs, t[i]) == t[j] {
        assert NextHashAt(objs, c[i + 1]) == c[j + 1];
      }
      if t != [] {
        assert NextHashAt(objs, c[0]) == c[1];
      }
      ChainIsWalked(objs, data, n, b, objs[p].nextHash, limit, t);
      assert c == [p] + t;
    }
  }

  // ---------- is a data object on a chain that may not be sound? ----------

  ghost predicate HashPath(objs: Heap, head: nat, c: seq<nat>) {
    && c != [] && c[0] == head
    && (forall i :: 0 <= i < |c| ==> c[i] != 0)
    && (forall i, j :: 0 <= i && j == i + 1 && j < |c| ==> Is(objs, c[i], KData) && NextHashAt(objs, c[i]) == c[j])
  }

  /** Following the next pointers from `head` leads to q. */
  ghost predicate Reaches(objs: Heap, head: nat, q: nat) {
    exists c :: HashPath(objs, head, c) && Last(c) == q
  }

  /** The objects w were visited in turn from `head`; `cur` comes next. */
  ghost predicate Walked(objs: Heap, head: nat, w: seq<nat>, cur: nat) {
    && (if w == [] then cur == head else w[0] == head && NextHashAt(objs, w[|w| - 1]) == cur)
    && (forall i :: 0 <= i < |w| ==> w[i] != 0 && Is(objs, w[i], KData))
    && (forall i, j :: 0 <= i && j == i + 1 && j < |w| ==> NextHashAt(objs, w[i]) == w[j])
  }

  /** Following the next pointers from `head` comes back to an object visited before. */
  ghost predicate Circles(objs: Heap, head: nat) {
    exists w, cur :: Walked(objs, head, w, cur) && cur in w
  }

  lemma {:induction false} SameWalk(objs: Heap, head: nat, w: seq<nat>, cur: nat, w': seq<nat>, cur': nat, i: nat)
    requires Walked(objs, head, w, cur) && Walked(objs, head, w', cur') && i < |w'| && i <= |w|
    ensures w'[i] == if i < |w| then w[i] else cur
    decreases i
  {
    hide Is, NextHashAt;
    if i > 0 {
      SameWalk(objs, head, w, cur, w', cur', i - 1);
      WalkLink(objs, head, w', cur', i - 1, i);
      if i < |w| {
        WalkLink(objs, head, w, cur, i - 1, i);
      }
    }
  }

  /** A walk that ends, or leads to something else than a data object, does not circle. */
  lemma {:induction false} EndsApart(objs: Heap, head: nat, w: seq<nat>, cur: nat)
    requires Walked(objs, head, w, cur) && (cur == 0 || !Is(objs, cur, KData))
    requires forall i, j :: 0 <= i < j < |w| ==> w[i] != w[j]
    ensures !Circles(objs, head)
  {
    hide Is, NextHashAt;
    forall w', cur' | Walked(objs, head, w', cur') ensures cur' !in w' {
      if |w'| > |w| {
        SameWalk(objs, head, w, cur, w', cur', |w|);
        assert false;
      }
      forall i | 0 <= i < |w'| ensures w'[i] == w[i] {
        SameWalk(objs, head, w, cur, w', cur', i);
      }
      NextOfWalk(objs, head, w, cur, w', cur');
    }
  }

  lemma {:induction false} NextOfWalk(objs: Heap, head: nat, w: seq<nat>, cur: nat, w': seq<nat>, cur': nat)
    requires Walked(objs, head, w, cur) && Walked(objs, head, w', cur') && |w'| <= |w|
    requires forall i :: 0 <= i < |w'| ==> w'[i] == w[i]
    ensures cur' == if |w'| < |w| then w[|w'|] else cur
  {
    hide Is, NextHashAt;
    if 0 < |w'| < |w| {
      WalkLink(objs, head, w, cur, |w'| - 1, |w'|);
    }
  }

  lemma {:induction false} PathStays(objs: Heap, head: nat, w: seq<nat>, cur: nat, q: nat, c: seq<nat>, i: nat)
    requires Walked(objs, head, w, cur) && q !in w
    requires cur == 0 || cur in w || (cur != q && !Is(objs, cur, KData))
    requires HashPath(objs, head, c) && Last(c) == q && i < |c|
    ensures c[i] in w
    decreases i
  {
    hide Is, NextHashAt;
    if i + 1 < |c| {
      PathLink(objs, head, c, i, i + 1);
    }
    if i > 0 {
      PathStays(objs, head, w, cur, q, c, i - 1);
      var k :| 0 <= k < |w| && w[k] == c[i - 1];
      PathLink(objs, head, c, i - 1, i);
      if k + 1 < |w| {
        WalkLink(objs, head, w, cur, k, k + 1);
      }
    }
  }

  lemma {:induction false} PathLink(objs: Heap, head: nat, c: seq<nat>, i: nat, j: nat)
    requires HashPath(objs, head, c) && j == i + 1 < |c|
    ensures Is(objs, c[i], KData) && NextHashAt(objs, c[i]) == c[j]
  {
    hide Is, NextHashAt;
  }

  lemma {:induction false} WalkLink(objs: Heap, head: nat, w: seq<nat>, cur: nat, i: nat, j: nat)
    requires Walked(objs, head, w, cur) && j == i + 1 < |w|
    ensures NextHashAt(objs, w[i]) == w[j]
  {
    hide Is, NextHashAt;
  }

  /** A walk that ended, failed or came back without meeting q never meets it. */
  lemma {:induction false} NotReached(objs: Heap, head: nat, w: seq<nat>, cur: nat, q: nat)
    requires Walked(objs, head, w, cur) && q !in w
    requires cur == 0 || cur in w || (cur != q && !Is(objs, cur, KData))
    ensures !Reaches(objs, head, q)
  {
    forall c | HashPath(objs, head, c) ensures Last(c) != q {
      if Last(c) == q {
        PathStays(objs, head, w, cur, q, c, |c| - 1);
      }
    }
  }

  lemma {:induction false} ReachedByWalk(objs: Heap, head: nat, w: seq<nat>, q: nat)
    requires Walked(objs, head, w, q) && q != 0
    ensures Reaches(objs, head, q)
  {
    var c := w + [q];
    forall i, j | 0 <= i && j == i + 1 && j < |c| ensures Is(objs, c[i], KData) && NextHashAt(objs, c[i]) == c[j] {
      if j < |w| {
        assert NextHashAt(objs, w[i]) == w[j];
      }
    }
    assert HashPath(objs, head, c) && Last(c) == q;
  }

  /** On a sound chain, reaching means being on the chain. */
  lemma {:induction false} ReachesOnChain(objs: Heap, n: nat, b: nat, head: nat, c: seq<nat>, q: nat)
    requires n > 0 && ChainFrom(objs, n, b, head, c) && q != 0
    ensures Reaches(objs, head, q) <==> q in c
  {
    hide BucketOf;
    if q !in c {
      assert Walked(objs, head, c, 0);
      NotReached(objs, head, c, 0, q);
    } else {
      var k :| 0 <= k < |c| && c[k] == q;
      var w := c[..k];
      forall i, j | 0 <= i && j == i + 1 && j < |w| ensures NextHashAt(objs, w[i]) == w[j] {
        assert NextHashAt(objs, c[i]) == c[j];
      }
      if k > 0 {
        assert NextHashAt(objs, c[k - 1]) == c[k];
      }
      ReachedByWalk(objs, head, w, q);
    }
  }
}
