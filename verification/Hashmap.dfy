/** The hash table (shared/hashmap.c): entries linked both into the chain of their
    bucket and into one list in the order of insertion. */
module Hashmap {
  import opened JournalDef
  import opened Lists

  const INITIAL_N_BUCKETS: nat := 31

  class Entry<K, V> {
    var key: K
    var value: V
    var bucketNext: Entry?<K, V>
    var bucketPrevious: Entry?<K, V>
    var iterateNext: Entry?<K, V>
    var iteratePrevious: Entry?<K, V>

    constructor (key: K, value: V)
      ensures this.key == key && this.value == value
    {
      this.key, this.value := key, value;
      bucketNext, bucketPrevious, iterateNext, iteratePrevious := null, null, null, null;
    }
  }

  // ---------- doubly linked lists ----------

  function At<K, V>(s: seq<Entry<K, V>>, i: int): Entry?<K, V> {
    if 0 <= i < |s| then s[i] else null
  }

  ghost predicate BucketLinkAt<K, V>(s: seq<Entry<K, V>>, i: nat)
    requires i < |s|
    reads {s[i]}`bucketNext, {s[i]}`bucketPrevious
  {
    s[i].bucketNext == At(s, i + 1) && s[i].bucketPrevious == At(s, i - 1)
  }

  ghost predicate Chained<K, V>(s: seq<Entry<K, V>>)
    reads s`bucketNext, s`bucketPrevious
  {
    forall i :: 0 <= i < |s| ==> BucketLinkAt(s, i)
  }

  ghost predicate IterateLinkAt<K, V>(s: seq<Entry<K, V>>, i: nat)
    requires i < |s|
    reads {s[i]}`iterateNext, {s[i]}`iteratePrevious
  {
    s[i].iterateNext == At(s, i + 1) && s[i].iteratePrevious == At(s, i - 1)
  }

  ghost predicate Iterated<K, V>(s: seq<Entry<K, V>>)
    reads s`iterateNext, s`iteratePrevious
  {
    forall i :: 0 <= i < |s| ==> IterateLinkAt(s, i)
  }

  /** Takes e, item j of the chain s, out of the chain of bucket b. */
  method DropFromChain<K, V>(buckets: array<Entry?<K, V>>, b: nat, e: Entry<K, V>, ghost s: seq<Entry<K, V>>, ghost j: nat)
    requires Chained(s) && Distinct(s) && j < |s| && s[j] == e && b < buckets.Length && buckets[b] == At(s, 0)
    modifies buckets, s`bucketNext, s`bucketPrevious
    ensures Chained(Without(s, j)) && buckets[..] == old(buckets[..])[b := At(Without(s, j), 0)]
  {
    assert BucketLinkAt(s, j);
    assert j + 1 < |s| ==> BucketLinkAt(s, j + 1);
    assert j > 0 ==> BucketLinkAt(s, j - 1);
    if e.bucketNext != null {
      e.bucketNext.bucketPrevious := e.bucketPrevious;
    }
    if e.bucketPrevious != null {
      e.bucketPrevious.bucketNext := e.bucketNext;
    } else {
      buckets[b] := e.bucketNext;
    }
    ghost var t := Without(s, j);
    forall i | 0 <= i < |t| ensures BucketLinkAt(t, i) {
      assert t[i] == s[if i < j then i else i + 1];
      assert old(BucketLinkAt(s, if i < j then i else i + 1));
    }
  }

  /** Puts e at the head of the chain s of bucket b. */
  method AddToChain<K, V>(buckets: array<Entry?<K, V>>, b: nat, e: Entry<K, V>, ghost s: seq<Entry<K, V>>)
    requires Chained(s) && Distinct(s) && e !in s && b < buckets.Length && buckets[b] == At(s, 0)
    modifies buckets, e`bucketNext, e`bucketPrevious, s`bucketPrevious
    ensures Chained([e] + s) && buckets[..] == old(buckets[..])[b := e]
  {
    assert s != [] ==> BucketLinkAt(s, 0);
    e.bucketNext := buckets[b];
    e.bucketPrevious := null;
    if buckets[b] != null {
      buckets[b].bucketPrevious := e;
    }
    buckets[b] := e;
    ghost var t := [e] + s;
    forall i | 0 <= i < |t| ensures BucketLinkAt(t, i) {
      assert i > 0 ==> t[i] == s[i - 1] && old(BucketLinkAt(s, i - 1));
    }
  }

  // ---------- the table ----------

  function Bucket<K>(hash: (K, nat) -> nat, hashKey: nat, n: nat, key: K): (b: nat)
    requires n > 0
    ensures b < n
  {
    hash(key, hashKey) % n
  }

  /** The chains hold exactly the members, each in the chain of its bucket. */
  ghost predicate Spread<K(!new), V>(hash: (K, nat) -> nat, hashKey: nat, chains: seq<seq<Entry<K, V>>>, members: set<Entry<K, V>>)
    reads members`key
  {
    && |chains| > 0
    && (forall b :: 0 <= b < |chains| ==> Distinct(chains[b]))
    && (forall b, j :: 0 <= b < |chains| && 0 <= j < |chains[b]| ==>
          chains[b][j] in members && Bucket(hash, hashKey, |chains|, chains[b][j].key) == b)
    && (forall e :: e in members ==> e in chains[Bucket(hash, hashKey, |chains|, e.key)])
  }

  /** The buckets head the chains, and the chains are linked. */
  ghost predicate Linked<K, V>(buckets: seq<Entry?<K, V>>, chains: seq<seq<Entry<K, V>>>, members: set<Entry<K, V>>)
    reads members`bucketNext, members`bucketPrevious
  {
    && |buckets| == |chains|
    && forall b :: 0 <= b < |chains| ==>
         (forall j :: 0 <= j < |chains[b]| ==> chains[b][j] in members) && buckets[b] == At(chains[b], 0) && Chained(chains[b])
  }

  lemma {:induction false} SpreadApart<K(!new), V>(hash: (K, nat) -> nat, hashKey: nat, chains: seq<seq<Entry<K, V>>>, members: set<Entry<K, V>>, b: nat)
    requires Spread(hash, hashKey, chains, members) && b < |chains|
    ensures forall c, i :: 0 <= c < |chains| && c != b && 0 <= i < |chains[c]| ==> chains[c][i] !in chains[b]
  {
  }

  lemma {:induction false} SpreadDrop<K(!new), V>(hash: (K, nat) -> nat, hashKey: nat, chains: seq<seq<Entry<K, V>>>, members: set<Entry<K, V>>, b: nat, j: nat)
    requires Spread(hash, hashKey, chains, members) && b < |chains| && j < |chains[b]|
    ensures Spread(hash, hashKey, chains[b := Without(chains[b], j)], members - {chains[b][j]})
  {
    var chains' := chains[b := Without(chains[b], j)];
    var e := chains[b][j];
    forall x | x in members - {e} ensures x in chains'[Bucket(hash, hashKey, |chains|, x.key)] {
      var c := Bucket(hash, hashKey, |chains|, x.key);
      var i :| 0 <= i < |chains[c]| && chains[c][i] == x;
      assert c == b ==> x == chains'[c][if i < j then i else i - 1];
    }
  }

  lemma {:induction false} SpreadAdd<K(!new), V>(hash: (K, nat) -> nat, hashKey: nat, chains: seq<seq<Entry<K, V>>>, members: set<Entry<K, V>>, e: Entry<K, V>)
    requires Spread(hash, hashKey, chains, members) && e !in members
    ensures var b := Bucket(hash, hashKey, |chains|, e.key);
            Spread(hash, hashKey, chains[b := [e] + chains[b]], members + {e})
  {
    var b := Bucket(hash, hashKey, |chains|, e.key);
    var chains' := chains[b := [e] + chains[b]];
    forall x | x in members + {e} ensures x in chains'[Bucket(hash, hashKey, |chains|, x.key)] {
      var c := Bucket(hash, hashKey, |chains|, x.key);
      if x == e {
        assert chains'[c][0] == e;
      } else {
        var i :| 0 <= i < |chains[c]| && chains[c][i] == x;
        assert x == chains'[c][if c == b then i + 1 else i];
      }
    }
  }

  /** Takes e out of the table. */
  method DropFromTable<K(!new), V>(buckets: array<Entry?<K, V>>, b: nat, e: Entry<K, V>,
                                   ghost chains: seq<seq<Entry<K, V>>>, ghost members: set<Entry<K, V>>, ghost j: nat)
    requires Linked(buckets[..], chains, members) && b < |chains| && j < |chains[b]| && chains[b][j] == e
    requires Distinct(chains[b]) && forall c, i :: 0 <= c < |chains| && c != b && 0 <= i < |chains[c]| ==> chains[c][i] !in chains[b]
    modifies buckets, chains[b]`bucketNext, chains[b]`bucketPrevious
    ensures Linked(buckets[..], chains[b := Without(chains[b], j)], members - {e})
  {
    assert buckets[..][b] == buckets[b];
    ghost var before := buckets[..];
    DropFromChain(buckets, b, e, chains[b], j);
    ghost var chains' := chains[b := Without(chains[b], j)];
    forall c | 0 <= c < |chains'|
      ensures (forall i :: 0 <= i < |chains'[c]| ==> chains'[c][i] in members - {e}) && buckets[..][c] == At(chains'[c], 0) && Chained(chains'[c])
    {
      if c != b {
        assert before[c] == At(chains[c], 0) && old(Chained(chains[c]));
        assert e in chains[b];
      }
    }
  }

  /** Puts e into bucket b of the table. */
  method AddToTable<K(!new), V>(buckets: array<Entry?<K, V>>, b: nat, e: Entry<K, V>,
                                ghost chains: seq<seq<Entry<K, V>>>, ghost members: set<Entry<K, V>>)
    requires Linked(buckets[..], chains, members) && b < |chains| && e !in members
    requires Distinct(chains[b]) && forall c, i :: 0 <= c < |chains| && c != b && 0 <= i < |chains[c]| ==> chains[c][i] !in chains[b]
    modifies buckets, e`bucketNext, e`bucketPrevious, chains[b]`bucketPrevious
    ensures Linked(buckets[..], chains[b := [e] + chains[b]], members + {e})
  {
    assert buckets[..][b] == buckets[b];
    ghost var before := buckets[..];
    AddToChain(buckets, b, e, chains[b]);
    ghost var chains' := chains[b := [e] + chains[b]];
    forall c | 0 <= c < |chains'|
      ensures (forall i :: 0 <= i < |chains'[c]| ==> chains'[c][i] in members + {e}) && buckets[..][c] == At(chains'[c], 0) && Chained(chains'[c])
    {
      if c != b {
        assert before[c] == At(chains[c], 0) && old(Chained(chains[c]));
      }
    }
  }

  function Members<T>(s: seq<T>): set<T> {
    set x | x in s
  }

  lemma {:induction false} FindMember<K(!new), V>(hash: (K, nat) -> nat, hashKey: nat, chains: seq<seq<Entry<K, V>>>, members: set<Entry<K, V>>, e: Entry<K, V>)
    returns (j: nat)
    requires Spread(hash, hashKey, chains, members) && e in members
    ensures var b := Bucket(hash, hashKey, |chains|, e.key); j < |chains[b]| && chains[b][j] == e
  {
    var b := Bucket(hash, hashKey, |chains|, e.key);
    j :| 0 <= j < |chains[b]| && chains[b][j] == e;
  }

  lemma {:induction false} ChainInMembers<K(!new), V>(hash: (K, nat) -> nat, hashKey: nat, chains: seq<seq<Entry<K, V>>>, members: set<Entry<K, V>>, b: nat)
    requires Spread(hash, hashKey, chains, members) && b < |chains|
    ensures forall e :: e in chains[b] ==> e in members
    ensures Distinct(chains[b])
  {
  }

  /** Moves e from one table to another under a new hash key. */
  method Relocate<K(!new), V>(hash: (K, nat) -> nat, buckets: array<Entry?<K, V>>, hashKey: nat, n: array<Entry?<K, V>>, newKey: nat, e: Entry<K, V>,
                              ghost chains: seq<seq<Entry<K, V>>>, ghost members: set<Entry<K, V>>,
                              ghost newChains: seq<seq<Entry<K, V>>>, ghost newMembers: set<Entry<K, V>>)
    returns (ghost chains': seq<seq<Entry<K, V>>>, ghost newChains': seq<seq<Entry<K, V>>>)
    requires n != buckets && members !! newMembers && e in members
    requires Spread(hash, hashKey, chains, members) && Linked(buckets[..], chains, members)
    requires Spread(hash, newKey, newChains, newMembers) && Linked(n[..], newChains, newMembers)
    modifies buckets, n, members`bucketNext, members`bucketPrevious, newMembers`bucketPrevious
    ensures Spread(hash, hashKey, chains', members - {e}) && Linked(buckets[..], chains', members - {e}) && |chains'| == |chains|
    ensures Spread(hash, newKey, newChains', newMembers + {e}) && Linked(n[..], newChains', newMembers + {e}) && |newChains'| == |newChains|
  {
    hide Chained, Spread, Linked;
    LinkedLength(buckets[..], chains, members);
    LinkedLength(n[..], newChains, newMembers);
    SpreadLength(hash, hashKey, chains, members);
    SpreadLength(hash, newKey, newChains, newMembers);
    var oldBucket := Bucket(hash, hashKey, buckets.Length, e.key);
    ghost var j := FindMember(hash, hashKey, chains, members, e);
    SpreadApart(hash, hashKey, chains, members, oldBucket);
    ChainInMembers(hash, hashKey, chains, members, oldBucket);
    SpreadDrop(hash, hashKey, chains, members, oldBucket, j);
    DropFromTable(buckets, oldBucket, e, chains, members, j);
    chains' := chains[oldBucket := Without(chains[oldBucket], j)];
    var newBucket := Bucket(hash, newKey, n.Length, e.key);
    SpreadApart(hash, newKey, newChains, newMembers, newBucket);
    ChainInMembers(hash, newKey, newChains, newMembers, newBucket);
    SpreadAdd(hash, newKey, newChains, newMembers, e);
    AddToTable(n, newBucket, e, newChains, newMembers);
    newChains' := newChains[newBucket := [e] + newChains[newBucket]];
  }

  lemma {:induction false} LinkedLength<K, V>(buckets: seq<Entry?<K, V>>, chains: seq<seq<Entry<K, V>>>, members: set<Entry<K, V>>)
    requires Linked(buckets, chains, members)
    ensures |buckets| == |chains|
  {
  }

  lemma {:induction false} SpreadLength<K(!new), V>(hash: (K, nat) -> nat, hashKey: nat, chains: seq<seq<Entry<K, V>>>, members: set<Entry<K, V>>)
    requires Spread(hash, hashKey, chains, members)
    ensures |chains| > 0
  {
  }

  lemma {:induction false} EmptyTable<K(!new), V>(hash: (K, nat) -> nat, hashKey: nat, buckets: seq<Entry?<K, V>>, chains: seq<seq<Entry<K, V>>>)
    requires |buckets| == |chains| > 0
    requires forall b :: 0 <= b < |chains| ==> buckets[b] == null && chains[b] == []
    ensures Spread(hash, hashKey, chains, {}) && Linked(buckets, chains, {})
  {
  }

  /** Where the key is bound; the length if it is not. */
  function Position<K(==), V>(c: seq<(K, V)>, key: K): (i: nat)
    ensures i <= |c|
    ensures i < |c| ==> c[i].0 == key
    ensures forall j :: 0 <= j < i ==> c[j].0 != key
  {
    if c == [] || c[0].0 == key then 0 else 1 + Position(c[1..], key)
  }

  function Bindings<K, V>(s: seq<Entry<K, V>>): (c: seq<(K, V)>)
    reads s`key, s`value
    ensures |c| == |s| && forall i :: 0 <= i < |s| ==> c[i] == (s[i].key, s[i].value)
  {
    if s == [] then [] else Bindings(s[..|s| - 1]) + [(s[|s| - 1].key, s[|s| - 1].value)]
  }

  lemma {:induction false} AppendedKeys<K, V>(s: seq<Entry<K, V>>)
    requires s != []
    ensures Bindings(s) == Bindings(s[..|s| - 1]) + [(s[|s| - 1].key, s[|s| - 1].value)]
    ensures Members(s) == Members(s[..|s| - 1]) + {s[|s| - 1]}
  {
    assert s == s[..|s| - 1] + [s[|s| - 1]];
  }

  class Hashmap<K(!new, ==), V(==)> {
    const hash: (K, nat) -> nat
    var hashKey: nat
    var buckets: array<Entry?<K, V>>
    var nEntries: nat
    var iterateListHead: Entry?<K, V>
    var iterateListTail: Entry?<K, V>
    /** The entries in the order of insertion. */
    ghost var order: seq<Entry<K, V>>
    /** The entries of each bucket. */
    ghost var chains: seq<seq<Entry<K, V>>>

    ghost predicate TableOk()
      reads this`hashKey, this`buckets, this`chains, this`order, buckets, order`key, order`bucketNext, order`bucketPrevious
    {
      Spread(hash, hashKey, chains, Members(order)) && Linked(buckets[..], chains, Members(order))
    }

    ghost predicate ListOk()
      reads this`nEntries, this`iterateListHead, this`iterateListTail, this`order, order`iterateNext, order`iteratePrevious
    {
      && Distinct(order) && Iterated(order)
      && iterateListHead == At(order, 0) && iterateListTail == At(order, |order| - 1)
      && nEntries == |order|
    }

    ghost predicate KeysDistinct()
      reads this`order, order`key
    {
      forall i, j :: 0 <= i < j < |order| ==> order[i].key != order[j].key
    }

    ghost predicate Valid()
      reads this, buckets, order
    {
      TableOk() && ListOk() && KeysDistinct()
    }

    /** Which bindings the map has, in the order of insertion. */
    ghost function Contents(): seq<(K, V)>
      reads this`order, order`key, order`value
    {
      Bindings(order)
    }

    constructor (hash: (K, nat) -> nat, hashKey: nat)
      ensures Valid() && fresh(buckets) && this.hash == hash && Contents() == []
    {
      this.hash, this.hashKey := hash, hashKey;
      buckets := new Entry?<K, V>[INITIAL_N_BUCKETS](i => null);
      nEntries, iterateListHead, iterateListTail := 0, null, null;
      order, chains := [], seq(INITIAL_N_BUCKETS, i => []);
      new;
      assert Members(order) == {};
      EmptyTable(hash, hashKey, buckets[..], chains);
    }

    /** Grows the table when it is three quarters full, under a new hash key. */
    method ResizeBuckets() returns (resized: bool)
      requires TableOk() && ListOk()
      modifies this`buckets, this`hashKey, this`chains, buckets, Members(order)`bucketNext, Members(order)`bucketPrevious
      ensures TableOk() && (buckets == old(buckets) || fresh(buckets))
      ensures resized <==> old(nEntries) * 4 >= old(buckets.Length) * 3
      ensures resized ==> buckets.Length == (nEntries + 1) * 4 - 1
      ensures !resized ==> buckets == old(buckets) && hashKey == old(hashKey)
    {
      hide Spread, Linked, Chained;
      if nEntries * 4 < buckets.Length * 3 {
        return false;
      }
      var m := (nEntries + 1) * 4 - 1;
      var n := new Entry?<K, V>[m](i => null);
      var nkey: nat := *;
      ghost var oldChains := chains;
      ghost var newChains: seq<seq<Entry<K, V>>> := seq(m, i => []);
      EmptyTable(hash, nkey, n[..], newChains);
      var i := iterateListHead;
      ghost var r := 0;
      assert order[..0] == [] && order[0..] == order;
      assert Members(order[..0]) == {};
      while i != null
        invariant 0 <= r <= |order| && i == At(order, r) && buckets == old(buckets) && hashKey == old(hashKey)
        invariant Spread(hash, hashKey, oldChains, Members(order[r..])) && Linked(buckets[..], oldChains, Members(order[r..]))
        invariant Spread(hash, nkey, newChains, Members(order[..r])) && Linked(n[..], newChains, Members(order[..r]))
        invariant |newChains| == m
        decreases |order| - r
      {
        assert i == order[r] && IterateLinkAt(order, r);
        SplitMembers(order, r);
        assert forall x :: x in Members(order[r..]) || x in Members(order[..r]) ==> x in order;
        oldChains, newChains := Relocate(hash, buckets, hashKey, n, nkey, i, oldChains, Members(order[r..]), newChains, Members(order[..r]));
        i := i.iterateNext;
        r := r + 1;
      }
      assert order[..r] == order;
      buckets := n;
      hashKey := nkey;
      chains := newChains;
      resized := true;
    }

    /** Links a new entry at the head of its bucket and at the end of the list. */
    method LinkEntry(e: Entry<K, V>, b: nat)
      requires TableOk() && ListOk() && e !in order && b == Bucket(hash, hashKey, |chains|, e.key)
      modifies this`nEntries, this`iterateListHead, this`iterateListTail, this`order, this`chains, buckets
      modifies e`bucketNext, e`bucketPrevious, e`iterateNext, e`iteratePrevious, Members(order)`bucketPrevious, Members(order)`iterateNext
      ensures TableOk() && ListOk() && order == old(order) + [e] && |chains| == old(|chains|)
    {
      hide Spread, Linked, Chained;
      ghost var members := Members(order);
      SpreadLength(hash, hashKey, chains, members);
      SpreadApart(hash, hashKey, chains, members, b);
      ChainInMembers(hash, hashKey, chains, members, b);
      SpreadAdd(hash, hashKey, chains, members, e);
      assert forall x :: x in chains[b] ==> x in order;
      AddToTable(buckets, b, e, chains, members);
      chains := chains[b := [e] + chains[b]];
      assert Members(order + [e]) == members + {e};
      AddToOrder(e);
    }

    method AddToOrder(e: Entry<K, V>)
      requires ListOk() && e !in order
      modifies this`nEntries, this`iterateListHead, this`iterateListTail, this`order
      modifies e`iterateNext, e`iteratePrevious, order`iterateNext
      ensures ListOk() && order == old(order) + [e]
    {
      ghost var n := |order|;
      assert n > 0 ==> IterateLinkAt(order, n - 1);
      e.iteratePrevious := iterateListTail;
      e.iterateNext := null;
      if iterateListTail != null {
        iterateListTail.iterateNext := e;
      } else {
        iterateListHead := e;
      }
      iterateListTail := e;
      nEntries := nEntries + 1;
      order := order + [e];
      forall i | 0 <= i < |order| ensures IterateLinkAt(order, i) {
        assert i < n ==> old(IterateLinkAt(order, i));
      }
    }

    /** Takes entry number k out of its bucket and out of the list. */
    method UnlinkEntry(e: Entry<K, V>, b: nat, ghost k: nat)
      requires TableOk() && ListOk() && k < |order| && order[k] == e && b == Bucket(hash, hashKey, |chains|, e.key)
      modifies this`nEntries, this`iterateListHead, this`iterateListTail, this`order, this`chains, buckets
      modifies Members(order)`bucketNext, Members(order)`bucketPrevious, Members(order)`iterateNext, Members(order)`iteratePrevious
      ensures TableOk() && ListOk() && order == Without(old(order), k) && |chains| == old(|chains|)
    {
      hide Spread, Linked, Chained;
      ghost var members := Members(order);
      SpreadLength(hash, hashKey, chains, members);
      ghost var j := FindMember(hash, hashKey, chains, members, e);
      SpreadApart(hash, hashKey, chains, members, b);
      ChainInMembers(hash, hashKey, chains, members, b);
      SpreadDrop(hash, hashKey, chains, members, b, j);
      WithoutMembers(order, k);
      ghost var chains' := chains[b := Without(chains[b], j)];
      assert forall x :: x in chains[b] ==> x in order;
      DropFromTable(buckets, b, e, chains, members, j);
      chains := chains';
      DropFromOrder(e, k);
    }

    method DropFromOrder(e: Entry<K, V>, ghost k: nat)
      requires ListOk() && k < |order| && order[k] == e
      modifies this`nEntries, this`iterateListHead, this`iterateListTail, this`order
      modifies order`iterateNext, order`iteratePrevious
      ensures ListOk() && order == Without(old(order), k)
    {
      assert IterateLinkAt(order, k);
      assert k + 1 < |order| ==> IterateLinkAt(order, k + 1);
      assert k > 0 ==> IterateLinkAt(order, k - 1);
      if e.iterateNext != null {
        e.iterateNext.iteratePrevious := e.iteratePrevious;
      } else {
        iterateListTail := e.iteratePrevious;
      }
      if e.iteratePrevious != null {
        e.iteratePrevious.iterateNext := e.iterateNext;
      } else {
        iterateListHead := e.iterateNext;
      }
      nEntries := nEntries - 1;
      ghost var s := order;
      order := Without(s, k);
      forall i | 0 <= i < |order| ensures IterateLinkAt(order, i) {
        assert order[i] == s[if i < k then i else i + 1];
        assert old(IterateLinkAt(order, if i < k then i else i + 1));
      }
    }

    /** Walks the chain of a bucket. */
    method HashScan(b: nat, key: K) returns (e: Entry?<K, V>, ghost k: nat)
      requires TableOk() && b == Bucket(hash, hashKey, |chains|, key)
      ensures e != null ==> k < |order| && order[k] == e && e.key == key
      ensures e == null ==> forall i :: 0 <= i < |order| ==> order[i].key != key
    {
      ghost var chain := chains[b];
      assert buckets[..][b] == buckets[b] == At(chain, 0);
      e := buckets[b];
      ghost var j := 0;
      k := 0;
      while e != null
        invariant 0 <= j <= |chain| && e == At(chain, j)
        invariant forall i :: 0 <= i < j ==> chain[i].key != key
        decreases |chain| - j
      {
        assert chain[j] in Members(order) && BucketLinkAt(chain, j);
        if e.key == key {
          k :| k < |order| && order[k] == e;
          return;
        }
        e := e.bucketNext;
        j := j + 1;
      }
      forall i | 0 <= i < |order| ensures order[i].key != key {
        assert order[i] in Members(order);
        assert order[i] in chains[Bucket(hash, hashKey, |chains|, order[i].key)];
      }
    }

    lemma {:induction false} BucketsAndChains()
      requires TableOk()
      ensures |chains| == buckets.Length > 0
    {
    }

    lemma {:induction false} KeyPosition(key: K, k: nat)
      requires KeysDistinct() && k <= |order|
      requires if k < |order| then order[k].key == key else forall i :: 0 <= i < |order| ==> order[i].key != key
      ensures Position(Contents(), key) == k
    {
      var p := Position(Contents(), key);
      assert p < |order| ==> Contents()[p].0 == order[p].key;
      assert k < |order| ==> Contents()[k].0 == order[k].key;
    }

    // ---------- the operations ----------

    /** Allocates an entry and links it. */
    method LinkNew(key: K, value: V)
      requires Valid() && forall i :: 0 <= i < |order| ==> order[i].key != key
      modifies this`nEntries, this`iterateListHead, this`iterateListTail, this`order, this`chains, buckets
      modifies Members(order)`bucketPrevious, Members(order)`iterateNext
      ensures Valid() && fresh(Members(order) - Members(old(order)))
      ensures Contents() == old(Contents()) + [(key, value)]
    {
      hide TableOk, ListOk, Bindings, Bucket;
      BucketsAndChains();
      var e := new Entry<K, V>(key, value);
      LinkEntry(e, Bucket(hash, hashKey, buckets.Length, key));
      assert order[..|order| - 1] == old(order);
      AppendedKeys(order);
    }

    /** Adds a binding of a key that is not bound. */
    method Insert(key: K, value: V)
      requires Valid() && forall i :: 0 <= i < |order| ==> order[i].key != key
      modifies this, buckets, Members(order)`bucketNext, Members(order)`bucketPrevious, Members(order)`iterateNext
      ensures Valid() && (buckets == old(buckets) || fresh(buckets)) && fresh(Members(order) - Members(old(order)))
      ensures Contents() == old(Contents()) + [(key, value)]
    {
      hide TableOk, ListOk, Bindings;
      var resized := ResizeBuckets();
      LinkNew(key, value);
    }

    /** Adds a binding, unless the key is bound already. */
    method Put(key: K, value: V) returns (r: PutResult)
      requires Valid()
      modifies this, buckets, Members(order)`bucketNext, Members(order)`bucketPrevious, Members(order)`iterateNext
      ensures Valid() && (buckets == old(buckets) || fresh(buckets)) && fresh(Members(order) - Members(old(order)))
      ensures var c := old(Contents()); var i := Position(c, key);
              if i < |c| then Contents() == c && r == (if c[i].1 == value then Same else Exists)
              else Contents() == c + [(key, value)] && r == Added
    {
      hide TableOk, ListOk;
      BucketsAndChains();
      var e, k := HashScan(Bucket(hash, hashKey, buckets.Length, key), key);
      KeyPosition(key, if e == null then |order| else k);
      if e != null {
        return if e.value == value then Same else Exists;
      }
      Insert(key, value);
      r := Added;
    }

    /** Binds the key to the value; a key that is bound keeps its place. */
    method Replace(key: K, value: V)
      requires Valid()
      modifies this, buckets, Members(order)
      ensures Valid() && (buckets == old(buckets) || fresh(buckets)) && fresh(Members(order) - Members(old(order)))
      ensures var c := old(Contents()); var i := Position(c, key);
              Contents() == if i < |c| then c[i := (key, value)] else c + [(key, value)]
    {
      hide TableOk, ListOk;
      BucketsAndChains();
      var e, k := HashScan(Bucket(hash, hashKey, buckets.Length, key), key);
      KeyPosition(key, if e == null then |order| else k);
      if e != null {
        SetBinding(e, value, k);
        return;
      }
      var r := Put(key, value);
    }

    method SetBinding(e: Entry<K, V>, value: V, ghost k: nat)
      requires Valid() && k < |order| && order[k] == e
      modifies e`value
      ensures Valid() && Contents() == old(Contents())[k := (e.key, value)]
    {
      hide TableOk;
      e.value := value;
    }

    method Get(key: K) returns (r: Option<V>)
      requires Valid()
      ensures var c := Contents(); var i := Position(c, key); r == if i < |c| then Some(c[i].1) else None
    {
      hide TableOk;
      BucketsAndChains();
      var e, k := HashScan(Bucket(hash, hashKey, buckets.Length, key), key);
      KeyPosition(key, if e == null then |order| else k);
      r := if e == null then None else Some(e.value);
    }

    /** Takes entry number k out. */
    method RemoveEntry(e: Entry<K, V>, ghost k: nat)
      requires Valid() && k < |order| && order[k] == e
      modifies this`nEntries, this`iterateListHead, this`iterateListTail, this`order, this`chains, buckets
      modifies Members(order)`bucketNext, Members(order)`bucketPrevious, Members(order)`iterateNext, Members(order)`iteratePrevious
      ensures Valid() && order == Without(old(order), k) && Contents() == Without(old(Contents()), k) && |chains| == old(|chains|)
      ensures forall i :: 0 <= i < |order| ==> order[i].key != e.key
    {
      hide TableOk, ListOk, Bindings;
      BucketsAndChains();
      UnlinkEntry(e, Bucket(hash, hashKey, buckets.Length, e.key), k);
      assert Contents() == Without(old(Contents()), k);
    }

    method Remove(key: K) returns (r: Option<V>)
      requires Valid()
      modifies this`nEntries, this`iterateListHead, this`iterateListTail, this`order, this`chains, buckets
      modifies Members(order)`bucketNext, Members(order)`bucketPrevious, Members(order)`iterateNext, Members(order)`iteratePrevious
      ensures Valid()
      ensures var c := old(Contents()); var i := Position(c, key);
              if i < |c| then Contents() == Without(c, i) && order == Without(old(order), i) && r == Some(c[i].1)
              else Contents() == c && order == old(order) && r == None
    {
      hide TableOk, ListOk, Bindings;
      BucketsAndChains();
      var e, k := HashScan(Bucket(hash, hashKey, buckets.Length, key), key);
      KeyPosition(key, if e == null then |order| else k);
      if e == null {
        return None;
      }
      var data := e.value;
      RemoveEntry(e, k);
      r := Some(data);
    }

    method StealFirst() returns (r: Option<V>)
      requires Valid()
      modifies this`nEntries, this`iterateListHead, this`iterateListTail, this`order, this`chains, buckets
      modifies Members(order)`bucketNext, Members(order)`bucketPrevious, Members(order)`iterateNext, Members(order)`iteratePrevious
      ensures Valid()
      ensures var c := old(Contents());
              if c == [] then Contents() == [] && r == None else Contents() == c[1..] && r == Some(c[0].1)
    {
      hide TableOk, Iterated, Bindings;
      if iterateListHead == null {
        return None;
      }
      var data := iterateListHead.value;
      RemoveEntry(iterateListHead, 0);
      r := Some(data);
    }

    /** Takes entry number k out and gives it a key that no other entry has. */
    method TakeOut(e: Entry<K, V>, b: nat, newKey: K, value: V, ghost k: nat)
      requires Valid() && k < |order| && order[k] == e && b == Bucket(hash, hashKey, |chains|, e.key)
      requires forall i :: 0 <= i < |order| && i != k ==> order[i].key != newKey
      modifies this`nEntries, this`iterateListHead, this`iterateListTail, this`order, this`chains, buckets, e
      modifies Members(order)`bucketNext, Members(order)`bucketPrevious, Members(order)`iterateNext, Members(order)`iteratePrevious
      ensures TableOk() && ListOk() && KeysDistinct() && e !in order && e.key == newKey && e.value == value
      ensures Contents() == Without(old(Contents()), k) && forall i :: 0 <= i < |order| ==> order[i].key != newKey
      ensures Members(order) + {e} == old(Members(order)) && |chains| == old(|chains|)
    {
      hide TableOk, ListOk, Bindings, Bucket;
      ListDistinct();
      WithoutMembers(order, k);
      DroppedEntry(order, k);
      UnlinkEntry(e, b, k);
      SetKey(e, newKey, value);
      assert Contents() == Without(old(Contents()), k);
    }

    /** Moves the entry number k to the end, under a key that no other entry has. */
    method Rebind(e: Entry<K, V>, oldBucket: nat, newKey: K, value: V, newBucket: nat, ghost k: nat)
      requires Valid() && k < |order| && order[k] == e
      requires oldBucket == Bucket(hash, hashKey, |chains|, e.key) && newBucket == Bucket(hash, hashKey, |chains|, newKey)
      requires forall i :: 0 <= i < |order| && i != k ==> order[i].key != newKey
      modifies this`nEntries, this`iterateListHead, this`iterateListTail, this`order, this`chains, buckets, e
      modifies Members(order)`bucketNext, Members(order)`bucketPrevious, Members(order)`iterateNext, Members(order)`iteratePrevious
      ensures Valid() && Contents() == Without(old(Contents()), k) + [(newKey, value)]
      ensures Members(order) == old(Members(order)) && |chains| == old(|chains|)
    {
      hide TableOk, ListOk, Bindings, Bucket, Without;
      TakeOut(e, oldBucket, newKey, value, k);
      ghost var t := order;
      LinkEntry(e, newBucket);
      assert order[..|order| - 1] == t;
      AppendedKeys(order);
    }

    lemma {:induction false} ListDistinct()
      requires ListOk()
      ensures Distinct(order)
    {
    }

    method SetKey(e: Entry<K, V>, key: K, value: V)
      requires TableOk() && ListOk() && e !in order
      modifies e`key, e`value
      ensures TableOk() && ListOk() && e.key == key && e.value == value
    {
      e.key := key;
      e.value := value;
    }

    /** Renames a key: the binding moves to the end. */
    method RemoveAndPut(oldKey: K, newKey: K, value: V) returns (r: RenameResult)
      requires Valid()
      modifies this`nEntries, this`iterateListHead, this`iterateListTail, this`order, this`chains, buckets, Members(order)
      ensures Valid()
      ensures var c := old(Contents()); var i := Position(c, oldKey);
              if i == |c| then r == NoKey && Contents() == c
              else if Position(c, newKey) < |c| then r == KeyTaken && Contents() == c
              else r == Renamed && Contents() == Without(c, i) + [(newKey, value)]
    {
      hide TableOk, ListOk, Bindings;
      BucketsAndChains();
      var oldBucket := Bucket(hash, hashKey, buckets.Length, oldKey);
      var e, k := HashScan(oldBucket, oldKey);
      KeyPosition(oldKey, if e == null then |order| else k);
      if e == null {
        return NoKey;
      }
      var newBucket := Bucket(hash, hashKey, buckets.Length, newKey);
      var f, l := HashScan(newBucket, newKey);
      KeyPosition(newKey, if f == null then |order| else l);
      if f != null {
        return KeyTaken;
      }
      Rebind(e, oldBucket, newKey, value, newBucket, k);
      r := Renamed;
    }

    /** Removes the binding of the new key, unless it is that of entry number k. */
    method RemoveOther(e: Entry<K, V>, newKey: K, newBucket: nat, ghost k: nat) returns (ghost k': nat)
      requires Valid() && k < |order| && order[k] == e && newBucket == Bucket(hash, hashKey, |chains|, newKey)
      modifies this`nEntries, this`iterateListHead, this`iterateListTail, this`order, this`chains, buckets
      modifies Members(order)`bucketNext, Members(order)`bucketPrevious, Members(order)`iterateNext, Members(order)`iteratePrevious
      ensures Valid() && k' < |order| && order[k'] == e && |chains| == old(|chains|)
      ensures Contents() == if old(e.key) == newKey then old(Contents()) else Unbound(old(Contents()), newKey)
      ensures forall i :: 0 <= i < |order| && i != k' ==> order[i].key != newKey
      ensures forall x :: x in order ==> x in old(order)
    {
      hide TableOk, ListOk, Bindings, Bucket, Without, Unbound, Position;
      BucketsAndChains();
      k' := k;
      var f, l := HashScan(newBucket, newKey);
      KeyPosition(newKey, if f == null then |order| else l);
      NotBound(Contents(), newKey);
      if f != null {
        if e != f {
          k' := if k < l then k else k - 1;
          WithoutAt(order, k, l);
          UnboundAt(Contents(), newKey, l);
          RemoveEntry(f, l);
          BucketsAndChains();
        }
      }
    }

    /** Renames a key, dropping another binding of the new key: the binding moves to the end. */
    method RemoveAndReplace(oldKey: K, newKey: K, value: V) returns (r: RenameResult)
      requires Valid()
      modifies this`nEntries, this`iterateListHead, this`iterateListTail, this`order, this`chains, buckets, Members(order)
      ensures Valid()
      ensures var c := old(Contents());
              if Position(c, oldKey) == |c| then r == NoKey && Contents() == c
              else r == Renamed && Contents() == Unbound(if oldKey == newKey then c else Unbound(c, newKey), oldKey) + [(newKey, value)]
    {
      hide TableOk, ListOk, Bindings, Unbound, KeysDistinct, Without, Bucket;
      BucketsAndChains();
      var oldBucket := Bucket(hash, hashKey, buckets.Length, oldKey);
      var e, k := HashScan(oldBucket, oldKey);
      FoundPosition(oldKey, e, k);
      if e == null {
        return NoKey;
      }
      var newBucket := Bucket(hash, hashKey, buckets.Length, newKey);
      ghost var k' := RemoveOther(e, newKey, newBucket, k);
      FoundPosition(oldKey, e, k');
      UnboundAt(Contents(), oldKey, k');
      Rebind(e, oldBucket, newKey, value, newBucket, k');
      r := Renamed;
    }

    /** Steps to the next entry; at the end it stays there. */
    method Iterate(i: Iterator<K, V>) returns (i': Iterator<K, V>, r: Option<(K, V)>)
      requires Valid() && (i.AtEntry? ==> i.entry in order)
      ensures i'.AtEntry? ==> i'.entry in order
      ensures if Rest(order, i) == [] then r == None && i' == IteratorLast
              else r == Some((Rest(order, i)[0].key, Rest(order, i)[0].value)) && Rest(order, i') == Rest(order, i)[1..]
    {
      hide TableOk, KeysDistinct;
      if i.IteratorLast? || (i.IteratorFirst? && iterateListHead == null) {
        return IteratorLast, None;
      }
      var e := if i.IteratorFirst? then iterateListHead else i.entry;
      ghost var k: nat :| k < |order| && order[k] == e && (i.IteratorFirst? ==> k == 0);
      assert IterateLinkAt(order, k);
      IndexAt(order, k);
      i' := if e.iterateNext != null then AtEntry(e.iterateNext) else IteratorLast;
      if k + 1 < |order| {
        IndexAt(order, k + 1);
      }
      r := Some((e.key, e.value));
    }

    /** One step of the iteration, and the removal of the binding just returned if its key is to be dropped. */
    method VisitNext(drop: K -> bool, i: Iterator<K, V>, ghost c: seq<(K, V)>, ghost j: nat, ghost before: seq<Entry<K, V>>)
      returns (i': Iterator<K, V>, r: Option<(K, V)>)
      requires Valid() && Visiting(c, drop, j, before, order, Contents()) && ToCome(before, order, i, j)
      modifies this`nEntries, this`iterateListHead, this`iterateListTail, this`order, this`chains, buckets
      modifies Members(order)`bucketNext, Members(order)`bucketPrevious, Members(order)`iterateNext, Members(order)`iteratePrevious
      ensures Valid() && Members(order) <= old(Members(order))
      ensures if j < |c| then r == Some(c[j]) && Visiting(c, drop, j + 1, before, order, Contents()) && ToCome(before, order, i', j + 1)
              else r == None && Contents() == old(Contents())
    {
      hide TableOk, ListOk, KeysDistinct, Bindings, Position, Kept, Visiting, Distinct, Rest, Without;
      ContentsUnique();
      ghost var k := VisitPlace(c, drop, j, before, order, Contents(), i);
      i', r := Iterate(i);
      if r.None? {
        return;
      }
      Unvisited(before, order, i, i', j, k);
      WithoutMembers(order, k);
      if drop(r.value.0) {
        var gone := Remove(r.value.0);
      }
    }

    lemma {:induction false} ContentsUnique()
      requires Valid()
      ensures KeysUnique(Contents()) && Distinct(order)
    {
      hide TableOk, Bindings;
    }

    /** Visits every binding and removes those whose key is to be dropped as it goes: each binding is visited once, in
        the order of insertion, and the others stay. */
    method RemoveWhileIterating(drop: K -> bool) returns (seen: seq<(K, V)>)
      requires Valid()
      modifies this`nEntries, this`iterateListHead, this`iterateListTail, this`order, this`chains, buckets
      modifies Members(order)`bucketNext, Members(order)`bucketPrevious, Members(order)`iterateNext, Members(order)`iteratePrevious
      ensures Valid() && seen == old(Contents()) && Contents() == Kept(old(Contents()), drop)
    {
      hide TableOk, ListOk, KeysDistinct, Bindings, Kept, Visiting, ToCome;
      ghost var before, c, j := order, Contents(), 0;
      var i: Iterator<K, V> := IteratorFirst;
      seen := [];
      VisitStarts(c, drop, before);
      while true
        invariant Valid() && 0 <= j <= |c| && seen == c[..j] && Members(order) <= Members(before)
        invariant Visiting(c, drop, j, before, order, Contents()) && ToCome(before, order, i, j)
        decreases |c| - j
      {
        var r;
        if j == |c| {
          LastVisit(c, drop, before, order, Contents());
        }
        i, r := VisitNext(drop, i, c, j, before);
        if r.None? {
          break;
        }
        TakeMore(c, j);
        seen := seen + [r.value];
        j := j + 1;
      }
    }

    lemma {:induction false} FoundPosition(key: K, e: Entry?<K, V>, k: nat)
      requires KeysDistinct()
      requires e != null ==> k < |order| && order[k] == e && e.key == key
      requires e == null ==> forall i :: 0 <= i < |order| ==> order[i].key != key
      ensures Position(Contents(), key) == if e == null then |Contents()| else k
      ensures e != null ==> k < |Contents()|
    {
      KeyPosition(key, if e == null then |order| else k);
    }
  }

  lemma {:induction false} NotBound<K, V>(c: seq<(K, V)>, key: K)
    ensures Position(c, key) == |c| ==> Unbound(c, key) == c
  {
  }

  lemma {:induction false} UnboundAt<K, V>(c: seq<(K, V)>, key: K, k: nat)
    requires k < |c| && Position(c, key) == k
    ensures Unbound(c, key) == Without(c, k)
  {
  }

  datatype Iterator<K, V> = IteratorFirst | IteratorLast | AtEntry(entry: Entry<K, V>)

  ghost function IndexOfEntry<T>(s: seq<T>, x: T): (i: nat)
    ensures i <= |s| && (i < |s| ==> s[i] == x) && (forall j :: 0 <= j < i ==> s[j] != x)
  {
    if s == [] || s[0] == x then 0 else 1 + IndexOfEntry(s[1..], x)
  }

  /** The entries an iteration has yet to visit. */
  ghost function Rest<K, V>(order: seq<Entry<K, V>>, i: Iterator<K, V>): seq<Entry<K, V>> {
    match i
    case IteratorFirst => order
    case IteratorLast => []
    case AtEntry(e) => order[IndexOfEntry(order, e)..]
  }

  lemma {:induction false} IndexAt<T>(s: seq<T>, k: nat)
    requires Distinct(s) && k < |s|
    ensures IndexOfEntry(s, s[k]) == k
  {
  }

  ghost function Omit<T>(s: seq<T>, x: T): seq<T> {
    if IndexOfEntry(s, x) < |s| then Without(s, IndexOfEntry(s, x)) else s
  }

  lemma {:induction false} WithoutAt<T>(s: seq<T>, k: nat, l: nat)
    requires k < |s| && l < |s| && k != l
    ensures var i := if k < l then k else k - 1; i < |Without(s, l)| && Without(s, l)[i] == s[k]
    ensures forall x :: x in Without(s, l) ==> x in s
  {
  }

  lemma {:induction false} WithoutLater<T>(s: seq<T>, m: nat, k: nat)
    requires Distinct(s) && m < k < |s|
    ensures m < |Without(s, k)| && Without(s, k)[m] == s[m] && Without(s, k)[m..] == Omit(s[m..], s[k])
  {
    var rest := s[m..];
    assert rest[k - m] == s[k];
    IndexAt(rest, k - m);
  }

  lemma {:induction false} WithoutEarlier<T>(s: seq<T>, m: nat, k: nat)
    requires Distinct(s) && k < m < |s|
    ensures Without(s, k)[m - 1] == s[m] && Without(s, k)[m - 1..] == Omit(s[m..], s[k])
  {
    assert s[k] !in s[m..];
  }

  /** Removing any entry but the one the iteration stands at neither skips nor repeats any other. */
  lemma {:induction false} RemoveDuringIteration<K, V>(order: seq<Entry<K, V>>, k: nat, i: Iterator<K, V>)
    requires Distinct(order) && k < |order|
    requires i.AtEntry? ==> i.entry in order && i.entry != order[k]
    ensures Rest(Without(order, k), i) == Omit(Rest(order, i), order[k])
  {
    IndexAt(order, k);
    if i.AtEntry? {
      var m: nat :| m < |order| && order[m] == i.entry;
      IndexAt(order, m);
      WithoutMembers(order, k);
      if m < k {
        WithoutLater(order, m, k);
        IndexAt(Without(order, k), m);
      } else {
        WithoutEarlier(order, m, k);
        IndexAt(Without(order, k), m - 1);
      }
      hide Without, Omit, Distinct;
    }
  }

  /** What is left of the bindings without those of dropped keys. */
  function Kept<K, V>(c: seq<(K, V)>, drop: K -> bool): seq<(K, V)> {
    if c == [] then []
    else Kept(c[..|c| - 1], drop) + if drop(c[|c| - 1].0) then [] else [c[|c| - 1]]
  }

  /** The first j bindings of c have been visited, and dropped or kept; the rest, and its entries, are as before. */
  ghost predicate Visiting<K, V>(c: seq<(K, V)>, drop: K -> bool, j: nat, before: seq<Entry<K, V>>, order: seq<Entry<K, V>>, now: seq<(K, V)>) {
    && j <= |c| == |before| && |now| == |order|
    && now == Kept(c[..j], drop) + c[j..]
    && order[|Kept(c[..j], drop)|..] == before[j..]
  }

  /** The iteration has the entries from number j on before it. */
  ghost predicate ToCome<K, V>(before: seq<Entry<K, V>>, order: seq<Entry<K, V>>, i: Iterator<K, V>, j: nat) {
    j <= |before| && (i.AtEntry? ==> i.entry in order) && Rest(order, i) == before[j..]
  }

  lemma {:induction false} VisitStarts<K, V>(c: seq<(K, V)>, drop: K -> bool, before: seq<Entry<K, V>>)
    requires |c| == |before|
    ensures Visiting(c, drop, 0, before, before, c) && ToCome(before, before, IteratorFirst, 0)
  {
    assert c[..0] == [] && c[0..] == c && before[0..] == before;
  }

  /** The binding visited next, and what becomes of it. */
  lemma {:induction false} VisitPlace<K, V>(c: seq<(K, V)>, drop: K -> bool, j: nat, before: seq<Entry<K, V>>, order: seq<Entry<K, V>>,
                                            now: seq<(K, V)>, i: Iterator<K, V>) returns (k: nat)
    requires Visiting(c, drop, j, before, order, now) && KeysUnique(now) && ToCome(before, order, i, j)
    ensures |Rest(order, i)| == |c| - j
    ensures j < |c| ==>
      && k < |now| == |order| && now[k] == c[j] && order[k] == before[j] == Rest(order, i)[0] && order[k..] == before[j..] && Position(now, c[j].0) == k
      && if drop(c[j].0) then Visiting(c, drop, j + 1, before, Without(order, k), Without(now, k))
         else Visiting(c, drop, j + 1, before, order, now)
  {
    hide Rest;
    k := |Kept(c[..j], drop)|;
    if j < |c| {
      assert c[..j + 1][..j] == c[..j];
      assert now[k..] == c[j..];
      assert now[k] == c[j..][0] && order[k] == order[k..][0] == before[j..][0];
      if drop(c[j].0) {
        assert Without(now, k) == Kept(c[..j], drop) + c[j + 1..];
        assert Without(order, k)[k..] == order[k..][1..] == before[j..][1..];
      } else {
        assert Kept(c[..j + 1], drop) == Kept(c[..j], drop) + [c[j]];
        assert order[k + 1..] == order[k..][1..] == before[j..][1..];
      }
    }
  }

  lemma {:induction false} TakeMore<T>(c: seq<T>, j: nat)
    requires j < |c|
    ensures c[..j + 1] == c[..j] + [c[j]]
  {
  }

  lemma {:induction false} LastVisit<K, V>(c: seq<(K, V)>, drop: K -> bool, before: seq<Entry<K, V>>, order: seq<Entry<K, V>>, now: seq<(K, V)>)
    requires Visiting(c, drop, |c|, before, order, now)
    ensures now == Kept(c, drop)
  {
    assert c[..|c|] == c && c[|c|..] == [];
  }

  /** The entry just visited is not among those to come, so removing it leaves those as they are. */
  lemma {:induction false} Unvisited<K, V>(before: seq<Entry<K, V>>, order: seq<Entry<K, V>>, i: Iterator<K, V>, i': Iterator<K, V>, j: nat, k: nat)
    requires Distinct(order) && k < |order| && j < |before| && order[k] == before[j] && order[k..] == before[j..] && Rest(order, i) == before[j..]
    requires (i'.AtEntry? ==> i'.entry in order) && Rest(order, i') == Rest(order, i)[1..]
    ensures ToCome(before, order, i', j + 1) && ToCome(before, Without(order, k), i', j + 1)
  {
    assert before[j..][1..] == before[j + 1..] == order[k + 1..];
    assert order[k] !in order[k + 1..];
    if i'.AtEntry? {
      var m: nat :| m < |order| && order[m] == i'.entry;
      IndexAt(order, m);
      assert |order[m..]| == |order[k + 1..]|;
      WithoutMembers(order, k);
    }
    RemoveDuringIteration(order, k, i');
  }

  // ---------- a finite map ----------

  function Lookup<K(==), V>(c: seq<(K, V)>, key: K): Option<V> {
    if Position(c, key) < |c| then Some(c[Position(c, key)].1) else None
  }

  predicate KeysUnique<K(==), V>(c: seq<(K, V)>) {
    forall i, j :: 0 <= i < j < |c| ==> c[i].0 != c[j].0
  }

  lemma {:induction false} LookupAppended<K, V>(c: seq<(K, V)>, key: K, value: V, k: K)
    requires KeysUnique(c) && Position(c, key) == |c|
    ensures var d := c + [(key, value)]; KeysUnique(d) && Lookup(d, k) == if k == key then Some(value) else Lookup(c, k)
  {
    hide Position;
    var d := c + [(key, value)];
    var p, q := Position(c, k), Position(d, k);
    assert d[|c|] == (key, value);
    assert p < |c| ==> d[p] == c[p];
    assert q < |c| ==> c[q] == d[q];
  }

  lemma {:induction false} LookupUpdated<K, V>(c: seq<(K, V)>, key: K, value: V, k: K)
    requires KeysUnique(c) && Position(c, key) < |c|
    ensures var d := c[Position(c, key) := (key, value)]; KeysUnique(d) && Lookup(d, k) == if k == key then Some(value) else Lookup(c, k)
  {
    hide Position;
    var i := Position(c, key);
    var d := c[i := (key, value)];
    var p, q := Position(c, k), Position(d, k);
    assert forall j :: 0 <= j < |c| ==> d[j].0 == c[j].0;
    assert p < |c| ==> d[p].0 == k;
    assert q < |c| ==> c[q].0 == d[q].0;
  }

  /** What Put and Replace do to the contents is what they should do to a map. */
  lemma {:induction false} LookupAdded<K, V>(c: seq<(K, V)>, key: K, value: V, k: K)
    requires KeysUnique(c)
    ensures var i := Position(c, key); var d := if i < |c| then c[i := (key, value)] else c + [(key, value)];
            KeysUnique(d) && Lookup(d, k) == if k == key then Some(value) else Lookup(c, k)
  {
    hide Position, Lookup, KeysUnique;
    if Position(c, key) < |c| {
      LookupUpdated(c, key, value, k);
    } else {
      LookupAppended(c, key, value, k);
    }
  }

  /** What Remove does to the contents is what it should do to a map. */
  lemma {:induction false} LookupRemoved<K, V>(c: seq<(K, V)>, key: K, k: K)
    requires KeysUnique(c)
    ensures KeysUnique(Unbound(c, key)) && Lookup(Unbound(c, key), k) == if k == key then None else Lookup(c, k)
  {
    var i, p := Position(c, key), Position(c, k);
    if i < |c| {
      var u := Without(c, i);
      var q := Position(u, k);
      assert p < |c| && p != i ==> u[if p < i then p else p - 1] == c[p];
      assert q < |u| ==> u[q] == c[if q < i then q else q + 1];
    }
  }

  datatype RenameResult = Renamed | NoKey | KeyTaken

  /** The contents without the binding of the key. */
  function Unbound<K(==), V>(c: seq<(K, V)>, key: K): seq<(K, V)> {
    if Position(c, key) < |c| then Without(c, Position(c, key)) else c
  }

  lemma {:induction false} DroppedEntry<T>(s: seq<T>, k: nat)
    requires Distinct(s) && k < |s|
    ensures s[k] !in Without(s, k)
  {
  }

  datatype PutResult = Added | Same | Exists

  lemma {:induction false} WithoutMembers<T>(s: seq<T>, k: nat)
    requires Distinct(s) && k < |s|
    ensures Members(Without(s, k)) == Members(s) - {s[k]} && Distinct(Without(s, k))
  {
    WithoutItem(s, k);
    hide Without;
  }

  lemma {:induction false} SplitMembers<T>(s: seq<T>, r: nat)
    requires Distinct(s) && r < |s|
    ensures Members(s[r..]) !! Members(s[..r])
    ensures s[r] in Members(s[r..])
    ensures Members(s[r + 1..]) == Members(s[r..]) - {s[r]}
    ensures Members(s[..r + 1]) == Members(s[..r]) + {s[r]}
  {
    assert s[..r + 1] == s[..r] + [s[r]];
    assert s[r..] == [s[r]] + s[r + 1..];
  }
}
