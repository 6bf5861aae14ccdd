/** Searching entry array chains by bisection, with a cache of chain positions (lib/journal-file.c). */
module JournalBisect {
  import opened JournalDef
  import opened EntryArrays
  import opened JournalView

  // ---------- the linear meaning ----------

  /** The chain from `first` stores `list` in its first slots, and has no array it does not need. */
  ghost predicate Stored(objs: Heap, first: nat, chain: seq<nat>, list: seq<nat>) {
    && Chain(objs, first, chain)
    && list <= Flat(objs, chain)
    && (chain != [] ==> |Flat(objs, chain[..|chain| - 1])| < |list|)
    && (forall i :: 0 <= i < |list| ==> list[i] != 0)
  }

  datatype Key = Offset | Seqnum | Realtime | Monotonic

  datatype Direction = Up | Down

  datatype TestResult = TestFound | TestLeft | TestRight

  /** What an entry is ordered by. */
  function KeyOf(objs: Heap, key: Key, p: nat): nat {
    match key
    case Offset => p
    case Seqnum => SeqnumAt(objs, p)
    case Realtime => RealtimeAt(objs, p)
    case Monotonic => MonotonicAt(objs, p)
  }

  function TestObject(objs: Heap, key: Key, p: nat, needle: nat): TestResult {
    var k := KeyOf(objs, key, p);
    if k == needle then TestFound else if k < needle then TestLeft else TestRight
  }

  /** The bisection looks for the first item beyond the needle: at or after it going down, after it going up. */
  predicate Beyond(objs: Heap, key: Key, needle: nat, direction: Direction, p: nat) {
    match direction
    case Down => KeyOf(objs, key, p) >= needle
    case Up => KeyOf(objs, key, p) > needle
  }

  ghost predicate SortedBy(objs: Heap, key: Key, list: seq<nat>) {
    forall i, j :: 0 <= i < j < |list| ==> KeyOf(objs, key, list[i]) <= KeyOf(objs, key, list[j])
  }

  /** TEST_FOUND is folded into one of the two sides. */
  function Side(r: TestResult, direction: Direction): TestResult {
    if r == TestFound then (if direction == Down then TestRight else TestLeft) else r
  }

  lemma {:induction false} SideMeaning(objs: Heap, key: Key, needle: nat, direction: Direction, p: nat)
    ensures Side(TestObject(objs, key, p, needle), direction) == if Beyond(objs, key, needle, direction, p) then TestRight else TestLeft
  {
  }

  lemma {:induction false} BeyondMonotone(objs: Heap, key: Key, needle: nat, direction: Direction, list: seq<nat>, i: nat, j: nat)
    requires SortedBy(objs, key, list) && i <= j < |list|
    ensures Beyond(objs, key, needle, direction, list[i]) ==> Beyond(objs, key, needle, direction, list[j])
  {
  }

  datatype Hit = Hit(offset: nat, index: nat)

  /** What a linear scan finds going down: the first item that is not left of the needle. */
  ghost predicate FirstNotLeft(objs: Heap, key: Key, needle: nat, list: seq<nat>, r: Option<Hit>) {
    match r
    case None => forall i :: 0 <= i < |list| ==> KeyOf(objs, key, list[i]) < needle
    case Some(Hit(p, k)) =>
      && k < |list| && p == list[k] && KeyOf(objs, key, p) >= needle
      && forall i :: 0 <= i < k ==> KeyOf(objs, key, list[i]) < needle
  }

  /** What a linear scan finds going up: the last item that is not right of the needle. */
  ghost predicate LastNotRight(objs: Heap, key: Key, needle: nat, list: seq<nat>, r: Option<Hit>) {
    match r
    case None => forall i :: 0 <= i < |list| ==> KeyOf(objs, key, list[i]) > needle
    case Some(Hit(p, k)) =>
      && k < |list| && p == list[k] && KeyOf(objs, key, p) <= needle
      && forall i :: k < i < |list| ==> KeyOf(objs, key, list[i]) > needle
  }

  /** The one case where going up misses: no slot is free and no item is right of the needle. */
  ghost predicate FullAndNotRight(objs: Heap, key: Key, needle: nat, chain: seq<nat>, list: seq<nat>) {
    list != [] && |list| == |Flat(objs, chain)| && forall i :: 0 <= i < |list| ==> KeyOf(objs, key, list[i]) <= needle
  }

  ghost predicate BisectResult(objs: Heap, key: Key, needle: nat, direction: Direction, chain: seq<nat>, list: seq<nat>, r: Option<Hit>) {
    match direction
    case Down => FirstNotLeft(objs, key, needle, list, r)
    case Up => if FullAndNotRight(objs, key, needle, chain, list) then r == None else LastNotRight(objs, key, needle, list, r)
  }

  /** Up to g the items are not beyond the needle, as far as the neighbour tells, and from g on they are. */
  ghost predicate TurnsAt(objs: Heap, key: Key, needle: nat, direction: Direction, list: seq<nat>, g: nat) {
    && g <= |list|
    && (g > 0 ==> !Beyond(objs, key, needle, direction, list[g - 1]))
    && (g < |list| ==> Beyond(objs, key, needle, direction, list[g]))
  }

  /** The answer of a search that finds this turn. */
  function AnswerAt(direction: Direction, full: bool, list: seq<nat>, g: nat): Option<Hit>
    requires g <= |list|
  {
    match direction
    case Down => if g < |list| then Some(Hit(list[g], g)) else None
    case Up => if g == 0 || (g == |list| && full) then None else Some(Hit(list[g - 1], g - 1))
  }

  /** What the bisection finds in a list in any order: some turn. */
  ghost predicate FindsTurn(objs: Heap, key: Key, needle: nat, direction: Direction, chain: seq<nat>, list: seq<nat>, r: Option<Hit>) {
    exists g: nat :: TurnsAt(objs, key, needle, direction, list, g) && r == AnswerAt(direction, |list| == |Flat(objs, chain)|, list, g)
  }

  /** In a sorted list there is one turn, the one a linear search finds. */
  lemma {:induction false} TurnMeaning(objs: Heap, key: Key, needle: nat, direction: Direction, chain: seq<nat>, list: seq<nat>, r: Option<Hit>)
    requires SortedBy(objs, key, list) && FindsTurn(objs, key, needle, direction, chain, list, r)
    ensures BisectResult(objs, key, needle, direction, chain, list, r)
  {
    var g: nat :| TurnsAt(objs, key, needle, direction, list, g) && r == AnswerAt(direction, |list| == |Flat(objs, chain)|, list, g);
    OneTurn(objs, key, needle, direction, list, g);
  }

  lemma {:induction false} OneTurn(objs: Heap, key: Key, needle: nat, direction: Direction, list: seq<nat>, g: nat)
    requires SortedBy(objs, key, list) && TurnsAt(objs, key, needle, direction, list, g)
    ensures forall k :: 0 <= k < |list| ==> (Beyond(objs, key, needle, direction, list[k]) <==> g <= k)
  {
    forall k | 0 <= k < |list| ensures Beyond(objs, key, needle, direction, list[k]) <==> g <= k {
      if g <= k {
        BeyondMonotone(objs, key, needle, direction, list, g, k);
      } else {
        BeyondMonotone(objs, key, needle, direction, list, k, g - 1);
      }
    }
  }

  /** Every turn for every needle is what a linear search finds going down exactly if the list is sorted. */
  lemma {:induction false} SortedExactly(objs: Heap, key: Key, chain: seq<nat>, list: seq<nat>)
    ensures SortedBy(objs, key, list) <==>
            forall needle: nat, r: Option<Hit> :: FindsTurn(objs, key, needle, Down, chain, list, r) ==> FirstNotLeft(objs, key, needle, list, r)
  {
    if SortedBy(objs, key, list) {
      forall needle: nat, r: Option<Hit> | FindsTurn(objs, key, needle, Down, chain, list, r) ensures FirstNotLeft(objs, key, needle, list, r) {
        TurnMeaning(objs, key, needle, Down, chain, list, r);
      }
    } else {
      var i, j :| 0 <= i < j < |list| && KeyOf(objs, key, list[i]) > KeyOf(objs, key, list[j]);
      var needle := KeyOf(objs, key, list[i]);
      var g := NextTurn(objs, key, needle, list, j + 1);
      var r := AnswerAt(Down, |list| == |Flat(objs, chain)|, list, g);
      assert FindsTurn(objs, key, needle, Down, chain, list, r);
      assert !FirstNotLeft(objs, key, needle, list, r);
    }
  }

  /** Behind an item left of the needle there is a turn. */
  lemma {:induction false} NextTurn(objs: Heap, key: Key, needle: nat, list: seq<nat>, k: nat) returns (g: nat)
    requires 0 < k <= |list| && KeyOf(objs, key, list[k - 1]) < needle
    ensures g >= k && TurnsAt(objs, key, needle, Down, list, g)
    decreases |list| - k
  {
    if k < |list| && KeyOf(objs, key, list[k]) < needle {
      g := NextTurn(objs, key, needle, list, k + 1);
    } else {
      g := k;
    }
  }

  // ---------- the chain cache ----------

  const CHAIN_CACHE_MAX: nat := 20

  /** A position in a chain: the array at `arrayOffset` starts after `total` items with item `begin`. */
  datatype ChainCacheItem = ChainCacheItem(first: nat, arrayOffset: nat, begin: nat, total: nat, lastIndex: Option<nat>)

  ghost predicate ItemAt(objs: Heap, chain: seq<nat>, list: seq<nat>, ci: ChainCacheItem, j: nat) {
    && j < |chain| && ci.arrayOffset == chain[j]
    && ci.total == |Flat(objs, chain[..j])| < |list|
    && ci.begin == list[ci.total]
    && (ci.lastIndex.Some? ==> ci.lastIndex.value < |Slots(objs, chain[j])| && ci.total + ci.lastIndex.value < |list|)
  }

  /** The cached position is a position of the chain as it is now. */
  ghost predicate ItemValid(objs: Heap, chain: seq<nat>, list: seq<nat>, ci: ChainCacheItem) {
    exists j: nat :: ItemAt(objs, chain, list, ci, j)
  }

  /** Cached positions of this chain are valid. */
  ghost predicate CacheFits(objs: Heap, first: nat, chain: seq<nat>, list: seq<nat>, items: seq<ChainCacheItem>) {
    forall k :: 0 <= k < |items| && items[k].first == first ==> ItemValid(objs, chain, list, items[k])
  }

  /** After work on the chain at `first`, the cached positions of other chains are old ones. */
  ghost predicate OthersKept(first: nat, items: seq<ChainCacheItem>, items': seq<ChainCacheItem>) {
    forall k :: 0 <= k < |items'| && items'[k].first != first ==> items'[k] in items
  }

  // ---------- the walk along the chain ----------

  lemma {:induction false} StoredStart(objs: Heap, first: nat, chain: seq<nat>, list: seq<nat>)
    requires Stored(objs, first, chain, list)
    ensures first == if chain == [] then 0 else chain[0]
    ensures |Flat(objs, chain[..0])| == 0
  {
  }

  lemma {:induction false} StoredLink(objs: Heap, first: nat, chain: seq<nat>, list: seq<nat>, j: nat)
    requires Stored(objs, first, chain, list) && j < |chain|
    ensures chain[j] != 0 && IsArray(objs, chain[j]) && objs[chain[j]].slots != []
    ensures objs[chain[j]].next == if j + 1 < |chain| then chain[j + 1] else 0
    ensures Slots(objs, chain[j]) == objs[chain[j]].slots
  {
    hide Flat;
  }

  lemma {:induction false} StoredSizes(objs: Heap, first: nat, chain: seq<nat>, list: seq<nat>, j: nat)
    requires Stored(objs, first, chain, list) && j < |chain|
    ensures |Flat(objs, chain[..j])| < |list|
    ensures |Flat(objs, chain[..j + 1])| == |Flat(objs, chain[..j])| + |Slots(objs, chain[j])|
    ensures |Flat(objs, chain[..j + 1])| > |list| ==> j == |chain| - 1 && |Flat(objs, chain)| > |list|
  {
    hide Flat, Slots, Chain;
    FlatAt(objs, chain, j);
    var front := chain[..|chain| - 1];
    if j < |front| {
      assert front[..j] == chain[..j] && front[..j + 1] == chain[..j + 1];
      FlatAt(objs, front, j);
    } else {
      assert chain[..j] == front && chain[..j + 1] == chain;
    }
  }

  /** What array j of the chain stores. */
  lemma {:induction false} StoredArray(objs: Heap, first: nat, chain: seq<nat>, list: seq<nat>, j: nat)
    requires Stored(objs, first, chain, list) && j < |chain|
    ensures chain[j] != 0 && IsArray(objs, chain[j]) && objs[chain[j]].slots != []
    ensures objs[chain[j]].next == if j + 1 < |chain| then chain[j + 1] else 0
    ensures |Flat(objs, chain[..j])| < |list|
    ensures |Flat(objs, chain[..j + 1])| == |Flat(objs, chain[..j])| + |objs[chain[j]].slots|
    ensures forall i :: 0 <= i < |objs[chain[j]].slots| && |Flat(objs, chain[..j])| + i < |list| ==>
              objs[chain[j]].slots[i] == list[|Flat(objs, chain[..j])| + i]
    ensures |Flat(objs, chain[..j + 1])| > |list| ==> j == |chain| - 1 && |Flat(objs, chain)| > |list|
  {
    StoredLink(objs, first, chain, list, j);
    StoredSizes(objs, first, chain, list, j);
    hide Flat, Slots, Chain;
    FlatAt(objs, chain, j);
    var flat := Flat(objs, chain);
    assert forall i :: 0 <= i < |list| ==> list[i] == flat[i];
  }

  lemma {:induction false} StoredEnd(objs: Heap, first: nat, chain: seq<nat>, list: seq<nat>)
    requires Stored(objs, first, chain, list)
    ensures chain[..|chain|] == chain && |list| <= |Flat(objs, chain)|
    ensures forall j :: 0 <= j < |chain| ==> chain[j] != 0
  {
  }

  /** Item t - 1, at lastP, is not beyond the needle, or a jump skipped it; then item t is not beyond the needle. */
  ghost predicate NotYet(objs: Heap, key: Key, needle: nat, direction: Direction, list: seq<nat>, t: nat, lastP: nat) {
    && t <= |list|
    && (t > 0 ==>
          || (lastP == list[t - 1] && !Beyond(objs, key, needle, direction, lastP))
          || (t < |list| && !Beyond(objs, key, needle, direction, list[t])))
  }

  lemma {:induction false} NothingYet(objs: Heap, key: Key, needle: nat, direction: Direction, list: seq<nat>)
    ensures NotYet(objs, key, needle, direction, list, 0, 0)
  {
  }

  lemma {:induction false} JumpTo(objs: Heap, key: Key, needle: nat, direction: Direction, first: nat, chain: seq<nat>, list: seq<nat>,
                                  items: seq<ChainCacheItem>, k: nat) returns (j: nat)
    requires CacheFits(objs, first, chain, list, items)
    requires k < |items| && items[k].first == first && TestObject(objs, key, items[k].begin, needle) == TestLeft
    ensures ItemAt(objs, chain, list, items[k], j)
    ensures NotYet(objs, key, needle, direction, list, items[k].total, 0)
  {
    var ci := items[k];
    assert ItemValid(objs, chain, list, ci);
    j :| ItemAt(objs, chain, list, ci, j);
  }

  /** A turn within an array, at slot i. */
  lemma {:induction false} ArrayHit(objs: Heap, key: Key, needle: nat, direction: Direction, list: seq<nat>, slots: seq<nat>, t: nat, m: nat, lastP: nat, i: nat)
    requires t + m <= |list| && i < m <= |slots| && NotYet(objs, key, needle, direction, list, t, lastP)
    requires forall k :: 0 <= k < m ==> slots[k] == list[t + k]
    requires Beyond(objs, key, needle, direction, slots[i]) && (i > 0 ==> !Beyond(objs, key, needle, direction, slots[i - 1]))
    ensures TurnsAt(objs, key, needle, direction, list, t + i)
    ensures i == 0 && t > 0 ==> lastP == list[t - 1]
    ensures i > 0 ==> slots[i - 1] == list[t + i - 1]
  {
    hide Beyond;
  }

  /** The last item of the array is not beyond the needle. */
  lemma {:induction false} ArrayPassed(objs: Heap, key: Key, needle: nat, direction: Direction, list: seq<nat>, slots: seq<nat>, t: nat, m: nat)
    requires 0 < m <= |slots| && t + m <= |list|
    requires forall k :: 0 <= k < m ==> slots[k] == list[t + k]
    requires !Beyond(objs, key, needle, direction, slots[m - 1])
    ensures NotYet(objs, key, needle, direction, list, t + m, slots[m - 1])
  {
  }

  /** The result for this turn, and what it means if the list is sorted. */
  lemma {:induction false} HitMeaning(objs: Heap, key: Key, needle: nat, direction: Direction, chain: seq<nat>, list: seq<nat>, g: nat, r: Option<Hit>)
    requires TurnsAt(objs, key, needle, direction, list, g) && r == AnswerAt(direction, |list| == |Flat(objs, chain)|, list, g)
    ensures FindsTurn(objs, key, needle, direction, chain, list, r)
    ensures SortedBy(objs, key, list) ==> BisectResult(objs, key, needle, direction, chain, list, r)
  {
    hide SortedBy, TurnsAt, AnswerAt, BisectResult;
    if SortedBy(objs, key, list) {
      TurnMeaning(objs, key, needle, direction, chain, list, r);
    }
  }

  lemma {:induction false} MissMeaning(objs: Heap, key: Key, needle: nat, direction: Direction, chain: seq<nat>, list: seq<nat>, lastP: nat, r: Option<Hit>)
    requires list != [] && |Flat(objs, chain)| > |list|
    requires NotYet(objs, key, needle, direction, list, |list|, lastP)
    requires r == if direction == Down then None else Some(Hit(list[|list| - 1], |list| - 1))
    ensures FindsTurn(objs, key, needle, direction, chain, list, r)
    ensures SortedBy(objs, key, list) ==> BisectResult(objs, key, needle, direction, chain, list, r)
  {
    hide SortedBy, FindsTurn, BisectResult, Beyond;
    HitMeaning(objs, key, needle, direction, chain, list, |list|, r);
  }

  lemma {:induction false} EndMeaning(objs: Heap, key: Key, needle: nat, direction: Direction, chain: seq<nat>, list: seq<nat>, lastP: nat)
    requires |Flat(objs, chain)| == |list| && NotYet(objs, key, needle, direction, list, |list|, lastP)
    ensures FindsTurn(objs, key, needle, direction, chain, list, None)
    ensures SortedBy(objs, key, list) ==> BisectResult(objs, key, needle, direction, chain, list, None)
  {
    hide SortedBy, FindsTurn, BisectResult, Beyond;
    HitMeaning(objs, key, needle, direction, chain, list, |list|, None);
  }

  lemma {:induction false} SameItems(first: nat, items: seq<ChainCacheItem>)
    ensures OthersKept(first, items, items)
  {
  }

  lemma {:induction false} PutFits(objs: Heap, first: nat, chain: seq<nat>, list: seq<nat>, items: seq<ChainCacheItem>, ci: ChainCacheItem, j: nat)
    requires ItemAt(objs, chain, list, ci, j)
    requires forall i :: 0 <= i < |items| && items[i].first == first ==> items[i] == ci
    ensures CacheFits(objs, first, chain, list, items)
  {
    assert ItemValid(objs, chain, list, ci);
  }

  class ChainCache {
    /** In order of insertion; the keys are distinct. */
    var items: seq<ChainCacheItem>

    predicate Valid()
      reads this
    {
      |items| <= CHAIN_CACHE_MAX && forall i, j :: 0 <= i < j < |items| ==> items[i].first != items[j].first
    }

    constructor ()
      ensures Valid() && items == []
    {
      items := [];
    }

    method Get(first: nat) returns (k: Option<nat>)
      requires Valid()
      ensures k.Some? ==> k.value < |items| && items[k.value].first == first
      ensures k.None? ==> forall i :: 0 <= i < |items| ==> items[i].first != first
    {
      var i := 0;
      while i < |items|
        invariant 0 <= i <= |items|
        invariant forall j :: 0 <= j < i ==> items[j].first != first
      {
        if items[i].first == first {
          return Some(i);
        }
        i := i + 1;
      }
      k := None;
    }

    /** Remembers a position; a position in the first array of a chain is not worth a new cache item. */
    method Put(k: Option<nat>, ci: ChainCacheItem)
      requires Valid()
      requires k.Some? ==> k.value < |items| && items[k.value].first == ci.first
      requires k.None? ==> forall i :: 0 <= i < |items| ==> items[i].first != ci.first
      modifies this
      ensures Valid() && OthersKept(ci.first, old(items), items)
      ensures forall i :: 0 <= i < |items| && items[i].first == ci.first ==> items[i] == ci
      ensures k.Some? || ci.arrayOffset != ci.first ==> ci in items
    {
      match k {
        case Some(i) =>
          items := items[i := ci];
          assert items[i] == ci;
        case None =>
          if ci.arrayOffset == ci.first {
            return;
          }
          if |items| >= CHAIN_CACHE_MAX {
            items := items[1..];
          }
          items := items + [ci];
          assert items[|items| - 1] == ci;
      }
    }

    /** The search within one array: a slot beyond the needle behind one that is not, given that slot m - 1 is beyond. */
    static method SearchArray(objs: Heap, slots: seq<nat>, m: nat, needle: nat, key: Key, direction: Direction, lastIndex: Option<nat>)
      returns (i: nat)
      requires 0 < m <= |slots| && Beyond(objs, key, needle, direction, slots[m - 1])
      requires lastIndex.Some? ==> lastIndex.value < m
      ensures i < m && Beyond(objs, key, needle, direction, slots[i]) && (i > 0 ==> !Beyond(objs, key, needle, direction, slots[i - 1]))
    {
      hide Beyond, TestObject, Side;
      var left, right := 0, m - 1;
      if lastIndex.Some? {
        assert lastIndex.value <= right;
        if lastIndex.value > 0 {
          var x := lastIndex.value - 1;
          SideMeaning(objs, key, needle, direction, slots[x]);
          if Side(TestObject(objs, key, slots[x], needle), direction) == TestRight {
            right := x;
          } else {
            left := x + 1;
          }
        }
        if lastIndex.value < right {
          var y := lastIndex.value + 1;
          SideMeaning(objs, key, needle, direction, slots[y]);
          if Side(TestObject(objs, key, slots[y], needle), direction) == TestRight {
            right := y;
          } else {
            left := y + 1;
          }
        }
      }
      while left != right
        invariant 0 <= left <= right < m && Beyond(objs, key, needle, direction, slots[right])
        invariant left > 0 ==> !Beyond(objs, key, needle, direction, slots[left - 1])
        decreases right - left
      {
        assert left < right;
        i := (left + right) / 2;
        SideMeaning(objs, key, needle, direction, slots[i]);
        if Side(TestObject(objs, key, slots[i], needle), direction) == TestRight {
          right := i;
        } else {
          left := i + 1;
        }
      }
      i := left;
    }

    /** Remembers slot `last` of array j of the chain. */
    method Remember(objs: Heap, first: nat, a: nat, begin: nat, t: nat, last: Option<nat>, k: Option<nat>,
                    ghost chain: seq<nat>, ghost list: seq<nat>, ghost j: nat)
      requires Valid() && CacheFits(objs, first, chain, list, items)
      requires k.Some? ==> k.value < |items| && items[k.value].first == first
      requires k.None? ==> forall i :: 0 <= i < |items| ==> items[i].first != first
      requires ItemAt(objs, chain, list, ChainCacheItem(first, a, begin, t, last), j)
      modifies this
      ensures Valid() && CacheFits(objs, first, chain, list, items) && OthersKept(first, old(items), items)
    {
      Put(k, ChainCacheItem(first, a, begin, t, last));
      PutFits(objs, first, chain, list, items, ChainCacheItem(first, a, begin, t, last), j);
    }

    /** Bisects the chain from `first` array by array, from the cached position on if that is not too far. */
    method Bisect(objs: Heap, first: nat, n: nat, needle: nat, key: Key, direction: Direction, ghost chain: seq<nat>, ghost list: seq<nat>)
      returns (r: Option<Hit>)
      requires Valid() && CacheFits(objs, first, chain, list, items)
      requires Stored(objs, first, chain, list) && n == |list|
      modifies this
      ensures Valid() && CacheFits(objs, first, chain, list, items) && OthersKept(first, old(items), items)
      ensures SortedBy(objs, key, list) ==> BisectResult(objs, key, needle, direction, chain, list, r)
      ensures FindsTurn(objs, key, needle, direction, chain, list, r)
    {
      hide FindsTurn, TurnsAt, Stored, Beyond, Side, SortedBy, BisectResult, CacheFits, ItemValid, OthersKept, NotYet, Flat, KeyOf;
      var a, t, left := first, 0, n;
      var lastP := 0;
      var lastIndex: Option<nat> := None;
      ghost var j: nat := 0;
      StoredStart(objs, first, chain, list);
      NothingYet(objs, key, needle, direction, list);
      SameItems(first, items);
      var k := Get(first);
      if k.Some? && n > items[k.value].total && TestObject(objs, key, items[k.value].begin, needle) == TestLeft {
        j := JumpTo(objs, key, needle, direction, first, chain, list, items, k.value);
        a, t, left, lastIndex := items[k.value].arrayOffset, items[k.value].total, n - items[k.value].total, items[k.value].lastIndex;
      }
      while a > 0
        invariant items == old(items)
        invariant j <= |chain| && a == (if j < |chain| then chain[j] else 0)
        invariant t == |Flat(objs, chain[..j])| && left == n - t >= 0
        invariant NotYet(objs, key, needle, direction, list, t, lastP)
        invariant lastIndex.Some? ==> j < |chain| && lastIndex.value < |Slots(objs, chain[j])| && t + lastIndex.value < n
        decreases |chain| - j
      {
        StoredArray(objs, first, chain, list, j);
        var slots := objs[a].slots;
        var m := if |slots| < left then |slots| else left;
        var lp := slots[m - 1];
        SideMeaning(objs, key, needle, direction, lp);
        if Side(TestObject(objs, key, lp, needle), direction) == TestRight {
          var i := SearchArray(objs, slots, m, needle, key, direction, lastIndex);
          ArrayHit(objs, key, needle, direction, list, slots, t, m, lastP, i);
          if direction == Up && t == 0 && i == 0 {
            HitMeaning(objs, key, needle, direction, chain, list, t + i, None);
            return None;
          }
          Remember(objs, first, a, slots[0], t, if direction == Down then Some(i) else if i > 0 then Some(i - 1) else None, k, chain, list, j);
          if direction == Down {
            r := Some(Hit(slots[i], t + i));
          } else {
            r := Some(Hit(if i == 0 then lastP else slots[i - 1], t + i - 1));
          }
          HitMeaning(objs, key, needle, direction, chain, list, t + i, r);
          return;
        }
        ArrayPassed(objs, key, needle, direction, list, slots, t, m);
        if |slots| > left {
          r := None;
          if direction == Up {
            Remember(objs, first, a, slots[0], t, Some(left - 1), k, chain, list, j);
            r := Some(Hit(slots[left - 1], t + left - 1));
          }
          MissMeaning(objs, key, needle, direction, chain, list, lp, r);
          return;
        }
        lastP := lp;
        left := left - |slots|;
        t := t + |slots|;
        lastIndex := None;
        a := objs[a].next;
        j := j + 1;
      }
      StoredEnd(objs, first, chain, list);
      EndMeaning(objs, key, needle, direction, chain, list, lastP);
      r := None;
    }

    /** Item i of the chain, starting from the cached position if that is not too far. */
    method GetItem(objs: Heap, first: nat, i: nat, ghost chain: seq<nat>, ghost list: seq<nat>) returns (r: Option<nat>)
      requires Valid() && CacheFits(objs, first, chain, list, items)
      requires Stored(objs, first, chain, list) && i < |list|
      modifies this
      ensures Valid() && CacheFits(objs, first, chain, list, items) && OthersKept(first, old(items), items)
      ensures r == Some(list[i])
    {
      hide Stored, CacheFits, OthersKept, Flat;
      var a, rest, t := first, i, 0;
      ghost var j: nat := 0;
      StoredStart(objs, first, chain, list);
      SameItems(first, items);
      var k := Get(first);
      if k.Some? && i > items[k.value].total {
        j := CachedAt(objs, first, chain, list, items, k.value);
        a, rest, t := items[k.value].arrayOffset, i - items[k.value].total, items[k.value].total;
      }
      while a > 0
        invariant items == old(items)
        invariant j <= |chain| && a == (if j < |chain| then chain[j] else 0)
        invariant t == |Flat(objs, chain[..j])| && rest == i - t >= 0
        decreases |chain| - j
      {
        StoredArray(objs, first, chain, list, j);
        var slots := objs[a].slots;
        if rest < |slots| {
          Remember(objs, first, a, slots[0], t, Some(rest), k, chain, list, j);
          return Some(slots[rest]);
        }
        rest := rest - |slots|;
        t := t + |slots|;
        a := objs[a].next;
        j := j + 1;
      }
      StoredEnd(objs, first, chain, list);
      assert false;
    }
  }

  lemma {:induction false} CachedAt(objs: Heap, first: nat, chain: seq<nat>, list: seq<nat>, items: seq<ChainCacheItem>, k: nat) returns (j: nat)
    requires CacheFits(objs, first, chain, list, items) && k < |items| && items[k].first == first
    ensures ItemAt(objs, chain, list, items[k], j)
  {
    assert ItemValid(objs, chain, list, items[k]);
    j :| ItemAt(objs, chain, list, items[k], j);
  }
}
