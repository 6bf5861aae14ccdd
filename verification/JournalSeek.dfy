/** Moving between entries of a well-built file (lib/journal-file.c). */
module JournalSeek {
  import opened JournalDef
  import opened EntryArrays
  import opened JournalView
  import opened JournalSteps
  import opened JournalLookup
  import opened JournalIndex
  import opened JournalBisect

  // ---------- the lists of a file as the searches see them ----------

  /** The inline item of a data object followed by the items of its chain. */
  ghost predicate PlusOneList(objs: Heap, extra: nat, first: nat, chain: seq<nat>, list: seq<nat>) {
    if list == [] then first == 0 && chain == []
    else list[0] == extra && extra != 0 && Stored(objs, first, chain, list[1..])
  }

  /** Where going up through an inline item and a chain misses: it answers with the inline item. */
  ghost predicate PlusOneMiss(objs: Heap, key: Key, needle: nat, chain: seq<nat>, list: seq<nat>) {
    list != [] && KeyOf(objs, key, list[0]) <= needle && FullAndNotRight(objs, key, needle, chain, list[1..])
  }

  ghost predicate PlusOneResult(objs: Heap, key: Key, needle: nat, direction: Direction, chain: seq<nat>, list: seq<nat>, r: Option<Hit>) {
    match direction
    case Down => FirstNotLeft(objs, key, needle, list, r)
    case Up =>
      if PlusOneMiss(objs, key, needle, chain, list) then r == Some(Hit(list[0], 0))
      else LastNotRight(objs, key, needle, list, r)
  }

  /** The answer of a search through an inline item and a chain that finds this turn. */
  function PlusOneAnswer(direction: Direction, full: bool, list: seq<nat>, g: nat): Option<Hit>
    requires g <= |list|
  {
    match direction
    case Down => if g < |list| then Some(Hit(list[g], g)) else None
    case Up => if g == 0 then None else if g == |list| && full then Some(Hit(list[0], 0)) else Some(Hit(list[g - 1], g - 1))
  }

  /** What the search finds in a list in any order. */
  ghost predicate PlusOneTurn(objs: Heap, key: Key, needle: nat, direction: Direction, chain: seq<nat>, list: seq<nat>, r: Option<Hit>) {
    exists g: nat :: PlusOneTurnsAt(objs, key, needle, direction, list, g)
                     && r == PlusOneAnswer(direction, |list| - 1 == |Flat(objs, chain)|, list, g)
  }

  ghost predicate PlusOneTurnsAt(objs: Heap, key: Key, needle: nat, direction: Direction, list: seq<nat>, g: nat) {
    TurnsAt(objs, key, needle, direction, list, g) && (g > 0 ==> !Beyond(objs, key, needle, direction, list[0]))
  }

  /** In a sorted list that is what a linear search finds, with the exception going up. */
  lemma {:induction false} PlusOneSorted(objs: Heap, key: Key, needle: nat, direction: Direction, chain: seq<nat>, list: seq<nat>, r: Option<Hit>)
    requires SortedBy(objs, key, list) && PlusOneTurn(objs, key, needle, direction, chain, list, r)
    ensures PlusOneResult(objs, key, needle, direction, chain, list, r)
  {
    var g: nat :| PlusOneTurnsAt(objs, key, needle, direction, list, g)
                  && r == PlusOneAnswer(direction, |list| - 1 == |Flat(objs, chain)|, list, g);
    OneTurn(objs, key, needle, direction, list, g);
    hide SortedBy, TurnsAt, PlusOneTurn, Flat, KeyOf;
    if direction == Up {
      PlusOneUp(objs, key, needle, chain, list, g, r);
    }
  }

  lemma {:induction false} PlusOneUp(objs: Heap, key: Key, needle: nat, chain: seq<nat>, list: seq<nat>, g: nat, r: Option<Hit>)
    requires g <= |list| && forall k :: 0 <= k < |list| ==> (KeyOf(objs, key, list[k]) > needle <==> g <= k)
    requires r == PlusOneAnswer(Up, |list| - 1 == |Flat(objs, chain)|, list, g)
    ensures PlusOneResult(objs, key, needle, Up, chain, list, r)
  {
    hide Flat, KeyOf;
    if g == |list| > 1 {
      assert forall i :: 0 <= i < |list| - 1 ==> list[1..][i] == list[i + 1];
    } else if 0 < |list| {
      assert |list| > 1 ==> list[1..][|list| - 2] == list[|list| - 1];
    }
  }

  function Rest(list: seq<nat>): seq<nat> {
    if list == [] then [] else list[1..]
  }

  /** Looks at the inline item first, then bisects the chain. */
  method BisectPlusOne(cache: ChainCache, objs: Heap, extra: nat, first: nat, n: nat, needle: nat, key: Key, direction: Direction,
                       ghost chain: seq<nat>, ghost list: seq<nat>) returns (r: Option<Hit>)
    requires cache.Valid() && CacheFits(objs, first, chain, Rest(list), cache.items)
    requires PlusOneList(objs, extra, first, chain, list) && n == |list|
    modifies cache
    ensures cache.Valid() && CacheFits(objs, first, chain, Rest(list), cache.items) && OthersKept(first, old(cache.items), cache.items)
    ensures PlusOneTurn(objs, key, needle, direction, chain, list, r)
  {
    hide Stored, CacheFits, OthersKept, PlusOneTurn, SortedBy, BisectResult;
    SameItems(first, cache.items);
    if n == 0 {
      TurnFound(objs, key, needle, direction, chain, list, 0, None);
      return None;
    }
    SideMeaning(objs, key, needle, direction, extra);
    var side := Side(TestObject(objs, key, extra, needle), direction);
    var stepBack := side == TestLeft && direction == Up;
    if side == TestRight {
      r := if direction == Down then Some(Hit(extra, 0)) else None;
      TurnFound(objs, key, needle, direction, chain, list, 0, r);
      return;
    }
    r := cache.Bisect(objs, first, n - 1, needle, key, direction, chain, list[1..]);
    PlusOneMeaning(objs, key, needle, direction, chain, list, r);
    if r.None? && stepBack {
      return Some(Hit(extra, 0));
    }
    if r.Some? {
      r := Some(Hit(r.value.offset, r.value.index + 1));
    }
  }

  lemma {:induction false} TurnFound(objs: Heap, key: Key, needle: nat, direction: Direction, chain: seq<nat>, list: seq<nat>, g: nat, r: Option<Hit>)
    requires PlusOneTurnsAt(objs, key, needle, direction, list, g) && r == PlusOneAnswer(direction, |list| - 1 == |Flat(objs, chain)|, list, g)
    ensures PlusOneTurn(objs, key, needle, direction, chain, list, r)
  {
  }

  lemma {:induction false} PlusOneMeaning(objs: Heap, key: Key, needle: nat, direction: Direction, chain: seq<nat>, list: seq<nat>, r: Option<Hit>)
    requires list != [] && !Beyond(objs, key, needle, direction, list[0])
    requires FindsTurn(objs, key, needle, direction, chain, list[1..], r)
    ensures PlusOneTurn(objs, key, needle, direction, chain, list,
                        if r.Some? then Some(Hit(r.value.offset, r.value.index + 1)) else if direction == Up then Some(Hit(list[0], 0)) else None)
  {
    var t := list[1..];
    var g: nat :| TurnsAt(objs, key, needle, direction, t, g) && r == AnswerAt(direction, |t| == |Flat(objs, chain)|, t, g);
    assert g > 0 ==> t[g - 1] == list[g];
    assert g < |t| ==> t[g] == list[g + 1];
    assert PlusOneTurnsAt(objs, key, needle, direction, list, g + 1);
    hide PlusOneTurnsAt, TurnsAt;
  }

  // ---------- cached positions of a whole file ----------

  function FirstOf(h: Header, objs: Heap, o: nat): nat {
    if o == MAIN then h.entryArrayOffset else if Is(objs, o, KData) then objs[o].entryArrayOffset else 0
  }

  function ChainedPart(o: nat, list: seq<nat>): seq<nat> {
    if o == MAIN then list else Rest(list)
  }

  ghost predicate CachedFor(h: Header, objs: Heap, v: View, ci: ChainCacheItem, o: nat) {
    && o in v.lists && o in v.arrays && ci.first == FirstOf(h, objs, o)
    && ItemValid(objs, v.arrays[o], ChainedPart(o, v.lists[o]), ci)
  }

  ghost predicate Cached(h: Header, objs: Heap, v: View, ci: ChainCacheItem) {
    exists o :: CachedFor(h, objs, v, ci, o)
  }

  /** Every cached position is a position in one of the chains of the file. */
  ghost predicate CacheOk(h: Header, objs: Heap, v: View, items: seq<ChainCacheItem>) {
    forall k :: 0 <= k < |items| ==> Cached(h, objs, v, items[k])
  }

  ghost predicate ListsStored(h: Header, objs: Heap, v: View) {
    && MAIN in v.lists
    && (forall d :: Is(objs, d, KData) ==> d in v.lists && d != MAIN)
    && (forall o :: o in v.lists ==> o in v.arrays && (o == MAIN || Is(objs, o, KData)))
    && (forall o :: o in v.lists ==> Stored(objs, FirstOf(h, objs, o), ChainOf(v, o), ChainedPart(o, ListOf(v, o))))
    && h.nEntries == |ListOf(v, MAIN)|
    && (forall d :: Is(objs, d, KData) ==> NEntriesAt(objs, d) == |ListOf(v, d)|)
    && (forall d :: Is(objs, d, KData) && ListOf(v, d) != [] ==> EntryOffsetAt(objs, d) == ListOf(v, d)[0] != 0)
  }

  ghost predicate ChainsApart(v: View) {
    forall o, o', a :: o in v.arrays && o' in v.arrays && a in v.arrays[o] && a in v.arrays[o'] ==> o == o'
  }

  ghost predicate ListsSorted(objs: Heap, v: View) {
    && MAIN in v.lists && Increasing(ListOf(v, MAIN))
    && (forall i, j :: 0 <= i < j < |ListOf(v, MAIN)| ==> SeqnumAt(objs, ListOf(v, MAIN)[i]) < SeqnumAt(objs, ListOf(v, MAIN)[j]))
    && (forall d :: d in v.lists && d != MAIN ==> Ascending(ListOf(v, d)))
    && (forall d, i :: d in v.lists && d != MAIN && 0 <= i < |ListOf(v, d)| ==> ListOf(v, d)[i] in ListOf(v, MAIN))
  }

  /** What the searches need to know about the lists of a file. */
  ghost predicate Readable(h: Header, objs: Heap, v: View) {
    ListsStored(h, objs, v) && ChainsApart(v) && ListsSorted(objs, v)
  }

  lemma {:induction false} HoldsStored(objs: Heap, first: nat, chain: seq<nat>, list: seq<nat>)
    requires Holds(objs, first, chain, list) && forall i :: 0 <= i < |list| ==> list[i] != 0
    ensures Stored(objs, first, chain, list)
  {
  }

  lemma {:induction false} ListsApart(h: Header, objs: Heap, v: View)
    requires ListsHeld(h, objs, v.lists, v.arrays)
    ensures ChainsApart(v)
  {
    hide ListHeld, ArraysUsed;
  }

  lemma {:induction false} ListsHeldStored(h: Header, objs: Heap, v: View)
    requires ListsHeld(h, objs, v.lists, v.arrays) && !Is(objs, MAIN, KData)
    requires forall o, i :: o in v.lists && 0 <= i < |v.lists[o]| ==> v.lists[o][i] != 0
    ensures ListsStored(h, objs, v)
  {
    hide ArraysUsed, Holds, Stored;
    forall o | o in v.lists
      ensures o in v.arrays && ListHeld(h, objs, o, v.arrays[o], v.lists[o])
      ensures Stored(objs, FirstOf(h, objs, o), v.arrays[o], ChainedPart(o, v.lists[o]))
    {
      HoldsStored(objs, FirstOf(h, objs, o), v.arrays[o], ChainedPart(o, v.lists[o]));
    }
  }

  lemma {:induction false} EntriesSorted(H: HashFunction, h: Header, objs: Heap, v: View)
    requires WellBuilt(H, h, objs, v, {})
    ensures MAIN in v.lists && v.lists[MAIN] == Entries(objs, v) && Increasing(Entries(objs, v))
    ensures forall e :: e in Entries(objs, v) ==> Is(objs, e, KEntry)
    ensures forall i, j :: 0 <= i < j < |Entries(objs, v)| ==> SeqnumAt(objs, Entries(objs, v)[i]) < SeqnumAt(objs, Entries(objs, v)[j])
  {
    hide Layout, TablesOk, CountsOk, NoSlack, FieldLists, HashIndex, ListsHeld, Postings;
    EntriesIncrease(h, objs, v.offs);
    ListKeys(h, objs, v.lists, v.arrays);
  }

  lemma {:induction false} WellBuiltSorted(H: HashFunction, h: Header, objs: Heap, v: View)
    requires WellBuilt(H, h, objs, v, {})
    ensures ListsSorted(objs, v)
    ensures forall o, i :: o in v.lists && 0 <= i < |v.lists[o]| ==> v.lists[o][i] in Entries(objs, v)
  {
    hide Base, ListsHeld, Select, Postings, Count;
    EntriesSorted(H, h, objs, v);
    ListKeys(h, objs, v.lists, v.arrays);
    var entries := Entries(objs, v);
    forall d | d in v.lists && d != MAIN
      ensures Ascending(v.lists[d]) && forall i :: 0 <= i < |v.lists[d]| ==> v.lists[d][i] in entries
    {
      PostingsSorted(objs, entries, d);
      PostingsMembers(objs, entries, d);
    }
  }

  /** Every file the writer builds is readable. */
  lemma {:induction false} WellBuiltReadable(H: HashFunction, h: Header, objs: Heap, v: View)
    requires WellBuilt(H, h, objs, v, {})
    ensures Readable(h, objs, v)
  {
    hide TablesOk, CountsOk, NoSlack, FieldLists, HashIndex, EntriesOk, ListsHeld, Select, Postings, ListsStored, ListsSorted, ChainsApart, Layout;
    ArenaFacts(h, objs, v.offs);
    EntriesSorted(H, h, objs, v);
    WellBuiltSorted(H, h, objs, v);
    ListsHeldStored(h, objs, v);
    ListsApart(h, objs, v);
  }

  // ---------- what happens to the cache ----------

  lemma {:induction false} StoredFirst(objs: Heap, first: nat, chain: seq<nat>, list: seq<nat>)
    requires Stored(objs, first, chain, list)
    ensures first == if chain == [] then 0 else chain[0]
    ensures first != 0 <==> chain != []
  {
  }

  /** Chains that start at the same array are the same. */
  lemma {:induction false} SameFirst(h: Header, objs: Heap, v: View, o: nat, o': nat)
    requires ListsStored(h, objs, v) && ChainsApart(v)
    requires o in v.lists && o' in v.lists && FirstOf(h, objs, o) == FirstOf(h, objs, o') != 0
    ensures o == o'
  {
    hide Stored, FirstOf, ChainedPart;
    StoredFirst(objs, FirstOf(h, objs, o), v.arrays[o], ChainedPart(o, v.lists[o]));
    StoredFirst(objs, FirstOf(h, objs, o'), v.arrays[o'], ChainedPart(o', v.lists[o']));
    assert FirstOf(h, objs, o) in v.arrays[o] && FirstOf(h, objs, o) in v.arrays[o'];
  }

  lemma {:induction false} ItemInChain(objs: Heap, chain: seq<nat>, list: seq<nat>, ci: ChainCacheItem)
    requires ItemValid(objs, chain, list, ci)
    ensures chain != []
  {
  }

  lemma {:induction false} CacheFitsList(h: Header, objs: Heap, v: View, o: nat, items: seq<ChainCacheItem>)
    requires ListsStored(h, objs, v) && ChainsApart(v) && CacheOk(h, objs, v, items) && o in v.lists && o in v.arrays
    ensures CacheFits(objs, FirstOf(h, objs, o), v.arrays[o], ChainedPart(o, v.lists[o]), items)
  {
    hide ItemValid, Stored, FirstOf, ChainedPart, ChainsApart;
    var first := FirstOf(h, objs, o);
    forall k | 0 <= k < |items| && items[k].first == first
      ensures ItemValid(objs, v.arrays[o], ChainedPart(o, v.lists[o]), items[k])
    {
      assert Cached(h, objs, v, items[k]);
      var o' :| CachedFor(h, objs, v, items[k], o');
      ItemInChain(objs, v.arrays[o'], ChainedPart(o', v.lists[o']), items[k]);
      StoredFirst(objs, FirstOf(h, objs, o'), v.arrays[o'], ChainedPart(o', v.lists[o']));
      SameFirst(h, objs, v, o, o');
    }
  }

  /** Searching one chain keeps the cached positions of all chains valid. */
  lemma {:induction false} CacheStaysOk(h: Header, objs: Heap, v: View, o: nat, items: seq<ChainCacheItem>, items': seq<ChainCacheItem>)
    requires CacheOk(h, objs, v, items) && o in v.lists && o in v.arrays
    requires OthersKept(FirstOf(h, objs, o), items, items')
    requires CacheFits(objs, FirstOf(h, objs, o), v.arrays[o], ChainedPart(o, v.lists[o]), items')
    ensures CacheOk(h, objs, v, items')
  {
    hide ItemValid, FirstOf, ChainedPart;
    forall k | 0 <= k < |items'| ensures Cached(h, objs, v, items'[k]) {
      if items'[k].first == FirstOf(h, objs, o) {
        assert CachedFor(h, objs, v, items'[k], o);
      } else {
        var j :| 0 <= j < |items| && items[j] == items'[k];
        assert Cached(h, objs, v, items[j]);
        var o' :| CachedFor(h, objs, v, items[j], o');
        assert CachedFor(h, objs, v, items'[k], o');
      }
    }
  }

  /** The capacities of a chain's arrays depend on their positions alone. */
  lemma {:induction false} SameCapacities(objs: Heap, objs': Heap, chain: seq<nat>, chain': seq<nat>, j: nat)
    requires Grown(objs, chain) && Grown(objs', chain') && chain <= chain' && j <= |chain|
    ensures |Flat(objs', chain'[..j])| == |Flat(objs, chain[..j])|
    ensures j > 0 ==> |Slots(objs', chain'[j - 1])| == |Slots(objs, chain[j - 1])|
  {
    hide Flat, Slots, LastCapacity, NewCapacity;
    if j == 0 {
      assert chain[..0] == chain'[..0] == [];
      NoSlots(objs);
      NoSlots(objs');
    } else {
      SameCapacities(objs, objs', chain, chain', j - 1);
      assert GrownAt(objs, chain, j - 1) && GrownAt(objs', chain', j - 1);
      PrefixSizes(objs, chain, j - 1);
      PrefixSizes(objs', chain', j - 1);
    }
  }

  lemma {:induction false} NoSlots(objs: Heap)
    ensures Flat(objs, []) == []
  {
  }

  lemma {:induction false} PrefixSizes(objs: Heap, chain: seq<nat>, j: nat)
    requires j < |chain|
    ensures |Flat(objs, chain[..j + 1])| == |Flat(objs, chain[..j])| + |Slots(objs, chain[j])|
    ensures LastCapacity(objs, chain[..j]) == if j == 0 then 0 else |Slots(objs, chain[j - 1])|
  {
    assert chain[..j + 1][..j] == chain[..j];
  }

  lemma {:induction false} ItemStaysValid(objs: Heap, objs': Heap, chain: seq<nat>, chain': seq<nat>, list: seq<nat>, list': seq<nat>, ci: ChainCacheItem)
    requires Grown(objs, chain) && Grown(objs', chain') && chain <= chain' && list <= list'
    requires ItemValid(objs, chain, list, ci)
    ensures ItemValid(objs', chain', list', ci)
  {
    hide Grown;
    var j: nat :| ItemAt(objs, chain, list, ci, j);
    SameCapacities(objs, objs', chain, chain', j);
    SameCapacities(objs, objs', chain, chain', j + 1);
    assert ItemAt(objs', chain', list', ci, j);
  }

  lemma {:induction false} HeldChain(h: Header, objs: Heap, v: View, o: nat)
    requires ListsHeld(h, objs, v.lists, v.arrays) && o in v.lists
    ensures o in v.arrays && Grown(objs, v.arrays[o])
    ensures FirstOf(h, objs, o) == if v.arrays[o] == [] then 0 else v.arrays[o][0]
  {
    hide ArraysUsed;
    assert ListHeld(h, objs, o, v.arrays[o], v.lists[o]);
  }

  lemma {:induction false} RestPrefix(list: seq<nat>, list': seq<nat>)
    requires list <= list'
    ensures Rest(list) <= Rest(list')
  {
  }

  lemma {:induction false} CachedStays(h: Header, objs: Heap, v: View, h': Header, objs': Heap, v': View, ci: ChainCacheItem, o: nat)
    requires ListsHeld(h, objs, v.lists, v.arrays) && ListsHeld(h', objs', v'.lists, v'.arrays) && Grows(v, v')
    requires CachedFor(h, objs, v, ci, o)
    ensures CachedFor(h', objs', v', ci, o)
  {
    hide ListsHeld, Grown, FirstOf, ItemValid;
    HeldChain(h, objs, v, o);
    HeldChain(h', objs', v', o);
    ItemInChain(objs, v.arrays[o], ChainedPart(o, v.lists[o]), ci);
    RestPrefix(v.lists[o], v'.lists[o]);
    ItemStaysValid(objs, objs', v.arrays[o], v'.arrays[o], ChainedPart(o, v.lists[o]), ChainedPart(o, v'.lists[o]), ci);
    assert FirstOf(h', objs', o) == ci.first;
    assert o in v'.lists && o in v'.arrays;
    assert ItemValid(objs', v'.arrays[o], ChainedPart(o, v'.lists[o]), ci);
  }

  /** Appending to a file leaves every cached position valid: entries can be written while the cache lives on. */
  lemma {:induction false} CacheSurvives(H: HashFunction, h: Header, objs: Heap, v: View, h': Header, objs': Heap, v': View, items: seq<ChainCacheItem>)
    requires WellBuilt(H, h, objs, v, {}) && WellBuilt(H, h', objs', v', {}) && Grows(v, v')
    requires CacheOk(h, objs, v, items)
    ensures CacheOk(h', objs', v', items)
  {
    hide Base, ListsHeld, Select, Postings, CachedFor, Grows;
    forall k | 0 <= k < |items| ensures Cached(h', objs', v', items[k]) {
      assert Cached(h, objs, v, items[k]);
      var o :| CachedFor(h, objs, v, items[k], o);
      CachedStays(h, objs, v, h', objs', v', items[k], o);
    }
  }

  // ---------- moving to an entry ----------

  function ListOf(v: View, o: nat): seq<nat> {
    if o in v.lists then v.lists[o] else []
  }

  function ChainOf(v: View, o: nat): seq<nat> {
    if o in v.arrays then v.arrays[o] else []
  }

  lemma {:induction false} MainStored(h: Header, objs: Heap, v: View)
    requires Readable(h, objs, v)
    ensures MAIN in v.lists && MAIN in v.arrays && h.nEntries == |ListOf(v, MAIN)|
    ensures FirstOf(h, objs, MAIN) == h.entryArrayOffset && ChainedPart(MAIN, ListOf(v, MAIN)) == ListOf(v, MAIN)
    ensures Stored(objs, h.entryArrayOffset, ChainOf(v, MAIN), ListOf(v, MAIN))
    ensures Increasing(ListOf(v, MAIN))
  {
    hide Stored, ChainsApart;
  }

  lemma {:induction false} DataStored(h: Header, objs: Heap, v: View, d: nat)
    requires Readable(h, objs, v) && Is(objs, d, KData)
    ensures d in v.lists && d in v.arrays && NEntriesAt(objs, d) == |ListOf(v, d)|
    ensures d != MAIN && ChainedPart(d, ListOf(v, d)) == Rest(ListOf(v, d))
    ensures PlusOneList(objs, EntryOffsetAt(objs, d), FirstOf(h, objs, d), ChainOf(v, d), ListOf(v, d))
    ensures Ascending(ListOf(v, d)) && forall i :: 0 <= i < |ListOf(v, d)| ==> ListOf(v, d)[i] in ListOf(v, MAIN)
  {
    hide ChainsApart;
    StoredLength(objs, FirstOf(h, objs, d), ChainOf(v, d), Rest(ListOf(v, d)));
    hide Stored;
  }

  lemma {:induction false} StoredLength(objs: Heap, first: nat, chain: seq<nat>, list: seq<nat>)
    ensures Stored(objs, first, chain, list) && list == [] ==> chain == [] && first == 0
  {
  }

  lemma {:induction false} SeqnumSorted(objs: Heap, v: View, o: nat)
    requires ListsSorted(objs, v)
    ensures SortedBy(objs, Seqnum, ListOf(v, o)) && SortedBy(objs, Offset, ListOf(v, o))
  {
    var list, main := ListOf(v, o), v.lists[MAIN];
    forall i, j | 0 <= i < j < |list|
      ensures list[i] <= list[j] && SeqnumAt(objs, list[i]) <= SeqnumAt(objs, list[j])
    {
      assert list[i] in main && list[j] in main;
      var a :| 0 <= a < |main| && main[a] == list[i];
      var b :| 0 <= b < |main| && main[b] == list[j];
      assert a <= b;
    }
  }

  /** Offsets and sequence numbers order every list; times are only as ordered as the caller's clock. */
  ghost predicate Ordered(objs: Heap, key: Key, list: seq<nat>) {
    key == Offset || key == Seqnum || SortedBy(objs, key, list)
  }

  /** Seeks in the main list by offset, sequence number or time. */
  method MoveToEntry(cache: ChainCache, h: Header, objs: Heap, needle: nat, key: Key, direction: Direction, ghost v: View)
    returns (r: Option<Hit>)
    requires cache.Valid() && CacheOk(h, objs, v, cache.items) && Readable(h, objs, v)
    modifies cache
    ensures cache.Valid() && CacheOk(h, objs, v, cache.items)
    ensures Ordered(objs, key, ListOf(v, MAIN)) ==> BisectResult(objs, key, needle, direction, ChainOf(v, MAIN), ListOf(v, MAIN), r)
    ensures FindsTurn(objs, key, needle, direction, ChainOf(v, MAIN), ListOf(v, MAIN), r)
  {
    hide FindsTurn, Stored, CacheFits, OthersKept, CacheOk, ListsStored, ListsSorted, ChainsApart, SortedBy, BisectResult;
    MainStored(h, objs, v);
    SeqnumSorted(objs, v, MAIN);
    CacheFitsList(h, objs, v, MAIN, cache.items);
    ghost var items := cache.items;
    r := cache.Bisect(objs, h.entryArrayOffset, h.nEntries, needle, key, direction, ChainOf(v, MAIN), ListOf(v, MAIN));
    CacheStaysOk(h, objs, v, MAIN, items, cache.items);
  }

  /** Seeks in the list of data object d. */
  method MoveToEntryForData(cache: ChainCache, h: Header, objs: Heap, d: nat, needle: nat, key: Key, direction: Direction, ghost v: View)
    returns (r: Option<Hit>)
    requires cache.Valid() && CacheOk(h, objs, v, cache.items) && Readable(h, objs, v)
    requires Is(objs, d, KData)
    modifies cache
    ensures cache.Valid() && CacheOk(h, objs, v, cache.items)
    ensures Ordered(objs, key, ListOf(v, d)) ==> PlusOneResult(objs, key, needle, direction, ChainOf(v, d), ListOf(v, d), r)
    ensures PlusOneTurn(objs, key, needle, direction, ChainOf(v, d), ListOf(v, d), r)
  {
    hide PlusOneTurn, Stored, CacheFits, OthersKept, CacheOk, ListsStored, ListsSorted, ChainsApart, SortedBy, PlusOneResult, PlusOneList;
    DataStored(h, objs, v, d);
    SeqnumSorted(objs, v, d);
    CacheFitsList(h, objs, v, d, cache.items);
    ghost var items := cache.items;
    r := BisectPlusOne(cache, objs, objs[d].entryOffset, objs[d].entryArrayOffset, objs[d].nEntries, needle, key, direction,
                       ChainOf(v, d), ListOf(v, d));
    CacheStaysOk(h, objs, v, d, items, cache.items);
    if SortedBy(objs, key, ListOf(v, d)) {
      PlusOneSorted(objs, key, needle, direction, ChainOf(v, d), ListOf(v, d), r);
    }
  }

  /** A search has one answer: whatever the cache holds, it is the answer of an empty cache. */
  lemma {:induction false} AnswerUnique(objs: Heap, key: Key, needle: nat, direction: Direction, chain: seq<nat>, list: seq<nat>,
                                        r: Option<Hit>, r': Option<Hit>)
    requires (PlusOneResult(objs, key, needle, direction, chain, list, r) && PlusOneResult(objs, key, needle, direction, chain, list, r'))
             || (BisectResult(objs, key, needle, direction, chain, list, r) && BisectResult(objs, key, needle, direction, chain, list, r'))
    ensures r == r'
  {
  }

  // ---------- stepping from entry to entry ----------

  /** The number of leading items before x. */
  function Below(list: seq<nat>, x: nat): (i: nat)
    ensures i <= |list|
    ensures i < |list| ==> list[i] >= x
    ensures forall j :: 0 <= j < i ==> list[j] < x
  {
    if list == [] || list[0] >= x then 0 else 1 + Below(list[1..], x)
  }

  /** One step along a list, from its end or from where x is or would be. */
  function StepFrom(list: seq<nat>, x: Option<nat>, direction: Direction): Option<nat> {
    if list == [] then None
    else match x
      case None => Some(if direction == Down then list[0] else list[|list| - 1])
      case Some(y) =>
        var i := Below(list, y);
        if i == |list| then None
        else if direction == Down then (if i + 1 < |list| then Some(list[i + 1]) else None)
        else if i > 0 then Some(list[i - 1]) else None
  }

  predicate StepsDownAt(list: seq<nat>, k: nat)
    requires k < |list|
  {
    StepFrom(list, Some(list[k]), Down) == if k + 1 < |list| then Some(list[k + 1]) else None
  }

  predicate StepsUpAt(list: seq<nat>, k: nat)
    requires k < |list|
  {
    StepFrom(list, Some(list[k]), Up) == if k > 0 then Some(list[k - 1]) else None
  }

  /** Stepping visits the items of a list one after the other exactly when no item is on the list twice. */
  lemma {:induction false} StepWalks(list: seq<nat>)
    requires Ascending(list)
    ensures Increasing(list) <==> forall k :: 0 <= k < |list| ==> StepsDownAt(list, k)
    ensures Increasing(list) ==> forall k :: 0 <= k < |list| ==> StepsUpAt(list, k)
  {
    hide StepsDownAt, StepsUpAt, Ascending;
    if Increasing(list) {
      forall k | 0 <= k < |list| ensures StepsDownAt(list, k) && StepsUpAt(list, k) {
        StepAlong(list, k);
      }
    } else {
      var i, j :| 0 <= i < j < |list| && list[i] >= list[j];
      StepStuck(list, i, j);
    }
  }

  lemma {:induction false} StepAlong(list: seq<nat>, k: nat)
    requires Increasing(list) && k < |list|
    ensures StepsDownAt(list, k) && StepsUpAt(list, k)
  {
    var i := Below(list, list[k]);
    assert i == k;
  }

  /** From an item that is there twice, stepping down does not get away. */
  lemma {:induction false} StepStuck(list: seq<nat>, i: nat, j: nat)
    requires Ascending(list) && i < j < |list| && list[i] >= list[j]
    ensures StepFrom(list, Some(list[i]), Down) == Some(list[i])
    ensures !forall k :: 0 <= k < |list| ==> StepsDownAt(list, k)
  {
    var x := list[i];
    var k := Below(list, x);
    assert k <= i && list[k] <= list[i] && list[k + 1] <= list[j] && list[k] <= list[k + 1];
    var m := Below(list, x + 1) - 1;
    assert m >= j;
    assert list[m] == x;
    assert !StepsDownAt(list, m);
  }

  lemma {:induction false} FirstBelow(objs: Heap, list: seq<nat>, x: nat, r: Option<Hit>)
    requires FirstNotLeft(objs, Offset, x, list, r)
    ensures r == if Below(list, x) < |list| then Some(Hit(list[Below(list, x)], Below(list, x))) else None
  {
    var i := Below(list, x);
  }

  datatype Found = At(offset: nat) | End | NoEntry | NoBoot

  function Reached(r: Option<nat>): Found {
    if r.Some? then At(r.value) else End
  }

  /** The next entry of the file, from one of its ends or from the entry at p. */
  method NextEntry(cache: ChainCache, h: Header, objs: Heap, p: Option<nat>, direction: Direction, ghost v: View) returns (r: Found)
    requires cache.Valid() && CacheOk(h, objs, v, cache.items) && Readable(h, objs, v)
    modifies cache
    ensures cache.Valid() && CacheOk(h, objs, v, cache.items)
    ensures r == if ListOf(v, MAIN) != [] && p.Some? && !Is(objs, p.value, KEntry) then NoEntry
                 else Reached(StepFrom(ListOf(v, MAIN), p, direction))
  {
    hide Stored, CacheFits, OthersKept, CacheOk, ListsStored, ListsSorted, ChainsApart, SortedBy, FirstNotLeft;
    MainStored(h, objs, v);
    ghost var list := ListOf(v, MAIN);
    var n := h.nEntries;
    if n == 0 {
      return End;
    }
    var i := if direction == Down then 0 else n - 1;
    if p.Some? {
      if !Is(objs, p.value, KEntry) {
        return NoEntry;
      }
      var hit := MoveToEntry(cache, h, objs, p.value, Offset, Down, v);
      FirstBelow(objs, list, p.value, hit);
      if hit.None? {
        return End;
      }
      i := hit.value.index;
      if direction == Down {
        if i >= n - 1 {
          return End;
        }
        i := i + 1;
      } else {
        if i <= 0 {
          return End;
        }
        i := i - 1;
      }
    }
    CacheFitsList(h, objs, v, MAIN, cache.items);
    ghost var items := cache.items;
    var ofs := cache.GetItem(objs, h.entryArrayOffset, i, ChainOf(v, MAIN), list);
    CacheStaysOk(h, objs, v, MAIN, items, cache.items);
    // The entry array is never found corrupted here.
    assert p.Some? ==> if direction == Down then ofs.value > p.value else ofs.value < p.value;
    r := At(ofs.value);
  }

  /** Item i of the list of data object d: the inline one, or one of the chain. */
  method GetForData(cache: ChainCache, h: Header, objs: Heap, d: nat, i: nat, ghost v: View) returns (r: nat)
    requires cache.Valid() && CacheOk(h, objs, v, cache.items) && Readable(h, objs, v) && Is(objs, d, KData) && i < |ListOf(v, d)|
    modifies cache
    ensures cache.Valid() && CacheOk(h, objs, v, cache.items) && r == ListOf(v, d)[i]
  {
    hide CacheFits, OthersKept, CacheOk, ListsStored, ListsSorted, ChainsApart, Stored;
    DataStored(h, objs, v, d);
    if i == 0 {
      return objs[d].entryOffset;
    }
    CacheFitsList(h, objs, v, d, cache.items);
    ghost var items := cache.items;
    var ofs := cache.GetItem(objs, objs[d].entryArrayOffset, i - 1, ChainOf(v, d), ListOf(v, d)[1..]);
    CacheStaysOk(h, objs, v, d, items, cache.items);
    r := ofs.value;
  }

  /** The next entry that contains data object d. */
  method NextEntryForData(cache: ChainCache, h: Header, objs: Heap, p: Option<nat>, d: nat, direction: Direction, ghost v: View) returns (r: Found)
    requires cache.Valid() && CacheOk(h, objs, v, cache.items) && Readable(h, objs, v) && Is(objs, d, KData)
    modifies cache
    ensures cache.Valid() && CacheOk(h, objs, v, cache.items)
    ensures r == if ListOf(v, d) != [] && p.Some? && !Is(objs, p.value, KEntry) then NoEntry
                 else Reached(StepFrom(ListOf(v, d), p, direction))
  {
    hide CacheOk, Readable, SortedBy, FirstNotLeft, Below, Ascending;
    DataStored(h, objs, v, d);
    ghost var list := ListOf(v, d);
    var n := objs[d].nEntries;
    if n == 0 {
      return End;
    }
    var i := if direction == Down then 0 else n - 1;
    if p.Some? {
      if !Is(objs, p.value, KEntry) {
        return NoEntry;
      }
      var hit := MoveToEntryForData(cache, h, objs, d, p.value, Offset, Down, v);
      FirstBelow(objs, list, p.value, hit);
      if hit.None? {
        return End;
      }
      i := hit.value.index;
      if direction == Down {
        if i >= n - 1 {
          return End;
        }
        i := i + 1;
      } else {
        if i <= 0 {
          return End;
        }
        i := i - 1;
      }
    }
    var ofs := GetForData(cache, h, objs, d, i, v);
    r := At(ofs);
  }

  // ---------- seeking by time among the entries that contain a data object ----------

  const BOOT_ID_PREFIX: Payload := [95, 66, 79, 79, 84, 95, 73, 68, 61]

  /** The last n hexadecimal digits of x, in lower case. */
  function Hex(x: nat, n: nat): Payload {
    if n == 0 then [] else Hex(x / 16, n - 1) + [if x % 16 < 10 then 48 + x % 16 else 87 + x % 16]
  }

  /** The payload every entry of a boot carries. */
  function BootField(bootId: nat): Payload {
    BOOT_ID_PREFIX + Hex(bootId, 32)
  }

  method FindDataObject(H: HashFunction, h: Header, objs: Heap, payload: Payload, ghost v: View) returns (r: Option<nat>)
    requires WellBuilt(H, h, objs, v, {})
    ensures r.Some? ==> Is(objs, r.value, KData) && PayloadAt(objs, r.value) == payload
    ensures r.None? ==> forall q :: Is(objs, q, KData) ==> PayloadAt(objs, q) != payload
  {
    hide Layout, CountsOk, NoSlack, FieldLists, EntriesOk, IndexOk, HashIndex, Select;
    TableOffsets(h, objs, v.offs);
    DataTableAt(h, objs, h.dataHashTableOffset - HASH_TABLE_HEADER);
    r := FindObjectWithHash(objs, KData, h.dataHashTableOffset - HASH_TABLE_HEADER, payload, H(payload), H, v.dataChains);
  }

  /** e is not behind `after`. */
  predicate Ahead(direction: Direction, after: nat, e: nat) {
    if direction == Down then e >= after else e <= after
  }

  /** x is on both lists, and on the right side of the needle in time. */
  ghost predicate Common(objs: Heap, needle: nat, direction: Direction, list: seq<nat>, list': seq<nat>, x: nat) {
    && x in list && x in list'
    && Ahead(direction, needle, MonotonicAt(objs, x))
  }

  /** Some slot of the chain is free, so that going up does not miss. */
  ghost predicate Roomy(objs: Heap, chain: seq<nat>, list: seq<nat>) {
    |list| > 1 ==> |list| - 1 < |Flat(objs, chain)|
  }

  /** Going up from `after` overlooks the last item: no slot of the chain is free, no item is behind `after`, and the
      inline item, which is the answer then, is not the last one. */
  ghost predicate Overlooks(objs: Heap, chain: seq<nat>, list: seq<nat>, after: nat) {
    |list| > 1 && |list| - 1 == |Flat(objs, chain)| && list[0] < list[|list| - 1] <= after
  }

  /** What one bisection along the boot list or the data list contributes: no common entry
      lies between `from` and the place it found. */
  ghost predicate NoneBetween(direction: Direction, list: seq<nat>, from: nat, to: Option<nat>) {
    match to
    case Some(y) =>
      && y in list && (if direction == Down then from <= y else y <= from)
      && forall x :: x in list ==> if direction == Down then !(from <= x < y) else !(y < x <= from)
    case None => forall x :: x in list ==> if direction == Down then x < from else x > from
  }

  lemma {:induction false} OffsetHit(objs: Heap, needle: nat, direction: Direction, chain: seq<nat>, list: seq<nat>, r: Option<Hit>)
    requires PlusOneResult(objs, Offset, needle, direction, chain, list, r) && Ascending(list)
    ensures NoneBetween(direction, list, needle, if r.Some? then Some(r.value.offset) else None) <==>
            direction == Down || !Overlooks(objs, chain, list, needle)
    ensures Roomy(objs, chain, list) ==> !Overlooks(objs, chain, list, needle)
    ensures r.Some? ==> r.value.offset in list && if direction == Down then needle <= r.value.offset else r.value.offset <= needle
  {
    if direction == Up && |list| > 1 {
      var t, z := list[1..], list[|list| - 1];
      assert t[|t| - 1] == z && z in list;
      assert forall i :: 0 <= i < |t| ==> t[i] == list[i + 1] <= z;
    }
  }

  /** Whatever the order of the list, the item found is on the list, and on the right side of the needle. */
  lemma {:induction false} AnyHit(objs: Heap, key: Key, needle: nat, direction: Direction, chain: seq<nat>, list: seq<nat>, r: Option<Hit>)
    requires PlusOneTurn(objs, key, needle, direction, chain, list, r)
    ensures r.Some? ==> r.value.offset in list && Ahead(direction, needle, KeyOf(objs, key, r.value.offset))
  {
  }

  lemma {:induction false} KeyHit(objs: Heap, key: Key, needle: nat, direction: Direction, chain: seq<nat>, list: seq<nat>, r: Option<Hit>)
    requires PlusOneResult(objs, key, needle, direction, chain, list, r) && Ascending(list) && SortedBy(objs, key, list)
    ensures r.Some? ==> r.value.offset in list
    ensures r.Some? ==> forall x :: x in list && Ahead(direction, r.value.offset, x) ==> Ahead(direction, needle, KeyOf(objs, key, x))
    ensures direction == Down || Roomy(objs, chain, list) ==>
              forall x :: x in list && Ahead(direction, needle, KeyOf(objs, key, x)) ==> r.Some? && Ahead(direction, r.value.offset, x)
  {
  }

  /** The entry nearest to the needle that is on both lists. */
  ghost predicate NearestCommon(objs: Heap, needle: nat, direction: Direction, list: seq<nat>, list': seq<nat>, r: Found) {
    match r
    case At(x) =>
      && Common(objs, needle, direction, list, list', x)
      && forall y: nat :: Common(objs, needle, direction, list, list', y) ==> if direction == Down then x <= y else y <= x
    case End => forall y: nat :: !Common(objs, needle, direction, list, list', y)
    case _ => false
  }

  /** The list of a boot's data object is in the order of time if only the entries of that boot carry
      its payload and the entries of a boot are consecutive. */
  lemma {:induction false} BootListSorted(H: HashFunction, h: Header, objs: Heap, v: View, b: nat, bootId: nat)
    requires WellBuilt(H, h, objs, v, {}) && Is(objs, b, KData)
    requires forall e :: e in ListOf(v, b) ==> BootAt(objs, e) == bootId
    requires Consecutive(objs, Entries(objs, v))
    ensures SortedBy(objs, Monotonic, ListOf(v, b))
  {
    hide Layout, TablesOk, CountsOk, NoSlack, FieldLists, HashIndex, IndexOk, Readable, Select, EntriesOk, BootAt, MonotonicAt, SeqnumAt, Consecutive;
    WellBuiltReadable(H, h, objs, v);
    DataStored(h, objs, v, b);
    EntriesSorted(H, h, objs, v);
    MainStored(h, objs, v);
    var list, entries := ListOf(v, b), Entries(objs, v);
    forall i, j | 0 <= i < j < |list| ensures MonotonicAt(objs, list[i]) <= MonotonicAt(objs, list[j]) {
      assert list[i] in entries && list[j] in entries && list[i] in list && list[j] in list;
      BootPair(h, objs, entries, list[i], list[j]);
    }
  }

  lemma {:induction false} BootPair(h: Header, objs: Heap, entries: seq<nat>, x: nat, y: nat)
    requires EntriesOk(h, objs, entries) && Increasing(entries) && x in entries && y in entries && x <= y
    requires BootAt(objs, x) == BootAt(objs, y)
    requires Consecutive(objs, entries)
    ensures MonotonicAt(objs, x) <= MonotonicAt(objs, y)
  {
    hide EntriesOk, BootAt, MonotonicAt;
    var a: nat :| a < |entries| && entries[a] == x;
    var c: nat :| c < |entries| && entries[c] == y;
    assert a <= c;
    BootMonotonic(h, objs, entries, a, c);
  }

  /** The nearest entry on the list of data object d, from `from` on. */
  method MoveToEntryByOffsetForData(cache: ChainCache, h: Header, objs: Heap, d: nat, from: nat, direction: Direction, ghost v: View)
    returns (r: Option<nat>)
    requires cache.Valid() && CacheOk(h, objs, v, cache.items) && Readable(h, objs, v) && Is(objs, d, KData)
    modifies cache
    ensures cache.Valid() && CacheOk(h, objs, v, cache.items)
    ensures r.Some? ==> r.value in ListOf(v, d) && Ahead(direction, from, r.value)
    ensures NoneBetween(direction, ListOf(v, d), from, r) <==> direction == Down || !Overlooks(objs, ChainOf(v, d), ListOf(v, d), from)
  {
    hide Stored, CacheOk, Readable, PlusOneResult, Roomy, Overlooks, NoneBetween, Is;
    DataStored(h, objs, v, d);
    var hit := MoveToEntryForData(cache, h, objs, d, from, Offset, direction, v);
    OffsetHit(objs, from, direction, ChainOf(v, d), ListOf(v, d), hit);
    r := if hit.Some? then Some(hit.value.offset) else None;
  }

  lemma {:induction false} RoomyOverlooks(objs: Heap, chain: seq<nat>, list: seq<nat>)
    requires Roomy(objs, chain, list)
    ensures forall from :: !Overlooks(objs, chain, list, from)
  {
  }

  /** Finds an entry of boot `bootId` that contains data object d by its monotonic time: a seek by
      time in the list of the boot, then seeks by offset in both lists in turn until they agree. */
  method MoveToEntryByMonotonicForData(cache: ChainCache, H: HashFunction, h: Header, objs: Heap, d: nat, bootId: nat, monotonic: nat,
                                       direction: Direction, ghost v: View) returns (r: Found, ghost b: nat)
    requires cache.Valid() && CacheOk(h, objs, v, cache.items) && WellBuilt(H, h, objs, v, {}) && Is(objs, d, KData)
    modifies cache
    ensures cache.Valid() && CacheOk(h, objs, v, cache.items)
    ensures r == NoBoot <==> forall q :: Is(objs, q, KData) ==> PayloadAt(objs, q) != BootField(bootId)
    ensures r != NoBoot ==> r != NoEntry && Is(objs, b, KData) && PayloadAt(objs, b) == BootField(bootId)
    ensures r.At? ==> r.offset in ListOf(v, b) && r.offset in ListOf(v, d)
    ensures r.At? && SortedBy(objs, Monotonic, ListOf(v, b)) ==> Common(objs, monotonic, direction, ListOf(v, b), ListOf(v, d), r.offset)
    ensures r != NoBoot && SortedBy(objs, Monotonic, ListOf(v, b)) &&
            (direction == Down || (Roomy(objs, ChainOf(v, b), ListOf(v, b)) && Roomy(objs, ChainOf(v, d), ListOf(v, d)))) ==>
              NearestCommon(objs, monotonic, direction, ListOf(v, b), ListOf(v, d), r)
  {
    hide Stored, CacheFits, OthersKept, CacheOk, Readable, WellBuilt, SortedBy, PlusOneResult, PlusOneTurn, Roomy, Overlooks, Is;
    b := 0;
    var boot := FindDataObject(H, h, objs, BootField(bootId), v);
    if boot.None? {
      return NoBoot, 0;
    }
    b := boot.value;
    WellBuiltReadable(H, h, objs, v);
    DataStored(h, objs, v, b);
    DataStored(h, objs, v, d);
    ghost var lb, ld := ListOf(v, b), ListOf(v, d);
    ghost var exact := direction == Down || (Roomy(objs, ChainOf(v, b), lb) && Roomy(objs, ChainOf(v, d), ld));
    if exact && direction == Up {
      RoomyOverlooks(objs, ChainOf(v, b), lb);
      RoomyOverlooks(objs, ChainOf(v, d), ld);
    }
    var hit := MoveToEntryForData(cache, h, objs, boot.value, monotonic, Monotonic, direction, v);
    AnyHit(objs, Monotonic, monotonic, direction, ChainOf(v, b), lb, hit);
    ghost var sorted := SortedBy(objs, Monotonic, lb);
    if sorted {
      KeyHit(objs, Monotonic, monotonic, direction, ChainOf(v, b), lb, hit);
    }
    if hit.None? {
      return End, b;
    }
    var z := hit.value.offset;
    ghost var z0 := z;
    ghost var last := LastOr0(lb);
    while true
      invariant cache.Valid() && CacheOk(h, objs, v, cache.items)
      invariant z in lb && if direction == Down then z0 <= z <= last else z <= z0
      invariant exact ==> forall x :: x in lb && x in ld ==> if direction == Down then !(z0 <= x < z) else !(z < x <= z0)
      decreases if direction == Down then last - z else z
    {
      var next := MoveToEntryByOffsetForData(cache, h, objs, d, z, direction, v);
      if next.None? {
        return End, b;
      }
      var p := next.value;
      next := MoveToEntryByOffsetForData(cache, h, objs, boot.value, p, direction, v);
      if next.None? {
        return End, b;
      }
      var q := next.value;
      if p == q {
        return At(q), b;
      }
      z := q;
    }
  }
}
