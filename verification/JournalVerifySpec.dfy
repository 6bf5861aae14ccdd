/** What the offline checker (src/journalctl/journal-verify.c) means by a consistent file. */
module JournalVerifySpec {
  import opened JournalDef
  import opened EntryArrays
  import opened JournalView

  // ---------- single objects ----------

  /** The superficial checks of one object; they follow no reference. */
  predicate ObjectOk(H: HashFunction, o: Object) {
    match o
    case DataObject(hash, nextHash, payload, nextField, entryOffset, entryArrayOffset, nEntries) =>
      && (entryOffset == 0 <==> nEntries == 0)
      && |payload| > 0
      && hash == H(payload)
      && Valid64(nextHash) && Valid64(nextField) && Valid64(entryOffset) && Valid64(entryArrayOffset)
    case FieldObject(_, nextHash, payload, headData) =>
      |payload| > 0 && Valid64(nextHash) && Valid64(headData)
    case EntryObject(seqnum, realtime, monotonic, _, _, items, slack) =>
      && slack == 0 && |items| > 0 && seqnum > 0 && ValidRealtime(realtime) && ValidMonotonic(monotonic)
      && (forall i :: 0 <= i < |items| ==> items[i].objectOffset != 0 && Valid64(items[i].objectOffset))
    case DataHashTable(table, slack) => slack == 0 && |table| > 0 && TableOk(table)
    case FieldHashTable(table, slack) => slack == 0 && |table| > 0 && TableOk(table)
    case EntryArray(next, slots, slack) =>
      slack == 0 && |slots| > 0 && Valid64(next) && (forall i :: 0 <= i < |slots| ==> Valid64(slots[i]))
    case OtherObject(_) => true
  }

  predicate TableOk(table: seq<HashItem>) {
    forall b :: 0 <= b < |table| ==> HashItemOk(table[b])
  }

  predicate HashItemOk(item: HashItem) {
    Valid64(item.head) && Valid64(item.tail) && (item.head != 0 <==> item.tail != 0)
  }

  // ---------- the sequence of objects ----------

  /** The offsets met from p on; the last one is the tail object if the walk succeeds. */
  function WalkFrom(objs: Heap, p: nat, tail: nat): seq<nat>
    decreases if p <= tail then tail - p + 1 else 0
  {
    if p !in objs || p >= tail then [p] else [p] + WalkFrom(objs, p + Align64(Size(objs[p])), tail)
  }

  function Offsets(h: Header, objs: Heap): seq<nat> {
    WalkFrom(objs, h.headerSize, h.tailObjectOffset)
  }

  function Last(s: seq<nat>): nat
    requires s != []
  {
    s[|s| - 1]
  }

  /** Entries appear in the order of their numbers and, within a boot, of their monotonic times. */
  ghost predicate EntrySequenceOk(h: Header, objs: Heap, entries: seq<nat>) {
    && (forall i, j :: 0 <= i && j == i + 1 && j < |entries| ==> SeqnumAt(objs, entries[i]) < SeqnumAt(objs, entries[j]))
    && (forall i, j :: 0 <= i && j == i + 1 && j < |entries| && BootAt(objs, entries[i]) == BootAt(objs, entries[j]) ==>
          MonotonicAt(objs, entries[i]) <= MonotonicAt(objs, entries[j]))
    && (entries != [] ==>
          && h.headEntrySeqnum == SeqnumAt(objs, entries[0])
          && h.headEntryRealtime == RealtimeAt(objs, entries[0])
          && h.tailEntrySeqnum == SeqnumAt(objs, Last(entries))
          && h.tailEntryRealtime == RealtimeAt(objs, Last(entries))
          && h.bootId == BootAt(objs, Last(entries))
          && h.tailEntryMonotonic == MonotonicAt(objs, Last(entries)))
  }

  /** The objects tile the arena, each is sound by itself, and the header describes them. */
  ghost predicate ArenaOk(H: HashFunction, h: Header, objs: Heap, offs: seq<nat>) {
    && h.compatibleFlags == 0 && h.reservedIsZero
    && Tiling(h, objs, offs) && Valid64(h.headerSize)
    && (forall i :: 0 <= i < |offs| ==> ObjectOk(H, objs[offs[i]]))
    && h.nObjects == |offs|
    && h.nEntries == |Select(objs, offs, KEntry)|
    && h.nData == |Select(objs, offs, KData)|
    && h.nFields == |Select(objs, offs, KField)|
    && h.nEntryArrays == |Select(objs, offs, KEntryArray)|
    && TablesOk(h, objs, offs)
    && h.entryArrayOffset in Select(objs, offs, KEntryArray)
    && EntrySequenceOk(h, objs, Select(objs, offs, KEntry))
  }

  // ---------- references ----------

  /** `chain` leads from `first` over arrays of the file, always forward, and its first slots are `list`. */
  ghost predicate Stores(objs: Heap, arrays: seq<nat>, first: nat, chain: seq<nat>, list: seq<nat>) {
    && Path(objs, first, chain)
    && (forall j :: 0 <= j < |chain| ==> chain[j] in arrays && (objs[chain[j]].next == 0 || objs[chain[j]].next > chain[j]))
    && list <= Flat(objs, chain)
    && (chain != [] ==> |Flat(objs, chain[..|chain| - 1])| < |list|)
  }

  /** The main entry array lists exactly the entries of the file, in order. */
  ghost predicate MainOk(h: Header, objs: Heap, entries: seq<nat>, arrays: seq<nat>) {
    exists chain :: Stores(objs, arrays, h.entryArrayOffset, chain, entries)
  }

  /** The list of data object d names entries that contain it, in order and without repetition. */
  ghost predicate DataListOk(objs: Heap, entries: seq<nat>, arrays: seq<nat>, d: nat, chain: seq<nat>, list: seq<nat>) {
    && Is(objs, d, KData)
    && |list| == objs[d].nEntries
    && (list == [] ==> chain == [])
    && (list != [] ==> list[0] == objs[d].entryOffset && Stores(objs, arrays, objs[d].entryArrayOffset, chain, list[1..]))
    && (objs[d].entryArrayOffset != 0 ==> |list| >= 2)
    && Increasing(list)
    && (forall i :: 0 <= i < |list| ==> list[i] in entries && Count(ItemsAt(objs, list[i]), d) > 0)
  }

  ghost predicate DataOk(objs: Heap, entries: seq<nat>, arrays: seq<nat>, d: nat) {
    exists chain, list :: DataListOk(objs, entries, arrays, d, chain, list)
  }

  /** Bucket b's chain is sound, and so is every data object on it. */
  ghost predicate BucketOk(objs: Heap, data: seq<nat>, entries: seq<nat>, arrays: seq<nat>, n: nat, b: nat, item: HashItem, c: seq<nat>)
    requires n > 0
  {
    && BucketChain(objs, KData, n, b, item, c)
    && (forall i :: 0 <= i < |c| ==> c[i] in data && DataOk(objs, entries, arrays, c[i]))
  }

  ghost predicate BucketsOk(h: Header, objs: Heap, data: seq<nat>, entries: seq<nat>, arrays: seq<nat>, chains: seq<seq<nat>>) {
    var table := DataTable(h, objs);
    && |chains| == |table| > 0
    && (forall b :: 0 <= b < |table| ==> BucketOk(objs, data, entries, arrays, |table|, b, table[b], chains[b]))
  }

  /** Every item of every entry names a data object with that hash, on the chain of its bucket. */
  ghost predicate ItemOk(objs: Heap, data: seq<nat>, chains: seq<seq<nat>>, item: EntryItem)
    requires |chains| > 0
  {
    && item.objectOffset in data
    && HashAt(objs, item.objectOffset) == item.hash
    && item.objectOffset in chains[BucketOf(item.hash, |chains|)]
  }

  ghost predicate ItemsOk(objs: Heap, data: seq<nat>, entries: seq<nat>, chains: seq<seq<nat>>)
    requires |chains| > 0
  {
    forall e, i :: e in entries && 0 <= i < |ItemsAt(objs, e)| ==> ItemOk(objs, data, chains, ItemsAt(objs, e)[i])
  }

  ghost predicate ReferencesOk(h: Header, objs: Heap, offs: seq<nat>, chains: seq<seq<nat>>) {
    var data, entries, arrays := Select(objs, offs, KData), Select(objs, offs, KEntry), Select(objs, offs, KEntryArray);
    && MainOk(h, objs, entries, arrays)
    && BucketsOk(h, objs, data, entries, arrays, chains)
    && ItemsOk(objs, data, entries, chains)
  }

  /** The file is consistent. */
  ghost predicate Consistent(H: HashFunction, h: Header, objs: Heap) {
    && ArenaOk(H, h, objs, Offsets(h, objs))
    && exists chains :: ReferencesOk(h, objs, Offsets(h, objs), chains)
  }

  /** The walk from the header meets exactly the objects of a tiling. */
  lemma {:induction false} WalkOfTiling(h: Header, objs: Heap, offs: seq<nat>, i: nat)
    requires Tiling(h, objs, offs) && i < |offs|
    ensures WalkFrom(objs, offs[i], h.tailObjectOffset) == offs[i..]
    decreases |offs| - i
  {
    TilingIncreasing(h, objs, offs);
    if i + 1 < |offs| {
      assert offs[i] < offs[|offs| - 1];
      assert offs[i + 1] == offs[i] + Align64(Size(objs[offs[i]]));
      WalkOfTiling(h, objs, offs, i + 1);
    }
  }

  lemma {:induction false} OffsetsOfTiling(h: Header, objs: Heap, offs: seq<nat>)
    requires Tiling(h, objs, offs)
    ensures Offsets(h, objs) == offs
  {
    WalkOfTiling(h, objs, offs, 0);
  }

  lemma {:induction false} PositionOf(t: seq<nat>, i: nat, j: nat)
    requires Increasing(t) && i < |t| && j < |t|
    ensures t[i] < t[j] <==> i < j
  {
  }

  lemma {:induction false} NotEarlier(s: seq<nat>, t: seq<nat>, k: nat) returns (j: nat)
    requires Increasing(s) && Increasing(t) && k < |s|
    requires forall i :: 0 <= i < |s| ==> s[i] in t
    ensures k <= j < |t| && t[j] == s[k]
  {
    assert s[k] in t;
    j :| 0 <= j < |t| && t[j] == s[k];
    if k > 0 {
      var j0 := NotEarlier(s, t, k - 1);
      assert s[k - 1] < s[k];
      PositionOf(t, j0, j);
    }
  }

  lemma {:induction false} NotLater(s: seq<nat>, t: seq<nat>, k: nat) returns (j: nat)
    requires Increasing(s) && Increasing(t) && k < |s| && |s| == |t|
    requires forall i :: 0 <= i < |s| ==> s[i] in t
    ensures 0 <= j <= k && t[j] == s[k]
    decreases |s| - k
  {
    assert s[k] in t;
    j :| 0 <= j < |t| && t[j] == s[k];
    if k + 1 < |s| {
      var j1 := NotLater(s, t, k + 1);
      assert s[k] < s[k + 1];
      PositionOf(t, j, j1);
    }
  }

  /** An increasing subsequence of the same length is the whole sequence. */
  lemma {:induction false} Pigeonhole(s: seq<nat>, t: seq<nat>)
    requires Increasing(s) && Increasing(t) && |s| == |t|
    requires forall i :: 0 <= i < |s| ==> s[i] in t
    ensures s == t
  {
    forall k | 0 <= k < |s| ensures s[k] == t[k] {
      var j := NotEarlier(s, t, k);
      var i := NotLater(s, t, k);
      PositionOf(t, i, j);
    }
  }
}
