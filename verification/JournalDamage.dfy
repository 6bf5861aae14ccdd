/** What the offline checker (src/journalctl/journal-verify.c) finds: damage to any part of a file makes it inconsistent. */
module JournalDamage {
  import opened JournalDef
  import opened EntryArrays
  import opened JournalView
  import opened JournalVerifySpec
  import opened JournalVerifyChains
  import JournalVerifyWriter

  // ---------- single objects ----------

  /** The objects the checker looks at. */
  lemma {:induction false} Examined(H: HashFunction, h: Header, objs: Heap, p: nat)
    requires Consistent(H, h, objs) && p in Offsets(h, objs)
    ensures p in objs && ObjectOk(H, objs[p])
  {
    hide Offsets, ObjectOk, EntrySequenceOk, TablesOk, ReferencesOk, Select;
    var offs := Offsets(h, objs);
    var i :| 0 <= i < |offs| && offs[i] == p;
  }

  /** A data object has a payload, the hash of which is the one on record, and an entry exactly if it counts one. */
  lemma {:induction false} AcceptedData(H: HashFunction, h: Header, objs: Heap, p: nat)
    requires Consistent(H, h, objs) && p in Offsets(h, objs) && Is(objs, p, KData)
    ensures objs[p].hash == H(objs[p].payload) && |objs[p].payload| > 0 && (objs[p].entryOffset == 0 <==> objs[p].nEntries == 0)
    ensures objs[p].nextHash % 8 == 0 && objs[p].nextField % 8 == 0 && objs[p].entryOffset % 8 == 0 && objs[p].entryArrayOffset % 8 == 0
  {
    hide Consistent, Offsets;
    Examined(H, h, objs, p);
  }

  lemma {:induction false} AcceptedField(H: HashFunction, h: Header, objs: Heap, p: nat)
    requires Consistent(H, h, objs) && p in Offsets(h, objs) && Is(objs, p, KField)
    ensures |objs[p].payload| > 0 && objs[p].nextHash % 8 == 0 && objs[p].headData % 8 == 0
  {
    hide Consistent, Offsets;
    Examined(H, h, objs, p);
  }

  /** An entry has a number, sane times, and at least one item, none of which is without an offset. */
  lemma {:induction false} AcceptedEntry(H: HashFunction, h: Header, objs: Heap, p: nat)
    requires Consistent(H, h, objs) && p in Offsets(h, objs) && Is(objs, p, KEntry)
    ensures objs[p].seqnum > 0 && 0 < objs[p].realtime < 0x80_0000_0000_0000 && objs[p].monotonic < 0x80_0000_0000_0000
    ensures |objs[p].items| > 0 && objs[p].slack == 0
    ensures forall i :: 0 <= i < |objs[p].items| ==> objs[p].items[i].objectOffset != 0 && objs[p].items[i].objectOffset % 8 == 0
  {
    hide Consistent, Offsets;
    Examined(H, h, objs, p);
  }

  /** A hash table has buckets, and each of them has a head exactly if it has a tail. */
  lemma {:induction false} AcceptedTable(H: HashFunction, h: Header, objs: Heap, p: nat, b: nat)
    requires Consistent(H, h, objs) && p in Offsets(h, objs) && (Is(objs, p, KDataHashTable) || Is(objs, p, KFieldHashTable))
    ensures objs[p].slack == 0 && |objs[p].table| > 0
    ensures b < |objs[p].table| ==>
              && (objs[p].table[b].head == 0 <==> objs[p].table[b].tail == 0)
              && objs[p].table[b].head % 8 == 0 && objs[p].table[b].tail % 8 == 0
  {
    hide Consistent, Offsets;
    Examined(H, h, objs, p);
    assert b < |objs[p].table| ==> HashItemOk(objs[p].table[b]);
  }

  lemma {:induction false} AcceptedArray(H: HashFunction, h: Header, objs: Heap, p: nat)
    requires Consistent(H, h, objs) && p in Offsets(h, objs) && Is(objs, p, KEntryArray)
    ensures objs[p].slack == 0 && |objs[p].slots| > 0 && objs[p].next % 8 == 0
    ensures forall i :: 0 <= i < |objs[p].slots| ==> objs[p].slots[i] % 8 == 0
  {
    hide Consistent, Offsets;
    Examined(H, h, objs, p);
  }

  /** The data object with another payload. */
  function WithPayload(o: Object, x: Payload): Object {
    match o
    case DataObject(hash, nextHash, _, nextField, entryOffset, entryArrayOffset, nEntries) =>
      DataObject(hash, nextHash, x, nextField, entryOffset, entryArrayOffset, nEntries)
    case _ => o
  }

  /** A payload of the same length with another hash is found in any file the writer built. */
  lemma {:induction false} PayloadDamage(H: HashFunction, h: Header, objs: Heap, v: View, p: nat, x: Payload)
    requires WellBuilt(H, h, objs, v, {}) && Is(objs, p, KData) && |x| == |objs[p].payload| && H(x) != objs[p].hash
    ensures !Consistent(H, h, objs[p := WithPayload(objs[p], x)])
  {
    hide WellBuilt, Offsets, Consistent;
    var objs' := objs[p := WithPayload(objs[p], x)];
    SameOffsets(H, h, objs, v, objs');
    if Consistent(H, h, objs') {
      AcceptedData(H, h, objs', p);
      assert false;
    }
  }

  /** Where the sizes of the objects stay the same, the checker meets the same objects. */
  lemma {:induction false} SameOffsets(H: HashFunction, h: Header, objs: Heap, v: View, objs': Heap)
    requires WellBuilt(H, h, objs, v, {}) && objs'.Keys == objs.Keys && forall p :: p in objs ==> Size(objs'[p]) == Size(objs[p])
    ensures Offsets(h, objs') == v.offs && forall p :: p in objs ==> p in v.offs
  {
    hide TablesOk, CountsOk, NoSlack, HashIndex, FieldLists, EntriesOk, IndexOk, Size, Offsets;
    OffsetsOfTiling(h, objs', v.offs);
  }

  // ---------- damage to the header ----------

  /** Two consistent files with the same objects have the same counts, tables, last entry, and main entry array. */
  lemma {:induction false} HeaderDetermined(H: HashFunction, h: Header, h': Header, objs: Heap)
    requires Consistent(H, h, objs) && Consistent(H, h', objs) && h'.headerSize == h.headerSize && h'.tailObjectOffset == h.tailObjectOffset
    ensures h'.nObjects == h.nObjects && h'.nEntries == h.nEntries && h'.nData == h.nData && h'.nFields == h.nFields && h'.nEntryArrays == h.nEntryArrays
    ensures h'.compatibleFlags == h.compatibleFlags && h'.reservedIsZero == h.reservedIsZero
    ensures h'.dataHashTableOffset == h.dataHashTableOffset && h'.dataHashTableSize == h.dataHashTableSize
    ensures h'.fieldHashTableOffset == h.fieldHashTableOffset && h'.fieldHashTableSize == h.fieldHashTableSize
    ensures h.nEntries > 0 ==>
              && h'.headEntrySeqnum == h.headEntrySeqnum && h'.tailEntrySeqnum == h.tailEntrySeqnum && h'.bootId == h.bootId
              && h'.headEntryRealtime == h.headEntryRealtime && h'.tailEntryRealtime == h.tailEntryRealtime
              && h'.tailEntryMonotonic == h.tailEntryMonotonic
  {
    hide Tiling, ObjectOk, ReferencesOk, Select, WalkFrom, SeqnumAt, BootAt, MonotonicAt, RealtimeAt, Valid64;
    var offs := Offsets(h, objs);
    assert Offsets(h', objs) == offs;
    SingleTables(h, h', objs, offs);
  }

  lemma {:induction false} SingleTables(h: Header, h': Header, objs: Heap, offs: seq<nat>)
    requires TablesOk(h, objs, offs) && TablesOk(h', objs, offs)
    ensures h'.dataHashTableOffset == h.dataHashTableOffset && h'.dataHashTableSize == h.dataHashTableSize
    ensures h'.fieldHashTableOffset == h.fieldHashTableOffset && h'.fieldHashTableSize == h.fieldHashTableSize
  {
    hide Select;
    assert Select(objs, offs, KDataHashTable)[0] == h.dataHashTableOffset - HASH_TABLE_HEADER;
    assert Select(objs, offs, KFieldHashTable)[0] == h.fieldHashTableOffset - HASH_TABLE_HEADER;
  }

  /** The numbers of the entries rise, and within a boot their time does not go back. */
  lemma {:induction false} AcceptedOrder(H: HashFunction, h: Header, objs: Heap, i: nat, j: nat)
    requires Consistent(H, h, objs) && j == i + 1 && j < |Select(objs, Offsets(h, objs), KEntry)|
    ensures var entries := Select(objs, Offsets(h, objs), KEntry);
            && SeqnumAt(objs, entries[i]) < SeqnumAt(objs, entries[j])
            && (BootAt(objs, entries[i]) == BootAt(objs, entries[j]) ==> MonotonicAt(objs, entries[i]) <= MonotonicAt(objs, entries[j]))
  {
    hide Tiling, ObjectOk, ReferencesOk, Select, Offsets, SeqnumAt, BootAt, MonotonicAt, TablesOk;
    assert EntrySequenceOk(h, objs, Select(objs, Offsets(h, objs), KEntry));
  }

  // ---------- references ----------

  lemma {:induction false} PathPrefix(objs: Heap, n: nat, b: nat, item: HashItem, chain: seq<nat>, c: seq<nat>, k: nat)
    requires n > 0 && BucketChain(objs, KData, n, b, item, chain) && HashPath(objs, item.head, c) && k < |c|
    ensures k < |chain| && c[k] == chain[k]
  {
    hide BucketOf;
    if k > 0 {
      PathPrefix(objs, n, b, item, chain, c, k - 1);
      assert NextHashAt(objs, c[k - 1]) == c[k];
      if k < |chain| {
        assert NextHashAt(objs, chain[k - 1]) == chain[k];
      }
    }
  }

  lemma {:induction false} PathInBucket(objs: Heap, n: nat, b: nat, item: HashItem, chain: seq<nat>, c: seq<nat>)
    requires n > 0 && BucketChain(objs, KData, n, b, item, chain) && HashPath(objs, item.head, c)
    ensures c <= chain
    ensures forall i :: 0 <= i < |c| ==> Is(objs, c[i], KData) && HashAt(objs, c[i]) % n == b
    ensures forall i, j :: 0 <= i < j < |c| ==> c[i] < c[j]
    ensures NextHashAt(objs, c[|c| - 1]) == 0 <==> item.tail == c[|c| - 1]
  {
    hide HashPath;
    forall i | 0 <= i < |c| ensures i < |chain| && c[i] == chain[i] {
      PathPrefix(objs, n, b, item, chain, c, i);
    }
    PathNotEmpty(objs, item.head, c);
    PathPrefix(objs, n, b, item, chain, c, |c| - 1);
    if |c| < |chain| {
      assert NextHashAt(objs, chain[|c| - 1]) == chain[|c|];
    }
  }

  lemma {:induction false} PathNotEmpty(objs: Heap, head: nat, c: seq<nat>)
    requires HashPath(objs, head, c)
    ensures c != []
  {
  }

  /** Following the next pointers from a bucket, the objects are data objects of that bucket, forward in the file, up to the tail on record. */
  lemma {:induction false} AcceptedBucket(H: HashFunction, h: Header, objs: Heap, b: nat, c: seq<nat>)
    requires Consistent(H, h, objs) && b < |DataTable(h, objs)| && HashPath(objs, DataTable(h, objs)[b].head, c) && c != []
    ensures forall i :: 0 <= i < |c| ==> Is(objs, c[i], KData) && HashAt(objs, c[i]) % |DataTable(h, objs)| == b
    ensures forall i, j :: 0 <= i < j < |c| ==> c[i] < c[j]
    ensures NextHashAt(objs, c[|c| - 1]) == 0 <==> DataTable(h, objs)[b].tail == c[|c| - 1]
  {
    hide ArenaOk, ReferencesOk, DataTable, HashPath, BucketChain, Offsets, DataOk;
    var chains :| ReferencesOk(h, objs, Offsets(h, objs), chains);
    BucketAt(h, objs, chains, b);
    PathInBucket(objs, |chains|, b, DataTable(h, objs)[b], chains[b], c);
  }

  lemma {:induction false} BucketAt(h: Header, objs: Heap, chains: seq<seq<nat>>, b: nat)
    requires ReferencesOk(h, objs, Offsets(h, objs), chains) && b < |DataTable(h, objs)|
    ensures |chains| == |DataTable(h, objs)|
    ensures BucketChain(objs, KData, |chains|, b, DataTable(h, objs)[b], chains[b])
    ensures var arrays, entries := Select(objs, Offsets(h, objs), KEntryArray), Select(objs, Offsets(h, objs), KEntry);
            forall i :: 0 <= i < |chains[b]| ==> DataOk(objs, entries, arrays, chains[b][i])
  {
    hide MainOk, ItemsOk, BucketChain, DataOk, Offsets, DataTable;
    var arrays, entries, data := Select(objs, Offsets(h, objs), KEntryArray), Select(objs, Offsets(h, objs), KEntry), Select(objs, Offsets(h, objs), KData);
    assert BucketOk(objs, data, entries, arrays, |chains|, b, DataTable(h, objs)[b], chains[b]);
  }

  /** Every item of an entry names a data object with that hash, and the next pointers from its bucket lead there. */
  lemma {:induction false} AcceptedItem(H: HashFunction, h: Header, objs: Heap, e: nat, i: nat)
    requires Consistent(H, h, objs) && e in Offsets(h, objs) && Is(objs, e, KEntry) && i < |objs[e].items| && |DataTable(h, objs)| > 0
    ensures var item, table := objs[e].items[i], DataTable(h, objs);
            && Is(objs, item.objectOffset, KData) && objs[item.objectOffset].hash == item.hash == H(objs[item.objectOffset].payload)
            && Reaches(objs, table[item.hash % |table|].head, item.objectOffset)
  {
    hide Tiling, ObjectOk, EntrySequenceOk, TablesOk, MainOk, Offsets, DataTable, DataOk, Reaches;
    var table := DataTable(h, objs);
    var item := objs[e].items[i];
    var chains :| ReferencesOk(h, objs, Offsets(h, objs), chains);
    var data := Select(objs, Offsets(h, objs), KData);
    assert ItemsAt(objs, e)[i] == item && e in Select(objs, Offsets(h, objs), KEntry);
    assert ItemOk(objs, data, chains, item);
    AcceptedData(H, h, objs, item.objectOffset);
    var b := item.hash % |table|;
    BucketAt(h, objs, chains, b);
    hide ReferencesOk, Consistent, ItemsOk;
    ReachedInBucket(objs, |table|, b, table[b], chains[b], item.objectOffset);
  }

  lemma {:induction false} ReachedInBucket(objs: Heap, n: nat, b: nat, item: HashItem, c: seq<nat>, q: nat)
    requires n > 0 && BucketChain(objs, KData, n, b, item, c) && q in c
    ensures Reaches(objs, item.head, q)
  {
    hide BucketOf, Reaches;
    ChainFromBucket(objs, n, b, item, c);
    assert q != 0;
    ReachesOnChain(objs, n, b, item.head, c, q);
  }

  // ---------- entry lists ----------

  /** Two chains from the same array go the same way. */
  lemma {:induction false} PathsAgree(objs: Heap, first: nat, p: seq<nat>, q: seq<nat>, k: nat)
    requires Path(objs, first, p) && Path(objs, first, q) && k < |p| && k < |q|
    ensures p[k] == q[k]
  {
    if k > 0 {
      PathsAgree(objs, first, p, q, k - 1);
      assert objs[p[k - 1]].next == p[k] && objs[q[k - 1]].next == q[k];
    }
  }

  lemma {:induction false} FlatPrefix(objs: Heap, p: seq<nat>, q: seq<nat>)
    requires p <= q
    ensures Flat(objs, p) <= Flat(objs, q)
    decreases |q|
  {
    hide Slots;
    if |p| < |q| {
      assert p <= q[..|q| - 1];
      FlatPrefix(objs, p, q[..|q| - 1]);
    } else {
      assert p == q;
    }
  }

  lemma {:induction false} SameSlot(objs: Heap, first: nat, p: seq<nat>, q: seq<nat>, k: nat)
    requires Path(objs, first, p) && Path(objs, first, q) && k < |Flat(objs, p)| && k < |Flat(objs, q)|
    ensures Flat(objs, p)[k] == Flat(objs, q)[k]
  {
    hide Flat;
    forall i | 0 <= i < |p| && i < |q| ensures p[i] == q[i] {
      PathsAgree(objs, first, p, q, i);
    }
    if |p| <= |q| {
      assert p <= q;
      FlatPrefix(objs, p, q);
    } else {
      assert q <= p;
      FlatPrefix(objs, q, p);
    }
  }

  /** The entry that e is on the list of data object d: an entry of the file that contains d. */
  ghost predicate Names(h: Header, objs: Heap, e: nat, d: nat) {
    e in Offsets(h, objs) && Is(objs, e, KEntry) && exists i :: 0 <= i < |objs[e].items| && objs[e].items[i].objectOffset == d
  }

  lemma {:induction false} ContainsNames(h: Header, objs: Heap, e: nat, d: nat)
    requires e in Select(objs, Offsets(h, objs), KEntry) && Count(ItemsAt(objs, e), d) > 0
    ensures Names(h, objs, e, d)
  {
    hide Offsets;
    assert ItemsAt(objs, e) == objs[e].items;
  }

  lemma {:induction false} ListOfAccepted(H: HashFunction, h: Header, objs: Heap, b: nat, c: seq<nat>, d: nat) returns (chain: seq<nat>, list: seq<nat>)
    requires Consistent(H, h, objs) && b < |DataTable(h, objs)| && HashPath(objs, DataTable(h, objs)[b].head, c) && d in c
    ensures DataListOk(objs, Select(objs, Offsets(h, objs), KEntry), Select(objs, Offsets(h, objs), KEntryArray), d, chain, list)
  {
    hide ArenaOk, ReferencesOk, DataTable, HashPath, BucketChain, Offsets, DataListOk;
    var chains :| ReferencesOk(h, objs, Offsets(h, objs), chains);
    BucketAt(h, objs, chains, b);
    PathInBucket(objs, |chains|, b, DataTable(h, objs)[b], chains[b], c);
    var i :| 0 <= i < |c| && c[i] == d;
    assert chains[b][i] == d;
    chain, list :| DataListOk(objs, Select(objs, Offsets(h, objs), KEntry), Select(objs, Offsets(h, objs), KEntryArray), d, chain, list);
  }

  /** The inline item of a data object on a bucket's chain names an entry that contains it. */
  lemma {:induction false} AcceptedInline(H: HashFunction, h: Header, objs: Heap, b: nat, c: seq<nat>, d: nat)
    requires Consistent(H, h, objs) && b < |DataTable(h, objs)| && HashPath(objs, DataTable(h, objs)[b].head, c) && d in c
    requires Is(objs, d, KData) && objs[d].nEntries > 0
    ensures Names(h, objs, objs[d].entryOffset, d)
  {
    hide Consistent, DataTable, HashPath, Offsets, Stores, Names, Count;
    var chain, list := ListOfAccepted(H, h, objs, b, c, d);
    ContainsNames(h, objs, list[0], d);
  }

  /** So do the slots of its arrays that it counts, each a later entry than the one before. */
  lemma {:induction false} AcceptedSlots(H: HashFunction, h: Header, objs: Heap, b: nat, c: seq<nat>, d: nat, path: seq<nat>, k: nat)
    requires Consistent(H, h, objs) && b < |DataTable(h, objs)| && HashPath(objs, DataTable(h, objs)[b].head, c) && d in c
    requires Is(objs, d, KData) && Path(objs, objs[d].entryArrayOffset, path) && k < |Flat(objs, path)| && k + 1 < objs[d].nEntries
    ensures Names(h, objs, Flat(objs, path)[k], d)
    ensures Flat(objs, path)[k] > if k == 0 then objs[d].entryOffset else Flat(objs, path)[k - 1]
  {
    hide Consistent, DataTable, HashPath, Offsets, Flat, Path, Names, Count;
    var chain, list := ListOfAccepted(H, h, objs, b, c, d);
    StoredHere(objs, Select(objs, Offsets(h, objs), KEntryArray), objs[d].entryArrayOffset, chain, list[1..], path, k);
    ContainsNames(h, objs, list[k + 1], d);
    if k > 0 {
      StoredHere(objs, Select(objs, Offsets(h, objs), KEntryArray), objs[d].entryArrayOffset, chain, list[1..], path, k - 1);
    }
    assert list[k] < list[k + 1];
  }

  lemma {:induction false} StoredHere(objs: Heap, arrays: seq<nat>, first: nat, chain: seq<nat>, list: seq<nat>, path: seq<nat>, k: nat)
    requires Stores(objs, arrays, first, chain, list) && Path(objs, first, path) && k < |list| && k < |Flat(objs, path)|
    ensures Flat(objs, path)[k] == list[k]
  {
    hide Flat, Path;
    assert list[k] == Flat(objs, chain)[k];
    SameSlot(objs, first, chain, path, k);
  }

  /** The main entry array lists the entries of the file, all of them, in order. */
  lemma {:induction false} AcceptedMain(H: HashFunction, h: Header, objs: Heap, path: seq<nat>, k: nat)
    requires Consistent(H, h, objs) && Path(objs, h.entryArrayOffset, path) && k < |Flat(objs, path)| && k < h.nEntries
    ensures k < |Select(objs, Offsets(h, objs), KEntry)| && Flat(objs, path)[k] == Select(objs, Offsets(h, objs), KEntry)[k]
  {
    hide Tiling, ObjectOk, EntrySequenceOk, TablesOk, ItemsOk, BucketsOk, Offsets, Flat, Path, Stores, Select;
    var entries, arrays := Select(objs, Offsets(h, objs), KEntry), Select(objs, Offsets(h, objs), KEntryArray);
    var chains :| ReferencesOk(h, objs, Offsets(h, objs), chains);
    var chain :| Stores(objs, arrays, h.entryArrayOffset, chain, entries);
    StoredHere(objs, arrays, h.entryArrayOffset, chain, entries, path, k);
  }

  // ---------- damage to files of the writer ----------

  /** The chain of the bucket of data object d, in a file where next pointers, hashes and heads are as the writer left them. */
  lemma {:induction false} WayTo(H: HashFunction, h: Header, objs: Heap, v: View, objs': Heap, d: nat) returns (b: nat, c: seq<nat>)
    requires WellBuilt(H, h, objs, v, {}) && Is(objs, d, KData) && objs'.Keys == objs.Keys
    requires forall q :: q in objs ==> KindOf(objs'[q]) == KindOf(objs[q]) && NextHashAt(objs', q) == NextHashAt(objs, q)
    requires |DataTable(h, objs')| == |DataTable(h, objs)| && forall i :: 0 <= i < |DataTable(h, objs)| ==> DataTable(h, objs')[i].head == DataTable(h, objs)[i].head
    ensures b < |DataTable(h, objs')| && HashPath(objs', DataTable(h, objs')[b].head, c) && d in c
    ensures NextHashAt(objs', c[|c| - 1]) == 0 && DataTable(h, objs)[b].tail == c[|c| - 1]
    ensures b == BucketOf(HashAt(objs, d), |DataTable(h, objs)|)
  {
    hide Layout, TablesOk, CountsOk, NoSlack, FieldLists, EntriesOk, IndexOk, UniquePayloads, DataTable, BucketOf;
    b := BucketOf(HashAt(objs, d), |DataTable(h, objs)|);
    c := v.dataChains[b];
    assert BucketChain(objs, KData, |DataTable(h, objs)|, b, DataTable(h, objs)[b], c);
    forall i, j | 0 <= i && j == i + 1 && j < |c| ensures Is(objs', c[i], KData) && NextHashAt(objs', c[i]) == c[j] {
      assert NextHashAt(objs, c[i]) == c[j];
    }
  }

  function WithEntryOffset(o: Object, e: nat): Object {
    match o
    case DataObject(hash, nextHash, payload, nextField, _, entryArrayOffset, nEntries) =>
      DataObject(hash, nextHash, payload, nextField, e, entryArrayOffset, nEntries)
    case _ => o
  }

  function WithSlot(o: Object, s: nat, e: nat): Object {
    match o
    case EntryArray(next, slots, slack) => if s < |slots| then EntryArray(next, slots[s := e], slack) else o
    case _ => o
  }

  function WithItem(o: Object, i: nat, item: EntryItem): Object {
    match o
    case EntryObject(seqnum, realtime, monotonic, bootId, xorHash, items, slack) =>
      if i < |items| then EntryObject(seqnum, realtime, monotonic, bootId, xorHash, items[i := item], slack) else o
    case _ => o
  }

  function WithTail(o: Object, b: nat, tail: nat): Object {
    match o
    case DataHashTable(table, slack) => if b < |table| then DataHashTable(table[b := HashItem(table[b].head, tail)], slack) else o
    case _ => o
  }

  /** What replacing the object at p leaves as it is. */
  lemma {:induction false} Replaced(H: HashFunction, h: Header, objs: Heap, v: View, p: nat, o: Object)
    requires WellBuilt(H, h, objs, v, {}) && p in objs && Size(o) == Size(objs[p]) && KindOf(o) == KindOf(objs[p])
    ensures Offsets(h, objs[p := o]) == v.offs && p in v.offs && forall k, q :: Is(objs[p := o], q, k) <==> Is(objs, q, k)
    ensures p + HASH_TABLE_HEADER != h.dataHashTableOffset ==> DataTable(h, objs[p := o]) == DataTable(h, objs)
  {
    hide WellBuilt, Size, Offsets;
    SameOffsets(H, h, objs, v, objs[p := o]);
  }

  /** An inline item that names something else than an entry with the data object is found. */
  lemma {:induction false} InlineDamage(H: HashFunction, h: Header, objs: Heap, v: View, d: nat, e: nat)
    requires WellBuilt(H, h, objs, v, {}) && Is(objs, d, KData) && objs[d].nEntries > 0
    requires !Names(h, objs[d := WithEntryOffset(objs[d], e)], e, d)
    ensures !Consistent(H, h, objs[d := WithEntryOffset(objs[d], e)])
  {
    hide WellBuilt, Consistent, DataTable, HashPath, Offsets, Names;
    var objs' := objs[d := WithEntryOffset(objs[d], e)];
    NotTheTable(H, h, objs, v, d);
    Replaced(H, h, objs, v, d, objs'[d]);
    var b, c := WayTo(H, h, objs, v, objs', d);
    if Consistent(H, h, objs') {
      AcceptedInline(H, h, objs', b, c, d);
      assert false;
    }
  }

  lemma {:induction false} NotTheTable(H: HashFunction, h: Header, objs: Heap, v: View, p: nat)
    requires WellBuilt(H, h, objs, v, {}) && p in objs && !Is(objs, p, KDataHashTable)
    ensures p + HASH_TABLE_HEADER != h.dataHashTableOffset
  {
    hide Layout, CountsOk, NoSlack, FieldLists, EntriesOk, IndexOk, HashIndex, Select;
    assert h.dataHashTableOffset - HASH_TABLE_HEADER in Select(objs, v.offs, KDataHashTable);
  }

  /** A bucket's tail that is not the end of its chain is found; t is the data hash table. */
  lemma {:induction false} TailDamage(H: HashFunction, h: Header, objs: Heap, v: View, t: nat, b: nat, tail: nat)
    requires WellBuilt(H, h, objs, v, {}) && t + HASH_TABLE_HEADER == h.dataHashTableOffset && Is(objs, t, KDataHashTable)
    requires b < |objs[t].table| && tail != objs[t].table[b].tail
    ensures !Consistent(H, h, objs[t := WithTail(objs[t], b, tail)])
  {
    hide WellBuilt, Consistent, HashPath, Offsets;
    var objs' := objs[t := WithTail(objs[t], b, tail)];
    Replaced(H, h, objs, v, t, objs'[t]);
    assert DataTable(h, objs) == objs[t].table && DataTable(h, objs') == objs[t].table[b := HashItem(objs[t].table[b].head, tail)];
    var head := objs[t].table[b].head;
    TailIs(H, h, objs, v, b);
    if Consistent(H, h, objs') {
      AcceptedTable(H, h, objs', t, b);
      if head != 0 {
        var b', c := WayTo(H, h, objs, v, objs', head);
        AcceptedBucket(H, h, objs', b', c);
      }
      assert false;
    }
  }

  lemma {:induction false} TailIs(H: HashFunction, h: Header, objs: Heap, v: View, b: nat)
    requires WellBuilt(H, h, objs, v, {}) && b < |DataTable(h, objs)|
    ensures var item := DataTable(h, objs)[b];
            if item.head == 0 then item.tail == 0 else Is(objs, item.head, KData) && BucketOf(HashAt(objs, item.head), |DataTable(h, objs)|) == b
  {
    hide Layout, TablesOk, CountsOk, NoSlack, FieldLists, EntriesOk, IndexOk, UniquePayloads, DataTable, BucketOf;
    assert BucketChain(objs, KData, |DataTable(h, objs)|, b, DataTable(h, objs)[b], v.dataChains[b]);
  }

  /** An item with another hash than its data object's, or with an offset that is not on the chain of the hash, is found. */
  lemma {:induction false} ItemDamage(H: HashFunction, h: Header, objs: Heap, v: View, e: nat, i: nat, item: EntryItem)
    requires WellBuilt(H, h, objs, v, {}) && Is(objs, e, KEntry) && i < |objs[e].items| && |DataTable(h, objs)| > 0
    requires !(Is(objs, item.objectOffset, KData) && H(PayloadAt(objs, item.objectOffset)) == item.hash
               && Reaches(objs[e := WithItem(objs[e], i, item)], DataTable(h, objs)[item.hash % |DataTable(h, objs)|].head, item.objectOffset))
    ensures !Consistent(H, h, objs[e := WithItem(objs[e], i, item)])
  {
    hide WellBuilt, Consistent, DataTable, Offsets, Reaches;
    var objs' := objs[e := WithItem(objs[e], i, item)];
    NotTheTable(H, h, objs, v, e);
    Replaced(H, h, objs, v, e, objs'[e]);
    if Consistent(H, h, objs') {
      AcceptedItem(H, h, objs', e, i);
      assert false;
    }
  }

  /** A slot in use that names something else than an entry with the data object is found. */
  lemma {:induction false} SlotDamage(H: HashFunction, h: Header, objs: Heap, v: View, d: nat, j: nat, s: nat, e: nat)
    requires WellBuilt(H, h, objs, v, {}) && Is(objs, d, KData) && d in v.arrays && j < |v.arrays[d]|
    requires var a := v.arrays[d][j];
             && a in objs && s < |Slots(objs, a)| && |Flat(objs, v.arrays[d][..j])| + s + 1 < objs[d].nEntries
             && !Names(h, objs[a := WithSlot(objs[a], s, e)], e, d)
    ensures var a := v.arrays[d][j];
            a in objs && !Consistent(H, h, objs[a := WithSlot(objs[a], s, e)])
  {
    hide WellBuilt, Consistent, DataTable, HashPath, Offsets, Names, Flat, Path;
    var chain := v.arrays[d];
    var a := chain[j];
    ChainOfData(H, h, objs, v, d);
    var objs' := objs[a := WithSlot(objs[a], s, e)];
    NotTheTable(H, h, objs, v, a);
    Replaced(H, h, objs, v, a, objs'[a]);
    var b, c := WayTo(H, h, objs, v, objs', d);
    PathKept(objs, objs', objs[d].entryArrayOffset, chain, a);
    SlotsBefore(objs, objs', chain, a, j);
    FlatAt(objs', chain, j);
    var k := |Flat(objs, chain[..j])| + s;
    assert Slots(objs', a)[s] == e && Flat(objs', chain)[k] == e;
    if Consistent(H, h, objs') {
      AcceptedSlots(H, h, objs', b, c, d, chain, k);
      assert false;
    }
  }

  lemma {:induction false} ChainOfData(H: HashFunction, h: Header, objs: Heap, v: View, d: nat)
    requires WellBuilt(H, h, objs, v, {}) && Is(objs, d, KData) && d in v.arrays
    ensures Path(objs, objs[d].entryArrayOffset, v.arrays[d]) && Increasing(v.arrays[d]) && forall a :: a in v.arrays[d] ==> IsArray(objs, a)
  {
    hide TablesOk, CountsOk, NoSlack, FieldLists, EntriesOk, HashIndex, Postings, ArraysUsed, Flat, Grown, Layout;
    JournalVerifyWriter.ObjectsAligned(h, objs, v.offs);
    assert d != MAIN;
    assert ListHeld(h, objs, d, v.arrays[d], v.lists[d]);
  }

  lemma {:induction false} PathKept(objs: Heap, objs': Heap, first: nat, chain: seq<nat>, a: nat)
    requires Path(objs, first, chain) && IsArray(objs, a) && IsArray(objs', a) && objs' == objs[a := objs'[a]]
    requires objs'[a].next == objs[a].next && |objs'[a].slots| == |objs[a].slots|
    ensures Path(objs', first, chain)
  {
  }

  lemma {:induction false} SlotsBefore(objs: Heap, objs': Heap, chain: seq<nat>, a: nat, j: nat)
    requires j < |chain| && chain[j] == a && Increasing(chain) && a in objs' && objs' == objs[a := objs'[a]] && a in objs
    ensures Flat(objs', chain[..j]) == Flat(objs, chain[..j])
  {
    forall x | x in chain[..j] ensures Slots(objs', x) == Slots(objs, x) {
      var i :| 0 <= i < j && chain[i] == x;
    }
    FlatFrame(objs, objs', chain[..j]);
  }
}
