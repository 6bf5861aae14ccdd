/** What the offline checker says about files built by the writer. */
module JournalVerifyWriter {
  import opened JournalDef
  import opened EntryArrays
  import opened JournalView
  import opened JournalLinking
  import opened JournalIndex
  import opened JournalVerifySpec
  import opened JournalVerifyChains

  /** The checker has no objection to this entry: it has fields, none empty and none twice, and sane times. */
  ghost predicate Sound(e: LogEntry) {
    && |e.fields| > 0
    && [] !in e.fields
    && (forall x :: x in e.fields ==> e.fields[x] <= 1)
    && ValidRealtime(e.realtime) && ValidMonotonic(e.monotonic)
  }

  // ---------- offsets ----------

  lemma {:induction false} ObjectsAligned(h: Header, objs: Heap, offs: seq<nat>)
    requires Layout(h, objs, offs)
    ensures forall p :: p in objs ==> Valid64(p) && p != 0
  {
    hide Size, Align64;
    forall p | p in objs ensures Valid64(p) && p != 0 {
      var i :| 0 <= i < |offs| && offs[i] == p;
      OffsetAligned(h, objs, offs, i);
    }
  }

  lemma {:induction false} OffsetAligned(h: Header, objs: Heap, offs: seq<nat>, k: nat)
    requires Tiling(h, objs, offs) && h.headerSize > 0 && Valid64(h.headerSize) && k < |offs|
    ensures Valid64(offs[k]) && offs[k] > 0
  {
    hide Size, Align64;
    if k > 0 {
      OffsetAligned(h, objs, offs, k - 1);
      var step := Align64(Size(objs[offs[k - 1]]));
      assert offs[k] == offs[k - 1] + step;
    }
  }

  predicate Valid64Or0(objs: Heap, p: nat) {
    p == 0 || p in objs
  }

  // ---------- single objects ----------

  lemma {:induction false} ChainLink(objs: Heap, kind: Kind, n: nat, b: nat, item: HashItem, c: seq<nat>, d: nat)
    requires n > 0 && BucketChain(objs, kind, n, b, item, c) && d in c
    ensures Valid64Or0(objs, NextHashAt(objs, d))
  {
    hide BucketOf;
    var i :| 0 <= i < |c| && c[i] == d;
    if i + 1 < |c| {
      assert NextHashAt(objs, c[i]) == c[i + 1];
    }
  }

  lemma {:induction false} NextHashValid(H: HashFunction, objs: Heap, kind: Kind, table: seq<HashItem>, chains: seq<seq<nat>>, d: nat)
    requires HashIndex(H, objs, kind, table, chains) && Is(objs, d, kind)
    ensures Valid64Or0(objs, NextHashAt(objs, d))
  {
    hide BucketChain, BucketOf;
    var b := BucketOf(HashAt(objs, d), |table|);
    ChainLink(objs, kind, |table|, b, table[b], chains[b], d);
  }

  lemma {:induction false} TableValid(H: HashFunction, objs: Heap, kind: Kind, table: seq<HashItem>, chains: seq<seq<nat>>, b: nat)
    requires HashIndex(H, objs, kind, table, chains) && b < |table|
    ensures Valid64Or0(objs, table[b].head) && Valid64Or0(objs, table[b].tail) && (table[b].head != 0 <==> table[b].tail != 0)
  {
    hide BucketOf;
    assert BucketChain(objs, kind, |table|, b, table[b], chains[b]);
  }

  lemma {:induction false} NextFieldValid(objs: Heap, lists: map<Payload, seq<nat>>, d: nat)
    requires FieldLists(objs, lists, {}) && Is(objs, d, KData)
    ensures Valid64Or0(objs, NextFieldAt(objs, d))
  {
    hide FieldName;
    if FieldName(PayloadAt(objs, d)).Some? {
      var l := lists[FieldName(PayloadAt(objs, d)).value];
      var i :| 0 <= i < |l| && l[i] == d;
      if i > 0 {
        assert NextFieldAt(objs, l[i]) == l[i - 1];
      }
    }
  }

  lemma {:induction false} HeadDataValid(objs: Heap, lists: map<Payload, seq<nat>>, p: nat)
    requires FieldLists(objs, lists, {}) && Is(objs, p, KField)
    ensures Valid64Or0(objs, HeadDataAt(objs, p)) && PayloadAt(objs, p) != []
  {
    hide FieldName, FieldCover;
    var l := lists[PayloadAt(objs, p)];
    if l != [] {
      assert Is(objs, l[|l| - 1], KData);
    }
  }

  lemma {:induction false} HeldArrays(objs: Heap, first: nat, chain: seq<nat>, list: seq<nat>)
    requires Holds(objs, first, chain, list)
    requires forall i :: 0 <= i < |list| ==> list[i] in objs
    ensures Valid64Or0(objs, first)
    ensures forall a :: a in chain ==> IsArray(objs, a) && objs[a].slots != [] && Valid64Or0(objs, objs[a].next)
    ensures forall a, i :: a in chain && 0 <= i < |objs[a].slots| ==> Valid64Or0(objs, objs[a].slots[i])
  {
    hide Grown;
    forall a | a in chain ensures IsArray(objs, a) && objs[a].slots != [] && Valid64Or0(objs, objs[a].next)
      && forall i :: 0 <= i < |objs[a].slots| ==> Valid64Or0(objs, objs[a].slots[i])
    {
      var j :| 0 <= j < |chain| && chain[j] == a;
      if j + 1 < |chain| {
        assert objs[chain[j]].next == chain[j + 1];
      }
      FlatAt(objs, chain, j);
      var flat := Flat(objs, chain);
      forall i | 0 <= i < |objs[a].slots| ensures Valid64Or0(objs, objs[a].slots[i]) {
        var k := |Flat(objs, chain[..j])| + i;
        assert flat[k] == objs[a].slots[i];
        if k < |list| {
          assert flat[k] == list[k];
        }
      }
    }
  }

  /** The entry lists name only entries. */
  lemma {:induction false} ListMembers(h: Header, objs: Heap, entries: seq<nat>, lists: map<nat, seq<nat>>, arrays: map<nat, seq<nat>>, o: nat)
    requires IndexOk(h, objs, entries, lists, arrays) && o in lists
    ensures forall e :: e in lists[o] ==> e in entries
  {
    hide ListsHeld, Postings, Count;
    if o != MAIN {
      ListKeys(h, objs, lists, arrays);
      PostingsMembers(objs, entries, o);
    }
  }

  lemma {:induction false} ArraysSound(H: HashFunction, h: Header, objs: Heap, entries: seq<nat>, lists: map<nat, seq<nat>>, arrays: map<nat, seq<nat>>, a: nat)
    requires IndexOk(h, objs, entries, lists, arrays) && Is(objs, a, KEntryArray) && objs[a].slack == 0
    requires forall p :: p in objs ==> Valid64(p)
    requires forall e :: e in entries ==> e in objs
    ensures ObjectOk(H, objs[a])
  {
    hide Holds, Postings, ObjectOk;
    var o :| o in arrays && a in arrays[o];
    ListMembers(h, objs, entries, lists, arrays, o);
    assert ListHeld(h, objs, o, arrays[o], lists[o]);
    var list := if o == MAIN then lists[o] else if lists[o] == [] then [] else lists[o][1..];
    HeldArrays(objs, if o == MAIN then h.entryArrayOffset else objs[o].entryArrayOffset, arrays[o], list);
    ArrayObjectOk(H, objs, a);
  }

  lemma {:induction false} ArrayObjectOk(H: HashFunction, objs: Heap, a: nat)
    requires IsArray(objs, a) && objs[a].slots != [] && objs[a].slack == 0 && Valid64Or0(objs, objs[a].next)
    requires forall i :: 0 <= i < |objs[a].slots| ==> Valid64Or0(objs, objs[a].slots[i])
    requires forall p :: p in objs ==> Valid64(p)
    ensures ObjectOk(H, objs[a])
  {
  }

  lemma {:induction false} DataLists(h: Header, objs: Heap, entries: seq<nat>, lists: map<nat, seq<nat>>, arrays: map<nat, seq<nat>>, d: nat)
    requires IndexOk(h, objs, entries, lists, arrays) && Is(objs, d, KData) && d != 0
    requires forall e :: e in entries ==> e in objs && e != 0
    ensures EntryOffsetAt(objs, d) == 0 <==> NEntriesAt(objs, d) == 0
    ensures Valid64Or0(objs, EntryOffsetAt(objs, d)) && Valid64Or0(objs, EntryArrayAt(objs, d))
  {
    hide Holds, Postings, ListsHeld;
    ListKeys(h, objs, lists, arrays);
    ListMembers(h, objs, entries, lists, arrays, d);
    DataListAt(h, objs, lists, arrays, d);
    var list := if lists[d] == [] then [] else lists[d][1..];
    HeldArrays(objs, EntryArrayAt(objs, d), arrays[d], list);
    if lists[d] != [] {
      assert lists[d][0] in lists[d];
    }
  }

  lemma {:induction false} DataListAt(h: Header, objs: Heap, lists: map<nat, seq<nat>>, chains: map<nat, seq<nat>>, d: nat)
    requires ListsHeld(h, objs, lists, chains) && Is(objs, d, KData) && d != MAIN
    ensures d in lists && d in chains
    ensures NEntriesAt(objs, d) == |lists[d]| && EntryOffsetAt(objs, d) == if lists[d] == [] then 0 else lists[d][0]
    ensures Holds(objs, EntryArrayAt(objs, d), chains[d], if lists[d] == [] then [] else lists[d][1..])
  {
    hide Holds, ArraysUsed;
    assert ListHeld(h, objs, d, chains[d], lists[d]);
  }

  lemma {:induction false} MainListAt(h: Header, objs: Heap, lists: map<nat, seq<nat>>, chains: map<nat, seq<nat>>)
    requires ListsHeld(h, objs, lists, chains)
    ensures MAIN in lists && MAIN in chains
    ensures h.nEntries == |lists[MAIN]| && Holds(objs, h.entryArrayOffset, chains[MAIN], lists[MAIN])
  {
    hide Holds, ArraysUsed;
    assert ListHeld(h, objs, MAIN, chains[MAIN], lists[MAIN]);
  }

  // ---------- every object of a file whose entries are sound ----------

  lemma {:induction false} ObjectSound(H: HashFunction, h: Header, objs: Heap, v: View, p: nat)
    requires WellBuilt(H, h, objs, v, {}) && AllUsed(objs, Entries(objs, v)) && p in objs
    requires forall i :: 0 <= i < |Entries(objs, v)| ==> Sound(Log(objs, Entries(objs, v))[i])
    ensures ObjectOk(H, objs[p])
  {
    ObjectsAligned(h, objs, v.offs);
    hide ObjectOk, WellBuilt, Select, Log, AllUsed, Sound;
    if Is(objs, p, KData) {
      DataSound(H, h, objs, v, p);
    } else if Is(objs, p, KField) {
      FieldSound(H, h, objs, v, p);
    } else if Is(objs, p, KEntry) {
      EntrySound(H, h, objs, v, p);
    } else if Is(objs, p, KEntryArray) {
      ArraySound(H, h, objs, v, p);
    } else if Is(objs, p, KDataHashTable) || Is(objs, p, KFieldHashTable) {
      TableSound(H, h, objs, v, p);
    } else {
      OtherSound(H, objs[p]);
    }
  }

  lemma {:induction false} OtherSound(H: HashFunction, o: Object)
    requires o.OtherObject?
    ensures ObjectOk(H, o)
  {
  }

  lemma {:induction false} DataSound(H: HashFunction, h: Header, objs: Heap, v: View, p: nat)
    requires WellBuilt(H, h, objs, v, {}) && AllUsed(objs, Entries(objs, v)) && Is(objs, p, KData)
    requires forall q :: q in objs ==> Valid64(q) && q != 0
    requires forall i :: 0 <= i < |Entries(objs, v)| ==> Sound(Log(objs, Entries(objs, v))[i])
    ensures ObjectOk(H, objs[p])
  {
    hide Layout, TablesOk, CountsOk, HashIndex, FieldLists, EntriesOk, IndexOk, Select, Log, AllUsed, Sound;
    NextHashValid(H, objs, KData, DataTable(h, objs), v.dataChains, p);
    NextFieldValid(objs, v.fieldLists, p);
    DataLists(h, objs, Entries(objs, v), v.lists, v.arrays, p);
    DataPayload(H, h, objs, v, p);
  }

  lemma {:induction false} FieldSound(H: HashFunction, h: Header, objs: Heap, v: View, p: nat)
    requires WellBuilt(H, h, objs, v, {}) && Is(objs, p, KField)
    requires forall q :: q in objs ==> Valid64(q) && q != 0
    ensures ObjectOk(H, objs[p])
  {
    hide Layout, TablesOk, CountsOk, HashIndex, FieldLists, EntriesOk, IndexOk, Select;
    NextHashValid(H, objs, KField, FieldTable(h, objs), v.fieldChains, p);
    HeadDataValid(objs, v.fieldLists, p);
  }

  lemma {:induction false} ArraySound(H: HashFunction, h: Header, objs: Heap, v: View, p: nat)
    requires WellBuilt(H, h, objs, v, {}) && Is(objs, p, KEntryArray)
    requires forall q :: q in objs ==> Valid64(q) && q != 0
    ensures ObjectOk(H, objs[p])
  {
    hide Layout, TablesOk, CountsOk, HashIndex, FieldLists, EntriesOk, IndexOk, Select;
    ArraysSound(H, h, objs, Entries(objs, v), v.lists, v.arrays, p);
  }

  lemma {:induction false} DataPayload(H: HashFunction, h: Header, objs: Heap, v: View, d: nat)
    requires WellBuilt(H, h, objs, v, {}) && AllUsed(objs, Entries(objs, v)) && Is(objs, d, KData)
    requires forall i :: 0 <= i < |Entries(objs, v)| ==> Sound(Log(objs, Entries(objs, v))[i])
    ensures PayloadAt(objs, d) != [] && objs[d].hash == H(PayloadAt(objs, d))
  {
    StoredOnce(H, h, objs, v, PayloadAt(objs, d));
    hide Layout, TablesOk, CountsOk, HashChains, FieldLists, EntriesOk, IndexOk, Select, AllUsed;
    assert HashAt(objs, d) == objs[d].hash;
    var entries := Entries(objs, v);
    var i :| 0 <= i < |entries| && PayloadAt(objs, d) in Log(objs, entries)[i].fields;
    assert Sound(Log(objs, entries)[i]);
  }

  lemma {:induction false} FieldsSize(objs: Heap, items: seq<EntryItem>)
    ensures |FieldsOf(objs, items)| == |items|
  {
    if items != [] {
      FieldsSize(objs, items[..|items| - 1]);
    }
  }

  lemma {:induction false} EntrySound(H: HashFunction, h: Header, objs: Heap, v: View, p: nat)
    requires WellBuilt(H, h, objs, v, {}) && Is(objs, p, KEntry)
    requires forall q :: q in objs ==> Valid64(q) && q != 0
    requires forall i :: 0 <= i < |Entries(objs, v)| ==> Sound(Log(objs, Entries(objs, v))[i])
    ensures ObjectOk(H, objs[p])
  {
    var entries := Entries(objs, v);
    InOffsets(h, objs, v.offs, p);
    hide Layout, TablesOk, CountsOk, HashIndex, FieldLists, IndexOk, Select, NoSlack;
    var i :| 0 <= i < |entries| && entries[i] == p;
    LogSound(h, objs, entries, i);
  }

  lemma {:induction false} InOffsets(h: Header, objs: Heap, offs: seq<nat>, p: nat)
    requires Layout(h, objs, offs) && p in objs
    ensures p in offs
  {
  }

  lemma {:induction false} LogSound(h: Header, objs: Heap, entries: seq<nat>, i: nat)
    requires EntriesOk(h, objs, entries) && i < |entries| && Sound(Log(objs, entries)[i])
    requires forall q :: q in objs ==> Valid64(q) && q != 0
    ensures forall H :: ObjectOk(H, objs[entries[i]])
  {
    assert EntryOk(objs, entries[i]);
    FieldsSize(objs, ItemsAt(objs, entries[i]));
    assert i > 0 ==> SeqnumAt(objs, entries[0]) < SeqnumAt(objs, entries[i]);
  }

  lemma {:induction false} TableSound(H: HashFunction, h: Header, objs: Heap, v: View, p: nat)
    requires WellBuilt(H, h, objs, v, {}) && (Is(objs, p, KDataHashTable) || Is(objs, p, KFieldHashTable))
    requires forall q :: q in objs ==> Valid64(q) && q != 0
    ensures ObjectOk(H, objs[p])
  {
    hide Layout, CountsOk, HashIndex, FieldLists, EntriesOk, IndexOk, Select, TablesOk, DataTable, FieldTable, NoSlack;
    InOffsets(h, objs, v.offs, p);
    NoSlackAt(objs, p);
    TablePlace(h, objs, v.offs, p);
    if Is(objs, p, KDataHashTable) {
      TableItemsSound(H, objs, KData, DataTable(h, objs), v.dataChains);
    } else {
      TableItemsSound(H, objs, KField, FieldTable(h, objs), v.fieldChains);
    }
  }

  lemma {:induction false} NoSlackAt(objs: Heap, p: nat)
    requires NoSlack(objs) && (Is(objs, p, KDataHashTable) || Is(objs, p, KFieldHashTable))
    ensures objs[p].slack == 0
  {
  }

  lemma {:induction false} TablePlace(h: Header, objs: Heap, offs: seq<nat>, p: nat)
    requires TablesOk(h, objs, offs) && p in offs
    ensures Is(objs, p, KDataHashTable) ==> DataTable(h, objs) == objs[p].table
    ensures Is(objs, p, KFieldHashTable) ==> FieldTable(h, objs) == objs[p].table
  {
    assert Is(objs, p, KDataHashTable) ==> p in Select(objs, offs, KDataHashTable);
    assert Is(objs, p, KFieldHashTable) ==> p in Select(objs, offs, KFieldHashTable);
    hide Select;
  }

  lemma {:induction false} TableItemsSound(H: HashFunction, objs: Heap, kind: Kind, table: seq<HashItem>, chains: seq<seq<nat>>)
    requires HashIndex(H, objs, kind, table, chains)
    requires forall q :: q in objs ==> Valid64(q) && q != 0
    ensures |table| > 0 && TableOk(table)
  {
    hide HashIndex;
    TableNotEmpty(H, objs, kind, table, chains);
    forall b | 0 <= b < |table| ensures HashItemOk(table[b]) {
      TableValid(H, objs, kind, table, chains, b);
    }
  }

  lemma {:induction false} TableNotEmpty(H: HashFunction, objs: Heap, kind: Kind, table: seq<HashItem>, chains: seq<seq<nat>>)
    requires HashIndex(H, objs, kind, table, chains)
    ensures |chains| == |table| > 0
  {
  }

  // ---------- files whose entries are sound are consistent ----------

  lemma {:induction false} WriterSequence(h: Header, objs: Heap, entries: seq<nat>)
    requires EntriesOk(h, objs, entries) && entries != []
    requires BootAt(objs, Last(entries)) == h.bootId && RealtimeAt(objs, entries[0]) > 0
    ensures EntrySequenceOk(h, objs, entries)
  {
    hide EntryOk;
  }

  lemma {:induction false} MainChainExists(h: Header, objs: Heap, entries: seq<nat>, lists: map<nat, seq<nat>>, arrays: map<nat, seq<nat>>)
    requires IndexOk(h, objs, entries, lists, arrays) && entries != []
    ensures h.nEntries == |entries| && Is(objs, h.entryArrayOffset, KEntryArray)
  {
    hide ListsHeld, Postings, Grown;
    MainListAt(h, objs, lists, arrays);
  }

  lemma {:induction false} WriterArena(H: HashFunction, h: Header, objs: Heap, v: View)
    requires WellBuilt(H, h, objs, v, {}) && AllUsed(objs, Entries(objs, v)) && Entries(objs, v) != []
    requires BootAt(objs, Last(Entries(objs, v))) == h.bootId
    requires forall i :: 0 <= i < |Entries(objs, v)| ==> Sound(Log(objs, Entries(objs, v))[i])
    ensures ArenaOk(H, h, objs, v.offs)
  {
    hide TablesOk, HashIndex, FieldLists, EntriesOk, IndexOk, Select, ObjectOk, Tiling, AllUsed, NoSlack, Layout, EntrySequenceOk, Log, Sound, Valid64;
    var entries := Entries(objs, v);
    WriterTiling(h, objs, v.offs);
    forall i | 0 <= i < |v.offs| ensures ObjectOk(H, objs[v.offs[i]]) {
      ObjectSound(H, h, objs, v, v.offs[i]);
    }
    FirstRealtime(objs, entries);
    WriterSequence(h, objs, entries);
    MainChainExists(h, objs, entries, v.lists, v.arrays);
    InOffsets(h, objs, v.offs, h.entryArrayOffset);
  }

  lemma {:induction false} FirstRealtime(objs: Heap, entries: seq<nat>)
    requires entries != [] && forall i :: 0 <= i < |entries| ==> Sound(Log(objs, entries)[i])
    ensures RealtimeAt(objs, entries[0]) > 0
  {
    assert Sound(Log(objs, entries)[0]);
  }

  lemma {:induction false} WriterTiling(h: Header, objs: Heap, offs: seq<nat>)
    requires Layout(h, objs, offs)
    ensures Tiling(h, objs, offs) && Valid64(h.headerSize) && h.nObjects == |offs|
    ensures forall i :: 0 <= i < |offs| ==> offs[i] in objs
  {
  }

  /** A chain of the writer stores its list in the checker's sense. */
  lemma {:induction false} HoldsStores(h: Header, objs: Heap, offs: seq<nat>, first: nat, chain: seq<nat>, list: seq<nat>)
    requires Layout(h, objs, offs) && Holds(objs, first, chain, list)
    ensures Stores(objs, Select(objs, offs, KEntryArray), first, chain, list)
  {
    hide Grown, Flat, Size, Select;
    forall j | 0 <= j < |chain| ensures chain[j] in offs && Is(objs, chain[j], KEntryArray) && (objs[chain[j]].next == 0 || objs[chain[j]].next > chain[j]) {
      if j + 1 < |chain| {
        assert objs[chain[j]].next == chain[j + 1];
        assert chain[j] < chain[j + 1];
      }
    }
  }

  lemma {:induction false} WriterDataOk(H: HashFunction, h: Header, objs: Heap, v: View, d: nat)
    requires WellBuilt(H, h, objs, v, {}) && Is(objs, d, KData)
    requires forall i :: 0 <= i < |Entries(objs, v)| ==> Sound(Log(objs, Entries(objs, v))[i])
    ensures DataOk(objs, Entries(objs, v), Select(objs, v.offs, KEntryArray), d)
  {
    var entries := Entries(objs, v);
    ObjectsAligned(h, objs, v.offs);
    IndexIsSorted(H, h, objs, v, d);
    forall i | 0 <= i < |entries| ensures Log(objs, entries)[i].fields[PayloadAt(objs, d)] <= 1 {
      assert Sound(Log(objs, entries)[i]);
    }
    hide Layout, TablesOk, CountsOk, NoSlack, HashIndex, FieldLists, EntriesOk, Select, Log, ListsHeld, Postings, Count, Holds, Stores;
    DataListAt(h, objs, v.lists, v.arrays, d);
    PostingsMembers(objs, entries, d);
    WriterDataList(h, objs, v.offs, entries, v.arrays[d], v.lists[d], d);
  }

  lemma {:induction false} WriterDataList(h: Header, objs: Heap, offs: seq<nat>, entries: seq<nat>, chain: seq<nat>, list: seq<nat>, d: nat)
    requires Layout(h, objs, offs) && Is(objs, d, KData)
    requires NEntriesAt(objs, d) == |list| && EntryOffsetAt(objs, d) == if list == [] then 0 else list[0]
    requires Holds(objs, EntryArrayAt(objs, d), chain, if list == [] then [] else list[1..])
    requires Increasing(list)
    requires forall e :: e in list ==> e in entries && Count(ItemsAt(objs, e), d) > 0
    ensures DataOk(objs, entries, Select(objs, offs, KEntryArray), d)
  {
    hide Layout, Holds, Stores, Count, Select, ItemsAt, Increasing;
    HeldEmpty(objs, EntryArrayAt(objs, d), chain, if list == [] then [] else list[1..]);
    assert forall i :: 0 <= i < |list| ==> list[i] in list;
    HoldsStores(h, objs, offs, EntryArrayAt(objs, d), chain, if list == [] then [] else list[1..]);
    assert DataListOk(objs, entries, Select(objs, offs, KEntryArray), d, chain, list);
  }

  lemma {:induction false} HeldEmpty(objs: Heap, first: nat, chain: seq<nat>, list: seq<nat>)
    requires Holds(objs, first, chain, list)
    ensures list == [] ==> chain == [] && first == 0
  {
  }

  lemma {:induction false} WriterReferences(H: HashFunction, h: Header, objs: Heap, v: View)
    requires WellBuilt(H, h, objs, v, {})
    requires forall i :: 0 <= i < |Entries(objs, v)| ==> Sound(Log(objs, Entries(objs, v))[i])
    ensures ReferencesOk(h, objs, v.offs, v.dataChains)
  {
    var data, entries, arrays := Select(objs, v.offs, KData), Entries(objs, v), Select(objs, v.offs, KEntryArray);
    forall d | Is(objs, d, KData) ensures DataOk(objs, entries, arrays, d) && d in data {
      WriterDataOk(H, h, objs, v, d);
      InOffsets(h, objs, v.offs, d);
    }
    hide Layout, TablesOk, CountsOk, NoSlack, FieldLists, Select, Log, Sound, DataOk, Postings, UniquePayloads;
    assert MainOk(h, objs, entries, arrays) by {
      hide ListsHeld, Holds, Stores;
      MainListAt(h, objs, v.lists, v.arrays);
      HoldsStores(h, objs, v.offs, h.entryArrayOffset, v.arrays[MAIN], entries);
    }
    hide MainOk, ListsHeld;
    WriterBuckets(h, objs, data, entries, arrays, v.dataChains);
    WriterItems(h, objs, data, entries, v.dataChains);
  }

  lemma {:induction false} WriterBuckets(h: Header, objs: Heap, data: seq<nat>, entries: seq<nat>, arrays: seq<nat>, chains: seq<seq<nat>>)
    requires HashChains(objs, KData, DataTable(h, objs), chains)
    requires forall d :: Is(objs, d, KData) ==> DataOk(objs, entries, arrays, d) && d in data
    ensures BucketsOk(h, objs, data, entries, arrays, chains)
  {
    hide DataOk, DataTable;
    var table := DataTable(h, objs);
    forall b | 0 <= b < |table| ensures BucketOk(objs, data, entries, arrays, |table|, b, table[b], chains[b]) {
      assert BucketChain(objs, KData, |table|, b, table[b], chains[b]);
    }
  }

  lemma {:induction false} WriterItems(h: Header, objs: Heap, data: seq<nat>, entries: seq<nat>, chains: seq<seq<nat>>)
    requires HashChains(objs, KData, DataTable(h, objs), chains)
    requires EntriesOk(h, objs, entries)
    requires forall d :: Is(objs, d, KData) ==> d in data
    ensures |chains| > 0 && ItemsOk(objs, data, entries, chains)
  {
    hide BucketChain, BucketOf, DataTable;
    forall e, i | e in entries && 0 <= i < |ItemsAt(objs, e)| ensures ItemOk(objs, data, chains, ItemsAt(objs, e)[i]) {
      var k :| 0 <= k < |entries| && entries[k] == e;
      assert EntryOk(objs, entries[k]);
      var item := ItemsAt(objs, e)[i];
      assert item.objectOffset in chains[BucketOf(HashAt(objs, item.objectOffset), |chains|)];
    }
  }

  // ---------- consistent files have sound entries ----------

  lemma {:induction false} ConsistentEntries(H: HashFunction, h: Header, objs: Heap, v: View)
    requires WellBuilt(H, h, objs, v, {}) && ArenaOk(H, h, objs, v.offs)
    ensures Entries(objs, v) != [] && BootAt(objs, Last(Entries(objs, v))) == h.bootId
  {
    hide Tiling, TablesOk, CountsOk, NoSlack, HashIndex, FieldLists, EntriesOk, Select, ListsHeld, Postings, ObjectOk;
    var entries := Entries(objs, v);
    ObjectsAligned(h, objs, v.offs);
    MainListAt(h, objs, v.lists, v.arrays);
    HeldEmpty(objs, h.entryArrayOffset, v.arrays[MAIN], entries);
    assert Is(objs, h.entryArrayOffset, KEntryArray);
  }

  lemma {:induction false} ConsistentList(H: HashFunction, h: Header, objs: Heap, v: View, chains: seq<seq<nat>>, d: nat)
    requires WellBuilt(H, h, objs, v, {}) && ReferencesOk(h, objs, v.offs, chains)
    requires Is(objs, d, KData) && |chains| > 0 && d in chains[BucketOf(HashAt(objs, d), |chains|)]
    ensures d in v.lists && Increasing(v.lists[d])
  {
    ObjectsAligned(h, objs, v.offs);
    var entries, arrays := Entries(objs, v), Select(objs, v.offs, KEntryArray);
    hide Layout, TablesOk, CountsOk, NoSlack, HashIndex, FieldLists, EntriesOk, Select, ListsHeld, Postings, ItemsOk, MainOk, BucketChain, Holds, Stores, BucketOf, DataListOk;
    OnBucket(h, objs, Select(objs, v.offs, KData), entries, arrays, chains, d);
    var chain, list :| DataListOk(objs, entries, arrays, d, chain, list);
    DataListAt(h, objs, v.lists, v.arrays, d);
    HoldsStores(h, objs, v.offs, EntryArrayAt(objs, d), v.arrays[d], if v.lists[d] == [] then [] else v.lists[d][1..]);
    SameDataList(objs, entries, arrays, d, chain, list, v.arrays[d], v.lists[d]);
  }

  lemma {:induction false} OnBucket(h: Header, objs: Heap, data: seq<nat>, entries: seq<nat>, arrays: seq<nat>, chains: seq<seq<nat>>, d: nat)
    requires BucketsOk(h, objs, data, entries, arrays, chains) && |chains| > 0 && d in chains[BucketOf(HashAt(objs, d), |chains|)]
    ensures DataOk(objs, entries, arrays, d)
  {
    hide DataOk, BucketOf, BucketChain;
    var b := BucketOf(HashAt(objs, d), |chains|);
    assert BucketOk(objs, data, entries, arrays, |chains|, b, DataTable(h, objs)[b], chains[b]);
  }

  /** The list the checker has read is the list the writer has written. */
  lemma {:induction false} SameDataList(objs: Heap, entries: seq<nat>, arrays: seq<nat>, d: nat, chain: seq<nat>, list: seq<nat>, chain2: seq<nat>, list2: seq<nat>)
    requires DataListOk(objs, entries, arrays, d, chain, list)
    requires |list2| == NEntriesAt(objs, d) && (list2 != [] ==> list2[0] == EntryOffsetAt(objs, d))
    requires Stores(objs, arrays, EntryArrayAt(objs, d), chain2, if list2 == [] then [] else list2[1..])
    ensures Increasing(list2)
  {
    hide Count, Stores;
    if list2 != [] {
      StoresCollect(objs, arrays, EntryArrayAt(objs, d), chain, list[1..]);
      StoresCollect(objs, arrays, EntryArrayAt(objs, d), chain2, list2[1..]);
      assert list == [list[0]] + list[1..] && list2 == [list2[0]] + list2[1..];
    }
  }

  lemma {:induction false} ConsistentSound(H: HashFunction, h: Header, objs: Heap, v: View, chains: seq<seq<nat>>, i: nat)
    requires WellBuilt(H, h, objs, v, {}) && ArenaOk(H, h, objs, v.offs) && ReferencesOk(h, objs, v.offs, chains)
    requires i < |Entries(objs, v)|
    ensures Sound(Log(objs, Entries(objs, v))[i])
  {
    var entries := Entries(objs, v);
    var e := entries[i];
    var items := ItemsAt(objs, e);
    EntryObjectOk(H, h, objs, v.offs, e);
    FieldsSize(objs, items);
    forall x | x in FieldsOf(objs, items) ensures x != [] && FieldsOf(objs, items)[x] <= 1 {
      FieldMember(objs, items, x);
      var k :| 0 <= k < |items| && PayloadAt(objs, items[k].objectOffset) == x;
      ItemUnique(H, h, objs, v, chains, i, k);
    }
  }

  lemma {:induction false} EntryObjectOk(H: HashFunction, h: Header, objs: Heap, offs: seq<nat>, e: nat)
    requires ArenaOk(H, h, objs, offs) && e in Select(objs, offs, KEntry)
    ensures ItemsAt(objs, e) != [] && ValidRealtime(RealtimeAt(objs, e)) && ValidMonotonic(MonotonicAt(objs, e))
  {
    hide Tiling, TablesOk, EntrySequenceOk;
    var k :| 0 <= k < |offs| && offs[k] == e;
    assert ObjectOk(H, objs[offs[k]]);
  }

  lemma {:induction false} DataObjectOk(H: HashFunction, h: Header, objs: Heap, offs: seq<nat>, d: nat)
    requires ArenaOk(H, h, objs, offs) && d in Select(objs, offs, KData)
    ensures PayloadAt(objs, d) != []
  {
    hide Tiling, TablesOk, EntrySequenceOk;
    var k :| 0 <= k < |offs| && offs[k] == d;
    assert ObjectOk(H, objs[offs[k]]);
  }

  lemma {:induction false} ItemUnique(H: HashFunction, h: Header, objs: Heap, v: View, chains: seq<seq<nat>>, i: nat, k: nat)
    requires WellBuilt(H, h, objs, v, {}) && ArenaOk(H, h, objs, v.offs) && ReferencesOk(h, objs, v.offs, chains)
    requires i < |Entries(objs, v)| && k < |ItemsAt(objs, Entries(objs, v)[i])|
    ensures var d := ItemsAt(objs, Entries(objs, v)[i])[k].objectOffset;
            PayloadAt(objs, d) != [] && FieldsOf(objs, ItemsAt(objs, Entries(objs, v)[i]))[PayloadAt(objs, d)] <= 1
  {
    hide ArenaOk, Base, IndexOk, Select, ListsHeld, MainOk, BucketsOk, FieldsOf, BucketOf;
    var entries, data := Entries(objs, v), Select(objs, v.offs, KData);
    var item := ItemsAt(objs, entries[i])[k];
    var d := item.objectOffset;
    ChainsNotEmpty(h, objs, v.offs, chains);
    assert ItemOk(objs, data, chains, item);
    DataObjectOk(H, h, objs, v.offs, d);
    ConsistentList(H, h, objs, v, chains, d);
    IndexIsSorted(H, h, objs, v, d);
    assert Log(objs, entries)[i].fields == FieldsOf(objs, ItemsAt(objs, entries[i]));
  }

  lemma {:induction false} ChainsNotEmpty(h: Header, objs: Heap, offs: seq<nat>, chains: seq<seq<nat>>)
    requires ReferencesOk(h, objs, offs, chains)
    ensures |chains| > 0
  {
  }

  // ---------- the theorem ----------

  /** A file built by the writer is accepted exactly if it has an entry, its last entry is from the boot
      in the header, and every recorded entry has fields, none of them empty or repeated, and sane times. */
  lemma {:induction false} WriterBuiltConsistent(H: HashFunction, h: Header, objs: Heap, v: View)
    requires WellBuilt(H, h, objs, v, {}) && AllUsed(objs, Entries(objs, v))
    ensures Consistent(H, h, objs) <==>
            && Entries(objs, v) != []
            && BootAt(objs, Last(Entries(objs, v))) == h.bootId
            && forall i :: 0 <= i < |Entries(objs, v)| ==> Sound(Log(objs, Entries(objs, v))[i])
  {
    WriterTiling(h, objs, v.offs);
    OffsetsOfTiling(h, objs, v.offs);
    hide WellBuilt, AllUsed, ArenaOk, ReferencesOk, Sound, Log, Select, Offsets, BootAt;
    var entries := Entries(objs, v);
    if Consistent(H, h, objs) {
      var chains :| ReferencesOk(h, objs, v.offs, chains);
      ConsistentEntries(H, h, objs, v);
      forall i | 0 <= i < |entries| ensures Sound(Log(objs, entries)[i]) {
        ConsistentSound(H, h, objs, v, chains, i);
      }
    }
    if entries != [] && BootAt(objs, Last(entries)) == h.bootId && forall i :: 0 <= i < |entries| ==> Sound(Log(objs, entries)[i]) {
      WriterArena(H, h, objs, v);
      WriterReferences(H, h, objs, v);
    }
  }
}
