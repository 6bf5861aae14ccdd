/** A file the offline checker (src/journalctl/journal-verify.c) accepts although its index leaves out an entry. */
module JournalUnlisted {
  import opened JournalDef
  import opened EntryArrays
  import opened JournalView
  import opened JournalVerifySpec
  import opened JournalVerifyScan
  import opened JournalVerifyChains
  import opened JournalVerify
  import opened JournalDamage
  import opened JournalCircular

  // ---------- when the list of a data object is complete ----------

  /** Those of the entries that contain data object d. */
  function Containing(objs: Heap, entries: seq<nat>, d: nat): (s: seq<nat>)
    ensures forall e :: e in s <==> e in entries && Count(ItemsAt(objs, e), d) > 0
  {
    if entries == [] then []
    else
      var front, e := entries[..|entries| - 1], entries[|entries| - 1];
      assert entries == front + [e];
      Containing(objs, front, d) + if Count(ItemsAt(objs, e), d) > 0 then [e] else []
  }

  lemma {:induction false} ContainingIncreases(objs: Heap, entries: seq<nat>, d: nat)
    requires Increasing(entries)
    ensures Increasing(Containing(objs, entries, d))
  {
    hide Count, ItemsAt;
    if entries != [] {
      var front, e := entries[..|entries| - 1], entries[|entries| - 1];
      ContainingIncreases(objs, front, d);
      var s := Containing(objs, front, d);
      forall i | 0 <= i < |s| ensures s[i] < e {
        assert s[i] in front;
      }
    }
  }

  /** A list the checker accepts has all entries with the data object exactly if it counts as many as there are. */
  lemma {:induction false} ListComplete(objs: Heap, entries: seq<nat>, arrays: seq<nat>, d: nat, chain: seq<nat>, list: seq<nat>)
    requires Increasing(entries) && DataListOk(objs, entries, arrays, d, chain, list)
    ensures (forall e :: e in Containing(objs, entries, d) ==> e in list) <==> objs[d].nEntries == |Containing(objs, entries, d)|
  {
    hide Stores, Count, Containing;
    var all := Containing(objs, entries, d);
    ContainingIncreases(objs, entries, d);
    assert forall i :: 0 <= i < |list| ==> list[i] in all;
    if objs[d].nEntries == |all| {
      Pigeonhole(list, all);
    } else {
      NotLonger(list, all);
      if forall e :: e in all ==> e in list {
        NotLonger(all, list);
        assert false;
      }
    }
  }

  lemma {:induction false} NotLonger(s: seq<nat>, t: seq<nat>)
    requires Increasing(s) && Increasing(t) && forall i :: 0 <= i < |s| ==> s[i] in t
    ensures |s| <= |t|
  {
    if s != [] {
      var j := NotEarlier(s, t, |s| - 1);
    }
  }

  /** The entries of an accepted file are in the order of their offsets. */
  lemma {:induction false} EntriesRise(H: HashFunction, h: Header, objs: Heap)
    requires Consistent(H, h, objs)
    ensures Increasing(Select(objs, Offsets(h, objs), KEntry))
  {
    hide Offsets, ObjectOk, EntrySequenceOk, TablesOk, ReferencesOk, Select, Tiling;
    TilingIncreasing(h, objs, Offsets(h, objs));
    SelectIncreasing(objs, Offsets(h, objs), KEntry);
  }

  /** So in an accepted file: reading by a payload finds all entries with it exactly if its data object counts as many as there are. */
  lemma {:induction false} IndexComplete(H: HashFunction, h: Header, objs: Heap, entries: seq<nat>, arrays: seq<nat>, d: nat, chain: seq<nat>, list: seq<nat>)
    requires Consistent(H, h, objs) && entries == Select(objs, Offsets(h, objs), KEntry) && DataListOk(objs, entries, arrays, d, chain, list)
    ensures (forall e :: Names(h, objs, e, d) ==> e in list) <==> objs[d].nEntries == |Containing(objs, entries, d)|
  {
    hide Consistent, Offsets, Stores, Containing, Select;
    EntriesRise(H, h, objs);
    ListComplete(objs, entries, arrays, d, chain, list);
    forall e ensures e in Containing(objs, entries, d) <==> Names(h, objs, e, d) {
      NamesContaining(h, objs, e, d);
    }
  }

  lemma {:induction false} NamesContaining(h: Header, objs: Heap, e: nat, d: nat)
    ensures Names(h, objs, e, d) <==> e in Select(objs, Offsets(h, objs), KEntry) && Count(ItemsAt(objs, e), d) > 0
  {
    hide Offsets;
  }

  // ---------- the file ----------

  const PLACES: seq<nat> := [240, 272, 304, 376, 456, 536]

  /** Two entries with the same payload, only the first of which is on the list of the data object. */
  function UnlistedHeap(H: HashFunction): Heap {
    map[240 := FieldHashTable([HashItem(0, 0)], 0),
        272 := DataHashTable([HashItem(304, 304)], 0),
        304 := DataObject(H(LINKED), 0, LINKED, 0, 376, 0, 1),
        376 := EntryObject(1, 1, 1, 1, 0, [EntryItem(304, H(LINKED))], 0),
        456 := EntryObject(2, 2, 2, 1, 0, [EntryItem(304, H(LINKED))], 0),
        536 := EntryArray(0, [376, 456], 0)]
  }

  const UNLISTED: Header :=
    Header(240, 336, 0, true, 1, 288, 16, 256, 16, 536, 6, 2, 2, 1, 536, 1, 2, 2, 1, 0, 1)

  lemma {:induction false} UnlistedTiles(H: HashFunction)
    ensures Tiling(UNLISTED, UnlistedHeap(H), PLACES)
  {
  }

  lemma {:induction false} UnlistedSound(H: HashFunction)
    ensures forall i :: 0 <= i < |PLACES| ==> PLACES[i] in UnlistedHeap(H) && ObjectOk(H, UnlistedHeap(H)[PLACES[i]])
  {
  }

  lemma {:induction false} UnlistedKinds(H: HashFunction, k: Kind)
    ensures var objs := UnlistedHeap(H);
            && Chosen(objs, 240, k) == (if k.KFieldHashTable? then [240] else [])
            && Chosen(objs, 272, k) == (if k.KDataHashTable? then [272] else [])
            && Chosen(objs, 304, k) == (if k.KData? then [304] else [])
            && Chosen(objs, 376, k) == (if k.KEntry? then [376] else [])
            && Chosen(objs, 456, k) == (if k.KEntry? then [456] else [])
            && Chosen(objs, 536, k) == (if k.KEntryArray? then [536] else [])
  {
  }

  lemma {:induction false} UnlistedList(H: HashFunction, k: Kind)
    ensures Select(UnlistedHeap(H), PLACES, k) ==
            match k
            case KFieldHashTable => [240]
            case KDataHashTable => [272]
            case KData => [304]
            case KEntry => [376, 456]
            case KEntryArray => [536]
            case _ => []
  {
    hide Select;
    var objs := UnlistedHeap(H);
    SelectSix(objs, 240, 272, 304, 376, 456, 536, k);
    UnlistedKinds(H, k);
    hide UnlistedHeap, Chosen;
    Joined(k);
  }

  lemma {:induction false} Joined(k: Kind)
    ensures (if k.KFieldHashTable? then [240] else []) + (if k.KDataHashTable? then [272] else []) + (if k.KData? then [304] else [])
            + (if k.KEntry? then [376] else []) + (if k.KEntry? then [456] else []) + (if k.KEntryArray? then [536] else []) ==
            match k
            case KFieldHashTable => [240]
            case KDataHashTable => [272]
            case KData => [304]
            case KEntry => [376, 456]
            case KEntryArray => [536]
            case _ => []
  {
  }

  lemma {:induction false} UnlistedLists(H: HashFunction)
    ensures var objs := UnlistedHeap(H);
            && Select(objs, PLACES, KData) == [304] && Select(objs, PLACES, KField) == []
            && Select(objs, PLACES, KEntry) == [376, 456] && Select(objs, PLACES, KEntryArray) == [536]
            && Select(objs, PLACES, KDataHashTable) == [272] && Select(objs, PLACES, KFieldHashTable) == [240]
  {
    hide Select, UnlistedHeap;
    UnlistedList(H, KData);
    UnlistedList(H, KField);
    UnlistedList(H, KEntry);
    UnlistedList(H, KEntryArray);
    UnlistedList(H, KDataHashTable);
    UnlistedList(H, KFieldHashTable);
  }

  lemma {:induction false} UnlistedArena(H: HashFunction)
    ensures Offsets(UNLISTED, UnlistedHeap(H)) == PLACES
    ensures ArenaOk(H, UNLISTED, UnlistedHeap(H), PLACES)
  {
    hide Tiling, Select, WalkFrom;
    UnlistedTiles(H);
    UnlistedSound(H);
    UnlistedLists(H);
    OffsetsOfTiling(UNLISTED, UnlistedHeap(H), PLACES);
  }

  lemma {:induction false} UnlistedMain(H: HashFunction)
    ensures MainOk(UNLISTED, UnlistedHeap(H), [376, 456], [536])
  {
    var objs := UnlistedHeap(H);
    assert [536][..0] == [] && Flat(objs, []) == [];
    assert Flat(objs, [536]) == [376, 456];
    assert Stores(objs, [536], 536, [536], [376, 456]);
  }

  /** The data object counts one entry, and has it inline. */
  lemma {:induction false} UnlistedData(H: HashFunction)
    ensures DataOk(UnlistedHeap(H), [376, 456], [536], 304)
    ensures Count(ItemsAt(UnlistedHeap(H), 376), 304) == 1 && Count(ItemsAt(UnlistedHeap(H), 456), 304) == 1
  {
    var objs := UnlistedHeap(H);
    assert ItemsAt(objs, 376) == [EntryItem(304, H(LINKED))] && ItemsAt(objs, 456) == [EntryItem(304, H(LINKED))];
    assert [EntryItem(304, H(LINKED))][..0] == [];
    assert Count([EntryItem(304, H(LINKED))], 304) == 1;
    assert [376][1..] == [];
    assert Stores(objs, [536], 0, [], []);
    assert DataListOk(objs, [376, 456], [536], 304, [], [376]);
  }

  lemma {:induction false} UnlistedReferences(H: HashFunction)
    ensures ReferencesOk(UNLISTED, UnlistedHeap(H), PLACES, [[304]])
  {
    hide Select, MainOk, DataOk, Count;
    UnlistedLists(H);
    UnlistedMain(H);
    UnlistedData(H);
    var objs := UnlistedHeap(H);
    assert BucketChain(objs, KData, 1, 0, HashItem(304, 304), [304]);
    assert BucketOk(objs, [304], [376, 456], [536], 1, 0, HashItem(304, 304), [304]);
    assert BucketsOk(UNLISTED, objs, [304], [376, 456], [536], [[304]]);
    assert ItemsOk(objs, [304], [376, 456], [[304]]);
  }

  /** Whatever the hash function, the checker accepts the file; both entries contain the data object, which counts one. */
  method NotListed(H: HashFunction) returns (r: Verdict)
    ensures r == Good
    ensures Names(UNLISTED, UnlistedHeap(H), 376, 304) && Names(UNLISTED, UnlistedHeap(H), 456, 304)
    ensures NEntriesAt(UnlistedHeap(H), 304) == 1
  {
    UnlistedArena(H);
    UnlistedReferences(H);
    UnlistedData(H);
    UnlistedLists(H);
    hide ArenaOk, ReferencesOk, Offsets, Select, Count, DataOk;
    ContainsNames(UNLISTED, UnlistedHeap(H), 376, 304);
    ContainsNames(UNLISTED, UnlistedHeap(H), 456, 304);
    r := Verify(H, UNLISTED, UnlistedHeap(H));
  }
}
