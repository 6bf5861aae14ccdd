/** A file that the offline checker never gets done with (src/journalctl/journal-verify.c). */
module JournalCircular {
  import opened JournalDef
  import opened JournalView
  import opened JournalVerifySpec
  import opened JournalVerifyChains
  import opened JournalVerifyScan
  import opened JournalVerify

  // "A=1" and "A=2"
  const LINKED: Payload := [65, EQUALS, 49]
  const APART: Payload := [65, EQUALS, 50]

  const OFFSETS: seq<nat> := [240, 272, 304, 376, 448, 528]

  /** Hash tables of one bucket each. Of the two data objects one is in the table and its own successor; the only
      entry names the other. */
  function CircularHeap(H: HashFunction): Heap {
    map[240 := FieldHashTable([HashItem(0, 0)], 0),
        272 := DataHashTable([HashItem(304, 304)], 0),
        304 := DataObject(H(LINKED), 304, LINKED, 0, 0, 0, 0),
        376 := DataObject(H(APART), 0, APART, 0, 0, 0, 0),
        448 := EntryObject(1, 1, 1, 1, 0, [EntryItem(376, H(APART))], 0),
        528 := EntryArray(0, [448], 0)]
  }

  const CIRCULAR: Header :=
    Header(240, 320, 0, true, 1, 288, 16, 256, 16, 528, 6, 1, 1, 1, 528, 1, 1, 1, 2, 0, 1)

  lemma {:induction false} CircularTiles(H: HashFunction)
    ensures Tiling(CIRCULAR, CircularHeap(H), OFFSETS)
  {
  }

  lemma {:induction false} CircularSound(H: HashFunction)
    ensures forall i :: 0 <= i < |OFFSETS| ==> OFFSETS[i] in CircularHeap(H) && ObjectOk(H, CircularHeap(H)[OFFSETS[i]])
  {
  }

  function Chosen(objs: Heap, p: nat, k: Kind): seq<nat> {
    if Is(objs, p, k) then [p] else []
  }

  lemma {:induction false} SelectTwo(objs: Heap, front: seq<nat>, a: nat, b: nat, k: Kind)
    ensures Select(objs, front + [a] + [b], k) == Select(objs, front, k) + Chosen(objs, a, k) + Chosen(objs, b, k)
  {
    hide Select, Is;
    SelectMore(objs, front, a);
    SelectMore(objs, front + [a], b);
  }

  lemma {:induction false} SelectSix(objs: Heap, a: nat, b: nat, c: nat, d: nat, e: nat, f: nat, k: Kind)
    ensures Select(objs, [a, b, c, d, e, f], k) ==
            Chosen(objs, a, k) + Chosen(objs, b, k) + Chosen(objs, c, k) + Chosen(objs, d, k) + Chosen(objs, e, k) + Chosen(objs, f, k)
  {
    assert Select(objs, [], k) == [];
    hide Select, Chosen;
    SelectTwo(objs, [], a, b, k);
    SelectTwo(objs, [] + [a] + [b], c, d, k);
    SelectTwo(objs, [] + [a] + [b] + [c] + [d], e, f, k);
    assert [] + [a] + [b] + [c] + [d] + [e] + [f] == [a, b, c, d, e, f];
    assert [] + Chosen(objs, a, k) == Chosen(objs, a, k);
  }

  /** The objects of one kind. */
  lemma {:induction false} CircularList(H: HashFunction, k: Kind)
    ensures Select(CircularHeap(H), OFFSETS, k) ==
            match k
            case KFieldHashTable => [240]
            case KDataHashTable => [272]
            case KData => [304, 376]
            case KEntry => [448]
            case KEntryArray => [528]
            case _ => []
  {
    hide Select;
    var objs := CircularHeap(H);
    SelectSix(objs, 240, 272, 304, 376, 448, 528, k);
    CircularKinds(H, k);
    hide CircularHeap, Chosen;
    Flattened(k);
  }

  lemma {:induction false} Flattened(k: Kind)
    ensures (if k.KFieldHashTable? then [240] else []) + (if k.KDataHashTable? then [272] else []) + (if k.KData? then [304] else [])
            + (if k.KData? then [376] else []) + (if k.KEntry? then [448] else []) + (if k.KEntryArray? then [528] else []) ==
            match k
            case KFieldHashTable => [240]
            case KDataHashTable => [272]
            case KData => [304, 376]
            case KEntry => [448]
            case KEntryArray => [528]
            case _ => []
  {
  }

  /** What the first pass collects. */
  lemma {:induction false} CircularLists(H: HashFunction)
    ensures var objs := CircularHeap(H);
            && Select(objs, OFFSETS, KData) == [304, 376] && Select(objs, OFFSETS, KField) == []
            && Select(objs, OFFSETS, KEntry) == [448] && Select(objs, OFFSETS, KEntryArray) == [528]
            && Select(objs, OFFSETS, KDataHashTable) == [272] && Select(objs, OFFSETS, KFieldHashTable) == [240]
  {
    hide Select, CircularHeap;
    CircularList(H, KData);
    CircularList(H, KField);
    CircularList(H, KEntry);
    CircularList(H, KEntryArray);
    CircularList(H, KDataHashTable);
    CircularList(H, KFieldHashTable);
  }

  lemma {:induction false} CircularKinds(H: HashFunction, k: Kind)
    ensures var objs := CircularHeap(H);
            && Chosen(objs, 240, k) == (if k.KFieldHashTable? then [240] else [])
            && Chosen(objs, 272, k) == (if k.KDataHashTable? then [272] else [])
            && Chosen(objs, 304, k) == (if k.KData? then [304] else [])
            && Chosen(objs, 376, k) == (if k.KData? then [376] else [])
            && Chosen(objs, 448, k) == (if k.KEntry? then [448] else [])
            && Chosen(objs, 528, k) == (if k.KEntryArray? then [528] else [])
  {
  }

  lemma {:induction false} CircularArena(H: HashFunction)
    ensures Offsets(CIRCULAR, CircularHeap(H)) == OFFSETS
    ensures ArenaOk(H, CIRCULAR, CircularHeap(H), OFFSETS)
  {
    hide Tiling, Select, WalkFrom;
    CircularTiles(H);
    CircularSound(H);
    CircularLists(H);
    OffsetsOfTiling(CIRCULAR, CircularHeap(H), OFFSETS);
  }

  lemma {:induction false} CircularItem(H: HashFunction)
    ensures var objs := CircularHeap(H);
            ItemHangs(objs, [304, 376], [HashItem(304, 304)], EntryItem(376, H(APART)))
  {
    var objs := CircularHeap(H);
    ComesBack(objs, 304, [304], 304);
    NotReached(objs, 304, [304], 304, 376);
  }

  lemma {:induction false} CircularMain(objs: Heap)
    requires 528 in objs && objs[528] == EntryArray(0, [448], 0)
    ensures Collect(objs, [528], 528, 1) == Some([448])
  {
    CollectNone(objs, [528], 0);
    assert ArrayOk(objs, [528], 528);
    assert [448][..1] + [] == [448];
  }

  lemma {:induction false} CircularHangs(H: HashFunction)
    ensures Hangs(H, CIRCULAR, CircularHeap(H))
  {
    hide ArenaOk, Select, Collect, ItemHangs, Reaches, Circles;
    CircularArena(H);
    CircularLists(H);
    CircularItem(H);
    var objs := CircularHeap(H);
    var table := [HashItem(304, 304)];
    assert ItemsAt(objs, 448)[0] == EntryItem(376, H(APART));
    assert EntryHangs(objs, [304, 376], table, 448);
    assert !ItemFound(objs, [304, 376], table, ItemsAt(objs, 448)[0]);
    CircularMain(objs);
    assert StopsAt(objs, [304, 376], table, [448], ItemsTo(objs, [528], 528, 0), 0, Endless);
  }

  /** Whatever the hash function, the check of this file follows the next pointers for ever. */
  method SelfLinked(H: HashFunction) returns (r: Verdict)
    ensures r == Endless
  {
    CircularHangs(H);
    r := Verify(H, CIRCULAR, CircularHeap(H));
  }
}
