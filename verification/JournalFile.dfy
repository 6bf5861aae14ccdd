/** The journal writer (lib/journal-file.c): appending objects, deduplicating
    payloads, and linking entries into the inverted index. */
module JournalFile {
  import opened JournalDef
  import opened Pages
  import opened EntryArrays
  import opened JournalView
  import opened JournalSteps
  import opened JournalLookup
  import opened JournalLinking
  import opened JournalEntries
  import opened JournalRoom
  import opened JournalIndex

  datatype Status = Ok | InvalidArgument | TooBig

  const FILE_SIZE_INCREASE: nat := 0x80_0000
  const DEFAULT_DATA_HASH_TABLE_SIZE: nat := 2047 * 16
  const DEFAULT_FIELD_HASH_TABLE_SIZE: nat := 333 * 16

  function BlockAlign(x: nat): (r: nat)
    ensures x <= r < x + FILE_SIZE_INCREASE && r % FILE_SIZE_INCREASE == 0
  {
    (x + FILE_SIZE_INCREASE - 1) / FILE_SIZE_INCREASE * FILE_SIZE_INCREASE
  }

  function NewHeader(bootId: nat, template: Option<nat>): Header {
    Header(headerSize := 240, arenaSize := 0, compatibleFlags := 0, reservedIsZero := true, bootId := bootId,
           dataHashTableOffset := 0, dataHashTableSize := 0, fieldHashTableOffset := 0, fieldHashTableSize := 0,
           tailObjectOffset := 0, nObjects := 0, nEntries := 0,
           tailEntrySeqnum := if template.Some? then template.value else 0, headEntrySeqnum := 0, entryArrayOffset := 0,
           headEntryRealtime := 0, tailEntryRealtime := 0, tailEntryMonotonic := 0,
           nData := 0, nFields := 0, nEntryArrays := 0)
  }

  function FieldTableNeed(): nat {
    Align64(HASH_TABLE_HEADER + DEFAULT_FIELD_HASH_TABLE_SIZE)
  }

  /** The data hash table is for as many objects of 768 bytes as the maximum size has room for, and for at least 2047. */
  function DataTableNeed(m: Metrics): nat {
    var s := m.maxSize * 4 / 768 / 3 * 16;
    Align64(HASH_TABLE_HEADER + if s < DEFAULT_DATA_HASH_TABLE_SIZE then DEFAULT_DATA_HASH_TABLE_SIZE else s)
  }

  function TablesNeed(m: Metrics): nat {
    FieldTableNeed() + DataTableNeed(m)
  }

  predicate IsNew(h: Header) {
    h == NewHeader(h.bootId, Some(h.tailEntrySeqnum))
  }

  class JournalFile {
    const hash64: HashFunction
    const metrics: Metrics
    var header: Header
    var objects: Heap
    var tailEntryMonotonicValid: bool
    ghost var view: View

    /** A new file: just the header, continuing the sequence numbers of `template` if there is one. */
    constructor (hash64: HashFunction, metrics: Metrics, bootId: nat, template: Option<nat>)
      ensures this.hash64 == hash64 && this.metrics == metrics
      ensures objects == map[] && view.offs == [] && header.bootId == bootId && header == NewHeader(bootId, template)
      ensures !tailEntryMonotonicValid
    {
      this.hash64 := hash64;
      this.metrics := metrics;
      header := NewHeader(bootId, template);
      objects := map[];
      tailEntryMonotonicValid := false;
      view := View([], [], [], map[], map[MAIN := []], map[MAIN := []]);
    }

    /** Adds the two empty hash tables a new file starts with. */
    method SetupTables() returns (r: Status)
      requires objects == map[] && view.offs == [] && IsNew(header)
      modifies this
      ensures r == Ok ==> Valid() && Recorded() == [] && header.bootId == old(header).bootId && header.tailEntrySeqnum == old(header).tailEntrySeqnum
      ensures tailEntryMonotonicValid == old(tailEntryMonotonicValid)
      ensures r != Ok ==> r == TooBig && Limited() && !Fits(metrics, old(header), old(header).headerSize + TablesNeed(metrics))
    {
      hide WellBuilt, Layout, Select, Log, Postings, AllUsed, ZeroItems, Spent, Refused, Align64, Fits;
      var p, q;
      r, p := SetupFieldHashTable();
      if r != Ok {
        RefusedMore(metrics, old(header), old(objects), FieldTableNeed(), TablesNeed(metrics));
        NotRoom(old(objects), old(header), TablesNeed(metrics));
        return;
      }
      ghost var h1, objs1 := header, objects;
      var nFields := header.fieldHashTableSize / 16;
      var nData;
      r, q, nData := SetupDataHashTable();
      if r != Ok {
        RefusedLater(metrics, old(header), old(objects), h1, objs1, FieldTableNeed(), DataTableNeed(metrics), TablesNeed(metrics));
        NotRoom(old(objects), old(header), TablesNeed(metrics));
        return;
      }
      assert view.offs == [p, q];
      view := EmptyView(p, q, nData, nFields);
      EmptyFile(hash64, header, objects, view, p, q, nFields, nData);
    }

    method SetupFieldHashTable() returns (r: Status, p: nat)
      requires Tiled()
      modifies this`header, this`objects, this`view
      ensures r == Ok ==>
        && objects == old(objects)[p := FieldHashTable(ZeroItems(DEFAULT_FIELD_HASH_TABLE_SIZE / 16), 0)] && p !in old(objects)
        && view == old(view).(offs := old(view).offs + [p]) && Layout(header, objects, view.offs)
        && header == old(header).(arenaSize := header.arenaSize, tailObjectOffset := p, nObjects := old(header).nObjects + 1,
                                  fieldHashTableOffset := p + HASH_TABLE_HEADER, fieldHashTableSize := DEFAULT_FIELD_HASH_TABLE_SIZE)
      ensures r != Ok ==> r == TooBig && Limited()
      ensures r == Ok ==> Spent(old(header), old(objects), header, objects, FieldTableNeed())
      ensures r != Ok ==> Refused(metrics, old(header), old(objects), FieldTableNeed())
    {
      hide Layout, ZeroItems, Spent, Refused, Align64;
      r, p := AppendObject(FieldHashTable(ZeroItems(DEFAULT_FIELD_HASH_TABLE_SIZE / 16), 0));
      if r != Ok {
        return;
      }
      ghost var h := header;
      header := header.(fieldHashTableOffset := p + HASH_TABLE_HEADER, fieldHashTableSize := DEFAULT_FIELD_HASH_TABLE_SIZE);
      LayoutFrame(h, header, objects, objects, view.offs);
      NothingSpent(h, objects, header, objects);
      SpentTrans(old(header), old(objects), h, objects, header, objects, FieldTableNeed(), 0, FieldTableNeed());
    }

    /** The data hash table is sized for the number of objects a file of the maximum size may hold. */
    method SetupDataHashTable() returns (r: Status, p: nat, n: nat)
      requires Tiled()
      modifies this`header, this`objects, this`view
      ensures r == Ok ==>
        && n >= 2047 && metrics.maxSize * 4 < (n + 1) * 3 * 768
        && objects == old(objects)[p := DataHashTable(ZeroItems(n), 0)] && p !in old(objects)
        && view == old(view).(offs := old(view).offs + [p]) && Layout(header, objects, view.offs)
        && header == old(header).(arenaSize := header.arenaSize, tailObjectOffset := p, nObjects := old(header).nObjects + 1,
                                  dataHashTableOffset := p + HASH_TABLE_HEADER, dataHashTableSize := 16 * n)
      ensures r != Ok ==> r == TooBig && Limited()
      ensures r != Ok ==> Refused(metrics, old(header), old(objects), DataTableNeed(metrics))
    {
      hide Layout, ZeroItems, Spent, Refused, Align64;
      var s := metrics.maxSize * 4 / 768 / 3 * 16;
      if s < DEFAULT_DATA_HASH_TABLE_SIZE {
        s := DEFAULT_DATA_HASH_TABLE_SIZE;
      }
      n := s / 16;
      r, p := AppendObject(DataHashTable(ZeroItems(n), 0));
      if r != Ok {
        return;
      }
      ghost var h := header;
      header := header.(dataHashTableOffset := p + HASH_TABLE_HEADER, dataHashTableSize := s);
      LayoutFrame(h, header, objects, objects, view.offs);
    }

    /** The file may run out of room. */
    predicate Limited() {
      metrics.maxSize > 0 || metrics.keepFree > 0
    }

    /** No object yet, or a tiled arena. */
    ghost predicate Tiled()
      reads this
    {
      if view.offs == [] then objects == map[] && header.tailObjectOffset == 0 && header.nObjects == 0
                              && header.headerSize >= 240 && Valid64(header.headerSize)
      else Layout(header, objects, view.offs)
    }

    /** Grows the arena to cover [offset, offset + size), by whole 8 MiB steps but within the size limit. */
    method Allocate(offset: nat, size: nat) returns (r: Status)
      modifies this`header
      ensures header == old(header).(arenaSize := header.arenaSize)
      ensures header.arenaSize >= old(header).arenaSize
      ensures r == Ok ==> offset + size <= header.headerSize + header.arenaSize
      ensures r == Ok && metrics.maxSize > 0 && header.arenaSize > old(header).arenaSize ==>
                header.headerSize + header.arenaSize <= metrics.maxSize
      ensures r == Ok && header.arenaSize > old(header).arenaSize ==>
                (header.headerSize + header.arenaSize) % FILE_SIZE_INCREASE == 0 || header.headerSize + header.arenaSize == metrics.maxSize
      ensures header.arenaSize > old(header).arenaSize ==> offset + size > old(header).headerSize + old(header).arenaSize - PAGE_SIZE
      ensures r != Ok ==> r == TooBig && header == old(header) && Limited()
      ensures r != Ok ==> !Fits(metrics, header, offset + size)
    {
      var oldSize := header.headerSize + header.arenaSize;
      var newSize := PageAlign(offset + size);
      if newSize < header.headerSize {
        newSize := header.headerSize;
      }
      if newSize <= oldSize {
        return Ok;
      }
      if metrics.maxSize > 0 && newSize > metrics.maxSize {
        return TooBig;
      }
      if newSize > metrics.minSize && metrics.keepFree > 0 {
        var free: nat := *;
        var available := if free >= metrics.keepFree then free - metrics.keepFree else 0;
        if newSize - oldSize > available {
          return TooBig;
        }
      }
      newSize := BlockAlign(newSize);
      if metrics.maxSize > 0 && newSize > metrics.maxSize {
        newSize := metrics.maxSize;
      }
      header := header.(arenaSize := newSize - header.headerSize);
      r := Ok;
    }

    /** Appends an object right after the tail object. */
    method AppendObject(o: Object) returns (r: Status, p: nat)
      requires Tiled()
      modifies this`header, this`objects, this`view
      ensures r == Ok ==>
                && p == EndOf(old(header), old(objects)) && p != 0
                && objects == old(objects)[p := o]
                && p !in old(objects) && (forall q: nat :: q in old(objects) ==> q < p)
                && header == old(header).(arenaSize := header.arenaSize, tailObjectOffset := p, nObjects := old(header).nObjects + 1)
                && view == old(view).(offs := old(view).offs + [p])
                && p !in old(view).offs
                && view.offs != [] && Layout(header, objects, view.offs)
      ensures r != Ok ==> r == TooBig && Limited() && header == old(header) && objects == old(objects) && view == old(view)
      ensures r == Ok ==> Spent(old(header), old(objects), header, objects, Align64(Size(o)))
      ensures r != Ok ==> Refused(metrics, header, objects, Align64(Size(o)))
    {
      if view.offs != [] {
        TailOffset(header, objects, view.offs);
      }
      p := header.tailObjectOffset;
      if p == 0 {
        p := header.headerSize;
      } else {
        p := p + Align64(Size(objects[p]));
      }
      r := Allocate(p, Size(o));
      if r != Ok {
        RefusedTail(header, objects, p, Size(o));
        return;
      }
      ghost var offs := view.offs;
      ghost var objs := objects;
      objects := objects[p := o];
      header := header.(tailObjectOffset := p, nObjects := header.nObjects + 1);
      view := view.(offs := view.offs + [p]);
      AppendTiles(old(header), header, objs, objects, offs, p, o);
    }

    lemma {:induction false} RefusedTail(h: Header, objs: Heap, p: nat, size: nat)
      requires p == EndOf(h, objs) && !Fits(metrics, h, p + size)
      ensures Refused(metrics, h, objs, Align64(size))
    {
      if Fits(metrics, h, p + Align64(size)) {
        FitsLess(metrics, h, h, p + Align64(size), p + size);
      }
    }

    /** Appends p to the list of `idx` offsets stored in the chain that starts at `first`. */
    method LinkEntryIntoArray(first: nat, idx: nat, p: nat, ghost chain: seq<nat>, ghost list: seq<nat>)
      returns (r: Status, first': nat, ghost chain': seq<nat>)
      requires view.offs != [] && Layout(header, objects, view.offs)
      requires Holds(objects, first, chain, list) && idx == |list|
      modifies this`header, this`objects, this`view
      ensures r == Ok ==> Holds(objects, first', chain', list + [p])
      ensures r == Ok ==> ArrayStep(old(header), header, old(objects), objects, old(view.offs), view.offs, chain, chain')
      ensures r == Ok ==> view == old(view).(offs := view.offs)
      ensures r != Ok ==> r == TooBig && Limited()
      ensures r == Ok ==> Spent(old(header), old(objects), header, objects, ArrayNeed(idx))
      ensures r != Ok ==> Refused(metrics, old(header), old(objects), ArrayNeed(idx))
    {
      hide ArrayStep, Layout, Holds, Flat, Spent, Refused, ArrayNeed, EndOf;
      var a := first;
      var i := idx;
      var n, ap := 0, 0;
      ghost var j: nat := 0;
      HoldsStart(objects, first, chain, list);
      while a > 0
        invariant header == old(header) && objects == old(objects) && view == old(view)
        invariant j <= |chain| && a == (if j < |chain| then chain[j] else 0)
        invariant i >= 0 && i + |Flat(objects, chain[..j])| == idx
        invariant ap == (if j == 0 then 0 else chain[j - 1])
        invariant n == LastCapacity(objects, chain[..j])
        decreases |chain| - j
      {
        HoldsWalk(objects, first, chain, list, j);
        n := |objects[a].slots|;
        if i < n {
          StoreLastStep(header, objects, view.offs, first, chain, list, p);
          objects := objects[a := objects[a].(slots := objects[a].slots[i := p])];
          StoredSlot(header, old(objects), a, i, p, ArrayNeed(idx));
          r, first', chain' := Ok, first, chain;
          return;
        }
        i := i - n;
        ap := a;
        a := objects[a].next;
        j := j + 1;
      }
      HoldsFull(objects, first, chain, list, j);
      n := if idx > n then (idx + 1) * 2 else n * 2;
      if n < 4 {
        n := 4;
      }
      var o := EntryArray(0, seq(n, k => 0)[i := p], 0);
      assert o.slots[0] == p;
      NewArrayNeed(objects, first, chain, list, o);
      var q;
      r, q := AppendObject(o);
      if r != Ok {
        first', chain' := first, chain;
        RefusedMore(metrics, header, objects, Align64(Size(o)), ArrayNeed(idx));
        return;
      }
      ghost var h1, objs1 := header, objects;
      StoreNewStep(old(header), header, old(objects), old(view.offs), first, chain, list, p, q, o);
      if ap == 0 {
        first' := q;
      } else {
        first' := first;
        objects := objects[ap := objects[ap].(next := q)];
      }
      header := header.(nEntryArrays := header.nEntryArrays + 1);
      chain' := chain + [q];
      LinkedArray(h1, objs1, header, ap, q);
      SpentTrans(old(header), old(objects), h1, objs1, header, objects, Align64(Size(o)), 0, ArrayNeed(idx));
    }

    /** Makes p the tail of its bucket in the data or field hash table at t. */
    method LinkObject(kind: Kind, t: nat, p: nat, hash: nat)
      requires (kind == KData && Is(objects, t, KDataHashTable)) || (kind == KField && Is(objects, t, KFieldHashTable))
      requires |TableAt(objects, t)| > 0
      requires var tail := TableAt(objects, t)[BucketOf(hash, |TableAt(objects, t)|)].tail;
               if tail == 0 then !Is(objects, 0, kind) else tail != t && Is(objects, tail, kind)
      modifies this`header, this`objects
      ensures LinkedIn(old(objects), objects, kind, t, BucketOf(hash, |TableAt(old(objects), t)|), p)
      ensures header == old(header).(nData := if kind == KData then old(header).nData + 1 else old(header).nData,
                                     nFields := if kind == KField then old(header).nFields + 1 else old(header).nFields)
      ensures Spent(old(header), old(objects), header, objects, 0)
    {
      hide LinkedIn, Spent;
      var table := objects[t].table;
      var h := BucketOf(hash, |table|);
      if table[h].tail == 0 {
        LinkFirst(objects, kind, t, h, p);
      } else {
        LinkBehind(objects, kind, t, h, p);
      }
      var tail := table[h].tail;
      if tail == 0 {
        table := table[h := HashItem(p, 0)];
      } else {
        objects := objects[tail := objects[tail].(nextHash := p)];
      }
      table := table[h := HashItem(table[h].head, p)];
      assert table == old(objects)[t].table[h := ItemAppended(old(objects)[t].table[h], p)];
      objects := objects[t := objects[t].(table := table)];
      if kind == KData {
        header := header.(nData := header.nData + 1);
      } else {
        header := header.(nFields := header.nFields + 1);
      }
      NothingSpent(old(header), old(objects), header, objects);
    }

    /** Finds the object of a field name, or adds it. */
    method AppendField(name: Payload, ghost pending: set<nat>) returns (r: Status, p: nat)
      requires name != []
      requires WellBuilt(hash64, header, objects, view, pending)
      modifies this`header, this`objects, this`view
      ensures r == Ok ==> WellBuilt(hash64, header, objects, view, pending)
      ensures r == Ok ==> Is(objects, p, KField) && PayloadAt(objects, p) == name
      ensures r == Ok ==> Relinked(old(objects), objects) && forall q :: Is(objects, q, KData) ==> Is(old(objects), q, KData)
      ensures r == Ok ==> view.lists == old(view).lists && view.arrays == old(view).arrays
      ensures r == Ok ==> Entries(objects, view) == old(Entries(objects, view)) && SameEntryHeader(old(header), header)
      ensures r != Ok ==> r == TooBig && Limited()
      ensures r == Ok ==> Spent(old(header), old(objects), header, objects, Align64(40 + |name|))
      ensures r != Ok ==> Refused(metrics, old(header), old(objects), Align64(40 + |name|))
    {
      hide Layout, TablesOk, CountsOk, NoSlack, FieldLists, EntriesOk, IndexOk, HashIndex, LinkedIn, Select, Spent, Refused;
      TableOffsets(header, objects, view.offs);
      var t := header.fieldHashTableOffset - HASH_TABLE_HEADER;
      FieldTableAt(header, objects, t);
      var hash := hash64(name);
      var found := FindObjectWithHash(objects, KField, t, name, hash, hash64, view.fieldChains);
      if found.Some? {
        SpentNone(header, objects, Align64(40 + |name|));
        return Ok, found.value;
      }
      ghost var v := view;
      ghost var objs := objects;
      var o := FieldObject(hash, 0, name, 0);
      FieldTail(hash64, header, objects, view, pending, t, hash);
      ArenaFacts(header, objects, view.offs);
      r, p := AppendObject(o);
      if r != Ok {
        return;
      }
      ghost var objsA := objects;
      ghost var hA := header;
      assert TableAt(objsA, t) == TableAt(objs, t);
      LinkObject(KField, t, p, hash);
      SpentTrans(old(header), objs, hA, objsA, header, objects, Align64(40 + |name|), 0, Align64(40 + |name|));
      ghost var b := BucketOf(hash, |TableAt(objs, t)|);
      view := view.(fieldChains := v.fieldChains[b := v.fieldChains[b] + [p]], fieldLists := v.fieldLists[name := []]);
      LinkedLayout(hA, header, objsA, objects, view.offs, KField, t, b, p);
      NewFieldKeeps(hash64, old(header), header, objs, objsA, objects, v, view, pending, t, b, p, o);
      AppendedGrew(objs, objsA, objects, KField, t, b, p, o);
    }

    /** Data object p becomes the head of the list of field object fo. */
    method PushOnField(p: nat, fo: nat)
      requires Is(objects, p, KData) && Is(objects, fo, KField)
      modifies this`objects
      ensures objects == PushField(old(objects), p, fo)
    {
      objects := objects[p := objects[p].(nextField := objects[fo].headData)];
      objects := objects[fo := objects[fo].(headData := p)];
    }

    /** Appends the data object of a payload that is not in the file and links it into the data hash table. */
    method AddDataObject(data: Payload, t: nat, hash: nat) returns (r: Status, p: nat)
      requires WellBuilt(hash64, header, objects, view, {})
      requires t + HASH_TABLE_HEADER == header.dataHashTableOffset && Is(objects, t, KDataHashTable) && hash == hash64(data)
      requires forall q :: Is(objects, q, KData) ==> PayloadAt(objects, q) != data
      modifies this`header, this`objects, this`view
      ensures r == Ok ==> WellBuilt(hash64, header, objects, view, {p})
      ensures r == Ok ==> p != 0 && Is(objects, p, KData) && PayloadAt(objects, p) == data
      ensures r == Ok ==> SameContent(old(objects), objects) && forall q: nat :: Is(objects, q, KData) ==> q <= p
      ensures r == Ok ==> Grows(old(view), view)
      ensures r == Ok ==> forall q :: Is(objects, q, KData) ==> q == p || Is(old(objects), q, KData)
      ensures r == Ok ==> Entries(objects, view) == old(Entries(objects, view)) && SameEntryHeader(old(header), header)
      ensures r != Ok ==> r == TooBig && Limited()
      ensures r == Ok ==> Spent(old(header), old(objects), header, objects, Align64(64 + |data|))
      ensures r != Ok ==> Refused(metrics, old(header), old(objects), Align64(64 + |data|))
    {
      hide Layout, TablesOk, CountsOk, NoSlack, FieldLists, EntriesOk, IndexOk, HashIndex, LinkedIn, Select, Relinked, SameContent, Grows, Spent, Refused;
      ghost var v := view;
      ghost var objs := objects;
      var o := DataObject(hash, 0, data, 0, 0, 0, 0);
      DataTail(hash64, header, objects, view, {}, t, hash);
      ArenaFacts(header, objects, view.offs);
      r, p := AppendObject(o);
      if r != Ok {
        return;
      }
      ghost var objsA := objects;
      ghost var hA := header;
      assert TableAt(objsA, t) == TableAt(objs, t);
      LinkObject(KData, t, p, hash);
      SpentTrans(old(header), objs, hA, objsA, header, objects, Align64(64 + |data|), 0, Align64(64 + |data|));
      ghost var b := BucketOf(hash, |TableAt(objs, t)|);
      view := ViewWith(v, p, true).(dataChains := v.dataChains[b := v.dataChains[b] + [p]]);
      LinkedLayout(hA, header, objsA, objects, view.offs, KData, t, b, p);
      NewDataKeeps(hash64, old(header), header, objs, objsA, objects, v, view, t, b, p, o);
      AppendedGrew(objs, objsA, objects, KData, t, b, p, o);
      RelinkedContent(objs, objects);
      NewDataGrows(hash64, old(header), objs, v, view, p);
    }

    /** Finds the data object of a payload, or adds it and puts it on the list of its field. */
    method AppendData(data: Payload) returns (r: Status, p: nat)
      requires WellBuilt(hash64, header, objects, view, {})
      modifies this`header, this`objects, this`view
      ensures r == Ok ==> WellBuilt(hash64, header, objects, view, {})
      ensures r == Ok ==> p != 0 && Is(objects, p, KData) && PayloadAt(objects, p) == data
      ensures r == Ok ==> SameContent(old(objects), objects) && Grows(old(view), view)
      ensures r == Ok ==> forall q :: Is(objects, q, KData) ==> q == p || Is(old(objects), q, KData)
      ensures r == Ok ==> Entries(objects, view) == old(Entries(objects, view)) && SameEntryHeader(old(header), header)
      ensures r != Ok ==> r == TooBig && Limited()
      ensures r == Ok ==> Spent(old(header), old(objects), header, objects, DataNeed(data))
      ensures r != Ok ==> Refused(metrics, old(header), old(objects), DataNeed(data))
    {
      hide Layout, TablesOk, CountsOk, NoSlack, FieldLists, EntriesOk, IndexOk, HashIndex, Select, FieldName, Relinked, SameContent, Grows, Spent, Refused;
      GrowsSame(view, view);
      SameContentRefl(objects);
      TableOffsets(header, objects, view.offs);
      var t := header.dataHashTableOffset - HASH_TABLE_HEADER;
      DataTableAt(header, objects, t);
      var hash := hash64(data);
      var found := FindObjectWithHash(objects, KData, t, data, hash, hash64, view.dataChains);
      if found.Some? {
        SpentNone(header, objects, DataNeed(data));
        return Ok, found.value;
      }
      r, p := AddDataObject(data, t, hash);
      if r != Ok {
        RefusedMore(metrics, old(header), old(objects), Align64(64 + |data|), DataNeed(data));
        return;
      }
      ghost var h1 := header;
      ghost var objs1 := objects;
      ghost var v1 := view;
      var eq := IndexOf(data, EQUALS);
      FieldNameAt(data, eq);
      if 0 < eq < |data| {
        var fo;
        r, fo := AppendField(data[..eq], {p});
        if r != Ok {
          RefusedLater(metrics, old(header), old(objects), h1, objs1, Align64(64 + |data|), Align64(40 + eq), DataNeed(data));
          return;
        }
        SpentTrans(old(header), old(objects), h1, objs1, header, objects, Align64(64 + |data|), Align64(40 + eq), DataNeed(data));
        RelinkedContent(objs1, objects);
        ghost var objs2 := objects;
        SameContentTrans(old(objects), objs1, objs2);
        SameContentAt(objs1, objs2, p);
        PushOnField(p, fo);
        PushedEnd(header, objs2, p, fo);
        SpentTrans(old(header), old(objects), header, objs2, header, objects, DataNeed(data), 0, DataNeed(data));
        PushFieldKeeps(hash64, header, objs2, view, p, fo, data[..eq]);
        view := view.(fieldLists := view.fieldLists[data[..eq] := view.fieldLists[data[..eq]] + [p]]);
        GrowsSame(v1, view);
        GrowsTrans(old(view), v1, view);
        RelinkedContent(objs2, objects);
        SameContentTrans(old(objects), objs2, objects);
        SameContentAt(objs2, objects, p);
      } else {
        UnnamedKeeps(hash64, header, objects, view, p);
        SpentMore(old(header), old(objects), header, objects, Align64(64 + |data|), DataNeed(data));
      }
    }

    lemma {:induction false} PushedEnd(h: Header, objs: Heap, p: nat, fo: nat)
      requires Is(objs, p, KData) && Is(objs, fo, KField)
      ensures Spent(h, objs, h, PushField(objs, p, fo), 0)
    {
      hide Spent;
      NothingSpent(h, objs, h, PushField(objs, p, fo));
    }

    /** Adds p to the entry list of data object d: inline if it is the first, in the arrays otherwise. */
    method LinkEntryItem(d: nat, p: nat) returns (r: Status)
      requires Base(hash64, header, objects, view, {}) && ListsHeld(header, objects, view.lists, view.arrays)
      requires d != 0 && Is(objects, d, KData)
      modifies this`header, this`objects, this`view
      ensures r == Ok ==> Base(hash64, header, objects, view, {}) && ListsHeld(header, objects, view.lists, view.arrays)
      ensures r == Ok ==> d in old(view).lists && view.lists == old(view).lists[d := old(view).lists[d] + [p]]
      ensures r == Ok ==> Grows(old(view), view)
      ensures r == Ok ==> Relisted(old(objects), objects, old(view.offs), view.offs)
      ensures r == Ok ==> Entries(objects, view) == old(Entries(objects, view)) && SameEntryHeader(old(header), header)
      ensures r != Ok ==> r == TooBig && Limited()
      ensures r == Ok ==> Spent(old(header), old(objects), header, objects, ListNeed(old(NEntriesAt(objects, d))))
      ensures r != Ok ==> Refused(metrics, old(header), old(objects), ListNeed(old(NEntriesAt(objects, d))))
    {
      hide Spent, Refused, Base, ListsHeld, Layout, Holds, ArrayStep, Relisted, Select, Increasing, IsArray, Grows;
      ListAt(header, objects, view.lists, view.arrays, d);
      ListHeldData(header, objects, d, view.arrays[d], view.lists[d]);
      BaseLayout(hash64, header, objects, view);
      var idx := objects[d].nEntries;
      if idx == 0 {
        objects := objects[d := objects[d].(entryOffset := p)];
        objects := objects[d := objects[d].(nEntries := idx + 1)];
        NothingSpent(header, old(objects), header, objects);
        InlineStep(hash64, header, old(objects), objects, view, d, p);
        view := view.(lists := view.lists[d := view.lists[d] + [p]]);
        assert view.arrays == view.arrays[d := view.arrays[d]];
        GrowsStep(old(view), view, d, view.arrays[d], p);
        r := Ok;
      } else {
        ghost var chain := view.arrays[d];
        ghost var list := view.lists[d];
        var first;
        ghost var chain';
        r, first, chain' := LinkEntryIntoArray(objects[d].entryArrayOffset, idx - 1, p, chain, list[1..]);
        if r != Ok {
          return;
        }
        ghost var h1, objs1 := header, objects;
        ArrayStepOwner(old(header), header, old(objects), objs1, old(view.offs), view.offs, chain, chain', d);
        objects := objects[d := objects[d].(entryArrayOffset := first)];
        objects := objects[d := objects[d].(nEntries := idx + 1)];
        NothingSpent(h1, objs1, header, objects);
        SpentTrans(old(header), old(objects), h1, objs1, header, objects, ArrayNeed(idx - 1), 0, ArrayNeed(idx - 1));
        ghost var v' := view.(lists := view.lists[d := list + [p]], arrays := view.arrays[d := chain']);
        ChainedStep(hash64, old(header), header, old(objects), objs1, objects, old(view), v', d, p, first, chain');
        GrowsStep(old(view), v', d, chain', p);
        view := v';
      }
    }

    /** The global invariant between calls. */
    ghost predicate Valid()
      reads this
    {
      && WellBuilt(hash64, header, objects, view, {})
      && AllUsed(objects, Entries(objects, view))
      && (Entries(objects, view) != [] && BootAt(objects, Entries(objects, view)[|Entries(objects, view)| - 1]) == header.bootId ==>
            tailEntryMonotonicValid)
      && (Entries(objects, view) == [] ==> header.tailEntryMonotonic == 0)
      && BootsInTurn(objects, Entries(objects, view), header.bootId)
    }

    /** There is room for this much, or there certainly will be. */
    ghost predicate HasRoom(need: nat)
      reads this
    {
      Fits(metrics, header, EndOf(header, objects) + need)
    }

    lemma {:induction false} NotRoom(objs: Heap, h: Header, need: nat)
      requires Refused(metrics, h, objs, need)
      ensures !Fits(metrics, h, EndOf(h, objs) + need)
    {
    }

    /** The file has a later entry of this boot. */
    ghost predicate GoesBack(monotonic: nat)
      reads this
    {
      exists e :: e in Entries(objects, view) && BootAt(objects, e) == header.bootId && monotonic < MonotonicAt(objects, e)
    }

    /** The time on record is taken for one of this boot, but is that of the last entry of an earlier one. */
    ghost predicate Stale()
      reads this
    {
      var entries := Entries(objects, view);
      tailEntryMonotonicValid && entries != [] && BootAt(objects, entries[|entries| - 1]) != header.bootId
    }

    /** What the guard of the writer refuses. */
    lemma {:induction false} RefusedExactly(monotonic: nat)
      requires Valid()
      ensures tailEntryMonotonicValid && monotonic < header.tailEntryMonotonic <==>
              GoesBack(monotonic) || (Stale() && monotonic < header.tailEntryMonotonic)
    {
      hide Layout, TablesOk, CountsOk, NoSlack, FieldLists, IndexOk, HashIndex, Select, AllUsed, BootAt, MonotonicAt;
      var entries := Entries(objects, view);
      var n := |entries|;
      if n > 0 && BootAt(objects, entries[n - 1]) == header.bootId {
        forall i | 0 <= i < n && BootAt(objects, entries[i]) == header.bootId
          ensures MonotonicAt(objects, entries[i]) <= header.tailEntryMonotonic {
          BootMonotonic(header, objects, entries, i, n - 1);
        }
        assert entries[n - 1] in entries;
      }
    }

    /** What the file records. */
    ghost function Recorded(): seq<LogEntry>
      reads this
    {
      Log(objects, Entries(objects, view))
    }

    /** Links the entry at p into the main list, then into the list of each data object it contains. */
    method LinkEntry(p: nat, items: seq<EntryItem>, ghost entries: seq<nat>) returns (r: Status)
      requires var e := objects;
               && Is(e, p, KEntry)
               && Base(hash64, Timed(header, RealtimeAt(e, p), MonotonicAt(e, p)), e, view, {})
               && ListsHeld(header, e, view.lists, view.arrays)
      requires Entries(objects, view) == entries + [p] && view.lists[MAIN] == entries
      requires items == ItemsAt(objects, p) && IndexPartial(objects, entries, items, p, 0, view.lists)
      modifies this
      ensures r == Ok ==> WellBuilt(hash64, header, objects, view, {})
      ensures r == Ok ==> Entries(objects, view) == entries + [p] && SameContent(old(objects), objects) && Grows(old(view), view)
      ensures r == Ok ==> header.bootId == old(header).bootId && tailEntryMonotonicValid
      ensures r == Ok ==> forall q :: Is(objects, q, KData) ==> Is(old(objects), q, KData)
      ensures r != Ok ==> r == TooBig && Limited()
      ensures r == Ok ==> Spent(old(header), old(objects), header, objects, LinkNeed(old(objects), entries, items))
      ensures r != Ok ==> Refused(metrics, old(header), old(objects), LinkNeed(old(objects), entries, items))
    {
      hide Spent, Refused, ItemNeeds, ArrayNeed, Base, ListsHeld, IndexPartial, ListHeld, Layout, Holds, ArrayStep, SameContent, Postings, Count, Select, Relisted, Grows;
      ghost var objs0 := objects;
      EntryItemsOk(hash64, Timed(header, RealtimeAt(objects, p), MonotonicAt(objects, p)), objects, view, entries, p);
      MainAt(header, objects, view.lists, view.arrays);
      LinkNeedStart(header, objects, view, entries, items);
      EntriesAre(objects, view, entries, p);
      r := LinkMain(p, entries);
      if r != Ok {
        RefusedMore(metrics, old(header), objs0, ArrayNeed(|entries|), LinkNeed(objs0, entries, items));
        return;
      }
      SpentTimed(old(header), objs0, header, objects, RealtimeAt(objects, p), MonotonicAt(objects, p), ArrayNeed(|entries|));
      RelistedContent(objs0, objects, old(view.offs), view.offs);
      RelistedKeeps(objs0, objects, old(view.offs), view.offs);
      SameContentEntry(objs0, objects, p);
      ItemNeedsFrame(objs0, objects, entries, items, |items|);
      PartialMain(objs0, objects, old(view.offs), view.offs, entries, items, p, old(view.lists), view.lists);
      header := Timed(header, objects[p].realtime, objects[p].monotonic);
      tailEntryMonotonicValid := true;
      ghost var v1, objs1, h1 := view, objects, header;
      r := LinkItems(p, items, entries);
      if r != Ok {
        RefusedLater(metrics, old(header), objs0, h1, objs1, ArrayNeed(|entries|), ItemNeeds(objs1, entries, items, |items|), LinkNeed(objs0, entries, items));
        return;
      }
      SpentTrans(old(header), objs0, h1, objs1, header, objects, ArrayNeed(|entries|), ItemNeeds(objs1, entries, items, |items|), LinkNeed(objs0, entries, items));
      GrowsTrans(old(view), v1, view);
      SameContentTrans(objs0, objs1, objects);
      SameContentEntry(objs0, objects, p);
      PartialEnd(objects, entries, items, p, view.lists);
    }

    /** Links the entry into the list of each data object it contains. */
    method LinkItems(p: nat, items: seq<EntryItem>, ghost entries: seq<nat>) returns (r: Status)
      requires Base(hash64, header, objects, view, {}) && ListsHeld(header, objects, view.lists, view.arrays)
      requires Entries(objects, view) == entries + [p] && MAIN in view.lists && view.lists[MAIN] == entries + [p]
      requires IndexPartial(objects, entries, items, p, 0, view.lists)
      requires forall i :: 0 <= i < |items| ==> items[i].objectOffset != MAIN && Is(objects, items[i].objectOffset, KData)
      modifies this`header, this`objects, this`view
      ensures r == Ok ==> Base(hash64, header, objects, view, {}) && ListsHeld(header, objects, view.lists, view.arrays)
      ensures r == Ok ==> Entries(objects, view) == entries + [p] && MAIN in view.lists && view.lists[MAIN] == entries + [p]
      ensures r == Ok ==> IndexPartial(objects, entries, items, p, |items|, view.lists)
      ensures r == Ok ==> SameContent(old(objects), objects) && Grows(old(view), view) && header.bootId == old(header).bootId
      ensures r == Ok ==> forall q :: Is(objects, q, KData) ==> Is(old(objects), q, KData)
      ensures r != Ok ==> r == TooBig && Limited()
      ensures r == Ok ==> Spent(old(header), old(objects), header, objects, ItemNeeds(old(objects), entries, items, |items|))
      ensures r != Ok ==> Refused(metrics, old(header), old(objects), ItemNeeds(old(objects), entries, items, |items|))
    {
      hide Spent, Refused, ItemNeeds, ListNeed, NEntriesAt, Base, ListsHeld, IndexPartial, Layout, SameContent, Postings, Count, Select, Relisted, Grows;
      ghost var objs0 := objects;
      EntriesAre(objects, view, entries, p);
      SpentNone(header, objects, ItemNeeds(objs0, entries, items[..0], |items|));
      SameContentRefl(objects);
      GrowsSame(view, view);
      var i := 0;
      while i < |items|
        invariant 0 <= i <= |items|
        invariant Base(hash64, header, objects, view, {}) && ListsHeld(header, objects, view.lists, view.arrays)
        invariant Entries(objects, view) == entries + [p]
        invariant MAIN in view.lists && view.lists[MAIN] == entries + [p]
        invariant IndexPartial(objects, entries, items, p, i, view.lists)
        invariant SameContent(objs0, objects) && Grows(old(view), view)
        invariant forall q :: Is(objects, q, KData) ==> Is(objs0, q, KData)
        invariant header.bootId == old(header).bootId
        invariant Spent(old(header), objs0, header, objects, ItemNeeds(objs0, entries, items[..i], |items|))
      {
        var d := items[i].objectOffset;
        SameContentAt(objs0, objects, d);
        ghost var objs1 := objects;
        ghost var lists := view.lists;
        ghost var v1 := view;
        ghost var h1 := header;
        ItemNeedNext(header, objs0, objects, view, entries, items, p, i);
        r := LinkEntryItem(d, p);
        if r != Ok {
          RefusedLater(metrics, old(header), objs0, h1, objs1, ItemNeeds(objs0, entries, items[..i], |items|), ListNeed(NEntriesAt(objs1, d)),
                       ItemNeeds(objs0, entries, items, |items|));
          return;
        }
        SpentTrans(old(header), objs0, h1, objs1, header, objects, ItemNeeds(objs0, entries, items[..i], |items|), ListNeed(NEntriesAt(objs1, d)),
                   ItemNeeds(objs0, entries, items[..i + 1], |items|));
        RelistedContent(objs1, objects, v1.offs, view.offs);
        GrowsTrans(old(view), v1, view);
        SameContentTrans(objs0, objs1, objects);
        RelistedKeeps(objs1, objects, v1.offs, view.offs);
        PartialStep(objs1, objects, entries, items, p, i, lists, view.lists);
        i := i + 1;
      }
      assert items[..|items|] == items;
      r := Ok;
    }

    /** The link into the main list. */
    method LinkMain(p: nat, ghost entries: seq<nat>) returns (r: Status)
      requires Is(objects, p, KEntry)
      requires Base(hash64, Timed(header, RealtimeAt(objects, p), MonotonicAt(objects, p)), objects, view, {})
      requires ListsHeld(header, objects, view.lists, view.arrays)
      requires MAIN in view.lists && view.lists[MAIN] == entries
      modifies this`header, this`objects, this`view
      ensures r == Ok ==>
        && Is(objects, p, KEntry)
        && Base(hash64, Timed(header, RealtimeAt(objects, p), MonotonicAt(objects, p)), objects, view, {})
        && ListsHeld(Timed(header, RealtimeAt(objects, p), MonotonicAt(objects, p)), objects, view.lists, view.arrays)
        && view.lists == old(view).lists[MAIN := entries + [p]]
        && Relisted(old(objects), objects, old(view.offs), view.offs)
        && Entries(objects, view) == old(Entries(objects, view))
        && header.bootId == old(header).bootId && Grows(old(view), view)
      ensures r != Ok ==> r == TooBig && Limited()
      ensures r == Ok ==> Spent(old(header), old(objects), header, objects, ArrayNeed(old(header).nEntries))
      ensures r != Ok ==> Refused(metrics, old(header), old(objects), ArrayNeed(old(header).nEntries))
    {
      hide Spent, Refused, Base, ListsHeld, Layout, Holds, ArrayStep, Relisted, Select, ListHeld, Grows;
      ghost var h0 := Timed(header, RealtimeAt(objects, p), MonotonicAt(objects, p));
      BaseLayout(hash64, h0, objects, view);
      LayoutFrame(h0, header, objects, objects, view.offs);
      MainAt(header, objects, view.lists, view.arrays);
      ghost var chain := view.arrays[MAIN];
      ghost var objs := objects;
      ghost var v := view;
      var first;
      ghost var chain';
      r, first, chain' := LinkEntryIntoArray(header.entryArrayOffset, header.nEntries, p, chain, entries);
      if r != Ok {
        return;
      }
      ghost var h1 := header;
      MainStepFrame(old(header), h1, objs, objects, v.offs, view.offs, chain, chain');
      header := header.(entryArrayOffset := first);
      header := header.(nEntries := header.nEntries + 1);
      NothingSpent(h1, objects, header, objects);
      SpentTrans(old(header), objs, h1, objects, header, objects, ArrayNeed(old(header).nEntries), 0, ArrayNeed(old(header).nEntries));
      view := view.(lists := view.lists[MAIN := entries + [p]], arrays := view.arrays[MAIN := chain']);
      GrowsStep(v, view, MAIN, chain', p);
      assert h1 == header.(entryArrayOffset := old(header).entryArrayOffset, nEntries := old(header).nEntries);
      MainStep(hash64, old(header), header, objs, objects, v, view, p, first, chain');
    }

    /** Appends the object of an entry with these items and links it. */
    method AppendEntryInternal(realtime: nat, monotonic: nat, xorHash: nat, items: seq<EntryItem>, seqnum: Option<nat>)
      returns (r: Status, p: nat)
      requires WellBuilt(hash64, header, objects, view, {})
      requires Entries(objects, view) != [] && BootAt(objects, Entries(objects, view)[|Entries(objects, view)| - 1]) == header.bootId ==>
                 tailEntryMonotonicValid
      requires UsedBut(objects, Entries(objects, view), items)
      requires tailEntryMonotonicValid ==> header.tailEntryMonotonic <= monotonic
      requires BootsInTurn(objects, Entries(objects, view), header.bootId)
      requires forall i :: 0 <= i < |items| ==>
                 Is(objects, items[i].objectOffset, KData) && HashAt(objects, items[i].objectOffset) == items[i].hash
      modifies this
      ensures r == Ok ==> Valid() && SameContent(old(objects), objects) && Grows(old(view), view)
      ensures r == Ok ==> Entries(objects, view) == old(Entries(objects, view)) + [p]
      ensures r == Ok ==> p in objects && objects[p] == EntryObject(NextSeqnum(old(header), seqnum), realtime, monotonic, old(header).bootId, xorHash, items, 0)
      ensures r == Ok ==> header.bootId == old(header).bootId
      ensures r != Ok ==> r == TooBig && Limited()
      ensures r == Ok ==> Spent(old(header), old(objects), header, objects, AddNeed(old(objects), old(Entries(objects, view)), items))
      ensures r != Ok ==> Refused(metrics, old(header), old(objects), AddNeed(old(objects), old(Entries(objects, view)), items))
    {
      hide Spent, Refused, LinkNeed, Align64, EndOf, Fits, Base, ListsHeld, IndexPartial, Layout, SameContent, Postings, Select, UsedBut, AllUsed, Grows,
           BootsInTurn;
      BaseLayout(hash64, header, objects, view);
      var s := NextSeqnum(header, seqnum);
      var e := EntryObject(s, realtime, monotonic, header.bootId, xorHash, items, 0);
      ghost var objs := objects;
      ghost var v := view;
      ghost var need := Align64(64 + 16 * |items|);
      ghost var link := LinkNeed(objs, Entries(objs, v), items);
      r, p := AppendObject(e);
      if r != Ok {
        RefusedMore(metrics, header, objects, need, need + link);
        return;
      }
      ghost var h0 := header;
      header := Numbered(header, s);
      SpentNumbered(old(header), objs, h0, objects, s, need);
      ghost var h1 := Timed(header, realtime, monotonic);
      LayoutFrame(h0, h1, objects, objects, view.offs);
      NewEntryKeeps(hash64, old(header), h1, objs, objects, v, p, e);
      ListsSameHeader(h1, header, objects, view.lists, view.arrays);
      ghost var objs1 := objects;
      ghost var v1 := view;
      ghost var h2 := header;
      LinkNeedFrame(objs, objects, v, items);
      r := LinkEntry(p, items, Entries(objs, v));
      if r != Ok {
        RefusedLater(metrics, old(header), objs, h2, objs1, need, link, need + link);
      } else {
        SpentTrans(old(header), objs, h2, objs1, header, objects, need, link, need + link);
        SameContentTrans(objs, objs1, objects);
        SameContentEntry(objs1, objects, p);
        GrowsSame(v, v1);
        GrowsTrans(v, v1, view);
        StillUsed(hash64, old(header), objs, objects, v, items, p);
        StillInTurn(hash64, old(header), objs, objects, v, header.bootId, p);
      }
    }

    /** Opens the file for writing again, in the same boot or in a later one. */
    method Reopen(bootId: nat)
      requires Valid()
      requires bootId == header.bootId || forall i :: 0 <= i < |Entries(objects, view)| ==> BootAt(objects, Entries(objects, view)[i]) != bootId
      modifies this
      ensures Valid() && Recorded() == old(Recorded()) && header == old(header).(bootId := bootId) && objects == old(objects)
      ensures view == old(view) && (tailEntryMonotonicValid <==> bootId == old(header).bootId)
    {
      hide Layout, TablesOk, CountsOk, NoSlack, FieldLists, HashIndex, Select, EntriesOk, ListsHeld;
      tailEntryMonotonicValid := bootId == header.bootId;
      header := header.(bootId := bootId);
      BootKeeps(hash64, old(header), header, objects, view);
    }

    /** Stores every field and collects the items that refer to them. */
    method AppendFields(fields: seq<Payload>) returns (r: Status, items: seq<EntryItem>, xorHash: nat)
      requires WellBuilt(hash64, header, objects, view, {})
      modifies this`header, this`objects, this`view
      ensures r == Ok ==> WellBuilt(hash64, header, objects, view, {}) && SameContent(old(objects), objects) && Grows(old(view), view)
      ensures r == Ok ==> Entries(objects, view) == old(Entries(objects, view)) && SameEntryHeader(old(header), header)
      ensures r == Ok ==> |items| == |fields| && xorHash == XorOf(hash64, fields)
      ensures r == Ok ==> forall j :: 0 <= j < |items| ==> RefersTo(objects, items[j], fields[j])
      ensures r == Ok ==> forall q :: Is(objects, q, KData) ==> Count(items, q) > 0 || Is(old(objects), q, KData)
      ensures r != Ok ==> r == TooBig && Limited()
      ensures r == Ok ==> Spent(old(header), old(objects), header, objects, DataNeeds(fields))
      ensures r != Ok ==> Refused(metrics, old(header), old(objects), DataNeeds(fields))
    {
      hide Spent, Refused, DataNeed, DataNeeds, WellBuilt, SameContent, Select, Xor64, RefersTo, Count, Grows;
      GrowsSame(view, view);
      items := [];
      xorHash := 0;
      SameContentRefl(objects);
      SpentNone(header, objects, DataNeeds(fields[..0]));
      var i := 0;
      while i < |fields|
        invariant 0 <= i == |items| <= |fields|
        invariant WellBuilt(hash64, header, objects, view, {})
        invariant Entries(objects, view) == old(Entries(objects, view)) && SameEntryHeader(old(header), header)
        invariant SameContent(old(objects), objects) && Grows(old(view), view)
        invariant forall j :: 0 <= j < i ==> RefersTo(objects, items[j], fields[j])
        invariant forall q :: Is(objects, q, KData) ==> Count(items, q) > 0 || Is(old(objects), q, KData)
        invariant xorHash == XorOf(hash64, fields[..i])
        invariant Spent(old(header), old(objects), header, objects, DataNeeds(fields[..i]))
      {
        var d;
        ghost var objs1 := objects;
        ghost var v1 := view;
        ghost var h1 := header;
        DataNeedsNext(fields, i);
        r, d := AppendData(fields[i]);
        if r != Ok {
          RefusedLater(metrics, old(header), old(objects), h1, objs1, DataNeeds(fields[..i]), DataNeed(fields[i]), DataNeeds(fields));
          return;
        }
        SpentTrans(old(header), old(objects), h1, objs1, header, objects, DataNeeds(fields[..i]), DataNeed(fields[i]), DataNeeds(fields[..i + 1]));
        GrowsTrans(old(view), v1, view);
        SameContentTrans(old(objects), objs1, objects);
        forall j | 0 <= j < i ensures RefersTo(objects, items[j], fields[j]) {
          RefersFrame(objs1, objects, items[j], fields[j]);
        }
        DataHash(hash64, header, objects, view, d);
        RefersNew(objects, d, fields[i]);
        xorHash := Xor64(xorHash, objects[d].hash);
        CountMore(items, EntryItem(d, objects[d].hash));
        items := items + [EntryItem(d, objects[d].hash)];
        assert fields[..i + 1][..i] == fields[..i];
        i := i + 1;
      }
      assert fields[..|fields|] == fields;
      r := Ok;
    }

    /** Records one entry: `fields` under the given times. */
    method AppendEntry(realtime: nat, monotonic: nat, fields: seq<Payload>, seqnum: Option<nat>) returns (r: Status, p: nat)
      requires Valid()
      modifies this
      ensures r == InvalidArgument <==> old(GoesBack(monotonic) || (Stale() && monotonic < header.tailEntryMonotonic))
      ensures r == InvalidArgument <==> old(tailEntryMonotonicValid && monotonic < header.tailEntryMonotonic)
      ensures r == InvalidArgument ==> header == old(header) && objects == old(objects) && view == old(view)
      ensures r == InvalidArgument ==> tailEntryMonotonicValid == old(tailEntryMonotonicValid)
      ensures r == TooBig ==> Limited() && !old(HasRoom(EntryNeed(Recorded(), fields)))
      ensures r == Ok ==> Recorded() == old(Recorded()) + [LogEntry(NextSeqnum(old(header), seqnum), realtime, monotonic, old(header).bootId, multiset(fields))]
      ensures r == Ok ==> Entries(objects, view) == old(Entries(objects, view)) + [p] && header.bootId == old(header).bootId
      ensures r == Ok ==> SortedItems(ItemsAt(objects, p)) && XorAt(objects, p) == XorOf(hash64, fields)
      ensures r == Ok ==> Valid() && SameContent(old(objects), objects) && Grows(old(view), view)
    {
      hide WellBuilt, SameContent, Log, Select, Xor64, SortItems, RefersTo, FieldsOf, XorOf, SortedItems, Is, AllUsed, UsedBut, Count, Grows, BootsInTurn, GoesBack, Stale,
           Spent, Refused, DataNeeds, EntryNeed, AddNeed, Fits, EndOf;
      RefusedExactly(monotonic);
      if tailEntryMonotonicValid && monotonic < header.tailEntryMonotonic {
        return InvalidArgument, 0;
      }
      ghost var objs0 := objects;
      ghost var entries := Entries(objects, view);
      var items, xorHash;
      r, items, xorHash := AppendFields(fields);
      ghost var need := EntryNeed(Log(objs0, entries), fields);
      EntryNeedParts(Log(objs0, entries), fields);
      if r != Ok {
        p := 0;
        RefusedMore(metrics, old(header), objs0, DataNeeds(fields), need);
        NotRoom(objs0, old(header), need);
        return;
      }
      LastBoot(hash64, objs0, objects, old(header), old(view), entries);
      InTurnFrame(hash64, old(header), objs0, objects, old(view), header.bootId);
      ghost var objs2 := objects;
      ghost var v2 := view;
      SortedItemsReady(objects, items, fields);
      FieldsUsed(hash64, old(header), objs0, objects, old(view), items);
      ghost var h2 := header;
      AddNeedByField(hash64, old(header), objs0, objects, old(view), h2, view, items, fields);
      items := SortItems(items);
      r, p := AppendEntryInternal(realtime, monotonic, xorHash, items, seqnum);
      if r != Ok {
        RefusedLater(metrics, old(header), objs0, h2, objs2, DataNeeds(fields), AddNeed(objs2, entries, items), need);
        NotRoom(objs0, old(header), need);
        return;
      }
      SameContentTrans(objs0, objs2, objects);
      GrowsTrans(old(view), v2, view);
      FieldsFrame(objs2, objects, items);
      LogGrows(hash64, objs0, objects, old(header), old(view), entries, p);
    }
  }

  /** The view of a file with nothing but its field hash table at p and its data hash table at q. */
  function EmptyView(p: nat, q: nat, nData: nat, nFields: nat): View {
    View([p, q], seq(nData, i => []), seq(nFields, i => []), map[], map[MAIN := []], map[MAIN := []])
  }

  function ZeroItems(n: nat): (s: seq<HashItem>)
    ensures |s| == n && forall i :: 0 <= i < n ==> s[i] == HashItem(0, 0)
  {
    seq(n, i => HashItem(0, 0))
  }

  lemma {:induction false} EmptyFile(H: HashFunction, h: Header, objs: Heap, v: View, p: nat, q: nat, nFields: nat, nData: nat)
    requires p != q && nFields > 0 && nData > 0
    requires objs == map[p := FieldHashTable(ZeroItems(nFields), 0), q := DataHashTable(ZeroItems(nData), 0)]
    requires v == EmptyView(p, q, nData, nFields) && Layout(h, objs, v.offs)
    requires h.fieldHashTableOffset == p + HASH_TABLE_HEADER && h.fieldHashTableSize == 16 * nFields
    requires h.dataHashTableOffset == q + HASH_TABLE_HEADER && h.dataHashTableSize == 16 * nData
    requires h.compatibleFlags == 0 && h.reservedIsZero && h.nData == 0 && h.nFields == 0 && h.nEntryArrays == 0
    requires h.nEntries == 0 && h.entryArrayOffset == 0 && h.headEntrySeqnum == 0 && h.headEntryRealtime == 0
    ensures WellBuilt(H, h, objs, v, {}) && Entries(objs, v) == [] && Log(objs, Entries(objs, v)) == []
    ensures AllUsed(objs, Entries(objs, v))
  {
    hide Layout, HashIndex, Select, ListsHeld, TablesOk, CountsOk, NoSlack, FieldLists, EntriesOk, DataTable, FieldTable, ZeroItems;
    var ft, dt := FieldHashTable(ZeroItems(nFields), 0), DataHashTable(ZeroItems(nData), 0);
    EmptyHash(H, objs, KData, dt.table, v.dataChains);
    EmptyHash(H, objs, KField, ft.table, v.fieldChains);
    EmptyLists(h, objs);
    EmptyTables(h, objs, p, q, ft, dt);
    EmptyEntries(h, objs);
    EmptyFields(objs);
    EmptySelect(objs, p, q, ft, dt);
  }

  lemma {:induction false} EmptyTables(h: Header, objs: Heap, p: nat, q: nat, ft: Object, dt: Object)
    requires ft.FieldHashTable? && dt.DataHashTable? && ft.slack == 0 && dt.slack == 0 && p != q
    requires objs == map[p := ft, q := dt]
    requires h.fieldHashTableOffset == p + HASH_TABLE_HEADER && h.fieldHashTableSize == 16 * |ft.table|
    requires h.dataHashTableOffset == q + HASH_TABLE_HEADER && h.dataHashTableSize == 16 * |dt.table|
    requires h.compatibleFlags == 0 && h.reservedIsZero && h.nData == 0 && h.nFields == 0 && h.nEntryArrays == 0
    ensures TablesOk(h, objs, [p, q]) && CountsOk(h, objs, [p, q]) && NoSlack(objs)
    ensures DataTable(h, objs) == dt.table && FieldTable(h, objs) == ft.table
  {
    hide Select;
    EmptySelect(objs, p, q, ft, dt);
  }

  lemma {:induction false} EmptyEntries(h: Header, objs: Heap)
    requires h.headEntrySeqnum == 0 && h.headEntryRealtime == 0
    ensures EntriesOk(h, objs, [])
  {
  }

  lemma {:induction false} EmptyFields(objs: Heap)
    requires forall d :: !Is(objs, d, KData) && !Is(objs, d, KField)
    ensures FieldLists(objs, map[], {})
  {
  }

  lemma {:induction false} EmptySelect(objs: Heap, p: nat, q: nat, ft: Object, dt: Object)
    requires objs == map[p := ft, q := dt] && p != q && ft.FieldHashTable? && dt.DataHashTable?
    ensures forall k :: Select(objs, [p, q], k) == if k == KFieldHashTable then [p] else if k == KDataHashTable then [q] else []
  {
    forall k ensures Select(objs, [p, q], k) == if k == KFieldHashTable then [p] else if k == KDataHashTable then [q] else [] {
      assert [p, q][..1] == [p] && [p][..0] == [];
      assert Select(objs, [p], k) == if k == KFieldHashTable then [p] else [];
    }
  }

  lemma {:induction false} EmptyHash(H: HashFunction, objs: Heap, kind: Kind, table: seq<HashItem>, chains: seq<seq<nat>>)
    requires forall p :: !Is(objs, p, kind)
    requires |chains| == |table| > 0 && forall b :: 0 <= b < |table| ==> table[b] == HashItem(0, 0) && chains[b] == []
    ensures HashIndex(H, objs, kind, table, chains)
  {
    forall b | 0 <= b < |table| ensures BucketChain(objs, kind, |table|, b, table[b], chains[b]) {
    }
  }

  lemma {:induction false} EmptyLists(h: Header, objs: Heap)
    requires forall d :: !Is(objs, d, KData) && !Is(objs, d, KEntryArray)
    requires h.nEntries == 0 && h.entryArrayOffset == 0
    ensures ListsHeld(h, objs, map[MAIN := []], map[MAIN := []])
  {
    assert Holds(objs, 0, [], []);
  }

  /** The item refers to a data object that stores the field. */
  predicate RefersTo(objs: Heap, item: EntryItem, field: Payload) {
    && Is(objs, item.objectOffset, KData) && HashAt(objs, item.objectOffset) == item.hash
    && PayloadAt(objs, item.objectOffset) == field
  }

  lemma {:induction false} CountMore(items: seq<EntryItem>, x: EntryItem)
    ensures forall q :: Count(items + [x], q) == Count(items, q) + if x.objectOffset == q then 1 else 0
  {
    assert (items + [x])[..|items|] == items;
  }

  lemma {:induction false} FieldsUsed(H: HashFunction, h: Header, objs: Heap, objs': Heap, v: View, items: seq<EntryItem>)
    requires WellBuilt(H, h, objs, v, {}) && AllUsed(objs, Entries(objs, v)) && SameContent(objs, objs')
    requires forall q :: Is(objs', q, KData) ==> Count(items, q) > 0 || Is(objs, q, KData)
    ensures UsedBut(objs', Entries(objs, v), SortItems(items))
  {
    hide Layout, TablesOk, CountsOk, NoSlack, FieldLists, IndexOk, HashIndex, Select, Count;
    var entries := Entries(objs, v);
    forall e | e in entries ensures ItemsAt(objs', e) == ItemsAt(objs, e) {
      var i :| 0 <= i < |entries| && entries[i] == e;
      assert EntryOk(objs, entries[i]);
    }
    forall d | Is(objs', d, KData) ensures Postings(objs', entries, d) != [] || Count(SortItems(items), d) > 0 {
      CountSorted(items, d);
      PostingsFrame(objs, objs', entries, d);
    }
  }

  lemma {:induction false} SortedItemsReady(objs: Heap, items: seq<EntryItem>, fields: seq<Payload>)
    requires |items| == |fields| && forall j :: 0 <= j < |items| ==> RefersTo(objs, items[j], fields[j])
    ensures var sorted := SortItems(items);
            && SortedItems(sorted) && FieldsOf(objs, sorted) == multiset(fields)
            && forall j :: 0 <= j < |sorted| ==>
                 Is(objs, sorted[j].objectOffset, KData) && HashAt(objs, sorted[j].objectOffset) == sorted[j].hash
  {
    FieldsOfPayloads(objs, items, fields);
    FieldsOfSorted(objs, items);
    SortMembers(items);
  }

  lemma {:induction false} RefersFrame(objs: Heap, objs': Heap, item: EntryItem, field: Payload)
    requires RefersTo(objs, item, field) && SameContent(objs, objs')
    ensures RefersTo(objs', item, field)
  {
  }

  lemma {:induction false} RefersNew(objs: Heap, d: nat, field: Payload)
    requires Is(objs, d, KData) && PayloadAt(objs, d) == field
    ensures RefersTo(objs, EntryItem(d, objs[d].hash), field)
  {
  }

  lemma {:induction false} FieldsOfPayloads(objs: Heap, items: seq<EntryItem>, fields: seq<Payload>)
    requires |items| == |fields| && forall j :: 0 <= j < |items| ==> PayloadAt(objs, items[j].objectOffset) == fields[j]
    ensures FieldsOf(objs, items) == multiset(fields)
  {
    hide PayloadAt;
    if items != [] {
      FieldsOfPayloads(objs, items[..|items| - 1], fields[..|fields| - 1]);
      assert fields == fields[..|fields| - 1] + [fields[|fields| - 1]];
    }
  }

  lemma {:induction false} DataHash(H: HashFunction, h: Header, objs: Heap, v: View, d: nat)
    requires WellBuilt(H, h, objs, v, {}) && Is(objs, d, KData)
    ensures objs[d].hash == H(PayloadAt(objs, d))
  {
    hide Layout, TablesOk, CountsOk, NoSlack, FieldLists, EntriesOk, IndexOk, HashChains;
    assert HashAt(objs, d) == objs[d].hash;
  }

  lemma {:induction false} BootKeeps(H: HashFunction, h: Header, h': Header, objs: Heap, v: View)
    requires WellBuilt(H, h, objs, v, {}) && h' == h.(bootId := h'.bootId)
    ensures WellBuilt(H, h', objs, v, {})
  {
    hide NoSlack, FieldLists, HashIndex, Select, ListsHeld, EntriesOk, TablesOk, Layout;
    ListsSameHeader(h, h', objs, v.lists, v.arrays);
    LayoutFrame(h, h', objs, objs, v.offs);
    BootEntries(h, h', objs, Entries(objs, v));
    BootTables(h, h', objs, v.offs);
  }

  lemma {:induction false} BootEntries(h: Header, h': Header, objs: Heap, entries: seq<nat>)
    requires EntriesOk(h, objs, entries) && h' == h.(bootId := h'.bootId)
    ensures EntriesOk(h', objs, entries)
  {
  }

  lemma {:induction false} BootTables(h: Header, h': Header, objs: Heap, offs: seq<nat>)
    requires TablesOk(h, objs, offs) && h' == h.(bootId := h'.bootId)
    ensures TablesOk(h', objs, offs) && DataTable(h', objs) == DataTable(h, objs) && FieldTable(h', objs) == FieldTable(h, objs)
  {
    hide Select;
  }

  /** Storing fields does not change which boot the last entry is from. */
  lemma {:induction false} LastBoot(H: HashFunction, objs: Heap, objs': Heap, h: Header, v: View, entries: seq<nat>)
    requires WellBuilt(H, h, objs, v, {}) && entries == Entries(objs, v) && SameContent(objs, objs')
    ensures entries != [] ==> BootAt(objs', entries[|entries| - 1]) == BootAt(objs, entries[|entries| - 1])
  {
    hide Layout, TablesOk, CountsOk, NoSlack, FieldLists, IndexOk, HashIndex, Select;
    if entries != [] {
      assert EntryOk(objs, entries[|entries| - 1]);
    }
  }

  lemma {:induction false} LogGrows(H: HashFunction, objs: Heap, objs': Heap, h: Header, v: View, entries: seq<nat>, p: nat)
    requires WellBuilt(H, h, objs, v, {}) && entries == Entries(objs, v) && SameContent(objs, objs')
    ensures Log(objs', entries + [p]) == Log(objs, entries) + [LogEntryAt(objs', p)]
  {
    hide Layout, TablesOk, CountsOk, NoSlack, FieldLists, IndexOk, HashIndex, Select;
    forall i | 0 <= i < |entries| ensures EntryOk(objs, entries[i]) {
    }
    LogFrame(objs, objs', entries);
  }

  /** One more than the last number of this file or of the external counter, whichever is larger. */
  function NextSeqnum(h: Header, seqnum: Option<nat>): (s: nat)
    ensures s > h.tailEntrySeqnum && (seqnum.Some? ==> s > seqnum.value)
    ensures s == h.tailEntrySeqnum + 1 || (seqnum.Some? && s == seqnum.value + 1)
  {
    if seqnum.Some? && seqnum.value + 1 > h.tailEntrySeqnum + 1 then seqnum.value + 1 else h.tailEntrySeqnum + 1
  }

  lemma {:induction false} InTurnFrame(H: HashFunction, h: Header, objs: Heap, objs': Heap, v: View, bootId: nat)
    requires WellBuilt(H, h, objs, v, {}) && BootsInTurn(objs, Entries(objs, v), bootId) && SameContent(objs, objs')
    ensures BootsInTurn(objs', Entries(objs, v), bootId)
  {
    hide Layout, TablesOk, CountsOk, NoSlack, FieldLists, IndexOk, HashIndex, Select;
    var entries := Entries(objs, v);
    forall i | 0 <= i < |entries| ensures BootAt(objs', entries[i]) == BootAt(objs, entries[i]) {
      assert EntryOk(objs, entries[i]);
    }
  }

  lemma {:induction false} StillInTurn(H: HashFunction, h: Header, objs: Heap, objs': Heap, v: View, bootId: nat, p: nat)
    requires WellBuilt(H, h, objs, v, {}) && BootsInTurn(objs, Entries(objs, v), bootId) && SameContent(objs, objs')
    requires BootAt(objs', p) == bootId
    ensures BootsInTurn(objs', Entries(objs, v) + [p], bootId)
  {
    hide WellBuilt, SameContent, BootAt;
    InTurnFrame(H, h, objs, objs', v, bootId);
  }

  lemma {:induction false} StillUsed(H: HashFunction, h: Header, objs: Heap, objs': Heap, v: View, items: seq<EntryItem>, p: nat)
    requires WellBuilt(H, h, objs, v, {}) && UsedBut(objs, Entries(objs, v), items) && SameContent(objs, objs')
    requires forall q :: Is(objs', q, KData) ==> Is(objs, q, KData)
    requires ItemsAt(objs', p) == items
    ensures AllUsed(objs', Entries(objs, v) + [p])
  {
    hide Layout, TablesOk, CountsOk, NoSlack, FieldLists, IndexOk, HashIndex, Select, UsedBut, AllUsed;
    var entries := Entries(objs, v);
    forall e | e in entries ensures ItemsAt(objs', e) == ItemsAt(objs, e) {
      var i :| 0 <= i < |entries| && entries[i] == e;
      assert EntryOk(objs, entries[i]);
    }
    UsedWith(objs, objs', entries, items, p);
  }

  lemma {:induction false} EntryItemsOk(H: HashFunction, h: Header, objs: Heap, v: View, entries: seq<nat>, p: nat)
    requires Base(H, h, objs, v, {}) && Entries(objs, v) == entries + [p]
    ensures forall i :: 0 <= i < |ItemsAt(objs, p)| ==> ItemsAt(objs, p)[i].objectOffset != 0 && Is(objs, ItemsAt(objs, p)[i].objectOffset, KData)
    ensures v.offs != [] && !Is(objs, 0, KData)
  {
    hide TablesOk, CountsOk, NoSlack, FieldLists, HashIndex, Layout, Select;
    ArenaFacts(h, objs, v.offs);
    assert EntryOk(objs, (entries + [p])[|entries|]);
  }

  lemma {:induction false} PartialMain(objs: Heap, objs': Heap, offs: seq<nat>, offs': seq<nat>, entries: seq<nat>, items: seq<EntryItem>, p: nat,
                                       lists: map<nat, seq<nat>>, lists': map<nat, seq<nat>>)
    requires Relisted(objs, objs', offs, offs') && !Is(objs, 0, KData)
    requires IndexPartial(objs, entries, items, p, 0, lists)
    requires forall o :: o in lists && o != MAIN ==> o in lists' && lists'[o] == lists[o]
    ensures IndexPartial(objs', entries, items, p, 0, lists')
  {
    hide Relisted, Count;
    RelistedKeeps(objs, objs', offs, offs');
    forall d | Is(objs', d, KData) ensures d in lists' && lists'[d] == Postings(objs', entries, d) + Repeat(p, Count(items[..0], d)) {
      PostingsFrame(objs, objs', entries, d);
    }
  }

  lemma {:induction false} MainAt(h: Header, objs: Heap, lists: map<nat, seq<nat>>, chains: map<nat, seq<nat>>)
    requires ListsHeld(h, objs, lists, chains)
    ensures MAIN in lists && MAIN in chains && h.nEntries == |lists[MAIN]|
    ensures Holds(objs, h.entryArrayOffset, chains[MAIN], lists[MAIN])
  {
    hide Holds;
    assert ListHeld(h, objs, MAIN, chains[MAIN], lists[MAIN]);
  }

  lemma {:induction false} ListsSameHeader(h: Header, h': Header, objs: Heap, lists: map<nat, seq<nat>>, chains: map<nat, seq<nat>>)
    requires ListsHeld(h, objs, lists, chains)
    requires h'.nEntries == h.nEntries && h'.entryArrayOffset == h.entryArrayOffset
    ensures ListsHeld(h', objs, lists, chains)
  {
    forall o | o in lists ensures ListHeld(h', objs, o, chains[o], lists[o]) {
      assert ListHeld(h, objs, o, chains[o], lists[o]);
    }
  }

  lemma {:induction false} MainStep(H: HashFunction, h: Header, h': Header, objs: Heap, objs': Heap, v: View, v': View, p: nat, first: nat, chain': seq<nat>)
    requires Is(objs, p, KEntry)
    requires Base(H, Timed(h, RealtimeAt(objs, p), MonotonicAt(objs, p)), objs, v, {})
    requires ListsHeld(h, objs, v.lists, v.arrays) && MAIN in v.lists && MAIN in v.arrays
    requires ArrayStep(h, h'.(entryArrayOffset := h.entryArrayOffset, nEntries := h.nEntries), objs, objs', v.offs, v'.offs, v.arrays[MAIN], chain')
    requires Holds(objs', first, chain', v.lists[MAIN] + [p])
    requires h'.entryArrayOffset == first && h'.nEntries == |v.lists[MAIN]| + 1
    requires v' == v.(offs := v'.offs, lists := v.lists[MAIN := v.lists[MAIN] + [p]], arrays := v.arrays[MAIN := chain'])
    ensures Is(objs', p, KEntry) && objs'[p] == objs[p]
    ensures var ht := Timed(h', RealtimeAt(objs, p), MonotonicAt(objs, p));
            Base(H, ht, objs', v', {}) && ListsHeld(ht, objs', v'.lists, v'.arrays)
    ensures Relisted(objs, objs', v.offs, v'.offs) && Entries(objs', v') == Entries(objs, v) && h'.bootId == h.bootId
  {
    hide Base, ListsHeld, Layout, Holds, Select;
    var realtime, monotonic := RealtimeAt(objs, p), MonotonicAt(objs, p);
    var h1 := h'.(entryArrayOffset := h.entryArrayOffset, nEntries := h.nEntries);
    BaseLayout(H, Timed(h, realtime, monotonic), objs, v);
    LayoutFrame(Timed(h, realtime, monotonic), h, objs, objs, v.offs);
    ArrayStepRelists(h, h1, objs, objs', v.offs, v'.offs, v.arrays[MAIN], chain');
    RelistedKeeps(objs, objs', v.offs, v'.offs);
    MainStepFrame(h, h1, objs, objs', v.offs, v'.offs, v.arrays[MAIN], chain');
    hide Relisted, ArrayStep;
    var ht := Timed(h', realtime, monotonic);
    LayoutFrame(h1, ht, objs', objs', v'.offs);
    RelistedBase(H, Timed(h, realtime, monotonic), ht, objs, objs', v, v');
    MainHeld(ht, objs', chain', v.lists[MAIN] + [p], first);
    hide ListHeld;
    ListsStep(h, ht, objs, objs', v.lists, v.arrays, MAIN, chain', p);
  }

  lemma {:induction false} MainHeld(h: Header, objs: Heap, chain: seq<nat>, list: seq<nat>, first: nat)
    requires h.entryArrayOffset == first && h.nEntries == |list| && Holds(objs, first, chain, list)
    ensures ListHeld(h, objs, MAIN, chain, list)
  {
    hide Holds;
  }

  lemma {:induction false} MainStepFrame(h: Header, h': Header, objs: Heap, objs': Heap, offs: seq<nat>, offs': seq<nat>, chain: seq<nat>, chain': seq<nat>)
    requires ArrayStep(h, h', objs, objs', offs, offs', chain, chain')
    ensures forall q :: q in objs && q !in chain ==> q in objs' && objs'[q] == objs[q]
    ensures forall a :: a in chain' ==> a in chain || a !in objs
    ensures chain <= chain' && forall a :: Is(objs', a, KEntryArray) ==> Is(objs, a, KEntryArray) || a in chain'
    ensures h' == h.(arenaSize := h'.arenaSize, tailObjectOffset := h'.tailObjectOffset, nObjects := h'.nObjects,
                     nEntryArrays := h.nEntryArrays + |offs'| - |offs|)
    ensures Layout(h', objs', offs')
    ensures forall q :: q in chain ==> Is(objs, q, KEntryArray) && Is(objs', q, KEntryArray)
  {
    hide Layout;
  }

  lemma {:induction false} BaseLayout(H: HashFunction, h: Header, objs: Heap, v: View)
    requires Base(H, h, objs, v, {})
    ensures Layout(h, objs, v.offs) && v.offs != []
  {
    hide TablesOk, CountsOk, NoSlack, FieldLists, EntriesOk, HashIndex;
    ArenaFacts(h, objs, v.offs);
  }

  lemma {:induction false} ListAt(h: Header, objs: Heap, lists: map<nat, seq<nat>>, chains: map<nat, seq<nat>>, d: nat)
    requires ListsHeld(h, objs, lists, chains) && d != MAIN && Is(objs, d, KData)
    ensures d in lists && d in chains && ListHeld(h, objs, d, chains[d], lists[d])
    ensures d !in chains[d]
  {
    hide Holds;
    ListHeldChain(h, objs, d, chains[d], lists[d]);
  }

  lemma {:induction false} ListHeldData(h: Header, objs: Heap, d: nat, chain: seq<nat>, list: seq<nat>)
    requires d != MAIN && ListHeld(h, objs, d, chain, list)
    ensures Is(objs, d, KData) && objs[d].nEntries == |list|
    ensures list != [] ==> Holds(objs, objs[d].entryArrayOffset, chain, list[1..])
  {
  }

  lemma {:induction false} ArrayStepOwner(h: Header, h': Header, objs: Heap, objs': Heap, offs: seq<nat>, offs': seq<nat>,
                                          chain: seq<nat>, chain': seq<nat>, d: nat)
    requires ArrayStep(h, h', objs, objs', offs, offs', chain, chain') && d in objs && d !in chain
    ensures d in objs' && objs'[d] == objs[d] && chain <= chain'
  {
    hide Layout;
  }

  /** The first item of a data object's list is stored in the object itself. */
  lemma {:induction false} InlineStep(H: HashFunction, h: Header, objs: Heap, objs': Heap, v: View, d: nat, p: nat)
    requires Base(H, h, objs, v, {}) && ListsHeld(h, objs, v.lists, v.arrays)
    requires d != 0 && Is(objs, d, KData) && objs[d].nEntries == 0
    requires objs' == objs[d := objs[d].(entryOffset := p, nEntries := 1)]
    ensures d in v.lists
    ensures var v' := v.(lists := v.lists[d := v.lists[d] + [p]]);
            && Base(H, h, objs', v', {}) && ListsHeld(h, objs', v'.lists, v'.arrays)
            && Relisted(objs, objs', v.offs, v'.offs) && Entries(objs', v') == Entries(objs, v)
  {
    hide Base, ListsHeld, ListHeld, Layout, Holds, Select;
    BaseLayout(H, h, objs, v);
    ListAt(h, objs, v.lists, v.arrays, d);
    ListHeldData(h, objs, d, v.arrays[d], v.lists[d]);
    var v' := v.(lists := v.lists[d := v.lists[d] + [p]]);
    LayoutKeys(h, objs, v.offs);
    assert Relisted(objs, objs', v.offs, v.offs);
    hide Relisted;
    LayoutFrame(h, h, objs, objs', v.offs);
    RelistedBase(H, h, h, objs, objs', v, v');
    InlineHeld(h, objs, objs', v.arrays[d], d, p);
    ListsStep(h, h, objs, objs', v.lists, v.arrays, d, v.arrays[d], p);
    assert v.arrays[d := v.arrays[d]] == v.arrays;
  }

  lemma {:induction false} InlineHeld(h: Header, objs: Heap, objs': Heap, chain: seq<nat>, d: nat, p: nat)
    requires d != MAIN && ListHeld(h, objs, d, chain, [])
    requires objs' == objs[d := objs[d].(entryOffset := p, nEntries := 1)]
    ensures ListHeld(h, objs', d, chain, [] + [p])
  {
    assert ([] + [p])[1..] == [];
    ListHeldChain(h, objs, d, chain, []);
    HoldsFrame(objs, objs', objs[d].entryArrayOffset, chain, []);
  }

  /** Further items go to the data object's chain of arrays. */
  lemma {:induction false} ChainedStep(H: HashFunction, h: Header, h': Header, objs: Heap, objs1: Heap, objs': Heap, v: View, v': View,
                                       d: nat, p: nat, first: nat, chain': seq<nat>)
    requires Base(H, h, objs, v, {}) && ListsHeld(h, objs, v.lists, v.arrays)
    requires d != 0 && Is(objs, d, KData) && objs[d].nEntries > 0 && d in v.lists && d in v.arrays && v.lists[d] != []
    requires ArrayStep(h, h', objs, objs1, v.offs, v'.offs, v.arrays[d], chain')
    requires Holds(objs1, first, chain', v.lists[d][1..] + [p])
    requires d in objs1 && objs1[d] == objs[d]
    requires objs' == objs1[d := objs[d].(entryArrayOffset := first, nEntries := objs[d].nEntries + 1)]
    requires v' == v.(offs := v'.offs, lists := v.lists[d := v.lists[d] + [p]], arrays := v.arrays[d := chain'])
    ensures Base(H, h', objs', v', {}) && ListsHeld(h', objs', v'.lists, v'.arrays)
    ensures Relisted(objs, objs', v.offs, v'.offs) && Entries(objs', v') == Entries(objs, v) && SameEntryHeader(h, h')
  {
    hide Base, ListsHeld, Layout, Holds, Select, ArrayStep, ListHeld;
    BaseLayout(H, h, objs, v);
    ListAt(h, objs, v.lists, v.arrays, d);
    ChainedRelists(h, h', objs, objs1, objs', v.offs, v'.offs, v.arrays[d], chain', d);
    hide Relisted;
    RelistedBase(H, h, h', objs, objs', v, v');
    ChainedHeld(h, h', objs, objs1, objs', v.arrays[d], chain', v.lists[d], d, p, first);
    RelistedKinds(objs, objs', v.offs, v'.offs);
    RelistedKeeps(objs, objs', v.offs, v'.offs);
    ListsStep(h, h', objs, objs', v.lists, v.arrays, d, chain', p);
  }

  lemma {:induction false} ChainedRelists(h: Header, h': Header, objs: Heap, objs1: Heap, objs': Heap, offs: seq<nat>, offs': seq<nat>,
                                          chain: seq<nat>, chain': seq<nat>, d: nat)
    requires Layout(h, objs, offs)
    requires ArrayStep(h, h', objs, objs1, offs, offs', chain, chain')
    requires Is(objs, d, KData) && d !in chain && d in objs1 && objs1[d] == objs[d]
    requires d in objs' && SameButList(objs[d], objs'[d]) && objs' == objs1[d := objs'[d]]
    ensures Relisted(objs, objs', offs, offs') && Layout(h', objs', offs')
    ensures h'.nEntries == h.nEntries && h'.entryArrayOffset == h.entryArrayOffset && SameEntryHeader(h, h')
    ensures h' == h.(arenaSize := h'.arenaSize, tailObjectOffset := h'.tailObjectOffset, nObjects := h'.nObjects,
                     nEntryArrays := h.nEntryArrays + |offs'| - |offs|)
    ensures forall q :: q in objs && q != d && q !in chain ==> q in objs' && objs'[q] == objs[q]
    ensures forall a :: a in chain' ==> a in chain || a !in objs
    ensures chain <= chain' && forall a :: Is(objs', a, KEntryArray) ==> Is(objs, a, KEntryArray) || a in chain'
  {
    hide Layout, ArrayStep, Relisted, SameButList;
    ArrayStepRelists(h, h', objs, objs1, offs, offs', chain, chain');
    MainStepFrame(h, h', objs, objs1, offs, offs', chain, chain');
    RelistedOwner(objs, objs1, objs', offs, offs', d);
    LayoutFrame(h', h', objs1, objs', offs');
  }

  lemma {:induction false} RelistedOwner(objs: Heap, objs1: Heap, objs': Heap, offs: seq<nat>, offs': seq<nat>, d: nat)
    requires Relisted(objs, objs1, offs, offs') && Is(objs, d, KData) && d in objs' && SameButList(objs[d], objs'[d])
    requires d in objs1 && objs1[d] == objs[d] && objs' == objs1[d := objs'[d]]
    ensures Relisted(objs, objs', offs, offs')
    ensures Size(objs'[d]) == Size(objs1[d]) && KindOf(objs'[d]) == KData
  {
  }

  lemma {:induction false} ChainedHeld(h: Header, h': Header, objs: Heap, objs1: Heap, objs': Heap, chain: seq<nat>, chain': seq<nat>,
                                       list: seq<nat>, d: nat, p: nat, first: nat)
    requires d != MAIN && Is(objs, d, KData) && list != [] && ListHeld(h, objs, d, chain, list)
    requires Holds(objs1, first, chain', list[1..] + [p])
    requires Is(objs1, d, KData)
    requires objs' == objs1[d := objs[d].(entryArrayOffset := first, nEntries := objs[d].nEntries + 1)]
    ensures ListHeld(h', objs', d, chain', list + [p])
  {
    HoldsArrays(objs1, first, chain', list[1..] + [p]);
    HoldsFrame(objs1, objs', first, chain', list[1..] + [p]);
    assert (list + [p])[1..] == list[1..] + [p];
  }

  lemma {:induction false} FieldNameAt(data: Payload, eq: nat)
    requires eq == IndexOf(data, EQUALS)
    ensures FieldName(data) == if 0 < eq < |data| then Some(data[..eq]) else None
  {
  }

  lemma {:induction false} UnnamedKeeps(H: HashFunction, h: Header, objs: Heap, v: View, d: nat)
    requires WellBuilt(H, h, objs, v, {d}) && FieldName(PayloadAt(objs, d)).None?
    ensures WellBuilt(H, h, objs, v, {})
  {
    hide Layout, TablesOk, CountsOk, NoSlack, FieldLists, EntriesOk, IndexOk, HashIndex;
    FieldListsUnnamed(objs, v.fieldLists, d);
  }

  lemma {:induction false} LinkedLayout(h: Header, h': Header, objs: Heap, objs': Heap, offs: seq<nat>, kind: Kind, t: nat, b: nat, p: nat)
    requires LinkedIn(objs, objs', kind, t, b, p)
    requires Layout(h, objs, offs)
    requires h'.headerSize == h.headerSize && h'.arenaSize == h.arenaSize
    requires h'.tailObjectOffset == h.tailObjectOffset && h'.nObjects == h.nObjects
    ensures Layout(h', objs', offs)
  {
    hide Layout;
    RelinkedKeeps(objs, objs');
    LayoutFrame(h, h', objs, objs', offs);
  }

  lemma {:induction false} BucketTail(objs: Heap, kind: Kind, table: seq<HashItem>, chains: seq<seq<nat>>, b: nat)
    requires HashChains(objs, kind, table, chains) && b < |table|
    ensures table[b].tail == 0 || Is(objs, table[b].tail, kind)
  {
    assert BucketChain(objs, kind, |table|, b, table[b], chains[b]);
  }

  lemma {:induction false} NewDataGrows(H: HashFunction, h: Header, objs: Heap, v: View, v': View, p: nat)
    requires WellBuilt(H, h, objs, v, {}) && p != MAIN && p !in objs
    requires v'.lists == v.lists[p := []] && v'.arrays == v.arrays[p := []]
    ensures Grows(v, v')
  {
    hide Base, ListHeld, ArraysUsed, Select, Postings;
  }

  /** What linking needs to know about the bucket of a hash in the field table. */
  lemma {:induction false} FieldTail(H: HashFunction, h: Header, objs: Heap, v: View, pending: set<nat>, t: nat, hash: nat)
    requires WellBuilt(H, h, objs, v, pending)
    requires t + HASH_TABLE_HEADER == h.fieldHashTableOffset && Is(objs, t, KFieldHashTable)
    ensures |TableAt(objs, t)| > 0 && |v.fieldChains| == |TableAt(objs, t)|
    ensures var tail := TableAt(objs, t)[BucketOf(hash, |TableAt(objs, t)|)].tail;
            if tail == 0 then !Is(objs, 0, KField) else tail != t && Is(objs, tail, KField)
  {
    hide Layout, TablesOk, CountsOk, NoSlack, FieldLists, EntriesOk, IndexOk, BucketChain, UniquePayloads;
    ArenaFacts(h, objs, v.offs);
    BucketTail(objs, KField, TableAt(objs, t), v.fieldChains, BucketOf(hash, |TableAt(objs, t)|));
  }

  /** What linking needs to know about the bucket of a hash in the data table. */
  lemma {:induction false} DataTail(H: HashFunction, h: Header, objs: Heap, v: View, pending: set<nat>, t: nat, hash: nat)
    requires WellBuilt(H, h, objs, v, pending)
    requires t + HASH_TABLE_HEADER == h.dataHashTableOffset && Is(objs, t, KDataHashTable)
    ensures |TableAt(objs, t)| > 0 && |v.dataChains| == |TableAt(objs, t)|
    ensures var tail := TableAt(objs, t)[BucketOf(hash, |TableAt(objs, t)|)].tail;
            if tail == 0 then !Is(objs, 0, KData) else tail != t && Is(objs, tail, KData)
  {
    hide Layout, TablesOk, CountsOk, NoSlack, FieldLists, EntriesOk, IndexOk, BucketChain, UniquePayloads;
    ArenaFacts(h, objs, v.offs);
    BucketTail(objs, KData, TableAt(objs, t), v.dataChains, BucketOf(hash, |TableAt(objs, t)|));
  }

  lemma {:induction false} StoreLastStep(h: Header, objs: Heap, offs: seq<nat>, first: nat, chain: seq<nat>, list: seq<nat>, p: nat)
    requires Layout(h, objs, offs)
    requires Holds(objs, first, chain, list) && |list| < |Flat(objs, chain)|
    ensures var a := chain[|chain| - 1]; var i := |list| - |Flat(objs, chain[..|chain| - 1])|;
            var objs' := objs[a := objs[a].(slots := objs[a].slots[i := p])];
            Holds(objs', first, chain, list + [p]) && ArrayStep(h, h, objs, objs', offs, offs, chain, chain)
  {
    hide Layout, Grown, Flat, Path;
    HoldsRoom(objs, first, chain, list);
    hide Holds;
    var a := chain[|chain| - 1];
    var i := |list| - |Flat(objs, chain[..|chain| - 1])|;
    var objs' := objs[a := objs[a].(slots := objs[a].slots[i := p])];
    hide Layout, Holds;
    HoldsArrays(objs, first, chain, list);
    StoreInLast(objs, objs', first, chain, list, p);
    LayoutFrame(h, h, objs, objs', offs);
  }

  lemma {:induction false} HoldsRoom(objs: Heap, first: nat, chain: seq<nat>, list: seq<nat>)
    requires Holds(objs, first, chain, list) && |list| < |Flat(objs, chain)|
    ensures chain != [] && IsArray(objs, chain[|chain| - 1])
    ensures 0 <= |list| - |Flat(objs, chain[..|chain| - 1])| < |objs[chain[|chain| - 1]].slots|
  {
  }

  lemma {:induction false} HoldsArrays(objs: Heap, first: nat, chain: seq<nat>, list: seq<nat>)
    requires Holds(objs, first, chain, list)
    ensures forall q :: q in chain ==> Is(objs, q, KEntryArray)
  {
  }

  lemma {:induction false} StoreNewStep(h: Header, h1: Header, objs: Heap, offs: seq<nat>, first: nat, chain: seq<nat>, list: seq<nat>,
                                        p: nat, q: nat, o: Object)
    requires Holds(objs, first, chain, list) && |list| == |Flat(objs, chain)|
    requires q != 0 && q !in objs && forall c: nat :: c in objs ==> c < q
    requires o.EntryArray? && o.next == 0 && o.slack == 0 && |o.slots| == NewCapacity(|list|, LastCapacity(objs, chain))
    requires o.slots[0] == p && forall i :: 1 <= i < |o.slots| ==> o.slots[i] == 0
    requires Layout(h1, objs[q := o], offs + [q])
    requires h1 == h.(arenaSize := h1.arenaSize, tailObjectOffset := h1.tailObjectOffset, nObjects := h1.nObjects)
    ensures var objs' := Extended(objs, chain, q, o);
            && Holds(objs', if chain == [] then q else first, chain + [q], list + [p])
            && ArrayStep(h, h1.(nEntryArrays := h1.nEntryArrays + 1), objs, objs', offs, offs + [q], chain, chain + [q])
  {
    hide Holds, Layout, Grown, Flat, NewCapacity;
    HoldsArrays(objs, first, chain, list);
    forall j | 0 <= j < |chain| ensures chain[j] < q {
      assert chain[j] in chain;
    }
    StoreInNew(objs, first, chain, list, p, q, o);
    var objs' := Extended(objs, chain, q, o);
    LayoutFrame(h1, h1.(nEntryArrays := h1.nEntryArrays + 1), objs[q := o], objs', offs + [q]);
    assert (chain + [q])[|chain|] == q;
    assert objs'.Keys == objs.Keys + {q};
  }

  lemma {:induction false} HoldsStart(objs: Heap, first: nat, chain: seq<nat>, list: seq<nat>)
    requires Holds(objs, first, chain, list)
    ensures first == if chain == [] then 0 else chain[0]
    ensures |Flat(objs, chain[..0])| == 0
  {
  }

  /** What the walk along the chain learns at array j. */
  lemma {:induction false} HoldsWalk(objs: Heap, first: nat, chain: seq<nat>, list: seq<nat>, j: nat)
    requires Holds(objs, first, chain, list) && j < |chain|
    ensures chain[j] != 0 && IsArray(objs, chain[j])
    ensures objs[chain[j]].next == if j + 1 < |chain| then chain[j + 1] else 0
    ensures |Flat(objs, chain[..j + 1])| == |Flat(objs, chain[..j])| + |objs[chain[j]].slots|
    ensures LastCapacity(objs, chain[..j + 1]) == |objs[chain[j]].slots|
    ensures |list| < |Flat(objs, chain[..j])| + |objs[chain[j]].slots| ==> j == |chain| - 1 && |list| < |Flat(objs, chain)|
  {
    FlatAt(objs, chain, j);
    if j < |chain| - 1 {
      var front := chain[..|chain| - 1];
      assert front[..j] == chain[..j];
      FlatAt(objs, front, j);
    }
  }

  /** A walk that ran off the chain found it full. */
  lemma {:induction false} HoldsFull(objs: Heap, first: nat, chain: seq<nat>, list: seq<nat>, j: nat)
    requires Holds(objs, first, chain, list) && j <= |chain| && (j < |chain| ==> chain[j] == 0)
    ensures j == |chain| && chain[..j] == chain && |list| <= |Flat(objs, chain)|
    ensures forall k :: 0 <= k < |chain| ==> chain[k] != 0 && IsArray(objs, chain[k])
  {
  }

  lemma {:induction false} SpentTimed(h: Header, objs: Heap, h': Header, objs': Heap, realtime: nat, monotonic: nat, cost: nat)
    requires Spent(h, objs, h', objs', cost)
    ensures Spent(h, objs, Timed(h', realtime, monotonic), objs', cost)
  {
  }

  /** What linking these items takes at most, if each list gets up to `more` further items. */
  ghost function ItemNeeds(objs: Heap, entries: seq<nat>, items: seq<EntryItem>, more: nat): nat {
    if items == [] then 0
    else ItemNeeds(objs, entries, items[..|items| - 1], more) + ListNeed(|Postings(objs, entries, items[|items| - 1].objectOffset)| + more)
  }

  /** What adding an entry object and linking it takes at most. */
  ghost function AddNeed(objs: Heap, entries: seq<nat>, items: seq<EntryItem>): nat {
    Align64(64 + 16 * |items|) + LinkNeed(objs, entries, items)
  }

  lemma {:induction false} LinkNeedFrame(objs: Heap, objs': Heap, v: View, items: seq<EntryItem>)
    requires SameContent(objs, objs')
    ensures LinkNeed(objs', Entries(objs, v), items) == LinkNeed(objs, Entries(objs, v), items)
  {
    hide SameContent, ItemNeeds, ArrayNeed;
    ItemNeedsFrame(objs, objs', Entries(objs, v), items, |items|);
  }

  lemma {:induction false} SpentNumbered(h: Header, objs: Heap, h': Header, objs': Heap, s: nat, cost: nat)
    requires Spent(h, objs, h', objs', cost)
    ensures Spent(h, objs, Numbered(h', s), objs', cost)
  {
  }

  lemma {:induction false} ItemNeedsInsert(objs: Heap, entries: seq<nat>, x: EntryItem, s: seq<EntryItem>, more: nat)
    ensures ItemNeeds(objs, entries, InsertItem(x, s), more) ==
            ItemNeeds(objs, entries, s, more) + ListNeed(|Postings(objs, entries, x.objectOffset)| + more)
  {
    hide Postings, ListNeed;
    if s != [] {
      var front, last := s[..|s| - 1], s[|s| - 1];
      if last.objectOffset <= x.objectOffset {
        var r := s + [x];
        assert r[..|r| - 1] == s;
      } else {
        ItemNeedsInsert(objs, entries, x, front, more);
        var r := InsertItem(x, front);
        var r' := r + [last];
        assert r'[..|r'| - 1] == r;
      }
    }
  }

  /** Sorting the items does not change what linking them takes. */
  lemma {:induction false} ItemNeedsSorted(objs: Heap, entries: seq<nat>, s: seq<EntryItem>, more: nat)
    ensures ItemNeeds(objs, entries, SortItems(s), more) == ItemNeeds(objs, entries, s, more)
  {
    hide Postings, ListNeed;
    if s != [] {
      ItemNeedsSorted(objs, entries, s[..|s| - 1], more);
      ItemNeedsInsert(objs, entries, s[|s| - 1], SortItems(s[..|s| - 1]), more);
    }
  }

  /** After the fields are stored, what adding the entry takes is what was accounted for. */
  lemma {:induction false} AddNeedByField(H: HashFunction, h: Header, objs: Heap, objs': Heap, v: View, h': Header, v': View,
                                          items: seq<EntryItem>, fields: seq<Payload>)
    requires WellBuilt(H, h, objs, v, {}) && WellBuilt(H, h', objs', v', {}) && SameContent(objs, objs') && Entries(objs', v') == Entries(objs, v)
    requires |items| == |fields| && forall j :: 0 <= j < |items| ==> RefersTo(objs', items[j], fields[j])
    ensures DataNeeds(fields) + AddNeed(objs', Entries(objs', v'), SortItems(items)) == EntryNeed(Log(objs, Entries(objs, v)), fields)
  {
    var entries := Entries(objs, v);
    hide WellBuilt, SameContent, RefersTo, ItemNeeds, ArrayNeed, ListNeeds, DataNeeds, Log, EntryOk, SortItems, Select, UniquePayloads, Align64;
    SameLog(H, h, objs, objs', v);
    PartsOf(H, h', objs', v');
    SortMembers(items);
    ItemNeedsSorted(objs', entries, items, |items|);
    ItemNeedsByField(H, objs', entries, items, fields, |items|);
    LogLength(objs, entries);
  }

  lemma {:induction false} LogLength(objs: Heap, entries: seq<nat>)
    ensures |Log(objs, entries)| == |entries|
  {
  }

  lemma {:induction false} SameLog(H: HashFunction, h: Header, objs: Heap, objs': Heap, v: View)
    requires WellBuilt(H, h, objs, v, {}) && SameContent(objs, objs')
    ensures Log(objs', Entries(objs, v)) == Log(objs, Entries(objs, v))
  {
    hide Layout, TablesOk, CountsOk, NoSlack, FieldLists, IndexOk, HashIndex, Select, SameContent, Log;
    LogFrame(objs, objs', Entries(objs, v));
  }

  lemma {:induction false} PartsOf(H: HashFunction, h: Header, objs: Heap, v: View)
    requires WellBuilt(H, h, objs, v, {})
    ensures UniquePayloads(H, objs, KData) && forall e :: e in Entries(objs, v) ==> EntryOk(objs, e)
  {
    hide Layout, TablesOk, CountsOk, NoSlack, FieldLists, IndexOk, HashChains, Select, EntryOk;
  }

  lemma {:induction false} EntryNeedParts(log: seq<LogEntry>, fields: seq<Payload>)
    ensures DataNeeds(fields) <= EntryNeed(log, fields)
  {
    hide DataNeeds, ArrayNeed, ListNeeds;
  }

  lemma {:induction false} DataNeedsNext(fields: seq<Payload>, i: nat)
    requires i < |fields|
    ensures DataNeeds(fields[..i + 1]) == DataNeeds(fields[..i]) + DataNeed(fields[i]) && DataNeeds(fields[..i + 1]) <= DataNeeds(fields)
    decreases |fields|
  {
    hide DataNeed;
    assert fields[..i + 1][..i] == fields[..i];
    if i + 1 < |fields| {
      var front := fields[..|fields| - 1];
      assert front[..i + 1] == fields[..i + 1] && front[..i] == fields[..i];
      DataNeedsNext(front, i);
    } else {
      assert fields[..i + 1] == fields;
    }
  }

  /** The list of a payload is as long as the log has entries with it. */
  lemma {:induction false} PostingsOccur(H: HashFunction, objs: Heap, entries: seq<nat>, d: nat)
    requires UniquePayloads(H, objs, KData) && Is(objs, d, KData) && forall e :: e in entries ==> EntryOk(objs, e)
    ensures |Postings(objs, entries, d)| == Occurrences(Log(objs, entries), PayloadAt(objs, d))
  {
    hide UniquePayloads, Count, FieldsOf;
    if entries != [] {
      var front, e := entries[..|entries| - 1], entries[|entries| - 1];
      assert e in entries;
      PostingsOccur(H, objs, front, d);
      FieldCount(H, objs, ItemsAt(objs, e), d);
      var log := Log(objs, entries);
      assert log[..|log| - 1] == Log(objs, front);
      assert log[|log| - 1] == LogEntryAt(objs, e);
    }
  }

  /** What linking takes, said by payloads. */
  lemma {:induction false} ItemNeedsByField(H: HashFunction, objs: Heap, entries: seq<nat>, items: seq<EntryItem>, fields: seq<Payload>, more: nat)
    requires UniquePayloads(H, objs, KData) && |items| == |fields| && forall e :: e in entries ==> EntryOk(objs, e)
    requires forall j :: 0 <= j < |items| ==> RefersTo(objs, items[j], fields[j])
    ensures ItemNeeds(objs, entries, items, more) == ListNeeds(Log(objs, entries), fields, more)
  {
    hide UniquePayloads, ListNeed, Postings, Occurrences, Log, EntryOk;
    if items != [] {
      var n := |items| - 1;
      PostingsOccur(H, objs, entries, items[n].objectOffset);
      ItemNeedsByField(H, objs, entries, items[..n], fields[..n], more);
    }
  }

  /** What linking the entry takes at most. */
  ghost function LinkNeed(objs: Heap, entries: seq<nat>, items: seq<EntryItem>): nat {
    ArrayNeed(|entries|) + ItemNeeds(objs, entries, items, |items|)
  }

  lemma {:induction false} ItemNeedsFrame(objs: Heap, objs': Heap, entries: seq<nat>, items: seq<EntryItem>, more: nat)
    requires SameContent(objs, objs') && forall e :: e in entries ==> Is(objs, e, KEntry)
    ensures ItemNeeds(objs', entries, items, more) == ItemNeeds(objs, entries, items, more)
  {
    hide ListNeed, Postings;
    if items != [] {
      PostingsFrame(objs, objs', entries, items[|items| - 1].objectOffset);
      ItemNeedsFrame(objs, objs', entries, items[..|items| - 1], more);
    }
  }

  lemma {:induction false} ItemNeedsPrefix(objs: Heap, entries: seq<nat>, items: seq<EntryItem>, more: nat, k: nat)
    requires k <= |items|
    ensures ItemNeeds(objs, entries, items[..k], more) <= ItemNeeds(objs, entries, items, more)
    ensures k < |items| ==>
              ItemNeeds(objs, entries, items[..k + 1], more) ==
              ItemNeeds(objs, entries, items[..k], more) + ListNeed(|Postings(objs, entries, items[k].objectOffset)| + more)
    decreases |items|
  {
    hide Postings, ListNeed;
    if k < |items| {
      assert items[..k + 1][..k] == items[..k];
      var front := items[..|items| - 1];
      assert front[..k] == items[..k];
      ItemNeedsPrefix(objs, entries, front, more, k);
    } else {
      assert items[..k] == items;
    }
  }

  lemma {:induction false} LinkNeedStart(h: Header, objs: Heap, v: View, entries: seq<nat>, items: seq<EntryItem>)
    requires ListsHeld(h, objs, v.lists, v.arrays) && MAIN in v.lists && v.lists[MAIN] == entries
    ensures h.nEntries == |entries| && ArrayNeed(|entries|) <= LinkNeed(objs, entries, items)
  {
    hide ArraysUsed, ArrayNeed;
    assert ListHeld(h, objs, MAIN, v.arrays[MAIN], v.lists[MAIN]);
  }

  lemma {:induction false} ListLength(h: Header, objs: Heap, v: View, entries: seq<nat>, items: seq<EntryItem>, p: nat, i: nat, d: nat)
    requires i < |items| && ListsHeld(h, objs, v.lists, v.arrays) && IndexPartial(objs, entries, items, p, i, v.lists) && Is(objs, d, KData)
    requires d != MAIN
    ensures NEntriesAt(objs, d) <= |Postings(objs, entries, d)| + |items|
  {
    hide ArraysUsed, Postings, Count;
    assert d in v.lists && v.lists[d] == Postings(objs, entries, d) + Repeat(p, Count(items[..i], d));
    assert ListHeld(h, objs, d, v.arrays[d], v.lists[d]);
  }

  /** The next item's list has at most as many items as are accounted for. */
  lemma {:induction false} ItemNeedNext(h: Header, objs0: Heap, objs: Heap, v: View, entries: seq<nat>, items: seq<EntryItem>, p: nat, i: nat)
    requires i < |items| && ListsHeld(h, objs, v.lists, v.arrays) && IndexPartial(objs, entries, items, p, i, v.lists)
    requires items[i].objectOffset != MAIN && Is(objs, items[i].objectOffset, KData)
    requires SameContent(objs0, objs) && forall e :: e in entries ==> Is(objs0, e, KEntry)
    ensures ItemNeeds(objs0, entries, items[..i], |items|) + ListNeed(NEntriesAt(objs, items[i].objectOffset)) <=
            ItemNeeds(objs0, entries, items[..i + 1], |items|) <= ItemNeeds(objs0, entries, items, |items|)
  {
    hide ListsHeld, IndexPartial, ListNeed, ArrayNeed, Postings, Count;
    var d := items[i].objectOffset;
    ItemNeedsPrefix(objs0, entries, items, |items|, i);
    ItemNeedsPrefix(objs0, entries, items, |items|, i + 1);
    assert items[..|items|] == items;
    PostingsFrame(objs0, objs, entries, d);
    ListLength(h, objs, v, entries, items, p, i, d);
    hide SameContent, ItemNeeds;
    ArrayNeedGrows(NEntriesAt(objs, d), |Postings(objs0, entries, d)| + |items|);
  }

  lemma {:induction false} EntriesAre(objs: Heap, v: View, entries: seq<nat>, p: nat)
    requires Entries(objs, v) == entries + [p]
    ensures forall e :: e in entries ==> Is(objs, e, KEntry)
  {
    assert forall e :: e in entries ==> e in Entries(objs, v);
  }

  /** A new array takes what it is said to take. */
  lemma {:induction false} NewArrayNeed(objs: Heap, first: nat, chain: seq<nat>, list: seq<nat>, o: Object)
    requires Holds(objs, first, chain, list) && |list| >= |Flat(objs, chain)| && o.EntryArray? && o.slack == 0
    requires var n := LastCapacity(objs, chain); var m := if |list| > n then (|list| + 1) * 2 else n * 2; |o.slots| == if m < 4 then 4 else m
    ensures Align64(Size(o)) <= ArrayNeed(|list|)
  {
    LastWithin(objs, chain);
    hide Holds, Flat, LastCapacity;
    SmallerArray(|o.slots|, if |list| < 1 then 4 else 2 * (|list| + 1));
  }

  lemma {:induction false} StoredSlot(h: Header, objs: Heap, a: nat, i: nat, p: nat, cost: nat)
    requires IsArray(objs, a) && i < |objs[a].slots|
    ensures Spent(h, objs, h, objs[a := objs[a].(slots := objs[a].slots[i := p])], cost)
  {
    NothingSpent(h, objs, h, objs[a := objs[a].(slots := objs[a].slots[i := p])]);
  }

  lemma {:induction false} LinkedArray(h: Header, objs: Heap, h': Header, ap: nat, q: nat)
    requires h' == h.(nEntryArrays := h'.nEntryArrays) && (ap == 0 || IsArray(objs, ap))
    ensures Spent(h, objs, h', if ap == 0 then objs else objs[ap := objs[ap].(next := q)], 0)
  {
    NothingSpent(h, objs, h', if ap == 0 then objs else objs[ap := objs[ap].(next := q)]);
  }

  lemma {:induction false} SmallerArray(n: nat, m: nat)
    requires n <= m
    ensures Align64(24 + 8 * n) <= Align64(24 + 8 * m)
  {
  }

  lemma {:induction false} LastWithin(objs: Heap, chain: seq<nat>)
    ensures LastCapacity(objs, chain) <= |Flat(objs, chain)|
  {
  }

  lemma {:induction false} AppendTiles(h: Header, h': Header, objs: Heap, objs': Heap, offs: seq<nat>, p: nat, o: Object)
    requires if offs == [] then objs == map[] && h.headerSize >= 240 && Valid64(h.headerSize) && h.nObjects == 0 && p == h.headerSize
             else Layout(h, objs, offs) && p == h.tailObjectOffset + Align64(Size(objs[h.tailObjectOffset]))
    requires objs' == objs[p := o]
    requires h' == h.(arenaSize := h'.arenaSize, tailObjectOffset := p, nObjects := h.nObjects + 1)
    requires p + Size(o) <= h'.headerSize + h'.arenaSize
    ensures Layout(h', objs', offs + [p])
    ensures p !in objs && p !in offs && p != 0 && forall q: nat :: q in objs ==> q < p
  {
    hide Size, Align64;
    if offs != [] {
      TailOffset(h, objs, offs);
    }
    var offs' := offs + [p];
    forall i, j | 0 <= i && j == i + 1 && j < |offs'| ensures offs'[j] == offs'[i] + Align64(Size(objs'[offs'[i]])) {
      assert offs'[i] in offs && offs[i] in objs && offs'[i] != p;
    }
  }
}
