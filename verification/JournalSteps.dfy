/** Each step of the writer keeps the global invariant (lib/journal-file.c). */
module JournalSteps {
  import opened JournalDef
  import opened EntryArrays
  import opened JournalView

  /** The objects differ at most in their link fields and in the contents of a hash table. */
  predicate SameCore(o: Object, o': Object) {
    match o
    case DataObject(hash, _, payload, _, entryOffset, entryArrayOffset, nEntries) =>
      o'.DataObject? && o'.hash == hash && o'.payload == payload && o'.entryOffset == entryOffset
      && o'.entryArrayOffset == entryArrayOffset && o'.nEntries == nEntries
    case FieldObject(hash, _, payload, _) => o'.FieldObject? && o'.hash == hash && o'.payload == payload
    case DataHashTable(table, slack) => o'.DataHashTable? && |o'.table| == |table| && o'.slack == slack
    case FieldHashTable(table, slack) => o'.FieldHashTable? && |o'.table| == |table| && o'.slack == slack
    case _ => o' == o
  }

  /** Only link fields of existing objects differ. */
  ghost predicate Relinked(objs: Heap, objs': Heap) {
    forall q :: q in objs ==> q in objs' && SameCore(objs[q], objs'[q])
  }

  lemma {:induction false} RelinkedKeeps(objs: Heap, objs': Heap)
    requires Relinked(objs, objs')
    ensures forall q, k :: Is(objs, q, k) ==> Is(objs', q, k)
    ensures forall q :: q in objs ==> Size(objs'[q]) == Size(objs[q])
    ensures forall q :: Is(objs, q, KEntry) || Is(objs, q, KEntryArray) ==> objs'[q] == objs[q]
    ensures forall q :: q in objs ==> HashAt(objs', q) == HashAt(objs, q) && PayloadAt(objs', q) == PayloadAt(objs, q)
    ensures forall q :: Is(objs, q, KData) ==> SameList(objs[q], objs'[q])
  {
  }

  /** Both data objects keep the same entry list. */
  predicate SameList(o: Object, o': Object) {
    && o.DataObject? && o'.DataObject?
    && o'.nEntries == o.nEntries && o'.entryOffset == o.entryOffset && o'.entryArrayOffset == o.entryArrayOffset
  }

  // ---------- a new data or field object ----------

  /** objs' has one more object, at p beyond all others; the others are relinked at most. */
  ghost predicate Grew(objs: Heap, objs': Heap, p: nat) {
    && p != 0
    && Relinked(objs, objs')
    && p !in objs && p in objs'
    && (forall q :: q in objs' ==> q == p || q in objs)
    && (forall q: nat :: q in objs ==> q < p)
    && (objs'[p].DataObject? ==> objs'[p].nEntries == 0 && objs'[p].entryOffset == 0 && objs'[p].entryArrayOffset == 0)
  }

  lemma {:induction false} GrewSelect(objs: Heap, objs': Heap, offs: seq<nat>, p: nat, kind: Kind)
    requires Grew(objs, objs', p) && p !in offs && forall q :: q in objs ==> q in offs
    ensures Select(objs', offs + [p], kind) == Select(objs, offs, kind) + if Is(objs', p, kind) then [p] else []
  {
    assert (offs + [p])[..|offs|] == offs;
    RelinkedKeeps(objs, objs');
    SelectFrame(objs, objs', offs, kind);
  }

  lemma {:induction false} RelinkedTables(h: Header, h': Header, objs: Heap, objs': Heap)
    requires Relinked(objs, objs')
    requires h.dataHashTableOffset >= HASH_TABLE_HEADER && h.fieldHashTableOffset >= HASH_TABLE_HEADER
    requires Is(objs, h.dataHashTableOffset - HASH_TABLE_HEADER, KDataHashTable)
    requires Is(objs, h.fieldHashTableOffset - HASH_TABLE_HEADER, KFieldHashTable)
    requires h'.dataHashTableOffset == h.dataHashTableOffset && h'.fieldHashTableOffset == h.fieldHashTableOffset
    ensures |DataTable(h', objs')| == |DataTable(h, objs)| && |FieldTable(h', objs')| == |FieldTable(h, objs)|
  {
  }

  lemma {:induction false} GrewNoSlack(objs: Heap, objs': Heap, p: nat)
    requires Grew(objs, objs', p) && NoSlack(objs)
    requires objs'[p].DataObject? || objs'[p].FieldObject? || (objs'[p].EntryObject? && objs'[p].slack == 0)
    ensures NoSlack(objs')
  {
  }

  /** The header fields that say where the tables are and what the file may contain. */
  predicate SameTableHeader(h: Header, h': Header) {
    && h'.dataHashTableOffset == h.dataHashTableOffset && h'.dataHashTableSize == h.dataHashTableSize
    && h'.fieldHashTableOffset == h.fieldHashTableOffset && h'.fieldHashTableSize == h.fieldHashTableSize
    && h'.compatibleFlags == h.compatibleFlags && h'.reservedIsZero == h.reservedIsZero
    && h'.nEntryArrays == h.nEntryArrays
  }

  lemma {:induction false} GrewTables(h: Header, h': Header, objs: Heap, objs': Heap, offs: seq<nat>, p: nat)
    requires Grew(objs, objs', p) && p !in offs && forall q :: q in objs ==> q in offs
    requires objs'[p].DataObject? || objs'[p].FieldObject? || (objs'[p].EntryObject? && objs'[p].slack == 0)
    requires TablesOk(h, objs, offs) && CountsOk(h, objs, offs) && NoSlack(objs)
    requires SameTableHeader(h, h')
    requires h'.nData == (if objs'[p].DataObject? then h.nData + 1 else h.nData)
    requires h'.nFields == if objs'[p].FieldObject? then h.nFields + 1 else h.nFields
    ensures TablesOk(h', objs', offs + [p]) && CountsOk(h', objs', offs + [p]) && NoSlack(objs')
  {
    hide Relinked, NoSlack, Select, TablesOk, DataTable, FieldTable;
    GrewNoSlack(objs, objs', p);
    GrewTablesOk(h, h', objs, objs', offs, p);
    GrewSelect(objs, objs', offs, p, KData);
    GrewSelect(objs, objs', offs, p, KField);
    GrewSelect(objs, objs', offs, p, KEntryArray);
  }

  lemma {:induction false} GrewTablesOk(h: Header, h': Header, objs: Heap, objs': Heap, offs: seq<nat>, p: nat)
    requires Grew(objs, objs', p) && p !in offs && forall q :: q in objs ==> q in offs
    requires !objs'[p].DataHashTable? && !objs'[p].FieldHashTable?
    requires TablesOk(h, objs, offs) && SameTableHeader(h, h')
    ensures TablesOk(h', objs', offs + [p])
  {
    hide Grew, Relinked, Select, DataTable, FieldTable;
    GrewSelect(objs, objs', offs, p, KDataHashTable);
    GrewSelect(objs, objs', offs, p, KFieldHashTable);
    GrewTableSizes(h, h', objs, objs', offs, p);
  }

  lemma {:induction false} GrewTableSizes(h: Header, h': Header, objs: Heap, objs': Heap, offs: seq<nat>, p: nat)
    requires Grew(objs, objs', p) && TablesOk(h, objs, offs) && SameTableHeader(h, h')
    ensures |DataTable(h', objs')| == |DataTable(h, objs)| && |FieldTable(h', objs')| == |FieldTable(h, objs)|
  {
    hide Relinked, Select, DataTable, FieldTable, Is;
    TableMembers(h, objs, offs);
    RelinkedTables(h, h', objs, objs');
  }

  lemma {:induction false} TableMembers(h: Header, objs: Heap, offs: seq<nat>)
    requires TablesOk(h, objs, offs)
    ensures Is(objs, h.dataHashTableOffset - HASH_TABLE_HEADER, KDataHashTable)
    ensures Is(objs, h.fieldHashTableOffset - HASH_TABLE_HEADER, KFieldHashTable)
  {
    assert Select(objs, offs, KDataHashTable)[0] == h.dataHashTableOffset - HASH_TABLE_HEADER;
    assert Select(objs, offs, KFieldHashTable)[0] == h.fieldHashTableOffset - HASH_TABLE_HEADER;
  }

  lemma {:induction false} GrewEntries(h: Header, h': Header, objs: Heap, objs': Heap, entries: seq<nat>, p: nat)
    requires Grew(objs, objs', p)
    requires EntriesOk(h, objs, entries)
    requires h'.headEntrySeqnum == h.headEntrySeqnum && h'.tailEntrySeqnum == h.tailEntrySeqnum
    requires h'.headEntryRealtime == h.headEntryRealtime && h'.tailEntryRealtime == h.tailEntryRealtime
    requires h'.tailEntryMonotonic == h.tailEntryMonotonic
    ensures EntriesOk(h', objs', entries)
  {
    RelinkedKeeps(objs, objs');
    forall i | 0 <= i < |entries| ensures EntryOk(objs', entries[i]) && objs'[entries[i]] == objs[entries[i]] {
      assert EntryOk(objs, entries[i]);
    }
  }

  lemma {:induction false} NoPostings(objs: Heap, entries: seq<nat>, p: nat)
    requires forall i :: 0 <= i < |entries| ==> EntryOk(objs, entries[i])
    requires !Is(objs, p, KData)
    ensures Postings(objs, entries, p) == []
  {
    if entries != [] {
      assert EntryOk(objs, entries[|entries| - 1]);
      NoPostings(objs, entries[..|entries| - 1], p);
    }
  }

  lemma {:induction false} ListHeldFrame(h: Header, h': Header, objs: Heap, objs': Heap, o: nat, chain: seq<nat>, list: seq<nat>)
    requires ListHeld(h, objs, o, chain, list)
    requires h'.nEntries == h.nEntries && h'.entryArrayOffset == h.entryArrayOffset
    requires forall a :: a in chain ==> a in objs' && objs'[a] == objs[a]
    requires o != MAIN ==> o in objs' && SameList(objs[o], objs'[o])
    ensures ListHeld(h', objs', o, chain, list)
  {
    var first := if o == MAIN then h.entryArrayOffset else objs[o].entryArrayOffset;
    HoldsFrame(objs, objs', first, chain, if o == MAIN then list else if list == [] then [] else list[1..]);
  }

  lemma {:induction false} ListHeldChain(h: Header, objs: Heap, o: nat, chain: seq<nat>, list: seq<nat>)
    requires ListHeld(h, objs, o, chain, list)
    ensures forall a :: a in chain ==> Is(objs, a, KEntryArray)
  {
  }

  lemma {:induction false} ArraysStillUsed(objs: Heap, objs': Heap, chains: map<nat, seq<nat>>, chains': map<nat, seq<nat>>)
    requires ArraysUsed(objs, chains)
    requires forall o :: o in chains && chains[o] != [] ==> o in chains' && chains'[o] == chains[o]
    requires forall a :: Is(objs', a, KEntryArray) ==> Is(objs, a, KEntryArray)
    ensures ArraysUsed(objs', chains')
  {
    forall a | Is(objs', a, KEntryArray) ensures exists o :: o in chains' && a in chains'[o] {
      var o :| o in chains && a in chains[o];
      assert a in chains'[o];
    }
  }

  lemma {:induction false} EmptyListHeld(h: Header, objs: Heap, d: nat)
    requires Is(objs, d, KData) && d != MAIN
    requires objs[d].nEntries == 0 && objs[d].entryOffset == 0 && objs[d].entryArrayOffset == 0
    ensures ListHeld(h, objs, d, [], [])
  {
  }

  lemma {:induction false} GrewLists(h: Header, h': Header, objs: Heap, objs': Heap,
                                     lists: map<nat, seq<nat>>, chains: map<nat, seq<nat>>, p: nat)
    requires Grew(objs, objs', p) && !objs'[p].EntryArray?
    requires ListsHeld(h, objs, lists, chains) && (objs'[p].DataObject? ==> p !in chains)
    requires h'.nEntries == h.nEntries && h'.entryArrayOffset == h.entryArrayOffset
    ensures var d := objs'[p].DataObject?;
            ListsHeld(h', objs', if d then lists[p := []] else lists, if d then chains[p := []] else chains)
  {
    hide ListHeld, ArraysUsed, Relinked;
    GrewKinds(objs, objs', p);
    var chains' := if objs'[p].DataObject? then chains[p := []] else chains;
    ArraysStillUsed(objs, objs', chains, chains');
    forall o | o in lists ensures ListHeld(h', objs', o, chains[o], lists[o]) {
      ListHeldChain(h, objs, o, chains[o], lists[o]);
      RelinkedList(objs, objs', o, chains[o]);
      ListHeldFrame(h, h', objs, objs', o, chains[o], lists[o]);
    }
    if objs'[p].DataObject? {
      EmptyListHeld(h', objs', p);
      OneMoreList(h', objs', lists, chains, p);
    }
  }

  lemma {:induction false} RelinkedList(objs: Heap, objs': Heap, o: nat, chain: seq<nat>)
    requires Relinked(objs, objs') && (forall a :: a in chain ==> Is(objs, a, KEntryArray)) && (o != MAIN ==> Is(objs, o, KData))
    ensures forall a :: a in chain ==> a in objs && a in objs' && objs'[a] == objs[a]
    ensures o != MAIN ==> o in objs && o in objs' && SameList(objs[o], objs'[o])
  {
  }

  lemma {:induction false} GrewKinds(objs: Heap, objs': Heap, p: nat)
    requires Grew(objs, objs', p)
    ensures forall q, k :: Is(objs', q, k) <==> (q == p && KindOf(objs'[p]) == k) || Is(objs, q, k)
  {
    RelinkedKeeps(objs, objs');
  }

  lemma {:induction false} OneMoreList(h: Header, objs: Heap, lists: map<nat, seq<nat>>, chains: map<nat, seq<nat>>, p: nat)
    requires MAIN in lists && p != MAIN && (forall o :: o in lists <==> o in chains)
    requires forall o :: o in lists || o == p <==> o == MAIN || Is(objs, o, KData)
    requires forall o :: o in lists ==> ListHeld(h, objs, o, chains[o], lists[o])
    requires ListHeld(h, objs, p, [], [])
    requires forall o, o', a :: o in chains && o' in chains && a in chains[o] && a in chains[o'] ==> o == o'
    requires ArraysUsed(objs, chains[p := []])
    ensures ListsHeld(h, objs, lists[p := []], chains[p := []])
  {
    hide ListHeld, ArraysUsed;
  }

  lemma {:induction false} ListsHeldKeys(h: Header, objs: Heap, lists: map<nat, seq<nat>>, chains: map<nat, seq<nat>>)
    requires ListsHeld(h, objs, lists, chains)
    ensures forall o :: o in lists <==> o == MAIN || Is(objs, o, KData)
    ensures forall o :: o in lists <==> o in chains
  {
  }

  lemma {:induction false} GrewIndex(h: Header, h': Header, objs: Heap, objs': Heap, entries: seq<nat>,
                                     lists: map<nat, seq<nat>>, arrays: map<nat, seq<nat>>, p: nat)
    requires Grew(objs, objs', p)
    requires objs'[p].DataObject? || objs'[p].FieldObject?
    requires EntriesOk(h, objs, entries) && IndexOk(h, objs, entries, lists, arrays)
    requires h'.nEntries == h.nEntries && h'.entryArrayOffset == h.entryArrayOffset
    ensures var data := objs'[p].DataObject?;
            IndexOk(h', objs', entries, if data then lists[p := []] else lists, if data then arrays[p := []] else arrays)
  {
    hide ListsHeld, ListHeld, Postings;
    ListsHeldKeys(h, objs, lists, arrays);
    GrewLists(h, h', objs, objs', lists, arrays, p);
    RelinkedKeeps(objs, objs');
    forall d | Is(objs', d, KData) ensures Postings(objs', entries, d) == if d == p then [] else lists[d] {
      PostingsFrame(objs, objs', entries, d);
      if d == p {
        NoPostings(objs, entries, p);
      }
    }
  }

  // ---------- the lists of data objects per field ----------

  /** Existing data and field objects keep their payloads and field links. */
  ghost predicate SameFields(objs: Heap, objs': Heap) {
    && (forall q :: Is(objs, q, KData) ==> Is(objs', q, KData) && NextFieldAt(objs', q) == NextFieldAt(objs, q) && PayloadAt(objs', q) == PayloadAt(objs, q))
    && (forall q :: Is(objs, q, KField) ==> Is(objs', q, KField) && HeadDataAt(objs', q) == HeadDataAt(objs, q) && PayloadAt(objs', q) == PayloadAt(objs, q))
  }

  lemma {:induction false} FieldListFrame(objs: Heap, objs': Heap, name: Payload, l: seq<nat>)
    requires FieldList(objs, name, l)
    requires forall i :: 0 <= i < |l| ==> Is(objs', l[i], KData) && NextFieldAt(objs', l[i]) == NextFieldAt(objs, l[i]) && PayloadAt(objs', l[i]) == PayloadAt(objs, l[i])
    ensures FieldList(objs', name, l)
  {
    hide FieldName;
  }

  lemma {:induction false} FieldHeadsSame(objs: Heap, objs': Heap, lists: map<Payload, seq<nat>>)
    requires FieldHeads(objs, lists) && SameFields(objs, objs')
    requires forall q :: Is(objs', q, KField) ==> Is(objs, q, KField)
    ensures FieldHeads(objs', lists)
  {
    hide FieldName, FieldList;
    forall n | n in lists ensures FieldList(objs', n, lists[n]) {
      FieldListSame(objs, objs', n, lists[n]);
    }
    FieldsRemain(objs, objs', lists);
  }

  lemma {:induction false} FieldListSame(objs: Heap, objs': Heap, name: Payload, l: seq<nat>)
    requires FieldList(objs, name, l) && SameFields(objs, objs')
    ensures FieldList(objs', name, l)
  {
    hide FieldName;
  }

  lemma {:induction false} FieldsRemain(objs: Heap, objs': Heap, lists: map<Payload, seq<nat>>)
    requires forall n :: n in lists ==> exists p :: Is(objs, p, KField) && PayloadAt(objs, p) == n
    requires forall q :: Is(objs, q, KField) ==> Is(objs', q, KField) && PayloadAt(objs', q) == PayloadAt(objs, q)
    ensures forall n :: n in lists ==> exists p :: Is(objs', p, KField) && PayloadAt(objs', p) == n
  {
    forall n | n in lists ensures exists q :: Is(objs', q, KField) && PayloadAt(objs', q) == n {
      var q :| Is(objs, q, KField) && PayloadAt(objs, q) == n;
      assert Is(objs', q, KField);
    }
  }

  lemma {:induction false} FieldCoverSame(objs: Heap, objs': Heap, lists: map<Payload, seq<nat>>, pending: set<nat>)
    requires FieldCover(objs, lists, pending) && SameFields(objs, objs')
    requires forall q :: Is(objs', q, KData) ==> Is(objs, q, KData)
    ensures FieldCover(objs', lists, pending)
  {
    hide FieldName;
  }

  lemma {:induction false} FieldListsSame(objs: Heap, objs': Heap, lists: map<Payload, seq<nat>>, pending: set<nat>)
    requires FieldLists(objs, lists, pending) && SameFields(objs, objs')
    requires forall q :: Is(objs', q, KData) ==> Is(objs, q, KData)
    requires forall q :: Is(objs', q, KField) ==> Is(objs, q, KField)
    ensures FieldLists(objs', lists, pending)
  {
    hide FieldHeads, FieldCover, SameFields;
    FieldHeadsSame(objs, objs', lists);
    FieldCoverSame(objs, objs', lists, pending);
  }

  lemma {:induction false} FieldListsNewData(objs: Heap, objs': Heap, lists: map<Payload, seq<nat>>, p: nat)
    requires FieldLists(objs, lists, {})
    requires SameFields(objs, objs') && !Is(objs, p, KData) && Is(objs', p, KData) && NextFieldAt(objs', p) == 0
    requires forall q :: Is(objs', q, KData) ==> q == p || Is(objs, q, KData)
    requires forall q :: Is(objs', q, KField) ==> Is(objs, q, KField)
    ensures FieldLists(objs', lists, {p})
  {
    hide FieldName;
    forall n | n in lists ensures p !in lists[n] {
      assert FieldList(objs, n, lists[n]);
    }
    hide FieldHeads;
    FieldHeadsSame(objs, objs', lists);
  }

  lemma {:induction false} FieldListsNewField(objs: Heap, objs': Heap, lists: map<Payload, seq<nat>>, pending: set<nat>, p: nat)
    requires FieldLists(objs, lists, pending)
    requires SameFields(objs, objs') && !Is(objs, p, KField) && Is(objs', p, KField) && HeadDataAt(objs', p) == 0
    requires forall q :: Is(objs', q, KField) ==> q == p || Is(objs, q, KField)
    requires forall q :: Is(objs', q, KData) ==> Is(objs, q, KData)
    requires forall q :: Is(objs, q, KField) ==> PayloadAt(objs, q) != PayloadAt(objs', p)
    requires PayloadAt(objs', p) != []
    ensures FieldLists(objs', lists[PayloadAt(objs', p) := []], pending)
  {
    hide FieldName, FieldList, SameFields;
    assert PayloadAt(objs', p) !in lists;
    hide FieldHeads;
    FieldHeadsNew(objs, objs', lists, p);
    FieldCoverSame(objs, objs', lists, pending);
    hide Is;
    assert FieldCover(objs', lists[PayloadAt(objs', p) := []], pending);
  }

  lemma {:induction false} FieldHeadsNew(objs: Heap, objs': Heap, lists: map<Payload, seq<nat>>, p: nat)
    requires FieldHeads(objs, lists)
    requires SameFields(objs, objs') && !Is(objs, p, KField) && Is(objs', p, KField) && HeadDataAt(objs', p) == 0
    requires forall q :: Is(objs', q, KField) ==> q == p || Is(objs, q, KField)
    requires PayloadAt(objs', p) != [] && PayloadAt(objs', p) !in lists
    ensures FieldHeads(objs', lists[PayloadAt(objs', p) := []])
  {
    var lists' := lists[PayloadAt(objs', p) := []];
    FieldsRemain(objs, objs', lists);
    forall n | n in lists' ensures FieldList(objs', n, lists'[n]) {
      if n in lists {
        FieldListSame(objs, objs', n, lists[n]);
      }
    }
    hide FieldList, FieldName;
    forall n | n in lists' ensures exists q :: Is(objs', q, KField) && PayloadAt(objs', q) == n {
      if n == PayloadAt(objs', p) {
        assert Is(objs', p, KField);
      }
    }
  }

  lemma {:induction false} FieldListPush(objs: Heap, objs': Heap, name: Payload, l: seq<nat>, d: nat)
    requires FieldList(objs, name, l)
    requires forall i :: 0 <= i < |l| ==> l[i] < d
    requires d != 0 && Is(objs', d, KData) && FieldName(PayloadAt(objs', d)) == Some(name) && NextFieldAt(objs', d) == LastOr0(l)
    requires forall i :: 0 <= i < |l| ==> Is(objs', l[i], KData) && NextFieldAt(objs', l[i]) == NextFieldAt(objs, l[i]) && PayloadAt(objs', l[i]) == PayloadAt(objs, l[i])
    ensures FieldList(objs', name, l + [d])
  {
    hide FieldName;
  }

  lemma {:induction false} FieldListsPush(objs: Heap, objs': Heap, lists: map<Payload, seq<nat>>, d: nat, fo: nat, name: Payload)
    requires FieldLists(objs, lists, {d}) && d != 0 && FieldName(PayloadAt(objs, d)) == Some(name)
    requires Is(objs, fo, KField) && PayloadAt(objs, fo) == name
    requires forall q, q' :: Is(objs, q, KField) && Is(objs, q', KField) && PayloadAt(objs, q) == PayloadAt(objs, q') ==> q == q'
    requires forall q: nat :: Is(objs, q, KData) ==> q <= d
    requires forall q :: Is(objs', q, KData) <==> Is(objs, q, KData)
    requires forall q :: Is(objs', q, KField) <==> Is(objs, q, KField)
    requires forall q :: Is(objs, q, KData) || Is(objs, q, KField) ==> PayloadAt(objs', q) == PayloadAt(objs, q)
    requires forall q: nat :: Is(objs, q, KData) ==> NextFieldAt(objs', q) == if q == d then HeadDataAt(objs, fo) else NextFieldAt(objs, q)
    requires forall q: nat :: Is(objs, q, KField) ==> HeadDataAt(objs', q) == if q == fo then d else HeadDataAt(objs, q)
    ensures name in lists && FieldLists(objs', lists[name := lists[name] + [d]], {})
  {
    FieldHeadsPush(objs, objs', lists, d, fo, name);
    hide FieldName, FieldHeads, FieldCover;
    FieldCoverPush(objs, objs', lists, d, name);
  }

  lemma {:induction false} FieldCoverPush(objs: Heap, objs': Heap, lists: map<Payload, seq<nat>>, d: nat, name: Payload)
    requires FieldCover(objs, lists, {d}) && name in lists && FieldName(PayloadAt(objs, d)) == Some(name)
    requires forall q :: Is(objs', q, KData) <==> Is(objs, q, KData)
    requires forall q :: Is(objs, q, KData) ==> PayloadAt(objs', q) == PayloadAt(objs, q)
    requires forall q :: Is(objs, q, KData) && q != d ==> NextFieldAt(objs', q) == NextFieldAt(objs, q)
    ensures FieldCover(objs', lists[name := lists[name] + [d]], {})
  {
    hide FieldName, PayloadAt, NextFieldAt, Is;
    var lists' := lists[name := lists[name] + [d]];
    assert lists'[name][|lists[name]|] == d;
    forall q | Is(objs', q, KData) && FieldName(PayloadAt(objs', q)).Some?
      ensures FieldName(PayloadAt(objs', q)).value in lists' && q in lists'[FieldName(PayloadAt(objs', q)).value]
    {
      assert q != d ==> q in lists[FieldName(PayloadAt(objs, q)).value];
    }
  }

  lemma {:induction false} FieldHeadsPush(objs: Heap, objs': Heap, lists: map<Payload, seq<nat>>, d: nat, fo: nat, name: Payload)
    requires FieldHeads(objs, lists) && d != 0 && Is(objs, d, KData) && FieldName(PayloadAt(objs, d)) == Some(name)
    requires forall n :: n in lists ==> d !in lists[n]
    requires Is(objs, fo, KField) && PayloadAt(objs, fo) == name
    requires forall q, q' :: Is(objs, q, KField) && Is(objs, q', KField) && PayloadAt(objs, q) == PayloadAt(objs, q') ==> q == q'
    requires forall q: nat :: Is(objs, q, KData) ==> q <= d
    requires forall q :: Is(objs', q, KData) <==> Is(objs, q, KData)
    requires forall q :: Is(objs', q, KField) <==> Is(objs, q, KField)
    requires forall q :: Is(objs, q, KData) || Is(objs, q, KField) ==> PayloadAt(objs', q) == PayloadAt(objs, q)
    requires forall q: nat :: Is(objs, q, KData) ==> NextFieldAt(objs', q) == if q == d then HeadDataAt(objs, fo) else NextFieldAt(objs, q)
    requires forall q: nat :: Is(objs, q, KField) ==> HeadDataAt(objs', q) == if q == fo then d else HeadDataAt(objs, q)
    ensures name in lists && FieldHeads(objs', lists[name := lists[name] + [d]])
  {
    hide FieldList, FieldName;
    var lists' := lists[name := lists[name] + [d]];
    forall n | n in lists' ensures FieldList(objs', n, lists'[n]) {
      FieldListBelow(objs, n, lists[n], d);
      if n == name {
        PushedList(objs, objs', n, lists[n], d);
      } else {
        OtherList(objs, objs', n, lists[n], d);
      }
    }
    FieldsRemain(objs, objs', lists);
  }

  lemma {:induction false} PushedList(objs: Heap, objs': Heap, name: Payload, l: seq<nat>, d: nat)
    requires FieldList(objs, name, l) && d != 0 && Is(objs, d, KData) && FieldName(PayloadAt(objs, d)) == Some(name)
    requires forall i :: 0 <= i < |l| ==> l[i] < d
    requires forall q :: Is(objs', q, KData) <==> Is(objs, q, KData)
    requires forall q :: Is(objs, q, KData) || Is(objs, q, KField) ==> PayloadAt(objs', q) == PayloadAt(objs, q)
    requires forall q: nat :: Is(objs, q, KData) ==> NextFieldAt(objs', q) == if q == d then LastOr0(l) else NextFieldAt(objs, q)
    ensures FieldList(objs', name, l + [d])
  {
    FieldListPush(objs, objs', name, l, d);
  }

  lemma {:induction false} OtherList(objs: Heap, objs': Heap, name: Payload, l: seq<nat>, d: nat)
    requires FieldList(objs, name, l)
    requires forall i :: 0 <= i < |l| ==> l[i] < d
    requires forall q :: Is(objs', q, KData) <==> Is(objs, q, KData)
    requires forall q :: Is(objs, q, KData) || Is(objs, q, KField) ==> PayloadAt(objs', q) == PayloadAt(objs, q)
    requires forall q: nat :: Is(objs, q, KData) && q != d ==> NextFieldAt(objs', q) == NextFieldAt(objs, q)
    ensures FieldList(objs', name, l)
  {
    FieldListFrame(objs, objs', name, l);
  }

  lemma {:induction false} FieldListBelow(objs: Heap, name: Payload, l: seq<nat>, d: nat)
    requires FieldList(objs, name, l) && d !in l
    requires forall q: nat :: Is(objs, q, KData) ==> q <= d
    ensures forall i :: 0 <= i < |l| ==> l[i] < d
  {
    hide FieldName;
    forall i | 0 <= i < |l| ensures l[i] < d {
      assert l[i] in l;
    }
  }

  lemma {:induction false} FieldListsUnnamed(objs: Heap, lists: map<Payload, seq<nat>>, d: nat)
    requires FieldLists(objs, lists, {d}) && FieldName(PayloadAt(objs, d)).None?
    ensures FieldLists(objs, lists, {})
  {
    hide FieldName;
  }

  // ---------- linking an object into its hash table ----------

  /** Object p became the tail of bucket b of the table at t; nothing else changed. */
  ghost predicate LinkedIn(objs: Heap, objs': Heap, kind: Kind, t: nat, b: nat, p: nat) {
    && Relinked(objs, objs') && SameFields(objs, objs')
    && (forall q :: q in objs' ==> q in objs)
    && b < |TableAt(objs, t)|
    && TableAt(objs', t) == TableAt(objs, t)[b := ItemAppended(TableAt(objs, t)[b], p)]
    && (forall q :: q != t ==> TableAt(objs', q) == TableAt(objs, q))
    && (forall q: nat :: Is(objs, q, kind) ==>
          NextHashAt(objs', q) == if q == TableAt(objs, t)[b].tail then p else NextHashAt(objs, q))
    && (forall q :: !Is(objs, q, kind) ==> NextHashAt(objs', q) == NextHashAt(objs, q))
  }

  lemma {:induction false} LinkFirst(objs: Heap, kind: Kind, t: nat, b: nat, p: nat)
    requires (kind == KData && Is(objs, t, KDataHashTable)) || (kind == KField && Is(objs, t, KFieldHashTable))
    requires b < |objs[t].table| && objs[t].table[b].tail == 0 && !Is(objs, 0, kind)
    ensures LinkedIn(objs, objs[t := objs[t].(table := objs[t].table[b := ItemAppended(objs[t].table[b], p)])], kind, t, b, p)
  {
  }

  lemma {:induction false} LinkBehind(objs: Heap, kind: Kind, t: nat, b: nat, p: nat)
    requires (kind == KData && Is(objs, t, KDataHashTable)) || (kind == KField && Is(objs, t, KFieldHashTable))
    requires b < |objs[t].table| && Is(objs, objs[t].table[b].tail, kind)
    ensures var tail := objs[t].table[b].tail;
            LinkedIn(objs, objs[tail := objs[tail].(nextHash := p)][t := objs[t].(table := objs[t].table[b := ItemAppended(objs[t].table[b], p)])], kind, t, b, p)
  {
    var tail := objs[t].table[b].tail;
    var objs1 := objs[tail := objs[tail].(nextHash := p)];
    var objs' := objs1[t := objs[t].(table := objs[t].table[b := ItemAppended(objs[t].table[b], p)])];
    assert Relinked(objs, objs');
    hide SameCore, Relinked;
    assert SameFields(objs, objs');
  }

  lemma {:induction false} LinkedKinds(objs: Heap, objs': Heap, kind: Kind, t: nat, b: nat, p: nat)
    requires LinkedIn(objs, objs', kind, t, b, p)
    ensures forall q, k :: Is(objs', q, k) <==> Is(objs, q, k)
  {
  }

  /** Appending o at p and linking it gives a heap grown by one object, with its hash index extended. */
  lemma {:induction false} AppendAndLink(H: HashFunction, objs: Heap, objsA: Heap, objs': Heap, kind: Kind,
                                         chains: seq<seq<nat>>, t: nat, b: nat, p: nat, o: Object)
    requires kind == KData || kind == KField
    requires HashIndex(H, objs, kind, TableAt(objs, t), chains)
    requires KindOf(o) == kind && o.nextHash == 0 && o.hash == H(o.payload)
    requires p != 0 && p !in objs && forall q: nat :: q in objs ==> q < p
    requires objsA == objs[p := o]
    requires LinkedIn(objsA, objs', kind, t, b, p)
    requires b < |TableAt(objs, t)| && b == BucketOf(o.hash, |TableAt(objs, t)|)
    requires forall q :: Is(objs, q, kind) ==> PayloadAt(objs, q) != o.payload
    ensures HashIndex(H, objs', kind, TableAt(objs', t), chains[b := chains[b] + [p]])
  {
    hide BucketChain;
    LinkedKinds(objsA, objs', kind, t, b, p);
    assert TableAt(objsA, t) == TableAt(objs, t);
    assert NextHashAt(objs', p) == 0 by {
      TailBelow(objs, kind, TableAt(objs, t), chains, b, p);
    }
    HashChainsAppend(objs, objs', kind, TableAt(objs, t), chains, p, b);
  }

  lemma {:induction false} TailBelow(objs: Heap, kind: Kind, table: seq<HashItem>, chains: seq<seq<nat>>, b: nat, p: nat)
    requires HashChains(objs, kind, table, chains) && b < |table|
    requires p != 0 && forall q: nat :: q in objs ==> q < p
    ensures table[b].tail != p
  {
    assert BucketChain(objs, kind, |table|, b, table[b], chains[b]);
  }

  lemma {:induction false} AppendedGrew(objs: Heap, objsA: Heap, objs': Heap, kind: Kind, t: nat, b: nat, p: nat, o: Object)
    requires p != 0 && p !in objs && forall q: nat :: q in objs ==> q < p
    requires objsA == objs[p := o] && LinkedIn(objsA, objs', kind, t, b, p)
    requires o.DataObject? ==> o.nEntries == 0 && o.entryOffset == 0 && o.entryArrayOffset == 0
    ensures Grew(objs, objs', p) && SameFields(objs, objs')
    ensures KindOf(objs'[p]) == KindOf(o) && PayloadAt(objs', p) == PayloadAt(objsA, p)
    ensures NextFieldAt(objs', p) == NextFieldAt(objsA, p) && HeadDataAt(objs', p) == HeadDataAt(objsA, p)
    ensures forall q, k :: q != p ==> (Is(objs', q, k) <==> Is(objs, q, k))
  {
    LinkedKinds(objsA, objs', kind, t, b, p);
    assert SameCore(o, objs'[p]);
    forall q | q in objs ensures q in objs' && SameCore(objs[q], objs'[q]) {
      assert objsA[q] == objs[q];
    }
  }

  lemma {:induction false} LayoutFrame(h: Header, h': Header, objs: Heap, objs': Heap, offs: seq<nat>)
    requires Layout(h, objs, offs) && objs'.Keys == objs.Keys
    requires forall q :: q in objs ==> Size(objs'[q]) == Size(objs[q])
    requires h'.headerSize == h.headerSize && h'.arenaSize == h.arenaSize
    requires h'.tailObjectOffset == h.tailObjectOffset && h'.nObjects == h.nObjects
    ensures Layout(h', objs', offs)
  {
    hide Size;
  }

  /** The fields of the header that only append_entry changes. */
  predicate SameEntryHeader(h: Header, h': Header) {
    && h'.nEntries == h.nEntries && h'.entryArrayOffset == h.entryArrayOffset
    && h'.headEntrySeqnum == h.headEntrySeqnum && h'.tailEntrySeqnum == h.tailEntrySeqnum
    && h'.headEntryRealtime == h.headEntryRealtime && h'.tailEntryRealtime == h.tailEntryRealtime
    && h'.tailEntryMonotonic == h.tailEntryMonotonic && h'.bootId == h.bootId
  }

  /** The view after object p was appended and, if it is a data object, given an empty entry list. */
  function ViewWith(v: View, p: nat, data: bool): View {
    v.(offs := v.offs + [p],
       lists := if data then v.lists[p := []] else v.lists,
       arrays := if data then v.arrays[p := []] else v.arrays)
  }

  /** All parts of the invariant that do not depend on hash chains or field lists. */
  lemma {:induction false} GrewKeeps(H: HashFunction, h: Header, h': Header, objs: Heap, objs': Heap, v: View, pending: set<nat>, p: nat)
    requires WellBuilt(H, h, objs, v, pending)
    requires Grew(objs, objs', p) && p !in v.offs
    requires objs'[p].DataObject? || objs'[p].FieldObject?
    requires h' == h.(arenaSize := h'.arenaSize, tailObjectOffset := h'.tailObjectOffset, nObjects := h'.nObjects,
                      nData := if objs'[p].DataObject? then h.nData + 1 else h.nData,
                      nFields := if objs'[p].FieldObject? then h.nFields + 1 else h.nFields)
    ensures var v' := ViewWith(v, p, objs'[p].DataObject?);
            && TablesOk(h', objs', v'.offs) && CountsOk(h', objs', v'.offs) && NoSlack(objs')
            && Entries(objs', v') == Entries(objs, v)
            && EntriesOk(h', objs', Entries(objs', v')) && IndexOk(h', objs', Entries(objs', v'), v'.lists, v'.arrays)
  {
    hide TablesOk, CountsOk, NoSlack, EntriesOk, IndexOk, HashIndex, FieldLists, Relinked;
    assert forall q :: q in objs ==> q in v.offs;
    assert SameEntryHeader(h, h');
    GrewTables(h, h', objs, objs', v.offs, p);
    GrewEntries(h, h', objs, objs', Entries(objs, v), p);
    GrewSelect(objs, objs', v.offs, p, KEntry);
    GrewIndex(h, h', objs, objs', Entries(objs, v), v.lists, v.arrays, p);
  }

  predicate GrownHeader(h: Header, h': Header, kind: Kind) {
    h' == h.(arenaSize := h'.arenaSize, tailObjectOffset := h'.tailObjectOffset, nObjects := h'.nObjects,
             nData := if kind == KData then h.nData + 1 else h.nData,
             nFields := if kind == KField then h.nFields + 1 else h.nFields)
  }

  lemma {:induction false} DataTableAt(h: Header, objs: Heap, t: nat)
    requires t + HASH_TABLE_HEADER == h.dataHashTableOffset && Is(objs, t, KDataHashTable)
    ensures DataTable(h, objs) == TableAt(objs, t)
  {
  }

  lemma {:induction false} FieldTableAt(h: Header, objs: Heap, t: nat)
    requires t + HASH_TABLE_HEADER == h.fieldHashTableOffset && Is(objs, t, KFieldHashTable)
    ensures FieldTable(h, objs) == TableAt(objs, t)
  {
  }

  lemma {:induction false} TableOffsets(h: Header, objs: Heap, offs: seq<nat>)
    requires TablesOk(h, objs, offs)
    ensures Is(objs, h.dataHashTableOffset - HASH_TABLE_HEADER, KDataHashTable)
    ensures Is(objs, h.fieldHashTableOffset - HASH_TABLE_HEADER, KFieldHashTable)
  {
    assert h.dataHashTableOffset - HASH_TABLE_HEADER in Select(objs, offs, KDataHashTable);
    assert h.fieldHashTableOffset - HASH_TABLE_HEADER in Select(objs, offs, KFieldHashTable);
  }

  /** A new data object, appended and linked into the data hash table, leaves only its field link pending. */
  lemma {:induction false} NewDataKeeps(H: HashFunction, h: Header, h': Header, objs: Heap, objsA: Heap, objs': Heap,
                                        v: View, v': View, t: nat, b: nat, p: nat, o: Object)
    requires WellBuilt(H, h, objs, v, {})
    requires t + HASH_TABLE_HEADER == h.dataHashTableOffset
    requires o.DataObject? && o == DataObject(H(o.payload), 0, o.payload, 0, 0, 0, 0)
    requires p != 0 && p !in objs && forall q: nat :: q in objs ==> q < p
    requires objsA == objs[p := o] && LinkedIn(objsA, objs', KData, t, b, p)
    requires b < |TableAt(objs, t)| && b == BucketOf(o.hash, |TableAt(objs, t)|)
    requires forall q :: Is(objs, q, KData) ==> PayloadAt(objs, q) != o.payload
    requires GrownHeader(h, h', KData) && p !in v.offs && Layout(h', objs', v.offs + [p])
    requires b < |v.dataChains| && v' == ViewWith(v, p, true).(dataChains := v.dataChains[b := v.dataChains[b] + [p]])
    ensures WellBuilt(H, h', objs', v', {p})
    ensures Entries(objs', v') == Entries(objs, v) && Relinked(objs, objs')
  {
    hide Layout, TablesOk, CountsOk, NoSlack, FieldLists, EntriesOk, IndexOk, HashIndex, LinkedIn;
    TableOffsets(h, objs, v.offs);
    AppendedGrew(objs, objsA, objs', KData, t, b, p, o);
    GrewKeeps(H, h, h', objs, objs', v, {}, p);
    var ft := h.fieldHashTableOffset - HASH_TABLE_HEADER;
    TablesLinked(objs, objsA, objs', KData, t, b, p, o, ft);
    DataTableAt(h, objs, t); DataTableAt(h', objs', t);
    FieldTableAt(h, objs, ft); FieldTableAt(h', objs', ft);
    AppendAndLink(H, objs, objsA, objs', KData, v.dataChains, t, b, p, o);
    OtherHashIndex(H, objs, objsA, objs', KData, KField, FieldTable(h, objs), v.fieldChains, t, b, p, o);
    FieldListsNewData(objs, objs', v.fieldLists, p);
  }

  lemma {:induction false} TablesLinked(objs: Heap, objsA: Heap, objs': Heap, kind: Kind, t: nat, b: nat, p: nat, o: Object, t2: nat)
    requires objsA == objs[p := o] && p !in objs && LinkedIn(objsA, objs', kind, t, b, p)
    requires t in objs && t2 in objs && t2 != t
    ensures TableAt(objs', t2) == TableAt(objs, t2)
    ensures forall k :: Is(objs', t, k) <==> Is(objs, t, k)
    ensures forall k :: Is(objs', t2, k) <==> Is(objs, t2, k)
  {
    LinkedKinds(objsA, objs', kind, t, b, p);
    assert TableAt(objsA, t2) == TableAt(objs, t2);
  }

  lemma {:induction false} OtherHashIndex(H: HashFunction, objs: Heap, objsA: Heap, objs': Heap, kind: Kind, other: Kind,
                                          table: seq<HashItem>, chains: seq<seq<nat>>, t: nat, b: nat, p: nat, o: Object)
    requires (kind == KData && other == KField) || (kind == KField && other == KData)
    requires HashIndex(H, objs, other, table, chains)
    requires KindOf(o) == kind && p !in objs && objsA == objs[p := o] && LinkedIn(objsA, objs', kind, t, b, p)
    ensures HashIndex(H, objs', other, table, chains)
  {
    hide HashChains, UniquePayloads;
    LinkedKinds(objsA, objs', kind, t, b, p);
    RelinkedKeeps(objsA, objs');
    assert forall q :: Is(objs, q, other) ==> objsA[q] == objs[q];
    HashIndexFrame(H, objs, objs', other, table, chains);
  }

  /** A new field object, appended and linked into the field hash table. */
  lemma {:induction false} NewFieldKeeps(H: HashFunction, h: Header, h': Header, objs: Heap, objsA: Heap, objs': Heap,
                                         v: View, v': View, pending: set<nat>, t: nat, b: nat, p: nat, o: Object)
    requires WellBuilt(H, h, objs, v, pending)
    requires t + HASH_TABLE_HEADER == h.fieldHashTableOffset
    requires o.FieldObject? && o == FieldObject(H(o.payload), 0, o.payload, 0) && o.payload != []
    requires p != 0 && p !in objs && forall q: nat :: q in objs ==> q < p
    requires objsA == objs[p := o] && LinkedIn(objsA, objs', KField, t, b, p)
    requires b < |TableAt(objs, t)| && b == BucketOf(o.hash, |TableAt(objs, t)|)
    requires forall q :: Is(objs, q, KField) ==> PayloadAt(objs, q) != o.payload
    requires GrownHeader(h, h', KField) && p !in v.offs && Layout(h', objs', v.offs + [p])
    requires b < |v.fieldChains|
    requires v' == ViewWith(v, p, false).(fieldChains := v.fieldChains[b := v.fieldChains[b] + [p]],
                                          fieldLists := v.fieldLists[o.payload := []])
    ensures WellBuilt(H, h', objs', v', pending)
    ensures Entries(objs', v') == Entries(objs, v) && Relinked(objs, objs')
  {
    hide Layout, TablesOk, CountsOk, NoSlack, FieldLists, EntriesOk, IndexOk, HashIndex, LinkedIn;
    TableOffsets(h, objs, v.offs);
    AppendedGrew(objs, objsA, objs', KField, t, b, p, o);
    GrewKeeps(H, h, h', objs, objs', v, pending, p);
    var dt := h.dataHashTableOffset - HASH_TABLE_HEADER;
    TablesLinked(objs, objsA, objs', KField, t, b, p, o, dt);
    FieldTableAt(h, objs, t); FieldTableAt(h', objs', t);
    DataTableAt(h, objs, dt); DataTableAt(h', objs', dt);
    AppendAndLink(H, objs, objsA, objs', KField, v.fieldChains, t, b, p, o);
    OtherHashIndex(H, objs, objsA, objs', KField, KData, DataTable(h, objs), v.dataChains, t, b, p, o);
    FieldListsNewField(objs, objs', v.fieldLists, pending, p);
  }

  /** Field object fo takes data object d as the head of its list. */
  function PushField(objs: Heap, d: nat, fo: nat): Heap {
    if Is(objs, d, KData) && Is(objs, fo, KField)
    then objs[d := objs[d].(nextField := objs[fo].headData)][fo := objs[fo].(headData := d)] else objs
  }

  lemma {:induction false} PushFieldKeeps(H: HashFunction, h: Header, objs: Heap, v: View, d: nat, fo: nat, name: Payload)
    requires WellBuilt(H, h, objs, v, {d}) && d != 0 && Is(objs, d, KData) && FieldName(PayloadAt(objs, d)) == Some(name)
    requires Is(objs, fo, KField) && PayloadAt(objs, fo) == name
    requires forall q: nat :: Is(objs, q, KData) ==> q <= d
    ensures name in v.fieldLists
    ensures WellBuilt(H, h, PushField(objs, d, fo), v.(fieldLists := v.fieldLists[name := v.fieldLists[name] + [d]]), {})
    ensures Entries(PushField(objs, d, fo), v) == Entries(objs, v) && Relinked(objs, PushField(objs, d, fo))
  {
    hide FieldName, Layout, TablesOk, CountsOk, NoSlack, FieldLists, EntriesOk, ListsHeld, Postings, HashChains;
    var objs' := PushField(objs, d, fo);
    assert forall q, k :: Is(objs', q, k) <==> Is(objs, q, k);
    FieldListsPush(objs, objs', v.fieldLists, d, fo, name);
    TableOffsets(h, objs, v.offs);
    HashIndexFrame(H, objs, objs', KData, DataTable(h, objs), v.dataChains);
    HashIndexFrame(H, objs, objs', KField, FieldTable(h, objs), v.fieldChains);
    hide HashIndex;
    LayoutFrame(h, h, objs, objs', v.offs);
    RelinkedTables(h, h, objs, objs');
    RelinkedLists(h, objs, objs', v.lists, v.arrays);
    RelinkedRest(h, objs, objs', v);
  }

  lemma {:induction false} RelinkedLists(h: Header, objs: Heap, objs': Heap, lists: map<nat, seq<nat>>, chains: map<nat, seq<nat>>)
    requires Relinked(objs, objs') && objs'.Keys == objs.Keys
    requires ListsHeld(h, objs, lists, chains)
    ensures ListsHeld(h, objs', lists, chains)
  {
    hide ListHeld, ArraysUsed;
    RelinkedKeeps(objs, objs');
    assert forall q, k :: Is(objs', q, k) <==> Is(objs, q, k);
    ArraysStillUsed(objs, objs', chains, chains);
    forall o | o in lists ensures ListHeld(h, objs', o, chains[o], lists[o]) {
      ListHeldChain(h, objs, o, chains[o], lists[o]);
      ListHeldFrame(h, h, objs, objs', o, chains[o], lists[o]);
    }
  }

  lemma {:induction false} RelinkedRest(h: Header, objs: Heap, objs': Heap, v: View)
    requires Relinked(objs, objs') && objs'.Keys == objs.Keys
    requires TablesOk(h, objs, v.offs) && CountsOk(h, objs, v.offs) && NoSlack(objs)
    requires EntriesOk(h, objs, Entries(objs, v)) && IndexOk(h, objs, Entries(objs, v), v.lists, v.arrays) && ListsHeld(h, objs', v.lists, v.arrays)
    requires |DataTable(h, objs')| == |DataTable(h, objs)| && |FieldTable(h, objs')| == |FieldTable(h, objs)|
    ensures TablesOk(h, objs', v.offs) && CountsOk(h, objs', v.offs) && NoSlack(objs')
    ensures Entries(objs', v) == Entries(objs, v)
    ensures EntriesOk(h, objs', Entries(objs', v)) && IndexOk(h, objs', Entries(objs', v), v.lists, v.arrays)
  {
    hide Select, ListsHeld, Postings, EntriesOk, DataTable, FieldTable;
    RelinkedKeeps(objs, objs');
    assert forall q, k :: Is(objs', q, k) <==> Is(objs, q, k);
    forall k ensures Select(objs', v.offs, k) == Select(objs, v.offs, k) {
      SelectFrame(objs, objs', v.offs, k);
    }
    RelinkedEntries(h, objs, objs', Entries(objs, v));
    assert NoSlack(objs');
    forall d | Is(objs', d, KData) ensures d in v.lists && v.lists[d] == Postings(objs', Entries(objs, v), d) {
      ListsHeldKeys(h, objs', v.lists, v.arrays);
      PostingsFrame(objs, objs', Entries(objs, v), d);
    }
  }

  lemma {:induction false} RelinkedEntries(h: Header, objs: Heap, objs': Heap, entries: seq<nat>)
    requires Relinked(objs, objs') && EntriesOk(h, objs, entries)
    ensures EntriesOk(h, objs', entries)
  {
    RelinkedKeeps(objs, objs');
    forall i | 0 <= i < |entries| ensures EntryOk(objs', entries[i]) && objs'[entries[i]] == objs[entries[i]] {
      assert EntryOk(objs, entries[i]);
    }
  }
}
