/** Linking an entry into the main list and into the lists of its data objects (lib/journal-file.c). */
module JournalLinking {
  import opened JournalDef
  import opened EntryArrays
  import opened JournalView
  import opened JournalSteps

  /** The chain grew by one slot, possibly by one array; all other objects are as before. */
  ghost predicate ArrayStep(h: Header, h': Header, objs: Heap, objs': Heap, offs: seq<nat>, offs': seq<nat>, chain: seq<nat>, chain': seq<nat>) {
    && (forall q :: q in objs ==> q in objs' && (q !in chain ==> objs'[q] == objs[q]))
    && (forall q :: q in chain ==> Is(objs, q, KEntryArray) && Is(objs', q, KEntryArray) && objs'[q].slack == objs[q].slack)
    && (forall q :: q in objs' && q !in objs ==> Is(objs', q, KEntryArray) && objs'[q].slack == 0)
    && Layout(h', objs', offs')
    && (if chain' == chain then offs' == offs && objs'.Keys == objs.Keys
        else |chain'| == |chain| + 1 && chain' == chain + [chain'[|chain|]] && chain'[|chain|] !in objs
             && objs'.Keys == objs.Keys + {chain'[|chain|]} && offs' == offs + [chain'[|chain|]])
    && h' == h.(arenaSize := h'.arenaSize, tailObjectOffset := h'.tailObjectOffset, nObjects := h'.nObjects,
                nEntryArrays := h.nEntryArrays + |chain'| - |chain|)
  }

  /** The objects differ at most in their entry list: a data object's list fields, an array's slots and link. */
  predicate SameButList(o: Object, o': Object) {
    match o
    case DataObject(hash, nextHash, payload, nextField, _, _, _) =>
      o'.DataObject? && o'.hash == hash && o'.nextHash == nextHash && o'.payload == payload && o'.nextField == nextField
    case EntryArray(_, _, slack) => o'.EntryArray? && o'.slack == slack
    case _ => o' == o
  }

  ghost predicate Relisted(objs: Heap, objs': Heap, offs: seq<nat>, offs': seq<nat>) {
    && (forall q :: q in objs ==> q in objs' && SameButList(objs[q], objs'[q]))
    && (forall q :: q in objs' && q !in objs ==> Is(objs', q, KEntryArray) && objs'[q].slack == 0)
    && (forall q :: q in objs' ==> q in offs')
    && (forall q :: q in objs ==> q in offs) && (forall q :: q in offs ==> q in objs)
    && (offs' == offs || (|offs'| == |offs| + 1 && offs' == offs + [offs'[|offs|]] && Is(objs', offs'[|offs|], KEntryArray)))
  }

  lemma {:induction false} ArrayStepRelists(h: Header, h': Header, objs: Heap, objs': Heap, offs: seq<nat>, offs': seq<nat>, chain: seq<nat>, chain': seq<nat>)
    requires ArrayStep(h, h', objs, objs', offs, offs', chain, chain') && Layout(h, objs, offs)
    ensures Relisted(objs, objs', offs, offs')
  {
  }

  lemma {:induction false} RelistedKeeps(objs: Heap, objs': Heap, offs: seq<nat>, offs': seq<nat>)
    requires Relisted(objs, objs', offs, offs')
    ensures forall q, k :: k != KEntryArray ==> (Is(objs', q, k) <==> Is(objs, q, k))
    ensures forall q :: q in objs && !Is(objs, q, KEntryArray) && !Is(objs, q, KData) ==> objs'[q] == objs[q]
    ensures forall q :: HashAt(objs', q) == HashAt(objs, q) && PayloadAt(objs', q) == PayloadAt(objs, q)
    ensures forall q :: NextHashAt(objs', q) == NextHashAt(objs, q)
    ensures forall q :: NextFieldAt(objs', q) == NextFieldAt(objs, q) && HeadDataAt(objs', q) == HeadDataAt(objs, q)
    ensures forall q :: ItemsAt(objs', q) == ItemsAt(objs, q)
  {
  }

  lemma {:induction false} RelistedSelect(objs: Heap, objs': Heap, offs: seq<nat>, offs': seq<nat>, k: Kind)
    requires Relisted(objs, objs', offs, offs')
    ensures k != KEntryArray ==> Select(objs', offs', k) == Select(objs, offs, k)
    ensures |Select(objs', offs', KEntryArray)| == |Select(objs, offs, KEntryArray)| + |offs'| - |offs|
  {
    hide SameButList;
    RelistedKinds(objs, objs', offs, offs');
    SelectFrame(objs, objs', offs, k);
    SelectFrame(objs, objs', offs, KEntryArray);
    if offs' != offs {
      assert offs'[..|offs'| - 1] == offs;
    }
  }

  lemma {:induction false} RelistedKinds(objs: Heap, objs': Heap, offs: seq<nat>, offs': seq<nat>)
    requires Relisted(objs, objs', offs, offs')
    ensures forall q, k :: q in objs ==> (Is(objs', q, k) <==> Is(objs, q, k))
  {
  }

  lemma {:induction false} RelistedFields(objs: Heap, objs': Heap, offs: seq<nat>, offs': seq<nat>, lists: map<Payload, seq<nat>>, pending: set<nat>)
    requires Relisted(objs, objs', offs, offs') && FieldLists(objs, lists, pending)
    ensures FieldLists(objs', lists, pending)
  {
    hide FieldLists, Relisted;
    RelistedKeeps(objs, objs', offs, offs');
    FieldListsSame(objs, objs', lists, pending);
  }

  lemma {:induction false} RelistedEntries(h: Header, h': Header, objs: Heap, objs': Heap, offs: seq<nat>, offs': seq<nat>, entries: seq<nat>)
    requires Relisted(objs, objs', offs, offs') && EntriesOk(h, objs, entries)
    requires h'.headEntrySeqnum == h.headEntrySeqnum && h'.tailEntrySeqnum == h.tailEntrySeqnum
    requires h'.headEntryRealtime == h.headEntryRealtime && h'.tailEntryRealtime == h.tailEntryRealtime
    requires h'.tailEntryMonotonic == h.tailEntryMonotonic
    ensures EntriesOk(h', objs', entries)
  {
    hide Relisted;
    RelistedKeeps(objs, objs', offs, offs');
    forall i | 0 <= i < |entries| ensures EntryOk(objs', entries[i]) && objs'[entries[i]] == objs[entries[i]] {
      assert EntryOk(objs, entries[i]);
    }
  }

  lemma {:induction false} RelistedTableContents(h: Header, h': Header, objs: Heap, objs': Heap, offs: seq<nat>, offs': seq<nat>)
    requires Relisted(objs, objs', offs, offs')
    requires h'.dataHashTableOffset == h.dataHashTableOffset && h'.fieldHashTableOffset == h.fieldHashTableOffset
    ensures DataTable(h', objs') == DataTable(h, objs) && FieldTable(h', objs') == FieldTable(h, objs)
  {
    hide Relisted;
    RelistedKeeps(objs, objs', offs, offs');
  }

  lemma {:induction false} RelistedSlack(objs: Heap, objs': Heap, offs: seq<nat>, offs': seq<nat>)
    requires Relisted(objs, objs', offs, offs') && NoSlack(objs)
    ensures NoSlack(objs')
  {
  }

  lemma {:induction false} RelistedTables(h: Header, h': Header, objs: Heap, objs': Heap, offs: seq<nat>, offs': seq<nat>)
    requires Relisted(objs, objs', offs, offs')
    requires TablesOk(h, objs, offs) && CountsOk(h, objs, offs) && NoSlack(objs)
    requires h' == h.(arenaSize := h'.arenaSize, tailObjectOffset := h'.tailObjectOffset, nObjects := h'.nObjects,
                      nEntryArrays := h.nEntryArrays + |offs'| - |offs|,
                      nEntries := h'.nEntries, entryArrayOffset := h'.entryArrayOffset)
    ensures TablesOk(h', objs', offs') && CountsOk(h', objs', offs') && NoSlack(objs')
    ensures DataTable(h', objs') == DataTable(h, objs) && FieldTable(h', objs') == FieldTable(h, objs)
  {
    hide Select, Relisted, NoSlack, DataTable, FieldTable;
    RelistedSlack(objs, objs', offs, offs');
    RelistedTableContents(h, h', objs, objs', offs, offs');
    RelistedSelect(objs, objs', offs, offs', KData);
    RelistedSelect(objs, objs', offs, offs', KField);
    RelistedSelect(objs, objs', offs, offs', KDataHashTable);
    RelistedSelect(objs, objs', offs, offs', KFieldHashTable);
  }

  lemma {:induction false} RelistedHash(H: HashFunction, objs: Heap, objs': Heap, offs: seq<nat>, offs': seq<nat>, kind: Kind,
                                        table: seq<HashItem>, chains: seq<seq<nat>>)
    requires kind == KData || kind == KField
    requires Relisted(objs, objs', offs, offs') && HashIndex(H, objs, kind, table, chains)
    ensures HashIndex(H, objs', kind, table, chains)
  {
    hide Relisted, HashIndex;
    RelistedKeeps(objs, objs', offs, offs');
    HashIndexFrame(H, objs, objs', kind, table, chains);
  }

  /** Work on entry lists does not disturb the rest of the invariant. */
  lemma {:induction false} RelistedBase(H: HashFunction, h: Header, h': Header, objs: Heap, objs': Heap, v: View, v': View)
    requires Base(H, h, objs, v, {})
    requires Relisted(objs, objs', v.offs, v'.offs) && Layout(h', objs', v'.offs)
    requires h' == h.(arenaSize := h'.arenaSize, tailObjectOffset := h'.tailObjectOffset, nObjects := h'.nObjects,
                      nEntryArrays := h.nEntryArrays + |v'.offs| - |v.offs|,
                      nEntries := h'.nEntries, entryArrayOffset := h'.entryArrayOffset)
    requires v' == v.(offs := v'.offs, lists := v'.lists, arrays := v'.arrays)
    ensures Base(H, h', objs', v', {}) && Entries(objs', v') == Entries(objs, v)
  {
    hide Relisted, Layout, TablesOk, CountsOk, NoSlack, HashIndex, FieldLists, EntriesOk, Select;
    RelistedTables(h, h', objs, objs', v.offs, v'.offs);
    RelistedHash(H, objs, objs', v.offs, v'.offs, KData, DataTable(h, objs), v.dataChains);
    RelistedHash(H, objs, objs', v.offs, v'.offs, KField, FieldTable(h, objs), v.fieldChains);
    RelistedFields(objs, objs', v.offs, v'.offs, v.fieldLists, {});
    RelistedSelect(objs, objs', v.offs, v'.offs, KEntry);
    RelistedEntries(h, h', objs, objs', v.offs, v'.offs, Entries(objs, v));
  }

  // ---------- one more item on one list ----------

  /** One list takes one more item; the lists of all other owners are untouched. */
  lemma {:induction false} ListsStep(h: Header, h': Header, objs: Heap, objs': Heap, lists: map<nat, seq<nat>>, chains: map<nat, seq<nat>>,
                                     o: nat, chain': seq<nat>, p: nat)
    requires ListsHeld(h, objs, lists, chains) && o in lists
    requires forall q :: q in objs && q != o && q !in chains[o] ==> q in objs' && objs'[q] == objs[q]
    requires forall q :: Is(objs', q, KData) <==> Is(objs, q, KData)
    requires ListHeld(h', objs', o, chain', lists[o] + [p])
    requires forall a :: a in chain' ==> a in chains[o] || a !in objs
    requires chains[o] <= chain'
    requires forall a :: Is(objs', a, KEntryArray) ==> Is(objs, a, KEntryArray) || a in chain'
    requires o != MAIN ==> h'.nEntries == h.nEntries && h'.entryArrayOffset == h.entryArrayOffset
    ensures ListsHeld(h', objs', lists[o := lists[o] + [p]], chains[o := chain'])
  {
    hide ListHeld, ArraysUsed;
    ArraysUsedStep(objs, objs', chains, o, chain');
    forall o' | o' in lists && o' != o ensures ListHeld(h', objs', o', chains[o'], lists[o']) {
      OtherListHeld(h, h', objs, objs', lists, chains, o, o');
    }
    forall o', a | o' in chains && o' != o && a in chains[o'] ensures a !in chain' {
      ListHeldChain(h, objs, o', chains[o'], lists[o']);
    }
  }

  lemma {:induction false} ArraysUsedStep(objs: Heap, objs': Heap, chains: map<nat, seq<nat>>, o: nat, chain': seq<nat>)
    requires ArraysUsed(objs, chains) && o in chains && chains[o] <= chain'
    requires forall a :: Is(objs', a, KEntryArray) ==> Is(objs, a, KEntryArray) || a in chain'
    ensures ArraysUsed(objs', chains[o := chain'])
  {
    var chains' := chains[o := chain'];
    forall a | Is(objs', a, KEntryArray) ensures exists o' :: o' in chains' && a in chains'[o'] {
      if a in chain' {
        assert a in chains'[o];
      } else {
        var o' :| o' in chains && a in chains[o'];
        assert o' != o;
        assert a in chains'[o'];
      }
    }
  }

  lemma {:induction false} OtherListHeld(h: Header, h': Header, objs: Heap, objs': Heap, lists: map<nat, seq<nat>>, chains: map<nat, seq<nat>>,
                                         o: nat, o': nat)
    requires ListsHeld(h, objs, lists, chains) && o in lists && o' in lists && o' != o
    requires forall q :: q in objs && q != o && q !in chains[o] ==> q in objs' && objs'[q] == objs[q]
    requires o != MAIN ==> h'.nEntries == h.nEntries && h'.entryArrayOffset == h.entryArrayOffset
    ensures ListHeld(h', objs', o', chains[o'], lists[o'])
  {
    assert ListHeld(h, objs, o', chains[o'], lists[o']);
    assert ListHeld(h, objs, o, chains[o], lists[o]);
    ListHeldChain(h, objs, o', chains[o'], lists[o']);
    ListHeldChain(h, objs, o, chains[o], lists[o]);
    ListHeldOwner(h, objs, o', chains[o'], lists[o']);
    ListHeldOwner(h, objs, o, chains[o], lists[o]);
    hide ListHeld;
    forall a | a in chains[o'] ensures a in objs' && objs'[a] == objs[a] {
      assert a !in chains[o];
      assert o != MAIN ==> a != o;
      assert Is(objs, a, KEntryArray);
      assert o == MAIN ==> a != MAIN;
    }
    if o' == MAIN {
      MainListFrame(h, h', objs, objs', chains[o'], lists[o']);
    } else {
      DataListFrame(h, h', objs, objs', o', chains[o'], lists[o']);
    }
  }

  lemma {:induction false} ListHeldOwner(h: Header, objs: Heap, o: nat, chain: seq<nat>, list: seq<nat>)
    requires ListHeld(h, objs, o, chain, list)
    ensures o != MAIN ==> Is(objs, o, KData)
    ensures MAIN !in chain
  {
  }

  lemma {:induction false} MainListFrame(h: Header, h': Header, objs: Heap, objs': Heap, chain: seq<nat>, list: seq<nat>)
    requires ListHeld(h, objs, MAIN, chain, list)
    requires h'.nEntries == h.nEntries && h'.entryArrayOffset == h.entryArrayOffset
    requires forall a :: a in chain ==> a in objs' && objs'[a] == objs[a]
    ensures ListHeld(h', objs', MAIN, chain, list)
  {
    HoldsFrame(objs, objs', h.entryArrayOffset, chain, list);
  }

  lemma {:induction false} DataListFrame(h: Header, h': Header, objs: Heap, objs': Heap, o: nat, chain: seq<nat>, list: seq<nat>)
    requires o != MAIN && ListHeld(h, objs, o, chain, list)
    requires forall a :: a in chain ==> a in objs' && objs'[a] == objs[a]
    requires o in objs' && objs'[o] == objs[o]
    ensures ListHeld(h', objs', o, chain, list)
  {
    HoldsFrame(objs, objs', objs[o].entryArrayOffset, chain, if list == [] then [] else list[1..]);
  }

  /** Data objects without an entry are all among the items. */
  ghost predicate UsedBut(objs: Heap, entries: seq<nat>, items: seq<EntryItem>) {
    forall d :: Is(objs, d, KData) ==> Postings(objs, entries, d) != [] || Count(items, d) > 0
  }

  lemma {:induction false} UsedWith(objs: Heap, objs': Heap, entries: seq<nat>, items: seq<EntryItem>, p: nat)
    requires UsedBut(objs, entries, items)
    requires forall e :: e in entries ==> ItemsAt(objs', e) == ItemsAt(objs, e)
    requires forall d :: Is(objs', d, KData) ==> Is(objs, d, KData)
    requires ItemsAt(objs', p) == items
    ensures AllUsed(objs', entries + [p])
  {
    hide Count;
    forall d | Is(objs', d, KData) ensures Postings(objs', entries + [p], d) != [] {
      PostingsFrame(objs, objs', entries, d);
      assert (entries + [p])[..|entries|] == entries;
    }
  }

  // ---------- what is recorded ----------

  /** Nothing recorded was lost or altered. */
  ghost predicate SameContent(objs: Heap, objs': Heap) {
    && (forall q :: Is(objs, q, KEntry) ==> q in objs' && objs'[q] == objs[q])
    && (forall q :: Is(objs, q, KData) ==> Is(objs', q, KData) && PayloadAt(objs', q) == PayloadAt(objs, q) && HashAt(objs', q) == HashAt(objs, q))
  }

  lemma SameContentRefl(objs: Heap)
    ensures SameContent(objs, objs)
  {
  }

  lemma {:induction false} SameContentAt(objs: Heap, objs': Heap, d: nat)
    requires SameContent(objs, objs') && Is(objs, d, KData)
    ensures Is(objs', d, KData) && PayloadAt(objs', d) == PayloadAt(objs, d) && HashAt(objs', d) == HashAt(objs, d)
  {
  }

  lemma {:induction false} SameContentEntry(objs: Heap, objs': Heap, p: nat)
    requires SameContent(objs, objs') && Is(objs, p, KEntry)
    ensures p in objs' && objs'[p] == objs[p]
  {
  }

  lemma {:induction false} SameContentTrans(objs: Heap, objs1: Heap, objs2: Heap)
    requires SameContent(objs, objs1) && SameContent(objs1, objs2)
    ensures SameContent(objs, objs2)
  {
  }

  lemma {:induction false} RelinkedContent(objs: Heap, objs': Heap)
    requires Relinked(objs, objs')
    ensures SameContent(objs, objs')
  {
  }

  lemma {:induction false} RelistedContent(objs: Heap, objs': Heap, offs: seq<nat>, offs': seq<nat>)
    requires Relisted(objs, objs', offs, offs')
    ensures SameContent(objs, objs')
  {
  }

  datatype LogEntry = LogEntry(seqnum: nat, realtime: nat, monotonic: nat, bootId: nat, fields: multiset<Payload>)

  /** The payloads the items refer to. */
  function FieldsOf(objs: Heap, items: seq<EntryItem>): multiset<Payload> {
    if items == [] then multiset{}
    else FieldsOf(objs, items[..|items| - 1]) + multiset{PayloadAt(objs, items[|items| - 1].objectOffset)}
  }

  function LogEntryAt(objs: Heap, p: nat): LogEntry {
    LogEntry(SeqnumAt(objs, p), RealtimeAt(objs, p), MonotonicAt(objs, p), BootAt(objs, p), FieldsOf(objs, ItemsAt(objs, p)))
  }

  /** What the file records, as its readers see it. */
  function Log(objs: Heap, entries: seq<nat>): seq<LogEntry> {
    seq(|entries|, i requires 0 <= i < |entries| => LogEntryAt(objs, entries[i]))
  }

  lemma {:induction false} FieldsFrame(objs: Heap, objs': Heap, items: seq<EntryItem>)
    requires SameContent(objs, objs')
    requires forall i :: 0 <= i < |items| ==> Is(objs, items[i].objectOffset, KData)
    ensures FieldsOf(objs', items) == FieldsOf(objs, items)
  {
    if items != [] {
      FieldsFrame(objs, objs', items[..|items| - 1]);
    }
  }

  lemma {:induction false} LogFrame(objs: Heap, objs': Heap, entries: seq<nat>)
    requires SameContent(objs, objs')
    requires forall i :: 0 <= i < |entries| ==> EntryOk(objs, entries[i])
    ensures Log(objs', entries) == Log(objs, entries)
  {
    forall i | 0 <= i < |entries| ensures LogEntryAt(objs', entries[i]) == LogEntryAt(objs, entries[i]) {
      FieldsFrame(objs, objs', ItemsAt(objs, entries[i]));
    }
  }

  // ---------- the items of one entry ----------

  /** The first k items of the entry at p are linked: its data objects list it that often already. */
  ghost predicate IndexPartial(objs: Heap, entries: seq<nat>, items: seq<EntryItem>, p: nat, k: nat, lists: map<nat, seq<nat>>)
    requires k <= |items|
  {
    forall d :: Is(objs, d, KData) ==> d in lists && lists[d] == Postings(objs, entries, d) + Repeat(p, Count(items[..k], d))
  }

  lemma {:induction false} PartialStart(objs: Heap, objs': Heap, entries: seq<nat>, items: seq<EntryItem>, p: nat, lists: map<nat, seq<nat>>)
    requires forall d :: Is(objs', d, KData) ==> Is(objs, d, KData) && d in lists && lists[d] == Postings(objs, entries, d)
    requires forall e :: e in entries ==> ItemsAt(objs', e) == ItemsAt(objs, e)
    ensures IndexPartial(objs', entries, items, p, 0, lists)
  {
    forall d | Is(objs', d, KData) ensures lists[d] == Postings(objs', entries, d) + Repeat(p, Count(items[..0], d)) {
      PostingsFrame(objs, objs', entries, d);
    }
  }

  lemma {:induction false} CountStep(items: seq<EntryItem>, k: nat, d: nat)
    requires k < |items|
    ensures Count(items[..k + 1], d) == Count(items[..k], d) + if items[k].objectOffset == d then 1 else 0
  {
    assert items[..k + 1][..k] == items[..k];
  }

  lemma {:induction false} RepeatStep(p: nat, c: nat)
    ensures Repeat(p, c + 1) == Repeat(p, c) + [p]
  {
  }

  lemma {:induction false} PartialStep(objs: Heap, objs': Heap, entries: seq<nat>, items: seq<EntryItem>, p: nat, k: nat,
                                       lists: map<nat, seq<nat>>, lists': map<nat, seq<nat>>)
    requires k < |items| && IndexPartial(objs, entries, items, p, k, lists)
    requires forall d :: Is(objs', d, KData) <==> Is(objs, d, KData)
    requires forall e :: e in entries ==> ItemsAt(objs', e) == ItemsAt(objs, e)
    requires var d := items[k].objectOffset; d in lists && lists' == lists[d := lists[d] + [p]]
    ensures IndexPartial(objs', entries, items, p, k + 1, lists')
  {
    hide Count, Postings, Repeat;
    forall d | Is(objs', d, KData) ensures d in lists' && lists'[d] == Postings(objs', entries, d) + Repeat(p, Count(items[..k + 1], d)) {
      PostingsFrame(objs, objs', entries, d);
      CountStep(items, k, d);
      RepeatStep(p, Count(items[..k], d));
    }
  }

  lemma {:induction false} PartialEnd(objs: Heap, entries: seq<nat>, items: seq<EntryItem>, p: nat, lists: map<nat, seq<nat>>)
    requires IndexPartial(objs, entries, items, p, |items|, lists)
    requires ItemsAt(objs, p) == items
    ensures forall d :: Is(objs, d, KData) ==> d in lists && lists[d] == Postings(objs, entries + [p], d)
  {
    assert items[..|items|] == items;
    assert (entries + [p])[..|entries|] == entries;
  }
}
