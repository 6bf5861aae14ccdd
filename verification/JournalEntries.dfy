/** Appending an entry object (lib/journal-file.c). */
module JournalEntries {
  import opened JournalDef
  import opened JournalView
  import opened JournalSteps
  import opened JournalLinking

  // ---------- the items of an entry, by position on disk ----------

  predicate SortedItems(s: seq<EntryItem>) {
    forall i, j :: 0 <= i < j < |s| ==> s[i].objectOffset <= s[j].objectOffset
  }

  function InsertItem(x: EntryItem, s: seq<EntryItem>): seq<EntryItem> {
    if s == [] || s[|s| - 1].objectOffset <= x.objectOffset then s + [x]
    else InsertItem(x, s[..|s| - 1]) + [s[|s| - 1]]
  }

  /** Stands for qsort() with entry_item_cmp. */
  function SortItems(s: seq<EntryItem>): seq<EntryItem> {
    if s == [] then [] else InsertItem(s[|s| - 1], SortItems(s[..|s| - 1]))
  }

  lemma {:induction false} InsertMembers(x: EntryItem, s: seq<EntryItem>)
    ensures |InsertItem(x, s)| == |s| + 1
    ensures forall i :: 0 <= i <= |s| ==> InsertItem(x, s)[i] == x || InsertItem(x, s)[i] in s
    ensures SortedItems(s) ==> SortedItems(InsertItem(x, s))
    ensures multiset(InsertItem(x, s)) == multiset(s) + multiset{x}
  {
    if !(s == [] || s[|s| - 1].objectOffset <= x.objectOffset) {
      var front := s[..|s| - 1];
      assert s == front + [s[|s| - 1]];
      InsertMembers(x, front);
      assert forall y :: y in front ==> y in s;
      if SortedItems(s) {
        assert SortedItems(front);
        var r := InsertItem(x, front);
        forall i | 0 <= i < |r| ensures r[i].objectOffset <= s[|s| - 1].objectOffset {
          if r[i] != x {
            var j :| 0 <= j < |front| && front[j] == r[i];
          }
        }
      }
    }
  }

  lemma {:induction false} SortMembers(s: seq<EntryItem>)
    ensures |SortItems(s)| == |s|
    ensures forall i :: 0 <= i < |s| ==> SortItems(s)[i] in s
    ensures SortedItems(SortItems(s)) && multiset(SortItems(s)) == multiset(s)
  {
    if s != [] {
      var front := s[..|s| - 1];
      assert s == front + [s[|s| - 1]];
      SortMembers(front);
      InsertMembers(s[|s| - 1], SortItems(front));
      assert forall y :: y in front ==> y in s;
    }
  }

  lemma {:induction false} CountInsert(x: EntryItem, s: seq<EntryItem>, d: nat)
    ensures Count(InsertItem(x, s), d) == Count(s, d) + if x.objectOffset == d then 1 else 0
  {
    if s != [] {
      var front, last := s[..|s| - 1], s[|s| - 1];
      if last.objectOffset <= x.objectOffset {
        var r := s + [x];
        assert r[..|r| - 1] == s;
      } else {
        CountInsert(x, front, d);
        var r := InsertItem(x, front) + [last];
        assert r[..|r| - 1] == InsertItem(x, front);
      }
    }
  }

  lemma {:induction false} CountSorted(s: seq<EntryItem>, d: nat)
    ensures Count(SortItems(s), d) == Count(s, d)
  {
    if s != [] {
      CountSorted(s[..|s| - 1], d);
      CountInsert(s[|s| - 1], SortItems(s[..|s| - 1]), d);
    }
  }

  lemma {:induction false} FieldsOfInsert(objs: Heap, x: EntryItem, s: seq<EntryItem>)
    ensures FieldsOf(objs, InsertItem(x, s)) == FieldsOf(objs, s) + multiset{PayloadAt(objs, x.objectOffset)}
  {
    if s != [] {
      var front, last := s[..|s| - 1], s[|s| - 1];
      if last.objectOffset <= x.objectOffset {
        var r := s + [x];
        assert r[..|r| - 1] == s;
      } else {
        FieldsOfInsert(objs, x, front);
        var r := InsertItem(x, front);
        var r' := r + [last];
        assert r'[..|r'| - 1] == r;
      }
    }
  }

  lemma {:induction false} FieldsOfSorted(objs: Heap, s: seq<EntryItem>)
    ensures FieldsOf(objs, SortItems(s)) == FieldsOf(objs, s)
  {
    if s != [] {
      FieldsOfSorted(objs, s[..|s| - 1]);
      FieldsOfInsert(objs, s[|s| - 1], SortItems(s[..|s| - 1]));
    }
  }

  /** Bitwise exclusive or. */
  function Xor64(a: nat, b: nat): nat
    decreases a + b
  {
    if a == 0 && b == 0 then 0 else (a + b) % 2 + 2 * Xor64(a / 2, b / 2)
  }

  /** The combined hash of all fields of an entry. */
  function XorOf(H: HashFunction, fields: seq<Payload>): nat {
    if fields == [] then 0 else Xor64(XorOf(H, fields[..|fields| - 1]), H(fields[|fields| - 1]))
  }

  /** The lowest bit, and the others. */
  lemma {:induction false} XorHalves(a: nat, b: nat)
    ensures Xor64(a, b) % 2 == (a + b) % 2 && Xor64(a, b) / 2 == Xor64(a / 2, b / 2)
  {
  }

  lemma {:induction false} XorZero()
    ensures Xor64(0, 0) == 0
  {
  }

  lemma {:induction false} Parity(x: nat, y: nat, z: nat)
    ensures (x % 2 == y % 2) ==> (x + z) % 2 == (y + z) % 2
  {
  }

  lemma {:induction false} Halves(x: nat, y: nat)
    ensures x + y > 0 ==> x / 2 + y / 2 < x + y
  {
  }

  /** The order does not matter. */
  lemma {:induction false} XorSwap(a: nat, b: nat, c: nat)
    ensures Xor64(Xor64(a, b), c) == Xor64(Xor64(a, c), b)
    decreases a + b + c
  {
    hide Xor64;
    if a + b + c > 0 {
      XorHalves(a, b);
      XorHalves(a, c);
      XorHalves(Xor64(a, b), c);
      XorHalves(Xor64(a, c), b);
      Parity(Xor64(a, b), a + b, c);
      Parity(Xor64(a, c), a + c, b);
      XorSwap(a / 2, b / 2, c / 2);
      SameHalves(Xor64(Xor64(a, b), c), Xor64(Xor64(a, c), b));
    } else {
      XorZero();
    }
  }

  lemma {:induction false} SameHalves(x: nat, y: nat)
    requires x % 2 == y % 2 && x / 2 == y / 2
    ensures x == y
  {
  }

  /** What is there twice is not there. */
  lemma {:induction false} XorTwice(a: nat, b: nat)
    ensures Xor64(Xor64(a, b), b) == a
    decreases a + b
  {
    hide Xor64;
    if a + b > 0 {
      XorHalves(a, b);
      XorHalves(Xor64(a, b), b);
      Parity(Xor64(a, b), a + b, b);
      Parity(a, a + b + b, 0);
      Halves(a, b);
      XorTwice(a / 2, b / 2);
      SameHalves(Xor64(Xor64(a, b), b), a);
    } else {
      XorZero();
    }
  }

  /** The hash of an entry does not depend on the order of two fields next to each other, nor on a field that is there twice. */
  lemma {:induction false} XorOfNeighbours(H: HashFunction, fields: seq<Payload>, x: Payload, y: Payload)
    ensures XorOf(H, fields + [x] + [y]) == XorOf(H, fields + [y] + [x])
    ensures XorOf(H, fields + [x] + [x]) == XorOf(H, fields)
  {
    hide Xor64;
    XorOfMore(H, fields, x);
    XorOfMore(H, fields, y);
    XorOfMore(H, fields + [x], y);
    XorOfMore(H, fields + [y], x);
    XorOfMore(H, fields + [x], x);
    XorSwap(XorOf(H, fields), H(x), H(y));
    XorTwice(XorOf(H, fields), H(x));
  }

  lemma {:induction false} XorOfMore(H: HashFunction, fields: seq<Payload>, x: Payload)
    ensures XorOf(H, fields + [x]) == Xor64(XorOf(H, fields), H(x))
  {
    assert (fields + [x])[..|fields|] == fields;
  }

  function XorAt(objs: Heap, p: nat): nat {
    if Is(objs, p, KEntry) then objs[p].xorHash else 0
  }

  // ---------- the entry object ----------

  /** The header once an entry with these times is linked. */
  function Timed(h: Header, realtime: nat, monotonic: nat): Header {
    h.(headEntryRealtime := if h.headEntryRealtime == 0 then realtime else h.headEntryRealtime,
       tailEntryRealtime := realtime, tailEntryMonotonic := monotonic)
  }

  /** The header once a sequence number was drawn. */
  function Numbered(h: Header, seqnum: nat): Header {
    h.(tailEntrySeqnum := seqnum, headEntrySeqnum := if h.headEntrySeqnum == 0 then seqnum else h.headEntrySeqnum)
  }

  lemma {:induction false} NewEntryOk(h: Header, h': Header, objs: Heap, objs': Heap, entries: seq<nat>, p: nat, e: Object)
    requires EntriesOk(h, objs, entries)
    requires p !in objs && objs' == objs[p := e] && e.EntryObject? && e.slack == 0
    requires forall i :: 0 <= i < |e.items| ==>
               Is(objs, e.items[i].objectOffset, KData) && HashAt(objs, e.items[i].objectOffset) == e.items[i].hash
    requires e.seqnum > h.tailEntrySeqnum || (entries == [] && e.seqnum > 0)
    requires entries != [] && BootAt(objs, entries[|entries| - 1]) == e.bootId ==> h.tailEntryMonotonic <= e.monotonic
    requires h'.headEntrySeqnum == Numbered(h, e.seqnum).headEntrySeqnum && h'.tailEntrySeqnum == e.seqnum
    requires h'.headEntryRealtime == Timed(h, e.realtime, e.monotonic).headEntryRealtime
    requires h'.tailEntryRealtime == e.realtime && h'.tailEntryMonotonic == e.monotonic
    ensures EntriesOk(h', objs', entries + [p])
  {
    var entries' := entries + [p];
    forall i | 0 <= i < |entries'| ensures EntryOk(objs', entries'[i]) {
      if i < |entries| {
        assert EntryOk(objs, entries[i]);
      }
    }
    forall i | 0 <= i < |entries| ensures entries[i] != p && objs'[entries'[i]] == objs[entries[i]] {
      assert EntryOk(objs, entries[i]);
    }
    forall i | 0 <= i < |entries| ensures SeqnumAt(objs, entries[i]) < e.seqnum {
      assert i < |entries| - 1 ==> SeqnumAt(objs, entries[i]) < SeqnumAt(objs, entries[|entries| - 1]);
    }
  }

  lemma {:induction false} NewEntryLists(h: Header, h': Header, objs: Heap, objs': Heap, lists: map<nat, seq<nat>>, chains: map<nat, seq<nat>>, p: nat, e: Object)
    requires ListsHeld(h, objs, lists, chains)
    requires p !in objs && objs' == objs[p := e] && e.EntryObject?
    requires h'.nEntries == h.nEntries && h'.entryArrayOffset == h.entryArrayOffset
    ensures ListsHeld(h', objs', lists, chains)
  {
    hide ListHeld, ArraysUsed;
    ArraysStillUsed(objs, objs', chains, chains);
    forall o | o in lists ensures ListHeld(h', objs', o, chains[o], lists[o]) {
      ListHeldChain(h, objs, o, chains[o], lists[o]);
      ListHeldFrame(h, h', objs, objs', o, chains[o], lists[o]);
    }
  }

  /** Appending the entry object leaves only its links to be made. */
  lemma {:induction false} NewEntryKeeps(H: HashFunction, h: Header, h': Header, objs: Heap, objs': Heap, v: View, p: nat, e: Object)
    requires WellBuilt(H, h, objs, v, {})
    requires p != 0 && p !in objs && p !in v.offs && forall q: nat :: q in objs ==> q < p
    requires objs' == objs[p := e] && e.EntryObject? && e.slack == 0
    requires forall i :: 0 <= i < |e.items| ==>
               Is(objs, e.items[i].objectOffset, KData) && HashAt(objs, e.items[i].objectOffset) == e.items[i].hash
    requires Entries(objs, v) != [] ==> e.seqnum > h.tailEntrySeqnum
    requires e.seqnum > 0
    requires Entries(objs, v) != [] && BootAt(objs, Entries(objs, v)[|Entries(objs, v)| - 1]) == e.bootId ==> h.tailEntryMonotonic <= e.monotonic
    requires h' == Timed(Numbered(h, e.seqnum), e.realtime, e.monotonic)
                     .(arenaSize := h'.arenaSize, tailObjectOffset := h'.tailObjectOffset, nObjects := h'.nObjects)
    requires Layout(h', objs', v.offs + [p])
    ensures var v' := v.(offs := v.offs + [p]);
            && Base(H, h', objs', v', {}) && ListsHeld(h', objs', v.lists, v.arrays)
            && Entries(objs', v') == Entries(objs, v) + [p]
            && IndexPartial(objs', Entries(objs, v), e.items, p, 0, v.lists)
            && SameContent(objs, objs')
  {
    hide Layout, TablesOk, CountsOk, NoSlack, FieldLists, EntriesOk, HashIndex, Select, ListsHeld, IndexPartial, Postings;
    NewEntryGrew(objs, objs', p, e);
    hide Grew, SameContent, SameFields;
    LayoutKeys(h, objs, v.offs);
    GrewTables(h, h', objs, objs', v.offs, p);
    GrewSelect(objs, objs', v.offs, p, KEntry);
    NewEntryOk(h, h', objs, objs', Entries(objs, v), p, e);
    NewEntryLists(h, h', objs, objs', v.lists, v.arrays, p, e);
    FieldListsSame(objs, objs', v.fieldLists, {});
    TableOffsets(h, objs, v.offs);
    NewEntryHash(H, objs, objs', KData, DataTable(h, objs), v.dataChains, p, e);
    NewEntryHash(H, objs, objs', KField, FieldTable(h, objs), v.fieldChains, p, e);
    ListsHeldKeys(h, objs, v.lists, v.arrays);
    PartialStart(objs, objs', Entries(objs, v), e.items, p, v.lists);
  }

  lemma {:induction false} LayoutKeys(h: Header, objs: Heap, offs: seq<nat>)
    requires Layout(h, objs, offs)
    ensures (forall q :: q in objs ==> q in offs) && (forall q :: q in offs ==> q in objs)
  {
  }

  lemma {:induction false} NewEntryGrew(objs: Heap, objs': Heap, p: nat, e: Object)
    requires p != 0 && p !in objs && forall q: nat :: q in objs ==> q < p
    requires objs' == objs[p := e] && e.EntryObject?
    ensures Grew(objs, objs', p) && SameFields(objs, objs') && SameContent(objs, objs')
    ensures forall q, k :: k != KEntry ==> (Is(objs', q, k) <==> Is(objs, q, k))
    ensures forall h: Header :: DataTable(h, objs') == DataTable(h, objs)
    ensures forall h: Header :: FieldTable(h, objs') == FieldTable(h, objs)
  {
  }

  lemma {:induction false} NewEntryHash(H: HashFunction, objs: Heap, objs': Heap, kind: Kind, table: seq<HashItem>, chains: seq<seq<nat>>, p: nat, e: Object)
    requires kind == KData || kind == KField
    requires HashIndex(H, objs, kind, table, chains)
    requires p !in objs && objs' == objs[p := e] && e.EntryObject?
    ensures HashIndex(H, objs', kind, table, chains)
  {
    hide HashIndex;
    HashIndexFrame(H, objs, objs', kind, table, chains);
  }
}
