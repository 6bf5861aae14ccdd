/** The first pass of the offline checker: all objects in file order (src/journalctl/journal-verify.c). */
module JournalVerifyScan {
  import opened JournalDef
  import opened JournalView
  import opened JournalVerifySpec

  method VerifyTable(table: seq<HashItem>) returns (ok: bool)
    ensures ok <==> TableOk(table)
  {
    var i := 0;
    while i < |table|
      invariant 0 <= i <= |table|
      invariant forall b :: 0 <= b < i ==> HashItemOk(table[b])
    {
      if table[i].head != 0 && !Valid64(table[i].head) {
        return false;
      }
      if table[i].tail != 0 && !Valid64(table[i].tail) {
        return false;
      }
      if (table[i].head != 0) != (table[i].tail != 0) {
        return false;
      }
      i := i + 1;
    }
    ok := true;
  }

  method VerifyObject(H: HashFunction, o: Object) returns (ok: bool)
    ensures ok <==> ObjectOk(H, o)
  {
    match o
    case DataObject(hash, nextHash, payload, nextField, entryOffset, entryArrayOffset, nEntries) =>
      if (entryOffset == 0) != (nEntries == 0) {
        return false;
      }
      if |payload| == 0 {
        return false;
      }
      if hash != H(payload) {
        return false;
      }
      ok := Valid64(nextHash) && Valid64(nextField) && Valid64(entryOffset) && Valid64(entryArrayOffset);
    case FieldObject(_, nextHash, payload, headData) =>
      if |payload| == 0 {
        return false;
      }
      ok := Valid64(nextHash) && Valid64(headData);
    case EntryObject(seqnum, realtime, monotonic, _, _, items, slack) =>
      if slack != 0 || |items| == 0 || seqnum == 0 || !ValidRealtime(realtime) || !ValidMonotonic(monotonic) {
        return false;
      }
      var i := 0;
      while i < |items|
        invariant 0 <= i <= |items|
        invariant forall j :: 0 <= j < i ==> items[j].objectOffset != 0 && Valid64(items[j].objectOffset)
      {
        if items[i].objectOffset == 0 || !Valid64(items[i].objectOffset) {
          return false;
        }
        i := i + 1;
      }
      ok := true;
    case DataHashTable(table, slack) =>
      if slack != 0 || |table| == 0 {
        return false;
      }
      ok := VerifyTable(table);
    case FieldHashTable(table, slack) =>
      if slack != 0 || |table| == 0 {
        return false;
      }
      ok := VerifyTable(table);
    case EntryArray(next, slots, slack) =>
      if slack != 0 || |slots| == 0 || !Valid64(next) {
        return false;
      }
      var i := 0;
      while i < |slots|
        invariant 0 <= i <= |slots|
        invariant forall j :: 0 <= j < i ==> Valid64(slots[j])
      {
        if slots[i] != 0 && !Valid64(slots[i]) {
          return false;
        }
        i := i + 1;
      }
      ok := true;
    case OtherObject(_) =>
      ok := true;
  }

  // ---------- what the pass checks at each object ----------

  ghost predicate EntryStepOk(h: Header, objs: Heap, entries: seq<nat>, p: nat) {
    && (entries == [] ==> SeqnumAt(objs, p) == h.headEntrySeqnum && RealtimeAt(objs, p) == h.headEntryRealtime)
    && (entries != [] ==> SeqnumAt(objs, Last(entries)) < SeqnumAt(objs, p))
    && (entries != [] && BootAt(objs, Last(entries)) == BootAt(objs, p) ==> MonotonicAt(objs, Last(entries)) <= MonotonicAt(objs, p))
  }

  ghost predicate DataTableStepOk(h: Header, objs: Heap, tables: seq<nat>, p: nat) {
    |tables| <= 1 && h.dataHashTableOffset == p + HASH_TABLE_HEADER && h.dataHashTableSize == 16 * |TableAt(objs, p)|
  }

  ghost predicate FieldTableStepOk(h: Header, objs: Heap, tables: seq<nat>, p: nat) {
    |tables| <= 1 && h.fieldHashTableOffset == p + HASH_TABLE_HEADER && h.fieldHashTableSize == 16 * |TableAt(objs, p)|
  }

  /** The checks of the pass at object p, after the objects of `prefix`. */
  ghost predicate StepOk(H: HashFunction, h: Header, objs: Heap, prefix: seq<nat>, p: nat) {
    && p in objs && Valid64(p) && p <= h.tailObjectOffset && ObjectOk(H, objs[p])
    && (Is(objs, p, KEntry) ==> EntryStepOk(h, objs, Select(objs, prefix, KEntry), p))
    && (Is(objs, p, KDataHashTable) ==> DataTableStepOk(h, objs, Select(objs, prefix, KDataHashTable), p))
    && (Is(objs, p, KFieldHashTable) ==> FieldTableStepOk(h, objs, Select(objs, prefix, KFieldHashTable), p))
    && (Is(objs, p, KEntryArray) && p == h.entryArrayOffset ==> p !in prefix)
  }

  ghost predicate StepsOk(H: HashFunction, h: Header, objs: Heap, offs: seq<nat>, n: nat)
    requires n <= |offs|
  {
    forall k :: 0 <= k < n ==> StepOk(H, h, objs, offs[..k], offs[k])
  }

  /** The comparison of the header with what the pass has counted. */
  ghost predicate TotalsOk(h: Header, objs: Heap, offs: seq<nat>) {
    && h.nObjects == |offs|
    && h.nEntries == |Select(objs, offs, KEntry)|
    && h.nData == |Select(objs, offs, KData)|
    && h.nFields == |Select(objs, offs, KField)|
    && h.nEntryArrays == |Select(objs, offs, KEntryArray)|
    && |Select(objs, offs, KDataHashTable)| == 1
    && |Select(objs, offs, KFieldHashTable)| == 1
    && h.entryArrayOffset in Select(objs, offs, KEntryArray)
    && var entries := Select(objs, offs, KEntry);
       (entries != [] ==>
          && h.tailEntrySeqnum == SeqnumAt(objs, Last(entries))
          && h.bootId == BootAt(objs, Last(entries))
          && h.tailEntryMonotonic == MonotonicAt(objs, Last(entries))
          && h.tailEntryRealtime == RealtimeAt(objs, Last(entries)))
  }

  // ---------- the pass ----------

  /** What the pass carries along: the collected offsets, the counters, and the last entry's numbers. */
  datatype Tally = Tally(
    nObjects: nat, nFields: nat, nDataHashTables: nat, nFieldHashTables: nat, foundMainEntryArray: bool,
    data: seq<nat>, entries: seq<nat>, arrays: seq<nat>,
    entrySeqnum: nat, entryMonotonic: nat, entryRealtime: nat, entryBootId: nat)

  ghost predicate Collected(objs: Heap, offs: seq<nat>, t: Tally) {
    && t.data == Select(objs, offs, KData)
    && t.entries == Select(objs, offs, KEntry)
    && t.arrays == Select(objs, offs, KEntryArray)
  }

  ghost predicate Counted(h: Header, objs: Heap, offs: seq<nat>, t: Tally) {
    && t.nObjects == |offs|
    && t.nFields == |Select(objs, offs, KField)|
    && t.nDataHashTables == |Select(objs, offs, KDataHashTable)|
    && t.nFieldHashTables == |Select(objs, offs, KFieldHashTable)|
    && (t.foundMainEntryArray <==> h.entryArrayOffset in Select(objs, offs, KEntryArray))
  }

  ghost predicate Remembered(objs: Heap, t: Tally) {
    t.entries != [] ==>
      && t.entrySeqnum == SeqnumAt(objs, Last(t.entries)) && t.entryBootId == BootAt(objs, Last(t.entries))
      && t.entryMonotonic == MonotonicAt(objs, Last(t.entries)) && t.entryRealtime == RealtimeAt(objs, Last(t.entries))
  }

  ghost predicate Tallied(h: Header, objs: Heap, offs: seq<nat>, t: Tally) {
    Collected(objs, offs, t) && Counted(h, objs, offs, t) && Remembered(objs, t)
  }

  /** The objects `offs` are done and the pass stands at p, or at 0 behind the last one. */
  ghost predicate Scanned(h: Header, objs: Heap, offs: seq<nat>, p: nat) {
    offs + (if p == 0 then [] else WalkFrom(objs, p, h.tailObjectOffset)) == Offsets(h, objs)
  }

  /** Collects the offsets of data, entry and array objects, checking every object on the way. */
  method ScanObjects(H: HashFunction, h: Header, objs: Heap) returns (ok: bool, t: Tally)
    requires h.headerSize > 0
    ensures ok <==> h.compatibleFlags == 0 && h.reservedIsZero
                    && StepsOk(H, h, objs, Offsets(h, objs), |Offsets(h, objs)|)
                    && TotalsOk(h, objs, Offsets(h, objs))
    ensures ok ==> Collected(objs, Offsets(h, objs), t)
  {
    hide Scanned, Offsets, StepOk, TotalsOk, Tallied, Size, Collected, Align64, StepsOk;
    t := Tally(0, 0, 0, 0, false, [], [], [], 0, 0, 0, 0);
    if h.compatibleFlags != 0 || !h.reservedIsZero {
      return false, t;
    }
    var p := h.headerSize;
    ghost var all := Offsets(h, objs);
    ghost var offs: seq<nat> := [];
    NothingTallied(h, objs, t);
    NoneScanned(H, h, objs);
    while p != 0
      invariant |offs| <= |all| && Scanned(h, objs, offs, p)
      invariant StepsOk(H, h, objs, all, |offs|)
      invariant Tallied(h, objs, offs, t)
      decreases p != 0, if p <= h.tailObjectOffset then h.tailObjectOffset - p + 1 else 0
    {
      NextScanned(h, objs, offs, p);
      ok, t := VerifyStep(H, h, objs, t, p, offs);
      if !ok {
        StepMissed(H, h, objs, all, |offs|);
        return;
      }
      StepFacts(H, h, objs, offs, p);
      OneMoreStep(H, h, objs, all, offs, p);
      ScanOn(h, objs, offs, p);
      offs := offs + [p];
      if p == h.tailObjectOffset {
        p := 0;
      } else {
        p := p + Align64(Size(objs[p]));
      }
    }
    AllScanned(h, objs, offs);
    ok := VerifyTotals(h, objs, t, offs);
    TalliedParts(h, objs, offs, t);
  }

  lemma {:induction false} NoneScanned(H: HashFunction, h: Header, objs: Heap)
    requires h.headerSize > 0
    ensures Scanned(h, objs, [], h.headerSize) && StepsOk(H, h, objs, Offsets(h, objs), 0)
  {
  }

  lemma {:induction false} NextScanned(h: Header, objs: Heap, offs: seq<nat>, p: nat)
    requires Scanned(h, objs, offs, p) && p != 0
    ensures |offs| < |Offsets(h, objs)| && Offsets(h, objs)[|offs|] == p && Offsets(h, objs)[..|offs|] == offs
  {
    WalkStep(objs, p, h.tailObjectOffset);
  }

  lemma {:induction false} ScanOn(h: Header, objs: Heap, offs: seq<nat>, p: nat)
    requires Scanned(h, objs, offs, p) && p != 0 && p in objs && p <= h.tailObjectOffset
    ensures Scanned(h, objs, offs + [p], if p == h.tailObjectOffset then 0 else p + Align64(Size(objs[p])))
  {
    WalkStep(objs, p, h.tailObjectOffset);
  }

  lemma {:induction false} AllScanned(h: Header, objs: Heap, offs: seq<nat>)
    requires Scanned(h, objs, offs, 0)
    ensures offs == Offsets(h, objs)
  {
  }

  lemma {:induction false} OneMoreStep(H: HashFunction, h: Header, objs: Heap, all: seq<nat>, offs: seq<nat>, p: nat)
    requires |offs| < |all| && all[..|offs|] == offs && all[|offs|] == p
    requires StepsOk(H, h, objs, all, |offs|) && StepOk(H, h, objs, offs, p)
    ensures StepsOk(H, h, objs, all, |offs| + 1)
  {
    hide StepOk;
  }

  /** At the first step that is not right, not all steps are. */
  lemma {:induction false} StepMissed(H: HashFunction, h: Header, objs: Heap, all: seq<nat>, k: nat)
    requires k < |all| && !StepOk(H, h, objs, all[..k], all[k])
    ensures !StepsOk(H, h, objs, all, |all|)
  {
    hide StepOk;
  }

  lemma {:induction false} NothingTallied(h: Header, objs: Heap, t: Tally)
    requires t == Tally(0, 0, 0, 0, false, [], [], [], 0, 0, 0, 0)
    ensures Tallied(h, objs, [], t)
  {
  }

  lemma {:induction false} TalliedParts(h: Header, objs: Heap, offs: seq<nat>, t: Tally)
    requires Tallied(h, objs, offs, t)
    ensures Collected(objs, offs, t)
  {
  }

  lemma {:induction false} StepFacts(H: HashFunction, h: Header, objs: Heap, prefix: seq<nat>, p: nat)
    requires StepOk(H, h, objs, prefix, p)
    ensures p in objs && p <= h.tailObjectOffset
  {
  }

  /** The body of the pass: one object. */
  method VerifyStep(H: HashFunction, h: Header, objs: Heap, t: Tally, p: nat, ghost offs: seq<nat>) returns (ok: bool, t': Tally)
    requires Tallied(h, objs, offs, t)
    ensures ok <==> StepOk(H, h, objs, offs, p)
    ensures ok ==> Tallied(h, objs, offs + [p], t')
  {
    hide ObjectOk, EntryStepOk, Select, SeqnumAt, BootAt, MonotonicAt, RealtimeAt, Advance, Remembered;
    t' := t;
    if p % 8 != 0 || p !in objs {
      return false, t';
    }
    var o := objs[p];
    if p > h.tailObjectOffset {
      return false, t';
    }
    ok := VerifyObject(H, o);
    if !ok {
      return;
    }
    t' := Advance(h, t, p, o);
    Advanced(h, objs, offs, t, p);
    match o {
      case EntryObject(_, _, _, _, _, _, _) =>
        ok := VerifyEntryStep(h, objs, t, p);
      case DataHashTable(table, slack) =>
        if t.nDataHashTables > 1 {
          return false, t';
        }
        ok := h.dataHashTableOffset == p + HASH_TABLE_HEADER && h.dataHashTableSize == 16 * |table|;
      case FieldHashTable(table, slack) =>
        if t.nFieldHashTables > 1 {
          return false, t';
        }
        ok := h.fieldHashTableOffset == p + HASH_TABLE_HEADER && h.fieldHashTableSize == 16 * |table|;
      case EntryArray(_, _, _) =>
        if p == h.entryArrayOffset && t.foundMainEntryArray {
          return false, t';
        }
      case _ =>
    }
  }

  /** The tally after object o at p was accepted. */
  function Advance(h: Header, t: Tally, p: nat, o: Object): Tally {
    var t := t.(nObjects := t.nObjects + 1);
    match o
    case DataObject(_, _, _, _, _, _, _) => t.(data := t.data + [p])
    case FieldObject(_, _, _, _) => t.(nFields := t.nFields + 1)
    case EntryObject(seqnum, realtime, monotonic, bootId, _, _, _) =>
      t.(entries := t.entries + [p], entrySeqnum := seqnum, entryMonotonic := monotonic,
         entryRealtime := realtime, entryBootId := bootId)
    case DataHashTable(_, _) => t.(nDataHashTables := t.nDataHashTables + 1)
    case FieldHashTable(_, _) => t.(nFieldHashTables := t.nFieldHashTables + 1)
    case EntryArray(_, _, _) =>
      t.(arrays := t.arrays + [p], foundMainEntryArray := t.foundMainEntryArray || p == h.entryArrayOffset)
    case OtherObject(_) => t
  }

  lemma {:induction false} AdvancedCollected(h: Header, objs: Heap, offs: seq<nat>, t: Tally, p: nat)
    requires Collected(objs, offs, t) && p in objs
    ensures Collected(objs, offs + [p], Advance(h, t, p, objs[p]))
  {
    hide Select;
    SelectMore(objs, offs, p);
  }

  lemma {:induction false} AdvancedCounted(h: Header, objs: Heap, offs: seq<nat>, t: Tally, p: nat)
    requires Counted(h, objs, offs, t) && p in objs
    ensures Counted(h, objs, offs + [p], Advance(h, t, p, objs[p]))
  {
    hide Select;
    SelectMore(objs, offs, p);
  }

  lemma {:induction false} Advanced(h: Header, objs: Heap, offs: seq<nat>, t: Tally, p: nat)
    requires Tallied(h, objs, offs, t) && p in objs
    ensures Tallied(h, objs, offs + [p], Advance(h, t, p, objs[p]))
    ensures t.foundMainEntryArray <==> h.entryArrayOffset in t.arrays
  {
    hide Collected, Counted;
    AdvancedCollected(h, objs, offs, t, p);
    AdvancedCounted(h, objs, offs, t, p);
    CollectedArrays(h, objs, offs, t);
  }

  lemma {:induction false} CollectedArrays(h: Header, objs: Heap, offs: seq<nat>, t: Tally)
    requires Collected(objs, offs, t) && Counted(h, objs, offs, t)
    ensures t.foundMainEntryArray <==> h.entryArrayOffset in t.arrays
  {
  }

  /** The checks of one entry against the entry before it. */
  method VerifyEntryStep(h: Header, objs: Heap, t: Tally, p: nat) returns (ok: bool)
    requires Is(objs, p, KEntry) && Remembered(objs, t)
    ensures ok <==> EntryStepOk(h, objs, t.entries, p)
  {
    var o := objs[p];
    if |t.entries| == 0 && o.seqnum != h.headEntrySeqnum {
      return false;
    }
    if |t.entries| > 0 && t.entrySeqnum >= o.seqnum {
      return false;
    }
    if |t.entries| > 0 && t.entryBootId == o.bootId && t.entryMonotonic > o.monotonic {
      return false;
    }
    ok := |t.entries| > 0 || o.realtime == h.headEntryRealtime;
  }

  /** The comparison of the header with the tally. */
  method VerifyTotals(h: Header, objs: Heap, t: Tally, ghost offs: seq<nat>) returns (ok: bool)
    requires Tallied(h, objs, offs, t)
    ensures ok <==> TotalsOk(h, objs, offs)
  {
    hide Select, SeqnumAt, BootAt, MonotonicAt, RealtimeAt;
    if t.nObjects != h.nObjects || |t.entries| != h.nEntries || |t.data| != h.nData {
      return false;
    }
    if t.nFields != h.nFields || |t.arrays| != h.nEntryArrays {
      return false;
    }
    if t.nDataHashTables != 1 || t.nFieldHashTables != 1 || !t.foundMainEntryArray {
      return false;
    }
    if |t.entries| > 0 && t.entrySeqnum != h.tailEntrySeqnum {
      return false;
    }
    if |t.entries| > 0 && (t.entryBootId != h.bootId || t.entryMonotonic != h.tailEntryMonotonic) {
      return false;
    }
    ok := |t.entries| == 0 || t.entryRealtime == h.tailEntryRealtime;
  }

  lemma {:induction false} WalkStep(objs: Heap, p: nat, tail: nat)
    ensures WalkFrom(objs, p, tail) == if p !in objs || p >= tail then [p] else [p] + WalkFrom(objs, p + Align64(Size(objs[p])), tail)
    ensures WalkFrom(objs, p, tail) != [] && WalkFrom(objs, p, tail)[0] == p
  {
  }

  lemma {:induction false} SelectMore(objs: Heap, offs: seq<nat>, p: nat)
    ensures forall k :: Select(objs, offs + [p], k) == Select(objs, offs, k) + if Is(objs, p, k) then [p] else []
  {
    assert (offs + [p])[..|offs|] == offs;
  }

  // ---------- the pass accepts exactly the sound arenas ----------

  lemma {:induction false} WalkShape(objs: Heap, p: nat, tail: nat)
    ensures var s := WalkFrom(objs, p, tail);
            && s != [] && s[0] == p
            && (forall i, j :: 0 <= i && j == i + 1 && j < |s| ==> s[i] in objs && s[j] == s[i] + Align64(Size(objs[s[i]])))
            && (s[|s| - 1] in objs ==> s[|s| - 1] >= tail)
    decreases if p <= tail then tail - p + 1 else 0
  {
    hide Size;
    if p in objs && p < tail {
      var q := p + Align64(Size(objs[p]));
      WalkShape(objs, q, tail);
      var s, r := WalkFrom(objs, p, tail), WalkFrom(objs, q, tail);
      assert s == [p] + r;
      forall i, j | 0 <= i && j == i + 1 && j < |s| ensures s[i] in objs && s[j] == s[i] + Align64(Size(objs[s[i]])) {
        if i > 0 {
          var k, l := i - 1, j - 1;
          assert l == k + 1 && s[i] == r[k] && s[j] == r[l];
          assert r[k] in objs && r[l] == r[k] + Align64(Size(objs[r[k]]));
        }
      }
    }
  }

  lemma {:induction false} SelectPrefix(objs: Heap, offs: seq<nat>, kind: Kind, k: nat)
    requires k < |offs|
    ensures var s, t := Select(objs, offs[..k], kind), Select(objs, offs, kind);
            s <= t && (Is(objs, offs[k], kind) ==> |s| < |t| && t[|s|] == offs[k])
    decreases |offs|
  {
    var front := offs[..|offs| - 1];
    if k < |front| {
      SelectPrefix(objs, front, kind, k);
      assert front[..k] == offs[..k];
    }
  }

  lemma {:induction false} SelectIndex(objs: Heap, offs: seq<nat>, kind: Kind, j: nat) returns (k: nat)
    requires j < |Select(objs, offs, kind)|
    ensures k < |offs| && offs[k] == Select(objs, offs, kind)[j] && Select(objs, offs[..k], kind) == Select(objs, offs, kind)[..j]
    ensures Is(objs, offs[k], kind)
    decreases |offs|
  {
    var front := offs[..|offs| - 1];
    var s := Select(objs, front, kind);
    if j < |s| {
      k := SelectIndex(objs, front, kind, j);
      assert front[..k] == offs[..k];
      assert Select(objs, offs, kind)[..j] == s[..j];
    } else {
      k := |front|;
      assert Select(objs, offs, kind)[..j] == s;
    }
  }

  lemma {:induction false} StepsTile(H: HashFunction, h: Header, objs: Heap)
    requires StepsOk(H, h, objs, Offsets(h, objs), |Offsets(h, objs)|)
    ensures Tiling(h, objs, Offsets(h, objs)) && Valid64(h.headerSize)
    ensures forall i :: 0 <= i < |Offsets(h, objs)| ==> ObjectOk(H, objs[Offsets(h, objs)[i]])
  {
    hide ObjectOk, WalkFrom, Select, EntryStepOk, DataTableStepOk, FieldTableStepOk;
    var offs := Offsets(h, objs);
    WalkShape(objs, h.headerSize, h.tailObjectOffset);
    forall i | 0 <= i < |offs| ensures offs[i] in objs && offs[i] <= h.tailObjectOffset && ObjectOk(H, objs[offs[i]]) && Valid64(offs[i]) {
      assert StepOk(H, h, objs, offs[..i], offs[i]);
    }
  }

  lemma {:induction false} StepsOrder(H: HashFunction, h: Header, objs: Heap, offs: seq<nat>)
    requires StepsOk(H, h, objs, offs, |offs|) && TotalsOk(h, objs, offs)
    ensures EntrySequenceOk(h, objs, Select(objs, offs, KEntry))
  {
    hide ObjectOk, Select, DataTableStepOk, FieldTableStepOk, SeqnumAt, BootAt, MonotonicAt, RealtimeAt;
    var entries := Select(objs, offs, KEntry);
    forall j | 0 <= j < |entries| ensures EntryStepOk(h, objs, entries[..j], entries[j]) {
      var k := SelectIndex(objs, offs, KEntry, j);
      assert StepOk(H, h, objs, offs[..k], offs[k]);
    }
    forall i, j | 0 <= i && j == i + 1 && j < |entries|
      ensures SeqnumAt(objs, entries[i]) < SeqnumAt(objs, entries[j])
      ensures BootAt(objs, entries[i]) == BootAt(objs, entries[j]) ==> MonotonicAt(objs, entries[i]) <= MonotonicAt(objs, entries[j])
    {
      assert EntryStepOk(h, objs, entries[..j], entries[j]);
      assert Last(entries[..j]) == entries[i];
    }
    if entries != [] {
      assert EntryStepOk(h, objs, entries[..0], entries[0]);
    }
  }

  lemma {:induction false} StepsTables(H: HashFunction, h: Header, objs: Heap, offs: seq<nat>)
    requires StepsOk(H, h, objs, offs, |offs|) && TotalsOk(h, objs, offs)
    ensures TablesOk(h, objs, offs)
  {
    hide ObjectOk, Select, EntryStepOk;
    var k := SelectIndex(objs, offs, KDataHashTable, 0);
    assert StepOk(H, h, objs, offs[..k], offs[k]);
    assert Select(objs, offs, KDataHashTable) == [offs[k]];
    var l := SelectIndex(objs, offs, KFieldHashTable, 0);
    assert StepOk(H, h, objs, offs[..l], offs[l]);
    assert Select(objs, offs, KFieldHashTable) == [offs[l]];
  }

  lemma {:induction false} ArenaEntryStep(h: Header, objs: Heap, offs: seq<nat>, k: nat)
    requires EntrySequenceOk(h, objs, Select(objs, offs, KEntry)) && k < |offs| && Is(objs, offs[k], KEntry)
    ensures EntryStepOk(h, objs, Select(objs, offs[..k], KEntry), offs[k])
  {
    hide Select, SeqnumAt, BootAt, MonotonicAt, RealtimeAt, Is;
    SelectPrefix(objs, offs, KEntry, k);
    var entries := Select(objs, offs, KEntry);
    var prefix := Select(objs, offs[..k], KEntry);
    var n := |prefix|;
    assert entries[n] == offs[k];
    if prefix != [] {
      assert Last(prefix) == entries[n - 1];
    }
  }

  lemma {:induction false} ArenaTableStep(h: Header, objs: Heap, offs: seq<nat>, k: nat)
    requires TablesOk(h, objs, offs) && k < |offs|
    ensures Is(objs, offs[k], KDataHashTable) ==> DataTableStepOk(h, objs, Select(objs, offs[..k], KDataHashTable), offs[k])
    ensures Is(objs, offs[k], KFieldHashTable) ==> FieldTableStepOk(h, objs, Select(objs, offs[..k], KFieldHashTable), offs[k])
  {
    hide Select;
    SelectPrefix(objs, offs, KDataHashTable, k);
    SelectPrefix(objs, offs, KFieldHashTable, k);
  }

  lemma {:induction false} ArenaSteps(H: HashFunction, h: Header, objs: Heap, offs: seq<nat>, k: nat)
    requires ArenaOk(H, h, objs, offs) && k < |offs|
    ensures StepOk(H, h, objs, offs[..k], offs[k])
  {
    TilingIncreasing(h, objs, offs);
    TilingValid(h, objs, offs, k);
    ArenaTableStep(h, objs, offs, k);
    hide ObjectOk, Select, TablesOk, EntrySequenceOk, EntryStepOk, DataTableStepOk, FieldTableStepOk, Is;
    if Is(objs, offs[k], KEntry) {
      ArenaEntryStep(h, objs, offs, k);
    }
    assert offs[k] in objs && ObjectOk(H, objs[offs[k]]);
    NotBefore(offs, k);
  }

  lemma {:induction false} NotBefore(s: seq<nat>, k: nat)
    requires Increasing(s) && k < |s|
    ensures s[k] !in s[..k]
  {
    forall i | 0 <= i < k ensures s[i] != s[k] {
      assert s[i] < s[k];
    }
  }

  lemma {:induction false} TilingValid(h: Header, objs: Heap, offs: seq<nat>, k: nat)
    requires Tiling(h, objs, offs) && Valid64(h.headerSize) && k < |offs|
    ensures Valid64(offs[k]) && offs[k] <= h.tailObjectOffset
    decreases |offs| - k
  {
    hide Size, Align64;
    AlignedAt(h, objs, offs, k);
    TilingIncreasing(h, objs, offs);
  }

  lemma {:induction false} AlignedAt(h: Header, objs: Heap, offs: seq<nat>, k: nat)
    requires Tiling(h, objs, offs) && Valid64(h.headerSize) && k < |offs|
    ensures Valid64(offs[k])
  {
    hide Size, Align64;
    if k > 0 {
      AlignedAt(h, objs, offs, k - 1);
      var step := Align64(Size(objs[offs[k - 1]]));
      assert offs[k] == offs[k - 1] + step;
    }
  }

  /** The first pass succeeds exactly on files whose arena is sound. */
  lemma {:induction false} ScanMeaning(H: HashFunction, h: Header, objs: Heap)
    ensures h.compatibleFlags == 0 && h.reservedIsZero
            && StepsOk(H, h, objs, Offsets(h, objs), |Offsets(h, objs)|) && TotalsOk(h, objs, Offsets(h, objs))
            <==> ArenaOk(H, h, objs, Offsets(h, objs))
  {
    hide ObjectOk, Select, SeqnumAt, BootAt, MonotonicAt, RealtimeAt, Tiling, WalkFrom, StepOk, TablesOk, EntrySequenceOk;
    var offs := Offsets(h, objs);
    if StepsOk(H, h, objs, offs, |offs|) && TotalsOk(h, objs, offs) {
      StepsTile(H, h, objs);
      StepsOrder(H, h, objs, offs);
      StepsTables(H, h, objs, offs);
    }
    if ArenaOk(H, h, objs, offs) {
      forall k | 0 <= k < |offs| ensures StepOk(H, h, objs, offs[..k], offs[k]) {
        ArenaSteps(H, h, objs, offs, k);
      }
      ArenaTotals(H, h, objs, offs);
    }
  }

  lemma {:induction false} ArenaTotals(H: HashFunction, h: Header, objs: Heap, offs: seq<nat>)
    requires ArenaOk(H, h, objs, offs)
    ensures TotalsOk(h, objs, offs)
  {
    hide ObjectOk, Select, SeqnumAt, BootAt, MonotonicAt, RealtimeAt, Tiling;
  }
}
