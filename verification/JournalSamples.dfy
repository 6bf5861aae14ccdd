/** Files written entry by entry and opened for reading, and what goes wrong with some of them:
    seeks from behind a full list, and entries that contain a field twice. */
module JournalSamples {
  import opened JournalDef
  import opened EntryArrays
  import opened JournalView
  import opened JournalLinking
  import opened JournalIndex
  import opened JournalBisect
  import opened JournalSeek
  import opened JournalMatch
  import opened JournalMerge
  import Checker = JournalVerify
  import Spec = JournalVerifySpec
  import JournalVerifyWriter
  import Writer = JournalFile
  import Room = JournalRoom

  const SOURCE: nat := 1
  const BOOT: nat := 1

  // ---------- writing a file ----------

  /** One entry with this number, the number also being its time. */
  function PlannedEntry(s: nat, fields: seq<Payload>): LogEntry {
    LogEntry(s, s, s, BOOT, multiset(fields))
  }

  function Planned(seqnums: seq<nat>, fields: seq<Payload>): (log: seq<LogEntry>)
    ensures |log| == |seqnums|
  {
    seq(|seqnums|, i requires 0 <= i < |seqnums| => PlannedEntry(seqnums[i], fields))
  }

  lemma {:induction false} TailOfLog(H: HashFunction, h: Header, objs: Heap, v: View)
    requires WellBuilt(H, h, objs, v, {}) && Log(objs, Entries(objs, v)) != []
    ensures var log := Log(objs, Entries(objs, v));
            h.tailEntrySeqnum == log[|log| - 1].seqnum && h.tailEntryMonotonic == log[|log| - 1].monotonic
  {
    hide Layout, TablesOk, CountsOk, NoSlack, HashIndex, FieldLists, IndexOk, FieldsOf;
  }

  lemma {:induction false} PlannedMore(seqnums: seq<nat>, s: nat, fields: seq<Payload>)
    ensures Planned(seqnums + [s], fields) == Planned(seqnums, fields) + [PlannedEntry(s, fields)]
  {
  }

  /** The unlimited file w records the entries numbered `seqnums`. */
  ghost predicate WrittenSoFar(w: Writer.JournalFile, seqnums: seq<nat>, fields: seq<Payload>)
    reads w
  {
    && w.Valid() && !w.Limited() && w.header.bootId == BOOT
    && w.Recorded() == Planned(seqnums, fields)
    && w.header.tailEntrySeqnum == (if seqnums == [] then 0 else seqnums[|seqnums| - 1])
    && if seqnums == [] then !w.tailEntryMonotonicValid else w.header.tailEntryMonotonic == seqnums[|seqnums| - 1]
  }

  /** Entry number s follows the entries numbered `before`. */
  method WriteEntry(w: Writer.JournalFile, s: nat, fields: seq<Payload>, ghost before: seq<nat>)
    requires WrittenSoFar(w, before, fields) && (if before == [] then 0 else before[|before| - 1]) < s
    modifies w
    ensures WrittenSoFar(w, before + [s], fields)
  {
    hide WellBuilt, Log, Select, AllUsed, Planned;
    ghost var h := w.header;
    var r, p := w.AppendEntry(s, s, fields, Some(s - 1));
    assert r == Writer.Ok;
    assert Writer.NextSeqnum(h, Some(s - 1)) == s;
    PlannedMore(before, s, fields);
    TailOfLog(w.hash64, w.header, w.objects, w.view);
  }

  /** Writes a file of entries with these numbers and opens it for reading. */
  method WriteFile(hash64: HashFunction, seqnums: seq<nat>, fields: seq<Payload>) returns (f: OpenFile)
    requires Increasing(seqnums) && (seqnums != [] ==> seqnums[0] > 0)
    ensures fresh(f) && fresh(f.cache) && f.Valid() && f.seqnumId == SOURCE && f.hash64 == hash64
    ensures AllUsed(f.objects, f.EntryList()) && f.header.bootId == BOOT
    ensures Log(f.objects, f.EntryList()) == Planned(seqnums, fields)
  {
    hide WellBuilt, Log, Select, AllUsed;
    var w := new Writer.JournalFile(hash64, Room.Metrics(0, 0, 0), BOOT, None);
    var r := w.SetupTables();
    assert w.Recorded() == Planned([], fields);
    for i := 0 to |seqnums|
      invariant fresh(w) && w.hash64 == hash64 && WrittenSoFar(w, seqnums[..i], fields)
    {
      assert i > 0 ==> seqnums[i - 1] < seqnums[i];
      WriteEntry(w, seqnums[i], fields, seqnums[..i]);
      assert seqnums[..i] + [seqnums[i]] == seqnums[..i + 1];
    }
    assert seqnums[..|seqnums|] == seqnums;
    f := new OpenFile(w.hash64, SOURCE, w.header, w.objects, w.view);
  }

  lemma {:induction false} PlannedStamp(f: OpenFile, seqnums: seq<nat>, fields: seq<Payload>, i: nat)
    requires f.seqnumId == SOURCE && Log(f.objects, f.EntryList()) == Planned(seqnums, fields) && i < |seqnums|
    ensures |f.EntryList()| == |seqnums|
    ensures f.StampAt(f.EntryList()[i]) == Stamp(SOURCE, seqnums[i], BOOT, seqnums[i], seqnums[i], f.XorHashAt(f.EntryList()[i]))
    ensures Content(f.objects, f.EntryList()[i]) == multiset(fields)
  {
    assert |Log(f.objects, f.EntryList())| == |f.EntryList()|;
    assert Log(f.objects, f.EntryList())[i] == PlannedEntry(seqnums[i], fields);
  }

  // ---------- short lists ----------

  /** Up to four items fit into the first array of a chain. */
  lemma {:induction false} FirstArray(objs: Heap, first: nat, chain: seq<nat>, list: seq<nat>)
    requires Holds(objs, first, chain, list) && 0 < |list| <= 4
    ensures |Flat(objs, chain)| == 4
  {
    var front := chain[..|chain| - 1];
    if |chain| > 1 {
      GrownFront(objs, chain);
      CapacityBounds(objs, front);
    }
    CapacityBounds(objs, chain);
  }

  lemma {:induction false} ShortMain(H: HashFunction, h: Header, objs: Heap, v: View)
    requires WellBuilt(H, h, objs, v, {}) && 0 < |Entries(objs, v)| <= 4
    ensures |Flat(objs, ChainOf(v, MAIN))| == 4 && ListOf(v, MAIN) == Entries(objs, v)
  {
    assert ListHeld(h, objs, MAIN, v.arrays[MAIN], v.lists[MAIN]);
    hide WellBuilt;
    FirstArray(objs, h.entryArrayOffset, v.arrays[MAIN], v.lists[MAIN]);
  }

  lemma {:induction false} ShortData(H: HashFunction, h: Header, objs: Heap, v: View, d: nat)
    requires WellBuilt(H, h, objs, v, {}) && Is(objs, d, KData) && 1 < |ListOf(v, d)| <= 5
    ensures |Flat(objs, ChainOf(v, d))| == 4
  {
    IndexIsExact(H, h, objs, v, d);
    assert ListHeld(h, objs, d, v.arrays[d], v.lists[d]);
    hide WellBuilt;
    FirstArray(objs, objs[d].entryArrayOffset, v.arrays[d], v.lists[d][1..]);
  }

  /** In a file of at most three entries, searching back without a query is exact. */
  lemma {:induction false} ShortFile(f: OpenFile, seqnums: seq<nat>, fields: seq<Payload>)
    requires f.Valid() && Log(f.objects, f.EntryList()) == Planned(seqnums, fields) && 0 < |seqnums| <= 3
    ensures f.ExactFile(None, Up)
  {
    hide WellBuilt;
    assert |f.EntryList()| == |Log(f.objects, f.EntryList())| == |seqnums|;
    ShortMain(f.hash64, f.header, f.objects, f.view);
  }

  // ---------- going up from behind a full list ----------

  lemma {:induction false} FullMain(f: OpenFile, needle: nat)
    requires f.Valid() && |f.EntryList()| == 4 && SeqnumOf(f, f.EntryList()[3]) <= needle
    ensures FullAndNotRight(f.objects, Seqnum, needle, ChainOf(f.view, MAIN), ListOf(f.view, MAIN))
    ensures Readable(f.header, f.objects, f.view)
  {
    hide WellBuilt, Readable, CacheOk;
    f.FileLists();
    ShortMain(f.hash64, f.header, f.objects, f.view);
  }

  /** In a file of four entries, looking back from the last one or from anywhere behind it finds nothing. */
  method LookBack(f: OpenFile, needle: nat) returns (r: Option<Hit>)
    requires f.Valid() && |f.EntryList()| == 4 && SeqnumOf(f, f.EntryList()[3]) <= needle
    modifies f.cache
    ensures f.Valid() && r == None
  {
    hide WellBuilt, Readable, CacheOk, FullAndNotRight, OpenFile.EntryList;
    FullMain(f, needle);
    r := MoveToEntry(f.cache, f.header, f.objects, needle, Seqnum, Up, f.view);
  }

  /** Four entries are written, and looking back from number 4 finds none of them. */
  method UpwardMiss(hash64: HashFunction, fields: seq<Payload>) returns (f: OpenFile, r: Option<Hit>)
    ensures |f.EntryList()| == 4 && SeqnumOf(f, f.EntryList()[3]) == 4
    ensures r == None
  {
    hide WellBuilt, Log, AllUsed, Planned, CacheOk;
    f := WriteFile(hash64, [1, 2, 3, 4], fields);
    PlannedStamp(f, [1, 2, 3, 4], fields, 3);
    r := LookBack(f, 4);
  }

  lemma {:induction false} FullData(f: OpenFile, d: nat, after: nat)
    requires f.Valid() && Is(f.objects, d, KData) && |f.EntryList()| == 5 && f.EntryList()[4] <= after
    requires ListOf(f.view, d) == f.EntryList()
    ensures Overlooks(f.objects, ChainOf(f.view, d), ListOf(f.view, d), after)
  {
    hide WellBuilt, CacheOk;
    f.FileLists();
    ShortData(f.hash64, f.header, f.objects, f.view, d);
  }

  /** An increasing list with the items of another is the other. */
  lemma {:induction false} SameMembers(s: seq<nat>, t: seq<nat>)
    requires Increasing(s) && Increasing(t) && (forall x :: x in s ==> x in t) && forall x :: x in t ==> x in s
    ensures s == t
    decreases |s|
  {
    assert t != [] ==> t[0] in s;
    assert s != [] ==> s[0] in t;
    if s != [] && t != [] {
      assert s[0] in t && t[0] in s;
      assert s[0] == t[0];
      forall x | x in s[1..] ensures x in t[1..] {
        assert x in s && x in t;
      }
      forall x | x in t[1..] ensures x in s[1..] {
        assert x in t && x in s;
      }
      SameMembers(s[1..], t[1..]);
      assert s == [s[0]] + s[1..] && t == [t[0]] + t[1..];
    }
  }

  /** If every entry contains the payload once, its list is that of all entries. */
  lemma {:induction false} ListOfAll(f: OpenFile, seqnums: seq<nat>, x: Payload, d: nat)
    requires f.Valid() && f.seqnumId == SOURCE && Log(f.objects, f.EntryList()) == Planned(seqnums, [x])
    requires Is(f.objects, d, KData) && PayloadAt(f.objects, d) == x
    ensures ListOf(f.view, d) == f.EntryList()
  {
    hide WellBuilt, Log, Planned, OpenFile.EntryList;
    var entries := f.EntryList();
    f.FileLists();
    ListMembers(f.hash64, f.header, f.objects, f.view, d);
    IndexIsSorted(f.hash64, f.header, f.objects, f.view, d);
    EachOnce(f, seqnums, x);
    f.SameEntries();
    SameMembers(ListOf(f.view, d), entries);
  }

  lemma {:induction false} EachOnce(f: OpenFile, seqnums: seq<nat>, x: Payload)
    requires f.seqnumId == SOURCE && Log(f.objects, f.EntryList()) == Planned(seqnums, [x])
    ensures forall i :: 0 <= i < |f.EntryList()| ==> Log(f.objects, f.EntryList())[i].fields[x] == 1
    ensures forall e :: e in f.EntryList() ==> x in Content(f.objects, e)
  {
    var entries := f.EntryList();
    assert |Log(f.objects, entries)| == |entries| == |seqnums|;
    forall i | 0 <= i < |entries|
      ensures Log(f.objects, entries)[i].fields[x] == 1 && x in Content(f.objects, entries[i])
    {
      assert Log(f.objects, entries)[i] == PlannedEntry(seqnums[i], [x]);
    }
  }

  lemma {:induction false} AllOverlooked(f: OpenFile, seqnums: seq<nat>, x: Payload)
    requires f.Valid() && f.seqnumId == SOURCE && Log(f.objects, f.EntryList()) == Planned(seqnums, [x]) && |seqnums| == 5
    ensures |f.EntryList()| == 5 && Overlooked(f.objects, f.view, Match.Discrete(x), f.EntryList()[4])
  {
    hide WellBuilt, Log, Planned, CacheOk, Overlooks, ListOf, OpenFile.EntryList;
    PlannedStamp(f, seqnums, [x], 4);
    EachOnce(f, seqnums, x);
    var e := f.EntryList()[4];
    var d := StoredAt(f, x, e);
    ListOfAll(f, seqnums, x, d);
    FullData(f, d, e);
  }

  lemma {:induction false} StoredAt(f: OpenFile, x: Payload, e: nat) returns (d: nat)
    requires f.Valid() && e in f.EntryList() && x in Content(f.objects, e)
    ensures Is(f.objects, d, KData) && PayloadAt(f.objects, d) == x
  {
    hide WellBuilt, CacheOk, Content, OpenFile.EntryList;
    f.SameEntries();
    if forall q :: Is(f.objects, q, KData) ==> PayloadAt(f.objects, q) != x {
      NotStored(f.hash64, f.header, f.objects, f.view, x);
      assert false;
    }
    d :| Is(f.objects, d, KData) && PayloadAt(f.objects, d) == x;
  }

  lemma {:induction false} LastIsNearest(f: OpenFile, m: Match, after: nat)
    requires f.Valid() && f.EntryList() != [] && after == LastOr0(f.EntryList()) && Satisfied(m, Content(f.objects, after))
    ensures NextResult(f.objects, f.EntryList(), m, after, Up, true, Some(after))
  {
    hide WellBuilt, CacheOk, Satisfied, Content, OpenFile.EntryList;
    f.FileLists();
  }

  /** Five entries with one field: going up from the last, the query for the field does not find it. */
  method UpwardMissForMatch(hash64: HashFunction, x: Payload) returns (f: OpenFile, r: Option<nat>)
    ensures |f.EntryList()| == 5 && Satisfied(Match.Discrete(x), Content(f.objects, f.EntryList()[4]))
    ensures r != Some(f.EntryList()[4])
  {
    hide WellBuilt, Log, AllUsed, Planned, CacheOk, NextResult, Overlooked, OpenFile.EntryList;
    f := WriteFile(hash64, [1, 2, 3, 4, 5], [x]);
    PlannedStamp(f, [1, 2, 3, 4, 5], [x], 4);
    AllOverlooked(f, [1, 2, 3, 4, 5], x);
    f.SameEntries();
    f.FileLists();
    var step := NextEntry(f.cache, f.header, f.objects, None, Up, f.view);
    var last := step.offset;
    r := NextForMatch(f.cache, hash64, f.header, f.objects, Match.Discrete(x), last, Up, f.view);
    LastIsNearest(f, Match.Discrete(x), last);
  }

  // ---------- a field twice in one entry ----------

  lemma {:induction false} TwiceInList(s: seq<nat>, x: nat) returns (i: nat, j: nat)
    requires multiset(s)[x] >= 2
    ensures i < j < |s| && s[i] == x && s[j] == x
  {
    var front, z := s[..|s| - 1], s[|s| - 1];
    assert s == front + [z];
    if multiset(front)[x] >= 2 {
      i, j := TwiceInList(front, x);
    } else {
      assert x in front;
      i :| 0 <= i < |front| && front[i] == x;
      j := |s| - 1;
    }
  }

  /** A list on which the first entry is twice. */
  lemma {:induction false} StuckAtFirst(f: OpenFile, seqnums: seq<nat>, x: Payload, d: nat)
    requires f.Valid() && f.seqnumId == SOURCE && Log(f.objects, f.EntryList()) == Planned(seqnums, [x, x]) && seqnums != []
    requires Is(f.objects, d, KData) && PayloadAt(f.objects, d) == x
    ensures f.EntryList() != []
    ensures StepFrom(ListOf(f.view, d), Some(f.EntryList()[0]), Down) == Some(f.EntryList()[0])
  {
    hide WellBuilt, Planned, CacheOk, StepFrom, OpenFile.EntryList;
    assert |f.EntryList()| == |Log(f.objects, f.EntryList())| == |seqnums|;
    PlannedStamp(f, seqnums, [x, x], 0);
    assert multiset([x, x])[x] == 2;
    f.SameEntries();
    IndexIsExact(f.hash64, f.header, f.objects, f.view, d);
    IndexIsSorted(f.hash64, f.header, f.objects, f.view, d);
    var list, e := ListOf(f.view, d), f.EntryList()[0];
    var i, j := TwiceInList(list, e);
    StepStuck(list, i, j);
  }

  /** Two entries that contain x twice each: stepping on from the first leads to the first, and the checker rejects the file. */
  method RepeatedField(hash64: HashFunction, x: Payload) returns (f: OpenFile, e: Found, verdict: Checker.Verdict)
    ensures |f.EntryList()| == 2 && x in Content(f.objects, f.EntryList()[1])
    ensures e == At(f.EntryList()[0])
    ensures verdict != Checker.Good
  {
    hide WellBuilt, Log, AllUsed, Planned, CacheOk, Below, OpenFile.EntryList, Spec.Consistent, Readable;
    f := WriteFile(hash64, [1, 2], [x, x]);
    PlannedStamp(f, [1, 2], [x, x], 0);
    PlannedStamp(f, [1, 2], [x, x], 1);
    assert multiset([x, x])[x] == 2;
    f.SameEntries();
    f.FileLists();
    var first := NextEntry(f.cache, f.header, f.objects, None, Down, f.view);
    var d := FindDataObject(hash64, f.header, f.objects, x, f.view);
    ghost var d' := StoredAt(f, x, f.EntryList()[0]);
    StuckAtFirst(f, [1, 2], x, d.value);
    e := NextEntryForData(f.cache, f.header, f.objects, Some(first.offset), d.value, Down, f.view);
    NotAccepted(f, x);
    verdict := Checker.Verify(hash64, f.header, f.objects);
  }

  lemma {:induction false} NotAccepted(f: OpenFile, x: Payload)
    requires f.Valid() && f.seqnumId == SOURCE && Log(f.objects, f.EntryList()) == Planned([1, 2], [x, x])
    requires AllUsed(f.objects, f.EntryList())
    ensures f.header.headerSize > 0 && !Spec.Consistent(f.hash64, f.header, f.objects)
  {
    hide WellBuilt, CacheOk, AllUsed, Spec.Consistent, OpenFile.EntryList;
    var log := Log(f.objects, f.EntryList());
    assert log[0] == PlannedEntry(1, [x, x]);
    assert multiset([x, x])[x] == 2;
    f.SameEntries();
    HeaderThere(f.hash64, f.header, f.objects, f.view);
    JournalVerifyWriter.WriterBuiltConsistent(f.hash64, f.header, f.objects, f.view);
    assert !JournalVerifyWriter.Sound(log[0]);
  }

  lemma {:induction false} HeaderThere(H: HashFunction, h: Header, objs: Heap, v: View)
    requires WellBuilt(H, h, objs, v, {})
    ensures h.headerSize > 0
  {
    hide TablesOk, CountsOk, NoSlack, HashIndex, FieldLists, IndexOk, EntriesOk, Tiling;
  }

  // ---------- opening a file in a later boot ----------

  /** A file with one entry, of the first boot. */
  method WriteOne(hash64: HashFunction, realtime: nat, monotonic: nat, fields: seq<Payload>) returns (w: Writer.JournalFile)
    ensures fresh(w) && w.Valid() && !w.Limited() && w.hash64 == hash64 && w.header.bootId == BOOT
    ensures w.Recorded() == [LogEntry(1, realtime, monotonic, BOOT, multiset(fields))]
    ensures w.header.tailEntryMonotonic == monotonic && w.header.tailEntrySeqnum == 1
  {
    hide WellBuilt, Log, Select, AllUsed;
    w := new Writer.JournalFile(hash64, Room.Metrics(0, 0, 0), BOOT, None);
    var r := w.SetupTables();
    var p;
    r, p := w.AppendEntry(realtime, monotonic, fields, None);
    assert r == Writer.Ok;
    TailOfLog(w.hash64, w.header, w.objects, w.view);
  }

  /** Who opens the file twice in a later boot before writing to it cannot write its first entry of that boot. */
  method StaleTime(hash64: HashFunction, fields: seq<Payload>) returns (w: Writer.JournalFile, r: Writer.Status)
    ensures w.Valid() && w.header.bootId == 2 && !w.GoesBack(5)
    ensures forall i :: 0 <= i < |w.Recorded()| ==> w.Recorded()[i].bootId == 1
    ensures r == Writer.InvalidArgument
  {
    hide WellBuilt, Log, Select, AllUsed;
    w := WriteOne(hash64, 100, 100, fields);
    AllOfBoot(w.objects, Entries(w.objects, w.view));
    w.Reopen(2);
    AllOfBoot(w.objects, Entries(w.objects, w.view));
    w.Reopen(2);
    var p;
    r, p := w.AppendEntry(200, 5, fields, None);
    AllOfBoot(w.objects, Entries(w.objects, w.view));
  }

  lemma {:induction false} AllOfBoot(objs: Heap, entries: seq<nat>)
    ensures |Log(objs, entries)| == |entries|
    ensures forall i :: 0 <= i < |entries| ==> BootAt(objs, entries[i]) == Log(objs, entries)[i].bootId
  {
  }

  /** The checker accepts the file, but not once it was opened for writing in a later boot. */
  method OpenedLater(hash64: HashFunction, x: Payload) returns (before: Checker.Verdict, after: Checker.Verdict)
    requires x != []
    ensures before == Checker.Good && after != Checker.Good
  {
    hide WellBuilt, Log, Select, AllUsed, Spec.Consistent;
    var w := WriteOne(hash64, 1, 1, [x]);
    HeaderThere(w.hash64, w.header, w.objects, w.view);
    AllOfBoot(w.objects, Entries(w.objects, w.view));
    JournalVerifyWriter.WriterBuiltConsistent(w.hash64, w.header, w.objects, w.view);
    before := Checker.Verify(w.hash64, w.header, w.objects);
    w.Reopen(2);
    JournalVerifyWriter.WriterBuiltConsistent(w.hash64, w.header, w.objects, w.view);
    after := Checker.Verify(w.hash64, w.header, w.objects);
  }
}
