/** A case where a query over two files of different sources misses an entry (lib/sd-journal.c): both files have entries of two
    boots, and the search for the time within the first boot does not get to the second one. */
module JournalLaterBoot {
  import opened JournalDef
  import opened JournalView
  import opened JournalLinking
  import opened JournalIndex
  import opened JournalBisect
  import opened JournalSeek
  import opened JournalMatch
  import opened JournalMerge
  import opened JournalSamples
  import opened JournalAcross
  import Writer = JournalFile

  // "A=1"
  const ASKED: Payload := [65, EQUALS, 49]

  lemma {:induction false} HexEnds(x: nat, n: nat)
    requires n > 0
    ensures |Hex(x, n)| == n && Hex(x, n)[n - 1] == if x % 16 < 10 then 48 + x % 16 else 87 + x % 16
    decreases n
  {
    if n > 1 {
      HexEnds(x / 16, n - 1);
    }
  }

  lemma {:induction false} DifferentFields()
    ensures BootField(1) != BootField(2) && ASKED != BootField(1) && ASKED != BootField(2)
  {
    HexEnds(1, 32);
    HexEnds(2, 32);
    hide Hex;
    var n := |BOOT_ID_PREFIX|;
    assert BootField(1)[n..][31] == 49 && BootField(2)[n..][31] == 50;
    assert BootField(1)[0] == 95 && BootField(2)[0] == 95;
  }

  // ---------- two files ----------

  /** An entry of this boot at this time, which has the boot's payload and perhaps the one asked for. */
  function BootEntry(seqnum: nat, realtime: nat, monotonic: nat, bootId: nat, asked: bool): LogEntry {
    LogEntry(seqnum, realtime, monotonic, bootId, multiset(FieldsFor(bootId, asked)))
  }

  function FieldsFor(bootId: nat, asked: bool): seq<Payload> {
    if asked then [BootField(bootId), ASKED] else [BootField(bootId)]
  }

  /** Writes an entry of the first boot, opens the file in the second boot, and writes an entry of that. */
  method WriteTwoBoots(hash64: HashFunction, source: nat, real1: nat, mono1: nat, asked: bool, real2: nat, mono2: nat) returns (f: OpenFile)
    ensures fresh(f) && fresh(f.cache) && f.Valid() && f.seqnumId == source && f.hash64 == hash64 && f.currentOffset == 0
    ensures Log(f.objects, f.EntryList()) == [BootEntry(1, real1, mono1, 1, asked), BootEntry(2, real2, mono2, 2, true)]
  {
    hide WellBuilt, Log, Select, AllUsed, BootField;
    var w := WriteOne(hash64, real1, mono1, FieldsFor(1, asked));
    AllOfBoot(w.objects, Entries(w.objects, w.view));
    w.Reopen(2);
    var r, p := w.AppendEntry(real2, mono2, FieldsFor(2, true), None);
    f := new OpenFile(w.hash64, source, w.header, w.objects, w.view);
  }

  /** What the log says of its two entries. */
  lemma {:induction false} TwoEntries(f: OpenFile, a: LogEntry, b: LogEntry)
    requires Log(f.objects, f.EntryList()) == [a, b]
    ensures |f.EntryList()| == 2
    ensures EntryIs(f, f.EntryList()[0], a) && EntryIs(f, f.EntryList()[1], b)
  {
    hide FieldsOf;
    assert |Log(f.objects, f.EntryList())| == |f.EntryList()|;
    assert Log(f.objects, f.EntryList())[0] == a && Log(f.objects, f.EntryList())[1] == b;
  }

  ghost predicate EntryIs(f: OpenFile, e: nat, a: LogEntry) {
    && f.StampAt(e) == Stamp(f.seqnumId, a.seqnum, a.bootId, a.monotonic, a.realtime, f.XorHashAt(e))
    && Content(f.objects, e) == a.fields
  }

  const QUERY: Option<Match> := Some(Match.Discrete(ASKED))

  ghost predicate FileEntries(f: OpenFile, x: nat, y: nat, a: LogEntry, b: LogEntry) {
    && f.EntryList() == [x, y] && 0 < x < y && EntryIs(f, x, a) && EntryIs(f, y, b)
  }

  lemma {:induction false} TheEntries(f: OpenFile, a: LogEntry, b: LogEntry) returns (x: nat, y: nat)
    requires f.Valid() && Log(f.objects, f.EntryList()) == [a, b]
    ensures FileEntries(f, x, y, a, b)
  {
    hide WellBuilt, CacheOk, Log, OpenFile.EntryList, Readable;
    TwoEntries(f, a, b);
    f.FileLists();
    x, y := f.EntryList()[0], f.EntryList()[1];
    assert f.EntryList() == [x, y];
    assert x in f.EntryList();
  }

  // ---------- what the files answer ----------

  const A1: LogEntry := BootEntry(1, 10, 10, 1, true)
  const A2: LogEntry := BootEntry(2, 150, 50, 2, true)
  const B1: LogEntry := BootEntry(1, 1, 1, 1, false)
  const B2: LogEntry := BootEntry(2, 120, 20, 2, true)

  lemma {:induction false} WantedHere(f: OpenFile, e: nat, a: LogEntry)
    requires EntryIs(f, e, a) && e in f.EntryList() && a in {A1, A2, B1, B2}
    ensures f.Wanted(QUERY, e) <==> a != B1
    ensures BootField(a.bootId) in Content(f.objects, e) && BootField(3 - a.bootId) !in Content(f.objects, e)
  {
    DifferentFields();
    hide BootField, OpenFile.EntryList, Content;
    assert multiset([BootField(1), ASKED])[ASKED] == 1 && multiset([BootField(2), ASKED])[ASKED] == 1;
    assert multiset([BootField(1)])[ASKED] == 0;
    assert FieldsFor(1, true) == [BootField(1), ASKED] && FieldsFor(2, true) == [BootField(2), ASKED] && FieldsFor(1, false) == [BootField(1)];
  }

  /** The entries of the first file, and those of the second one. */
  lemma {:induction false} FirstFile(f: OpenFile, x: nat, y: nat)
    requires FileEntries(f, x, y, A1, A2)
    ensures f.EntryList() == [x, y] && x < y && x in f.EntryList() && y in f.EntryList() && f.Wanted(QUERY, x) && f.Wanted(QUERY, y)
  {
    hide BootField, Content, OpenFile.Wanted;
    assert [x, y][0] == x && [x, y][1] == y;
    WantedHere(f, x, A1);
    WantedHere(f, y, A2);
  }

  lemma {:induction false} SecondFile(f: OpenFile, x: nat, y: nat)
    requires FileEntries(f, x, y, B1, B2)
    ensures f.EntryList() == [x, y] && x < y && x in f.EntryList() && y in f.EntryList() && !f.Wanted(QUERY, x) && f.Wanted(QUERY, y)
    ensures BootField(1) in Content(f.objects, x) && BootField(2) !in Content(f.objects, x) && MonotonicAt(f.objects, x) == 1
    ensures BootField(2) in Content(f.objects, y) && BootField(1) !in Content(f.objects, y) && MonotonicAt(f.objects, y) == 20
  {
    hide BootField, Content, OpenFile.Wanted;
    assert [x, y][0] == x && [x, y][1] == y;
    WantedHere(f, x, B1);
    WantedHere(f, y, B2);
  }

  lemma {:induction false} ExactAtHead(f: OpenFile, loc: Location)
    requires loc.kind.Head?
    ensures f.ExactStart(QUERY, None, loc, Down) && forall e :: f.Starts(None, loc, Down, e) && f.Passed(loc, Down, e)
  {
  }

  lemma {:induction false} AskedAtHead(f: OpenFile, x: nat, y: nat, z: nat, loc: Location, r: Option<nat>)
    requires f.EntryList() == [x, y] && x < y && z in {x, y} && f.Wanted(QUERY, z) && (z == y ==> !f.Wanted(QUERY, x)) && loc.kind.Head?
    requires f.FirstBeyondLocation(QUERY, None, loc, Down, r)
    ensures r == Some(z)
  {
    ExactAtHead(f, loc);
    hide OpenFile.Wanted, OpenFile.ExactStart, OpenFile.Starts, OpenFile.Passed;
    WantedListed(f, QUERY, if r.Some? then r.value else 0);
  }

  lemma {:induction false} PassedOn(f: OpenFile, x: nat, y: nat)
    requires FileEntries(f, x, y, A1, A2)
    ensures f.Passed(LocationOf(f.StampAt(x)), Down, y)
  {
  }

  /** The first file goes on to its second entry, and then has no more. */
  lemma {:induction false} AskedOn(f: OpenFile, x: nat, y: nat, cp: nat, r: Option<nat>)
    requires FileEntries(f, x, y, A1, A2) && cp in {x, y}
    requires f.FirstBeyondLocation(QUERY, Some(cp), LocationOf(f.StampAt(cp)), Down, r)
    ensures r == if cp == x then Some(y) else None
  {
    hide FileEntries, EntryIs, BootEntry, OpenFile.Wanted, OpenFile.Passed;
    FirstFile(f, x, y);
    PassedOn(f, x, y);
    WantedListed(f, QUERY, if r.Some? then r.value else 0);
  }

  /** The search in the second file does not leave the boot, and there is nothing at or after this time in it. */
  lemma {:induction false} AskedInBoot(f: OpenFile, x: nat, y: nat, loc: Location, r: Option<nat>)
    requires f.Valid() && FileEntries(f, x, y, B1, B2) && f.seqnumId == 2 && loc == LocationOf(loc.stamp)
    requires loc.stamp.seqnumId == 1 && loc.stamp.bootId in {1, 2} && loc.stamp.monotonic == (if loc.stamp.bootId == 1 then 10 else 50)
    requires f.FromSearch(QUERY, loc, Down, r)
    ensures r == None
  {
    hide FileEntries, EntryIs, BootEntry, OpenFile.Valid, WellBuilt, CacheOk, OpenFile.EntryList, OpenFile.ToBoot, OpenFile.BootForward, OpenFile.Wanted, OpenFile.ExactBoot, OpenFile.ExactFile, OpenFile.FromBoot, BootField, Content;
    InTheBoot(f, x, y, loc);
    SecondFile(f, x, y);
    var c: Option<nat> :| (c.Some? ==> f.Wanted(QUERY, c.value)) && f.LocatedInBoot(QUERY, loc, Down, c) && f.Stepped(QUERY, loc, Down, c, r);
    WantedListed(f, QUERY, if c.Some? then c.value else 0);
  }

  lemma {:induction false} InTheBoot(f: OpenFile, x: nat, y: nat, loc: Location)
    requires f.Valid() && FileEntries(f, x, y, B1, B2) && f.seqnumId == 2 && loc == LocationOf(loc.stamp)
    requires loc.stamp.seqnumId == 1 && loc.stamp.bootId in {1, 2}
    ensures f.ToBoot(loc) && f.BootForward(loc)
  {
    hide FileEntries, EntryIs, BootEntry, WellBuilt, CacheOk, BootField, Content, SortedBy, OpenFile.EntryList, OpenFile.Wanted;
    SecondFile(f, x, y);
    var field, here := BootField(loc.stamp.bootId), if loc.stamp.bootId == 1 then x else y;
    var d := StoredAt(f, field, here);
    forall b | Is(f.objects, b, KData) && PayloadAt(f.objects, b) == field ensures SortedBy(f.objects, Monotonic, ListOf(f.view, b)) {
      OneListed(f, b, field, here);
    }
  }

  lemma {:induction false} OneListed(f: OpenFile, b: nat, field: Payload, here: nat)
    requires f.Valid() && Is(f.objects, b, KData) && PayloadAt(f.objects, b) == field
    requires forall e :: e in f.EntryList() && field in Content(f.objects, e) ==> e == here
    ensures SortedBy(f.objects, Monotonic, ListOf(f.view, b))
  {
    hide WellBuilt, CacheOk, Content, SortedBy;
    ListMembers(f.hash64, f.header, f.objects, f.view, b);
    OneInList(f.objects, ListOf(f.view, b), here);
  }

  lemma {:induction false} OneInList(objs: Heap, list: seq<nat>, e: nat)
    requires forall x :: x in list ==> x == e
    ensures SortedBy(objs, Monotonic, list)
  {
    forall i, j | 0 <= i < j < |list| ensures MonotonicAt(objs, list[i]) <= MonotonicAt(objs, list[j]) {
      assert list[i] in list && list[j] in list;
    }
  }

  // ---------- reading ----------

  /** File A of source 1 and file B of source 2. All entries are asked for but B's first one. */
  ghost predicate TwoSources(files: seq<OpenFile>, a1: nat, a2: nat, b1: nat, b2: nat) {
    && |files| == 2 && files[0].seqnumId == 1 && files[1].seqnumId == 2
    && FileEntries(files[0], a1, a2, A1, A2) && FileEntries(files[1], b1, b2, B1, B2)
  }

  /** At the head, the first file answers with its first entry, and the second one with its second. */
  lemma {:induction false} HeadAnswers(files: seq<OpenFile>, a1: nat, a2: nat, b1: nat, b2: nat, loc: Location, answers: seq<Option<nat>>)
    requires TwoSources(files, a1, a2, b1, b2) && |answers| == 2 && loc.kind.Head?
    requires forall i :: 0 <= i < 2 ==> AnswerExact(files, i, QUERY, None, loc, Down, answers[i])
    ensures answers == [Some(a1), Some(b2)]
  {
    hide FileEntries, BySeqnums, OpenFile.FirstBeyondLocation, OpenFile.FromSearch, OpenFile.Wanted, OpenFile.EntryList;
    FirstFile(files[0], a1, a2);
    SecondFile(files[1], b1, b2);
    AskedAtHead(files[0], a1, a2, a1, loc, answers[0]);
    AskedAtHead(files[1], b1, b2, b2, loc, answers[1]);
  }

  /** From an entry of the first file on, that file goes on, and the second one finds nothing. */
  lemma {:induction false} NextAnswers(files: seq<OpenFile>, a1: nat, a2: nat, b1: nat, b2: nat, cp: nat, loc: Location, answers: seq<Option<nat>>)
    requires TwoSources(files, a1, a2, b1, b2) && files[1].Valid() && |answers| == 2 && cp in {a1, a2} && loc == LocationOf(files[0].StampAt(cp))
    requires AnswerExact(files, 0, QUERY, Some(cp), loc, Down, answers[0]) && AnswerExact(files, 1, QUERY, None, loc, Down, answers[1])
    ensures answers == [if cp == a1 then Some(a2) else None, None]
  {
    hide FileEntries, BySeqnums, OpenFile.FirstBeyondLocation, OpenFile.FromSearch, OpenFile.StampAt, OpenFile.Valid, BootEntry;
    StampOfFirst(files[0], a1, a2, cp);
    AskedOn(files[0], a1, a2, cp, answers[0]);
    AskedInBoot(files[1], b1, b2, loc, answers[1]);
  }

  lemma {:induction false} StampOfFirst(f: OpenFile, x: nat, y: nat, cp: nat)
    requires FileEntries(f, x, y, A1, A2) && cp in {x, y}
    ensures f.StampAt(cp) == if cp == x then Stamp(f.seqnumId, 1, 1, 10, 10, f.XorHashAt(x)) else Stamp(f.seqnumId, 2, 2, 50, 150, f.XorHashAt(y))
  {
  }

  lemma {:induction false} StampOfSecond(f: OpenFile, x: nat, y: nat)
    requires FileEntries(f, x, y, B1, B2)
    ensures f.StampAt(y) == Stamp(f.seqnumId, 2, 2, 20, 120, f.XorHashAt(y))
  {
  }

  /** Of the first answers the earlier one is picked. */
  lemma {:induction false} FirstPick(files: seq<OpenFile>, a1: nat, a2: nat, b1: nat, b2: nat, answers: seq<Option<nat>>, best: Option<(nat, nat)>)
    requires TwoSources(files, a1, a2, b1, b2) && answers == [Some(a1), Some(b2)] && Journal.Picked(answers, best)
    requires Coherent(Stamps(files, answers)) ==>
               Earliest(Stamps(files, answers), Down, if best.Some? && best.value.0 < 2 then Some(files[best.value.0].StampAt(best.value.1)) else None)
    ensures best == Some((0, a1))
  {
    hide FileEntries, OpenFile.StampAt, Coherent, Earliest, BootEntry, CompareEntryOrder;
    StampOfFirst(files[0], a1, a2, a1);
    StampOfSecond(files[1], b1, b2);
    assert answers[0].Some?;
    var stamps := Stamps(files, answers);
    assert stamps[0] == Some(files[0].StampAt(a1)) && stamps[1] == Some(files[1].StampAt(b2));
    var s := files[best.value.0].StampAt(best.value.1);
    assert stamps[best.value.0] == Some(s);
    CoherentByTime(stamps, Down, Some(s));
    assert TimeOrder(s, stamps[0].value) <= 0;
  }

  lemma {:induction false} OnlyPick(answers: seq<Option<nat>>, e: Option<nat>, best: Option<(nat, nat)>)
    requires answers == [e, None] && Journal.Picked(answers, best)
    ensures best == if e.Some? then Some((0, e.value)) else None
  {
    assert answers[1] == None && answers[0] == e;
  }

  /** Where reading stands: at entry e of the first file, which the second one has not been asked to resume from. */
  ghost predicate ReadsAt(j: Journal, e: nat)
    reads j, j.files
  {
    && |j.files| == 2 && j.level0 == QUERY && j.currentLocation == LocationOf(j.files[0].StampAt(e))
    && j.ResumeFrom(0, Down) == Some(e) && j.ResumeFrom(1, Down) == None
  }

  /** The first step, from the head. */
  method FirstStep(j: Journal, ghost a1: nat, ghost a2: nat, ghost b1: nat, ghost b2: nat)
    requires j.Apart() && j.FilesValid() && j.OffsetsOk() && j.level0 == QUERY && TwoSources(j.files, a1, a2, b1, b2)
    requires j.currentLocation.kind.Head? && forall i :: 0 <= i < 2 ==> j.files[i].currentOffset == 0
    modifies j`currentLocation, j`currentFile, j.files, set i | 0 <= i < |j.files| :: j.files[i].cache
    ensures j.FilesValid() && j.OffsetsOk() && ReadsAt(j, a1)
  {
    hide AnswerExact, Coherent, Earliest, Best, Stamps, TwoSources, Journal.Picked, Journal.InStep, Journal.FilesValid, Journal.OffsetsOk, OpenFile.StampAt,
         OpenFile.Wanted, OpenFile.Passed;
    TwoFilesHere(j.files, a1, a2, b1, b2);
    ghost var loc := j.currentLocation;
    ghost var answers;
    var r;
    r, answers := j.RealNext(Down);
    HeadAnswers(j.files, a1, a2, b1, b2, loc, answers);
    FirstPick(j.files, a1, a2, b1, b2, answers,
              if r && j.currentFile.Some? && j.currentFile.value < |j.files| then Some((j.currentFile.value, j.files[j.currentFile.value].currentOffset)) else None);
  }

  lemma {:induction false} TwoFilesHere(files: seq<OpenFile>, a1: nat, a2: nat, b1: nat, b2: nat)
    requires TwoSources(files, a1, a2, b1, b2)
    ensures |files| == 2 && a1 > 0 && a2 > 0 && a1 != a2
  {
  }

  /** A further step. */
  method NextStep(j: Journal, ghost a1: nat, ghost a2: nat, ghost b1: nat, ghost b2: nat, ghost cp: nat) returns (r: bool)
    requires j.Apart() && j.FilesValid() && j.OffsetsOk() && TwoSources(j.files, a1, a2, b1, b2) && cp in {a1, a2} && ReadsAt(j, cp)
    modifies j`currentLocation, j`currentFile, j.files, set i | 0 <= i < |j.files| :: j.files[i].cache
    ensures j.FilesValid() && j.OffsetsOk() && r == (cp == a1) && (r ==> ReadsAt(j, a2))
  {
    hide AnswerExact, Coherent, Earliest, Best, Stamps, TwoSources, Journal.Picked, Journal.InStep, Journal.OffsetsOk, OpenFile.StampAt,
         OpenFile.Wanted, OpenFile.Passed, OpenFile.Valid;
    TwoFilesHere(j.files, a1, a2, b1, b2);
    ghost var loc := j.currentLocation;
    ghost var answers;
    r, answers := j.RealNext(Down);
    NextAnswers(j.files, a1, a2, b1, b2, cp, loc, answers);
    OnlyPick(answers, if cp == a1 then Some(a2) else None,
             if r && j.currentFile.Some? && j.currentFile.value < |j.files| then Some((j.currentFile.value, j.files[j.currentFile.value].currentOffset)) else None);
  }

  /** The second file's entry of the second boot is asked for, and its time is before that of the last entry read; but reading
      from the head to the end does not come by it. */
  method LaterBootMissed(hash64: HashFunction) returns (j: Journal, read: seq<Stamp>, ghost e: nat)
    ensures |j.files| == 2 && j.level0 == QUERY && j.files[1].Wanted(QUERY, e)
    ensures |read| == 2 && j.files[1].StampAt(e) !in read && TimeOrder(j.files[1].StampAt(e), read[1]) < 0
  {
    hide WellBuilt, CacheOk, Log, TwoSources, ReadsAt, BootEntry, OpenFile.StampAt, OpenFile.EntryList, OpenFile.Wanted, FileEntries, Journal.OffsetsOk, OpenFile.Valid, TimeOrder;
    var f := WriteTwoBoots(hash64, 1, 10, 10, true, 150, 50);
    var g := WriteTwoBoots(hash64, 2, 1, 1, false, 120, 20);
    ghost var a1, a2 := TheEntries(f, A1, A2);
    ghost var b1, b2 := TheEntries(g, B1, B2);
    j := new Journal([f, g], QUERY);
    BothSources(j.files, a1, a2, b1, b2);
    TwoFilesHere(j.files, a1, a2, b1, b2);
    j.SeekHead();
    FirstStep(j, a1, a2, b1, b2);
    read := [j.currentLocation.stamp];
    ReadStamp(j, a1);
    var r := NextStep(j, a1, a2, b1, b2, a1);
    ReadStamp(j, a2);
    read := read + [j.currentLocation.stamp];
    r := NextStep(j, a1, a2, b1, b2, a2);
    assert !r;
    e := b2;
    MissedStamp(j.files, a1, a2, b1, b2);
  }

  lemma {:induction false} BothSources(files: seq<OpenFile>, a1: nat, a2: nat, b1: nat, b2: nat)
    requires |files| == 2 && files[0].seqnumId == 1 && files[1].seqnumId == 2
    requires FileEntries(files[0], a1, a2, A1, A2) && FileEntries(files[1], b1, b2, B1, B2)
    ensures TwoSources(files, a1, a2, b1, b2)
  {
  }

  lemma {:induction false} ReadStamp(j: Journal, e: nat)
    requires ReadsAt(j, e)
    ensures |j.files| == 2 && j.level0 == QUERY && j.currentLocation.stamp == j.files[0].StampAt(e)
  {
  }

  lemma {:induction false} MissedStamp(files: seq<OpenFile>, a1: nat, a2: nat, b1: nat, b2: nat)
    requires TwoSources(files, a1, a2, b1, b2)
    ensures |files| == 2 && files[1].Wanted(QUERY, b2)
    ensures files[1].StampAt(b2) !in [files[0].StampAt(a1), files[0].StampAt(a2)] && TimeOrder(files[1].StampAt(b2), files[0].StampAt(a2)) < 0
  {
    hide FileEntries, OpenFile.StampAt, OpenFile.Wanted, OpenFile.EntryList, BootEntry, BootField, Content;
    FirstFile(files[0], a1, a2);
    SecondFile(files[1], b1, b2);
    StampOfFirst(files[0], a1, a2, a1);
    StampOfFirst(files[0], a1, a2, a2);
    StampOfSecond(files[1], b1, b2);
  }
}
