/** Reading files of several sources as one journal (lib/sd-journal.c): where the clocks agree, in the order of time. */
module JournalAcross {
  import opened JournalDef
  import opened JournalView
  import opened JournalBisect
  import opened JournalSeek
  import opened JournalMatch
  import opened JournalMerge

  // ---------- the order of time ----------

  /** What is told apart across sources: the time, and the content at the same time. */
  type TimeKey = (nat, nat)

  function KeyOfStamp(a: Stamp): TimeKey {
    (a.realtime, a.xorHash)
  }

  predicate Later(k: TimeKey, l: TimeKey) {
    k.0 > l.0 || (k.0 == l.0 && k.1 > l.1)
  }

  lemma {:induction false} LaterMeaning(a: Stamp, b: Stamp)
    ensures TimeOrder(a, b) > 0 <==> Later(KeyOfStamp(a), KeyOfStamp(b))
    ensures TimeOrder(a, b) < 0 <==> Later(KeyOfStamp(b), KeyOfStamp(a))
  {
  }

  /** The key is beyond the location. */
  predicate KeyBeyond(loc: Location, direction: Direction, k: TimeKey) {
    loc.kind.Discrete? ==> if direction == Down then Later(k, KeyOfStamp(loc.stamp)) else Later(KeyOfStamp(loc.stamp), k)
  }

  predicate KeyAhead(direction: Direction, k: TimeKey, l: TimeKey) {
    if direction == Down then !Later(k, l) else !Later(l, k)
  }

  function KeyAt(f: OpenFile, e: nat): TimeKey {
    KeyOfStamp(f.StampAt(e))
  }

  // ---------- one file ----------

  /** The clocks of all entries of the file agree with this one's. */
  ghost predicate AgreesWith(f: OpenFile, a: Stamp) {
    forall e :: e in f.EntryList() ==> ClocksAgree(f.StampAt(e), a)
  }

  /** The clocks of the file agree, and they agree with those of the location, which is an entry or an end. */
  ghost predicate InTime(f: OpenFile, loc: Location, direction: Direction) {
    && WellBuilt(f.hash64, f.header, f.objects, f.view, {})
    && (forall e :: e in f.EntryList() ==> AgreesWith(f, f.StampAt(e)))
    && match loc.kind
       case Head => direction == Down
       case Tail => direction == Up
       case Discrete => loc == LocationOf(loc.stamp) && AgreesWith(f, loc.stamp)
       case Seek => false
  }

  /** Then comparing with the location is comparing by time. */
  lemma {:induction false} PassedByTime(f: OpenFile, loc: Location, direction: Direction, e: nat)
    requires InTime(f, loc, direction) && e in f.EntryList()
    ensures f.Passed(loc, direction, e) <==> KeyBeyond(loc, direction, KeyAt(f, e))
  {
    hide WellBuilt, CompareWithLocation, CompareEntryOrder, OpenFile.StampAt, OpenFile.EntryList, ClocksAgree, TimeOrder, Later;
    if loc.kind.Discrete? {
      ComparesByTime(f.StampAt(e), loc.stamp);
      LocationByTime(f.StampAt(e), loc.stamp);
      LaterMeaning(f.StampAt(e), loc.stamp);
    }
  }

  lemma {:induction false} LocationByTime(a: Stamp, b: Stamp)
    requires ClocksAgree(a, b)
    ensures CompareWithLocation(a, LocationOf(b)) == CompareEntryOrder(a, b)
  {
    ComparisonsAgree(a, b);
  }

  /** Within the file, the order of the entries is that of their time. */
  lemma {:induction false} TimeOrders(f: OpenFile, loc: Location, direction: Direction, e: nat, e': nat)
    requires InTime(f, loc, direction) && e in f.EntryList() && e' in f.EntryList()
    ensures e < e' <==> Later(KeyAt(f, e'), KeyAt(f, e))
    ensures e < e' ==> RealtimeAt(f.objects, e) < RealtimeAt(f.objects, e')
  {
    hide WellBuilt, OpenFile.EntryList;
    SeqnumOrders(f, e, e');
    SeqnumOrders(f, e', e);
    assert AgreesWith(f, f.StampAt(e'));
    assert ClocksAgree(f.StampAt(e), f.StampAt(e'));
  }

  lemma {:induction false} AheadByTime(f: OpenFile, loc: Location, way: Direction, direction: Direction, e: nat, e': nat)
    requires InTime(f, loc, way) && e in f.EntryList() && e' in f.EntryList()
    ensures KeyAhead(direction, KeyAt(f, e), KeyAt(f, e')) <==> Ahead(direction, e, e')
  {
    hide InTime, Later, KeyAt, OpenFile.EntryList;
    TimeOrders(f, loc, way, e, e');
    TimeOrders(f, loc, way, e', e);
  }

  /** r is the wanted entry of f with the first time beyond the location. */
  ghost predicate FirstByTime(f: OpenFile, m: Option<Match>, loc: Location, direction: Direction, r: Option<nat>) {
    && (r.Some? ==> f.Wanted(m, r.value) && KeyBeyond(loc, direction, KeyAt(f, r.value)))
    && forall e :: f.Wanted(m, e) && KeyBeyond(loc, direction, KeyAt(f, e)) ==>
         r.Some? && KeyAhead(direction, KeyAt(f, r.value), KeyAt(f, e))
  }

  /** The entry the file resumes from, if any, is not beyond the location. */
  predicate InStepByTime(f: OpenFile, cp: Option<nat>, loc: Location, direction: Direction) {
    cp.Some? ==> !KeyBeyond(loc, direction, KeyAt(f, cp.value))
  }

  /** x is not behind any wanted entry beyond the location. */
  ghost predicate NothingBefore(f: OpenFile, m: Option<Match>, loc: Location, direction: Direction, x: nat) {
    forall e :: f.Wanted(m, e) && KeyBeyond(loc, direction, KeyAt(f, e)) ==> Ahead(direction, x, e)
  }

  /** No wanted entry beyond the location comes before the first wanted one of its boot, from its time within the boot on. */
  ghost predicate BootFirst(f: OpenFile, m: Option<Match>, loc: Location, direction: Direction) {
    (exists e :: f.Wanted(m, e) && KeyBeyond(loc, direction, KeyAt(f, e))) ==>
      exists x :: f.Wanted(m, x) && f.OfBoot(loc, direction, x) && NothingBefore(f, m, loc, direction, x)
  }

  /** A search by a time within a boot of the file does not pass over entries of other boots. */
  ghost predicate SearchesRight(f: OpenFile, m: Option<Match>, loc: Location, direction: Direction) {
    f.ToBoot(loc) ==> f.BootForward(loc) && f.ExactBoot(m, loc, direction) && BootFirst(f, m, loc, direction)
  }

  /** What the file is asked answers: the search from the location, or resumed behind cp. */
  ghost predicate Answers(f: OpenFile, m: Option<Match>, cp: Option<nat>, loc: Location, direction: Direction, r: Option<nat>) {
    f.FirstBeyondLocation(m, cp, loc, direction, r) && (cp.None? ==> f.FromSearch(m, loc, direction, r))
  }

  /** What is first in the file among the entries beyond the location is first by time. */
  lemma {:induction false} FirstInFile(f: OpenFile, m: Option<Match>, loc: Location, direction: Direction, r: Option<nat>)
    requires InTime(f, loc, direction) && (r.Some? ==> f.Wanted(m, r.value) && f.Passed(loc, direction, r.value))
    ensures FirstByTime(f, m, loc, direction, r) <==>
            forall e :: f.Wanted(m, e) && KeyBeyond(loc, direction, KeyAt(f, e)) ==> r.Some? && Ahead(direction, r.value, e)
  {
    hide InTime, KeyBeyond, KeyAhead, KeyAt, OpenFile.Wanted, OpenFile.EntryList, OpenFile.Passed;
    if r.Some? {
      WantedListed(f, m, r.value);
      PassedByTime(f, loc, direction, r.value);
      forall e | f.Wanted(m, e) ensures KeyAhead(direction, KeyAt(f, r.value), KeyAt(f, e)) <==> Ahead(direction, r.value, e) {
        WantedListed(f, m, e);
        AheadByTime(f, loc, direction, direction, r.value, e);
      }
    }
  }

  /** An entry beyond the location is not behind it by number or by time. */
  lemma {:induction false} BeyondFrom(f: OpenFile, loc: Location, direction: Direction, e: nat)
    requires loc.kind.Discrete? ==> loc == LocationOf(loc.stamp) && ClocksAgree(f.StampAt(e), loc.stamp)
    requires KeyBeyond(loc, direction, KeyAt(f, e)) && !loc.kind.Seek?
    ensures f.From(loc, direction, e)
  {
  }

  /** Entries beyond the location are not before where the search starts. */
  lemma {:induction false} BeyondStarts(f: OpenFile, cp: Option<nat>, loc: Location, direction: Direction, e: nat)
    requires InTime(f, loc, direction) && e in f.EntryList() && KeyBeyond(loc, direction, KeyAt(f, e))
    requires cp.Some? ==> cp.value in f.EntryList() && !KeyBeyond(loc, direction, KeyAt(f, cp.value))
    ensures f.Starts(cp, loc, direction, e)
  {
    hide WellBuilt, OpenFile.EntryList, OpenFile.From, ClocksAgree, KeyAt;
    if cp.Some? {
      hide InTime;
      TimeOrders(f, loc, direction, cp.value, e);
      TimeOrders(f, loc, direction, e, cp.value);
    } else {
      BeyondFrom(f, loc, direction, e);
    }
  }

  lemma {:induction false} ClockRunsForward(f: OpenFile, loc: Location, direction: Direction)
    requires InTime(f, loc, direction)
    ensures SortedBy(f.objects, Realtime, ListOf(f.view, MAIN))
  {
    hide WellBuilt, OpenFile.EntryList, Readable, AgreesWith;
    f.FileLists();
    hide InTime;
    var list := f.EntryList();
    forall a, b | 0 <= a < b < |list| ensures RealtimeAt(f.objects, list[a]) <= RealtimeAt(f.objects, list[b]) {
      TimeOrders(f, loc, direction, list[a], list[b]);
    }
  }

  /** Where no boot is looked for, the search in a file is exact. */
  lemma {:induction false} ExactByTime(f: OpenFile, m: Option<Match>, loc: Location, direction: Direction)
    requires InTime(f, loc, direction) && f.ExactFile(m, direction) && !f.ToBoot(loc)
    ensures f.ExactFrom(m, loc, direction)
  {
    hide WellBuilt, AgreesWith, OpenFile.ExactFile, OpenFile.ToBoot, OpenFile.EntryList, SortedBy;
    ClockRunsForward(f, loc, direction);
  }

  /** What the search in one file finds, said by time. */
  lemma {:induction false} FileNextByTime(f: OpenFile, m: Option<Match>, cp: Option<nat>, loc: Location, direction: Direction, r: Option<nat>)
    requires InTime(f, loc, direction) && f.ExactFile(m, direction) && (cp.Some? ==> f.Wanted(m, cp.value))
    requires InStepByTime(f, cp, loc, direction) && (cp.None? ==> SearchesRight(f, m, loc, direction))
    requires Answers(f, m, cp, loc, direction, r)
    ensures FirstByTime(f, m, loc, direction, r)
  {
    hide InTime, OpenFile.Passed, OpenFile.ExactFile, OpenFile.ExactFrom, OpenFile.ToBoot, KeyBeyond, KeyAt, FirstByTime,
         SearchesRight, OpenFile.FromSearch, OpenFile.EntryList, OpenFile.Wanted, OpenFile.Starts;
    FirstInFile(f, m, loc, direction, r);
    if cp.None? && f.ToBoot(loc) {
      BootSearch(f, m, loc, direction, r);
    } else {
      if cp.None? {
        ExactByTime(f, m, loc, direction);
      } else {
        WantedListed(f, m, cp.value);
      }
      forall e | f.Wanted(m, e) && KeyBeyond(loc, direction, KeyAt(f, e)) ensures r.Some? && Ahead(direction, r.value, e) {
        WantedListed(f, m, e);
        PassedByTime(f, loc, direction, e);
        BeyondStarts(f, cp, loc, direction, e);
      }
    }
  }

  /** The search by a time within a boot of the file. */
  lemma {:induction false} BootSearch(f: OpenFile, m: Option<Match>, loc: Location, direction: Direction, r: Option<nat>)
    requires InTime(f, loc, direction) && f.ExactFile(m, direction) && f.ToBoot(loc) && SearchesRight(f, m, loc, direction)
    requires Answers(f, m, None, loc, direction, r)
    ensures FirstByTime(f, m, loc, direction, r)
  {
    hide InTime, OpenFile.Passed, OpenFile.ExactFile, OpenFile.ExactStart, OpenFile.ToBoot, OpenFile.BootForward, OpenFile.ExactBoot, OpenFile.OfBoot,
         KeyBeyond, KeyAt, FirstByTime, OpenFile.EntryList, OpenFile.Wanted, OpenFile.FromBoot;
    FirstInFile(f, m, loc, direction, r);
    var c: Option<nat> :| (c.Some? ==> f.Wanted(m, c.value)) && f.LocatedInBoot(m, loc, direction, c) && f.Stepped(m, loc, direction, c, r);
    forall e | f.Wanted(m, e) && KeyBeyond(loc, direction, KeyAt(f, e)) ensures r.Some? && Ahead(direction, r.value, e) {
      WantedListed(f, m, e);
      PassedByTime(f, loc, direction, e);
      var x :| f.Wanted(m, x) && f.OfBoot(loc, direction, x) && NothingBefore(f, m, loc, direction, x);
      assert Ahead(direction, c.value, x) && Ahead(direction, x, e);
    }
  }

  /** A search by a time within a boot of the file is right exactly if no entry of another boot comes before those of the boot. */
  lemma {:induction false} BootSearchExact(f: OpenFile, m: Option<Match>, loc: Location, direction: Direction, r: Option<nat>)
    requires InTime(f, loc, direction) && f.ExactFile(m, direction)
    requires f.ToBoot(loc) && f.BootForward(loc) && f.ExactBoot(m, loc, direction) && (m.Some? ==> NoConjunction(m.value))
    requires Answers(f, m, None, loc, direction, r)
    ensures FirstByTime(f, m, loc, direction, r) <==> BootFirst(f, m, loc, direction)
  {
    hide InTime, OpenFile.Passed, OpenFile.ExactFile, OpenFile.ExactStart, OpenFile.ToBoot, OpenFile.BootForward, OpenFile.ExactBoot, OpenFile.OfBoot,
         KeyBeyond, KeyAt, FirstByTime, OpenFile.EntryList, OpenFile.Wanted, NoConjunction, OpenFile.FromBoot;
    FirstInFile(f, m, loc, direction, r);
    if BootFirst(f, m, loc, direction) {
      BootSearch(f, m, loc, direction, r);
    }
    if FirstByTime(f, m, loc, direction, r) && exists e :: f.Wanted(m, e) && KeyBeyond(loc, direction, KeyAt(f, e)) {
      var c: Option<nat> :| (c.Some? ==> f.Wanted(m, c.value)) && f.LocatedInBoot(m, loc, direction, c) && f.Stepped(m, loc, direction, c, r);
      assert f.OfBoot(loc, direction, c.value);
      forall e | f.Wanted(m, e) && KeyBeyond(loc, direction, KeyAt(f, e)) ensures Ahead(direction, c.value, e) {
        assert Ahead(direction, c.value, r.value) && Ahead(direction, r.value, e);
      }
      assert NothingBefore(f, m, loc, direction, c.value);
    }
  }

  // ---------- all files ----------

  /** The clocks of all entries of all files agree. */
  ghost predicate ClocksInStep(files: seq<OpenFile>) {
    forall i, j, e :: 0 <= i < |files| && 0 <= j < |files| && e in files[j].EntryList() ==> AgreesWith(files[i], files[j].StampAt(e))
  }

  lemma {:induction false} AllInTime(files: seq<OpenFile>, i: nat, loc: Location, direction: Direction)
    requires ClocksInStep(files) && Placed(files, loc, direction) && i < |files|
    requires WellBuilt(files[i].hash64, files[i].header, files[i].objects, files[i].view, {})
    ensures InTime(files[i], loc, direction)
  {
    hide WellBuilt, AgreesWith, OpenFile.EntryList, OpenFile.StampAt;
  }

  /** Searching a file by a time within a boot is never wrong: the file does not have that boot, or its entries come first. */
  ghost predicate NothingOverlooked(files: seq<OpenFile>, m: Option<Match>, direction: Direction) {
    forall i, k, e :: 0 <= i < |files| && 0 <= k < |files| && files[k].Wanted(m, e) ==>
                        SearchesRight(files[i], m, LocationOf(files[k].StampAt(e)), direction)
  }

  /** best is the first wanted entry by time beyond the location, over all files. */
  ghost predicate FirstOfAll(files: seq<OpenFile>, m: Option<Match>, loc: Location, direction: Direction, best: Option<Stamp>) {
    && (best.Some? ==> KeyBeyond(loc, direction, KeyOfStamp(best.value)))
    && forall i, e :: 0 <= i < |files| && files[i].Wanted(m, e) && KeyBeyond(loc, direction, KeyAt(files[i], e)) ==>
         best.Some? && KeyAhead(direction, KeyOfStamp(best.value), KeyAt(files[i], e))
  }

  lemma {:induction false} AheadMeaning(direction: Direction, a: Stamp, b: Stamp)
    ensures KeyAhead(direction, KeyOfStamp(a), KeyOfStamp(b)) <==> if direction == Down then TimeOrder(a, b) <= 0 else TimeOrder(a, b) >= 0
  {
  }

  lemma {:induction false} AheadTwice(direction: Direction, k: TimeKey, l: TimeKey, n: TimeKey)
    requires KeyAhead(direction, k, l) && KeyAhead(direction, l, n)
    ensures KeyAhead(direction, k, n)
  {
  }

  /** The answers are comparable by time, so that the pick is the first of them. */
  lemma {:induction false} PickIsFirst(files: seq<OpenFile>, m: Option<Match>, answers: seq<Option<nat>>, direction: Direction, best: Option<Stamp>)
    requires ClocksInStep(files) && |answers| == |files| && (best.Some? ==> best in Stamps(files, answers))
    requires forall i :: 0 <= i < |files| && answers[i].Some? ==> files[i].Wanted(m, answers[i].value)
    requires Coherent(Stamps(files, answers)) ==> Earliest(Stamps(files, answers), direction, best)
    ensures forall i :: 0 <= i < |files| && answers[i].Some? ==>
                          best.Some? && KeyAhead(direction, KeyOfStamp(best.value), KeyAt(files[i], answers[i].value))
  {
    hide Coherent, Earliest, ClocksAgree, TimeOrder, KeyAhead, OpenFile.StampAt, OpenFile.Wanted, OpenFile.EntryList;
    var stamps := Stamps(files, answers);
    forall i, j | 0 <= i < |stamps| && 0 <= j < |stamps| && stamps[i].Some? && stamps[j].Some?
      ensures ClocksAgree(stamps[i].value, stamps[j].value)
    {
      WantedListed(files[i], m, answers[i].value);
      WantedListed(files[j], m, answers[j].value);
      assert AgreesWith(files[i], files[j].StampAt(answers[j].value));
    }
    CoherentByTime(stamps, direction, best);
    forall i | 0 <= i < |files| && answers[i].Some?
      ensures best.Some? && KeyAhead(direction, KeyOfStamp(best.value), KeyAt(files[i], answers[i].value))
    {
      assert stamps[i].Some?;
      AheadMeaning(direction, best.value, stamps[i].value);
    }
  }

  /** If every file answers with its first entry by time, the pick is the first of all. */
  lemma {:induction false} FirstOfAnswers(files: seq<OpenFile>, m: Option<Match>, loc: Location, answers: seq<Option<nat>>, direction: Direction, best: Option<Stamp>)
    requires ClocksInStep(files) && |answers| == |files| && (best.Some? ==> best in Stamps(files, answers))
    requires forall i :: 0 <= i < |files| ==> FirstByTime(files[i], m, loc, direction, answers[i])
    requires Coherent(Stamps(files, answers)) ==> Earliest(Stamps(files, answers), direction, best)
    ensures FirstOfAll(files, m, loc, direction, best)
  {
    hide ClocksInStep, Coherent, Earliest, KeyBeyond, KeyAhead, OpenFile.StampAt, OpenFile.Wanted;
    PickIsFirst(files, m, answers, direction, best);
    if best.Some? {
      var k :| 0 <= k < |answers| && Stamps(files, answers)[k] == best;
      assert FirstByTime(files[k], m, loc, direction, answers[k]);
    }
    forall i, e | 0 <= i < |files| && files[i].Wanted(m, e) && KeyBeyond(loc, direction, KeyAt(files[i], e))
      ensures best.Some? && KeyAhead(direction, KeyOfStamp(best.value), KeyAt(files[i], e))
    {
      assert FirstByTime(files[i], m, loc, direction, answers[i]);
      AheadTwice(direction, KeyOfStamp(best.value), KeyAt(files[i], answers[i].value), KeyAt(files[i], e));
    }
  }

  // ---------- reading by time ----------

  /** Reading on in this direction is by time, and no file resumes beyond the location. */
  ghost predicate InStepTime(j: Journal, direction: Direction)
    reads j, j.files
  {
    && ClocksInStep(j.files) && Placed(j.files, j.currentLocation, direction)
    && (forall i :: 0 <= i < |j.files| ==> j.files[i].ExactFile(j.level0, direction))
    && (forall i :: 0 <= i < |j.files| ==> SearchesRight(j.files[i], j.level0, j.currentLocation, direction))
    && forall i :: 0 <= i < |j.files| ==> InStepByTime(j.files[i], j.ResumeFrom(i, direction), j.currentLocation, direction)
  }

  lemma {:induction false} BeyondOn(loc: Location, direction: Direction, a: Stamp, k: TimeKey)
    requires KeyBeyond(loc, direction, KeyOfStamp(a)) && !KeyBeyond(loc, direction, k)
    ensures !KeyBeyond(LocationOf(a), direction, k)
  {
  }

  /** The file is in step, and no search in it overlooks anything. */
  ghost predicate FileReady(f: OpenFile, m: Option<Match>, cp: Option<nat>, loc: Location, direction: Direction) {
    && WellBuilt(f.hash64, f.header, f.objects, f.view, {}) && f.ExactFile(m, direction) && SearchesRight(f, m, loc, direction)
    && InStepByTime(f, cp, loc, direction) && (cp.Some? ==> f.Wanted(m, cp.value))
  }

  ghost predicate AllReady(files: seq<OpenFile>, m: Option<Match>, cps: seq<Option<nat>>, loc: Location, direction: Direction) {
    && ClocksInStep(files) && Placed(files, loc, direction) && |cps| == |files|
    && forall i :: 0 <= i < |files| ==> FileReady(files[i], m, cps[i], loc, direction)
  }

  lemma {:induction false} ReadyNow(j: Journal, direction: Direction)
    requires j.FilesValid() && j.OffsetsOk() && InStepTime(j, direction)
    ensures AllReady(j.files, j.level0, ResumePoints(j, direction), j.currentLocation, direction)
  {
    hide ClocksInStep, Placed, CacheOk, WellBuilt, SearchesRight, InStepByTime, OpenFile.ExactFile, OpenFile.Wanted;
    assert forall i :: 0 <= i < |j.files| ==> j.files[i].Valid();
  }

  /** What every file answers, said by time. */
  lemma {:induction false} AnswersByTime(files: seq<OpenFile>, i: nat, m: Option<Match>, cp: Option<nat>, loc: Location, direction: Direction, answer: Option<nat>)
    requires ClocksInStep(files) && Placed(files, loc, direction) && i < |files| && FileReady(files[i], m, cp, loc, direction)
    requires AnswerExact(files, i, m, cp, loc, direction, answer)
    ensures FirstByTime(files[i], m, loc, direction, answer)
  {
    hide ClocksInStep, Placed, WellBuilt, SearchesRight, FirstByTime, InTime, InStepByTime, BySeqnums, FirstBySeqnum, OpenFile.ExactFile,
         OpenFile.Wanted, OpenFile.FirstBeyondLocation, OpenFile.FromSearch;
    AllInTime(files, i, loc, direction);
    FileNextByTime(files[i], m, cp, loc, direction, answer);
  }

  /** No file resumes beyond the entry that was picked. */
  lemma {:induction false} StaysInStepTime(files: seq<OpenFile>, i: nat, m: Option<Match>, loc: Location, direction: Direction, best: Stamp, cp: Option<nat>)
    requires i < |files| && InStepByTime(files[i], cp, loc, direction) && FirstOfAll(files, m, loc, direction, Some(best))
    ensures InStepByTime(files[i], cp, LocationOf(best), direction)
  {
    hide KeyBeyond, OpenFile.Wanted;
    if cp.Some? {
      BeyondOn(loc, direction, best, KeyAt(files[i], cp.value));
    }
  }

  lemma {:induction false} NotBeyondItself(f: OpenFile, e: nat, direction: Direction)
    ensures InStepByTime(f, Some(e), LocationOf(f.StampAt(e)), direction)
  {
  }

  lemma {:induction false} PickedStamp(files: seq<OpenFile>, answers: seq<Option<nat>>, best: Option<(nat, nat)>)
    requires |answers| == |files| && Journal.Picked(answers, best)
    ensures best.Some? ==> best.value.0 < |files| && Some(files[best.value.0].StampAt(best.value.1)) in Stamps(files, answers)
  {
    if best.Some? {
      assert Stamps(files, answers)[best.value.0] == Some(files[best.value.0].StampAt(best.value.1));
    }
  }

  lemma {:induction false} PlacedAt(files: seq<OpenFile>, m: Option<Match>, k: nat, e: nat, direction: Direction)
    requires k < |files| && files[k].Wanted(m, e) && NothingOverlooked(files, m, direction)
    ensures Placed(files, LocationOf(files[k].StampAt(e)), direction)
    ensures forall i :: 0 <= i < |files| ==> SearchesRight(files[i], m, LocationOf(files[k].StampAt(e)), direction)
  {
    hide OpenFile.EntryList, OpenFile.Wanted, SearchesRight;
    WantedListed(files[k], m, e);
    NewPlace(files, k, e, direction);
  }

  /** One step: the first wanted entry by time over all files, and the files stay in step. */
  method StepByTime(j: Journal, direction: Direction) returns (r: bool)
    requires j.Apart() && j.FilesValid() && j.OffsetsOk()
    requires InStepTime(j, direction) && NothingOverlooked(j.files, j.level0, direction)
    modifies j`currentLocation, j`currentFile, j.files, set i | 0 <= i < |j.files| :: j.files[i].cache
    ensures j.FilesValid() && j.OffsetsOk() && InStepTime(j, direction)
    ensures !r ==> j.currentLocation == old(j.currentLocation)
    ensures r ==> exists k, e :: 0 <= k < |j.files| && j.files[k].Wanted(j.level0, e) && j.currentLocation == LocationOf(j.files[k].StampAt(e))
    ensures FirstOfAll(j.files, j.level0, old(j.currentLocation), direction, if r then Some(j.currentLocation.stamp) else None)
  {
    hide AllReady, ResumePoints, ClocksInStep, Placed, Coherent, Earliest, Best, AnswerExact, SearchesRight, FirstByTime, FirstOfAll, InStepByTime, KeyBeyond,
         InStepTime, NothingOverlooked, Stamps,
         OpenFile.ExactFile, OpenFile.Wanted, OpenFile.StampAt, OpenFile.EntryList, OpenFile.Passed, BySeqnums, WellBuilt, CacheOk, OneSource, Journal.InStep, Journal.Picked,
         Journal.FilesValid, Journal.OffsetsOk;
    ghost var loc, cps := j.currentLocation, ResumePoints(j, direction);
    ReadyNow(j, direction);
    ghost var answers;
    r, answers := j.RealNext(direction);
    assert forall i :: 0 <= i < |j.files| ==> AnswerExact(j.files, i, j.level0, cps[i], loc, direction, answers[i]);
    if !r {
      StepFirst(j.files, j.level0, cps, loc, direction, answers, None);
      assert ResumePoints(j, direction) == cps;
      SameStep(j, cps, direction);
      return;
    }
    ghost var k := j.currentFile.value;
    ghost var e := j.files[k].currentOffset;
    PickedStamp(j.files, answers, Some((k, e)));
    StepFirst(j.files, j.level0, cps, loc, direction, answers, Some(j.currentLocation.stamp));
    assert forall i :: 0 <= i < |j.files| && i != k ==> j.ResumeFrom(i, direction) == cps[i];
    StepStays(j, k, e, cps, loc, direction);
  }

  lemma {:induction false} SameStep(j: Journal, cps: seq<Option<nat>>, direction: Direction)
    requires AllReady(j.files, j.level0, cps, j.currentLocation, direction) && cps == ResumePoints(j, direction)
    ensures InStepTime(j, direction)
  {
    hide ClocksInStep, Placed, SearchesRight, InStepByTime, WellBuilt, OpenFile.ExactFile, OpenFile.Wanted;
    assert forall i :: 0 <= i < |j.files| ==> FileReady(j.files[i], j.level0, cps[i], j.currentLocation, direction);
  }

  /** Where each file resumes from. */
  ghost function ResumePoints(j: Journal, direction: Direction): (cps: seq<Option<nat>>)
    reads j.files
    ensures |cps| == |j.files| && forall i :: 0 <= i < |cps| ==> cps[i] == j.ResumeFrom(i, direction)
  {
    seq(|j.files|, i requires 0 <= i < |j.files| reads j.files => j.ResumeFrom(i, direction))
  }

  lemma {:induction false} StepFirst(files: seq<OpenFile>, m: Option<Match>, cps: seq<Option<nat>>, loc: Location, direction: Direction,
                                     answers: seq<Option<nat>>, best: Option<Stamp>)
    requires AllReady(files, m, cps, loc, direction) && |answers| == |files| && (best.Some? ==> best in Stamps(files, answers))
    requires forall i :: 0 <= i < |files| ==> AnswerExact(files, i, m, cps[i], loc, direction, answers[i])
    requires Coherent(Stamps(files, answers)) ==> Earliest(Stamps(files, answers), direction, best)
    ensures FirstOfAll(files, m, loc, direction, best)
  {
    hide ClocksInStep, Placed, Coherent, Earliest, AnswerExact, FirstByTime, FirstOfAll, Stamps, FileReady;
    forall i | 0 <= i < |files| ensures FirstByTime(files[i], m, loc, direction, answers[i]) {
      AnswersByTime(files, i, m, cps[i], loc, direction, answers[i]);
    }
    FirstOfAnswers(files, m, loc, answers, direction, best);
  }

  lemma {:induction false} StepStays(j: Journal, k: nat, e: nat, cps: seq<Option<nat>>, loc: Location, direction: Direction)
    requires k < |j.files| == |cps| && j.files[k].Wanted(j.level0, e) && NothingOverlooked(j.files, j.level0, direction)
    requires j.currentLocation == LocationOf(j.files[k].StampAt(e)) && j.ResumeFrom(k, direction) in {Some(e), None}
    requires forall i :: 0 <= i < |j.files| && i != k ==> j.ResumeFrom(i, direction) == cps[i]
    requires AllReady(j.files, j.level0, cps, loc, direction)
    requires FirstOfAll(j.files, j.level0, loc, direction, Some(j.currentLocation.stamp))
    ensures InStepTime(j, direction)
  {
    hide ClocksInStep, Placed, SearchesRight, FirstOfAll, InStepByTime, NothingOverlooked, WellBuilt, OpenFile.ExactFile, OpenFile.Wanted, OpenFile.StampAt;
    assert forall i :: 0 <= i < |j.files| ==> FileReady(j.files[i], j.level0, cps[i], loc, direction);
    PlacedAt(j.files, j.level0, k, e, direction);
    forall i | 0 <= i < |j.files| ensures InStepByTime(j.files[i], j.ResumeFrom(i, direction), j.currentLocation, direction) {
      if i == k {
        NotBeyondItself(j.files[k], e, direction);
        FromAnywhere(j.files[k], j.currentLocation, direction);
      } else {
        StaysInStepTime(j.files, i, j.level0, loc, direction, j.currentLocation.stamp, cps[i]);
      }
    }
  }

  lemma {:induction false} FromAnywhere(f: OpenFile, loc: Location, direction: Direction)
    ensures InStepByTime(f, None, loc, direction)
  {
  }

  // ---------- reading everything ----------

  ghost function WantedKeys(files: seq<OpenFile>, m: Option<Match>): set<TimeKey> {
    set i, e | 0 <= i < |files| && e in files[i].EntryList() && files[i].Wanted(m, e) :: KeyAt(files[i], e)
  }

  ghost function UnreadKeys(wanted: set<TimeKey>, loc: Location): set<TimeKey> {
    set k | k in wanted && KeyBeyond(loc, Down, k)
  }

  /** The entries read are in the order of time, and theirs are exactly the wanted keys up to the location. */
  ghost predicate ReadTo(wanted: set<TimeKey>, loc: Location, read: seq<Stamp>) {
    && (forall i, j :: 0 <= i < j < |read| ==> TimeOrder(read[i], read[j]) < 0)
    && (forall i :: 0 <= i < |read| ==> KeyOfStamp(read[i]) in wanted && !KeyBeyond(loc, Down, KeyOfStamp(read[i])))
    && (forall k :: k in wanted && !KeyBeyond(loc, Down, k) ==> exists i :: 0 <= i < |read| && KeyOfStamp(read[i]) == k)
  }

  lemma {:induction false} WantedKey(files: seq<OpenFile>, m: Option<Match>, i: nat, e: nat)
    requires i < |files| && files[i].Wanted(m, e)
    ensures KeyAt(files[i], e) in WantedKeys(files, m)
  {
    assert e in files[i].EntryList();
  }

  /** The first of all comes before every wanted key beyond the location. */
  lemma {:induction false} BeforeUnread(files: seq<OpenFile>, m: Option<Match>, loc: Location, best: Option<Stamp>)
    requires FirstOfAll(files, m, loc, Down, best)
    ensures forall k :: k in UnreadKeys(WantedKeys(files, m), loc) ==> best.Some? && !Later(KeyOfStamp(best.value), k)
  {
    hide OpenFile.Wanted, OpenFile.EntryList, KeyBeyond, Later;
  }

  lemma {:induction false} OneMoreKey(wanted: set<TimeKey>, loc: Location, read: seq<Stamp>, best: Stamp)
    requires ReadTo(wanted, loc, read) && KeyOfStamp(best) in UnreadKeys(wanted, loc)
    requires forall k :: k in UnreadKeys(wanted, loc) ==> !Later(KeyOfStamp(best), k)
    ensures ReadTo(wanted, LocationOf(best), read + [best])
    ensures |UnreadKeys(wanted, LocationOf(best))| < |UnreadKeys(wanted, loc)|
  {
    var loc', all, key := LocationOf(best), read + [best], KeyOfStamp(best);
    forall k: TimeKey ensures KeyBeyond(loc', Down, k) <==> Later(k, key) {
    }
    forall i | 0 <= i < |read| ensures TimeOrder(read[i], best) < 0 {
      NotBeyondEarlier(loc, read[i], best);
    }
    forall k | k in wanted && !KeyBeyond(loc', Down, k) ensures exists i :: 0 <= i < |all| && KeyOfStamp(all[i]) == k {
      if KeyBeyond(loc, Down, k) {
        assert k in UnreadKeys(wanted, loc);
        OneOrOther(k, key);
        assert KeyOfStamp(all[|read|]) == k;
      } else {
        var i :| 0 <= i < |read| && KeyOfStamp(read[i]) == k;
        assert KeyOfStamp(all[i]) == k;
      }
    }
    SmallerSet(UnreadKeys(wanted, loc'), UnreadKeys(wanted, loc), key);
  }

  lemma {:induction false} OneOrOther(k: TimeKey, l: TimeKey)
    ensures Later(k, l) || Later(l, k) || k == l
  {
  }

  lemma {:induction false} NotBeyondEarlier(loc: Location, a: Stamp, b: Stamp)
    requires !KeyBeyond(loc, Down, KeyOfStamp(a)) && KeyBeyond(loc, Down, KeyOfStamp(b))
    ensures TimeOrder(a, b) < 0
  {
  }

  /** Reads the files of several sources from the head on: every time and content of a wanted entry once, in the order of time. */
  method ReadAllByTime(j: Journal) returns (read: seq<Stamp>)
    requires j.Apart() && j.FilesValid() && ClocksInStep(j.files) && NothingOverlooked(j.files, j.level0, Down)
    modifies j`currentLocation, j`currentFile, j.files, set i | 0 <= i < |j.files| :: j.files[i].cache
    ensures forall i, k :: 0 <= i < k < |read| ==> TimeOrder(read[i], read[k]) < 0
    ensures forall i :: 0 <= i < |read| ==> KeyOfStamp(read[i]) in WantedKeys(j.files, j.level0)
    ensures forall k :: k in WantedKeys(j.files, j.level0) ==> exists i :: 0 <= i < |read| && KeyOfStamp(read[i]) == k
  {
    hide ClocksInStep, WantedKeys, UnreadKeys, FirstOfAll, NothingOverlooked, InStepTime, KeyBeyond, Later, TimeOrder, OpenFile.Wanted, OpenFile.EntryList,
         OpenFile.StampAt, WellBuilt, CacheOk, OneSource, Journal.InStep;
    read := [];
    j.SeekHead();
    HeadInStep(j);
    ghost var wanted := WantedKeys(j.files, j.level0);
    NoKeyRead(wanted, j.currentLocation);
    while true
      invariant j.FilesValid() && j.OffsetsOk() && InStepTime(j, Down)
      invariant ReadTo(wanted, j.currentLocation, read)
      decreases |UnreadKeys(wanted, j.currentLocation)|
    {
      ghost var loc := j.currentLocation;
      var r := StepByTime(j, Down);
      BeforeUnread(j.files, j.level0, loc, if r then Some(j.currentLocation.stamp) else None);
      if !r {
        AllRead(wanted, loc, read);
        return;
      }
      NowUnread(j.files, j.level0, loc, j.currentLocation);
      OneMoreKey(wanted, loc, read, j.currentLocation.stamp);
      read := read + [j.currentLocation.stamp];
    }
  }

  lemma {:induction false} HeadInStep(j: Journal)
    requires ClocksInStep(j.files) && j.currentLocation.kind.Head? && forall i :: 0 <= i < |j.files| ==> j.files[i].currentOffset == 0
    ensures InStepTime(j, Down)
  {
    hide ClocksInStep;
  }

  lemma {:induction false} NoKeyRead(wanted: set<TimeKey>, loc: Location)
    requires loc.kind.Head?
    ensures ReadTo(wanted, loc, [])
  {
  }

  lemma {:induction false} AllRead(wanted: set<TimeKey>, loc: Location, read: seq<Stamp>)
    requires ReadTo(wanted, loc, read) && UnreadKeys(wanted, loc) == {}
    ensures forall k :: k in wanted ==> exists i :: 0 <= i < |read| && KeyOfStamp(read[i]) == k
  {
    hide KeyBeyond, TimeOrder;
    forall k | k in wanted ensures exists i :: 0 <= i < |read| && KeyOfStamp(read[i]) == k {
      assert k !in UnreadKeys(wanted, loc);
    }
  }

  /** The entry picked was to be read. */
  lemma {:induction false} NowUnread(files: seq<OpenFile>, m: Option<Match>, loc: Location, loc': Location)
    requires exists k, e :: 0 <= k < |files| && files[k].Wanted(m, e) && loc' == LocationOf(files[k].StampAt(e))
    requires FirstOfAll(files, m, loc, Down, Some(loc'.stamp))
    ensures KeyOfStamp(loc'.stamp) in UnreadKeys(WantedKeys(files, m), loc) && loc' == LocationOf(loc'.stamp)
  {
    hide KeyBeyond, OpenFile.Wanted, WantedKeys;
    var k, e :| 0 <= k < |files| && files[k].Wanted(m, e) && loc' == LocationOf(files[k].StampAt(e));
    WantedKey(files, m, k, e);
  }
}
