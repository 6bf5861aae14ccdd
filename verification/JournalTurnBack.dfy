/** A case where reading a journal of several files misses an entry (lib/sd-journal.c): two files,
    written by the writer, read forward to the end, one step back and forward again. */
module JournalTurnBack {
  import opened JournalDef
  import opened JournalView
  import opened JournalLinking
  import opened JournalBisect
  import opened JournalSeek
  import opened JournalMatch
  import opened JournalMerge
  import opened JournalSamples

  ghost predicate TwoFiles(files: seq<OpenFile>, x: nat, y: nat, z: nat) {
    && |files| == 2 && OneSource(files)
    && files[0].EntryList() == [x, y] && files[1].EntryList() == [z]
    && SeqnumOf(files[0], x) < SeqnumOf(files[1], z) < SeqnumOf(files[0], y)
    && files[0].ExactFile(None, Up) && files[1].ExactFile(None, Up)
  }

  /** Who comes next among two files with entries x, y and z in between. */
  lemma {:induction false} TwoFilesNext(files: seq<OpenFile>, x: nat, y: nat, z: nat, loc: Location, direction: Direction, best: Option<(nat, nat)>)
    requires TwoFiles(files, x, y, z) && Best(files, 2, None, loc, direction, best)
    ensures loc.kind.Head? && direction == Down ==> best == Some((0, x))
    ensures loc == LocationOf(files[0].StampAt(x)) && direction == Down ==> best == Some((1, z))
    ensures loc == LocationOf(files[1].StampAt(z)) && direction == Down ==> best == Some((0, y))
    ensures loc == LocationOf(files[0].StampAt(y)) && direction == Up ==> best == Some((1, z))
  {
    assert files[0].Wanted(None, x) && files[0].Wanted(None, y) && files[1].Wanted(None, z);
    hide OneSource, OpenFile.ExactFile;
  }

  lemma {:induction false} ResumeAtEnd(f: OpenFile, x: nat, y: nat, loc: Location, e: nat)
    requires f.EntryList() == [x, y] && x < y
    ensures !f.FirstBeyondLocation(None, Some(y), loc, Down, Some(e))
  {
    hide OpenFile.Passed;
    assert e in [x, y] ==> e <= y;
  }

  lemma {:induction false} OnlyHere(f: OpenFile, z: nat, e: nat)
    requires f.EntryList() == [z]
    ensures !f.FirstBeyondLocation(None, None, LocationOf(f.StampAt(z)), Down, Some(e))
  {
    hide OpenFile.ExactFrom, OpenFile.From;
    assert e in [z] ==> e == z;
  }

  lemma {:induction false} TwoFilesOrder(j: Journal, x: nat, y: nat, z: nat)
    requires TwoFiles(j.files, x, y, z) && j.FilesValid()
    ensures x < y && y > 0
  {
    hide OneSource, WellBuilt, OpenFile.ExactFile, Readable;
    assert j.files[0].Valid();
    SeqnumOrders(j.files[0], x, y);
  }

  ghost predicate StandsAt(j: Journal, k: nat, e: nat, direction: Direction)
    reads j, j.files
  {
    && k < |j.files| && j.currentFile == Some(k) && j.currentLocation == LocationOf(j.files[k].StampAt(e))
    && j.files[k].currentOffset == e && j.files[k].lastDirection == direction
  }

  /** One step in a journal of two files. */
  method StepInTwo(j: Journal, direction: Direction, ghost x: nat, ghost y: nat, ghost z: nat) returns (r: bool)
    requires j.Apart() && j.FilesValid() && j.OffsetsOk() && j.level0 == None
    requires TwoFiles(j.files, x, y, z) && j.InStep(direction)
    modifies j`currentLocation, j`currentFile, j.files, set i | 0 <= i < |j.files| :: j.files[i].cache
    ensures j.FilesValid() && j.OffsetsOk() && j.InStep(direction)
    ensures var loc := old(j.currentLocation);
            && (loc.kind.Head? && direction == Down ==> StandsAt(j, 0, x, direction))
            && (loc == LocationOf(j.files[0].StampAt(x)) && direction == Down ==> StandsAt(j, 1, z, direction))
            && (loc == LocationOf(j.files[1].StampAt(z)) && direction == Down ==> StandsAt(j, 0, y, direction))
            && (loc == LocationOf(j.files[0].StampAt(y)) && direction == Up ==> StandsAt(j, 1, z, direction))
    ensures forall i :: 0 <= i < |j.files| && Some(i) != j.currentFile ==>
              j.files[i].currentOffset == old(j.files[i].currentOffset) && j.files[i].lastDirection == old(j.files[i].lastDirection)
  {
    hide Best, TwoFiles, OpenFile.Passed, OpenFile.EntryList, OpenFile.StampAt, OpenFile.Wanted, Journal.InStep, Journal.FilesValid,
         Journal.OffsetsOk, Journal.Apart;
    ghost var loc := j.currentLocation;
    TwoFilesFacts(j.files, x, y, z);
    ghost var answers;
    r, answers := j.RealNext(direction);
    TwoFilesNext(j.files, x, y, z, loc, direction,
                 if r then Some((j.currentFile.value, j.files[j.currentFile.value].currentOffset)) else None);
  }

  lemma {:induction false} TwoFilesFacts(files: seq<OpenFile>, x: nat, y: nat, z: nat)
    requires TwoFiles(files, x, y, z)
    ensures |files| == 2 && OneSource(files) && files[0].ExactFile(None, Up) && files[1].ExactFile(None, Up)
    ensures files[0].EntryList() == [x, y] && files[1].EntryList() == [z]
    ensures files[0].Wanted(None, y) && SeqnumBeyond(LocationOf(files[1].StampAt(z)), Down, SeqnumOf(files[0], y))
  {
    assert y == [x, y][1];
  }

  lemma {:induction false} NothingLeft(files: seq<OpenFile>, x: nat, y: nat, z: nat, loc: Location)
    requires TwoFiles(files, x, y, z) && x < y && loc == LocationOf(files[1].StampAt(z))
    ensures forall e :: !files[0].FirstBeyondLocation(None, Some(y), loc, Down, Some(e))
    ensures forall e :: !files[1].FirstBeyondLocation(None, None, loc, Down, Some(e))
  {
    hide OpenFile.FirstBeyondLocation, OneSource, OpenFile.ExactFile;
    forall e ensures !files[0].FirstBeyondLocation(None, Some(y), loc, Down, Some(e)) {
      ResumeAtEnd(files[0], x, y, loc, e);
    }
    forall e ensures !files[1].FirstBeyondLocation(None, None, loc, Down, Some(e)) {
      OnlyHere(files[1], z, e);
    }
  }

  method Forward(j: Journal, ghost x: nat, ghost y: nat, ghost z: nat)
    requires j.Apart() && j.FilesValid() && j.level0 == None && TwoFiles(j.files, x, y, z)
    modifies j`currentLocation, j`currentFile, j.files, set i | 0 <= i < |j.files| :: j.files[i].cache
    ensures j.FilesValid() && j.OffsetsOk()
    ensures |j.files| == 2 && StandsAt(j, 0, y, Down) && j.files[1].lastDirection == Down
  {
    hide OneSource, Placed, OpenFile.ExactFile, OpenFile.EntryList, OpenFile.StampAt, LocationOf, TwoFiles, Journal.InStep,
         Journal.FilesValid, Journal.OffsetsOk, Journal.Apart;
    TwoFilesFacts(j.files, x, y, z);
    j.SeekHead();
    var r := StepInTwo(j, Down, x, y, z);
    r := StepInTwo(j, Down, x, y, z);
    r := StepInTwo(j, Down, x, y, z);
  }

  /** Forward to the end and one step back. */
  method ForwardAndBack(j: Journal, ghost x: nat, ghost y: nat, ghost z: nat)
    requires j.Apart() && j.FilesValid() && j.level0 == None && TwoFiles(j.files, x, y, z)
    modifies j`currentLocation, j`currentFile, j.files, set i | 0 <= i < |j.files| :: j.files[i].cache
    ensures j.FilesValid() && j.OffsetsOk()
    ensures |j.files| == 2 && StandsAt(j, 1, z, Up) && j.files[0].currentOffset == y && j.files[0].lastDirection == Down
  {
    hide OneSource, Placed, OpenFile.ExactFile, OpenFile.EntryList, OpenFile.StampAt, LocationOf, TwoFiles,
         Journal.FilesValid, Journal.OffsetsOk, Journal.Apart, InStepAt;
    TwoFilesFacts(j.files, x, y, z);
    assert y == [x, y][1];
    Forward(j, x, y, z);
    NewPlace(j.files, 0, y, Up);
    StartAnywhere(j.files[0], j.currentLocation, Up);
    StartAnywhere(j.files[1], j.currentLocation, Up);
    assert j.InStep(Up);
    var r := StepInTwo(j, Up, x, y, z);
  }

  /** Reading forward to the end, one step back and forward again misses y, although it is beyond the location. */
  method TurnBack(j: Journal, ghost x: nat, ghost y: nat, ghost z: nat) returns (r: bool)
    requires j.Apart() && j.FilesValid() && j.level0 == None && TwoFiles(j.files, x, y, z)
    modifies j`currentLocation, j`currentFile, j.files, set i | 0 <= i < |j.files| :: j.files[i].cache
    ensures !r && j.currentLocation == LocationOf(j.files[1].StampAt(z))
    ensures j.files[0].Wanted(None, y) && SeqnumBeyond(j.currentLocation, Down, SeqnumOf(j.files[0], y))
  {
    hide Coherent, Earliest, Stamps, OpenFile.FromSearch, Best, OneSource, OpenFile.Passed, OpenFile.ExactFile, OpenFile.FirstBeyondLocation, Journal.InStep,
         OpenFile.StampAt, OpenFile.Wanted, OpenFile.EntryList, LocationOf, SeqnumBeyond, TwoFiles, Journal.Apart, Journal.OffsetsOk, Journal.FilesValid;
    TwoFilesFacts(j.files, x, y, z);
    TwoFilesOrder(j, x, y, z);
    ForwardAndBack(j, x, y, z);
    NothingLeft(j.files, x, y, z, j.currentLocation);
    ghost var answers;
    r, answers := j.RealNext(Down);
  }

  // ---------- the two files ----------

  /** Files 1, 3 and 2 are the two files of the case. */
  lemma {:induction false} WrittenFiles(files: seq<OpenFile>, fields: seq<Payload>)
    requires |files| == 2 && files[0].seqnumId == SOURCE && files[1].seqnumId == SOURCE
    requires Log(files[0].objects, files[0].EntryList()) == Planned([1, 3], fields)
    requires Log(files[1].objects, files[1].EntryList()) == Planned([2], fields)
    requires files[0].Valid() && files[1].Valid()
    ensures |files[0].EntryList()| == 2 && |files[1].EntryList()| == 1
    ensures TwoFiles(files, files[0].EntryList()[0], files[0].EntryList()[1], files[1].EntryList()[0])
  {
    hide Log, OpenFile.ExactFile, OpenFile.EntryList, OpenFile.Valid;
    ShortFile(files[0], [1, 3], fields);
    ShortFile(files[1], [2], fields);
    PlannedStamp(files[0], [1, 3], fields, 0);
    PlannedStamp(files[0], [1, 3], fields, 1);
    PlannedStamp(files[1], [2], fields, 0);
  }

  /** The case, from empty files on: entry 3 is stored and beyond the location, but not found. */
  method MissedEntry(hash64: HashFunction, fields: seq<Payload>) returns (j: Journal, found: bool, ghost y: nat)
    ensures !found && j.currentLocation.kind.Discrete? && j.currentLocation.stamp.seqnum == 2
    ensures |j.files| == 2 && j.files[0].Wanted(None, y) && SeqnumOf(j.files[0], y) == 3
  {
    hide WellBuilt, Log, OpenFile.ExactFile, TwoFiles, Planned, OneSource;
    var f := WriteFile(hash64, [1, 3], fields);
    var g := WriteFile(hash64, [2], fields);
    j := new Journal([f, g], None);
    WrittenFiles(j.files, fields);
    ghost var x, z := f.EntryList()[0], g.EntryList()[0];
    y := f.EntryList()[1];
    found := TurnBack(j, x, y, z);
    PlannedStamp(f, [1, 3], fields, 1);
    PlannedStamp(g, [2], fields, 0);
  }
}
