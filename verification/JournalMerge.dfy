/** Reading several files as one journal (lib/sd-journal.c): locations, the search in one
    file beyond a location, and the merge that suppresses copies. */
module JournalMerge {
  import opened JournalDef
  import opened EntryArrays
  import opened JournalView
  import opened JournalIndex
  import opened JournalBisect
  import opened JournalSeek
  import opened JournalMatch

  // ---------- comparing entries ----------

  /** What entries are compared by. */
  datatype Stamp = Stamp(seqnumId: nat, seqnum: nat, bootId: nat, monotonic: nat, realtime: nat, xorHash: nat)

  datatype LocationType = Head | Tail | Discrete | Seek

  datatype Location = Location(kind: LocationType, stamp: Stamp,
                               seqnumSet: bool, realtimeSet: bool, monotonicSet: bool, xorHashSet: bool)

  function Order(a: nat, b: nat): int {
    if a < b then -1 else if a > b then 1 else 0
  }

  function CompareEntryOrder(a: Stamp, b: Stamp): int {
    if a.bootId == b.bootId && a.monotonic == b.monotonic && a.realtime == b.realtime && a.xorHash == b.xorHash then 0
    else if a.seqnumId == b.seqnumId && a.seqnum != b.seqnum then Order(a.seqnum, b.seqnum)
    else if a.bootId == b.bootId && a.monotonic != b.monotonic then Order(a.monotonic, b.monotonic)
    else if a.realtime != b.realtime then Order(a.realtime, b.realtime)
    else Order(a.xorHash, b.xorHash)
  }

  function CompareWithLocation(a: Stamp, l: Location): int {
    if l.monotonicSet && a.bootId == l.stamp.bootId && l.realtimeSet && a.realtime == l.stamp.realtime
       && l.xorHashSet && a.xorHash == l.stamp.xorHash then 0
    else if l.seqnumSet && a.seqnumId == l.stamp.seqnumId && a.seqnum != l.stamp.seqnum then Order(a.seqnum, l.stamp.seqnum)
    else if l.monotonicSet && a.bootId == l.stamp.bootId && a.monotonic != l.stamp.monotonic then Order(a.monotonic, l.stamp.monotonic)
    else if l.realtimeSet && a.realtime != l.stamp.realtime then Order(a.realtime, l.stamp.realtime)
    else if l.xorHashSet then Order(a.xorHash, l.stamp.xorHash)
    else 0
  }

  /** Both have the same sequence number source, and they agree on time and content exactly if they have the same number. */
  predicate Copies(a: Stamp, b: Stamp) {
    && a.seqnumId == b.seqnumId
    && (a.bootId == b.bootId && a.realtime == b.realtime && a.xorHash == b.xorHash ==> a.seqnum == b.seqnum)
    && (a.seqnum == b.seqnum ==> a == b)
  }

  function LocationOf(a: Stamp): Location {
    Location(LocationType.Discrete, a, true, true, true, true)
  }

  /** Among copies of one journal, both comparisons are by sequence number. */
  lemma {:induction false} ComparesBySeqnum(a: Stamp, b: Stamp)
    requires Copies(a, b)
    ensures CompareEntryOrder(a, b) == Order(a.seqnum, b.seqnum)
    ensures CompareWithLocation(a, LocationOf(b)) == Order(a.seqnum, b.seqnum)
  {
  }

  /** The comparison with a location takes an entry of the same boot, time and content for the same entry,
      whatever its monotonic time; that is the one difference. */
  lemma {:induction false} ComparisonsAgree(a: Stamp, b: Stamp)
    ensures CompareWithLocation(a, LocationOf(b)) == CompareEntryOrder(a, b) <==>
            !(a.bootId == b.bootId && a.realtime == b.realtime && a.xorHash == b.xorHash && a.monotonic != b.monotonic)
  {
  }

  /** Turning the comparison round turns its result round. */
  lemma {:induction false} OrderTurned(a: Stamp, b: Stamp)
    ensures CompareEntryOrder(b, a) == -CompareEntryOrder(a, b)
  {
  }

  /** Entries of one boot that are not of one source compare by their time within the boot. */
  lemma {:induction false} ComparesByMonotonic(a: Stamp, b: Stamp)
    requires a.seqnumId != b.seqnumId && a.bootId == b.bootId && a.monotonic != b.monotonic
    ensures CompareEntryOrder(a, b) < 0 <==> a.monotonic < b.monotonic
    ensures CompareWithLocation(a, LocationOf(b)) < 0 <==> a.monotonic < b.monotonic && !(a.realtime == b.realtime && a.xorHash == b.xorHash)
  {
  }

  /** The wall clock agrees with the sequence numbers of a source and with the monotonic clock of a boot. */
  predicate ClocksAgree(a: Stamp, b: Stamp) {
    && (a.seqnumId == b.seqnumId && a.seqnum != b.seqnum ==> Order(a.realtime, b.realtime) == Order(a.seqnum, b.seqnum))
    && (a.bootId == b.bootId && a.monotonic != b.monotonic ==> Order(a.realtime, b.realtime) == Order(a.monotonic, b.monotonic))
  }

  /** The order by time, and by content at the same time. */
  function TimeOrder(a: Stamp, b: Stamp): int {
    if a.realtime != b.realtime then Order(a.realtime, b.realtime) else Order(a.xorHash, b.xorHash)
  }

  /** Where the clocks agree, entries of any sources compare by time, and by content at the same time. */
  lemma {:induction false} ComparesByTime(a: Stamp, b: Stamp)
    requires ClocksAgree(a, b)
    ensures CompareEntryOrder(a, b) == TimeOrder(a, b)
  {
  }

  /** So there no entries come before each other in a circle. */
  lemma {:induction false} OrderTransitive(a: Stamp, b: Stamp, c: Stamp)
    requires ClocksAgree(a, b) && ClocksAgree(b, c) && ClocksAgree(a, c)
    requires CompareEntryOrder(a, b) <= 0 && CompareEntryOrder(b, c) <= 0
    ensures CompareEntryOrder(a, c) <= 0 && (CompareEntryOrder(a, c) == 0 ==> CompareEntryOrder(a, b) == 0 && CompareEntryOrder(b, c) == 0)
  {
    hide CompareEntryOrder;
    ComparesByTime(a, b);
    ComparesByTime(b, c);
    ComparesByTime(a, c);
  }

  /** Two entries, one before the other, are on a circle with some entry of another source and boot exactly if by time,
      and content at the same time, they are the other way round and there is something between them. */
  lemma {:induction false} CycleExact(a: Stamp, b: Stamp)
    requires CompareEntryOrder(a, b) < 0
    ensures (exists c :: Unrelated(c, a) && Unrelated(c, b) && CompareEntryOrder(b, c) < 0 && CompareEntryOrder(c, a) < 0) <==>
            b.realtime < a.realtime || (b.realtime == a.realtime && b.xorHash + 1 < a.xorHash)
  {
    if b.realtime < a.realtime || (b.realtime == a.realtime && b.xorHash + 1 < a.xorHash) {
      var c := Between(a, b);
      assert Unrelated(c, a) && Unrelated(c, b) && CompareEntryOrder(b, c) < 0 && CompareEntryOrder(c, a) < 0;
    }
  }

  /** The comparison does not go round in a circle among these. */
  ghost predicate Coherent(stamps: seq<Option<Stamp>>) {
    forall i, j, k :: 0 <= i < |stamps| && 0 <= j < |stamps| && 0 <= k < |stamps| && stamps[i].Some? && stamps[j].Some? && stamps[k].Some?
                      && CompareEntryOrder(stamps[i].value, stamps[j].value) <= 0 && CompareEntryOrder(stamps[j].value, stamps[k].value) <= 0 ==>
                        CompareEntryOrder(stamps[i].value, stamps[k].value) <= 0
  }

  /** None of these comes before the best one. */
  ghost predicate Earliest(stamps: seq<Option<Stamp>>, direction: Direction, best: Option<Stamp>) {
    forall i :: 0 <= i < |stamps| && stamps[i].Some? ==>
                  && best.Some?
                  && if direction == Down then CompareEntryOrder(best.value, stamps[i].value) <= 0 else CompareEntryOrder(best.value, stamps[i].value) >= 0
  }

  lemma {:induction false} EarliestStep(stamps: seq<Option<Stamp>>, s: Option<Stamp>, direction: Direction, best: Option<Stamp>)
    requires Coherent(stamps + [s]) && Earliest(stamps, direction, best) && (best.Some? ==> best in stamps)
    ensures Earliest(stamps + [s], direction,
                     if s.Some? && (best.None? || (var k := CompareEntryOrder(s.value, best.value); if direction == Down then k < 0 else k > 0)) then s else best)
  {
    hide CompareEntryOrder, Coherent;
    var all := stamps + [s];
    var n := |stamps|;
    assert forall i :: 0 <= i < n ==> all[i] == stamps[i];
    if s.Some? {
      OrderTurned(s.value, s.value);
    }
    if s.Some? && best.Some? {
      var b :| 0 <= b < n && stamps[b] == best;
      OrderTurned(s.value, best.value);
      forall i | 0 <= i < n && stamps[i].Some?
        ensures CompareEntryOrder(s.value, best.value) <= 0 && CompareEntryOrder(best.value, stamps[i].value) <= 0 ==>
                  CompareEntryOrder(s.value, stamps[i].value) <= 0
        ensures CompareEntryOrder(s.value, best.value) >= 0 && CompareEntryOrder(best.value, stamps[i].value) >= 0 ==>
                  CompareEntryOrder(s.value, stamps[i].value) >= 0
      {
        OrderTurned(best.value, stamps[i].value);
        OrderTurned(s.value, stamps[i].value);
        InOrder(all, n, b, i);
        InOrder(all, i, b, n);
      }
    }
  }

  lemma {:induction false} InOrder(stamps: seq<Option<Stamp>>, i: nat, j: nat, k: nat)
    requires Coherent(stamps) && i < |stamps| && j < |stamps| && k < |stamps| && stamps[i].Some? && stamps[j].Some? && stamps[k].Some?
    ensures CompareEntryOrder(stamps[i].value, stamps[j].value) <= 0 && CompareEntryOrder(stamps[j].value, stamps[k].value) <= 0 ==>
              CompareEntryOrder(stamps[i].value, stamps[k].value) <= 0
  {
    hide CompareEntryOrder;
  }

  lemma {:induction false} NothingEarlier(direction: Direction)
    ensures Earliest([], direction, None)
  {
  }

  lemma {:induction false} CoherentLess(stamps: seq<Option<Stamp>>, s: Option<Stamp>)
    requires Coherent(stamps + [s])
    ensures Coherent(stamps)
  {
    hide CompareEntryOrder;
    var all := stamps + [s];
    assert forall i :: 0 <= i < |stamps| ==> all[i] == stamps[i];
  }

  /** Where the clocks agree, it does not, and none of these is earlier than the best one. */
  lemma {:induction false} CoherentByTime(stamps: seq<Option<Stamp>>, direction: Direction, best: Option<Stamp>)
    requires forall i, j :: 0 <= i < |stamps| && 0 <= j < |stamps| && stamps[i].Some? && stamps[j].Some? ==> ClocksAgree(stamps[i].value, stamps[j].value)
    requires best.Some? ==> best in stamps
    ensures Coherent(stamps)
    ensures Earliest(stamps, direction, best) <==>
            forall i :: 0 <= i < |stamps| && stamps[i].Some? ==>
                          best.Some? && if direction == Down then TimeOrder(best.value, stamps[i].value) <= 0 else TimeOrder(best.value, stamps[i].value) >= 0
  {
    hide ClocksAgree, CompareEntryOrder, TimeOrder;
    forall i, j | 0 <= i < |stamps| && 0 <= j < |stamps| && stamps[i].Some? && stamps[j].Some?
      ensures CompareEntryOrder(stamps[i].value, stamps[j].value) == TimeOrder(stamps[i].value, stamps[j].value)
    {
      ComparesByTime(stamps[i].value, stamps[j].value);
    }
    forall i, j, k | 0 <= i < |stamps| && 0 <= j < |stamps| && 0 <= k < |stamps| && stamps[i].Some? && stamps[j].Some? && stamps[k].Some?
                     && CompareEntryOrder(stamps[i].value, stamps[j].value) <= 0 && CompareEntryOrder(stamps[j].value, stamps[k].value) <= 0
      ensures CompareEntryOrder(stamps[i].value, stamps[k].value) <= 0
    {
      OrderTransitive(stamps[i].value, stamps[j].value, stamps[k].value);
    }
  }

  predicate Unrelated(a: Stamp, b: Stamp) {
    a.seqnumId != b.seqnumId && a.bootId != b.bootId
  }

  /** An entry of another source that comes right behind b by time. */
  function Between(a: Stamp, b: Stamp): Stamp {
    Stamp(a.seqnumId + b.seqnumId + 1, 1, a.bootId + b.bootId + 1, 0, b.realtime, b.xorHash + 1)
  }

  /** Where a wall clock was set back, entries of two sources can come before each other in a circle. */
  lemma {:induction false} OrderCycle()
    ensures exists a, b, c :: CompareEntryOrder(a, b) < 0 && CompareEntryOrder(b, c) < 0 && CompareEntryOrder(c, a) < 0
  {
    var a, b, c := Stamp(1, 1, 1, 0, 10, 0), Stamp(1, 2, 2, 0, 5, 0), Stamp(2, 1, 3, 0, 7, 0);
    assert CompareEntryOrder(a, b) < 0 && CompareEntryOrder(b, c) < 0 && CompareEntryOrder(c, a) < 0;
  }

  // ---------- one file ----------

  /** The tree asks for nothing but alternatives. */
  predicate NoConjunction(m: Match) {
    match m
    case Discrete(x) => true
    case OrTerm(ms) => forall i :: 0 <= i < |ms| ==> NoConjunction(ms[i])
    case AndTerm(ms) => false
  }

  class OpenFile {
    const hash64: HashFunction
    const seqnumId: nat
    const header: Header
    const objects: Heap
    const cache: ChainCache
    ghost const view: View
    var lastDirection: Direction
    var currentOffset: nat

    ghost predicate Valid()
      reads cache
    {
      && cache.Valid() && CacheOk(header, objects, view, cache.items)
      && WellBuilt(hash64, header, objects, view, {})
    }

    /** Opens a file for reading. */
    constructor (hash64: HashFunction, seqnumId: nat, header: Header, objects: Heap, ghost view: View)
      requires WellBuilt(hash64, header, objects, view, {})
      ensures this.hash64 == hash64 && this.seqnumId == seqnumId && this.header == header && this.objects == objects && this.view == view
      ensures Valid() && fresh(cache) && currentOffset == 0
    {
      hide WellBuilt;
      this.hash64, this.seqnumId, this.header, this.objects, this.view := hash64, seqnumId, header, objects, view;
      cache := new ChainCache();
      lastDirection, currentOffset := Down, 0;
    }

    ghost function EntryList(): seq<nat> {
      Entries(objects, view)
    }

    function XorHashAt(e: nat): nat {
      if Is(objects, e, KEntry) then objects[e].xorHash else 0
    }

    function StampAt(e: nat): Stamp {
      Stamp(seqnumId, SeqnumAt(objects, e), BootAt(objects, e), MonotonicAt(objects, e), RealtimeAt(objects, e), XorHashAt(e))
    }

    /** e is an entry of this file that the query asks for. */
    ghost predicate Wanted(m: Option<Match>, e: nat) {
      e in EntryList() && (m.Some? ==> Satisfied(m.value, Content(objects, e)))
    }

    // ---------- where a search starts ----------

    predicate BySeqnum(loc: Location) {
      !loc.kind.Head? && !loc.kind.Tail? && loc.seqnumSet && loc.stamp.seqnumId == seqnumId
    }

    predicate ByTime(loc: Location) {
      !loc.kind.Head? && !loc.kind.Tail? && !BySeqnum(loc)
    }

    /** e is not behind the location. */
    predicate From(loc: Location, direction: Direction, e: nat) {
      if BySeqnum(loc) then Ahead(direction, loc.stamp.seqnum, SeqnumAt(objects, e))
      else if ByTime(loc) && loc.realtimeSet then Ahead(direction, loc.stamp.realtime, RealtimeAt(objects, e))
      else true
    }

    /** If the wall clock is what is sought by, it ran forward. */
    ghost predicate ClockForward(loc: Location) {
      ByTime(loc) && loc.realtimeSet ==> SortedBy(objects, Realtime, ListOf(view, MAIN))
    }

    /** The entries of the boot are in the order of their time. */
    ghost predicate BootForward(loc: Location) {
      forall b :: Is(objects, b, KData) && PayloadAt(objects, b) == BootField(loc.stamp.bootId) ==> SortedBy(objects, Monotonic, ListOf(view, b))
    }

    /** Going up overlooks nothing if the lists it uses have a free slot: those of the payloads the query asks for,
        or the main list if there is no query. */
    ghost predicate ExactFile(m: Option<Match>, direction: Direction) {
      direction == Down || if m.None? then |EntryList()| < |Flat(objects, ChainOf(view, MAIN))| else AllRoomy(objects, view, m.value)
    }

    /** The search from the location finds the first entry: not if the wall clock ran back, or if it is by the time within a
        boot that the file has. */
    ghost predicate ExactFrom(m: Option<Match>, loc: Location, direction: Direction) {
      && ExactFile(m, direction) && ClockForward(loc)
      && (loc.kind.Head? ==> direction == Down) && (loc.kind.Tail? ==> direction == Up)
      && !ToBoot(loc)
    }

    /** r is wanted, and if the search is exact it is the first wanted entry from the location on. */
    ghost predicate Located(m: Option<Match>, loc: Location, direction: Direction, r: Option<nat>) {
      && (r.Some? ==> Wanted(m, r.value))
      && (ExactFrom(m, loc, direction) ==>
            && (r.Some? ==> From(loc, direction, r.value))
            && forall e :: Wanted(m, e) && From(loc, direction, e) ==> r.Some? && Ahead(direction, r.value, e))
    }

    /** The search looks for a time within a boot that the file has entries of. */
    ghost predicate ToBoot(loc: Location) {
      && ByTime(loc) && loc.monotonicSet
      && exists d :: Is(objects, d, KData) && PayloadAt(objects, d) == BootField(loc.stamp.bootId)
    }

    /** e is of the boot and not behind the location in its time. */
    predicate OfBoot(loc: Location, direction: Direction, e: nat) {
      BootField(loc.stamp.bootId) in Content(objects, e) && Ahead(direction, loc.stamp.monotonic, MonotonicAt(objects, e))
    }

    /** Going up overlooks nothing in the list of the boot, nor in those of the payloads the query asks for. */
    ghost predicate ExactBoot(m: Option<Match>, loc: Location, direction: Direction) {
      direction == Down || (AllRoomy(objects, view, Match.Discrete(BootField(loc.stamp.bootId))) && (m.Some? ==> AllRoomy(objects, view, m.value)))
    }

    /** r is on from some entry of the boot. */
    ghost predicate FromBoot(loc: Location, direction: Direction, r: nat) {
      exists x :: x in EntryList() && OfBoot(loc, direction, x) && Ahead(direction, x, r)
    }

    /** From a time within a boot whose time goes forward: r is on from some entry of the boot, itself of the boot unless a conjunction was
        asked for, and if the search is exact no wanted entry of the boot is passed over. */
    ghost predicate LocatedInBoot(m: Option<Match>, loc: Location, direction: Direction, r: Option<nat>) {
      ToBoot(loc) && BootForward(loc) ==>
        && (r.Some? ==> FromBoot(loc, direction, r.value))
        && (r.Some? && (m.Some? ==> NoConjunction(m.value)) ==> OfBoot(loc, direction, r.value))
        && (ExactBoot(m, loc, direction) ==>
              forall e :: Wanted(m, e) && OfBoot(loc, direction, e) ==> r.Some? && Ahead(direction, r.value, e))
    }

    /** r is the first wanted entry of the boot, if there is one. */
    ghost predicate FirstOfBoot(m: Option<Match>, loc: Location, direction: Direction, r: Option<nat>) {
      (exists e :: Wanted(m, e) && OfBoot(loc, direction, e)) ==>
        && r.Some? && Wanted(m, r.value) && OfBoot(loc, direction, r.value)
        && forall e :: Wanted(m, e) && OfBoot(loc, direction, e) ==> Ahead(direction, r.value, e)
    }

    /** The entries of the boot are those that contain its payload, and they are consecutive. */
    ghost predicate BootNamed(bootId: nat) {
      && Consecutive(objects, EntryList())
      && forall e :: e in EntryList() ==> (BootField(bootId) in Content(objects, e) <==> BootAt(objects, e) == bootId)
    }

    /** r is the first wanted entry behind cp. */
    ghost predicate Advanced(m: Option<Match>, cp: nat, direction: Direction, r: Option<nat>) {
      && (r.Some? ==> Wanted(m, r.value) && r.value != cp && Ahead(direction, cp, r.value))
      && (ExactFile(m, direction) ==>
            forall e :: Wanted(m, e) && e != cp && Ahead(direction, cp, e) ==> r.Some? && Ahead(direction, r.value, e))
    }

    // ---------- searching the file ----------

    lemma {:induction false} FileLists()
      requires WellBuilt(hash64, header, objects, view, {})
      ensures Readable(header, objects, view) && ListOf(view, MAIN) == EntryList() && Increasing(EntryList())
      ensures forall e :: e in EntryList() ==> 0 < e <= LastOr0(EntryList()) && Is(objects, e, KEntry)
      ensures SortedBy(objects, Seqnum, EntryList())
    {
      hide Base, IndexOk, Select, Readable, ListsSorted;
      WellBuiltReadable(hash64, header, objects, view);
      EntriesSorted(hash64, header, objects, view);
      EntriesBounded(hash64, header, objects, view);
      SeqnumOrder(header, objects, view);
    }

    /** What is ahead of an entry that is not behind the location is not behind it either. */
    lemma {:induction false} FromKeeps(loc: Location, direction: Direction, e: nat, e': nat)
      requires WellBuilt(hash64, header, objects, view, {}) && ClockForward(loc)
      requires e in EntryList() && e' in EntryList() && From(loc, direction, e) && Ahead(direction, e, e')
      ensures From(loc, direction, e')
    {
      hide WellBuilt, Readable, Select;
      FileLists();
      var list := EntryList();
      var i :| 0 <= i < |list| && list[i] == e;
      var j :| 0 <= j < |list| && list[j] == e';
      assert if direction == Down then i <= j else j <= i;
    }

    /** r is on the list, and if the search is exact it is the first item from the location on. */
    ghost predicate LocatedIn(list: seq<nat>, exact: bool, loc: Location, direction: Direction, r: Option<nat>) {
      && (r.Some? ==> r.value in list)
      && (exact ==>
            && (r.Some? ==> From(loc, direction, r.value))
            && forall e :: e in list && From(loc, direction, e) ==> r.Some? && Ahead(direction, r.value, e))
    }

    lemma {:induction false} SteppedIn(list: seq<nat>, exact: bool, loc: Location, direction: Direction, way: Direction)
      requires Ascending(list) && (exact ==> way == direction && forall e :: From(loc, direction, e))
      ensures LocatedIn(list, exact, loc, direction, StepFrom(list, None, way))
    {
    }

    lemma {:induction false} KeyedIn(list: seq<nat>, exact: bool, loc: Location, direction: Direction, chain: seq<nat>, key: Key, needle: nat, hit: Option<Hit>)
      requires PlusOneTurn(objects, key, needle, direction, chain, list, hit) && Ascending(list)
      requires exact ==> SortedBy(objects, key, list) && PlusOneResult(objects, key, needle, direction, chain, list, hit)
      requires exact ==> direction == Down || Roomy(objects, chain, list)
      requires exact ==> forall e :: From(loc, direction, e) <==> Ahead(direction, needle, KeyOf(objects, key, e))
      ensures LocatedIn(list, exact, loc, direction, if hit.Some? then Some(hit.value.offset) else None)
    {
      AnyHit(objects, key, needle, direction, chain, list, hit);
      if exact {
        KeyHit(objects, key, needle, direction, chain, list, hit);
      }
      hide PlusOneTurn, PlusOneResult, SortedBy, Ascending, Roomy, From;
      if hit.Some? {
        assert Ahead(direction, hit.value.offset, hit.value.offset);
      }
    }

    lemma {:induction false} KeyedInMain(list: seq<nat>, exact: bool, loc: Location, direction: Direction, chain: seq<nat>, key: Key, needle: nat, hit: Option<Hit>)
      requires FindsTurn(objects, key, needle, direction, chain, list, hit) && Increasing(list)
      requires exact ==> SortedBy(objects, key, list) && BisectResult(objects, key, needle, direction, chain, list, hit)
      requires exact ==> direction == Down || |list| < |Flat(objects, chain)|
      requires exact ==> forall e :: From(loc, direction, e) <==> Ahead(direction, needle, KeyOf(objects, key, e))
      ensures LocatedIn(list, exact, loc, direction, if hit.Some? then Some(hit.value.offset) else None)
    {
      hide From;
    }

    /** The times of an entry list are in order if those of the file are. */
    lemma {:induction false} TimesSorted(d: nat)
      requires Readable(header, objects, view) && Is(objects, d, KData) && SortedBy(objects, Realtime, ListOf(view, MAIN))
      ensures SortedBy(objects, Realtime, ListOf(view, d))
    {
      hide Readable;
      DataStored(header, objects, view, d);
      MainStored(header, objects, view);
      var list, main := ListOf(view, d), ListOf(view, MAIN);
      forall i, j | 0 <= i < j < |list| ensures RealtimeAt(objects, list[i]) <= RealtimeAt(objects, list[j]) {
        assert list[i] in main && list[j] in main;
        var a :| 0 <= a < |main| && main[a] == list[i];
        var c :| 0 <= c < |main| && main[c] == list[j];
        assert a <= c;
      }
    }

    /** The search for the location in the list of one data object. */
    method FindLocationForData(d: nat, loc: Location, direction: Direction) returns (r: Option<nat>)
      requires Valid() && Is(objects, d, KData)
      modifies cache
      ensures Valid()
      ensures LocatedIn(ListOf(view, d), ExactFrom(Some(Match.Discrete(PayloadAt(objects, d))), loc, direction), loc, direction, r)
      ensures LocatedInBoot(Some(Match.Discrete(PayloadAt(objects, d))), loc, direction, r)
    {
      hide CacheOk, WellBuilt, Readable, PlusOneResult, PlusOneTurn, SortedBy, LocatedIn, Roomy, From, StepFrom, NearestCommon, Is, LocatedInBoot, ToBoot;
      WellBuiltReadable(hash64, header, objects, view);
      DataStored(header, objects, view, d);
      ghost var list, chain := ListOf(view, d), ChainOf(view, d);
      ghost var exact := ExactFrom(Some(Match.Discrete(PayloadAt(objects, d))), loc, direction);
      assert exact && direction == Up ==> Roomy(objects, chain, list);
      if loc.kind.Head? || loc.kind.Tail? {
        var way := if loc.kind.Head? then Down else Up;
        var found := NextEntryForData(cache, header, objects, None, d, way, view);
        FromAll(loc, direction);
        SteppedIn(list, exact, loc, direction, way);
        NotToBoot(Some(Match.Discrete(PayloadAt(objects, d))), loc, direction, if found.At? then Some(found.offset) else None);
        return if found.At? then Some(found.offset) else None;
      }
      if loc.seqnumSet && loc.stamp.seqnumId == seqnumId {
        var hit := MoveToEntryForData(cache, header, objects, d, loc.stamp.seqnum, Seqnum, direction, view);
        FromSeqnum(loc, direction);
        SeqnumOrder(header, objects, view);
        SeqnumSorted(objects, view, d);
        KeyedIn(list, exact, loc, direction, chain, Seqnum, loc.stamp.seqnum, hit);
        NotToBoot(Some(Match.Discrete(PayloadAt(objects, d))), loc, direction, if hit.Some? then Some(hit.value.offset) else None);
        return if hit.Some? then Some(hit.value.offset) else None;
      }
      if loc.monotonicSet {
        var found, b := MoveToEntryByMonotonicForData(cache, hash64, header, objects, d, loc.stamp.bootId, loc.stamp.monotonic, direction, view);
        if found != NoBoot {
          IsToBoot(b, loc);
          assert LocatedIn(list, exact, loc, direction, if found.At? then Some(found.offset) else None) by {
            AnyIn(list, exact, loc, direction, if found.At? then Some(found.offset) else None);
          }
          InBootDiscrete(PayloadAt(objects, d), d, b, loc, direction, found);
          return if found.At? then Some(found.offset) else None;
        }
      }
      if loc.realtimeSet {
        if SortedBy(objects, Realtime, ListOf(view, MAIN)) {
          TimesSorted(d);
        }
        var hit := MoveToEntryForData(cache, header, objects, d, loc.stamp.realtime, Realtime, direction, view);
        FromTime(loc, direction);
        KeyedIn(list, exact, loc, direction, chain, Realtime, loc.stamp.realtime, hit);
        NotToBoot(Some(Match.Discrete(PayloadAt(objects, d))), loc, direction, if hit.Some? then Some(hit.value.offset) else None);
        return if hit.Some? then Some(hit.value.offset) else None;
      }
      var found := NextEntryForData(cache, header, objects, None, d, direction, view);
      FromAll(loc, direction);
      SteppedIn(list, exact, loc, direction, direction);
      r := if found.At? then Some(found.offset) else None;
      NotToBoot(Some(Match.Discrete(PayloadAt(objects, d))), loc, direction, r);
    }

    lemma {:induction false} NotToBoot(m: Option<Match>, loc: Location, direction: Direction, r: Option<nat>)
      requires !ByTime(loc) || !loc.monotonicSet || forall q :: Is(objects, q, KData) ==> PayloadAt(objects, q) != BootField(loc.stamp.bootId)
      ensures LocatedInBoot(m, loc, direction, r)
    {
    }

    lemma {:induction false} IsToBoot(b: nat, loc: Location)
      requires ByTime(loc) && loc.monotonicSet && Is(objects, b, KData) && PayloadAt(objects, b) == BootField(loc.stamp.bootId)
      ensures ToBoot(loc)
    {
    }

    lemma {:induction false} AnyIn(list: seq<nat>, exact: bool, loc: Location, direction: Direction, r: Option<nat>)
      requires !exact && (r.Some? ==> r.value in list)
      ensures LocatedIn(list, exact, loc, direction, r)
    {
    }

    lemma {:induction false} FromAll(loc: Location, direction: Direction)
      ensures !BySeqnum(loc) && !(ByTime(loc) && loc.realtimeSet) ==> forall e :: From(loc, direction, e)
    {
    }

    lemma {:induction false} FromSeqnum(loc: Location, direction: Direction)
      requires BySeqnum(loc)
      ensures forall e :: From(loc, direction, e) <==> Ahead(direction, loc.stamp.seqnum, KeyOf(objects, Seqnum, e))
    {
    }

    lemma {:induction false} FromTime(loc: Location, direction: Direction)
      requires ByTime(loc) && loc.realtimeSet
      ensures forall e :: From(loc, direction, e) <==> Ahead(direction, loc.stamp.realtime, KeyOf(objects, Realtime, e))
    {
    }

    // ---------- the first entry from the location on ----------

    lemma {:induction false} LocatedDiscrete(x: Payload, list: seq<nat>, loc: Location, direction: Direction, r: Option<nat>)
      requires LocatedIn(list, ExactFrom(Some(Match.Discrete(x)), loc, direction), loc, direction, r)
      requires forall e :: e in list <==> e in EntryList() && x in Content(objects, e)
      ensures Located(Some(Match.Discrete(x)), loc, direction, r)
    {
      hide ExactFrom, From, Content, EntryList;
    }

    /** If the lists of a term's payloads have a free slot, so do those of its members. */
    lemma {:induction false} ExactOr(ms: seq<Match>, i: nat, loc: Location, direction: Direction)
      requires i < |ms|
      ensures ExactFrom(Some(OrTerm(ms[..i + 1])), loc, direction) ==>
                ExactFrom(Some(OrTerm(ms[..i])), loc, direction) && ExactFrom(Some(ms[i]), loc, direction)
    {
      var front, all := ms[..i], ms[..i + 1];
      assert forall k :: 0 <= k < i ==> front[k] == all[k];
      assert all[i] == ms[i];
    }

    lemma {:induction false} ExactAnd(ms: seq<Match>, i: nat, loc: Location, direction: Direction)
      requires i < |ms|
      ensures ExactFrom(Some(AndTerm(ms)), loc, direction) ==> ExactFrom(Some(ms[i]), loc, direction)
    {
    }

    lemma {:induction false} LocatedOr(ms: seq<Match>, i: nat, loc: Location, direction: Direction, np: Option<nat>, cp: Option<nat>)
      requires i < |ms| && Located(Some(OrTerm(ms[..i])), loc, direction, np) && Located(Some(ms[i]), loc, direction, cp)
      ensures Located(Some(OrTerm(ms[..i + 1])), loc, direction, Nearer(direction, np, cp))
    {
      WantedOr(ms, i);
      ExactOr(ms, i, loc, direction);
      hide ExactFrom, From, Wanted;
    }

    lemma {:induction false} LocatedNone(loc: Location, direction: Direction)
      ensures Located(Some(OrTerm([])), loc, direction, None) && Located(Some(AndTerm([])), loc, direction, None)
    {
      hide ExactFrom, From, EntryList;
    }

    /** np is the farthest of the first entries of the members so far. */
    ghost predicate Farthest(ms: seq<Match>, i: nat, loc: Location, direction: Direction, np: nat) {
      if i == 0 then np == 0
      else
        && np in EntryList()
        && (ExactFrom(Some(AndTerm(ms)), loc, direction) ==>
              && From(loc, direction, np)
              && forall e :: Wanted(Some(AndTerm(ms)), e) && From(loc, direction, e) ==> Ahead(direction, np, e))
    }

    lemma {:induction false} FartherAnd(ms: seq<Match>, i: nat, loc: Location, direction: Direction, np: nat, cp: nat)
      requires i < |ms| && Farthest(ms, i, loc, direction, np) && Located(Some(ms[i]), loc, direction, Some(cp))
      requires forall e :: e in EntryList() ==> e > 0
      ensures Farthest(ms, i + 1, loc, direction, if np == 0 || (if direction == Down then cp > np else cp < np) then cp else np)
    {
      forall e | Wanted(Some(AndTerm(ms)), e) ensures Wanted(Some(ms[i]), e) {
      }
      ExactAnd(ms, i, loc, direction);
      hide ExactFrom, From, EntryList, Satisfied;
    }

    lemma {:induction false} AndFails(ms: seq<Match>, i: nat, loc: Location, direction: Direction)
      requires i < |ms| && Located(Some(ms[i]), loc, direction, None)
      ensures Located(Some(AndTerm(ms)), loc, direction, None)
    {
      forall e | Wanted(Some(AndTerm(ms)), e) ensures Wanted(Some(ms[i]), e) {
      }
      ExactAnd(ms, i, loc, direction);
      hide ExactFrom, From, EntryList, Satisfied;
    }

    lemma {:induction false} LocatedAnd(ms: seq<Match>, loc: Location, direction: Direction, np: nat, r: Option<nat>)
      requires WellBuilt(hash64, header, objects, view, {})
      requires ms != [] && Farthest(ms, |ms|, loc, direction, np)
      requires NextResult(objects, EntryList(), AndTerm(ms), np, direction, Exact(objects, view, AndTerm(ms), np, direction), r)
      ensures Located(Some(AndTerm(ms)), loc, direction, r)
    {
      hide WellBuilt, From, EntryList, Satisfied, Roomy, ClockForward, Select, AllRoomy, Overlooked;
      if ExactFrom(Some(AndTerm(ms)), loc, direction) && direction == Up {
        RoomyExact(objects, view, AndTerm(ms), np);
      }
      if r.Some? && ExactFrom(Some(AndTerm(ms)), loc, direction) {
        FromKeeps(loc, direction, np, r.value);
      }
    }

    /** The first entry from the location on that satisfies the tree. */
    method FindLocationForMatch(m: Match, loc: Location, direction: Direction) returns (r: Option<nat>)
      requires Valid()
      modifies cache
      ensures Valid()
      ensures Located(Some(m), loc, direction, r)
      ensures LocatedInBoot(Some(m), loc, direction, r)
      decreases m
    {
      hide CacheOk, WellBuilt, Satisfied, Select, Located, LocatedIn, LocatedInBoot, Farthest, FarthestInBoot, NextResult, Readable, ListOf, Exact, Is;
      FileLists();
      match m {
        case Discrete(data) =>
          var dp := FindDataObject(hash64, header, objects, data, view);
          if dp.None? {
            NotStored(hash64, header, objects, view, data);
            NowhereLocated(data, loc, direction);
            NowhereInBoot(data, loc, direction);
            return None;
          }
          ListMembers(hash64, header, objects, view, dp.value);
          r := FindLocationForData(dp.value, loc, direction);
          LocatedDiscrete(data, ListOf(view, dp.value), loc, direction, r);
        case OrTerm(ms) =>
          r := None;
          var i := 0;
          LocatedNone(loc, direction);
          InBootNone(OrTerm([]), loc, direction);
          assert ms[..0] == [];
          while i < |ms|
            invariant 0 <= i <= |ms|
            invariant Valid()
            invariant Located(Some(OrTerm(ms[..i])), loc, direction, r)
            invariant LocatedInBoot(Some(OrTerm(ms[..i])), loc, direction, r)
          {
            var cp := FindLocationForMatch(ms[i], loc, direction);
            LocatedOr(ms, i, loc, direction, r, cp);
            InBootOr(ms, i, loc, direction, r, cp);
            if cp.Some? {
              if r.None? || if direction == Down then r.value > cp.value else r.value < cp.value {
                r := cp;
              }
            }
            i := i + 1;
          }
          assert ms[..|ms|] == ms;
        case AndTerm(ms) =>
          LocatedNone(loc, direction);
          InBootNone(AndTerm([]), loc, direction);
          if ms == [] {
            return None;
          }
          var np := 0;
          var i := 0;
          FarthestStart(ms, loc, direction);
          while i < |ms|
            invariant 0 <= i <= |ms|
            invariant Valid()
            invariant Farthest(ms, i, loc, direction, np) && FarthestInBoot(ms, i, loc, direction, np)
            invariant np == 0 <==> i == 0
          {
            var cp := FindLocationForMatch(ms[i], loc, direction);
            if cp.None? {
              AndFails(ms, i, loc, direction);
              AndFailsInBoot(ms, i, loc, direction);
              return None;
            }
            FoundIsEntry(ms[i], loc, direction, cp.value);
            FartherAnd(ms, i, loc, direction, np, cp.value);
            FartherInBoot(ms, i, loc, direction, np, cp.value);
            if np == 0 || if direction == Down then cp.value > np else cp.value < np {
              np := cp.value;
            }
            i := i + 1;
          }
          r := NextForMatch(cache, hash64, header, objects, m, np, direction, view);
          LocatedAnd(ms, loc, direction, np, r);
          InBootAnd(ms, loc, direction, np, r);
      }
    }

    lemma {:induction false} FoundIsEntry(m: Match, loc: Location, direction: Direction, r: nat)
      requires Located(Some(m), loc, direction, Some(r))
      ensures r in EntryList()
    {
      hide EntryList, Satisfied, ExactFrom;
    }

    lemma {:induction false} NowhereInBoot(x: Payload, loc: Location, direction: Direction)
      requires forall e :: e in EntryList() ==> x !in Content(objects, e)
      ensures LocatedInBoot(Some(Match.Discrete(x)), loc, direction, None)
    {
      hide EntryList, Content, ExactBoot, OfBoot, ToBoot;
    }

    lemma {:induction false} FarthestStart(ms: seq<Match>, loc: Location, direction: Direction)
      ensures Farthest(ms, 0, loc, direction, 0) && FarthestInBoot(ms, 0, loc, direction, 0)
    {
    }

    lemma {:induction false} NowhereLocated(x: Payload, loc: Location, direction: Direction)
      requires forall e :: e in EntryList() ==> x !in Content(objects, e)
      ensures Located(Some(Match.Discrete(x)), loc, direction, None)
    {
      hide EntryList, Content, From, ExactFrom;
    }

    lemma {:induction false} LocatedAll(loc: Location, direction: Direction, r: Option<nat>)
      requires LocatedIn(EntryList(), ExactFrom(None, loc, direction), loc, direction, r)
      ensures Located(None, loc, direction, r)
    {
      hide EntryList, From, ExactFrom;
    }

    /** The first entry from the location on that the query asks for. */
    method FindLocationWithMatches(m: Option<Match>, loc: Location, direction: Direction) returns (r: Option<nat>)
      requires Valid()
      modifies cache
      ensures Valid()
      ensures Located(m, loc, direction, r)
      ensures LocatedInBoot(m, loc, direction, r)
    {
      hide CacheOk, WellBuilt, Readable, FindsTurn, PlusOneTurn, BisectResult, PlusOneResult, SortedBy, LocatedIn, Located, LocatedInBoot, ToBoot, Roomy, From, StepFrom, Is, EntryList;
      if m.Some? {
        r := FindLocationForMatch(m.value, loc, direction);
        return;
      }
      FileLists();
      ghost var list, chain := EntryList(), ChainOf(view, MAIN);
      ghost var exact := ExactFrom(None, loc, direction);
      IncreasingAscends(list);
      if loc.kind.Head? || loc.kind.Tail? {
        var way := if loc.kind.Head? then Down else Up;
        var found := NextEntry(cache, header, objects, None, way, view);
        FromAll(loc, direction);
        SteppedIn(list, exact, loc, direction, way);
        r := if found.At? then Some(found.offset) else None;
        LocatedAll(loc, direction, r);
        NotToBoot(m, loc, direction, r);
        return;
      }
      if loc.seqnumSet && loc.stamp.seqnumId == seqnumId {
        var hit := MoveToEntry(cache, header, objects, loc.stamp.seqnum, Seqnum, direction, view);
        FromSeqnum(loc, direction);
        KeyedInMain(list, exact, loc, direction, chain, Seqnum, loc.stamp.seqnum, hit);
        r := if hit.Some? then Some(hit.value.offset) else None;
        LocatedAll(loc, direction, r);
        NotToBoot(m, loc, direction, r);
        return;
      }
      if loc.monotonicSet {
        var b := FindDataObject(hash64, header, objects, BootField(loc.stamp.bootId), view);
        if b.Some? {
          DataStored(header, objects, view, b.value);
          ListMembers(hash64, header, objects, view, b.value);
          var hit := MoveToEntryForData(cache, header, objects, b.value, loc.stamp.monotonic, Monotonic, direction, view);
          AnyHit(objects, Monotonic, loc.stamp.monotonic, direction, ChainOf(view, b.value), ListOf(view, b.value), hit);
          r := if hit.Some? then Some(hit.value.offset) else None;
          IsToBoot(b.value, loc);
          AnyIn(list, exact, loc, direction, r);
          InBootAll(b.value, loc, direction, hit);
          LocatedAll(loc, direction, r);
          return;
        }
      }
      if loc.realtimeSet {
        var hit := MoveToEntry(cache, header, objects, loc.stamp.realtime, Realtime, direction, view);
        FromTime(loc, direction);
        KeyedInMain(list, exact, loc, direction, chain, Realtime, loc.stamp.realtime, hit);
        r := if hit.Some? then Some(hit.value.offset) else None;
        LocatedAll(loc, direction, r);
        NotToBoot(m, loc, direction, r);
        return;
      }
      var found := NextEntry(cache, header, objects, None, direction, view);
      FromAll(loc, direction);
      SteppedIn(list, exact, loc, direction, direction);
      r := if found.At? then Some(found.offset) else None;
      LocatedAll(loc, direction, r);
      NotToBoot(m, loc, direction, r);
    }

    // ---------- from a time within a boot ----------

    /** Whether the list of a data object has an entry is whether the entry contains its payload. */
    ghost predicate Lists(list: seq<nat>, x: Payload) {
      forall e :: e in list <==> e in EntryList() && x in Content(objects, e)
    }

    lemma {:induction false} InBootCommon(x: Payload, lb: seq<nat>, ld: seq<nat>, loc: Location, direction: Direction, r: Found)
      requires Lists(lb, BootField(loc.stamp.bootId)) && Lists(ld, x)
      requires r.At? && BootForward(loc) ==> Common(objects, loc.stamp.monotonic, direction, lb, ld, r.offset)
      requires BootForward(loc) && ExactBoot(Some(Match.Discrete(x)), loc, direction) ==> NearestCommon(objects, loc.stamp.monotonic, direction, lb, ld, r)
      ensures LocatedInBoot(Some(Match.Discrete(x)), loc, direction, if r.At? then Some(r.offset) else None)
    {
      hide ExactBoot, EntryList, Content, ToBoot, MonotonicAt, BootField, BootForward;
      if r.At? && BootForward(loc) {
        assert OfBoot(loc, direction, r.offset) && Ahead(direction, r.offset, r.offset);
      }
      forall e | Wanted(Some(Match.Discrete(x)), e) && OfBoot(loc, direction, e)
        ensures Common(objects, loc.stamp.monotonic, direction, lb, ld, e) {
      }
    }

    lemma {:induction false} InBootDiscrete(x: Payload, d: nat, b: nat, loc: Location, direction: Direction, r: Found)
      requires WellBuilt(hash64, header, objects, view, {})
      requires Is(objects, d, KData) && PayloadAt(objects, d) == x
      requires Is(objects, b, KData) && PayloadAt(objects, b) == BootField(loc.stamp.bootId)
      requires r.At? && SortedBy(objects, Monotonic, ListOf(view, b)) ==>
                 Common(objects, loc.stamp.monotonic, direction, ListOf(view, b), ListOf(view, d), r.offset)
      requires SortedBy(objects, Monotonic, ListOf(view, b)) && (direction == Down || (Roomy(objects, ChainOf(view, b), ListOf(view, b)) && Roomy(objects, ChainOf(view, d), ListOf(view, d)))) ==>
                 NearestCommon(objects, loc.stamp.monotonic, direction, ListOf(view, b), ListOf(view, d), r)
      ensures LocatedInBoot(Some(Match.Discrete(x)), loc, direction, if r.At? then Some(r.offset) else None)
    {
      hide WellBuilt, Roomy, ListOf, ChainOf, Is, PayloadAt, Select, LocatedInBoot, NearestCommon, Common, Content, BootField, SortedBy;
      ListMembers(hash64, header, objects, view, d);
      ListMembers(hash64, header, objects, view, b);
      InBootCommon(x, ListOf(view, b), ListOf(view, d), loc, direction, r);
    }

    lemma {:induction false} InBootKeyed(list: seq<nat>, loc: Location, direction: Direction, chain: seq<nat>, hit: Option<Hit>)
      requires Lists(list, BootField(loc.stamp.bootId))
      requires Ascending(list) && PlusOneTurn(objects, Monotonic, loc.stamp.monotonic, direction, chain, list, hit)
      requires BootForward(loc) ==> SortedBy(objects, Monotonic, list) && PlusOneResult(objects, Monotonic, loc.stamp.monotonic, direction, chain, list, hit)
      requires ExactBoot(None, loc, direction) ==> direction == Down || Roomy(objects, chain, list)
      ensures LocatedInBoot(None, loc, direction, if hit.Some? then Some(hit.value.offset) else None)
    {
      AnyHit(objects, Monotonic, loc.stamp.monotonic, direction, chain, list, hit);
      if BootForward(loc) {
        KeyHit(objects, Monotonic, loc.stamp.monotonic, direction, chain, list, hit);
      }
      hide ExactBoot, EntryList, Content, ToBoot, MonotonicAt, BootField, BootForward, PlusOneTurn, PlusOneResult, SortedBy, Ascending, Roomy;
      if hit.Some? {
        assert Ahead(direction, hit.value.offset, hit.value.offset);
        assert OfBoot(loc, direction, hit.value.offset);
      }
    }

    lemma {:induction false} InBootAll(b: nat, loc: Location, direction: Direction, hit: Option<Hit>)
      requires WellBuilt(hash64, header, objects, view, {})
      requires Is(objects, b, KData) && PayloadAt(objects, b) == BootField(loc.stamp.bootId)
      requires Ascending(ListOf(view, b))
      requires PlusOneTurn(objects, Monotonic, loc.stamp.monotonic, direction, ChainOf(view, b), ListOf(view, b), hit)
      requires Ordered(objects, Monotonic, ListOf(view, b)) ==>
                 PlusOneResult(objects, Monotonic, loc.stamp.monotonic, direction, ChainOf(view, b), ListOf(view, b), hit)
      ensures LocatedInBoot(None, loc, direction, if hit.Some? then Some(hit.value.offset) else None)
    {
      hide WellBuilt, Roomy, ListOf, ChainOf, Is, PayloadAt, Select, LocatedInBoot, PlusOneTurn, PlusOneResult, SortedBy, Ascending, Content, BootField;
      ListMembers(hash64, header, objects, view, b);
      InBootKeyed(ListOf(view, b), loc, direction, ChainOf(view, b), hit);
    }

    lemma {:induction false} InBootOr(ms: seq<Match>, i: nat, loc: Location, direction: Direction, np: Option<nat>, cp: Option<nat>)
      requires i < |ms| && LocatedInBoot(Some(OrTerm(ms[..i])), loc, direction, np) && LocatedInBoot(Some(ms[i]), loc, direction, cp)
      ensures LocatedInBoot(Some(OrTerm(ms[..i + 1])), loc, direction, Nearer(direction, np, cp))
    {
      WantedOr(ms, i);
      ExactBootOr(ms, i, loc, direction);
      hide ExactBoot, OfBoot, ToBoot, FromBoot, NoConjunction, Wanted;
    }

    lemma {:induction false} WantedOr(ms: seq<Match>, i: nat)
      requires i < |ms|
      ensures forall e :: Wanted(Some(OrTerm(ms[..i + 1])), e) <==> Wanted(Some(OrTerm(ms[..i])), e) || Wanted(Some(ms[i]), e)
    {
      OrGrows(ms, i);
      hide Content, EntryList, Satisfied;
    }

    lemma {:induction false} ExactBootOr(ms: seq<Match>, i: nat, loc: Location, direction: Direction)
      requires i < |ms|
      ensures ExactBoot(Some(OrTerm(ms[..i + 1])), loc, direction) ==>
                ExactBoot(Some(OrTerm(ms[..i])), loc, direction) && ExactBoot(Some(ms[i]), loc, direction)
      ensures NoConjunction(OrTerm(ms[..i + 1])) ==> NoConjunction(OrTerm(ms[..i])) && NoConjunction(ms[i])
    {
      var front, all := ms[..i], ms[..i + 1];
      assert forall k :: 0 <= k < i ==> front[k] == all[k];
      assert all[i] == ms[i];
    }

    lemma {:induction false} InBootNone(m: Match, loc: Location, direction: Direction)
      requires m == OrTerm([]) || m == AndTerm([])
      ensures LocatedInBoot(Some(m), loc, direction, None)
    {
      hide ExactBoot, OfBoot, EntryList;
    }

    /** np, the farthest of the entries found for the members so far, is on from some entry of the boot, and passes over
        no wanted one. */
    ghost predicate FarthestInBoot(ms: seq<Match>, i: nat, loc: Location, direction: Direction, np: nat) {
      i > 0 && ToBoot(loc) && BootForward(loc) ==>
        && FromBoot(loc, direction, np)
        && (ExactBoot(Some(AndTerm(ms)), loc, direction) ==>
              forall e :: Wanted(Some(AndTerm(ms)), e) && OfBoot(loc, direction, e) ==> Ahead(direction, np, e))
    }

    lemma {:induction false} FartherInBoot(ms: seq<Match>, i: nat, loc: Location, direction: Direction, np: nat, cp: nat)
      requires i < |ms| && FarthestInBoot(ms, i, loc, direction, np) && LocatedInBoot(Some(ms[i]), loc, direction, Some(cp))
      requires np == 0 <==> i == 0
      ensures FarthestInBoot(ms, i + 1, loc, direction, if np == 0 || (if direction == Down then cp > np else cp < np) then cp else np)
    {
      MemberWanted(ms, i, loc, direction);
      hide ExactBoot, OfBoot, ToBoot, FromBoot, Wanted, BootForward;
    }

    lemma {:induction false} MemberWanted(ms: seq<Match>, i: nat, loc: Location, direction: Direction)
      requires i < |ms|
      ensures forall e :: Wanted(Some(AndTerm(ms)), e) ==> Wanted(Some(ms[i]), e)
      ensures ExactBoot(Some(AndTerm(ms)), loc, direction) ==> ExactBoot(Some(ms[i]), loc, direction)
    {
      forall e | Wanted(Some(AndTerm(ms)), e) ensures Wanted(Some(ms[i]), e) {
      }
    }

    lemma {:induction false} AndFailsInBoot(ms: seq<Match>, i: nat, loc: Location, direction: Direction)
      requires i < |ms| && LocatedInBoot(Some(ms[i]), loc, direction, None)
      ensures LocatedInBoot(Some(AndTerm(ms)), loc, direction, None)
    {
      MemberWanted(ms, i, loc, direction);
      hide ExactBoot, OfBoot, ToBoot, Wanted, BootForward;
    }

    lemma {:induction false} InBootAnd(ms: seq<Match>, loc: Location, direction: Direction, np: nat, r: Option<nat>)
      requires ms != [] && FarthestInBoot(ms, |ms|, loc, direction, np)
      requires NextResult(objects, EntryList(), AndTerm(ms), np, direction, Exact(objects, view, AndTerm(ms), np, direction), r)
      ensures LocatedInBoot(Some(AndTerm(ms)), loc, direction, r)
    {
      ExactThen(ms, loc, direction, np);
      hide EntryList, Satisfied, ExactBoot, Exact, OfBoot, ToBoot, Content, FromBoot, BootForward;
      if r.Some? && ToBoot(loc) && BootForward(loc) {
        FromBootKeeps(loc, direction, np, r.value);
      }
    }

    lemma {:induction false} ExactThen(ms: seq<Match>, loc: Location, direction: Direction, np: nat)
      ensures ExactBoot(Some(AndTerm(ms)), loc, direction) ==> Exact(objects, view, AndTerm(ms), np, direction)
    {
      hide AllRoomy, Overlooked;
      if ExactBoot(Some(AndTerm(ms)), loc, direction) && direction == Up {
        RoomyExact(objects, view, AndTerm(ms), np);
      }
    }

    lemma {:induction false} FromBootKeeps(loc: Location, direction: Direction, np: nat, r: nat)
      requires FromBoot(loc, direction, np) && Ahead(direction, np, r)
      ensures FromBoot(loc, direction, r)
    {
      hide EntryList, OfBoot;
      var x :| x in EntryList() && OfBoot(loc, direction, x) && Ahead(direction, x, np);
      assert Ahead(direction, x, r);
    }

    /** Where the entries of the boot are consecutive, any query finds its first entry of the boot. */
    lemma {:induction false} FoundInBoot(m: Option<Match>, loc: Location, direction: Direction, r: Option<nat>)
      requires WellBuilt(hash64, header, objects, view, {}) && BootNamed(loc.stamp.bootId)
      requires ToBoot(loc) && ExactBoot(m, loc, direction)
      requires (r.Some? ==> Wanted(m, r.value)) && LocatedInBoot(m, loc, direction, r)
      ensures FirstOfBoot(m, loc, direction, r)
    {
      FileLists();
      NamedForward(loc);
      hide WellBuilt, ToBoot, ExactBoot, Satisfied, Content, EntryList, OfBoot, BootForward;
      if e :| Wanted(m, e) && OfBoot(loc, direction, e) {
        var x :| x in EntryList() && OfBoot(loc, direction, x) && Ahead(direction, x, r.value);
        BetweenOfBoot(loc, direction, x, r.value, e);
      }
    }

    lemma {:induction false} NamedForward(loc: Location)
      requires WellBuilt(hash64, header, objects, view, {}) && BootNamed(loc.stamp.bootId)
      ensures BootForward(loc)
    {
      hide WellBuilt, Consecutive, Select, BootAt, Content, SortedBy;
      forall b | Is(objects, b, KData) && PayloadAt(objects, b) == BootField(loc.stamp.bootId)
        ensures SortedBy(objects, Monotonic, ListOf(view, b)) {
        ListMembers(hash64, header, objects, view, b);
        BootListSorted(hash64, header, objects, view, b, loc.stamp.bootId);
      }
    }

    lemma {:induction false} BetweenOfBoot(loc: Location, direction: Direction, x: nat, y: nat, z: nat)
      requires WellBuilt(hash64, header, objects, view, {}) && BootNamed(loc.stamp.bootId)
      requires x in EntryList() && y in EntryList() && z in EntryList() && Ahead(direction, x, y) && Ahead(direction, y, z)
      requires OfBoot(loc, direction, x) && OfBoot(loc, direction, z)
      ensures OfBoot(loc, direction, y)
    {
      FileLists();
      EntriesInOrder();
      hide WellBuilt, Content, EntriesOk, BootAt, MonotonicAt, EntryList, BootField, Consecutive;
      if direction == Down {
        SameBoot(EntryList(), x, y, z);
        BootPair(header, objects, EntryList(), x, y);
      } else {
        SameBoot(EntryList(), z, y, x);
        BootPair(header, objects, EntryList(), y, x);
      }
    }

    lemma {:induction false} SameBoot(list: seq<nat>, x: nat, y: nat, z: nat)
      requires Consecutive(objects, list) && Increasing(list) && x in list && y in list && z in list && x <= y <= z
      requires BootAt(objects, x) == BootAt(objects, z)
      ensures BootAt(objects, y) == BootAt(objects, x)
    {
      hide BootAt;
      var i: nat :| i < |list| && list[i] == x;
      var j: nat :| j < |list| && list[j] == y;
      var k: nat :| k < |list| && list[k] == z;
      assert i <= j <= k;
    }

    lemma {:induction false} EntriesInOrder()
      requires WellBuilt(hash64, header, objects, view, {})
      ensures EntriesOk(header, objects, EntryList())
    {
      hide Layout, TablesOk, CountsOk, NoSlack, HashIndex, FieldLists, IndexOk, Select, EntriesOk;
    }

    // ---------- the next entry ----------

    lemma {:induction false} SteppedOn(cp: nat, direction: Direction, r: Option<nat>)
      requires Increasing(EntryList()) && cp in EntryList() && r == StepFrom(EntryList(), Some(cp), direction)
      ensures Advanced(None, cp, direction, r)
    {
      hide ExactFile, EntryList;
      var list := EntryList();
      var i := Below(list, cp);
      var k :| 0 <= k < |list| && list[k] == cp;
      assert i == k;
    }

    lemma {:induction false} LeaptOn(m: Match, cp: nat, direction: Direction, r: Option<nat>)
      requires cp > 0
      requires var after := if direction == Down then cp + 1 else cp - 1;
               NextResult(objects, EntryList(), m, after, direction, Exact(objects, view, m, after, direction), r)
      ensures Advanced(Some(m), cp, direction, r)
    {
      hide EntryList, Satisfied, Roomy, AllRoomy, Overlooked;
      if ExactFile(Some(m), direction) && direction == Up {
        RoomyExact(objects, view, m, cp - 1);
      }
    }

    /** The next entry behind cp that the query asks for. */
    method NextWithMatches(m: Option<Match>, cp: nat, direction: Direction) returns (r: Option<nat>)
      requires Valid() && cp in EntryList()
      modifies cache
      ensures Valid()
      ensures Advanced(m, cp, direction, r)
    {
      hide CacheOk, WellBuilt, Readable, EntryList, StepFrom, NextResult, Advanced, ExactFile, Select;
      FileLists();
      if m.None? {
        var found := NextEntry(cache, header, objects, Some(cp), direction, view);
        r := if found.At? then Some(found.offset) else None;
        SteppedOn(cp, direction, r);
      } else {
        r := NextForMatch(cache, hash64, header, objects, m.value, if direction == Down then cp + 1 else cp - 1, direction, view);
        SameEntries();
        LeaptOn(m.value, cp, direction, r);
      }
    }

    lemma {:induction false} SameEntries()
      ensures EntryList() == Entries(objects, view)
    {
    }

    // ---------- the next entry beyond the location ----------

    predicate Resumes(direction: Direction)
      reads this
    {
      lastDirection == direction && currentOffset > 0
    }

    /** The search starts behind the entry at cp, or from the location. */
    predicate Starts(cp: Option<nat>, loc: Location, direction: Direction, e: nat) {
      if cp.Some? then e != cp.value && Ahead(direction, cp.value, e) else From(loc, direction, e)
    }

    /** e is not a copy of the entry at the location, and not on its wrong side. */
    predicate Passed(loc: Location, direction: Direction, e: nat) {
      loc.kind.Discrete? ==>
        if direction == Down then CompareWithLocation(StampAt(e), loc) > 0 else CompareWithLocation(StampAt(e), loc) < 0
    }

    ghost predicate ExactStart(m: Option<Match>, cp: Option<nat>, loc: Location, direction: Direction) {
      if cp.Some? then ExactFile(m, direction) else ExactFrom(m, loc, direction)
    }

    /** r is the first wanted entry of the search that is beyond the location. */
    ghost predicate FirstBeyondLocation(m: Option<Match>, cp: Option<nat>, loc: Location, direction: Direction, r: Option<nat>) {
      && (r.Some? ==> Wanted(m, r.value) && Passed(loc, direction, r.value))
      && (ExactStart(m, cp, loc, direction) ==>
            && (r.Some? ==> Starts(cp, loc, direction, r.value))
            && forall e :: Wanted(m, e) && Starts(cp, loc, direction, e) && Passed(loc, direction, e) ==> r.Some? && Ahead(direction, r.value, e))
    }

    /** c is a wanted entry of the search that no wanted entry beyond the location precedes. */
    ghost predicate NotBeyondYet(m: Option<Match>, cp: Option<nat>, loc: Location, direction: Direction, c: Option<nat>) {
      && (c.Some? ==> Wanted(m, c.value))
      && (ExactStart(m, cp, loc, direction) ==>
            && (c.Some? ==> Starts(cp, loc, direction, c.value))
            && forall e :: Wanted(m, e) && Starts(cp, loc, direction, e) && Passed(loc, direction, e) ==> c.Some? && Ahead(direction, c.value, e))
    }

    /** r is the first wanted entry beyond the location from c on, where the search began. */
    ghost predicate Stepped(m: Option<Match>, loc: Location, direction: Direction, c: Option<nat>, r: Option<nat>) {
      && (r.Some? ==> c.Some? && Wanted(m, r.value) && Passed(loc, direction, r.value) && Ahead(direction, c.value, r.value))
      && (c.Some? && ExactFile(m, direction) ==>
            forall e :: Wanted(m, e) && Passed(loc, direction, e) && Ahead(direction, c.value, e) ==> r.Some? && Ahead(direction, r.value, e))
    }

    /** The same for a wanted entry r that may not be beyond the location yet. */
    ghost predicate Stepping(m: Option<Match>, loc: Location, direction: Direction, c: Option<nat>, r: Option<nat>) {
      && (r.Some? ==> c.Some? && Wanted(m, r.value) && Ahead(direction, c.value, r.value))
      && (c.Some? && ExactFile(m, direction) ==>
            forall e :: Wanted(m, e) && Passed(loc, direction, e) && Ahead(direction, c.value, e) ==> r.Some? && Ahead(direction, r.value, e))
    }

    /** The search began at a wanted entry located from the location. */
    ghost predicate FromSearch(m: Option<Match>, loc: Location, direction: Direction, r: Option<nat>) {
      exists c: Option<nat> :: (c.Some? ==> Wanted(m, c.value)) && LocatedInBoot(m, loc, direction, c) && Stepped(m, loc, direction, c, r)
    }

    lemma {:induction false} SteppingOn(m: Option<Match>, loc: Location, direction: Direction, c: Option<nat>, e: nat, r: Option<nat>)
      requires Stepping(m, loc, direction, c, Some(e)) && !Passed(loc, direction, e) && Advanced(m, e, direction, r)
      ensures Stepping(m, loc, direction, c, r)
    {
      hide Wanted, Passed, ExactFile;
    }

    lemma {:induction false} SearchEnds(m: Option<Match>, loc: Location, direction: Direction, c: Option<nat>, r: Option<nat>)
      requires (c.Some? ==> Wanted(m, c.value)) && LocatedInBoot(m, loc, direction, c)
      requires Stepping(m, loc, direction, c, r) && (r.Some? ==> Passed(loc, direction, r.value))
      ensures FromSearch(m, loc, direction, r)
    {
      hide Wanted, Passed, ExactFile, LocatedInBoot;
      assert Stepped(m, loc, direction, c, r);
    }

    lemma {:induction false} SearchStarts(m: Option<Match>, loc: Location, direction: Direction, c: Option<nat>)
      requires Located(m, loc, direction, c)
      ensures (c.Some? ==> Wanted(m, c.value)) && Stepping(m, loc, direction, c, c)
    {
      hide Wanted, Passed, ExactFrom, ExactFile, From;
    }

    lemma {:induction false} ResumeStart(m: Option<Match>, cp: nat, loc: Location, direction: Direction, c: Option<nat>)
      requires Advanced(m, cp, direction, c)
      ensures NotBeyondYet(m, Some(cp), loc, direction, c)
    {
      hide Wanted, Passed, ExactFile;
    }

    lemma {:induction false} LocationStart(m: Option<Match>, loc: Location, direction: Direction, c: Option<nat>)
      requires Located(m, loc, direction, c)
      ensures NotBeyondYet(m, None, loc, direction, c)
    {
      hide Wanted, Passed, ExactFrom, From;
    }

    lemma {:induction false} StepBeyond(m: Option<Match>, cp: Option<nat>, loc: Location, direction: Direction, c: nat, c': Option<nat>)
      requires WellBuilt(hash64, header, objects, view, {})
      requires NotBeyondYet(m, cp, loc, direction, Some(c)) && !Passed(loc, direction, c) && Advanced(m, c, direction, c')
      ensures NotBeyondYet(m, cp, loc, direction, c')
    {
      hide WellBuilt, Passed, From, ClockForward, ExactFile;
      if c'.Some? && cp.None? && ExactStart(m, cp, loc, direction) {
        FromKeeps(loc, direction, c, c'.value);
      }
      hide Wanted;
    }

    lemma {:induction false} StopBeyond(m: Option<Match>, cp: Option<nat>, loc: Location, direction: Direction, c: Option<nat>)
      requires NotBeyondYet(m, cp, loc, direction, c) && (c.Some? ==> Passed(loc, direction, c.value))
      ensures FirstBeyondLocation(m, cp, loc, direction, c)
    {
      hide Wanted, Passed, Starts, ExactStart;
    }

    lemma {:induction false} WantedEntry(m: Option<Match>, cp: Option<nat>, loc: Location, direction: Direction, c: nat)
      requires NotBeyondYet(m, cp, loc, direction, Some(c))
      ensures c in EntryList()
    {
      hide Passed, Starts, ExactStart;
    }

    lemma {:induction false} AdvancedEntry(m: Option<Match>, cp: nat, direction: Direction, c: nat)
      requires Advanced(m, cp, direction, Some(c))
      ensures c in EntryList() && c != cp && Ahead(direction, cp, c)
    {
      hide ExactFile;
    }

    /** The next wanted entry of this file that is beyond the location. */
    method NextBeyondLocation(m: Option<Match>, loc: Location, direction: Direction) returns (r: Option<nat>)
      requires Valid() && (currentOffset > 0 ==> currentOffset in EntryList())
      modifies cache
      ensures Valid()
      ensures FirstBeyondLocation(m, if Resumes(direction) then Some(currentOffset) else None, loc, direction, r)
      ensures !Resumes(direction) ==> FromSearch(m, loc, direction, r)
    {
      hide LocatedInBoot, Stepping, FromSearch, CacheOk, WellBuilt, Readable, EntryList, Advanced, Located, NotBeyondYet, FirstBeyondLocation, Passed, Is;
      FileLists();
      ghost var cp := if Resumes(direction) then Some(currentOffset) else None;
      ghost var start: Option<nat> := None;
      if lastDirection == direction && currentOffset > 0 {
        r := NextWithMatches(m, currentOffset, direction);
        ResumeStart(m, currentOffset, loc, direction, r);
      } else {
        r := FindLocationWithMatches(m, loc, direction);
        LocationStart(m, loc, direction, r);
        SearchStarts(m, loc, direction, r);
        start := r;
      }
      if r.None? {
        StopBeyond(m, cp, loc, direction, r);
        if cp.None? {
          SearchEnds(m, loc, direction, start, r);
        }
        return;
      }
      var c := r.value;
      WantedEntry(m, cp, loc, direction, c);
      while true
        invariant Valid() && c in EntryList() && r == Some(c)
        invariant NotBeyondYet(m, cp, loc, direction, r)
        invariant cp.None? ==> Stepping(m, loc, direction, start, r)
        decreases if direction == Down then LastOr0(EntryList()) - c else c
      {
        if Passed(loc, direction, c) {
          StopBeyond(m, cp, loc, direction, r);
          if cp.None? {
            SearchEnds(m, loc, direction, start, r);
          }
          return;
        }
        r := NextWithMatches(m, c, direction);
        StepBeyond(m, cp, loc, direction, c, r);
        if cp.None? {
          SteppingOn(m, loc, direction, start, c, r);
        }
        if r.None? {
          StopBeyond(m, cp, loc, direction, r);
          if cp.None? {
            SearchEnds(m, loc, direction, start, r);
          }
          return;
        }
        AdvancedEntry(m, c, direction, r.value);
        c := r.value;
      }
    }
  }

  lemma {:induction false} IncreasingAscends(list: seq<nat>)
    requires Increasing(list)
    ensures Ascending(list)
  {
  }

  lemma {:induction false} SeqnumOrder(h: Header, objs: Heap, v: View)
    requires Readable(h, objs, v)
    ensures ListsSorted(objs, v) && SortedBy(objs, Seqnum, ListOf(v, MAIN))
  {
    hide ListsStored, ChainsApart;
  }

  // ---------- many files ----------

  /** The files come from one source of sequence numbers, and equal numbers mean copies of one entry. */
  ghost predicate OneSource(files: seq<OpenFile>) {
    && (forall i, j :: 0 <= i < |files| && 0 <= j < |files| ==> files[i].seqnumId == files[j].seqnumId)
    && forall i, j, e, e' :: 0 <= i < |files| && 0 <= j < |files| && e in files[i].EntryList() && e' in files[j].EntryList() ==>
         Copies(files[i].StampAt(e), files[j].StampAt(e'))
  }

  function SeqnumOf(f: OpenFile, e: nat): nat {
    SeqnumAt(f.objects, e)
  }

  /** The location is an end of the journal, or an entry of one of the files. */
  ghost predicate Placed(files: seq<OpenFile>, loc: Location, direction: Direction) {
    match loc.kind
    case Head => direction == Down
    case Tail => direction == Up
    case Discrete => exists i, e :: 0 <= i < |files| && e in files[i].EntryList() && loc == LocationOf(files[i].StampAt(e))
    case Seek => false
  }

  /** The sequence number is beyond the location. */
  predicate SeqnumBeyond(loc: Location, direction: Direction, s: nat) {
    loc.kind.Discrete? ==> if direction == Down then s > loc.stamp.seqnum else s < loc.stamp.seqnum
  }

  /** r is the wanted entry of f with the first sequence number beyond the location. */
  ghost predicate FirstBySeqnum(f: OpenFile, m: Option<Match>, loc: Location, direction: Direction, r: Option<nat>) {
    && (r.Some? ==> f.Wanted(m, r.value) && SeqnumBeyond(loc, direction, SeqnumOf(f, r.value)))
    && forall e :: f.Wanted(m, e) && SeqnumBeyond(loc, direction, SeqnumOf(f, e)) ==>
         r.Some? && Ahead(direction, SeqnumOf(f, r.value), SeqnumOf(f, e))
  }

  /** The entry the file resumes from, if any, is not beyond the location. */
  predicate InStepAt(f: OpenFile, cp: Option<nat>, loc: Location, direction: Direction) {
    cp.Some? ==> !SeqnumBeyond(loc, direction, SeqnumOf(f, cp.value))
  }

  lemma {:induction false} PassedBySeqnum(files: seq<OpenFile>, i: nat, loc: Location, direction: Direction, e: nat)
    requires OneSource(files) && Placed(files, loc, direction) && i < |files| && e in files[i].EntryList()
    ensures files[i].Passed(loc, direction, e) <==> SeqnumBeyond(loc, direction, SeqnumOf(files[i], e))
    ensures loc.kind.Discrete? ==> files[i].BySeqnum(loc)
  {
    hide CompareWithLocation;
    if loc.kind.Discrete? {
      var j, e' :| 0 <= j < |files| && e' in files[j].EntryList() && loc == LocationOf(files[j].StampAt(e'));
      ComparesBySeqnum(files[i].StampAt(e), files[j].StampAt(e'));
    }
  }

  lemma {:induction false} SeqnumOrders(f: OpenFile, e: nat, e': nat)
    requires WellBuilt(f.hash64, f.header, f.objects, f.view, {}) && e in f.EntryList() && e' in f.EntryList()
    ensures e < e' <==> SeqnumOf(f, e) < SeqnumOf(f, e')
  {
    hide Base, IndexOk, Select;
    EntriesSorted(f.hash64, f.header, f.objects, f.view);
    var list := f.EntryList();
    var i :| 0 <= i < |list| && list[i] == e;
    var j :| 0 <= j < |list| && list[j] == e';
  }

  /** What the search in one file finds, said by sequence numbers. */
  lemma {:induction false} FileNext(files: seq<OpenFile>, i: nat, m: Option<Match>, cp: Option<nat>, loc: Location, direction: Direction, r: Option<nat>)
    requires OneSource(files) && Placed(files, loc, direction) && i < |files|
    requires WellBuilt(files[i].hash64, files[i].header, files[i].objects, files[i].view, {}) && files[i].ExactFile(m, direction)
    requires (cp.Some? ==> cp.value in files[i].EntryList()) && InStepAt(files[i], cp, loc, direction)
    requires files[i].FirstBeyondLocation(m, cp, loc, direction, r)
    ensures FirstBySeqnum(files[i], m, loc, direction, r)
  {
    var f := files[i];
    forall e | e in f.EntryList() ensures f.Passed(loc, direction, e) <==> SeqnumBeyond(loc, direction, SeqnumOf(f, e)) {
      PassedBySeqnum(files, i, loc, direction, e);
    }
    if r.Some? {
      PassedBySeqnum(files, i, loc, direction, r.value);
    }
    forall e | f.Wanted(m, e) && SeqnumBeyond(loc, direction, SeqnumOf(f, e))
      ensures r.Some? && Ahead(direction, SeqnumOf(f, r.value), SeqnumOf(f, e))
    {
      PassedBySeqnum(files, i, loc, direction, e);
      if cp.Some? {
        SeqnumOrders(f, cp.value, e);
        SeqnumOrders(f, e, cp.value);
      }
      StartsThere(f, m, cp, loc, direction, e);
      SeqnumOrders(f, r.value, e);
      SeqnumOrders(f, e, r.value);
    }
  }

  /** A file that resumes behind cp misses exactly if cp is itself beyond the location. */
  lemma {:induction false} ResumeExact(files: seq<OpenFile>, i: nat, m: Option<Match>, cp: Option<nat>, loc: Location, direction: Direction, r: Option<nat>)
    requires OneSource(files) && Placed(files, loc, direction) && i < |files|
    requires WellBuilt(files[i].hash64, files[i].header, files[i].objects, files[i].view, {}) && files[i].ExactFile(m, direction)
    requires cp.Some? ==> files[i].Wanted(m, cp.value)
    requires files[i].FirstBeyondLocation(m, cp, loc, direction, r)
    ensures FirstBySeqnum(files[i], m, loc, direction, r) <==> InStepAt(files[i], cp, loc, direction)
  {
    hide OneSource, Placed, WellBuilt, OpenFile.Passed, SeqnumBeyond, OpenFile.ExactFile, SeqnumOf;
    if InStepAt(files[i], cp, loc, direction) {
      FileNext(files, i, m, cp, loc, direction, r);
    } else if FirstBySeqnum(files[i], m, loc, direction, r) {
      SeqnumOrders(files[i], r.value, cp.value);
      SeqnumOrders(files[i], cp.value, r.value);
    }
  }

  /** Reading on in this direction is by sequence number. */
  ghost predicate BySeqnums(files: seq<OpenFile>, m: Option<Match>, loc: Location, direction: Direction) {
    && OneSource(files) && Placed(files, loc, direction)
    && forall i :: 0 <= i < |files| ==> files[i].ExactFile(m, direction)
  }

  /** The answer of file i: its first entry beyond the location, exactly if it does not resume from beyond the location. */
  ghost predicate AnswerExact(files: seq<OpenFile>, i: nat, m: Option<Match>, cp: Option<nat>, loc: Location, direction: Direction, answer: Option<nat>)
    requires i < |files|
  {
    && files[i].FirstBeyondLocation(m, cp, loc, direction, answer)
    && (cp.None? ==> files[i].FromSearch(m, loc, direction, answer))
    && (BySeqnums(files, m, loc, direction) ==>
          (FirstBySeqnum(files[i], m, loc, direction, answer) <==> InStepAt(files[i], cp, loc, direction)))
  }

  lemma {:induction false} StartsThere(f: OpenFile, m: Option<Match>, cp: Option<nat>, loc: Location, direction: Direction, e: nat)
    requires f.ExactFile(m, direction) && (loc.kind.Discrete? ==> f.BySeqnum(loc)) && !loc.kind.Seek?
    requires (loc.kind.Head? ==> direction == Down) && (loc.kind.Tail? ==> direction == Up)
    requires cp.Some? ==> e != cp.value && Ahead(direction, cp.value, e)
    requires SeqnumBeyond(loc, direction, SeqnumOf(f, e))
    ensures f.Starts(cp, loc, direction, e) && f.ExactStart(m, cp, loc, direction)
  {
  }

  /** The best of the files looked at so far: wanted, and no wanted entry of them comes before it. */
  ghost predicate Best(files: seq<OpenFile>, n: nat, m: Option<Match>, loc: Location, direction: Direction, best: Option<(nat, nat)>) {
    && n <= |files|
    && (best.Some? ==> best.value.0 < n && files[best.value.0].Wanted(m, best.value.1)
                       && SeqnumBeyond(loc, direction, SeqnumOf(files[best.value.0], best.value.1)))
    && forall i, e :: 0 <= i < n && files[i].Wanted(m, e) && SeqnumBeyond(loc, direction, SeqnumOf(files[i], e)) ==>
         best.Some? && Ahead(direction, SeqnumOf(files[best.value.0], best.value.1), SeqnumOf(files[i], e))
  }

  function Better(files: seq<OpenFile>, i: nat, direction: Direction, best: Option<(nat, nat)>, r: Option<nat>): Option<(nat, nat)>
    requires i < |files| && (best.Some? ==> best.value.0 < |files|)
  {
    if r.None? then best
    else if best.None? then Some((i, r.value))
    else
      var k := CompareEntryOrder(files[i].StampAt(r.value), files[best.value.0].StampAt(best.value.1));
      if (if direction == Down then k < 0 else k > 0) then Some((i, r.value)) else best
  }

  lemma {:induction false} OneSourceCopies(files: seq<OpenFile>, m: Option<Match>, i: nat, e: nat, j: nat, e': nat)
    requires OneSource(files) && i < |files| && j < |files| && files[i].Wanted(m, e) && files[j].Wanted(m, e')
    ensures CompareEntryOrder(files[i].StampAt(e), files[j].StampAt(e')) == Order(SeqnumOf(files[i], e), SeqnumOf(files[j], e'))
  {
    ComparesBySeqnum(files[i].StampAt(e), files[j].StampAt(e'));
  }

  lemma {:induction false} BestStep(files: seq<OpenFile>, i: nat, m: Option<Match>, loc: Location, direction: Direction, best: Option<(nat, nat)>, r: Option<nat>)
    requires OneSource(files) && i < |files|
    requires Best(files, i, m, loc, direction, best) && FirstBySeqnum(files[i], m, loc, direction, r)
    ensures Best(files, i + 1, m, loc, direction, Better(files, i, direction, best, r))
  {
    hide CompareEntryOrder, OneSource, OpenFile.Wanted, OpenFile.StampAt, SeqnumBeyond;
    if r.Some? && best.Some? {
      OneSourceCopies(files, m, i, r.value, best.value.0, best.value.1);
    }
  }

  /** The stamps of the answers. */
  function Stamps(files: seq<OpenFile>, answers: seq<Option<nat>>): (s: seq<Option<Stamp>>)
    requires |answers| <= |files|
    ensures |s| == |answers| && forall i :: 0 <= i < |s| ==> s[i] == StampOf(files[i], answers[i])
  {
    seq(|answers|, i requires 0 <= i < |answers| => StampOf(files[i], answers[i]))
  }

  function StampOf(f: OpenFile, answer: Option<nat>): Option<Stamp> {
    if answer.Some? then Some(f.StampAt(answer.value)) else None
  }

  lemma {:induction false} NoStamps(files: seq<OpenFile>)
    ensures Stamps(files, []) == []
  {
  }

  lemma {:induction false} StampsMore(files: seq<OpenFile>, answers: seq<Option<nat>>, p: Option<nat>)
    requires |answers| < |files|
    ensures Stamps(files, answers + [p]) == Stamps(files, answers) + [StampOf(files[|answers|], p)]
  {
    hide StampOf;
  }

  lemma {:induction false} NoneYet(files: seq<OpenFile>, m: Option<Match>, loc: Location, direction: Direction)
    ensures Best(files, 0, m, loc, direction, None)
  {
  }

  lemma {:induction false} PickedEntry(files: seq<OpenFile>, i: nat, m: Option<Match>, cp: Option<nat>, loc: Location, direction: Direction, e: nat)
    requires i < |files| && AnswerExact(files, i, m, cp, loc, direction, Some(e))
    ensures e in files[i].EntryList() && files[i].Wanted(m, e) && files[i].Passed(loc, direction, e)
  {
    hide OpenFile.Passed, OpenFile.FromSearch;
  }

  lemma {:induction false} WantedListed(f: OpenFile, m: Option<Match>, e: nat)
    ensures f.Wanted(m, e) ==> e in f.EntryList()
  {
  }

  lemma {:induction false} NewPlace(files: seq<OpenFile>, i: nat, e: nat, direction: Direction)
    requires i < |files| && e in files[i].EntryList()
    ensures Placed(files, LocationOf(files[i].StampAt(e)), direction)
  {
  }

  lemma {:induction false} StartAnywhere(f: OpenFile, loc: Location, direction: Direction)
    ensures InStepAt(f, None, loc, direction)
  {
  }

  /** No file resumes beyond the entry that was picked. */
  lemma {:induction false} StaysInStep(files: seq<OpenFile>, m: Option<Match>, loc: Location, direction: Direction, best: (nat, nat), i: nat, cp: Option<nat>)
    requires OneSource(files) && i < |files| && InStepAt(files[i], cp, loc, direction)
    requires Best(files, |files|, m, loc, direction, Some(best))
    ensures var loc' := LocationOf(files[best.0].StampAt(best.1));
            && InStepAt(files[i], cp, loc', direction)
            && InStepAt(files[best.0], Some(best.1), loc', direction)
  {
    hide OpenFile.Wanted;
  }

  ghost function WantedSeqnums(files: seq<OpenFile>, m: Option<Match>): set<nat> {
    set i, e | 0 <= i < |files| && e in files[i].EntryList() && files[i].Wanted(m, e) :: SeqnumOf(files[i], e)
  }

  function Unread(wanted: set<nat>, loc: Location): set<nat> {
    set s | s in wanted && SeqnumBeyond(loc, Down, s)
  }

  /** Exactly the wanted numbers up to the location have been read. */
  ghost predicate ReadSoFar(wanted: set<nat>, loc: Location, seqnums: seq<nat>) {
    && Increasing(seqnums)
    && (forall s :: s in seqnums <==> s in wanted && !SeqnumBeyond(loc, Down, s))
  }

  lemma {:induction false} NothingRead(loc: Location, wanted: set<nat>)
    requires loc.kind.Head?
    ensures ReadSoFar(wanted, loc, [])
  {
  }

  lemma {:induction false} NoMore(files: seq<OpenFile>, m: Option<Match>, loc: Location, seqnums: seq<nat>)
    requires Best(files, |files|, m, loc, Down, None) && ReadSoFar(WantedSeqnums(files, m), loc, seqnums)
    ensures Increasing(seqnums) && forall s :: s in seqnums <==> s in WantedSeqnums(files, m)
  {
    forall s | s in WantedSeqnums(files, m) ensures !SeqnumBeyond(loc, Down, s) {
      var i, e :| 0 <= i < |files| && e in files[i].EntryList() && files[i].Wanted(m, e) && SeqnumOf(files[i], e) == s;
    }
  }

  lemma {:induction false} OneMore(files: seq<OpenFile>, m: Option<Match>, loc: Location, seqnums: seq<nat>, best: (nat, nat))
    requires Best(files, |files|, m, loc, Down, Some(best)) && ReadSoFar(WantedSeqnums(files, m), loc, seqnums)
    ensures var loc' := LocationOf(files[best.0].StampAt(best.1));
            && ReadSoFar(WantedSeqnums(files, m), loc', seqnums + [loc'.stamp.seqnum])
            && |Unread(WantedSeqnums(files, m), loc')| < |Unread(WantedSeqnums(files, m), loc)|
  {
    hide OpenFile.Wanted;
    var wanted := WantedSeqnums(files, m);
    var loc' := LocationOf(files[best.0].StampAt(best.1));
    var s0 := loc'.stamp.seqnum;
    WantedMember(files, m, best.0, best.1);
    forall s | s in wanted && SeqnumBeyond(loc, Down, s) ensures s0 <= s {
      var i, e :| 0 <= i < |files| && e in files[i].EntryList() && files[i].Wanted(m, e) && SeqnumOf(files[i], e) == s;
    }
    hide WantedSeqnums;
    NextRead(wanted, loc, loc', seqnums);
  }

  lemma {:induction false} WantedMember(files: seq<OpenFile>, m: Option<Match>, i: nat, e: nat)
    requires i < |files| && files[i].Wanted(m, e)
    ensures SeqnumOf(files[i], e) in WantedSeqnums(files, m)
  {
    assert e in files[i].EntryList();
  }

  lemma {:induction false} NextRead(wanted: set<nat>, loc: Location, loc': Location, seqnums: seq<nat>)
    requires ReadSoFar(wanted, loc, seqnums) && loc'.kind.Discrete?
    requires loc'.stamp.seqnum in wanted && SeqnumBeyond(loc, Down, loc'.stamp.seqnum)
    requires forall s :: s in wanted && SeqnumBeyond(loc, Down, s) ==> loc'.stamp.seqnum <= s
    ensures ReadSoFar(wanted, loc', seqnums + [loc'.stamp.seqnum])
    ensures |Unread(wanted, loc')| < |Unread(wanted, loc)|
  {
    var s0 := loc'.stamp.seqnum;
    forall i | 0 <= i < |seqnums| ensures seqnums[i] < s0 {
      assert seqnums[i] in seqnums;
    }
    SmallerSet(Unread(wanted, loc'), Unread(wanted, loc), s0);
  }

  lemma {:induction false} SmallerSet<T>(a: set<T>, b: set<T>, x: T)
    requires a <= b && x in b && x !in a
    ensures |a| < |b|
  {
    assert a <= b - {x};
    SubsetSize(a, b - {x});
  }

  lemma {:induction false} SubsetSize<T>(a: set<T>, b: set<T>)
    requires a <= b
    ensures |a| <= |b|
  {
    if a != {} {
      var x :| x in a;
      SubsetSize(a - {x}, b - {x});
    }
  }

  class Journal {
    const files: seq<OpenFile>
    var level0: Option<Match>
    var currentLocation: Location
    var currentFile: Option<nat>

    ghost predicate Apart() {
      forall i, j :: 0 <= i < j < |files| ==> files[i] != files[j] && files[i].cache != files[j].cache
    }

    ghost predicate FilesValid()
      reads set i | 0 <= i < |files| :: files[i].cache
    {
      forall i :: 0 <= i < |files| ==> files[i].Valid()
    }

    /** The entry a file stands at is one the query asks for. */
    ghost predicate OffsetsOk()
      reads this`level0, files
    {
      forall i :: 0 <= i < |files| && files[i].currentOffset > 0 ==> files[i].Wanted(level0, files[i].currentOffset)
    }

    ghost function ResumeFrom(k: nat, direction: Direction): Option<nat>
      requires k < |files|
      reads files[k]
    {
      if files[k].Resumes(direction) then Some(files[k].currentOffset) else None
    }

    /** Reading on is by sequence number, and no file resumes beyond the location. */
    ghost predicate InStep(direction: Direction)
      reads this, files
    {
      BySeqnums(files, level0, currentLocation, direction) && forall i :: 0 <= i < |files| ==> InStepAt(files[i], ResumeFrom(i, direction), currentLocation, direction)
    }

    constructor (files: seq<OpenFile>, level0: Option<Match>)
      ensures this.files == files && this.level0 == level0
    {
      this.files, this.level0 := files, level0;
      currentLocation := Location(Head, Stamp(0, 0, 0, 0, 0, 0), false, false, false, false);
      currentFile := None;
    }

    /** Forgets where every file was, and starts at the head. */
    method SeekHead()
      modifies this`currentLocation, this`currentFile, set i | 0 <= i < |files| :: files[i]`currentOffset
      ensures OffsetsOk() && currentLocation.kind == Head
      ensures forall i :: 0 <= i < |files| ==> files[i].currentOffset == 0
      ensures OneSource(files) ==> InStep(Down)
    {
      hide OneSource;
      currentFile := None;
      var k := 0;
      while k < |files|
        invariant 0 <= k <= |files|
        invariant forall i :: 0 <= i < k ==> files[i].currentOffset == 0
      {
        files[k].currentOffset := 0;
        k := k + 1;
      }
      currentLocation := Location(Head, Stamp(0, 0, 0, 0, 0, 0), false, false, false, false);
    }

    /** Changes the query: every file forgets where it was, the location stays. */
    method SetMatches(m: Option<Match>)
      modifies this`level0, this`currentFile, set i | 0 <= i < |files| :: files[i]`currentOffset
      ensures level0 == m && OffsetsOk() && currentLocation == old(currentLocation)
      ensures forall direction :: BySeqnums(files, level0, currentLocation, direction) ==> InStep(direction)
    {
      hide OneSource, Placed, OpenFile.ExactFile, OpenFile.Wanted;
      level0 := m;
      currentFile := None;
      var k := 0;
      while k < |files|
        invariant 0 <= k <= |files| && level0 == m
        invariant forall i :: 0 <= i < k ==> files[i].currentOffset == 0
      {
        files[k].currentOffset := 0;
        k := k + 1;
      }
    }

    /** The answer of file i. */
    method Ask(i: nat, direction: Direction) returns (answer: Option<nat>)
      requires i < |files| && files[i].Valid()
      requires files[i].currentOffset > 0 ==> files[i].Wanted(level0, files[i].currentOffset)
      modifies files[i].cache
      ensures files[i].Valid() && AnswerExact(files, i, level0, ResumeFrom(i, direction), currentLocation, direction, answer)
    {
      hide OneSource, Placed, OpenFile.Wanted, OpenFile.ExactFile, OpenFile.FirstBeyondLocation, FirstBySeqnum, WellBuilt, CacheOk,
           InStepAt, OpenFile.EntryList;
      WantedListed(files[i], level0, files[i].currentOffset);
      answer := files[i].NextBeyondLocation(level0, currentLocation, direction);
      if BySeqnums(files, level0, currentLocation, direction) {
        ResumeExact(files, i, level0, ResumeFrom(i, direction), currentLocation, direction, answer);
      }
    }

    /** The pick is one of the answers, if there is any. */
    static ghost predicate Picked(answers: seq<Option<nat>>, best: Option<(nat, nat)>) {
      && (best.Some? ==> best.value.0 < |answers| && answers[best.value.0] == Some(best.value.1))
      && (best.None? ==> forall i :: 0 <= i < |answers| ==> answers[i].None?)
    }

    function BestStamp(best: Option<(nat, nat)>): Option<Stamp> {
      if best.Some? && best.value.0 < |files| then StampOf(files[best.value.0], Some(best.value.1)) else None
    }

    lemma {:induction false} NoBest()
      ensures BestStamp(None) == None
    {
    }

    lemma {:induction false} EarliestMore(answers: seq<Option<nat>>, p: Option<nat>, direction: Direction, best: Option<(nat, nat)>)
      requires |answers| < |files| && Picked(answers, best) && Coherent(Stamps(files, answers + [p]))
      requires Coherent(Stamps(files, answers)) ==> Earliest(Stamps(files, answers), direction, BestStamp(best))
      ensures Earliest(Stamps(files, answers + [p]), direction, BestStamp(Better(files, |answers|, direction, best, p)))
    {
      hide CompareEntryOrder, OpenFile.StampAt, Coherent, Earliest;
      StampsMore(files, answers, p);
      var stamps := Stamps(files, answers);
      CoherentLess(stamps, StampOf(files[|answers|], p));
      if best.Some? {
        assert stamps[best.value.0] == BestStamp(best);
      }
      EarliestStep(stamps, StampOf(files[|answers|], p), direction, BestStamp(best));
    }

    /** Asks every file for its next entry and picks the one that comes first. */
    method PickNext(direction: Direction) returns (best: Option<(nat, nat)>, ghost answers: seq<Option<nat>>)
      requires Apart() && FilesValid() && OffsetsOk()
      modifies set i | 0 <= i < |files| :: files[i].cache
      ensures FilesValid()
      ensures |answers| == |files| && Picked(answers, best)
      ensures forall i :: 0 <= i < |files| ==> AnswerExact(files, i, level0, ResumeFrom(i, direction), currentLocation, direction, answers[i])
      ensures InStep(direction) ==> Best(files, |files|, level0, currentLocation, direction, best)
      ensures Coherent(Stamps(files, answers)) ==> Earliest(Stamps(files, answers), direction, BestStamp(best))
    {
      hide Coherent, Earliest, Stamps, BestStamp, Best, OneSource, Placed, OpenFile.Wanted, OpenFile.Passed, OpenFile.ExactFile, OpenFile.FirstBeyondLocation,
           FirstBySeqnum, CompareEntryOrder, OpenFile.EntryList, OpenFile.StampAt, WellBuilt, CacheOk, InStepAt, ResumeFrom;
      ghost var loc := currentLocation;
      best, answers := None, [];
      NothingEarlier(direction);
      NoBest();
      NoStamps(files);
      NoneYet(files, level0, loc, direction);
      var i := 0;
      while i < |files|
        invariant 0 <= i <= |files| && FilesValid()
        invariant |answers| == i && Picked(answers, best)
        invariant forall k :: 0 <= k < i ==> AnswerExact(files, k, level0, ResumeFrom(k, direction), currentLocation, direction, answers[k])
        invariant InStep(direction) ==> Best(files, i, level0, loc, direction, best)
        invariant Coherent(Stamps(files, answers)) ==> Earliest(Stamps(files, answers), direction, BestStamp(best))
      {
        var f := files[i];
        var p := Ask(i, direction);
        if InStep(direction) {
          BestStep(files, i, level0, loc, direction, best, p);
        }
        StampsMore(files, answers, p);
        if Coherent(Stamps(files, answers + [p])) {
          EarliestMore(answers, p, direction, best);
        }
        answers := answers + [p];
        if p.Some? {
          var found;
          if best.None? {
            found := true;
          } else {
            var k := CompareEntryOrder(f.StampAt(p.value), files[best.value.0].StampAt(best.value.1));
            found := if direction == Down then k < 0 else k > 0;
          }
          if found {
            best := Some((i, p.value));
          }
        }
        i := i + 1;
      }
    }

    /** Makes entry e of file k the current one. */
    method SetLocation(k: nat, e: nat, direction: Direction)
      requires Apart() && k < |files| && files[k].Wanted(level0, e) && OffsetsOk()
      modifies this`currentLocation, this`currentFile, files[k]
      ensures OffsetsOk()
      ensures currentFile == Some(k) && currentLocation == LocationOf(files[k].StampAt(e))
      ensures files[k].currentOffset == e && files[k].lastDirection == direction
      ensures old(InStep(direction)) && Best(files, |files|, level0, old(currentLocation), direction, Some((k, e))) ==>
                InStep(direction)
    {
      hide Best, OneSource, Placed, OpenFile.ExactFile, OpenFile.EntryList, OpenFile.StampAt, InStepAt, OpenFile.Wanted;
      var f := files[k];
      WantedListed(f, level0, e);
      ghost var loc := currentLocation;
      currentLocation := LocationOf(f.StampAt(e));
      currentFile := Some(k);
      f.lastDirection := direction;
      f.currentOffset := e;
      assert forall i :: 0 <= i < |files| && i != k ==> files[i] != f;
      if old(InStep(direction)) && Best(files, |files|, level0, loc, direction, Some((k, e))) {
        NewPlace(files, k, e, direction);
        forall i | 0 <= i < |files|
          ensures InStepAt(files[i], ResumeFrom(i, direction), currentLocation, direction)
        {
          var cp := old(ResumeFrom(i, direction));
          StaysInStep(files, level0, loc, direction, (k, e), i, cp);
          assert i != k ==> cp == ResumeFrom(i, direction);
          StartAnywhere(files[i], currentLocation, direction);
        }
      }
    }

    /** One step through all files: the entry that comes next, whichever file it is in. */
    method RealNext(direction: Direction) returns (r: bool, ghost answers: seq<Option<nat>>)
      requires Apart() && FilesValid() && OffsetsOk()
      modifies this`currentLocation, this`currentFile, files, set i | 0 <= i < |files| :: files[i].cache
      ensures FilesValid() && OffsetsOk()
      ensures |answers| == |files|
      ensures forall i :: 0 <= i < |files| ==>
                AnswerExact(files, i, level0, old(ResumeFrom(i, direction)), old(currentLocation), direction, answers[i])
      ensures !r ==> currentLocation == old(currentLocation) && currentFile == old(currentFile)
      ensures Picked(answers, if r && currentFile.Some? && currentFile.value < |files|
                              then Some((currentFile.value, files[currentFile.value].currentOffset)) else None)
      ensures r ==>
        && currentFile.Some? && currentFile.value < |files|
        && files[currentFile.value].Wanted(level0, files[currentFile.value].currentOffset)
        && files[currentFile.value].Passed(old(currentLocation), direction, files[currentFile.value].currentOffset)
        && files[currentFile.value].lastDirection == direction
        && currentLocation == LocationOf(files[currentFile.value].StampAt(files[currentFile.value].currentOffset))
      ensures forall i :: 0 <= i < |files| && !(r && Some(i) == currentFile) ==>
                files[i].currentOffset == old(files[i].currentOffset) && files[i].lastDirection == old(files[i].lastDirection)
      ensures old(InStep(direction)) ==>
        && InStep(direction)
        && Best(files, |files|, level0, old(currentLocation), direction,
                if r then Some((currentFile.value, files[currentFile.value].currentOffset)) else None)
      ensures Coherent(Stamps(files, answers)) ==> Earliest(Stamps(files, answers), direction, if r then Some(currentLocation.stamp) else None)
    {
      hide AnswerExact, Coherent, Earliest, Stamps, Best, OneSource, Placed, OpenFile.Passed, OpenFile.ExactFile,
           OpenFile.EntryList, OpenFile.StampAt, WellBuilt, CacheOk, InStepAt, Satisfied, BySeqnums, FirstBySeqnum;
      var best;
      best, answers := PickNext(direction);
      if best.None? {
        return false, answers;
      }
      PickedEntry(files, best.value.0, level0, ResumeFrom(best.value.0, direction), currentLocation, direction, best.value.1);
      SetLocation(best.value.0, best.value.1, direction);
      r := true;
    }

    /** Reads everything, from the head on: each wanted entry once, copies suppressed, in the order of sequence numbers. */
    method ReadAll() returns (seqnums: seq<nat>)
      requires Apart() && FilesValid() && OneSource(files)
      modifies this`currentLocation, this`currentFile, files, set i | 0 <= i < |files| :: files[i].cache
      ensures Increasing(seqnums)
      ensures forall s :: s in seqnums <==> s in WantedSeqnums(files, level0)
    {
      hide Coherent, Earliest, Stamps, Best, OneSource, OpenFile.Passed, WellBuilt, CacheOk, Satisfied, WantedSeqnums, SeqnumBeyond, OpenFile.Wanted,
           OpenFile.EntryList, InStep, FilesValid, OffsetsOk, AnswerExact, Picked, ReadSoFar, Unread;
      seqnums := [];
      SeekHead();
      ghost var wanted := WantedSeqnums(files, level0);
      NothingRead(currentLocation, wanted);
      while true
        invariant FilesValid() && OffsetsOk() && InStep(Down)
        invariant ReadSoFar(wanted, currentLocation, seqnums)
        decreases |Unread(wanted, currentLocation)|
      {
        ghost var loc := currentLocation;
        var r;
        ghost var answers;
        r, answers := RealNext(Down);
        if !r {
          NoMore(files, level0, loc, seqnums);
          return;
        }
        OneMore(files, level0, loc, seqnums, (currentFile.value, files[currentFile.value].currentOffset));
        seqnums := seqnums + [currentLocation.stamp.seqnum];
      }
    }
  }
}
