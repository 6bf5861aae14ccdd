/** Query evaluation on one file (lib/sd-journal.c): trees of AND and OR terms over
    exact matches, and the search for the next entry that satisfies one. */
module JournalMatch {
  import opened JournalDef
  import opened JournalView
  import opened JournalLinking
  import opened JournalIndex
  import opened JournalBisect
  import opened JournalSeek

  datatype Match = Discrete(data: Payload) | OrTerm(matches: seq<Match>) | AndTerm(matches: seq<Match>)

  /** The formula a tree stands for; a term without members is never satisfied. */
  ghost predicate Satisfied(m: Match, fields: multiset<Payload>) {
    match m
    case Discrete(data) => data in fields
    case OrTerm(ms) => exists i :: 0 <= i < |ms| && Satisfied(ms[i], fields)
    case AndTerm(ms) => ms != [] && forall i :: 0 <= i < |ms| ==> Satisfied(ms[i], fields)
  }

  function Content(objs: Heap, e: nat): multiset<Payload> {
    FieldsOf(objs, ItemsAt(objs, e))
  }

  /** r is an entry that satisfies the tree, and if the search is exact it is the nearest such entry. */
  ghost predicate NextResult(objs: Heap, entries: seq<nat>, m: Match, after: nat, direction: Direction, exact: bool, r: Option<nat>) {
    && (r.Some? ==> r.value in entries && Ahead(direction, after, r.value) && Satisfied(m, Content(objs, r.value)))
    && (exact ==> forall e :: e in entries && Ahead(direction, after, e) && Satisfied(m, Content(objs, e)) ==>
                    r.Some? && Ahead(direction, r.value, e))
  }

  /** Going up from `after` overlooks the last entry of the list of some payload the tree asks for. */
  ghost predicate Overlooked(objs: Heap, v: View, m: Match, after: nat) {
    match m
    case Discrete(x) => exists d :: Is(objs, d, KData) && PayloadAt(objs, d) == x && Overlooks(objs, ChainOf(v, d), ListOf(v, d), after)
    case OrTerm(ms) => exists i :: 0 <= i < |ms| && Overlooked(objs, v, ms[i], after)
    case AndTerm(ms) => exists i :: 0 <= i < |ms| && Overlooked(objs, v, ms[i], after)
  }

  /** Going down is always exact. */
  ghost predicate Exact(objs: Heap, v: View, m: Match, after: nat, direction: Direction) {
    direction == Down || !Overlooked(objs, v, m, after)
  }

  /** The lists of the payloads the tree asks for have a free slot. */
  ghost predicate AllRoomy(objs: Heap, v: View, m: Match) {
    match m
    case Discrete(x) => forall d :: Is(objs, d, KData) && PayloadAt(objs, d) == x ==> Roomy(objs, ChainOf(v, d), ListOf(v, d))
    case OrTerm(ms) => forall i :: 0 <= i < |ms| ==> AllRoomy(objs, v, ms[i])
    case AndTerm(ms) => forall i :: 0 <= i < |ms| ==> AllRoomy(objs, v, ms[i])
  }

  lemma {:induction false} RoomyExact(objs: Heap, v: View, m: Match, after: nat)
    requires AllRoomy(objs, v, m)
    ensures !Overlooked(objs, v, m, after)
    decreases m
  {
    if !m.Discrete? {
      forall i | 0 <= i < |m.matches| ensures !Overlooked(objs, v, m.matches[i], after) {
        RoomyExact(objs, v, m.matches[i], after);
      }
    }
  }

  /** What is not overlooked from `after` is not overlooked from an entry it may lead to. */
  lemma {:induction false} ExactAhead(objs: Heap, v: View, m: Match, after: nat, np: nat, direction: Direction)
    requires Exact(objs, v, m, after, direction) && Ahead(direction, after, np)
    ensures Exact(objs, v, m, np, direction)
    decreases m
  {
    if direction == Up && !m.Discrete? {
      forall i | 0 <= i < |m.matches| ensures !Overlooked(objs, v, m.matches[i], np) {
        ExactAhead(objs, v, m.matches[i], after, np, direction);
      }
    }
  }

  /** An exact search of a term is an exact search of each member. */
  lemma {:induction false} ExactMember(objs: Heap, v: View, m: Match, i: nat, after: nat, np: nat, direction: Direction)
    requires !m.Discrete? && i < |m.matches| && Ahead(direction, after, np)
    ensures Exact(objs, v, m, after, direction) ==> Exact(objs, v, m.matches[i], np, direction)
  {
    if Exact(objs, v, m, after, direction) {
      ExactAhead(objs, v, m.matches[i], after, np, direction);
    }
  }

  lemma {:induction false} LessExact(objs: Heap, entries: seq<nat>, m: Match, after: nat, direction: Direction, exact: bool, exact': bool, r: Option<nat>)
    requires NextResult(objs, entries, m, after, direction, exact, r) && (exact' ==> exact)
    ensures NextResult(objs, entries, m, after, direction, exact', r)
  {
    hide Satisfied, Content;
  }

  /** The list of a data object holds exactly the entries that contain its payload. */
  lemma {:induction false} ListMembers(H: HashFunction, h: Header, objs: Heap, v: View, d: nat)
    requires WellBuilt(H, h, objs, v, {}) && Is(objs, d, KData)
    ensures forall e :: e in ListOf(v, d) <==> e in Entries(objs, v) && PayloadAt(objs, d) in Content(objs, e)
  {
    hide Layout, TablesOk, CountsOk, NoSlack, FieldLists, ListsHeld, HashChains, Select, Postings, Count, FieldsOf;
    var entries := Entries(objs, v);
    ListKeys(h, objs, v.lists, v.arrays);
    PostingsMembers(objs, entries, d);
    forall e | e in entries ensures PayloadAt(objs, d) in Content(objs, e) <==> Count(ItemsAt(objs, e), d) > 0 {
      var i :| 0 <= i < |entries| && entries[i] == e;
      assert EntryOk(objs, entries[i]);
      FieldCount(H, objs, ItemsAt(objs, e), d);
    }
  }

  /** A payload without a data object is in no entry. */
  lemma {:induction false} NotStored(H: HashFunction, h: Header, objs: Heap, v: View, x: Payload)
    requires WellBuilt(H, h, objs, v, {}) && forall d :: Is(objs, d, KData) ==> PayloadAt(objs, d) != x
    ensures forall e :: e in Entries(objs, v) ==> x !in Content(objs, e)
  {
    hide Layout, TablesOk, CountsOk, NoSlack, FieldLists, ListsHeld, HashChains, Select, Postings, Count, FieldsOf;
    var entries := Entries(objs, v);
    forall e | e in entries ensures x !in Content(objs, e) {
      var i :| 0 <= i < |entries| && entries[i] == e;
      assert EntryOk(objs, entries[i]);
      FieldMember(objs, ItemsAt(objs, e), x);
    }
  }

  lemma {:induction false} PayloadOnce(H: HashFunction, h: Header, objs: Heap, v: View, d: nat)
    requires WellBuilt(H, h, objs, v, {}) && Is(objs, d, KData)
    ensures forall d' :: Is(objs, d', KData) && PayloadAt(objs, d') == PayloadAt(objs, d) ==> d' == d
  {
    hide Layout, TablesOk, CountsOk, NoSlack, FieldLists, EntriesOk, IndexOk, HashChains, Select;
  }

  lemma {:induction false} EntriesBounded(H: HashFunction, h: Header, objs: Heap, v: View)
    requires WellBuilt(H, h, objs, v, {})
    ensures forall e :: e in Entries(objs, v) ==> 0 < e <= LastOr0(Entries(objs, v))
  {
    hide TablesOk, CountsOk, NoSlack, FieldLists, HashIndex, EntriesOk, IndexOk, Select, Layout;
    EntriesSorted(H, h, objs, v);
    ArenaFacts(h, objs, v.offs);
  }

  /** The members of the arc from i up to, but not including, `last`, going round. */
  predicate InArc(i: nat, last: nat, k: nat) {
    if i <= last then i <= k < last else k >= i || k < last
  }

  function Next(i: nat, n: nat): nat {
    if i + 1 < n then i + 1 else 0
  }

  /** All members off the arc are satisfied at np, and nothing before np satisfies them all. */
  ghost predicate Leaping(objs: Heap, entries: seq<nat>, ms: seq<Match>, after: nat, direction: Direction, exact: bool, i: nat, last: nat, np: nat) {
    && np in entries && Ahead(direction, after, np)
    && (forall k :: 0 <= k < |ms| && !InArc(i, last, k) ==> Satisfied(ms[k], Content(objs, np)))
    && (exact ==> forall e :: e in entries && Ahead(direction, after, e) && Satisfied(AndTerm(ms), Content(objs, e)) ==> Ahead(direction, np, e))
  }

  lemma {:induction false} LeapStart(objs: Heap, entries: seq<nat>, ms: seq<Match>, after: nat, direction: Direction, exact: bool, np: nat)
    requires ms != [] && NextResult(objs, entries, ms[0], after, direction, exact, Some(np))
    ensures Leaping(objs, entries, ms, after, direction, exact, Next(0, |ms|), 0, np)
  {
    forall e | e in entries && Satisfied(AndTerm(ms), Content(objs, e)) ensures Satisfied(ms[0], Content(objs, e)) {
    }
  }

  /** One member looked for its next entry from np on. */
  lemma {:induction false} LeapStep(objs: Heap, entries: seq<nat>, ms: seq<Match>, after: nat, direction: Direction, exact: bool,
                                    i: nat, last: nat, np: nat, cp: nat)
    requires i < |ms| && last < |ms| && i != last
    requires Leaping(objs, entries, ms, after, direction, exact, i, last, np)
    requires NextResult(objs, entries, ms[i], np, direction, exact, Some(cp))
    ensures Leaping(objs, entries, ms, after, direction, exact, Next(i, |ms|), if cp == np then last else i, cp)
  {
    forall e | e in entries && Satisfied(AndTerm(ms), Content(objs, e)) ensures Satisfied(ms[i], Content(objs, e)) {
    }
    hide Satisfied, Content;
  }

  lemma {:induction false} LeapFails(objs: Heap, entries: seq<nat>, ms: seq<Match>, after: nat, direction: Direction, exact: bool,
                                     i: nat, last: nat, np: nat)
    requires i < |ms| && Leaping(objs, entries, ms, after, direction, exact, i, last, np)
    requires NextResult(objs, entries, ms[i], np, direction, exact, None)
    ensures NextResult(objs, entries, AndTerm(ms), after, direction, exact, None)
  {
    forall e | e in entries && Satisfied(AndTerm(ms), Content(objs, e)) ensures Satisfied(ms[i], Content(objs, e)) {
    }
    hide Satisfied, Content;
  }

  lemma {:induction false} LeapEnd(objs: Heap, entries: seq<nat>, ms: seq<Match>, after: nat, direction: Direction, exact: bool, i: nat, np: nat)
    requires ms != [] && Leaping(objs, entries, ms, after, direction, exact, i, i, np)
    ensures NextResult(objs, entries, AndTerm(ms), after, direction, exact, Some(np))
  {
  }

  /** The nearest of two finds. */
  function Nearer(direction: Direction, np: Option<nat>, cp: Option<nat>): Option<nat> {
    if np.None? then cp
    else if cp.None? then np
    else if direction == Down then (if cp.value < np.value then cp else np)
    else if cp.value > np.value then cp else np
  }

  lemma {:induction false} OrStep(objs: Heap, entries: seq<nat>, ms: seq<Match>, after: nat, direction: Direction, exact: bool,
                                  i: nat, np: Option<nat>, cp: Option<nat>)
    requires i < |ms| && NextResult(objs, entries, OrTerm(ms[..i]), after, direction, exact, np)
    requires NextResult(objs, entries, ms[i], after, direction, exact, cp)
    ensures NextResult(objs, entries, OrTerm(ms[..i + 1]), after, direction, exact, Nearer(direction, np, cp))
  {
    OrGrows(ms, i);
    hide Content;
  }

  lemma {:induction false} OrGrows(ms: seq<Match>, i: nat)
    requires i < |ms|
    ensures forall fields :: Satisfied(OrTerm(ms[..i + 1]), fields) <==> Satisfied(OrTerm(ms[..i]), fields) || Satisfied(ms[i], fields)
  {
    forall fields
      ensures Satisfied(OrTerm(ms[..i + 1]), fields) <==> Satisfied(OrTerm(ms[..i]), fields) || Satisfied(ms[i], fields)
    {
      var front, all := ms[..i], ms[..i + 1];
      assert forall k :: 0 <= k < i ==> front[k] == all[k];
      if Satisfied(OrTerm(front), fields) {
        var k :| 0 <= k < |front| && Satisfied(front[k], fields);
        assert Satisfied(all[k], fields);
      }
      if Satisfied(ms[i], fields) {
        assert Satisfied(all[i], fields);
      }
    }
  }

  /** A search for one payload is right exactly if going up does not overlook the last entry. */
  lemma {:induction false} DiscreteResult(objs: Heap, v: View, entries: seq<nat>, d: nat, after: nat, direction: Direction, r: Option<nat>)
    requires r.Some? ==> r.value in ListOf(v, d) && Ahead(direction, after, r.value)
    requires NoneBetween(direction, ListOf(v, d), after, r) <==> direction == Down || !Overlooks(objs, ChainOf(v, d), ListOf(v, d), after)
    requires Is(objs, d, KData) && forall d' :: Is(objs, d', KData) && PayloadAt(objs, d') == PayloadAt(objs, d) ==> d' == d
    requires forall e :: e in ListOf(v, d) <==> e in entries && PayloadAt(objs, d) in Content(objs, e)
    ensures var m := Discrete(PayloadAt(objs, d));
            && NextResult(objs, entries, m, after, direction, false, r)
            && (NextResult(objs, entries, m, after, direction, true, r) <==> Exact(objs, v, m, after, direction))
  {
    hide Content, Overlooks;
    NoneBetweenNearest(direction, ListOf(v, d), after, r);
  }

  lemma {:induction false} NoneBetweenNearest(direction: Direction, list: seq<nat>, after: nat, r: Option<nat>)
    requires r.Some? ==> r.value in list && Ahead(direction, after, r.value)
    ensures NoneBetween(direction, list, after, r) <==>
            forall e :: e in list && Ahead(direction, after, e) ==> r.Some? && Ahead(direction, r.value, e)
  {
  }

  /** The next entry, from offset `after` on, that satisfies the tree. */
  method NextForMatch(cache: ChainCache, H: HashFunction, h: Header, objs: Heap, m: Match, after: nat, direction: Direction, ghost v: View)
    returns (r: Option<nat>)
    requires cache.Valid() && CacheOk(h, objs, v, cache.items) && WellBuilt(H, h, objs, v, {})
    modifies cache
    ensures cache.Valid() && CacheOk(h, objs, v, cache.items)
    ensures NextResult(objs, Entries(objs, v), m, after, direction, Exact(objs, v, m, after, direction), r)
    ensures m.Discrete? ==> (NextResult(objs, Entries(objs, v), m, after, direction, true, r) <==> Exact(objs, v, m, after, direction))
    decreases m
  {
    hide CacheOk, WellBuilt, Satisfied, Select, NextResult, PlusOneResult, Roomy, Readable, Leaping, Overlooked, Content;
    ghost var entries := Entries(objs, v);
    ghost var exact := Exact(objs, v, m, after, direction);
    match m {
      case Discrete(data) =>
        var dp := FindDataObject(H, h, objs, data, v);
        if dp.None? {
          NotStored(H, h, objs, v, data);
          NothingFound(objs, v, entries, data, after, direction);
          return None;
        }
        WellBuiltReadable(H, h, objs, v);
        ListMembers(H, h, objs, v, dp.value);
        r := MoveToEntryByOffsetForData(cache, h, objs, dp.value, after, direction, v);
        PayloadOnce(H, h, objs, v, dp.value);
        DiscreteResult(objs, v, entries, dp.value, after, direction, r);
      case OrTerm(ms) =>
        r := None;
        var i := 0;
        EmptyOr(objs, entries, after, direction, exact);
        assert ms[..0] == [];
        while i < |ms|
          invariant 0 <= i <= |ms|
          invariant cache.Valid() && CacheOk(h, objs, v, cache.items)
          invariant NextResult(objs, entries, OrTerm(ms[..i]), after, direction, exact, r)
        {
          var cp := NextForMatch(cache, H, h, objs, ms[i], after, direction, v);
          ExactMember(objs, v, m, i, after, after, direction);
          LessExact(objs, entries, ms[i], after, direction, Exact(objs, v, ms[i], after, direction), exact, cp);
          OrStep(objs, entries, ms, after, direction, exact, i, r, cp);
          if cp.Some? {
            if r.None? || if direction == Down then cp.value < r.value else cp.value > r.value {
              r := cp;
            }
          }
          i := i + 1;
        }
        assert ms[..|ms|] == ms;
      case AndTerm(ms) =>
        if ms == [] {
          EmptyAnd(objs, entries, after, direction, exact);
          return None;
        }
        r := NextForMatch(cache, H, h, objs, ms[0], after, direction, v);
        ExactMember(objs, v, m, 0, after, after, direction);
        LessExact(objs, entries, ms[0], after, direction, Exact(objs, v, ms[0], after, direction), exact, r);
        if r.None? {
          FirstFails(objs, entries, ms, after, direction, exact);
          return;
        }
        var np := r.value;
        LeapStart(objs, entries, ms, after, direction, exact, np);
        EntriesBounded(H, h, objs, v);
        LeapMember(objs, entries, ms, after, direction, exact, Next(0, |ms|), 0, np);
        var last := 0;
        var i := Next(0, |ms|);
        while i != last
          invariant 0 <= i < |ms| && 0 <= last < |ms|
          invariant cache.Valid() && CacheOk(h, objs, v, cache.items)
          invariant Leaping(objs, entries, ms, after, direction, exact, i, last, np) && np in entries
          decreases if direction == Down then LastOr0(entries) - np else np, if i <= last then last - i else last + |ms| - i
        {
          var c := NextForMatch(cache, H, h, objs, ms[i], np, direction, v);
          LeapMember(objs, entries, ms, after, direction, exact, i, last, np);
          ExactMember(objs, v, m, i, after, np, direction);
          LessExact(objs, entries, ms[i], np, direction, Exact(objs, v, ms[i], np, direction), exact, c);
          if c.None? {
            LeapFails(objs, entries, ms, after, direction, exact, i, last, np);
            return None;
          }
          var cp := c.value;
          ResultAhead(objs, entries, ms[i], np, direction, exact, cp);
          LeapStep(objs, entries, ms, after, direction, exact, i, last, np, cp);
          if cp != np {
            np := cp;
            last := i;
          }
          i := Next(i, |ms|);
        }
        LeapEnd(objs, entries, ms, after, direction, exact, i, np);
        r := Some(np);
    }
  }

  lemma {:induction false} ResultAhead(objs: Heap, entries: seq<nat>, m: Match, after: nat, direction: Direction, exact: bool, cp: nat)
    requires NextResult(objs, entries, m, after, direction, exact, Some(cp))
    ensures cp in entries && Ahead(direction, after, cp)
  {
    hide Satisfied;
  }

  lemma {:induction false} LeapMember(objs: Heap, entries: seq<nat>, ms: seq<Match>, after: nat, direction: Direction, exact: bool, i: nat, last: nat, np: nat)
    requires Leaping(objs, entries, ms, after, direction, exact, i, last, np)
    ensures np in entries && Ahead(direction, after, np)
  {
    hide Satisfied;
  }

  lemma {:induction false} NothingFound(objs: Heap, v: View, entries: seq<nat>, x: Payload, after: nat, direction: Direction)
    requires forall e :: e in entries ==> x !in Content(objs, e)
    requires forall d :: Is(objs, d, KData) ==> PayloadAt(objs, d) != x
    ensures NextResult(objs, entries, Discrete(x), after, direction, true, None) && Exact(objs, v, Discrete(x), after, direction)
  {
  }

  lemma {:induction false} EmptyOr(objs: Heap, entries: seq<nat>, after: nat, direction: Direction, exact: bool)
    ensures NextResult(objs, entries, OrTerm([]), after, direction, exact, None)
  {
  }

  lemma {:induction false} EmptyAnd(objs: Heap, entries: seq<nat>, after: nat, direction: Direction, exact: bool)
    ensures NextResult(objs, entries, AndTerm([]), after, direction, exact, None)
  {
  }

  lemma {:induction false} FirstFails(objs: Heap, entries: seq<nat>, ms: seq<Match>, after: nat, direction: Direction, exact: bool)
    requires ms != [] && NextResult(objs, entries, ms[0], after, direction, exact, None)
    ensures NextResult(objs, entries, AndTerm(ms), after, direction, exact, None)
  {
    forall e | e in entries && Satisfied(AndTerm(ms), Content(objs, e)) ensures Satisfied(ms[0], Content(objs, e)) {
    }
  }
}
