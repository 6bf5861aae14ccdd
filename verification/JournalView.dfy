/** What a well-built journal file looks like: the tiling of its arena, its hash
    chains, its per-field lists and its inverted index. The view of a file
    lists, in file order, what the on-disk pointers only imply. */
module JournalView {
  import opened JournalDef
  import opened EntryArrays

  datatype Kind = KData | KField | KEntry | KDataHashTable | KFieldHashTable | KEntryArray | KOther

  function KindOf(o: Object): Kind {
    match o
    case DataObject(_, _, _, _, _, _, _) => KData
    case FieldObject(_, _, _, _) => KField
    case EntryObject(_, _, _, _, _, _, _) => KEntry
    case DataHashTable(_, _) => KDataHashTable
    case FieldHashTable(_, _) => KFieldHashTable
    case EntryArray(_, _, _) => KEntryArray
    case OtherObject(_) => KOther
  }

  predicate Is(objs: Heap, p: nat, kind: Kind) {
    p in objs && KindOf(objs[p]) == kind
  }

  // ---------- the arena ----------

  /** `offs` lists the objects met when walking from the header to the tail object. */
  ghost predicate Tiling(h: Header, objs: Heap, offs: seq<nat>) {
    && |offs| > 0
    && offs[0] == h.headerSize
    && offs[|offs| - 1] == h.tailObjectOffset
    && (forall i :: 0 <= i < |offs| ==> offs[i] in objs)
    && (forall i, j :: 0 <= i && j == i + 1 && j < |offs| ==> offs[j] == offs[i] + Align64(Size(objs[offs[i]])))
  }

  lemma {:induction false} TilingIncreases(h: Header, objs: Heap, offs: seq<nat>, i: nat, j: nat)
    requires Tiling(h, objs, offs) && i < j < |offs|
    ensures offs[i] + Align64(Size(objs[offs[i]])) <= offs[j]
    decreases j
  {
    if i + 1 < j {
      TilingIncreases(h, objs, offs, i, j - 1);
      assert offs[j] == offs[j - 1] + Align64(Size(objs[offs[j - 1]]));
    }
  }

  lemma {:induction false} TilingIncreasing(h: Header, objs: Heap, offs: seq<nat>)
    requires Tiling(h, objs, offs)
    ensures Increasing(offs)
  {
    forall i, j | 0 <= i < j < |offs| ensures offs[i] < offs[j] {
      TilingIncreases(h, objs, offs, i, j);
    }
  }

  /** Objects tile the arena, nothing else is in the file, and the arena covers them. */
  ghost predicate Layout(h: Header, objs: Heap, offs: seq<nat>) {
    && h.headerSize >= 240 && Valid64(h.headerSize)
    && Tiling(h, objs, offs)
    && (forall p :: p in objs ==> p in offs)
    && h.nObjects == |offs|
    && h.tailObjectOffset + Size(objs[h.tailObjectOffset]) <= h.headerSize + h.arenaSize
  }

  lemma {:induction false} TailOffset(h: Header, objs: Heap, offs: seq<nat>)
    requires Layout(h, objs, offs)
    ensures h.tailObjectOffset >= 240 && h.tailObjectOffset in objs
    ensures forall q: nat :: q in objs ==> 240 <= q <= h.tailObjectOffset
  {
    TilingIncreasing(h, objs, offs);
    forall q: nat | q in objs ensures 240 <= q <= h.tailObjectOffset {
      var i :| 0 <= i < |offs| && offs[i] == q;
      assert i > 0 ==> offs[0] < offs[i];
      assert i < |offs| - 1 ==> offs[i] < offs[|offs| - 1];
    }
    assert offs[|offs| - 1] in objs;
  }

  lemma {:induction false} ArenaFacts(h: Header, objs: Heap, offs: seq<nat>)
    requires Layout(h, objs, offs)
    ensures offs != [] && forall q: nat :: q in objs ==> q >= 240
  {
    TailOffset(h, objs, offs);
  }

  /** The offsets of the objects of one kind, in file order. */
  function Select(objs: Heap, offs: seq<nat>, kind: Kind): (s: seq<nat>)
    ensures forall p :: p in s <==> p in offs && Is(objs, p, kind)
    ensures |s| <= |offs|
  {
    if offs == [] then []
    else
      var front := Select(objs, offs[..|offs| - 1], kind);
      var p := offs[|offs| - 1];
      assert offs == offs[..|offs| - 1] + [p];
      if Is(objs, p, kind) then front + [p] else front
  }

  lemma {:induction false} SelectIncreasing(objs: Heap, offs: seq<nat>, kind: Kind)
    requires Increasing(offs)
    ensures Increasing(Select(objs, offs, kind))
  {
    if offs != [] {
      var front := offs[..|offs| - 1];
      SelectIncreasing(objs, front, kind);
      var s := Select(objs, front, kind);
      forall i | 0 <= i < |s| ensures s[i] < offs[|offs| - 1] {
        assert s[i] in front;
      }
    }
  }

  lemma {:induction false} SelectFrame(objs: Heap, objs': Heap, offs: seq<nat>, kind: Kind)
    requires forall p :: p in offs ==> (Is(objs', p, kind) <==> Is(objs, p, kind))
    ensures Select(objs', offs, kind) == Select(objs, offs, kind)
  {
    if offs != [] {
      assert offs[|offs| - 1] in offs;
      SelectFrame(objs, objs', offs[..|offs| - 1], kind);
    }
  }

  // ---------- hash chains ----------

  function HashAt(objs: Heap, p: nat): nat {
    if Is(objs, p, KData) || Is(objs, p, KField) then objs[p].hash else 0
  }

  function NextHashAt(objs: Heap, p: nat): nat {
    if Is(objs, p, KData) || Is(objs, p, KField) then objs[p].nextHash else 0
  }

  function PayloadAt(objs: Heap, p: nat): Payload {
    if Is(objs, p, KData) || Is(objs, p, KField) then objs[p].payload else []
  }

  function BucketOf(hash: nat, n: nat): (b: nat)
    requires n > 0
    ensures b < n
  {
    hash % n
  }

  /** The chain of bucket b of n: strictly increasing, from its head to its tail. */
  ghost predicate BucketChain(objs: Heap, kind: Kind, n: nat, b: nat, item: HashItem, c: seq<nat>)
    requires n > 0
  {
    && Increasing(c)
    && item == (if c == [] then HashItem(0, 0) else HashItem(c[0], c[|c| - 1]))
    && (forall i :: 0 <= i < |c| ==> c[i] != 0 && Is(objs, c[i], kind))
    && (forall i :: 0 <= i < |c| ==> BucketOf(HashAt(objs, c[i]), n) == b)
    && (forall i, j :: 0 <= i && j == i + 1 && j < |c| ==> NextHashAt(objs, c[i]) == c[j])
    && (c != [] ==> NextHashAt(objs, c[|c| - 1]) == 0)
  }

  /** Every object of the kind is on the chain of the bucket its hash selects, and only there. */
  ghost predicate HashChains(objs: Heap, kind: Kind, table: seq<HashItem>, chains: seq<seq<nat>>) {
    && |chains| == |table| > 0
    && (forall b :: 0 <= b < |table| ==> BucketChain(objs, kind, |table|, b, table[b], chains[b]))
    && (forall p :: Is(objs, p, kind) ==> p in chains[BucketOf(HashAt(objs, p), |table|)])
  }

  /** No payload is stored twice. */
  ghost predicate UniquePayloads(H: HashFunction, objs: Heap, kind: Kind) {
    && (forall p :: Is(objs, p, kind) ==> HashAt(objs, p) == H(PayloadAt(objs, p)))
    && (forall p, q :: Is(objs, p, kind) && Is(objs, q, kind) && PayloadAt(objs, p) == PayloadAt(objs, q) ==> p == q)
  }

  ghost predicate HashIndex(H: HashFunction, objs: Heap, kind: Kind, table: seq<HashItem>, chains: seq<seq<nat>>) {
    HashChains(objs, kind, table, chains) && UniquePayloads(H, objs, kind)
  }

  lemma {:induction false} HashIndexFrame(H: HashFunction, objs: Heap, objs': Heap, kind: Kind, table: seq<HashItem>, chains: seq<seq<nat>>)
    requires kind == KData || kind == KField
    requires HashIndex(H, objs, kind, table, chains)
    requires forall p :: Is(objs', p, kind) <==> Is(objs, p, kind)
    requires forall p :: Is(objs, p, kind) ==> HashAt(objs', p) == HashAt(objs, p)
    requires forall p :: Is(objs, p, kind) ==> NextHashAt(objs', p) == NextHashAt(objs, p)
    requires forall p :: Is(objs, p, kind) ==> PayloadAt(objs', p) == PayloadAt(objs, p)
    ensures HashIndex(H, objs', kind, table, chains)
  {
    forall b | 0 <= b < |table| ensures BucketChain(objs', kind, |table|, b, table[b], chains[b]) {
      BucketChainFrame(objs, objs', kind, |table|, b, table[b], chains[b]);
    }
  }

  lemma {:induction false} BucketChainFrame(objs: Heap, objs': Heap, kind: Kind, n: nat, b: nat, item: HashItem, c: seq<nat>)
    requires n > 0 && BucketChain(objs, kind, n, b, item, c)
    requires forall i :: 0 <= i < |c| ==>
               Is(objs', c[i], kind) && NextHashAt(objs', c[i]) == NextHashAt(objs, c[i]) && HashAt(objs', c[i]) == HashAt(objs, c[i])
    ensures BucketChain(objs', kind, n, b, item, c)
  {
  }

  function ItemAppended(item: HashItem, p: nat): HashItem {
    HashItem(if item.tail == 0 then p else item.head, p)
  }

  lemma {:induction false} BucketChainAppend(objs: Heap, objs': Heap, kind: Kind, n: nat, b: nat, item: HashItem, c: seq<nat>, p: nat)
    requires n > 0 && BucketChain(objs, kind, n, b, item, c)
    requires p != 0 && Is(objs', p, kind) && NextHashAt(objs', p) == 0 && BucketOf(HashAt(objs', p), n) == b
    requires forall i :: 0 <= i < |c| ==> c[i] < p && Is(objs', c[i], kind) && HashAt(objs', c[i]) == HashAt(objs, c[i])
    requires forall i :: 0 <= i < |c| ==> NextHashAt(objs', c[i]) == if c[i] == item.tail then p else NextHashAt(objs, c[i])
    ensures BucketChain(objs', kind, n, b, ItemAppended(item, p), c + [p])
  {
    var c' := c + [p];
    forall i, j | 0 <= i && j == i + 1 && j < |c'| ensures NextHashAt(objs', c'[i]) == c'[j] {
      if j < |c| {
        assert c[i] < c[|c| - 1];
      }
    }
  }

  /** Buckets do not share a tail. */
  lemma {:induction false} TailElsewhere(objs: Heap, kind: Kind, n: nat, b: nat, item: HashItem, c: seq<nat>,
                                         b': nat, item': HashItem, c': seq<nat>)
    requires n > 0 && b != b' && BucketChain(objs, kind, n, b, item, c) && BucketChain(objs, kind, n, b', item', c')
    ensures forall i :: 0 <= i < |c'| ==> c'[i] != item.tail
  {
    if c != [] {
      assert BucketOf(HashAt(objs, c[|c| - 1]), n) == b;
    }
  }

  /** Appending a new object at the tail of its bucket keeps the chains. */
  lemma {:induction false} HashChainsAppend(objs: Heap, objs': Heap, kind: Kind, table: seq<HashItem>, chains: seq<seq<nat>>, p: nat, b: nat)
    requires HashChains(objs, kind, table, chains)
    requires b < |table| && b == BucketOf(HashAt(objs', p), |table|)
    requires p != 0 && !Is(objs, p, kind) && (forall q: nat :: Is(objs, q, kind) ==> q < p)
    requires forall q :: Is(objs', q, kind) <==> q == p || Is(objs, q, kind)
    requires NextHashAt(objs', p) == 0
    requires forall q :: Is(objs, q, kind) ==> HashAt(objs', q) == HashAt(objs, q)
    requires forall q: nat :: Is(objs, q, kind) ==>
               NextHashAt(objs', q) == if q == table[b].tail then p else NextHashAt(objs, q)
    ensures HashChains(objs', kind, table[b := ItemAppended(table[b], p)], chains[b := chains[b] + [p]])
  {
    var table' := table[b := ItemAppended(table[b], p)];
    var chains' := chains[b := chains[b] + [p]];
    forall c | 0 <= c < |table| ensures BucketChain(objs', kind, |table|, c, table'[c], chains'[c]) {
      if c == b {
        BucketChainAppend(objs, objs', kind, |table|, b, table[b], chains[b], p);
      } else {
        TailElsewhere(objs, kind, |table|, b, table[b], chains[b], c, table[c], chains[c]);
        BucketChainFrame(objs, objs', kind, |table|, c, table[c], chains[c]);
      }
    }
    forall q | Is(objs', q, kind) ensures q in chains'[BucketOf(HashAt(objs', q), |table|)] {
      if q == p {
        assert (chains[b] + [p])[|chains[b]|] == p;
      }
    }
  }

  // ---------- the per-field lists of data objects ----------

  function IndexOf(s: Payload, c: Byte): (i: nat)
    ensures i <= |s|
    ensures i < |s| ==> s[i] == c
    ensures forall j :: 0 <= j < i ==> s[j] != c
  {
    if s == [] then 0 else if s[0] == c then 0 else 1 + IndexOf(s[1..], c)
  }

  /** The part before the first '=', unless that is missing or at the start. */
  function FieldName(payload: Payload): Option<Payload> {
    var i := IndexOf(payload, EQUALS);
    if 0 < i < |payload| then Some(payload[..i]) else None
  }

  function NextFieldAt(objs: Heap, p: nat): nat {
    if Is(objs, p, KData) then objs[p].nextField else 0
  }

  function HeadDataAt(objs: Heap, p: nat): nat {
    if Is(objs, p, KField) then objs[p].headData else 0
  }

  function LastOr0(s: seq<nat>): nat {
    if s == [] then 0 else s[|s| - 1]
  }

  /** The data objects of one field in the order they were added; on disk they are linked backwards. */
  ghost predicate FieldList(objs: Heap, name: Payload, l: seq<nat>) {
    && Increasing(l)
    && (forall i :: 0 <= i < |l| ==> l[i] != 0 && Is(objs, l[i], KData) && FieldName(PayloadAt(objs, l[i])) == Some(name))
    && (forall i, j :: 0 <= i && j == i + 1 && j < |l| ==> NextFieldAt(objs, l[j]) == l[i])
    && (l != [] ==> NextFieldAt(objs, l[0]) == 0)
  }

  /** Every field object heads the list of its name, and every list has a field object. */
  ghost predicate FieldHeads(objs: Heap, lists: map<Payload, seq<nat>>) {
    && [] !in lists
    && (forall n :: n in lists ==> FieldList(objs, n, lists[n]))
    && (forall p :: Is(objs, p, KField) ==> PayloadAt(objs, p) in lists)
    && (forall p :: Is(objs, p, KField) ==> HeadDataAt(objs, p) == LastOr0(lists[PayloadAt(objs, p)]))
    && (forall n :: n in lists ==> exists p :: Is(objs, p, KField) && PayloadAt(objs, p) == n)
  }

  /** Every data object with a field name, except those in `pending`, is on the list of its field. */
  ghost predicate FieldCover(objs: Heap, lists: map<Payload, seq<nat>>, pending: set<nat>) {
    && (forall d :: Is(objs, d, KData) && d !in pending && FieldName(PayloadAt(objs, d)).Some? ==>
          FieldName(PayloadAt(objs, d)).value in lists && d in lists[FieldName(PayloadAt(objs, d)).value])
    && (forall d :: d in pending ==> Is(objs, d, KData) && forall n :: n in lists ==> d !in lists[n])
    && (forall d :: Is(objs, d, KData) && (d in pending || FieldName(PayloadAt(objs, d)).None?) ==> NextFieldAt(objs, d) == 0)
  }

  ghost predicate FieldLists(objs: Heap, lists: map<Payload, seq<nat>>, pending: set<nat>) {
    FieldHeads(objs, lists) && FieldCover(objs, lists, pending)
  }

  // ---------- entries and their index ----------

  function ItemsAt(objs: Heap, p: nat): seq<EntryItem> {
    if Is(objs, p, KEntry) then objs[p].items else []
  }

  /** How many of the items refer to data object d. */
  function Count(items: seq<EntryItem>, d: nat): (c: nat)
    ensures c <= |items|
    ensures c > 0 <==> exists i :: 0 <= i < |items| && items[i].objectOffset == d
  {
    if items == [] then 0
    else
      var front := items[..|items| - 1];
      assert items == front + [items[|items| - 1]];
      Count(front, d) + if items[|items| - 1].objectOffset == d then 1 else 0
  }

  function Repeat(p: nat, c: nat): (s: seq<nat>)
    ensures |s| == c && forall i :: 0 <= i < c ==> s[i] == p
  {
    seq(c, i => p)
  }

  /** The entries that contain data object d, in order, each as often as it contains it. */
  function Postings(objs: Heap, entries: seq<nat>, d: nat): seq<nat> {
    if entries == [] then []
    else
      var e := entries[|entries| - 1];
      Postings(objs, entries[..|entries| - 1], d) + Repeat(e, Count(ItemsAt(objs, e), d))
  }

  /** No data object was stored without an entry that contains it. */
  ghost predicate AllUsed(objs: Heap, entries: seq<nat>) {
    forall d :: Is(objs, d, KData) ==> Postings(objs, entries, d) != []
  }

  lemma {:induction false} PostingsFrame(objs: Heap, objs': Heap, entries: seq<nat>, d: nat)
    requires forall e :: e in entries ==> ItemsAt(objs', e) == ItemsAt(objs, e)
    ensures Postings(objs', entries, d) == Postings(objs, entries, d)
  {
    if entries != [] {
      assert entries[|entries| - 1] in entries;
      PostingsFrame(objs, objs', entries[..|entries| - 1], d);
    }
  }

  lemma {:induction false} PostingsMembers(objs: Heap, entries: seq<nat>, d: nat)
    ensures forall e :: e in Postings(objs, entries, d) <==> e in entries && Count(ItemsAt(objs, e), d) > 0
  {
    if entries != [] {
      var e := entries[|entries| - 1];
      var front := entries[..|entries| - 1];
      PostingsMembers(objs, front, d);
      assert entries == front + [e];
      var c := Count(ItemsAt(objs, e), d);
      assert forall x :: x in Repeat(e, c) <==> x == e && c > 0 by {
        if c > 0 { assert Repeat(e, c)[0] == e; }
      }
    }
  }

  ghost predicate EntryOk(objs: Heap, p: nat) {
    && Is(objs, p, KEntry)
    && objs[p].slack == 0
    && (forall i :: 0 <= i < |objs[p].items| ==>
          Is(objs, objs[p].items[i].objectOffset, KData) && HashAt(objs, objs[p].items[i].objectOffset) == objs[p].items[i].hash)
  }

  function TableAt(objs: Heap, t: nat): seq<HashItem> {
    if Is(objs, t, KDataHashTable) || Is(objs, t, KFieldHashTable) then objs[t].table else []
  }

  function NEntriesAt(objs: Heap, d: nat): nat { if Is(objs, d, KData) then objs[d].nEntries else 0 }

  function EntryOffsetAt(objs: Heap, d: nat): nat { if Is(objs, d, KData) then objs[d].entryOffset else 0 }

  function EntryArrayAt(objs: Heap, d: nat): nat { if Is(objs, d, KData) then objs[d].entryArrayOffset else 0 }

  function SeqnumAt(objs: Heap, p: nat): nat { if Is(objs, p, KEntry) then objs[p].seqnum else 0 }

  function MonotonicAt(objs: Heap, p: nat): nat { if Is(objs, p, KEntry) then objs[p].monotonic else 0 }

  function RealtimeAt(objs: Heap, p: nat): nat { if Is(objs, p, KEntry) then objs[p].realtime else 0 }

  function BootAt(objs: Heap, p: nat): nat { if Is(objs, p, KEntry) then objs[p].bootId else 0 }

  ghost predicate EntriesOk(h: Header, objs: Heap, entries: seq<nat>) {
    && (forall i :: 0 <= i < |entries| ==> EntryOk(objs, entries[i]))
    && (forall i, j :: 0 <= i < j < |entries| ==> SeqnumAt(objs, entries[i]) < SeqnumAt(objs, entries[j]))
    && (forall i, j :: 0 <= i && j == i + 1 && j < |entries| && BootAt(objs, entries[i]) == BootAt(objs, entries[j]) ==>
          MonotonicAt(objs, entries[i]) <= MonotonicAt(objs, entries[j]))
    && (entries != [] ==>
          && SeqnumAt(objs, entries[0]) > 0
          && h.headEntrySeqnum == SeqnumAt(objs, entries[0])
          && h.tailEntrySeqnum == SeqnumAt(objs, entries[|entries| - 1])
          && (RealtimeAt(objs, entries[0]) > 0 ==> h.headEntryRealtime == RealtimeAt(objs, entries[0]))
          && h.tailEntryRealtime == RealtimeAt(objs, entries[|entries| - 1])
          && h.tailEntryMonotonic == MonotonicAt(objs, entries[|entries| - 1]))
    && (entries == [] ==> h.headEntrySeqnum == 0 && h.headEntryRealtime == 0)
  }

  /** The entries of a boot are consecutive. */
  ghost predicate Consecutive(objs: Heap, entries: seq<nat>) {
    forall i, j, k :: 0 <= i < j < k < |entries| && BootAt(objs, entries[i]) == BootAt(objs, entries[k]) ==>
                        BootAt(objs, entries[j]) == BootAt(objs, entries[i])
  }

  /** Boots follow one another, and those entries that are of this boot come last. */
  ghost predicate BootsInTurn(objs: Heap, entries: seq<nat>, bootId: nat) {
    && Consecutive(objs, entries)
    && forall i, j :: 0 <= i < j < |entries| && BootAt(objs, entries[i]) == bootId ==> BootAt(objs, entries[j]) == bootId
  }

  /** Within consecutive entries of a boot, time goes forward. */
  lemma {:induction false} BootMonotonic(h: Header, objs: Heap, entries: seq<nat>, a: nat, c: nat)
    requires EntriesOk(h, objs, entries) && a <= c < |entries|
    requires forall j :: a <= j <= c ==> BootAt(objs, entries[j]) == BootAt(objs, entries[a])
    ensures MonotonicAt(objs, entries[a]) <= MonotonicAt(objs, entries[c])
    decreases c - a
  {
    if a < c {
      BootMonotonic(h, objs, entries, a, c - 1);
    }
  }

  const MAIN: nat := 0

  /** The list kept by data object `o`: its first item inline, the rest in a chain of arrays. */
  ghost predicate ListHeld(h: Header, objs: Heap, o: nat, chain: seq<nat>, list: seq<nat>) {
    if o == MAIN then
      h.nEntries == |list| && Holds(objs, h.entryArrayOffset, chain, list)
    else
      && Is(objs, o, KData)
      && objs[o].nEntries == |list|
      && objs[o].entryOffset == (if list == [] then 0 else list[0])
      && Holds(objs, objs[o].entryArrayOffset, chain, if list == [] then [] else list[1..])
  }

  /** Every array of the file belongs to a chain. */
  ghost predicate ArraysUsed(objs: Heap, chains: map<nat, seq<nat>>) {
    forall a :: Is(objs, a, KEntryArray) ==> exists o :: o in chains && a in chains[o]
  }

  /** All entry lists of the file, the main one under key MAIN, in pairwise disjoint chains. */
  ghost predicate ListsHeld(h: Header, objs: Heap, lists: map<nat, seq<nat>>, chains: map<nat, seq<nat>>) {
    && MAIN in lists
    && (forall o :: o in lists <==> o == MAIN || Is(objs, o, KData))
    && (forall o :: o in lists <==> o in chains)
    && (forall o :: o in lists ==> ListHeld(h, objs, o, chains[o], lists[o]))
    && (forall o, o', a :: o in chains && o' in chains && a in chains[o] && a in chains[o'] ==> o == o')
    && ArraysUsed(objs, chains)
  }

  // ---------- the whole file ----------

  datatype View = View(
    offs: seq<nat>,
    dataChains: seq<seq<nat>>,
    fieldChains: seq<seq<nat>>,
    fieldLists: map<Payload, seq<nat>>,
    lists: map<nat, seq<nat>>,
    arrays: map<nat, seq<nat>>)

  /** Entry lists and their chains of arrays only ever get longer. */
  ghost predicate Grows(v: View, v': View) {
    && (forall o :: o in v.lists ==> o in v'.lists && v.lists[o] <= v'.lists[o])
    && (forall o :: o in v.arrays ==> o in v'.arrays && v.arrays[o] <= v'.arrays[o])
  }

  lemma {:induction false} GrowsTrans(v: View, v1: View, v2: View)
    requires Grows(v, v1) && Grows(v1, v2)
    ensures Grows(v, v2)
  {
  }

  lemma {:induction false} GrowsStep(v: View, v': View, o: nat, chain': seq<nat>, p: nat)
    requires o in v.lists && v'.lists == v.lists[o := v.lists[o] + [p]]
    requires o in v.arrays && v'.arrays == v.arrays[o := chain'] && v.arrays[o] <= chain'
    ensures Grows(v, v')
  {
  }

  lemma {:induction false} GrowsSame(v: View, v': View)
    requires v'.lists == v.lists && v'.arrays == v.arrays
    ensures Grows(v, v')
  {
  }

  function DataTable(h: Header, objs: Heap): seq<HashItem> {
    if h.dataHashTableOffset >= HASH_TABLE_HEADER && Is(objs, h.dataHashTableOffset - HASH_TABLE_HEADER, KDataHashTable)
    then objs[h.dataHashTableOffset - HASH_TABLE_HEADER].table else []
  }

  function FieldTable(h: Header, objs: Heap): seq<HashItem> {
    if h.fieldHashTableOffset >= HASH_TABLE_HEADER && Is(objs, h.fieldHashTableOffset - HASH_TABLE_HEADER, KFieldHashTable)
    then objs[h.fieldHashTableOffset - HASH_TABLE_HEADER].table else []
  }

  /** The two hash table objects are where the header says, and there are no others. */
  ghost predicate TablesOk(h: Header, objs: Heap, offs: seq<nat>) {
    && h.dataHashTableOffset >= HASH_TABLE_HEADER && h.fieldHashTableOffset >= HASH_TABLE_HEADER
    && Select(objs, offs, KDataHashTable) == [h.dataHashTableOffset - HASH_TABLE_HEADER]
    && Select(objs, offs, KFieldHashTable) == [h.fieldHashTableOffset - HASH_TABLE_HEADER]
    && h.dataHashTableSize == 16 * |DataTable(h, objs)|
    && h.fieldHashTableSize == 16 * |FieldTable(h, objs)|
  }

  ghost predicate NoSlack(objs: Heap) {
    forall p :: p in objs ==>
      match objs[p]
      case EntryObject(_, _, _, _, _, _, slack) => slack == 0
      case DataHashTable(_, slack) => slack == 0
      case FieldHashTable(_, slack) => slack == 0
      case EntryArray(_, _, slack) => slack == 0
      case _ => true
  }

  ghost predicate CountsOk(h: Header, objs: Heap, offs: seq<nat>) {
    && h.nData == |Select(objs, offs, KData)|
    && h.nFields == |Select(objs, offs, KField)|
    && h.nEntryArrays == |Select(objs, offs, KEntryArray)|
    && h.compatibleFlags == 0 && h.reservedIsZero
  }

  function Entries(objs: Heap, v: View): seq<nat> {
    Select(objs, v.offs, KEntry)
  }

  /** The main list is the list of all entries, and every data object lists the entries that contain it. */
  ghost predicate IndexOk(h: Header, objs: Heap, entries: seq<nat>, lists: map<nat, seq<nat>>, arrays: map<nat, seq<nat>>) {
    && ListsHeld(h, objs, lists, arrays)
    && lists[MAIN] == entries
    && (forall d :: Is(objs, d, KData) ==> lists[d] == Postings(objs, entries, d))
  }

  /** The invariant of a file built by the writer, but for its entry lists; the data
      objects in `pending` have not been put on the list of their field yet. */
  ghost predicate Base(H: HashFunction, h: Header, objs: Heap, v: View, pending: set<nat>) {
    && Layout(h, objs, v.offs)
    && TablesOk(h, objs, v.offs)
    && CountsOk(h, objs, v.offs)
    && NoSlack(objs)
    && HashIndex(H, objs, KData, DataTable(h, objs), v.dataChains)
    && HashIndex(H, objs, KField, FieldTable(h, objs), v.fieldChains)
    && FieldLists(objs, v.fieldLists, pending)
    && EntriesOk(h, objs, Entries(objs, v))
  }

  /** The global invariant of a file built by the writer. */
  ghost predicate WellBuilt(H: HashFunction, h: Header, objs: Heap, v: View, pending: set<nat>) {
    && Base(H, h, objs, v, pending)
    && IndexOk(h, objs, Entries(objs, v), v.lists, v.arrays)
  }
}
