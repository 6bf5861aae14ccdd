/** How much room appending an entry takes, and when a file has it (lib/journal-file.c). */
module JournalRoom {
  import opened JournalDef
  import opened Pages
  import opened JournalView
  import opened JournalLinking
  import opened JournalIndex

  /** Limits of a file; 0 stands for none. */
  datatype Metrics = Metrics(maxSize: nat, minSize: nat, keepFree: nat)

  /** Where the next object goes. */
  function EndOf(h: Header, objs: Heap): nat {
    if h.tailObjectOffset == 0 then h.headerSize
    else if h.tailObjectOffset in objs then h.tailObjectOffset + Align64(Size(objs[h.tailObjectOffset]))
    else 0
  }

  /** The size of a file that reaches to `end`. */
  function SizeTo(h: Header, end: nat): nat {
    if PageAlign(end) < h.headerSize then h.headerSize else PageAlign(end)
  }

  /** The arena reaches this far, or may grow that far: up to the maximum size, and if space must be kept free, up to the
      minimum size for certain. */
  predicate Fits(m: Metrics, h: Header, end: nat) {
    || SizeTo(h, end) <= h.headerSize + h.arenaSize
    || ((m.maxSize == 0 || SizeTo(h, end) <= m.maxSize) && (m.keepFree == 0 || SizeTo(h, end) <= m.minSize))
  }

  lemma {:induction false} FitsLess(m: Metrics, h: Header, h': Header, end: nat, end': nat)
    requires Fits(m, h, end) && end' <= end && h'.headerSize == h.headerSize && h'.arenaSize >= h.arenaSize
    ensures Fits(m, h', end')
  {
    assert PageAlign(end') <= PageAlign(end);
  }

  /** At most this much was appended. */
  ghost predicate Spent(h: Header, objs: Heap, h': Header, objs': Heap, cost: nat) {
    h'.headerSize == h.headerSize && h'.arenaSize >= h.arenaSize && EndOf(h', objs') <= EndOf(h, objs) + cost
  }

  /** There is no certainty of room for this much. */
  ghost predicate Refused(m: Metrics, h: Header, objs: Heap, cost: nat) {
    !Fits(m, h, EndOf(h, objs) + cost)
  }

  lemma {:induction false} SpentTrans(h: Header, objs: Heap, h1: Header, objs1: Heap, h2: Header, objs2: Heap, cost1: nat, cost2: nat, cost: nat)
    requires Spent(h, objs, h1, objs1, cost1) && Spent(h1, objs1, h2, objs2, cost2) && cost1 + cost2 <= cost
    ensures Spent(h, objs, h2, objs2, cost)
  {
  }

  lemma {:induction false} RefusedLater(m: Metrics, h: Header, objs: Heap, h1: Header, objs1: Heap, cost1: nat, cost2: nat, cost: nat)
    requires Spent(h, objs, h1, objs1, cost1) && Refused(m, h1, objs1, cost2) && cost1 + cost2 <= cost
    ensures Refused(m, h, objs, cost)
  {
    if Fits(m, h, EndOf(h, objs) + cost) {
      FitsLess(m, h, h1, EndOf(h, objs) + cost, EndOf(h1, objs1) + cost2);
    }
  }

  lemma {:induction false} RefusedMore(m: Metrics, h: Header, objs: Heap, cost: nat, cost': nat)
    requires Refused(m, h, objs, cost) && cost <= cost'
    ensures Refused(m, h, objs, cost')
  {
    if Fits(m, h, EndOf(h, objs) + cost') {
      FitsLess(m, h, h, EndOf(h, objs) + cost', EndOf(h, objs) + cost);
    }
  }

  lemma {:induction false} SpentMore(h: Header, objs: Heap, h': Header, objs': Heap, cost: nat, cost': nat)
    requires Spent(h, objs, h', objs', cost) && cost <= cost'
    ensures Spent(h, objs, h', objs', cost')
  {
  }

  lemma {:induction false} SpentNone(h: Header, objs: Heap, cost: nat)
    ensures Spent(h, objs, h, objs, cost)
  {
  }

  lemma {:induction false} NothingSpent(h: Header, objs: Heap, h': Header, objs': Heap)
    requires objs'.Keys == objs.Keys && forall q :: q in objs ==> Size(objs'[q]) == Size(objs[q])
    requires h'.tailObjectOffset == h.tailObjectOffset && h'.headerSize == h.headerSize && h'.arenaSize == h.arenaSize
    ensures Spent(h, objs, h', objs', 0)
  {
  }

  // ---------- what an entry takes ----------

  /** The array that is appended to a list of n items in arrays. */
  function ArrayNeed(n: nat): nat {
    Align64(24 + 8 * if n < 1 then 4 else 2 * (n + 1))
  }

  /** The same for the list of a data object, whose first item is inline. */
  function ListNeed(n: nat): nat {
    if n == 0 then 0 else ArrayNeed(n - 1)
  }

  /** A payload that is not stored yet, and its field. */
  function DataNeed(x: Payload): nat {
    Align64(64 + |x|) + match FieldName(x) case Some(name) => Align64(40 + |name|) case None => 0
  }

  function DataNeeds(fields: seq<Payload>): nat {
    if fields == [] then 0 else DataNeeds(fields[..|fields| - 1]) + DataNeed(fields[|fields| - 1])
  }

  /** How often the payload occurs in the entries. */
  function Occurrences(log: seq<LogEntry>, x: Payload): nat {
    if log == [] then 0 else Occurrences(log[..|log| - 1], x) + log[|log| - 1].fields[x]
  }

  /** The lists of the payloads, each with up to `more` further items. */
  function ListNeeds(log: seq<LogEntry>, fields: seq<Payload>, more: nat): nat {
    if fields == [] then 0
    else ListNeeds(log, fields[..|fields| - 1], more) + ListNeed(Occurrences(log, fields[|fields| - 1]) + more)
  }

  /** All that an entry with these fields takes at most. */
  function EntryNeed(log: seq<LogEntry>, fields: seq<Payload>): nat {
    DataNeeds(fields) + Align64(64 + 16 * |fields|) + ArrayNeed(|log|) + ListNeeds(log, fields, |fields|)
  }

  lemma {:induction false} ArrayNeedGrows(n: nat, n': nat)
    requires n <= n'
    ensures ArrayNeed(n) <= ArrayNeed(n') && ListNeed(n) <= ListNeed(n')
  {
  }
}
