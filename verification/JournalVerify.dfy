/** The offline checker (src/journalctl/journal-verify.c): it accepts exactly the consistent files. */
module JournalVerify {
  import opened JournalDef
  import opened EntryArrays
  import opened JournalView
  import opened JournalVerifySpec
  import opened JournalVerifyChains
  import opened JournalVerifyScan

  /** Endless stands for a run that follows a cyclic hash chain forever. */
  datatype Verdict = Good | Corrupt | Endless

  /** Bisection in one of the collected lists of offsets. */
  method ContainsUint64(s: seq<nat>, p: nat) returns (found: bool)
    requires Increasing(s)
    ensures found <==> p in s
  {
    var a, b := 0, |s|;
    while a < b
      invariant 0 <= a <= b <= |s|
      invariant p in s ==> exists k :: a <= k < b && s[k] == p
    {
      var c := (a + b) / 2;
      if s[c] == p {
        return true;
      }
      if a + 1 >= b {
        return false;
      }
      if p < s[c] {
        b := c;
      } else {
        a := c;
      }
    }
    found := false;
  }

  // ---------- entries and their items ----------

  /** Looks for q on the chain of a hash, which may not have been checked yet. */
  method DataObjectInHashTable(objs: Heap, table: seq<HashItem>, hash: nat, q: nat) returns (r: Verdict)
    requires |table| > 0 && q != 0
    ensures r == Good <==> Reaches(objs, table[BucketOf(hash, |table|)].head, q)
    ensures r == Endless <==> Circles(objs, table[BucketOf(hash, |table|)].head) && !Reaches(objs, table[BucketOf(hash, |table|)].head, q)
  {
    hide BucketOf, Reaches, Circles;
    var head := table[BucketOf(hash, |table|)].head;
    var p := head;
    ghost var w: seq<nat> := [];
    var visited: set<nat> := {};
    while p != 0
      invariant Walked(objs, head, w, p) && q !in w
      invariant forall i, j :: 0 <= i < j < |w| ==> w[i] != w[j]
      invariant forall x :: x in w <==> x in visited
      invariant visited <= objs.Keys
      decreases objs.Keys - visited
    {
      if p == q {
        ReachedByWalk(objs, head, w, q);
        return Good;
      }
      if p in visited {
        NotReached(objs, head, w, p, q);
        assert Circles(objs, head) by {
          ComesBack(objs, head, w, p);
        }
        return Endless;
      }
      if !Is(objs, p, KData) {
        NotReached(objs, head, w, p, q);
        EndsApart(objs, head, w, p);
        return Corrupt;
      }
      WalkedMore(objs, head, w, p);
      w := w + [p];
      visited := visited + {p};
      p := objs[p].nextHash;
    }
    NotReached(objs, head, w, p, q);
    EndsApart(objs, head, w, p);
    r := Corrupt;
  }

  lemma {:induction false} ComesBack(objs: Heap, head: nat, w: seq<nat>, cur: nat)
    requires Walked(objs, head, w, cur) && cur in w
    ensures Circles(objs, head)
  {
  }

  lemma {:induction false} WalkedMore(objs: Heap, head: nat, w: seq<nat>, p: nat)
    requires Walked(objs, head, w, p) && p != 0 && Is(objs, p, KData)
    ensures Walked(objs, head, w + [p], NextHashAt(objs, p))
  {
  }

  ghost predicate ItemFound(objs: Heap, data: seq<nat>, table: seq<HashItem>, item: EntryItem)
    requires |table| > 0
  {
    && item.objectOffset in data
    && HashAt(objs, item.objectOffset) == item.hash
    && Reaches(objs, table[BucketOf(item.hash, |table|)].head, item.objectOffset)
  }

  /** The search for the item's data object never ends. */
  ghost predicate ItemHangs(objs: Heap, data: seq<nat>, table: seq<HashItem>, item: EntryItem)
    requires |table| > 0
  {
    && item.objectOffset in data
    && HashAt(objs, item.objectOffset) == item.hash
    && Circles(objs, table[BucketOf(item.hash, |table|)].head)
    && !Reaches(objs, table[BucketOf(item.hash, |table|)].head, item.objectOffset)
  }

  /** The check of the entry gets to an item for which the search never ends. */
  ghost predicate EntryHangs(objs: Heap, data: seq<nat>, table: seq<HashItem>, e: nat)
    requires |table| > 0
  {
    exists i :: 0 <= i < |ItemsAt(objs, e)| && ItemHangs(objs, data, table, ItemsAt(objs, e)[i])
                && forall j :: 0 <= j < i ==> ItemFound(objs, data, table, ItemsAt(objs, e)[j])
  }

  /** Every item of the entry names a data object that is in the hash table. */
  method VerifyEntry(objs: Heap, data: seq<nat>, table: seq<HashItem>, p: nat) returns (r: Verdict)
    requires |table| > 0 && Increasing(data) && Is(objs, p, KEntry)
    requires forall d :: d in data ==> d != 0 && Is(objs, d, KData)
    ensures r == Good <==> EntryFound(objs, data, table, p)
    ensures r == Endless <==> EntryHangs(objs, data, table, p)
  {
    hide Reaches, Circles, BucketOf;
    var items := objs[p].items;
    assert items == ItemsAt(objs, p);
    var i := 0;
    while i < |items|
      invariant 0 <= i <= |items|
      invariant forall j :: 0 <= j < i ==> ItemFound(objs, data, table, items[j])
    {
      var q, h := items[i].objectOffset, items[i].hash;
      var known := ContainsUint64(data, q);
      if !known {
        assert !ItemFound(objs, data, table, items[i]);
        return Corrupt;
      }
      assert HashAt(objs, q) == objs[q].hash;
      if objs[q].hash != h {
        assert !ItemFound(objs, data, table, items[i]);
        return Corrupt;
      }
      r := DataObjectInHashTable(objs, table, h, q);
      if r != Good {
        return;
      }
      i := i + 1;
    }
    r := Good;
  }

  // ---------- the main entry array ----------

  ghost predicate EntryFound(objs: Heap, data: seq<nat>, table: seq<HashItem>, e: nat)
    requires |table| > 0
  {
    forall i :: 0 <= i < |ItemsAt(objs, e)| ==> ItemFound(objs, data, table, ItemsAt(objs, e)[i])
  }

  /** These entries are in order, exist, and have all their items in the hash table. */
  ghost predicate MainItems(objs: Heap, data: seq<nat>, table: seq<HashItem>, entries: seq<nat>, l: seq<nat>)
    requires |table| > 0
  {
    Increasing(l) && forall i :: 0 <= i < |l| ==> l[i] in entries && EntryFound(objs, data, table, l[i])
  }

  ghost predicate MainGood(h: Header, objs: Heap, data: seq<nat>, table: seq<HashItem>, entries: seq<nat>, arrays: seq<nat>)
    requires |table| > 0
  {
    var main := Collect(objs, arrays, h.entryArrayOffset, |entries|);
    main.Some? && MainItems(objs, data, table, entries, main.value)
  }

  /** What stays true while the list of items in a chain is walked: `l` is done, `rest` is to come. */
  ghost predicate Partway(total: Option<seq<nat>>, l: seq<nat>, rest: Option<seq<nat>>) {
    total == Prefixed(l, rest)
  }

  lemma {:induction false} PartwayStart(total: Option<seq<nat>>)
    ensures Partway(total, [], total) && Increasing([])
  {
    if total.Some? {
      assert [] + total.value == total.value;
    }
  }

  lemma {:induction false} PartwayArray(objs: Heap, arrays: seq<nat>, total: Option<seq<nat>>, l: seq<nat>, a: nat, n: nat)
    requires n > 0 && Partway(total, l, Collect(objs, arrays, a, n))
    ensures !ArrayOk(objs, arrays, a) ==> total.None?
    ensures ArrayOk(objs, arrays, a) ==>
              var u := Min(n, |objs[a].slots|);
              Partway(total, l + objs[a].slots[..u], Collect(objs, arrays, objs[a].next, n - u))
  {
    if ArrayOk(objs, arrays, a) {
      var u := Min(n, |objs[a].slots|);
      var rest := Collect(objs, arrays, objs[a].next, n - u);
      if rest.Some? {
        assert l + (objs[a].slots[..u] + rest.value) == l + objs[a].slots[..u] + rest.value;
      }
    }
  }

  /** What the check says of item p of the main list, after the items l. */
  ghost function NextVerdict(objs: Heap, data: seq<nat>, table: seq<HashItem>, entries: seq<nat>, l: seq<nat>, p: nat): Verdict
    requires |table| > 0
  {
    if p <= LastOr0(l) || p !in entries then Corrupt
    else if EntryFound(objs, data, table, p) then Good
    else if EntryHangs(objs, data, table, p) then Endless
    else Corrupt
  }

  /** The check stops at the last of the items `main`, all others being good. */
  ghost predicate StopsAt(objs: Heap, data: seq<nat>, table: seq<HashItem>, entries: seq<nat>, main: Option<seq<nat>>, k: nat, r: Verdict)
    requires |table| > 0
  {
    && main.Some? && |main.value| == k + 1 && MainItems(objs, data, table, entries, main.value[..k])
    && r != Good && NextVerdict(objs, data, table, entries, main.value[..k], main.value[k]) == r
  }

  /** The first k + 1 items stored in the chain. */
  ghost function ItemsTo(objs: Heap, arrays: seq<nat>, first: nat, k: nat): Option<seq<nat>> {
    Collect(objs, arrays, first, k + 1)
  }

  /** Walking the main list the check gets to an entry it never gets done with. */
  ghost predicate MainHangs(h: Header, objs: Heap, data: seq<nat>, table: seq<HashItem>, entries: seq<nat>, arrays: seq<nat>)
    requires |table| > 0
  {
    exists k :: 0 <= k < |entries| && StopsAt(objs, data, table, entries, ItemsTo(objs, arrays, h.entryArrayOffset, k), k, Endless)
  }

  lemma {:induction false} GoodBefore(objs: Heap, data: seq<nat>, table: seq<HashItem>, entries: seq<nat>, l: seq<nat>, k: nat)
    requires |table| > 0 && MainItems(objs, data, table, entries, l) && k < |l| && forall e :: e in entries ==> e != 0
    ensures NextVerdict(objs, data, table, entries, l[..k], l[k]) == Good
  {
    hide EntryFound, EntryHangs;
  }

  lemma {:induction false} GoodNext(objs: Heap, data: seq<nat>, table: seq<HashItem>, entries: seq<nat>, l: seq<nat>, p: nat)
    requires |table| > 0 && MainItems(objs, data, table, entries, l) && NextVerdict(objs, data, table, entries, l, p) == Good
    ensures MainItems(objs, data, table, entries, l + [p])
  {
    hide EntryFound, EntryHangs;
    IncreasingMore(l, p);
  }

  /** The first |l| items of the chain from `first` are l, and the further ones, up to n, are those of the chain from a. */
  ghost predicate WalkedTo(objs: Heap, arrays: seq<nat>, first: nat, n: nat, l: seq<nat>, a: nat) {
    && |l| <= n
    && (forall m :: 0 <= m <= |l| ==> Collect(objs, arrays, first, m) == Some(l[..m]))
    && (forall m :: |l| <= m <= n ==> Partway(Collect(objs, arrays, first, m), l, Collect(objs, arrays, a, m - |l|)))
  }

  lemma {:induction false} WalkStarts(objs: Heap, arrays: seq<nat>, first: nat, n: nat)
    ensures WalkedTo(objs, arrays, first, n, [], first)
  {
    forall m | 0 <= m <= n ensures Partway(Collect(objs, arrays, first, m), [], Collect(objs, arrays, first, m)) {
      PartwayStart(Collect(objs, arrays, first, m));
    }
    CollectNone(objs, arrays, first);
  }

  lemma {:induction false} WalkBreaks(objs: Heap, arrays: seq<nat>, first: nat, n: nat, l: seq<nat>, a: nat)
    requires WalkedTo(objs, arrays, first, n, l, a) && !ArrayOk(objs, arrays, a)
    ensures forall m :: |l| < m <= n ==> Collect(objs, arrays, first, m).None?
  {
    hide Collect;
    forall m | |l| < m <= n ensures Collect(objs, arrays, first, m).None? {
      PartwayArray(objs, arrays, Collect(objs, arrays, first, m), l, a, m - |l|);
    }
  }

  /** Within array a. */
  lemma {:induction false} WalkItem(objs: Heap, arrays: seq<nat>, first: nat, n: nat, l: seq<nat>, a: nat, m: nat)
    requires WalkedTo(objs, arrays, first, n, l, a) && ArrayOk(objs, arrays, a) && |l| <= m <= n
    ensures m - |l| <= |objs[a].slots| ==> Collect(objs, arrays, first, m) == Some(l + objs[a].slots[..m - |l|])
    ensures Collect(objs, arrays, first, m).Some? ==>
              l + objs[a].slots[..Min(m - |l|, |objs[a].slots|)] <= Collect(objs, arrays, first, m).value
  {
    if m > |l| {
      PartwayArray(objs, arrays, Collect(objs, arrays, first, m), l, a, m - |l|);
      if m - |l| <= |objs[a].slots| {
        CollectNone(objs, arrays, objs[a].next);
        hide Collect;
        PartwayEnd(Collect(objs, arrays, first, m), l + objs[a].slots[..m - |l|]);
      }
    } else {
      assert l + objs[a].slots[..0] == l && l[..|l|] == l;
    }
  }

  lemma {:induction false} WalkOn(objs: Heap, arrays: seq<nat>, first: nat, n: nat, l: seq<nat>, a: nat)
    requires WalkedTo(objs, arrays, first, n, l, a) && ArrayOk(objs, arrays, a) && |l| < n
    ensures var u := Min(n - |l|, |objs[a].slots|); WalkedTo(objs, arrays, first, n, l + objs[a].slots[..u], objs[a].next)
  {
    hide Collect, Partway;
    var u := Min(n - |l|, |objs[a].slots|);
    var l' := l + objs[a].slots[..u];
    forall m | 0 <= m <= |l'| ensures Collect(objs, arrays, first, m) == Some(l'[..m]) {
      if m > |l| {
        WalkItem(objs, arrays, first, n, l, a, m);
        assert l'[..m] == l + objs[a].slots[..m - |l|];
      } else {
        assert l'[..m] == l[..m];
      }
    }
    forall m | |l'| <= m <= n ensures Partway(Collect(objs, arrays, first, m), l', Collect(objs, arrays, objs[a].next, m - |l'|)) {
      PartwayArray(objs, arrays, Collect(objs, arrays, first, m), l, a, m - |l|);
    }
  }

  /** Where the check stops decides its verdict. */
  lemma {:induction false} OnlyStop(h: Header, objs: Heap, data: seq<nat>, table: seq<HashItem>, entries: seq<nat>, arrays: seq<nat>,
                                    l: seq<nat>, a: nat, j: nat)
    requires |table| > 0 && (forall e :: e in entries ==> e != 0) && h.nEntries == |entries|
    requires WalkedTo(objs, arrays, h.entryArrayOffset, |entries|, l, a) && ArrayOk(objs, arrays, a)
    requires j < |objs[a].slots| && |l| + j < |entries|
    requires MainItems(objs, data, table, entries, l + objs[a].slots[..j])
    requires NextVerdict(objs, data, table, entries, l + objs[a].slots[..j], objs[a].slots[j]) != Good
    ensures !MainGood(h, objs, data, table, entries, arrays)
    ensures MainHangs(h, objs, data, table, entries, arrays) <==>
            NextVerdict(objs, data, table, entries, l + objs[a].slots[..j], objs[a].slots[j]) == Endless
  {
    hide Collect, MainItems, NextVerdict, Partway;
    var first, n, slots := h.entryArrayOffset, |entries|, objs[a].slots;
    var k0, l0 := |l| + j, l + slots[..j];
    var r := NextVerdict(objs, data, table, entries, l0, slots[j]);
    forall k | k0 <= k < n && ItemsTo(objs, arrays, first, k).Some?
      ensures l0 + [slots[j]] <= ItemsTo(objs, arrays, first, k).value
    {
      WalkItem(objs, arrays, first, n, l, a, k + 1);
      assert l0 + [slots[j]] <= l + slots[..Min(k + 1 - |l|, |slots|)];
    }
    WalkItem(objs, arrays, first, n, l, a, k0 + 1);
    assert slots[..j + 1] == slots[..j] + [slots[j]];
    assert l + slots[..j + 1] == l0 + [slots[j]];
    assert Collect(objs, arrays, first, k0 + 1) == Some(l0 + [slots[j]]);
    assert (l0 + [slots[j]])[..k0] == l0;
    assert StopsAt(objs, data, table, entries, ItemsTo(objs, arrays, first, k0), k0, r);
    forall k, r' | 0 <= k < n && StopsAt(objs, data, table, entries, ItemsTo(objs, arrays, first, k), k, r') ensures k == k0 && r' == r {
      var main := ItemsTo(objs, arrays, first, k).value;
      if k > k0 {
        assert main[..k][..k0] == l0;
        GoodBefore(objs, data, table, entries, main[..k], k0);
      } else if k < k0 {
        EarlierItem(objs, arrays, first, n, l, a, j, k);
        GoodBefore(objs, data, table, entries, l0, k);
      }
    }
    assert Collect(objs, arrays, first, n) == ItemsTo(objs, arrays, first, n - 1);
    NotGood(h, objs, data, table, entries, arrays, l0, slots[j]);
  }

  lemma {:induction false} EarlierItem(objs: Heap, arrays: seq<nat>, first: nat, n: nat, l: seq<nat>, a: nat, j: nat, k: nat)
    requires WalkedTo(objs, arrays, first, n, l, a) && ArrayOk(objs, arrays, a) && j < |objs[a].slots| && k < |l| + j < n
    ensures var l0 := l + objs[a].slots[..j]; Collect(objs, arrays, first, k + 1) == Some(l0[..k + 1]) && l0[..k + 1][..k] == l0[..k]
  {
    hide Collect, Partway;
    var l0 := l + objs[a].slots[..j];
    if k + 1 > |l| {
      WalkItem(objs, arrays, first, n, l, a, k + 1);
      assert l0[..k + 1] == l + objs[a].slots[..k + 1 - |l|];
    } else {
      assert l0[..k + 1] == l[..k + 1];
    }
  }

  lemma {:induction false} NotGood(h: Header, objs: Heap, data: seq<nat>, table: seq<HashItem>, entries: seq<nat>, arrays: seq<nat>, l: seq<nat>, p: nat)
    requires |table| > 0 && forall e :: e in entries ==> e != 0
    requires var main := Collect(objs, arrays, h.entryArrayOffset, |entries|); main.Some? ==> l + [p] <= main.value
    requires NextVerdict(objs, data, table, entries, l, p) != Good
    ensures !MainGood(h, objs, data, table, entries, arrays)
  {
    hide Collect, MainItems, NextVerdict;
    if MainGood(h, objs, data, table, entries, arrays) {
      var main := Collect(objs, arrays, h.entryArrayOffset, |entries|).value;
      assert main[..|l|] == l;
      GoodBefore(objs, data, table, entries, main, |l|);
    }
  }

  /** If the chain breaks, or ends, after good items, the check does not hang. */
  lemma {:induction false} NoStop(h: Header, objs: Heap, data: seq<nat>, table: seq<HashItem>, entries: seq<nat>, arrays: seq<nat>, l: seq<nat>, a: nat)
    requires |table| > 0 && (forall e :: e in entries ==> e != 0)
    requires WalkedTo(objs, arrays, h.entryArrayOffset, |entries|, l, a) && MainItems(objs, data, table, entries, l)
    requires |l| == |entries| || !ArrayOk(objs, arrays, a)
    ensures !MainHangs(h, objs, data, table, entries, arrays)
    ensures MainGood(h, objs, data, table, entries, arrays) <==> |l| == |entries|
  {
    hide Collect, MainItems, NextVerdict, Partway, ArrayOk;
    if |l| < |entries| {
      WalkBreaks(objs, arrays, h.entryArrayOffset, |entries|, l, a);
    }
    assert l[..|l|] == l;
    forall k | 0 <= k < |l| ensures !StopsAt(objs, data, table, entries, ItemsTo(objs, arrays, h.entryArrayOffset, k), k, Endless) {
      GoodBefore(objs, data, table, entries, l, k);
      assert l[..k + 1][..k] == l[..k];
    }
  }

  /** The items of one array of the main chain; the check may stop at item j. */
  method VerifyMainSlots(objs: Heap, data: seq<nat>, table: seq<HashItem>, entries: seq<nat>, slots: seq<nat>, u: nat, last: nat, ghost l: seq<nat>)
    returns (r: Verdict, last': nat, ghost j: nat)
    requires |table| > 0 && Increasing(data) && Increasing(entries) && u <= |slots|
    requires forall d :: d in data ==> d != 0 && Is(objs, d, KData)
    requires forall e :: e in entries ==> e != 0 && Is(objs, e, KEntry)
    requires MainItems(objs, data, table, entries, l) && last == LastOr0(l)
    ensures r == Good ==> MainItems(objs, data, table, entries, l + slots[..u]) && last' == LastOr0(l + slots[..u])
    ensures r != Good ==> j < u && MainItems(objs, data, table, entries, l + slots[..j])
                          && NextVerdict(objs, data, table, entries, l + slots[..j], slots[j]) == r
  {
    hide EntryFound, EntryHangs, Increasing, MainItems;
    last', j := last, 0;
    var i := 0;
    assert l + slots[..0] == l;
    while i < u
      invariant 0 <= i == j <= u
      invariant MainItems(objs, data, table, entries, l + slots[..i]) && last' == LastOr0(l + slots[..i])
    {
      var p := slots[i];
      if p <= last' {
        return Corrupt, last', j;
      }
      var known := ContainsUint64(entries, p);
      if !known {
        return Corrupt, last', j;
      }
      r := VerifyEntry(objs, data, table, p);
      if r != Good {
        return;
      }
      last' := p;
      GoodNext(objs, data, table, entries, l + slots[..i], p);
      assert l + slots[..i + 1] == l + slots[..i] + [p];
      i, j := i + 1, j + 1;
    }
    r := Good;
  }

  /** The main array lists all entries in order, and the items of each are in the hash table. */
  method VerifyEntryArray(h: Header, objs: Heap, data: seq<nat>, table: seq<HashItem>, entries: seq<nat>, arrays: seq<nat>) returns (r: Verdict)
    requires |table| > 0 && Increasing(data) && Increasing(entries) && Increasing(arrays) && h.nEntries == |entries|
    requires forall d :: d in data ==> d != 0 && Is(objs, d, KData)
    requires forall e :: e in entries ==> e != 0 && Is(objs, e, KEntry)
    requires forall a :: a in arrays ==> a != 0 && IsArray(objs, a) && objs[a].slots != []
    ensures r == Good <==> MainGood(h, objs, data, table, entries, arrays)
    ensures r == Endless <==> MainHangs(h, objs, data, table, entries, arrays)
  {
    hide Collect, MainItems, Increasing, Partway, NextVerdict, WalkedTo, MainGood, MainHangs;
    var i := 0;
    var a := h.entryArrayOffset;
    var last := 0;
    ghost var l: seq<nat> := [];
    WalkStarts(objs, arrays, a, |entries|);
    NoMainItems(objs, data, table, entries);
    while i < h.nEntries
      invariant 0 <= i == |l| <= |entries|
      invariant WalkedTo(objs, arrays, h.entryArrayOffset, |entries|, l, a)
      invariant MainItems(objs, data, table, entries, l) && last == LastOr0(l)
      decreases |entries| - i
    {
      if !ArrayOk(objs, arrays, a) {
        NoStop(h, objs, data, table, entries, arrays, l, a);
      }
      if a == 0 {
        return Corrupt;
      }
      var known := ContainsUint64(arrays, a);
      if !known {
        return Corrupt;
      }
      var next := objs[a].next;
      if next != 0 && next <= a {
        return Corrupt;
      }
      var slots := objs[a].slots;
      var u := Min(h.nEntries - i, |slots|);
      ghost var j;
      r, last, j := VerifyMainSlots(objs, data, table, entries, slots, u, last, l);
      if r != Good {
        OnlyStop(h, objs, data, table, entries, arrays, l, a, j);
        return;
      }
      WalkOn(objs, arrays, h.entryArrayOffset, |entries|, l, a);
      l := l + slots[..u];
      i := i + u;
      a := next;
    }
    NoStop(h, objs, data, table, entries, arrays, l, a);
    r := Good;
  }

  lemma {:induction false} NoMainItems(objs: Heap, data: seq<nat>, table: seq<HashItem>, entries: seq<nat>)
    requires |table| > 0
    ensures MainItems(objs, data, table, entries, [])
  {
  }

  lemma {:induction false} PartwayEnd(total: Option<seq<nat>>, l: seq<nat>)
    requires Partway(total, l, Some([]))
    ensures total == Some(l)
  {
    assert l + [] == l;
  }

  lemma {:induction false} CollectNone(objs: Heap, arrays: seq<nat>, a: nat)
    ensures Collect(objs, arrays, a, 0) == Some([])
  {
  }

  lemma {:induction false} IncreasingMore(l: seq<nat>, p: nat)
    requires Increasing(l) && LastOr0(l) < p
    ensures Increasing(l + [p])
  {
  }

  /** The item at hand is item |l0| + j of any successful total. */
  lemma {:induction false} PartwayItem(total: Option<seq<nat>>, l0: seq<nat>, slots: seq<nat>, u: nat, rest: Option<seq<nat>>, j: nat)
    requires u <= |slots| && j < u && Partway(total, l0 + slots[..u], rest)
    ensures total.Some? ==> |total.value| > |l0| + j && total.value[|l0| + j] == slots[j] && total.value[..|l0| + j] == l0 + slots[..j]
  {
    if total.Some? {
      assert total.value[..|l0| + j] == l0 + slots[..j];
    }
  }

  // ---------- the lists of data objects ----------

  /** Entry e exists, contains data object d, and is in the main array, which was checked before. */
  method EntryPointsToData(h: Header, objs: Heap, entries: seq<nat>, arrays: seq<nat>, e: nat, d: nat) returns (ok: bool)
    requires Increasing(entries) && h.nEntries == |entries|
    requires forall x :: x in entries ==> x != 0 && Is(objs, x, KEntry)
    requires Collect(objs, arrays, h.entryArrayOffset, |entries|) == Some(entries)
    ensures ok <==> e in entries && Count(ItemsAt(objs, e), d) > 0
  {
    hide Collect;
    ok := ContainsUint64(entries, e);
    if !ok {
      return;
    }
    var items := objs[e].items;
    var i := 0;
    ok := false;
    while i < |items| && !ok
      invariant 0 <= i <= |items|
      invariant ok <==> exists k :: 0 <= k < i && items[k].objectOffset == d
    {
      ok := items[i].objectOffset == d;
      i := i + 1;
    }
    if !ok {
      return;
    }
    ok := InMainArray(h, objs, entries, arrays, e);
  }

  /** Finds e in the main array by skipping whole arrays and then bisecting. */
  method InMainArray(h: Header, objs: Heap, entries: seq<nat>, arrays: seq<nat>, e: nat) returns (ok: bool)
    requires Increasing(entries) && h.nEntries == |entries| && e in entries
    requires Collect(objs, arrays, h.entryArrayOffset, |entries|) == Some(entries)
    ensures ok
  {
    hide Collect, Partway, Increasing, Min;
    var i := 0;
    var a := h.entryArrayOffset;
    PartwayStart(Some(entries));
    assert entries[..0] == [] && entries[0..] == entries;
    while i < h.nEntries
      invariant 0 <= i <= |entries|
      invariant Partway(Some(entries), entries[..i], Collect(objs, arrays, a, |entries| - i))
      invariant e in entries[i..]
      decreases |entries| - i
    {
      MainArrayStep(objs, arrays, entries, i, a);
      var slots := objs[a].slots;
      var u := Min(|entries| - i, |slots|);
      if e <= slots[u - 1] {
        InSlots(entries, i, slots[..u], e);
        SlotsIncrease(entries, i, slots[..u]);
        ok := BisectSlots(slots[..u], e);
        return;
      }
      BeyondSlots(entries, i, slots[..u], e);
      i := i + u;
      a := objs[a].next;
    }
    ok := true;
  }

  /** The array at a stores the entries from i on. */
  lemma {:induction false} MainArrayStep(objs: Heap, arrays: seq<nat>, entries: seq<nat>, i: nat, a: nat)
    requires i < |entries| && Partway(Some(entries), entries[..i], Collect(objs, arrays, a, |entries| - i))
    ensures IsArray(objs, a)
    ensures var u := Min(|entries| - i, |objs[a].slots|);
            && 0 < u && i + u <= |entries| && u <= |objs[a].slots|
            && entries[i..i + u] == objs[a].slots[..u]
            && Partway(Some(entries), entries[..i + u], Collect(objs, arrays, objs[a].next, |entries| - (i + u)))
  {
    PartwayArray(objs, arrays, Some(entries), entries[..i], a, |entries| - i);
    var u := Min(|entries| - i, |objs[a].slots|);
    hide Collect;
    PartwaySlots(entries, i, objs[a].slots[..u], Collect(objs, arrays, objs[a].next, |entries| - i - u));
  }

  method BisectSlots(slots: seq<nat>, e: nat) returns (ok: bool)
    requires Increasing(slots)
    ensures ok <==> exists k :: 0 <= k < |slots| && slots[k] == e
  {
    var x, y := 0, |slots|;
    while x < y
      invariant 0 <= x <= y <= |slots|
      invariant forall k :: 0 <= k < |slots| && slots[k] == e ==> x <= k < y
    {
      var z := (x + y) / 2;
      if slots[z] == e {
        return true;
      }
      if x + 1 >= y {
        break;
      }
      if e < slots[z] {
        y := z;
      } else {
        x := z;
      }
    }
    ok := false;
  }

  lemma {:induction false} PartwaySlots(entries: seq<nat>, i: nat, slots: seq<nat>, rest: Option<seq<nat>>)
    requires i <= |entries| && Partway(Some(entries), entries[..i] + slots, rest)
    ensures i + |slots| <= |entries| && entries[i..i + |slots|] == slots
    ensures entries[..i] + slots == entries[..i + |slots|]
  {
  }

  lemma {:induction false} SlotsIncrease(entries: seq<nat>, i: nat, slots: seq<nat>)
    requires Increasing(entries) && i + |slots| <= |entries| && entries[i..i + |slots|] == slots
    ensures Increasing(slots)
  {
    forall j, k | 0 <= j < k < |slots| ensures slots[j] < slots[k] {
      assert slots[j] == entries[i + j] && slots[k] == entries[i + k];
    }
  }

  lemma {:induction false} InSlots(entries: seq<nat>, i: nat, slots: seq<nat>, e: nat)
    requires Increasing(entries) && i + |slots| <= |entries| && entries[i..i + |slots|] == slots && slots != []
    requires e in entries[i..] && e <= slots[|slots| - 1]
    ensures exists k :: 0 <= k < |slots| && slots[k] == e
  {
    var k :| 0 <= k < |entries| - i && entries[i..][k] == e;
    assert entries[i + k] == e && slots[|slots| - 1] == entries[i + |slots| - 1];
    assert slots == entries[i..][..|slots|];
  }

  lemma {:induction false} BeyondSlots(entries: seq<nat>, i: nat, slots: seq<nat>, e: nat)
    requires Increasing(entries) && i + |slots| <= |entries| && entries[i..i + |slots|] == slots && slots != []
    requires e in entries[i..] && e > slots[|slots| - 1]
    ensures e in entries[i + |slots|..]
  {
    var k :| 0 <= k < |entries| - i && entries[i..][k] == e;
    assert entries[i + k] == e && slots[|slots| - 1] == entries[i + |slots| - 1];
    assert k >= |slots|;
    assert entries[i + |slots|..][k - |slots|] == e;
  }

  ghost predicate EntryListed(objs: Heap, entries: seq<nat>, d: nat, e: nat) {
    e in entries && Count(ItemsAt(objs, e), d) > 0
  }

  /** These entries are in order, exist, and contain data object d. */
  ghost predicate DataItems(objs: Heap, entries: seq<nat>, d: nat, l: seq<nat>) {
    Increasing(l) && forall i :: 0 <= i < |l| ==> EntryListed(objs, entries, d, l[i])
  }

  ghost predicate DataGood(objs: Heap, entries: seq<nat>, arrays: seq<nat>, d: nat)
    requires Is(objs, d, KData)
  {
    var n, a := objs[d].nEntries, objs[d].entryArrayOffset;
    && (a != 0 ==> n >= 2)
    && (n > 0 ==>
          var list := Prefixed([objs[d].entryOffset], Collect(objs, arrays, a, n - 1));
          list.Some? && DataItems(objs, entries, d, list.value))
  }

  /** The items of one array of a data object's chain. */
  method VerifyDataSlots(h: Header, objs: Heap, entries: seq<nat>, arrays: seq<nat>, d: nat, slots: seq<nat>, u: nat, last: nat,
                         ghost total: Option<seq<nat>>, ghost l: seq<nat>, ghost rest: Option<seq<nat>>)
    returns (ok: bool, last': nat)
    requires Increasing(entries) && h.nEntries == |entries| && u <= |slots|
    requires forall x :: x in entries ==> x != 0 && Is(objs, x, KEntry)
    requires Collect(objs, arrays, h.entryArrayOffset, |entries|) == Some(entries)
    requires Partway(total, l + slots[..u], rest) && DataItems(objs, entries, d, l) && l != [] && last == LastOr0(l)
    ensures ok ==> DataItems(objs, entries, d, l + slots[..u]) && last' == LastOr0(l + slots[..u])
    ensures !ok ==> !(total.Some? && DataItems(objs, entries, d, total.value))
  {
    hide Increasing, Partway, Collect, Count;
    last' := last;
    var j := 0;
    assert l + slots[..0] == l;
    while j < u
      invariant 0 <= j <= u
      invariant DataItems(objs, entries, d, l + slots[..j]) && last' == LastOr0(l + slots[..j])
    {
      var q := slots[j];
      PartwayItem(total, l, slots, u, rest, j);
      if q <= last' {
        NotIncreasing(total, |l| + j, l + slots[..j]);
        return false, last';
      }
      ok := EntryPointsToData(h, objs, entries, arrays, q, d);
      if !ok {
        assert total.Some? ==> !EntryListed(objs, entries, d, total.value[|l| + j]);
        return;
      }
      last' := q;
      IncreasingMore(l + slots[..j], q);
      assert l + slots[..j + 1] == l + slots[..j] + [q];
      j := j + 1;
    }
    ok := true;
  }

  /** The list of data object d names entries that contain it, in order. */
  method VerifyData(h: Header, objs: Heap, entries: seq<nat>, arrays: seq<nat>, d: nat) returns (ok: bool)
    requires Increasing(entries) && Increasing(arrays) && h.nEntries == |entries|
    requires forall x :: x in entries ==> x != 0 && Is(objs, x, KEntry)
    requires forall a :: a in arrays ==> a != 0 && IsArray(objs, a) && objs[a].slots != []
    requires Collect(objs, arrays, h.entryArrayOffset, |entries|) == Some(entries)
    requires Is(objs, d, KData)
    ensures ok <==> DataGood(objs, entries, arrays, d)
  {
    hide Collect, Increasing, Count, DataItems, Partway;
    var n := objs[d].nEntries;
    var a := objs[d].entryArrayOffset;
    if a != 0 && n < 2 {
      return false;
    }
    if n == 0 {
      return true;
    }
    var q := objs[d].entryOffset;
    var last := q;
    ghost var total := Prefixed([q], Collect(objs, arrays, a, n - 1));
    ok := EntryPointsToData(h, objs, entries, arrays, q, d);
    FirstItem(objs, entries, d, q, Collect(objs, arrays, a, n - 1));
    if !ok {
      return;
    }
    var i := 1;
    ghost var l: seq<nat> := [q];
    while i < n
      invariant 1 <= i == |l| <= n
      invariant Partway(total, l, Collect(objs, arrays, a, n - i))
      invariant DataItems(objs, entries, d, l) && last == LastOr0(l)
      decreases n - i
    {
      PartwayArray(objs, arrays, total, l, a, n - i);
      if a == 0 {
        return false;
      }
      var known := ContainsUint64(arrays, a);
      if !known {
        return false;
      }
      var next := objs[a].next;
      if next != 0 && next <= a {
        return false;
      }
      var slots := objs[a].slots;
      var u := Min(n - i, |slots|);
      ok, last := VerifyDataSlots(h, objs, entries, arrays, d, slots, u, last, total, l, Collect(objs, arrays, next, n - i - u));
      if !ok {
        return;
      }
      l := l + slots[..u];
      i := i + u;
      a := next;
    }
    CollectNone(objs, arrays, a);
    PartwayEnd(total, l);
    ok := true;
  }

  lemma {:induction false} FirstItem(objs: Heap, entries: seq<nat>, d: nat, q: nat, rest: Option<seq<nat>>)
    ensures Partway(Prefixed([q], rest), [q], rest)
    ensures EntryListed(objs, entries, d, q) ==> DataItems(objs, entries, d, [q])
    ensures !EntryListed(objs, entries, d, q) && rest.Some? ==> !DataItems(objs, entries, d, Prefixed([q], rest).value)
  {
    if rest.Some? {
      assert ([q] + rest.value)[0] == q;
    }
  }

  lemma {:induction false} NotIncreasing(total: Option<seq<nat>>, i: nat, l: seq<nat>)
    requires |l| == i > 0
    requires total.Some? ==> i < |total.value| && total.value[..i] == l && total.value[i] <= LastOr0(l)
    ensures total.Some? ==> !Increasing(total.value)
  {
    if total.Some? {
      assert total.value[i - 1] == l[i - 1];
    }
  }

  // ---------- the data hash table ----------

  /** These data objects are sound. */
  ghost predicate BucketItems(objs: Heap, entries: seq<nat>, arrays: seq<nat>, l: seq<nat>) {
    forall i :: 0 <= i < |l| ==> Is(objs, l[i], KData) && DataGood(objs, entries, arrays, l[i])
  }

  ghost predicate BucketGood(objs: Heap, data: seq<nat>, entries: seq<nat>, arrays: seq<nat>, n: nat, b: nat, item: HashItem, limit: nat)
    requires n > 0
  {
    var c := WalkBucket(objs, data, n, b, item.head, limit);
    c.Some? && item.tail == LastOr0(c.value) && BucketItems(objs, entries, arrays, c.value)
  }

  lemma {:induction false} PartwayBucket(objs: Heap, data: seq<nat>, n: nat, b: nat, p: nat, limit: nat, total: Option<seq<nat>>, l: seq<nat>)
    requires n > 0 && p != 0 && Partway(total, l, WalkBucket(objs, data, n, b, p, limit))
    requires forall d :: d in data ==> d <= limit && Is(objs, d, KData)
    ensures p !in data || (objs[p].nextHash != 0 && objs[p].nextHash <= p) || BucketOf(objs[p].hash, n) != b ==> total.None?
    ensures p in data && !(objs[p].nextHash != 0 && objs[p].nextHash <= p) && BucketOf(objs[p].hash, n) == b ==>
              Partway(total, l + [p], WalkBucket(objs, data, n, b, objs[p].nextHash, limit))
    ensures total.Some? ==> |total.value| > |l| && total.value[|l|] == p
  {
    if p in data && !(objs[p].nextHash != 0 && objs[p].nextHash <= p) && BucketOf(objs[p].hash, n) == b {
      var rest := WalkBucket(objs, data, n, b, objs[p].nextHash, limit);
      if rest.Some? {
        assert l + ([p] + rest.value) == l + [p] + rest.value;
      }
    }
  }

  /** One bucket of the data hash table. */
  method VerifyBucket(h: Header, objs: Heap, data: seq<nat>, entries: seq<nat>, arrays: seq<nat>, n: nat, b: nat, item: HashItem) returns (ok: bool)
    requires n > 0 && Increasing(data) && Increasing(entries) && Increasing(arrays) && h.nEntries == |entries|
    requires forall d :: d in data ==> d != 0 && d <= h.tailObjectOffset && Is(objs, d, KData)
    requires forall x :: x in entries ==> x != 0 && Is(objs, x, KEntry)
    requires forall a :: a in arrays ==> a != 0 && IsArray(objs, a) && objs[a].slots != []
    requires Collect(objs, arrays, h.entryArrayOffset, |entries|) == Some(entries)
    ensures ok <==> BucketGood(objs, data, entries, arrays, n, b, item, h.tailObjectOffset)
  {
    hide Collect, Increasing, DataGood, WalkBucket, Partway, BucketOf;
    var last, p := 0, item.head;
    ghost var total := WalkBucket(objs, data, n, b, item.head, h.tailObjectOffset);
    ghost var l: seq<nat> := [];
    PartwayStart(total);
    while p != 0
      invariant Partway(total, l, WalkBucket(objs, data, n, b, p, h.tailObjectOffset))
      invariant BucketItems(objs, entries, arrays, l) && last == LastOr0(l)
      decreases p != 0, if p <= h.tailObjectOffset then h.tailObjectOffset - p + 1 else 0
    {
      PartwayBucket(objs, data, n, b, p, h.tailObjectOffset, total, l);
      var known := ContainsUint64(data, p);
      if !known {
        return false;
      }
      var next := objs[p].nextHash;
      if next != 0 && next <= p {
        return false;
      }
      if BucketOf(objs[p].hash, n) != b {
        return false;
      }
      ok := VerifyData(h, objs, entries, arrays, p);
      if !ok {
        return;
      }
      l := l + [p];
      last := p;
      p := next;
    }
    WalkEnds(objs, data, n, b, h.tailObjectOffset);
    PartwayEnd(total, l);
    ok := last == item.tail;
  }

  lemma {:induction false} WalkEnds(objs: Heap, data: seq<nat>, n: nat, b: nat, limit: nat)
    requires n > 0
    ensures WalkBucket(objs, data, n, b, 0, limit) == Some([])
  {
  }

  ghost predicate BucketsGood(h: Header, objs: Heap, data: seq<nat>, entries: seq<nat>, arrays: seq<nat>) {
    var table := DataTable(h, objs);
    |table| > 0 && forall b :: 0 <= b < |table| ==> BucketGood(objs, data, entries, arrays, |table|, b, table[b], h.tailObjectOffset)
  }

  method VerifyHashTable(h: Header, objs: Heap, data: seq<nat>, entries: seq<nat>, arrays: seq<nat>) returns (ok: bool)
    requires |DataTable(h, objs)| > 0 && h.dataHashTableSize == 16 * |DataTable(h, objs)|
    requires Increasing(data) && Increasing(entries) && Increasing(arrays) && h.nEntries == |entries|
    requires forall d :: d in data ==> d != 0 && d <= h.tailObjectOffset && Is(objs, d, KData)
    requires forall x :: x in entries ==> x != 0 && Is(objs, x, KEntry)
    requires forall a :: a in arrays ==> a != 0 && IsArray(objs, a) && objs[a].slots != []
    requires Collect(objs, arrays, h.entryArrayOffset, |entries|) == Some(entries)
    ensures ok <==> BucketsGood(h, objs, data, entries, arrays)
  {
    hide Collect, Increasing, BucketGood, DataTable;
    var table := DataTable(h, objs);
    var n := h.dataHashTableSize / 16;
    var i := 0;
    while i < n
      invariant 0 <= i <= n == |table|
      invariant forall b :: 0 <= b < i ==> BucketGood(objs, data, entries, arrays, |table|, b, table[b], h.tailObjectOffset)
    {
      ok := VerifyBucket(h, objs, data, entries, arrays, n, i, table[i]);
      if !ok {
        return;
      }
      i := i + 1;
    }
    ok := true;
  }

  // ---------- the whole file ----------

  /** What the first pass hands to the second. */
  lemma {:induction false} ScanLists(H: HashFunction, h: Header, objs: Heap, offs: seq<nat>)
    requires ArenaOk(H, h, objs, offs) && h.headerSize > 0
    ensures forall k :: Increasing(Select(objs, offs, k))
    ensures forall k, p :: p in Select(objs, offs, k) ==> p != 0 && p <= h.tailObjectOffset && Is(objs, p, k)
    ensures forall a :: a in Select(objs, offs, KEntryArray) ==> IsArray(objs, a) && objs[a].slots != []
    ensures |DataTable(h, objs)| > 0 && h.dataHashTableSize == 16 * |DataTable(h, objs)|
    ensures h.nEntries == |Select(objs, offs, KEntry)|
  {
    hide Tiling, TablesOk, EntrySequenceOk, Valid64;
    TilingIncreasing(h, objs, offs);
    forall k ensures Increasing(Select(objs, offs, k)) {
      SelectIncreasing(objs, offs, k);
    }
    forall p | p in offs ensures p != 0 && p <= h.tailObjectOffset && p in objs && ObjectOk(H, objs[p]) {
      OffsetBounds(h, objs, offs, p);
      var i :| 0 <= i < |offs| && offs[i] == p;
    }
    TableOffset(h, objs, offs);
  }

  lemma {:induction false} OffsetBounds(h: Header, objs: Heap, offs: seq<nat>, p: nat)
    requires Tiling(h, objs, offs) && h.headerSize > 0 && p in offs
    ensures p != 0 && p <= h.tailObjectOffset && p in objs
  {
    TilingIncreasing(h, objs, offs);
    var i :| 0 <= i < |offs| && offs[i] == p;
    assert i > 0 ==> offs[0] < offs[i];
    assert i < |offs| - 1 ==> offs[i] < offs[|offs| - 1];
  }

  lemma {:induction false} TableOffset(h: Header, objs: Heap, offs: seq<nat>)
    requires TablesOk(h, objs, offs)
    ensures var t := h.dataHashTableOffset - HASH_TABLE_HEADER;
            t in offs && Is(objs, t, KDataHashTable) && DataTable(h, objs) == objs[t].table
    ensures h.dataHashTableSize == 16 * |DataTable(h, objs)|
  {
    assert h.dataHashTableOffset - HASH_TABLE_HEADER in Select(objs, offs, KDataHashTable);
  }

  /** The objects are sound, but walking the main list the check gets to an item whose hash chain leads in a circle
      that does not contain the item's data object. */
  ghost predicate Hangs(H: HashFunction, h: Header, objs: Heap) {
    var offs := Offsets(h, objs);
    && ArenaOk(H, h, objs, offs) && |DataTable(h, objs)| > 0
    && MainHangs(h, objs, Select(objs, offs, KData), DataTable(h, objs), Select(objs, offs, KEntry), Select(objs, offs, KEntryArray))
  }

  /** The checker accepts exactly the consistent files, and never gets done with exactly the files that hang it. */
  method Verify(H: HashFunction, h: Header, objs: Heap) returns (r: Verdict)
    requires h.headerSize > 0
    ensures r == Good <==> Consistent(H, h, objs)
    ensures r == Endless <==> Hangs(H, h, objs)
  {
    hide ArenaOk, StepsOk, TotalsOk, Offsets, Select, MainGood, MainHangs, BucketsGood, ReferencesOk, DataTable, Increasing;
    var ok, t := ScanObjects(H, h, objs);
    ScanMeaning(H, h, objs);
    if !ok {
      return Corrupt;
    }
    ScanLists(H, h, objs, Offsets(h, objs));
    CheckedMeaning(H, h, objs, Offsets(h, objs));
    r := VerifyEntryArray(h, objs, t.data, DataTable(h, objs), t.entries, t.arrays);
    if r != Good {
      return;
    }
    MainCollects(h, objs, t.data, t.entries, t.arrays);
    ok := VerifyHashTable(h, objs, t.data, t.entries, t.arrays);
    r := if ok then Good else Corrupt;
  }

  lemma {:induction false} MainCollects(h: Header, objs: Heap, data: seq<nat>, entries: seq<nat>, arrays: seq<nat>)
    requires |DataTable(h, objs)| > 0 && Increasing(entries)
    requires MainGood(h, objs, data, DataTable(h, objs), entries, arrays)
    ensures Collect(objs, arrays, h.entryArrayOffset, |entries|) == Some(entries)
  {
    hide Collect, Increasing, EntryFound;
    var main := Collect(objs, arrays, h.entryArrayOffset, |entries|);
    CollectSize(objs, arrays, h.entryArrayOffset, |entries|);
    Pigeonhole(main.value, entries);
  }

  lemma {:induction false} MainMeaning(h: Header, objs: Heap, data: seq<nat>, entries: seq<nat>, arrays: seq<nat>)
    requires |DataTable(h, objs)| > 0 && Increasing(entries)
    ensures MainGood(h, objs, data, DataTable(h, objs), entries, arrays) <==>
            MainOk(h, objs, entries, arrays) && forall e :: e in entries ==> EntryFound(objs, data, DataTable(h, objs), e)
  {
    hide Collect, EntryFound, Stores, DataTable;
    if MainGood(h, objs, data, DataTable(h, objs), entries, arrays) {
      MainCollects(h, objs, data, entries, arrays);
      var chain := CollectStores(objs, arrays, h.entryArrayOffset, |entries|);
    }
    if MainOk(h, objs, entries, arrays) {
      var chain :| Stores(objs, arrays, h.entryArrayOffset, chain, entries);
      StoresCollect(objs, arrays, h.entryArrayOffset, chain, entries);
    }
  }

  lemma {:induction false} DataMeaning(objs: Heap, entries: seq<nat>, arrays: seq<nat>, d: nat)
    requires Is(objs, d, KData) && (objs[d].entryOffset == 0 <==> objs[d].nEntries == 0)
    ensures DataGood(objs, entries, arrays, d) <==> DataOk(objs, entries, arrays, d)
  {
    hide Collect, Stores, Count;
    var n, a := objs[d].nEntries, objs[d].entryArrayOffset;
    if DataGood(objs, entries, arrays, d) {
      if n == 0 {
        assert DataListOk(objs, entries, arrays, d, [], []);
      } else {
        CollectSize(objs, arrays, a, n - 1);
        var chain := CollectStores(objs, arrays, a, n - 1);
        var rest := Collect(objs, arrays, a, n - 1).value;
        var list := [objs[d].entryOffset] + rest;
        assert list[1..] == rest;
        assert forall i :: 0 <= i < |list| ==> EntryListed(objs, entries, d, list[i]);
        assert DataListOk(objs, entries, arrays, d, chain, list);
      }
    }
    if DataOk(objs, entries, arrays, d) {
      var chain, list :| DataListOk(objs, entries, arrays, d, chain, list);
      if n > 0 {
        StoresCollect(objs, arrays, a, chain, list[1..]);
        assert list == [objs[d].entryOffset] + list[1..];
      }
    }
  }

  lemma {:induction false} BucketMeaning(h: Header, objs: Heap, data: seq<nat>, entries: seq<nat>, arrays: seq<nat>, n: nat, b: nat, item: HashItem, c: seq<nat>)
    requires n > 0
    requires forall d :: d in data ==> d <= h.tailObjectOffset && Is(objs, d, KData) && (objs[d].entryOffset == 0 <==> objs[d].nEntries == 0)
    ensures BucketOk(objs, data, entries, arrays, n, b, item, c) ==>
              BucketGood(objs, data, entries, arrays, n, b, item, h.tailObjectOffset)
              && WalkBucket(objs, data, n, b, item.head, h.tailObjectOffset) == Some(c)
    ensures BucketGood(objs, data, entries, arrays, n, b, item, h.tailObjectOffset) ==>
              WalkBucket(objs, data, n, b, item.head, h.tailObjectOffset).Some? &&
              BucketOk(objs, data, entries, arrays, n, b, item, WalkBucket(objs, data, n, b, item.head, h.tailObjectOffset).value)
  {
    hide WalkBucket, ChainFrom, DataGood, DataOk, BucketChain;
    if BucketOk(objs, data, entries, arrays, n, b, item, c) {
      ChainFromBucket(objs, n, b, item, c);
      ChainIsWalked(objs, data, n, b, item.head, h.tailObjectOffset, c);
      forall i | 0 <= i < |c| ensures Is(objs, c[i], KData) && DataGood(objs, entries, arrays, c[i]) {
        DataMeaning(objs, entries, arrays, c[i]);
      }
    }
    if BucketGood(objs, data, entries, arrays, n, b, item, h.tailObjectOffset) {
      var w := WalkBucket(objs, data, n, b, item.head, h.tailObjectOffset).value;
      WalkIsChain(objs, data, n, b, item.head, h.tailObjectOffset);
      ChainFromBucket(objs, n, b, item, w);
      forall i | 0 <= i < |w| ensures DataOk(objs, entries, arrays, w[i]) {
        DataMeaning(objs, entries, arrays, w[i]);
      }
    }
  }

  lemma {:induction false} BucketsMeaning(h: Header, objs: Heap, data: seq<nat>, entries: seq<nat>, arrays: seq<nat>)
    requires forall d :: d in data ==> d <= h.tailObjectOffset && Is(objs, d, KData) && (objs[d].entryOffset == 0 <==> objs[d].nEntries == 0)
    ensures BucketsGood(h, objs, data, entries, arrays) <==> exists chains :: BucketsOk(h, objs, data, entries, arrays, chains)
  {
    hide BucketGood, BucketOk, WalkBucket, DataTable;
    var table := DataTable(h, objs);
    var n := |table|;
    if BucketsGood(h, objs, data, entries, arrays) {
      forall b | 0 <= b < n ensures BucketOk(objs, data, entries, arrays, n, b, table[b], Walk(objs, data, n, b, table[b].head, h.tailObjectOffset)) {
        BucketMeaning(h, objs, data, entries, arrays, n, b, table[b], []);
      }
      var chains := seq(n, b requires 0 <= b < n => Walk(objs, data, n, b, table[b].head, h.tailObjectOffset));
      assert BucketsOk(h, objs, data, entries, arrays, chains);
    }
    if chains :| BucketsOk(h, objs, data, entries, arrays, chains) {
      forall b | 0 <= b < n ensures BucketGood(objs, data, entries, arrays, n, b, table[b], h.tailObjectOffset) {
        BucketMeaning(h, objs, data, entries, arrays, n, b, table[b], chains[b]);
      }
    }
  }

  ghost function Walk(objs: Heap, data: seq<nat>, n: nat, b: nat, p: nat, limit: nat): seq<nat>
    requires n > 0
  {
    var w := WalkBucket(objs, data, n, b, p, limit);
    if w.Some? then w.value else []
  }

  lemma {:induction false} ItemsMeaning(h: Header, objs: Heap, data: seq<nat>, entries: seq<nat>, arrays: seq<nat>, chains: seq<seq<nat>>)
    requires BucketsOk(h, objs, data, entries, arrays, chains)
    requires forall d :: d in data ==> d != 0
    ensures ItemsOk(objs, data, entries, chains) <==> forall e :: e in entries ==> EntryFound(objs, data, DataTable(h, objs), e)
  {
    hide BucketOk, Reaches, DataTable, ItemsAt;
    var table := DataTable(h, objs);
    forall e, i | e in entries && 0 <= i < |ItemsAt(objs, e)|
      ensures ItemOk(objs, data, chains, ItemsAt(objs, e)[i]) <==> ItemFound(objs, data, table, ItemsAt(objs, e)[i])
    {
      var item := ItemsAt(objs, e)[i];
      ItemMeaning(objs, data, entries, arrays, table, chains, item);
    }
  }

  lemma {:induction false} ItemMeaning(objs: Heap, data: seq<nat>, entries: seq<nat>, arrays: seq<nat>, table: seq<HashItem>, chains: seq<seq<nat>>, item: EntryItem)
    requires |chains| == |table| > 0
    requires forall b :: 0 <= b < |table| ==> BucketOk(objs, data, entries, arrays, |table|, b, table[b], chains[b])
    requires forall d :: d in data ==> d != 0
    ensures ItemOk(objs, data, chains, item) <==> ItemFound(objs, data, table, item)
  {
    hide Reaches, DataOk, ChainFrom, BucketChain;
    var b := BucketOf(item.hash, |table|);
    hide BucketOf;
    assert BucketOk(objs, data, entries, arrays, |table|, b, table[b], chains[b]);
    ChainFromBucket(objs, |table|, b, table[b], chains[b]);
    if item.objectOffset in data {
      ReachesOnChain(objs, |table|, b, table[b].head, chains[b], item.objectOffset);
    }
  }

  /** After a successful first pass, the second pass decides whether the file is consistent. */
  lemma {:induction false} CheckedMeaning(H: HashFunction, h: Header, objs: Heap, offs: seq<nat>)
    requires ArenaOk(H, h, objs, offs) && h.headerSize > 0
    ensures |DataTable(h, objs)| > 0
    ensures var data, entries, arrays := Select(objs, offs, KData), Select(objs, offs, KEntry), Select(objs, offs, KEntryArray);
            MainGood(h, objs, data, DataTable(h, objs), entries, arrays) && BucketsGood(h, objs, data, entries, arrays)
            <==> exists chains :: ReferencesOk(h, objs, offs, chains)
  {
    ScanLists(H, h, objs, offs);
    DataCounts(H, h, objs, offs);
    hide Tiling, Select, ArenaOk, MainGood, BucketsGood, MainOk, BucketsOk, ItemsOk, DataTable, Increasing, EntryFound;
    var data, entries, arrays := Select(objs, offs, KData), Select(objs, offs, KEntry), Select(objs, offs, KEntryArray);
    MainMeaning(h, objs, data, entries, arrays);
    BucketsMeaning(h, objs, data, entries, arrays);
    forall chains | BucketsOk(h, objs, data, entries, arrays, chains)
      ensures |chains| > 0 && (ItemsOk(objs, data, entries, chains) <==> forall e :: e in entries ==> EntryFound(objs, data, DataTable(h, objs), e))
    {
      ChainsExist(h, objs, data, entries, arrays, chains);
      ItemsMeaning(h, objs, data, entries, arrays, chains);
    }
    if MainGood(h, objs, data, DataTable(h, objs), entries, arrays) && BucketsGood(h, objs, data, entries, arrays) {
      var chains :| BucketsOk(h, objs, data, entries, arrays, chains);
      assert ReferencesOk(h, objs, offs, chains);
    }
  }

  lemma {:induction false} ChainsExist(h: Header, objs: Heap, data: seq<nat>, entries: seq<nat>, arrays: seq<nat>, chains: seq<seq<nat>>)
    requires BucketsOk(h, objs, data, entries, arrays, chains)
    ensures |chains| > 0
  {
  }

  lemma {:induction false} DataCounts(H: HashFunction, h: Header, objs: Heap, offs: seq<nat>)
    requires ArenaOk(H, h, objs, offs)
    ensures forall d :: d in Select(objs, offs, KData) ==> Is(objs, d, KData) && (objs[d].entryOffset == 0 <==> objs[d].nEntries == 0)
  {
    hide Tiling, TablesOk, EntrySequenceOk, Valid64;
    forall d | d in Select(objs, offs, KData) ensures Is(objs, d, KData) && (objs[d].entryOffset == 0 <==> objs[d].nEntries == 0) {
      var i :| 0 <= i < |offs| && offs[i] == d;
      assert ObjectOk(H, objs[offs[i]]);
    }
  }
}
