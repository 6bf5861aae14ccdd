/** The inverted index of a well-built file says exactly what its log says. */
module JournalIndex {
  import opened JournalDef
  import opened JournalView
  import opened JournalLinking

  lemma {:induction false} FieldCount(H: HashFunction, objs: Heap, items: seq<EntryItem>, d: nat)
    requires UniquePayloads(H, objs, KData) && Is(objs, d, KData)
    requires forall i :: 0 <= i < |items| ==> Is(objs, items[i].objectOffset, KData)
    ensures FieldsOf(objs, items)[PayloadAt(objs, d)] == Count(items, d)
  {
    if items != [] {
      FieldCount(H, objs, items[..|items| - 1], d);
    }
  }

  lemma {:induction false} PostingsUnfold(objs: Heap, entries: seq<nat>, d: nat)
    requires entries != []
    ensures var e := entries[|entries| - 1];
            Postings(objs, entries, d) == Postings(objs, entries[..|entries| - 1], d) + Repeat(e, Count(ItemsAt(objs, e), d))
  {
  }

  lemma {:induction false} PostingsCount(objs: Heap, entries: seq<nat>, d: nat, i: nat)
    requires Increasing(entries) && i < |entries|
    ensures multiset(Postings(objs, entries, d))[entries[i]] == Count(ItemsAt(objs, entries[i]), d)
  {
    hide Postings, Count, ItemsAt, Repeat;
    var front := entries[..|entries| - 1];
    var e := entries[|entries| - 1];
    var c := Count(ItemsAt(objs, e), d);
    PostingsUnfold(objs, entries, d);
    RepeatCount(e, c);
    PostingsMembers(objs, front, d);
    assert forall j :: 0 <= j < |front| ==> front[j] < e;
    if i < |front| {
      PostingsCount(objs, front, d, i);
      assert entries[i] == front[i] < e;
    } else {
      assert e !in front;
    }
  }

  lemma {:induction false} RepeatCount(p: nat, c: nat)
    ensures forall q :: multiset(Repeat(p, c))[q] == if q == p then c else 0
  {
    if c > 0 {
      RepeatCount(p, c - 1);
      assert Repeat(p, c) == Repeat(p, c - 1) + [p];
    }
  }

  /** The list of data object d holds each entry as often as the entry contains the payload of d, and nothing else. */
  lemma {:induction false} IndexIsExact(H: HashFunction, h: Header, objs: Heap, v: View, d: nat)
    requires WellBuilt(H, h, objs, v, {}) && Is(objs, d, KData)
    ensures d in v.lists
    ensures forall e :: e in v.lists[d] ==> e in Entries(objs, v)
    ensures forall i :: 0 <= i < |Entries(objs, v)| ==>
              multiset(v.lists[d])[Entries(objs, v)[i]] == Log(objs, Entries(objs, v))[i].fields[PayloadAt(objs, d)]
  {
    hide Layout, TablesOk, CountsOk, NoSlack, FieldLists, ListsHeld, HashChains, Select, Postings, Count, FieldsOf;
    var entries := Entries(objs, v);
    ListKeys(h, objs, v.lists, v.arrays);
    EntriesIncrease(h, objs, v.offs);
    PostingsMembers(objs, entries, d);
    forall i | 0 <= i < |entries|
      ensures multiset(v.lists[d])[entries[i]] == Log(objs, entries)[i].fields[PayloadAt(objs, d)]
    {
      assert EntryOk(objs, entries[i]);
      PostingsCount(objs, entries, d, i);
      FieldCount(H, objs, ItemsAt(objs, entries[i]), d);
    }
  }

  lemma {:induction false} ListKeys(h: Header, objs: Heap, lists: map<nat, seq<nat>>, chains: map<nat, seq<nat>>)
    requires ListsHeld(h, objs, lists, chains)
    ensures MAIN in lists && forall o :: o in lists <==> o == MAIN || Is(objs, o, KData)
  {
  }

  lemma {:induction false} EntriesIncrease(h: Header, objs: Heap, offs: seq<nat>)
    requires Layout(h, objs, offs)
    ensures Increasing(Select(objs, offs, KEntry))
  {
    TilingIncreasing(h, objs, offs);
    SelectIncreasing(objs, offs, KEntry);
  }

  predicate Ascending(s: seq<nat>) {
    forall i, j :: 0 <= i < j < |s| ==> s[i] <= s[j]
  }

  lemma {:induction false} RepeatSorted(s: seq<nat>, e: nat, c: nat)
    requires Ascending(s) && forall i :: 0 <= i < |s| ==> s[i] < e
    ensures Ascending(s + Repeat(e, c))
    ensures Increasing(s + Repeat(e, c)) <==> Increasing(s) && c <= 1
  {
    var t := s + Repeat(e, c);
    assert c > 1 ==> t[|s|] == t[|s| + 1];
    assert forall i :: 0 <= i < |s| ==> t[i] == s[i];
  }

  lemma {:induction false} PostingsSorted(objs: Heap, entries: seq<nat>, d: nat)
    requires Increasing(entries)
    ensures Ascending(Postings(objs, entries, d))
    ensures Increasing(Postings(objs, entries, d)) <==> forall i :: 0 <= i < |entries| ==> Count(ItemsAt(objs, entries[i]), d) <= 1
  {
    if entries == [] {
      assert Postings(objs, entries, d) == [];
      return;
    }
    hide Count, Postings, ItemsAt, Repeat, Ascending;
    var front := entries[..|entries| - 1];
    var e := entries[|entries| - 1];
    PostingsUnfold(objs, entries, d);
    PostingsSorted(objs, front, d);
    PostingsMembers(objs, front, d);
    var s := Postings(objs, front, d);
    forall i | 0 <= i < |s| ensures s[i] < e {
      assert s[i] in s;
      var k :| 0 <= k < |front| && front[k] == s[i];
    }
    hide Increasing;
    RepeatSorted(s, e, Count(ItemsAt(objs, e), d));
    assert forall i :: 0 <= i < |front| ==> front[i] == entries[i];
  }

  /** The list of d is in file order; it is strictly so exactly when no entry contains the payload twice. */
  lemma {:induction false} IndexIsSorted(H: HashFunction, h: Header, objs: Heap, v: View, d: nat)
    requires WellBuilt(H, h, objs, v, {}) && Is(objs, d, KData)
    ensures d in v.lists && Ascending(v.lists[d])
    ensures Increasing(v.lists[d]) <==>
            forall i :: 0 <= i < |Entries(objs, v)| ==> Log(objs, Entries(objs, v))[i].fields[PayloadAt(objs, d)] <= 1
  {
    hide Layout, TablesOk, CountsOk, NoSlack, FieldLists, ListsHeld, HashChains, Select, Postings, Count, FieldsOf;
    var entries := Entries(objs, v);
    ListKeys(h, objs, v.lists, v.arrays);
    EntriesIncrease(h, objs, v.offs);
    PostingsSorted(objs, entries, d);
    forall i | 0 <= i < |entries|
      ensures Count(ItemsAt(objs, entries[i]), d) == Log(objs, entries)[i].fields[PayloadAt(objs, d)]
    {
      assert EntryOk(objs, entries[i]);
      FieldCount(H, objs, ItemsAt(objs, entries[i]), d);
    }
  }

  lemma {:induction false} FieldMember(objs: Heap, items: seq<EntryItem>, x: Payload)
    ensures x in FieldsOf(objs, items) <==> exists i :: 0 <= i < |items| && PayloadAt(objs, items[i].objectOffset) == x
  {
    if items != [] {
      var front := items[..|items| - 1];
      FieldMember(objs, front, x);
      assert items == front + [items[|items| - 1]];
    }
  }

  /** A payload is stored in exactly one data object if some entry contains it, and in none otherwise. */
  lemma {:induction false} StoredOnce(H: HashFunction, h: Header, objs: Heap, v: View, x: Payload)
    requires WellBuilt(H, h, objs, v, {}) && AllUsed(objs, Entries(objs, v))
    ensures (exists d :: Is(objs, d, KData) && PayloadAt(objs, d) == x) <==>
            (exists i :: 0 <= i < |Entries(objs, v)| && x in Log(objs, Entries(objs, v))[i].fields)
    ensures forall d, d' :: Is(objs, d, KData) && Is(objs, d', KData) && PayloadAt(objs, d) == x && PayloadAt(objs, d') == x ==> d == d'
  {
    hide Layout, TablesOk, CountsOk, NoSlack, FieldLists, ListsHeld, HashChains, Select, Postings, FieldsOf;
    var entries := Entries(objs, v);
    if d :| Is(objs, d, KData) && PayloadAt(objs, d) == x {
      PostingsMembers(objs, entries, d);
      var e := Postings(objs, entries, d)[0];
      assert e in Postings(objs, entries, d);
      var i :| 0 <= i < |entries| && entries[i] == e;
      FieldMember(objs, ItemsAt(objs, e), x);
      assert x in Log(objs, entries)[i].fields;
    }
    if i :| 0 <= i < |entries| && x in Log(objs, entries)[i].fields {
      assert EntryOk(objs, entries[i]);
      FieldMember(objs, ItemsAt(objs, entries[i]), x);
    }
  }
}
