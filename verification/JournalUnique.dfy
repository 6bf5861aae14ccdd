/** Enumerating the distinct values of a field over all files (lib/sd-journal.c). */
module JournalUnique {
  import opened JournalDef
  import opened JournalView
  import opened JournalSteps
  import opened JournalLookup
  import opened JournalSeek
  import opened JournalMerge

  /** The data objects of the field in one file, oldest first. */
  ghost function FieldListOf(f: OpenFile, field: Payload): seq<nat> {
    if field in f.view.fieldLists then f.view.fieldLists[field] else []
  }

  /** The payloads `FIELD=value` that the file stores. */
  ghost function ValuesIn(f: OpenFile, field: Payload): set<Payload> {
    set d | d in f.objects && Is(f.objects, d, KData) && FieldName(PayloadAt(f.objects, d)) == Some(field) :: PayloadAt(f.objects, d)
  }

  ghost function ValuesBefore(files: seq<OpenFile>, n: nat, field: Payload): set<Payload>
    requires n <= |files|
  {
    if n == 0 then {} else ValuesBefore(files, n - 1, field) + ValuesIn(files[n - 1], field)
  }

  ghost predicate Built(f: OpenFile) {
    WellBuilt(f.hash64, f.header, f.objects, f.view, {})
  }

  ghost predicate AllBuilt(files: seq<OpenFile>) {
    && (forall i :: 0 <= i < |files| ==> Built(files[i]))
    && (forall i, j :: 0 <= i < |files| && 0 <= j < |files| ==> files[i].hash64 == files[j].hash64)
  }

  /** The list of a field holds exactly the data objects of that field, linked backwards. */
  lemma {:induction false} FieldListMembers(f: OpenFile, field: Payload)
    requires Built(f)
    ensures FieldList(f.objects, field, FieldListOf(f, field))
    ensures forall d :: d in FieldListOf(f, field) <==> Is(f.objects, d, KData) && FieldName(PayloadAt(f.objects, d)) == Some(field)
  {
    hide Layout, TablesOk, CountsOk, NoSlack, HashIndex, EntriesOk, IndexOk, FieldName;
  }

  lemma {:induction false} FieldHeadAt(f: OpenFile, field: Payload, p: nat)
    requires Built(f) && Is(f.objects, p, KField) && PayloadAt(f.objects, p) == field
    ensures f.objects[p].headData == LastOr0(FieldListOf(f, field))
  {
    hide Layout, TablesOk, CountsOk, NoSlack, HashIndex, EntriesOk, IndexOk, FieldName, FieldList;
    assert HeadDataAt(f.objects, p) == f.objects[p].headData;
  }

  lemma {:induction false} NoFieldObject(f: OpenFile, field: Payload)
    requires Built(f) && forall p :: Is(f.objects, p, KField) ==> PayloadAt(f.objects, p) != field
    ensures FieldListOf(f, field) == []
  {
    hide Layout, TablesOk, CountsOk, NoSlack, HashIndex, EntriesOk, IndexOk, FieldName, FieldList;
  }

  /** A file without field objects stores no payload with a field name. */
  lemma {:induction false} NoFields(f: OpenFile, x: Payload)
    requires Built(f) && f.header.nFields == 0 && FieldName(x).Some?
    ensures forall d :: Is(f.objects, d, KData) ==> PayloadAt(f.objects, d) != x
  {
    hide TablesOk, NoSlack, HashIndex, EntriesOk, IndexOk, FieldName, FieldList, Tiling;
    var fields := Select(f.objects, f.view.offs, KField);
    assert fields == [];
    assert forall p :: Is(f.objects, p, KField) ==> p in fields;
  }

  lemma {:induction false} ValuesList(f: OpenFile, field: Payload)
    requires Built(f)
    ensures forall x :: x in ValuesIn(f, field) <==> exists k :: 0 <= k < |FieldListOf(f, field)| && PayloadAt(f.objects, FieldListOf(f, field)[k]) == x
  {
    hide Built, FieldName;
    FieldListMembers(f, field);
    hide FieldList;
    var l := FieldListOf(f, field);
    forall x | x in ValuesIn(f, field) ensures exists k :: 0 <= k < |l| && PayloadAt(f.objects, l[k]) == x {
      var d :| d in f.objects && Is(f.objects, d, KData) && FieldName(PayloadAt(f.objects, d)) == Some(field) && PayloadAt(f.objects, d) == x;
      assert d in l;
    }
    forall k | 0 <= k < |l| ensures PayloadAt(f.objects, l[k]) in ValuesIn(f, field) {
      assert l[k] in l;
    }
  }

  /** The payloads of the list are pairwise different. */
  lemma {:induction false} ListDistinct(f: OpenFile, field: Payload)
    requires Built(f)
    ensures forall i, j :: 0 <= i < j < |FieldListOf(f, field)| ==>
              PayloadAt(f.objects, FieldListOf(f, field)[i]) != PayloadAt(f.objects, FieldListOf(f, field)[j])
  {
    hide Layout, TablesOk, CountsOk, NoSlack, HashChains, EntriesOk, IndexOk, FieldName;
  }

  function PayloadsFrom(objs: Heap, l: seq<nat>, pos: nat): set<Payload> {
    set k | pos <= k < |l| :: PayloadAt(objs, l[k])
  }

  lemma {:induction false} PayloadsStep(objs: Heap, l: seq<nat>, pos: nat)
    requires 0 < pos <= |l|
    ensures PayloadsFrom(objs, l, pos - 1) == PayloadsFrom(objs, l, pos) + {PayloadAt(objs, l[pos - 1])}
  {
    var more, fewer := PayloadsFrom(objs, l, pos - 1), PayloadsFrom(objs, l, pos) + {PayloadAt(objs, l[pos - 1])};
    forall y | y in more ensures y in fewer {
      var k :| pos - 1 <= k < |l| && PayloadAt(objs, l[k]) == y;
    }
  }

  lemma {:induction false} PayloadsMember(objs: Heap, l: seq<nat>, pos: nat, x: Payload)
    ensures x in PayloadsFrom(objs, l, pos) <==> exists k :: pos <= k < |l| && PayloadAt(objs, l[k]) == x
  {
  }

  /** What the walk over the list of file i has passed when the items from pos on are done. */
  ghost function SeenAt(files: seq<OpenFile>, field: Payload, i: nat, pos: nat): set<Payload>
    requires i < |files|
  {
    ValuesBefore(files, i, field) + PayloadsFrom(files[i].objects, FieldListOf(files[i], field), pos)
  }

  lemma {:induction false} SeenStart(files: seq<OpenFile>, field: Payload, i: nat)
    requires i < |files|
    ensures SeenAt(files, field, i, |FieldListOf(files[i], field)|) == ValuesBefore(files, i, field)
  {
    assert PayloadsFrom(files[i].objects, FieldListOf(files[i], field), |FieldListOf(files[i], field)|) == {};
  }

  lemma {:induction false} SeenEnd(files: seq<OpenFile>, field: Payload, i: nat)
    requires i < |files| && Built(files[i])
    ensures SeenAt(files, field, i, 0) == ValuesBefore(files, i + 1, field)
  {
    hide Built, FieldListOf, ValuesIn, PayloadsFrom, PayloadAt;
    ValuesList(files[i], field);
    var l := FieldListOf(files[i], field);
    forall x ensures x in PayloadsFrom(files[i].objects, l, 0) <==> x in ValuesIn(files[i], field) {
      PayloadsMember(files[i].objects, l, 0, x);
    }
  }

  lemma {:induction false} SeenStep(files: seq<OpenFile>, field: Payload, i: nat, pos: nat)
    requires i < |files| && 0 < pos <= |FieldListOf(files[i], field)| && Built(files[i])
    ensures var x := PayloadAt(files[i].objects, FieldListOf(files[i], field)[pos - 1]);
            && SeenAt(files, field, i, pos - 1) == SeenAt(files, field, i, pos) + {x}
            && (x in SeenAt(files, field, i, pos) <==> x in ValuesBefore(files, i, field))
  {
    hide Built, FieldListOf, PayloadsFrom, PayloadAt;
    ListDistinct(files[i], field);
    var l := FieldListOf(files[i], field);
    PayloadsStep(files[i].objects, l, pos);
    PayloadsMember(files[i].objects, l, pos, PayloadAt(files[i].objects, l[pos - 1]));
  }

  lemma {:induction false} ValuesMember(files: seq<OpenFile>, n: nat, field: Payload, x: Payload)
    requires n <= |files|
    ensures x in ValuesBefore(files, n, field) <==> exists i :: 0 <= i < n && x in ValuesIn(files[i], field)
  {
    if n > 0 {
      ValuesMember(files, n - 1, field, x);
    }
  }

  class UniqueQuery {
    const files: seq<OpenFile>
    var uniqueField: Payload
    var uniqueFile: Option<nat>
    var uniqueOffset: nat

    /** The offset is that of the item last looked at, or 0 at the start of a file's list. */
    ghost predicate Valid()
      reads this
    {
      && AllBuilt(files) && uniqueField != [] && EQUALS !in uniqueField
      && (uniqueFile.Some? ==> uniqueFile.value < |files|)
      && (uniqueFile.Some? && uniqueOffset != 0 ==> uniqueOffset in FieldListOf(files[uniqueFile.value], uniqueField))
    }

    ghost function PositionIn(l: seq<nat>): nat
      reads this
    {
      if uniqueOffset == 0 then |l| else Below(l, uniqueOffset)
    }

    /** How many items of the list of the current file have not been looked at. */
    ghost function Unseen(): nat
      reads this
    {
      if uniqueFile.None? || uniqueFile.value >= |files| then 0 else PositionIn(FieldListOf(files[uniqueFile.value], uniqueField))
    }

    /** The values that have been returned or passed over. */
    ghost function Seen(): set<Payload>
      reads this
    {
      if uniqueFile.None? || uniqueFile.value >= |files| then {}
      else SeenAt(files, uniqueField, uniqueFile.value, PositionIn(FieldListOf(files[uniqueFile.value], uniqueField)))
    }

    constructor (files: seq<OpenFile>, field: Payload)
      requires AllBuilt(files) && field != [] && EQUALS !in field
      ensures Valid() && this.files == files && uniqueField == field && Seen() == {}
    {
      this.files, uniqueField, uniqueFile, uniqueOffset := files, field, None, 0;
    }

    method RestartUnique()
      requires Valid()
      modifies this
      ensures Valid() && uniqueField == old(uniqueField) && Seen() == {}
    {
      uniqueFile, uniqueOffset := None, 0;
    }

    /** Looks the value up in the files before file i. */
    method SeenBefore(i: nat, x: Payload) returns (found: bool)
      requires AllBuilt(files) && i < |files| && FieldName(x) == Some(uniqueField)
      ensures found <==> x in ValuesBefore(files, i, uniqueField)
    {
      hide Built, FieldName, ValuesIn, ValuesBefore;
      found := false;
      var k := 0;
      while k < i
        invariant 0 <= k <= i
        invariant found <==> exists j :: 0 <= j < k && x in ValuesIn(files[j], uniqueField)
      {
        var o := files[k];
        assert Built(o);
        ghost var here := x in ValuesIn(o, uniqueField);
        if o.header.nFields <= 0 {
          NoFields(o, x);
          NoValue(o, uniqueField, x);
        } else {
          var op := LookUp(o, x);
          if op.Some? {
            ValueHere(o, uniqueField, x, op.value);
            found := true;
          } else {
            NoValue(o, uniqueField, x);
          }
        }
        k := k + 1;
      }
      ValuesMember(files, i, uniqueField, x);
    }

    /** Moves to the next data object of the file's list; 0 means there is none. */
    method NextInList() returns (x: Payload)
      requires Valid() && uniqueFile.Some?
      modifies this`uniqueOffset
      ensures Valid()
      ensures uniqueOffset == 0 ==> old(Seen()) == ValuesBefore(files, uniqueFile.value + 1, uniqueField)
      ensures uniqueOffset != 0 ==>
        && FieldName(x) == Some(uniqueField) && x in ValuesIn(files[uniqueFile.value], uniqueField)
        && Seen() == old(Seen()) + {x} && (x in old(Seen()) <==> x in ValuesBefore(files, uniqueFile.value, uniqueField))
        && Unseen() < old(Unseen())
    {
      hide Built, FieldName, ValuesIn, ValuesBefore, SeenAt, FieldListOf, FieldList, IndexOf;
      var i := uniqueFile.value;
      var f := files[i];
      ghost var l := FieldListOf(f, uniqueField);
      ghost var pos := PositionIn(l);
      assert Built(f);
      FieldListMembers(f, uniqueField);
      if uniqueOffset == 0 {
        uniqueOffset := HeadData(f, uniqueField);
      } else {
        ListNext(f, uniqueField, uniqueOffset);
        uniqueOffset := f.objects[uniqueOffset].nextField;
      }
      if uniqueOffset == 0 {
        ListNonzero(f, uniqueField, pos);
        SeenEnd(files, uniqueField, i);
        x := [];
        return;
      }
      ListBelow(f, uniqueField, pos - 1);
      assert l[pos - 1] in l;
      x := f.objects[uniqueOffset].payload;
      // The checks for a corrupted list never fail here.
      NameMeaning(x, uniqueField);
      assert |x| > |uniqueField| && x[..|uniqueField|] == uniqueField && x[|uniqueField|] == EQUALS;
      SeenStep(files, uniqueField, i, pos);
      ValueHere(f, uniqueField, x, uniqueOffset);
    }

    /** The next value that has not been returned yet. */
    method EnumerateUnique() returns (r: Option<Payload>)
      requires Valid()
      modifies this`uniqueFile, this`uniqueOffset
      ensures Valid()
      ensures r.Some? ==> r.value !in old(Seen()) && r.value in ValuesBefore(files, |files|, uniqueField) && Seen() == old(Seen()) + {r.value}
      ensures r.None? ==> old(Seen()) == ValuesBefore(files, |files|, uniqueField)
      ensures r.None? && files != [] ==> uniqueFile == Some(|files| - 1) && uniqueOffset == 0
    {
      hide Built, FieldName, ValuesIn, ValuesBefore, SeenAt, FieldListOf, FieldList, AllBuilt, Below;
      if uniqueFile.None? {
        NoFiles(files, uniqueField);
        if files == [] {
          return None;
        }
        uniqueFile, uniqueOffset := Some(0), 0;
        SeenStart(files, uniqueField, 0);
      }
      while true
        invariant Valid() && uniqueFile.Some? && Seen() == old(Seen())
        decreases |files| - uniqueFile.value, Unseen()
      {
        var i := uniqueFile.value;
        var x := NextInList();
        if uniqueOffset == 0 {
          if i + 1 >= |files| {
            return None;
          }
          uniqueFile := Some(i + 1);
          SeenStart(files, uniqueField, i + 1);
        } else {
          var found := SeenBefore(i, x);
          if !found {
            ValuesMember(files, |files|, uniqueField, x);
            return Some(x);
          }
        }
      }
    }

    /** Enumerates from the start: every value that some file stores, once. */
    method ReadUnique() returns (values: seq<Payload>)
      requires Valid()
      modifies this
      ensures Valid() && uniqueField == old(uniqueField)
      ensures forall x :: x in values <==> x in ValuesBefore(files, |files|, uniqueField)
      ensures forall i, j :: 0 <= i < j < |values| ==> values[i] != values[j]
    {
      hide AllBuilt, ValuesBefore, SeenAt, FieldListOf, FieldName, Below, Valid, Seen;
      values := [];
      RestartUnique();
      ghost var all := ValuesBefore(files, |files|, uniqueField);
      while true
        invariant Valid() && uniqueField == old(uniqueField)
        invariant forall x :: x in values <==> x in Seen()
        invariant Seen() <= all
        invariant forall i, j :: 0 <= i < j < |values| ==> values[i] != values[j]
        decreases |all - Seen()|
      {
        ghost var before := Seen();
        var r := EnumerateUnique();
        if r.None? {
          return;
        }
        assert all - Seen() == all - before - {r.value};
        values := values + [r.value];
      }
    }
  }

  method LookUp(f: OpenFile, x: Payload) returns (r: Option<nat>)
    requires Built(f)
    ensures r.Some? ==> Is(f.objects, r.value, KData) && PayloadAt(f.objects, r.value) == x
    ensures r.None? ==> forall d :: Is(f.objects, d, KData) ==> PayloadAt(f.objects, d) != x
  {
    r := FindDataObject(f.hash64, f.header, f.objects, x, f.view);
  }

  /** Where the list of a field starts. */
  method HeadData(f: OpenFile, field: Payload) returns (head: nat)
    requires Built(f)
    ensures head == LastOr0(FieldListOf(f, field))
  {
    hide Layout, CountsOk, NoSlack, FieldLists, EntriesOk, IndexOk, HashIndex, Select, FieldListOf;
    TableOffsets(f.header, f.objects, f.view.offs);
    FieldTableAt(f.header, f.objects, f.header.fieldHashTableOffset - HASH_TABLE_HEADER);
    var p := FindObjectWithHash(f.objects, KField, f.header.fieldHashTableOffset - HASH_TABLE_HEADER, field, f.hash64(field), f.hash64, f.view.fieldChains);
    if p.Some? {
      FieldHeadAt(f, field, p.value);
      head := f.objects[p.value].headData;
    } else {
      NoFieldObject(f, field);
      head := 0;
    }
  }

  lemma {:induction false} NoFiles(files: seq<OpenFile>, field: Payload)
    ensures ValuesBefore(files, 0, field) == {}
  {
  }

  lemma {:induction false} NoValue(f: OpenFile, field: Payload, x: Payload)
    requires forall d :: Is(f.objects, d, KData) ==> PayloadAt(f.objects, d) != x
    ensures x !in ValuesIn(f, field)
  {
  }

  lemma {:induction false} ValueHere(f: OpenFile, field: Payload, x: Payload, d: nat)
    requires Is(f.objects, d, KData) && PayloadAt(f.objects, d) == x && FieldName(x) == Some(field)
    ensures x in ValuesIn(f, field)
  {
  }

  lemma {:induction false} ListNext(f: OpenFile, field: Payload, d: nat)
    requires Built(f) && d in FieldListOf(f, field)
    ensures Is(f.objects, d, KData)
    ensures var l := FieldListOf(f, field); var k := Below(l, d);
            && k < |l| && l[k] == d && f.objects[d].nextField == if k > 0 then l[k - 1] else 0
  {
    FieldListMembers(f, field);
    hide Built, FieldListOf, FieldName;
    var l := FieldListOf(f, field);
    var k :| 0 <= k < |l| && l[k] == d;
    assert Below(l, d) == k;
    assert NextFieldAt(f.objects, d) == f.objects[d].nextField;
  }

  lemma {:induction false} ListNonzero(f: OpenFile, field: Payload, pos: nat)
    requires Built(f) && pos <= |FieldListOf(f, field)| && (pos > 0 ==> FieldListOf(f, field)[pos - 1] == 0)
    ensures pos == 0
  {
    FieldListMembers(f, field);
    hide Built, FieldListOf, FieldName;
  }

  lemma {:induction false} ListBelow(f: OpenFile, field: Payload, k: nat)
    requires Built(f) && k < |FieldListOf(f, field)|
    ensures Below(FieldListOf(f, field), FieldListOf(f, field)[k]) == k
  {
    FieldListMembers(f, field);
    hide Built, FieldListOf, FieldName;
  }

  lemma {:induction false} NameMeaning(x: Payload, field: Payload)
    requires FieldName(x) == Some(field)
    ensures |x| > |field| && x[..|field|] == field && x[|field|] == EQUALS
  {
  }
}
