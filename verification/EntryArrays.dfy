/** Chains of entry arrays (lib/journal-file.c): linked arrays that together store
    one list of offsets, with spare capacity only at the end of the last array. */
module EntryArrays {
  import opened JournalDef

  predicate IsArray(objs: Heap, a: nat) {
    a in objs && objs[a].EntryArray?
  }

  function Slots(objs: Heap, a: nat): seq<nat> {
    if IsArray(objs, a) then objs[a].slots else []
  }

  function NextArray(objs: Heap, a: nat): nat {
    if IsArray(objs, a) then objs[a].next else 0
  }

  /** The slots of the arrays of `chain`, one after the other. */
  function Flat(objs: Heap, chain: seq<nat>): seq<nat> {
    if chain == [] then [] else Flat(objs, chain[..|chain| - 1]) + Slots(objs, chain[|chain| - 1])
  }

  /** `path` follows the next pointers from `first`; it need not reach the end. */
  ghost predicate Path(objs: Heap, first: nat, path: seq<nat>) {
    && (|path| > 0 ==> path[0] == first)
    && (forall j :: 0 <= j < |path| ==> path[j] != 0 && IsArray(objs, path[j]) && |objs[path[j]].slots| > 0)
    && (forall j, k :: 0 <= j && k == j + 1 && k < |path| ==> objs[path[j]].next == path[k])
  }

  ghost predicate Chain(objs: Heap, first: nat, chain: seq<nat>) {
    && Path(objs, first, chain)
    && Increasing(chain)
    && (|chain| == 0 ==> first == 0)
    && (|chain| > 0 ==> NextArray(objs, chain[|chain| - 1]) == 0)
  }

  /** The capacity given to an array added after `total` full slots, the last `last` of them in one array. */
  function NewCapacity(total: nat, last: nat): (n: nat)
    ensures n >= 4
  {
    var n := if total > last then (total + 1) * 2 else last * 2;
    if n < 4 then 4 else n
  }

  function LastCapacity(objs: Heap, chain: seq<nat>): nat {
    if chain == [] then 0 else |Slots(objs, chain[|chain| - 1])|
  }

  predicate GrownAt(objs: Heap, chain: seq<nat>, j: nat)
    requires j < |chain|
  {
    |Slots(objs, chain[j])| == NewCapacity(|Flat(objs, chain[..j])|, LastCapacity(objs, chain[..j]))
  }

  ghost predicate Grown(objs: Heap, chain: seq<nat>) {
    forall j :: 0 <= j < |chain| ==> GrownAt(objs, chain, j)
  }

  /** The chain starting at `first` stores exactly `list`. */
  ghost predicate Holds(objs: Heap, first: nat, chain: seq<nat>, list: seq<nat>) {
    && Chain(objs, first, chain)
    && Grown(objs, chain)
    && list <= Flat(objs, chain)
    && (forall i :: |list| <= i < |Flat(objs, chain)| ==> Flat(objs, chain)[i] == 0)
    && (chain != [] ==> |Flat(objs, chain[..|chain| - 1])| < |list|)
  }

  lemma {:induction false} FlatFrame(objs: Heap, objs': Heap, chain: seq<nat>)
    requires forall a :: a in chain ==> Slots(objs', a) == Slots(objs, a)
    ensures Flat(objs', chain) == Flat(objs, chain)
  {
    if chain != [] {
      FlatFrame(objs, objs', chain[..|chain| - 1]);
    }
  }

  lemma {:induction false} FlatAt(objs: Heap, chain: seq<nat>, j: nat)
    requires j < |chain|
    ensures |Flat(objs, chain[..j])| + |Slots(objs, chain[j])| <= |Flat(objs, chain)|
    ensures Flat(objs, chain[..j]) + Slots(objs, chain[j]) == Flat(objs, chain[..j + 1])
    ensures Flat(objs, chain[..j + 1]) <= Flat(objs, chain)
    ensures forall i :: 0 <= i < |Slots(objs, chain[j])| ==>
              Flat(objs, chain)[|Flat(objs, chain[..j])| + i] == Slots(objs, chain[j])[i]
  {
    assert chain[..j + 1][..j] == chain[..j];
    if j + 1 == |chain| {
      assert chain[..j + 1] == chain;
    } else {
      var front := chain[..|chain| - 1];
      FlatAt(objs, front, j);
      assert front[..j] == chain[..j] && front[..j + 1] == chain[..j + 1];
    }
  }

  lemma {:induction false} GrownFrame(objs: Heap, objs': Heap, chain: seq<nat>, chain': seq<nat>)
    requires Grown(objs, chain) && chain <= chain'
    requires forall a :: a in chain ==> |Slots(objs', a)| == |Slots(objs, a)|
    requires forall j :: 0 <= j <= |chain| ==> |Flat(objs', chain[..j])| == |Flat(objs, chain[..j])|
    requires |chain'| <= |chain| + 1
    requires |chain'| == |chain| + 1 ==> GrownAt(objs', chain', |chain|)
    ensures Grown(objs', chain')
  {
    hide Flat, Slots, NewCapacity;
    forall j | 0 <= j < |chain'| ensures GrownAt(objs', chain', j) {
      if j < |chain| {
        assert GrownAt(objs, chain, j);
        assert chain'[..j] == chain[..j] && chain'[j] == chain[j] && chain[j] in chain;
        assert j > 0 ==> chain[..j][j - 1] == chain[j - 1] && chain[j - 1] in chain;
      }
    }
  }

  /** Writing into the first free slot of the last array appends one item. */
  lemma {:induction false} StoreInLast(objs: Heap, objs': Heap, first: nat, chain: seq<nat>, list: seq<nat>, p: nat)
    requires Holds(objs, first, chain, list) && |list| < |Flat(objs, chain)|
    requires var a := chain[|chain| - 1]; var i := |list| - |Flat(objs, chain[..|chain| - 1])|;
             objs' == objs[a := objs[a].(slots := objs[a].slots[i := p])]
    ensures Holds(objs', first, chain, list + [p])
  {
    var m := |chain| - 1;
    var a := chain[m];
    forall j | 0 <= j <= m ensures Flat(objs', chain[..j]) == Flat(objs, chain[..j]) {
      FlatFrame(objs, objs', chain[..j]);
    }
    var i := |list| - |Flat(objs, chain[..m])|;
    assert Flat(objs', chain) == Flat(objs, chain)[|list| := p];
    assert chain[..|chain|] == chain;
    GrownFrame(objs, objs', chain, chain);
    assert Path(objs', first, chain);
    assert (list + [p])[..|list|] == list;
  }

  function Extended(objs: Heap, chain: seq<nat>, q: nat, o: Object): Heap {
    if chain != [] && IsArray(objs, chain[|chain| - 1])
    then objs[q := o][chain[|chain| - 1] := objs[chain[|chain| - 1]].(next := q)]
    else objs[q := o]
  }

  lemma {:induction false} FlatFrames(objs: Heap, objs': Heap, chain: seq<nat>)
    requires forall a :: a in chain ==> Slots(objs', a) == Slots(objs, a)
    ensures forall j :: 0 <= j <= |chain| ==> Flat(objs', chain[..j]) == Flat(objs, chain[..j])
  {
    forall j | 0 <= j <= |chain| ensures Flat(objs', chain[..j]) == Flat(objs, chain[..j]) {
      FlatFrame(objs, objs', chain[..j]);
    }
  }

  lemma {:induction false} ChainExtended(objs: Heap, first: nat, chain: seq<nat>, q: nat, o: Object)
    requires Chain(objs, first, chain)
    requires q != 0 && q !in objs && forall j :: 0 <= j < |chain| ==> chain[j] < q
    requires o.EntryArray? && o.next == 0 && o.slots != []
    ensures Chain(Extended(objs, chain, q, o), if chain == [] then q else first, chain + [q])
  {
    var objs' := Extended(objs, chain, q, o);
    var chain' := chain + [q];
    assert forall a :: a in chain ==> a in objs;
    forall j, k | 0 <= j && k == j + 1 && k < |chain'| ensures objs'[chain'[j]].next == chain'[k] {
      if k < |chain| {
        assert objs[chain[j]].next == chain[k];
        assert chain[j] != chain[|chain| - 1];
      }
    }
  }

  lemma {:induction false} FlatExtended(objs: Heap, chain: seq<nat>, q: nat, o: Object)
    requires forall j :: 0 <= j < |chain| ==> IsArray(objs, chain[j]) && chain[j] < q
    requires o.EntryArray? && q !in objs
    ensures var objs' := Extended(objs, chain, q, o);
            && (forall a :: a in chain ==> Slots(objs', a) == Slots(objs, a))
            && (forall j :: 0 <= j <= |chain| ==> Flat(objs', chain[..j]) == Flat(objs, chain[..j]))
            && Flat(objs', chain) == Flat(objs, chain)
            && Flat(objs', chain + [q]) == Flat(objs, chain) + o.slots
            && LastCapacity(objs', chain) == LastCapacity(objs, chain)
            && Slots(objs', q) == o.slots
  {
    var objs' := Extended(objs, chain, q, o);
    assert forall a :: a in chain ==> a in objs && a != q && Slots(objs', a) == Slots(objs, a);
    FlatFrames(objs, objs', chain);
    assert chain[..|chain|] == chain && (chain + [q])[..|chain|] == chain;
  }

  lemma {:induction false} HoldsOneMore(objs: Heap, first: nat, chain: seq<nat>, list: seq<nat>, p: nat, slots: seq<nat>)
    requires Chain(objs, first, chain) && Grown(objs, chain) && chain != []
    requires Flat(objs, chain[..|chain| - 1]) == list
    requires Flat(objs, chain) == list + slots
    requires slots != [] && slots[0] == p && forall i :: 1 <= i < |slots| ==> slots[i] == 0
    ensures Holds(objs, first, chain, list + [p])
  {
    var flat := list + slots;
    assert flat[..|list| + 1] == list + [p];
    assert forall i :: |list| + 1 <= i < |flat| ==> flat[i] == 0;
  }

  lemma {:induction false} GrownExtended(objs: Heap, chain: seq<nat>, q: nat, o: Object)
    requires Grown(objs, chain)
    requires forall j :: 0 <= j < |chain| ==> IsArray(objs, chain[j]) && chain[j] < q
    requires o.EntryArray? && q !in objs
    requires |o.slots| == NewCapacity(|Flat(objs, chain)|, LastCapacity(objs, chain))
    ensures Grown(Extended(objs, chain, q, o), chain + [q])
  {
    FlatExtended(objs, chain, q, o);
    assert (chain + [q])[..|chain|] == chain;
    GrownFrame(objs, Extended(objs, chain, q, o), chain, chain + [q]);
  }

  /** A full chain grows by one array whose first slot takes the item. */
  lemma {:induction false} StoreInNew(objs: Heap, first: nat, chain: seq<nat>, list: seq<nat>, p: nat, q: nat, o: Object)
    requires Holds(objs, first, chain, list) && |list| == |Flat(objs, chain)|
    requires q != 0 && q !in objs && forall j :: 0 <= j < |chain| ==> chain[j] < q
    requires o.EntryArray? && o.next == 0 && |o.slots| == NewCapacity(|list|, LastCapacity(objs, chain))
    requires o.slots[0] == p && forall i :: 1 <= i < |o.slots| ==> o.slots[i] == 0
    ensures Holds(Extended(objs, chain, q, o), if chain == [] then q else first, chain + [q], list + [p])
  {
    assert Flat(objs, chain) == list;
    ChainExtended(objs, first, chain, q, o);
    FlatExtended(objs, chain, q, o);
    GrownExtended(objs, chain, q, o);
    assert (chain + [q])[..|chain + [q]| - 1] == chain;
    HoldsOneMore(Extended(objs, chain, q, o), if chain == [] then q else first, chain + [q], list, p, o.slots);
  }

  /** A chain is untouched by changes to objects outside it. */
  lemma {:induction false} HoldsFrame(objs: Heap, objs': Heap, first: nat, chain: seq<nat>, list: seq<nat>)
    requires Holds(objs, first, chain, list)
    requires forall a :: a in chain ==> a in objs' && objs'[a] == objs[a]
    ensures Holds(objs', first, chain, list)
  {
    assert Path(objs', first, chain);
    FlatFrames(objs, objs', chain);
    GrownFrame(objs, objs', chain, chain);
    assert chain[..|chain|] == chain;
  }

  function Pow3(k: nat): (r: nat)
    ensures r >= 1
  {
    if k == 0 then 1 else 3 * Pow3(k - 1)
  }

  lemma {:induction false} GrownFront(objs: Heap, chain: seq<nat>)
    requires Grown(objs, chain) && chain != []
    ensures Grown(objs, chain[..|chain| - 1])
  {
    var front := chain[..|chain| - 1];
    forall j | 0 <= j < |front| ensures GrownAt(objs, front, j) {
      assert GrownAt(objs, chain, j);
      assert front[..j] == chain[..j];
    }
  }

  /** Capacity triples with every array, and never exceeds three times the need. */
  lemma {:induction false} CapacityBounds(objs: Heap, chain: seq<nat>)
    requires Grown(objs, chain) && chain != []
    ensures |Flat(objs, chain)| >= 4 * Pow3(|chain| - 1)
    ensures |Flat(objs, chain)| <= if |chain| == 1 then 4 else 3 * |Flat(objs, chain[..|chain| - 1])| + 2
  {
    var front := chain[..|chain| - 1];
    var m := |front|;
    assert GrownAt(objs, chain, m);
    if m > 0 {
      GrownFront(objs, chain);
      CapacityBounds(objs, front);
      if m >= 2 {
        GrownFront(objs, front);
        CapacityBounds(objs, front[..m - 1]);
      } else {
        assert front[..0] == [];
        assert GrownAt(objs, front, 0);
      }
    }
  }

  /** n items occupy at most max(4, 3n - 1) slots, in a number of arrays logarithmic in n. */
  lemma {:induction false} ChainGrowth(objs: Heap, first: nat, chain: seq<nat>, list: seq<nat>)
    requires Holds(objs, first, chain, list) && list != []
    ensures |Flat(objs, chain)| <= if 3 * |list| - 1 < 4 then 4 else 3 * |list| - 1
    ensures |chain| >= 1
    ensures |chain| >= 2 ==> |list| > 4 * Pow3(|chain| - 2)
  {
    CapacityBounds(objs, chain);
    if |chain| >= 2 {
      GrownFront(objs, chain);
      CapacityBounds(objs, chain[..|chain| - 1]);
    }
  }
}
