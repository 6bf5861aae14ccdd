/** Finding data and field objects by content (lib/journal-file.c). */
module JournalLookup {
  import opened JournalDef
  import opened JournalView

  /** Walks the chain of the bucket selected by `hash`, comparing hash and content. */
  method FindObjectWithHash(objs: Heap, kind: Kind, t: nat, payload: Payload, hash: nat,
                            ghost H: HashFunction, ghost chains: seq<seq<nat>>) returns (r: Option<nat>)
    requires kind == KData || kind == KField
    requires Is(objs, t, if kind == KData then KDataHashTable else KFieldHashTable)
    requires HashIndex(H, objs, kind, TableAt(objs, t), chains)
    requires hash == H(payload)
    ensures r.Some? ==> r.value != 0 && Is(objs, r.value, kind) && PayloadAt(objs, r.value) == payload
    ensures r.None? ==> forall q :: Is(objs, q, kind) ==> PayloadAt(objs, q) != payload
  {
    var table := objs[t].table;
    var b := BucketOf(hash, |table|);
    var p := table[b].head;
    ghost var c := chains[b];
    ghost var i: nat := 0;
    assert BucketChain(objs, kind, |table|, b, table[b], c);
    while p > 0
      invariant i <= |c| && p == if i < |c| then c[i] else 0
      invariant forall j :: 0 <= j < i ==> PayloadAt(objs, c[j]) != payload
      decreases |c| - i
    {
      if objs[p].hash == hash && objs[p].payload == payload {
        return Some(p);
      }
      p := objs[p].nextHash;
      i := i + 1;
    }
    r := None;
    forall q | Is(objs, q, kind) ensures PayloadAt(objs, q) != payload {
      assert q in chains[BucketOf(HashAt(objs, q), |table|)];
    }
  }
}
