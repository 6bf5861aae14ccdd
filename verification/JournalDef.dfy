/** The on-disk format (lib/journal-def.h, lib/journal-file.h): typed objects at
    8-aligned offsets, and the file header. Offsets, counters and hashes are
    natural numbers; a file is the header plus what each offset parses to. */
module JournalDef {

  type Byte = x: int | 0 <= x < 256

  type Payload = seq<Byte>

  type HashFunction = Payload -> nat

  const EQUALS: Byte := 61

  const UNDERSCORE: Byte := 95

  const U64: nat := 0x1_0000_0000_0000_0000

  const HASH_TABLE_HEADER: nat := 16

  datatype Option<+T> = None | Some(value: T)

  datatype EntryItem = EntryItem(objectOffset: nat, hash: nat)

  datatype HashItem = HashItem(head: nat, tail: nat)

  /** `slack` counts the bytes of an object beyond its last whole item. */
  datatype Object =
    | DataObject(hash: nat, nextHash: nat, payload: Payload,
                 nextField: nat, entryOffset: nat, entryArrayOffset: nat, nEntries: nat)
    | FieldObject(hash: nat, nextHash: nat, payload: Payload, headData: nat)
    | EntryObject(seqnum: nat, realtime: nat, monotonic: nat, bootId: nat, xorHash: nat,
                  items: seq<EntryItem>, slack: nat)
    | DataHashTable(table: seq<HashItem>, slack: nat)
    | FieldHashTable(table: seq<HashItem>, slack: nat)
    | EntryArray(next: nat, slots: seq<nat>, slack: nat)
    | OtherObject(extra: nat)

  function Size(o: Object): (s: nat)
    ensures s >= 16
  {
    match o
    case DataObject(_, _, payload, _, _, _, _) => 64 + |payload|
    case FieldObject(_, _, payload, _) => 40 + |payload|
    case EntryObject(_, _, _, _, _, items, slack) => 64 + 16 * |items| + slack
    case DataHashTable(table, slack) => HASH_TABLE_HEADER + 16 * |table| + slack
    case FieldHashTable(table, slack) => HASH_TABLE_HEADER + 16 * |table| + slack
    case EntryArray(_, slots, slack) => 24 + 8 * |slots| + slack
    case OtherObject(extra) => 16 + extra
  }

  function Align64(x: nat): (r: nat)
    ensures x <= r < x + 8
    ensures r % 8 == 0
  {
    (x + 7) / 8 * 8
  }

  predicate Valid64(x: nat) {
    x % 8 == 0
  }

  datatype Header = Header(
    headerSize: nat, arenaSize: nat,
    compatibleFlags: nat, reservedIsZero: bool, bootId: nat,
    dataHashTableOffset: nat, dataHashTableSize: nat,
    fieldHashTableOffset: nat, fieldHashTableSize: nat,
    tailObjectOffset: nat, nObjects: nat, nEntries: nat,
    tailEntrySeqnum: nat, headEntrySeqnum: nat, entryArrayOffset: nat,
    headEntryRealtime: nat, tailEntryRealtime: nat, tailEntryMonotonic: nat,
    nData: nat, nFields: nat, nEntryArrays: nat)

  type Heap = map<nat, Object>

  datatype File = File(header: Header, objects: Heap)

  predicate Increasing(s: seq<nat>) {
    forall i, j :: 0 <= i < j < |s| ==> s[i] < s[j]
  }

  const TIMESTAMP_LIMIT: nat := 0x80_0000_0000_0000

  predicate ValidRealtime(u: nat) {
    0 < u < TIMESTAMP_LIMIT
  }

  predicate ValidMonotonic(u: nat) {
    u < TIMESTAMP_LIMIT
  }
}
