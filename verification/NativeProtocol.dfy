/** The native protocol: what sd_journal_sendv (lib/journal-send.c) puts on the wire and
    what server_process_native_message (src/core/journald-native.c) takes off it. */
module NativeProtocol {
  import opened JournalDef
  import opened JournalView

  const NEWLINE: Byte := 10
  const DOT: Byte := 46
  const HASH: Byte := 35
  const DATA_SIZE_MAX: nat := 768 * 1024 * 1024
  const ENTRY_SIZE_MAX: nat := 770 * 1024 * 1024
  // "SYSLOG_IDENTIFIER"
  const SYSLOG_IDENTIFIER: Payload := [83, 89, 83, 76, 79, 71, 95, 73, 68, 69, 78, 84, 73, 70, 73, 69, 82]
  // "_TRANSPORT=journal"
  const TRANSPORT: Payload := [95, 84, 82, 65, 78, 83, 80, 79, 82, 84, 61, 106, 111, 117, 114, 110, 97, 108]

  // ---------- lengths in little-endian order ----------

  function LittleEndian(x: nat, n: nat): (s: Payload)
    ensures |s| == n
  {
    if n == 0 then [] else [x % 256] + LittleEndian(x / 256, n - 1)
  }

  function FromLittleEndian(s: Payload): nat {
    if s == [] then 0 else s[0] + 256 * FromLittleEndian(s[1..])
  }

  function Pow256(n: nat): nat {
    if n == 0 then 1 else 256 * Pow256(n - 1)
  }

  lemma {:induction false} LittleEndianBack(x: nat, n: nat)
    requires x < Pow256(n)
    ensures FromLittleEndian(LittleEndian(x, n)) == x
  {
    if n > 0 {
      LittleEndianBack(x / 256, n - 1);
      assert LittleEndian(x, n)[1..] == LittleEndian(x / 256, n - 1);
    }
  }

  lemma {:induction false} Pow256Eight()
    ensures Pow256(8) == U64
  {
    assert Pow256(2) == 65536;
    assert Pow256(4) == 65536 * 65536;
  }

  // ---------- the sender ----------

  /** What the sender accepts: at least two bytes, a name before the first '=', and no newline in the name. */
  predicate Sendable(f: Payload) {
    var c, nl := IndexOf(f, EQUALS), IndexOf(f, NEWLINE);
    |f| > 1 && 0 < c < |f| && (nl < |f| ==> nl >= c)
  }

  function NameOf(f: Payload): Payload {
    f[..IndexOf(f, EQUALS)]
  }

  function ValueOf(f: Payload): Payload {
    if IndexOf(f, EQUALS) < |f| then f[IndexOf(f, EQUALS) + 1..] else []
  }

  /** A line of text, or for a field with a newline its name, the length of its value, and the value. */
  function Encoded(f: Payload): Payload {
    if NEWLINE in f then NameOf(f) + [NEWLINE] + LittleEndian(|ValueOf(f)| % U64, 8) + ValueOf(f) + [NEWLINE]
    else f + [NEWLINE]
  }

  function Wire(fields: seq<Payload>): Payload {
    if fields == [] then [] else Wire(fields[..|fields| - 1]) + Encoded(fields[|fields| - 1])
  }

  function Joined(w: seq<Payload>): Payload {
    if w == [] then [] else Joined(w[..|w| - 1]) + w[|w| - 1]
  }

  /** The fields with the implicit SYSLOG_IDENTIFIER if there is none. */
  function WithIdentifier(fields: seq<Payload>, program: Payload): seq<Payload> {
    if exists i :: 0 <= i < |fields| && NameOf(fields[i]) == SYSLOG_IDENTIFIER then fields
    else fields + [SYSLOG_IDENTIFIER + [EQUALS] + program]
  }

  /** The bytes sent: the identifier is always sent as a line. */
  function Sent(fields: seq<Payload>, program: Payload): Payload {
    if exists i :: 0 <= i < |fields| && NameOf(fields[i]) == SYSLOG_IDENTIFIER then Wire(fields)
    else Wire(fields) + SYSLOG_IDENTIFIER + [EQUALS] + program + [NEWLINE]
  }

  lemma {:induction false} JoinedMore(w: seq<Payload>, x: Payload)
    ensures Joined(w + [x]) == Joined(w) + x
  {
    assert (w + [x])[..|w|] == w;
  }

  lemma {:induction false} NewlineAt(f: Payload)
    ensures NEWLINE in f <==> IndexOf(f, NEWLINE) < |f|
  {
    if NEWLINE in f {
      var i :| 0 <= i < |f| && f[i] == NEWLINE;
    }
  }

  lemma {:induction false} JoinedFour(w: seq<Payload>, a: Payload, b: Payload, c: Payload, d: Payload)
    ensures Joined(w + [a] + [b] + [c] + [d]) == Joined(w) + (a + b + c + d)
  {
    JoinedMore(w, a);
    JoinedMore(w + [a], b);
    JoinedMore(w + [a] + [b], c);
    JoinedMore(w + [a] + [b] + [c], d);
  }

  /** Collects the vectors of a field that contains a newline: its name, the length of its value, the value. */
  method SendBlock(w: seq<Payload>, f: Payload, c: nat) returns (w': seq<Payload>)
    requires c < |f|
    ensures Joined(w') == Joined(w) + (f[..c] + [NEWLINE] + LittleEndian((|f| - c - 1) % U64, 8) + f[c + 1..])
  {
    hide Joined, LittleEndian;
    var l := LittleEndian((|f| - c - 1) % U64, 8);
    w' := w + [f[..c]];
    w' := w' + [[NEWLINE]];
    w' := w' + [l];
    w' := w' + [f[c + 1..]];
    JoinedFour(w, f[..c], [NEWLINE], l, f[c + 1..]);
  }

  /** Collects the vectors of one field. */
  method SendField(w: seq<Payload>, f: Payload) returns (w': seq<Payload>)
    requires Sendable(f)
    ensures Joined(w') == Joined(w) + Encoded(f)
  {
    hide Joined, LittleEndian, IndexOf;
    NewlineAt(f);
    var c := IndexOf(f, EQUALS);
    var nl := IndexOf(f, NEWLINE);
    ghost var x: Payload := f;
    if nl < |f| {
      w' := SendBlock(w, f, c);
      x := f[..c] + [NEWLINE] + LittleEndian((|f| - c - 1) % U64, 8) + f[c + 1..];
    } else {
      w' := w + [f];
      JoinedMore(w, f);
    }
    assert Encoded(f) == x + [NEWLINE];
    JoinedMore(w', [NEWLINE]);
    w' := w' + [[NEWLINE]];
    hide Encoded;
    assert (Joined(w) + x) + [NEWLINE] == Joined(w) + (x + [NEWLINE]);
  }

  /** Whether the sender takes the field, and whether it is the identifier. */
  method Accepts(f: Payload) returns (ok: bool, identifier: bool)
    ensures ok <==> Sendable(f)
    ensures ok ==> (identifier <==> NameOf(f) == SYSLOG_IDENTIFIER)
  {
    hide IndexOf;
    if |f| <= 1 {
      return false, false;
    }
    var c := IndexOf(f, EQUALS);
    if c >= |f| || c == 0 {
      return false, false;
    }
    identifier := c == 17 && f[..17] == SYSLOG_IDENTIFIER;
    var nl := IndexOf(f, NEWLINE);
    ok := !(nl < |f| && nl < c);
  }

  /** Puts the fields into one message; None if a field is not acceptable. */
  method Sendv(fields: seq<Payload>, program: Payload) returns (r: Option<seq<Payload>>)
    ensures r.None? <==> fields == [] || exists i :: 0 <= i < |fields| && !Sendable(fields[i])
    ensures r.Some? ==> Joined(r.value) == Sent(fields, program)
  {
    hide Joined, Encoded, LittleEndian, Sendable, NameOf;
    if |fields| == 0 {
      return None;
    }
    var w: seq<Payload> := [];
    var haveIdentifier := false;
    EmptyWire();
    var i := 0;
    while i < |fields|
      invariant 0 <= i <= |fields|
      invariant forall k :: 0 <= k < i ==> Sendable(fields[k])
      invariant haveIdentifier <==> exists k :: 0 <= k < i && NameOf(fields[k]) == SYSLOG_IDENTIFIER
      invariant Joined(w) == Wire(fields[..i])
    {
      var ok, identifier := Accepts(fields[i]);
      if !ok {
        return None;
      }
      haveIdentifier := haveIdentifier || identifier;
      w := SendField(w, fields[i]);
      assert fields[..i + 1][..i] == fields[..i];
      i := i + 1;
    }
    assert fields[..|fields|] == fields;
    if !haveIdentifier {
      JoinedThree(w, SYSLOG_IDENTIFIER + [EQUALS], program, [NEWLINE]);
      w := w + [SYSLOG_IDENTIFIER + [EQUALS]] + [program] + [[NEWLINE]];
    }
    r := Some(w);
  }

  lemma {:induction false} JoinedThree(w: seq<Payload>, a: Payload, b: Payload, c: Payload)
    ensures Joined(w + [a] + [b] + [c]) == Joined(w) + a + b + c
  {
    hide Joined;
    JoinedMore(w, a);
    JoinedMore(w + [a], b);
    JoinedMore(w + [a] + [b], c);
  }

  lemma {:induction false} EmptyWire()
    ensures Joined([]) == [] && Wire([]) == []
  {
  }

  // ---------- the receiver ----------

  predicate IsUpper(c: Byte) { 65 <= c <= 90 }

  predicate IsNumeral(c: Byte) { 48 <= c <= 57 }

  /** A name of at most 64 capital letters, digits and underscores that starts with a letter. */
  predicate ValidName(p: Payload) {
    && 0 < |p| <= 64 && p[0] != UNDERSCORE && !IsNumeral(p[0])
    && forall i :: 0 <= i < |p| ==> IsUpper(p[i]) || IsNumeral(p[i]) || p[i] == UNDERSCORE
  }

  method ValidUserField(p: Payload) returns (r: bool)
    ensures r <==> ValidName(p)
  {
    if |p| <= 0 {
      return false;
    }
    if |p| > 64 {
      return false;
    }
    if p[0] == UNDERSCORE {
      return false;
    }
    if 48 <= p[0] <= 57 {
      return false;
    }
    var a := 0;
    while a < |p|
      invariant 0 <= a <= |p|
      invariant forall i :: 0 <= i < a ==> IsUpper(p[i]) || IsNumeral(p[i]) || p[i] == UNDERSCORE
    {
      if !(65 <= p[a] <= 90) && !(48 <= p[a] <= 57) && p[a] != UNDERSCORE {
        return false;
      }
      a := a + 1;
    }
    r := true;
  }

  function TotalSize(fields: seq<Payload>): nat {
    if fields == [] then 0 else TotalSize(fields[..|fields| - 1]) + |fields[|fields| - 1]|
  }

  /** The entries that were closed by an empty line, and the fields of the last one. */
  datatype Message = Message(entries: seq<seq<Payload>>, fields: seq<Payload>) | Stuck

  function Keep(fields: seq<Payload>, name: Payload, f: Payload): seq<Payload> {
    if ValidName(name) then fields + [f] else fields
  }

  /** One turn of the receiver's loop: the end, no progress, or the rest of the buffer with what was collected. */
  datatype Step = End | NoProgress | Next(rest: Payload, fields: seq<Payload>, entries: seq<seq<Payload>>)

  function ReceiveStep(s: Payload, fields: seq<Payload>, entries: seq<seq<Payload>>): (t: Step)
    ensures t.Next? ==> |t.rest| < |s|
  {
    var e := IndexOf(s, NEWLINE);
    if e == |s| then End
    else if e == 0 then
      if TotalSize(fields) + |fields| + 1 > ENTRY_SIZE_MAX then NoProgress
      else Next(s[1..], [], entries + [fields])
    else if s[0] == DOT || s[0] == HASH then Next(s[e + 1..], fields, entries)
    else
      var q := IndexOf(s[..e], EQUALS);
      if q < e then Next(s[e + 1..], Keep(fields, s[..q], s[..e]), entries)
      else if |s| < e + 1 + 8 + 1 then End
      else
        var l := FromLittleEndian(s[e + 1..e + 9]);
        if l > DATA_SIZE_MAX || |s| < e + 1 + 8 + l + 1 || s[e + 9 + l] != NEWLINE then End
        else Next(s[e + 9 + l + 1..], Keep(fields, s[..e], s[..e] + [EQUALS] + s[e + 9..e + 9 + l]), entries)
  }

  /** What the rest of the buffer adds to the fields collected so far. */
  function Received(s: Payload, fields: seq<Payload>, entries: seq<seq<Payload>>): Message
    decreases |s|
  {
    match ReceiveStep(s, fields, entries)
    case End => Message(entries, fields)
    case NoProgress => Stuck
    case Next(rest, fields', entries') => Received(rest, fields', entries')
  }

  /** A property follows: a line NAME=value, or a name, a length and a value. */
  method ReceiveProperty(p: Payload, e: nat, ghost fields: seq<Payload>, ghost entries: seq<seq<Payload>>)
    returns (stop: bool, rest: Payload, field: Option<Payload>)
    requires e == IndexOf(p, NEWLINE) && 0 < e < |p| && p[0] != DOT && p[0] != HASH
    ensures ReceiveStep(p, fields, entries) ==
            if stop then End else Next(rest, if field.Some? then fields + [field.value] else fields, entries)
  {
    hide ValidName, FromLittleEndian, TotalSize;
    var q := IndexOf(p[..e], EQUALS);
    if q < e {
      var valid := ValidUserField(p[..q]);
      return false, p[e + 1..], if valid then Some(p[..e]) else None;
    }
    if |p| < e + 1 + 8 + 1 {
      return true, [], None;
    }
    var l := FromLittleEndian(p[e + 1..e + 9]);
    if l > DATA_SIZE_MAX {
      return true, [], None;
    }
    if |p| < e + 1 + 8 + l + 1 || p[e + 9 + l] != NEWLINE {
      return true, [], None;
    }
    var k := p[..e] + [EQUALS] + p[e + 9..e + 9 + l];
    var valid := ValidUserField(p[..e]);
    return false, p[e + 9 + l + 1..], if valid then Some(k) else None;
  }

  /** What is dispatched: nothing if no field is left or the entry got too big. */
  function Dispatched(fields: seq<Payload>): Option<seq<Payload>> {
    if fields == [] || TotalSize(fields) + |TRANSPORT| + |fields| + 2 > ENTRY_SIZE_MAX then None
    else Some(fields + [TRANSPORT])
  }

  /** Takes a message apart, and says what is dispatched at its end. */
  method ProcessNativeMessage(buffer: Payload) returns (r: Message, dispatched: Option<seq<Payload>>)
    ensures r == Received(buffer, [], []) && dispatched == if r.Message? then Dispatched(r.fields) else None
  {
    hide Keep, FromLittleEndian;
    dispatched := None;
    var entrySize := 0;
    var p := buffer;
    var fields: seq<Payload> := [];
    var entries: seq<seq<Payload>> := [];
    while |p| > 0
      invariant Received(p, fields, entries) == Received(buffer, [], []) && entrySize == TotalSize(fields)
      decreases |p|
    {
      var e := IndexOf(p, NEWLINE);
      if e == |p| {
        break;
      }
      if e == 0 {
        if entrySize + |fields| + 1 > ENTRY_SIZE_MAX {
          // The position does not advance, so the loop goes round for ever.
          r := Stuck;
          return;
        }
        entries := entries + [fields];
        fields := [];
        entrySize := 0;
        p := p[1..];
      } else if p[0] == DOT || p[0] == HASH {
        p := p[e + 1..];
      } else {
        var stop, rest, field := ReceiveProperty(p, e, fields, entries);
        if stop {
          break;
        }
        if field.Some? {
          TotalMore(fields, field.value);
          fields := fields + [field.value];
          entrySize := entrySize + |field.value|;
        }
        p := rest;
      }
    }
    r := Message(entries, fields);
    if |fields| <= 0 {
      return;
    }
    entrySize := entrySize + |TRANSPORT|;
    if entrySize + (|fields| + 1) + 1 > ENTRY_SIZE_MAX {
      return;
    }
    dispatched := Some(fields + [TRANSPORT]);
  }

  lemma {:induction false} TotalMore(fields: seq<Payload>, f: Payload)
    ensures TotalSize(fields + [f]) == TotalSize(fields) + |f|
  {
    assert (fields + [f])[..|fields|] == fields;
  }

  // ---------- the round trip ----------

  lemma {:induction false} IndexAt(s: Payload, c: Byte, i: nat)
    requires i < |s| && s[i] == c && forall j :: 0 <= j < i ==> s[j] != c
    ensures IndexOf(s, c) == i
  {
  }

  lemma {:induction false} IndexNowhere(s: Payload, c: Byte)
    requires forall j :: 0 <= j < |s| ==> s[j] != c
    ensures IndexOf(s, c) == |s|
  {
  }

  /** What the receiver leaves of these bytes if it takes something off their front and keeps nothing of it, whatever
      comes behind them: a comment, or a line or a complete block whose name is not valid. */
  function SkipOne(s: Payload): (r: Option<Payload>)
    ensures r.Some? ==> |r.value| < |s| && (r.value != [] ==> r.value[|r.value| - 1] == s[|s| - 1])
  {
    var e := IndexOf(s, NEWLINE);
    if e == |s| || e == 0 then None
    else if s[0] == DOT || s[0] == HASH then Some(s[e + 1..])
    else
      var q := IndexOf(s[..e], EQUALS);
      if q < e then if ValidName(s[..q]) then None else Some(s[e + 1..])
      else if |s| < e + 10 then None
      else
        var l := FromLittleEndian(s[e + 1..e + 9]);
        if |s| < e + 10 + l || l > DATA_SIZE_MAX || s[e + 9 + l] != NEWLINE || ValidName(s[..e]) then None
        else Some(s[e + 10 + l..])
  }

  /** The receiver takes all of these bytes and keeps nothing. */
  predicate Skips(s: Payload)
    decreases |s|
  {
    s == [] || (SkipOne(s).Some? && Skips(SkipOne(s).value))
  }

  /** What follows the name of a field in binary form. */
  function Behind(f: Payload): Payload {
    LittleEndian(|ValueOf(f)| % U64, 8) + ValueOf(f) + [NEWLINE]
  }

  /** The fields the receiver can tell apart: not too long in binary form, and if a comment, nothing is left of it
      behind its first line. */
  predicate Readable(f: Payload) {
    && Sendable(f)
    && (NEWLINE in f ==> if f[0] == DOT || f[0] == HASH then Skips(Behind(f)) else |ValueOf(f)| <= DATA_SIZE_MAX)
  }

  /** Comments and control lines have no valid name. */
  lemma {:induction false} CommentName(f: Payload)
    requires Sendable(f) && (f[0] == DOT || f[0] == HASH)
    ensures !ValidName(NameOf(f))
  {
    assert NameOf(f)[0] == f[0];
  }

  lemma {:induction false} LineShape(f: Payload, rest: Payload)
    requires NEWLINE !in f
    ensures var s := f + [NEWLINE] + rest;
            && IndexOf(s, NEWLINE) == |f| < |s| && s[..|f|] == f && s[|f| + 1..] == rest && (f != [] ==> s[0] == f[0])
  {
    var s := f + [NEWLINE] + rest;
    IndexAt(s, NEWLINE, |f|);
  }

  lemma {:induction false} ReceiveLine(f: Payload, rest: Payload, fields: seq<Payload>, entries: seq<seq<Payload>>)
    requires Sendable(f) && NEWLINE !in f
    ensures ReceiveStep(f + [NEWLINE] + rest, fields, entries) == Next(rest, Keep(fields, NameOf(f), f), entries)
  {
    hide ValidName, IndexOf, FromLittleEndian, TotalSize;
    LineShape(f, rest);
    assert (f + [NEWLINE] + rest)[..IndexOf(f, EQUALS)] == NameOf(f);
    if f[0] == DOT || f[0] == HASH {
      CommentName(f);
    }
  }

  lemma {:induction false} BlockShape(name: Payload, len: Payload, value: Payload, rest: Payload)
    requires |len| == 8
    ensures var e := |name|; var s := name + [NEWLINE] + len + value + [NEWLINE] + rest;
            && |s| == e + 9 + |value| + 1 + |rest|
            && s[..e] == name && s[e] == NEWLINE && s[e + 1..e + 9] == len
            && s[e + 9..e + 9 + |value|] == value && s[e + 9 + |value|] == NEWLINE && s[e + 9 + |value| + 1..] == rest
  {
  }

  lemma {:induction false} StepBlock(s: Payload, name: Payload, len: Payload, value: Payload, rest: Payload, fields: seq<Payload>, entries: seq<seq<Payload>>)
    requires |len| == 8 && s == name + [NEWLINE] + len + value + [NEWLINE] + rest
    requires name != [] && name[0] != DOT && name[0] != HASH && NEWLINE !in name && EQUALS !in name
    requires FromLittleEndian(len) == |value| <= DATA_SIZE_MAX
    ensures ReceiveStep(s, fields, entries) == Next(rest, Keep(fields, name, name + [EQUALS] + value), entries)
  {
    hide Keep, FromLittleEndian;
    BlockShape(name, len, value, rest);
    var e := |name|;
    forall j | 0 <= j < e ensures s[j] != NEWLINE {
      assert s[j] == s[..e][j];
    }
    IndexAt(s, NEWLINE, e);
    IndexNowhere(name, EQUALS);
    assert s[0] == s[..e][0];
  }

  lemma {:induction false} FieldParts(f: Payload)
    requires Sendable(f)
    ensures f == NameOf(f) + [EQUALS] + ValueOf(f) && NameOf(f) != [] && NameOf(f)[0] == f[0]
    ensures NEWLINE !in NameOf(f) && EQUALS !in NameOf(f)
  {
    forall j | 0 <= j < |NameOf(f)| ensures NameOf(f)[j] != NEWLINE && NameOf(f)[j] != EQUALS {
      assert NameOf(f)[j] == f[j];
    }
  }

  lemma {:induction false} ReceiveBlock(f: Payload, rest: Payload, fields: seq<Payload>, entries: seq<seq<Payload>>)
    requires Readable(f) && NEWLINE in f && f[0] != DOT && f[0] != HASH
    ensures ReceiveStep(Encoded(f) + rest, fields, entries) == Next(rest, Keep(fields, NameOf(f), f), entries)
  {
    hide ReceiveStep, Keep, LittleEndian, FromLittleEndian, IndexOf, NameOf, ValueOf;
    FieldParts(f);
    Pow256Eight();
    LittleEndianBack(|ValueOf(f)|, 8);
    StepBlock(Encoded(f) + rest, NameOf(f), LittleEndian(|ValueOf(f)|, 8), ValueOf(f), rest, fields, entries);
  }

  /** The fields with a valid name. */
  function ValidFields(fields: seq<Payload>): seq<Payload> {
    if fields == [] then [] else Keep(ValidFields(fields[..|fields| - 1]), NameOf(fields[|fields| - 1]), fields[|fields| - 1])
  }

  /** The receiver takes from the wire what was put on it. */
  lemma {:induction false} ReceiveWire(fields: seq<Payload>, rest: Payload)
    requires forall i :: 0 <= i < |fields| ==> Readable(fields[i])
    ensures Received(Wire(fields) + rest, [], []) == Received(rest, ValidFields(fields), [])
    decreases |fields|
  {
    hide Encoded, ReceiveStep, ValidName, Readable;
    if fields == [] {
      assert Wire(fields) + rest == rest;
    } else {
      var front, f := fields[..|fields| - 1], fields[|fields| - 1];
      assert Wire(fields) + rest == Wire(front) + (Encoded(f) + rest);
      ReceiveWire(front, Encoded(f) + rest);
      ReceiveField(f, rest, ValidFields(front));
    }
  }

  lemma {:induction false} ReceiveField(f: Payload, rest: Payload, fields: seq<Payload>)
    requires Readable(f)
    ensures Received(Encoded(f) + rest, fields, []) == Received(rest, Keep(fields, NameOf(f), f), [])
  {
    hide ReceiveStep, Encoded, Skips, ValidName, Behind;
    if NEWLINE !in f {
      LineEncoded(f);
      ReceiveLine(f, rest, fields, []);
    } else if f[0] != DOT && f[0] != HASH {
      ReceiveBlock(f, rest, fields, []);
    } else {
      CommentName(f);
      CommentStep(f, rest, fields);
      ReceiveSkipped(Behind(f), rest, fields);
    }
  }

  /** Of a comment in binary form the receiver takes the first line only. */
  lemma {:induction false} CommentStep(f: Payload, rest: Payload, fields: seq<Payload>)
    requires Sendable(f) && NEWLINE in f && (f[0] == DOT || f[0] == HASH)
    ensures ReceiveStep(Encoded(f) + rest, fields, []) == Next(Behind(f) + rest, fields, [])
  {
    hide Sendable, LittleEndian, NameOf, ValueOf;
    FieldParts(f);
    assert Encoded(f) + rest == NameOf(f) + [NEWLINE] + (Behind(f) + rest);
    LineShape(NameOf(f), Behind(f) + rest);
  }

  lemma {:induction false} SkipStep(s: Payload, rest: Payload, fields: seq<Payload>)
    requires SkipOne(s).Some?
    ensures ReceiveStep(s + rest, fields, []) == Next(SkipOne(s).value + rest, fields, [])
  {
    hide ValidName, FromLittleEndian, TotalSize;
    var e := IndexOf(s, NEWLINE);
    if s[0] != DOT && s[0] != HASH && IndexOf(s[..e], EQUALS) == e {
      SkipBlock(s, rest, fields, e);
    } else {
      SkipLine(s, rest, fields, e);
    }
  }

  lemma {:induction false} SkipLine(s: Payload, rest: Payload, fields: seq<Payload>, e: nat)
    requires SkipOne(s).Some? && e == IndexOf(s, NEWLINE) && (s[0] == DOT || s[0] == HASH || IndexOf(s[..e], EQUALS) < e)
    ensures ReceiveStep(s + rest, fields, []) == Next(SkipOne(s).value + rest, fields, [])
  {
    hide ValidName, FromLittleEndian, TotalSize;
    var s' := s + rest;
    IndexAt(s', NEWLINE, e);
    assert s'[..e] == s[..e] && s'[e + 1..] == s[e + 1..] + rest;
    var q := IndexOf(s[..e], EQUALS);
    assert s'[..q] == s[..q];
  }

  lemma {:induction false} SkipBlock(s: Payload, rest: Payload, fields: seq<Payload>, e: nat)
    requires SkipOne(s).Some? && e == IndexOf(s, NEWLINE) && s[0] != DOT && s[0] != HASH && IndexOf(s[..e], EQUALS) == e
    ensures ReceiveStep(s + rest, fields, []) == Next(SkipOne(s).value + rest, fields, [])
  {
    hide ValidName, FromLittleEndian, TotalSize;
    var s' := s + rest;
    IndexAt(s', NEWLINE, e);
    assert s'[..e] == s[..e] && s'[e + 1..e + 9] == s[e + 1..e + 9];
    var l := FromLittleEndian(s[e + 1..e + 9]);
    assert s'[e + 10 + l..] == s[e + 10 + l..] + rest;
  }

  lemma {:induction false} ReceiveSkipped(s: Payload, rest: Payload, fields: seq<Payload>)
    requires Skips(s)
    ensures Received(s + rest, fields, []) == Received(rest, fields, [])
    decreases |s|
  {
    hide ReceiveStep, SkipOne;
    if s == [] {
      assert s + rest == rest;
    } else {
      SkipStep(s, rest, fields);
      ReceiveSkipped(SkipOne(s).value, rest, fields);
    }
  }

  lemma {:induction false} IdentifierName(program: Payload)
    ensures NameOf(SYSLOG_IDENTIFIER + [EQUALS] + program) == SYSLOG_IDENTIFIER && ValidName(SYSLOG_IDENTIFIER)
    ensures IndexOf(SYSLOG_IDENTIFIER + [EQUALS] + program, EQUALS) == 17
  {
    IndexAt(SYSLOG_IDENTIFIER + [EQUALS] + program, EQUALS, 17);
  }

  /** What arrives is exactly the fields with a valid name, and the implicit identifier if there was
      none, as long as the name of the program does not contain a newline. */
  lemma {:induction false} RoundTrip(fields: seq<Payload>, program: Payload)
    requires forall i :: 0 <= i < |fields| ==> Readable(fields[i])
    requires NEWLINE !in program
    ensures Received(Sent(fields, program), [], []) == Message([], ValidFields(WithIdentifier(fields, program)))
  {
    hide Encoded, Readable, ValidFields, ValidName, ReceiveStep;
    if exists i :: 0 <= i < |fields| && NameOf(fields[i]) == SYSLOG_IDENTIFIER {
      ReceiveWire(fields, []);
      assert Wire(fields) + [] == Wire(fields);
      NothingLeft(ValidFields(fields));
    } else {
      var f := SYSLOG_IDENTIFIER + [EQUALS] + program;
      IdentifierName(program);
      assert NEWLINE !in f;
      ReceiveWire(fields, f + [NEWLINE] + []);
      assert Sent(fields, program) == Wire(fields) + (f + [NEWLINE] + []);
      ReceiveLine(f, [], ValidFields(fields), []);
      NothingLeft(ValidFields(fields) + [f]);
      OneValid(fields, f);
    }
  }

  lemma {:induction false} NothingLeft(fields: seq<Payload>)
    ensures Received([], fields, []) == Message([], fields)
  {
  }

  lemma {:induction false} OneValid(fields: seq<Payload>, f: Payload)
    ensures ValidFields(fields + [f]) == Keep(ValidFields(fields), NameOf(f), f)
  {
    assert (fields + [f])[..|fields|] == fields;
  }

  /** The receiver only adds to what it has collected. */
  lemma {:induction false} ReceivedMore(s: Payload, fields: seq<Payload>, entries: seq<seq<Payload>>)
    ensures var r := Received(s, fields, entries);
            r.Message? ==> entries <= r.entries && (r.entries == entries ==> fields <= r.fields)
    decreases |s|
  {
    hide ValidName;
    var t := ReceiveStep(s, fields, entries);
    if t.Next? {
      StepMore(s, fields, entries);
      ReceivedMore(t.rest, t.fields, t.entries);
    }
  }

  lemma {:induction false} StepMore(s: Payload, fields: seq<Payload>, entries: seq<seq<Payload>>)
    ensures var t := ReceiveStep(s, fields, entries);
            t.Next? ==> (t.entries == entries && fields <= t.fields) || (entries <= t.entries && |t.entries| > |entries|)
  {
    hide ValidName, FromLittleEndian, TotalSize;
  }

  lemma {:induction false} SplitLine(program: Payload, k: nat)
    requires k == IndexOf(program, NEWLINE) && k < |program|
    ensures SYSLOG_IDENTIFIER + [EQUALS] + program + [NEWLINE] ==
            SYSLOG_IDENTIFIER + [EQUALS] + program[..k] + [NEWLINE] + (program[k + 1..] + [NEWLINE])
  {
    assert program == program[..k] + [NEWLINE] + program[k + 1..];
  }

  lemma {:induction false} ReceivedOne(s: Payload, fields: seq<Payload>, t: Step)
    requires ReceiveStep(s, fields, []) == t && t.Next?
    ensures Received(s, fields, []) == Received(t.rest, t.fields, t.entries)
  {
    hide ReceiveStep;
  }

  /** A newline in the name of the program breaks the implicit identifier. */
  lemma {:induction false} ProgramNewline(fields: seq<Payload>, program: Payload)
    requires forall i :: 0 <= i < |fields| ==> Readable(fields[i]) && NameOf(fields[i]) != SYSLOG_IDENTIFIER
    requires NEWLINE in program
    ensures Received(Sent(fields, program), [], []) != Message([], ValidFields(WithIdentifier(fields, program)))
  {
    hide Encoded, Readable, ValidFields, ValidName, ReceiveStep, IndexOf, Received, NameOf, Wire, Sendable;
    var f := SYSLOG_IDENTIFIER + [EQUALS] + program;
    IdentifierName(program);
    NewlineAt(program);
    var k := IndexOf(program, NEWLINE);
    var g := SYSLOG_IDENTIFIER + [EQUALS] + program[..k];
    var rest := program[k + 1..] + [NEWLINE];
    SplitLine(program, k);
    var valid: seq<Payload> := ValidFields(fields);
    assert Sent(fields, program) == Wire(fields) + (f + [NEWLINE]);
    ReceiveWire(fields, g + [NEWLINE] + rest);
    FirstLine(program, k);
    IdentifierName(program[..k]);
    ReceiveLine(g, rest, valid, []);
    ReceivedOne(g + [NEWLINE] + rest, valid, Next(rest, valid + [g], []));
    ReceivedMore(rest, valid + [g], []);
    OneValid(fields, f);
    assert |f| > |g|;
    var n := |valid|;
    assert (valid + [f])[n] != (valid + [g])[n];
  }

  lemma {:induction false} FirstLine(program: Payload, k: nat)
    requires k == IndexOf(program, NEWLINE) && k < |program|
    ensures NEWLINE !in SYSLOG_IDENTIFIER + [EQUALS] + program[..k]
    ensures Sendable(SYSLOG_IDENTIFIER + [EQUALS] + program[..k])
  {
    IndexAt(SYSLOG_IDENTIFIER + [EQUALS] + program[..k], EQUALS, 17);
    NewlineAt(SYSLOG_IDENTIFIER + [EQUALS] + program[..k]);
  }

  /** The exact condition under which what was sent arrives. */
  lemma {:induction false} RoundTripExact(fields: seq<Payload>, program: Payload)
    requires forall i :: 0 <= i < |fields| ==> Readable(fields[i])
    ensures Received(Sent(fields, program), [], []) == Message([], ValidFields(WithIdentifier(fields, program))) <==>
            NEWLINE !in program || exists i :: 0 <= i < |fields| && NameOf(fields[i]) == SYSLOG_IDENTIFIER
  {
    hide Readable, ValidFields, Received, Wire, NameOf;
    if NEWLINE !in program {
      RoundTrip(fields, program);
    } else if exists i :: 0 <= i < |fields| && NameOf(fields[i]) == SYSLOG_IDENTIFIER {
      RoundTrip(fields, []);
    } else {
      ProgramNewline(fields, program);
    }
  }

  // ---------- what is dispatched ----------

  lemma {:induction false} ValidKept(fields: seq<Payload>, i: nat)
    requires i < |fields| && ValidName(NameOf(fields[i]))
    ensures fields[i] in ValidFields(fields)
    decreases |fields|
  {
    hide ValidName, NameOf;
    if i + 1 < |fields| {
      ValidKept(fields[..|fields| - 1], i);
    }
  }

  /** There always is a field with a valid name: the identifier. */
  lemma {:induction false} IdentifierKept(fields: seq<Payload>, program: Payload)
    ensures ValidFields(WithIdentifier(fields, program)) != []
  {
    hide ValidName, NameOf, ValidFields;
    IdentifierName(program);
    var all := WithIdentifier(fields, program);
    if exists i :: 0 <= i < |fields| && NameOf(fields[i]) == SYSLOG_IDENTIFIER {
      var i :| 0 <= i < |fields| && NameOf(fields[i]) == SYSLOG_IDENTIFIER;
      ValidKept(all, i);
    } else {
      ValidKept(all, |fields|);
    }
  }

  /** From sender to dispatch: one entry with all fields with valid names in order, the identifier, and the transport at the
      end; it is dropped exactly if fields, separators and transport together are beyond the limit. */
  lemma {:induction false} Delivered(fields: seq<Payload>, program: Payload)
    requires forall i :: 0 <= i < |fields| ==> Readable(fields[i])
    requires NEWLINE !in program || exists i :: 0 <= i < |fields| && NameOf(fields[i]) == SYSLOG_IDENTIFIER
    ensures var m, all := Received(Sent(fields, program), [], []), ValidFields(WithIdentifier(fields, program)) + [TRANSPORT];
            && m.Message? && m.entries == []
            && Dispatched(m.fields) == if TotalSize(all) + |all| + 1 <= ENTRY_SIZE_MAX then Some(all) else None
  {
    hide Readable, ValidFields, Received, NameOf, Wire, TotalSize;
    RoundTripExact(fields, program);
    IdentifierKept(fields, program);
    TotalMore(ValidFields(WithIdentifier(fields, program)), TRANSPORT);
  }

  // ---------- fields that do not arrive ----------

  lemma {:induction false} WireApart(before: seq<Payload>, f: Payload, after: seq<Payload>)
    ensures Wire(before + [f] + after) == Wire(before) + Encoded(f) + Wire(after)
    decreases |after|
  {
    hide Encoded;
    var all := before + [f] + after;
    if after == [] {
      assert all[..|all| - 1] == before;
    } else {
      var front := after[..|after| - 1];
      assert all[..|all| - 1] == before + [f] + front;
      WireApart(before, f, front);
    }
  }

  lemma {:induction false} LongBlock(f: Payload, rest: Payload, fields: seq<Payload>)
    requires Sendable(f) && NEWLINE in f && f[0] != DOT && f[0] != HASH && DATA_SIZE_MAX < |ValueOf(f)| < U64
    ensures ReceiveStep(Encoded(f) + rest, fields, []) == End
  {
    hide Keep, LittleEndian, FromLittleEndian, TotalSize, ValueOf, NameOf;
    FieldParts(f);
    Pow256Eight();
    LittleEndianBack(|ValueOf(f)|, 8);
    var name, len, s := NameOf(f), LittleEndian(|ValueOf(f)|, 8), Encoded(f) + rest;
    assert s == name + [NEWLINE] + len + ValueOf(f) + [NEWLINE] + rest;
    BlockShape(name, len, ValueOf(f), rest);
    forall j | 0 <= j < |name| ensures s[j] != NEWLINE {
      assert s[j] == s[..|name|][j];
    }
    IndexAt(s, NEWLINE, |name|);
    IndexNowhere(name, EQUALS);
    assert s[0] == s[..|name|][0];
  }

  // ---------- exactly which fields arrive ----------

  /** Whatever comes behind it, the receiver takes just this field, if its name is valid. */
  ghost predicate Arrives(f: Payload) {
    forall rest: Payload, fields: seq<Payload> ::
      Received(Encoded(f) + rest, fields, []) == Received(rest, Keep(fields, NameOf(f), f), [])
  }

  // "A=\n", a valid line
  const LINE: Payload := [65, EQUALS, NEWLINE]

  lemma {:induction false} ReceiveLINE(fields: seq<Payload>)
    ensures Received(LINE, fields, []) == Message([], fields + [[65, EQUALS]])
  {
    var f: Payload := [65, EQUALS];
    IndexAt(f, EQUALS, 1);
    assert NameOf(f) == [65];
    ReceiveLine(f, [], fields, []);
    assert f + [NEWLINE] + [] == LINE;
    NothingLeft(fields + [f]);
  }

  /** What is behind these bytes shows that they are not skipped. */
  predicate Shows(s: Payload, rest: Payload) {
    Received(s + rest, [], []) != Received(rest, [], [])
  }

  /** Something kept shows at once. */
  lemma {:induction false} KeptShows(s: Payload)
    requires var t := ReceiveStep(s, [], []); t.Next? && (t.fields != [] || t.entries != [])
    ensures Shows(s, [])
  {
    hide ReceiveStep;
    var t := ReceiveStep(s, [], []);
    assert s + [] == s;
    ReceivedMore(t.rest, t.fields, t.entries);
    NothingLeft([]);
  }

  /** An unfinished block loses a line behind it, or takes it into its value. */
  lemma {:induction false} UnfinishedShows(s: Payload, e: nat)
    requires s != [] && s[|s| - 1] == NEWLINE && e == IndexOf(s, NEWLINE) && 0 < e
    requires s[0] != DOT && s[0] != HASH && IndexOf(s[..e], EQUALS) == e && ReceiveStep(s, [], []).End?
    ensures Shows(s, LINE)
  {
    hide ReceiveStep, ValidName, FromLittleEndian;
    ReceiveLINE([]);
    UnfinishedStep(s, e);
    var t := ReceiveStep(s + LINE, [], []);
    if t.Next? {
      NothingLeft(t.fields);
    }
  }

  /** The receiver still waits for the end of the block, or a longer field ends with the line. */
  lemma {:induction false} UnfinishedStep(s: Payload, e: nat)
    requires s != [] && s[|s| - 1] == NEWLINE && e == IndexOf(s, NEWLINE) && 0 < e
    requires s[0] != DOT && s[0] != HASH && IndexOf(s[..e], EQUALS) == e && ReceiveStep(s, [], []).End?
    ensures var t := ReceiveStep(s + LINE, [], []);
            t.End? || (t.Next? && t.rest == [] && t.entries == [] && (t.fields == [] || |t.fields[0]| > 2))
  {
    hide ValidName, FromLittleEndian, TotalSize;
    var s' := s + LINE;
    IndexAt(s', NEWLINE, e);
    assert s'[..e] == s[..e] && s'[0] == s[0];
    if |s| < e + 10 <= |s'| {
      assert s'[e + 1..e + 9][7] == s'[e + 8] && s'[e + 8] > 0;
      HighByte(s'[e + 1..e + 9], 7);
      Pow256Seven();
    } else if |s| >= e + 10 {
      assert s'[e + 1..e + 9] == s[e + 1..e + 9];
    }
  }

  lemma {:induction false} EmptyLine(s: Payload)
    requires IndexOf(s, NEWLINE) == 0 < |s|
    ensures ReceiveStep(s, [], []).Next?
  {
    assert TotalSize([]) == 0;
  }

  /** Bytes that are not skipped show themselves by what comes behind them: by nothing, or by a valid line. */
  lemma {:induction false} NotSkipped(s: Payload)
    requires s != [] && s[|s| - 1] == NEWLINE && !Skips(s)
    ensures Shows(s, []) || Shows(s, LINE)
    decreases |s|
  {
    hide ValidName, FromLittleEndian, TotalSize;
    if SkipOne(s).Some? {
      var s' := SkipOne(s).value;
      NotSkipped(s');
      SkipStep(s, [], []);
      SkipStep(s, LINE, []);
    } else if ReceiveStep(s, [], []).Next? {
      KeptShows(s);
    } else {
      if IndexOf(s, NEWLINE) == 0 {
        EmptyLine(s);
      }
      UnfinishedShows(s, IndexOf(s, NEWLINE));
    }
  }

  lemma {:induction false} BehindEnds(f: Payload)
    ensures Behind(f) != [] && Behind(f)[|Behind(f)| - 1] == NEWLINE
  {
    hide LittleEndian, ValueOf;
  }

  /** Of the fields the sender takes, those arrive that are readable, and no others. */
  lemma {:induction false} ArrivesExact(f: Payload)
    requires Sendable(f) && |f| < U64
    ensures Arrives(f) <==> Readable(f)
  {
    FieldParts(f);
    hide ReceiveStep, Encoded, Skips, ValidName, Behind, NameOf, ValueOf;
    if Readable(f) {
      forall rest: Payload, fields: seq<Payload>
        ensures Received(Encoded(f) + rest, fields, []) == Received(rest, Keep(fields, NameOf(f), f), []) {
        ReceiveField(f, rest, fields);
      }
    } else if f[0] == DOT || f[0] == HASH {
      BehindEnds(f);
      NotSkipped(Behind(f));
      var rest := if Shows(Behind(f), []) then [] else LINE;
      CommentName(f);
      CommentStep(f, rest, []);
      assert Received(Encoded(f) + rest, [], []) != Received(rest, Keep([], NameOf(f), f), []);
    } else {
      LongBlock(f, LINE, []);
      ReceiveLINE(Keep([], NameOf(f), f));
      assert Received(Encoded(f) + LINE, [], []) != Received(LINE, Keep([], NameOf(f), f), []);
    }
  }

  /** A value with a newline that is longer than the receiver takes ends the message: this field and all after it are lost. */
  lemma {:induction false} LongValue(before: seq<Payload>, f: Payload, after: seq<Payload>, program: Payload)
    requires forall i :: 0 <= i < |before| ==> Readable(before[i])
    requires Sendable(f) && NEWLINE in f && f[0] != DOT && f[0] != HASH && DATA_SIZE_MAX < |ValueOf(f)| < U64
    ensures Received(Sent(before + [f] + after, program), [], []) == Message([], ValidFields(before))
  {
    hide Encoded, Readable, ValidFields, ReceiveStep, ValueOf, NameOf, Wire;
    var fields := before + [f] + after;
    WireApart(before, f, after);
    var rest := if exists i :: 0 <= i < |fields| && NameOf(fields[i]) == SYSLOG_IDENTIFIER then Wire(after)
                else Wire(after) + SYSLOG_IDENTIFIER + [EQUALS] + program + [NEWLINE];
    assert Sent(fields, program) == Wire(before) + (Encoded(f) + rest);
    ReceiveWire(before, Encoded(f) + rest);
    LongBlock(f, rest, ValidFields(before));
  }

  /** A number with a nonzero byte is not small. */
  lemma {:induction false} HighByte(s: Payload, k: nat)
    requires k < |s| && s[k] > 0
    ensures FromLittleEndian(s) >= Pow256(k)
  {
    if k > 0 {
      HighByte(s[1..], k - 1);
    }
  }

  lemma {:induction false} CommentLine(rest: Payload)
    ensures ReceiveStep([HASH, NEWLINE] + rest, [], []) == Next(rest, [], [])
  {
    var s := [HASH, NEWLINE] + rest;
    IndexAt(s, NEWLINE, 1);
    assert s[2..] == rest;
  }

  /** The length of a value of one byte, read as the name of a field. */
  lemma {:induction false} LengthAsName(rest: Payload)
    requires |rest| >= 9 && rest[6] > 0
    ensures ReceiveStep([1, 0, 0, 0, 0, 0, 0, 0, NEWLINE, NEWLINE] + rest, [], []) == End
  {
    var s := [1, 0, 0, 0, 0, 0, 0, 0, NEWLINE, NEWLINE] + rest;
    IndexAt(s, NEWLINE, 8);
    IndexNowhere(s[..8], EQUALS);
    assert s[9..17][7] == rest[6];
    HighByte(s[9..17], 7);
    Pow256Seven();
  }

  lemma {:induction false} Pow256Seven()
    ensures Pow256(7) > DATA_SIZE_MAX
  {
    assert Pow256(3) == 0x100_0000;
    assert Pow256(7) == 0x100_0000 * 0x1_0000_0000;
  }

  /** A comment whose value contains a newline is skipped up to the end of its first line only; what follows is read as
      fields. Here a field after it is lost. */
  lemma {:induction false} CommentBlock()
    ensures var comment, field := [HASH, EQUALS, NEWLINE], SYSLOG_IDENTIFIER + [EQUALS];
            && Sendable(comment) && Readable(field) && ValidFields([comment, field]) == [field]
            && Received(Sent([comment, field], []), [], []) == Message([], [])
  {
    var comment, field := [HASH, EQUALS, NEWLINE], SYSLOG_IDENTIFIER + [EQUALS];
    IdentifierName([]);
    assert field == SYSLOG_IDENTIFIER + [EQUALS] + [];
    IndexAt(comment, EQUALS, 1);
    assert NameOf(comment) == [HASH] && ValueOf(comment) == [NEWLINE];
    CommentName(comment);
    assert NEWLINE !in field;
    assert ValidFields([]) == [];
    OneValid([], comment);
    OneValid([comment], field);
    assert [] + [comment] == [comment] && [comment] + [field] == [comment, field];
    hide ReceiveStep, ValidFields, ValidName, Readable;
    CommentWire(comment, field);
    CommentLine([1, 0, 0, 0, 0, 0, 0, 0, NEWLINE, NEWLINE] + (field + [NEWLINE]));
    LengthAsName(field + [NEWLINE]);
  }

  /** Other comments with a newline are skipped as a whole: here both of the lines behind the first have a name
      that is not valid. */
  lemma {:induction false} HarmlessComment()
    ensures Readable([HASH, EQUALS, EQUALS, NEWLINE, 97, EQUALS, 49])
  {
    hide LittleEndian, SkipOne;
    var f: Payload := [HASH, EQUALS, EQUALS, NEWLINE, 97, EQUALS, 49];
    IndexAt(f, EQUALS, 1);
    assert ValueOf(f) == [EQUALS, NEWLINE, 97, EQUALS, 49];
    assert f[3] == NEWLINE;
    LengthFive();
    TwoLines([5, 0, 0, 0, 0, 0, 0, 0, EQUALS], [97, EQUALS, 49]);
    assert Behind(f) == [5, 0, 0, 0, 0, 0, 0, 0, EQUALS] + [NEWLINE] + ([97, EQUALS, 49] + [NEWLINE] + []);
    hide Skips, Behind, ValueOf;
    CommentSendable(f);
  }

  lemma {:induction false} CommentSendable(f: Payload)
    requires |f| > 2 && f[0] == HASH && f[1] == EQUALS
    ensures Sendable(f)
  {
    IndexAt(f, EQUALS, 1);
  }

  lemma {:induction false} TwoLines(first: Payload, second: Payload)
    requires |first| == 9 && |second| == 3 && first[8] == EQUALS && second[1] == EQUALS
    requires NEWLINE !in first && NEWLINE !in second && EQUALS !in first[..8] && EQUALS != second[0]
    requires !IsUpper(first[0]) && !IsUpper(second[0])
    ensures Skips(first + [NEWLINE] + (second + [NEWLINE] + []))
  {
    hide SkipOne;
    assert forall j :: 0 <= j < 8 ==> first[j] == first[..8][j];
    SkipInvalid(first, second + [NEWLINE] + [], 8);
    SkipInvalid(second, [], 1);
    assert Skips([]);
    assert Skips(second + [NEWLINE] + []);
  }

  /** A line whose name does not start with a capital letter is skipped. */
  lemma {:induction false} SkipInvalid(line: Payload, rest: Payload, q: nat)
    requires 0 < q < |line| && line[q] == EQUALS && NEWLINE !in line
    requires !IsUpper(line[0]) && forall j :: 0 <= j < q ==> line[j] != EQUALS
    ensures SkipOne(line + [NEWLINE] + rest) == Some(rest)
  {
    hide FromLittleEndian;
    LineShape(line, rest);
    IndexAt(line, EQUALS, q);
    var s := line + [NEWLINE] + rest;
    assert s[..q][0] == line[0];
  }

  lemma {:induction false} LengthFive()
    ensures LittleEndian(5, 8) == [5, 0, 0, 0, 0, 0, 0, 0]
  {
    assert LittleEndian(0, 4) == [0, 0, 0, 0];
    assert LittleEndian(0, 7) == [0, 0, 0] + LittleEndian(0, 4);
  }

  lemma {:induction false} CommentWire(comment: Payload, field: Payload)
    requires comment == [HASH, EQUALS, NEWLINE] && NameOf(comment) == [HASH] && ValueOf(comment) == [NEWLINE]
    requires NEWLINE !in field && NameOf(field) == SYSLOG_IDENTIFIER
    ensures Sent([comment, field], []) ==
            [HASH, NEWLINE] + ([1, 0, 0, 0, 0, 0, 0, 0, NEWLINE, NEWLINE] + (field + [NEWLINE]))
  {
    hide NameOf, ValueOf, Encoded, LittleEndian;
    CommentEncoded(comment);
    LineEncoded(field);
    var fields := [comment, field];
    assert fields[1] == field;
    assert Sent(fields, []) == Wire(fields);
    WireTwo(comment, field);
    assert [HASH, NEWLINE] + [1, 0, 0, 0, 0, 0, 0, 0, NEWLINE, NEWLINE] + (field + [NEWLINE]) ==
           [HASH, NEWLINE] + ([1, 0, 0, 0, 0, 0, 0, 0, NEWLINE, NEWLINE] + (field + [NEWLINE]));
  }

  lemma {:induction false} WireTwo(f: Payload, g: Payload)
    ensures Wire([f, g]) == Encoded(f) + Encoded(g)
  {
    hide Encoded;
    assert [f, g][..1] == [f] && [f][..0] == [];
    assert Wire([f]) == Encoded(f);
  }

  lemma {:induction false} LineEncoded(f: Payload)
    requires NEWLINE !in f
    ensures Encoded(f) == f + [NEWLINE]
  {
  }

  lemma {:induction false} CommentEncoded(comment: Payload)
    requires comment == [HASH, EQUALS, NEWLINE] && NameOf(comment) == [HASH] && ValueOf(comment) == [NEWLINE]
    ensures Encoded(comment) == [HASH, NEWLINE] + [1, 0, 0, 0, 0, 0, 0, 0, NEWLINE, NEWLINE]
  {
    hide NameOf, ValueOf, LittleEndian;
    LengthOne();
    assert NEWLINE in comment;
  }

  lemma {:induction false} LengthOne()
    ensures LittleEndian(1, 8) == [1, 0, 0, 0, 0, 0, 0, 0]
  {
    assert LittleEndian(0, 4) == [0, 0, 0, 0];
    assert LittleEndian(0, 7) == [0, 0, 0] + LittleEndian(0, 4);
  }

  // ---------- bytes on the wire ----------

  /** "A=x" is a line; "A=" with a newline as its value is its name, the length 1 in eight bytes, the lowest first, and the value. */
  lemma {:induction false} OnTheWire()
    ensures Encoded([65, 61, 120]) == [65, 61, 120, 10]
    ensures Encoded([65, 61, 10]) == [65, 10, 1, 0, 0, 0, 0, 0, 0, 0, 10, 10]
  {
    hide LittleEndian;
    IndexAt([65, 61, 120], EQUALS, 1);
    IndexAt([65, 61, 10], EQUALS, 1);
    LengthOne();
    assert [65, 61, 10][2] == NEWLINE;
    assert ValueOf([65, 61, 10]) == [10] && NameOf([65, 61, 10]) == [65];
  }

  /** "MESSAGE" and "A_1" are names; "", "message", "_PID", "1A" and "A-B" are not. */
  lemma {:induction false} SomeNames()
    ensures ValidName([77, 69, 83, 83, 65, 71, 69]) && ValidName([65, 95, 49])
    ensures !ValidName([]) && !ValidName([109, 101, 115, 115, 97, 103, 101]) && !ValidName([95, 80, 73, 68])
    ensures !ValidName([49, 65]) && !ValidName([65, 45, 66])
  {
    assert [65, 45, 66][1] == 45;
    assert [109, 101, 115, 115, 97, 103, 101][0] == 109;
  }
}
