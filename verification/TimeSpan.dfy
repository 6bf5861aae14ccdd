/** Time spans as text (shared/time-util.c): format_timespan writes them with a given
    accuracy, parse_sec reads them back. */
module TimeSpan {
  import opened JournalDef

  const USEC_PER_SEC: nat := 1000000
  const USEC_PER_MSEC: nat := 1000
  const USEC_PER_MINUTE: nat := 60 * USEC_PER_SEC
  const USEC_PER_HOUR: nat := 60 * USEC_PER_MINUTE
  const USEC_PER_DAY: nat := 24 * USEC_PER_HOUR
  const USEC_PER_WEEK: nat := 7 * USEC_PER_DAY
  const USEC_PER_MONTH: nat := 2629800 * USEC_PER_SEC
  const USEC_PER_YEAR: nat := 31557600 * USEC_PER_SEC
  const USEC_INFINITY: nat := U64 - 1
  const LLONG_MAX: nat := 0x7fff_ffff_ffff_ffff

  // ---------- decimal numbers ----------

  function Pow10(k: nat): (r: nat)
    ensures r >= 1
  {
    if k == 0 then 1 else 10 * Pow10(k - 1)
  }

  predicate IsDigit(c: char) {
    '0' <= c <= '9'
  }

  function DigitChar(d: nat): (c: char)
    requires d < 10
    ensures IsDigit(c) && DigitValue(c) == d
  {
    '0' + d as char
  }

  function DigitValue(c: char): (d: nat)
    requires IsDigit(c)
    ensures d < 10
  {
    (c - '0') as nat
  }

  /** The decimal digits of n, as %llu prints them. */
  function Digits(n: nat): (s: string)
    ensures |s| >= 1 && forall i :: 0 <= i < |s| ==> IsDigit(s[i])
  {
    if n < 10 then [DigitChar(n)] else Digits(n / 10) + [DigitChar(n % 10)]
  }

  /** The last j decimal digits of n, as %0*llu prints them if there are no more. */
  function Padded(n: nat, j: nat): (s: string)
    ensures |s| == j && forall i :: 0 <= i < |s| ==> IsDigit(s[i])
  {
    if j == 0 then "" else Padded(n / 10, j - 1) + [DigitChar(n % 10)]
  }

  function Value(s: string): nat
    requires forall i :: 0 <= i < |s| ==> IsDigit(s[i])
  {
    if s == "" then 0 else 10 * Value(s[..|s| - 1]) + DigitValue(s[|s| - 1])
  }

  lemma {:induction false} DigitsValue(n: nat)
    ensures Value(Digits(n)) == n
  {
    var s := Digits(n);
    if n >= 10 {
      DigitsValue(n / 10);
      assert s[..|s| - 1] == Digits(n / 10);
    }
  }

  lemma {:induction false} PaddedValue(n: nat, j: nat)
    requires n < Pow10(j)
    ensures Value(Padded(n, j)) == n
  {
    var s := Padded(n, j);
    if j > 0 {
      PaddedValue(n / 10, j - 1);
      assert s[..|s| - 1] == Padded(n / 10, j - 1);
    }
  }

  // ---------- formatting ----------

  datatype Unit = Unit(suffix: string, usec: nat)

  const UNITS: seq<Unit> := [
    Unit("y", USEC_PER_YEAR), Unit("month", USEC_PER_MONTH), Unit("w", USEC_PER_WEEK), Unit("d", USEC_PER_DAY),
    Unit("h", USEC_PER_HOUR), Unit("min", USEC_PER_MINUTE), Unit("s", USEC_PER_SEC), Unit("ms", USEC_PER_MSEC), Unit("us", 1)]

  /** How often `for (cc = x; cc > 1; cc /= 10)` runs. */
  function Drops(x: nat): nat {
    if x <= 1 then 0 else 1 + Drops(x / 10)
  }

  /** b without its last k digits. */
  function Shifted(b: nat, k: nat): nat {
    if k == 0 then b else Shifted(b / 10, k - 1)
  }

  /** `whole` units, and `digits` decimals with value `frac`. */
  datatype Piece = Piece(whole: nat, frac: nat, digits: nat, unit: nat)

  predicate Known(p: Piece) {
    p.unit < |UNITS|
  }

  lemma {:induction false} UnitPositive(i: nat)
    requires i < |UNITS|
    ensures UNITS[i].usec > 0
  {
  }

  /** The pieces that format_timespan prints from table entry i on. */
  function Pieces(t: nat, accuracy: nat, i: nat, something: bool): (ps: seq<Piece>)
    requires i <= |UNITS|
    ensures forall k :: 0 <= k < |ps| ==> Known(ps[k])
    decreases |UNITS| - i
  {
    if i == |UNITS| || t == 0 || (t < accuracy && something) then []
    else if t < UNITS[i].usec then Pieces(t, accuracy, i + 1, something)
    else
      UnitPositive(i);
      var a, b := t / UNITS[i].usec, t % UNITS[i].usec;
      var j := Drops(UNITS[i].usec) - Drops(accuracy);
      var dropped := Shifted(b, Drops(accuracy));
      if t < USEC_PER_MINUTE && b > 0 then
        if j > 0 then [Piece(a, dropped, j, i)]
        else [Piece(a, 0, 0, i)] + Pieces(dropped, accuracy, i + 1, true)
      else [Piece(a, 0, 0, i)] + Pieces(b, accuracy, i + 1, true)
  }

  function PieceText(p: Piece): string
    requires Known(p)
  {
    Digits(p.whole) + (if p.digits > 0 then "." + Padded(p.frac, p.digits) else "") + UNITS[p.unit].suffix
  }

  /** The pieces, separated by spaces. */
  function Text(ps: seq<Piece>): string
    requires forall k :: 0 <= k < |ps| ==> Known(ps[k])
  {
    if ps == [] then ""
    else (if |ps| > 1 then Text(ps[..|ps| - 1]) + " " else "") + PieceText(ps[|ps| - 1])
  }

  function Formatted(t: nat, accuracy: nat): string {
    if t == 0 then "0" else Text(Pieces(t, accuracy, 0, false))
  }

  method DropDigits(x: nat, b: nat, j: int) returns (b': nat, j': int)
    ensures b' == Shifted(b, Drops(x)) && j' == j - Drops(x)
  {
    b', j' := b, j;
    var cc := x;
    while cc > 1
      invariant Shifted(b', Drops(cc)) == Shifted(b, Drops(x)) && j' - Drops(cc) == j - Drops(x)
    {
      b' := b' / 10;
      j' := j' - 1;
      cc := cc / 10;
    }
  }

  /** Splitting off the last k digits. */
  lemma {:induction false} ShiftedSplit(b: nat, k: nat) returns (low: nat)
    ensures b == Shifted(b, k) * Pow10(k) + low && low < Pow10(k)
  {
    if k == 0 {
      low := 0;
    } else {
      var l := ShiftedSplit(b / 10, k - 1);
      var q, p := Shifted(b / 10, k - 1), Pow10(k - 1);
      assert 10 * (q * p) == q * (10 * p);
      low := 10 * l + b % 10;
    }
  }

  lemma {:induction false} ShiftedBack(x: nat, k: nat)
    ensures Shifted(x * Pow10(k), k) == x
  {
    if k > 0 {
      var p := Pow10(k - 1);
      assert x * (10 * p) == 10 * (x * p);
      ShiftedBack(x, k - 1);
    }
  }

  lemma {:induction false} Pow10Sum(i: nat, j: nat)
    ensures Pow10(i + j) == Pow10(i) * Pow10(j)
  {
    if i > 0 {
      Pow10Sum(i - 1, j);
      assert 10 * (Pow10(i - 1) * Pow10(j)) == (10 * Pow10(i - 1)) * Pow10(j);
    }
  }

  lemma {:induction false} Pow10Small()
    ensures Pow10(0) == 1 && Pow10(1) == 10 && Pow10(2) == 100 && Pow10(3) == 1000
    ensures Pow10(4) == 10000 && Pow10(5) == 100000 && Pow10(6) == 1000000
  {
    assert Pow10(1) == 10 * Pow10(0);
    assert Pow10(2) == 10 * Pow10(1);
    assert Pow10(3) == 10 * Pow10(2);
    assert Pow10(4) == 10 * Pow10(3);
    assert Pow10(5) == 10 * Pow10(4);
  }

  lemma {:induction false} Widths()
    ensures Drops(1) == 0 && Drops(USEC_PER_MSEC) == 3 && Drops(USEC_PER_SEC) == 6
  {
    assert Drops(10) == 1 + Drops(1);
    assert Drops(100) == 1 + Drops(10);
    assert Drops(1000) == 1 + Drops(100);
    assert Drops(10000) == 1 + Drops(1000);
    assert Drops(100000) == 1 + Drops(10000);
    assert Drops(1000000) == 1 + Drops(100000);
  }

  /** Writes the part of t that table entry i stands for, and says what is left of t. */
  method FormatUnit(t: nat, accuracy: nat, i: nat, something: bool) returns (k: string, t': nat, ghost p: Piece)
    requires i < |UNITS| && t >= UNITS[i].usec && t > 0 && !(t < accuracy && something)
    ensures Known(p) && k == (if something then " " else "") + PieceText(p)
    ensures Pieces(t, accuracy, i, something) == [p] + Pieces(t', accuracy, i + 1, true)
  {
    hide Pieces, Drops, Shifted, Digits, Padded;
    PiecesStep(t, accuracy, i, something);
    var a: nat, b: nat := t / UNITS[i].usec, t % UNITS[i].usec;
    if t < USEC_PER_MINUTE && b > 0 {
      var j: int := CountDigits(UNITS[i].usec);
      b, j := DropDigits(accuracy, b, j);
      if j > 0 {
        k := (if something then " " else "") + Digits(a) + "." + Padded(b, j) + UNITS[i].suffix;
        p := Piece(a, b, j, i);
        t' := 0;
        PiecesStop(0, accuracy, i + 1, true);
        return;
      }
    }
    k := (if something then " " else "") + Digits(a) + UNITS[i].suffix;
    p := Piece(a, 0, 0, i);
    t' := b;
  }

  /** The pieces ps are printed, those of `rest` remain. */
  ghost predicate Printed(t: nat, accuracy: nat, ps: seq<Piece>, rest: nat, i: nat, something: bool) {
    && i <= |UNITS| && (forall k :: 0 <= k < |ps| ==> Known(ps[k]))
    && ps + Pieces(rest, accuracy, i, something) == Pieces(t, accuracy, 0, false)
    && something == (ps != [])
  }

  lemma {:induction false} PrintedSkip(t: nat, accuracy: nat, ps: seq<Piece>, rest: nat, i: nat, something: bool)
    requires Printed(t, accuracy, ps, rest, i, something) && i < |UNITS|
    requires 0 < rest < UNITS[i].usec && !(rest < accuracy && something)
    ensures Printed(t, accuracy, ps, rest, i + 1, something)
  {
    hide Pieces, Known;
    PiecesStep(rest, accuracy, i, something);
  }

  lemma {:induction false} PrintedMore(t: nat, accuracy: nat, ps: seq<Piece>, rest: nat, i: nat, something: bool, p: Piece, rest': nat)
    requires Printed(t, accuracy, ps, rest, i, something) && i < |UNITS| && Known(p)
    requires Pieces(rest, accuracy, i, something) == [p] + Pieces(rest', accuracy, i + 1, true)
    ensures Printed(t, accuracy, ps + [p], rest', i + 1, true)
  {
    hide Pieces, Known;
    assert ps + ([p] + Pieces(rest', accuracy, i + 1, true)) == (ps + [p]) + Pieces(rest', accuracy, i + 1, true);
  }

  lemma {:induction false} PrintedAll(t: nat, accuracy: nat, ps: seq<Piece>, rest: nat, i: nat, something: bool)
    requires Printed(t, accuracy, ps, rest, i, something) && (i == |UNITS| || rest == 0 || (rest < accuracy && something))
    ensures ps == Pieces(t, accuracy, 0, false)
  {
    hide Pieces, Known;
    PiecesStop(rest, accuracy, i, something);
    assert ps + [] == ps;
  }

  /** Writes the time span t, leaving out what is smaller than the accuracy. */
  method FormatTimespan(t: nat, accuracy: nat) returns (r: Option<string>)
    requires t < U64
    ensures r == if t == USEC_INFINITY then None else Some(Formatted(t, accuracy))
  {
    hide Pieces, Text, PieceText;
    if t == USEC_INFINITY {
      return None;
    }
    if t <= 0 {
      return Some("0");
    }
    var buf := "";
    var something := false;
    var rest: nat := t;
    var i := 0;
    ghost var ps: seq<Piece> := [];
    EmptyText();
    while i < |UNITS|
      invariant 0 <= i <= |UNITS| && forall k :: 0 <= k < |ps| ==> Known(ps[k])
      invariant Printed(t, accuracy, ps, rest, i, something) && something == (ps != [])
      invariant buf == Text(ps)
    {
      hide Printed;
      if rest <= 0 {
        break;
      }
      if rest < accuracy && something {
        break;
      }
      if rest < UNITS[i].usec {
        PrintedSkip(t, accuracy, ps, rest, i, something);
        i := i + 1;
        continue;
      }
      var k;
      ghost var p;
      ghost var before := rest;
      k, rest, p := FormatUnit(rest, accuracy, i, something);
      TextGrows(ps, p);
      PrintedMore(t, accuracy, ps, before, i, something, p, rest);
      buf := buf + k;
      ps := ps + [p];
      something := true;
      i := i + 1;
    }
    PrintedAll(t, accuracy, ps, rest, i, something);
    r := Some(buf);
  }

  method CountDigits(usec: nat) returns (j: nat)
    ensures j == Drops(usec)
  {
    j := 0;
    var cc := usec;
    while cc > 1
      invariant j + Drops(cc) == Drops(usec)
    {
      cc := cc / 10;
      j := j + 1;
    }
  }

  lemma {:induction false} EmptyText()
    ensures Text([]) == ""
  {
  }

  lemma {:induction false} TextGrows(ps: seq<Piece>, p: Piece)
    requires Known(p) && forall k :: 0 <= k < |ps| ==> Known(ps[k])
    ensures forall k :: 0 <= k < |ps + [p]| ==> Known((ps + [p])[k])
    ensures Text(ps + [p]) == Text(ps) + ((if ps == [] then "" else " ") + PieceText(p))
  {
    assert (ps + [p])[..|ps|] == ps;
  }

  lemma {:induction false} PiecesStop(t: nat, accuracy: nat, i: nat, something: bool)
    requires i <= |UNITS| && (i == |UNITS| || t == 0 || (t < accuracy && something))
    ensures Pieces(t, accuracy, i, something) == []
  {
  }

  lemma {:induction false} PiecesStep(t: nat, accuracy: nat, i: nat, something: bool)
    requires i < |UNITS| && t > 0 && !(t < accuracy && something)
    ensures Pieces(t, accuracy, i, something) ==
            if t < UNITS[i].usec then Pieces(t, accuracy, i + 1, something)
            else
              var a, b := t / UNITS[i].usec, t % UNITS[i].usec;
              var j := Drops(UNITS[i].usec) - Drops(accuracy);
              var b' := Shifted(b, Drops(accuracy));
              if t < USEC_PER_MINUTE && b > 0 then
                if j > 0 then [Piece(a, b', j, i)]
                else [Piece(a, 0, 0, i)] + Pieces(b', accuracy, i + 1, true)
              else [Piece(a, 0, 0, i)] + Pieces(b, accuracy, i + 1, true)
  {
  }

  // ---------- what the pieces amount to ----------

  /** What a reader makes of a piece. */
  function PieceValue(p: Piece): nat
    requires Known(p)
  {
    p.whole * UNITS[p.unit].usec + Shifted(p.frac * UNITS[p.unit].usec, p.digits)
  }

  function Sum(ps: seq<Piece>): nat
    requires forall k :: 0 <= k < |ps| ==> Known(ps[k])
  {
    if ps == [] then 0 else PieceValue(ps[0]) + Sum(ps[1..])
  }

  function LeadingDigit(x: nat): nat {
    if x < 10 then x else LeadingDigit(x / 10)
  }

  function Max(a: nat, b: nat): nat {
    if a >= b then a else b
  }

  /** The accuracies that bound the loss. */
  predicate Fine(accuracy: nat) {
    accuracy <= 1 || accuracy >= USEC_PER_SEC || LeadingDigit(accuracy) == 1
  }

  lemma {:induction false} LeadingOne(x: nat)
    requires x >= 1
    ensures Pow10(Drops(x)) <= x <==> LeadingDigit(x) == 1
  {
    if x >= 10 {
      LeadingOne(x / 10);
    } else if x >= 2 {
      assert Drops(x) == 1 + Drops(x / 10) && Pow10(1) == 10 * Pow10(0);
    }
  }

  lemma {:induction false} ShiftedZero(b: nat, k: nat, d: nat)
    requires b < Pow10(k) && d >= k
    ensures Shifted(b, d) == 0
    decreases d
  {
    if d > 0 {
      ShiftedZero(b / 10, if k > 0 then k - 1 else 0, d - 1);
    }
  }

  lemma {:induction false} FracValue(b: nat, d: nat, j: nat) returns (low: nat)
    ensures low < Pow10(d) && Shifted(Shifted(b, d) * Pow10(d + j), j) + low == b
  {
    low := ShiftedSplit(b, d);
    var frac := Shifted(b, d);
    Pow10Sum(d, j);
    assert frac * (Pow10(d) * Pow10(j)) == (frac * Pow10(d)) * Pow10(j);
    ShiftedBack(frac * Pow10(d), j);
  }

  /** Where decimals are printed, what they lose is less than the digits they drop. */
  lemma {:induction false} DottedValue(a: nat, b: nat, accuracy: nat, i: nat) returns (low: nat)
    requires i < |UNITS| && UNITS[i].usec == Pow10(Drops(UNITS[i].usec)) && Drops(UNITS[i].usec) > Drops(accuracy)
    ensures low < Pow10(Drops(accuracy))
    ensures PieceValue(Piece(a, Shifted(b, Drops(accuracy)), Drops(UNITS[i].usec) - Drops(accuracy), i)) + low == a * UNITS[i].usec + b
  {
    hide Shifted, Drops, Pow10;
    low := FracValue(b, Drops(accuracy), Drops(UNITS[i].usec) - Drops(accuracy));
  }

  lemma {:induction false} ShortUnits(t: nat, i: nat)
    requires i < |UNITS| && UNITS[i].usec <= t < USEC_PER_MINUTE && t % UNITS[i].usec > 0
    ensures UNITS[i].usec == Pow10(Drops(UNITS[i].usec)) && Drops(UNITS[i].usec) <= 6 && UNITS[i].usec <= USEC_PER_SEC
  {
    Widths();
    Pow10Small();
    assert i == 6 || i == 7;
  }

  lemma {:induction false} SumOne(p: Piece, ps: seq<Piece>)
    requires Known(p) && forall k :: 0 <= k < |ps| ==> Known(ps[k])
    ensures forall k :: 0 <= k < |[p] + ps| ==> Known(([p] + ps)[k])
    ensures Sum([p] + ps) == PieceValue(p) + Sum(ps)
  {
    assert ([p] + ps)[1..] == ps;
  }

  lemma {:induction false} PlainValue(t: nat, i: nat)
    requires i < |UNITS|
    ensures PieceValue(Piece(t / UNITS[i].usec, 0, 0, i)) + t % UNITS[i].usec == t
  {
    assert 0 * UNITS[i].usec == 0;
    assert t == t / UNITS[i].usec * UNITS[i].usec + t % UNITS[i].usec;
  }

  /** The pieces never exceed the time span, and fall short of it by less than a fine accuracy. */
  lemma {:induction false} PiecesBelow(t: nat, accuracy: nat, i: nat, something: bool)
    requires i <= |UNITS| && (i == |UNITS| ==> t == 0)
    ensures Sum(Pieces(t, accuracy, i, something)) <= t
    ensures Fine(accuracy) ==> t - Sum(Pieces(t, accuracy, i, something)) < Max(1, accuracy)
    decreases |UNITS| - i
  {
    hide Pieces, PieceValue, Shifted, LeadingDigit, Sum;
    if i == |UNITS| || t == 0 || (t < accuracy && something) {
      PiecesStop(t, accuracy, i, something);
      NoPieces();
      return;
    }
    PiecesStep(t, accuracy, i, something);
    if t < UNITS[i].usec {
      PiecesBelow(t, accuracy, i + 1, something);
      return;
    }
    if t < USEC_PER_MINUTE && t % UNITS[i].usec > 0 {
      ShortBelow(t, accuracy, i, something);
      return;
    }
    var a, b := t / UNITS[i].usec, t % UNITS[i].usec;
    PlainValue(t, i);
    PiecesBelow(b, accuracy, i + 1, true);
    SumOne(Piece(a, 0, 0, i), Pieces(b, accuracy, i + 1, true));
  }

  /** The case of seconds and milliseconds with a remainder. */
  lemma {:induction false} ShortBelow(t: nat, accuracy: nat, i: nat, something: bool)
    requires i < |UNITS| && t > 0 && !(t < accuracy && something)
    requires UNITS[i].usec <= t < USEC_PER_MINUTE && t % UNITS[i].usec > 0
    ensures Sum(Pieces(t, accuracy, i, something)) <= t
    ensures Fine(accuracy) ==> t - Sum(Pieces(t, accuracy, i, something)) < Max(1, accuracy)
  {
    hide Pieces, PieceValue, Shifted, LeadingDigit, Sum, Drops, Pow10;
    PiecesStep(t, accuracy, i, something);
    ShortUnits(t, i);
    DropBound(accuracy);
    var a, b := t / UNITS[i].usec, t % UNITS[i].usec;
    var j := Drops(UNITS[i].usec) - Drops(accuracy);
    if j > 0 {
      var low := DottedValue(a, b, accuracy, i);
      WholeValue(t, i);
      var p := Piece(a, Shifted(b, Drops(accuracy)), j, i);
      SumOne(p, []);
      assert [p] + [] == [p];
      NoPieces();
      FewDrops(accuracy);
    } else {
      PlainValue(t, i);
      ShiftedZero(b, Drops(UNITS[i].usec), Drops(accuracy));
      Pow10Monotone(Drops(UNITS[i].usec), Drops(accuracy));
      PiecesStop(0, accuracy, i + 1, true);
      SumOne(Piece(a, 0, 0, i), []);
      NoPieces();
    }
  }

  lemma {:induction false} NoPieces()
    ensures Sum([]) == 0
  {
  }

  lemma {:induction false} WholeValue(t: nat, i: nat)
    requires i < |UNITS|
    ensures t == t / UNITS[i].usec * UNITS[i].usec + t % UNITS[i].usec
  {
  }

  lemma {:induction false} DropBound(accuracy: nat)
    ensures Fine(accuracy) ==> Pow10(Drops(accuracy)) <= Max(1, accuracy) || accuracy >= USEC_PER_SEC
  {
    if accuracy >= 1 {
      LeadingOne(accuracy);
    }
  }

  /** An accuracy of a second or more leaves no room for decimals. */
  lemma {:induction false} FewDrops(accuracy: nat)
    ensures Drops(accuracy) < 6 ==> accuracy < USEC_PER_SEC
  {
    if accuracy >= USEC_PER_SEC {
      Widths();
      DropsMonotone(USEC_PER_SEC, accuracy);
    }
  }

  lemma {:induction false} DropsMonotone(x: nat, y: nat)
    requires x <= y
    ensures Drops(x) <= Drops(y)
  {
    if x > 1 {
      DropsMonotone(x / 10, y / 10);
    }
  }

  lemma {:induction false} Pow10Monotone(i: nat, j: nat)
    requires i <= j
    ensures Pow10(i) <= Pow10(j)
  {
    if i < j {
      Pow10Monotone(i, j - 1);
    }
  }

  /** A time span of which an accuracy that is not fine loses too much. */
  function LossyTime(accuracy: nat): nat {
    USEC_PER_SEC + Pow10(Drops(accuracy)) - 1
  }

  lemma {:induction false} SkipUnits(t: nat, accuracy: nat, i: nat)
    requires USEC_PER_SEC <= t < USEC_PER_MINUTE && i <= 6
    ensures Pieces(t, accuracy, i, false) == Pieces(t, accuracy, 6, false)
    decreases 6 - i
  {
    hide Pieces;
    if i < 6 {
      PiecesStep(t, accuracy, i, false);
      SkipUnits(t, accuracy, i + 1);
    }
  }

  lemma {:induction false} CoarseLoses(accuracy: nat)
    requires !Fine(accuracy)
    ensures LossyTime(accuracy) < 2 * USEC_PER_SEC
    ensures LossyTime(accuracy) - Sum(Pieces(LossyTime(accuracy), accuracy, 0, false)) >= accuracy
  {
    hide Pieces, Shifted, Drops, LeadingDigit, Sum, Pow10;
    LeadingOne(accuracy);
    var d := Drops(accuracy);
    SomeDrops(accuracy);
    Pow10Small();
    Pow10Monotone(1, d);
    Pow10Monotone(d, 6);
    var t := LossyTime(accuracy);
    SkipUnits(t, accuracy, 0);
    PiecesStep(t, accuracy, 6, false);
    ShiftedZero(Pow10(d) - 1, d, d);
    PiecesStop(0, accuracy, 7, true);
    Widths();
    var j := 6 - d;
    var p := Piece(1, 0, if j > 0 then j else 0, 6);
    SumOne(p, []);
    assert [p] + [] == [p];
    NoPieces();
    NoFrac(p);
  }

  lemma {:induction false} NoFrac(p: Piece)
    requires Known(p) && p.frac == 0
    ensures PieceValue(p) == p.whole * UNITS[p.unit].usec
  {
    ShiftedZero(0, 0, p.digits);
    assert 0 * UNITS[p.unit].usec == 0;
  }

  lemma {:induction false} SomeDrops(accuracy: nat)
    requires !Fine(accuracy)
    ensures 1 <= Drops(accuracy) <= 6
  {
    Widths();
    DropsMonotone(accuracy, USEC_PER_SEC);
  }

  // ---------- parsing ----------

  predicate IsBlank(c: char) {
    c == ' ' || c == '\t' || c == '\n' || c == '\r'
  }

  /** isspace() in the C locale. */
  predicate IsSpace(c: char) {
    IsBlank(c) || c == 11 as char || c == 12 as char
  }

  /** How many leading characters are white space. */
  function Blanks(s: string): (k: nat)
    ensures k <= |s|
  {
    if s != "" && IsBlank(s[0]) then 1 + Blanks(s[1..]) else 0
  }

  function Spaces(s: string): (k: nat)
    ensures k <= |s|
  {
    if s != "" && IsSpace(s[0]) then 1 + Spaces(s[1..]) else 0
  }

  function DigitRun(s: string): (k: nat)
    ensures k <= |s| && forall i :: 0 <= i < k ==> IsDigit(s[i])
  {
    if s != "" && IsDigit(s[0]) then 1 + DigitRun(s[1..]) else 0
  }

  /** The value, how much of the text it took, and whether it is out of range. */
  datatype Number = Number(value: int, used: nat, range: bool)

  /** strtoll() with base 10: white space, a sign, digits. */
  function Strtoll(s: string): (n: Number)
    ensures n.used <= |s|
  {
    var k := Spaces(s);
    var signed := k < |s| && (s[k] == '+' || s[k] == '-');
    var negative := signed && s[k] == '-';
    var start := if signed then k + 1 else k;
    var run := DigitRun(s[start..]);
    if run == 0 then Number(0, 0, false)
    else
      var v := Value(s[start..][..run]);
      Number(if negative then 0 - v as int else v, start + run, if negative then v > LLONG_MAX + 1 else v > LLONG_MAX)
  }

  const N_SUFFIXES: nat := 28

  /** The suffixes the parser knows, in the order in which it tries them. */
  function Suffix(i: nat): Unit
    requires i < N_SUFFIXES
  {
    match i
    case 0 => Unit("seconds", USEC_PER_SEC)
    case 1 => Unit("second", USEC_PER_SEC)
    case 2 => Unit("sec", USEC_PER_SEC)
    case 3 => Unit("s", USEC_PER_SEC)
    case 4 => Unit("minutes", USEC_PER_MINUTE)
    case 5 => Unit("minute", USEC_PER_MINUTE)
    case 6 => Unit("min", USEC_PER_MINUTE)
    case 7 => Unit("months", USEC_PER_MONTH)
    case 8 => Unit("month", USEC_PER_MONTH)
    case 9 => Unit("msec", USEC_PER_MSEC)
    case 10 => Unit("ms", USEC_PER_MSEC)
    case 11 => Unit("m", USEC_PER_MINUTE)
    case 12 => Unit("hours", USEC_PER_HOUR)
    case 13 => Unit("hour", USEC_PER_HOUR)
    case 14 => Unit("hr", USEC_PER_HOUR)
    case 15 => Unit("h", USEC_PER_HOUR)
    case 16 => Unit("days", USEC_PER_DAY)
    case 17 => Unit("day", USEC_PER_DAY)
    case 18 => Unit("d", USEC_PER_DAY)
    case 19 => Unit("weeks", USEC_PER_WEEK)
    case 20 => Unit("week", USEC_PER_WEEK)
    case 21 => Unit("w", USEC_PER_WEEK)
    case 22 => Unit("years", USEC_PER_YEAR)
    case 23 => Unit("year", USEC_PER_YEAR)
    case 24 => Unit("y", USEC_PER_YEAR)
    case 25 => Unit("usec", 1)
    case 26 => Unit("us", 1)
    case _ => Unit("", USEC_PER_SEC)
  }

  predicate StartsWith(s: string, x: string) {
    |x| <= |s| && forall i :: 0 <= i < |x| ==> s[i] == x[i]
  }

  /** The first suffix in the table that the text starts with; the last one always fits. */
  function FirstMatch(e: string, i: nat): (k: nat)
    requires i < N_SUFFIXES
    ensures i <= k < N_SUFFIXES && StartsWith(e, Suffix(k).suffix)
    ensures forall j :: i <= j < k ==> !StartsWith(e, Suffix(j).suffix)
    decreases N_SUFFIXES - i
  {
    if i == N_SUFFIXES - 1 || StartsWith(e, Suffix(i).suffix) then i else FirstMatch(e, i + 1)
  }

  datatype ParseResult = Parsed(usec: nat) | InvalidArgument | OutOfRange

  /** One number as the parser reads it: the digits before and after the dot, and the text behind. */
  datatype Token = Token(whole: nat, frac: nat, digits: nat, rest: string) | Bad(error: ParseResult)

  function ReadNumber(p: string): (t: Token)
    ensures t.Token? ==> |t.rest| < |p|
  {
    var l := Strtoll(p);
    if l.range || l.value < 0 then Bad(OutOfRange)
    else
      var e := p[l.used..];
      if e != "" && e[0] == '.' then
        var z := Strtoll(e[1..]);
        if z.range || z.value < 0 then Bad(OutOfRange)
        else if z.used == 0 then Bad(InvalidArgument)
        else Token(l.value, z.value, z.used, e[1..][z.used..])
      else if l.used == 0 then Bad(InvalidArgument)
      else Token(l.value, 0, 0, e)
  }

  function Trimmed(s: string): (t: string)
    ensures |t| <= |s|
  {
    s[Blanks(s)..]
  }

  function Scaled(whole: nat, frac: nat, digits: nat, usec: nat): nat {
    whole * usec % U64 + Shifted(frac * usec % U64, digits)
  }

  /** What the rest of the text adds to r. */
  function ParseFrom(s: string, r: nat, something: bool): ParseResult
    decreases |s|
  {
    var p := Trimmed(s);
    if p == "" then if something then Parsed(r) else InvalidArgument
    else match ReadNumber(p)
      case Bad(error) => error
      case Token(whole, frac, digits, rest) =>
        var e := Trimmed(rest);
        var u := Suffix(FirstMatch(e, 0));
        ParseFrom(e[|u.suffix|..], (r + Scaled(whole, frac, digits, u.usec)) % U64, true)
  }

  method ShiftDown(k: nat, n: nat) returns (k': nat)
    ensures k' == Shifted(k, n)
  {
    k' := k;
    var m := n;
    while m > 0
      invariant Shifted(k', m) == Shifted(k, n)
    {
      k' := k' / 10;
      m := m - 1;
    }
  }

  method FindSuffix(e: string) returns (i: nat)
    ensures i == FirstMatch(e, 0)
  {
    i := 0;
    while !StartsWith(e, Suffix(i).suffix)
      invariant i < N_SUFFIXES && FirstMatch(e, i) == FirstMatch(e, 0)
      decreases N_SUFFIXES - i
    {
      assert i < FirstMatch(e, i);
      i := i + 1;
    }
  }

  /** Reads a number and its decimals. */
  method ParseNumber(p: string) returns (t: Token)
    ensures t == ReadNumber(p)
  {
    hide Strtoll;
    var number := Strtoll(p);
    if number.range {
      return Bad(OutOfRange);
    }
    if number.value < 0 {
      return Bad(OutOfRange);
    }
    var e := p[number.used..];
    if e != "" && e[0] == '.' {
      var decimals := Strtoll(e[1..]);
      if decimals.range {
        return Bad(OutOfRange);
      }
      if decimals.value < 0 {
        return Bad(OutOfRange);
      }
      if decimals.used == 0 {
        return Bad(InvalidArgument);
      }
      return Token(number.value, decimals.value, decimals.used, e[1..][decimals.used..]);
    }
    if number.used == 0 {
      return Bad(InvalidArgument);
    }
    t := Token(number.value, 0, 0, e);
  }

  /** Reads a time span. */
  method ParseSec(t: string) returns (r: ParseResult)
    ensures r == ParseFrom(t, 0, false)
  {
    hide ReadNumber, Shifted, FirstMatch, Blanks;
    var sum: nat := 0;
    var something := false;
    var p := t;
    while true
      invariant ParseFrom(p, sum, something) == ParseFrom(t, 0, false)
      decreases |p|
    {
      ghost var before := p;
      TrimmedOnce(p);
      p := p[Blanks(p)..];
      if p == "" {
        return if something then Parsed(sum) else InvalidArgument;
      }
      var token := ParseNumber(p);
      if token.Bad? {
        return token.error;
      }
      var e := token.rest;
      e := e[Blanks(e)..];
      var i := FindSuffix(e);
      var k := ShiftDown(token.frac * Suffix(i).usec % U64, token.digits);
      sum := (sum + (token.whole * Suffix(i).usec % U64 + k)) % U64;
      p := e[|Suffix(i).suffix|..];
      something := true;
    }
  }

  lemma {:induction false} TrimmedOnce(s: string)
    ensures Blanks(Trimmed(s)) == 0 && Trimmed(Trimmed(s)) == Trimmed(s)
  {
    if s != "" && IsBlank(s[0]) {
      TrimmedOnce(s[1..]);
      assert Trimmed(s) == Trimmed(s[1..]);
    }
  }

  // ---------- the round trip ----------

  lemma {:induction false} RunOfDigits(d: string, tail: string)
    requires forall i :: 0 <= i < |d| ==> IsDigit(d[i])
    requires tail == "" || !IsDigit(tail[0])
    ensures DigitRun(d + tail) == |d|
  {
    if d == "" {
      assert d + tail == tail;
    } else {
      assert (d + tail)[1..] == d[1..] + tail;
      RunOfDigits(d[1..], tail);
    }
  }

  /** strtoll() reads back what was printed. */
  lemma {:induction false} StrtollDigits(d: string, tail: string)
    requires d != "" && forall i :: 0 <= i < |d| ==> IsDigit(d[i])
    requires tail == "" || !IsDigit(tail[0])
    requires Value(d) <= LLONG_MAX
    ensures Strtoll(d + tail) == Number(Value(d), |d|, false)
  {
    var s := d + tail;
    assert s[0] == d[0] && !IsSpace(s[0]);
    assert Spaces(s) == 0;
    RunOfDigits(d, tail);
    assert s[0..] == s;
    assert s[..|d|] == d;
  }

  predicate PieceOk(p: Piece) {
    && Known(p) && p.whole <= LLONG_MAX && p.digits <= 6
    && (p.digits > 0 ==> p.frac < Pow10(p.digits) && UNITS[p.unit].usec <= USEC_PER_SEC)
    && (p.digits == 0 ==> p.frac == 0)
  }

  /** The text after a number: the end, or a space before the next number. */
  predicate TailOk(tail: string) {
    tail == "" || tail[0] == ' '
  }

  lemma {:induction false} ReadPiece(p: Piece, rest: string)
    requires PieceOk(p) && rest != "" && !IsDigit(rest[0]) && rest[0] != '.'
    ensures ReadNumber(Digits(p.whole) + (if p.digits > 0 then "." + Padded(p.frac, p.digits) else "") + rest) ==
            Token(p.whole, p.frac, p.digits, rest)
  {
    hide Strtoll, Digits, Padded;
    DigitsValue(p.whole);
    var d := Digits(p.whole);
    if p.digits == 0 {
      assert d + "" + rest == d + rest;
      StrtollDigits(d, rest);
      assert (d + rest)[|d|..] == rest;
    } else {
      PaddedValue(p.frac, p.digits);
      Pow10Small();
      Pow10Monotone(p.digits, 6);
      var f := Padded(p.frac, p.digits);
      var e := "." + (f + rest);
      assert d + ("." + f) + rest == d + e;
      StrtollDigits(d, e);
      assert (d + e)[|d|..] == e;
      assert e[1..] == f + rest;
      StrtollDigits(f, rest);
      assert (f + rest)[|f|..] == rest;
    }
  }

  lemma {:induction false} MatchIs(e: string, k: nat, i: nat)
    requires i <= k < N_SUFFIXES && StartsWith(e, Suffix(k).suffix)
    requires forall j :: i <= j < k ==> !StartsWith(e, Suffix(j).suffix)
    ensures FirstMatch(e, i) == k
    decreases k - i
  {
    if i < k {
      MatchIs(e, k, i + 1);
    }
  }

  /** Which entry of the parser's table reads each suffix that is printed. */
  function EntryOf(unit: nat): nat
    requires unit < |UNITS|
  {
    [24, 8, 21, 18, 15, 6, 3, 10, 26][unit]
  }

  /** Text that starts with `u` and then ends or goes on with a space does not start with x. */
  predicate Differs(x: string, u: string) {
    && |x| > 0 && |u| > 0
    && (x[0] != u[0] || (|x| > 1 && |u| > 1 && x[1] != u[1]) || (|x| > |u| && x[|u|] != ' '))
  }

  lemma {:induction false} DiffersFrom(x: string, u: string, tail: string)
    requires TailOk(tail) && Differs(x, u)
    ensures !StartsWith(u + tail, x)
  {
    var e := u + tail;
    assert e[0] == u[0] && (|u| > 1 ==> e[1] == u[1]) && (tail != "" ==> e[|u|] == ' ');
  }

  lemma {:induction false} SuffixMatch(unit: nat, tail: string)
    requires unit < |UNITS| && TailOk(tail)
    ensures EntryOf(unit) < N_SUFFIXES && Suffix(EntryOf(unit)) == UNITS[unit]
    ensures FirstMatch(UNITS[unit].suffix + tail, 0) == EntryOf(unit)
  {
    var u := UNITS[unit].suffix;
    var e := u + tail;
    var k := EntryOf(unit);
    forall j | 0 <= j < k ensures !StartsWith(e, Suffix(j).suffix) {
      Differ(unit, j);
      DiffersFrom(Suffix(j).suffix, u, tail);
    }
    MatchIs(e, k, 0);
  }

  lemma {:induction false} Differ(unit: nat, j: nat)
    requires unit < |UNITS| && j < EntryOf(unit)
    ensures Differs(Suffix(j).suffix, UNITS[unit].suffix)
  {
    match unit {
      case 0 => assert UNITS[0].suffix == "y" && j < 24;
      case 1 => assert UNITS[1].suffix == "month" && j < 8;
      case 2 => assert UNITS[2].suffix == "w" && j < 21;
      case 3 => assert UNITS[3].suffix == "d" && j < 18;
      case 4 => assert UNITS[4].suffix == "h" && j < 15;
      case 5 => assert UNITS[5].suffix == "min" && j < 6;
      case 6 => assert UNITS[6].suffix == "s" && j < 3;
      case 7 => assert UNITS[7].suffix == "ms" && j < 10;
      case 8 => assert UNITS[8].suffix == "us" && j < 26;
    }
  }

  lemma {:induction false} NotBlank(s: string)
    requires s != "" && !IsBlank(s[0])
    ensures Trimmed(s) == s
  {
  }

  lemma {:induction false} SuffixShape(unit: nat)
    requires unit < |UNITS|
    ensures UNITS[unit].suffix != "" && 'a' <= UNITS[unit].suffix[0] <= 'z'
  {
    match unit {
      case 0 => assert UNITS[0].suffix == "y";
      case 1 => assert UNITS[1].suffix == "month";
      case 2 => assert UNITS[2].suffix == "w";
      case 3 => assert UNITS[3].suffix == "d";
      case 4 => assert UNITS[4].suffix == "h";
      case 5 => assert UNITS[5].suffix == "min";
      case 6 => assert UNITS[6].suffix == "s";
      case 7 => assert UNITS[7].suffix == "ms";
      case 8 => assert UNITS[8].suffix == "us";
    }
  }

  /** Scaling does not overflow for what is printed. */
  lemma {:induction false} ScaledValue(p: Piece)
    requires PieceOk(p) && PieceValue(p) < U64
    ensures Scaled(p.whole, p.frac, p.digits, UNITS[p.unit].usec) == PieceValue(p)
  {
    hide Shifted;
    var usec := UNITS[p.unit].usec;
    if p.digits > 0 {
      Pow10Small();
      Pow10Monotone(p.digits, 6);
      assert p.frac * usec <= 1000000 * usec;
    } else {
      assert p.frac * usec == 0;
    }
    assert p.whole * usec >= 0;
  }

  lemma {:induction false} ParseStep(p: string, t: Token, e: string, k: nat, r: nat, something: bool)
    requires p != "" && Trimmed(p) == p && ReadNumber(p) == t && t.Token? && e == Trimmed(t.rest) && k == FirstMatch(e, 0)
    ensures ParseFrom(p, r, something) ==
            ParseFrom(e[|Suffix(k).suffix|..], (r + Scaled(t.whole, t.frac, t.digits, Suffix(k).usec)) % U64, true)
  {
    hide ReadNumber, FirstMatch, Scaled, Trimmed;
  }

  /** One printed piece adds its value. */
  lemma {:induction false} ParsePiece(p: Piece, tail: string, r: nat, something: bool)
    requires PieceOk(p) && TailOk(tail) && r + PieceValue(p) < U64
    ensures ParseFrom(PieceText(p) + tail, r, something) == ParseFrom(tail, r + PieceValue(p), true)
  {
    hide ReadNumber, FirstMatch, Scaled, PieceValue, Digits, Padded, ParseFrom, Trimmed, TailOk;
    var u := UNITS[p.unit].suffix;
    var number := Digits(p.whole) + (if p.digits > 0 then "." + Padded(p.frac, p.digits) else "");
    var s := PieceText(p) + tail;
    assert s == number + (u + tail);
    SuffixShape(p.unit);
    ReadPiece(p, u + tail);
    assert s[0] == Digits(p.whole)[0];
    NotBlank(s);
    NotBlank(u + tail);
    SuffixMatch(p.unit, tail);
    ScaledValue(p);
    assert (u + tail)[|u|..] == tail;
    ParseStep(s, Token(p.whole, p.frac, p.digits, u + tail), u + tail, EntryOf(p.unit), r, something);
  }

  lemma {:induction false} ParseTrimmed(s: string, s': string, r: nat, something: bool)
    requires Trimmed(s) == Trimmed(s')
    ensures ParseFrom(s, r, something) == ParseFrom(s', r, something)
  {
    hide ReadNumber, FirstMatch, Scaled, Trimmed;
  }

  /** A space in front makes no difference. */
  lemma {:induction false} ParseSpace(s: string, r: nat, something: bool)
    ensures ParseFrom(" " + s, r, something) == ParseFrom(s, r, something)
  {
    hide ParseFrom;
    assert (" " + s)[1..] == s;
    assert Trimmed(" " + s) == Trimmed(s);
    ParseTrimmed(" " + s, s, r, something);
  }

  lemma {:induction false} SumAppend(ps: seq<Piece>, p: Piece)
    requires Known(p) && forall k :: 0 <= k < |ps| ==> Known(ps[k])
    ensures forall k :: 0 <= k < |ps + [p]| ==> Known((ps + [p])[k])
    ensures Sum(ps + [p]) == Sum(ps) + PieceValue(p)
  {
    if ps == [] {
      assert ([p] + [])[1..] == [];
      assert [] + [p] == [p];
    } else {
      assert (ps + [p])[1..] == ps[1..] + [p];
      SumAppend(ps[1..], p);
    }
  }

  /** Printed pieces add up. */
  lemma {:induction false} ParseText(ps: seq<Piece>, tail: string)
    requires ps != [] && (forall k :: 0 <= k < |ps| ==> Known(ps[k]) && PieceOk(ps[k])) && TailOk(tail) && Sum(ps) < U64
    ensures ParseFrom(Text(ps) + tail, 0, false) == ParseFrom(tail, Sum(ps), true)
    decreases |ps|
  {
    hide ParseFrom, PieceText, PieceValue, Sum;
    var front, p := ps[..|ps| - 1], ps[|ps| - 1];
    assert ps == front + [p];
    SumAppend(front, p);
    var last := PieceText(p) + tail;
    if front == [] {
      NoPieces();
      assert Text(ps) == PieceText(p) by { assert "" + PieceText(p) == PieceText(p); }
      ParsePiece(p, tail, 0, false);
    } else {
      assert Text(ps) + tail == Text(front) + (" " + last);
      ParseText(front, " " + last);
      ParseSpace(last, Sum(front), true);
      ParsePiece(p, tail, Sum(front), true);
    }
  }

  lemma {:induction false} PiecesOk(t: nat, accuracy: nat, i: nat, something: bool)
    requires i <= |UNITS| && t < U64 && (i > 0 ==> t < UNITS[i - 1].usec)
    ensures forall k :: 0 <= k < |Pieces(t, accuracy, i, something)| ==> PieceOk(Pieces(t, accuracy, i, something)[k])
    decreases |UNITS| - i
  {
    hide Pieces, Shifted, Drops;
    if i == |UNITS| || t == 0 || (t < accuracy && something) {
      PiecesStop(t, accuracy, i, something);
      return;
    }
    PiecesStep(t, accuracy, i, something);
    if t < UNITS[i].usec {
      PiecesOk(t, accuracy, i + 1, something);
      return;
    }
    var a, b := t / UNITS[i].usec, t % UNITS[i].usec;
    WholeBound(t, i);
    if t < USEC_PER_MINUTE && b > 0 {
      ShortUnits(t, i);
      var j := Drops(UNITS[i].usec) - Drops(accuracy);
      if j > 0 {
        FracBound(b, Drops(accuracy), j);
      } else {
        ShiftedSmall(b, Drops(accuracy));
        PiecesOk(Shifted(b, Drops(accuracy)), accuracy, i + 1, true);
      }
    } else {
      PiecesOk(b, accuracy, i + 1, true);
    }
  }

  lemma {:induction false} WholeBound(t: nat, i: nat)
    requires i < |UNITS| && t < U64 && (i > 0 ==> t < UNITS[i - 1].usec)
    ensures t / UNITS[i].usec <= LLONG_MAX
  {
    match i {
      case 0 => assert UNITS[0].usec == USEC_PER_YEAR;
      case 1 => assert UNITS[1].usec == USEC_PER_MONTH;
      case 2 => assert UNITS[2].usec == USEC_PER_WEEK;
      case 3 => assert UNITS[3].usec == USEC_PER_DAY;
      case 4 => assert UNITS[4].usec == USEC_PER_HOUR;
      case 5 => assert UNITS[5].usec == USEC_PER_MINUTE;
      case 6 => assert UNITS[6].usec == USEC_PER_SEC;
      case 7 => assert UNITS[7].usec == USEC_PER_MSEC;
      case 8 => assert UNITS[8].usec == 1 && UNITS[7].usec == USEC_PER_MSEC;
    }
  }

  lemma {:induction false} ShiftedSmall(b: nat, k: nat)
    ensures Shifted(b, k) <= b
  {
    if k > 0 {
      ShiftedSmall(b / 10, k - 1);
    }
  }

  lemma {:induction false} FracBound(b: nat, d: nat, j: nat)
    requires b < Pow10(d + j)
    ensures Shifted(b, d) < Pow10(j)
  {
    if d > 0 {
      FracBound(b / 10, d - 1, j);
    }
  }

  /** What parse_sec makes of what format_timespan writes. */
  function ReadBack(t: nat, accuracy: nat): nat {
    if t == 0 then 0 else Sum(Pieces(t, accuracy, 0, false))
  }

  lemma {:induction false} ParseZero()
    ensures ParseFrom("0", 0, false) == Parsed(0)
  {
    hide FirstMatch, ReadNumber, ParseFrom;
    assert Digits(0) == "0" && Value("0") == 0 by { assert "0"[..0] == ""; }
    StrtollDigits("0", "");
    assert "0" + "" == "0";
    ZeroToken();
    ZeroStep();
  }

  lemma {:induction false} ZeroToken()
    requires Strtoll("0") == Number(0, 1, false)
    ensures ReadNumber("0") == Token(0, 0, 0, "")
  {
    hide Strtoll;
  }

  lemma {:induction false} ZeroStep()
    requires ReadNumber("0") == Token(0, 0, 0, "")
    ensures ParseFrom("0", 0, false) == Parsed(0)
  {
    hide ReadNumber, FirstMatch;
    NotBlank("0");
    assert Trimmed("") == "";
    assert forall j :: 0 <= j < N_SUFFIXES - 1 ==> |Suffix(j).suffix| > 0;
    MatchIs("", N_SUFFIXES - 1, 0);
  }

  /** Reading back a printed time span succeeds, never exceeds it, and falls short by less than a fine accuracy. */
  lemma {:induction false} RoundTrip(t: nat, accuracy: nat)
    requires t < USEC_INFINITY
    ensures ParseFrom(Formatted(t, accuracy), 0, false) == Parsed(ReadBack(t, accuracy))
    ensures ReadBack(t, accuracy) <= t
    ensures Fine(accuracy) ==> t - ReadBack(t, accuracy) < Max(1, accuracy)
  {
    hide Pieces, ParseFrom, Text, Sum, Fine, PieceOk;
    if t == 0 {
      ParseZero();
      return;
    }
    PiecesBelow(t, accuracy, 0, false);
    PiecesOk(t, accuracy, 0, false);
    SomePieces(t, accuracy, 0);
    ParseText(Pieces(t, accuracy, 0, false), "");
    assert Formatted(t, accuracy) + "" == Formatted(t, accuracy);
    ParseNothing(ReadBack(t, accuracy));
  }

  lemma {:induction false} ParseNothing(r: nat)
    ensures ParseFrom("", r, true) == Parsed(r)
  {
  }

  lemma {:induction false} SomePieces(t: nat, accuracy: nat, i: nat)
    requires t > 0 && i < |UNITS|
    ensures Pieces(t, accuracy, i, false) != []
    decreases |UNITS| - i
  {
    hide Pieces, Shifted, Drops;
    PiecesStep(t, accuracy, i, false);
    if t < UNITS[i].usec {
      SomePieces(t, accuracy, i + 1);
    }
  }

  predicate LosesLittle(t: nat, accuracy: nat)
    requires t < USEC_INFINITY
  {
    t - ReadBack(t, accuracy) < Max(1, accuracy)
  }

  /** Every time span reads back to within the accuracy exactly if the accuracy is fine: 0, a number
      that starts with the digit 1, or at least a second. */
  lemma {:induction false} AccuracyExact(accuracy: nat)
    ensures Fine(accuracy) <==> forall t :: 0 <= t < USEC_INFINITY ==> LosesLittle(t, accuracy)
  {
    hide Pieces, Sum, ReadBack, Fine;
    if Fine(accuracy) {
      forall t | 0 <= t < USEC_INFINITY ensures LosesLittle(t, accuracy) {
        RoundTrip(t, accuracy);
      }
    } else {
      LossWitness(accuracy);
    }
  }

  lemma {:induction false} LossWitness(accuracy: nat)
    requires !Fine(accuracy)
    ensures LossyTime(accuracy) < USEC_INFINITY && !LosesLittle(LossyTime(accuracy), accuracy)
  {
    hide Pieces, Sum, LeadingDigit, Drops;
    CoarseLoses(accuracy);
  }

  // ---------- the words for units ----------

  /** The words for units in the order in which they are tried, with their microseconds. */
  const NAMES: seq<(string, nat)> := [
    ("seconds", 1_000_000), ("second", 1_000_000), ("sec", 1_000_000), ("s", 1_000_000), ("minutes", 60_000_000),
    ("minute", 60_000_000), ("min", 60_000_000), ("months", 2_629_800_000_000), ("month", 2_629_800_000_000),
    ("msec", 1_000), ("ms", 1_000), ("m", 60_000_000), ("hours", 3_600_000_000), ("hour", 3_600_000_000),
    ("hr", 3_600_000_000), ("h", 3_600_000_000), ("days", 86_400_000_000), ("day", 86_400_000_000),
    ("d", 86_400_000_000), ("weeks", 604_800_000_000), ("week", 604_800_000_000), ("w", 604_800_000_000),
    ("years", 31_557_600_000_000), ("year", 31_557_600_000_000), ("y", 31_557_600_000_000), ("usec", 1), ("us", 1),
    ("", 1_000_000)
  ]

  /** Not the same in the first two characters, or longer. */
  predicate Apart(x: string, u: string) {
    |x| > |u| || (|x| > 0 && x[0] != u[0]) || (|x| > 1 && x[1] != u[1])
  }

  lemma {:induction false} NamesAre(k: nat)
    requires k < N_SUFFIXES
    ensures |NAMES| == N_SUFFIXES && Suffix(k) == Unit(NAMES[k].0, NAMES[k].1)
  {
  }

  /** No word starts with one that is tried before it. */
  lemma {:induction false} NamesApart(k: nat, j: nat)
    requires j < k < N_SUFFIXES
    ensures Apart(Suffix(j).suffix, Suffix(k).suffix)
  {
  }

  lemma {:induction false} NameFound(k: nat)
    requires k < N_SUFFIXES
    ensures FirstMatch(Suffix(k).suffix, 0) == k
  {
    hide Suffix;
    var u := Suffix(k).suffix;
    forall j | 0 <= j < k ensures !StartsWith(u, Suffix(j).suffix) {
      NamesApart(k, j);
    }
    MatchIs(u, k, 0);
  }

  /** A number and a word for a unit, with or without a space in between, read as so many of that unit. */
  lemma {:induction false} NumberOfUnits(n: nat, k: nat, gap: string)
    requires k < N_SUFFIXES && n <= LLONG_MAX && |NAMES| == N_SUFFIXES && n * NAMES[k].1 < U64 && (gap == "" || gap == " ")
    ensures ParseFrom(Digits(n) + (gap + NAMES[k].0), 0, false) == Parsed(n * NAMES[k].1)
  {
    hide Suffix, FirstMatch, ReadNumber, ParseFrom, Digits, Strtoll, Trimmed;
    NamesAre(k);
    NameFound(k);
    NameShape(k);
    ReadUnits(n, NAMES[k].0, NAMES[k].1, k, gap);
  }

  lemma {:induction false} ReadUnits(n: nat, u: string, usec: nat, k: nat, gap: string)
    requires k < N_SUFFIXES && Suffix(k) == Unit(u, usec) && FirstMatch(u, 0) == k && (u != "" ==> 'a' <= u[0] <= 'z')
    requires n <= LLONG_MAX && n * usec < U64 && (gap == "" || gap == " ")
    ensures ParseFrom(Digits(n) + (gap + u), 0, false) == Parsed(n * usec)
  {
    hide Suffix, FirstMatch, ReadNumber, ParseFrom, Digits, Strtoll, Trimmed, Value;
    var rest := gap + u;
    var s := Digits(n) + rest;
    DigitsValue(n);
    RestShape(gap, u);
    StrtollDigits(Digits(n), rest);
    TokenOf(Digits(n), rest, n);
    TrimmedName(gap, u);
    assert s[0] == Digits(n)[0];
    NotBlank(s);
    ParseStep(s, Token(n, 0, 0, rest), u, k, 0, false);
    assert u[|u|..] == "";
    WholeScaled(n, usec);
    ParseNothing(n * usec);
  }

  lemma {:induction false} RestShape(gap: string, u: string)
    requires (gap == "" || gap == " ") && (u != "" ==> 'a' <= u[0] <= 'z')
    ensures gap + u == "" || (!IsDigit((gap + u)[0]) && (gap + u)[0] != '.')
  {
  }

  lemma {:induction false} NameShape(k: nat)
    requires k < N_SUFFIXES
    ensures Suffix(k).suffix != "" ==> 'a' <= Suffix(k).suffix[0] <= 'z'
  {
  }

  lemma {:induction false} TokenOf(d: string, rest: string, n: nat)
    requires Strtoll(d + rest) == Number(n, |d|, false) && |d| > 0 && (rest != "" ==> rest[0] != '.')
    ensures ReadNumber(d + rest) == Token(n, 0, 0, rest)
  {
    hide Strtoll;
    assert (d + rest)[|d|..] == rest;
  }

  lemma {:induction false} TrimmedName(gap: string, u: string)
    requires (gap == "" || gap == " ") && (u != "" ==> 'a' <= u[0] <= 'z')
    ensures Trimmed(gap + u) == u
  {
    assert Blanks(u) == 0;
    if gap == " " {
      assert (gap + u)[1..] == u;
      assert Blanks(gap + u) == 1;
    } else {
      assert gap + u == u;
    }
  }

  lemma {:induction false} WholeScaled(n: nat, usec: nat)
    requires n * usec < U64
    ensures (0 + Scaled(n, 0, 0, usec)) % U64 == n * usec
  {
  }

  // ---------- what is refused ----------

  /** Nothing, and anything that does not start with a number, is invalid. */
  lemma {:induction false} NoNumber(s: string)
    requires s == "" || 'a' <= s[0] <= 'z'
    ensures ParseFrom(s, 0, false) == InvalidArgument
  {
    if s != "" {
      assert Blanks(s) == 0 && Trimmed(s) == s;
      assert Spaces(s) == 0 && DigitRun(s[0..]) == 0;
      assert Strtoll(s) == Number(0, 0, false);
      assert s[0..] == s;
    }
  }

  /** A negative number is out of range. */
  lemma {:induction false} NegativeNumber(n: nat, tail: string)
    requires n > 0 && (tail == "" || !IsDigit(tail[0]))
    ensures ParseFrom("-" + (Digits(n) + tail), 0, false) == OutOfRange
  {
    hide Digits, Value, DigitRun;
    DigitsValue(n);
    var rest := Digits(n) + tail;
    var s := "-" + rest;
    RunOfDigits(Digits(n), tail);
    assert s[1..] == rest && rest[..|Digits(n)|] == Digits(n);
    assert Spaces(s) == 0 && Blanks(s) == 0 && Trimmed(s) == s;
    NegativeStep(s);
  }

  lemma {:induction false} NegativeStep(s: string)
    requires s != "" && Trimmed(s) == s && (Strtoll(s).value < 0 || Strtoll(s).range)
    ensures ParseFrom(s, 0, false) == OutOfRange
  {
    hide Strtoll;
  }

  // ---------- the largest units first ----------

  /** The units get smaller, from unit i on, and each occurs less often than would make one of the next larger unit. */
  predicate LargestUnits(ps: seq<Piece>, i: nat)
    requires forall k :: 0 <= k < |ps| ==> Known(ps[k])
  {
    && (forall k :: 0 <= k < |ps| ==> ps[k].whole > 0 && ps[k].unit >= i)
    && (forall k :: 0 <= k < |ps| && 0 < ps[k].unit < |UNITS| ==> ps[k].whole * UNITS[ps[k].unit].usec < UNITS[ps[k].unit - 1].usec)
    && (forall k, l :: 0 <= k < l < |ps| ==> ps[k].unit < ps[l].unit)
  }

  lemma {:induction false} LargerBefore(p: Piece, ps: seq<Piece>, i: nat)
    requires (forall k :: 0 <= k < |ps| ==> Known(ps[k])) && Known(p) && LargestUnits(ps, i + 1)
    requires p.unit == i && p.whole > 0 && (i > 0 ==> p.whole * UNITS[i].usec < UNITS[i - 1].usec)
    ensures LargestUnits([p] + ps, i)
  {
    var all := [p] + ps;
    assert forall k :: 0 < k < |all| ==> all[k] == ps[k - 1];
  }

  /** Each unit is printed as often as it fits into what the larger ones leave. */
  lemma {:induction false} LargestFirst(t: nat, accuracy: nat, i: nat, something: bool)
    requires i <= |UNITS| && (i > 0 ==> t < UNITS[i - 1].usec)
    ensures LargestUnits(Pieces(t, accuracy, i, something), i)
    decreases |UNITS| - i
  {
    hide Pieces, Drops, Shifted, LargestUnits;
    if i < |UNITS| && t > 0 && !(t < accuracy && something) {
      PiecesStep(t, accuracy, i, something);
      if t < UNITS[i].usec {
        LargestFirst(t, accuracy, i + 1, something);
        SmallerUnits(Pieces(t, accuracy, i + 1, something), i);
      } else {
        var b := t % UNITS[i].usec;
        ShiftedSmall(b, Drops(accuracy));
        LargestFirst(b, accuracy, i + 1, true);
        LargestFirst(Shifted(b, Drops(accuracy)), accuracy, i + 1, true);
        UnitPositive(i);
        WholeFits(t, UNITS[i].usec);
        var a, b', j := t / UNITS[i].usec, Shifted(b, Drops(accuracy)), Drops(UNITS[i].usec) - Drops(accuracy);
        var p := Piece(a, b', if j > 0 then j else 0, i);
        FirstUnit(a, i, Pieces(b, accuracy, i + 1, true), p);
        FirstUnit(a, i, Pieces(b', accuracy, i + 1, true), p);
      }
    } else {
      PiecesStop(t, accuracy, i, something);
      NoSmaller(i);
    }
  }

  lemma {:induction false} SmallerUnits(ps: seq<Piece>, i: nat)
    requires (forall k :: 0 <= k < |ps| ==> Known(ps[k])) && LargestUnits(ps, i + 1)
    ensures LargestUnits(ps, i)
  {
  }

  lemma {:induction false} FirstUnit(a: nat, i: nat, ps: seq<Piece>, p: Piece)
    requires i < |UNITS| && a > 0 && (i > 0 ==> a * UNITS[i].usec < UNITS[i - 1].usec) && p.whole == a && p.unit == i
    requires (forall k :: 0 <= k < |ps| ==> Known(ps[k])) && LargestUnits(ps, i + 1)
    ensures LargestUnits([Piece(a, 0, 0, i)] + ps, i) && LargestUnits([p], i)
  {
    hide LargestUnits;
    LargerBefore(Piece(a, 0, 0, i), ps, i);
    NoSmaller(i + 1);
    LargerBefore(p, [], i);
    assert [p] + [] == [p];
  }

  lemma {:induction false} NoSmaller(i: nat)
    ensures LargestUnits([], i)
  {
  }

  lemma {:induction false} WholeFits(t: nat, usec: nat)
    requires usec > 0
    ensures t / usec * usec <= t && (t >= usec ==> t / usec > 0)
  {
  }

  /** Below a minute, and to the microsecond, one number is printed, with decimals where it takes them. */
  lemma {:induction false} OneNumber(t: nat, i: nat)
    requires 0 < t < USEC_PER_MINUTE && i < |UNITS|
    ensures |Pieces(t, 1, i, false)| == 1
    decreases |UNITS| - i
  {
    hide Pieces, Drops, Shifted;
    PiecesStep(t, 1, i, false);
    if t < UNITS[i].usec {
      OneNumber(t, i + 1);
    } else {
      OneDrop();
      UnitDrops(i, t);
      if t % UNITS[i].usec == 0 {
        PiecesStop(0, 1, i + 1, true);
      }
    }
  }

  lemma {:induction false} OneDrop()
    ensures Drops(1) == 0
  {
  }

  /** Units of which a remainder is left have decimals. */
  lemma {:induction false} UnitDrops(i: nat, t: nat)
    requires i < |UNITS| && t >= UNITS[i].usec && t < USEC_PER_MINUTE
    ensures t % UNITS[i].usec != 0 ==> Drops(UNITS[i].usec) > 0
  {
    if UNITS[i].usec == 1 {
      assert t % 1 == 0;
    }
  }
}
