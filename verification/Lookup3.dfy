/** Bob Jenkins' lookup3 hash (lib/hash/): the reversible mixing of three words, and the
    hash of a byte string read by words, by half words or by bytes. */
module Lookup3 {

  type Word = bv32

  type Bytes = seq<bv8>

  type State = (Word, Word, Word)

  // ---------- 32-bit arithmetic ----------

  function Add(x: Word, y: Word): Word { x + y }

  function Sub(x: Word, y: Word): Word { x - y }

  function Xor(x: Word, y: Word): Word { x ^ y }

  function Rot(x: Word, k: bv32): Word
    requires 0 < k < 32
  {
    (x << k) | (x >> (32 - k))
  }

  lemma {:induction false} Cancel(x: Word, y: Word)
    ensures Xor(Xor(x, y), y) == x && Sub(Add(x, y), y) == x && Add(Sub(x, y), y) == x
  {
    hide Add, Sub, Xor;
    XorBack(x, y);
    AddBack(x, y);
    SubBack(x, y);
  }

  lemma {:induction false} XorBack(x: Word, y: Word)
    ensures Xor(Xor(x, y), y) == x
  {
  }

  lemma {:induction false} AddBack(x: Word, y: Word)
    ensures Sub(Add(x, y), y) == x
  {
    assert Sub(x + y, y) == x;
  }

  lemma {:induction false} SubBack(x: Word, y: Word)
    ensures Add(Sub(x, y), y) == x
  {
    assert Add(x - y, y) == x;
  }

  // ---------- mixing ----------

  /** One line of the mixing: `a -= c; a ^= rot(c, k); c += b`. */
  function Stir(a: Word, b: Word, c: Word, k: bv32): State
    requires 0 < k < 32
  {
    (Xor(Sub(a, c), Rot(c, k)), b, Add(c, b))
  }

  function Unstir(a: Word, b: Word, c: Word, k: bv32): State
    requires 0 < k < 32
  {
    (Add(Xor(a, Rot(Sub(c, b), k)), Sub(c, b)), b, Sub(c, b))
  }

  lemma {:induction false} StirBack(a: Word, b: Word, c: Word, k: bv32)
    requires 0 < k < 32
    ensures var s := Stir(a, b, c, k); Unstir(s.0, s.1, s.2, k) == (a, b, c)
    ensures var s := Unstir(a, b, c, k); Stir(s.0, s.1, s.2, k) == (a, b, c)
  {
    hide Rot, Add, Sub, Xor;
    Cancel(c, b);
    Cancel(Sub(a, c), Rot(c, k));
    Cancel(a, c);
    var d := Sub(c, b);
    Cancel(a, Rot(d, k));
    Cancel(Xor(a, Rot(d, k)), d);
  }

  function Mix(a: Word, b: Word, c: Word): State {
    var s := Stir(a, b, c, 4);
    var t := Stir(s.1, s.2, s.0, 6);
    var u := Stir(t.1, t.2, t.0, 8);
    var v := Stir(u.1, u.2, u.0, 16);
    var w := Stir(v.1, v.2, v.0, 19);
    var x := Stir(w.1, w.2, w.0, 4);
    (x.1, x.2, x.0)
  }

  function Unmix(a: Word, b: Word, c: Word): State {
    var x := Unstir(c, a, b, 4);
    var w := Unstir(x.2, x.0, x.1, 19);
    var v := Unstir(w.2, w.0, w.1, 16);
    var u := Unstir(v.2, v.0, v.1, 8);
    var t := Unstir(u.2, u.0, u.1, 6);
    Unstir(t.2, t.0, t.1, 4)
  }

  /** Nothing of the three words is lost in mixing: it is a bijection. */
  lemma {:induction false} MixReversible(a: Word, b: Word, c: Word)
    ensures var m := Mix(a, b, c); Unmix(m.0, m.1, m.2) == (a, b, c)
    ensures var m := Unmix(a, b, c); Mix(m.0, m.1, m.2) == (a, b, c)
  {
    hide Mix, Unmix;
    MixForth(a, b, c);
    MixBack(a, b, c);
  }

  lemma {:induction false} MixForth(a: Word, b: Word, c: Word)
    ensures var m := Mix(a, b, c); Unmix(m.0, m.1, m.2) == (a, b, c)
  {
    hide Stir, Unstir;
    var s := Stir(a, b, c, 4);
    var t := Stir(s.1, s.2, s.0, 6);
    var u := Stir(t.1, t.2, t.0, 8);
    var v := Stir(u.1, u.2, u.0, 16);
    var w := Stir(v.1, v.2, v.0, 19);
    StirBack(a, b, c, 4);
    StirBack(s.1, s.2, s.0, 6);
    StirBack(t.1, t.2, t.0, 8);
    StirBack(u.1, u.2, u.0, 16);
    StirBack(v.1, v.2, v.0, 19);
    StirBack(w.1, w.2, w.0, 4);
  }

  lemma {:induction false} MixBack(a: Word, b: Word, c: Word)
    ensures var m := Unmix(a, b, c); Mix(m.0, m.1, m.2) == (a, b, c)
  {
    hide Stir, Unstir;
    var x := Unstir(c, a, b, 4);
    var w := Unstir(x.2, x.0, x.1, 19);
    var v := Unstir(w.2, w.0, w.1, 16);
    var u := Unstir(v.2, v.0, v.1, 8);
    var t := Unstir(u.2, u.0, u.1, 6);
    StirBack(c, a, b, 4);
    StirBack(x.2, x.0, x.1, 19);
    StirBack(w.2, w.0, w.1, 16);
    StirBack(v.2, v.0, v.1, 8);
    StirBack(u.2, u.0, u.1, 6);
    StirBack(t.2, t.0, t.1, 4);
  }

  /** The mixing as it is written. */
  method MixWords(a0: Word, b0: Word, c0: Word) returns (a: Word, b: Word, c: Word)
    ensures (a, b, c) == Mix(a0, b0, c0)
  {
    hide Rot, Add, Sub, Xor;
    a, b, c := a0, b0, c0;
    a := Sub(a, c); a := Xor(a, Rot(c, 4)); c := Add(c, b);
    b := Sub(b, a); b := Xor(b, Rot(a, 6)); a := Add(a, c);
    c := Sub(c, b); c := Xor(c, Rot(b, 8)); b := Add(b, a);
    a := Sub(a, c); a := Xor(a, Rot(c, 16)); c := Add(c, b);
    b := Sub(b, a); b := Xor(b, Rot(a, 19)); a := Add(a, c);
    c := Sub(c, b); c := Xor(c, Rot(b, 4)); b := Add(b, a);
  }

  /** One half line of the final mixing: `c ^= b; c -= rot(b, k)`. */
  function Fold(c: Word, b: Word, k: bv32): Word
    requires 0 < k < 32
  {
    Sub(Xor(c, b), Rot(b, k))
  }

  function Finish(a: Word, b: Word, c: Word): State {
    var c1 := Fold(c, b, 14);
    var a1 := Fold(a, c1, 11);
    var b1 := Fold(b, a1, 25);
    var c2 := Fold(c1, b1, 16);
    var a2 := Fold(a1, c2, 4);
    var b2 := Fold(b1, a2, 14);
    (a2, b2, Fold(c2, b2, 24))
  }

  function Unfold(c: Word, b: Word, k: bv32): Word
    requires 0 < k < 32
  {
    Xor(Add(c, Rot(b, k)), b)
  }

  lemma {:induction false} FoldBack(c: Word, b: Word, k: bv32)
    requires 0 < k < 32
    ensures Unfold(Fold(c, b, k), b, k) == c && Fold(Unfold(c, b, k), b, k) == c
  {
    hide Rot, Add, Sub, Xor;
    Cancel(Xor(c, b), Rot(b, k));
    Cancel(c, Rot(b, k));
    Cancel(c, b);
    Cancel(Add(c, Rot(b, k)), b);
  }

  function Unfinish(a: Word, b: Word, c: Word): State {
    var c2 := Unfold(c, b, 24);
    var b1 := Unfold(b, a, 14);
    var a1 := Unfold(a, c2, 4);
    var c1 := Unfold(c2, b1, 16);
    var b0 := Unfold(b1, a1, 25);
    var a0 := Unfold(a1, c1, 11);
    (a0, b0, Unfold(c1, b0, 14))
  }

  /** Neither does the final mixing lose anything: it is a bijection, too. */
  lemma {:induction false} FinishReversible(a: Word, b: Word, c: Word)
    ensures var f := Finish(a, b, c); Unfinish(f.0, f.1, f.2) == (a, b, c)
    ensures var f := Unfinish(a, b, c); Finish(f.0, f.1, f.2) == (a, b, c)
  {
    hide Fold, Unfold;
    var c1 := Fold(c, b, 14);
    var a1 := Fold(a, c1, 11);
    var b1 := Fold(b, a1, 25);
    var c2 := Fold(c1, b1, 16);
    var a2 := Fold(a1, c2, 4);
    var b2 := Fold(b1, a2, 14);
    FoldBack(c, b, 14);
    FoldBack(a, c1, 11);
    FoldBack(b, a1, 25);
    FoldBack(c1, b1, 16);
    FoldBack(a1, c2, 4);
    FoldBack(b1, a2, 14);
    FoldBack(c2, b2, 24);
    FinishForth(a, b, c);
  }

  lemma {:induction false} FinishForth(a: Word, b: Word, c: Word)
    ensures var f := Unfinish(a, b, c); Finish(f.0, f.1, f.2) == (a, b, c)
  {
    hide Fold, Unfold;
    var c2 := Unfold(c, b, 24);
    var b1 := Unfold(b, a, 14);
    var a1 := Unfold(a, c2, 4);
    var c1 := Unfold(c2, b1, 16);
    var b0 := Unfold(b1, a1, 25);
    var a0 := Unfold(a1, c1, 11);
    FoldBack(c, b, 24);
    FoldBack(b, a, 14);
    FoldBack(a, c2, 4);
    FoldBack(c2, b1, 16);
    FoldBack(b1, a1, 25);
    FoldBack(a1, c1, 11);
    FoldBack(c1, b0, 14);
  }

  /** The final mixing as it is written. */
  method FinalMix(a0: Word, b0: Word, c0: Word) returns (a: Word, b: Word, c: Word)
    ensures (a, b, c) == Finish(a0, b0, c0)
  {
    hide Rot, Sub, Xor;
    a, b, c := a0, b0, c0;
    c := Xor(c, b); c := Sub(c, Rot(b, 14));
    a := Xor(a, c); a := Sub(a, Rot(c, 11));
    b := Xor(b, a); b := Sub(b, Rot(a, 25));
    c := Xor(c, b); c := Sub(c, Rot(b, 16));
    a := Xor(a, c); a := Sub(a, Rot(c, 4));
    b := Xor(b, a); b := Sub(b, Rot(a, 14));
    c := Xor(c, b); c := Sub(c, Rot(b, 24));
  }

  // ---------- words in memory ----------

  /** The word with these bytes in little-endian order. */
  function WordOf(k0: bv8, k1: bv8, k2: bv8, k3: bv8): Word {
    (k0 as Word) | ((k1 as Word) << 8) | ((k2 as Word) << 16) | ((k3 as Word) << 24)
  }

  /** The byte, or 0 beyond the end. */
  function ByteAt(s: Bytes, i: nat): bv8 {
    if i < |s| then s[i] else 0
  }

  /** The word at i, padded with zeros beyond the end. */
  function WordAt(s: Bytes, i: nat): Word {
    WordOf(ByteAt(s, i), ByteAt(s, i + 1), ByteAt(s, i + 2), ByteAt(s, i + 3))
  }

  // ---------- the hash of a byte string ----------

  /** Words of the key are added to the state twelve bytes at a time; the last block is padded with zeros. */
  function Absorb(s: Bytes, a: Word, b: Word, c: Word): (Word, Word)
    decreases |s|
  {
    var x, y, z := Add(a, WordAt(s, 0)), Add(b, WordAt(s, 4)), Add(c, WordAt(s, 8));
    if |s| > 12 then
      var m := Mix(x, y, z);
      Absorb(s[12..], m.0, m.1, m.2)
    else if s == [] then (c, b)
    else
      var m := Finish(x, y, z);
      (m.2, m.1)
  }

  function Start(length: nat, pc: Word): Word {
    0xdeadbeef + (length % 0x1_0000_0000) as Word + pc
  }

  /** The hash of a key under two seeds. */
  function Hash(key: Bytes, pc: Word, pb: Word): (Word, Word) {
    var a := Start(|key|, pc);
    Absorb(key, a, a, Add(a, pb))
  }

  lemma {:induction false} EmptyKeys()
    ensures Hash([], 0, 0) == (0xdeadbeef, 0xdeadbeef)
    ensures Hash([], 0, 0xdeadbeef) == (0xbd5b7dde, 0xdeadbeef)
    ensures Hash([], 0xdeadbeef, 0xdeadbeef) == (0x9c093ccd, 0xbd5b7dde)
  {
    hide Mix, Finish, WordAt;
  }

  lemma {:induction false} AbsorbBlock(s: Bytes, a: Word, b: Word, c: Word)
    requires |s| > 12
    ensures var m := Mix(Add(a, WordAt(s, 0)), Add(b, WordAt(s, 4)), Add(c, WordAt(s, 8)));
            Absorb(s, a, b, c) == Absorb(s[12..], m.0, m.1, m.2)
  {
    hide Mix, Add, WordAt, Finish;
  }

  lemma {:induction false} AbsorbLast(s: Bytes, a: Word, b: Word, c: Word)
    requires 0 < |s| <= 12
    ensures var m := Finish(Add(a, WordAt(s, 0)), Add(b, WordAt(s, 4)), Add(c, WordAt(s, 8)));
            Absorb(s, a, b, c) == (m.2, m.1)
  {
    hide Mix, Add, WordAt, Finish;
  }

  lemma {:induction false} AbsorbNone(a: Word, b: Word, c: Word)
    ensures Absorb([], a, b, c) == (c, b)
  {
    hide Mix, Add, WordAt, Finish;
  }

  // ---------- published values ----------

  // "Four score and seven years ago"
  const FOUR_SCORE: Bytes := [
    0x46, 0x6f, 0x75, 0x72, 0x20, 0x73, 0x63, 0x6f, 0x72, 0x65, 0x20, 0x61,
    0x6e, 0x64, 0x20, 0x73, 0x65, 0x76, 0x65, 0x6e, 0x20, 0x79, 0x65, 0x61,
    0x72, 0x73, 0x20, 0x61, 0x67, 0x6f]

  lemma {:induction false} FourScoreWord1()
    ensures WordAt(FOUR_SCORE, 0) == 0x72756f46
  {
  }

  lemma {:induction false} FourScoreWord2()
    ensures WordAt(FOUR_SCORE, 4) == 0x6f637320
  {
  }

  lemma {:induction false} FourScoreWord3()
    ensures WordAt(FOUR_SCORE, 8) == 0x61206572
  {
  }

  lemma {:induction false} FourScoreWord4()
    ensures WordAt(FOUR_SCORE[12..], 0) == 0x7320646e
  {
  }

  lemma {:induction false} FourScoreWord5()
    ensures WordAt(FOUR_SCORE[12..], 4) == 0x6e657665
  {
  }

  lemma {:induction false} FourScoreWord6()
    ensures WordAt(FOUR_SCORE[12..], 8) == 0x61657920
  {
  }

  lemma {:induction false} FourScoreWord7()
    ensures WordAt(FOUR_SCORE[24..], 0) == 0x61207372
  {
  }

  lemma {:induction false} FourScoreWord8()
    ensures WordAt(FOUR_SCORE[24..], 4) == 0x6f67
  {
  }

  lemma {:induction false} FourScoreWord9()
    ensures WordAt(FOUR_SCORE[24..], 8) == 0x0
  {
  }

  lemma {:induction false} StartThirty(pc: Word)
    ensures Start(30, pc) == 0xdeadbf0d + pc
  {
    var n: nat := 30;
    assert n % 0x1_0000_0000 == n;
    assert 30 as Word == 0x1e;
  }

  /** Its three blocks. */
  lemma {:induction false} FourScoreBlocks(a: Word, b: Word, c: Word)
    ensures var m := Mix(Add(a, 0x72756f46), Add(b, 0x6f637320), Add(c, 0x61206572));
            var n := Mix(Add(m.0, 0x7320646e), Add(m.1, 0x6e657665), Add(m.2, 0x61657920));
            var f := Finish(Add(n.0, 0x61207372), Add(n.1, 0x6f67), Add(n.2, 0x0));
            Absorb(FOUR_SCORE, a, b, c) == (f.2, f.1)
  {
    hide Mix, Finish, Absorb, WordAt, Add;
    FourScoreWord1();
    FourScoreWord2();
    FourScoreWord3();
    FourScoreWord4();
    FourScoreWord5();
    FourScoreWord6();
    FourScoreWord7();
    FourScoreWord8();
    FourScoreWord9();
    var m := Mix(Add(a, 0x72756f46), Add(b, 0x6f637320), Add(c, 0x61206572));
    var n := Mix(Add(m.0, 0x7320646e), Add(m.1, 0x6e657665), Add(m.2, 0x61657920));
    AbsorbBlock(FOUR_SCORE, a, b, c);
    AbsorbBlock(FOUR_SCORE[12..], m.0, m.1, m.2);
    assert FOUR_SCORE[12..][12..] == FOUR_SCORE[24..];
    AbsorbLast(FOUR_SCORE[24..], n.0, n.1, n.2);
  }

  lemma {:induction false} FourScoreZeroMixed()
    ensures Mix(Add(0xdeadbf0d, 0x72756f46), Add(0xdeadbf0d, 0x6f637320), Add(0xdeadbf0d, 0x61206572)) == (0xf859ad7a, 0x4bc57ae, 0x40dddd7e)
  {
  }

  lemma {:induction false} FourScoreZeroMixedAgain()
    ensures Mix(Add(0xf859ad7a, 0x7320646e), Add(0x4bc57ae, 0x6e657665), Add(0x40dddd7e, 0x61657920)) == (0x336aded2, 0x59f2642, 0xbd02ebd5)
  {
  }

  lemma {:induction false} FourScoreZeroFinished()
    ensures Finish(Add(0x336aded2, 0x61207372), Add(0x59f2642, 0x6f67), Add(0xbd02ebd5, 0x0)) == (0x9a837816, 0xce7226e6, 0x17770551)
  {
  }

  lemma {:induction false} FourScoreZeroStarted()
    ensures Start(30, 0) == 0xdeadbf0d && Add(0xdeadbf0d, 0) == 0xdeadbf0d
  {
    StartThirty(0);
    hide Start;
  }

  lemma {:induction false} FourScoreZero()
    ensures Hash(FOUR_SCORE, 0, 0) == (0x17770551, 0xce7226e6)
  {
    hide Absorb, Mix, Finish, Add, Start;
    FourScoreZeroStarted();
    FourScoreBlocks(0xdeadbf0d, 0xdeadbf0d, 0xdeadbf0d);
    FourScoreZeroMixed();
    FourScoreZeroMixedAgain();
    FourScoreZeroFinished();
  }

  lemma {:induction false} FourScoreSecondMixed()
    ensures Mix(Add(0xdeadbf0d, 0x72756f46), Add(0xdeadbf0d, 0x6f637320), Add(0xdeadbf0e, 0x61206572)) == (0x5880bf0f, 0x507c285, 0x2e1afadd)
  {
  }

  lemma {:induction false} FourScoreSecondMixedAgain()
    ensures Mix(Add(0x5880bf0f, 0x7320646e), Add(0x507c285, 0x6e657665), Add(0x2e1afadd, 0x61657920)) == (0xf0a95c6c, 0x6ea72b3e, 0x327297d5)
  {
  }

  lemma {:induction false} FourScoreSecondFinished()
    ensures Finish(Add(0xf0a95c6c, 0x61207372), Add(0x6ea72b3e, 0x6f67), Add(0x327297d5, 0x0)) == (0x6cd40950, 0xbd371de4, 0xe3607cae)
  {
  }

  lemma {:induction false} FourScoreSecondStarted()
    ensures Start(30, 0) == 0xdeadbf0d && Add(0xdeadbf0d, 1) == 0xdeadbf0e
  {
    StartThirty(0);
    hide Start;
  }

  lemma {:induction false} FourScoreSecond()
    ensures Hash(FOUR_SCORE, 0, 1) == (0xe3607cae, 0xbd371de4)
  {
    hide Absorb, Mix, Finish, Add, Start;
    FourScoreSecondStarted();
    FourScoreBlocks(0xdeadbf0d, 0xdeadbf0d, 0xdeadbf0e);
    FourScoreSecondMixed();
    FourScoreSecondMixedAgain();
    FourScoreSecondFinished();
  }

  lemma {:induction false} FourScoreFirstMixed()
    ensures Mix(Add(0xdeadbf0e, 0x72756f46), Add(0xdeadbf0e, 0x6f637320), Add(0xdeadbf0e, 0x61206572)) == (0x9fb9ade6, 0x89211ba9, 0x3ffff143)
  {
  }

  lemma {:induction false} FourScoreFirstMixedAgain()
    ensures Mix(Add(0x9fb9ade6, 0x7320646e), Add(0x89211ba9, 0x6e657665), Add(0x3ffff143, 0x61657920)) == (0xd68042ad, 0x488e0a5d, 0xab16e7b2)
  {
  }

  lemma {:induction false} FourScoreFirstFinished()
    ensures Finish(Add(0xd68042ad, 0x61207372), Add(0x488e0a5d, 0x6f67), Add(0xab16e7b2, 0x0)) == (0x1336f927, 0x6cbea4b3, 0xcd628161)
  {
  }

  lemma {:induction false} FourScoreFirstStarted()
    ensures Start(30, 1) == 0xdeadbf0e && Add(0xdeadbf0e, 0) == 0xdeadbf0e
  {
    StartThirty(1);
    hide Start;
  }

  lemma {:induction false} FourScoreFirst()
    ensures Hash(FOUR_SCORE, 1, 0) == (0xcd628161, 0x6cbea4b3)
  {
    hide Absorb, Mix, Finish, Add, Start;
    FourScoreFirstStarted();
    FourScoreBlocks(0xdeadbf0e, 0xdeadbf0e, 0xdeadbf0e);
    FourScoreFirstMixed();
    FourScoreFirstMixedAgain();
    FourScoreFirstFinished();
  }

  /** The hash of the key under its three published seed pairs. */
  lemma {:induction false} FourScore()
    ensures Hash(FOUR_SCORE, 0, 0) == (0x17770551, 0xce7226e6)
    ensures Hash(FOUR_SCORE, 0, 1) == (0xe3607cae, 0xbd371de4)
    ensures Hash(FOUR_SCORE, 1, 0) == (0xcd628161, 0x6cbea4b3)
  {
    hide Hash;
    FourScoreZero();
    FourScoreSecond();
    FourScoreFirst();
  }

  // ---------- reading the key ----------

  datatype Alignment = ByWord | ByHalf | ByByte

  /** A 32-bit read. */
  function Read32(m: Bytes, i: nat): Word
    requires i + 4 <= |m|
  {
    WordOf(m[i], m[i + 1], m[i + 2], m[i + 3])
  }

  /** A 16-bit read. */
  function Read16(m: Bytes, i: nat): Word
    requires i + 2 <= |m|
  {
    HalfOf(m[i], m[i + 1])
  }

  function HalfOf(k0: bv8, k1: bv8): Word {
    (k0 as Word) | ((k1 as Word) << 8)
  }

  function Shl(x: Word, k: bv32): Word
    requires k == 8 || k == 16 || k == 24
  {
    x << k
  }

  /** `x & 0xff`, `x & 0xffff`, `x & 0xffffff`. */
  function Mask(x: Word, bytes: nat): Word
    requires 1 <= bytes <= 3
  {
    x & (if bytes == 1 then 0xff else if bytes == 2 then 0xffff else 0xffffff)
  }

  /** The first n bytes at i, read as a word. */
  lemma {:induction false} MaskedRead(m: Bytes, length: nat, i: nat)
    requires i + 4 <= |m| && length <= |m|
    ensures i + 4 <= length ==> Read32(m, i) == WordAt(m[..length], i)
    ensures i < length < i + 4 ==> Mask(Read32(m, i), length - i) == WordAt(m[..length], i)
  {
    hide WordOf, Mask;
    assert forall j :: 0 <= j < length ==> m[..length][j] == m[j];
    if i < length < i + 4 {
      MaskOne(m[i], m[i + 1], m[i + 2], m[i + 3]);
      MaskTwo(m[i], m[i + 1], m[i + 2], m[i + 3]);
      MaskThree(m[i], m[i + 1], m[i + 2], m[i + 3]);
    }
  }

  lemma {:induction false} MaskOne(k0: bv8, k1: bv8, k2: bv8, k3: bv8)
    ensures Mask(WordOf(k0, k1, k2, k3), 1) == WordOf(k0, 0, 0, 0)
  {
    assert WordOf(k0, k1, k2, k3) & 0xff == WordOf(k0, 0, 0, 0);
  }

  lemma {:induction false} MaskTwo(k0: bv8, k1: bv8, k2: bv8, k3: bv8)
    ensures Mask(WordOf(k0, k1, k2, k3), 2) == WordOf(k0, k1, 0, 0)
  {
    assert WordOf(k0, k1, k2, k3) & 0xffff == WordOf(k0, k1, 0, 0);
  }

  lemma {:induction false} MaskThree(k0: bv8, k1: bv8, k2: bv8, k3: bv8)
    ensures Mask(WordOf(k0, k1, k2, k3), 3) == WordOf(k0, k1, k2, 0)
  {
    assert WordOf(k0, k1, k2, k3) & 0xffffff == WordOf(k0, k1, k2, 0);
  }

  lemma {:induction false} AddZero(x: Word)
    ensures Add(x, 0) == x
  {
  }

  lemma {:induction false} AddTwice(x: Word, y: Word, z: Word)
    ensures Add(Add(x, y), z) == Add(x, Add(y, z))
  {
    assert Add(x + y, z) == Add(x, y + z);
  }

  lemma {:induction false} BeyondEnd(s: Bytes, i: nat, x: Word)
    requires i >= |s|
    ensures Add(x, WordAt(s, i)) == x
  {
    hide Add;
    AddZero(x);
  }

  /** The aligned reading: whole words, and for the last block words that reach beyond the key, masked. */
  method ReadByWord(m: Bytes, length: nat, a0: Word, b0: Word, c0: Word) returns (a: Word, b: Word, c: Word)
    requires 0 < length <= 12 && length + 3 <= |m|
    ensures var s := m[..length]; (a, b, c) == (Add(a0, WordAt(s, 0)), Add(b0, WordAt(s, 4)), Add(c0, WordAt(s, 8)))
  {
    hide Add, WordAt, Mask, Read32;
    a, b, c := a0, b0, c0;
    MaskedRead(m, length, 0);
    if length <= 4 {
      BeyondEnd(m[..length], 4, b0);
    } else {
      MaskedRead(m, length, 4);
    }
    if length <= 8 {
      BeyondEnd(m[..length], 8, c0);
    } else {
      MaskedRead(m, length, 8);
    }
    match length {
      case 12 => c := Add(c, Read32(m, 8)); b := Add(b, Read32(m, 4)); a := Add(a, Read32(m, 0));
      case 11 => c := Add(c, Mask(Read32(m, 8), 3)); b := Add(b, Read32(m, 4)); a := Add(a, Read32(m, 0));
      case 10 => c := Add(c, Mask(Read32(m, 8), 2)); b := Add(b, Read32(m, 4)); a := Add(a, Read32(m, 0));
      case 9 => c := Add(c, Mask(Read32(m, 8), 1)); b := Add(b, Read32(m, 4)); a := Add(a, Read32(m, 0));
      case 8 => b := Add(b, Read32(m, 4)); a := Add(a, Read32(m, 0));
      case 7 => b := Add(b, Mask(Read32(m, 4), 3)); a := Add(a, Read32(m, 0));
      case 6 => b := Add(b, Mask(Read32(m, 4), 2)); a := Add(a, Read32(m, 0));
      case 5 => b := Add(b, Mask(Read32(m, 4), 1)); a := Add(a, Read32(m, 0));
      case 4 => a := Add(a, Read32(m, 0));
      case 3 => a := Add(a, Mask(Read32(m, 0), 3));
      case 2 => a := Add(a, Mask(Read32(m, 0), 2));
      case 1 => a := Add(a, Mask(Read32(m, 0), 1));
    }
  }

  function Wide(k: bv8): Word { k as Word }

  function Or(x: Word, y: Word): Word { x | y }

  lemma {:induction false} DisjointBits(x: Word, y: Word)
    ensures x & y == 0 ==> x + y == x | y
  {
  }

  /** Words without a common bit may be added as well as united. */
  lemma {:induction false} AddDisjoint(x: Word, y: Word)
    ensures x & y == 0 ==> Add(x, y) == Or(x, y)
  {
    DisjointBits(x, y);
  }

  lemma {:induction false} ThirdApart(k3: bv8, k2: bv8)
    ensures Shl(Wide(k3), 24) & Shl(Wide(k2), 16) == 0
  {
    assert ((k3 as Word) << 24) & ((k2 as Word) << 16) == 0;
  }

  lemma {:induction false} SecondApart(k3: bv8, k2: bv8, k1: bv8)
    ensures Or(Shl(Wide(k3), 24), Shl(Wide(k2), 16)) & Shl(Wide(k1), 8) == 0
  {
    assert (((k3 as Word) << 24) | ((k2 as Word) << 16)) & ((k1 as Word) << 8) == 0;
  }

  lemma {:induction false} FirstApart(k3: bv8, k2: bv8, k1: bv8, k0: bv8)
    ensures Or(Or(Shl(Wide(k3), 24), Shl(Wide(k2), 16)), Shl(Wide(k1), 8)) & Wide(k0) == 0
  {
    assert (((k3 as Word) << 24) | ((k2 as Word) << 16) | ((k1 as Word) << 8)) & (k0 as Word) == 0;
  }

  lemma {:induction false} UnitedDown(k0: bv8, k1: bv8, k2: bv8, k3: bv8)
    ensures Or(Or(Or(Shl(Wide(k3), 24), Shl(Wide(k2), 16)), Shl(Wide(k1), 8)), Wide(k0)) == WordOf(k0, k1, k2, k3)
  {
  }

  /** A word is the sum of its bytes, highest first. */
  lemma {:induction false} ByteSumDown(k0: bv8, k1: bv8, k2: bv8, k3: bv8)
    ensures WordOf(k0, k1, k2, k3) == Add(Add(Add(Shl(Wide(k3), 24), Shl(Wide(k2), 16)), Shl(Wide(k1), 8)), Wide(k0))
  {
    hide Add, Or, Shl, Wide, WordOf;
    ThirdApart(k3, k2);
    SecondApart(k3, k2, k1);
    FirstApart(k3, k2, k1, k0);
    UnitedDown(k0, k1, k2, k3);
    AddDisjoint(Shl(Wide(k3), 24), Shl(Wide(k2), 16));
    AddDisjoint(Or(Shl(Wide(k3), 24), Shl(Wide(k2), 16)), Shl(Wide(k1), 8));
    AddDisjoint(Or(Or(Shl(Wide(k3), 24), Shl(Wide(k2), 16)), Shl(Wide(k1), 8)), Wide(k0));
  }

  lemma {:induction false} AddTurned(x: Word, y: Word)
    ensures Add(x, y) == Add(y, x)
  {
  }

  /** And lowest first. */
  lemma {:induction false} ByteSumUp(k0: bv8, k1: bv8, k2: bv8, k3: bv8)
    ensures WordOf(k0, k1, k2, k3) == Add(Add(Add(Wide(k0), Shl(Wide(k1), 8)), Shl(Wide(k2), 16)), Shl(Wide(k3), 24))
  {
    hide Add, Shl, Wide, WordOf;
    var x0, x1, x2, x3 := Wide(k0), Shl(Wide(k1), 8), Shl(Wide(k2), 16), Shl(Wide(k3), 24);
    ByteSumDown(k0, k1, k2, k3);
    AddTurned(Add(Add(x3, x2), x1), x0);
    AddTurned(Add(x3, x2), x1);
    AddTurned(x3, x2);
    AddTwice(x0, x1, Add(x2, x3));
    AddTwice(Add(x0, x1), x2, x3);
  }

  lemma {:induction false} NoByte()
    ensures Wide(0) == 0 && Shl(0, 8) == 0 && Shl(0, 16) == 0 && Shl(0, 24) == 0
  {
  }

  /** The bytes of a word, highest first, may be added one after the other. */
  lemma {:induction false} SumDown(x: Word, k0: bv8, k1: bv8, k2: bv8, k3: bv8)
    ensures Add(Add(Add(Add(x, Shl(Wide(k3), 24)), Shl(Wide(k2), 16)), Shl(Wide(k1), 8)), Wide(k0)) == Add(x, WordOf(k0, k1, k2, k3))
  {
    ByteSumDown(k0, k1, k2, k3);
    hide Shl, Add, Wide, WordOf;
    var y := Shl(Wide(k3), 24);
    AddTwice(x, y, Shl(Wide(k2), 16));
    AddTwice(x, Add(y, Shl(Wide(k2), 16)), Shl(Wide(k1), 8));
    AddTwice(x, Add(Add(y, Shl(Wide(k2), 16)), Shl(Wide(k1), 8)), Wide(k0));
  }

  /** The bytes of a word, lowest first, may be added one after the other. */
  lemma {:induction false} SumUp(x: Word, k0: bv8, k1: bv8, k2: bv8, k3: bv8)
    ensures Add(Add(Add(Add(x, Wide(k0)), Shl(Wide(k1), 8)), Shl(Wide(k2), 16)), Shl(Wide(k3), 24)) == Add(x, WordOf(k0, k1, k2, k3))
  {
    ByteSumUp(k0, k1, k2, k3);
    hide Shl, Add, Wide, WordOf;
    AddTwice(x, Wide(k0), Shl(Wide(k1), 8));
    AddTwice(x, Add(Wide(k0), Shl(Wide(k1), 8)), Shl(Wide(k2), 16));
    AddTwice(x, Add(Add(Wide(k0), Shl(Wide(k1), 8)), Shl(Wide(k2), 16)), Shl(Wide(k3), 24));
  }

  /** Adds at most four bytes to one word: every case falls through to the next. */
  method AddBytes(x0: Word, s: Bytes, i: nat) returns (x: Word)
    ensures x == Add(x0, WordAt(s, i))
  {
    hide Add, Shl, Wide, WordOf;
    SumDown(x0, ByteAt(s, i), ByteAt(s, i + 1), ByteAt(s, i + 2), ByteAt(s, i + 3));
    NoByte();
    AddZero(x0);
    x := x0;
    if |s| >= i + 4 { x := Add(x, Shl(Wide(s[i + 3]), 24)); }
    if |s| >= i + 3 { x := Add(x, Shl(Wide(s[i + 2]), 16)); }
    if |s| >= i + 2 { x := Add(x, Shl(Wide(s[i + 1]), 8)); }
    if |s| >= i + 1 { x := Add(x, Wide(s[i])); }
  }

  /** The reading byte by byte. */
  method ReadByByte(s: Bytes, a0: Word, b0: Word, c0: Word) returns (a: Word, b: Word, c: Word)
    requires 0 < |s| <= 12
    ensures (a, b, c) == (Add(a0, WordAt(s, 0)), Add(b0, WordAt(s, 4)), Add(c0, WordAt(s, 8)))
  {
    c := AddBytes(c0, s, 8);
    b := AddBytes(b0, s, 4);
    a := AddBytes(a0, s, 0);
  }

  /** Adds at most two half words, or bytes where a half word would reach beyond the key. */
  method AddHalves(x0: Word, s: Bytes, i: nat) returns (x: Word)
    ensures x == Add(x0, WordAt(s, i))
  {
    hide Add, Shl, Wide, WordOf, HalfOf;
    if |s| <= i {
      BeyondEnd(s, i, x0);
      return x0;
    }
    SumHalves(x0, ByteAt(s, i), ByteAt(s, i + 1), ByteAt(s, i + 2), ByteAt(s, i + 3));
    if |s| >= i + 4 {
      x := Add(x0, Add(Read16(s, i), Shl(Read16(s, i + 2), 16)));
    } else if |s| == i + 3 {
      x := Add(x0, Shl(Wide(s[i + 2]), 16));
      x := Add(x, Read16(s, i));
    } else if |s| == i + 2 {
      x := Add(x0, Read16(s, i));
    } else {
      x := Add(x0, Wide(s[i]));
    }
  }

  lemma {:induction false} SumHalves(x: Word, k0: bv8, k1: bv8, k2: bv8, k3: bv8)
    ensures Add(HalfOf(k0, k1), Shl(HalfOf(k2, k3), 16)) == WordOf(k0, k1, k2, k3)
    ensures Add(Add(x, Shl(Wide(k2), 16)), HalfOf(k0, k1)) == Add(x, WordOf(k0, k1, k2, 0))
    ensures HalfOf(k0, k1) == WordOf(k0, k1, 0, 0) && Wide(k0) == WordOf(k0, 0, 0, 0)
  {
    hide Add, Shl, Wide, HalfOf, WordOf;
    AddTwice(x, Shl(Wide(k2), 16), HalfOf(k0, k1));
    HalfParts(k0, k1, k2, k3);
  }

  lemma {:induction false} HalfParts(k0: bv8, k1: bv8, k2: bv8, k3: bv8)
    ensures Add(HalfOf(k0, k1), Shl(HalfOf(k2, k3), 16)) == WordOf(k0, k1, k2, k3)
    ensures Add(Shl(Wide(k2), 16), HalfOf(k0, k1)) == WordOf(k0, k1, k2, 0)
    ensures HalfOf(k0, k1) == WordOf(k0, k1, 0, 0) && Wide(k0) == WordOf(k0, 0, 0, 0)
  {
    hide Add, Or, Shl, Wide, HalfOf, WordOf;
    AddDisjoint(HalfOf(k0, k1), Shl(HalfOf(k2, k3), 16));
    AddDisjoint(Shl(Wide(k2), 16), HalfOf(k0, k1));
    HalvesApart(k0, k1, k2, k3);
    HalvesUnited(k0, k1, k2, k3);
    HalfAndByteApart(k0, k1, k2);
    HalfAndByteUnited(k0, k1, k2);
    NoHigh(k0, k1);
  }

  lemma {:induction false} HalvesApart(k0: bv8, k1: bv8, k2: bv8, k3: bv8)
    ensures HalfOf(k0, k1) & Shl(HalfOf(k2, k3), 16) == 0
  {
    assert ((k0 as Word) | ((k1 as Word) << 8)) & (((k2 as Word) | ((k3 as Word) << 8)) << 16) == 0;
  }

  lemma {:induction false} HalvesUnited(k0: bv8, k1: bv8, k2: bv8, k3: bv8)
    ensures Or(HalfOf(k0, k1), Shl(HalfOf(k2, k3), 16)) == WordOf(k0, k1, k2, k3)
  {
  }

  lemma {:induction false} HalfAndByteApart(k0: bv8, k1: bv8, k2: bv8)
    ensures Shl(Wide(k2), 16) & HalfOf(k0, k1) == 0
  {
    assert ((k2 as Word) << 16) & ((k0 as Word) | ((k1 as Word) << 8)) == 0;
  }

  lemma {:induction false} HalfAndByteUnited(k0: bv8, k1: bv8, k2: bv8)
    ensures Or(Shl(Wide(k2), 16), HalfOf(k0, k1)) == WordOf(k0, k1, k2, 0)
  {
  }

  lemma {:induction false} NoHigh(k0: bv8, k1: bv8)
    ensures HalfOf(k0, k1) == WordOf(k0, k1, 0, 0) && Wide(k0) == WordOf(k0, 0, 0, 0)
  {
  }

  method ReadByHalf(s: Bytes, a0: Word, b0: Word, c0: Word) returns (a: Word, b: Word, c: Word)
    requires 0 < |s| <= 12
    ensures (a, b, c) == (Add(a0, WordAt(s, 0)), Add(b0, WordAt(s, 4)), Add(c0, WordAt(s, 8)))
  {
    c := AddHalves(c0, s, 8);
    b := AddHalves(b0, s, 4);
    a := AddHalves(a0, s, 0);
  }

  lemma {:induction false} PrefixWords(m: Bytes, length: nat)
    requires 12 <= length <= |m|
    ensures WordAt(m[..length], 0) == Read32(m, 0) && WordAt(m[..length], 4) == Read32(m, 4) && WordAt(m[..length], 8) == Read32(m, 8)
    ensures m[..length][12..] == m[12..][..length - 12]
  {
  }

  /** The branch for keys at an address divisible by 4; reads may reach up to three bytes beyond the key. */
  method HashByWord(m: Bytes, length: nat, a0: Word, b0: Word, c0: Word) returns (c: Word, b: Word)
    requires length + 3 <= |m|
    ensures (c, b) == Absorb(m[..length], a0, b0, c0)
  {
    hide Absorb, Add, WordAt, Read32, Mix, Finish;
    var a;
    a, b, c := a0, b0, c0;
    var k, rest := m, length;
    while rest > 12
      invariant 0 <= rest && rest + 3 <= |k|
      invariant Absorb(k[..rest], a, b, c) == Absorb(m[..length], a0, b0, c0)
    {
      PrefixWords(k, rest);
      AbsorbBlock(k[..rest], a, b, c);
      a := Add(a, Read32(k, 0));
      b := Add(b, Read32(k, 4));
      c := Add(c, Read32(k, 8));
      a, b, c := MixWords(a, b, c);
      rest := rest - 12;
      k := k[12..];
    }
    if rest == 0 {
      assert k[..0] == [];
      AbsorbNone(a, b, c);
      return;
    }
    AbsorbLast(k[..rest], a, b, c);
    a, b, c := ReadByWord(k, rest, a, b, c);
    a, b, c := FinalMix(a, b, c);
  }

  lemma {:induction false} BlockHalves(k: Bytes, i: nat)
    requires i + 4 <= |k|
    ensures Add(Read16(k, i), Shl(Read16(k, i + 2), 16)) == WordAt(k, i)
  {
    hide Add, Shl, HalfOf, WordOf;
    HalfParts(k[i], k[i + 1], k[i + 2], k[i + 3]);
  }

  /** The branch for keys at an even address. */
  method HashByHalf(key: Bytes, a0: Word, b0: Word, c0: Word) returns (c: Word, b: Word)
    ensures (c, b) == Absorb(key, a0, b0, c0)
  {
    hide Absorb, Add, WordAt, Read16, Shl, Mix, Finish;
    var a;
    a, b, c := a0, b0, c0;
    var k := key;
    while |k| > 12
      invariant Absorb(k, a, b, c) == Absorb(key, a0, b0, c0)
    {
      AbsorbBlock(k, a, b, c);
      BlockHalves(k, 0);
      BlockHalves(k, 4);
      BlockHalves(k, 8);
      a := Add(a, Add(Read16(k, 0), Shl(Read16(k, 2), 16)));
      b := Add(b, Add(Read16(k, 4), Shl(Read16(k, 6), 16)));
      c := Add(c, Add(Read16(k, 8), Shl(Read16(k, 10), 16)));
      a, b, c := MixWords(a, b, c);
      k := k[12..];
    }
    if |k| == 0 {
      AbsorbNone(a, b, c);
      return;
    }
    AbsorbLast(k, a, b, c);
    a, b, c := ReadByHalf(k, a, b, c);
    a, b, c := FinalMix(a, b, c);
  }

  /** Adds the four bytes at i, lowest first. */
  method AddBlock(x0: Word, k: Bytes, i: nat) returns (x: Word)
    requires i + 4 <= |k|
    ensures x == Add(x0, WordAt(k, i))
  {
    hide Add, Shl, Wide, WordOf;
    SumUp(x0, k[i], k[i + 1], k[i + 2], k[i + 3]);
    x := Add(x0, Wide(k[i]));
    x := Add(x, Shl(Wide(k[i + 1]), 8));
    x := Add(x, Shl(Wide(k[i + 2]), 16));
    x := Add(x, Shl(Wide(k[i + 3]), 24));
  }

  /** The branch for keys at any address. */
  method HashByByte(key: Bytes, a0: Word, b0: Word, c0: Word) returns (c: Word, b: Word)
    ensures (c, b) == Absorb(key, a0, b0, c0)
  {
    hide Absorb, Add, WordAt, Mix, Finish;
    var a;
    a, b, c := a0, b0, c0;
    var k := key;
    while |k| > 12
      invariant Absorb(k, a, b, c) == Absorb(key, a0, b0, c0)
    {
      AbsorbBlock(k, a, b, c);
      a := AddBlock(a, k, 0);
      b := AddBlock(b, k, 4);
      c := AddBlock(c, k, 8);
      a, b, c := MixWords(a, b, c);
      k := k[12..];
    }
    if |k| == 0 {
      AbsorbNone(a, b, c);
      return;
    }
    AbsorbLast(k, a, b, c);
    a, b, c := ReadByByte(k, a, b, c);
    a, b, c := FinalMix(a, b, c);
  }

  /** Two hash values of a key. They depend neither on its alignment nor on the bytes that follow it in memory. */
  method HashLittle2(key: Bytes, beyond: Bytes, alignment: Alignment, pc: Word, pb: Word) returns (c: Word, b: Word)
    requires |beyond| >= 3
    ensures (c, b) == Hash(key, pc, pb)
  {
    hide Absorb, Add;
    var a := Start(|key|, pc);
    match alignment {
      case ByWord =>
        assert (key + beyond)[..|key|] == key;
        c, b := HashByWord(key + beyond, |key|, a, a, Add(a, pb));
      case ByHalf => c, b := HashByHalf(key, a, a, Add(a, pb));
      case ByByte => c, b := HashByByte(key, a, a, Add(a, pb));
    }
  }

  // ---------- keys made of words ----------

  function Octet(w: Word, k: bv32): bv8
    requires k <= 24
  {
    ((w >> k) & 0xff) as bv8
  }

  function BytesOf(words: seq<Word>): (s: Bytes)
    ensures |s| == 4 * |words|
  {
    if words == [] then []
    else
      var w := words[0];
      [Octet(w, 0), Octet(w, 8), Octet(w, 16), Octet(w, 24)] + BytesOf(words[1..])
  }

  lemma {:induction false} Reassemble(w: Word)
    ensures WordOf(Octet(w, 0), Octet(w, 8), Octet(w, 16), Octet(w, 24)) == w
  {
  }

  lemma {:induction false} FirstWord(words: seq<Word>)
    requires words != []
    ensures WordAt(BytesOf(words), 0) == words[0] && BytesOf(words)[4..] == BytesOf(words[1..])
  {
    hide WordOf, Octet;
    Reassemble(words[0]);
  }

  lemma {:induction false} WordsAt(words: seq<Word>, i: nat)
    requires i < |words|
    ensures WordAt(BytesOf(words), 4 * i) == words[i]
  {
    hide BytesOf, WordAt;
    FirstWord(words);
    if i > 0 {
      WordsAt(words[1..], i - 1);
      WordShift(BytesOf(words), 4, 4 * (i - 1));
    }
  }

  lemma {:induction false} WordShift(s: Bytes, n: nat, i: nat)
    requires n <= |s|
    ensures WordAt(s[n..], i) == WordAt(s, n + i)
  {
  }

  lemma {:induction false} BytesDrop(words: seq<Word>, n: nat)
    requires n <= |words|
    ensures BytesOf(words)[4 * n..] == BytesOf(words[n..])
  {
    if n > 0 {
      BytesDrop(words[1..], n - 1);
      assert BytesOf(words)[4..] == BytesOf(words[1..]);
      assert BytesOf(words)[4 * n..] == BytesOf(words)[4..][4 * (n - 1)..];
      assert words[1..][n - 1..] == words[n..];
    }
  }

  /** Two hash values of a key made of words: those of its bytes. */
  method HashWord2(words: seq<Word>, pc: Word, pb: Word) returns (c: Word, b: Word)
    ensures (c, b) == Hash(BytesOf(words), pc, pb)
  {
    hide Absorb, Add, WordAt, Mix, Finish, BytesOf;
    var a := Start(|words| * 4, pc);
    b := a;
    c := Add(a, pb);
    var k := words;
    while |k| > 3
      invariant Absorb(BytesOf(k), a, b, c) == Hash(BytesOf(words), pc, pb)
    {
      AbsorbBlock(BytesOf(k), a, b, c);
      WordsAt(k, 0);
      WordsAt(k, 1);
      WordsAt(k, 2);
      BytesDrop(k, 3);
      a := Add(a, k[0]);
      b := Add(b, k[1]);
      c := Add(c, k[2]);
      a, b, c := MixWords(a, b, c);
      k := k[3..];
    }
    if |k| >= 1 {
      AbsorbLast(BytesOf(k), a, b, c);
      WordsAt(k, 0);
      if |k| >= 3 {
        WordsAt(k, 2);
        c := Add(c, k[2]);
      } else {
        BeyondEnd(BytesOf(k), 8, c);
      }
      if |k| >= 2 {
        WordsAt(k, 1);
        b := Add(b, k[1]);
      } else {
        BeyondEnd(BytesOf(k), 4, b);
      }
      a := Add(a, k[0]);
      a, b, c := FinalMix(a, b, c);
    } else {
      assert BytesOf(k) == [];
      AbsorbNone(a, b, c);
    }
  }
}
