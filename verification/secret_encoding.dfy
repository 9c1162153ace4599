/**
 * What valid UTF-8 is, said by an encoder: the byte strings that spell a sequence of
 * Unicode scalar values (RFC 3629, sections 3 and 4).
 */
module Utf8Encoding {
  import opened Utf8

  /** 0 to 0x10FFFF without the surrogates. */
  predicate Scalar(c: int) {
    0 <= c <= 0x10FFFF && !(0xD800 <= c <= 0xDFFF)
  }

  /** A continuation byte with the low six bits of c. */
  function Tail(c: int): Byte {
    0x80 + c % 64
  }

  /** The bytes of one scalar value. */
  function Encoded(c: int): Bytes
    requires Scalar(c)
  {
    if c < 0x80 then [c]
    else if c < 0x800 then [0xC0 + c / 64, Tail(c)]
    else if c < 0x10000 then [0xE0 + c / 4096, Tail(c / 64), Tail(c)]
    else [0xF0 + c / 262144, Tail(c / 4096), Tail(c / 64), Tail(c)]
  }

  predicate AllScalar(cs: seq<int>) {
    forall k | 0 <= k < |cs| :: Scalar(cs[k])
  }

  function EncodedAll(cs: seq<int>): Bytes
    requires AllScalar(cs)
  {
    if cs == [] then [] else Encoded(cs[0]) + EncodedAll(cs[1..])
  }

  // ----- One value -----

  lemma TwoBytes(c: int)
    requires 0x80 <= c < 0x800
    ensures 0xC2 <= 0xC0 + c / 64 <= 0xDF && Continuation(0x80 + c % 64)
    ensures (0xC0 + c / 64 - 0xC0) * 64 + (0x80 + c % 64 - 0x80) == c
  {
  }

  lemma ThreeBytes(c: int)
    requires 0x800 <= c < 0x10000 && Scalar(c)
    ensures var lead, b1, b2 := 0xE0 + c / 4096, 0x80 + c / 64 % 64, 0x80 + c % 64;
            && 0xE0 <= lead <= 0xEF && Second(lead, b1) && Continuation(b2)
            && (lead - 0xE0) * 4096 + (b1 - 0x80) * 64 + (b2 - 0x80) == c
  {
    assert c / 4096 == c / 64 / 64;
  }

  lemma FourBytes(c: int)
    requires 0x10000 <= c && Scalar(c)
    ensures var lead, b1, b2, b3 := 0xF0 + c / 262144, 0x80 + c / 4096 % 64, 0x80 + c / 64 % 64, 0x80 + c % 64;
            && 0xF0 <= lead <= 0xF4 && Second(lead, b1) && Continuation(b2) && Continuation(b3)
            && (lead - 0xF0) * 262144 + (b1 - 0x80) * 4096 + (b2 - 0x80) * 64 + (b3 - 0x80) == c
  {
    assert c / 4096 == c / 64 / 64 && c / 262144 == c / 4096 / 64;
  }

  lemma TwoBytesBack(lead: int, b1: int)
    requires 0xC2 <= lead <= 0xDF && Continuation(b1)
    ensures var c := (lead - 0xC0) * 64 + (b1 - 0x80);
            0x80 <= c < 0x800 && 0xC0 + c / 64 == lead && 0x80 + c % 64 == b1
  {
  }

  lemma ThreeBytesBack(lead: int, b1: int, b2: int)
    requires 0xE0 <= lead <= 0xEF && Second(lead, b1) && Continuation(b2)
    ensures var c := (lead - 0xE0) * 4096 + (b1 - 0x80) * 64 + (b2 - 0x80);
            && 0x800 <= c < 0x10000 && Scalar(c)
            && 0xE0 + c / 4096 == lead && 0x80 + c / 64 % 64 == b1 && 0x80 + c % 64 == b2
  {
    var c := (lead - 0xE0) * 4096 + (b1 - 0x80) * 64 + (b2 - 0x80);
    assert c / 64 == (lead - 0xE0) * 64 + (b1 - 0x80);
  }

  lemma FourBytesBack(lead: int, b1: int, b2: int, b3: int)
    requires 0xF0 <= lead <= 0xF4 && Second(lead, b1) && Continuation(b2) && Continuation(b3)
    ensures var c := (lead - 0xF0) * 262144 + (b1 - 0x80) * 4096 + (b2 - 0x80) * 64 + (b3 - 0x80);
            && 0x10000 <= c && Scalar(c)
            && 0xF0 + c / 262144 == lead && 0x80 + c / 4096 % 64 == b1
            && 0x80 + c / 64 % 64 == b2 && 0x80 + c % 64 == b3
  {
    var c := (lead - 0xF0) * 262144 + (b1 - 0x80) * 4096 + (b2 - 0x80) * 64 + (b3 - 0x80);
    assert c / 64 == (lead - 0xF0) * 4096 + (b1 - 0x80) * 64 + (b2 - 0x80);
    assert c / 4096 == (lead - 0xF0) * 64 + (b1 - 0x80);
  }

  /** The reader finds an encoded value, whatever follows it. */
  lemma EncodedIsRead(c: int, rest: Bytes)
    requires Scalar(c)
    ensures var s := Encoded(c) + rest;
            CharLength(s, 0) == |Encoded(c)| && CodePoint(s, 0) == c
  {
    var s, e := Encoded(c) + rest, Encoded(c);
    assert s[0] == e[0];
    if 0x80 <= c < 0x800 {
      TwoBytes(c);
      assert s[1] == e[1];
    } else if 0x800 <= c < 0x10000 {
      ThreeBytes(c);
      assert s[1] == e[1] && s[2] == e[2];
    } else if 0x10000 <= c {
      FourBytes(c);
      assert s[1] == e[1] && s[2] == e[2] && s[3] == e[3];
    }
  }

  /** What the reader accepts at a position are the bytes of the value it reads there. */
  ghost predicate ReadsEncoded(s: Bytes, i: nat)
    requires i < |s| && CharLength(s, i) > 0
  {
    Scalar(CodePoint(s, i)) && s[i..i + CharLength(s, i)] == Encoded(CodePoint(s, i))
  }

  lemma ReadTwo(s: Bytes, i: nat)
    requires i < |s| && CharLength(s, i) == 2
    ensures ReadsEncoded(s, i)
  {
    TwoBytesBack(s[i], s[i + 1]);
    assert s[i..i + 2] == [s[i], s[i + 1]];
  }

  lemma ReadThree(s: Bytes, i: nat)
    requires i < |s| && CharLength(s, i) == 3
    ensures ReadsEncoded(s, i)
  {
    ThreeBytesBack(s[i], s[i + 1], s[i + 2]);
    assert s[i..i + 3] == [s[i], s[i + 1], s[i + 2]];
  }

  lemma ReadFour(s: Bytes, i: nat)
    requires i < |s| && CharLength(s, i) == 4
    ensures ReadsEncoded(s, i)
  {
    FourBytesBack(s[i], s[i + 1], s[i + 2], s[i + 3]);
    assert s[i..i + 4] == [s[i], s[i + 1], s[i + 2], s[i + 3]];
  }

  lemma ReadIsEncoded(s: Bytes, i: nat)
    requires i < |s| && CharLength(s, i) > 0
    ensures ReadsEncoded(s, i)
  {
    var n := CharLength(s, i);
    if n == 2 {
      ReadTwo(s, i);
    } else if n == 3 {
      ReadThree(s, i);
    } else if n == 4 {
      ReadFour(s, i);
    } else {
      assert s[i..i + 1] == [s[i]];
    }
  }

  // ----- Whole texts -----

  /** The values read from position i on. */
  function Scalars(s: Bytes, i: nat): seq<int>
    requires ValidFrom(s, i)
    decreases |s| - i
  {
    if i >= |s| then [] else [CodePoint(s, i)] + Scalars(s, i + CharLength(s, i))
  }

  lemma {:induction false} ValidIsEncoded(s: Bytes, i: nat)
    requires i <= |s| && ValidFrom(s, i)
    ensures AllScalar(Scalars(s, i)) && s[i..] == EncodedAll(Scalars(s, i))
    decreases |s| - i
  {
    if i < |s| {
      var c, j := CodePoint(s, i), i + CharLength(s, i);
      ReadIsEncoded(s, i);
      ValidIsEncoded(s, j);
      OneScalar(s, i, c, j);
      EncodedGlue(s, i, j, c, Scalars(s, j));
    }
  }

  lemma {:induction false} EncodedGlue(s: Bytes, i: nat, j: nat, c: int, cs: seq<int>)
    requires i <= j <= |s| && Scalar(c) && AllScalar(cs) && s[i..j] == Encoded(c) && s[j..] == EncodedAll(cs)
    ensures AllScalar([c] + cs) && s[i..] == EncodedAll([c] + cs)
  {
    EncodedCons(c, cs);
    assert s[i..] == s[i..j] + s[j..];
  }

  lemma {:induction false} EncodedCons(c: int, cs: seq<int>)
    requires Scalar(c) && AllScalar(cs)
    ensures AllScalar([c] + cs) && EncodedAll([c] + cs) == Encoded(c) + EncodedAll(cs)
  {
    assert ([c] + cs)[1..] == cs;
  }

  lemma {:induction false} EncodedIsValid(cs: seq<int>)
    requires AllScalar(cs)
    ensures Valid(EncodedAll(cs)) && Scalars(EncodedAll(cs), 0) == cs
  {
    if cs != [] {
      var first, rest := Encoded(cs[0]), EncodedAll(cs[1..]);
      EncodedIsValid(cs[1..]);
      EncodedIsRead(cs[0], rest);
      ValidShift(first, rest, 0);
      ScalarsShift(first, rest, 0);
    }
  }

  /** A character reads the same behind other bytes. */
  lemma CharShift(front: Bytes, b: Bytes, i: nat)
    requires i < |b|
    ensures CharLength(front + b, |front| + i) == CharLength(b, i)
    ensures CharLength(b, i) > 0 ==> CodePoint(front + b, |front| + i) == CodePoint(b, i)
  {
    assert forall k | i <= k < |b| :: (front + b)[|front| + k] == b[k];
  }

  lemma {:induction false} ScalarsShift(front: Bytes, b: Bytes, i: nat)
    requires i <= |b| && ValidFrom(b, i)
    ensures ValidFrom(front + b, |front| + i) && Scalars(front + b, |front| + i) == Scalars(b, i)
    decreases |b| - i
  {
    ValidShift(front, b, i);
    if i < |b| {
      var c, j := CodePoint(b, i), i + CharLength(b, i);
      CharShift(front, b, i);
      ScalarsShift(front, b, j);
      OneScalar(b, i, c, j);
      OneScalar(front + b, |front| + i, c, |front| + j);
    }
  }

  lemma {:induction false} OneScalar(s: Bytes, i: nat, c: int, j: nat)
    requires i < |s| && ValidFrom(s, i) && c == CodePoint(s, i) && j == i + CharLength(s, i)
    ensures ValidFrom(s, j) && Scalars(s, i) == [c] + Scalars(s, j)
  {
  }

  /**
   * A byte string is accepted as UTF-8 if and only if it spells some sequence of
   * scalar values; there is only one such sequence, and it is the one the reader reads.
   */
  lemma ValidIffEncoded(s: Bytes)
    ensures Valid(s) <==> exists cs :: AllScalar(cs) && s == EncodedAll(cs)
    ensures forall cs | AllScalar(cs) && s == EncodedAll(cs) :: Valid(s) && Scalars(s, 0) == cs
  {
    if Valid(s) {
      ValidIsEncoded(s, 0);
      assert s[0..] == s;
    }
    forall cs | AllScalar(cs) && s == EncodedAll(cs) ensures Valid(s) && Scalars(s, 0) == cs {
      EncodedIsValid(cs);
    }
  }
}
