/** UTF-8 validity of a byte string, as utf8.ValidString decides it (RFC 3629, section 4). */
module Utf8 {
  type Byte = b: int | 0 <= b < 256
  type Bytes = seq<Byte>

  predicate Continuation(b: int) {
    0x80 <= b <= 0xBF
  }

  /** The range of the second byte after a lead byte. */
  predicate Second(lead: int, b: int) {
    if lead == 0xE0 then 0xA0 <= b <= 0xBF
    else if lead == 0xED then 0x80 <= b <= 0x9F
    else if lead == 0xF0 then 0x90 <= b <= 0xBF
    else if lead == 0xF4 then 0x80 <= b <= 0x8F
    else Continuation(b)
  }

  /** How many bytes a lead byte announces; 0 if it leads nothing. */
  function Announced(lead: int): nat {
    if 0 <= lead < 0x80 then 1
    else if 0xC2 <= lead <= 0xDF then 2
    else if 0xE0 <= lead <= 0xEF then 3
    else if 0xF0 <= lead <= 0xF4 then 4
    else 0
  }

  /** The length of the character at position i, 0 if there is none. */
  function CharLength(s: Bytes, i: nat): (n: nat)
    requires i < |s|
    ensures i + n <= |s|
  {
    var n := Announced(s[i]);
    if n == 0 || i + n > |s| then 0
    else if n >= 2 && !Second(s[i], s[i + 1]) then 0
    else if n >= 3 && !Continuation(s[i + 2]) then 0
    else if n >= 4 && !Continuation(s[i + 3]) then 0
    else n
  }

  /** The code point of the character at position i. */
  function CodePoint(s: Bytes, i: nat): int
    requires i < |s| && CharLength(s, i) > 0
  {
    var lead: int := s[i];
    match CharLength(s, i)
    case 1 => lead
    case 2 => (lead - 0xC0) * 64 + Bits(s, i + 1)
    case 3 => (lead - 0xE0) * 4096 + Bits(s, i + 1) * 64 + Bits(s, i + 2)
    case _ => (lead - 0xF0) * 262144 + Bits(s, i + 1) * 4096 + Bits(s, i + 2) * 64 + Bits(s, i + 3)
  }

  /** The payload of a continuation byte. */
  function Bits(s: Bytes, i: nat): int
    requires i < |s|
  {
    var b: int := s[i];
    b - 0x80
  }

  predicate ValidFrom(s: Bytes, i: nat)
    decreases |s| - i
  {
    i >= |s| || (CharLength(s, i) > 0 && ValidFrom(s, i + CharLength(s, i)))
  }

  predicate Valid(s: Bytes) {
    ValidFrom(s, 0)
  }

  /** Only one-byte characters are below 0x80. */
  lemma SmallIsOneByte(s: Bytes, i: nat)
    requires i < |s| && CharLength(s, i) > 0
    ensures CodePoint(s, i) < 0x80 <==> CharLength(s, i) == 1
    ensures CharLength(s, i) > 1 ==> forall k | i <= k < i + CharLength(s, i) :: s[k] >= 0x80
  {
  }

  /** A one-byte character in the middle cuts the text in two independent halves. */
  lemma {:induction false} ValidAroundByte(a: Bytes, x: Byte, b: Bytes, i: nat)
    requires x < 0x80 && i <= |a|
    ensures ValidFrom(a + [x] + b, i) <==> ValidFrom(a, i) && Valid(b)
    decreases |a| - i
  {
    var s := a + [x] + b;
    if i == |a| {
      assert s[i] == x && CharLength(s, i) == 1;
      ValidShift(a + [x], b, 0);
    } else {
      assert s[i] == a[i];
      var n := Announced(a[i]);
      if i + n <= |a| {
        assert forall k | i <= k < i + n :: s[k] == a[k];
        assert CharLength(s, i) == CharLength(a, i);
        if CharLength(a, i) > 0 {
          ValidAroundByte(a, x, b, i + n);
        }
      } else {
        // The announced character would have to swallow the one-byte character.
        assert CharLength(a, i) == 0;
        assert s[|a|] == x;
        assert CharLength(s, i) == 0;
      }
    }
  }

  lemma {:induction false} ValidShift(front: Bytes, b: Bytes, i: nat)
    requires i <= |b|
    ensures ValidFrom(front + b, |front| + i) <==> ValidFrom(b, i)
    decreases |b| - i
  {
    var s := front + b;
    if i < |b| {
      assert forall k | i <= k < |b| :: s[|front| + k] == b[k];
      assert CharLength(s, |front| + i) == CharLength(b, i);
      if CharLength(b, i) > 0 {
        ValidShift(front, b, i + CharLength(b, i));
      }
    }
  }
}
