/**
 * The scanner for secret references in file contents (sandbox/secret_files.go:85-122).
 *
 * `References` reads the text one byte at a time; the method jumps from marker to
 * marker as the source does, and is proved to agree.
 */
module SecretScanner {
  import opened Wrappers
  import opened Utf8

  /** The bytes of the reference marker, the word "secrets" and "://". */
  const MARKER: Bytes := [115, 101, 99, 114, 101, 116, 115, 58, 47, 47]

  const BACKSLASH: Byte := 92
  const NEWLINE: Byte := 10
  const MAX_CONTENT := 262144
  const MAX_NAMES := 64

  predicate Letter(b: int) {
    0x41 <= b <= 0x5A || 0x61 <= b <= 0x7A
  }

  predicate NameByte(b: int) {
    Letter(b) || 0x30 <= b <= 0x39 || b == 0x5F || b == 0x2D
  }

  /** templateSecretNamePattern. */
  predicate ValidName(n: Bytes) {
    && 1 <= |n| <= 128 && (Letter(n[0]) || n[0] == 0x5F)
    && forall k | 0 <= k < |n| :: NameByte(n[k])
  }

  predicate MarkerAt(s: Bytes, i: nat) {
    i + |MARKER| <= |s| && s[i..i + |MARKER|] == MARKER
  }

  predicate Escaped(s: Bytes, i: nat) {
    0 < i <= |s| && s[i - 1] == BACKSLASH
  }

  /** Where the longest run of name bytes from position i ends. */
  function NameEnd(s: Bytes, i: nat): (e: nat)
    requires i <= |s|
    ensures i <= e <= |s|
    ensures forall k | i <= k < e :: NameByte(s[k])
    ensures e < |s| ==> !NameByte(s[e])
    decreases |s| - i
  {
    if i < |s| && NameByte(s[i]) then NameEnd(s, i + 1) else i
  }

  /** The name of a reference whose marker stands at position p. */
  function NameAt(s: Bytes, p: nat): Bytes
    requires MarkerAt(s, p)
  {
    s[p + |MARKER|..NameEnd(s, p + |MARKER|)]
  }

  /** The names referenced from position i on, in order; None if one of them is no name. */
  function References(s: Bytes, i: nat): Option<seq<Bytes>>
    decreases |s| - i
  {
    if i >= |s| then Some([])
    else if !MarkerAt(s, i) then References(s, i + 1)
    else if Escaped(s, i) then References(s, i + |MARKER|)
    else if !ValidName(NameAt(s, i)) then None
    else Prepend([NameAt(s, i)], References(s, NameEnd(s, i + |MARKER|)))
  }

  function Prepend(front: seq<Bytes>, r: Option<seq<Bytes>>): Option<seq<Bytes>> {
    if r.Some? then Some(front + r.value) else None
  }

  /** `seen` and then each name not met before, in order of first occurrence. */
  function DistinctAfter(seen: seq<Bytes>, names: seq<Bytes>): seq<Bytes>
    decreases |names|
  {
    if names == [] then seen
    else if names[0] in seen then DistinctAfter(seen, names[1..])
    else DistinctAfter(seen + [names[0]], names[1..])
  }

  function Distinct(names: seq<Bytes>): seq<Bytes> {
    DistinctAfter([], names)
  }

  /** No control bytes but newline, carriage return and tab. */
  predicate Printable(s: Bytes) {
    forall k | 0 <= k < |s| :: PrintableCode(s[k])
  }

  predicate PrintableCode(c: int) {
    c >= 32 || c == 10 || c == 13 || c == 9
  }

  predicate Admissible(s: Bytes) {
    |s| <= MAX_CONTENT && Valid(s) && Printable(s)
  }

  /** What SecretFileNames answers. */
  function Names(s: Bytes): Option<seq<Bytes>> {
    if !Admissible(s) then None
    else match References(s, 0)
      case None => None
      case Some(refs) => if |Distinct(refs)| > MAX_NAMES then None else Some(Distinct(refs))
  }

  // ----- The scan -----

  /** The loop over runes: on valid text it is a check of the bytes. */
  method CheckRunes(content: Bytes) returns (ok: bool)
    requires Valid(content)
    ensures ok <==> Printable(content)
  {
    var i := 0;
    while i < |content|
      invariant i <= |content| && ValidFrom(content, i)
      invariant forall k | 0 <= k < i :: PrintableCode(content[k])
      decreases |content| - i
    {
      var n := CharLength(content, i);
      var c := CodePoint(content, i);
      SmallIsOneByte(content, i);
      if c < 32 && c != 10 && c != 13 && c != 9 {
        return false;
      }
      i := i + n;
    }
    return true;
  }

  /** strings.Index from an offset on. */
  method IndexMarker(content: Bytes, offset: nat) returns (index: Option<nat>)
    ensures index.Some? ==> offset <= index.value && MarkerAt(content, index.value)
    ensures index.Some? ==> forall k | offset <= k < index.value :: !MarkerAt(content, k)
    ensures index.None? ==> forall k | offset <= k :: !MarkerAt(content, k)
  {
    var i := offset;
    while i < |content|
      invariant offset <= i
      invariant forall k | offset <= k < i :: !MarkerAt(content, k)
      decreases |content| - i
    {
      if MarkerAt(content, i) {
        return Some(i);
      }
      i := i + 1;
    }
    return None;
  }

  lemma {:induction false} SkipToMarker(s: Bytes, i: nat, p: nat)
    requires i <= p <= |s| && forall k | i <= k < p :: !MarkerAt(s, k)
    ensures References(s, i) == References(s, p)
    decreases p - i
  {
    if i < p {
      SkipToMarker(s, i + 1, p);
    }
  }

  lemma {:induction false} DistinctInTwo(seen: seq<Bytes>, a: seq<Bytes>, b: seq<Bytes>)
    ensures DistinctAfter(seen, a + b) == DistinctAfter(DistinctAfter(seen, a), b)
    decreases |a|
  {
    if a == [] {
      assert a + b == b;
    } else {
      assert (a + b)[1..] == a[1..] + b;
      DistinctInTwo(if a[0] in seen then seen else seen + [a[0]], a[1..], b);
    }
  }

  lemma {:induction false} DistinctGrows(seen: seq<Bytes>, names: seq<Bytes>)
    ensures seen <= DistinctAfter(seen, names)
    decreases |names|
  {
    if names != [] {
      DistinctGrows(if names[0] in seen then seen else seen + [names[0]], names[1..]);
    }
  }

  /** Too many names already: whatever follows, the answer is a refusal. */
  lemma TooMany(s: Bytes, found: seq<Bytes>, i: nat)
    requires Scanned(s, found, i) && |Distinct(found)| > MAX_NAMES
    ensures Names(s) == None
  {
    if References(s, i).Some? {
      var rest := References(s, i).value;
      DistinctInTwo([], found, rest);
      DistinctGrows(Distinct(found), rest);
    }
  }

  /** What is left to scan from `offset` completes what was found before it. */
  ghost predicate Scanned(content: Bytes, found: seq<Bytes>, offset: nat) {
    offset <= |content| && References(content, 0) == Prepend(found, References(content, offset))
  }

  /** The names kept are the distinct ones of those found, and `seen` is their set. */
  ghost predicate Kept(found: seq<Bytes>, names: seq<Bytes>, seen: set<Bytes>) {
    names == Distinct(found) && forall n :: n in seen <==> n in names
  }

  lemma ScannedToMarker(content: Bytes, found: seq<Bytes>, offset: nat, p: nat)
    requires Scanned(content, found, offset) && offset <= p <= |content|
    requires forall k | offset <= k < p :: !MarkerAt(content, k)
    ensures Scanned(content, found, p)
    ensures p < |content| && MarkerAt(content, p) && Escaped(content, p) ==> Scanned(content, found, p + |MARKER|)
  {
    SkipToMarker(content, offset, p);
  }

  lemma ScannedAll(content: Bytes, found: seq<Bytes>)
    requires Scanned(content, found, |content|) && Admissible(content) && |Distinct(found)| <= MAX_NAMES
    ensures Names(content) == Some(Distinct(found))
  {
    assert found + [] == found;
  }

  lemma ScannedInvalid(content: Bytes, found: seq<Bytes>, p: nat)
    requires Scanned(content, found, p) && MarkerAt(content, p) && !Escaped(content, p)
             && !ValidName(NameAt(content, p))
    ensures Names(content) == None
  {
  }

  lemma ScannedName(content: Bytes, found: seq<Bytes>, p: nat, names: seq<Bytes>, seen: set<Bytes>)
    requires Scanned(content, found, p) && MarkerAt(content, p) && !Escaped(content, p) && ValidName(NameAt(content, p))
    requires Kept(found, names, seen)
    ensures Scanned(content, found + [NameAt(content, p)], NameEnd(content, p + |MARKER|))
    ensures NameAt(content, p) in seen ==> Kept(found + [NameAt(content, p)], names, seen)
    ensures NameAt(content, p) !in seen ==>
              Kept(found + [NameAt(content, p)], names + [NameAt(content, p)], seen + {NameAt(content, p)})
  {
    FoundMore(content, found, p);
  }

  /** The unescaped marker at `p`: its name is checked, kept if new, and counted. */
  method TakeName(content: Bytes, p: nat, names: seq<Bytes>, seen: set<Bytes>, ghost found: seq<Bytes>)
    returns (ok: bool, more: seq<Bytes>, met: set<Bytes>, offset: nat)
    requires Scanned(content, found, p) && MarkerAt(content, p) && !Escaped(content, p) && Kept(found, names, seen)
    ensures !ok ==> Names(content) == None
    ensures ok ==> p < offset && Scanned(content, found + [NameAt(content, p)], offset)
    ensures ok ==> Kept(found + [NameAt(content, p)], more, met) && |more| <= MAX_NAMES
  {
    more, met, offset := names, seen, p + |MARKER|;
    var name := content[offset..NameEnd(content, offset)];
    assert name == NameAt(content, p);
    if !ValidName(name) {
      ScannedInvalid(content, found, p);
      return false, more, met, offset;
    }
    ScannedName(content, found, p, names, seen);
    offset := offset + |name|;
    if name !in seen {
      met := met + {name};
      more := more + [name];
    }
    if |more| > MAX_NAMES {
      TooMany(content, found + [name], offset);
      return false, more, met, offset;
    }
    ok := true;
  }

  method SecretFileNames(content: Bytes) returns (r: Option<seq<Bytes>>)
    ensures r == Names(content)
  {
    if |content| > MAX_CONTENT || !Valid(content) {
      return None;
    }
    var printable := CheckRunes(content);
    if !printable {
      return None;
    }
    var names: seq<Bytes> := [];
    var seen: set<Bytes> := {};
    var offset := 0;
    ghost var found: seq<Bytes> := [];
    PrependNothing(References(content, 0));
    assert Scanned(content, found, 0);
    while offset < |content|
      invariant Scanned(content, found, offset)
      invariant Kept(found, names, seen) && |names| <= MAX_NAMES
      decreases |content| - offset
    {
      var index := IndexMarker(content, offset);
      if index.None? {
        ScannedToMarker(content, found, offset, |content|);
        offset := |content|;
        break;
      }
      var p := index.value;
      ScannedToMarker(content, found, offset, p);
      offset := p + |MARKER|;
      if p > 0 && content[p - 1] == BACKSLASH {
        continue;
      }
      var ok;
      ok, names, seen, offset := TakeName(content, p, names, seen, found);
      if !ok {
        return None;
      }
      found := found + [NameAt(content, p)];
    }
    ScannedAll(content, found);
    return Some(names);
  }

  lemma PrependNothing(r: Option<seq<Bytes>>)
    ensures Prepend([], r) == r
  {
    if r.Some? {
      assert [] + r.value == r.value;
    }
  }

  /** One valid reference more. */
  lemma FoundMore(s: Bytes, found: seq<Bytes>, p: nat)
    requires MarkerAt(s, p) && !Escaped(s, p) && ValidName(NameAt(s, p))
    requires References(s, 0) == Prepend(found, References(s, p))
    ensures References(s, 0) == Prepend(found + [NameAt(s, p)], References(s, NameEnd(s, p + |MARKER|)))
    ensures Distinct(found + [NameAt(s, p)]) ==
            if NameAt(s, p) in Distinct(found) then Distinct(found) else Distinct(found) + [NameAt(s, p)]
  {
    var rest := References(s, NameEnd(s, p + |MARKER|));
    if rest.Some? {
      assert found + ([NameAt(s, p)] + rest.value) == (found + [NameAt(s, p)]) + rest.value;
    }
    DistinctInTwo([], found, [NameAt(s, p)]);
  }

  // ----- What is a reference -----

  lemma MarkerByte(s: Bytes, i: nat, k: nat)
    requires k < |MARKER|
    ensures MarkerAt(s, i) ==> s[i + k] == MARKER[k]
  {
    if MarkerAt(s, i) {
      assert s[i..i + |MARKER|][k] == MARKER[k];
    }
  }

  /** A marker has no copy of itself inside. */
  lemma NoOverlap(s: Bytes, i: nat, p: nat)
    requires MarkerAt(s, i) && i < p < i + |MARKER|
    ensures !MarkerAt(s, p)
  {
    MarkerByte(s, i, p - i);
    MarkerByte(s, p, 0);
    MarkerByte(s, i, 7);
    MarkerByte(s, p, 1);
  }

  /** The positions at which the scan finds an unescaped reference. */
  function Positions(s: Bytes, i: nat): seq<nat>
    decreases |s| - i
  {
    if i >= |s| then []
    else if !MarkerAt(s, i) then Positions(s, i + 1)
    else if Escaped(s, i) then Positions(s, i + |MARKER|)
    else [i] + Positions(s, NameEnd(s, i + |MARKER|))
  }

  /** Position p lies in the name of an earlier reference, as in a marker glued to another. */
  ghost predicate Swallowed(s: Bytes, p: nat, positions: seq<nat>) {
    exists q :: q in positions && q < p && MarkerAt(s, q) && p < NameEnd(s, q + |MARKER|)
  }

  ghost predicate Live(s: Bytes, p: nat, positions: seq<nat>) {
    MarkerAt(s, p) && !Escaped(s, p) && !Swallowed(s, p, positions)
  }

  lemma {:induction false} PositionsFrom(s: Bytes, i: nat)
    ensures forall p :: p in Positions(s, i) ==> i <= p && MarkerAt(s, p)
    decreases |s| - i
  {
    if i < |s| {
      if !MarkerAt(s, i) {
        PositionsFrom(s, i + 1);
      } else if Escaped(s, i) {
        PositionsFrom(s, i + |MARKER|);
      } else {
        PositionsFrom(s, NameEnd(s, i + |MARKER|));
      }
    }
  }

  /**
   * The references are the markers that are neither escaped nor part of the name
   * of an earlier reference: the scan misses none and invents none.
   */
  lemma {:induction false} PositionsAreLive(s: Bytes, i: nat, p: nat)
    requires i <= p
    ensures p in Positions(s, i) <==> Live(s, p, Positions(s, i))
    decreases |s| - i
  {
    PositionsFrom(s, i);
    if i >= |s| {
    } else if !MarkerAt(s, i) {
      if p > i {
        PositionsAreLive(s, i + 1, p);
      }
    } else if Escaped(s, i) {
      if i < p < i + |MARKER| {
        NoOverlap(s, i, p);
        PositionsFrom(s, i + |MARKER|);
      } else if p > i {
        PositionsAreLive(s, i + |MARKER|, p);
      } else {
        PositionsFrom(s, i + |MARKER|);
      }
    } else {
      var e := NameEnd(s, i + |MARKER|);
      var later := Positions(s, e);
      PositionsFrom(s, e);
      if p == i {
        assert p in Positions(s, i);
      } else if p < i + |MARKER| {
        NoOverlap(s, i, p);
      } else if p < e {
        assert Swallowed(s, p, Positions(s, i));
      } else {
        PositionsAreLive(s, e, p);
        assert Swallowed(s, p, Positions(s, i)) <==> Swallowed(s, p, later);
      }
    }
  }

  function NamesAt(s: Bytes, positions: seq<nat>): seq<Bytes>
    requires forall p | p in positions :: MarkerAt(s, p)
  {
    seq(|positions|, k requires 0 <= k < |positions| => NameAt(s, positions[k]))
  }

  ghost predicate AllMarkers(s: Bytes, positions: seq<nat>) {
    forall p | p in positions :: MarkerAt(s, p)
  }

  ghost predicate AllValid(s: Bytes, positions: seq<nat>)
    requires AllMarkers(s, positions)
  {
    forall p | p in positions :: ValidName(NameAt(s, p))
  }

  lemma OneMoreName(s: Bytes, i: nat, later: seq<nat>)
    requires MarkerAt(s, i) && AllMarkers(s, later)
    ensures AllMarkers(s, [i] + later)
    ensures AllValid(s, [i] + later) <==> ValidName(NameAt(s, i)) && AllValid(s, later)
    ensures NamesAt(s, [i] + later) == [NameAt(s, i)] + NamesAt(s, later)
  {
    assert forall p :: p in [i] + later <==> p == i || p in later;
  }

  /** The scan succeeds exactly when every reference has a valid name, and returns those names in order. */
  lemma {:induction false} ReferencesAreNames(s: Bytes, i: nat)
    ensures AllMarkers(s, Positions(s, i))
    ensures References(s, i).Some? <==> AllValid(s, Positions(s, i))
    ensures References(s, i).Some? ==> References(s, i).value == NamesAt(s, Positions(s, i))
    decreases |s| - i
  {
    if i < |s| {
      if !MarkerAt(s, i) {
        ReferencesAreNames(s, i + 1);
      } else if Escaped(s, i) {
        ReferencesAreNames(s, i + |MARKER|);
      } else {
        var e := NameEnd(s, i + |MARKER|);
        ReferencesAreNames(s, e);
        OneMoreName(s, i, Positions(s, e));
      }
    }
  }

  // ----- What the answer contains -----

  ghost predicate NoDuplicates(names: seq<Bytes>) {
    forall i, j | 0 <= i < j < |names| :: names[i] != names[j]
  }

  /** The answer has no duplicates and the same names as the references. */
  lemma {:induction false} DistinctSpec(seen: seq<Bytes>, names: seq<Bytes>)
    requires NoDuplicates(seen)
    ensures NoDuplicates(DistinctAfter(seen, names))
    ensures forall n :: n in DistinctAfter(seen, names) <==> n in seen || n in names
    decreases |names|
  {
    if names != [] {
      DistinctSpec(if names[0] in seen then seen else seen + [names[0]], names[1..]);
    }
  }

  /** Each name enters the answer at its first occurrence, so the order is that of first occurrences. */
  lemma FirstOccurrence(names: seq<Bytes>, k: nat)
    requires k < |names| && names[k] !in names[..k]
    ensures Distinct(names[..k]) + [names[k]] <= Distinct(names)
  {
    assert names == names[..k] + names[k..];
    DistinctInTwo([], names[..k], names[k..]);
    DistinctSpec([], names[..k]);
    assert names[k..][0] == names[k];
    DistinctGrows(Distinct(names[..k]) + [names[k]], names[k..][1..]);
  }

  /** SecretFileNames accepts exactly the admissible texts with valid and few enough references. */
  lemma Acceptance(s: Bytes)
    ensures AllMarkers(s, Positions(s, 0))
    ensures Names(s).Some? <==>
              && Admissible(s) && AllValid(s, Positions(s, 0))
              && |set n | n in NamesAt(s, Positions(s, 0))| <= MAX_NAMES
    ensures Names(s).Some? ==>
              && NoDuplicates(Names(s).value)
              && (forall n :: n in Names(s).value <==> n in NamesAt(s, Positions(s, 0)))
  {
    ReferencesAreNames(s, 0);
    if References(s, 0).Some? {
      var refs := References(s, 0).value;
      DistinctSpec([], refs);
      DistinctSize(Distinct(refs));
      assert (set n | n in refs) == (set n | n in Distinct(refs));
    }
  }

  lemma {:induction false} DistinctSize(names: seq<Bytes>)
    requires NoDuplicates(names)
    ensures |set n | n in names| == |names|
  {
    if names != [] {
      var most := names[..|names| - 1];
      var last := names[|names| - 1];
      DistinctSize(most);
      assert (set n | n in names) == (set n | n in most) + {last};
    }
  }

  /** A text whose markers are all escaped references nothing. */
  lemma {:induction false} AllEscaped(s: Bytes, i: nat)
    requires forall p | i <= p && MarkerAt(s, p) :: Escaped(s, p)
    ensures References(s, i) == Some([])
    decreases |s| - i
  {
    if i < |s| {
      AllEscaped(s, if MarkerAt(s, i) then i + |MARKER| else i + 1);
    }
  }

  // ----- Compositionality -----

  /** Bytes after a byte that is no backslash are scanned as a text of their own. */
  lemma {:induction false} NameEndShift(front: Bytes, b: Bytes, k: nat)
    requires k <= |b|
    ensures NameEnd(front + b, |front| + k) == |front| + NameEnd(b, k)
    decreases |b| - k
  {
    if k < |b| {
      assert (front + b)[|front| + k] == b[k];
      if NameByte(b[k]) {
        NameEndShift(front, b, k + 1);
      }
    }
  }

  lemma MarkerShift(front: Bytes, b: Bytes, k: nat)
    ensures MarkerAt(front + b, |front| + k) <==> MarkerAt(b, k)
  {
    if k + |MARKER| <= |b| {
      assert (front + b)[|front| + k..|front| + k + |MARKER|] == b[k..k + |MARKER|];
    }
  }

  /** An unescaped marker reads the same name in both. */
  lemma NameShift(front: Bytes, b: Bytes, k: nat)
    requires front == [] || front[|front| - 1] != BACKSLASH
    requires MarkerAt(b, k)
    ensures MarkerAt(front + b, |front| + k)
    ensures Escaped(front + b, |front| + k) <==> Escaped(b, k)
    ensures NameEnd(front + b, |front| + k + |MARKER|) == |front| + NameEnd(b, k + |MARKER|)
    ensures NameAt(front + b, |front| + k) == NameAt(b, k)
  {
    MarkerShift(front, b, k);
    NameEndShift(front, b, k + |MARKER|);
    assert (front + b)[|front|..] == b;
    assert (front + b)[|front| + k + |MARKER|..|front| + NameEnd(b, k + |MARKER|)] ==
           b[k + |MARKER|..NameEnd(b, k + |MARKER|)];
  }

  lemma {:induction false} ReferencesShift(front: Bytes, b: Bytes, k: nat)
    requires front == [] || front[|front| - 1] != BACKSLASH
    requires k <= |b|
    ensures References(front + b, |front| + k) == References(b, k)
    decreases |b| - k
  {
    if k < |b| {
      var s := front + b;
      MarkerShift(front, b, k);
      if !MarkerAt(b, k) {
        ReferencesShift(front, b, k + 1);
      } else {
        NameShift(front, b, k);
        ReferencesShift(front, b, if Escaped(b, k) then k + |MARKER| else NameEnd(b, k + |MARKER|));
      }
    }
  }

  /** Two texts joined by a newline. */
  function Joined(a: Bytes, b: Bytes): Bytes {
    a + [NEWLINE] + b
  }

  /** Both scans succeed, and the references are those of the first and then those of the second. */
  function Both(x: Option<seq<Bytes>>, y: Option<seq<Bytes>>): Option<seq<Bytes>> {
    if x.Some? && y.Some? then Some(x.value + y.value) else None
  }

  lemma {:induction false} NameEndJoined(a: Bytes, b: Bytes, i: nat)
    requires i <= |a|
    ensures NameEnd(Joined(a, b), i) == NameEnd(a, i)
    decreases |a| - i
  {
    if i < |a| {
      assert Joined(a, b)[i] == a[i];
      if NameByte(a[i]) {
        NameEndJoined(a, b, i + 1);
      }
    } else {
      assert Joined(a, b)[i] == NEWLINE;
    }
  }

  /** No marker spans the newline. */
  lemma MarkerJoined(a: Bytes, b: Bytes, i: nat)
    requires i <= |a|
    ensures MarkerAt(Joined(a, b), i) <==> MarkerAt(a, i)
  {
    var s := Joined(a, b);
    if i + |MARKER| <= |a| {
      assert s[i..i + |MARKER|] == a[i..i + |MARKER|];
    } else {
      MarkerByte(s, i, |a| - i);
      assert s[|a|] == NEWLINE;
    }
  }

  lemma {:induction false} ReferencesJoined(a: Bytes, b: Bytes, i: nat)
    requires i <= |a|
    ensures References(Joined(a, b), i) == Both(References(a, i), References(b, 0))
    decreases |a| - i
  {
    var s := Joined(a, b);
    MarkerJoined(a, b, i);
    if i == |a| {
      ReferencesShift(a + [NEWLINE], b, 0);
      PrependNothing(References(b, 0));
    } else if !MarkerAt(a, i) {
      ReferencesJoined(a, b, i + 1);
    } else {
      NameJoined(a, b, i);
      if Escaped(a, i) {
        ReferencesJoined(a, b, i + |MARKER|);
      } else {
        var e := NameEnd(a, i + |MARKER|);
        ReferencesJoined(a, b, e);
        BothPrepend([NameAt(a, i)], References(a, e), References(b, 0));
      }
    }
  }

  /** A marker of the first text reads the same name in both. */
  lemma NameJoined(a: Bytes, b: Bytes, i: nat)
    requires MarkerAt(a, i)
    ensures MarkerAt(Joined(a, b), i) && (Escaped(Joined(a, b), i) <==> Escaped(a, i))
    ensures NameEnd(Joined(a, b), i + |MARKER|) == NameEnd(a, i + |MARKER|)
    ensures NameAt(Joined(a, b), i) == NameAt(a, i)
  {
    MarkerJoined(a, b, i);
    NameEndJoined(a, b, i + |MARKER|);
    var e := NameEnd(a, i + |MARKER|);
    assert Joined(a, b)[i + |MARKER|..e] == a[i + |MARKER|..e];
  }

  lemma BothPrepend(front: seq<Bytes>, x: Option<seq<Bytes>>, y: Option<seq<Bytes>>)
    ensures Both(Prepend(front, x), y) == Prepend(front, Both(x, y))
  {
    if x.Some? && y.Some? {
      assert (front + x.value) + y.value == front + (x.value + y.value);
    }
  }

  /** The names of `more` that are not in `have`, in order. */
  function NotIn(more: seq<Bytes>, have: seq<Bytes>): seq<Bytes> {
    if more == [] then []
    else NotIn(more[..|more| - 1], have) + (if more[|more| - 1] in have then [] else [more[|more| - 1]])
  }

  lemma {:induction false} NotInSpec(more: seq<Bytes>, have: seq<Bytes>)
    ensures forall n :: n in NotIn(more, have) <==> n in more && n !in have
    ensures |NotIn(more, have)| <= |more|
  {
    if more != [] {
      NotInSpec(more[..|more| - 1], have);
    }
  }

  /** Going on with more references adds just the new distinct names. */
  lemma {:induction false} DistinctOver(have: seq<Bytes>, d: seq<Bytes>, refs: seq<Bytes>)
    ensures DistinctAfter(have + NotIn(d, have), refs) == have + NotIn(DistinctAfter(d, refs), have)
    decreases |refs|
  {
    if refs != [] {
      var x := refs[0];
      NotInSpec(d, have);
      assert x in have + NotIn(d, have) <==> x in have || x in d;
      if x in d {
        DistinctOver(have, d, refs[1..]);
      } else {
        assert (d + [x])[..|d|] == d;
        DistinctOver(have, d + [x], refs[1..]);
        assert NotIn(d + [x], have) == NotIn(d, have) + (if x in have then [] else [x]);
        if x !in have {
          assert have + NotIn(d, have) + [x] == have + NotIn(d + [x], have);
        } else {
          assert NotIn(d + [x], have) == NotIn(d, have);
        }
      }
    }
  }

  lemma DistinctJoined(x: seq<Bytes>, y: seq<Bytes>)
    ensures Distinct(x + y) == Distinct(x) + NotIn(Distinct(y), Distinct(x))
  {
    DistinctInTwo([], x, y);
    DistinctOver(Distinct(x), [], y);
    assert Distinct(x) + [] == Distinct(x);
  }

  /** A text that references many names keeps doing so with more text around it. */
  lemma DistinctAtLeast(x: seq<Bytes>, y: seq<Bytes>)
    ensures |Distinct(x)| <= |Distinct(x + y)| && |Distinct(y)| <= |Distinct(x + y)|
  {
    DistinctInTwo([], x, y);
    DistinctGrows(Distinct(x), y);
    DistinctSpec([], y);
    DistinctSpec([], x + y);
    DistinctSize(Distinct(y));
    DistinctSize(Distinct(x + y));
    var small, big := set n | n in Distinct(y), set n | n in Distinct(x + y);
    assert small <= big;
    SubsetSize(small, big);
  }

  lemma {:induction false} SubsetSize(a: set<Bytes>, b: set<Bytes>)
    requires a <= b
    ensures |a| <= |b|
  {
    assert b == a + (b - a);
  }

  lemma AdmissibleJoined(a: Bytes, b: Bytes)
    ensures Admissible(Joined(a, b)) <==> Admissible(a) && Admissible(b) && |a| + 1 + |b| <= MAX_CONTENT
  {
    var s := Joined(a, b);
    ValidAroundByte(a, NEWLINE, b, 0);
    assert Printable(s) <==> Printable(a) && Printable(b) by {
      assert forall k | 0 <= k < |a| :: s[k] == a[k];
      assert forall k | 0 <= k < |b| :: s[|a| + 1 + k] == b[k];
      assert s[|a|] == NEWLINE;
    }
  }

  /**
   * Joined by a newline, two texts are accepted exactly when both are, the size
   * fits and the union has at most 64 names; the answer is the names of the first
   * and then the new ones of the second.
   */
  lemma Compositional(a: Bytes, b: Bytes)
    ensures Names(Joined(a, b)) ==
            if Names(a).Some? && Names(b).Some? && |a| + 1 + |b| <= MAX_CONTENT
               && |Names(a).value + NotIn(Names(b).value, Names(a).value)| <= MAX_NAMES
            then Some(Names(a).value + NotIn(Names(b).value, Names(a).value))
            else None
  {
    AdmissibleJoined(a, b);
    ReferencesJoined(a, b, 0);
    if References(a, 0).Some? && References(b, 0).Some? {
      var x, y := References(a, 0).value, References(b, 0).value;
      DistinctJoined(x, y);
      DistinctAtLeast(x, y);
    }
  }
}
