/**
 * What the scanner and the check of secret files accept, spelled out in characters
 * and path components (sandbox/secret_files.go:29-122, sandbox/template_spec.go:28).
 */
module SecretMeaning {
  import opened Wrappers
  import opened Utf8
  import opened Utf8Encoding
  import opened SecretScanner
  import opened CleanPaths
  import opened SecretDestinations

  /** The bytes of a text in the Latin alphabet, one after the other. */
  ghost predicate Spells(bytes: Bytes, text: string) {
    |bytes| == |text| && forall k | 0 <= k < |text| :: bytes[k] == text[k] as int
  }

  lemma WordsSpelled()
    ensures Spells(MARKER, "secrets://") && Spells([BACKSLASH], "\\") && Spells([NEWLINE], "\n")
    ensures Spells(SOURCE_NAME, "SOURCE") && Spells([SLASH], "/")
    ensures |ROOTS| == 3
    ensures Spells(ROOTS[0], "/home/tenki/") && Spells(ROOTS[1], "/workspace/") && Spells(ROOTS[2], "/app/")
  {
  }

  // ----- Names -----

  predicate Within(first: char, b: int, last: char) {
    first as int <= b <= last as int
  }

  predicate NameCharacter(b: int) {
    Within('A', b, 'Z') || Within('a', b, 'z') || Within('0', b, '9') || b == '_' as int || b == '-' as int
  }

  /** templateSecretNamePattern: a letter or "_", then letters, digits, "_" and "-", at most 128 in all. */
  predicate MatchesNamePattern(n: Bytes) {
    && 0 < |n| <= 128
    && (Within('A', n[0], 'Z') || Within('a', n[0], 'z') || n[0] == '_' as int)
    && forall k | 1 <= k < |n| :: NameCharacter(n[k])
  }

  lemma NameMeans(n: Bytes)
    ensures ValidName(n) <==> MatchesNamePattern(n)
  {
  }

  // ----- Contents -----

  /** A character a content may hold: no control character below the blank but newline, return and tab. */
  predicate Allowed(c: int) {
    c >= ' ' as int || c == '\n' as int || c == '\r' as int || c == '\t' as int
  }

  lemma {:induction false} PrintableFrom(s: Bytes, i: nat)
    requires i <= |s| && ValidFrom(s, i)
    ensures (forall k | i <= k < |s| :: PrintableCode(s[k])) <==>
            (forall k | 0 <= k < |Scalars(s, i)| :: Allowed(Scalars(s, i)[k]))
    decreases |s| - i
  {
    if i < |s| {
      var c, j := CodePoint(s, i), i + CharLength(s, i);
      SmallIsOneByte(s, i);
      OneScalar(s, i, c, j);
      PrintableFrom(s, j);
      CharPrintable(s, i);
      AllowedCons(c, Scalars(s, j));
    }
  }

  lemma CharPrintable(s: Bytes, i: nat)
    requires i < |s| && CharLength(s, i) > 0
    ensures (forall k | i <= k < i + CharLength(s, i) :: PrintableCode(s[k])) <==> Allowed(CodePoint(s, i))
  {
    SmallIsOneByte(s, i);
  }

  lemma AllowedCons(c: int, cs: seq<int>)
    ensures (forall k | 0 <= k < |[c] + cs| :: Allowed(([c] + cs)[k])) <==>
            Allowed(c) && forall k | 0 <= k < |cs| :: Allowed(cs[k])
  {
    assert forall k | 0 <= k < |cs| :: ([c] + cs)[k + 1] == cs[k];
    assert ([c] + cs)[0] == c;
  }

  /** A content is admissible if it is short enough and spells a text of allowed characters. */
  lemma AdmissibleMeans(s: Bytes)
    ensures Admissible(s) <==>
            && |s| <= 262144
            && exists cs :: AllScalar(cs) && s == EncodedAll(cs) && forall k | 0 <= k < |cs| :: Allowed(cs[k])
  {
    ValidIffEncoded(s);
    if Valid(s) {
      PrintableFrom(s, 0);
      ValidIsEncoded(s, 0);
      assert s[0..] == s;
    }
  }

  // ----- Destinations -----

  /** The allowed roots as components. */
  ghost predicate Root(parts: seq<Bytes>) {
    || (|parts| == 2 && Spells(parts[0], "home") && Spells(parts[1], "tenki"))
    || (|parts| == 1 && Spells(parts[0], "workspace"))
    || (|parts| == 1 && Spells(parts[0], "app"))
  }

  /** A component that stands for itself: not empty, not ".", not "..". */
  ghost predicate Ordinary(part: Bytes) {
    part != [] && !Spells(part, ".") && !Spells(part, "..")
  }

  /** A rooted path of ordinary components that begins with those of a root and has more. */
  ghost predicate UnderRoot(p: Bytes) {
    && Rooted(p) && (forall part | part in Components(p) :: Ordinary(part))
    && exists root :: Root(root) && root < Components(p)
  }

  lemma PlainMeans(part: Bytes)
    ensures Plain(part) <==> Ordinary(part)
  {
  }

  const HOME: Bytes := [104, 111, 109, 101]
  const TENKI: Bytes := [116, 101, 110, 107, 105]
  const WORKSPACE: Bytes := [119, 111, 114, 107, 115, 112, 97, 99, 101]
  const APP: Bytes := [97, 112, 112]

  lemma OnePiece(p: Bytes, part: Bytes)
    requires p == [SLASH] + part && part != [] && NoSlash(part)
    ensures Components(p) == [part]
  {
    assert p[1..] == part;
    SplitWhole(part);
  }

  lemma TwoPieces(p: Bytes, a: Bytes, b: Bytes)
    requires p == [SLASH] + a + [SLASH] + b && NoSlash(a) && NoSlash(b)
    ensures Components(p) == [a, b]
  {
    assert p[1..] == a + [SLASH] + b;
    SplitConcat(a, b);
    SplitWhole(a);
    SplitWhole(b);
  }

  /** The components of a root. */
  function RootParts(k: nat): seq<Bytes>
    requires k < 3
  {
    if k == 0 then [HOME, TENKI] else if k == 1 then [WORKSPACE] else [APP]
  }

  lemma {:induction false} RootComponents(k: nat)
    requires k < |ROOTS|
    ensures |ROOTS| == 3 && Components(RootPath(k)) == RootParts(k)
  {
    if k == 0 {
      TwoPieces(RootPath(0), HOME, TENKI);
    } else if k == 1 {
      OnePiece(RootPath(1), WORKSPACE);
    } else {
      OnePiece(RootPath(2), APP);
    }
  }

  lemma SpelledOnce(a: Bytes, b: Bytes, text: string)
    requires Spells(b, text)
    ensures Spells(a, text) <==> a == b
  {
  }

  lemma RootMeans(root: seq<Bytes>)
    ensures Root(root) <==> root == RootParts(0) || root == RootParts(1) || root == RootParts(2)
  {
    if |root| == 2 {
      SpelledOnce(root[0], HOME, "home");
      SpelledOnce(root[1], TENKI, "tenki");
    } else if |root| == 1 {
      SpelledOnce(root[0], WORKSPACE, "workspace");
      SpelledOnce(root[0], APP, "app");
    }
  }

  lemma RootsMean(root: seq<Bytes>)
    ensures Root(root) <==> exists k :: 0 <= k < |ROOTS| && Components(RootPath(k)) == root
  {
    RootMeans(root);
    RootComponents(0);
    RootComponents(1);
    RootComponents(2);
  }

  lemma EndsInSlash(p: Bytes, root: Bytes)
    requires Rooted(root) && p == root + [SLASH]
    ensures [] in Components(p)
  {
    assert p[1..] == root[1..] + [SLASH] + [];
    SplitConcat(root[1..], []);
    assert Components(p)[|Components(p)| - 1] == [];
  }

  /** Below a root as a string means: its components and more. */
  lemma BelowMeans(p: Bytes, k: nat)
    requires Rooted(p) && k < |ROOTS| && forall part | part in Components(p) :: Plain(part)
    ensures Below(p, ROOTS[k]) <==> Components(RootPath(k)) < Components(p)
  {
    var root := RootPath(k);
    RootShape(k);
    if Below(p, ROOTS[k]) {
      StrictlyUnderRoot(p, k);
    }
    if Components(root) < Components(p) {
      PrefixIsAncestry(p, root);
      assert root + [SLASH] <= p;
      if |p| == |ROOTS[k]| {
        assert p == root + [SLASH];
        EndsInSlash(p, root);
        assert false;
      }
    }
  }

  /**
   * A destination is allowed if and only if it is valid text of at most 4096 bytes
   * without NUL, newline, return and tab, and lies under a root by its components.
   */
  lemma DestinationMeans(p: Bytes)
    ensures DestinationOk(p) <==>
            && (exists cs :: AllScalar(cs) && p == EncodedAll(cs)) && |p| <= 4096
            && (forall k | 0 <= k < |p| :: p[k] !in {0, '\n' as int, '\r' as int, '\t' as int})
            && UnderRoot(p)
  {
    ValidIffEncoded(p);
    if Rooted(p) {
      CleanIffPlain(p);
      forall part ensures Plain(part) <==> Ordinary(part) {
        PlainMeans(part);
      }
      if forall part | part in Components(p) :: Plain(part) {
        UnderMeans(p);
      }
    }
  }

  lemma UnderMeans(p: Bytes)
    requires Rooted(p) && forall part | part in Components(p) :: Plain(part)
    ensures (exists k :: 0 <= k < |ROOTS| && Below(p, ROOTS[k])) <==> exists root :: Root(root) && root < Components(p)
  {
    if k :| 0 <= k < |ROOTS| && Below(p, ROOTS[k]) {
      BelowMeans(p, k);
      RootsMean(Components(RootPath(k)));
    }
    if root :| Root(root) && root < Components(p) {
      RootsMean(root);
      var k :| 0 <= k < |ROOTS| && Components(RootPath(k)) == root;
      BelowMeans(p, k);
    }
  }

  /** Components are the pieces between slashes: put together with slashes they are the path. */
  lemma ComponentsMean(p: Bytes, parts: seq<Bytes>)
    requires Rooted(p) && |p| > 1
    ensures Components(p) == parts <==>
            parts != [] && [SLASH] + Join(parts) == p && forall part | part in parts :: NoSlash(part)
  {
    JoinSplit(p[1..]);
    SplitNoSlash(p[1..]);
    assert [SLASH] + p[1..] == p;
    if parts != [] && [SLASH] + Join(parts) == p && forall part | part in parts :: NoSlash(part) {
      assert p[1..] == Join(parts);
      SplitJoin(parts);
    }
  }

  // ----- References -----

  ghost predicate MarkerSpelled(s: Bytes, p: nat) {
    p + 10 <= |s| && Spells(s[p..p + 10], "secrets://")
  }

  /** The name after the marker at q goes on up to position p or further. */
  predicate NameReaches(s: Bytes, q: nat, p: nat)
    requires p < |s|
  {
    forall k | q + 10 <= k <= p :: NameCharacter(s[k])
  }

  /** At p a marker without a backslash before it, not inside the name of an earlier reference. */
  ghost predicate Referenced(s: Bytes, p: nat, ps: set<nat>) {
    && MarkerSpelled(s, p) && !(p > 0 && s[p - 1] == '\\' as int)
    && !exists q :: q in ps && q < p && NameReaches(s, q, p)
  }

  ghost predicate ReferenceSet(s: Bytes, ps: set<nat>) {
    forall p: nat :: p in ps <==> Referenced(s, p, ps)
  }

  lemma MarkerMeans(s: Bytes, p: nat)
    ensures MarkerAt(s, p) <==> MarkerSpelled(s, p)
  {
    WordsSpelled();
    if MarkerSpelled(s, p) {
      SpelledOnce(s[p..p + 10], MARKER, "secrets://");
    }
  }

  lemma ReachMeans(s: Bytes, q: nat, p: nat)
    requires MarkerAt(s, q) && q < p < |s|
    ensures NameReaches(s, q, p) <==> p < NameEnd(s, q + |MARKER|)
  {
  }

  lemma LiveMeans(s: Bytes, p: nat, positions: seq<nat>)
    requires AllMarkers(s, positions)
    ensures Live(s, p, positions) <==> Referenced(s, p, set q | q in positions)
  {
    MarkerMeans(s, p);
    if MarkerAt(s, p) {
      forall q | q in positions && q < p ensures NameReaches(s, q, p) <==> p < NameEnd(s, q + |MARKER|) {
        ReachMeans(s, q, p);
      }
    }
  }

  /** The references a scan finds are such a set. */
  lemma PositionsMean(s: Bytes)
    ensures ReferenceSet(s, set q | q in Positions(s, 0))
  {
    PositionsFrom(s, 0);
    forall p: nat ensures p in Positions(s, 0) <==> Referenced(s, p, set q | q in Positions(s, 0)) {
      PositionsAreLive(s, 0, p);
      LiveMeans(s, p, Positions(s, 0));
    }
  }

  /** There is no other such set. */
  lemma {:induction false} SameReferences(s: Bytes, a: set<nat>, b: set<nat>, p: nat)
    requires ReferenceSet(s, a) && ReferenceSet(s, b)
    ensures forall q | 0 <= q <= p :: q in a <==> q in b
  {
    if p > 0 {
      SameReferences(s, a, b, p - 1);
    }
    assert Referenced(s, p, a) <==> Referenced(s, p, b);
  }

  /** The name of a reference, as bytes that may stand in a name up to one that may not, or the end. */
  ghost predicate NameOf(s: Bytes, p: nat, n: Bytes) {
    && p + 10 + |n| <= |s| && n == s[p + 10..p + 10 + |n|]
    && (forall k | 0 <= k < |n| :: NameCharacter(n[k]))
    && (p + 10 + |n| < |s| ==> !NameCharacter(s[p + 10 + |n|]))
  }

  lemma NameAtMeans(s: Bytes, p: nat, n: Bytes)
    requires MarkerAt(s, p)
    ensures NameOf(s, p, n) <==> n == NameAt(s, p)
  {
    if NameOf(s, p, n) {
      forall k | p + 10 <= k < p + 10 + |n| ensures NameCharacter(s[k]) {
        assert n[k - p - 10] == s[k];
      }
      OneEnd(s, p + 10, NameEnd(s, p + |MARKER|), p + 10 + |n|);
    }
  }

  ghost predicate RunEnds(s: Bytes, from: nat, end: nat) {
    && from <= end <= |s|
    && (forall k | from <= k < end :: NameCharacter(s[k])) && (end < |s| ==> !NameCharacter(s[end]))
  }

  lemma OneEnd(s: Bytes, from: nat, d: nat, e: nat)
    requires RunEnds(s, from, d) && RunEnds(s, from, e)
    ensures d == e
  {
  }

  ghost predicate NamedIn(s: Bytes, ps: set<nat>, n: Bytes) {
    exists p :: p in ps && NameOf(s, p, n)
  }

  /**
   * A content is accepted if and only if it is admissible text, every reference is
   * followed by a name and these are at most 64; the answer is these names, each once.
   */
  lemma ContentMeans(s: Bytes, ps: set<nat>, names: set<Bytes>)
    requires ReferenceSet(s, ps) && forall n :: n in names <==> NamedIn(s, ps, n)
    ensures Names(s).Some? <==>
              && Admissible(s) && |names| <= 64
              && forall n | n in names :: MatchesNamePattern(n)
    ensures Names(s).Some? ==>
              && |Names(s).value| == |names|
              && forall n :: n in Names(s).value <==> n in names
  {
    Acceptance(s);
    var positions := Positions(s, 0);
    NamesAtMean(s, ps);
    assert (set n | n in NamesAt(s, positions)) == names;
    AllValidMeans(s, positions);
    if Names(s).Some? {
      DistinctSize(Names(s).value);
      assert (set n | n in Names(s).value) == names;
    }
  }

  lemma NamesAtMean(s: Bytes, ps: set<nat>)
    requires ReferenceSet(s, ps)
    ensures AllMarkers(s, Positions(s, 0))
    ensures forall n :: n in NamesAt(s, Positions(s, 0)) <==> NamedIn(s, ps, n)
  {
    PositionsFrom(s, 0);
    PositionsMean(s);
    var positions := Positions(s, 0);
    forall p: nat ensures p in ps <==> p in positions {
      SameReferences(s, ps, (set q | q in positions), p);
    }
    forall n ensures n in NamesAt(s, positions) <==> NamedIn(s, ps, n) {
      if n in NamesAt(s, positions) {
        var k :| 0 <= k < |positions| && NamesAt(s, positions)[k] == n;
        NameAtMeans(s, positions[k], n);
        assert positions[k] in ps;
      }
      if p :| p in ps && NameOf(s, p, n) {
        NameAtMeans(s, p, n);
        var k :| 0 <= k < |positions| && positions[k] == p;
        assert NamesAt(s, positions)[k] == n;
      }
    }
  }

  lemma AllValidMeans(s: Bytes, positions: seq<nat>)
    requires AllMarkers(s, positions)
    ensures AllValid(s, positions) <==> forall n | n in NamesAt(s, positions) :: MatchesNamePattern(n)
  {
    forall n ensures ValidName(n) <==> MatchesNamePattern(n) {
      NameMeans(n);
    }
    if forall n | n in NamesAt(s, positions) :: MatchesNamePattern(n) {
      forall p | p in positions ensures ValidName(NameAt(s, p)) {
        var k :| 0 <= k < |positions| && positions[k] == p;
        assert NamesAt(s, positions)[k] == NameAt(s, p);
      }
    }
  }

  // ----- Formats and files -----

  /** A path must be an allowed destination, a content must scan, a name be a name; no value is refused. */
  lemma FormatMeans(f: Format)
    ensures f.Source? ==> (FormatOk(f) <==> DestinationOk(f.path)) && Refs(f) == 0
    ensures f.Content? ==> (FormatOk(f) <==> Names(f.text).Some?)
    ensures f.Content? && FormatOk(f) ==> Refs(f) == |Names(f.text).value|
    ensures f.Raw? ==> (FormatOk(f) <==> MatchesNamePattern(f.name)) && Refs(f) == 1
    ensures f.NoFormat? ==> !FormatOk(f)
  {
    if f.Raw? {
      NameMeans(f.name);
    }
  }

  /** The references of a list of files are those of each. */
  lemma {:induction false} TotalIsSum(a: seq<File>, b: seq<File>)
    ensures TotalRefs(a + b) == TotalRefs(a) + TotalRefs(b)
    ensures |b| == 1 ==> TotalRefs(b) == Refs(b[0].format)
  {
    if b == [] {
      assert a + b == a;
    } else {
      var most := b[..|b| - 1];
      TotalIsSum(a, most);
      assert (a + b)[..|a + b| - 1] == a + most;
    }
  }

  /** Neither path is the other or an ancestor of the other. */
  ghost predicate Apart(p: Bytes, q: Bytes) {
    Rooted(p) && Rooted(q) && !(Components(q) <= Components(p)) && !(Components(p) <= Components(q))
  }

  /**
   * A list is accepted if and only if it has at most 32 files, each with an allowed
   * destination and a proper value, the destinations are apart, and the references
   * with the caller's own are at most 64.
   */
  lemma AcceptedMeans(files: seq<File>, count: int)
    ensures Accepted(files, count) <==>
            && |files| <= 32 && count + TotalRefs(files) <= 64
            && (forall i | 0 <= i < |files| :: DestinationOk(files[i].path) && FormatOk(files[i].format))
            && forall i, j | 0 <= i < |files| && 0 <= j < |files| && i != j :: Apart(files[i].path, files[j].path)
  {
    if forall i | 0 <= i < |files| :: DestinationOk(files[i].path) {
      ApartMeans(files);
    }
  }

  lemma ApartMeans(files: seq<File>)
    requires forall i | 0 <= i < |files| :: DestinationOk(files[i].path)
    ensures (forall i | 0 <= i < |files| :: NoConflict(files, i)) <==>
            forall i, j | 0 <= i < |files| && 0 <= j < |files| && i != j :: Apart(files[i].path, files[j].path)
  {
    forall i, j | 0 <= i < |files| && 0 <= j < |files| && i != j
      ensures Apart(files[i].path, files[j].path) <==>
              !Conflict(files[i].path, files[j].path) && !Conflict(files[j].path, files[i].path)
    {
      TwoApart(files[i].path, files[j].path);
    }
    if forall i | 0 <= i < |files| :: NoConflict(files, i) {
      forall i, j | 0 <= i < |files| && 0 <= j < |files| && i != j
        ensures Apart(files[i].path, files[j].path)
      {
        assert NoConflict(files, i) && NoConflict(files, j);
      }
    }
  }

  lemma TwoApart(p: Bytes, q: Bytes)
    requires DestinationOk(p) && DestinationOk(q)
    ensures Apart(p, q) <==> !Conflict(p, q) && !Conflict(q, p)
  {
    PrefixIsAncestry(p, q);
    PrefixIsAncestry(q, p);
  }
}
