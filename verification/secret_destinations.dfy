/**
 * Paths as sequences of components, and what path.Clean keeps as it is.
 */
module CleanPaths {
  import opened Utf8

  const SLASH: Byte := 47
  const DOT: Byte := 46

  const HERE: Bytes := [DOT]
  const PARENT: Bytes := [DOT, DOT]

  /** The pieces between slashes; there is always at least one. */
  function Split(p: Bytes): (r: seq<Bytes>)
    ensures r != []
  {
    if p == [] then [[]]
    else
      var rest := Split(p[1..]);
      if p[0] == SLASH then [[]] + rest else [[p[0]] + rest[0]] + rest[1..]
  }

  /** The pieces put together again. */
  function Join(parts: seq<Bytes>): Bytes {
    if parts == [] then []
    else if |parts| == 1 then parts[0]
    else parts[0] + [SLASH] + Join(parts[1..])
  }

  predicate NoSlash(part: Bytes) {
    forall k | 0 <= k < |part| :: part[k] != SLASH
  }

  /** A component that path.Clean keeps. */
  predicate Plain(part: Bytes) {
    part != [] && part != HERE && part != PARENT
  }

  predicate Rooted(p: Bytes) {
    p != [] && p[0] == SLASH
  }

  /** The components of a rooted path. */
  function Components(p: Bytes): seq<Bytes>
    requires Rooted(p)
  {
    if |p| == 1 then [] else Split(p[1..])
  }

  /** path.Clean on components: drop empty ones and ".", let ".." drop the one before it. */
  function Resolve(kept: seq<Bytes>, parts: seq<Bytes>): seq<Bytes>
    decreases |parts|
  {
    if parts == [] then kept
    else if parts[0] == [] || parts[0] == HERE then Resolve(kept, parts[1..])
    else if parts[0] == PARENT then Resolve(if kept == [] then [] else kept[..|kept| - 1], parts[1..])
    else Resolve(kept + [parts[0]], parts[1..])
  }

  /** path.Clean of a rooted path. */
  function Clean(p: Bytes): Bytes
    requires Rooted(p)
  {
    [SLASH] + Join(Resolve([], Split(p[1..])))
  }

  lemma {:induction false} SplitNoSlash(p: Bytes)
    ensures forall part | part in Split(p) :: NoSlash(part)
  {
    if p != [] {
      SplitNoSlash(p[1..]);
      var rest := Split(p[1..]);
      assert rest[0] in rest;
      forall part | part in Split(p) ensures NoSlash(part) {
        if p[0] != SLASH && part !in rest {
          assert part == [p[0]] + rest[0];
        }
      }
    }
  }

  lemma {:induction false} JoinSplit(p: Bytes)
    ensures Join(Split(p)) == p
  {
    if p != [] {
      JoinSplit(p[1..]);
      var rest := Split(p[1..]);
      if p[0] == SLASH {
        assert Split(p) == [[]] + rest && (([[]] + rest)[1..]) == rest;
        assert Join(Split(p)) == [] + [SLASH] + Join(rest);
      } else {
        var first := [p[0]] + rest[0];
        assert Split(p) == [first] + rest[1..];
        if |rest| > 1 {
          assert ([first] + rest[1..])[1..] == rest[1..];
          assert Join(Split(p)) == [p[0]] + (rest[0] + [SLASH] + Join(rest[1..]));
        }
      }
    }
  }

  /** Splitting after one more byte at the front. */
  function Onto(x: Byte, rest: seq<Bytes>): seq<Bytes>
    requires rest != []
  {
    if x == SLASH then [[]] + rest else [[x] + rest[0]] + rest[1..]
  }

  lemma OntoConcat(x: Byte, a: seq<Bytes>, b: seq<Bytes>)
    requires a != []
    ensures Onto(x, a + b) == Onto(x, a) + b
  {
    assert (a + b)[1..] == a[1..] + b;
  }

  lemma {:induction false} SplitConcat(a: Bytes, b: Bytes)
    ensures Split(a + [SLASH] + b) == Split(a) + Split(b)
  {
    var s := a + [SLASH] + b;
    if a == [] {
      assert s[1..] == b;
    } else {
      assert s[1..] == a[1..] + [SLASH] + b;
      SplitConcat(a[1..], b);
      OntoConcat(a[0], Split(a[1..]), Split(b));
      assert Split(s) == Onto(s[0], Split(s[1..]));
    }
  }

  lemma {:induction false} SplitWhole(part: Bytes)
    requires NoSlash(part)
    ensures Split(part) == [part]
  {
    if part != [] {
      SplitWhole(part[1..]);
      assert [part[0]] + part[1..] == part;
    }
  }

  lemma {:induction false} SplitJoin(parts: seq<Bytes>)
    requires parts != [] && forall part | part in parts :: NoSlash(part)
    ensures Split(Join(parts)) == parts
  {
    SplitWhole(parts[0]);
    if |parts| > 1 {
      SplitJoin(parts[1..]);
      SplitConcat(parts[0], Join(parts[1..]));
      assert [parts[0]] + parts[1..] == parts;
    }
  }

  lemma {:induction false} ResolvePlain(kept: seq<Bytes>, parts: seq<Bytes>)
    requires forall part | part in parts :: Plain(part)
    ensures Resolve(kept, parts) == kept + parts
    decreases |parts|
  {
    if parts == [] {
      assert kept + parts == kept;
    } else {
      assert Plain(parts[0]);
      ResolvePlain(kept + [parts[0]], parts[1..]);
      assert kept + [parts[0]] + parts[1..] == kept + parts;
    }
  }

  lemma {:induction false} ResolvedIsPlain(kept: seq<Bytes>, parts: seq<Bytes>)
    requires forall part | part in kept :: Plain(part) && NoSlash(part)
    requires forall part | part in parts :: NoSlash(part)
    ensures forall part | part in Resolve(kept, parts) :: Plain(part) && NoSlash(part)
    decreases |parts|
  {
    if parts != [] {
      if parts[0] == [] || parts[0] == HERE {
        ResolvedIsPlain(kept, parts[1..]);
      } else if parts[0] == PARENT {
        ResolvedIsPlain(if kept == [] then [] else kept[..|kept| - 1], parts[1..]);
      } else {
        ResolvedIsPlain(kept + [parts[0]], parts[1..]);
      }
    }
  }

  /** A rooted path is clean exactly when all its components are plain. */
  lemma CleanIffPlain(p: Bytes)
    requires Rooted(p)
    ensures Clean(p) == p <==> forall part | part in Components(p) :: Plain(part)
  {
    var parts := Split(p[1..]);
    JoinSplit(p[1..]);
    SplitNoSlash(p[1..]);
    assert [SLASH] + p[1..] == p;
    if |p| == 1 {
      assert parts == [[]];
      assert Resolve([], parts) == Resolve([], parts[1..]);
    } else {
      if forall part | part in parts :: Plain(part) {
        ResolvePlain([], parts);
        assert [] + parts == parts;
      }
      if Clean(p) == p {
        ResolvedIsPlain([], parts);
        var kept := Resolve([], parts);
        assert Clean(p)[1..] == Join(kept);
        assert kept != [];
        SplitJoin(kept);
      }
    }
  }

  lemma PrefixMeansAncestor(target: Bytes, other: Bytes)
    requires Rooted(target) && Rooted(other) && |target| > 1 && |other| > 1 && other + [SLASH] <= target
    ensures Components(other) <= Components(target)
  {
    var rest := target[|other| + 1..];
    assert target == other + [SLASH] + rest;
    assert target[1..] == other[1..] + [SLASH] + rest;
    SplitConcat(other[1..], rest);
  }

  lemma {:induction false} SplitPrefix(x: Bytes, y: Bytes) returns (rest: Bytes)
    requires Split(y) <= Split(x) && x != y
    ensures x == y + ([SLASH] + rest)
  {
    JoinSplit(x);
    JoinSplit(y);
    rest := JoinPrefix(Split(x), Split(y));
  }

  lemma {:induction false} JoinPrefix(x: seq<Bytes>, y: seq<Bytes>) returns (rest: Bytes)
    requires y <= x && y != [] && Join(x) != Join(y)
    ensures Join(x) == Join(y) + ([SLASH] + rest)
  {
    var more := x[|y|..];
    assert x == y + more;
    assert more == [] ==> x == y;
    JoinConcat(y, more);
    rest := Join(more);
    assert Join(y) + [SLASH] + rest == Join(y) + ([SLASH] + rest);
  }

  lemma AncestorMeansPrefix(target: Bytes, other: Bytes)
    requires Rooted(target) && Rooted(other) && |target| > 1 && |other| > 1
    requires Components(other) <= Components(target) && target != other
    ensures other + [SLASH] <= target
  {
    var x, y := target[1..], other[1..];
    assert target == [SLASH] + x && other == [SLASH] + y;
    var rest := SplitPrefix(x, y);
    assert target == other + [SLASH] + rest;
  }

  /** On rooted paths below the root, "equal or prefix plus slash" is component-wise ancestry. */
  lemma PrefixIsAncestry(target: Bytes, other: Bytes)
    requires Rooted(target) && Rooted(other) && |target| > 1 && |other| > 1
    ensures (target == other || other + [SLASH] <= target) <==> Components(other) <= Components(target)
  {
    if other + [SLASH] <= target {
      PrefixMeansAncestor(target, other);
    }
    if Components(other) <= Components(target) && target != other {
      AncestorMeansPrefix(target, other);
    }
  }

  lemma {:induction false} JoinConcat(a: seq<Bytes>, b: seq<Bytes>)
    requires a != [] && b != []
    ensures Join(a + b) == Join(a) + [SLASH] + Join(b)
  {
    assert (a + b)[1..] == a[1..] + b;
    if |a| > 1 {
      JoinConcat(a[1..], b);
      assert Join(a + b) == a[0] + [SLASH] + (Join(a[1..]) + [SLASH] + Join(b));
    } else {
      assert a[1..] + b == b;
    }
  }
}

/** The check of secret files before a launch (sandbox/secret_files.go:29-77). */
module SecretDestinations {
  import opened Utf8
  import opened SecretScanner
  import opened CleanPaths

  /** An unset oneof is NoFormat; a nil file has an empty path and NoFormat. */
  datatype Format = Source(path: Bytes) | Content(text: Bytes) | Raw(name: Bytes) | NoFormat
  datatype File = File(path: Bytes, format: Format)

  const MAX_FILES := 32
  const MAX_PATH := 4096

  /** "/home/tenki/", "/workspace/" and "/app/". */
  const ROOTS: seq<Bytes> := [
    [47, 104, 111, 109, 101, 47, 116, 101, 110, 107, 105, 47],
    [47, 119, 111, 114, 107, 115, 112, 97, 99, 101, 47],
    [47, 97, 112, 112, 47]]

  /** "SOURCE". */
  const SOURCE_NAME: Bytes := [83, 79, 85, 82, 67, 69]

  predicate Below(target: Bytes, root: Bytes) {
    root <= target && |target| > |root|
  }

  predicate SafeBytes(p: Bytes) {
    forall k | 0 <= k < |p| :: p[k] != 0 && p[k] != 13 && p[k] != 10 && p[k] != 9
  }

  /** One destination by itself. A path that is not rooted is below no allowed root. */
  predicate DestinationOk(p: Bytes) {
    && Valid(p) && |p| <= MAX_PATH && Rooted(p) && Clean(p) == p && SafeBytes(p)
    && exists k :: 0 <= k < |ROOTS| && Below(p, ROOTS[k])
  }

  predicate Conflict(target: Bytes, other: Bytes) {
    target == other || other + [SLASH] <= target
  }

  predicate FormatOk(f: Format) {
    match f
    case Source(path) => DestinationOk(path)
    case Content(text) => Names(text).Some?
    case Raw(name) => ValidName(name)
    case NoFormat => false
  }

  /** How many references a file adds to the count. */
  function Refs(f: Format): nat {
    match f
    case Content(text) => if Names(text).Some? then |Names(text).value| else 0
    case Raw(_) => 1
    case _ => 0
  }

  function TotalRefs(files: seq<File>): nat {
    if files == [] then 0 else TotalRefs(files[..|files| - 1]) + Refs(files[|files| - 1].format)
  }

  ghost predicate NoConflict(files: seq<File>, i: nat)
    requires i < |files|
  {
    forall j | 0 <= j < |files| && j != i :: !Conflict(files[i].path, files[j].path)
  }

  /** What validateSecretFiles accepts. */
  ghost predicate Accepted(files: seq<File>, count: int) {
    && |files| <= MAX_FILES
    && (forall i | 0 <= i < |files| ::
          DestinationOk(files[i].path) && FormatOk(files[i].format) && NoConflict(files, i))
    && count + TotalRefs(files) <= MAX_NAMES
  }

  predicate HasSource(files: seq<File>) {
    exists i :: 0 <= i < |files| && files[i].format.Source?
  }

  /** The names a scan returns are names. */
  lemma ScannedNamesAreValid(text: Bytes)
    requires Names(text).Some?
    ensures forall n | n in Names(text).value :: ValidName(n)
  {
    Acceptance(text);
  }

  /** A source path is judged by the same function, as the only file and with a raw reference. */
  lemma SourceAsFile(path: Bytes)
    ensures Accepted([File(path, Raw(SOURCE_NAME))], 0) <==> DestinationOk(path)
  {
    var files := [File(path, Raw(SOURCE_NAME))];
    assert files[..0] == [] && TotalRefs(files) == 1;
    assert FormatOk(Raw(SOURCE_NAME));
    assert NoConflict(files, 0);
    assert files[0] == File(path, Raw(SOURCE_NAME));
  }

  method CheckDestination(target: Bytes) returns (ok: bool)
    ensures ok <==> DestinationOk(target)
  {
    if !Valid(target) || |target| > MAX_PATH || !Rooted(target) || Clean(target) != target || !SafeBytes(target) {
      return false;
    }
    var allowed := false;
    for k := 0 to |ROOTS|
      invariant allowed <==> exists r :: 0 <= r < k && Below(target, ROOTS[r])
    {
      allowed := allowed || Below(target, ROOTS[k]);
    }
    return allowed;
  }

  method CheckConflicts(files: seq<File>, i: nat) returns (ok: bool)
    requires i < |files|
    ensures ok <==> NoConflict(files, i)
  {
    for j := 0 to |files|
      invariant forall k | 0 <= k < j && k != i :: !Conflict(files[i].path, files[k].path)
    {
      if i != j && Conflict(files[i].path, files[j].path) {
        return false;
      }
    }
    return true;
  }

  /** The format switch and the check of the referenced names. */
  method CheckFormat(format: Format) returns (ok: bool, refs: nat)
    ensures ok <==> FormatOk(format)
    ensures ok ==> refs == Refs(format)
    decreases if format.Source? then 1 else 0, 1
  {
    refs := 0;
    match format
    case Source(path) =>
      SourceAsFile(path);
      ok := ValidateSecretFiles([File(path, Raw(SOURCE_NAME))], 0);
    case Content(text) =>
      var names := SecretFileNames(text);
      if names.None? {
        return false, 0;
      }
      ScannedNamesAreValid(text);
      for k := 0 to |names.value| {
        if !ValidName(names.value[k]) {
          ok := false;
          return;
        }
      }
      return true, |names.value|;
    case Raw(name) => return ValidName(name), 1;
    case NoFormat => return false, 0;
  }

  method ValidateSecretFiles(files: seq<File>, count: int) returns (ok: bool)
    ensures ok <==> Accepted(files, count)
    decreases if HasSource(files) then 1 else 0, 2
  {
    if |files| > MAX_FILES {
      return false;
    }
    var total := count;
    for i := 0 to |files|
      invariant forall k | 0 <= k < i ::
                  DestinationOk(files[k].path) && FormatOk(files[k].format) && NoConflict(files, k)
      invariant total == count + TotalRefs(files[..i])
    {
      var fine := CheckDestination(files[i].path);
      if !fine {
        return false;
      }
      fine := CheckConflicts(files, i);
      if !fine {
        return false;
      }
      var refs;
      fine, refs := CheckFormat(files[i].format);
      if !fine {
        return false;
      }
      assert files[..i + 1][..i] == files[..i];
      total := total + refs;
    }
    assert files[..|files|] == files;
    return total <= MAX_NAMES;
  }

  // ----- What acceptance means -----

  /** An allowed root without its trailing slash. */
  function RootPath(k: nat): Bytes
    requires k < |ROOTS|
  {
    ROOTS[k][..|ROOTS[k]| - 1]
  }

  lemma RootShape(k: nat)
    requires k < |ROOTS|
    ensures Rooted(RootPath(k)) && |RootPath(k)| > 1 && ROOTS[k] == RootPath(k) + [SLASH]
  {
  }

  /** Below an allowed root means: its components and at least one more. */
  lemma StrictlyUnderRoot(p: Bytes, k: nat)
    requires Rooted(p) && k < |ROOTS| && Below(p, ROOTS[k])
    ensures Components(RootPath(k)) < Components(p)
  {
    RootShape(k);
    PrefixIsAncestry(p, RootPath(k));
    if Components(RootPath(k)) == Components(p) {
      PrefixIsAncestry(RootPath(k), p);
      assert |p| > |RootPath(k)|;
    }
  }

  lemma AcceptedIsBelow(files: seq<File>, count: int, i: nat)
    requires Accepted(files, count) && i < |files|
    ensures WellPlaced(files[i].path)
  {
    var p := files[i].path;
    CleanIffPlain(p);
    var k :| 0 <= k < |ROOTS| && Below(p, ROOTS[k]);
    RootShape(k);
    StrictlyUnderRoot(p, k);
  }

  /** An accepted destination is a clean path strictly under an allowed root. */
  ghost predicate WellPlaced(p: Bytes) {
    && Rooted(p) && |p| > 1
    && (forall part | part in Components(p) :: Plain(part))
    && exists k :: 0 <= k < |ROOTS| && Components(RootPath(k)) < Components(p)
  }

  lemma NoAncestor(files: seq<File>, count: int, i: nat, j: nat)
    requires Accepted(files, count) && i < |files| && j < |files| && i != j
    ensures Rooted(files[i].path) && Rooted(files[j].path)
    ensures !(Components(files[j].path) <= Components(files[i].path))
  {
    AcceptedIsBelow(files, count, i);
    AcceptedIsBelow(files, count, j);
    assert NoConflict(files, i);
    PrefixIsAncestry(files[i].path, files[j].path);
  }

  /**
   * Accepted destinations form an antichain: as sequences of plain components
   * none is another one or an ancestor of another one; each lies strictly under
   * an allowed root; and the references with the caller's own are at most 64.
   */
  lemma Antichain(files: seq<File>, count: int)
    requires Accepted(files, count)
    ensures forall i | 0 <= i < |files| :: WellPlaced(files[i].path)
    ensures forall i, j | 0 <= i < |files| && 0 <= j < |files| && i != j ::
              !(Components(files[j].path) <= Components(files[i].path))
    ensures |files| <= MAX_FILES && count + TotalRefs(files) <= MAX_NAMES
  {
    forall i | 0 <= i < |files| ensures WellPlaced(files[i].path) {
      AcceptedIsBelow(files, count, i);
    }
    forall i, j | 0 <= i < |files| && 0 <= j < |files| && i != j
      ensures !(Components(files[j].path) <= Components(files[i].path))
    {
      NoAncestor(files, count, i, j);
    }
  }
}
