/**
 * The enum rewriter of template specs (sandbox/template_spec.go:638-774): which
 * leaves are enums, what each direction does to them, and the one-pass writer
 * over a streaming decoder.
 */
module TemplateEnums {
  import opened TemplateJson

  type Names = map<string, string>

  const CHECKOUT_MODES: Names := map[
    "contents" := "TEMPLATE_CHECKOUT_MODE_CONTENTS",
    "directory" := "TEMPLATE_CHECKOUT_MODE_DIRECTORY"]

  const RUN_ATS: Names := map[
    "boot" := "TEMPLATE_RUNTIME_RUN_AT_BOOT",
    "build" := "TEMPLATE_RUNTIME_RUN_AT_BUILD",
    "manual" := "TEMPLATE_RUNTIME_RUN_AT_MANUAL"]

  const RESTART_POLICIES: Names := map[
    "never" := "TEMPLATE_RESTART_POLICY_NEVER",
    "on-failure" := "TEMPLATE_RESTART_POLICY_ON_FAILURE",
    "always" := "TEMPLATE_RESTART_POLICY_ALWAYS"]

  const SNAPSHOT_MODES: Names := map[
    "filesystem" := "TEMPLATE_SNAPSHOT_MODE_FILESYSTEM",
    "memory" := "TEMPLATE_SNAPSHOT_MODE_MEMORY"]

  /** authoredTemplateEnumFields. */
  const ENUM_FIELDS: map<string, Names> := map[
    "context.checkout.mode" := CHECKOUT_MODES,
    "runtime.runAt" := RUN_ATS,
    "runtime.run_at" := RUN_ATS,
    "runtime.restartPolicy" := RESTART_POLICIES,
    "runtime.restart_policy" := RESTART_POLICIES,
    "runtime.snapshotMode" := SNAPSHOT_MODES,
    "runtime.snapshot_mode" := SNAPSHOT_MODES]

  /** strings.Join(path, "."). */
  function Joined(path: seq<string>): string {
    if path == [] then ""
    else if |path| == 1 then path[0]
    else path[0] + "." + Joined(path[1..])
  }

  /** The names at one field, empty where the field is no enum. */
  function NamesAt(path: seq<string>): Names {
    if Joined(path) in ENUM_FIELDS then ENUM_FIELDS[Joined(path)] else map[]
  }

  /** Short names and protobuf names are paired off, and none is both. */
  ghost predicate Paired(names: Names) {
    && (forall a, b | a in names && b in names && names[a] == names[b] :: a == b)
    && (forall a, b | a in names && b in names :: names[a] != b)
  }

  lemma NamesArePaired(path: seq<string>)
    ensures Paired(NamesAt(path))
  {
    CheckoutModesPaired();
    RunAtsPaired();
    RestartPoliciesPaired();
    SnapshotModesPaired();
    var field := Joined(path);
    if field in ENUM_FIELDS {
      FieldTables(field);
    }
  }

  lemma FieldTables(field: string)
    requires field in ENUM_FIELDS
    ensures ENUM_FIELDS[field] in {CHECKOUT_MODES, RUN_ATS, RESTART_POLICIES, SNAPSHOT_MODES}
  {
  }

  /** In each table all the names differ in length. */
  lemma LengthsPair(names: Names)
    requires forall a, b | a in names && b in names && |names[a]| == |names[b]| :: a == b
    requires forall a | a in names :: |a| < 20 < |names[a]|
    ensures Paired(names)
  {
  }

  lemma CheckoutModesPaired()
    ensures Paired(CHECKOUT_MODES)
  {
    LengthsPair(CHECKOUT_MODES);
  }

  lemma RunAtsPaired()
    ensures Paired(RUN_ATS)
  {
    LengthsPair(RUN_ATS);
  }

  lemma RestartPoliciesPaired()
    ensures Paired(RESTART_POLICIES)
  {
    LengthsPair(RESTART_POLICIES);
  }

  lemma SnapshotModesPaired()
    ensures Paired(SNAPSHOT_MODES)
  {
    LengthsPair(SNAPSHOT_MODES);
  }

  /** One leaf: toward short names, or toward protobuf names; others stay as they are. */
  ghost function Rename(names: Names, value: string, toAuthored: bool): string {
    if toAuthored then
      if exists short :: short in names && names[short] == value
      then var short :| short in names && names[short] == value; short
      else value
    else if value in names then names[value] else value
  }

  /** The map loop of the source: any order of visiting finds the same name. */
  method FindShort(names: Names, value: string) returns (short: string)
    requires Paired(names)
    ensures short == Rename(names, value, true)
    ensures if exists k :: k in names && names[k] == value then short in names && names[short] == value
            else short == value
  {
    var left := names.Keys;
    while left != {}
      invariant left <= names.Keys
      invariant forall k | k in names && k !in left :: names[k] != value
      decreases |left|
    {
      var k :| k in left;
      if names[k] == value {
        return k;
      }
      left := left - {k};
    }
    return value;
  }

  /** The last direction wins: both directions undo each other and repeat themselves. */
  lemma RenameTwice(names: Names, value: string, first: bool, last: bool)
    requires Paired(names)
    ensures Rename(names, Rename(names, value, first), last) == Rename(names, value, last)
  {
  }

  // ----- On trees -----

  ghost function Rewrite(t: Tree, path: seq<string>, toAuthored: bool): Tree
    decreases t
  {
    match t
    case Text(v) => Text(Rename(NamesAt(path), v, toAuthored))
    case Literal(v) => Literal(v)
    case Arr(items) => Arr(seq(|items|, i requires 0 <= i < |items| => Rewrite(items[i], path, toAuthored)))
    case Obj(members) =>
      Obj(seq(|members|, i requires 0 <= i < |members| =>
        Member(members[i].key, Rewrite(members[i].value, path + [members[i].key], toAuthored))))
  }

  lemma {:induction false} RewriteTwice(t: Tree, path: seq<string>, first: bool, last: bool)
    ensures Rewrite(Rewrite(t, path, first), path, last) == Rewrite(t, path, last)
    decreases t
  {
    match t
    case Text(v) =>
      NamesArePaired(path);
      RenameTwice(NamesAt(path), v, first, last);
    case Literal(_) =>
    case Arr(items) =>
      forall i | 0 <= i < |items|
        ensures Rewrite(Rewrite(items[i], path, first), path, last) == Rewrite(items[i], path, last)
      {
        RewriteTwice(items[i], path, first, last);
      }
    case Obj(members) =>
      forall i | 0 <= i < |members|
        ensures var p := path + [members[i].key];
                Rewrite(Rewrite(members[i].value, p, first), p, last) == Rewrite(members[i].value, p, last)
      {
        RewriteTwice(members[i].value, path + [members[i].key], first, last);
      }
  }

  lemma {:induction false} RewriteKeepsKeys(t: Tree, path: seq<string>, toAuthored: bool)
    ensures NoRepeats(Rewrite(t, path, toAuthored)) <==> NoRepeats(t)
    decreases t
  {
    match t
    case Text(_) =>
    case Literal(_) =>
    case Arr(items) =>
      var u := Rewrite(t, path, toAuthored);
      forall i | 0 <= i < |items|
        ensures NoRepeats(u.items[i]) <==> NoRepeats(items[i])
      {
        RewriteKeepsKeys(items[i], path, toAuthored);
      }
    case Obj(members) =>
      var u := Rewrite(t, path, toAuthored);
      assert DistinctKeys(u.members) <==> DistinctKeys(members) by {
        assert forall i | 0 <= i < |members| :: u.members[i].key == members[i].key;
      }
      forall i | 0 <= i < |members|
        ensures NoRepeats(u.members[i].value) <==> NoRepeats(members[i].value)
      {
        RewriteKeepsKeys(members[i].value, path + [members[i].key], toAuthored);
      }
  }

  // ----- Leaf by leaf -----

  /** A leaf, the keys that lead to it, and whether it is a string. */
  datatype Leaf = Leaf(path: seq<string>, isText: bool, value: string)

  function Leaves(t: Tree, path: seq<string>): seq<Leaf>
    decreases t, 0
  {
    match t
    case Text(v) => [Leaf(path, true, v)]
    case Literal(v) => [Leaf(path, false, v)]
    case Arr(items) => ItemLeaves(items, path)
    case Obj(members) => MemberLeaves(members, path)
  }

  function ItemLeaves(items: seq<Tree>, path: seq<string>): seq<Leaf>
    decreases items, 0
  {
    if items == [] then [] else Leaves(items[0], path) + ItemLeaves(items[1..], path)
  }

  function MemberLeaves(members: seq<Member>, path: seq<string>): seq<Leaf>
    decreases members, 0
  {
    if members == [] then [] else Leaves(members[0].value, path + [members[0].key]) + MemberLeaves(members[1..], path)
  }

  /** Same address and kind; the value renamed at a string enum field and only there. */
  ghost predicate Renamed(a: Leaf, b: Leaf, toAuthored: bool) {
    && b.path == a.path && b.isText == a.isText
    && b.value == (if a.isText then Rename(NamesAt(a.path), a.value, toAuthored) else a.value)
    && (Joined(a.path) !in ENUM_FIELDS ==> b.value == a.value)
  }

  ghost predicate AllRenamed(a: seq<Leaf>, b: seq<Leaf>, toAuthored: bool) {
    |a| == |b| && forall i | 0 <= i < |a| :: Renamed(a[i], b[i], toAuthored)
  }

  /**
   * The rewritten tree has the same leaves at the same addresses in the same
   * order, and every leaf that is no string at an enum field is unchanged.
   */
  lemma {:induction false} LeavesRenamed(t: Tree, path: seq<string>, toAuthored: bool)
    ensures AllRenamed(Leaves(t, path), Leaves(Rewrite(t, path, toAuthored), path), toAuthored)
    decreases t, 0
  {
    match t
    case Text(_) =>
    case Literal(_) =>
    case Arr(items) => ItemLeavesRenamed(items, Rewrite(t, path, toAuthored).items, path, toAuthored);
    case Obj(members) => MemberLeavesRenamed(members, Rewrite(t, path, toAuthored).members, path, toAuthored);
  }

  lemma {:induction false} ItemLeavesRenamed(items: seq<Tree>, renamed: seq<Tree>, path: seq<string>, toAuthored: bool)
    requires |renamed| == |items|
    requires forall i | 0 <= i < |items| :: renamed[i] == Rewrite(items[i], path, toAuthored)
    ensures AllRenamed(ItemLeaves(items, path), ItemLeaves(renamed, path), toAuthored)
    decreases items, 0
  {
    if items != [] {
      LeavesRenamed(items[0], path, toAuthored);
      ItemLeavesRenamed(items[1..], renamed[1..], path, toAuthored);
    }
  }

  lemma {:induction false} MemberLeavesRenamed(members: seq<Member>, renamed: seq<Member>, path: seq<string>,
                                               toAuthored: bool)
    requires |renamed| == |members|
    requires forall i | 0 <= i < |members| ::
               renamed[i] == Member(members[i].key, Rewrite(members[i].value, path + [members[i].key], toAuthored))
    ensures AllRenamed(MemberLeaves(members, path), MemberLeaves(renamed, path), toAuthored)
    decreases members, 0
  {
    if members != [] {
      LeavesRenamed(members[0].value, path + [members[0].key], toAuthored);
      MemberLeavesRenamed(members[1..], renamed[1..], path, toAuthored);
    }
  }
}
