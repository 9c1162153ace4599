/**
 * The names of template enums, spelled out by the keys that lead to each field, and
 * what both directions of the rewriter do with them (sandbox/template_spec.go:638-774).
 */
module TemplateNames {
  import opened Wrappers
  import opened TemplateJson
  import opened TemplateEnums
  import opened TemplateRewriter

  /** At this field, `short` is the authored form and `long` the protobuf form of one value. */
  predicate Authored(path: seq<string>, short: string, long: string) {
    || (path == ["context", "checkout", "mode"] && CheckoutMode(short, long))
    || ((path == ["runtime", "runAt"] || path == ["runtime", "run_at"]) && RunAt(short, long))
    || ((path == ["runtime", "restartPolicy"] || path == ["runtime", "restart_policy"]) && RestartPolicy(short, long))
    || ((path == ["runtime", "snapshotMode"] || path == ["runtime", "snapshot_mode"]) && SnapshotMode(short, long))
  }

  predicate CheckoutMode(short: string, long: string) {
    || (short == "contents" && long == "TEMPLATE_CHECKOUT_MODE_CONTENTS")
    || (short == "directory" && long == "TEMPLATE_CHECKOUT_MODE_DIRECTORY")
  }

  predicate RunAt(short: string, long: string) {
    || (short == "boot" && long == "TEMPLATE_RUNTIME_RUN_AT_BOOT")
    || (short == "build" && long == "TEMPLATE_RUNTIME_RUN_AT_BUILD")
    || (short == "manual" && long == "TEMPLATE_RUNTIME_RUN_AT_MANUAL")
  }

  predicate RestartPolicy(short: string, long: string) {
    || (short == "never" && long == "TEMPLATE_RESTART_POLICY_NEVER")
    || (short == "on-failure" && long == "TEMPLATE_RESTART_POLICY_ON_FAILURE")
    || (short == "always" && long == "TEMPLATE_RESTART_POLICY_ALWAYS")
  }

  predicate SnapshotMode(short: string, long: string) {
    || (short == "filesystem" && long == "TEMPLATE_SNAPSHOT_MODE_FILESYSTEM")
    || (short == "memory" && long == "TEMPLATE_SNAPSHOT_MODE_MEMORY")
  }

  /** The seven fields that hold an enum. */
  predicate EnumField(path: seq<string>) {
    || path == ["context", "checkout", "mode"]
    || path == ["runtime", "runAt"] || path == ["runtime", "run_at"]
    || path == ["runtime", "restartPolicy"] || path == ["runtime", "restart_policy"]
    || path == ["runtime", "snapshotMode"] || path == ["runtime", "snapshot_mode"]
  }

  // ----- The tables are these -----

  lemma JoinedTwo(a: string, b: string)
    ensures Joined([a, b]) == a + "." + b
  {
    assert [a, b][1..] == [b];
  }

  lemma JoinedThree(a: string, b: string, c: string)
    ensures Joined([a, b, c]) == a + "." + (b + "." + c)
  {
    assert [a, b, c][1..] == [b, c];
    JoinedTwo(b, c);
  }

  lemma CheckoutField()
    ensures NamesAt(["context", "checkout", "mode"]) == CHECKOUT_MODES
  {
    JoinedThree("context", "checkout", "mode");
    assert "context" + "." + ("checkout" + "." + "mode") == "context.checkout.mode";
    FieldsDiffer();
  }

  lemma RunAtFields()
    ensures NamesAt(["runtime", "runAt"]) == RUN_ATS && NamesAt(["runtime", "run_at"]) == RUN_ATS
  {
    JoinedTwo("runtime", "runAt");
    JoinedTwo("runtime", "run_at");
    assert "runtime" + "." + "runAt" == "runtime.runAt" && "runtime" + "." + "run_at" == "runtime.run_at";
    FieldsDiffer();
  }

  lemma RestartPolicyFields()
    ensures NamesAt(["runtime", "restartPolicy"]) == RESTART_POLICIES
    ensures NamesAt(["runtime", "restart_policy"]) == RESTART_POLICIES
  {
    JoinedTwo("runtime", "restartPolicy");
    JoinedTwo("runtime", "restart_policy");
    assert "runtime" + "." + "restartPolicy" == "runtime.restartPolicy";
    assert "runtime" + "." + "restart_policy" == "runtime.restart_policy";
    FieldsDiffer();
  }

  lemma SnapshotModeFields()
    ensures NamesAt(["runtime", "snapshotMode"]) == SNAPSHOT_MODES
    ensures NamesAt(["runtime", "snapshot_mode"]) == SNAPSHOT_MODES
  {
    JoinedTwo("runtime", "snapshotMode");
    JoinedTwo("runtime", "snapshot_mode");
    assert "runtime" + "." + "snapshotMode" == "runtime.snapshotMode";
    assert "runtime" + "." + "snapshot_mode" == "runtime.snapshot_mode";
    FieldsDiffer();
  }

  /** Where two of the seven field names have one length, a letter tells them apart. */
  lemma FieldsDiffer()
    ensures "context.checkout.mode"[0] == 'c' && "runtime.restartPolicy"[0] == 'r' && "runtime.snapshot_mode"[0] == 'r'
    ensures "runtime.restartPolicy"[8] == 'r' && "runtime.snapshot_mode"[8] == 's'
  {
  }

  lemma CheckoutNames(short: string, long: string)
    ensures short in CHECKOUT_MODES && CHECKOUT_MODES[short] == long <==> CheckoutMode(short, long)
  {
  }

  lemma RunAtNames(short: string, long: string)
    ensures short in RUN_ATS && RUN_ATS[short] == long <==> RunAt(short, long)
  {
  }

  lemma RestartPolicyNames(short: string, long: string)
    ensures short in RESTART_POLICIES && RESTART_POLICIES[short] == long <==> RestartPolicy(short, long)
  {
  }

  lemma SnapshotModeNames(short: string, long: string)
    ensures short in SNAPSHOT_MODES && SNAPSHOT_MODES[short] == long <==> SnapshotMode(short, long)
  {
  }

  /** At each of the seven fields, the names are exactly those spelled out. */
  lemma NamesSpelled(path: seq<string>, short: string, long: string)
    requires EnumField(path)
    ensures short in NamesAt(path) && NamesAt(path)[short] == long <==> Authored(path, short, long)
  {
    CheckoutField();
    RunAtFields();
    RestartPolicyFields();
    SnapshotModeFields();
    CheckoutNames(short, long);
    RunAtNames(short, long);
    RestartPolicyNames(short, long);
    SnapshotModeNames(short, long);
  }

  // ----- And there are no others -----

  predicate DotFree(path: seq<string>) {
    forall k | 0 <= k < |path| :: '.' !in path[k]
  }

  lemma DotMeansMore(path: seq<string>)
    requires path != [] && DotFree(path)
    ensures '.' in Joined(path) <==> |path| > 1
  {
    if |path| > 1 {
      assert Joined(path)[|path[0]|] == '.';
    }
  }

  /** Keys without dots are joined in one way only. */
  lemma {:induction false} JoinedInjective(a: seq<string>, b: seq<string>)
    requires a != [] && b != [] && DotFree(a) && DotFree(b) && Joined(a) == Joined(b)
    ensures a == b
    decreases |a|
  {
    var s := Joined(a);
    DotMeansMore(a);
    DotMeansMore(b);
    if |a| > 1 {
      assert s[|a[0]|] == '.' && s[|b[0]|] == '.';
      assert forall k | 0 <= k < |a[0]| :: s[k] == a[0][k];
      assert forall k | 0 <= k < |b[0]| :: s[k] == b[0][k];
      assert |a[0]| == |b[0]|;
      assert a[0] == b[0];
      assert s[|a[0]| + 1..] == Joined(a[1..]) && s[|b[0]| + 1..] == Joined(b[1..]);
      JoinedInjective(a[1..], b[1..]);
      assert a == [a[0]] + a[1..] && b == [b[0]] + b[1..];
    }
  }

  /** The keys of a field name. */
  ghost predicate KeysOf(field: string, path: seq<string>) {
    EnumField(path) && DotFree(path) && Joined(path) == field
  }

  lemma ContextKeys()
    ensures KeysOf("context.checkout.mode", ["context", "checkout", "mode"])
  {
    JoinedThree("context", "checkout", "mode");
  }

  lemma RunAtKeys()
    ensures KeysOf("runtime.runAt", ["runtime", "runAt"])
  {
    JoinedTwo("runtime", "runAt");
  }

  lemma RunAtSnakeKeys()
    ensures KeysOf("runtime.run_at", ["runtime", "run_at"])
  {
    JoinedTwo("runtime", "run_at");
  }

  lemma RestartPolicyKeys()
    ensures KeysOf("runtime.restartPolicy", ["runtime", "restartPolicy"])
  {
    JoinedTwo("runtime", "restartPolicy");
  }

  lemma RestartPolicySnakeKeys()
    ensures KeysOf("runtime.restart_policy", ["runtime", "restart_policy"])
  {
    JoinedTwo("runtime", "restart_policy");
  }

  lemma SnapshotModeKeys()
    ensures KeysOf("runtime.snapshotMode", ["runtime", "snapshotMode"])
  {
    JoinedTwo("runtime", "snapshotMode");
  }

  lemma SnapshotModeSnakeKeys()
    ensures KeysOf("runtime.snapshot_mode", ["runtime", "snapshot_mode"])
  {
    JoinedTwo("runtime", "snapshot_mode");
  }

  lemma FieldKeys(field: string) returns (path: seq<string>)
    requires field in ENUM_FIELDS
    ensures KeysOf(field, path)
  {
    if field == "context.checkout.mode" {
      ContextKeys();
      return ["context", "checkout", "mode"];
    }
    if field == "runtime.runAt" {
      RunAtKeys();
      return ["runtime", "runAt"];
    }
    if field == "runtime.run_at" {
      RunAtSnakeKeys();
      return ["runtime", "run_at"];
    }
    if field == "runtime.restartPolicy" {
      RestartPolicyKeys();
      return ["runtime", "restartPolicy"];
    }
    if field == "runtime.restart_policy" {
      RestartPolicySnakeKeys();
      return ["runtime", "restart_policy"];
    }
    if field == "runtime.snapshotMode" {
      SnapshotModeKeys();
      return ["runtime", "snapshotMode"];
    }
    SnapshotModeSnakeKeys();
    return ["runtime", "snapshot_mode"];
  }

  /** Under keys without dots, a field that is none of the seven has no names. */
  lemma NoOtherField(path: seq<string>)
    requires DotFree(path) && !EnumField(path)
    ensures Joined(path) !in ENUM_FIELDS && NamesAt(path) == map[]
  {
    if Joined(path) in ENUM_FIELDS {
      var keys := FieldKeys(Joined(path));
      JoinedInjective(path, keys);
    }
  }

  // ----- What becomes of a leaf -----

  /** At an enum field each direction turns one form into the other, and leaves any other string. */
  lemma LeafRenamed(path: seq<string>, value: string)
    requires EnumField(path)
    ensures forall long | Authored(path, value, long) :: Rename(NamesAt(path), value, false) == long
    ensures forall short | Authored(path, short, value) :: Rename(NamesAt(path), value, true) == short
    ensures (forall long :: !Authored(path, value, long)) ==> Rename(NamesAt(path), value, false) == value
    ensures (forall short :: !Authored(path, short, value)) ==> Rename(NamesAt(path), value, true) == value
  {
    NamesArePaired(path);
    var names := NamesAt(path);
    forall a, b ensures a in names && names[a] == b <==> Authored(path, a, b) {
      NamesSpelled(path, a, b);
    }
    ToLong(names, value);
    ToShort(names, value);
    assert value in names ==> Authored(path, value, names[value]);
    forall short | short in names && names[short] == value ensures Authored(path, short, value) {
    }
  }

  lemma ToLong(names: Names, value: string)
    ensures value in names ==> Rename(names, value, false) == names[value]
    ensures value !in names ==> Rename(names, value, false) == value
  {
  }

  lemma ToShort(names: Names, value: string)
    requires Paired(names)
    ensures forall short | short in names && names[short] == value :: Rename(names, value, true) == short
    ensures (forall short | short in names :: names[short] != value) ==> Rename(names, value, true) == value
  {
    forall short | short in names && names[short] == value ensures Rename(names, value, true) == short {
      var found := Rename(names, value, true);
      assert found in names && names[found] == value;
    }
  }

  /** The authored and the protobuf form of a leaf, whichever it is in, become each other. */
  ghost predicate Swapped(path: seq<string>, before: string, after: string, toAuthored: bool) {
    if toAuthored then
      Authored(path, after, before) || (before == after && forall short :: !Authored(path, short, before))
    else
      Authored(path, before, after) || (before == after && forall long :: !Authored(path, before, long))
  }

  /**
   * The rewriter on any text that spells a tree without repeated keys: the output
   * spells a tree with the same leaves, of which each string at an enum field is
   * in the form asked for, and every other one, under keys without dots, unchanged.
   */
  lemma NormalizedRenames(t: Tree, toAuthored: bool) returns (u: Tree)
    requires NoRepeats(t)
    ensures Normalized(Print(t), toAuthored) == Some(Print(u))
    ensures |Leaves(u, [])| == |Leaves(t, [])|
    ensures forall i | 0 <= i < |Leaves(t, [])| && Leaves(t, [])[i].isText && EnumField(Leaves(t, [])[i].path) ::
              && Leaves(u, [])[i].isText && Leaves(u, [])[i].path == Leaves(t, [])[i].path
              && Swapped(Leaves(t, [])[i].path, Leaves(t, [])[i].value, Leaves(u, [])[i].value, toAuthored)
    ensures forall i | 0 <= i < |Leaves(t, [])| && DotFree(Leaves(t, [])[i].path)
                       && !(Leaves(t, [])[i].isText && EnumField(Leaves(t, [])[i].path)) ::
              Leaves(u, [])[i] == Leaves(t, [])[i]
  {
    u := Rewrite(t, [], toAuthored);
    PrintNormalizes(t, toAuthored);
    LeavesRenamed(t, [], toAuthored);
    forall i | 0 <= i < |Leaves(t, [])| && Leaves(t, [])[i].isText && EnumField(Leaves(t, [])[i].path)
      ensures Renamed(Leaves(t, [])[i], Leaves(u, [])[i], toAuthored)
      ensures Swapped(Leaves(t, [])[i].path, Leaves(t, [])[i].value, Leaves(u, [])[i].value, toAuthored)
    {
      LeafSwapped(Leaves(t, [])[i].path, Leaves(t, [])[i].value, toAuthored);
      assert Renamed(Leaves(t, [])[i], Leaves(u, [])[i], toAuthored);
    }
    forall i | 0 <= i < |Leaves(t, [])| && DotFree(Leaves(t, [])[i].path)
               && !(Leaves(t, [])[i].isText && EnumField(Leaves(t, [])[i].path))
      ensures Leaves(u, [])[i] == Leaves(t, [])[i]
    {
      assert Renamed(Leaves(t, [])[i], Leaves(u, [])[i], toAuthored);
      if !EnumField(Leaves(t, [])[i].path) {
        NoOtherField(Leaves(t, [])[i].path);
      }
    }
  }

  lemma LeafSwapped(path: seq<string>, value: string, toAuthored: bool)
    requires EnumField(path)
    ensures Swapped(path, value, Rename(NamesAt(path), value, toAuthored), toAuthored)
  {
    LeafRenamed(path, value);
    if toAuthored && exists short :: Authored(path, short, value) {
      var short :| Authored(path, short, value);
      assert Rename(NamesAt(path), value, true) == short;
    } else if !toAuthored && exists long :: Authored(path, value, long) {
      var long :| Authored(path, value, long);
      assert Rename(NamesAt(path), value, false) == long;
    }
  }

  /** One text, token by token: {"runtime":{"runAt":"boot"}} and its protobuf form. */
  function RunAtText(value: string): seq<Lexeme> {
    [OpenObj, Str("runtime"), Colon, OpenObj, Str("runAt"), Colon, Str(value), CloseObj, CloseObj]
  }

  lemma BootAndBack()
    ensures Normalized(RunAtText("boot"), false) == Some(RunAtText("TEMPLATE_RUNTIME_RUN_AT_BOOT"))
    ensures Normalized(RunAtText("TEMPLATE_RUNTIME_RUN_AT_BOOT"), true) == Some(RunAtText("boot"))
  {
    var path, long := ["runtime", "runAt"], "TEMPLATE_RUNTIME_RUN_AT_BOOT";
    LeafRenamed(path, "boot");
    LeafRenamed(path, long);
    assert Authored(path, "boot", long);
    RunAtTree("boot", long, false);
    RunAtTree(long, "boot", true);
  }

  lemma RunAtTree(before: string, after: string, toAuthored: bool)
    requires Rename(NamesAt(["runtime", "runAt"]), before, toAuthored) == after
    ensures Normalized(RunAtText(before), toAuthored) == Some(RunAtText(after))
  {
    var inner, outer := Nested("runAt", Text(before)), Nested("runtime", Nested("runAt", Text(before)));
    assert [] + ["runtime"] == ["runtime"] && ["runtime"] + ["runAt"] == ["runtime", "runAt"];
    RewriteNested("runAt", Text(before), ["runtime"], toAuthored);
    RewriteNested("runtime", inner, [], toAuthored);
    assert Rewrite(outer, [], toAuthored) == Nested("runtime", Nested("runAt", Text(after)));
    PrintRunAt(before);
    PrintRunAt(after);
    PrintNormalizes(outer, toAuthored);
  }

  /** An object with one member. */
  function Nested(key: string, value: Tree): Tree {
    Obj([Member(key, value)])
  }

  lemma RewriteNested(key: string, value: Tree, path: seq<string>, toAuthored: bool)
    ensures Rewrite(Nested(key, value), path, toAuthored) == Nested(key, Rewrite(value, path + [key], toAuthored))
  {
  }

  lemma PrintNested(key: string, value: Tree)
    ensures Print(Nested(key, value)) == [OpenObj] + ([Str(key), Colon] + Print(value)) + [CloseObj]
  {
    var m := Member(key, value);
    assert PrintMembers([m]) == PrintMember(m);
  }

  lemma PrintRunAt(value: string)
    ensures Print(Nested("runtime", Nested("runAt", Text(value)))) == RunAtText(value)
  {
    PrintNested("runAt", Text(value));
    PrintNested("runtime", Nested("runAt", Text(value)));
  }
}
