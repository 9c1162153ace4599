/**
 * The one-pass writer over a streaming decoder. The decoder is the token state
 * machine of Go's encoding/json, on lexemes instead of characters.
 */
module TemplateRewriter {
  import opened Wrappers
  import opened TemplateJson
  import opened TemplateEnums

  datatype Mode =
    | TopValue | ArrayStart | ArrayValue | ArrayComma
    | ObjectStart | ObjectKey | ObjectColon | ObjectValue | ObjectComma

  datatype Cursor = Cursor(pos: nat, mode: Mode, stack: seq<Mode>)

  predicate ValueAllowed(m: Mode) {
    m.TopValue? || m.ArrayStart? || m.ArrayValue? || m.ObjectValue?
  }

  function ValueEnd(m: Mode): Mode {
    match m
    case ArrayStart => ArrayComma
    case ArrayValue => ArrayComma
    case ObjectValue => ObjectComma
    case _ => m
  }

  /** A separator is consumed where one is due. */
  function Skip(input: seq<Lexeme>, c: Cursor): Cursor {
    if c.pos >= |input| then c
    else if input[c.pos] == Comma && c.mode.ArrayComma? then Cursor(c.pos + 1, ArrayValue, c.stack)
    else if input[c.pos] == Comma && c.mode.ObjectComma? then Cursor(c.pos + 1, ObjectKey, c.stack)
    else if input[c.pos] == Colon && c.mode.ObjectColon? then Cursor(c.pos + 1, ObjectValue, c.stack)
    else c
  }

  /** The token at the cursor, or None for an error. */
  function Take(input: seq<Lexeme>, c: Cursor): Option<(Lexeme, Cursor)> {
    if c.pos >= |input| then None
    else
      var x := input[c.pos];
      match x
      case OpenArr =>
        if ValueAllowed(c.mode) then Some((x, Cursor(c.pos + 1, ArrayStart, c.stack + [c.mode]))) else None
      case OpenObj =>
        if ValueAllowed(c.mode) then Some((x, Cursor(c.pos + 1, ObjectStart, c.stack + [c.mode]))) else None
      case CloseArr =>
        if (c.mode.ArrayStart? || c.mode.ArrayComma?) && c.stack != [] then Some((x, Popped(c))) else None
      case CloseObj =>
        if (c.mode.ObjectStart? || c.mode.ObjectComma?) && c.stack != [] then Some((x, Popped(c))) else None
      case Str(_) =>
        if c.mode.ObjectStart? || c.mode.ObjectKey? then Some((x, Cursor(c.pos + 1, ObjectColon, c.stack)))
        else if ValueAllowed(c.mode) then Some((x, Cursor(c.pos + 1, ValueEnd(c.mode), c.stack)))
        else None
      case Atom(_) => if ValueAllowed(c.mode) then Some((x, Cursor(c.pos + 1, ValueEnd(c.mode), c.stack))) else None
      case _ => None
  }

  function Popped(c: Cursor): Cursor
    requires c.stack != []
  {
    Cursor(c.pos + 1, ValueEnd(c.stack[|c.stack| - 1]), c.stack[..|c.stack| - 1])
  }

  function NextToken(input: seq<Lexeme>, c: Cursor): Option<(Lexeme, Cursor)> {
    Take(input, Skip(input, c))
  }

  class Decoder {
    const input: seq<Lexeme>
    var pos: nat
    var mode: Mode
    var stack: seq<Mode>

    ghost function At(): Cursor
      reads this
    {
      Cursor(pos, mode, stack)
    }

    constructor (input: seq<Lexeme>)
      ensures this.input == input && At() == Cursor(0, TopValue, [])
    {
      this.input, pos, mode, stack := input, 0, TopValue, [];
    }

    /** Another element is ahead: the next lexeme closes nothing. */
    method More() returns (more: bool)
      ensures more <==> pos < |input| && input[pos] != CloseArr && input[pos] != CloseObj
    {
      more := pos < |input| && input[pos] != CloseArr && input[pos] != CloseObj;
    }

    method Token() returns (token: Option<Lexeme>)
      modifies this
      ensures match NextToken(input, old(At()))
              case None => token.None?
              case Some((x, c)) => token == Some(x) && At() == c
    {
      while true
        invariant NextToken(input, At()) == NextToken(input, old(At()))
        decreases |input| - pos
      {
        if pos >= |input| {
          return None;
        }
        var x := input[pos];
        match x {
          case Comma =>
            if mode.ArrayComma? {
              pos, mode := pos + 1, ArrayValue;
            } else if mode.ObjectComma? {
              pos, mode := pos + 1, ObjectKey;
            } else {
              return None;
            }
          case Colon =>
            if !mode.ObjectColon? {
              return None;
            }
            pos, mode := pos + 1, ObjectValue;
          case OpenArr =>
            token := Open(x);
            return;
          case OpenObj =>
            token := Open(x);
            return;
          case CloseArr =>
            if !(mode.ArrayStart? || mode.ArrayComma?) || stack == [] {
              return None;
            }
            Pop();
            return Some(x);
          case CloseObj =>
            if !(mode.ObjectStart? || mode.ObjectComma?) || stack == [] {
              return None;
            }
            Pop();
            return Some(x);
          case Str(_) =>
            if mode.ObjectStart? || mode.ObjectKey? {
              pos, mode := pos + 1, ObjectColon;
              return Some(x);
            }
            if !ValueAllowed(mode) {
              return None;
            }
            pos, mode := pos + 1, ValueEnd(mode);
            return Some(x);
          case Atom(_) =>
            if !ValueAllowed(mode) {
              return None;
            }
            pos, mode := pos + 1, ValueEnd(mode);
            return Some(x);
          case Bad => return None;
        }
      }
    }

    /** An opening bracket, where a value may stand. */
    method Open(bracket: Lexeme) returns (token: Option<Lexeme>)
      requires bracket == OpenArr || bracket == OpenObj
      modifies this
      ensures ValueAllowed(old(mode)) ==>
                && token == Some(bracket)
                && At() == Cursor(old(pos) + 1, if bracket == OpenArr then ArrayStart else ObjectStart,
                                  old(stack) + [old(mode)])
      ensures !ValueAllowed(old(mode)) ==> token == None
    {
      if !ValueAllowed(mode) {
        return None;
      }
      pos, mode, stack := pos + 1, if bracket == OpenArr then ArrayStart else ObjectStart, stack + [mode];
      return Some(bracket);
    }

    method Pop()
      requires stack != []
      modifies this
      ensures At() == Popped(old(At()))
    {
      pos := pos + 1;
      mode := ValueEnd(stack[|stack| - 1]);
      stack := stack[..|stack| - 1];
    }
  }

  class Buffer {
    var text: seq<Lexeme>

    constructor ()
      ensures text == []
    {
      text := [];
    }
  }

  // ----- What the writer should do -----

  /** The modes in which the source asks for a value. */
  predicate AwaitsValue(m: Mode) {
    m.TopValue? || m.ArrayStart? || m.ArrayComma? || m.ObjectColon?
  }

  /** A value is due at the cursor, one can be read there, and it repeats no key. */
  ghost predicate ValueGood(input: seq<Lexeme>, c: Cursor) {
    var s := Skip(input, c);
    ValueAllowed(s.mode) && ParseValue(input, s.pos).Some? && NoRepeats(ParseValue(input, s.pos).value.0)
  }

  ghost predicate ItemsGood(r: Parsed<seq<Tree>>) {
    r.Some? && forall i | 0 <= i < |r.value.0| :: NoRepeats(r.value.0[i])
  }

  ghost predicate MembersGood(r: Parsed<seq<Member>>) {
    r.Some? && DistinctKeys(r.value.0) && forall i | 0 <= i < |r.value.0| :: NoRepeats(r.value.0[i].value)
  }

  ghost function RewriteItems(items: seq<Tree>, path: seq<string>, toAuthored: bool): seq<Tree> {
    seq(|items|, i requires 0 <= i < |items| => Rewrite(items[i], path, toAuthored))
  }

  ghost function RewriteMembers(members: seq<Member>, path: seq<string>, toAuthored: bool): seq<Member> {
    seq(|members|, i requires 0 <= i < |members| =>
      Member(members[i].key, Rewrite(members[i].value, path + [members[i].key], toAuthored)))
  }

  lemma RewriteArr(items: seq<Tree>, path: seq<string>, toAuthored: bool)
    ensures Rewrite(Arr(items), path, toAuthored) == Arr(RewriteItems(items, path, toAuthored))
  {
    assert Rewrite(Arr(items), path, toAuthored).items == RewriteItems(items, path, toAuthored);
  }

  lemma RewriteObj(members: seq<Member>, path: seq<string>, toAuthored: bool)
    ensures Rewrite(Obj(members), path, toAuthored) == Obj(RewriteMembers(members, path, toAuthored))
  {
    assert Rewrite(Obj(members), path, toAuthored).members == RewriteMembers(members, path, toAuthored);
  }

  function Separator<T>(done: seq<T>): seq<Lexeme> {
    if done == [] then [] else [Comma]
  }

  /** Printing one more item at the end. */
  lemma {:induction false} PrintItemsMore(items: seq<Tree>, t: Tree)
    ensures PrintItems(items + [t]) == PrintItems(items) + Separator(items) + Print(t)
  {
    if |items| == 1 {
      assert (items + [t])[1..] == [t];
    } else if |items| > 1 {
      assert (items + [t])[1..] == items[1..] + [t];
      PrintItemsMore(items[1..], t);
      var first := Print(items[0]) + [Comma];
      assert Separator(items[1..]) == Separator(items) == [Comma];
      Assoc(first, PrintItems(items[1..]), [Comma]);
      Assoc(first, PrintItems(items[1..]) + [Comma], Print(t));
    }
  }

  lemma {:induction false} PrintMembersMore(members: seq<Member>, m: Member)
    ensures PrintMembers(members + [m]) == PrintMembers(members) + Separator(members) + PrintMember(m)
  {
    if |members| == 1 {
      assert (members + [m])[1..] == [m];
    } else if |members| > 1 {
      assert (members + [m])[1..] == members[1..] + [m];
      PrintMembersMore(members[1..], m);
      var first := PrintMember(members[0]) + [Comma];
      assert Separator(members[1..]) == Separator(members) == [Comma];
      Assoc(first, PrintMembers(members[1..]), [Comma]);
      Assoc(first, PrintMembers(members[1..]) + [Comma], PrintMember(m));
    }
  }

  lemma PrependTwice<T>(a: seq<T>, b: seq<T>, r: Parsed<seq<T>>)
    ensures Prepend(a, Prepend(b, r)) == Prepend(a + b, r)
  {
    if r.Some? {
      assert a + (b + r.value.0) == (a + b) + r.value.0;
    }
  }

  /** Where the item loop stands: the items read, and what the grammar says of the rest. */
  ghost predicate ItemLoop(input: seq<Lexeme>, start: nat, done: seq<Tree>, c: Cursor) {
    && (c.mode == if done == [] then ArrayStart else ArrayComma)
    && (done == [] ==> c.pos == start)
    && (done != [] ==> ParseArray(input, start) == Prepend(done, ParseItemsTail(input, c.pos)))
    && (forall i | 0 <= i < |done| :: NoRepeats(done[i]))
  }

  predicate More(input: seq<Lexeme>, pos: nat) {
    pos < |input| && input[pos] != CloseArr && input[pos] != CloseObj
  }

  /** What the grammar says when an item is next: it follows its separator, or the array is ill-formed. */
  lemma ItemAhead(input: seq<Lexeme>, start: nat, done: seq<Tree>, c: Cursor)
    requires ItemLoop(input, start, done, c) && More(input, c.pos)
    ensures var s := Skip(input, c);
            ParseArray(input, start) == if ValueAllowed(s.mode) then Prepend(done, ParseItems(input, s.pos)) else None
  {
    var s := Skip(input, c);
    if done == [] && ParseItems(input, s.pos).Some? {
      var items := ParseItems(input, s.pos).value.0;
      assert [] + items == items;
    }
  }

  /** One more item is read. */
  lemma ItemRead(input: seq<Lexeme>, start: nat, done: seq<Tree>, c: Cursor)
    requires ItemLoop(input, start, done, c) && More(input, c.pos) && ValueGood(input, c)
    ensures var s := Skip(input, c);
            var (t, j) := ParseValue(input, s.pos).value;
            ItemLoop(input, start, done + [t], Cursor(j, ValueEnd(s.mode), c.stack))
  {
    var s := Skip(input, c);
    var (t, j) := ParseValue(input, s.pos).value;
    ItemAhead(input, start, done, c);
    PrependTwice(done, [t], ParseItemsTail(input, j));
  }

  /** The item at the cursor cannot be written, so the array cannot. */
  lemma ItemFails(input: seq<Lexeme>, start: nat, done: seq<Tree>, c: Cursor)
    requires ItemLoop(input, start, done, c) && More(input, c.pos) && !ValueGood(input, c)
    ensures !ItemsGood(ParseArray(input, start))
  {
    var s := Skip(input, c);
    ItemAhead(input, start, done, c);
    var r := ParseItems(input, s.pos);
    if ValueAllowed(s.mode) && r.Some? {
      assert ParseArray(input, start).value.0[|done|] == r.value.0[0];
    }
  }

  /** No further item: the array ends here or not at all. */
  lemma ItemsEnd(input: seq<Lexeme>, start: nat, done: seq<Tree>, c: Cursor)
    requires ItemLoop(input, start, done, c) && !More(input, c.pos) && c.stack != []
    ensures NextToken(input, c).Some? <==> ItemsGood(ParseArray(input, start))
    ensures NextToken(input, c).Some? ==>
              && NextToken(input, c).value == (CloseArr, Popped(c))
              && ParseArray(input, start) == Some((done, c.pos + 1))
  {
    assert done + [] == done;
    assert Skip(input, c) == c;
    if c.pos >= |input| || input[c.pos] == CloseObj {
      assert ParseValue(input, c.pos) == None;
      assert ParseItemsTail(input, c.pos) == None;
      assert ParseArray(input, start) == None;
    }
  }

  lemma ItemWritten(text: seq<Lexeme>, done: seq<Tree>, t: Tree, path: seq<string>, toAuthored: bool)
    ensures text + PrintItems(RewriteItems(done, path, toAuthored)) + Separator(done)
            + Print(Rewrite(t, path, toAuthored)) ==
            text + PrintItems(RewriteItems(done + [t], path, toAuthored))
  {
    var r := RewriteItems(done, path, toAuthored);
    PrintItemsMore(r, Rewrite(t, path, toAuthored));
    assert RewriteItems(done + [t], path, toAuthored) == r + [Rewrite(t, path, toAuthored)];
    Assoc(text, PrintItems(r), Separator(done));
    Assoc(text, PrintItems(r) + Separator(done), Print(Rewrite(t, path, toAuthored)));
  }

  /** The same for the members of an object. */
  ghost predicate MemberLoop(input: seq<Lexeme>, start: nat, done: seq<Member>, c: Cursor) {
    && (c.mode == if done == [] then ObjectStart else ObjectComma)
    && (done == [] ==> c.pos == start)
    && (done != [] ==> ParseObject(input, start) == Prepend(done, ParseMembersTail(input, c.pos)))
    && DistinctKeys(done)
    && (forall i | 0 <= i < |done| :: NoRepeats(done[i].value))
  }

  lemma KeyFails(input: seq<Lexeme>, start: nat, done: seq<Member>, c: Cursor)
    requires MemberLoop(input, start, done, c) && More(input, c.pos) && NextToken(input, c).None?
    ensures !MembersGood(ParseObject(input, start))
  {
    var s := Skip(input, c);
    if s.mode.ObjectComma? {
      assert ParseMembersTail(input, c.pos) == None;
    } else {
      assert ParseMembers(input, s.pos) == None;
      assert done != [] ==> ParseMembersTail(input, c.pos) == None;
    }
    assert ParseObject(input, start) == None;
  }

  /** In a member position the token is a key. */
  lemma KeyIsText(input: seq<Lexeme>, start: nat, done: seq<Member>, c: Cursor)
    requires MemberLoop(input, start, done, c) && More(input, c.pos) && NextToken(input, c).Some?
    ensures var (x, k) := NextToken(input, c).value;
            && x.Str? && k.mode == ObjectColon && k.stack == c.stack && c.pos < k.pos <= |input|
            && input[k.pos - 1] == x && k.pos - 1 == Skip(input, c).pos
  {
  }

  /** What the grammar says of the member whose key has just been read. */
  lemma MemberAhead(input: seq<Lexeme>, start: nat, done: seq<Member>, c: Cursor)
    requires MemberLoop(input, start, done, c) && More(input, c.pos) && NextToken(input, c).Some?
    ensures var k := NextToken(input, c).value.1;
            ParseObject(input, start) == Prepend(done, ParseMembers(input, k.pos - 1))
  {
    var k := NextToken(input, c).value.1;
    if done == [] && ParseMembers(input, k.pos - 1).Some? {
      var rest := ParseMembers(input, k.pos - 1).value.0;
      assert [] + rest == rest;
    }
  }

  lemma MemberRead(input: seq<Lexeme>, start: nat, done: seq<Member>, c: Cursor)
    requires MemberLoop(input, start, done, c) && More(input, c.pos) && NextToken(input, c).Some?
    requires var (x, k) := NextToken(input, c).value;
             ValueGood(input, k) && x.Str? && forall i | 0 <= i < |done| :: done[i].key != x.text
    ensures var (x, k) := NextToken(input, c).value;
            var s := Skip(input, k);
            var (t, j) := ParseValue(input, s.pos).value;
            MemberLoop(input, start, done + [Member(x.text, t)], Cursor(j, ValueEnd(s.mode), c.stack))
  {
    var (x, k) := NextToken(input, c).value;
    KeyIsText(input, start, done, c);
    MemberAhead(input, start, done, c);
    var s := Skip(input, k);
    var (t, j) := ParseValue(input, s.pos).value;
    PrependTwice(done, [Member(x.text, t)], ParseMembersTail(input, j));
  }

  /** The value after the key cannot be written, so the object cannot. */
  lemma MemberFails(input: seq<Lexeme>, start: nat, done: seq<Member>, c: Cursor)
    requires MemberLoop(input, start, done, c) && More(input, c.pos) && NextToken(input, c).Some?
    requires !ValueGood(input, NextToken(input, c).value.1)
    ensures !MembersGood(ParseObject(input, start))
  {
    KeyIsText(input, start, done, c);
    MemberAhead(input, start, done, c);
    var (x, k) := NextToken(input, c).value;
    var r := ParseMembers(input, k.pos - 1);
    if r.Some? {
      assert ParseObject(input, start).value.0[|done|] == r.value.0[0];
    }
  }

  /** A key seen before: whatever follows, the object repeats it. */
  lemma KeyRepeats(input: seq<Lexeme>, start: nat, done: seq<Member>, c: Cursor, i: nat)
    requires MemberLoop(input, start, done, c) && More(input, c.pos) && NextToken(input, c).Some?
    requires i < |done| && NextToken(input, c).value.0 == Str(done[i].key)
    ensures !MembersGood(ParseObject(input, start))
  {
    KeyIsText(input, start, done, c);
    MemberAhead(input, start, done, c);
    var (x, k) := NextToken(input, c).value;
    var r := ParseMembers(input, k.pos - 1);
    if r.Some? {
      var all := ParseObject(input, start).value.0;
      assert all[|done|] == r.value.0[0] && all[i] == done[i];
      assert all[i].key == all[|done|].key;
    }
  }

  lemma MembersEnd(input: seq<Lexeme>, start: nat, done: seq<Member>, c: Cursor)
    requires MemberLoop(input, start, done, c) && !More(input, c.pos) && c.stack != []
    ensures NextToken(input, c).Some? <==> MembersGood(ParseObject(input, start))
    ensures NextToken(input, c).Some? ==>
              && NextToken(input, c).value == (CloseObj, Popped(c))
              && ParseObject(input, start) == Some((done, c.pos + 1))
  {
    assert done + [] == done;
    assert Skip(input, c) == c;
    if c.pos >= |input| || input[c.pos] == CloseArr {
      assert ParseMembers(input, c.pos) == None;
      assert ParseMembersTail(input, c.pos) == None;
      assert ParseObject(input, start) == None;
    }
  }

  /** The keys seen so far, as the source keeps them. */
  ghost predicate Seen(seen: set<string>, done: seq<Member>) {
    && (forall i | 0 <= i < |done| :: done[i].key in seen)
    && (forall k | k in seen :: exists i :: 0 <= i < |done| && done[i].key == k)
  }

  lemma SeenMore(seen: set<string>, done: seq<Member>, m: Member)
    requires Seen(seen, done)
    ensures Seen(seen + {m.key}, done + [m])
  {
    var more := done + [m];
    forall k | k in seen + {m.key}
      ensures exists i :: 0 <= i < |more| && more[i].key == k
    {
      if k in seen {
        var i :| 0 <= i < |done| && done[i].key == k;
        assert more[i].key == k;
      } else {
        assert more[|done|].key == k;
      }
    }
  }

  lemma MemberWritten(text: seq<Lexeme>, done: seq<Member>, m: Member, path: seq<string>, toAuthored: bool)
    ensures text + PrintMembers(RewriteMembers(done, path, toAuthored)) + Separator(done) + [Str(m.key), Colon] +
            Print(Rewrite(m.value, path + [m.key], toAuthored)) ==
            text + PrintMembers(RewriteMembers(done + [m], path, toAuthored))
  {
    var r := RewriteMembers(done, path, toAuthored);
    var n := Member(m.key, Rewrite(m.value, path + [m.key], toAuthored));
    PrintMembersMore(r, n);
    assert RewriteMembers(done + [m], path, toAuthored) == r + [n];
    Assoc(text + PrintMembers(r) + Separator(done), [Str(m.key), Colon], Print(n.value));
    Assoc(text, PrintMembers(r), Separator(done));
    Assoc(text, PrintMembers(r) + Separator(done), PrintMember(n));
  }

  /** What stands in the buffer after the members done so far. */
  ghost predicate MembersOut(text: seq<Lexeme>, base: seq<Lexeme>, done: seq<Member>, path: seq<string>,
                             toAuthored: bool) {
    text == base + PrintMembers(RewriteMembers(done, path, toAuthored))
  }

  lemma MembersOutMore(text: seq<Lexeme>, base: seq<Lexeme>, done: seq<Member>, m: Member, path: seq<string>,
                       toAuthored: bool)
    requires MembersOut(text, base, done, path, toAuthored)
    ensures MembersOut(text + Separator(done) + [Str(m.key), Colon]
                       + Print(Rewrite(m.value, path + [m.key], toAuthored)),
                       base, done + [m], path, toAuthored)
  {
    MemberWritten(base, done, m, path, toAuthored);
  }

  /** The token at a value position decides which value it is. */
  lemma NoValueToken(input: seq<Lexeme>, c: Cursor)
    requires AwaitsValue(c.mode)
    requires NextToken(input, c).None? || NextToken(input, c).value.0 == CloseArr
             || NextToken(input, c).value.0 == CloseObj
    ensures !ValueGood(input, c)
  {
  }

  lemma ValueTokenKinds(input: seq<Lexeme>, c: Cursor)
    requires AwaitsValue(c.mode) && NextToken(input, c).Some?
    ensures var x := NextToken(input, c).value.0;
            x.Str? || x.Atom? || x.OpenArr? || x.OpenObj? || x.CloseArr? || x.CloseObj?
  {
  }

  lemma LeafToken(input: seq<Lexeme>, c: Cursor)
    requires AwaitsValue(c.mode) && NextToken(input, c).Some?
    requires NextToken(input, c).value.0.Str? || NextToken(input, c).value.0.Atom?
    ensures var s, x := Skip(input, c), NextToken(input, c).value.0;
            && ValueGood(input, c)
            && NextToken(input, c).value.1 == Cursor(s.pos + 1, ValueEnd(s.mode), s.stack)
            && ParseValue(input, s.pos) == Some((if x.Str? then Text(x.text) else Literal(x.text), s.pos + 1))
  {
  }

  /** A token at a value position is the lexeme after whatever is skipped. */
  lemma BracketTaken(input: seq<Lexeme>, c: Cursor)
    requires AwaitsValue(c.mode) && NextToken(input, c).Some?
    requires NextToken(input, c).value.0 == OpenArr || NextToken(input, c).value.0 == OpenObj
    ensures var s := Skip(input, c);
            && s.pos < |input| && input[s.pos] == NextToken(input, c).value.0
            && NextToken(input, c).value.1 ==
               Cursor(s.pos + 1, if input[s.pos] == OpenArr then ArrayStart else ObjectStart, s.stack + [s.mode])
  {
  }

  lemma ArrayToken(input: seq<Lexeme>, c: Cursor)
    requires AwaitsValue(c.mode) && NextToken(input, c).Some? && NextToken(input, c).value.0 == OpenArr
    ensures var s := Skip(input, c);
            var r := ParseArray(input, s.pos + 1);
            && s.pos < |input| && NextToken(input, c).value.1 == Cursor(s.pos + 1, ArrayStart, s.stack + [s.mode])
            && (ValueGood(input, c) <==> ItemsGood(r))
            && (r.Some? ==> ParseValue(input, s.pos) == Some((Arr(r.value.0), r.value.1)))
  {
    BracketTaken(input, c);
    ArrayParsed(input, Skip(input, c).pos);
  }

  lemma ObjectToken(input: seq<Lexeme>, c: Cursor)
    requires AwaitsValue(c.mode) && NextToken(input, c).Some? && NextToken(input, c).value.0 == OpenObj
    ensures var s := Skip(input, c);
            var r := ParseObject(input, s.pos + 1);
            && s.pos < |input| && NextToken(input, c).value.1 == Cursor(s.pos + 1, ObjectStart, s.stack + [s.mode])
            && (ValueGood(input, c) <==> MembersGood(r))
            && (r.Some? ==> ParseValue(input, s.pos) == Some((Obj(r.value.0), r.value.1)))
  {
    BracketTaken(input, c);
    ObjectParsed(input, Skip(input, c).pos);
  }

  lemma PoppedBack(stack: seq<Mode>, m: Mode, j: nat, inside: Mode)
    requires j > 0
    ensures Popped(Cursor(j - 1, inside, stack + [m])) == Cursor(j, ValueEnd(m), stack)
  {
  }

  // ----- The writer: the three cases of writeNormalizedTemplateJSONValue -----

  method WriteValue(d: Decoder, out: Buffer, path: seq<string>, toAuthored: bool) returns (ok: bool)
    requires AwaitsValue(d.mode)
    modifies d, out
    ensures ok <==> ValueGood(d.input, old(d.At()))
    ensures ok ==> Written(d.input, old(d.At()), d.At(), old(out.text), out.text, path, toAuthored)
    decreases |d.input| - d.pos, 0
  {
    ghost var input, c := d.input, d.At();
    var token := d.Token();
    if token.None? {
      NoValueToken(input, c);
      return false;
    }
    ValueTokenKinds(input, c);
    match token.value
    case OpenObj =>
      ok := WriteObject(d, out, path, toAuthored, c);
    case OpenArr =>
      ok := WriteArray(d, out, path, toAuthored, c);
    case Str(value) =>
      LeafToken(input, c);
      var renamed := RenameLeaf(path, value, toAuthored);
      out.text := out.text + [Str(renamed)];
      return true;
    case Atom(value) =>
      LeafToken(input, c);
      out.text := out.text + [Atom(value)];
      return true;
    case _ =>
      NoValueToken(input, c);
      return false;
  }

  /** The array case, its opening bracket read from `c`. */
  method WriteArray(d: Decoder, out: Buffer, path: seq<string>, toAuthored: bool, ghost c: Cursor) returns (ok: bool)
    requires AwaitsValue(c.mode) && NextToken(d.input, c) == Some((OpenArr, d.At()))
    modifies d, out
    ensures ok <==> ValueGood(d.input, c)
    ensures ok ==> Written(d.input, c, d.At(), old(out.text), out.text, path, toAuthored)
    decreases |d.input| - d.pos, 3
  {
    ArrayToken(d.input, c);
    out.text := out.text + [OpenArr];
    ok := WriteItems(d, out, path, toAuthored);
    if ok {
      ArrayWritten(d.input, c, d.At(), old(out.text), out.text, path, toAuthored);
    }
  }

  /** The object case, its opening brace read from `c`. */
  method WriteObject(d: Decoder, out: Buffer, path: seq<string>, toAuthored: bool, ghost c: Cursor) returns (ok: bool)
    requires AwaitsValue(c.mode) && NextToken(d.input, c) == Some((OpenObj, d.At()))
    modifies d, out
    ensures ok <==> ValueGood(d.input, c)
    ensures ok ==> Written(d.input, c, d.At(), old(out.text), out.text, path, toAuthored)
    decreases |d.input| - d.pos, 3
  {
    ObjectToken(d.input, c);
    out.text := out.text + [OpenObj];
    ok := WriteMembers(d, out, path, toAuthored);
    if ok {
      ObjectWritten(d.input, c, d.At(), old(out.text), out.text, path, toAuthored);
    }
  }

  /** The value due at `c` has been read up to `e`, and its rewriting appended to the text. */
  ghost predicate Written(input: seq<Lexeme>, c: Cursor, e: Cursor, before: seq<Lexeme>, after: seq<Lexeme>,
                          path: seq<string>, toAuthored: bool)
    requires ValueGood(input, c)
  {
    var s := Skip(input, c);
    var r := ParseValue(input, s.pos).value;
    e == Cursor(r.1, ValueEnd(s.mode), s.stack) && after == before + Print(Rewrite(r.0, path, toAuthored))
  }

  lemma ArrayWritten(input: seq<Lexeme>, c: Cursor, e: Cursor, before: seq<Lexeme>, after: seq<Lexeme>,
                      path: seq<string>, toAuthored: bool)
    requires AwaitsValue(c.mode) && NextToken(input, c).Some? && NextToken(input, c).value.0 == OpenArr
    requires ValueGood(input, c) && ParseArray(input, Skip(input, c).pos + 1).Some?
    requires var s := Skip(input, c);
             var r := ParseArray(input, s.pos + 1).value;
             && e == Popped(Cursor(r.1 - 1, ArrayStart, s.stack + [s.mode]))
             && after == before + [OpenArr] + PrintItems(RewriteItems(r.0, path, toAuthored)) + [CloseArr]
    ensures Written(input, c, e, before, after, path, toAuthored)
  {
    ArrayToken(input, c);
    var s := Skip(input, c);
    var r := ParseArray(input, s.pos + 1).value;
    RewriteArr(r.0, path, toAuthored);
    PoppedBack(s.stack, s.mode, r.1, ArrayStart);
    Bracketed(before, OpenArr, PrintItems(RewriteItems(r.0, path, toAuthored)), CloseArr);
  }

  lemma ObjectWritten(input: seq<Lexeme>, c: Cursor, e: Cursor, before: seq<Lexeme>, after: seq<Lexeme>,
                      path: seq<string>, toAuthored: bool)
    requires AwaitsValue(c.mode) && NextToken(input, c).Some? && NextToken(input, c).value.0 == OpenObj
    requires ValueGood(input, c) && ParseObject(input, Skip(input, c).pos + 1).Some?
    requires var s := Skip(input, c);
             var r := ParseObject(input, s.pos + 1).value;
             && e == Popped(Cursor(r.1 - 1, ObjectStart, s.stack + [s.mode]))
             && after == before + [OpenObj] + PrintMembers(RewriteMembers(r.0, path, toAuthored)) + [CloseObj]
    ensures Written(input, c, e, before, after, path, toAuthored)
  {
    ObjectToken(input, c);
    var s := Skip(input, c);
    var r := ParseObject(input, s.pos + 1).value;
    RewriteObj(r.0, path, toAuthored);
    PoppedBack(s.stack, s.mode, r.1, ObjectStart);
    Bracketed(before, OpenObj, PrintMembers(RewriteMembers(r.0, path, toAuthored)), CloseObj);
  }

  lemma Bracketed(text: seq<Lexeme>, left: Lexeme, inner: seq<Lexeme>, right: Lexeme)
    ensures text + [left] + inner + [right] == text + ([left] + inner + [right])
  {
    Assoc(text + [left], inner, [right]);
    Assoc(text, [left], inner + [right]);
    Assoc([left], inner, [right]);
  }

  /** The string case: look the field up and rename in the asked direction. */
  method RenameLeaf(path: seq<string>, value: string, toAuthored: bool) returns (renamed: string)
    ensures renamed == Rename(NamesAt(path), value, toAuthored)
    ensures !toAuthored ==> renamed == if value in NamesAt(path) then NamesAt(path)[value] else value
    ensures toAuthored ==>
              if exists k :: k in NamesAt(path) && NamesAt(path)[k] == value
              then renamed in NamesAt(path) && NamesAt(path)[renamed] == value
              else renamed == value
  {
    var field := Joined(path);
    if field !in ENUM_FIELDS {
      return value;
    }
    var names := ENUM_FIELDS[field];
    NamesArePaired(path);
    if toAuthored {
      renamed := FindShort(names, value);
    } else if value in names {
      renamed := names[value];
    } else {
      renamed := value;
    }
  }

  /** After an opening bracket, which is already written. */
  method WriteItems(d: Decoder, out: Buffer, path: seq<string>, toAuthored: bool) returns (ok: bool)
    requires d.mode == ArrayStart && d.stack != []
    modifies d, out
    ensures ok <==> ItemsGood(ParseArray(d.input, old(d.pos)))
    ensures ok ==>
              var (items, j) := ParseArray(d.input, old(d.pos)).value;
              && d.At() == Popped(Cursor(j - 1, ArrayStart, old(d.stack)))
              && out.text == old(out.text) + PrintItems(RewriteItems(items, path, toAuthored)) + [CloseArr]
    decreases |d.input| - d.pos, 1
  {
    ghost var done: seq<Tree> := [];
    var first := true;
    var more := d.More();
    while more
      invariant d.stack == old(d.stack) && old(d.pos) <= d.pos
      invariant first <==> done == []
      invariant ItemLoop(d.input, old(d.pos), done, d.At())
      invariant more <==> More(d.input, d.pos)
      invariant out.text == old(out.text) + PrintItems(RewriteItems(done, path, toAuthored))
      decreases |d.input| - d.pos
    {
      if !first {
        out.text := out.text + [Comma];
      }
      ghost var c := d.At();
      ok := WriteValue(d, out, path, toAuthored);
      if !ok {
        ItemFails(d.input, old(d.pos), done, c);
        return false;
      }
      ghost var t := ParseValue(d.input, Skip(d.input, c).pos).value.0;
      ItemRead(d.input, old(d.pos), done, c);
      ItemWritten(old(out.text), done, t, path, toAuthored);
      done := done + [t];
      first := false;
      more := d.More();
    }
    ItemsEnd(d.input, old(d.pos), done, d.At());
    var token := d.Token();
    if token.None? {
      return false;
    }
    out.text := out.text + [CloseArr];
    return true;
  }

  /** The key of a member; it must be one not met before. */
  method ReadKey(d: Decoder, seen: set<string>, ghost start: nat, ghost done: seq<Member>) returns (key: Option<string>)
    requires MemberLoop(d.input, start, done, d.At()) && More(d.input, d.pos) && Seen(seen, done)
    modifies d
    ensures key.None? ==> !MembersGood(ParseObject(d.input, start))
    ensures key.Some? ==>
              && NextToken(d.input, old(d.At())) == Some((Str(key.value), d.At()))
              && AwaitsValue(d.mode) && old(d.pos) < d.pos
              && forall i | 0 <= i < |done| :: done[i].key != key.value
  {
    ghost var c := d.At();
    var token := d.Token();
    if token.None? {
      KeyFails(d.input, start, done, c);
      return None;
    }
    KeyIsText(d.input, start, done, c);
    if token.value.text in seen {
      ghost var i :| 0 <= i < |done| && done[i].key == token.value.text;
      KeyRepeats(d.input, start, done, c, i);
      return None;
    }
    return Some(token.value.text);
  }

  /** After some members: where the reader is, which keys were met and what was written. */
  ghost predicate MembersSoFar(input: seq<Lexeme>, start: nat, done: seq<Member>, c: Cursor, seen: set<string>,
                               text: seq<Lexeme>, base: seq<Lexeme>, path: seq<string>, toAuthored: bool) {
    MemberLoop(input, start, done, c) && Seen(seen, done) && MembersOut(text, base, done, path, toAuthored)
  }

  /** One round of the member loop: a new key, a colon and a value. */
  method WriteMember(d: Decoder, out: Buffer, path: seq<string>, toAuthored: bool, seen: set<string>, first: bool,
                     ghost start: nat, ghost base: seq<Lexeme>, ghost done: seq<Member>)
    returns (key: Option<string>, ghost m: Member)
    requires More(d.input, d.pos) && (first <==> done == [])
    requires MembersSoFar(d.input, start, done, d.At(), seen, out.text, base, path, toAuthored)
    modifies d, out
    ensures key.None? ==> !MembersGood(ParseObject(d.input, start))
    ensures key.Some? ==>
              && d.stack == old(d.stack) && old(d.pos) < d.pos
              && MembersSoFar(d.input, start, done + [m], d.At(), seen + {key.value}, out.text, base, path, toAuthored)
    decreases |d.input| - d.pos, 1
  {
    ghost var c, text := d.At(), out.text;
    m := Member("", Text(""));
    key := ReadKey(d, seen, start, done);
    if key.None? {
      return;
    }
    ghost var k := d.At();
    WriteKey(out, key.value, first, done);
    var ok := WriteValue(d, out, path + [key.value], toAuthored);
    if !ok {
      MemberFails(d.input, start, done, c);
      return None, m;
    }
    m := MemberIsOut(d.input, start, done, c, k, d.At(), key.value, text, out.text, base, path, toAuthored);
    SeenMore(seen, done, m);
  }

  method WriteKey(out: Buffer, key: string, first: bool, ghost done: seq<Member>)
    requires first <==> done == []
    modifies out
    ensures out.text == old(out.text) + Separator(done) + [Str(key), Colon]
  {
    if !first {
      out.text := out.text + [Comma];
    }
    out.text := out.text + [Str(key), Colon];
  }

  /** A member read and written leaves the loop one member further. */
  lemma MemberIsOut(input: seq<Lexeme>, start: nat, done: seq<Member>, c: Cursor, k: Cursor, after: Cursor, key: string,
                    text: seq<Lexeme>, now: seq<Lexeme>, base: seq<Lexeme>, path: seq<string>, toAuthored: bool)
    returns (m: Member)
    requires MemberLoop(input, start, done, c) && More(input, c.pos) && NextToken(input, c) == Some((Str(key), k))
    requires AwaitsValue(k.mode) && ValueGood(input, k) && forall i | 0 <= i < |done| :: done[i].key != key
    requires MembersOut(text, base, done, path, toAuthored)
    requires Written(input, k, after, text + Separator(done) + [Str(key), Colon], now, path + [key], toAuthored)
    ensures m.key == key && MemberLoop(input, start, done + [m], after) && after.stack == c.stack && c.pos < after.pos
    ensures MembersOut(now, base, done + [m], path, toAuthored)
  {
    KeyIsText(input, start, done, c);
    MemberRead(input, start, done, c);
    m := Member(key, ParseValue(input, Skip(input, k).pos).value.0);
    MembersOutMore(text, base, done, m, path, toAuthored);
  }

  /** After an opening brace, which is already written. */
  method WriteMembers(d: Decoder, out: Buffer, path: seq<string>, toAuthored: bool) returns (ok: bool)
    requires d.mode == ObjectStart && d.stack != []
    modifies d, out
    ensures ok <==> MembersGood(ParseObject(d.input, old(d.pos)))
    ensures ok ==>
              var (members, j) := ParseObject(d.input, old(d.pos)).value;
              && d.At() == Popped(Cursor(j - 1, ObjectStart, old(d.stack)))
              && out.text == old(out.text) + PrintMembers(RewriteMembers(members, path, toAuthored)) + [CloseObj]
    decreases |d.input| - d.pos, 2
  {
    ghost var done: seq<Member> := [];
    ghost var base := out.text;
    var seen: set<string> := {};
    var first := true;
    var more := d.More();
    while more
      invariant d.stack == old(d.stack) && old(d.pos) <= d.pos
      invariant first <==> done == []
      invariant MembersSoFar(d.input, old(d.pos), done, d.At(), seen, out.text, base, path, toAuthored)
      invariant more <==> More(d.input, d.pos)
      decreases |d.input| - d.pos
    {
      var key, m := WriteMember(d, out, path, toAuthored, seen, first, old(d.pos), base, done);
      if key.None? {
        return false;
      }
      done := done + [m];
      seen := seen + {key.value};
      first := false;
      more := d.More();
    }
    ok := EndMembers(d, out, old(d.pos), done);
  }

  /** The closing brace. */
  method EndMembers(d: Decoder, out: Buffer, ghost start: nat, ghost done: seq<Member>) returns (ok: bool)
    requires MemberLoop(d.input, start, done, d.At()) && !More(d.input, d.pos) && d.stack != []
    modifies d, out
    ensures ok <==> MembersGood(ParseObject(d.input, start))
    ensures ok ==> ParseObject(d.input, start) == Some((done, old(d.pos) + 1)) && d.At() == Popped(old(d.At()))
    ensures ok ==> out.text == old(out.text) + [CloseObj]
  {
    MembersEnd(d.input, start, done, d.At());
    var token := d.Token();
    if token.None? {
      return false;
    }
    out.text := out.text + [CloseObj];
    return true;
  }

  // ----- normalizeTemplateSpecJSON -----

  /** Parse, rewrite the tree, print; nothing may follow the value. */
  ghost function Normalized(input: seq<Lexeme>, toAuthored: bool): Option<seq<Lexeme>> {
    match ParseValue(input, 0)
    case None => None
    case Some((t, j)) =>
      if j == |input| && NoRepeats(t) then Some(Print(Rewrite(t, [], toAuthored))) else None
  }

  method Normalize(input: seq<Lexeme>, toAuthored: bool) returns (r: Option<seq<Lexeme>>)
    ensures r == Normalized(input, toAuthored)
  {
    var decoder := new Decoder(input);
    var out := new Buffer();
    var ok := WriteValue(decoder, out, [], toAuthored);
    if !ok {
      return None;
    }
    // Decoding anything more must report the end of the text.
    if decoder.pos < |input| {
      return None;
    }
    ghost var t := ParseValue(input, 0).value.0;
    assert Skip(input, Cursor(0, TopValue, [])) == Cursor(0, TopValue, []);
    assert decoder.At().pos == ParseValue(input, 0).value.1;
    assert decoder.pos == |input|;
    assert NoRepeats(t);
    assert out.text == Print(Rewrite(t, [], toAuthored));
    assert Normalized(input, toAuthored) == Some(Print(Rewrite(t, [], toAuthored)));
    return Some(out.text);
  }

  /**
   * Streaming equals tree: the rewriter accepts exactly the texts that spell one
   * value without a repeated key and nothing more, and writes the rewritten tree;
   * and no text spells two trees.
   */
  lemma StreamingEqualsTree(input: seq<Lexeme>, toAuthored: bool, output: seq<Lexeme>)
    ensures Normalized(input, toAuthored) == Some(output) <==>
            exists t :: input == Print(t) && NoRepeats(t) && output == Print(Rewrite(t, [], toAuthored))
    ensures forall t, u :: input == Print(t) && input == Print(u) ==> t == u
  {
    forall t, u | input == Print(t) && input == Print(u) ensures t == u {
      PrintInjective(t, u);
    }
    if Normalized(input, toAuthored) == Some(output) {
      var (t, j) := ParseValue(input, 0).value;
      ParseSound(input, 0);
      assert input[0..j] == input;
      assert input == Print(t) && NoRepeats(t) && output == Print(Rewrite(t, [], toAuthored));
    }
    if exists t :: input == Print(t) && NoRepeats(t) && output == Print(Rewrite(t, [], toAuthored)) {
      var t :| input == Print(t) && NoRepeats(t) && output == Print(Rewrite(t, [], toAuthored));
      PrintNormalizes(t, toAuthored);
    }
  }

  lemma PrintNormalizes(t: Tree, toAuthored: bool)
    requires NoRepeats(t)
    ensures Normalized(Print(t), toAuthored) == Some(Print(Rewrite(t, [], toAuthored)))
  {
    var input := Print(t);
    assert input[0..0 + |Print(t)|] == input;
    ParseComplete(input, 0, t);
  }

  /** The spelling determines the tree. */
  lemma PrintInjective(t: Tree, u: Tree)
    requires Print(t) == Print(u)
    ensures t == u
  {
    var ls := Print(t);
    assert ls[0..|ls|] == ls;
    ParseComplete(ls, 0, t);
    ParseComplete(ls, 0, u);
  }

  /**
   * Normalizing again in either direction gives what that direction gives of the
   * original text: the two directions undo each other and are idempotent.
   */
  lemma NormalizeTwice(input: seq<Lexeme>, first: bool, last: bool)
    requires Normalized(input, first).Some?
    ensures Normalized(Normalized(input, first).value, last) == Normalized(input, last)
  {
    var t := ParseValue(input, 0).value.0;
    RewriteKeepsKeys(t, [], first);
    PrintNormalizes(Rewrite(t, [], first), last);
    RewriteTwice(t, [], first, last);
  }

  // ----- ToJSON and TemplateSpecFromJSON -----

  /** The protobuf JSON codec; Unmarshal fails on a text it does not know. */
  datatype Codec<!Spec> = Codec(marshal: Spec -> seq<Lexeme>, unmarshal: seq<Lexeme> -> Option<Spec>)

  ghost function ToJSON<Spec>(codec: Codec<Spec>, spec: Spec): Option<seq<Lexeme>> {
    Normalized(codec.marshal(spec), true)
  }

  ghost function FromJSON<Spec>(codec: Codec<Spec>, text: seq<Lexeme>): Option<Spec> {
    match Normalized(text, false)
    case None => None
    case Some(normalized) => codec.unmarshal(normalized)
  }

  /** The codec spells a spec as one tree without repeated keys, its enums by protobuf name. */
  ghost predicate Spells<Spec>(codec: Codec<Spec>, spec: Spec, t: Tree) {
    codec.marshal(spec) == Print(t) && NoRepeats(t) && Rewrite(t, [], false) == t
  }

  /** A spec survives the trip through authored JSON exactly when it survives the codec. */
  lemma JSONRoundTrip<Spec>(codec: Codec<Spec>, spec: Spec, t: Tree)
    requires Spells(codec, spec, t)
    ensures ToJSON(codec, spec).Some?
    ensures FromJSON(codec, ToJSON(codec, spec).value) == codec.unmarshal(codec.marshal(spec))
  {
    PrintNormalizes(t, true);
    PrintNormalizes(t, false);
    NormalizeTwice(Print(t), true, false);
  }
}
