/**
 * JSON texts as lexemes, the trees they spell, and the grammar that relates the
 * two. Strings and literals are atomic; `Bad` is text no JSON lexeme matches.
 */
module TemplateJson {
  import opened Wrappers

  datatype Lexeme =
    | OpenObj | CloseObj | OpenArr | CloseArr | Comma | Colon
    | Str(text: string) | Atom(text: string) | Bad

  datatype Tree = Text(value: string) | Literal(value: string) | Arr(items: seq<Tree>) | Obj(members: seq<Member>)
  datatype Member = Member(key: string, value: Tree)

  // ----- Printing -----

  function Print(t: Tree): seq<Lexeme> {
    match t
    case Text(v) => [Str(v)]
    case Literal(v) => [Atom(v)]
    case Arr(items) => [OpenArr] + PrintItems(items) + [CloseArr]
    case Obj(members) => [OpenObj] + PrintMembers(members) + [CloseObj]
  }

  function PrintItems(items: seq<Tree>): seq<Lexeme> {
    if items == [] then []
    else if |items| == 1 then Print(items[0])
    else Print(items[0]) + [Comma] + PrintItems(items[1..])
  }

  function PrintMember(m: Member): seq<Lexeme> {
    [Str(m.key), Colon] + Print(m.value)
  }

  function PrintMembers(members: seq<Member>): seq<Lexeme> {
    if members == [] then []
    else if |members| == 1 then PrintMember(members[0])
    else PrintMember(members[0]) + [Comma] + PrintMembers(members[1..])
  }

  // ----- The grammar, as a parser of the text from position i -----

  type Parsed<T> = Option<(T, nat)>

  function ParseValue(ls: seq<Lexeme>, i: nat): (r: Parsed<Tree>)
    ensures r.Some? ==> i < r.value.1 <= |ls|
    decreases |ls| - i, 2
  {
    if i >= |ls| then None
    else match ls[i]
      case Str(v) => Some((Text(v), i + 1))
      case Atom(v) => Some((Literal(v), i + 1))
      case OpenArr =>
        (match ParseArray(ls, i + 1)
         case None => None
         case Some((items, j)) => Some((Arr(items), j)))
      case OpenObj =>
        (match ParseObject(ls, i + 1)
         case None => None
         case Some((members, j)) => Some((Obj(members), j)))
      case _ => None
  }

  /** After an opening bracket. */
  function ParseArray(ls: seq<Lexeme>, i: nat): (r: Parsed<seq<Tree>>)
    ensures r.Some? ==> i < r.value.1 <= |ls|
    decreases |ls| - i, 4
  {
    if i < |ls| && ls[i] == CloseArr then Some(([], i + 1)) else ParseItems(ls, i)
  }

  /** At an item. */
  function ParseItems(ls: seq<Lexeme>, i: nat): (r: Parsed<seq<Tree>>)
    ensures r.Some? ==> i < r.value.1 <= |ls|
    decreases |ls| - i, 3
  {
    match ParseValue(ls, i)
    case None => None
    case Some((t, j)) => Prepend([t], ParseItemsTail(ls, j))
  }

  /** After an item. */
  function ParseItemsTail(ls: seq<Lexeme>, i: nat): (r: Parsed<seq<Tree>>)
    ensures r.Some? ==> i < r.value.1 <= |ls|
    decreases |ls| - i, 0
  {
    if i >= |ls| then None
    else if ls[i] == CloseArr then Some(([], i + 1))
    else if ls[i] == Comma then ParseItems(ls, i + 1)
    else None
  }

  /** After an opening brace. */
  function ParseObject(ls: seq<Lexeme>, i: nat): (r: Parsed<seq<Member>>)
    ensures r.Some? ==> i < r.value.1 <= |ls|
    decreases |ls| - i, 4
  {
    if i < |ls| && ls[i] == CloseObj then Some(([], i + 1)) else ParseMembers(ls, i)
  }

  /** At a member. */
  function ParseMembers(ls: seq<Lexeme>, i: nat): (r: Parsed<seq<Member>>)
    ensures r.Some? ==> i < r.value.1 <= |ls|
    decreases |ls| - i, 3
  {
    if i + 1 >= |ls| || !ls[i].Str? || ls[i + 1] != Colon then None
    else match ParseValue(ls, i + 2)
      case None => None
      case Some((t, j)) => Prepend([Member(ls[i].text, t)], ParseMembersTail(ls, j))
  }

  /** After a member. */
  function ParseMembersTail(ls: seq<Lexeme>, i: nat): (r: Parsed<seq<Member>>)
    ensures r.Some? ==> i < r.value.1 <= |ls|
    decreases |ls| - i, 0
  {
    if i >= |ls| then None
    else if ls[i] == CloseObj then Some(([], i + 1))
    else if ls[i] == Comma then ParseMembers(ls, i + 1)
    else None
  }

  function Prepend<T>(front: seq<T>, r: Parsed<seq<T>>): Parsed<seq<T>> {
    match r
    case None => None
    case Some((rest, j)) => Some((front + rest, j))
  }

  // ----- Parsing and printing are inverse -----

  lemma {:induction false} ParseSound(ls: seq<Lexeme>, i: nat)
    requires ParseValue(ls, i).Some?
    ensures var (t, j) := ParseValue(ls, i).value; ls[i..j] == Print(t)
    decreases |ls| - i, 2
  {
    var (t, j) := ParseValue(ls, i).value;
    match ls[i]
    case Str(_) => assert ls[i..j] == [ls[i]];
    case Atom(_) => assert ls[i..j] == [ls[i]];
    case OpenArr =>
      ArraySound(ls, i + 1);
      assert ls[i..j] == [OpenArr] + ls[i + 1..j];
    case OpenObj =>
      ObjectSound(ls, i + 1);
      assert ls[i..j] == [OpenObj] + ls[i + 1..j];
  }

  lemma {:induction false} ArraySound(ls: seq<Lexeme>, i: nat)
    requires ParseArray(ls, i).Some?
    ensures var (items, j) := ParseArray(ls, i).value; ls[i..j] == PrintItems(items) + [CloseArr]
    decreases |ls| - i, 4
  {
    if i < |ls| && ls[i] == CloseArr {
      assert ls[i..i + 1] == [CloseArr];
    } else {
      ItemsSound(ls, i);
    }
  }

  lemma {:induction false} ItemsSound(ls: seq<Lexeme>, i: nat)
    requires ParseItems(ls, i).Some?
    ensures var (items, j) := ParseItems(ls, i).value; items != [] && ls[i..j] == PrintItems(items) + [CloseArr]
    decreases |ls| - i, 3
  {
    var (t, k) := ParseValue(ls, i).value;
    var (rest, j) := ParseItemsTail(ls, k).value;
    ParseSound(ls, i);
    if ls[k] != CloseArr {
      ItemsSound(ls, k + 1);
    }
    OneLexeme(ls, k);
    ItemPrinted(ls, i, k, j, t, rest);
  }

  lemma {:induction false} OneLexeme(ls: seq<Lexeme>, k: nat)
    requires k < |ls|
    ensures ls[k..k + 1] == [ls[k]]
  {
  }

  lemma {:induction false} Cut(ls: seq<Lexeme>, i: nat, k: nat, j: nat)
    requires i <= k <= j <= |ls|
    ensures ls[i..j] == ls[i..k] + ls[k..j]
  {
  }

  lemma {:induction false} PrintItemsCons(t: Tree, rest: seq<Tree>)
    ensures PrintItems([t] + rest) == if rest == [] then Print(t) else Print(t) + [Comma] + PrintItems(rest)
  {
    assert ([t] + rest)[1..] == rest;
  }

  lemma {:induction false} PrintMembersCons(m: Member, rest: seq<Member>)
    ensures PrintMembers([m] + rest) ==
            if rest == [] then PrintMember(m) else PrintMember(m) + [Comma] + PrintMembers(rest)
  {
    assert ([m] + rest)[1..] == rest;
  }

  /** An item's text, then that of the others or the closing bracket. */
  lemma {:induction false} ItemPrinted(ls: seq<Lexeme>, i: nat, k: nat, j: nat, t: Tree, rest: seq<Tree>)
    requires i <= k < j <= |ls| && ls[i..k] == Print(t)
    requires if rest == [] then ls[k..j] == [CloseArr]
             else ls[k] == Comma && ls[k + 1..j] == PrintItems(rest) + [CloseArr]
    ensures ls[i..j] == PrintItems([t] + rest) + [CloseArr]
  {
    Cut(ls, i, k, j);
    PrintItemsCons(t, rest);
    if rest != [] {
      Cut(ls, k, k + 1, j);
      OneLexeme(ls, k);
      CommaJoined(Print(t), PrintItems(rest), CloseArr);
    }
  }

  lemma {:induction false} CommaJoined(first: seq<Lexeme>, others: seq<Lexeme>, close: Lexeme)
    ensures first + ([Comma] + (others + [close])) == first + [Comma] + others + [close]
  {
    Assoc(first + [Comma], others, [close]);
    Assoc(first, [Comma], others + [close]);
  }

  lemma {:induction false} ObjectSound(ls: seq<Lexeme>, i: nat)
    requires ParseObject(ls, i).Some?
    ensures var (members, j) := ParseObject(ls, i).value; ls[i..j] == PrintMembers(members) + [CloseObj]
    decreases |ls| - i, 4
  {
    if i < |ls| && ls[i] == CloseObj {
      assert ls[i..i + 1] == [CloseObj];
    } else {
      MembersSound(ls, i);
    }
  }

  lemma {:induction false} MembersSound(ls: seq<Lexeme>, i: nat)
    requires ParseMembers(ls, i).Some?
    ensures var (members, j) := ParseMembers(ls, i).value;
            members != [] && ls[i..j] == PrintMembers(members) + [CloseObj]
    decreases |ls| - i, 3
  {
    var (t, k) := ParseValue(ls, i + 2).value;
    var (rest, j) := ParseMembersTail(ls, k).value;
    var m := Member(ls[i].text, t);
    ParseSound(ls, i + 2);
    MemberFront(ls, i, k, m);
    OneLexeme(ls, k);
    if ls[k] != CloseObj {
      MembersSound(ls, k + 1);
    }
    MemberPrinted(ls, i, k, j, m, rest);
  }

  lemma {:induction false} MemberFront(ls: seq<Lexeme>, i: nat, k: nat, m: Member)
    requires i + 2 <= k <= |ls| && ls[i] == Str(m.key) && ls[i + 1] == Colon && ls[i + 2..k] == Print(m.value)
    ensures ls[i..k] == PrintMember(m)
  {
    Cut(ls, i, i + 2, k);
    assert ls[i..i + 2] == [Str(m.key), Colon];
  }

  /** A member's text, then that of the others or the closing brace. */
  lemma {:induction false} MemberPrinted(ls: seq<Lexeme>, i: nat, k: nat, j: nat, m: Member, rest: seq<Member>)
    requires i <= k < j <= |ls| && ls[i..k] == PrintMember(m)
    requires if rest == [] then ls[k..j] == [CloseObj]
             else ls[k] == Comma && ls[k + 1..j] == PrintMembers(rest) + [CloseObj]
    ensures ls[i..j] == PrintMembers([m] + rest) + [CloseObj]
  {
    Cut(ls, i, k, j);
    PrintMembersCons(m, rest);
    if rest != [] {
      Cut(ls, k, k + 1, j);
      OneLexeme(ls, k);
      CommaJoined(PrintMember(m), PrintMembers(rest), CloseObj);
    }
  }

  /** `text` stands in `ls` at position i. */
  predicate At(ls: seq<Lexeme>, i: nat, text: seq<Lexeme>) {
    i + |text| <= |ls| && ls[i..i + |text|] == text
  }

  lemma AtSplit(ls: seq<Lexeme>, i: nat, a: seq<Lexeme>, b: seq<Lexeme>)
    requires At(ls, i, a + b)
    ensures At(ls, i, a) && At(ls, i + |a|, b)
  {
    assert ls[i..i + |a|] == (a + b)[..|a|];
    assert ls[i + |a|..i + |a| + |b|] == (a + b)[|a|..];
  }

  lemma AtFirst(ls: seq<Lexeme>, i: nat, x: Lexeme, rest: seq<Lexeme>)
    requires At(ls, i, [x] + rest)
    ensures i < |ls| && ls[i] == x && At(ls, i + 1, rest)
  {
    AtSplit(ls, i, [x], rest);
    assert ls[i..i + 1] == [ls[i]];
  }

  lemma {:induction false} ParseComplete(ls: seq<Lexeme>, i: nat, t: Tree)
    requires At(ls, i, Print(t))
    ensures ParseValue(ls, i) == Some((t, i + |Print(t)|))
    decreases t, 0
  {
    match t
    case Text(_) => assert ls[i..i + 1] == [ls[i]];
    case Literal(_) => assert ls[i..i + 1] == [ls[i]];
    case Arr(items) =>
      ArrayPlaced(ls, i, items);
      ArrayComplete(ls, i + 1, items);
      ArrayParsed(ls, i);
    case Obj(members) =>
      ObjectPlaced(ls, i, members);
      ObjectComplete(ls, i + 1, members);
      ObjectParsed(ls, i);
  }

  lemma {:induction false} ArrayPlaced(ls: seq<Lexeme>, i: nat, items: seq<Tree>)
    requires At(ls, i, Print(Arr(items)))
    ensures i < |ls| && ls[i] == OpenArr && At(ls, i + 1, PrintItems(items) + [CloseArr])
    ensures |Print(Arr(items))| == |PrintItems(items)| + 2
  {
    Assoc([OpenArr], PrintItems(items), [CloseArr]);
    AtFirst(ls, i, OpenArr, PrintItems(items) + [CloseArr]);
  }

  lemma {:induction false} ObjectPlaced(ls: seq<Lexeme>, i: nat, members: seq<Member>)
    requires At(ls, i, Print(Obj(members)))
    ensures i < |ls| && ls[i] == OpenObj && At(ls, i + 1, PrintMembers(members) + [CloseObj])
    ensures |Print(Obj(members))| == |PrintMembers(members)| + 2
  {
    Assoc([OpenObj], PrintMembers(members), [CloseObj]);
    AtFirst(ls, i, OpenObj, PrintMembers(members) + [CloseObj]);
  }

  lemma {:induction false} ArrayParsed(ls: seq<Lexeme>, i: nat)
    requires i < |ls| && ls[i] == OpenArr
    ensures var r := ParseArray(ls, i + 1);
            ParseValue(ls, i) == if r.Some? then Some((Arr(r.value.0), r.value.1)) else None
  {
  }

  lemma {:induction false} ObjectParsed(ls: seq<Lexeme>, i: nat)
    requires i < |ls| && ls[i] == OpenObj
    ensures var r := ParseObject(ls, i + 1);
            ParseValue(ls, i) == if r.Some? then Some((Obj(r.value.0), r.value.1)) else None
  {
  }

  lemma PrintStarts(t: Tree)
    ensures |Print(t)| > 0 && Print(t)[0] != CloseArr
  {
  }

  lemma {:induction false} ArrayComplete(ls: seq<Lexeme>, i: nat, items: seq<Tree>)
    requires At(ls, i, PrintItems(items) + [CloseArr])
    ensures ParseArray(ls, i) == Some((items, i + |PrintItems(items)| + 1))
    decreases items, 1
  {
    if items == [] {
      assert ls[i..i + 1] == [ls[i]];
    } else {
      PrintStarts(items[0]);
      assert (PrintItems(items) + [CloseArr])[0] == Print(items[0])[0] == ls[i];
      ItemsComplete(ls, i, items);
    }
  }

  /** What follows the first item, up to the closing bracket. */
  function AfterItem(items: seq<Tree>): seq<Lexeme> {
    if |items| <= 1 then [CloseArr] else [Comma] + (PrintItems(items[1..]) + [CloseArr])
  }

  /** Where the parts of a printed item list stand. */
  lemma {:induction false} ItemsPlaced(ls: seq<Lexeme>, i: nat, items: seq<Tree>)
    requires items != [] && At(ls, i, PrintItems(items) + [CloseArr])
    ensures At(ls, i, Print(items[0])) && At(ls, i + |Print(items[0])|, AfterItem(items))
    ensures |PrintItems(items)| + 1 == |Print(items[0])| + |AfterItem(items)|
  {
    ItemsShape(items);
    AtSplit(ls, i, Print(items[0]), AfterItem(items));
  }

  lemma {:induction false} ItemsShape(items: seq<Tree>)
    requires items != []
    ensures PrintItems(items) + [CloseArr] == Print(items[0]) + AfterItem(items)
    ensures |PrintItems(items)| + 1 == |Print(items[0])| + |AfterItem(items)|
  {
    if |items| > 1 {
      CommaJoined(Print(items[0]), PrintItems(items[1..]), CloseArr);
    }
  }

  /** One item in front of what follows it. */
  lemma {:induction false} ItemParsed(ls: seq<Lexeme>, i: nat, t: Tree, j: nat)
    requires ParseValue(ls, i) == Some((t, j)) && ParseItemsTail(ls, j).Some?
    ensures var tail := ParseItemsTail(ls, j).value;
            ParseItems(ls, i) == Some(([t] + tail.0, tail.1))
  {
  }

  lemma {:induction false} ItemsComplete(ls: seq<Lexeme>, i: nat, items: seq<Tree>)
    requires items != [] && At(ls, i, PrintItems(items) + [CloseArr])
    ensures ParseItems(ls, i) == Some((items, i + |PrintItems(items)| + 1))
    decreases items, 0
  {
    var j := i + |Print(items[0])|;
    ItemsPlaced(ls, i, items);
    ParseComplete(ls, i, items[0]);
    ItemsTailComplete(ls, j, items);
    ItemsParsed(ls, i, items, j);
  }

  lemma {:induction false} ItemsParsed(ls: seq<Lexeme>, i: nat, items: seq<Tree>, j: nat)
    requires items != [] && ParseValue(ls, i) == Some((items[0], j))
    requires ParseItemsTail(ls, j).Some? && ParseItemsTail(ls, j).value.0 == items[1..]
    ensures ParseItems(ls, i) == Some((items, ParseItemsTail(ls, j).value.1))
  {
    ItemParsed(ls, i, items[0], j);
    assert [items[0]] + items[1..] == items;
  }

  lemma {:induction false} ItemsTailComplete(ls: seq<Lexeme>, i: nat, items: seq<Tree>)
    requires items != []
    requires At(ls, i, AfterItem(items))
    ensures ParseItemsTail(ls, i) == Some((items[1..], i + |AfterItem(items)|))
    decreases items[1..], 1
  {
    if |items| == 1 {
      AtFirst(ls, i, CloseArr, []);
    } else {
      AtFirst(ls, i, Comma, PrintItems(items[1..]) + [CloseArr]);
      ItemsComplete(ls, i + 1, items[1..]);
    }
  }

  lemma {:induction false} ObjectComplete(ls: seq<Lexeme>, i: nat, members: seq<Member>)
    requires At(ls, i, PrintMembers(members) + [CloseObj])
    ensures ParseObject(ls, i) == Some((members, i + |PrintMembers(members)| + 1))
    decreases members, 2
  {
    if members == [] {
      assert ls[i..i + 1] == [ls[i]];
    } else {
      assert (PrintMembers(members) + [CloseObj])[0] == Str(members[0].key) == ls[i];
      MembersComplete(ls, i, members);
    }
  }

  /** What follows the first member, up to the closing brace. */
  function AfterMember(members: seq<Member>): seq<Lexeme> {
    if |members| <= 1 then [CloseObj] else [Comma] + (PrintMembers(members[1..]) + [CloseObj])
  }

  lemma Assoc(a: seq<Lexeme>, b: seq<Lexeme>, c: seq<Lexeme>)
    ensures (a + b) + c == a + (b + c)
  {
  }

  lemma MemberShape(key: string, value: seq<Lexeme>, after: seq<Lexeme>)
    ensures ([Str(key), Colon] + value) + after == [Str(key)] + ([Colon] + (value + after))
  {
    Assoc([Str(key), Colon], value, after);
    assert [Str(key), Colon] == [Str(key)] + [Colon];
    Assoc([Str(key)], [Colon], value + after);
  }

  lemma {:induction false} MembersShape(members: seq<Member>)
    requires members != []
    ensures PrintMembers(members) + [CloseObj] ==
            [Str(members[0].key)] + ([Colon] + (Print(members[0].value) + AfterMember(members)))
    ensures |PrintMembers(members)| == 1 + |Print(members[0].value)| + |AfterMember(members)|
  {
    MemberShape(members[0].key, Print(members[0].value), AfterMember(members));
    if |members| > 1 {
      var m, rest := PrintMember(members[0]), PrintMembers(members[1..]);
      Assoc(m + [Comma], rest, [CloseObj]);
      Assoc(m, [Comma], rest + [CloseObj]);
    }
  }

  /** Where the parts of a printed member list stand. */
  lemma {:induction false} MembersPlaced(ls: seq<Lexeme>, i: nat, members: seq<Member>)
    requires members != [] && At(ls, i, PrintMembers(members) + [CloseObj])
    ensures i + 1 < |ls| && ls[i] == Str(members[0].key) && ls[i + 1] == Colon
    ensures At(ls, i + 2, Print(members[0].value))
    ensures At(ls, i + 2 + |Print(members[0].value)|, AfterMember(members))
    ensures |PrintMembers(members)| == 1 + |Print(members[0].value)| + |AfterMember(members)|
  {
    var value, after := Print(members[0].value), AfterMember(members);
    MembersShape(members);
    AtFirst(ls, i, Str(members[0].key), [Colon] + (value + after));
    AtFirst(ls, i + 1, Colon, value + after);
    AtSplit(ls, i + 2, value, after);
  }

  lemma {:induction false} MembersComplete(ls: seq<Lexeme>, i: nat, members: seq<Member>)
    requires members != [] && At(ls, i, PrintMembers(members) + [CloseObj])
    ensures ParseMembers(ls, i) == Some((members, i + |PrintMembers(members)| + 1))
    decreases members, 1
  {
    MembersPlaced(ls, i, members);
    MembersFrom(ls, i, members, |Print(members[0].value)|, |AfterMember(members)|);
  }

  /** The member list whose first value is v lexemes long and what follows that w lexemes. */
  lemma {:induction false} MembersFrom(ls: seq<Lexeme>, i: nat, members: seq<Member>, v: nat, w: nat)
    requires members != [] && i + 1 < |ls| && ls[i] == Str(members[0].key) && ls[i + 1] == Colon
    requires At(ls, i + 2, Print(members[0].value)) && |Print(members[0].value)| == v
    requires At(ls, i + 2 + v, AfterMember(members)) && |AfterMember(members)| == w
    ensures ParseMembers(ls, i) == Some((members, i + 2 + v + w))
    decreases members, 0
  {
    ValueComplete(ls, i + 2, members[0], v);
    MembersTailComplete(ls, i + 2 + v, members);
    MembersParsed(ls, i, members, i + 2 + v);
  }

  lemma {:induction false} ValueComplete(ls: seq<Lexeme>, i: nat, m: Member, v: nat)
    requires At(ls, i, Print(m.value)) && |Print(m.value)| == v
    ensures ParseValue(ls, i) == Some((m.value, i + v))
    decreases m.value, 1
  {
    ParseComplete(ls, i, m.value);
  }

  lemma {:induction false} MembersParsed(ls: seq<Lexeme>, i: nat, members: seq<Member>, j: nat)
    requires members != [] && i + 1 < |ls| && ls[i] == Str(members[0].key) && ls[i + 1] == Colon
    requires ParseValue(ls, i + 2) == Some((members[0].value, j))
    requires ParseMembersTail(ls, j).Some? && ParseMembersTail(ls, j).value.0 == members[1..]
    ensures ParseMembers(ls, i) == Some((members, ParseMembersTail(ls, j).value.1))
  {
    MemberParsed(ls, i, members[0], j);
    assert [members[0]] + members[1..] == members;
  }

  /** One member in front of what follows it. */
  lemma {:induction false} MemberParsed(ls: seq<Lexeme>, i: nat, m: Member, j: nat)
    requires i + 1 < |ls| && ls[i] == Str(m.key) && ls[i + 1] == Colon
    requires ParseValue(ls, i + 2) == Some((m.value, j)) && ParseMembersTail(ls, j).Some?
    ensures var tail := ParseMembersTail(ls, j).value;
            ParseMembers(ls, i) == Some(([m] + tail.0, tail.1))
  {
  }

  lemma {:induction false} MembersTailComplete(ls: seq<Lexeme>, i: nat, members: seq<Member>)
    requires members != []
    requires At(ls, i, AfterMember(members))
    ensures ParseMembersTail(ls, i) == Some((members[1..], i + |AfterMember(members)|))
    decreases members[1..], 2
  {
    if |members| == 1 {
      AtFirst(ls, i, CloseObj, []);
    } else {
      AtFirst(ls, i, Comma, PrintMembers(members[1..]) + [CloseObj]);
      MembersComplete(ls, i + 1, members[1..]);
    }
  }

  // ----- Repeated keys -----

  predicate DistinctKeys(members: seq<Member>) {
    forall i, j | 0 <= i < j < |members| :: members[i].key != members[j].key
  }

  /** No object of the tree repeats a key. */
  predicate NoRepeats(t: Tree) {
    match t
    case Text(_) => true
    case Literal(_) => true
    case Arr(items) => forall i | 0 <= i < |items| :: NoRepeats(items[i])
    case Obj(members) => DistinctKeys(members) && forall i | 0 <= i < |members| :: NoRepeats(members[i].value)
  }
}
