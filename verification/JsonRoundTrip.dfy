/**
 Printing a tree and reading the text back, for whole trees and both layouts.
 */
module JsonRoundTrip {
  import opened Wrappers
  import opened Chars
  import opened SerializationTree
  import opened OpenNodes
  import opened JsonParser
  import opened JsonNesting
  import opened JsonText
  import opened JsonPieces
  import JsonString

  /** The tree that comes back: every key byte is taken for a character and encoded again. */
  function Reread(n: Node): Node
    decreases n
  {
    n.(name := Utf8(n.name), members := RereadAll(n.members))
  }

  function RereadAll(ms: seq<Node>): (r: seq<Node>)
    ensures |r| == |ms|
    decreases ms
  {
    if ms == [] then [] else [Reread(ms[0])] + RereadAll(ms[1..])
  }

  predicate KeysReadable(l: Layout, n: Node)
    decreases n
  {
    match n.category
    case Void | Value => true
    case Object => forall m :: m in n.members ==> KeyReadable(l, m.name) && KeysReadable(l, m)
    case Array => forall m :: m in n.members ==> KeysReadable(l, m)
  }

  /** A tree the parser can build, whose keys it can read back. */
  ghost predicate Readable(l: Layout, n: Node) {
    Shaped(n) && KeysReadable(l, n)
  }

  ghost predicate ReadableMembers(l: Layout, ms: seq<Node>) {
    ms != [] ==> Readable(l, ms[0]) && KeyReadable(l, ms[0].name) && ReadableMembers(l, ms[1..])
  }

  ghost predicate ReadableElements(l: Layout, ms: seq<Node>) {
    ms != [] ==> Readable(l, ms[0]) && ms[0].name == "" && ReadableElements(l, ms[1..])
  }

  lemma {:induction false} MembersAreReadable(l: Layout, ms: seq<Node>)
    requires forall m :: m in ms ==> Shaped(m) && KeyReadable(l, m.name) && KeysReadable(l, m)
    ensures ReadableMembers(l, ms)
  {
    if ms != [] { MembersAreReadable(l, ms[1..]); }
  }

  lemma {:induction false} ElementsAreReadable(l: Layout, ms: seq<Node>)
    requires forall m :: m in ms ==> Shaped(m) && m.name == "" && KeysReadable(l, m)
    ensures ReadableElements(l, ms)
  {
    if ms != [] { ElementsAreReadable(l, ms[1..]); }
  }

  lemma ContainerIsReadable(l: Layout, n: Node)
    requires Readable(l, n)
    ensures n.category == Object ==> ReadableMembers(l, n.members)
    ensures n.category == Array ==> ReadableElements(l, n.members)
    ensures n.category in {Object, Array} ==> n.value.None? && n.typeName == ""
  {
    if n.category == Object { MembersAreReadable(l, n.members); }
    if n.category == Array { ElementsAreReadable(l, n.members); }
  }

  // ---------------------------------------------------------------- one scalar

  /** The delimiter ends the scalar with exactly these open nodes. */
  ghost predicate EndsScalar(q: Parser, d: Stack, c: char, d': Stack)
    requires Valid(q)
  {
    var r := Step(q, d, c);
    r.Ret? && r.d == d' && (r.code == -1 || (r.code == 1 && IsSpace(c)))
  }

  predicate IsClosed(n: Node) {
    n.category == Object || n.category == Array || n.typeName == "string"
  }

  /** A leaf written over the node begun for it. */
  function Leaf(name: string, typeName: string, value: Option<string>): Node {
    Node(Value, name, typeName, value, [])
  }

  lemma NumberEnds(q: Parser, d: Stack, name: string, c: char)
    requires Valid(q) && IsDelimiter(c) && d.top == FreshNode(name).(category := Value)
    requires q.state == Number || q.state == Real
    ensures EndsScalar(q, d, c, SetTop(d, Leaf(name, if q.state == Number then "int" else "double", Some(q.token))))
  {
    hide FirstStep, ValueStart, NameStart, InPlainName, InName, BeginObjectMember, AfterMember, AfterElement,
         ObjectEnd, ArrayEnd, InString, InToken, InComment;
  }

  lemma WordEnds(q: Parser, d: Stack, name: string, c: char)
    requires Valid(q) && IsDelimiter(c) && d.top == FreshNode(name)
    requires q.state == Token && q.token in {"true", "false", "null"}
    ensures EndsScalar(q, d, c,
              SetTop(d, if q.token == "null" then Leaf(name, "null", None) else Leaf(name, "bool", Some(q.token))))
  {
    assert !IsAlpha(c);
  }

  /** The scalar is complete in the parser but not yet in the tree. */
  predicate HoldsScalar(q: Parser, n: Node) {
    && q.Parser?
    && match n.value
       case None => q.state == Token && q.token == "null" && n.typeName == "null"
       case Some(v) =>
         q.token == v &&
         ((q.state == Number && n.typeName == "int") || (q.state == Real && n.typeName == "double") ||
          (q.state == Token && n.typeName == "bool" && v in {"true", "false"}))
  }

  lemma FeedNumber(p: Parser, d: Stack, name: string, typeName: string, v: string, rest: string) returns (q: Parser)
    requires Valid(p) && p.state == BeforeStart && d.top == FreshNode(name)
    requires (typeName == "int" && IsIntText(v)) || (typeName == "double" && IsRealText(v))
    ensures Valid(q) && Open(q) == 0 && q.token == v && q.state == if typeName == "int" then Number else Real
    ensures forall c :: IsDelimiter(c) ==>
      EndsScalar(q, SetCategory(d, Value), c, SetTop(d, Leaf(name, typeName, Some(v))))
    ensures Feed(p, d, JsonString.Escape(v) + rest) == Feed(q, SetCategory(d, Value), rest)
  {
    hide Feed, Step, EndsScalar, JsonString.Escape, IsDelimiter;
    NumbersPrintBare(v);
    if typeName == "int" {
      q := FeedInt(p, d, v, rest);
    } else {
      q := FeedReal(p, d, v, rest);
    }
    var d' := SetCategory(d, Value);
    forall c | IsDelimiter(c) ensures EndsScalar(q, d', c, SetTop(d, Leaf(name, typeName, Some(v)))) {
      NumberEnds(q, d', name, c);
    }
  }

  lemma FeedWordScalar(p: Parser, d: Stack, l: Layout, n: Node, name: string, level: nat, rest: string) returns (q: Parser)
    requires Valid(p) && p.state == BeforeStart && d.top == FreshNode(name)
    requires Shaped(n) && n.category == Value && (n.value.None? || n.typeName == "bool")
    ensures Valid(q) && Open(q) == 0 && q.state == Token && HoldsScalar(q, n)
    ensures forall c :: IsDelimiter(c) ==> EndsScalar(q, d, c, SetTop(d, n.(name := name)))
    ensures Feed(p, d, ValueText(l, n, level) + rest) == Feed(q, d, rest)
  {
    hide Feed, Step, EndsScalar, Quiet, IsDelimiter;
    assert n.(name := name) == Leaf(name, n.typeName, n.value);
    q := FeedKeyword(p, d, if n.value.None? then "null" else n.value.value, rest);
    forall c | IsDelimiter(c) ensures EndsScalar(q, d, c, SetTop(d, n.(name := name))) {
      WordEnds(q, d, name, c);
    }
  }

  lemma FeedScalar(p: Parser, d: Stack, l: Layout, n: Node, name: string, level: nat, rest: string)
    returns (q: Parser, d': Stack)
    requires Valid(p) && p.state == BeforeStart && d.top == FreshNode(name)
    requires Shaped(n) && n.category == Value && n.typeName != "string"
    ensures Valid(q) && Open(q) == 0 && HoldsScalar(q, n)
    ensures d' == if q.state == Token then d else SetCategory(d, Value)
    ensures Depth(d') == Depth(d) && forall c :: IsDelimiter(c) ==> EndsScalar(q, d', c, SetTop(d, n.(name := name)))
    ensures Feed(p, d, ValueText(l, n, level) + rest) == Feed(q, d', rest)
  {
    hide Feed, Step, EndsScalar, Quiet, IsDelimiter;
    assert n.(name := name) == Leaf(name, n.typeName, n.value);
    if n.value.Some? && n.typeName != "bool" {
      d' := SetCategory(d, Value);
      q := FeedNumber(p, d, name, n.typeName, n.value.value, rest);
    } else {
      d' := d;
      q := FeedWordScalar(p, d, l, n, name, level, rest);
    }
  }

  // ---------------------------------------------------------------- inner parsers

  function Left(d: Stack): Stack
    requires Depth(d) >= 2
  {
    LeaveMember(d).value
  }

  /** The outer parser after its inner one finished and used up its last character. */
  function Resumed(p: Parser, q: Parser): Parser
    requires p.Parser?
  {
    p.(next := q, state := if p.state == ObjValue then ObjE else ArrE)
  }

  function ResumedNodes(p: Parser, d: Stack): Stack
    requires p.Parser? && Depth(d) >= 2
  {
    if p.state == ObjValue then Left(d) else d
  }

  lemma OuterStep(p: Parser, d: Stack, ch: char)
    requires Valid(p) && Depth(d) > Open(p) && p.state in {ObjValue, ArrValue}
    ensures match Step(p.next, d, ch)
            case Fail(e) => Step(p, d, ch) == Fail(e)
            case Ret(code, q, d') =>
              && Depth(d') >= 2
              && (code == 0 ==> Step(p, d, ch) == Ret(0, p.(next := q), d'))
              && (code == 1 ==> Step(p, d, ch) == Ret(0, Resumed(p, q), ResumedNodes(p, d')))
  {
    hide FirstStep, ValueStart, NameStart, InPlainName, InName, BeginObjectMember, ObjectEnd, ArrayEnd,
         InString, InNumber, InReal, InToken, InComment, Quiet;
    StepKeeps(p.next, d, Depth(d) - Open(p) + 1, ch);
  }

  /** Text for the inner parser moves the outer one only through it. */
  lemma {:induction false} FeedInner(p: Parser, d: Stack, s: string)
    requires Valid(p) && Depth(d) > Open(p) && p.state in {ObjValue, ArrValue}
    ensures match Feed(p.next, d, s)
            case Failed(_) => Feed(p, d, s).Failed?
            case Fed(code, rest, q, d') =>
              && Depth(d') >= 2
              && (code == 0 ==> Feed(p, d, s) == Fed(0, [], p.(next := q), d'))
              && (code == 1 && rest == [] ==> Feed(p, d, s) == Fed(0, [], Resumed(p, q), ResumedNodes(p, d')))
    decreases |s|
  {
    if s == [] {
      assert p.(next := p.next) == p;
    } else {
      OuterStep(p, d, s[0]);
      StepKeeps(p, d, Depth(d) - Open(p), s[0]);
      var r, q := Step(p.next, d, s[0]), Step(p, d, s[0]);
      if r.Ret? && r.code == 0 {
        FeedInner(q.p, q.d, s[1..]);
      } else if r.Ret? && r.code == 1 && s[1..] == [] {
        assert Feed(q.p, q.d, s[1..]) == Fed(0, [], q.p, q.d);
      }
    }
  }

  lemma ResumeOnDelimiter(p: Parser, d: Stack, c: char, d': Stack) returns (q: Parser)
    requires Valid(p) && Depth(d) > Open(p) && Depth(d') >= 2 && p.state in {ObjValue, ArrValue}
    requires EndsScalar(p.next, d, c, d')
    ensures Valid(q) && q.state == (if p.state == ObjValue then ObjE else ArrE) && Open(q) == (if p.state == ObjValue then 0 else 1)
    ensures Step(p, d, c) == Step(q, ResumedNodes(p, d'), c)
  {
    hide FirstStep, ValueStart, NameStart, InPlainName, InName, BeginObjectMember, InString, InNumber,
         InReal, InToken, InComment, Quiet;
    StepKeeps(p.next, d, Depth(d) - Open(p) + 1, c);
    q := Resumed(p, Step(p.next, d, c).p);
    OuterStep(p, d, c);
  }

  /** A value that fills its node and stops the parser with its last character. */
  ghost predicate Fills(r: Fed, d: Stack, n: Node) {
    r.Fed? && r.code == 1 && r.rest == [] && r.p.Parser? && r.p.state == End && r.d == SetTop(d, n)
  }

  lemma FeedNothing(p: Parser, d: Stack)
    requires Valid(p) && Depth(d) > Open(p)
    ensures Feed(p, d, []) == Fed(0, [], p, d)
  {
  }

  lemma InnerIsValid(p: Parser)
    requires AtValue(p)
    ensures p.Parser? && p.state in {ObjValue, ArrValue} && Valid(p.next) && Open(p.next) == 0
  {
  }

  lemma WithInner(p: Parser, q: Parser)
    requires AtValue(p) && Valid(q)
    ensures p.Parser? && Valid(p.(next := q)) && Open(p.(next := q)) == 1 + Open(q)
  {
  }

  /** A member or element, once its inner parser is started: the outer parser resumes after it. */
  /** The text of a value takes the outer parser to what follows, with the node `n` in the tree. */
  ghost predicate Passes(p: Parser, d: Stack, text: string, n: Node, q: Parser, rest: string)
    requires AtValue(p) && Depth(d) >= 2
  {
    && Valid(q) && q.state == (if p.state == ObjValue then ObjE else ArrE)
    && Feed(p, d, text + rest) == Feed(q, ResumedNodes(p, SetTop(d, n)), rest)
  }

  lemma FeedScalarInside(p: Parser, d: Stack, l: Layout, n: Node, level: nat, rest: string) returns (q: Parser)
    requires AtValue(p) && Depth(d) >= 2
    requires d.top == FreshNode(Utf8(n.name)) && Shaped(n) && n.category == Value && n.members == [] && !IsClosed(n)
    requires rest != [] && IsDelimiter(rest[0])
    ensures Passes(p, d, ValueText(l, n, level), Reread(n), q, rest)
  {
    hide Feed, Step, ValueText, Shaped, Valid, Open, Utf8;
    var text := ValueText(l, n, level);
    InnerIsValid(p);
    var q1, d1 := FeedScalar(p.next, d, l, n, Utf8(n.name), level, []);
    WithInner(p, q1);
    assert text + [] == text;
    FeedNothing(q1, d1);
    FeedInner(p, d, text);
    FeedConcat(p, d, text, rest);
    var p1 := p.(next := q1);
    assert Reread(n) == n.(name := Utf8(n.name));
    q := ResumeOnDelimiter(p1, d1, rest[0], SetTop(d, Reread(n)));
    FeedSameStep(p1, d1, q, ResumedNodes(p, SetTop(d, Reread(n))), rest);
  }

  lemma FeedClosedInside(p: Parser, d: Stack, n: Node, text: string, rest: string) returns (q: Parser)
    requires AtValue(p) && Depth(d) >= 2
    requires Fills(Feed(p.next, d, text), d, n)
    ensures Passes(p, d, text, n, q, rest)
  {
    hide Feed, Step, Quiet;
    FeedInner(p, d, text);
    FeedConcat(p, d, text, rest);
    q := Resumed(p, Feed(p.next, d, text).p);
  }

  // ---------------------------------------------------------------- containers

  lemma ValueTextStart(l: Layout, n: Node, level: nat)
    requires Shaped(n)
    ensures var t := ValueText(l, n, level); t != [] && !IsSpace(t[0]) && t[0] != ']' && t[0] != '/'
  {
    if n.category == Value && n.value.Some? && n.typeName in {"int", "double"} {
      NumbersPrintBare(n.value.value);
      if n.typeName == "double" {
        var k: nat :| SplitsReal(n.value.value, k);
        assert n.value.value[..k][0] == n.value.value[0];
      }
    }
  }

  lemma TailStart(l: Layout, ms: seq<Node>, level: nat, close: char)
    requires level >= 1
    requires close in {'}', ']'}
    ensures var t := Tail(l, ms, level, false, close); t != [] && IsDelimiter(t[0])
  {
    if ms == [] {
      var blank := Newline(l) + Indent(l, level - 1);
      assert AllSpace(blank);
      assert Tail(l, ms, level, false, close) == blank + [close];
    } else {
      assert Tail(l, ms, level, false, close)[0] == ',';
    }
  }

  /** The first character of an element starts the inner parser, after `[` and after a comma. */
  lemma FeedElementStart(p: Parser, d: Stack, s: string) returns (q: Parser)
    requires Valid(p) && p.state in {Arr, ArrValue0} && Depth(d) > Open(p)
    requires s != [] && !IsSpace(s[0]) && s[0] != ']' && s[0] != '/'
    ensures AtValue(q) && q.state == ArrValue
    ensures Feed(p, d, s) == Feed(q, BeginMember(d, ""), s)
  {
    hide Step;
    q := ElementStartStep(p, d, s[0]);
    FeedSameStep(p, d, q, BeginMember(d, ""), s);
  }

  /** The inner parser that reads an element. */
  function ForElement(p: Parser): (q: Parser)
    requires p.Parser? && (p.next.NoParser? ==> p.state == Arr)
    ensures q.Parser?
  {
    p.(state := ArrValue, next := if p.state == Arr then Inner(p) else Begin(p.next))
  }

  lemma ForElementIsValid(p: Parser)
    requires Valid(p) && p.state in {Arr, ArrValue0}
    ensures AtValue(ForElement(p)) && ForElement(p).state == ArrValue
  {
    var q := ForElement(p).next;
    assert Quiet(q);
    assert Valid(q) && Open(q) == 0;
  }

  lemma ElementStartStep(p: Parser, d: Stack, c: char) returns (q: Parser)
    requires Valid(p) && p.state in {Arr, ArrValue0}
    requires !IsSpace(c) && c != ']' && c != '/'
    ensures AtValue(q) && q.state == ArrValue
    ensures Step(p, d, c) == Step(q, BeginMember(d, ""), c)
  {
    hide FirstStep, ValueStart, NameStart, InPlainName, InName, BeginObjectMember, AfterMember, ObjectEnd, ArrayEnd, InString,
         InNumber, InReal, InToken, InComment, Quiet, IsSpace;
    ArrayStep(p, d, c);
    q := ForElement(p);
    ForElementIsValid(p);
    var d1 := BeginMember(d, "");
    FirstStepKeeps(q.next, d1, c);
    var r := FirstStep(q.next, d1, c);
    assert Step(q.next, d1, c) == r;
    assert Step(q, d1, c) == AfterElement(q, r, c);
  }

  function Extended(n: Node, ms: seq<Node>): Node {
    n.(members := n.members + ms)
  }

  lemma BeginThenLeave(d: Stack, name: string, child: Node)
    requires d.top.category in {Object, Array}
    ensures Left(SetTop(BeginMember(d, name), child)) == SetTop(d, Extended(d.top, [child]))
  {
  }

  lemma ExtendTwice(d: Stack, child: Node, ms: seq<Node>)
    ensures SetTop(SetTop(d, Extended(d.top, [child])), Extended(Extended(d.top, [child]), ms))
         == SetTop(d, Extended(d.top, [child] + ms))
  {
    assert d.top.members + [child] + ms == d.top.members + ([child] + ms);
  }

  lemma FeedSeparator(p: Parser, d: Stack, l: Layout, level: nat, first: bool, rest: string) returns (q: Parser)
    requires Valid(p) && Open(p) == 0 && p.state == (if first then Obj else ObjE)
    ensures Valid(q) && Open(q) == 0 && StartsName(q.state)
    ensures Feed(p, d, Separator(l, first) + (Indent(l, level) + rest)) == Feed(q, d, rest)
  {
    q := p;
    if !first {
      q := p.(state := ObjNextMember0);
      assert Separator(l, first) + (Indent(l, level) + rest) == [','] + (Newline(l) + (Indent(l, level) + rest));
      FeedOne(p, d, ',', Newline(l) + (Indent(l, level) + rest));
      FeedSpaces(q, d, Newline(l), Indent(l, level) + rest);
    } else {
      assert Separator(l, first) + (Indent(l, level) + rest) == Indent(l, level) + rest;
    }
    FeedSpaces(q, d, Indent(l, level), rest);
  }

  lemma HeadSplits(l: Layout, n: Node, level: nat, first: bool, rest: string)
    ensures Head(l, n, level, first) + rest == Separator(l, first) + (Indent(l, level) + (KeyText(l, n.name) + rest))
  {
    hide KeyText, Separator, Indent;
  }

  lemma FeedHead(p: Parser, d: Stack, l: Layout, n: Node, level: nat, first: bool, rest: string) returns (q: Parser)
    requires Valid(p) && Open(p) == 0 && p.state == (if first then Obj else ObjE) && KeyReadable(l, n.name)
    ensures AtMember(q)
    ensures Feed(p, d, Head(l, n, level, first) + rest) == Feed(q, BeginMember(d, Utf8(n.name)), rest)
  {
    hide Feed, KeyText, Separator, Indent, Utf8, Head;
    HeadSplits(l, n, level, first, rest);
    var p1 := FeedSeparator(p, d, l, level, first, KeyText(l, n.name) + rest);
    q := FeedKey(p1, d, l, n.name, rest);
  }

  lemma FeedClose(p: Parser, d: Stack, blank: string)
    requires Valid(p) && Depth(d) > Open(p) && p.state in {Obj, ObjE, Arr, ArrE} && AllSpace(blank)
    ensures var close := if p.state in {Obj, ObjE} then '}' else ']';
            var r := Feed(p, d, blank + [close]);
            r.Fed? && r.code == 1 && r.rest == [] && r.p.state == End && r.d == if p.state == ArrE then Left(d) else d
  {
    var close := if p.state in {Obj, ObjE} then '}' else ']';
    FeedSpaces(p, d, blank, [close]);
  }

  /** A member or element of either kind, with what follows it. */
  lemma {:induction false} FeedValueInside(p: Parser, d: Stack, l: Layout, n: Node, level: nat, rest: string) returns (q: Parser)
    requires AtValue(p) && Depth(d) >= 2
    requires d.top == FreshNode(Utf8(n.name)) && Readable(l, n)
    requires rest != [] && IsDelimiter(rest[0])
    ensures Passes(p, d, ValueText(l, n, level), Reread(n), q, rest)
    decreases n, 3
  {
    hide Feed, Step, ValueText, Passes, Quiet;
    if IsClosed(n) {
      FeedClosed(p.next, d, l, n, level);
      q := FeedClosedInside(p, d, Reread(n), ValueText(l, n, level), rest);
    } else {
      q := FeedScalarInside(p, d, l, n, level, rest);
    }
  }

  lemma BracketStep(p: Parser, d: Stack, category: Category)
    requires Valid(p) && p.state == BeforeStart && category in {Object, Array}
    ensures var q := p.(state := if category == Object then Obj else Arr);
            && Valid(q) && Open(q) == 0 && Open(p) == 0
            && Step(p, d, if category == Object then '{' else '[') == Ret(0, q, SetCategory(d, category))
  {
    hide NameStart, InPlainName, InName, BeginObjectMember, AfterMember, AfterElement, ObjectEnd, ArrayEnd, InString,
         InNumber, InReal, InToken, InComment, Quiet;
  }

  lemma FeedOpenBracket(p: Parser, d: Stack, l: Layout, category: Category, tail: string)
    requires Valid(p) && p.state == BeforeStart && category in {Object, Array}
    ensures var q := p.(state := if category == Object then Obj else Arr);
            Valid(q) && Open(q) == 0 &&
            Feed(p, d, (if category == Object then "{" else "[") + Newline(l) + tail) == Feed(q, SetCategory(d, category), tail)
  {
    BracketStep(p, d, category);
    hide Feed, Step, Valid, Open;
    var c := if category == Object then '{' else '[';
    var q := p.(state := if category == Object then Obj else Arr);
    assert [c] + Newline(l) + tail == [c] + (Newline(l) + tail);
    FeedOne(p, d, c, Newline(l) + tail);
    FeedSpaces(q, SetCategory(d, category), Newline(l), tail);
  }

  lemma ContainerFilled(d: Stack, category: Category, ms: seq<Node>)
    requires d.top == FreshNode(d.top.name)
    ensures var d1 := SetCategory(d, category);
            d1.top.category == category &&
            SetTop(d1, Extended(d1.top, ms)) == SetTop(d, Node(category, d.top.name, "", None, ms))
  {
    assert [] + ms == ms;
  }

  lemma StringFilled(p: Parser, d: Stack, l: Layout, n: Node, level: nat)
    requires Valid(p) && p.state == BeforeStart && d.top == FreshNode(Utf8(n.name))
    requires n.category == Value && n.value.Some? && n.typeName == "string" && n.members == []
    ensures Fills(Feed(p, d, ValueText(l, n, level)), d, Reread(n))
  {
    hide Feed, Step;
    FeedStringValue(p, d, n.value.value);
  }

  /** Strings, objects and arrays: the parser returns 1 exactly at the last character. */
  lemma {:induction false} FeedClosed(p: Parser, d: Stack, l: Layout, n: Node, level: nat)
    requires Valid(p) && p.state == BeforeStart && d.top == FreshNode(Utf8(n.name))
    requires Readable(l, n) && IsClosed(n)
    ensures Fills(Feed(p, d, ValueText(l, n, level)), d, Reread(n))
    decreases n, 2
  {
    ContainerIsReadable(l, n);
    if n.category == Value {
      StringFilled(p, d, l, n, level);
    } else if n.category == Object {
      FeedObject(p, d, l, n.members, level);
    } else {
      FeedArray(p, d, l, n.members, level);
    }
  }

  lemma {:induction false} FeedObject(p: Parser, d: Stack, l: Layout, ms: seq<Node>, level: nat)
    requires Valid(p) && p.state == BeforeStart && d.top == FreshNode(d.top.name) && ReadableMembers(l, ms)
    ensures Fills(Feed(p, d, "{" + Newline(l) + Tail(l, ms, level + 1, true, '}')),
                  d, Node(Object, d.top.name, "", None, RereadAll(ms)))
    decreases ms, 2
  {
    hide Feed, Step, Tail, ReadableMembers, ReadableElements, RereadAll, Quiet, SetCategory, SetTop, Extended, Newline;
    ContainerFilled(d, Object, RereadAll(ms));
    FeedOpenBracket(p, d, l, Object, Tail(l, ms, level + 1, true, '}'));
    FeedMembers(p.(state := Obj), SetCategory(d, Object), l, ms, level + 1, true);
  }

  lemma {:induction false} FeedArray(p: Parser, d: Stack, l: Layout, ms: seq<Node>, level: nat)
    requires Valid(p) && p.state == BeforeStart && d.top == FreshNode(d.top.name) && ReadableElements(l, ms)
    ensures Fills(Feed(p, d, "[" + Newline(l) + Tail(l, ms, level + 1, true, ']')),
                  d, Node(Array, d.top.name, "", None, RereadAll(ms)))
    decreases ms, 3
  {
    hide Feed, Step, Tail, ReadableMembers, ReadableElements, RereadAll, Quiet, SetCategory, SetTop, Extended, Newline;
    ContainerFilled(d, Array, RereadAll(ms));
    FeedOpenBracket(p, d, l, Array, Tail(l, ms, level + 1, true, ']'));
    FeedFirstElement(p.(state := Arr), SetCategory(d, Array), l, ms, level + 1);
  }

  lemma {:induction false} FeedMembers(p: Parser, d: Stack, l: Layout, ms: seq<Node>, level: nat, first: bool)
    requires Valid(p) && p.state == (if first then Obj else ObjE) && d.top.category == Object && level >= 1
    requires ReadableMembers(l, ms)
    ensures Fills(Feed(p, d, Tail(l, ms, level, first, '}')), d, Extended(d.top, RereadAll(ms)))
    decreases ms, 1
  {
    hide Feed, Step, Quiet, ValueText, Head;
    if ms == [] {
      FeedClose(p, d, Newline(l) + Indent(l, level - 1));
      assert d.top.members + [] == d.top.members;
    } else {
      var q := FeedMember(p, d, l, ms, level, first);
      FeedMembers(q, SetTop(d, Extended(d.top, [Reread(ms[0])])), l, ms[1..], level, false);
      ExtendTwice(d, Reread(ms[0]), RereadAll(ms[1..]));
    }
  }

  lemma {:induction false} FeedMember(p: Parser, d: Stack, l: Layout, ms: seq<Node>, level: nat, first: bool) returns (q: Parser)
    requires Valid(p) && Open(p) == 0 && p.state == (if first then Obj else ObjE) && d.top.category == Object && level >= 1
    requires ms != [] && Readable(l, ms[0]) && KeyReadable(l, ms[0].name)
    ensures Valid(q) && Open(q) == 0 && q.state == ObjE
    ensures Feed(p, d, Tail(l, ms, level, first, '}')) ==
            Feed(q, SetTop(d, Extended(d.top, [Reread(ms[0])])), Tail(l, ms[1..], level, false, '}'))
    decreases ms, 0
  {
    hide Feed, Step, Quiet, ValueText, Head, Readable, KeyReadable, Reread, AtValue, SetTop, Left, Extended;
    var n, tail := ms[0], Tail(l, ms[1..], level, false, '}');
    var p1 := FeedHead(p, d, l, n, level, first, ValueText(l, n, level) + tail);
    TailStart(l, ms[1..], level, '}');
    q := FeedValueInside(p1, BeginMember(d, Utf8(n.name)), l, n, level, tail);
    BeginThenLeave(d, Utf8(n.name), Reread(n));
  }

  /** The element whose first character comes next. */
  lemma {:induction false} FeedElement(p: Parser, d: Stack, l: Layout, ms: seq<Node>, level: nat)
    requires Valid(p) && p.state in {Arr, ArrValue0} && d.top.category == Array && level >= 1 && ms != []
    requires ReadableElements(l, ms)
    ensures Fills(Feed(p, d, ValueText(l, ms[0], level) + Tail(l, ms[1..], level, false, ']')),
                  d, Extended(d.top, RereadAll(ms)))
    decreases ms, 1
  {
    var n, tail := ms[0], Tail(l, ms[1..], level, false, ']');
    ValueTextStart(l, n, level);
    TailStart(l, ms[1..], level, ']');
    var q := FeedElementStart(p, d, ValueText(l, n, level) + tail);
    var q1 := FeedValueInside(q, BeginMember(d, ""), l, n, level, tail);
    var d1 := SetTop(BeginMember(d, ""), Reread(n));
    BeginThenLeave(d, "", Reread(n));
    FeedElements(q1, d1, l, ms[1..], level);
    ExtendTwice(d, Reread(n), RereadAll(ms[1..]));
  }

  lemma HeadOfElement(l: Layout, n: Node, level: nat, first: bool, rest: string)
    requires n.name == ""
    ensures Head(l, n, level, first) + rest ==
            if first then Indent(l, level) + rest else [','] + (Newline(l) + (Indent(l, level) + rest))
  {
    var indent, newline := Indent(l, level), Newline(l);
    assert KeyText(l, n.name) == "";
    if first {
      assert "" + indent + "" == indent;
    } else {
      assert ("," + newline) + indent + "" == "," + newline + indent;
      assert "," + newline + indent + rest == [','] + (newline + (indent + rest));
    }
  }

  lemma TailOfElements(l: Layout, ms: seq<Node>, level: nat, first: bool)
    requires ms != [] && ms[0].name == "" && level >= 1
    ensures var rest := ValueText(l, ms[0], level) + Tail(l, ms[1..], level, false, ']');
            Tail(l, ms, level, first, ']') ==
            if first then Indent(l, level) + rest else [','] + (Newline(l) + (Indent(l, level) + rest))
  {
    HeadOfElement(l, ms[0], level, first, ValueText(l, ms[0], level) + Tail(l, ms[1..], level, false, ']'));
  }

  lemma {:induction false} FeedFirstElement(p: Parser, d: Stack, l: Layout, ms: seq<Node>, level: nat)
    requires Valid(p) && p.state == Arr && d.top.category == Array && level >= 1
    requires ReadableElements(l, ms)
    ensures Fills(Feed(p, d, Tail(l, ms, level, true, ']')), d, Extended(d.top, RereadAll(ms)))
    decreases ms, 2
  {
    if ms == [] {
      FeedClose(p, d, Newline(l) + Indent(l, level - 1));
      assert d.top.members + [] == d.top.members;
    } else {
      var rest := ValueText(l, ms[0], level) + Tail(l, ms[1..], level, false, ']');
      TailOfElements(l, ms, level, true);
      FeedSpaces(p, d, Indent(l, level), rest);
      FeedElement(p, d, l, ms, level);
    }
  }

  /** The comma behind an element leaves it. */
  lemma CommaLeaves(p: Parser, d: Stack)
    requires Valid(p) && p.state == ArrE && Depth(d) >= 2
    ensures var q := p.(state := ArrValue0); Step(p, d, ',') == Ret(0, q, Left(d)) && Valid(q) && Open(p) == 1 && Open(q) == 0
  {
    hide FirstStep, ValueStart, NameStart, InPlainName, InName, BeginObjectMember, AfterMember, AfterElement, ObjectEnd,
         InString, InNumber, InReal, InToken, InComment, Quiet;
  }

  /** Behind an element, which is still open until the next comma or bracket. */
  lemma {:induction false} FeedElements(p: Parser, d: Stack, l: Layout, ms: seq<Node>, level: nat)
    requires Valid(p) && p.state == ArrE && Depth(d) >= 2 && Left(d).top.category == Array && level >= 1
    requires ReadableElements(l, ms)
    ensures Fills(Feed(p, d, Tail(l, ms, level, false, ']')), Left(d), Extended(Left(d).top, RereadAll(ms)))
    decreases ms, 2
  {
    CommaLeaves(p, d);
    hide Feed, ValueText, Step, Valid, Open, Quiet, Left;
    if ms == [] {
      FeedClose(p, d, Newline(l) + Indent(l, level - 1));
      assert Left(d).top.members + [] == Left(d).top.members;
    } else {
      var rest := ValueText(l, ms[0], level) + Tail(l, ms[1..], level, false, ']');
      var q := p.(state := ArrValue0);
      TailOfElements(l, ms, level, false);
      FeedOne(p, d, ',', Newline(l) + (Indent(l, level) + rest));
      FeedSpaces(q, Left(d), Newline(l), Indent(l, level) + rest);
      FeedSpaces(q, Left(d), Indent(l, level), rest);
      FeedElement(q, Left(d), l, ms, level);
    }
  }
}
