/**
 The printed trees that do not come back: a tree with an empty key, or with an unquoted key
 that holds an underscore, is refused by the parser whatever the rest of it is.
 */
module JsonUnreadable {
  import opened Chars
  import opened SerializationTree
  import opened OpenNodes
  import opened JsonParser
  import opened JsonNesting
  import opened JsonText
  import opened JsonPieces
  import opened JsonRoundTrip

  lemma FailOne(p: Parser, d: Stack, c: char, rest: string)
    requires Valid(p) && Depth(d) > Open(p) && Step(p, d, c).Fail?
    ensures Feed(p, d, [c] + rest).Failed?
  {
    assert ([c] + rest)[0] == c;
  }

  lemma NewlineEndsPlainName(p: Parser, d: Stack, rest: string) returns (q: Parser)
    requires Valid(p) && p.state == ObjPlainName
    ensures Valid(q) && q.state == ObjAfterName && Feed(p, d, ['\n'] + rest) == Feed(q, d, rest)
  {
    FeedOne(p, d, '\n', rest);
    q := Step(p, d, '\n').p;
  }

  lemma NameRejects(p: Parser, d: Stack, c: char, rest: string)
    requires Valid(p) && p.state in {ObjAfterName, ObjPlainName} && c in {',', '}'}
    ensures Feed(p, d, [c] + rest).Failed?
  {
    FailOne(p, d, c, rest);
  }

  lemma BraceAfterName(p: Parser, d: Stack, blank: string)
    requires Valid(p) && p.state == ObjAfterName && AllSpace(blank)
    ensures Feed(p, d, blank + "}").Failed?
  {
    FeedSpaces(p, d, blank, "}");
    assert ['}'] + "" == "}";
    NameRejects(p, d, '}', "");
  }

  /** What follows a member never follows a name. */
  lemma TailAfterName(p: Parser, d: Stack, l: Layout, ms: seq<Node>, level: nat)
    requires Valid(p) && p.state in {ObjAfterName, ObjPlainName} && level >= 1
    ensures Feed(p, d, Tail(l, ms, level, false, '}')).Failed?
  {
    hide Feed, Step;
    var indent := Indent(l, level - 1);
    if ms != [] {
      assert Tail(l, ms, level, false, '}') == [','] + Tail(l, ms, level, false, '}')[1..];
      NameRejects(p, d, ',', Tail(l, ms, level, false, '}')[1..]);
    } else if p.state == ObjAfterName {
      BraceAfterName(p, d, Newline(l) + indent);
    } else if l.beautify {
      assert "\n" + indent + "}" == ['\n'] + (indent + "}");
      var q := NewlineEndsPlainName(p, d, indent + "}");
      BraceAfterName(q, d, indent);
    } else {
      assert "" + "" + "}" == ['}'] + "";
      NameRejects(p, d, '}', "");
    }
  }

  lemma NamelessWord(p: Parser, d: Stack, word: string, l: Layout, ms: seq<Node>, level: nat)
    requires Valid(p) && Open(p) == 0 && StartsName(p.state) && level >= 1 && word in {"null", "true", "false"}
    ensures Feed(p, d, word + Tail(l, ms, level, false, '}')).Failed?
  {
    hide Feed, Step, Tail;
    var tail := Tail(l, ms, level, false, '}');
    assert word + tail == [word[0]] + (word[1..] + tail);
    StartPlainName(p, d, word[0]);
    FeedOne(p, d, word[0], word[1..] + tail);
    var q := p.(state := ObjPlainName, token := [word[0]]);
    FeedInPlainName(q, d, word[1..], tail);
    TailAfterName(q.(token := q.token + word[1..]), d, l, ms, level);
  }

  lemma NoNameStart(p: Parser, d: Stack, text: string)
    requires Valid(p) && Open(p) == 0 && StartsName(p.state)
    requires text != [] && (text[0] in {'{', '[', '+', '-'} || IsDigit(text[0]))
    ensures Feed(p, d, text).Failed?
  {
  }

  /** A value where a name is expected. */
  lemma NamelessFails(p: Parser, d: Stack, l: Layout, n: Node, ms: seq<Node>, level: nat)
    requires Valid(p) && Open(p) == 0 && StartsName(p.state) && Shaped(n) && level >= 1
    ensures Feed(p, d, ValueText(l, n, level) + Tail(l, ms, level, false, '}')).Failed?
  {
    hide Feed, Step, Tail;
    var tail := Tail(l, ms, level, false, '}');
    if n.category == Value && n.typeName == "string" {
      var q := FeedQuotedName(p, d, n.value.value, tail);
      TailAfterName(q, d, l, ms, level);
    } else if n.category == Value && (n.value.None? || n.typeName == "bool") {
      NamelessWord(p, d, ValueText(l, n, level), l, ms, level);
    } else {
      BracketOrSign(l, n, level);
      NoNameStart(p, d, ValueText(l, n, level) + tail);
    }
  }

  lemma BracketOrSign(l: Layout, n: Node, level: nat)
    requires Shaped(n) && (n.category in {Object, Array} || (n.value.Some? && n.typeName in {"int", "double"}))
    ensures var t := ValueText(l, n, level);
            t != [] && (t[0] in {'{', '[', '+', '-'} || IsDigit(t[0]))
  {
    if n.category == Value {
      NumbersPrintBare(n.value.value);
      if n.typeName == "double" {
        var k: nat :| SplitsReal(n.value.value, k);
        assert n.value.value[..k][0] == n.value.value[0];
      }
    }
  }

  lemma {:induction false} FirstUnderscore(name: string, from: nat) returns (k: nat)
    requires from <= |name| && '_' in name[from..]
    ensures from <= k < |name| && name[k] == '_' && forall i :: from <= i < k ==> name[i] != '_'
    decreases |name| - from
  {
    if name[from] == '_' {
      k := from;
    } else {
      assert name[from..] == [name[from]] + name[from + 1..];
      k := FirstUnderscore(name, from + 1);
    }
  }

  lemma UnderscoreFails(p: Parser, d: Stack, name: string, rest: string)
    requires Valid(p) && Open(p) == 0 && StartsName(p.state) && IsPlain(name) && '_' in name
    ensures Feed(p, d, name + rest).Failed?
  {
    assert name[0..] == name;
    var k := FirstUnderscore(name, 0);
    var rest' := name[k + 1..] + rest;
    assert name + rest == [name[0]] + (name[1..k] + (['_'] + rest'));
    StartPlainName(p, d, name[0]);
    FeedOne(p, d, name[0], name[1..k] + (['_'] + rest'));
    var q := p.(state := ObjPlainName, token := [name[0]]);
    FeedInPlainName(q, d, name[1..k], ['_'] + rest');
    FailOne(q.(token := q.token + name[1..k]), d, '_', rest');
  }

  lemma BadKeyFails(p: Parser, d: Stack, l: Layout, ms: seq<Node>, level: nat, first: bool)
    requires Valid(p) && Open(p) == 0 && p.state == (if first then Obj else ObjE) && level >= 1
    requires ms != [] && Shaped(ms[0]) && !KeyReadable(l, ms[0].name)
    ensures Feed(p, d, Tail(l, ms, level, first, '}')).Failed?
  {
    hide Feed, Step, ValueText;
    var n := ms[0];
    var rest := ValueText(l, n, level) + Tail(l, ms[1..], level, false, '}');
    var key := KeyText(l, n.name) + rest;
    HeadSplits(l, n, level, first, rest);
    var q := FeedSeparator(p, d, l, level, first, key);
    if n.name == "" {
      assert key == rest;
      NamelessFails(q, d, l, n, ms[1..], level);
    } else {
      KeyTextParts(l, n.name, rest);
      UnderscoreFails(q, d, n.name, [':'] + ((if l.beautify then " " else "") + rest));
    }
  }

  // ---------------------------------------------------------------- anywhere in a tree

  lemma FailsInside(p: Parser, d: Stack, text: string, rest: string)
    requires AtValue(p) && Depth(d) >= 2 && Feed(p.next, d, text).Failed?
    ensures Feed(p, d, text + rest).Failed?
  {
    FeedInner(p, d, text);
    FeedConcat(p, d, text, rest);
  }

  ghost predicate ShapedAll(ms: seq<Node>, named: bool) {
    ms != [] ==> Shaped(ms[0]) && (named || ms[0].name == "") && ShapedAll(ms[1..], named)
  }

  lemma {:induction false} AllAreShaped(ms: seq<Node>, named: bool)
    requires forall m :: m in ms ==> Shaped(m) && (named || m.name == "")
    ensures ShapedAll(ms, named)
  {
    if ms != [] { AllAreShaped(ms[1..], named); }
  }

  lemma {:induction false} ReadableFromMembers(l: Layout, ms: seq<Node>)
    requires ReadableMembers(l, ms)
    ensures forall m :: m in ms ==> KeyReadable(l, m.name) && KeysReadable(l, m)
  {
    if ms != [] {
      ReadableFromMembers(l, ms[1..]);
      assert forall m :: m in ms ==> m == ms[0] || m in ms[1..];
    }
  }

  lemma {:induction false} ReadableFromElements(l: Layout, ms: seq<Node>)
    requires ReadableElements(l, ms)
    ensures forall m :: m in ms ==> KeysReadable(l, m)
  {
    if ms != [] {
      ReadableFromElements(l, ms[1..]);
      assert forall m :: m in ms ==> m == ms[0] || m in ms[1..];
    }
  }

  /** An unreadable container is an unreadable list of members or elements. */
  lemma UnreadableContainer(l: Layout, n: Node)
    requires Shaped(n) && !KeysReadable(l, n)
    ensures n.category in {Object, Array}
    ensures n.category == Object ==> ShapedAll(n.members, true) && !ReadableMembers(l, n.members)
    ensures n.category == Array ==> ShapedAll(n.members, false) && !ReadableElements(l, n.members)
    ensures n.value.None?
  {
    AllAreShaped(n.members, n.category == Object);
    if n.category == Object && ReadableMembers(l, n.members) {
      ReadableFromMembers(l, n.members);
    }
    if n.category == Array && ReadableElements(l, n.members) {
      ReadableFromElements(l, n.members);
    }
  }

  lemma OpenBracketFails(p: Parser, d: Stack, l: Layout, category: Category, tail: string)
    requires Valid(p) && p.state == BeforeStart && category in {Object, Array}
    requires Valid(p.(state := if category == Object then Obj else Arr))
    requires Feed(p.(state := if category == Object then Obj else Arr), SetCategory(d, category), tail).Failed?
    ensures Feed(p, d, (if category == Object then "{" else "[") + Newline(l) + tail).Failed?
  {
    hide Feed, Step;
    FeedOpenBracket(p, d, l, category, tail);
  }

  /** The parser refuses every printed tree that has an unreadable key anywhere. */
  lemma {:induction false} UnreadableFails(p: Parser, d: Stack, l: Layout, n: Node, level: nat)
    requires Valid(p) && p.state == BeforeStart && d.top == FreshNode(Utf8(n.name))
    requires Shaped(n) && !KeysReadable(l, n)
    ensures Feed(p, d, ValueText(l, n, level)).Failed?
    decreases n, 2
  {
    hide Feed, Step, Tail, Shaped, KeysReadable, ShapedAll, ReadableMembers, ReadableElements, Utf8;
    UnreadableContainer(l, n);
    if n.category == Object {
      MembersFail(p.(state := Obj), SetCategory(d, Object), l, n.members, level + 1, true);
      OpenBracketFails(p, d, l, Object, Tail(l, n.members, level + 1, true, '}'));
    } else {
      FirstElementFails(p.(state := Arr), SetCategory(d, Array), l, n.members, level + 1);
      OpenBracketFails(p, d, l, Array, Tail(l, n.members, level + 1, true, ']'));
    }
  }

  lemma {:induction false} MembersFail(p: Parser, d: Stack, l: Layout, ms: seq<Node>, level: nat, first: bool)
    requires Valid(p) && p.state == (if first then Obj else ObjE) && d.top.category == Object && level >= 1
    requires ShapedAll(ms, true) && !ReadableMembers(l, ms)
    ensures Feed(p, d, Tail(l, ms, level, first, '}')).Failed?
    decreases ms, 1
  {
    hide Feed, Step;
    var n := ms[0];
    if !KeyReadable(l, n.name) {
      BadKeyFails(p, d, l, ms, level, first);
    } else if !KeysReadable(l, n) {
      var tail := Tail(l, ms[1..], level, false, '}');
      var q := FeedHead(p, d, l, n, level, first, ValueText(l, n, level) + tail);
      UnreadableFails(q.next, BeginMember(d, Utf8(n.name)), l, n, level);
      FailsInside(q, BeginMember(d, Utf8(n.name)), ValueText(l, n, level), tail);
    } else {
      var q := FeedMember(p, d, l, ms, level, first);
      MembersFail(q, SetTop(d, Extended(d.top, [Reread(n)])), l, ms[1..], level, false);
    }
  }

  lemma {:induction false} ElementFails(p: Parser, d: Stack, l: Layout, ms: seq<Node>, level: nat)
    requires Valid(p) && p.state in {Arr, ArrValue0} && d.top.category == Array && level >= 1
    requires ms != [] && ShapedAll(ms, false) && !ReadableElements(l, ms)
    ensures Feed(p, d, ValueText(l, ms[0], level) + Tail(l, ms[1..], level, false, ']')).Failed?
    decreases ms, 1
  {
    hide Feed, Step, Tail, ValueText;
    var n, tail := ms[0], Tail(l, ms[1..], level, false, ']');
    ValueTextStart(l, n, level);
    TailStart(l, ms[1..], level, ']');
    var q := FeedElementStart(p, d, ValueText(l, n, level) + tail);
    if !KeysReadable(l, n) {
      UnreadableFails(q.next, BeginMember(d, ""), l, n, level);
      FailsInside(q, BeginMember(d, ""), ValueText(l, n, level), tail);
    } else {
      var q1 := FeedValueInside(q, BeginMember(d, ""), l, n, level, tail);
      BeginThenLeave(d, "", Reread(n));
      ElementsFail(q1, SetTop(BeginMember(d, ""), Reread(n)), l, ms[1..], level);
    }
  }

  lemma {:induction false} FirstElementFails(p: Parser, d: Stack, l: Layout, ms: seq<Node>, level: nat)
    requires Valid(p) && p.state == Arr && d.top.category == Array && level >= 1
    requires ShapedAll(ms, false) && !ReadableElements(l, ms)
    ensures Feed(p, d, Tail(l, ms, level, true, ']')).Failed?
    decreases ms, 2
  {
    hide Feed, Step, Tail;
    TailOfElements(l, ms, level, true);
    FeedSpaces(p, d, Indent(l, level), ValueText(l, ms[0], level) + Tail(l, ms[1..], level, false, ']'));
    ElementFails(p, d, l, ms, level);
  }

  lemma {:induction false} ElementsFail(p: Parser, d: Stack, l: Layout, ms: seq<Node>, level: nat)
    requires Valid(p) && p.state == ArrE && Depth(d) >= 2 && Left(d).top.category == Array && level >= 1
    requires ShapedAll(ms, false) && !ReadableElements(l, ms)
    ensures Feed(p, d, Tail(l, ms, level, false, ']')).Failed?
    decreases ms, 2
  {
    hide Feed, Tail;
    var rest := ValueText(l, ms[0], level) + Tail(l, ms[1..], level, false, ']');
    var q := p.(state := ArrValue0);
    TailOfElements(l, ms, level, false);
    FeedOne(p, d, ',', Newline(l) + (Indent(l, level) + rest));
    FeedSpaces(q, Left(d), Newline(l), Indent(l, level) + rest);
    FeedSpaces(q, Left(d), Indent(l, level), rest);
    ElementFails(q, Left(d), l, ms, level);
  }
}
