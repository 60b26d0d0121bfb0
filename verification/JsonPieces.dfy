/**
 Reading back what was printed.  Every lemma says what `Feed` does on one piece of printed
 text, for any parser and any open nodes in the stated situation.
 */
module JsonPieces {
  import opened Chars
  import opened SerializationTree
  import opened OpenNodes
  import opened JsonParser
  import opened JsonNesting
  import opened JsonText
  import JsonString

  // ---------------------------------------------------------------- small pieces

  lemma FeedOne(p: Parser, d: Stack, c: char, rest: string)
    requires Valid(p) && Depth(d) > Open(p) && Step(p, d, c).Ret? && Step(p, d, c).code == 0
    ensures Valid(Step(p, d, c).p) && Depth(Step(p, d, c).d) > Open(Step(p, d, c).p)
    ensures Feed(p, d, [c] + rest) == Feed(Step(p, d, c).p, Step(p, d, c).d, rest)
  {
    StepKeeps(p, d, Depth(d) - Open(p), c);
    assert ([c] + rest)[1..] == rest;
  }

  lemma FeedSameStep(p: Parser, d: Stack, q: Parser, d': Stack, s: string)
    requires Valid(p) && Depth(d) > Open(p) && Valid(q) && Depth(d') > Open(q)
    requires s != [] && Step(p, d, s[0]) == Step(q, d', s[0])
    ensures Feed(p, d, s) == Feed(q, d', s)
  {
    hide Step;
  }

  predicate SkipsSpace(s: State) {
    s in {BeforeStart, Obj, ObjAfterName, ObjE, ObjNextMember0, Arr, ArrValue0, ArrE}
  }

  lemma SpaceStep(p: Parser, d: Stack, c: char)
    requires Valid(p) && SkipsSpace(p.state) && IsSpace(c)
    ensures Step(p, d, c) == Ret(0, p, d)
  {
    hide Quiet, Open, InPlainName, InName, BeginObjectMember, AfterMember, AfterElement, InString, InNumber,
         InReal, InToken, InComment;
  }

  lemma {:induction false} FeedSpaces(p: Parser, d: Stack, s: string, rest: string)
    requires Valid(p) && Depth(d) > Open(p) && SkipsSpace(p.state) && AllSpace(s)
    ensures Feed(p, d, s + rest) == Feed(p, d, rest)
    decreases |s|
  {
    hide Feed, Step, Valid, Open, IsSpace;
    if s == [] {
      assert s + rest == rest;
    } else {
      assert s + rest == [s[0]] + (s[1..] + rest);
      SpaceStep(p, d, s[0]);
      FeedOne(p, d, s[0], s[1..] + rest);
      FeedSpaces(p, d, s[1..], rest);
    }
  }

  // ---------------------------------------------------------------- names

  /** A string reader inside a name moves as it would alone. */
  lemma {:induction false} FeedInName(p: Parser, d: Stack, s: string, rest: string)
    requires Valid(p) && Depth(d) > Open(p) && p.state == ObjName
    requires JsonString.Feed(p.sp, s).StringStep? && !JsonString.Feed(p.sp, s).done
    ensures Valid(p.(sp := JsonString.Feed(p.sp, s).sp))
    ensures Feed(p, d, s + rest) == Feed(p.(sp := JsonString.Feed(p.sp, s).sp), d, rest)
    decreases |s|
  {
    if s == [] {
      assert s + rest == rest;
      assert p.(sp := p.sp) == p;
    } else {
      assert s + rest == [s[0]] + (s[1..] + rest);
      FeedOne(p, d, s[0], s[1..] + rest);
      FeedInName(Step(p, d, s[0]).p, d, s[1..], rest);
    }
  }

  lemma {:induction false} FeedInPlainName(p: Parser, d: Stack, s: string, rest: string)
    requires Valid(p) && Depth(d) > Open(p) && p.state == ObjPlainName
    requires forall i :: 0 <= i < |s| ==> IsAlnum(s[i])
    ensures Feed(p, d, s + rest) == Feed(p.(token := p.token + s), d, rest)
    decreases |s|
  {
    if s == [] {
      assert s + rest == rest && p.token + s == p.token;
      assert p.(token := p.token) == p;
    } else {
      assert s + rest == [s[0]] + (s[1..] + rest);
      FeedOne(p, d, s[0], s[1..] + rest);
      FeedInPlainName(p.(token := p.token + [s[0]]), d, s[1..], rest);
      assert p.token + [s[0]] + s[1..] == p.token + s;
    }
  }

  predicate StartsName(s: State) { s == Obj || s == ObjNextMember0 }

  /** A member or element is begun and its inner parser has just been started. */
  ghost predicate AtValue(q: Parser) {
    && q.Parser? && Valid(q) && q.state in {ObjValue, ArrValue}
    && q.next.Parser? && q.next.state == BeforeStart && Open(q) == 1
  }

  ghost predicate AtMember(q: Parser) {
    AtValue(q) && q.state == ObjValue
  }

  lemma ColonBeginsMember(p: Parser, d: Stack, name: string)
    requires Valid(p) && Depth(d) > Open(p)
    requires (p.state == ObjAfterName && p.sp.str == name) || (p.state == ObjPlainName && p.token == name)
    ensures var r := Step(p, d, ':');
            r.Ret? && r.code == 0 && AtMember(r.p) && r.d == BeginMember(d, Utf8(name))
  {
    hide FirstStep, ValueStart, NameStart, InName, AfterMember, AfterElement, ObjectEnd, ArrayEnd, InString, InNumber,
         InReal, InToken, InComment, Quiet;
    InnerIsBegun(p);
    hide Inner;
  }

  /** From the opening quote up to, not including, the closing one. */
  lemma FeedOpenName(p: Parser, d: Stack, name: string, rest: string) returns (q: Parser)
    requires Valid(p) && Depth(d) > Open(p) && StartsName(p.state)
    ensures Valid(q) && q.state == ObjName && q.sp.state == JsonString.Plain && q.sp.str == name
    ensures Feed(p, d, ['"'] + (JsonString.Escape(name) + rest)) == Feed(q, d, rest)
  {
    var esc := JsonString.Escape(name);
    FeedOne(p, d, '"', esc + rest);
    var p1 := Step(p, d, '"').p;
    JsonString.FeedEscape(p1.sp, name);
    FeedInName(p1, d, esc, rest);
    assert p1.sp.str + name == name;
    q := p1.(sp := JsonString.Feed(p1.sp, esc).sp);
  }

  lemma ClosingQuote(p: Parser, d: Stack)
    requires Valid(p) && p.state == ObjName && p.sp.state == JsonString.Plain
    ensures var q := p.(state := ObjAfterName); Step(p, d, '"') == Ret(0, q, d) && Valid(q) && Open(p) == Open(q) == 0
  {
    hide Quiet, FirstStep, ValueStart, NameStart, InPlainName, BeginObjectMember, AfterMember, AfterElement, ObjectEnd,
         ArrayEnd, InString, InNumber, InReal, InToken, InComment;
  }

  lemma FeedQuotedName(p: Parser, d: Stack, name: string, rest: string) returns (q: Parser)
    requires Valid(p) && Depth(d) > Open(p) && StartsName(p.state)
    ensures Valid(q) && q.state == ObjAfterName && q.sp.str == name
    ensures Feed(p, d, "\"" + JsonString.Escape(name) + "\"" + rest) == Feed(q, d, rest)
  {
    hide Feed, Step, JsonString.Escape, Open, Quiet;
    var esc := JsonString.Escape(name);
    assert "\"" + esc + "\"" + rest == ['"'] + (esc + (['"'] + rest));
    var p1 := FeedOpenName(p, d, name, ['"'] + rest);
    ClosingQuote(p1, d);
    FeedOne(p1, d, '"', rest);
    q := p1.(state := ObjAfterName);
  }

  lemma FeedQuotedKey(p: Parser, d: Stack, name: string, rest: string) returns (q: Parser)
    requires Valid(p) && Depth(d) > Open(p) && StartsName(p.state)
    ensures AtMember(q)
    ensures Feed(p, d, "\"" + JsonString.Escape(name) + "\"" + ([':'] + rest)) == Feed(q, BeginMember(d, Utf8(name)), rest)
  {
    var p1 := FeedQuotedName(p, d, name, [':'] + rest);
    hide Feed, Step, JsonString.Escape, Quiet;
    ColonBeginsMember(p1, d, name);
    FeedOne(p1, d, ':', rest);
    q := Step(p1, d, ':').p;
  }

  lemma StartPlainName(p: Parser, d: Stack, c: char)
    requires Valid(p) && StartsName(p.state) && IsAlpha(c)
    ensures Step(p, d, c) == Ret(0, p.(state := ObjPlainName, token := [c]), d)
    ensures Valid(p.(state := ObjPlainName, token := [c]))
  {
  }

  lemma FeedPlainKey(p: Parser, d: Stack, name: string, rest: string) returns (q: Parser)
    requires Valid(p) && Depth(d) > Open(p) && StartsName(p.state) && IsPlain(name) && '_' !in name
    ensures AtMember(q)
    ensures Feed(p, d, name + ([':'] + rest)) == Feed(q, BeginMember(d, Utf8(name)), rest)
  {
    assert name + ([':'] + rest) == [name[0]] + (name[1..] + ([':'] + rest));
    StartPlainName(p, d, name[0]);
    FeedOne(p, d, name[0], name[1..] + ([':'] + rest));
    var p1 := p.(state := ObjPlainName, token := [name[0]]);
    FeedInPlainName(p1, d, name[1..], [':'] + rest);
    assert [name[0]] + name[1..] == name;
    var p2 := p1.(token := name);
    ColonBeginsMember(p2, d, name);
    FeedOne(p2, d, ':', rest);
    q := Step(p2, d, ':').p;
  }

  /** A key the reader takes back: not empty, and not an unquoted name with an underscore. */
  predicate KeyReadable(l: Layout, name: string) {
    name != "" && !(l.plainkey && IsPlain(name) && '_' in name)
  }

  lemma FeedBlankBeforeValue(q: Parser, d: Stack, l: Layout, rest: string)
    requires AtMember(q) && Depth(d) > Open(q)
    ensures Feed(q, d, (if l.beautify then " " else "") + rest) == Feed(q, d, rest)
  {
    if l.beautify {
      assert Step(q.next, d, ' ') == Ret(0, q.next, d);
      assert q.(next := q.next) == q;
      FeedOne(q, d, ' ', rest);
    } else {
      assert "" + rest == rest;
    }
  }

  lemma KeyTextParts(l: Layout, name: string, rest: string)
    requires name != ""
    ensures var tail := [':'] + ((if l.beautify then " " else "") + rest);
            KeyText(l, name) + rest ==
            if l.plainkey && IsPlain(name) then name + tail else "\"" + JsonString.Escape(name) + "\"" + tail
  {
    hide IsPlain, JsonString.Escape;
    var blank := if l.beautify then " " else "";
    var quoted := if l.plainkey && IsPlain(name) then name else "\"" + JsonString.Escape(name) + "\"";
    assert quoted + ":" + blank + rest == quoted + ([':'] + (blank + rest));
  }

  lemma FeedKey(p: Parser, d: Stack, l: Layout, name: string, rest: string) returns (q: Parser)
    requires Valid(p) && Depth(d) > Open(p) && StartsName(p.state) && KeyReadable(l, name)
    ensures AtMember(q)
    ensures Feed(p, d, KeyText(l, name) + rest) == Feed(q, BeginMember(d, Utf8(name)), rest)
  {
    var rest' := (if l.beautify then " " else "") + rest;
    KeyTextParts(l, name, rest);
    if l.plainkey && IsPlain(name) {
      q := FeedPlainKey(p, d, name, rest');
    } else {
      q := FeedQuotedKey(p, d, name, rest');
    }
    FeedBlankBeforeValue(q, BeginMember(d, Utf8(name)), l, rest);
  }

  // ---------------------------------------------------------------- scalars

  /** What the printer puts after a value inside a container. */
  predicate IsDelimiter(c: char) {
    c == ',' || c == '}' || c == ']' || IsSpace(c)
  }

  lemma {:induction false} FeedInString(p: Parser, d: Stack, s: string, rest: string)
    requires Valid(p) && Depth(d) > Open(p) && p.state == Str
    requires JsonString.Feed(p.sp, s).StringStep? && !JsonString.Feed(p.sp, s).done
    ensures Valid(p.(sp := JsonString.Feed(p.sp, s).sp))
    ensures Feed(p, d, s + rest) == Feed(p.(sp := JsonString.Feed(p.sp, s).sp), d, rest)
    decreases |s|
  {
    if s == [] {
      assert s + rest == rest;
      assert p.(sp := p.sp) == p;
    } else {
      assert s + rest == [s[0]] + (s[1..] + rest);
      FeedOne(p, d, s[0], s[1..] + rest);
      FeedInString(Step(p, d, s[0]).p, d, s[1..], rest);
    }
  }

  lemma FeedOpenQuote(p: Parser, d: Stack, rest: string)
    requires Valid(p) && p.state == BeforeStart
    ensures Valid(p.(state := Str)) && Open(p.(state := Str)) == 0 && p.sp.Clean()
    ensures Feed(p, d, ['"'] + rest) == Feed(p.(state := Str), SetCategory(d, Value), rest)
  {
    FeedOne(p, d, '"', rest);
  }

  lemma FeedCloseQuote(p: Parser, d: Stack)
    requires Valid(p) && p.state == Str && p.sp.state == JsonString.Plain
    ensures var r := Feed(p, d, "\"");
            r.Fed? && r.code == 1 && r.rest == [] && r.p.state == End && r.d == SetTypeName(SetValue(d, p.sp.str), "string")
  {
  }

  /** Up to, not including, the closing quote. */
  lemma FeedOpenString(p: Parser, d: Stack, value: string, rest: string) returns (q: Parser)
    requires Valid(p) && Open(p) == 0 && p.state == Str && p.sp.Clean()
    ensures Valid(q) && Open(q) == 0 && q.state == Str && q.sp.state == JsonString.Plain && q.sp.str == value
    ensures Feed(p, d, JsonString.Escape(value) + rest) == Feed(q, d, rest)
  {
    hide Feed, Step, Quiet, JsonString.Escape, JsonString.Feed;
    var esc := JsonString.Escape(value);
    JsonString.FeedEscape(p.sp, value);
    FeedInString(p, d, esc, rest);
    assert p.sp.str + value == value;
    q := p.(sp := JsonString.Feed(p.sp, esc).sp);
  }

  lemma FeedStringValue(p: Parser, d: Stack, value: string)
    requires Valid(p) && p.state == BeforeStart
    ensures var r := Feed(p, d, "\"" + JsonString.Escape(value) + "\"");
            r.Fed? && r.code == 1 && r.rest == [] && r.p.state == End && r.d == SetTypeName(SetValue(SetCategory(d, Value), value), "string")
  {
    var esc := JsonString.Escape(value);
    assert "\"" + esc + "\"" == ['"'] + (esc + "\"");
    hide Feed, Step, Quiet, JsonString.Escape, Valid, Open;
    FeedOpenQuote(p, d, esc + "\"");
    var q := FeedOpenString(p.(state := Str), SetCategory(d, Value), value, "\"");
    FeedCloseQuote(q, SetCategory(d, Value));
  }

  /** One more character of a number, of its fraction and of a word. */
  lemma DigitStep(p: Parser, d: Stack, c: char)
    requires Valid(p) && p.state == Number && IsDigit(c)
    ensures Step(p, d, c) == Ret(0, p.(token := p.token + [c]), d) && Valid(p.(token := p.token + [c]))
  {
    hide FirstStep, ValueStart, NameStart, InPlainName, InName, BeginObjectMember, AfterMember, AfterElement,
         ObjectEnd, ArrayEnd, InString, InReal, InToken, InComment;
  }

  lemma RealStep(p: Parser, d: Stack, c: char)
    requires Valid(p) && p.state == Real && IsRealTail([c])
    ensures Step(p, d, c) == Ret(0, p.(token := p.token + [c]), d) && Valid(p.(token := p.token + [c]))
  {
    hide FirstStep, ValueStart, NameStart, InPlainName, InName, BeginObjectMember, AfterMember, AfterElement,
         ObjectEnd, ArrayEnd, InString, InNumber, InToken, InComment;
    assert [c][0] == c;
  }

  lemma LetterStep(p: Parser, d: Stack, c: char)
    requires Valid(p) && p.state == Token && IsAlpha(c)
    ensures Step(p, d, c) == Ret(0, p.(token := p.token + [c]), d) && Valid(p.(token := p.token + [c]))
  {
    hide FirstStep, ValueStart, NameStart, InPlainName, InName, BeginObjectMember, AfterMember, AfterElement,
         ObjectEnd, ArrayEnd, InString, InNumber, InReal, InComment;
  }

  lemma HeadOff(token: string, s: string, rest: string)
    requires s != []
    ensures s + rest == [s[0]] + (s[1..] + rest) && token + [s[0]] + s[1..] == token + s
  {
  }

  lemma {:induction false} FeedDigits(p: Parser, d: Stack, s: string, rest: string)
    requires Valid(p) && Depth(d) > Open(p) && p.state == Number && AllDigits(s)
    ensures Feed(p, d, s + rest) == Feed(p.(token := p.token + s), d, rest)
    decreases |s|
  {
    assert p.Parser?;
    hide Feed, Step, Valid, Open;
    if s == [] {
      assert s + rest == rest && p.token + s == p.token;
      assert p.(token := p.token) == p;
    } else {
      HeadOff(p.token, s, rest);
      DigitStep(p, d, s[0]);
      FeedOne(p, d, s[0], s[1..] + rest);
      FeedDigits(p.(token := p.token + [s[0]]), d, s[1..], rest);
    }
  }

  lemma {:induction false} FeedRealTail(p: Parser, d: Stack, s: string, rest: string)
    requires Valid(p) && Depth(d) > Open(p) && p.state == Real && IsRealTail(s)
    ensures Feed(p, d, s + rest) == Feed(p.(token := p.token + s), d, rest)
    decreases |s|
  {
    assert p.Parser?;
    hide Feed, Step, Valid, Open;
    if s == [] {
      assert s + rest == rest && p.token + s == p.token;
      assert p.(token := p.token) == p;
    } else {
      HeadOff(p.token, s, rest);
      RealStep(p, d, s[0]);
      FeedOne(p, d, s[0], s[1..] + rest);
      FeedRealTail(p.(token := p.token + [s[0]]), d, s[1..], rest);
    }
  }

  lemma {:induction false} FeedWord(p: Parser, d: Stack, s: string, rest: string)
    requires Valid(p) && Depth(d) > Open(p) && p.state == Token
    requires forall i :: 0 <= i < |s| ==> IsAlpha(s[i])
    ensures Feed(p, d, s + rest) == Feed(p.(token := p.token + s), d, rest)
    decreases |s|
  {
    assert p.Parser?;
    hide Feed, Step, Valid, Open;
    if s == [] {
      assert s + rest == rest && p.token + s == p.token;
      assert p.(token := p.token) == p;
    } else {
      HeadOff(p.token, s, rest);
      LetterStep(p, d, s[0]);
      FeedOne(p, d, s[0], s[1..] + rest);
      FeedWord(p.(token := p.token + [s[0]]), d, s[1..], rest);
    }
  }

  lemma StartNumber(p: Parser, d: Stack, c: char)
    requires Valid(p) && p.state == BeforeStart && (IsDigit(c) || c == '+' || c == '-')
    ensures Step(p, d, c) == Ret(0, p.(state := Number, token := [c]), SetCategory(d, Value))
    ensures Valid(p.(state := Number, token := [c]))
  {
  }

  lemma NumberTurnsReal(p: Parser, d: Stack, c: char)
    requires Valid(p) && p.state == Number && c in {'.', 'e', 'E'}
    ensures Step(p, d, c) == Ret(0, p.(state := Real, token := p.token + [c]), d)
    ensures Valid(p.(state := Real, token := p.token + [c]))
  {
  }

  lemma StartWord(p: Parser, d: Stack, c: char)
    requires Valid(p) && p.state == BeforeStart && IsAlpha(c)
    ensures Step(p, d, c) == Ret(0, p.(state := Token, token := [c]), d)
    ensures Valid(p.(state := Token, token := [c]))
  {
  }

  lemma FeedInt(p: Parser, d: Stack, s: string, rest: string) returns (q: Parser)
    requires Valid(p) && p.state == BeforeStart && IsIntText(s)
    ensures Valid(q) && q.state == Number && q.token == s
    ensures Feed(p, d, s + rest) == Feed(q, SetCategory(d, Value), rest)
  {
    assert s + rest == [s[0]] + (s[1..] + rest);
    StartNumber(p, d, s[0]);
    FeedOne(p, d, s[0], s[1..] + rest);
    var p1 := p.(state := Number, token := [s[0]]);
    FeedDigits(p1, SetCategory(d, Value), s[1..], rest);
    assert [s[0]] + s[1..] == s;
    q := p1.(token := s);
  }

  lemma FeedRealParts(p: Parser, d: Stack, whole: string, c: char, tail: string, rest: string) returns (q: Parser)
    requires Valid(p) && p.state == BeforeStart && IsIntText(whole) && c in {'.', 'e', 'E'} && IsRealTail(tail)
    ensures Valid(q) && q.state == Real && q.token == whole + [c] + tail
    ensures Feed(p, d, whole + ([c] + (tail + rest))) == Feed(q, SetCategory(d, Value), rest)
  {
    var d1 := SetCategory(d, Value);
    var p1 := FeedInt(p, d, whole, [c] + (tail + rest));
    NumberTurnsReal(p1, d1, c);
    FeedOne(p1, d1, c, tail + rest);
    var p2 := p1.(state := Real, token := whole + [c]);
    FeedRealTail(p2, d1, tail, rest);
    q := p2.(token := whole + [c] + tail);
  }

  lemma SplitText(s: string, k: nat, rest: string)
    requires SplitsReal(s, k)
    ensures k < |s| && IsIntText(s[..k]) && s[k] in {'.', 'e', 'E'} && IsRealTail(s[k + 1..])
    ensures s == s[..k] + [s[k]] + s[k + 1..] && s + rest == s[..k] + ([s[k]] + (s[k + 1..] + rest))
  {
    assert s[k + 1..] == s[k..][1..];
  }

  lemma FeedReal(p: Parser, d: Stack, s: string, rest: string) returns (q: Parser)
    requires Valid(p) && p.state == BeforeStart && IsRealText(s)
    ensures Valid(q) && q.state == Real && q.token == s
    ensures Feed(p, d, s + rest) == Feed(q, SetCategory(d, Value), rest)
  {
    hide Feed, Step, Valid, SplitsReal, IsIntText, IsRealTail;
    var k: nat :| SplitsReal(s, k);
    SplitText(s, k, rest);
    q := FeedRealParts(p, d, s[..k], s[k], s[k + 1..], rest);
  }

  lemma FeedKeyword(p: Parser, d: Stack, s: string, rest: string) returns (q: Parser)
    requires Valid(p) && p.state == BeforeStart && s in {"true", "false", "null"}
    ensures Valid(q) && q.state == Token && q.token == s
    ensures Feed(p, d, s + rest) == Feed(q, d, rest)
  {
    hide Feed, Step, Quiet;
    assert s + rest == [s[0]] + (s[1..] + rest);
    StartWord(p, d, s[0]);
    FeedOne(p, d, s[0], s[1..] + rest);
    var p1 := p.(state := Token, token := [s[0]]);
    FeedWord(p1, d, s[1..], rest);
    assert [s[0]] + s[1..] == s;
    q := p1.(token := s);
  }

  predicate PrintsBare(c: char) {
    0x20 <= c as int < 0x80 && c != '"' && c != '\\'
  }

  lemma {:induction false} EscapeBare(s: string)
    requires forall i :: 0 <= i < |s| ==> PrintsBare(s[i])
    ensures JsonString.Escape(s) == s
  {
    if s != [] {
      EscapeBare(s[1..]);
      assert s == [s[0]] + s[1..];
    }
  }

  lemma NumbersPrintBare(s: string)
    requires IsIntText(s) || IsRealText(s)
    ensures JsonString.Escape(s) == s
  {
    if IsIntText(s) {
      assert forall i :: 1 <= i < |s| ==> s[i] == s[1..][i - 1];
    } else {
      var k: nat :| SplitsReal(s, k);
      var whole := s[..k];
      assert forall i :: 1 <= i < k ==> s[i] == whole[1..][i - 1];
      assert forall i :: k <= i < |s| ==> s[i] == s[k..][i - k];
    }
    EscapeBare(s);
  }
}
