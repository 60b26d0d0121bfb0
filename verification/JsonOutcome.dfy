/**
 What reading a text delivers in the end, `finish` included: exactly for which texts the tree is
 one the parser builds properly, decided by looking at the text.
 */
module JsonOutcome {
  import opened Wrappers
  import opened Chars
  import opened SerializationTree
  import opened OpenNodes
  import opened JsonParser
  import opened JsonNesting
  import opened JsonText
  import opened JsonDocument
  import opened JsonShape
  import JsonRoundTrip
  import JsonString

  // ---- the text ----

  /** The text behind the next line end. */
  function AfterLine(s: string): string {
    if s == [] then [] else if s[0] == '\n' then s[1..] else AfterLine(s[1..])
  }

  /** The text behind the next end of a block comment. */
  function AfterBlock(s: string): string {
    if |s| < 2 then [] else if s[0] == '*' && s[1] == '/' then s[2..] else AfterBlock(s[1..])
  }

  lemma {:induction false} AfterIsShorter(s: string)
    ensures |AfterLine(s)| <= |s| && |AfterBlock(s)| <= |s|
    decreases |s|
  {
    if s != [] {
      AfterIsShorter(s[1..]);
    }
  }

  /** The text behind leading blanks and comments. */
  function Unled(s: string): string
    decreases |s|
  {
    if s == [] then []
    else if IsSpace(s[0]) then Unled(s[1..])
    else if |s| >= 2 && s[0] == '/' && s[1] == '/' then
      AfterIsShorter(s[2..]);
      Unled(AfterLine(s[2..]))
    else if |s| >= 2 && s[0] == '/' && s[1] == '*' then
      AfterIsShorter(s[2..]);
      Unled(AfterBlock(s[2..]))
    else s
  }

  predicate StartsNumber(c: char) {
    IsDigit(c) || c == '+' || c == '-'
  }

  predicate StartsWord(c: char) {
    !StartsNumber(c) && !IsSpace(c) && c != '{' && c != '[' && c != '"' && c != '/'
  }

  /** What is left behind the digits of a number, or behind the fraction it goes on to. */
  function BehindNumber(s: string, fraction: bool): string
    decreases |s|
  {
    if s == [] then []
    else if fraction then (if IsRealChar(s[0]) then BehindNumber(s[1..], true) else s)
    else if s[0] == '.' || s[0] == 'e' || s[0] == 'E' then BehindNumber(s[1..], true)
    else if IsDigit(s[0]) then BehindNumber(s[1..], false)
    else s
  }

  /** A root number with a character behind it. */
  predicate NumberAndMore(s: string) {
    var u := Unled(s);
    u != [] && StartsNumber(u[0]) && BehindNumber(u[1..], false) != []
  }

  predicate AllAlpha(s: string) {
    forall i :: 0 <= i < |s| ==> IsAlpha(s[i])
  }

  lemma AllAlphaFirst(s: string)
    requires s != []
    ensures AllAlpha(s) <==> IsAlpha(s[0]) && AllAlpha(s[1..])
  {
    hide IsAlpha;
    assert forall i :: 1 <= i < |s| ==> s[i] == s[1..][i - 1];
  }

  /** A text that ends in a root word other than the three known ones. */
  predicate UnknownWord(s: string) {
    var u := Unled(s);
    u != [] && StartsWord(u[0]) && AllAlpha(u[1..]) && u !in {"true", "false", "null"}
  }

  // ---- leading blanks and comments ----

  /** Nothing of a value was seen, or the text is refused. */
  ghost predicate NothingYet(r: Fed) {
    r.Failed? || (r.code == 0 && r.p.Parser? && r.p.Base() in {BeforeStart, Null})
  }

  lemma NothingIsNothing(r: Fed)
    requires NothingYet(r) && r.Fed?
    ensures Finish(r.p, r.d) == None
  {
  }

  /** The parser is back where a value may start, with the rest of the text, or the text is over. */
  ghost predicate GoesOn(r: Fed, q: Parser, d: Stack, rest: string) {
    (NothingYet(r) && rest == []) || (Valid(q) && Depth(d) > Open(q) && r == Feed(q, d, rest))
  }

  lemma FeedEnd(p: Parser, d: Stack)
    requires Valid(p) && Depth(d) > Open(p)
    ensures Feed(p, d, []) == Fed(0, [], p, d)
  {
  }

  lemma FeedHead(p: Parser, d: Stack, s: string)
    requires Valid(p) && Depth(d) > Open(p) && s != []
    ensures match Step(p, d, s[0])
            case Fail(e) => Feed(p, d, s) == Failed(e)
            case Ret(code, q, d') =>
              Valid(q) && Depth(d') > Open(q) && Feed(p, d, s) == if code == 0 then Feed(q, d', s[1..]) else Fed(code, s[1..], q, d')
  {
    hide Step;
    StepKeeps(p, d, Depth(d) - Open(p), s[0]);
  }

  lemma {:induction false} LineComment(p: Parser, d: Stack, s: string)
    requires Valid(p) && p.state == CommentLine && p.nextState == Null
    ensures GoesOn(Feed(p, d, s), p.(state := Null), d, AfterLine(s))
    decreases |s|
  {
    hide Feed;
    if s == [] {
      FeedEnd(p, d);
    } else {
      FeedHead(p, d, s);
      if s[0] != '\n' {
        LineComment(p, d, s[1..]);
      }
    }
  }

  /** In a block comment, behind a star or not. */
  lemma {:induction false} BlockComment(p: Parser, d: Stack, s: string)
    requires Valid(p) && p.state in {Comment, CommentE} && p.nextState == Null
    ensures var text := if p.state == CommentE then ['*'] + s else s;
            GoesOn(Feed(p, d, s), p.(state := Null), d, AfterBlock(text))
    decreases |s|
  {
    hide Feed;
    var text := if p.state == CommentE then ['*'] + s else s;
    if s == [] {
      FeedEnd(p, d);
    } else {
      FeedHead(p, d, s);
      var q := Step(p, d, s[0]).p;
      if p.state == CommentE {
        assert text[1..] == s && text[0] == '*' && text[1] == s[0];
        if s[0] == '/' {
          assert text[2..] == s[1..];
        } else {
          BlockComment(q, d, s[1..]);
          assert s[0] == '*' ==> ['*'] + s[1..] == s;
          if s[0] != '*' {
            StarSkipped(s);
          }
        }
      } else {
        BlockComment(q, d, s[1..]);
        if s[0] == '*' {
          assert ['*'] + s[1..] == s;
        } else {
          StarSkipped(s);
        }
      }
    }
  }

  lemma StarSkipped(s: string)
    requires s != [] && s[0] != '*'
    ensures AfterBlock(s) == AfterBlock(s[1..])
  {
  }

  lemma SlashStep(p: Parser, d: Stack)
    requires Valid(p) && p.state in {BeforeStart, Null}
    ensures var q := p.(state := Comment0, nextState := Null);
            Valid(q) && Open(p) == Open(q) == 0 && Step(p, d, '/') == Ret(0, q, d)
  {
    hide NameStart, InPlainName, InName, BeginObjectMember, AfterMember, AfterElement, ObjectEnd, ArrayEnd, InString,
         InNumber, InReal, InToken, InComment, Quiet;
  }

  lemma SlashStarts(p: Parser, d: Stack, s: string)
    requires Valid(p) && p.state in {BeforeStart, Null} && s != [] && s[0] == '/'
    ensures var q := p.(state := Comment0, nextState := Null);
            Valid(q) && Feed(p, d, s) == Feed(q, d, s[1..])
  {
    SlashStep(p, d);
    hide Feed, Step, Valid, Open;
    FeedHead(p, d, s);
  }

  /** The opening of a comment, or something that is none. */
  lemma CommentOpens(p: Parser, d: Stack, s: string)
    requires Valid(p) && p.state == Comment0 && p.nextState == Null
    ensures var q := p.(state := if s != [] && s[0] == '/' then CommentLine else Comment);
            if s != [] && s[0] in {'/', '*'} then Valid(q) && Feed(p, d, s) == Feed(q, d, s[1..])
            else NothingYet(Feed(p, d, s))
  {
    hide Feed;
    if s == [] {
      FeedEnd(p, d);
    } else {
      FeedHead(p, d, s);
    }
  }

  lemma BlankSkipped(p: Parser, d: Stack, s: string)
    requires Valid(p) && p.state in {BeforeStart, Null} && s != [] && IsSpace(s[0])
    ensures Feed(p, d, s) == Feed(p, d, s[1..])
  {
    hide Feed, Quiet;
    FeedHead(p, d, s);
  }

  /** Behind blanks and comments the parser is as it was, but for the two state fields. */
  predicate Waits(p: Parser, q: Parser) {
    Valid(q) && q.state in {BeforeStart, Null} && p.Parser? && q == p.(state := q.state, nextState := q.nextState)
  }

  lemma {:induction false} LeadSkipped(p: Parser, d: Stack, s: string) returns (q: Parser)
    requires p.Parser? && Valid(p) && p.state in {BeforeStart, Null}
    ensures Waits(p, q)
    ensures var u := Unled(s);
            if u == [] || u[0] == '/' then NothingYet(Feed(p, d, s)) else Feed(p, d, s) == Feed(q, d, u)
    decreases |s|
  {
    hide Feed, Valid, IsSpace, AfterLine, AfterBlock;
    q := p;
    if s == [] {
      FeedEnd(p, d);
    } else if IsSpace(s[0]) {
      BlankSkipped(p, d, s);
      q := LeadSkipped(p, d, s[1..]);
    } else if s[0] == '/' {
      SlashStarts(p, d, s);
      CommentOpens(p.(state := Comment0, nextState := Null), d, s[1..]);
      if |s| >= 2 && s[1] in {'/', '*'} {
        AfterIsShorter(s[2..]);
        assert s[1..][1..] == s[2..];
        var c := p.(state := if s[1] == '/' then CommentLine else Comment, nextState := Null);
        var rest := if s[1] == '/' then AfterLine(s[2..]) else AfterBlock(s[2..]);
        if s[1] == '/' {
          LineComment(c, d, s[2..]);
        } else {
          BlockComment(c, d, s[2..]);
        }
        var n := c.(state := Null);
        if Valid(n) && Feed(c, d, s[2..]) == Feed(n, d, rest) {
          q := LeadSkipped(n, d, rest);
        }
      }
    }
  }

  // ---- what starts behind them ----

  /** The first character of a value at the root. */
  lemma ValueOpens(p: Parser, s: string)
    requires p.Parser? && Valid(p) && p.state in {BeforeStart, Null} && s != [] && !IsSpace(s[0]) && s[0] != '/'
    ensures var q := p.(state := if s[0] == '{' then Obj else if s[0] == '[' then Arr else if s[0] == '"' then Str
                                 else if StartsNumber(s[0]) then Number else Token,
                        token := if StartsNumber(s[0]) || StartsWord(s[0]) then [s[0]] else p.token);
            var d := if s[0] == '{' then SetCategory(EMPTY, Object) else if s[0] == '[' then SetCategory(EMPTY, Array)
                     else if StartsWord(s[0]) then EMPTY else SetCategory(EMPTY, Value);
            Valid(q) && Open(q) == 0 && Feed(p, EMPTY, s) == Feed(q, d, s[1..])
  {
    hide Feed;
    FeedHead(p, EMPTY, s);
  }

  /** The digits of a number: the text ends with them, or the next character empties the token. */
  lemma {:induction false} NumberFed(p: Parser, d: Stack, s: string)
    requires Valid(p) && p.state in {Number, Real}
    ensures match Feed(p, d, s)
            case Failed(_) => false
            case Fed(code, _, q, d') =>
              && q.Parser? && q.state in {Number, Real}
              && (code == 0 <==> BehindNumber(s, p.state == Real) == [])
              && (code == 0 ==> d' == d)
              && (code != 0 ==> q.token == "" && d'.below == d.below && d'.top.name == d.top.name && d'.top.members == d.top.members)
    decreases |s|
  {
    hide Feed;
    if s == [] {
      FeedEnd(p, d);
    } else {
      NumberStep(p, d, s[0]);
      FeedHead(p, d, s);
      hide Step;
      var r := Step(p, d, s[0]);
      if r.code == 0 {
        NumberFed(r.p, d, s[1..]);
      }
    }
  }

  lemma NumberStep(p: Parser, d: Stack, c: char)
    requires Valid(p) && p.state in {Number, Real}
    ensures var r := Step(p, d, c);
            && r.Ret? && r.p.Parser? && r.p.state in {Number, Real}
            && (if p.state == Real then r.code == 0 <==> IsRealChar(c) else r.code == 0 <==> IsDigit(c) || c in {'.', 'e', 'E'})
            && (r.code == 0 ==> r.d == d && (r.p.state == Real <==> p.state == Real || !IsDigit(c)))
            && (r.code != 0 ==> r.p.token == "" && r.p.state == p.state
                                && r.d.below == d.below && r.d.top.name == d.top.name && r.d.top.members == d.top.members)
  {
    hide FirstStep, ValueStart, NameStart, InPlainName, InName, InString, InToken, InComment, BeginObjectMember;
    hide ObjectEnd, ArrayEnd, AfterMember, AfterElement, Quiet;
  }

  /** The letters of a word, up to the end of the text or to another character. */
  lemma {:induction false} WordFed(p: Parser, d: Stack, s: string)
    requires Valid(p) && p.state == Token
    ensures match Feed(p, d, s)
            case Failed(_) => !AllAlpha(s)
            case Fed(code, _, q, d') =>
              && q.Parser? && q.state == Token
              && (code == 0 <==> AllAlpha(s))
              && (if code == 0 then q.token == p.token + s && d' == d else q.token == "")
    decreases |s|
  {
    hide Feed, IsAlpha;
    if s == [] {
      FeedEnd(p, d);
      assert p.token + [] == p.token;
    } else {
      AllAlphaFirst(s);
      hide AllAlpha;
      WordStep(p, d, s[0]);
      FeedHead(p, d, s);
      hide Step;
      var r := Step(p, d, s[0]);
      if r.Ret? && r.code == 0 {
        WordFed(r.p, d, s[1..]);
        assert p.token + [s[0]] + s[1..] == p.token + s;
      }
    }
  }

  lemma WordStep(p: Parser, d: Stack, c: char)
    requires Valid(p) && p.state == Token
    ensures match Step(p, d, c)
            case Fail(_) => !IsAlpha(c)
            case Ret(code, q, d') =>
              && q.Parser? && q.state == Token && (code == 0 <==> IsAlpha(c))
              && (if code == 0 then q.token == p.token + [c] && d' == d else q.token == "")
  {
    hide FirstStep, ValueStart, NameStart, InPlainName, InName, InString, InNumber, InReal, InComment, BeginObjectMember;
    hide ObjectEnd, ArrayEnd, AfterMember, AfterElement, Quiet;
  }

  /** A parser that is in a string, in an object, in an array or behind one. */
  predicate Contained(p: Parser) {
    p.Parser? && p.Base() !in {BeforeStart, Null, Number, Real, Token}
  }

  lemma ObjectStaysContained(p: Parser, d: Stack, c: char)
    requires Valid(p) && p.state in {Obj, ObjPlainName, ObjName, ObjAfterName, ObjValue, ObjE, ObjNextMember0, ObjNextMember}
    ensures Step(p, d, c).Ret? ==> Contained(Step(p, d, c).p)
  {
    hide FirstStep, ValueStart, InNumber, InReal, InToken, InString, InComment, ArrayEnd, AfterElement, Quiet, LeaveMember, BeginMember;
  }

  lemma ArrayStaysContained(p: Parser, d: Stack, c: char)
    requires Valid(p) && p.state in {Arr, ArrValue0, ArrValue, ArrE}
    ensures Step(p, d, c).Ret? ==> Contained(Step(p, d, c).p)
  {
    hide FirstStep, ValueStart, InNumber, InReal, InToken, InString, InComment, ObjectEnd, AfterMember, Quiet, LeaveMember, BeginMember;
    hide NameStart, InPlainName, InName, BeginObjectMember;
  }

  lemma OtherStaysContained(p: Parser, d: Stack, c: char)
    requires Valid(p) && Contained(p) && (p.state.IsComment() || p.state == Str || p.state == End)
    ensures Step(p, d, c).Ret? ==> Contained(Step(p, d, c).p)
  {
    hide FirstStep, ValueStart, InNumber, InReal, InToken, ObjectEnd, AfterMember, ArrayEnd, AfterElement, Quiet, LeaveMember, BeginMember;
    hide NameStart, InPlainName, InName, BeginObjectMember;
  }

  lemma StepStaysContained(p: Parser, d: Stack, c: char)
    requires Valid(p) && Contained(p)
    ensures Step(p, d, c).Ret? ==> Contained(Step(p, d, c).p)
  {
    hide Step, Valid;
    if p.state.IsComment() || p.state == Str || p.state == End {
      OtherStaysContained(p, d, c);
    } else if p.state in {Arr, ArrValue0, ArrValue, ArrE} {
      ArrayStaysContained(p, d, c);
    } else {
      ObjectStaysContained(p, d, c);
    }
  }

  lemma {:induction false} FeedStaysContained(p: Parser, d: Stack, s: string)
    requires Valid(p) && Depth(d) > Open(p) && Contained(p)
    ensures Feed(p, d, s).Fed? ==> Contained(Feed(p, d, s).p)
    decreases |s|
  {
    hide Feed, Step, Contained;
    if s == [] {
      FeedEnd(p, d);
    } else {
      StepStaysContained(p, d, s[0]);
      FeedHead(p, d, s);
      var r := Step(p, d, s[0]);
      if r.Ret? && r.code == 0 {
        FeedStaysContained(r.p, r.d, s[1..]);
      }
    }
  }

  // ---- the tree that is delivered ----

  lemma EmptyNumber(n: Node)
    requires n.category == Value && n.typeName in {"int", "double"} && n.value == Some("")
    ensures !Shaped(n)
  {
    assert forall k :: !SplitsReal("", k);
  }

  /** What `finish` makes of a number whose token the parser has emptied. */
  lemma FinishEmptied(q: Parser, d: Stack)
    requires q.Parser? && q.state in {Number, Real} && q.token == ""
    requires d.below == [] && d.top.name == "" && d.top.members == []
    ensures Finish(q, d).Some?
    ensures var n := Finish(q, d).value.top;
            n == Node(Value, "", if q.state == Number then "int" else "double", Some(""), []) && !Shaped(n)
  {
    EmptyNumber(Finish(q, d).value.top);
  }

  /** A value at the root is well-shaped once the parser has reported its end, number tokens aside. */
  lemma FinishLeaves(q: Parser, d: Stack)
    requires Contained(q) || (q.Parser? && q.state == Token && q.token == "")
    ensures Finish(q, d).Some? ==> Finish(q, d).value == d
  {
  }

  /** The tree of a text, by what stands behind its leading blanks and comments. */
  ghost predicate Delivers(s: string, n: Node) {
    if NumberAndMore(s) then n in {Node(Value, "", "int", Some(""), []), Node(Value, "", "double", Some(""), [])} && !Shaped(n)
    else if UnknownWord(s) then n == FreshNode("") && !Shaped(n)
    else Shaped(n)
  }

  ghost predicate DeliversFrom(r: Fed, s: string) {
    r.Fed? && r.p.Parser? && Finish(r.p, r.d).Some? ==> Delivers(s, Finish(r.p, r.d).value.top)
  }

  lemma NumberDelivers(p: Parser, s: string)
    requires p.Parser? && Valid(p) && p.state in {BeforeStart, Null} && Building(p, EMPTY, 1)
    requires Unled(s) != [] && StartsNumber(Unled(s)[0])
    ensures DeliversFrom(Feed(p, EMPTY, Unled(s)), s)
  {
    hide Feed, Shaped, BehindNumber, Building, Unled, Valid, Quiet, Open, Step;
    var u := Unled(s);
    ValueOpens(p, u);
    var q, d := p.(state := Number, token := [u[0]]), SetCategory(EMPTY, Value);
    NumberFed(q, d, u[1..]);
    FeedBuilds(p, EMPTY, 1, u);
    var r := Feed(p, EMPTY, u);
    if r.code == 0 {
      if Finish(r.p, r.d).Some? {
        FinishBuilds(r.p, r.d);
      }
    } else {
      FinishEmptied(r.p, r.d);
    }
  }

  lemma FreshIsUnshaped()
    ensures !Shaped(FreshNode(""))
  {
  }

  lemma WordDelivers(p: Parser, s: string)
    requires p.Parser? && Valid(p) && p.state in {BeforeStart, Null} && Building(p, EMPTY, 1)
    requires Unled(s) != [] && StartsWord(Unled(s)[0])
    ensures DeliversFrom(Feed(p, EMPTY, Unled(s)), s)
  {
    hide Feed, Building, Unled, BehindNumber, Shaped, AllAlpha, Valid;
    var u := Unled(s);
    FreshIsUnshaped();
    ValueOpens(p, u);
    var q := p.(state := Token, token := [u[0]]);
    WordFed(q, EMPTY, u[1..]);
    FeedBuilds(p, EMPTY, 1, u);
    assert [u[0]] + u[1..] == u;
    var r := Feed(p, EMPTY, u);
    if r.Fed? && r.code != 0 {
      FinishLeaves(r.p, r.d);
    } else if r.Fed? && !EndsInUnknownWord(r.p) && Finish(r.p, r.d).Some? {
      FinishBuilds(r.p, r.d);
    }
  }

  lemma ContainerDelivers(p: Parser, s: string)
    requires p.Parser? && Valid(p) && p.state in {BeforeStart, Null} && Building(p, EMPTY, 1)
    requires Unled(s) != [] && Unled(s)[0] in {'{', '[', '"'}
    ensures DeliversFrom(Feed(p, EMPTY, Unled(s)), s)
  {
    hide Feed, Shaped, BehindNumber, Building;
    var u := Unled(s);
    ValueOpens(p, u);
    var q := p.(state := if u[0] == '{' then Obj else if u[0] == '[' then Arr else Str);
    var d := SetCategory(EMPTY, if u[0] == '{' then Object else if u[0] == '[' then Array else Value);
    FeedStaysContained(q, d, u[1..]);
    FeedBuilds(p, EMPTY, 1, u);
    var r := Feed(p, EMPTY, u);
    if r.Fed? {
      FinishLeaves(r.p, r.d);
      if r.code == 0 && Finish(r.p, r.d).Some? {
        FinishBuilds(r.p, r.d);
      }
    }
  }

  lemma WaitingBuilds(p: Parser, q: Parser)
    requires p.Parser? && Quiet(p) && Waits(Begin(p), q)
    ensures Building(q, EMPTY, 1)
  {
  }

  /**
   For every text and every idle parser: a tree that is delivered is well-shaped exactly if the
   text is neither a root number with a character behind it, which loses its digits, nor ends in
   an unknown root word, which leaves an empty node.
   */
  lemma EveryLoadedTree(p: Parser, s: string)
    requires p.Parser? && Quiet(p)
    ensures Load(p, s).Some? ==> Delivers(s, Load(p, s).value)
    ensures Load(p, s).Some? ==> (Shaped(Load(p, s).value) <==> !NumberAndMore(s) && !UnknownWord(s))
  {
    hide Load, Shaped, NumberAndMore, UnknownWord, Delivers;
    LoadDelivers(p, s);
    if Load(p, s).Some? {
      DeliversDecides(s, Load(p, s).value);
    }
  }

  lemma DeliversDecides(s: string, n: Node)
    requires Delivers(s, n)
    ensures Shaped(n) <==> !NumberAndMore(s) && !UnknownWord(s)
  {
    hide Shaped, NumberAndMore, UnknownWord;
  }

  lemma LoadDelivers(p: Parser, s: string)
    requires p.Parser? && Quiet(p)
    ensures Load(p, s).Some? ==> Delivers(s, Load(p, s).value)
  {
    hide Feed, Unled, Building, Finish, Valid, Delivers;
    var u := Unled(s);
    BeginIsValid(p);
    var q := LeadSkipped(Begin(p), EMPTY, s);
    var r := Feed(Begin(p), EMPTY, s);
    if r.Fed? {
      ValidIsParser(r.p);
    }
    if u == [] || u[0] == '/' {
      if r.Fed? {
        NothingIsNothing(r);
      }
    } else {
      UnledStarts(s);
      WaitingBuilds(p, q);
      if StartsNumber(u[0]) {
        NumberDelivers(q, s);
      } else if StartsWord(u[0]) {
        WordDelivers(q, s);
      } else {
        ContainerDelivers(q, s);
      }
    }
  }

  lemma ValidIsParser(p: Parser)
    requires Valid(p)
    ensures p.Parser?
  {
  }

  lemma {:induction false} UnledStarts(s: string)
    ensures Unled(s) != [] ==> !IsSpace(Unled(s)[0])
    decreases |s|
  {
    if s != [] {
      if IsSpace(s[0]) {
        UnledStarts(s[1..]);
      } else if |s| >= 2 && s[0] == '/' && s[1] == '/' {
        AfterIsShorter(s[2..]);
        UnledStarts(AfterLine(s[2..]));
      } else if |s| >= 2 && s[0] == '/' && s[1] == '*' {
        AfterIsShorter(s[2..]);
        UnledStarts(AfterBlock(s[2..]));
      }
    }
  }

  // ---- the two kinds of text, at their shortest ----

  /** A number and one blank: the digits are lost. */
  lemma NumberAndBlank(p: Parser)
    requires p.Parser? && Quiet(p)
    ensures NumberAndMore("1 ")
    ensures Load(p, "1 ") == Some(Node(Value, "", "int", Some(""), [])) && !Shaped(Load(p, "1 ").value)
  {
    hide Feed, Shaped, Step, Valid;
    var s, b := "1 ", Begin(p);
    NumberAndBlankText();
    BeginIsValid(p);
    ValueOpens(b, s);
    var q, d := b.(state := Number, token := ['1']), SetCategory(EMPTY, Value);
    assert s[1..] == " " && " "[1..] == [];
    FeedHead(q, d, " ");
    NumberStep(q, d, ' ');
    var r := Step(q, d, ' ');
    FinishEmptied(r.p, r.d);
  }

  lemma NumberAndBlankText()
    ensures NumberAndMore("1 ")
  {
    var s := "1 ";
    assert Unled(s) == s && s[1..] == " ";
    assert BehindNumber(" ", false) == " ";
  }

  /** A letter: an empty node is delivered. */
  lemma UnknownLetter(p: Parser)
    requires p.Parser? && Quiet(p)
    ensures UnknownWord("x")
    ensures Load(p, "x") == Some(FreshNode("")) && !Shaped(FreshNode(""))
  {
    hide Feed, Step, Valid, Unled, UnknownWord, Shaped, Quiet, Open;
    var s, b := "x", Begin(p);
    UnknownText();
    FreshIsUnshaped();
    assert s[1..] == [];
    BeginIsValid(p);
    ValueOpens(b, s);
    FeedEnd(b.(state := Token, token := ['x']), EMPTY);
  }

  lemma UnknownText()
    ensures UnknownWord("x")
  {
    assert Unled("x") == "x" && "x"[1..] == [];
  }

  /** An accepted text leaves an idle parser, ready for `begin`. */
  lemma AcceptedLeavesIdle(p: Parser, s: string)
    requires p.Parser? && Quiet(p) && Load(p, s).Some?
    ensures Valid(Begin(p)) && Open(Begin(p)) == 0
    ensures var r := Feed(Begin(p), EMPTY, s); r.Fed? && r.p.Parser? && Quiet(r.p)
  {
    hide Feed;
    BeginIsValid(p);
  }

  // ---- a parser that is not idle ----

  lemma OpenedString(p: Parser)
    requires p.Parser? && p.sp.Valid() && Quiet(p.next)
    ensures var q := p.(state := Str, token := ""); Valid(q) && Open(q) == 0
    ensures FirstStep(Begin(p), EMPTY, '"') == Ret(0, p.(state := Str, token := ""), SetCategory(EMPTY, Value))
  {
  }

  lemma LastInString(q: Parser, d: Stack, c: char)
    requires Valid(q) && Open(q) == 0 && q.state == Str
    ensures Feed(q, d, [c]) == match InString(q, d, c)
                               case Fail(e) => Failed(e)
                               case Ret(code, q', d') => Fed(code, [], q', d')
  {
    hide Feed, InString, Valid, Open;
    FeedHead(q, d, [c]);
    assert [c][1..] == [];
    match Step(q, d, c)
    case Fail(_) =>
    case Ret(_, q', d') => FeedEnd(q', d');
  }

  /** The first two characters of a string, by a parser that was given up before. */
  lemma QuoteOpens(p: Parser, c: char)
    requires p.Parser? && p.sp.Valid() && Quiet(p.next)
    ensures var r := FirstStep(Begin(p), EMPTY, '"');
            r == Ret(0, p.(state := Str, token := ""), SetCategory(EMPTY, Value)) && Valid(r.p) && Open(r.p) == 0
            && Feed(r.p, r.d, [c]) == match InString(r.p, r.d, c)
                                      case Fail(e) => Failed(e)
                                      case Ret(code, q, d) => Fed(code, [], q, d)
  {
    hide Feed, InString, FirstStep, Valid, Open, Quiet;
    OpenedString(p);
    LastInString(p.(state := Str, token := ""), SetCategory(EMPTY, Value), c);
  }

  /**
   `begin` leaves the string parser as it is, so it is up to the caller that the parser is idle:
   the empty string is read as such if and only if the string parser holds nothing.
   */
  lemma BeginNeedsCleanString(p: Parser)
    requires p.Parser? && p.sp.Valid() && Quiet(p.next)
    ensures var b := FirstStep(Begin(p), EMPTY, '"');
            b.Ret? && Valid(b.p) && Depth(b.d) > Open(b.p) &&
            var r := Feed(b.p, b.d, "\"");
            (r.Fed? && r.code == 1 && r.d.top == JsonRoundTrip.Leaf("", "string", Some(""))) <==> p.sp.Clean()
  {
    hide Feed;
    QuoteOpens(p, '"');
  }

  /** Two characters inside a string. */
  lemma TwoCharacters(q: Parser, d: Stack, s: string)
    requires Valid(q) && q.state == Str && |s| == 2 && s[0] != '"' && InString(q, d, s[0]).Ret?
    ensures var r := InString(q, d, s[0]);
            Valid(r.p) && r.p.state == Str && Feed(q, d, s) == match InString(r.p, d, s[1])
                                                              case Fail(e) => Failed(e)
                                                              case Ret(code, q', d') => Fed(code, [], q', d')
  {
    hide Feed;
    FeedHead(q, d, s);
    var p := Step(q, d, s[0]).p;
    assert s[1..] == [s[1]];
    LastInString(p, d, s[1]);
  }

  /** A parser left behind inside an escape misreads the next text: `"n"` becomes a line feed. */
  lemma EscapeMisread(p: Parser)
    requires p.Parser? && p.sp.Valid() && p.sp.state == JsonString.Esc && p.sp.str == "" && Quiet(p.next)
    ensures var b := FirstStep(Begin(p), EMPTY, '"');
            && b.Ret? && Valid(b.p) && Depth(b.d) > Open(b.p)
            && var r := Feed(b.p, b.d, "n\"");
               r.Fed? && r.code == 1 && r.d.top == JsonRoundTrip.Leaf("", "string", Some("\n"))
  {
    hide Feed, Step, Open, FirstStep, Quiet;
    QuoteOpens(p, 'n');
    TwoCharacters(p.(state := Str, token := ""), SetCategory(EMPTY, Value), "n\"");
    assert "" + "\n" == "\n";
  }

  /** Such a parser is what a text leaves behind that breaks off inside an escape. */
  lemma BrokenOffInEscape(p: Parser)
    requires p.Parser? && Quiet(p)
    ensures Feed(Begin(p), EMPTY, "\"\\") ==
            Fed(0, [], p.(state := Str, token := "", sp := p.sp.(state := JsonString.Esc)), SetCategory(EMPTY, Value))
  {
    hide Feed, Step, Open, FirstStep, Quiet;
    assert Quiet(p.next) && p.sp.Valid() && p.sp.Clean() by {
      QuietParts(p);
    }
    var text := "\"\\";
    BeginIsValid(p);
    ValueOpens(Begin(p), text);
    QuoteOpens(p, '\\');
    assert text[1..] == ['\\'];
  }

  lemma QuietParts(p: Parser)
    requires p.Parser? && Quiet(p)
    ensures Quiet(p.next) && p.sp.Valid() && p.sp.Clean()
  {
  }
}
