/**
 What every parser step keeps, for every input: the number of open nodes is one plus the
 members begun along the chain of inner parsers, nodes below the parser's own are not
 touched, and a member is never left that was not begun.
 */
module JsonNesting {
  import opened Chars
  import opened SerializationTree
  import opened OpenNodes
  import opened JsonParser

  /** `b` open nodes up to and including the one this parser fills. */
  ghost predicate Nested(p: Parser, d: Stack, b: nat) {
    Valid(p) && b >= 1 && Depth(d) == b + Open(p)
  }

  ghost predicate Keeps(d: Stack, b: nat, r: Outcome)
    requires 1 <= b <= Depth(d)
  {
    match r
    case Fail(e) => e == Syntax
    case Ret(code, p, d') =>
      && Nested(p, d', b)
      && d'.below[..b - 1] == d.below[..b - 1]
      && (code != 0 ==> Quiet(p) && Open(p) == 0)
  }

  /** The states that a value begins in. */
  lemma BegunIsValid(p: Parser, s: State, token: string)
    requires Valid(p) && p.state == Null && s in {Null, Obj, Arr, Str, Number, Token}
    ensures Valid(p.(state := s, token := token)) && Open(p.(state := s, token := token)) == 0
    ensures Valid(p.(nextState := Null, state := Comment0)) && Open(p.(nextState := Null, state := Comment0)) == 0
  {
    hide Quiet;
  }

  lemma ValueStartKeeps(p: Parser, d: Stack, ch: char)
    requires p.Parser? && Valid(p) && p.state == Null
    ensures Keeps(d, Depth(d), ValueStart(p, d, ch))
    ensures ValueStart(p, d, ch).Ret? && ValueStart(p, d, ch).code == 0
  {
    hide Quiet, Valid, Open, IsSpace, IsDigit;
    BegunIsValid(p, Obj, p.token);
    BegunIsValid(p, Arr, p.token);
    BegunIsValid(p, Str, p.token);
    BegunIsValid(p, Null, p.token);
    BegunIsValid(p, Number, [ch]);
    BegunIsValid(p, Token, [ch]);
  }

  lemma FirstStepKeeps(p: Parser, d: Stack, ch: char)
    requires Valid(p) && p.Base() in {BeforeStart, Null} && p.state in {BeforeStart, Null}
    ensures Keeps(d, Depth(d), FirstStep(p, d, ch))
    ensures Keeps(d, Depth(d), ValueStart(p.(state := Null), d, ch))
    ensures FirstStep(p, d, ch).Ret? && FirstStep(p, d, ch).code == 0
  {
    hide ValueStart, Quiet, IsSpace;
    ValueStartKeeps(p.(state := Null), d, ch);
  }

  /** The inner parser for the next element of an array. */
  lemma InnerIsBegun(p: Parser)
    requires p.Parser? && Quiet(p.next)
    ensures Valid(Inner(p)) && Inner(p).state == BeforeStart && Open(Inner(p)) == 0
  {
  }

  lemma InnerIsReady(p: Parser)
    requires Valid(p) && p.state in {Arr, ArrValue0}
    ensures Valid(Inner(p)) && Inner(p).state == BeforeStart && Open(Inner(p)) == 0
    ensures p.state == ArrValue0 ==> p.next.Parser? && Begin(p.next) == Inner(p)
  {
  }

  lemma ObjectEndKeeps(p: Parser, d: Stack, ch: char)
    requires Valid(p) && p.state == ObjE
    ensures Keeps(d, Depth(d), ObjectEnd(p, d, ch))
  {
  }

  lemma ArrayEndKeeps(p: Parser, d: Stack, ch: char)
    requires Valid(p) && p.state == ArrE && Depth(d) >= 2
    ensures Keeps(d, Depth(d) - 1, ArrayEnd(p, d, ch))
  {
  }

  /** Leaving a finished member gives back the nodes of the outer parser. */
  lemma AfterMemberKeeps(p: Parser, d: Stack, b: nat, r: Outcome, ch: char)
    requires Nested(p, d, b) && p.state == ObjValue && Keeps(d, b + 1, r)
    ensures Keeps(d, b, AfterMember(p, r, ch))
  {
    if r.Ret? {
      assert r.d.below[..b - 1] == r.d.below[..b][..b - 1] == d.below[..b][..b - 1] == d.below[..b - 1];
      if r.code != 0 {
        var d' := LeaveMember(r.d).value;
        assert d'.below[..b - 1] == d.below[..b - 1];
        var q := p.(next := r.p).(state := ObjE);
        ObjectEndKeeps(q, d', ch);
      }
    }
  }

  lemma AfterElementKeeps(p: Parser, d: Stack, b: nat, r: Outcome, ch: char)
    requires p.Parser? && p.sp.Clean() && p.sp.Valid() && p.state == ArrValue
    requires 1 <= b < Depth(d) && Keeps(d, b + 1, r)
    ensures Keeps(d, b, AfterElement(p, r, ch))
  {
    if r.Ret? {
      assert r.d.below[..b - 1] == r.d.below[..b][..b - 1] == d.below[..b][..b - 1] == d.below[..b - 1];
      if r.code == -1 {
        ArrayEndKeeps(p.(next := r.p).(state := ArrE), r.d, ch);
      }
    }
  }

  /** Steps of the parser itself outside of values: names, punctuation, scalars, comments. */
  lemma NameStepKeeps(p: Parser, d: Stack, ch: char)
    requires Valid(p) && p.state in {ObjPlainName, ObjName, ObjAfterName}
    ensures Keeps(d, Depth(d), Step(p, d, ch))
  {
    hide FirstStep, ValueStart, NameStart, InPlainName, InName, BeginObjectMember, AfterMember, AfterElement,
         ObjectEnd, ArrayEnd, InString, InNumber, InReal, InToken, InComment;
    if p.state == ObjPlainName {
      BeginMemberKeeps(p.(token := ""), d, p.token);
      PlainNameKeeps(p, d, ch);
    } else if p.state == ObjName {
      QuotedNameKeeps(p, d, ch);
    } else {
      BeginMemberKeeps(p, d, p.sp.str);
    }
  }

  lemma BeginMemberKeeps(p: Parser, d: Stack, name: string)
    requires p.Parser? && p.sp.Valid() && Quiet(p.next)
    ensures Keeps(d, Depth(d), BeginObjectMember(p, d, name))
  {
    assert BeginMember(d, Utf8(name)).below[..Depth(d) - 1] == d.below[..Depth(d) - 1];
  }

  lemma PlainNameKeeps(p: Parser, d: Stack, ch: char)
    requires Valid(p) && p.state == ObjPlainName
    requires Keeps(d, Depth(d), BeginObjectMember(p.(token := ""), d, p.token))
    ensures Keeps(d, Depth(d), InPlainName(p, d, ch))
  {
    hide BeginObjectMember, Quiet, IsAlnum, IsSpace;
  }

  lemma QuotedNameKeeps(p: Parser, d: Stack, ch: char)
    requires Valid(p) && p.state == ObjName
    ensures Keeps(d, Depth(d), InName(p, d, ch))
  {
  }

  lemma ObjectStepKeeps(p: Parser, d: Stack, ch: char)
    requires Valid(p) && p.state in {Obj, ObjE, ObjNextMember0, ObjNextMember}
    ensures Keeps(d, Depth(d), Step(p, d, ch))
  {
    hide FirstStep, ValueStart, InPlainName, InName, BeginObjectMember, AfterMember, AfterElement, ArrayEnd,
         InString, InNumber, InReal, InToken, InComment;
  }

  lemma WordStepKeeps(p: Parser, d: Stack, ch: char)
    requires Valid(p) && p.state in {Str, Token}
    ensures Keeps(d, Depth(d), Step(p, d, ch))
  {
    hide FirstStep, ValueStart, NameStart, InPlainName, InName, BeginObjectMember, AfterMember, AfterElement,
         ObjectEnd, ArrayEnd, InNumber, InReal, InComment;
  }

  lemma ScalarStepKeeps(p: Parser, d: Stack, ch: char)
    requires Valid(p) && p.state in {BeforeStart, Null, Number, Real, End}
    ensures Keeps(d, Depth(d), Step(p, d, ch))
  {
    if p.state in {BeforeStart, Null} {
      FirstStepKeeps(p, d, ch);
    }
  }

  lemma CommentStepKeeps(p: Parser, d: Stack, b: nat, ch: char)
    requires Nested(p, d, b) && p.state.IsComment()
    ensures Keeps(d, b, Step(p, d, ch))
  {
    hide FirstStep, ValueStart, NameStart, InPlainName, InName, BeginObjectMember, AfterMember, AfterElement,
         ObjectEnd, ArrayEnd, InString, InNumber, InReal, InToken;
  }

  /** The four things that can happen where an element may start. */
  lemma ArrayStep(p: Parser, d: Stack, ch: char)
    requires Valid(p) && p.state in {Arr, ArrValue0}
    ensures Step(p, d, ch) ==
            if ch == ']' then Ret(1, p.(state := End), d)
            else if p.state == Arr && ch == '/' then ToComment(p, d)
            else if IsSpace(ch) then Ret(0, p, d)
            else var r := FirstStep(Inner(p), BeginMember(d, ""), ch);
                 if r.Fail? then r else Ret(0, p.(next := r.p, state := ArrValue), r.d)
  {
    hide FirstStep, ValueStart, NameStart, InPlainName, InName, BeginObjectMember, AfterMember, ObjectEnd,
         ArrayEnd, InString, InNumber, InReal, InToken, InComment, Quiet, IsSpace;
    InnerIsReady(p);
    FirstStepKeeps(Inner(p), BeginMember(d, ""), ch);
    hide Inner, Begin, BeginMember;
  }

  lemma ShorterPrefix(x: seq<Node>, y: seq<Node>, a: Node)
    requires |x| > |y| && x[..|y| + 1] == y + [a]
    ensures x[..|y|] == y
  {
    assert x[..|y| + 1][..|y|] == x[..|y|];
  }

  lemma WithElement(p: Parser, q: Parser)
    requires Valid(p) && p.state in {Arr, ArrValue0} && Valid(q)
    ensures Valid(p.(next := q, state := ArrValue)) && Open(p.(next := q, state := ArrValue)) == 1 + Open(q)
    ensures Open(p) == 0
  {
  }

  /** The first character of an element, in the parser that is begun for it. */
  lemma ElementStartKeeps(p: Parser, d: Stack, ch: char)
    requires p.Parser? && Valid(p) && p.state in {Arr, ArrValue0}
    ensures var r := FirstStep(Inner(p), BeginMember(d, ""), ch);
            r.Ret? && Keeps(d, Depth(d), Ret(0, p.(next := r.p, state := ArrValue), r.d))
  {
    hide FirstStep, Quiet, Valid, Open, Inner;
    var q, d' := Inner(p), BeginMember(d, "");
    InnerIsReady(p);
    FirstStepKeeps(q, d', ch);
    var r := FirstStep(q, d', ch);
    WithElement(p, r.p);
    ShorterPrefix(r.d.below, d.below, Adopt(d.top, ""));
    assert d.below[..|d.below|] == d.below;
  }

  lemma NewElementKeeps(p: Parser, d: Stack, ch: char)
    requires Valid(p) && p.state in {Arr, ArrValue0}
    ensures Keeps(d, Depth(d), Step(p, d, ch))
  {
    hide Step, FirstStep, IsSpace, Inner, BeginMember;
    ArrayStep(p, d, ch);
    if ch == ']' || IsSpace(ch) || (p.state == Arr && ch == '/') {
    } else {
      ElementStartKeeps(p, d, ch);
      hide Keeps;
    }
  }

  /** The step theorem, for every parser, every stack and every character. */
  lemma {:induction false} StepKeeps(p: Parser, d: Stack, b: nat, ch: char)
    requires Nested(p, d, b)
    ensures Keeps(d, b, Step(p, d, ch))
    decreases p
  {
    hide FirstStep, NameStart, InPlainName, InName, InString, InNumber, InReal, InToken, InComment, BeginObjectMember;
    hide ObjectEnd, ArrayEnd, AfterMember, AfterElement, Quiet;
    if p.state == ObjValue {
      StepKeeps(p.next, d, b + 1, ch);
      AfterMemberKeeps(p, d, b, Step(p.next, d, ch), ch);
    } else if p.state == ArrValue {
      StepKeeps(p.next, d, b + 1, ch);
      AfterElementKeeps(p, d, b, Step(p.next, d, ch), ch);
    } else if p.state == ArrE {
      ArrayEndKeeps(p, d, ch);
    } else if p.state.IsComment() {
      CommentStepKeeps(p, d, b, ch);
    } else if p.state in {Arr, ArrValue0} {
      NewElementKeeps(p, d, ch);
    } else if p.state in {Str, Token} {
      WordStepKeeps(p, d, ch);
    } else if p.state in {BeforeStart, Null, Number, Real, End} {
      ScalarStepKeeps(p, d, ch);
    } else if p.state in {ObjPlainName, ObjName, ObjAfterName} {
      NameStepKeeps(p, d, ch);
    } else {
      ObjectStepKeeps(p, d, ch);
    }
  }

  // ---------------------------------------------------------------- whole inputs

  /** The result of feeding text: `rest` is what was not fed because the parser had finished. */
  datatype Fed = Failed(error: Error) | Fed(code: int, rest: string, p: Parser, d: Stack)

  /** Feeds characters until the parser finishes, fails or the text ends. */
  function Feed(p: Parser, d: Stack, s: string): (r: Fed)
    requires Valid(p) && Depth(d) > Open(p)
    ensures r.Failed? ==> r.error == Syntax
    ensures r.Fed? ==> Valid(r.p) && Depth(r.d) - Open(r.p) == Depth(d) - Open(p)
    ensures r.Fed? && r.code != 0 ==> Quiet(r.p) && Open(r.p) == 0
    ensures r.Fed? && r.code == 0 ==> r.rest == []
    decreases |s|
  {
    if s == [] then Fed(0, [], p, d)
    else
      StepKeeps(p, d, Depth(d) - Open(p), s[0]);
      match Step(p, d, s[0])
      case Fail(e) => Failed(e)
      case Ret(code, p', d') => if code == 0 then Feed(p', d', s[1..]) else Fed(code, s[1..], p', d')
  }

  lemma BeginIsValid(p: Parser)
    requires p.Parser? && Quiet(p)
    ensures Valid(Begin(p)) && Open(Begin(p)) == 0
  {
  }

  /**
   For every idle parser, new or used, and every text whatsoever, after every prefix of it: the stack depth is one plus the open
   members, the invalid-member error does not occur, and the parser reports the end of the
   value only with the root as the one open node.
   */
  lemma DepthAlongEveryInput(p: Parser, s: string)
    requires p.Parser? && Quiet(p)
    ensures match Feed(Begin(p), Stack(FreshNode(""), []), s)
            case Failed(e) => e == Syntax
            case Fed(code, rest, q, d) => Depth(d) == 1 + Open(q) && (code != 0 ==> Depth(d) == 1)
  {
  }

  lemma {:induction false} FeedConcat(p: Parser, d: Stack, a: string, b: string)
    requires Valid(p) && Depth(d) > Open(p)
    ensures match Feed(p, d, a)
            case Failed(e) => Feed(p, d, a + b) == Failed(e)
            case Fed(code, rest, q, d') =>
              Feed(p, d, a + b) == if code == 0 then Feed(q, d', b) else Fed(code, rest + b, q, d')
    decreases |a|
  {
    if a == [] {
      assert a + b == b;
    } else {
      StepKeeps(p, d, Depth(d) - Open(p), a[0]);
      assert (a + b)[1..] == a[1..] + b;
      match Step(p, d, a[0])
      case Fail(e) =>
      case Ret(code, p', d') => if code == 0 { FeedConcat(p', d', a[1..], b); }
    }
  }
}
