/**
 What parsing builds, for every input: each open node is a well-shaped part of a tree, and a
 value that the parser reports as finished is a well-shaped tree.
 */
module JsonShape {
  import opened Wrappers
  import opened Chars
  import opened SerializationTree
  import opened OpenNodes
  import opened JsonParser
  import opened JsonNesting
  import opened JsonText
  import opened JsonDocument
  import JsonString

  function NodeAt(d: Stack, b: nat): Node
    requires 1 <= b <= Depth(d)
  {
    if b == Depth(d) then d.top else d.below[b - 1]
  }

  predicate IsFresh(n: Node, category: Category) {
    n == FreshNode(n.name).(category := category)
  }

  /** What the node at level `b` holds while parser `p` is filling it. */
  ghost predicate Building(p: Parser, d: Stack, b: nat)
    decreases p
  {
    && Nested(p, d, b)
    && var n := NodeAt(d, b);
       match p.Base()
       case BeforeStart | Null | Token => IsFresh(n, Void)
       case Str => IsFresh(n, Value)
       case Number => IsFresh(n, Value) && IsIntText(p.token)
       case Real => IsFresh(n, Value) && IsRealText(p.token)
       case Obj | ObjPlainName | ObjName | ObjAfterName | ObjE | ObjNextMember0 | ObjNextMember =>
         n.category == Object && Shaped(n)
       case ObjValue => n.category == Object && Shaped(n) && Building(p.next, d, b + 1)
       case Arr | ArrValue0 => n.category == Array && Shaped(n)
       case ArrValue => n.category == Array && Shaped(n) && NodeAt(d, b + 1).name == "" && Building(p.next, d, b + 1)
       case ArrE => n.category == Array && Shaped(n) && d.top.name == "" && Shaped(d.top)
       case _ => Shaped(n)
  }

  ghost predicate Builds(d: Stack, b: nat, r: Outcome)
    requires 1 <= b <= Depth(d)
  {
    r.Ret? ==>
      && Depth(r.d) >= b
      && NodeAt(r.d, b).name == NodeAt(d, b).name
      && r.d.below[..b - 1] == d.below[..b - 1]
      && (if r.code == 0 then Building(r.p, r.d, b) else Depth(r.d) == b && Shaped(r.d.top) && Quiet(r.p))
  }

  lemma ShapedWithMember(n: Node, child: Node)
    requires Shaped(n) && Shaped(child) && n.category in {Object, Array} && (n.category == Array ==> child.name == "")
    ensures Shaped(WithMember(n, child))
  {
    var m := WithMember(n, child);
    assert forall x :: x in m.members ==> x in n.members || x == child;
  }

  lemma FirstStepBuilds(p: Parser, d: Stack, ch: char)
    requires Valid(p) && p.state in {BeforeStart, Null} && IsFresh(d.top, Void)
    ensures Builds(d, Depth(d), FirstStep(p, d, ch))
    ensures FirstStep(p, d, ch).Ret? && FirstStep(p, d, ch).code == 0
  {
    hide Quiet;
    FirstStepKeeps(p, d, ch);
    ValueStartBuilds(p.(state := Null), d, ch);
  }

  lemma ValueStartBuilds(p: Parser, d: Stack, ch: char)
    requires Valid(p) && p.state == Null && IsFresh(d.top, Void)
    ensures Builds(d, Depth(d), ValueStart(p, d, ch))
  {
    hide Quiet, Open, IsSpace;
    FirstStepKeeps(p, d, ch);
    if ch == '{' || ch == '[' {
      BracketBuilds(p, d, ch);
    }
  }

  lemma BracketBuilds(p: Parser, d: Stack, ch: char)
    requires Valid(p) && p.state == Null && IsFresh(d.top, Void) && ch in {'{', '['}
    ensures Builds(d, Depth(d), ValueStart(p, d, ch))
  {
  }

  lemma AllDigitsAppend(s: string, c: char)
    requires IsIntText(s)
    ensures IsDigit(c) ==> IsIntText(s + [c])
    ensures c in {'.', 'e', 'E'} ==> IsRealText(s + [c])
  {
    assert (s + [c])[1..] == s[1..] + [c];
    if c in {'.', 'e', 'E'} {
      assert (s + [c])[..|s|] == s && (s + [c])[|s|..] == [c];
      assert SplitsReal(s + [c], |s|);
    }
  }

  lemma RealAppend(s: string, c: char)
    requires IsRealText(s) && IsRealChar(c)
    ensures IsRealText(s + [c])
  {
    var k: nat :| SplitsReal(s, k);
    assert (s + [c])[..k] == s[..k] && (s + [c])[k..] == s[k..] + [c];
    assert SplitsReal(s + [c], k);
  }

  lemma NumberStepBuilds(p: Parser, d: Stack, ch: char)
    requires Building(p, d, Depth(d)) && p.state in {Number, Real}
    ensures Builds(d, Depth(d), Step(p, d, ch))
  {
    hide FirstStep, ValueStart, NameStart, InPlainName, InName, BeginObjectMember, AfterMember, AfterElement,
         ObjectEnd, ArrayEnd, InString, InToken, InComment, IsIntText;
    if p.state == Number {
      AllDigitsAppend(p.token, ch);
    } else if IsRealChar(ch) {
      RealAppend(p.token, ch);
    }
  }

  lemma WordStepBuilds(p: Parser, d: Stack, ch: char)
    requires Building(p, d, Depth(d)) && p.state in {Str, Token}
    ensures Builds(d, Depth(d), Step(p, d, ch))
  {
    hide FirstStep, ValueStart, NameStart, InPlainName, InName, BeginObjectMember, AfterMember, AfterElement,
         ObjectEnd, ArrayEnd, InNumber, InReal, InComment, Quiet, JsonString.Advance;
    WordStepKeeps(p, d, ch);
  }

  lemma ObjectEndBuilds(p: Parser, d: Stack, ch: char)
    requires Valid(p) && p.state == ObjE && d.top.category == Object && Shaped(d.top)
    ensures Builds(d, Depth(d), ObjectEnd(p, d, ch))
  {
    ObjectEndKeeps(p, d, ch);
  }

  lemma ArrayEndBuilds(p: Parser, d: Stack, b: nat, ch: char)
    requires Building(p, d, b) && p.state == ArrE
    ensures Builds(d, b, ArrayEnd(p, d, ch))
  {
    ArrayEndKeeps(p, d, ch);
    ShapedWithMember(NodeAt(d, b), d.top);
  }

  lemma AfterMemberBuilds(p: Parser, d: Stack, b: nat, r: Outcome, ch: char)
    requires Building(p, d, b) && p.state == ObjValue && Builds(d, b + 1, r) && Keeps(d, b + 1, r)
    ensures Builds(d, b, AfterMember(p, r, ch))
  {
    hide Quiet, ObjectEnd, Shaped;
    AfterMemberKeeps(p, d, b, r, ch);
    if r.Ret? && r.code == 0 {
      MemberContinues(p, d, b, r, ch);
    } else if r.Ret? {
      hide Building;
      MemberLeft(d, b, r.d);
      var d' := LeaveMember(r.d).value;
      ShapedWithMember(d.below[b - 1], r.d.top);
      if r.code == -1 {
        ObjectEndBuilds(p.(next := r.p).(state := ObjE), d', ch);
      }
    }
  }

  lemma MemberContinues(p: Parser, d: Stack, b: nat, r: Outcome, ch: char)
    requires Building(p, d, b) && p.state == ObjValue && Builds(d, b + 1, r) && Keeps(d, b + 1, r) && r.Ret? && r.code == 0
    requires Keeps(d, b, AfterMember(p, r, ch))
    ensures Builds(d, b, AfterMember(p, r, ch))
  {
    hide Quiet, ObjectEnd, Shaped;
    assert r.d.below[b - 1] == r.d.below[..b][b - 1] == d.below[b - 1];
  }

  /** A finished member joins its parent. */
  lemma MemberLeft(d: Stack, b: nat, d1: Stack)
    requires 1 <= b < Depth(d) && Depth(d1) == b + 1 && d1.below == d.below[..b]
    ensures LeaveMember(d1) == Some(Stack(WithMember(d.below[b - 1], d1.top), d.below[..b - 1]))
  {
    assert d.below[..b][..b - 1] == d.below[..b - 1];
  }

  lemma AfterElementBuilds(p: Parser, d: Stack, b: nat, r: Outcome, ch: char)
    requires p.Parser? && p.sp.Clean() && p.sp.Valid() && p.state == ArrValue && 1 <= b < Depth(d)
    requires d.below[b - 1].category == Array && Shaped(d.below[b - 1]) && NodeAt(d, b + 1).name == ""
    requires Builds(d, b + 1, r) && Keeps(d, b + 1, r)
    ensures Builds(d, b, AfterElement(p, r, ch))
  {
    hide Quiet, ArrayEnd, Shaped;
    AfterElementKeeps(p, d, b, r, ch);
    if r.Ret? {
      assert r.d.below[b - 1] == r.d.below[..b][b - 1] == d.below[b - 1];
      if r.code == -1 {
        ArrayEndBuilds(p.(next := r.p).(state := ArrE), r.d, b, ch);
      }
    }
  }

  /** The first character of an element, whichever parser it starts. */
  lemma ElementStartBuilds(p: Parser, q: Parser, d: Stack, ch: char)
    requires p.Parser? && p.sp.Clean() && p.sp.Valid() && p.state == ArrValue
    requires q.Parser? && Valid(q) && q.state == BeforeStart && d.top.category == Array && Shaped(d.top)
    ensures var r := FirstStep(q, BeginMember(d, ""), ch);
            Builds(d, Depth(d), AfterElement(p, r, ch)) && AfterElement(p, r, ch) == Goto(p.(next := r.p), ArrValue, r.d)
  {
    hide FirstStep, Shaped, ArrayEnd, Quiet, Valid, Open;
    var d' := BeginMember(d, "");
    FirstStepKeeps(q, d', ch);
    FirstStepBuilds(q, d', ch);
    assert d'.below[Depth(d) - 1] == d.top;
    assert d'.below[..Depth(d) - 1] == d.below;
    AfterElementBuilds(p, d', Depth(d), FirstStep(q, d', ch), ch);
  }

  lemma NewElementBuilds(p: Parser, d: Stack, ch: char)
    requires Building(p, d, Depth(d)) && p.state in {Arr, ArrValue0}
    ensures Builds(d, Depth(d), Step(p, d, ch))
  {
    hide Step, FirstStep, Shaped, AfterElement, IsSpace, Quiet;
    var q := Inner(p);
    InnerIsReady(p);
    ArrayStep(p, d, ch);
    if !IsSpace(ch) && ch != ']' && !(p.state == Arr && ch == '/') {
      ElementStartBuilds(p.(state := ArrValue), q, d, ch);
    } else {
      StepKeeps(p, d, Depth(d), ch);
    }
  }

  lemma BeginMemberBuilds(p: Parser, d: Stack, name: string)
    requires p.Parser? && p.sp.Valid() && Quiet(p.next)
    requires d.top.category == Object && Shaped(d.top)
    ensures Builds(d, Depth(d), BeginObjectMember(p, d, name))
  {
    hide Shaped;
    var d' := BeginMember(d, Utf8(name));
    assert d'.below[Depth(d) - 1] == d.top;
    assert d'.below[..Depth(d) - 1] == d.below;
    var q := BeginObjectMember(p, d, name).p;
    assert Building(q.next, d', Depth(d) + 1);
    assert Building(q, d', Depth(d));
  }

  lemma NameStepBuilds(p: Parser, d: Stack, ch: char)
    requires Building(p, d, Depth(d)) && p.state in {ObjPlainName, ObjName, ObjAfterName}
    ensures Builds(d, Depth(d), Step(p, d, ch))
  {
    hide FirstStep, ValueStart, NameStart, BeginObjectMember, AfterMember, AfterElement, ObjectEnd, ArrayEnd,
         InString, InNumber, InReal, InToken, InComment, Quiet, Shaped, JsonString.Advance;
    NameStepKeeps(p, d, ch);
    BeginMemberBuilds(p, d, p.sp.str);
    BeginMemberBuilds(p.(token := ""), d, p.token);
  }

  lemma ObjectStepBuilds(p: Parser, d: Stack, ch: char)
    requires Building(p, d, Depth(d)) && p.state in {Obj, ObjE, ObjNextMember0, ObjNextMember}
    ensures Builds(d, Depth(d), Step(p, d, ch))
  {
    hide FirstStep, ValueStart, InPlainName, InName, BeginObjectMember, AfterMember, AfterElement, ArrayEnd,
         InString, InNumber, InReal, InToken, InComment, Quiet, Shaped;
    ObjectStepKeeps(p, d, ch);
  }

  lemma OtherStepBuilds(p: Parser, d: Stack, b: nat, ch: char)
    requires Building(p, d, b) && (p.state == End || p.state.IsComment())
    ensures Builds(d, b, Step(p, d, ch))
  {
    hide Step;
    StepKeeps(p, d, b, ch);
    if p.state == End {
      EndStepBuilds(p, d, b, ch);
    } else {
      CommentStepBuilds(p, d, b, ch);
    }
  }

  lemma EndStepBuilds(p: Parser, d: Stack, b: nat, ch: char)
    requires Building(p, d, b) && p.state == End && Keeps(d, b, Step(p, d, ch))
    ensures Builds(d, b, Step(p, d, ch))
  {
    hide FirstStep, ValueStart, NameStart, InPlainName, InName, BeginObjectMember, AfterMember, AfterElement,
         ObjectEnd, ArrayEnd, InString, InNumber, InReal, InToken, InComment, Quiet, Shaped;
  }

  /** Inside a comment, and when it ends, what is built stays as it is. */
  lemma CommentMoves(p: Parser, d: Stack, b: nat, s: State)
    requires p.Parser? && Building(p, d, b) && p.state.IsComment() && (s.IsComment() || s == p.nextState)
    requires Nested(p.(state := s), d, b)
    ensures Building(p.(state := s), d, b)
  {
    hide Nested, Valid, Open, Shaped, Quiet, IsIntText, IsRealText;
    var q := p.(state := s);
    assert q.Base() == p.Base() by {
      BuildingIsNested(p, d, b);
      NextIsNoComment(p);
    }
  }

  lemma NextIsNoComment(p: Parser)
    requires Valid(p) && p.state.IsComment()
    ensures !p.nextState.IsComment()
  {
  }

  lemma CommentStepBuilds(p: Parser, d: Stack, b: nat, ch: char)
    requires Building(p, d, b) && p.state.IsComment() && Keeps(d, b, Step(p, d, ch))
    ensures Builds(d, b, Step(p, d, ch))
  {
    hide FirstStep, ValueStart, NameStart, InPlainName, InName, BeginObjectMember, AfterMember, AfterElement,
         ObjectEnd, ArrayEnd, InString, InNumber, InReal, InToken, Quiet, Shaped, Building, Valid, Open;
    BuildingIsNested(p, d, b);
    var r := Step(p, d, ch);
    if r.Ret? {
      CommentMoves(p, d, b, r.p.state);
      assert r.p == p.(state := r.p.state);
    }
  }

  lemma BuildingIsNested(p: Parser, d: Stack, b: nat)
    requires Building(p, d, b)
    ensures Nested(p, d, b) && Valid(p) && p.Parser?
  {
    hide Shaped;
  }

  /** Every step keeps every open node well-shaped, for every input character. */
  lemma {:induction false} StepBuilds(p: Parser, d: Stack, b: nat, ch: char)
    requires Building(p, d, b)
    ensures Builds(d, b, Step(p, d, ch))
    decreases p
  {
    hide FirstStep, NameStart, InPlainName, InName, InString, InNumber, InReal, InToken, InComment, BeginObjectMember;
    hide ObjectEnd, ArrayEnd, AfterMember, AfterElement, Quiet, Shaped;
    if p.state == ObjValue {
      StepBuilds(p.next, d, b + 1, ch);
      StepKeeps(p.next, d, b + 1, ch);
      AfterMemberBuilds(p, d, b, Step(p.next, d, ch), ch);
    } else if p.state == ArrValue {
      StepBuilds(p.next, d, b + 1, ch);
      StepKeeps(p.next, d, b + 1, ch);
      AfterElementBuilds(p, d, b, Step(p.next, d, ch), ch);
    } else if p.state == ArrE {
      ArrayEndBuilds(p, d, b, ch);
    } else if p.state.IsComment() || p.state == End {
      OtherStepBuilds(p, d, b, ch);
    } else if p.state in {Arr, ArrValue0} {
      NewElementBuilds(p, d, ch);
    } else if p.state in {BeforeStart, Null} {
      FirstOrNullBuilds(p, d, ch);
    } else if p.state in {Number, Real} {
      NumberStepBuilds(p, d, ch);
    } else if p.state in {Str, Token} {
      WordStepBuilds(p, d, ch);
    } else if p.state in {ObjPlainName, ObjName, ObjAfterName} {
      NameStepBuilds(p, d, ch);
    } else {
      ObjectStepBuilds(p, d, ch);
    }
  }

  lemma FirstOrNullBuilds(p: Parser, d: Stack, ch: char)
    requires Building(p, d, Depth(d)) && p.state in {BeforeStart, Null}
    ensures Builds(d, Depth(d), Step(p, d, ch))
  {
    hide FirstStep, ValueStart;
    if p.state == Null {
      ValueStartBuilds(p, d, ch);
    } else {
      FirstStepBuilds(p, d, ch);
    }
  }

  // ---------------------------------------------------------------- whole inputs

  lemma {:induction false} FeedBuilds(p: Parser, d: Stack, b: nat, s: string)
    requires Building(p, d, b)
    ensures match Feed(p, d, s)
            case Failed(_) => true
            case Fed(code, _, q, d') =>
              if code == 0 then Building(q, d', b) else Depth(d') == b && Shaped(d'.top)
    decreases |s|
  {
    hide Step, Shaped;
    if s != [] {
      StepBuilds(p, d, b, s[0]);
      StepKeeps(p, d, b, s[0]);
      var r := Step(p, d, s[0]);
      if r.Ret? && r.code == 0 {
        FeedBuilds(r.p, r.d, b, s[1..]);
      }
    }
  }

  lemma StartBuilds(p: Parser)
    requires p.Parser? && Quiet(p)
    ensures Building(Begin(p), EMPTY, 1)
  {
  }

  /** A text that ends in the middle of a word other than true, false and null. */
  predicate EndsInUnknownWord(q: Parser) {
    q.Parser? && q.Base() == Token && q.token !in {"true", "false", "null"}
  }

  lemma FinishBuilds(q: Parser, d: Stack)
    requires Building(q, d, 1) && Finish(q, d).Some? && !EndsInUnknownWord(q)
    ensures Shaped(Finish(q, d).value.top)
  {
  }

  /**
   For every text: whatever the parser reports as a finished value is a well-shaped tree, and
   so is what `finish` makes of a text that simply ends, unless that is an unknown word.
   */
  lemma EveryParsedTreeIsShaped(p: Parser, s: string)
    requires p.Parser? && Quiet(p)
    ensures match Feed(Begin(p), EMPTY, s)
            case Failed(_) => true
            case Fed(code, _, q, d) =>
              && (code != 0 ==> Shaped(d.top))
              && (code == 0 && Finish(q, d).Some? && !EndsInUnknownWord(q) ==> Shaped(Finish(q, d).value.top))
  {
    hide Step, Shaped, Feed;
    StartBuilds(p);
    FeedBuilds(Begin(p), EMPTY, 1, s);
    match Feed(Begin(p), EMPTY, s)
    case Failed(_) =>
    case Fed(code, _, q, d) =>
      if code == 0 && Finish(q, d).Some? && !EndsInUnknownWord(q) {
        FinishBuilds(q, d);
      }
  }
}
