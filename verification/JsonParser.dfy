/**
 The push parser `JsonParser`: one character per step, nested values handled by an owned
 inner parser.  A step is a function of the parser, the open nodes and the character.
 */
module JsonParser {
  import opened Wrappers
  import opened Chars
  import opened SerializationTree
  import opened OpenNodes
  import JsonString

  datatype State =
    | BeforeStart
    | Null
    | Obj
    | ObjPlainName
    | ObjName
    | ObjAfterName
    | ObjValue
    | ObjE
    | ObjNextMember0
    | ObjNextMember
    | Arr
    | ArrValue0
    | ArrValue
    | ArrE
    | Str
    | Number
    | Real
    | Token
    | Comment0
    | CommentLine
    | Comment
    | CommentE
    | End
  {
    predicate IsComment() { Comment0? || CommentLine? || Comment? || CommentE? }
  }

  /** `NoParser` is a null `_next`. */
  datatype Parser =
    | NoParser
    | Parser(state: State, nextState: State, token: string, sp: JsonString.StringParser, next: Parser)
  {
    /** The state a comment returns to, or the state itself. */
    function Base(): State
      requires Parser?
    {
      if state.IsComment() then nextState else state
    }
  }

  /** A newly constructed parser. */
  const NEW: Parser := Parser(BeforeStart, BeforeStart, "", JsonString.StringParser(JsonString.Plain, "", 0, 0, 0), NoParser)

  function Begin(p: Parser): (r: Parser)
    requires p.Parser?
    ensures r.Parser?
  {
    p.(state := BeforeStart, token := "")
  }

  datatype Error = Syntax | InvalidMember

  /** `code` is the return value: 1 finished, -1 finished without using the character, 0 more. */
  datatype Outcome = Fail(error: Error) | Ret(code: int, p: Parser, d: Stack)

  // ---------------------------------------------------------------- what a parser satisfies

  /** Nothing is left over from an earlier value, so `begin` makes the parser usable. */
  predicate Quiet(p: Parser) {
    p.Parser? ==> p.sp.Clean() && p.sp.Valid() && Quiet(p.next)
  }

  predicate Resumable(s: State) {
    s in {Null, Obj, ObjAfterName, ObjE, ObjNextMember, Arr, ArrE, End}
  }

  predicate Valid(p: Parser) {
    && p.Parser?
    && p.sp.Valid()
    && (p.state.IsComment() ==> Resumable(p.nextState))
    && (p.Base() !in {Str, ObjName, ObjAfterName} ==> p.sp.Clean())
    && (if p.Base() in {ObjValue, ArrValue} then Valid(p.next) else Quiet(p.next))
    && (p.Base() in {ArrValue0, ArrE} ==> p.next.Parser?)
  }

  /** The number of members the parser and its inner parsers have begun and not left. */
  function Open(p: Parser): nat {
    if p.NoParser? then 0
    else if p.Base() in {ObjValue, ArrValue} then 1 + Open(p.next)
    else if p.Base() == ArrE then 1
    else 0
  }

  // ---------------------------------------------------------------- one step

  function Goto(p: Parser, s: State, d: Stack): Outcome
    requires p.Parser?
  {
    Ret(0, p.(state := s), d)
  }

  function ToComment(p: Parser, d: Stack): Outcome
    requires p.Parser?
  {
    Ret(0, p.(nextState := p.state, state := Comment0), d)
  }

  function SpaceOrFail(p: Parser, d: Stack, ch: char): Outcome {
    if IsSpace(ch) then Ret(0, p, d) else Fail(Syntax)
  }

  function ValueStart(p: Parser, d: Stack, ch: char): Outcome
    requires p.Parser?
  {
    if ch == '{' then Goto(p, Obj, SetCategory(d, Object))
    else if ch == '[' then Goto(p, Arr, SetCategory(d, Array))
    else if ch == '"' then Goto(p, Str, SetCategory(d, Value))
    else if IsDigit(ch) || ch == '+' || ch == '-' then Goto(p.(token := [ch]), Number, SetCategory(d, Value))
    else if ch == '/' then ToComment(p, d)
    else if !IsSpace(ch) then Goto(p.(token := [ch]), Token, d)
    else Ret(0, p, d)
  }

  /** The first step of a parser after `begin`. */
  function FirstStep(p: Parser, d: Stack, ch: char): Outcome
    requires p.Parser?
  {
    if IsSpace(ch) then Ret(0, p, d) else ValueStart(p.(state := Null), d, ch)
  }

  /** Where a member name may start: after `{` and after a comma. */
  function NameStart(p: Parser, d: Stack, ch: char): Outcome
    requires p.Parser?
  {
    if ch == '"' then Goto(p.(sp := p.sp.Clear()), ObjName, d)
    else if ch == '/' then ToComment(p, d)
    else if IsAlpha(ch) then Goto(p.(token := [ch]), ObjPlainName, d)
    else SpaceOrFail(p, d, ch)
  }

  /** An existing inner parser is reused, a missing one is created. */
  function Inner(p: Parser): (r: Parser)
    requires p.Parser?
    ensures r.Parser?
  {
    Begin(if p.next.NoParser? then NEW else p.next)
  }

  /** The colon after a member name. */
  function BeginObjectMember(p: Parser, d: Stack, name: string): Outcome
    requires p.Parser?
  {
    Goto(p.(next := Inner(p), sp := p.sp.Clear()), ObjValue, BeginMember(d, Utf8(name)))
  }

  function ObjectEnd(p: Parser, d: Stack, ch: char): Outcome
    requires p.Parser?
  {
    if ch == ',' then Goto(p, ObjNextMember0, d)
    else if ch == '}' then Ret(1, p.(state := End), d)
    else if ch == '/' then ToComment(p, d)
    else SpaceOrFail(p, d, ch)
  }

  function ArrayEnd(p: Parser, d: Stack, ch: char): Outcome
    requires p.Parser?
  {
    if ch == ']' || ch == ',' then
      match LeaveMember(d)
      case None => Fail(InvalidMember)
      case Some(d') => if ch == ']' then Ret(1, p.(state := End), d') else Goto(p, ArrValue0, d')
    else if ch == '/' then ToComment(p, d)
    else SpaceOrFail(p, d, ch)
  }

  /** What the outer parser does after its inner parser returned `r` for `ch`. */
  function AfterMember(p: Parser, r: Outcome, ch: char): Outcome
    requires p.Parser?
  {
    if r.Fail? then r
    else
      var q := p.(next := r.p);
      if r.code == 0 then Ret(0, q, r.d)
      else match LeaveMember(r.d)
        case None => Fail(InvalidMember)
        case Some(d') => if r.code == -1 then ObjectEnd(q.(state := ObjE), d', ch) else Goto(q, ObjE, d')
  }

  function AfterElement(p: Parser, r: Outcome, ch: char): Outcome
    requires p.Parser?
  {
    if r.Fail? then r
    else
      var q := p.(next := r.p);
      if r.code == 0 then Ret(0, q, r.d)
      else if r.code == -1 then ArrayEnd(q.(state := ArrE), r.d, ch)
      else Goto(q, ArrE, r.d)
  }

  function FinishScalar(p: Parser, d: Stack, typeName: string, code: int): Outcome
    requires p.Parser?
  {
    Ret(code, p.(token := ""), SetTypeName(SetValue(d, p.token), typeName))
  }

  function InString(p: Parser, d: Stack, ch: char): Outcome
    requires p.Parser? && p.sp.Valid()
  {
    match JsonString.Advance(p.sp, ch)
    case StringError => Fail(Syntax)
    case StringStep(done, sp) =>
      if done then Ret(1, p.(sp := sp.Clear(), state := End), SetTypeName(SetValue(d, sp.str), "string"))
      else Ret(0, p.(sp := sp), d)
  }

  function InName(p: Parser, d: Stack, ch: char): Outcome
    requires p.Parser? && p.sp.Valid()
  {
    match JsonString.Advance(p.sp, ch)
    case StringError => Fail(Syntax)
    case StringStep(done, sp) => Goto(p.(sp := sp), if done then ObjAfterName else ObjName, d)
  }

  function InPlainName(p: Parser, d: Stack, ch: char): Outcome
    requires p.Parser?
  {
    if IsAlnum(ch) || ch == 'l' then Ret(0, p.(token := p.token + [ch]), d)
    else if IsSpace(ch) then Goto(p.(sp := p.sp.(str := p.token), token := ""), ObjAfterName, d)
    else if ch == ':' then BeginObjectMember(p.(token := ""), d, p.token)
    else Fail(Syntax)
  }

  function InNumber(p: Parser, d: Stack, ch: char): Outcome
    requires p.Parser?
  {
    if IsSpace(ch) then FinishScalar(p, d, "int", 1)
    else if ch == '.' || ch == 'e' || ch == 'E' then Goto(p.(token := p.token + [ch]), Real, d)
    else if IsDigit(ch) then Ret(0, p.(token := p.token + [ch]), d)
    else FinishScalar(p, d, "int", -1)
  }

  predicate IsRealChar(ch: char) {
    IsDigit(ch) || ch == '+' || ch == '-' || ch == '.' || ch == 'e' || ch == 'E'
  }

  function InReal(p: Parser, d: Stack, ch: char): Outcome
    requires p.Parser?
  {
    if IsSpace(ch) then FinishScalar(p, d, "double", 1)
    else if IsRealChar(ch) then Ret(0, p.(token := p.token + [ch]), d)
    else FinishScalar(p, d, "double", -1)
  }

  /** The tree after a complete word; `None` for an unknown one. */
  function WordValue(d: Stack, token: string): Option<Stack> {
    if token == "true" || token == "false" then Some(SetTypeName(SetValue(d, token), "bool"))
    else if token == "null" then Some(SetNull(SetTypeName(d, "null")))
    else None
  }

  function InToken(p: Parser, d: Stack, ch: char): Outcome
    requires p.Parser?
  {
    if IsAlpha(ch) then Ret(0, p.(token := p.token + [ch]), d)
    else match WordValue(d, p.token)
      case None => Fail(Syntax)
      case Some(d') => Ret(-1, p.(token := ""), d')
  }

  function InComment(p: Parser, d: Stack, ch: char): Outcome
    requires p.Parser? && p.state.IsComment()
  {
    match p.state
    case Comment0 =>
      if ch == '/' then Goto(p, CommentLine, d)
      else if ch == '*' then Goto(p, Comment, d)
      else Fail(Syntax)
    case CommentLine => if ch == '\n' then Goto(p, p.nextState, d) else Ret(0, p, d)
    case Comment => if ch == '*' then Goto(p, CommentE, d) else Ret(0, p, d)
    case CommentE =>
      if ch == '/' then Goto(p, p.nextState, d)
      else if ch != '*' then Goto(p, Comment, d)
      else Ret(0, p, d)
  }

  /** One call of `JsonParser::advance`. */
  function Step(p: Parser, d: Stack, ch: char): Outcome
    requires Valid(p)
    decreases p
  {
    match p.state
    case BeforeStart => FirstStep(p, d, ch)
    case Null => ValueStart(p, d, ch)
    case Obj => if ch == '}' then Ret(1, p.(state := End), d) else NameStart(p, d, ch)
    case ObjPlainName => InPlainName(p, d, ch)
    case ObjName => InName(p, d, ch)
    case ObjAfterName =>
      if ch == ':' then BeginObjectMember(p, d, p.sp.str)
      else if ch == '/' then ToComment(p, d)
      else SpaceOrFail(p, d, ch)
    case ObjValue => AfterMember(p, Step(p.next, d, ch), ch)
    case ObjE => ObjectEnd(p, d, ch)
    case ObjNextMember0 =>
      if ch == '}' then Ret(1, p.(state := End), d)
      else if IsSpace(ch) then Ret(0, p, d)
      else NameStart(p.(state := ObjNextMember), d, ch)
    case ObjNextMember => NameStart(p, d, ch)
    case Arr =>
      if ch == ']' then Ret(1, p.(state := End), d)
      else if ch == '/' then ToComment(p, d)
      else if IsSpace(ch) then Ret(0, p, d)
      else
        // the return code of the inner parser is ignored here
        var r := FirstStep(Inner(p), BeginMember(d, ""), ch);
        if r.Fail? then r else Goto(p.(next := r.p), ArrValue, r.d)
    case ArrValue0 =>
      if ch == ']' then Ret(1, p.(state := End), d)
      else if IsSpace(ch) then Ret(0, p, d)
      else
        var r := FirstStep(Begin(p.next), BeginMember(d, ""), ch);
        AfterElement(p.(state := ArrValue), r, ch)
    case ArrValue => AfterElement(p, Step(p.next, d, ch), ch)
    case ArrE => ArrayEnd(p, d, ch)
    case Str => InString(p, d, ch)
    case Number => InNumber(p, d, ch)
    case Real => InReal(p, d, ch)
    case Token => InToken(p, d, ch)
    case Comment0 | CommentLine | Comment | CommentE => InComment(p, d, ch)
    case End => if ch == '/' then ToComment(p, d) else SpaceOrFail(p, d, ch)
  }
}
