/**
 The JSON reader as objects whose methods update their fields, each proved to do what the
 step functions say.  A thrown exception is the result `ok == false`.
 */
module JsonObjects {
  import opened Wrappers
  import opened Chars
  import opened SerializationTree
  import opened DeserializerObject
  import opened JsonParser
  import JsonString
  import OpenNodes
  import JsonNesting
  import JsonDocument

  class JsonStringParser {
    var state: JsonString.StringState
    var str: string
    var count: nat
    var value: nat
    var surrogate: nat

    ghost function Model(): JsonString.StringParser
      reads this
    {
      JsonString.StringParser(state, str, count, value, surrogate)
    }

    constructor ()
      ensures Model() == NEW.sp
    {
      state, str := JsonString.Plain, "";
      count, value, surrogate := 0, 0, 0;
    }

    method Clear()
      modifies this
      ensures Model() == old(Model()).Clear()
    {
      state := JsonString.Plain;
      str := "";
    }

    method EndOfHex() returns (ok: bool)
      requires state.InHex() && value < 0x10000 && surrogate < 0x10000 && count == 0
      modifies this
      ensures match JsonString.FinishHex(old(Model()), old(value))
              case StringError => !ok
              case StringStep(_, sp) => ok && Model() == sp
    {
      ok := true;
      match state
      case Hex =>
        if JsonString.IsHighUnit(value) {
          state := JsonString.HighSurrogate0;
          surrogate := value;
        } else if JsonString.IsLowUnit(value) {
          state := JsonString.LowSurrogate0;
          surrogate := value;
        } else {
          str := str + [value as char];
          state := JsonString.Plain;
        }
      case LowSurrogateHex =>
        if !JsonString.IsHighUnit(value) {
          ok := false;
        } else {
          str := str + [JsonString.FromUtf16(surrogate, value)];
          state := JsonString.Plain;
        }
      case HighSurrogateHex =>
        if !JsonString.IsLowUnit(value) {
          ok := false;
        } else {
          str := str + [JsonString.FromUtf16(value, surrogate)];
          state := JsonString.Plain;
        }
    }

    /** `done` is the source's return value: the closing quote was read. */
    method Advance(ch: char) returns (ok: bool, done: bool)
      requires Model().Valid()
      modifies this
      ensures match JsonString.Advance(old(Model()), ch)
              case StringError => !ok
              case StringStep(b, sp) => ok && done == b && Model() == sp
    {
      ok, done := true, false;
      match state
      case Plain =>
        if ch == '\\' {
          state := JsonString.Esc;
        } else if ch == '"' {
          done := true;
        } else {
          str := str + [ch];
        }
      case Esc =>
        state := JsonString.Plain;
        if ch == 'u' {
          value, count := 0, 4;
          state := JsonString.Hex;
        } else if JsonString.ShortEscape(ch) != [] {
          str := str + JsonString.ShortEscape(ch);
        } else {
          ok := false;
        }
      case Hex | LowSurrogateHex | HighSurrogateHex =>
        var digit := JsonString.HexDigit(ch);
        if digit < 0 {
          ok := false;
        } else {
          value := value * 16 + digit;
          count := count - 1;
          if count == 0 {
            ok := EndOfHex();
          }
        }
      case LowSurrogate0 | HighSurrogate0 =>
        if ch != '\\' {
          ok := false;
        } else {
          state := if state == JsonString.LowSurrogate0 then JsonString.LowSurrogateEsc else JsonString.HighSurrogateEsc;
        }
      case LowSurrogateEsc | HighSurrogateEsc =>
        if ch != 'u' {
          ok := false;
        } else {
          value, count := 0, 4;
          state := if state == JsonString.LowSurrogateEsc then JsonString.LowSurrogateHex else JsonString.HighSurrogateHex;
        }
    }
  }

  lemma InnerStep(p: Parser, d: OpenNodes.Stack, ch: char)
    requires JsonParser.Valid(p) && p.state in {ObjValue, ArrValue}
    ensures var r := Step(p.next, d, ch);
            if r.Fail? then Step(p, d, ch) == r
            else
              var q := p.(next := r.p);
              Step(p, d, ch) ==
              if p.state == ObjValue then JsonParser.AfterMember(q, r, ch) else JsonParser.AfterElement(q, r, ch)
  {
  }

  /** Does the outcome of a call match the step function?  After an exception nothing is said. */
  ghost predicate Matches(r: Outcome, ok: bool, ret: int, p: Parser, d: OpenNodes.Stack) {
    match r
    case Fail(_) => !ok
    case Ret(code, p', d') => ok && ret == code && p == p' && d == d'
  }

  lemma FinishByState(p: Parser, d: OpenNodes.Stack)
    requires p.Parser? && (p.state == CommentLine ==> p.nextState == CommentLine)
    ensures JsonDocument.Finish(p, d) ==
            if p.state == Number then Some(OpenNodes.SetTypeName(OpenNodes.SetValue(d, p.token), "int"))
            else if p.state == Real then Some(OpenNodes.SetTypeName(OpenNodes.SetValue(d, p.token), "double"))
            else if p.state == Token then Some(match WordValue(d, p.token) case None => d case Some(d') => d')
            else if p.state == End then Some(d)
            else None
  {
  }

  lemma ScalarStep(p: Parser, d: OpenNodes.Stack, ch: char)
    requires JsonParser.Valid(p) && p.state in {Str, Number, Real, Token}
    ensures p.sp.Valid()
    ensures Step(p, d, ch) == match p.state
                              case Str => JsonParser.InString(p, d, ch)
                              case Number => JsonParser.InNumber(p, d, ch)
                              case Real => JsonParser.InReal(p, d, ch)
                              case _ => JsonParser.InToken(p, d, ch)
  {
    hide JsonParser.FirstStep, JsonParser.ValueStart, JsonParser.NameStart, JsonParser.InPlainName, JsonParser.InName, JsonParser.BeginObjectMember, JsonParser.AfterMember, JsonParser.AfterElement,
         JsonParser.ObjectEnd, JsonParser.ArrayEnd, JsonParser.InString, JsonParser.InNumber, JsonParser.InReal, JsonParser.InToken, JsonParser.InComment, JsonParser.Quiet;
  }

  class PushParser {
    var state: State
    var nextState: State
    var token: string
    const reader: JsonStringParser
    var next: PushParser?
    ghost var Repr: set<object>

    ghost predicate Valid()
      reads this, Repr
      decreases Repr
    {
      && this in Repr && reader in Repr
      && (next != null ==>
            && next in Repr && next.Repr < Repr && this !in next.Repr && reader !in next.Repr
            && next.Valid())
    }

    ghost function Model(): (p: Parser)
      requires Valid()
      reads this, Repr
      ensures p.Parser?
      decreases Repr
    {
      Parser(state, nextState, token, reader.Model(), if next == null then NoParser else next.Model())
    }

    constructor ()
      ensures Valid() && fresh(Repr) && Model() == NEW
    {
      state, nextState, token, next := BeforeStart, BeforeStart, "", null;
      reader := new JsonStringParser();
      new;
      Repr := {this, reader};
    }

    method Begin()
      requires Valid()
      modifies this`state, this`token
      ensures Valid() && Model() == JsonParser.Begin(old(Model()))
    {
      state := BeforeStart;
      token := "";
    }

    method ToComment()
      requires Valid()
      modifies this`state, this`nextState
      ensures Valid() && var p := old(Model()); Model() == p.(nextState := p.state, state := Comment0)
    {
      nextState := state;
      state := Comment0;
    }

    /** A value of the given kind begins. */
    method Enter(d: Deserializer, s: State, category: Category)
      requires Valid() && d !in Repr && d.Valid()
      modifies this`state, d
      ensures Valid() && d.Valid()
      ensures var p := old(Model()); Model() == p.(state := s)
      ensures d.Nodes() == OpenNodes.SetCategory(old(d.Nodes()), category)
    {
      d.SetCategory(category);
      state := s;
    }

    method ValueStart(d: Deserializer, ch: char)
      requires Valid() && d !in Repr && d.Valid()
      modifies this`state, this`nextState, this`token, d
      ensures Valid() && d.Valid()
      ensures Matches(JsonParser.ValueStart(old(Model()), old(d.Nodes()), ch), true, 0, Model(), d.Nodes())
    {
      if ch == '{' {
        Enter(d, Obj, Object);
      } else if ch == '[' {
        Enter(d, Arr, Array);
      } else if ch == '"' {
        Enter(d, Str, Value);
      } else if IsDigit(ch) || ch == '+' || ch == '-' {
        token := [ch];
        Enter(d, Number, Value);
      } else if ch == '/' {
        ToComment();
      } else if !IsSpace(ch) {
        token := [ch];
        state := Token;
      }
    }

    method FirstStep(d: Deserializer, ch: char)
      requires Valid() && d !in Repr && d.Valid()
      modifies this`state, this`nextState, this`token, d
      ensures Valid() && d.Valid()
      ensures Matches(JsonParser.FirstStep(old(Model()), old(d.Nodes()), ch), true, 0, Model(), d.Nodes())
    {
      if !IsSpace(ch) {
        state := Null;
        ValueStart(d, ch);
      }
    }

    method NameStart(d: Deserializer, ch: char) returns (ok: bool)
      requires Valid() && d !in Repr && d.Valid()
      modifies this`state, this`nextState, this`token, reader
      ensures Valid()
      ensures Matches(JsonParser.NameStart(old(Model()), d.Nodes(), ch), ok, 0, Model(), d.Nodes())
    {
      ok := true;
      if ch == '"' {
        state := ObjName;
        reader.Clear();
      } else if ch == '/' {
        ToComment();
      } else if IsAlpha(ch) {
        token := [ch];
        state := ObjPlainName;
      } else {
        ok := IsSpace(ch);
      }
    }

    /** Begins a member and the inner parser for it; a missing inner parser is created. */
    method BeginInner(d: Deserializer, name: string)
      requires Valid() && d !in Repr && d.Valid()
      modifies this`next, this`Repr, next, d
      ensures Valid() && d.Valid() && fresh(Repr - old(Repr)) && d !in Repr
      ensures next != null && (next == old(next) || fresh(next))
      ensures var p := old(Model()); Model() == p.(next := Inner(p))
      ensures d.Nodes() == OpenNodes.BeginMember(old(d.Nodes()), name)
    {
      if next == null {
        next := new PushParser();
        Repr := Repr + next.Repr;
      }
      d.BeginMember(name);
      next.Begin();
    }

    method BeginObjectMember(d: Deserializer, name: string)
      requires Valid() && d !in Repr && d.Valid()
      modifies this, reader, next, d
      ensures Valid() && d.Valid() && fresh(Repr - old(Repr)) && d !in Repr
      ensures Matches(JsonParser.BeginObjectMember(old(Model()), old(d.Nodes()), name), true, 0, Model(), d.Nodes())
    {
      BeginInner(d, Utf8(name));
      reader.Clear();
      state := ObjValue;
    }

    method ObjectEnd(d: Deserializer, ch: char) returns (ok: bool, ret: int)
      requires Valid() && d !in Repr && d.Valid()
      modifies this`state, this`nextState
      ensures Valid()
      ensures Matches(JsonParser.ObjectEnd(old(Model()), d.Nodes(), ch), ok, ret, Model(), d.Nodes())
    {
      ok, ret := true, 0;
      if ch == ',' {
        state := ObjNextMember0;
      } else if ch == '}' {
        state := End;
        ret := 1;
      } else if ch == '/' {
        ToComment();
      } else {
        ok := IsSpace(ch);
      }
    }

    method ArrayEnd(d: Deserializer, ch: char) returns (ok: bool, ret: int)
      requires Valid() && d !in Repr && d.Valid()
      modifies this`state, this`nextState, d
      ensures Valid() && d.Valid()
      ensures Matches(JsonParser.ArrayEnd(old(Model()), old(d.Nodes()), ch), ok, ret, Model(), d.Nodes())
    {
      ok, ret := true, 0;
      if ch == ']' || ch == ',' {
        ok := d.LeaveMember();
        if ch == ']' {
          state := End;
          ret := 1;
        } else {
          state := ArrValue0;
        }
      } else if ch == '/' {
        ToComment();
      } else {
        ok := IsSpace(ch);
      }
    }

    /** Hands a finished scalar to the tree. */
    method FinishScalar(d: Deserializer, typeName: string)
      requires Valid() && d !in Repr && d.Valid()
      modifies this`token, d
      ensures Valid() && d.Valid()
      ensures var p := old(Model()); Model() == p.(token := "")
      ensures d.Nodes() == OpenNodes.SetTypeName(OpenNodes.SetValue(old(d.Nodes()), old(token)), typeName)
    {
      d.SetValue(token);
      d.SetTypeName(typeName);
      token := "";
    }

    method InNumber(d: Deserializer, ch: char) returns (ret: int)
      requires Valid() && d !in Repr && d.Valid()
      modifies this`state, this`token, d
      ensures Valid() && d.Valid()
      ensures Matches(JsonParser.InNumber(old(Model()), old(d.Nodes()), ch), true, ret, Model(), d.Nodes())
    {
      ret := 0;
      if ch == '.' || ch == 'e' || ch == 'E' {
        token := token + [ch];
        state := Real;
      } else if IsDigit(ch) {
        token := token + [ch];
      } else {
        FinishScalar(d, "int");
        ret := if IsSpace(ch) then 1 else -1;
      }
    }

    method InReal(d: Deserializer, ch: char) returns (ret: int)
      requires Valid() && d !in Repr && d.Valid()
      modifies this`token, d
      ensures Valid() && d.Valid()
      ensures Matches(JsonParser.InReal(old(Model()), old(d.Nodes()), ch), true, ret, Model(), d.Nodes())
    {
      ret := 0;
      if IsRealChar(ch) {
        token := token + [ch];
      } else {
        FinishScalar(d, "double");
        ret := if IsSpace(ch) then 1 else -1;
      }
    }

    method InToken(d: Deserializer, ch: char) returns (ok: bool, ret: int)
      requires Valid() && d !in Repr && d.Valid()
      modifies this`token, d
      ensures Valid() && d.Valid()
      ensures Matches(JsonParser.InToken(old(Model()), old(d.Nodes()), ch), ok, ret, Model(), d.Nodes())
    {
      hide IsAlpha, OpenNodes.SetTypeName, OpenNodes.SetValue, OpenNodes.SetNull;
      ok, ret := true, 0;
      if IsAlpha(ch) {
        token := token + [ch];
      } else {
        ret := -1;
        if token == "true" || token == "false" {
          FinishScalar(d, "bool");
        } else if token == "null" {
          d.SetTypeName("null");
          d.SetNull();
          token := "";
        } else {
          ok := false;
        }
      }
    }

    method InString(d: Deserializer, ch: char) returns (ok: bool, ret: int)
      requires Valid() && d !in Repr && d.Valid() && reader.Model().Valid()
      modifies this`state, reader, d
      ensures Valid() && d.Valid()
      ensures Matches(JsonParser.InString(old(Model()), old(d.Nodes()), ch), ok, ret, Model(), d.Nodes())
    {
      hide JsonParser.FirstStep, JsonParser.ValueStart, JsonParser.NameStart, JsonParser.InPlainName, JsonParser.InName, JsonParser.BeginObjectMember, JsonParser.AfterMember, JsonParser.AfterElement,
           JsonParser.ObjectEnd, JsonParser.ArrayEnd, JsonParser.InNumber, JsonParser.InReal, JsonParser.InToken, JsonParser.InComment, JsonString.Advance, JsonParser.Quiet;
      var done;
      ret := 0;
      ok, done := reader.Advance(ch);
      if ok && done {
        d.SetValue(reader.str);
        d.SetTypeName("string");
        reader.Clear();
        state := End;
        ret := 1;
      }
    }

    method InName(d: Deserializer, ch: char) returns (ok: bool)
      requires Valid() && d !in Repr && d.Valid() && reader.Model().Valid() && state == ObjName
      modifies this`state, reader
      ensures Valid() && d.Valid()
      ensures Matches(JsonParser.InName(old(Model()), old(d.Nodes()), ch), ok, 0, Model(), d.Nodes())
    {
      var done;
      ok, done := reader.Advance(ch);
      if ok && done {
        state := ObjAfterName;
      }
    }

    method InPlainName(d: Deserializer, ch: char) returns (ok: bool)
      requires Valid() && d !in Repr && d.Valid()
      modifies this, reader, next, d
      ensures Valid() && d.Valid() && fresh(Repr - old(Repr)) && d !in Repr
      ensures Matches(JsonParser.InPlainName(old(Model()), old(d.Nodes()), ch), ok, 0, Model(), d.Nodes())
    {
      ok := true;
      if IsAlnum(ch) || ch == 'l' {
        token := token + [ch];
      } else if IsSpace(ch) {
        reader.str := token;
        token := "";
        state := ObjAfterName;
      } else if ch == ':' {
        var name := token;
        token := "";
        BeginObjectMember(d, name);
      } else {
        ok := false;
      }
    }

    method InComment(ghost nodes: OpenNodes.Stack, ch: char) returns (ok: bool)
      requires Valid() && state.IsComment()
      modifies this`state
      ensures Valid()
      ensures Matches(JsonParser.InComment(old(Model()), nodes, ch), ok, 0, Model(), nodes)
    {
      ok := true;
      match state
      case Comment0 =>
        if ch == '/' {
          state := CommentLine;
        } else if ch == '*' {
          state := Comment;
        } else {
          ok := false;
        }
      case CommentLine =>
        if ch == '\n' { state := nextState; }
      case Comment =>
        if ch == '*' { state := CommentE; }
      case CommentE =>
        if ch == '/' {
          state := nextState;
        } else if ch != '*' {
          state := Comment;
        }
    }

    /** After the inner parser has seen `ch` and returned `ret`. */
    method AfterMember(d: Deserializer, ch: char, ret0: int, ghost r: Outcome) returns (ok: bool, ret: int)
      requires Valid() && d !in Repr && d.Valid() && next != null
      requires r == Ret(ret0, next.Model(), d.Nodes())
      modifies this`state, this`nextState, d
      ensures ok ==> Valid() && d.Valid()
      ensures ok ==> Matches(JsonParser.AfterMember(old(Model()), r, ch), ok, ret, Model(), d.Nodes())
      ensures !ok ==> JsonParser.AfterMember(old(Model()), r, ch).Fail?
    {
      ok, ret := true, 0;
      ghost var p := Model();
      assert p.(next := r.p) == p;
      if ret0 != 0 {
        ok := d.LeaveMember();
        state := ObjE;
        if ok && ret0 == -1 {
          ok, ret := ObjectEnd(d, ch);
        }
      }
    }

    method AfterElement(d: Deserializer, ch: char, ret0: int, ghost r: Outcome) returns (ok: bool, ret: int)
      requires Valid() && d !in Repr && d.Valid() && next != null
      requires r == Ret(ret0, next.Model(), d.Nodes())
      modifies this`state, this`nextState, d
      ensures ok ==> Valid() && d.Valid()
      ensures ok ==> Matches(JsonParser.AfterElement(old(Model()), r, ch), ok, ret, Model(), d.Nodes())
      ensures !ok ==> JsonParser.AfterElement(old(Model()), r, ch).Fail?
    {
      ok, ret := true, 0;
      ghost var p := Model();
      assert p.(next := r.p) == p;
      if ret0 != 0 {
        state := ArrE;
        if ret0 == -1 {
          ok, ret := ArrayEnd(d, ch);
        }
      }
    }

    /** The states in which the character goes to the inner parser first. */
    method AdvanceInner(d: Deserializer, ch: char) returns (ok: bool, ret: int)
      requires Valid() && JsonParser.Valid(Model()) && d !in Repr && d.Valid()
      requires state in {ObjValue, ArrValue}
      modifies Repr, d
      ensures ok ==> Valid() && d.Valid() && d !in Repr && fresh(Repr - old(Repr))
      ensures !ok ==> Step(old(Model()), old(d.Nodes()), ch).Fail?
      ensures ok ==> Matches(Step(old(Model()), old(d.Nodes()), ch), ok, ret, Model(), d.Nodes())
      decreases Repr, 0
    {
      hide Step, JsonParser.AfterMember, JsonParser.AfterElement, JsonParser.Quiet;
      ghost var p, nodes := Model(), d.Nodes();
      ghost var r := Step(p.next, nodes, ch);
      InnerStep(p, nodes, ch);
      ok, ret := next.Advance(d, ch);
      if !ok {
        return;
      }
      Repr := Repr + next.Repr;
      assert r == Ret(ret, next.Model(), d.Nodes());
      assert Model() == p.(next := r.p);
      if state == ObjValue {
        ok, ret := AfterMember(d, ch, ret, r);
      } else {
        ok, ret := AfterElement(d, ch, ret, r);
      }
    }

    method Advance(d: Deserializer, ch: char) returns (ok: bool, ret: int)
      requires Valid() && JsonParser.Valid(Model()) && d !in Repr && d.Valid()
      modifies Repr, d
      ensures ok ==> Valid() && d.Valid() && d !in Repr && fresh(Repr - old(Repr))
      ensures !ok ==> Step(old(Model()), old(d.Nodes()), ch).Fail?
      ensures ok ==> Matches(Step(old(Model()), old(d.Nodes()), ch), ok, ret, Model(), d.Nodes())
      decreases Repr, 2
    {
      hide JsonParser.ObjectEnd, JsonParser.ArrayEnd, JsonParser.InName, JsonParser.InPlainName, JsonParser.Quiet;
      ok, ret := true, 0;
      match state
      case ObjValue | ArrValue => ok, ret := AdvanceInner(d, ch);
      case ObjE => ok, ret := ObjectEnd(d, ch);
      case ArrE => ok, ret := ArrayEnd(d, ch);
      case ObjName => ok := InName(d, ch);
      case ObjPlainName => ok := InPlainName(d, ch);
      case ObjAfterName => ok := AdvanceAfterName(d, ch);
      case Obj | ObjNextMember0 | ObjNextMember => ok, ret := AdvanceObject(d, ch);
      case Arr | ArrValue0 => ret := AdvanceArray(d, ch);
      case Str | Number | Real | Token => ok, ret := AdvanceScalar(d, ch);
      case BeforeStart | Null | End | Comment0 | CommentLine | Comment | CommentE => ok := AdvanceAround(d, ch);
    }

    method AdvanceScalar(d: Deserializer, ch: char) returns (ok: bool, ret: int)
      requires Valid() && JsonParser.Valid(Model()) && d !in Repr && d.Valid() && state in {Str, Number, Real, Token}
      modifies this`state, this`token, reader, d
      ensures Valid() && d.Valid()
      ensures Matches(Step(old(Model()), old(d.Nodes()), ch), ok, ret, Model(), d.Nodes())
    {
      ScalarStep(Model(), d.Nodes(), ch);
      hide Step, JsonParser.Valid, JsonParser.InString, JsonParser.InNumber, JsonParser.InReal, JsonParser.InToken, JsonParser.Quiet;
      ok, ret := true, 0;
      match state
      case Str => ok, ret := InString(d, ch);
      case Number => ret := InNumber(d, ch);
      case Real => ret := InReal(d, ch);
      case Token => ok, ret := InToken(d, ch);
    }

    /** Before and behind a value, and inside a comment. */
    method AdvanceAround(d: Deserializer, ch: char) returns (ok: bool)
      requires Valid() && JsonParser.Valid(Model()) && d !in Repr && d.Valid()
      requires state in {BeforeStart, Null, End} || state.IsComment()
      modifies this`state, this`nextState, this`token, d
      ensures Valid() && d.Valid()
      ensures Matches(Step(old(Model()), old(d.Nodes()), ch), ok, 0, Model(), d.Nodes())
    {
      hide JsonParser.FirstStep, JsonParser.ValueStart, JsonParser.NameStart, JsonParser.InPlainName, JsonParser.InName, JsonParser.BeginObjectMember, JsonParser.AfterMember, JsonParser.AfterElement,
           JsonParser.ObjectEnd, JsonParser.ArrayEnd, JsonParser.InString, JsonParser.InNumber, JsonParser.InReal, JsonParser.InToken, JsonParser.InComment, JsonParser.Quiet;
      ok := true;
      match state
      case BeforeStart => FirstStep(d, ch);
      case Null => ValueStart(d, ch);
      case End => ok := AdvanceEnd(d, ch);
      case Comment0 | CommentLine | Comment | CommentE => ok := InComment(d.Nodes(), ch);
    }

    method AdvanceObject(d: Deserializer, ch: char) returns (ok: bool, ret: int)
      requires Valid() && JsonParser.Valid(Model()) && d !in Repr && d.Valid()
      requires state in {Obj, ObjNextMember0, ObjNextMember}
      modifies this`state, this`nextState, this`token, reader
      ensures Valid() && d.Valid()
      ensures Matches(Step(old(Model()), d.Nodes(), ch), ok, ret, Model(), d.Nodes())
    {
      hide JsonParser.FirstStep, JsonParser.ValueStart, JsonParser.NameStart, JsonParser.InPlainName, JsonParser.InName, JsonParser.BeginObjectMember, JsonParser.AfterMember, JsonParser.AfterElement,
           JsonParser.ObjectEnd, JsonParser.ArrayEnd, JsonParser.InString, JsonParser.InNumber, JsonParser.InReal, JsonParser.InToken, JsonParser.InComment, JsonParser.Quiet;
      ok, ret := true, 0;
      if ch == '}' && state != ObjNextMember {
        state := End;
        ret := 1;
      } else if state != ObjNextMember0 {
        ok := NameStart(d, ch);
      } else if !IsSpace(ch) {
        state := ObjNextMember;
        ok := NameStart(d, ch);
      }
    }

    method AdvanceAfterName(d: Deserializer, ch: char) returns (ok: bool)
      requires Valid() && JsonParser.Valid(Model()) && d !in Repr && d.Valid() && state == ObjAfterName
      modifies this, reader, next, d
      ensures Valid() && d.Valid() && fresh(Repr - old(Repr)) && d !in Repr
      ensures Matches(Step(old(Model()), old(d.Nodes()), ch), ok, 0, Model(), d.Nodes())
    {
      ok := true;
      if ch == ':' {
        BeginObjectMember(d, reader.str);
      } else if ch == '/' {
        ToComment();
      } else {
        ok := IsSpace(ch);
      }
    }

    /** The first element of an array, or the one after a comma. */
    method AdvanceArray(d: Deserializer, ch: char) returns (ret: int)
      requires Valid() && JsonParser.Valid(Model()) && d !in Repr && d.Valid() && state in {Arr, ArrValue0}
      modifies this, next, d
      ensures Valid() && d.Valid() && fresh(Repr - old(Repr)) && d !in Repr
      ensures Matches(Step(old(Model()), old(d.Nodes()), ch), true, ret, Model(), d.Nodes())
    {
      hide Step, JsonParser.FirstStep, JsonParser.Quiet;
      JsonNesting.ArrayStep(Model(), d.Nodes(), ch);
      ret := 0;
      if ch == ']' {
        state := End;
        ret := 1;
      } else if state == Arr && ch == '/' {
        ToComment();
      } else if !IsSpace(ch) {
        NewElement(d, ch);
      }
    }

    /** The return value of the inner parser is not used here; it is always 0. */
    method NewElement(d: Deserializer, ch: char)
      requires Valid() && JsonParser.Valid(Model()) && d !in Repr && d.Valid() && state in {Arr, ArrValue0}
      modifies this, next, d
      ensures Valid() && d.Valid() && fresh(Repr - old(Repr)) && d !in Repr
      ensures var p := old(Model());
              var r := JsonParser.FirstStep(Inner(p), OpenNodes.BeginMember(old(d.Nodes()), ""), ch);
              r.Ret? && Model() == p.(next := r.p, state := ArrValue) && d.Nodes() == r.d
    {
      hide JsonParser.FirstStep, JsonParser.Quiet, JsonParser.Valid;
      ghost var p := Model();
      BeginInner(d, "");
      state := ArrValue;
      assert next.Model() == Inner(p);
      next.FirstStep(d, ch);
      assert Valid() && Model() == p.(state := ArrValue, next := next.Model());
    }

    /** A complete word goes to the tree; an unknown one is left alone. */
    method FinishWord(d: Deserializer)
      requires Valid() && d !in Repr && d.Valid()
      modifies this`token, d
      ensures Valid() && d.Valid()
      ensures d.Nodes() == match WordValue(old(d.Nodes()), old(token))
                           case None => old(d.Nodes())
                           case Some(nodes) => nodes
    {
      if token == "true" || token == "false" {
        FinishScalar(d, "bool");
      } else if token == "null" {
        d.SetTypeName("null");
        d.SetNull();
        token := "";
      }
    }

    /** Completes a scalar that the end of the text ended. */
    method Finish(d: Deserializer) returns (ok: bool)
      requires Valid() && d !in Repr && d.Valid()
      modifies this, d
      ensures d.Valid()
      ensures match JsonDocument.Finish(old(Model()), old(d.Nodes()))
              case None => !ok
              case Some(nodes) => ok && d.Nodes() == nodes
    {
      if state == CommentLine {
        state := nextState;
      }
      ok := FinishState(d);
    }

    method FinishState(d: Deserializer) returns (ok: bool)
      requires Valid() && d !in Repr && d.Valid() && (state == CommentLine ==> nextState == CommentLine)
      modifies this`token, d
      ensures d.Valid()
      ensures match JsonDocument.Finish(old(Model()), old(d.Nodes()))
              case None => !ok
              case Some(nodes) => ok && d.Nodes() == nodes
    {
      FinishByState(Model(), d.Nodes());
      hide JsonDocument.Finish, JsonParser.WordValue, OpenNodes.SetTypeName, OpenNodes.SetValue;
      ok := true;
      if state == Number {
        FinishScalar(d, "int");
      } else if state == Real {
        FinishScalar(d, "double");
      } else if state == Token {
        FinishWord(d);
      } else {
        ok := state == End;
      }
    }

    method AdvanceEnd(d: Deserializer, ch: char) returns (ok: bool)
      requires Valid() && JsonParser.Valid(Model()) && d !in Repr && d.Valid() && state == End
      modifies this`state, this`nextState
      ensures Valid() && d.Valid()
      ensures Matches(Step(old(Model()), d.Nodes(), ch), ok, 0, Model(), d.Nodes())
    {
      ok := true;
      if ch == '/' {
        ToComment();
      } else {
        ok := IsSpace(ch);
      }
    }
  }

  lemma FeedEnd(p: Parser, d: OpenNodes.Stack)
    requires JsonParser.Valid(p) && OpenNodes.Depth(d) > Open(p)
    ensures JsonNesting.Feed(p, d, []) == JsonNesting.Fed(0, [], p, d)
  {
  }

  lemma FeedStep(p: Parser, d: OpenNodes.Stack, s: string)
    requires JsonParser.Valid(p) && OpenNodes.Depth(d) > Open(p) && s != []
    ensures match Step(p, d, s[0])
            case Fail(_) => JsonNesting.Feed(p, d, s).Failed?
            case Ret(code, q, d') =>
              && JsonParser.Valid(q) && OpenNodes.Depth(d') > Open(q)
              && JsonNesting.Feed(p, d, s) ==
                 if code == 0 then JsonNesting.Feed(q, d', s[1..]) else JsonNesting.Fed(code, s[1..], q, d')
  {
    hide Step;
    JsonNesting.StepKeeps(p, d, OpenNodes.Depth(d) - Open(p), s[0]);
  }

  /**
   Reads one document the way `JsonDeserializer` does: characters are fed until the parser
   returns non-zero, then `finish` completes a pending scalar.
   */
  method Deserialize(parser: PushParser, text: string) returns (r: Option<Node>)
    requires parser.Valid() && Quiet(parser.Model())
    modifies parser.Repr
    ensures r == JsonDocument.Load(old(parser.Model()), text)
  {
    hide Step, JsonNesting.Feed, JsonDocument.Finish, Quiet, JsonParser.Valid, Open;
    JsonNesting.BeginIsValid(parser.Model());
    var d := new Deserializer();
    parser.Begin();
    ghost var start := parser.Model();
    ghost var all := JsonNesting.Feed(start, JsonDocument.EMPTY, text);
    var i, ok, ret := 0, true, 0;
    while ret == 0 && i < |text|
      invariant 0 <= i <= |text| && d.Valid() && d !in parser.Repr && fresh(parser.Repr - old(parser.Repr)) && fresh(d)
      invariant parser.Valid() && JsonParser.Valid(parser.Model()) && OpenNodes.Depth(d.Nodes()) > Open(parser.Model())
      invariant all == if ret == 0 then JsonNesting.Feed(parser.Model(), d.Nodes(), text[i..])
                       else JsonNesting.Fed(ret, text[i..], parser.Model(), d.Nodes())
      decreases |text| - i
    {
      ghost var p, nodes := parser.Model(), d.Nodes();
      FeedStep(p, nodes, text[i..]);
      ok, ret := parser.Advance(d, text[i]);
      if !ok {
        return None;
      }
      assert text[i..][1..] == text[i + 1..];
      i := i + 1;
    }
    FeedEnd(parser.Model(), d.Nodes());
    assert ret == 0 ==> text[i..] == [];
    assert all == JsonNesting.Fed(ret, text[i..], parser.Model(), d.Nodes());
    ok := parser.Finish(d);
    if !ok {
      return None;
    }
    var root := d.Current();
    return Some(root);
  }
}
