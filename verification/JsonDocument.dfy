/**
 Whole documents: reading a text as `JsonDeserializer` does, and exactly which printed trees
 come back.
 */
module JsonDocument {
  import opened Wrappers
  import opened Chars
  import opened SerializationTree
  import opened OpenNodes
  import opened JsonParser
  import opened JsonNesting
  import opened JsonText
  import opened JsonRoundTrip
  import opened JsonUnreadable

  /** `JsonParser::finish`; `None` is its exception.  An unknown word is let through. */
  function Finish(p: Parser, d: Stack): Option<Stack>
    requires p.Parser?
  {
    match (if p.state == CommentLine then p.nextState else p.state)
    case Number => Some(SetTypeName(SetValue(d, p.token), "int"))
    case Real => Some(SetTypeName(SetValue(d, p.token), "double"))
    case Token => Some(match WordValue(d, p.token) case None => d case Some(d') => d')
    case End => Some(d)
    case _ => None
  }

  const EMPTY: Stack := Stack(FreshNode(""), [])

  /** `begin`, one `advance` per character until it returns non-zero, then `finish`. */
  function Load(p: Parser, s: string): Option<Node>
    requires p.Parser? && Quiet(p)
  {
    match Feed(Begin(p), EMPTY, s)
    case Failed(_) => None
    case Fed(_, _, q, d) =>
      match Finish(q, d)
      case None => None
      case Some(d') => Some(d'.top)
  }

  predicate NamesAscii(n: Node)
    decreases n
  {
    AllAscii(n.name) && forall m :: m in n.members ==> NamesAscii(m)
  }

  lemma {:induction false} RereadFixpoint(n: Node)
    ensures Reread(n) == n <==> NamesAscii(n)
    decreases n, 1
  {
    Utf8Fixpoint(n.name);
    RereadAllFixpoint(n.members);
  }

  lemma {:induction false} RereadAllFixpoint(ms: seq<Node>)
    ensures RereadAll(ms) == ms <==> forall m :: m in ms ==> NamesAscii(m)
    decreases ms, 0
  {
    if ms != [] {
      RereadFixpoint(ms[0]);
      RereadAllFixpoint(ms[1..]);
      assert ms == [ms[0]] + ms[1..];
      assert forall m :: m in ms <==> m == ms[0] || m in ms[1..];
    }
  }

  predicate IsNumber(n: Node) {
    n.category == Value && n.value.Some? && n.typeName in {"int", "double"}
  }

  lemma DocumentParts(l: Layout, n: Node)
    requires n.name == ""
    ensures DocumentText(l, n) == ValueText(l, n, 0) + Newline(l)
  {
    hide ValueText;
    assert Head(l, n, 0, true) == "";
  }

  lemma EmptyName()
    ensures Utf8("") == ""
  {
  }

  /** Whatever follows a value that has reported its end is not read. */
  lemma LoadFilled(p: Parser, text: string, n: Node, rest: string)
    requires p.Parser? && Quiet(p)
    requires Valid(Begin(p)) && Open(Begin(p)) == 0 && Fills(Feed(Begin(p), EMPTY, text), EMPTY, n)
    ensures Load(p, text + rest) == Some(n)
  {
    hide Feed, Valid, Open, Quiet;
    FeedConcat(Begin(p), EMPTY, text, rest);
  }

  /** Strings, objects and arrays: the parser stops at the last character, `finish` adds nothing. */
  lemma LoadClosed(p: Parser, l: Layout, n: Node)
    requires p.Parser? && Quiet(p) && Readable(l, n) && n.name == "" && IsClosed(n)
    ensures Load(p, DocumentText(l, n)) == Some(Reread(n))
  {
    hide Feed, Load, Fills, ValueText, Shaped, KeysReadable, Readable, IsClosed, Reread, Utf8, Newline, DocumentText, Valid, Open, Quiet;
    DocumentParts(l, n);
    EmptyName();
    BeginIsValid(p);
    FeedClosed(Begin(p), EMPTY, l, n, 0);
    LoadFilled(p, ValueText(l, n, 0), Reread(n), Newline(l));
  }

  /** What is read back for a scalar: a number followed by anything loses its text in `finish`. */
  function RereadScalar(l: Layout, n: Node): Node {
    if l.beautify && IsNumber(n) then n.(value := Some("")) else n
  }

  lemma FinishHeld(q: Parser, d: Stack, n: Node)
    requires HoldsScalar(q, n) && n.category == Value && n.name == "" && n.members == []
    requires d == if q.state == Token then EMPTY else SetCategory(EMPTY, Value)
    ensures Finish(q, d) == Some(SetTop(EMPTY, n))
  {
  }

  lemma FinishAfterNewline(q: Parser, d: Stack, n: Node)
    requires Valid(q) && HoldsScalar(q, n) && n.category == Value && n.name == "" && n.members == []
    requires d == if q.state == Token then EMPTY else SetCategory(EMPTY, Value)
    ensures var r := Step(q, d, '\n');
            r.Ret? && r.code != 0 && r.p.Parser? &&
            Finish(r.p, r.d) == Some(SetTop(EMPTY, if IsNumber(n) then n.(value := Some("")) else n))
  {
  }

  lemma LoadScalar(p: Parser, l: Layout, n: Node)
    requires p.Parser? && Quiet(p) && Shaped(n) && n.name == "" && !IsClosed(n)
    ensures Load(p, DocumentText(l, n)) == Some(RereadScalar(l, n))
  {
    hide Step, ValueText;
    DocumentParts(l, n);
    var q, d := FeedScalar(Begin(p), EMPTY, l, n, "", 0, Newline(l));
    if l.beautify {
      FinishAfterNewline(q, d, n);
    } else {
      FinishHeld(q, d, n);
    }
  }

  lemma LoadUnreadable(p: Parser, l: Layout, n: Node)
    requires p.Parser? && Quiet(p) && Shaped(n) && n.name == "" && !KeysReadable(l, n)
    ensures Load(p, DocumentText(l, n)) == None
  {
    hide Step, ValueText, KeysReadable, Shaped;
    DocumentParts(l, n);
    UnreadableFails(Begin(p), EMPTY, l, n, 0);
    FeedConcat(Begin(p), EMPTY, ValueText(l, n, 0), Newline(l));
  }

  /** The exact conditions under which a printed tree is read back unchanged. */
  predicate ComesBack(l: Layout, n: Node) {
    KeysReadable(l, n) && NamesAscii(n) && !(l.beautify && IsNumber(n))
  }

  /**
   The round trip, for every tree a parser can build, both layouts, quoted and plain keys, and
   any idle parser: the tree comes back exactly when `ComesBack` holds.
   */
  lemma DocumentRoundTrip(p: Parser, l: Layout, n: Node)
    requires p.Parser? && Quiet(p) && Shaped(n) && n.name == ""
    ensures Load(p, DocumentText(l, n)) == Some(n) <==> ComesBack(l, n)
  {
    hide Load, DocumentText;
    RereadFixpoint(n);
    if !KeysReadable(l, n) {
      LoadUnreadable(p, l, n);
    } else if IsClosed(n) {
      LoadClosed(p, l, n);
    } else {
      LoadScalar(p, l, n);
      assert IsNumber(n) ==> n.value.value != "" by {
        if IsNumber(n) && n.typeName == "double" { var k: nat :| SplitsReal(n.value.value, k); }
      }
    }
  }
}
