/**
 The text of a tree, in both layouts, written as a grammar: a separator stands between
 members by position, not by nesting level.
 */
module JsonText {
  import opened Wrappers
  import opened Chars
  import opened SerializationTree
  import JsonString

  datatype Layout = Layout(beautify: bool, plainkey: bool)

  function Newline(l: Layout): string {
    if l.beautify then "\n" else ""
  }

  function Tabs(level: nat): (r: string)
    ensures |r| == level && AllSpace(r)
  {
    seq(level, i => '\t')
  }

  function Indent(l: Layout, level: nat): (r: string)
    ensures AllSpace(r)
  {
    if l.beautify then Tabs(level) else ""
  }

  predicate IsPlain(name: string) {
    && name != ""
    && IsAlpha(name[0])
    && forall i :: 1 <= i < |name| ==> IsAlnum(name[i]) || name[i] == '_'
  }

  function KeyText(l: Layout, name: string): string {
    if name == "" then ""
    else (if l.plainkey && IsPlain(name) then name else "\"" + JsonString.Escape(name) + "\"")
         + ":" + (if l.beautify then " " else "")
  }

  /** `convert<bool>` of a string; anything else is a conversion error. */
  function ConvertBool(s: string): Option<bool> {
    if s == "true" || s == "1" then Some(true)
    else if s == "false" || s == "0" then Some(false)
    else None
  }

  predicate IsBareType(t: string) {
    t in {"int", "long", "float", "double", "microseconds", "milliseconds", "seconds", "minutes", "hours", "days", "decimal"}
  }

  /** The text of a scalar held as a string, by type name; a bool that does not convert has none. */
  function LeafText(typeName: string, value: string): string {
    if typeName == "bool" then
      match ConvertBool(value)
      case None => ""
      case Some(b) => if b then "true" else "false"
    else if IsBareType(typeName) then JsonString.Escape(value)
    else if typeName == "json" then value
    else if typeName == "null" then "null"
    else "\"" + JsonString.Escape(value) + "\""
  }

  predicate IsNull(n: Node) {
    n.value.None? && (n.category == Void || n.category == Value)
  }

  /** Storing a value in a node also gives it a category, so this holds of every node. */
  predicate Categorised(n: Node)
    decreases n
  {
    (n.value.Some? ==> n.category != Void) && forall m :: m in n.members ==> Categorised(m)
  }

  /** What the printer accepts: every bool leaf converts. */
  predicate Printable(n: Node)
    decreases n
  {
    match n.category
    case Void => true
    case Value => n.value.Some? && n.typeName == "bool" ==> ConvertBool(n.value.value).Some?
    case Object | Array => forall m :: m in n.members ==> Printable(m)
  }

  function ValueText(l: Layout, n: Node, level: nat): string
    decreases n, 0
  {
    if IsNull(n) then "null"
    else match n.category
      case Void => ""
      case Value => LeafText(n.typeName, n.value.value)
      case Object => "{" + Newline(l) + Tail(l, n.members, level + 1, true, '}')
      case Array => "[" + Newline(l) + Tail(l, n.members, level + 1, true, ']')
  }

  function Separator(l: Layout, first: bool): string {
    if first then "" else "," + Newline(l)
  }

  function Head(l: Layout, n: Node, level: nat, first: bool): string {
    Separator(l, first) + Indent(l, level) + KeyText(l, n.name)
  }

  /** The rest of a container from its next member on, closing bracket included. */
  function Tail(l: Layout, ms: seq<Node>, level: nat, first: bool, close: char): string
    requires level >= 1
    decreases ms
  {
    if ms == [] then Newline(l) + Indent(l, level - 1) + [close]
    else Head(l, ms[0], level, first) + (ValueText(l, ms[0], level) + Tail(l, ms[1..], level, false, close))
  }

  /** What a serializer writes for a tree, `finish` included. */
  function DocumentText(l: Layout, n: Node): string {
    Head(l, n, 0, true) + ValueText(l, n, 0) + Newline(l)
  }

  // ---------------------------------------------------------------- trees a parser builds

  predicate IsIntText(s: string) {
    && s != ""
    && (IsDigit(s[0]) || s[0] == '+' || s[0] == '-')
    && AllDigits(s[1..])
  }

  predicate IsRealTail(s: string) {
    forall i :: 0 <= i < |s| ==> IsDigit(s[i]) || s[i] in {'+', '-', '.', 'e', 'E'}
  }

  /** `k` splits a real into the part read as a number and the part that starts the fraction. */
  predicate SplitsReal(s: string, k: nat) {
    1 <= k < |s| && IsIntText(s[..k]) && s[k] in {'.', 'e', 'E'} && IsRealTail(s[k..])
  }

  ghost predicate IsRealText(s: string) {
    exists k :: SplitsReal(s, k)
  }

  ghost predicate ShapedLeaf(typeName: string, value: Option<string>) {
    match value
    case None => typeName == "null"
    case Some(s) =>
      || typeName == "string"
      || (typeName == "int" && IsIntText(s))
      || (typeName == "double" && IsRealText(s))
      || (typeName == "bool" && (s == "true" || s == "false"))
  }

  /** The trees that parsing can produce. */
  ghost predicate Shaped(n: Node)
    decreases n
  {
    match n.category
    case Void => false
    case Value => n.members == [] && ShapedLeaf(n.typeName, n.value)
    case Object => n.value.None? && n.typeName == "" && forall m :: m in n.members ==> Shaped(m)
    case Array => n.value.None? && n.typeName == "" && forall m :: m in n.members ==> Shaped(m) && m.name == ""
  }

  lemma {:induction false} ShapedIsPrintable(n: Node)
    requires Shaped(n)
    ensures Printable(n) && Categorised(n)
    decreases n
  {
    forall m | m in n.members ensures n.category in {Object, Array} ==> Printable(m) && Categorised(m) {
      if n.category in {Object, Array} { ShapedIsPrintable(m); }
    }
  }
}
