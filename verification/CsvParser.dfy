/**
 The CSV push parser as a step function over characters: titles first, then rows that it hands
 to the deserializer as members.
 */
module CsvParser {
  import opened Wrappers
  import opened Chars
  import opened SerializationTree
  import opened OpenNodes

  datatype State =
    | DetectDelim | DetectDelimQ | DetectDelimPostQ
    | Title | QTitle | QTitleP
    | Cr | RowStart | DataStart | Data0 | Data | QData | QDataEnd

  const AUTO: char := '\0'

  /** `noColumns` is None while it is unknown; `titles` always holds at least one title. */
  datatype Parser = Parser(state: State, delimiter: char, quote: char, skipEmptyLines: bool, titles: seq<string>,
                           value: string, column: nat, noColumns: Option<nat>, d: Stack)

  /** None is an exception. */
  type Result = Option<Parser>

  function Begin(delimiter: char, readTitle: bool, skipEmptyLines: bool): Result {
    if delimiter == AUTO && !readTitle then None
    else
      var state := if !readTitle then RowStart else if delimiter == AUTO then DetectDelim else Title;
      Some(Parser(state, delimiter, '\0', skipEmptyLines, [""], "", 0, None, Stack(FreshNode(""), [])))
  }

  function Narrow(ch: char): char {
    if IsByte(ch) then ch else '?'
  }

  predicate IsBreak(ch: char) {
    ch == '\n' || ch == '\r'
  }

  predicate IsQuote(ch: char) {
    ch == '"' || ch == '\''
  }

  function AfterBreak(ch: char): State {
    if ch == '\r' then Cr else RowStart
  }

  predicate InTitles(p: Parser) {
    p.state in {DetectDelim, DetectDelimQ, DetectDelimPostQ, Title, QTitle, QTitleP}
  }

  predicate InCell(p: Parser) {
    p.state in {Data0, Data, QData, QDataEnd}
  }

  // ---- what the parser does to the deserializer ----

  function Open(d: Stack, name: string, category: Category): (r: Stack)
    ensures Depth(r) == Depth(d) + 1
  {
    SetCategory(BeginMember(d, name), category)
  }

  function TitleFor(p: Parser, column: nat): string {
    if column < |p.titles| then p.titles[column] else ""
  }

  function OpenRow(p: Parser): (r: Parser)
    ensures Depth(r.d) == Depth(p.d) + 1 && r.titles == p.titles && r.state == DataStart
  {
    p.(d := Open(p.d, "", Object), state := DataStart, column := 0)
  }

  function OpenCell(p: Parser): (r: Parser)
    ensures Depth(r.d) == Depth(p.d) + 1 && r.titles == p.titles && r.state == p.state
  {
    p.(d := Open(p.d, TitleFor(p, p.column), Value))
  }

  function StoreValue(p: Parser): (r: Parser)
    ensures Depth(r.d) == Depth(p.d) && r.titles == p.titles && r.state == p.state
  {
    if p.value == "" then p.(d := SetNull(p.d)) else p.(d := SetValue(p.d, p.value), value := "")
  }

  function Leave(p: Parser): (r: Result)
    ensures r.None? <==> Depth(p.d) == 1
    ensures r.Some? ==> Depth(r.value.d) == Depth(p.d) - 1 && r.value.titles == p.titles && r.value.state == p.state
  {
    match LeaveMember(p.d)
    case None => None
    case Some(d) => Some(p.(d := d))
  }

  function LeaveTwice(p: Parser): (r: Result)
    ensures r.None? <==> Depth(p.d) <= 2
    ensures r.Some? ==> Depth(r.value.d) == Depth(p.d) - 2 && r.value.titles == p.titles && r.value.state == p.state
  {
    match Leave(p)
    case None => None
    case Some(q) => Leave(q)
  }

  function CheckColumns(p: Parser): (r: Result)
    ensures r.Some? ==> r.value.d == p.d && r.value.titles == p.titles && r.value.state == p.state
  {
    match p.noColumns
    case None => Some(p.(noColumns := Some(p.column + 1)))
    case Some(n) => if p.column + 1 == n then Some(p) else None
  }

  function InState(r: Result, state: State): Result {
    match r
    case None => None
    case Some(p) => Some(p.(state := state))
  }

  // ---- titles ----

  function AddToTitle(p: Parser, ch: char): Parser
    requires p.titles != []
  {
    p.(titles := p.titles[|p.titles| - 1 := p.titles[|p.titles| - 1] + [Narrow(ch)]])
  }

  function NextTitle(p: Parser): Parser {
    p.(titles := p.titles + [""], state := Title)
  }

  predicate IsTitleChar(ch: char) {
    IsAlnum(ch) || ch == '_' || ch == ' '
  }

  function TitleStep(p: Parser, ch: char): (r: Result)
    requires p.titles != []
    ensures r.Some? ==> r.value.titles != [] && r.value.d == p.d && (InTitles(p) ==> InTitles(r.value) || r.value.state in {Cr, RowStart})
  {
    match p.state
    case DetectDelim =>
      if IsTitleChar(ch) then Some(AddToTitle(p, ch))
      else if IsBreak(ch) then Some(p.(noColumns := Some(1), state := AfterBreak(ch)))
      else if IsQuote(ch) then Some(p.(quote := ch, state := DetectDelimQ))
      else Some(NextTitle(p.(delimiter := ch)))
    case DetectDelimQ => if ch == p.quote then Some(p.(state := DetectDelimPostQ)) else Some(AddToTitle(p, ch))
    case DetectDelimPostQ =>
      if IsTitleChar(ch) || IsQuote(ch) then None
      else if IsBreak(ch) then Some(p.(noColumns := Some(1), state := AfterBreak(ch)))
      else Some(NextTitle(p.(delimiter := ch)))
    case QTitle => if ch == p.quote then Some(p.(state := QTitleP)) else Some(AddToTitle(p, ch))
    case QTitleP =>
      if IsBreak(ch) then Some(p.(noColumns := Some(|p.titles|), state := AfterBreak(ch)))
      else if ch == p.delimiter then Some(NextTitle(p))
      else None
    case _ =>
      if IsBreak(ch) then Some(p.(noColumns := Some(|p.titles|), state := AfterBreak(ch)))
      else if ch == p.delimiter then Some(NextTitle(p))
      else if !IsQuote(ch) then Some(AddToTitle(p, ch))
      else if p.titles[|p.titles| - 1] == "" then Some(p.(quote := ch, state := QTitle))
      else None
  }

  // ---- rows ----

  /** The cell is complete and so is the row. */
  function EndRow(p: Parser, ch: char): (r: Result)
    ensures r.Some? ==> Depth(p.d) >= 3 && Depth(r.value.d) == Depth(p.d) - 2
                        && r.value.titles == p.titles && r.value.state == AfterBreak(ch)
  {
    match CheckColumns(StoreValue(p))
    case None => None
    case Some(q) => InState(LeaveTwice(q), AfterBreak(ch))
  }

  /** The cell is complete; the next one is opened at once. */
  function EndCell(p: Parser): (r: Result)
    ensures r.Some? ==> Depth(r.value.d) == Depth(p.d) && r.value.titles == p.titles && r.value.state == Data0
  {
    match Leave(StoreValue(p))
    case None => None
    case Some(q) => Some(OpenCell(q.(column := q.column + 1)).(state := Data0))
  }

  function DataStartStep(p: Parser, ch: char): (r: Result)
    requires p.state == DataStart
    ensures r.Some? ==> r.value.titles == p.titles
    ensures r.Some? ==> if IsBreak(ch) then Depth(r.value.d) == Depth(p.d) - 1 && r.value.state == AfterBreak(ch)
                        else if r.value.state == DataStart then Depth(r.value.d) == Depth(p.d)
                        else InCell(r.value) && Depth(r.value.d) == Depth(p.d) + 1
  {
    var q := OpenCell(p);
    if IsBreak(ch) then
      match Leave(q)
      case None => None
      case Some(r) =>
        match CheckColumns(r)
        case None => None
        case Some(s) => InState(Leave(s), AfterBreak(ch))
    else if IsQuote(ch) then Some(q.(quote := ch, state := QData))
    else if ch == p.delimiter then Leave(q.(column := q.column + 1))
    else Some(q.(value := q.value + [ch], state := Data))
  }

  function DataStep(p: Parser, ch: char): (r: Result)
    ensures r.Some? ==> r.value.titles == p.titles
    ensures r.Some? ==> if IsBreak(ch) then Depth(p.d) >= 3 && Depth(r.value.d) == Depth(p.d) - 2 && r.value.state == AfterBreak(ch)
                        else InCell(r.value) && Depth(r.value.d) == Depth(p.d)
  {
    if IsBreak(ch) then EndRow(p, ch)
    else if ch == p.delimiter then EndCell(p)
    else Some(p.(value := p.value + [ch], state := Data))
  }

  /** Behind a closing quote.  The last branch goes on collecting although the cell was left. */
  function QDataEndStep(p: Parser, ch: char): (r: Result)
    ensures r.Some? ==> r.value.titles == p.titles
    ensures r.Some? ==> if ch == p.quote then InCell(r.value) && Depth(r.value.d) == Depth(p.d)
                        else if IsBreak(ch) then Depth(p.d) >= 3 && Depth(r.value.d) == Depth(p.d) - 2 && r.value.state == AfterBreak(ch)
                        else InCell(r.value) && Depth(r.value.d) == if ch == p.delimiter then Depth(p.d) else Depth(p.d) - 1
  {
    if ch == p.quote then Some(p.(value := p.value + [ch], state := QData))
    else
      match Leave(StoreValue(p))
      case None => None
      case Some(q) =>
        if IsBreak(ch) then
          match CheckColumns(q)
          case None => None
          case Some(r) => InState(Leave(r), AfterBreak(ch))
        else if ch == p.delimiter then Some(OpenCell(q.(column := q.column + 1)).(state := Data0))
        else Some(q.(value := [q.quote] + q.value + [ch], state := Data))
  }

  function RowStartStep(p: Parser, ch: char): Result {
    if p.skipEmptyLines && IsBreak(ch) then Some(p.(column := 0, state := AfterBreak(ch)))
    else DataStartStep(OpenRow(p), ch)
  }

  function Step(p: Parser, ch: char): Result
    requires p.titles != []
  {
    match p.state
    case Cr => if ch == '\n' then Some(p.(state := RowStart)) else RowStartStep(p, ch)
    case RowStart => RowStartStep(p, ch)
    case DataStart => DataStartStep(p, ch)
    case Data0 => if IsQuote(ch) then Some(p.(quote := ch, state := QData)) else DataStep(p, ch)
    case Data => DataStep(p, ch)
    case QData => if ch == p.quote then Some(p.(state := QDataEnd)) else Some(p.(value := p.value + [ch]))
    case QDataEnd => QDataEndStep(p, ch)
    case _ => TitleStep(p, ch)
  }

  lemma StepKeepsTitles(p: Parser, ch: char)
    requires p.titles != []
    ensures Step(p, ch).Some? ==> Step(p, ch).value.titles != []
  {
    hide TitleStep, DataStartStep, DataStep, QDataEndStep, OpenRow;
  }

  function Feed(p: Parser, text: string): Result
    requires p.titles != []
    decreases |text|
  {
    if text == [] then Some(p)
    else
      StepKeepsTitles(p, text[0]);
      match Step(p, text[0])
      case None => None
      case Some(q) => Feed(q, text[1..])
  }

  function Finish(p: Parser): Result {
    match p.state
    case DataStart => Leave(p)
    case Data0 => FinishCell(p)
    case Data => FinishCell(p)
    case QData => FinishCell(p)
    case QDataEnd => LeaveTwice(StoreValue(p))
    case _ => Some(p)
  }

  function FinishCell(p: Parser): Result {
    match CheckColumns(p)
    case None => None
    case Some(q) => LeaveTwice(StoreValue(q))
  }

  /** The whole document. */
  function Load(delimiter: char, readTitle: bool, skipEmptyLines: bool, text: string): Option<Node> {
    match Begin(delimiter, readTitle, skipEmptyLines)
    case None => None
    case Some(p) =>
      match Feed(p, text)
      case None => None
      case Some(q) =>
        match Finish(q)
        case None => None
        case Some(r) => Some(r.d.top)
  }

  // ---- nesting, on every input ----

  /**
   How deep the deserializer is.  A cell that goes on behind its closing quote was already left,
   so a state within a row can be less deep than it should be.
   */
  predicate Nested(p: Parser) {
    && p.titles != []
    && match p.state
       case DataStart => Depth(p.d) == 2
       case Data0 => 1 <= Depth(p.d) <= 3
       case Data => 1 <= Depth(p.d) <= 3
       case QData => 1 <= Depth(p.d) <= 3
       case QDataEnd => 1 <= Depth(p.d) <= 3
       case _ => Depth(p.d) == 1
  }

  /** A cell that was left before its row was over. */
  predicate Unbalanced(p: Parser) {
    InCell(p) && Depth(p.d) < 3
  }

  /** The closing quote is followed by something else than a quote, a delimiter or a line end. */
  predicate Malformed(p: Parser, ch: char) {
    p.state == QDataEnd && ch != p.quote && !IsBreak(ch) && ch != p.delimiter
  }

  /** Whatever comes, a row start is reached with all rows left. */
  lemma StepKeepsNesting(p: Parser, ch: char)
    requires Nested(p)
    ensures Step(p, ch).Some? ==> Nested(Step(p, ch).value)
    ensures Step(p, ch).Some? && Unbalanced(p) ==> Unbalanced(Step(p, ch).value)
    ensures Step(p, ch).Some? && Unbalanced(Step(p, ch).value) ==> Unbalanced(p) || Malformed(p, ch)
  {
    hide TitleStep, DataStartStep, DataStep, QDataEndStep, OpenRow;
  }

  lemma {:induction false} NestingOnEveryInput(p: Parser, text: string)
    requires Nested(p)
    ensures Feed(p, text).Some? ==> Nested(Feed(p, text).value)
    ensures Feed(p, text).Some? && Unbalanced(p) ==> Unbalanced(Feed(p, text).value)
    decreases |text|
  {
    hide Step;
    if text != [] {
      StepKeepsTitles(p, text[0]);
      StepKeepsNesting(p, text[0]);
      if Step(p, text[0]).Some? {
        NestingOnEveryInput(Step(p, text[0]).value, text[1..]);
      }
    }
  }

  /** At every row start, on every input, nothing but the root is open. */
  lemma RowStartIsBalanced(delimiter: char, readTitle: bool, skipEmptyLines: bool, text: string)
    ensures var p := Begin(delimiter, readTitle, skipEmptyLines);
            p.Some? ==> Nested(p.value)
                        && (Feed(p.value, text).Some? && Feed(p.value, text).value.state == RowStart
                            ==> Depth(Feed(p.value, text).value.d) == 1)
  {
    var p := Begin(delimiter, readTitle, skipEmptyLines);
    if p.Some? {
      NestingOnEveryInput(p.value, text);
    }
  }

  /** A malformed cell is never recovered from: every continuation is refused. */
  lemma MalformedIsRefused(p: Parser, ch: char, text: string)
    requires Nested(p) && Malformed(p, ch) && Step(p, ch).Some?
    ensures Step(p, ch).value.titles != []
    ensures var r := Feed(Step(p, ch).value, text);
            r.Some? ==> Finish(r.value) == None
  {
    hide QDataEndStep, Feed, StoreValue, LeaveTwice;
    var q := Step(p, ch).value;
    StepKeepsNesting(p, ch);
    assert Unbalanced(q);
    NestingOnEveryInput(q, text);
  }
}
