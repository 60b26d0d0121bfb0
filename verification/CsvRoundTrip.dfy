/** The text of a table in the form of section 2 of RFC 4180, and the parser on such a text. */
module CsvRoundTrip {
  import opened Wrappers
  import opened Chars
  import opened SerializationTree
  import opened OpenNodes
  import opened CsvParser

  // ---- the text of a table ----

  predicate IsPlain(v: string) {
    forall i :: 0 <= i < |v| ==> v[i] != '"' && v[i] != ',' && v[i] != '\n' && v[i] != '\r'
  }

  function Doubled(v: string): string
    decreases |v|
  {
    if v == "" then "" else (if v[0] == '"' then "\"\"" else [v[0]]) + Doubled(v[1..])
  }

  function CsvOut(v: string): string {
    if IsPlain(v) then v else "\"" + Doubled(v) + "\""
  }

  /** The cells after the first one, each behind a comma. */
  function MoreCells(cells: seq<string>): string
    decreases |cells|
  {
    if cells == [] then "" else "," + CsvOut(cells[0]) + MoreCells(cells[1..])
  }

  function Line(cells: seq<string>): string {
    if cells == [] then "\n" else CsvOut(cells[0]) + MoreCells(cells[1..]) + "\n"
  }

  function Lines(rows: seq<seq<string>>): string
    decreases |rows|
  {
    if rows == [] then "" else Line(rows[0]) + Lines(rows[1..])
  }

  // ---- the tree of a table ----

  function CellNode(title: string, v: string): Node {
    Node(Value, title, "", if v == "" then None else Some(v), [])
  }

  function RowNode(cells: seq<Node>): Node {
    Node(Object, "", "", None, cells)
  }

  function Cells(titles: seq<string>, values: seq<string>): (r: seq<Node>)
    requires |values| <= |titles|
    ensures |r| == |values|
  {
    seq(|values|, i requires 0 <= i < |values| => CellNode(titles[i], values[i]))
  }

  function TableNode(rows: seq<Node>): Node {
    if rows == [] then FreshNode("") else Node(Array, "", "", None, rows)
  }

  predicate IsTable(titles: seq<string>, rows: seq<seq<string>>) {
    titles != [] && forall i :: 0 <= i < |rows| ==> |rows[i]| == |titles|
  }

  function RowNodes(titles: seq<string>, rows: seq<seq<string>>): seq<Node>
    requires IsTable(titles, rows)
  {
    seq(|rows|, i requires 0 <= i < |rows| => RowNode(Cells(titles, rows[i])))
  }

  // ---- one cell ----

  lemma FeedFirst(p: Parser, c: char, tail: string)
    requires p.titles != []
    ensures Step(p, c).Some? ==> Step(p, c).value.titles != []
    ensures Feed(p, [c] + tail) == match Step(p, c) case None => None case Some(q) => Feed(q, tail)
  {
    hide Step;
    StepKeepsTitles(p, c);
    assert ([c] + tail)[1..] == tail;
  }

  /** Read without quotes, given the parser's delimiter. */
  predicate Readable(delimiter: char, v: string) {
    IsPlain(v) ==> delimiter !in v && (v != "" ==> v[0] != '\'')
  }

  lemma {:induction false} PlainChars(p: Parser, v: string, tail: string)
    requires p.titles != [] && p.state == Data && IsPlain(v) && p.delimiter !in v
    ensures Feed(p, v + tail) == Feed(p.(value := p.value + v), tail)
    decreases |v|
  {
    hide TitleStep, DataStartStep, RowStartStep, QDataEndStep;
    if v == "" {
      assert v + tail == tail && p.value + v == p.value;
    } else {
      assert v + tail == [v[0]] + (v[1..] + tail);
      FeedFirst(p, v[0], v[1..] + tail);
      var q := p.(value := p.value + [v[0]]);
      assert Step(p, v[0]) == Some(q);
      PlainChars(q, v[1..], tail);
      assert p.value + [v[0]] + v[1..] == p.value + v;
    }
  }

  /** One character between quotes, as it is printed. */
  lemma QuotedChar(p: Parser, c: char, rest: string)
    requires p.titles != [] && p.state == QData && p.quote == '"'
    ensures Feed(p, (if c == '"' then "\"\"" else [c]) + rest) == Feed(p.(value := p.value + [c]), rest)
  {
    hide Feed, TitleStep, DataStartStep, RowStartStep, DataStep;
    if c == '"' {
      assert "\"\"" + rest == ['"'] + (['"'] + rest);
      FeedFirst(p, '"', ['"'] + rest);
      FeedFirst(p.(state := QDataEnd), '"', rest);
    } else {
      FeedFirst(p, c, rest);
    }
  }

  lemma DoubledNone(tail: string)
    ensures Doubled("") + tail == tail
  {
  }

  lemma DoubledFirst(v: string, tail: string)
    requires v != ""
    ensures Doubled(v) + tail == (if v[0] == '"' then "\"\"" else [v[0]]) + (Doubled(v[1..]) + tail)
  {
  }

  lemma {:induction false} QuotedChars(p: Parser, v: string, tail: string)
    requires p.titles != [] && p.state == QData && p.quote == '"'
    ensures Feed(p, Doubled(v) + tail) == Feed(p.(value := p.value + v), tail)
    decreases |v|
  {
    hide Feed, Doubled;
    if v == "" {
      DoubledNone(tail);
      assert p.value + v == p.value;
    } else {
      var rest := Doubled(v[1..]) + tail;
      DoubledFirst(v, tail);
      QuotedChar(p, v[0], rest);
      QuotedChars(p.(value := p.value + [v[0]]), v[1..], tail);
      assert p.value + [v[0]] + v[1..] == p.value + v;
    }
  }

  function QuoteAfter(quote: char, v: string): char {
    if IsPlain(v) then quote else '"'
  }

  /** The parser with a cell's text behind it and the cell still open. */
  function CellRead(p: Parser, v: string): Parser {
    p.(state := if v == "" then Data0 else if IsPlain(v) then Data else QDataEnd,
       value := v, quote := QuoteAfter(p.quote, v))
  }

  lemma PlainCellText(p: Parser, v: string, tail: string)
    requires p.titles != [] && p.state == Data0 && p.value == "" && Readable(p.delimiter, v) && v != "" && IsPlain(v)
    ensures Feed(p, v + tail) == Feed(p.(state := Data, value := v), tail)
  {
    hide Feed, TitleStep, DataStartStep, RowStartStep, QDataEndStep;
    assert v + tail == [v[0]] + (v[1..] + tail);
    FeedFirst(p, v[0], v[1..] + tail);
    var q := p.(state := Data, value := [v[0]]);
    assert p.value + [v[0]] == [v[0]];
    assert Step(p, v[0]) == Some(q);
    PlainChars(q, v[1..], tail);
    assert [v[0]] + v[1..] == v;
  }

  lemma QuotedCellText(p: Parser, v: string, tail: string)
    requires p.titles != [] && p.state == Data0 && p.value == ""
    ensures Feed(p, "\"" + Doubled(v) + "\"" + tail) == Feed(p.(state := QDataEnd, value := v, quote := '"'), tail)
  {
    hide Feed, Doubled, TitleStep, DataStartStep, RowStartStep, DataStep, QDataEndStep;
    var q := p.(state := QData, quote := '"');
    var rest := ['"'] + tail;
    assert "\"" + Doubled(v) + "\"" + tail == ['"'] + (Doubled(v) + rest);
    FeedFirst(p, '"', Doubled(v) + rest);
    QuotedChars(q, v, rest);
    assert "" + v == v;
    FeedFirst(q.(value := v), '"', tail);
  }

  lemma CellText(p: Parser, v: string, tail: string)
    requires p.titles != [] && p.state == Data0 && p.value == "" && Readable(p.delimiter, v)
    ensures Feed(p, CsvOut(v) + tail) == Feed(CellRead(p, v), tail)
  {
    hide Feed, Doubled;
    if v == "" {
      assert CsvOut(v) + tail == tail;
    } else if IsPlain(v) {
      PlainCellText(p, v, tail);
    } else {
      QuotedCellText(p, v, tail);
    }
  }

  // ---- a row ----

  /** Ready for cell number `|done|` of a row, which is open: `done` are the cells before it. */
  function AtCell(p: Parser, root: Node, done: seq<Node>): Parser {
    p.(state := Data0, value := "", column := |done|, d := Stack(CellNode(TitleFor(p, |done|), ""), [root, RowNode(done)]))
  }

  lemma CellStored(p: Parser, root: Node, done: seq<Node>, v: string)
    ensures var q := CellRead(AtCell(p, root, done), v);
            StoreValue(q) == q.(value := "", d := Stack(CellNode(TitleFor(p, |done|), v), [root, RowNode(done)]))
  {
  }

  lemma CellLeft(p: Parser, root: Node, done: seq<Node>, c: Node)
    ensures Leave(p.(d := Stack(c, [root, RowNode(done)]))) == Some(p.(d := Stack(RowNode(done + [c]), [root])))
  {
    assert [root, RowNode(done)][..1] == [root];
  }

  lemma RowLeft(p: Parser, root: Node, row: Node)
    ensures Leave(p.(d := Stack(row, [root]))) == Some(p.(d := Stack(WithMember(root, row), [])))
  {
  }

  lemma CellOpened(p: Parser, root: Node, done: seq<Node>)
    requires p.value == "" && p.column == |done| && p.d == Stack(RowNode(done), [root])
    ensures OpenCell(p).(state := Data0) == AtCell(p, root, done)
  {
    assert [root] + [RowNode(done)] == [root, RowNode(done)];
  }

  lemma CellThenDelimiter(p: Parser, root: Node, done: seq<Node>, v: string)
    requires p.titles != [] && !IsBreak(p.delimiter) && !IsQuote(p.delimiter) && Readable(p.delimiter, v)
    ensures Step(CellRead(AtCell(p, root, done), v), p.delimiter)
            == Some(AtCell(p.(quote := QuoteAfter(p.quote, v)), root, done + [CellNode(TitleFor(p, |done|), v)]))
  {
    hide StoreValue, Leave, OpenCell, TitleStep, DataStartStep, RowStartStep, CheckColumns;
    var q := CellRead(AtCell(p, root, done), v);
    var c := CellNode(TitleFor(p, |done|), v);
    CellStored(p, root, done, v);
    var s := q.(value := "");
    CellLeft(s, root, done, c);
    var r := s.(d := Stack(RowNode(done + [c]), [root]), column := s.column + 1);
    CellOpened(r, root, done + [c]);
  }

  lemma CellThenNewline(p: Parser, root: Node, done: seq<Node>, v: string)
    requires p.titles != [] && p.noColumns == Some(|done| + 1) && Readable(p.delimiter, v) && p.delimiter != '\n'
    ensures Step(CellRead(AtCell(p, root, done), v), '\n')
            == Some(p.(state := RowStart, value := "", column := |done|, quote := QuoteAfter(p.quote, v),
                       d := Stack(WithMember(root, RowNode(done + [CellNode(TitleFor(p, |done|), v)])), [])))
  {
    hide StoreValue, Leave, OpenCell, TitleStep, DataStartStep, RowStartStep;
    var q := CellRead(AtCell(p, root, done), v);
    var c := CellNode(TitleFor(p, |done|), v);
    CellStored(p, root, done, v);
    var s := q.(value := "");
    CellLeft(s, root, done, c);
    RowLeft(s, root, RowNode(done + [c]));
  }

  function QuoteAfterAll(quote: char, cells: seq<string>): char
    decreases |cells|
  {
    if cells == [] then quote else QuoteAfterAll(QuoteAfter(quote, cells[0]), cells[1..])
  }

  predicate AllReadable(delimiter: char, cells: seq<string>) {
    forall i :: 0 <= i < |cells| ==> Readable(delimiter, cells[i])
  }

  /** The cells from number `|done|` on. */
  function CellsFrom(titles: seq<string>, k: nat, values: seq<string>): seq<Node>
    requires k + |values| <= |titles|
    decreases |values|
  {
    if values == [] then [] else [CellNode(titles[k], values[0])] + CellsFrom(titles, k + 1, values[1..])
  }

  lemma {:induction false} CellsFromStart(titles: seq<string>, k: nat, values: seq<string>)
    requires k + |values| <= |titles|
    ensures |CellsFrom(titles, k, values)| == |values|
    ensures forall i :: 0 <= i < |values| ==> CellsFrom(titles, k, values)[i] == CellNode(titles[k + i], values[i])
    decreases |values|
  {
    if values != [] {
      CellsFromStart(titles, k + 1, values[1..]);
    }
  }

  /** The rest of a row, from any of its cells. */
  lemma {:induction false} RowText(p: Parser, root: Node, done: seq<Node>, values: seq<string>, tail: string)
    requires values != [] && |done| + |values| == |p.titles| && p.noColumns == Some(|p.titles|)
    requires AllReadable(p.delimiter, values) && (p.delimiter == ',' || (|values| == 1 && p.delimiter != '\n'))
    ensures Feed(AtCell(p, root, done), Line(values) + tail)
            == Feed(p.(state := RowStart, value := "", column := |p.titles| - 1, quote := QuoteAfterAll(p.quote, values),
                       d := Stack(WithMember(root, RowNode(done + CellsFrom(p.titles, |done|, values))), [])), tail)
    decreases |values|
  {
    hide Feed, Step, Readable, AtCell, QuoteAfter, Line, WithMember;
    var v, more := values[0], values[1..];
    var c := CellNode(p.titles[|done|], v);
    if more == [] {
      LastCell(p, root, done, v, tail);
      assert values == [v];
      assert CellsFrom(p.titles, |done|, values) == [c];
    } else {
      FirstCell(p, root, done, values, tail);
      var q := p.(quote := QuoteAfter(p.quote, v));
      RowText(q, root, done + [c], more, tail);
      assert done + [c] + CellsFrom(p.titles, |done| + 1, more) == done + CellsFrom(p.titles, |done|, values);
    }
  }

  lemma LastCell(p: Parser, root: Node, done: seq<Node>, v: string, tail: string)
    requires p.titles != [] && |done| + 1 == |p.titles| && p.noColumns == Some(|p.titles|)
    requires Readable(p.delimiter, v) && p.delimiter != '\n'
    ensures Feed(AtCell(p, root, done), Line([v]) + tail)
            == Feed(p.(state := RowStart, value := "", column := |done|, quote := QuoteAfter(p.quote, v),
                       d := Stack(WithMember(root, RowNode(done + [CellNode(p.titles[|done|], v)])), [])), tail)
  {
    hide Feed, CsvOut, Step, Readable, AtCell, CellRead, QuoteAfter, WithMember;
    AtCellReady(p, root, done);
    var at := AtCell(p, root, done);
    assert [v][1..] == [];
    assert Line([v]) + tail == CsvOut(v) + (['\n'] + tail);
    CellText(at, v, ['\n'] + tail);
    FeedFirst(CellRead(at, v), '\n', tail);
    CellThenNewline(p, root, done, v);
  }

  lemma FirstCell(p: Parser, root: Node, done: seq<Node>, values: seq<string>, tail: string)
    requires |values| > 1 && |done| + |values| == |p.titles| && p.delimiter == ',' && Readable(',', values[0])
    ensures Feed(AtCell(p, root, done), Line(values) + tail)
            == Feed(AtCell(p.(quote := QuoteAfter(p.quote, values[0])), root, done + [CellNode(p.titles[|done|], values[0])]),
                    Line(values[1..]) + tail)
  {
    hide Feed, CsvOut, Step, Readable, AtCell, CellRead, QuoteAfter;
    var v, more := values[0], values[1..];
    var at := AtCell(p, root, done);
    AtCellReady(p, root, done);
    AtCellReady(p.(quote := QuoteAfter(p.quote, v)), root, done + [CellNode(p.titles[|done|], v)]);
    LineSplits(values, tail);
    CellText(at, v, [','] + (Line(more) + tail));
    FeedFirst(CellRead(at, v), ',', Line(more) + tail);
    CellThenDelimiter(p, root, done, v);
  }

  lemma LineSplits(values: seq<string>, tail: string)
    requires |values| > 1
    ensures Line(values) + tail == CsvOut(values[0]) + ([','] + (Line(values[1..]) + tail))
  {
    hide CsvOut;
    var more := values[1..];
    assert MoreCells(more) == "," + CsvOut(more[0]) + MoreCells(more[1..]);
    Regroup(CsvOut(values[0]), CsvOut(more[0]), MoreCells(more[1..]), tail);
  }

  lemma Regroup(a: string, b: string, m: string, tail: string)
    ensures a + ("," + b + m) + "\n" + tail == a + ([','] + (b + m + "\n" + tail))
  {
    assert "," == [','];
  }

  lemma AtCellReady(p: Parser, root: Node, done: seq<Node>)
    ensures var q := AtCell(p, root, done);
            q.titles == p.titles && q.state == Data0 && q.value == "" && q.delimiter == p.delimiter && q.quote == p.quote
    ensures forall v :: CellRead(AtCell(p, root, done), v).titles == p.titles
  {
  }

  // ---- the start of a row ----

  /** A row that starts with delimiters does not open its cells ahead, but comes to the same. */
  function Ahead(q: Parser): Parser {
    OpenCell(q).(state := Data0)
  }

  lemma AheadDelimiter(q: Parser, root: Node, done: seq<Node>)
    requires q.state == DataStart && q.value == "" && q.titles != [] && q.column == |done| && q.d == Stack(RowNode(done), [root])
    requires !IsBreak(q.delimiter) && !IsQuote(q.delimiter)
    ensures var q' := q.(column := |done| + 1, d := Stack(RowNode(done + [CellNode(TitleFor(q, |done|), "")]), [root]));
            DataStartStep(q, q.delimiter) == Some(q') && Step(Ahead(q), q.delimiter) == Some(Ahead(q'))
  {
    hide Leave, TitleStep, RowStartStep, QDataEndStep;
    var c := CellNode(TitleFor(q, |done|), "");
    CellOpened(q, root, done);
    var at := AtCell(q, root, done);
    CellStored(q, root, done, "");
    CellLeft(at, root, done, c);
    CellLeft(OpenCell(q).(column := q.column + 1), root, done, c);
  }

  lemma AheadBreak(q: Parser, root: Node, done: seq<Node>, ch: char)
    requires q.state == DataStart && q.value == "" && q.titles != [] && q.column == |done| && q.d == Stack(RowNode(done), [root])
    requires IsBreak(ch)
    ensures DataStartStep(q, ch) == Step(Ahead(q), ch)
  {
    hide Leave, OpenCell, TitleStep, RowStartStep, QDataEndStep;
    var c := CellNode(TitleFor(q, |done|), "");
    CellOpened(q, root, done);
    var at := AtCell(q, root, done);
    CellStored(q, root, done, "");
    var o := OpenCell(q);
    assert o == at.(state := DataStart);
    CellLeft(o, root, done, c);
    var checked := at.(noColumns := Some(at.column + 1));
    CellLeft(at, root, done, c);
    CellLeft(checked, root, done, c);
    RowLeft(o, root, RowNode(done + [c]));
    RowLeft(o.(noColumns := Some(at.column + 1)), root, RowNode(done + [c]));
    RowLeft(at, root, RowNode(done + [c]));
    RowLeft(checked, root, RowNode(done + [c]));
  }

  lemma AheadOther(q: Parser, ch: char)
    requires q.state == DataStart && q.value == "" && q.titles != [] && !IsBreak(ch) && (ch != q.delimiter || IsQuote(ch))
    ensures DataStartStep(q, ch) == Step(Ahead(q), ch)
  {
    hide Leave, TitleStep, RowStartStep, QDataEndStep, BeginMember;
  }

  lemma {:induction false} AheadFeed(q: Parser, root: Node, done: seq<Node>, text: string)
    requires q.state == DataStart && q.value == "" && q.titles != [] && q.column == |done| && q.d == Stack(RowNode(done), [root])
    requires !IsBreak(q.delimiter) && !IsQuote(q.delimiter) && '\n' in text
    ensures Feed(q, text) == Feed(Ahead(q), text)
    decreases |text|
  {
    hide Feed, Step, DataStartStep, OpenCell;
    var ch, rest := text[0], text[1..];
    assert text == [ch] + rest;
    StepAtDataStart(q, ch);
    FeedFirst(q, ch, rest);
    FeedFirst(Ahead(q), ch, rest);
    if ch == q.delimiter {
      AheadDelimiter(q, root, done);
      var c := CellNode(TitleFor(q, |done|), "");
      var q' := q.(column := |done| + 1, d := Stack(RowNode(done + [c]), [root]));
      AheadFeed(q', root, done + [c], rest);
    } else if IsBreak(ch) {
      AheadBreak(q, root, done, ch);
    } else {
      AheadOther(q, ch);
    }
  }

  lemma StepAtDataStart(q: Parser, ch: char)
    requires q.state == DataStart && q.titles != []
    ensures Step(q, ch) == DataStartStep(q, ch)
  {
    hide DataStartStep;
  }

  /** A parser at a row start, with the rows so far. */
  function AtRow(p: Parser, rows: seq<Node>): Parser {
    p.(state := RowStart, value := "", d := Stack(TableNode(rows), []))
  }

  lemma RowOpened(p: Parser, rows: seq<Node>, text: string)
    requires p.titles != [] && !p.skipEmptyLines && text != ""
    ensures var root := Node(Array, "", "", None, rows);
            var q := OpenRow(AtRow(p, rows));
            && q == p.(state := DataStart, value := "", column := 0, d := Stack(RowNode([]), [root]))
            && Feed(AtRow(p, rows), text) == Feed(q, text)
  {
    hide Feed, DataStartStep;
    var q := OpenRow(AtRow(p, rows));
    assert text == [text[0]] + text[1..];
    FeedFirst(AtRow(p, rows), text[0], text[1..]);
    FeedFirst(q, text[0], text[1..]);
  }

  /** One row: printed and read back behind the rows before it. */
  lemma RowReadsBack(p: Parser, rows: seq<Node>, values: seq<string>, tail: string)
    requires !p.skipEmptyLines && values != [] && |values| == |p.titles| && p.noColumns == Some(|p.titles|)
    requires AllReadable(p.delimiter, values) && (p.delimiter == ',' || (|values| == 1 && p.delimiter == AUTO))
    ensures Feed(AtRow(p, rows), Line(values) + tail)
            == Feed(AtRow(p.(column := |p.titles| - 1, quote := QuoteAfterAll(p.quote, values)),
                          rows + [RowNode(Cells(p.titles, values))]), tail)
  {
    hide Feed, Line, OpenRow, OpenCell, QuoteAfterAll, AllReadable, Cells, CellsFrom;
    var root := Node(Array, "", "", None, rows);
    var text := Line(values) + tail;
    LineEnds(values, tail);
    RowOpened(p, rows, text);
    var q := OpenRow(AtRow(p, rows));
    AheadFeed(q, root, [], text);
    CellOpened(q, root, []);
    assert AtCell(q, root, []) == AtCell(p, root, []);
    RowText(p, root, [], values, tail);
    AllCells(p.titles, values);
  }

  lemma AllCells(titles: seq<string>, values: seq<string>)
    requires |values| <= |titles|
    ensures [] + CellsFrom(titles, 0, values) == Cells(titles, values)
  {
    CellsFromStart(titles, 0, values);
  }

  lemma LineEnds(values: seq<string>, tail: string)
    ensures '\n' in Line(values) + tail
  {
    hide CsvOut;
    var l := Line(values);
    assert l[|l| - 1] == '\n';
    assert (l + tail)[|l| - 1] == '\n';
  }

  lemma {:induction false} RowsReadBack(p: Parser, done: seq<Node>, rows: seq<seq<string>>)
    requires !p.skipEmptyLines && IsTable(p.titles, rows) && p.noColumns == Some(|p.titles|)
    requires forall i :: 0 <= i < |rows| ==> AllReadable(p.delimiter, rows[i])
    requires p.delimiter == ',' || (|p.titles| == 1 && p.delimiter == AUTO)
    ensures var r := Feed(AtRow(p, done), Lines(rows));
            r.Some? && r.value.state == RowStart && r.value.d == Stack(TableNode(done + RowNodes(p.titles, rows)), [])
    decreases |rows|
  {
    hide Line, QuoteAfterAll, AllReadable, Cells;
    if rows == [] {
      assert done + RowNodes(p.titles, rows) == done;
    } else {
      hide Feed, RowNodes;
      RowReadsBack(p, done, rows[0], Lines(rows[1..]));
      var q := p.(column := |p.titles| - 1, quote := QuoteAfterAll(p.quote, rows[0]));
      var row := RowNode(Cells(p.titles, rows[0]));
      RowsReadBack(q, done + [row], rows[1..]);
      RowNodesFirst(p.titles, done, rows);
    }
  }

  lemma RowNodesFirst(titles: seq<string>, done: seq<Node>, rows: seq<seq<string>>)
    requires IsTable(titles, rows) && rows != []
    ensures done + [RowNode(Cells(titles, rows[0]))] + RowNodes(titles, rows[1..]) == done + RowNodes(titles, rows)
  {
    hide Cells;
    assert RowNodes(titles, rows) == [RowNode(Cells(titles, rows[0]))] + RowNodes(titles, rows[1..]);
  }

  // ---- titles ----

  /** Titles that are printed as they are and read as they are. */
  predicate PlainTitle(t: string) {
    IsPlain(t) && AllAscii(t) && '\'' !in t
  }

  /** The first title if the parser has to find out the delimiter. */
  predicate DetectableTitle(t: string) {
    forall i :: 0 <= i < |t| ==> IsTitleChar(t[i])
  }

  predicate PlainTitles(auto: bool, titles: seq<string>) {
    titles != [] && (forall i :: 0 <= i < |titles| ==> PlainTitle(titles[i])) && (auto ==> DetectableTitle(titles[0]))
  }

  lemma {:induction false} TitleChars(p: Parser, done: seq<string>, part: string, t: string, tail: string)
    requires p.titles == done + [part] && PlainTitle(t)
    requires (p.state == Title && p.delimiter == ',') || (p.state == DetectDelim && DetectableTitle(t))
    ensures Feed(p, t + tail) == Feed(p.(titles := done + [part + t]), tail)
    decreases |t|
  {
    hide Feed;
    if t == "" {
      assert t + tail == tail && part + t == part;
    } else {
      assert t + tail == [t[0]] + (t[1..] + tail);
      FeedFirst(p, t[0], t[1..] + tail);
      TitleChar(p, done, part, t[0]);
      var q := p.(titles := done + [part + [t[0]]]);
      assert AllAscii(t[1..]);
      TitleChars(q, done, part + [t[0]], t[1..], tail);
      assert part + [t[0]] + t[1..] == part + t;
    }
  }

  lemma TitleChar(p: Parser, done: seq<string>, part: string, c: char)
    requires p.titles == done + [part] && PlainTitle([c])
    requires (p.state == Title && p.delimiter == ',') || (p.state == DetectDelim && IsTitleChar(c))
    ensures Step(p, c) == Some(p.(titles := done + [part + [c]]))
  {
    hide DataStartStep, RowStartStep, DataStep, QDataEndStep;
    assert [c][0] == c;
    assert p.titles[|p.titles| - 1 := part + [c]] == done + [part + [c]];
  }

  lemma TitleEnd(p: Parser, c: char)
    requires p.state == Title && p.delimiter == ',' && p.titles != []
    ensures c == ',' ==> Step(p, c) == Some(p.(titles := p.titles + [""]))
    ensures c == '\n' ==> Step(p, c) == Some(p.(noColumns := Some(|p.titles|), state := RowStart))
  {
    hide DataStartStep, RowStartStep, DataStep, QDataEndStep;
  }

  lemma FirstTitleEnd(p: Parser, c: char)
    requires p.state == DetectDelim && |p.titles| == 1
    ensures c == ',' ==> Step(p, c) == Some(p.(titles := p.titles + [""], delimiter := ',', state := Title))
    ensures c == '\n' ==> Step(p, c) == Some(p.(noColumns := Some(1), state := RowStart))
  {
    hide DataStartStep, RowStartStep, DataStep, QDataEndStep;
  }

  predicate AllPlainTitles(titles: seq<string>) {
    forall i :: 0 <= i < |titles| ==> PlainTitle(titles[i])
  }

  lemma LineOfOne(v: string, tail: string)
    ensures Line([v]) + tail == CsvOut(v) + (['\n'] + tail)
  {
    hide CsvOut;
    assert [v][1..] == [];
  }

  /** A title and the comma or line end behind it. */
  lemma TitleText(p: Parser, done: seq<string>, t: string, c: char, rest: string)
    requires p.state == Title && p.delimiter == ',' && p.titles == done + [""] && PlainTitle(t) && (c == ',' || c == '\n')
    ensures var q := p.(titles := done + [t]);
            Feed(p, t + ([c] + rest)) == Feed(if c == ',' then q.(titles := q.titles + [""])
                                              else q.(noColumns := Some(|done| + 1), state := RowStart), rest)
  {
    hide Feed, Step, PlainTitle;
    var q := p.(titles := done + [t]);
    assert "" + t == t;
    TitleChars(p, done, "", t, [c] + rest);
    FeedFirst(q, c, rest);
    TitleEnd(q, c);
  }

  lemma FirstTitleText(p: Parser, t: string, c: char, rest: string)
    requires p.state == DetectDelim && p.titles == [""] && PlainTitle(t) && DetectableTitle(t) && (c == ',' || c == '\n')
    ensures var q := p.(titles := [t]);
            Feed(p, t + ([c] + rest)) == Feed(if c == ',' then q.(titles := [t, ""], delimiter := ',', state := Title)
                                              else q.(noColumns := Some(1), state := RowStart), rest)
  {
    hide Feed, Step, PlainTitle;
    var q := p.(titles := [t]);
    assert "" + t == t && [""] == [] + [""] && [t] == [] + [t];
    TitleChars(p, [], "", t, [c] + rest);
    FeedFirst(q, c, rest);
    FirstTitleEnd(q, c);
    assert [t] + [""] == [t, ""];
  }

  lemma {:induction false} TitlesReadBack(p: Parser, done: seq<string>, titles: seq<string>, tail: string)
    requires p.state == Title && p.delimiter == ',' && p.titles == done + [""] && titles != [] && AllPlainTitles(titles)
    ensures Feed(p, Line(titles) + tail)
            == Feed(p.(titles := done + titles, noColumns := Some(|done| + |titles|), state := RowStart), tail)
    decreases |titles|
  {
    hide Feed, PlainTitle, Line, CsvOut;
    var t, more := titles[0], titles[1..];
    TitleIsPlain(t);
    if more == [] {
      assert titles == [t];
      LineOfOne(t, tail);
      TitleText(p, done, t, '\n', tail);
    } else {
      LineSplits(titles, tail);
      TitleText(p, done, t, ',', Line(more) + tail);
      TitlesReadBack(p.(titles := done + [t] + [""]), done + [t], more, tail);
      assert done + [t] + more == done + titles;
    }
  }

  lemma TitleIsPlain(t: string)
    requires PlainTitle(t)
    ensures CsvOut(t) == t
  {
  }

  /** The title line, with the delimiter known or to be detected. */
  lemma TitleLineReadsBack(auto: bool, titles: seq<string>, tail: string)
    requires PlainTitles(auto, titles)
    ensures var p := Begin(if auto then AUTO else ',', true, false).value;
            Feed(p, Line(titles) + tail)
            == Feed(p.(titles := titles, noColumns := Some(|titles|), state := RowStart,
                       delimiter := if auto && |titles| == 1 then AUTO else ','), tail)
  {
    hide Feed, PlainTitle, DetectableTitle, Line, CsvOut;
    var p := Begin(if auto then AUTO else ',', true, false).value;
    assert [] + [""] == [""];
    var t, more := titles[0], titles[1..];
    TitleIsPlain(t);
    if !auto {
      TitlesReadBack(p, [], titles, tail);
      assert [] + titles == titles;
    } else if more == [] {
      assert titles == [t];
      LineOfOne(t, tail);
      FirstTitleText(p, t, '\n', tail);
    } else {
      LineSplits(titles, tail);
      FirstTitleText(p, t, ',', Line(more) + tail);
      assert [t, ""] == [t] + [""] && [t] + more == titles;
      TitlesReadBack(p.(titles := [t, ""], delimiter := ',', state := Title), [t], more, tail);
    }
  }

  /** What the parser ends up with as its delimiter. */
  function FinalDelimiter(auto: bool, titles: seq<string>): char {
    if auto && |titles| == 1 then AUTO else ','
  }

  /** Reading back the text of a table gives the table, with empty values as null. */
  lemma TableReadsBack(auto: bool, titles: seq<string>, rows: seq<seq<string>>)
    requires IsTable(titles, rows) && PlainTitles(auto, titles)
    requires forall i :: 0 <= i < |rows| ==> AllReadable(FinalDelimiter(auto, titles), rows[i])
    ensures Load(if auto then AUTO else ',', true, false, Line(titles) + Lines(rows))
            == Some(TableNode(RowNodes(titles, rows)))
  {
    hide Feed, Line, Lines, AllReadable, PlainTitles, RowNodes;
    var p := Begin(if auto then AUTO else ',', true, false).value;
    var q := p.(titles := titles, noColumns := Some(|titles|), state := RowStart, delimiter := FinalDelimiter(auto, titles));
    TitleLineReadsBack(auto, titles, Lines(rows));
    assert q == AtRow(q, []);
    RowsReadBack(q, [], rows);
    assert [] + RowNodes(titles, rows) == RowNodes(titles, rows);
  }

  // ---- a value that starts with a single quote ----

  lemma {:induction false} SingleQuotedChars(p: Parser, w: string)
    requires p.titles != [] && p.state == QData && p.quote == '\'' && '\'' !in w
    ensures Feed(p, w) == Some(p.(value := p.value + w))
    decreases |w|
  {
    if w == "" {
      assert p.value + w == p.value;
    } else {
      hide TitleStep, DataStartStep, RowStartStep, DataStep, QDataEndStep;
      var q := p.(value := p.value + [w[0]]);
      assert Step(p, w[0]) == Some(q);
      SingleQuotedChars(q, w[1..]);
      assert p.value + [w[0]] + w[1..] == p.value + w;
    }
  }

  /**
   Such a value is printed without quotes but read as the start of a quoted one: the quote
   is lost and the line end becomes part of the value.
   */
  lemma SingleQuoteIsLost(title: string, w: string)
    requires PlainTitle(title) && IsPlain(w) && '\'' !in w
    ensures Line(["'" + w]) == "'" + w + "\n"
    ensures Load(',', true, false, Line([title]) + Lines([["'" + w]])) == Some(TableNode([RowNode([CellNode(title, w + "\n")])]))
  {
    hide Feed, PlainTitle, Line, Lines;
    var v := "'" + w;
    assert IsPlain(v);
    LineIs(v);
    var text := ['\''] + (w + "\n");
    assert v + "\n" == text;
    TitleLineReadsBack(false, [title], text);
    var q := Begin(',', true, false).value.(titles := [title], noColumns := Some(1), state := RowStart);
    QuoteSwallowsTheLine(q, w);
  }

  lemma QuoteSwallowsTheLine(q: Parser, w: string)
    requires |q.titles| == 1 && q.noColumns == Some(1) && q.state == RowStart && q.delimiter == ',' && q.value == ""
    requires q.d == Stack(FreshNode(""), []) && !q.skipEmptyLines && '\'' !in w
    ensures var r := Feed(q, ['\''] + (w + "\n"));
            && r.Some? && Finish(r.value).Some?
            && Finish(r.value).value.d.top == TableNode([RowNode([CellNode(q.titles[0], w + "\n")])])
  {
    hide Feed, Finish, OpenRow, OpenCell;
    var text := ['\''] + (w + "\n");
    var root := Node(Array, "", "", None, []);
    assert AtRow(q, []) == q;
    RowOpened(q, [], text);
    var o := OpenRow(q);
    CellOpened(o, root, []);
    FeedFirst(o, '\'', w + "\n");
    var r := OpenCell(o).(quote := '\'', state := QData);
    assert Step(o, '\'') == Some(r);
    SingleQuotedChars(r, w + "\n");
    FinishesOneRow(r, root, w + "\n");
  }

  lemma LineIs(v: string)
    requires IsPlain(v)
    ensures Line([v]) == v + "\n" && Lines([[v]]) == v + "\n"
  {
    assert [v][1..] == [];
    assert [[v]][1..] == [];
  }

  lemma FinishesOneRow(r: Parser, root: Node, v: string)
    requires r.titles != [] && r.d == Stack(CellNode(r.titles[0], ""), [root, RowNode([])])
    requires r.noColumns == Some(1) && r.column == 0 && r.state == QData && v != "" && r.value == ""
    ensures var f := Finish(r.(value := "" + v));
            f.Some? && f.value.d.top == WithMember(root, RowNode([CellNode(r.titles[0], v)]))
  {
    hide Leave;
    assert "" + v == v;
    var s := r.(value := v);
    var c := CellNode(r.titles[0], v);
    assert StoreValue(s) == s.(value := "", d := Stack(c, [root, RowNode([])]));
    CellLeft(s.(value := ""), root, [], c);
    assert [] + [c] == [c];
    RowLeft(s.(value := ""), root, RowNode([c]));
  }
}
