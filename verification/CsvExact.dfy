/**
 The other half of the CSV round trip: a value that is printed without quotes and starts with a
 single quote, or contains the parser's delimiter, never comes back, whatever table it is in.
 */
module CsvExact {
  import opened Wrappers
  import opened SerializationTree
  import opened OpenNodes
  import opened CsvParser
  import opened CsvRoundTrip
  import S = CsvSerializer

  // ---- a wrong value in the tree stays there ----

  /** Row `r`, cell `c` exists and is not `v`. */
  predicate WrongCell(row: Node, c: nat, v: string) {
    c < |row.members| && row.members[c].value != Some(v)
  }

  predicate WrongTable(root: Node, r: nat, c: nat, v: string) {
    r < |root.members| && WrongCell(root.members[r], c, v)
  }

  /** The same while a row, and perhaps a cell of it, is open. */
  predicate Stored(d: Stack, r: nat, c: nat, v: string) {
    match |d.below|
    case 0 => WrongTable(d.top, r, c, v)
    case 1 => WrongTable(d.below[0], r, c, v) || (r == |d.below[0].members| && WrongCell(d.top, c, v))
    case 2 => WrongTable(d.below[0], r, c, v) || (r == |d.below[0].members| && WrongCell(d.below[1], c, v))
    case _ => false
  }

  lemma OpenKeepsStored(d: Stack, name: string, category: Category, r: nat, c: nat, v: string)
    requires Stored(d, r, c, v) && Depth(d) <= 2
    ensures Stored(Open(d, name, category), r, c, v)
  {
  }

  lemma LeaveKeepsStored(p: Parser, r: nat, c: nat, v: string)
    requires Stored(p.d, r, c, v) && 2 <= Depth(p.d) <= 3
    ensures Leave(p).Some? && Stored(Leave(p).value.d, r, c, v)
  {
  }

  lemma StoreKeepsStored(p: Parser, r: nat, c: nat, v: string)
    requires Stored(p.d, r, c, v) && Depth(p.d) == 3
    ensures Stored(StoreValue(p).d, r, c, v)
  {
  }

  /** The cell itself is still being read and can no longer become `v`. */
  predicate Pending(p: Parser, r: nat, c: nat, v: string) {
    && p.state in {QData, QDataEnd} && Depth(p.d) == 3
    && r == |p.d.below[0].members| && c == |p.d.below[1].members|
    && exists k :: 0 <= k < |p.value| && k < |v| && p.value[k] != v[k]
  }

  lemma PendingBecomesStored(p: Parser, r: nat, c: nat, v: string)
    requires Pending(p, r, c, v)
    ensures Leave(StoreValue(p)).Some? && Stored(Leave(StoreValue(p)).value.d, r, c, v)
  {
    assert p.value != v;
  }

  predicate Doomed(p: Parser, r: nat, c: nat, v: string) {
    Nested(p) && (Unbalanced(p) || Pending(p, r, c, v) || Stored(p.d, r, c, v))
  }

  lemma EndRowKeepsStored(p: Parser, ch: char, r: nat, c: nat, v: string)
    requires Stored(p.d, r, c, v) && Depth(p.d) == 3
    ensures EndRow(p, ch).Some? ==> Stored(EndRow(p, ch).value.d, r, c, v)
  {
    hide StoreValue, Leave, Stored;
    StoreKeepsStored(p, r, c, v);
    var q := CheckColumns(StoreValue(p));
    if q.Some? {
      LeaveKeepsStored(q.value, r, c, v);
      LeaveKeepsStored(Leave(q.value).value, r, c, v);
    }
  }

  lemma EndCellKeepsStored(p: Parser, r: nat, c: nat, v: string)
    requires Stored(p.d, r, c, v) && Depth(p.d) == 3
    ensures EndCell(p).Some? ==> Stored(EndCell(p).value.d, r, c, v)
  {
    hide StoreValue, Leave, Stored, Open;
    StoreKeepsStored(p, r, c, v);
    LeaveKeepsStored(StoreValue(p), r, c, v);
    var q := Leave(StoreValue(p)).value;
    OpenKeepsStored(q.d, TitleFor(q, q.column + 1), Value, r, c, v);
  }

  lemma DataStartKeepsStored(p: Parser, ch: char, r: nat, c: nat, v: string)
    requires p.state == DataStart && Stored(p.d, r, c, v) && Depth(p.d) == 2
    ensures DataStartStep(p, ch).Some? ==> Stored(DataStartStep(p, ch).value.d, r, c, v)
  {
    hide Leave, Stored, Open;
    var q := OpenCell(p);
    OpenKeepsStored(p.d, TitleFor(p, p.column), Value, r, c, v);
    LeaveKeepsStored(q, r, c, v);
    LeaveKeepsStored(q.(column := q.column + 1), r, c, v);
    var s := CheckColumns(Leave(q).value);
    if s.Some? {
      LeaveKeepsStored(s.value, r, c, v);
    }
  }

  /** Behind a closing quote, with the cell's own value or another one stored. */
  lemma QDataEndKeepsStored(p: Parser, ch: char, r: nat, c: nat, v: string)
    requires Depth(p.d) == 3 && !Malformed(p, ch) && p.state == QDataEnd && ch != p.quote
    requires Leave(StoreValue(p)).Some? && Stored(Leave(StoreValue(p)).value.d, r, c, v)
    ensures QDataEndStep(p, ch).Some? ==> Stored(QDataEndStep(p, ch).value.d, r, c, v)
  {
    hide StoreValue, Leave, Stored, Open;
    var q := Leave(StoreValue(p)).value;
    OpenKeepsStored(q.d, TitleFor(q, q.column + 1), Value, r, c, v);
    var s := CheckColumns(q);
    if s.Some? {
      LeaveKeepsStored(s.value, r, c, v);
    }
  }

  lemma StoredStep(p: Parser, ch: char, r: nat, c: nat, v: string)
    requires Nested(p) && !Unbalanced(p) && !Malformed(p, ch) && Stored(p.d, r, c, v)
    ensures Step(p, ch).Some? ==> Stored(Step(p, ch).value.d, r, c, v)
  {
    hide StoreValue, Leave, Stored, EndRow, EndCell, DataStartStep, QDataEndStep, TitleStep, Open;
    match p.state
    case Cr | RowStart =>
      OpenKeepsStored(p.d, "", Object, r, c, v);
      DataStartKeepsStored(OpenRow(p), ch, r, c, v);
    case DataStart => DataStartKeepsStored(p, ch, r, c, v);
    case Data0 | Data =>
      EndRowKeepsStored(p, ch, r, c, v);
      EndCellKeepsStored(p, r, c, v);
    case QDataEnd =>
      if ch == p.quote {
        QuoteAgain(p);
      } else {
        StoreKeepsStored(p, r, c, v);
        LeaveKeepsStored(StoreValue(p), r, c, v);
        QDataEndKeepsStored(p, ch, r, c, v);
      }
    case _ =>
  }

  lemma QuoteAgain(p: Parser)
    ensures QDataEndStep(p, p.quote) == Some(p.(value := p.value + [p.quote], state := QData))
  {
  }

  lemma PendingStep(p: Parser, ch: char, r: nat, c: nat, v: string)
    requires Nested(p) && Pending(p, r, c, v) && !Malformed(p, ch)
    ensures Step(p, ch).Some? ==> Pending(Step(p, ch).value, r, c, v) || Stored(Step(p, ch).value.d, r, c, v)
  {
    hide StoreValue, Leave, Stored, EndRow, EndCell, DataStartStep, QDataEndStep, TitleStep, Open;
    var k :| 0 <= k < |p.value| && k < |v| && p.value[k] != v[k];
    if p.state == QDataEnd && ch == p.quote {
      QuoteAgain(p);
      assert (p.value + [ch])[k] == p.value[k];
    } else if p.state == QDataEnd {
      PendingBecomesStored(p, r, c, v);
      QDataEndKeepsStored(p, ch, r, c, v);
    } else {
      assert (p.value + [ch])[k] == p.value[k];
    }
  }

  lemma StepKeepsDoomed(p: Parser, ch: char, r: nat, c: nat, v: string)
    requires Doomed(p, r, c, v)
    ensures Step(p, ch).Some? ==> Doomed(Step(p, ch).value, r, c, v)
  {
    StepKeepsNesting(p, ch);
    if Malformed(p, ch) && !Unbalanced(p) {
      MalformedUnbalances(p, ch);
    } else if !Unbalanced(p) {
      hide Step, Stored, Pending, Nested, Unbalanced, Malformed;
      if Pending(p, r, c, v) {
        PendingStep(p, ch, r, c, v);
      } else {
        StoredStep(p, ch, r, c, v);
      }
    }
  }

  lemma MalformedUnbalances(p: Parser, ch: char)
    requires Nested(p) && Malformed(p, ch)
    ensures Step(p, ch).Some? ==> Unbalanced(Step(p, ch).value)
  {
    hide QDataEndStep;
  }

  /** What a text leads to does not hold `v` in that place. */
  ghost predicate Missing(f: Result, r: nat, c: nat, v: string) {
    f.Some? && Finish(f.value).Some? ==> WrongTable(Finish(f.value).value.d.top, r, c, v)
  }

  lemma DoomedAtEnd(p: Parser, r: nat, c: nat, v: string)
    requires Doomed(p, r, c, v)
    ensures Finish(p).Some? ==> WrongTable(Finish(p).value.d.top, r, c, v)
  {
    hide StoreValue, Leave;
    if Unbalanced(p) {
    } else if InCell(p) {
      var q := if p.state == QDataEnd then Some(p) else CheckColumns(p);
      if q.Some? {
        CellAtEnd(q.value, r, c, v);
      }
    } else if p.state == DataStart {
      LeaveKeepsStored(p, r, c, v);
    }
  }

  lemma CellAtEnd(p: Parser, r: nat, c: nat, v: string)
    requires Depth(p.d) == 3 && (Pending(p, r, c, v) || Stored(p.d, r, c, v))
    ensures LeaveTwice(StoreValue(p)).Some? && WrongTable(LeaveTwice(StoreValue(p)).value.d.top, r, c, v)
  {
    hide StoreValue, Leave;
    if Pending(p, r, c, v) {
      PendingBecomesStored(p, r, c, v);
    } else {
      StoreKeepsStored(p, r, c, v);
      LeaveKeepsStored(StoreValue(p), r, c, v);
    }
    LeaveKeepsStored(Leave(StoreValue(p)).value, r, c, v);
  }

  lemma {:induction false} DoomedForever(p: Parser, text: string, r: nat, c: nat, v: string)
    requires Doomed(p, r, c, v)
    ensures Missing(Feed(p, text), r, c, v)
    decreases |text|
  {
    hide Step, Finish;
    if text == [] {
      DoomedAtEnd(p, r, c, v);
    } else {
      StepKeepsTitles(p, text[0]);
      StepKeepsDoomed(p, text[0], r, c, v);
      if Step(p, text[0]).Some? {
        DoomedForever(Step(p, text[0]).value, text[1..], r, c, v);
      }
    }
  }

  // ---- the bad value ----

  /** Printed without quotes, but with a single quote in front or with the parser's delimiter in it. */
  predicate IsBad(delimiter: char, v: string) {
    IsPlain(v) && v != "" && (v[0] == '\'' || delimiter in v)
  }

  lemma BadIsUnreadable(delimiter: char, v: string)
    ensures IsBad(delimiter, v) <==> !Readable(delimiter, v)
  {
  }

  /** A comma, or nothing if there is one column and no delimiter was found. */
  predicate Delimits(delimiter: char, columns: nat) {
    delimiter == ',' || (columns == 1 && delimiter == AUTO)
  }

  /** Inside a bad value that starts with a quote: less is collected than was printed. */
  ghost predicate Inside(p: Parser, r: nat, c: nat, taken: nat) {
    && Nested(p) && p.state in {QData, QDataEnd} && p.quote == '\'' && Depth(p.d) == 3 && p.delimiter in {',', AUTO}
    && r == |p.d.below[0].members| && c == |p.d.below[1].members| && |p.value| < taken
  }

  lemma {:induction false} BadValue(p: Parser, v: string, k: nat, sep: char, rest: string, r: nat, c: nat)
    requires IsPlain(v) && 1 <= k <= |v| && Inside(p, r, c, k) && (sep == p.delimiter == ',' || sep == '\n')
    ensures Missing(Feed(p, v[k..] + ([sep] + rest)), r, c, v)
    decreases |v| - k
  {
    hide Step, Feed, Finish, Pending, Stored, Unbalanced, Malformed;
    if k == |v| {
      assert v[k..] + ([sep] + rest) == [sep] + rest;
      FeedFirst(p, sep, rest);
      BadValueEnds(p, v, sep, r, c);
      if Step(p, sep).Some? {
        DoomedForever(Step(p, sep).value, rest, r, c, v);
      }
    } else {
      var ch, more := v[k], v[k + 1..] + ([sep] + rest);
      assert v[k..] + ([sep] + rest) == [ch] + more;
      FeedFirst(p, ch, more);
      InsideStep(p, ch, r, c, k, v);
      if Step(p, ch).Some? {
        if Doomed(Step(p, ch).value, r, c, v) {
          DoomedForever(Step(p, ch).value, more, r, c, v);
        } else {
          BadValue(Step(p, ch).value, v, k + 1, sep, rest, r, c);
        }
      }
    }
  }

  lemma InsideStep(p: Parser, ch: char, r: nat, c: nat, k: nat, v: string)
    requires Inside(p, r, c, k) && k <= |v| && !IsBreak(ch)
    ensures Step(p, ch).Some? ==> Doomed(Step(p, ch).value, r, c, v)
                                  || (Inside(Step(p, ch).value, r, c, k + 1) && Step(p, ch).value.delimiter == p.delimiter)
  {
    StepKeepsNesting(p, ch);
    if Malformed(p, ch) {
      MalformedUnbalances(p, ch);
    } else {
      hide StoreValue, Leave, DataStartStep, TitleStep, Stored, Open, QDataEndStep;
      if p.state == QDataEnd {
        if ch == p.quote {
          QuoteAgain(p);
        } else {
          TooShort(p, v, r, c);
          QDataEndKeepsStored(p, ch, r, c, v);
        }
      }
    }
  }

  /** The comma or line end behind the bad value either ends it too early or becomes part of it. */
  lemma BadValueEnds(p: Parser, v: string, sep: char, r: nat, c: nat)
    requires IsPlain(v) && Inside(p, r, c, |v|) && (sep == p.delimiter == ',' || sep == '\n')
    ensures Step(p, sep).Some? ==> Doomed(Step(p, sep).value, r, c, v)
  {
    StepKeepsNesting(p, sep);
    hide Leave, DataStartStep, TitleStep, StoreValue, Stored, Open, QDataEndStep;
    if p.state == QData {
      var q := Step(p, sep).value;
      var k := |p.value|;
      assert q.value[k] == sep && v[k] != sep;
    } else {
      TooShort(p, v, r, c);
      QDataEndKeepsStored(p, sep, r, c, v);
    }
  }

  lemma TooShort(p: Parser, v: string, r: nat, c: nat)
    requires Inside(p, r, c, |v|)
    ensures Leave(StoreValue(p)).Some? && Stored(Leave(StoreValue(p)).value.d, r, c, v)
  {
    assert p.value != v;
  }

  lemma QuoteFirst(p: Parser, root: Node, done: seq<Node>, v: string, sep: char, rest: string)
    requires p.titles != [] && p.delimiter in {',', AUTO} && IsPlain(v) && v != "" && v[0] == '\''
    requires sep == p.delimiter == ',' || sep == '\n'
    ensures Missing(Feed(AtCell(p, root, done), v + ([sep] + rest)), |root.members|, |done|, v)
  {
    hide Feed, Finish;
    var at, more := AtCell(p, root, done), v[1..] + ([sep] + rest);
    assert v + ([sep] + rest) == ['\''] + more;
    FeedFirst(at, '\'', more);
    var q := at.(quote := '\'', state := QData);
    assert Step(at, '\'') == Some(q);
    BadValue(q, v, 1, sep, rest, |root.members|, |done|);
  }

  function FirstIndex(v: string, c: char): (k: nat)
    requires c in v
    ensures k < |v| && v[k] == c && c !in v[..k]
  {
    if v[0] == c then 0
    else
      var k := FirstIndex(v[1..], c);
      assert v[..k + 1] == [v[0]] + v[1..][..k];
      k + 1
  }

  /** A delimiter inside the value ends the cell there. */
  lemma DelimiterInside(p: Parser, root: Node, done: seq<Node>, v: string, rest: string)
    requires p.titles != [] && p.delimiter == AUTO && IsPlain(v) && v != "" && v[0] != '\'' && AUTO in v
    ensures Missing(Feed(AtCell(p, root, done), v + rest), |root.members|, |done|, v)
  {
    hide Feed, Finish, Step, CsvOut;
    var k := FirstIndex(v, AUTO);
    var w, more := v[..k], v[k + 1..] + rest;
    var at := AtCell(p, root, done);
    PrefixIsReadable(v, k);
    assert v + rest == w + ([AUTO] + more);
    AtCellReady(p, root, done);
    CellText(at, w, [AUTO] + more);
    FeedFirst(CellRead(at, w), AUTO, more);
    CellThenDelimiter(p, root, done, w);
    CutIsDoomed(p.(quote := QuoteAfter(p.quote, w)), root, done, w, v);
    DoomedForever(AtCell(p.(quote := QuoteAfter(p.quote, w)), root, done + [CellNode(TitleFor(p, |done|), w)]), more,
                  |root.members|, |done|, v);
  }

  lemma PrefixIsReadable(v: string, k: nat)
    requires IsPlain(v) && v != "" && v[0] != '\'' && k < |v| && AUTO !in v[..k]
    ensures Readable(AUTO, v[..k]) && CsvOut(v[..k]) == v[..k] && v[..k] != v
  {
    assert |v[..k]| == k;
  }

  lemma CutIsDoomed(p: Parser, root: Node, done: seq<Node>, w: string, v: string)
    requires p.titles != [] && w != v
    ensures Doomed(AtCell(p, root, done + [CellNode(TitleFor(p, |done|), w)]), |root.members|, |done|, v)
  {
    var row := RowNode(done + [CellNode(TitleFor(p, |done|), w)]);
    assert row.members[|done|].value != Some(v);
  }

  lemma BadCell(p: Parser, root: Node, done: seq<Node>, v: string, sep: char, rest: string)
    requires p.titles != [] && p.delimiter in {',', AUTO} && IsBad(p.delimiter, v) && (sep == p.delimiter == ',' || sep == '\n')
    ensures Missing(Feed(AtCell(p, root, done), v + ([sep] + rest)), |root.members|, |done|, v)
  {
    hide Feed, Missing, AtCell;
    if v[0] == '\'' {
      QuoteFirst(p, root, done, v, sep, rest);
    } else {
      DelimiterInside(p, root, done, v, [sep] + rest);
    }
  }

  /** A row with a bad value, from any cell before it. */
  lemma {:induction false} RowFails(p: Parser, root: Node, done: seq<Node>, values: seq<string>, tail: string) returns (j: nat)
    requires values != [] && |done| + |values| == |p.titles| && Delimits(p.delimiter, |values|) && !AllReadable(p.delimiter, values)
    ensures j < |values| && IsBad(p.delimiter, values[j])
    ensures Missing(Feed(AtCell(p, root, done), Line(values) + tail), |root.members|, |done| + j, values[j])
    decreases |values|
  {
    hide Feed, Finish, Line, AtCell, Missing, IsPlain, QuoteAfter;
    var v := values[0];
    BadIsUnreadable(p.delimiter, v);
    AtCellReady(p, root, done);
    if IsBad(p.delimiter, v) {
      j := 0;
      BadPrintsPlainly(p.delimiter, v);
      if |values| == 1 {
        assert values == [v];
        LineOfOne(v, tail);
        BadCell(p, root, done, v, '\n', tail);
      } else {
        LineSplits(values, tail);
        BadCell(p, root, done, v, ',', Line(values[1..]) + tail);
      }
    } else {
      OthersUnreadable(p.delimiter, values);
      FirstCell(p, root, done, values, tail);
      var k := RowFails(p.(quote := QuoteAfter(p.quote, v)), root, done + [CellNode(p.titles[|done|], v)], values[1..], tail);
      j := k + 1;
    }
  }

  lemma BadPrintsPlainly(delimiter: char, v: string)
    requires IsBad(delimiter, v)
    ensures CsvOut(v) == v
  {
  }

  lemma OthersUnreadable(delimiter: char, values: seq<string>)
    requires values != [] && Readable(delimiter, values[0]) && !AllReadable(delimiter, values)
    ensures |values| > 1 && !AllReadable(delimiter, values[1..])
  {
    hide Readable;
    var i :| 0 <= i < |values| && !Readable(delimiter, values[i]);
    assert values[1..][i - 1] == values[i];
  }

  lemma {:induction false} RowsFail(p: Parser, done: seq<Node>, rows: seq<seq<string>>) returns (i: nat, j: nat)
    requires !p.skipEmptyLines && IsTable(p.titles, rows) && p.noColumns == Some(|p.titles|) && Delimits(p.delimiter, |p.titles|)
    requires SomeUnreadable(p.delimiter, rows)
    ensures i < |rows| && j < |rows[i]| && IsBad(p.delimiter, rows[i][j])
    ensures Missing(Feed(AtRow(p, done), Lines(rows)), |done| + i, j, rows[i][j])
    decreases |rows|
  {
    hide Feed, Finish, Line, AllReadable, Missing, IsBad, QuoteAfterAll, OpenRow, OpenCell, Cells;
    var tail := Lines(rows[1..]);
    if AllReadable(p.delimiter, rows[0]) {
      RowReadsBack(p, done, rows[0], tail);
      var q := p.(column := |p.titles| - 1, quote := QuoteAfterAll(p.quote, rows[0]));
      var k :| 0 <= k < |rows| && !AllReadable(p.delimiter, rows[k]);
      assert rows[1..][k - 1] == rows[k];
      var i', j' := RowsFail(q, done + [RowNode(Cells(p.titles, rows[0]))], rows[1..]);
      i, j := i' + 1, j';
    } else {
      i := 0;
      var root := Node(Array, "", "", None, done);
      var text := Line(rows[0]) + tail;
      LineEnds(rows[0], tail);
      RowOpened(p, done, text);
      var q := OpenRow(AtRow(p, done));
      AheadFeed(q, root, [], text);
      CellOpened(q, root, []);
      assert AtCell(q, root, []) == AtCell(p, root, []);
      j := RowFails(p, root, [], rows[0], tail);
    }
  }

  lemma TableHolds(delimiter: char, titles: seq<string>, rows: seq<seq<string>>, i: nat, j: nat)
    requires IsTable(titles, rows) && i < |rows| && j < |rows[i]| && IsBad(delimiter, rows[i][j])
    ensures !WrongTable(TableNode(RowNodes(titles, rows)), i, j, rows[i][j])
  {
  }

  predicate SomeUnreadable(delimiter: char, rows: seq<seq<string>>) {
    exists k :: 0 <= k < |rows| && !AllReadable(delimiter, rows[k])
  }

  /** A parser behind the title line. */
  function Titled(delimiter: char, titles: seq<string>): Parser {
    Parser(RowStart, delimiter, '\0', false, titles, "", 0, Some(|titles|), Stack(FreshNode(""), []))
  }

  lemma LoadTitled(auto: bool, titles: seq<string>, tail: string)
    requires PlainTitles(auto, titles)
    ensures var f := Feed(Titled(FinalDelimiter(auto, titles), titles), tail);
            Load(if auto then AUTO else ',', true, false, Line(titles) + tail)
            == if f.None? || Finish(f.value).None? then None else Some(Finish(f.value).value.d.top)
  {
    hide Feed, Finish, Line, PlainTitle;
    TitleLineReadsBack(auto, titles, tail);
  }

  lemma BadTableIsChanged(auto: bool, titles: seq<string>, rows: seq<seq<string>>)
    requires IsTable(titles, rows) && PlainTitles(auto, titles)
    requires SomeUnreadable(FinalDelimiter(auto, titles), rows)
    ensures Load(if auto then AUTO else ',', true, false, Line(titles) + Lines(rows)) != Some(TableNode(RowNodes(titles, rows)))
  {
    hide Feed, Finish, Line, Lines, Load, AllReadable, PlainTitles, IsTable, RowNodes, WrongTable, IsBad;
    LoadTitled(auto, titles, Lines(rows));
    var p := Titled(FinalDelimiter(auto, titles), titles);
    assert p == AtRow(p, []);
    var i, j := RowsFail(p, [], rows);
    TableHolds(p.delimiter, titles, rows, i, j);
  }

  /**
   Whatever the table, with the delimiter given or detected: its text is read back as the table
   exactly if no value that is printed without quotes starts with a single quote or contains what
   the parser takes for its delimiter.
   */
  lemma TableComesBack(auto: bool, titles: seq<string>, rows: seq<seq<string>>)
    requires IsTable(titles, rows) && PlainTitles(auto, titles)
    ensures Load(if auto then AUTO else ',', true, false, Line(titles) + Lines(rows)) == Some(TableNode(RowNodes(titles, rows)))
            <==> forall i :: 0 <= i < |rows| ==> AllReadable(FinalDelimiter(auto, titles), rows[i])
  {
    hide Load, Line, Lines, AllReadable, PlainTitles, RowNodes;
    if forall i :: 0 <= i < |rows| ==> AllReadable(FinalDelimiter(auto, titles), rows[i]) {
      TableReadsBack(auto, titles, rows);
    } else {
      BadTableIsChanged(auto, titles, rows);
    }
  }

  /** The same through the serializer, for the tree of a table. */
  lemma SerializedTableComesBack(auto: bool, titles: seq<string>, rows: seq<seq<string>>)
    requires IsTable(titles, rows) && PlainTitles(auto, titles)
    requires S.NoneEmpty(titles) && S.Distinct(titles) && rows != []
    ensures var table := TableNode(RowNodes(titles, rows));
            Load(if auto then AUTO else ',', true, false, S.SerializeArray([], table)) == Some(table)
            <==> forall i :: 0 <= i < |rows| ==> AllReadable(FinalDelimiter(auto, titles), rows[i])
  {
    hide Load, Line, Lines, AllReadable, PlainTitles, RowNodes, S.SerializeArray;
    S.TextOfTable(titles, rows);
    TableComesBack(auto, titles, rows);
  }
}
