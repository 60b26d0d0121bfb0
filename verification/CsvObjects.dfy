/** The CSV parser and serializer as the source writes them: objects, loops and recursion. */
module CsvObjects {
  import opened Wrappers
  import opened SerializationTree
  import opened OpenNodes
  import P = CsvParser
  import T = CsvRoundTrip
  import S = CsvSerializer
  import D = DeserializerObject

  class CsvParser {
    const handler: D.Deserializer
    var state: P.State
    var delimiter: char
    var quote: char
    var skipEmptyLines: bool
    var titles: seq<string>
    var value: string
    var column: nat
    var noColumns: Option<nat>

    ghost predicate Valid()
      reads this, handler
    {
      handler.Valid() && titles != []
    }

    ghost function Model(): P.Parser
      requires Valid()
      reads this, handler
    {
      P.Parser(state, delimiter, quote, skipEmptyLines, titles, value, column, noColumns, handler.Nodes())
    }

    /** A parser that is about to begin with a new document. */
    constructor (d: D.Deserializer, delim: char, readTitle: bool, skipEmpty: bool)
      requires d.Valid() && d.Nodes() == Stack(FreshNode(""), []) && (delim == P.AUTO ==> readTitle)
      ensures Valid() && handler == d && P.Begin(delim, readTitle, skipEmpty) == Some(Model())
    {
      handler := d;
      delimiter, quote, skipEmptyLines, titles := delim, '\0', skipEmpty, [""];
      value, column, noColumns := "", 0, None;
      state := if !readTitle then P.RowStart else if delim == P.AUTO then P.DetectDelim else P.Title;
    }

    function TitleFor(col: nat): string
      reads this
    {
      if col < |titles| then titles[col] else ""
    }

    method OpenCell()
      requires Valid()
      modifies this, handler
      ensures Valid() && Model() == P.OpenCell(old(Model()))
    {
      handler.BeginMember(TitleFor(column));
      handler.SetCategory(Value);
    }

    method OpenRow()
      requires Valid()
      modifies this, handler
      ensures Valid() && Model() == P.OpenRow(old(Model()))
    {
      column := 0;
      handler.BeginMember("");
      handler.SetCategory(Object);
      state := P.DataStart;
    }

    method StoreValue()
      requires Valid()
      modifies this, handler
      ensures Valid() && Model() == P.StoreValue(old(Model()))
    {
      if value == "" {
        handler.SetNull();
      } else {
        handler.SetValue(value);
        value := "";
      }
    }

    method Leave() returns (ok: bool)
      requires Valid()
      modifies this, handler
      ensures Valid() && match P.Leave(old(Model())) case None => !ok case Some(p) => ok && Model() == p
    {
      ok := handler.LeaveMember();
    }

    method CheckColumns() returns (ok: bool)
      requires Valid()
      modifies this
      ensures Valid() && match P.CheckColumns(old(Model())) case None => !ok case Some(p) => ok && Model() == p
    {
      ok := true;
      match noColumns {
        case None => noColumns := Some(column + 1);
        case Some(n) => ok := column + 1 == n;
      }
    }

    method AddToTitle(ch: char)
      requires Valid()
      modifies this
      ensures Valid() && Model() == P.AddToTitle(old(Model()), ch)
    {
      titles := titles[|titles| - 1 := titles[|titles| - 1] + [P.Narrow(ch)]];
    }

    method EndTitles(count: nat, ch: char)
      requires Valid()
      modifies this
      ensures Valid() && Model() == old(Model()).(noColumns := Some(count), state := P.AfterBreak(ch))
    {
      noColumns := Some(count);
      state := P.AfterBreak(ch);
    }

    method NextTitle()
      requires Valid()
      modifies this
      ensures Valid() && Model() == P.NextTitle(old(Model()))
    {
      titles := titles + [""];
      state := P.Title;
    }

    /** Inside a title without quotes. */
    method InTitle(ch: char) returns (ok: bool)
      requires Valid() && state !in {P.DetectDelim, P.DetectDelimQ, P.DetectDelimPostQ, P.QTitle, P.QTitleP}
      modifies this
      ensures Valid() && match P.TitleStep(old(Model()), ch) case None => !ok case Some(p) => ok && Model() == p
    {
      hide P.AddToTitle, P.NextTitle, P.IsBreak, P.IsQuote, P.AfterBreak;
      ok := true;
      if P.IsBreak(ch) {
        EndTitles(|titles|, ch);
      } else if ch == delimiter {
        NextTitle();
      } else if !P.IsQuote(ch) {
        AddToTitle(ch);
      } else if titles[|titles| - 1] == "" {
        quote, state := ch, P.QTitle;
      } else {
        ok := false;
      }
    }

    method AdvanceTitle(ch: char) returns (ok: bool)
      requires Valid()
      modifies this
      ensures Valid() && match P.TitleStep(old(Model()), ch) case None => !ok case Some(p) => ok && Model() == p
    {
      hide P.AddToTitle, P.NextTitle, P.IsTitleChar, P.IsBreak, P.IsQuote, P.AfterBreak;
      ok := true;
      match state {
        case DetectDelim =>
          if P.IsTitleChar(ch) {
            AddToTitle(ch);
          } else if P.IsBreak(ch) {
            EndTitles(1, ch);
          } else if P.IsQuote(ch) {
            quote, state := ch, P.DetectDelimQ;
          } else {
            delimiter := ch;
            NextTitle();
          }
        case DetectDelimQ =>
          if ch == quote {
            state := P.DetectDelimPostQ;
          } else {
            AddToTitle(ch);
          }
        case DetectDelimPostQ =>
          if P.IsTitleChar(ch) || P.IsQuote(ch) {
            ok := false;
          } else if P.IsBreak(ch) {
            EndTitles(1, ch);
          } else {
            delimiter := ch;
            NextTitle();
          }
        case QTitle =>
          if ch == quote {
            state := P.QTitleP;
          } else {
            AddToTitle(ch);
          }
        case QTitleP =>
          if P.IsBreak(ch) {
            EndTitles(|titles|, ch);
          } else if ch == delimiter {
            NextTitle();
          } else {
            ok := false;
          }
        case _ => ok := InTitle(ch);
      }
    }

    /** The end of a row that has only empty cells so far. */
    method EndEmptyRow(ch: char) returns (ok: bool)
      requires Valid()
      modifies this, handler
      ensures Valid()
      ensures var r := match P.Leave(old(Model()))
                       case None => None
                       case Some(p) =>
                         match P.CheckColumns(p)
                         case None => None
                         case Some(q) => P.InState(P.Leave(q), P.AfterBreak(ch));
              match r case None => !ok case Some(p) => ok && Model() == p
    {
      hide P.Leave, P.CheckColumns;
      ok := Leave();
      if !ok {
        return;
      }
      ok := CheckColumns();
      if !ok {
        return;
      }
      ok := Leave();
      state := P.AfterBreak(ch);
    }

    method AdvanceDataStart(ch: char) returns (ok: bool)
      requires Valid() && state == P.DataStart
      modifies this, handler
      ensures Valid() && match P.DataStartStep(old(Model()), ch) case None => !ok case Some(p) => ok && Model() == p
    {
      hide P.OpenCell, P.Leave, P.CheckColumns, P.InState;
      ok := true;
      var delim := delimiter;
      OpenCell();
      if P.IsBreak(ch) {
        ok := EndEmptyRow(ch);
      } else if P.IsQuote(ch) {
        quote, state := ch, P.QData;
      } else if ch == delim {
        column := column + 1;
        ok := Leave();
      } else {
        value, state := value + [ch], P.Data;
      }
    }

    method EndRow(ch: char) returns (ok: bool)
      requires Valid()
      modifies this, handler
      ensures Valid() && match P.EndRow(old(Model()), ch) case None => !ok case Some(p) => ok && Model() == p
    {
      hide P.StoreValue, P.CheckColumns, P.LeaveTwice;
      StoreValue();
      ok := CheckColumns();
      if !ok {
        return;
      }
      ok := LeaveTwice();
      state := P.AfterBreak(ch);
    }

    method NextCell()
      requires Valid()
      modifies this, handler
      ensures Valid()
      ensures var q := old(Model());
              Model() == P.OpenCell(q.(column := q.column + 1)).(state := P.Data0)
    {
      hide P.OpenCell;
      column := column + 1;
      OpenCell();
      state := P.Data0;
    }

    method EndCell() returns (ok: bool)
      requires Valid()
      modifies this, handler
      ensures Valid() && match P.EndCell(old(Model())) case None => !ok case Some(p) => ok && Model() == p
    {
      hide P.StoreValue, P.Leave, P.OpenCell;
      StoreValue();
      ok := Leave();
      if ok {
        NextCell();
      }
    }

    method AdvanceData(ch: char) returns (ok: bool)
      requires Valid()
      modifies this, handler
      ensures Valid() && match P.DataStep(old(Model()), ch) case None => !ok case Some(p) => ok && Model() == p
    {
      hide P.EndRow, P.EndCell;
      ok := true;
      if P.IsBreak(ch) {
        ok := EndRow(ch);
      } else if ch == delimiter {
        ok := EndCell();
      } else {
        value, state := value + [ch], P.Data;
      }
    }

    method AdvanceQDataEnd(ch: char) returns (ok: bool)
      requires Valid()
      modifies this, handler
      ensures Valid() && match P.QDataEndStep(old(Model()), ch) case None => !ok case Some(p) => ok && Model() == p
    {
      hide P.OpenCell, P.Leave, P.CheckColumns, P.StoreValue;
      ok := true;
      if ch == quote {
        value, state := value + [ch], P.QData;
        return;
      }
      var delim := delimiter;
      StoreValue();
      ok := Leave();
      if !ok {
        return;
      }
      if P.IsBreak(ch) {
        ok := CheckColumns();
        if !ok {
          return;
        }
        ok := Leave();
        state := P.AfterBreak(ch);
      } else if ch == delim {
        NextCell();
      } else {
        value, state := [quote] + value + [ch], P.Data;
      }
    }

    method AdvanceRowStart(ch: char) returns (ok: bool)
      requires Valid()
      modifies this, handler
      ensures Valid() && match P.RowStartStep(old(Model()), ch) case None => !ok case Some(p) => ok && Model() == p
    {
      hide P.OpenRow, P.DataStartStep;
      if skipEmptyLines && P.IsBreak(ch) {
        column, state := 0, P.AfterBreak(ch);
        return true;
      }
      OpenRow();
      ok := AdvanceDataStart(ch);
    }

    /** One character; false is an exception. */
    method Advance(ch: char) returns (ok: bool)
      requires Valid()
      modifies this, handler
      ensures Valid() && match P.Step(old(Model()), ch) case None => !ok case Some(p) => ok && Model() == p
    {
      hide P.TitleStep, P.DataStartStep, P.DataStep, P.QDataEndStep, P.RowStartStep;
      ok := true;
      match state {
        case Cr =>
          if ch == '\n' {
            state := P.RowStart;
          } else {
            ok := AdvanceRowStart(ch);
          }
        case RowStart => ok := AdvanceRowStart(ch);
        case DataStart => ok := AdvanceDataStart(ch);
        case Data0 =>
          if P.IsQuote(ch) {
            quote, state := ch, P.QData;
          } else {
            ok := AdvanceData(ch);
          }
        case Data => ok := AdvanceData(ch);
        case QData =>
          if ch == quote {
            state := P.QDataEnd;
          } else {
            value := value + [ch];
          }
        case QDataEnd => ok := AdvanceQDataEnd(ch);
        case _ => ok := AdvanceTitle(ch);
      }
    }

    method LeaveTwice() returns (ok: bool)
      requires Valid()
      modifies this, handler
      ensures Valid() && match P.LeaveTwice(old(Model())) case None => !ok case Some(p) => ok && Model() == p
    {
      hide P.Leave;
      ok := Leave();
      if ok {
        ok := Leave();
      }
    }

    method Finish() returns (ok: bool)
      requires Valid()
      modifies this, handler
      ensures Valid() && match P.Finish(old(Model())) case None => !ok case Some(p) => ok && Model() == p
    {
      hide P.LeaveTwice, P.Leave, P.StoreValue, P.CheckColumns;
      ok := true;
      match state {
        case DataStart => ok := Leave();
        case QDataEnd =>
          StoreValue();
          ok := LeaveTwice();
        case Data0 => ok := FinishCell();
        case Data => ok := FinishCell();
        case QData => ok := FinishCell();
        case _ =>
      }
    }

    method FinishCell() returns (ok: bool)
      requires Valid()
      modifies this, handler
      ensures Valid() && match P.FinishCell(old(Model())) case None => !ok case Some(p) => ok && Model() == p
    {
      hide P.LeaveTwice, P.StoreValue, P.CheckColumns;
      ok := CheckColumns();
      if ok {
        StoreValue();
        ok := LeaveTwice();
      }
    }
  }

  /** A whole document, character by character. */
  method Deserialize(delimiter: char, readTitle: bool, skipEmptyLines: bool, text: string) returns (r: Option<Node>)
    ensures r == P.Load(delimiter, readTitle, skipEmptyLines, text)
  {
    hide P.Step, P.Finish;
    if delimiter == P.AUTO && !readTitle {
      return None;
    }
    var d := new D.Deserializer();
    var p := new CsvParser(d, delimiter, readTitle, skipEmptyLines);
    ghost var start := p.Model();
    var i := 0;
    while i < |text|
      invariant 0 <= i <= |text| && p.Valid() && p.handler == d && fresh(p) && fresh(d)
      invariant P.Feed(p.Model(), text[i..]) == P.Feed(start, text)
    {
      P.StepKeepsTitles(p.Model(), text[i]);
      assert text[i..][1..] == text[i + 1..];
      var ok := p.Advance(text[i]);
      if !ok {
        return None;
      }
      i := i + 1;
    }
    var ok := p.Finish();
    if !ok {
      return None;
    }
    var top := d.Current();
    r := Some(top);
  }

  // ---- the serializer ----

  method NeedsNoQuotes(value: string) returns (plain: bool)
    ensures plain == T.IsPlain(value)
  {
    var i := 0;
    while i < |value|
      invariant 0 <= i <= |value|
      invariant T.IsPlain(value[..i])
    {
      if value[i] == '"' || value[i] == ',' || value[i] == '\n' || value[i] == '\r' {
        return false;
      }
      i := i + 1;
    }
    assert value[..i] == value;
    plain := true;
  }

  method DoubledOut(os: string, value: string) returns (r: string)
    ensures r == os + T.Doubled(value)
  {
    r := os;
    var i := 0;
    while i < |value|
      invariant 0 <= i <= |value|
      invariant r + T.Doubled(value[i..]) == os + T.Doubled(value)
    {
      var piece := if value[i] == '"' then "\"\"" else [value[i]];
      DoubledStep(r, value, i);
      r := r + piece;
      i := i + 1;
    }
    T.DoubledNone("");
    assert value[i..] == "";
  }

  lemma DoubledStep(r: string, value: string, i: nat)
    requires i < |value|
    ensures r + T.Doubled(value[i..]) == r + (if value[i] == '"' then "\"\"" else [value[i]]) + T.Doubled(value[i + 1..])
  {
    assert value[i..][1..] == value[i + 1..];
  }

  /** Quotes only where they are needed, and doubled inside. */
  method CsvOut(os: string, value: string) returns (r: string)
    ensures r == os + T.CsvOut(value)
  {
    hide T.Doubled, T.IsPlain;
    var plain := NeedsNoQuotes(value);
    if plain {
      r := os + value;
    } else {
      r := DoubledOut(os + "\"", value);
      assert os + "\"" + T.Doubled(value) + "\"" == os + ("\"" + T.Doubled(value) + "\"");
      r := r + "\"";
    }
  }

  method CollectTitles(columns: seq<S.Column>, ms: seq<Node>, prefix: string) returns (r: seq<S.Column>)
    ensures r == S.Collected(columns, S.Flat(ms, prefix))
    decreases ms
  {
    hide S.Collected;
    r := columns;
    var i := 0;
    while i < |ms|
      invariant 0 <= i <= |ms|
      invariant S.Collected(r, S.Flat(ms[i..], prefix)) == S.Collected(columns, S.Flat(ms, prefix))
    {
      var n := ms[i];
      ghost var before, rest := r, S.Flat(ms[i + 1..], prefix);
      assert ms[i..][1..] == ms[i + 1..];
      if n.category == Object {
        var inner := prefix + (if n.name == "" then "" else n.name + ".");
        S.CollectedSplits(r, S.Flat(n.members, inner), rest);
        r := CollectTitles(r, n.members, inner);
      } else if n.category == Value && n.name != "" {
        var name := prefix + n.name;
        S.CollectedSplits(r, [S.Pair(name, S.TextOf(n))], rest);
        CollectOne(r, S.Pair(name, S.TextOf(n)));
        var known := HasName(r, name);
        if !known {
          r := r + [S.Column(name, name)];
        }
      } else {
        assert [] + rest == rest;
      }
      i := i + 1;
    }
    CollectNone(r);
  }

  lemma CollectNone(columns: seq<S.Column>)
    ensures S.Collected(columns, []) == columns
  {
  }

  lemma CollectOne(columns: seq<S.Column>, pair: S.Pair)
    ensures S.Collected(columns, [pair])
            == if S.HasMember(columns, pair.name) then columns else columns + [S.Column(pair.name, pair.name)]
  {
    assert [pair][1..] == [];
  }

  method HasName(columns: seq<S.Column>, name: string) returns (r: bool)
    ensures r == S.HasMember(columns, name)
  {
    var i := 0;
    while i < |columns|
      invariant 0 <= i <= |columns|
      invariant forall k :: 0 <= k < i ==> columns[k].member != name
    {
      if columns[i].member == name {
        return true;
      }
      i := i + 1;
    }
    r := false;
  }

  /** The first value for a name stays. */
  function MapOf(data: map<string, string>, pairs: seq<S.Pair>): map<string, string>
    decreases |pairs|
  {
    if pairs == [] then data
    else MapOf(if pairs[0].name in data then data else data[pairs[0].name := pairs[0].value], pairs[1..])
  }

  lemma {:induction false} MapOfSplits(data: map<string, string>, a: seq<S.Pair>, b: seq<S.Pair>)
    ensures MapOf(data, a + b) == MapOf(MapOf(data, a), b)
    decreases |a|
  {
    if a == [] {
      assert a + b == b;
    } else {
      assert (a + b)[1..] == a[1..] + b;
      MapOfSplits(if a[0].name in data then data else data[a[0].name := a[0].value], a[1..], b);
    }
  }

  lemma {:induction false} MapIsLookup(data: map<string, string>, pairs: seq<S.Pair>, name: string)
    ensures var m := MapOf(data, pairs);
            (if name in m then m[name] else "") == if name in data then data[name] else S.Lookup(pairs, name)
    ensures name in data ==> name in MapOf(data, pairs)
    decreases |pairs|
  {
    if pairs != [] {
      MapIsLookup(if pairs[0].name in data then data else data[pairs[0].name := pairs[0].value], pairs[1..], name);
    }
  }

  lemma MapOfOne(data: map<string, string>, pair: S.Pair)
    ensures MapOf(data, [pair]) == if pair.name in data then data else data[pair.name := pair.value]
  {
    assert [pair][1..] == [];
  }

  method CollectData(data: map<string, string>, ms: seq<Node>, prefix: string) returns (r: map<string, string>)
    ensures r == MapOf(data, S.Flat(ms, prefix))
    decreases ms
  {
    hide MapOf;
    r := data;
    var i := 0;
    while i < |ms|
      invariant 0 <= i <= |ms|
      invariant MapOf(r, S.Flat(ms[i..], prefix)) == MapOf(data, S.Flat(ms, prefix))
    {
      var n := ms[i];
      ghost var rest := S.Flat(ms[i + 1..], prefix);
      assert ms[i..][1..] == ms[i + 1..];
      if n.category == Object {
        var inner := prefix + (if n.name == "" then "" else n.name + ".");
        MapOfSplits(r, S.Flat(n.members, inner), rest);
        r := CollectData(r, n.members, inner);
      } else if n.category == Value && n.name != "" {
        var name := prefix + n.name;
        MapOfSplits(r, [S.Pair(name, S.TextOf(n))], rest);
        MapOfOne(r, S.Pair(name, S.TextOf(n)));
        if name !in r {
          r := r[name := S.TextOf(n)];
        }
      } else {
        assert [] + rest == rest;
      }
      i := i + 1;
    }
    MapOfNone(r);
  }

  lemma MapOfNone(data: map<string, string>)
    ensures MapOf(data, []) == data
  {
  }

  /** A line: the first value, and every other one behind a delimiter. */
  method LineOut(os: string, cells: seq<string>) returns (r: string)
    ensures r == os + T.Line(cells)
  {
    hide T.CsvOut;
    r := os;
    if cells != [] {
      r := CsvOut(r, cells[0]);
      var i := 1;
      while i < |cells|
        invariant 1 <= i <= |cells|
        invariant r + T.MoreCells(cells[i..]) == os + T.CsvOut(cells[0]) + T.MoreCells(cells[1..])
      {
        assert cells[i..][1..] == cells[i + 1..];
        ghost var before := r;
        r := r + ",";
        r := CsvOut(r, cells[i]);
        assert before + T.MoreCells(cells[i..]) == r + T.MoreCells(cells[i + 1..]);
        i := i + 1;
      }
      assert r == os + T.CsvOut(cells[0]) + T.MoreCells(cells[1..]);
    }
    r := r + "\n";
  }

  /** The values of one row under the columns. */
  method RowOut(columns: seq<S.Column>, row: Node) returns (values: seq<string>)
    ensures values == S.RowValues(columns, row)
  {
    hide MapOf, S.Lookup, S.Flat;
    var data := CollectData(map[], row.members, "");
    values := [];
    var i := 0;
    while i < |columns|
      invariant 0 <= i <= |columns|
      invariant values == S.RowValues(columns, row)[..i]
    {
      var name := columns[i].member;
      MapIsLookup(map[], S.Flat(row.members, ""), name);
      values := values + [if name in data then data[name] else ""];
      i := i + 1;
    }
  }

  method UntitledOut(row: Node) returns (values: seq<string>)
    ensures values == S.Untitled(row)
  {
    values := [];
    var i := 0;
    while i < |row.members|
      invariant 0 <= i <= |row.members|
      invariant values == S.Untitled(row)[..i]
    {
      values := values + [S.TextOf(row.members[i])];
      i := i + 1;
    }
  }

  lemma LinesStep(os: string, values: seq<seq<string>>, i: nat)
    requires i < |values|
    ensures os + T.Lines(values[i..]) == os + T.Line(values[i]) + T.Lines(values[i + 1..])
  {
    hide T.Line;
    assert values[i..][1..] == values[i + 1..];
  }

  lemma NoLines(os: string)
    ensures os + T.Lines([]) == os
  {
  }

  method TitledRowsOut(os: string, columns: seq<S.Column>, rows: seq<Node>) returns (r: string)
    ensures r == os + T.Lines(S.TableValues(columns, rows))
  {
    hide T.Line, T.Lines, S.RowValues;
    r := os;
    ghost var values := S.TableValues(columns, rows);
    var i := 0;
    while i < |rows|
      invariant 0 <= i <= |rows|
      invariant r + T.Lines(values[i..]) == os + T.Lines(values)
    {
      LinesStep(r, values, i);
      var row := RowOut(columns, rows[i]);
      r := LineOut(r, row);
      i := i + 1;
    }
    NoLines(r);
    assert values[i..] == [];
  }

  method UntitledRowsOut(os: string, rows: seq<Node>) returns (r: string)
    ensures r == os + T.Lines(S.UntitledValues(rows))
  {
    hide T.Line, T.Lines, S.Untitled;
    r := os;
    ghost var values := S.UntitledValues(rows);
    var i := 0;
    while i < |rows|
      invariant 0 <= i <= |rows|
      invariant r + T.Lines(values[i..]) == os + T.Lines(values)
    {
      LinesStep(r, values, i);
      var row := UntitledOut(rows[i]);
      r := LineOut(r, row);
      i := i + 1;
    }
    NoLines(r);
    assert values[i..] == [];
  }

  /** The array case of the serializer. */
  method Serialize(selected: seq<S.Column>, si: Node) returns (os: string)
    ensures os == S.SerializeArray(selected, si)
  {
    hide T.Line, T.Lines, S.Flat, S.Collected, S.TableValues, S.UntitledValues;
    var columns := selected;
    if columns == [] {
      columns := CollectTitles([], si.members, "");
    }
    if columns == [] {
      os := UntitledRowsOut("", si.members);
    } else {
      os := LineOut("", S.Titles(columns));
      os := TitledRowsOut(os, columns, si.members);
    }
    assert "" + T.Line(S.Titles(columns)) == T.Line(S.Titles(columns));
  }
}
