/** The CSV serializer: it flattens objects into columns and prints one line for each row. */
module CsvSerializer {
  import opened Wrappers
  import opened SerializationTree
  import opened CsvParser
  import opened CsvRoundTrip

  /** A column: the member it shows and the title it is printed with. */
  datatype Column = Column(member: string, title: string)

  datatype Pair = Pair(name: string, value: string)

  function TextOf(n: Node): string {
    if n.value.None? then "" else n.value.value
  }

  /** Named values in order; members of objects are prefixed with the names around them. */
  function Flat(ms: seq<Node>, prefix: string): seq<Pair> {
    if ms == [] then []
    else
      var n := ms[0];
      (if n.category == Object then Flat(n.members, prefix + (if n.name == "" then "" else n.name + "."))
       else if n.category == Value && n.name != "" then [Pair(prefix + n.name, TextOf(n))]
       else [])
      + Flat(ms[1..], prefix)
  }

  predicate HasMember(columns: seq<Column>, name: string) {
    exists i :: 0 <= i < |columns| && columns[i].member == name
  }

  /** Every name once, in order of first appearance. */
  function Collected(columns: seq<Column>, pairs: seq<Pair>): seq<Column>
    decreases |pairs|
  {
    if pairs == [] then columns
    else Collected(if HasMember(columns, pairs[0].name) then columns else columns + [Column(pairs[0].name, pairs[0].name)], pairs[1..])
  }

  /** The first value with that name, or an empty one. */
  function Lookup(pairs: seq<Pair>, name: string): string
    decreases |pairs|
  {
    if pairs == [] then "" else if pairs[0].name == name then pairs[0].value else Lookup(pairs[1..], name)
  }

  function Titles(columns: seq<Column>): (r: seq<string>)
    ensures |r| == |columns|
  {
    seq(|columns|, i requires 0 <= i < |columns| => columns[i].title)
  }

  function RowValues(columns: seq<Column>, row: Node): (r: seq<string>)
    ensures |r| == |columns|
  {
    seq(|columns|, i requires 0 <= i < |columns| => Lookup(Flat(row.members, ""), columns[i].member))
  }

  function TableValues(columns: seq<Column>, rows: seq<Node>): (r: seq<seq<string>>)
    ensures |r| == |rows|
  {
    seq(|rows|, i requires 0 <= i < |rows| => RowValues(columns, rows[i]))
  }

  function ColumnsOf(selected: seq<Column>, si: Node): seq<Column> {
    if selected != [] then selected else Collected([], Flat(si.members, ""))
  }

  function Untitled(row: Node): seq<string> {
    seq(|row.members|, i requires 0 <= i < |row.members| => TextOf(row.members[i]))
  }

  function UntitledValues(rows: seq<Node>): seq<seq<string>> {
    seq(|rows|, i requires 0 <= i < |rows| => Untitled(rows[i]))
  }

  /** The text of an array. */
  function SerializeArray(selected: seq<Column>, si: Node): string {
    var columns := ColumnsOf(selected, si);
    if columns == [] then Lines(UntitledValues(si.members))
    else Line(Titles(columns)) + Lines(TableValues(columns, si.members))
  }

  /** Any array of objects comes back as the table of its columns, missing values as null. */
  lemma ArrayReadsBack(auto: bool, selected: seq<Column>, si: Node)
    requires var columns := ColumnsOf(selected, si);
             && PlainTitles(auto, Titles(columns))
             && forall i :: 0 <= i < |si.members| ==>
                  AllReadable(FinalDelimiter(auto, Titles(columns)), RowValues(columns, si.members[i]))
    ensures var columns := ColumnsOf(selected, si);
            var values := TableValues(columns, si.members);
            && IsTable(Titles(columns), values)
            && Load(if auto then AUTO else ',', true, false, SerializeArray(selected, si))
               == Some(TableNode(RowNodes(Titles(columns), values)))
  {
    hide Load, Line, Lines, PlainTitle, AllReadable, RowValues;
    var columns := ColumnsOf(selected, si);
    TableReadsBack(auto, Titles(columns), TableValues(columns, si.members));
  }

  // ---- tables as the parser makes them ----

  predicate Distinct(titles: seq<string>) {
    forall i, j :: 0 <= i < j < |titles| ==> titles[i] != titles[j]
  }

  predicate NoneEmpty(titles: seq<string>) {
    forall i :: 0 <= i < |titles| ==> titles[i] != ""
  }

  function Pairs(titles: seq<string>, values: seq<string>): (r: seq<Pair>)
    requires |titles| == |values|
    ensures |r| == |titles|
  {
    seq(|titles|, i requires 0 <= i < |titles| => Pair(titles[i], values[i]))
  }

  lemma {:induction false} FlatOfCells(cells: seq<Node>, titles: seq<string>, values: seq<string>)
    requires |titles| == |values| && NoneEmpty(titles) && cells == Cells(titles, values)
    ensures Flat(cells, "") == Pairs(titles, values)
    decreases |titles|
  {
    if titles != [] {
      assert cells[1..] == Cells(titles[1..], values[1..]);
      FlatOfCells(cells[1..], titles[1..], values[1..]);
      assert Pairs(titles, values) == [Pair(titles[0], values[0])] + Pairs(titles[1..], values[1..]);
      assert "" + titles[0] == titles[0];
    }
  }

  lemma {:induction false} LookupFinds(titles: seq<string>, values: seq<string>, i: nat)
    requires |titles| == |values| && Distinct(titles) && i < |titles|
    ensures Lookup(Pairs(titles, values), titles[i]) == values[i]
    decreases i
  {
    var pairs := Pairs(titles, values);
    if i > 0 {
      assert titles[0] != titles[i];
      assert pairs[1..] == Pairs(titles[1..], values[1..]);
      assert Distinct(titles[1..]);
      LookupFinds(titles[1..], values[1..], i - 1);
    }
  }

  function Plainly(titles: seq<string>): (r: seq<Column>)
    ensures |r| == |titles|
  {
    seq(|titles|, i requires 0 <= i < |titles| => Column(titles[i], titles[i]))
  }

  /** The first row brings in the titles, in order. */
  lemma {:induction false} FirstRowCollects(titles: seq<string>, values: seq<string>, k: nat)
    requires |titles| == |values| && Distinct(titles) && k <= |titles|
    ensures Collected(Plainly(titles[..k]), Pairs(titles, values)[k..]) == Plainly(titles)
    decreases |titles| - k
  {
    var pairs := Pairs(titles, values);
    var columns := Plainly(titles[..k]);
    if k == |titles| {
      assert titles[..k] == titles;
    } else {
      assert pairs[k..][0].name == titles[k] && pairs[k..][1..] == pairs[k + 1..];
      assert !HasMember(columns, titles[k]);
      assert columns + [Column(titles[k], titles[k])] == Plainly(titles[..k + 1]);
      FirstRowCollects(titles, values, k + 1);
    }
  }

  /** Names that are known bring in nothing. */
  lemma {:induction false} KnownNames(columns: seq<Column>, pairs: seq<Pair>)
    requires forall i :: 0 <= i < |pairs| ==> HasMember(columns, pairs[i].name)
    ensures Collected(columns, pairs) == columns
    decreases |pairs|
  {
    if pairs != [] {
      KnownNames(columns, pairs[1..]);
    }
  }

  lemma {:induction false} CollectedSplits(columns: seq<Column>, a: seq<Pair>, b: seq<Pair>)
    ensures Collected(columns, a + b) == Collected(Collected(columns, a), b)
    decreases |a|
  {
    hide HasMember;
    if a == [] {
      assert a + b == b;
    } else {
      assert (a + b)[1..] == a[1..] + b;
      CollectedSplits(if HasMember(columns, a[0].name) then columns else columns + [Column(a[0].name, a[0].name)], a[1..], b);
    }
  }

  lemma {:induction false} FlatOfRows(nodes: seq<Node>, titles: seq<string>, rows: seq<seq<string>>)
    requires IsTable(titles, rows) && NoneEmpty(titles) && nodes == RowNodes(titles, rows)
    ensures forall i :: 0 <= i < |Flat(nodes, "")| ==> HasMember(Plainly(titles), Flat(nodes, "")[i].name)
    decreases |rows|
  {
    if rows != [] {
      var row := nodes[0];
      assert row == RowNode(Cells(titles, rows[0]));
      FlatOfCells(row.members, titles, rows[0]);
      assert "" + "" == "";
      assert nodes[1..] == RowNodes(titles, rows[1..]);
      FlatOfRows(nodes[1..], titles, rows[1..]);
      var pairs := Pairs(titles, rows[0]);
      forall i | 0 <= i < |pairs|
        ensures HasMember(Plainly(titles), pairs[i].name)
      {
        assert Plainly(titles)[i].member == pairs[i].name;
      }
      assert Flat(nodes, "") == pairs + Flat(nodes[1..], "");
    }
  }

  lemma ColumnsOfTable(titles: seq<string>, rows: seq<seq<string>>)
    requires IsTable(titles, rows) && NoneEmpty(titles) && Distinct(titles) && rows != []
    ensures Collected([], Flat(RowNodes(titles, rows), "")) == Plainly(titles)
  {
    hide Collected, HasMember;
    var nodes := RowNodes(titles, rows);
    var first := Pairs(titles, rows[0]);
    var rest := Flat(nodes[1..], "");
    FlatOfCells(nodes[0].members, titles, rows[0]);
    assert "" + "" == "";
    assert Flat(nodes, "") == first + rest;
    CollectedSplits([], first, rest);
    FirstRowCollects(titles, rows[0], 0);
    assert Plainly(titles[..0]) == [] && first[0..] == first;
    assert nodes[1..] == RowNodes(titles, rows[1..]);
    FlatOfRows(nodes[1..], titles, rows[1..]);
    KnownNames(Plainly(titles), rest);
  }

  lemma ValuesOfTable(titles: seq<string>, rows: seq<seq<string>>)
    requires IsTable(titles, rows) && NoneEmpty(titles) && Distinct(titles)
    ensures TableValues(Plainly(titles), RowNodes(titles, rows)) == rows
    ensures Titles(Plainly(titles)) == titles
  {
    var nodes, columns := RowNodes(titles, rows), Plainly(titles);
    forall k | 0 <= k < |rows|
      ensures RowValues(columns, nodes[k]) == rows[k]
    {
      FlatOfCells(nodes[k].members, titles, rows[k]);
      forall i | 0 <= i < |titles|
        ensures RowValues(columns, nodes[k])[i] == rows[k][i]
      {
        LookupFinds(titles, rows[k], i);
      }
    }
  }

  lemma TextOfTable(titles: seq<string>, rows: seq<seq<string>>)
    requires IsTable(titles, rows) && NoneEmpty(titles) && Distinct(titles) && rows != []
    ensures SerializeArray([], TableNode(RowNodes(titles, rows))) == Line(titles) + Lines(rows)
  {
    hide Line, Lines, RowNodes, TableValues, Titles, Plainly, Collected, Flat;
    ColumnsOfTable(titles, rows);
    ValuesOfTable(titles, rows);
    RowCount(titles, rows);
  }

  lemma RowCount(titles: seq<string>, rows: seq<seq<string>>)
    requires IsTable(titles, rows)
    ensures |RowNodes(titles, rows)| == |rows|
  {
  }
}
