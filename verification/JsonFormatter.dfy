/**
 The printer as an object.  It decides about commas by comparing two nesting levels; its
 methods are proved against the text grammar, which places separators by position.
 */
module JsonFormatter {
  import opened Wrappers
  import opened Chars
  import opened SerializationTree
  import opened JsonText
  import JsonString

  class JsonFormatter {
    /** Everything written to the stream so far. */
    var os: string
    var level: nat
    /** -1 stands for the largest unsigned number, which no level reaches. */
    var lastLevel: int
    const beautify: bool
    const plainkey: bool

    ghost function Shape(): Layout {
      Layout(beautify, plainkey)
    }

    /** The next item is the first of its container. */
    ghost predicate AtFirst()
      reads this
    {
      level != lastLevel
    }

    constructor (beautify: bool, plainkey: bool)
      ensures os == "" && level == 0 && lastLevel == -1
      ensures Shape() == Layout(beautify, plainkey)
    {
      os, level, lastLevel := "", 0, -1;
      this.beautify, this.plainkey := beautify, plainkey;
    }

    method Finish()
      modifies this
      ensures os == old(os) + Newline(Shape()) && level == 0 && lastLevel == -1
    {
      if beautify {
        os := os + "\n";
      } else {
        assert os == os + "";
      }
      level, lastLevel := 0, -1;
    }

    method Indent()
      modifies this`os
      ensures os == old(os) + Tabs(level)
    {
      for n := 0 to level
        invariant os == old(os) + Tabs(n)
      {
        os := os + "\t";
        assert Tabs(n) + "\t" == Tabs(n + 1);
      }
    }

    method StringOut(str: string)
      modifies this`os
      ensures os == old(os) + JsonString.Escape(str)
    {
      for i := 0 to |str|
        invariant os + JsonString.Escape(str[i..]) == old(os) + JsonString.Escape(str)
      {
        hide JsonString.EscapeChar;
        ghost var before, piece, rest := os, JsonString.EscapeChar(str[i]), JsonString.Escape(str[i + 1..]);
        assert str[i..][1..] == str[i + 1..];
        assert JsonString.Escape(str[i..]) == piece + rest;
        assert before + (piece + rest) == before + piece + rest;
        os := os + JsonString.EscapeChar(str[i]);
      }
    }

    /** The test of `isplain` on a key. */
    method IsPlainKey(name: string) returns (r: bool)
      ensures r == IsPlain(name)
    {
      if name == "" || !IsAlpha(name[0]) {
        return false;
      }
      for n := 1 to |name|
        invariant forall i :: 1 <= i < n ==> IsAlnum(name[i]) || name[i] == '_'
      {
        if !IsAlnum(name[n]) && name[n] != '_' {
          return false;
        }
      }
      return true;
    }

    method Key(name: string)
      modifies this`os
      ensures os == old(os) + KeyText(Shape(), name)
    {
      hide JsonString.Escape, IsPlain;
      if name != "" {
        var plain := IsPlainKey(name);
        ghost var body := if plainkey && plain then name else "\"" + JsonString.Escape(name) + "\"";
        if plainkey && plain {
          os := os + name;
        } else {
          os := os + "\"";
          StringOut(name);
          os := os + "\"";
          assert old(os) + "\"" + JsonString.Escape(name) + "\"" == old(os) + body;
        }
        assert os == old(os) + body;
        os := os + ":";
        if beautify {
          os := os + " ";
        }
      }
    }

    /** Separator and indentation, decided by the two levels. */
    method Lead()
      modifies this`os, this`lastLevel
      ensures lastLevel == level
      ensures os == old(os) + Separator(Shape(), old(AtFirst())) + JsonText.Indent(Shape(), level)
    {
      if level == lastLevel {
        os := os + ",";
        if beautify {
          os := os + "\n";
        }
      } else {
        lastLevel := level;
      }
      if beautify {
        Indent();
      }
    }

    method BeginValue(name: string)
      modifies this
      ensures level == old(level) + 1 && lastLevel == old(level)
      ensures os == old(os) + Separator(Shape(), old(AtFirst())) + JsonText.Indent(Shape(), old(level)) + KeyText(Shape(), name)
    {
      Lead();
      Key(name);
      level := level + 1;
    }

    method FinishValue()
      requires level >= 1
      modifies this`level
      ensures level == old(level) - 1
    {
      level := level - 1;
    }

    method BeginContainer(name: string, bracket: char)
      modifies this
      ensures level == old(level) + 1 && lastLevel == old(level)
      ensures os == old(os) + Separator(Shape(), old(AtFirst())) + JsonText.Indent(Shape(), old(level)) + KeyText(Shape(), name)
                    + ([bracket] + Newline(Shape()))
    {
      Lead();
      level := level + 1;
      Key(name);
      os := os + [bracket];
      if beautify {
        os := os + "\n";
      }
    }

    method FinishContainer(bracket: char)
      requires level >= 1
      modifies this
      ensures level == old(level) - 1 && lastLevel == level
      ensures os == old(os) + (Newline(Shape()) + JsonText.Indent(Shape(), level) + [bracket])
    {
      level := level - 1;
      lastLevel := level;
      if beautify {
        os := os + "\n";
        Indent();
      }
      os := os + [bracket];
    }

    /** False is the conversion error for a bool that is none; then nothing is written. */
    method AddValueString(name: string, typeName: string, value: string) returns (ok: bool)
      modifies this
      ensures ok <==> (typeName == "bool" ==> ConvertBool(value).Some?)
      ensures ok ==> level == old(level) && lastLevel == level
      ensures ok ==> os == old(os) + Separator(Shape(), old(AtFirst())) + JsonText.Indent(Shape(), level) + KeyText(Shape(), name)
                           + LeafText(typeName, value)
    {
      hide KeyText, Separator, JsonText.Indent, JsonString.Escape;
      ok := true;
      if typeName == "bool" {
        var b := ConvertBool(value);
        if b.None? {
          return false;
        }
        BeginValue(name);
        os := os + (if b.value then "true" else "false");
      } else {
        BeginValue(name);
        ghost var lead := os;
        if IsBareType(typeName) {
          StringOut(value);
        } else if typeName == "json" {
          os := os + value;
        } else if typeName == "null" {
          os := os + "null";
        } else {
          os := os + "\"";
          StringOut(value);
          os := os + "\"";
          assert lead + "\"" + JsonString.Escape(value) + "\"" == lead + ("\"" + JsonString.Escape(value) + "\"");
        }
        assert os == lead + LeafText(typeName, value);
      }
      FinishValue();
    }

    method AddNull(name: string)
      modifies this
      ensures level == old(level) && lastLevel == level
      ensures os == old(os) + Separator(Shape(), old(AtFirst())) + JsonText.Indent(Shape(), level) + KeyText(Shape(), name) + "null"
    {
      BeginValue(name);
      os := os + "null";
      FinishValue();
    }
  }

  /**
   `IDecomposer::formatEach`: walks the tree and drives the formatter.  False is a conversion
   error from a leaf; otherwise exactly the grammar's text of the item is appended.
   */
  method FormatEach(n: Node, f: JsonFormatter) returns (ok: bool)
    requires Categorised(n)
    modifies f
    ensures ok <==> Printable(n)
    ensures ok ==> f.level == old(f.level) && f.lastLevel == f.level
    ensures ok ==> f.os == old(f.os) + Head(f.Shape(), n, f.level, old(f.AtFirst())) + ValueText(f.Shape(), n, f.level)
    decreases n, 1
  {
    hide KeyText, Separator, JsonText.Indent, Tail, LeafText;
    if IsNull(n) {
      f.AddNull(n.name);
      ok := true;
    } else if n.category == Value {
      ok := f.AddValueString(n.name, n.typeName, n.value.value);
    } else {
      ok := FormatContainer(n, f);
    }
  }

  lemma HeadOf(text: string, l: Layout, n: Node, level: nat, first: bool)
    ensures text + Separator(l, first) + JsonText.Indent(l, level) + KeyText(l, n.name) == text + Head(l, n, level, first)
  {
    hide Separator, JsonText.Indent, KeyText;
  }

  lemma ContainerText(l: Layout, n: Node, level: nat)
    requires n.category in {Object, Array}
    ensures var open, close := if n.category == Object then '{' else '[', if n.category == Object then '}' else ']';
            ValueText(l, n, level) == [open] + Newline(l) + Tail(l, n.members, level + 1, true, close)
  {
    hide Tail;
  }

  method FormatContainer(n: Node, f: JsonFormatter) returns (ok: bool)
    requires Categorised(n) && n.category in {Object, Array}
    modifies f
    ensures ok <==> Printable(n)
    ensures ok ==> f.level == old(f.level) && f.lastLevel == f.level
    ensures ok ==> f.os == old(f.os) + Head(f.Shape(), n, f.level, old(f.AtFirst())) + ValueText(f.Shape(), n, f.level)
    decreases n, 0
  {
    hide KeyText, Separator, JsonText.Indent, Tail, Newline, Head, ValueText;
    var open, close := if n.category == Object then '{' else '[', if n.category == Object then '}' else ']';
    ghost var l, level, head := f.Shape(), f.level, Head(f.Shape(), n, f.level, f.AtFirst());
    ghost var tail := Tail(l, n.members, level + 1, true, close);
    HeadOf(f.os, l, n, level, f.AtFirst());
    ContainerText(l, n, level);
    f.BeginContainer(n.name, open);
    ghost var start := f.os;
    ok := FormatMembers(n.members, f, close);
    if ok {
      f.FinishContainer(close);
      assert f.os == start + tail;
      assert old(f.os) + head + ([open] + Newline(l)) + tail == old(f.os) + head + ([open] + Newline(l) + tail);
    }
  }

  /** The members of an open container, up to the text that closes it. */
  method FormatMembers(ms: seq<Node>, f: JsonFormatter, ghost close: char) returns (ok: bool)
    requires f.level >= 1 && f.lastLevel == f.level - 1
    requires forall m :: m in ms ==> Categorised(m)
    modifies f
    ensures ok <==> forall m :: m in ms ==> Printable(m)
    ensures ok ==> f.level == old(f.level)
    ensures ok ==> f.os + (Newline(f.Shape()) + JsonText.Indent(f.Shape(), f.level - 1) + [close])
                   == old(f.os) + Tail(f.Shape(), ms, f.level, true, close)
    decreases ms, 0
  {
    hide KeyText, Separator, JsonText.Indent, ValueText, Head;
    ghost var l, level := f.Shape(), f.level;
    ok := true;
    for i := 0 to |ms|
      invariant ok && f.level == level && f.lastLevel == if i == 0 then level - 1 else level
      invariant forall m :: m in ms[..i] ==> Printable(m)
      invariant f.os + Tail(l, ms[i..], level, i == 0, close) == old(f.os) + Tail(l, ms, level, true, close)
    {
      ghost var before := f.os;
      TailStep(l, ms, i, level, close);
      ok := FormatEach(ms[i], f);
      if !ok {
        return;
      }
      assert forall m :: m in ms[..i + 1] ==> m in ms[..i] || m == ms[i];
      ghost var head, value, rest := Head(l, ms[i], level, i == 0), ValueText(l, ms[i], level), Tail(l, ms[i + 1..], level, false, close);
      assert before + (head + (value + rest)) == before + head + value + rest;
    }
    assert ms[..|ms|] == ms && ms[|ms|..] == [];
  }

  lemma TailStep(l: Layout, ms: seq<Node>, i: nat, level: nat, close: char)
    requires i < |ms| && level >= 1
    ensures Tail(l, ms[i..], level, i == 0, close) ==
            Head(l, ms[i], level, i == 0) + (ValueText(l, ms[i], level) + Tail(l, ms[i + 1..], level, false, close))
  {
    hide Head, ValueText;
    assert ms[i..][1..] == ms[i + 1..];
  }

  /** A whole document: a new formatter, the tree, `finish`. */
  method Serialize(n: Node, beautify: bool, plainkey: bool) returns (r: Option<string>)
    requires Categorised(n)
    ensures r.Some? <==> Printable(n)
    ensures r.Some? ==> r.value == DocumentText(Layout(beautify, plainkey), n)
  {
    hide Head, ValueText;
    var f := new JsonFormatter(beautify, plainkey);
    var ok := FormatEach(n, f);
    if !ok {
      return None;
    }
    f.Finish();
    assert "" + Head(f.Shape(), n, 0, true) == Head(f.Shape(), n, 0, true);
    return Some(f.os);
  }
}
