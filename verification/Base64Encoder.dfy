/**
 The encoder: it holds back up to three bytes, so that the last group can be padded when the
 stream ends, and it counts the column in an eight bit field of the conversion state.
 */
module Base64Encoder {
  import opened Octets
  import opened Base64

  /** The bytes held back and the column. */
  datatype Enc = Enc(pending: seq<Byte>, col: nat)

  predicate IsEnc(e: Enc) {
    |e.pending| <= 3 && e.col < 256
  }

  const START: Enc := Enc([], 0)

  predicate Breaks(cfg: Config, col: nat) {
    cfg.maxcol > 0 && col + 4 > cfg.maxcol
  }

  function Break(cfg: Config, col: nat): string {
    if Breaks(cfg, col) then cfg.lineend else ""
  }

  function NextCol(cfg: Config, col: nat): nat {
    if Breaks(cfg, col) then 4 else (col + 4) % 256
  }

  /** The text a byte makes the encoder write, before the byte is held back. */
  function PutText(cfg: Config, e: Enc): string
    requires IsEnc(e)
  {
    if |e.pending| == 3 then Break(cfg, e.col) + Group(e.pending[0], e.pending[1], e.pending[2]) else ""
  }

  function Put(cfg: Config, e: Enc, b: Byte): (r: Enc)
    requires IsEnc(e)
    ensures IsEnc(r)
  {
    if |e.pending| == 3 then Enc([b], NextCol(cfg, e.col)) else e.(pending := e.pending + [b])
  }

  function Text(cfg: Config, e: Enc, bytes: seq<Byte>): string
    requires IsEnc(e)
    decreases |bytes|
  {
    if bytes == [] then "" else PutText(cfg, e) + Text(cfg, Put(cfg, e, bytes[0]), bytes[1..])
  }

  function After(cfg: Config, e: Enc, bytes: seq<Byte>): (r: Enc)
    requires IsEnc(e)
    ensures IsEnc(r)
    decreases |bytes|
  {
    if bytes == [] then e else After(cfg, Put(cfg, e, bytes[0]), bytes[1..])
  }

  lemma {:induction false} Continues(cfg: Config, e: Enc, a: seq<Byte>, b: seq<Byte>)
    requires IsEnc(e)
    ensures Text(cfg, e, a + b) == Text(cfg, e, a) + Text(cfg, After(cfg, e, a), b)
    ensures After(cfg, e, a + b) == After(cfg, After(cfg, e, a), b)
    decreases |a|
  {
    hide PutText, Put;
    if a == [] {
      assert a + b == b;
    } else {
      Continues(cfg, Put(cfg, e, a[0]), a[1..], b);
      assert (a + b)[1..] == a[1..] + b;
    }
  }

  /** The text that ends the stream. */
  function LastGroup(pending: seq<Byte>, padding: bool): string
    requires 1 <= |pending| <= 3
  {
    if |pending| == 3 then Group(pending[0], pending[1], pending[2]) else Short(pending, padding)
  }

  function Ending(cfg: Config, e: Enc): string
    requires IsEnc(e)
  {
    Break(cfg, e.col) + (if e.pending == [] then "" else LastGroup(e.pending, cfg.padding))
  }

  // ---- one text, however the buffers are cut ----

  /** One call on a prefix of the input with room for `cap` characters. */
  datatype Call = Call(length: nat, cap: nat, used: nat, out: string, next: Enc)

  /** What a call may do: it takes bytes until the next group would not fit. */
  predicate IsCall(cfg: Config, e: Enc, from: seq<Byte>, c: Call)
    requires IsEnc(e)
  {
    && c.used <= |from| && |c.out| <= c.cap
    && c.out == Text(cfg, e, from[..c.used]) && c.next == After(cfg, e, from[..c.used])
    && (c.used < |from| ==> |c.out| + |PutText(cfg, c.next)| > c.cap)
  }

  /** A run over the whole input, each call offered any stretch of what is left. */
  predicate Encodes(cfg: Config, e: Enc, input: seq<Byte>, calls: seq<Call>)
    requires IsEnc(e)
    decreases |calls|
  {
    if calls == [] then input == []
    else
      var c := calls[0];
      c.length <= |input| && IsCall(cfg, e, input[..c.length], c) && Encodes(cfg, c.next, input[c.used..], calls[1..])
  }

  function Written(calls: seq<Call>): string
    decreases |calls|
  {
    if calls == [] then "" else calls[0].out + Written(calls[1..])
  }

  function LastState(e: Enc, calls: seq<Call>): Enc
    decreases |calls|
  {
    if calls == [] then e else LastState(calls[0].next, calls[1..])
  }

  lemma {:induction false} AnyCuttingSameText(cfg: Config, e: Enc, input: seq<Byte>, calls: seq<Call>)
    requires IsEnc(e) && Encodes(cfg, e, input, calls)
    ensures Written(calls) == Text(cfg, e, input) && LastState(e, calls) == After(cfg, e, input)
    decreases |calls|
  {
    hide PutText;
    if calls != [] {
      var c := calls[0];
      var a, b := input[..c.used], input[c.used..];
      assert input == a + b && input[..c.length][..c.used] == a;
      Continues(cfg, e, a, b);
      AnyCuttingSameText(cfg, c.next, b, calls[1..]);
    }
  }

  // ---- that text is the plain one, cut into lines ----

  /** Groups of four characters, each behind a line break where one is due. */
  function Wrapped(cfg: Config, col: nat, t: string): string
    decreases |t|
  {
    if t == "" then ""
    else if |t| <= 4 then Break(cfg, col) + t
    else Break(cfg, col) + t[..4] + Wrapped(cfg, NextCol(cfg, col), t[4..])
  }

  lemma PlainStep(a: Byte, b: Byte, c: Byte, rest: seq<Byte>, padding: bool)
    ensures Plain([a, b, c] + rest, padding) == Group(a, b, c) + Plain(rest, padding)
    ensures rest != [] ==> Plain(rest, padding) != ""
  {
    hide Group, Short;
    assert ([a, b, c] + rest)[3..] == rest;
  }

  lemma WrappedStep(cfg: Config, col: nat, g: string, rest: string)
    requires |g| == 4 && rest != ""
    ensures Wrapped(cfg, col, g + rest) == Break(cfg, col) + g + Wrapped(cfg, NextCol(cfg, col), rest)
  {
    assert (g + rest)[..4] == g && (g + rest)[4..] == rest;
  }

  lemma LastGroupIsPlain(pending: seq<Byte>, padding: bool)
    requires 1 <= |pending| <= 3
    ensures LastGroup(pending, padding) == Plain(pending, padding) && 1 <= |LastGroup(pending, padding)| <= 4
  {
    hide Group, Short;
    if |pending| == 3 {
      assert pending == [pending[0], pending[1], pending[2]] + [];
      PlainStep(pending[0], pending[1], pending[2], [], padding);
      assert Plain([], padding) == "";
    }
  }

  lemma {:induction false} TextIsWrapped(cfg: Config, e: Enc, bytes: seq<Byte>)
    requires IsEnc(e) && e.pending + bytes != []
    ensures Text(cfg, e, bytes) + Ending(cfg, After(cfg, e, bytes)) == Wrapped(cfg, e.col, Plain(e.pending + bytes, cfg.padding))
    decreases |bytes|
  {
    hide Group, Short, Break, NextCol, Plain;
    if bytes == [] {
      assert e.pending + bytes == e.pending;
      LastGroupIsPlain(e.pending, cfg.padding);
    } else {
      var e' := Put(cfg, e, bytes[0]);
      TextIsWrapped(cfg, e', bytes[1..]);
      if |e.pending| == 3 {
        var p := e.pending;
        assert p + bytes == [p[0], p[1], p[2]] + bytes && [bytes[0]] + bytes[1..] == bytes;
        PlainStep(p[0], p[1], p[2], bytes, cfg.padding);
        WrappedStep(cfg, e.col, Group(p[0], p[1], p[2]), Plain(bytes, cfg.padding));
      } else {
        assert e.pending + [bytes[0]] + bytes[1..] == e.pending + bytes;
      }
    }
  }

  function Lines(t: string, w: nat): seq<string>
    requires w > 0
    decreases |t|
  {
    if |t| <= w then [t] else [t[..w]] + Lines(t[w..], w)
  }

  function Join(lines: seq<string>, sep: string): string {
    if lines == [] then "" else if |lines| == 1 then lines[0] else lines[0] + sep + Join(lines[1..], sep)
  }

  /** Whole groups that fit into a line. */
  function Width(cfg: Config): nat {
    cfg.maxcol / 4 * 4
  }

  lemma BreaksAtWidth(cfg: Config, col: nat)
    requires 4 <= cfg.maxcol <= 255 && col % 4 == 0 && col <= Width(cfg)
    ensures Breaks(cfg, col) <==> col == Width(cfg)
    ensures NextCol(cfg, col) == if col == Width(cfg) then 4 else col + 4
    ensures Width(cfg) % 4 == 0 && 4 <= Width(cfg) <= cfg.maxcol
    ensures col < Width(cfg) ==> col + 4 <= Width(cfg) && (col + 4) % 4 == 0
  {
  }

  /** From inside a line: the rest of the line, then whole lines. */
  lemma {:induction false} WrappedInLine(cfg: Config, col: nat, t: string)
    requires 4 <= cfg.maxcol <= 255 && col % 4 == 0 && col <= Width(cfg)
    ensures var room := Width(cfg) - col;
            Wrapped(cfg, col, t) == if |t| <= room then t else t[..room] + cfg.lineend + Wrapped(cfg, 0, t[room..])
    decreases |t|
  {
    hide Width, Breaks, NextCol, Wrapped;
    BreaksAtWidth(cfg, col);
    WrappedUnfolds(cfg, col, t);
    var room := Width(cfg) - col;
    if room == 0 {
      WrappedAtEndOfLine(cfg, col, t);
    } else if |t| > 4 {
      WrappedInLine(cfg, col + 4, t[4..]);
      if |t| > room {
        Regroup(cfg, t, room);
      } else {
        assert t[..4] + t[4..] == t;
      }
    }
  }

  lemma WrappedAtEndOfLine(cfg: Config, col: nat, t: string)
    requires 4 <= cfg.maxcol && Breaks(cfg, col)
    ensures Wrapped(cfg, col, t) == if t == "" then t else t[..0] + cfg.lineend + Wrapped(cfg, 0, t[0..])
  {
    assert t[..0] == "" && t[0..] == t;
    WrappedUnfolds(cfg, col, t);
    WrappedUnfolds(cfg, 0, t);
  }

  lemma WrappedUnfolds(cfg: Config, col: nat, t: string)
    ensures Wrapped(cfg, col, t) == if t == "" then ""
                                    else if |t| <= 4 then Break(cfg, col) + t
                                    else Break(cfg, col) + t[..4] + Wrapped(cfg, NextCol(cfg, col), t[4..])
  {
  }

  lemma Regroup(cfg: Config, t: string, room: nat)
    requires 4 <= room < |t|
    ensures t[..4] + (t[4..][..room - 4] + cfg.lineend + Wrapped(cfg, 0, t[4..][room - 4..]))
            == t[..room] + cfg.lineend + Wrapped(cfg, 0, t[room..])
  {
    hide Wrapped;
    assert t[4..][room - 4..] == t[room..];
    assert t[..4] + t[4..][..room - 4] == t[..room];
  }

  lemma {:induction false} WrappedIsLines(cfg: Config, t: string)
    requires 4 <= cfg.maxcol <= 255
    ensures Wrapped(cfg, 0, t) == Join(Lines(t, Width(cfg)), cfg.lineend)
    decreases |t|
  {
    var w := Width(cfg);
    WrappedInLine(cfg, 0, t);
    if |t| > w {
      WrappedIsLines(cfg, t[w..]);
      var lines := Lines(t, w);
      assert lines[1..] == Lines(t[w..], w);
    }
  }

  lemma {:induction false} LinesFit(t: string, w: nat)
    requires w > 0
    ensures |Lines(t, w)| > 0
    ensures forall i :: 0 <= i < |Lines(t, w)| ==> |Lines(t, w)[i]| <= w
    decreases |t|
  {
    if |t| > w {
      LinesFit(t[w..], w);
    }
  }

  lemma {:induction false} NoBreaks(cfg: Config, col: nat, t: string)
    requires cfg.maxcol == 0
    ensures Wrapped(cfg, col, t) == t
    decreases |t|
  {
    if |t| > 4 {
      NoBreaks(cfg, NextCol(cfg, col), t[4..]);
    }
  }

  /**
   However the input is cut into calls and however much room each call gets, the calls and the
   end of the stream write the plain text of the whole input, in lines of at most `maxcol`.
   */
  lemma OneCanonicalText(cfg: Config, input: seq<Byte>, calls: seq<Call>)
    requires Encodes(cfg, START, input, calls)
    requires cfg.maxcol == 0 || 4 <= cfg.maxcol <= 255
    ensures IsEnc(LastState(START, calls))
    ensures var text := Written(calls) + Ending(cfg, LastState(START, calls));
            if cfg.maxcol == 0 then text == Plain(input, cfg.padding)
            else text == Join(Lines(Plain(input, cfg.padding), Width(cfg)), cfg.lineend)
    ensures cfg.maxcol > 0 ==> forall l :: l in Lines(Plain(input, cfg.padding), Width(cfg)) ==> |l| <= cfg.maxcol
  {
    hide Wrapped, Lines, Join, Plain;
    AnyCuttingSameText(cfg, START, input, calls);
    var t := Plain(input, cfg.padding);
    if input == [] {
      EmptyText(cfg);
    } else {
      assert [] + input == input;
      TextIsWrapped(cfg, START, input);
    }
    if cfg.maxcol == 0 {
      NoBreaks(cfg, 0, t);
    } else {
      WrappedIsLines(cfg, t);
      LinesFit(t, Width(cfg));
    }
  }

  lemma EmptyText(cfg: Config)
    requires cfg.maxcol == 0 || 4 <= cfg.maxcol
    ensures Text(cfg, START, []) + Ending(cfg, After(cfg, START, [])) == "" == Wrapped(cfg, 0, Plain([], cfg.padding))
  {
  }
}
