/**
 Quoted-printable as section 6.7 of RFC 2045 defines it.  The encoder may hold back one byte: a
 blank whose successor is not known, or a byte there was no room for.
 */
module QuotedPrintable {
  import opened Octets

  const EQUALS: Byte := 61
  const RETURN: Byte := 13
  const NEWLINE: Byte := 10
  const TAB: Byte := 9
  const SPACE: Byte := 32
  const MAXCOL: nat := 76

  // ---- decoding ----

  datatype Mode = Plain | AfterEquals | AfterReturn | AfterDigit(current: Byte)

  /** A decoder that has read some text: its mode and the bytes it delivered. */
  datatype Fed = Failed | Fed(mode: Mode, out: seq<Byte>)

  /** The value of an upper case hexadecimal digit, 16 for everything else. */
  function HexValue(ch: Byte): (r: nat)
    ensures r <= 16
  {
    if 48 <= ch <= 57 then ch - 48 else if 65 <= ch <= 70 then ch - 55 else 16
  }

  /** One byte of text.  Behind a soft line break's first half every byte leads to plain text. */
  function FeedByte(mode: Mode, ch: Byte): Fed {
    match mode
    case Plain => if ch == EQUALS then Fed(AfterEquals, []) else Fed(Plain, [ch])
    case AfterEquals =>
      if HexValue(ch) < 16 then Fed(AfterDigit(HexValue(ch) * 16), [])
      else if ch == RETURN then Fed(AfterReturn, [])
      else if ch == NEWLINE then Fed(Plain, [])
      else Failed
    case AfterReturn => if ch == NEWLINE || ch == EQUALS then Fed(Plain, []) else Fed(Plain, [ch])
    case AfterDigit(current) =>
      if HexValue(ch) < 16 then Fed(Plain, [current / 16 * 16 + HexValue(ch)]) else Failed
  }

  function Feed(mode: Mode, text: seq<Byte>): Fed
    decreases |text|
  {
    if text == [] then Fed(mode, [])
    else
      match FeedByte(mode, text[0])
      case Failed => Failed
      case Fed(m, out) =>
        match Feed(m, text[1..])
        case Failed => Failed
        case Fed(m', out') => Fed(m', out + out')
  }

  lemma {:induction false} FeedSplits(mode: Mode, a: seq<Byte>, b: seq<Byte>)
    ensures Feed(mode, a + b) ==
            match Feed(mode, a)
            case Failed => Failed
            case Fed(m, out) =>
              match Feed(m, b)
              case Failed => Failed
              case Fed(m', out') => Fed(m', out + out')
    decreases |a|
  {
    hide FeedByte;
    if a == [] {
      assert a + b == b;
      assert Feed(mode, b).Fed? ==> [] + Feed(mode, b).out == Feed(mode, b).out;
    } else {
      assert (a + b)[1..] == a[1..] + b;
      match FeedByte(mode, a[0])
      case Failed =>
      case Fed(m, out) =>
        FeedSplits(m, a[1..], b);
        if Feed(m, a[1..]).Fed? {
          var m1 := Feed(m, a[1..]);
          if Feed(m1.mode, b).Fed? {
            assert out + (m1.out + Feed(m1.mode, b).out) == out + m1.out + Feed(m1.mode, b).out;
          }
        }
    }
  }

  // ---- encoding ----

  predicate IsPrintable(ch: Byte) {
    33 <= ch <= 60 || 62 <= ch <= 126
  }

  function Escaped(ch: Byte): (r: seq<Byte>)
    ensures |r| == 3
  {
    [EQUALS, HexDigit(ch / 16), HexDigit(ch % 16)]
  }

  const SOFT_BREAK: seq<Byte> := [EQUALS, RETURN, NEWLINE]

  /** What one turn of the encoder writes, the column after it, and whether the byte is put back. */
  datatype Turn = Turn(out: seq<Byte>, col: nat, putBack: bool)

  /** A blank: written as it is unless a line ends behind it or nothing is known. */
  function BlankTurn(s: seq<Byte>, col: nat, room: nat): Turn
    requires |s| > 0
  {
    if |s| == 1 then Turn([], col, true)
    else if s[1] != NEWLINE && s[1] != RETURN then Turn([s[0]], (col + 1) % 256, false)
    else if room >= 3 && col < MAXCOL - 3 then Turn(Escaped(s[0]), (col + 3) % 256, false)
    else Turn([], col, true)
  }

  /** Any other byte: escaped, behind a soft line break if the line is too long. */
  function EscapeTurn(ch: Byte, col: nat, room: nat): Turn {
    if room <= 3 then Turn([], col, true)
    else if col + 3 <= MAXCOL then Turn(Escaped(ch), (col + 3) % 256, false)
    else if room - 3 < 3 then Turn(SOFT_BREAK, 0, true)
    else Turn(SOFT_BREAK + Escaped(ch), 3, false)
  }

  /** The first byte of what is available, without the leading soft line break. */
  function ByteTurn(s: seq<Byte>, col: nat, room: nat): Turn
    requires |s| > 0
  {
    var ch := s[0];
    if IsPrintable(ch) then Turn([ch], (col + 1) % 256, false)
    else if ch == RETURN || ch == NEWLINE then Turn([ch], 0, false)
    else if ch == TAB || ch == SPACE then BlankTurn(s, col, room)
    else EscapeTurn(ch, col, room)
  }

  function TakeTurn(s: seq<Byte>, col: nat, room: nat): Turn
    requires |s| > 0
  {
    if col > MAXCOL && room > 3 then
      var t := ByteTurn(s, 0, room - 3);
      t.(out := SOFT_BREAK + t.out)
    else ByteTurn(s, col, room)
  }

  lemma EscapedReadsBack(ch: Byte)
    ensures Feed(Plain, Escaped(ch)) == Fed(Plain, [ch])
  {
    var t := Escaped(ch);
    var a, b := HexDigit(ch / 16), HexDigit(ch % 16);
    assert HexValue(a) == ch / 16 && HexValue(b) == ch % 16;
    assert t[1..] == [a, b] && t[1..][1..] == [b] && t[1..][1..][1..] == [];
    var m := FeedByte(AfterEquals, a);
    assert m == Fed(AfterDigit(ch / 16 * 16), []);
    assert FeedByte(m.mode, b) == Fed(Plain, [ch]);
    assert Feed(m.mode, [b]) == Fed(Plain, [ch]) by {
      assert [b][1..] == [];
    }
    assert Feed(AfterEquals, [a, b]) == Fed(Plain, [ch]);
  }

  lemma SoftBreakReadsBack()
    ensures Feed(Plain, SOFT_BREAK) == Fed(Plain, [])
  {
    var t := SOFT_BREAK;
    assert t[1..] == [RETURN, NEWLINE] && t[1..][1..] == [NEWLINE] && t[1..][1..][1..] == [];
    assert Feed(AfterReturn, [NEWLINE]) == Fed(Plain, []);
    assert Feed(AfterEquals, [RETURN, NEWLINE]) == Fed(Plain, []);
  }

  lemma PlainReadsBack(ch: Byte)
    requires ch != EQUALS
    ensures Feed(Plain, [ch]) == Fed(Plain, [ch])
  {
    assert [ch][1..] == [];
  }

  /** Every turn conserves the byte: it is in the output, or it is put back. */
  lemma ByteTurnConserves(s: seq<Byte>, col: nat, room: nat)
    requires |s| > 0 && room > 0 && col < 256
    ensures var t := ByteTurn(s, col, room);
            && |t.out| <= room && t.col < 256
            && Feed(Plain, t.out) == Fed(Plain, if t.putBack then [] else [s[0]])
  {
    hide Feed, Escaped, IsPrintable;
    var ch := s[0];
    EscapedReadsBack(ch);
    SoftBreakReadsBack();
    FeedSplits(Plain, SOFT_BREAK, Escaped(ch));
    NothingReadsBack();
    PrintableIsPlain(ch);
    if ch != EQUALS {
      PlainReadsBack(ch);
    }
  }

  lemma PrintableIsPlain(ch: Byte)
    ensures IsPrintable(ch) ==> ch != EQUALS
  {
  }

  lemma NothingReadsBack()
    ensures Feed(Plain, []) == Fed(Plain, [])
  {
  }

  lemma TurnConserves(s: seq<Byte>, col: nat, room: nat)
    requires |s| > 0 && room > 0 && col < 256
    ensures var t := TakeTurn(s, col, room);
            && |t.out| <= room && t.col < 256
            && Feed(Plain, t.out) == Fed(Plain, if t.putBack then [] else [s[0]])
  {
    hide Feed, ByteTurn;
    ByteTurnConserves(s, col, room);
    if col > MAXCOL && room > 3 {
      var t := ByteTurn(s, 0, room - 3);
      ByteTurnConserves(s, 0, room - 3);
      SoftBreakReadsBack();
      FeedSplits(Plain, SOFT_BREAK, t.out);
    }
  }

  // ---- whole runs ----

  /** The output decodes to all that was taken in, but for the byte held back. */
  predicate Conserved(taken: seq<Byte>, out: seq<Byte>, stash: seq<Byte>) {
    |stash| <= 1 && Feed(Plain, out).Fed? && Feed(Plain, out).mode == Plain && Feed(Plain, out).out + stash == taken
  }

  /** How a call ends: what it wrote, the column, the bytes not written, and whether the first of them was put back. */
  datatype Outcome = Outcome(out: seq<Byte>, col: nat, rest: seq<Byte>, putBack: bool)

  /** Turns are taken while there are bytes and room, up to the first byte that is put back. */
  function Turns(s: seq<Byte>, col: nat, room: nat): Outcome
    requires col < 256
    decreases |s|
  {
    if s == [] || room == 0 then Outcome([], col, s, false)
    else
      TurnConserves(s, col, room);
      var t := TakeTurn(s, col, room);
      if t.putBack then Outcome(t.out, t.col, s, true)
      else
        var o := Turns(s[1..], t.col, room - |t.out|);
        o.(out := t.out + o.out)
  }

  lemma {:induction false} TurnsConserve(s: seq<Byte>, col: nat, room: nat)
    requires col < 256
    ensures var o := Turns(s, col, room);
            && |o.rest| <= |s| && o.rest == s[|s| - |o.rest|..] && |o.out| <= room && o.col < 256
            && Feed(Plain, o.out) == Fed(Plain, s[..|s| - |o.rest|])
            && (o.putBack ==> o.rest != [])
    decreases |s|
  {
    hide TakeTurn, Feed;
    if s == [] || room == 0 {
      NothingReadsBack();
    } else {
      TurnConserves(s, col, room);
      var t := TakeTurn(s, col, room);
      if !t.putBack {
        var o := Turns(s[1..], t.col, room - |t.out|);
        TurnsConserve(s[1..], t.col, room - |t.out|);
        FeedSplits(Plain, t.out, o.out);
        var k := |s| - |o.rest|;
        assert s[..k] == [s[0]] + s[1..][..k - 1];
      }
    }
  }

  /** One call of the encoder on a prefix of the input, and the state it leaves. */
  datatype Call = Call(length: nat, cap: nat, used: nat, out: seq<Byte>, stash: seq<Byte>, col: nat)

  /** The byte held back after a call: the one put back, or the one before if there was no room at all. */
  function Held(stash: seq<Byte>, from: seq<Byte>, o: Outcome): seq<Byte> {
    if o.putBack && o.rest != [] then [o.rest[0]] else if |o.rest| > |from| then stash else []
  }

  /** A call of the encoder: the turns on the byte held back and the bytes of the buffer. */
  predicate IsCall(stash: seq<Byte>, col: nat, from: seq<Byte>, c: Call)
    requires col < 256
  {
    var o := Turns(stash + from, col, c.cap);
    && c.out == o.out && c.col == o.col && c.stash == Held(stash, from, o)
    && c.used == |from| + |c.stash| - |o.rest|
  }

  lemma CallConserves(stash: seq<Byte>, col: nat, from: seq<Byte>, c: Call)
    requires |stash| <= 1 && col < 256 && IsCall(stash, col, from, c)
    ensures c.used <= |from| && |c.out| <= c.cap && |c.stash| <= 1 && c.col < 256
    ensures Conserved(stash + from[..c.used], c.out, c.stash)
  {
    hide Feed, Conserved, Turns;
    var all := stash + from;
    var o := Turns(all, col, c.cap);
    TurnsConserve(all, col, c.cap);
    assert all[|all| - |o.rest|..] == o.rest;
    assert c.stash + from[c.used..] == o.rest;
    Cancel(stash, from, c.used, c.out, c.stash);
  }

  /** What follows in the buffer is the same before and after, so the rest is conserved. */
  lemma Cancel(stash: seq<Byte>, from: seq<Byte>, used: nat, out: seq<Byte>, stash': seq<Byte>)
    requires used <= |from| && |stash'| <= 1
    requires var all, rest := stash + from, stash' + from[used..];
             |rest| <= |all| && rest == all[|all| - |rest|..] && Feed(Plain, out) == Fed(Plain, all[..|all| - |rest|])
    ensures Conserved(stash + from[..used], out, stash')
  {
    hide Feed;
    var all, rest := stash + from, stash' + from[used..];
    var k := |all| - |rest|;
    assert all == all[..k] + rest;
    var left, right := all[..k] + stash', stash + from[..used];
    assert from == from[..used] + from[used..];
    assert all == left + from[used..] && all == right + from[used..];
    assert |left| == |right|;
    assert left == all[..|left|] && right == all[..|right|];
  }

  /** A run: every call is offered any stretch of what is left, and continues from the state of the one before. */
  ghost predicate Encodes(stash: seq<Byte>, col: nat, input: seq<Byte>, calls: seq<Call>)
    requires col < 256
    decreases |calls|
  {
    calls == [] ||
    var c := calls[0];
    && c.length <= |input| && IsCall(stash, col, input[..c.length], c)
    && c.used <= c.length && c.col < 256
    && Encodes(c.stash, c.col, input[c.used..], calls[1..])
  }

  function Written(calls: seq<Call>): seq<Byte>
    decreases |calls|
  {
    if calls == [] then [] else calls[0].out + Written(calls[1..])
  }

  function Taken(calls: seq<Call>): nat
    decreases |calls|
  {
    if calls == [] then 0 else calls[0].used + Taken(calls[1..])
  }

  function LastStash(stash: seq<Byte>, calls: seq<Call>): seq<Byte>
    decreases |calls|
  {
    if calls == [] then stash else LastStash(calls[0].stash, calls[1..])
  }

  lemma ConservedMore(taken: seq<Byte>, out: seq<Byte>, stash: seq<Byte>, more: seq<Byte>, out': seq<Byte>, stash': seq<Byte>)
    requires Conserved(taken, out, stash) && Conserved(stash + more, out', stash')
    ensures Conserved(taken + more, out + out', stash')
  {
    hide Feed;
    FeedSplits(Plain, out, out');
    var a, b := Feed(Plain, out).out, Feed(Plain, out').out;
    assert a + (stash + more) == taken + more;
    assert a + b + stash' == a + (b + stash');
  }

  /** In every run over any chunks and any room: nothing is lost and nothing is added. */
  lemma {:induction false} EveryRunConserves(stash: seq<Byte>, col: nat, input: seq<Byte>, calls: seq<Call>)
    requires |stash| <= 1 && col < 256 && Encodes(stash, col, input, calls)
    ensures Taken(calls) <= |input|
    ensures Conserved(stash + input[..Taken(calls)], Written(calls), LastStash(stash, calls))
    decreases |calls|
  {
    hide Conserved, IsCall;
    if calls == [] {
      NothingTaken(stash, input);
    } else {
      var c := calls[0];
      var b, k := input[c.used..], Taken(calls[1..]);
      CallConserves(stash, col, input[..c.length], c);
      EveryRunConserves(c.stash, c.col, b, calls[1..]);
      Slices(stash, input, c.used, c.length, k);
      ConservedMore(stash + input[..c.used], c.out, c.stash, b[..k], Written(calls[1..]), LastStash(c.stash, calls[1..]));
    }
  }

  lemma NothingTaken(stash: seq<Byte>, input: seq<Byte>)
    requires |stash| <= 1
    ensures Conserved(stash + input[..0], [], stash)
  {
    assert stash + input[..0] == stash && [] + stash == stash;
    NothingReadsBack();
  }

  lemma Slices(stash: seq<Byte>, input: seq<Byte>, used: nat, length: nat, k: nat)
    requires used <= length <= |input| && used + k <= |input|
    ensures input[..length][..used] == input[..used]
    ensures stash + input[..used] + input[used..][..k] == stash + input[..used + k]
  {
    assert input[..used + k] == input[..used] + input[used..][..k];
  }

  /** One call of the decoder on a prefix of the text. */
  datatype DecodeCall = DecodeCall(length: nat, used: nat, out: seq<Byte>, mode: Mode)

  predicate Decodes(mode: Mode, text: seq<Byte>, calls: seq<DecodeCall>)
    decreases |calls|
  {
    if calls == [] then text == []
    else
      var c := calls[0];
      && c.used <= c.length <= |text|
      && Feed(mode, text[..c.used]) == Fed(c.mode, c.out)
      && Decodes(c.mode, text[c.used..], calls[1..])
  }

  function Delivered(calls: seq<DecodeCall>): seq<Byte>
    decreases |calls|
  {
    if calls == [] then [] else calls[0].out + Delivered(calls[1..])
  }

  lemma {:induction false} AnyCuttingDelivers(mode: Mode, text: seq<Byte>, calls: seq<DecodeCall>)
    requires Decodes(mode, text, calls)
    ensures Feed(mode, text).Fed? && Feed(mode, text).out == Delivered(calls)
    decreases |calls|
  {
    if calls != [] {
      hide Feed;
      var c := calls[0];
      AnyCuttingDelivers(c.mode, text[c.used..], calls[1..]);
      FeedSplits(mode, text[..c.used], text[c.used..]);
      assert text[..c.used] + text[c.used..] == text;
    }
  }

  /** What was taken in and is not held back is what any cutting of the output decodes to. */
  lemma RoundTrip(input: seq<Byte>, encoding: seq<Call>, decoding: seq<DecodeCall>)
    requires Encodes([], 0, input, encoding) && Decodes(Plain, Written(encoding), decoding)
    ensures Taken(encoding) <= |input|
    ensures Delivered(decoding) + LastStash([], encoding) == input[..Taken(encoding)]
  {
    hide Feed, Encodes, Decodes;
    EveryRunConserves([], 0, input, encoding);
    AnyCuttingDelivers(Plain, Written(encoding), decoding);
    assert [] + input[..Taken(encoding)] == input[..Taken(encoding)];
  }
}
