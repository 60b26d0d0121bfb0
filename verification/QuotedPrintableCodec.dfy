/** The codec's methods on a conversion state and fixed buffers, as the source writes them. */
module QuotedPrintableCodec {
  import opened Octets
  import opened ConversionState
  import opened QuotedPrintable

  /** The counter is one more than the number of bytes held back once the state is in use. */
  ghost predicate EncValid(s: MBState<Byte>)
    reads s
  {
    s.n <= 2 && |s.mbytes| == 16
  }

  ghost function Stash(s: MBState<Byte>): (r: seq<Byte>)
    requires EncValid(s)
    ensures |r| <= 1
    reads s
  {
    if s.n == 2 then [s.mbytes[0]] else []
  }

  ghost function Column(s: MBState<Byte>): nat
    requires EncValid(s)
    reads s
  {
    if s.n == 0 then 0 else s.mbytes[15]
  }

  /** The bytes held back, then those of the buffer. */
  ghost function Available(s: MBState<Byte>, from: seq<Byte>, i: nat): seq<Byte>
    requires EncValid(s) && i <= |from|
    reads s
  {
    Stash(s) + from[i..]
  }

  method Emit(bytes: seq<Byte>, to: array<Byte>, at: nat) returns (next: nat)
    requires at + |bytes| <= to.Length
    modifies to
    ensures next == at + |bytes| && to[..next] == old(to[..at]) + bytes
  {
    next := at;
    while next < at + |bytes|
      invariant at <= next <= at + |bytes|
      invariant to[..next] == old(to[..at]) + bytes[..next - at]
    {
      to[next] := bytes[next - at];
      next := next + 1;
      assert bytes[..next - at] == bytes[..next - at - 1] + [bytes[next - at - 1]];
    }
    assert bytes[..|bytes|] == bytes;
  }

  method ReadByte(s: MBState<Byte>, from: seq<Byte>, at: nat) returns (ch: Byte, next: nat)
    requires EncValid(s) && s.n >= 1 && at <= |from| && Available(s, from, at) != []
    modifies s
    ensures EncValid(s) && s.n == 1 && at <= next <= |from| && s.mbytes[15] == old(s.mbytes[15])
    ensures old(Available(s, from, at)) == [ch] + from[next..]
  {
    next := at;
    if s.n > 1 {
      ch := s.mbytes[0];
      s.mbytes := s.mbytes[1..s.n - 1] + s.mbytes[s.n - 2..];
      s.n := s.n - 1;
    } else {
      ch := from[next];
      next := next + 1;
    }
  }

  method PutBack(s: MBState<Byte>, ch: Byte)
    requires EncValid(s) && s.n == 1
    modifies s
    ensures EncValid(s) && s.n == 2 && Stash(s) == [ch] && s.mbytes[15] == old(s.mbytes[15])
  {
    s.mbytes := s.mbytes[s.n - 1 := ch];
    s.n := s.n + 1;
  }

  /** The branches for one byte; `rest` is what is still available behind it. */
  method EncodeByte(ch: Byte, rest: seq<Byte>, column: nat, to: array<Byte>, at: nat)
    returns (next: nat, col: nat, putBack: bool)
    requires column < 256 && at < to.Length
    modifies to
    ensures at <= next <= to.Length && col < 256
    ensures var t := ByteTurn([ch] + rest, column, to.Length - at);
            to[..next] == old(to[..at]) + t.out && col == t.col && putBack == t.putBack
  {
    next, col, putBack := at, column, false;
    if IsPrintable(ch) {
      next := Emit([ch], to, next);
      col := (col + 1) % 256;
    } else if ch == RETURN || ch == NEWLINE {
      next := Emit([ch], to, next);
      col := 0;
    } else if ch == TAB || ch == SPACE {
      if |rest| > 0 {
        var peek := rest[0];
        if peek != NEWLINE && peek != RETURN {
          next := Emit([ch], to, next);
          col := (col + 1) % 256;
        } else if to.Length >= next + 3 && col < MAXCOL - 3 {
          next := Emit(Escaped(ch), to, next);
          col := (col + 3) % 256;
        } else {
          putBack := true;
        }
      } else {
        putBack := true;
      }
    } else if next + 3 < to.Length {
      if col + 3 > MAXCOL {
        next := Emit(SOFT_BREAK, to, next);
        col := 0;
        if to.Length < next + 3 {
          return next, col, true;
        }
      }
      next := Emit(Escaped(ch), to, next);
      col := (col + 3) % 256;
    } else {
      putBack := true;
    }
  }

  lemma TurnsUnfold(s: seq<Byte>, col: nat, room: nat)
    requires s != [] && room > 0 && col < 256
    ensures var t := TakeTurn(s, col, room);
            && |t.out| <= room && t.col < 256
            && Turns(s, col, room) == if t.putBack then Outcome(t.out, t.col, s, true)
                                      else var o := Turns(s[1..], t.col, room - |t.out|);
                                           o.(out := t.out + o.out)
  {
    TurnConserves(s, col, room);
  }

  /** One turn: a soft line break if the line has become too long, then the next byte. */
  method TurnOnce(s: MBState<Byte>, from: seq<Byte>, at: nat, to: array<Byte>, n: nat)
    returns (used: nat, written: nat, putBack: bool)
    requires EncValid(s) && s.n >= 1 && at <= |from| && n < to.Length && Available(s, from, at) != []
    modifies s, to
    ensures EncValid(s) && s.n >= 1 && at <= used <= |from| && n <= written <= to.Length
    ensures var a := old(Available(s, from, at));
            var t := TakeTurn(a, old(Column(s)), to.Length - n);
            && to[..written] == old(to[..n]) + t.out && Column(s) == t.col && putBack == t.putBack
            && Available(s, from, used) == (if t.putBack then a else a[1..])
            && s.n == if t.putBack then 2 else 1
  {
    hide ByteTurn;
    used, written := at, n;
    var col := s.mbytes[15];
    if col > MAXCOL && to.Length - written > 3 {
      written := Emit(SOFT_BREAK, to, written);
      col := 0;
    }
    var ch;
    ch, used := ReadByte(s, from, used);
    written, col, putBack := EncodeByte(ch, from[used..], col, to, written);
    s.mbytes := s.mbytes[15 := col];
    if putBack {
      PutBack(s, ch);
    }
  }

  /** A call that is going to end in `goal` has got this far. */
  ghost predicate Leads(goal: Outcome, out: seq<Byte>, a: seq<Byte>, col: nat, room: int, putBack: bool) {
    && col < 256 && room >= 0
    && goal == if putBack then Outcome(out, col, a, true) else Behind(out, Turns(a, col, room))
  }

  lemma LeadsOn(goal: Outcome, out: seq<Byte>, a: seq<Byte>, col: nat, room: nat)
    requires Leads(goal, out, a, col, room, false) && a != [] && room > 0
    ensures var t := TakeTurn(a, col, room);
            Leads(goal, out + t.out, if t.putBack then a else a[1..], t.col, room - |t.out|, t.putBack)
  {
    hide TakeTurn, Turns;
    var t := TakeTurn(a, col, room);
    TurnsUnfold(a, col, room);
    if !t.putBack {
      BehindBehind(out, t.out, Turns(a[1..], t.col, room - |t.out|));
    }
  }

  lemma LeadsToEnd(goal: Outcome, out: seq<Byte>, a: seq<Byte>, col: nat, room: nat, putBack: bool)
    requires Leads(goal, out, a, col, room, putBack) && (putBack || a == [] || room == 0)
    ensures goal == Outcome(out, col, a, putBack)
  {
    hide Turns;
    if !putBack {
      TurnsEnd(a, col, room);
      assert out + [] == out;
    }
  }

  /** The main loop of the encoder. */
  method RunTurns(s: MBState<Byte>, from: seq<Byte>, to: array<Byte>) returns (used: nat, written: nat, putBack: bool)
    requires EncValid(s) && s.n >= 1
    modifies s, to
    ensures EncValid(s) && s.n >= 1 && used <= |from| && written <= to.Length
    ensures Turns(old(Available(s, from, 0)), old(Column(s)), to.Length)
            == Outcome(to[..written], Column(s), Available(s, from, used), putBack)
    ensures if putBack then s.n == 2 else s.n == 2 ==> used == 0 && Stash(s) == old(Stash(s))
  {
    hide TakeTurn, Turns, Leads;
    used, written, putBack := 0, 0, false;
    ghost var goal := Turns(Available(s, from, 0), Column(s), to.Length);
    LeadsAtStart(Available(s, from, 0), Column(s), to.Length);
    assert to[..0] == [];
    while (s.n - 1) + (|from| - used) > 0 && to.Length > written && !putBack
      invariant EncValid(s) && s.n >= 1 && used <= |from| && written <= to.Length
      invariant Leads(goal, to[..written], Available(s, from, used), Column(s), to.Length - written, putBack)
      invariant if putBack then s.n == 2 else s.n == 2 ==> used == 0 && Stash(s) == old(Stash(s))
      decreases |Available(s, from, used)|, !putBack
    {
      LeadsOn(goal, to[..written], Available(s, from, used), Column(s), to.Length - written);
      used, written, putBack := TurnOnce(s, from, used, to, written);
    }
    LeadsToEnd(goal, to[..written], Available(s, from, used), Column(s), to.Length - written, putBack);
  }

  lemma LeadsAtStart(a: seq<Byte>, col: nat, room: nat)
    requires col < 256
    ensures Leads(Turns(a, col, room), [], a, col, room, false)
  {
    hide Turns;
    assert [] + Turns(a, col, room).out == Turns(a, col, room).out;
  }

  method DoOut(s: MBState<Byte>, from: seq<Byte>, to: array<Byte>) returns (used: nat, written: nat, result: CodecResult)
    requires EncValid(s)
    modifies s, to
    ensures EncValid(s) && used <= |from| && written <= to.Length
    ensures var o := Turns(old(Available(s, from, 0)), old(Column(s)), to.Length);
            && to[..written] == o.out && Column(s) == o.col && Available(s, from, used) == o.rest
            && result == if o.rest == [] then Ok else Partial
    ensures IsCall(old(Stash(s)), old(Column(s)), from, Call(|from|, to.Length, used, to[..written], Stash(s), Column(s)))
  {
    hide Turns;
    assert from[0..] == from;
    if s.n == 0 {
      s.n := 1;
      s.mbytes := s.mbytes[15 := 0];
    }
    var putBack;
    used, written, putBack := RunTurns(s, from, to);
    result := if (s.n - 1) + (|from| - used) > 0 then Partial else Ok;
  }

  function Behind(out: seq<Byte>, o: Outcome): Outcome {
    o.(out := out + o.out)
  }

  lemma BehindBehind(a: seq<Byte>, b: seq<Byte>, o: Outcome)
    ensures Behind(a, o.(out := b + o.out)) == Behind(a + b, o)
  {
    assert a + (b + o.out) == a + b + o.out;
  }

  lemma TurnsEnd(s: seq<Byte>, col: nat, room: nat)
    requires col < 256 && (s == [] || room == 0)
    ensures Turns(s, col, room) == Outcome([], col, s, false)
  {
  }

  // ---- decoding ----

  /** The parsing state is kept in the second cell, an incomplete byte in the first. */
  function ModeOf(n: nat, current: Byte, state: Byte): Mode {
    if n == 0 || state == 0 then Plain
    else if state == 1 then AfterEquals
    else if state == 2 then AfterReturn
    else AfterDigit(current)
  }

  ghost predicate DecValid(s: MBState<Byte>)
    reads s
  {
    s.n <= 1 && |s.mbytes| == 16 && s.mbytes[1] <= 3
  }

  ghost function DecMode(s: MBState<Byte>): Mode
    requires DecValid(s)
    reads s
  {
    ModeOf(s.n, s.mbytes[0], s.mbytes[1])
  }

  /** The switch over the parsing state for one byte of text. */
  method Switch(s: MBState<Byte>, ch: Byte) returns (out: seq<Byte>, failed: bool)
    requires DecValid(s) && s.n == 1 && (s.mbytes[1] == 3 ==> s.mbytes[0] % 16 == 0)
    modifies s
    ensures DecValid(s) && s.n == 1 && |out| <= 1 && (s.mbytes[1] == 3 ==> s.mbytes[0] % 16 == 0)
    ensures if failed then FeedByte(old(DecMode(s)), ch) == Failed
            else FeedByte(old(DecMode(s)), ch) == Fed(DecMode(s), out)
  {
    out, failed := [], false;
    var current, state := s.mbytes[0], s.mbytes[1];
    if state == 0 {
      if ch == EQUALS {
        state := 1;
      } else {
        out := [ch];
      }
    } else if state == 1 {
      if HexValue(ch) < 16 {
        current, state := HexValue(ch) * 16, 3;
      } else if ch == RETURN {
        state := 2;
      } else if ch == NEWLINE {
        state := 0;
      } else {
        return [], true;
      }
    } else if state == 2 {
      if ch == NEWLINE {
        state := 0;
      } else if ch == EQUALS {
        state := 1;
      } else {
        out := [ch];
      }
      state := 0;
    } else {
      if HexValue(ch) == 16 {
        return [], true;
      }
      current := current + HexValue(ch);
      out, state := [current], 0;
    }
    s.mbytes := s.mbytes[0 := current][1 := state];
  }

  lemma FeedOneMore(mode: Mode, text: seq<Byte>, k: nat)
    requires k < |text| && Feed(mode, text[..k]).Fed?
    ensures var f := Feed(mode, text[..k]);
            Feed(mode, text[..k + 1]) == match FeedByte(f.mode, text[k])
                                         case Failed => Failed
                                         case Fed(m, out) => Fed(m, f.out + out)
  {
    hide FeedByte;
    assert text[..k + 1] == text[..k] + [text[k]];
    FeedSplits(mode, text[..k], [text[k]]);
    var f := Feed(mode, text[..k]);
    assert [text[k]][1..] == [];
    match FeedByte(f.mode, text[k])
    case Failed =>
    case Fed(m, out) => assert out + [] == out;
  }

  /** Bytes are delivered as they come; an error leaves the mode undecided. */
  method DoIn(s: MBState<Byte>, from: seq<Byte>, to: array<Byte>) returns (used: nat, written: nat, result: CodecResult)
    requires DecValid(s) && (s.n == 1 && s.mbytes[1] == 3 ==> s.mbytes[0] % 16 == 0)
    modifies s, to
    ensures DecValid(s) && used <= |from| && written <= to.Length
    ensures s.n == 1 && (s.mbytes[1] == 3 ==> s.mbytes[0] % 16 == 0)
    ensures result != Error ==> Feed(old(DecMode(s)), from[..used]) == Fed(DecMode(s), to[..written])
    ensures result == Error ==> Feed(old(DecMode(s)), from[..used]) == Failed
    ensures result == Ok ==> used == |from|
    ensures result == Partial ==> used < |from| && written == to.Length
  {
    hide Feed, FeedByte;
    ghost var mode := DecMode(s);
    used, written := 0, 0;
    if s.n == 0 {
      s.n := 1;
      s.mbytes := s.mbytes[0 := 0][1 := 0];
    }
    FeedNothing(mode);
    assert from[..0] == [];
    while used < |from| && to.Length > written
      invariant DecValid(s) && s.n == 1 && (s.mbytes[1] == 3 ==> s.mbytes[0] % 16 == 0)
      invariant used <= |from| && written <= to.Length
      invariant Feed(mode, from[..used]) == Fed(DecMode(s), to[..written])
    {
      FeedOneMore(mode, from, used);
      var out, failed := Switch(s, from[used]);
      used := used + 1;
      if failed {
        result := Error;
        return;
      }
      written := Emit(out, to, written);
    }
    result := if used < |from| then Partial else Ok;
  }

  lemma FeedNothing(mode: Mode)
    ensures Feed(mode, []) == Fed(mode, [])
  {
  }
}
