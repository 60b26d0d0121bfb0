/** The codec's methods on a conversion state and fixed buffers, as the source writes them. */
module Base64Codec {
  import opened Octets
  import opened Chars
  import opened Base64
  import opened ConversionState
  import Enc = Base64Encoder
  import Dec = Base64Decoder

  ghost predicate EncValid(s: MBState<Byte>)
    reads s
  {
    s.n <= 4 && |s.mbytes| == 16
  }

  /** In use, the counter is one more than the number of bytes held back. */
  ghost function EncOf(s: MBState<Byte>): (e: Enc.Enc)
    requires EncValid(s)
    ensures Enc.IsEnc(e)
    reads s
  {
    if s.n == 0 then Enc.START else Enc.Enc(s.mbytes[..s.n - 1], s.mbytes[15])
  }

  method Emit(text: string, to: array<char>, at: nat) returns (next: nat)
    requires at + |text| <= to.Length
    modifies to
    ensures next == at + |text| && to[..next] == old(to[..at]) + text
  {
    next := at;
    while next < at + |text|
      invariant at <= next <= at + |text|
      invariant to[..next] == old(to[..at]) + text[..next - at]
    {
      to[next] := text[next - at];
      next := next + 1;
      assert text[..next - at] == text[..next - at - 1] + [text[next - at - 1]];
    }
    assert text[..|text|] == text;
  }

  /** The line break, if one is due, and the column behind the next group. */
  method EmitBreak(cfg: Config, s: MBState<Byte>, to: array<char>, at: nat) returns (next: nat)
    requires EncValid(s) && s.n > 0
    requires at + |Enc.Break(cfg, s.mbytes[15])| <= to.Length
    modifies to, s`mbytes
    ensures EncValid(s) && s.mbytes == old(s.mbytes)[15 := Enc.NextCol(cfg, old(s.mbytes)[15])]
    ensures next == at + |Enc.Break(cfg, old(s.mbytes)[15])|
    ensures to[..next] == old(to[..at]) + Enc.Break(cfg, old(s.mbytes)[15])
  {
    next := at;
    var col := s.mbytes[15];
    if cfg.maxcol > 0 && col + 4 > cfg.maxcol {
      next := Emit(cfg.lineend, to, next);
      col := 0;
    }
    s.mbytes := s.mbytes[15 := (col + 4) % 256];
  }

  /** Three bytes are held back and another one comes: they are written, or nothing happens. */
  method Flush(cfg: Config, s: MBState<Byte>, to: array<char>, at: nat) returns (next: nat, fits: bool)
    requires EncValid(s) && s.n == 4 && at <= to.Length
    modifies to, s
    ensures EncValid(s) && at <= next <= to.Length
    ensures fits <==> at + |Enc.PutText(cfg, old(EncOf(s)))| <= to.Length
    ensures fits ==> s.n == 1 && s.mbytes[15] == Enc.NextCol(cfg, old(s.mbytes)[15])
                     && to[..next] == old(to[..at]) + Enc.PutText(cfg, old(EncOf(s)))
    ensures !fits ==> next == at && to[..at] == old(to[..at]) && s.n == old(s.n) && s.mbytes == old(s.mbytes)
  {
    next, fits := at, false;
    if to.Length - at < 4 {
      return;
    }
    var col := s.mbytes[15];
    if cfg.maxcol > 0 && col + 4 > cfg.maxcol && to.Length - at < 4 + |cfg.lineend| {
      return;
    }
    var group := Group(s.mbytes[0], s.mbytes[1], s.mbytes[2]);
    next := EmitBreak(cfg, s, to, at);
    next := Emit(group, to, next);
    s.n := 1;
    fits := true;
  }

  lemma TakeMore(cfg: Config, e: Enc.Enc, from: seq<Byte>, k: nat)
    requires Enc.IsEnc(e) && k < |from|
    ensures Enc.Text(cfg, e, from[..k + 1]) == Enc.Text(cfg, e, from[..k]) + Enc.PutText(cfg, Enc.After(cfg, e, from[..k]))
    ensures Enc.After(cfg, e, from[..k + 1]) == Enc.Put(cfg, Enc.After(cfg, e, from[..k]), from[k])
  {
    hide Enc.PutText, Enc.Put;
    var e' := Enc.After(cfg, e, from[..k]);
    assert from[..k + 1] == from[..k] + [from[k]];
    Enc.Continues(cfg, e, from[..k], [from[k]]);
    assert Enc.Text(cfg, Enc.Put(cfg, e', from[k]), [from[k]][1..]) == "";
  }

  method DoOut(cfg: Config, s: MBState<Byte>, from: seq<Byte>, to: array<char>)
    returns (used: nat, written: nat, result: CodecResult)
    requires EncValid(s)
    modifies s, to
    ensures EncValid(s) && used <= |from| && written <= to.Length
    ensures Enc.IsCall(cfg, old(EncOf(s)), from, Enc.Call(|from|, to.Length, used, to[..written], EncOf(s)))
    ensures result == if used == |from| then Ok else Partial
  {
    hide Enc.Text, Enc.After, Enc.PutText, Enc.NextCol;
    ghost var e := EncOf(s);
    used, written, result := 0, 0, Ok;
    if s.n == 0 {
      s.n := 1;
      s.mbytes := s.mbytes[15 := 0];
    }
    NothingTaken(cfg, e);
    assert from[..0] == [];
    while used < |from|
      invariant EncValid(s) && s.n >= 1 && used <= |from| && written <= to.Length
      invariant EncOf(s) == Enc.After(cfg, e, from[..used])
      invariant to[..written] == Enc.Text(cfg, e, from[..used])
    {
      TakeMore(cfg, e, from, used);
      NoTextYet(cfg, EncOf(s));
      ghost var before := EncOf(s);
      if s.n == 4 {
        var fits;
        written, fits := Flush(cfg, s, to, written);
        if !fits {
          result := Partial;
          return;
        }
      }
      s.mbytes := s.mbytes[s.n - 1 := from[used]];
      s.n := s.n + 1;
      used := used + 1;
      assert EncOf(s) == Enc.Put(cfg, before, from[used - 1]);
    }
  }

  lemma NothingTaken(cfg: Config, e: Enc.Enc)
    requires Enc.IsEnc(e)
    ensures Enc.Text(cfg, e, []) == "" && Enc.After(cfg, e, []) == e
  {
  }

  lemma NoTextYet(cfg: Config, e: Enc.Enc)
    requires Enc.IsEnc(e)
    ensures |e.pending| < 3 ==> Enc.PutText(cfg, e) == ""
  {
  }

  /**
   The end of the stream.  Without room for the line break and the group nothing is written,
   though the column moves on if only the group did not fit.
   */
  method DoUnshift(cfg: Config, s: MBState<Byte>, to: array<char>) returns (written: nat, result: CodecResult)
    requires EncValid(s)
    modifies s, to
    ensures EncValid(s) && written <= to.Length
    ensures var e := old(EncOf(s));
            if to.Length >= 4 + |Enc.Break(cfg, e.col)| then
              && to[..written] == Enc.Ending(cfg, e)
              && (if e.pending == [] then result == NoConv && EncOf(s) == e.(col := Enc.NextCol(cfg, e.col))
                  else result == Ok && EncOf(s) == Enc.START)
            else
              && written == 0 && result == Partial
              && EncOf(s) == if Enc.Breaks(cfg, e.col) then e else e.(col := Enc.NextCol(cfg, e.col))
  {
    hide Enc.LastGroup, Enc.NextCol;
    written := 0;
    if s.n == 0 {
      s.n := 1;
      s.mbytes := s.mbytes[15 := 0];
    }
    ghost var e := EncOf(s);
    var col := s.mbytes[15];
    if cfg.maxcol > 0 && col + 4 > cfg.maxcol && to.Length < 4 + |cfg.lineend| {
      return 0, Partial;
    }
    assert to[..0] == "";
    written := EmitBreak(cfg, s, to, 0);
    if to.Length < 4 {
      return written, Partial;
    }
    if s.n == 1 {
      return written, NoConv;
    }
    written := EmitLast(cfg.padding, s, to, written);
    result := Ok;
  }

  /** The bytes held back, as the last group. */
  method EmitLast(padding: bool, s: MBState<Byte>, to: array<char>, at: nat) returns (next: nat)
    requires EncValid(s) && s.n >= 2 && at + 4 <= to.Length
    modifies s`n, to
    ensures EncValid(s) && s.n == 0 && next <= to.Length
    ensures to[..next] == old(to[..at]) + Enc.LastGroup(old(EncOf(s)).pending, padding)
  {
    hide Group, Short;
    var pending := s.mbytes[..s.n - 1];
    var text := if s.n == 4 then Group(s.mbytes[0], s.mbytes[1], s.mbytes[2]) else Short(pending, padding);
    assert text == Enc.LastGroup(pending, padding);
    next := Emit(text, to, at);
    s.n := 0;
  }

  // ---- decoding ----

  ghost predicate DecValid(s: MBState<char>)
    reads s
  {
    s.n <= 4 && |s.mbytes| == 16
  }

  ghost function Kept(s: MBState<char>): (r: string)
    requires DecValid(s)
    ensures |r| == s.n
    reads s
  {
    s.mbytes[..s.n]
  }

  /** All characters that count, kept or still in the buffer. */
  ghost function Available(s: MBState<char>, from: string, i: nat): string
    requires DecValid(s) && i <= |from|
    reads s
  {
    Kept(s) + NonSpace(from[i..])
  }

  lemma NonSpaceHead(from: string, i: nat)
    requires i < |from|
    ensures NonSpace(from[i..]) == (if IsSpace(from[i]) then [] else [from[i]]) + NonSpace(from[i + 1..])
  {
    assert from[i..][1..] == from[i + 1..];
  }

  lemma NonSpaceUpTo(from: string, i: nat, j: nat)
    requires i <= j < |from|
    ensures NonSpace(from[i..j + 1]) == NonSpace(from[i..j]) + (if IsSpace(from[j]) then [] else [from[j]])
  {
    assert from[i..j + 1] == from[i..j] + [from[j]];
    NonSpaceSplits(from[i..j], [from[j]]);
    NonSpaceHead([from[j]], 0);
    assert [from[j]][0..] == [from[j]] && NonSpace([from[j]][1..]) == [];
  }

  method NumBytesN(bound: nat, s: MBState<char>, from: string, at: nat) returns (count: nat)
    requires DecValid(s) && at <= |from| && bound > 0
    ensures count >= bound <==> |Available(s, from, at)| >= bound
    ensures count == 0 ==> Available(s, from, at) == []
  {
    hide NonSpace, IsSpace;
    count := s.n;
    var i := at;
    while count < bound && i < |from|
      invariant at <= i <= |from|
      invariant s.n <= count && count + |NonSpace(from[i..])| == |Available(s, from, at)|
    {
      NonSpaceHead(from, i);
      if !IsSpace(from[i]) {
        count := count + 1;
      }
      i := i + 1;
    }
    if i == |from| {
      assert from[i..] == [];
      NonSpaceOfSpace([]);
    }
  }

  /** The next character that counts; the kept ones come first and move up by one. */
  method ReadByte(s: MBState<char>, from: string, at: nat) returns (c: char, next: nat)
    requires DecValid(s) && at <= |from| && |Available(s, from, at)| > 0
    modifies s
    ensures DecValid(s) && at <= next <= |from|
    ensures [c] + Available(s, from, next) == old(Available(s, from, at))
    ensures [c] + Kept(s) == old(Kept(s)) + NonSpace(from[at..next])
  {
    hide NonSpace, IsSpace;
    next := at;
    if s.n > 0 {
      c := s.mbytes[0];
      s.mbytes := s.mbytes[1..s.n] + s.mbytes[s.n - 1..];
      s.n := s.n - 1;
      assert [c] + Kept(s) == old(Kept(s));
      assert from[at..next] == [];
      NonSpaceOfSpace([]);
    } else {
      NonSpaceOfSpace([]);
      assert from[at..next] == [];
      while next < |from| && IsSpace(from[next])
        invariant at <= next <= |from|
        invariant s.n == 0 && s.mbytes == old(s.mbytes)
        invariant NonSpace(from[next..]) == NonSpace(from[at..]) && NonSpace(from[at..next]) == []
      {
        NonSpaceHead(from, next);
        NonSpaceUpTo(from, at, next);
        next := next + 1;
      }
      assert from[|from|..] == [];
      NonSpaceHead(from, next);
      NonSpaceUpTo(from, at, next);
      c := from[next];
      next := next + 1;
      assert Kept(s) == "";
    }
  }

  /** Four characters that count. */
  method ReadGroup(s: MBState<char>, from: string, at: nat) returns (group: string, next: nat)
    requires DecValid(s) && at <= |from| && |Available(s, from, at)| >= 4
    modifies s
    ensures DecValid(s) && at <= next <= |from| && |group| == 4
    ensures group + Available(s, from, next) == old(Available(s, from, at))
    ensures group + Kept(s) == old(Kept(s)) + NonSpace(from[at..next])
  {
    hide NonSpace, IsSpace;
    group, next := "", at;
    assert from[at..next] == [];
    NonSpaceOfSpace([]);
    while |group| < 4
      invariant DecValid(s) && at <= next <= |from| && |group| <= 4
      invariant group + Available(s, from, next) == old(Available(s, from, at))
      invariant group + Kept(s) == old(Kept(s)) + NonSpace(from[at..next])
      decreases 4 - |group|
    {
      ghost var kept := Kept(s);
      var c, j := ReadByte(s, from, next);
      NonSpaceSplits(from[at..next], from[next..j]);
      assert from[at..next] + from[next..j] == from[at..j];
      assert group + [c] + Kept(s) == group + ([c] + Kept(s)) == group + kept + NonSpace(from[next..j]);
      group, next := group + [c], j;
    }
  }

  /** The group's bytes, written one by one. */
  method EmitBytes(bytes: seq<Byte>, to: array<Byte>, at: nat) returns (next: nat)
    requires at + |bytes| <= to.Length
    modifies to
    ensures next == at + |bytes| && to[..next] == old(to[..at]) + bytes
  {
    next := at;
    while next < at + |bytes|
      invariant at <= next <= at + |bytes|
      invariant to[..next] == old(to[..at]) + bytes[..next - at]
    {
      to[next] := bytes[next - at];
      next := next + 1;
      assert bytes[..next - at] == bytes[..next - at - 1] + [bytes[next - at - 1]];
    }
    assert bytes[..|bytes|] == bytes;
  }

  lemma OneMoreGroup(all: string, out: seq<Byte>, kept: string, more: string, group: string, kept': string)
    requires Dec.Consumes(all, out, kept) && |group| == 4 && kept + more == group + kept'
    ensures Dec.Consumes(all + more, out + DecodeGroup(group), kept')
  {
    hide DecodeGroup;
    assert (kept + more)[..4] == group;
    assert group[..4] == group && group[4..] == "";
    assert Decode(group) == DecodeGroup(group) + Decode("");
    assert Dec.Consumes(kept + more, DecodeGroup(group), kept');
    Dec.ConsumesMore(all, out, kept, more, DecodeGroup(group), kept');
  }

  /** The rest of the input is kept, up to four characters. */
  method Keep(s: MBState<char>, from: string, at: nat) returns (next: nat)
    requires DecValid(s) && at <= |from|
    modifies s
    ensures DecValid(s) && at <= next <= |from|
    ensures Kept(s) == old(Kept(s)) + NonSpace(from[at..next])
    ensures Available(s, from, next) == old(Available(s, from, at))
    ensures next < |from| ==> s.n == 4
  {
    hide NonSpace, IsSpace;
    next := at;
    assert from[at..next] == [];
    NonSpaceOfSpace([]);
    while next < |from| && s.n < 4
      invariant DecValid(s) && at <= next <= |from|
      invariant Kept(s) == old(Kept(s)) + NonSpace(from[at..next])
      invariant Available(s, from, next) == old(Available(s, from, at))
    {
      NonSpaceHead(from, next);
      NonSpaceUpTo(from, at, next);
      if !IsSpace(from[next]) {
        s.mbytes := s.mbytes[s.n := from[next]];
        s.n := s.n + 1;
      }
      next := next + 1;
    }
  }

  method DoIn(s: MBState<char>, from: string, to: array<Byte>) returns (used: nat, written: nat, result: CodecResult)
    requires DecValid(s)
    modifies s, to
    ensures DecValid(s) && used <= |from| && written <= to.Length
    ensures Dec.IsCall(old(Kept(s)), from, Dec.Call(|from|, to.Length, used, to[..written], Kept(s)))
    ensures result == if used == |from| && Kept(s) == "" then Ok else Partial
  {
    hide NonSpace, IsSpace, Decode, Dec.Consumes, DecodeGroup;
    used, written := 0, 0;
    ghost var kept := Kept(s);
    NothingConsumed(kept);
    assert from[..0] == [];
    NonSpaceOfSpace([]);
    assert kept + [] == kept;
    var count := NumBytesN(4, s, from, used);
    while count >= 4 && to.Length - written >= 3
      invariant DecValid(s) && used <= |from| && written <= to.Length
      invariant count >= 4 <==> |Available(s, from, used)| >= 4
      invariant Dec.Consumes(kept + NonSpace(from[..used]), to[..written], Kept(s))
      decreases |Available(s, from, used)|
    {
      ghost var old_used, old_kept, old_out := used, Kept(s), to[..written];
      var group;
      group, used := ReadGroup(s, from, used);
      written := EmitBytes(DecodeGroup(group), to, written);
      NonSpaceSplits(from[..old_used], from[old_used..used]);
      assert from[..old_used] + from[old_used..used] == from[..used];
      OneMoreGroup(kept + NonSpace(from[..old_used]), old_out, old_kept, NonSpace(from[old_used..used]), group, Kept(s));
      assert kept + NonSpace(from[..old_used]) + NonSpace(from[old_used..used]) == kept + NonSpace(from[..used]);
      count := NumBytesN(4, s, from, used);
    }
    ghost var old_used, old_kept := used, Kept(s);
    used := Keep(s, from, used);
    NonSpaceSplits(from[..old_used], from[old_used..used]);
    assert from[..old_used] + from[old_used..used] == from[..used];
    KeepMore(kept + NonSpace(from[..old_used]), to[..written], old_kept, NonSpace(from[old_used..used]));
    assert kept + NonSpace(from[..old_used]) + NonSpace(from[old_used..used]) == kept + NonSpace(from[..used]);
    assert from[|from|..] == [];
    count := NumBytesN(1, s, from, used);
    result := if count > 0 then Partial else Ok;
  }

  lemma NothingConsumed(kept: string)
    ensures Dec.Consumes(kept, [], kept)
  {
    assert kept[..0] == "" && kept[0..] == kept;
  }

  lemma KeepMore(all: string, out: seq<Byte>, kept: string, more: string)
    requires Dec.Consumes(all, out, kept)
    ensures Dec.Consumes(all + more, out, kept + more)
  {
    NothingConsumed(kept + more);
    Dec.ConsumesMore(all, out, kept, more, [], kept + more);
    assert out + [] == out;
  }
}
