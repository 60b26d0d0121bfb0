/**
 The decoder: it skips white space, decodes whole groups of four and keeps up to four
 characters of an unfinished or undelivered group for the next call.
 */
module Base64Decoder {
  import opened Octets
  import opened Chars
  import opened Base64
  import Enc = Base64Encoder

  /** One call on a prefix of the text with room for `cap` bytes; `next` is what is kept. */
  datatype Call = Call(length: nat, cap: nat, used: nat, out: seq<Byte>, next: string)

  /** What a call may do with the characters it had kept and the text it is given. */
  predicate IsCall(stash: string, from: string, c: Call) {
    && c.used <= |from| && |c.out| <= c.cap && |c.next| <= 4
    && Consumes(stash + NonSpace(from[..c.used]), c.out, c.next)
    && (c.used < |from| ==> |c.next| == 4)
    && (|c.next| == 4 ==> c.cap - |c.out| < 3)
  }

  /** All characters but the ones kept are whole groups, and are decoded. */
  predicate Consumes(all: string, out: seq<Byte>, next: string) {
    var k := |all| - |next|;
    0 <= k && k % 4 == 0 && next == all[k..] && out == Decode(all[..k])
  }

  /** A run over the whole text, each call offered any stretch of what is left. */
  predicate Decodes(stash: string, text: string, calls: seq<Call>)
    decreases |calls|
  {
    if calls == [] then text == []
    else
      var c := calls[0];
      c.length <= |text| && IsCall(stash, text[..c.length], c) && Decodes(c.next, text[c.used..], calls[1..])
  }

  function Delivered(calls: seq<Call>): seq<Byte>
    decreases |calls|
  {
    if calls == [] then [] else calls[0].out + Delivered(calls[1..])
  }

  function LastStash(stash: string, calls: seq<Call>): string
    decreases |calls|
  {
    if calls == [] then stash else LastStash(calls[0].next, calls[1..])
  }

  lemma ConsumesMore(all: string, out: seq<Byte>, next: string, more: string, out': seq<Byte>, next': string)
    requires Consumes(all, out, next) && Consumes(next + more, out', next')
    ensures Consumes(all + more, out + out', next')
  {
    hide Decode;
    var x := all[..|all| - |next|];
    var y := (next + more)[..|next + more| - |next'|];
    assert all == x + next && next + more == y + next';
    hide Consumes;
    DecodeSplits(x, y);
    Associate(x, next, more);
    Associate(x, y, next');
    WholeGroups(x + y, next');
  }

  lemma WholeGroups(x: string, next: string)
    requires |x| % 4 == 0
    ensures Consumes(x + next, Decode(x), next)
  {
    hide Decode;
    assert (x + next)[..|x|] == x && (x + next)[|x|..] == next;
  }

  lemma {:induction false} AnyCuttingDelivers(stash: string, text: string, calls: seq<Call>)
    requires Decodes(stash, text, calls)
    ensures Consumes(stash + NonSpace(text), Delivered(calls), LastStash(stash, calls))
    decreases |calls|
  {
    hide Decode, NonSpace, Consumes, IsCall;
    if calls == [] {
      NothingRead(stash, text);
    } else {
      var c := calls[0];
      FirstCall(stash, text, c);
      var a, b := text[..c.used], text[c.used..];
      AnyCuttingDelivers(c.next, b, calls[1..]);
      ConsumesMore(stash + NonSpace(a), c.out, c.next, NonSpace(b), Delivered(calls[1..]), LastStash(c.next, calls[1..]));
    }
  }

  lemma NothingRead(stash: string, text: string)
    requires text == []
    ensures Consumes(stash + NonSpace(text), [], stash)
  {
    assert stash + NonSpace(text) == stash;
    assert stash[..0] == "" && stash[0..] == stash;
  }

  /** What the first call of a run consumes, and what is left for the others. */
  lemma FirstCall(stash: string, text: string, c: Call)
    requires c.length <= |text| && IsCall(stash, text[..c.length], c)
    ensures c.used <= |text|
    ensures Consumes(stash + NonSpace(text[..c.used]), c.out, c.next)
    ensures stash + NonSpace(text) == stash + NonSpace(text[..c.used]) + NonSpace(text[c.used..])
  {
    hide Decode, NonSpace, Consumes;
    Slices(text, c.used, c.length);
    NonSpaceSplits(text[..c.used], text[c.used..]);
    Associate(stash, NonSpace(text[..c.used]), NonSpace(text[c.used..]));
  }

  lemma Slices(text: string, k: nat, n: nat)
    requires k <= n <= |text|
    ensures text[..n][..k] == text[..k] && text[..k] + text[k..] == text
  {
  }

  lemma Associate(a: string, b: string, c: string)
    ensures a + (b + c) == a + b + c
  {
  }

  /** Once nothing whole is kept back, all has been delivered. */
  lemma AllDelivered(text: string, calls: seq<Call>)
    requires Decodes("", text, calls) && |LastStash("", calls)| < 4
    ensures |NonSpace(text)| % 4 == 0 ==> Delivered(calls) == Decode(NonSpace(text))
  {
    hide Decode, NonSpace, Decodes;
    AnyCuttingDelivers("", text, calls);
    var all, last := NonSpace(text), LastStash("", calls);
    assert "" + all == all;
    if |all| % 4 == 0 {
      assert |last| == 0;
      assert all[..|all|] == all;
    }
  }

  // ---- with the encoder ----

  lemma {:induction false} WrappingIsSpace(cfg: Config, col: nat, t: string)
    requires AllSpace(cfg.lineend) && NoSpace(t)
    ensures NonSpace(Enc.Wrapped(cfg, col, t)) == t
    decreases |t|
  {
    hide NonSpace, IsSpace, Enc.Breaks, Enc.NextCol, Enc.Wrapped;
    var b := Enc.Break(cfg, col);
    NonSpaceOfSpace(b);
    Enc.WrappedUnfolds(cfg, col, t);
    if t == "" {
      NonSpaceOfNoSpace(t);
    } else if |t| <= 4 {
      NonSpaceSplits(b, t);
      NonSpaceOfNoSpace(t);
    } else {
      var rest := Enc.Wrapped(cfg, Enc.NextCol(cfg, col), t[4..]);
      WrappingIsSpace(cfg, Enc.NextCol(cfg, col), t[4..]);
      NonSpaceSplits(b + t[..4], rest);
      NonSpaceSplits(b, t[..4]);
      NonSpaceOfNoSpace(t[..4]);
      assert t[..4] + t[4..] == t;
    }
  }

  lemma CanonicalReadsBack(cfg: Config, input: seq<Byte>)
    requires cfg.padding && AllSpace(cfg.lineend)
    ensures var text := Enc.Text(cfg, Enc.START, input) + Enc.Ending(cfg, Enc.After(cfg, Enc.START, input));
            |NonSpace(text)| % 4 == 0 && Decode(NonSpace(text)) == input
  {
    var text := Enc.Text(cfg, Enc.START, input) + Enc.Ending(cfg, Enc.After(cfg, Enc.START, input));
    if input == [] {
      assert text == Enc.Break(cfg, 0);
      hide Decode, NonSpace, IsSpace;
      NonSpaceOfSpace(text);
      PlainReadsBack([]);
      assert Plain([], true) == "";
    } else {
      hide Decode, NonSpace, IsSpace, Enc.Text, Enc.Ending, Enc.After, Enc.Wrapped, Plain;
      assert [] + input == input;
      PlainReadsBack(input);
      Enc.TextIsWrapped(cfg, Enc.START, input);
      WrappingIsSpace(cfg, 0, Plain(input, true));
    }
  }

  /**
   The round trip through arbitrary buffers on both sides: any cutting of the input, any room
   for the encoder, any cutting of the text and any room for the decoder.
   */
  lemma RoundTrip(cfg: Config, input: seq<Byte>, encoding: seq<Enc.Call>, decoding: seq<Call>)
    requires cfg.padding && AllSpace(cfg.lineend)
    requires Enc.Encodes(cfg, Enc.START, input, encoding)
    requires Enc.IsEnc(Enc.LastState(Enc.START, encoding))
    requires Decodes("", Enc.Written(encoding) + Enc.Ending(cfg, Enc.LastState(Enc.START, encoding)), decoding)
    requires |LastStash("", decoding)| < 4
    ensures Delivered(decoding) == input
  {
    hide Decode, NonSpace, IsSpace, Enc.Text, Enc.Ending, Enc.After, Enc.Encodes, Decodes, Enc.Written;
    Enc.AnyCuttingSameText(cfg, Enc.START, input, encoding);
    CanonicalReadsBack(cfg, input);
    AllDelivered(Enc.Written(encoding) + Enc.Ending(cfg, Enc.LastState(Enc.START, encoding)), decoding);
  }
}
