/**
 Query strings in the form of section 8.2.1 of RFC 1866: a printer and a parser that reads one
 byte at a time and hands a byte that ends an escape over to itself again.
 */
module QueryParams {
  import opened Octets

  type Bytes = seq<Byte>

  const AMP: Byte := 38
  const EQ: Byte := 61
  const PERCENT: Byte := 37
  const PLUS: Byte := 43
  const SPACE: Byte := 32

  /** A parameter without a name has an empty one. */
  datatype Param = Param(name: Bytes, value: Bytes)

  datatype State = Start | Key | Value | KeyEscape | ValueEscape

  datatype Parser = Parser(state: State, key: Bytes, value: Bytes, cnt: nat, v: nat, params: seq<Param>)

  /** The value of a hexadecimal digit of either case, 16 for everything else. */
  function HexValue(ch: Byte): (r: nat)
    ensures r <= 16
  {
    if 48 <= ch <= 57 then ch - 48
    else if 97 <= ch <= 102 then ch - 87
    else if 65 <= ch <= 70 then ch - 55
    else 16
  }

  function Plain(ch: Byte): Byte {
    if ch == PLUS then SPACE else ch
  }

  predicate Escaping(p: Parser) {
    p.state == KeyEscape || p.state == ValueEscape
  }

  /** The escaped byte joins the key or the value. */
  function Unescaped(p: Parser, b: int): Parser
    requires Escaping(p)
  {
    if p.state == KeyEscape then p.(state := Key, key := p.key + [b % 256], cnt := 0, v := 0)
    else p.(state := Value, value := p.value + [b % 256], cnt := 0, v := 0)
  }

  function Parse(p: Parser, ch: Byte): Parser
    decreases Escaping(p)
  {
    match p.state
    case Start =>
      if ch == EQ then p.(state := Value)
      else if ch == AMP then p
      else if ch == PERCENT then p.(state := KeyEscape)
      else p.(state := Key, key := [Plain(ch)])
    case Key =>
      if ch == EQ then p.(state := Value)
      else if ch == AMP then p.(state := Start, key := [], params := p.params + [Param([], p.key)])
      else if ch == PERCENT then p.(state := KeyEscape)
      else p.(key := p.key + [Plain(ch)])
    case Value =>
      if ch == PERCENT then p.(state := ValueEscape)
      else if ch == AMP then p.(state := Start, key := [], value := [], params := p.params + [Param(p.key, p.value)])
      else p.(value := p.value + [Plain(ch)])
    case _ =>
      if HexValue(ch) == 16 then Parse(Unescaped(p, if p.cnt == 0 then PERCENT else p.v), ch)
      else
        var q := p.(cnt := p.cnt + 1, v := p.v * 16 + HexValue(ch));
        if q.cnt >= 2 then Unescaped(q, q.v) else q
  }

  /** How often the parser calls itself for one byte. */
  function Depth(p: Parser, ch: Byte): nat
    decreases Escaping(p)
  {
    if Escaping(p) && HexValue(ch) == 16 then 1 + Depth(Unescaped(p, if p.cnt == 0 then PERCENT else p.v), ch) else 0
  }

  function Finish(p: Parser): seq<Param> {
    match p.state
    case Start => p.params
    case Key => if p.key == [] then p.params else p.params + [Param([], p.key)]
    case Value => p.params + [Param(p.key, p.value)]
    case KeyEscape => p.params + [Param([], Unescaped(p, if p.cnt == 0 then PERCENT else p.v).key)]
    case ValueEscape => p.params + [Param(p.key, Unescaped(p, if p.cnt == 0 then PERCENT else p.v).value)]
  }

  function Feed(p: Parser, text: Bytes): Parser
    decreases |text|
  {
    if text == [] then p else Feed(Parse(p, text[0]), text[1..])
  }

  function Fresh(params: seq<Param>): Parser {
    Parser(Start, [], [], 0, 0, params)
  }

  /** Parameters are appended to those already there. */
  function ParseUrl(params: seq<Param>, url: Bytes): seq<Param> {
    Finish(Feed(Fresh(params), url))
  }

  // ---- printing ----

  /** Bytes from 128 on are negative in the source and are escaped like control characters. */
  function Encoded(ch: Byte): Bytes {
    if 32 < ch < 127 && ch != PERCENT && ch != PLUS && ch != EQ && ch != AMP then [ch]
    else if ch == SPACE then [PLUS]
    else [PERCENT, HexDigit(ch / 16), HexDigit(ch % 16)]
  }

  function EncodedAll(s: Bytes): Bytes
    decreases |s|
  {
    if s == [] then [] else Encoded(s[0]) + EncodedAll(s[1..])
  }

  function ParamText(p: Param): Bytes {
    (if p.name == [] then [] else EncodedAll(p.name) + [EQ]) + EncodedAll(p.value)
  }

  function RestUrl(params: seq<Param>): Bytes
    decreases |params|
  {
    if params == [] then [] else [AMP] + ParamText(params[0]) + RestUrl(params[1..])
  }

  function GetUrl(params: seq<Param>): Bytes {
    if params == [] then [] else ParamText(params[0]) + RestUrl(params[1..])
  }

  // ---- the parser on printed text ----

  lemma {:induction false} FeedSplits(p: Parser, a: Bytes, b: Bytes)
    ensures Feed(p, a + b) == Feed(Feed(p, a), b)
    decreases |a|
  {
    hide Parse;
    if a == [] {
      assert a + b == b;
    } else {
      assert (a + b)[1..] == a[1..] + b;
      FeedSplits(Parse(p, a[0]), a[1..], b);
    }
  }

  lemma FeedOne(p: Parser, ch: Byte)
    ensures Feed(p, [ch]) == Parse(p, ch)
  {
    hide Parse;
    assert [ch][1..] == [];
  }

  lemma FeedThree(p: Parser, a: Byte, b: Byte, c: Byte)
    ensures Feed(p, [a, b, c]) == Parse(Parse(Parse(p, a), b), c)
  {
    hide Parse;
    assert [a, b, c][1..] == [b, c] && [b, c][1..] == [c];
    FeedOne(Parse(Parse(p, a), b), c);
    assert Feed(Parse(p, a), [b, c]) == Feed(Parse(Parse(p, a), b), [c]);
  }

  /** Ready for text: nothing of an escape is left over. */
  predicate Ready(p: Parser) {
    p.cnt == 0 && p.v == 0 && (p.state == Start ==> p.key == [])
  }

  lemma HexReadsBack(v: nat)
    requires v < 16
    ensures HexValue(HexDigit(v)) == v
  {
  }

  /** An escape of two digits. */
  lemma EscapeReadsBack(p: Parser, hi: nat, lo: nat)
    requires Ready(p) && !Escaping(p) && hi < 16 && lo < 16
    ensures Feed(p, [PERCENT, HexDigit(hi), HexDigit(lo)])
            == if p.state == Value then p.(value := p.value + [hi * 16 + lo])
               else p.(state := Key, key := p.key + [hi * 16 + lo])
  {
    hide Feed, HexDigit, HexValue;
    HexReadsBack(hi);
    HexReadsBack(lo);
    FeedThree(p, PERCENT, HexDigit(hi), HexDigit(lo));
    var p1 := Parse(p, PERCENT);
    var p2 := Parse(p1, HexDigit(hi));
    assert p2 == p1.(cnt := 1, v := hi);
    var p3 := p2.(cnt := 2, v := hi * 16 + lo);
    assert Parse(p2, HexDigit(lo)) == Unescaped(p3, hi * 16 + lo);
    assert (hi * 16 + lo) % 256 == hi * 16 + lo;
  }

  lemma EncodedInKey(p: Parser, ch: Byte)
    requires Ready(p) && (p.state == Start || p.state == Key)
    ensures Feed(p, Encoded(ch)) == p.(state := Key, key := p.key + [ch])
  {
    hide Feed, HexDigit;
    assert ch == ch / 16 * 16 + ch % 16;
    assert [] + [ch] == [ch];
    FeedOne(p, ch);
    FeedOne(p, PLUS);
    EscapeReadsBack(p, ch / 16, ch % 16);
  }

  lemma EncodedInValue(p: Parser, ch: Byte)
    requires Ready(p) && p.state == Value
    ensures Feed(p, Encoded(ch)) == p.(value := p.value + [ch])
  {
    hide Feed, HexDigit;
    assert ch == ch / 16 * 16 + ch % 16;
    FeedOne(p, ch);
    FeedOne(p, PLUS);
    EscapeReadsBack(p, ch / 16, ch % 16);
  }

  lemma {:induction false} KeyReadsBack(p: Parser, s: Bytes)
    requires Ready(p) && (p.state == Start || p.state == Key)
    ensures Feed(p, EncodedAll(s)) == if s == [] then p else p.(state := Key, key := p.key + s)
    decreases |s|
  {
    hide Feed, Encoded;
    if s == [] {
      FeedNone(p);
    } else {
      var p' := p.(state := Key, key := p.key + [s[0]]);
      EncodedInKey(p, s[0]);
      KeyReadsBack(p', s[1..]);
      FeedSplits(p, Encoded(s[0]), EncodedAll(s[1..]));
      assert p.key + [s[0]] + s[1..] == p.key + s;
    }
  }

  lemma {:induction false} ValueReadsBack(p: Parser, s: Bytes)
    requires Ready(p) && p.state == Value
    ensures Feed(p, EncodedAll(s)) == p.(value := p.value + s)
    decreases |s|
  {
    hide Feed, Encoded;
    if s == [] {
      FeedNone(p);
      assert p.value + [] == p.value;
    } else {
      var p' := p.(value := p.value + [s[0]]);
      EncodedInValue(p, s[0]);
      ValueReadsBack(p', s[1..]);
      FeedSplits(p, Encoded(s[0]), EncodedAll(s[1..]));
      assert p.value + [s[0]] + s[1..] == p.value + s;
    }
  }

  lemma FeedNone(p: Parser)
    ensures Feed(p, []) == p
  {
  }

  /** What a parameter leaves behind: one with neither name nor value leaves nothing. */
  function Kept(p: Param): seq<Param> {
    if p.name == [] && p.value == [] then [] else [p]
  }

  function KeptAll(params: seq<Param>): seq<Param>
    decreases |params|
  {
    if params == [] then [] else Kept(params[0]) + KeptAll(params[1..])
  }

  lemma ParamReadsBack(params: seq<Param>, p: Param)
    ensures var e := Feed(Fresh(params), ParamText(p));
            Finish(e) == params + Kept(p) && Parse(e, AMP) == Fresh(params + Kept(p))
  {
    hide Feed, EncodedAll;
    var f := Fresh(params);
    if p.name == [] {
      assert ParamText(p) == EncodedAll(p.value);
      KeyReadsBack(f, p.value);
      assert [] + p.value == p.value;
      assert p.value == [] ==> params + [] == params;
    } else {
      var text := EncodedAll(p.name) + [EQ];
      var k := f.(state := Key, key := [] + p.name);
      KeyReadsBack(f, p.name);
      FeedSplits(f, EncodedAll(p.name), [EQ]);
      FeedOne(k, EQ);
      FeedSplits(f, text, EncodedAll(p.value));
      ValueReadsBack(k.(state := Value), p.value);
      assert [] + p.name == p.name && [] + p.value == p.value;
    }
  }

  lemma {:induction false} RestReadsBack(e: Parser, params: seq<Param>, before: seq<Param>)
    requires Finish(e) == before && Parse(e, AMP) == Fresh(before)
    ensures Finish(Feed(e, RestUrl(params))) == before + KeptAll(params)
    decreases |params|
  {
    hide Feed, ParamText, Parse, Finish, Kept;
    if params == [] {
      FeedNone(e);
      assert before + [] == before;
    } else {
      var text := ParamText(params[0]);
      ParamReadsBack(before, params[0]);
      FeedOne(e, AMP);
      FeedSplits(e, [AMP], text);
      FeedSplits(e, [AMP] + text, RestUrl(params[1..]));
      RestReadsBack(Feed(Fresh(before), text), params[1..], before + Kept(params[0]));
      assert before + Kept(params[0]) + KeptAll(params[1..]) == before + KeptAll(params);
    }
  }

  /** Printing and parsing drops the parameters with neither name nor value, and nothing else. */
  lemma UrlReadsBack(before: seq<Param>, params: seq<Param>)
    ensures ParseUrl(before, GetUrl(params)) == before + KeptAll(params)
  {
    hide Feed, ParamText, Parse, Finish, Kept;
    if params == [] {
      FeedNone(Fresh(before));
      FinishFresh(before);
      assert before + [] == before;
    } else {
      ParamReadsBack(before, params[0]);
      FeedSplits(Fresh(before), ParamText(params[0]), RestUrl(params[1..]));
      RestReadsBack(Feed(Fresh(before), ParamText(params[0])), params[1..], before + Kept(params[0]));
      assert before + Kept(params[0]) + KeptAll(params[1..]) == before + KeptAll(params);
    }
  }

  lemma FinishFresh(params: seq<Param>)
    ensures Finish(Fresh(params)) == params
  {
  }

  predicate NoneEmpty(params: seq<Param>) {
    forall i :: 0 <= i < |params| ==> params[i].name != [] || params[i].value != []
  }

  lemma {:induction false} KeptLength(params: seq<Param>)
    ensures |KeptAll(params)| <= |params|
    ensures KeptAll(params) == params <==> NoneEmpty(params)
    ensures |KeptAll(params)| == |params| <==> NoneEmpty(params)
    decreases |params|
  {
    if params != [] {
      KeptLength(params[1..]);
      assert params == [params[0]] + params[1..];
      assert NoneEmpty(params) <==> Kept(params[0]) == [params[0]] && NoneEmpty(params[1..]);
    }
  }

  /** The round trip holds exactly if no parameter has both name and value empty. */
  lemma RoundTrip(params: seq<Param>)
    ensures ParseUrl([], GetUrl(params)) == params <==> NoneEmpty(params)
  {
    UrlReadsBack([], params);
    KeptLength(params);
    assert [] + KeptAll(params) == KeptAll(params);
  }

  /** A byte that ends an escape is parsed again once, and never more often. */
  lemma ReparsedOnce(p: Parser, ch: Byte)
    ensures Depth(p, ch) <= 1
    ensures Depth(p, ch) == 1 <==> Escaping(p) && HexValue(ch) == 16
  {
  }

  // ---- the objects ----

  class UrlParser {
    var params: seq<Param> // of the query parameters that are filled
    var state: State
    var key: Bytes
    var value: Bytes
    var cnt: nat
    var v: nat

    ghost function Model(): Parser
      reads this
    {
      Parser(state, key, value, cnt, v, params)
    }

    constructor (q: seq<Param>)
      ensures Model() == Fresh(q)
    {
      params, state, key, value, cnt, v := q, Start, [], [], 0, 0;
    }

    /** The escape is over; `b` is the byte it stands for. */
    method EndEscape(b: int)
      requires Escaping(Model())
      modifies this
      ensures Model() == Unescaped(old(Model()), b)
    {
      if state == KeyEscape {
        key, state := key + [b % 256], Key;
      } else {
        value, state := value + [b % 256], Value;
      }
      cnt, v := 0, 0;
    }

    method ParseByte(ch: Byte)
      modifies this
      ensures Model() == Parse(old(Model()), ch)
      decreases state == KeyEscape || state == ValueEscape
    {
      match state {
        case Start =>
          if ch == EQ {
            state := Value;
          } else if ch == AMP {
          } else if ch == PERCENT {
            state := KeyEscape;
          } else {
            key, state := [Plain(ch)], Key;
          }
        case Key =>
          if ch == EQ {
            state := Value;
          } else if ch == AMP {
            params := params + [Param([], key)];
            key, state := [], Start;
          } else if ch == PERCENT {
            state := KeyEscape;
          } else {
            key := key + [Plain(ch)];
          }
        case Value =>
          if ch == PERCENT {
            state := ValueEscape;
          } else if ch == AMP {
            params := params + [Param(key, value)];
            key, value, state := [], [], Start;
          } else {
            value := value + [Plain(ch)];
          }
        case _ =>
          if HexValue(ch) < 16 {
            cnt, v := cnt + 1, v * 16 + HexValue(ch);
            if cnt >= 2 {
              EndEscape(v);
            }
          } else {
            EndEscape(if cnt == 0 then PERCENT else v);
            ParseByte(ch);
          }
      }
    }

    method FinishAll()
      modifies this
      ensures params == Finish(old(Model()))
    {
      match state {
        case Start =>
        case Key =>
          if key != [] {
            params := params + [Param([], key)];
          }
        case Value =>
          params := params + [Param(key, value)];
        case KeyEscape =>
          EndEscape(if cnt == 0 then PERCENT else v);
          params := params + [Param([], key)];
        case ValueEscape =>
          EndEscape(if cnt == 0 then PERCENT else v);
          params := params + [Param(key, value)];
      }
      key, value, cnt, v := [], [], 0, 0;
    }
  }

  method ReadUrl(params: seq<Param>, url: Bytes) returns (r: seq<Param>)
    ensures r == ParseUrl(params, url)
  {
    hide Parse, Finish;
    var p := new UrlParser(params);
    var i := 0;
    while i < |url|
      invariant 0 <= i <= |url|
      invariant Feed(p.Model(), url[i..]) == Feed(Fresh(params), url)
    {
      assert url[i..][1..] == url[i + 1..];
      p.ParseByte(url[i]);
      i := i + 1;
    }
    p.FinishAll();
    r := p.params;
  }

  method AppendUrl(url: Bytes, s: Bytes) returns (r: Bytes)
    ensures r == url + EncodedAll(s)
  {
    hide Encoded;
    r := url;
    var i := 0;
    while i < |s|
      invariant 0 <= i <= |s|
      invariant r + EncodedAll(s[i..]) == url + EncodedAll(s)
    {
      assert s[i..][1..] == s[i + 1..];
      assert r + EncodedAll(s[i..]) == r + Encoded(s[i]) + EncodedAll(s[i + 1..]);
      r := r + Encoded(s[i]);
      i := i + 1;
    }
  }

  method PrintUrl(params: seq<Param>) returns (url: Bytes)
    ensures url == GetUrl(params)
  {
    hide EncodedAll;
    url := [];
    var nn := 0;
    while nn < |params|
      invariant 0 <= nn <= |params|
      invariant nn == 0 ==> url == []
      invariant nn > 0 ==> url + RestUrl(params[nn..]) == GetUrl(params)
    {
      ghost var before := url;
      var p := params[nn];
      assert params[nn..][1..] == params[nn + 1..];
      if nn > 0 {
        url := url + [AMP];
      }
      ghost var start := url;
      if p.name != [] {
        url := AppendUrl(url, p.name);
        url := url + [EQ];
      }
      url := AppendUrl(url, p.value);
      assert url == start + ParamText(p);
      assert nn > 0 ==> before + ([AMP] + ParamText(p) + RestUrl(params[nn + 1..])) == url + RestUrl(params[nn + 1..]);
      nn := nn + 1;
    }
    assert nn > 0 ==> url + [] == url;
  }
}
