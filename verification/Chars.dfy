/**
 Character classes as the C library decides them in the "C" locale.

 Characters are Unicode scalar values.  A `std::string` is modelled as a string whose
 characters are all below 256, one per byte.
 */
module Chars {

  predicate IsSpace(c: char) {
    c == ' ' || '\t' <= c <= '\r'
  }

  predicate IsDigit(c: char) {
    '0' <= c <= '9'
  }

  predicate IsAlpha(c: char) {
    'a' <= c <= 'z' || 'A' <= c <= 'Z'
  }

  predicate IsAlnum(c: char) {
    IsAlpha(c) || IsDigit(c)
  }

  predicate IsByte(c: char) {
    c < 256 as char
  }

  predicate IsAscii(c: char) {
    c < 128 as char
  }

  predicate AllAscii(s: string) {
    forall i :: 0 <= i < |s| ==> IsAscii(s[i])
  }

  predicate AllBytes(s: string) {
    forall i :: 0 <= i < |s| ==> IsByte(s[i])
  }

  predicate AllSpace(s: string) {
    forall i :: 0 <= i < |s| ==> IsSpace(s[i])
  }

  predicate AllDigits(s: string) {
    forall i :: 0 <= i < |s| ==> IsDigit(s[i])
  }

  predicate IsScalar(v: int) {
    0 <= v < 0xD800 || 0xE000 <= v < 0x110000
  }

  /** The UTF-8 bytes of one scalar value. */
  function Utf8Char(c: char): (r: string)
    ensures AllBytes(r) && 1 <= |r| <= 4
    ensures |r| == 1 <==> IsAscii(c)
  {
    var v := c as int;
    if v < 0x80 then [c]
    else if v < 0x800 then [Byte(0xC0 + v / 0x40), Byte(0x80 + v % 0x40)]
    else if v < 0x10000 then
      [Byte(0xE0 + v / 0x1000), Byte(0x80 + v / 0x40 % 0x40), Byte(0x80 + v % 0x40)]
    else
      [Byte(0xF0 + v / 0x40000), Byte(0x80 + v / 0x1000 % 0x40), Byte(0x80 + v / 0x40 % 0x40),
       Byte(0x80 + v % 0x40)]
  }

  function Byte(v: nat): (c: char)
    requires v < 256
    ensures IsByte(c) && c as int == v
  {
    v as char
  }

  /** The UTF-8 encoding of a string of scalar values, one character per byte. */
  function Utf8(s: string): (r: string)
    ensures AllBytes(r)
  {
    if s == [] then [] else Utf8Char(s[0]) + Utf8(s[1..])
  }

  /** Encoding never shortens a string, and it leaves exactly the ASCII strings alone. */
  lemma {:induction false} Utf8Fixpoint(s: string)
    ensures |Utf8(s)| >= |s|
    ensures Utf8(s) == s <==> AllAscii(s)
    ensures |Utf8(s)| == |s| <==> AllAscii(s)
  {
    if s != [] {
      Utf8Fixpoint(s[1..]);
      assert s == [s[0]] + s[1..];
      assert AllAscii(s) <==> IsAscii(s[0]) && AllAscii(s[1..]);
    }
  }
}
