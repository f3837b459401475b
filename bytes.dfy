/** Bytes and the text-to-bytes encoding the labels go through. */
module Bytes {

  /** One byte, as Python's `bytes` objects hold them. */
  newtype byte = x: int | 0 <= x < 0x100

  /** True when every character of `s` is in the ASCII range. */
  predicate IsAscii(s: string) {
    forall k :: 0 <= k < |s| ==> s[k] as int < 0x80
  }

  /** `s.encode('utf-8')` for an ASCII string: UTF-8 writes each ASCII character
      as the single byte equal to its code point. */
  function EncodeAscii(s: string): (r: seq<byte>)
    requires IsAscii(s)
    ensures |r| == |s|
    ensures forall k :: 0 <= k < |s| ==> r[k] as int == s[k] as int
  {
    seq(|s|, k requires 0 <= k < |s| => s[k] as int as byte)
  }

  /** Reads each byte back as the character with that code point. */
  function DecodeAscii(b: seq<byte>): (s: string)
    ensures |s| == |b|
  {
    seq(|b|, k requires 0 <= k < |b| => b[k] as int as char)
  }

  /** Decoding undoes the encoding of every ASCII string. */
  lemma DecodeEncode(s: string)
    requires IsAscii(s)
    ensures DecodeAscii(EncodeAscii(s)) == s
  {
    var r := DecodeAscii(EncodeAscii(s));
    forall k | 0 <= k < |s| ensures r[k] == s[k] {
      assert EncodeAscii(s)[k] as int == s[k] as int;
    }
  }

  /** Two ASCII strings have equal encodings exactly when they are equal. */
  lemma {:induction false} EncodeAsciiInjective(s: string, t: string)
    requires IsAscii(s) && IsAscii(t)
    ensures EncodeAscii(s) == EncodeAscii(t) <==> s == t
  {
    if EncodeAscii(s) == EncodeAscii(t) {
      DecodeEncode(s);
      DecodeEncode(t);
    }
  }
}
