/** Generated credentials: `secrets.token_hex(32)` draws 32 random bytes and
    writes each as two lower-case hexadecimal digits. The randomness is a
    parameter; the encoding is modelled exactly. */
module Hex {
  import opened Base

  type Byte = x: int | 0 <= x < 256

  /** Number of random bytes behind a generated key. */
  const KeyBytes := 32

  predicate IsHexDigit(c: char) {
    '0' <= c <= '9' || 'a' <= c <= 'f'
  }

  /** The lower-case digit for a nibble. */
  function DigitChar(v: nat): (c: char)
    requires v < 16
    ensures IsHexDigit(c)
  {
    if v < 10 then (48 + v) as char else (87 + v) as char
  }

  function DigitValue(c: char): (v: nat)
    requires IsHexDigit(c)
    ensures v < 16 && DigitChar(v) == c
  {
    if '0' <= c <= '9' then (c as int - 48) else (c as int - 87)
  }

  /** The two digits of one byte, high nibble first. */
  function ByteHex(b: Byte): (r: string)
    ensures |r| == 2 && IsHexDigit(r[0]) && IsHexDigit(r[1])
    ensures DigitValue(r[0]) * 16 + DigitValue(r[1]) == b
  {
    [DigitChar(b / 16), DigitChar(b % 16)]
  }

  /** `bytes.hex()`: two lower-case digits per byte, in order. */
  function TokenHex(bytes: seq<Byte>): (r: string)
    ensures |r| == 2 * |bytes|
    ensures forall i :: 0 <= i < |r| ==> IsHexDigit(r[i])
  {
    if |bytes| == 0 then ""
    else ByteHex(bytes[0]) + TokenHex(bytes[1..])
  }

  /** Reads back an even-length string of lower-case digits. */
  function HexDecode(s: string): (r: Option<seq<Byte>>)
    ensures r.Some? ==> |s| == 2 * |r.value|
    decreases |s|
  {
    if |s| == 0 then Some([])
    else if |s| == 1 || !IsHexDigit(s[0]) || !IsHexDigit(s[1]) then None
    else match HexDecode(s[2..])
      case None => None
      case Some(rest) => Some([DigitValue(s[0]) * 16 + DigitValue(s[1])] + rest)
  }

  /** The encoding loses nothing: decoding a generated key gives back the
      random bytes, so distinct draws give distinct keys. */
  lemma {:induction false} HexRoundTrip(bytes: seq<Byte>)
    ensures HexDecode(TokenHex(bytes)) == Some(bytes)
  {
    if |bytes| > 0 {
      var s := TokenHex(bytes);
      assert s[2..] == TokenHex(bytes[1..]);
      HexRoundTrip(bytes[1..]);
      assert bytes == [bytes[0]] + bytes[1..];
    }
  }

  /** Distinct random draws yield distinct keys. */
  lemma TokenHexInjective(a: seq<Byte>, b: seq<Byte>)
    requires TokenHex(a) == TokenHex(b)
    ensures a == b
  {
    HexRoundTrip(a);
    HexRoundTrip(b);
  }
}
