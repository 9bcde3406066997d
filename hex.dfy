/** `Buffer.toString('hex')`, which turns the random bytes of share tokens
    and of stored upload names into text, and its inverse. */
module HexCodec {

  /** One byte of `crypto.randomBytes`. */
  type Byte = x: int | 0 <= x < 256

  const HexDigits: string := "0123456789abcdef"

  /** `Buffer.toString('hex')` on one byte: high nibble first, lower case. */
  function HexPair(b: Byte): string {
    [HexDigits[b / 16], HexDigits[b % 16]]
  }

  /** `Buffer.toString('hex')`. */
  function Hex(bytes: seq<Byte>): (s: string)
    ensures |s| == 2 * |bytes|
  {
    if bytes == [] then "" else HexPair(bytes[0]) + Hex(bytes[1..])
  }

  /** A character `Buffer.toString('hex')` can produce. */
  predicate IsHexDigit(c: char) {
    '0' <= c <= '9' || 'a' <= c <= 'f'
  }

  /** The value of a lower-case hex digit. */
  function DigitValue(c: char): (v: nat)
    requires IsHexDigit(c)
    ensures v < 16 && HexDigits[v] == c
  {
    if '0' <= c <= '9' then c as int - '0' as int else c as int - 'a' as int + 10
  }

  /** Reading a hex string back into bytes. */
  function Unhex(s: string): seq<Byte>
    requires HexDigitsOnlyHolds(s)
  {
    if s == [] then [] else [DigitValue(s[0]) * 16 + DigitValue(s[1])] + Unhex(s[2..])
  }

  lemma DigitOf(v: nat)
    requires v < 16
    ensures IsHexDigit(HexDigits[v]) && DigitValue(HexDigits[v]) == v
  {
  }

  /** Decoding a token that starts with one encoded byte gives that byte first. */
  lemma UnhexCons(b: Byte, t: string)
    requires HexDigitsOnlyHolds(t)
    ensures HexDigitsOnlyHolds(HexPair(b) + t)
    ensures Unhex(HexPair(b) + t) == [b] + Unhex(t)
  {
    var h := HexPair(b) + t;
    DigitOf(b / 16);
    DigitOf(b % 16);
    assert h[2..] == t;
    forall i | 0 <= i < |h|
      ensures IsHexDigit(h[i])
    {
      if i >= 2 {
        assert h[i] == t[i - 2];
      }
    }
    assert DigitValue(h[0]) * 16 + DigitValue(h[1]) == b;
  }

  /** The encoding loses nothing: the bytes can be read back from the token. */
  lemma {:induction false} UnhexHex(bytes: seq<Byte>)
    ensures HexDigitsOnlyHolds(Hex(bytes))
    ensures Unhex(Hex(bytes)) == bytes
  {
    if bytes != [] {
      UnhexHex(bytes[1..]);
      UnhexCons(bytes[0], Hex(bytes[1..]));
      assert [bytes[0]] + bytes[1..] == bytes;
    }
  }

  predicate HexDigitsOnlyHolds(s: string) {
    |s| % 2 == 0 && forall i :: 0 <= i < |s| ==> IsHexDigit(s[i])
  }
}
