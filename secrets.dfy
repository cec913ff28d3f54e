/** Model of the salt source used by the password manager: `secrets.token_hex`,
    which draws bytes from the operating system's secure random source and renders
    each one as two lower-case hexadecimal digits, high nibble first.
    The random bytes themselves are an input here; only the rendering is modelled. */
module Secrets {

  newtype byte = x: int | 0 <= x < 256

  predicate IsLowerHexChar(c: char) {
    '0' <= c <= '9' || 'a' <= c <= 'f'
  }

  predicate IsLowerHex(s: string) {
    forall i :: 0 <= i < |s| ==> IsLowerHexChar(s[i])
  }

  /** The hexadecimal digit for a nibble. */
  function HexDigit(n: int): (c: char)
    requires 0 <= n < 16
    ensures IsLowerHexChar(c)
    ensures n < 10 <==> c <= '9'
  {
    if n < 10 then ('0' as int + n) as char else ('a' as int + n - 10) as char
  }

  /** The nibble a hexadecimal digit stands for; the inverse of HexDigit. */
  function HexValue(c: char): (n: int)
    requires IsLowerHexChar(c)
    ensures 0 <= n < 16
    ensures HexDigit(n) == c
  {
    if c <= '9' then c as int - '0' as int else c as int - 'a' as int + 10
  }

  /** `token_hex`: every byte becomes two hex digits. */
  function TokenHex(bytes: seq<byte>): (s: string)
    ensures |s| == 2 * |bytes|
    ensures IsLowerHex(s)
  {
    if bytes == [] then ""
    else
      var b := bytes[0] as int;
      [HexDigit(b / 16), HexDigit(b % 16)] + TokenHex(bytes[1..])
  }

  /** Reads a hex string back into bytes (the partner of TokenHex). */
  function FromHex(s: string): (bytes: seq<byte>)
    requires |s| % 2 == 0 && IsLowerHex(s)
    ensures 2 * |bytes| == |s|
  {
    if s == [] then []
    else [(16 * HexValue(s[0]) + HexValue(s[1])) as byte] + FromHex(s[2..])
  }

  lemma HexValueOfDigit(n: int)
    requires 0 <= n < 16
    ensures HexValue(HexDigit(n)) == n
  {
  }

  /** Decoding the rendered salt gives back the random bytes. */
  lemma {:induction false} FromHexTokenHex(bytes: seq<byte>)
    ensures FromHex(TokenHex(bytes)) == bytes
  {
    if bytes != [] {
      var b := bytes[0] as int;
      var s := TokenHex(bytes);
      assert s[2..] == TokenHex(bytes[1..]);
      HexValueOfDigit(b / 16);
      HexValueOfDigit(b % 16);
      FromHexTokenHex(bytes[1..]);
      assert FromHex(s) == [bytes[0]] + bytes[1..];
    }
  }

  /** Different random bytes always give different salts. */
  lemma TokenHexInjective(b1: seq<byte>, b2: seq<byte>)
    requires b1 != b2
    ensures TokenHex(b1) != TokenHex(b2)
  {
    FromHexTokenHex(b1);
    FromHexTokenHex(b2);
  }
}
