/** Python's `bytes.fromhex` and `bytes.hex`. */
module Hex {
  import opened Outcomes
  import opened Words

  function Nibble(ch: char): Option<nat> {
    if '0' <= ch <= '9' then Some(ch as int - '0' as int)
    else if 'a' <= ch <= 'f' then Some(ch as int - 'a' as int + 10)
    else if 'A' <= ch <= 'F' then Some(ch as int - 'A' as int + 10)
    else None
  }

  /** The digits in either case, and nothing else. */
  lemma {:induction false} NibbleExactly(ch: char, n: nat)
    ensures Nibble(ch) == Some(n) <==>
              n < 16 && (ch == "0123456789abcdef"[n] || ch == "0123456789ABCDEF"[n])
  {
  }

  /** ASCII whitespace, skipped between bytes. */
  predicate IsSpace(ch: char) {
    ch == ' ' || '\t' <= ch <= '\r'
  }

  function FromHex(s: string): Result<Bytes> {
    if s == "" then Ok([])
    else if IsSpace(s[0]) then FromHex(s[1..])
    else if |s| < 2 || Nibble(s[0]).None? || Nibble(s[1]).None? then Raised
    else
      var rest :- FromHex(s[2..]);
      Ok([16 * Nibble(s[0]).value + Nibble(s[1]).value] + rest)
  }

  function Digit(n: nat): char
    requires n < 16
  {
    if n < 10 then '0' + n as char else 'a' + (n - 10) as char
  }

  function ToHex(b: Bytes): (s: string)
    ensures |s| == 2 * |b|
  {
    if b == [] then "" else HexByte(b[0]) + ToHex(b[1..])
  }

  lemma {:induction false} DigitReads(n: nat)
    requires n < 16
    ensures Nibble(Digit(n)) == Some(n) && !IsSpace(Digit(n)) && Digit(n) != '\n'
  {
  }

  function HexByte(n: Byte): string {
    [Digit(n / 16), Digit(n % 16)]
  }

  lemma {:induction false} Slices(n: Byte, s: string)
    ensures
      var t := HexByte(n) + s;
      |t| >= 2 && t[0] == Digit(n / 16) && t[1] == Digit(n % 16) && t[2..] == s
  {
  }

  lemma {:induction false} ByteReads(n: Byte, s: string, rest: Bytes)
    requires FromHex(s) == Ok(rest)
    ensures FromHex(HexByte(n) + s) == Ok([n] + rest)
  {
    Slices(n, s);
    DigitReads(n / 16);
    DigitReads(n % 16);
    assert 16 * (n / 16) + n % 16 == n;
  }

  /** Every byte string comes back from its hexadecimal text. */
  lemma {:induction false} HexRoundTrip(b: Bytes)
    ensures FromHex(ToHex(b)) == Ok(b)
  {
    if b != [] {
      var n, rest := b[0], b[1..];
      HexRoundTrip(rest);
      ByteReads(n, ToHex(rest), rest);
      assert ToHex(b) == HexByte(n) + ToHex(rest);
      assert b == [n] + rest;
    }
  }
}
