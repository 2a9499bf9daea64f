/**
 * `urllib.parse.quote(q)` with its default `safe='/'`: the query is encoded as
 * UTF-8 and every byte outside the always-safe set and `/` becomes `%XX`
 * (upper-case hex).
 */
module Quote {

  type byte = x: int | 0 <= x < 256

  /** UTF-8 encoding of one code point (a Dafny char is a scalar value, never a surrogate). */
  function Utf8(c: char): (bs: seq<byte>)
    ensures 1 <= |bs| <= 4
    ensures |bs| == 1 <==> c as int < 0x80
    ensures |bs| == 1 ==> bs[0] == c as int
    ensures forall k :: 1 <= k < |bs| ==> 0x80 <= bs[k] < 0xC0
  {
    var n := c as int;
    if n < 0x80 then [n]
    else if n < 0x800 then [0xC0 + n / 64, 0x80 + n % 64]
    else if n < 0x10000 then [0xE0 + n / 4096, 0x80 + (n / 64) % 64, 0x80 + n % 64]
    else [0xF0 + n / 262144, 0x80 + (n / 4096) % 64, 0x80 + (n / 64) % 64, 0x80 + n % 64]
  }

  /** The code point a well-formed one-character UTF-8 sequence stands for. */
  function CodePoint(bs: seq<byte>): int
    requires 1 <= |bs| <= 4
  {
    var b: seq<int> := bs;
    if |b| == 1 then b[0]
    else if |b| == 2 then (b[0] - 0xC0) * 64 + (b[1] - 0x80)
    else if |b| == 3 then (b[0] - 0xE0) * 4096 + (b[1] - 0x80) * 64 + (b[2] - 0x80)
    else (b[0] - 0xF0) * 262144 + (b[1] - 0x80) * 4096 + (b[2] - 0x80) * 64 + (b[3] - 0x80)
  }

  /** Decoding the encoding of a character gives the character back. */
  lemma Utf8RoundTrip(c: char)
    ensures CodePoint(Utf8(c)) == c as int
  {
    var n := c as int;
    var q := n / 64;
    Digits64(n);
    Digits64(q);
    Digits64(q / 64);
    DivDiv64(n, 64);
    DivDiv64(n, 4096);
  }

  /** `n` in base 64: its quotient and last digit. */
  lemma Digits64(n: nat)
    ensures n == (n / 64) * 64 + n % 64
  {
  }

  lemma DivDiv64(n: nat, m: nat)
    requires m == 64 || m == 4096
    ensures n / m / 64 == n / (m * 64)
  {
    var q := n / m;
    var r := n % m;
    assert n == q * m + r && 0 <= r < m;
    var q2 := q / 64;
    var r2 := q % 64;
    assert q == q2 * 64 + r2;
    assert n == q2 * (m * 64) + (r2 * m + r);
    assert 0 <= r2 * m + r < m * 64;
  }

  function Utf8Str(s: string): seq<byte>
  {
    if s == [] then [] else Utf8(s[0]) + Utf8Str(s[1..])
  }

  /** Letters, digits, `_.-~` (always safe) and `/` (the default `safe`). */
  predicate IsSafe(b: int)
  {
    ('A' as int <= b <= 'Z' as int) || ('a' as int <= b <= 'z' as int) || ('0' as int <= b <= '9' as int)
    || b == '_' as int || b == '.' as int || b == '-' as int || b == '~' as int || b == '/' as int
  }

  function HexUpper(d: nat): char
    requires d < 16
  {
    if d < 10 then ('0' as int + d) as char else ('A' as int + d - 10) as char
  }

  predicate IsHex(c: char)
  {
    ('0' <= c <= '9') || ('A' <= c <= 'F') || ('a' <= c <= 'f')
  }

  function HexValue(c: char): (d: nat)
    requires IsHex(c)
    ensures d < 16
  {
    if '0' <= c <= '9' then c as int - '0' as int
    else if 'A' <= c <= 'F' then c as int - 'A' as int + 10
    else c as int - 'a' as int + 10
  }

  function QuoteByte(b: byte): string
  {
    if IsSafe(b) then [b as char] else ['%', HexUpper(b / 16), HexUpper(b % 16)]
  }

  predicate IsAscii(s: string)
  {
    forall k :: 0 <= k < |s| ==> s[k] as int < 128
  }

  function QuoteBytes(bs: seq<byte>): (r: string)
    ensures IsAscii(r)
  {
    if bs == [] then [] else QuoteByte(bs[0]) + QuoteBytes(bs[1..])
  }

  /** `urllib.parse.quote(q)` */
  function Quote(q: string): string
  {
    QuoteBytes(Utf8Str(q))
  }

  /** `urllib.parse.unquote_to_bytes` on ASCII input. */
  function UnquoteBytes(s: string): seq<byte>
    requires IsAscii(s)
  {
    if s == [] then []
    else if s[0] == '%' && |s| >= 3 && IsHex(s[1]) && IsHex(s[2]) then
      [HexValue(s[1]) * 16 + HexValue(s[2])] + UnquoteBytes(s[3..])
    else [s[0] as int] + UnquoteBytes(s[1..])
  }

  /** Percent-decoding undoes the quoting, byte for byte. */
  lemma {:induction false} UnquoteQuote(bs: seq<byte>)
    ensures UnquoteBytes(QuoteBytes(bs)) == bs
  {
    if bs != [] {
      var b := bs[0];
      var s := QuoteBytes(bs);
      var rest := QuoteBytes(bs[1..]);
      assert s == QuoteByte(b) + rest;
      UnquoteQuote(bs[1..]);
      if IsSafe(b) {
        assert s[0] == b as char && s[1..] == rest;
      } else {
        assert s[0] == '%' && s[1] == HexUpper(b / 16) && s[2] == HexUpper(b % 16);
        assert s[3..] == rest;
      }
    }
  }

  /** A query made of safe ASCII characters only is passed through unchanged. */
  lemma {:induction false} QuoteSafeIdentity(q: string)
    requires forall k :: 0 <= k < |q| ==> IsSafe(q[k] as int)
    ensures Quote(q) == q
  {
    if q != [] {
      assert Utf8(q[0]) == [q[0] as int];
      QuoteSafeIdentity(q[1..]);
      assert Utf8Str(q) == [q[0] as int] + Utf8Str(q[1..]);
      assert QuoteBytes(Utf8Str(q)) == QuoteByte(q[0] as int) + QuoteBytes(Utf8Str(q[1..]));
    }
  }
}
