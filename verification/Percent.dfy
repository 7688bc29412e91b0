/** Percent-encoding of provider paths in stream URLs (section 2.1 of RFC 3986).
  * Encoded text and decoded results are Go strings, that is bytes; a byte is a char
  * below 256 here, and Utf8 gives the bytes of a path. */
module Percent {
  import opened Wrappers
  import opened Strings
  import opened Paths

  // The UTF-8 bytes of one character.
  function Utf8Char(c: char): (bytes: string)
    ensures bytes != "" && forall i :: 0 <= i < |bytes| ==> bytes[i] < 256 as char
    ensures c != '/' ==> '/' !in bytes
  {
    var n := c as int;
    if n < 0x80 then [c]
    else if n < 0x800 then [(0xC0 + n / 64) as char, (0x80 + n % 64) as char]
    else if n < 0x1_0000 then
      [(0xE0 + n / 4096) as char, (0x80 + n / 64 % 64) as char, (0x80 + n % 64) as char]
    else
      [(0xF0 + n / 262144) as char, (0x80 + n / 4096 % 64) as char, (0x80 + n / 64 % 64) as char, (0x80 + n % 64) as char]
  }

  function Utf8(s: string): (bytes: string)
    ensures forall i :: 0 <= i < |bytes| ==> bytes[i] < 256 as char
  {
    if s == "" then "" else Utf8Char(s[0]) + Utf8(s[1..])
  }

  // shouldEscape of net/url for a path segment.
  predicate Kept(b: char) {
    'a' <= b <= 'z' || 'A' <= b <= 'Z' || '0' <= b <= '9'
    || b in {'-', '_', '.', '~', '$', '&', '+', ':', '=', '@'}
  }

  function HexDigit(n: int): (d: char)
    requires 0 <= n < 16
    ensures '0' <= d <= '9' || 'A' <= d <= 'F'
  {
    if n < 10 then ('0' as int + n) as char else ('A' as int + n - 10) as char
  }

  function HexValue(d: char): Option<int> {
    if '0' <= d <= '9' then Some(d as int - '0' as int)
    else if 'A' <= d <= 'F' then Some(d as int - 'A' as int + 10)
    else if 'a' <= d <= 'f' then Some(d as int - 'a' as int + 10)
    else None
  }

  function EscapeByte(b: char): string
    requires b < 256 as char
  {
    if Kept(b) then [b] else ['%', HexDigit(b as int / 16), HexDigit(b as int % 16)]
  }

  function EscapeBytes(bytes: string): string
    requires forall i :: 0 <= i < |bytes| ==> bytes[i] < 256 as char
  {
    if bytes == "" then "" else EscapeByte(bytes[0]) + EscapeBytes(bytes[1..])
  }

  // url.PathEscape.
  function PathEscape(segment: string): string {
    EscapeBytes(Utf8(segment))
  }

  // url.PathUnescape: a percent sign must be followed by two hexadecimal digits.
  function PathUnescape(text: string): Result<string, string> {
    if text == "" then Ok("")
    else if text[0] != '%' then
      var rest := PathUnescape(text[1..]);
      if rest.Err? then rest else Ok([text[0]] + rest.value)
    else if |text| < 3 || HexValue(text[1]).None? || HexValue(text[2]).None? then Err("invalid URL escape")
    else
      var rest := PathUnescape(text[3..]);
      if rest.Err? then rest
      else Ok([(HexValue(text[1]).value * 16 + HexValue(text[2]).value) as char] + rest.value)
  }

  function EscapeAll(segments: seq<string>): (escaped: seq<string>)
    ensures |escaped| == |segments|
  {
    if segments == [] then [] else [PathEscape(segments[0])] + EscapeAll(segments[1..])
  }

  // The loop of decodeProviderPath: the first bad segment fails the whole path.
  function UnescapeAll(segments: seq<string>): Result<seq<string>, string> {
    if segments == [] then Ok([])
    else
      var first := PathUnescape(segments[0]);
      if first.Err? then Err(first.error)
      else
        var rest := UnescapeAll(segments[1..]);
        if rest.Err? then rest else Ok([first.value] + rest.value)
  }

  // escapeProviderPath.
  function EscapeProviderPath(value: string): string {
    "/" + Join(EscapeAll(Split(TrimPrefix(Normalize(value), "/"), '/')), '/')
  }

  // decodeProviderPath.
  function DecodeProviderPath(value: string): Result<string, string> {
    var decoded := UnescapeAll(Split(value, '/'));
    if decoded.Err? then Err(decoded.error) else Ok("/" + Join(decoded.value, '/'))
  }

  // ---- Decoding undoes encoding ----

  lemma {:induction false} UnescapeEscaped(bytes: string)
    requires forall i :: 0 <= i < |bytes| ==> bytes[i] < 256 as char
    ensures PathUnescape(EscapeBytes(bytes)) == Ok(bytes)
  {
    if bytes != "" {
      var b, rest := bytes[0], EscapeBytes(bytes[1..]);
      UnescapeEscaped(bytes[1..]);
      var text := EscapeByte(b) + rest;
      assert [b] + bytes[1..] == bytes;
      if Kept(b) {
        assert text[1..] == rest;
      } else {
        HexDigitsAreRead(b as int / 16);
        HexDigitsAreRead(b as int % 16);
        assert b as int / 16 * 16 + b as int % 16 == b as int;
        hide HexValue, HexDigit;
        assert text[3..] == rest;
      }
    }
  }

  // An escaped segment holds no slash, so splitting undoes joining.
  lemma {:induction false} EscapedHasNoSlash(bytes: string)
    requires forall i :: 0 <= i < |bytes| ==> bytes[i] < 256 as char
    ensures '/' !in EscapeBytes(bytes)
  {
    if bytes != "" {
      EscapedHasNoSlash(bytes[1..]);
    }
  }

  predicate Unreserved(b: char) {
    'a' <= b <= 'z' || 'A' <= b <= 'Z' || '0' <= b <= '9' || b in {'-', '.', '_', '~'}
  }

  predicate HexUpper(d: char) {
    '0' <= d <= '9' || 'A' <= d <= 'F'
  }

  // A segment in the grammar of RFC 3986 (section 3.3), its escapes in upper case.
  predicate IsSegment(text: string) {
    text == ""
    || (if text[0] == '%' then |text| >= 3 && HexUpper(text[1]) && HexUpper(text[2]) && IsSegment(text[3..])
        else (Unreserved(text[0]) || text[0] in "!$&'()*+,;=:@") && IsSegment(text[1..]))
  }

  // An escaped segment is a segment of the grammar.
  lemma {:induction false} EscapedIsSegment(bytes: string)
    requires forall i :: 0 <= i < |bytes| ==> bytes[i] < 256 as char
    ensures IsSegment(EscapeBytes(bytes))
  {
    if bytes != "" {
      EscapedIsSegment(bytes[1..]);
      var text := EscapeBytes(bytes);
      if Kept(bytes[0]) {
        assert text[1..] == EscapeBytes(bytes[1..]);
      } else {
        assert text[3..] == EscapeBytes(bytes[1..]);
      }
    }
  }

  // Unreserved characters stand for themselves (section 2.3), and nothing else is longer
  // than three characters for a byte.
  lemma {:induction false} UnreservedStands(bytes: string)
    requires forall i :: 0 <= i < |bytes| ==> bytes[i] < 256 as char
    ensures (forall i :: 0 <= i < |bytes| ==> Unreserved(bytes[i])) ==> EscapeBytes(bytes) == bytes
    ensures |bytes| <= |EscapeBytes(bytes)| <= 3 * |bytes|
  {
    if bytes != "" {
      UnreservedStands(bytes[1..]);
      assert bytes == [bytes[0]] + bytes[1..];
    }
  }

  // Hexadecimal digits are read in either case.
  lemma HexDigitsAreRead(n: nat)
    requires n < 16
    ensures HexValue("0123456789ABCDEF"[n]) == Some(n) && HexValue("0123456789abcdef"[n]) == Some(n)
    ensures HexDigit(n) == "0123456789ABCDEF"[n]
  {
  }

  predicate Continues(b: char) {
    0x80 <= b as int <= 0xBF
  }

  // The bytes of a character are well-formed UTF-8 (section 4 of RFC 3629): the first tells
  // how many follow, and no shorter form would do.
  lemma Utf8IsWellFormed(c: char)
    ensures var n, b := c as int, Utf8Char(c);
            && (n < 0x80 <==> |b| == 1) && (0x80 <= n < 0x800 <==> |b| == 2)
            && (0x800 <= n < 0x1_0000 <==> |b| == 3) && (0x1_0000 <= n <==> |b| == 4)
            && (|b| == 1 ==> b[0] == c)
            && (|b| == 2 ==> 0xC2 <= b[0] as int <= 0xDF) && (|b| == 3 ==> 0xE0 <= b[0] as int <= 0xEF)
            && (|b| == 4 ==> 0xF0 <= b[0] as int <= 0xF4)
            && forall i :: 1 <= i < |b| ==> Continues(b[i])
  {
  }

  predicate IsHex(d: char) {
    '0' <= d <= '9' || 'A' <= d <= 'F' || 'a' <= d <= 'f'
  }

  // A text is unescaped if and only if two hexadecimal digits, in either case, follow each
  // percent sign.
  lemma {:induction false} UnescapeOkIff(text: string)
    ensures PathUnescape(text).Ok? <==>
              forall i :: 0 <= i < |text| && text[i] == '%' ==> i + 2 < |text| && IsHex(text[i + 1]) && IsHex(text[i + 2])
    decreases |text|
  {
    if text != "" && text[0] != '%' {
      UnescapeOkIff(text[1..]);
      assert forall i :: 1 <= i < |text| ==> text[i] == text[1..][i - 1];
      assert forall i :: 0 <= i < |text[1..]| ==> text[1..][i] == text[i + 1];
    } else if |text| >= 3 && IsHex(text[1]) && IsHex(text[2]) {
      UnescapeOkIff(text[3..]);
      assert forall i :: 3 <= i < |text| ==> text[i] == text[3..][i - 3];
      assert forall i :: 0 <= i < |text[3..]| ==> text[3..][i] == text[i + 3];
    }
  }

  lemma {:induction false} UnescapeEscapedAll(segments: seq<string>)
    ensures AllFree(EscapeAll(segments), '/')
    ensures UnescapeAll(EscapeAll(segments)) == Ok(Utf8All(segments))
  {
    if segments != [] {
      UnescapeEscaped(Utf8(segments[0]));
      EscapedHasNoSlash(Utf8(segments[0]));
      UnescapeEscapedAll(segments[1..]);
      assert EscapeAll(segments)[1..] == EscapeAll(segments[1..]);
    }
  }

  function Utf8All(segments: seq<string>): (all: seq<string>)
    ensures |all| == |segments|
  {
    if segments == [] then [] else [Utf8(segments[0])] + Utf8All(segments[1..])
  }

  lemma {:induction false} Utf8Concat(a: string, b: string)
    ensures Utf8(a + b) == Utf8(a) + Utf8(b)
  {
    if a == "" {
      assert a + b == b;
    } else {
      assert (a + b)[1..] == a[1..] + b;
      Utf8Concat(a[1..], b);
    }
  }

  lemma {:induction false} Utf8Join(segments: seq<string>)
    ensures Join(Utf8All(segments), '/') == Utf8(Join(segments, '/'))
  {
    if |segments| == 1 {
      assert segments[1..] == [];
    } else if |segments| > 1 {
      Utf8Join(segments[1..]);
      assert Utf8All(segments)[1..] == Utf8All(segments[1..]);
      Utf8Concat(segments[0] + "/", Join(segments[1..], '/'));
      Utf8Concat(segments[0], "/");
      assert Utf8("/") == "/" by { assert "/"[1..] == ""; }
    }
  }

  // Decoding an encoded path, less its leading slash, gives the bytes of the normalised path.
  lemma DecodeUndoesEscape(value: string)
    ensures DecodeProviderPath(EscapeProviderPath(value)[1..]) == Ok(Utf8(Normalize(value)))
  {
    hide Normalize, PathUnescape, PathEscape;
    var p := Normalize(value);
    assert p == "/" + p[1..] && TrimPrefix(p, "/") == p[1..];
    var segments := Split(p[1..], '/');
    UnescapeEscapedAll(segments);
    SplitJoin(EscapeAll(segments), '/');
    Utf8Join(segments);
    JoinSplit(p[1..], '/');
    Utf8Concat("/", p[1..]);
    assert Utf8("/") == "/" by { assert "/"[1..] == ""; }
    assert EscapeProviderPath(value)[1..] == Join(EscapeAll(segments), '/');
  }

  // ---- Different paths get different URLs ----

  lemma Utf8CharInjective(c: char, d: char, x: string, y: string)
    requires Utf8Char(c) + x == Utf8Char(d) + y
    ensures c == d && x == y
  {
    var u, v := Utf8Char(c), Utf8Char(d);
    assert (u + x)[0] == u[0] && (v + y)[0] == v[0];
    assert |u| == |v|;
    assert u == (u + x)[..|u|] == (v + y)[..|v|] == v;
    assert x == (u + x)[|u|..] == (v + y)[|v|..] == y;
    SameBytesSameChar(c, d);
  }

  // The code point a sequence of UTF-8 bytes stands for.
  function Utf8Value(bytes: string): int {
    if |bytes| == 1 then bytes[0] as int
    else if |bytes| == 2 then (bytes[0] as int - 0xC0) * 64 + (bytes[1] as int - 0x80)
    else if |bytes| == 3 then
      (bytes[0] as int - 0xE0) * 4096 + (bytes[1] as int - 0x80) * 64 + (bytes[2] as int - 0x80)
    else if |bytes| == 4 then
      (bytes[0] as int - 0xF0) * 262144 + (bytes[1] as int - 0x80) * 4096
      + (bytes[2] as int - 0x80) * 64 + (bytes[3] as int - 0x80)
    else -1
  }

  lemma SixBitGroups(n: nat)
    ensures n / 64 / 64 == n / 4096 && n / 4096 / 64 == n / 262144
    ensures n == n / 64 * 64 + n % 64
    ensures n / 64 == n / 4096 * 64 + n / 64 % 64
    ensures n / 4096 == n / 262144 * 64 + n / 4096 % 64
  {
  }

  lemma Utf8CharValue(c: char)
    ensures Utf8Value(Utf8Char(c)) == c as int
  {
    SixBitGroups(c as int);
  }

  lemma SameBytesSameChar(c: char, d: char)
    requires Utf8Char(c) == Utf8Char(d)
    ensures c == d
  {
    hide Utf8Char;
    Utf8CharValue(c);
    Utf8CharValue(d);
    assert c as int == d as int;
  }

  lemma {:induction false} Utf8Injective(s: string, t: string)
    requires Utf8(s) == Utf8(t)
    ensures s == t
  {
    if s != "" && t != "" {
      Utf8CharInjective(s[0], t[0], Utf8(s[1..]), Utf8(t[1..]));
      Utf8Injective(s[1..], t[1..]);
      assert s == [s[0]] + s[1..] && t == [t[0]] + t[1..];
    }
  }

  // Two paths share a stream URL if and only if they normalise to the same path.
  lemma StreamPathsDistinct(p: string, q: string)
    ensures EscapeProviderPath(p) == EscapeProviderPath(q) <==> Normalize(p) == Normalize(q)
  {
    DecodeUndoesEscape(p);
    DecodeUndoesEscape(q);
    hide DecodeProviderPath, Normalize;
    if EscapeProviderPath(p) == EscapeProviderPath(q) {
      Utf8Injective(Normalize(p), Normalize(q));
    }
  }
}
