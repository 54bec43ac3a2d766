/** What Python does to text: white space, decimal integers, lines and the length of an encoding. */
module PythonText {
  import opened Outcomes

  /** str.isspace, for one character. */
  predicate IsSpace(c: char) {
    var n := c as int;
    || 9 <= n <= 13 || 0x1C <= n <= 0x20 || n == 0x85 || n == 0xA0 || n == 0x1680
    || 0x2000 <= n <= 0x200A || n == 0x2028 || n == 0x2029 || n == 0x202F || n == 0x205F || n == 0x3000
  }

  predicate Blank(s: string) {
    forall k :: 0 <= k < |s| ==> IsSpace(s[k])
  }

  predicate Spaceless(s: string) {
    forall k :: 0 <= k < |s| ==> !IsSpace(s[k])
  }

  /** The white space a text starts with. */
  function SpaceRun(s: string): (n: nat)
    ensures n <= |s| && (forall k :: 0 <= k < n ==> IsSpace(s[k])) && (n < |s| ==> !IsSpace(s[n]))
  {
    if s == "" || !IsSpace(s[0]) then 0 else 1 + SpaceRun(s[1..])
  }

  function TrimEnd(s: string): (r: string)
    ensures |r| <= |s| && r == s[..|r|] && Blank(s[|r|..]) && (r != "" ==> !IsSpace(r[|r| - 1]))
  {
    if s == "" || !IsSpace(s[|s| - 1]) then s else TrimEnd(s[..|s| - 1])
  }

  function Strip(s: string): string {
    TrimEnd(s[SpaceRun(s)..])
  }

  lemma StripKeeps(s: string)
    requires s != "" && !IsSpace(s[0]) && !IsSpace(s[|s| - 1])
    ensures Strip(s) == s
  {
    assert s[0..] == s;
  }

  // ----- lines -----

  predicate IsBreak(c: char) {
    var n := c as int;
    10 <= n <= 13 || 0x1C <= n <= 0x1E || n == 0x85 || n == 0x2028 || n == 0x2029
  }

  predicate OneLine(s: string) {
    forall k :: 0 <= k < |s| ==> !IsBreak(s[k])
  }

  function LineRun(s: string): (n: nat)
    ensures n <= |s| && OneLine(s[..n]) && (n < |s| ==> IsBreak(s[n]))
  {
    if s == "" || IsBreak(s[0]) then 0 else 1 + LineRun(s[1..])
  }

  /** str.splitlines: a final line break ends the last line instead of starting an empty one. */
  function SplitLines(s: string): seq<string>
    decreases |s|
  {
    if s == "" then []
    else
      var n := LineRun(s);
      if n == |s| then [s]
      else
        var width := if s[n] == '\r' && n + 1 < |s| && s[n + 1] == '\n' then 2 else 1;
        [s[..n]] + SplitLines(s[n + width..])
  }

  /** "\n".join */
  function JoinLines(lines: seq<string>): string {
    if lines == [] then "" else if |lines| == 1 then lines[0] else lines[0] + "\n" + JoinLines(lines[1..])
  }

  lemma {:induction false} LineRunOf(line: string, rest: string)
    requires OneLine(line) && (rest == "" || IsBreak(rest[0]))
    ensures LineRun(line + rest) == |line|
  {
    if line == "" {
      assert line + rest == rest;
    } else {
      assert (line + rest)[1..] == line[1..] + rest;
      LineRunOf(line[1..], rest);
    }
  }

  lemma {:induction false} LinesRoundTrip(lines: seq<string>)
    requires forall k :: 0 <= k < |lines| ==> OneLine(lines[k]) && lines[k] != ""
    ensures SplitLines(JoinLines(lines)) == lines
  {
    hide LineRun;
    if |lines| == 1 {
      LineRunOf(lines[0], "");
      assert lines[0] + "" == lines[0];
    } else if |lines| > 1 {
      var rest := "\n" + JoinLines(lines[1..]);
      var s := JoinLines(lines);
      assert s == lines[0] + rest;
      LineRunOf(lines[0], rest);
      assert s[..|lines[0]|] == lines[0] && s[|lines[0]| + 1..] == JoinLines(lines[1..]);
      LinesRoundTrip(lines[1..]);
    }
  }

  // ----- UTF-8 -----

  /** The bytes of one character. */
  function Utf8(c: char): (bytes: seq<nat>)
    ensures bytes != []
  {
    var n := c as int;
    if n < 0x80 then [n]
    else if n < 0x800 then [0xC0 + n / 0x40, 0x80 + n % 0x40]
    else if n < 0x1_0000 then [0xE0 + n / 0x1000, 0x80 + n / 0x40 % 0x40, 0x80 + n % 0x40]
    else [0xF0 + n / 0x4_0000, 0x80 + n / 0x1000 % 0x40, 0x80 + n / 0x40 % 0x40, 0x80 + n % 0x40]
  }

  function Encoded(s: string): seq<nat> {
    if s == "" then [] else Utf8(s[0]) + Encoded(s[1..])
  }

  /** len(s.encode()) */
  function EncodedLength(s: string): nat {
    |Encoded(s)|
  }

  predicate Continues(bytes: seq<nat>, count: nat) {
    |bytes| > count && forall k :: 1 <= k <= count ==> 0x80 <= bytes[k] < 0xC0
  }

  /** The first character of a byte sequence by section 3 of RFC 3629, with the bytes it takes; longer forms than needed are refused. */
  function FirstPoint(bytes: seq<nat>): Option<(nat, nat)> {
    if bytes == [] then None
    else if bytes[0] < 0x80 then Some((bytes[0], 1))
    else if 0xC0 <= bytes[0] < 0xE0 && Continues(bytes, 1) then
      AtLeast(0x80, (bytes[0] - 0xC0) * 0x40 + (bytes[1] - 0x80), 2)
    else if 0xE0 <= bytes[0] < 0xF0 && Continues(bytes, 2) then
      AtLeast(0x800, (bytes[0] - 0xE0) * 0x1000 + (bytes[1] - 0x80) * 0x40 + (bytes[2] - 0x80), 3)
    else if 0xF0 <= bytes[0] < 0xF8 && Continues(bytes, 3) then
      AtLeast(0x1_0000, (bytes[0] - 0xF0) * 0x4_0000 + (bytes[1] - 0x80) * 0x1000 + (bytes[2] - 0x80) * 0x40 + (bytes[3] - 0x80), 4)
    else None
  }

  function AtLeast(low: nat, point: nat, size: nat): Option<(nat, nat)> {
    if point < low then None else Some((point, size))
  }

  lemma TwoBytes(q: nat, r: nat, rest: seq<nat>)
    requires q < 0x20 && r < 0x40 && q * 0x40 + r >= 0x80
    ensures FirstPoint([0xC0 + q, 0x80 + r] + rest) == Some((q * 0x40 + r, 2))
  {
  }

  lemma ThreeBytes(p: nat, q: nat, r: nat, rest: seq<nat>)
    requires p < 0x10 && q < 0x40 && r < 0x40 && p * 0x1000 + q * 0x40 + r >= 0x800
    ensures FirstPoint([0xE0 + p, 0x80 + q, 0x80 + r] + rest) == Some((p * 0x1000 + q * 0x40 + r, 3))
  {
  }

  lemma FourBytes(o: nat, p: nat, q: nat, r: nat, rest: seq<nat>)
    requires o < 8 && p < 0x40 && q < 0x40 && r < 0x40 && o * 0x4_0000 + p * 0x1000 + q * 0x40 + r >= 0x1_0000
    ensures FirstPoint([0xF0 + o, 0x80 + p, 0x80 + q, 0x80 + r] + rest) == Some((o * 0x4_0000 + p * 0x1000 + q * 0x40 + r, 4))
  {
  }

  /** The groups of six bits of a number. */
  lemma SixBits(n: nat)
    ensures n == n / 0x40 * 0x40 + n % 0x40
    ensures n == n / 0x1000 * 0x1000 + n / 0x40 % 0x40 * 0x40 + n % 0x40
    ensures n == n / 0x4_0000 * 0x4_0000 + n / 0x1000 % 0x40 * 0x1000 + n / 0x40 % 0x40 * 0x40 + n % 0x40
  {
    var a := n / 0x40;
    var b := a / 0x40;
    assert b == n / 0x1000 && b / 0x40 == n / 0x4_0000;
  }

  lemma Utf8Denotes(c: char, rest: seq<nat>)
    ensures FirstPoint(Utf8(c) + rest) == Some((c as nat, |Utf8(c)|))
  {
    var n := c as nat;
    SixBits(n);
    if n < 0x80 {
      assert (Utf8(c) + rest)[0] == n;
    } else if n < 0x800 {
      hide FirstPoint;
      TwoBytes(n / 0x40, n % 0x40, rest);
    } else if n < 0x1_0000 {
      hide FirstPoint;
      ThreeBytes(n / 0x1000, n / 0x40 % 0x40, n % 0x40, rest);
    } else {
      hide FirstPoint;
      FourBytes(n / 0x4_0000, n / 0x1000 % 0x40, n / 0x40 % 0x40, n % 0x40, rest);
    }
  }

  /** The bytes the length counts are read back, character by character, as the text. */
  lemma {:induction false} EncodedReadsBack(s: string, k: nat) returns (at: nat)
    requires k < |s|
    ensures at < EncodedLength(s) && FirstPoint(Encoded(s)[at..]) == Some((s[k] as nat, |Utf8(s[k])|))
    ensures at == EncodedLength(s[..k]) && at + |Utf8(s[k])| == EncodedLength(s[..k + 1])
    decreases |s|
  {
    hide Utf8, FirstPoint;
    var first, rest := Utf8(s[0]), Encoded(s[1..]);
    if k == 0 {
      at := 0;
      Utf8Denotes(s[0], rest);
      assert Encoded(s)[0..] == first + rest;
      assert s[..1][1..] == "" && s[..0] == "";
      assert Encoded(s[..1]) == first + Encoded("");
    } else {
      at := EncodedReadsBack(s[1..], k - 1);
      assert s[..k][1..] == s[1..][..k - 1] && s[..k + 1][1..] == s[1..][..k];
      at := at + |first|;
      assert Encoded(s)[at..] == rest[at - |first|..];
    }
  }

  // ----- decimal integers -----

  predicate IsDigit(c: char) {
    '0' <= c <= '9'
  }

  predicate AllDigits(s: string) {
    forall k :: 0 <= k < |s| ==> IsDigit(s[k])
  }

  function DigitChar(d: nat): (c: char)
    requires d < 10
    ensures IsDigit(c) && c as int - '0' as int == d
  {
    ('0' as int + d) as char
  }

  function Digits(n: nat): (s: string)
    ensures s != "" && AllDigits(s)
  {
    if n < 10 then [DigitChar(n)] else Digits(n / 10) + [DigitChar(n % 10)]
  }

  function Decimal(n: int): string {
    if n < 0 then "-" + Digits(-n) else Digits(n)
  }

  function ReadDigits(s: string): nat
    requires AllDigits(s)
  {
    if s == "" then 0 else ReadDigits(s[..|s| - 1]) * 10 + (s[|s| - 1] as int - '0' as int)
  }

  lemma {:induction false} DigitsRoundTrip(n: nat)
    ensures ReadDigits(Digits(n)) == n
    decreases n
  {
    if n >= 10 {
      DigitsRoundTrip(n / 10);
      assert Digits(n)[..|Digits(n)| - 1] == Digits(n / 10);
    } else {
      assert Digits(n)[..0] == "";
    }
  }

  /** The digits a text starts with. */
  function DigitRun(s: string): (n: nat)
    ensures n <= |s| && AllDigits(s[..n]) && (n < |s| ==> !IsDigit(s[n]))
  {
    if s == "" || !IsDigit(s[0]) then 0 else 1 + DigitRun(s[1..])
  }

  lemma {:induction false} DigitRunOf(digits: string, rest: string)
    requires AllDigits(digits) && (rest == "" || !IsDigit(rest[0]))
    ensures DigitRun(digits + rest) == |digits|
  {
    if digits == "" {
      assert digits + rest == rest;
    } else {
      assert (digits + rest)[1..] == digits[1..] + rest;
      DigitRunOf(digits[1..], rest);
    }
  }

  /** A number followed by something that is no digit can be read back from the text. */
  lemma DelimitedNumber(n: nat, rest: string)
    requires rest == "" || !IsDigit(rest[0])
    ensures var s := Digits(n) + rest;
            s[..DigitRun(s)] == Digits(n) && ReadDigits(s[..DigitRun(s)]) == n && s[DigitRun(s)..] == rest
  {
    hide Digits, ReadDigits, DigitRun;
    DigitRunOf(Digits(n), rest);
    DigitsRoundTrip(n);
    var s := Digits(n) + rest;
    assert s[..|Digits(n)|] == Digits(n);
  }
}
