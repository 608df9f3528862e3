/** Text as the Rust standard library takes it apart: trimming, splitting and decimal
    numbers. */
module Text {
  import opened Wrappers

  /** The characters with the Unicode property White_Space. */
  predicate IsWhitespace(c: char) {
    || '\t' <= c <= '\r' || c == ' ' || c == '\U{85}' || c == '\U{A0}' || c == '\U{1680}'
    || '\U{2000}' <= c <= '\U{200A}' || c == '\U{2028}' || c == '\U{2029}' || c == '\U{202F}'
    || c == '\U{205F}' || c == '\U{3000}'
  }

  function TrimStart(s: string): (r: string)
    ensures r == "" || !IsWhitespace(r[0])
  {
    if s != "" && IsWhitespace(s[0]) then TrimStart(s[1..]) else s
  }

  function TrimEnd(s: string): (r: string)
    ensures |r| <= |s| && r == s[..|r|]
    ensures r == "" || !IsWhitespace(r[|r| - 1])
  {
    if s != "" && IsWhitespace(s[|s| - 1]) then TrimEnd(s[..|s| - 1]) else s
  }

  function Trim(s: string): string {
    TrimEnd(TrimStart(s))
  }

  /** `text.chars().filter(|c| !c.is_whitespace()).collect()` */
  function WithoutWhitespace(s: string): string {
    if s == "" then "" else (if IsWhitespace(s[0]) then "" else [s[0]]) + WithoutWhitespace(s[1..])
  }

  /** Text before and after the first line feed; all of it and nothing without one. */
  function SplitLine(s: string): (r: (string, string))
    ensures '\n' !in r.0
    ensures s == r.0 + "\n" + r.1 || (s == r.0 && r.1 == "")
  {
    if s == "" then ("", "")
    else if s[0] == '\n' then ("", s[1..])
    else
      var (line, rest) := SplitLine(s[1..]);
      ([s[0]] + line, rest)
  }

  lemma {:induction false} SplitLineAt(line: string, rest: string)
    requires '\n' !in line
    ensures SplitLine(line + ("\n" + rest)) == (line, rest)
  {
    var s := line + ("\n" + rest);
    if line == "" {
      assert s[1..] == rest;
    } else {
      assert line[0] in line && forall c :: c in line[1..] ==> c in line;
      SplitLineAt(line[1..], rest);
      assert s[0] == line[0] && s[1..] == line[1..] + ("\n" + rest);
      assert [line[0]] + line[1..] == line;
    }
  }

  // ----- Decimal numbers -----

  predicate IsDigit(c: char) {
    '0' <= c <= '9'
  }

  function Digit(n: nat): (c: char)
    requires n < 10
    ensures IsDigit(c) && c as int - '0' as int == n
  {
    ('0' as int + n) as char
  }

  /** The decimal digits of `n`, without leading zeros. */
  function Decimal(n: nat): (s: string)
    ensures s != "" && forall i :: 0 <= i < |s| ==> IsDigit(s[i])
  {
    if n < 10 then [Digit(n)] else Decimal(n / 10) + [Digit(n % 10)]
  }

  function Signed(n: int): string {
    if n < 0 then "-" + Decimal(-n) else Decimal(n)
  }

  predicate AreDigits(s: string) {
    s != "" && forall i :: 0 <= i < |s| ==> IsDigit(s[i])
  }

  function Number(s: string): nat
    requires forall i :: 0 <= i < |s| ==> IsDigit(s[i])
  {
    if s == "" then 0
    else
      assert IsDigit(s[|s| - 1]);
      Number(s[..|s| - 1]) * 10 + (s[|s| - 1] as int - '0' as int)
  }

  const MAX_I32 := 0x7fff_ffff
  const MIN_I32 := -0x8000_0000

  /** `str::parse::<i32>`: an optional sign and digits, in range. */
  function ParseI32(s: string): Option<int> {
    var negative := s != "" && s[0] == '-';
    var digits := if s != "" && (s[0] == '-' || s[0] == '+') then s[1..] else s;
    if !AreDigits(digits) then None
    else
      var value: int := Number(digits);
      var n := if negative then -value else value;
      if MIN_I32 <= n <= MAX_I32 then Some(n) else None
  }

  lemma {:induction false} NumberOfDecimal(n: nat)
    ensures Number(Decimal(n)) == n
  {
    var s := Decimal(n);
    if n < 10 {
      assert s[..0] == "";
    } else {
      NumberOfDecimal(n / 10);
      assert s[..|s| - 1] == Decimal(n / 10);
    }
  }

  /** Every 32-bit number reads back as itself. */
  lemma SignedReadBack(n: int)
    requires -0x8000_0000 <= n <= 0x7fff_ffff
    ensures ParseI32(Signed(n)) == Some(n)
  {
    if n < 0 {
      NumberOfDecimal(-n);
      assert Signed(n)[1..] == Decimal(-n);
    } else {
      NumberOfDecimal(n);
      assert IsDigit(Decimal(n)[0]);
    }
  }

  // ----- Trimming text that has nothing to trim inside -----

  predicate HasNoWhitespace(s: string) {
    forall i :: 0 <= i < |s| ==> !IsWhitespace(s[i])
  }

  lemma SignedHasNoWhitespace(n: int)
    ensures HasNoWhitespace(Signed(n)) && Signed(n) != ""
  {
  }

  /** A line ending is trimmed away and nothing else. */
  lemma TrimLine(s: string, end: string)
    requires s != "" && HasNoWhitespace(s)
    requires end == "" || end == "\r"
    ensures Trim(s + end) == s
  {
    assert TrimStart(s + end) == s + end;
    assert TrimEnd(s) == s;
    if end == "\r" {
      assert (s + end)[|s|] == '\r' && (s + end)[..|s|] == s;
    } else {
      assert s + end == s;
    }
  }

  // ----- Trimming any text -----

  /** The code points with the property White_Space. */
  predicate IsWhite(code: int) {
    || 9 <= code <= 13 || code == 32 || code == 133 || code == 160 || code == 5760 || 8192 <= code <= 8202
    || code == 8232 || code == 8233 || code == 8239 || code == 8287 || code == 12288
  }

  predicate AreWhite(s: string) {
    forall i :: 0 <= i < |s| ==> IsWhite(s[i] as int)
  }

  lemma {:induction false} StartIsWhite(s: string) returns (front: string)
    ensures s == front + TrimStart(s) && AreWhite(front)
  {
    front := "";
    if s != "" && IsWhitespace(s[0]) {
      front := StartIsWhite(s[1..]);
      front := [s[0]] + front;
    }
  }

  lemma {:induction false} EndIsWhite(s: string)
    ensures AreWhite(s[|TrimEnd(s)|..])
  {
    if s != "" && IsWhitespace(s[|s| - 1]) {
      var body := s[..|s| - 1];
      EndIsWhite(body);
      assert s[|TrimEnd(s)|..] == body[|TrimEnd(s)|..] + [s[|s| - 1]];
    }
  }

  lemma TrimmedEnds(s: string)
    requires Trim(s) != ""
    ensures !IsWhite(Trim(s)[0] as int) && !IsWhite(Trim(s)[|Trim(s)| - 1] as int)
  {
    assert Trim(s)[0] == TrimStart(s)[0];
  }

  /** Trimming takes the white space off both ends, all of it and nothing else. */
  lemma {:induction false} TrimExactly(s: string) returns (front: string, back: string)
    ensures s == front + Trim(s) + back && AreWhite(front) && AreWhite(back)
    ensures Trim(s) != "" ==> !IsWhite(Trim(s)[0] as int) && !IsWhite(Trim(s)[|Trim(s)| - 1] as int)
  {
    front := StartIsWhite(s);
    var rest := TrimStart(s);
    EndIsWhite(rest);
    back := rest[|Trim(s)|..];
    assert rest == Trim(s) + back;
    if Trim(s) != "" {
      TrimmedEnds(s);
    }
  }

  /** Dropping white space drops it wherever it is, and nothing else. */
  lemma {:induction false} WithoutWhitespaceExactly(a: string, c: char, b: string)
    ensures WithoutWhitespace(a + [c] + b) == WithoutWhitespace(a) + (if IsWhite(c as int) then "" else [c]) + WithoutWhitespace(b)
  {
    var s := a + [c] + b;
    if a == "" {
      assert s[1..] == b;
    } else {
      assert s[1..] == a[1..] + [c] + b;
      WithoutWhitespaceExactly(a[1..], c, b);
    }
  }
}
