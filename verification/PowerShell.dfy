/** The single-quoted strings vitro writes for PowerShell, read back by PowerShell's own
    rule: any of five quotation marks opens and closes such a string, and two in a row
    inside it stand for the second one. */
module PowerShell {
  import opened Wrappers
  import opened Ssh
  import Jobs

  // ----- The reader -----

  predicate IsTypographicQuote(c: char) {
    '\U{2018}' <= c <= '\U{201B}'
  }

  predicate IsSingleQuote(c: char) {
    c == '\'' || IsTypographicQuote(c)
  }

  /** The string whose opening mark has just been passed, and what follows it. */
  function ReadLiteral(s: string): (r: Option<(string, string)>)
    ensures r.Some? ==> |r.value.1| < |s| && s[|s| - |r.value.1|..] == r.value.1
  {
    if s == [] then None
    else if !IsSingleQuote(s[0]) then
      var (text, rest) :- ReadLiteral(s[1..]);
      Some(([s[0]] + text, rest))
    else if |s| > 1 && IsSingleQuote(s[1]) then
      var (text, rest) :- ReadLiteral(s[2..]);
      Some(([s[1]] + text, rest))
    else Some(([], s[1..]))
  }

  // ----- One literal -----

  predicate HasNoTypographicQuote(text: string) {
    forall i :: 0 <= i < |text| ==> !IsTypographicQuote(text[i])
  }

  function Doubled(text: string): string {
    Replace(text, '\'', "''")
  }

  function Closed(text: string, rest: string): string {
    Doubled(text) + ("'" + rest)
  }

  lemma ClosedHead(text: string, rest: string)
    requires text != []
    ensures text[0] == '\'' ==> Closed(text, rest) == "''" + Closed(text[1..], rest)
    ensures text[0] != '\'' ==> Closed(text, rest) == [text[0]] + Closed(text[1..], rest)
  {
  }

  lemma ReadHead(text: string, rest: string)
    requires text != [] && !IsTypographicQuote(text[0])
    requires ReadLiteral(Closed(text[1..], rest)) == Some((text[1..], rest))
    ensures ReadLiteral(Closed(text, rest)) == Some((text, rest))
  {
    var after := Closed(text[1..], rest);
    ClosedHead(text, rest);
    assert text == [text[0]] + text[1..];
    if text[0] == '\'' {
      assert ("''" + after)[2..] == after;
    } else {
      assert ([text[0]] + after)[1..] == after;
    }
  }

  lemma {:induction false} ReadDoubled(text: string, rest: string)
    requires HasNoTypographicQuote(text) && (rest == [] || !IsSingleQuote(rest[0]))
    ensures ReadLiteral(Closed(text, rest)) == Some((text, rest))
  {
    if text == [] {
      assert Closed(text, rest) == "'" + rest && ("'" + rest)[1..] == rest;
    } else {
      ReadDoubled(text[1..], rest);
      ReadHead(text, rest);
    }
  }

  /** Quotation marks in `s`, of either kind. */
  function Marks(s: string): nat {
    if s == [] then 0 else (if IsSingleQuote(s[0]) then 1 else 0) + Marks(s[1..])
  }

  function TypographicMarks(s: string): nat {
    if s == [] then 0 else (if IsTypographicQuote(s[0]) then 1 else 0) + TypographicMarks(s[1..])
  }

  lemma {:induction false} MarksAppend(a: string, b: string)
    ensures Marks(a + b) == Marks(a) + Marks(b)
  {
    if a == [] {
      assert a + b == b;
    } else {
      assert (a + b)[1..] == a[1..] + b;
      MarksAppend(a[1..], b);
    }
  }

  lemma MarksBound(s: string)
    ensures Marks(s) <= |s|
  {
  }

  lemma MarksDoubled(text: string)
    ensures Marks(Doubled(text)) == 2 * Marks(text) - TypographicMarks(text)
    ensures |Doubled(text)| == |text| + Marks(text) - TypographicMarks(text)
  {
    if text != [] {
      var first := if text[0] == '\'' then "''" else [text[0]];
      MarksAppend(first, Doubled(text[1..]));
      MarksDoubled(text[1..]);
      assert "''"[1..] == "'";
      assert Marks("'") == 1 && Marks("''") == 2;
    }
  }

  lemma NoTypographicMarks(text: string)
    ensures TypographicMarks(text) == 0 <==> HasNoTypographicQuote(text)
  {
    if text != [] {
      NoTypographicMarks(text[1..]);
      assert forall i :: 0 <= i < |text| - 1 ==> text[1..][i] == text[i + 1];
      if HasNoTypographicQuote(text[1..]) && !IsTypographicQuote(text[0]) {
        forall i | 0 <= i < |text| ensures !IsTypographicQuote(text[i]) {
          if i > 0 { assert text[1..][i - 1] == text[i]; }
        }
      }
    }
  }

  /** `read` spells `text` with every mark twice, and one to close. */
  predicate Spells(read: string, text: string) {
    Marks(read) == 2 * Marks(text) + 1 && |read| - Marks(read) == |text| - Marks(text)
  }

  lemma SpellsPlain(c: char, read: string, text: string)
    requires !IsSingleQuote(c) && Spells(read, text)
    ensures Spells([c] + read, [c] + text)
  {
    MarksAppend([c], read);
    MarksAppend([c], text);
    assert Marks([c]) == 0;
  }

  lemma SpellsMark(c: char, d: char, read: string, text: string)
    requires IsSingleQuote(c) && IsSingleQuote(d) && Spells(read, text)
    ensures Spells([c, d] + read, [d] + text)
  {
    MarksAppend([c, d], read);
    MarksAppend([d], text);
    assert [c, d][1..] == [d];
    assert Marks([d]) == 1 && Marks([c, d]) == 2;
  }

  /** What reading consumes: two marks for each in the text, one to close, and every other
      character once. */
  lemma {:induction false} ReadCounts(s: string)
    ensures var r := ReadLiteral(s);
            r.Some? ==> Spells(s[..|s| - |r.value.1|], r.value.0)
  {
    var r := ReadLiteral(s);
    if r.Some? {
      var end := |s| - |r.value.1|;
      if !IsSingleQuote(s[0]) {
        ReadCounts(s[1..]);
        CountPlain(s, end, ReadLiteral(s[1..]).value.0);
      } else if |s| > 1 && IsSingleQuote(s[1]) {
        ReadCounts(s[2..]);
        CountMark(s, end, ReadLiteral(s[2..]).value.0);
      } else {
        SpellsEnd(s[0]);
        assert s[..end] == [s[0]];
      }
    }
  }

  lemma CountPlain(s: string, end: nat, text: string)
    requires 1 <= end <= |s| && !IsSingleQuote(s[0]) && Spells(s[1..][..end - 1], text)
    ensures Spells(s[..end], [s[0]] + text)
  {
    PrefixSplit(s, 1, end);
    SpellsPlain(s[0], s[1..][..end - 1], text);
  }

  lemma CountMark(s: string, end: nat, text: string)
    requires 2 <= end <= |s| && IsSingleQuote(s[0]) && IsSingleQuote(s[1]) && Spells(s[2..][..end - 2], text)
    ensures Spells(s[..end], [s[1]] + text)
  {
    PrefixSplit(s, 2, end);
    SpellsMark(s[0], s[1], s[2..][..end - 2], text);
  }

  lemma SpellsEnd(c: char)
    requires IsSingleQuote(c)
    ensures Spells([c], "")
  {
    assert [c][1..] == [];
  }

  lemma PrefixSplit(s: string, n: nat, m: nat)
    requires 1 <= n <= 2 && n <= m <= |s|
    ensures s[..m] == (if n == 1 then [s[0]] else [s[0], s[1]]) + s[n..][..m - n]
  {
  }

  lemma PrefixMarks(a: string, whole: string)
    requires |a| <= |whole| && a == whole[..|a|]
    ensures Marks(a) <= Marks(whole)
    ensures |a| - Marks(a) <= |whole| - Marks(whole)
  {
    var b := whole[|a|..];
    assert whole == a + b;
    MarksAppend(a, b);
    MarksBound(b);
  }

  lemma MarksClosed(text: string)
    ensures Marks(Doubled(text) + "'") == 2 * Marks(text) - TypographicMarks(text) + 1
    ensures |Doubled(text) + "'"| == |text| + Marks(text) - TypographicMarks(text) + 1
  {
    MarksAppend(Doubled(text), "'");
    MarksDoubled(text);
    assert Marks("'") == 1;
  }

  /** Reading that gives back the text cannot have run past the closing mark. */
  lemma ReadStopsInside(closed: string, text: string, rest: string, read: string)
    requires closed == Doubled(text) + "'" && (rest == [] || !IsSingleQuote(rest[0]))
    requires |read| <= |closed + rest| && read == (closed + rest)[..|read|] && Spells(read, text)
    ensures |read| <= |closed|
  {
    if |read| > |closed| {
      var beyond := closed + [rest[0]];
      MarksClosed(text);
      MarksAppend(closed, [rest[0]]);
      assert Marks([rest[0]]) == 0;
      assert beyond == read[..|beyond|];
      PrefixMarks(beyond, read);
    }
  }

  lemma ReadBackOnly(text: string, rest: string)
    requires rest == [] || !IsSingleQuote(rest[0])
    requires ReadLiteral(Closed(text, rest)).Some? && ReadLiteral(Closed(text, rest)).value.0 == text
    ensures HasNoTypographicQuote(text)
  {
    var s, closed := Closed(text, rest), Doubled(text) + "'";
    var read := s[..|s| - |ReadLiteral(s).value.1|];
    assert s == closed + rest;
    ReadCounts(s);
    ReadStopsInside(closed, text, rest, read);
    assert read == closed[..|read|];
    MarksInside(closed, text, read);
  }

  lemma MarksInside(closed: string, text: string, read: string)
    requires closed == Doubled(text) + "'" && |read| <= |closed| && read == closed[..|read|] && Spells(read, text)
    ensures HasNoTypographicQuote(text)
  {
    MarksClosed(text);
    PrefixMarks(read, closed);
    NoTypographicMarks(text);
  }

  /** A literal reads back as its text exactly when that holds no typographic quote. */
  lemma LiteralReadBack(text: string, rest: string)
    requires rest == [] || !IsSingleQuote(rest[0])
    ensures
      var r := ReadLiteral((PowershellLiteral(text) + rest)[1..]);
      && (r == Some((text, rest)) <==> HasNoTypographicQuote(text))
      && (r.Some? && r.value.0 == text ==> HasNoTypographicQuote(text))
  {
    var s := Closed(text, rest);
    assert (PowershellLiteral(text) + rest)[1..] == s;
    if HasNoTypographicQuote(text) {
      ReadDoubled(text, rest);
    }
    var r := ReadLiteral(s);
    if r.Some? && r.value.0 == text {
      ReadBackOnly(text, rest);
    }
  }

  /** `it's` with a typographic apostrophe is not. */
  lemma TypographicQuoteIsLost()
    ensures ReadLiteral(PowershellLiteral("it\U{2019}s")[1..]) != Some(("it\U{2019}s", ""))
  {
    var text := "it\U{2019}s";
    LiteralReadBack(text, []);
    assert PowershellLiteral(text) + [] == PowershellLiteral(text);
    assert IsTypographicQuote(text[2]);
  }

  lemma {:induction false} ReplaceNothing(text: string)
    requires forall i :: 0 <= i < |text| ==> text[i] != '\''
    ensures Replace(text, '\'', "''") == text
  {
    if text != [] {
      ReplaceNothing(text[1..]);
    }
  }

  /** A literal without quotes in it is the text between two of them. */
  lemma PlainLiteral(text: string)
    requires forall i :: 0 <= i < |text| ==> text[i] != '\''
    ensures PowershellLiteral(text) == "'" + text + "'"
  {
    ReplaceNothing(text);
  }
}
