/** Command lines as the reference shell reader takes them apart again.

    A line is described by its structure - words made of unquoted, quoted and
    double-quoted parts, redirections, connectors, groups. `PrintSequence` writes it
    out; `ReadBack` shows that the reader recovers the structure, for every line. */
module ShellWriting {
  import opened Wrappers
  import opened PosixShell
  import Ssh

  datatype Part =
    | Run(text: string)            // written without quotes
    | Quoted(text: string)         // written by `Ssh.Quote`
    | DoubleQuotes(text: string)   // written between double quotes

  datatype Redirect = Redirect(fd: string, op: string, target: seq<Part>)

  datatype Written =
    | Plain(words: seq<seq<Part>>, redirects: seq<Redirect>)
    | Group(body: Sequence, outside: seq<Redirect>)

  datatype Sequence = Last(only: Written) | Then(command: Written, connector: string, rest: Sequence)

  // ----- What may be written -----

  predicate IsOrdinary(c: char) {
    && !IsOperatorStart(c) && !IsBlank(c)
    && c != '\'' && c != '\"' && c != '\\' && c != '#' && c != '`'
  }

  /** Text that a word takes in unquoted, whatever comes after it. */
  predicate IsRun(text: string) {
    && text != []
    && (forall i :: 0 <= i < |text| ==> IsOrdinary(text[i]))
    && (forall i :: 0 <= i < |text| && text[i] == '$' ==>
          i + 1 < |text| && text[i + 1] != '(' && text[i + 1] != '{')
  }

  predicate IsDoubleQuotable(text: string) {
    && (forall i :: 0 <= i < |text| ==> text[i] != '\"' && text[i] != '\\' && text[i] != '`')
    && (forall i :: 0 <= i < |text| && text[i] == '$' ==>
          i + 1 < |text| && text[i + 1] != '(' && text[i + 1] != '{')
  }

  predicate IsSoundPart(p: Part) {
    match p
    case Run(text) => IsRun(text)
    case Quoted(_) => true
    case DoubleQuotes(text) => IsDoubleQuotable(text)
  }

  predicate IsSoundWord(w: seq<Part>) {
    w != [] && forall i :: 0 <= i < |w| ==> IsSoundPart(w[i])
  }

  predicate IsSoundRedirect(r: Redirect) {
    && (r.fd == "" || r.fd == "2")
    && (r.op == ">" || r.op == "<" || r.op == ">&")
    && IsSoundWord(r.target)
  }

  predicate IsSoundCommand(c: Written) {
    match c
    case Plain(words, redirects) =>
      && words != []
      && (forall i :: 0 <= i < |words| ==> IsSoundWord(words[i]))
      && (forall i :: 0 <= i < |redirects| ==> IsSoundRedirect(redirects[i]))
    case Group(body, outside) =>
      && IsSound(body)
      && (forall i :: 0 <= i < |outside| ==> IsSoundRedirect(outside[i]))
  }

  predicate IsSound(l: Sequence) {
    match l
    case Last(c) => IsSoundCommand(c)
    case Then(c, connector, rest) =>
      && IsSoundCommand(c)
      && (connector == "&&" || connector == "||" || connector == "&" || connector == ";")
      && IsSound(rest)
  }

  // ----- Writing: each function writes its piece in front of `rest` -----

  function PrintPart(p: Part, rest: string): string {
    match p
    case Run(text) => text + rest
    case Quoted(text) => Ssh.Quote(text) + rest
    case DoubleQuotes(text) => "\"" + (text + ("\"" + rest))
  }

  function PrintWord(w: seq<Part>, rest: string): string {
    if w == [] then rest else PrintPart(w[0], PrintWord(w[1..], rest))
  }

  function PrintWords(ws: seq<seq<Part>>, rest: string): string {
    if ws == [] then rest
    else if |ws| == 1 then PrintWord(ws[0], rest)
    else PrintWord(ws[0], " " + PrintWords(ws[1..], rest))
  }

  function PrintRedirects(rs: seq<Redirect>, rest: string): string {
    if rs == [] then rest
    else
      var target := PrintWord(rs[0].target, PrintRedirects(rs[1..], rest));
      " " + (rs[0].fd + (rs[0].op + (if rs[0].op == ">&" then target else " " + target)))
  }

  function PrintConnector(connector: string, rest: string): string {
    if connector == ";" then "; " + rest else " " + (connector + (" " + rest))
  }

  function PrintCommand(c: Written, rest: string): string {
    match c
    case Plain(words, redirects) => PrintWords(words, PrintRedirects(redirects, rest))
    case Group(body, outside) => "( " + PrintSequence(body, " )" + PrintRedirects(outside, rest))
  }

  function PrintSequence(l: Sequence, rest: string): string {
    match l
    case Last(c) => PrintCommand(c, rest)
    case Then(c, connector, more) =>
      PrintCommand(c, PrintConnector(connector, PrintSequence(more, rest)))
  }

  // ----- The tokens of each piece, in front of those of what follows -----

  /** The letters that `Ssh.Quote(text)` stands for. */
  function QuotedLetters(text: string): Word {
    Letters(text, if Ssh.IsBareWord(text) then Bare else Literal)
  }

  function PartLetters(p: Part): Word {
    match p
    case Run(text) => Letters(text, Bare)
    case Quoted(text) => QuotedLetters(text)
    case DoubleQuotes(text) => Letters(text, InDouble)
  }

  function WordLetters(w: seq<Part>): Word {
    if w == [] then [] else PartLetters(w[0]) + WordLetters(w[1..])
  }

  function AllLetters(ws: seq<seq<Part>>): (r: seq<Word>)
    ensures |r| == |ws|
    ensures forall i :: 0 <= i < |ws| ==> r[i] == WordLetters(ws[i])
  {
    seq(|ws|, i requires 0 <= i < |ws| => WordLetters(ws[i]))
  }

  function WordTokens(ws: seq<seq<Part>>, after: seq<Token>): seq<Token> {
    if ws == [] then after else [WordToken(WordLetters(ws[0]))] + WordTokens(ws[1..], after)
  }

  function RedirectTokens(rs: seq<Redirect>, after: seq<Token>): seq<Token> {
    if rs == [] then after
    else
      (if rs[0].fd == "" then [] else [IoNumber(Letters(rs[0].fd, Bare))])
      + ([Operator(rs[0].op), WordToken(WordLetters(rs[0].target))] + RedirectTokens(rs[1..], after))
  }

  function CommandTokens(c: Written, after: seq<Token>): seq<Token> {
    match c
    case Plain(words, redirects) => WordTokens(words, RedirectTokens(redirects, after))
    case Group(body, outside) =>
      [Operator("(")] + SequenceTokens(body, [Operator(")")] + RedirectTokens(outside, after))
  }

  function SequenceTokens(l: Sequence, after: seq<Token>): seq<Token> {
    match l
    case Last(c) => CommandTokens(c, after)
    case Then(c, connector, more) =>
      CommandTokens(c, [Operator(connector)] + SequenceTokens(more, after))
  }

  // ----- One part at a time -----

  lemma LettersFirst(word: Word, text: string, mark: Mark)
    requires text != ""
    ensures word + Letters(text, mark) == word + [Letter(text[0], mark)] + Letters(text[1..], mark)
  {
  }

  lemma LexOrdinary(c: char, rest: string, word: Option<Word>)
    requires IsOrdinary(c) && (c == '$' ==> rest != "" && rest[0] != '(' && rest[0] != '{')
    ensures Lex([c] + rest, word, Outside) == Lex(rest, Add(word, c, Bare), Outside)
  {
    assert ([c] + rest)[1..] == rest;
  }

  lemma {:induction false} LexRun(text: string, rest: string, word: Option<Word>)
    requires IsRun(text)
    ensures Lex(text + rest, word, Outside) == Lex(rest, Some(Begun(word) + Letters(text, Bare)), Outside)
    decreases |text|
  {
    var next := Add(word, text[0], Bare);
    assert text + rest == [text[0]] + (text[1..] + rest);
    assert text[0] == '$' ==> (text[1..] + rest)[0] == text[1];
    LexOrdinary(text[0], text[1..] + rest, word);
    LettersFirst(Begun(word), text, Bare);
    if |text| == 1 {
      assert text[1..] + rest == rest && Begun(word) + Letters(text, Bare) == Begun(next);
    } else {
      LexRun(text[1..], rest, next);
    }
  }

  lemma EnterQuote(rest: string, word: Option<Word>)
    ensures Lex("'" + rest, word, Outside) == Lex(rest, Some(Begun(word)), SingleQuoted)
  {
    assert ("'" + rest)[1..] == rest;
  }

  lemma InQuote(c: char, rest: string, word: Word)
    ensures Lex([c] + rest, Some(word), SingleQuoted)
         == if c == '\'' then Lex(rest, Some(word), Outside)
            else Lex(rest, Some(word + [Letter(c, Literal)]), SingleQuoted)
  {
    assert ([c] + rest)[1..] == rest;
  }

  lemma EscapedQuote(rest: string, word: Word)
    ensures Lex("\\'" + rest, Some(word), Outside)
         == Lex(rest, Some(word + [Letter('\'', Literal)]), Outside)
  {
    assert ("\\'" + rest)[2..] == rest;
  }

  /** Leaving the quotes, writing a quote and entering them again. */
  lemma QuoteInQuotes(rest: string, word: Word)
    ensures Lex("'\\''" + rest, Some(word), SingleQuoted)
         == Lex(rest, Some(word + [Letter('\'', Literal)]), SingleQuoted)
  {
    assert "'\\''" + rest == ['\''] + ("\\'" + ("'" + rest));
    InQuote('\'', "\\'" + ("'" + rest), word);
    EscapedQuote("'" + rest, word);
    EnterQuote(rest, Some(word + [Letter('\'', Literal)]));
  }

  function Escaped(text: string, rest: string): string {
    Ssh.Replace(text, '\'', "'\\''") + ("'" + rest)
  }

  lemma EscapedHead(text: string, rest: string)
    requires text != []
    ensures text[0] == '\'' ==> Escaped(text, rest) == "'\\''" + Escaped(text[1..], rest)
    ensures text[0] != '\'' ==> Escaped(text, rest) == [text[0]] + Escaped(text[1..], rest)
  {
  }

  /** One character of escaped text. */
  lemma LexEscapedHead(text: string, rest: string, word: Word)
    requires text != []
    ensures Lex(Escaped(text, rest), Some(word), SingleQuoted)
         == Lex(Escaped(text[1..], rest), Some(word + [Letter(text[0], Literal)]), SingleQuoted)
  {
    EscapedHead(text, rest);
    if text[0] == '\'' {
      QuoteInQuotes(Escaped(text[1..], rest), word);
    } else {
      InQuote(text[0], Escaped(text[1..], rest), word);
    }
  }

  /** Inside single quotes, the escaped text comes back as written. */
  lemma {:induction false} LexEscaped(text: string, rest: string, word: Word)
    ensures Lex(Escaped(text, rest), Some(word), SingleQuoted)
         == Lex(rest, Some(word + Letters(text, Literal)), Outside)
    decreases |text|
  {
    if text == [] {
      assert Escaped(text, rest) == ['\''] + rest;
      InQuote('\'', rest, word);
      assert word + Letters(text, Literal) == word;
    } else {
      var next := word + [Letter(text[0], Literal)];
      LexEscapedHead(text, rest, word);
      LexEscaped(text[1..], rest, next);
      LettersFirst(word, text, Literal);
    }
  }

  lemma LexQuoted(text: string, rest: string, word: Option<Word>)
    ensures Lex(Ssh.Quote(text) + rest, word, Outside)
         == Lex(rest, Some(Begun(word) + QuotedLetters(text)), Outside)
  {
    if Ssh.IsBareWord(text) {
      LexRun(text, rest, word);
    } else {
      var escaped := Ssh.Replace(text, '\'', "'\\''");
      assert Ssh.Quote(text) + rest == "'" + (escaped + ("'" + rest));
      EnterQuote(escaped + ("'" + rest), word);
      LexEscaped(text, rest, Begun(word));
    }
  }

  lemma {:induction false} LexInDouble(text: string, rest: string, word: Word)
    requires IsDoubleQuotable(text)
    ensures Lex(text + ("\"" + rest), Some(word), DoubleQuoted)
         == Lex(rest, Some(word + Letters(text, InDouble)), Outside)
    decreases |text|
  {
    var s := text + ("\"" + rest);
    if text == [] {
      assert s[1..] == rest;
      assert word + Letters(text, InDouble) == word;
    } else {
      assert s[1..] == text[1..] + ("\"" + rest);
      var next := word + [Letter(text[0], InDouble)];
      LexInDouble(text[1..], rest, next);
      LettersFirst(word, text, InDouble);
    }
  }

  lemma LexPart(p: Part, rest: string, word: Option<Word>)
    requires IsSoundPart(p)
    ensures Lex(PrintPart(p, rest), word, Outside)
         == Lex(rest, Some(Begun(word) + PartLetters(p)), Outside)
  {
    match p
    case Run(text) => LexRun(text, rest, word);
    case Quoted(text) => LexQuoted(text, rest, word);
    case DoubleQuotes(text) =>
      var s := text + ("\"" + rest);
      assert ("\"" + s)[1..] == s;
      LexInDouble(text, rest, Begun(word));
  }

  lemma {:induction false} LexParts(w: seq<Part>, rest: string, word: Word)
    requires forall i :: 0 <= i < |w| ==> IsSoundPart(w[i])
    ensures Lex(PrintWord(w, rest), Some(word), Outside) == Lex(rest, Some(word + WordLetters(w)), Outside)
  {
    if w == [] {
      assert word + WordLetters(w) == word;
    } else {
      LexPart(w[0], PrintWord(w[1..], rest), Some(word));
      LexParts(w[1..], rest, word + PartLetters(w[0]));
      assert word + WordLetters(w) == word + PartLetters(w[0]) + WordLetters(w[1..]);
    }
  }

  /** Text in front of which a word ends. */
  predicate IsDelimited(rest: string) {
    rest == "" || rest[0] == ' ' || rest[0] == ';'
  }

  lemma LexDelimiter(rest: string, word: Word)
    requires IsDelimited(rest)
    ensures Lex(rest, Some(word), Outside) == Prepend([WordToken(word)], Lex(rest, None, Outside))
  {
    if rest != "" && rest[0] == ';' {
      var n := OperatorLength(rest);
      var op := rest[..n];
      var more := Lex(rest[n..], None, Outside);
      assert FlushBefore(Some(word), op) == [WordToken(word)];
      assert FlushBefore(None, op) + [Operator(op)] == [Operator(op)];
      assert [WordToken(word)] + [Operator(op)] == [WordToken(word), Operator(op)];
      assert Lex(rest, None, Outside) == Prepend([Operator(op)], more);
      assert Lex(rest, Some(word), Outside) == Prepend([WordToken(word), Operator(op)], more);
      if more.Some? {
        assert [WordToken(word), Operator(op)] + more.value == [WordToken(word)] + ([Operator(op)] + more.value);
      }
    } else if rest != "" {
      var more := Lex(rest[1..], None, Outside);
      if more.Some? {
        assert [] + more.value == more.value;
      }
    } else {
      assert [WordToken(word)] + [] == [WordToken(word)];
    }
  }

  /** A whole word, in front of text whose tokens are `after`. */
  lemma LexWord(w: seq<Part>, rest: string, after: seq<Token>)
    requires IsSoundWord(w) && IsDelimited(rest)
    requires Lex(rest, None, Outside) == Some(after)
    ensures Lex(PrintWord(w, rest), None, Outside) == Some([WordToken(WordLetters(w))] + after)
  {
    var first := PartLetters(w[0]);
    LexPart(w[0], PrintWord(w[1..], rest), None);
    assert Begun(None) + first == first;
    LexParts(w[1..], rest, first);
    LexDelimiter(rest, WordLetters(w));
  }

  lemma LexSpace(rest: string, after: seq<Token>)
    requires Lex(rest, None, Outside) == Some(after)
    ensures Lex(" " + rest, None, Outside) == Some(after)
  {
    assert (" " + rest)[1..] == rest;
    assert [] + after == after;
  }

  lemma {:induction false} LexWords(ws: seq<seq<Part>>, rest: string, after: seq<Token>)
    requires ws != [] && forall i :: 0 <= i < |ws| ==> IsSoundWord(ws[i])
    requires IsDelimited(rest) && Lex(rest, None, Outside) == Some(after)
    ensures Lex(PrintWords(ws, rest), None, Outside) == Some(WordTokens(ws, after))
  {
    if |ws| == 1 {
      LexWord(ws[0], rest, after);
      assert WordTokens(ws[1..], after) == after;
    } else {
      LexWords(ws[1..], rest, after);
      LexSpace(PrintWords(ws[1..], rest), WordTokens(ws[1..], after));
      LexWord(ws[0], " " + PrintWords(ws[1..], rest), WordTokens(ws[1..], after));
    }
  }

  predicate IsWholeOperator(op: string) {
    op == "&&" || op == "||" || op == ";" || op == "&" || op == "(" || op == ")" || op == "<"
    || op == ">" || op == ">&"
  }

  lemma LexOperator(op: string, rest: string, word: Option<Word>, after: seq<Token>)
    requires IsWholeOperator(op)
    requires op == "(" || op == ")" || rest == [] || !IsOperatorStart(rest[0])
    requires Lex(rest, None, Outside) == Some(after)
    ensures Lex(op + rest, word, Outside) == Some(FlushBefore(word, op) + [Operator(op)] + after)
  {
    var s := op + rest;
    assert OperatorLength(s) == |op|;
    assert s[..|op|] == op && s[|op|..] == rest;
  }

  lemma PrintWordStart(w: seq<Part>, rest: string)
    requires IsSoundWord(w) && IsDelimited(rest)
    ensures PrintWord(w, rest) != "" && !IsOperatorStart(PrintWord(w, rest)[0])
  {
    assert IsSoundPart(w[0]);
    match w[0]
    case Run(text) => assert IsOrdinary(text[0]);
    case Quoted(text) => assert Ssh.Quote(text) != "";
    case DoubleQuotes(text) =>
  }

  lemma RedirectsDelimited(rs: seq<Redirect>, rest: string)
    requires IsDelimited(rest)
    ensures IsDelimited(PrintRedirects(rs, rest))
  {
  }

  function FdTokens(fd: string): seq<Token> {
    if fd == "" then [] else [IoNumber(Letters(fd, Bare))]
  }

  lemma LexUnnumbered(op: string, rest: string, after: seq<Token>)
    requires op == ">" || op == "<" || op == ">&"
    requires rest != "" && !IsOperatorStart(rest[0])
    requires Lex(rest, None, Outside) == Some(after)
    ensures Lex(op + rest, None, Outside) == Some([Operator(op)] + after)
  {
    LexOperator(op, rest, None, after);
    assert FlushBefore(None, op) + [Operator(op)] == [Operator(op)];
  }

  lemma LexNumberedTwo(op: string, rest: string, after: seq<Token>)
    requires op == ">" || op == "<" || op == ">&"
    requires rest != "" && !IsOperatorStart(rest[0])
    requires Lex(rest, None, Outside) == Some(after)
    ensures Lex("2" + (op + rest), None, Outside) == Some([IoNumber(Letters("2", Bare))] + ([Operator(op)] + after))
  {
    var word := Letters("2", Bare);
    LexRun("2", op + rest, None);
    LexOperator(op, rest, Some(word), after);
    TwoIsNumber(op, after);
  }

  lemma TwoIsNumber(op: string, after: seq<Token>)
    requires op == ">" || op == "<" || op == ">&"
    ensures var word := Letters("2", Bare);
            && Begun(None) + word == word
            && FlushBefore(Some(word), op) + [Operator(op)] + after == [IoNumber(word)] + ([Operator(op)] + after)
  {
    var word := Letters("2", Bare);
    assert IsNumber(word);
    assert [IoNumber(word)] + [Operator(op)] + after == [IoNumber(word)] + ([Operator(op)] + after);
  }

  /** An operator, after the file descriptor it applies to if it names one. */
  lemma LexNumbered(fd: string, op: string, rest: string, after: seq<Token>, text: string, tokens: seq<Token>)
    requires fd == "" || fd == "2"
    requires op == ">" || op == "<" || op == ">&"
    requires rest != "" && !IsOperatorStart(rest[0])
    requires Lex(rest, None, Outside) == Some(after)
    requires text == fd + (op + rest) && tokens == FdTokens(fd) + ([Operator(op)] + after)
    ensures Lex(text, None, Outside) == Some(tokens)
  {
    if fd == "" {
      assert text == op + rest && tokens == [Operator(op)] + after;
      LexUnnumbered(op, rest, after);
    } else {
      LexNumberedTwo(op, rest, after);
    }
  }

  /** What stands behind the operator of a redirection. */
  function TargetText(r: Redirect, rest: string): string {
    if r.op == ">&" then PrintWord(r.target, rest) else " " + PrintWord(r.target, rest)
  }

  lemma LexTarget(r: Redirect, rest: string, after: seq<Token>)
    requires IsSoundRedirect(r) && IsDelimited(rest)
    requires Lex(rest, None, Outside) == Some(after)
    ensures TargetText(r, rest) != "" && !IsOperatorStart(TargetText(r, rest)[0])
    ensures Lex(TargetText(r, rest), None, Outside) == Some([WordToken(WordLetters(r.target))] + after)
  {
    LexWord(r.target, rest, after);
    PrintWordStart(r.target, rest);
    LexSpace(PrintWord(r.target, rest), [WordToken(WordLetters(r.target))] + after);
  }

  lemma OneRedirect(r: Redirect, rest: string, after: seq<Token>)
    ensures PrintRedirects([r], rest) == " " + (r.fd + (r.op + TargetText(r, rest)))
    ensures RedirectTokens([r], after) == FdTokens(r.fd) + ([Operator(r.op)] + ([WordToken(WordLetters(r.target))] + after))
  {
    assert [r][1..] == [];
    assert PrintRedirects([], rest) == rest && RedirectTokens([], after) == after;
    assert [Operator(r.op)] + ([WordToken(WordLetters(r.target))] + after)
        == [Operator(r.op), WordToken(WordLetters(r.target))] + after;
  }

  lemma LexRedirect(r: Redirect, rest: string, after: seq<Token>)
    requires IsSoundRedirect(r) && IsDelimited(rest)
    requires Lex(rest, None, Outside) == Some(after)
    ensures Lex(PrintRedirects([r], rest), None, Outside) == Some(RedirectTokens([r], after))
  {
    var ts := [WordToken(WordLetters(r.target))] + after;
    var tail, text, tokens := TargetText(r, rest), r.fd + (r.op + TargetText(r, rest)), RedirectTokens([r], after);
    LexTarget(r, rest, after);
    OneRedirect(r, rest, after);
    LexNumbered(r.fd, r.op, tail, ts, text, tokens);
    LexSpace(text, tokens);
  }

  lemma {:induction false} LexRedirects(rs: seq<Redirect>, rest: string, after: seq<Token>)
    requires forall i :: 0 <= i < |rs| ==> IsSoundRedirect(rs[i])
    requires IsDelimited(rest) && Lex(rest, None, Outside) == Some(after)
    ensures Lex(PrintRedirects(rs, rest), None, Outside) == Some(RedirectTokens(rs, after))
  {
    if rs != [] {
      var more := PrintRedirects(rs[1..], rest);
      LexRedirects(rs[1..], rest, after);
      RedirectsDelimited(rs[1..], rest);
      LexRedirect(rs[0], more, RedirectTokens(rs[1..], after));
      assert [rs[0]][1..] == [];
    }
  }

  lemma LexConnector(connector: string, rest: string, after: seq<Token>)
    requires connector == "&&" || connector == "||" || connector == "&" || connector == ";"
    requires Lex(rest, None, Outside) == Some(after)
    ensures IsDelimited(PrintConnector(connector, rest))
    ensures Lex(PrintConnector(connector, rest), None, Outside) == Some([Operator(connector)] + after)
  {
    LexSpace(rest, after);
    LexOperator(connector, " " + rest, None, after);
    assert FlushBefore(None, connector) + [Operator(connector)] + after == [Operator(connector)] + after;
    if connector == ";" {
      assert "; " + rest == ";" + (" " + rest);
    } else {
      LexSpace(connector + (" " + rest), [Operator(connector)] + after);
    }
  }

  lemma {:induction false} LexCommand(c: Written, rest: string, after: seq<Token>)
    requires IsSoundCommand(c)
    requires IsDelimited(rest) && Lex(rest, None, Outside) == Some(after)
    ensures Lex(PrintCommand(c, rest), None, Outside) == Some(CommandTokens(c, after))
  {
    match c
    case Plain(words, redirects) =>
      LexRedirects(redirects, rest, after);
      RedirectsDelimited(redirects, rest);
      LexWords(words, PrintRedirects(redirects, rest), RedirectTokens(redirects, after));
    case Group(body, outside) =>
      var tail, closing := " )" + PrintRedirects(outside, rest), [Operator(")")] + RedirectTokens(outside, after);
      LexRedirects(outside, rest, after);
      RedirectsDelimited(outside, rest);
      LexClosing(PrintRedirects(outside, rest), RedirectTokens(outside, after), tail, closing);
      LexSequence(body, tail, closing);
      LexOpening(PrintSequence(body, tail), SequenceTokens(body, closing), PrintCommand(c, rest), CommandTokens(c, after));
  }

  lemma LexClosing(rest: string, after: seq<Token>, text: string, tokens: seq<Token>)
    requires IsDelimited(rest) && Lex(rest, None, Outside) == Some(after)
    requires text == " )" + rest && tokens == [Operator(")")] + after
    ensures IsDelimited(text) && Lex(text, None, Outside) == Some(tokens)
  {
    LexOperator(")", rest, None, after);
    assert FlushBefore(None, ")") + [Operator(")")] + after == [Operator(")")] + after;
    assert " )" + rest == " " + (")" + rest);
    LexSpace(")" + rest, tokens);
  }

  lemma LexOpening(rest: string, after: seq<Token>, text: string, tokens: seq<Token>)
    requires Lex(rest, None, Outside) == Some(after)
    requires text == "( " + rest && tokens == [Operator("(")] + after
    ensures Lex(text, None, Outside) == Some(tokens)
  {
    var more := " " + rest;
    LexSpace(rest, after);
    assert text == ['('] + more;
    LexParenthesis(more, after);
  }

  lemma LexParenthesis(rest: string, after: seq<Token>)
    requires Lex(rest, None, Outside) == Some(after)
    ensures Lex(['('] + rest, None, Outside) == Some([Operator("(")] + after)
  {
    LexOperator("(", rest, None, after);
    assert FlushBefore(None, "(") + [Operator("(")] == [Operator("(")];
  }

  /** The reader finds exactly the tokens of what was written. */
  lemma {:induction false} LexSequence(l: Sequence, rest: string, after: seq<Token>)
    requires IsSound(l)
    requires IsDelimited(rest) && Lex(rest, None, Outside) == Some(after)
    ensures Lex(PrintSequence(l, rest), None, Outside) == Some(SequenceTokens(l, after))
  {
    match l
    case Last(c) => LexCommand(c, rest, after);
    case Then(c, connector, more) =>
      LexSequence(more, rest, after);
      LexConnector(connector, PrintSequence(more, rest), SequenceTokens(more, after));
      LexCommand(c, PrintConnector(connector, PrintSequence(more, rest)),
                 [Operator(connector)] + SequenceTokens(more, after));
  }

  // ----- Grammar -----

  function Meanings(rs: seq<Redirect>): (r: seq<Redirection>)
    ensures |r| == |rs|
    ensures forall i :: 0 <= i < |rs| ==>
      r[i] == Redirection(Letters(rs[i].fd, Bare), rs[i].op, WordLetters(rs[i].target))
  {
    seq(|rs|, i requires 0 <= i < |rs| =>
      Redirection(Letters(rs[i].fd, Bare), rs[i].op, WordLetters(rs[i].target)))
  }

  /** A simple command after taking the words `ws`. */
  function TakeWords(done: Command, ws: seq<Word>): (r: Option<Command>)
    requires done.Simple?
    ensures r.Some? ==> r.value.Simple?
    decreases |ws|
  {
    if ws == [] then Some(done)
    else
      var taken := TakeWord(done, ws[0]);
      if taken.None? then None else TakeWords(taken.value, ws[1..])
  }

  function CommandMeaning(c: Written): Option<Command> {
    match c
    case Plain(words, redirects) =>
      var taken := TakeWords(Simple([], [], []), AllLetters(words));
      if taken.None? then None
      else Some(taken.value.(redirections := taken.value.redirections + Meanings(redirects)))
    case Group(body, outside) =>
      var inside := Meaning(body);
      if inside.None? then None else Some(Subshell(inside.value, Meanings(outside)))
  }

  function Meaning(l: Sequence): Option<CommandList> {
    match l
    case Last(c) =>
      var only := CommandMeaning(c);
      if only.None? then None else Some(Cons(only.value, "", Nil))
    case Then(c, connector, more) =>
      var first, rest := CommandMeaning(c), Meaning(more);
      if first.None? || rest.None? then None else Some(Cons(first.value, connector, rest.value))
  }

  /** Tokens in front of which a command ends. */
  predicate IsEnd(after: seq<Token>) {
    after == [] || (after[0].Operator? && !IsRedirection(after[0].op))
  }

  lemma {:induction false} ParseWords(ws: seq<seq<Part>>, after: seq<Token>, done: Command)
    requires done.Simple?
    ensures
      var taken := TakeWords(done, AllLetters(ws));
      ParseSimple(WordTokens(ws, after), done)
        == if taken.None? then None else ParseSimple(after, taken.value)
  {
    if ws != [] {
      var ts := WordTokens(ws, after);
      assert ts[1..] == WordTokens(ws[1..], after);
      assert AllLetters(ws)[1..] == AllLetters(ws[1..]);
      var first := TakeWord(done, WordLetters(ws[0]));
      if first.Some? {
        ParseWords(ws[1..], after, first.value);
      }
    }
  }

  lemma {:induction false} TakeWordsSome(done: Command, ws: seq<Word>)
    requires done.Simple? && (ws != [] || done != Simple([], [], []))
    ensures
      var taken := TakeWords(done, ws);
      taken.Some? ==> taken.value != Simple([], [], []) && taken.value.redirections == done.redirections
    decreases |ws|
  {
    if ws != [] {
      var taken := TakeWord(done, ws[0]);
      if taken.Some? {
        TakeWordsSome(taken.value, ws[1..]);
      }
    }
  }

  lemma ParseUnnumbered(op: string, w: Word, tail: seq<Token>)
    requires IsRedirection(op)
    ensures ParseRedirection([] + ([Operator(op), WordToken(w)] + tail)) == Some((Redirection([], op, w), tail))
  {
    var ts := [] + ([Operator(op), WordToken(w)] + tail);
    assert ts[0] == Operator(op) && ts[1] == WordToken(w) && ts[2..] == tail;
  }

  lemma ParseNumbered(digits: Word, op: string, w: Word, tail: seq<Token>)
    requires IsRedirection(op)
    ensures ParseRedirection([IoNumber(digits)] + ([Operator(op), WordToken(w)] + tail)) == Some((Redirection(digits, op, w), tail))
  {
    var ts := [IoNumber(digits)] + ([Operator(op), WordToken(w)] + tail);
    assert ts[0] == IoNumber(digits) && ts[1] == Operator(op) && ts[2] == WordToken(w) && ts[3..] == tail;
  }

  lemma ParseRedirectionHead(rs: seq<Redirect>, after: seq<Token>)
    requires rs != [] && IsSoundRedirect(rs[0])
    ensures ParseRedirection(RedirectTokens(rs, after))
         == Some((Meanings(rs)[0], RedirectTokens(rs[1..], after)))
    ensures RedirectTokens(rs, after) != [] && !RedirectTokens(rs, after)[0].WordToken?
  {
    var r, tail := rs[0], RedirectTokens(rs[1..], after);
    if r.fd == "" {
      ParseUnnumbered(r.op, WordLetters(r.target), tail);
      assert Letters(r.fd, Bare) == [];
    } else {
      ParseNumbered(Letters(r.fd, Bare), r.op, WordLetters(r.target), tail);
    }
  }

  lemma ParseSimpleStep(ts: seq<Token>, done: Command, r: Redirection, rest: seq<Token>)
    requires done.Simple? && ts != [] && !ts[0].WordToken? && ParseRedirection(ts) == Some((r, rest))
    ensures ParseSimple(ts, done) == ParseSimple(rest, done.(redirections := done.redirections + [r]))
  {
  }

  lemma MeaningsFirst(rs: seq<Redirect>)
    requires rs != []
    ensures Meanings(rs) == [Meanings(rs)[0]] + Meanings(rs[1..])
  {
  }

  lemma Taken(done: Command, r: Redirection, more: seq<Redirection>)
    requires done.Simple?
    ensures var next := done.(redirections := done.redirections + [r]);
            next.(redirections := next.redirections + more) == done.(redirections := done.redirections + ([r] + more))
  {
    assert done.redirections + [r] + more == done.redirections + ([r] + more);
  }

  predicate AreSound(rs: seq<Redirect>) {
    rs != [] ==> IsSoundRedirect(rs[0]) && AreSound(rs[1..])
  }

  lemma {:induction false} AllSound(rs: seq<Redirect>)
    requires forall i :: 0 <= i < |rs| ==> IsSoundRedirect(rs[i])
    ensures AreSound(rs)
  {
    if rs != [] {
      AllSound(rs[1..]);
    }
  }

  lemma {:induction false} ParseSimpleRedirects(rs: seq<Redirect>, after: seq<Token>, done: Command)
    requires done.Simple? && AreSound(rs)
    ensures ParseSimple(RedirectTokens(rs, after), done)
         == ParseSimple(after, done.(redirections := done.redirections + Meanings(rs)))
    decreases |rs|
  {
    if rs == [] {
      assert done.redirections + Meanings(rs) == done.redirections;
    } else {
      var r, more := Meanings(rs)[0], RedirectTokens(rs[1..], after);
      ParseRedirectionHead(rs, after);
      ParseSimpleStep(RedirectTokens(rs, after), done, r, more);
      ParseSimpleRedirects(rs[1..], after, done.(redirections := done.redirections + [r]));
      MeaningsFirst(rs);
      Taken(done, r, Meanings(rs[1..]));
    }
  }

  lemma ParseRedirectionsStep(ts: seq<Token>, r: Redirection, rest: seq<Token>, more: seq<Redirection>, end: seq<Token>)
    requires ParseRedirection(ts) == Some((r, rest)) && ParseRedirections(rest) == (more, end)
    ensures ParseRedirections(ts) == ([r] + more, end)
  {
  }

  lemma {:induction false} ParseOutsideRedirects(rs: seq<Redirect>, after: seq<Token>)
    requires IsEnd(after) && AreSound(rs)
    ensures ParseRedirections(RedirectTokens(rs, after)) == (Meanings(rs), after)
  {
    if rs != [] {
      ParseRedirectionHead(rs, after);
      ParseOutsideRedirects(rs[1..], after);
      ParseRedirectionsStep(RedirectTokens(rs, after), Meanings(rs)[0], RedirectTokens(rs[1..], after), Meanings(rs[1..]), after);
      MeaningsFirst(rs);
    }
  }

  lemma PlainStart(words: seq<seq<Part>>, after: seq<Token>)
    requires words != []
    ensures WordTokens(words, after)[0].WordToken?
  {
  }

  lemma {:induction false} ParseWrittenCommand(c: Written, after: seq<Token>)
    requires IsSoundCommand(c) && IsEnd(after)
    ensures
      var meaning := CommandMeaning(c);
      ParseCommand(CommandTokens(c, after)) == if meaning.None? then None else Some((meaning.value, after))
  {
    match c
    case Plain(words, redirects) =>
      var rts := RedirectTokens(redirects, after);
      var taken := TakeWords(Simple([], [], []), AllLetters(words));
      PlainStart(words, rts);
      ParseWords(words, rts, Simple([], [], []));
      if taken.Some? {
        TakeWordsSome(Simple([], [], []), AllLetters(words));
        AllSound(redirects);
        ParseSimpleRedirects(redirects, after, taken.value);
      }
    case Group(body, outside) =>
      var closing := [Operator(")")] + RedirectTokens(outside, after);
      var inner := SequenceTokens(body, closing);
      assert ([Operator("(")] + inner)[1..] == inner;
      ParseWrittenSequence(body, closing);
      assert closing[1..] == RedirectTokens(outside, after);
      AllSound(outside);
      ParseOutsideRedirects(outside, after);
  }

  lemma SequenceStart(l: Sequence, after: seq<Token>)
    requires IsSound(l)
    ensures SequenceTokens(l, after) != []
    ensures SequenceTokens(l, after)[0] != Operator(")")
  {
    match l
    case Last(Plain(words, redirects)) =>
    case Last(Group(_, _)) =>
    case Then(Plain(words, redirects), _, _) =>
    case Then(Group(_, _), _, _) =>
  }

  /** The grammar recovers exactly the structure that was written. */
  lemma {:induction false} ParseWrittenSequence(l: Sequence, after: seq<Token>)
    requires IsSound(l) && (after == [] || after[0] == Operator(")"))
    ensures
      var meaning := Meaning(l);
      ParseList(SequenceTokens(l, after)) == if meaning.None? then None else Some((meaning.value, after))
  {
    match l
    case Last(c) => ParseWrittenCommand(c, after);
    case Then(c, connector, more) =>
      var rest := SequenceTokens(more, after);
      var ts := [Operator(connector)] + rest;
      ParseWrittenCommand(c, ts);
      assert ts[1..] == rest;
      SequenceStart(more, after);
      ParseWrittenSequence(more, after);
  }

  /** The reference shell reads back every well-formed line as it was meant. */
  lemma ReadBack(l: Sequence)
    requires IsSound(l)
    ensures Parse(PrintSequence(l, "")) == Meaning(l)
  {
    LexSequence(l, "", []);
    ParseWrittenSequence(l, []);
  }
}
