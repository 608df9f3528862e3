/** Chords of keys as text (`src/keys.rs`): names with dashes between, where a dash is also
    the minus key. */
module Keys {
  import opened Wrappers

  // ----- The keys, by QEMU's names, with their X keysyms -----

  const LETTERS := map["a" := 0x61, "b" := 0x62, "c" := 0x63, "d" := 0x64, "e" := 0x65, "f" := 0x66, "g" := 0x67,
    "h" := 0x68, "i" := 0x69, "j" := 0x6a, "k" := 0x6b, "l" := 0x6c, "m" := 0x6d, "n" := 0x6e, "o" := 0x6f, "p" := 0x70,
    "q" := 0x71, "r" := 0x72, "s" := 0x73, "t" := 0x74, "u" := 0x75, "v" := 0x76, "w" := 0x77, "x" := 0x78, "y" := 0x79,
    "z" := 0x7a]

  const DIGITS := map["0" := 0x30, "1" := 0x31, "2" := 0x32, "3" := 0x33, "4" := 0x34, "5" := 0x35, "6" := 0x36,
    "7" := 0x37, "8" := 0x38, "9" := 0x39]

  const SIGNS := map["minus" := 0x2d, "equal" := 0x3d, "bracket_left" := 0x5b, "bracket_right" := 0x5d,
    "backslash" := 0x5c, "semicolon" := 0x3b, "apostrophe" := 0x27, "grave_accent" := 0x60, "comma" := 0x2c,
    "dot" := 0x2e, "slash" := 0x2f, "spc" := 0x20]

  const EDITING := map["ret" := 0xff0d, "tab" := 0xff09, "esc" := 0xff1b, "backspace" := 0xff08, "delete" := 0xffff,
    "insert" := 0xff63, "home" := 0xff50, "end" := 0xff57, "pgup" := 0xff55, "pgdn" := 0xff56, "left" := 0xff51,
    "up" := 0xff52, "right" := 0xff53, "down" := 0xff54]

  const MODIFIERS := map["shift" := 0xffe1, "shift_r" := 0xffe2, "ctrl" := 0xffe3, "ctrl_r" := 0xffe4, "alt" := 0xffe7,
    "alt_r" := 0xffe8, "meta_l" := 0xffe9, "meta_r" := 0xffea, "caps_lock" := 0xffe5]

  const FUNCTIONS := map["f1" := 0xffbe, "f2" := 0xffbf, "f3" := 0xffc0, "f4" := 0xffc1, "f5" := 0xffc2, "f6" := 0xffc3,
    "f7" := 0xffc4, "f8" := 0xffc5, "f9" := 0xffc6, "f10" := 0xffc7, "f11" := 0xffc8, "f12" := 0xffc9,
    "henkan" := 0xff23, "muhenkan" := 0xff22, "katakanahiragana" := 0xff27]

  predicate IsKey(name: string) {
    name in LETTERS || name in DIGITS || name in SIGNS || name in EDITING || name in MODIFIERS || name in FUNCTIONS
  }

  predicate IsPlain(name: string) {
    name != "" && '-' !in name
  }

  lemma LettersArePlain(name: string)
    requires name in LETTERS
    ensures IsPlain(name)
  {
  }

  lemma DigitsArePlain(name: string)
    requires name in DIGITS
    ensures IsPlain(name)
  {
  }

  lemma SignsArePlain(name: string)
    requires name in SIGNS
    ensures IsPlain(name)
  {
  }

  lemma EditingIsPlain(name: string)
    requires name in EDITING
    ensures IsPlain(name)
  {
  }

  lemma ModifiersArePlain(name: string)
    requires name in MODIFIERS
    ensures IsPlain(name)
  {
  }

  lemma FunctionsArePlain(name: string)
    requires name in FUNCTIONS
    ensures IsPlain(name)
  {
  }

  /** No key's name is empty or holds a dash. */
  lemma KeysArePlain(name: string)
    requires IsKey(name)
    ensures IsPlain(name)
  {
    if name in LETTERS {
      LettersArePlain(name);
    } else if name in DIGITS {
      DigitsArePlain(name);
    } else if name in SIGNS {
      SignsArePlain(name);
    } else if name in EDITING {
      EditingIsPlain(name);
    } else if name in MODIFIERS {
      ModifiersArePlain(name);
    } else {
      FunctionsArePlain(name);
    }
  }

  // ----- Reading a chord -----

  /** Before and after the first dash; all of it when there is none. */
  function SplitDash(text: string): (parts: (string, string))
    ensures |parts.1| <= |text| && (text != "" ==> |parts.1| < |text|)
  {
    if text == "" then ("", "")
    else if text[0] == '-' then ("", text[1..])
    else var (a, b) := SplitDash(text[1..]); ([text[0]] + a, b)
  }

  /** A leading dash is the minus key itself; one more after it separates. */
  function NextName(rest: string): (parts: (string, string))
    requires rest != ""
    ensures |parts.1| < |rest|
  {
    if rest[0] != '-' then SplitDash(rest)
    else if |rest| > 1 && rest[1] == '-' then ("-", rest[2..])
    else ("-", rest[1..])
  }

  function Canonical(name: string): string {
    if name == "-" then "minus" else name
  }

  function NamesOf(rest: string): Option<seq<string>>
    decreases |rest|
  {
    if rest == "" then Some([]) else
    var (name, next) := NextName(rest);
    if !IsKey(Canonical(name)) then None else
    match NamesOf(next)
    case None => None
    case Some(names) => Some([Canonical(name)] + names)
  }

  function ParseOf(text: string): Option<seq<string>> {
    if NamesOf(text) == Some([]) then None else NamesOf(text)
  }

  ghost function Before(names: seq<string>, rest: Option<seq<string>>): Option<seq<string>> {
    match rest
    case None => None
    case Some(more) => Some(names + more)
  }

  lemma BeforeNone(rest: Option<seq<string>>)
    ensures Before([], rest) == rest
  {
    if rest.Some? {
      assert [] + rest.value == rest.value;
    }
  }

  lemma BeforeMore(names: seq<string>, name: string, rest: Option<seq<string>>)
    ensures Before(names + [name], rest) == Before(names, Before([name], rest))
  {
    if rest.Some? {
      assert names + [name] + rest.value == names + ([name] + rest.value);
    }
  }

  method Parse(text: string) returns (chord: Option<seq<string>>)
    ensures chord == ParseOf(text)
  {
    var names: seq<string>, rest := [], text;
    BeforeNone(NamesOf(text));
    while rest != ""
      invariant NamesOf(text) == Before(names, NamesOf(rest))
      decreases |rest|
    {
      var (name, next) := NextName(rest);
      var canonical := Canonical(name);
      if !IsKey(canonical) {
        return None;
      }
      BeforeMore(names, canonical, NamesOf(next));
      names, rest := names + [canonical], next;
    }
    assert names + [] == names;
    if names == [] {
      return None;
    }
    chord := Some(names);
  }

  // ----- Writing one -----

  /** How a key may be written: by its name, and minus as a dash too. */
  predicate IsSpelling(s: string) {
    s == "-" || IsKey(s)
  }

  predicate AreSpellings(spellings: seq<string>) {
    spellings != [] ==> IsSpelling(spellings[0]) && AreSpellings(spellings[1..])
  }

  function Joined(spellings: seq<string>): string
    requires spellings != []
  {
    if |spellings| == 1 then spellings[0] else spellings[0] + "-" + Joined(spellings[1..])
  }

  function Meant(spellings: seq<string>): seq<string> {
    if spellings == [] then [] else [Canonical(spellings[0])] + Meant(spellings[1..])
  }

  lemma {:induction false} SplitPlain(name: string, rest: string)
    requires '-' !in name
    ensures SplitDash(name) == (name, "") && SplitDash(name + "-" + rest) == (name, rest)
  {
    if name == "" {
      assert name + "-" + rest == "-" + rest;
      assert ("-" + rest)[1..] == rest;
    } else {
      SplitPlain(name[1..], rest);
      assert (name + "-" + rest)[1..] == name[1..] + "-" + rest;
      assert [name[0]] + name[1..] == name;
    }
  }

  lemma NextSpelling(s: string, rest: string)
    requires s == "-" || IsPlain(s)
    ensures NextName(s) == (s, "") && NextName(s + "-" + rest) == (s, rest)
  {
    if s == "-" {
      assert ("-" + "-" + rest)[2..] == rest;
    } else {
      SplitPlain(s, rest);
    }
  }

  /** Dashes between the keys, and at most one more at the end; after a minus key written as
      a dash the separating one may be left out, unless another dash follows. */
  predicate IsWritten(spellings: seq<string>, text: string)
    requires spellings != []
    decreases |spellings|
  {
    var s, more := spellings[0], spellings[1..];
    s <= text &&
    var rest := text[|s|..];
    if more == [] then rest == "" || rest == "-"
    else rest != "" && if rest[0] == '-' then IsWritten(more, rest[1..]) else s == "-" && IsWritten(more, rest)
  }

  lemma NextOfSpelling(s: string, rest: string, text: string)
    requires (s == "-" || IsPlain(s)) && text == s + rest
    requires rest == "" || rest[0] == '-' || s == "-"
    ensures text != ""
    ensures NextName(text) == (s, if rest != "" && rest[0] == '-' then rest[1..] else rest)
  {
    if rest != "" && rest[0] == '-' {
      assert text == s + "-" + rest[1..];
      NextSpelling(s, rest[1..]);
    } else {
      NextSpelling(s, "");
      if rest == "" {
        assert text == s;
      } else {
        assert text[0] == '-' && text[1] == rest[0] && text[1..] == rest;
      }
    }
  }

  lemma SpellingIsRead(s: string)
    requires IsSpelling(s)
    ensures (s == "-" || IsPlain(s)) && IsKey(Canonical(s))
  {
    if s != "-" {
      KeysArePlain(s);
    }
  }

  lemma NamesStep(text: string, name: string, next: string, names: seq<string>)
    requires text != "" && NextName(text) == (name, next) && IsKey(Canonical(name)) && NamesOf(next) == Some(names)
    ensures NamesOf(text) == Some([Canonical(name)] + names)
  {
  }

  /** Any keys, written that way, are read back. */
  lemma {:induction false} ChordReadBack(spellings: seq<string>, text: string)
    requires spellings != [] && AreSpellings(spellings) && IsWritten(spellings, text)
    ensures NamesOf(text) == ParseOf(text) == Some(Meant(spellings))
    decreases |spellings|
  {
    var s, more := spellings[0], spellings[1..];
    var rest := text[|s|..];
    var next := if rest != "" && rest[0] == '-' then rest[1..] else rest;
    assert text == s + rest;
    SpellingIsRead(s);
    NextOfSpelling(s, rest, text);
    if more == [] {
      assert next == "";
      NamesStep(text, s, next, []);
    } else {
      ChordReadBack(more, next);
      NamesStep(text, s, next, Meant(more));
    }
  }

  /** In particular with exactly one dash between. */
  lemma {:induction false} JoinedIsWritten(spellings: seq<string>)
    requires spellings != []
    ensures IsWritten(spellings, Joined(spellings))
  {
    if |spellings| > 1 {
      JoinedIsWritten(spellings[1..]);
      AfterFirst(spellings[0], Joined(spellings[1..]));
    }
  }

  lemma AfterFirst(s: string, rest: string)
    ensures s <= s + "-" + rest
    ensures (s + "-" + rest)[|s|..] == "-" + rest && ("-" + rest)[1..] == rest
  {
  }

  lemma JoinedReadBack(spellings: seq<string>)
    requires spellings != [] && AreSpellings(spellings)
    ensures ParseOf(Joined(spellings)) == Some(Meant(spellings))
  {
    JoinedIsWritten(spellings);
    ChordReadBack(spellings, Joined(spellings));
  }

  lemma {:induction false} SplitBack(text: string)
    ensures var (a, b) := SplitDash(text); '-' !in a && (text == a + "-" + b || (text == a && b == ""))
  {
    if text != "" && text[0] != '-' {
      SplitBack(text[1..]);
      var (a, b) := SplitDash(text[1..]);
      assert text == [text[0]] + text[1..];
      assert [text[0]] + (a + "-" + b) == [text[0]] + a + "-" + b;
    } else if text != "" {
      assert text == "" + "-" + text[1..];
    }
  }

  /** What follows the first name: nothing, a dash and the rest, or after a dash just the rest. */
  lemma NextBack(text: string)
    requires text != ""
    ensures var (name, next) := NextName(text);
            && name <= text
            && var rest := text[|name|..];
               || (rest == next && (next == "" || (name == "-" && next[0] != '-')))
               || (rest != "" && rest[0] == '-' && rest[1..] == next)
  {
    SplitBack(text);
    var (name, next) := NextName(text);
    if text[0] != '-' && text == name + "-" + next {
      assert text[|name|..] == "-" + next;
    }
  }

  /** And nothing else is read as a chord. */
  lemma {:induction false} OnlyChordsAreRead(text: string) returns (spellings: seq<string>)
    requires ParseOf(text).Some?
    ensures spellings != [] && AreSpellings(spellings) && IsWritten(spellings, text)
    decreases |text|
  {
    var (name, next) := NextName(text);
    NextBack(text);
    if next == "" {
      spellings := [name];
    } else {
      var others := OnlyChordsAreRead(next);
      spellings := [name] + others;
      assert spellings[1..] == others;
    }
  }

  lemma OneWritten(name: string)
    requires IsKey(name)
    ensures AreSpellings([name]) && IsWritten([name], name) && name != "" && name[0] != '-'
  {
    KeysArePlain(name);
    assert [name][1..] == [] && name[|name|..] == "";
  }

  lemma MinusWritten(name: string, text: string)
    requires AreSpellings([name]) && IsWritten([name], name) && name != "" && name[0] != '-' && text == "-" + name
    ensures AreSpellings(["-", name]) && IsWritten(["-", name], text)
  {
    assert text[1..] == name && ["-", name][1..] == [name];
  }

  lemma MinusMeant(name: string)
    requires name != "" && name[0] != '-'
    ensures Meant(["-", name]) == ["minus", name]
  {
    assert ["-", name][1..] == [name] && [name][1..] == [];
    assert Meant([name]) == [name] && Meant(["-", name]) == ["minus"] + [name];
  }

  /** A dash may be missing: minus and any key, written with a single dash in front of it. */
  lemma DashMayBeMissing(name: string)
    requires IsKey(name)
    ensures ParseOf("-" + name) == Some(["minus", name])
  {
    OneWritten(name);
    MinusWritten(name, "-" + name);
    MinusMeant(name);
    ChordReadBack(["-", name], "-" + name);
  }

  // ----- Keysyms -----

  function KeysymIn(table: map<string, int>, name: string, otherwise: Option<int>): Option<int> {
    if name in table then Some(table[name]) else otherwise
  }

  function KeysymOf(name: string): Option<int> {
    KeysymIn(LETTERS, name, KeysymIn(DIGITS, name, KeysymIn(SIGNS, name,
      KeysymIn(EDITING, name, KeysymIn(MODIFIERS, name, KeysymIn(FUNCTIONS, name, None))))))
  }

  /** Every name in a parsed chord has a keysym: a chord never arrives half typed. */
  lemma {:induction false} ChordsHaveKeysyms(text: string)
    requires NamesOf(text).Some?
    ensures forall i :: 0 <= i < |NamesOf(text).value| ==> KeysymOf(NamesOf(text).value[i]).Some?
    decreases |text|
  {
    if text != "" {
      ChordsHaveKeysyms(NextName(text).1);
    }
  }

  /** What a keysym stands for: letters and digits for themselves, the signs by their characters,
      and the rest by the numbers that X gives them. */
  function KeyOf(keysym: int): string {
    if 'a' as int <= keysym <= 'z' as int || '0' as int <= keysym <= '9' as int then [keysym as char]
    else if keysym < 0x80 then SignOf(keysym)
    else match keysym
      case 0xff0d => "ret"
      case 0xff09 => "tab"
      case 0xff1b => "esc"
      case 0xff08 => "backspace"
      case 0xffff => "delete"
      case 0xff63 => "insert"
      case 0xff50 => "home"
      case 0xff57 => "end"
      case 0xff55 => "pgup"
      case 0xff56 => "pgdn"
      case 0xff51 => "left"
      case 0xff52 => "up"
      case 0xff53 => "right"
      case 0xff54 => "down"
      case 0xffe1 => "shift"
      case 0xffe2 => "shift_r"
      case 0xffe3 => "ctrl"
      case 0xffe4 => "ctrl_r"
      case 0xffe7 => "alt"
      case 0xffe8 => "alt_r"
      case 0xffe9 => "meta_l"
      case 0xffea => "meta_r"
      case 0xffe5 => "caps_lock"
      case 0xffbe => "f1"
      case 0xffbf => "f2"
      case 0xffc0 => "f3"
      case 0xffc1 => "f4"
      case 0xffc2 => "f5"
      case 0xffc3 => "f6"
      case 0xffc4 => "f7"
      case 0xffc5 => "f8"
      case 0xffc6 => "f9"
      case 0xffc7 => "f10"
      case 0xffc8 => "f11"
      case 0xffc9 => "f12"
      case 0xff23 => "henkan"
      case 0xff22 => "muhenkan"
      case 0xff27 => "katakanahiragana"
      case _ => ""
  }

  function SignOf(keysym: int): string {
    if keysym == '-' as int then "minus"
    else if keysym == '=' as int then "equal"
    else if keysym == '[' as int then "bracket_left"
    else if keysym == ']' as int then "bracket_right"
    else if keysym == '\\' as int then "backslash"
    else if keysym == ';' as int then "semicolon"
    else if keysym == '\'' as int then "apostrophe"
    else if keysym == '`' as int then "grave_accent"
    else if keysym == ',' as int then "comma"
    else if keysym == '.' as int then "dot"
    else if keysym == '/' as int then "slash"
    else if keysym == ' ' as int then "spc"
    else ""
  }

  lemma LettersAreThemselves(name: string)
    requires name in LETTERS
    ensures KeyOf(LETTERS[name]) == name
  {
  }

  lemma DigitsAreThemselves(name: string)
    requires name in DIGITS
    ensures KeyOf(DIGITS[name]) == name
  {
  }

  lemma SignsAreTheirCharacters(name: string)
    requires name in SIGNS
    ensures KeyOf(SIGNS[name]) == name
  {
  }

  lemma EditingReadBack(name: string)
    requires name in EDITING
    ensures KeyOf(EDITING[name]) == name
  {
  }

  lemma ModifiersReadBack(name: string)
    requires name in MODIFIERS
    ensures KeyOf(MODIFIERS[name]) == name
  {
  }

  lemma FunctionsReadBack(name: string)
    requires name in FUNCTIONS
    ensures KeyOf(FUNCTIONS[name]) == name
  {
  }

  /** Every key's keysym stands for that key, so no two keys share one. */
  lemma KeysymReadBack(name: string)
    ensures KeysymOf(name).Some? <==> IsKey(name)
    ensures KeysymOf(name).Some? ==> KeyOf(KeysymOf(name).value) == name
  {
    if name in LETTERS {
      LettersAreThemselves(name);
    } else if name in DIGITS {
      DigitsAreThemselves(name);
    } else if name in SIGNS {
      SignsAreTheirCharacters(name);
    } else if name in EDITING {
      EditingReadBack(name);
    } else if name in MODIFIERS {
      ModifiersReadBack(name);
    } else if name in FUNCTIONS {
      FunctionsReadBack(name);
    }
  }

  lemma LetterIsThere(c: char)
    requires 'a' <= c <= 'z'
    ensures [c] in LETTERS || [c] in DIGITS
  {
  }

  lemma DigitIsThere(c: char)
    requires '0' <= c <= '9'
    ensures [c] in LETTERS || [c] in DIGITS
  {
  }

  lemma SignIsThere(keysym: int)
    requires SignOf(keysym) != ""
    ensures SignOf(keysym) in SIGNS
  {
  }

  lemma OtherIsThere(keysym: int)
    requires keysym >= 0x80 && KeyOf(keysym) != ""
    ensures IsKey(KeyOf(keysym))
  {
  }

  /** And every key that a keysym stands for is known. */
  lemma EveryKeyIsThere(keysym: int)
    requires KeyOf(keysym) != ""
    ensures IsKey(KeyOf(keysym))
  {
    if 'a' as int <= keysym <= 'z' as int {
      LetterIsThere(keysym as char);
    } else if '0' as int <= keysym <= '9' as int {
      DigitIsThere(keysym as char);
    } else if keysym < 0x80 {
      SignIsThere(keysym);
    } else {
      OtherIsThere(keysym);
    }
  }
}
