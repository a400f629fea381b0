/** The line that starts a Claude session again (src/restore.ts), and how each kind of
    shell reads it. The readings are partial: a character a shell may do more with
    than pass it on, outside quotes, makes a line unreadable here. */
module Quoting {
  import opened Basics
  import opened ResumeArgs

  datatype Quoting = Cmd | PowerShell | Posix

  function QuotingFor(shell: string): Quoting {
    if shell == "cmd" then Cmd
    else if shell == "powershell" || shell == "pwsh" then PowerShell
    else Posix
  }

  /** Command Prompt and the two PowerShells quote their own way, all other shells alike. */
  lemma ShellsByName(shell: string)
    ensures QuotingFor(shell).Cmd? <==> shell == "cmd"
    ensures QuotingFor(shell).PowerShell? <==> shell in {"powershell", "pwsh"}
  {
  }

  // ---- Characters --------------------------------------------------------------------

  predicate Alnum(c: char) {
    'A' <= c <= 'Z' || 'a' <= c <= 'z' || '0' <= c <= '9'
  }

  predicate Unquotable(c: char) {
    c <= '\U{1F}' || c == '\U{7F}' || c == '"'
  }

  predicate CmdPlain(c: char) {
    Alnum(c) || c == '_' || c == '-' || c == '.' || c == ',' || c == ':' || c == '='
    || c == '/' || c == '\\' || c == '+' || c == '@'
  }

  predicate PowerShellPlain(c: char) {
    Alnum(c) || c == '_' || c == '-' || c == '.' || c == ':' || c == '='
    || c == '/' || c == '\\'
  }

  predicate PosixPlain(c: char) {
    Alnum(c) || c == '_' || c == '-' || c == '.' || c == ',' || c == ':'
    || c == '/' || c == '+' || c == '@'
  }

  /** Plain inside a word only: `=cmd` and `%job` mean something in front. */
  predicate PosixInner(c: char) {
    PosixPlain(c) || c == '=' || c == '%'
  }

  /** In PowerShell the curly single quotes quote as well. */
  predicate PowerShellQuote(c: char) {
    c == '\'' || '\U{2018}' <= c <= '\U{201B}'
  }

  /** White space, as ECMAScript's `\s` has it. */
  predicate White(c: char) {
    '\U{9}' <= c <= '\U{D}' || c == ' ' || c == '\U{A0}' || c == '\U{1680}' || '\U{2000}' <= c <= '\U{200A}'
    || c == '\U{2028}' || c == '\U{2029}' || c == '\U{202F}' || c == '\U{205F}' || c == '\U{3000}' || c == '\U{FEFF}'
  }

  predicate EndsInBackslash(s: string) {
    s != "" && s[|s| - 1] == '\\'
  }

  // ---- Quoting a word ------------------------------------------------------------------

  function Escaped(word: string): string
    decreases |word|
  {
    if word == "" then ""
    else (if word[0] == '\'' then "'\\''" else [word[0]]) + Escaped(word[1..])
  }

  function Doubled(word: string): string
    decreases |word|
  {
    if word == "" then ""
    else (if PowerShellQuote(word[0]) then [word[0], word[0]] else [word[0]]) + Doubled(word[1..])
  }

  function QuoteCmd(word: string): Option<string> {
    if '%' in word then None
    else if word != "" && forall c :: c in word ==> CmdPlain(c) then Some(word)
    else if word == "" then Some("\"\"")
    else if EndsInBackslash(word) then None
    else Some("\"" + word + "\"")
  }

  function QuotePowerShell(word: string, windows: bool): Option<string> {
    if word != "" && forall c :: c in word ==> PowerShellPlain(c) then Some(word)
    else if windows && (word == "" || ((exists c :: c in word && White(c)) && EndsInBackslash(word))) then None
    else Some("'" + Doubled(word) + "'")
  }

  function QuotePosix(word: string): Option<string> {
    if word != "" && PosixPlain(word[0]) && forall c :: c in word[1..] ==> PosixInner(c) then Some(word)
    else Some("'" + Escaped(word) + "'")
  }

  /** What to type for `word` in this shell; None: nothing typed there would be read as it. */
  function Quote(word: string, quoting: Quoting, windows: bool): Option<string> {
    if exists c :: c in word && Unquotable(c) then None
    else match quoting
      case Cmd => QuoteCmd(word)
      case PowerShell => QuotePowerShell(word, windows)
      case Posix => QuotePosix(word)
  }

  /** A word is refused exactly if it has a control character or a double quote; in
      Command Prompt also with a `%`, or when it needs quotes and ends in a backslash;
      in PowerShell on Windows also when empty, or with white space and a backslash at
      its end. A posix shell takes the rest. */
  lemma Refused(word: string, quoting: Quoting, windows: bool)
    ensures Quote(word, quoting, windows).None? <==>
      || (exists c :: c in word && Unquotable(c))
      || (quoting.Cmd? && ('%' in word || (EndsInBackslash(word) && exists c :: c in word && !CmdPlain(c))))
      || (quoting.PowerShell? && windows
          && (word == "" || (EndsInBackslash(word) && exists c :: c in word && White(c))))
  {
    if exists c :: c in word && White(c) {
      var c :| c in word && White(c);
      assert !PowerShellPlain(c);
    }
  }

  // ---- How a shell reads a line ------------------------------------------------------------

  /** Where reading is: in no word, in one, or inside quotes in one. */
  datatype Scan =
    | Between
    | Bare(text: string)
    | Quoted(text: string)
    | Closed(text: string)   // after a quoted word

  function Text(at: Scan): string {
    if at.Between? then "" else at.text
  }

  function Put(word: string, words: Option<seq<string>>): Option<seq<string>> {
    if words.None? then None else Some([word] + words.value)
  }

  predicate Blank(c: char) {
    c == ' ' || c == '\t'
  }

  /** Section 2.2 of the POSIX Shell Command Language: single quotes keep every
      character (2.2.2), a backslash the next one (2.2.1). */
  function PosixWords(line: string, at: Scan): Option<seq<string>>
    decreases |line|
  {
    if line == "" then
      match at
      case Between => Some([])
      case Quoted(_) => None
      case _ => Some([at.text])
    else
      var c, rest := line[0], line[1..];
      if at.Quoted? then PosixWords(rest, if c == '\'' then Bare(at.text) else Quoted(at.text + [c]))
      else if Blank(c) then
        if at.Between? then PosixWords(rest, Between) else Put(at.text, PosixWords(rest, Between))
      else if c == '\'' then PosixWords(rest, Quoted(Text(at)))
      else if c == '\\' then
        if rest == "" || rest[0] == '\n' then None else PosixWords(rest[1..], Bare(Text(at) + [rest[0]]))
      else if PosixPlain(c) || (PosixInner(c) && !at.Between?) then PosixWords(rest, Bare(Text(at) + [c]))
      else None
  }

  /** PowerShell's words: a quoted one ends at a quote that is not doubled. */
  function PowerShellWords(line: string, at: Scan): Option<seq<string>>
    decreases |line|
  {
    if line == "" then
      match at
      case Between => Some([])
      case Quoted(_) => None
      case _ => Some([at.text])
    else
      var c, rest := line[0], line[1..];
      if at.Quoted? then
        if !PowerShellQuote(c) then PowerShellWords(rest, Quoted(at.text + [c]))
        else if rest != "" && PowerShellQuote(rest[0]) then PowerShellWords(rest[1..], Quoted(at.text + [rest[0]]))
        else PowerShellWords(rest, Closed(at.text))
      else if Blank(c) then
        if at.Between? then PowerShellWords(rest, Between) else Put(at.text, PowerShellWords(rest, Between))
      else if at.Between? && PowerShellQuote(c) then PowerShellWords(rest, Quoted(""))
      else if !at.Closed? && PowerShellPlain(c) then PowerShellWords(rest, Bare(Text(at) + [c]))
      else None
  }

  /** Command Prompt passes the line on as it is, unless it finds something of its own
      in it: `%` anywhere, other characters outside double quotes. */
  predicate CmdPassesOn(line: string, quoted: bool)
    decreases |line|
  {
    line == "" ||
    var c := line[0];
    if c == '"' then CmdPassesOn(line[1..], !quoted)
    else c != '%' && (quoted || c == ' ' || CmdPlain(c)) && CmdPassesOn(line[1..], quoted)
  }

  function Backslashes(n: nat): string {
    seq(n, _ => '\\')
  }

  /** How a Windows program splits its command line: blanks part arguments outside
      double quotes, and backslashes escape only in front of a double quote. */
  function Argv(line: string, arg: Option<string>, quoted: bool, slashes: nat): seq<string>
    decreases |line|
  {
    var text := if arg.Some? then arg.value else "";
    if line == "" then (if arg.Some? then [text + Backslashes(slashes)] else [])
    else
      var c, rest := line[0], line[1..];
      if c == '\\' then Argv(rest, Some(text), quoted, slashes + 1)
      else if c == '"' then
        var before := text + Backslashes(slashes / 2);
        if slashes % 2 == 1 then Argv(rest, Some(before + "\""), quoted, 0)
        else if quoted && rest != "" && rest[0] == '"' then Argv(rest[1..], Some(before + "\""), quoted, 0)
        else Argv(rest, Some(before), !quoted, 0)
      else if Blank(c) && !quoted then
        if arg.None? then Argv(rest, None, false, 0)
        else [text + Backslashes(slashes)] + Argv(rest, None, false, 0)
      else Argv(rest, Some(text + Backslashes(slashes) + [c]), quoted, 0)
  }

  /** Windows PowerShell hands a program its words in one line: empty ones are lost, and
      those with white space are put in double quotes. */
  function NativeLine(words: seq<string>): string {
    JoinWords(NativeItems(words))
  }

  function NativeItem(word: string): string {
    if exists c :: c in word && White(c) then "\"" + word + "\"" else word
  }

  function NativeItems(words: seq<string>): seq<string>
    decreases |words|
  {
    if words == [] then []
    else (if words[0] == "" then [] else [NativeItem(words[0])]) + NativeItems(words[1..])
  }

  /** The words a program is started with when `line` is typed. */
  function Words(line: string, quoting: Quoting, windows: bool): Option<seq<string>> {
    match quoting
    case Posix => PosixWords(line, Between)
    case Cmd => if CmdPassesOn(line, false) then Some(Argv(line, None, false, 0)) else None
    case PowerShell =>
      var words := PowerShellWords(line, Between);
      if words.Some? && windows then Some(Argv(NativeLine(words.value), None, false, 0)) else words
  }

  // ---- Posix ---------------------------------------------------------------------------

  /** What follows a word: the end, or a space. */
  predicate Ends(rest: string) {
    rest == "" || rest[0] == ' '
  }

  function PosixAfter(word: string, rest: string): Option<seq<string>> {
    if rest == "" then Some([word]) else Put(word, PosixWords(rest[1..], Between))
  }

  lemma {:induction false} PosixBare(word: string, text: string, rest: string)
    requires Ends(rest) && text != "" && forall c :: c in word ==> PosixInner(c)
    ensures PosixWords(word + rest, Bare(text)) == PosixAfter(text + word, rest)
    decreases |word|
  {
    if word == "" {
      assert word + rest == rest && text + word == text;
    } else {
      assert word[0] in word;
      assert (word + rest)[1..] == word[1..] + rest;
      assert (text + [word[0]]) + word[1..] == text + word;
      PosixBare(word[1..], text + [word[0]], rest);
    }
  }

  /** An escaped quote between two quoted parts. */
  lemma PosixEscape(text: string, more: string)
    ensures PosixWords("'\\''" + more, Quoted(text)) == PosixWords(more, Quoted(text + ['\'']))
  {
    var line := "'\\''" + more;
    var second, third, fourth := line[1..], line[2..], line[3..];
    assert second[1..] == third && third[1..] == fourth && fourth[1..] == more;
    assert PosixWords(line, Quoted(text)) == PosixWords(second, Bare(text));
    assert PosixWords(second, Bare(text)) == PosixWords(fourth, Bare(text + ['\'']));
  }

  lemma {:induction false} PosixQuoted(word: string, text: string, rest: string)
    requires Ends(rest)
    ensures PosixWords(Escaped(word) + "'" + rest, Quoted(text)) == PosixAfter(text + word, rest)
    decreases |word|
  {
    var line := Escaped(word) + "'" + rest;
    if word == "" {
      assert line[1..] == rest && text + word == text;
    } else {
      var c, more := word[0], Escaped(word[1..]) + "'" + rest;
      PosixQuoted(word[1..], text + [c], rest);
      assert (text + [c]) + word[1..] == text + word;
      if c == '\'' {
        assert line == "'\\''" + more;
        PosixEscape(text, more);
      } else {
        assert line == [c] + more;
        assert line[1..] == more;
      }
    }
  }

  lemma PosixReads(word: string, rest: string)
    requires Ends(rest) && QuotePosix(word).Some?
    ensures PosixWords(QuotePosix(word).value + rest, Between) == PosixAfter(word, rest)
  {
    var plain := word != "" && PosixPlain(word[0]) && forall c :: c in word[1..] ==> PosixInner(c);
    var line := QuotePosix(word).value + rest;
    if plain {
      assert line[1..] == word[1..] + rest;
      assert [word[0]] + word[1..] == word;
      assert "" + [word[0]] == [word[0]];
      PosixBare(word[1..], [word[0]], rest);
    } else {
      assert QuotePosix(word).value == "'" + Escaped(word) + "'";
      hide QuotePosix;
      var more := Escaped(word) + "'" + rest;
      assert line == "'" + more;
      hide Escaped;
      assert line[1..] == more;
      PosixQuoted(word, "", rest);
      assert "" + word == word;
    }
  }

  // ---- PowerShell ------------------------------------------------------------------------

  function PowerShellAfter(word: string, rest: string): Option<seq<string>> {
    if rest == "" then Some([word]) else Put(word, PowerShellWords(rest[1..], Between))
  }

  lemma {:induction false} PowerShellBare(word: string, text: string, rest: string)
    requires Ends(rest) && forall c :: c in word ==> PowerShellPlain(c)
    ensures PowerShellWords(word + rest, Bare(text)) == PowerShellAfter(text + word, rest)
    decreases |word|
  {
    if word == "" {
      assert word + rest == rest && text + word == text;
    } else {
      assert word[0] in word;
      assert (word + rest)[1..] == word[1..] + rest;
      assert (text + [word[0]]) + word[1..] == text + word;
      PowerShellBare(word[1..], text + [word[0]], rest);
    }
  }

  lemma {:induction false} PowerShellQuoted(word: string, text: string, rest: string)
    requires Ends(rest)
    ensures PowerShellWords(Doubled(word) + "'" + rest, Quoted(text)) == PowerShellAfter(text + word, rest)
    decreases |word|
  {
    var line := Doubled(word) + "'" + rest;
    if word == "" {
      assert line[1..] == rest && text + word == text;
    } else {
      var c, more := word[0], Doubled(word[1..]) + "'" + rest;
      PowerShellQuoted(word[1..], text + [c], rest);
      assert (text + [c]) + word[1..] == text + word;
      if PowerShellQuote(c) {
        assert line == [c, c] + more;
        assert line[1..][1..] == more;
      } else {
        assert line == [c] + more;
        assert line[1..] == more;
      }
    }
  }

  lemma PowerShellReads(word: string, windows: bool, rest: string)
    requires Ends(rest) && QuotePowerShell(word, windows).Some?
    ensures PowerShellWords(QuotePowerShell(word, windows).value + rest, Between) == PowerShellAfter(word, rest)
  {
    var plain := word != "" && forall c :: c in word ==> PowerShellPlain(c);
    var line := QuotePowerShell(word, windows).value + rest;
    if plain {
      assert word[0] in word;
      assert line[1..] == word[1..] + rest;
      assert [word[0]] + word[1..] == word;
      assert "" + [word[0]] == [word[0]];
      PowerShellBare(word[1..], [word[0]], rest);
    } else {
      assert QuotePowerShell(word, windows).value == "'" + Doubled(word) + "'";
      hide QuotePowerShell;
      var more := Doubled(word) + "'" + rest;
      assert line == "'" + more;
      hide Doubled;
      assert line[1..] == more;
      PowerShellQuoted(word, "", rest);
      assert "" + word == word;
    }
  }

  // ---- Windows command lines --------------------------------------------------------------

  /** An argument as it is: something with nothing in it that splits or quotes. */
  predicate Solid(word: string) {
    word != "" && forall c :: c in word ==> !Blank(c) && c != '"'
  }

  /** One in double quotes, which no backslash may close. */
  predicate Wrappable(word: string) {
    !EndsInBackslash(word) && '"' !in word
  }

  predicate Delivers(item: string, word: string) {
    (item == word && Solid(word)) || (item == "\"" + word + "\"" && Wrappable(word))
  }

  function ArgvAfter(word: string, rest: string): seq<string> {
    if rest == "" then [word] else [word] + Argv(rest[1..], None, false, 0)
  }

  lemma MoreBackslashes(text: string, n: nat, word: string)
    requires word != "" && word[0] == '\\'
    ensures (text + Backslashes(n + 1)) + word[1..] == (text + Backslashes(n)) + word
  {
    assert Backslashes(n + 1) == Backslashes(n) + ['\\'];
    assert word == ['\\'] + word[1..];
  }

  lemma NoBackslashes(text: string)
    ensures text + Backslashes(0) == text
  {
  }

  lemma {:induction false} ArgvSolid(word: string, text: string, slashes: nat, rest: string)
    requires Ends(rest) && forall c :: c in word ==> !Blank(c) && c != '"'
    ensures Argv(word + rest, Some(text), false, slashes) == ArgvAfter((text + Backslashes(slashes)) + word, rest)
    decreases |word|
  {
    var before := text + Backslashes(slashes);
    if word == "" {
      assert word + rest == rest && before + word == before;
    } else {
      var c := word[0];
      assert c in word;
      assert (word + rest)[1..] == word[1..] + rest;
      if c == '\\' {
        ArgvSolid(word[1..], text, slashes + 1, rest);
        MoreBackslashes(text, slashes, word);
      } else {
        ArgvSolid(word[1..], before + [c], 0, rest);
        NoBackslashes(before + [c]);
        assert (before + [c]) + word[1..] == before + word;
      }
    }
    hide Backslashes;
  }

  lemma {:induction false} ArgvWrapped(word: string, text: string, slashes: nat, rest: string)
    requires Ends(rest) && Wrappable(word) && (word == "" ==> slashes == 0)
    ensures Argv(word + "\"" + rest, Some(text), true, slashes) == ArgvAfter((text + Backslashes(slashes)) + word, rest)
    decreases |word|
  {
    var line, before := word + "\"" + rest, text + Backslashes(slashes);
    if word == "" {
      assert line[1..] == rest && before + word == before;
      NoBackslashes(text);
    } else {
      var c := word[0];
      assert c in word;
      assert line[1..] == word[1..] + "\"" + rest;
      if c == '\\' {
        assert word != [c] && Wrappable(word[1..]);
        ArgvWrapped(word[1..], text, slashes + 1, rest);
        MoreBackslashes(text, slashes, word);
      } else {
        ArgvWrapped(word[1..], before + [c], 0, rest);
        NoBackslashes(before + [c]);
        assert (before + [c]) + word[1..] == before + word;
      }
    }
  }

  lemma ArgvReads(item: string, word: string, rest: string)
    requires Ends(rest) && Delivers(item, word)
    ensures Argv(item + rest, None, false, 0) == ArgvAfter(word, rest)
  {
    NoBackslashes("");
    var line := item + rest;
    if item == word && Solid(word) {
      ArgvSolid(word, "", 0, rest);
      assert word[0] in word;
      assert "" + word == word;
    } else {
      assert line[1..] == word + "\"" + rest;
      ArgvWrapped(word, "", 0, rest);
      assert "" + word == word;
    }
  }

  lemma {:induction false} ArgvLine(items: seq<string>, words: seq<string>)
    requires |items| == |words| && forall i :: 0 <= i < |items| ==> Delivers(items[i], words[i])
    ensures Argv(JoinWords(items), None, false, 0) == words
    decreases |items|
  {
    hide Delivers;
    if items != [] {
      var rest := if |items| == 1 then "" else " " + JoinWords(items[1..]);
      assert JoinWords(items) == items[0] + rest by {
        if |items| == 1 {
          assert items[0] + "" == items[0];
        } else {
          assert items[0] + " " + JoinWords(items[1..]) == items[0] + (" " + JoinWords(items[1..]));
        }
      }
      ArgvReads(items[0], words[0], rest);
      assert words == [words[0]] + words[1..];
      if |items| > 1 {
        assert rest[1..] == JoinWords(items[1..]);
        ArgvLine(items[1..], words[1..]);
      } else {
        assert words[1..] == [];
      }
    }
  }

  // ---- A line of words --------------------------------------------------------------------

  /** Each item is how its word is typed. */
  ghost predicate Typed(items: seq<string>, words: seq<string>, quoting: Quoting, windows: bool) {
    && |items| == |words|
    && forall i :: 0 <= i < |items| ==> Quote(words[i], quoting, windows) == Some(items[i])
  }

  /** The rest of a line after its first item. */
  function RestOf(items: seq<string>): (rest: string)
    requires items != []
    ensures Ends(rest) && JoinWords(items) == items[0] + rest
    ensures rest == "" <==> |items| == 1
    ensures |items| > 1 ==> rest[1..] == JoinWords(items[1..])
  {
    if |items| == 1 then
      assert items[0] + "" == items[0];
      ""
    else
      assert items[0] + " " + JoinWords(items[1..]) == items[0] + (" " + JoinWords(items[1..]));
      " " + JoinWords(items[1..])
  }

  lemma {:induction false} PosixLine(items: seq<string>, words: seq<string>, windows: bool)
    requires Typed(items, words, Posix, windows)
    ensures PosixWords(JoinWords(items), Between) == Some(words)
    decreases |items|
  {
    if items != [] {
      var rest := RestOf(items);
      assert Quote(words[0], Posix, windows) == Some(items[0]);
      PosixReads(words[0], rest);
      assert words == [words[0]] + words[1..];
      if |items| > 1 {
        PosixLine(items[1..], words[1..], windows);
      } else {
        assert words == [words[0]];
      }
    } else {
      assert JoinWords(items) == "" && words == [];
    }
  }

  lemma {:induction false} PowerShellLine(items: seq<string>, words: seq<string>, windows: bool)
    requires Typed(items, words, PowerShell, windows)
    ensures PowerShellWords(JoinWords(items), Between) == Some(words)
    decreases |items|
  {
    if items != [] {
      var rest := RestOf(items);
      assert Quote(words[0], PowerShell, windows) == Some(items[0]);
      PowerShellReads(words[0], windows, rest);
      assert words == [words[0]] + words[1..];
      if |items| > 1 {
        PowerShellLine(items[1..], words[1..], windows);
      } else {
        assert words == [words[0]];
      }
    } else {
      assert JoinWords(items) == "" && words == [];
    }
  }

  /** What PowerShell can be made to hand on, it hands on. */
  lemma NativeDelivers(word: string)
    requires Quote(word, PowerShell, true).Some?
    ensures word != "" && Delivers(NativeItem(word), word)
  {
    assert forall c :: c in word ==> !Unquotable(c);
    if exists c :: c in word && White(c) {
      assert Wrappable(word);
    } else {
      assert Solid(word);
    }
  }

  lemma {:induction false} NativeReads(words: seq<string>)
    requires forall w :: w in words ==> Quote(w, PowerShell, true).Some?
    ensures |NativeItems(words)| == |words|
    ensures forall i :: 0 <= i < |words| ==> Delivers(NativeItems(words)[i], words[i])
    decreases |words|
  {
    hide Quote;
    hide NativeItem;
    hide Delivers;
    if words != [] {
      assert words[0] in words;
      NativeDelivers(words[0]);
      NativeReads(words[1..]);
    }
  }

  lemma CmdDelivers(word: string, windows: bool)
    requires Quote(word, Cmd, windows).Some?
    ensures Delivers(Quote(word, Cmd, windows).value, word)
  {
    assert forall c :: c in word ==> !Unquotable(c);
    if word != "" && forall c :: c in word ==> CmdPlain(c) {
      assert Solid(word);
    } else {
      assert Wrappable(word);
      assert "\"" + "" + "\"" == "\"\"";
    }
  }

  lemma {:induction false} CmdReadsBare(word: string, rest: string)
    requires forall c :: c in word ==> CmdPlain(c)
    ensures CmdPassesOn(word + rest, false) == CmdPassesOn(rest, false)
    decreases |word|
  {
    if word == "" {
      assert word + rest == rest;
    } else {
      assert word[0] in word;
      assert (word + rest)[1..] == word[1..] + rest;
      CmdReadsBare(word[1..], rest);
    }
  }

  lemma {:induction false} CmdReadsQuoted(word: string, rest: string)
    requires '%' !in word && '"' !in word
    ensures CmdPassesOn(word + "\"" + rest, true) == CmdPassesOn(rest, false)
    decreases |word|
  {
    var line := word + "\"" + rest;
    if word == "" {
      assert line[1..] == rest;
    } else {
      assert word[0] in word;
      assert line[1..] == word[1..] + "\"" + rest;
      CmdReadsQuoted(word[1..], rest);
    }
  }

  lemma CmdReads(word: string, windows: bool, rest: string)
    requires Quote(word, Cmd, windows).Some?
    ensures CmdPassesOn(Quote(word, Cmd, windows).value + rest, false) == CmdPassesOn(rest, false)
  {
    var item := Quote(word, Cmd, windows).value;
    assert forall c :: c in word ==> !Unquotable(c);
    if word != "" && forall c :: c in word ==> CmdPlain(c) {
      CmdReadsBare(word, rest);
    } else {
      assert "\"" + "" + "\"" == "\"\"";
      assert item == "\"" + word + "\"";
      assert (item + rest)[0] == '"';
      assert (item + rest)[1..] == word + "\"" + rest;
      CmdReadsQuoted(word, rest);
    }
  }

  lemma {:induction false} CmdLine(items: seq<string>, words: seq<string>, windows: bool)
    requires Typed(items, words, Cmd, windows)
    ensures CmdPassesOn(JoinWords(items), false)
    decreases |items|
  {
    if items != [] {
      var rest := RestOf(items);
      assert Quote(words[0], Cmd, windows) == Some(items[0]);
      CmdReads(words[0], windows, rest);
      if |items| > 1 {
        CmdLine(items[1..], words[1..], windows);
        assert rest == [rest[0]] + JoinWords(items[1..]);
      }
    }
    hide Quote;
    hide RestOf;
  }

  /** Whatever the shell, what is typed is what the program gets. */
  lemma LineReads(items: seq<string>, words: seq<string>, quoting: Quoting, windows: bool)
    requires Typed(items, words, quoting, windows)
    ensures Words(JoinWords(items), quoting, windows) == Some(words)
  {
    match quoting
    case Posix => PosixLine(items, words, windows);
    case PowerShell =>
      PowerShellLine(items, words, windows);
      if windows {
        NativeReads(words);
        hide Delivers;
        ArgvLine(NativeItems(words), words);
      }
    case Cmd =>
      CmdLine(items, words, windows);
      forall i | 0 <= i < |items| ensures Delivers(items[i], words[i]) {
        CmdDelivers(words[i], windows);
      }
      hide Delivers;
      ArgvLine(items, words);
  }
}
