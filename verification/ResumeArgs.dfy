/** Which of Claude's arguments a session is resumed with (`resume_args`,
    src-tauri/src/context.rs): the options that say how it runs, one group of words
    each, as they can be typed again. Strings are sequences of characters; an option's
    name and its `=` are plain ASCII, so splitting by bytes comes to the same. */
module ResumeArgs {
  import opened Basics

  /** How many values an option takes. */
  datatype Takes =
    | Nothing
    | Value        // one, which may start with `-`
    | MaybeValue   // the next argument, unless that is an option
    | Values       // the next argument, and all up to the next option

  // Options kept on resume: with no value, by what they are about,
  const PERMISSION_FLAGS: seq<string> := ["--allow-dangerously-skip-permissions", "--dangerously-skip-permissions"]
  const SAFETY_FLAGS: seq<string> := ["--restricted", "--safe-mode"]
  const DISPLAY_FLAGS: seq<string> := ["--ax-screen-reader", "--bare", "--brief", "--verbose"]
  const PROMPT_FLAGS: seq<string> := ["--disable-slash-commands", "--exclude-dynamic-system-prompt-sections"]
  const TOOL_FLAGS: seq<string> := ["--chrome", "--ide", "--no-chrome", "--strict-mcp-config"]
  // with one,
  const MODEL_OPTIONS: seq<string> := ["--agent", "--agents", "--effort", "--fallback-model", "--model"]
  const PROMPT_OPTIONS: seq<string> := [
    "--append-system-prompt", "--append-system-prompt-file", "--system-prompt",
    "--system-prompt-file", "--system-prompt-snapshot"]
  const PERMISSION_OPTIONS: seq<string> := ["--permission-mode", "--permission-prompts"]
  const SETTINGS_OPTIONS: seq<string> := ["--plugin-dir", "--plugin-url", "--setting-sources", "--settings"]
  const SESSION_OPTIONS: seq<string> := ["--autocompact", "--debug-file", "--name", "-n"]
  // with one or none, and with any number.
  const KEEP_MAYBE: seq<string> := [
    "--debug", "-d"]
  const KEEP_MANY: seq<string> := [
    "--add-dir", "--allowed-tools", "--allowedTools", "--betas", "--disallowed-tools", "--disallowedTools",
    "--mcp-config", "--tools"]

  // Options left out, with their values.
  const DROP_ALONE: seq<string> := [
    "--background", "--bg", "--continue", "--fork-session", "--forward-subagent-text", "--help",
    "--include-hook-events", "--include-partial-messages", "--no-session-persistence", "--print",
    "--replay-user-messages", "--tmux", "--version", "-c", "-h", "-p", "-v"]
  const DROP_ONE: seq<string> := [
    "--environment", "--input-format", "--json-schema", "--max-budget-usd", "--output-format",
    "--permission-prompt-tool", "--remote-control-session-name-prefix", "--session-id"]
  const DROP_MAYBE: seq<string> := [
    "--cloud", "--from-pr", "--prompt-suggestions", "--remote-control", "--resume", "--teleport",
    "--worktree", "-r", "-w"]
  const DROP_MANY: seq<string> := [
    "--file"]

  predicate KeepAlone(name: string) {
    || name in PERMISSION_FLAGS || name in SAFETY_FLAGS
    || name in DISPLAY_FLAGS || name in PROMPT_FLAGS || name in TOOL_FLAGS
  }

  predicate KeepOne(name: string) {
    || name in MODEL_OPTIONS || name in PROMPT_OPTIONS || name in PERMISSION_OPTIONS
    || name in SETTINGS_OPTIONS || name in SESSION_OPTIONS
  }

  predicate KeepMaybe(name: string) {
    name in KEEP_MAYBE
  }

  predicate KeepMany(name: string) {
    name in KEEP_MANY
  }

  predicate DropAlone(name: string) {
    name in DROP_ALONE
  }

  predicate DropOne(name: string) {
    name in DROP_ONE
  }

  predicate DropMaybe(name: string) {
    name in DROP_MAYBE
  }

  predicate DropMany(name: string) {
    name in DROP_MANY
  }

  /** The table of options kept, and of those left out. */
  function KeepTakes(name: string): Option<Takes> {
    if KeepAlone(name) then Some(Nothing)
    else if KeepOne(name) then Some(Value)
    else if KeepMaybe(name) then Some(MaybeValue)
    else if KeepMany(name) then Some(Values)
    else None
  }

  function DropTakes(name: string): Option<Takes> {
    if DropAlone(name) then Some(Nothing)
    else if DropOne(name) then Some(Value)
    else if DropMaybe(name) then Some(MaybeValue)
    else if DropMany(name) then Some(Values)
    else None
  }

  predicate Dashed(s: string) {
    s != "" && s[0] == '-'
  }

  /** No control character and no double quote. */
  predicate Typeable(s: string) {
    forall c :: c in s ==> !Control(c) && c != '"'
  }

  predicate Control(c: char) {
    c < ' ' || '\U{7F}' <= c <= '\U{9F}'
  }

  function JoinWords(words: seq<string>): string
    decreases |words|
  {
    if words == [] then ""
    else if |words| == 1 then words[0]
    else words[0] + " " + JoinWords(words[1..])
  }

  /** Where the first `=` is. */
  function FindEquals(s: string): (n: nat)
    ensures n <= |s|
    ensures forall i :: 0 <= i < n ==> s[i] != '='
    ensures n < |s| ==> s[n] == '='
    decreases |s|
  {
    if s == "" || s[0] == '=' then 0 else 1 + FindEquals(s[1..])
  }

  /** A word taken apart at its `=`. */
  datatype Word = Word(name: string, attached: Option<string>)

  function SplitOption(arg: string): Word
    requires |arg| >= 2
  {
    if arg[..2] == "--" then
      var n := FindEquals(arg);
      if n < |arg| then Word(arg[..n], Some(arg[n + 1..])) else Word(arg, None)
    else if |arg| > 2 && arg[1] < '\U{80}' then Word(arg[..2], Some(arg[2..]))
    else Word(arg, None)
  }

  /** The arguments in front that are not options. */
  function Leading(args: seq<string>): (lead: seq<string>)
    ensures lead <= args && forall v :: v in lead ==> !Dashed(v)
    ensures |lead| < |args| ==> Dashed(args[|lead|])
    decreases |args|
  {
    if args == [] || Dashed(args[0]) then [] else [args[0]] + Leading(args[1..])
  }

  /** How many of an option's values are part of its own word. */
  function Own(attached: Option<string>, values: seq<string>): (n: nat)
    ensures n <= |values|
  {
    if attached.Some? && values != [] then 1 else 0
  }

  /** The values an option takes from its own word and from `rest`, the arguments
      after it; none when it cannot be read. */
  function ValuesOf(takes: Takes, attached: Option<string>, kept: bool, rest: seq<string>): (r: Option<seq<string>>)
    ensures r.Some? ==> |r.value| <= |rest| + Own(attached, r.value)
  {
    match (takes, attached)
    case (Nothing, Some(_)) => if kept then None else Some([])
    case (Nothing, None) => Some([])
    case (Values, Some(value)) => Some([value] + Leading(rest))
    case (_, Some(value)) => Some([value])
    case (Value, None) => if rest == [] then None else Some([rest[0]])
    case (Values, None) => if rest == [] then None else Some([rest[0]] + Leading(rest[1..]))
    case (MaybeValue, None) => if rest == [] || Dashed(rest[0]) then Some([]) else Some([rest[0]])
  }

  /** The first group of a command line: kept, or left out as typed; `used` arguments. */
  datatype Group =
    | Kept(words: seq<string>, used: nat)
    | Left(text: string, used: nat)

  function First(args: seq<string>): (g: Group)
    requires args != []
    ensures 0 < g.used <= |args|
  {
    var arg := args[0];
    if arg == "--" then Left(JoinWords(args), |args|)
    else if !Dashed(arg) || arg == "-" then Left(arg, 1)
    else
      var word := SplitOption(arg);
      FirstOption(args, word, KeepTakes(word.name), DropTakes(word.name))
  }

  /** The first group, an option, by the two tables' entries for it. */
  function FirstOption(args: seq<string>, word: Word, keep: Option<Takes>, drop: Option<Takes>): (g: Group)
    requires args != []
    ensures 0 < g.used <= |args|
  {
    var known := if keep.Some? then keep else drop;
    if known.None? then Left(args[0], 1)
    else
      var values := ValuesOf(known.value, word.attached, keep.Some?, args[1..]);
      if values.None? then Left(args[0], 1)
      else
        var own := Own(word.attached, values.value);
        var used := 1 + |values.value| - own;
        if keep.Some? && forall v :: v in values.value ==> Typeable(v) then Kept([word.name] + values.value, used)
        else Left(JoinWords([args[0]] + values.value[own..]), used)
  }

  /** What is kept, group by group, and what is left out. */
  datatype Parsed = Parsed(keep: seq<seq<string>>, dropped: seq<string>)

  function Parse(args: seq<string>): Parsed
    decreases |args|
  {
    if args == [] then Parsed([], [])
    else
      var g := First(args);
      var rest := Parse(args[g.used..]);
      if g.Kept? then Parsed([g.words] + rest.keep, rest.dropped) else Parsed(rest.keep, [g.text] + rest.dropped)
  }

  // ---- The tables ------------------------------------------------------------------

  /** `-x`, or `--` and more. */
  predicate OptionName(name: string) {
    |name| >= 2 && name[0] == '-' && name[1] != '=' && (name[1] == '-' <==> |name| > 2)
  }

  predicate NameFits(name: string) {
    OptionName(name) && Typeable(name)
  }

  lemma PermissionFlagsFit(name: string)
    requires name in PERMISSION_FLAGS
    ensures NameFits(name)
  {
  }

  lemma SafetyFlagsFit(name: string)
    requires name in SAFETY_FLAGS
    ensures NameFits(name)
  {
  }

  lemma DisplayFlagsFit(name: string)
    requires name in DISPLAY_FLAGS
    ensures NameFits(name)
  {
  }

  lemma PromptFlagsFit(name: string)
    requires name in PROMPT_FLAGS
    ensures NameFits(name)
  {
  }

  lemma ToolFlagsFit(name: string)
    requires name in TOOL_FLAGS
    ensures NameFits(name)
  {
  }

  lemma ModelOptionsFit(name: string)
    requires name in MODEL_OPTIONS
    ensures NameFits(name)
  {
  }

  lemma PromptOptionsFit(name: string)
    requires name in PROMPT_OPTIONS
    ensures NameFits(name)
  {
  }

  lemma PermissionOptionsFit(name: string)
    requires name in PERMISSION_OPTIONS
    ensures NameFits(name)
  {
  }

  lemma SettingsOptionsFit(name: string)
    requires name in SETTINGS_OPTIONS
    ensures NameFits(name)
  {
  }

  lemma SessionOptionsFit(name: string)
    requires name in SESSION_OPTIONS
    ensures NameFits(name)
  {
  }

  lemma KeptMaybe(name: string)
    requires KeepMaybe(name)
    ensures NameFits(name)
  {
  }

  lemma KeptMany(name: string)
    requires KeepMany(name)
    ensures NameFits(name)
  {
  }

  lemma KeptAlone(name: string)
    requires KeepAlone(name)
    ensures NameFits(name)
  {
    hide NameFits;
    if name in PERMISSION_FLAGS {
      PermissionFlagsFit(name);
    } else if name in SAFETY_FLAGS {
      SafetyFlagsFit(name);
    } else if name in DISPLAY_FLAGS {
      DisplayFlagsFit(name);
    } else if name in PROMPT_FLAGS {
      PromptFlagsFit(name);
    } else {
      ToolFlagsFit(name);
    }
  }

  lemma KeptOne(name: string)
    requires KeepOne(name)
    ensures NameFits(name)
  {
    hide NameFits;
    if name in MODEL_OPTIONS {
      ModelOptionsFit(name);
    } else if name in PROMPT_OPTIONS {
      PromptOptionsFit(name);
    } else if name in PERMISSION_OPTIONS {
      PermissionOptionsFit(name);
    } else if name in SETTINGS_OPTIONS {
      SettingsOptionsFit(name);
    } else {
      SessionOptionsFit(name);
    }
  }

  lemma KeptName(name: string)
    requires KeepTakes(name).Some?
    ensures OptionName(name) && Typeable(name)
  {
    hide KeepAlone;
    hide KeepOne;
    hide KeepMaybe;
    hide KeepMany;
    if KeepAlone(name) {
      KeptAlone(name);
    } else if KeepOne(name) {
      KeptOne(name);
    } else if KeepMaybe(name) {
      KeptMaybe(name);
    } else {
      KeptMany(name);
    }
  }

  // ---- Groups ------------------------------------------------------------------------

  /** A kept option with as many values as it takes, all fit to be typed. */
  predicate GroupFits(g: seq<string>) {
    && g != [] && OptionName(g[0]) && FindEquals(g[0]) == |g[0]|
    && (forall v :: v in g[1..] ==> Typeable(v))
    && match KeepTakes(g[0])
       case None => false
       case Some(Nothing) => |g| == 1
       case Some(Value) => |g| == 2
       case Some(MaybeValue) => |g| <= 2
       case Some(Values) => |g| >= 2 && forall v :: v in g[2..] ==> !Dashed(v)
  }

  /** A value that may be missing and looks like an option: it can only be typed
      attached (`--debug=-x`), and a group is printed with its values apart. */
  predicate Slips(g: seq<string>) {
    g != [] && KeepTakes(g[0]) == Some(MaybeValue) && |g| == 2 && Dashed(g[1])
  }

  lemma {:induction false} EqualsAfter(s: string, n: nat)
    requires n <= FindEquals(s)
    ensures FindEquals(s[..n]) == n
    decreases n
  {
    if n > 0 {
      assert s[..n][1..] == s[1..][..n - 1];
      EqualsAfter(s[1..], n - 1);
    }
  }

  /** A kept group's name carries no value. */
  lemma NameSplit(arg: string)
    requires |arg| >= 2 && Dashed(arg) && KeepTakes(SplitOption(arg).name).Some?
    ensures var name := SplitOption(arg).name; OptionName(name) && FindEquals(name) == |name|
  {
    hide KeepTakes;
    KeptName(SplitOption(arg).name);
    var name := SplitOption(arg).name;
    if arg[..2] == "--" {
      EqualsAfter(arg, FindEquals(arg));
      assert arg[..|arg|] == arg;
    } else {
      assert |name| == 2 && name[0] == '-' && name[1] != '-';
    }
  }

  lemma KeptFits(args: seq<string>)
    requires args != [] && First(args).Kept?
    ensures GroupFits(First(args).words)
  {
    hide KeepTakes;
    hide DropTakes;
    NameSplit(args[0]);
    hide OptionName;
    hide SplitOption;
  }

  /** Every group kept is one the parser could have kept again, or slips. */
  lemma {:induction false} ParseFits(args: seq<string>)
    ensures forall g :: g in Parse(args).keep ==> GroupFits(g)
    decreases |args|
  {
    hide GroupFits;
    if args != [] {
      var first := First(args);
      if first.Kept? {
        KeptFits(args);
      }
      ParseFits(args[first.used..]);
    }
    hide First;
  }

  // ---- Reading groups again --------------------------------------------------------------

  function Flatten(groups: seq<seq<string>>): seq<string>
    decreases |groups|
  {
    if groups == [] then [] else groups[0] + Flatten(groups[1..])
  }

  lemma {:induction false} LeadingAll(words: seq<string>, rest: seq<string>)
    requires forall v :: v in words ==> !Dashed(v)
    requires rest == [] || Dashed(rest[0])
    ensures Leading(words + rest) == words
    decreases |words|
  {
    if words == [] {
      assert words + rest == rest;
    } else {
      assert (words + rest)[1..] == words[1..] + rest;
      LeadingAll(words[1..], rest);
    }
  }

  /** A group's first word reads as its name. */
  lemma NameReads(name: string)
    requires OptionName(name) && FindEquals(name) == |name|
    ensures SplitOption(name) == Word(name, None) && Dashed(name) && name != "-" && name != "--"
  {
  }

  lemma ValuesAgain(g: seq<string>, rest: seq<string>)
    requires GroupFits(g) && !Slips(g)
    requires rest == [] || Dashed(rest[0])
    ensures ValuesOf(KeepTakes(g[0]).value, None, true, g[1..] + rest) == Some(g[1..])
  {
    hide KeepTakes;
    var after := g[1..] + rest;
    if KeepTakes(g[0]) == Some(Values) {
      assert after[1..] == g[2..] + rest;
      LeadingAll(g[2..], rest);
      assert g[1..] == [g[1]] + g[2..];
    } else if |g| == 2 {
      assert g[1..] == [g[1]];
    } else {
      assert g[1..] == [];
    }
  }

  /** In front of another group or of nothing, a group that does not slip reads as itself. */
  lemma FirstAgain(g: seq<string>, rest: seq<string>)
    requires GroupFits(g) && !Slips(g)
    requires rest == [] || Dashed(rest[0])
    ensures First(g + rest) == Kept(g, |g|)
  {
    hide KeepTakes;
    hide DropTakes;
    ValuesAgain(g, rest);
    hide ValuesOf;
    hide Slips;
    NameReads(g[0]);
    hide OptionName;
    hide SplitOption;
    assert (g + rest)[1..] == g[1..] + rest;
    assert g == [g[0]] + g[1..];
  }

  /** One that slips loses its value. */
  lemma FirstSlips(g: seq<string>, rest: seq<string>)
    requires GroupFits(g) && Slips(g)
    ensures First(g + rest) == Kept([g[0]], 1)
  {
    hide KeepTakes;
    hide DropTakes;
    NameReads(g[0]);
    hide OptionName;
    hide SplitOption;
    assert (g + rest)[1..][0] == g[1];
  }

  /** An option with a value attached: `--model=opus`, `-nwork`. */
  function Attached(name: string, value: string): string
    requires OptionName(name)
  {
    if name[1] == '-' then name + "=" + value else name + value
  }

  lemma AttachedSplits(name: string, value: string)
    requires OptionName(name) && FindEquals(name) == |name| && (name[1] != '-' ==> value != "" && name[1] < '\U{80}')
    ensures SplitOption(Attached(name, value)) == Word(name, Some(value))
    ensures var arg := Attached(name, value); Dashed(arg) && arg != "-" && arg != "--"
  {
    var arg := Attached(name, value);
    assert arg[0] == '-' && arg[1] == name[1];
    if name[1] == '-' {
      assert forall i :: 0 <= i < |name| ==> arg[i] == name[i];
      assert arg[|name|] == '=';
      assert FindEquals(arg) == |name|;
      assert arg[..2] == "--";
      assert arg[..|name|] == name && arg[|name| + 1..] == value;
    } else {
      assert arg[..2] == name && arg[2..] == value;
      assert arg[..2][1] != '-';
    }
  }

  /** A value may as well be attached: it reads as the same group. */
  lemma AttachedReads(g: seq<string>, rest: seq<string>)
    requires GroupFits(g) && |g| >= 2 && (g[0][1] != '-' ==> g[1] != "" && g[0][1] < '\U{80}')
    requires rest == [] || Dashed(rest[0])
    ensures First([Attached(g[0], g[1])] + (g[2..] + rest)) == Kept(g, |g| - 1)
  {
    hide KeepTakes;
    hide DropTakes;
    AttachedSplits(g[0], g[1]);
    hide OptionName;
    hide SplitOption;
    hide Attached;
    var args := [Attached(g[0], g[1])] + (g[2..] + rest);
    assert args[1..] == g[2..] + rest;
    if KeepTakes(g[0]) == Some(Values) {
      LeadingAll(g[2..], rest);
    } else {
      assert g[2..] == [] && g[1..] == [g[1]];
    }
    assert [g[0]] + ([g[1]] + g[2..]) == g;
    assert [g[1]] + g[2..] == g[1..];
    assert ValuesOf(KeepTakes(g[0]).value, Some(g[1]), true, args[1..]) == Some(g[1..]);
  }

  lemma FlattenStarts(groups: seq<seq<string>>)
    requires forall g :: g in groups ==> GroupFits(g)
    ensures Flatten(groups) == [] || Dashed(Flatten(groups)[0])
  {
    if groups != [] {
      var g := groups[0];
      assert GroupFits(g);
      hide KeepTakes;
    }
  }

  lemma ReadOne(g: seq<string>, rest: seq<string>)
    requires GroupFits(g) && (rest == [] || Dashed(rest[0]))
    ensures !Slips(g) ==> Parse(g + rest) == Parsed([g] + Parse(rest).keep, Parse(rest).dropped)
    ensures Slips(g) ==> Parse(g + rest).keep != [] && Parse(g + rest).keep[0] == [g[0]] != g
  {
    if Slips(g) {
      FirstSlips(g, rest);
    } else {
      FirstAgain(g, rest);
      assert (g + rest)[|g|..] == rest;
    }
    assert Slips(g) ==> |g| == 2;
    assert g != [];
    hide First;
    hide GroupFits;
    hide Slips;
  }

  /** Groups typed one after another are read back as they are, with nothing left
      over, just when none of them slips. */
  lemma {:induction false} ReadAgain(groups: seq<seq<string>>)
    requires forall g :: g in groups ==> GroupFits(g)
    ensures (forall g :: g in groups ==> !Slips(g)) ==> Parse(Flatten(groups)) == Parsed(groups, [])
    ensures Parse(Flatten(groups)).keep == groups ==> forall g :: g in groups ==> !Slips(g)
    decreases |groups|
  {
    hide GroupFits;
    hide Slips;
    hide First;
    if groups != [] {
      var g, rest := groups[0], groups[1..];
      FlattenStarts(rest);
      ReadOne(g, Flatten(rest));
      ReadAgain(rest);
      assert groups == [g] + rest;
      var keep := Parse(Flatten(groups)).keep;
      if !Slips(g) && keep == groups {
        assert keep[1..] == rest && keep[1..] == Parse(Flatten(rest)).keep;
      }
    }
  }

  // ---- Nothing is lost ---------------------------------------------------------------------

  /** The arguments of each group, kept or left out. */
  function Pieces(args: seq<string>): seq<seq<string>>
    decreases |args|
  {
    if args == [] then [] else [args[..First(args).used]] + Pieces(args[First(args).used..])
  }

  /** A kept group has the words of its piece, the first two attached to each other or not. */
  predicate FromPiece(words: seq<string>, piece: seq<string>) {
    words == piece
    || (piece != [] && |words| >= 2 && words[2..] == piece[1..]
        && (piece[0] == words[0] + "=" + words[1] || piece[0] == words[0] + words[1]))
  }

  /** Each piece is a kept group, or left out as typed, in order, and there is nothing else. */
  predicate Accounted(pieces: seq<seq<string>>, p: Parsed)
    decreases |pieces|
  {
    if pieces == [] then p == Parsed([], [])
    else
      || (p.keep != [] && FromPiece(p.keep[0], pieces[0]) && Accounted(pieces[1..], Parsed(p.keep[1..], p.dropped)))
      || (p.dropped != [] && p.dropped[0] == JoinWords(pieces[0])
          && Accounted(pieces[1..], Parsed(p.keep, p.dropped[1..])))
  }

  lemma ValuesTaken(takes: Takes, attached: Option<string>, kept: bool, rest: seq<string>)
    ensures var values := ValuesOf(takes, attached, kept, rest);
      values.Some? ==>
        var own := Own(attached, values.value);
        && own <= 1 && |values.value| - own <= |rest| && values.value[own..] == rest[..|values.value| - own]
        && (own == 1 ==> values.value[0] == attached.value)
        && (own == 0 && attached.Some? ==> values.value == [] && !kept)
  {
    var values := ValuesOf(takes, attached, kept, rest);
    if values.Some? && attached.Some? && values.value != [] {
      assert values.value[1..] == if takes == Values then Leading(rest) else [];
    } else if values.Some? && attached.None? && takes == Values {
      assert rest[1..][..|Leading(rest[1..])|] == Leading(rest[1..]);
      assert values.value == rest[..|values.value|];
    }
  }

  lemma WordJoined(arg: string)
    requires |arg| >= 2
    ensures Written(arg, SplitOption(arg))
  {
    var word := SplitOption(arg);
    if word.attached.Some? {
      if arg[..2] == "--" {
        assert arg[|word.name|] == '=';
        assert arg == word.name + "=" + word.attached.value;
      } else {
        assert arg == word.name + word.attached.value;
      }
    }
  }

  lemma FirstFromPiece(args: seq<string>)
    requires args != []
    ensures var g := First(args);
      if g.Kept? then FromPiece(g.words, args[..g.used]) else g.text == JoinWords(args[..g.used])
  {
    hide JoinWords;
    hide KeepTakes;
    hide DropTakes;
    var arg := args[0];
    if arg == "--" {
      assert args[..|args|] == args;
    } else if !Dashed(arg) || arg == "-" {
      LeftAlone(args);
    } else {
      var word := SplitOption(arg);
      WordJoined(arg);
      hide SplitOption;
      OptionFromPiece(args, word, KeepTakes(word.name), DropTakes(word.name));
    }
  }

  lemma LeftAlone(args: seq<string>)
    requires args != []
    ensures JoinWords(args[..1]) == args[0]
  {
    assert args[..1] == [args[0]];
  }

  predicate Written(arg: string, word: Word) {
    if word.attached.None? then word.name == arg
    else arg == word.name + "=" + word.attached.value || arg == word.name + word.attached.value
  }

  /** An option and the values after it are the arguments it used. */
  lemma OptionPiece(args: seq<string>, word: Word, values: seq<string>, own: nat)
    requires args != [] && Written(args[0], word)
    requires own == Own(word.attached, values) && own <= |values| < |args| + own
    requires values[own..] == args[1..][..|values| - own]
    requires own == 1 ==> values[0] == word.attached.value
    ensures [args[0]] + values[own..] == args[..1 + |values| - own]
    ensures own == 1 || word.attached.None? ==> FromPiece([word.name] + values, args[..1 + |values| - own])
  {
    var piece, words := args[..1 + |values| - own], [word.name] + values;
    assert piece == [args[0]] + args[1..][..|values| - own];
    if own == 1 {
      assert words[1] == values[0] && words[2..] == values[1..] && piece[1..] == values[1..];
    } else {
      assert values[0..] == values;
    }
  }

  lemma OptionFromPiece(args: seq<string>, word: Word, keep: Option<Takes>, drop: Option<Takes>)
    requires args != [] && Written(args[0], word)
    ensures var g := FirstOption(args, word, keep, drop);
      if g.Kept? then FromPiece(g.words, args[..g.used]) else g.text == JoinWords(args[..g.used])
  {
    hide JoinWords;
    hide Written;
    hide FromPiece;
    hide Typeable;
    hide ValuesOf;
    hide Own;
    LeftAlone(args);
    var known := if keep.Some? then keep else drop;
    if known.Some? {
      ValuesTaken(known.value, word.attached, keep.Some?, args[1..]);
      var values := ValuesOf(known.value, word.attached, keep.Some?, args[1..]);
      if values.Some? {
        OptionPiece(args, word, values.value, Own(word.attached, values.value));
      }
    }
  }

  /** Every argument is in one group, kept or reported as left out, and in its place. */
  lemma {:induction false} NothingLost(args: seq<string>)
    ensures Flatten(Pieces(args)) == args && Accounted(Pieces(args), Parse(args))
    decreases |args|
  {
    hide First;
    hide FromPiece;
    hide JoinWords;
    if args != [] {
      var g := First(args);
      var rest := args[g.used..];
      FirstFromPiece(args);
      NothingLost(rest);
      assert Pieces(args)[1..] == Pieces(rest) && args == args[..g.used] + rest;
      var p, q := Parse(args), Parse(rest);
      if g.Kept? {
        assert p.keep[1..] == q.keep;
      } else {
        assert p.dropped[1..] == q.dropped;
      }
    }
  }

  /** What follows `--` is the prompt: left out whole, whatever it looks like. */
  lemma {:induction false} PromptLeftOut(groups: seq<seq<string>>, prompt: seq<string>)
    requires forall g :: g in groups ==> GroupFits(g) && !Slips(g)
    ensures Parse(Flatten(groups) + (["--"] + prompt)) == Parsed(groups, [JoinWords(["--"] + prompt)])
    decreases |groups|
  {
    hide GroupFits;
    hide Slips;
    hide JoinWords;
    var end := ["--"] + prompt;
    if groups == [] {
      assert Flatten(groups) + end == end;
      assert First(end) == Left(JoinWords(end), |end|);
      assert end[|end|..] == [];
      hide First;
    } else {
      hide First;
      var g, rest := groups[0], groups[1..];
      PromptLeftOut(rest, prompt);
      var more := Flatten(rest) + end;
      FlattenStarts(rest);
      if Flatten(rest) == [] {
        assert more == end;
      }
      ReadOne(g, more);
      Associate(g, Flatten(rest), end);
      assert groups == [g] + rest;
    }
  }

  // ---- The options -------------------------------------------------------------------------

  lemma ModelFits(model: string)
    requires Typeable(model)
    ensures GroupFits(["--model", model]) && !Slips(["--model", model])
  {
    hide KeepAlone;
    hide KeepOne;
    hide OptionName;
    hide FindEquals;
    hide Typeable;
    ModelTakes();
    NameIsPlain("--model");
    assert ["--model", model][1..] == [model];
  }

  lemma ModelTakes()
    ensures !KeepAlone("--model") && KeepOne("--model")
  {
  }

  lemma VerboseTakes()
    ensures KeepAlone("--verbose")
  {
  }

  lemma VerboseFits()
    ensures GroupFits(["--verbose"]) && !Slips(["--verbose"])
  {
    hide KeepAlone;
    hide OptionName;
    hide FindEquals;
    hide KeepOne;
    hide KeepMaybe;
    hide KeepMany;
    VerboseTakes();
    NameIsPlain("--verbose");
    assert ["--verbose"][1..] == [];
  }

  lemma FoldersTake()
    ensures !KeepAlone("--add-dir") && !KeepOne("--add-dir") && !KeepMaybe("--add-dir") && KeepMany("--add-dir")
  {
  }

  lemma FoldersFit(folder: string, folders: seq<string>)
    requires Typeable(folder) && forall f :: f in folders ==> Typeable(f) && !Dashed(f)
    ensures GroupFits(["--add-dir", folder] + folders) && !Slips(["--add-dir", folder] + folders)
  {
    hide KeepAlone;
    hide KeepOne;
    hide KeepMaybe;
    hide KeepMany;
    hide OptionName;
    hide FindEquals;
    hide Typeable;
    hide Dashed;
    FoldersTake();
    NameIsPlain("--add-dir");
    var g := ["--add-dir", folder] + folders;
    assert g[1..] == [folder] + folders && g[2..] == folders;
  }

  /** The options that say which session to open, and those of a run that is not one. */
  const NOT_RESUMED: seq<string> := [
    "--resume", "-r", "--continue", "-c", "--session-id", "--fork-session", "--from-pr", "--teleport",
    "--print", "-p", "--output-format", "--background", "--bg", "--worktree", "-w"]

  lemma NotKeptAlone(name: string)
    requires name in NOT_RESUMED
    ensures !KeepAlone(name)
  {
  }

  lemma NotKeptOne(name: string)
    requires name in NOT_RESUMED
    ensures !KeepOne(name)
  {
  }

  lemma NotKeptMany(name: string)
    requires name in NOT_RESUMED
    ensures !KeepMaybe(name) && !KeepMany(name)
  {
  }

  /** No group that is kept says which session to open, or starts another kind of run. */
  lemma NeverKept(args: seq<string>, g: seq<string>)
    requires g in Parse(args).keep
    ensures g != [] && g[0] !in NOT_RESUMED
  {
    hide KeepAlone;
    hide KeepOne;
    hide KeepMaybe;
    hide KeepMany;
    ParseFits(args);
    hide Parse;
    assert GroupFits(g);
    var name := g[0];
    if name in NOT_RESUMED {
      NotKeptAlone(name);
      NotKeptOne(name);
      NotKeptMany(name);
    }
  }

  /** How Claude runs is kept: a model, a flag, any number of folders. */
  lemma KeepsHowClaudeRuns(model: string, folder: string, folders: seq<string>)
    requires Typeable(model) && Typeable(folder) && forall f :: f in folders ==> Typeable(f) && !Dashed(f)
    ensures Parse(["--model", model] + (["--verbose"] + (["--add-dir", folder] + folders)))
         == Parsed([["--model", model], ["--verbose"], ["--add-dir", folder] + folders], [])
  {
    ModelFits(model);
    VerboseFits();
    FoldersFit(folder, folders);
    hide *;
    ThreeGroups(["--model", model], ["--verbose"], ["--add-dir", folder] + folders);
  }

  lemma NameIsPlain(name: string)
    requires |name| > 2 && name[..2] == "--" && '=' !in name
    ensures OptionName(name) && FindEquals(name) == |name|
  {
    assert name[0] == name[..2][0] && name[1] == name[..2][1];
  }

  lemma ThreeGroups(a: seq<string>, b: seq<string>, c: seq<string>)
    requires GroupFits(a) && GroupFits(b) && GroupFits(c) && !Slips(a) && !Slips(b) && !Slips(c)
    ensures Parse(a + (b + c)) == Parsed([a, b, c], [])
  {
    hide GroupFits;
    hide Slips;
    var groups := [a, b, c];
    assert groups[1..] == [b, c] && [b, c][1..] == [c] && [c][1..] == [];
    assert Flatten([c]) == c + [] == c;
    assert Flatten(groups) == a + (b + c);
    ReadAgain(groups);
    hide Parse;
  }

  // ---- Resuming -------------------------------------------------------------------------

  lemma NotAlone()
    ensures !KeepAlone("--resume") && !KeepAlone("--debug") && !DropAlone("--resume")
  {
  }

  lemma NotOne()
    ensures !KeepOne("--resume") && !KeepOne("--debug") && !DropOne("--resume")
  {
  }

  lemma NotMany()
    ensures !KeepMany("--resume")
  {
  }

  lemma MaybeOne()
    ensures !KeepMaybe("--resume") && KeepMaybe("--debug") && DropMaybe("--resume")
  {
  }

  lemma ResumeAndDebug()
    ensures KeepTakes("--resume") == None && DropTakes("--resume") == Some(MaybeValue)
    ensures KeepTakes("--debug") == Some(MaybeValue)
  {
    NotAlone();
    NotOne();
    NotMany();
    MaybeOne();
    hide KeepAlone;
    hide KeepOne;
    hide KeepMaybe;
    hide KeepMany;
    hide DropAlone;
    hide DropOne;
    hide DropMaybe;
    hide DropMany;
  }

  lemma ResumeReads(id: string)
    ensures SplitOption("--resume") == Word("--resume", None)
    ensures JoinWords(["--resume", id]) == "--resume " + id
  {
    assert ["--resume", id][1..] == [id];
    assert "--resume" + " " == "--resume ";
  }

  lemma FirstResume(id: string, rest: seq<string>)
    requires !Dashed(id)
    ensures First(["--resume", id] + rest) == Left("--resume " + id, 2)
  {
    ResumeAndDebug();
    hide KeepTakes;
    hide DropTakes;
    ResumeReads(id);
    hide SplitOption;
    hide JoinWords;
    var args := ["--resume", id] + rest;
    assert args[1..] == [id] + rest;
    assert args[0] == "--resume";
    assert ["--resume"] + [id] == ["--resume", id];
  }

  /** What Claude is started with again: `--resume <id>`, unless the conversation was
      never saved, and the groups. */
  function ResumeWords(resumable: bool, id: string, groups: seq<seq<string>>): seq<string> {
    (if resumable then ["--resume", id] else []) + Flatten(groups)
  }

  /** Those words are read as the same groups, with only `--resume <id>` left out,
      just when no group slips. */
  lemma Restored(resumable: bool, id: string, groups: seq<seq<string>>)
    requires !Dashed(id)
    requires forall g :: g in groups ==> GroupFits(g)
    ensures var p := Parse(ResumeWords(resumable, id, groups));
      && (p.keep == groups <==> forall g :: g in groups ==> !Slips(g))
      && (p.keep == groups ==> p.dropped == if resumable then ["--resume " + id] else [])
  {
    var words := ResumeWords(resumable, id, groups);
    ReadAgain(groups);
    if resumable {
      FirstResume(id, Flatten(groups));
      assert words[2..] == Flatten(groups);
    } else {
      assert words == Flatten(groups);
    }
    hide First;
    hide GroupFits;
    hide Slips;
  }

  lemma DebugSplits(value: string)
    ensures SplitOption("--debug=" + value) == Word("--debug", Some(value))
  {
    var arg := "--debug=" + value;
    assert arg[7] == '=';
    assert FindEquals(arg) == 7;
    assert arg[..7] == "--debug" && arg[8..] == value;
  }

  /** `--debug=-x` is kept, and printed apart it is no longer read as one option. */
  lemma AttachedDashSlips(value: string)
    requires Typeable(value) && Dashed(value)
    ensures Parse(["--debug=" + value]).keep == [["--debug", value]]
    ensures Parse(["--debug", value]).keep != [["--debug", value]]
  {
    var arg := "--debug=" + value;
    var group := ["--debug", value];
    ResumeAndDebug();
    hide KeepTakes;
    hide DropTakes;
    DebugSplits(value);
    hide SplitOption;
    assert arg[0] == '-' && arg[1] == '-' && |arg| > 2;
    assert ["--debug"] + [value] == group;
    assert First([arg]) == Kept(group, 1);
    KeptFits([arg]);
    hide First;
    assert Slips(group);
    assert Flatten([group]) == group by {
      assert [group][1..] == [];
      assert group + [] == group;
    }
    ReadAgain([group]);
    assert group in [group];
    hide GroupFits;
    hide Slips;
  }

  // ---- The loop -------------------------------------------------------------------------

  /** The values of the option before argument `at`, and where the next group starts. */
  method TakeValues(args: seq<string>, at: nat, takes: Takes, attached: Option<string>, kept: bool)
    returns (ok: bool, values: seq<string>, next: nat)
    requires at <= |args|
    ensures (if ok then Some(values) else None) == ValuesOf(takes, attached, kept, args[at..])
    ensures ok ==> next == at + |values| - Own(attached, values)
  {
    ok, values, next := true, [], at;
    if takes.Nothing? {
      ok := attached.None? || !kept;
      return;
    }
    if attached.Some? {
      values := [attached.value];
    } else if takes.Value? || takes.Values? {
      if at == |args| {
        ok := false;
        return;
      }
      values, next := [args[at]], at + 1;
    } else if at < |args| && !Dashed(args[at]) {
      values, next := [args[at]], at + 1;
    }
    if takes.Values? {
      assert attached.None? ==> args[at..][1..] == args[next..];
      var more := TakeLeading(args, next);
      values, next := values + more, next + |more|;
    }
  }

  /** The arguments from `at` on, up to the next option. */
  method TakeLeading(args: seq<string>, at: nat) returns (more: seq<string>)
    requires at <= |args|
    ensures more == Leading(args[at..])
  {
    var i := at;
    more := [];
    while i < |args| && !Dashed(args[i])
      invariant at <= i <= |args|
      invariant more == args[at..i] && forall v :: v in more ==> !Dashed(v)
    {
      more, i := more + [args[i]], i + 1;
    }
    assert args[at..] == more + args[i..];
    LeadingAll(more, args[i..]);
  }

  /** One turn of the loop: the group at argument `i`. */
  method ReadGroup(args: seq<string>, i: nat) returns (g: Group)
    requires i < |args|
    ensures g == First(args[i..])
  {
    hide KeepTakes;
    hide DropTakes;
    hide SplitOption;
    hide JoinWords;
    hide ValuesOf;
    var arg := args[i];
    assert args[i..][1..] == args[i + 1..];
    if arg == "--" {
      return Left(JoinWords(args[i..]), |args| - i);
    }
    if !Dashed(arg) || arg == "-" {
      return Left(arg, 1);
    }
    var word := SplitOption(arg);
    var keeps, drops := KeepTakes(word.name), DropTakes(word.name);
    if keeps.None? && drops.None? {
      return Left(arg, 1);
    }
    var takes := if keeps.Some? then keeps.value else drops.value;
    var ok, values, next := TakeValues(args, i + 1, takes, word.attached, keeps.Some?);
    if !ok {
      return Left(arg, 1);
    }
    if keeps.Some? && forall v :: v in values ==> Typeable(v) {
      return Kept([word.name] + values, next - i);
    }
    return Left(JoinWords([arg] + values[Own(word.attached, values)..]), next - i);
  }

  /** `resume_args`. */
  method ResumeArguments(args: seq<string>) returns (keep: seq<seq<string>>, dropped: seq<string>)
    ensures Parsed(keep, dropped) == Parse(args)
  {
    hide First;
    keep, dropped := [], [];
    var i := 0;
    assert args[0..] == args;
    while i < |args|
      invariant 0 <= i <= |args|
      invariant Parse(args) == Before(keep, dropped, Parse(args[i..]))
    {
      var g := ReadGroup(args, i);
      assert args[i..][g.used..] == args[i + g.used..];
      ghost var rest := Parse(args[i + g.used..]);
      if g.Kept? {
        assert (keep + [g.words]) + rest.keep == keep + ([g.words] + rest.keep);
        keep := keep + [g.words];
      } else {
        assert (dropped + [g.text]) + rest.dropped == dropped + ([g.text] + rest.dropped);
        dropped := dropped + [g.text];
      }
      i := i + g.used;
    }
  }

  function Before(keep: seq<seq<string>>, dropped: seq<string>, rest: Parsed): Parsed {
    Parsed(keep + rest.keep, dropped + rest.dropped)
  }
}
