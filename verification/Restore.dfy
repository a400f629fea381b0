/** Starting a Claude session again: the line typed (`claudeLine`, src/restore.ts) and
    the arguments found in it when the session is saved next (`resume_args`,
    src-tauri/src/context.rs). */
module Restore {
  import opened Basics
  import opened Quoting
  import opened ResumeArgs

  predicate Hex(c: char) {
    '0' <= c <= '9' || 'a' <= c <= 'f' || 'A' <= c <= 'F'
  }

  /** What a saved session's id looks like. */
  predicate Uuid(id: string) {
    && |id| == 36
    && forall i :: 0 <= i < 36 ==> if i == 8 || i == 13 || i == 18 || i == 23 then id[i] == '-' else Hex(id[i])
  }

  /** Whether a group can be typed in this shell. */
  predicate CanType(words: seq<string>, quoting: Quoting, windows: bool) {
    forall w :: w in words ==> Quote(w, quoting, windows).Some?
  }

  /** The groups that can be typed, and those left out, as typed. */
  function Shown(groups: seq<seq<string>>, quoting: Quoting, windows: bool): (shown: seq<seq<string>>)
    ensures forall g :: g in shown ==> g in groups && CanType(g, quoting, windows)
    decreases |groups|
  {
    if groups == [] then []
    else (if CanType(groups[0], quoting, windows) then [groups[0]] else []) + Shown(groups[1..], quoting, windows)
  }

  function NotShown(groups: seq<seq<string>>, quoting: Quoting, windows: bool): seq<string>
    decreases |groups|
  {
    if groups == [] then []
    else (if CanType(groups[0], quoting, windows) then [] else [JoinWords(groups[0])])
         + NotShown(groups[1..], quoting, windows)
  }

  lemma PlainWord(word: string, quoting: Quoting, windows: bool)
    requires word != "" && forall c :: c in word ==> Alnum(c) || c == '-'
    ensures Quote(word, quoting, windows) == Some(word)
  {
    assert word[0] in word;
  }

  lemma UuidPlain(id: string)
    requires Uuid(id)
    ensures !Dashed(id) && id != "" && forall c :: c in id ==> Alnum(c) || c == '-'
  {
  }

  lemma TypedTogether(a: seq<string>, b: seq<string>, v: seq<string>, w: seq<string>, quoting: Quoting, windows: bool)
    requires Typed(a, v, quoting, windows) && Typed(b, w, quoting, windows)
    ensures Typed(a + b, v + w, quoting, windows)
  {
    hide Quote;
  }

  /** An option's words as typed, if all of them can be. */
  function Items(option: seq<string>, quoting: Quoting, windows: bool): Option<seq<string>>
    decreases |option|
  {
    if option == [] then Some([])
    else
      var first, rest := Quote(option[0], quoting, windows), Items(option[1..], quoting, windows);
      if first.Some? && rest.Some? then Some([first.value] + rest.value) else None
  }

  lemma {:induction false} ItemsTyped(option: seq<string>, quoting: Quoting, windows: bool)
    ensures Items(option, quoting, windows).Some? <==> CanType(option, quoting, windows)
    ensures var items := Items(option, quoting, windows); items.Some? ==> Typed(items.value, option, quoting, windows)
    decreases |option|
  {
    hide Quote;
    if option != [] {
      ItemsTyped(option[1..], quoting, windows);
      assert forall w :: w in option <==> w == option[0] || w in option[1..];
    }
  }

  /** Turning to the option `i`. */
  lemma ShownFrom(args: seq<seq<string>>, i: nat, quoting: Quoting, windows: bool)
    requires i < |args|
    ensures var can := CanType(args[i], quoting, windows);
      && Flatten(Shown(args[i..], quoting, windows))
         == (if can then args[i] else []) + Flatten(Shown(args[i + 1..], quoting, windows))
      && NotShown(args[i..], quoting, windows)
         == (if can then [] else [JoinWords(args[i])]) + NotShown(args[i + 1..], quoting, windows)
  {
    hide CanType;
    assert args[i..][1..] == args[i + 1..];
    var rest := Shown(args[i + 1..], quoting, windows);
    var left := NotShown(args[i + 1..], quoting, windows);
    assert ([args[i]] + rest)[1..] == rest;
    assert [] + rest == rest && [] + Flatten(rest) == Flatten(rest) && [] + left == left;
  }

  /** What the loop has typed so far, what that is to be read as, and what it left. */
  datatype Line = Line(typed: seq<string>, intended: seq<string>, left: seq<string>) {
    /** The options from `i` on carry it on to the whole. */
    ghost predicate UpTo(start: seq<string>, args: seq<seq<string>>, i: nat, quoting: Quoting, windows: bool)
      requires i <= |args|
    {
      && Typed(typed, intended, quoting, windows)
      && start + Flatten(Shown(args, quoting, windows)) == intended + Flatten(Shown(args[i..], quoting, windows))
      && NotShown(args, quoting, windows) == left + NotShown(args[i..], quoting, windows)
    }

    lemma Takes(start: seq<string>, args: seq<seq<string>>, i: nat, items: seq<string>, quoting: Quoting, windows: bool)
      requires i < |args| && UpTo(start, args, i, quoting, windows)
      requires CanType(args[i], quoting, windows) && Typed(items, args[i], quoting, windows)
      ensures Line(typed + items, intended + args[i], left).UpTo(start, args, i + 1, quoting, windows)
    {
      ShownFrom(args, i, quoting, windows);
      TypedTogether(typed, items, intended, args[i], quoting, windows);
      hide *;
      var shown, rest := Flatten(Shown(args[i + 1..], quoting, windows)), NotShown(args[i + 1..], quoting, windows);
      Associate(intended, args[i], shown);
      assert [] + rest == rest;
    }

    lemma Leaves(start: seq<string>, args: seq<seq<string>>, i: nat, quoting: Quoting, windows: bool)
      requires i < |args| && UpTo(start, args, i, quoting, windows) && !CanType(args[i], quoting, windows)
      ensures Line(typed, intended, left + [JoinWords(args[i])]).UpTo(start, args, i + 1, quoting, windows)
    {
      ShownFrom(args, i, quoting, windows);
      var shown, rest := Flatten(Shown(args[i + 1..], quoting, windows)), NotShown(args[i + 1..], quoting, windows);
      assert [] + shown == shown;
      Associate(left, [JoinWords(args[i])], rest);
      hide *;
    }

    lemma Ends(start: seq<string>, args: seq<seq<string>>, quoting: Quoting, windows: bool)
      requires UpTo(start, args, |args|, quoting, windows)
      ensures Typed(typed, start + Flatten(Shown(args, quoting, windows)), quoting, windows)
      ensures left == NotShown(args, quoting, windows)
    {
      assert args[|args|..] == [];
      NoneLeft(args[|args|..], quoting, windows);
      assert intended + [] == intended && left + [] == left;
    }
  }

  /** `claudeLine`: read by the shell it is for, the line is `claude`, `--resume <id>` if
      there is something to resume, and word for word the options that can be typed. */
  method ClaudeLine(resumable: bool, id: string, args: seq<seq<string>>, shell: string, windows: bool)
    returns (line: string, left: seq<string>)
    requires Uuid(id)
    ensures Words(line, QuotingFor(shell), windows)
         == Some(["claude"] + ResumeWords(resumable, id, Shown(args, QuotingFor(shell), windows)))
    ensures left == NotShown(args, QuotingFor(shell), windows)
  {
    var quoting := QuotingFor(shell);
    hide Words;
    hide Typed;
    hide Shown;
    hide NotShown;
    hide Flatten;
    hide ResumeWords;
    hide Line.UpTo;
    hide QuotingFor;
    var start := ["claude"];
    if resumable {
      start := start + ["--resume", id];
    }
    Start(resumable, id, args, quoting, windows);
    var words;
    words, left := TypeOptions(start, args, quoting, windows);
    LineReads(words, start + Flatten(Shown(args, quoting, windows)), quoting, windows);
    line := JoinWords(words);
  }

  /** Its loop over the options. */
  method TypeOptions(start: seq<string>, args: seq<seq<string>>, quoting: Quoting, windows: bool)
    returns (words: seq<string>, left: seq<string>)
    requires Line(start, start, []).UpTo(start, args, 0, quoting, windows)
    ensures Typed(words, start + Flatten(Shown(args, quoting, windows)), quoting, windows)
    ensures left == NotShown(args, quoting, windows)
  {
    hide *;
    words, left := start, [];
    ghost var intended := start;
    var i := 0;
    while i < |args|
      invariant 0 <= i <= |args|
      invariant Line(words, intended, left).UpTo(start, args, i, quoting, windows)
    {
      var items := Items(args[i], quoting, windows);
      ItemsTyped(args[i], quoting, windows);
      if items.Some? {
        Line(words, intended, left).Takes(start, args, i, items.value, quoting, windows);
        words, intended := words + items.value, intended + args[i];
      } else {
        Line(words, intended, left).Leaves(start, args, i, quoting, windows);
        left := left + [JoinWords(args[i])];
      }
      i := i + 1;
    }
    Line(words, intended, left).Ends(start, args, quoting, windows);
  }

  lemma NoneLeft(args: seq<seq<string>>, quoting: Quoting, windows: bool)
    requires args == []
    ensures Flatten(Shown(args, quoting, windows)) == [] && NotShown(args, quoting, windows) == []
  {
  }

  /** The words before the options, none of which has been looked at. */
  lemma Start(resumable: bool, id: string, args: seq<seq<string>>, quoting: Quoting, windows: bool)
    requires Uuid(id)
    ensures var start := if resumable then ["claude"] + ["--resume", id] else ["claude"];
      && Line(start, start, []).UpTo(start, args, 0, quoting, windows)
      && start + Flatten(Shown(args, quoting, windows))
         == ["claude"] + ResumeWords(resumable, id, Shown(args, quoting, windows))
  {
    var start := if resumable then ["claude"] + ["--resume", id] else ["claude"];
    StartTyped(resumable, id, quoting, windows);
    NoneYet(start, args, quoting, windows);
    hide *;
    StartWords(resumable, id, Shown(args, quoting, windows));
  }

  lemma StartWords(resumable: bool, id: string, shown: seq<seq<string>>)
    ensures (if resumable then ["claude"] + ["--resume", id] else ["claude"]) + Flatten(shown)
         == ["claude"] + ResumeWords(resumable, id, shown)
  {
    hide Flatten;
    Associate(["claude"], ["--resume", id], Flatten(shown));
  }

  lemma NoneYet(start: seq<string>, args: seq<seq<string>>, quoting: Quoting, windows: bool)
    requires Typed(start, start, quoting, windows)
    ensures Line(start, start, []).UpTo(start, args, 0, quoting, windows)
  {
    hide Typed;
    hide Shown;
    hide NotShown;
    hide Flatten;
    assert args[0..] == args && [] + NotShown(args, quoting, windows) == NotShown(args, quoting, windows);
  }

  lemma StartTyped(resumable: bool, id: string, quoting: Quoting, windows: bool)
    requires Uuid(id)
    ensures var words := if resumable then ["claude"] + ["--resume", id] else ["claude"];
      Typed(words, words, quoting, windows)
  {
    UuidPlain(id);
    PlainWord(id, quoting, windows);
    PlainWord("claude", quoting, windows);
    PlainWord("--resume", quoting, windows);
    hide Quote;
  }

  // ---- Restoring again and again -----------------------------------------------------------

  /** Typing the line for what Claude was started with, and reading back the arguments
      it is then started with, gives the same groups (those this shell can take), with
      only `--resume <id>` left out, just when none of them slips. */
  method RestoreOnce(args: seq<string>, resumable: bool, id: string, shell: string, windows: bool)
    returns (again: seq<seq<string>>, dropped: seq<string>)
    requires Uuid(id)
    ensures var shown := Shown(Parse(args).keep, QuotingFor(shell), windows);
      && (again == shown <==> forall g :: g in shown ==> !Slips(g))
      && (again == shown ==> dropped == if resumable then ["--resume " + id] else [])
  {
    var keep, others := ResumeArguments(args);
    var line, left := ClaudeLine(resumable, id, keep, shell, windows);
    ghost var shown := Shown(keep, QuotingFor(shell), windows);
    ParseFits(args);
    UuidPlain(id);
    Restored(resumable, id, shown);
    hide GroupFits;
    hide Slips;
    hide Shown;
    hide ResumeWords;
    hide Parse;
    hide Words;
    var words := Words(line, QuotingFor(shell), windows).value;
    assert words[1..] == ResumeWords(resumable, id, shown);
    again, dropped := ResumeArguments(words[1..]);
  }

  lemma {:induction false} ShownAll(groups: seq<seq<string>>, quoting: Quoting, windows: bool)
    requires forall g :: g in groups ==> CanType(g, quoting, windows)
    ensures Shown(groups, quoting, windows) == groups
    decreases |groups|
  {
    hide CanType;
    if groups != [] {
      ShownAll(groups[1..], quoting, windows);
      assert groups == [groups[0]] + groups[1..];
    }
  }

  /** The options never drift: what a restored session is saved with is typed again as
      it is, in every restore after the first. */
  lemma NoDrift(args: seq<string>, resumable: bool, id: string, quoting: Quoting, windows: bool)
    requires Uuid(id)
    requires forall g :: g in Parse(args).keep ==> !Slips(g)
    ensures var shown := Shown(Parse(args).keep, quoting, windows);
      var again := Parse(ResumeWords(resumable, id, shown)).keep;
      again == shown && Shown(again, quoting, windows) == shown
  {
    var shown := Shown(Parse(args).keep, quoting, windows);
    ParseFits(args);
    UuidPlain(id);
    Restored(resumable, id, shown);
    ShownAll(shown, quoting, windows);
    hide Shown;
    hide GroupFits;
    hide Slips;
  }

  lemma PosixTakes(group: seq<string>, windows: bool)
    requires GroupFits(group)
    ensures CanType(group, Posix, windows)
  {
    KeptName(group[0]);
    hide KeepTakes;
    hide QuotePosix;
    forall w | w in group ensures Quote(w, Posix, windows).Some? {
      assert Typeable(w);
    }
  }

  /** A posix shell takes everything that was kept. */
  lemma PosixTakesAll(args: seq<string>, windows: bool)
    ensures Shown(Parse(args).keep, Posix, windows) == Parse(args).keep
  {
    ParseFits(args);
    hide Parse;
    hide GroupFits;
    hide CanType;
    hide Shown;
    var keep := Parse(args).keep;
    forall g | g in keep ensures CanType(g, Posix, windows) {
      PosixTakes(g, windows);
    }
    ShownAll(keep, Posix, windows);
  }
}
