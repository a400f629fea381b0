/** The filter as src/dimfix.ts writes it: fields updated in place, index loops
    and outputs pushed piece by piece. Its methods are proved to compute
    `Rewrite` and `Feed`, whose properties are proved beside them. */
module SgrDimFiltering {
  import opened Basics
  import opened SgrParams
  import opened SgrDim
  import opened SgrStream

  class SgrDimFilter {
    const grey: Grey
    var carry: string
    var foregroundIsDefault: bool
    var dimActive: bool
    var dimReplacementActive: bool

    function Fields(): Filter
      reads this
    {
      Filter(foregroundIsDefault, dimActive, dimReplacementActive)
    }

    function Now(): State
      reads this
    {
      State(carry, Fields())
    }

    constructor (grey: Grey)
      ensures Now() == Start && this.grey == grey
    {
      this.grey := grey;
      carry := "";
      foregroundIsDefault := true;
      dimActive := false;
      dimReplacementActive := false;
    }

    /** Rewrites the parameters of one SGR sequence. */
    method RewriteSgr(params: string) returns (rewritten: string)
      modifies this`foregroundIsDefault, this`dimActive, this`dimReplacementActive
      ensures (Fields(), rewritten) == RewriteParams(grey, old(Fields()), params)
    {
      hide Split;
      hide Join;
      hide RewriteGroup;
      var parts := Split(params);
      var out: seq<string> := [];
      var i := 0;
      ghost var all := Rewrite(grey, Fields(), parts);
      assert parts[0..] == parts && [] + all.1 == all.1;
      while i < |parts|
        invariant 0 <= i <= |parts|
        invariant Carries(all, out, Rewrite(grey, Fields(), parts[i..]))
      {
        ghost var f := Fields();
        var pushed, consumed := RewriteAt(parts, i);
        RewriteStep(grey, f, parts[i..], all, out);
        assert parts[i..][consumed + 1..] == parts[i + 1 + consumed..];
        out := out + pushed;
        i := i + 1 + consumed;
      }
      assert out + [] == out;
      rewritten := Join(out);
    }

    /** One turn of the loop: the parts pushed for the parameter at `i`, and how
        many more it took up. */
    method RewriteAt(parts: seq<string>, i: nat) returns (out: seq<string>, consumed: nat)
      requires i < |parts|
      modifies this`foregroundIsDefault, this`dimActive, this`dimReplacementActive
      ensures consumed + 1 == GroupLength(parts[i..])
      ensures (Fields(), out) == RewriteGroup(grey, old(Fields()), parts[i..][..consumed + 1])
    {
      hide Grey.Params;
      hide IsBasicForeground;
      var p := parts[i];
      consumed := 0;
      if p == "" || p == "0" {
        out := [p];
        foregroundIsDefault, dimActive, dimReplacementActive := true, false, false;
      } else if p == "38" || p == "48" || p == "58" {
        consumed := ExtendedColorLength(parts, i);
        out := parts[i..i + consumed + 1];
        assert out == parts[i..][..consumed + 1] && out + [] == out;
        if p == "38" {
          foregroundIsDefault := false;
          // Keep faint when an explicit foreground replaces the grey.
          if dimReplacementActive {
            out := out + ["2"];
          }
          dimReplacementActive := false;
        }
      } else if HasPrefix(p, "38:") || IsBasicForeground(p) {
        out := [p];
        assert out + [] == out;
        foregroundIsDefault := false;
        if dimReplacementActive {
          out := out + ["2"];
        }
        dimReplacementActive := false;
      } else if p == "39" {
        foregroundIsDefault := true;
        if dimActive {
          out := [grey.Params()];
          dimReplacementActive := true;
        } else {
          out := [p];
        }
      } else if p == "2" {
        dimActive := true;
        if foregroundIsDefault {
          out := [grey.Params()];
          dimReplacementActive := true;
        } else {
          out := [p];
        }
      } else if p == "22" {
        dimActive := false;
        out := [p];
        if dimReplacementActive {
          out := [p, "39"];
          foregroundIsDefault, dimReplacementActive := true, false;
        }
      } else {
        out := [p];
      }
    }

    /** Where the control sequence at `i` has its final byte (`|buf|`: not yet). */
    static method ScanToFinal(buf: string, i: nat) returns (j: nat)
      requires i + 2 <= |buf|
      ensures i + 2 <= j <= |buf| && FinalFrom(buf[i..], 2) == j - i
    {
      j := i + 2;
      while j < |buf| && !IsFinal(buf[j])
        invariant i + 2 <= j <= |buf| && NoFinal(buf[i + 2..j])
      {
        assert buf[i + 2..j + 1] == buf[i + 2..j] + [buf[j]];
        j := j + 1;
      }
      assert buf[i..][2..j - i] == buf[i + 2..j];
      FinalFromFound(buf[i..], 2, j - i);
    }

    /** The control sequence from `i` to its final byte at `j`: rewritten if it
        is SGR, as it is otherwise. */
    method FeedSequence(buf: string, i: nat, j: nat, ghost whole: (State, string), ghost out: string)
      returns (emitted: string)
      requires i + 2 <= j < |buf| && buf[i] == ESC && buf[i + 1] == CSI && FinalFrom(buf[i..], 2) == j - i
      requires Continues(whole, out, Onwards(grey, Fields(), buf[i..]))
      modifies this`foregroundIsDefault, this`dimActive, this`dimReplacementActive
      ensures Continues(whole, out + emitted, Onwards(grey, Fields(), buf[j + 1..]))
    {
      hide Continues;
      hide Onwards;
      hide RewriteParams;
      hide FinalFrom;
      SequenceNext(grey, Fields(), buf[i..], j - i, whole, out);
      assert buf[i..][j - i + 1..] == buf[j + 1..] && buf[i..][2..j - i] == buf[i + 2..j];
      if buf[j] == SGR_FINAL {
        var rewritten := RewriteSgr(buf[i + 2..j]);
        emitted := [ESC, CSI] + rewritten + [SGR_FINAL];
      } else {
        emitted := buf[i..j + 1];
        assert emitted == [ESC, CSI] + buf[i + 2..j] + [buf[j]];
      }
    }

    /** Filters one chunk; an escape unfinished at its end is kept for the next. */
    method Feed(input: string) returns (output: string)
      modifies this
      ensures (Now(), output) == SgrStream.Feed(grey, old(Now()), input)
    {
      hide Continues;
      hide Onwards;
      hide SgrStream.Feed;
      hide RewriteParams;
      hide FinalFrom;
      hide IsFinal;
      // Nothing to look for.
      if carry == "" && ESC !in input {
        FastPath(grey, Now(), input);
        return input;
      }
      var buf := carry + input;
      CarryFirst(grey, Now(), input);
      carry := "";
      var out := "";
      var n := |buf|;
      var i := 0;
      ghost var whole := Onwards(grey, Fields(), buf);
      assert buf[0..] == buf;
      Begins(whole);
      while i < n
        invariant 0 <= i <= n && carry == ""
        invariant Continues(whole, out, Onwards(grey, Fields(), buf[i..]))
      {
        var b := buf[i];
        ghost var f := Fields();
        assert buf[i..][1..] == buf[i + 1..];
        if b != ESC {
          PlainNext(grey, f, buf[i..], whole, out);
          out := out + [b];
          i := i + 1;
          continue;
        }
        if i + 1 >= n {
          carry := buf[i..]; // ESC at the very end: wait for more
          EscapeLast(grey, f, buf[i..], whole, out);
          break;
        }
        if buf[i + 1] != CSI {
          PlainNext(grey, f, buf[i..], whole, out);
          out := out + [b];
          i := i + 1;
          continue;
        }
        var j := ScanToFinal(buf, i);
        if j >= n {
          UnfinishedNext(grey, f, buf[i..], whole, out);
          // Unfinished: kept, unless it is absurdly long.
          if n - i > MAX_CARRY {
            assert buf[i..n] == buf[i..];
            out := out + buf[i..n];
          } else {
            carry := buf[i..];
          }
          break;
        }
        var emitted := FeedSequence(buf, i, j, whole, out);
        out := out + emitted;
        i := j + 1;
      }
      if i >= n {
        assert buf[n..] == "";
        OnwardsNothing(grey, Fields(), whole, out);
      }
      return out;
    }
  }

  lemma OnwardsNothing(grey: Grey, f: Filter, whole: (State, string), out: string)
    requires Continues(whole, out, Onwards(grey, f, ""))
    ensures whole == (State("", f), out)
  {
    assert out + "" == out;
  }

  /** What the filter makes of `s`, with nothing carried over. */
  ghost function Onwards(grey: Grey, f: Filter, s: string): (State, string) {
    SgrStream.Feed(grey, State("", f), s)
  }

  /** The rest of a chunk continues the output so far. */
  ghost predicate Continues(whole: (State, string), out: string, rest: (State, string)) {
    whole == (rest.0, out + rest.1)
  }

  lemma Begins(whole: (State, string))
    ensures Continues(whole, "", whole)
  {
    assert "" + whole.1 == whole.1;
  }

  lemma CarryFirst(grey: Grey, s: State, input: string)
    ensures SgrStream.Feed(grey, s, input) == Onwards(grey, s.filter, s.carry + input)
  {
    assert "" + (s.carry + input) == s.carry + input;
  }

  lemma FastPath(grey: Grey, s: State, input: string)
    requires s.carry == "" && ESC !in input
    ensures SgrStream.Feed(grey, s, input) == (s, input)
  {
    assert s.carry + input == input;
    ScanPlain(input);
    ScanTexts(input);
    NothingToRewrite(grey, s.filter, Scan(input).0);
    assert Texts(Scan(input).0) + "" == Texts(Scan(input).0);
  }

  lemma {:induction false} NothingToRewrite(grey: Grey, f: Filter, tokens: seq<Token>)
    requires forall i :: 0 <= i < |tokens| ==> !tokens[i].IsSgr()
    ensures RewriteTokens(grey, f, tokens) == (f, tokens)
    decreases |tokens|
  {
    if tokens != [] {
      NothingToRewrite(grey, f, tokens[1..]);
      assert [tokens[0]] + tokens[1..] == tokens;
    }
  }

  lemma FinalFromFound(s: string, from: nat, j: nat)
    requires from <= j <= |s| && NoFinal(s[from..j]) && (j < |s| ==> IsFinal(s[j]))
    ensures FinalFrom(s, from) == j
    decreases j - from
  {
    if from < j {
      assert s[from..j][0] == s[from];
      assert s[from..j][1..] == s[from + 1..j];
      FinalFromFound(s, from + 1, j);
    }
  }

  /** A token found at the front, the rest going on after it. */
  lemma TokenNext(grey: Grey, f: Filter, s: string, token: Token, rest: string)
    requires First(s) == Found(token, rest)
    ensures var (next, rewritten) := RewriteToken(grey, f, token);
      var after := Onwards(grey, next, rest);
      Onwards(grey, f, s) == (after.0, rewritten.Text() + after.1)
  {
    var (tokens, tail) := Scan(rest);
    var (next, rewritten) := RewriteToken(grey, f, token);
    var (last, out) := RewriteTokens(grey, next, tokens);
    hide First;
    hide RewriteToken;
    assert "" + s == s && "" + rest == rest;
    assert ([token] + tokens)[1..] == tokens;
    assert ([rewritten] + out)[1..] == out;
    Associate(rewritten.Text(), Texts(out), tail);
  }

  lemma PlainNext(grey: Grey, f: Filter, s: string, whole: (State, string), out: string)
    requires s != "" && (s[0] == ESC ==> |s| > 1 && s[1] != CSI)
    requires Continues(whole, out, Onwards(grey, f, s))
    ensures Continues(whole, out + [s[0]], Onwards(grey, f, s[1..]))
  {
    TokenNext(grey, f, s, Plain(s[0]), s[1..]);
    Associate(out, [s[0]], Onwards(grey, f, s[1..]).1);
  }

  lemma SequenceNext(grey: Grey, f: Filter, s: string, j: nat, whole: (State, string), out: string)
    requires |s| > 1 && s[0] == ESC && s[1] == CSI && 2 <= j < |s| && FinalFrom(s, 2) == j
    requires Continues(whole, out, Onwards(grey, f, s))
    ensures s[j] == SGR_FINAL ==>
      var (next, params) := RewriteParams(grey, f, s[2..j]);
      Continues(whole, out + ([ESC, CSI] + params + [SGR_FINAL]), Onwards(grey, next, s[j + 1..]))
    ensures s[j] != SGR_FINAL ==>
      Continues(whole, out + ([ESC, CSI] + s[2..j] + [s[j]]), Onwards(grey, f, s[j + 1..]))
  {
    hide Onwards;
    hide FinalFrom;
    var token := Sequence(s[2..j], s[j]);
    TokenNext(grey, f, s, token, s[j + 1..]);
    hide RewriteParams;
    var (next, rewritten) := RewriteToken(grey, f, token);
    var more := Onwards(grey, next, s[j + 1..]).1;
    Associate(out, rewritten.Text(), more);
  }

  lemma EscapeLast(grey: Grey, f: Filter, s: string, whole: (State, string), out: string)
    requires s == [ESC] && Continues(whole, out, Onwards(grey, f, s))
    ensures whole == (State(s, f), out)
  {
    assert "" + s == s;
    assert out + "" == out;
  }

  lemma UnfinishedNext(grey: Grey, f: Filter, s: string, whole: (State, string), out: string)
    requires |s| > 1 && s[0] == ESC && s[1] == CSI && FinalFrom(s, 2) == |s|
    requires Continues(whole, out, Onwards(grey, f, s))
    ensures whole == if |s| > MAX_CARRY then (State("", f), out + s) else (State(s, f), out)
  {
    assert "" + s == s;
    assert out + "" == out;
  }

  /** The rest of a rewriting carries on what was pushed so far. */
  ghost predicate Carries(all: (Filter, seq<string>), out: seq<string>, rest: (Filter, seq<string>)) {
    all == (rest.0, out + rest.1)
  }

  lemma RewriteStep(grey: Grey, f: Filter, parts: seq<string>, all: (Filter, seq<string>), out: seq<string>)
    requires parts != [] && Carries(all, out, Rewrite(grey, f, parts))
    ensures var n := GroupLength(parts);
      var (next, pushed) := RewriteGroup(grey, f, parts[..n]);
      Carries(all, out + pushed, Rewrite(grey, next, parts[n..]))
  {
    var n := GroupLength(parts);
    var (next, pushed) := RewriteGroup(grey, f, parts[..n]);
    var more := Rewrite(grey, next, parts[n..]).1;
    assert out + (pushed + more) == out + pushed + more;
  }

  /** How many parameters an extended colour at `index` takes up besides its own. */
  function ExtendedColorLength(parts: seq<string>, index: nat): (n: nat)
    requires index < |parts|
    ensures index + n < |parts|
    ensures IsExtended(parts[index]) ==> n + 1 == GroupLength(parts[index..])
  {
    var left := |parts| - 1 - index;
    var wanted := if left == 0 then 0
                  else if parts[index + 1] == "5" then 2 else if parts[index + 1] == "2" then 4 else 1;
    if wanted <= left then wanted else left
  }
}
