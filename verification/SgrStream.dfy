/** The stream filter around the rewriter (src/dimfix.ts, `SgrDimFilter`): it
    finds the SGR sequences in a stream that arrives in chunks of any size. */
module SgrStream {
  import opened Basics
  import opened SgrParams
  import opened SgrDim
  import opened SgrNumber

  const ESC: char := '\U{1b}'
  const CSI: char := '['
  const SGR_FINAL: char := 'm'
  const MAX_CARRY: nat := 64

  // ---- Control sequences (ECMA-48 section 5.4) --------------------------------------

  /** A control sequence, or any other character on its own. */
  datatype Token = Plain(c: char) | Sequence(params: string, final: char) {
    function Text(): string {
      if Plain? then [c] else [ESC, CSI] + params + [final]
    }

    predicate IsSgr() {
      Sequence? && final == SGR_FINAL
    }

    /** A sequence ends at its first final character. */
    predicate Valid() {
      Sequence? ==> IsFinal(final) && NoFinal(params)
    }
  }

  predicate IsFinal(c: char) {
    '\U{40}' <= c <= '\U{7e}'
  }

  predicate NoFinal(s: string) {
    forall i :: 0 <= i < |s| ==> !IsFinal(s[i])
  }

  /** Where the first final character from `from` on is (`|s|`: nowhere). */
  function FinalFrom(s: string, from: nat): (j: nat)
    requires from <= |s|
    ensures from <= j <= |s| && NoFinal(s[from..j])
    ensures j < |s| ==> IsFinal(s[j])
    decreases |s| - from
  {
    if from == |s| || IsFinal(s[from]) then from
    else
      var j := FinalFrom(s, from + 1);
      assert s[from..j] == [s[from]] + s[from + 1..j];
      j
  }

  /** The first token of a stream and what follows it, if it is all there. */
  datatype Next = Unfinished | Found(token: Token, rest: string)

  function First(s: string): (next: Next)
    ensures next.Found? ==> next.token.Valid() && |next.rest| < |s| && s == next.token.Text() + next.rest
    ensures next.Found? && next.token == Plain(ESC) ==> next.rest != "" && next.rest[0] != CSI
  {
    if s == "" then Unfinished
    else if s[0] != ESC then Found(Plain(s[0]), s[1..])
    else if |s| == 1 then Unfinished
    else if s[1] != CSI then Found(Plain(ESC), s[1..])
    else
      var j := FinalFrom(s, 2);
      if j == |s| then Unfinished
      else
        assert s == [ESC, CSI] + s[2..j] + [s[j]] + s[j + 1..];
        Found(Sequence(s[2..j], s[j]), s[j + 1..])
  }

  /** The tokens of `s`, and the unfinished escape at its end. */
  function Scan(s: string): (seq<Token>, string)
    decreases |s|
  {
    match First(s)
    case Unfinished => ([], s)
    case Found(token, rest) => Cons(token, Scan(rest))
  }

  function Cons(token: Token, scanned: (seq<Token>, string)): (seq<Token>, string) {
    ([token] + scanned.0, scanned.1)
  }

  function Texts(tokens: seq<Token>): string {
    if tokens == [] then "" else tokens[0].Text() + Texts(tokens[1..])
  }

  /** Nothing is lost or moved: the tokens' texts and the tail are the stream. */
  lemma {:induction false} ScanTexts(s: string)
    ensures Texts(Scan(s).0) + Scan(s).1 == s
    decreases |s|
  {
    hide First;
    hide Token.Text;
    match First(s)
    case Unfinished => assert "" + s == s;
    case Found(token, rest) =>
      ScanTexts(rest);
      Associate(token.Text(), Texts(Scan(rest).0), Scan(rest).1);
  }

  lemma FinalFromAppend(s: string, t: string, from: nat)
    requires from <= |s|
    ensures FinalFrom(s, from) < |s| ==> FinalFrom(s + t, from) == FinalFrom(s, from)
    decreases |s| - from
  {
    if from < |s| && !IsFinal(s[from]) {
      FinalFromAppend(s, t, from + 1);
    }
  }

  lemma FirstSequence(s: string)
    requires |s| > 1 && s[0] == ESC && s[1] == CSI && FinalFrom(s, 2) < |s|
    ensures var j := FinalFrom(s, 2); First(s) == Found(Sequence(s[2..j], s[j]), s[j + 1..])
  {
    hide FinalFrom;
    hide Token.Text;
  }

  lemma SlicesAppend(s: string, t: string, j: nat)
    requires 2 <= j < |s|
    ensures (s + t)[2..j] == s[2..j] && (s + t)[j] == s[j] && (s + t)[j + 1..] == s[j + 1..] + t
  {
  }

  lemma FirstSequenceAppend(s: string, t: string)
    requires |s| > 1 && s[0] == ESC && s[1] == CSI && FinalFrom(s, 2) < |s|
    ensures First(s).Found? && First(s + t) == Found(First(s).token, First(s).rest + t)
  {
    hide FinalFrom;
    FinalFromAppend(s, t, 2);
    FirstSequence(s);
    FirstSequence(s + t);
    hide First;
    SlicesAppend(s, t, FinalFrom(s, 2));
  }

  /** More of the stream doesn't change a token that is all there. */
  lemma FirstAppend(s: string, t: string)
    requires First(s).Found?
    ensures First(s + t) == Found(First(s).token, First(s).rest + t)
  {
    hide FinalFrom;
    hide NoFinal;
    hide IsFinal;
    hide Token.Text;
    if s[0] != ESC || s[1] != CSI {
      assert (s + t)[1..] == s[1..] + t;
    } else {
      FirstSequenceAppend(s, t);
    }
  }

  /** Scanning goes on from the tail as if the stream had come in one piece. */
  lemma {:induction false} ScanAppend(s: string, t: string)
    ensures var (tokens, tail) := Scan(s);
      var (more, rest) := Scan(tail + t);
      Scan(s + t) == (tokens + more, rest)
    decreases |s|
  {
    hide First;
    match First(s)
    case Unfinished =>
      assert [] + Scan(s + t).0 == Scan(s + t).0;
    case Found(token, rest) =>
      FirstAppend(s, t);
      ScanAppend(rest, t);
      Associate([token], Scan(rest).0, Scan(Scan(rest).1 + t).0);
  }

  /** A stream without an escape is all text. */
  lemma {:induction false} ScanPlain(s: string)
    requires ESC !in s
    ensures Scan(s).1 == "" && forall i :: 0 <= i < |Scan(s).0| ==> !Scan(s).0[i].IsSgr()
  {
    if s != "" {
      assert First(s) == Found(Plain(s[0]), s[1..]);
      ScanPlain(s[1..]);
    }
  }

  // ---- What the filter makes of the tokens -----------------------------------------

  function RewriteParams(grey: Grey, f: Filter, params: string): (Filter, string) {
    var (next, out) := Rewrite(grey, f, Split(params));
    (next, Join(out))
  }

  function RewriteToken(grey: Grey, f: Filter, token: Token): (Filter, Token) {
    if token.IsSgr() then
      var (next, params) := RewriteParams(grey, f, token.params);
      (next, Sequence(params, SGR_FINAL))
    else (f, token)
  }

  function RewriteTokens(grey: Grey, f: Filter, tokens: seq<Token>): (Filter, seq<Token>)
    decreases |tokens|
  {
    if tokens == [] then (f, [])
    else
      var (next, token) := RewriteToken(grey, f, tokens[0]);
      var (last, more) := RewriteTokens(grey, next, tokens[1..]);
      (last, [token] + more)
  }

  lemma {:induction false} RewriteTokensAppend(grey: Grey, f: Filter, tokens: seq<Token>, more: seq<Token>)
    ensures var (next, out) := RewriteTokens(grey, f, tokens);
      var (last, rest) := RewriteTokens(grey, next, more);
      RewriteTokens(grey, f, tokens + more) == (last, out + rest)
    decreases |tokens|
  {
    hide RewriteToken;
    if tokens == [] {
      assert tokens + more == more;
      assert [] + RewriteTokens(grey, f, more).1 == RewriteTokens(grey, f, more).1;
    } else {
      var (next, token) := RewriteToken(grey, f, tokens[0]);
      RewriteTokensAppend(grey, next, tokens[1..], more);
      var (middle, out) := RewriteTokens(grey, next, tokens[1..]);
      Associate([token], out, RewriteTokens(grey, middle, more).1);
      assert (tokens + more)[1..] == tokens[1..] + more;
    }
  }

  lemma {:induction false} TextsAppend(tokens: seq<Token>, more: seq<Token>)
    ensures Texts(tokens + more) == Texts(tokens) + Texts(more)
  {
    hide Token.Text;
    if tokens == [] {
      assert tokens + more == more;
    } else {
      TextsAppend(tokens[1..], more);
      assert (tokens + more)[1..] == tokens[1..] + more;
      Associate(tokens[0].Text(), Texts(tokens[1..]), Texts(more));
    }
  }

  // ---- Chunks ---------------------------------------------------------------------------

  /** The filter between two chunks; `carry` is the unfinished escape ("": none). */
  datatype State = State(carry: string, filter: Filter)

  const Start := State("", Fresh)

  /** What `feed` does with one chunk. */
  function Feed(grey: Grey, s: State, input: string): (State, string) {
    var (tokens, tail) := Scan(s.carry + input);
    var (filter, out) := RewriteTokens(grey, s.filter, tokens);
    if |tail| > MAX_CARRY then (State("", filter), Texts(out) + tail)
    else (State(tail, filter), Texts(out))
  }

  function FeedAll(grey: Grey, s: State, chunks: seq<string>): (State, string)
    decreases |chunks|
  {
    if chunks == [] then (s, "")
    else
      var (next, out) := Feed(grey, s, chunks[0]);
      var (last, more) := FeedAll(grey, next, chunks[1..]);
      (last, out + more)
  }

  function Concat(chunks: seq<string>): string {
    if chunks == [] then "" else chunks[0] + Concat(chunks[1..])
  }

  /** No unfinished escape at a boundary between two chunks is over the guard. */
  predicate TailsFit(carry: string, chunks: seq<string>)
    decreases |chunks|
  {
    |chunks| > 1 ==>
      var tail := Scan(carry + chunks[0]).1;
      |tail| <= MAX_CARRY && TailsFit(tail, chunks[1..])
  }

  /** The carry never outgrows the guard, whatever comes. */
  lemma {:induction false} CarryBounded(grey: Grey, s: State, chunks: seq<string>)
    requires |s.carry| <= MAX_CARRY
    ensures |FeedAll(grey, s, chunks).0.carry| <= MAX_CARRY
    decreases |chunks|
  {
    if chunks != [] {
      CarryBounded(grey, Feed(grey, s, chunks[0]).0, chunks[1..]);
    }
  }

  lemma FeedTwo(grey: Grey, s: State, a: string, b: string)
    requires |Scan(s.carry + a).1| <= MAX_CARRY
    ensures var (middle, first) := Feed(grey, s, a);
      var (last, second) := Feed(grey, middle, b);
      Feed(grey, s, a + b) == (last, first + second)
  {
    hide Scan;
    hide RewriteTokens;
    hide Texts;
    var (tokens, tail) := Scan(s.carry + a);
    var (more, rest) := Scan(tail + b);
    ScanAppend(s.carry + a, b);
    assert s.carry + (a + b) == s.carry + a + b;
    RewriteTokensAppend(grey, s.filter, tokens, more);
    TextsAppend(RewriteTokens(grey, s.filter, tokens).1,
                RewriteTokens(grey, RewriteTokens(grey, s.filter, tokens).0, more).1);
    var (f, out) := RewriteTokens(grey, s.filter, tokens);
    Associate(Texts(out), Texts(RewriteTokens(grey, f, more).1), rest);
  }

  /** Chunk independence: however the stream is cut up, the output and the state
      at the end are those of the whole in one chunk. */
  lemma {:induction false} ChunksDoNotMatter(grey: Grey, s: State, chunks: seq<string>)
    requires chunks != [] && TailsFit(s.carry, chunks)
    ensures FeedAll(grey, s, chunks) == Feed(grey, s, Concat(chunks))
    decreases |chunks|
  {
    hide Scan;
    hide Feed;
    var (next, out) := Feed(grey, s, chunks[0]);
    if |chunks| == 1 {
      assert chunks[1..] == [];
      assert out + "" == out;
      assert Concat(chunks) == chunks[0];
    } else {
      FeedCarries(grey, s, chunks[0]);
      ChunksDoNotMatter(grey, next, chunks[1..]);
      FeedTwo(grey, s, chunks[0], Concat(chunks[1..]));
    }
  }

  lemma FeedCarries(grey: Grey, s: State, input: string)
    requires |Scan(s.carry + input).1| <= MAX_CARRY
    ensures Feed(grey, s, input).0.carry == Scan(s.carry + input).1
  {
  }

  // ---- What the terminal sees -----------------------------------------------------------

  /** Tokens that are found again where their texts are put together: a lone
      escape is not followed by what would make it a control sequence. */
  predicate Lexed(tokens: seq<Token>, tail: string) {
    if tokens == [] then Scan(tail) == ([], tail)
    else
      && tokens[0].Valid()
      && (tokens[0] == Plain(ESC) ==> GoesOn(tokens[1..], tail))
      && Lexed(tokens[1..], tail)
  }

  predicate GoesOn(tokens: seq<Token>, tail: string) {
    if tokens == [] then tail != "" && tail[0] != CSI else tokens[0] != Plain(CSI)
  }

  lemma {:induction false} ScanLexes(s: string)
    ensures Lexed(Scan(s).0, Scan(s).1)
    ensures s != "" && s[0] != CSI ==> GoesOn(Scan(s).0, Scan(s).1)
    decreases |s|
  {
    hide First;
    match First(s)
    case Unfinished =>
    case Found(token, rest) =>
      ScanLexes(rest);
      ConsLexed(token, Scan(rest).0, Scan(rest).1);
      TokenStarts(token, rest);
  }

  lemma ConsLexed(token: Token, tokens: seq<Token>, tail: string)
    requires Lexed(tokens, tail) && token.Valid()
    requires token == Plain(ESC) ==> GoesOn(tokens, tail)
    ensures Lexed([token] + tokens, tail)
  {
    assert ([token] + tokens)[1..] == tokens;
  }

  lemma FinalFromSequence(params: string, final: char, more: string, from: nat)
    requires NoFinal(params) && IsFinal(final) && 2 <= from <= 2 + |params|
    ensures FinalFrom([ESC, CSI] + params + [final] + more, from) == 2 + |params|
    decreases 2 + |params| - from
  {
    var s := [ESC, CSI] + params + [final] + more;
    if from < 2 + |params| {
      assert s[from] == params[from - 2];
      FinalFromSequence(params, final, more, from + 1);
    } else {
      assert s[from] == final;
    }
  }

  /** What a token's text starts with. */
  lemma TokenStarts(token: Token, more: string)
    ensures token.Text() + more != "" && (token.Text() + more)[0] == if token.Plain? then token.c else ESC
  {
  }

  lemma SequenceSlices(params: string, final: char, more: string)
    ensures var s, j := [ESC, CSI] + params + [final] + more, 2 + |params|;
      |s| > j && s[0] == ESC && s[1] == CSI && s[2..j] == params && s[j] == final && s[j + 1..] == more
  {
  }

  lemma FirstToken(token: Token, more: string)
    requires token.Valid()
    requires token == Plain(ESC) ==> more != "" && more[0] != CSI
    ensures First(token.Text() + more) == Found(token, more)
  {
    var s := token.Text() + more;
    match token {
      case Plain(c) =>
        assert s[1..] == more;
      case Sequence(params, final) =>
        hide FinalFrom;
        hide NoFinal;
        FinalFromSequence(params, final, more, 2);
        SequenceSlices(params, final, more);
        assert s == [ESC, CSI] + params + [final] + more;
        FirstSequence(s);
        hide First;
    }
  }

  lemma {:induction false} ScanOfTexts(tokens: seq<Token>, tail: string)
    requires Lexed(tokens, tail)
    ensures Scan(Texts(tokens) + tail) == (tokens, tail)
  {
    hide First;
    hide Token.Text;
    if tokens == [] {
      assert Texts(tokens) + tail == tail;
    } else {
      var rest := tokens[1..];
      ScanOfTexts(rest, tail);
      var more := Texts(rest) + tail;
      if rest != [] {
        TokenStarts(rest[0], Texts(rest[1..]) + tail);
        Associate(rest[0].Text(), Texts(rest[1..]), tail);
      } else {
        assert more == tail;
      }
      FirstToken(tokens[0], more);
      Associate(tokens[0].Text(), Texts(rest), tail);
      assert [tokens[0]] + rest == tokens;
    }
  }

  lemma {:induction false} JoinNoFinal(parts: seq<string>)
    requires forall i :: 0 <= i < |parts| ==> NoFinal(parts[i])
    ensures NoFinal(Join(parts))
  {
    if |parts| > 1 {
      JoinNoFinal(parts[1..]);
    }
  }

  lemma {:induction false} SplitNoFinal(s: string)
    requires NoFinal(s)
    ensures forall i :: 0 <= i < |Split(s)| ==> NoFinal(Split(s)[i])
  {
    if s != "" {
      SplitNoFinal(s[1..]);
    }
  }

  lemma GreyNoFinal(grey: Grey)
    requires grey.Valid()
    ensures NoFinal(grey.Params())
  {
    assert NoFinal("38") && NoFinal("2");
    JoinNoFinal(grey.Group());
  }

  lemma RewriteGroupNoFinal(grey: Grey, f: Filter, group: seq<string>)
    requires grey.Valid() && group != [] && forall i :: 0 <= i < |group| ==> NoFinal(group[i])
    ensures var out := RewriteGroup(grey, f, group).1; forall i :: 0 <= i < |out| ==> NoFinal(out[i])
  {
    hide Grey.Params;
    GreyNoFinal(grey);
    assert NoFinal("2") && NoFinal("39");
  }

  lemma {:induction false} RewriteNoFinal(grey: Grey, f: Filter, parts: seq<string>)
    requires grey.Valid() && forall i :: 0 <= i < |parts| ==> NoFinal(parts[i])
    ensures var out := Rewrite(grey, f, parts).1;
      && (forall i :: 0 <= i < |out| ==> NoFinal(out[i]))
      && (parts != [] ==> out != [])
    decreases |parts|
  {
    hide NoFinal;
    if parts != [] {
      var n := GroupLength(parts);
      RewriteGroupNoFinal(grey, f, parts[..n]);
      RewriteNoFinal(grey, RewriteGroup(grey, f, parts[..n]).0, parts[n..]);
    }
  }

  /** A rewritten sequence is one sequence again, with the parameters meant. */
  lemma TokenRewritten(grey: Grey, f: Filter, token: Token)
    requires grey.Valid() && token.Valid()
    ensures var (_, out) := RewriteToken(grey, f, token);
      && out.Valid() && out.IsSgr() == token.IsSgr() && (!token.IsSgr() ==> out == token)
      && (token.IsSgr() ==> Split(out.params) == Fields(Rewrite(grey, f, Split(token.params)).1))
  {
    if token.IsSgr() {
      var parts := Split(token.params);
      SplitNoFinal(token.params);
      RewriteNoFinal(grey, f, parts);
      var out := Rewrite(grey, f, parts).1;
      JoinNoFinal(out);
      SplitJoin(out);
    }
  }

  lemma {:induction false} RewriteTokensLexed(grey: Grey, f: Filter, tokens: seq<Token>, tail: string)
    requires grey.Valid() && Lexed(tokens, tail)
    ensures var (_, out) := RewriteTokens(grey, f, tokens);
      && Lexed(out, tail)
      && SameElsewhere(tokens, out)
    decreases |tokens|
  {
    hide RewriteToken;
    hide Token.Valid;
    hide Scan;
    if tokens != [] {
      var (next, token) := RewriteToken(grey, f, tokens[0]);
      var more := RewriteTokens(grey, next, tokens[1..]).1;
      TokenRewritten(grey, f, tokens[0]);
      RewriteTokensLexed(grey, next, tokens[1..], tail);
      if tokens[0] == Plain(ESC) {
        GoesOnSame(tokens[1..], more, tail);
      }
      ConsLexed(token, more, tail);
      assert SameElsewhere(tokens, [token] + more) by {
        assert tokens == [tokens[0]] + tokens[1..];
      }
    }
  }

  /** A control sequence where there was one, of the same kind; everything that is not
      SGR as it was, in its place. */
  predicate SameElsewhere(tokens: seq<Token>, out: seq<Token>) {
    && |out| == |tokens|
    && (forall i :: 0 <= i < |tokens| ==> out[i].IsSgr() == tokens[i].IsSgr())
    && (forall i :: 0 <= i < |tokens| && !tokens[i].IsSgr() ==> out[i] == tokens[i])
  }

  lemma GoesOnSame(tokens: seq<Token>, out: seq<Token>, tail: string)
    requires SameElsewhere(tokens, out)
    ensures GoesOn(out, tail) == GoesOn(tokens, tail)
  {
  }

  /** What a terminal shows: every token that isn't SGR, with the attributes in
      force when it came. */
  datatype Shown = Shown(token: Token, attributes: Attributes)

  function Screen(a: Attributes, tokens: seq<Token>): seq<Shown>
    decreases |tokens|
  {
    if tokens == [] then []
    else if tokens[0].IsSgr() then Screen(Display(a, Split(tokens[0].params)), tokens[1..])
    else [Shown(tokens[0], a)] + Screen(a, tokens[1..])
  }

  /** The filter reads every SGR sequence as a terminal does that has `a` in force
      where the stream starts. */
  predicate SgrsReadable(a: Attributes, tokens: seq<Token>)
    decreases |tokens|
  {
    tokens != [] ==>
      if tokens[0].IsSgr() then
        var fields := Split(tokens[0].params);
        AllUsual(fields) && Readable(a, fields) && SgrsReadable(Display(a, fields), tokens[1..])
      else SgrsReadable(a, tokens[1..])
  }

  /** The same things are shown in the same places, with attributes in step. */
  predicate ScreenStands(grey: Grey, original: seq<Shown>, shown: seq<Shown>) {
    && |original| == |shown|
    && (forall i :: 0 <= i < |original| ==>
          original[i].token == shown[i].token && Stands(grey, original[i].attributes, shown[i].attributes))
  }

  lemma {:induction false} TokensStand(grey: Grey, f: Filter, a: Attributes, b: Attributes, tokens: seq<Token>)
    requires grey.Valid() && SgrsReadable(a, tokens) && forall i :: 0 <= i < |tokens| ==> tokens[i].Valid()
    requires InSync(f, a) && Stands(grey, a, b)
    ensures ScreenStands(grey, Screen(a, tokens), Screen(b, RewriteTokens(grey, f, tokens).1))
    decreases |tokens|
  {
    hide Stands;
    hide InSync;
    hide Token.Valid;
    hide AllUsual;
    hide Readable;
    hide Display;
    hide Split;
    if tokens != [] {
      var token, rest := tokens[0], tokens[1..];
      var (next, out) := RewriteToken(grey, f, token);
      var more := RewriteTokens(grey, next, rest).1;
      assert ([out] + more)[1..] == more;
      TokenRewritten(grey, f, token);
      if token.IsSgr() {
        RewriteStands(grey, f, a, b, Split(token.params));
        TokensStand(grey, next, Display(a, Split(token.params)), Display(b, Split(out.params)), rest);
      } else {
        TokensStand(grey, f, a, b, rest);
      }
    }
  }

  /** The whole filter, over any stream in any chunks: what a terminal shows of
      the output is what it shows of the input, grey standing in for faint text on
      the default foreground. The unfinished escape still held back counts as not
      arrived yet on both sides. */
  lemma StreamStands(grey: Grey, chunks: seq<string>)
    requires grey.Valid() && chunks != [] && TailsFit("", chunks)
    requires var (tokens, tail) := Scan(Concat(chunks)); SgrsReadable(Initial, tokens) && |tail| <= MAX_CARRY
    ensures var (last, out) := FeedAll(grey, Start, chunks);
      var (tokens, tail) := Scan(Concat(chunks));
      var (found, rest) := Scan(out + last.carry);
      && rest == tail == last.carry
      && ScreenStands(grey, Screen(Initial, tokens), Screen(Initial, found))
  {
    ChunksDoNotMatter(grey, Start, chunks);
    var input := Concat(chunks);
    assert "" + input == input;
    var (tokens, tail) := Scan(input);
    ScanLexes(input);
    RewriteTokensLexed(grey, Fresh, tokens, tail);
    ScanOfTexts(RewriteTokens(grey, Fresh, tokens).1, tail);
    LexedValid(tokens, tail);
    TokensStand(grey, Fresh, Initial, Initial, tokens);
  }

  lemma {:induction false} LexedValid(tokens: seq<Token>, tail: string)
    requires Lexed(tokens, tail)
    ensures forall i :: 0 <= i < |tokens| ==> tokens[i].Valid()
  {
    if tokens != [] {
      LexedValid(tokens[1..], tail);
      assert forall i :: 1 <= i < |tokens| ==> tokens[i] == tokens[1..][i - 1];
    }
  }

  /** A sequence with a private prefix isn't SGR, but ends like it: the filter
      rewrites it all the same. */
  lemma PrivatePrefixIsRewritten(grey: Grey)
    ensures RewriteParams(grey, Fresh, ">4;2").1 != ">4;2"
  {
    SplitAppend(">4", "2");
    SplitPlain(">4");
    SplitPlain("2");
    assert ">4;2" == ">4" + ";" + "2" && [">4"] + ["2"] == [">4", "2"];
    hide Split;
    PrivatePrefixParts(grey);
    JoinTwo(">4", grey.Params());
    assert grey.Params()[0] == '3';
    assert RewriteParams(grey, Fresh, ">4;2").1[3] == '3';
  }

  lemma JoinTwo(a: string, b: string)
    ensures Join([a, b]) == a + ";" + b
  {
    assert [a, b][1..] == [b];
  }

  lemma PrivatePrefixParts(grey: Grey)
    ensures Rewrite(grey, Fresh, [">4", "2"]).1 == [">4", grey.Params()]
  {
    PrivatePrefixGroups(grey);
    hide RewriteGroup;
    RewriteOne(grey, Fresh, [">4"]);
    RewriteOne(grey, Fresh, ["2"]);
    assert [">4"][..1] == [">4"] && [">4"][1..] == [];
    RewriteAppend(grey, Fresh, [">4"], ["2"]);
    assert [">4"] + ["2"] == [">4", "2"];
  }

  lemma PrivatePrefixGroups(grey: Grey)
    ensures RewriteGroup(grey, Fresh, [">4"]) == (Fresh, [">4"])
    ensures RewriteGroup(grey, Fresh, ["2"]).1 == [grey.Params()]
  {
    NumberWithout('>', ">4");
    BasicAgrees("2");
    hide IsBasicForeground;
    hide Grey.Params;
  }

  /** Nor is one with an intermediate byte (ECMA-48 section 5.4): the space before the
      final byte is white space to the numeric test, and the colour counts. */
  lemma IntermediateIsRewritten(grey: Grey)
    ensures RewriteParams(grey, Filter(true, true, true), "31 ") == (Filter(false, true, false), "31 ;2")
  {
    SplitPlain("31 ");
    ThirtyOne();
    JoinTwo("31 ", "2");
    assert "31 " + ";" + "2" == "31 ;2";
    hide Split;
    hide Join;
    hide IsBasicForeground;
    RewriteOne(grey, Filter(true, true, true), ["31 "]);
    assert ["31 "] + ["2"] == ["31 ", "2"];
  }

  lemma ThirtyOne()
    ensures IsBasicForeground("31 ") && IsBasicForeground("+31")
  {
    var n := "31";
    assert "31 "[..2] == n && "+31"[1..] == n && n[..1] == "3" && n[..0] == "";
    assert Value("3") == 3 && Value(n) == 31;
    assert Digits(n) == 2 by {
      assert n[1..] == "1" && "1"[1..] == "";
    }
    assert TrimEnd("31 ") == TrimEnd(n) == n;
  }

  // ---- A sequence cut between two chunks -----------------------------------------------------

  /** What comes before the cut is all kept back, and the whole is one token. */
  lemma CutScans(token: Token, k: nat)
    requires token.IsSgr() && token.Valid() && 1 <= k < |token.Text()|
    ensures Scan(token.Text()[..k]) == ([], token.Text()[..k])
  {
    var part := token.Text()[..k];
    if k > 1 {
      assert part[2..] == token.params[..k - 2];
      NoFinalFrom(part, 2);
    }
    assert First(part) == Unfinished;
    hide First;
  }

  lemma WholeScans(token: Token)
    requires token.IsSgr() && token.Valid()
    ensures Scan(token.Text()) == ([token], "")
  {
    assert [token][1..] == [] && Texts([token]) == token.Text() + "";
    assert token.Text() + "" == token.Text() && token.Text() + "" + "" == token.Text();
    assert Scan("") == ([], "");
    assert Lexed([], "") && Lexed([token], "");
    ScanOfTexts([token], "");
  }

  lemma NoFinalFrom(s: string, from: nat)
    requires from <= |s| && NoFinal(s[from..])
    ensures FinalFrom(s, from) == |s|
    decreases |s| - from
  {
    if from < |s| {
      assert s[from..][0] == s[from];
      assert s[from + 1..] == s[from..][1..];
      NoFinalFrom(s, from + 1);
    }
  }

  lemma WholeFed(grey: Grey, f: Filter, token: Token)
    requires token.IsSgr() && token.Valid()
    ensures var (next, out) := RewriteToken(grey, f, token);
      Feed(grey, State("", f), token.Text()) == (State("", next), out.Text())
  {
    WholeScans(token);
    OneToken(grey, f, token);
    assert "" + token.Text() == token.Text();
    hide Scan;
    hide RewriteToken;
    hide RewriteTokens;
    hide Token.Text;
  }

  lemma CutFed(grey: Grey, f: Filter, token: Token, k: nat)
    requires token.IsSgr() && token.Valid() && 1 <= k < |token.Text()|
    ensures var part := token.Text()[..k];
      Feed(grey, State("", f), part) == if k <= 64 then (State(part, f), "") else (State("", f), part)
  {
    CutScans(token, k);
    var part := token.Text()[..k];
    assert "" + part == part;
    hide Scan;
    hide Token.Text;
  }

  /** An SGR sequence cut between two chunks is rewritten as if it had come in one piece if
      no more than 64 characters came first; otherwise those are let through as they are. */
  lemma CutSequence(grey: Grey, f: Filter, token: Token, k: nat)
    requires token.IsSgr() && token.Valid() && 1 <= k < |token.Text()|
    ensures var (part, rest) := (token.Text()[..k], token.Text()[k..]);
      var (next, out) := RewriteToken(grey, f, token);
      if k <= 64 then FeedAll(grey, State("", f), [part, rest]) == (State("", next), out.Text())
      else Feed(grey, State("", f), part) == (State("", f), part)
  {
    CutFed(grey, f, token, k);
    if k <= 64 {
      var part, rest := token.Text()[..k], token.Text()[k..];
      WholeFed(grey, f, token);
      CutScans(token, k);
      assert part + rest == token.Text() && "" + part == part;
      hide RewriteToken;
      hide Token.Text;
      FeedTwo(grey, State("", f), part, rest);
      TwoChunks(grey, State("", f), part, rest);
    }
  }

  lemma TwoChunks(grey: Grey, s: State, a: string, b: string)
    ensures var (middle, first) := Feed(grey, s, a);
      var (last, second) := Feed(grey, middle, b);
      FeedAll(grey, s, [a, b]) == (last, first + second)
  {
    hide Feed;
    assert [a, b][1..] == [b] && [b][1..] == [];
    var (middle, first) := Feed(grey, s, a);
    var (last, second) := Feed(grey, middle, b);
    assert FeedAll(grey, middle, [b]) == (last, second + "");
    assert second + "" == second;
  }

  lemma OneToken(grey: Grey, f: Filter, token: Token)
    ensures var (next, out) := RewriteToken(grey, f, token);
      RewriteTokens(grey, f, [token]) == (next, [out]) && Texts([out]) == out.Text()
  {
    hide RewriteToken;
    hide Token.Text;
    var (next, out) := RewriteToken(grey, f, token);
    assert [token][1..] == [] && [out] + [] == [out] && [out][1..] == [];
    assert out.Text() + "" == out.Text();
  }

  /** Faint text on the default foreground: `ESC[2mx` comes out as `ESC[38;2;r;g;bmx`. */
  lemma FaintComesOutGrey(grey: Grey)
    ensures FeedAll(grey, Start, ["\U{1b}[2m", "x"]).1 == "\U{1b}[" + grey.Params() + "m" + "x"
    ensures grey.Params() == "38;2;" + grey.r + ";" + grey.g + ";" + grey.b
  {
    GreyText(grey);
    hide Grey.Params;
    var token := Sequence("2", SGR_FINAL);
    assert token.Text() == "\U{1b}[2m";
    WholeFed(grey, Fresh, token);
    FaintToken(grey);
    var next := RewriteToken(grey, Fresh, token).0;
    PlainFed(grey, next);
    TwoChunks(grey, Start, token.Text(), "x");
    hide *;
  }

  lemma FaintToken(grey: Grey)
    ensures RewriteToken(grey, Fresh, Sequence("2", SGR_FINAL)).1.Text() == "\U{1b}[" + grey.Params() + "m"
  {
    FaintParams(grey);
    hide RewriteParams;
    hide Grey.Params;
  }

  lemma FaintParams(grey: Grey)
    ensures RewriteParams(grey, Fresh, "2").1 == grey.Params()
  {
    SplitPlain("2");
    PrivatePrefixGroups(grey);
    RewriteOne(grey, Fresh, ["2"]);
    hide Grey.Params;
    hide Rewrite;
    hide Split;
  }

  lemma PlainFed(grey: Grey, f: Filter)
    ensures Feed(grey, State("", f), "x") == (State("", f), "x")
  {
    assert "" + "x" == "x" && "x"[1..] == "" && Scan("") == ([], "");
    assert First("x") == Found(Plain('x'), "");
    assert [Plain('x')] + [] == [Plain('x')];
    assert Scan("x") == ([Plain('x')], "");
    OneToken(grey, f, Plain('x'));
    hide Scan;
    hide RewriteTokens;
  }

  lemma GreyText(grey: Grey)
    ensures grey.Params() == "38;2;" + grey.r + ";" + grey.g + ";" + grey.b
  {
    JoinTwo(grey.g, grey.b);
    var last3 := [grey.r, grey.g, grey.b];
    assert last3[1..] == [grey.g, grey.b];
    assert ["2", grey.r, grey.g, grey.b][1..] == last3;
    assert grey.Group()[1..] == ["2", grey.r, grey.g, grey.b];
    assert Join(last3) == grey.r + ";" + (grey.g + ";" + grey.b);
    assert Join(["2", grey.r, grey.g, grey.b]) == "2" + ";" + Join(last3);
  }
}
