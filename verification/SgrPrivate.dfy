/** Sequences that end like SGR and are not (a private prefix, `ESC[>4;2m`): the filter
    (src/dimfix.ts) should leave them alone, and this is exactly when it does. */
module SgrPrivate {
  import opened SgrParams
  import opened SgrDim
  import opened SgrStream

  /** A parameter that means something to the filter. */
  predicate Touches(p: string) {
    || p == "" || p == "0" || p == "2" || p == "22" || p == "38" || p == "39"
    || HasPrefix(p, "38:") || IsBasicForeground(p)
  }

  /** No parameter does, those taken up by a 48 or 58 aside. */
  predicate Untouched(parts: seq<string>)
    decreases |parts|
  {
    parts == [] || (!Touches(parts[0]) && Untouched(parts[GroupLength(parts)..]))
  }

  /** The filter's states. */
  predicate Possible(f: Filter) {
    f.dimReplacementActive == (f.foregroundIsDefault && f.dimActive)
  }

  /** The length of the parts, each with a separator. */
  function Size(parts: seq<string>): nat
    decreases |parts|
  {
    if parts == [] then 0 else |parts[0]| + 1 + Size(parts[1..])
  }

  lemma {:induction false} SizeTwo(a: seq<string>, b: seq<string>)
    ensures Size(a + b) == Size(a) + Size(b)
    decreases |a|
  {
    if a == [] {
      assert a + b == b;
    } else {
      assert (a + b)[1..] == a[1..] + b;
      SizeTwo(a[1..], b);
    }
  }

  lemma {:induction false} JoinSize(parts: seq<string>)
    requires parts != []
    ensures |Join(parts)| + 1 == Size(parts)
    decreases |parts|
  {
    if |parts| > 1 {
      JoinSize(parts[1..]);
    }
  }

  lemma JoinPrepended(c: char, parts: seq<string>)
    requires parts != []
    ensures Join(Prepend(c, parts)) == [c] + Join(parts)
  {
    if c == ';' {
      assert ([""] + parts)[1..] == parts;
      assert "" + ";" + Join(parts) == [c] + Join(parts);
    } else {
      var first := [c] + parts[0];
      assert ([first] + parts[1..])[1..] == parts[1..];
      if |parts| > 1 {
        assert first + ";" + Join(parts[1..]) == [c] + (parts[0] + ";" + Join(parts[1..]));
      }
    }
  }

  lemma {:induction false} JoinSplit(s: string)
    ensures Join(Split(s)) == s
    decreases |s|
  {
    if s != "" {
      JoinSplit(s[1..]);
      JoinPrepended(s[0], Split(s[1..]));
      hide Prepend;
      assert [s[0]] + s[1..] == s;
    }
  }

  lemma GreyIsLong(grey: Grey)
    ensures |grey.Params()| > 2
  {
    JoinSize(grey.Group());
    var rest := grey.Group()[1..];
    assert Size(grey.Group()) == 3 + Size(rest);
    assert Size(rest) == 2 + Size(rest[1..]);
  }

  /** Rewriting never makes a group shorter; and where it leaves a group that means
      something as long as it was, it forgets the state. */
  lemma GroupGrows(grey: Grey, f: Filter, parts: seq<string>)
    requires parts != []
    ensures Size(RewriteGroup(grey, f, parts[..GroupLength(parts)]).1) >= Size(parts[..GroupLength(parts)])
    ensures !Touches(parts[0]) ==>
      RewriteGroup(grey, f, parts[..GroupLength(parts)]) == (f, parts[..GroupLength(parts)])
  {
    var group := parts[..GroupLength(parts)];
    var p := group[0];
    GreyIsLong(grey);
    hide Join;
    SizeTwo(group, ["2"]);
    SizeTwo([p], ["2"]);
    SizeTwo([p], ["39"]);
    assert [p] + ["39"] == [p, "39"];
    if !IsExtended(p) {
      assert group == [p];
    } else {
      assert group + [] == group;
    }
    assert [p] + [] == [p];
    SizeOne(p);
    SizeOne(grey.Params());
    hide IsBasicForeground;
  }

  lemma SizeOne(p: string)
    ensures Size([p]) == |p| + 1
  {
    assert [p][1..] == [];
  }

  lemma {:induction false} Grows(grey: Grey, f: Filter, parts: seq<string>)
    ensures Size(Rewrite(grey, f, parts).1) >= Size(parts)
    decreases |parts|
  {
    if parts != [] {
      var n := GroupLength(parts);
      var (next, pushed) := RewriteGroup(grey, f, parts[..n]);
      GroupGrows(grey, f, parts);
      Grows(grey, next, parts[n..]);
      SizeTwo(pushed, Rewrite(grey, next, parts[n..]).1);
      SizeTwo(parts[..n], parts[n..]);
      assert parts[..n] + parts[n..] == parts;
    }
    hide RewriteGroup;
  }

  lemma {:induction false} UntouchedStays(grey: Grey, f: Filter, parts: seq<string>)
    requires Untouched(parts)
    ensures Rewrite(grey, f, parts) == (f, parts)
    decreases |parts|
  {
    hide RewriteGroup;
    if parts != [] {
      var n := GroupLength(parts);
      GroupGrows(grey, f, parts);
      UntouchedStays(grey, f, parts[n..]);
      assert parts[..n] + parts[n..] == parts;
    }
  }

  /** Some state in which a parameter that means something is seen to. */
  function Witness(p: string): Filter {
    if p == "2" then Fresh else Filter(true, true, true)
  }

  lemma TouchedGrows(grey: Grey, parts: seq<string>)
    requires parts != [] && Touches(parts[0]) && parts[0] != "" && parts[0] != "0"
    ensures var group := parts[..GroupLength(parts)];
      Size(RewriteGroup(grey, Witness(parts[0]), group).1) > Size(group)
  {
    var group := parts[..GroupLength(parts)];
    var p := group[0];
    GreyIsLong(grey);
    hide Join;
    SizeTwo(group, ["2"]);
    SizeTwo([p], ["2"]);
    SizeTwo([p], ["39"]);
    assert [p] + ["39"] == [p, "39"];
    if !IsExtended(p) {
      assert group == [p];
    }
    SizeOne(p);
    SizeOne("2");
    SizeOne("39");
    SizeOne(grey.Params());
    hide IsBasicForeground;
  }

  /** Otherwise some state shows: the output is longer, or the state another. */
  lemma {:induction false} TouchedShows(grey: Grey, parts: seq<string>) returns (f: Filter)
    requires !Untouched(parts)
    ensures Possible(f)
    ensures Size(Rewrite(grey, f, parts).1) > Size(parts) || Rewrite(grey, f, parts).0 != f
    decreases |parts|
  {
    var n := GroupLength(parts);
    var group, tail := parts[..n], parts[n..];
    SizeTwo(group, tail);
    assert group + tail == parts;
    if !Touches(parts[0]) {
      f := TouchedShows(grey, tail);
      GroupGrows(grey, f, parts);
      hide RewriteGroup;
      SizeTwo(group, Rewrite(grey, f, tail).1);
    } else if parts[0] == "" || parts[0] == "0" {
      f := if Rewrite(grey, Fresh, tail).0 == Fresh then Filter(false, true, false) else Fresh;
    } else {
      f := Witness(parts[0]);
      TouchedGrows(grey, parts);
      var (next, pushed) := RewriteGroup(grey, f, group);
      hide RewriteGroup;
      Grows(grey, next, tail);
      SizeTwo(pushed, Rewrite(grey, next, tail).1);
    }
  }

  /** The filter leaves a sequence's parameters and its own state alone, whatever the
      state, exactly if none of the parameters means anything to it. */
  lemma LeftAlone(grey: Grey, params: string)
    ensures (forall f :: Possible(f) ==> RewriteParams(grey, f, params) == (f, params)) <==> Untouched(Split(params))
  {
    var parts := Split(params);
    JoinSplit(params);
    JoinSize(parts);
    if Untouched(parts) {
      forall f | Possible(f) ensures RewriteParams(grey, f, params) == (f, params) {
        UntouchedStays(grey, f, parts);
      }
    } else {
      var f := TouchedShows(grey, parts);
      var (last, out) := Rewrite(grey, f, parts);
      if last == f {
        assert out != [];
        JoinSize(out);
        assert RewriteParams(grey, f, params).1 != params;
      }
    }
  }
}
