/** The faint-text rewriter (src/dimfix.ts): what `rewriteSgr` makes of the
    parameters of one SGR sequence, and why a terminal fed the result shows the
    same text, with grey where the original is faint on the default foreground. */
module SgrDim {
  import opened Basics
  import opened SgrNumber
  import opened SgrParams

  lemma DigitsOnly(p: string)
    requires AllDigits(p)
    ensures ';' !in p
  {
  }

  predicate IsDecimal(p: string) {
    p != "" && AllDigits(p) && (|p| > 1 ==> p[0] != '0')
  }

  /** The grey that stands in for faint: the three components in decimal. */
  datatype Grey = Grey(r: string, g: string, b: string) {
    predicate Valid() {
      IsDecimal(r) && IsDecimal(g) && IsDecimal(b)
    }

    function Group(): seq<string> {
      ["38", "2", r, g, b]
    }

    /** `38;2;r;g;b`, pushed as one part. */
    function Params(): string {
      Join(Group())
    }

    lemma ParamsSplit()
      requires Valid()
      ensures Fields([Params()]) == Group() && Complete(Group()) && Normal(Group()) == Group()
    {
      hide Split;
      hide Join;
      DigitsOnly(r);
      DigitsOnly(g);
      DigitsOnly(b);
      FieldsOf(Group());
      SplitJoin(Group());
      assert [Params()][1..] == [];
      assert Fields([Params()]) == Split(Params()) + Fields([]);
    }
  }

  /** The filter's fields. */
  datatype Filter = Filter(foregroundIsDefault: bool, dimActive: bool, dimReplacementActive: bool)

  const Fresh := Filter(true, false, false)

  /** The furthest outside 30-37 and 90-97 that still rounds to their bounds: half the
      distance to the next double, a tie going to the even one. */
  const HALF_47 := 1.0 / 281474976710656.0 // doubles 2^-47 apart: above 37
  const HALF_48 := HALF_47 / 2.0           // below 30
  const HALF_46 := HALF_47 * 2.0           // below 90 and above 97

  predicate IsBasicForeground(p: string) {
    var n := Number(p);
    && n.Some?
    && (30.0 - HALF_48 <= n.value <= 37.0 + HALF_47 || 90.0 - HALF_46 <= n.value <= 97.0 + HALF_46)
  }

  /** The filter's reading of one parameter (with those an extended colour takes
      up), and the parts it pushes. */
  function RewriteGroup(grey: Grey, f: Filter, group: seq<string>): (Filter, seq<string>)
    requires group != []
  {
    var p := group[0];
    if p == "" || p == "0" then (Fresh, [p])
    else if IsExtended(p) then
      if p == "38" then
        (f.(foregroundIsDefault := false, dimReplacementActive := false),
         group + if f.dimReplacementActive then ["2"] else [])
      else (f, group)
    else if HasPrefix(p, "38:") || IsBasicForeground(p) then
      (f.(foregroundIsDefault := false, dimReplacementActive := false),
       [p] + if f.dimReplacementActive then ["2"] else [])
    else if p == "39" then
      if f.dimActive then (f.(foregroundIsDefault := true, dimReplacementActive := true), [grey.Params()])
      else (f.(foregroundIsDefault := true), [p])
    else if p == "2" then
      if f.foregroundIsDefault then (f.(dimActive := true, dimReplacementActive := true), [grey.Params()])
      else (f.(dimActive := true), [p])
    else if p == "22" then
      if f.dimReplacementActive then (Filter(true, false, false), [p, "39"])
      else (f.(dimActive := false), [p])
    else (f, [p])
  }

  function Rewrite(grey: Grey, f: Filter, parts: seq<string>): (Filter, seq<string>)
    decreases |parts|
  {
    if parts == [] then (f, [])
    else
      var n := GroupLength(parts);
      var (next, pushed) := RewriteGroup(grey, f, parts[..n]);
      var (last, more) := Rewrite(grey, next, parts[n..]);
      (last, pushed + more)
  }

  // ---- The simulation ----------------------------------------------------------------

  /** The filter knows the original's foreground and faint, and stands in for
      faint exactly on the default foreground. */
  predicate InSync(f: Filter, original: Attributes) {
    && f.foregroundIsDefault == original.foreground.Default?
    && f.dimActive == original.dim
    && f.dimReplacementActive == (original.foreground.Default? && original.dim)
  }

  /** The terminal fed the rewritten stream has the attributes of the one fed the
      original, except that faint on the default foreground is grey there (and
      possibly faint too, never faint where the original is not). */
  predicate Stands(grey: Grey, original: Attributes, shown: Attributes) {
    && shown.rest == original.rest
    && (shown.dim ==> original.dim)
    && (if original.foreground.Default? && original.dim then shown.foreground == Explicit(grey.Group())
        else shown.foreground == original.foreground && shown.dim == original.dim)
  }

  /** A foreground colour cut short, or in a mode there isn't, on the default
      foreground: a terminal ignores it and the filter doesn't. */
  predicate Misread(a: Attributes, group: seq<string>)
    requires group != []
  {
    group[0] == "38" && !Complete(group) && a.foreground.Default?
  }

  predicate AllUsual(fields: seq<string>) {
    forall i :: 0 <= i < |fields| ==> Usual(fields[i])
  }

  /** The filter reads the fields as a terminal does that has `a` in force. */
  predicate Readable(a: Attributes, fields: seq<string>)
    decreases |fields|
  {
    fields != [] ==>
      var n := GroupLength(fields);
      var group := Normal(fields[..n]);
      !Misread(a, group) && Readable(ApplyGroup(a, group), fields[n..])
  }

  /** The filter's numeric test finds just the basic foreground colours. */
  lemma BasicAgrees(p: string)
    requires ':' in p || AllDigits(p)
    ensures IsBasicForeground(p) <==> IsBasic(Strip(p))
  {
    if ':' in p {
      var i :| 0 <= i < |p| && p[i] == ':';
      assert !IsDigit(p[i]);
      NumberWithout(':', p);
    } else if p == "" {
      assert TrimEnd(TrimStart("")) == "";
    } else {
      NumberOfDigits(p);
      StripKeepsValue(p);
      IsBasicValue(Strip(p));
      assert IsBasicForeground(p) <==> 30 <= Value(p) <= 37 || 90 <= Value(p) <= 97;
    }
  }

  lemma IsBasicValue(p: string)
    requires AllDigits(p) && p != "" && (|p| > 1 ==> p[0] != '0')
    ensures IsBasic(p) <==> 30 <= Value(p) <= 37 || 90 <= Value(p) <= 97
  {
    if |p| == 1 {
      assert p[..0] == "";
      assert Value(p) == p[0] as int - '0' as int;
    } else {
      ValueBounds(p);
    }
  }

  lemma NoPrefix(p: string)
    requires AllDigits(p)
    ensures !HasPrefix(p, "38:")
  {
    assert |p| > 2 ==> p[2] != "38:"[2];
  }

  /** What the filter compares with a parameter, a terminal finds it to be. */
  lemma UsualAgrees(p: string)
    requires Usual(p)
    ensures forall text :: text in COMPARED ==> (Strip(p) == text <==> p == text)
    ensures Strip(p) == "" <==> p == ""
    ensures HasPrefix(Strip(p), "38:") <==> HasPrefix(p, "38:")
    ensures IsBasicForeground(p) <==> IsBasic(Strip(p))
  {
    BasicAgrees(p);
    if AllDigits(p) {
      StripKeepsValue(p);
      NoPrefix(p);
      NoPrefix(Strip(p));
    }
  }

  /** And so both take the same fields for one group. */
  lemma SameGroup(fields: seq<string>)
    requires fields != [] && AllUsual(fields)
    ensures GroupLength(Normal(fields)) == GroupLength(fields)
    ensures var n := GroupLength(fields);
      Normal(fields)[..n] == Normal(fields[..n]) && Normal(fields)[n..] == Normal(fields[n..])
  {
    NormalSlices(fields, GroupLength(fields));
    UsualAgrees(fields[0]);
    if |fields| > 1 {
      UsualAgrees(fields[1]);
    }
    hide Usual;
    hide Strip;
    hide IsBasic;
    hide IsBasicForeground;
    hide HasPrefix;
  }

  lemma NormalSlices(fields: seq<string>, n: nat)
    requires n <= |fields|
    ensures Normal(fields)[..n] == Normal(fields[..n]) && Normal(fields)[n..] == Normal(fields[n..])
  {
    hide Strip;
  }

  /** A terminal takes the first group, then the rest. */
  lemma DisplayStep(a: Attributes, fields: seq<string>)
    requires fields != [] && AllUsual(fields)
    ensures var n := GroupLength(fields);
      var group, tail := fields[..n], fields[n..];
      && AllUsual(group) && AllUsual(tail)
      && GroupLength(group) == |group|
      && Display(a, fields) == Display(ApplyGroup(a, Normal(group)), tail)
      && (Closed(Normal(fields)) <==> Whole(Normal(group)) && Closed(Normal(tail)))
      && (Whole(Normal(group)) || tail == [])
  {
    SameGroup(fields);
    SameGroup(fields[..GroupLength(fields)]);
    hide Usual;
    hide Strip;
    hide ApplyGroup;
  }

  /** What pushing a group and one more parameter as parts does to a terminal. */
  lemma Pushes(b: Attributes, group: seq<string>, more: string)
    requires AllUsual(group) && Whole(Normal(group)) && (more == "2" || more == "39")
    ensures Fields(group) == group && Closed(Normal(group)) && Display(b, group) == ApplyGroup(b, Normal(group))
    ensures Fields(group + [more]) == group + [more] && Closed(Normal(group + [more]))
    ensures Display(b, group + [more]) == ApplyGroup(ApplyGroup(b, Normal(group)), [more])
  {
    hide Split;
    var g := Normal(group);
    FieldsOf(group);
    FieldsOf([more]);
    FieldsAppend(group, [more]);
    NormalAppend(group, [more]);
    assert Normal([more]) == [more];
    GroupApplies(b, g);
    GroupApplies(ApplyGroup(b, g), [more]);
    ClosedAppend(g, [more]);
    ApplyAppend(b, g, [more]);
  }

  /** What a parameter that becomes the grey does to a terminal. */
  lemma PushesGrey(grey: Grey, b: Attributes)
    requires grey.Valid()
    ensures Closed(Normal(Fields([grey.Params()])))
    ensures Display(b, Fields([grey.Params()])) == b.(foreground := Explicit(grey.Group()))
  {
    hide Split;
    hide Join;
    grey.ParamsSplit();
    GroupApplies(b, grey.Group());
  }

  /** A colour with all its fields. */
  lemma ColourStands(grey: Grey, f: Filter, a: Attributes, b: Attributes, group: seq<string>)
    requires AllUsual(group) && group != [] && Whole(Normal(group)) && !Misread(a, Normal(group))
    requires IsExtended(group[0]) && InSync(f, a) && Stands(grey, a, b)
    ensures var (next, pushed) := RewriteGroup(grey, f, group);
      && Closed(Normal(Fields(pushed)))
      && InSync(next, ApplyGroup(a, Normal(group)))
      && Stands(grey, ApplyGroup(a, Normal(group)), Display(b, Fields(pushed)))
  {
    hide Fields;
    hide Display;
    hide Closed;
    UsualAgrees(group[0]);
    hide Usual;
    hide Strip;
    hide IsBasicForeground;
    Pushes(b, group, "2");
    assert group + [] == group;
  }

  /** Any other parameter. */
  lemma ParameterStands(grey: Grey, f: Filter, a: Attributes, b: Attributes, p: string)
    requires grey.Valid() && Usual(p) && !IsExtended(p)
    requires InSync(f, a) && Stands(grey, a, b)
    ensures var (next, pushed) := RewriteGroup(grey, f, [p]);
      && Closed(Normal(Fields(pushed)))
      && InSync(next, ApplyGroup(a, Normal([p])))
      && Stands(grey, ApplyGroup(a, Normal([p])), Display(b, Fields(pushed)))
  {
    hide Fields;
    hide Display;
    hide Closed;
    hide Join;
    UsualAgrees(p);
    hide Usual;
    hide Strip;
    hide IsBasicForeground;
    Pushes(b, [p], "2");
    Pushes(b, [p], "39");
    PushesGrey(grey, b);
    assert [p] + [] == [p] && [p] + ["39"] == [p, "39"];
  }

  /** One group that is all there, from states in step to states in step. */
  lemma WholeGroupStands(grey: Grey, f: Filter, a: Attributes, b: Attributes, group: seq<string>)
    requires grey.Valid() && AllUsual(group) && group != [] && Whole(Normal(group)) && !Misread(a, Normal(group))
    requires InSync(f, a) && Stands(grey, a, b)
    ensures var (next, pushed) := RewriteGroup(grey, f, group);
      && Closed(Normal(Fields(pushed)))
      && InSync(next, ApplyGroup(a, Normal(group)))
      && Stands(grey, ApplyGroup(a, Normal(group)), Display(b, Fields(pushed)))
  {
    UsualAgrees(group[0]);
    hide RewriteGroup;
    hide ApplyGroup;
    hide Display;
    hide Strip;
    if IsExtended(group[0]) {
      ColourStands(grey, f, a, b, group);
    } else {
      assert group == [group[0]];
      ParameterStands(grey, f, a, b, group[0]);
    }
  }

  /** One group, as far as it goes. */
  lemma GroupStands(grey: Grey, f: Filter, a: Attributes, b: Attributes, group: seq<string>)
    requires grey.Valid() && AllUsual(group) && group != [] && GroupLength(group) == |group|
    requires !Misread(a, Normal(group))
    requires InSync(f, a) && Stands(grey, a, b)
    ensures var (next, pushed) := RewriteGroup(grey, f, group);
      && (Whole(Normal(group)) ==> Closed(Normal(Fields(pushed))))
      && InSync(next, ApplyGroup(a, Normal(group)))
      && Stands(grey, ApplyGroup(a, Normal(group)), Display(b, Fields(pushed)))
  {
    if Whole(Normal(group)) {
      WholeGroupStands(grey, f, a, b, group);
    } else {
      UsualAgrees(group[0]);
      SameGroup(group);
      GroupApplies(b, Normal(group));
      hide Usual;
      hide Strip;
      hide Display;
      FieldsOf(group);
      hide Fields;
      assert group + [] == group;
    }
  }

  lemma {:induction false} FieldsOf(parts: seq<string>)
    requires forall i :: 0 <= i < |parts| ==> ';' !in parts[i]
    ensures Fields(parts) == parts
  {
    if parts != [] {
      SplitPlain(parts[0]);
      FieldsOf(parts[1..]);
    }
  }

  lemma GroupApplies(b: Attributes, group: seq<string>)
    requires group != [] && GroupLength(group) == |group|
    ensures Apply(b, group) == ApplyGroup(b, group) && (Whole(group) ==> Closed(group))
  {
    assert group[..|group|] == group && group[|group|..] == [];
  }

  /** What two lots of parts do to a terminal one after the other. */
  lemma PartsAppend(b: Attributes, pushed: seq<string>, more: seq<string>)
    requires Closed(Normal(Fields(pushed))) || more == []
    ensures Display(b, Fields(pushed + more)) == Display(Display(b, Fields(pushed)), Fields(more))
    ensures Closed(Normal(Fields(pushed))) && Closed(Normal(Fields(more))) ==> Closed(Normal(Fields(pushed + more)))
  {
    var p, m := Normal(Fields(pushed)), Normal(Fields(more));
    FieldsAppend(pushed, more);
    NormalAppend(Fields(pushed), Fields(more));
    if Closed(p) {
      ApplyAppend(b, p, m);
      if Closed(m) {
        ClosedAppend(p, m);
      }
    } else {
      assert p + [] == p;
    }
  }

  /** Any parameters that can be read: the terminals stay in step. */
  lemma {:induction false} RewriteStands(grey: Grey, f: Filter, a: Attributes, b: Attributes, fields: seq<string>)
    requires grey.Valid() && AllUsual(fields) && Readable(a, fields)
    requires InSync(f, a) && Stands(grey, a, b)
    ensures var (next, out) := Rewrite(grey, f, fields);
      && (Closed(Normal(fields)) ==> Closed(Normal(Fields(out))))
      && InSync(next, Display(a, fields))
      && Stands(grey, Display(a, fields), Display(b, Fields(out)))
    decreases |fields|
  {
    hide GroupLength;
    hide RewriteGroup;
    hide Misread;
    hide Whole;
    hide InSync;
    hide Stands;
    if fields == [] {
      assert Normal(fields) == [];
    } else {
      hide Display;
      hide Closed;
      hide AllUsual;
      hide Grey.Valid;
      var n := GroupLength(fields);
      var group, tail := fields[..n], fields[n..];
      var (next, pushed) := RewriteGroup(grey, f, group);
      DisplayStep(a, fields);
      GroupStands(grey, f, a, b, group);
      RewriteStands(grey, next, ApplyGroup(a, Normal(group)), Display(b, Fields(pushed)), tail);
      PartsAppend(b, pushed, Rewrite(grey, next, tail).1);
    }
  }

  // ---- Where the hypotheses are needed --------------------------------------------------

  lemma {:induction false} RewriteAppend(grey: Grey, f: Filter, fields: seq<string>, more: seq<string>)
    requires Closed(fields)
    ensures var (next, out) := Rewrite(grey, f, fields);
      var (last, rest) := Rewrite(grey, next, more);
      Rewrite(grey, f, fields + more) == (last, out + rest)
    decreases |fields|
  {
    hide RewriteGroup;
    hide GroupLength;
    hide Whole;
    if fields == [] {
      assert fields + more == more;
      assert [] + Rewrite(grey, f, more).1 == Rewrite(grey, f, more).1;
    } else {
      var n := GroupLength(fields);
      var (next, pushed) := RewriteGroup(grey, f, fields[..n]);
      GroupLengthAppend(fields, more);
      RewriteAppend(grey, next, fields[n..], more);
      assert (fields + more)[n..] == fields[n..] + more;
      var (middle, out) := Rewrite(grey, next, fields[n..]);
      Associate(pushed, out, Rewrite(grey, middle, more).1);
    }
  }

  /** Exactly: as long as everything could be read so far, one more group leaves the
      terminals in step if and only if it is not misread. */
  lemma IncompleteColour(grey: Grey, f: Filter, a: Attributes, b: Attributes, fields: seq<string>, group: seq<string>)
    requires grey.Valid() && AllUsual(fields) && Closed(fields) && Readable(a, fields)
    requires AllUsual(group) && group != [] && GroupLength(group) == |group|
    requires InSync(f, a) && Stands(grey, a, b)
    ensures var (next, out) := Rewrite(grey, f, fields + group);
      var original := Display(a, fields + group);
      InSync(next, original) && Stands(grey, original, Display(b, Fields(out)))
      <==> !Misread(Display(a, fields), Normal(group))
  {
    var (f1, out1) := Rewrite(grey, f, fields);
    var (next, pushed) := RewriteGroup(grey, f1, group);
    var a1, b1 := Display(a, fields), Display(b, Fields(out1));
    RewriteStands(grey, f, a, b, fields);
    RewriteAppend(grey, f, fields, group);
    RewriteOne(grey, f1, group);
    DisplayAppend(a, fields, group);
    SameGroup(group);
    GroupApplies(a1, Normal(group));
    if Misread(a1, Normal(group)) {
      UsualAgrees(group[0]);
    } else {
      GroupStands(grey, f1, a1, b1, group);
      ClosedNormal(fields);
      FieldsAppend(out1, pushed);
      NormalAppend(Fields(out1), Fields(pushed));
      ApplyAppend(b, Normal(Fields(out1)), Normal(Fields(pushed)));
    }
  }

  lemma RewriteOne(grey: Grey, f: Filter, group: seq<string>)
    requires group != [] && GroupLength(group) == |group|
    ensures Rewrite(grey, f, group) == RewriteGroup(grey, f, group)
  {
    var (next, pushed) := RewriteGroup(grey, f, group);
    assert group[..|group|] == group && group[|group|..] == [];
    assert pushed + [] == pushed;
    hide RewriteGroup;
  }

  lemma {:induction false} ClosedNormal(fields: seq<string>)
    requires AllUsual(fields) && Closed(fields)
    ensures Closed(Normal(fields))
    decreases |fields|
  {
    if fields != [] {
      var n := GroupLength(fields);
      SameGroup(fields);
      SameGroup(fields[..n]);
      UsualAgrees(fields[0]);
      ClosedNormal(fields[n..]);
    }
  }

  lemma DisplayAppend(a: Attributes, fields: seq<string>, more: seq<string>)
    requires AllUsual(fields) && Closed(fields)
    ensures Display(a, fields + more) == Display(Display(a, fields), more)
  {
    ClosedNormal(fields);
    NormalAppend(fields, more);
    ApplyAppend(a, Normal(fields), Normal(more));
  }

  /** Faint, then a cut-short palette colour: the `2` pushed to keep faint is read
      as the colour's number. */
  lemma TruncatedColourTakesTheTwo(grey: Grey)
    requires grey.Valid()
    ensures var (f, first) := Rewrite(grey, Fresh, ["2"]);
      var (_, second) := Rewrite(grey, f, ["38", "5"]);
      Display(Display(Initial, Fields(first)), Fields(second)).foreground == Explicit(["38", "5", "2"])
  {
    var (f, first) := Rewrite(grey, Fresh, ["2"]);
    assert Usual("2");
    UsualAgrees("2");
    RewriteOne(grey, Fresh, ["2"]);
    RewriteOne(grey, f, ["38", "5"]);
    var (_, second) := Rewrite(grey, f, ["38", "5"]);
    assert second == ["38", "5", "2"];
    FieldsOf(second);
    assert Normal(second) == second;
    GroupApplies(Display(Initial, Fields(first)), second);
  }

  /** A reset, faint or its end written with leading zeros is one to a terminal and nothing
      to the filter: in step if and only if it changes nothing anyway. */
  lemma LeadingZero(grey: Grey, f: Filter, a: Attributes, b: Attributes, p: string)
    requires grey.Valid() && AllDigits(p) && p != Strip(p) && Strip(p) in {"0", "2", "22", "39"}
    requires InSync(f, a) && Stands(grey, a, b)
    ensures var (next, out) := Rewrite(grey, f, [p]);
      var original := Display(a, [p]);
      InSync(next, original) && Stands(grey, original, Display(b, Fields(out)))
      <==> if Strip(p) == "2" then a.dim
           else if Strip(p) == "22" then !a.dim
           else a.foreground.Default? && !a.dim
  {
    hide Rewrite;
    hide Fields;
    hide Apply;
    hide Closed;
    LeadingZeroUnread(grey, f, p);
    FieldsOf([p]);
    assert Normal([p]) == [Strip(p)];
    hide Strip;
    GroupApplies(a, [Strip(p)]);
    GroupApplies(b, [Strip(p)]);
  }

  lemma LeadingZeroUnread(grey: Grey, f: Filter, p: string)
    requires AllDigits(p) && p != Strip(p) && Strip(p) in {"0", "2", "22", "39"}
    ensures Rewrite(grey, f, [p]) == (f, [p])
  {
    BasicAgrees(p);
    NoPrefix(p);
    RewriteOne(grey, f, [p]);
    hide IsBasicForeground;
  }

  /** Faint with a leading zero is missed. */
  lemma LeadingZeroMissed(grey: Grey)
    ensures Display(Initial, ["02"]) == Initial.(dim := true)
    ensures Rewrite(grey, Fresh, ["02"]) == (Fresh, ["02"])
  {
    assert Strip("02") == "2" by {
      assert "02"[1..] == "2";
    }
    assert Normal(["02"]) == ["2"];
    GroupApplies(Initial, ["2"]);
    LeadingZeroUnread(grey, Fresh, "02");
  }
}
