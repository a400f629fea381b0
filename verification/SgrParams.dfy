/** The parameters of an SGR sequence (ECMA-48 section 8.3.117) as
    src/dimfix.ts takes them apart and a terminal reads them. A byte of the
    stream is a `char` with the byte's code, as `String.fromCharCode` makes it. */
module SgrParams {

  // ---- `split(";")` and `join(";")` ----------------------------------------------

  function Split(s: string): (parts: seq<string>)
    ensures parts != []
  {
    if s == "" then [""] else Prepend(s[0], Split(s[1..]))
  }

  /** The parts once `c` stands before the first of them. */
  function Prepend(c: char, parts: seq<string>): (r: seq<string>)
    requires parts != []
    ensures r != []
  {
    if c == ';' then [""] + parts else [[c] + parts[0]] + parts[1..]
  }

  lemma PrependAppend(c: char, parts: seq<string>, more: seq<string>)
    requires parts != []
    ensures Prepend(c, parts + more) == Prepend(c, parts) + more
  {
    if c != ';' {
      assert (parts + more)[1..] == parts[1..] + more;
    }
  }

  function Join(parts: seq<string>): string {
    if parts == [] then ""
    else if |parts| == 1 then parts[0]
    else parts[0] + ";" + Join(parts[1..])
  }

  /** The parameters that joining `parts` makes, a part that holds several
      (a grey, pushed as one) counted as those. */
  function Fields(parts: seq<string>): seq<string> {
    if parts == [] then [] else Split(parts[0]) + Fields(parts[1..])
  }

  lemma {:induction false} SplitAppend(a: string, b: string)
    ensures Split(a + ";" + b) == Split(a) + Split(b)
  {
    var s := a + ";" + b;
    if a == "" {
      assert s[1..] == b;
    } else {
      SplitAppend(a[1..], b);
      assert s[1..] == a[1..] + ";" + b && s[0] == a[0];
      hide Prepend;
      PrependAppend(a[0], Split(a[1..]), Split(b));
    }
  }

  /** The joined output re-tokenises as intended. */
  lemma {:induction false} SplitJoin(parts: seq<string>)
    requires parts != []
    ensures Split(Join(parts)) == Fields(parts)
  {
    if |parts| == 1 {
      assert Fields(parts) == Split(parts[0]) + [];
    } else {
      SplitAppend(parts[0], Join(parts[1..]));
      SplitJoin(parts[1..]);
    }
  }

  lemma {:induction false} SplitPlain(s: string)
    requires ';' !in s
    ensures Split(s) == [s]
  {
    if s != "" {
      SplitPlain(s[1..]);
      assert [s[0]] + s[1..] == s;
    }
  }

  lemma {:induction false} SplitHasNoSemicolon(s: string)
    ensures forall i :: 0 <= i < |Split(s)| ==> ';' !in Split(s)[i]
  {
    if s != "" {
      SplitHasNoSemicolon(s[1..]);
    }
  }

  lemma {:induction false} FieldsAppend(a: seq<string>, b: seq<string>)
    ensures Fields(a + b) == Fields(a) + Fields(b)
  {
    hide Split;
    if a == [] {
      assert a + b == b;
    } else {
      FieldsAppend(a[1..], b);
      assert (a + b)[1..] == a[1..] + b;
    }
  }

  // ---- How a terminal reads them ----------------------------------------------------

  datatype Colour = Default | Explicit(fields: seq<string>)

  /** The attributes in force. `rest` is everything but the foreground and faint,
      as the parameters that changed it since the last reset: whatever a terminal
      keeps there (bold, background, underline...) is a function of it. */
  datatype Attributes = Attributes(foreground: Colour, dim: bool, rest: seq<seq<string>>)

  const Initial := Attributes(Default, false, [])

  predicate IsExtended(p: string) {
    p == "38" || p == "48" || p == "58"
  }

  predicate IsDigit(c: char) {
    '0' <= c <= '9'
  }

  /** The basic foreground colours, by their names in the standard. */
  predicate IsBasic(p: string) {
    |p| == 2 && (p[0] == '3' || p[0] == '9') && '0' <= p[1] <= '7'
  }

  predicate HasPrefix(p: string, prefix: string) {
    prefix <= p
  }

  /** How many of the fields the first one takes up: `38`, `48` and `58` take a
      mode and what the mode asks for, as far as there are fields. */
  function GroupLength(fields: seq<string>): (n: nat)
    requires fields != []
    ensures 1 <= n <= |fields|
  {
    if !IsExtended(fields[0]) || |fields| == 1 then 1
    else
      var wanted := ColourLength(fields[1]);
      if wanted <= |fields| then wanted else |fields|
  }

  /** What an extended colour in this mode should have. */
  function ColourLength(mode: string): (n: nat)
    ensures n >= 2
  {
    if mode == "5" then 3 else if mode == "2" then 5 else 2
  }

  /** A group that is not cut off by the end of the fields. */
  predicate Whole(group: seq<string>) {
    group != [] && if IsExtended(group[0]) then |group| > 1 && |group| == ColourLength(group[1]) else |group| == 1
  }

  /** A colour with all its fields, in a mode there is; or any other parameter. */
  predicate Complete(group: seq<string>) {
    Whole(group) && (IsExtended(group[0]) ==> group[1] == "5" || group[1] == "2")
  }

  /** What one group does; an incomplete colour does nothing. */
  function ApplyGroup(a: Attributes, group: seq<string>): Attributes
    requires group != []
  {
    var p := group[0];
    if p == "" || p == "0" then Initial
    else if IsExtended(p) then
      if !Complete(group) then a
      else if p == "38" then a.(foreground := Explicit(group))
      else a.(rest := a.rest + [group])
    else if HasPrefix(p, "38:") || IsBasic(p) then a.(foreground := Explicit(group))
    else if p == "39" then a.(foreground := Default)
    else if p == "2" then a.(dim := true)
    else if p == "22" then a.(dim := false, rest := a.rest + [group])
    else a.(rest := a.rest + [group])
  }

  function Apply(a: Attributes, fields: seq<string>): Attributes
    decreases |fields|
  {
    if fields == [] then a
    else
      var n := GroupLength(fields);
      Apply(ApplyGroup(a, fields[..n]), fields[n..])
  }

  /** No group is cut off. */
  predicate Closed(fields: seq<string>) {
    fields != [] ==>
      var n := GroupLength(fields);
      Whole(fields[..n]) && Closed(fields[n..])
  }

  /** A group that is all there stays the same whatever follows it. */
  lemma GroupLengthAppend(fields: seq<string>, more: seq<string>)
    requires fields != [] && Whole(fields[..GroupLength(fields)])
    ensures GroupLength(fields + more) == GroupLength(fields)
    ensures (fields + more)[..GroupLength(fields)] == fields[..GroupLength(fields)]
  {
  }

  lemma {:induction false} ApplyAppend(a: Attributes, fields: seq<string>, more: seq<string>)
    requires Closed(fields)
    ensures Apply(a, fields + more) == Apply(Apply(a, fields), more)
    decreases |fields|
  {
    hide ApplyGroup;
    hide GroupLength;
    hide Whole;
    if fields == [] {
      assert fields + more == more;
    } else {
      var n := GroupLength(fields);
      GroupLengthAppend(fields, more);
      ApplyAppend(ApplyGroup(a, fields[..n]), fields[n..], more);
      assert (fields + more)[n..] == fields[n..] + more;
    }
  }

  lemma {:induction false} ClosedAppend(fields: seq<string>, more: seq<string>)
    requires Closed(fields) && Closed(more)
    ensures Closed(fields + more)
  {
    hide GroupLength;
    hide Whole;
    if fields == [] {
      assert fields + more == more;
    } else {
      var n := GroupLength(fields);
      GroupLengthAppend(fields, more);
      ClosedAppend(fields[n..], more);
      assert (fields + more)[n..] == fields[n..] + more;
    }
  }

  // ---- Numbers ----------------------------------------------------------------------------

  predicate AllDigits(p: string) {
    forall i :: 0 <= i < |p| ==> IsDigit(p[i])
  }

  function Value(p: string): nat
    requires AllDigits(p)
  {
    if p == "" then 0 else 10 * Value(p[..|p| - 1]) + (p[|p| - 1] as int - '0' as int)
  }

  lemma {:induction false} ValueBounds(p: string)
    requires AllDigits(p) && |p| >= 2 && p[0] != '0'
    ensures Value(p) >= 10
    ensures |p| >= 3 ==> Value(p) >= 100
    ensures |p| == 2 ==> Value(p) == 10 * (p[0] as int - '0' as int) + (p[1] as int - '0' as int)
  {
    var init := p[..|p| - 1];
    if |p| == 2 {
      assert init == [p[0]];
      assert init[..0] == "";
      assert Value(init) == p[0] as int - '0' as int;
    } else {
      ValueBounds(init);
    }
  }

  lemma {:induction false} ValueOfZero(p: string)
    requires AllDigits(p) && |p| > 1 && p[0] == '0'
    ensures Value(p[1..]) == Value(p)
  {
    var init := p[..|p| - 1];
    assert init[1..] == p[1..][..|p| - 2];
    if |p| == 2 {
      assert init == "0" && init[..0] == "" && p[1..][..0] == "";
      assert Value(init) == 0 && Value("") == 0;
    } else {
      ValueOfZero(init);
    }
  }

  /** A number without its leading zeros, which ECMA-48 section 5.4.2 gives no meaning. */
  function Strip(p: string): string {
    if |p| > 1 && p[0] == '0' && AllDigits(p) then Strip(p[1..]) else p
  }

  lemma {:induction false} StripKeepsValue(p: string)
    requires AllDigits(p)
    ensures AllDigits(Strip(p)) && Value(Strip(p)) == Value(p) && (Strip(p) == "" ==> p == "")
    ensures |Strip(p)| > 1 ==> Strip(p)[0] != '0'
  {
    if |p| > 1 && p[0] == '0' {
      StripKeepsValue(p[1..]);
      ValueOfZero(p);
    }
  }

  /** The fields as a terminal takes them. */
  function Normal(fields: seq<string>): (r: seq<string>)
    ensures |r| == |fields|
  {
    seq(|fields|, i requires 0 <= i < |fields| => Strip(fields[i]))
  }

  lemma NormalAppend(a: seq<string>, b: seq<string>)
    ensures Normal(a + b) == Normal(a) + Normal(b)
  {
    hide Strip;
  }

  /** What a terminal makes of the fields of an SGR sequence. */
  function Display(a: Attributes, fields: seq<string>): Attributes {
    Apply(a, Normal(fields))
  }

  /** A number or a colon-separated list: what ECMA-48 section 5.4.2 allows; and the
      numbers that the filter compares as text are written the one usual way. */
  predicate Usual(p: string) {
    (':' in p || AllDigits(p)) && ';' !in p && (Strip(p) in COMPARED ==> p == Strip(p))
  }

  const COMPARED := {"0", "2", "5", "22", "38", "39", "48", "58"}
}
