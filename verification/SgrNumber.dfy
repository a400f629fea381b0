/** ECMAScript's `Number(s)` on what can stand before a final byte of a control
    sequence: without letters there is no exponent, no hexadecimal, no Infinity. */
module SgrNumber {
  import opened Basics
  import opened SgrParams

  /** The white space among the characters that stand for one byte. */
  predicate IsSpace(c: char) {
    '\t' <= c <= '\r' || c == ' ' || c == '\U{a0}'
  }

  function TrimStart(s: string): string {
    if s != "" && IsSpace(s[0]) then TrimStart(s[1..]) else s
  }

  function TrimEnd(s: string): string {
    if s != "" && IsSpace(s[|s| - 1]) then TrimEnd(s[..|s| - 1]) else s
  }

  /** How many digits `s` starts with. */
  function Digits(s: string): (n: nat)
    ensures n <= |s| && AllDigits(s[..n])
    ensures n < |s| ==> !IsDigit(s[n])
  {
    if s == "" || !IsDigit(s[0]) then 0
    else
      var n := Digits(s[1..]);
      assert s[..n + 1] == [s[0]] + s[1..][..n];
      n + 1
  }

  /** The digits after the point. */
  function Fraction(digits: string): real
    requires AllDigits(digits)
  {
    if digits == "" then 0.0
    else ((digits[0] as int - '0' as int) as real + Fraction(digits[1..])) / 10.0
  }

  /** Digits with a point among them, before them or after them, or none. */
  function Unsigned(s: string): Option<real> {
    var n := Digits(s);
    if n == |s| then if n == 0 then None else Some(Value(s) as real)
    else if s[n] == '.' && AllDigits(s[n + 1..]) && |s| > 1 then Some(Value(s[..n]) as real + Fraction(s[n + 1..]))
    else None
  }

  /** The number, before it is rounded; None: not a number. */
  function Number(s: string): Option<real> {
    var t := TrimEnd(TrimStart(s));
    if t == "" then Some(0.0)
    else if t[0] == '+' then Unsigned(t[1..])
    else if t[0] == '-' then
      var u := Unsigned(t[1..]);
      if u.Some? then Some(-u.value) else None
    else Unsigned(t)
  }

  /** Digits are the number they write. */
  lemma NumberOfDigits(s: string)
    requires AllDigits(s) && s != ""
    ensures Number(s) == Some(Value(s) as real)
  {
    assert IsDigit(s[0]) && IsDigit(s[|s| - 1]);
    assert TrimEnd(TrimStart(s)) == s;
    assert Digits(s) == |s|;
  }

  lemma {:induction false} TrimStartKeeps(c: char, s: string)
    requires c in s && !IsSpace(c)
    ensures c in TrimStart(s)
  {
    if IsSpace(s[0]) {
      TrimStartKeeps(c, s[1..]);
    }
  }

  lemma {:induction false} TrimEndKeeps(c: char, s: string)
    requires c in s && !IsSpace(c)
    ensures c in TrimEnd(s)
  {
    if IsSpace(s[|s| - 1]) {
      assert s == s[..|s| - 1] + [s[|s| - 1]];
      TrimEndKeeps(c, s[..|s| - 1]);
    }
  }

  lemma UnsignedWithout(c: char, s: string)
    requires c in s && !IsDigit(c) && c != '.'
    ensures Unsigned(s).None?
  {
    var n := Digits(s);
    var i :| 0 <= i < |s| && s[i] == c;
    forall k | 0 <= k < n ensures IsDigit(s[k]) {
      assert s[..n][k] == s[k];
    }
    if n < i {
      assert s[n + 1..][i - n - 1] == c;
    }
  }

  /** A character that no number has in it. */
  lemma NumberWithout(c: char, s: string)
    requires c in s && !IsSpace(c) && !IsDigit(c) && c != '.' && c != '+' && c != '-'
    ensures Number(s).None?
  {
    TrimStartKeeps(c, s);
    TrimEndKeeps(c, TrimStart(s));
    var t := TrimEnd(TrimStart(s));
    UnsignedWithout(c, t);
    if t[0] == '+' || t[0] == '-' {
      UnsignedWithout(c, t[1..]);
    }
  }
}
