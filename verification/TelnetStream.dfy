/** The Telnet byte stream (src-tauri/src/session/telnet.rs) as a printer and a parser of
    the same items: data bytes, option commands and subnegotiations, after RFC 854,
    "TELNET Command Structure". */
module TelnetStream {
  import opened Basics

  const IAC: byte := 255
  const DONT: byte := 254
  const DO: byte := 253
  const WONT: byte := 252
  const WILL: byte := 251
  const SB: byte := 250
  const SE: byte := 240
  const CR: byte := 13
  const LF: byte := 10

  /** Cap on a subnegotiation's payload. */
  const MAX_SUBNEG: nat := 8 * 1024

  datatype Verb = Will | Wont | Do | Dont

  datatype Item =
    | Data(b: byte)
    | Command(verb: Verb, option: byte)
    | Sub(option: byte, payload: seq<byte>)

  // ---- Printing ------------------------------------------------------------------------

  function VerbByte(verb: Verb): byte {
    match verb
    case Will => WILL
    case Wont => WONT
    case Do => DO
    case Dont => DONT
  }

  function Escape(b: byte): seq<byte> {
    if b == IAC then [IAC, IAC] else [b]
  }

  function EscapeAll(bytes: seq<byte>): seq<byte>
    decreases |bytes|
  {
    if bytes == [] then [] else Escape(bytes[0]) + EscapeAll(bytes[1..])
  }

  function Print(item: Item): seq<byte> {
    match item
    case Data(b) => Escape(b)
    case Command(verb, option) => [IAC, VerbByte(verb), option]
    case Sub(option, payload) => [IAC, SB, option] + EscapeAll(payload) + [IAC, SE]
  }

  function PrintAll(items: seq<Item>): seq<byte>
    decreases |items|
  {
    if items == [] then [] else Print(items[0]) + PrintAll(items[1..])
  }

  // ---- Parsing -------------------------------------------------------------------------

  datatype State = InData | AfterIac | AfterVerb(verb: Verb) | InSb | InSub | InSubIac

  datatype Scan = Scan(state: State, option: byte, payload: seq<byte>)

  /** A scan after some bytes, and the items it has found. */
  datatype Scanned = Scanned(scan: Scan, items: seq<Item>)

  const Start := Scan(InData, 0, [])

  function Push(payload: seq<byte>, b: byte): seq<byte> {
    if |payload| < MAX_SUBNEG then payload + [b] else payload
  }

  function Eat(s: Scan, b: byte): Scanned {
    match s.state
    case InData => if b == IAC then Scanned(s.(state := AfterIac), []) else Scanned(s, [Data(b)])
    case AfterIac =>
      if b == IAC then Scanned(s.(state := InData), [Data(IAC)])
      else
        Scanned(s.(state :=
          if b == WILL then AfterVerb(Will)
          else if b == WONT then AfterVerb(Wont)
          else if b == DO then AfterVerb(Do)
          else if b == DONT then AfterVerb(Dont)
          else if b == SB then InSb
          else InData), [])
    case AfterVerb(verb) => Scanned(s.(state := InData), [Command(verb, b)])
    case InSb => Scanned(Scan(InSub, b, []), [])
    case InSub =>
      Scanned(if b == IAC then s.(state := InSubIac) else s.(payload := Push(s.payload, b)), [])
    case InSubIac =>
      if b == SE then Scanned(s.(state := InData), [Sub(s.option, s.payload)])
      else if b == IAC then Scanned(Scan(InSub, s.option, Push(s.payload, IAC)), [])
      else Scanned(s.(state := InSub), [])
  }

  function EatAll(s: Scan, bytes: seq<byte>): Scanned
    decreases |bytes|
  {
    if bytes == [] then Scanned(s, [])
    else
      var first := Eat(s, bytes[0]);
      var rest := EatAll(first.scan, bytes[1..]);
      Scanned(rest.scan, first.items + rest.items)
  }

  // ---- The stream in parts ----------------------------------------------------------------

  /** However the stream is split, the same items come out. */
  lemma {:induction false} EatTwo(s: Scan, a: seq<byte>, b: seq<byte>)
    ensures var first := EatAll(s, a);
      var second := EatAll(first.scan, b);
      EatAll(s, a + b) == Scanned(second.scan, first.items + second.items)
    decreases |a|
  {
    if a == [] {
      assert a + b == b;
    } else {
      assert (a + b)[1..] == a[1..] + b;
      var first := Eat(s, a[0]);
      EatTwo(first.scan, a[1..], b);
      var middle := EatAll(first.scan, a[1..]);
      var second := EatAll(middle.scan, b);
      assert first.items + (middle.items + second.items) == (first.items + middle.items) + second.items;
    }
  }

  /** No stream grows a payload past the cap. */
  lemma {:induction false} PayloadBounded(s: Scan, bytes: seq<byte>)
    requires |s.payload| <= MAX_SUBNEG
    ensures |EatAll(s, bytes).scan.payload| <= MAX_SUBNEG
    ensures forall item :: item in EatAll(s, bytes).items ==> item.Sub? ==> |item.payload| <= MAX_SUBNEG
    decreases |bytes|
  {
    if bytes != [] {
      PayloadBounded(Eat(s, bytes[0]).scan, bytes[1..]);
    }
  }

  // ---- Round trips ---------------------------------------------------------------------

  /** As much of a payload as is kept. */
  function Capped(payload: seq<byte>): seq<byte> {
    if |payload| <= MAX_SUBNEG then payload else payload[..MAX_SUBNEG]
  }

  predicate Fits(item: Item) {
    item.Sub? ==> |item.payload| <= MAX_SUBNEG
  }

  lemma EatEscaped(option: byte, before: seq<byte>, b: byte)
    ensures EatAll(Scan(InSub, option, before), Escape(b)) == Scanned(Scan(InSub, option, Push(before, b)), [])
  {
    var s := Scan(InSub, option, before);
    if b == IAC {
      EatPair(s, IAC, IAC);
    } else {
      EatOne(s, b);
    }
  }

  lemma CappedMore(before: seq<byte>, payload: seq<byte>)
    requires |before| <= MAX_SUBNEG && payload != []
    ensures |Push(before, payload[0])| <= MAX_SUBNEG
    ensures Capped(Push(before, payload[0]) + payload[1..]) == Capped(before + payload)
  {
    if |before| < MAX_SUBNEG {
      assert (before + [payload[0]]) + payload[1..] == before + payload;
    } else {
      assert (before + payload[1..])[..MAX_SUBNEG] == before == (before + payload)[..MAX_SUBNEG];
    }
  }

  lemma EatNone(s: Scan)
    ensures EatAll(s, []) == Scanned(s, [])
  {
  }

  lemma {:induction false} EatPayload(option: byte, before: seq<byte>, payload: seq<byte>)
    requires |before| <= MAX_SUBNEG
    ensures EatAll(Scan(InSub, option, before), EscapeAll(payload))
         == Scanned(Scan(InSub, option, Capped(before + payload)), [])
    decreases |payload|
  {
    hide EatAll;
    hide Eat;
    hide Escape;
    var s := Scan(InSub, option, before);
    if payload == [] {
      EatNone(s);
      assert before + payload == before;
    } else {
      hide Push;
      hide Capped;
      var b, rest := payload[0], payload[1..];
      EatEscaped(option, before, b);
      CappedMore(before, payload);
      EatPayload(option, Push(before, b), rest);
      EatTwo(s, Escape(b), EscapeAll(rest));
    }
  }

  lemma EatOne(s: Scan, b: byte)
    ensures EatAll(s, [b]) == Eat(s, b)
  {
    assert EatAll(Eat(s, b).scan, []) == Scanned(Eat(s, b).scan, []);
    assert Eat(s, b).items + [] == Eat(s, b).items;
    assert [b][1..] == [];
  }

  lemma EatPair(s: Scan, a: byte, b: byte)
    ensures var first := Eat(s, a);
      EatAll(s, [a, b]) == Scanned(Eat(first.scan, b).scan, first.items + Eat(first.scan, b).items)
  {
    EatTwo(s, [a], [b]);
    EatOne(s, a);
    EatOne(Eat(s, a).scan, b);
    assert [a] + [b] == [a, b];
  }

  /** Printed and parsed, an item is itself. */
  lemma EatPrinted(s: Scan, item: Item)
    requires s.state.InData? && Fits(item)
    ensures var r := EatAll(s, Print(item)); r.scan.state.InData? && r.items == [item]
  {
    match item
    case Data(b) =>
      if b == IAC {
        EatPair(s, IAC, IAC);
        assert [] + [item] == [item];
      } else {
        EatOne(s, b);
      }
    case Command(verb, option) =>
      var middle := s.(state := AfterVerb(verb));
      EatPair(s, IAC, VerbByte(verb));
      assert EatAll(s, [IAC, VerbByte(verb)]) == Scanned(middle, []);
      EatOne(middle, option);
      EatTwo(s, [IAC, VerbByte(verb)], [option]);
      assert [IAC, VerbByte(verb)] + [option] == Print(item);
      assert [] + [item] == [item];
    case Sub(option, payload) =>
      EatPrintedSub(s, option, payload);
  }

  /** A subnegotiation of any length: past the cap, the rest is dropped. */
  lemma EatPrintedSub(s: Scan, option: byte, payload: seq<byte>)
    requires s.state.InData?
    ensures EatAll(s, Print(Sub(option, payload)))
         == Scanned(Scan(InData, option, Capped(payload)), [Sub(option, Capped(payload))])
  {
    var head, body, tail := [IAC, SB, option], EscapeAll(payload), [IAC, SE];
    var inside, full := Scan(InSub, option, []), Scan(InSub, option, Capped(payload));
    EatPair(s, IAC, SB);
    EatOne(s.(state := InSb), option);
    EatTwo(s, [IAC, SB], [option]);
    assert [IAC, SB] + [option] == head;
    assert EatAll(s, head) == Scanned(inside, []);
    EatPayload(option, [], payload);
    assert [] + payload == payload;
    EatPair(full, IAC, SE);
    hide Capped;
    assert EatAll(full, tail) == Scanned(full.(state := InData), [Sub(option, full.payload)]);
    EatTwo(inside, body, tail);
    EatTwo(s, head, body + tail);
    assert head + (body + tail) == head + body + tail;
  }

  /** Up to 8192 bytes of a payload are read whole. */
  lemma PayloadRead(option: byte, payload: seq<byte>)
    requires |payload| <= 8192
    ensures EatAll(Start, Print(Sub(option, payload))).items == [Sub(option, payload)]
  {
    EatPrinted(Start, Sub(option, payload));
  }

  /** Any other command, in data or among a payload, is skipped. */
  lemma EatOther(s: Scan, b: byte)
    requires s.state.InData? || s.state.InSub?
    requires b != IAC && if s.state.InData? then b !in {WILL, WONT, DO, DONT, SB} else b != SE
    ensures EatAll(s, [IAC, b]) == Scanned(s, [])
  {
    EatPair(s, IAC, b);
  }

  /** Whatever is printed is parsed back, item for item, and the parser is ready for more. */
  lemma {:induction false} EatPrintedAll(s: Scan, items: seq<Item>)
    requires s.state.InData? && forall item :: item in items ==> Fits(item)
    ensures var r := EatAll(s, PrintAll(items)); r.scan.state.InData? && r.items == items
    decreases |items|
  {
    if items != [] {
      EatPrinted(s, items[0]);
      var middle := EatAll(s, Print(items[0])).scan;
      EatPrintedAll(middle, items[1..]);
      EatTwo(s, Print(items[0]), PrintAll(items[1..]));
      assert items == [items[0]] + items[1..];
    }
  }

  lemma {:induction false} PrintTwo(a: seq<Item>, b: seq<Item>)
    ensures PrintAll(a + b) == PrintAll(a) + PrintAll(b)
    decreases |a|
  {
    if a == [] {
      assert a + b == b;
    } else {
      assert (a + b)[1..] == a[1..] + b;
      PrintTwo(a[1..], b);
      assert Print(a[0]) + (PrintAll(a[1..]) + PrintAll(b)) == (Print(a[0]) + PrintAll(a[1..])) + PrintAll(b);
    }
  }

  // ---- Keystrokes -------------------------------------------------------------------------

  /** Every line end, a CR alone or with its LF, as CR LF. */
  function LineEnds(input: seq<byte>): seq<byte>
    decreases |input|
  {
    if input == [] then []
    else if input[0] != CR then [input[0]] + LineEnds(input[1..])
    else [CR, LF] + LineEnds(if |input| > 1 && input[1] == LF then input[2..] else input[1..])
  }

  function DataItems(bytes: seq<byte>): (items: seq<Item>)
    ensures |items| == |bytes| && forall i :: 0 <= i < |items| ==> items[i] == Data(bytes[i])
  {
    seq(|bytes|, i requires 0 <= i < |bytes| => Data(bytes[i]))
  }

  lemma {:induction false} EscapeTwo(a: seq<byte>, b: seq<byte>)
    ensures EscapeAll(a + b) == EscapeAll(a) + EscapeAll(b)
    decreases |a|
  {
    if a == [] {
      assert a + b == b;
    } else {
      assert (a + b)[1..] == a[1..] + b;
      EscapeTwo(a[1..], b);
      assert Escape(a[0]) + (EscapeAll(a[1..]) + EscapeAll(b)) == (Escape(a[0]) + EscapeAll(a[1..])) + EscapeAll(b);
    }
  }

  lemma {:induction false} PrintData(bytes: seq<byte>)
    ensures PrintAll(DataItems(bytes)) == EscapeAll(bytes)
    decreases |bytes|
  {
    if bytes != [] {
      PrintData(bytes[1..]);
      assert DataItems(bytes)[1..] == DataItems(bytes[1..]);
    }
  }

  /** What `encode_output` does with the byte at `i`, and where it goes on. */
  datatype Typed = Typed(bytes: seq<byte>, next: nat)

  function TypeAt(input: seq<byte>, i: nat): (t: Typed)
    requires i < |input|
    ensures i < t.next <= |input|
  {
    if input[i] != CR then Typed([input[i]], i + 1)
    else Typed([CR, LF], if i + 1 < |input| && input[i + 1] == LF then i + 2 else i + 1)
  }

  lemma LineEndsAt(input: seq<byte>, i: nat)
    requires i < |input|
    ensures var t := TypeAt(input, i);
      LineEnds(input[i..]) == t.bytes + LineEnds(input[t.next..])
  {
    assert input[i..][1..] == input[i + 1..];
    if i + 1 < |input| {
      assert input[i..][2..] == input[i + 2..];
    }
  }

  lemma EscapeTyped(input: seq<byte>, i: nat)
    requires i < |input|
    ensures EscapeAll(TypeAt(input, i).bytes) == if input[i] == CR then [CR, LF] else Escape(input[i])
  {
    var b := input[i];
    assert [CR, LF][1..] == [LF] && [LF][1..] == [];
    assert [b][1..] == [] && Escape(b) + [] == Escape(b);
    assert EscapeAll([LF]) == [LF] + [];
  }

  lemma TypedStep(input: seq<byte>, i: nat, done: seq<byte>)
    requires i < |input| && LineEnds(input) == done + LineEnds(input[i..])
    ensures var t := TypeAt(input, i);
      && LineEnds(input) == (done + t.bytes) + LineEnds(input[t.next..])
      && EscapeAll(done + t.bytes) == EscapeAll(done) + if input[i] == CR then [CR, LF] else Escape(input[i])
  {
    hide LineEnds;
    hide EscapeAll;
    hide Escape;
    hide TypeAt;
    var t := TypeAt(input, i);
    LineEndsAt(input, i);
    EscapeTyped(input, i);
    EscapeTwo(done, t.bytes);
    assert done + (t.bytes + LineEnds(input[t.next..])) == (done + t.bytes) + LineEnds(input[t.next..]);
  }

  lemma DataReceived(bytes: seq<byte>)
    ensures var r := EatAll(Start, EscapeAll(bytes)); r.scan.state.InData? && r.items == DataItems(bytes)
  {
    PrintData(bytes);
    EatPrintedAll(Start, DataItems(bytes));
    hide *;
  }

  /** `encode_output`: the peer parses what was typed, as data, with every CR or CR LF
      as CR LF. */
  method EncodeOutput(input: seq<byte>) returns (out: seq<byte>)
    ensures EatAll(Start, out).items == DataItems(LineEnds(input))
    ensures EatAll(Start, out).scan.state.InData?
  {
    hide EatAll;
    hide LineEnds;
    hide EscapeAll;
    out := [];
    var i := 0;
    ghost var done: seq<byte> := [];
    NothingTyped(input);
    while i < |input|
      invariant 0 <= i <= |input|
      invariant LineEnds(input) == done + LineEnds(input[i..])
      invariant out == EscapeAll(done)
    {
      TypedStep(input, i, done);
      done := done + TypeAt(input, i).bytes;
      var b := input[i];
      if b == IAC {
        out := out + [IAC, IAC];
      } else if b == CR {
        out := out + [CR, LF];
        if i + 1 < |input| && input[i + 1] == LF {
          i := i + 1;
        }
      } else {
        out := out + [b];
      }
      i := i + 1;
    }
    NothingTyped(input[i..]);
    assert done + [] == done;
    DataReceived(done);
  }

  lemma NothingTyped(input: seq<byte>)
    ensures EscapeAll([]) == [] && LineEnds(input) == [] + LineEnds(input[0..])
    ensures input == [] ==> LineEnds(input) == []
  {
    assert input[0..] == input;
  }
}
