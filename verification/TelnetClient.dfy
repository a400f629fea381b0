/** The Telnet client's option negotiation (src-tauri/src/session/telnet.rs), after
    RFC 854, "General Considerations": what it answers, and what it has agreed to. */
module TelnetClient {
  import opened Basics
  import opened TelnetStream

  type u16 = x: int | 0 <= x < 0x1_0000

  const ECHO: byte := 1
  const SGA: byte := 3
  const TTYPE: byte := 24
  const NAWS: byte := 31

  /** `xterm-256color` */
  const TERM: seq<byte> := [120, 116, 101, 114, 109, 45, 50, 53, 54, 99, 111, 108, 111, 114]

  /** Options we perform, options we let the peer perform, whether it is told the
      window's size. */
  datatype Options = Options(local: set<byte>, remote: set<byte>, naws: bool)

  predicate Supported(option: byte) {
    option == SGA || option == TTYPE || option == NAWS
  }

  predicate Wanted(option: byte) {
    option == ECHO || option == SGA
  }

  /** Section 2 of RFC 1073: width and height, the high byte first. */
  function SizePayload(cols: u16, rows: u16): seq<byte> {
    [cols / 256, cols % 256, rows / 256, rows % 256]
  }

  function WindowSize(cols: u16, rows: u16): Item {
    Sub(NAWS, SizePayload(cols, rows))
  }

  /** The options after an item, and what is sent for it. */
  datatype Reaction = Reaction(options: Options, sent: seq<Item>)

  function React(o: Options, item: Item, cols: u16, rows: u16): Reaction {
    match item
    case Data(_) => Reaction(o, [])
    case Command(Will, option) =>
      if !Wanted(option) then Reaction(o, [Command(Dont, option)])
      else if option in o.remote then Reaction(o, [])
      else Reaction(o.(remote := o.remote + {option}), [Command(Do, option)])
    case Command(Wont, option) =>
      if option in o.remote then Reaction(o.(remote := o.remote - {option}), [Command(Dont, option)])
      else Reaction(o, [])
    case Command(Do, option) =>
      if !Supported(option) then Reaction(o, [Command(Wont, option)])
      else
        var agree := if option in o.local then [] else [Command(Will, option)];
        var size := if option == NAWS then [WindowSize(cols, rows)] else [];
        Reaction(Options(o.local + {option}, o.remote, o.naws || option == NAWS), agree + size)
    case Command(Dont, option) =>
      Reaction(Options(o.local - {option}, o.remote, o.naws && option != NAWS),
               if option in o.local then [Command(Wont, option)] else [])
    case Sub(option, payload) =>
      Reaction(o, if option == TTYPE && payload != [] && payload[0] == 1 then [Sub(TTYPE, [0] + TERM)] else [])
  }

  function ReactAll(o: Options, items: seq<Item>, cols: u16, rows: u16): Reaction
    decreases |items|
  {
    if items == [] then Reaction(o, [])
    else
      var first := React(o, items[0], cols, rows);
      var rest := ReactAll(first.options, items[1..], cols, rows);
      Reaction(rest.options, first.sent + rest.sent)
  }

  lemma {:induction false} ReactTwo(o: Options, a: seq<Item>, b: seq<Item>, cols: u16, rows: u16)
    ensures var first := ReactAll(o, a, cols, rows);
      var second := ReactAll(first.options, b, cols, rows);
      ReactAll(o, a + b, cols, rows) == Reaction(second.options, first.sent + second.sent)
    decreases |a|
  {
    if a == [] {
      assert a + b == b;
    } else {
      assert (a + b)[1..] == a[1..] + b;
      var first := React(o, a[0], cols, rows);
      ReactTwo(first.options, a[1..], b, cols, rows);
      var middle := ReactAll(first.options, a[1..], cols, rows);
      var last := ReactAll(middle.options, b, cols, rows);
      assert first.sent + (middle.sent + last.sent) == (first.sent + middle.sent) + last.sent;
    }
  }

  // ---- What has been said --------------------------------------------------------------

  /** The last WILL or WONT said for an option was a WILL; the last DO or DONT a DO. */
  predicate SaidWill(log: seq<Item>, option: byte)
    decreases |log|
  {
    log != [] &&
    var last, before := log[|log| - 1], log[..|log| - 1];
    if last == Command(Will, option) then true
    else if last == Command(Wont, option) then false
    else SaidWill(before, option)
  }

  predicate SaidDo(log: seq<Item>, option: byte)
    decreases |log|
  {
    log != [] &&
    var last, before := log[|log| - 1], log[..|log| - 1];
    if last == Command(Do, option) then true
    else if last == Command(Dont, option) then false
    else SaidDo(before, option)
  }

  /** What is in force is what was last said. */
  ghost predicate Consistent(o: Options, log: seq<Item>) {
    && (forall option :: option in o.local <==> SaidWill(log, option))
    && (forall option :: option in o.remote <==> SaidDo(log, option))
    && (o.naws <==> NAWS in o.local)
    && (forall option :: option in o.local ==> Supported(option))
    && (forall option :: option in o.remote ==> Wanted(option))
  }

  /** Nothing in force is agreed to again. */
  ghost predicate NothingTwice(log: seq<Item>) {
    forall i :: 0 <= i < |log| ==> !Again(log[..i], log[i])
  }

  predicate Again(log: seq<Item>, item: Item) {
    item.Command? &&
    match item.verb
    case Will => SaidWill(log, item.option)
    case Do => SaidDo(log, item.option)
    case _ => false
  }

  /** All of it can be parsed, and none of it is data. */
  predicate Control(item: Item) {
    !item.Data? && Fits(item)
  }

  ghost predicate Proper(o: Options, log: seq<Item>) {
    && Consistent(o, log)
    && NothingTwice(log)
    && forall item :: item in log ==> Control(item)
  }

  /** The options after saying one more thing. */
  function After(o: Options, item: Item): Options {
    match item
    case Command(Will, option) => o.(local := o.local + {option})
    case Command(Wont, option) => o.(local := o.local - {option})
    case Command(Do, option) => o.(remote := o.remote + {option})
    case Command(Dont, option) => o.(remote := o.remote - {option})
    case _ => o
  }

  lemma SaidMore(log: seq<Item>, item: Item, option: byte)
    ensures SaidWill(log + [item], option)
        <==> if item == Command(Will, option) then true else item != Command(Wont, option) && SaidWill(log, option)
    ensures SaidDo(log + [item], option)
        <==> if item == Command(Do, option) then true else item != Command(Dont, option) && SaidDo(log, option)
  {
    assert (log + [item])[..|log|] == log;
  }

  lemma SayOne(o: Options, log: seq<Item>, item: Item, t: Options)
    requires Proper(o, log) && Control(item) && !Again(log, item)
    requires t == After(o, item).(naws := t.naws) && (t.naws <==> NAWS in t.local)
    requires item.Command? ==>
      (item.verb.Will? ==> Supported(item.option)) && (item.verb.Do? ==> Wanted(item.option))
    ensures Proper(t, log + [item])
  {
    hide SaidWill;
    hide SaidDo;
    forall option
      ensures option in t.local <==> SaidWill(log + [item], option)
      ensures option in t.remote <==> SaidDo(log + [item], option)
    {
      SaidMore(log, item, option);
    }
    var longer := log + [item];
    forall i | 0 <= i < |longer| ensures !Again(longer[..i], longer[i]) {
      assert longer[..i] == log[..i];
    }
  }

  /** Whatever the peer sends, the client stays proper. */
  lemma ReactStaysProper(o: Options, log: seq<Item>, item: Item, cols: u16, rows: u16)
    requires Proper(o, log)
    ensures var r := React(o, item, cols, rows); Proper(r.options, log + r.sent)
  {
    var r := React(o, item, cols, rows);
    hide SaidWill;
    hide SaidDo;
    if r.sent == [] {
      assert log + r.sent == log;
      assert r.options == o;
    } else if |r.sent| == 1 {
      assert r.sent == [r.sent[0]];
      SayOne(o, log, r.sent[0], r.options);
    } else {
      SayOne(o, log, r.sent[0], r.options);
      SayOne(r.options, log + [r.sent[0]], r.sent[1], r.options);
      assert log + [r.sent[0]] + [r.sent[1]] == log + r.sent;
    }
  }

  lemma {:induction false} StaysProper(o: Options, log: seq<Item>, items: seq<Item>, cols: u16, rows: u16)
    requires Proper(o, log)
    ensures var r := ReactAll(o, items, cols, rows); Proper(r.options, log + r.sent)
    decreases |items|
  {
    hide Proper;
    hide React;
    if items == [] {
      assert log + [] == log;
    } else {
      var first := React(o, items[0], cols, rows);
      ReactStaysProper(o, log, items[0], cols, rows);
      StaysProper(first.options, log + first.sent, items[1..], cols, rows);
      var rest := ReactAll(first.options, items[1..], cols, rows);
      assert (log + first.sent) + rest.sent == log + (first.sent + rest.sent);
    }
  }

  predicate Offers(sent: seq<Item>, verb: Verb, option: byte) {
    Command(verb, option) in sent
  }

  /** A request for what can be done is honoured, and acknowledged exactly if it
      changes what is in force; one for anything else is refused; and what the peer
      doesn't want any more is given up. */
  lemma HonouredOrRefused(o: Options, log: seq<Item>, option: byte, cols: u16, rows: u16)
    requires Proper(o, log)
    ensures var r := React(o, Command(Do, option), cols, rows);
      && (option in r.options.local <==> Supported(option))
      && (Offers(r.sent, Will, option) <==> option in r.options.local && option !in o.local)
      && (Offers(r.sent, Wont, option) <==> !Supported(option))
      && (WindowSize(cols, rows) in r.sent <==> option == NAWS)
    ensures var r := React(o, Command(Will, option), cols, rows);
      && (option in r.options.remote <==> Wanted(option))
      && (Offers(r.sent, Do, option) <==> option in r.options.remote && option !in o.remote)
      && (Offers(r.sent, Dont, option) <==> !Wanted(option))
    ensures var r := React(o, Command(Dont, option), cols, rows);
      option !in r.options.local && (Offers(r.sent, Wont, option) <==> option in o.local)
    ensures var r := React(o, Command(Wont, option), cols, rows);
      option !in r.options.remote && (Offers(r.sent, Dont, option) <==> option in o.remote)
  {
    assert Consistent(o, log);
    hide SaidWill;
    hide SaidDo;
  }

  /** The data among the items. */
  function DataOf(items: seq<Item>): seq<byte>
    decreases |items|
  {
    if items == [] then []
    else (if items[0].Data? then [items[0].b] else []) + DataOf(items[1..])
  }

  lemma {:induction false} DataTwo(a: seq<Item>, b: seq<Item>)
    ensures DataOf(a + b) == DataOf(a) + DataOf(b)
    decreases |a|
  {
    if a == [] {
      assert a + b == b;
    } else {
      assert (a + b)[1..] == a[1..] + b;
      DataTwo(a[1..], b);
      Associate(if a[0].Data? then [a[0].b] else [], DataOf(a[1..]), DataOf(b));
    }
  }

  lemma {:induction false} NoData(items: seq<Item>)
    requires forall item :: item in items ==> Control(item)
    ensures DataOf(items) == []
    decreases |items|
  {
    if items != [] {
      assert Control(items[0]);
      NoData(items[1..]);
    }
  }

  // ---- The client ------------------------------------------------------------------------

  /** `naws_subneg`. */
  method NawsSubneg(cols: u16, rows: u16) returns (v: seq<byte>)
    ensures v == Print(WindowSize(cols, rows))
  {
    v := [IAC, SB, NAWS];
    var payload := [cols / 256, cols % 256, rows / 256, rows % 256];
    var body := EscapedBytes(payload);
    v := v + body + [IAC, SE];
  }

  /** The loops that push bytes into a subnegotiation, an IAC twice. */
  method EscapedBytes(bytes: seq<byte>) returns (out: seq<byte>)
    ensures out == EscapeAll(bytes)
  {
    out := [];
    var i := 0;
    assert bytes[..0] == [];
    while i < |bytes|
      invariant 0 <= i <= |bytes|
      invariant out == EscapeAll(bytes[..i])
    {
      var b := bytes[i];
      assert bytes[..i + 1] == bytes[..i] + [b];
      EscapeTwo(bytes[..i], [b]);
      assert [b][1..] == [] && Escape(b) + [] == Escape(b);
      if b == IAC {
        out := out + [IAC, b];
      } else {
        out := out + [b];
      }
      i := i + 1;
    }
    assert bytes[..i] == bytes;
  }

  class Telnet {
    var state: State
    var subOption: byte
    var sub: seq<byte>
    var local: set<byte>
    var remote: set<byte>
    var nawsActive: bool
    // Everything the client has negotiated, first to last.
    ghost var log: seq<Item>

    ghost function Scanning(): Scan
      reads this
    {
      Scan(state, subOption, sub)
    }

    ghost function Agreed(): Options
      reads this
    {
      Options(local, remote, nawsActive)
    }

    ghost predicate Valid()
      reads this
    {
      Proper(Agreed(), log) && |sub| <= MAX_SUBNEG
    }

    constructor ()
      ensures Valid() && Scanning() == Start && log == []
    {
      state, subOption, sub := InData, 0, [];
      local, remote, nawsActive := {}, {}, false;
      log := [];
    }

    /** What it offers and asks for to begin with. */
    method Hello(cols: u16, rows: u16) returns (out: seq<byte>)
      requires Valid() && log == []
      modifies `local, `remote, `nawsActive, `log
      ensures Valid()
      ensures local == {TTYPE, NAWS, SGA} && remote == {ECHO, SGA} && nawsActive
      ensures log[|log| - 1] == WindowSize(cols, rows) && out == PrintAll(log)
    {
      var size := NawsSubneg(cols, rows);
      out := [IAC, WILL, TTYPE] + [IAC, WILL, NAWS] + [IAC, WILL, SGA] + [IAC, DO, ECHO] + [IAC, DO, SGA] + size;
      HelloProper(Agreed(), cols, rows);
      PrintSix(Command(Will, TTYPE), Command(Will, NAWS), Command(Will, SGA), Command(Do, ECHO), Command(Do, SGA),
               WindowSize(cols, rows));
      hide Proper;
      hide PrintAll;
      hide WindowSize;
      local := local + {TTYPE} + {NAWS} + {SGA};
      remote := remote + {ECHO} + {SGA};
      nawsActive := true;
      log := HelloItems(cols, rows);
    }

    /** The items one byte completes. */
    method Advance(b: byte) returns (items: seq<Item>)
      requires |sub| <= MAX_SUBNEG
      modifies `state, `subOption, `sub
      ensures Scanned(Scanning(), items) == Eat(old(Scanning()), b)
      ensures |sub| <= MAX_SUBNEG && |items| <= 1
    {
      items := [];
      match state {
        case InData =>
          if b == IAC {
            state := AfterIac;
          } else {
            items := [Data(b)];
          }
        case AfterIac =>
          if b == IAC {
            items, state := [Data(IAC)], InData;
          } else if b == WILL {
            state := AfterVerb(Will);
          } else if b == WONT {
            state := AfterVerb(Wont);
          } else if b == DO {
            state := AfterVerb(Do);
          } else if b == DONT {
            state := AfterVerb(Dont);
          } else if b == SB {
            state := InSb;
          } else {
            state := InData;
          }
        case AfterVerb(verb) =>
          items, state := [Command(verb, b)], InData;
        case InSb =>
          subOption, sub, state := b, [], InSub;
        case InSub =>
          if b == IAC {
            state := InSubIac;
          } else if |sub| < MAX_SUBNEG {
            sub := sub + [b];
          }
        case InSubIac =>
          if b == SE {
            items, state := [Sub(subOption, sub)], InData;
          } else if b == IAC {
            if |sub| < MAX_SUBNEG {
              sub := sub + [IAC];
            }
            state := InSub;
          } else {
            state := InSub;
          }
      }
    }

    /** `on_will`, and a WONT. */
    method OnPeer(will: bool, option: byte, ghost cols: u16, ghost rows: u16)
      returns (reply: seq<byte>, ghost sent: seq<Item>)
      modifies `remote
      ensures Reaction(Agreed(), sent) == React(old(Agreed()), Command(if will then Will else Wont, option), cols, rows)
      ensures reply == PrintAll(sent)
    {
      reply, sent := [], [];
      if will {
        if !Wanted(option) {
          reply, sent := [IAC, DONT, option], [Command(Dont, option)];
        } else if option !in remote {
          remote := remote + {option};
          reply, sent := [IAC, DO, option], [Command(Do, option)];
        }
      } else if option in remote {
        remote := remote - {option};
        reply, sent := [IAC, DONT, option], [Command(Dont, option)];
      }
      PrintOne(sent);
    }

    /** `on_do`, and a DONT. */
    method OnUs(asked: bool, option: byte, cols: u16, rows: u16) returns (reply: seq<byte>, ghost sent: seq<Item>)
      modifies `local, `nawsActive
      ensures Reaction(Agreed(), sent) == React(old(Agreed()), Command(if asked then Do else Dont, option), cols, rows)
      ensures reply == PrintAll(sent)
    {
      reply, sent := [], [];
      if asked {
        if !Supported(option) {
          reply, sent := [IAC, WONT, option], [Command(Wont, option)];
        } else {
          if option !in local {
            reply, sent := [IAC, WILL, option], [Command(Will, option)];
          }
          local := local + {option};
          PrintOne(sent);
          if option == NAWS {
            nawsActive := true;
            var size := NawsSubneg(cols, rows);
            PrintOne([WindowSize(cols, rows)]);
            PrintTwo(sent, [WindowSize(cols, rows)]);
            reply, sent := reply + size, sent + [WindowSize(cols, rows)];
          }
          return;
        }
      } else {
        if option in local {
          reply, sent := [IAC, WONT, option], [Command(Wont, option)];
        }
        local := local - {option};
        if option == NAWS {
          nawsActive := false;
        }
      }
      PrintOne(sent);
    }

    method OnSubneg(option: byte, payload: seq<byte>, ghost cols: u16, ghost rows: u16)
      returns (reply: seq<byte>, ghost sent: seq<Item>)
      ensures Reaction(Agreed(), sent) == React(Agreed(), Sub(option, payload), cols, rows)
      ensures reply == PrintAll(sent)
      ensures reply == if option == TTYPE && |payload| > 0 && payload[0] == 1 then Print(Sub(TTYPE, [0] + TERM)) else []
    {
      hide Print;
      hide PrintAll;
      hide EscapeAll;
      reply, sent := [], [];
      if option == TTYPE && |payload| > 0 && payload[0] == 1 {
        var name := EscapedBytes(TERM);
        reply := [IAC, SB, TTYPE] + [0] + name + [IAC, SE];
        sent := [Sub(TTYPE, [0] + TERM)];
        NamePrinted(TERM);
      }
      PrintOne(sent);
    }

    /** One item: the terminal's data, and what is sent back. */
    method Take(item: Item, cols: u16, rows: u16) returns (data: seq<byte>, reply: seq<byte>)
      requires Valid()
      modifies `local, `remote, `nawsActive, `log
      ensures Valid()
      ensures var r := React(old(Agreed()), item, cols, rows);
        Agreed() == r.options && log == old(log) + r.sent && reply == PrintAll(r.sent)
      ensures data == DataOf([item])
    {
      data, reply := [], [];
      ghost var sent: seq<Item> := [];
      ReactStaysProper(Agreed(), log, item, cols, rows);
      TakeData(Agreed(), item, cols, rows);
      hide Proper;
      hide React;
      hide DataOf;
      hide PrintAll;
      match item {
        case Data(b) => data := [b];
        case Command(Will, option) => reply, sent := OnPeer(true, option, cols, rows);
        case Command(Wont, option) => reply, sent := OnPeer(false, option, cols, rows);
        case Command(Do, option) => reply, sent := OnUs(true, option, cols, rows);
        case Command(Dont, option) => reply, sent := OnUs(false, option, cols, rows);
        case Sub(option, payload) => reply, sent := OnSubneg(option, payload, cols, rows);
      }
      log := log + sent;
    }

    /** `feed`: the terminal's data, and the answers. */
    method Feed(input: seq<byte>, cols: u16, rows: u16) returns (data: seq<byte>, reply: seq<byte>)
      requires Valid()
      modifies this
      ensures Valid()
      ensures var read := EatAll(old(Scanning()), input);
        var r := ReactAll(old(Agreed()), read.items, cols, rows);
        && Scanning() == read.scan && data == DataOf(read.items)
        && Agreed() == r.options && log == old(log) + r.sent && reply == PrintAll(r.sent)
    {
      data, reply := [], [];
      ghost var items: seq<Item>, sent: seq<Item> := [], [];
      ghost var first, o, said := Scanning(), Agreed(), log;
      var i := 0;
      FeedNone(first, o, input, log, cols, rows);
      hide Proper;
      hide EatAll;
      hide Eat;
      hide ReactAll;
      hide React;
      hide DataOf;
      hide PrintAll;
      while i < |input|
        invariant 0 <= i <= |input| && Valid()
        invariant EatAll(first, input[..i]) == Scanned(Scanning(), items)
        invariant ReactAll(o, items, cols, rows) == Reaction(Agreed(), sent)
        invariant log == said + sent && data == DataOf(items) && reply == PrintAll(sent)
      {
        FeedOne(first, o, input, i, Scanning(), items, Agreed(), sent, cols, rows);
        var found := Advance(input[i]);
        if |found| > 0 {
          ghost var more := React(Agreed(), found[0], cols, rows).sent;
          var heard, answer := Take(found[0], cols, rows);
          assert said + (sent + more) == (said + sent) + more;
          assert found == [found[0]];
          data, reply := data + heard, reply + answer;
          items, sent := items + found, sent + more;
        }
        i := i + 1;
      }
      assert input[..i] == input;
    }

    /** The window's new size, if the server wants it. */
    method Resize(cols: u16, rows: u16) returns (out: seq<byte>)
      requires Valid()
      modifies `log
      ensures Valid()
      ensures log == old(log) + (if NAWS in local then [WindowSize(cols, rows)] else [])
      ensures out == PrintAll(log[|old(log)|..])
    {
      out := [];
      if nawsActive {
        out := NawsSubneg(cols, rows);
        SayOne(Agreed(), log, WindowSize(cols, rows), Agreed());
        PrintOne([WindowSize(cols, rows)]);
        log := log + [WindowSize(cols, rows)];
      }
    }
  }

  lemma TakeData(o: Options, item: Item, cols: u16, rows: u16)
    ensures DataOf([item]) == if item.Data? then [item.b] else []
    ensures item.Data? ==> React(o, item, cols, rows) == Reaction(o, []) && PrintAll([]) == []
  {
    assert [item][1..] == [];
  }

  lemma PrintOne(items: seq<Item>)
    requires |items| <= 1
    ensures PrintAll(items) == if items == [] then [] else Print(items[0])
  {
    if items != [] {
      assert items[1..] == [];
      assert Print(items[0]) + [] == Print(items[0]);
    }
  }

  function HelloItems(cols: u16, rows: u16): seq<Item> {
    [Command(Will, TTYPE), Command(Will, NAWS), Command(Will, SGA), Command(Do, ECHO), Command(Do, SGA),
     WindowSize(cols, rows)]
  }

  lemma SayHello(o: Options, log: seq<Item>, item: Item, t: Options)
    requires Proper(o, log) && item.Command? && (item.verb.Will? || item.verb.Do?)
    requires if item.verb.Will? then Supported(item.option) && item.option !in o.local
             else Wanted(item.option) && item.option !in o.remote
    requires t == After(o, item).(naws := t.naws) && (t.naws <==> NAWS in t.local)
    ensures Proper(t, log + [item])
  {
    SayOne(o, log, item, t);
    hide Proper;
  }

  /** What it offers can be done, what it asks for is wanted, and nothing twice. */
  lemma HelloProper(o: Options, cols: u16, rows: u16)
    requires Proper(o, [])
    ensures o.local == {} && o.remote == {}
    ensures Proper(Options({TTYPE, NAWS, SGA}, {ECHO, SGA}, true), HelloItems(cols, rows))
  {
    assert o.local == {} && o.remote == {};
    hide Proper;
    var o1, o2 := Options({TTYPE}, {}, false), Options({TTYPE, NAWS}, {}, true);
    var o3, o4 := Options({TTYPE, NAWS, SGA}, {}, true), Options({TTYPE, NAWS, SGA}, {ECHO}, true);
    var o5 := Options({TTYPE, NAWS, SGA}, {ECHO, SGA}, true);
    SayHello(o, [], Command(Will, TTYPE), o1);
    SayHello(o1, [] + [Command(Will, TTYPE)], Command(Will, NAWS), o2);
    var two := [] + [Command(Will, TTYPE)] + [Command(Will, NAWS)];
    SayHello(o2, two, Command(Will, SGA), o3);
    SayHello(o3, two + [Command(Will, SGA)], Command(Do, ECHO), o4);
    var four := two + [Command(Will, SGA)] + [Command(Do, ECHO)];
    SayHello(o4, four, Command(Do, SGA), o5);
    SaySize(o5, four + [Command(Do, SGA)], cols, rows);
    hide WindowSize;
    assert four + [Command(Do, SGA)] + [WindowSize(cols, rows)] == HelloItems(cols, rows);
  }

  lemma SaySize(o: Options, log: seq<Item>, cols: u16, rows: u16)
    requires Proper(o, log)
    ensures Proper(o, log + [WindowSize(cols, rows)])
  {
    SayOne(o, log, WindowSize(cols, rows), o);
    hide Proper;
  }

  lemma PrintSix(a: Item, b: Item, c: Item, d: Item, e: Item, f: Item)
    ensures PrintAll([a, b, c, d, e, f]) == Print(a) + Print(b) + Print(c) + Print(d) + Print(e) + Print(f)
  {
    hide PrintAll;
    hide Print;
    PrintOne([a]);
    PrintMore([a], b);
    PrintMore([a] + [b], c);
    PrintMore([a] + [b] + [c], d);
    PrintMore([a] + [b] + [c] + [d], e);
    PrintMore([a] + [b] + [c] + [d] + [e], f);
    assert [a] + [b] + [c] + [d] + [e] + [f] == [a, b, c, d, e, f];
  }

  lemma PrintMore(items: seq<Item>, item: Item)
    ensures PrintAll(items + [item]) == PrintAll(items) + Print(item)
  {
    PrintTwo(items, [item]);
    PrintOne([item]);
    hide *;
  }

  lemma EscapedZero(name: seq<byte>)
    ensures EscapeAll([0] + name) == [0] + EscapeAll(name)
  {
    assert ([0] + name)[1..] == name;
  }

  lemma NamePrinted(name: seq<byte>)
    ensures Print(Sub(TTYPE, [0] + name)) == [IAC, SB, TTYPE] + [0] + EscapeAll(name) + [IAC, SE]
  {
    EscapedZero(name);
    hide EscapeAll;
    Associate([IAC, SB, TTYPE], [0], EscapeAll(name));
  }

  lemma FeedNone(s: Scan, o: Options, input: seq<byte>, log: seq<Item>, cols: u16, rows: u16)
    ensures EatAll(s, input[..0]) == Scanned(s, []) && ReactAll(o, [], cols, rows) == Reaction(o, [])
    ensures DataOf([]) == [] && PrintAll([]) == [] && log + [] == log
  {
  }

  /** One more byte of the input. */
  lemma FeedOne(first: Scan, o: Options, input: seq<byte>, i: nat, now: Scan, items: seq<Item>, agreed: Options,
                sent: seq<Item>, cols: u16, rows: u16)
    requires i < |input| && EatAll(first, input[..i]) == Scanned(now, items)
    requires ReactAll(o, items, cols, rows) == Reaction(agreed, sent)
    ensures var found := Eat(now, input[i]);
      && EatAll(first, input[..i + 1]) == Scanned(found.scan, items + found.items)
      && (found.items == [] ==> items + found.items == items)
      && (found.items != [] ==>
            var r := React(agreed, found.items[0], cols, rows);
            && ReactAll(o, items + found.items, cols, rows) == Reaction(r.options, sent + r.sent)
            && DataOf(items + found.items) == DataOf(items) + DataOf(found.items)
            && PrintAll(sent + r.sent) == PrintAll(sent) + PrintAll(r.sent))
  {
    var found := Eat(now, input[i]);
    assert |found.items| <= 1;
    hide Eat;
    hide EatAll;
    hide React;
    hide ReactAll;
    hide DataOf;
    hide PrintAll;
    assert input[..i + 1] == input[..i] + [input[i]];
    EatTwo(first, input[..i], [input[i]]);
    EatOne(now, input[i]);
    if found.items != [] {
      ReactTwo(o, items, found.items, cols, rows);
      ReactOne(agreed, found.items[0], cols, rows);
      DataTwo(items, found.items);
      PrintTwo(sent, React(agreed, found.items[0], cols, rows).sent);
      assert found.items == [found.items[0]];
    } else {
      assert items + found.items == items;
    }
  }

  lemma ReactOne(o: Options, item: Item, cols: u16, rows: u16)
    ensures ReactAll(o, [item], cols, rows) == React(o, item, cols, rows)
  {
    hide React;
    assert [item][1..] == [];
    assert React(o, item, cols, rows).sent + [] == React(o, item, cols, rows).sent;
  }

  // ---- Both ends --------------------------------------------------------------------------

  /** Everything the client sends of its own is parsed as just the commands and
      subnegotiations it meant, without a byte of data, and leaves the peer ready for
      data. */
  lemma OwnOutput(o: Options, log: seq<Item>, from: nat)
    requires Proper(o, log) && from <= |log|
    ensures var r := EatAll(Start, PrintAll(log[from..]));
      r.scan.state.InData? && r.items == log[from..] && DataOf(r.items) == []
  {
    forall item | item in log[from..] ensures Control(item) {
    }
    EatPrintedAll(Start, log[from..]);
    NoData(log[from..]);
  }

  function Number(high: int, low: int): int {
    high * 256 + low
  }

  /** The peer reads the window's size back. */
  lemma SizeRead(cols: u16, rows: u16)
    ensures var r := EatAll(Start, Print(WindowSize(cols, rows)));
      && |r.items| == 1 && r.items[0].Sub? && r.items[0].option == NAWS
      && var p := r.items[0].payload;
         |p| == 4 && Number(p[0], p[1]) == cols && Number(p[2], p[3]) == rows
  {
    EatPrinted(Start, WindowSize(cols, rows));
  }

  lemma {:induction false} DataAlone(o: Options, bytes: seq<byte>, cols: u16, rows: u16)
    ensures DataOf(DataItems(bytes)) == bytes && ReactAll(o, DataItems(bytes), cols, rows) == Reaction(o, [])
    decreases |bytes|
  {
    if bytes != [] {
      DataAlone(o, bytes[1..], cols, rows);
      assert DataItems(bytes)[1..] == DataItems(bytes[1..]);
      assert [bytes[0]] + bytes[1..] == bytes;
    }
  }

  /** Text reaches the terminal as it was sent, an IAC in it sent twice, and is answered
      with nothing. */
  lemma TextPasses(o: Options, bytes: seq<byte>, cols: u16, rows: u16)
    ensures var r := EatAll(Start, EscapeAll(bytes));
      && r.scan.state.InData? && DataOf(r.items) == bytes
      && ReactAll(o, r.items, cols, rows) == Reaction(o, [])
  {
    DataReceived(bytes);
    DataAlone(o, bytes, cols, rows);
  }

  /** Asked for the terminal's type (RFC 1091), the client says `xterm-256color`. */
  lemma TerminalTypeAnswered(o: Options, cols: u16, rows: u16)
    ensures var asked := EatAll(Start, [255, 250, 24, 1, 255, 240]);
      var answer := ReactAll(o, asked.items, cols, rows);
      answer.options == o && EatAll(Start, PrintAll(answer.sent)).items == [Sub(24, [0] + TERM)]
    ensures |TERM| == 14 && forall i :: 0 <= i < 14 ==> TERM[i] == "xterm-256color"[i] as int
  {
    hide EatAll;
    hide PrintAll;
    hide Print;
    hide ReactAll;
    var ask, said := Sub(TTYPE, [1]), Sub(TTYPE, [0] + TERM);
    PrintedAsk();
    EatPrinted(Start, ask);
    ReactOne(o, ask, cols, rows);
    TypeAsked(o, cols, rows);
    hide React;
    PrintOne([said]);
    EatPrinted(Start, said);
  }

  lemma TypeAsked(o: Options, cols: u16, rows: u16)
    ensures React(o, Sub(TTYPE, [1]), cols, rows) == Reaction(o, [Sub(TTYPE, [0] + TERM)])
  {
  }

  lemma PrintedAsk()
    ensures Print(Sub(TTYPE, [1])) == [255, 250, 24, 1, 255, 240]
  {
    assert [1][1..] == [];
    assert EscapeAll([1]) == [1] + [];
  }

  lemma {:induction false} EscapePlain(bytes: seq<byte>)
    requires IAC !in bytes
    ensures EscapeAll(bytes) == bytes
    decreases |bytes|
  {
    if bytes != [] {
      EscapePlain(bytes[1..]);
      assert [bytes[0]] + bytes[1..] == bytes;
    }
  }

  lemma SizeBytes()
    ensures Print(WindowSize(80, 24)) == [255, 250, 31, 0, 80, 0, 24, 255, 240]
  {
    EscapePlain([0, 80, 0, 24]);
    hide EscapeAll;
  }

  /** The first bytes on the wire, of an 80 by 24 window. */
  lemma HelloBytes()
    ensures PrintAll(HelloItems(80, 24))
         == [255, 251, 24] + [255, 251, 31] + [255, 251, 3] + [255, 253, 1] + [255, 253, 3]
            + [255, 250, 31, 0, 80, 0, 24, 255, 240]
  {
    PrintSix(Command(Will, TTYPE), Command(Will, NAWS), Command(Will, SGA), Command(Do, ECHO), Command(Do, SGA),
             WindowSize(80, 24));
    SizeBytes();
    hide PrintAll;
    hide WindowSize;
    hide EscapeAll;
  }
}
