/** The wire format of SFTP version 3 (src-tauri/src/sftp/protocol.rs), after
    draft-ietf-secsh-filexfer-02, sections 3, 5 and 7: what is written is read back. */
module SftpCodec {
  import opened Basics

  const U32_RANGE: nat := 0x1_0000_0000

  type u32 = x: int | 0 <= x < 0x1_0000_0000
  type u64 = x: int | 0 <= x < 0x1_0000_0000_0000_0000

  // ---- Fields --------------------------------------------------------------------------

  /** A field and what follows it. */
  datatype Read<+T> = Read(value: T, rest: seq<byte>) | Truncated

  function PutU32(v: u32): (r: seq<byte>)
    ensures |r| == 4
  {
    [v / 0x100_0000, v / 0x1_0000 % 0x100, v / 0x100 % 0x100, v % 0x100]
  }

  function PutU64(v: u64): seq<byte> {
    PutU32(v / 0x1_0000_0000) + PutU32(v % 0x1_0000_0000)
  }

  /** A `string`: its length, as 32 bits hold it, and its bytes. */
  function PutString(s: seq<byte>): (r: seq<byte>)
    ensures |r| == 4 + |s|
  {
    PutU32(|s| % U32_RANGE) + s
  }

  function TakeBytes(d: seq<byte>, n: nat): Read<seq<byte>> {
    if |d| < n then Truncated else Read(d[..n], d[n..])
  }

  function Value32(a: int, b: int, c: int, d: int): int {
    a * 0x100_0000 + b * 0x1_0000 + c * 0x100 + d
  }

  function ReadU32(d: seq<byte>): Read<u32> {
    if |d| < 4 then Truncated else Read(Value32(d[0], d[1], d[2], d[3]), d[4..])
  }

  function Value64(high: int, low: int): int {
    high * 0x1_0000_0000 + low
  }

  function ReadU64(d: seq<byte>): Read<u64> {
    if |d| < 8 then Truncated
    else
      var high, low := ReadU32(d), ReadU32(d[4..]);
      Read(Value64(high.value, low.value), low.rest)
  }

  function ReadString(d: seq<byte>): Read<seq<byte>> {
    match ReadU32(d)
    case Truncated => Truncated
    case Read(n, rest) => TakeBytes(rest, n)
  }

  lemma DigitsAgain(v: u32)
    ensures Value32(v / 0x100_0000, v / 0x1_0000 % 0x100, v / 0x100 % 0x100, v % 0x100) == v
  {
    var high, middle := v / 0x1_0000, v / 0x100;
    assert v / 0x100_0000 == high / 0x100 && high == middle / 0x100;
    assert high == high / 0x100 * 0x100 + high % 0x100;
    assert middle == high * 0x100 + middle % 0x100;
  }

  lemma U32Again(v: u32, rest: seq<byte>)
    ensures ReadU32(PutU32(v) + rest) == Read(v, rest)
  {
    DigitsAgain(v);
    hide Value32;
    var put := PutU32(v);
    var d := put + rest;
    assert d[0] == put[0] && d[1] == put[1] && d[2] == put[2] && d[3] == put[3];
    assert d[4..] == rest;
  }

  lemma U64Again(v: u64, rest: seq<byte>)
    ensures ReadU64(PutU64(v) + rest) == Read(v, rest)
  {
    hide PutU32;
    hide ReadU32;
    var high, low := v / 0x1_0000_0000, v % 0x1_0000_0000;
    var d, d4 := PutU64(v) + rest, PutU32(low) + rest;
    Associate(PutU32(high), PutU32(low), rest);
    U32Again(high, d4);
    U32Again(low, rest);
    assert d[4..] == d4;
  }

  lemma StringAgain(s: seq<byte>, rest: seq<byte>)
    requires |s| < U32_RANGE
    ensures ReadString(PutString(s) + rest) == Read(s, rest)
  {
    hide PutU32;
    hide ReadU32;
    U32Again(|s|, s + rest);
    assert PutString(s) == PutU32(|s|) + s;
    Associate(PutU32(|s|), s, rest);
    assert (s + rest)[..|s|] == s && (s + rest)[|s|..] == rest;
  }

  // And what is read is what would be written for it.

  lemma BytesAgain(a: byte, b: byte, c: byte, d: byte)
    ensures PutU32(Value32(a, b, c, d)) == [a, b, c, d]
  {
    var v := Value32(a, b, c, d);
    var middle := a * 0x1_0000 + b * 0x100 + c;
    var high := a * 0x100 + b;
    assert v == middle * 0x100 + d && v / 0x100 == middle && v % 0x100 == d;
    assert middle == high * 0x100 + c && middle / 0x100 == high && middle % 0x100 == c;
    assert high / 0x100 == a && high % 0x100 == b;
    assert v / 0x1_0000 == high && v / 0x100_0000 == a;
  }

  lemma U32Written(d: seq<byte>)
    requires |d| >= 4
    ensures var r := ReadU32(d); PutU32(r.value) + r.rest == d
  {
    BytesAgain(d[0], d[1], d[2], d[3]);
    hide PutU32;
    hide Value32;
    assert d == [d[0], d[1], d[2], d[3]] + d[4..];
  }

  lemma U64Written(d: seq<byte>)
    requires |d| >= 8
    ensures var r := ReadU64(d); PutU64(r.value) + r.rest == d
  {
    U32Written(d);
    U32Written(d[4..]);
    var high, low := ReadU32(d), ReadU32(d[4..]);
    assert high.rest == d[4..];
    Associate(PutU32(high.value), PutU32(low.value), low.rest);
    HalvesAgain(high.value, low.value);
    hide PutU32;
    hide ReadU32;
  }

  lemma HalvesAgain(high: u32, low: u32)
    ensures Value64(high, low) / 0x1_0000_0000 == high && Value64(high, low) % 0x1_0000_0000 == low
  {
  }

  lemma StringWritten(d: seq<byte>)
    requires ReadString(d).Read?
    ensures var r := ReadString(d); PutString(r.value) + r.rest == d
  {
    hide PutU32;
    hide ReadU32;
    var n, r := ReadU32(d), ReadString(d);
    LongEnough(d);
    U32Written(d);
    assert r.value == n.rest[..n.value] && r.rest == n.rest[n.value..];
    assert PutString(r.value) == PutU32(n.value) + r.value;
    Associate(PutU32(n.value), r.value, r.rest);
  }

  lemma LongEnough(d: seq<byte>)
    ensures ReadU32(d).Read? <==> |d| >= 4
  {
  }

  // ---- Attributes ------------------------------------------------------------------------

  datatype Attrs = Attrs(
    size: Option<u64>, uid: Option<u32>, gid: Option<u32>, permissions: Option<u32>,
    atime: Option<u32>, mtime: Option<u32>)

  const NOTHING := Attrs(None, None, None, None, None, None)

  datatype Two = Two(a: u32, b: u32)

  // The flags, by their place in the word: size, owner, permissions, times, extended.
  const SIZE: nat := 0x01
  const UIDGID: nat := 0x02
  const PERMISSIONS: nat := 0x04
  const ACMODTIME: nat := 0x08
  const EXTENDED: nat := 0x8000_0000

  predicate Has(flags: u32, flag: nat)
    requires flag > 0
  {
    flags / flag % 2 == 1
  }

  function Owner(a: Attrs): Option<Two> {
    if a.uid.Some? && a.gid.Some? then Some(Two(a.uid.value, a.gid.value)) else None
  }

  /** A time known alone stands for the other too. */
  function Times(a: Attrs): Option<Two> {
    if a.atime.None? && a.mtime.None? then None
    else
      Some(Two(if a.atime.Some? then a.atime.value else a.mtime.value,
               if a.mtime.Some? then a.mtime.value else a.atime.value))
  }

  /** What the wire can carry: no owner without a group, both times or neither. */
  function Normal(a: Attrs): Attrs {
    var owner, times := Owner(a), Times(a);
    Attrs(a.size,
          if owner.Some? then a.uid else None, if owner.Some? then a.gid else None,
          a.permissions,
          if times.Some? then Some(times.value.a) else None, if times.Some? then Some(times.value.b) else None)
  }

  function Flags(a: Attrs): u32 {
    (if a.size.Some? then SIZE else 0) + (if Owner(a).Some? then UIDGID else 0)
    + (if a.permissions.Some? then PERMISSIONS else 0) + (if Times(a).Some? then ACMODTIME else 0)
  }

  function PutTwo(two: Option<Two>): seq<byte> {
    if two.Some? then PutU32(two.value.a) + PutU32(two.value.b) else []
  }

  function PutAttrs(a: Attrs): seq<byte> {
    PutU32(Flags(a))
    + (if a.size.Some? then PutU64(a.size.value) else [])
    + PutTwo(Owner(a))
    + (if a.permissions.Some? then PutU32(a.permissions.value) else [])
    + PutTwo(Times(a))
  }

  function MaybeU64(on: bool, d: seq<byte>): Read<Option<u64>> {
    if !on then Read(None, d)
    else match ReadU64(d)
      case Truncated => Truncated
      case Read(v, rest) => Read(Some(v), rest)
  }

  function MaybeU32(on: bool, d: seq<byte>): Read<Option<u32>> {
    if !on then Read(None, d)
    else match ReadU32(d)
      case Truncated => Truncated
      case Read(v, rest) => Read(Some(v), rest)
  }

  function MaybeTwo(on: bool, d: seq<byte>): Read<Option<Two>> {
    if !on then Read(None, d)
    else match ReadU32(d)
      case Truncated => Truncated
      case Read(a, d1) =>
        match ReadU32(d1)
        case Truncated => Truncated
        case Read(b, rest) => Read(Some(Two(a, b)), rest)
  }

  /** Pairs of strings, skipped. */
  function SkipPairs(n: nat, d: seq<byte>): Read<bool>
    decreases n
  {
    if n == 0 then Read(true, d)
    else match ReadString(d)
      case Truncated => Truncated
      case Read(_, d1) =>
        match ReadString(d1)
        case Truncated => Truncated
        case Read(_, d2) => SkipPairs(n - 1, d2)
  }

  function SkipExtended(on: bool, d: seq<byte>): Read<bool> {
    if !on then Read(true, d)
    else match ReadU32(d)
      case Truncated => Truncated
      case Read(n, rest) => SkipPairs(n, rest)
  }

  function ReadAttrs(d: seq<byte>): Read<Attrs> {
    match ReadU32(d)
    case Truncated => Truncated
    case Read(flags, d1) =>
      match MaybeU64(Has(flags, SIZE), d1)
      case Truncated => Truncated
      case Read(size, d2) =>
        match MaybeTwo(Has(flags, UIDGID), d2)
        case Truncated => Truncated
        case Read(owner, d3) =>
          match MaybeU32(Has(flags, PERMISSIONS), d3)
          case Truncated => Truncated
          case Read(permissions, d4) =>
            match MaybeTwo(Has(flags, ACMODTIME), d4)
            case Truncated => Truncated
            case Read(times, d5) =>
              match SkipExtended(Has(flags, EXTENDED), d5)
              case Truncated => Truncated
              case Read(_, rest) =>
                Read(Attrs(size,
                           if owner.Some? then Some(owner.value.a) else None,
                           if owner.Some? then Some(owner.value.b) else None,
                           permissions,
                           if times.Some? then Some(times.value.a) else None,
                           if times.Some? then Some(times.value.b) else None), rest)
  }

  lemma TwoAgain(two: Option<Two>, rest: seq<byte>)
    ensures MaybeTwo(two.Some?, PutTwo(two) + rest) == Read(two, rest)
  {
    if two.Some? {
      var a, b := two.value.a, two.value.b;
      U32Again(a, PutU32(b) + rest);
      U32Again(b, rest);
      assert PutTwo(two) + rest == PutU32(a) + (PutU32(b) + rest);
    } else {
      assert [] + rest == rest;
    }
  }

  lemma FlagsAgain(a: Attrs)
    ensures var f := Flags(a);
      && (Has(f, SIZE) <==> a.size.Some?) && (Has(f, UIDGID) <==> Owner(a).Some?)
      && (Has(f, PERMISSIONS) <==> a.permissions.Some?) && (Has(f, ACMODTIME) <==> Times(a).Some?)
      && !Has(f, EXTENDED)
  {
  }

  lemma InOrder(a: seq<byte>, b: seq<byte>, c: seq<byte>, d: seq<byte>, e: seq<byte>, rest: seq<byte>)
    ensures a + b + c + d + e + rest == a + (b + (c + (d + (e + rest))))
  {
    Associate(a + b + c + d, e, rest);
    Associate(a + b + c, d, e + rest);
    Associate(a + b, c, d + (e + rest));
    Associate(a, b, c + (d + (e + rest)));
  }

  lemma MaybeU64Again(v: Option<u64>, rest: seq<byte>)
    ensures MaybeU64(v.Some?, (if v.Some? then PutU64(v.value) else []) + rest) == Read(v, rest)
  {
    if v.Some? {
      U64Again(v.value, rest);
    } else {
      assert [] + rest == rest;
    }
  }

  lemma MaybeU32Again(v: Option<u32>, rest: seq<byte>)
    ensures MaybeU32(v.Some?, (if v.Some? then PutU32(v.value) else []) + rest) == Read(v, rest)
  {
    if v.Some? {
      U32Again(v.value, rest);
    } else {
      assert [] + rest == rest;
    }
  }

  /** Attributes read back, whatever follows, as much of them as the wire carries. */
  lemma AttrsAgain(a: Attrs, rest: seq<byte>)
    ensures ReadAttrs(PutAttrs(a) + rest) == Read(Normal(a), rest)
  {
    FlagsAgain(a);
    hide Has;
    hide Flags;
    hide PutU32;
    hide PutU64;
    hide PutTwo;
    hide ReadU32;
    hide MaybeU32;
    hide MaybeU64;
    hide MaybeTwo;
    var size := if a.size.Some? then PutU64(a.size.value) else [];
    var permissions := if a.permissions.Some? then PutU32(a.permissions.value) else [];
    var d4 := PutTwo(Times(a)) + rest;
    var d3 := permissions + d4;
    var d2 := PutTwo(Owner(a)) + d3;
    U32Again(Flags(a), size + d2);
    MaybeU64Again(a.size, d2);
    TwoAgain(Owner(a), d3);
    MaybeU32Again(a.permissions, d4);
    TwoAgain(Times(a), rest);
    InOrder(PutU32(Flags(a)), size, PutTwo(Owner(a)), permissions, PutTwo(Times(a)), rest);
  }

  // ---- Replies -------------------------------------------------------------------------------

  const FXP_VERSION: byte := 2
  const FXP_STATUS: byte := 101
  const FXP_HANDLE: byte := 102
  const FXP_DATA: byte := 103
  const FXP_NAME: byte := 104
  const FXP_ATTRS: byte := 105
  const FXP_EXTENDED_REPLY: byte := 201

  /** One entry of a NAME reply. */
  datatype NameEntry = NameEntry(filename: seq<byte>, longname: seq<byte>, attrs: Attrs)

  datatype Response =
    | Status(code: u32, message: seq<byte>)
    | Handle(handle: seq<byte>)
    | Data(data: seq<byte>)
    | Name(entries: seq<NameEntry>)
    | Attributes(attrs: Attrs)
    | ExtendedReply(payload: seq<byte>)

  datatype Reply = Reply(id: u32, response: Response) | Malformed

  function PutNames(entries: seq<NameEntry>): seq<byte>
    decreases |entries|
  {
    if entries == [] then []
    else
      PutString(entries[0].filename) + PutString(entries[0].longname) + PutAttrs(entries[0].attrs)
      + PutNames(entries[1..])
  }

  /** What a server sends for a response, by section 7 of the draft; `tag` is a status
      message's language. */
  function PutFields(r: Response, tag: seq<byte>): seq<byte> {
    match r
    case Status(code, message) => PutU32(code) + PutString(message) + PutString(tag)
    case Handle(handle) => PutString(handle)
    case Data(data) => PutString(data)
    case Name(entries) => PutU32(|entries| % U32_RANGE) + PutNames(entries)
    case Attributes(attrs) => PutAttrs(attrs)
    case ExtendedReply(payload) => payload
  }

  function Kind(r: Response): byte {
    match r
    case Status(_, _) => FXP_STATUS
    case Handle(_) => FXP_HANDLE
    case Data(_) => FXP_DATA
    case Name(_) => FXP_NAME
    case Attributes(_) => FXP_ATTRS
    case ExtendedReply(_) => FXP_EXTENDED_REPLY
  }

  function PutReply(id: u32, r: Response, tag: seq<byte>): seq<byte> {
    [Kind(r)] + PutU32(id) + PutFields(r, tag)
  }

  /** Its lengths fit the format. */
  predicate Fits(r: Response) {
    match r
    case Status(_, message) => |message| < U32_RANGE
    case Handle(handle) => |handle| < U32_RANGE
    case Data(data) => |data| < U32_RANGE
    case Name(entries) => |entries| < U32_RANGE && forall e :: e in entries ==> EntryFits(e)
    case _ => true
  }

  predicate EntryFits(e: NameEntry) {
    |e.filename| < U32_RANGE && |e.longname| < U32_RANGE
  }

  function NormalEntries(entries: seq<NameEntry>): seq<NameEntry>
    decreases |entries|
  {
    if entries == [] then []
    else [entries[0].(attrs := Normal(entries[0].attrs))] + NormalEntries(entries[1..])
  }

  /** As much of a response as the wire carries. */
  function NormalResponse(r: Response): Response {
    match r
    case Name(entries) => Name(NormalEntries(entries))
    case Attributes(attrs) => Attributes(Normal(attrs))
    case _ => r
  }

  function ReadEntry(d: seq<byte>): Read<NameEntry> {
    match ReadString(d)
    case Truncated => Truncated
    case Read(filename, d1) =>
      match ReadString(d1)
      case Truncated => Truncated
      case Read(longname, d2) =>
        match ReadAttrs(d2)
        case Truncated => Truncated
        case Read(attrs, rest) => Read(NameEntry(filename, longname, attrs), rest)
  }

  function ReadNames(n: nat, d: seq<byte>): Read<seq<NameEntry>>
    decreases n
  {
    if n == 0 then Read([], d)
    else match ReadEntry(d)
      case Truncated => Truncated
      case Read(entry, d1) =>
        match ReadNames(n - 1, d1)
        case Truncated => Truncated
        case Read(more, rest) => Read([entry] + more, rest)
  }

  function ReadStatus(d: seq<byte>): Read<Response> {
    match ReadU32(d)
    case Truncated => Truncated
    case Read(code, d1) =>
      // The message and its language are optional in practice.
      if d1 == [] then Read(Status(code, []), d1)
      else match ReadString(d1)
        case Truncated => Truncated
        case Read(message, rest) => Read(Status(code, message), rest)
  }

  function ReadNameList(d: seq<byte>): Read<Response> {
    match ReadU32(d)
    case Truncated => Truncated
    case Read(n, d1) =>
      match ReadNames(n, d1)
      case Truncated => Truncated
      case Read(entries, rest) => Read(Name(entries), rest)
  }

  function ReadFields(kind: byte, d: seq<byte>): Read<Response> {
    if kind == FXP_STATUS then ReadStatus(d)
    else if kind == FXP_NAME then ReadNameList(d)
    else if kind == FXP_EXTENDED_REPLY then Read(ExtendedReply(d), [])
    else if kind == FXP_ATTRS then
      match ReadAttrs(d)
      case Truncated => Truncated
      case Read(attrs, rest) => Read(Attributes(attrs), rest)
    else if kind == FXP_HANDLE || kind == FXP_DATA then
      match ReadString(d)
      case Truncated => Truncated
      case Read(bytes, rest) => Read(if kind == FXP_HANDLE then Handle(bytes) else Data(bytes), rest)
    else Truncated
  }

  /** `parse_response`, on any bytes at all. */
  function ParseResponse(body: seq<byte>): Reply {
    if body == [] then Malformed
    else match ReadU32(body[1..])
      case Truncated => Malformed
      case Read(id, d) =>
        match ReadFields(body[0], d)
        case Truncated => Malformed
        case Read(response, _) => Reply(id, response)
  }

  lemma EntryAgain(e: NameEntry, rest: seq<byte>)
    requires EntryFits(e)
    ensures ReadEntry(PutString(e.filename) + PutString(e.longname) + PutAttrs(e.attrs) + rest)
         == Read(e.(attrs := Normal(e.attrs)), rest)
  {
    hide PutString;
    hide PutAttrs;
    hide ReadString;
    hide ReadAttrs;
    hide Normal;
    var f, l, a := PutString(e.filename), PutString(e.longname), PutAttrs(e.attrs);
    Associate(f + l, a, rest);
    Associate(f, l, a + rest);
    StringAgain(e.filename, l + (a + rest));
    StringAgain(e.longname, a + rest);
    AttrsAgain(e.attrs, rest);
  }

  lemma {:induction false} NamesAgain(entries: seq<NameEntry>, rest: seq<byte>)
    requires forall e :: e in entries ==> EntryFits(e)
    ensures ReadNames(|entries|, PutNames(entries) + rest) == Read(NormalEntries(entries), rest)
    decreases |entries|
  {
    hide ReadEntry;
    hide PutString;
    hide PutAttrs;
    hide Normal;
    if entries == [] {
      assert [] + rest == rest;
    } else {
      var e := entries[0];
      var first := PutString(e.filename) + PutString(e.longname) + PutAttrs(e.attrs);
      Associate(first, PutNames(entries[1..]), rest);
      EntryAgain(e, PutNames(entries[1..]) + rest);
      NamesAgain(entries[1..], rest);
    }
  }

  /** Every response is read back from what the server sends for it, whatever its
      message's language, as much of it as the wire carries; and a status may come
      without a message. */
  lemma ResponseAgain(id: u32, r: Response, tag: seq<byte>)
    requires Fits(r) && |tag| < U32_RANGE
    ensures ParseResponse(PutReply(id, r, tag)) == Reply(id, NormalResponse(r))
    ensures r.Status? && r.message == [] ==>
      ParseResponse([FXP_STATUS] + PutU32(id) + PutU32(r.code)) == Reply(id, r)
  {
    var fields := PutFields(r, tag);
    HeadAgain(Kind(r), id, fields);
    FieldsAgain(r, tag);
    if r.Status? && r.message == [] {
      HeadAgain(FXP_STATUS, id, PutU32(r.code));
      assert PutU32(r.code) + [] == PutU32(r.code);
      U32Again(r.code, []);
      hide ReadU32;
      assert ReadStatus(PutU32(r.code)) == Read(Status(r.code, []), []);
    }
    hide ReadFields;
    hide PutFields;
    hide PutU32;
    hide NormalResponse;
    hide ReadU32;
  }

  lemma HeadAgain(kind: byte, id: u32, fields: seq<byte>)
    ensures var body := [kind] + PutU32(id) + fields;
      body != [] && body[0] == kind && ReadU32(body[1..]) == Read(id, fields)
  {
    U32Again(id, fields);
    hide ReadU32;
    assert ([kind] + PutU32(id) + fields)[1..] == PutU32(id) + fields;
  }

  lemma FieldsAgain(r: Response, tag: seq<byte>)
    requires Fits(r) && |tag| < U32_RANGE
    ensures ReadFields(Kind(r), PutFields(r, tag)).Read?
    ensures ReadFields(Kind(r), PutFields(r, tag)).value == NormalResponse(r)
  {
    hide ReadU32;
    hide ReadString;
    hide ReadAttrs;
    hide ReadNames;
    hide PutAttrs;
    hide PutNames;
    hide PutU32;
    hide PutString;
    match r
    case Status(code, message) =>
      Associate(PutU32(code), PutString(message), PutString(tag));
      U32Again(code, PutString(message) + PutString(tag));
      StringAgain(message, PutString(tag));
    case Handle(handle) =>
      assert PutString(handle) + [] == PutString(handle);
      StringAgain(handle, []);
    case Data(data) =>
      assert PutString(data) + [] == PutString(data);
      StringAgain(data, []);
    case Name(entries) =>
      assert PutNames(entries) + [] == PutNames(entries);
      U32Again(|entries|, PutNames(entries));
      NamesAgain(entries, []);
    case Attributes(attrs) =>
      assert PutAttrs(attrs) + [] == PutAttrs(attrs);
      AttrsAgain(attrs, []);
    case ExtendedReply(payload) =>
  }

  // ---- The VERSION reply --------------------------------------------------------------------

  datatype Extension = Extension(name: seq<byte>, data: seq<byte>)

  function PutExtensions(list: seq<Extension>): seq<byte>
    decreases |list|
  {
    if list == [] then [] else PutString(list[0].name) + PutString(list[0].data) + PutExtensions(list[1..])
  }

  function PutVersion(version: u32, list: seq<Extension>): seq<byte> {
    [FXP_VERSION] + PutU32(version) + PutExtensions(list)
  }

  datatype Hello = Hello(version: u32, extensions: seq<Extension>)

  function ReadExtensions(d: seq<byte>): Read<seq<Extension>>
    decreases |d|
  {
    if d == [] then Read([], [])
    else match ReadString(d)
      case Truncated => Truncated
      case Read(name, d1) =>
        match ReadString(d1)
        case Truncated => Truncated
        case Read(data, d2) =>
          match ReadExtensions(d2)
          case Truncated => Truncated
          case Read(more, rest) => Read([Extension(name, data)] + more, rest)
  }

  /** `parse_version`. */
  function ParseVersion(body: seq<byte>): Option<Hello> {
    if body == [] || body[0] != FXP_VERSION then None
    else match ReadU32(body[1..])
      case Truncated => None
      case Read(version, d) =>
        match ReadExtensions(d)
        case Truncated => None
        case Read(list, _) => Some(Hello(version, list))
  }

  lemma {:induction false} ExtensionsAgain(list: seq<Extension>)
    requires forall e :: e in list ==> |e.name| < U32_RANGE && |e.data| < U32_RANGE
    ensures ReadExtensions(PutExtensions(list)) == Read(list, [])
    decreases |list|
  {
    if list != [] {
      var e, more := list[0], PutExtensions(list[1..]);
      Associate(PutString(e.name), PutString(e.data), more);
      StringAgain(e.name, PutString(e.data) + more);
      StringAgain(e.data, more);
      ExtensionsAgain(list[1..]);
      assert [e] + list[1..] == list;
      hide PutString;
      hide ReadString;
    }
  }

  lemma VersionAgain(version: u32, list: seq<Extension>)
    requires forall e :: e in list ==> |e.name| < U32_RANGE && |e.data| < U32_RANGE
    ensures ParseVersion(PutVersion(version, list)) == Some(Hello(version, list))
  {
    HeadAgain(FXP_VERSION, version, PutExtensions(list));
    ExtensionsAgain(list);
    hide ReadExtensions;
    hide ReadU32;
    hide PutExtensions;
  }

  // ---- Packets ----------------------------------------------------------------------------------

  /** Largest packet accepted. */
  const MAX_PACKET: nat := 4 * 1024 * 1024

  function PutPacket(body: seq<byte>): seq<byte> {
    PutU32(|body| % U32_RANGE) + body
  }

  function PutPackets(bodies: seq<seq<byte>>): seq<byte>
    decreases |bodies|
  {
    if bodies == [] then [] else PutPacket(bodies[0]) + PutPackets(bodies[1..])
  }

  /** What the reader finds at the head of the stream: nothing more, a packet, or
      something that is none. */
  datatype Next = End | Packet(body: seq<byte>, rest: seq<byte>) | Broken

  function ReadPacket(stream: seq<byte>): Next {
    match ReadU32(stream)
    case Truncated => End
    case Read(n, rest) => if n == 0 || n > MAX_PACKET || |rest| < n then Broken else Packet(rest[..n], rest[n..])
  }

  /** All packets of a stream, and whether it ended cleanly. */
  datatype Packets = Packets(bodies: seq<seq<byte>>, clean: bool)

  function ReadPackets(stream: seq<byte>): Packets
    decreases |stream|
  {
    match ReadPacket(stream)
    case End => Packets([], true)
    case Broken => Packets([], false)
    case Packet(body, rest) =>
      var more := ReadPackets(rest);
      Packets([body] + more.bodies, more.clean)
  }

  lemma PacketAgain(body: seq<byte>, rest: seq<byte>)
    requires 0 < |body| <= 4 * 1024 * 1024
    ensures ReadPacket(PutPacket(body) + rest) == Packet(body, rest)
  {
    hide ReadU32;
    hide PutU32;
    Associate(PutU32(|body|), body, rest);
    U32Again(|body|, body + rest);
    assert PutPacket(body) == PutU32(|body|) + body;
    assert (body + rest)[..|body|] == body && (body + rest)[|body|..] == rest;
  }

  /** An empty packet, or one of more than 4 MiB, is none. */
  lemma NotAPacket(length: u32, rest: seq<byte>)
    requires length == 0 || length > 4 * 1024 * 1024
    ensures ReadPacket(PutU32(length) + rest) == Broken
  {
    U32Again(length, rest);
    hide ReadU32;
    hide PutU32;
  }

  /** Packets sent one after another come out as they went in. */
  lemma {:induction false} PacketsAgain(bodies: seq<seq<byte>>)
    requires forall b :: b in bodies ==> 0 < |b| <= MAX_PACKET
    ensures ReadPackets(PutPackets(bodies)) == Packets(bodies, true)
    decreases |bodies|
  {
    if bodies == [] {
      assert ReadU32([]) == Truncated;
    } else {
      PacketAgain(bodies[0], PutPackets(bodies[1..]));
      PacketsAgain(bodies[1..]);
      assert [bodies[0]] + bodies[1..] == bodies;
      hide ReadPacket;
      hide PutPacket;
    }
  }

  // ---- Bytes ----------------------------------------------------------------------------------

  lemma U32Bytes(v: u32)
    requires v < 256
    ensures PutU32(v) == [0, 0, 0, v]
  {
  }

  /** The kinds of reply by their numbers in section 3 of the draft. */
  lemma KindsByNumber()
    ensures Kind(Status(0, [])) == 101 && Kind(Handle([])) == 102 && Kind(Data([])) == 103
    ensures Kind(Name([])) == 104 && Kind(Attributes(NOTHING)) == 105 && Kind(ExtendedReply([])) == 201
  {
  }

  /** A HANDLE reply to request 7 as section 7 lays it out. */
  lemma HandleBytes(a: byte, b: byte)
    ensures PutReply(7, Handle([a, b]), []) == [102] + [0, 0, 0, 7] + ([0, 0, 0, 2] + [a, b])
    ensures ParseResponse([102] + [0, 0, 0, 7] + ([0, 0, 0, 2] + [a, b])) == Reply(7, Handle([a, b]))
  {
    hide PutU32;
    hide ParseResponse;
    U32Bytes(7);
    U32Bytes(2);
    ResponseAgain(7, Handle([a, b]), []);
  }

  /** All attributes, as section 5 lays them out: flags, size, owner, mode, times. */
  lemma AttrsBytes(size: byte, uid: byte, gid: byte, mode: byte, atime: byte, mtime: byte)
    ensures PutAttrs(Attrs(Some(size), Some(uid), Some(gid), Some(mode), Some(atime), Some(mtime)))
         == [0, 0, 0, 15] + ([0, 0, 0, 0] + [0, 0, 0, size]) + ([0, 0, 0, uid] + [0, 0, 0, gid])
            + [0, 0, 0, mode] + ([0, 0, 0, atime] + [0, 0, 0, mtime])
  {
    U32Bytes(15);
    U32Bytes(0);
    U32Bytes(size);
    U32Bytes(uid);
    U32Bytes(gid);
    U32Bytes(mode);
    U32Bytes(atime);
    U32Bytes(mtime);
    hide PutU32;
  }
}
