/** The encoder and the decoder of src-tauri/src/sftp/protocol.rs, which write a packet's
    fields into a buffer and read them off one. */
module SftpWire {
  import opened Basics
  import opened SftpCodec

  /** Builds one packet: its length, its kind, its payload. */
  class Encoder {
    var buffer: seq<byte>

    ghost predicate Valid()
      reads this
    {
      |buffer| >= 5
    }

    /** Kind and payload so far. */
    ghost function Body(): seq<byte>
      requires Valid()
      reads this
    {
      buffer[4..]
    }

    constructor (kind: byte)
      ensures Valid() && Body() == [kind]
    {
      buffer := [0, 0, 0, 0, kind];
    }

    method U32(value: u32)
      requires Valid()
      modifies this
      ensures Valid() && Body() == old(Body()) + PutU32(value)
      ensures forall rest: seq<byte> :: ReadU32(Body()[|old(Body())|..] + rest) == Read(value, rest)
    {
      ghost var before := Body();
      buffer := buffer + PutU32(value);
      hide PutU32;
      hide ReadU32;
      assert Body()[|before|..] == PutU32(value);
      forall rest: seq<byte> ensures ReadU32(Body()[|before|..] + rest) == Read(value, rest) {
        U32Again(value, rest);
      }
    }

    method U64(value: u64)
      requires Valid()
      modifies this
      ensures Valid() && Body() == old(Body()) + PutU64(value)
      ensures forall rest: seq<byte> :: ReadU64(Body()[|old(Body())|..] + rest) == Read(value, rest)
    {
      ghost var before := Body();
      buffer := buffer + PutU64(value);
      hide PutU64;
      hide ReadU64;
      assert Body()[|before|..] == PutU64(value);
      forall rest: seq<byte> ensures ReadU64(Body()[|before|..] + rest) == Read(value, rest) {
        U64Again(value, rest);
      }
    }

    method Bytes(value: seq<byte>)
      requires Valid()
      modifies this
      ensures Valid() && Body() == old(Body()) + PutString(value)
      ensures |value| < U32_RANGE ==>
                forall rest: seq<byte> :: ReadString(Body()[|old(Body())|..] + rest) == Read(value, rest)
    {
      ghost var before := Body();
      hide PutU32;
      hide ReadU32;
      U32(|value| % U32_RANGE);
      buffer := buffer + value;
      hide ReadString;
      assert Body() == before + PutString(value);
      assert Body()[|before|..] == PutString(value);
      if |value| < U32_RANGE {
        forall rest: seq<byte> ensures ReadString(Body()[|before|..] + rest) == Read(value, rest) {
          StringAgain(value, rest);
        }
      }
    }

    method Two(two: Option<Two>)
      requires Valid()
      modifies this
      ensures Valid() && Body() == old(Body()) + PutTwo(two)
    {
      if two.Some? {
        U32(two.value.a);
        U32(two.value.b);
      }
    }

    method OptionalU64(value: Option<u64>)
      requires Valid()
      modifies this
      ensures Valid() && Body() == old(Body()) + if value.Some? then PutU64(value.value) else []
    {
      if value.Some? {
        U64(value.value);
      }
    }

    method OptionalU32(value: Option<u32>)
      requires Valid()
      modifies this
      ensures Valid() && Body() == old(Body()) + if value.Some? then PutU32(value.value) else []
    {
      if value.Some? {
        U32(value.value);
      }
    }

    method Attributes(attrs: Attrs)
      requires Valid()
      modifies this
      ensures Valid() && Body() == old(Body()) + PutAttrs(attrs)
      ensures forall rest: seq<byte> :: ReadAttrs(Body()[|old(Body())|..] + rest) == Read(Normal(attrs), rest)
    {
      ghost var before := Body();
      var flags := FlagsOf(attrs);
      PutInOrder(Body(), attrs);
      hide *;
      U32(flags);
      OptionalU64(attrs.size);
      Two(Owner(attrs));
      OptionalU32(attrs.permissions);
      Two(Times(attrs));
      assert Body()[|before|..] == PutAttrs(attrs);
      forall rest: seq<byte> ensures ReadAttrs(Body()[|before|..] + rest) == Read(Normal(attrs), rest) {
        AttrsAgain(attrs, rest);
      }
    }

    /** The packet; `read_packet` takes it back, unless it is too long. */
    method Finish() returns (packet: seq<byte>)
      requires Valid()
      ensures packet == PutPacket(Body())
      ensures |Body()| <= MAX_PACKET ==> forall rest: seq<byte> :: ReadPacket(packet + rest) == Packet(Body(), rest)
    {
      packet := PutU32((|buffer| - 4) % U32_RANGE) + buffer[4..];
      hide ReadPacket;
      hide PutU32;
      if |Body()| <= MAX_PACKET {
        forall rest: seq<byte> ensures ReadPacket(packet + rest) == Packet(Body(), rest) {
          PacketAgain(Body(), rest);
        }
      }
    }
  }

  /** Each flag is there just when its field follows: an owner only with a group, a time
      with or without the other. */
  method FlagsOf(attrs: Attrs) returns (flags: u32)
    ensures flags == Flags(attrs)
    ensures Has(flags, SIZE) <==> attrs.size.Some?
    ensures Has(flags, UIDGID) <==> attrs.uid.Some? && attrs.gid.Some?
    ensures Has(flags, PERMISSIONS) <==> attrs.permissions.Some?
    ensures Has(flags, ACMODTIME) <==> attrs.atime.Some? || attrs.mtime.Some?
    ensures !Has(flags, EXTENDED)
  {
    FlagsAgain(attrs);
    hide Has;
    flags := 0;
    if attrs.size.Some? {
      flags := flags + SIZE;
    }
    if attrs.uid.Some? && attrs.gid.Some? {
      flags := flags + UIDGID;
    }
    if attrs.permissions.Some? {
      flags := flags + PERMISSIONS;
    }
    if attrs.atime.Some? || attrs.mtime.Some? {
      flags := flags + ACMODTIME;
    }
  }

  lemma PutInOrder(before: seq<byte>, a: Attrs)
    ensures var flags, owner, times := PutU32(Flags(a)), PutTwo(Owner(a)), PutTwo(Times(a));
      var size := if a.size.Some? then PutU64(a.size.value) else [];
      var permissions := if a.permissions.Some? then PutU32(a.permissions.value) else [];
      before + flags + size + owner + permissions + times == before + PutAttrs(a)
  {
    hide Flags;
    hide PutU32;
    hide PutU64;
    hide PutTwo;
    var flags, owner, times := PutU32(Flags(a)), PutTwo(Owner(a)), PutTwo(Times(a));
    var size := if a.size.Some? then PutU64(a.size.value) else [];
    var permissions := if a.permissions.Some? then PutU32(a.permissions.value) else [];
    InOrder(before, flags, size, owner, permissions, times);
    assert flags + size + owner + permissions + times + [] == flags + size + owner + permissions + times;
    InOrder(flags, size, owner, permissions, times, []);
    assert times + [] == times;
  }

  /** Reads fields off a packet's body. */
  class Decoder {
    var data: seq<byte>

    constructor (data: seq<byte>)
      ensures this.data == data
    {
      this.data := data;
    }

    /** What a read was to find, it found, and the rest is still to be read. */
    ghost predicate Did<T>(got: Option<T>, read: Read<T>)
      reads this
    {
      match read
      case Truncated => got.None?
      case Read(value, rest) => got == Some(value) && data == rest
    }

    method Take(count: nat) returns (r: Option<seq<byte>>)
      modifies this
      ensures Did(r, TakeBytes(old(data), count))
      ensures r.Some? <==> |old(data)| >= count
      ensures if r.Some? then |r.value| == count && r.value + data == old(data) else data == old(data)
    {
      if |data| < count {
        return None;
      }
      r, data := Some(data[..count]), data[count..];
    }

    method U32() returns (r: Option<u32>)
      modifies this
      ensures Did(r, ReadU32(old(data)))
      ensures r.Some? <==> |old(data)| >= 4
      ensures r.Some? ==> PutU32(r.value) + data == old(data)
    {
      if |data| >= 4 {
        U32Written(data);
      }
      hide PutU32;
      var bytes := Take(4);
      if bytes.None? {
        return None;
      }
      r := Some(Value32(bytes.value[0], bytes.value[1], bytes.value[2], bytes.value[3]));
    }

    method U64() returns (r: Option<u64>)
      modifies this
      ensures Did(r, ReadU64(old(data)))
      ensures r.Some? <==> |old(data)| >= 8
      ensures r.Some? ==> PutU64(r.value) + data == old(data)
    {
      if |data| >= 8 {
        U64Written(data);
      }
      hide PutU64;
      var b := Take(8);
      if b.None? {
        return None;
      }
      r := Some(Value64(Value32(b.value[0], b.value[1], b.value[2], b.value[3]),
                        Value32(b.value[4], b.value[5], b.value[6], b.value[7])));
    }

    method Bytes() returns (r: Option<seq<byte>>)
      modifies this
      ensures Did(r, ReadString(old(data)))
      ensures r.Some? ==> PutString(r.value) + data == old(data)
    {
      if ReadString(data).Read? {
        StringWritten(data);
      }
      hide PutString;
      hide ReadU32;
      var length := U32();
      if length.None? {
        return None;
      }
      r := Take(length.value);
    }

    method TwoU32(on: bool) returns (ok: bool, r: Option<Two>)
      modifies this
      ensures Did(if ok then Some(r) else None, MaybeTwo(on, old(data)))
    {
      hide ReadU32;
      ok, r := true, None;
      if on {
        var a := U32();
        if a.None? {
          return false, None;
        }
        var b := U32();
        if b.None? {
          return false, None;
        }
        r := Some(Two(a.value, b.value));
      }
    }

    method Skip() returns (ok: bool)
      modifies this
      ensures Did(if ok then Some(true) else None, SkipExtended(true, old(data)))
    {
      hide ReadU32;
      hide ReadString;
      var count := U32();
      if count.None? {
        return false;
      }
      var i, start := 0, data;
      while i < count.value
        invariant 0 <= i <= count.value
        invariant SkipPairs(count.value, start) == SkipPairs(count.value - i, data)
      {
        var name := Bytes();
        if name.None? {
          return false;
        }
        var value := Bytes();
        if value.None? {
          return false;
        }
        i := i + 1;
      }
      ok := true;
    }

    method Attributes() returns (r: Option<Attrs>)
      modifies this
      ensures Did(r, ReadAttrs(old(data)))
    {
      hide Has;
      hide ReadU32;
      hide ReadU64;
      hide SkipPairs;
      var flags := U32();
      if flags.None? {
        return None;
      }
      var attrs := NOTHING;
      if Has(flags.value, SIZE) {
        var size := U64();
        if size.None? {
          return None;
        }
        attrs := attrs.(size := size);
      }
      var ok, owner := TwoU32(Has(flags.value, UIDGID));
      if !ok {
        return None;
      }
      if owner.Some? {
        attrs := attrs.(uid := Some(owner.value.a), gid := Some(owner.value.b));
      }
      if Has(flags.value, PERMISSIONS) {
        var permissions := U32();
        if permissions.None? {
          return None;
        }
        attrs := attrs.(permissions := permissions);
      }
      var times;
      ok, times := TwoU32(Has(flags.value, ACMODTIME));
      if !ok {
        return None;
      }
      if times.Some? {
        attrs := attrs.(atime := Some(times.value.a), mtime := Some(times.value.b));
      }
      if Has(flags.value, EXTENDED) {
        ok := Skip();
        if !ok {
          return None;
        }
      }
      r := Some(attrs);
    }

    method Entry() returns (r: Option<NameEntry>)
      modifies this
      ensures Did(r, ReadEntry(old(data)))
    {
      hide ReadString;
      hide ReadAttrs;
      var filename := Bytes();
      if filename.None? {
        return None;
      }
      var longname := Bytes();
      if longname.None? {
        return None;
      }
      var attrs := Attributes();
      if attrs.None? {
        return None;
      }
      r := Some(NameEntry(filename.value, longname.value, attrs.value));
    }

    /** The entries of a NAME reply, one after another. */
    method Names(count: nat) returns (r: Option<seq<NameEntry>>)
      modifies this
      ensures Did(r, ReadNames(count, old(data)))
    {
      hide ReadEntry;
      var entries, start := [], data;
      AfterNone(ReadNames(count, start));
      while |entries| < count
        invariant |entries| <= count
        invariant ReadNames(count, start) == After(entries, ReadNames(count - |entries|, data))
        decreases count - |entries|
      {
        AfterOne(entries, count - |entries|, data);
        var entry := Entry();
        if entry.None? {
          return None;
        }
        entries := entries + [entry.value];
      }
      assert entries + [] == entries;
      r := Some(entries);
    }
  }

  function After(entries: seq<NameEntry>, more: Read<seq<NameEntry>>): Read<seq<NameEntry>> {
    match more
    case Truncated => Truncated
    case Read(value, rest) => Read(entries + value, rest)
  }

  lemma AfterNone(more: Read<seq<NameEntry>>)
    ensures After([], more) == more
  {
    if more.Read? {
      assert [] + more.value == more.value;
    }
  }

  lemma AfterOne(entries: seq<NameEntry>, count: nat, d: seq<byte>)
    requires count > 0
    ensures After(entries, ReadNames(count, d)) ==
      match ReadEntry(d)
      case Truncated => Truncated
      case Read(entry, d1) => After(entries + [entry], ReadNames(count - 1, d1))
  {
    hide ReadEntry;
    match ReadEntry(d)
    case Truncated =>
    case Read(entry, d1) =>
      var more := ReadNames(count - 1, d1);
      if more.Read? {
        assert entries + ([entry] + more.value) == (entries + [entry]) + more.value;
      }
  }

  /** `parse_response`. */
  method ParseReply(body: seq<byte>) returns (reply: Reply)
    ensures reply == ParseResponse(body)
  {
    hide ReadU32;
    hide ReadString;
    hide ReadAttrs;
    hide ReadNames;
    if body == [] {
      return Malformed;
    }
    var kind := body[0];
    var decoder := new Decoder(body[1..]);
    var id := decoder.U32();
    if id.None? {
      return Malformed;
    }
    var response: Response;
    if kind == FXP_STATUS {
      var code := decoder.U32();
      if code.None? {
        return Malformed;
      }
      var message: Option<seq<byte>> := Some([]);
      if decoder.data != [] {
        message := decoder.Bytes();
      }
      if message.None? {
        return Malformed;
      }
      response := Status(code.value, message.value);
    } else if kind == FXP_HANDLE || kind == FXP_DATA {
      var bytes := decoder.Bytes();
      if bytes.None? {
        return Malformed;
      }
      response := if kind == FXP_HANDLE then Handle(bytes.value) else Data(bytes.value);
    } else if kind == FXP_NAME {
      var count := decoder.U32();
      if count.None? {
        return Malformed;
      }
      var entries := decoder.Names(count.value);
      if entries.None? {
        return Malformed;
      }
      response := Name(entries.value);
    } else if kind == FXP_ATTRS {
      var attrs := decoder.Attributes();
      if attrs.None? {
        return Malformed;
      }
      response := Response.Attributes(attrs.value);
    } else if kind == FXP_EXTENDED_REPLY {
      response := ExtendedReply(decoder.data);
    } else {
      return Malformed;
    }
    reply := Reply(id.value, response);
  }

  function WithExtensions(list: seq<Extension>, more: Read<seq<Extension>>): Read<seq<Extension>> {
    match more
    case Truncated => Truncated
    case Read(value, rest) => Read(list + value, rest)
  }

  lemma OneExtension(list: seq<Extension>, d: seq<byte>)
    requires d != []
    ensures WithExtensions(list, ReadExtensions(d)) ==
      match ReadString(d)
      case Truncated => Truncated
      case Read(name, d1) =>
        match ReadString(d1)
        case Truncated => Truncated
        case Read(data, d2) => WithExtensions(list + [Extension(name, data)], ReadExtensions(d2))
  {
    match ReadString(d)
    case Truncated =>
    case Read(name, d1) =>
      match ReadString(d1)
      case Truncated =>
      case Read(data, d2) =>
        if ReadExtensions(d2).Read? {
          Associate(list, [Extension(name, data)], ReadExtensions(d2).value);
        }
    hide ReadString;
  }

  lemma NoExtension(list: seq<Extension>)
    ensures WithExtensions(list, ReadExtensions([])) == Read(list, [])
    ensures forall more :: WithExtensions([], more) == more
  {
    assert list + [] == list;
    forall more ensures WithExtensions([], more) == more {
      if more.Read? {
        assert [] + more.value == more.value;
      }
    }
  }

  /** `parse_version`. */
  method ParseHello(body: seq<byte>) returns (hello: Option<Hello>)
    ensures hello == ParseVersion(body)
  {
    hide ReadU32;
    hide ReadExtensions;
    if body == [] || body[0] != FXP_VERSION {
      return None;
    }
    var decoder := new Decoder(body[1..]);
    var version := decoder.U32();
    if version.None? {
      return None;
    }
    ghost var all := ReadExtensions(decoder.data);
    var list: seq<Extension> := [];
    NoExtension([]);
    while decoder.data != []
      invariant all == WithExtensions(list, ReadExtensions(decoder.data))
      decreases |decoder.data|
    {
      OneExtension(list, decoder.data);
      ghost var before := decoder.data;
      var name := decoder.Bytes();
      if name.None? {
        return None;
      }
      Shorter(before);
      ghost var middle := decoder.data;
      var data := decoder.Bytes();
      if data.None? {
        return None;
      }
      Shorter(middle);
      list := list + [Extension(name.value, data.value)];
    }
    NoExtension(list);
    hello := Some(Hello(version.value, list));
  }

  lemma Shorter(d: seq<byte>)
    ensures ReadString(d).Read? ==> |ReadString(d).rest| < |d|
  {
  }
}
