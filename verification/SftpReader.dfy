/** Pipelined reads of a remote file (src-tauri/src/sftp/file.rs, `SftpReader`).

    The server is an oracle: every poll of the oldest request brings its own
    function from a READ's offset and length to an answer, so replies may be
    late, short, overlong (with junk after what was asked for) or failures, and
    may differ from poll to poll. All that is asked of it is `Honest`. */
module SftpReading {
  import opened Basics

  /** A READ on its way (the source's `InFlight`). */
  datatype Range = Range(offset: nat, length: nat) {
    function End(): nat { offset + length }
  }

  /** What polling a READ's reply finds. */
  datatype Answer = NotYet | Eof | Data(data: seq<byte>) | Error

  type Server = (nat, nat) -> Answer

  /** Whether the answer is `data`, or the end of the file and so none. */
  predicate Answered(data: seq<byte>, answer: Answer) {
    answer == Data(data) || (answer == Eof && data == [])
  }

  /** What one `poll_read` returns; `Ready([])` into a buffer with room is the
      end of the file. */
  datatype Outcome = Pending | Ready(bytes: seq<byte>) | Failed

  /** An answer a server holding `file` may give to a READ of `length` bytes at
      `offset`: data agrees with the file as far as it was asked for, and the end
      is reported (by EOF or by no data) only at or past it. */
  ghost predicate HonestAnswer(file: seq<byte>, offset: nat, length: nat, answer: Answer) {
    match answer
    case NotYet => true
    case Error => true
    case Eof => |file| <= offset
    case Data(data) =>
      if data == [] then |file| <= offset
      else
        var count := Min(|data|, length);
        offset + count <= |file| && data[..count] == file[offset..offset + count]
  }

  ghost predicate Honest(file: seq<byte>, server: Server) {
    forall offset: nat, length: nat :: HonestAnswer(file, offset, length, server(offset, length))
  }

  /** The requests follow one another without gap or overlap from `from` to `to`. */
  ghost predicate Contiguous(ranges: seq<Range>, from: nat, to: nat) {
    if ranges == [] then from == to
    else ranges[0].offset == from && Contiguous(ranges[1..], ranges[0].End(), to)
  }

  lemma {:induction false} ContiguousAppend(ranges: seq<Range>, from: nat, to: nat, length: nat)
    requires Contiguous(ranges, from, to)
    ensures Contiguous(ranges + [Range(to, length)], from, to + length)
  {
    var extended := ranges + [Range(to, length)];
    if ranges != [] {
      ContiguousAppend(ranges[1..], ranges[0].End(), to, length);
      assert extended[1..] == ranges[1..] + [Range(to, length)];
    }
  }

  /** Contiguous requests of at most `chunk` bytes reach no further than the
      pipeline is long: with `depth` of them, offsets stay within
      `depth * chunk` of what was delivered. */
  lemma {:induction false} ContiguousReach(ranges: seq<Range>, from: nat, to: nat, chunk: nat)
    requires Contiguous(ranges, from, to)
    requires forall i :: 0 <= i < |ranges| ==> ranges[i].length <= chunk
    ensures from <= to <= from + |ranges| * chunk
    ensures ranges != [] ==> ranges[|ranges| - 1].End() == to
  {
    if ranges != [] {
      ContiguousReach(ranges[1..], ranges[0].End(), to, chunk);
      if |ranges| > 1 {
        assert ranges[1..][|ranges| - 2] == ranges[|ranges| - 1];
      }
      assert |ranges| * chunk == (|ranges| - 1) * chunk + chunk;
    }
  }

  /** What a READ at `offset` asks for: a full chunk, or up to the hint from before it. */
  function Wanted(offset: nat, hint: Option<nat>, chunk: nat): nat {
    if hint.Some? && offset < hint.value then Min(chunk, hint.value - offset) else chunk
  }

  /** The READs from the `n`th on ask for what is wanted. */
  ghost predicate AskedFrom(ranges: seq<Range>, n: nat, hint: Option<nat>, chunk: nat) {
    forall i :: n <= i < |ranges| ==> ranges[i].length == Wanted(ranges[i].offset, hint, chunk)
  }

  /** A READ sent for the byte at `at` was answered with an error. */
  ghost predicate ErrorAt(sent: seq<Range>, server: Server, at: nat) {
    exists i :: 0 <= i < |sent| && sent[i].offset == at && server(at, sent[i].length) == Error
  }

  ghost predicate AllSent(ranges: seq<Range>, sent: seq<Range>) {
    forall i :: 0 <= i < |ranges| ==> ranges[i] in sent
  }

  /** A hint stays unless there was something past it. */
  predicate HintStays(before: Option<nat>, after: Option<nat>, start: nat, taken: seq<byte>) {
    after == before || (after.None? && before.Some? && taken != [] && start + |taken| > before.value)
  }

  /** As long as the file does not go on past the hint, it stays. */
  lemma HintHolds(file: seq<byte>, start: nat, before: Option<nat>, after: Option<nat>, taken: seq<byte>)
    requires taken <= From(file, start) && HintStays(before, after, start, taken)
    ensures before.Some? && |file| <= before.value ==> after == before
  {
  }

  /** How many of the READs sent so far ask for something past `end`. */
  ghost function PastEnd(sent: seq<Range>, end: nat): nat {
    if sent == [] then 0
    else PastEnd(sent[..|sent| - 1], end) + if sent[|sent| - 1].End() > end then 1 else 0
  }

  lemma PastEndAppend(sent: seq<Range>, range: Range, end: nat)
    ensures PastEnd(sent + [range], end) == PastEnd(sent, end) + if range.End() > end then 1 else 0
  {
    assert (sent + [range])[..|sent|] == sent;
  }

  ghost predicate Lengths(ranges: seq<Range>, chunk: nat) {
    forall i :: 0 <= i < |ranges| ==> 1 <= ranges[i].length <= chunk
  }

  /** As long as the hint has not been disproved, at most one READ went past it:
      the probe, which stays on its way until it is answered. */
  ghost predicate HintKept(inFlight: seq<Range>, sent: seq<Range>, end: nat, probed: bool, endOfFile: bool) {
    && PastEnd(sent, end) == (if probed then 1 else 0)
    && (probed && !endOfFile ==> inFlight != [] && inFlight[|inFlight| - 1].offset >= end)
    && (forall i :: 0 <= i < |inFlight| ==>
          inFlight[i].End() <= end || (probed && i == |inFlight| - 1))
  }

  /** What ties the pipeline to the file while no error was reported: `taken`,
      the bytes off the wire so far, is the file from `start` as far as it goes;
      the requests in flight carry on from there; and the hint is kept. */
  ghost predicate Tracked(file: seq<byte>, start: nat, taken: seq<byte>, inFlight: seq<Range>, sent: seq<Range>,
                          next: nat, hint: Option<nat>, probed: bool, endOfFile: bool) {
    && taken <= From(file, start)
    && (if endOfFile then taken == From(file, start) else Contiguous(inFlight, start + |taken|, next))
    && (hint.Some? ==> HintKept(inFlight, sent, hint.value, probed, endOfFile))
  }

  /** Sending `request` at the end of the pipeline. */
  lemma Extend(inFlight: seq<Range>, sent: seq<Range>, cursor: nat, request: Range, chunk: nat,
               hint: Option<nat>, wasProbed: bool, probed: bool)
    requires Lengths(inFlight, chunk) && 1 <= request.length <= chunk
    requires Contiguous(inFlight, cursor, request.offset)
    requires hint.Some? ==>
      && HintKept(inFlight, sent, hint.value, wasProbed, false)
      && (if request.offset >= hint.value then !wasProbed && probed
          else probed == wasProbed && request.End() <= hint.value)
    ensures Lengths(inFlight + [request], chunk)
    ensures Contiguous(inFlight + [request], cursor, request.End())
    ensures hint.Some? ==> HintKept(inFlight + [request], sent + [request], hint.value, probed, false)
  {
    ContiguousAppend(inFlight, cursor, request.offset, request.length);
    ContiguousReach(inFlight, cursor, request.offset, chunk);
    if hint.Some? {
      PastEndAppend(sent, request, hint.value);
    }
  }

  /** What the reader is to deliver: the file from the start offset on (nothing
      when that lies past the end). */
  function From(file: seq<byte>, start: nat): seq<byte> {
    file[Min(start, |file|)..]
  }

  /** The requests in flight once `received` bytes of the oldest one came: the
      rest of its range is requested again, ahead of everything else. */
  function Shortened(inFlight: seq<Range>, received: nat): seq<Range>
    requires inFlight != [] && received <= inFlight[0].length
  {
    var front := inFlight[0];
    (if received < front.length then [Range(front.offset + received, front.length - received)] else [])
    + inFlight[1..]
  }

  lemma ShortenedLengths(inFlight: seq<Range>, received: nat, chunk: nat)
    requires inFlight != [] && 1 <= received <= inFlight[0].length && Lengths(inFlight, chunk)
    ensures |Shortened(inFlight, received)| <= |inFlight| && Lengths(Shortened(inFlight, received), chunk)
  {
  }

  lemma ShortenedContiguous(inFlight: seq<Range>, next: nat, received: nat)
    requires inFlight != [] && 1 <= received <= inFlight[0].length
    requires Contiguous(inFlight, inFlight[0].offset, next)
    ensures Contiguous(Shortened(inFlight, received), inFlight[0].offset + received, next)
  {
    var shortened := Shortened(inFlight, received);
    if received < inFlight[0].length {
      assert shortened[1..] == inFlight[1..];
    } else {
      assert shortened == inFlight[1..];
    }
  }

  /** The READs sent once `received` bytes of the oldest one came. */
  ghost function SentAfter(sent: seq<Range>, inFlight: seq<Range>, received: nat): seq<Range>
    requires inFlight != [] && received <= inFlight[0].length
  {
    if received < inFlight[0].length then sent + [Shortened(inFlight, received)[0]] else sent
  }

  /** A hint that `received` bytes at `offset` go past is given up. */
  function HintAfter(hint: Option<nat>, offset: nat, received: nat): Option<nat> {
    if hint.Some? && offset + received > hint.value then None else hint
  }

  lemma ShortenedHint(inFlight: seq<Range>, sent: seq<Range>, received: nat, hint: Option<nat>, probed: bool)
    requires inFlight != [] && 1 <= received <= inFlight[0].length
    requires hint.Some? ==> HintKept(inFlight, sent, hint.value, probed, false)
    ensures var after := HintAfter(hint, inFlight[0].offset, received);
      after.Some? ==>
        HintKept(Shortened(inFlight, received), SentAfter(sent, inFlight, received), after.value, probed, false)
  {
    if HintAfter(hint, inFlight[0].offset, received).Some? {
      ShortenedHintKept(inFlight, sent, received, hint.value, probed);
    }
  }

  lemma ShortenedHintKept(inFlight: seq<Range>, sent: seq<Range>, received: nat, end: nat, probed: bool)
    requires inFlight != [] && 1 <= received <= inFlight[0].length
    requires HintKept(inFlight, sent, end, probed, false) && inFlight[0].offset + received <= end
    ensures HintKept(Shortened(inFlight, received), SentAfter(sent, inFlight, received), end, probed, false)
  {
    var shortened := Shortened(inFlight, received);
    if received < inFlight[0].length {
      PastEndAppend(sent, shortened[0], end);
      assert forall i :: 1 <= i < |inFlight| ==> shortened[i] == inFlight[i];
      assert shortened[0].End() == inFlight[0].End();
    } else {
      assert forall i :: 0 <= i < |shortened| ==> shortened[i] == inFlight[i + 1];
    }
  }

  /** An honest answer to the range at the cursor continues what was delivered. */
  lemma Continues(file: seq<byte>, start: nat, delivered: seq<byte>, data: seq<byte>)
    requires delivered <= From(file, start)
    requires data != [] && start + |delivered| + |data| <= |file|
    requires data == file[start + |delivered|..start + |delivered| + |data|]
    ensures delivered + data <= From(file, start)
  {
    assert From(file, start)[|delivered|..|delivered| + |data|] == data;
    assert From(file, start)[..|delivered|] == delivered;
    assert delivered + data == From(file, start)[..|delivered| + |data|];
  }

  /** What honest data for the oldest READ leaves behind. */
  lemma Received(file: seq<byte>, start: nat, taken: seq<byte>, inFlight: seq<Range>, sent: seq<Range>,
                 next: nat, hint: Option<nat>, probed: bool, data: seq<byte>)
    requires inFlight != [] && inFlight[0].length >= 1 && data != []
    requires HonestAnswer(file, inFlight[0].offset, inFlight[0].length, Data(data))
    requires Tracked(file, start, taken, inFlight, sent, next, hint, probed, false)
    ensures var received := Min(|data|, inFlight[0].length);
      Tracked(file, start, taken + data[..received], Shortened(inFlight, received),
              SentAfter(sent, inFlight, received), next, HintAfter(hint, inFlight[0].offset, received), probed, false)
  {
    var received := Min(|data|, inFlight[0].length);
    Continues(file, start, taken, data[..received]);
    ShortenedContiguous(inFlight, next, received);
    ShortenedHint(inFlight, sent, received, hint, probed);
  }

  class SftpReader {
    const pipelineChunk: nat
    const pipelineDepth: nat
    var nextOffset: nat
    var expectedEnd: Option<nat>
    var probed: bool
    var inFlight: seq<Range>
    var endOfFile: bool
    var chunk: seq<byte>
    var position: nat

    ghost const file: seq<byte>
    ghost const start: nat
    /** Everything returned to the caller so far. */
    ghost var delivered: seq<byte>
    /** Every READ sent so far. */
    ghost var sent: seq<Range>
    /** An error reached the caller (its range is lost: nothing is claimed then). */
    ghost var failed: bool

    /** The bytes taken off the wire but not yet returned. */
    ghost function Unread(): seq<byte>
      reads this
      requires position <= |chunk|
    {
      chunk[position..]
    }

    /** Where the next byte to take off the wire lies in the file. */
    ghost function Cursor(): nat
      reads this
      requires position <= |chunk|
    {
      start + |delivered + Unread()|
    }

    ghost predicate Valid()
      reads this
    {
      && 1 <= pipelineChunk <= U32_MAX
      && 1 <= pipelineDepth
      && position <= |chunk|
      && |inFlight| <= pipelineDepth
      && Lengths(inFlight, pipelineChunk)
      && (endOfFile ==> inFlight == [])
      && (!failed ==>
            Tracked(file, start, delivered + Unread(), inFlight, sent, nextOffset, expectedEnd, probed, endOfFile))
      && AllSent(inFlight, sent)
    }

    /** The pipeline is full, or only the probe is left to answer. */
    ghost predicate Full()
      reads this
    {
      |inFlight| == pipelineDepth || (expectedEnd.Some? && probed && nextOffset >= expectedEnd.value)
    }

    /** Offsets never run away from what was delivered, and the hint costs at
        most one READ that turns out needless. */
    lemma Bounded()
      requires Valid() && !failed
      ensures !endOfFile ==> Cursor() <= nextOffset <= Cursor() + pipelineDepth * pipelineChunk
      ensures expectedEnd.Some? ==> PastEnd(sent, expectedEnd.value) <= 1
    {
      if !endOfFile {
        ContiguousReach(inFlight, Cursor(), nextOffset, pipelineChunk);
        MulMonotone(|inFlight|, pipelineDepth, pipelineChunk);
      }
    }

    constructor (ghost file: seq<byte>, offset: nat, expectedEnd: Option<nat>, chunk: nat, depth: nat)
      requires 1 <= chunk <= U32_MAX && 1 <= depth
      ensures Valid() && this.file == file && start == offset
      ensures delivered == [] && !failed && !endOfFile && this.expectedEnd == expectedEnd
      ensures sent == [] && pipelineDepth == depth && pipelineChunk == chunk
    {
      this.pipelineChunk := chunk;
      this.pipelineDepth := depth;
      this.nextOffset := offset;
      this.expectedEnd := expectedEnd;
      this.probed := false;
      this.inFlight := [];
      this.endOfFile := false;
      this.chunk := [];
      this.position := 0;
      this.file := file;
      this.start := offset;
      this.delivered := [];
      this.sent := [];
      this.failed := false;
    }

    /** Requests the next `length` bytes. */
    method Send(length: nat, ghost wasProbed: bool)
      requires !endOfFile && |inFlight| < pipelineDepth && 1 <= length <= pipelineChunk <= U32_MAX
      requires position <= |chunk| && Lengths(inFlight, pipelineChunk)
      requires AllSent(inFlight, sent)
      requires !failed ==>
        Tracked(file, start, delivered + Unread(), inFlight, sent, nextOffset, expectedEnd, wasProbed, false)
      requires !failed && expectedEnd.Some? ==>
        (if nextOffset >= expectedEnd.value then !wasProbed && probed
            else probed == wasProbed && nextOffset + length <= expectedEnd.value)
      modifies this`nextOffset, this`inFlight, this`sent
      ensures Valid() && inFlight == old(inFlight) + [Range(old(nextOffset), length)]
      ensures nextOffset == old(nextOffset) + length && sent == old(sent) + [Range(old(nextOffset), length)]
    {
      var request := Range(nextOffset, length);
      if !failed {
        Extend(inFlight, sent, Cursor(), request, pipelineChunk, expectedEnd, wasProbed, probed);
      }
      sent := sent + [request];
      nextOffset := nextOffset + length;
      inFlight := inFlight + [request];
      assert request in sent;
    }

    /** Sends READs until the pipeline is full or only the probe's answer can
        tell whether the file goes on. Afterwards something is on its way unless
        the end was already found. */
    method FillPipeline()
      requires Valid()
      modifies this`nextOffset, this`probed, this`inFlight, this`sent
      ensures Valid()
      ensures old(inFlight) <= inFlight
      ensures !failed && !endOfFile ==> inFlight != []
      ensures !endOfFile ==> Full()
      ensures AskedFrom(inFlight, |old(inFlight)|, expectedEnd, pipelineChunk)
      ensures endOfFile ==> inFlight == old(inFlight) && sent == old(sent)
    {
      while !endOfFile && |inFlight| < pipelineDepth
        invariant Valid()
        invariant old(inFlight) <= inFlight
        invariant AskedFrom(inFlight, |old(inFlight)|, expectedEnd, pipelineChunk)
        invariant endOfFile ==> inFlight == old(inFlight) && sent == old(sent)
        decreases pipelineDepth - |inFlight|
      {
        label top:
        var length := pipelineChunk;
        if expectedEnd.Some? {
          var end := expectedEnd.value;
          if nextOffset >= end {
            if probed {
              break;
            }
            probed := true;
          } else {
            length := Min(length, if end - nextOffset <= U32_MAX then end - nextOffset else U32_MAX);
          }
        }
        Send(length, old@top(probed));
      }
    }

    lemma Hinted(before: Option<nat>)
      requires Valid() && !failed && HintStays(before, expectedEnd, start, delivered + Unread())
      ensures before.Some? && |file| <= before.value ==>
                expectedEnd == before && PastEnd(sent, before.value) <= 1
      ensures delivered <= From(file, start)
    {
      HintHolds(file, start, before, expectedEnd, delivered + Unread());
      Bounded();
    }

    lemma FrontNext()
      requires Valid() && !failed && inFlight != []
      ensures !endOfFile && inFlight[0].offset == Cursor()
    {
    }

    lemma NothingLeft()
      requires Valid() && !failed && endOfFile
      ensures delivered + Unread() == From(file, start)
    {
    }

    lemma NotAllYet()
      requires Valid() && !failed && Unread() != []
      ensures delivered != From(file, start)
    {
      assert delivered + Unread() <= From(file, start);
    }

    lemma SentFor(server: Server)
      requires Valid() && !failed && inFlight != [] && server(inFlight[0].offset, inFlight[0].length) == Error
      ensures ErrorAt(sent, server, Cursor())
    {
      FrontNext();
      var i :| 0 <= i < |sent| && sent[i] == inFlight[0];
    }

    /** Reads into a buffer with room for `capacity` bytes. Until an error is
        reported, what was returned stays a prefix of the file from the start
        offset, and an empty read is returned exactly when all of it was. The
        error reported is the one of the READ for the next byte to return. */
    method PollRead(capacity: nat, server: Server) returns (outcome: Outcome)
      requires Valid() && Honest(file, server)
      modifies this
      ensures Valid()
      ensures failed == (old(failed) || outcome.Failed?)
      ensures delivered == old(delivered) + if outcome.Ready? then outcome.bytes else []
      ensures outcome.Ready? ==> |outcome.bytes| <= capacity
      ensures outcome.Ready? && capacity > 0 && !failed ==>
                (outcome.bytes == [] <==> old(delivered) == From(file, start))
      ensures old(Unread()) != [] ==> outcome == Ready(old(Unread())[..Min(capacity, |old(Unread())|)])
      ensures outcome.Failed? && !old(failed) ==>
                Unread() == [] && ErrorAt(sent, server, start + |delivered|)
      ensures !failed ==> HintStays(old(expectedEnd), expectedEnd, start, delivered + Unread())
      ensures outcome.Pending? ==>
                && Unread() == [] && inFlight != []
                && server(inFlight[0].offset, inFlight[0].length) == NotYet
    {
      hide Tracked;
      hide Lengths;
      hide ErrorAt;
      hide AllSent;
      hide From;
      hide AskedFrom;
      hide Honest;
      while true
        invariant Valid()
        invariant failed == old(failed) && delivered == old(delivered)
        invariant old(Unread()) != [] ==> chunk == old(chunk) && position == old(position)
        invariant !failed ==> HintStays(old(expectedEnd), expectedEnd, start, delivered + Unread())
        decreases if position < |chunk| then 0 else if endOfFile then 1 else 2
      {
        if position < |chunk| {
          if !failed {
            NotAllYet();
          }
          var bytes := Deliver(capacity);
          return Ready(bytes);
        }
        FillPipeline();
        if inFlight == [] {
          if !failed {
            NothingLeft();
            assert delivered + [] == delivered;
          }
          return Ready([]); // end of file
        }
        var front := inFlight[0];
        match server(front.offset, front.length) {
          case NotYet =>
            return Pending;
          case Error =>
            if !failed {
              SentFor(server);
            }
            Lose();
            return Failed;
          case Data(data) =>
            Take(data, server);
          case Eof =>
            Take([], server);
        }
      }
    }

    /** Hands over what is left of the current chunk, as far as there is room. */
    method Deliver(capacity: nat) returns (bytes: seq<byte>)
      requires Valid() && position < |chunk|
      modifies this`position, this`delivered
      ensures Valid()
      ensures bytes == old(Unread())[..Min(capacity, |old(Unread())|)]
      ensures Unread() == old(Unread())[|bytes|..] && delivered == old(delivered) + bytes
      ensures Cursor() == old(Cursor())
    {
      var count := Min(capacity, |chunk| - position);
      bytes := chunk[position..position + count];
      assert delivered + Unread() == delivered + bytes + chunk[position + count..];
      position := position + count;
      delivered := delivered + bytes;
    }

    /** The oldest READ's data; none is the end of the file. */
    method Take(data: seq<byte>, ghost server: Server)
      requires Valid() && Honest(file, server) && position == |chunk| && inFlight != []
      requires Answered(data, server(inFlight[0].offset, inFlight[0].length))
      modifies this`expectedEnd, this`inFlight, this`chunk, this`position, this`sent, this`endOfFile
      ensures Valid() && if data == [] then endOfFile && position == |chunk| else position < |chunk|
      ensures data == [] ==> expectedEnd == old(expectedEnd)
      ensures !failed ==> HintStays(old(expectedEnd), expectedEnd, start, delivered + Unread())
    {
      assert HonestAnswer(file, inFlight[0].offset, inFlight[0].length,
                          server(inFlight[0].offset, inFlight[0].length));
      if !failed {
        FrontNext();
      }
      hide Tracked;
      hide Lengths;
      hide AllSent;
      hide Honest;
      if data != [] {
        Receive(data);
      } else {
        Finish();
      }
    }

    /** The oldest READ came to nothing. */
    method Lose()
      requires Valid() && inFlight != []
      modifies this`inFlight, this`failed
      ensures Valid() && failed && inFlight == old(inFlight)[1..]
    {
      inFlight := inFlight[1..];
      failed := true;
    }

    /** The oldest READ found the end, and those after it start further on. */
    method Finish()
      requires Valid() && position == |chunk| && inFlight != []
      requires |file| <= inFlight[0].offset
      modifies this`endOfFile, this`inFlight
      ensures Valid() && endOfFile
    {
      endOfFile := true;
      inFlight := [];
    }

    /** Takes the data answering the oldest READ: cut to what was asked for, the
        rest of its range requested again ahead of everything else. */
    method Receive(data: seq<byte>)
      requires Valid() && position == |chunk| && inFlight != [] && data != []
      requires HonestAnswer(file, inFlight[0].offset, inFlight[0].length, Data(data))
      modifies this`expectedEnd, this`inFlight, this`chunk, this`position, this`sent
      ensures Valid() && position < |chunk|
      ensures Unread() == data[..Min(|data|, old(inFlight)[0].length)]
      ensures expectedEnd == HintAfter(old(expectedEnd), old(inFlight)[0].offset, |Unread()|)
    {
      var front := inFlight[0];
      var received := Min(|data|, front.length);
      ShortenedLengths(inFlight, received, pipelineChunk);
      if !failed {
        Received(file, start, delivered + Unread(), inFlight, sent, nextOffset, expectedEnd, probed, data);
      }
      expectedEnd := HintAfter(expectedEnd, front.offset, received);
      sent := SentAfter(sent, inFlight, received);
      inFlight := Shortened(inFlight, received);
      chunk := data[..received];
      position := 0;
      assert delivered + Unread() == delivered + old(Unread()) + data[..received];
    }
  }

  /** One call of `poll_read`: the room in the caller's buffer, and what the
      server has answered by then. */
  datatype Turn = Turn(capacity: nat, server: Server)

  datatype Status = Reading | Ended | Broken

  /** A turn that can make progress: room in the buffer and every answer there. */
  ghost predicate Responsive(turn: Turn) {
    turn.capacity > 0 && forall offset: nat, length: nat :: turn.server(offset, length) != NotYet
  }

  ghost function Responsives(turns: seq<Turn>): nat {
    if turns == [] then 0
    else Responsives(turns[..|turns| - 1]) + if Responsive(turns[|turns| - 1]) then 1 else 0
  }

  /** Every run of the reader, whatever the hint, the chunk and depth, and the
      server's short, overlong, late or failing answers: what comes out is a
      prefix of the file from the start offset, all of it once the end is
      reported; and the end (or an error) is reported after at most one turn
      more than there are bytes to deliver. */
  method ReadToEnd(ghost file: seq<byte>, offset: nat, expectedEnd: Option<nat>, chunk: nat, depth: nat,
                   turns: seq<Turn>)
    returns (out: seq<byte>, status: Status, ghost sent: seq<Range>)
    requires 1 <= chunk <= U32_MAX && 1 <= depth
    requires forall i :: 0 <= i < |turns| ==> Honest(file, turns[i].server)
    ensures out <= From(file, offset)
    ensures status == Ended ==> out == From(file, offset)
    ensures Responsives(turns) > |From(file, offset)| ==> status != Reading
    ensures status == Broken ==>
              exists i :: 0 <= i < |turns| && ErrorAt(sent, turns[i].server, offset + |out|)
    ensures status != Broken && expectedEnd.Some? && |file| <= expectedEnd.value ==>
              PastEnd(sent, expectedEnd.value) <= 1
  {
    hide Tracked;
    hide Lengths;
    hide ErrorAt;
    hide HintStays;
    var reader := new SftpReader(file, offset, expectedEnd, chunk, depth);
    out, status, sent := [], Reading, [];
    var i := 0;
    while i < |turns|
      invariant 0 <= i <= |turns|
      invariant reader.Valid() && fresh(reader) && !reader.failed && reader.file == file && reader.start == offset
      invariant out == reader.delivered && sent == reader.sent && out <= From(file, offset)
      invariant expectedEnd.Some? && |file| <= expectedEnd.value ==>
                  reader.expectedEnd == expectedEnd && PastEnd(sent, expectedEnd.value) <= 1
      invariant Responsives(turns[..i]) <= |out|
    {
      ghost var hint := reader.expectedEnd;
      var outcome := reader.PollRead(turns[i].capacity, turns[i].server);
      if !reader.failed {
        reader.Hinted(hint);
      }
      sent := reader.sent;
      assert turns[..i + 1][..i] == turns[..i];
      match outcome {
        case Failed =>
          return out, Broken, sent;
        case Pending =>
        case Ready(bytes) =>
          if bytes == [] && turns[i].capacity > 0 {
            return out, Ended, sent;
          }
          out := out + bytes;
      }
      i := i + 1;
    }
    assert turns[..i] == turns;
  }
}
