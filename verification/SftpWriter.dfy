/** Pipelined writes to a remote file (src-tauri/src/sftp/file.rs, `SftpWriter`).

    WRITEs are numbered as they are sent. The server may apply those it was sent
    in any order and answer at any time after; every poll of the writer brings
    the answers there are by then. */
module SftpWriting {
  import opened Basics

  // ---- What writing bytes at an offset does to a file --------------------------

  /** `file` with `data` written over it at `offset`: bytes in between that were
      never written read as zero. */
  function Overlay(file: seq<byte>, offset: nat, data: seq<byte>): (r: seq<byte>)
    ensures |r| == if data == [] then |file| else Max(|file|, offset + |data|)
  {
    if data == [] then file
    else
      seq(Max(|file|, offset + |data|),
          i requires 0 <= i < Max(|file|, offset + |data|) =>
            if offset <= i < offset + |data| then data[i - offset] else if i < |file| then file[i] else 0)
  }

  lemma OverlayAt(file: seq<byte>, offset: nat, data: seq<byte>, i: nat)
    requires i < |Overlay(file, offset, data)|
    ensures Overlay(file, offset, data)[i]
         == if offset <= i < offset + |data| then data[i - offset] else if i < |file| then file[i] else 0
  {
  }

  lemma OverlaysCommute(file: seq<byte>, a: nat, x: seq<byte>, b: nat, y: seq<byte>)
    requires a + |x| <= b || b + |y| <= a
    ensures Overlay(Overlay(file, a, x), b, y) == Overlay(Overlay(file, b, y), a, x)
  {
  }

  lemma OverlaysJoin(file: seq<byte>, a: nat, x: seq<byte>, y: seq<byte>)
    ensures Overlay(Overlay(file, a, x), a + |x|, y) == Overlay(file, a, x + y)
  {
    hide Overlay;
    OverlayNothing(file, a);
    OverlayNothing(Overlay(file, a, x), a + |x|);
    if y == [] {
      assert x + y == x;
    } else if x == [] {
      assert x + y == y;
    } else {
      OverlaysJoinAt(file, a, x, y);
    }
  }

  lemma OverlayNothing(file: seq<byte>, offset: nat)
    ensures Overlay(file, offset, []) == file
  {
  }

  lemma OverlaysJoinAt(file: seq<byte>, a: nat, x: seq<byte>, y: seq<byte>)
    requires x != [] && y != []
    ensures Overlay(Overlay(file, a, x), a + |x|, y) == Overlay(file, a, x + y)
  {
    hide Overlay;
    var one, two := Overlay(file, a, x + y), Overlay(Overlay(file, a, x), a + |x|, y);
    assert |one| == |two|;
    forall i | 0 <= i < |one| ensures one[i] == two[i] {
      OverlayAt(file, a, x + y, i);
      OverlayAt(Overlay(file, a, x), a + |x|, y, i);
      if i < |Overlay(file, a, x)| {
        OverlayAt(file, a, x, i);
      }
    }
  }

  // ---- WRITEs, and the order a server applies them in ---------------------------

  datatype Write = Write(offset: nat, data: seq<byte>)

  /** The bytes the writes carry, in the order they were sent. */
  function Joined(writes: seq<Write>): seq<byte> {
    if writes == [] then []
    else Joined(writes[..|writes| - 1]) + writes[|writes| - 1].data
  }

  /** Each write starts where the one before it ended, the first one at `start`. */
  ghost predicate Consecutive(writes: seq<Write>, start: nat) {
    writes != [] ==>
      var init := writes[..|writes| - 1];
      Consecutive(init, start) && writes[|writes| - 1].offset == start + |Joined(init)|
  }

  ghost predicate Below(order: seq<nat>, count: nat) {
    forall i :: 0 <= i < |order| ==> order[i] < count
  }

  /** The file after the server applied the writes numbered in `order`, in that
      order. */
  ghost function Applied(file: seq<byte>, writes: seq<Write>, order: seq<nat>): seq<byte>
    requires Below(order, |writes|)
  {
    if order == [] then file
    else
      var write := writes[order[|order| - 1]];
      Overlay(Applied(file, writes, order[..|order| - 1]), write.offset, write.data)
  }

  ghost predicate Distinct(order: seq<nat>) {
    forall i, j :: 0 <= i < j < |order| ==> order[i] != order[j]
  }

  /** Every write was applied, and none twice. */
  ghost predicate Permutes(order: seq<nat>, count: nat) {
    && Distinct(order)
    && Below(order, count)
    && (forall k :: 0 <= k < count ==> k in order)
  }

  lemma {:induction false} ConsecutiveBefore(writes: seq<Write>, start: nat, k: nat)
    requires Consecutive(writes, start) && k < |writes|
    ensures writes[k].offset + |writes[k].data| <= start + |Joined(writes)|
  {
    var init := writes[..|writes| - 1];
    if k < |init| {
      ConsecutiveBefore(init, start, k);
    }
  }

  lemma AppliedPrefix(file: seq<byte>, writes: seq<Write>, more: seq<Write>, order: seq<nat>)
    requires Below(order, |writes|)
    ensures Applied(file, writes + more, order) == Applied(file, writes, order)
  {
    if order != [] {
      AppliedPrefix(file, writes, more, order[..|order| - 1]);
    }
  }

  lemma AppliedNone(file: seq<byte>, writes: seq<Write>, offset: nat)
    ensures Applied(file, writes, []) == file && Overlay(file, offset, []) == file
  {
  }

  lemma AppliedNext(file: seq<byte>, writes: seq<Write>, order: seq<nat>, next: nat)
    requires next < |writes| && Below(order, |writes|)
    ensures Applied(file, writes, order + [next])
         == Overlay(Applied(file, writes, order), writes[next].offset, writes[next].data)
  {
    assert (order + [next])[..|order|] == order;
  }

  /** The last write sent touches nothing the others do, so it may as well have
      been applied last. */
  lemma {:induction false} LastWriteMovesToEnd(file: seq<byte>, writes: seq<Write>, start: nat,
                                               before: seq<nat>, after: seq<nat>)
    requires writes != [] && Consecutive(writes, start)
    requires Below(before, |writes| - 1) && Below(after, |writes| - 1)
    ensures var last := |writes| - 1;
      Applied(file, writes, before + [last] + after)
      == Overlay(Applied(file, writes, before + after), writes[last].offset, writes[last].data)
  {
    hide Overlay;
    hide Applied;
    var last := |writes| - 1;
    AppliedNext(file, writes, before, last);
    if after == [] {
      assert before + [last] + after == before + [last] && before + after == before;
    } else {
      var init := after[..|after| - 1];
      var x := after[|after| - 1];
      assert before + [last] + after == before + [last] + init + [x];
      assert before + after == before + init + [x];
      LastWriteMovesToEnd(file, writes, start, before, init);
      AppliedNext(file, writes, before + [last] + init, x);
      AppliedNext(file, writes, before + init, x);
      assert writes[..last][x] == writes[x];
      ConsecutiveBefore(writes[..last], start, x);
      OverlaysCommute(Applied(file, writes, before + init),
                      writes[last].offset, writes[last].data, writes[x].offset, writes[x].data);
    }
  }

  function Without(order: seq<nat>, p: nat): seq<nat>
    requires p < |order|
  {
    order[..p] + order[p + 1..]
  }

  lemma WithoutAt(order: seq<nat>, p: nat, i: nat)
    requires p < |order| && i < |order| - 1
    ensures Without(order, p)[i] == order[if i < p then i else i + 1]
  {
  }

  /** Taking the largest number out of a permutation. */
  lemma PermutesWithout(order: seq<nat>, p: nat, last: nat)
    requires Permutes(order, last + 1) && p < |order| && order[p] == last
    ensures Permutes(Without(order, p), last)
  {
    var rest := Without(order, p);
    hide Without;
    assert |rest| == |order| - 1 by { WithoutLength(order, p); }
    forall i | 0 <= i < |rest| ensures rest[i] < last {
      WithoutAt(order, p, i);
    }
    forall i, j | 0 <= i < j < |rest| ensures rest[i] != rest[j] {
      WithoutAt(order, p, i);
      WithoutAt(order, p, j);
    }
    forall k | 0 <= k < last ensures k in rest {
      assert k in order;
      var i :| 0 <= i < |order| && order[i] == k;
      WithoutAt(order, p, if i < p then i else i - 1);
    }
  }

  lemma WithoutLength(order: seq<nat>, p: nat)
    requires p < |order|
    ensures |Without(order, p)| == |order| - 1
  {
  }

  lemma SplitAt(order: seq<nat>, p: nat, last: nat)
    requires Permutes(order, last + 1) && p < |order| && order[p] == last
    ensures order == order[..p] + [last] + order[p + 1..]
    ensures Below(order[..p], last) && Below(order[p + 1..], last)
  {
  }

  /** Whatever order the server applies consecutive writes in, the file ends up
      with all their bytes laid over it in one piece. */
  lemma {:induction false} AnyOrder(file: seq<byte>, writes: seq<Write>, start: nat, order: seq<nat>)
    requires Consecutive(writes, start) && Permutes(order, |writes|)
    ensures Applied(file, writes, order) == Overlay(file, start, Joined(writes))
  {
    hide Overlay;
    hide Applied;
    if order == [] {
      AppliedNone(file, writes, start);
      assert writes != [] ==> |writes| - 1 in order;
    } else {
      var last := |writes| - 1;
      assert order[0] <= last && last in order;
      var p :| 0 <= p < |order| && order[p] == last;
      var rest := Without(order, p);
      PermutesWithout(order, p, last);
      SplitAt(order, p, last);
      LastWriteMovesToEnd(file, writes, start, order[..p], order[p + 1..]);
      var init := writes[..last];
      AnyOrder(file, init, start, rest);
      assert writes == init + [writes[last]];
      AppliedPrefix(file, init, [writes[last]], rest);
      OverlaysJoin(file, start, Joined(init), writes[last].data);
    }
  }

  // ---- The writer ----------------------------------------------------------------

  /** What polling a WRITE's (or the CLOSE's) reply finds. */
  datatype Answer = NotYet | Done | Refused

  /** The answers there are by the time of a call, by the write's number. */
  type Answers = nat -> Answer

  datatype Outcome = Pending | Ready | Failed

  datatype WriteOutcome = Waiting | Accepted(count: nat) | WriteFailed | BrokenPipe

  /** The buffer and the writes sent carry exactly the accepted bytes, in order. */
  ghost predicate Carried(start: nat, accepted: seq<byte>, sent: seq<Write>, buffer: seq<byte>, offset: nat) {
    && Consecutive(sent, start)
    && accepted == Joined(sent) + buffer
    && offset == start + |Joined(sent)|
  }

  /** In flight are the newest writes sent; without a failure, all older ones
      were acknowledged. */
  ghost predicate Queued(inFlight: seq<nat>, count: nat, acknowledged: set<nat>, failed: bool) {
    && |inFlight| <= count
    && (forall i :: 0 <= i < |inFlight| ==> inFlight[i] == count - |inFlight| + i)
    && (!failed ==> forall k: nat :: k < count - |inFlight| ==> k in acknowledged)
  }

  lemma CarriedDispatch(start: nat, accepted: seq<byte>, sent: seq<Write>, buffer: seq<byte>, offset: nat)
    requires Carried(start, accepted, sent, buffer, offset)
    ensures Carried(start, accepted, sent + [Write(offset, buffer)], [], offset + |buffer|)
  {
    var extended := sent + [Write(offset, buffer)];
    assert extended[..|sent|] == sent;
    assert Joined(extended) + [] == Joined(sent) + buffer;
  }

  /** What a call may do to the writes: send more, and learn of the answers given. */
  ghost predicate Progressed(sent0: seq<Write>, sent: seq<Write>, acknowledged0: set<nat>, acknowledged: set<nat>,
                             answers: Answers) {
    && sent0 <= sent
    && (forall k :: k in acknowledged ==> k in acknowledged0 || answers(k) == Done)
  }

  /** Some write sent so far was answered with an error. */
  ghost predicate AnyRefused(sent: seq<Write>, answers: Answers) {
    exists k: nat :: k < |sent| && answers(k) == Refused
  }

  lemma RefusedAmong(few: seq<Write>, many: seq<Write>, answers: Answers)
    requires AnyRefused(few, answers) && few <= many
    ensures AnyRefused(many, answers)
  {
  }

  /** Every write sent since is a full chunk. */
  ghost predicate FullChunks(before: seq<Write>, sent: seq<Write>, chunk: nat) {
    before <= sent && forall k :: |before| <= k < |sent| ==> |sent[k].data| == chunk
  }

  class SftpWriter {
    const chunk: nat
    const depth: nat
    var offset: nat
    var buffer: seq<byte>
    /** The numbers of the writes not yet known to be done. */
    var inFlight: seq<nat>
    var closing: bool
    var closed: bool

    /** Every WRITE handed to the client; a write's number is its place here. */
    var sent: seq<Write>

    ghost const start: nat
    ghost var accepted: seq<byte>
    ghost var acknowledged: set<nat>
    ghost var closes: nat
    /** An error reached the caller (and was popped: nothing is claimed then). */
    ghost var failed: bool

    ghost predicate Valid()
      reads this
    {
      && 1 <= chunk && 1 <= depth
      && |buffer| <= chunk
      && |inFlight| <= depth
      && Carried(start, accepted, sent, buffer, offset)
      && Queued(inFlight, |sent|, acknowledged, failed)
      && closes == (if closing || closed then 1 else 0)
      && !(closing && closed)
      && (closed ==> buffer == [] && inFlight == [])
    }

    constructor (offset: nat, chunk: nat, depth: nat)
      requires 1 <= chunk && 1 <= depth
      ensures Valid() && start == offset && accepted == [] && sent == [] && acknowledged == {}
      ensures !failed && !closing && !closed && closes == 0
    {
      this.chunk := chunk;
      this.depth := depth;
      this.offset := offset;
      this.buffer := [];
      this.inFlight := [];
      this.closing := false;
      this.closed := false;
      this.start := offset;
      this.accepted := [];
      this.sent := [];
      this.acknowledged := {};
      this.closes := 0;
      this.failed := false;
    }

    /** Sends the buffered bytes as one WRITE. */
    method Dispatch()
      requires Valid() && !closed && |inFlight| < depth && buffer != []
      modifies this`offset, this`buffer, this`inFlight, this`sent
      ensures Valid() && buffer == [] && inFlight == old(inFlight) + [|old(sent)|]
      ensures sent == old(sent) + [Write(old(offset), old(buffer))]
    {
      CarriedDispatch(start, accepted, sent, buffer, offset);
      inFlight := inFlight + [|sent|];
      sent := sent + [Write(offset, buffer)];
      offset := offset + |buffer|;
      buffer := [];
    }

    /** The oldest write's answer, with its error if it has one. */
    method PollOldest(answers: Answers) returns (outcome: Outcome)
      requires Valid()
      modifies this`inFlight, this`acknowledged, this`failed
      ensures Valid() && Progressed(old(sent), sent, old(acknowledged), acknowledged, answers)
      ensures failed == (old(failed) || outcome.Failed?)
      ensures inFlight == if outcome.Pending? || old(inFlight) == [] then old(inFlight) else old(inFlight)[1..]
      ensures outcome == if old(inFlight) == [] then Ready
                         else match answers(old(inFlight)[0])
                           case NotYet => Pending
                           case Done => Ready
                           case Refused => Failed
      ensures outcome.Failed? ==> AnyRefused(sent, answers)
    {
      if inFlight == [] {
        return Ready;
      }
      var front := inFlight[0];
      match answers(front) {
        case NotYet =>
          return Pending;
        case Done =>
          acknowledged := acknowledged + {front};
          inFlight := inFlight[1..];
          return Ready;
        case Refused =>
          failed := true;
          inFlight := inFlight[1..];
          return Failed;
      }
    }

    lemma InOrder()
      requires Valid()
      ensures |inFlight| > 1 ==> inFlight[1] == inFlight[0] + 1
    {
    }

    /** Takes answered writes off the front, as many as there are. */
    method Reap(answers: Answers) returns (ok: bool)
      requires Valid()
      modifies this`inFlight, this`acknowledged, this`failed
      ensures Valid() && Progressed(old(sent), sent, old(acknowledged), acknowledged, answers)
      ensures failed == (old(failed) || !ok)
      ensures ok && inFlight != [] ==> answers(inFlight[0]) == NotYet
      ensures !ok ==> AnyRefused(sent, answers)
    {
      while inFlight != []
        invariant Valid() && Progressed(old(sent), sent, old(acknowledged), acknowledged, answers)
        invariant failed == old(failed)
        decreases |inFlight|
      {
        var outcome := PollOldest(answers);
        match outcome {
          case Ready =>
          case Failed => return false;
          case Pending => break;
        }
      }
      return true;
    }

    /** Sends what is buffered and waits for everything in flight. */
    method PollDrain(answers: Answers) returns (outcome: Outcome)
      requires Valid() && !closed
      modifies this`offset, this`buffer, this`inFlight, this`sent, this`acknowledged, this`failed
      ensures Valid() && Progressed(old(sent), sent, old(acknowledged), acknowledged, answers)
      ensures failed == (old(failed) || outcome.Failed?)
      ensures outcome.Ready? ==> buffer == [] && inFlight == []
      ensures outcome.Pending? ==> inFlight != [] && answers(inFlight[0]) == NotYet
      ensures outcome.Failed? ==> AnyRefused(sent, answers)
    {
      if buffer != [] {
        while |inFlight| >= depth
          invariant Valid() && Progressed(old(sent), sent, old(acknowledged), acknowledged, answers)
          invariant failed == old(failed) && buffer != []
          decreases |inFlight|
        {
          outcome := PollOldest(answers);
          if !outcome.Ready? {
            return;
          }
        }
        Dispatch();
      }
      while inFlight != []
        invariant Valid() && Progressed(old(sent), sent, old(acknowledged), acknowledged, answers)
        invariant failed == old(failed) && buffer == []
        decreases |inFlight|
      {
        outcome := PollOldest(answers);
        if !outcome.Ready? {
          return;
        }
      }
      return Ready;
    }

    /** Fills the buffer from `data`, and sends it once it is a full chunk and
        there is a slot free. */
    method Accept(data: seq<byte>) returns (count: nat)
      requires Valid() && !closed && |buffer| < chunk
      modifies this`offset, this`buffer, this`inFlight, this`sent, this`accepted
      ensures Valid() && FullChunks(old(sent), sent, chunk)
      ensures |buffer| < chunk || |inFlight| == depth
      ensures old(inFlight) <= inFlight && (inFlight == old(inFlight) || inFlight == old(inFlight) + [|old(sent)|])
      ensures count == Min(|data|, chunk - old(|buffer|))
      ensures accepted == old(accepted) + data[..count]
    {
      count := Min(|data|, chunk - |buffer|);
      buffer := buffer + data[..count];
      accepted := accepted + data[..count];
      assert accepted == Joined(sent) + buffer;
      if |buffer| == chunk && |inFlight| < depth {
        Dispatch();
      }
    }

    /** Takes as much of `data` as fits the buffer; waits only while
        neither the chunk nor the pipeline has room. */
    method PollWrite(data: seq<byte>, answers: Answers) returns (outcome: WriteOutcome)
      requires Valid()
      modifies this`offset, this`buffer, this`inFlight, this`sent, this`acknowledged, this`failed, this`accepted
      ensures Valid() && Progressed(old(sent), sent, old(acknowledged), acknowledged, answers)
      ensures failed == (old(failed) || outcome.WriteFailed?)
      ensures outcome.BrokenPipe? <==> closed
      ensures outcome.Accepted? ==> outcome.count <= |data| && (data != [] ==> outcome.count > 0)
      ensures outcome.Accepted? ==>
                outcome.count == Min(|data|, chunk - if |old(buffer)| < chunk then |old(buffer)| else 0)
      ensures accepted == old(accepted) + if outcome.Accepted? then data[..outcome.count] else []
      ensures FullChunks(old(sent), sent, chunk)
      ensures outcome.Accepted? ==> |buffer| < chunk || |inFlight| == depth
      ensures outcome.Accepted? && inFlight != [] ==>
                inFlight[0] >= |old(sent)| || answers(inFlight[0]) == NotYet
      ensures outcome.WriteFailed? ==> AnyRefused(sent, answers)
      ensures outcome.Waiting? ==> |buffer| == chunk && |inFlight| == depth && answers(inFlight[0]) == NotYet
    {
      hide Carried;
      hide Queued;
      hide AnyRefused;
      if closed {
        return BrokenPipe;
      }
      var reaped := Reap(answers);
      if !reaped {
        return WriteFailed;
      }
      while true
        invariant Valid() && Progressed(old(sent), sent, old(acknowledged), acknowledged, answers)
        invariant failed == old(failed) && accepted == old(accepted)
        invariant FullChunks(old(sent), sent, chunk)
        invariant if sent == old(sent) then buffer == old(buffer) else buffer == [] && |old(buffer)| == chunk
        invariant inFlight != [] ==> inFlight[0] >= |old(sent)| || answers(inFlight[0]) == NotYet
        decreases |buffer|, |inFlight|
      {
        if |buffer| < chunk {
          var count := Accept(data);
          return Accepted(count);
        }
        // Nothing more fits until the chunk goes out.
        if |inFlight| < depth {
          Dispatch();
        } else {
          InOrder();
          var oldest := PollOldest(answers);
          match oldest {
            case Ready =>
            case Pending => return Waiting;
            case Failed => return WriteFailed;
          }
        }
      }
    }

    method PollFlush(answers: Answers) returns (outcome: Outcome)
      requires Valid()
      modifies this`offset, this`buffer, this`inFlight, this`sent, this`acknowledged, this`failed
      ensures Valid() && Progressed(old(sent), sent, old(acknowledged), acknowledged, answers)
      ensures failed == (old(failed) || outcome.Failed?)
      ensures outcome.Ready? ==> buffer == [] && inFlight == []
      ensures outcome.Pending? ==> inFlight != [] && answers(inFlight[0]) == NotYet
      ensures outcome.Failed? ==> AnyRefused(sent, answers)
      ensures (forall k: nat :: answers(k) == Done) ==> outcome.Ready?
    {
      if closed {
        return Ready;
      }
      outcome := PollDrain(answers);
    }

    /** Drains, then closes the handle; the CLOSE is sent once, when nothing is
        left to acknowledge, and awaited over as many calls as it takes. */
    method PollShutdown(answers: Answers, closeAnswer: Answer) returns (outcome: Outcome)
      requires Valid()
      modifies this`offset, this`buffer, this`inFlight, this`sent, this`acknowledged, this`failed
      modifies this`closing, this`closed, this`closes
      ensures Valid() && Progressed(old(sent), sent, old(acknowledged), acknowledged, answers)
      ensures failed == (old(failed) || outcome.Failed?)
      ensures outcome.Ready? ==> closed && (old(closed) || closeAnswer == Done)
      ensures outcome.Failed? ==> AnyRefused(sent, answers) || closeAnswer == Refused
      ensures (forall k: nat :: answers(k) == Done) && closeAnswer == Done ==> outcome.Ready?
      ensures closes > old(closes) ==> buffer == [] && inFlight == []
      ensures outcome.Pending? ==>
                if inFlight != [] then answers(inFlight[0]) == NotYet else closing && closeAnswer == NotYet
    {
      if closed {
        return Ready;
      }
      outcome := PollDrain(answers);
      if !outcome.Ready? {
        return;
      }
      if !closing {
        closing := true;
        closes := closes + 1;
      }
      match closeAnswer {
        case NotYet =>
          return Pending;
        case Done =>
          closing, closed := false, true;
          return Ready;
        case Refused =>
          closing, closed, failed := false, true, true;
          return Failed;
      }
    }

    /** Dropping the writer: the handle has been closed once, whatever happened. */
    method Drop()
      requires Valid()
      modifies this
      ensures closes == 1
    {
      if !closed && !closing {
        inFlight := [];
        closes := closes + 1;
      }
    }

    /** Drained without a failure, everything accepted is in the file, whatever
        order the server applied it in. */
    lemma Drained(file: seq<byte>, order: seq<nat>)
      requires Valid() && !failed && buffer == [] && inFlight == []
      requires Distinct(order) && Below(order, |sent|)
      requires forall k :: k in acknowledged ==> k in order
      ensures Applied(file, sent, order) == Overlay(file, start, accepted)
    {
      assert accepted == Joined(sent);
      AnyOrder(file, sent, start, order);
    }
  }

  // ---- Every run ---------------------------------------------------------------------

  datatype Op = PollWrite(data: seq<byte>) | PollFlush | PollShutdown

  /** One call of the writer: before it the server applies some more of the
      writes it was sent (`applies`; numbers that aren't due are passed over),
      and answers some (a write is answered as done only once it was applied). */
  datatype Call = Call(op: Op, applies: seq<nat>, answers: Answers, closeAnswer: Answer)

  /** The server answers a write, or the close, with an error. */
  ghost predicate Refuses(call: Call) {
    (exists k: nat :: call.answers(k) == Refused) || call.closeAnswer == Refused
  }

  /** Writing: bytes may still be on their way. Settled: the last call was a
      flush that finished. Closed: a shutdown finished. Broken: a call reported
      an error. */
  datatype Status = Writing | Settled | Closed | Broken

  /** The server's file, and the writes it applied so far, in order. */
  class Server {
    var file: seq<byte>
    var order: seq<nat>
    ghost const original: seq<byte>

    constructor (original: seq<byte>)
      ensures file == original && order == [] && this.original == original
    {
      this.file := original;
      this.order := [];
      this.original := original;
    }

    ghost predicate Valid(sent: seq<Write>)
      reads this
    {
      && Distinct(order)
      && Below(order, |sent|)
      && file == Applied(original, sent, order)
    }

    /** Applies those of `numbers` that were sent and not applied yet, in the
        order given. */
    method Apply(numbers: seq<nat>, sent: seq<Write>)
      requires Valid(sent)
      modifies this`file, this`order
      ensures Valid(sent) && old(order) <= order
    {
      for n := 0 to |numbers|
        invariant Valid(sent) && old(order) <= order
      {
        var k := numbers[n];
        if k < |sent| && k !in order {
          AppliedNext(original, sent, order, k);
          file := Overlay(file, sent[k].offset, sent[k].data);
          order := order + [k];
        }
      }
    }

    lemma SentMore(sent: seq<Write>, more: seq<Write>)
      requires Valid(sent) && sent <= more
      ensures Valid(more)
    {
      assert more == sent + more[|sent|..];
      AppliedPrefix(original, sent, more[|sent|..], order);
    }
  }

  /** The server has done what it answered. */
  ghost predicate Linked(writer: SftpWriter, server: Server)
    reads writer, server
  {
    && writer.Valid()
    && server.Valid(writer.sent)
    && (forall k :: k in writer.acknowledged ==> k in server.order)
  }

  /** One call, with what the server did before it. */
  method Turn(writer: SftpWriter, server: Server, call: Call) returns (taken: seq<byte>, status: Status)
    requires Linked(writer, server) && !writer.failed && !writer.closed
    modifies writer, server
    ensures Linked(writer, server)
    ensures writer.failed <==> status == Broken
    ensures writer.accepted == old(writer.accepted) + taken
    ensures taken == [] || (call.op.PollWrite? && taken <= call.op.data)
    ensures status == Broken ==> Refuses(call)
    ensures status == Settled || status == Closed ==>
              server.file == Overlay(server.original, writer.start, writer.accepted)
    ensures writer.closed ==> status == Closed || status == Broken
  {
    hide Overlay;
    hide Applied;
    hide Distinct;
    server.Apply(call.applies, writer.sent);
    var applied, said := server.order, call.answers;
    var answers: Answers := (k: nat) => if said(k) == Done && k !in applied then NotYet else said(k);
    ghost var before := writer.sent;
    taken := [];
    match call.op {
      case PollWrite(data) =>
        var outcome := writer.PollWrite(data, answers);
        taken := if outcome.Accepted? then data[..outcome.count] else [];
        status := if outcome.WriteFailed? then Broken else Writing;
      case PollFlush =>
        var outcome := writer.PollFlush(answers);
        status := match outcome case Failed => Broken case Ready => Settled case Pending => Writing;
      case PollShutdown =>
        var outcome := writer.PollShutdown(answers, call.closeAnswer);
        status := match outcome case Failed => Broken case Ready => Closed case Pending => Writing;
    }
    server.SentMore(before, writer.sent);
    if status == Settled || status == Closed {
      writer.Drained(server.original, server.order);
    }
  }

  /** Every run of the writer over a server that applies its writes in any order
      and answers when it likes: whenever a flush or the shutdown finished with
      no error reported so far, the file is the old one with exactly the accepted
      bytes laid over it at the start offset; and however it ended, the handle
      has been closed once when the writer is gone. */
  method WriteFile(original: seq<byte>, offset: nat, chunk: nat, depth: nat, calls: seq<Call>)
    returns (accepted: seq<byte>, file: seq<byte>, status: Status, ghost closes: nat)
    requires 1 <= chunk && 1 <= depth
    ensures status == Settled || status == Closed ==> file == Overlay(original, offset, accepted)
    ensures status == Broken ==> exists i :: 0 <= i < |calls| && Refuses(calls[i])
    ensures closes == 1
  {
    var server := new Server(original);
    var writer := new SftpWriter(offset, chunk, depth);
    accepted, status := [], Writing;
    var i := 0;
    while i < |calls| && status != Closed && status != Broken
      invariant 0 <= i <= |calls|
      invariant fresh(writer) && fresh(server) && Linked(writer, server)
      invariant writer.start == offset && server.original == original && accepted == writer.accepted
      invariant writer.failed <==> status == Broken
      invariant writer.closed ==> status == Closed || status == Broken
      invariant status == Broken ==> exists j :: 0 <= j < i && Refuses(calls[j])
      invariant status == Settled || status == Closed ==> server.file == Overlay(original, offset, accepted)
      decreases |calls| - i
    {
      var taken;
      taken, status := Turn(writer, server, calls[i]);
      accepted := accepted + taken;
      i := i + 1;
    }
    file := server.file;
    writer.Drop();
    closes := writer.closes;
  }
}
