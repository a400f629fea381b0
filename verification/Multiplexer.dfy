/** The SFTP request multiplexer (src-tauri/src/sftp/client.rs) as interleaved
    steps: each event is one critical section or one message, and they come in
    any order. A request is known by its number in order of sending; its id on
    the wire wraps around at 2^32. */
module Multiplexer {
  import opened Basics

  const IDS: nat := 0x1_0000_0000

  /** A reply as it came: `origin` is the request the server meant it for. */
  datatype Reply = Reply(id: nat, origin: nat)

  /** Where a request's one-shot channel is. */
  datatype Stage =
    | Made                      // `send` has taken an id, and not the lock yet
    | Waiting                   // registered; its sender is somewhere
    | Delivered(reply: Reply)   // the reply is in the channel
    | Orphaned                  // its sender was dropped unused
    | Refused                   // `send` found the session closed
    | Answered(reply: Reply)    // polled: the reply
    | Lost(reason: string)      // polled: the session ended
    | Dropped

  /** `returned`: `send` has handed the `Pending` to its caller. */
  datatype Request = Request(id: nat, stage: Stage, returned: bool) {
    /** The `Pending` still has its end of the channel. */
    predicate Live() {
      stage.Made? || stage.Waiting? || stage.Delivered? || stage.Orphaned?
    }
  }

  /** A reply on its way into a request's channel. */
  datatype Hold = Hold(to: nat, reply: Reply)

  datatype Mux = Mux(
    requests: seq<Request>,
    waiters: map<nat, nat>,
    closed: Option<string>,
    // What the reader took out of the waiters and is about to send on.
    hand: Option<Hold>,
    // Closes between setting the reason and clearing the waiters; whether one
    // has been through both.
    closing: nat,
    swept: bool,
    // Whether the writer is gone, and the requests the server still owes a reply.
    writerGone: bool,
    owed: set<nat>,
    // Every reply the reader sent into a channel, and whether the server has
    // only answered what it was asked.
    deliveries: seq<Hold>,
    honest: bool)
  {
    function Put(n: nat, stage: Stage): Mux
      requires n < |requests|
    {
      this.(requests := requests[n := requests[n].(stage := stage)])
    }

    /** A request whose id must not be used again yet. */
    predicate Busy(n: nat) {
      n < |requests| && (requests[n].Live() || n in owed)
    }
  }

  const Started := Mux([], map[], None, None, 0, false, false, {}, [], true)

  datatype Event =
    | Make
    | Register(n: nat)
    | Enqueue(n: nat)
    | Receive(reply: Reply)
    | SendOn
    | SetReason(reason: string)
    | Sweep
    | WriterEnds
    | Poll(n: nat)
    | Drop(n: nat)

  /** The id the next request gets. */
  function NextId(s: Mux): nat {
    (1 + |s.requests|) % IDS
  }

  predicate Enabled(s: Mux, e: Event) {
    match e
    // No id is used again while it is outstanding.
    case Make => forall u :: 0 <= u < |s.requests| && s.Busy(u) ==> s.requests[u].id != NextId(s)
    case Register(n) => n < |s.requests| && s.requests[n].stage.Made?
    case Enqueue(n) =>
      && n < |s.requests| && !s.requests[n].returned
      && (s.requests[n].stage.Waiting? || s.requests[n].stage.Delivered? || s.requests[n].stage.Orphaned?)
    case Receive(reply) => s.hand.None?
    case SendOn => s.hand.Some?
    case SetReason(_) => true
    case Sweep => s.closing > 0
    // The writer ends when the session has, or the client (which closes it).
    case WriterEnds => s.closed.Some?
    case Poll(n) => n < |s.requests| && s.requests[n].returned
    case Drop(n) => n < |s.requests| && s.requests[n].returned
  }

  /** The requests as they are once all waiters' senders are dropped. */
  function Orphans(requests: seq<Request>, waiters: map<nat, nat>): (r: seq<Request>)
    ensures |r| == |requests|
  {
    seq(|requests|, n requires 0 <= n < |requests| =>
      if requests[n].id in waiters && waiters[requests[n].id] == n then requests[n].(stage := Orphaned)
      else requests[n])
  }

  // ---- One step ---------------------------------------------------------------------

  /** `send` takes the next id. */
  function AfterMake(s: Mux): Mux {
    s.(requests := s.requests + [Request(NextId(s), Made, false)])
  }

  /** `send` finds the session open and registers, or is refused. */
  function AfterRegister(s: Mux, n: nat): Mux
    requires n < |s.requests|
  {
    if s.closed.Some? then s.(requests := s.requests[n := s.requests[n].(stage := Refused, returned := true)])
    else s.Put(n, Waiting).(waiters := s.waiters[s.requests[n].id := n])
  }

  /** Queue the packet; without a writer the request is taken back. */
  function AfterEnqueue(s: Mux, n: nat): Mux
    requires n < |s.requests|
  {
    if !s.writerGone then s.(requests := s.requests[n := s.requests[n].(returned := true)], owed := s.owed + {n})
    else
      var request := s.requests[n];
      var mine := request.id in s.waiters && s.waiters[request.id] == n;
      var stage := if mine then Orphaned else request.stage;
      s.(requests := s.requests[n := request.(stage := stage, returned := true)], waiters := s.waiters - {request.id})
  }

  /** The reader takes the reply's waiter. */
  function AfterReceive(s: Mux, reply: Reply): Mux {
    var asked := reply.origin in s.owed && reply.origin < |s.requests| && s.requests[reply.origin].id == reply.id;
    var t := s.(owed := s.owed - {reply.origin}, honest := s.honest && asked);
    if reply.id in s.waiters then
      t.(hand := Some(Hold(s.waiters[reply.id], reply)), waiters := s.waiters - {reply.id})
    else t
  }

  /** And sends it the reply, if its `Pending` is still there. */
  function AfterSendOn(s: Mux): Mux
    requires s.hand.Some?
  {
    var held := s.hand.value;
    var t := s.(hand := None);
    if held.to < |s.requests| && s.requests[held.to].stage.Waiting? then
      t.Put(held.to, Delivered(held.reply)).(deliveries := s.deliveries + [held])
    else t
  }

  /** `close`, its first half. */
  function AfterSetReason(s: Mux, reason: string): Mux {
    s.(closed := if s.closed.None? then Some(reason) else s.closed, closing := s.closing + 1)
  }

  /** And its second: dropping the senders. */
  function AfterSweep(s: Mux): Mux
    requires s.closing > 0
  {
    s.(requests := Orphans(s.requests, s.waiters), waiters := map[], closing := s.closing - 1, swept := true)
  }

  function AfterPoll(s: Mux, n: nat): Mux
    requires n < |s.requests|
  {
    match s.requests[n].stage
    case Delivered(reply) => s.Put(n, Answered(reply))
    case Orphaned => s.Put(n, Lost(LostReason(s)))
    case Refused => s.Put(n, Lost(LostReason(s)))
    case _ => s
  }

  /** Dropping a `Pending` forgets the request. */
  function AfterDrop(s: Mux, n: nat): Mux
    requires n < |s.requests|
  {
    var t := s.Put(n, Dropped);
    if s.requests[n].Live() then t.(waiters := s.waiters - {s.requests[n].id}) else t
  }

  function Next(s: Mux, e: Event): Mux
    requires Enabled(s, e)
  {
    match e
    case Make => AfterMake(s)
    case Register(n) => AfterRegister(s, n)
    case Enqueue(n) => AfterEnqueue(s, n)
    case Receive(reply) => AfterReceive(s, reply)
    case SendOn => AfterSendOn(s)
    case SetReason(reason) => AfterSetReason(s, reason)
    case Sweep => AfterSweep(s)
    case WriterEnds => s.(writerGone := true)
    case Poll(n) => AfterPoll(s, n)
    case Drop(n) => AfterDrop(s, n)
  }

  /** `lost_error`. */
  function LostReason(s: Mux): string {
    if s.closed.Some? then s.closed.value else "the SFTP session has ended"
  }

  function Run(s: Mux, events: seq<Event>): Mux
    decreases |events|
  {
    if events == [] then s
    else Run(if Enabled(s, events[0]) then Next(s, events[0]) else s, events[1..])
  }

  // ---- What every interleaving keeps -------------------------------------------------

  /** Every waiter is a waiting request registered under its own id. */
  ghost predicate WaitersFit(s: Mux) {
    forall id :: id in s.waiters ==>
      var n := s.waiters[id];
      n < |s.requests| && s.requests[n].id == id && s.requests[n].stage.Waiting?
  }

  ghost predicate HandFits(s: Mux) {
    s.hand.Some? ==>
      var held := s.hand.value;
      && held.to < |s.requests| && s.requests[held.to].id == held.reply.id
      && (s.requests[held.to].stage.Waiting? || s.requests[held.to].stage.Dropped?)
      && !(held.reply.id in s.waiters && s.waiters[held.reply.id] == held.to)
      && (s.honest ==> held.reply.origin == held.to)
  }

  /** A waiting request is never forgotten: it is among the waiters, or the reader
      holds its reply. */
  ghost predicate NoneForgotten(s: Mux) {
    forall n :: 0 <= n < |s.requests| && s.requests[n].stage.Waiting? ==>
      || (s.requests[n].id in s.waiters && s.waiters[s.requests[n].id] == n)
      || (s.hand.Some? && s.hand.value.to == n)
  }

  /** Requests in use have different ids. */
  ghost predicate IdsApart(s: Mux) {
    forall t, u :: 0 <= t < u < |s.requests| && s.Busy(t) && s.Busy(u) ==> s.requests[t].id != s.requests[u].id
  }

  /** A reply reached the request with its id (the one it was meant for, if the
      server keeps to what it was asked), and no request was sent two. */
  ghost predicate RepliesFit(s: Mux) {
    && (forall i :: 0 <= i < |s.deliveries| ==> Fits(s, s.deliveries[i]))
    && (forall i, j :: 0 <= i < j < |s.deliveries| ==> s.deliveries[i].to != s.deliveries[j].to)
    && (forall n :: 0 <= n < |s.requests| ==>
          && (s.requests[n].stage.Delivered? ==> Hold(n, s.requests[n].stage.reply) in s.deliveries)
          && (s.requests[n].stage.Answered? ==> Hold(n, s.requests[n].stage.reply) in s.deliveries))
  }

  predicate Fits(s: Mux, delivery: Hold) {
    && delivery.to < |s.requests| && s.requests[delivery.to].id == delivery.reply.id
    && !s.requests[delivery.to].stage.Made? && !s.requests[delivery.to].stage.Waiting?
    && (s.honest ==> delivery.reply.origin == delivery.to)
  }

  /** The session's end: whoever is lost is lost to it, for the first reason. */
  ghost predicate CloseFits(s: Mux) {
    && (s.closing > 0 || s.swept || s.writerGone ==> s.closed.Some?)
    && (s.swept ==> s.waiters == map[])
    && (forall n :: 0 <= n < |s.requests| ==>
          && (s.requests[n].stage.Made? ==> !s.requests[n].returned)
          && (s.requests[n].stage.Orphaned? || s.requests[n].stage.Refused? ==> s.closed.Some?)
          && (s.requests[n].stage.Lost? ==> s.closed == Some(s.requests[n].stage.reason)))
  }

  ghost predicate Inv(s: Mux) {
    && WaitersFit(s) && HandFits(s) && NoneForgotten(s) && IdsApart(s) && RepliesFit(s) && CloseFits(s)
    && (forall n :: n in s.owed ==> n < |s.requests|)
  }

  /** No request has come into use. */
  lemma IdsStayApart(s: Mux, t: Mux)
    requires IdsApart(s) && |t.requests| == |s.requests|
    requires forall u :: 0 <= u < |s.requests| ==> t.requests[u].id == s.requests[u].id
    requires forall u :: 0 <= u < |s.requests| ==> t.Busy(u) ==> s.Busy(u)
    ensures IdsApart(t)
  {
  }

  /** No reply was sent on, and no request goes back to waiting for one. */
  lemma RepliesStayFit(s: Mux, t: Mux)
    requires RepliesFit(s) && |t.requests| == |s.requests| && t.deliveries == s.deliveries && (t.honest ==> s.honest)
    requires forall u :: 0 <= u < |s.requests| ==>
      && t.requests[u].id == s.requests[u].id
      && (t.requests[u].stage.Made? || t.requests[u].stage.Waiting? ==>
            s.requests[u].stage.Made? || s.requests[u].stage.Waiting?)
      && (t.requests[u].stage == s.requests[u].stage
          || (t.requests[u].stage.Answered? && s.requests[u].stage == Delivered(t.requests[u].stage.reply))
          || !(t.requests[u].stage.Delivered? || t.requests[u].stage.Answered?))
    ensures RepliesFit(t)
  {
    forall i | 0 <= i < |t.deliveries| ensures Fits(t, t.deliveries[i]) {
      assert Fits(s, s.deliveries[i]);
    }
  }

  lemma MakeKeeps(s: Mux)
    requires Inv(s) && Enabled(s, Make)
    ensures Inv(AfterMake(s))
  {
    var t := AfterMake(s);
    assert RepliesFit(t) by {
      forall i | 0 <= i < |t.deliveries| ensures Fits(t, t.deliveries[i]) {
        assert Fits(s, s.deliveries[i]);
      }
    }
    hide RepliesFit;
  }

  lemma ReceiveKeeps(s: Mux, reply: Reply)
    requires Inv(s) && s.hand.None?
    ensures Inv(AfterReceive(s, reply))
  {
    var t := AfterReceive(s, reply);
    if reply.id in s.waiters {
      Alone(s, s.waiters[reply.id]);
    }
    IdsStayApart(s, t);
    hide IdsApart;
    RepliesStayFit(s, t);
    hide RepliesFit;
  }

  lemma SendOnFits(s: Mux)
    requires RepliesFit(s) && HandFits(s) && s.hand.Some?
    ensures RepliesFit(AfterSendOn(s))
  {
    var t := AfterSendOn(s);
    forall i | 0 <= i < |t.deliveries| ensures Fits(t, t.deliveries[i]) {
      if i < |s.deliveries| {
        assert Fits(s, s.deliveries[i]);
      }
    }
    forall i, j | 0 <= i < j < |t.deliveries| ensures t.deliveries[i].to != t.deliveries[j].to {
      assert Fits(s, s.deliveries[i]);
    }
  }

  lemma SendOnWaiting(s: Mux)
    requires WaitersFit(s) && HandFits(s) && NoneForgotten(s) && s.hand.Some?
    ensures var t := AfterSendOn(s); WaitersFit(t) && HandFits(t) && NoneForgotten(t)
  {
  }

  lemma SendOnEnds(s: Mux)
    requires CloseFits(s) && s.hand.Some?
    ensures CloseFits(AfterSendOn(s))
  {
  }

  lemma SendOnKeeps(s: Mux)
    requires Inv(s) && s.hand.Some?
    ensures Inv(AfterSendOn(s))
  {
    SendOnWaiting(s);
    SendOnFits(s);
    SendOnEnds(s);
    hide WaitersFit;
    hide HandFits;
    hide NoneForgotten;
    hide RepliesFit;
    hide CloseFits;
    hide IdsApart;
    IdsStayApart(s, AfterSendOn(s));
  }

  lemma SetReasonKeeps(s: Mux, reason: string)
    requires Inv(s)
    ensures Inv(AfterSetReason(s, reason))
  {
    var t := AfterSetReason(s, reason);
    IdsStayApart(s, t);
    hide IdsApart;
    RepliesStayFit(s, t);
    hide RepliesFit;
  }

  lemma SweepKeeps(s: Mux)
    requires Inv(s) && s.closing > 0
    ensures Inv(AfterSweep(s))
  {
    var t := AfterSweep(s);
    IdsStayApart(s, t);
    hide IdsApart;
    RepliesStayFit(s, t);
    hide RepliesFit;
  }

  /** A request in use is the only one with its id. */
  lemma Alone(s: Mux, n: nat)
    requires IdsApart(s) && s.Busy(n)
    ensures forall u :: 0 <= u < |s.requests| && u != n && s.Busy(u) ==> s.requests[u].id != s.requests[n].id
  {
  }

  lemma RegisterWaiters(s: Mux, n: nat)
    requires WaitersFit(s) && IdsApart(s) && Enabled(s, Register(n))
    ensures WaitersFit(AfterRegister(s, n))
  {
    Alone(s, n);
    hide IdsApart;
    var t := AfterRegister(s, n);
    forall id | id in t.waiters
      ensures t.waiters[id] < |t.requests| && t.requests[t.waiters[id]].id == id
      ensures t.requests[t.waiters[id]].stage.Waiting?
    {
    }
  }

  lemma RegisterHand(s: Mux, n: nat)
    requires HandFits(s) && Enabled(s, Register(n))
    ensures HandFits(AfterRegister(s, n))
  {
  }

  lemma RegisterForgets(s: Mux, n: nat)
    requires NoneForgotten(s) && IdsApart(s) && Enabled(s, Register(n))
    ensures NoneForgotten(AfterRegister(s, n))
  {
    Alone(s, n);
    hide IdsApart;
  }

  lemma RegisterEnds(s: Mux, n: nat)
    requires CloseFits(s) && Enabled(s, Register(n))
    ensures CloseFits(AfterRegister(s, n))
  {
  }

  lemma RegisterKeeps(s: Mux, n: nat)
    requires Inv(s) && Enabled(s, Register(n))
    ensures Inv(AfterRegister(s, n))
  {
    RegisterWaiters(s, n);
    RegisterHand(s, n);
    RegisterForgets(s, n);
    RegisterEnds(s, n);
    hide WaitersFit;
    hide HandFits;
    hide NoneForgotten;
    hide CloseFits;
    hide IdsApart;
    hide RepliesFit;
    var t := AfterRegister(s, n);
    IdsStayApart(s, t);
    RepliesStayFit(s, t);
  }

  lemma EnqueueWaiting(s: Mux, n: nat)
    requires WaitersFit(s) && HandFits(s) && NoneForgotten(s) && IdsApart(s) && Enabled(s, Enqueue(n))
    ensures var t := AfterEnqueue(s, n); WaitersFit(t) && HandFits(t) && NoneForgotten(t)
  {
    Alone(s, n);
    hide IdsApart;
  }

  lemma EnqueueEnds(s: Mux, n: nat)
    requires CloseFits(s) && Enabled(s, Enqueue(n))
    ensures CloseFits(AfterEnqueue(s, n))
  {
  }

  lemma EnqueueKeeps(s: Mux, n: nat)
    requires Inv(s) && Enabled(s, Enqueue(n))
    ensures Inv(AfterEnqueue(s, n))
  {
    EnqueueWaiting(s, n);
    EnqueueEnds(s, n);
    hide WaitersFit;
    hide HandFits;
    hide NoneForgotten;
    hide CloseFits;
    hide IdsApart;
    hide RepliesFit;
    var t := AfterEnqueue(s, n);
    IdsStayApart(s, t);
    RepliesStayFit(s, t);
  }

  lemma PollWaiters(s: Mux, n: nat)
    requires WaitersFit(s) && IdsApart(s) && Enabled(s, Poll(n))
    ensures WaitersFit(AfterPoll(s, n))
  {
    hide IdsApart;
    var t := AfterPoll(s, n);
    forall id | id in t.waiters
      ensures t.waiters[id] < |t.requests| && t.requests[t.waiters[id]].id == id
      ensures t.requests[t.waiters[id]].stage.Waiting?
    {
    }
  }

  lemma PollHand(s: Mux, n: nat)
    requires HandFits(s) && Enabled(s, Poll(n))
    ensures HandFits(AfterPoll(s, n))
  {
  }

  lemma PollForgets(s: Mux, n: nat)
    requires NoneForgotten(s) && IdsApart(s) && Enabled(s, Poll(n))
    ensures NoneForgotten(AfterPoll(s, n))
  {
    hide IdsApart;
  }

  lemma PollEnds(s: Mux, n: nat)
    requires CloseFits(s) && Enabled(s, Poll(n))
    ensures CloseFits(AfterPoll(s, n))
  {
  }

  /** Polling moves a request on to its end, if anywhere. */
  lemma PollMoves(s: Mux, n: nat)
    requires Enabled(s, Poll(n))
    ensures var t := AfterPoll(s, n);
      && |t.requests| == |s.requests| && t == s.(requests := t.requests)
      && t.requests[n].id == s.requests[n].id
      && (forall u :: 0 <= u < |s.requests| && u != n ==> t.requests[u] == s.requests[u])
      && (t.requests[n] == s.requests[n] || !(t.requests[n].Live() || t.requests[n].stage.Answered?)
          || (t.requests[n].stage.Answered? && s.requests[n].stage == Delivered(t.requests[n].stage.reply)))
  {
  }

  lemma PollApart(s: Mux, n: nat)
    requires IdsApart(s) && RepliesFit(s) && Enabled(s, Poll(n))
    ensures IdsApart(AfterPoll(s, n)) && RepliesFit(AfterPoll(s, n))
  {
    PollMoves(s, n);
    hide AfterPoll;
    hide IdsApart;
    hide RepliesFit;
    IdsStayApart(s, AfterPoll(s, n));
    RepliesStayFit(s, AfterPoll(s, n));
  }

  lemma PollKeeps(s: Mux, n: nat)
    requires Inv(s) && Enabled(s, Poll(n))
    ensures Inv(AfterPoll(s, n))
  {
    PollWaiters(s, n);
    PollHand(s, n);
    PollForgets(s, n);
    PollEnds(s, n);
    PollApart(s, n);
    PollMoves(s, n);
    hide AfterPoll;
    hide WaitersFit;
    hide HandFits;
    hide NoneForgotten;
    hide CloseFits;
    hide IdsApart;
    hide RepliesFit;
  }

  lemma DropWaiters(s: Mux, n: nat)
    requires WaitersFit(s) && IdsApart(s) && Enabled(s, Drop(n))
    ensures WaitersFit(AfterDrop(s, n))
  {
    if s.requests[n].Live() {
      Alone(s, n);
    }
    hide IdsApart;
  }

  lemma DropHand(s: Mux, n: nat)
    requires HandFits(s) && Enabled(s, Drop(n))
    ensures HandFits(AfterDrop(s, n))
  {
  }

  lemma DropForgets(s: Mux, n: nat)
    requires NoneForgotten(s) && IdsApart(s) && Enabled(s, Drop(n))
    ensures NoneForgotten(AfterDrop(s, n))
  {
    if s.requests[n].Live() {
      Alone(s, n);
    }
    hide IdsApart;
  }

  lemma DropEnds(s: Mux, n: nat)
    requires CloseFits(s) && Enabled(s, Drop(n))
    ensures CloseFits(AfterDrop(s, n))
  {
  }

  lemma DropApart(s: Mux, n: nat)
    requires IdsApart(s) && RepliesFit(s) && Enabled(s, Drop(n))
    ensures IdsApart(AfterDrop(s, n)) && RepliesFit(AfterDrop(s, n))
  {
    hide IdsApart;
    hide RepliesFit;
    IdsStayApart(s, AfterDrop(s, n));
    RepliesStayFit(s, AfterDrop(s, n));
  }

  lemma DropKeeps(s: Mux, n: nat)
    requires Inv(s) && Enabled(s, Drop(n))
    ensures Inv(AfterDrop(s, n))
  {
    DropWaiters(s, n);
    DropHand(s, n);
    DropForgets(s, n);
    DropEnds(s, n);
    DropApart(s, n);
    hide WaitersFit;
    hide HandFits;
    hide NoneForgotten;
    hide CloseFits;
    hide IdsApart;
    hide RepliesFit;
  }

  lemma {:induction false} RunKeeps(s: Mux, events: seq<Event>)
    requires Inv(s)
    ensures Inv(Run(s, events))
    ensures s.closed.Some? ==> Run(s, events).closed == s.closed
    decreases |events|
  {
    hide Inv;
    if events != [] {
      var e := events[0];
      if Enabled(s, e) {
        NextKeeps(s, e);
        RunKeeps(Next(s, e), events[1..]);
      } else {
        RunKeeps(s, events[1..]);
      }
    }
  }

  lemma NextKeeps(s: Mux, e: Event)
    requires Inv(s) && Enabled(s, e)
    ensures Inv(Next(s, e))
    ensures s.closed.Some? ==> Next(s, e).closed == s.closed
  {
    match e
    case Make => MakeKeeps(s);
    case Register(n) => RegisterKeeps(s, n);
    case Enqueue(n) => EnqueueKeeps(s, n);
    case Receive(reply) => ReceiveKeeps(s, reply);
    case SendOn => SendOnKeeps(s);
    case SetReason(reason) => SetReasonKeeps(s, reason);
    case Sweep => SweepKeeps(s);
    case WriterEnds => WriterEndsKeeps(s);
    case Poll(n) => PollKeeps(s, n);
    case Drop(n) => DropKeeps(s, n);
  }

  lemma WriterEndsKeeps(s: Mux)
    requires Inv(s) && s.closed.Some?
    ensures Inv(s.(writerGone := true))
  {
    var t := s.(writerGone := true);
    IdsStayApart(s, t);
    hide IdsApart;
    RepliesStayFit(s, t);
    hide RepliesFit;
  }

  // ---- What it means for a request ------------------------------------------------------

  /** In every interleaving, a request is answered only with a reply carrying its
      id (the one meant for it, if the server keeps to what it was asked), and no
      request is sent two. */
  lemma EachGetsItsOwnReply(events: seq<Event>, n: nat)
    requires n < |Run(Started, events).requests|
    ensures var s := Run(Started, events);
      var stage := s.requests[n].stage;
      && (stage.Answered? ==> stage.reply.id == s.requests[n].id && (s.honest ==> stage.reply.origin == n))
      && (forall i, j :: 0 <= i < j < |s.deliveries| ==> s.deliveries[i].to != s.deliveries[j].to)
  {
    RunKeeps(Started, events);
    var s := Run(Started, events);
    var stage := s.requests[n].stage;
    if stage.Answered? {
      assert Hold(n, stage.reply) in s.deliveries;
    }
  }

  /** Once a close has been through, no waiter is left, whatever comes after: a
      request is refused, or what it waited for has come or is about to, or it is
      lost; whoever is lost, then or later, is told the first reason; and polling tells
      everyone but the one whose reply the reader has in hand. */
  lemma NoneOutlivesTheClose(before: seq<Event>, after: seq<Event>, n: nat)
    requires Run(Started, before).swept
    ensures var first := Run(Started, before).closed;
      var s := Run(Run(Started, before), after);
      && first.Some? && s.closed == first
      && s.waiters == map[]
      && (forall m :: 0 <= m < |s.requests| ==>
            && (s.requests[m].stage.Lost? ==> Some(s.requests[m].stage.reason) == first)
            && (s.requests[m].stage.Waiting? ==> s.hand.Some? && s.hand.value.to == m))
      && (Enabled(s, Poll(n)) && (s.hand.None? || s.hand.value.to != n) ==>
            Resolved(Run(Run(Started, before), after + [Poll(n)]), n, first.value))
  {
    RunKeeps(Started, before);
    var middle := Run(Started, before);
    RunKeeps(middle, after);
    StaysSwept(middle, after);
    var s := Run(middle, after);
    if Enabled(s, Poll(n)) && (s.hand.None? || s.hand.value.to != n) {
      RunThen(middle, after, Poll(n));
      assert CloseFits(s) && NoneForgotten(s);
      hide Inv;
      hide Run;
      PollResolves(s, n);
    }
  }

  /** A request has its answer, or has been told why there is none, or nobody waits. */
  predicate Resolved(s: Mux, n: nat, reason: string) {
    && n < |s.requests|
    && var stage := s.requests[n].stage; stage.Answered? || stage.Dropped? || stage == Lost(reason)
  }

  /** A poll tells whatever there is to tell: the reply that came, or why none will. */
  lemma PollResolves(s: Mux, n: nat)
    requires CloseFits(s) && Enabled(s, Poll(n))
    ensures var was, stage := s.requests[n].stage, AfterPoll(s, n).requests[n].stage;
      && (was.Delivered? ==> stage == Answered(was.reply))
      && (was.Orphaned? || was.Refused? ==> s.closed.Some? && stage == Lost(s.closed.value))
      && (stage.Waiting? ==> was.Waiting?)
      && (!was.Waiting? && s.closed.Some? ==> Resolved(AfterPoll(s, n), n, s.closed.value))
  {
  }

  lemma {:induction false} RunThen(s: Mux, events: seq<Event>, e: Event)
    requires Enabled(Run(s, events), e)
    ensures Run(s, events + [e]) == Next(Run(s, events), e)
    decreases |events|
  {
    if events == [] {
      assert [] + [e] == [e] && [e][1..] == [];
    } else {
      assert (events + [e])[1..] == events[1..] + [e];
      RunThen(if Enabled(s, events[0]) then Next(s, events[0]) else s, events[1..], e);
    }
    hide Next;
    hide Enabled;
  }

  lemma {:induction false} StaysSwept(s: Mux, events: seq<Event>)
    requires s.swept
    ensures Run(s, events).swept
    decreases |events|
  {
    if events != [] {
      StaysSwept(if Enabled(s, events[0]) then Next(s, events[0]) else s, events[1..]);
    }
  }

  /** A `send` comes back: with the request refused by a closed session, or registered and
      then queued; or taken back, where the writer has gone meanwhile, and not left waiting. */
  lemma SendComesBack(s: Mux, n: nat)
    requires CloseFits(s) && NoneForgotten(s)
    ensures Enabled(s, Register(n)) ==>
      var t := AfterRegister(s, n);
      if s.closed.Some? then t.requests[n].returned && t.requests[n].stage.Refused?
      else t.requests[n].stage.Waiting? && Enabled(t, Enqueue(n))
    ensures Enabled(s, Enqueue(n)) ==>
      var t := AfterEnqueue(s, n);
      && t.requests[n].returned
      && (!s.writerGone ==> t.requests[n].stage == s.requests[n].stage && n in t.owed)
      && (s.writerGone && (s.hand.None? || s.hand.value.to != n) ==> !t.requests[n].stage.Waiting?)
  {
  }

  ghost predicate IdsInOrder(s: Mux) {
    forall n :: 0 <= n < |s.requests| ==> s.requests[n].id == (1 + n) % IDS
  }

  lemma {:induction false} IdsStayInOrder(s: Mux, events: seq<Event>)
    requires IdsInOrder(s)
    ensures IdsInOrder(Run(s, events))
    decreases |events|
  {
    if events != [] {
      if Enabled(s, events[0]) {
        NextInOrder(s, events[0]);
      }
      hide Next;
      hide Enabled;
      hide IdsInOrder;
      IdsStayInOrder(if Enabled(s, events[0]) then Next(s, events[0]) else s, events[1..]);
    }
  }

  lemma NextInOrder(s: Mux, e: Event)
    requires IdsInOrder(s) && Enabled(s, e)
    ensures IdsInOrder(Next(s, e))
  {
  }

  /** Ids only come round again after 2^32 requests: until then every `send` gets a new one. */
  lemma FreshIds(events: seq<Event>)
    requires |Run(Started, events).requests| < 0x1_0000_0000
    ensures Enabled(Run(Started, events), Make)
  {
    IdsStayInOrder(Started, events);
    hide Run;
  }

  /** And replies do arrive: the reply to a waiting request, read, sent on and polled,
      is its answer. */
  lemma ReplyArrives(s: Mux, n: nat, reply: Reply)
    requires Inv(s) && s.hand.None?
    requires n < |s.requests| && s.requests[n].stage.Waiting? && reply.id == s.requests[n].id
    ensures var taken := AfterReceive(s, reply);
      && taken.hand == Some(Hold(n, reply)) && taken.requests == s.requests
      && var sent := AfterSendOn(taken);
         && n < |sent.requests| && AfterPoll(sent, n).requests[n].stage == Answered(reply)
  {
    assert NoneForgotten(s);
    hide Inv;
    hide NoneForgotten;
  }

  lemma RunOne(s: Mux, e: Event, more: seq<Event>)
    requires Enabled(s, e)
    ensures Run(s, [e] + more) == Run(Next(s, e), more)
  {
    assert ([e] + more)[1..] == more;
    hide Next;
    hide Enabled;
  }

  lemma SendMade(s: Mux)
    requires Enabled(s, Make) && s.closed.None? && !s.writerGone
    ensures var n := |s.requests|;
      var made := Next(s, Make);
      && Enabled(made, Register(n)) && Enabled(Next(made, Register(n)), Enqueue(n))
      && var sent := Next(Next(made, Register(n)), Enqueue(n));
         && sent.hand == s.hand
         && n < |sent.requests| && sent.requests[n] == Request(NextId(s), Waiting, true)
         && NextId(s) in sent.waiters && sent.waiters[NextId(s)] == n
  {
  }

  lemma ReplyTaken(s: Mux, n: nat, reply: Reply)
    requires n < |s.requests| && s.requests[n] == Request(reply.id, Waiting, true) && s.hand.None?
    requires reply.id in s.waiters && s.waiters[reply.id] == n
    ensures Enabled(s, Receive(reply)) && Enabled(Next(s, Receive(reply)), SendOn)
    ensures var sent := Next(Next(s, Receive(reply)), SendOn);
      Enabled(sent, Poll(n)) && Next(sent, Poll(n)).requests[n].stage == Answered(reply)
  {
  }

  /** A request and its answer, whatever else is going on: sent, queued, replied to, read,
      sent on and polled. */
  lemma RoundTrip(s: Mux, origin: nat)
    requires Enabled(s, Make) && s.closed.None? && !s.writerGone && s.hand.None?
    ensures var n, reply := |s.requests|, Reply(NextId(s), origin);
      var done := Run(s, [Make] + ([Register(n)] + ([Enqueue(n)] + ([Receive(reply)] + ([SendOn]
                         + ([Poll(n)] + []))))));
      n < |done.requests| && done.requests[n].stage == Answered(reply)
  {
    var n, reply := |s.requests|, Reply(NextId(s), origin);
    SendMade(s);
    var a := Next(s, Make);
    var b := Next(a, Register(n));
    var c := Next(b, Enqueue(n));
    ReplyTaken(c, n, reply);
    var d := Next(c, Receive(reply));
    var e := Next(d, SendOn);
    hide Next;
    hide Enabled;
    RunOne(s, Make, [Register(n)] + ([Enqueue(n)] + ([Receive(reply)] + ([SendOn] + ([Poll(n)] + [])))));
    RunOne(a, Register(n), [Enqueue(n)] + ([Receive(reply)] + ([SendOn] + ([Poll(n)] + []))));
    RunOne(b, Enqueue(n), [Receive(reply)] + ([SendOn] + ([Poll(n)] + [])));
    RunOne(c, Receive(reply), [SendOn] + ([Poll(n)] + []));
    RunOne(d, SendOn, [Poll(n)] + []);
    RunOne(e, Poll(n), []);
  }

  // ---- The state the tasks share --------------------------------------------------------

  /** Whoever is registered under a request's id while it is in use is that request. */
  lemma OnlyMine(s: Mux, n: nat)
    requires Inv(s) && n < |s.requests| && s.requests[n].Live()
    ensures forall id :: id in s.waiters && s.waiters[id] != n ==> id != s.requests[n].id
    ensures s.requests[n].stage.Made? ==> s.requests[n].id !in s.waiters
    ensures forall id :: id in s.waiters && s.waiters[id] == n ==> id == s.requests[n].id
  {
    Alone(s, n);
    assert WaitersFit(s);
    hide IdsApart;
    hide RepliesFit;
    hide CloseFits;
  }

  /** `Shared`: each method is one critical section, and does to the waiters and
      the reason just what the step of that name does. */
  class Shared {
    var waiters: map<nat, nat>
    var closed: Option<string>

    /** The shared part of a state that keeps the invariant. */
    ghost predicate Agrees(s: Mux)
      reads this
    {
      waiters == s.waiters && closed == s.closed && Inv(s)
    }

    /** One registration has gone, every other is as it was. */
    twostate predicate Only(n: nat)
      reads this
    {
      && (forall id :: id in waiters ==> id in old(waiters) && waiters[id] == old(waiters)[id] && waiters[id] != n)
      && (forall id :: id in old(waiters) && old(waiters)[id] != n ==> id in waiters)
    }

    constructor ()
      ensures Agrees(Started)
    {
      waiters, closed := map[], None;
    }

    /** The check and the registration in `send`. Nobody else's is written over. */
    method Register(ghost s: Mux, n: nat, id: nat) returns (registered: bool)
      requires Agrees(s) && Enabled(s, Event.Register(n)) && s.requests[n].id == id
      modifies this
      ensures Agrees(AfterRegister(s, n)) && registered == s.closed.None? && closed == old(closed)
      ensures registered ==> id in waiters && waiters[id] == n
      ensures forall other :: other in old(waiters) ==> other in waiters && waiters[other] == old(waiters)[other]
    {
      RegisterKeeps(s, n);
      OnlyMine(s, n);
      hide Inv;
      if closed.Some? {
        return false;
      }
      waiters := waiters[id := n];
      return true;
    }

    /** `send` when the packet could not be queued. */
    method TakeBack(ghost s: Mux, n: nat, id: nat)
      requires Agrees(s) && Enabled(s, Enqueue(n)) && s.requests[n].id == id && s.writerGone
      modifies this`waiters
      ensures Agrees(AfterEnqueue(s, n)) && Only(n)
    {
      EnqueueKeeps(s, n);
      OnlyMine(s, n);
      hide Inv;
      waiters := waiters - {id};
    }

    /** The reader matching a reply with its waiter. */
    method Take(ghost s: Mux, reply: Reply) returns (waiter: Option<nat>)
      requires Agrees(s) && s.hand.None?
      modifies this`waiters
      ensures Agrees(AfterReceive(s, reply))
      ensures AfterReceive(s, reply).hand == if waiter.Some? then Some(Hold(waiter.value, reply)) else None
      ensures waiter.Some? ==> waiter.value < |s.requests| && s.requests[waiter.value].id == reply.id
      ensures waiter.None? ==> forall n :: 0 <= n < |s.requests| && s.requests[n].id == reply.id ==>
                                             !s.requests[n].stage.Waiting?
    {
      ReceiveKeeps(s, reply);
      assert WaitersFit(s) && NoneForgotten(s);
      hide Inv;
      if reply.id in waiters {
        waiter := Some(waiters[reply.id]);
        waiters := waiters - {reply.id};
      } else {
        waiter := None;
      }
    }

    /** The first half of `close`: the first reason stays, and is what everyone lost
        before or after is told. */
    method SetReason(ghost s: Mux, reason: string)
      requires Agrees(s)
      modifies this`closed
      ensures Agrees(AfterSetReason(s, reason))
      ensures closed == Some(if old(closed).Some? then old(closed).value else reason)
      ensures forall n :: 0 <= n < |s.requests| && s.requests[n].stage.Lost? ==>
                            closed == Some(s.requests[n].stage.reason)
    {
      SetReasonKeeps(s, reason);
      assert CloseFits(s);
      hide Inv;
      if closed.None? {
        closed := Some(reason);
      }
    }

    /** The second half of `close`: nobody is left waiting but for a reply that the
        reader has in its hand. */
    method Sweep(ghost s: Mux)
      requires Agrees(s) && s.closing > 0
      modifies this`waiters
      ensures Agrees(AfterSweep(s)) && waiters == map[]
      ensures var t := AfterSweep(s);
        forall n :: 0 <= n < |t.requests| && t.requests[n].stage.Waiting? ==> t.hand.Some? && t.hand.value.to == n
    {
      SweepKeeps(s);
      assert NoneForgotten(AfterSweep(s));
      hide Inv;
      waiters := map[];
    }

    /** Dropping a `Pending` whose reply was not taken. */
    method Forget(ghost s: Mux, n: nat, id: nat)
      requires Agrees(s) && Enabled(s, Event.Drop(n)) && s.requests[n].id == id && s.requests[n].Live()
      modifies this`waiters
      ensures Agrees(AfterDrop(s, n)) && Only(n)
    {
      DropKeeps(s, n);
      OnlyMine(s, n);
      hide Inv;
      waiters := waiters - {id};
    }
  }
}
