/** What the UDP server does with datagrams and errors, told from the calls made
    and the completions at the head of the queue rather than from its handlers. */
module UdpServerLaws {
  import opened Session
  import opened UdpServer

  // ---------------------------------------------- datagrams and the counters

  /** A start handler that succeeds. */
  predicate Begins(s: State, step: Step) {
    && step.Handle? && s.env.frames == [] && s.env.queue != [] && s.env.queue[0].OpenEntry?
    && !s.started && !s.socketOpen && step.result.Bound?
  }

  /** The completion of an operation without error gets its turn while started. */
  predicate Completes(s: State, step: Step, op: Op) {
    && step.Handle? && s.env.frames == [] && s.env.queue != [] && s.started
    && s.env.queue[0].DoneEntry? && s.env.queue[0].op == op && s.env.queue[0].ec == NoError
  }

  /** A synchronous call with something to send, or room to receive. */
  predicate Serves(s: State, p: Payload) { s.started && p.Bytes? && p.data != [] }

  /** The size of the datagram that the step brings in. */
  function Incoming(s: State, step: Step): seq<nat> {
    if Completes(s, step, ReceiveOp) then [s.env.queue[0].size]
    else if step.CallReceive? && Serves(s, step.payload) then [step.received]
    else []
  }

  /** The size of the datagram that the step reports as sent. */
  function Outgoing(s: State, step: Step): seq<nat> {
    if Completes(s, step, SendOp) && s.env.queue[0].size > 0 then [s.env.queue[0].size]
    else if step.CallSend? && Serves(s, step.payload) && step.sent > 0 then [step.sent]
    else []
  }

  predicate SendsByCall(s: State, step: Step) {
    step.CallSend? && Serves(s, step.payload) && step.sent > 0
  }

  /** The same over a run, since the last start. */
  function AllIncoming(steps: seq<Step>): seq<nat> {
    if steps == [] then [] else
      var n := |steps| - 1;
      var u := Run(Fresh, steps[..n]);
      if Begins(u, steps[n]) then [] else AllIncoming(steps[..n]) + Incoming(u, steps[n])
  }

  function AllOutgoing(steps: seq<Step>): seq<nat> {
    if steps == [] then [] else
      var n := |steps| - 1;
      var u := Run(Fresh, steps[..n]);
      if Begins(u, steps[n]) then [] else AllOutgoing(steps[..n]) + Outgoing(u, steps[n])
  }

  function CallsOut(steps: seq<Step>): nat {
    if steps == [] then 0 else
      var n := |steps| - 1;
      var u := Run(Fresh, steps[..n]);
      if Begins(u, steps[n]) then 0 else CallsOut(steps[..n]) + if SendsByCall(u, steps[n]) then 1 else 0
  }

  /** From s to t these sizes are reported and counted, and `calls` datagrams
      counted as sent. */
  ghost predicate Counts(s: State, t: State, ins: seq<nat>, outs: seq<nat>, calls: nat) {
    && ReceivedSince(t.env.trace) == ReceivedSince(s.env.trace) + ins
    && SentSince(t.env.trace) == SentSince(s.env.trace) + outs
    && t.bytesReceived == (s.bytesReceived + Total(ins)) % WORD
    && t.datagramsReceived == (s.datagramsReceived + |ins|) % WORD
    && t.bytesSent == (s.bytesSent + Total(outs)) % WORD
    && t.datagramsSent == (s.datagramsSent + calls) % WORD
  }

  predicate Words(s: State) {
    s.bytesReceived < WORD && s.datagramsReceived < WORD && s.bytesSent < WORD && s.datagramsSent < WORD
  }

  /** Counters and trace as they were, but for events that carry no datagram. */
  ghost predicate Quiet(s: State, t: State) {
    && t.bytesReceived == s.bytesReceived && t.datagramsReceived == s.datagramsReceived
    && t.bytesSent == s.bytesSent && t.datagramsSent == s.datagramsSent
    && (t.env.trace == s.env.trace || exists e :: CarriesNothing(e) && t.env.trace == s.env.trace + [e])
  }

  predicate CarriesNothing(e: Event) {
    e.Closed? || e.Failed? || e == Received(0, FromError) || e == Sent(0, FromError)
  }

  lemma QuietCounts(s: State, t: State)
    requires Words(s) && Quiet(s, t)
    ensures Counts(s, t, [], [], 0)
  {
    hide ReceivedSince, SentSince, Total;
    NothingAdded(s.bytesReceived);
    NothingAdded(s.datagramsReceived);
    NothingAdded(s.bytesSent);
    NothingAdded(s.datagramsSent);
    var r, w := ReceivedSince(s.env.trace), SentSince(s.env.trace);
    assert r + [] == r && w + [] == w;
    if t.env.trace != s.env.trace {
      var e :| CarriesNothing(e) && t.env.trace == s.env.trace + [e];
      SinceSnoc(s.env.trace, e);
    }
  }

  lemma QuietStep(s: State, t: State, e: Event)
    requires CarriesNothing(e) && t.env.trace == s.env.trace + [e]
    requires t.bytesReceived == s.bytesReceived && t.datagramsReceived == s.datagramsReceived
    requires t.bytesSent == s.bytesSent && t.datagramsSent == s.datagramsSent
    ensures Quiet(s, t)
  {}

  lemma ReceivedCounts(s: State, size: nat, origin: Origin, rest: Frame)
    requires Words(s) && origin != FromError
    ensures Counts(s, CountReceived(s, size, origin, rest), [size], [], 0)
  {
    SinceSnoc(s.env.trace, Received(size, origin));
    TotalOne(size);
  }

  lemma SentCounts(s: State, size: nat, origin: Origin, rest: Frame)
    requires Words(s) && origin != FromError
    ensures Counts(s, CountSent(s, size, origin, rest), [], [size], if origin == FromCall then 1 else 0)
  {
    SinceSnoc(s.env.trace, Sent(size, origin));
    TotalOne(size);
  }

  lemma ReportQuiet(s: State, ec: ErrorCode, rest: Frame)
    ensures Quiet(s, Report(s, ec, rest))
  {
    if ec.Reported() { QuietStep(s, Report(s, ec, rest), Failed(ec)); }
  }

  lemma ReportThenQuiet(s: State, ec: ErrorCode, rest: Frame)
    requires rest.ReceivedNothingFrame? || rest.SentNothingFrame?
    ensures Quiet(s, ReportThen(s, ec, rest))
  {
    var t := ReportThen(s, ec, rest);
    if ec.Reported() {
      ReportQuiet(s, ec, rest);
    } else if rest.ReceivedNothingFrame? {
      QuietStep(s, t, Received(0, FromError));
    } else {
      QuietStep(s, t, Sent(0, FromError));
    }
  }

  lemma DoneCounts(s: State, op: Op, ec: ErrorCode, size: nat)
    requires Words(s)
    ensures var t := if op == ReceiveOp then ReceiveHandler(s, ec, size) else SendHandler(s, ec, size);
            Counts(s, t, if s.started && ec == NoError && op == ReceiveOp then [size] else [],
                   if s.started && ec == NoError && op == SendOp && size > 0 then [size] else [], 0)
  {
    hide CountReceived, CountSent, ReportThen, Counts;
    var r, w := s.(receiving := false), s.(sending := false);
    if !s.started {
      QuietCounts(s, r);
      QuietCounts(s, w);
    } else if ec != NoError {
      ReportThenQuiet(r, ec, ReceivedNothingFrame);
      ReportThenQuiet(w, ec, SentNothingFrame);
      QuietFrom(s, r, ReportThen(r, ec, ReceivedNothingFrame));
      QuietFrom(s, w, ReportThen(w, ec, SentNothingFrame));
      QuietCounts(s, ReportThen(r, ec, ReceivedNothingFrame));
      QuietCounts(s, ReportThen(w, ec, SentNothingFrame));
    } else if op == ReceiveOp {
      ReceivedCounts(r, size, FromCompletion, GrowFrame(size));
      CountsFrom(s, r, ReceiveHandler(s, ec, size), [size], [], 0);
    } else if size > 0 {
      var v := w.(bytesSending := 0, sendBuffer := []);
      SentCounts(v, size, FromCompletion, QuietFrame);
      CountsFrom(s, v, SendHandler(s, ec, size), [], [size], 0);
    } else {
      QuietCounts(s, w);
    }
  }

  /** States with the same trace and counters. */
  predicate Alike(s: State, r: State) {
    && r.env.trace == s.env.trace && r.bytesReceived == s.bytesReceived && r.bytesSent == s.bytesSent
    && r.datagramsReceived == s.datagramsReceived && r.datagramsSent == s.datagramsSent
  }

  lemma QuietFrom(s: State, r: State, t: State)
    requires Alike(s, r) && Quiet(r, t)
    ensures Quiet(s, t)
  {}

  lemma CountsFrom(s: State, r: State, t: State, ins: seq<nat>, outs: seq<nat>, calls: nat)
    requires Alike(s, r) && Counts(r, t, ins, outs, calls)
    ensures Counts(s, t, ins, outs, calls)
  {}

  lemma CloseCounts(s: State)
    requires Words(s)
    ensures Counts(s, StopHandler(s), [], [], 0)
  {
    if s.started { QuietStep(s, StopHandler(s), Closed); }
    QuietCounts(s, StopHandler(s));
  }

  lemma OpenCounts(s: State, result: OpenResult)
    requires Words(s) && (s.started || s.socketOpen || !result.Bound?)
    ensures Counts(s, StartHandler(s, result), [], [], 0)
  {
    QuietCounts(s, StartHandler(s, result));
  }

  lemma HeadCounts(s: State, step: Step)
    requires Words(s) && Handles(s, step) && !Begins(s, step)
    ensures Counts(s, Next(s, step), Incoming(s, step), Outgoing(s, step), 0)
  {
    hide StartHandler, StopHandler, ReceiveHandler, SendHandler, Counts;
    var e, t := s.env.queue[0], s.(env := s.env.Pop());
    match e {
      case OpenEntry => OpenCounts(t, step.result);
      case CloseEntry(_) => CloseCounts(t);
      case DoneEntry(op, _, ec, size) => DoneCounts(t, op, ec, size);
    }
    CountsFrom(s, t, Next(s, step), Incoming(s, step), Outgoing(s, step), 0);
  }

  lemma FrameCounts(s: State)
    requires Words(s) && s.env.frames != []
    ensures Counts(s, RunFrame(s), [], [], 0)
  {
    hide Report, ReportThen, Counts;
    var t := s.(env := s.env.(frames := s.env.frames[1..]));
    match s.env.frames[0] {
      case QuietFrame =>
      case ReportFrame(ec) => ReportQuiet(t, ec, QuietFrame);
      case ReceivedNothingFrame => QuietStep(t, RunFrame(s), Received(0, FromError));
      case SentNothingFrame => QuietStep(t, RunFrame(s), Sent(0, FromError));
      case GrowFrame(_) => ReportThenQuiet(t, NoBufferSpace, ReceivedNothingFrame);
    }
    QuietFrom(s, t, RunFrame(s));
    QuietCounts(s, RunFrame(s));
  }

  lemma CallCounts(s: State, step: Step)
    requires Words(s) && (step.CallSend? || step.CallReceive? || step.CallSendAsync?)
    ensures Counts(s, Next(s, step), Incoming(s, step), Outgoing(s, step), if SendsByCall(s, step) then 1 else 0)
  {
    hide CountReceived, CountSent, Report, Counts;
    if step.CallReceive? && Serves(s, step.payload) {
      ReceivedCounts(s, step.received, FromCall, ErrorFrame(step.ec));
    } else if SendsByCall(s, step) {
      SentCounts(s, step.sent, FromCall, ErrorFrame(step.ec));
    } else {
      if step.CallSend? { ReportQuiet(s, step.ec, QuietFrame); }
      if step.CallSendAsync? && Next(s, step).env.trace != s.env.trace {
        QuietStep(s, Next(s, step), Failed(NoBufferSpace));
      }
      QuietCounts(s, Next(s, step));
    }
  }

  lemma StepCounts(s: State, step: Step)
    requires Words(s) && !Begins(s, step)
    ensures Counts(s, Next(s, step), Incoming(s, step), Outgoing(s, step), if SendsByCall(s, step) then 1 else 0)
  {
    hide Counts, RunFrame, RunHead, SendCall, SendAsyncCall, ReceiveCall;
    match step
    case Handle(_) => if Handles(s, step) { HeadCounts(s, step); } else { QuietCounts(s, Next(s, step)); }
    case Return => if s.env.frames != [] { FrameCounts(s); } else { QuietCounts(s, Next(s, step)); }
    case CallSend(_, _, _) => CallCounts(s, step);
    case CallReceive(_, _, _) => CallCounts(s, step);
    case CallSendAsync(_) => CallCounts(s, step);
    case CallStart => QuietCounts(s, Next(s, step));
    case CallStop => QuietCounts(s, Next(s, step));
    case CallReceiveAsync => QuietCounts(s, Next(s, step));
    case SetLimits(_, _) => QuietCounts(s, Next(s, step));
    case Complete(_, _, _) => QuietCounts(s, Next(s, step));
  }

  /** What a successful start leaves. */
  lemma BeginsFresh(s: State, step: Step)
    requires Begins(s, step)
    ensures var t := Next(s, step);
            && t.started && t.socketOpen && t.receiveBufferSize == step.result.bufferSize
            && t.env.trace == s.env.trace + [Opened] && t.env.queue == s.env.queue[1..]
            && t.bytesReceived == t.datagramsReceived == t.bytesSent == t.datagramsSent == t.bytesSending == 0
  {}

  /** A start handler that cannot open the socket changes nothing; one that opens
      but cannot bind it leaves it open, and no later run starts the server. */
  lemma FailedStart(s: State, steps: seq<Step>)
    requires s.env.frames == [] && s.env.queue != [] && s.env.queue[0].OpenEntry? && !s.started && !s.socketOpen
    ensures Next(s, Handle(NotOpened)) == s.(env := s.env.Pop())
    ensures Next(s, Handle(NotBound)) == s.(socketOpen := true, env := s.env.Pop())
    ensures !Run(Next(s, Handle(NotBound)), steps).started
  {
    FailedBindIsFinal(Next(s, Handle(NotBound)), steps);
  }

  /** A start handler that finds the server started does nothing. */
  lemma LateStart(s: State, result: OpenResult)
    requires s.env.frames == [] && s.env.queue != [] && s.env.queue[0].OpenEntry? && s.started
    ensures Next(s, Handle(result)) == s.(env := s.env.Pop())
  {}

  lemma {:induction false} RunSnoc(s: State, steps: seq<Step>, step: Step)
    ensures Run(s, steps + [step]) == Next(Run(s, steps), step)
    decreases |steps|
  {
    if steps == [] {
      assert Run(s, [step]) == Run(Next(s, step), [step][1..]);
    } else {
      assert (steps + [step])[1..] == steps[1..] + [step];
      RunSnoc(Next(s, steps[0]), steps[1..], step);
    }
  }

  /** The trace and the counters of a run, told by the lists. */
  ghost predicate Told(s: State, ins: seq<nat>, outs: seq<nat>, calls: nat) {
    && ReceivedSince(s.env.trace) == ins && SentSince(s.env.trace) == outs
    && s.bytesReceived == Total(ins) % WORD && s.datagramsReceived == |ins| % WORD
    && s.bytesSent == Total(outs) % WORD && s.datagramsSent == calls % WORD
  }

  lemma ToldMore(s: State, t: State, ins: seq<nat>, outs: seq<nat>, calls: nat, i: seq<nat>, o: seq<nat>, c: nat)
    requires Told(s, ins, outs, calls) && Counts(s, t, i, o, c)
    ensures Told(t, ins + i, outs + o, calls + c)
  {
    hide Total, ReceivedSince, SentSince;
    TotalConcat(ins, i);
    TotalConcat(outs, o);
    Carry(Total(ins), Total(i), s.bytesReceived, t.bytesReceived);
    Carry(Total(outs), Total(o), s.bytesSent, t.bytesSent);
    Carry(|ins|, |i|, s.datagramsReceived, t.datagramsReceived);
    Carry(calls, c, s.datagramsSent, t.datagramsSent);
  }

  /** In every run, since the last start: onReceived and onSent report, in order,
      exactly the sizes of the completions without error that had their turn
      while started and of the synchronous calls; the byte counters are their
      sums, and the datagram counters the number of those received and of those
      sent by a call. */
  lemma {:induction false} Deliveries(steps: seq<Step>)
    ensures Told(Run(Fresh, steps), AllIncoming(steps), AllOutgoing(steps), CallsOut(steps))
  {
    hide Told, Next, Incoming, Outgoing, Begins, SendsByCall;
    if steps == [] {
      ToldAtFirst();
    } else {
      var n := |steps| - 1;
      Deliveries(steps[..n]);
      RunSnoc(Fresh, steps[..n], steps[n]);
      assert steps[..n] + [steps[n]] == steps;
      DeliverStep(Run(Fresh, steps[..n]), steps[n],
                  AllIncoming(steps[..n]), AllOutgoing(steps[..n]), CallsOut(steps[..n]));
    }
  }

  lemma ToldAtFirst()
    ensures Told(Fresh, [], [], 0)
  {}

  lemma DeliverStep(s: State, step: Step, ins: seq<nat>, outs: seq<nat>, calls: nat)
    requires Told(s, ins, outs, calls)
    ensures if Begins(s, step) then Told(Next(s, step), [], [], 0)
            else Told(Next(s, step), ins + Incoming(s, step), outs + Outgoing(s, step),
                      calls + if SendsByCall(s, step) then 1 else 0)
  {
    hide Told, Counts, Next, Incoming, Outgoing, Begins, SendsByCall;
    if Begins(s, step) {
      BeginsTold(s, step);
    } else {
      ToldWords(s, ins, outs, calls);
      StepCounts(s, step);
      ToldMore(s, Next(s, step), ins, outs, calls,
               Incoming(s, step), Outgoing(s, step), if SendsByCall(s, step) then 1 else 0);
    }
  }

  lemma ToldWords(s: State, ins: seq<nat>, outs: seq<nat>, calls: nat)
    requires Told(s, ins, outs, calls)
    ensures Words(s)
  {}

  lemma BeginsTold(s: State, step: Step)
    requires Begins(s, step)
    ensures Told(Next(s, step), [], [], 0)
  {
    BeginsFresh(s, step);
    SinceSnoc(s.env.trace, Opened);
  }

  // ------------------------------------------------ handlers with their callbacks

  /** The handler at the head, and the returns of its callbacks. */
  function Turn(s: State, result: OpenResult): State {
    Next(Next(Next(Next(s, Handle(result)), Return), Return), Return)
  }

  function ErrorEvents(ec: ErrorCode): seq<Event> { if Dropped(ec) then [] else [Failed(ec)] }

  predicate DoneFirst(s: State, op: Op) {
    s.env.frames == [] && s.started && s.env.queue != [] && s.env.queue[0].DoneEntry? && s.env.queue[0].op == op
  }

  /** Nothing but the trace, the frames, the queue and the named flag changed. */
  predicate OnlyTold(s: State, t: State, flag: Op, events: seq<Event>)
    requires s.env.queue != []
  {
    && t.started && t.env.frames == [] && t.env.queue == s.env.queue[1..] && t.env.inflight == s.env.inflight
    && t.receiving == (s.receiving && flag != ReceiveOp) && t.sending == (s.sending && flag != SendOp)
    && t.env.trace == s.env.trace + events
  }

  lemma ReturnQuiet(s: State)
    requires s.env.frames == [QuietFrame]
    ensures Next(s, Return) == s.(env := s.env.(frames := []))
  {
    assert [QuietFrame][1..] == [];
  }

  lemma ReturnIdle(s: State)
    requires s.env.frames == []
    ensures Next(s, Return) == s
  {}

  /** From a state whose callback says it all. */
  lemma AfterQuiet(s: State)
    requires s.env.frames == [QuietFrame]
    ensures Next(Next(Next(s, Return), Return), Return) == s.(env := s.env.(frames := []))
  {
    hide Next;
    var t := s.(env := s.env.(frames := []));
    ReturnQuiet(s);
    ReturnIdle(t);
  }

  lemma AfterNothing(s: State)
    requires s.env.frames == [ReceivedNothingFrame] || s.env.frames == [SentNothingFrame]
    ensures var e := if s.env.frames[0].ReceivedNothingFrame? then Received(0, FromError) else Sent(0, FromError);
            Next(Next(Next(s, Return), Return), Return)
            == s.(env := s.env.(frames := [], trace := s.env.trace + [e]))
  {
    var e := if s.env.frames[0].ReceivedNothingFrame? then Received(0, FromError) else Sent(0, FromError);
    assert s.env.frames[1..] == [] && [QuietFrame] + [] == [QuietFrame];
    var t := Next(s, Return);
    assert t == s.(env := s.env.(frames := [QuietFrame], trace := s.env.trace + [e]));
    ReturnQuiet(t);
    ReturnIdle(Next(t, Return));
  }

  /** An operation that failed: the error, unless it is one of the five, and then
      a callback with size 0; the server goes on. */
  lemma ErrorIsReported(s: State, op: Op, result: OpenResult)
    requires DoneFirst(s, op) && s.env.queue[0].ec != NoError
    ensures var nothing := if op == ReceiveOp then Received(0, FromError) else Sent(0, FromError);
            OnlyTold(s, Turn(s, result), op, ErrorEvents(s.env.queue[0].ec) + [nothing])
    ensures var t := Turn(s, result);
            && t.receiveBufferSize == s.receiveBufferSize && t.sendBuffer == s.sendBuffer
            && t.bytesReceived == s.bytesReceived && t.bytesSent == s.bytesSent
  {
    var ec := s.env.queue[0].ec;
    var nothing := if op == ReceiveOp then Received(0, FromError) else Sent(0, FromError);
    var t := ErrorHandled(s, op, result);
    if Dropped(ec) {
      AfterQuiet(t);
    } else {
      AfterNothing(t);
      assert s.env.trace + [Failed(ec)] + [nothing] == s.env.trace + ([Failed(ec)] + [nothing]);
    }
  }

  /** Up to the first callback. */
  lemma ErrorHandled(s: State, op: Op, result: OpenResult) returns (t: State)
    requires DoneFirst(s, op) && s.env.queue[0].ec != NoError
    ensures t == Next(s, Handle(result))
    ensures var ec := s.env.queue[0].ec;
            var nothing := if op == ReceiveOp then Received(0, FromError) else Sent(0, FromError);
            && t.env.frames == [if Dropped(ec) then QuietFrame
                                else if op == ReceiveOp then ReceivedNothingFrame else SentNothingFrame]
            && t.env.trace == s.env.trace + [if Dropped(ec) then nothing else Failed(ec)]
            && t.env.queue == s.env.queue[1..] && t.env.inflight == s.env.inflight && t.started
            && t.receiving == (s.receiving && op != ReceiveOp) && t.sending == (s.sending && op != SendOp)
            && t.receiveBufferSize == s.receiveBufferSize && t.sendBuffer == s.sendBuffer
            && t.bytesReceived == s.bytesReceived && t.bytesSent == s.bytesSent
  {
    t := Next(s, Handle(result));
    var ec := s.env.queue[0].ec;
    assert ec.Reported() <==> !Dropped(ec);
  }

  /** A send that got through: buffer and bytes_pending are clear. */
  lemma SendIsReported(s: State, result: OpenResult)
    requires DoneFirst(s, SendOp) && s.env.queue[0].ec == NoError && s.env.queue[0].size > 0
    ensures OnlyTold(s, Turn(s, result), SendOp, [Sent(s.env.queue[0].size, FromCompletion)])
    ensures Turn(s, result).sendBuffer == [] && Turn(s, result).bytesSending == 0
  {
    var t := Next(s, Handle(result));
    assert t.env.frames == [QuietFrame];
    AfterQuiet(t);
  }

  /** A receive that fills the buffer doubles it, or if that passes the limit
      reports that and a receive of size 0; any other one leaves it alone. */
  lemma ReceiveIsReported(s: State, result: OpenResult)
    requires DoneFirst(s, ReceiveOp) && s.env.queue[0].ec == NoError
    ensures var n := s.env.queue[0].size;
            var full := n == s.receiveBufferSize;
            var tooMuch := full && 2 * n > s.receiveLimit > 0;
            && OnlyTold(s, Turn(s, result), ReceiveOp, [Received(n, FromCompletion)]
                        + if tooMuch then [Failed(NoBufferSpace), Received(0, FromError)] else [])
            && Turn(s, result).receiveBufferSize == if full && !tooMuch then 2 * n else s.receiveBufferSize
  {
    var n := s.env.queue[0].size;
    var t := Next(s, Handle(result));
    assert t.env.frames == [GrowFrame(n)] && t.env.trace == s.env.trace + [Received(n, FromCompletion)];
    var u := GrowReturns(t, n);
    if u.env.frames == [] {
      ReturnIdle(u);
      assert [Received(n, FromCompletion)] + [] == [Received(n, FromCompletion)];
    } else {
      AfterTooMuch(u);
      assert t.env.trace + [Failed(NoBufferSpace)] + [Received(0, FromError)]
          == s.env.trace + ([Received(n, FromCompletion)] + [Failed(NoBufferSpace), Received(0, FromError)]);
    }
  }

  lemma GrowReturns(t: State, n: nat) returns (u: State)
    requires t.env.frames == [GrowFrame(n)]
    ensures u == Next(t, Return)
    ensures var full := n == t.receiveBufferSize;
            var tooMuch := full && 2 * n > t.receiveLimit > 0;
            var told := t.env.(frames := [ReceivedNothingFrame], trace := t.env.trace + [Failed(NoBufferSpace)]);
            u == if tooMuch then t.(env := told)
                 else t.(env := t.env.(frames := []), receiveBufferSize := if full then 2 * n else t.receiveBufferSize)
  {
    assert t.env.frames[1..] == [] && [ReceivedNothingFrame] + [] == [ReceivedNothingFrame];
    u := Next(t, Return);
    assert NoBufferSpace.Reported();
  }

  lemma AfterTooMuch(u: State)
    requires u.env.frames == [ReceivedNothingFrame]
    ensures Next(Next(u, Return), Return)
            == u.(env := u.env.(frames := [], trace := u.env.trace + [Received(0, FromError)]))
  {
    assert u.env.frames[1..] == [] && [QuietFrame] + [] == [QuietFrame];
    var v := Next(u, Return);
    assert v == u.(env := u.env.(frames := [QuietFrame], trace := u.env.trace + [Received(0, FromError)]));
    ReturnQuiet(v);
  }

  // ------------------------------------------------------------------ the calls

  lemma PopQuiet(s: State)
    requires s.env.frames != [] && s.env.frames[0].QuietFrame?
    ensures Next(s, Return) == s.(env := s.env.(frames := s.env.frames[1..]))
  {}

  /** A synchronous call, inside a callback or not, reports what it did and, once
      that callback has returned, its error, unless it is one of the five. */
  lemma CallIsReported(s: State, step: Step)
    requires (step.CallSend? && step.sent > 0) || step.CallReceive?
    requires Serves(s, step.payload)
    ensures var e := if step.CallSend? then Sent(step.sent, FromCall) else Received(step.received, FromCall);
            var t := Next(Next(s, step), Return);
            if step.ec == NoError || Dropped(step.ec) then t.env == s.env.(trace := s.env.trace + [e])
            else Next(t, Return).env == s.env.(trace := s.env.trace + [e, Failed(step.ec)])
  {
    var e := if step.CallSend? then Sent(step.sent, FromCall) else Received(step.received, FromCall);
    var t, fs := Next(s, step), s.env.frames;
    assert t.env == s.env.(frames := [ErrorFrame(step.ec)] + fs, trace := s.env.trace + [e]);
    assert step.ec.Reported() <==> step.ec != NoError && !Dropped(step.ec);
    assert t.env.frames[1..] == fs;
    var u := Next(t, Return);
    if step.ec.Reported() {
      assert u.env == t.env.(frames := [QuietFrame] + fs, trace := t.env.trace + [Failed(step.ec)]);
      PopQuiet(u);
      assert u.env.frames[1..] == fs && t.env.trace + [Failed(step.ec)] == s.env.trace + [e, Failed(step.ec)];
    } else {
      assert u.env == t.env.(frames := fs);
    }
  }

  /** A synchronous send that sends nothing reports just its error. */
  lemma FailedCallIsReported(s: State, step: Step)
    requires step.CallSend? && step.sent == 0 && Serves(s, step.payload)
    ensures var t := Next(s, step);
            if step.ec == NoError || Dropped(step.ec) then t.env == s.env
            else Next(t, Return).env == s.env.(trace := s.env.trace + [Failed(step.ec)])
  {
    assert step.ec.Reported() <==> step.ec != NoError && !Dropped(step.ec);
    var t := Next(s, step);
    if step.ec.Reported() {
      assert t.env.frames == [QuietFrame] + s.env.frames && t.env.frames[1..] == s.env.frames;
      PopQuiet(t);
    }
  }

  /** An asynchronous send within the limit is in flight, with its bytes pending;
      one beyond it reports that and a send of size 0. */
  lemma SendIsStarted(s: State, data: seq<bv8>)
    requires s.started && !s.sending && data != []
    ensures var t := Next(s, CallSendAsync(Bytes(data)));
            if |data| > s.sendLimit > 0 then
              Next(Next(t, Return), Return)
              == s.(env := s.env.(trace := s.env.trace + [Failed(NoBufferSpace), Sent(0, FromError)]))
            else
              && t.sending && t.sendBuffer == data && t.bytesSending == |data|
              && t.env == s.env.(inflight := s.env.inflight + [Flight(SendOp, s.env.session)])
  {
    var t, fs := Next(s, CallSendAsync(Bytes(data))), s.env.frames;
    if |data| > s.sendLimit > 0 {
      assert t == s.(env := s.env.(frames := [SentNothingFrame] + fs, trace := s.env.trace + [Failed(NoBufferSpace)]));
      assert t.env.frames[1..] == fs;
      var u := Next(t, Return);
      assert u == s.(env := s.env.(frames := [QuietFrame] + fs, trace := t.env.trace + [Sent(0, FromError)]));
      PopQuiet(u);
      assert u.env.frames[1..] == fs;
      assert t.env.trace + [Sent(0, FromError)] == s.env.trace + [Failed(NoBufferSpace), Sent(0, FromError)];
    }
  }

  /** Limits hold from the moment they are set. */
  lemma LimitsApply(s: State, r: nat, w: nat, data: seq<bv8>, result: OpenResult)
    requires s.started && data != []
    ensures var t := Next(s, SetLimits(r, w));
            Next(t, CallSendAsync(Bytes(data))).sending <==> s.sending || |data| <= w || w == 0
    ensures DoneFirst(s, ReceiveOp) && s.env.queue[0].ec == NoError && s.env.queue[0].size == s.receiveBufferSize ==>
              Turn(Next(s, SetLimits(r, w)), result).receiveBufferSize
              == if 2 * s.receiveBufferSize > r > 0 then s.receiveBufferSize else 2 * s.receiveBufferSize
  {
    hide Turn;
    var t := Next(s, SetLimits(r, w));
    if DoneFirst(s, ReceiveOp) && s.env.queue[0].ec == NoError { ReceiveIsReported(t, result); }
  }

  /** An asynchronous receive is in flight. */
  lemma ReceiveIsStarted(s: State)
    requires s.started && !s.receiving
    ensures var t := Next(s, CallReceiveAsync);
            t == s.(receiving := true, env := s.env.(inflight := s.env.inflight + [Flight(ReceiveOp, s.env.session)]))
  {}

  /** An operation that completes leaves the socket and joins the queue. */
  lemma CompletionIsQueued(s: State, i: nat, ec: ErrorCode, size: nat)
    requires i < |s.env.inflight|
    ensures var f, t := s.env.inflight[i], Next(s, Complete(i, ec, size));
            t == s.(env := s.env.(queue := s.env.queue + [DoneEntry(f.op, f.session, ec, size)],
                                  inflight := s.env.inflight[..i] + s.env.inflight[i + 1..]))
  {}

  /** After Stop, the server has stopped once all that was queued has run. */
  lemma StopStops(s: State, steps: seq<Step>) returns (j: nat)
    requires s.started && Handled(Next(s, CallStop), steps) > |s.env.queue|
    ensures j <= |steps| && !Run(Next(s, CallStop), steps[..j]).started
  {
    j := StopTakesEffect(Next(s, CallStop), |s.env.queue|, steps);
  }

  /** After Start, it has started, if the socket can be opened and bound. */
  lemma StartStarts(s: State, steps: seq<Step>) returns (j: nat)
    requires !s.started && !s.socketOpen && Handled(Next(s, CallStart), steps) > |s.env.queue|
    requires forall k :: 0 <= k < |steps| && steps[k].Handle? ==> steps[k].result.Bound?
    ensures j <= |steps| && Run(Next(s, CallStart), steps[..j]).started
  {
    j := StartTakesEffect(Next(s, CallStart), |s.env.queue|, steps);
  }
}
