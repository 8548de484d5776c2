/** The UDP server: its calls, its posted handlers and its completion handlers,
    as steps over the fields of the object and the handler queue. A callback may
    make further calls before it returns, so a handler is cut at each callback
    and what is left of it, if anything, is kept as a frame. */
module UdpServer {
  import opened Session

  /** What is left to do after a callback returns. */
  datatype Frame =
    | ReportFrame(ec: ErrorCode)   // SendError(ec)
    | ReceivedNothingFrame         // onReceived(..., 0)
    | SentNothingFrame             // onSent(..., 0)
    | GrowFrame(size: nat)         // the receive buffer was filled by `size` bytes
    | QuietFrame                   // nothing

  datatype State = State(
    started: bool,
    receiving: bool,
    sending: bool,
    socketOpen: bool,
    sendBuffer: seq<bv8>,
    receiveBufferSize: nat,
    receiveLimit: nat,
    sendLimit: nat,
    bytesSending: nat,
    bytesSent: nat,
    bytesReceived: nat,
    datagramsSent: nat,
    datagramsReceived: nat,
    env: Env<Frame>)

  // ------------------------------------------------------------- the calls

  function StartCall(s: State): State {
    if s.started then s else s.(env := s.env.Post(OpenEntry))
  }

  function StopCall(s: State): State {
    if s.started then s.(env := s.env.Post(CloseEntry(s.env.session))) else s
  }

  function CountSent(s: State, sent: nat, origin: Origin, rest: Frame): State {
    s.(bytesSent := Add64(s.bytesSent, sent),
       datagramsSent := if origin == FromCall then Add64(s.datagramsSent, 1) else s.datagramsSent,
       env := s.env.Call(Sent(sent, origin), rest))
  }

  function CountReceived(s: State, size: nat, origin: Origin, rest: Frame): State {
    s.(bytesReceived := Add64(s.bytesReceived, size),
       datagramsReceived := Add64(s.datagramsReceived, 1),
       env := s.env.Call(Received(size, origin), rest))
  }

  /** SendError(ec), and what its caller does after onError, if it is called. */
  function Report(s: State, ec: ErrorCode, rest: Frame): State {
    if ec.Reported() then s.(env := s.env.Call(Failed(ec), rest)) else s
  }

  /** What a synchronous call does after its callback. */
  function ErrorFrame(ec: ErrorCode): Frame { if ec == NoError then QuietFrame else ReportFrame(ec) }

  /** The synchronous send; the socket accepts `sent` bytes and says `ec`. */
  function SendCall(s: State, p: Payload, sent: nat, ec: ErrorCode): State {
    if !s.started || p.Size() == 0 || p.NullPointer? then s
    else if sent > 0 then CountSent(s, sent, FromCall, ErrorFrame(ec))
    else Report(s, ec, QuietFrame)
  }

  function SendAsyncCall(s: State, p: Payload): State {
    if s.sending || !s.started || p.Size() == 0 || p.NullPointer? then s
    else if |p.data| > s.sendLimit > 0 then
      s.(env := s.env.Call(Failed(NoBufferSpace), SentNothingFrame))
    else
      s.(sendBuffer := p.data, bytesSending := |p.data|, sending := true, env := s.env.Launch(SendOp))
  }

  /** The synchronous receive into the caller's buffer. */
  function ReceiveCall(s: State, p: Payload, received: nat, ec: ErrorCode): State {
    if !s.started || p.Size() == 0 || p.NullPointer? then s
    else CountReceived(s, received, FromCall, ErrorFrame(ec))
  }

  function ReceiveAsyncCall(s: State): State {
    if s.receiving || !s.started then s
    else s.(receiving := true, env := s.env.Launch(ReceiveOp))
  }

  // ---------------------------------------------------------- the handlers

  function StartHandler(s: State, result: OpenResult): State {
    if s.started || s.socketOpen || result.NotOpened? then s
    else if result.NotBound? then s.(socketOpen := true)
    else
      s.(socketOpen := true, receiveBufferSize := result.bufferSize,
         bytesSending := 0, bytesSent := 0, bytesReceived := 0, datagramsSent := 0, datagramsReceived := 0,
         started := true, env := s.env.(session := s.env.session + 1).Call(Opened, QuietFrame))
  }

  function StopHandler(s: State): State {
    if !s.started then s else
      s.(socketOpen := false, started := false, receiving := false, sending := false,
         sendBuffer := [], bytesSending := 0, env := s.env.Cancel().Call(Closed, QuietFrame))
  }

  /** SendError(ec), then `rest` once onError, if it was called, returns. */
  function ReportThen(s: State, ec: ErrorCode, rest: Frame): State
    requires rest.ReceivedNothingFrame? || rest.SentNothingFrame?
  {
    var nothing := if rest.ReceivedNothingFrame? then Received(0, FromError) else Sent(0, FromError);
    if ec.Reported() then Report(s, ec, rest) else s.(env := s.env.Call(nothing, QuietFrame))
  }

  function ReceiveHandler(s0: State, ec: ErrorCode, size: nat): State {
    var s := s0.(receiving := false);
    if !s.started then s
    else if ec != NoError then ReportThen(s, ec, ReceivedNothingFrame)
    else CountReceived(s, size, FromCompletion, GrowFrame(size))
  }

  function SendHandler(s0: State, ec: ErrorCode, sent: nat): State {
    var s := s0.(sending := false);
    if !s.started then s
    else if ec != NoError then ReportThen(s, ec, SentNothingFrame)
    else if sent > 0 then CountSent(s.(bytesSending := 0, sendBuffer := []), sent, FromCompletion, QuietFrame)
    else s
  }

  /** The handler or completion at the head of the queue runs. */
  function RunHead(s: State, result: OpenResult): State
    requires s.env.queue != []
  {
    var t := s.(env := s.env.Pop());
    match s.env.queue[0]
    case OpenEntry => StartHandler(t, result)
    case CloseEntry(_) => StopHandler(t)
    case DoneEntry(op, _, ec, size) =>
      if op == ReceiveOp then ReceiveHandler(t, ec, size) else SendHandler(t, ec, size)
  }

  /** A callback returns and what was left after it runs. */
  function RunFrame(s: State): State
    requires s.env.frames != []
  {
    var t := s.(env := s.env.(frames := s.env.frames[1..]));
    match s.env.frames[0]
    case QuietFrame => t
    case ReportFrame(ec) => Report(t, ec, QuietFrame)
    case ReceivedNothingFrame => t.(env := t.env.Call(Received(0, FromError), QuietFrame))
    case SentNothingFrame => t.(env := t.env.Call(Sent(0, FromError), QuietFrame))
    case GrowFrame(size) =>
      if t.receiveBufferSize != size then t
      else if 2 * size > t.receiveLimit > 0 then ReportThen(t, NoBufferSpace, ReceivedNothingFrame)
      else t.(receiveBufferSize := 2 * size)
  }

  // ---------------------------------------------------------------- runs

  datatype Step =
    | CallStart
    | CallStop
    | CallSend(payload: Payload, sent: nat, ec: ErrorCode)
    | CallSendAsync(payload: Payload)
    | CallReceive(payload: Payload, received: nat, ec: ErrorCode)
    | CallReceiveAsync
    | SetLimits(receiveLimit: nat, sendLimit: nat)
    | Complete(index: nat, ec: ErrorCode, size: nat)
    | Handle(result: OpenResult)
    | Return

  /** Calls may come at any time, also from inside a callback; a new handler
      starts only when no other one is in a callback. */
  function Next(s: State, step: Step): State {
    match step
    case CallStart => StartCall(s)
    case CallStop => StopCall(s)
    case CallSend(p, sent, ec) => SendCall(s, p, sent, ec)
    case CallSendAsync(p) => SendAsyncCall(s, p)
    case CallReceive(p, received, ec) => ReceiveCall(s, p, received, ec)
    case CallReceiveAsync => ReceiveAsyncCall(s)
    case SetLimits(r, w) => s.(receiveLimit := r, sendLimit := w)
    case Complete(i, ec, size) =>
      if i < |s.env.inflight| then s.(env := s.env.Complete(i, ec, size)) else s
    case Handle(result) =>
      if s.env.frames == [] && s.env.queue != [] then RunHead(s, result) else s
    case Return => if s.env.frames != [] then RunFrame(s) else s
  }

  function Run(s: State, steps: seq<Step>): State
    decreases |steps|
  {
    if steps == [] then s else Run(Next(s, steps[0]), steps[1..])
  }

  const Fresh: State :=
    State(false, false, false, false, [], 0, 0, 0, 0, 0, 0, 0, 0, Env([], [], [], 0, []))

  function Tally(s: State): Counts {
    Counts(s.bytesReceived, s.bytesSent, s.datagramsReceived, s.datagramsSent)
  }

  predicate Invariant(s: State) {
    && Steady(s.env, s.started, s.receiving, s.sending)
    && Accounts(s.env.trace, s.started, Tally(s))
    && s.bytesSending == |s.sendBuffer|
    && (s.started ==> s.socketOpen)
    && (!s.started ==> AllQuiet(s.env.frames) && s.sendBuffer == [])
  }

  predicate AllQuiet(frames: seq<Frame>) { forall i :: 0 <= i < |frames| ==> frames[i].QuietFrame? }

  lemma CallKeeps(s: State, step: Step)
    requires Invariant(s)
    requires step.CallStart? || step.CallStop? || step.CallSendAsync? || step.CallReceiveAsync? || step.SetLimits?
    ensures Invariant(Next(s, step))
  {
    match step
    case CallStart =>
      if !s.started { PostOpenSteady(s.env); }
    case CallStop =>
      if s.started { PostCloseSteady(s.env, s.receiving, s.sending); }
    case CallSendAsync(p) =>
      if s.started && !s.sending {
        LaunchSteady(s.env, s.receiving, s.sending, SendOp);
        EmitQuiet(s.env.trace, Tally(s), Failed(NoBufferSpace));
      }
    case CallReceiveAsync =>
      if s.started && !s.receiving { LaunchSteady(s.env, s.receiving, s.sending, ReceiveOp); }
    case SetLimits(_, _) =>
  }

  lemma CountReceivedKeeps(s: State, size: nat, origin: Origin, rest: Frame)
    requires Invariant(s) && s.started && origin != FromError
    ensures Invariant(CountReceived(s, size, origin, rest))
  {
    CountsBelow(s);
    EmitInside(s.env.trace, Tally(s), Received(size, origin), Tally(CountReceived(s, size, origin, rest)));
  }

  lemma CountSentKeeps(s: State, sent: nat, origin: Origin, rest: Frame)
    requires Invariant(s) && s.started && origin != FromError
    ensures Invariant(CountSent(s, sent, origin, rest))
  {
    CountsBelow(s);
    EmitInside(s.env.trace, Tally(s), Sent(sent, origin), Tally(CountSent(s, sent, origin, rest)));
  }

  lemma CountsBelow(s: State)
    requires Invariant(s) && s.started
    ensures forall k: Counter :: Tally(s).Get(k) < WORD
  {
    forall k: Counter ensures Tally(s).Get(k) < WORD {
      assert Tally(s).Get(k) == Since(s.env.trace, k) % WORD;
    }
  }

  lemma CallbackKeeps(s: State, e: Event, rest: Frame)
    requires Invariant(s) && s.started
    requires e.Failed? || e == Received(0, FromError) || e == Sent(0, FromError)
    ensures Invariant(s.(env := s.env.Call(e, rest)))
  {
    EmitQuiet(s.env.trace, Tally(s), e);
  }

  lemma FramesKeep(s: State, frames: seq<Frame>)
    requires Invariant(s) && s.started
    ensures Invariant(s.(env := s.env.(frames := frames)))
  {}

  lemma SyncCallKeeps(s: State, step: Step)
    requires Invariant(s) && (step.CallSend? || step.CallReceive?)
    ensures Invariant(Next(s, step))
  {
    if s.started {
      if step.CallSend? {
        CountSentKeeps(s, step.sent, FromCall, ErrorFrame(step.ec));
        CallbackKeeps(s, Failed(step.ec), QuietFrame);
      } else {
        CountReceivedKeeps(s, step.received, FromCall, ErrorFrame(step.ec));
      }
    }
  }

  lemma ReportThenKeeps(s: State, ec: ErrorCode, rest: Frame)
    requires Invariant(s) && s.started && (rest.ReceivedNothingFrame? || rest.SentNothingFrame?)
    ensures Invariant(ReportThen(s, ec, rest))
  {
    CallbackKeeps(s, Failed(ec), rest);
    CallbackKeeps(s, Received(0, FromError), QuietFrame);
    CallbackKeeps(s, Sent(0, FromError), QuietFrame);
  }

  lemma OpenEntryKeeps(s: State, result: OpenResult)
    requires Invariant(s) && s.env.queue != [] && s.env.queue[0].OpenEntry? && s.env.frames == []
    ensures Invariant(RunHead(s, result))
  {
    if s.started {
      PopIdleSteady(s.env, s.started, s.receiving, s.sending);
    } else {
      OpenSteady(s.env);
      EmitOpened(s.env.trace, Tally(s));
    }
  }

  lemma CloseEntryKeeps(s: State, result: OpenResult)
    requires Invariant(s) && s.env.queue != [] && s.env.queue[0].CloseEntry? && s.env.frames == []
    ensures Invariant(RunHead(s, result))
  {
    if s.started {
      PopCloseSteady(s.env, s.receiving, s.sending);
      CloseSteady(s.env.Pop(), s.receiving, s.sending);
      EmitClosed(s.env.trace, Tally(s), Tally(s));
    } else {
      PopIdleSteady(s.env, s.started, s.receiving, s.sending);
    }
  }

  lemma DoneEntryKeeps(s: State, result: OpenResult)
    requires Invariant(s) && s.env.queue != [] && s.env.queue[0].DoneEntry? && s.env.frames == []
    ensures Invariant(RunHead(s, result))
  {
    var e := s.env.queue[0];
    PopDoneSteady(s.env, s.started, s.receiving, s.sending);
    if s.started {
      if e.op == ReceiveOp {
        var t := s.(env := s.env.Pop(), receiving := false);
        ReportThenKeeps(t, e.ec, ReceivedNothingFrame);
        CountReceivedKeeps(t, e.size, FromCompletion, GrowFrame(e.size));
      } else {
        var t := s.(env := s.env.Pop(), sending := false);
        ReportThenKeeps(t, e.ec, SentNothingFrame);
        CountSentKeeps(t.(bytesSending := 0, sendBuffer := []), e.size, FromCompletion, QuietFrame);
      }
    }
  }

  lemma ReturnKeeps(s: State)
    requires Invariant(s) && s.env.frames != []
    ensures Invariant(RunFrame(s))
  {
    var t := s.(env := s.env.(frames := s.env.frames[1..]));
    if s.started {
      FramesKeep(s, s.env.frames[1..]);
      match s.env.frames[0]
      case QuietFrame =>
      case ReportFrame(ec) => CallbackKeeps(t, Failed(ec), QuietFrame);
      case ReceivedNothingFrame => CallbackKeeps(t, Received(0, FromError), QuietFrame);
      case SentNothingFrame => CallbackKeeps(t, Sent(0, FromError), QuietFrame);
      case GrowFrame(_) => ReportThenKeeps(t, NoBufferSpace, ReceivedNothingFrame);
    }
  }

  lemma StepKeeps(s: State, step: Step)
    requires Invariant(s)
    ensures Invariant(Next(s, step))
  {
    match step
    case CallSend(_, _, _) => SyncCallKeeps(s, step);
    case CallReceive(_, _, _) => SyncCallKeeps(s, step);
    case Complete(i, ec, size) =>
      if i < |s.env.inflight| { CompleteSteady(s.env, s.started, s.receiving, s.sending, i, ec, size); }
    case Handle(result) =>
      if s.env.frames == [] && s.env.queue != [] {
        match s.env.queue[0]
        case OpenEntry => OpenEntryKeeps(s, result);
        case CloseEntry(_) => CloseEntryKeeps(s, result);
        case DoneEntry(_, _, _, _) => DoneEntryKeeps(s, result);
      }
    case Return =>
      if s.env.frames != [] { ReturnKeeps(s); }
    case CallStart => CallKeeps(s, step);
    case CallStop => CallKeeps(s, step);
    case CallSendAsync(_) => CallKeeps(s, step);
    case CallReceiveAsync => CallKeeps(s, step);
    case SetLimits(_, _) => CallKeeps(s, step);
  }

  lemma {:induction false} RunKeeps(s: State, steps: seq<Step>)
    requires Invariant(s)
    ensures Invariant(Run(s, steps))
    decreases |steps|
  {
    if steps != [] {
      StepKeeps(s, steps[0]);
      RunKeeps(Next(s, steps[0]), steps[1..]);
    }
  }

  // --------------------------------------------------------- main results

  /** In every run: while started, `_receiving` says whether one receive is
      pending and `_sending` whether one send is, never more than one. */
  lemma AtMostOneInFlight(steps: seq<Step>)
    ensures var s := Run(Fresh, steps);
            s.started ==>
              && Pending(s.env, ReceiveOp) == (if s.receiving then 1 else 0)
              && Pending(s.env, SendOp) == (if s.sending then 1 else 0)
    ensures var s := Run(Fresh, steps);
            !s.started ==> !s.receiving && !s.sending && s.env.inflight == []
  {
    RunKeeps(Fresh, steps);
  }

  /** In every run: whatever is queued or in flight belongs to the last session,
      also after it was stopped, and then every completion precedes every start
      handler in the queue. */
  lemma NoStaleCompletion(steps: seq<Step>)
    ensures var s := Run(Fresh, steps);
            AllCurrent(s.env.queue, s.env.session) && AllLaunchedIn(s.env.inflight, s.env.session)
    ensures var s := Run(Fresh, steps);
            !s.started ==>
              forall i, j | 0 <= i < |s.env.queue| && 0 <= j < |s.env.queue| ::
                s.env.queue[i].DoneEntry? && s.env.queue[j].OpenEntry? ==> i < j
  {
    RunKeeps(Fresh, steps);
  }

  /** In every run: what a stopped session left behind has no effect when its
      turn comes, it is just dropped. */
  lemma StaleIsDropped(steps: seq<Step>, result: OpenResult)
    ensures var s := Run(Fresh, steps);
            !s.started && s.env.frames == [] && s.env.queue != [] && !s.env.queue[0].OpenEntry? ==>
              Next(s, Handle(result)) == s.(env := s.env.Pop())
  {
    RunKeeps(Fresh, steps);
  }

  /** In every run: when a session begins, nothing of the one before is left. */
  lemma SessionsDoNotMix(steps: seq<Step>, step: Step)
    ensures var s, t := Run(Fresh, steps), Next(Run(Fresh, steps), step);
            t.env.session != s.env.session ==>
              && !s.started && t.started && t.env.session == s.env.session + 1
              && t.env.inflight == [] && forall i :: 0 <= i < |t.env.queue| ==> t.env.queue[i].OpenEntry?
  {
    RunKeeps(Fresh, steps);
    SessionBegins(Run(Fresh, steps), step);
  }

  lemma SessionBegins(s: State, step: Step)
    requires Invariant(s)
    ensures var t := Next(s, step);
            t.env.session == s.env.session
            || (step.Handle? && s.env.queue != [] && s.env.queue[0].OpenEntry? && !s.started && t.started
                && t.env.session == s.env.session + 1 && t.env.queue == s.env.queue[1..] && t.env.inflight == [])
  {
    match step
    case Handle(result) =>
      if s.env.frames == [] && s.env.queue != [] {
        var e, t := s.env.queue[0], s.(env := s.env.Pop());
        if e.DoneEntry? { SameSessionDone(t, e.op, e.ec, e.size); }
      }
    case Return =>
    case _ =>
  }

  lemma SameSessionDone(s: State, op: Op, ec: ErrorCode, size: nat)
    ensures var t := if op == ReceiveOp then ReceiveHandler(s, ec, size) else SendHandler(s, ec, size);
            t.env.session == s.env.session
  {}

  /** In every run: the callbacks form a prefix of
      (onStarted (onReceived | onSent | onError)* onStopped)*, the counters are
      the totals reported since the last onStarted (datagrams_sent only those of
      synchronous sends), and bytes_pending is the length of the send buffer. */
  lemma CallbacksAddUp(steps: seq<Step>)
    ensures var s := Run(Fresh, steps);
            && Bracketed(s.env.trace)
            && (s.started <==> Inside(s.env.trace))
            && s.bytesSending == |s.sendBuffer|
    ensures var s := Run(Fresh, steps);
            s.started ==>
              && s.bytesReceived == Since(s.env.trace, BytesIn) % WORD
              && s.bytesSent == Since(s.env.trace, BytesOut) % WORD
              && s.datagramsReceived == Since(s.env.trace, DatagramsIn) % WORD
              && s.datagramsSent == Since(s.env.trace, DatagramsOut) % WORD
  {
    RunKeeps(Fresh, steps);
    var s := Run(Fresh, steps);
    assert s.started ==> forall k: Counter :: Tally(s).Get(k) == Since(s.env.trace, k) % WORD;
    assert Tally(s).Get(BytesIn) == s.bytesReceived && Tally(s).Get(BytesOut) == s.bytesSent;
    assert Tally(s).Get(DatagramsIn) == s.datagramsReceived && Tally(s).Get(DatagramsOut) == s.datagramsSent;
  }

  /** A receive limit set once and for all bounds the buffer: starting from
      buffers within it, growing never passes it. */
  lemma {:induction false} BufferStaysWithinLimit(s: State, steps: seq<Step>, limit: nat)
    requires s.receiveLimit == limit > 0 && s.receiveBufferSize <= limit
    requires forall i :: 0 <= i < |steps| ==> !steps[i].SetLimits?
    requires forall i :: 0 <= i < |steps| && steps[i].Handle? && steps[i].result.Bound? ==>
               steps[i].result.bufferSize <= limit
    ensures Run(s, steps).receiveBufferSize <= limit
    decreases |steps|
  {
    if steps != [] {
      StepWithinLimit(s, steps[0], limit);
      BufferStaysWithinLimit(Next(s, steps[0]), steps[1..], limit);
    }
  }

  lemma StepWithinLimit(s: State, step: Step, limit: nat)
    requires s.receiveLimit == limit > 0 && s.receiveBufferSize <= limit
    requires !step.SetLimits? && (step.Handle? && step.result.Bound? ==> step.result.bufferSize <= limit)
    ensures var t := Next(s, step); t.receiveLimit == limit && t.receiveBufferSize <= limit
  {
    match step
    case Handle(result) => if s.env.frames == [] && s.env.queue != [] { HeadWithinLimit(s, result, limit); }
    case Return =>
    case CallStart =>
    case CallStop =>
    case CallSend(_, _, _) =>
    case CallSendAsync(_) =>
    case CallReceive(_, _, _) =>
    case CallReceiveAsync =>
    case Complete(_, _, _) =>
  }

  lemma HeadWithinLimit(s: State, result: OpenResult, limit: nat)
    requires s.receiveBufferSize <= limit && s.env.queue != [] && (result.Bound? ==> result.bufferSize <= limit)
    ensures var t := RunHead(s, result); t.receiveLimit == s.receiveLimit && t.receiveBufferSize <= limit
  {
    match s.env.queue[0]
    case OpenEntry =>
    case CloseEntry(_) =>
    case DoneEntry(_, _, _, _) =>
  }

  /** A start handler that opened the socket but could not bind it leaves it
      open, and opening it again fails: no later run starts the server. */
  lemma {:induction false} FailedBindIsFinal(s: State, steps: seq<Step>)
    requires !s.started && s.socketOpen && s.env.frames == []
    ensures !Run(s, steps).started
    decreases |steps|
  {
    if steps != [] { FailedBindIsFinal(Next(s, steps[0]), steps[1..]); }
  }

  // ------------------------------------------------------ handlers take effect

  predicate Handles(s: State, step: Step) { step.Handle? && s.env.frames == [] && s.env.queue != [] }

  /** The handlers that run in a run. */
  function Handled(s: State, steps: seq<Step>): nat
    decreases |steps|
  {
    if steps == [] then 0 else (if Handles(s, steps[0]) then 1 else 0) + Handled(Next(s, steps[0]), steps[1..])
  }

  /** All other steps only add to the end of the queue. */
  lemma OtherStepsQueue(s: State, step: Step)
    requires !Handles(s, step)
    ensures var t := Next(s, step);
            s.env.queue <= t.env.queue && t.started == s.started && t.socketOpen == s.socketOpen
  {
    match step
    case Return => if s.env.frames != [] { ReturnStays(s); }
    case CallSend(_, _, _) => SyncCallStays(s, step);
    case CallReceive(_, _, _) => SyncCallStays(s, step);
    case CallStart =>
    case CallStop =>
    case CallSendAsync(_) =>
    case CallReceiveAsync =>
    case SetLimits(_, _) =>
    case Complete(_, _, _) =>
    case Handle(_) =>
  }

  predicate Stays(s: State, t: State) {
    t.started == s.started && t.socketOpen == s.socketOpen && t.env.queue == s.env.queue
  }

  lemma ReturnStays(s: State)
    requires s.env.frames != []
    ensures Stays(s, RunFrame(s))
  {}

  lemma SyncCallStays(s: State, step: Step)
    requires step.CallSend? || step.CallReceive?
    ensures Stays(s, Next(s, step))
  {}

  lemma DoneStays(s: State, op: Op, ec: ErrorCode, size: nat)
    ensures var t := if op == ReceiveOp then ReceiveHandler(s, ec, size) else SendHandler(s, ec, size);
            Stays(s, t)
  {}

  /** A handler takes the head of the queue; a stop handler stops, a start
      handler starts if it can, and no other one does either. */
  lemma HandlerQueue(s: State, step: Step)
    requires Handles(s, step)
    ensures var e, t := s.env.queue[0], Next(s, step);
            && (s.started ==> t.started == !e.CloseEntry?)
            && (!s.started && !s.socketOpen && step.result.Bound? ==> t.started == e.OpenEntry?)
            && (t.started == s.started ==> t.env.queue == s.env.queue[1..])
            && (!t.started && !s.started && step.result.Bound? ==> t.socketOpen == s.socketOpen)
  {
    var e := s.env.queue[0];
    if e.DoneEntry? { DoneStays(s.(env := s.env.Pop()), e.op, e.ec, e.size); }
  }

  /** A stop that was posted takes effect in every run, whatever is called and
      completes meanwhile, once the handlers up to it have run; so the wait in
      `Restart` ends. */
  lemma {:induction false} StopTakesEffect(s: State, i: nat, steps: seq<Step>) returns (j: nat)
    requires s.started && i < |s.env.queue| && s.env.queue[i].CloseEntry? && Handled(s, steps) > i
    ensures j <= |steps| && !Run(s, steps[..j]).started
    decreases |steps|
  {
    hide Next;
    var t := Next(s, steps[0]);
    if Handles(s, steps[0]) { HandlerQueue(s, steps[0]); } else { OtherStepsQueue(s, steps[0]); }
    if !t.started {
      j := 0;
    } else {
      var next := if Handles(s, steps[0]) then i - 1 else i;
      j := StopTakesEffect(t, next, steps[1..]);
    }
    assert steps[..j + 1][0] == steps[0] && steps[..j + 1][1..] == steps[1..][..j];
    j := j + 1;
  }

  /** Likewise a start, if the socket can be opened and bound. */
  lemma {:induction false} StartTakesEffect(s: State, i: nat, steps: seq<Step>) returns (j: nat)
    requires !s.started && !s.socketOpen && i < |s.env.queue| && s.env.queue[i].OpenEntry? && Handled(s, steps) > i
    requires forall k :: 0 <= k < |steps| && steps[k].Handle? ==> steps[k].result.Bound?
    ensures j <= |steps| && Run(s, steps[..j]).started
    decreases |steps|
  {
    hide Next;
    var t := Next(s, steps[0]);
    if Handles(s, steps[0]) { HandlerQueue(s, steps[0]); } else { OtherStepsQueue(s, steps[0]); }
    if t.started {
      j := 0;
    } else {
      var next := if Handles(s, steps[0]) then i - 1 else i;
      j := StartTakesEffect(t, next, steps[1..]);
    }
    assert steps[..j + 1][0] == steps[0] && steps[..j + 1][1..] == steps[1..][..j];
    j := j + 1;
  }

  /** The callbacks a frame can still lead to. */
  function Weight(frames: seq<Frame>): nat {
    if frames == [] then 0 else
      (if frames[0].GrowFrame? then 3 else if frames[0].QuietFrame? then 1 else 2) + Weight(frames[1..])
  }

  /** Callbacks that return come to an end, so the next handler gets its turn. */
  lemma {:induction false} ReturnsEnd(s: State) returns (steps: seq<Step>)
    ensures (forall i :: 0 <= i < |steps| ==> steps[i] == Return) && Run(s, steps).env.frames == []
    decreases Weight(s.env.frames)
  {
    steps := [];
    if s.env.frames != [] {
      ReturnShrinks(s);
      var rest := ReturnsEnd(Next(s, Return));
      steps := [Return] + rest;
      assert steps[1..] == rest;
    }
  }

  /** The frames after a return, by the frame that was left. */
  function FramesAfter(s: State): seq<Frame>
    requires s.env.frames != []
  {
    var rest := s.env.frames[1..];
    match s.env.frames[0]
    case QuietFrame => rest
    case ReportFrame(ec) => if ec.Reported() then [QuietFrame] + rest else rest
    case ReceivedNothingFrame => [QuietFrame] + rest
    case SentNothingFrame => [QuietFrame] + rest
    case GrowFrame(size) =>
      if s.receiveBufferSize == size && 2 * size > s.receiveLimit > 0 then [ReceivedNothingFrame] + rest else rest
  }

  lemma ReturnFrames(s: State)
    requires s.env.frames != []
    ensures RunFrame(s).env.frames == FramesAfter(s)
  {
    match s.env.frames[0]
    case QuietFrame =>
    case ReportFrame(_) =>
    case ReceivedNothingFrame =>
    case SentNothingFrame =>
    case GrowFrame(size) => assert NoBufferSpace.Reported();
  }

  lemma ReturnShrinks(s: State)
    requires s.env.frames != []
    ensures Weight(Next(s, Return).env.frames) < Weight(s.env.frames)
  {
    hide RunFrame;
    var rest := s.env.frames[1..];
    ReturnFrames(s);
    assert ([ReceivedNothingFrame] + rest)[1..] == rest && ([QuietFrame] + rest)[1..] == rest;
  }

  /** But as long as a callback has not returned, the server stays started,
      whatever happens: a `Restart` called inside it waits for ever. */
  lemma {:induction false} RestartInsideCallbackWaits(s: State, steps: seq<Step>)
    requires s.started && forall j :: 0 <= j <= |steps| ==> Run(s, steps[..j]).env.frames != []
    ensures Run(s, steps).started
    decreases |steps|
  {
    assert steps[..0] == [];
    if steps != [] {
      var t := Next(s, steps[0]);
      OtherStepsQueue(s, steps[0]);
      forall j | 0 <= j <= |steps| - 1 ensures Run(t, steps[1..][..j]).env.frames != [] {
        assert steps[..j + 1][1..] == steps[1..][..j];
      }
      RestartInsideCallbackWaits(t, steps[1..]);
    }
  }

  /** The start that `Restart` posts comes after all that the stopped session
      left in the queue, and nothing is in flight any more. */
  lemma RestartIsClean(s: State, steps: seq<Step>)
    requires Invariant(s) && s.started
    ensures var stopped := Run(StopCall(s), steps);
            !stopped.started ==>
              && stopped.env.inflight == []
              && StartCall(stopped).env.queue == stopped.env.queue + [OpenEntry]
              && OpensLast(StartCall(stopped).env.queue)
  {
    StepKeeps(s, CallStop);
    RunKeeps(StopCall(s), steps);
    var stopped := Run(StopCall(s), steps);
    if !stopped.started { StepKeeps(stopped, CallStart); }
  }

  // -------------------------------------------------------------- the object

  class UDPServer {
    var started: bool
    var receiving: bool
    var sending: bool
    var socketOpen: bool
    var sendBuffer: seq<bv8>
    var receiveBufferSize: nat
    var receiveLimit: nat
    var sendLimit: nat
    var bytesSending: nat
    var bytesSent: nat
    var bytesReceived: nat
    var datagramsSent: nat
    var datagramsReceived: nat
    var env: Env<Frame>

    function Now(): State
      reads this
    {
      State(started, receiving, sending, socketOpen, sendBuffer, receiveBufferSize, receiveLimit, sendLimit,
            bytesSending, bytesSent, bytesReceived, datagramsSent, datagramsReceived, env)
    }

    constructor ()
      ensures Now() == Fresh && Invariant(Now())
    {
      started, receiving, sending, socketOpen := false, false, false, false;
      sendBuffer, receiveBufferSize, receiveLimit, sendLimit := [], 0, 0, 0;
      bytesSending, bytesSent, bytesReceived, datagramsSent, datagramsReceived := 0, 0, 0, 0, 0;
      env := Env([], [], [], 0, []);
    }

    method Start() returns (posted: bool)
      modifies this
      ensures Now() == StartCall(old(Now()))
      ensures posted <==> !old(started)
    {
      if started { return false; }
      env := env.Post(OpenEntry);
      return true;
    }

    method Stop() returns (posted: bool)
      modifies this
      ensures Now() == StopCall(old(Now()))
      ensures posted <==> old(started)
    {
      if !started { return false; }
      env := env.Post(CloseEntry(env.session));
      return true;
    }

    /** `rest` is what the caller does after onError. */
    method SendError(ec: ErrorCode, rest: Frame)
      modifies this
      ensures Now() == Report(old(Now()), ec, rest)
    {
      if ec in {NoError, ConnectionAborted, ConnectionRefused, ConnectionReset, Eof, OperationAborted} { return; }
      env := env.Call(Failed(ec), rest);
    }

    method Send(p: Payload, accepted: nat, ec: ErrorCode) returns (sent: nat)
      modifies this
      ensures Now() == SendCall(old(Now()), p, accepted, ec)
      ensures sent == if old(started) && p.Size() > 0 && p.Bytes? then accepted else 0
    {
      if !started { return 0; }
      if p.Size() == 0 { return 0; }
      if p.NullPointer? { return 0; }
      sent := accepted;
      if sent > 0 {
        datagramsSent := Add64(datagramsSent, 1);
        bytesSent := Add64(bytesSent, sent);
        env := env.Call(Sent(sent, FromCall), ErrorFrame(ec));
      } else {
        SendError(ec, QuietFrame);
      }
    }

    method SendAsync(p: Payload) returns (accepted: bool)
      modifies this
      ensures Now() == SendAsyncCall(old(Now()), p)
      ensures accepted <==> !old(sending) && old(started)
                            && (p.Size() == 0 || (p.Bytes? && !(p.Size() > old(sendLimit) > 0)))
    {
      if sending { return false; }
      if !started { return false; }
      if p.Size() == 0 { return true; }
      if p.NullPointer? { return false; }
      if p.Size() > sendLimit && sendLimit > 0 {
        SendError(NoBufferSpace, SentNothingFrame);
        return false;
      }
      sendBuffer := p.data;
      bytesSending := |sendBuffer|;
      sending := true;
      env := env.Launch(SendOp);
      return true;
    }

    method Receive(p: Payload, accepted: nat, ec: ErrorCode) returns (received: nat)
      modifies this
      ensures Now() == ReceiveCall(old(Now()), p, accepted, ec)
      ensures received == if old(started) && p.Size() > 0 && p.Bytes? then accepted else 0
    {
      if !started { return 0; }
      if p.Size() == 0 { return 0; }
      if p.NullPointer? { return 0; }
      received := accepted;
      datagramsReceived := Add64(datagramsReceived, 1);
      bytesReceived := Add64(bytesReceived, received);
      env := env.Call(Received(received, FromCall), ErrorFrame(ec));
    }

    method TryReceive()
      modifies this
      ensures Now() == ReceiveAsyncCall(old(Now()))
    {
      if receiving { return; }
      if !started { return; }
      receiving := true;
      env := env.Launch(ReceiveOp);
    }

    method ClearBuffers()
      modifies this`sendBuffer, this`bytesSending
      ensures sendBuffer == [] && bytesSending == 0
    {
      sendBuffer := [];
      bytesSending := 0;
    }

    method ResetCounters()
      modifies this`bytesSending, this`bytesSent, this`bytesReceived, this`datagramsSent, this`datagramsReceived
      ensures bytesSending == bytesSent == bytesReceived == datagramsSent == datagramsReceived == 0
    {
      bytesSending, bytesSent, bytesReceived, datagramsSent, datagramsReceived := 0, 0, 0, 0, 0;
    }

    method OnStart(result: OpenResult)
      modifies this
      ensures Now() == StartHandler(old(Now()), result)
    {
      if started { return; }
      if socketOpen || result.NotOpened? { return; }  // open throws
      socketOpen := true;
      if result.NotBound? { return; }                 // an option or bind throws
      receiveBufferSize := result.bufferSize;
      ResetCounters();
      started := true;
      env := env.(session := env.session + 1).Call(Opened, QuietFrame);
    }

    method CloseSocket()
      modifies this`socketOpen, this`env
      ensures !socketOpen && env == old(env).Cancel()
    {
      socketOpen := false;
      env := env.Cancel();
    }

    method LowerFlags()
      modifies this`started, this`receiving, this`sending
      ensures !started && !receiving && !sending
    {
      started := false;
      receiving := false;
      sending := false;
    }

    method OnStop()
      modifies this
      ensures Now() == StopHandler(old(Now()))
    {
      if !started { return; }
      CloseSocket();
      LowerFlags();
      ClearBuffers();
      env := env.Call(Closed, QuietFrame);
    }

    method OnReceiveDone(ec: ErrorCode, size: nat)
      modifies this
      ensures Now() == ReceiveHandler(old(Now()), ec, size)
    {
      receiving := false;
      if !started { return; }
      if ec != NoError {
        SendError(ec, ReceivedNothingFrame);
        if !ec.Reported() { env := env.Call(Received(0, FromError), QuietFrame); }
        return;
      }
      datagramsReceived := Add64(datagramsReceived, 1);
      bytesReceived := Add64(bytesReceived, size);
      env := env.Call(Received(size, FromCompletion), GrowFrame(size));
    }

    method OnSendDone(ec: ErrorCode, sent: nat)
      modifies this
      ensures Now() == SendHandler(old(Now()), ec, sent)
    {
      sending := false;
      if !started { return; }
      if ec != NoError {
        SendError(ec, SentNothingFrame);
        if !ec.Reported() { env := env.Call(Sent(0, FromError), QuietFrame); }
        return;
      }
      if sent > 0 {
        bytesSending := 0;
        bytesSent := Add64(bytesSent, sent);
        sendBuffer := [];
        env := env.Call(Sent(sent, FromCompletion), QuietFrame);
      }
    }

    method OnReturn()
      requires env.frames != []
      modifies this
      ensures Now() == RunFrame(old(Now()))
    {
      var frame := env.frames[0];
      env := env.(frames := env.frames[1..]);
      match frame {
        case QuietFrame =>
        case ReportFrame(ec) => SendError(ec, QuietFrame);
        case ReceivedNothingFrame => env := env.Call(Received(0, FromError), QuietFrame);
        case SentNothingFrame => env := env.Call(Sent(0, FromError), QuietFrame);
        case GrowFrame(size) =>
          if receiveBufferSize == size {
            if 2 * size > receiveLimit && receiveLimit > 0 {
              SendError(NoBufferSpace, ReceivedNothingFrame);
              return;
            }
            receiveBufferSize := 2 * size;
          }
      }
    }

    /** One step of a run on the object. */
    method Perform(step: Step)
      modifies this
      ensures Now() == Next(old(Now()), step)
    {
      match step {
        case CallStart => var b := Start();
        case CallStop => var b := Stop();
        case CallSend(p, sent, ec) => var n := Send(p, sent, ec);
        case CallSendAsync(p) => var b := SendAsync(p);
        case CallReceive(p, received, ec) => var n := Receive(p, received, ec);
        case CallReceiveAsync => TryReceive();
        case SetLimits(r, w) => receiveLimit, sendLimit := r, w;
        case Complete(i, ec, size) =>
          if i < |env.inflight| { env := env.Complete(i, ec, size); }
        case Handle(result) =>
          if env.frames == [] && env.queue != [] {
            var head := env.queue[0];
            env := env.Pop();
            match head {
              case OpenEntry => OnStart(result);
              case CloseEntry(_) => OnStop();
              case DoneEntry(op, _, ec, size) =>
                if op == ReceiveOp { OnReceiveDone(ec, size); } else { OnSendDone(ec, size); }
            }
          }
        case Return =>
          if env.frames != [] { OnReturn(); }
      }
    }
  }

  /** Any run on a new server object keeps the invariant. */
  method RunServer(steps: seq<Step>) returns (server: UDPServer)
    ensures fresh(server) && server.Now() == Run(Fresh, steps) && Invariant(server.Now())
  {
    server := new UDPServer();
    for i := 0 to |steps|
      invariant fresh(server) && Run(server.Now(), steps[i..]) == Run(Fresh, steps)
    {
      assert steps[i..][0] == steps[i] && steps[i..][1..] == steps[i + 1..];
      server.Perform(steps[i]);
    }
    RunKeeps(Fresh, steps);
  }
}
