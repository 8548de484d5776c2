/** The UDP client in runs of ConnectAsync (without a resolver),
    DisconnectAsync, SendAsync and ReceiveAsync; ReconnectAsync is a
    DisconnectAsync followed, once disconnected, by a ConnectAsync. An error in a
    completion handler disconnects on the spot, from inside the handler. */
module UdpClient {
  import opened Session

  /** What is left to do after a callback returns. */
  datatype Frame =
    | DisconnectFrame        // DisconnectInternalAsync(true)
    | GrowFrame(size: nat)   // the receive buffer was filled by `size` bytes
    | QuietFrame             // nothing

  datatype State = State(
    addressGiven: bool,
    port: int,
    connected: bool,
    resolving: bool,
    receiving: bool,
    sending: bool,
    socketOpen: bool,
    sendBuffer: seq<bv8>,
    receiveBufferSize: nat,
    receiveLimit: nat,
    sendLimit: nat,
    bytesSending: nat,
    bytesSent: nat,
    bytesReceived: nat,
    datagramsSent: nat,
    datagramsReceived: nat,
    env: Env<Frame>)

  // ------------------------------------------------------------- the calls

  function ConnectAsyncCall(s: State): State {
    if s.connected then s else s.(env := s.env.Post(OpenEntry))
  }

  function DisconnectAsyncCall(s: State): State {
    if !s.connected then s else s.(env := s.env.Cancel().Post(CloseEntry(s.env.session)))
  }

  function SendAsyncCall(s: State, p: Payload): State {
    if s.sending || !s.connected || p.Size() == 0 || p.NullPointer? then s
    else if |p.data| > s.sendLimit > 0 then s.(env := s.env.Call(Failed(NoBufferSpace), QuietFrame))
    else
      s.(sendBuffer := p.data, bytesSending := |p.data|, sending := true, env := s.env.Launch(SendOp))
  }

  function ReceiveAsyncCall(s: State): State {
    if s.receiving || !s.connected then s
    else s.(receiving := true, env := s.env.Launch(ReceiveOp))
  }

  // ---------------------------------------------------------- the handlers

  function Connect(s: State, result: OpenResult): State {
    if !s.addressGiven || s.port <= 0 || s.connected || s.socketOpen || result.NotOpened? then s
    else if result.NotBound? then s.(socketOpen := true)
    else
      s.(socketOpen := true, receiveBufferSize := result.bufferSize,
         bytesSending := 0, bytesSent := 0, bytesReceived := 0, datagramsSent := 0, datagramsReceived := 0,
         connected := true, env := s.env.(session := s.env.session + 1).Call(Opened, QuietFrame))
  }

  function Disconnect(s: State): State {
    if !s.connected then s else
      s.(socketOpen := false, resolving := false, connected := false, receiving := false, sending := false,
         env := s.env.Cancel().Call(Closed, QuietFrame))
  }

  /** DisconnectInternalAsync(true): cancel, then disconnect at once. */
  function DisconnectNow(s: State): State {
    if !s.connected then s else Disconnect(s.(env := s.env.Cancel()))
  }

  /** SendError(ec), then DisconnectInternalAsync(true) once onError returns. */
  function FailAndDisconnect(s: State, ec: ErrorCode): State {
    if ec.Reported() then s.(env := s.env.Call(Failed(ec), DisconnectFrame))
    else DisconnectNow(s)
  }

  function CountReceived(s: State, size: nat): State {
    s.(bytesReceived := Add64(s.bytesReceived, size),
       datagramsReceived := Add64(s.datagramsReceived, 1),
       env := s.env.Call(Received(size, FromCompletion), GrowFrame(size)))
  }

  function ReceiveHandler(s0: State, ec: ErrorCode, size: nat): State {
    var s := s0.(receiving := false);
    if !s.connected then s
    else if ec != NoError then FailAndDisconnect(s, ec)
    else CountReceived(s, size)
  }

  function SendHandler(s0: State, ec: ErrorCode, sent: nat): State {
    var s := s0.(sending := false);
    if !s.connected then s
    else if ec != NoError then FailAndDisconnect(s, ec)
    else if sent > 0 then
      s.(bytesSending := 0, bytesSent := Add64(s.bytesSent, sent), sendBuffer := [],
         env := s.env.Call(Sent(sent, FromCompletion), QuietFrame))
    else s
  }

  function RunHead(s: State, result: OpenResult): State
    requires s.env.queue != []
  {
    var t := s.(env := s.env.Pop());
    match s.env.queue[0]
    case OpenEntry => Connect(t, result)
    case CloseEntry(_) => Disconnect(t)
    case DoneEntry(op, _, ec, size) =>
      if op == ReceiveOp then ReceiveHandler(t, ec, size) else SendHandler(t, ec, size)
  }

  function RunFrame(s: State): State
    requires s.env.frames != []
  {
    var t := s.(env := s.env.(frames := s.env.frames[1..]));
    match s.env.frames[0]
    case QuietFrame => t
    case DisconnectFrame => DisconnectNow(t)
    case GrowFrame(size) =>
      if t.receiveBufferSize != size then t
      else if 2 * size > t.receiveLimit > 0 then FailAndDisconnect(t, NoBufferSpace)
      else t.(receiveBufferSize := 2 * size)
  }

  // ---------------------------------------------------------------- runs

  datatype Step =
    | CallConnectAsync
    | CallDisconnectAsync
    | CallSendAsync(payload: Payload)
    | CallReceiveAsync
    | Complete(index: nat, ec: ErrorCode, size: nat)
    | Handle(result: OpenResult)
    | Return

  function Next(s: State, step: Step): State {
    match step
    case CallConnectAsync => ConnectAsyncCall(s)
    case CallDisconnectAsync => DisconnectAsyncCall(s)
    case CallSendAsync(p) => SendAsyncCall(s, p)
    case CallReceiveAsync => ReceiveAsyncCall(s)
    case Complete(i, ec, size) =>
      if i < |s.env.inflight| then s.(env := s.env.Complete(i, ec, size)) else s
    case Handle(result) =>
      if s.env.frames == [] && s.env.queue != [] then RunHead(s, result) else s
    case Return => if s.env.frames != [] then RunFrame(s) else s
  }

  function Run(s: State, steps: seq<Step>): State
    decreases |steps|
  {
    if steps == [] then s else Run(Next(s, steps[0]), steps[1..])
  }

  function Fresh(addressGiven: bool, port: int, receiveLimit: nat, sendLimit: nat): State {
    State(addressGiven, port, false, false, false, false, false, [], 0, receiveLimit, sendLimit,
          0, 0, 0, 0, 0, Env([], [], [], 0, []))
  }

  function Tally(s: State): Counts {
    Counts(s.bytesReceived, s.bytesSent, s.datagramsReceived, s.datagramsSent)
  }

  predicate Invariant(s: State) {
    && Steady(s.env, s.connected, s.receiving, s.sending)
    && Accounts(s.env.trace, s.connected, Tally(s))
    && (s.connected ==> s.socketOpen)
    && (s.bytesSending == 0 || s.bytesSending == |s.sendBuffer|)
    && QuietButLast(s.env.frames)
    && (HandlerFrame(s.env.frames) ==> s.connected && NoOpens(s.env.queue))
  }

  /** Only the handler that is running, at the bottom, can have something left to
      do; calls made in its callbacks have not. */
  predicate QuietButLast(frames: seq<Frame>) {
    forall i :: 0 <= i < |frames| - 1 ==> frames[i].QuietFrame?
  }

  predicate HandlerFrame(frames: seq<Frame>) { frames != [] && !frames[|frames| - 1].QuietFrame? }

  lemma DisconnectAsyncKeeps(s: State)
    requires Invariant(s)
    ensures Invariant(DisconnectAsyncCall(s))
  {
    if s.connected {
      CancelSteady(s.env, s.receiving, s.sending);
      PostCloseSteady(s.env.Cancel(), s.receiving, s.sending);
    }
  }

  lemma SendAsyncKeeps(s: State, p: Payload)
    requires Invariant(s)
    ensures Invariant(SendAsyncCall(s, p))
  {
    if s.connected && !s.sending && p.Bytes? && p.data != [] {
      if |p.data| > s.sendLimit > 0 {
        EmitQuiet(s.env.trace, Tally(s), Failed(NoBufferSpace));
      } else {
        LaunchSteady(s.env, s.receiving, s.sending, SendOp);
      }
    }
  }

  /** Disconnecting from a handler or a frame of the open session. */
  lemma DisconnectKeeps(s: State)
    requires Invariant(s) && s.connected && s.env.frames == [] && NoOpens(s.env.queue)
    ensures Invariant(Disconnect(s))
  {
    CloseSteady(s.env, s.receiving, s.sending);
    EmitClosed(s.env.trace, Tally(s), Tally(s));
  }

  lemma DisconnectNowKeeps(s: State)
    requires Invariant(s) && s.connected && s.env.frames == [] && NoOpens(s.env.queue)
    ensures Invariant(DisconnectNow(s))
  {
    CancelSteady(s.env, s.receiving, s.sending);
    DisconnectKeeps(s.(env := s.env.Cancel()));
  }

  lemma FailKeeps(s: State, ec: ErrorCode)
    requires Invariant(s) && s.connected && s.env.frames == [] && NoOpens(s.env.queue)
    ensures Invariant(FailAndDisconnect(s, ec))
  {
    DisconnectNowKeeps(s);
    EmitQuiet(s.env.trace, Tally(s), Failed(ec));
  }

  lemma OpenEntryKeeps(s: State, result: OpenResult)
    requires Invariant(s) && s.env.queue != [] && s.env.queue[0].OpenEntry? && s.env.frames == []
    ensures Invariant(RunHead(s, result))
  {
    if s.connected {
      PopIdleSteady(s.env, s.connected, s.receiving, s.sending);
    } else {
      OpenSteady(s.env);
      EmitOpened(s.env.trace, Tally(s));
    }
  }

  lemma CloseEntryKeeps(s: State, result: OpenResult)
    requires Invariant(s) && s.env.queue != [] && s.env.queue[0].CloseEntry? && s.env.frames == []
    ensures Invariant(RunHead(s, result))
  {
    if s.connected {
      PopCloseSteady(s.env, s.receiving, s.sending);
      DisconnectKeeps(s.(env := s.env.Pop()));
    } else {
      PopIdleSteady(s.env, s.connected, s.receiving, s.sending);
    }
  }

  lemma CountsBelow(s: State)
    requires Invariant(s) && s.connected
    ensures forall k: Counter :: Tally(s).Get(k) < WORD
  {
    forall k: Counter ensures Tally(s).Get(k) < WORD {
      assert Tally(s).Get(k) == Since(s.env.trace, k) % WORD;
    }
  }

  lemma CountReceivedKeeps(s: State, size: nat)
    requires Invariant(s) && s.connected && s.env.frames == [] && NoOpens(s.env.queue)
    ensures Invariant(CountReceived(s, size))
  {
    CountsBelow(s);
    EmitInside(s.env.trace, Tally(s), Received(size, FromCompletion), Tally(CountReceived(s, size)));
  }

  lemma ReceiveDoneKeeps(s: State, ec: ErrorCode, size: nat)
    requires Invariant(s.(receiving := false)) && s.env.frames == [] && (s.connected ==> NoOpens(s.env.queue))
    ensures Invariant(ReceiveHandler(s, ec, size))
  {
    var t := s.(receiving := false);
    if t.connected {
      if ec != NoError { FailKeeps(t, ec); } else { CountReceivedKeeps(t, size); }
    }
  }

  lemma SendDoneKeeps(s: State, ec: ErrorCode, sent: nat)
    requires Invariant(s.(sending := false)) && s.env.frames == [] && (s.connected ==> NoOpens(s.env.queue))
    ensures Invariant(SendHandler(s, ec, sent))
  {
    var t := s.(sending := false);
    if t.connected {
      if ec != NoError {
        FailKeeps(t, ec);
      } else {
        if sent > 0 {
          CountsBelow(t);
          EmitInside(s.env.trace, Tally(s), Sent(sent, FromCompletion), Tally(SendHandler(s, ec, sent)));
        }
      }
    }
  }

  lemma DoneEntryKeeps(s: State, result: OpenResult)
    requires Invariant(s) && s.env.queue != [] && s.env.queue[0].DoneEntry? && s.env.frames == []
    ensures Invariant(RunHead(s, result))
  {
    var e := s.env.queue[0];
    PopDoneSteady(s.env, s.connected, s.receiving, s.sending);
    if e.op == ReceiveOp {
      ReceiveDoneKeeps(s.(env := s.env.Pop()), e.ec, e.size);
    } else {
      SendDoneKeeps(s.(env := s.env.Pop()), e.ec, e.size);
    }
  }

  lemma ReturnKeeps(s: State)
    requires Invariant(s) && s.env.frames != []
    ensures Invariant(RunFrame(s))
  {
    var t := s.(env := s.env.(frames := s.env.frames[1..]));
    assert Invariant(t);
    if !s.env.frames[0].QuietFrame? {
      assert HandlerFrame(s.env.frames) && t.env.frames == [];
      DisconnectNowKeeps(t);
      FailKeeps(t, NoBufferSpace);
    }
  }

  lemma StepKeeps(s: State, step: Step)
    requires Invariant(s)
    ensures Invariant(Next(s, step))
  {
    match step
    case Complete(i, ec, size) =>
      if i < |s.env.inflight| { CompleteSteady(s.env, s.connected, s.receiving, s.sending, i, ec, size); }
    case Handle(result) =>
      if s.env.frames == [] && s.env.queue != [] {
        match s.env.queue[0]
        case OpenEntry => OpenEntryKeeps(s, result);
        case CloseEntry(_) => CloseEntryKeeps(s, result);
        case DoneEntry(_, _, _, _) => DoneEntryKeeps(s, result);
      }
    case Return =>
      if s.env.frames != [] { ReturnKeeps(s); }
    case CallConnectAsync =>
      if !s.connected { PostOpenSteady(s.env); }
    case CallDisconnectAsync => DisconnectAsyncKeeps(s);
    case CallSendAsync(p) => SendAsyncKeeps(s, p);
    case CallReceiveAsync =>
      if s.connected && !s.receiving { LaunchSteady(s.env, s.receiving, s.sending, ReceiveOp); }
  }

  lemma {:induction false} RunKeeps(s: State, steps: seq<Step>)
    requires Invariant(s)
    ensures Invariant(Run(s, steps))
    decreases |steps|
  {
    if steps != [] {
      StepKeeps(s, steps[0]);
      RunKeeps(Next(s, steps[0]), steps[1..]);
    }
  }

  // --------------------------------------------------------- main results

  /** A state some run of some client leads to. */
  ghost predicate Reachable(s: State) {
    exists a, p, r, w, steps :: s == Run(Fresh(a, p, r, w), steps)
  }

  lemma ReachableInvariant(s: State)
    requires Reachable(s)
    ensures Invariant(s)
  {
    var a, p, r, w, steps :| s == Run(Fresh(a, p, r, w), steps);
    RunKeeps(Fresh(a, p, r, w), steps);
  }

  /** While connected, at most one receive and one send are pending, exactly as
      the flags say; whatever is queued or in flight belongs to the last
      session, also after it was closed. */
  lemma AtMostOneInFlight(s: State)
    requires Reachable(s)
    ensures s.connected ==>
              && Pending(s.env, ReceiveOp) == (if s.receiving then 1 else 0)
              && Pending(s.env, SendOp) == (if s.sending then 1 else 0)
    ensures !s.connected ==> !s.receiving && !s.sending && s.env.inflight == []
    ensures AllCurrent(s.env.queue, s.env.session) && AllLaunchedIn(s.env.inflight, s.env.session)
  {
    ReachableInvariant(s);
  }

  /** What a closed session left behind, aborts included, never ends a later
      session: it is dropped while none is open, and when one begins nothing of
      the one before is left. */
  lemma StaleAbortIsDropped(s: State, result: OpenResult)
    requires Reachable(s) && s.env.frames == [] && s.env.queue != []
    ensures !s.connected && !s.env.queue[0].OpenEntry? ==> Next(s, Handle(result)) == s.(env := s.env.Pop())
    ensures var t := Next(s, Handle(result));
            t.env.session != s.env.session ==>
              && !s.connected && t.connected && t.env.session == s.env.session + 1
              && t.env.inflight == [] && forall i :: 0 <= i < |t.env.queue| ==> t.env.queue[i].OpenEntry?
  {
    ReachableInvariant(s);
    var e, t := s.env.queue[0], s.(env := s.env.Pop());
    if e.DoneEntry? { DoneKeepsSession(t, e.op, e.ec, e.size); }
  }

  lemma FailKeepsSession(s: State, ec: ErrorCode)
    ensures FailAndDisconnect(s, ec).env.session == s.env.session
  {}

  lemma DoneKeepsSession(s: State, op: Op, ec: ErrorCode, size: nat)
    ensures var t := if op == ReceiveOp then ReceiveHandler(s, ec, size) else SendHandler(s, ec, size);
            t.env.session == s.env.session
  {
    hide FailAndDisconnect;
    FailKeepsSession(s.(receiving := false), ec);
    FailKeepsSession(s.(sending := false), ec);
  }

  /** The callbacks are bracketed by onConnected and onDisconnected, and the byte
      counters are the sums reported since the last onConnected. */
  lemma CallbacksAddUp(s: State)
    requires Reachable(s)
    ensures Bracketed(s.env.trace) && (s.connected <==> Inside(s.env.trace))
    ensures s.connected ==>
              && s.bytesReceived == Since(s.env.trace, BytesIn) % WORD
              && s.bytesSent == Since(s.env.trace, BytesOut) % WORD
              && s.datagramsReceived == Since(s.env.trace, DatagramsIn) % WORD
  {
    ReachableInvariant(s);
    assert s.connected ==> forall k: Counter :: Tally(s).Get(k) == Since(s.env.trace, k) % WORD;
    assert Tally(s).Get(BytesIn) == s.bytesReceived && Tally(s).Get(BytesOut) == s.bytesSent;
    assert Tally(s).Get(DatagramsIn) == s.datagramsReceived;
  }

  /** Unlike the server, the client does not clear its send buffer when it
      disconnects: bytes_pending is the buffer's length, or 0 after connecting
      again with an unsent buffer, as in the run below. */
  lemma PendingBytes(s: State)
    requires Reachable(s)
    ensures s.bytesSending == |s.sendBuffer| || s.bytesSending == 0
  {
    ReachableInvariant(s);
  }

  /** bytes_pending and the send buffer disagree. */
  predicate Parted(s: State) { s.bytesSending != |s.sendBuffer| }

  /** The step is a connect that succeeds while the send buffer is not empty. */
  predicate ConnectsUnsent(s: State, step: Step) {
    && step.Handle? && s.env.frames == [] && s.env.queue != [] && s.env.queue[0].OpenEntry?
    && s.addressGiven && s.port > 0 && !s.connected && !s.socketOpen && step.result.Bound?
    && s.sendBuffer != []
  }

  /** The step is a SendAsync that fills the send buffer. */
  predicate SendsAnew(s: State, step: Step) {
    && step.CallSendAsync? && s.connected && !s.sending
    && step.payload.Bytes? && step.payload.data != [] && !(|step.payload.data| > s.sendLimit > 0)
  }

  /** They part when connecting with an unsent buffer, and stay so until the next
      send is accepted. */
  predicate PartsRight(s: State, parts: bool, mends: bool, t: State) {
    && (Parted(t) <==> parts || (Parted(s) && !mends))
    && (Parted(t) ==> !t.sending)
  }

  lemma DisconnectParts(s: State)
    requires Parted(s) ==> !s.sending
    ensures PartsRight(s, false, false, Disconnect(s)) && PartsRight(s, false, false, DisconnectNow(s))
  {}

  lemma FailParts(s: State, ec: ErrorCode)
    requires Parted(s) ==> !s.sending
    ensures PartsRight(s, false, false, FailAndDisconnect(s, ec))
  {
    DisconnectParts(s);
  }

  lemma FrameParts(s: State)
    requires s.env.frames != [] && (Parted(s) ==> !s.sending)
    ensures PartsRight(s, false, false, RunFrame(s))
  {
    hide DisconnectNow, FailAndDisconnect;
    var t := s.(env := s.env.(frames := s.env.frames[1..]));
    DisconnectParts(t);
    FailParts(t, NoBufferSpace);
  }

  lemma ReceiveParts(s: State, ec: ErrorCode, size: nat)
    requires Parted(s) ==> !s.sending
    ensures PartsRight(s, false, false, ReceiveHandler(s, ec, size))
  {
    hide FailAndDisconnect;
    FailParts(s.(receiving := false), ec);
  }

  lemma SendParts(s: State, ec: ErrorCode, size: nat)
    requires Parted(s) ==> !s.connected
    ensures PartsRight(s, false, false, SendHandler(s, ec, size))
  {
    hide FailAndDisconnect;
    FailParts(s.(sending := false), ec);
  }

  lemma HeadParts(s: State, result: OpenResult)
    requires Invariant(s) && s.env.frames == [] && s.env.queue != [] && (Parted(s) ==> !s.sending)
    ensures PartsRight(s, ConnectsUnsent(s, Handle(result)), false, RunHead(s, result))
  {
    hide Disconnect, ReceiveHandler, SendHandler;
    var e, t := s.env.queue[0], s.(env := s.env.Pop());
    match e
    case OpenEntry =>
    case CloseEntry(_) => DisconnectParts(t);
    case DoneEntry(op, _, ec, size) =>
      PopDoneSteady(s.env, s.connected, s.receiving, s.sending);
      if op == ReceiveOp { ReceiveParts(t, ec, size); } else { SendParts(t, ec, size); }
  }

  /** For one step, seen from the state before it. */
  lemma StepParts(s: State, step: Step)
    requires Invariant(s) && (Parted(s) ==> !s.sending)
    ensures PartsRight(s, ConnectsUnsent(s, step), SendsAnew(s, step), Next(s, step))
  {
    hide RunHead, RunFrame;
    if step.Handle? && s.env.frames == [] && s.env.queue != [] {
      HeadParts(s, step.result);
    } else if step.Return? && s.env.frames != [] {
      FrameParts(s);
    }
  }

  /** Some connect succeeded with an unsent buffer and no send was accepted after
      it. */
  ghost predicate Unsent(s: State, steps: seq<Step>) {
    exists i :: 0 <= i < |steps| && ConnectsUnsent(Run(s, steps[..i]), steps[i]) && NoSendAfter(s, steps, i)
  }

  lemma UnsentSnoc(s: State, steps: seq<Step>)
    requires steps != []
    ensures var n := |steps| - 1;
            var u := Run(s, steps[..n]);
            Unsent(s, steps) <==> ConnectsUnsent(u, steps[n]) || (Unsent(s, steps[..n]) && !SendsAnew(u, steps[n]))
  {
    hide Run, ConnectsUnsent, SendsAnew, NoSendAfter;
    var n := |steps| - 1;
    var before, u := steps[..n], Run(s, steps[..n]);
    forall i | 0 <= i < n
      ensures before[..i] == steps[..i]
      ensures NoSendAfter(s, steps, i) <==> NoSendAfter(s, before, i) && !SendsAnew(u, steps[n])
    {
      NoSendAfterSnoc(s, steps, i);
    }
    NoSendAfterLast(s, steps);
    if Unsent(s, before) && !SendsAnew(u, steps[n]) {
      var i :| 0 <= i < n && ConnectsUnsent(Run(s, before[..i]), before[i]) && NoSendAfter(s, before, i);
      assert ConnectsUnsent(Run(s, steps[..i]), steps[i]);
    }
    if Unsent(s, steps) {
      var i :| 0 <= i < |steps| && ConnectsUnsent(Run(s, steps[..i]), steps[i]) && NoSendAfter(s, steps, i);
      if i < n { assert ConnectsUnsent(Run(s, before[..i]), before[i]); }
    }
  }

  lemma NoSendAfterLast(s: State, steps: seq<Step>)
    requires steps != []
    ensures NoSendAfter(s, steps, |steps| - 1)
  {}

  /** In every run: bytes_pending differs from the length of the send buffer
      exactly when some connect succeeded with an unsent buffer and no send has
      been accepted since. */
  lemma {:induction false} PendingBytesLost(s: State, steps: seq<Step>)
    requires Invariant(s) && !Parted(s)
    ensures Parted(Run(s, steps)) ==> !Run(s, steps).sending
    ensures Parted(Run(s, steps)) <==> Unsent(s, steps)
    decreases |steps|
  {
    hide Next, ConnectsUnsent, SendsAnew, Parted;
    if steps == [] {
      assert !Unsent(s, steps);
    } else {
      var n := |steps| - 1;
      PendingBytesLost(s, steps[..n]);
      RunKeeps(s, steps[..n]);
      RunSnoc(s, steps[..n], steps[n]);
      assert steps[..n] + [steps[n]] == steps;
      StepParts(Run(s, steps[..n]), steps[n]);
      UnsentSnoc(s, steps);
    }
  }

  ghost predicate NoSendAfter(s: State, steps: seq<Step>, i: nat) {
    forall j :: i < j < |steps| ==> !SendsAnew(Run(s, steps[..j]), steps[j])
  }

  lemma NoSendAfterSnoc(s: State, steps: seq<Step>, i: nat)
    requires steps != [] && i < |steps| - 1
    ensures NoSendAfter(s, steps, i) <==>
            NoSendAfter(s, steps[..|steps| - 1], i) && !SendsAnew(Run(s, steps[..|steps| - 1]), steps[|steps| - 1])
  {
    var n := |steps| - 1;
    forall j | i < j < n ensures steps[..n][..j] == steps[..j] {}
  }

  lemma {:induction false} RunSnoc(s: State, steps: seq<Step>, step: Step)
    ensures Run(s, steps + [step]) == Next(Run(s, steps), step)
    decreases |steps|
  {
    if steps == [] {
      assert Run(s, [step]) == Run(Next(s, step), [step][1..]);
    } else {
      assert (steps + [step])[1..] == steps[1..] + [step];
      RunSnoc(Next(s, steps[0]), steps[1..], step);
    }
  }

  lemma ReachableNext(s: State, step: Step) returns (t: State)
    requires Reachable(s)
    ensures t == Next(s, step) && Reachable(t)
  {
    hide Next, Fresh;
    var a, p, r, w, steps :| s == Run(Fresh(a, p, r, w), steps);
    RunSnoc(Fresh(a, p, r, w), steps, step);
    t := Next(s, step);
  }

  lemma JustConnected() returns (s: State)
    ensures Reachable(s) && s.connected && s.addressGiven && s.port == 1 && !s.sending && s.sendLimit == 0
    ensures s.env == Env([], [], [QuietFrame], 1, [Opened])
  {
    s := Fresh(true, 1, 0, 0);
    assert s == Run(s, []);
    s := ReachableNext(s, CallConnectAsync);
    s := ReachableNext(s, Handle(Bound(8)));
  }

  /** Connect, send, and disconnect before the datagram is out. */
  lemma AbandonedSend() returns (s: State)
    ensures Reachable(s) && s.connected && s.addressGiven && s.port == 1 && s.sendBuffer == [7]
    ensures s.env == Env([DoneEntry(SendOp, 1, OperationAborted, 0), CloseEntry(1)], [], [], 1, [Opened])
  {
    s := JustConnected();
    s := ReachableNext(s, CallSendAsync(Bytes([7])));
    s := ReachableNext(s, CallDisconnectAsync);
    s := ReachableNext(s, Return);
  }

  /** After that, the abort disconnects; connect again. */
  lemma AbandonedAndReconnecting() returns (s: State)
    ensures Reachable(s) && !s.connected && !s.socketOpen && s.addressGiven && s.port == 1 && s.sendBuffer == [7]
    ensures s.env == Env([CloseEntry(1), OpenEntry], [], [], 1, [Opened, Closed])
  {
    s := AbandonedSend();
    s := ReachableNext(s, Handle(NotOpened));
    s := ReachableNext(s, CallConnectAsync);
    s := ReachableNext(s, Return);
  }

  lemma PendingBytesForgotten()
    ensures exists s :: Reachable(s) && s.connected && s.bytesSending != |s.sendBuffer|
  {
    var s := AbandonedAndReconnecting();
    s := ReachableNext(s, Handle(NotOpened));
    s := ReachableNext(s, Handle(Bound(8)));
  }

  // ------------------------------------------------------ handlers take effect

  predicate Handles(s: State, step: Step) { step.Handle? && s.env.frames == [] && s.env.queue != [] }

  /** The handlers that run in a run. */
  function Handled(s: State, steps: seq<Step>): nat
    decreases |steps|
  {
    if steps == [] then 0 else (if Handles(s, steps[0]) then 1 else 0) + Handled(Next(s, steps[0]), steps[1..])
  }

  /** Short of disconnecting, the queue only grows at its end. */
  predicate Grows(s: State, t: State) {
    && (t.connected ==> s.connected)
    && (t.connected == s.connected ==> s.env.queue <= t.env.queue && t.socketOpen == s.socketOpen)
    && t.addressGiven == s.addressGiven && t.port == s.port
  }

  lemma FailGrows(s: State, ec: ErrorCode)
    ensures Grows(s, DisconnectNow(s)) && Grows(s, FailAndDisconnect(s, ec))
  {}

  lemma ReturnGrows(s: State)
    requires s.env.frames != []
    ensures Grows(s, RunFrame(s))
  {
    hide DisconnectNow, FailAndDisconnect;
    FailGrows(s.(env := s.env.(frames := s.env.frames[1..])), NoBufferSpace);
  }

  lemma OtherStepsGrow(s: State, step: Step)
    requires !Handles(s, step)
    ensures Grows(s, Next(s, step))
  {
    hide RunFrame;
    if step.Return? && s.env.frames != [] { ReturnGrows(s); }
  }

  lemma DoneGrows(s: State, op: Op, ec: ErrorCode, size: nat)
    ensures var t := if op == ReceiveOp then ReceiveHandler(s, ec, size) else SendHandler(s, ec, size);
            Grows(s, t) && (t.connected == s.connected ==> t.env.queue == s.env.queue)
  {
    hide FailAndDisconnect;
    FailGrows(s.(receiving := false), ec);
    FailGrows(s.(sending := false), ec);
    FailQueue(s.(receiving := false), ec);
    FailQueue(s.(sending := false), ec);
  }

  lemma FailQueue(s: State, ec: ErrorCode)
    ensures var t := FailAndDisconnect(s, ec); t.connected == s.connected ==> t.env.queue == s.env.queue
  {}

  /** A handler takes the head of the queue; a disconnect handler disconnects, a
      connect handler connects if it can, and no other one connects. */
  lemma HandlerQueue(s: State, step: Step)
    requires Handles(s, step)
    ensures var e, t := s.env.queue[0], Next(s, step);
            && (s.connected && e.CloseEntry? ==> !t.connected)
            && (t.connected == s.connected ==> t.env.queue == s.env.queue[1..])
            && (!s.connected && !s.socketOpen && s.addressGiven && s.port > 0 && step.result.Bound? ==>
                  t.connected == e.OpenEntry? && (!t.connected ==> !t.socketOpen))
            && t.addressGiven == s.addressGiven && t.port == s.port
  {
    hide ReceiveHandler, SendHandler;
    var e := s.env.queue[0];
    if e.DoneEntry? { DoneGrows(s.(env := s.env.Pop()), e.op, e.ec, e.size); }
  }

  /** A disconnect that was posted takes effect in every run once the handlers up
      to it have run, if not before; so the wait in `ReconnectAsync` ends. */
  lemma {:induction false} DisconnectTakesEffect(s: State, i: nat, steps: seq<Step>) returns (j: nat)
    requires s.connected && i < |s.env.queue| && s.env.queue[i].CloseEntry? && Handled(s, steps) > i
    ensures j <= |steps| && !Run(s, steps[..j]).connected
    decreases |steps|
  {
    hide Next;
    var t := Next(s, steps[0]);
    if Handles(s, steps[0]) { HandlerQueue(s, steps[0]); } else { OtherStepsGrow(s, steps[0]); }
    if !t.connected {
      j := 0;
    } else {
      var next := if Handles(s, steps[0]) then i - 1 else i;
      j := DisconnectTakesEffect(t, next, steps[1..]);
    }
    assert steps[..j + 1][0] == steps[0] && steps[..j + 1][1..] == steps[1..][..j];
    j := j + 1;
  }

  /** Likewise a connect, if there is an address and a port and the socket can be
      opened and bound. */
  lemma {:induction false} ConnectTakesEffect(s: State, i: nat, steps: seq<Step>) returns (j: nat)
    requires !s.connected && !s.socketOpen && s.addressGiven && s.port > 0
    requires i < |s.env.queue| && s.env.queue[i].OpenEntry? && Handled(s, steps) > i
    requires forall k :: 0 <= k < |steps| && steps[k].Handle? ==> steps[k].result.Bound?
    ensures j <= |steps| && Run(s, steps[..j]).connected
    decreases |steps|
  {
    hide Next;
    var t := Next(s, steps[0]);
    if Handles(s, steps[0]) { HandlerQueue(s, steps[0]); } else { OtherStepsGrow(s, steps[0]); }
    if t.connected {
      j := 0;
    } else {
      var next := if Handles(s, steps[0]) then i - 1 else i;
      j := ConnectTakesEffect(t, next, steps[1..]);
    }
    assert steps[..j + 1][0] == steps[0] && steps[..j + 1][1..] == steps[1..][..j];
    j := j + 1;
  }

  /** The callbacks a frame can still lead to. */
  function Weight(frames: seq<Frame>): nat {
    if frames == [] then 0 else
      (if frames[0].GrowFrame? then 3 else if frames[0].QuietFrame? then 1 else 2) + Weight(frames[1..])
  }

  /** Callbacks that return come to an end, so the next handler gets its turn. */
  lemma {:induction false} ReturnsEnd(s: State) returns (steps: seq<Step>)
    ensures (forall i :: 0 <= i < |steps| ==> steps[i] == Return) && Run(s, steps).env.frames == []
    decreases Weight(s.env.frames)
  {
    steps := [];
    if s.env.frames != [] {
      ReturnShrinks(s);
      var rest := ReturnsEnd(Next(s, Return));
      steps := [Return] + rest;
      assert steps[1..] == rest;
    }
  }

  /** The frames after a return, by the frame that was left. */
  function FramesAfter(s: State): seq<Frame>
    requires s.env.frames != []
  {
    var rest := s.env.frames[1..];
    match s.env.frames[0]
    case QuietFrame => rest
    case DisconnectFrame => if s.connected then [QuietFrame] + rest else rest
    case GrowFrame(size) =>
      if s.receiveBufferSize == size && 2 * size > s.receiveLimit > 0 then [DisconnectFrame] + rest else rest
  }

  lemma ReturnFrames(s: State)
    requires s.env.frames != []
    ensures RunFrame(s).env.frames == FramesAfter(s)
  {
    var t := s.(env := s.env.(frames := s.env.frames[1..]));
    match s.env.frames[0]
    case QuietFrame =>
    case DisconnectFrame => assert DisconnectNow(t).env.frames == FramesAfter(s);
    case GrowFrame(size) => assert NoBufferSpace.Reported();
  }

  lemma ReturnShrinks(s: State)
    requires s.env.frames != []
    ensures Weight(Next(s, Return).env.frames) < Weight(s.env.frames)
  {
    hide RunFrame;
    var rest := s.env.frames[1..];
    ReturnFrames(s);
    assert ([DisconnectFrame] + rest)[1..] == rest && ([QuietFrame] + rest)[1..] == rest;
  }

  /** The connect that `ReconnectAsync` posts comes after all that the closed
      session left in the queue, and nothing is in flight any more. */
  lemma ReconnectIsClean(s: State, steps: seq<Step>)
    requires Invariant(s) && s.connected
    ensures var closed := Run(DisconnectAsyncCall(s), steps);
            !closed.connected ==>
              && closed.env.inflight == []
              && ConnectAsyncCall(closed).env.queue == closed.env.queue + [OpenEntry]
              && OpensLast(ConnectAsyncCall(closed).env.queue)
  {
    StepKeeps(s, CallDisconnectAsync);
    RunKeeps(DisconnectAsyncCall(s), steps);
    var closed := Run(DisconnectAsyncCall(s), steps);
    if !closed.connected { StepKeeps(closed, CallConnectAsync); }
  }

  /** As long as a callback at depth n has not returned, only callbacks inside it,
      the client stays connected, whatever happens: a `ReconnectAsync` called in
      it waits for ever. */
  lemma {:induction false} ReconnectInsideCallbackWaits(s: State, n: nat, steps: seq<Step>)
    requires Invariant(s) && s.connected && 1 <= n <= |s.env.frames|
    requires forall j :: 0 <= j < |steps| && steps[j].Return? ==> |Run(s, steps[..j]).env.frames| > n
    ensures Run(s, steps).connected
    decreases |steps|
  {
    if steps != [] {
      var t := Next(s, steps[0]);
      assert steps[..0] == [];
      StaysInside(s, n, steps[0]);
      StepKeeps(s, steps[0]);
      forall j | 0 <= j < |steps| - 1 && steps[1..][j].Return? ensures |Run(t, steps[1..][..j]).env.frames| > n {
        assert steps[..j + 1][1..] == steps[1..][..j] && steps[j + 1].Return?;
      }
      ReconnectInsideCallbackWaits(t, n, steps[1..]);
    }
  }

  lemma StaysInside(s: State, n: nat, step: Step)
    requires Invariant(s) && s.connected && 1 <= n <= |s.env.frames| && (step.Return? ==> |s.env.frames| > n)
    ensures var t := Next(s, step); t.connected && |t.env.frames| >= n
  {
    if step.Return? { assert s.env.frames[0].QuietFrame?; }
  }

  // -------------------------------------------------------------- the object

  class UDPClient {
    const addressGiven: bool
    const port: int
    const receiveLimit: nat
    const sendLimit: nat
    var connected: bool
    var resolving: bool
    var receiving: bool
    var sending: bool
    var socketOpen: bool
    var sendBuffer: seq<bv8>
    var receiveBufferSize: nat
    var bytesSending: nat
    var bytesSent: nat
    var bytesReceived: nat
    var datagramsSent: nat
    var datagramsReceived: nat
    var env: Env<Frame>

    function Now(): State
      reads this
    {
      State(addressGiven, port, connected, resolving, receiving, sending, socketOpen, sendBuffer, receiveBufferSize,
            receiveLimit, sendLimit, bytesSending, bytesSent, bytesReceived, datagramsSent, datagramsReceived, env)
    }

    constructor (addressGiven: bool, port: int, receiveLimit: nat, sendLimit: nat)
      ensures Now() == Fresh(addressGiven, port, receiveLimit, sendLimit)
    {
      this.addressGiven, this.port, this.receiveLimit, this.sendLimit := addressGiven, port, receiveLimit, sendLimit;
      connected, resolving, receiving, sending, socketOpen := false, false, false, false, false;
      sendBuffer, receiveBufferSize := [], 0;
      bytesSending, bytesSent, bytesReceived, datagramsSent, datagramsReceived := 0, 0, 0, 0, 0;
      env := Env([], [], [], 0, []);
    }

    method ConnectAsync() returns (posted: bool)
      modifies this
      ensures Now() == ConnectAsyncCall(old(Now()))
      ensures posted <==> !old(connected)
    {
      if connected { return false; }
      env := env.Post(OpenEntry);
      return true;
    }

    method DisconnectInternalAsync(dispatch: bool) returns (done: bool)
      modifies this
      ensures Now() == if dispatch then DisconnectNow(old(Now())) else DisconnectAsyncCall(old(Now()))
      ensures done <==> old(connected)
    {
      if !connected { return false; }
      env := env.Cancel();
      if dispatch {
        var b := DisconnectInternal();
      } else {
        env := env.Post(CloseEntry(env.session));
      }
      return true;
    }

    method DisconnectInternal() returns (done: bool)
      modifies this
      ensures Now() == Disconnect(old(Now()))
      ensures done <==> old(connected)
    {
      if !connected { return false; }
      socketOpen := false;
      env := env.Cancel();
      resolving := false;
      connected := false;
      receiving := false;
      sending := false;
      env := env.Call(Closed, QuietFrame);
      return true;
    }

    method SendAsync(p: Payload) returns (accepted: bool)
      modifies this
      ensures Now() == SendAsyncCall(old(Now()), p)
      ensures accepted <==> !old(sending) && old(connected)
                            && (p.Size() == 0 || (p.Bytes? && !(p.Size() > sendLimit > 0)))
    {
      if sending { return false; }
      if !connected { return false; }
      if p.Size() == 0 { return true; }
      if p.NullPointer? { return false; }
      if p.Size() > sendLimit && sendLimit > 0 {
        SendError(NoBufferSpace, QuietFrame);
        return false;
      }
      sendBuffer := p.data;
      bytesSending := |sendBuffer|;
      sending := true;
      env := env.Launch(SendOp);
      return true;
    }

    method TryReceive()
      modifies this
      ensures Now() == ReceiveAsyncCall(old(Now()))
    {
      if receiving { return; }
      if !connected { return; }
      receiving := true;
      env := env.Launch(ReceiveOp);
    }

    /** `rest` is what the caller does after onError. */
    method SendError(ec: ErrorCode, rest: Frame)
      modifies this`env
      ensures env == if ec.Reported() then old(env).Call(Failed(ec), rest) else old(env)
    {
      if ec in {NoError, ConnectionAborted, ConnectionRefused, ConnectionReset, Eof, OperationAborted} { return; }
      env := env.Call(Failed(ec), rest);
    }

    method ResetCounters()
      modifies this`bytesSending, this`bytesSent, this`bytesReceived, this`datagramsSent, this`datagramsReceived
      ensures bytesSending == bytesSent == bytesReceived == datagramsSent == datagramsReceived == 0
    {
      bytesSending, bytesSent, bytesReceived, datagramsSent, datagramsReceived := 0, 0, 0, 0, 0;
    }

    method OnConnect(result: OpenResult) returns (done: bool)
      modifies this
      ensures Now() == Connect(old(Now()), result)
      ensures done <==> !old(connected) && connected
    {
      if !addressGiven { return false; }
      if port <= 0 { return false; }
      if connected { return false; }
      if socketOpen || result.NotOpened? { return false; }  // open throws
      socketOpen := true;
      if result.NotBound? { return false; }                 // an option or bind throws
      receiveBufferSize := result.bufferSize;
      ResetCounters();
      connected := true;
      env := env.(session := env.session + 1).Call(Opened, QuietFrame);
      return true;
    }

    /** SendError(ec) and DisconnectInternalAsync(true), cut at onError. */
    method FailThenDisconnect(ec: ErrorCode)
      modifies this
      ensures Now() == FailAndDisconnect(old(Now()), ec)
    {
      SendError(ec, DisconnectFrame);
      if !ec.Reported() {
        var b := DisconnectInternalAsync(true);
      }
    }

    method OnReceiveDone(ec: ErrorCode, size: nat)
      modifies this
      ensures Now() == ReceiveHandler(old(Now()), ec, size)
    {
      receiving := false;
      if !connected { return; }
      if ec != NoError {
        FailThenDisconnect(ec);
        return;
      }
      datagramsReceived := Add64(datagramsReceived, 1);
      bytesReceived := Add64(bytesReceived, size);
      env := env.Call(Received(size, FromCompletion), GrowFrame(size));
    }

    method OnSendDone(ec: ErrorCode, sent: nat)
      modifies this
      ensures Now() == SendHandler(old(Now()), ec, sent)
    {
      sending := false;
      if !connected { return; }
      if ec != NoError {
        FailThenDisconnect(ec);
        return;
      }
      if sent > 0 {
        bytesSending := 0;
        bytesSent := Add64(bytesSent, sent);
        sendBuffer := [];
        env := env.Call(Sent(sent, FromCompletion), QuietFrame);
      }
    }

    method OnReturn()
      requires env.frames != []
      modifies this
      ensures Now() == RunFrame(old(Now()))
    {
      var frame := env.frames[0];
      env := env.(frames := env.frames[1..]);
      match frame {
        case QuietFrame =>
        case DisconnectFrame => var b := DisconnectInternalAsync(true);
        case GrowFrame(size) =>
          if receiveBufferSize == size {
            if 2 * size > receiveLimit && receiveLimit > 0 {
              FailThenDisconnect(NoBufferSpace);
              return;
            }
            receiveBufferSize := 2 * size;
          }
      }
    }

    /** The handler or completion at the head of the queue. */
    method OnHead(result: OpenResult)
      requires env.queue != []
      modifies this
      ensures Now() == RunHead(old(Now()), result)
    {
      var head := env.queue[0];
      env := env.Pop();
      match head {
        case OpenEntry => var b := OnConnect(result);
        case CloseEntry(_) => var b := DisconnectInternal();
        case DoneEntry(op, _, ec, size) =>
          if op == ReceiveOp { OnReceiveDone(ec, size); } else { OnSendDone(ec, size); }
      }
    }

    /** One step of a run on the object. */
    method Perform(step: Step)
      modifies this
      ensures Now() == Next(old(Now()), step)
    {
      match step {
        case CallConnectAsync => var b := ConnectAsync();
        case CallDisconnectAsync => var b := DisconnectInternalAsync(false);
        case CallSendAsync(p) => var b := SendAsync(p);
        case CallReceiveAsync => TryReceive();
        case Complete(i, ec, size) =>
          if i < |env.inflight| { env := env.Complete(i, ec, size); }
        case Handle(result) =>
          if env.frames == [] && env.queue != [] { OnHead(result); }
        case Return =>
          if env.frames != [] { OnReturn(); }
      }
    }
  }

  /** Any run on a new client object keeps the invariant. */
  method RunClient(address: bool, port: int, rl: nat, sl: nat, steps: seq<Step>) returns (client: UDPClient)
    ensures fresh(client) && client.Now() == Run(Fresh(address, port, rl, sl), steps)
    ensures Reachable(client.Now()) && Invariant(client.Now())
  {
    client := new UDPClient(address, port, rl, sl);
    for i := 0 to |steps|
      invariant fresh(client) && Run(client.Now(), steps[i..]) == Run(Fresh(address, port, rl, sl), steps)
    {
      assert steps[i..][0] == steps[i] && steps[i..][1..] == steps[i + 1..];
      client.Perform(steps[i]);
    }
    ReachableInvariant(client.Now());
  }
}
