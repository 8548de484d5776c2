/** What the UDP client does with datagrams and errors, told from the calls made
    and the completions at the head of the queue rather than from its handlers. */
module UdpClientLaws {
  import opened Session
  import opened UdpClient

  // ---------------------------------------------- datagrams and the counters

  /** A connect handler that succeeds. */
  predicate Begins(s: State, step: Step) {
    && step.Handle? && s.env.frames == [] && s.env.queue != [] && s.env.queue[0].OpenEntry?
    && s.addressGiven && s.port > 0 && !s.connected && !s.socketOpen && step.result.Bound?
  }

  /** The completion of an operation without error gets its turn while connected. */
  predicate Completes(s: State, step: Step, op: Op) {
    && step.Handle? && s.env.frames == [] && s.env.queue != [] && s.connected
    && s.env.queue[0].DoneEntry? && s.env.queue[0].op == op && s.env.queue[0].ec == NoError
  }

  /** The size of the datagram that the step brings in. */
  function Incoming(s: State, step: Step): seq<nat> {
    if Completes(s, step, ReceiveOp) then [s.env.queue[0].size] else []
  }

  /** The size of the datagram that the step reports as sent. */
  function Outgoing(s: State, step: Step): seq<nat> {
    if Completes(s, step, SendOp) && s.env.queue[0].size > 0 then [s.env.queue[0].size] else []
  }

  /** The same over a run, since the last connect. */
  function AllIncoming(s: State, steps: seq<Step>): seq<nat>
    decreases |steps|
  {
    if steps == [] then [] else
      var n := |steps| - 1;
      var u := Run(s, steps[..n]);
      if Begins(u, steps[n]) then [] else AllIncoming(s, steps[..n]) + Incoming(u, steps[n])
  }

  function AllOutgoing(s: State, steps: seq<Step>): seq<nat>
    decreases |steps|
  {
    if steps == [] then [] else
      var n := |steps| - 1;
      var u := Run(s, steps[..n]);
      if Begins(u, steps[n]) then [] else AllOutgoing(s, steps[..n]) + Outgoing(u, steps[n])
  }

  /** From s to t these sizes are reported and counted. */
  ghost predicate Counts(s: State, t: State, ins: seq<nat>, outs: seq<nat>) {
    && ReceivedSince(t.env.trace) == ReceivedSince(s.env.trace) + ins
    && SentSince(t.env.trace) == SentSince(s.env.trace) + outs
    && t.bytesReceived == (s.bytesReceived + Total(ins)) % WORD
    && t.datagramsReceived == (s.datagramsReceived + |ins|) % WORD
    && t.bytesSent == (s.bytesSent + Total(outs)) % WORD
  }

  predicate Words(s: State) {
    s.bytesReceived < WORD && s.datagramsReceived < WORD && s.bytesSent < WORD
  }

  predicate Alike(s: State, r: State) {
    && r.bytesReceived == s.bytesReceived && r.bytesSent == s.bytesSent && r.datagramsReceived == s.datagramsReceived
  }

  /** Counters and trace as they were, but for events that carry no datagram. */
  ghost predicate Quiet(s: State, t: State) {
    Alike(s, t) && (t.env.trace == s.env.trace || exists e :: CarriesNothing(e) && t.env.trace == s.env.trace + [e])
  }

  predicate CarriesNothing(e: Event) { e.Closed? || e.Failed? }

  lemma QuietCounts(s: State, t: State)
    requires Words(s) && Quiet(s, t)
    ensures Counts(s, t, [], [])
  {
    hide ReceivedSince, SentSince, Total;
    NothingAdded(s.bytesReceived);
    NothingAdded(s.datagramsReceived);
    NothingAdded(s.bytesSent);
    var r, w := ReceivedSince(s.env.trace), SentSince(s.env.trace);
    assert r + [] == r && w + [] == w;
    if t.env.trace != s.env.trace {
      var e :| CarriesNothing(e) && t.env.trace == s.env.trace + [e];
      SinceSnoc(s.env.trace, e);
    }
  }

  lemma QuietStep(s: State, t: State, e: Event)
    requires CarriesNothing(e) && t.env.trace == s.env.trace + [e] && Alike(s, t)
    ensures Quiet(s, t)
  {}

  lemma QuietFrom(s: State, r: State, t: State)
    requires Alike(s, r) && r.env.trace == s.env.trace && Quiet(r, t)
    ensures Quiet(s, t)
  {}

  lemma DisconnectQuiet(s: State)
    ensures Quiet(s, Disconnect(s)) && Quiet(s, DisconnectNow(s))
  {
    if s.connected {
      QuietStep(s, Disconnect(s), Closed);
      QuietStep(s, DisconnectNow(s), Closed);
    }
  }

  lemma FailQuiet(s: State, ec: ErrorCode)
    ensures Quiet(s, FailAndDisconnect(s, ec))
  {
    hide DisconnectNow;
    if ec.Reported() { QuietStep(s, FailAndDisconnect(s, ec), Failed(ec)); } else { DisconnectQuiet(s); }
  }

  lemma CountsFrom(s: State, r: State, t: State, ins: seq<nat>, outs: seq<nat>)
    requires Alike(s, r) && r.env.trace == s.env.trace && Counts(r, t, ins, outs)
    ensures Counts(s, t, ins, outs)
  {}

  lemma ReceivedCounts(s: State, size: nat)
    requires Words(s)
    ensures Counts(s, CountReceived(s, size), [size], [])
  {
    SinceSnoc(s.env.trace, Received(size, FromCompletion));
    TotalOne(size);
  }

  lemma FailCounts(s: State, r: State, ec: ErrorCode)
    requires Words(s) && Alike(s, r) && r.env.trace == s.env.trace
    ensures Counts(s, FailAndDisconnect(r, ec), [], [])
  {
    FailQuiet(r, ec);
    QuietFrom(s, r, FailAndDisconnect(r, ec));
    QuietCounts(s, FailAndDisconnect(r, ec));
  }

  lemma ReceiveCounts(s: State, ec: ErrorCode, size: nat)
    requires Words(s)
    ensures Counts(s, ReceiveHandler(s, ec, size), if s.connected && ec == NoError then [size] else [], [])
  {
    hide FailAndDisconnect, CountReceived, Counts;
    var r := s.(receiving := false);
    if !s.connected {
      QuietCounts(s, r);
    } else if ec != NoError {
      FailCounts(s, r, ec);
    } else {
      ReceivedCounts(r, size);
      CountsFrom(s, r, CountReceived(r, size), [size], []);
    }
  }

  lemma SendCounts(s: State, ec: ErrorCode, size: nat)
    requires Words(s)
    ensures Counts(s, SendHandler(s, ec, size), [], if s.connected && ec == NoError && size > 0 then [size] else [])
  {
    hide FailAndDisconnect, Counts;
    var w := s.(sending := false);
    if !s.connected || (ec == NoError && size == 0) {
      QuietCounts(s, w);
    } else if ec != NoError {
      FailCounts(s, w, ec);
    } else {
      SentCounts(s, SendHandler(s, ec, size), size);
    }
  }

  lemma SentCounts(s: State, t: State, size: nat)
    requires Words(s) && t.env.trace == s.env.trace + [Sent(size, FromCompletion)]
    requires t.bytesSent == Add64(s.bytesSent, size)
    requires t.bytesReceived == s.bytesReceived && t.datagramsReceived == s.datagramsReceived
    ensures Counts(s, t, [], [size])
  {
    hide ReceivedSince, SentSince;
    SinceSnoc(s.env.trace, Sent(size, FromCompletion));
    TotalOne(size);
    NothingAdded(s.bytesReceived);
    NothingAdded(s.datagramsReceived);
  }

  lemma HeadCounts(s: State, step: Step)
    requires Words(s) && Handles(s, step) && !Begins(s, step)
    ensures Counts(s, Next(s, step), Incoming(s, step), Outgoing(s, step))
  {
    hide Disconnect, ReceiveHandler, SendHandler, Counts;
    var e, t := s.env.queue[0], s.(env := s.env.Pop());
    match e {
      case OpenEntry => QuietCounts(t, Connect(t, step.result));
      case CloseEntry(_) =>
        DisconnectQuiet(t);
        QuietCounts(t, Disconnect(t));
      case DoneEntry(op, _, ec, size) =>
        if op == ReceiveOp { ReceiveCounts(t, ec, size); } else { SendCounts(t, ec, size); }
    }
    CountsFrom(s, t, Next(s, step), Incoming(s, step), Outgoing(s, step));
  }

  lemma FrameCounts(s: State)
    requires Words(s) && s.env.frames != []
    ensures Counts(s, RunFrame(s), [], [])
  {
    hide DisconnectNow, FailAndDisconnect, Counts;
    var t := s.(env := s.env.(frames := s.env.frames[1..]));
    DisconnectQuiet(t);
    FailQuiet(t, NoBufferSpace);
    QuietFrom(s, t, RunFrame(s));
    QuietCounts(s, RunFrame(s));
  }

  lemma StepCounts(s: State, step: Step)
    requires Words(s) && !Begins(s, step)
    ensures Counts(s, Next(s, step), Incoming(s, step), Outgoing(s, step))
  {
    hide Counts, RunFrame, RunHead;
    if Handles(s, step) {
      HeadCounts(s, step);
    } else if step.Return? && s.env.frames != [] {
      FrameCounts(s);
    } else {
      if step.CallSendAsync? && Next(s, step).env.trace != s.env.trace {
        QuietStep(s, Next(s, step), Failed(NoBufferSpace));
      }
      QuietCounts(s, Next(s, step));
    }
  }

  /** What a successful connect leaves; the send buffer stays as it was. */
  lemma BeginsFresh(s: State, step: Step)
    requires Begins(s, step)
    ensures var t := Next(s, step);
            && t.connected && t.socketOpen && t.receiveBufferSize == step.result.bufferSize
            && t.env.trace == s.env.trace + [Opened] && t.env.queue == s.env.queue[1..]
            && t.bytesReceived == t.datagramsReceived == t.bytesSent == t.datagramsSent == t.bytesSending == 0
            && t.sendBuffer == s.sendBuffer
  {}

  /** A connect handler that cannot open the socket changes nothing; one that opens
      but cannot bind it leaves it open, and no later run connects the client. */
  lemma FailedConnect(s: State, steps: seq<Step>)
    requires s.env.frames == [] && s.env.queue != [] && s.env.queue[0].OpenEntry?
    requires s.addressGiven && s.port > 0 && !s.connected && !s.socketOpen
    ensures Next(s, Handle(NotOpened)) == s.(env := s.env.Pop())
    ensures Next(s, Handle(NotBound)) == s.(socketOpen := true, env := s.env.Pop())
    ensures !Run(Next(s, Handle(NotBound)), steps).connected
  {
    StaysUnconnected(Next(s, Handle(NotBound)), steps);
  }

  lemma {:induction false} StaysUnconnected(s: State, steps: seq<Step>)
    requires !s.connected && s.socketOpen
    ensures !Run(s, steps).connected
    decreases |steps|
  {
    if steps != [] {
      var t := Next(s, steps[0]);
      if Handles(s, steps[0]) { HandleUnconnected(s, steps[0]); } else { OtherStepsGrow(s, steps[0]); }
      StaysUnconnected(t, steps[1..]);
    }
  }

  lemma HandleUnconnected(s: State, step: Step)
    requires Handles(s, step) && !s.connected && s.socketOpen
    ensures !Next(s, step).connected && Next(s, step).socketOpen
  {}

  /** The trace and the counters of a run, told by the lists. */
  ghost predicate Told(s: State, ins: seq<nat>, outs: seq<nat>) {
    && ReceivedSince(s.env.trace) == ins && SentSince(s.env.trace) == outs
    && s.bytesReceived == Total(ins) % WORD && s.datagramsReceived == |ins| % WORD
    && s.bytesSent == Total(outs) % WORD
  }

  lemma ToldMore(s: State, t: State, ins: seq<nat>, outs: seq<nat>, i: seq<nat>, o: seq<nat>)
    requires Told(s, ins, outs) && Counts(s, t, i, o)
    ensures Told(t, ins + i, outs + o)
  {
    hide Total, ReceivedSince, SentSince;
    TotalConcat(ins, i);
    TotalConcat(outs, o);
    Carry(Total(ins), Total(i), s.bytesReceived, t.bytesReceived);
    Carry(Total(outs), Total(o), s.bytesSent, t.bytesSent);
    Carry(|ins|, |i|, s.datagramsReceived, t.datagramsReceived);
  }

  lemma ToldWords(s: State, ins: seq<nat>, outs: seq<nat>)
    requires Told(s, ins, outs)
    ensures Words(s)
  {}

  lemma BeginsTold(s: State, step: Step)
    requires Begins(s, step)
    ensures Told(Next(s, step), [], [])
  {
    BeginsFresh(s, step);
    SinceSnoc(s.env.trace, Opened);
  }

  lemma DeliverStep(s: State, step: Step, ins: seq<nat>, outs: seq<nat>)
    requires Told(s, ins, outs)
    ensures if Begins(s, step) then Told(Next(s, step), [], [])
            else Told(Next(s, step), ins + Incoming(s, step), outs + Outgoing(s, step))
  {
    hide Told, Counts, Next, Incoming, Outgoing, Begins;
    if Begins(s, step) {
      BeginsTold(s, step);
    } else {
      ToldWords(s, ins, outs);
      StepCounts(s, step);
      ToldMore(s, Next(s, step), ins, outs, Incoming(s, step), Outgoing(s, step));
    }
  }

  /** In every run of every client, since the last connect: onReceived and onSent
      report, in order, exactly the sizes of the completions without error that
      had their turn while connected, and the counters are their sums and their
      number. */
  lemma {:induction false} Deliveries(address: bool, port: int, rl: nat, sl: nat, steps: seq<Step>)
    ensures var s := Fresh(address, port, rl, sl); Told(Run(s, steps), AllIncoming(s, steps), AllOutgoing(s, steps))
    decreases |steps|
  {
    hide Told, Next, Incoming, Outgoing, Begins;
    var s := Fresh(address, port, rl, sl);
    if steps == [] {
      ToldAtFirst(address, port, rl, sl);
    } else {
      var n := |steps| - 1;
      Deliveries(address, port, rl, sl, steps[..n]);
      RunSnoc(s, steps[..n], steps[n]);
      assert steps[..n] + [steps[n]] == steps;
      DeliverStep(Run(s, steps[..n]), steps[n], AllIncoming(s, steps[..n]), AllOutgoing(s, steps[..n]));
    }
  }

  lemma ToldAtFirst(address: bool, port: int, rl: nat, sl: nat)
    ensures Told(Fresh(address, port, rl, sl), [], [])
  {}

  // ------------------------------------------------ handlers with their callbacks

  /** The handler at the head, and the returns of its callbacks. */
  function Turn(s: State, result: OpenResult): State {
    Next(Next(Next(Next(s, Handle(result)), Return), Return), Return)
  }

  predicate DoneFirst(s: State, op: Op) {
    s.env.frames == [] && s.connected && s.env.queue != [] && s.env.queue[0].DoneEntry? && s.env.queue[0].op == op
  }

  lemma ReturnQuiet(s: State)
    requires s.env.frames == [QuietFrame]
    ensures Next(s, Return) == s.(env := s.env.(frames := []))
  {
    assert [QuietFrame][1..] == [];
  }

  lemma ReturnIdle(s: State)
    requires s.env.frames == []
    ensures Next(s, Return) == s
  {}

  /** Disconnected for good: closed, flags down, what was in flight aborted, and
      onDisconnected called after the given events. */
  predicate Disconnected(s: State, t: State, events: seq<Event>)
    requires s.env.queue != []
  {
    && !t.connected && !t.socketOpen && !t.receiving && !t.sending && t.env.frames == []
    && t.env.inflight == [] && t.env.queue == s.env.queue[1..] + Aborts(s.env.inflight)
    && t.env.trace == s.env.trace + events + [Closed]
  }

  /** DisconnectInternalAsync(true), up to its callback. */
  lemma DisconnectEffect(s: State)
    requires s.connected && s.env.frames == []
    ensures var t := DisconnectNow(s);
            && !t.connected && !t.socketOpen && !t.receiving && !t.sending
            && t.env == s.env.(queue := s.env.queue + Aborts(s.env.inflight), inflight := [],
                               frames := [QuietFrame], trace := s.env.trace + [Closed])
  {
    assert [QuietFrame] + [] == [QuietFrame];
    assert Aborts([]) == [] && s.env.queue + Aborts(s.env.inflight) + [] == s.env.queue + Aborts(s.env.inflight);
  }

  lemma ReturnDisconnects(s: State)
    requires s.connected && s.env.frames == [DisconnectFrame]
    ensures Next(s, Return) == DisconnectNow(s.(env := s.env.(frames := [])))
  {
    assert [DisconnectFrame][1..] == [];
  }

  /** An operation that failed, of either kind: the error is reported, unless it is
      one of the five, and the client disconnects. */
  lemma ErrorDisconnects(s: State, op: Op, result: OpenResult)
    requires DoneFirst(s, op) && s.env.queue[0].ec != NoError
    ensures var ec := s.env.queue[0].ec;
            Disconnected(s, Turn(s, result), if Dropped(ec) then [] else [Failed(ec)])
  {
    var ec := s.env.queue[0].ec;
    var t, r := Next(s, Handle(result)), s.env.queue[1..];
    ErrorHandled(s, op, result);
    if Dropped(ec) {
      ReturnQuiet(t);
      ReturnIdle(Next(t, Return));
      assert s.env.trace + [] + [Closed] == s.env.trace + [Closed];
    } else {
      var u := t.(env := t.env.(frames := []));
      ReturnDisconnects(t);
      DisconnectEffect(u);
      ReturnQuiet(DisconnectNow(u));
      ReturnIdle(DisconnectNow(u).(env := DisconnectNow(u).env.(frames := [])));
    }
  }

  lemma ErrorHandled(s: State, op: Op, result: OpenResult)
    requires DoneFirst(s, op) && s.env.queue[0].ec != NoError
    ensures var ec, t := s.env.queue[0].ec, Next(s, Handle(result));
            if Dropped(ec) then
              && !t.connected && !t.socketOpen && !t.receiving && !t.sending
              && t.env == s.env.(queue := s.env.queue[1..] + Aborts(s.env.inflight), inflight := [],
                                 frames := [QuietFrame], trace := s.env.trace + [Closed])
            else
              t.connected && t.env == s.env.(queue := s.env.queue[1..],
                                             frames := [DisconnectFrame], trace := s.env.trace + [Failed(ec)])
  {
    hide FailAndDisconnect;
    var ec, t := s.env.queue[0].ec, s.(env := s.env.Pop());
    var u := if op == ReceiveOp then t.(receiving := false) else t.(sending := false);
    assert Next(s, Handle(result)) == FailAndDisconnect(u, ec);
    FailEffect(u, ec);
  }

  /** SendError(ec) and DisconnectInternalAsync(true), up to the first callback. */
  lemma FailEffect(s: State, ec: ErrorCode)
    requires s.connected && s.env.frames == [] && ec != NoError
    ensures FailAndDisconnect(s, ec)
            == if Dropped(ec) then DisconnectNow(s)
               else s.(env := s.env.(frames := [DisconnectFrame], trace := s.env.trace + [Failed(ec)]))
    ensures var t := DisconnectNow(s);
            && !t.connected && !t.socketOpen && !t.receiving && !t.sending
            && t.env == s.env.(queue := s.env.queue + Aborts(s.env.inflight), inflight := [],
                               frames := [QuietFrame], trace := s.env.trace + [Closed])
  {
    hide DisconnectNow;
    assert ec.Reported() <==> !Dropped(ec);
    assert [DisconnectFrame] + [] == [DisconnectFrame];
    DisconnectEffect(s);
  }

  /** A receive that fills the buffer doubles it, or if that passes the limit
      reports that and disconnects; any other one leaves it alone. */
  lemma ReceiveIsReported(s: State, result: OpenResult)
    requires DoneFirst(s, ReceiveOp) && s.env.queue[0].ec == NoError
    ensures var n, t := s.env.queue[0].size, Turn(s, result);
            var full := n == s.receiveBufferSize;
            if full && 2 * n > s.receiveLimit > 0 then
              Disconnected(s, t, [Received(n, FromCompletion), Failed(NoBufferSpace)])
            else
              && t.connected && !t.receiving && t.sending == s.sending
              && t.env == s.env.(queue := s.env.queue[1..], trace := s.env.trace + [Received(n, FromCompletion)])
              && t.receiveBufferSize == if full then 2 * n else s.receiveBufferSize
  {
    var n, t := s.env.queue[0].size, Next(s, Handle(result));
    assert [GrowFrame(n)] + [] == [GrowFrame(n)];
    assert t.env == s.env.(queue := s.env.queue[1..], frames := [GrowFrame(n)],
                           trace := s.env.trace + [Received(n, FromCompletion)]);
    GrowReturns(t, n);
    var u := Next(t, Return);
    if n == s.receiveBufferSize && 2 * n > s.receiveLimit > 0 {
      var v := u.(env := u.env.(frames := []));
      ReturnDisconnects(u);
      DisconnectEffect(v);
      ReturnQuiet(DisconnectNow(v));
      assert s.env.trace + [Received(n, FromCompletion)] + [Failed(NoBufferSpace)]
          == s.env.trace + [Received(n, FromCompletion), Failed(NoBufferSpace)];
    } else {
      ReturnIdle(u);
    }
  }

  lemma GrowReturns(t: State, n: nat)
    requires t.env.frames == [GrowFrame(n)]
    ensures var full := n == t.receiveBufferSize;
            var told := t.env.(frames := [DisconnectFrame], trace := t.env.trace + [Failed(NoBufferSpace)]);
            Next(t, Return)
            == if full && 2 * n > t.receiveLimit > 0 then t.(env := told)
               else t.(env := t.env.(frames := []), receiveBufferSize := if full then 2 * n else t.receiveBufferSize)
  {
    assert t.env.frames[1..] == [] && [DisconnectFrame] + [] == [DisconnectFrame];
    assert NoBufferSpace.Reported();
  }

  /** A send that got through: buffer and bytes_pending are clear. */
  lemma SendIsReported(s: State, result: OpenResult)
    requires DoneFirst(s, SendOp) && s.env.queue[0].ec == NoError && s.env.queue[0].size > 0
    ensures var t := Turn(s, result);
            && t.connected && !t.sending && t.sendBuffer == [] && t.bytesSending == 0
            && t.env == s.env.(queue := s.env.queue[1..],
                               trace := s.env.trace + [Sent(s.env.queue[0].size, FromCompletion)])
  {
    var t := Next(s, Handle(result));
    assert [QuietFrame] + [] == [QuietFrame];
    assert t.env.frames == [QuietFrame];
    ReturnQuiet(t);
    ReturnIdle(Next(t, Return));
  }

  // ------------------------------------------------------------------ the calls

  /** An asynchronous send within the limit is in flight, with its bytes pending;
      one beyond it reports that. */
  lemma SendIsStarted(s: State, data: seq<bv8>)
    requires s.connected && !s.sending && data != []
    ensures var t := Next(s, CallSendAsync(Bytes(data)));
            if |data| > s.sendLimit > 0 then
              Next(t, Return) == s.(env := s.env.(trace := s.env.trace + [Failed(NoBufferSpace)]))
            else
              && t.sending && t.sendBuffer == data && t.bytesSending == |data|
              && t.env == s.env.(inflight := s.env.inflight + [Flight(SendOp, s.env.session)])
  {
    var t := Next(s, CallSendAsync(Bytes(data)));
    if |data| > s.sendLimit > 0 {
      assert t == s.(env := s.env.Call(Failed(NoBufferSpace), QuietFrame));
      assert t.env.frames[1..] == s.env.frames;
    }
  }

  /** An asynchronous receive is in flight. */
  lemma ReceiveIsStarted(s: State)
    requires s.connected && !s.receiving
    ensures var t := Next(s, CallReceiveAsync);
            t == s.(receiving := true, env := s.env.(inflight := s.env.inflight + [Flight(ReceiveOp, s.env.session)]))
  {}

  /** An operation that completes leaves the socket and joins the queue. */
  lemma CompletionIsQueued(s: State, i: nat, ec: ErrorCode, size: nat)
    requires i < |s.env.inflight|
    ensures var f, t := s.env.inflight[i], Next(s, Complete(i, ec, size));
            t == s.(env := s.env.(queue := s.env.queue + [DoneEntry(f.op, f.session, ec, size)],
                                  inflight := s.env.inflight[..i] + s.env.inflight[i + 1..]))
  {}

  /** After DisconnectAsync what was in flight is aborted, and the client has
      disconnected once all that was queued and those aborts have run. */
  lemma DisconnectDisconnects(s: State, steps: seq<Step>) returns (j: nat)
    requires s.connected && Handled(Next(s, CallDisconnectAsync), steps) > |s.env.queue| + |s.env.inflight|
    ensures Next(s, CallDisconnectAsync).env.inflight == []
    ensures j <= |steps| && !Run(Next(s, CallDisconnectAsync), steps[..j]).connected
  {
    j := DisconnectTakesEffect(Next(s, CallDisconnectAsync), |s.env.queue| + |s.env.inflight|, steps);
  }

  /** After ConnectAsync, it has connected, if it can. */
  lemma ConnectConnects(s: State, steps: seq<Step>) returns (j: nat)
    requires !s.connected && !s.socketOpen && s.addressGiven && s.port > 0
    requires Handled(Next(s, CallConnectAsync), steps) > |s.env.queue|
    requires forall k :: 0 <= k < |steps| && steps[k].Handle? ==> steps[k].result.Bound?
    ensures j <= |steps| && Run(Next(s, CallConnectAsync), steps[..j]).connected
  {
    j := ConnectTakesEffect(Next(s, CallConnectAsync), |s.env.queue|, steps);
  }
}
