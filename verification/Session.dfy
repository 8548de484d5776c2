/** What the UDP server and the UDP client share: a FIFO of posted handlers and
    completions, the socket's operations in flight, and the callbacks made so
    far. Handlers run one at a time, in the order in which they were queued;
    closing or cancelling a socket queues its aborted completions at once. */
module Session {

  datatype ErrorCode =
    | NoError
    | ConnectionAborted | ConnectionRefused | ConnectionReset | Eof | OperationAborted
    | NoBufferSpace
    | OtherError(code: int)
  {
    /** SendError drops five codes and passes every other one to onError. */
    predicate Reported() {
      this !in {NoError, ConnectionAborted, ConnectionRefused, ConnectionReset, Eof, OperationAborted}
    }
  }

  /** The errors that are not passed on. */
  predicate Dropped(ec: ErrorCode) {
    ec in {ConnectionAborted, ConnectionRefused, ConnectionReset, Eof, OperationAborted}
  }

  /** The pointer and the size handed to a call. */
  datatype Payload = NullPointer(size: nat) | Bytes(data: seq<bv8>)
  {
    function Size(): nat { if Bytes? then |data| else size }
  }

  /** How opening and binding the socket ends. Opening an open socket fails. */
  datatype OpenResult = Bound(bufferSize: nat) | NotOpened | NotBound

  datatype Op = ReceiveOp | SendOp

  /** An operation started on the socket in the numbered session. */
  datatype Flight = Flight(op: Op, session: nat)

  /** A posted start (connect) handler, a posted stop (disconnect) handler, or
      the completion of an operation. */
  datatype Entry = OpenEntry | CloseEntry(session: nat) | DoneEntry(op: Op, session: nat, ec: ErrorCode, size: nat)

  /** What makes the object report a receive or a send: a synchronous call, the
      completion of an asynchronous one, or an error, reported with size 0. */
  datatype Origin = FromCall | FromCompletion | FromError

  datatype Event =
    | Opened
    | Closed
    | Received(size: nat, origin: Origin)
    | Sent(size: nat, origin: Origin)
    | Failed(ec: ErrorCode)

  /** `frames` holds, for each callback that has not returned, what the handler or
      call that made it still has to do after it, innermost first. */
  datatype Env<F> = Env(queue: seq<Entry>, inflight: seq<Flight>, frames: seq<F>, session: nat, trace: seq<Event>)
  {
    function Post(e: Entry): Env<F> { this.(queue := queue + [e]) }

    function Emit(e: Event): Env<F> { this.(trace := trace + [e]) }

    function Push(f: F): Env<F> { this.(frames := [f] + frames) }

    /** A callback begins, and `f` is left to do once it returns. */
    function Call(e: Event, f: F): Env<F> { Emit(e).Push(f) }

    function Launch(op: Op): Env<F> { this.(inflight := inflight + [Flight(op, session)]) }

    function Pop(): Env<F>
      requires queue != []
    {
      this.(queue := queue[1..])
    }

    function Cancel(): Env<F> { this.(queue := queue + Aborts(inflight), inflight := []) }

    /** The i-th operation in flight completes. */
    function Complete(i: nat, ec: ErrorCode, size: nat): Env<F>
      requires i < |inflight|
    {
      this.(queue := queue + [DoneEntry(inflight[i].op, inflight[i].session, ec, size)],
            inflight := inflight[..i] + inflight[i + 1..])
    }
  }

  function Aborts(fs: seq<Flight>): (es: seq<Entry>)
    ensures |es| == |fs|
    ensures forall i :: 0 <= i < |es| ==> es[i] == DoneEntry(fs[i].op, fs[i].session, OperationAborted, 0)
  {
    seq(|fs|, i requires 0 <= i < |fs| => DoneEntry(fs[i].op, fs[i].session, OperationAborted, 0))
  }

  // ------------------------------------------------------------- counting

  function Queued(q: seq<Entry>, op: Op): nat {
    if q == [] then 0 else (if q[0].DoneEntry? && q[0].op == op then 1 else 0) + Queued(q[1..], op)
  }

  function Flying(fs: seq<Flight>, op: Op): nat {
    if fs == [] then 0 else (if fs[0].op == op then 1 else 0) + Flying(fs[1..], op)
  }

  lemma {:induction false} QueuedConcat(q: seq<Entry>, r: seq<Entry>, op: Op)
    ensures Queued(q + r, op) == Queued(q, op) + Queued(r, op)
  {
    if q == [] {
      assert q + r == r;
    } else {
      assert (q + r)[1..] == q[1..] + r;
      QueuedConcat(q[1..], r, op);
    }
  }

  lemma QueuedOne(e: Entry, op: Op)
    ensures Queued([e], op) == if e.DoneEntry? && e.op == op then 1 else 0
  {
    assert [e][1..] == [];
  }

  lemma {:induction false} FlyingConcat(fs: seq<Flight>, gs: seq<Flight>, op: Op)
    ensures Flying(fs + gs, op) == Flying(fs, op) + Flying(gs, op)
  {
    if fs == [] {
      assert fs + gs == gs;
    } else {
      assert (fs + gs)[1..] == fs[1..] + gs;
      FlyingConcat(fs[1..], gs, op);
    }
  }

  lemma FlyingOne(f: Flight, op: Op)
    ensures Flying([f], op) == if f.op == op then 1 else 0
  {
    assert [f][1..] == [];
  }

  lemma {:induction false} QueuedAborts(fs: seq<Flight>, op: Op)
    ensures Queued(Aborts(fs), op) == Flying(fs, op)
  {
    if fs != [] {
      QueuedAborts(fs[1..], op);
      assert Aborts(fs)[1..] == Aborts(fs[1..]);
    }
  }

  /** Operations of a kind that have been started and not yet handled. */
  function Pending<F>(env: Env<F>, op: Op): nat {
    Queued(env.queue, op) + Flying(env.inflight, op)
  }

  // ------------------------------------------------------ the session order

  predicate OpensFirst(q: seq<Entry>) {
    forall i, j :: 0 <= i < j < |q| && q[j].OpenEntry? ==> q[i].OpenEntry?
  }

  predicate OpensLast(q: seq<Entry>) {
    forall i, j :: 0 <= i < j < |q| && q[i].OpenEntry? ==> q[j].OpenEntry?
  }

  predicate NoOpens(q: seq<Entry>) {
    forall i :: 0 <= i < |q| ==> !q[i].OpenEntry?
  }

  predicate AllCurrent(q: seq<Entry>, session: nat) {
    forall i :: 0 <= i < |q| && !q[i].OpenEntry? ==> q[i].session == session
  }

  predicate AllLaunchedIn(fs: seq<Flight>, session: nat) {
    forall i :: 0 <= i < |fs| ==> fs[i].session == session
  }

  function One(b: bool): nat { if b then 1 else 0 }

  /** The order of the queue, rather than the flags alone, separates sessions.
      Whatever is queued or in flight belongs to the last session. While it is
      open, left-over start handlers come before everything else; once it is
      closed, whatever is left of it comes before every start handler. */
  predicate Steady<F>(env: Env<F>, open: bool, receiving: bool, sending: bool) {
    && AllCurrent(env.queue, env.session)
    && AllLaunchedIn(env.inflight, env.session)
    && if open then
         OpensFirst(env.queue) && Pending(env, ReceiveOp) == One(receiving) && Pending(env, SendOp) == One(sending)
       else
         OpensLast(env.queue) && env.inflight == [] && !receiving && !sending
  }

  lemma PostOpenSteady<F>(env: Env<F>)
    requires Steady(env, false, false, false)
    ensures Steady(env.Post(OpenEntry), false, false, false)
  {}

  lemma PostCloseSteady<F>(env: Env<F>, r: bool, s: bool)
    requires Steady(env, true, r, s)
    ensures Steady(env.Post(CloseEntry(env.session)), true, r, s)
  {
    forall op: Op ensures Pending(env.Post(CloseEntry(env.session)), op) == Pending(env, op) {
      QueuedConcat(env.queue, [CloseEntry(env.session)], op);
      QueuedOne(CloseEntry(env.session), op);
    }
  }

  lemma LaunchSteady<F>(env: Env<F>, r: bool, s: bool, op: Op)
    requires Steady(env, true, r, s) && !(if op == ReceiveOp then r else s)
    ensures Steady(env.Launch(op), true, r || op == ReceiveOp, s || op == SendOp)
  {
    forall o: Op ensures Pending(env.Launch(op), o) == Pending(env, o) + One(o == op) {
      FlyingConcat(env.inflight, [Flight(op, env.session)], o);
      FlyingOne(Flight(op, env.session), o);
    }
  }

  lemma CompletePending<F>(env: Env<F>, i: nat, ec: ErrorCode, size: nat, o: Op)
    requires i < |env.inflight|
    ensures Pending(env.Complete(i, ec, size), o) == Pending(env, o)
  {
    var fs := env.inflight;
    var e := DoneEntry(fs[i].op, fs[i].session, ec, size);
    assert fs == fs[..i] + [fs[i]] + fs[i + 1..];
    FlyingConcat(fs[..i] + [fs[i]], fs[i + 1..], o);
    FlyingConcat(fs[..i], [fs[i]], o);
    FlyingConcat(fs[..i], fs[i + 1..], o);
    FlyingOne(fs[i], o);
    QueuedConcat(env.queue, [e], o);
    QueuedOne(e, o);
  }

  lemma CompleteSteady<F>(env: Env<F>, open: bool, r: bool, s: bool, i: nat, ec: ErrorCode, size: nat)
    requires Steady(env, open, r, s) && i < |env.inflight|
    ensures Steady(env.Complete(i, ec, size), open, r, s)
  {
    CompletePending(env, i, ec, size, ReceiveOp);
    CompletePending(env, i, ec, size, SendOp);
  }

  lemma CancelSteady<F>(env: Env<F>, r: bool, s: bool)
    requires Steady(env, true, r, s)
    ensures Steady(env.Cancel(), true, r, s)
    ensures NoOpens(env.queue) ==> NoOpens(env.Cancel().queue)
  {
    forall op: Op ensures Pending(env.Cancel(), op) == Pending(env, op) {
      QueuedConcat(env.queue, Aborts(env.inflight), op);
      QueuedAborts(env.inflight, op);
    }
  }

  lemma PopPending<F>(env: Env<F>, op: Op)
    requires env.queue != []
    ensures Pending(env, op) == Pending(env.Pop(), op) + One(env.queue[0].DoneEntry? && env.queue[0].op == op)
  {}

  /** A completion at the head is handled: its flag goes down. While a session
      is open it is one of that session, and the flag was up. */
  lemma PopDoneSteady<F>(env: Env<F>, open: bool, r: bool, s: bool)
    requires Steady(env, open, r, s) && env.queue != [] && env.queue[0].DoneEntry?
    ensures var op := env.queue[0].op;
            Steady(env.Pop(), open, r && op != ReceiveOp, s && op != SendOp)
    ensures env.queue[0].session == env.session && (open ==> NoOpens(env.Pop().queue))
    ensures open ==> (if env.queue[0].op == ReceiveOp then r else s)
  {
  }

  /** A start handler found running already, or a stop handler too late. */
  lemma PopIdleSteady<F>(env: Env<F>, open: bool, r: bool, s: bool)
    requires Steady(env, open, r, s) && env.queue != []
    requires if open then env.queue[0].OpenEntry? else env.queue[0].CloseEntry?
    ensures Steady(env.Pop(), open, r, s)
  {
    PopPending(env, ReceiveOp);
    PopPending(env, SendOp);
  }

  /** A stop handler at the head of the queue of an open session. */
  lemma PopCloseSteady<F>(env: Env<F>, r: bool, s: bool)
    requires Steady(env, true, r, s) && env.queue != [] && env.queue[0].CloseEntry?
    ensures Steady(env.Pop(), true, r, s) && NoOpens(env.Pop().queue)
  {
    PopPending(env, ReceiveOp);
    PopPending(env, SendOp);
    assert forall i :: 0 <= i < |env.Pop().queue| ==> env.Pop().queue[i] == env.queue[i + 1];
  }

  /** Closing: the aborted completions are queued before any later start. */
  lemma CloseSteady<F>(env: Env<F>, r: bool, s: bool)
    requires Steady(env, true, r, s) && NoOpens(env.queue)
    ensures Steady(env.Cancel(), false, false, false)
  {}

  /** Opening: a start handler can only be at the head once everything of the
      earlier sessions has been handled. */
  lemma OpenSteady<F>(env: Env<F>)
    requires Steady(env, false, false, false) && env.queue != [] && env.queue[0].OpenEntry?
    ensures var e := env.Pop().(session := env.session + 1); Steady(e, true, false, false)
    ensures Steady(env.Pop(), false, false, false)
  {
    OnlyOpensPending(env.Pop().queue, ReceiveOp);
    OnlyOpensPending(env.Pop().queue, SendOp);
  }

  lemma {:induction false} OnlyOpensPending(q: seq<Entry>, op: Op)
    requires forall i :: 0 <= i < |q| ==> q[i].OpenEntry?
    ensures Queued(q, op) == 0
  {
    if q != [] { OnlyOpensPending(q[1..], op); }
  }

  // ------------------------------------------------------------ callbacks

  /** A prefix of (Opened (Received | Sent | Failed)* Closed)*: an event is
      Opened exactly when it is the first one or follows Closed. */
  predicate Bracketed(t: seq<Event>) {
    forall i :: 0 <= i < |t| ==> InPlace(t, i)
  }

  predicate InPlace(t: seq<Event>, i: nat)
    requires i < |t|
  {
    t[i].Opened? <==> i == 0 || t[i - 1].Closed?
  }

  predicate Inside(t: seq<Event>) { t != [] && !t[|t| - 1].Closed? }

  /** The sizes of the datagrams received, and sent, since the last start. */
  function ReceivedSince(t: seq<Event>): seq<nat> {
    if t == [] || t[|t| - 1].Opened? then [] else
      var e := t[|t| - 1];
      ReceivedSince(t[..|t| - 1]) + if e.Received? && e.origin != FromError then [e.size] else []
  }

  function SentSince(t: seq<Event>): seq<nat> {
    if t == [] || t[|t| - 1].Opened? then [] else
      var e := t[|t| - 1];
      SentSince(t[..|t| - 1]) + if e.Sent? && e.origin != FromError then [e.size] else []
  }

  lemma SinceSnoc(t: seq<Event>, e: Event)
    ensures ReceivedSince(t + [e]) == if e.Opened? then [] else
              ReceivedSince(t) + if e.Received? && e.origin != FromError then [e.size] else []
    ensures SentSince(t + [e]) == if e.Opened? then [] else
              SentSince(t) + if e.Sent? && e.origin != FromError then [e.size] else []
  {
    assert (t + [e])[..|t|] == t;
  }

  function Total(sizes: seq<nat>): nat {
    if sizes == [] then 0 else Total(sizes[..|sizes| - 1]) + sizes[|sizes| - 1]
  }

  lemma TotalOne(n: nat)
    ensures Total([n]) == n
  {
    assert [n][..0] == [];
  }

  lemma {:induction false} TotalConcat(a: seq<nat>, b: seq<nat>)
    ensures Total(a + b) == Total(a) + Total(b)
  {
    if b == [] {
      assert a + b == a;
    } else {
      assert (a + b)[..|a + b| - 1] == a + b[..|b| - 1];
      TotalConcat(a, b[..|b| - 1]);
    }
  }

  datatype Counter = BytesIn | BytesOut | DatagramsIn | DatagramsOut

  /** What a callback adds to a counter. Synchronous and asynchronous receives
      count as datagrams, but only synchronous sends do. */
  function Share(e: Event, k: Counter): nat {
    match k
    case BytesIn => if e.Received? then e.size else 0
    case BytesOut => if e.Sent? then e.size else 0
    case DatagramsIn => if e.Received? && e.origin != FromError then 1 else 0
    case DatagramsOut => if e.Sent? && e.origin == FromCall then 1 else 0
  }

  /** The total since the last start. */
  function Since(t: seq<Event>, k: Counter): nat {
    if t == [] || t[|t| - 1].Opened? then 0 else Since(t[..|t| - 1], k) + Share(t[|t| - 1], k)
  }

  const WORD: nat := 0x1_0000_0000_0000_0000

  /** Unsigned 64-bit addition. */
  function Add64(a: nat, b: nat): nat { (a + b) % WORD }

  /** The counters of the object. */
  datatype Counts = Counts(bytesIn: nat, bytesOut: nat, datagramsIn: nat, datagramsOut: nat)
  {
    function Get(k: Counter): nat {
      match k
      case BytesIn => bytesIn
      case BytesOut => bytesOut
      case DatagramsIn => datagramsIn
      case DatagramsOut => datagramsOut
    }
  }

  predicate AddUp(t: seq<Event>, c: Counts) {
    forall k: Counter :: c.Get(k) == Since(t, k) % WORD
  }

  /** The callback trace against the flag and the counters. */
  predicate Accounts(t: seq<Event>, open: bool, c: Counts) {
    Bracketed(t) && (Inside(t) <==> open) && (open ==> AddUp(t, c))
  }

  lemma BracketedAppend(t: seq<Event>, e: Event)
    requires Bracketed(t) && (e.Opened? <==> !Inside(t))
    ensures Bracketed(t + [e])
  {
    var u := t + [e];
    forall i | 0 <= i < |u| ensures InPlace(u, i) {
      if i < |t| { assert InPlace(t, i); }
    }
  }

  lemma EmitOpened(t: seq<Event>, c: Counts)
    requires Accounts(t, false, c)
    ensures Accounts(t + [Opened], true, Counts(0, 0, 0, 0))
  {
    BracketedAppend(t, Opened);
  }

  lemma EmitClosed(t: seq<Event>, c: Counts, c': Counts)
    requires Accounts(t, true, c)
    ensures Accounts(t + [Closed], false, c')
  {
    BracketedAppend(t, Closed);
  }

  lemma EmitInside(t: seq<Event>, c: Counts, e: Event, c': Counts)
    requires Accounts(t, true, c) && !e.Opened? && !e.Closed?
    requires forall k: Counter :: c'.Get(k) == Add64(c.Get(k), Share(e, k))
    ensures Accounts(t + [e], true, c')
  {
    BracketedAppend(t, e);
    assert (t + [e])[..|t|] == t;
    forall k: Counter ensures c'.Get(k) == Since(t + [e], k) % WORD {
      AddModulo(Since(t, k), Share(e, k));
    }
  }

  lemma AddModulo(a: nat, b: nat)
    ensures Add64(a % WORD, b) == (a + b) % WORD
  {}

  lemma NothingAdded(x: nat)
    requires x < WORD
    ensures (x + Total([])) % WORD == x && (x + 0) % WORD == x
  {}

  /** A counter that was right stays right. */
  lemma Carry(a: nat, b: nat, x: nat, y: nat)
    requires x == a % WORD && y == (x + b) % WORD
    ensures y == (a + b) % WORD
  {
    AddModulo(a, b);
  }

  /** Callbacks that no counter follows. */
  lemma EmitQuiet(t: seq<Event>, c: Counts, e: Event)
    requires Accounts(t, true, c)
    requires e.Failed? || e == Received(0, FromError) || e == Sent(0, FromError)
    ensures Accounts(t + [e], true, c)
  {
    forall k: Counter ensures c.Get(k) == Add64(c.Get(k), Share(e, k)) {
      assert c.Get(k) == Since(t, k) % WORD;
    }
    EmitInside(t, c, e, c);
  }
}
