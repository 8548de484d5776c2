/** The output side of asio::basic_socket_streambuf: characters collect in a put
    area and are pushed through a socket that may accept them piecemeal. */
module SocketStreambuf {

  const BUFFER_SIZE: nat := 512

  /** What one round of the send loop meets: the expiry time has passed, the
      socket accepts some bytes, it would block and is polled, or it fails. */
  datatype Attempt = Expired | Accepted(n: nat) | WouldBlock(pollFails: bool) | Broken

  datatype Char = Eof | Char(c: bv8)

  datatype Error = NoError | TimedOut | SendFailed | PollFailed

  /** No attempt left counts as expired. */
  function Next(net: seq<Attempt>): Attempt { if net == [] then Expired else net[0] }

  function Rest(net: seq<Attempt>): seq<Attempt> { if net == [] then [] else net[1..] }

  /** How many of `size` bytes get through before an attempt ends the loop. */
  function Through(size: nat, net: seq<Attempt>): (n: nat)
    ensures n <= size
    decreases |net|
  {
    if size == 0 || net == [] then 0 else
      match net[0]
      case Expired => 0
      case Broken => 0
      case WouldBlock(pollFails) => if pollFails then 0 else Through(size, net[1..])
      case Accepted(n) => if n >= size then size else if n == 0 then 0 else n + Through(size - n, net[1..])
  }

  /** The attempts that are left when the loop ends. */
  function Left(size: nat, net: seq<Attempt>): seq<Attempt>
    decreases |net|
  {
    if size == 0 || net == [] then net else
      match net[0]
      case Expired => net[1..]
      case Broken => net[1..]
      case WouldBlock(pollFails) => if pollFails then net[1..] else Left(size, net[1..])
      case Accepted(n) => if n >= size || n == 0 then net[1..] else Left(size - n, net[1..])
  }

  /** The error code that the loop leaves. */
  function Ended(size: nat, net: seq<Attempt>, ec: Error): Error
    decreases |net|
  {
    if size == 0 then ec else if net == [] then TimedOut else
      match net[0]
      case Expired => TimedOut
      case Broken => SendFailed
      case WouldBlock(pollFails) => if pollFails then PollFailed else Ended(size, net[1..], NoError)
      case Accepted(n) => if n >= size || n == 0 then NoError else Ended(size - n, net[1..], NoError)
  }

  /** What one round of the loop contributes. */
  lemma LoopStep(size: nat, net: seq<Attempt>)
    requires size > 0
    ensures match Next(net)
            case Accepted(n) =>
              if n == 0 then Through(size, net) == 0 && Left(size, net) == Rest(net)
              else var m := if n <= size then n else size;
                   && Through(size, net) == m + Through(size - m, Rest(net))
                   && Left(size, net) == Left(size - m, Rest(net))
            case WouldBlock(false) =>
              Through(size, net) == Through(size, Rest(net)) && Left(size, net) == Left(size, Rest(net))
            case _ => Through(size, net) == 0 && Left(size, net) == Rest(net)
  {}

  /** And what it does to the error code. */
  lemma LoopError(size: nat, net: seq<Attempt>, ec: Error)
    requires size > 0
    ensures match Next(net)
            case Accepted(n) =>
              Ended(size, net, ec) == if n == 0 || n >= size then NoError else Ended(size - n, Rest(net), NoError)
            case WouldBlock(pollFails) =>
              Ended(size, net, ec) == if pollFails then PollFailed else Ended(size, Rest(net), NoError)
            case Expired => Ended(size, net, ec) == TimedOut
            case Broken => Ended(size, net, ec) == SendFailed
  {}

  /** An attempt that ends the loop. */
  predicate Stops(a: Attempt) {
    match a
    case Expired => true
    case Broken => true
    case WouldBlock(pollFails) => pollFails
    case Accepted(n) => n == 0
  }

  /** What the socket would accept in all before it stops. */
  function Room(net: seq<Attempt>): nat {
    if net == [] || Stops(net[0]) then 0 else (if net[0].Accepted? then net[0].n else 0) + Room(net[1..])
  }

  /** The attempt that stops it, or the clock. */
  function Stop(net: seq<Attempt>): Attempt {
    if net == [] then Expired else if Stops(net[0]) then net[0] else Stop(net[1..])
  }

  /** No error if all gets through, and else the one of the attempt that stopped
      it; a socket that accepts nothing without an error leaves none. */
  lemma {:induction false} ErrorTells(size: nat, net: seq<Attempt>, ec: Error)
    requires size > 0
    ensures Ended(size, net, ec)
            == if size <= Room(net) then NoError
               else match Stop(net)
                    case Expired => TimedOut
                    case Broken => SendFailed
                    case WouldBlock(_) => PollFailed
                    case Accepted(_) => NoError
    decreases |net|
  {
    if net != [] && !Stops(net[0]) {
      if net[0].Accepted? {
        if net[0].n < size { ErrorTells(size - net[0].n, net[1..], NoError); }
      } else {
        ErrorTells(size, net[1..], NoError);
      }
    }
  }

  /** As much as there is room for gets through; waiting costs nothing. */
  lemma {:induction false} ThroughIsRoom(size: nat, net: seq<Attempt>)
    ensures Through(size, net) == if size <= Room(net) then size else Room(net)
    decreases |net|
  {
    if size > 0 && net != [] && !Stops(net[0]) {
      if net[0].Accepted? {
        if net[0].n < size { ThroughIsRoom(size - net[0].n, net[1..]); }
      } else {
        ThroughIsRoom(size, net[1..]);
      }
    }
  }

  lemma Continue(output: seq<bv8>, done: nat, more: nat)
    requires done + more <= |output|
    ensures output[..done] + output[done..][..more] == output[..done + more]
    ensures output[done..][more..] == output[done + more..]
  {}

  // ------------------------------------------------------------------ runs

  datatype Op =
    | Write(c: bv8)           // sputc
    | Flush                   // sync
    | Push(c: bv8)            // overflow called with a character
    | Unbuffer                // setbuf(0, 0)

  /** The put area and its capacity, 0 when unbuffered; everything the socket has
      accepted; the error code; and what the socket will do. */
  datatype Sink = Sink(capacity: nat, area: seq<bv8>, wire: seq<bv8>, ec: Error, net: seq<Attempt>)

  predicate Fits(s: Sink) { |s.area| <= s.capacity }

  /** What `overflow` has to send: the put area, or without a buffer the
      character itself. */
  function Due(s: Sink, c: Char): seq<bv8> {
    if s.capacity > 0 then s.area else if c.Char? then [c.c] else []
  }

  /** `overflow`: if all that is due gets through, the character follows it;
      if not, the put area is kept although part of it may be on the wire. */
  function Pushed(s: Sink, c: Char): (Sink, bool) {
    var due := Due(s, c);
    var n := Through(|due|, s.net);
    var t := s.(wire := s.wire + due[..n], ec := Ended(|due|, s.net, s.ec), net := Left(|due|, s.net));
    if n < |due| then (t, false)
    else (t.(area := if s.capacity > 0 && c.Char? then [c.c] else []), true)
  }

  /** A call, and whether it succeeds. */
  function Apply(s: Sink, op: Op): (Sink, bool) {
    match op
    case Write(c) => if |s.area| < s.capacity then (s.(area := s.area + [c]), true) else Pushed(s, Char(c))
    case Push(c) => Pushed(s, Char(c))
    case Flush => Pushed(s, Eof)
    case Unbuffer => (if s.area == [] then s.(capacity := 0) else s, true)
  }

  /** All calls are made, also those after one that failed. */
  function Run(ops: seq<Op>, net: seq<Attempt>): Sink {
    if ops == [] then Sink(BUFFER_SIZE, [], [], NoError, net)
    else Apply(Run(ops[..|ops| - 1], net), ops[|ops| - 1]).0
  }

  /** Whether call k of the run succeeds. */
  predicate Succeeds(ops: seq<Op>, net: seq<Attempt>, k: nat)
    requires k < |ops|
  {
    Apply(Run(ops[..k], net), ops[k]).1
  }

  function Chars(op: Op): seq<bv8> { if op.Write? || op.Push? then [op.c] else [] }

  /** The characters handed over in calls that succeeded. */
  function Handed(ops: seq<Op>, net: seq<Attempt>): seq<bv8> {
    if ops == [] then [] else
      var n := |ops| - 1;
      Handed(ops[..n], net) + if Succeeds(ops, net, n) then Chars(ops[n]) else []
  }

  /** What the call has to send. */
  function DueFor(s: Sink, op: Op): seq<bv8> {
    match op
    case Write(c) => if |s.area| < s.capacity then [] else Due(s, Char(c))
    case Push(c) => Due(s, Char(c))
    case Flush => Due(s, Eof)
    case Unbuffer => []
  }

  /** The socket takes all that the call has to send, or none of it. */
  predicate AllOrNothing(s: Sink, op: Op) {
    var size := |DueFor(s, op)|;
    Through(size, s.net) == size || Through(size, s.net) == 0
  }

  /** A call fails exactly when the socket does not take all there is to send,
      and then the put area is as it was and a prefix of it is on the wire. */
  lemma FailsExactly(s: Sink, op: Op)
    requires Fits(s)
    ensures Fits(Apply(s, op).0)
    ensures var n := Through(|DueFor(s, op)|, s.net);
            var (t, ok) := Apply(s, op);
            && (ok <==> n == |DueFor(s, op)|)
            && (!ok ==> n <= |s.area| && t.area == s.area && t.capacity == s.capacity && t.wire == s.wire + s.area[..n])
  {}

  lemma {:induction false} RunFits(ops: seq<Op>, net: seq<Attempt>)
    ensures Fits(Run(ops, net))
  {
    if ops != [] {
      RunFits(ops[..|ops| - 1], net);
      FailsExactly(Run(ops[..|ops| - 1], net), ops[|ops| - 1]);
    }
  }

  lemma PushConserves(s: Sink, c: Char)
    requires Fits(s)
    ensures var (t, ok) := Pushed(s, c);
            ok ==> t.wire + t.area == s.wire + s.area + if c.Char? then [c.c] else []
  {
    var due := Due(s, c);
    if Through(|due|, s.net) == |due| { assert due[..|due|] == due; }
  }

  /** A call that succeeds hands over its character and nothing else. */
  lemma SuccessConserves(s: Sink, op: Op)
    requires Fits(s) && Apply(s, op).1
    ensures var t := Apply(s, op).0; t.wire + t.area == s.wire + s.area + Chars(op)
  {
    match op
    case Write(c) =>
      if |s.area| < s.capacity {
        assert s.wire + (s.area + [c]) == s.wire + s.area + [c];
      } else {
        PushConserves(s, Char(c));
      }
    case Push(c) => PushConserves(s, Char(c));
    case Flush => PushConserves(s, Eof);
    case Unbuffer =>
  }

  /** One call, where `w` was handed over before: nothing goes missing, and
      what is there stays what was handed over exactly if it was so before and
      the socket takes all or nothing. */
  lemma StepConserves(s: Sink, op: Op, w: seq<bv8>)
    requires Fits(s) && |s.wire| + |s.area| >= |w|
    ensures var (t, ok) := Apply(s, op);
            var w' := w + if ok then Chars(op) else [];
            && |t.wire| + |t.area| >= |w'|
            && (t.wire + t.area == w' <==> s.wire + s.area == w && AllOrNothing(s, op))
  {
    hide Apply, DueFor;
    FailsExactly(s, op);
    var (t, ok) := Apply(s, op);
    if ok {
      SuccessConserves(s, op);
      CancelRight(s.wire + s.area, w, Chars(op));
      assert |t.wire + t.area| == |s.wire + s.area + Chars(op)|;
    } else {
      assert w + [] == w;
      var n := Through(|DueFor(s, op)|, s.net);
      if n == 0 {
        assert s.wire + s.area[..0] == s.wire;
      } else {
        assert |t.wire + t.area| == |s.wire + s.area| + n > |w|;
      }
    }
  }

  lemma CancelRight(a: seq<bv8>, b: seq<bv8>, c: seq<bv8>)
    ensures a + c == b + c <==> a == b
  {
    if a + c == b + c {
      assert |a + c| == |b + c|;
      assert a == (a + c)[..|a|] && b == (b + c)[..|a|];
    }
  }

  /** In every run: no byte goes missing; and what is on the wire followed by
      the put area is what was handed over, nothing doubled or out of order,
      exactly when in each call the socket took all that was due or none. */
  lemma {:induction false} ConservedExactly(ops: seq<Op>, net: seq<Attempt>)
    ensures var s := Run(ops, net); |s.wire| + |s.area| >= |Handed(ops, net)|
    ensures var s := Run(ops, net);
            s.wire + s.area == Handed(ops, net)
            <==> forall k :: 0 <= k < |ops| ==> AllOrNothing(Run(ops[..k], net), ops[k])
  {
    hide Apply, AllOrNothing;
    if ops != [] {
      var n := |ops| - 1;
      var before := ops[..n];
      ConservedExactly(before, net);
      RunFits(before, net);
      StepConserves(Run(before, net), ops[n], Handed(before, net));
      forall k | 0 <= k < n ensures before[..k] == ops[..k] {}
    }
  }

  /** Up to 512 characters are kept back and nothing is sent. */
  lemma {:induction false} WritesAreKept(ops: seq<Op>, net: seq<Attempt>)
    requires |ops| <= 512 && forall i :: 0 <= i < |ops| ==> ops[i].Write?
    ensures Run(ops, net) == Sink(512, AllChars(ops), [], NoError, net) && |AllChars(ops)| == |ops|
  {
    if ops != [] { WritesAreKept(ops[..|ops| - 1], net); }
  }

  lemma UnbufferedStep(s: Sink, op: Op)
    requires s.area == [] && (s.capacity == 0 || op.Unbuffer?)
    ensures Apply(s, op).0.capacity == 0 && Apply(s, op).0.area == []
  {}

  /** Once buffering is off, it stays off. */
  lemma {:induction false} StaysUnbuffered(ops: seq<Op>, more: seq<Op>, net: seq<Attempt>)
    requires Run(ops, net).area == []
    ensures var s := Run(ops + [Unbuffer] + more, net); s.capacity == 0 && s.area == []
  {
    hide Apply;
    var all := ops + [Unbuffer] + more;
    if more == [] {
      assert all == ops + [Unbuffer] && all[..|all| - 1] == ops;
    } else {
      assert all[..|all| - 1] == ops + [Unbuffer] + more[..|more| - 1];
      StaysUnbuffered(ops, more[..|more| - 1], net);
    }
    UnbufferedStep(Run(all[..|all| - 1], net), all[|all| - 1]);
  }

  /** And then a character is on the wire as soon as it is written. */
  lemma UnbufferedIsImmediate(ops: seq<Op>, more: seq<Op>, c: bv8, net: seq<Attempt>)
    requires Run(ops, net).area == []
    ensures var before := ops + [Unbuffer] + more;
            var after := before + [Write(c)];
            Run(after, net).wire == Run(before, net).wire + if Succeeds(after, net, |before|) then [c] else []
  {
    var before := ops + [Unbuffer] + more;
    var after := before + [Write(c)];
    StaysUnbuffered(ops, more, net);
    assert after[..|before|] == before;
    assert [c][..0] == [] && [c][..1] == [c];
  }

  /** A flush of two bytes of which the first gets through, and then another. */
  lemma TwoFlushes(c: bv8, d: bv8)
    ensures var net := [Accepted(1), Broken, Accepted(2)];
            var s := Sink(BUFFER_SIZE, [c, d], [c], SendFailed, [Accepted(2)]);
            && Apply(Sink(BUFFER_SIZE, [c, d], [], NoError, net), Flush) == (s, false)
            && Apply(s, Flush) == (Sink(BUFFER_SIZE, [], [c, c, d], NoError, []), true)
            && Through(2, net) == 1
  {
    var net := [Accepted(1), Broken, Accepted(2)];
    assert net[1..] == [Broken, Accepted(2)] && net[1..][1..] == [Accepted(2)] && [Accepted(2)][1..] == [];
    assert Through(2, net) == 1 + Through(1, net[1..]) == 1 && Left(2, net) == Left(1, net[1..]) == [Accepted(2)];
    assert Ended(2, net, NoError) == Ended(1, net[1..], NoError) == SendFailed;
    assert Through(2, [Accepted(2)]) == 2 && Left(2, [Accepted(2)]) == [];
    assert [] + [c, d][..1] == [c] && [c, d][..2] == [c, d] && [c] + [c, d] == [c, c, d];
    var t := Sink(BUFFER_SIZE, [c, d], [], NoError, net);
    assert Due(t, Eof) == [c, d] && t.wire + Due(t, Eof)[..1] == [c];
  }

  /** A failing flush that gets part of the put area through makes the next one
      send that part again. */
  lemma SentTwice(c: bv8, d: bv8)
    ensures var ops := [Write(c), Write(d), Flush, Flush];
            var net := [Accepted(1), Broken, Accepted(2)];
            && Run(ops, net) == Sink(BUFFER_SIZE, [], [c, c, d], NoError, [])
            && Handed(ops, net) == [c, d]
            && !AllOrNothing(Run(ops[..2], net), ops[2])
  {
    var ops := [Write(c), Write(d), Flush, Flush];
    var net := [Accepted(1), Broken, Accepted(2)];
    assert ops[..3][..2] == ops[..2] && ops[..2][..1] == ops[..1] && ops[..1][..0] == [];
    hide Pushed;
    TwoFlushes(c, d);
    assert Run(ops[..1], net) == Sink(BUFFER_SIZE, [c], [], NoError, net);
    assert Run(ops[..2], net) == Sink(BUFFER_SIZE, [c, d], [], NoError, net);
    assert Run(ops[..3], net) == Sink(BUFFER_SIZE, [c, d], [c], SendFailed, [Accepted(2)]) && ops[..4] == ops;
    assert Handed(ops[..1], net) == [c] && Handed(ops[..2], net) == [c, d] && Handed(ops[..3], net) == [c, d];
  }

  // --------------------------------------------------------------- the object

  class BasicSocketStreambuf {
    var putBuffer: array<bv8>
    var pptr: nat
    var ec: Error
    var wire: seq<bv8>           // everything the socket has accepted

    ghost predicate Valid()
      reads this
    {
      pptr <= putBuffer.Length
    }

    ghost function View(net: seq<Attempt>): Sink
      requires Valid()
      reads this, putBuffer
    {
      Sink(putBuffer.Length, putBuffer[..pptr], wire, ec, net)
    }

    constructor ()
      ensures Valid() && fresh(putBuffer) && forall net :: View(net) == Sink(BUFFER_SIZE, [], [], NoError, net)
    {
      putBuffer := new bv8[BUFFER_SIZE](_ => 0);
      pptr, ec, wire := 0, NoError, [];
    }

    /** The loop of `overflow`: sends a prefix, all of it if it ends well. */
    method SendLoop(output0: seq<bv8>, net0: seq<Attempt>) returns (accepted: nat, net: seq<Attempt>)
      modifies this`wire, this`ec
      ensures accepted == Through(|output0|, net0) && net == Left(|output0|, net0)
      ensures ec == Ended(|output0|, net0, old(ec))
      ensures wire == old(wire) + output0[..accepted]
    {
      var output := output0;
      net := net0;
      accepted := 0;
      while |output| > 0
        invariant accepted <= |output0| && output == output0[accepted..]
        invariant wire == old(wire) + output0[..accepted]
        invariant accepted + Through(|output|, net) == Through(|output0|, net0)
        invariant Left(|output|, net) == Left(|output0|, net0)
        invariant Ended(|output|, net, ec) == Ended(|output0|, net0, old(ec))
        decreases |net|, |output|
      {
        LoopStep(|output|, net);
        LoopError(|output|, net, ec);
        var attempt := Next(net);
        net := Rest(net);
        match attempt {
          case Expired =>
            ec := TimedOut;
            return;
          case Accepted(n) =>
            ec := NoError;
            if n == 0 { return; }
            var bytes := if n <= |output| then n else |output|;
            wire := wire + output[..bytes];
            accepted := accepted + bytes;
            output := output[bytes..];
            Continue(output0, accepted - bytes, bytes);
          case WouldBlock(pollFails) =>
            ec := if pollFails then PollFailed else NoError;
            if pollFails { return; }
          case Broken =>
            ec := SendFailed;
            return;
        }
      }
    }

    method Overflow(c: Char, net0: seq<Attempt>) returns (ok: bool, net: seq<Attempt>)
      requires Valid()
      modifies this, putBuffer
      ensures Valid() && putBuffer == old(putBuffer)
      ensures (View(net), ok) == Pushed(old(View(net0)), c)
    {
      net := net0;
      var output;
      assert wire + Due(View(net0), c)[..0] == wire;
      if putBuffer.Length == 0 {
        if c.Eof? { return true, net; }
        output := [c.c];
      } else {
        output := putBuffer[..pptr];
      }
      var accepted;
      accepted, net := SendLoop(output, net);
      if accepted < |output| { return false, net; }
      assert output[..accepted] == output == Due(old(View(net0)), c);
      if putBuffer.Length != 0 {
        pptr := 0;
        if c.Eof? { return true, net; }
        putBuffer[0] := c.c;
        pptr := 1;
        assert putBuffer[..pptr] == [c.c];
      }
      return true, net;
    }

    method Sync(net0: seq<Attempt>) returns (ok: bool, net: seq<Attempt>)
      requires Valid()
      modifies this, putBuffer
      ensures Valid() && putBuffer == old(putBuffer)
      ensures (View(net), ok) == Apply(old(View(net0)), Flush)
    {
      ok, net := Overflow(Eof, net0);
    }

    /** Turns buffering off if the caller passes a null buffer of size 0 and
        nothing is pending; otherwise does nothing. */
    method SetBuf(isNull: bool, n: int, ghost net0: seq<Attempt>) returns (done: bool)
      requires Valid()
      modifies this, putBuffer
      ensures Valid() && (putBuffer == old(putBuffer) || fresh(putBuffer))
      ensures done <==> old(pptr) == 0 && isNull && n == 0
      ensures View(net0) == if isNull && n == 0 then Apply(old(View(net0)), Unbuffer).0 else old(View(net0))
    {
      if pptr == 0 && isNull && n == 0 {
        putBuffer := new bv8[0];
        pptr := 0;
        var ok, net := Sync([]);
        return true;
      }
      return false;
    }

    /** sputc of std::streambuf: store the character if there is room. */
    method PutChar(c: bv8, net0: seq<Attempt>) returns (ok: bool, net: seq<Attempt>)
      requires Valid()
      modifies this, putBuffer
      ensures Valid() && putBuffer == old(putBuffer)
      ensures (View(net), ok) == Apply(old(View(net0)), Write(c))
    {
      net := net0;
      if pptr < putBuffer.Length {
        putBuffer[pptr] := c;
        pptr := pptr + 1;
        assert putBuffer[..pptr] == old(putBuffer[..pptr]) + [c];
        return true, net;
      }
      ok, net := Overflow(Char(c), net0);
    }
  }

  method Perform(b: BasicSocketStreambuf, op: Op, net0: seq<Attempt>) returns (ok: bool, net: seq<Attempt>)
    requires b.Valid()
    modifies b, b.putBuffer
    ensures b.Valid() && (b.putBuffer == old(b.putBuffer) || fresh(b.putBuffer))
    ensures (b.View(net), ok) == Apply(old(b.View(net0)), op)
  {
    ok, net := true, net0;
    match op {
      case Write(c) => ok, net := b.PutChar(c, net0);
      case Push(c) => ok, net := b.Overflow(Char(c), net0);
      case Flush => ok, net := b.Sync(net0);
      case Unbuffer => var done := b.SetBuf(true, 0, net0);
    }
  }

  /** Every run of the object, however the socket cuts up its sends and in
      either mode, goes on after failures and is the run of the sink; if no
      call fails, all characters are on the wire or in the put area. */
  method Drive(ops: seq<Op>, net0: seq<Attempt>) returns (b: BasicSocketStreambuf, oks: seq<bool>, net: seq<Attempt>)
    ensures fresh(b) && b.Valid() && b.View(net) == Run(ops, net0)
    ensures |oks| == |ops| && forall k :: 0 <= k < |ops| ==> oks[k] == Succeeds(ops, net0, k)
    ensures false !in oks ==> b.wire + b.putBuffer[..b.pptr] == AllChars(ops)
  {
    hide Apply;
    b := new BasicSocketStreambuf();
    oks, net := [], net0;
    for i := 0 to |ops|
      invariant fresh(b) && fresh(b.putBuffer) && b.Valid() && b.View(net) == Run(ops[..i], net0)
      invariant |oks| == i && forall k :: 0 <= k < i ==> oks[k] == Succeeds(ops, net0, k)
    {
      assert ops[..i + 1][..i] == ops[..i];
      var ok;
      ok, net := Perform(b, ops[i], net);
      oks := oks + [ok];
    }
    assert ops[..|ops|] == ops;
    if false !in oks { AllSucceed(ops, net0); }
  }

  function AllChars(ops: seq<Op>): seq<bv8> {
    if ops == [] then [] else AllChars(ops[..|ops| - 1]) + Chars(ops[|ops| - 1])
  }

  lemma {:induction false} AllSucceed(ops: seq<Op>, net: seq<Attempt>)
    requires forall k :: 0 <= k < |ops| ==> Succeeds(ops, net, k)
    ensures var s := Run(ops, net); s.wire + s.area == AllChars(ops) == Handed(ops, net)
  {
    if ops != [] {
      var n := |ops| - 1;
      assert forall k :: 0 <= k < n ==> ops[..n][..k] == ops[..k];
      forall k | 0 <= k < n ensures Succeeds(ops[..n], net, k) { assert Succeeds(ops, net, k); }
      AllSucceed(ops[..n], net);
      RunFits(ops[..n], net);
      assert Succeeds(ops, net, n);
      SuccessConserves(Run(ops[..n], net), ops[n]);
    }
  }
}
