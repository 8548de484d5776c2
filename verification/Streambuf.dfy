/** asio::basic_streambuf: one array with get and put positions that shifts and
    grows, against a byte queue of bounded length. */
module Streambuf {
  import opened Numbers

  const BUFFER_DELTA: nat := 128
  const INT_MAX: nat := 0x7fff_ffff

  /** The conversion to int that pbump and gbump receive. */
  function ToInt(n: nat): int {
    var m := n % 0x1_0000_0000;
    if m <= INT_MAX then m else m - 0x1_0000_0000
  }

  lemma ToIntExact(n: nat)
    ensures ToInt(n) == n <==> n <= INT_MAX
  {}

  /** What is left in place of the contents when `reserve` throws after moving
      them `g` positions down without moving the pointers. */
  function Smeared(c: seq<bv8>, g: nat): (r: seq<bv8>)
    ensures |r| == |c|
    ensures g == 0 ==> r == c
  {
    seq(|c|, k requires 0 <= k < |c| => if g + k < |c| then c[g + k] else c[k])
  }

  datatype Char = Eof | Char(c: bv8)

  datatype Put = Put(r: Char) | LengthError

  /** Positions are offsets from the start of the buffer. */
  class BasicStreambuf {
    const maxSize: nat
    var buffer: array<bv8>
    var gptr: int
    var egptr: int
    var pptr: int
    var epptr: int

    ghost predicate Valid()
      reads this
    {
      0 <= gptr <= egptr <= pptr <= epptr <= maxSize && buffer.Length == Max(epptr, 1)
    }

    function Size(): int
      reads this
    {
      pptr - gptr
    }

    /** The input sequence: the queue. */
    ghost function Contents(): seq<bv8>
      requires Valid()
      reads this, buffer
    {
      buffer[gptr..pptr]
    }

    /** The output sequence: room for what is written next. */
    ghost function Output(): seq<bv8>
      requires Valid()
      reads this, buffer
    {
      buffer[pptr..epptr]
    }

    ghost function View(): Queue
      requires Valid()
      reads this, buffer
    {
      Queue(Contents(), Output())
    }

    constructor (maximumSize: nat)
      ensures Valid() && fresh(buffer) && maxSize == maximumSize && Contents() == []
      ensures gptr == 0 && |Output()| == Min(maximumSize, 128)
    {
      maxSize := maximumSize;
      var pend := Min(maximumSize, BUFFER_DELTA);
      buffer := new bv8[Max(pend, 1)](_ => 0);
      gptr, egptr, pptr, epptr := 0, 0, 0, pend;
    }

    /** memmove(&buffer[0], &buffer[0] + g, n) */
    method Shift(g: nat, n: nat)
      requires g + n <= buffer.Length
      modifies buffer
      ensures buffer[..n] == old(buffer[g..g + n])
      ensures buffer[n..] == old(buffer[n..])
    {
      forall i | 0 <= i < n { buffer[i] := buffer[g + i]; }
    }

    /** buffer_.resize(n), keeping the first bytes and adding zeros. */
    method Resize(n: nat)
      requires n >= buffer.Length
      modifies this`buffer
      ensures fresh(buffer) && buffer.Length == n
      ensures buffer[..old(buffer).Length] == old(buffer[..])
    {
      var bigger := new bv8[n](_ => 0);
      forall i | 0 <= i < buffer.Length { bigger[i] := buffer[i]; }
      buffer := bigger;
    }

    /** Throws exactly when size() + n > max_size(). A call that does not throw
        keeps the contents and leaves room for n; one that throws has already
        moved the bytes but not the pointers. */
    method Reserve(n: nat) returns (ok: bool)
      requires Valid()
      modifies this, buffer
      ensures Valid() && (buffer == old(buffer) || fresh(buffer))
      ensures ok <==> old(Size()) + n <= maxSize
      ensures ok ==> Contents() == old(Contents()) && n <= epptr - pptr
      ensures ok && n <= old(epptr - pptr) ==> Output() == old(Output())
      ensures !ok ==> (gptr, egptr, pptr, epptr, buffer) == old((gptr, egptr, pptr, epptr, buffer))
      ensures !ok ==> Contents() == Smeared(old(Contents()), gptr)
    {
      hide Smeared;
      var gnext: nat, pnext: nat, pend: nat := gptr, pptr, epptr;
      if n <= pend - pnext { return true; }
      if gnext > 0 {
        pnext := pnext - gnext;
        Shift(gnext, pnext);
      }
      assert buffer[..pnext] == old(Contents());
      if n > pend - pnext {
        if n <= maxSize && pnext <= maxSize - n {
          pend := pnext + n;
          Resize(Max(pend, 1));
        } else {
          SmearedContents(old(buffer[..]), buffer[..], gptr, pptr);
          return false;
        }
      }
      assert buffer[..pnext] == old(Contents());
      gptr, egptr := 0, pnext;
      pptr, epptr := pnext, pend;
      return true;
    }

    /** The caller's bytes at the start of the output sequence. */
    method WriteOutput(data: seq<bv8>)
      requires Valid() && |data| <= epptr - pptr
      modifies buffer
      ensures Contents() == old(Contents()) && Output() == data + old(Output())[|data|..]
    {
      forall i | 0 <= i < |data| { buffer[pptr + i] := data[i]; }
    }

    method Prepare(n: nat) returns (ok: bool)
      requires Valid()
      modifies this, buffer
      ensures Valid() && (buffer == old(buffer) || fresh(buffer))
      ensures ok <==> old(Size()) + n <= maxSize
      ensures ok ==> Contents() == old(Contents()) && n <= |Output()|
      ensures ok && n <= old(|Output()|) ==> Output() == old(Output())
      ensures !ok ==> gptr == old(gptr) && Contents() == Smeared(old(Contents()), gptr)
    {
      ok := Reserve(n);
    }

    /** Appends the first n bytes of the output sequence, or all of it. The int
        conversion makes this exact up to INT_MAX bytes and wrong above. */
    method Commit(n: nat)
      requires Valid()
      modifies this`pptr, this`egptr
      ensures var m := old(Min(n, epptr - pptr));
              && (Size() == old(Size()) + m <==> m <= 0x7fff_ffff)
              && (m <= 0x7fff_ffff ==>
                    && Valid() && Contents() == old(Contents()) + old(Output())[..m] && Output() == old(Output())[m..]
                    && egptr == pptr)
    {
      hide ToInt;
      var m := Min(n, epptr - pptr);
      ToIntExact(m);
      pptr := pptr + ToInt(m);
      egptr := pptr;
    }

    /** Removes the first n bytes, or all of them; exact up to INT_MAX bytes. */
    method Consume(n0: nat)
      requires Valid()
      modifies this`gptr, this`egptr
      ensures var m := old(Min(n0, Size()));
              && (Size() == old(Size()) - m <==> m <= 0x7fff_ffff)
              && (m <= 0x7fff_ffff ==>
                    && Valid() && Contents() == old(Contents())[m..] && Output() == old(Output())
                    && gptr == old(gptr) + m && egptr == pptr)
    {
      hide ToInt;
      var n := n0;
      if egptr < pptr { egptr := pptr; }
      if gptr + n > pptr { n := pptr - gptr; }
      ToIntExact(n);
      gptr := gptr + ToInt(n);
    }

    /** The first byte without removing it, or end of file when empty. */
    method Underflow() returns (r: Char)
      requires Valid()
      modifies this`egptr
      ensures Valid() && Contents() == old(Contents()) && Output() == old(Output())
      ensures r == if Contents() == [] then Eof else Char(Contents()[0])
      ensures r.Char? ==> gptr < egptr == pptr
    {
      if gptr < pptr {
        egptr := pptr;
        return Char(buffer[gptr]);
      } else {
        return Eof;
      }
    }

    /** *pptr() = c and pbump(1). */
    method Store(c: bv8)
      requires Valid() && pptr < epptr
      modifies this`pptr, buffer
      ensures Valid() && Contents() == old(Contents()) + [c] && Output() == old(Output())[1..]
    {
      buffer[pptr] := c;
      pptr := pptr + 1;
    }

    /** Room for one more character, or for up to BUFFER_DELTA. */
    method MakeRoom() returns (ok: bool)
      requires Valid() && pptr == epptr
      modifies this, buffer
      ensures Valid() && (buffer == old(buffer) || fresh(buffer))
      ensures ok <==> old(Size()) < maxSize
      ensures Contents() == old(Contents())
      ensures ok ==> pptr < epptr && Min(128, maxSize - old(Size())) <= epptr - pptr
    {
      var bufferSize := pptr - gptr;
      if bufferSize < maxSize && maxSize - bufferSize < BUFFER_DELTA {
        ok := Reserve(maxSize - bufferSize);
      } else {
        ok := Reserve(BUFFER_DELTA);
      }
    }

    /** Appends a character; throws exactly when size() equals max_size(), and
        then the contents stay as they were. */
    method Overflow(c: Char) returns (r: Put)
      requires Valid()
      modifies this, buffer
      ensures Valid() && (buffer == old(buffer) || fresh(buffer))
      ensures r.LengthError? <==> c.Char? && old(Size()) == maxSize
      ensures r.Put? && c.Char? ==> Contents() == old(Contents()) + [c.c] && r.r == c
      ensures r.Put? && c.Char? && old(Output()) != [] ==> Output() == old(Output())[1..] && gptr == old(gptr)
      ensures r.Put? && c.Char? && old(Output()) == [] ==> Min(128, maxSize - old(Size())) - 1 <= |Output()|
      ensures r.LengthError? || c.Eof? ==> Contents() == old(Contents())
      ensures c.Eof? ==> r.Put? && r.r != Eof && Output() == old(Output())
    {
      if c.Eof? { return Put(Char(0)); }
      if pptr == epptr {
        var ok := MakeRoom();
        if !ok { return LengthError; }
      }
      Store(c.c);
      return Put(c);
    }

    /** Allowed by the caller's limit, by the bound, and by 512 or the free capacity
        if that is more. */
    predicate ReadFits(n: nat, limit: nat, capacity: nat)
      reads this
    {
      n <= limit && Size() + n <= maxSize && (n <= 512 || n <= capacity - Size())
    }

    /** The preferred size of a read: the largest that is allowed. The vector's
        capacity is at least its size. */
    function ReadSizeHelper(limit: nat, capacity: nat): (n: nat)
      requires Valid() && capacity >= buffer.Length
      reads this
      ensures ReadFits(n, limit, capacity) && forall m: nat :: ReadFits(m, limit, capacity) ==> m <= n
    {
      Min(Max(512, capacity - Size()), Min(limit, maxSize - Size()))
    }

    /** Preparing the value of the helper never throws. */
    method PrepareRead(limit: nat, capacity: nat) returns (n: nat, ok: bool)
      requires Valid() && capacity >= buffer.Length
      modifies this, buffer
      ensures Valid() && (buffer == old(buffer) || fresh(buffer))
      ensures ok && Contents() == old(Contents()) && n <= |Output()|
    {
      n := ReadSizeHelper(limit, capacity);
      ok := Prepare(n);
    }
  }

  lemma SmearedContents(before: seq<bv8>, after: seq<bv8>, g: nat, p: nat)
    requires g <= p <= |before| == |after|
    requires after[..p - g] == before[g..p] && after[p - g..] == before[p - g..]
    ensures after[g..p] == Smeared(before[g..p], g)
  {
    forall k | 0 <= k < p - g ensures after[g..p][k] == Smeared(before[g..p], g)[k] {
      if g + k < p - g {
        assert after[g + k] == after[..p - g][g + k];
      } else {
        assert after[g + k] == after[p - g..][2 * g + k - p] == before[p - g..][2 * g + k - p];
      }
    }
  }

  /** A `reserve` that throws is harmless, whatever the n bytes of contents are,
      exactly when nothing or at least n bytes were consumed before them. */
  lemma ThrowIsHarmless(g: nat, n: nat)
    ensures (forall c: seq<bv8> :: |c| == n ==> Smeared(c, g) == c) <==> g == 0 || g >= n
  {
    if 0 < g < n {
      var c: seq<bv8> := seq(n, k => if k == g then 1 else 0);
      assert Smeared(c, g)[0] == 1 && c[0] == 0;
    } else {
      forall c: seq<bv8> | |c| == n ensures Smeared(c, g) == c {}
    }
  }

  lemma SmearedTwo()
    ensures Smeared([2, 3], 1) == [3, 3]
  {}

  /** A buffer that a throwing `prepare` leaves with other contents. */
  method ThrowSmears() returns (sb: BasicStreambuf, ghost before: seq<bv8>, ok: bool)
    ensures fresh(sb) && sb.Valid() && !ok
    ensures before == [2, 3] && sb.Contents() == [3, 3]
  {
    hide Smeared;
    SmearedTwo();
    sb := new BasicStreambuf(4);
    var r := sb.Overflow(Char(1));
    r := sb.Overflow(Char(2));
    r := sb.Overflow(Char(3));
    assert sb.Contents() == [1, 2, 3];
    sb.Consume(1);
    before := sb.Contents();
    assert before == [2, 3] && sb.gptr == 1;
    ok := sb.Prepare(10);
  }

  // ------------------------------------------------------- runs as a queue

  /** The queue, and the output sequence from which `commit` feeds it. */
  datatype Queue = Queue(contents: seq<bv8>, output: seq<bv8>)

  datatype Op =
    | Prepare(n: nat)
    | Stage(data: seq<bv8>)   // the caller writes to the start of the output sequence
    | Commit(n: nat)
    | Take(n: nat)            // consume(n)
    | Add(c: bv8)             // overflow(c)
    | Peek                    // underflow()

  /** What a call does. Only a call that needs more room than there is may change
      the output sequence in a way that is not said here. */
  predicate Does(q: Queue, op: Op, r: Queue) {
    match op
    case Prepare(n) =>
      r.contents == q.contents && |r.output| >= n && (n <= |q.output| ==> r.output == q.output)
    case Stage(data) =>
      var m := Min(|data|, |q.output|);
      r.contents == q.contents && r.output == data[..m] + q.output[m..]
    case Commit(n) =>
      var m := Min(n, |q.output|);
      r.contents == q.contents + q.output[..m] && r.output == q.output[m..]
    case Take(n) => r.contents == q.contents[Min(n, |q.contents|)..] && r.output == q.output
    case Add(c) => r.contents == q.contents + [c] && (q.output != [] ==> r.output == q.output[1..])
    case Peek => r == q
  }

  /** The call asks for more room than the bound leaves. */
  predicate Exceeds(q: Queue, op: Op, max: nat) {
    match op
    case Prepare(n) => |q.contents| + n > max
    case Add(_) => |q.contents| >= max
    case _ => false
  }

  /** What is moved, rather than asked for, survives the conversion to int. */
  predicate Countable(q: Queue, op: Op) {
    match op
    case Commit(n) => Min(n, |q.output|) <= INT_MAX
    case Take(n) => Min(n, |q.contents|) <= INT_MAX
    case _ => true
  }

  predicate Works(q: Queue, op: Op, max: nat) { !Exceeds(q, op, max) && Countable(q, op) }

  /** The calls go through these states of the queue, none asking for too much. */
  ghost predicate IsRun(max: nat, ops: seq<Op>, states: seq<Queue>) {
    && |states| == |ops| + 1 && states[0].contents == []
    && (forall i :: 0 <= i < |states| ==> |states[i].contents| + |states[i].output| <= max)
    && (forall i :: 0 <= i < |ops| ==> Works(states[i], ops[i], max) && Does(states[i], ops[i], states[i + 1]))
  }

  method PerformStage(sb: BasicStreambuf, data: seq<bv8>)
    requires sb.Valid()
    modifies sb.buffer
    ensures sb.Valid() && Does(old(sb.View()), Stage(data), sb.View())
  {
    var m := Min(|data|, sb.epptr - sb.pptr);
    assert m == Min(|data|, |sb.View().output|);
    var d := data[..m];
    assert |d| == m;
    sb.WriteOutput(d);
  }

  method Counted(sb: BasicStreambuf, op: Op) returns (ok: bool)
    requires sb.Valid()
    ensures ok <==> Countable(sb.View(), op)
  {
    match op {
      case Commit(n) => ok := Min(n, sb.epptr - sb.pptr) <= INT_MAX;
      case Take(n) => ok := Min(n, sb.Size()) <= INT_MAX;
      case _ => ok := true;
    }
  }

  method PerformCommit(sb: BasicStreambuf, n: nat)
    requires sb.Valid() && Min(n, |sb.View().output|) <= INT_MAX
    modifies sb`pptr, sb`egptr
    ensures sb.Valid() && Does(old(sb.View()), Commit(n), sb.View())
  {
    hide Min;
    assert sb.epptr - sb.pptr == |sb.View().output|;
    sb.Commit(n);
  }

  method PerformTake(sb: BasicStreambuf, n: nat)
    requires sb.Valid() && Min(n, |sb.View().contents|) <= INT_MAX
    modifies sb`gptr, sb`egptr
    ensures sb.Valid() && Does(old(sb.View()), Take(n), sb.View())
  {
    hide Min;
    assert sb.Size() == |sb.View().contents|;
    sb.Consume(n);
  }

  method PerformAdd(sb: BasicStreambuf, c: bv8) returns (ok: bool)
    requires sb.Valid()
    modifies sb, sb.buffer
    ensures sb.Valid() && (sb.buffer == old(sb.buffer) || fresh(sb.buffer))
    ensures ok <==> !Exceeds(old(sb.View()), Add(c), sb.maxSize)
    ensures ok ==> Does(old(sb.View()), Add(c), sb.View())
  {
    assert sb.Size() == |sb.View().contents|;
    var r := sb.Overflow(Char(c));
    ok := r.Put?;
  }

  method PerformPrepare(sb: BasicStreambuf, n: nat) returns (ok: bool)
    requires sb.Valid()
    modifies sb, sb.buffer
    ensures sb.Valid() && (sb.buffer == old(sb.buffer) || fresh(sb.buffer))
    ensures ok <==> !Exceeds(old(sb.View()), Prepare(n), sb.maxSize)
    ensures ok ==> Does(old(sb.View()), Prepare(n), sb.View())
  {
    hide Smeared;
    assert sb.Size() == |sb.View().contents|;
    ok := sb.Prepare(n);
  }

  method Perform(sb: BasicStreambuf, op: Op) returns (ok: bool)
    requires sb.Valid() && Countable(sb.View(), op)
    modifies sb, sb.buffer
    ensures sb.Valid() && (sb.buffer == old(sb.buffer) || fresh(sb.buffer))
    ensures ok <==> !Exceeds(old(sb.View()), op, sb.maxSize)
    ensures ok ==> Does(old(sb.View()), op, sb.View())
  {
    ok := true;
    match op {
      case Prepare(n) => ok := PerformPrepare(sb, n);
      case Stage(data) => PerformStage(sb, data);
      case Commit(n) => PerformCommit(sb, n);
      case Take(n) => PerformTake(sb, n);
      case Add(c) => ok := PerformAdd(sb, c);
      case Peek => var c := sb.Underflow();
    }
  }

  /** Every run of calls, in any order, is a run of the bounded queue: it stops
      at the first call that asks the queue for too much or, if max_size() is
      above INT_MAX, moves more than INT_MAX bytes. */
  method Drive(max: nat, ops: seq<Op>) returns (sb: BasicStreambuf, done: nat, ghost states: seq<Queue>)
    ensures fresh(sb) && sb.Valid() && sb.maxSize == max && done <= |ops|
    ensures IsRun(max, ops[..done], states)
    ensures if done < |ops| then !Works(states[done], ops[done], max) else states[done] == sb.View()
    ensures max <= INT_MAX && done < |ops| ==> Exceeds(states[done], ops[done], max)
  {
    hide Does, Min;
    sb := new BasicStreambuf(max);
    done := 0;
    FirstState(max, sb.View());
    assert ops[..0] == [];
    states := [sb.View()];
    while done < |ops|
      invariant done <= |ops| && fresh(sb) && fresh(sb.buffer) && sb.Valid() && sb.maxSize == max
      invariant IsRun(max, ops[..done], states) && states[done] == sb.View()
    {
      var counted := Counted(sb, ops[done]);
      if max <= INT_MAX { FewBytes(max, sb.View(), ops[done]); }
      if !counted { return; }
      var ok := Perform(sb, ops[done]);
      if !ok { return; }
      RunMore(max, ops, done, states, sb.View());
      states := states + [sb.View()];
      done := done + 1;
    }
  }

  lemma FirstState(max: nat, q: Queue)
    requires q.contents == [] && |q.output| <= max
    ensures IsRun(max, [], [q])
  {}

  lemma FewBytes(max: nat, q: Queue, op: Op)
    requires |q.contents| + |q.output| <= max <= INT_MAX
    ensures Countable(q, op)
  {}

  lemma RunMore(max: nat, ops: seq<Op>, k: nat, states: seq<Queue>, q: Queue)
    requires k < |ops| && IsRun(max, ops[..k], states) && |q.contents| + |q.output| <= max
    requires Works(states[k], ops[k], max) && Does(states[k], ops[k], q)
    ensures IsRun(max, ops[..k + 1], states + [q])
  {
    hide Works, Does;
    var upTo, more := ops[..k + 1], states + [q];
    forall i | 0 <= i < k + 1 ensures Works(more[i], upTo[i], max) && Does(more[i], upTo[i], more[i + 1]) {
      if i < k { assert ops[..k][i] == ops[i]; }
    }
  }

  // ----------------------------------------------------- what the queue gives

  function AppendedBy(q: Queue, op: Op): seq<bv8> {
    match op
    case Commit(n) => q.output[..Min(n, |q.output|)]
    case Add(c) => [c]
    case _ => []
  }

  function RemovedBy(q: Queue, op: Op): seq<bv8> {
    if op.Take? then q.contents[..Min(op.n, |q.contents|)] else []
  }

  /** The bytes appended, and removed, by the calls i, ..., j - 1. */
  function Appended(ops: seq<Op>, states: seq<Queue>, i: nat, j: nat): seq<bv8>
    requires i <= j <= |ops| < |states|
    decreases j
  {
    if i == j then [] else Appended(ops, states, i, j - 1) + AppendedBy(states[j - 1], ops[j - 1])
  }

  function Removed(ops: seq<Op>, states: seq<Queue>, i: nat, j: nat): seq<bv8>
    requires i <= j <= |ops| < |states|
    decreases j
  {
    if i == j then [] else Removed(ops, states, i, j - 1) + RemovedBy(states[j - 1], ops[j - 1])
  }

  lemma DoesFifo(q: Queue, op: Op, r: Queue)
    requires Does(q, op, r)
    ensures RemovedBy(q, op) + r.contents == q.contents + AppendedBy(q, op)
  {}

  /** First in, first out: between any two points of a run, what was removed and
      then what is there is what was there and then what was appended. */
  lemma {:induction false} FirstInFirstOut(max: nat, ops: seq<Op>, states: seq<Queue>, i: nat, j: nat)
    requires IsRun(max, ops, states) && i <= j <= |ops|
    ensures Removed(ops, states, i, j) + states[j].contents == states[i].contents + Appended(ops, states, i, j)
    decreases j
  {
    if i < j {
      FirstInFirstOut(max, ops, states, i, j - 1);
      var q, op := states[j - 1], ops[j - 1];
      DoesFifo(q, op, states[j]);
      Shuffle(Removed(ops, states, i, j - 1), RemovedBy(q, op), states[j].contents, q.contents, AppendedBy(q, op),
              states[i].contents, Appended(ops, states, i, j - 1));
    }
  }

  lemma Shuffle(r: seq<bv8>, r1: seq<bv8>, c: seq<bv8>, b: seq<bv8>, a1: seq<bv8>, s: seq<bv8>, a: seq<bv8>)
    requires r1 + c == b + a1 && r + b == s + a
    ensures r + r1 + c == s + (a + a1)
  {
    calc {
      r + r1 + c;
      r + (r1 + c);
      r + (b + a1);
      r + b + a1;
      s + (a + a1);
    }
  }

  /** Staged bytes get into the queue piece by piece and in order: while calls
      only commit, remove and look, what is appended and then the output
      sequence is the output sequence from before. */
  lemma {:induction false} StagedArrives(max: nat, ops: seq<Op>, states: seq<Queue>, i: nat, j: nat)
    requires IsRun(max, ops, states) && i <= j <= |ops|
    requires forall k :: i <= k < j ==> ops[k].Commit? || ops[k].Take? || ops[k].Peek?
    ensures Appended(ops, states, i, j) + states[j].output == states[i].output
    decreases j
  {
    if i < j {
      hide AppendedBy, Does, Works;
      StagedArrives(max, ops, states, i, j - 1);
      var q, op := states[j - 1], ops[j - 1];
      assert Does(q, op, states[j]);
      StageStep(q, op, states[j]);
      Associate(Appended(ops, states, i, j - 1), AppendedBy(q, op), states[j].output);
    }
  }

  lemma StageStep(q: Queue, op: Op, r: Queue)
    requires Does(q, op, r) && (op.Commit? || op.Take? || op.Peek?)
    ensures AppendedBy(q, op) + r.output == q.output
  {}

  lemma Associate(a: seq<bv8>, b: seq<bv8>, c: seq<bv8>)
    ensures a + b + c == a + (b + c)
  {}

  /** Prepare, write and commit: exactly the first n bytes written are appended. */
  lemma FeedArrives(max: nat, ops: seq<Op>, states: seq<Queue>, i: nat, n: nat)
    requires IsRun(max, ops, states) && i + 2 < |ops|
    requires ops[i].Prepare? && ops[i + 1].Stage? && ops[i + 2] == Commit(n) && n <= |ops[i + 1].data| <= ops[i].n
    ensures states[i + 3].contents == states[i].contents + ops[i + 1].data[..n]
  {
    assert Does(states[i], ops[i], states[i + 1]) && Does(states[i + 1], ops[i + 1], states[i + 2]);
    assert Does(states[i + 2], ops[i + 2], states[i + 3]);
  }
}
