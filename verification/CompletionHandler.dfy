/** asio::any_completion_handler: who owns which heap-allocated implementation,
    and the aligned allocation that goes through it. */
module CompletionHandler {
  import opened Bytes

  datatype Option<T> = None | Some(value: T)

  /** The two pointers of a wrapper object; fn_table is null or not. */
  datatype Wrapper = Wrapper(fnTable: bool, impl: Option<nat>)

  const EmptyWrapper: Wrapper := Wrapper(false, None)

  datatype Cause = ByCall | ByDestruction

  /** An implementation leaves the heap. */
  datatype Release = Release(impl: nat, cause: Cause)

  /** How often an implementation is released. */
  function Count(log: seq<Release>, n: nat): nat {
    if log == [] then 0 else
      var last := log[|log| - 1];
      Count(log[..|log| - 1], n) + if last.impl == n then 1 else 0
  }

  lemma CountAppend(log: seq<Release>, r: Release, n: nat)
    ensures Count(log + [r], n) == Count(log, n) + if r.impl == n then 1 else 0
  {
    assert (log + [r])[..|log|] == log;
  }

  /** The wrapper objects that are alive, by address; the implementations on the
      heap, numbered in the order of their creation; and how they left it. */
  datatype State = State(wrappers: map<nat, Wrapper>, live: set<nat>, created: nat, log: seq<Release>)

  const Nothing: State := State(map[], {}, 0, [])

  // ------------------------------------------------------------------ runs

  /** A temporary is at the address the compiler gives it. */
  datatype Op =
    | MakeEmpty(a: nat)
    | Make(a: nat, throws: bool)
    | MoveInto(a: nat, other: nat)
    | Assign(a: nat, other: nat, temporary: nat)
    | Exchange(a: nat, b: nat)
    | Reset(a: nat, temporary: nat)
    | Invoke(a: nat)
    | Drop(a: nat)

  /** An operation on objects that do not exist is not one a program can make. */
  predicate Possible(op: Op, alive: set<nat>) {
    match op
    case MakeEmpty(a) => a !in alive
    case Make(a, _) => a !in alive
    case MoveInto(a, other) => a !in alive && other in alive
    case Assign(a, other, t) => a in alive && other in alive && t !in alive
    case Exchange(a, b) => a in alive && b in alive
    case Reset(a, t) => a in alive && t !in alive
    case Invoke(a) => a in alive
    case Drop(a) => a in alive
  }

  /** What the wrapper points to leaves the heap. */
  function Freed(s: State, w: Wrapper, cause: Cause): State {
    if w.impl.None? then s else
      s.(live := s.live - {w.impl.value}, log := s.log + [Release(w.impl.value, cause)])
  }

  /** What an operation is for: nothing is said of temporaries. */
  function Step(s: State, op: Op): State {
    if !Possible(op, s.wrappers.Keys) then s else
      var ws := s.wrappers;
      match op
      case MakeEmpty(a) => s.(wrappers := ws[a := EmptyWrapper])
      case Make(a, throws) =>
        if throws then s else
          s.(wrappers := ws[a := Wrapper(true, Some(s.created))],
             live := s.live + {s.created}, created := s.created + 1)
      case MoveInto(a, other) => s.(wrappers := ws[a := ws[other]][other := EmptyWrapper])
      case Assign(a, other, _) =>
        if a == other then s else
          Freed(s, ws[a], ByDestruction).(wrappers := ws[a := ws[other]][other := EmptyWrapper])
      case Exchange(a, b) => s.(wrappers := ws[a := ws[b]][b := ws[a]])
      case Reset(a, _) => Freed(s, ws[a], ByDestruction).(wrappers := ws[a := EmptyWrapper])
      case Invoke(a) => Freed(s, ws[a], ByCall).(wrappers := ws[a := ws[a].(impl := None)])
      case Drop(a) => Freed(s, ws[a], ByDestruction).(wrappers := ws - {a})
  }

  function Run(ops: seq<Op>): State {
    if ops == [] then Nothing else Step(Run(ops[..|ops| - 1]), ops[|ops| - 1])
  }

  predicate Holds(s: State, a: nat, n: nat) { a in s.wrappers && s.wrappers[a].impl == Some(n) }

  /** No two wrappers point to the same implementation. */
  ghost predicate OneOwner(s: State) {
    forall a, b, n :: Holds(s, a, n) && Holds(s, b, n) ==> a == b
  }

  /** The heap holds what the wrappers point to, and a wrapper that points to
      something also has its function table. */
  ghost predicate HeapIsHeld(s: State) {
    && (forall a, n :: Holds(s, a, n) ==> n in s.live && s.wrappers[a].fnTable)
    && (forall n :: n in s.live ==> exists a :: Holds(s, a, n))
  }

  /** Each implementation ever created is on the heap or was released, once. */
  ghost predicate Ledger(s: State) {
    forall n: nat :: Count(s.log, n) + (if n in s.live then 1 else 0) == if n < s.created then 1 else 0
  }

  ghost predicate Sound(s: State) { OneOwner(s) && HeapIsHeld(s) && Ledger(s) }

  /** The release of an implementation on the heap balances the ledger. */
  lemma FreedLedger(s: State, w: Wrapper, cause: Cause)
    requires Ledger(s) && (w.impl.Some? ==> w.impl.value in s.live)
    ensures Ledger(Freed(s, w, cause))
  {
    if w.impl.Some? {
      forall n: nat { CountAppend(s.log, Release(w.impl.value, cause), n); }
    }
  }

  lemma StepLedger(s: State, op: Op)
    requires Sound(s)
    ensures Ledger(Step(s, op))
  {
    if Possible(op, s.wrappers.Keys) && (op.Assign? || op.Reset? || op.Invoke? || op.Drop?) {
      var w := s.wrappers[op.a];
      if w.impl.Some? { assert Holds(s, op.a, w.impl.value); }
      FreedLedger(s, w, if op.Invoke? then ByCall else ByDestruction);
    }
  }

  /** The wrapper at whose place the implementation at `a` was before. */
  ghost function Before(s: State, op: Op, a: nat): nat {
    match op
    case MoveInto(x, other) => if a == x then other else a
    case Assign(x, other, _) => if a == x then other else a
    case Exchange(x, y) => if a == x then y else if a == y then x else a
    case _ => a
  }

  /** What a wrapper points to after a step it was given by the step or some
      wrapper pointed to it before. */
  lemma HeldBefore(s: State, op: Op, a: nat, n: nat)
    requires Holds(Step(s, op), a, n)
    ensures if op.Make? && op.a == a && Possible(op, s.wrappers.Keys) then n == s.created
            else if Possible(op, s.wrappers.Keys) then Holds(s, Before(s, op, a), n)
            else Holds(s, a, n)
  {}

  lemma StepOneOwner(s: State, op: Op)
    requires Sound(s)
    ensures OneOwner(Step(s, op))
  {
    var t := Step(s, op);
    forall a, b, n | Holds(t, a, n) && Holds(t, b, n) ensures a == b {
      HeldBefore(s, op, a, n);
      HeldBefore(s, op, b, n);
      NotYetHeld(s, s.created);
    }
  }

  lemma NotYetHeld(s: State, n: nat)
    requires Sound(s) && n >= s.created
    ensures forall a :: !Holds(s, a, n)
  {}

  /** An implementation that is still on the heap has a wrapper. */
  lemma HeldAfter(s: State, op: Op, n: nat)
    requires Sound(s) && n in Step(s, op).live
    ensures exists a :: Holds(Step(s, op), a, n)
  {
    var t := Step(s, op);
    if Possible(op, s.wrappers.Keys) {
      if op.Make? && n !in s.live {
        assert Holds(t, op.a, n);
      } else {
        var a :| Holds(s, a, n);
        var b := match op
          case MoveInto(x, other) => if a == other then x else a
          case Assign(x, other, _) => if a == other then x else a
          case Exchange(x, y) => if a == x then y else if a == y then x else a
          case _ => a;
        assert Holds(t, b, n);
      }
    }
  }

  lemma StepHeap(s: State, op: Op)
    requires Sound(s)
    ensures HeapIsHeld(Step(s, op))
  {
    var t := Step(s, op);
    forall a, n | Holds(t, a, n) ensures n in t.live && t.wrappers[a].fnTable {
      HeldBefore(s, op, a, n);
      if Possible(op, s.wrappers.Keys) && op.a in s.wrappers && s.wrappers[op.a].impl == Some(n) {
        assert Holds(s, op.a, n) && Holds(s, Before(s, op, a), n);
      }
    }
    forall n | n in t.live ensures exists a :: Holds(t, a, n) { HeldAfter(s, op, n); }
  }

  lemma StepKeeps(s: State, op: Op)
    requires Sound(s)
    ensures Sound(Step(s, op))
  {
    hide Step;
    StepOneOwner(s, op);
    StepHeap(s, op);
    StepLedger(s, op);
  }

  /** At every point of every run each implementation has at most one owner, is
      on the heap exactly as long as it has one, and has been released at most
      once; none that was created is forgotten. */
  lemma {:induction false} SingleOwnership(ops: seq<Op>)
    ensures Sound(Run(ops))
    ensures forall n: nat :: Count(Run(ops).log, n) <= 1
  {
    if ops != [] {
      SingleOwnership(ops[..|ops| - 1]);
      StepKeeps(Run(ops[..|ops| - 1]), ops[|ops| - 1]);
    }
  }

  /** When the wrappers are gone, every implementation ever created has been
      released exactly once. */
  lemma ReleasedOnce(ops: seq<Op>, n: nat)
    requires Run(ops).wrappers == map[]
    ensures Run(ops).live == {}
    ensures Count(Run(ops).log, n) == if n < Run(ops).created then 1 else 0
  {
    SingleOwnership(ops);
    assert Run(ops).live == {} by {
      assert forall m :: m in Run(ops).live ==> exists a :: Holds(Run(ops), a, m);
    }
  }

  /** The operation takes the implementation from the wrapper it names, and the
      cause is the operation's. */
  predicate Takes(s: State, op: Op, t: State, r: Release) {
    && Holds(s, op.a, r.impl) && r.impl in s.live && r.impl !in t.live
    && (r.cause.ByCall? <==> op.Invoke?)
    && (r.cause.ByDestruction? <==> op.Assign? || op.Reset? || op.Drop?)
  }

  lemma StepReleases(s: State, op: Op)
    requires Sound(s)
    ensures var t := Step(s, op);
            var n := |t.log| - 1;
            t.log == s.log || (n >= 0 && t.log == s.log + [t.log[n]] && Takes(s, op, t, t.log[n]))
  {
    if Possible(op, s.wrappers.Keys) && op.a in s.wrappers && s.wrappers[op.a].impl.Some? {
      assert Holds(s, op.a, s.wrappers[op.a].impl.value);
    }
  }

  ghost predicate TakenAt(ops: seq<Op>, i: nat, r: Release)
    requires i < |ops|
  {
    Takes(Run(ops[..i]), ops[i], Run(ops[..i + 1]), r)
  }

  /** Every release in the log has its reason: a call of the wrapper that held
      the implementation, or an operation that destroyed what it held. */
  lemma {:induction false} ReleasedBy(ops: seq<Op>, k: nat)
    requires k < |Run(ops).log|
    ensures exists i :: 0 <= i < |ops| && TakenAt(ops, i, Run(ops).log[k])
  {
    hide Step;
    var n := |ops| - 1;
    var before, s := ops[..n], Run(ops[..n]);
    SingleOwnership(before);
    StepReleases(s, ops[n]);
    if k < |s.log| {
      ReleasedBy(before, k);
      var i :| 0 <= i < |before| && TakenAt(before, i, s.log[k]);
      assert before[..i] == ops[..i] && before[..i + 1] == ops[..i + 1];
      assert TakenAt(ops, i, Run(ops).log[k]);
    } else {
      assert ops[..n + 1] == ops;
      assert TakenAt(ops, n, Run(ops).log[k]);
    }
  }

  // ---------------------------------------------------------------- journeys

  /** The addresses at which there is a wrapper. */
  function Alive(ops: seq<Op>): set<nat> {
    if ops == [] then {} else
      var alive, op := Alive(ops[..|ops| - 1]), ops[|ops| - 1];
      if !Possible(op, alive) then alive
      else if op.Drop? then alive - {op.a}
      else if op.MakeEmpty? || op.MoveInto? || (op.Make? && !op.throws) then alive + {op.a}
      else alive
  }

  predicate Creates(ops: seq<Op>, k: nat)
    requires k < |ops|
  {
    ops[k].Make? && !ops[k].throws && ops[k].a !in Alive(ops[..k])
  }

  /** How many implementations have been created. */
  function Made(ops: seq<Op>): nat {
    if ops == [] then 0 else Made(ops[..|ops| - 1]) + if Creates(ops, |ops| - 1) then 1 else 0
  }

  /** Where an implementation goes: with a wrapper that is moved from or swapped,
      and away when its wrapper is called, overwritten, reset or destroyed. */
  function Moved(at: Option<nat>, op: Op): Option<nat> {
    if at.None? then None else
      var x := at.value;
      match op
      case MoveInto(a, other) => if x == other then Some(a) else at
      case Assign(a, other, _) => if a == other then at else if x == other then Some(a) else if x == a then None else at
      case Exchange(a, b) => if x == a then Some(b) else if x == b then Some(a) else at
      case Reset(a, _) => if x == a then None else at
      case Invoke(a) => if x == a then None else at
      case Drop(a) => if x == a then None else at
      case _ => at
  }

  /** The wrapper that holds the n-th implementation, if one does. */
  function Where(ops: seq<Op>, n: nat): Option<nat> {
    if ops == [] then None else
      var k := |ops| - 1;
      var before, op := ops[..k], ops[k];
      if !Possible(op, Alive(before)) then Where(before, n)
      else if Creates(ops, k) && Made(before) == n then Some(op.a)
      else Moved(Where(before, n), op)
  }

  lemma StepJourney(s: State, op: Op, n: nat, at: Option<nat>)
    requires Possible(op, s.wrappers.Keys) && (op.Make? && !op.throws ==> n != s.created)
    requires forall a: nat :: Holds(s, a, n) <==> at == Some(a)
    ensures forall a: nat :: Holds(Step(s, op), a, n) <==> Moved(at, op) == Some(a)
  {
    forall a: nat ensures Holds(Step(s, op), a, n) <==> Moved(at, op) == Some(a) {
      assert Holds(s, a, n) <==> at == Some(a);
      assert Holds(s, op.a, n) <==> at == Some(op.a);
      if op.MoveInto? || op.Assign? { assert Holds(s, op.other, n) <==> at == Some(op.other); }
      if op.Exchange? { assert Holds(s, op.b, n) <==> at == Some(op.b); }
    }
  }

  lemma StepCreates(s: State, op: Op)
    requires Sound(s) && op.Make? && !op.throws && op.a !in s.wrappers
    ensures forall a :: Holds(Step(s, op), a, s.created) <==> a == op.a
  {
    NotYetHeld(s, s.created);
    forall a ensures Holds(Step(s, op), a, s.created) <==> a == op.a { assert !Holds(s, a, s.created); }
  }

  /** In every run the wrappers are where they were made, and the n-th
      implementation is held by exactly the wrapper its journey leads to. */
  lemma {:induction false} Journeys(ops: seq<Op>, n: nat)
    ensures Run(ops).wrappers.Keys == Alive(ops) && Run(ops).created == Made(ops)
    ensures forall a: nat :: Holds(Run(ops), a, n) <==> Where(ops, n) == Some(a)
  {
    if ops != [] {
      var k := |ops| - 1;
      var before, op, s := ops[..k], ops[k], Run(ops[..k]);
      Journeys(before, n);
      SingleOwnership(before);
      if Possible(op, Alive(before)) {
        if Creates(ops, k) && Made(before) == n {
          StepCreates(s, op);
        } else {
          StepJourney(s, op, n, Where(before, n));
        }
      }
    }
  }

  /** The addresses of the wrappers that have a function table: it goes where the
      implementation goes, and stays behind only after a call. */
  function Tabled(ops: seq<Op>): set<nat> {
    if ops == [] then {} else
      var before, op := ops[..|ops| - 1], ops[|ops| - 1];
      var t := Tabled(before);
      if !Possible(op, Alive(before)) then t else
        match op
        case MakeEmpty(_) => t
        case Make(a, throws) => if throws then t else t + {a}
        case MoveInto(a, other) => if other in t then t - {other} + {a} else t
        case Assign(a, other, _) => if a == other then t else if other in t then t - {other} + {a} else t - {a}
        case Exchange(a, b) =>
          if a in t && b !in t then t - {a} + {b} else if b in t && a !in t then t - {b} + {a} else t
        case Reset(a, _) => t - {a}
        case Invoke(_) => t
        case Drop(a) => t - {a}
  }

  /** The wrappers of s with a table are those at the addresses t. */
  ghost predicate TablesAt(s: State, t: set<nat>) {
    t <= s.wrappers.Keys && forall a :: a in s.wrappers ==> (s.wrappers[a].fnTable <==> a in t)
  }

  lemma {:induction false} Tables(ops: seq<Op>)
    ensures TablesAt(Run(ops), Tabled(ops))
  {
    if ops != [] {
      Tables(ops[..|ops| - 1]);
      Journeys(ops[..|ops| - 1], 0);
    }
  }

  // --------------------------------------------------------------- the object

  class Handlers {
    var wrappers: map<nat, Wrapper>
    var live: set<nat>
    var created: nat
    var log: seq<Release>

    ghost function View(): State
      reads this
    {
      State(wrappers, live, created, log)
    }

    ghost predicate Valid()
      reads this
    {
      Sound(View())
    }

    constructor ()
      ensures Valid() && View() == Nothing
    {
      wrappers, live, created, log := map[], {}, 0, [];
    }

    /** any_completion_handler() and any_completion_handler(nullptr) */
    method ConstructEmpty(a: nat)
      requires Valid() && a !in wrappers
      modifies this`wrappers
      ensures Valid() && View() == Step(old(View()), MakeEmpty(a))
    {
      StepKeeps(View(), MakeEmpty(a));
      wrappers := wrappers[a := EmptyWrapper];
    }

    /** any_completion_handler(h): allocates and constructs an implementation;
        if that throws there is no wrapper and nothing is kept. */
    method Construct(a: nat, throws: bool)
      requires Valid() && a !in wrappers
      modifies this`wrappers, this`live, this`created
      ensures Valid() && View() == Step(old(View()), Make(a, throws))
    {
      StepKeeps(View(), Make(a, throws));
      if throws { return; }
      live := live + {created};
      wrappers := wrappers[a := Wrapper(true, Some(created))];
      created := created + 1;
    }

    /** The deleter: destroy and deallocate, of something on the heap. */
    method Free(n: nat, cause: Cause)
      requires n in live
      modifies this`live, this`log
      ensures live == old(live) - {n} && log == old(log) + [Release(n, cause)]
    {
      live := live - {n};
      log := log + [Release(n, cause)];
    }

    /** The destructor. */
    method Destroy(a: nat)
      requires Valid() && a in wrappers
      modifies this`wrappers, this`live, this`log
      ensures Valid() && View() == Step(old(View()), Drop(a))
    {
      StepKeeps(View(), Drop(a));
      var w := wrappers[a];
      if w.impl.Some? {
        assert Holds(View(), a, w.impl.value);
        Free(w.impl.value, ByDestruction);
      }
      wrappers := wrappers - {a};
    }

    /** Move construction: the source is left empty. */
    method MoveConstruct(a: nat, other: nat)
      requires Valid() && a !in wrappers && other in wrappers
      modifies this`wrappers
      ensures Valid() && View() == Step(old(View()), MoveInto(a, other))
    {
      StepKeeps(View(), MoveInto(a, other));
      var w := wrappers[other];
      wrappers := wrappers[a := w][other := EmptyWrapper];
    }

    method Swap(a: nat, b: nat)
      requires Valid() && a in wrappers && b in wrappers
      modifies this`wrappers
      ensures Valid() && View() == Step(old(View()), Exchange(a, b))
    {
      StepKeeps(View(), Exchange(a, b));
      var v, w := wrappers[a], wrappers[b];
      wrappers := wrappers[a := w][b := v];
    }

    /** Move assignment through a temporary. */
    method MoveAssign(a: nat, other: nat, temporary: nat)
      requires Valid() && a in wrappers && other in wrappers && temporary !in wrappers
      modifies this
      ensures Valid() && View() == Step(old(View()), Assign(a, other, temporary))
    {
      AssignIsMoveSwapDrop(View(), a, other, temporary);
      MoveConstruct(temporary, other);
      Swap(temporary, a);
      Destroy(temporary);
    }

    /** Assignment of nullptr. */
    method AssignNull(a: nat, temporary: nat)
      requires Valid() && a in wrappers && temporary !in wrappers
      modifies this
      ensures Valid() && View() == Step(old(View()), Reset(a, temporary))
    {
      ResetIsMakeSwapDrop(View(), a, temporary);
      ConstructEmpty(temporary);
      Swap(temporary, a);
      Destroy(temporary);
    }

    /** The call operator: the wrapper lets go of its implementation, which is
        freed before the handler runs; an empty wrapper throws. */
    method Call(a: nat) returns (called: bool)
      requires Valid() && a in wrappers
      modifies this`wrappers, this`live, this`log
      ensures Valid() && (called <==> old(wrappers[a]).impl.Some?)
      ensures View() == Step(old(View()), Invoke(a))
    {
      StepKeeps(View(), Invoke(a));
      var w := wrappers[a];
      if w.impl.Some? { assert Holds(View(), a, w.impl.value); }
      wrappers := wrappers[a := w.(impl := None)];
      if w.impl.Some? {
        Free(w.impl.value, ByCall);
        return true;
      }
      return false;
    }
  }

  /** Moving into a temporary, swapping with it and destroying it hands over the
      source and destroys the old target; assigning a wrapper to itself changes
      nothing. */
  lemma AssignIsMoveSwapDrop(s: State, a: nat, other: nat, t: nat)
    requires a in s.wrappers && other in s.wrappers && t !in s.wrappers
    ensures Step(Step(Step(s, MoveInto(t, other)), Exchange(t, a)), Drop(t)) == Step(s, Assign(a, other, t))
    ensures t in Step(s, MoveInto(t, other)).wrappers && a in Step(s, MoveInto(t, other)).wrappers
    ensures t in Step(Step(s, MoveInto(t, other)), Exchange(t, a)).wrappers
  {
    var s1 := Step(s, MoveInto(t, other));
    var s2 := Step(s1, Exchange(t, a));
    assert s2.wrappers[t] == if a == other then EmptyWrapper else s.wrappers[a];
    assert s2.wrappers - {t} == Step(s, Assign(a, other, t)).wrappers;
  }

  lemma ResetIsMakeSwapDrop(s: State, a: nat, t: nat)
    requires a in s.wrappers && t !in s.wrappers
    ensures Step(Step(Step(s, MakeEmpty(t)), Exchange(t, a)), Drop(t)) == Step(s, Reset(a, t))
    ensures t in Step(s, MakeEmpty(t)).wrappers && a in Step(s, MakeEmpty(t)).wrappers
    ensures t in Step(Step(s, MakeEmpty(t)), Exchange(t, a)).wrappers
  {
    var s2 := Step(Step(s, MakeEmpty(t)), Exchange(t, a));
    assert s2.wrappers[t] == s.wrappers[a];
    assert s2.wrappers - {t} == Step(s, Reset(a, t)).wrappers;
  }

  method Perform(h: Handlers, op: Op)
    requires h.Valid() && Possible(op, h.wrappers.Keys)
    modifies h
    ensures h.Valid() && h.View() == Step(old(h.View()), op)
  {
    match op {
      case MakeEmpty(a) => h.ConstructEmpty(a);
      case Make(a, throws) => h.Construct(a, throws);
      case MoveInto(a, other) => h.MoveConstruct(a, other);
      case Assign(a, other, temporary) => h.MoveAssign(a, other, temporary);
      case Exchange(a, b) => h.Swap(a, b);
      case Reset(a, temporary) => h.AssignNull(a, temporary);
      case Invoke(a) => var called := h.Call(a);
      case Drop(a) => h.Destroy(a);
    }
  }

  /** The objects go through exactly the states of the run; operations that are
      not possible are left out. */
  method Drive(ops: seq<Op>) returns (h: Handlers)
    ensures fresh(h) && h.Valid() && h.View() == Run(ops)
  {
    h := new Handlers();
    for i := 0 to |ops|
      invariant fresh(h) && h.Valid() && h.View() == Run(ops[..i])
    {
      assert ops[..i + 1][..i] == ops[..i];
      if Possible(ops[i], h.wrappers.Keys) {
        Perform(h, ops[i]);
      }
    }
    assert ops[..|ops|] == ops;
  }

  // ------------------------------------------------------ aligned allocation

  const OFFSET_BYTES: nat := 8  // sizeof(std::ptrdiff_t)

  function Pow256(k: nat): nat { if k == 0 then 1 else 256 * Pow256(k - 1) }

  /** The bytes memcpy copies for a number, least significant first. */
  function ToBytes(n: nat, k: nat): (s: seq<Byte>)
    ensures |s| == k
  {
    if k == 0 then [] else [n % 256] + ToBytes(n / 256, k - 1)
  }

  function FromBytes(s: seq<Byte>): nat {
    if s == [] then 0 else s[0] + 256 * FromBytes(s[1..])
  }

  lemma {:induction false} FromToBytes(n: nat, k: nat)
    requires n < Pow256(k)
    ensures FromBytes(ToBytes(n, k)) == n
  {
    if k > 0 {
      FromToBytes(n / 256, k - 1);
      assert ToBytes(n, k)[1..] == ToBytes(n / 256, k - 1);
    }
  }

  predicate PowerOfTwo(n: nat) { n == 1 || (n > 1 && n % 2 == 0 && PowerOfTwo(n / 2)) }

  /** The contract of std::align: the first aligned address with room. */
  function Align(align: nat, size: nat, p: nat, space: nat): (r: Option<nat>)
    requires align > 0
    ensures r.Some? ==> p <= r.value < p + align && r.value % align == 0
    ensures r.Some? <==> exists q :: p <= q && q % align == 0 && q + size <= p + space
  {
    var gap := (align - p % align) % align;
    AlignGap(align, p);
    if gap + size <= space then Some(p + gap) else None
  }

  /** The gap leads to the next multiple of align, and there is none before. */
  lemma AlignGap(align: nat, p: nat)
    requires align > 0
    ensures var gap := (align - p % align) % align;
            gap < align && (p + gap) % align == 0 && forall q :: p <= q && q % align == 0 ==> p + gap <= q
  {
    var r := p % align;
    var gap := (align - r) % align;
    var k := p / align;
    assert p == k * align + r;
    if r == 0 {
      assert gap == 0;
    } else {
      assert gap == align - r;
      assert p + gap == (k + 1) * align;
      MultipleMod(k + 1, align);
      forall q | p <= q && q % align == 0 ensures p + gap <= q {
        var m := q / align;
        assert q == m * align;
        if m <= k { MulLess(m, k, align); }
        MulLess(k + 1, if m <= k then k + 1 else m, align);
      }
    }
  }

  lemma MultipleMod(k: nat, n: nat)
    requires n > 0
    ensures (k * n) % n == 0
  {
    var q, r := k * n / n, k * n % n;
    assert k * n == q * n + r;
    if q < k {
      MulGap(q, k, n);
    } else if k < q {
      MulGap(k, q, n);
    }
  }

  lemma MulGap(a: nat, b: nat, n: nat)
    requires a < b
    ensures a * n + n <= b * n
  {
    MulLess(a + 1, b, n);
    assert (a + 1) * n == a * n + n;
  }

  lemma MulLess(a: nat, b: nat, n: nat)
    requires a <= b
    ensures a * n <= b * n
  {}

  /** What the underlying allocator hands out: an address and its bytes. */
  class Block {
    const base: nat
    const bytes: array<Byte>

    constructor (base: nat, length: nat)
      ensures this.base == base && bytes.Length == length && fresh(bytes)
    {
      this.base := base;
      bytes := new Byte[length](_ => 0);
    }
  }

  /** The offset kept behind a payload at address p. */
  ghost predicate OffsetStored(block: Block, p: nat, size: nat)
    requires block.base <= p && p + size + OFFSET_BYTES <= block.base + block.bytes.Length
    reads block.bytes
  {
    var at := p + size - block.base;
    block.bytes[at..at + OFFSET_BYTES] == ToBytes(p - block.base, OFFSET_BYTES)
  }

  lemma OffsetFits(n: nat)
    requires n < 0x8000_0000_0000_0000
    ensures n < Pow256(OFFSET_BYTES)
  {
    assert Pow256(2) == 0x1_0000;
    assert Pow256(4) == 0x1_0000_0000;
    assert Pow256(6) == 0x1_0000_0000_0000;
  }

  /** memcpy of the offset behind the payload. */
  method StoreOffset(block: Block, p: nat, size: nat)
    requires block.base <= p && p + size + OFFSET_BYTES <= block.base + block.bytes.Length
    modifies block.bytes
    ensures OffsetStored(block, p, size)
  {
    var copy := ToBytes(p - block.base, OFFSET_BYTES);
    var at := p + size - block.base;
    forall i | 0 <= i < OFFSET_BYTES { block.bytes[at + i] := copy[i]; }
  }

  /** Aligned, inside the block with the offset behind it, and never refused.
      `base` is wherever the allocator put the block. */
  method Allocate(size: nat, align: nat, base: nat) returns (p: nat, block: Block)
    requires PowerOfTwo(align) && align <= 0x8000_0000_0000_0000
    ensures fresh(block) && fresh(block.bytes) && block.base == base
    ensures block.bytes.Length == size + align - 1 + OFFSET_BYTES
    ensures p % align == 0 && base <= p && p + size + OFFSET_BYTES <= base + block.bytes.Length
    ensures OffsetStored(block, p, size)
  {
    var space := size + align - 1;
    block := new Block(base, space + OFFSET_BYTES);
    AlignGap(align, base);
    var aligned := Align(align, size, base, space);
    p := aligned.value;
    StoreOffset(block, p, size);
  }

  /** If the bytes behind the payload are as `Allocate` left them, whatever was
      done to the payload, the original address and length come back. */
  method Deallocate(p: nat, size: nat, align: nat, block: Block) returns (base: nat, length: nat)
    requires PowerOfTwo(align) && align <= 0x8000_0000_0000_0000
    requires block.base <= p < block.base + align && block.bytes.Length == size + align - 1 + OFFSET_BYTES
    requires OffsetStored(block, p, size)
    ensures base == block.base && length == block.bytes.Length
  {
    var at := p + size - block.base;
    var off := FromBytes(block.bytes[at..at + OFFSET_BYTES]);
    OffsetFits(p - block.base);
    FromToBytes(p - block.base, OFFSET_BYTES);
    base := p - off;
    length := size + align - 1 + OFFSET_BYTES;
  }

  /** Allocate, let the caller overwrite the payload, deallocate. */
  method AllocationRoundTrip(size: nat, align: nat, base: nat, payload: seq<Byte>) returns (b: nat, length: nat)
    requires PowerOfTwo(align) && align <= 0x8000_0000_0000_0000 && |payload| == size
    ensures b == base && length == size + align - 1 + 8
  {
    var p, block := Allocate(size, align, base);
    forall i | 0 <= i < size { block.bytes[p - base + i] := payload[i]; }
    b, length := Deallocate(p, size, align, block);
  }
}
