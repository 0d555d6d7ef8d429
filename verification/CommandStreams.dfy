/**
 Three asynchronous device streams fed by one host thread.

 The host appends commands to a log.  Each stream executes its own commands in
 log order; a wait blocks its stream until the command it captured has run; a
 synchronize blocks the host.  Everything else may interleave freely.

 A log is race free when every two conflicting commands are ordered by stream
 order, waits and synchronizes.  The results of this module hold for every race
 free log: under every interleaving each command reads the values it would read
 if the log ran one command after the other, and some command can always run.
 */
module CommandStreams {
  datatype Stream = Host | H2D | Compute | D2H

  // Device buffers, rows of the host output tensor, rows handed to a device consumer.
  datatype Loc =
    | Q
    | KV(slot: nat)
    | Carry
    | Out(slot: nat)
    | Fresh(id: nat)
    | HostRow(row: int)
    | SinkRow(row: int)

  datatype UpdateArgs = UpdateArgs(qTokens: int, kvTokens: int, qLocalOffset: int,
                                   kvLocalOffset: int, causalShift: int, causal: bool)

  // Symbolic buffer contents: which host rows, folded in which order.
  datatype Val =
    | Unset
    | QTile(start: int, stop: int)
    | KVTile(start: int, stop: int)
    | NewState
    | Updated(state: Val, q: Val, kv: Val, args: UpdateArgs)
    | Finalized(state: Val, qTokens: int)
    | Transformed(input: Val, start: int, stop: int)
    | Partial(q: Val, kv: Val, qTokens: int, kvTokens: int)
    | Merged(state: Val, part: Val, qTokens: int)
    | Copied(state: Val, qTokens: int)
    | Row(tile: Val, index: int)

  datatype Op =
    | CopyQ(start: int, stop: int)
    | CopyKV(slot: nat, start: int, stop: int)
    | Update(slot: nat, initialize: bool, args: UpdateArgs)
    | Finalize(dst: Loc, qTokens: int)
    | Transform(src: Loc, dst: Loc, start: int, stop: int)
    | Consume(src: Loc, start: int, stop: int)
    | PartialForward(slot: nat, out: nat, qTokens: int, kvTokens: int)
    | MergeSplit(initialize: bool, out: nat, qTokens: int)
    | CopyState(out: nat, qTokens: int)
    | CopyOut(src: Loc, start: int, stop: int)
    | Record
    | Wait(target: nat)
    | Sync(stream: Stream)

  datatype Entry = Entry(stream: Stream, op: Op)

  // ----- What a command reads, writes and computes

  predicate Reads(op: Op, l: Loc) {
    match op
    case Update(slot, initialize, _) => l == Q || l == KV(slot) || (!initialize && l == Carry)
    case Finalize(_, _) => l == Carry
    case Transform(src, _, _, _) => l == src
    case Consume(src, _, _) => l == src
    case PartialForward(slot, _, _, _) => l == Q || l == KV(slot)
    case MergeSplit(initialize, out, _) => l == Out(out) || (!initialize && l == Carry)
    case CopyState(_, _) => l == Carry
    case CopyOut(src, _, _) => l == src
    case _ => false
  }

  predicate Writes(op: Op, l: Loc) {
    match op
    case CopyQ(_, _) => l == Q
    case CopyKV(slot, _, _) => l == KV(slot)
    case Update(_, _, _) => l == Carry
    case Finalize(dst, _) => l == dst
    case Transform(_, dst, _, _) => l == dst
    case Consume(_, start, stop) => l.SinkRow? && start <= l.row < stop
    case PartialForward(_, out, _, _) => l == Out(out)
    case MergeSplit(_, _, _) => l == Carry
    case CopyState(out, _) => l == Out(out)
    case CopyOut(_, start, stop) => l.HostRow? && start <= l.row < stop
    case _ => false
  }

  predicate Touches(op: Op, l: Loc) {
    Reads(op, l) || Writes(op, l)
  }

  ghost predicate Conflict(a: Op, b: Op) {
    exists l :: Touches(a, l) && Touches(b, l) && (Writes(a, l) || Writes(b, l))
  }

  // The value `op` leaves in `l`, given the contents it finds.
  function Result(op: Op, l: Loc, mem: Loc -> Val): Val {
    match op
    case CopyQ(start, stop) => QTile(start, stop)
    case CopyKV(_, start, stop) => KVTile(start, stop)
    case Update(slot, initialize, args) =>
      Updated(if initialize then NewState else mem(Carry), mem(Q), mem(KV(slot)), args)
    case Finalize(_, qTokens) => Finalized(mem(Carry), qTokens)
    case Transform(src, _, start, stop) => Transformed(mem(src), start, stop)
    case Consume(src, start, _) => if l.SinkRow? then Row(mem(src), l.row - start) else Unset
    case PartialForward(slot, _, qTokens, kvTokens) => Partial(mem(Q), mem(KV(slot)), qTokens, kvTokens)
    case MergeSplit(initialize, out, qTokens) =>
      Merged(if initialize then NewState else mem(Carry), mem(Out(out)), qTokens)
    case CopyState(_, qTokens) => Copied(mem(Carry), qTokens)
    case CopyOut(src, start, _) => if l.HostRow? then Row(mem(src), l.row - start) else Unset
    case _ => Unset
  }

  // Contents of `l` after running the log one command after the other.
  function Mem(log: seq<Entry>, l: Loc): Val {
    if log == [] then Unset
    else
      var before := log[..|log| - 1];
      var op := log[|log| - 1].op;
      if Writes(op, l) then Result(op, l, k => Mem(before, k)) else Mem(before, l)
  }

  // ----- Vector clocks: what a stream knows to have finished

  // At(t) == n means every command of stream t below log index n has finished.
  datatype Clock = Clock(host: nat, h2d: nat, compute: nat, d2h: nat) {
    function At(s: Stream): nat {
      match s
      case Host => host
      case H2D => h2d
      case Compute => compute
      case D2H => d2h
    }

    function Raise(s: Stream, n: nat): Clock {
      match s
      case Host => this.(host := n)
      case H2D => this.(h2d := n)
      case Compute => this.(compute := n)
      case D2H => this.(d2h := n)
    }

    function Join(o: Clock): Clock {
      Clock(Later(host, o.host), Later(h2d, o.h2d), Later(compute, o.compute), Later(d2h, o.d2h))
    }

    predicate Below(o: Clock) {
      host <= o.host && h2d <= o.h2d && compute <= o.compute && d2h <= o.d2h
    }
  }

  // The later of two log positions.
  function Later(a: nat, b: nat): nat {
    if a < b then b else a
  }

  const ZERO := Clock(0, 0, 0, 0)

  // What the next command of stream `s` may rely on when it starts.
  ghost function Known(log: seq<Entry>, s: Stream): Clock
    decreases |log|, 0
  {
    if log == [] then ZERO
    else
      var last := log[|log| - 1];
      var before := Known(log[..|log| - 1], s);
      if last.stream == s || last.stream == Host then before.Join(After(log)) else before
  }

  // What holds once the last command of `log` has run.
  ghost function After(log: seq<Entry>): Clock
    requires log != []
    decreases |log| - 1, 1
  {
    var last := log[|log| - 1];
    var before := log[..|log| - 1];
    var own := Known(before, last.stream).Raise(last.stream, |log|);
    match last.op
    case Wait(target) => if target < |before| then own.Join(After(log[..target + 1])) else own
    case Sync(t) => own.Join(Known(before, t))
    case _ => own
  }

  ghost predicate RaceFree(log: seq<Entry>) {
    forall i, j :: 0 <= i < j < |log| && Conflict(log[i].op, log[j].op) ==>
      i < Known(log[..j], log[j].stream).At(log[i].stream)
  }

  // ----- The machine

  datatype Machine = Machine(enqueued: nat, done: set<nat>, mem: Loc -> Val)

  datatype Action = Enqueue | Execute(index: nat)

  ghost predicate Enabled(log: seq<Entry>, s: Machine, a: Action) {
    match a
    case Enqueue =>
      && s.enqueued < |log|
      && forall i :: 0 <= i < s.enqueued && log[i].stream == Host ==> i in s.done
    case Execute(j) =>
      && j < s.enqueued <= |log| && j !in s.done
      && (forall i :: 0 <= i < j && log[i].stream == log[j].stream ==> i in s.done)
      && match log[j].op
         case Wait(target) => target < j ==> target in s.done
         case Sync(t) => forall i :: 0 <= i < j && log[i].stream == t ==> i in s.done
         case _ => true
  }

  ghost function Step(log: seq<Entry>, s: Machine, a: Action): Machine
    requires Enabled(log, s, a)
  {
    match a
    case Enqueue => s.(enqueued := s.enqueued + 1)
    case Execute(j) =>
      var op := log[j].op;
      Machine(s.enqueued, s.done + {j}, l => if Writes(op, l) then Result(op, l, s.mem) else s.mem(l))
  }

  const START := Machine(0, {}, l => Unset)

  // `s` is reached from the empty machine by the given actions, each enabled when taken.
  ghost predicate Reached(log: seq<Entry>, actions: seq<Action>, s: Machine)
    decreases |actions|
  {
    if actions == [] then s == START
    else
      var n := |actions| - 1;
      exists r :: Takes(log, r, actions[n], s) && Reached(log, actions[..n], r)
  }

  ghost predicate Takes(log: seq<Entry>, r: Machine, a: Action, s: Machine) {
    Enabled(log, r, a) && s == Step(log, r, a)
  }

  // ----- Invariants of every run

  ghost predicate Closed(log: seq<Entry>, s: Machine) {
    && s.enqueued <= |log|
    && (forall j :: j in s.done ==> j < s.enqueued)
    && (forall i :: 0 <= i < s.enqueued - 1 && log[i].stream == Host ==> i in s.done)
    && (forall i, j :: j in s.done && 0 <= i < j && log[i].stream == log[j].stream ==> i in s.done)
    && (forall j :: j in s.done && log[j].op.Wait? && log[j].op.target < j ==> log[j].op.target in s.done)
    && (forall i, j :: j in s.done && log[j].op.Sync? && 0 <= i < j && log[i].stream == log[j].op.stream
                       ==> i in s.done)
  }

  ghost predicate Holds(log: seq<Entry>, s: Machine, c: Clock) {
    forall i :: 0 <= i < |log| && i < c.At(log[i].stream) ==> i in s.done
  }

  // `k` separates the finished writers of `l` from the others.
  ghost predicate Cut(log: seq<Entry>, done: set<nat>, l: Loc, k: nat) {
    && k <= |log|
    && (forall i :: 0 <= i < k && Writes(log[i].op, l) ==> i in done)
    && (forall i :: k <= i < |log| && Writes(log[i].op, l) ==> i !in done)
  }

  ghost predicate Coherent(log: seq<Entry>, s: Machine) {
    forall l, k: nat :: Cut(log, s.done, l, k) ==> s.mem(l) == Mem(log[..k], l)
  }

  lemma {:induction false} KnownHolds(log: seq<Entry>, s: Machine, st: Stream, n: nat)
    requires Closed(log, s) && n <= |log|
    requires forall i :: 0 <= i < n && (log[i].stream == st || log[i].stream == Host) ==> i in s.done
    ensures Holds(log, s, Known(log[..n], st))
    decreases n, 0
  {
    if n > 0 {
      assert log[..n][..n - 1] == log[..n - 1];
      KnownHolds(log, s, st, n - 1);
      if log[n - 1].stream == st || log[n - 1].stream == Host {
        AfterHolds(log, s, n - 1);
      }
    }
  }

  lemma {:induction false} AfterHolds(log: seq<Entry>, s: Machine, j: nat)
    requires Closed(log, s) && j in s.done
    ensures Holds(log, s, After(log[..j + 1]))
    decreases j, 1
  {
    var p := log[..j + 1];
    assert p[..j] == log[..j];
    KnownHolds(log, s, log[j].stream, j);
    var known := Known(log[..j], log[j].stream);
    HoldsRaise(log, s, known, j);
    match log[j].op {
      case Wait(target) =>
        if target < j {
          assert p[..target + 1] == log[..target + 1];
          AfterHolds(log, s, target);
          HoldsJoin(log, s, known.Raise(log[j].stream, j + 1), After(log[..target + 1]));
        }
      case Sync(t) =>
        KnownHolds(log, s, t, j);
        HoldsJoin(log, s, known.Raise(log[j].stream, j + 1), Known(log[..j], t));
      case _ =>
    }
  }

  lemma HoldsRaise(log: seq<Entry>, s: Machine, c: Clock, j: nat)
    requires Closed(log, s) && j in s.done && Holds(log, s, c)
    ensures Holds(log, s, c.Raise(log[j].stream, j + 1))
  {
  }

  lemma HoldsJoin(log: seq<Entry>, s: Machine, a: Clock, b: Clock)
    requires Holds(log, s, a) && Holds(log, s, b)
    ensures Holds(log, s, a.Join(b))
  {
  }

  // When `j` is about to run, the writers before it have finished and no later one has.
  lemma ConflictsOrdered(log: seq<Entry>, s: Machine, j: nat, l: Loc)
    requires RaceFree(log) && Closed(log, s) && Enabled(log, s, Execute(j))
    requires Touches(log[j].op, l)
    ensures forall i :: 0 <= i < j && Writes(log[i].op, l) ==> i in s.done
    ensures forall i :: j < i < |log| && Writes(log[i].op, l) ==> i !in s.done
  {
    KnownHolds(log, s, log[j].stream, j);
    forall i | 0 <= i < j && Writes(log[i].op, l)
      ensures i in s.done
    {
      assert Conflict(log[i].op, log[j].op);
    }
    forall i | j < i < |log| && Writes(log[i].op, l)
      ensures i !in s.done
    {
      if i in s.done {
        assert Conflict(log[j].op, log[i].op);
        KnownHolds(log, s, log[i].stream, i);
        assert false;
      }
    }
  }

  lemma MemUnwritten(log: seq<Entry>, l: Loc, a: nat, b: nat)
    requires a <= b <= |log|
    requires forall i :: a <= i < b ==> !Writes(log[i].op, l)
    ensures Mem(log[..b], l) == Mem(log[..a], l)
    decreases b
  {
    if a < b {
      assert log[..b][..b - 1] == log[..b - 1];
      MemUnwritten(log, l, a, b - 1);
    }
  }

  /** Every command reads what it would read if the log ran sequentially. */
  lemma OperandsAgree(log: seq<Entry>, s: Machine, j: nat, l: Loc)
    requires RaceFree(log) && Closed(log, s) && Coherent(log, s) && Enabled(log, s, Execute(j))
    requires Reads(log[j].op, l)
    ensures s.mem(l) == Mem(log[..j], l)
  {
    ConflictsOrdered(log, s, j, l);
    assert Cut(log, s.done, l, j);
  }

  lemma ResultReadsOperands(op: Op, l: Loc, f: Loc -> Val, g: Loc -> Val)
    requires forall r :: Reads(op, r) ==> f(r) == g(r)
    ensures Result(op, l, f) == Result(op, l, g)
  {
  }

  // What entry j writes is what the sequential meaning holds from then on.
  lemma StepWrites(log: seq<Entry>, s: Machine, j: nat, l: Loc, k: nat)
    requires RaceFree(log) && Closed(log, s) && Coherent(log, s) && Enabled(log, s, Execute(j))
    requires Writes(log[j].op, l) && Cut(log, Step(log, s, Execute(j)).done, l, k)
    ensures Result(log[j].op, l, s.mem) == Mem(log[..k], l)
  {
    var op := log[j].op;
    ConflictsOrdered(log, s, j, l);
    assert j < k;
    MemUnwritten(log, l, j + 1, k);
    assert log[..j + 1][..j] == log[..j];
    forall r | Reads(op, r)
      ensures s.mem(r) == Mem(log[..j], r)
    {
      OperandsAgree(log, s, j, r);
    }
    ResultReadsOperands(op, l, s.mem, k => Mem(log[..j], k));
  }

  lemma StepCoherent(log: seq<Entry>, s: Machine, j: nat)
    requires RaceFree(log) && Closed(log, s) && Coherent(log, s) && Enabled(log, s, Execute(j))
    ensures Coherent(log, Step(log, s, Execute(j)))
  {
    hide RaceFree, Closed, Mem, Result;
    var t := Step(log, s, Execute(j));
    forall l, k: nat | Cut(log, t.done, l, k)
      ensures t.mem(l) == Mem(log[..k], l)
    {
      if Writes(log[j].op, l) {
        StepWrites(log, s, j, l, k);
      } else {
        assert Cut(log, s.done, l, k);
      }
    }
  }

  lemma StepClosed(log: seq<Entry>, s: Machine, a: Action)
    requires Closed(log, s) && Enabled(log, s, a)
    ensures Closed(log, Step(log, s, a))
  {
  }

  lemma {:induction false} ReachedInvariant(log: seq<Entry>, actions: seq<Action>, s: Machine)
    requires RaceFree(log) && Reached(log, actions, s)
    ensures Closed(log, s) && Coherent(log, s)
    decreases |actions|
  {
    if actions == [] {
      forall l, k: nat | Cut(log, s.done, l, k)
        ensures s.mem(l) == Mem(log[..k], l)
      {
        MemUnwritten(log, l, 0, k);
      }
    } else {
      var a := actions[|actions| - 1];
      var r :| Takes(log, r, a, s) && Reached(log, actions[..|actions| - 1], r);
      ReachedInvariant(log, actions[..|actions| - 1], r);
      StepClosed(log, r, a);
      match a {
        case Enqueue =>
          forall l, k: nat | Cut(log, s.done, l, k)
            ensures s.mem(l) == Mem(log[..k], l)
          {
            assert Cut(log, r.done, l, k);
          }
        case Execute(j) => StepCoherent(log, r, j);
      }
    }
  }

  // ----- Main results

  /** Whatever the interleaving, a command that is about to run sees sequential operands. */
  lemma InterleavingReadsSequentialValues(log: seq<Entry>, actions: seq<Action>, s: Machine, j: nat, l: Loc)
    requires RaceFree(log) && Reached(log, actions, s)
    requires Enabled(log, s, Execute(j)) && Reads(log[j].op, l)
    ensures s.mem(l) == Mem(log[..j], l)
  {
    ReachedInvariant(log, actions, s);
    OperandsAgree(log, s, j, l);
  }

  /** A location whose writers have all run holds its sequential value. */
  lemma InterleavingWritesSequentialValues(log: seq<Entry>, actions: seq<Action>, s: Machine, l: Loc)
    requires RaceFree(log) && Reached(log, actions, s)
    requires forall i :: 0 <= i < |log| && Writes(log[i].op, l) ==> i in s.done
    ensures s.mem(l) == Mem(log, l)
  {
    ReachedInvariant(log, actions, s);
    assert Cut(log, s.done, l, |log|);
    assert log[..|log|] == log;
  }

  /** No deadlock: while a command has not run, the host or a stream can make a step. */
  lemma Progress(log: seq<Entry>, actions: seq<Action>, s: Machine)
    requires RaceFree(log) && Reached(log, actions, s)
    requires exists i :: 0 <= i < |log| && i !in s.done
    ensures exists a :: Enabled(log, s, a)
  {
    ReachedInvariant(log, actions, s);
    var j := FirstPending(log, s.done);
    if j < s.enqueued {
      assert Enabled(log, s, Execute(j));
    } else {
      assert Enabled(log, s, Enqueue);
    }
  }

  lemma FirstPending(log: seq<Entry>, done: set<nat>) returns (j: nat)
    requires exists i :: 0 <= i < |log| && i !in done
    ensures j < |log| && j !in done && forall i :: 0 <= i < j ==> i in done
  {
    j := 0;
    while j in done
      invariant j <= |log| && forall i :: 0 <= i < j ==> i in done
      decreases |log| - j
    {
      j := j + 1;
    }
  }

  /** Every run is finite: it has at most one enqueue and one execution per command. */
  lemma {:induction false} RunsAreBounded(log: seq<Entry>, actions: seq<Action>, s: Machine)
    requires RaceFree(log) && Reached(log, actions, s)
    ensures |actions| == s.enqueued + |s.done| <= 2 * |log|
    decreases |actions|
  {
    ReachedInvariant(log, actions, s);
    if actions != [] {
      var a := actions[|actions| - 1];
      var r :| Takes(log, r, a, s) && Reached(log, actions[..|actions| - 1], r);
      RunsAreBounded(log, actions[..|actions| - 1], r);
    }
    BoundedSet(s.done, |log|);
  }

  lemma BoundedSet(a: set<nat>, n: nat)
    requires forall i :: i in a ==> i < n
    ensures |a| <= n
  {
    if n > 0 {
      BoundedSet(a - {n - 1}, n - 1);
    } else {
      assert a == {};
    }
  }
}
