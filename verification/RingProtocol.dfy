/**
 The ready/free event protocol over the device buffers, on snapshots of the
 workspace.  A buffer is safe while its writer stream, after its optional wait
 for the free event, knows every command that touched the buffer.
 */
module RingProtocol {
  import opened CommandStreams
  import opened StreamClocks

  datatype Event =
    | QReady | QFree
    | KVReady(slot: nat) | KVFree(slot: nat)
    | OutReady(slot: nat) | OutFree(slot: nat)

  // Snapshot of the workspace: the commands enqueued so far, the command that
  // last recorded each event, and the pending flags.
  datatype Snapshot = Snapshot(
    log: seq<Entry>, recorded: map<Event, nat>,
    pending: set<Loc>, hostOutput: bool, tensors: nat)

  // Device tensors that can hold finalized rows.
  predicate Holder(l: Loc) {
    l.Q? || l.Out? || l.Fresh?
  }

  // Each kind of command belongs to one stream.
  predicate Placed(e: Entry) {
    match e.op
    case CopyQ(_, _) => e.stream == H2D
    case CopyKV(_, _, _) => e.stream == H2D
    case CopyOut(src, _, _) => e.stream == D2H && Holder(src)
    case Finalize(dst, _) => e.stream == Compute && Holder(dst)
    case Transform(src, dst, _, _) => e.stream == Compute && Holder(src) && Holder(dst)
    case Consume(src, _, _) => e.stream == Compute && Holder(src)
    case Record => e.stream != Host
    case Wait(_) => e.stream != Host
    case Sync(s) => e.stream == Host && s != Host
    case _ => e.stream == Compute
  }

  // ----- Buffers handed over by a free event

  predicate Ring(l: Loc) {
    l.Q? || l.KV? || l.Out?
  }

  function Writer(l: Loc): Stream {
    if l.Out? then Compute else H2D
  }

  function FreeEvent(l: Loc): Event
    requires Ring(l)
  {
    match l
    case Q => QFree
    case KV(i) => KVFree(i)
    case Out(i) => OutFree(i)
  }

  // ----- Host calls

  function Push(w: Snapshot, s: Stream, op: Op): Snapshot {
    w.(log := w.log + [Entry(s, op)])
  }

  function RecordOn(w: Snapshot, s: Stream, ev: Event): Snapshot {
    Push(w, s, Record).(recorded := w.recorded[ev := |w.log|])
  }

  function WaitOn(w: Snapshot, s: Stream, ev: Event): Snapshot {
    if ev in w.recorded then Push(w, s, Wait(w.recorded[ev])) else w
  }

  function Acquire(w: Snapshot, l: Loc): Snapshot
    requires Ring(l)
  {
    if l in w.pending then WaitOn(w, Writer(l), FreeEvent(l)) else w
  }

  function Release(w: Snapshot, s: Stream, l: Loc): Snapshot
    requires Ring(l)
  {
    RecordOn(w, s, FreeEvent(l)).(pending := w.pending + {l})
  }

  function Load(w: Snapshot, l: Loc, op: Op, ready: Event): Snapshot
    requires Ring(l)
  {
    WaitOn(RecordOn(Push(Acquire(w, l), H2D, op), H2D, ready), Compute, ready)
  }

  // ----- Invariants

  ghost predicate Sound(w: Snapshot) {
    && RaceFree(w.log)
    && (forall i :: 0 <= i < |w.log| ==> Placed(w.log[i]))
    && (forall ev :: ev in w.recorded ==> w.recorded[ev] < |w.log|)
    && (forall l :: Ring(l) && l in w.pending ==> FreeEvent(l) in w.recorded)
    && (forall i, l :: 0 <= i < |w.log| && Unused(w, l) ==> !Touches(w.log[i].op, l))
  }

  predicate Unused(w: Snapshot, l: Loc) {
    (l.Fresh? && w.tensors <= l.id) || (l.Out? && !w.hostOutput)
  }

  // What a wait on `ev` would learn now.
  ghost function Signal(w: Snapshot, ev: Event): Clock {
    if ev in w.recorded && w.recorded[ev] < |w.log| then After(w.log[..w.recorded[ev] + 1]) else ZERO
  }

  // What the writer of `l` knows once it has waited, when the flag asks it to.
  ghost function View(w: Snapshot, l: Loc): Clock
    requires Ring(l)
  {
    var known := Known(w.log, Writer(l));
    if l in w.pending then known.Join(Signal(w, FreeEvent(l))) else known
  }

  ghost predicate Safe(w: Snapshot, l: Loc) {
    Ring(l) && Covered(w.log, View(w, l), l)
  }

  ghost predicate Ready(w: Snapshot, s: Stream, l: Loc) {
    Covered(w.log, Known(w.log, s), l)
  }

  ghost predicate AllSafe(w: Snapshot, except: set<Loc>) {
    forall l :: Ring(l) && l !in except ==> Safe(w, l)
  }

  ghost predicate CaughtUp(w: Snapshot, s: Stream) {
    Seen(w.log, Known(w.log, Compute), s)
  }

  ghost predicate Admissible(w: Snapshot, s: Stream, op: Op) {
    && Placed(Entry(s, op))
    && (forall l :: Touches(op, l) ==> Ready(w, s, l) && !Unused(w, l))
  }

  // ----- One command

  // Signals are about the past, so appending does not change them.
  lemma SignalAppend(w: Snapshot, s: Stream, op: Op, ev: Event)
    requires ev in w.recorded ==> w.recorded[ev] < |w.log|
    ensures Signal(Push(w, s, op), ev) == Signal(w, ev)
  {
    if ev in w.recorded {
      assert Push(w, s, op).log[..w.recorded[ev] + 1] == w.log[..w.recorded[ev] + 1];
    }
  }

  lemma PushSafe(w: Snapshot, s: Stream, op: Op, l: Loc)
    requires Safe(w, l) && (FreeEvent(l) in w.recorded ==> w.recorded[FreeEvent(l)] < |w.log|)
    requires Touches(op, l) ==> s == Writer(l)
    ensures Safe(Push(w, s, op), l)
  {
    var v, e := Push(w, s, op), Entry(s, op);
    KnownGrows(w.log, e, Writer(l));
    SignalAppend(w, s, op, FreeEvent(l));
    var signal := Signal(w, FreeEvent(l));
    JoinMonotone(Known(w.log, Writer(l)), signal, Known(v.log, Writer(l)), signal);
    JoinAbove(Known(v.log, Writer(l)), signal);
    CoveredAppend(w.log, e, View(w, l), View(v, l), l);
  }

  lemma PushReady(w: Snapshot, s: Stream, op: Op, t: Stream, l: Loc)
    requires Ready(w, t, l)
    requires Touches(op, l) ==> s == t
    ensures Ready(Push(w, s, op), t, l)
  {
    var e := Entry(s, op);
    KnownGrows(w.log, e, t);
    CoveredAppend(w.log, e, Known(w.log, t), Known(w.log + [e], t), l);
  }

  lemma PushSound(w: Snapshot, s: Stream, op: Op)
    requires Sound(w) && Admissible(w, s, op)
    ensures Sound(Push(w, s, op))
  {
    RaceFreeAppend(w.log, Entry(s, op));
    var v := Push(w, s, op);
    forall i, l | 0 <= i < |v.log| && Unused(v, l)
      ensures !Touches(v.log[i].op, l)
    {
      assert Unused(w, l);
    }
  }

  // A command of another device stream keeps the compute stream caught up with `t`.
  lemma PushCaughtUp(w: Snapshot, s: Stream, op: Op, t: Stream)
    requires CaughtUp(w, t) && s != Host && s != t && t != Host
    ensures CaughtUp(Push(w, s, op), t)
  {
    KnownAppend(w.log, Entry(s, op), t);
    KnownGrows(w.log, Entry(s, op), Compute);
  }

  // Nothing a later command relies on is lost, except by the command's own touches.
  ghost predicate Keeps(w: Snapshot, v: Snapshot, s: Stream, op: Op) {
    && Sound(v)
    && (forall l :: Safe(w, l) && (Touches(op, l) ==> s == Writer(l)) ==> Safe(v, l))
    && (forall t, l :: Ready(w, t, l) && (Touches(op, l) ==> s == t) ==> Ready(v, t, l))
  }

  lemma PushKeeps(w: Snapshot, s: Stream, op: Op)
    requires Sound(w) && Admissible(w, s, op)
    ensures Keeps(w, Push(w, s, op), s, op)
  {
    PushSound(w, s, op);
    forall l | Safe(w, l) && (Touches(op, l) ==> s == Writer(l))
      ensures Safe(Push(w, s, op), l)
    {
      PushSafe(w, s, op, l);
    }
    forall t, l | Ready(w, t, l) && (Touches(op, l) ==> s == t)
      ensures Ready(Push(w, s, op), t, l)
    {
      PushReady(w, s, op, t, l);
    }
  }

  lemma PushMem(w: Snapshot, s: Stream, op: Op)
    ensures forall l :: Mem(Push(w, s, op).log, l) ==
              if Writes(op, l) then Result(op, l, k => Mem(w.log, k)) else Mem(w.log, l)
  {
    forall l
      ensures Mem(Push(w, s, op).log, l) ==
              if Writes(op, l) then Result(op, l, k => Mem(w.log, k)) else Mem(w.log, l)
    {
      MemAppend(w.log, Entry(s, op), l);
    }
  }

  // ----- Events

  // Nothing a later command relies on is lost, and no buffer changes.
  ghost predicate Steady(w: Snapshot, v: Snapshot) {
    && Sound(v)
    && (forall l :: Safe(w, l) ==> Safe(v, l))
    && (forall t, l :: Ready(w, t, l) ==> Ready(v, t, l))
    && (forall l :: Mem(v.log, l) == Mem(w.log, l))
  }

  lemma PushQuietKeeps(w: Snapshot, s: Stream, op: Op)
    requires Sound(w) && Placed(Entry(s, op)) && (op.Record? || op.Wait? || op.Sync?)
    ensures Steady(w, Push(w, s, op))
  {
    PushKeeps(w, s, op);
    PushMem(w, s, op);
  }

  lemma RecordSignal(w: Snapshot, s: Stream, ev: Event)
    requires s != Host
    ensures var v := RecordOn(w, s, ev); ev in v.recorded && Signal(v, ev) == Known(v.log, s)
  {
    var v := RecordOn(w, s, ev);
    OwnStep(w.log, Entry(s, Record));
    assert v.log[..|v.log|] == v.log;
  }

  lemma RecordKeeps(w: Snapshot, s: Stream, ev: Event)
    requires Sound(w) && s != Host
    ensures var v := RecordOn(w, s, ev);
            && Sound(v)
            && (forall l :: Safe(w, l) && FreeEvent(l) != ev ==> Safe(v, l))
            && (forall t, l :: Ready(w, t, l) ==> Ready(v, t, l))
            && (forall l :: Mem(v.log, l) == Mem(w.log, l))
  {
    var u, v := Push(w, s, Record), RecordOn(w, s, ev);
    PushQuietKeeps(w, s, Record);
    RecordedSound(u, ev);
    forall l | Safe(w, l) && FreeEvent(l) != ev
      ensures Safe(v, l)
    {
      assert Signal(v, FreeEvent(l)) == Signal(u, FreeEvent(l));
    }
  }

  lemma RecordedSound(u: Snapshot, ev: Event)
    requires Sound(u) && u.log != []
    ensures Sound(u.(recorded := u.recorded[ev := |u.log| - 1]))
  {
    var v := u.(recorded := u.recorded[ev := |u.log| - 1]);
    forall i, l | 0 <= i < |v.log| && Unused(v, l)
      ensures !Touches(v.log[i].op, l)
    {
      assert Unused(u, l);
    }
  }

  lemma WaitKeeps(w: Snapshot, s: Stream, ev: Event)
    requires Sound(w) && s != Host && ev in w.recorded
    ensures var v := WaitOn(w, s, ev);
            Steady(w, v) && Signal(w, ev).Below(Known(v.log, s)) && Known(w.log, s).Below(Known(v.log, s))
  {
    var e := Entry(s, Wait(w.recorded[ev]));
    PushQuietKeeps(w, s, e.op);
    AfterAppend(w.log, e);
    KnownGrows(w.log, e, s);
  }

  // A wait makes ready everything the signal vouches for.
  lemma WaitReady(w: Snapshot, s: Stream, ev: Event, l: Loc)
    requires Sound(w) && s != Host && ev in w.recorded
    requires Covered(w.log, Signal(w, ev), l) || Ready(w, s, l)
    ensures Ready(WaitOn(w, s, ev), s, l)
  {
    var e := Entry(s, Wait(w.recorded[ev]));
    WaitKeeps(w, s, ev);
    var known := Known(w.log + [e], s);
    if Ready(w, s, l) {
      CoveredAppend(w.log, e, Known(w.log, s), known, l);
    } else {
      CoveredAppend(w.log, e, Signal(w, ev), known, l);
    }
  }

  // ----- Handing a buffer over

  lemma AcquireKeeps(w: Snapshot, l: Loc)
    requires Sound(w) && Safe(w, l)
    ensures Steady(w, Acquire(w, l)) && Ready(Acquire(w, l), Writer(l), l)
  {
    if l in w.pending {
      var s, ev := Writer(l), FreeEvent(l);
      var v, e := Acquire(w, l), Entry(s, Wait(w.recorded[ev]));
      WaitKeeps(w, s, ev);
      var known := Known(v.log, s);
      JoinMonotone(Known(w.log, s), Signal(w, ev), known, known);
      CoveredAppend(w.log, e, View(w, l), known, l);
    }
  }

  lemma ReleaseKeeps(w: Snapshot, s: Stream, l: Loc)
    requires Sound(w) && s != Host && Ring(l) && Ready(w, s, l)
    ensures var v := Release(w, s, l);
            && Sound(v) && Safe(v, l)
            && (forall k :: Safe(w, k) ==> Safe(v, k))
            && (forall t, k :: Ready(w, t, k) ==> Ready(v, t, k))
            && (forall k :: Mem(v.log, k) == Mem(w.log, k))
  {
    hide Sound, Known, Mem;
    var ev := FreeEvent(l);
    var u, v := RecordOn(w, s, ev), Release(w, s, l);
    RecordKeeps(w, s, ev);
    RecordSignal(w, s, ev);
    FlagSound(u, l);
    FlagSafe(u, s, l);
    forall k | Safe(w, k)
      ensures Safe(v, k)
    {
      if k != l {
        assert FreeEvent(k) != ev;
        assert View(v, k) == View(u, k);
      }
    }
  }

  lemma FlagSound(u: Snapshot, l: Loc)
    requires Sound(u) && Ring(l) && FreeEvent(l) in u.recorded
    ensures Sound(u.(pending := u.pending + {l}))
  {
    var v := u.(pending := u.pending + {l});
    forall i, k | 0 <= i < |v.log| && Unused(v, k)
      ensures !Touches(v.log[i].op, k)
    {
      assert Unused(u, k);
    }
  }

  lemma FlagSafe(u: Snapshot, s: Stream, l: Loc)
    requires Ring(l) && Ready(u, s, l) && Signal(u, FreeEvent(l)) == Known(u.log, s)
    ensures Safe(u.(pending := u.pending + {l}), l)
  {
    var v := u.(pending := u.pending + {l});
    assert Signal(v, FreeEvent(l)) == Known(u.log, s);
    JoinAbove(Known(v.log, Writer(l)), Signal(v, FreeEvent(l)));
    CoveredBelow(u.log, Known(u.log, s), View(v, l), l);
  }
}
