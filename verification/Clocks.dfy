/**
 What appending one command does to the clocks of a log, and when it keeps the
 log race free.
 */
module StreamClocks {
  import opened CommandStreams

  // `c` vouches for every command of `log` that touches `l`.
  ghost predicate Covered(log: seq<Entry>, c: Clock, l: Loc) {
    forall i :: 0 <= i < |log| && Touches(log[i].op, l) ==> i < c.At(log[i].stream)
  }

  ghost predicate Seen(log: seq<Entry>, c: Clock, s: Stream) {
    Known(log, s).At(s) <= c.At(s)
  }

  // The host has just waited for everything it enqueued.
  ghost predicate Drained(log: seq<Entry>) {
    log == [] ||
    (log[|log| - 1].stream == Host && forall s :: s != Host ==> Seen(log, After(log), s))
  }

  lemma KnownAppend(log: seq<Entry>, e: Entry, s: Stream)
    ensures Known(log + [e], s) ==
            if e.stream == s || e.stream == Host then Known(log, s).Join(After(log + [e])) else Known(log, s)
  {
    assert (log + [e])[..|log|] == log;
  }

  lemma AfterWaitIs(grown: seq<Entry>, log: seq<Entry>, e: Entry, captured: seq<Entry>)
    requires grown != [] && grown[..|grown| - 1] == log && grown[|grown| - 1] == e
    requires e.op.Wait? && e.op.target < |log| && captured == grown[..e.op.target + 1]
    ensures After(grown) == Known(log, e.stream).Raise(e.stream, |log| + 1).Join(After(captured))
  {
    hide Known;
  }

  lemma AfterWait(log: seq<Entry>, e: Entry)
    requires e.op.Wait? && e.op.target < |log|
    ensures After(log + [e]) == Known(log, e.stream).Raise(e.stream, |log| + 1).Join(After(log[..e.op.target + 1]))
  {
    hide Known, After;
    assert (log + [e])[..|log|] == log && (log + [e])[..e.op.target + 1] == log[..e.op.target + 1];
    AfterWaitIs(log + [e], log, e, log[..e.op.target + 1]);
  }

  lemma AfterSync(log: seq<Entry>, e: Entry)
    requires e.op.Sync?
    ensures After(log + [e]) == Known(log, e.stream).Raise(e.stream, |log| + 1).Join(Known(log, e.op.stream))
  {
    hide Known;
    assert (log + [e])[..|log|] == log;
  }

  lemma AfterPlain(log: seq<Entry>, e: Entry)
    requires !e.op.Sync? && (e.op.Wait? ==> e.op.target >= |log|)
    ensures After(log + [e]) == Known(log, e.stream).Raise(e.stream, |log| + 1)
  {
    hide Known;
    assert (log + [e])[..|log|] == log;
  }

  lemma AfterAppend(log: seq<Entry>, e: Entry)
    ensures Known(log, e.stream).Raise(e.stream, |log| + 1).Below(After(log + [e]))
    ensures e.op.Wait? && e.op.target < |log| ==> After(log[..e.op.target + 1]).Below(After(log + [e]))
    ensures e.op.Sync? ==> Known(log, e.op.stream).Below(After(log + [e]))
    ensures !e.op.Wait? && !e.op.Sync? ==>
              After(log + [e]) == Known(log, e.stream).Raise(e.stream, |log| + 1)
  {
    hide After, Known;
    var own := Known(log, e.stream).Raise(e.stream, |log| + 1);
    if e.op.Wait? && e.op.target < |log| {
      AfterWait(log, e);
      JoinAbove(own, After(log[..e.op.target + 1]));
    } else if e.op.Sync? {
      AfterSync(log, e);
      JoinAbove(own, Known(log, e.op.stream));
    } else {
      AfterPlain(log, e);
    }
  }

  lemma JoinAbove(a: Clock, b: Clock)
    ensures a.Below(a.Join(b)) && b.Below(a.Join(b))
  {
  }

  lemma JoinMonotone(a: Clock, b: Clock, c: Clock, d: Clock)
    requires a.Below(c) && b.Below(d)
    ensures a.Join(b).Below(c.Join(d))
  {
  }

  // Appending only adds knowledge, and the appending stream knows the new command.
  lemma KnownGrows(log: seq<Entry>, e: Entry, s: Stream)
    ensures Known(log, s).Below(Known(log + [e], s))
    ensures e.stream == s ==> |log| < Known(log + [e], s).At(s)
    ensures e.stream == s ==> After(log + [e]).Below(Known(log + [e], s))
  {
    KnownAppend(log, e, s);
    AfterAppend(log, e);
    JoinAbove(Known(log, s), After(log + [e]));
  }

  // A recording or an ordinary command teaches its stream nothing but itself.
  lemma OwnStep(log: seq<Entry>, e: Entry)
    requires !e.op.Wait? && !e.op.Sync? && e.stream != Host
    ensures Known(log + [e], e.stream) == After(log + [e]) == Known(log, e.stream).Raise(e.stream, |log| + 1)
  {
    KnownAppend(log, e, e.stream);
    AfterAppend(log, e);
    KnownBounded(log, e.stream);
  }

  lemma {:induction false} KnownBounded(log: seq<Entry>, s: Stream)
    ensures Known(log, s).Below(Clock(|log|, |log|, |log|, |log|))
    decreases |log|, 0
  {
    if log != [] {
      KnownBounded(log[..|log| - 1], s);
      AfterBounded(log);
    }
  }

  lemma {:induction false} AfterBounded(log: seq<Entry>)
    requires log != []
    ensures After(log).Below(Clock(|log|, |log|, |log|, |log|))
    decreases |log| - 1, 1
  {
    var before := log[..|log| - 1];
    var last := log[|log| - 1];
    KnownBounded(before, last.stream);
    match last.op {
      case Wait(target) => if target < |before| { AfterBounded(log[..target + 1]); }
      case Sync(t) => KnownBounded(before, t);
      case _ =>
    }
  }

  // Every stream knows its own past.
  lemma {:induction false} KnowsItself(log: seq<Entry>, i: nat)
    requires i < |log|
    ensures i < Known(log, log[i].stream).At(log[i].stream)
    decreases |log|
  {
    var before := log[..|log| - 1];
    var last := log[|log| - 1];
    assert log == before + [last];
    KnownAppend(before, last, log[i].stream);
    AfterAppend(before, last);
    if i < |before| {
      KnowsItself(before, i);
    }
  }

  lemma RaceFreeAppend(log: seq<Entry>, e: Entry)
    requires RaceFree(log)
    requires forall l :: Touches(e.op, l) ==> Covered(log, Known(log, e.stream), l)
    ensures RaceFree(log + [e])
  {
    var grown := log + [e];
    forall i, j | 0 <= i < j < |grown| && Conflict(grown[i].op, grown[j].op)
      ensures i < Known(grown[..j], grown[j].stream).At(grown[i].stream)
    {
      if j < |log| {
        assert grown[..j] == log[..j];
      } else {
        assert grown[..j] == log;
        var l :| Touches(grown[i].op, l) && Touches(e.op, l);
      }
    }
  }

  lemma RaceFreePrefix(log: seq<Entry>, n: nat)
    requires RaceFree(log) && n <= |log|
    ensures RaceFree(log[..n])
  {
    forall i, j | 0 <= i < j < n && Conflict(log[i].op, log[j].op)
      ensures i < Known(log[..n][..j], log[j].stream).At(log[i].stream)
    {
      assert log[..n][..j] == log[..j];
    }
  }

  lemma CoveredAppend(log: seq<Entry>, e: Entry, c: Clock, d: Clock, l: Loc)
    requires Covered(log, c, l) && c.Below(d)
    requires Touches(e.op, l) ==> |log| < d.At(e.stream)
    ensures Covered(log + [e], d, l)
  {
  }

  lemma CoveredBelow(log: seq<Entry>, c: Clock, d: Clock, l: Loc)
    requires Covered(log, c, l) && c.Below(d)
    ensures Covered(log, d, l)
  {
  }

  lemma MemAppend(log: seq<Entry>, e: Entry, l: Loc)
    ensures Mem(log + [e], l) ==
            if Writes(e.op, l) then Result(e.op, l, k => Mem(log, k)) else Mem(log, l)
  {
    assert (log + [e])[..|log|] == log;
  }

  // After a complete synchronization every stream may touch every location.
  lemma DrainedCovers(log: seq<Entry>, s: Stream, l: Loc)
    requires Drained(log) && s != Host
    requires forall i :: 0 <= i < |log| && log[i].stream == Host ==> log[i].op.Sync?
    ensures Covered(log, Known(log, s), l)
  {
    forall i | 0 <= i < |log| && Touches(log[i].op, l)
      ensures i < Known(log, s).At(log[i].stream)
    {
      KnowsItself(log, i);
      var before, last := log[..|log| - 1], log[|log| - 1];
      assert log == before + [last];
      KnownAppend(before, last, s);
      assert Seen(log, After(log), log[i].stream);
    }
  }

  /** Once the host has passed a complete synchronization, every command has run. */
  lemma DrainedMeansDone(log: seq<Entry>, s: Machine)
    requires Closed(log, s) && Drained(log)
    requires log != [] ==> |log| - 1 in s.done
    ensures forall i :: 0 <= i < |log| ==> i in s.done
  {
    if log != [] {
      assert log[..|log|] == log;
      AfterHolds(log, s, |log| - 1);
      forall i | 0 <= i < |log|
        ensures i in s.done
      {
        KnowsItself(log, i);
        if log[i].stream != Host {
          assert Seen(log, After(log), log[i].stream);
        }
      }
    }
  }
}
