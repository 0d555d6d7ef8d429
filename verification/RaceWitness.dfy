/** Race freedom is exact: without it, some interleaving runs two conflicting commands out of order. */
module RaceWitness {
  import opened CommandStreams
  import opened StreamClocks

  // ----- What a clock vouches for, it vouches for with all that came before it

  lemma AfterKnowsItself(log: seq<Entry>, k: nat)
    requires k < |log|
    ensures k < After(log[..k + 1]).At(log[k].stream)
  {
    assert log[..k + 1] == log[..k] + [log[k]];
    AfterAppend(log[..k], log[k]);
  }

  // A stream knows what its own earlier commands, and the host's, established.
  lemma {:induction false} KnowsPast(log: seq<Entry>, n: nat, s: Stream, k: nat)
    requires k < n <= |log| && (log[k].stream == s || log[k].stream == Host)
    ensures After(log[..k + 1]).Below(Known(log[..n], s))
    decreases n
  {
    assert log[..n] == log[..n - 1] + [log[n - 1]];
    KnownAppend(log[..n - 1], log[n - 1], s);
    if k < n - 1 {
      KnowsPast(log, n - 1, s, k);
      KnownGrows(log[..n - 1], log[n - 1], s);
    } else {
      JoinAbove(Known(log[..n - 1], s), After(log[..n]));
    }
  }

  ghost predicate Complete(log: seq<Entry>, c: Clock) {
    forall k :: 0 <= k < |log| && k < c.At(log[k].stream) ==> After(log[..k + 1]).Below(c)
  }

  lemma JoinComplete(log: seq<Entry>, a: Clock, b: Clock)
    requires Complete(log, a) && Complete(log, b)
    ensures Complete(log, a.Join(b))
  {
    hide After;
    JoinAbove(a, b);
    forall k | 0 <= k < |log| && k < a.Join(b).At(log[k].stream)
      ensures After(log[..k + 1]).Below(a.Join(b))
    {
      assert k < a.At(log[k].stream) || k < b.At(log[k].stream);
    }
  }

  lemma {:induction false} KnownComplete(log: seq<Entry>, n: nat, s: Stream)
    requires n <= |log|
    ensures Complete(log, Known(log[..n], s))
    decreases n, 0
  {
    hide Known, After, Complete;
    if n == 0 {
      NothingKnown(log, s);
    } else {
      assert log[..n] == log[..n - 1] + [log[n - 1]];
      KnownAppend(log[..n - 1], log[n - 1], s);
      KnownComplete(log, n - 1, s);
      AfterComplete(log, n - 1);
      JoinComplete(log, Known(log[..n - 1], s), After(log[..n]));
    }
  }

  lemma NothingKnown(log: seq<Entry>, s: Stream)
    ensures Complete(log, Known(log[..0], s))
  {
  }

  lemma {:induction false} AfterComplete(log: seq<Entry>, j: nat)
    requires j < |log|
    ensures Complete(log, After(log[..j + 1]))
    decreases j, 1
  {
    hide Known, After, Complete;
    var before, e := log[..j], log[j];
    assert log[..j + 1] == before + [e];
    var own := Known(before, e.stream).Raise(e.stream, j + 1);
    KnownComplete(log, j, e.stream);
    var c := After(log[..j + 1]);
    AfterAppend(before, e);
    if e.op.Wait? && e.op.target < j {
      AfterWait(before, e);
      AfterComplete(log, e.op.target);
      assert before[..e.op.target + 1] == log[..e.op.target + 1];
      JoinAbove(own, After(log[..e.op.target + 1]));
      RaisedComplete(log, j, After(log[..e.op.target + 1]), c);
    } else if e.op.Sync? {
      AfterSync(before, e);
      KnownComplete(log, j, e.op.stream);
      JoinAbove(own, Known(before, e.op.stream));
      RaisedComplete(log, j, Known(before, e.op.stream), c);
    } else {
      AfterPlain(before, e);
      RaisedComplete(log, j, ZERO, c);
    }
  }

  // The command's own step, joined with what it waited for.
  lemma RaisedComplete(log: seq<Entry>, j: nat, extra: Clock, c: Clock)
    requires j < |log| && c == After(log[..j + 1])
    requires c == Known(log[..j], log[j].stream).Raise(log[j].stream, j + 1).Join(extra)
    requires Complete(log, Known(log[..j], log[j].stream)) && (Complete(log, extra) || extra == ZERO)
    ensures Complete(log, c)
  {
    hide Known, After;
    var e := log[j];
    var known := Known(log[..j], e.stream);
    KnownBounded(log[..j], e.stream);
    forall k | 0 <= k < |log| && k < c.At(log[k].stream)
      ensures After(log[..k + 1]).Below(c)
    {
      JoinAbove(known.Raise(e.stream, j + 1), extra);
      assert known.Below(known.Raise(e.stream, j + 1));
      if k == j {
      } else if k < extra.At(log[k].stream) {
        assert After(log[..k + 1]).Below(extra);
      } else if log[k].stream == e.stream && k < j {
        KnowsPast(log, j, e.stream, k);
      } else {
        assert After(log[..k + 1]).Below(known);
      }
    }
  }

  // ----- A run of exactly what a command relies on

  // Of the first n commands, those the clock vouches for.
  function Past(log: seq<Entry>, c: Clock, n: nat): set<nat>
    requires n <= |log|
  {
    set k: nat | k < n && k < c.At(log[k].stream)
  }

  lemma StepReaches(log: seq<Entry>, actions: seq<Action>, r: Machine, a: Action)
    requires Reached(log, actions, r) && Enabled(log, r, a)
    ensures Reached(log, actions + [a], Step(log, r, a))
  {
    hide Enabled;
    assert (actions + [a])[..|actions|] == actions;
    assert Takes(log, r, a, Step(log, r, a));
  }

  // Clocks that know all of the host's commands and all that their commands rely on.
  ghost predicate Cause(log: seq<Entry>, c: Clock, j: nat) {
    && j <= |log| && Complete(log, c)
    && forall k :: 0 <= k < j && log[k].stream == Host ==> k < c.host
  }

  lemma PastEnabled(log: seq<Entry>, c: Clock, s: Machine, k: nat)
    requires k < |log| && Complete(log, c) && k < c.At(log[k].stream)
    requires s.enqueued == k + 1 && s.done == Past(log, c, k)
    ensures Enabled(log, s, Execute(k))
  {
    hide Known, After;
    var e := log[k];
    assert log[..k + 1] == log[..k] + [e];
    AfterAppend(log[..k], e);
    match e.op {
      case Wait(target) =>
        if target < k {
          AfterKnowsItself(log, target);
          assert log[..k][..target + 1] == log[..target + 1];
        }
      case Sync(t) =>
        forall i | 0 <= i < k && log[i].stream == t
          ensures i in s.done
        {
          KnowsItself(log[..k], i);
        }
      case _ =>
    }
  }

  lemma PastGrows(log: seq<Entry>, c: Clock, n: nat)
    requires n < |log|
    ensures Past(log, c, n + 1) == Past(log, c, n) + if n < c.At(log[n].stream) then {n} else {}
  {
  }

  lemma {:induction false} RunPast(log: seq<Entry>, c: Clock, j: nat, n: nat) returns (actions: seq<Action>, s: Machine)
    requires Cause(log, c, j) && n <= j
    ensures Reached(log, actions, s) && s.enqueued == n && s.done == Past(log, c, n)
  {
    hide Known, After, Complete;
    if n == 0 {
      actions, s := [], START;
    } else {
      actions, s := RunPast(log, c, j, n - 1);
      StepReaches(log, actions, s, Enqueue);
      actions, s := actions + [Enqueue], Step(log, s, Enqueue);
      PastGrows(log, c, n - 1);
      if n - 1 < c.At(log[n - 1].stream) {
        PastEnabled(log, c, s, n - 1);
        StepReaches(log, actions, s, Execute(n - 1));
        actions, s := actions + [Execute(n - 1)], Step(log, s, Execute(n - 1));
      }
    }
  }

  lemma KnownCause(log: seq<Entry>, j: nat)
    requires j < |log|
    ensures Cause(log, Known(log[..j], log[j].stream), j)
  {
    hide Known, After, Complete;
    var c := Known(log[..j], log[j].stream);
    KnownComplete(log, j, log[j].stream);
    forall k | 0 <= k < j && log[k].stream == Host
      ensures k < c.host
    {
      KnowsPast(log, j, log[j].stream, k);
      AfterKnowsItself(log, k);
    }
  }

  /** A command can run, on the contents it finds, before any earlier one its stream does not know to have finished. */
  lemma RunsEarly(log: seq<Entry>, i: nat, j: nat) returns (actions: seq<Action>, s: Machine, found: Loc -> Val)
    requires i < j < |log| && !log[j].op.Wait? && !log[j].op.Sync?
    requires i >= Known(log[..j], log[j].stream).At(log[i].stream)
    ensures Reached(log, actions, s) && j in s.done && i !in s.done
    ensures forall l :: Writes(log[j].op, l) ==> s.mem(l) == Result(log[j].op, l, found)
  {
    hide Known, After, Complete;
    var c := Known(log[..j], log[j].stream);
    KnownCause(log, j);
    actions, s := RunPast(log, c, j, j);
    StepReaches(log, actions, s, Enqueue);
    actions, s := actions + [Enqueue], Step(log, s, Enqueue);
    forall k | 0 <= k < j && log[k].stream == log[j].stream
      ensures k in s.done
    {
      KnowsItself(log[..j], k);
    }
    StepReaches(log, actions, s, Execute(j));
    found := s.mem;
    actions, s := actions + [Execute(j)], Step(log, s, Execute(j));
  }

  // Conflicting commands finish in the order they were enqueued.
  ghost predicate InOrder(log: seq<Entry>, s: Machine) {
    forall i, j :: 0 <= i < j < |log| && j in s.done && Conflict(log[i].op, log[j].op) ==> i in s.done
  }

  /** A program is race free exactly when every interleaving runs conflicting commands in program order. */
  lemma RaceFreeExactly(log: seq<Entry>)
    ensures RaceFree(log) <==> forall actions, s :: Reached(log, actions, s) ==> InOrder(log, s)
  {
    hide Known, Reached, Conflict;
    if RaceFree(log) {
      forall actions, s | Reached(log, actions, s)
        ensures InOrder(log, s)
      {
        ReachedInvariant(log, actions, s);
        forall i, j | 0 <= i < j < |log| && j in s.done && Conflict(log[i].op, log[j].op)
          ensures i in s.done
        {
          KnownHolds(log, s, log[j].stream, j);
        }
      }
    } else {
      var i, j :| 0 <= i < j < |log| && Conflict(log[i].op, log[j].op)
                  && i >= Known(log[..j], log[j].stream).At(log[i].stream);
      ConflictTouches(log[i].op, log[j].op);
      var actions, s, found := RunsEarly(log, i, j);
      assert !InOrder(log, s);
    }
  }

  lemma ConflictTouches(a: Op, b: Op)
    requires Conflict(a, b)
    ensures !b.Wait? && !b.Sync?
  {
  }
}
