/** How much one claim takes from the batch. */
module ClaimSizes {
  import opened Basics
  import opened Alignment
  import opened QueryTasks
  import opened QueryTiling
  import opened Dispatcher

  lemma CeilIs(x: real, n: int)
    ensures n <= Ceil(x) <==> (n - 1) as real < x
  {
    CeilBounds(x);
  }

  lemma DividedBelow(n: int, x: real, d: real)
    requires d > 0.0
    ensures n as real < x / d <==> n as real * d < x
  {
    var q := x / d;
    assert q * d == x;
    if n as real < q {
      assert (q - n as real) * d > 0.0;
      assert (q - n as real) * d == q * d - n as real * d;
    } else {
      assert (n as real - q) * d >= 0.0;
      assert (n as real - q) * d == n as real * d - q * d;
    }
  }

  /** Workers that can still expect a full request: as many as there are, while the requests of the others leave something. */
  lemma TailWorkersAre(workers: int, remaining: nat, requested: nat, n: int)
    requires requested > 0 && n >= 1
    ensures n <= TailWorkers(workers, remaining, requested) <==>
            n == 1 || (n <= workers && (n - 1) * requested < remaining)
  {
    CeilIs(remaining as real / requested as real, n);
    DividedBelow(n - 1, remaining as real, requested as real);
    assert (n - 1) as real * requested as real == ((n - 1) * requested) as real;
  }

  // The n-th row of a claim is inside the balanced share when the rows before it are below it.
  predicate InShare(n: int, workers: int, remaining: int, balance: real) {
    (n - 1) as real * workers as real < remaining as real * balance
  }

  lemma TailLimitIs(workers: int, remaining: nat, balance: real, requested: nat, n: int)
    requires requested > 0
    ensures TailWorkers(workers, remaining, requested) >= 1
    ensures n <= TailLimit(workers, remaining, balance, requested) <==>
            InShare(n, TailWorkers(workers, remaining, requested), remaining, balance)
  {
    TailWorkersAre(workers, remaining, requested, 1);
    var w := TailWorkers(workers, remaining, requested) as real;
    var share := remaining as real / w * balance;
    CeilIs(share, n);
    assert share == (remaining as real * balance) / w;
    DividedBelow(n - 1, remaining as real * balance, w);
  }

  /**
   A claim takes rows while they fit the request, the segment, and the balanced share of
   what is left, and at least one; its flags say which of the last two cut it short.
   */
  lemma ClaimSize(b: Batch, c: Cursor, device: int, requested: int, n: int)
    requires ValidBatch(b) && Placed(b, c) && Claim(b, c, device, requested).1.Claimed? && n >= 1
    ensures var task := Claim(b, c, device, requested).1.task;
            var w := TailWorkers(c.activeWorkers, c.remaining, requested);
            var size, left := task.QTokens(), b.qBounds[task.segmentId + 1] - task.qStart;
            && 0 <= task.segmentId && task.segmentId + 1 < |b.qBounds|
            && (n <= size <==> n <= requested && n <= left && (n == 1 || InShare(n, w, c.remaining, b.balance)))
            && (task.segmentClamped <==> size < requested && size == left)
            && (task.tailClamped <==> size < requested && InShare(size, w, c.remaining, b.balance)
                                                       && !InShare(size + 1, w, c.remaining, b.balance))
  {
    hide ValidBatch, InShare, TailLimit, TailWorkers;
    AdvanceMeans(b, c);
    var at := Advance(b, c);
    var task := Claim(b, c, device, requested).1.task;
    TailLimitIs(c.activeWorkers, c.remaining, b.balance, requested, n);
    TailLimitIs(c.activeWorkers, c.remaining, b.balance, requested, task.QTokens());
    TailLimitIs(c.activeWorkers, c.remaining, b.balance, requested, task.QTokens() + 1);
  }
}
