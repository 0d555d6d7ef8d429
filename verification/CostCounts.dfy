/** The amounts behind the cost estimate, counted element by element. */
module CostCounts {
  import opened Sums
  import opened RangeCost

  // A multiplication and an addition for each product of query and key, and of weight and value.
  function Operations(q: nat, k: nat, heads: nat, width: nat): int {
    Count(0, q, r => Count(0, k, t => Count(0, heads, h => Count(0, width, d => 2 + 2))))
  }

  lemma OperationsAre(q: nat, k: nat, heads: nat, width: nat)
    ensures Operations(q, k, heads, width) == q * (k * (heads * (width * 4)))
  {
    CountConstant(0, width, d => 2 + 2, 4);
    CountConstant(0, heads, h => Count(0, width, d => 2 + 2), width * 4);
    CountConstant(0, k, t => Count(0, heads, h => Count(0, width, d => 2 + 2)), heads * (width * 4));
    CountConstant(0, q, r => Count(0, k, t => Count(0, heads, h => Count(0, width, d => 2 + 2))), k * (heads * (width * 4)));
  }

  /** The estimate's amounts, counted: query rows; keys and values; operations of both products. */
  lemma AmountsAreCounts(q: nat, k: nat, shape: Shape)
    ensures QBytes(q, shape) == Elements(q, shape.qHeads, shape.headDim, shape.elementSize)
    ensures KvBytes(k, shape) == Elements(k, shape.kvHeads, shape.headDim, shape.elementSize)
                                 + Elements(k, shape.kvHeads, shape.headDim, shape.elementSize)
    ensures Flops(q, k, shape) == Operations(q, k, shape.qHeads, shape.headDim)
  {
    ElementsAre(q, shape.qHeads, shape.headDim, shape.elementSize);
    ElementsAre(k, shape.kvHeads, shape.headDim, shape.elementSize);
    OperationsAre(q, k, shape.qHeads, shape.headDim);
    Reassociated(q, shape.qHeads, shape.headDim, shape.elementSize);
    Reassociated(k, shape.kvHeads, shape.headDim, shape.elementSize);
    Doubled(k, shape.kvHeads, shape.headDim, shape.elementSize);
    Fourfold(q, k, shape.qHeads, shape.headDim);
  }

  lemma Doubled(a: int, b: int, c: int, d: int)
    ensures 2 * a * b * c * d == a * b * c * d + a * b * c * d
  {
    assert 2 * a * b == 2 * (a * b);
    assert 2 * (a * b) * c == 2 * (a * b * c);
    assert 2 * (a * b * c) * d == 2 * (a * b * c * d);
  }

  lemma Fourfold(a: int, b: int, c: int, d: int)
    ensures a * (b * (c * (d * 4))) == 4 * a * b * c * d
  {
    Reassociated(a, b, c, d * 4);
    Reassociated(4 * a, b, c, d);
    assert a * b * c * (d * 4) == 4 * (a * b * c * d);
    assert 4 * a * (b * (c * d)) == 4 * (a * (b * (c * d)));
    Reassociated(a, b, c, d);
  }

  // Enough seconds to move or compute an amount at a rate.
  predicate Enough(amount: int, seconds: real, rate: real) {
    amount as real <= seconds * rate
  }

  /**
   A block takes at most t seconds exactly when, after the overhead, the time is enough
   for the operations, for uploading query rows, keys and values, and for downloading
   the rows.
   */
  lemma BlockSecondsMeans(q: nat, k: nat, shape: Shape, device: Device, t: real)
    requires ValidDevice(device)
    ensures var heads, width, bytes := shape.qHeads, shape.headDim, shape.elementSize;
            var rows, keys := Elements(q, heads, width, bytes), Elements(k, shape.kvHeads, width, bytes);
            BlockSeconds(q, k, shape, device) <= t <==>
              && Enough(Operations(q, k, heads, width), t - device.overhead, device.flopsPerSecond)
              && Enough(rows + keys + keys, t - device.overhead, device.h2dBytesPerSecond)
              && Enough(rows, t - device.overhead, device.d2hBytesPerSecond)
  {
    hide Flops, QBytes, KvBytes, Elements, Operations;
    AmountsAreCounts(q, k, shape);
    EnoughMeans(Flops(q, k, shape), t - device.overhead, device.flopsPerSecond);
    EnoughMeans(QBytes(q, shape) + KvBytes(k, shape), t - device.overhead, device.h2dBytesPerSecond);
    EnoughMeans(QBytes(q, shape), t - device.overhead, device.d2hBytesPerSecond);
  }

  lemma EnoughMeans(amount: int, seconds: real, rate: real)
    requires rate > 0.0
    ensures amount as real / rate <= seconds <==> Enough(amount, seconds, rate)
  {
    var x := amount as real / rate;
    assert x * rate == amount as real;
    Cancels(seconds, x, rate);
  }

  // A common factor of both sides cancels.
  lemma Cancels(x: real, y: real, f: real)
    requires f > 0.0
    ensures x * f >= y * f <==> x >= y
  {
    if x < y {
      assert (y - x) * f > 0.0;
      assert (y - x) * f == y * f - x * f;
    } else {
      assert (x - y) * f >= 0.0;
      assert (x - y) * f == x * f - y * f;
    }
  }
}
