/** One independently executable query range and its complete key/value segment. */
module QueryTasks {

  datatype QueryTask = QueryTask(
    qStart: int, qStop: int, kStart: int, kStop: int, qLocalOffset: int, causalShift: int,
    segmentId: int := -1, deviceId: int := -1, claimOrder: int := -1,
    requestedQ: Requested := Unrequested, segmentClamped: bool := false, tailClamped: bool := false)
  {
    function QTokens(): int { qStop - qStart }

    function KTokens(): int { kStop - kStart }

    predicate Validates() {
      && 0 <= qStart < qStop
      && 0 <= kStart < kStop
      && 0 <= qLocalOffset
      && (requestedQ.Requested? ==> QTokens() <= requestedQ.tokens)
    }
  }

  datatype Requested = Unrequested | Requested(tokens: int)

  // Tasks come in query order and do not overlap.
  ghost predicate Ordered(tasks: seq<QueryTask>) {
    && (forall n :: 0 <= n < |tasks| ==> tasks[n].Validates())
    && (forall m, n :: 0 <= m < n < |tasks| ==> tasks[m].qStop <= tasks[n].qStart)
  }
}
