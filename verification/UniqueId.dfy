/**
 `zoo_smb_create_unique_id`: a millisecond timestamp in the upper 48 bits above the low
 16 bits of a wrapping 32-bit call counter.
 */
module UniqueId {
  import opened Arithmetic

  const LANE: nat := 0x1_0000
  const WORD: nat := 0x1_0000_0000
  const STAMP_LIMIT: nat := 0x1_0000_0000_0000
  const DOUBLE_WORD: nat := 0x1_0000_0000_0000_0000

  /**
   The id of a call: `counter` is the counter after its increment.  The shifted
   timestamp has sixteen zero low bits, so the bitwise or is a sum.
   */
  function Compose(timestamp: nat, counter: nat): nat {
    timestamp * LANE % DOUBLE_WORD + counter % LANE
  }

  /** The id of the call with the given number, counted from 1, across counter wrap. */
  function IdOfCall(timestamp: nat, call: nat): nat {
    Compose(timestamp, call % WORD)
  }

  lemma CounterLane(call: nat)
    ensures call % WORD % LANE == call % LANE
  {
    var c, q := call % WORD, call / WORD;
    Reassociate(LANE, LANE, q);
    AddMultiple(c, LANE * q, LANE);
  }

  lemma StampShift(timestamp: nat)
    ensures timestamp * LANE % DOUBLE_WORD == (timestamp % STAMP_LIMIT) * LANE
  {
    var q, t := timestamp / STAMP_LIMIT, timestamp % STAMP_LIMIT;
    assert timestamp * LANE == DOUBLE_WORD * q + t * LANE;
    DivisionIsUnique(timestamp * LANE, q, t * LANE, DOUBLE_WORD);
  }

  /** An id gives back the 48-bit timestamp and the low sixteen bits of the call number. */
  lemma IdsDecode(timestamp: nat, call: nat)
    ensures IdOfCall(timestamp, call) / 65536 == timestamp % STAMP_LIMIT
    ensures IdOfCall(timestamp, call) % 65536 == call % 65536
  {
    StampShift(timestamp);
    CounterLane(call);
  }

  /** Ids follow the clock: a later millisecond gives a larger id, whatever the counter. */
  lemma IdsFollowTheClock(t: nat, i: nat, u: nat, j: nat)
    requires t < u < STAMP_LIMIT
    ensures IdOfCall(t, i) < IdOfCall(u, j)
  {
    StampShift(t);
    StampShift(u);
    CounterLane(i);
    CounterLane(j);
    StampBelowLimit(t);
    StampBelowLimit(u);
  }

  /** Two ids coincide exactly when the 48-bit timestamps agree and the calls are a multiple of 65536 apart. */
  lemma IdsCoincideIff(t: nat, i: nat, u: nat, j: nat)
    ensures IdOfCall(t, i) == IdOfCall(u, j) <==> t % STAMP_LIMIT == u % STAMP_LIMIT && i % LANE == j % LANE
  {
    StampShift(t);
    StampShift(u);
    CounterLane(i);
    CounterLane(j);
  }

  /** A run: entry k is the timestamp read by call number k + 1. */
  ghost predicate MonotoneClock(run: seq<nat>) {
    && (forall k :: 0 <= k < |run| ==> run[k] < STAMP_LIMIT)
    && (forall k, m :: 0 <= k <= m < |run| ==> run[k] <= run[m])
  }

  ghost predicate AllIdsDistinct(run: seq<nat>) {
    forall k, m :: 0 <= k < m < |run| ==> IdOfCall(run[k], k + 1) != IdOfCall(run[m], m + 1)
  }

  /** No millisecond serves more than 65536 calls. */
  ghost predicate AtMostOneLanePerMillisecond(run: seq<nat>) {
    forall k, m :: 0 <= k < m < |run| && run[k] == run[m] ==> m - k < LANE
  }

  lemma CloseCallsDiffer(k: nat, m: nat)
    requires k < m < k + LANE
    ensures k % LANE != m % LANE
  {
    var q := k / LANE;
    assert k == LANE * q + k % LANE;
    assert m == LANE * (m / LANE) + m % LANE;
  }

  lemma StampBelowLimit(t: nat)
    requires t < STAMP_LIMIT
    ensures t % STAMP_LIMIT == t
  {
  }

  lemma PairDiffers(run: seq<nat>, k: nat, m: nat)
    requires MonotoneClock(run) && AtMostOneLanePerMillisecond(run) && k < m < |run|
    ensures IdOfCall(run[k], k + 1) != IdOfCall(run[m], m + 1)
  {
    IdsCoincideIff(run[k], k + 1, run[m], m + 1);
    StampBelowLimit(run[k]);
    StampBelowLimit(run[m]);
    if run[k] == run[m] {
      CloseCallsDiffer(k + 1, m + 1);
    }
  }

  lemma OneLaneApart(t: nat, call: nat)
    ensures IdOfCall(t, call) == IdOfCall(t, call + LANE)
  {
    assert (call + LANE) % LANE == call % LANE;
    IdsCoincideIff(t, call, t, call + LANE);
  }

  /** With a nondecreasing clock, all ids are distinct exactly when no millisecond overflows its lane. */
  lemma DistinctIff(run: seq<nat>)
    requires MonotoneClock(run)
    ensures AllIdsDistinct(run) <==> AtMostOneLanePerMillisecond(run)
  {
    if AtMostOneLanePerMillisecond(run) {
      forall k, m | 0 <= k < m < |run| ensures IdOfCall(run[k], k + 1) != IdOfCall(run[m], m + 1) {
        PairDiffers(run, k, m);
      }
    } else {
      var k, m :| 0 <= k < m < |run| && run[k] == run[m] && m - k >= LANE;
      var n := k + LANE;
      assert run[k] <= run[n] <= run[m];
      OneLaneApart(run[k], k + 1);
      assert IdOfCall(run[k], k + 1) == IdOfCall(run[n], n + 1);
    }
  }

  /** The function-local static counter. */
  class IdSource {
    var counter: nat
    ghost var calls: nat

    ghost predicate Valid()
      reads this
    {
      counter == calls % WORD
    }

    constructor ()
      ensures Valid() && calls == 0
    {
      counter := 0;
      calls := 0;
    }

    method Create(timestamp: nat) returns (id: nat)
      requires Valid()
      modifies this
      ensures Valid() && calls == old(calls) + 1
      ensures id == IdOfCall(timestamp, calls)
    {
      counter := (counter + 1) % WORD;
      calls := calls + 1;
      id := Compose(timestamp, counter);
    }
  }
}
