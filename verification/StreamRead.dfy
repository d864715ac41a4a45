/** Reading a stream: iterator positions and chained GetRecords calls. */
module StreamRead {
  import opened Values
  import opened Records

  /** How many records lie before the position asked for: those below the number,
      and for AFTER_SEQUENCE_NUMBER also the one that has it. */
  function CountBefore(records: seq<Record>, seqNum: nat, after: bool): nat {
    if records == [] then 0
    else
      CountBefore(records[..|records| - 1], seqNum, after)
      + if Before(records[|records| - 1], seqNum, after) then 1 else 0
  }

  predicate Before(r: Record, seqNum: nat, after: bool) {
    r.seqNum < seqNum || (after && r.seqNum == seqNum)
  }

  lemma {:induction false} CountSplit(records: seq<Record>, seqNum: nat, after: bool, pos: nat)
    requires pos <= |records|
    requires forall i :: 0 <= i < pos ==> Before(records[i], seqNum, after)
    requires forall i :: pos <= i < |records| ==> !Before(records[i], seqNum, after)
    ensures CountBefore(records, seqNum, after) == pos
  {
    if records != [] {
      var init := records[..|records| - 1];
      CountSplit(init, seqNum, after, if pos < |records| then pos else pos - 1);
    }
  }

  /** `findSeqPos`. */
  method FindSeqPos(records: seq<Record>, seqNum: nat, after: bool) returns (pos: nat)
    requires Increasing(records)
    ensures pos == CountBefore(records, seqNum, after)
    ensures pos <= |records|
    ensures forall i :: 0 <= i < pos ==> Before(records[i], seqNum, after)
    ensures forall i :: pos <= i < |records| ==> !Before(records[i], seqNum, after)
  {
    pos := |records|;
    for i := 0 to |records|
      invariant pos == |records|
      invariant forall k :: 0 <= k < i ==> records[k].seqNum < seqNum
    {
      if records[i].seqNum == seqNum {
        pos := if after then i + 1 else i;
        break;
      }
      if records[i].seqNum > seqNum {
        pos := i;
        break;
      }
    }
    CountSplit(records, seqNum, after, pos);
  }

  /** `GetStreamRecords` on a buffer: what is read from a position, and the next one. */
  function Read(records: seq<Record>, position: int, limit: int): (r: (seq<Record>, nat)) {
    var start := if position < 0 then 0 else if position > |records| then |records| else position;
    var end := if limit > 0 && start + limit < |records| then start + limit else |records|;
    (records[start..end], end)
  }

  /** A position is taken to the nearest end; a positive limit brings the lesser of it and
      what is left, any other limit all that is left; and what comes stands in the buffer
      from the position up to the next one. */
  lemma ReadDelivers(records: seq<Record>, position: int, limit: int)
    ensures var (got, next) := Read(records, position, limit);
            && (position <= 0 ==> got == records[..next])
            && (0 <= position <= |records| ==> position <= next <= |records| && got == records[position..next])
            && (position >= |records| ==> got == [] && next == |records|)
            && var left := if position <= 0 then |records| else if position >= |records| then 0 else |records| - position;
               |got| == if 0 < limit < left then limit else left
  {
  }

  /** Reads chained through the next position, each on the buffer of its time. */
  function Chain(bufs: seq<seq<Record>>, limits: seq<int>, position: int): (seq<Record>, int)
    requires |bufs| == |limits|
  {
    if bufs == [] then ([], position)
    else
      var n := |bufs| - 1;
      var (got, next) := Chain(bufs[..n], limits[..n], position);
      var (more, end) := Read(bufs[n], next, limits[n]);
      (got + more, end)
  }

  /** Buffers that only grow. */
  predicate Growing(bufs: seq<seq<Record>>) {
    forall i, j :: 0 <= i <= j < |bufs| ==> bufs[i] <= bufs[j]
  }

  /** As long as records are only appended, chained reads deliver every record from
      the first position on exactly once and in order, whatever the limits; each read
      brings the lesser of its limit and what is left, and one without a limit catches up. */
  lemma {:induction false} ChainDelivers(bufs: seq<seq<Record>>, limits: seq<int>, position: nat)
    requires |bufs| == |limits| && bufs != [] && Growing(bufs) && position <= |bufs[0]|
    ensures var last := bufs[|bufs| - 1];
            var (got, end) := Chain(bufs, limits, position);
            && position <= end <= |last|
            && got == last[position..end]
            && (limits[|limits| - 1] <= 0 ==> end == |last|)
            && var (_, start) := Chain(bufs[..|bufs| - 1], limits[..|bufs| - 1], position);
               var limit := limits[|limits| - 1];
               && position <= start <= end
               && (limit > 0 ==> end - start == if limit < |last| - start then limit else |last| - start)
  {
    var n := |bufs| - 1;
    if n == 0 {
      assert Chain(bufs[..0], limits[..0], position) == ([], position);
      assert [] + Read(bufs[0], position, limits[0]).0 == Read(bufs[0], position, limits[0]).0;
    } else {
      ChainDelivers(bufs[..n], limits[..n], position);
      var (got, next) := Chain(bufs[..n], limits[..n], position);
      var (more, end) := Read(bufs[n], next, limits[n]);
      Joined(bufs[n - 1], bufs[n], position, next, end);
    }
  }

  lemma Joined(prev: seq<Record>, last: seq<Record>, a: nat, b: nat, c: nat)
    requires prev <= last && a <= b <= |prev| && b <= c <= |last|
    ensures prev[a..b] + last[b..c] == last[a..c]
  {
    assert prev[a..b] == last[a..b];
  }
}
