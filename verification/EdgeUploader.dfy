/** Draining the edge buffer to a pipeline that may answer anything. */
module EdgeUploader {
  import opened Collections
  import opened BufferProtocol
  import opened EdgeBuffer
  import opened StableSorting

  /** One POST and whether the pipeline answered 200. */
  datatype Post = Post(row: Row, accepted: bool)

  /** The pipeline: its answer is an arbitrary function of all posts so far and the event posted. */
  class Pipeline {
    const answer: (seq<Post>, Row) -> bool
    var log: seq<Post>

    constructor (answer: (seq<Post>, Row) -> bool)
      ensures log == [] && this.answer == answer
    {
      this.answer := answer;
      log := [];
    }

    method Send(row: Row) returns (accepted: bool)
      modifies this
      ensures accepted == answer(old(log), row) && log == old(log) + [Post(row, accepted)]
    {
      accepted := answer(log, row);
      log := log + [Post(row, accepted)];
    }
  }

  /** What became of one event: it was posted `tries` times, and the last post decided. */
  datatype Outcome = Outcome(row: Row, success: bool, tries: nat)

  function Failures(row: Row, n: nat): (p: seq<Post>)
    ensures |p| == n
  {
    seq(n, _ => Post(row, false))
  }

  function PostsOf(o: Outcome): (p: seq<Post>) {
    if o.success && o.tries >= 1 then Failures(o.row, o.tries - 1) + [Post(o.row, true)] else Failures(o.row, o.tries)
  }

  function AllPosts(outcomes: seq<Outcome>): (p: seq<Post>) {
    if outcomes == [] then [] else AllPosts(outcomes[..|outcomes| - 1]) + PostsOf(outcomes[|outcomes| - 1])
  }

  function Retries(retryCount: int): nat {
    if retryCount > 0 then retryCount else 0
  }

  /** Success takes between one and `retryCount` posts; failure uses them all. */
  predicate Legitimate(o: Outcome, retryCount: int) {
    if o.success then 1 <= o.tries <= Retries(retryCount) else o.tries == Retries(retryCount)
  }

  /** The verdict on an event is one the pipeline gave, unless no post was to be made at all. */
  ghost predicate Answered(answer: (seq<Post>, Row) -> bool, o: Outcome, retryCount: int) {
    && (o.success ==> exists log :: answer(log, o.row))
    && (!o.success && retryCount >= 1 ==> exists log :: !answer(log, o.row))
  }

  /** `_upload_with_retry` */
  method UploadWithRetry(net: Pipeline, row: Row, retryCount: int) returns (success: bool, ghost outcome: Outcome)
    modifies net
    ensures outcome.row == row && outcome.success == success && Legitimate(outcome, retryCount)
    ensures Answered(net.answer, outcome, retryCount)
    ensures net.log == old(net.log) + PostsOf(outcome)
  {
    var attempt := 0;
    while attempt < retryCount
      invariant 0 <= attempt <= Retries(retryCount)
      invariant attempt > 0 ==> exists log :: !net.answer(log, row)
      invariant net.log == old(net.log) + Failures(row, attempt)
    {
      var accepted := net.Send(row);
      if accepted {
        outcome := Outcome(row, true, attempt + 1);
        return true, outcome;
      }
      assert Failures(row, attempt + 1) == Failures(row, attempt) + [Post(row, false)];
      attempt := attempt + 1;
    }
    outcome := Outcome(row, false, attempt);
    return false, outcome;
  }

  // ---- What a drain has done so far ----

  function Succeeded(outcomes: seq<Outcome>): (rows: seq<Row>) {
    if outcomes == [] then []
    else
      var o := outcomes[|outcomes| - 1];
      Succeeded(outcomes[..|outcomes| - 1]) + if o.success then [o.row] else []
  }

  function FailedCount(outcomes: seq<Outcome>): nat {
    if outcomes == [] then 0
    else FailedCount(outcomes[..|outcomes| - 1]) + if outcomes[|outcomes| - 1].success then 0 else 1
  }

  ghost predicate Attempted(outcomes: seq<Outcome>, row: Row) {
    exists o :: o in outcomes && o.row == row
  }

  ghost predicate Uploaded(outcomes: seq<Outcome>, row: Row) {
    exists o :: o in outcomes && o.row == row && o.success
  }

  ghost predicate Failed(outcomes: seq<Outcome>, row: Row) {
    exists o :: o in outcomes && o.row == row && !o.success
  }

  /** No event twice, in timestamp order. */
  ghost predicate InOrder(outcomes: seq<Outcome>) {
    forall i, j :: 0 <= i < j < |outcomes| ==>
      outcomes[i].row != outcomes[j].row && outcomes[i].row.timestamp <= outcomes[j].row.timestamp
  }

  /** The table has lost exactly the successes. */
  ghost predicate Remaining(before: seq<Row>, rows: seq<Row>, outcomes: seq<Outcome>) {
    forall r :: r in rows <==> r in before && !Uploaded(outcomes, r)
  }

  /** Nothing still waiting is older than anything attempted. */
  ghost predicate OldestFirst(rows: seq<Row>, outcomes: seq<Outcome>) {
    forall o, r :: o in outcomes && r in rows && !Attempted(outcomes, r) ==> o.row.timestamp <= r.timestamp
  }

  ghost predicate Progress(before: seq<Row>, rows: seq<Row>, outcomes: seq<Outcome>, retryCount: int) {
    && InOrder(outcomes)
    && (forall o :: o in outcomes ==> o.row in before && Legitimate(o, retryCount))
    && Remaining(before, rows, outcomes)
    && OldestFirst(rows, outcomes)
  }

  lemma {:induction false} ExtendOutcomes(outcomes: seq<Outcome>, o: Outcome)
    ensures AllPosts(outcomes + [o]) == AllPosts(outcomes) + PostsOf(o)
    ensures Succeeded(outcomes + [o]) == Succeeded(outcomes) + if o.success then [o.row] else []
    ensures FailedCount(outcomes + [o]) == FailedCount(outcomes) + if o.success then 0 else 1
    ensures forall r :: Attempted(outcomes + [o], r) <==> Attempted(outcomes, r) || r == o.row
    ensures forall r :: Uploaded(outcomes + [o], r) <==> Uploaded(outcomes, r) || (r == o.row && o.success)
    ensures forall r :: Failed(outcomes + [o], r) <==> Failed(outcomes, r) || (r == o.row && !o.success)
  {
    var n := outcomes + [o];
    assert n[..|n| - 1] == outcomes;
    assert o in n;
    forall x | x in outcomes ensures x in n {
    }
  }

  /** The events about to be attempted: waiting, in order, and as old as anything else that waits. */
  ghost predicate Ready(rows: seq<Row>, outcomes: seq<Outcome>, queue: seq<Row>) {
    && (forall i, j :: 0 <= i < j < |queue| ==> queue[i] != queue[j] && queue[i].timestamp <= queue[j].timestamp)
    && (forall q :: q in queue ==> q in rows && !Attempted(outcomes, q))
    && (forall q, r :: q in queue && r in rows && !Attempted(outcomes, r) && r !in queue ==> q.timestamp <= r.timestamp)
  }

  /** The rows after an attempt: without the event if it was uploaded. */
  ghost predicate RowsAfter(rows: seq<Row>, after: seq<Row>, o: Outcome) {
    forall r :: r in after <==> r in rows && !(r == o.row && o.success)
  }

  lemma AttemptKeepsProgress(before: seq<Row>, rows: seq<Row>, outcomes: seq<Outcome>, retryCount: int,
                             queue: seq<Row>, o: Outcome, after: seq<Row>)
    requires Progress(before, rows, outcomes, retryCount) && Ready(rows, outcomes, queue) && queue != []
    requires o.row == queue[0] && Legitimate(o, retryCount) && RowsAfter(rows, after, o)
    ensures Progress(before, after, outcomes + [o], retryCount) && Ready(after, outcomes + [o], queue[1..])
  {
    hide Attempted, Uploaded, Failed, Legitimate, InOrder, OldestFirst, Ready, Remaining;
    AttemptKeepsOrder(rows, outcomes, queue, o);
    AttemptKeepsRemaining(before, rows, outcomes, o, after);
    AttemptKeepsOldestFirst(rows, outcomes, queue, o, after);
    AttemptKeepsReady(rows, outcomes, queue, o, after);
    HeadWaits(rows, outcomes, queue);
    RemainingFromBefore(before, rows, outcomes, o.row);
  }

  lemma RemainingFromBefore(before: seq<Row>, rows: seq<Row>, outcomes: seq<Outcome>, r: Row)
    requires Remaining(before, rows, outcomes) && r in rows
    ensures r in before
  {
  }

  lemma AttemptKeepsOrder(rows: seq<Row>, outcomes: seq<Outcome>, queue: seq<Row>, o: Outcome)
    requires InOrder(outcomes) && OldestFirst(rows, outcomes) && Ready(rows, outcomes, queue) && queue != [] && o.row == queue[0]
    ensures InOrder(outcomes + [o])
  {
    hide Attempted;
    assert queue[0] in queue;
    forall i | 0 <= i < |outcomes| ensures outcomes[i].row != o.row && outcomes[i].row.timestamp <= o.row.timestamp {
      assert outcomes[i] in outcomes;
      AttemptedRow(outcomes, outcomes[i]);
    }
  }

  lemma AttemptKeepsRemaining(before: seq<Row>, rows: seq<Row>, outcomes: seq<Outcome>, o: Outcome, after: seq<Row>)
    requires Remaining(before, rows, outcomes) && RowsAfter(rows, after, o)
    ensures Remaining(before, after, outcomes + [o])
  {
    hide Attempted, Uploaded, Failed;
    ExtendOutcomes(outcomes, o);
  }

  lemma AttemptKeepsOldestFirst(rows: seq<Row>, outcomes: seq<Outcome>, queue: seq<Row>, o: Outcome, after: seq<Row>)
    requires OldestFirst(rows, outcomes) && Ready(rows, outcomes, queue) && queue != []
    requires o.row == queue[0] && RowsAfter(rows, after, o)
    ensures OldestFirst(after, outcomes + [o])
  {
    hide Attempted, Uploaded, Failed, Ready;
    ExtendOutcomes(outcomes, o);
    var n := outcomes + [o];
    forall x, r | x in n && r in after && !Attempted(n, r) ensures x.row.timestamp <= r.timestamp {
      if x == o {
        QueueHeadOldest(rows, outcomes, queue, r);
      }
    }
  }

  lemma AttemptKeepsReady(rows: seq<Row>, outcomes: seq<Outcome>, queue: seq<Row>, o: Outcome, after: seq<Row>)
    requires Ready(rows, outcomes, queue) && queue != [] && o.row == queue[0] && RowsAfter(rows, after, o)
    ensures Ready(after, outcomes + [o], queue[1..])
  {
    hide Attempted, Uploaded, Failed;
    ExtendOutcomes(outcomes, o);
    var n, e, rest := outcomes + [o], queue[0], queue[1..];
    assert queue == [e] + rest;
    forall q | q in rest ensures q in after && !Attempted(n, q) {
      var k :| 1 <= k < |queue| && queue[k] == q;
      assert queue[0] != queue[k];
      assert q in queue;
    }
    forall q, r | q in rest && r in after && !Attempted(n, r) && r !in rest ensures q.timestamp <= r.timestamp {
      assert q in queue && r !in queue;
    }
  }

  lemma AttemptedRow(outcomes: seq<Outcome>, o: Outcome)
    requires o in outcomes
    ensures Attempted(outcomes, o.row)
  {
  }

  lemma QueueHeadOldest(rows: seq<Row>, outcomes: seq<Outcome>, queue: seq<Row>, r: Row)
    requires Ready(rows, outcomes, queue) && queue != [] && r in rows && !Attempted(outcomes, r)
    ensures queue[0].timestamp <= r.timestamp
  {
    hide Attempted;
    assert queue[0] in queue;
    if r in queue {
      var k :| 0 <= k < |queue| && queue[k] == r;
      if k > 0 {
        assert queue[0].timestamp <= queue[k].timestamp;
      }
    }
  }

  // ---- Choosing what to attempt ----

  /** The events of the batch that have not failed in this pass, in order. */
  function Pending(batch: seq<Row>, failedIds: set<string>): (r: seq<Row>) {
    if batch == [] then []
    else
      var last := batch[|batch| - 1];
      Pending(batch[..|batch| - 1], failedIds) + (if last.eventId in failedIds then [] else [last])
  }

  ghost predicate InTurn(queue: seq<Row>) {
    forall i, j :: 0 <= i < j < |queue| ==> queue[i] != queue[j] && queue[i].timestamp <= queue[j].timestamp
  }

  lemma {:induction false} PendingIsFilter(batch: seq<Row>, failedIds: set<string>)
    requires InTurn(batch)
    ensures var p := Pending(batch, failedIds);
            (forall q :: q in p <==> q in batch && q.eventId !in failedIds) && InTurn(p)
  {
    hide InTurn;
    if batch != [] {
      var n := |batch| - 1;
      var front, last := batch[..n], batch[n];
      FrontInTurn(batch);
      PendingIsFilter(front, failedIds);
      assert batch == front + [last];
      LastInTurn(batch, Pending(front, failedIds));
      assert Pending(front, failedIds) + [] == Pending(front, failedIds);
    } else {
      NobodyInTurn();
    }
  }

  lemma NobodyInTurn()
    ensures InTurn([])
  {
  }

  lemma FrontInTurn(queue: seq<Row>)
    requires InTurn(queue) && queue != []
    ensures InTurn(queue[..|queue| - 1])
  {
  }

  lemma LastInTurn(batch: seq<Row>, p: seq<Row>)
    requires InTurn(batch) && batch != [] && InTurn(p) && forall q :: q in p ==> q in batch[..|batch| - 1]
    ensures InTurn(p + [batch[|batch| - 1]])
  {
    LastIsYoungest(batch[..|batch| - 1], batch[|batch| - 1], p);
  }

  lemma LastIsYoungest(front: seq<Row>, last: Row, p: seq<Row>)
    requires forall i :: 0 <= i < |front| ==> front[i] != last && front[i].timestamp <= last.timestamp
    requires forall q :: q in p ==> q in front
    ensures forall i :: 0 <= i < |p| ==> p[i] != last && p[i].timestamp <= last.timestamp
  {
    forall i | 0 <= i < |p| ensures p[i] != last && p[i].timestamp <= last.timestamp {
      assert p[i] in p;
      var k :| 0 <= k < |front| && front[k] == p[i];
    }
  }

  /** Exactly the events that failed in this pass carry an id in `failedIds`. */
  ghost predicate IdsOfFailed(rows: seq<Row>, outcomes: seq<Outcome>, failedIds: set<string>) {
    forall r :: r in rows ==> (r.eventId in failedIds <==> Attempted(outcomes, r))
  }

  lemma BatchReady(rows: seq<Row>, outcomes: seq<Outcome>, batch: seq<Row>, n: nat, failedIds: set<string>)
    requires IsOldestBatch(rows, batch, n) && IdsOfFailed(rows, outcomes, failedIds)
    ensures Ready(rows, outcomes, Pending(batch, failedIds))
  {
    hide Pending, Attempted;
    PendingIsFilter(batch, failedIds);
  }

  // ---- Why the drain stops ----

  function RowSet(rows: seq<Row>): (s: set<Row>) {
    set r | r in rows
  }

  lemma {:induction false} DistinctCount(rows: seq<Row>)
    ensures |RowSet(rows)| <= |rows|
    ensures (forall i, j :: 0 <= i < j < |rows| ==> rows[i] != rows[j]) ==> |RowSet(rows)| == |rows|
  {
    if rows != [] {
      var n := |rows| - 1;
      DistinctCount(rows[..n]);
      assert rows == rows[..n] + [rows[n]];
      assert RowSet(rows) == RowSet(rows[..n]) + {rows[n]};
    }
  }

  ghost function FailedSet(outcomes: seq<Outcome>): (s: set<Row>) {
    if outcomes == [] then {}
    else FailedSet(outcomes[..|outcomes| - 1]) + if outcomes[|outcomes| - 1].success then {} else {outcomes[|outcomes| - 1].row}
  }

  lemma {:induction false} FailedSetCount(outcomes: seq<Outcome>)
    ensures |FailedSet(outcomes)| <= FailedCount(outcomes)
    ensures forall r :: r in FailedSet(outcomes) <==> Failed(outcomes, r)
  {
    if outcomes != [] {
      var n := |outcomes| - 1;
      FailedSetCount(outcomes[..n]);
      assert outcomes == outcomes[..n] + [outcomes[n]];
      hide Failed;
      ExtendOutcomes(outcomes[..n], outcomes[n]);
    } else {
      assert FailedSet([]) == {};
    }
  }

  lemma SubsetCount(a: set<Row>, b: set<Row>)
    requires a <= b
    ensures |a| <= |b| && (|a| == |b| ==> a == b)
  {
    assert b == a + (b - a) && a !! (b - a);
  }

  lemma AttemptedResidentFailed(before: seq<Row>, rows: seq<Row>, outcomes: seq<Outcome>, retryCount: int, r: Row)
    requires Progress(before, rows, outcomes, retryCount) && r in rows && Attempted(outcomes, r)
    ensures Failed(outcomes, r)
  {
    var o :| o in outcomes && o.row == r;
    assert !Uploaded(outcomes, r);
    assert o in outcomes && o.row == r && !o.success;
  }

  /** With fewer failures or fewer rows than a batch holds, an exhausted batch means an exhausted table. */
  lemma ExhaustedBatch(rows: seq<Row>, outcomes: seq<Outcome>, batch: seq<Row>, n: nat)
    requires IsOldestBatch(rows, batch, n) && (FailedCount(outcomes) < n || |rows| <= n)
    requires forall b :: b in batch ==> Failed(outcomes, b)
    ensures forall r :: r in rows ==> r in batch
  {
    hide Failed, FailedCount;
    FailedSetCount(outcomes);
    DistinctCount(batch);
    DistinctCount(rows);
    assert RowSet(batch) <= FailedSet(outcomes);
    SubsetCount(RowSet(batch), FailedSet(outcomes));
    assert RowSet(batch) <= RowSet(rows);
    SubsetCount(RowSet(batch), RowSet(rows));
    forall r | r in rows ensures r in batch {
      assert r in RowSet(rows);
    }
  }

  lemma OutcomesBounded(before: seq<Row>, rows: seq<Row>, outcomes: seq<Outcome>, retryCount: int, waiting: Row)
    requires Progress(before, rows, outcomes, retryCount) && waiting in rows && !Attempted(outcomes, waiting)
    ensures |outcomes| < |before|
  {
    hide OldestFirst, Legitimate, Remaining;
    RemainingFromBefore(before, rows, outcomes, waiting);
    var attempted := seq(|outcomes|, i requires 0 <= i < |outcomes| => outcomes[i].row);
    DistinctCount(attempted);
    DistinctCount(before);
    forall r | r in RowSet(attempted) ensures r in RowSet(before) - {waiting} {
      var i :| 0 <= i < |attempted| && attempted[i] == r;
      assert outcomes[i] in outcomes;
    }
    SubsetCount(RowSet(attempted), RowSet(before) - {waiting});
  }

  /** Acknowledging an uploaded event takes just that event out of the table. */
  lemma AckTakesRow(s: State, r: Row)
    requires UniqueIds(s.rows) && r in s.rows
    ensures var n := Acknowledge(s, r.eventId);
            n.acked == s.acked + [r] && RowsAfter(s.rows, n.rows, Outcome(r, true, 1))
  {
    assert Resident(s.rows, r.eventId);
    var i := Find(s.rows, r.eventId);
    var k :| 0 <= k < |s.rows| && s.rows[k] == r;
    assert i == k;
    WithoutMembers(s.rows, i);
    VictimGone(s.rows, i);
  }

  // ---- What exactly a drain tries ----

  /** No two events share a timestamp. */
  ghost predicate DistinctTimes(rows: seq<Row>) {
    forall a, b :: a in rows && b in rows && a.timestamp == b.timestamp ==> a == b
  }

  function InTimeOrder(rows: seq<Row>): (r: seq<Row>) {
    SortDescending(rows, Age)
  }

  function Tried(outcomes: seq<Outcome>): (r: seq<Row>)
    ensures |r| == |outcomes|
  {
    seq(|outcomes|, i requires 0 <= i < |outcomes| => outcomes[i].row)
  }

  function RefusedCount(queue: seq<Row>, refused: set<Row>): (n: nat)
    ensures n <= |queue|
  {
    if queue == [] then 0
    else RefusedCount(queue[..|queue| - 1], refused) + if queue[|queue| - 1] in refused then 1 else 0
  }

  /** The events of the queue in order, until `n` of them have been refused. */
  function UpToRefusal(queue: seq<Row>, refused: set<Row>, n: nat): (r: seq<Row>) {
    if queue == [] || n == 0 then []
    else [queue[0]] + UpToRefusal(queue[1..], refused, if queue[0] in refused then n - 1 else n)
  }

  lemma {:induction false} RefusedCountHead(queue: seq<Row>, refused: set<Row>)
    requires queue != []
    ensures RefusedCount(queue, refused) == RefusedCount(queue[1..], refused) + if queue[0] in refused then 1 else 0
  {
    var n := |queue| - 1;
    if n > 0 {
      RefusedCountHead(queue[..n], refused);
      assert queue[..n][1..] == queue[1..][..n - 1];
    }
  }

  /** The queue is tried up to position `m` if the limit is not reached before, and reached there or nothing is left. */
  lemma {:induction false} StopsAt(queue: seq<Row>, refused: set<Row>, n: nat, m: nat)
    requires m <= |queue| && forall k :: 0 <= k < m ==> RefusedCount(queue[..k], refused) < n
    requires m < |queue| ==> RefusedCount(queue[..m], refused) >= n
    ensures UpToRefusal(queue, refused, n) == queue[..m]
    decreases m
  {
    if m > 0 {
      var rest, left := queue[1..], if queue[0] in refused then n - 1 else n;
      assert RefusedCount(queue[..0], refused) < n;
      forall k | 0 <= k < m ensures RefusedCount(queue[..k + 1], refused)
                                 == RefusedCount(rest[..k], refused) + if queue[0] in refused then 1 else 0
      {
        RefusedCountHead(queue[..k + 1], refused);
        assert queue[..k + 1][1..] == rest[..k];
      }
      StopsAt(rest, refused, left, m - 1);
      assert queue[..m] == [queue[0]] + rest[..m - 1];
    }
  }

  lemma {:induction false} UpToRefusalStops(queue: seq<Row>, refused: set<Row>, n: nat) returns (m: nat)
    ensures m <= |queue| && forall k :: 0 <= k < m ==> RefusedCount(queue[..k], refused) < n
    ensures m < |queue| ==> RefusedCount(queue[..m], refused) >= n
    ensures UpToRefusal(queue, refused, n) == queue[..m]
  {
    m := 0;
    while m < |queue| && RefusedCount(queue[..m], refused) < n
      invariant m <= |queue| && forall k :: 0 <= k < m ==> RefusedCount(queue[..k], refused) < n
    {
      m := m + 1;
    }
    StopsAt(queue, refused, n, m);
  }

  lemma {:induction false} RefusedCountMonotone(queue: seq<Row>, refused: set<Row>, k: nat, m: nat)
    requires k <= m <= |queue|
    ensures RefusedCount(queue[..k], refused) <= RefusedCount(queue[..m], refused)
  {
    if k < m {
      RefusedCountMonotone(queue, refused, k, m - 1);
      assert queue[..m][..m - 1] == queue[..m - 1];
    }
  }

  /** An event is never tried exactly when as many older events as a batch holds are refused. */
  lemma StarvedExactly(queue: seq<Row>, refused: set<Row>, n: nat, k: nat)
    requires k < |queue| && forall i, j :: 0 <= i < j < |queue| ==> queue[i] != queue[j]
    ensures queue[k] !in UpToRefusal(queue, refused, n) <==> RefusedCount(queue[..k], refused) >= n
  {
    hide RefusedCount, UpToRefusal;
    var m := UpToRefusalStops(queue, refused, n);
    if k < m {
      assert queue[..m][k] == queue[k];
    } else {
      RefusedCountMonotone(queue, refused, m, k);
    }
  }

  /** Everything is tried exactly when fewer events are refused than a batch holds, or the last refused one is the youngest. */
  lemma AllTriedExactly(queue: seq<Row>, refused: set<Row>, n: nat)
    ensures UpToRefusal(queue, refused, n) == queue <==> TriesAll(queue, refused, n)
  {
    var m := UpToRefusalStops(queue, refused, n);
    var l := |queue|;
    assert queue[..l] == queue;
    if m < l {
      RefusedCountMonotone(queue, refused, m, l - 1);
    } else if l > 0 {
      assert RefusedCount(queue[..l - 1], refused) < n;
    }
  }

  predicate TriesAll(queue: seq<Row>, refused: set<Row>, n: nat) {
    || queue == []
    || RefusedCount(queue, refused) < n
    || (RefusedCount(queue, refused) == n && queue[|queue| - 1] in refused)
  }

  ghost predicate OnlyFailures(rows: seq<Row>, outcomes: seq<Outcome>) {
    forall r :: r in rows ==> Failed(outcomes, r)
  }

  /** The pass tried exactly the oldest events up to the `n`-th refusal, and kept what it did not try or was refused. */
  ghost predicate DrainsUpTo(before: seq<Row>, rows: seq<Row>, outcomes: seq<Outcome>, refused: set<Row>, n: nat) {
    var queue := InTimeOrder(before);
    && Tried(outcomes) == UpToRefusal(queue, refused, n)
    && (forall r :: r in rows <==> r in before && (r in Tried(outcomes) ==> r in refused))
    && (OnlyFailures(rows, outcomes) <==> TriesAll(queue, refused, n))
  }

  /** The pipeline refuses these events whenever they are posted, and accepts all others. */
  ghost predicate Steadfast(answer: (seq<Post>, Row) -> bool, refused: set<Row>) {
    forall log, row :: answer(log, row) <==> row !in refused
  }

  /** No attempt was made after `n` failures. */
  ghost predicate WithinLimit(outcomes: seq<Outcome>, n: nat) {
    forall k :: 0 <= k < |outcomes| ==> FailedCount(outcomes[..k]) < n
  }

  lemma ExtendLimit(outcomes: seq<Outcome>, o: Outcome, n: nat)
    ensures WithinLimit(outcomes, n) && FailedCount(outcomes) < n ==> WithinLimit(outcomes + [o], n)
  {
    hide FailedCount;
    var e := outcomes + [o];
    forall k | 0 <= k <= |outcomes| ensures e[..k] == outcomes[..k] {
    }
    assert outcomes[..|outcomes|] == outcomes;
  }

  lemma {:induction false} FailedSetExact(outcomes: seq<Outcome>)
    requires InOrder(outcomes)
    ensures |FailedSet(outcomes)| == FailedCount(outcomes)
  {
    if outcomes != [] {
      var n := |outcomes| - 1;
      var front := outcomes[..n];
      FailedSetExact(front);
      FailedSetCount(front);
      assert outcomes[n].row !in FailedSet(front);
    }
  }

  /** Of a resident attempted event we know that it failed, and of a failed one that it is still resident. */
  lemma FailedIsResident(before: seq<Row>, rows: seq<Row>, outcomes: seq<Outcome>, retryCount: int, r: Row)
    requires Progress(before, rows, outcomes, retryCount)
    ensures Failed(outcomes, r) <==> r in rows && Attempted(outcomes, r)
    ensures Failed(outcomes, r) ==> !Uploaded(outcomes, r)
    ensures Attempted(outcomes, r) ==> r in before
  {
    hide OldestFirst, Legitimate;
    if Failed(outcomes, r) {
      var o :| o in outcomes && o.row == r && !o.success;
      var i :| 0 <= i < |outcomes| && outcomes[i] == o;
      forall p | p in outcomes && p.row == r ensures !p.success {
        var j :| 0 <= j < |outcomes| && outcomes[j] == p;
        assert i == j;
      }
      assert r in before;
    } else if r in rows && Attempted(outcomes, r) {
      AttemptedResidentFailed(before, rows, outcomes, retryCount, r);
    }
  }

  /** With distinct timestamps a batch that holds anything untried holds everything that failed. */
  lemma PendingFits(before: seq<Row>, rows: seq<Row>, outcomes: seq<Outcome>, retryCount: int, batch: seq<Row>, n: nat,
                    failedIds: set<string>)
    requires Progress(before, rows, outcomes, retryCount) && DistinctTimes(before)
    requires IsOldestBatch(rows, batch, n) && IdsOfFailed(rows, outcomes, failedIds) && Pending(batch, failedIds) != []
    ensures FailedCount(outcomes) + |Pending(batch, failedIds)| <= n
  {
    hide Pending, FailedSet, FailedCount, Attempted, Uploaded, Failed, Legitimate, InOrder;
    var pending, failed := Pending(batch, failedIds), FailedSet(outcomes);
    PendingIsFilter(batch, failedIds);
    FailedSetExact(outcomes);
    FailedSetCount(outcomes);
    var p := pending[0];
    assert p in batch && p in rows && !Attempted(outcomes, p);
    forall f | f in failed ensures f in RowSet(batch) && f !in RowSet(pending) {
      FailedIsResident(before, rows, outcomes, retryCount, f);
      FailedNotYounger(rows, outcomes, f, p);
      assert f in before && p in before;
    }
    DistinctCount(pending);
    DistinctCount(batch);
    assert RowSet(pending) <= RowSet(batch);
    SubsetCount(failed + RowSet(pending), RowSet(batch));
  }

  lemma FailedNotYounger(rows: seq<Row>, outcomes: seq<Outcome>, f: Row, waiting: Row)
    requires OldestFirst(rows, outcomes) && waiting in rows && !Attempted(outcomes, waiting) && Attempted(outcomes, f)
    ensures f.timestamp <= waiting.timestamp
  {
    var o :| o in outcomes && o.row == f;
  }

  ghost predicate StrictlyAscending(rows: seq<Row>) {
    forall i, j :: 0 <= i < j < |rows| ==> rows[i].timestamp < rows[j].timestamp
  }

  /** The list leaves out nothing older than what it has. */
  ghost predicate LeavesYounger(part: seq<Row>, whole: seq<Row>) {
    && (forall r :: r in part ==> r in whole)
    && (forall r, x :: r in part && x in whole && x !in part ==> r.timestamp <= x.timestamp)
  }

  lemma SameHead(part: seq<Row>, whole: seq<Row>)
    requires StrictlyAscending(part) && StrictlyAscending(whole) && LeavesYounger(part, whole) && part != []
    ensures whole != [] && part[0] == whole[0]
  {
    assert part[0] in part;
    var k :| 0 <= k < |whole| && whole[k] == part[0];
    assert whole[0] in whole;
    if whole[0] in part {
      var l :| 0 <= l < |part| && part[l] == whole[0];
    }
  }

  lemma {:induction false} AscendingTail(s: seq<Row>, r: Row)
    requires StrictlyAscending(s) && s != []
    ensures StrictlyAscending(s[1..]) && (r in s[1..] <==> r in s && r != s[0])
  {
    assert s == [s[0]] + s[1..];
    if r in s[1..] {
      var l :| 1 <= l < |s| && s[l] == r;
      assert s[0].timestamp < s[l].timestamp;
    }
  }

  lemma TailsLeaveYounger(part: seq<Row>, whole: seq<Row>)
    requires StrictlyAscending(part) && StrictlyAscending(whole) && LeavesYounger(part, whole)
    requires part != [] && whole != [] && part[0] == whole[0]
    ensures LeavesYounger(part[1..], whole[1..])
  {
    hide StrictlyAscending;
    forall r | r in part[1..] ensures r in whole[1..] {
      AscendingTail(part, r);
      AscendingTail(whole, r);
    }
    forall r, x | r in part[1..] && x in whole[1..] && x !in part[1..] ensures r.timestamp <= x.timestamp {
      AscendingTail(part, r);
      AscendingTail(part, x);
      AscendingTail(whole, x);
    }
  }

  /** An ascending list that leaves out nothing older than what it has is the beginning of the whole list. */
  lemma {:induction false} OldestArePrefix(part: seq<Row>, whole: seq<Row>)
    requires StrictlyAscending(part) && StrictlyAscending(whole) && LeavesYounger(part, whole)
    ensures |part| <= |whole| && part == whole[..|part|]
  {
    if part != [] {
      hide LeavesYounger, StrictlyAscending;
      SameHead(part, whole);
      TailsLeaveYounger(part, whole);
      AscendingTail(part, part[0]);
      AscendingTail(whole, whole[0]);
      OldestArePrefix(part[1..], whole[1..]);
      PrefixFromTail(part, whole);
    }
  }

  lemma PrefixFromTail(part: seq<Row>, whole: seq<Row>)
    requires part != [] && whole != [] && part[0] == whole[0]
    requires |part| <= |whole| && part[1..] == whole[1..][..|part| - 1]
    ensures part == whole[..|part|]
  {
    assert part == [part[0]] + part[1..];
  }

  lemma SortedStrictly(rows: seq<Row>)
    requires UniqueIds(rows) && DistinctTimes(rows)
    ensures StrictlyAscending(InTimeOrder(rows)) && forall r :: r in InTimeOrder(rows) <==> r in rows
  {
    hide SortDescending;
    var q := InTimeOrder(rows);
    SortPermutes(rows, Age);
    SortedDescending(rows, Age);
    DistinctSorted(rows, q);
    forall r ensures r in q <==> r in rows {
      assert r in q <==> r in multiset(q);
    }
    forall i, j | 0 <= i < j < |q| ensures q[i].timestamp < q[j].timestamp {
      assert Age(q[i]) >= Age(q[j]);
      assert q[i] in rows && q[j] in rows;
    }
  }

  lemma TriedMembers(outcomes: seq<Outcome>)
    ensures forall r :: r in Tried(outcomes) <==> Attempted(outcomes, r)
  {
    forall r ensures r in Tried(outcomes) <==> Attempted(outcomes, r) {
      if r in Tried(outcomes) {
        var i :| 0 <= i < |outcomes| && Tried(outcomes)[i] == r;
        assert outcomes[i] in outcomes;
      }
      if Attempted(outcomes, r) {
        var o :| o in outcomes && o.row == r;
        var i :| 0 <= i < |outcomes| && outcomes[i] == o;
        assert Tried(outcomes)[i] == r;
      }
    }
  }

  lemma TriedIsPrefix(before: seq<Row>, rows: seq<Row>, outcomes: seq<Outcome>, retryCount: int)
    requires Progress(before, rows, outcomes, retryCount) && UniqueIds(before) && DistinctTimes(before)
    ensures |outcomes| <= |InTimeOrder(before)| && Tried(outcomes) == InTimeOrder(before)[..|outcomes|]
  {
    hide Attempted, Uploaded, Legitimate, InTimeOrder;
    var q, part := InTimeOrder(before), Tried(outcomes);
    SortedStrictly(before);
    TriedMembers(outcomes);
    forall i, j | 0 <= i < j < |part| ensures part[i].timestamp < part[j].timestamp {
      assert outcomes[i] in outcomes && outcomes[j] in outcomes;
      assert part[i] in before && part[j] in before;
    }
    forall r | r in part ensures r in q {
      var i :| 0 <= i < |part| && part[i] == r;
      assert outcomes[i] in outcomes;
    }
    forall r, x | r in part && x in q && x !in part ensures r.timestamp <= x.timestamp {
      UntriedResident(before, rows, outcomes, x);
      FailedNotYounger(rows, outcomes, r, x);
    }
    OldestArePrefix(part, q);
  }

  lemma UntriedResident(before: seq<Row>, rows: seq<Row>, outcomes: seq<Outcome>, x: Row)
    requires Remaining(before, rows, outcomes) && x in before && !Attempted(outcomes, x)
    ensures x in rows
  {
    assert !Uploaded(outcomes, x);
  }

  lemma {:induction false} FailedAreRefused(outcomes: seq<Outcome>, refused: set<Row>, k: nat)
    requires k <= |outcomes| && forall i :: 0 <= i < |outcomes| ==> (outcomes[i].success <==> outcomes[i].row !in refused)
    ensures RefusedCount(Tried(outcomes)[..k], refused) == FailedCount(outcomes[..k])
  {
    if k > 0 {
      FailedAreRefused(outcomes, refused, k - 1);
      assert Tried(outcomes)[..k][..k - 1] == Tried(outcomes)[..k - 1];
      assert outcomes[..k][..k - 1] == outcomes[..k - 1];
    }
  }

  /** The verdicts given agree with the set of refused events. */
  ghost predicate VerdictsAre(outcomes: seq<Outcome>, refused: set<Row>) {
    forall i :: 0 <= i < |outcomes| ==> (outcomes[i].success <==> outcomes[i].row !in refused)
  }

  /** Whatever set agrees with the verdicts given: the events tried are the oldest up to the `n`-th refusal. */
  lemma DrainByAgreement(before: seq<Row>, rows: seq<Row>, outcomes: seq<Outcome>, retryCount: int, n: nat, refused: set<Row>)
    requires Progress(before, rows, outcomes, retryCount) && UniqueIds(before) && DistinctTimes(before)
    requires WithinLimit(outcomes, n) && (FailedCount(outcomes) < n ==> OnlyFailures(rows, outcomes))
    requires VerdictsAre(outcomes, refused)
    ensures DrainsUpTo(before, rows, outcomes, refused, n)
  {
    hide FailedCount, RefusedCount, UpToRefusal, InTimeOrder, Attempted, Uploaded, Failed, Legitimate, InOrder, OldestFirst;
    var q, m := InTimeOrder(before), |outcomes|;
    TriedIsPrefix(before, rows, outcomes, retryCount);
    TriedMembers(outcomes);
    SortedStrictly(before);
    forall k | 0 <= k <= m ensures RefusedCount(q[..k], refused) == FailedCount(outcomes[..k]) {
      FailedAreRefused(outcomes, refused, k);
      assert Tried(outcomes)[..k] == q[..k];
    }
    assert outcomes[..m] == outcomes;
    forall r ensures r in rows <==> r in before && (r in Tried(outcomes) ==> r in refused) {
      FailedIsResident(before, rows, outcomes, retryCount, r);
      VerdictOf(outcomes, refused, r);
    }
    forall r | r in before && r !in Tried(outcomes) ensures r in rows && !Failed(outcomes, r) {
      FailedIsResident(before, rows, outcomes, retryCount, r);
    }
    if m < |q| {
      assert q[m] in q && q[m] in before;
      assert q[m] !in Tried(outcomes);
      assert !OnlyFailures(rows, outcomes);
    } else {
      assert q[..m] == q;
      forall r | r in rows ensures Failed(outcomes, r) {
        FailedIsResident(before, rows, outcomes, retryCount, r);
        assert r in q;
      }
    }
    StopsAt(q, refused, n, m);
    AllTriedExactly(q, refused, n);
  }

  lemma VerdictOf(outcomes: seq<Outcome>, refused: set<Row>, r: Row)
    requires VerdictsAre(outcomes, refused)
    ensures Uploaded(outcomes, r) ==> Attempted(outcomes, r) && r !in refused
    ensures Attempted(outcomes, r) && r !in refused ==> Uploaded(outcomes, r)
  {
    if Attempted(outcomes, r) {
      var o :| o in outcomes && o.row == r;
      var i :| 0 <= i < |outcomes| && outcomes[i] == o;
    }
    if Uploaded(outcomes, r) {
      var o :| o in outcomes && o.row == r && o.success;
      var i :| 0 <= i < |outcomes| && outcomes[i] == o;
    }
  }

  lemma DrainExactly(before: seq<Row>, rows: seq<Row>, outcomes: seq<Outcome>, retryCount: int, n: nat)
    requires Progress(before, rows, outcomes, retryCount) && UniqueIds(before) && DistinctTimes(before)
    requires WithinLimit(outcomes, n) && (FailedCount(outcomes) < n ==> OnlyFailures(rows, outcomes))
    ensures DrainsUpTo(before, rows, outcomes, FailedSet(outcomes), n)
  {
    hide Uploaded, Attempted, FailedSet, Legitimate, WithinLimit, OnlyFailures, OldestFirst, Remaining, DrainsUpTo, FailedCount;
    FailedSetCount(outcomes);
    forall i | 0 <= i < |outcomes| ensures outcomes[i].success <==> outcomes[i].row !in FailedSet(outcomes) {
      assert outcomes[i] in outcomes;
    }
    DrainByAgreement(before, rows, outcomes, retryCount, n, FailedSet(outcomes));
  }

  /** Against a pipeline whose verdict on each event is fixed, the verdicts decide what is tried and what remains. */
  lemma DrainByVerdict(before: seq<Row>, rows: seq<Row>, outcomes: seq<Outcome>, retryCount: int, n: nat,
                       answer: (seq<Post>, Row) -> bool, refused: set<Row>)
    requires Progress(before, rows, outcomes, retryCount) && UniqueIds(before) && DistinctTimes(before)
    requires WithinLimit(outcomes, n) && (FailedCount(outcomes) < n ==> OnlyFailures(rows, outcomes))
    requires Steadfast(answer, refused) && retryCount >= 1 && forall o :: o in outcomes ==> Answered(answer, o, retryCount)
    ensures DrainsUpTo(before, rows, outcomes, refused, n)
  {
    hide Progress, WithinLimit, OnlyFailures, DrainsUpTo, FailedCount;
    forall i | 0 <= i < |outcomes| ensures outcomes[i].success <==> outcomes[i].row !in refused {
      assert outcomes[i] in outcomes;
    }
    DrainByAgreement(before, rows, outcomes, retryCount, n, refused);
  }

  // ---- The drain ----

  /** One event of the pending list: upload, then acknowledge or remember the failure. */
  method Attempt(buffer: CircularBuffer, net: Pipeline, row: Row, retryCount: int) returns (success: bool, ghost o: Outcome)
    requires buffer.Valid() && row in buffer.rows
    modifies buffer, net
    ensures buffer.Valid()
    ensures o.row == row && o.success == success && Legitimate(o, retryCount) && Answered(net.answer, o, retryCount)
    ensures RowsAfter(old(buffer.rows), buffer.rows, o)
    ensures buffer.acked == old(buffer.acked) + (if success then [row] else [])
    ensures buffer.inserted == old(buffer.inserted) && buffer.evicted == old(buffer.evicted)
    ensures net.log == old(net.log) + PostsOf(o)
  {
    hide Sound, UniqueIds, Answered, Legitimate, PostsOf;
    success, o := UploadWithRetry(net, row, retryCount);
    if success {
      SoundUnique(buffer.maxRows, buffer.Model());
      AckTakesRow(buffer.Model(), row);
      AcknowledgeFields(buffer.Model(), row.eventId);
      buffer.Ack(row.eventId);
    }
  }

  /**
   * `ReconnectUploader.start`, with nobody else writing: the pass ends whatever the pipeline answers; every event is
   * attempted at most once, oldest first; exactly the successes are acknowledged; and the pass stops only when all of
   * the `batchSize` oldest events have failed. When no two events share a timestamp, exactly the oldest events up to
   * the `batchSize`-th failure are tried, so that nothing but failures remains exactly if fewer events than that
   * failed or the youngest event is among them; if the pipeline's verdict on each event is fixed, all this is
   * determined by the verdicts.
   */
  method Drain(buffer: CircularBuffer, net: Pipeline, batchSize: nat, retryCount: int)
    returns (uploaded: nat, ghost outcomes: seq<Outcome>)
    requires buffer.Valid()
    modifies buffer, net
    ensures buffer.Valid()
    ensures Progress(old(buffer.rows), buffer.rows, outcomes, retryCount)
    ensures net.log == old(net.log) + AllPosts(outcomes)
    ensures uploaded == |Succeeded(outcomes)| && buffer.acked == old(buffer.acked) + Succeeded(outcomes)
    ensures buffer.inserted == old(buffer.inserted) && buffer.evicted == old(buffer.evicted)
    ensures FailedCount(outcomes) < batchSize || |buffer.rows| <= batchSize ==> OnlyFailures(buffer.rows, outcomes)
    ensures exists batch :: IsOldestBatch(buffer.rows, batch, batchSize) && forall b :: b in batch ==> Failed(outcomes, b)
    ensures DistinctTimes(old(buffer.rows)) ==>
              DrainsUpTo(old(buffer.rows), buffer.rows, outcomes, FailedSet(outcomes), batchSize)
    ensures DistinctTimes(old(buffer.rows)) && retryCount >= 1 ==>
              forall refused :: Steadfast(net.answer, refused) ==>
                DrainsUpTo(old(buffer.rows), buffer.rows, outcomes, refused, batchSize)
  {
    hide Sound, Progress, Pending, Ready, RowsAfter, IsOldestBatch, PostsOf, Legitimate, Succeeded, AllPosts, FailedCount,
         Attempted, Uploaded, Failed, IdsOfFailed, Answered, DistinctTimes, WithinLimit, DrainsUpTo, Steadfast, OnlyFailures;
    ghost var before, acked0, log0 := buffer.rows, buffer.acked, net.log;
    SoundUnique(buffer.maxRows, buffer.Model());
    uploaded, outcomes := 0, [];
    var failedIds: set<string> := {};
    NothingYet(before, retryCount, batchSize);
    while true
      invariant buffer.Valid()
      invariant Progress(before, buffer.rows, outcomes, retryCount)
      invariant IdsOfFailed(buffer.rows, outcomes, failedIds)
      invariant net.log == log0 + AllPosts(outcomes)
      invariant uploaded == |Succeeded(outcomes)| && buffer.acked == acked0 + Succeeded(outcomes)
      invariant buffer.inserted == old(buffer.inserted) && buffer.evicted == old(buffer.evicted)
      invariant forall o :: o in outcomes ==> Answered(net.answer, o, retryCount)
      invariant DistinctTimes(before) ==> WithinLimit(outcomes, batchSize)
      decreases |before| - |outcomes|
    {
      var batch := buffer.ReadOldest(batchSize);
      var pending := Pending(batch, failedIds);
      BatchReady(buffer.rows, outcomes, batch, batchSize, failedIds);
      if pending == [] {
        AllFailed(before, buffer.rows, outcomes, retryCount, batch, batchSize, failedIds);
        break;
      }
      SomebodyWaits(before, buffer.rows, outcomes, retryCount, pending);
      if DistinctTimes(before) {
        PendingFits(before, buffer.rows, outcomes, retryCount, batch, batchSize, failedIds);
      }
      ghost var start := |outcomes|;
      assert pending[0..] == pending;
      for i := 0 to |pending|
        invariant buffer.Valid() && |outcomes| == start + i
        invariant Progress(before, buffer.rows, outcomes, retryCount) && Ready(buffer.rows, outcomes, pending[i..])
        invariant IdsOfFailed(buffer.rows, outcomes, failedIds)
        invariant net.log == log0 + AllPosts(outcomes)
        invariant uploaded == |Succeeded(outcomes)| && buffer.acked == acked0 + Succeeded(outcomes)
        invariant buffer.inserted == old(buffer.inserted) && buffer.evicted == old(buffer.evicted)
        invariant forall o :: o in outcomes ==> Answered(net.answer, o, retryCount)
        invariant DistinctTimes(before) ==>
                    WithinLimit(outcomes, batchSize) && FailedCount(outcomes) + |pending| - i <= batchSize
      {
        ghost var rows := buffer.rows;
        HeadWaits(rows, outcomes, pending[i..]);
        SoundUnique(buffer.maxRows, buffer.Model());
        var success;
        ghost var o;
        success, o := Attempt(buffer, net, pending[i], retryCount);
        AttemptKeepsProgress(before, rows, outcomes, retryCount, pending[i..], o, buffer.rows);
        FailedIdsStep(before, rows, outcomes, o, buffer.rows, failedIds);
        ExtendOutcomes(outcomes, o);
        ExtendLimit(outcomes, o, batchSize);
        assert pending[i..][1..] == pending[i + 1..];
        outcomes := outcomes + [o];
        if success {
          uploaded := uploaded + 1;
        } else {
          failedIds := failedIds + {pending[i].eventId};
        }
      }
    }
    if DistinctTimes(before) {
      DrainExactly(before, buffer.rows, outcomes, retryCount, batchSize);
      forall refused | Steadfast(net.answer, refused) && retryCount >= 1
        ensures DrainsUpTo(before, buffer.rows, outcomes, refused, batchSize)
      {
        DrainByVerdict(before, buffer.rows, outcomes, retryCount, batchSize, net.answer, refused);
      }
    }
  }

  lemma NothingYet(before: seq<Row>, retryCount: int, n: nat)
    ensures Progress(before, before, [], retryCount) && IdsOfFailed(before, [], {}) && WithinLimit([], n)
    ensures AllPosts([]) == [] && Succeeded([]) == []
  {
  }

  lemma SomebodyWaits(before: seq<Row>, rows: seq<Row>, outcomes: seq<Outcome>, retryCount: int, pending: seq<Row>)
    requires Progress(before, rows, outcomes, retryCount) && Ready(rows, outcomes, pending) && pending != []
    ensures |outcomes| < |before|
  {
    hide Progress;
    assert pending[0] in pending;
    OutcomesBounded(before, rows, outcomes, retryCount, pending[0]);
  }

  lemma SoundUnique(maxRows: int, s: State)
    requires Sound(maxRows, s)
    ensures UniqueIds(s.rows)
  {
  }

  lemma HeadWaits(rows: seq<Row>, outcomes: seq<Outcome>, queue: seq<Row>)
    requires Ready(rows, outcomes, queue) && queue != []
    ensures queue[0] in rows
  {
    assert queue[0] in queue;
  }

  lemma FailedIdsStep(before: seq<Row>, rows: seq<Row>, outcomes: seq<Outcome>, o: Outcome, after: seq<Row>,
                      failedIds: set<string>)
    requires UniqueIds(rows) && o.row in rows && RowsAfter(rows, after, o) && IdsOfFailed(rows, outcomes, failedIds)
    ensures IdsOfFailed(after, outcomes + [o], if o.success then failedIds else failedIds + {o.row.eventId})
  {
    hide Attempted, Uploaded, Failed;
    ExtendOutcomes(outcomes, o);
    forall r | r in after && r.eventId == o.row.eventId ensures r == o.row {
      var i :| 0 <= i < |rows| && rows[i] == r;
      var j :| 0 <= j < |rows| && rows[j] == o.row;
    }
  }

  lemma AllFailed(before: seq<Row>, rows: seq<Row>, outcomes: seq<Outcome>, retryCount: int, batch: seq<Row>, n: nat,
                  failedIds: set<string>)
    requires Progress(before, rows, outcomes, retryCount) && IdsOfFailed(rows, outcomes, failedIds)
    requires IsOldestBatch(rows, batch, n) && Pending(batch, failedIds) == []
    ensures forall b :: b in batch ==> Failed(outcomes, b)
    ensures FailedCount(outcomes) < n || |rows| <= n ==> OnlyFailures(rows, outcomes)
  {
    hide Progress, FailedCount, Pending, Attempted, Failed;
    PendingIsFilter(batch, failedIds);
    forall b | b in batch ensures Failed(outcomes, b) {
      AttemptedResidentFailed(before, rows, outcomes, retryCount, b);
    }
    if FailedCount(outcomes) < n || |rows| <= n {
      ExhaustedBatch(rows, outcomes, batch, n);
    }
  }
}
