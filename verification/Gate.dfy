/** The authorization gate as the service keeps it: shared advisory objects, a lazily sorted cache, counters. */
module Gate {
  import opened Collections
  import opened RiskScoring
  import opened GateProtocol
  import opened StableSorting

  /** `_QueuedAdvisory` */
  class Advisory {
    const id: string
    const riskScore: real
    const riskTier: int
    const createdAt: real
    ghost const instance: nat
    var firstAuthBy: Option<string>
    var escalated: bool
    var escalationCount: nat

    constructor (id: string, score: real, tier: int, createdAt: real, ghost instance: nat)
      ensures Snapshot() == Entry(instance, id, score, tier, createdAt, None, false, 0)
    {
      this.id, this.riskScore, this.riskTier, this.createdAt, this.instance := id, score, tier, createdAt, instance;
      firstAuthBy, escalated, escalationCount := None, false, 0;
    }

    ghost function Snapshot(): Entry
      reads this
    {
      Entry(instance, id, riskScore, riskTier, createdAt, firstAuthBy, escalated, escalationCount)
    }
  }

  ghost function Snapshots(queue: seq<Advisory>): (r: seq<Entry>)
    reads queue
    ensures |r| == |queue|
  {
    seq(|queue|, i requires 0 <= i < |queue| reads queue => queue[i].Snapshot())
  }

  lemma SnapshotAt(queue: seq<Advisory>, i: nat)
    requires i < |queue|
    ensures Snapshots(queue)[i] == queue[i].Snapshot()
  {
  }

  function Score(a: Advisory): real {
    a.riskScore
  }

  class AuthorizationGate {
    const timeouts: Timeouts
    var queue: seq<Advisory>
    var sortedCache: seq<Advisory>
    var dirty: bool
    var totalEnqueued: nat
    var totalAuthorized: nat
    var totalRejected: nat
    var totalEscalated: nat
    var tierBreakdown: map<int, nat>
    ghost var auditLog: seq<Decision>
    ghost var overwritten: nat
    ghost var presses: seq<Press>
    ghost var decisions: seq<Decision>
    ghost var forwards: seq<Decision>
    ghost var clock: real

    constructor (timeouts: Timeouts, ghost start: real)
      ensures Valid() && Model() == Initial(start) && this.timeouts == timeouts
    {
      this.timeouts := timeouts;
      queue, sortedCache, dirty := [], [], true;
      totalEnqueued, totalAuthorized, totalRejected, totalEscalated := 0, 0, 0, 0;
      tierBreakdown := map[1 := 0, 2 := 0, 3 := 0];
      auditLog, overwritten, presses, decisions, forwards, clock := [], 0, [], [], [], start;
    }

    ghost function Model(): State
      reads this, queue
    {
      State(Snapshots(queue), totalEnqueued, totalAuthorized, totalRejected, overwritten, totalEscalated,
            tierBreakdown, presses, decisions, forwards, clock)
    }

    /** Ids are dictionary keys, the audit log shows the latest decisions, and a cache that is not marked dirty is the queue in descending order of risk. */
    ghost predicate Valid()
      reads this
    {
      && (forall i, j :: 0 <= i < j < |queue| ==> queue[i].id != queue[j].id)
      && auditLog == Audit(decisions)
      && (!dirty ==> sortedCache == SortDescending(queue, Score))
    }

    /** Dictionary lookup: the position of the id, or the length of the queue. */
    method Lookup(id: string) returns (i: nat)
      requires Valid()
      ensures i == Find(Snapshots(queue), id) && i <= |queue|
    {
      i := 0;
      assert Snapshots(queue)[0..] == Snapshots(queue);
      while i < |queue| && queue[i].id != id
        invariant i <= |queue|
        invariant Find(Snapshots(queue), id) == i + Find(Snapshots(queue)[i..], id)
      {
        assert Snapshots(queue)[i..][1..] == Snapshots(queue)[i + 1..];
        i := i + 1;
      }
    }

    /** `_queue[qa.advisory_id] = qa` */
    method PutInQueue(qa: Advisory)
      requires Valid()
      modifies this`queue, this`dirty
      ensures Valid() && dirty
      ensures Snapshots(queue) == Put(old(Snapshots(queue)), qa.Snapshot())
    {
      hide SortDescending;
      var i := Lookup(qa.id);
      if i < |queue| {
        SnapshotAt(queue, i);
        assert queue[i].id == qa.id;
        queue := queue[i := qa];
      } else {
        forall j | 0 <= j < |queue| ensures queue[j].id != qa.id {
          SnapshotAt(queue, j);
        }
        queue := queue + [qa];
      }
      dirty := true;
    }

    /** `enqueue_advisory` */
    method EnqueueAdvisory(id: string, probability: real, severity: string, now: real) returns (tier: int)
      requires Valid()
      modifies this
      ensures Valid()
      ensures Model() == Step(timeouts, old(Model()), Event.Enqueue(id, probability, severity, now)).0
      ensures Enqueued(tier) == Step(timeouts, old(Model()), Event.Enqueue(id, probability, severity, now)).1
    {
      hide RiskScore, RiskTier, SortDescending, Snapshots, Put, Contains, Count;
      var score := RiskScore(probability, severity);
      tier := RiskTier(score);
      ghost var before := Snapshots(queue);
      var qa := new Advisory(id, score, tier, now, totalEnqueued);
      assert Snapshots(queue) == before;
      clock := now;
      totalEnqueued := totalEnqueued + 1;
      tierBreakdown := tierBreakdown[tier := Count(tierBreakdown, tier) + 1];
      if Contains(Snapshots(queue), id) {
        overwritten := overwritten + 1;
      }
      PutInQueue(qa);
    }

    /** Take a decided advisory out of the queue and record the decision. */
    method DecideAt(i: nat, authorized: bool, ghost controller: string)
      requires Valid() && i < |queue|
      modifies this
      ensures Valid() && Model() == Decide(old(Model()), i, authorized, controller)
    {
      hide SortDescending;
      ghost var d := Decision(queue[i].Snapshot(), authorized, controller);
      AuditAppend(decisions, d);
      decisions := decisions + [d];
      auditLog := AppendBounded(auditLog, d);
      if authorized {
        totalAuthorized := totalAuthorized + 1;
        forwards := forwards + [d];
      } else {
        totalRejected := totalRejected + 1;
      }
      queue := Without(queue, i);
      dirty := true;
      assert Snapshots(queue) == Without(old(Snapshots(queue)), i);
    }

    /** Remember who pressed first; the advisory object is shared with the sorted cache. */
    method SetFirstAuth(i: nat, controller: string)
      requires Valid() && i < |queue|
      modifies queue[i]
      ensures Valid()
      ensures Snapshots(queue) == old(Snapshots(queue))[i := old(queue[i].Snapshot()).(firstAuthBy := Some(controller))]
    {
      hide SortDescending;
      queue[i].firstAuthBy := Some(controller);
    }

    /** `authorize` */
    method Authorize(id: string, controller: string, action: string, ghost at: real) returns (reply: Reply)
      requires Valid()
      modifies this, queue
      ensures Valid()
      ensures Model() == Step(timeouts, old(Model()), Event.Act(id, controller, action, at)).0
      ensures reply == Step(timeouts, old(Model()), Event.Act(id, controller, action, at)).1
    {
      hide CanAuthorize, Upper, SortDescending, Find, Snapshots, Without;
      var i := Lookup(id);
      clock := at;
      if i == |queue| {
        return NotFound;
      }
      var qa := queue[i];
      SnapshotAt(queue, i);
      if !CanAuthorize(controller, qa.riskTier) {
        return Forbidden;
      }
      if Upper(action) == "AUTHORIZE" {
        if qa.riskTier == 1 {
          if qa.firstAuthBy == None {
            presses := presses + [Press(qa.instance, qa.id, controller)];
            SetFirstAuth(i, controller);
            return AwaitingSecondAuth;
          }
          if qa.firstAuthBy == Some(controller) {
            return SameController;
          }
        }
        presses := presses + [Press(qa.instance, qa.id, controller)];
        DecideAt(i, true, controller);
        return Authorized;
      } else if Upper(action) == "REJECT" {
        DecideAt(i, false, controller);
        return Rejected;
      }
      return BadAction;
    }

    /** The cache refresh of `get_queue`: the answer is a permutation of the queue, riskiest first, ties in queue order. */
    method GetQueue() returns (advisories: seq<Advisory>)
      requires Valid()
      modifies this`sortedCache, this`dirty
      ensures Valid() && !dirty && advisories == sortedCache
      ensures advisories == SortDescending(queue, Score)
      ensures multiset(advisories) == multiset(queue) && Descending(advisories, Score)
      ensures forall v: real :: WithScore(advisories, Score, v) == WithScore(queue, Score, v)
    {
      hide SortDescending, WithScore;
      if dirty {
        sortedCache := SortDescending(queue, Score);
        dirty := false;
      }
      advisories := sortedCache;
      SortPermutes(queue, Score);
      SortedDescending(queue, Score);
      forall v: real ensures WithScore(advisories, Score, v) == WithScore(queue, Score, v) {
        SortStable(queue, Score, v);
      }
    }

    /** The body of `_escalation_loop` for one advisory. */
    method EscalateAt(i: nat, now: real)
      requires Valid() && i < |queue|
      modifies queue[i], this`totalEscalated
      ensures Valid()
      ensures Snapshots(queue) == old(Snapshots(queue))[i := EscalateEntry(timeouts, old(queue[i].Snapshot()), now)]
      ensures totalEscalated == old(totalEscalated) + if Overdue(timeouts, old(queue[i].Snapshot()), now) then 1 else 0
    {
      hide SortDescending;
      var qa := queue[i];
      if now - qa.createdAt > timeouts.Of(qa.riskTier) * (qa.escalationCount + 1) as real {
        if qa.escalationCount < 3 {
          qa.escalated := true;
          qa.escalationCount := qa.escalationCount + 1;
          totalEscalated := totalEscalated + 1;
        }
      }
    }

    /** The loop over the queue. */
    method EscalateEach(now: real)
      requires Valid()
      modifies this`totalEscalated, queue
      ensures Valid()
      ensures Snapshots(queue) == EscalateAll(timeouts, old(Snapshots(queue)), now)
      ensures totalEscalated == old(totalEscalated) + OverdueCount(timeouts, old(Snapshots(queue)), |queue|, now)
    {
      hide Valid, Overdue, EscalateEntry, Snapshots, EscalateAll, OverdueCount;
      ghost var before := Snapshots(queue);
      EscalateNone(timeouts, before, now);
      for i := 0 to |queue|
        invariant Valid() && |queue| == |before|
        invariant Snapshots(queue) == EscalateAll(timeouts, before[..i], now) + before[i..]
        invariant totalEscalated == old(totalEscalated) + OverdueCount(timeouts, before, i, now)
      {
        SnapshotAt(queue, i);
        EscalateAt(i, now);
        EscalatePrefix(timeouts, before, i, now);
      }
      assert before[..|before|] == before && before[|before|..] == [];
    }

    /** One pass of `_escalation_loop` at time `now`. */
    method EscalationPass(now: real)
      requires Valid()
      modifies this`totalEscalated, this`clock, queue
      ensures Valid()
      ensures Model() == Step(timeouts, old(Model()), Escalate(now)).0
    {
      hide Overdue, Snapshots, EscalateAll, OverdueCount, Audit, SortDescending;
      EscalateEach(now);
      clock := now;
    }
  }

  lemma EscalateNone(t: Timeouts, before: seq<Entry>, now: real)
    ensures before == EscalateAll(t, before[..0], now) + before[0..] && OverdueCount(t, before, 0, now) == 0
  {
  }

  lemma EscalatePrefix(t: Timeouts, before: seq<Entry>, i: nat, now: real)
    requires i < |before|
    ensures (EscalateAll(t, before[..i], now) + before[i..])[i := EscalateEntry(t, before[i], now)]
         == EscalateAll(t, before[..i + 1], now) + before[i + 1..]
    ensures OverdueCount(t, before, i + 1, now)
         == OverdueCount(t, before, i, now) + if Overdue(t, before[i], now) then 1 else 0
  {
    hide EscalateEntry;
  }
}
