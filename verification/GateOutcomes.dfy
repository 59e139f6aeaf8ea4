/** What every request to the gate achieves, in any state the gate can reach: who can authorize, and that it then happens. */
module GateOutcomes {
  import opened Collections
  import opened RiskScoring
  import opened GateProtocol

  /** Who may authorize which tier. */
  lemma PermissionTable(controller: string)
    ensures CanAuthorize(controller, 1) <==> controller == "OC-Sharma-001" || controller == "OC-Patel-002"
    ensures CanAuthorize(controller, 2) <==> controller != "SUP-Reddy-005"
    ensures CanAuthorize(controller, 3)
  {
  }

  // ---- Presses and the queue ----

  /** A press on a queued instance is the first of two on a tier-1 advisory, and the only one so far. */
  ghost predicate OnePress(s: State) {
    && (forall p :: p in s.presses ==> p.instance < s.enqueued)
    && (forall e, p :: e in s.queue && p in s.presses && p.instance == e.instance ==>
          e.tier == 1 && e.firstAuthBy == Some(p.controller))
  }

  /** Where an entry comes from: it is new, or was queued before under the same id and tier. */
  ghost predicate Traced(s: State, x: Entry) {
    || (x.instance == s.enqueued && x.firstAuthBy == None)
    || (exists y :: y in s.queue && y.(firstAuthBy := x.firstAuthBy, escalated := x.escalated, escalationCount := x.escalationCount) == x
                    && y.firstAuthBy == x.firstAuthBy)
  }

  lemma EnqueueTraced(s: State, id: string, probability: real, severity: string, at: real)
    ensures var n := EnqueueStep(s, id, probability, severity, at);
            && (forall x :: x in n.queue ==> Traced(s, x)) && n.presses == s.presses && n.enqueued == s.enqueued + 1
  {
    hide RiskScore, RiskTier;
    var n := EnqueueStep(s, id, probability, severity, at);
    forall x | x in n.queue ensures Traced(s, x) {
      var i :| 0 <= i < |n.queue| && n.queue[i] == x;
      if i < |s.queue| && x == s.queue[i] {
        assert s.queue[i] in s.queue;
      }
    }
  }

  lemma EscalateTraced(t: Timeouts, s: State, at: real)
    ensures var n := EscalateStep(t, s, at);
            && (forall x :: x in n.queue ==> Traced(s, x)) && n.presses == s.presses && n.enqueued == s.enqueued
  {
    hide Overdue;
    var n := EscalateStep(t, s, at);
    forall x | x in n.queue ensures Traced(s, x) {
      var i :| 0 <= i < |n.queue| && n.queue[i] == x;
      assert s.queue[i] in s.queue;
    }
  }

  lemma TracedKeepsOnePress(s: State, n: State)
    requires OnePress(s) && n.presses == s.presses && n.enqueued >= s.enqueued
    requires forall x :: x in n.queue ==> Traced(s, x)
    ensures OnePress(n)
  {
    forall e, p | e in n.queue && p in n.presses && p.instance == e.instance
      ensures e.tier == 1 && e.firstAuthBy == Some(p.controller)
    {
      assert Traced(s, e);
    }
  }

  // ---- One request ----

  ghost predicate NobodyPressed(s: State, instance: nat) {
    forall p :: p in s.presses ==> p.instance != instance
  }

  /** Nothing but the clock has moved. */
  ghost predicate Unchanged(s: State, n: State) {
    n == s.(clock := n.clock)
  }

  /** The entry has left the queue, and its id with it; the others are where they were. */
  ghost predicate Left(s: State, n: State, e: Entry) {
    && (exists i :: 0 <= i < |s.queue| && s.queue[i] == e && n.queue == Without(s.queue, i))
    && (forall x :: x in n.queue ==> x.id != e.id && x.instance != e.instance)
  }

  ghost predicate Forwarded(s: State, n: State, e: Entry, controller: string) {
    var d := Decision(e, true, controller);
    && Left(s, n, e)
    && n == s.(queue := n.queue, clock := n.clock, authorized := s.authorized + 1,
               decisions := s.decisions + [d], forwards := s.forwards + [d],
               presses := s.presses + [Press(e.instance, e.id, controller)])
  }

  ghost predicate Refused(s: State, n: State, e: Entry, controller: string) {
    && Left(s, n, e)
    && n == s.(queue := n.queue, clock := n.clock, rejected := s.rejected + 1,
               decisions := s.decisions + [Decision(e, false, controller)])
  }

  /** The entry stays in its place and remembers who pressed first. */
  ghost predicate FirstPressed(s: State, n: State, e: Entry, controller: string) {
    && (exists i :: 0 <= i < |s.queue| && s.queue[i] == e && n.queue == s.queue[i := e.(firstAuthBy := Some(controller))])
    && n == s.(queue := n.queue, clock := n.clock, presses := s.presses + [Press(e.instance, e.id, controller)])
  }

  /** What becomes of a request about a queued entry. */
  ghost predicate Outcome(s: State, n: State, reply: Reply, e: Entry, controller: string, action: string) {
    if !CanAuthorize(controller, e.tier) then reply == Forbidden && Unchanged(s, n)
    else if Upper(action) == "REJECT" then reply == Rejected && Refused(s, n, e, controller)
    else if Upper(action) != "AUTHORIZE" then reply == BadAction && Unchanged(s, n)
    else if e.tier == 1 && NobodyPressed(s, e.instance) then reply == AwaitingSecondAuth && FirstPressed(s, n, e, controller)
    else if Pressed(s, e.instance, e.id, controller) then reply == SameController && Unchanged(s, n)
    else reply == Authorized && Forwarded(s, n, e, controller)
  }

  lemma FindQueued(s: State, id: string, e: Entry)
    requires QueueProper(s) && e in s.queue && e.id == id
    ensures var i := Find(s.queue, id); i < |s.queue| && s.queue[i] == e
  {
    hide WellQueued;
    var k :| 0 <= k < |s.queue| && s.queue[k] == e;
  }

  lemma WithoutLeft(s: State, i: nat)
    requires QueueProper(s) && i < |s.queue|
    ensures forall x :: x in Without(s.queue, i) ==> x.id != s.queue[i].id && x.instance != s.queue[i].instance
  {
    hide WellQueued;
    var q := Without(s.queue, i);
    forall x | x in q ensures x.id != s.queue[i].id && x.instance != s.queue[i].instance {
      var k :| 0 <= k < |q| && q[k] == x;
      assert x == s.queue[if k < i then k else k + 1];
    }
  }

  /** In terms of the presses on record instead of the entry: who pressed first, and whether anybody did. */
  lemma PressesOf(s: State, e: Entry, controller: string)
    requires Safe(s) && OnePress(s) && e in s.queue
    ensures NobodyPressed(s, e.instance) <==> e.firstAuthBy == None
    ensures Pressed(s, e.instance, e.id, controller) <==> e.firstAuthBy == Some(controller)
    ensures e.firstAuthBy.Some? ==> e.tier == 1
  {
    hide DecisionsProper, ForwardsProper, Accounted, CanAuthorize;
    var k :| 0 <= k < |s.queue| && s.queue[k] == e;
    assert WellQueued(s, s.queue[k]);
  }

  lemma ActOutcomeInState(s: State, e: Entry, id: string, controller: string, action: string)
    requires Safe(s) && OnePress(s) && e in s.queue && e.id == id
    ensures var (n, reply) := ActStep(s, id, controller, action); Outcome(s, n, reply, e, controller, action)
  {
    PressesOf(s, e, controller);
    FindQueued(s, id, e);
    var i := Find(s.queue, id);
    WithoutLeft(s, i);
    hide Upper, CanAuthorize, QueueProper, DecisionsProper, ForwardsProper, Accounted, NobodyPressed, Pressed, Without, OnePress;
    var (n, reply) := ActStep(s, id, controller, action);
    if CanAuthorize(controller, e.tier) && Upper(action) == "AUTHORIZE" && e.tier == 1 && e.firstAuthBy == None {
      assert n.queue == s.queue[i := e.(firstAuthBy := Some(controller))];
    } else if CanAuthorize(controller, e.tier) && n != s {
      assert n.queue == Without(s.queue, i);
    }
  }

  lemma NotQueued(s: State, id: string, controller: string, action: string)
    requires forall e :: e in s.queue ==> e.id != id
    ensures ActStep(s, id, controller, action) == (s, NotFound)
  {
    FoundIsQueued(s.queue, id);
  }

  lemma FoundIsQueued(queue: seq<Entry>, id: string)
    ensures Find(queue, id) < |queue| ==> exists e :: e in queue && e.id == id
  {
    var i := Find(queue, id);
    if i < |queue| {
      assert queue[i] in queue;
    }
  }

  lemma FirstPressKeepsOnePress(s: State, n: State, e: Entry, controller: string)
    requires Safe(s) && OnePress(s) && e in s.queue && e.tier == 1 && NobodyPressed(s, e.instance)
    requires FirstPressed(s, n, e, controller)
    ensures OnePress(n)
  {
    hide DecisionsProper, ForwardsProper, Accounted, CanAuthorize;
    var i :| 0 <= i < |s.queue| && s.queue[i] == e && n.queue == s.queue[i := e.(firstAuthBy := Some(controller))];
    assert WellQueued(s, s.queue[i]);
    forall x, p | x in n.queue && p in n.presses && p.instance == x.instance
      ensures x.tier == 1 && x.firstAuthBy == Some(p.controller)
    {
      var k :| 0 <= k < |n.queue| && n.queue[k] == x;
      if k != i {
        assert x == s.queue[k] && x in s.queue;
        assert p in s.presses;
      } else {
        assert p !in s.presses;
      }
    }
  }

  lemma LeavingKeepsOnePress(s: State, n: State, e: Entry, controller: string)
    requires Safe(s) && OnePress(s) && e in s.queue
    requires Forwarded(s, n, e, controller) || Refused(s, n, e, controller)
    ensures OnePress(n)
  {
    hide DecisionsProper, ForwardsProper, Accounted, CanAuthorize;
    var k :| 0 <= k < |s.queue| && s.queue[k] == e;
    assert WellQueued(s, s.queue[k]);
    var i :| 0 <= i < |s.queue| && n.queue == Without(s.queue, i);
    WithoutMembers(s.queue, i);
  }

  lemma ActKeepsOnePress(s: State, id: string, controller: string, action: string)
    requires Safe(s) && OnePress(s)
    ensures OnePress(ActStep(s, id, controller, action).0)
  {
    hide Safe, OnePress, ActStep, Forwarded, Refused, FirstPressed, NobodyPressed, Pressed, CanAuthorize, Upper;
    var n := ActStep(s, id, controller, action).0;
    if e :| e in s.queue && e.id == id {
      ActOutcomeInState(s, e, id, controller, action);
      if Unchanged(s, n) {
        ClockKeepsOnePress(s, n.clock);
      } else if FirstPressed(s, n, e, controller) && e.tier == 1 && NobodyPressed(s, e.instance) {
        FirstPressKeepsOnePress(s, n, e, controller);
      } else {
        LeavingKeepsOnePress(s, n, e, controller);
      }
    } else {
      NotQueued(s, id, controller, action);
    }
  }

  lemma ClockKeepsOnePress(s: State, at: real)
    requires OnePress(s)
    ensures OnePress(s.(clock := at))
  {
  }

  /** Over every run there is at most one press on a queued instance. */
  lemma {:induction false} RunOnePress(t: Timeouts, start: real, events: seq<Event>)
    ensures OnePress(Run(t, start, events))
  {
    hide Safe, OnePress, ActStep, EnqueueStep, EscalateStep, Traced;
    if events == [] {
      InitialOnePress(start);
    } else {
      var front, last := events[..|events| - 1], events[|events| - 1];
      var s := Run(t, start, front);
      RunOnePress(t, start, front);
      RunSafe(t, start, front);
      match last
      case Enqueue(id, p, severity, at) =>
        EnqueueTraced(s, id, p, severity, at);
        TracedKeepsOnePress(s, EnqueueStep(s, id, p, severity, at));
      case Act(id, controller, action, at) =>
        ActKeepsOnePress(s, id, controller, action);
        ClockKeepsOnePress(ActStep(s, id, controller, action).0, at);
      case Escalate(at) =>
        EscalateTraced(t, s, at);
        TracedKeepsOnePress(s, EscalateStep(t, s, at));
    }
  }

  lemma InitialOnePress(start: real)
    ensures OnePress(Initial(start))
  {
  }

  /**
   * In every reachable state, what a request achieves: unknown ids and missing permissions change nothing; a permitted
   * REJECT takes the advisory out and records the refusal; a permitted AUTHORIZE of tier 2 or 3 forwards it at once; of
   * tier 1, the first is remembered, the same controller again is refused, and the other controller's forwards it.
   */
  lemma ActOutcome(t: Timeouts, start: real, events: seq<Event>, id: string, controller: string, action: string, at: real)
    ensures var s := Run(t, start, events);
            var (n, reply) := Step(t, s, Event.Act(id, controller, action, at));
            && n.clock == at
            && ((forall e :: e in s.queue ==> e.id != id) ==> reply == NotFound && Unchanged(s, n))
            && (forall e :: e in s.queue && e.id == id ==> Outcome(s, n, reply, e, controller, action))
  {
    hide Safe, OnePress, ActStep, Run, NobodyPressed, Pressed, CanAuthorize, Upper, Left;
    var s := Run(t, start, events);
    RunSafe(t, start, events);
    RunOnePress(t, start, events);
    if forall e :: e in s.queue ==> e.id != id {
      NotQueued(s, id, controller, action);
    }
    forall e | e in s.queue && e.id == id
      ensures var (n, reply) := Step(t, s, Event.Act(id, controller, action, at)); Outcome(s, n, reply, e, controller, action)
    {
      ActOutcomeInState(s, e, id, controller, action);
      OutcomeWithClock(s, e, id, controller, action, at);
    }
  }

  lemma OutcomeWithClock(s: State, e: Entry, id: string, controller: string, action: string, at: real)
    requires var (n, reply) := ActStep(s, id, controller, action); Outcome(s, n, reply, e, controller, action)
    ensures var (n, reply) := ActStep(s, id, controller, action); Outcome(s, n.(clock := at), reply, e, controller, action)
  {
    hide ActStep, NobodyPressed, Pressed, CanAuthorize, Upper;
  }

  // ---- Two seniors ----

  ghost predicate Queued(s: State, instance: nat) {
    exists e :: e in s.queue && e.instance == instance
  }

  lemma QueuedBefore(s: State, id: string, controller: string, action: string, x: Entry) returns (y: Entry)
    requires x in ActStep(s, id, controller, action).0.queue
    ensures y in s.queue && y.instance == x.instance
  {
    hide Upper, CanAuthorize;
    var q, i := ActStep(s, id, controller, action).0.queue, Find(s.queue, id);
    var k :| 0 <= k < |q| && q[k] == x;
    y := s.queue[if |q| == |s.queue| || k < i then k else k + 1];
  }

  lemma StepTraced(t: Timeouts, s: State, e: Event, instance: nat)
    requires instance < s.enqueued && !Queued(s, instance)
    ensures !Queued(Step(t, s, e).0, instance) && instance < Step(t, s, e).0.enqueued
  {
    hide RiskScore, RiskTier, Upper, CanAuthorize;
    var n := Step(t, s, e).0;
    match e
    case Enqueue(id, p, severity, at) => EnqueueTraced(s, id, p, severity, at);
    case Act(id, controller, action, at) =>
      hide ActStep;
      forall x | x in n.queue ensures x.instance != instance {
        var y := QueuedBefore(s, id, controller, action, x);
      }
    case Escalate(at) => EscalateTraced(t, s, at);
  }

  lemma StepKeepsPresses(t: Timeouts, s: State, e: Event, p: Press)
    requires p in s.presses
    ensures p in Step(t, s, e).0.presses
  {
    hide RiskScore, RiskTier, Upper, CanAuthorize;
  }

  /** An instance that has left the queue never comes back, and no press is forgotten. */
  lemma {:induction false} LaterStates(t: Timeouts, start: real, events: seq<Event>, i: nat, j: nat, instance: nat, p: Press)
    requires i <= j <= |events|
    ensures var s, n := Run(t, start, events[..i]), Run(t, start, events[..j]);
            && (instance < s.enqueued && !Queued(s, instance) ==> instance < n.enqueued && !Queued(n, instance))
            && (p in s.presses ==> p in n.presses)
  {
    hide Step, Queued;
    if i < j {
      LaterStates(t, start, events, i, j - 1, instance, p);
      assert events[..j][..j - 1] == events[..j - 1];
      var s := Run(t, start, events[..j - 1]);
      if instance < s.enqueued && !Queued(s, instance) {
        StepTraced(t, s, events[j - 1], instance);
      }
      if p in s.presses {
        StepKeepsPresses(t, s, events[j - 1], p);
      }
    }
  }

  /** Event `j` is an AUTHORIZE for the id by a controller who may authorize tier 1, while the instance is queued as tier 1. */
  ghost predicate SeniorPress(t: Timeouts, start: real, events: seq<Event>, j: nat, instance: nat, id: string) {
    && j < |events| && events[j].Act? && events[j].id == id && Upper(events[j].action) == "AUTHORIZE"
    && CanAuthorize(events[j].controller, 1)
    && exists e :: e in Run(t, start, events[..j]).queue && e.instance == instance && e.id == id && e.tier == 1
  }

  /** After one senior has pressed, the instance has left the queue or that press, or an earlier one by the same, is on record. */
  lemma AfterFirstPress(t: Timeouts, start: real, events: seq<Event>, i: nat, instance: nat, id: string)
    requires SeniorPress(t, start, events, i, instance, id)
    ensures var n := Run(t, start, events[..i + 1]);
            && instance < n.enqueued
            && (!Queued(n, instance) || Pressed(n, instance, id, events[i].controller))
  {
    hide CanAuthorize, Upper, Run;
    var s := Run(t, start, events[..i]);
    var e :| e in s.queue && e.instance == instance && e.id == id && e.tier == 1;
    var a := events[i];
    ActOutcome(t, start, events[..i], id, a.controller, a.action, a.at);
    RunStep(t, start, events, i);
    RunSafe(t, start, events[..i]);
    InstanceOld(s, e);
  }

  lemma RunStep(t: Timeouts, start: real, events: seq<Event>, i: nat)
    requires i < |events|
    ensures Run(t, start, events[..i + 1]) == Step(t, Run(t, start, events[..i]), events[i]).0
  {
    hide Step;
    assert events[..i + 1][..i] == events[..i];
  }

  lemma InstanceOld(s: State, e: Entry)
    requires Safe(s) && e in s.queue
    ensures e.instance < s.enqueued
  {
    hide DecisionsProper, ForwardsProper, Accounted, CanAuthorize;
    var k :| 0 <= k < |s.queue| && s.queue[k] == e;
    assert WellQueued(s, s.queue[k]);
  }

  /**
   * Two different senior controllers who both press AUTHORIZE while an instance is queued as tier 1, in whatever order
   * and with anything in between, get it forwarded: the second press is answered Authorized, the decision is recorded
   * and forwarded, and the advisory has left the queue.
   */
  lemma TwoSeniorsForward(t: Timeouts, start: real, events: seq<Event>, i: nat, j: nat, instance: nat, id: string)
    requires i < j && SeniorPress(t, start, events, i, instance, id) && SeniorPress(t, start, events, j, instance, id)
    requires events[i].controller != events[j].controller
    ensures var s, n := Run(t, start, events[..j]), Run(t, start, events[..j + 1]);
            && Step(t, s, events[j]).1 == Authorized
            && exists e :: e in s.queue && e.instance == instance && e.id == id && Forwarded(s, n, e, events[j].controller)
  {
    hide CanAuthorize, Upper, Run, Step, Safe, OnePress, Forwarded, Refused, FirstPressed, Unchanged;
    var s := Run(t, start, events[..j]);
    var e :| e in s.queue && e.instance == instance && e.id == id && e.tier == 1;
    var first, a := Press(instance, id, events[i].controller), events[j];
    AfterFirstPress(t, start, events, i, instance, id);
    LaterStates(t, start, events, i + 1, j, instance, first);
    assert Queued(s, instance);
    assert first in s.presses;
    RunSafe(t, start, events[..j]);
    RunOnePress(t, start, events[..j]);
    PressesOf(s, e, events[i].controller);
    PressesOf(s, e, a.controller);
    ActOutcome(t, start, events[..j], id, a.controller, a.action, a.at);
    RunStep(t, start, events, j);
    assert Outcome(s, Step(t, s, a).0, Step(t, s, a).1, e, a.controller, a.action);
  }

  // ---- Enqueueing ----

  /**
   * After an enqueue the id is queued exactly once: as a new instance without presses or escalations, of the tier of its
   * score, in the place of the old instance if there was one and at the end otherwise; every other entry stays.
   */
  lemma EnqueueOutcome(t: Timeouts, start: real, events: seq<Event>, id: string, probability: real, severity: string, at: real)
    ensures var s := Run(t, start, events);
            var (n, reply) := Step(t, s, Event.Enqueue(id, probability, severity, at));
            var score := RiskScore(probability, severity);
            var e := Entry(s.enqueued, id, score, RiskTier(score), at, None, false, 0);
            && reply == Enqueued(RiskTier(score))
            && NobodyPressed(n, e.instance)
            && (forall i :: 0 <= i < |s.queue| && s.queue[i].id == id ==> n.queue == s.queue[i := e])
            && ((forall i :: 0 <= i < |s.queue| ==> s.queue[i].id != id) ==> n.queue == s.queue + [e])
            && n.presses == s.presses && n.decisions == s.decisions && n.forwards == s.forwards
  {
    hide RiskScore, RiskTier, Run, Safe;
    var s := Run(t, start, events);
    RunSafe(t, start, events);
    RunOnePress(t, start, events);
    forall i | 0 <= i < |s.queue| && s.queue[i].id == id ensures Find(s.queue, id) == i {
      OnlyOne(s, id, i);
    }
  }

  lemma OnlyOne(s: State, id: string, i: nat)
    requires Safe(s) && i < |s.queue| && s.queue[i].id == id
    ensures Find(s.queue, id) == i
  {
    hide DecisionsProper, ForwardsProper, Accounted, WellQueued;
  }
}
