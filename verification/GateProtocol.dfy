/** The authorization gate as a transition system: what each handler does to the queue, the counters and the logs. */
module GateProtocol {
  import opened Collections
  import opened RiskScoring

  // ---- Controllers ----

  datatype Role = SeniorOC | OC | Supervisor

  const KNOWN_CONTROLLERS: map<string, Role> := map[
    "OC-Sharma-001" := SeniorOC,
    "OC-Patel-002" := SeniorOC,
    "OC-Kumar-003" := OC,
    "OC-Singh-004" := OC,
    "SUP-Reddy-005" := Supervisor
  ]

  /** Unknown controllers are treated as ordinary operations controllers. */
  function RoleOf(controller: string): Role {
    if controller in KNOWN_CONTROLLERS then KNOWN_CONTROLLERS[controller] else OC
  }

  predicate CanAuthorize(controller: string, tier: int) {
    match RoleOf(controller)
    case SeniorOC => 1 <= tier <= 3
    case OC => 2 <= tier <= 3
    case Supervisor => tier == 3
  }

  // ---- State ----

  /** A queued advisory. `instance` tells apart two enqueues of the same id. */
  datatype Entry = Entry(instance: nat, id: string, score: real, tier: int, createdAt: real,
                         firstAuthBy: Option<string>, escalated: bool, escalationCount: nat)

  datatype Decision = Decision(entry: Entry, authorized: bool, controller: string)

  /** An AUTHORIZE press that the gate accepted, on a particular instance. */
  datatype Press = Press(instance: nat, id: string, controller: string)

  /** `queue` is in dictionary order; `presses`, `decisions` and `forwards` are complete logs. */
  datatype State = State(
    queue: seq<Entry>,
    enqueued: nat,
    authorized: nat,
    rejected: nat,
    overwritten: nat,
    escalations: nat,
    tierBreakdown: map<int, nat>,
    presses: seq<Press>,
    decisions: seq<Decision>,
    forwards: seq<Decision>,
    clock: real)

  function Initial(clock: real): State {
    State([], 0, 0, 0, 0, 0, map[1 := 0, 2 := 0, 3 := 0], [], [], [], clock)
  }

  datatype Timeouts = Timeouts(tier1: real, tier2: real, tier3: real)
  {
    function Of(tier: int): real {
      if tier == 1 then tier1 else if tier == 2 then tier2 else if tier == 3 then tier3 else 600.0
    }
  }

  datatype Event =
    | Enqueue(id: string, probability: real, severity: string, at: real)
    | Act(id: string, controller: string, action: string, at: real)
    | Escalate(at: real)

  datatype Reply =
    | Enqueued(tier: int)
    | NotFound
    | Forbidden
    | AwaitingSecondAuth
    | SameController
    | Authorized
    | Rejected
    | BadAction
    | Escalated

  /** Position of an id in the queue, or its length. */
  function Find(queue: seq<Entry>, id: string): (i: nat)
    ensures i <= |queue|
    ensures i < |queue| ==> queue[i].id == id
    ensures forall j :: 0 <= j < i ==> queue[j].id != id
  {
    if queue == [] || queue[0].id == id then 0 else 1 + Find(queue[1..], id)
  }

  function Count(breakdown: map<int, nat>, tier: int): nat {
    if tier in breakdown then breakdown[tier] else 0
  }

  /** `queue[e.id] = e` on an ordered dictionary: an existing key keeps its place. */
  function Put(queue: seq<Entry>, e: Entry): (r: seq<Entry>) {
    var i := Find(queue, e.id);
    if i < |queue| then queue[i := e] else queue + [e]
  }

  predicate Contains(queue: seq<Entry>, id: string) {
    Find(queue, id) < |queue|
  }

  // ---- Steps ----

  /** `enqueue_advisory`: a queued id keeps its place but becomes a fresh instance. */
  function EnqueueStep(s: State, id: string, probability: real, severity: string, at: real): State {
    var score := RiskScore(probability, severity);
    var tier := RiskTier(score);
    var e := Entry(s.enqueued, id, score, tier, at, None, false, 0);
    s.(queue := Put(s.queue, e),
       enqueued := s.enqueued + 1,
       overwritten := if Contains(s.queue, id) then s.overwritten + 1 else s.overwritten,
       tierBreakdown := s.tierBreakdown[tier := Count(s.tierBreakdown, tier) + 1],
       clock := at)
  }

  function Accept(s: State, i: nat, controller: string): State
    requires i < |s.queue|
  {
    s.(presses := s.presses + [Press(s.queue[i].instance, s.queue[i].id, controller)])
  }

  /** The advisory leaves the queue for good; an authorized one is forwarded. */
  function Decide(s: State, i: nat, authorized: bool, controller: string): State
    requires i < |s.queue|
  {
    var d := Decision(s.queue[i], authorized, controller);
    s.(queue := Without(s.queue, i),
       authorized := if authorized then s.authorized + 1 else s.authorized,
       rejected := if authorized then s.rejected else s.rejected + 1,
       decisions := s.decisions + [d],
       forwards := if authorized then s.forwards + [d] else s.forwards)
  }

  /** `authorize` */
  function ActStep(s: State, id: string, controller: string, action: string): (State, Reply) {
    var i := Find(s.queue, id);
    if i == |s.queue| then (s, NotFound)
    else
      var e := s.queue[i];
      if !CanAuthorize(controller, e.tier) then (s, Forbidden)
      else if Upper(action) == "AUTHORIZE" then
        if e.tier == 1 && e.firstAuthBy == None then
          (Accept(s, i, controller).(queue := s.queue[i := e.(firstAuthBy := Some(controller))]), AwaitingSecondAuth)
        else if e.tier == 1 && e.firstAuthBy == Some(controller) then (s, SameController)
        else (Decide(Accept(s, i, controller), i, true, controller), Authorized)
      else if Upper(action) == "REJECT" then (Decide(s, i, false, controller), Rejected)
      else (s, BadAction)
  }

  predicate Overdue(t: Timeouts, e: Entry, at: real) {
    at - e.createdAt > t.Of(e.tier) * (e.escalationCount + 1) as real && e.escalationCount < 3
  }

  function EscalateEntry(t: Timeouts, e: Entry, at: real): Entry {
    if Overdue(t, e, at) then e.(escalated := true, escalationCount := e.escalationCount + 1) else e
  }

  function EscalateAll(t: Timeouts, queue: seq<Entry>, at: real): (r: seq<Entry>)
    ensures |r| == |queue| && forall i :: 0 <= i < |queue| ==> r[i] == EscalateEntry(t, queue[i], at)
  {
    seq(|queue|, i requires 0 <= i < |queue| => EscalateEntry(t, queue[i], at))
  }

  function OverdueCount(t: Timeouts, queue: seq<Entry>, n: nat, at: real): nat
    requires n <= |queue|
  {
    if n == 0 then 0 else OverdueCount(t, queue, n - 1, at) + if Overdue(t, queue[n - 1], at) then 1 else 0
  }

  /** One pass of `_escalation_loop`. */
  function EscalateStep(t: Timeouts, s: State, at: real): State {
    s.(queue := EscalateAll(t, s.queue, at),
       escalations := s.escalations + OverdueCount(t, s.queue, |s.queue|, at),
       clock := at)
  }

  function Step(t: Timeouts, s: State, e: Event): (State, Reply) {
    match e
    case Enqueue(id, p, severity, at) => (EnqueueStep(s, id, p, severity, at), Enqueued(RiskTier(RiskScore(p, severity))))
    case Act(id, controller, action, at) =>
      var (n, reply) := ActStep(s, id, controller, action);
      (n.(clock := at), reply)
    case Escalate(at) => (EscalateStep(t, s, at), Escalated)
  }

  function Run(t: Timeouts, start: real, events: seq<Event>): State {
    if events == [] then Initial(start)
    else Step(t, Run(t, start, events[..|events| - 1]), events[|events| - 1]).0
  }

  // ---- Safety ----

  ghost predicate Pressed(s: State, instance: nat, id: string, controller: string) {
    Press(instance, id, controller) in s.presses
  }

  /** Two different controllers who may authorize tier 1, or one who may authorize the tier, pressed on this very instance. */
  ghost predicate ProperlyAuthorized(s: State, d: Decision) {
    var e := d.entry;
    && d.authorized
    && CanAuthorize(d.controller, e.tier)
    && Pressed(s, e.instance, e.id, d.controller)
    && (e.tier == 1 ==>
          && e.firstAuthBy.Some? && e.firstAuthBy.value != d.controller
          && CanAuthorize(e.firstAuthBy.value, 1)
          && Pressed(s, e.instance, e.id, e.firstAuthBy.value))
  }

  ghost predicate WellQueued(s: State, e: Entry) {
    && e.instance < s.enqueued
    && (e.firstAuthBy.Some? ==>
          e.tier == 1 && CanAuthorize(e.firstAuthBy.value, 1) && Pressed(s, e.instance, e.id, e.firstAuthBy.value))
  }

  ghost predicate QueueProper(s: State) {
    && (forall i, j :: 0 <= i < j < |s.queue| ==> s.queue[i].id != s.queue[j].id && s.queue[i].instance != s.queue[j].instance)
    && (forall i :: 0 <= i < |s.queue| ==> WellQueued(s, s.queue[i]))
  }

  ghost predicate DecisionsProper(s: State) {
    && (forall i, j :: 0 <= i < j < |s.decisions| ==> s.decisions[i].entry.instance != s.decisions[j].entry.instance)
    && (forall i :: 0 <= i < |s.decisions| ==> s.decisions[i].entry.instance < s.enqueued)
    && (forall i, j :: 0 <= i < |s.decisions| && 0 <= j < |s.queue| ==>
          s.decisions[i].entry.instance != s.queue[j].instance)
  }

  ghost predicate ForwardsProper(s: State) {
    forall d :: d in s.forwards ==> ProperlyAuthorized(s, d) && d in s.decisions
  }

  ghost predicate Accounted(s: State) {
    && s.enqueued == s.authorized + s.rejected + |s.queue| + s.overwritten
    && |s.decisions| == s.authorized + s.rejected
    && |s.forwards| == s.authorized
    && s.tierBreakdown.Keys == {1, 2, 3}
    && s.enqueued == s.tierBreakdown[1] + s.tierBreakdown[2] + s.tierBreakdown[3]
  }

  ghost predicate Safe(s: State) {
    QueueProper(s) && DecisionsProper(s) && ForwardsProper(s) && Accounted(s)
  }

  lemma InitialSafe(start: real)
    ensures Safe(Initial(start))
  {
  }

  lemma EnqueueSafe(s: State, id: string, probability: real, severity: string, at: real)
    requires Safe(s)
    ensures Safe(EnqueueStep(s, id, probability, severity, at))
  {
    hide RiskScore, RiskTier, CanAuthorize, Upper;
    var tier := RiskTier(RiskScore(probability, severity));
    var n := EnqueueStep(s, id, probability, severity, at);
    var i := Find(s.queue, id);
    forall j | 0 <= j < |n.queue| ensures WellQueued(n, n.queue[j]) {
      if j < |s.queue| {
        assert WellQueued(s, s.queue[j]);
      }
    }
    forall d | d in n.forwards ensures ProperlyAuthorized(n, d) {
      assert ProperlyAuthorized(s, d);
    }
  }

  /** What a press adds to the log does not disturb what was already proper. */
  lemma AcceptSafe(s: State, i: nat, controller: string)
    requires Safe(s) && i < |s.queue|
    ensures Safe(Accept(s, i, controller))
    ensures Pressed(Accept(s, i, controller), s.queue[i].instance, s.queue[i].id, controller)
  {
    hide CanAuthorize;
    var n := Accept(s, i, controller);
    forall j | 0 <= j < |n.queue| ensures WellQueued(n, n.queue[j]) {
      assert WellQueued(s, s.queue[j]);
    }
    forall d | d in n.forwards ensures ProperlyAuthorized(n, d) {
      assert ProperlyAuthorized(s, d);
    }
  }

  lemma FirstAuthSafe(s: State, i: nat, controller: string)
    requires Safe(s) && i < |s.queue| && s.queue[i].tier == 1 && CanAuthorize(controller, 1)
    ensures Safe(Accept(s, i, controller).(queue := s.queue[i := s.queue[i].(firstAuthBy := Some(controller))]))
  {
    hide CanAuthorize;
    AcceptSafe(s, i, controller);
    var a := Accept(s, i, controller);
    var n := a.(queue := s.queue[i := s.queue[i].(firstAuthBy := Some(controller))]);
    forall j | 0 <= j < |n.queue| ensures WellQueued(n, n.queue[j]) {
      assert WellQueued(a, a.queue[j]);
    }
    forall d | d in n.forwards ensures ProperlyAuthorized(n, d) {
      assert ProperlyAuthorized(a, d);
    }
  }

  lemma DecideSafe(s: State, i: nat, authorized: bool, controller: string)
    requires Safe(s) && i < |s.queue|
    requires authorized ==> ProperlyAuthorized(s, Decision(s.queue[i], true, controller))
    ensures Safe(Decide(s, i, authorized, controller))
  {
    hide CanAuthorize;
    var n := Decide(s, i, authorized, controller);
    var e := s.queue[i];
    forall j | 0 <= j < |n.queue|
      ensures WellQueued(n, n.queue[j]) && n.queue[j].instance != e.instance
    {
      assert n.queue[j] == s.queue[if j < i then j else j + 1];
      assert WellQueued(s, s.queue[if j < i then j else j + 1]);
    }
    assert WellQueued(s, e);
    forall d | d in n.forwards ensures ProperlyAuthorized(n, d) && d in n.decisions {
      assert d in s.forwards || d == Decision(e, true, controller);
      assert ProperlyAuthorized(s, d);
    }
  }

  lemma ActSafe(s: State, id: string, controller: string, action: string)
    requires Safe(s)
    ensures Safe(ActStep(s, id, controller, action).0)
  {
    hide Safe, CanAuthorize, Upper, Decide, Accept;
    var i := Find(s.queue, id);
    if i < |s.queue| && CanAuthorize(controller, s.queue[i].tier) {
      var e := s.queue[i];
      if Upper(action) == "AUTHORIZE" {
        if e.tier == 1 && e.firstAuthBy == None {
          FirstAuthSafe(s, i, controller);
        } else if e.firstAuthBy != Some(controller) || e.tier != 1 {
          AcceptSafe(s, i, controller);
          SecondPressProper(s, i, controller);
          DecideSafe(Accept(s, i, controller), i, true, controller);
        }
      } else if Upper(action) == "REJECT" {
        DecideSafe(s, i, false, controller);
      }
    }
  }

  lemma SecondPressProper(s: State, i: nat, controller: string)
    requires Safe(s) && i < |s.queue| && CanAuthorize(controller, s.queue[i].tier)
    requires s.queue[i].tier == 1 ==> s.queue[i].firstAuthBy.Some? && s.queue[i].firstAuthBy.value != controller
    ensures i < |Accept(s, i, controller).queue|
    ensures ProperlyAuthorized(Accept(s, i, controller), Decision(Accept(s, i, controller).queue[i], true, controller))
  {
    hide CanAuthorize;
    assert WellQueued(s, s.queue[i]);
  }

  lemma EscalateSafe(t: Timeouts, s: State, at: real)
    requires Safe(s)
    ensures Safe(EscalateStep(t, s, at))
  {
    hide CanAuthorize, EscalateAll, Overdue;
    var n := EscalateStep(t, s, at);
    forall j | 0 <= j < |n.queue| ensures WellQueued(n, n.queue[j]) {
      assert WellQueued(s, s.queue[j]);
    }
    forall d | d in n.forwards ensures ProperlyAuthorized(n, d) {
      assert ProperlyAuthorized(s, d);
    }
  }

  lemma ClockSafe(s: State, at: real)
    requires Safe(s)
    ensures Safe(s.(clock := at))
  {
    hide CanAuthorize;
    var n := s.(clock := at);
    forall j | 0 <= j < |n.queue| ensures WellQueued(n, n.queue[j]) {
      assert WellQueued(s, s.queue[j]);
    }
    forall d | d in n.forwards ensures ProperlyAuthorized(n, d) {
      assert ProperlyAuthorized(s, d);
    }
  }

  lemma StepSafe(t: Timeouts, s: State, e: Event)
    requires Safe(s)
    ensures Safe(Step(t, s, e).0)
  {
    hide Safe, EnqueueStep, ActStep, EscalateStep;
    match e
    case Enqueue(id, p, severity, at) => EnqueueSafe(s, id, p, severity, at);
    case Act(id, controller, action, at) =>
      ActSafe(s, id, controller, action);
      ClockSafe(ActStep(s, id, controller, action).0, at);
    case Escalate(at) => EscalateSafe(t, s, at);
  }

  /** Every state the gate can reach is safe. */
  lemma {:induction false} RunSafe(t: Timeouts, start: real, events: seq<Event>)
    ensures Safe(Run(t, start, events))
  {
    hide Safe, Step;
    if events == [] {
      InitialSafe(start);
    } else {
      var front := events[..|events| - 1];
      RunSafe(t, start, front);
      StepSafe(t, Run(t, start, front), events[|events| - 1]);
    }
  }

  /**
   * In every run, an advisory that was forwarded as tier 1 was authorized on that same instance by the two senior
   * controllers, one after the other; tiers 2 and 3 by one controller whose role permits the tier.
   */
  lemma ForwardedWasAuthorized(t: Timeouts, start: real, events: seq<Event>, d: Decision)
    requires d in Run(t, start, events).forwards
    ensures var s := Run(t, start, events);
            && CanAuthorize(d.controller, d.entry.tier)
            && Pressed(s, d.entry.instance, d.entry.id, d.controller)
            && (d.entry.tier == 1 ==>
                  && d.entry.firstAuthBy.Some?
                  && Pressed(s, d.entry.instance, d.entry.id, d.entry.firstAuthBy.value)
                  && {d.entry.firstAuthBy.value, d.controller} == {"OC-Sharma-001", "OC-Patel-002"})
  {
    hide Run;
    RunSafe(t, start, events);
    var s := Run(t, start, events);
    assert ProperlyAuthorized(s, d);
    if d.entry.tier == 1 {
      OnlySeniorsForTierOne(d.controller);
      OnlySeniorsForTierOne(d.entry.firstAuthBy.value);
    }
  }

  lemma OnlySeniorsForTierOne(controller: string)
    requires CanAuthorize(controller, 1)
    ensures controller == "OC-Sharma-001" || controller == "OC-Patel-002"
  {
  }

  /** Event `j` asks to authorize the pressed id, by that controller, while that very instance is queued. */
  ghost predicate RequestedAt(t: Timeouts, start: real, events: seq<Event>, p: Press, j: nat) {
    && j < |events|
    && events[j].Act? && events[j].id == p.id && events[j].controller == p.controller && Upper(events[j].action) == "AUTHORIZE"
    && exists e :: e in Run(t, start, events[..j]).queue && e.instance == p.instance && e.id == p.id
                && CanAuthorize(p.controller, e.tier)
  }

  /** Every recorded press goes back to an AUTHORIZE request made while the pressed instance was queued. */
  lemma {:induction false} PressesComeFromRequests(t: Timeouts, start: real, events: seq<Event>, p: Press)
    requires p in Run(t, start, events).presses
    ensures exists j: nat :: RequestedAt(t, start, events, p, j)
  {
    hide Upper, CanAuthorize;
    if events != [] {
      var n := |events| - 1;
      var front, last := events[..n], events[n];
      var s := Run(t, start, front);
      if p in s.presses {
        PressesComeFromRequests(t, start, front, p);
        var j: nat :| RequestedAt(t, start, front, p, j);
        assert events[..j] == front[..j];
        assert RequestedAt(t, start, events, p, j);
      } else {
        var e := s.queue[Find(s.queue, last.id)];
        assert last.Act? && e in s.queue && e.instance == p.instance;
        assert RequestedAt(t, start, events, p, n);
      }
    }
  }

  /** A forwarded advisory goes back to the requests themselves: for tier 1, one by each senior controller on that instance. */
  lemma ForwardedWasRequested(t: Timeouts, start: real, events: seq<Event>, d: Decision)
    requires d in Run(t, start, events).forwards
    ensures exists j: nat :: RequestedAt(t, start, events, Press(d.entry.instance, d.entry.id, d.controller), j)
    ensures d.entry.tier == 1 ==> forall c :: c in {"OC-Sharma-001", "OC-Patel-002"} ==>
              exists j: nat :: RequestedAt(t, start, events, Press(d.entry.instance, d.entry.id, c), j)
  {
    hide Run, RequestedAt;
    ForwardedWasAuthorized(t, start, events, d);
    PressesComeFromRequests(t, start, events, Press(d.entry.instance, d.entry.id, d.controller));
    if d.entry.tier == 1 {
      forall c | c in {"OC-Sharma-001", "OC-Patel-002"}
        ensures exists j: nat :: RequestedAt(t, start, events, Press(d.entry.instance, d.entry.id, c), j)
      {
        assert c in {d.entry.firstAuthBy.value, d.controller};
        PressesComeFromRequests(t, start, events, Press(d.entry.instance, d.entry.id, c));
      }
    }
  }

  /** No instance is decided twice, and a decided instance is never queued again. */
  lemma NoInstanceDecidedTwice(t: Timeouts, start: real, events: seq<Event>, i: nat, j: nat)
    requires i < j < |Run(t, start, events).decisions|
    ensures var s := Run(t, start, events);
            && s.decisions[i].entry.instance != s.decisions[j].entry.instance
            && forall e :: e in s.queue ==> e.instance != s.decisions[i].entry.instance
  {
    hide Run;
    RunSafe(t, start, events);
  }

  /** Nothing is lost: every enqueue is queued, decided or overwritten, and counted under one tier. */
  lemma EveryEnqueueAccounted(t: Timeouts, start: real, events: seq<Event>)
    ensures var s := Run(t, start, events);
            && s.enqueued == s.authorized + s.rejected + |s.queue| + s.overwritten
            && s.enqueued == Count(s.tierBreakdown, 1) + Count(s.tierBreakdown, 2) + Count(s.tierBreakdown, 3)
            && |s.forwards| == s.authorized
  {
    hide Run;
    RunSafe(t, start, events);
  }

  // ---- Escalation ----

  ghost predicate TimelyEntry(t: Timeouts, e: Entry, clock: real) {
    && e.escalationCount <= 3
    && (e.escalated <==> e.escalationCount > 0)
    && (e.escalationCount > 0 ==> clock - e.createdAt > t.Of(e.tier) * e.escalationCount as real)
  }

  ghost predicate EscalationTimely(t: Timeouts, s: State) {
    forall e :: e in s.queue ==> TimelyEntry(t, e, s.clock)
  }

  function TimeOf(e: Event): real {
    e.at
  }

  /** The clock never runs backwards. */
  ghost predicate Monotone(start: real, events: seq<Event>) {
    && (forall i :: 0 <= i < |events| ==> start <= TimeOf(events[i]))
    && (forall i, j :: 0 <= i < j < |events| ==> TimeOf(events[i]) <= TimeOf(events[j]))
  }

  /** An advisory escalated k times has waited longer than k timeouts, and k never exceeds three. */
  lemma {:induction false} EscalationsTimely(t: Timeouts, start: real, events: seq<Event>)
    requires Monotone(start, events)
    ensures var s := Run(t, start, events);
            EscalationTimely(t, s) && s.clock == if events == [] then start else TimeOf(events[|events| - 1])
  {
    hide RiskScore, RiskTier, CanAuthorize, Upper;
    if events != [] {
      var front, last := events[..|events| - 1], events[|events| - 1];
      EscalationsTimely(t, start, front);
      var s := Run(t, start, front);
      assert s.clock <= TimeOf(last) by {
        if front != [] {
          assert TimeOf(events[|front| - 1]) <= TimeOf(last);
        }
      }
      StepTimely(t, s, last);
    }
  }

  /** Apart from escalation, a queued entry is new or keeps its times and counts. */
  lemma QueueAfterAct(s: State, id: string, controller: string, action: string, x: Entry) returns (y: Entry)
    requires x in ActStep(s, id, controller, action).0.queue
    ensures y in s.queue && x.createdAt == y.createdAt && x.tier == y.tier
    ensures x.escalated == y.escalated && x.escalationCount == y.escalationCount
  {
    hide CanAuthorize, Upper;
    var q := ActStep(s, id, controller, action).0.queue;
    var i :| 0 <= i < |q| && q[i] == x;
    var k := Find(s.queue, id);
    y := s.queue[if |q| == |s.queue| || i < k then i else i + 1];
  }

  lemma StepTimely(t: Timeouts, s: State, e: Event)
    requires EscalationTimely(t, s) && s.clock <= TimeOf(e)
    ensures EscalationTimely(t, Step(t, s, e).0) && Step(t, s, e).0.clock == TimeOf(e)
  {
    hide RiskScore, RiskTier, ActStep, TimelyEntry;
    var n := Step(t, s, e).0;
    forall x | x in n.queue ensures TimelyEntry(t, x, TimeOf(e)) {
      match e
      case Enqueue(id, p, severity, at) =>
        if x in s.queue {
          EntryTimely(t, x, x, s.clock, at);
        } else {
          NewEntryTimely(t, x, at);
        }
      case Act(id, controller, action, at) =>
        var y := QueueAfterAct(s, id, controller, action, x);
        EntryTimely(t, y, x, s.clock, at);
      case Escalate(at) =>
        var i :| 0 <= i < |n.queue| && n.queue[i] == x;
        assert s.queue[i] in s.queue;
        EscalatedTimely(t, s.queue[i], s.clock, at);
    }
  }

  lemma NewEntryTimely(t: Timeouts, x: Entry, at: real)
    requires !x.escalated && x.escalationCount == 0
    ensures TimelyEntry(t, x, at)
  {
  }

  lemma EntryTimely(t: Timeouts, y: Entry, x: Entry, before: real, at: real)
    requires TimelyEntry(t, y, before) && before <= at
    requires x.createdAt == y.createdAt && x.tier == y.tier
    requires x.escalated == y.escalated && x.escalationCount == y.escalationCount
    ensures TimelyEntry(t, x, at)
  {
  }

  lemma EscalatedTimely(t: Timeouts, y: Entry, before: real, at: real)
    requires TimelyEntry(t, y, before) && before <= at
    ensures TimelyEntry(t, EscalateEntry(t, y, at), at)
  {
  }

  /**
   * A pass escalates exactly the advisories that have waited past their next timeout and were escalated fewer than
   * three times, each by one, counts them, and changes nothing else.
   */
  lemma EscalationExact(t: Timeouts, s: State, at: real)
    ensures var n := Step(t, s, Escalate(at)).0;
            && |n.queue| == |s.queue| && n == s.(queue := n.queue, escalations := n.escalations, clock := at)
            && (forall i :: 0 <= i < |s.queue| ==>
                  var due := s.queue[i].escalationCount < 3
                             && at > s.queue[i].createdAt + t.Of(s.queue[i].tier) * (s.queue[i].escalationCount + 1) as real;
                  n.queue[i] == if due then s.queue[i].(escalated := true, escalationCount := s.queue[i].escalationCount + 1)
                                else s.queue[i])
            && n.escalations - s.escalations == TotalEscalations(n.queue) - TotalEscalations(s.queue)
  {
    hide EscalateEntry;
    EscalateEntries(t, s.queue, at);
    EscalationsCounted(t, s.queue, |s.queue|, at);
    assert s.queue[..|s.queue|] == s.queue;
    var q := EscalateAll(t, s.queue, at);
    assert q[..|s.queue|] == q;
  }

  lemma EscalateEntries(t: Timeouts, queue: seq<Entry>, at: real)
    ensures forall i :: 0 <= i < |queue| ==>
              var due := queue[i].escalationCount < 3
                         && at > queue[i].createdAt + t.Of(queue[i].tier) * (queue[i].escalationCount + 1) as real;
              EscalateAll(t, queue, at)[i] == if due then queue[i].(escalated := true, escalationCount := queue[i].escalationCount + 1)
                                              else queue[i]
  {
  }

  function TotalEscalations(queue: seq<Entry>): nat {
    if queue == [] then 0 else TotalEscalations(queue[..|queue| - 1]) + queue[|queue| - 1].escalationCount
  }

  lemma {:induction false} EscalationsCounted(t: Timeouts, queue: seq<Entry>, n: nat, at: real)
    requires n <= |queue|
    ensures TotalEscalations(EscalateAll(t, queue, at)[..n]) == TotalEscalations(queue[..n]) + OverdueCount(t, queue, n, at)
  {
    if n > 0 {
      EscalationsCounted(t, queue, n - 1, at);
      var q := EscalateAll(t, queue, at);
      assert q[..n][..n - 1] == q[..n - 1] && queue[..n][..n - 1] == queue[..n - 1];
      assert q[n - 1] == EscalateEntry(t, queue[n - 1], at);
    }
  }

  // ---- The bounded audit log ----

  const AUDIT_SIZE := 100

  /** `deque(maxlen=100)`: the most recent decisions only. */
  function Audit(decisions: seq<Decision>): (r: seq<Decision>) {
    if |decisions| > AUDIT_SIZE then decisions[|decisions| - AUDIT_SIZE..] else decisions
  }

  /** `append` on the full deque drops its oldest record. */
  function AppendBounded(log: seq<Decision>, d: Decision): (r: seq<Decision>) {
    if |log| >= AUDIT_SIZE then log[1..] + [d] else log + [d]
  }

  lemma AuditAppend(decisions: seq<Decision>, d: Decision)
    ensures AppendBounded(Audit(decisions), d) == Audit(decisions + [d])
  {
  }

  /**
   * Every forwarded advisory has exactly one decision record, and the audit log still shows it
   * exactly while fewer than 100 decisions have been taken after it.
   */
  lemma ForwardedIsAudited(t: Timeouts, start: real, events: seq<Event>, d: Decision) returns (i: nat)
    requires d in Run(t, start, events).forwards
    ensures var decisions := Run(t, start, events).decisions;
            && i < |decisions| && decisions[i] == d && d.authorized
            && (forall j :: 0 <= j < |decisions| && decisions[j] == d ==> j == i)
            && (d in Audit(decisions) <==> |decisions| - 1 - i < AUDIT_SIZE)
  {
    hide Run;
    RunSafe(t, start, events);
    var s := Run(t, start, events);
    assert ProperlyAuthorized(s, d);
    i :| 0 <= i < |s.decisions| && s.decisions[i] == d;
    var a := Audit(s.decisions);
    var skipped := |s.decisions| - |a|;
    if i >= skipped {
      assert a[i - skipped] == d;
    }
  }
}
