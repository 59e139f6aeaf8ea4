/** The proposal generator: routes, requested slots, conflict resolution, platforms and printed times. */
module Rescheduling {
  import opened ClockStrings
  import opened Collections
  import opened ConflictChecker
  import opened SlotShifting
  import TrainClasses

  datatype Segment = Segment(id: string, startKm: int, endKm: int, maxSpeedKmh: int, platformCount: nat)

  const CORRIDOR: seq<Segment> := [
    Segment("seg-ndls-anvt", 0, 14, 80, 6),
    Segment("seg-anvt-gzb", 14, 27, 110, 0),
    Segment("seg-gzb-stn", 27, 27, 100, 4),
    Segment("seg-gzb-murn", 27, 43, 130, 0),
    Segment("seg-murn-stn", 43, 43, 100, 2),
    Segment("seg-murn-modi", 43, 54, 130, 0),
    Segment("seg-modi-stn", 54, 54, 100, 2),
    Segment("seg-modi-mert", 54, 72, 130, 0),
    Segment("seg-mert-stn", 72, 72, 100, 5)
  ]

  /** A train with the speed of its class. */
  datatype Train = Train(id: string, speedKmh: int)

  /** The affected trains in scheduling order. */
  function Trains(affected: seq<string>): (r: seq<Train>) {
    var order := TrainClasses.SchedulingOrder(affected);
    seq(|order|, i requires 0 <= i < |order| => Train(order[i], TrainClasses.ClassOf(order[i]).speedKmh))
  }

  // ---- Routes ----

  predicate Skipped(seg: Segment, disruptionType: string, affected: string) {
    disruptionType == "blocked_segment" && seg.id == affected
  }

  function Unskipped(segments: seq<Segment>, disruptionType: string, affected: string): (r: seq<Segment>)
    ensures |r| <= |segments|
    ensures forall s :: s in r <==> s in segments && !Skipped(s, disruptionType, affected)
  {
    if segments == [] then []
    else
      var last := segments[|segments| - 1];
      assert segments == segments[..|segments| - 1] + [last];
      Unskipped(segments[..|segments| - 1], disruptionType, affected)
        + if Skipped(last, disruptionType, affected) then [] else [last]
  }

  function Route(disruptionType: string, affected: string): (r: seq<Segment>)
    ensures |r| <= 5
  {
    var s := Unskipped(CORRIDOR, disruptionType, affected);
    if |s| > 5 then s[..5] else s
  }

  /** `_select_route_segments` */
  method SelectRouteSegments(disruptionType: string, affected: string) returns (segments: seq<Segment>)
    ensures segments == Route(disruptionType, affected)
  {
    hide Unskipped;
    segments := [];
    EmptyUnskipped(disruptionType, affected);
    for i := 0 to |CORRIDOR|
      invariant segments == Unskipped(CORRIDOR[..i], disruptionType, affected)
    {
      UnskippedStep(CORRIDOR, i, disruptionType, affected);
      if disruptionType == "blocked_segment" && CORRIDOR[i].id == affected {
        continue;
      }
      segments := segments + [CORRIDOR[i]];
    }
    assert CORRIDOR[..|CORRIDOR|] == CORRIDOR;
    if |segments| > 5 {
      segments := segments[..5];
    }
  }

  lemma EmptyUnskipped(disruptionType: string, affected: string)
    ensures Unskipped([], disruptionType, affected) == []
  {
  }

  lemma UnskippedStep(segments: seq<Segment>, i: nat, disruptionType: string, affected: string)
    requires i < |segments|
    ensures Unskipped(segments[..i + 1], disruptionType, affected)
         == Unskipped(segments[..i], disruptionType, affected)
          + if Skipped(segments[i], disruptionType, affected) then [] else [segments[i]]
  {
    assert segments[..i + 1][..i] == segments[..i];
  }

  ghost predicate DistinctIds(segments: seq<Segment>) {
    forall i, j :: 0 <= i < j < |segments| ==> segments[i].id != segments[j].id
  }

  lemma CorridorIdsNamed()
    ensures forall s :: s in CORRIDOR ==> |s.id| > 0
  {
  }

  lemma CorridorIdsDistinct()
    ensures DistinctIds(CORRIDOR)
  {
    var c := CORRIDOR;
    assert c[0].id[4] == 'n' && c[1].id[4] == 'a' && c[2].id[4] == 'g' && c[3].id[4] == 'g' && c[4].id[4] == 'm';
    assert c[5].id[4] == 'm' && c[6].id[4] == 'm' && c[7].id[4] == 'm' && c[8].id[4] == 'm';
    assert c[2].id[8] == 's' && c[3].id[8] == 'm';
    assert c[4].id[6] == 'r' && c[5].id[6] == 'r' && c[6].id[6] == 'd' && c[7].id[6] == 'd' && c[8].id[6] == 'r';
    assert c[4].id[5] == 'u' && c[5].id[5] == 'u' && c[8].id[5] == 'e';
    assert c[4].id[9] == 's' && c[5].id[9] == 'm' && c[6].id[9] == 's' && c[7].id[9] == 'm';
  }

  lemma {:induction false} UnskippedDistinct(segments: seq<Segment>, disruptionType: string, affected: string)
    requires DistinctIds(segments)
    ensures DistinctIds(Unskipped(segments, disruptionType, affected))
  {
    if segments != [] {
      var front := segments[..|segments| - 1];
      UnskippedDistinct(front, disruptionType, affected);
      var r := Unskipped(front, disruptionType, affected);
      forall i | 0 <= i < |r| ensures r[i].id != segments[|segments| - 1].id {
        assert r[i] in front;
      }
    }
  }

  /** No route visits a segment twice. */
  lemma RouteIdsDistinct(disruptionType: string, affected: string)
    ensures DistinctIds(Route(disruptionType, affected))
  {
    CorridorIdsDistinct();
    UnskippedDistinct(CORRIDOR, disruptionType, affected);
  }

  // ---- Requested slots ----

  datatype Plan = Plan(route: seq<Segment>, trains: seq<Train>, baseHour: nat, baseMinute: nat, headwaySeconds: nat)
  {
    /** `MIN_HEADWAY_S // 60` */
    function Headway(): nat {
      headwaySeconds / 60
    }
  }

  function BaseHour(hour: nat): nat {
    if 6 <= hour <= 22 then hour else 14
  }

  function BaseMinute(minute: nat): nat {
    minute / 10 * 10
  }

  function Travel(km: int, speedKmh: int): int {
    Max(1, km * 60 / Max(speedKmh, 1))
  }

  function EffectiveSpeed(train: Train, seg: Segment): int {
    Min(train.speedKmh, seg.maxSpeedKmh)
  }

  function TransitMin(train: Train, seg: Segment): (t: int)
    ensures t >= 1
  {
    var km := seg.endKm - seg.startKm;
    if km > 0 then Travel(km, EffectiveSpeed(train, seg)) else 2
  }

  /** Running time over the first `j` segments at the train's own speed. */
  function TravelBefore(route: seq<Segment>, train: Train, j: nat): int
    requires j <= |route|
  {
    if j == 0 then 0
    else TravelBefore(route, train, j - 1) + Travel(route[j - 1].endKm - route[j - 1].startKm, train.speedKmh)
  }

  /** What a disruption event, the time of day and the configured headway make of the corridor and the fleet. */
  function PlanFor(affectedTrains: seq<string>, disruptionType: string, affected: string,
                   hour: nat, minute: nat, headwaySeconds: nat): (p: Plan)
  {
    Plan(Route(disruptionType, affected), Trains(affectedTrains), BaseHour(hour), BaseMinute(minute), headwaySeconds)
  }

  /** The slot train `i` asks for on segment `j`. */
  function Request(p: Plan, i: nat, j: nat): (w: Window)
    requires i < |p.trains| && j < |p.route|
    ensures w.exit - w.enter == TransitMin(p.trains[i], p.route[j]) >= 1
  {
    var seg, train := p.route[j], p.trains[i];
    var offset :=
      if seg.endKm - seg.startKm > 0 then
        p.baseMinute + i * Max(p.Headway(), 3) + TravelBefore(p.route, train, j)
      else p.baseMinute + i * 4;
    var enter := p.baseHour * 60 + offset;
    Window(enter, enter + TransitMin(train, seg))
  }

  // ---- The resolved timetable ----

  /** The windows on segment `j` after the first `i` trains, in train order. */
  function Slots(p: Plan, j: nat, i: nat): (s: seq<Window>)
    requires i <= |p.trains| && j < |p.route|
    ensures |s| == i
  {
    if i == 0 then []
    else Slots(p, j, i - 1) + [Resolve(Slots(p, j, i - 1), Request(p, i - 1, j), p.Headway()).window]
  }

  function Passes(p: Plan, i: nat, j: nat): nat
    requires i < |p.trains| && j < |p.route|
  {
    Resolve(Slots(p, j, i), Request(p, i, j), p.Headway()).passes
  }

  /** Shifts made for train `i` on its first `j` segments. */
  function TrainPasses(p: Plan, i: nat, j: nat): nat
    requires i < |p.trains| && j <= |p.route|
  {
    if j == 0 then 0 else TrainPasses(p, i, j - 1) + Passes(p, i, j - 1)
  }

  /** Shifts made for the first `i` trains. */
  function TotalPasses(p: Plan, i: nat): nat
    requires i <= |p.trains|
  {
    if i == 0 then 0 else TotalPasses(p, i - 1) + TrainPasses(p, i - 1, |p.route|)
  }

  function PrintedAction(p: Plan, i: nat, j: nat): (a: Action)
    requires i < |p.trains| && j < |p.route|
  {
    var seg, w := p.route[j], Slots(p, j, i + 1)[i];
    Action(seg.id, FormatTime(w.enter), FormatTime(w.exit), EffectiveSpeed(p.trains[i], seg),
           TransitMin(p.trains[i], seg), if seg.platformCount > 0 then Some(1) else None)
  }

  function PrintedActions(p: Plan, i: nat): (a: seq<Action>)
    requires i < |p.trains|
    ensures |a| == |p.route|
  {
    seq(|p.route|, j requires 0 <= j < |p.route| => PrintedAction(p, i, j))
  }

  function PrintedProposal(p: Plan): (r: Proposal)
    ensures |r| == |p.trains|
  {
    seq(|p.trains|, i requires 0 <= i < |p.trains| => Assignment(p.trains[i].id, PrintedActions(p, i)))
  }

  // ---- Properties of the timetable ----

  lemma {:induction false} SlotsPrefix(p: Plan, j: nat, i: nat, k: nat)
    requires k <= i <= |p.trains| && j < |p.route|
    ensures Slots(p, j, i)[..k] == Slots(p, j, k)
  {
    if k < i {
      SlotsPrefix(p, j, i - 1, k);
      assert Slots(p, j, i)[..k] == Slots(p, j, i - 1)[..k];
    }
  }

  /**
   * On every segment the windows of all trains are pairwise disjoint, as long as the transit time,
   * and never earlier than requested.
   */
  lemma {:induction false} SlotsSafe(p: Plan, j: nat, i: nat)
    requires i <= |p.trains| && j < |p.route|
    ensures var s := Slots(p, j, i);
            && (forall a, b :: 0 <= a < b < i ==> !Overlaps(s[a], s[b]))
            && (forall a :: 0 <= a < i ==> s[a].exit - s[a].enter == TransitMin(p.trains[a], p.route[j]))
            && (forall a :: 0 <= a < i ==> s[a].enter >= Request(p, a, j).enter)
  {
    hide Resolve, Request, TransitMin, Overlaps;
    if i > 0 {
      var before := Slots(p, j, i - 1);
      SlotsSafe(p, j, i - 1);
      ResolveSafe(before, Request(p, i - 1, j), p.Headway());
      var w := Resolve(before, Request(p, i - 1, j), p.Headway()).window;
      forall a | 0 <= a < i - 1 ensures !Overlaps(before[a], w) {
        assert before[a] in before;
        OverlapSymmetric(w, before[a]);
      }
    }
  }

  lemma OverlapSymmetric(a: Window, b: Window)
    ensures Overlaps(a, b) <==> Overlaps(b, a)
  {
  }

  lemma {:induction false} TrainPassesBound(p: Plan, i: nat, j: nat)
    requires i < |p.trains| && j <= |p.route|
    ensures TrainPasses(p, i, j) <= i * j
  {
    hide Resolve, Request;
    if j > 0 {
      TrainPassesBound(p, i, j - 1);
      ResolveSafe(Slots(p, j - 1, i), Request(p, i, j - 1), p.Headway());
      assert i * j == i * (j - 1) + i;
    }
  }

  /** Over the whole proposal at most |route| * T * (T - 1) / 2 shifts are made. */
  lemma {:induction false} TotalPassesBound(p: Plan, i: nat)
    requires i <= |p.trains|
    ensures 2 * TotalPasses(p, i) <= |p.route| * (i * (i - 1))
  {
    hide TrainPasses;
    if i > 0 {
      TotalPassesBound(p, i - 1);
      TrainPassesBound(p, i - 1, |p.route|);
      NextTriangle(|p.route|, i);
    }
  }

  lemma NextTriangle(r: nat, i: nat)
    requires i >= 1
    ensures r * (i * (i - 1)) == r * ((i - 1) * (i - 2)) + 2 * ((i - 1) * r)
  {
    assert i * (i - 1) == (i - 1) * (i - 2) + 2 * (i - 1);
  }

  lemma ShiftBudget(p: Plan)
    requires |p.route| <= 5
    ensures 2 * TotalPasses(p, |p.trains|) <= 5 * (|p.trains| * (|p.trains| - 1))
  {
    hide TotalPasses;
    var t := |p.trains|;
    TotalPassesBound(p, t);
    assert t * (t - 1) >= 0;
    FewerSegments(|p.route|, t * (t - 1));
  }

  lemma FewerSegments(n: nat, k: int)
    requires n <= 5 && k >= 0
    ensures n * k <= 5 * k
  {
  }

  // ---- Platforms ----

  type PlatformUsage = map<string, map<int, seq<Window>>>

  function SlotsAt(usage: PlatformUsage, id: string, pf: int): (s: seq<Window>) {
    if id in usage && pf in usage[id] then usage[id][pf] else []
  }

  /** Add a window to one platform's list, creating the entries that are missing. */
  function WithSlot(usage: PlatformUsage, id: string, pf: int, w: Window): (r: PlatformUsage) {
    var platforms := if id in usage then usage[id] else map[];
    usage[id := platforms[pf := SlotsAt(usage, id, pf) + [w]]]
  }

  predicate Free(usage: PlatformUsage, id: string, pf: int, w: Window) {
    forall o :: o in SlotsAt(usage, id, pf) ==> !Overlaps(w, o)
  }

  /** `_assign_platform`: first fit; any platform when all are taken. */
  method AssignPlatform(segment: Segment, w: Window, usage: PlatformUsage) returns (platform: int, after: PlatformUsage)
    requires segment.platformCount > 0
    ensures 1 <= platform <= segment.platformCount
    ensures after == WithSlot(usage, segment.id, platform, w)
    ensures Free(usage, segment.id, platform, w) ==> forall q :: 1 <= q < platform ==> !Free(usage, segment.id, q, w)
    ensures !Free(usage, segment.id, platform, w) ==> forall q :: 1 <= q <= segment.platformCount ==> !Free(usage, segment.id, q, w)
  {
    for pf := 1 to segment.platformCount + 1
      invariant forall q :: 1 <= q < pf ==> !Free(usage, segment.id, q, w)
    {
      if Free(usage, segment.id, pf, w) {
        return pf, WithSlot(usage, segment.id, pf, w);
      }
    }
    var overflow: int :| 1 <= overflow <= segment.platformCount;
    return overflow, WithSlot(usage, segment.id, overflow, w);
  }

  // ---- The generator ----

  function SlotsOf(occupied: map<string, seq<Window>>, id: string): (s: seq<Window>) {
    if id in occupied then occupied[id] else []
  }

  /** Occupancy when train `i` has been placed on its first `j` segments. */
  ghost predicate OccupancyAt(p: Plan, occupied: map<string, seq<Window>>, i: nat, j: nat)
    requires i < |p.trains| && j <= |p.route|
  {
    forall k {:trigger p.route[k]} :: 0 <= k < |p.route| ==>
      SlotsOf(occupied, p.route[k].id) == Slots(p, k, if k < j then i + 1 else i)
  }

  /** Platform 1 has taken every window of the segment; no other platform is in use. */
  ghost predicate PlatformsAt(p: Plan, usage: PlatformUsage, i: nat, j: nat)
    requires i < |p.trains| && j <= |p.route|
  {
    forall k {:trigger p.route[k]} :: 0 <= k < |p.route| && p.route[k].platformCount > 0 ==>
      && SlotsAt(usage, p.route[k].id, 1) == Slots(p, k, if k < j then i + 1 else i)
      && forall q :: q != 1 ==> SlotsAt(usage, p.route[k].id, q) == []
  }

  lemma OccupancyStep(p: Plan, occupied: map<string, seq<Window>>, i: nat, j: nat, w: Window)
    requires i < |p.trains| && j < |p.route| && DistinctIds(p.route) && OccupancyAt(p, occupied, i, j)
    requires w == Resolve(Slots(p, j, i), Request(p, i, j), p.Headway()).window
    ensures OccupancyAt(p, occupied[p.route[j].id := SlotsOf(occupied, p.route[j].id) + [w]], i, j + 1)
  {
    hide Resolve, Request;
    var after := occupied[p.route[j].id := SlotsOf(occupied, p.route[j].id) + [w]];
    forall k | 0 <= k < |p.route|
      ensures SlotsOf(after, p.route[k].id) == Slots(p, k, if k < j + 1 then i + 1 else i)
    {
      assert SlotsOf(occupied, p.route[k].id) == Slots(p, k, if k < j then i + 1 else i);
      if k == j {
        assert Slots(p, j, i + 1) == Slots(p, j, i) + [w];
      } else {
        assert p.route[k].id != p.route[j].id;
      }
    }
  }

  lemma PlatformsStep(p: Plan, usage: PlatformUsage, i: nat, j: nat, w: Window)
    requires i < |p.trains| && j < |p.route| && DistinctIds(p.route) && PlatformsAt(p, usage, i, j)
    requires w == Resolve(Slots(p, j, i), Request(p, i, j), p.Headway()).window
    requires p.route[j].platformCount > 0
    ensures PlatformsAt(p, WithSlot(usage, p.route[j].id, 1, w), i, j + 1)
  {
    hide Resolve, Request;
    var after := WithSlot(usage, p.route[j].id, 1, w);
    forall k | 0 <= k < |p.route| && p.route[k].platformCount > 0
      ensures SlotsAt(after, p.route[k].id, 1) == Slots(p, k, if k < j + 1 then i + 1 else i)
      ensures forall q :: q != 1 ==> SlotsAt(after, p.route[k].id, q) == []
    {
      assert SlotsAt(usage, p.route[k].id, 1) == Slots(p, k, if k < j then i + 1 else i);
      if k == j {
        assert Slots(p, j, i + 1) == Slots(p, j, i) + [w];
      } else {
        assert p.route[k].id != p.route[j].id;
      }
      forall q | q != 1 ensures SlotsAt(after, p.route[k].id, q) == [] {
        assert SlotsAt(usage, p.route[k].id, q) == [];
      }
    }
  }

  lemma FirstPlatformFree(p: Plan, usage: PlatformUsage, i: nat, j: nat, w: Window)
    requires i < |p.trains| && j < |p.route| && PlatformsAt(p, usage, i, j)
    requires w == Resolve(Slots(p, j, i), Request(p, i, j), p.Headway()).window
    requires p.route[j].platformCount > 0
    ensures Free(usage, p.route[j].id, 1, w)
  {
    hide Resolve, Request, Overlaps;
    ResolveSafe(Slots(p, j, i), Request(p, i, j), p.Headway());
    assert SlotsAt(usage, p.route[j].id, 1) == Slots(p, j, i);
  }

  /** Station segments among the first `j` of a route. */
  function PlatformSegments(route: seq<Segment>, j: nat): (n: nat)
    requires j <= |route|
  {
    if j == 0 then 0 else PlatformSegments(route, j - 1) + if route[j - 1].platformCount > 0 then 1 else 0
  }

  lemma NoTrains(p: Plan)
    ensures |p.trains| > 0 ==> OccupancyAt(p, map[], 0, 0) && PlatformsAt(p, map[], 0, 0)
    ensures TotalPasses(p, 0) == 0
  {
  }

  lemma NoSegments(p: Plan, i: nat)
    requires i < |p.trains|
    ensures TrainPasses(p, i, 0) == 0
  {
  }

  lemma OccupancyGives(p: Plan, occupied: map<string, seq<Window>>, i: nat, j: nat)
    requires i < |p.trains| && j < |p.route| && OccupancyAt(p, occupied, i, j)
    ensures SlotsOf(occupied, p.route[j].id) == Slots(p, j, i)
  {
  }

  lemma NoPlatformStep(p: Plan, usage: PlatformUsage, i: nat, j: nat)
    requires i < |p.trains| && j < |p.route| && PlatformsAt(p, usage, i, j)
    requires p.route[j].platformCount == 0
    ensures PlatformsAt(p, usage, i, j + 1)
  {
    hide Slots;
  }

  lemma NextTrain(p: Plan, occupied: map<string, seq<Window>>, usage: PlatformUsage, i: nat)
    requires i < |p.trains| && OccupancyAt(p, occupied, i, |p.route|) && PlatformsAt(p, usage, i, |p.route|)
    ensures i + 1 < |p.trains| ==> OccupancyAt(p, occupied, i + 1, 0) && PlatformsAt(p, usage, i + 1, 0)
    ensures TotalPasses(p, i + 1) == TotalPasses(p, i) + TrainPasses(p, i, |p.route|)
  {
    hide Slots, TrainPasses;
  }

  lemma PassesOf(p: Plan, i: nat, j: nat, w: Window, passes: nat)
    requires i < |p.trains| && j < |p.route|
    requires Resolve(Slots(p, j, i), Request(p, i, j), p.Headway()) == Resolution(w, passes)
    ensures TrainPasses(p, i, j + 1) == TrainPasses(p, i, j) + passes
    ensures PrintedAction(p, i, j) == Action(p.route[j].id, FormatTime(w.enter), FormatTime(w.exit),
              EffectiveSpeed(p.trains[i], p.route[j]), TransitMin(p.trains[i], p.route[j]),
              if p.route[j].platformCount > 0 then Some(1) else None)
  {
    hide Resolve, Request, FormatTime, TransitMin;
  }

  /** The inner loop of `_generate_proposal`: one train over its whole route. */
  method PlaceTrain(plan: Plan, i: nat, before: map<string, seq<Window>>, usageBefore: PlatformUsage)
    returns (actions: seq<Action>, occupied: map<string, seq<Window>>, usage: PlatformUsage,
             passes: nat, platforms: nat)
    requires i < |plan.trains| && DistinctIds(plan.route)
    requires OccupancyAt(plan, before, i, 0) && PlatformsAt(plan, usageBefore, i, 0)
    ensures OccupancyAt(plan, occupied, i, |plan.route|) && PlatformsAt(plan, usage, i, |plan.route|)
    ensures actions == PrintedActions(plan, i)
    ensures passes == TrainPasses(plan, i, |plan.route|)
    ensures platforms == PlatformSegments(plan.route, |plan.route|)
  {
    hide Resolve, Request, Slots, PrintedAction, FormatTime, OccupancyAt, PlatformsAt, DistinctIds, Free,
         Passes, WithSlot, Overlaps, TransitMin, TrainPasses, EffectiveSpeed;
    var route, train := plan.route, plan.trains[i];
    actions, occupied, usage, passes, platforms := [], before, usageBefore, 0, 0;
    NoSegments(plan, i);
    for j := 0 to |route|
      invariant OccupancyAt(plan, occupied, i, j) && PlatformsAt(plan, usage, i, j)
      invariant actions == PrintedActions(plan, i)[..j]
      invariant passes == TrainPasses(plan, i, j)
      invariant platforms == PlatformSegments(route, j)
    {
      var seg := route[j];
      var seqOccupied := SlotsOf(occupied, seg.id);
      OccupancyGives(plan, occupied, i, j);
      var w, shift, shifts := ResolveConflicts(seqOccupied, Request(plan, i, j), plan.Headway());
      PassesOf(plan, i, j, w, shifts);
      passes := passes + shifts;
      OccupancyStep(plan, occupied, i, j, w);
      occupied := occupied[seg.id := seqOccupied + [w]];
      var platform: Option<int> := None;
      if seg.platformCount > 0 {
        FirstPlatformFree(plan, usage, i, j, w);
        PlatformsStep(plan, usage, i, j, w);
        var pf;
        pf, usage := AssignPlatform(seg, w, usage);
        platform := Some(pf);
        platforms := platforms + 1;
      } else {
        NoPlatformStep(plan, usage, i, j);
      }
      actions := actions + [Action(seg.id, FormatTime(w.enter), FormatTime(w.exit),
                                   EffectiveSpeed(train, seg), TransitMin(train, seg), platform)];
    }
  }

  /** `_generate_proposal`, up to its metrics: the printed timetable, or nothing when the checker objects. */
  method GenerateProposal(affectedTrains: seq<string>, disruptionType: string, affected: string,
                          hour: nat, minute: nat, headwaySeconds: nat)
    returns (proposal: Option<Proposal>, conflictsResolved: nat, platformReassignments: nat, plan: Plan)
    ensures plan == PlanFor(affectedTrains, disruptionType, affected, hour, minute, headwaySeconds)
    ensures proposal == if ConflictFree(PrintedProposal(plan)) then Some(PrintedProposal(plan)) else None
    ensures conflictsResolved == TotalPasses(plan, |plan.trains|)
    ensures platformReassignments == |plan.trains| * PlatformSegments(plan.route, |plan.route|)
  {
    hide Slots, ConflictFree, PrintedActions, OccupancyAt, PlatformsAt, DistinctIds, Route,
         TotalPasses, TrainPasses, PlatformSegments, Trains;
    var trains := Trains(affectedTrains);
    var route := SelectRouteSegments(disruptionType, affected);
    RouteIdsDistinct(disruptionType, affected);
    plan := Plan(route, trains, BaseHour(hour), BaseMinute(minute), headwaySeconds);
    var assignments: Proposal := [];
    var occupied: map<string, seq<Window>> := map[];
    var usage: PlatformUsage := map[];
    conflictsResolved, platformReassignments := 0, 0;
    NoTrains(plan);
    for i := 0 to |trains|
      invariant i < |trains| ==> OccupancyAt(plan, occupied, i, 0) && PlatformsAt(plan, usage, i, 0)
      invariant assignments == PrintedProposal(plan)[..i]
      invariant conflictsResolved == TotalPasses(plan, i)
      invariant platformReassignments == i * PlatformSegments(route, |route|)
    {
      var actions, passes, platforms;
      actions, occupied, usage, passes, platforms := PlaceTrain(plan, i, occupied, usage);
      conflictsResolved := conflictsResolved + passes;
      platformReassignments := platformReassignments + platforms;
      assignments := assignments + [Assignment(trains[i].id, actions)];
      NextTrain(plan, occupied, usage, i);
    }
    assert PrintedProposal(plan)[..|trains|] == PrintedProposal(plan);
    var ok := IsConflictFree(assignments);
    proposal := if ok then Some(assignments) else None;
  }
}
