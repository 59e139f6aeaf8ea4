/** What a generated timetable prints, in terms of the corridor, the classes of the trains and the clock. */
module TimetableContents {
  import opened ClockStrings
  import opened Collections
  import opened ConflictChecker
  import opened SlotShifting
  import opened Rescheduling
  import opened CorridorFacts
  import opened HeadwayGuarantee
  import TrainClasses

  // ---- Running times ----

  /** A distance takes r minutes at a speed: whole minutes rounded down, but at least one. */
  predicate TakesMinutes(km: int, speedKmh: int, r: int) {
    && r >= 1
    && (r == 1 || r * speedKmh <= 60 * km)
    && 60 * km < (r + 1) * speedKmh
  }

  /** There is no other such number. */
  lemma TakesMinutesUnique(km: nat, speedKmh: int, r: int, q: int)
    requires speedKmh >= 1 && TakesMinutes(km, speedKmh, r) && TakesMinutes(km, speedKmh, q)
    ensures r == q
  {
    if r < q {
      TimesMonotone(speedKmh, r + 1, q);
      assert false;
    } else if q < r {
      TimesMonotone(speedKmh, q + 1, r);
      assert false;
    }
  }

  lemma TravelTakes(km: nat, speedKmh: int)
    requires speedKmh >= 1
    ensures TakesMinutes(km, speedKmh, Travel(km, speedKmh))
  {
    var n := km * 60;
    DivisionBounds(n, speedKmh);
    var q := n / speedKmh;
    if q == 0 {
      assert 2 * speedKmh > n;
    }
  }

  lemma DivisionBounds(n: nat, v: int)
    requires v >= 1
    ensures n / v >= 0 && (n / v) * v <= n < (n / v + 1) * v
  {
  }

  predicate SlowerOf(v: int, a: int, b: int) {
    v <= a && v <= b && (v == a || v == b)
  }

  function Km(seg: Segment): int {
    seg.endKm - seg.startKm
  }

  // ---- What one action says ----

  /** The action of a train on a segment, but for the times. */
  ghost predicate ActionFits(a: Action, seg: Segment, trainId: string) {
    && a.segmentId == seg.id
    && SlowerOf(a.speedKmh, TrainClasses.ClassOf(trainId).speedKmh, seg.maxSpeedKmh)
    && (if IsLine(seg) then TakesMinutes(Km(seg), a.speedKmh, a.transitMin) else a.transitMin == 2)
    && a.platform == if seg.platformCount > 0 then Some(1) else None
  }

  lemma TrainAt(affectedTrains: seq<string>, i: nat)
    requires i < |Trains(affectedTrains)|
    ensures i < |TrainClasses.SchedulingOrder(affectedTrains)|
    ensures var id := TrainClasses.SchedulingOrder(affectedTrains)[i];
            Trains(affectedTrains)[i] == Train(id, TrainClasses.ClassOf(id).speedKmh)
  {
  }

  /**
   * Every action keeps to the slower of the train's class and the segment's limit, takes the whole minutes that speed
   * needs on the line and two minutes at a station, and names platform 1 where there are platforms.
   */
  lemma ActionsFit(affectedTrains: seq<string>, disruptionType: string, affected: string,
                   hour: nat, minute: nat, headwaySeconds: nat, i: nat, j: nat)
    requires i < |Trains(affectedTrains)| && j < |Route(disruptionType, affected)|
    ensures var p := PlanFor(affectedTrains, disruptionType, affected, hour, minute, headwaySeconds);
            var assignment := PrintedProposal(p)[i];
            && i < |TrainClasses.SchedulingOrder(affectedTrains)|
            && assignment.trainId == TrainClasses.SchedulingOrder(affectedTrains)[i]
            && |assignment.actions| == |Route(disruptionType, affected)|
            && ActionFits(assignment.actions[j], Route(disruptionType, affected)[j], assignment.trainId)
  {
    hide Route, Trains, Slots, CORRIDOR, FormatTime, Travel, TrainClasses.SchedulingOrder, TrainClasses.ClassOf, TakesMinutes;
    var p := PlanFor(affectedTrains, disruptionType, affected, hour, minute, headwaySeconds);
    TrainAt(affectedTrains, i);
    SpeedRange(affectedTrains, i);
    RouteFromCorridor(disruptionType, affected);
    SegmentFacts();
    var seg := p.route[j];
    assert seg in p.route;
    SpeedLimits(seg);
    assert PrintedProposal(p)[i].actions[j] == PrintedAction(p, i, j);
    if IsLine(seg) {
      TravelTakes(Km(seg), EffectiveSpeed(p.trains[i], seg));
    }
  }

  lemma SpeedLimits(seg: Segment)
    requires seg in CORRIDOR
    ensures seg.maxSpeedKmh >= 80
  {
  }

  // ---- When ----

  function Sum(s: seq<int>): int {
    if s == [] then 0 else Sum(s[..|s| - 1]) + s[|s| - 1]
  }

  /** The running times of a train at its own speed over the first segments of a route. */
  ghost predicate RunningTimes(times: seq<int>, route: seq<Segment>, speedKmh: int, j: nat)
    requires j <= |route|
  {
    |times| == j && forall k :: 0 <= k < j ==> TakesMinutes(Km(route[k]), speedKmh, times[k])
  }

  lemma {:induction false} TravelBeforeIsSum(route: seq<Segment>, train: Train, j: nat) returns (times: seq<int>)
    requires j <= |route| && train.speedKmh >= 1 && forall s :: s in route ==> Km(s) >= 0
    ensures RunningTimes(times, route, train.speedKmh, j) && TravelBefore(route, train, j) == Sum(times)
  {
    hide TakesMinutes, Travel;
    if j == 0 {
      times := [];
    } else {
      var front := TravelBeforeIsSum(route, train, j - 1);
      assert route[j - 1] in route;
      TravelTakes(Km(route[j - 1]), train.speedKmh);
      times := front + [Travel(Km(route[j - 1]), train.speedKmh)];
      assert times[..j - 1] == front;
    }
  }

  /** The last full ten minutes of the clock, between six and eleven at night; at other hours, of the hour from two. */
  predicate IsBaseTime(base: int, hour: nat, minute: nat) {
    base % 10 == 0 && 0 <= (if 6 <= hour <= 22 then hour else 14) * 60 + minute - base < 10
  }

  /** When a train asks for a segment: on the line by its place in the order and its own running time, at stations by its place. */
  ghost predicate AsksFor(asked: int, base: int, route: seq<Segment>, j: nat, speedKmh: int, i: nat, headway: nat)
    requires j < |route|
  {
    if IsLine(route[j]) then
      exists times :: RunningTimes(times, route, speedKmh, j) && asked == base + i * Max(headway, 3) + Sum(times)
    else
      asked == base + i * 4
  }

  /** A train gets the time it asked for, or, if somebody before it is in the way, one the headway behind one of them. */
  ghost predicate Placed(ws: seq<Window>, i: nat, asked: int, transit: int, headway: nat)
    requires i < |ws|
  {
    && ws[i].exit - ws[i].enter == transit
    && (forall k :: 0 <= k < i ==> !Overlaps(ws[k], ws[i]))
    && if forall k :: 0 <= k < i ==> !Overlaps(ws[k], Window(asked, asked + transit)) then ws[i].enter == asked
       else ws[i].enter > asked && exists k :: 0 <= k < i && ws[i].enter == ws[k].exit + headway
  }

  /**
   * The printed times of a segment come from windows in minutes: each is as long as the printed transit, and its train
   * is placed as it asks, by the clock, its place in the order and the running times of its class.
   */
  lemma TimesPlaced(affectedTrains: seq<string>, disruptionType: string, affected: string,
                    hour: nat, minute: nat, headwaySeconds: nat, j: nat)
    returns (ws: seq<Window>, asked: seq<int>, base: int)
    requires j < |Route(disruptionType, affected)|
    ensures IsBaseTime(base, hour, minute)
    ensures var p := PlanFor(affectedTrains, disruptionType, affected, hour, minute, headwaySeconds);
            && |ws| == |asked| == |p.trains|
            && forall i :: 0 <= i < |ws| ==>
                 var a := PrintedProposal(p)[i].actions[j];
                 && a.enterAt == FormatTime(ws[i].enter) && a.exitAt == FormatTime(ws[i].exit)
                 && AsksFor(asked[i], base, Route(disruptionType, affected), j,
                            TrainClasses.ClassOf(PrintedProposal(p)[i].trainId).speedKmh, i, headwaySeconds / 60)
                 && Placed(ws, i, asked[i], a.transitMin, headwaySeconds / 60)
  {
    hide Route, Trains, Slots, CORRIDOR, FormatTime, Resolve, TransitMin, AsksFor, Placed, EffectiveSpeed,
         TrainClasses.ClassOf, TrainClasses.SchedulingOrder;
    var p := PlanFor(affectedTrains, disruptionType, affected, hour, minute, headwaySeconds);
    var n := |p.trains|;
    base := p.baseHour * 60 + p.baseMinute;
    BaseOfClock(hour, minute);
    ws := Slots(p, j, n);
    asked := seq(n, i requires 0 <= i < n => Request(p, i, j).enter);
    forall i | 0 <= i < n
      ensures var a := PrintedProposal(p)[i].actions[j];
              && a.enterAt == FormatTime(ws[i].enter) && a.exitAt == FormatTime(ws[i].exit)
              && AsksFor(asked[i], base, p.route, j, TrainClasses.ClassOf(PrintedProposal(p)[i].trainId).speedKmh, i,
                         headwaySeconds / 60)
              && Placed(ws, i, asked[i], a.transitMin, headwaySeconds / 60)
    {
      assert PrintedProposal(p)[i].actions[j] == PrintedAction(p, i, j);
      SlotsPrefix(p, j, n, i + 1);
      assert Slots(p, j, i + 1)[i] == ws[i];
      TrainAt(affectedTrains, i);
      assert PrintedProposal(p)[i].trainId == p.trains[i].id;
      SpeedRange(affectedTrains, i);
      RouteFromCorridor(disruptionType, affected);
      RequestAsks(p, i, j, base);
      SlotPlaced(p, i, j);
    }
  }

  lemma BaseOfClock(hour: nat, minute: nat)
    ensures IsBaseTime(BaseHour(hour) * 60 + BaseMinute(minute), hour, minute)
  {
  }

  lemma RequestAsks(p: Plan, i: nat, j: nat, base: int)
    requires i < |p.trains| && j < |p.route| && p.trains[i].speedKmh >= 1 && FromCorridor(p.route)
    requires base == p.baseHour * 60 + p.baseMinute
    ensures AsksFor(Request(p, i, j).enter, base, p.route, j, p.trains[i].speedKmh, i, p.Headway())
  {
    hide TransitMin, TakesMinutes, TravelBefore;
    SegmentFacts();
    hide CORRIDOR;
    if IsLine(p.route[j]) {
      var times := TravelBeforeIsSum(p.route, p.trains[i], j);
    }
  }

  lemma SlotPlaced(p: Plan, i: nat, j: nat)
    requires i < |p.trains| && j < |p.route|
    ensures Placed(Slots(p, j, |p.trains|), i, Request(p, i, j).enter, TransitMin(p.trains[i], p.route[j]), p.Headway())
  {
    hide TransitMin, Resolve, Request, Placed;
    var n := |p.trains|;
    SlotsPrefix(p, j, n, i);
    SlotsPrefix(p, j, n, i + 1);
    assert Slots(p, j, n)[i] == Slots(p, j, i + 1)[i];
    RequestLength(p, i, j);
    LoopPlaces(Slots(p, j, n), i, Request(p, i, j), p.Headway());
  }

  lemma LoopPlaces(ws: seq<Window>, i: nat, request: Window, headway: nat)
    requires i < |ws| && ws[i] == Resolve(ws[..i], request, headway).window
    ensures Placed(ws, i, request.enter, request.exit - request.enter, headway)
  {
    hide Resolve, Overlaps;
    var before := ws[..i];
    ResolveSafe(before, request, headway);
    forall k | 0 <= k < i ensures !Overlaps(ws[k], ws[i]) {
      assert before[k] in before;
      OverlapSymmetric(ws[k], ws[i]);
    }
    if k :| 0 <= k < i && Overlaps(ws[k], request) {
      assert before[k] in before;
      OverlapSymmetric(ws[k], request);
      var o := ShiftedBehindOne(before, request, headway);
      var l :| 0 <= l < i && before[l] == o;
      assert ws[i].enter == ws[l].exit + headway;
      assert ws[i].enter != request.enter;
    } else {
      forall o | o in before ensures !Overlaps(request, o) {
        var k :| 0 <= k < i && before[k] == o;
        OverlapSymmetric(ws[k], request);
      }
      ClearUnshifted(before, request, headway);
    }
  }

  /** The first train gets what it asks for: on the line, the base time plus the running times of its class. */
  lemma FirstTrainTimes(affectedTrains: seq<string>, disruptionType: string, affected: string,
                        hour: nat, minute: nat, headwaySeconds: nat, j: nat)
    returns (base: int, times: seq<int>)
    requires j < |Route(disruptionType, affected)|
    ensures IsBaseTime(base, hour, minute)
    ensures var p := PlanFor(affectedTrains, disruptionType, affected, hour, minute, headwaySeconds);
            && |p.trains| >= 1
            && var a := PrintedProposal(p)[0].actions[j];
               && RunningTimes(times, Route(disruptionType, affected), TrainClasses.ClassOf(PrintedProposal(p)[0].trainId).speedKmh, j)
               && var enter := if IsLine(Route(disruptionType, affected)[j]) then base + Sum(times) else base;
                  a.enterAt == FormatTime(enter) && a.exitAt == FormatTime(enter + a.transitMin)
  {
    hide Route, Trains, FormatTime, Slots, RunningTimes;
    var p := PlanFor(affectedTrains, disruptionType, affected, hour, minute, headwaySeconds);
    TrainCount(affectedTrains);
    var ws, asked;
    ws, asked, base := TimesPlaced(affectedTrains, disruptionType, affected, hour, minute, headwaySeconds, j);
    var speed := TrainClasses.ClassOf(PrintedProposal(p)[0].trainId).speedKmh;
    assert AsksFor(asked[0], base, p.route, j, speed, 0, headwaySeconds / 60);
    assert Placed(ws, 0, asked[0], PrintedProposal(p)[0].actions[j].transitMin, headwaySeconds / 60);
    if IsLine(p.route[j]) {
      times :| RunningTimes(times, p.route, speed, j) && asked[0] == base + 0 * Max(headwaySeconds / 60, 3) + Sum(times);
    } else {
      times := SomeRunningTimes(p.route, speed, j, disruptionType, affected);
    }
  }

  lemma SomeRunningTimes(route: seq<Segment>, speedKmh: int, j: nat, disruptionType: string, affected: string)
    returns (times: seq<int>)
    requires route == Route(disruptionType, affected) && j <= |route| && speedKmh >= 1
    ensures RunningTimes(times, route, speedKmh, j)
  {
    hide Route, TakesMinutes;
    RouteFromCorridor(disruptionType, affected);
    SegmentFacts();
    hide CORRIDOR;
    times := TravelBeforeIsSum(route, Train("", speedKmh), j);
  }

  // ---- The platform counter ----

  function NamedPlatforms(actions: seq<Action>): nat {
    if actions == [] then 0
    else NamedPlatforms(actions[..|actions| - 1]) + if actions[|actions| - 1].platform.Some? then 1 else 0
  }

  function AllNamedPlatforms(proposal: Proposal): nat {
    if proposal == [] then 0
    else AllNamedPlatforms(proposal[..|proposal| - 1]) + NamedPlatforms(proposal[|proposal| - 1].actions)
  }

  lemma {:induction false} RowPlatforms(p: Plan, i: nat, j: nat)
    requires i < |p.trains| && j <= |p.route|
    ensures NamedPlatforms(PrintedActions(p, i)[..j]) == PlatformSegments(p.route, j)
  {
    hide Slots, FormatTime, TransitMin, EffectiveSpeed;
    if j > 0 {
      RowPlatforms(p, i, j - 1);
      var row := PrintedActions(p, i);
      assert row[..j][..j - 1] == row[..j - 1];
      assert row[j - 1] == PrintedAction(p, i, j - 1);
    }
  }

  /** The counter of platform reassignments is the number of platforms the proposal names. */
  lemma {:induction false} PlatformsCounted(p: Plan, i: nat)
    requires i <= |p.trains|
    ensures AllNamedPlatforms(PrintedProposal(p)[..i]) == i * PlatformSegments(p.route, |p.route|)
  {
    hide PrintedActions, PlatformSegments, NamedPlatforms;
    if i > 0 {
      PlatformsCounted(p, i - 1);
      RowPlatforms(p, i - 1, |p.route|);
      assert PrintedActions(p, i - 1)[..|p.route|] == PrintedActions(p, i - 1);
      var P := PrintedProposal(p);
      assert P[..i][..i - 1] == P[..i - 1];
      assert i * PlatformSegments(p.route, |p.route|)
          == (i - 1) * PlatformSegments(p.route, |p.route|) + PlatformSegments(p.route, |p.route|);
    }
  }
}
