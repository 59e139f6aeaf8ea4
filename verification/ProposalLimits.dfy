/** What generated timetables cannot do: keep a train on one segment at a time, or fit too many trains into the printed day. */
module ProposalLimits {
  import opened ClockStrings
  import opened Collections
  import opened ConflictChecker
  import opened SlotShifting
  import opened Rescheduling
  import opened ProposalSafety
  import opened ProposalAvailability
  import opened CorridorFacts
  import opened HeadwayGuarantee

  // ---- One train on two segments ----

  /** The windows of train `i` on different segments do not overlap. */
  ghost predicate OneSegmentAtATime(p: Plan, i: nat)
    requires i < |p.trains|
  {
    forall j, l :: 0 <= j < l < |p.route| ==> !Overlaps(Slots(p, j, |p.trains|)[i], Slots(p, l, |p.trains|)[i])
  }

  lemma FirstTrainUnshifted(p: Plan, j: nat)
    requires |p.trains| >= 1 && j < |p.route|
    ensures Slots(p, j, |p.trains|)[0] == Request(p, 0, j)
  {
    hide Resolve, Request;
    ClearUnshifted([], Request(p, 0, j), p.Headway());
    SlotsPrefix(p, j, |p.trains|, 1);
    assert Slots(p, j, 0) == [];
    assert Slots(p, j, 1) == [Request(p, 0, j)];
  }

  /**
   * The train scheduled first is never shifted, and yet it enters the first segment of its route and a station further
   * on in the same minute: whatever the disruption, no timetable keeps that train on one segment at a time.
   */
  lemma FirstTrainInTwoPlaces(affectedTrains: seq<string>, disruptionType: string, affected: string,
                              hour: nat, minute: nat, headwaySeconds: nat)
    ensures var p := PlanFor(affectedTrains, disruptionType, affected, hour, minute, headwaySeconds);
            && |p.trains| >= 1 && |p.route| == 5
            && (forall j :: 0 <= j < 5 ==> Slots(p, j, |p.trains|)[0] == Request(p, 0, j))
            && (exists s :: 1 <= s <= 3 && Slots(p, s, |p.trains|)[0].enter == Slots(p, 0, |p.trains|)[0].enter)
            && !OneSegmentAtATime(p, 0)
  {
    hide Route, Trains, Slots;
    var p := PlanFor(affectedTrains, disruptionType, affected, hour, minute, headwaySeconds);
    TrainCount(affectedTrains);
    var s := StationOnRoute(disruptionType, affected);
    forall j | 0 <= j < 5 ensures Slots(p, j, |p.trains|)[0] == Request(p, 0, j) {
      FirstTrainUnshifted(p, j);
    }
    var a, b := Request(p, 0, 0), Request(p, 0, s);
    assert a.enter == b.enter && Overlaps(a, b);
    assert Slots(p, s, |p.trains|)[0].enter == Slots(p, 0, |p.trains|)[0].enter;
  }

  /** How much later than requested train `i` enters segment `j`. */
  function Delay(p: Plan, i: nat, j: nat): int
    requires i < |p.trains| && j < |p.route|
  {
    Slots(p, j, |p.trains|)[i].enter - Request(p, i, j).enter
  }

  /**
   * On the line a train is on a later segment before it has left an earlier one exactly when it was delayed more on the
   * earlier one by more than the running time between them exceeds its transit: a delay is not carried along.
   */
  lemma LateOnTwoLines(p: Plan, i: nat, j: nat, l: nat)
    requires i < |p.trains| && j < l < |p.route| && IsLine(p.route[j]) && IsLine(p.route[l])
    ensures Slots(p, l, |p.trains|)[i].enter < Slots(p, j, |p.trains|)[i].exit
       <==> Delay(p, i, j) - Delay(p, i, l) > TravelBefore(p.route, p.trains[i], l) - TravelBefore(p.route, p.trains[i], j)
                                              - TransitMin(p.trains[i], p.route[j])
  {
    hide Slots, TransitMin, TravelBefore;
    SlotsSafe(p, j, |p.trains|);
  }

  // ---- Shifts stay on their segment ----

  lemma {:induction false} TravelBeforeByLength(r: seq<Segment>, s: seq<Segment>, train: Train, j: nat)
    requires j <= |r| && j <= |s|
    requires forall k :: 0 <= k < j ==> r[k].endKm - r[k].startKm == s[k].endKm - s[k].startKm
    ensures TravelBefore(r, train, j) == TravelBefore(s, train, j)
  {
    if j > 0 {
      TravelBeforeByLength(r, s, train, j - 1);
    }
  }

  /**
   * What happens on a segment depends on the segments before it through their lengths alone. Speed limits and
   * platforms there, and hence every window, shift and delay there, can be anything.
   */
  lemma {:induction false} ShiftsStayOnTheirSegment(p: Plan, q: Plan, j: nat, i: nat)
    requires q.(route := p.route) == p && j < |p.route| && j < |q.route| && p.route[j] == q.route[j] && i <= |p.trains|
    requires forall k :: 0 <= k < j ==>
               p.route[k].endKm - p.route[k].startKm == q.route[k].endKm - q.route[k].startKm
    ensures Slots(p, j, i) == Slots(q, j, i)
  {
    hide Resolve;
    if i > 0 {
      ShiftsStayOnTheirSegment(p, q, j, i - 1);
      TravelBeforeByLength(p.route, q.route, p.trains[i - 1], j);
      assert Request(p, i - 1, j) == Request(q, i - 1, j);
    }
  }

  // ---- A headway of whole days ----

  /** With a headway of whole days every timetable of two trains is refused, although its windows are disjoint. */
  lemma DayApartRefused(affectedTrains: seq<string>, disruptionType: string, affected: string,
                        hour: nat, minute: nat, headwaySeconds: nat)
    requires minute < 60 && |Trains(affectedTrains)| >= 2
    requires headwaySeconds / 60 >= MINUTES_PER_DAY && headwaySeconds / 60 % MINUTES_PER_DAY == 0
    ensures !ConflictFree(PrintedProposal(
              PlanFor(affectedTrains, disruptionType, affected, hour, minute, headwaySeconds)))
  {
    hide Route, Trains, Slots, WithinFleet, ProperRoute, ConflictFree, PrintedProposal, PrintedOverlap, Request, TransitMin;
    var p := PlanFor(affectedTrains, disruptionType, affected, hour, minute, headwaySeconds);
    var n := |p.trains|;
    GeneratedWithinFleet(affectedTrains, disruptionType, affected, hour, minute, headwaySeconds);
    var s := StationOnRoute(disruptionType, affected);
    var a, b := Request(p, 0, 0), Request(p, 1, 0);
    FirstRequests(p);
    FirstTrainUnshifted(p, 0);
    SecondUnshifted(p);
    PrintedOverlapIsModular(a, b);
    ModularDay(a, b, headwaySeconds / 60);
    assert PrintedOverlap(Slots(p, 0, n)[0], Slots(p, 0, n)[1]);
    RouteIsProper(disruptionType, affected);
    AcceptedExactly(p);
  }

  lemma FirstRequests(p: Plan)
    requires WithinFleet(p) && |p.trains| >= 2 && |p.route| >= 1 && IsLine(p.route[0]) && p.baseHour <= 22
    requires p.Headway() >= 3
    ensures var a, b := Request(p, 0, 0), Request(p, 1, 0);
            && 0 <= a.enter < a.exit <= a.enter + 18 && a.exit < MINUTES_PER_DAY
            && b.enter == a.enter + p.Headway() && b.enter < b.exit <= b.enter + 18
            && a.enter <= 1370
  {
    hide TransitMin;
    RequestBound(p, 0, 0);
    RequestBound(p, 1, 0);
  }

  lemma SecondUnshifted(p: Plan)
    requires |p.trains| >= 2 && |p.route| >= 1 && !Overlaps(Request(p, 1, 0), Request(p, 0, 0))
    ensures Slots(p, 0, |p.trains|)[1] == Request(p, 1, 0)
  {
    hide Resolve, Request;
    var a, b := Request(p, 0, 0), Request(p, 1, 0);
    ClearUnshifted([], a, p.Headway());
    ClearUnshifted([a], b, p.Headway());
    SlotsPrefix(p, 0, |p.trains|, 2);
    assert Slots(p, 0, 0) == [];
    assert Slots(p, 0, 1) == [a];
    assert Slots(p, 0, 2) == [a, b];
  }

  lemma ModularDay(a: Window, b: Window, days: nat)
    requires 0 <= a.enter < a.exit <= a.enter + 18 && a.enter <= 1370
    requires b.enter == a.enter + days && b.enter < b.exit <= b.enter + 18 && days % MINUTES_PER_DAY == 0
    ensures Max(a.enter % MINUTES_PER_DAY, b.enter % MINUTES_PER_DAY) < Min(a.exit % MINUTES_PER_DAY, b.exit % MINUTES_PER_DAY)
  {
  }

  // ---- Too many trains for one printed day ----

  function Range(a: int, n: nat): (r: set<int>)
    ensures |r| == n && forall k :: k in r <==> a <= k < a + n
  {
    if n == 0 then {} else Range(a, n - 1) + {a + n - 1}
  }

  /**
   * Where a window goes in what one printed day can hold: by its first minute, or, if midnight falls inside it,
   * after the last minute, since the constraint layer never reports it. It takes `size` places from there.
   */
  function Place(w: Window, size: nat): (at: int) {
    if Wraps(w) then MINUTES_PER_DAY + (w.exit / MINUTES_PER_DAY - 1) * size
    else w.enter % MINUTES_PER_DAY
  }

  function Share(w: Window, size: nat): (s: set<int>)
    ensures |s| == size
  {
    Range(Place(w, size), size)
  }

  function Shares(s: seq<Window>, size: nat): (r: set<int>) {
    if s == [] then {} else Shares(s[..|s| - 1], size) + Share(s[|s| - 1], size)
  }

  predicate Proper(w: Window, size: nat, days: nat) {
    0 <= w.enter && size <= w.exit - w.enter < MINUTES_PER_DAY && w.exit / MINUTES_PER_DAY <= days
  }

  /** The day a window ends on, and its first and last minute within the day. */
  lemma WindowParts(w: Window)
    requires 0 <= w.enter < w.exit < w.enter + MINUTES_PER_DAY
    ensures w.exit / MINUTES_PER_DAY >= if Wraps(w) then 1 else 0
    ensures 0 <= w.enter % MINUTES_PER_DAY && w.exit % MINUTES_PER_DAY < MINUTES_PER_DAY
    ensures !Wraps(w) ==> w.exit % MINUTES_PER_DAY - w.enter % MINUTES_PER_DAY == w.exit - w.enter
    ensures Wraps(w) ==> w.enter < w.exit / MINUTES_PER_DAY * MINUTES_PER_DAY <= w.exit
  {
  }

  lemma NightPlace(day: int, days: nat, size: nat)
    requires 1 <= day <= days
    ensures 0 <= (day - 1) * size && (day - 1) * size + size <= size * days
  {
    TimesMonotone(size, 1, day);
    TimesMonotone(size, day, days);
    assert (day - 1) * size + size == size * day;
  }

  lemma DifferentNights(d: int, e: int, size: nat)
    requires d < e
    ensures (d - 1) * size + size <= (e - 1) * size
  {
    TimesMonotone(size, d, e - 1);
    assert (d - 1) * size + size == d * size;
  }

  lemma PlaceWithin(w: Window, size: nat, days: nat)
    requires Proper(w, size, days) && size >= 1
    ensures 0 <= Place(w, size) && Place(w, size) + size <= MINUTES_PER_DAY + size * days
    ensures if Wraps(w) then Place(w, size) >= MINUTES_PER_DAY else Place(w, size) + size <= MINUTES_PER_DAY
  {
    WindowParts(w);
    hide Wraps;
    TimesMonotone(days, 0, size);
    if Wraps(w) {
      NightPlace(w.exit / MINUTES_PER_DAY, days, size);
    }
  }

  /** Windows that neither overlap nor look as if they did take different places. */
  lemma PlacesApart(a: Window, b: Window, size: nat, days: nat)
    requires Proper(a, size, days) && Proper(b, size, days) && !Overlaps(a, b) && !PrintedOverlap(a, b)
    requires size >= 1
    ensures Place(a, size) + size <= Place(b, size) || Place(b, size) + size <= Place(a, size)
  {
    hide PrintedOverlap;
    PlaceWithin(a, size, days);
    PlaceWithin(b, size, days);
    if Wraps(a) && Wraps(b) {
      NightsDiffer(a, b);
      hide Wraps;
      var d, e := a.exit / MINUTES_PER_DAY, b.exit / MINUTES_PER_DAY;
      if d < e {
        DifferentNights(d, e, size);
      } else {
        DifferentNights(e, d, size);
      }
    } else if !Wraps(a) && !Wraps(b) {
      PrintedOverlapIsModular(a, b);
      WindowParts(a);
      WindowParts(b);
      hide Wraps;
    }
  }

  lemma NightsDiffer(a: Window, b: Window)
    requires 0 <= a.enter < a.exit < a.enter + MINUTES_PER_DAY && 0 <= b.enter < b.exit < b.enter + MINUTES_PER_DAY
    requires Wraps(a) && Wraps(b) && !Overlaps(a, b)
    ensures a.exit / MINUTES_PER_DAY != b.exit / MINUTES_PER_DAY
  {
    WindowParts(a);
    WindowParts(b);
  }

  lemma {:induction false} SharesMembers(s: seq<Window>, size: nat, k: int)
    requires k in Shares(s, size)
    ensures exists i :: 0 <= i < |s| && k in Share(s[i], size)
  {
    hide Share;
    var n := |s| - 1;
    if k in Shares(s[..n], size) {
      SharesMembers(s[..n], size, k);
      var i :| 0 <= i < n && k in Share(s[..n][i], size);
      assert s[..n][i] == s[i];
    }
  }

  lemma SharesDisjoint(front: seq<Window>, last: Window, size: nat, days: nat)
    requires size >= 1 && Proper(last, size, days) && AllProper(front, size, days)
    requires forall i :: 0 <= i < |front| ==> !Overlaps(front[i], last) && !PrintedOverlap(front[i], last)
    ensures Shares(front, size) !! Share(last, size)
  {
    hide Place, Overlaps, PrintedOverlap, Proper, Shares;
    forall k | k in Shares(front, size) ensures k !in Share(last, size) {
      SharesMembers(front, size, k);
      var i :| 0 <= i < |front| && k in Share(front[i], size);
      PlacesApart(front[i], last, size, days);
    }
  }

  ghost predicate Disjoint(s: seq<Window>) {
    forall i, k :: 0 <= i < k < |s| ==> !Overlaps(s[i], s[k]) && !PrintedOverlap(s[i], s[k])
  }

  lemma {:induction false} SharesCount(s: seq<Window>, size: nat, days: nat)
    requires size >= 1 && Disjoint(s) && AllProper(s, size, days)
    ensures Shares(s, size) <= Range(0, Places(size, days)) && |Shares(s, size)| == Multiple(|s|, size)
  {
    hide Share, Range, Disjoint, AllProper, Places;
    if s != [] {
      var n := |s| - 1;
      var front, last := s[..n], s[n];
      DisjointFront(s, size, days);
      SharesCount(front, size, days);
      ShareWithin(last, size, days);
      SharesDisjoint(front, last, size, days);
      UnionSize(Shares(front, size), Share(last, size));
    }
  }

  function Multiple(n: nat, size: nat): (m: nat)
    ensures m == n * size
  {
    if n == 0 then 0 else Multiple(n - 1, size) + size
  }

  /** The minutes of the day and the unseen windows of its nights. */
  function Places(size: nat, days: nat): nat {
    MINUTES_PER_DAY + size * days
  }

  ghost predicate AllProper(s: seq<Window>, size: nat, days: nat) {
    forall i :: 0 <= i < |s| ==> Proper(s[i], size, days)
  }

  lemma DisjointFront(s: seq<Window>, size: nat, days: nat)
    requires s != [] && Disjoint(s) && AllProper(s, size, days)
    ensures var front, last := s[..|s| - 1], s[|s| - 1];
            && Disjoint(front) && AllProper(front, size, days) && Proper(last, size, days)
            && forall i :: 0 <= i < |front| ==> !Overlaps(front[i], last) && !PrintedOverlap(front[i], last)
  {
    hide Overlaps, PrintedOverlap, Proper;
  }

  lemma ShareWithin(w: Window, size: nat, days: nat)
    requires Proper(w, size, days) && size >= 1
    ensures Share(w, size) <= Range(0, Places(size, days))
  {
    hide Place;
    PlaceWithin(w, size, days);
  }

  lemma UnionSize(a: set<int>, b: set<int>)
    requires a !! b
    ensures |a + b| == |a| + |b|
  {
  }

  lemma SubsetSize(a: set<int>, b: set<int>)
    requires a <= b
    ensures |a| <= |b|
  {
    assert b == a + (b - a) && a !! (b - a);
  }

  /** A printed day holds 1440 minutes, plus one unseen window for every midnight before the last train is off. */
  lemma DayIsFull(p: Plan, size: nat)
    requires ProperRoute(p.route) && WithinFleet(p) && |p.route| >= 1
    requires 1 <= size && forall i :: 0 <= i < |p.trains| ==> TransitMin(p.trains[i], p.route[0]) >= size
    requires ConflictFree(PrintedProposal(p))
    ensures |p.trains| * size <= MINUTES_PER_DAY + size * (Horizon(p, |p.trains|) / MINUTES_PER_DAY)
  {
    hide Slots, WithinFleet, ProperRoute, ConflictFree, PrintedProposal, PrintedOverlap, Overlaps, TransitMin, Request;
    var n := |p.trains|;
    var s, days := Slots(p, 0, n), Horizon(p, n) / MINUTES_PER_DAY;
    AcceptedExactly(p);
    SlotsSafe(p, 0, n);
    SlotsBeforeHorizon(p, 0, n);
    assert Horizon(p, n) >= 0;
    forall i | 0 <= i < n ensures Proper(s[i], size, days) {
      RequestAfterBase(p, i, 0);
      RequestBound(p, i, 0);
      RequestLength(p, i, 0);
      assert s[i] in s;
      DayMonotone(s[i].exit, Horizon(p, n));
    }
    assert Disjoint(s);
    SharesCount(s, size, days);
    SubsetSize(Shares(s, size), Range(0, Places(size, days)));
  }

  lemma DayMonotone(a: int, b: int)
    requires a <= b
    ensures a / MINUTES_PER_DAY <= b / MINUTES_PER_DAY
  {
  }

  /** How long every train of the fleet at least takes over the first segment of the route. */
  function ShortestFirst(disruptionType: string, affected: string): nat {
    if disruptionType == "blocked_segment" && affected == "seg-ndls-anvt" then 7 else 10
  }

  lemma FirstTransit(disruptionType: string, affected: string, train: Train)
    requires train.speedKmh >= 60
    ensures var r := Route(disruptionType, affected);
            |r| == 5 && TransitMin(train, r[0]) >= ShortestFirst(disruptionType, affected)
  {
    var r := Route(disruptionType, affected);
    assert |r| == 5 && r[0] == FirstSegment(disruptionType, affected) by {
      FirstOfRoute(disruptionType, affected);
    }
    hide Route;
    var first := r[0];
    var v, km := EffectiveSpeed(train, first), first.endKm - first.startKm;
    QuotientAtLeast(ShortestFirst(disruptionType, affected), v, first.maxSpeedKmh, km * 60);
  }

  function FirstSegment(disruptionType: string, affected: string): Segment {
    if disruptionType == "blocked_segment" && affected == "seg-ndls-anvt" then Segment("seg-anvt-gzb", 14, 27, 110, 0)
    else Segment("seg-ndls-anvt", 0, 14, 80, 6)
  }

  lemma FirstOfRoute(disruptionType: string, affected: string)
    ensures |Route(disruptionType, affected)| == 5
    ensures Route(disruptionType, affected)[0] == FirstSegment(disruptionType, affected)
  {
    CorridorStart();
    hide CORRIDOR, Unskipped;
    var k := RouteShape(disruptionType, affected);
    assert Route(disruptionType, affected)[0] == if k == 0 then CORRIDOR[1] else CORRIDOR[0];
  }

  /**
   * The bracket to `ProposalAlwaysFound`: with T trains, a headway of h minutes and at least m minutes on the first
   * segment no timetable is accepted once T * m * (1422 - max(h, 3)) exceeds 1440 * 1440 + 1460 * m.
   */
  lemma TooManyTrains(affectedTrains: seq<string>, disruptionType: string, affected: string,
                      hour: nat, minute: nat, headwaySeconds: nat)
    requires minute < 60
    requires var m := ShortestFirst(disruptionType, affected);
             m * (|Trains(affectedTrains)| * (1422 - Max(headwaySeconds / 60, 3))) > 1440 * 1440 + 1460 * m
    ensures !ConflictFree(PrintedProposal(
              PlanFor(affectedTrains, disruptionType, affected, hour, minute, headwaySeconds)))
  {
    hide Route, Trains, ConflictFree, PrintedProposal, WithinFleet, ProperRoute, TransitMin, ShortestFirst;
    var p := PlanFor(affectedTrains, disruptionType, affected, hour, minute, headwaySeconds);
    var n, m, h := |p.trains|, ShortestFirst(disruptionType, affected), Max(headwaySeconds / 60, 3);
    GeneratedWithinFleet(affectedTrains, disruptionType, affected, hour, minute, headwaySeconds);
    RouteIsProper(disruptionType, affected);
    FirstOfRoute(disruptionType, affected);
    forall i | 0 <= i < n ensures TransitMin(p.trains[i], p.route[0]) >= m {
      SpeedRange(affectedTrains, i);
      FirstTransit(disruptionType, affected, p.trains[i]);
    }
    assert m == 7 || m == 10 by { ShortestValues(disruptionType, affected); }
    assert n * (1422 - h) == 1440 * n - n * (18 + h);
    assert Horizon(p, n) <= 1460 + n * (18 + h);
    if ConflictFree(PrintedProposal(p)) {
      DayIsFull(p, m);
      assert false;
    }
  }

  lemma ShortestValues(disruptionType: string, affected: string)
    ensures ShortestFirst(disruptionType, affected) == 7 || ShortestFirst(disruptionType, affected) == 10
  {
  }

  /** Under the default headway 210 trains are always refused, and 148 unless the first segment is the one blocked. */
  lemma DefaultHeadwayRefused(affectedTrains: seq<string>, disruptionType: string, affected: string,
                              hour: nat, minute: nat)
    requires minute < 60
    requires |affectedTrains| >= if disruptionType == "blocked_segment" && affected == "seg-ndls-anvt" then 210 else 148
    ensures !ConflictFree(PrintedProposal(PlanFor(affectedTrains, disruptionType, affected, hour, minute, 180)))
  {
    hide PlanFor, ConflictFree, PrintedProposal, Trains;
    TrainCount(affectedTrains);
    TooManyTrains(affectedTrains, disruptionType, affected, hour, minute, 180);
  }
}
