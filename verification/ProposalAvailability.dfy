/** How many trains a request may name before the independent checker can refuse the timetable. */
module ProposalAvailability {
  import opened ConflictChecker
  import opened SlotShifting
  import opened Rescheduling
  import opened ProposalSafety
  import TrainClasses

  /** The longest any train of the fleet needs for any section of the corridor. */
  const LONGEST_TRANSIT := 18

  ghost predicate WithinFleet(p: Plan) {
    && |p.route| <= 5 && p.baseMinute <= 50
    && (forall s :: s in p.route ==> 0 <= s.endKm - s.startKm <= 18 && s.maxSpeedKmh >= 80)
    && (forall t :: t in p.trains ==> t.speedKmh >= 60)
  }

  lemma TravelBound(km: int, speedKmh: int)
    requires 0 <= km <= 18 && speedKmh >= 60
    ensures 1 <= Travel(km, speedKmh) <= LONGEST_TRANSIT
  {
    var minutes := km * 60 / speedKmh;
    assert minutes * speedKmh <= km * 60;
    if minutes > 18 {
      TimesAtLeast(minutes, speedKmh);
    }
  }

  lemma TimesAtLeast(a: int, b: int)
    requires a >= 19 && b >= 60
    ensures a * b >= 19 * 60
  {
    assert a * b >= 19 * b;
  }

  lemma {:induction false} TravelBeforeBound(p: Plan, i: nat, j: nat)
    requires WithinFleet(p) && i < |p.trains| && j <= |p.route|
    ensures 0 <= TravelBefore(p.route, p.trains[i], j) <= j * LONGEST_TRANSIT
  {
    hide Travel;
    if j > 0 {
      TravelBeforeBound(p, i, j - 1);
      assert p.route[j - 1] in p.route && p.trains[i] in p.trains;
      TravelBound(p.route[j - 1].endKm - p.route[j - 1].startKm, p.trains[i].speedKmh);
    }
  }

  /** Every request is short and not far from the base time. */
  lemma RequestBound(p: Plan, i: nat, j: nat)
    requires WithinFleet(p) && i < |p.trains| && j < |p.route|
    ensures var w := Request(p, i, j);
            && w.exit - w.enter <= LONGEST_TRANSIT
            && w.enter <= p.baseHour * 60 + 50 + 4 * LONGEST_TRANSIT + i * (LONGEST_TRANSIT + Max(p.Headway(), 3))
  {
    hide Travel;
    var seg, train := p.route[j], p.trains[i];
    assert seg in p.route && train in p.trains;
    TravelBeforeBound(p, i, j);
    TravelBound(seg.endKm - seg.startKm, EffectiveSpeed(train, seg));
    var h := Max(p.Headway(), 3);
    assert i * (LONGEST_TRANSIT + h) == i * LONGEST_TRANSIT + i * h;
    assert i * h >= 0;
  }

  /** A window is never pushed further than the headway past the last exit on the segment. */
  lemma {:induction false} ResolveLatest(occupied: seq<Window>, w: Window, headway: nat, last: int)
    requires forall o :: o in occupied ==> o.exit <= last
    ensures Resolve(occupied, w, headway).window.enter <= Max(w.enter, last + headway)
    decreases Ahead(occupied, w.enter)
  {
    hide BlockingExit, Ahead;
    var b := BlockingExit(occupied, w);
    if b.Some? {
      var o := Blocker(occupied, w);
      ShiftMakesProgress(occupied, w, headway);
      ResolveLatest(occupied, Shifted(w, b.value + headway), headway, last);
    }
  }

  /** The latest minute at which any of the first `i` trains can leave a segment. */
  function Horizon(p: Plan, i: nat): int {
    p.baseHour * 60 + 140 + i * (LONGEST_TRANSIT + Max(p.Headway(), 3))
  }

  lemma NextHorizon(p: Plan, i: nat)
    requires i >= 1
    ensures Horizon(p, i) == Horizon(p, i - 1) + LONGEST_TRANSIT + Max(p.Headway(), 3)
  {
  }

  lemma {:induction false} SlotsBeforeHorizon(p: Plan, j: nat, i: nat)
    requires WithinFleet(p) && i <= |p.trains| && j < |p.route|
    ensures forall w :: w in Slots(p, j, i) ==> w.exit <= Horizon(p, i)
  {
    hide Resolve, Request, WithinFleet;
    if i > 0 {
      var before, request := Slots(p, j, i - 1), Request(p, i - 1, j);
      SlotsBeforeHorizon(p, j, i - 1);
      RequestBound(p, i - 1, j);
      ResolveLatest(before, request, p.Headway(), Horizon(p, i - 1));
      ResolveSafe(before, request, p.Headway());
      NextHorizon(p, i);
    }
  }

  lemma FleetFacts()
    ensures forall s :: s in CORRIDOR ==> 0 <= s.endKm - s.startKm <= 18 && s.maxSpeedKmh >= 80
    ensures forall c :: c in TrainClasses.CLASSES ==> c.speedKmh >= 60
  {
  }

  lemma GeneratedWithinFleet(affectedTrains: seq<string>, disruptionType: string, affected: string,
                             hour: nat, minute: nat, headwaySeconds: nat)
    requires minute < 60
    ensures WithinFleet(PlanFor(affectedTrains, disruptionType, affected, hour, minute, headwaySeconds))
  {
    FleetFacts();
    hide CORRIDOR, TrainClasses.CLASSES;
    forall s | s in Route(disruptionType, affected) ensures s in CORRIDOR {
      assert s in Unskipped(CORRIDOR, disruptionType, affected);
    }
    forall t | t in Trains(affectedTrains) ensures t.speedKmh >= 60 {
      assert exists id :: t == Train(id, TrainClasses.ClassOf(id).speedKmh) by {
        var order := TrainClasses.SchedulingOrder(affectedTrains);
        var i :| 0 <= i < |order| && t == Train(order[i], TrainClasses.ClassOf(order[i]).speedKmh);
      }
    }
  }

  /**
   * With T trains and a headway of h minutes the generator always delivers a proposal if T * (18 + max(h, 3)) is at
   * most 1300: with the default three minutes, for up to 61 trains, whatever the disruption and the time of day.
   */
  lemma ProposalAlwaysFound(affectedTrains: seq<string>, disruptionType: string, affected: string,
                            hour: nat, minute: nat, headwaySeconds: nat)
    requires minute < 60
    requires |Trains(affectedTrains)| * (LONGEST_TRANSIT + Max(headwaySeconds / 60, 3)) <= 1300
    ensures ConflictFree(PrintedProposal(
              PlanFor(affectedTrains, disruptionType, affected, hour, minute, headwaySeconds)))
  {
    hide Route, Trains, ConflictFree, PrintedProposal, Slots, WithinFleet, ProperRoute;
    var p := PlanFor(affectedTrains, disruptionType, affected, hour, minute, headwaySeconds);
    GeneratedWithinFleet(affectedTrains, disruptionType, affected, hour, minute, headwaySeconds);
    RouteIsProper(disruptionType, affected);
    forall i, j | 0 <= i < |p.trains| && 0 <= j < |p.route|
      ensures Slots(p, j, |p.trains|)[i].exit <= p.baseHour * 60 + 1440
    {
      SlotsBeforeHorizon(p, j, |p.trains|);
      assert Slots(p, j, |p.trains|)[i] in Slots(p, j, |p.trains|);
    }
    GeneratedAccepted(p);
  }
}
