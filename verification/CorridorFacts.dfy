/** What every route and every scheduling order have in common, whatever the disruption. */
module CorridorFacts {
  import opened Collections
  import opened ConflictChecker
  import opened Rescheduling
  import opened StableSorting
  import TrainClasses

  /** An open-line segment; the others are stations of no length. */
  predicate IsLine(seg: Segment) {
    seg.endKm - seg.startKm > 0
  }

  // ---- Routes ----

  lemma {:induction false} NoneSkipped(segments: seq<Segment>, disruptionType: string, affected: string)
    requires forall s :: s in segments ==> !Skipped(s, disruptionType, affected)
    ensures Unskipped(segments, disruptionType, affected) == segments
  {
    hide Skipped;
    if segments != [] {
      var n := |segments| - 1;
      assert segments == segments[..n] + [segments[n]];
      NoneSkipped(segments[..n], disruptionType, affected);
    }
  }

  lemma {:induction false} OneSkipped(segments: seq<Segment>, disruptionType: string, affected: string, k: nat)
    requires k < |segments| && Skipped(segments[k], disruptionType, affected)
    requires forall i :: 0 <= i < |segments| && i != k ==> !Skipped(segments[i], disruptionType, affected)
    ensures Unskipped(segments, disruptionType, affected) == Without(segments, k)
  {
    hide Skipped, Unskipped, Without;
    var n := |segments| - 1;
    UnskippedLast(segments, disruptionType, affected);
    if k == n {
      NoneSkipped(segments[..n], disruptionType, affected);
    } else {
      OneSkipped(segments[..n], disruptionType, affected, k);
    }
    WithoutFront(segments, k);
  }

  lemma WithoutFront<T>(s: seq<T>, k: nat)
    requires k < |s|
    ensures Without(s, k) == if k == |s| - 1 then s[..k] else Without(s[..|s| - 1], k) + [s[|s| - 1]]
  {
  }

  lemma UnskippedLast(segments: seq<Segment>, disruptionType: string, affected: string)
    requires segments != []
    ensures Unskipped(segments, disruptionType, affected)
         == Unskipped(segments[..|segments| - 1], disruptionType, affected)
          + if Skipped(segments[|segments| - 1], disruptionType, affected) then [] else [segments[|segments| - 1]]
  {
  }

  lemma OnlyOneSkipped(segments: seq<Segment>, disruptionType: string, affected: string, k: nat)
    requires DistinctIds(segments) && k < |segments| && Skipped(segments[k], disruptionType, affected)
    ensures forall i :: 0 <= i < |segments| && i != k ==> !Skipped(segments[i], disruptionType, affected)
  {
    forall i | 0 <= i < |segments| && i != k ensures !Skipped(segments[i], disruptionType, affected) {
      assert segments[i].id != segments[k].id;
    }
  }

  /** The first five segments of the corridor, or of what is left of the first six without one of the first five. */
  lemma RouteShape(disruptionType: string, affected: string) returns (k: nat)
    ensures k <= 5 && Route(disruptionType, affected) == CORRIDOR[..k] + CORRIDOR[k + 1..6]
    ensures k < 5 ==> Skipped(CORRIDOR[k], disruptionType, affected)
    ensures k == 5 ==> forall i :: 0 <= i < 5 ==> !Skipped(CORRIDOR[i], disruptionType, affected)
    ensures k == 0 <==> Skipped(CORRIDOR[0], disruptionType, affected)
  {
    CorridorIdsDistinct();
    hide CORRIDOR, Skipped, Unskipped, DistinctIds;
    assert |CORRIDOR| == 9 by { CorridorLength(); }
    if k: nat :| k < |CORRIDOR| && Skipped(CORRIDOR[k], disruptionType, affected) {
      OnlyOneSkipped(CORRIDOR, disruptionType, affected, k);
      OneSkipped(CORRIDOR, disruptionType, affected, k);
      if k < 5 {
        assert Without(CORRIDOR, k)[..5] == CORRIDOR[..k] + CORRIDOR[k + 1..6];
        return k;
      }
      assert Without(CORRIDOR, k)[..5] == CORRIDOR[..5] + CORRIDOR[6..6];
    } else {
      NoneSkipped(CORRIDOR, disruptionType, affected);
      assert CORRIDOR[..5] == CORRIDOR[..5] + CORRIDOR[6..6];
    }
    return 5;
  }

  /** A blocked segment among the first five is left out and the sixth takes the last place; else the first five it is. */
  lemma RouteExactly(disruptionType: string, affected: string)
    ensures var r := Route(disruptionType, affected);
            && (forall k :: 0 <= k < 5 && disruptionType == "blocked_segment" && affected == CORRIDOR[k].id
                  ==> r == CORRIDOR[..k] + CORRIDOR[k + 1..6])
            && ((disruptionType == "blocked_segment" ==> forall k :: 0 <= k < 5 ==> affected != CORRIDOR[k].id)
                  ==> r == CORRIDOR[..5])
  {
    CorridorIdsDistinct();
    CorridorLength();
    hide CORRIDOR, Route;
    var k := RouteShape(disruptionType, affected);
    assert k == 5 ==> Route(disruptionType, affected) == CORRIDOR[..5];
    assert forall i :: 0 <= i < 5 && k < 5 && CORRIDOR[i].id == CORRIDOR[k].id ==> i == k;
  }

  lemma CorridorLength()
    ensures |CORRIDOR| == 9
  {
  }

  /** Every route has five segments, starts on the line, and soon passes a station. */
  lemma StationOnRoute(disruptionType: string, affected: string) returns (s: nat)
    ensures |Route(disruptionType, affected)| == 5
    ensures IsLine(Route(disruptionType, affected)[0])
    ensures 1 <= s <= 3 && !IsLine(Route(disruptionType, affected)[s])
  {
    hide Route;
    var k := RouteShape(disruptionType, affected);
    s := if k < 2 then 1 else if k == 2 then 3 else 2;
  }

  lemma SegmentFacts()
    ensures forall s :: s in CORRIDOR && IsLine(s) ==>
              && s.endKm - s.startKm in {11, 13, 14, 16, 18}
              && 1 <= s.maxSpeedKmh <= 12 * (s.endKm - s.startKm)
    ensures forall s :: s in CORRIDOR && !IsLine(s) ==> s.endKm == s.startKm
  {
  }

  ghost predicate FromCorridor(route: seq<Segment>) {
    forall s :: s in route ==> s in CORRIDOR
  }

  lemma RouteFromCorridor(disruptionType: string, affected: string)
    ensures FromCorridor(Route(disruptionType, affected))
  {
    hide CORRIDOR;
    forall s | s in Route(disruptionType, affected) ensures s in CORRIDOR {
      assert s in Unskipped(CORRIDOR, disruptionType, affected);
    }
  }

  // ---- Speeds ----

  /** The only trains faster than one scheduled before them are at 160 km/h behind one at 130 km/h. */
  predicate SpeedsInOrder(earlier: int, later: int) {
    60 <= later <= 160 && 60 <= earlier && (later <= earlier || (earlier == 130 && later == 160))
  }

  lemma ClassFigures()
    ensures forall c :: c in TrainClasses.CLASSES ==> ClassFigure(c.priority, c.speedKmh)
  {
  }

  /** A priority and a speed that some class of the fleet combines. */
  predicate ClassFigure(priority: int, speedKmh: int) {
    match priority
    case 1 => speedKmh == 130 || speedKmh == 160
    case 2 => speedKmh == 120
    case 3 => speedKmh == 110
    case 4 => speedKmh == 100
    case 5 => speedKmh == 80
    case 6 => speedKmh == 60
    case _ => false
  }

  lemma FiguresInOrder(priority: int, speedKmh: int, otherPriority: int, otherSpeedKmh: int)
    requires ClassFigure(priority, speedKmh) && ClassFigure(otherPriority, otherSpeedKmh) && priority <= otherPriority
    ensures SpeedsInOrder(speedKmh, otherSpeedKmh)
  {
  }

  lemma FleetInOrder(affectedTrains: seq<string>, k: nat, i: nat)
    requires k < i < |Trains(affectedTrains)|
    ensures SpeedsInOrder(Trains(affectedTrains)[k].speedKmh, Trains(affectedTrains)[i].speedKmh)
  {
    ClassFigures();
    hide SortDescending, TrainClasses.ClassOf, TrainClasses.CLASSES, SpeedsInOrder, ClassFigure;
    SortedDescending(if affectedTrains == [] then ["TRAIN-0", "TRAIN-1", "TRAIN-2"] else affectedTrains,
                     TrainClasses.Urgency);
    var order := TrainClasses.SchedulingOrder(affectedTrains);
    assert TrainClasses.Urgency(order[k]) >= TrainClasses.Urgency(order[i]);
    var c, d := TrainClasses.ClassOf(order[k]), TrainClasses.ClassOf(order[i]);
    FiguresInOrder(c.priority, c.speedKmh, d.priority, d.speedKmh);
  }

  lemma SpeedRange(affectedTrains: seq<string>, i: nat)
    requires i < |Trains(affectedTrains)|
    ensures 60 <= Trains(affectedTrains)[i].speedKmh <= 160
  {
    ClassFigures();
    hide TrainClasses.ClassOf, TrainClasses.CLASSES, SortDescending;
    var c := TrainClasses.ClassOf(TrainClasses.SchedulingOrder(affectedTrains)[i]);
    assert ClassFigure(c.priority, c.speedKmh);
  }

  /** An event without trains stands for three placeholders. */
  lemma TrainCount(affectedTrains: seq<string>)
    ensures |Trains(affectedTrains)| == if affectedTrains == [] then 3 else |affectedTrains|
  {
    hide SortDescending;
    var items := if affectedTrains == [] then ["TRAIN-0", "TRAIN-1", "TRAIN-2"] else affectedTrains;
    SortPermutes(items, TrainClasses.Urgency);
    var order := TrainClasses.SchedulingOrder(affectedTrains);
    assert |order| == |multiset(order)| == |multiset(items)| == |items|;
  }

  // ---- Running times ----

  lemma TravelSlower(km: nat, slow: int, fast: int)
    requires 1 <= slow <= fast
    ensures Travel(km, slow) >= Travel(km, fast)
  {
    var q := km * 60 / fast;
    assert q >= 0 && q * fast <= km * 60;
    QuotientAtLeast(q, slow, fast, km * 60);
  }

  lemma QuotientAtLeast(q: nat, slow: int, fast: int, n: nat)
    requires 1 <= slow <= fast && q * fast <= n
    ensures n / slow >= q
  {
    TimesMonotone(q, slow, fast);
    if n / slow + 1 <= q {
      TimesMonotone(slow, n / slow + 1, q);
      assert false;
    }
  }

  lemma TimesMonotone(a: nat, b: int, c: int)
    requires b <= c
    ensures a * b <= a * c && b * a <= c * a
  {
    assert a * c - a * b == a * (c - b) >= 0;
  }

  /** No train clears an open-line segment in less than five minutes. */
  lemma LineTransit(seg: Segment, train: Train)
    requires seg in CORRIDOR && IsLine(seg) && train.speedKmh >= 60
    ensures TransitMin(train, seg) >= 5
  {
    SegmentFacts();
    hide CORRIDOR;
    var km := seg.endKm - seg.startKm;
    QuotientAtLeast(5, EffectiveSpeed(train, seg), 12 * km, km * 60);
  }

  function Lines(route: seq<Segment>, j: nat): (n: nat)
    requires j <= |route|
    ensures n <= j
  {
    if j == 0 then 0 else Lines(route, j - 1) + if IsLine(route[j - 1]) then 1 else 0
  }

  lemma TravelCloseBehind(km: int, earlier: int, later: int)
    requires km in {0, 11, 13, 14, 16, 18} && SpeedsInOrder(earlier, later)
    ensures Travel(km, later) >= Travel(km, earlier) - if km == 0 || later <= earlier then 0 else 2
  {
    if later <= earlier {
      TravelSlower(km, later, earlier);
    }
  }

  lemma {:induction false} TravelBeforeCloseBehind(route: seq<Segment>, earlier: Train, later: Train, j: nat)
    requires j <= |route| && FromCorridor(route) && SpeedsInOrder(earlier.speedKmh, later.speedKmh)
    ensures TravelBefore(route, later, j) >= TravelBefore(route, earlier, j) - 2 * Lines(route, j)
  {
    if j > 0 {
      hide Travel, SpeedsInOrder, FromCorridor;
      TravelBeforeCloseBehind(route, earlier, later, j - 1);
      SegmentLength(route, j - 1);
      TravelCloseBehind(route[j - 1].endKm - route[j - 1].startKm, earlier.speedKmh, later.speedKmh);
    }
  }

  lemma SegmentLength(route: seq<Segment>, j: nat)
    requires FromCorridor(route) && j < |route|
    ensures var km := route[j].endKm - route[j].startKm;
            km in {0, 11, 13, 14, 16, 18} && (km == 0 <==> !IsLine(route[j]))
  {
    SegmentFacts();
    hide CORRIDOR;
    assert route[j] in route;
  }

  /** Requests on a line come so far in scheduling order that none ends before an earlier one begins. */
  lemma RequestsInOrder(p: Plan, disruptionType: string, affected: string, affectedTrains: seq<string>,
                        j: nat, k: nat, i: nat)
    requires p.route == Route(disruptionType, affected) && p.trains == Trains(affectedTrains)
    requires k < i < |p.trains| && j < |p.route| && IsLine(p.route[j])
    ensures Request(p, k, j).enter < Request(p, i, j).exit
  {
    hide Route, Trains, TravelBefore, Lines, SpeedsInOrder, CORRIDOR, TransitMin;
    FleetInOrder(affectedTrains, k, i);
    RouteFromCorridor(disruptionType, affected);
    TravelBeforeCloseBehind(p.route, p.trains[k], p.trains[i], j);
    FewLines(disruptionType, affected, j);
    assert p.route[j] in p.route;
    SpeedRange(affectedTrains, i);
    LineTransit(p.route[j], p.trains[i]);
    assert i * Max(p.Headway(), 3) >= k * Max(p.Headway(), 3) + 3 by {
      NextMultiple(k, i, Max(p.Headway(), 3));
    }
  }

  lemma NextMultiple(k: nat, i: nat, m: nat)
    requires k < i
    ensures i * m >= k * m + m
  {
    assert i * m == k * m + (i - k) * m;
    assert (i - k - 1) * m >= 0;
  }

  lemma FewLines(disruptionType: string, affected: string, j: nat)
    requires j < |Route(disruptionType, affected)|
    ensures Lines(Route(disruptionType, affected), j) <= 3
  {
    hide Route;
    var s := StationOnRoute(disruptionType, affected);
    var r := Route(disruptionType, affected);
    if j == 4 {
      LinesStep(r, 3);
      LinesStep(r, s);
      LinesGrow(r, s + 1, 4);
    }
  }

  lemma LinesStep(r: seq<Segment>, j: nat)
    requires j < |r|
    ensures Lines(r, j + 1) == Lines(r, j) + if IsLine(r[j]) then 1 else 0
  {
  }

  lemma {:induction false} LinesGrow(r: seq<Segment>, j: nat, l: nat)
    requires j <= l <= |r|
    ensures Lines(r, l) <= Lines(r, j) + l - j
  {
    if j < l {
      LinesGrow(r, j, l - 1);
    }
  }
}
