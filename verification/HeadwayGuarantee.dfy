/** When a generated timetable keeps the minimum headway: never at the stations under the default, and how it is lost on the line. */
module HeadwayGuarantee {
  import opened Collections
  import opened ConflictChecker
  import opened SlotShifting
  import opened Rescheduling
  import opened CorridorFacts
  import TrainClasses
  import opened StableSorting

  ghost predicate Separated(s: seq<Window>, headway: nat) {
    forall a, b :: 0 <= a < b < |s| ==> Apart(s[a], s[b], headway)
  }

  /** On every segment every two trains keep the headway. */
  ghost predicate HeadwayKept(p: Plan) {
    forall j :: 0 <= j < |p.route| ==> Separated(Slots(p, j, |p.trains|), p.Headway())
  }

  // ---- Stations ----

  function StationSlot(p: Plan, k: nat): (w: Window) {
    var enter := p.baseHour * 60 + p.baseMinute + k * 4;
    Window(enter, enter + 2)
  }

  /** At a station nobody is ever shifted: the trains enter four minutes apart and stay for two. */
  lemma {:induction false} StationSlots(p: Plan, j: nat, i: nat)
    requires j < |p.route| && !IsLine(p.route[j]) && i <= |p.trains|
    ensures forall k :: 0 <= k < i ==> Slots(p, j, i)[k] == StationSlot(p, k)
  {
    hide BlockingExit, Ahead;
    if i > 0 {
      StationSlots(p, j, i - 1);
      var before, w := Slots(p, j, i - 1), StationSlot(p, i - 1);
      assert Request(p, i - 1, j) == w;
      NoBlockingExit(before, w);
    }
  }

  lemma StationHeadway(p: Plan, j: nat)
    requires j < |p.route| && !IsLine(p.route[j]) && |p.trains| >= 2
    ensures Separated(Slots(p, j, |p.trains|), p.Headway()) <==> p.Headway() <= 2
  {
    hide Slots;
    StationSlots(p, j, |p.trains|);
    var s := Slots(p, j, |p.trains|);
    if Separated(s, p.Headway()) {
      assert Apart(s[0], s[1], p.Headway());
    }
  }

  // ---- The open line ----

  /** Requests come in train order, and everybody takes longer than the headway. */
  ghost predicate Orderly(p: Plan, j: nat)
    requires j < |p.route|
  {
    && (forall i :: 0 <= i < |p.trains| ==> Request(p, i, j).exit - Request(p, i, j).enter > p.Headway())
    && (forall k, i :: 0 <= k < i < |p.trains| ==> Request(p, k, j).enter < Request(p, i, j).exit)
  }

  /** No gap among the earlier trains is wide enough for a later one. */
  lemma {:induction false} NoGap(p: Plan, j: nat, m: nat, w: Window)
    requires j < |p.route| && m <= |p.trains| && ClearOf(Slots(p, j, m), w)
    requires w.exit - w.enter > p.Headway() && forall k :: 0 <= k < m ==> Request(p, k, j).enter < w.exit
    ensures forall o :: o in Slots(p, j, m) ==> o.exit <= w.enter
  {
    hide Resolve, Request;
    if m > 0 {
      var before, last := Slots(p, j, m - 1), Slots(p, j, m)[m - 1];
      assert Slots(p, j, m) == before + [last];
      NoGap(p, j, m - 1, w);
      assert !Overlaps(w, last);
      if last != Request(p, m - 1, j) {
        var o := ShiftedBehindOne(before, Request(p, m - 1, j), p.Headway());
      }
    }
  }

  /** Trains never overtake on the line: each enters after everyone before it has left. */
  lemma {:induction false} LineOrder(p: Plan, j: nat, i: nat)
    requires j < |p.route| && Orderly(p, j) && i <= |p.trains|
    ensures forall a, b :: 0 <= a < b < i ==> Slots(p, j, i)[a].exit <= Slots(p, j, i)[b].enter
  {
    hide Resolve, Request;
    if i > 0 {
      LineOrder(p, j, i - 1);
      var before, w := Slots(p, j, i - 1), Slots(p, j, i)[i - 1];
      ResolveSafe(before, Request(p, i - 1, j), p.Headway());
      NoGap(p, j, i - 1, w);
      forall a | 0 <= a < i - 1 ensures before[a].exit <= w.enter {
        assert before[a] in before;
      }
    }
  }

  /** Train `i` asks to enter after the train before it has left, but within the headway of that. */
  predicate FollowsClose(p: Plan, i: nat, j: nat)
    requires 1 <= i < |p.trains| && j < |p.route|
  {
    var last := Slots(p, j, i)[i - 1].exit;
    last <= Request(p, i, j).enter < last + p.Headway()
  }

  /** A train keeps the headway to the one before it exactly when it did not ask to follow close. */
  lemma LineGap(p: Plan, j: nat, i: nat)
    requires j < |p.route| && Orderly(p, j) && 1 <= i < |p.trains|
    ensures var s := Slots(p, j, i + 1);
            s[i - 1].exit + p.Headway() <= s[i].enter <==> !FollowsClose(p, i, j)
  {
    hide Resolve, Request;
    var before, request := Slots(p, j, i), Request(p, i, j);
    LineOrder(p, j, i);
    LineOrder(p, j, i + 1);
    ResolveSafe(before, request, p.Headway());
    var s := Slots(p, j, i + 1);
    assert s == before + [s[i]];
    assert before[i - 1] == s[i - 1] && s[i - 1].exit <= s[i].enter;
    if FollowsClose(p, i, j) {
      forall o | o in before ensures o.exit <= request.enter {
        var k :| 0 <= k < i && before[k] == o;
        SlotsNonEmpty(p, j, i);
      }
      ClearUnshifted(before, request, p.Headway());
    } else if s[i] != request {
      var o := ShiftedBehindOne(before, request, p.Headway());
      var k :| 0 <= k < i && before[k] == o;
      SlotsSafe(p, j, i);
      RequestLength(p, i - 1, j);
    }
  }

  lemma ClearUnshifted(occupied: seq<Window>, w: Window, headway: nat)
    requires ClearOf(occupied, w)
    ensures Resolve(occupied, w, headway) == Resolution(w, 0)
  {
    NoBlockingExit(occupied, w);
  }

  lemma RequestLength(p: Plan, i: nat, j: nat)
    requires j < |p.route| && i < |p.trains|
    ensures Request(p, i, j).exit - Request(p, i, j).enter == TransitMin(p.trains[i], p.route[j])
  {
  }

  lemma SlotsNonEmpty(p: Plan, j: nat, i: nat)
    requires j < |p.route| && i <= |p.trains|
    ensures forall k :: 0 <= k < i ==> Slots(p, j, i)[k].enter < Slots(p, j, i)[k].exit
  {
    hide Slots;
    SlotsSafe(p, j, i);
  }

  /** On the line the headway is kept throughout exactly when no train asks to follow close. */
  lemma {:induction false} LineHeadway(p: Plan, j: nat, i: nat)
    requires j < |p.route| && Orderly(p, j) && i <= |p.trains|
    ensures Separated(Slots(p, j, i), p.Headway()) <==> forall k :: 1 <= k < i ==> !FollowsClose(p, k, j)
  {
    hide Resolve, Request, FollowsClose, Orderly;
    if i > 0 {
      LineHeadway(p, j, i - 1);
      var before, s := Slots(p, j, i - 1), Slots(p, j, i);
      assert s == before + [s[i - 1]];
      assert forall b :: 0 <= b < i - 1 ==> before[b] == s[b];
      if i > 1 {
        LineGap(p, j, i - 1);
        LineOrder(p, j, i);
        SlotsNonEmpty(p, j, i);
        LastDecides(before, s[i - 1], p.Headway());
      }
    }
  }

  lemma LastDecides(before: seq<Window>, w: Window, headway: nat)
    requires before != [] && w.enter < w.exit
    requires forall b :: 0 <= b < |before| ==> before[b].enter < before[b].exit <= w.enter
    requires forall a, b :: 0 <= a < b < |before| ==> before[a].exit <= before[b].enter
    ensures Separated(before + [w], headway)
       <==> Separated(before, headway) && before[|before| - 1].exit + headway <= w.enter
  {
    var s, n := before + [w], |before|;
    if Separated(s, headway) {
      assert Apart(s[n - 1], s[n], headway);
      forall a, b | 0 <= a < b < n ensures Apart(before[a], before[b], headway) {
        assert Apart(s[a], s[b], headway);
      }
    }
    if Separated(before, headway) && before[n - 1].exit + headway <= w.enter {
      forall a, b | 0 <= a < b < n + 1 ensures Apart(s[a], s[b], headway) {
        if b == n {
          assert a == n - 1 || before[a].exit <= before[n - 1].enter;
        } else {
          assert Apart(before[a], before[b], headway);
        }
      }
    }
  }

  // ---- Generated timetables ----

  lemma LinesOrderly(affectedTrains: seq<string>, disruptionType: string, affected: string,
                     hour: nat, minute: nat, headwaySeconds: nat, j: nat)
    requires headwaySeconds / 60 <= 4
    requires var p := PlanFor(affectedTrains, disruptionType, affected, hour, minute, headwaySeconds);
             j < |p.route| && IsLine(p.route[j])
    ensures Orderly(PlanFor(affectedTrains, disruptionType, affected, hour, minute, headwaySeconds), j)
  {
    hide Route, Trains, Request, TransitMin, CORRIDOR;
    var p := PlanFor(affectedTrains, disruptionType, affected, hour, minute, headwaySeconds);
    RouteFromCorridor(disruptionType, affected);
    assert p.route[j] in p.route;
    forall i | 0 <= i < |p.trains| ensures Request(p, i, j).exit - Request(p, i, j).enter > p.Headway() {
      SpeedRange(affectedTrains, i);
      LineTransit(p.route[j], p.trains[i]);
      RequestLength(p, i, j);
    }
    forall k, i | 0 <= k < i < |p.trains| ensures Request(p, k, j).enter < Request(p, i, j).exit {
      RequestsInOrder(p, disruptionType, affected, affectedTrains, j, k, i);
    }
  }

  /**
   * Up to four minutes of headway, trains keep their scheduling order on every open-line segment, and the headway
   * there is lost exactly when some train asks to follow close.
   */
  lemma GeneratedLineHeadway(affectedTrains: seq<string>, disruptionType: string, affected: string,
                             hour: nat, minute: nat, headwaySeconds: nat, j: nat)
    requires headwaySeconds / 60 <= 4
    requires var p := PlanFor(affectedTrains, disruptionType, affected, hour, minute, headwaySeconds);
             j < |p.route| && IsLine(p.route[j])
    ensures var p := PlanFor(affectedTrains, disruptionType, affected, hour, minute, headwaySeconds);
            var s := Slots(p, j, |p.trains|);
            && (forall a, b :: 0 <= a < b < |s| ==> s[a].exit <= s[b].enter)
            && (Separated(s, p.Headway()) <==> forall i :: 1 <= i < |s| ==> !FollowsClose(p, i, j))
  {
    hide Route, Trains, Orderly, Slots, FollowsClose;
    var p := PlanFor(affectedTrains, disruptionType, affected, hour, minute, headwaySeconds);
    LinesOrderly(affectedTrains, disruptionType, affected, hour, minute, headwaySeconds, j);
    LineOrder(p, j, |p.trains|);
    LineHeadway(p, j, |p.trains|);
  }

  /**
   * A generated timetable keeps the headway exactly when it has at most one train, or the headway is at most two
   * minutes and no train asks to follow close on the line. Under the default of three minutes no timetable of two
   * trains keeps it, whatever the disruption.
   */
  lemma HeadwayKeptExactly(affectedTrains: seq<string>, disruptionType: string, affected: string,
                           hour: nat, minute: nat, headwaySeconds: nat)
    ensures var p := PlanFor(affectedTrains, disruptionType, affected, hour, minute, headwaySeconds);
            HeadwayKept(p) <==>
              || |p.trains| <= 1
              || (&& p.Headway() <= 2
                  && forall i, j :: 1 <= i < |p.trains| && 0 <= j < |p.route| && IsLine(p.route[j]) ==> !FollowsClose(p, i, j))
  {
    hide Route, Trains, Slots, FollowsClose, Separated, IsLine;
    var p := PlanFor(affectedTrains, disruptionType, affected, hour, minute, headwaySeconds);
    var n, h := |p.trains|, p.Headway();
    var s := StationOnRoute(disruptionType, affected);
    if n <= 1 {
      forall j | 0 <= j < |p.route| ensures Separated(Slots(p, j, n), h) {
        FewSeparated(Slots(p, j, n), h);
      }
    } else {
      StationHeadway(p, s);
      forall j | 0 <= j < |p.route| && h <= 2
        ensures Separated(Slots(p, j, n), h) <==> (IsLine(p.route[j]) ==> forall i :: 1 <= i < n ==> !FollowsClose(p, i, j))
      {
        if IsLine(p.route[j]) {
          GeneratedLineHeadway(affectedTrains, disruptionType, affected, hour, minute, headwaySeconds, j);
        } else {
          StationHeadway(p, j);
        }
      }
    }
  }

  lemma FewSeparated(s: seq<Window>, headway: nat)
    requires |s| <= 1
    ensures Separated(s, headway)
  {
  }

  // ---- Which headway can be promised ----

  /**
   * A configured headway holds in every timetable exactly when it is less than a minute, which is no headway at all.
   */
  lemma HeadwayGuaranteed(headwaySeconds: nat)
    ensures (forall affectedTrains, disruptionType, affected, hour, minute ::
               HeadwayKept(PlanFor(affectedTrains, disruptionType, affected, hour, minute, headwaySeconds)))
       <==> headwaySeconds < 60
  {
    hide PlanFor, HeadwayKept;
    if headwaySeconds < 60 {
      forall affectedTrains: seq<string>, disruptionType: string, affected: string, hour: nat, minute: nat
        ensures HeadwayKept(PlanFor(affectedTrains, disruptionType, affected, hour, minute, headwaySeconds))
      {
        NoHeadwayNoLoss(affectedTrains, disruptionType, affected, hour, minute, headwaySeconds);
      }
    } else {
      PassengerFollowsRajdhani(headwaySeconds);
    }
  }

  lemma NoHeadwayNoLoss(affectedTrains: seq<string>, disruptionType: string, affected: string,
                        hour: nat, minute: nat, headwaySeconds: nat)
    requires headwaySeconds < 60
    ensures HeadwayKept(PlanFor(affectedTrains, disruptionType, affected, hour, minute, headwaySeconds))
  {
    hide HeadwayKept, Slots, Route, Trains, Request;
    HeadwayKeptExactly(affectedTrains, disruptionType, affected, hour, minute, headwaySeconds);
  }

  lemma ContainsLetters(s: string, t: string, k: nat)
    requires TrainClasses.Contains(s, t) && k < |t|
    ensures t[k] in s
  {
    var l: nat :| l <= |s| && TrainClasses.OccursAt(s, t, l);
    assert s[l..l + |t|][k] == s[l + k];
  }

  predicate InPassenger(letter: char) {
    letter == 'p' || letter == 'a' || letter == 's' || letter == 'e' || letter == 'n' || letter == 'g' || letter == 'r'
  }

  lemma PassengerLetters()
    ensures forall letter :: letter in TrainClasses.Lower("Passenger") ==> InPassenger(letter)
  {
    var s := TrainClasses.Lower("Passenger");
    assert |s| == 9;
    forall k | 0 <= k < 9 ensures InPassenger(s[k]) {
    }
  }

  /** A letter of the class name that does not occur in "passenger" rules the class out. */
  lemma NotMentioned(c: TrainClasses.TrainClass, k: nat)
    requires k < |c.name| && 'a' <= c.name[k] <= 'z' && !InPassenger(c.name[k])
    ensures !TrainClasses.Mentions("Passenger", c)
  {
    PassengerLetters();
    hide TrainClasses.Contains, InPassenger;
    if TrainClasses.Mentions("Passenger", c) {
      var t := TrainClasses.Lower(c.name);
      assert t[k] == c.name[k];
      hide TrainClasses.Lower;
      ContainsLetters(TrainClasses.Lower("Passenger"), t, k);
    }
  }

  lemma EarlierClassesNotMentioned()
    ensures forall i :: 0 <= i < 8 ==> !TrainClasses.Mentions("Passenger", TrainClasses.CLASSES[i])
  {
    hide TrainClasses.Mentions;
    var cs := TrainClasses.CLASSES;
    NotMentioned(cs[0], 2);
    NotMentioned(cs[1], 1);
    NotMentioned(cs[2], 3);
    NotMentioned(cs[3], 1);
    NotMentioned(cs[4], 3);
    NotMentioned(cs[5], 5);
    NotMentioned(cs[6], 2);
    NotMentioned(cs[7], 1);
  }

  lemma OnlyPassenger()
    ensures TrainClasses.FirstMentioned(TrainClasses.CLASSES, "Passenger") == 8
  {
    EarlierClassesNotMentioned();
    MentionsOwnName(TrainClasses.CLASSES[8], "Passenger");
    assert |TrainClasses.CLASSES| == 10;
    hide TrainClasses.Mentions, TrainClasses.CLASSES, TrainClasses.FirstMentioned;
  }

  lemma MentionsOwnName(c: TrainClasses.TrainClass, id: string)
    requires c.name == id
    ensures TrainClasses.Mentions(id, c)
  {
    TrainClasses.ContainsItself(TrainClasses.Lower(id));
  }

  lemma RajdhaniAndPassenger()
    ensures Trains(["Rajdhani", "Passenger"]) == [Train("Rajdhani", 130), Train("Passenger", 80)]
  {
    hide TrainClasses.Mentions, TrainClasses.FirstMentioned, TrainClasses.Contains, SortDescending;
    var cs, a, b := TrainClasses.CLASSES, "Rajdhani", "Passenger";
    MentionsOwnName(cs[0], a);
    OnlyPassenger();
    assert TrainClasses.ClassOf(a) == cs[0] && TrainClasses.ClassOf(b) == cs[8];
    hide TrainClasses.ClassOf;
    assert TrainClasses.Urgency(a) == -1.0 && TrainClasses.Urgency(b) == -5.0;
    SortTwo(a, b, TrainClasses.Urgency);
  }

  lemma SortTwo<T>(a: T, b: T, score: T -> real)
    requires score(a) >= score(b)
    ensures SortDescending([a, b], score) == [a, b]
  {
    assert [a, b][..1] == [a] && [a][..0] == [];
    assert SortDescending([a], score) == [a];
    assert Insert([a], b, score) == [a] + Insert([a][1..], b, score) == [a, b];
  }

  /** A Passenger behind a Rajdhani asks for the second segment in the very minute the Rajdhani leaves it. */
  lemma PassengerFollowsRajdhani(headwaySeconds: nat)
    requires headwaySeconds >= 60
    ensures !HeadwayKept(PlanFor(["Rajdhani", "Passenger"], "delayed_service", "", 14, 0, headwaySeconds))
  {
    hide HeadwayKept, Trains, Route, CORRIDOR;
    var p := PlanFor(["Rajdhani", "Passenger"], "delayed_service", "", 14, 0, headwaySeconds);
    RajdhaniAndPassenger();
    HeadwayKeptExactly(["Rajdhani", "Passenger"], "delayed_service", "", 14, 0, headwaySeconds);
    if p.Headway() <= 2 {
      DelayedRoute();
      SecondSegment(p);
      assert FollowsClose(p, 1, 1);
    }
  }

  lemma DelayedRoute()
    ensures var r := Route("delayed_service", "");
            |r| == 5 && r[0] == Segment("seg-ndls-anvt", 0, 14, 80, 6) && r[1] == Segment("seg-anvt-gzb", 14, 27, 110, 0)
  {
    hide CORRIDOR, Unskipped;
    NoneSkipped(CORRIDOR, "delayed_service", "");
    CorridorLength();
    CorridorStart();
  }

  lemma CorridorStart()
    ensures |CORRIDOR| == 9 && CORRIDOR[0] == Segment("seg-ndls-anvt", 0, 14, 80, 6)
    ensures CORRIDOR[1] == Segment("seg-anvt-gzb", 14, 27, 110, 0)
  {
  }

  lemma SecondSegment(p: Plan)
    requires |p.trains| == 2 && p.trains[0].speedKmh == 130 && p.trains[1].speedKmh == 80
    requires |p.route| >= 2 && p.route[0] == Segment("seg-ndls-anvt", 0, 14, 80, 6)
    requires p.route[1] == Segment("seg-anvt-gzb", 14, 27, 110, 0)
    requires 1 <= p.Headway() <= 2
    ensures IsLine(p.route[1]) && FollowsClose(p, 1, 1)
  {
    hide Resolve;
    var r := Request(p, 0, 1);
    assert TravelBefore(p.route, p.trains[0], 0) == 0 && TravelBefore(p.route, p.trains[1], 0) == 0;
    assert TravelBefore(p.route, p.trains[0], 1) == 6 && TravelBefore(p.route, p.trains[1], 1) == 10;
    assert r.exit == r.enter + 7 && Request(p, 1, 1).enter == r.exit;
    assert Slots(p, 1, 0) == [];
    ClearUnshifted([], r, p.Headway());
    assert Slots(p, 1, 1) == [r];
  }
}
