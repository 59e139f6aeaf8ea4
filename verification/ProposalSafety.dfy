/** What the constraint layer says about generated proposals, and what it cannot say. */
module ProposalSafety {
  import opened ClockStrings
  import opened Collections
  import opened ConflictChecker
  import opened SlotShifting
  import opened Rescheduling

  ghost predicate PairwiseFree(w: seq<Action>) {
    forall a, b :: 0 <= a < b < |w| ==> !Conflicting(w[a], w[b])
  }

  ghost predicate CrossFree(u: seq<Action>, v: seq<Action>) {
    forall x, y :: x in u && y in v ==> !Conflicting(x, y)
  }

  lemma PairwiseConcat(u: seq<Action>, v: seq<Action>)
    ensures PairwiseFree(u + v) <==> PairwiseFree(u) && PairwiseFree(v) && CrossFree(u, v)
  {
    hide Conflicting;
    var w := u + v;
    if PairwiseFree(w) {
      forall a, b | 0 <= a < b < |u| ensures !Conflicting(u[a], u[b]) {
        assert w[a] == u[a] && w[b] == u[b];
      }
      forall a, b | 0 <= a < b < |v| ensures !Conflicting(v[a], v[b]) {
        assert w[|u| + a] == v[a] && w[|u| + b] == v[b];
      }
      forall x, y | x in u && y in v ensures !Conflicting(x, y) {
        var a :| 0 <= a < |u| && u[a] == x;
        var b :| 0 <= b < |v| && v[b] == y;
        assert w[a] == x && w[|u| + b] == y;
      }
    }
  }

  /** A route the checker can tell apart: named segments, each visited once. */
  ghost predicate ProperRoute(route: seq<Segment>) {
    DistinctIds(route) && forall s :: s in route ==> s.id != ""
  }

  lemma RouteIsProper(disruptionType: string, affected: string)
    ensures ProperRoute(Route(disruptionType, affected))
  {
    RouteIdsDistinct(disruptionType, affected);
    CorridorIdsNamed();
    hide CORRIDOR;
    forall s | s in Route(disruptionType, affected) ensures s.id != "" {
      assert s in Unskipped(CORRIDOR, disruptionType, affected);
    }
  }

  lemma {:induction false} AllComplete(actions: seq<Action>)
    requires forall a :: a in actions ==> Complete(a)
    ensures CompleteActions(actions) == actions
  {
    if actions != [] {
      var front := actions[..|actions| - 1];
      AllComplete(front);
      assert actions == front + [actions[|actions| - 1]];
    }
  }

  /** Windows of the first `t` trains on every segment never look overlapping once printed. */
  ghost predicate PrintedClear(p: Plan, t: nat)
    requires t <= |p.trains|
  {
    forall i, k, j :: 0 <= i < k < t && 0 <= j < |p.route| ==>
      !PrintedOverlap(Slots(p, j, |p.trains|)[i], Slots(p, j, |p.trains|)[k])
  }

  lemma ConflictingActions(p: Plan, i: nat, k: nat, j: nat, l: nat)
    requires ProperRoute(p.route) && i < |p.trains| && k < |p.trains| && j < |p.route| && l < |p.route|
    ensures Conflicting(PrintedAction(p, i, j), PrintedAction(p, k, l))
       <==> j == l && PrintedOverlap(Slots(p, j, |p.trains|)[i], Slots(p, j, |p.trains|)[k])
  {
    hide Slots, TransitMin, FormatTime, EffectiveSpeed, WindowsOverlap;
    SlotsPrefix(p, j, |p.trains|, i + 1);
    SlotsPrefix(p, l, |p.trains|, k + 1);
    if j != l {
      assert p.route[j].id != p.route[l].id;
    }
  }

  ghost predicate FromTrains(p: Plan, w: seq<Action>, t: nat)
    requires t <= |p.trains|
  {
    && (forall x :: x in w ==> exists i, j :: 0 <= i < t && 0 <= j < |p.route| && x == PrintedAction(p, i, j))
    && (forall i, j :: 0 <= i < t && 0 <= j < |p.route| ==> PrintedAction(p, i, j) in w)
  }

  lemma {:induction false} PrintedWindows(p: Plan, t: nat)
    requires ProperRoute(p.route) && t <= |p.trains|
    ensures var w := Windows(PrintedProposal(p)[..t]);
            FromTrains(p, w, t) && (PairwiseFree(w) <==> PrintedClear(p, t))
  {
    hide PrintedAction, Conflicting, PrintedOverlap, Slots, PairwiseFree;
    var P := PrintedProposal(p);
    if t == 0 {
      NothingConflicts();
    } else {
      var k := t - 1;
      var before, row := Windows(P[..k]), PrintedActions(p, k);
      PrintedWindows(p, k);
      WindowsStep(p, k);
      PairwiseConcat(before, row);
      RowFree(p, k);
      CrossRow(p, before, k);
      RowFromTrain(p, before, row, k);
      assert PrintedClear(p, t) <==> PrintedClear(p, k) && ClearAgainst(p, k);
    }
  }

  lemma NothingConflicts()
    ensures PairwiseFree([])
  {
  }

  /** Train `k` looks clear of every train before it. */
  ghost predicate ClearAgainst(p: Plan, k: nat)
    requires k < |p.trains|
  {
    forall i, j :: 0 <= i < k && 0 <= j < |p.route| ==>
      !PrintedOverlap(Slots(p, j, |p.trains|)[i], Slots(p, j, |p.trains|)[k])
  }

  lemma WindowsStep(p: Plan, k: nat)
    requires ProperRoute(p.route) && k < |p.trains|
    ensures Windows(PrintedProposal(p)[..k + 1]) == Windows(PrintedProposal(p)[..k]) + PrintedActions(p, k)
  {
    hide Slots, FormatTime, TransitMin;
    var P := PrintedProposal(p);
    assert P[..k + 1][..k] == P[..k];
    forall a | a in PrintedActions(p, k) ensures Complete(a) {
      var j :| 0 <= j < |p.route| && a == PrintedAction(p, k, j);
      assert p.route[j] in p.route;
      FormatNonEmpty(Slots(p, j, k + 1)[k].enter);
      FormatNonEmpty(Slots(p, j, k + 1)[k].exit);
    }
    AllComplete(PrintedActions(p, k));
  }

  lemma RowFree(p: Plan, k: nat)
    requires ProperRoute(p.route) && k < |p.trains|
    ensures PairwiseFree(PrintedActions(p, k))
  {
    hide PrintedAction, Conflicting, PrintedOverlap, Slots;
    forall a, b | 0 <= a < b < |p.route|
      ensures !Conflicting(PrintedActions(p, k)[a], PrintedActions(p, k)[b])
    {
      ConflictingActions(p, k, k, a, b);
    }
  }

  lemma RowFromTrain(p: Plan, before: seq<Action>, row: seq<Action>, k: nat)
    requires k < |p.trains| && FromTrains(p, before, k) && row == PrintedActions(p, k)
    ensures FromTrains(p, before + row, k + 1)
  {
    hide PrintedAction;
    forall i, j | 0 <= i < k + 1 && 0 <= j < |p.route| ensures PrintedAction(p, i, j) in before + row {
      if i == k {
        assert row[j] == PrintedAction(p, k, j);
      }
    }
  }

  lemma CrossRow(p: Plan, before: seq<Action>, k: nat)
    requires ProperRoute(p.route) && k < |p.trains| && FromTrains(p, before, k)
    ensures CrossFree(before, PrintedActions(p, k)) <==> ClearAgainst(p, k)
  {
    hide PrintedAction, Conflicting, PrintedOverlap, Slots;
    var row := PrintedActions(p, k);
    if CrossFree(before, row) {
      forall i, j | 0 <= i < k && 0 <= j < |p.route|
        ensures !PrintedOverlap(Slots(p, j, |p.trains|)[i], Slots(p, j, |p.trains|)[k])
      {
        assert row[j] == PrintedAction(p, k, j);
        ConflictingActions(p, i, k, j, j);
      }
    }
    if ClearAgainst(p, k) {
      forall x, y | x in before && y in row ensures !Conflicting(x, y) {
        var i, j :| 0 <= i < k && 0 <= j < |p.route| && x == PrintedAction(p, i, j);
        var l :| 0 <= l < |p.route| && y == PrintedAction(p, k, l);
        ConflictingActions(p, i, k, j, l);
      }
    }
  }

  /** The checker accepts a generated timetable exactly when no two windows of a segment overlap as printed. */
  lemma AcceptedExactly(p: Plan)
    requires ProperRoute(p.route)
    ensures ConflictFree(PrintedProposal(p)) <==> PrintedClear(p, |p.trains|)
  {
    hide PrintedClear, Conflicting, PrintedAction;
    PrintedWindows(p, |p.trains|);
    assert PrintedProposal(p)[..|p.trains|] == PrintedProposal(p);
  }

  /** Every train is off every segment within 24 hours of the scheduling base hour. */
  ghost predicate WithinOneDay(p: Plan) {
    forall i, j :: 0 <= i < |p.trains| && 0 <= j < |p.route| ==>
      Slots(p, j, |p.trains|)[i].exit <= p.baseHour * 60 + MINUTES_PER_DAY
  }

  lemma {:induction false} TravelBeforeNonNegative(route: seq<Segment>, train: Train, j: nat)
    requires j <= |route|
    ensures TravelBefore(route, train, j) >= 0
  {
    if j > 0 {
      TravelBeforeNonNegative(route, train, j - 1);
    }
  }

  /**
   * Every proposal generated within one day of its base hour passes the independent checker,
   * midnight or not: the generator's own windows are disjoint and printing cannot make them collide.
   */
  lemma GeneratedAccepted(p: Plan)
    requires ProperRoute(p.route) && WithinOneDay(p)
    ensures ConflictFree(PrintedProposal(p))
  {
    hide Slots, PrintedOverlap, Request, TransitMin, ConflictFree, ProperRoute;
    AcceptedExactly(p);
    var n := |p.trains|;
    forall i, k, j | 0 <= i < k < n && 0 <= j < |p.route|
      ensures !PrintedOverlap(Slots(p, j, n)[i], Slots(p, j, n)[k])
    {
      SlotsSafe(p, j, n);
      RequestAfterBase(p, i, j);
      RequestAfterBase(p, k, j);
      PrintedOverlapWithinDay(Slots(p, j, n)[i], Slots(p, j, n)[k], p.baseHour * 60);
    }
  }

  lemma RequestAfterBase(p: Plan, i: nat, j: nat)
    requires i < |p.trains| && j < |p.route|
    ensures Request(p, i, j).enter >= p.baseHour * 60
  {
    TravelBeforeNonNegative(p.route, p.trains[i], j);
    assert i * Max(p.Headway(), 3) >= 0;
  }
}
