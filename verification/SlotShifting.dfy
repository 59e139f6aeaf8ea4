/** Placing one train on one segment: the iterative conflict loop of the scheduler. */
module SlotShifting {
  import opened Collections
  import opened ConflictChecker

  /** Where the loop leaves the window, and how many times it shifted it. */
  datatype Resolution = Resolution(window: Window, passes: nat)

  function Shifted(w: Window, enter: int): (r: Window) {
    Window(enter, w.exit + (enter - w.enter))
  }

  /** The latest exit among the occupants the window overlaps. */
  function BlockingExit(occupied: seq<Window>, w: Window): (b: Option<int>) {
    if occupied == [] then None
    else
      var n := |occupied| - 1;
      var rest := BlockingExit(occupied[..n], w);
      var o := occupied[n];
      if !Overlaps(w, o) then rest
      else if rest == None then Some(o.exit)
      else Some(Max(rest.value, o.exit))
  }

  ghost predicate ClearOf(occupied: seq<Window>, w: Window) {
    forall o :: o in occupied ==> !Overlaps(w, o)
  }

  ghost predicate IsBlocker(occupied: seq<Window>, w: Window, o: Window) {
    o in occupied && Overlaps(w, o)
  }

  lemma {:induction false} NoBlockingExit(occupied: seq<Window>, w: Window)
    ensures BlockingExit(occupied, w) == None <==> ClearOf(occupied, w)
  {
    if occupied != [] {
      var n := |occupied| - 1;
      NoBlockingExit(occupied[..n], w);
      assert occupied == occupied[..n] + [occupied[n]];
    }
  }

  lemma {:induction false} Blocker(occupied: seq<Window>, w: Window) returns (o: Window)
    requires BlockingExit(occupied, w).Some?
    ensures IsBlocker(occupied, w, o) && o.exit == BlockingExit(occupied, w).value
  {
    var n := |occupied| - 1;
    o := occupied[n];
    if !Overlaps(w, o) || BlockingExit(occupied[..n], w) == Some(BlockingExit(occupied, w).value) {
      o := Blocker(occupied[..n], w);
    }
  }

  /** Occupants still ahead of a start time; every shift leaves fewer of them. */
  function Ahead(occupied: seq<Window>, enter: int): (n: nat)
    ensures n <= |occupied|
  {
    if occupied == [] then 0
    else (if occupied[0].exit > enter then 1 else 0) + Ahead(occupied[1..], enter)
  }

  lemma {:induction false} AheadDecreases(occupied: seq<Window>, o: Window, e: int, later: int)
    requires e <= later
    ensures Ahead(occupied, later) <= Ahead(occupied, e)
    ensures o in occupied && e < o.exit <= later ==> Ahead(occupied, later) < Ahead(occupied, e)
  {
    if occupied != [] {
      AheadDecreases(occupied[1..], o, e, later);
    }
  }

  lemma ShiftMakesProgress(occupied: seq<Window>, w: Window, headway: nat)
    requires BlockingExit(occupied, w).Some?
    ensures var enter := BlockingExit(occupied, w).value + headway;
            w.enter < enter && Ahead(occupied, enter) < Ahead(occupied, w.enter)
  {
    hide BlockingExit, Ahead;
    var b := BlockingExit(occupied, w).value;
    var o := Blocker(occupied, w);
    AheadDecreases(occupied, o, w.enter, b + headway);
  }

  /** What the loop computes. */
  function Resolve(occupied: seq<Window>, w: Window, headway: nat): (r: Resolution)
    decreases Ahead(occupied, w.enter)
  {
    var b := BlockingExit(occupied, w);
    if b == None then Resolution(w, 0)
    else
      ShiftMakesProgress(occupied, w, headway);
      var r := Resolve(occupied, Shifted(w, b.value + headway), headway);
      Resolution(r.window, r.passes + 1)
  }

  /** The conflict loop itself: it terminates, and returns the resolved window and the shift it applied. */
  method ResolveConflicts(occupied: seq<Window>, request: Window, headway: nat)
    returns (window: Window, conflictShift: int, conflictsResolved: nat)
    ensures Resolve(occupied, request, headway) == Resolution(window, conflictsResolved)
    ensures conflictShift == window.enter - request.enter
  {
    hide Ahead;
    var enterMinAbs, exitMinAbs := request.enter, request.exit;
    conflictShift, conflictsResolved := 0, 0;
    while true
      invariant conflictShift == enterMinAbs - request.enter == exitMinAbs - request.exit
      invariant var r := Resolve(occupied, Window(enterMinAbs, exitMinAbs), headway);
                Resolve(occupied, request, headway) == Resolution(r.window, r.passes + conflictsResolved)
      decreases Ahead(occupied, enterMinAbs)
    {
      var w := Window(enterMinAbs, exitMinAbs);
      var blockingExit: Option<int> := None;
      for i := 0 to |occupied|
        invariant blockingExit == BlockingExit(occupied[..i], w)
      {
        assert occupied[..i + 1][..i] == occupied[..i];
        var o := occupied[i];
        if enterMinAbs < o.exit && exitMinAbs > o.enter {
          blockingExit := if blockingExit == None then Some(o.exit) else Some(Max(blockingExit.value, o.exit));
        }
      }
      assert occupied[..|occupied|] == occupied;
      if blockingExit == None {
        break;
      }
      ShiftMakesProgress(occupied, w, headway);
      var shift := blockingExit.value + headway - enterMinAbs;
      enterMinAbs := enterMinAbs + shift;
      exitMinAbs := exitMinAbs + shift;
      conflictShift := conflictShift + shift;
      conflictsResolved := conflictsResolved + 1;
    }
    window := Window(enterMinAbs, exitMinAbs);
  }

  /** The result is clear of every occupant, keeps its length, is not early, and took at most one shift per occupant. */
  lemma {:induction false} ResolveSafe(occupied: seq<Window>, w: Window, headway: nat)
    ensures var r := Resolve(occupied, w, headway);
            && ClearOf(occupied, r.window)
            && r.window.exit - r.window.enter == w.exit - w.enter
            && r.window.enter >= w.enter
            && r.passes <= Ahead(occupied, w.enter)
            && (r.passes == 0 <==> r.window == w)
    decreases Ahead(occupied, w.enter)
  {
    hide BlockingExit, Ahead, ClearOf;
    var b := BlockingExit(occupied, w);
    NoBlockingExit(occupied, w);
    if b.Some? {
      ShiftMakesProgress(occupied, w, headway);
      ResolveSafe(occupied, Shifted(w, b.value + headway), headway);
    }
  }

  /** One shift: to the headway behind the latest exit among the occupants in the way. */
  ghost predicate IsShift(occupied: seq<Window>, from: Window, to: Window, headway: nat) {
    && to == Shifted(from, to.enter)
    && (exists o :: IsBlocker(occupied, from, o) && to.enter == o.exit + headway)
    && (forall o :: IsBlocker(occupied, from, o) ==> o.exit + headway <= to.enter)
  }

  lemma {:induction false} LatestBlocker(occupied: seq<Window>, w: Window)
    ensures forall o :: IsBlocker(occupied, w, o) ==> BlockingExit(occupied, w).Some? && o.exit <= BlockingExit(occupied, w).value
  {
    if occupied != [] {
      var n := |occupied| - 1;
      LatestBlocker(occupied[..n], w);
      assert occupied == occupied[..n] + [occupied[n]];
      forall o | IsBlocker(occupied, w, o)
        ensures BlockingExit(occupied, w).Some? && o.exit <= BlockingExit(occupied, w).value
      {
        assert IsBlocker(occupied[..n], w, o) || o == occupied[n];
      }
    }
  }

  /** The number of passes is the number of shifts from the request to the result, one after the other. */
  lemma {:induction false} PassesAreShifts(occupied: seq<Window>, w: Window, headway: nat) returns (ws: seq<Window>)
    ensures var r := Resolve(occupied, w, headway);
            && |ws| == r.passes + 1 && ws[0] == w && ws[r.passes] == r.window
            && forall k :: 0 <= k < r.passes ==> IsShift(occupied, ws[k], ws[k + 1], headway)
    decreases Ahead(occupied, w.enter)
  {
    hide BlockingExit, Ahead, IsBlocker;
    var b := BlockingExit(occupied, w);
    if b == None {
      ws := [w];
    } else {
      ShiftMakesProgress(occupied, w, headway);
      var next := Shifted(w, b.value + headway);
      var rest := PassesAreShifts(occupied, next, headway);
      var o := Blocker(occupied, w);
      LatestBlocker(occupied, w);
      assert IsShift(occupied, w, next, headway);
      ws := [w] + rest;
    }
  }

  // ---- Headway ----

  /** The window, and the headway behind the trains before it, overlaps nobody. */
  ghost predicate ClearBehind(occupied: seq<Window>, w: Window, headway: nat) {
    ClearOf(occupied, Window(w.enter - headway, w.exit))
  }

  /** Every occupant that comes after the window comes at least the headway after. */
  ghost predicate KeepsAhead(occupied: seq<Window>, w: Window, headway: nat) {
    forall o :: o in occupied && w.exit <= o.enter ==> w.exit + headway <= o.enter
  }

  /** The headway lies between two windows. */
  predicate Apart(a: Window, b: Window, headway: nat) {
    a.exit + headway <= b.enter || b.exit + headway <= a.enter
  }

  ghost predicate NonEmpty(occupied: seq<Window>) {
    forall o :: o in occupied ==> o.enter < o.exit
  }

  ghost predicate KeepsHeadway(occupied: seq<Window>, w: Window, headway: nat) {
    forall o :: o in occupied ==> Apart(o, w, headway)
  }

  lemma BothSides(occupied: seq<Window>, w: Window, headway: nat)
    requires NonEmpty(occupied) && w.enter < w.exit
    ensures KeepsHeadway(occupied, w, headway) <==> ClearBehind(occupied, w, headway) && KeepsAhead(occupied, w, headway)
  {
    var wide := Window(w.enter - headway, w.exit);
    if KeepsHeadway(occupied, w, headway) {
      forall o | o in occupied ensures !Overlaps(wide, o) && (w.exit <= o.enter ==> w.exit + headway <= o.enter) {
        assert Apart(o, w, headway);
      }
    }
    if ClearBehind(occupied, w, headway) && KeepsAhead(occupied, w, headway) {
      forall o | o in occupied ensures Apart(o, w, headway) {
        assert !Overlaps(wide, o);
      }
    }
  }

  /** No start between the request and the result would have been clear with the headway kept. */
  lemma {:induction false} ResolveEarliest(occupied: seq<Window>, w: Window, headway: nat, e: int)
    requires w.enter <= e < Resolve(occupied, w, headway).window.enter
    ensures !ClearBehind(occupied, Shifted(w, e), headway)
    decreases Ahead(occupied, w.enter)
  {
    hide BlockingExit, Ahead;
    var b := BlockingExit(occupied, w);
    if b.Some? {
      ShiftMakesProgress(occupied, w, headway);
      var next := Shifted(w, b.value + headway);
      if e < next.enter {
        var o := Blocker(occupied, w);
        assert Overlaps(Window(e - headway, Shifted(w, e).exit), o);
      } else {
        assert Shifted(next, e) == Shifted(w, e);
        ResolveEarliest(occupied, next, headway, e);
      }
    }
  }

  /** The first start from the request on that is clear behind: where the loop would put the widened window. */
  function FirstClearBehind(occupied: seq<Window>, w: Window, headway: nat): (enter: int) {
    Resolve(occupied, Window(w.enter - headway, w.exit), 0).window.enter + headway
  }

  lemma FirstClearBehindIsFirst(occupied: seq<Window>, w: Window, headway: nat)
    ensures var first := FirstClearBehind(occupied, w, headway);
            && first >= w.enter
            && ClearBehind(occupied, Shifted(w, first), headway)
            && forall e :: w.enter <= e < first ==> !ClearBehind(occupied, Shifted(w, e), headway)
  {
    hide ClearOf, Resolve;
    var wide := Window(w.enter - headway, w.exit);
    var first := FirstClearBehind(occupied, w, headway);
    ResolveSafe(occupied, wide, 0);
    assert Resolve(occupied, wide, 0).window == Window(first - headway, Shifted(w, first).exit);
    forall e | w.enter <= e < first ensures !ClearBehind(occupied, Shifted(w, e), headway) {
      ResolveEarliest(occupied, wide, 0, e - headway);
      assert Shifted(wide, e - headway) == Window(e - headway, Shifted(w, e).exit);
    }
  }

  /**
   * Whatever the occupants, the result keeps the headway to all of them exactly when the loop has landed on the first
   * start that is clear behind, and the next train after that start is far enough ahead. A request that overlaps nobody
   * is taken as it is, so it lands there only if it was clear behind already.
   */
  lemma HeadwayExact(occupied: seq<Window>, w: Window, headway: nat)
    requires NonEmpty(occupied) && w.enter < w.exit
    ensures var first := FirstClearBehind(occupied, w, headway);
            var r := Resolve(occupied, w, headway).window;
            && r.enter <= first
            && (KeepsHeadway(occupied, r, headway) <==> r.enter == first && KeepsAhead(occupied, Shifted(w, first), headway))
            && (ClearOf(occupied, w) ==> (r.enter == first <==> ClearBehind(occupied, w, headway)))
  {
    hide BlockingExit, KeepsHeadway, ClearBehind, KeepsAhead, FirstClearBehind, ClearOf;
    var first, r := FirstClearBehind(occupied, w, headway), Resolve(occupied, w, headway).window;
    NoBlockingExit(occupied, w);
    assert Shifted(w, w.enter) == w;
    ResolveSafe(occupied, w, headway);
    FirstClearBehindIsFirst(occupied, w, headway);
    if first < r.enter {
      ResolveEarliest(occupied, w, headway, first);
      assert false;
    }
    BothSides(occupied, r, headway);
    assert r == Shifted(w, r.enter);
  }

  /** Occupants that do not overlap, each longer than the headway. */
  ghost predicate Roomy(occupied: seq<Window>, headway: nat) {
    && (forall o :: o in occupied ==> o.enter + headway < o.exit)
    && (forall a, b :: a in occupied && b in occupied ==> a == b || !Overlaps(a, b))
  }

  lemma RoomyNonEmpty(occupied: seq<Window>, headway: nat)
    requires Roomy(occupied, headway)
    ensures NonEmpty(occupied)
  {
  }

  /** A shifted window starts exactly the headway behind one of the occupants. */
  lemma {:induction false} ShiftedBehindOne(occupied: seq<Window>, w: Window, headway: nat) returns (o: Window)
    requires Resolve(occupied, w, headway).window != w
    ensures o in occupied && Resolve(occupied, w, headway).window.enter == o.exit + headway
    decreases Ahead(occupied, w.enter)
  {
    hide BlockingExit, Ahead;
    var b := BlockingExit(occupied, w).value;
    ShiftMakesProgress(occupied, w, headway);
    var next := Shifted(w, b + headway);
    if BlockingExit(occupied, next).Some? {
      ResolveSafe(occupied, next, headway);
      o := ShiftedBehindOne(occupied, next, headway);
    } else {
      o := Blocker(occupied, w);
    }
  }

  /** Among occupants longer than the headway, a shift always lands on the first start that is clear behind. */
  lemma ShiftImposesHeadway(occupied: seq<Window>, w: Window, headway: nat)
    requires Roomy(occupied, headway) && w.enter < w.exit && BlockingExit(occupied, w).Some?
    ensures Resolve(occupied, w, headway).window.enter == FirstClearBehind(occupied, w, headway)
  {
    hide Resolve, BlockingExit, FirstClearBehind, Roomy, ClearOf;
    var r, first := Resolve(occupied, w, headway).window, FirstClearBehind(occupied, w, headway);
    ResolveSafe(occupied, w, headway);
    NoBlockingExit(occupied, w);
    var o := ShiftedBehindOne(occupied, w, headway);
    ClearBehindOne(occupied, o, r, headway);
    RoomyNonEmpty(occupied, headway);
    HeadwayExact(occupied, w, headway);
    FirstClearBehindIsFirst(occupied, w, headway);
    assert r == Shifted(w, r.enter);
    if r.enter < first {
      assert false;
    }
  }

  lemma ClearBehindOne(occupied: seq<Window>, o: Window, w: Window, headway: nat)
    requires Roomy(occupied, headway) && o in occupied && ClearOf(occupied, w)
    requires w.enter == o.exit + headway && w.enter < w.exit
    ensures ClearBehind(occupied, w, headway)
  {
    forall p | p in occupied ensures !Overlaps(Window(w.enter - headway, w.exit), p) {
      assert !Overlaps(w, p) && p.enter + headway < p.exit && o.enter + headway < o.exit;
      assert p == o || !Overlaps(p, o);
    }
  }

  /**
   * Among occupants longer than the headway, the headway is kept exactly when the request runs into somebody or is
   * already clear behind, and the train after the first start that is clear behind is far enough ahead.
   */
  lemma RoomyHeadwayExact(occupied: seq<Window>, w: Window, headway: nat)
    requires Roomy(occupied, headway) && w.enter < w.exit
    ensures KeepsHeadway(occupied, Resolve(occupied, w, headway).window, headway)
       <==> && (!ClearOf(occupied, w) || ClearBehind(occupied, w, headway))
            && KeepsAhead(occupied, Shifted(w, FirstClearBehind(occupied, w, headway)), headway)
  {
    hide BlockingExit, FirstClearBehind, Roomy, KeepsHeadway, KeepsAhead, ClearOf;
    NoBlockingExit(occupied, w);
    RoomyNonEmpty(occupied, headway);
    HeadwayExact(occupied, w, headway);
    FirstClearBehindIsFirst(occupied, w, headway);
    assert Shifted(w, w.enter) == w;
    if BlockingExit(occupied, w).Some? {
      ShiftImposesHeadway(occupied, w, headway);
    }
  }
}
