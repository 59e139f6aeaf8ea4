/** The independent constraint layer that re-checks a printed proposal for segment conflicts. */
module ConflictChecker {
  import opened Collections
  import opened ClockStrings

  /** One step of a train's route as it appears in the proposal; a missing key is the empty string. */
  datatype Action = Action(segmentId: string, enterAt: string, exitAt: string,
                           speedKmh: int, transitMin: int, platform: Option<int>)

  datatype Assignment = Assignment(trainId: string, actions: seq<Action>)

  type Proposal = seq<Assignment>

  /** `_windows_overlap` */
  predicate WindowsOverlap(enterA: string, exitA: string, enterB: string, exitB: string) {
    StrLess(StrMax(enterA, enterB), StrMin(exitA, exitB))
  }

  predicate Complete(a: Action) {
    a.segmentId != "" && a.enterAt != "" && a.exitAt != ""
  }

  predicate Conflicting(a: Action, b: Action) {
    a.segmentId == b.segmentId && WindowsOverlap(a.enterAt, a.exitAt, b.enterAt, b.exitAt)
  }

  /** The complete actions of the proposal in reading order. */
  function CompleteActions(actions: seq<Action>): (r: seq<Action>) {
    if actions == [] then []
    else
      var last := actions[|actions| - 1];
      CompleteActions(actions[..|actions| - 1]) + if Complete(last) then [last] else []
  }

  function Windows(proposal: Proposal): (r: seq<Action>) {
    if proposal == [] then []
    else Windows(proposal[..|proposal| - 1]) + CompleteActions(proposal[|proposal| - 1].actions)
  }

  ghost predicate ConflictFree(proposal: Proposal) {
    var w := Windows(proposal);
    forall i, j :: 0 <= i < j < |w| ==> !Conflicting(w[i], w[j])
  }

  /** `is_conflict_free` */
  method IsConflictFree(proposal: Proposal) returns (ok: bool)
    ensures ok <==> ConflictFree(proposal)
  {
    var windows: seq<Action> := [];
    for i := 0 to |proposal|
      invariant windows == Windows(proposal[..i])
    {
      var actions := proposal[i].actions;
      ghost var before := windows;
      for j := 0 to |actions|
        invariant windows == before + CompleteActions(actions[..j])
      {
        var action := actions[j];
        assert actions[..j + 1][..j] == actions[..j];
        if Complete(action) {
          windows := windows + [action];
        }
      }
      assert actions[..|actions|] == actions;
      assert proposal[..i + 1][..i] == proposal[..i];
    }
    assert proposal[..|proposal|] == proposal;

    for i := 0 to |windows|
      invariant forall a, b :: 0 <= a < i && a < b < |windows| ==> !Conflicting(windows[a], windows[b])
    {
      for j := i + 1 to |windows|
        invariant forall b :: i < b < j ==> !Conflicting(windows[i], windows[b])
      {
        if Conflicting(windows[i], windows[j]) {
          return false;
        }
      }
    }
    return true;
  }

  // ---- What the string test means for the minutes behind the strings ----

  /** A stay on a segment, in absolute minutes. */
  datatype Window = Window(enter: int, exit: int)

  /** The scheduler's own overlap test. */
  predicate Overlaps(a: Window, b: Window) {
    a.enter < b.exit && a.exit > b.enter
  }

  function Max(a: int, b: int): int { if a < b then b else a }

  function Min(a: int, b: int): int { if b < a then b else a }

  predicate PrintedOverlap(a: Window, b: Window) {
    WindowsOverlap(FormatTime(a.enter), FormatTime(a.exit), FormatTime(b.enter), FormatTime(b.exit))
  }

  /** The string test sees only minutes within the day. */
  lemma PrintedOverlapIsModular(a: Window, b: Window)
    ensures PrintedOverlap(a, b) <==>
      Max(a.enter % MINUTES_PER_DAY, b.enter % MINUTES_PER_DAY) < Min(a.exit % MINUTES_PER_DAY, b.exit % MINUTES_PER_DAY)
  {
    hide FormatTime;
    FormatOrder(a.enter, b.enter);
    FormatOrder(b.exit, a.exit);
    FormatOrder(a.enter, a.exit);
    FormatOrder(a.enter, b.exit);
    FormatOrder(b.enter, a.exit);
    FormatOrder(b.enter, b.exit);
  }

  /** Whether midnight falls inside the window (or at its end). */
  predicate Wraps(w: Window) {
    w.enter / MINUTES_PER_DAY < w.exit / MINUTES_PER_DAY
  }

  /**
   * Within any span of 24 hours the string test and the scheduler's test agree on a pair of non-empty windows
   * unless one of them crosses midnight; a window that crosses midnight is never reported.
   */
  lemma PrintedOverlapWithinDay(a: Window, b: Window, start: int)
    requires start <= a.enter < a.exit <= start + MINUTES_PER_DAY
    requires start <= b.enter < b.exit <= start + MINUTES_PER_DAY
    ensures PrintedOverlap(a, b) <==> Overlaps(a, b) && !Wraps(a) && !Wraps(b)
  {
    hide PrintedOverlap;
    PrintedOverlapIsModular(a, b);
    var day := start / MINUTES_PER_DAY;
    SplitDay(a.enter, day);
    SplitDay(a.exit, day);
    SplitDay(b.enter, day);
    SplitDay(b.exit, day);
  }

  lemma SplitDay(t: int, day: int)
    requires day * MINUTES_PER_DAY <= t < (day + 2) * MINUTES_PER_DAY
    ensures t / MINUTES_PER_DAY == if t < (day + 1) * MINUTES_PER_DAY then day else day + 1
    ensures t % MINUTES_PER_DAY == t - t / MINUTES_PER_DAY * MINUTES_PER_DAY
  {
  }

  /** Before midnight the two tests agree on all pairs of non-empty windows. */
  lemma PrintedOverlapSameDay(a: Window, b: Window)
    requires 0 <= a.enter < a.exit < MINUTES_PER_DAY && 0 <= b.enter < b.exit < MINUTES_PER_DAY
    ensures PrintedOverlap(a, b) <==> Overlaps(a, b)
  {
    hide PrintedOverlap;
    PrintedOverlapWithinDay(a, b, 0);
  }

  /** Two overlapping windows that the string test misses, and two windows a day apart that it reports. */
  lemma MidnightBlindness()
    ensures var a, b := Window(1430, 1445), Window(1435, 1450);
            Overlaps(a, b) && !PrintedOverlap(a, b)
    ensures var a, b := Window(600, 610), Window(2040, 2050);
            !Overlaps(a, b) && PrintedOverlap(a, b)
  {
    hide PrintedOverlap;
    PrintedOverlapIsModular(Window(1430, 1445), Window(1435, 1450));
    PrintedOverlapIsModular(Window(600, 610), Window(2040, 2050));
  }
}
