/** The three-state heartbeat machine of the edge node. */
module Heartbeat {

  datatype Mode = Connected | Autonomous | Reconnecting

  const FAILURE_THRESHOLD := 3
  const WINDOW_S := 30.0

  datatype Event =
    | Success
    | Failure(at: real)
    | UploadComplete

  datatype State = State(mode: Mode, failures: seq<real>)

  const INITIAL := State(Connected, [])

  /** The times that lie within the window before `now`, in order. */
  function Recent(times: seq<real>, now: real): (r: seq<real>) {
    if times == [] then []
    else
      var last := times[|times| - 1];
      Recent(times[..|times| - 1], now) + (if now - last <= WINDOW_S then [last] else [])
  }

  function Step(s: State, e: Event): State {
    match e
    case Success => State(if s.mode == Autonomous then Reconnecting else s.mode, [])
    case Failure(now) =>
      var failures := Recent(s.failures, now) + [now];
      State(if s.mode == Connected && |failures| >= FAILURE_THRESHOLD then Autonomous else s.mode, failures)
    case UploadComplete => s.(mode := if s.mode == Reconnecting then Connected else s.mode)
  }

  function Run(events: seq<Event>): State {
    if events == [] then INITIAL else Step(Run(events[..|events| - 1]), events[|events| - 1])
  }

  /** The machine as an object. */
  class HeartbeatFSM {
    var mode: Mode
    var failures: seq<real>
    ghost var history: seq<Event>

    constructor ()
      ensures Valid() && history == []
    {
      mode, failures, history := Connected, [], [];
    }

    ghost function Model(): State
      reads this
    {
      State(mode, failures)
    }

    /** The fields are what the history of events makes them. */
    ghost predicate Valid()
      reads this
    {
      Model() == Run(history)
    }

    /** `record_heartbeat_success` */
    method RecordHeartbeatSuccess() returns (state: Mode)
      requires Valid()
      modifies this
      ensures Valid() && history == old(history) + [Success] && state == mode
    {
      failures := [];
      if mode == Autonomous {
        mode := Reconnecting;
      }
      history := history + [Success];
      assert history[..|history| - 1] == old(history);
      state := mode;
    }

    /** `record_heartbeat_failure` at monotonic time `now` */
    method RecordHeartbeatFailure(now: real) returns (state: Mode)
      requires Valid()
      modifies this
      ensures Valid() && history == old(history) + [Failure(now)] && state == mode
    {
      var kept: seq<real> := [];
      for i := 0 to |failures|
        invariant kept == Recent(failures[..i], now)
      {
        assert failures[..i + 1][..i] == failures[..i];
        if now - failures[i] <= WINDOW_S {
          kept := kept + [failures[i]];
        }
      }
      assert failures[..|failures|] == failures;
      failures := kept + [now];
      if mode == Connected && |failures| >= FAILURE_THRESHOLD {
        mode := Autonomous;
      }
      history := history + [Failure(now)];
      assert history[..|history| - 1] == old(history);
      state := mode;
    }

    /** `record_upload_complete` */
    method RecordUploadComplete() returns (state: Mode)
      requires Valid()
      modifies this
      ensures Valid() && history == old(history) + [UploadComplete] && state == mode
    {
      if mode == Reconnecting {
        mode := Connected;
      }
      history := history + [UploadComplete];
      assert history[..|history| - 1] == old(history);
      state := mode;
    }
  }

  // ---- What the stored list means ----

  /** Heartbeat outcomes only, in order. */
  function Outcomes(events: seq<Event>): (r: seq<Event>) {
    if events == [] then []
    else
      var last := events[|events| - 1];
      Outcomes(events[..|events| - 1]) + (if last.UploadComplete? then [] else [last])
  }

  /** Times of the failures at the end of a run of outcomes, after the last success. */
  function TrailingFailures(outcomes: seq<Event>): (r: seq<real>) {
    if outcomes == [] then []
    else
      var last := outcomes[|outcomes| - 1];
      if last.Failure? then TrailingFailures(outcomes[..|outcomes| - 1]) + [last.at] else []
  }

  /** The monotonic clock: failure times never decrease along the run. */
  ghost predicate Monotone(events: seq<Event>) {
    forall i, j :: 0 <= i < j < |events| && events[i].Failure? && events[j].Failure? ==> events[i].at <= events[j].at
  }

  ghost predicate Ascending(times: seq<real>) {
    forall i, j :: 0 <= i < j < |times| ==> times[i] <= times[j]
  }

  lemma {:induction false} OutcomesAreEvents(events: seq<Event>)
    ensures forall e :: e in Outcomes(events) ==> e in events
  {
    if events != [] {
      OutcomesAreEvents(events[..|events| - 1]);
    }
  }

  lemma {:induction false} TrailingAreOutcomes(outcomes: seq<Event>)
    ensures forall t :: t in TrailingFailures(outcomes) ==> Failure(t) in outcomes
  {
    if outcomes != [] {
      TrailingAreOutcomes(outcomes[..|outcomes| - 1]);
    }
  }

  lemma {:induction false} TrailingAscending(events: seq<Event>)
    requires Monotone(events)
    ensures Ascending(TrailingFailures(Outcomes(events)))
  {
    if events != [] {
      var n := |events| - 1;
      var front, last := events[..n], events[n];
      TrailingAscending(front);
      if last.UploadComplete? {
        assert Outcomes(events) == Outcomes(front);
      } else {
        assert Outcomes(events)[..|Outcomes(events)| - 1] == Outcomes(front);
        if last.Failure? {
          var p := TrailingFailures(Outcomes(front));
          forall k | 0 <= k < |p| ensures p[k] <= last.at {
            TrailingAreOutcomes(Outcomes(front));
            OutcomesAreEvents(front);
            assert p[k] in p;
            var i :| 0 <= i < n && front[i] == Failure(p[k]);
            assert events[i] == Failure(p[k]);
          }
        }
      }
    }
  }

  /** Pruning twice, the second time at a later moment, is pruning once. */
  lemma {:induction false} RecentTwice(times: seq<real>, earlier: real, later: real)
    requires earlier <= later
    ensures Recent(Recent(times, earlier), later) == Recent(times, later)
  {
    if times != [] {
      var n := |times| - 1;
      RecentTwice(times[..n], earlier, later);
      if earlier - times[n] <= WINDOW_S {
        RecentAppend(Recent(times[..n], earlier), times[n], later);
      } else {
        assert Recent(times, earlier) == Recent(times[..n], earlier);
        assert Recent(times, later) == Recent(times[..n], later);
      }
    }
  }

  lemma RecentAppend(times: seq<real>, t: real, now: real)
    ensures Recent(times + [t], now) == Recent(times, now) + (if now - t <= WINDOW_S then [t] else [])
  {
    assert (times + [t])[..|times|] == times;
  }

  function LastOf(times: seq<real>): real
    requires times != []
  {
    times[|times| - 1]
  }

  /** The stored list is the failures since the last success that lie within 30 s of the latest of them. */
  lemma {:induction false} StoredFailures(events: seq<Event>)
    requires Monotone(events)
    ensures var since := TrailingFailures(Outcomes(events));
            Run(events).failures == if since == [] then [] else Recent(since, LastOf(since))
  {
    if events != [] {
      var n := |events| - 1;
      var front, last := events[..n], events[n];
      StoredFailures(front);
      var since := TrailingFailures(Outcomes(front));
      if last.UploadComplete? {
        assert Outcomes(events) == Outcomes(front);
      } else {
        assert Outcomes(events)[..|Outcomes(events)| - 1] == Outcomes(front);
        if last.Failure? {
          TrailingAscending(events);
          assert TrailingFailures(Outcomes(events)) == since + [last.at];
          RecentAppend(since, last.at, last.at);
          if since != [] {
            assert LastOf(since) <= last.at by {
              assert (since + [last.at])[|since| - 1] == LastOf(since);
            }
            RecentTwice(since, LastOf(since), last.at);
          }
        }
      }
    }
  }

  /** Of ascending times, at least k are recent exactly when the k-th from the end is. */
  lemma {:induction false} RecentCount(times: seq<real>, now: real, k: nat)
    requires Ascending(times) && 1 <= k
    ensures |Recent(times, now)| <= |times|
    ensures |Recent(times, now)| >= k <==> |times| >= k && now - times[|times| - k] <= WINDOW_S
  {
    if times != [] {
      var n := |times| - 1;
      if k > 1 {
        RecentCount(times[..n], now, k - 1);
      } else {
        RecentCount(times[..n], now, 1);
      }
    }
  }

  /** The last three heartbeat outcomes are failures within 30 s of each other. */
  ghost predicate ThreeFailuresInWindow(events: seq<Event>) {
    var o := Outcomes(events);
    var n := |o|;
    && n >= 3
    && o[n - 1].Failure? && o[n - 2].Failure? && o[n - 3].Failure?
    && o[n - 1].at - o[n - 3].at <= WINDOW_S
  }

  lemma TrailingLast(outcomes: seq<Event>, now: real)
    ensures var t := TrailingFailures(outcomes + [Failure(now)]); t != [] && LastOf(t) == now
  {
  }

  lemma TrailingThree(outcomes: seq<Event>)
    requires outcomes != [] && outcomes[|outcomes| - 1].Failure?
    ensures var t, n := TrailingFailures(outcomes), |outcomes|;
            && (|t| >= 3 <==> n >= 3 && outcomes[n - 2].Failure? && outcomes[n - 3].Failure?)
            && (|t| >= 3 ==> t[|t| - 3] == outcomes[n - 3].at && t[|t| - 1] == outcomes[n - 1].at)
  {
    var n := |outcomes|;
    var a := outcomes[..n - 1];
    assert TrailingFailures(outcomes) == TrailingFailures(a) + [outcomes[n - 1].at];
    if n >= 2 {
      var b := outcomes[..n - 2];
      assert a[..n - 2] == b;
      if outcomes[n - 2].Failure? {
        assert TrailingFailures(a) == TrailingFailures(b) + [outcomes[n - 2].at];
        if n >= 3 {
          var c := outcomes[..n - 3];
          assert b[..n - 3] == c;
          assert TrailingFailures(b) ==
            if outcomes[n - 3].Failure? then TrailingFailures(c) + [outcomes[n - 3].at] else [];
        }
      }
    }
  }

  /**
   * With a monotonic clock, a failure takes a connected node into autonomous mode exactly when
   * the last three heartbeat outcomes were failures within 30 s.
   */
  lemma AutonomousExactly(events: seq<Event>, now: real)
    requires Monotone(events + [Failure(now)]) && Run(events).mode == Connected
    ensures Run(events + [Failure(now)]).mode == Autonomous <==> ThreeFailuresInWindow(events + [Failure(now)])
  {
    hide Recent, Monotone, Ascending, TrailingFailures;
    var all := events + [Failure(now)];
    assert all[..|events|] == events;
    StoredFailures(all);
    TrailingAscending(all);
    var o := Outcomes(all);
    assert o == Outcomes(events) + [Failure(now)];
    var since := TrailingFailures(o);
    TrailingLast(Outcomes(events), now);
    RecentCount(since, now, 3);
    TrailingThree(o);
  }

  /**
   * The mode changes exactly on three occasions, each one place round the cycle: three failures in the window while
   * connected, a success while autonomous, and the end of the upload while reconnecting.
   */
  lemma ModesCycle(events: seq<Event>, e: Event)
    requires Monotone(events + [e])
    ensures var from, to := Run(events).mode, Run(events + [e]).mode;
            && (from == Connected ==> to == if e.Failure? && ThreeFailuresInWindow(events + [e]) then Autonomous else Connected)
            && (from == Autonomous ==> to == if e == Success then Reconnecting else Autonomous)
            && (from == Reconnecting ==> to == if e == UploadComplete then Connected else Reconnecting)
  {
    assert (events + [e])[..|events|] == events;
    if e.Failure? && Run(events).mode == Connected {
      AutonomousExactly(events, e.at);
    }
  }
}
