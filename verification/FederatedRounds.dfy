/** The federated coordinator: rounds, admission of updates, clipping, and completion. */
module FederatedRounds {
  import opened RealMath
  import opened Aggregation

  datatype Config = Config(
    fedProx: bool,
    fedproxMu: real,
    minParticipants: nat,
    maxParticipants: nat,
    maxGradientMagnitude: real,
    partialThreshold: real,
    dpEnabled: bool,
    epsilonPerRound: real,
    totalBudget: real,
    maxGradNorm: real)

  datatype RoundStatus = Collecting | Aggregating | Completed | Failed

  datatype Reply =
    | NoActiveRound
    | NotAParticipant
    | AlreadySubmitted
    | MagnitudeExceeded
    | DriftDetected
    | Accepted(submissions: nat, total: nat)

  // ---- Clipping ----

  /** `clip_gradients` */
  function Clip(g: Vector, maxNorm: real, sqrt: real -> real): (r: Vector)
    requires maxNorm >= 0.0
    ensures |r| == |g|
  {
    var norm := sqrt(SumSquares(g));
    if norm > maxNorm then Scaled(g, maxNorm / norm) else g
  }

  lemma {:induction false} ScaledNorm(v: Vector, s: real)
    ensures SumSquares(Scaled(v, s)) == Times(SumSquares(v), Square(s))
  {
    hide SumSquares, Scaled, Square, Times;
    SumSquaresCons(0.0, []);
    SquareProduct(0.0, Square(s), 0.0);
    if v == [] {
      assert Scaled(v, s) == [];
    } else {
      var x, t := v[0], v[1..];
      ScaledNorm(t, s);
      assert v == [x] + t;
      ScaledCons(x, t, s);
      SumSquaresCons(x, t);
      SumSquaresCons(Times(x, s), Scaled(t, s));
      SquareProduct(x, s, SumSquares(t));
    }
  }

  lemma ScaledCons(x: real, t: Vector, s: real)
    ensures Scaled([x] + t, s) == [Times(x, s)] + Scaled(t, s)
  {
    hide Times;
  }

  lemma SquareProduct(x: real, s: real, r: real)
    ensures Square(Times(x, s)) + Times(r, Square(s)) == Times(Square(x) + r, Square(s))
    ensures Times(0.0, s) == 0.0
  {
  }

  /** Clipping keeps the direction, and shortens exactly the vectors that are too long, to exactly the bound. */
  lemma ClipMeetsBound(g: Vector, maxNorm: real, sqrt: real -> real)
    requires IsSquareRoot(sqrt) && maxNorm >= 0.0
    ensures SumSquares(Clip(g, maxNorm, sqrt)) <= Square(maxNorm)
    ensures SumSquares(g) <= Square(maxNorm) ==> Clip(g, maxNorm, sqrt) == g
    ensures SumSquares(g) > Square(maxNorm) ==> SumSquares(Clip(g, maxNorm, sqrt)) == Square(maxNorm)
    ensures exists s :: 0.0 <= s <= 1.0 && Clip(g, maxNorm, sqrt) == Scaled(g, s)
  {
    hide SumSquares, Scaled;
    var q := SumSquares(g);
    var norm := sqrt(q);
    if norm > maxNorm {
      var s := maxNorm / norm;
      assert s * norm == maxNorm;
      QuotientInUnit(maxNorm, norm);
      ScaledNorm(g, s);
      ScaledSquare(norm, s);
      StrictSquare(norm, maxNorm);
      assert Clip(g, maxNorm, sqrt) == Scaled(g, s);
    } else {
      SquareMonotone(norm, maxNorm);
      assert Scaled(g, 1.0) == g;
    }
  }

  lemma QuotientInUnit(a: real, b: real)
    requires 0.0 <= a < b
    ensures 0.0 <= a / b <= 1.0
  {
    var s := a / b;
    assert s * b == a;
    if s > 1.0 {
      StrictProduct(s - 1.0, b);
    } else if s < 0.0 {
      StrictProduct(-s, b);
    }
  }

  lemma ScaledSquare(n: real, s: real)
    ensures (n * n) * Square(s) == Square(s * n)
  {
  }

  lemma SquareMonotone(a: real, b: real)
    requires 0.0 <= a <= b
    ensures a * a <= Square(b)
  {
    if a < b {
      StrictSquare(b, a);
    }
  }

  // ---- Noise ----

  function Sum(a: Vector, b: Vector): (r: Vector)
    requires |a| == |b|
    ensures |r| == |a| && forall i :: 0 <= i < |a| ==> r[i] == a[i] + b[i]
  {
    seq(|a|, i requires 0 <= i < |a| => a[i] + b[i])
  }

  // ---- Rounds ----

  class Round {
    const number: nat
    const participants: seq<string>
    var status: RoundStatus
    var updates: seq<StationUpdate>
    var excluded: seq<string>
    var aggregated: seq<real>
    ghost var noisy: bool  // some stored update had noise added

    constructor (number: nat, participants: seq<string>)
      ensures this.number == number && this.participants == participants
      ensures status == Collecting && updates == [] && excluded == [] && aggregated == [] && !noisy
    {
      this.number, this.participants := number, participants;
      status, updates, excluded, aggregated, noisy := Collecting, [], [], [], false;
    }

    ghost predicate Proper(limit: real)
      reads this
    {
      ProperUpdates(participants, updates, noisy, limit)
    }
  }

  /** Every update comes from a participant, no station has two, and without noise all meet the length limit. */
  ghost predicate ProperUpdates(participants: seq<string>, updates: seq<StationUpdate>, noisy: bool, limit: real) {
    && (forall u :: u in updates ==> u.stationId in participants)
    && (forall i, j :: 0 <= i < j < |updates| ==> updates[i].stationId != updates[j].stationId)
    && (!noisy ==> forall u :: u in updates ==> SumSquares(u.gradients) <= limit)
  }

  lemma ProperAppend(participants: seq<string>, updates: seq<StationUpdate>, noisy: bool, limit: real,
                     u: StationUpdate, alsoNoisy: bool)
    requires ProperUpdates(participants, updates, noisy, limit)
    requires u.stationId in participants && !HasUpdate(updates, u.stationId)
    requires !alsoNoisy ==> SumSquares(u.gradients) <= limit
    ensures ProperUpdates(participants, updates + [u], noisy || alsoNoisy, limit)
  {
    hide SumSquares;
    forall i | 0 <= i < |updates| ensures updates[i].stationId != u.stationId {
      assert updates[i] in updates;
    }
  }

  predicate ProperConfig(config: Config) {
    config.maxGradNorm >= 0.0 && (config.fedProx ==> 0.0 <= config.fedproxMu <= 1.0)
  }

  /** The squared length no noise-free stored update exceeds. */
  function Limit(config: Config): real {
    if config.dpEnabled then Square(config.maxGradNorm) else Square(config.maxGradientMagnitude)
  }

  predicate HasUpdate(updates: seq<StationUpdate>, stationId: string) {
    exists u :: u in updates && u.stationId == stationId
  }

  class Coordinator {
    const config: Config
    var current: Round?
    var history: seq<Round>
    var roundCounter: nat
    var spentBudget: real
    var roundsApplied: nat

    constructor (config: Config)
      requires ProperConfig(config)
      ensures this.config == config && current == null && history == []
      ensures roundCounter == 0 && spentBudget == 0.0 && roundsApplied == 0
      ensures Valid()
    {
      this.config := config;
      current, history, roundCounter, spentBudget, roundsApplied := null, [], 0, 0.0, 0;
    }

    ghost predicate Valid()
      reads this, current
    {
      && ProperConfig(config)
      && (current != null ==> current.status == Collecting && current !in history && current.Proper(Limit(config)))
      && spentBudget == roundsApplied as real * config.epsilonPerRound
    }

    predicate BudgetExhausted()
      reads this
    {
      spentBudget >= config.totalBudget
    }

    /** `start_round`: fails while a round is open, or with too few participants (the counter has then moved on). */
    method StartRound(participants: seq<string>) returns (round: Round?)
      requires Valid()
      modifies this
      ensures Valid() && history == old(history) && unchanged(`spentBudget, `roundsApplied)
      ensures var eligible := if |participants| > config.maxParticipants then participants[..config.maxParticipants] else participants;
              if old(current) != null then round == null && current == old(current) && roundCounter == old(roundCounter)
              else if |eligible| < config.minParticipants then
                round == null && current == null && roundCounter == old(roundCounter) + 1
              else
                && round != null && fresh(round) && current == round
                && roundCounter == round.number == old(roundCounter) + 1
                && round.participants == eligible && round.updates == []
    {
      if current != null && current.status != Completed && current.status != Failed {
        return null;
      }
      roundCounter := roundCounter + 1;
      var eligible := if |participants| > config.maxParticipants then participants[..config.maxParticipants] else participants;
      if |eligible| < config.minParticipants {
        return null;
      }
      round := new Round(roundCounter, eligible);
      current := round;
    }

    /** The gradients that are stored: clipped, and noisy while the privacy budget lasts. */
    function Processed(g: Vector, noise: Vector, sqrt: real -> real): (r: Vector)
      requires |noise| == |g| && config.maxGradNorm >= 0.0
      reads this
    {
      if !config.dpEnabled then g
      else if BudgetExhausted() then Clip(g, config.maxGradNorm, sqrt)
      else Sum(Clip(g, config.maxGradNorm, sqrt), noise)
    }

    /** Whether the submissions suffice to aggregate. */
    predicate EnoughSubmissions(submissions: nat, total: nat): (enough: bool)
      requires total > 0
      ensures enough <==> submissions == total || submissions as real >= config.partialThreshold * total as real
    {
      ShareAtLeast(submissions as real, total as real, config.partialThreshold);
      submissions == total || submissions as real / total as real >= config.partialThreshold
    }

    /** `submit_update`; the drift verdict and the noise sample are supplied by the environment. */
    method SubmitUpdate(stationId: string, gradients: Vector, sampleCount: nat, drifted: bool, noise: Vector,
                        sqrt: real -> real)
      returns (reply: Reply)
      requires Valid() && |noise| == |gradients| && IsSquareRoot(sqrt)
      modifies this, current
      ensures Valid() && unchanged(`roundCounter)
      ensures old(current) == null ==> reply == NoActiveRound && unchanged(this)
      ensures old(current) != null ==>
        var rd := old(current);
        reply == (
          if stationId !in rd.participants then NotAParticipant
          else if HasUpdate(old(rd.updates), stationId) then AlreadySubmitted
          else if sqrt(SumSquares(gradients)) > config.maxGradientMagnitude then MagnitudeExceeded
          else if drifted then DriftDetected
          else Accepted(|old(rd.updates)| + 1, |rd.participants|))
      ensures old(current) != null && !reply.Accepted? ==>
        && unchanged(this)
        && var rd := old(current);
           rd.updates == old(rd.updates) && rd.status == Collecting
           && rd.excluded == if reply.DriftDetected? then old(rd.excluded) + [stationId] else old(rd.excluded)
      ensures reply.Accepted? ==>
        var rd := old(current);
        && rd.excluded == old(rd.excluded)
        && rd.noisy == (old(rd.noisy) || (config.dpEnabled && !old(BudgetExhausted())))
        && rd.updates == old(rd.updates) + [StationUpdate(stationId, old(Processed(gradients, noise, sqrt)), sampleCount)]
        && roundsApplied == old(roundsApplied) + (if config.dpEnabled && !old(BudgetExhausted()) then 1 else 0)
        && if EnoughSubmissions(|rd.updates|, |rd.participants|)
           then current == null && Finished(rd) && history == old(history) + [rd]
           else current == rd && history == old(history)
    {
      hide Clip, Sum, SumSquares, Square, Limit, IsSquareRoot, Aggregate, ProperUpdates, HasUpdate;
      if current == null {
        return NoActiveRound;
      }
      var rd := current;
      if stationId !in rd.participants {
        return NotAParticipant;
      }
      if HasUpdate(rd.updates, stationId) {
        return AlreadySubmitted;
      }
      var gradNorm := sqrt(SumSquares(gradients));
      if gradNorm > config.maxGradientMagnitude {
        return MagnitudeExceeded;
      }
      if drifted {
        rd.excluded := rd.excluded + [stationId];
        return DriftDetected;
      }
      var processed := gradients;
      AdmittedMeetsLimit(config, gradients, sqrt);
      if config.dpEnabled {
        processed := Clip(gradients, config.maxGradNorm, sqrt);
        if !BudgetExhausted() {
          processed := Sum(processed, noise);
          OneMoreRound(roundsApplied, config.epsilonPerRound);
          spentBudget := spentBudget + config.epsilonPerRound;
          roundsApplied := roundsApplied + 1;
          rd.noisy := true;
        }
      }
      var update := StationUpdate(stationId, processed, sampleCount);
      ProperAppend(rd.participants, rd.updates, old(rd.noisy), Limit(config), update,
                   config.dpEnabled && !old(BudgetExhausted()));
      rd.updates := rd.updates + [update];
      var submissions, total := |rd.updates|, |rd.participants|;
      if submissions == total || submissions as real / total as real >= config.partialThreshold {
        AggregateRound();
      }
      return Accepted(submissions, total);
    }

    /** The round carries the aggregate of its own updates, which without noise meets the length limit too. */
    ghost predicate Finished(rd: Round)
      reads rd
    {
      && rd.status == Completed && rd.updates != []
      && rd.aggregated == Aggregate(rd.updates, if config.fedProx then config.fedproxMu else 0.0)
      && (!rd.noisy ==> SumSquares(rd.aggregated) <= Limit(config))
    }

    /** `_aggregate` */
    method AggregateRound()
      requires Valid() && current != null && current.updates != []
      modifies this, current
      ensures Valid() && current == null && history == old(history) + [old(current)]
      ensures Finished(old(current))
      ensures var rd := old(current); rd.updates == old(rd.updates) && rd.excluded == old(rd.excluded) && rd.noisy == old(rd.noisy)
      ensures unchanged(`roundCounter, `spentBudget, `roundsApplied)
    {
      var rd := current;
      rd.status := Aggregating;
      var aggregated := ComputeAggregate(rd.updates, config.fedProx, config.fedproxMu);
      rd.aggregated := aggregated[..];
      if !rd.noisy {
        AggregateNorm(rd.updates, if config.fedProx then config.fedproxMu else 0.0, Limit(config));
      }
      rd.status := Completed;
      history := history + [rd];
      current := null;
    }

    /** `force_timeout` */
    method ForceTimeout()
      requires Valid()
      modifies this, current
      ensures Valid() && current == null
      ensures old(current) == null ==> unchanged(this)
      ensures old(current) != null ==>
        var rd := old(current);
        && history == old(history) + [rd] && rd.updates == old(rd.updates)
        && if old(rd.updates) == [] then rd.status == Failed else Finished(rd)
    {
      if current != null && current.updates != [] {
        AggregateRound();
      } else if current != null {
        current.status := Failed;
        history := history + [current];
        current := null;
      }
    }
  }

  lemma ShareAtLeast(a: real, b: real, threshold: real)
    requires b > 0.0
    ensures a / b >= threshold <==> a >= threshold * b
  {
    var q := a / b;
    assert q * b == a;
    if q >= threshold {
      ProductNonNegative(q - threshold, b);
    } else {
      StrictProduct(threshold - q, b);
    }
  }

  lemma OneMoreRound(n: nat, e: real)
    ensures (n + 1) as real * e == n as real * e + e
  {
  }

  /** What passes the magnitude check, and is clipped when privacy is on, meets the limit. */
  lemma AdmittedMeetsLimit(config: Config, g: Vector, sqrt: real -> real)
    requires ProperConfig(config) && IsSquareRoot(sqrt) && sqrt(SumSquares(g)) <= config.maxGradientMagnitude
    ensures SumSquares(if config.dpEnabled then Clip(g, config.maxGradNorm, sqrt) else g) <= Limit(config)
  {
    hide SumSquares, Clip, Square;
    if config.dpEnabled {
      ClipMeetsBound(g, config.maxGradNorm, sqrt);
    } else {
      SquareMonotone(sqrt(SumSquares(g)), config.maxGradientMagnitude);
    }
  }
}
