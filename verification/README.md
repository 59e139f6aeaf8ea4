# RailOS-X kernels in Dafny

RailOS-X wraps a number of algorithmic kernels in thin service shells. This project models those kernels and proves
what they compute, what their state keeps over every run, and where the code does less than its comments and design
notes say. Arithmetic on measurements is over exact reals; minutes, counters and indices are integers.

The modules follow the repository:

- `Complex.dfy`, `Fourier.dfy`, `FourierInversion.dfy`, `Envelope.dfy`, `Haar.dfy` — the micro-edge signal processor.
- `TrainClasses.dfy`, `ClockStrings.dfy`, `ConflictChecker.dfy`, `SlotShifting.dfy`, `Rescheduling.dfy`,
  `ProposalSafety.dfy`, `ProposalAvailability.dfy`, `CorridorFacts.dfy`, `HeadwayGuarantee.dfy`, `TimetableContents.dfy`, `ProposalLimits.dfy` — the rescheduling engine and its independent constraint layer.
- `Aggregation.dfy`, `FederatedRounds.dfy` — the federated coordinator.
- `Braking.dfy`, `BrakingLaws.dfy` — the Kavach++ braking integrator and advisory.
- `RiskScoring.dfy`, `StableSorting.dfy`, `GateProtocol.dfy`, `GateOutcomes.dfy`, `Gate.dfy` — the human authorization gate.
- `BufferProtocol.dfy`, `EdgeBuffer.dfy`, `EdgeUploader.dfy`, `Heartbeat.dfy` — edge autonomy.
- `SampleRing.dfy`, `SampleStatistics.dfy` — streaming sensor state.
- `Collections.dfy`, `RealMath.dfy` — shared definitions.

## How the environment appears

- The twiddle factors `exp(-2 pi i / n)` are a parameter `root` with `root(1) = 1`, `root(2) = -1` and
  `root(2p)^2 = root(p)` for every power of two `p`. Half turns, full turns and unit modulus are derived from that.
- `math.sqrt` is a parameter that returns an exact non-negative root; `math.sqrt(2)` is a number `s` with `s * s = 2`;
  `math.exp` in the braking model is an arbitrary function, except that adhesion and fade are ordered by a growing one; the gradient is
  given by its cosine and sine.
- The clock, the drift verdict and the privacy noise are inputs; the pipeline answers by an arbitrary function of what
  was posted to it before.
- Handlers that hold a lock are single steps. The SQLite table is a sequence of rows; ties of timestamp may be broken
  in any way; timestamps are integers in the order of their text.
- Complete logs of presses, decisions, forwards, acknowledgements and evictions are ghost state.

## What the code does differently from its comments

- Headway (`services/marl_scheduler/service/scheduler_service.py:180`): it is imposed only when a window is shifted. At
  stations nobody is ever shifted and the trains stand two minutes apart, so under the default of three minutes no
  timetable of two or more trains keeps the headway (`HeadwayGuarantee.HeadwayKeptExactly`); on the line it is lost
  exactly when a train asks to follow close (`HeadwayGuarantee.GeneratedLineHeadway`). The only headway that every
  timetable keeps is less than a minute (`HeadwayGuarantee.HeadwayGuaranteed`).
- The train scheduled first, which is never shifted, enters the first segment and a station further on in the same
  minute, because station slots are counted from the base time and not from the train's own running time
  (`ProposalLimits.FirstTrainInTwoPlaces`). A shift on one segment changes nothing on the segments after it
  (`ProposalLimits.ShiftsStayOnTheirSegment`). The `capacity` of a segment is never consulted.
- Printed times wrap at midnight: the constraint layer never reports a window that crosses midnight, and refuses
  windows a day apart (`ConflictChecker.MidnightBlindness`, `ProposalLimits.DayApartRefused`), so that under the
  default headway 148 trains are too many, or 210 with the first segment blocked (`ProposalLimits.DefaultHeadwayRefused`). Within 24 hours of the
  base time neither can hurt a generated proposal (`ProposalSafety.GeneratedAccepted`).
- Every Jan-Shatabdi is scheduled as a Shatabdi (`TrainClasses.JanShatabdiNeverFound`).
- With only empty samples the federated aggregate is the zero vector, although the divisor falls back to the number of
  updates (`Aggregation.NoSamplesAggregateZero`). Without damping, and with samples, no quasi-convex loss is larger at
  the aggregate than at the worst update; with any damping, or without samples, that fails
  (`Aggregation.NeverWorseExactly`). Once the privacy budget is spent, updates are stored clipped but without noise.
- The risk score leaves [0, 4] exactly for negative probabilities (`RiskScoring.RiskScoreBounds`).
- The audit log keeps 100 records, so the record of a forwarded advisory disappears after 100 further decisions
  (`GateProtocol.ForwardedIsAudited`).
- Writing a duplicate into a full buffer still evicts an event (`BufferProtocol.DuplicateWriteHarmless`).
- A drain pass stops at the failure that fills a batch, leaving newer events untried
  (`EdgeUploader.Drain`, `EdgeUploader.StarvedExactly`).

## Model

| member | source | states |
|---|---|---|
| Fourier.FftRecursive | services/edge_compute/micro_edge/signal_processor.py:46-63 | for every power-of-two length the recursive radix-2 transform is, at every k, the defining sum of x[j] * w^(j k) |
| Fourier.Butterfly | services/edge_compute/micro_edge/signal_processor.py:53-62 | outputs k and k + n/2 of the defining sum come from the half-length sums over even and odd samples by one multiplication, an addition and a subtraction |
| Fourier.PairDft | services/edge_compute/micro_edge/signal_processor.py:51-52 | the shortcut for two samples is the defining sum too |
| Fourier.DftAtIsPoly | services/edge_compute/micro_edge/signal_processor.py:46-63 | the defining sum at k is the polynomial with the samples as coefficients, evaluated at w^k |
| Fourier.PolySplit | services/edge_compute/micro_edge/signal_processor.py:54-55 | a polynomial of even length splits into even and odd coefficients in the squared argument |
| Fourier.HalfTurn | services/edge_compute/micro_edge/signal_processor.py:60 | the n-th root reaches -1 after n/2 steps and 1 after n, for every power of two n >= 2 |
| Fourier.UnitModulus | services/edge_compute/micro_edge/signal_processor.py:60 | every twiddle factor times its conjugate is one |
| Fourier.PaddedLength | services/edge_compute/micro_edge/signal_processor.py:39-41 | the padding loop ends at the least power of two that is at least n and at least one |
| Fourier.Fft | services/edge_compute/micro_edge/signal_processor.py:31-43 | the spectrum has the least sufficient power-of-two length and is the defining sum of the zero-padded signal |
| FourierInversion.OutputsByParity | services/edge_compute/micro_edge/signal_processor.py:46-63 | even and odd outputs of a transform are half-length transforms of the folded sum and of the twisted folded difference |
| FourierInversion.Inversion | services/edge_compute/micro_edge/signal_processor.py:413-416 | transforming a spectrum with the conjugate roots gives back n times every sample |
| FourierInversion.ConjugateTrick | services/edge_compute/micro_edge/signal_processor.py:413-416 | conjugating before and after a transform is transforming with the conjugate roots |
| FourierInversion.InverseTransform | services/edge_compute/micro_edge/signal_processor.py:413-416 | conj(fft(conj(fft(x)))) / n = x for every x of power-of-two length |
| Envelope.RealSpectrumSymmetric | services/edge_compute/micro_edge/signal_processor.py:404-411 | the spectrum of a real signal is conjugate-symmetric about frequency zero |
| Envelope.AnalyticRealPart | services/edge_compute/micro_edge/signal_processor.py:390-420 | zeroing negative and doubling positive frequencies leaves the real part of every sample equal to the signal |
| Envelope.AnalyticSpectrum | services/edge_compute/micro_edge/signal_processor.py:406-416 | the analytic signal has exactly the one-sided spectrum it was built from |
| Envelope.HilbertEnvelope | services/edge_compute/micro_edge/signal_processor.py:390-420 | the loops deliver the magnitude of the analytic signal, one value per input sample, each at least the sample's absolute value |
| HaarWavelet.HaarDwt | services/edge_compute/micro_edge/signal_processor.py:125-152 | the nested loops compute the recursive transform: details level by level, then the last approximation |
| HaarWavelet.LevelCount | services/edge_compute/micro_edge/signal_processor.py:136-138 | a level is computed if and only if it is requested and one of its blocks of 2^level samples fits into the signal |
| HaarWavelet.CoefficientsAre | services/edge_compute/micro_edge/signal_processor.py:125-152 | in terms of the samples: every level has one detail per whole block, first half less second half over sqrt(2)^level, and the approximation is the block sums of the last level |
| HaarWavelet.LevelEnergy | services/edge_compute/micro_edge/signal_processor.py:141-147 | one level keeps the sum of squares except the square of a last unpaired sample |
| HaarWavelet.EnergyConserved | services/edge_compute/micro_edge/signal_processor.py:125-152 | over all levels the energy is the signal's minus exactly the squares dropped at odd lengths |
| HaarWavelet.InverseIsPrefix | services/edge_compute/micro_edge/signal_processor.py:125-152 | the inverse transform returns exactly the leading samples that survive every level |
| HaarWavelet.ReconstructionExact | services/edge_compute/micro_edge/signal_processor.py:125-152 | the inverse returns the whole signal if and only if its length divides by two once for every level computed |
| HaarWavelet.WaveletEnergyConserved | services/edge_compute/micro_edge/signal_processor.py:155-162 | the reported mean energies, weighted by the number of coefficients, account for the signal's energy less the dropped squares |
| TrainClasses.FoundIffNotShadowed | services/marl_scheduler/service/scheduler_service.py:134-139 | a class can be returned for some train id if and only if no earlier class name occurs inside its own |
| TrainClasses.ClassOfExactly | services/marl_scheduler/service/scheduler_service.py:134-139 | a train's class is the first that its id mentions, and Express at 100 km/h if it mentions none |
| TrainClasses.JanShatabdiNeverFound | services/marl_scheduler/service/scheduler_service.py:121-139 | no train id is ever classified as Jan-Shatabdi |
| TrainClasses.SchedulingOrderIsStableSort | services/marl_scheduler/service/scheduler_service.py:183-190 | the scheduling order is a permutation of the request, or of three placeholders for an empty one, by ascending priority number, stable among equals |
| ClockStrings.FormatOrder | services/marl_scheduler/service/scheduler_service.py:266-270 | printed times compare as strings exactly as their minutes within the day compare as numbers |
| ClockStrings.FormatReads | services/marl_scheduler/service/scheduler_service.py:266-270 | the printed text reads as hour of the day, minute and no seconds |
| ConflictChecker.IsConflictFree | services/marl_scheduler/constraints/conflict_checker.py:23-43 | true exactly when no two complete actions of the proposal name the same segment with overlapping printed windows |
| ConflictChecker.PrintedOverlapIsModular | services/marl_scheduler/constraints/conflict_checker.py:15-17 | the max/min string test sees the minutes modulo one day and nothing else |
| ConflictChecker.PrintedOverlapWithinDay | services/marl_scheduler/constraints/conflict_checker.py:15-17 | within any 24 hours the string test agrees with the scheduler's overlap test exactly on pairs that do not cross midnight, and never reports one that does |
| ConflictChecker.PrintedOverlapSameDay | services/marl_scheduler/constraints/conflict_checker.py:15-17 | before midnight the string test equals the scheduler's overlap test on non-empty windows |
| ConflictChecker.MidnightBlindness | services/marl_scheduler/service/scheduler_service.py:267-270 | two overlapping windows the string test misses, and two windows a day apart it reports |
| SlotShifting.ShiftMakesProgress | services/marl_scheduler/service/scheduler_service.py:233-252 | every shift moves the window later and leaves strictly fewer occupants ahead of it |
| SlotShifting.ResolveConflicts | services/marl_scheduler/service/scheduler_service.py:238-254 | the `while True` loop ends, and returns the resolved window, its total shift and the number of shifts |
| SlotShifting.ResolveSafe | services/marl_scheduler/service/scheduler_service.py:233-252 | the resolved window overlaps nobody, keeps its length, is never early, and took at most one shift per occupant still ahead |
| SlotShifting.ResolveEarliest | services/marl_scheduler/service/scheduler_service.py:233-252 | no earlier start from the request on would have been clear with the headway kept behind the trains before |
| SlotShifting.PassesAreShifts | services/marl_scheduler/service/scheduler_service.py:238-252 | the counter is the number of shifts, each to the headway behind the latest exit among the occupants in the way |
| SlotShifting.HeadwayExact | services/marl_scheduler/service/scheduler_service.py:238-252 | whatever the occupants, the headway to all of them is kept if and only if the loop lands on the first start clear behind and the next train is far enough ahead; a request that overlaps nobody lands there only if it was clear behind already |
| SlotShifting.RoomyHeadwayExact | services/marl_scheduler/service/scheduler_service.py:238-252 | among disjoint occupants longer than the headway: kept if and only if the request overlaps somebody or is clear behind, and the train after the first such start is far enough ahead |
| HeadwayGuarantee.StationSlots | services/marl_scheduler/service/scheduler_service.py:221-252 | at a station nobody is ever shifted: train k has the minutes 4k to 4k + 2 after the base time |
| HeadwayGuarantee.StationHeadway | services/marl_scheduler/service/scheduler_service.py:221-252 | at a station two or more trains keep the headway if and only if it is at most two minutes |
| HeadwayGuarantee.GeneratedLineHeadway | services/marl_scheduler/service/scheduler_service.py:221-252 | up to four minutes of headway, trains of any request never overtake on an open-line segment, and lose the headway there if and only if one asks to enter within it of the train before leaving |
| HeadwayGuarantee.HeadwayKeptExactly | services/marl_scheduler/service/scheduler_service.py:172-257 | exactly which generated timetables keep the headway on every segment: none of two trains from three minutes up |
| HeadwayGuarantee.HeadwayGuaranteed | services/marl_scheduler/service/scheduler_service.py:60 | every generated timetable keeps the configured headway if and only if it is less than a minute |
| Rescheduling.SelectRouteSegments | services/marl_scheduler/service/scheduler_service.py:359-370 | the loop keeps the corridor in order without a blocked segment, cut to five |
| Rescheduling.RouteIdsDistinct | services/marl_scheduler/service/scheduler_service.py:109-119 | no route visits a segment twice |
| CorridorFacts.RouteExactly | services/marl_scheduler/service/scheduler_service.py:359-370 | the first five segments, or the first six without the blocked one among the first five |
| Rescheduling.AssignPlatform | services/marl_scheduler/service/scheduler_service.py:373-386 | first fit: the least free platform is taken and recorded; an occupied one only when all are occupied |
| Rescheduling.FirstPlatformFree | services/marl_scheduler/service/scheduler_service.py:256-264 | when a platform is assigned, platform 1 has no overlapping window, so it is always chosen and the overflow branch is never reached |
| Rescheduling.PlaceTrain | services/marl_scheduler/service/scheduler_service.py:214-281 | one train's pass over its route extends every segment's occupancy by its resolved window and prints it, on platform 1 at stations |
| Rescheduling.GenerateProposal | services/marl_scheduler/service/scheduler_service.py:172-356 | the outcome is the printed timetable of the plan, or none when the constraint layer objects; the conflict counter is the total number of shifts |
| TimetableContents.ActionsFit | services/marl_scheduler/service/scheduler_service.py:214-281 | every printed action keeps to the slower of the train's class and the segment's limit, and takes the whole minutes that speed needs, or two at a station |
| TimetableContents.TimesPlaced | services/marl_scheduler/service/scheduler_service.py:221-270 | every printed time comes from the clock, the train's place in the order and the running times of its class, unless a train before it is in the way; then from the headway behind one of them |
| TimetableContents.PlatformsCounted | services/marl_scheduler/service/scheduler_service.py:259-264 | the counter of platform reassignments is the number of platforms the proposal names |
| TimetableContents.FirstTrainTimes | services/marl_scheduler/service/scheduler_service.py:193-270 | the first train is printed at the base time plus its running times on the line, and at the base time at stations |
| Rescheduling.SlotsSafe | services/marl_scheduler/service/scheduler_service.py:203-257 | on every segment the recorded windows of any number of trains are pairwise disjoint, as long as the transit, and never before the request |
| Rescheduling.ShiftBudget | services/marl_scheduler/service/scheduler_service.py:203-252 | a proposal for T trains makes at most 5 T (T - 1) / 2 shifts in all |
| ProposalSafety.AcceptedExactly | services/marl_scheduler/constraints/conflict_checker.py:23-43 | a generated timetable passes the constraint layer if and only if no two trains' windows on a segment overlap as printed |
| ProposalSafety.GeneratedAccepted | services/marl_scheduler/service/scheduler_service.py:348-353 | every timetable that ends within 24 hours of its base hour passes the constraint layer, across midnight too |
| ProposalLimits.DayApartRefused | services/marl_scheduler/service/scheduler_service.py:348-353 | with a headway of whole days every timetable of two or more trains is refused, whatever the disruption and the time of day |
| ProposalLimits.DayIsFull | services/marl_scheduler/service/scheduler_service.py:266-270 | an accepted timetable fits its windows on the first segment into one printed day, but for one window each midnight |
| ProposalLimits.TooManyTrains | services/marl_scheduler/service/scheduler_service.py:348-353 | how many trains are always refused, for any headway, disruption and time of day |
| ProposalLimits.DefaultHeadwayRefused | services/marl_scheduler/service/scheduler_service.py:348-353 | under the default headway 148 trains are always refused, or 210 when the first segment is the one blocked |
| ProposalLimits.FirstTrainInTwoPlaces | services/marl_scheduler/service/scheduler_service.py:214-231 | in every generated timetable the first train is never shifted, and enters its first segment and a later station in the same minute |
| ProposalLimits.LateOnTwoLines | services/marl_scheduler/service/scheduler_service.py:214-254 | a train enters a later line segment before leaving an earlier one if and only if it was delayed more on the earlier one by more than the difference of running time and transit |
| ProposalLimits.ShiftsStayOnTheirSegment | services/marl_scheduler/service/scheduler_service.py:221-254 | the windows on a segment depend on the segments before it through their lengths alone, whatever was shifted there |
| ProposalAvailability.ResolveLatest | services/marl_scheduler/service/scheduler_service.py:248-252 | a window is pushed no further than the headway past the last exit on its segment |
| ProposalAvailability.ProposalAlwaysFound | services/marl_scheduler/service/scheduler_service.py:172-356 | T trains with T * (18 + max(h, 3)) <= 1300 always get a proposal: 61 trains at the default headway, for every disruption and time of day |
| Aggregation.ComputeAggregate | services/edge_compute/zone_compute/federated_coordinator.py:376-395 | the accumulation loops compute the sample-weighted sum over the common length, damped under FEDPROX |
| Aggregation.AggregateBalances | services/edge_compute/zone_compute/federated_coordinator.py:376-388 | without damping and with samples the aggregate is the one vector from which the distances of all updates, weighted by samples, add up to nothing at every entry |
| Aggregation.DampingScales | services/edge_compute/zone_compute/federated_coordinator.py:390-395 | FEDPROX gives 1 - mu times the undamped aggregate |
| Aggregation.OrderDoesNotMatter | services/edge_compute/zone_compute/federated_coordinator.py:376-395 | updates in any order give the same aggregate, as long as the first is of the same length |
| Aggregation.SameGradientsMerge | services/edge_compute/zone_compute/federated_coordinator.py:376-395 | two stations with equal gradients count as one with the samples of both |
| Aggregation.TotalWeight | services/edge_compute/zone_compute/federated_coordinator.py:377-386 | the weights add up to one, or to zero when nobody had samples |
| Aggregation.AggregateStaysConvex | services/edge_compute/zone_compute/federated_coordinator.py:376-395 | any convex set holding every update as read holds the aggregate (with the zero vector where damping or empty samples need it) |
| Aggregation.AggregateNorm | services/edge_compute/zone_compute/federated_coordinator.py:376-395 | the squared norm of the aggregate never exceeds the largest stored one, with ragged vectors, empty samples and 0 <= mu <= 1 |
| Aggregation.GlobalNotWorseThanWorstLocal | services/edge_compute/zone_compute/federated_coordinator.py:376-395 | without damping and with samples, every quasi-convex function of the aggregated vector is at most its worst value at an update (the vectors are gradients, so this is no statement about model parameters) |
| Aggregation.NoSamplesAggregateZero | services/edge_compute/zone_compute/federated_coordinator.py:378-388 | without samples the aggregate is the zero vector |
| Aggregation.NeverWorseExactly | services/edge_compute/zone_compute/federated_coordinator.py:376-395 | that holds for all updates with samples if and only if the damping is zero, and without samples for no damping |
| FederatedRounds.ClipMeetsBound | services/edge_compute/zone_compute/federated_coordinator.py:113-119 | clipping keeps the direction, leaves short vectors alone, and brings every longer one to exactly the norm bound |
| FederatedRounds.AdmittedMeetsLimit | services/edge_compute/zone_compute/federated_coordinator.py:330-347 | what passes the magnitude check, clipped when privacy is on, is within the length limit of the configuration |
| FederatedRounds.Coordinator.StartRound | services/edge_compute/zone_compute/federated_coordinator.py:292-315 | a second round is refused; too few participants are refused with the counter advanced; otherwise a fresh round over the first eligible ones is open |
| FederatedRounds.Coordinator.SubmitUpdate | services/edge_compute/zone_compute/federated_coordinator.py:317-366 | which of the six replies is given and what it changes; each participant stored at most once; the round completes exactly when enough updates are in |
| FederatedRounds.Coordinator.AggregateRound | services/edge_compute/zone_compute/federated_coordinator.py:368-414 | the round is completed with the aggregate of its own updates, which without noise meets the length limit |
| FederatedRounds.Coordinator.ForceTimeout | services/edge_compute/zone_compute/federated_coordinator.py:424-434 | an open round is aggregated when it has updates and failed when it has none, and moves to the history |
| Braking.StepCoversPotential | services/kavach_advisory/kavach_advisory.py:358-383 | one Euler step covers at least the kinetic potential it uses up, less half a step of travel |
| Braking.ComputeBrakingDistance | services/kavach_advisory/kavach_advisory.py:303-412 | both integration loops end and add up reaction, propagation and braking distance, time and peak deceleration step by step |
| BrakingLaws.GradientLaw | services/kavach_advisory/kavach_advisory.py:439-459 | below the slip limit, uphill adds g times the difference of the sines, over the factor for rotating masses |
| BrakingLaws.BrakeLaw | services/kavach_advisory/kavach_advisory.py:426-459 | below the slip limit, every percent of braked weight adds mu g cos(theta) / 100 over that factor |
| BrakingLaws.HeadwindLaw | services/kavach_advisory/kavach_advisory.py:431-459 | below the slip limit, wind changes the deceleration with the square of the speed through the air |
| BrakingLaws.CurveLaw | services/kavach_advisory/kavach_advisory.py:445-459 | below the slip limit, a curve adds 700 N per tonne over its radius |
| BrakingLaws.RollingLaw | services/kavach_advisory/kavach_advisory.py:211-229 | without braked weight, drag and curve the deceleration is the running resistance at that speed and the gradient, up to the slip limit |
| BrakingLaws.LowSpeedAdhesion | services/kavach_advisory/kavach_advisory.py:372-378 | below 5 m/s adhesion recovers in proportion, by five percent at a standstill |
| BrakingLaws.FadeGrows | services/kavach_advisory/kavach_advisory.py:272-299 | brakes fade more the faster, longer and hotter they work, and not before they are applied |
| Braking.BrakeEnds | services/kavach_advisory/kavach_advisory.py:368-398 | braking lasts at most 3001 steps and ends at a standstill unless it is cut off |
| Braking.StoppingDistanceBound | services/kavach_advisory/kavach_advisory.py:328-403 | for mu > 0 the distance after the reaction phase is at least (v0^2 - v^2) / (2 * 1.05 mu g) - dt (v0 - v) / 2, and the peak deceleration at most 1.05 mu g |
| BrakingLaws.StoppingDistanceCeiling | services/kavach_advisory/kavach_advisory.py:328-403 | where half the adhesion still slows the train by a > 0: reaction distance, pipe time at the highest downhill speed V, and V^2 / (2 a), with a standstill in time when V < 300 a |
| BrakingLaws.GuaranteedWhen | services/kavach_advisory/kavach_advisory.py:415-459 | such an a exists if and only if mu > 0 and half of mu cos(theta) times the braked weight outweighs the slope |
| BrakingLaws.PeakCoversMean | services/kavach_advisory/kavach_advisory.py:368-398 | the reported peak deceleration is no less than the mean |
| BrakingLaws.AdhesionFalls | services/kavach_advisory/kavach_advisory.py:137-200 | more speed, vibration, humidity or leaves never give more adhesion |
| Braking.AdvisoryStoppingDistance | services/kavach_advisory/kavach_advisory.py:507-543 | unavailable without vibration data; otherwise the larger of the integrated and the certified distance, hence never below the certified one nor below the kinematic bound at the estimated adhesion |
| BrakingLaws.CertifiedIsTextbook | services/kavach_advisory/kavach_advisory.py:476-503 | the certified distance is 9.3 s at full speed and then constant deceleration at adhesion 0.08 on 70 % of the weight |
| RiskScoring.RiskScoreBounds | services/common/risk_scoring.py:19-24 | the score lies in [0, 4] if and only if the probability is not negative |
| RiskScoring.DualAuthorizationOnlyCritical | services/common/risk_scoring.py:27-33 | for probabilities up to one, tier 1 is reached exactly by critical advisories of probability at least 0.8 |
| RiskScoring.TierTable | services/common/risk_scoring.py:19-33 | exactly which probabilities give which tier, for every severity |
| StableSorting.SortPermutes | services/authorization_gate/gate_service.py:258-260 | the sorted list is a permutation |
| StableSorting.SortedDescending | services/authorization_gate/gate_service.py:258-260 | the sorted list descends by score |
| StableSorting.SortStable | services/authorization_gate/gate_service.py:258-260 | items of equal score keep their order |
| GateProtocol.StepSafe | services/authorization_gate/gate_service.py:190-251 | every handler keeps the queue, decision, forward and counter invariants |
| GateProtocol.RunSafe | services/authorization_gate/gate_service.py:190-251 | every reachable state of the gate satisfies those invariants |
| GateProtocol.ForwardedWasAuthorized | services/authorization_gate/gate_service.py:103-115 | in every run a forwarded tier-1 advisory was authorized on that same instance by the two senior controllers, any other by one controller whose role permits its tier |
| GateProtocol.PressesComeFromRequests | services/authorization_gate/gate_service.py:207-229 | every recorded press goes back to an AUTHORIZE request by that controller, made while the pressed instance was queued under that id |
| GateProtocol.ForwardedWasRequested | services/authorization_gate/gate_service.py:207-238 | every forwarded advisory goes back to such a request on its own instance, a tier-1 one to one by each senior controller |
| GateOutcomes.PermissionTable | services/authorization_gate/gate_service.py:103-115 | exactly who may authorize which tier |
| GateOutcomes.ActOutcome | services/authorization_gate/gate_service.py:207-251 | in every reachable state, the reply to every request and all it changes, decided by permissions and the presses on record |
| GateOutcomes.TwoSeniorsForward | services/authorization_gate/gate_service.py:216-242 | two senior controllers who both press while an instance is queued as tier 1 get it forwarded, recorded and out of the queue, whatever happens in between |
| GateOutcomes.EnqueueOutcome | services/authorization_gate/gate_service.py:190-205 | an enqueue puts a new instance without presses in the place of the old one or at the end, and moves nobody else |
| GateProtocol.NoInstanceDecidedTwice | services/authorization_gate/gate_service.py:216-250 | no instance is decided twice, and no decided instance is queued |
| GateProtocol.EveryEnqueueAccounted | services/authorization_gate/gate_service.py:190-205 | enqueued = authorized + rejected + queued + overwritten, and the tier counts add up to it |
| GateProtocol.EscalationsTimely | services/authorization_gate/gate_service.py:303-318 | with a monotonic clock an advisory escalated k times has waited longer than k timeouts, and k is at most three |
| GateProtocol.EscalationExact | services/authorization_gate/gate_service.py:303-318 | a pass escalates exactly those past their next timeout with fewer than three escalations, by one each, and counts them |
| GateProtocol.ForwardedIsAudited | services/authorization_gate/gate_service.py:334-346 | a forwarded advisory has exactly one decision record, which the audit log shows if and only if fewer than 100 decisions followed it |
| Gate.AuthorizationGate.EnqueueAdvisory | services/authorization_gate/gate_service.py:190-205 | refines the enqueue step: a queued id keeps its place but becomes a fresh instance |
| Gate.AuthorizationGate.Authorize | services/authorization_gate/gate_service.py:207-251 | refines the authorize step with all its replies, on advisory objects shared with the sorted cache |
| Gate.AuthorizationGate.GetQueue | services/authorization_gate/gate_service.py:253-271 | the answer, and the cache, is a stable permutation of the queue by descending risk |
| Gate.AuthorizationGate.EscalationPass | services/authorization_gate/gate_service.py:303-318 | refines one escalation pass over the shared advisory objects |
| BufferProtocol.StepSound | services/edge_node/buffer/circular_buffer.py:50-99 | every write and acknowledgement keeps the bound, unique ids, the overflow log and the ledger |
| BufferProtocol.RunSound | services/edge_node/buffer/circular_buffer.py:50-99 | over any interleaving the table stays within max_rows (one row at least), with unique ids and every insertion accounted for |
| BufferProtocol.ExactlyOneFate | services/edge_node/buffer/circular_buffer.py:50-99 | every inserted row is exactly one of resident, acknowledged, or evicted and logged |
| BufferProtocol.EvictionIsOldest | services/edge_node/buffer/circular_buffer.py:61-73 | a write to a full table evicts and logs a row of minimal timestamp |
| BufferProtocol.WriteLands | services/edge_node/buffer/circular_buffer.py:50-79 | after every write the event is resident, as written unless its old row stayed, and nothing but the evicted row is lost |
| BufferProtocol.AckExactly | services/edge_node/buffer/circular_buffer.py:90-99 | an acknowledgement takes exactly the row with the id |
| BufferProtocol.DuplicateWriteHarmless | services/edge_node/buffer/circular_buffer.py:56-79 | a duplicate write leaves table and log unchanged if and only if the table is not full |
| EdgeBuffer.SortedPrefixIsOldest | services/edge_node/buffer/circular_buffer.py:81-88 | the first n rows by timestamp are a legitimate answer to the n oldest |
| EdgeBuffer.CircularBuffer.Write | services/edge_node/buffer/circular_buffer.py:50-79 | refines the write step, with a victim of minimal timestamp when the table is full |
| EdgeBuffer.CircularBuffer.Ack | services/edge_node/buffer/circular_buffer.py:90-99 | refines the acknowledge step |
| EdgeBuffer.CircularBuffer.ReadOldest | services/edge_node/buffer/circular_buffer.py:81-88 | up to n distinct resident rows in timestamp order, with nothing older left out |
| EdgeUploader.UploadWithRetry | services/edge_node/uploader/reconnect_uploader.py:159-177 | at most retry_count posts, all refused but a last accepted one on success |
| EdgeUploader.AttemptKeepsProgress | services/edge_node/uploader/reconnect_uploader.py:137-153 | attempting the head of the pending list keeps order, single attempts and exact bookkeeping |
| EdgeUploader.PendingFits | services/edge_node/uploader/reconnect_uploader.py:131-135 | with distinct timestamps the failures so far and the events still to try fit into one batch |
| EdgeUploader.ExhaustedBatch | services/edge_node/uploader/reconnect_uploader.py:131-135 | with fewer failures or rows than a batch holds, a batch of failures is the whole table |
| EdgeUploader.Drain | services/edge_node/uploader/reconnect_uploader.py:120-157 | the pass ends against any answers; each event at most once, oldest first; exactly the successes acknowledged; with distinct timestamps exactly the oldest events up to the batch_size-th failure are tried, for a fixed verdict per event as the verdicts say, and only failures remain exactly when that is everything |
| EdgeUploader.StarvedExactly | services/edge_node/uploader/reconnect_uploader.py:131-135 | an event is never tried if and only if at least batch_size older events are refused |
| EdgeUploader.AllTriedExactly | services/edge_node/uploader/reconnect_uploader.py:131-135 | everything is tried if and only if fewer than batch_size events are refused or the batch_size-th refused one is the youngest |
| Heartbeat.HeartbeatFSM.RecordHeartbeatSuccess | services/edge_node/heartbeat/heartbeat_fsm.py:39-45 | refines the success step of the machine's history |
| Heartbeat.HeartbeatFSM.RecordHeartbeatFailure | services/edge_node/heartbeat/heartbeat_fsm.py:47-59 | refines the failure step: prune, append, maybe change mode |
| Heartbeat.HeartbeatFSM.RecordUploadComplete | services/edge_node/heartbeat/heartbeat_fsm.py:61-66 | refines the upload-complete step |
| Heartbeat.StoredFailures | services/edge_node/heartbeat/heartbeat_fsm.py:39-59 | in every run with a monotonic clock the stored list is the failures since the last success within 30 s of the latest one |
| Heartbeat.AutonomousExactly | services/edge_node/heartbeat/heartbeat_fsm.py:47-59 | a connected node turns autonomous on a failure if and only if the last three heartbeat outcomes are failures within 30 s |
| Heartbeat.ModesCycle | services/edge_node/heartbeat/heartbeat_fsm.py:39-66 | from every mode, exactly which event leads to which: one place round the cycle, each on its own event |
| SampleRing.PushKeeps | services/edge_compute/shared/edge_protocol.py:247-251 | one push keeps every slot of the ring at the value of its age |
| SampleRing.BlockKeeps | services/edge_compute/shared/edge_protocol.py:262-264 | copying a block does what pushing its values one by one does |
| SampleRing.TwoBlocksKeep | services/edge_compute/shared/edge_protocol.py:265-269 | so does copying round the end in two blocks |
| SampleRing.WholeBufferHolds | services/edge_compute/shared/edge_protocol.py:256-261 | so does overwriting the whole buffer with the latest values |
| SampleRing.OrderedIsLast | services/edge_compute/shared/edge_protocol.py:282-288 | the slots in chronological order are the last min(total, capacity) values since the last clear |
| SampleRing.HistoryDeterminesView | services/edge_compute/shared/edge_protocol.py:253-288 | two rings with the same history answer every read alike, however the values were pushed |
| SampleRing.RingBuffer.Push | services/edge_compute/shared/edge_protocol.py:247-251 | appends one value to the history |
| SampleRing.RingBuffer.PushBatch | services/edge_compute/shared/edge_protocol.py:253-269 | appends the whole batch to the history in all three copy cases |
| SampleRing.RingBuffer.GetWindow | services/edge_compute/shared/edge_protocol.py:271-280 | the last min(n, count) values, latest first, for any n |
| SampleRing.RingBuffer.GetAllOrdered | services/edge_compute/shared/edge_protocol.py:282-288 | the last min(total, capacity) values, oldest first |
| SampleRing.RingBuffer.Clear | services/edge_compute/shared/edge_protocol.py:290-292 | the history starts anew |
| SampleStatistics.WelfordStep | services/edge_compute/micro_edge/sensor_hub.py:149-156 | one step of the recurrence keeps the running mean and the sum of squared deviations exact |
| SampleStatistics.VariancesAgree | services/edge_compute/micro_edge/sensor_hub.py:334-335 | Welford's, the sum/sum-of-squares and the two-pass variance of the same samples are one number |
| SampleStatistics.WindowVariance | services/edge_compute/micro_edge/sensor_hub.py:323-335 | reading the window backwards does not change its variance |
| SampleStatistics.LeastGreatestBound | services/edge_compute/micro_edge/sensor_hub.py:157-158 | the running extremes are members of the samples that bound them all |
| SampleStatistics.SensorChannel.Ingest | services/edge_compute/micro_edge/sensor_hub.py:149-158 | extends samples and ring by the value, keeping mean, squared deviations and extremes exact |
| SampleStatistics.SensorChannel.IngestBatch | services/edge_compute/micro_edge/sensor_hub.py:160-170 | leaves samples, statistics and ring as one ingest per value would |
| SampleStatistics.SensorChannel.ResetStats | services/edge_compute/micro_edge/sensor_hub.py:192-198 | the statistics start anew over no samples, and the ring keeps its history |
| SampleStatistics.SensorChannel.Variance | services/edge_compute/micro_edge/sensor_hub.py:172-174 | the running variance since the reset is the two-pass variance of those samples, and never negative |
| SampleStatistics.SlidingWindowStats.Push | services/edge_compute/micro_edge/signal_processor.py:356-364 | slides the window by one and keeps both sums exact |
| SampleStatistics.SlidingWindowStats.PushBatch | services/edge_compute/micro_edge/signal_processor.py:366-369 | the same as pushing one by one |
| SampleStatistics.SlidingWindowStats.Variance | services/edge_compute/micro_edge/signal_processor.py:338-344 | the sliding variance is the two-pass variance of the last `capacity` values, and never negative |

## Left out

- Kafka, FastAPI, Prometheus, PostgreSQL, SQLite's durability, sockets and the dashboard: input, output and display.
- Floating-point rounding, random draws and wall-clock reads: exact reals, arbitrary choices and parameters instead.
- Existence of the twiddle factors and of square roots: assumed of the parameters, since the reals of the model have no transcendental functions.
- `KalmanFilter1D`, `KalmanFilter2D`, band energies, dominant frequency and the transient detector: scalar recurrences and logarithms over the kernels modelled here.
- The 30 s timeout of the scheduler and its metrics.
- The random platform of the overflow branch: an arbitrary platform in the model of that method, and proved unreachable from the generator.
- SlotShifting.RoomyHeadwayExact: stated for occupants longer than the headway, which line segments give up to four minutes of headway; without that, `SlotShifting.HeadwayExact` says when the headway is kept.
- HeadwayGuarantee.GeneratedLineHeadway: stated for a headway of up to four minutes, the shortest transit of a line segment being five; a longer one is lost at the stations in any case.
- Rescheduling.GenerateProposal: delays, passengers, energy and risk tier of a proposal, which mix in random draws, are not part of the result.
- Braking.ComputeBrakingDistance: the printed deceleration profile and the roundings of the reply are not modelled.
- FederatedRounds.Coordinator.SubmitUpdate: the drift detector's logarithms are replaced by a given verdict, and losses and accuracies of an update are not stored.
- FederatedRounds.Coordinator.AggregateRound: the simulated accuracy, the version string and the drift baseline are not modelled; the history is not cut to its last 50 rounds.
- Gate.AuthorizationGate.EnqueueAdvisory: the original updates the queue and the counters under two locks, one after the other; the model makes it one step, so a reader between the two is not captured.
- Gate.AuthorizationGate.Authorize: the operational flag, which nothing in the service ever clears, the payload and the decision-time statistics are not modelled.
- EdgeUploader.Drain: which events are tried is stated for distinct timestamps, since equal ones may be read in another order each time; other writers during a pass are excluded, as are payloads that carry their own `_buffer_event_id`; a negative batch size, which the database reads as no limit, is not modelled.
- Aggregation.GlobalNotWorseThanWorstLocal: a loss of the global model after applying the aggregate is not modelled; the code only averages vectors.
- EdgeBuffer.CircularBuffer.Write: the defaults for a missing event id or timestamp are the caller's, and opening an existing database is not modelled.
- SampleRing.RingBuffer.Push: a capacity of zero, on which the original raises, is excluded by the constructor.
- The callbacks of the heartbeat machine and their wiring in the edge node's main program.
- String functions `upper` and `lower` are modelled on ASCII only.
