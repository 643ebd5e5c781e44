# trafficctl: a verified model of the traffic control loop

trafficctl shifts weight between the backends of a Gateway API `HTTPRoute`.
A `TrafficPolicy` declares the backends with their `minWeight` and `maxWeight`,
the signals to watch and how fast weights may move. Every reconcile validates the
spec, gives a new policy its starting weights, averages the samples, lets the
threshold evaluator move points from breaching backends to healthy ones, writes
the weights onto the route and records what happened in the status.

This project models that loop in Dafny and proves what it keeps, for every input
and every run:

| file | models |
|---|---|
| `Sums.dfy`, `Ordering.dfy`, `Waterfall.dfy` | sums over weight vectors; name order and stable sorting; the closed form of moving one point at a time |
| `Api.dfy` | backends and recorded weights |
| `Evaluator.dfy` | classification, ranking and the transfer loop over shared backend states, proved equal to `Decide`, which neither sorts nor loops |
| `Decisions.dfy`, `Fairness.dfy`, `OrderIndependence.dfy`, `Convergence.dfy` | properties of every decision: conservation, bounds, optimality, who gives and takes first, independence of input order, convergence |
| `Apportionment.dfy` | spec validation and the starting allocation (largest remainder) |
| `Smoother.dfy` | moving-average buffers and the history they stand for |
| `Router.dfy` | the in-place rewrite of a route's weights |
| `Reconciler.dfy` | one reconcile: the method, and the step function it is proved equal to |
| `Runs.dfy`, `EditedRuns.dfy`, `RouteRuns.dfy` | runs of the loop: the recorded weights, what an edit of the spec leaves of them, and the weights on the route |
| `SmoothedRuns.dfy`, `SharedSmoother.dfy` | from raw samples to weights, and several policies over one smoother |
| `SettlingRuns.dfy`, `SteadySamples.dfy` | runs under steady signals and under steady samples |
| `Configuration.dfy`, `Outcomes.dfy` | the step told from the declared fields alone: thresholds, waits, steps and windows; errors, requeues, phases, conditions and times |
| `Announcements.dfy` | when each event is emitted, and what it tells of a run |
| `Examples.dfy` | concrete runs: some at which the documented behaviour is not met, and one of the kind that settles |

Conventions of the model:

* Samples, thresholds and scores are reals. Names are sequences of characters
  compared lexicographically.
* The shares of the starting allocation are exact: quotient and remainder over the
  common denominator. The source computes them in floating point, which agrees on
  whole parts and on the order of different fractions at this magnitude, but may
  order equal fractions differently. So every property of the starting allocation
  is proved for any `ShareOrder`, whichever way ties fall, and a run chooses its order freely.
* Time is in whole seconds. The stored change time has that precision and cooldowns
  are whole seconds, so comparing whole seconds decides the cooldown as the clock would.
* The environment of a reconcile (what the API server, the metrics source and the
  clock answer, and which writes fail) is an arbitrary `Env`. Between two reconciles
  the route and the smoother's buffers may be changed by others; the stored
  status is changed only by the reconciler. `SmoothedRuns` and `SteadySamples` ask
  that nobody else touch this policy's buffers; that reconciles of other policies never do
  is proved (`SharedSmoother.BuffersAreOwn`). `RouteRuns` asks that nobody else edit the route.
* What the schema bounds (weights in 0..100, step in 1..100) is not needed by the
  proofs beyond what validation checks; it is what keeps 32-bit sums from overflowing
  and the floating-point shares exact enough.

Where the code and its documentation differ, the model follows the code:

* `Paused` and `Resumed` events are documented but never emitted: the old and the new
  flag are read from copies of the same object. `Reconciling.Reconciler.Screen` holds both
  emits under their guards, and agrees with a step function that has neither
  (`Announcements.PauseIsNeverAnnounced`).
* Deleting a policy is documented to drop its samples. The key used on deletion is
  never the key of a buffer, so the buffers stay (`Smoothing.PolicyKeyIsNoSmoothKey`,
  `SmoothedRuns.StepBuffer`).
* Events are documented to be emitted on each state transition and on transitions only.
  Both halves hold in part.
  * `InvalidSpec`, `RouteMissing` and `MetricsUnavailable` are emitted exactly when the trouble
    is there and their guard is open (`Announcements.WarnsIffNotMuted`). While the trouble
    lasts, the next reconcile repeats the warning if and only if the status of the first
    could not be stored (`Announcements.WarningRepeatsIffUnrecorded`).
  * `InvalidSpec` and `RouteMissing` share one guard, the phase `Degraded`. A policy that is
    Degraded for one of them and then meets the other records the new reason but emits
    nothing; exactly when is `Announcements.NewTroubleAnnouncedIff`, and
    `Examples.MaskedTrouble` is such a run, in either order.
  * `RouteUpdateFailed` has no guard: every failed read or write of the route announces it,
    stored status or not (`Announcements.WriteErrorIff`, `Announcements.WriteErrorsRepeat`).
  * `WeightsShifted` has none either. Within the cooldown of one shift another is announced
    if and only if the first was not stored and the evaluator shifts again onto a route that
    takes it (`Announcements.ShiftRepeatsIff`).
* `WeightsShifted` is documented as a reconcile having changed the applied weights. It says
  that the evaluator changed them and that the route had or took the result
  (`Announcements.ShiftAnnouncedIff`), which is neither necessary nor sufficient for a changed route.
  * The route changes without the event exactly when no decision was made and the route did
    not carry the recorded weights (`Announcements.SilentWriteIff`). So a shift whose first write
    fails is never announced if the write succeeds within the cooldown
    (`Announcements.LateShiftIsSilent`, `Examples.NeverTold`).
  * The event is emitted without the route changing exactly when the route already carried
    the weights decided on (`Announcements.ShiftWithoutWriteIff`). So a shift whose status was
    not stored is announced twice (`Examples.ToldTwice`).
* The cooldown is documented as the minimum wait between two weight changes. For
  recorded weights, once there are any, it is (`Runs.OnlyDecisionsMove`, `Runs.RateBound`). A shift that could not
  be stored starts no cooldown, so the route may change twice within a second
  (`Examples.TwoStepsAtOnce`). Over a run the route keeps the same bound, plus what route and
  record were apart at its start (`RouteRuns.RouteRateBound`), and this cannot be improved.
* Weights across backends are documented to always sum to 100. The total over the declared
  backends never changes while the list stays (`EditedRuns.TotalStays`), so an edit that drops
  backends from a list at 100 loses their points: it stays at 100 exactly when they had none (`EditedRuns.HundredAfterEditIff`, `Examples.PointsLost`).
* Recipients are documented as taken in order of health. A healthy backend always
  scores zero, so they are taken in name order (`Decisions.RecipientsInNameOrder`).
* A cooldown of 0 is within the schema but is treated like an absent one, 30 seconds.

## Model

| member | source | states |
|---|---|---|
| Evaluator.Evaluate | internal/evaluator/evaluator.go:89-164 | classifying, sorting and moving points one by one gives, for every input, the sort-free and loop-free closed form: hold reasons in order, else each backend's current weight less its waterfall loss plus its waterfall gain; what the waterfall order means is said by the rows of `Fairness` |
| Evaluator.BuildStates | internal/evaluator/evaluator.go:166-197 | one fresh state per declared backend, in order, carrying its last recorded weight (0 if none), bounds, step budget and health |
| Evaluator.BackendState.Assess | internal/evaluator/evaluator.go:180-193 | score is the summed excess over the breached signals; sampled and breaching exactly when some usable signal says so |
| Evaluator.Classify | internal/evaluator/evaluator.go:98-110 | donors and recipients are exactly the breaching and the sampled non-breaching backends, in declaration order |
| Evaluator.PickDonor | internal/evaluator/evaluator.go:199-206 | the first donor with budget left and weight above its minimum, none exactly when no donor can give |
| Evaluator.PickRecipient | internal/evaluator/evaluator.go:208-215 | the first recipient with budget and weight below its maximum, or none exactly when none can take |
| Evaluator.Transfer | internal/evaluator/evaluator.go:136-148 | the loop moves the smaller of total donor capacity and total recipient room, and after t points both sides stand where pouring t points along the lists puts them |
| Evaluator.TransferOne | internal/evaluator/evaluator.go:137-148 | one turn of the loop moves a point exactly while capacity and room are both left, and takes both pourings one point further |
| Evaluator.Collect | internal/evaluator/evaluator.go:154-157 | the output lists every declared backend in order with its target |
| Evaluator.Rebalance | internal/evaluator/evaluator.go:121-148 | sorting both sides and transferring leaves every backend, donor or not, at its closed-form target |
| Waterfall.PouredStep | internal/evaluator/evaluator.go:143-147 | one more point lands in the first vessel that is not full and changes no other |
| Waterfall.PouredPrefix | internal/evaluator/evaluator.go:136-148 | the first k in line receive all the points or all they can hold |
| Waterfall.SharesDominate | internal/evaluator/evaluator.go:199-206 | front-loading takes at least as much from everyone up to any position as any other way of drawing at most as many points |
| Ordering.SortIsInOrder | internal/evaluator/evaluator.go:123-134 | a stable sort puts every pair in order, ties by original position |
| Ordering.NameLessTotal | internal/evaluator/evaluator.go:127-133 | two different names are never tied |
| Ordering.NameLessIff | internal/evaluator/evaluator.go:127-133 | of two names the lesser ends or has the lesser character at the first place where they differ |
| Api.LaterOverrides | internal/evaluator/evaluator.go:167-170 | of several recorded weights for one name the last counts |
| Decisions.BreachIffAbove | internal/evaluator/evaluator.go:180-192 | a breach is a sample strictly above a positive threshold |
| Decisions.RecipientsInNameOrder | internal/evaluator/evaluator.go:129-134 | between two healthy backends the order of recipients is the order of names |
| Decisions.ChangedIffPointsMove | internal/evaluator/evaluator.go:150-163 | changed exactly when some point can move, reporting how many; otherwise the current weights are handed back as they were |
| Decisions.NextHasTargets | internal/evaluator/evaluator.go:154-163 | looked up by name, the decision's weights are the targets, also for a hold |
| Decisions.MovesBalance | internal/evaluator/evaluator.go:143-147 | points given up, points taken on and the reported shift are the same number |
| Decisions.TotalIsConserved | internal/evaluator/evaluator.go:137-148 | the total over the declared backends never changes, for any current weights |
| Decisions.MoveDirections | internal/evaluator/evaluator.go:100-110 | breaching backends only lose, healthy ones only gain, each at most the step; unsampled ones stay |
| Decisions.NeverFurtherOut | internal/evaluator/evaluator.go:199-215 | no backend ends further from its declared interval than it started, even from outside it |
| Decisions.DecisionIsAdmissible | internal/evaluator/evaluator.go:68-72 | the decision respects health, step, bounds and total |
| Decisions.MovesMost | internal/evaluator/evaluator.go:136-148 | no admissible move shifts more points |
| Decisions.WorstGiveMost | internal/evaluator/evaluator.go:121-148 | against any admissible move the loss vector is lexicographically greatest worst-first, and so are the gains in recipient order |
| Fairness.ScoreIsOvershoot | internal/evaluator/evaluator.go:180-193 | the score is the sum, over the signals whose sample is above a positive threshold, of how far it is above relative to the threshold |
| Fairness.HealthOnSamples | internal/evaluator/evaluator.go:180-193 | a backend is sampled if some signal with a positive threshold has a sample of it, and breaching if one of these is above its threshold |
| Fairness.WorseGivesFirst | internal/evaluator/evaluator.go:121-128 | a breaching backend loses a point only when each one that is further over in total, or as far with the lesser name, has given the whole step or all down to its minimum |
| Fairness.WorseWeightsGoFirst | internal/evaluator/evaluator.go:121-128 | the same of the weights decided on, looked up by name |
| Fairness.HigherSampleGivesFirst | internal/evaluator/evaluator.go:121-128 | with one signal, the backend with the higher sample gives all it may before the other gives anything |
| Fairness.HigherEverywhereGivesFirst | internal/evaluator/evaluator.go:121-128 | with several, so does one that is at least as far over on every signal and further on one |
| Fairness.LesserNameTakesFirst | internal/evaluator/evaluator.go:129-134 | a healthy backend gains a point only when each healthy one with a lesser name has taken the whole step or all up to its maximum |
| OrderIndependence.SameTarget | internal/evaluator/evaluator.go:121-134 | rearranging backends and recorded weights leaves every backend's target alone |
| OrderIndependence.SameReason | internal/evaluator/evaluator.go:98-119 | rearranged inputs hold for the same reason or shift the same number of points |
| OrderIndependence.SameDecision | internal/evaluator/evaluator.go:62-66 | rearranged inputs are changed or held alike, for the same reason, and give every name the same weight |
| Convergence.ShiftIsSubstantial | internal/evaluator/evaluator.go:136-148 | one decision moves a full step or everything that is left to move |
| Convergence.NextMovable | internal/evaluator/evaluator.go:154-163 | donor surplus and recipient space each shrink by exactly the points moved |
| Convergence.Converges | internal/evaluator/evaluator.go:89-164 | fed its own output the evaluator changes every round and then holds, within ceil(min(surplus, space) / step) rounds, having moved exactly that minimum, with one side exhausted |
| Apportionment.ValidateSpec | internal/controller/trafficpolicy_controller.go:399-426 | accepts exactly the valid specs and otherwise reports the first error that applies |
| Apportionment.DiagnosisOnFields | internal/controller/trafficpolicy_controller.go:399-426 | reported is: too few backends; else of the first backend that is unnamed, named like one before it or has its bounds reversed, the first of these; else the minimums above or the maximums below 100 |
| Apportionment.AcceptsIffFeasible | internal/controller/trafficpolicy_controller.go:396-426 | given proper names, a spec is accepted if and only if some allocation within the bounds totals 100 |
| Apportionment.InitialWeights | internal/controller/trafficpolicy_controller.go:432-474 | the slice built in place is minimum plus whole share plus at most one leftover point each, in declaration order |
| Apportionment.AssignMinimums | internal/controller/trafficpolicy_controller.go:433-440 | every weight starts at its minimum, with minimums and headrooms totalled exactly |
| Apportionment.AddWholeShares | internal/controller/trafficpolicy_controller.go:449-458 | whole shares added in place, fractions and the points handed out recorded |
| Apportionment.HandOutLeftover | internal/controller/trafficpolicy_controller.go:464-472 | the single capped pass gives a point to exactly the first leftover backends in order; the cap never skips one of them |
| Apportionment.FractionsMakeLeftover | internal/controller/trafficpolicy_controller.go:451-459 | the fractions add up to exactly the leftover points |
| Apportionment.LeftoverHasTakers | internal/controller/trafficpolicy_controller.go:464-472 | there are at least as many backends as leftover points, and each one served has a positive fraction |
| Apportionment.OneMoreTaker | internal/controller/trafficpolicy_controller.go:464-472 | with points left over, strictly more backends have a positive fraction than there are points |
| Apportionment.ExtraHasRoom | internal/controller/trafficpolicy_controller.go:468-471 | whoever is served a leftover point is strictly below its maximum |
| Apportionment.InitialIsAllocation | internal/controller/trafficpolicy_controller.go:428-474 | on a valid spec the starting weights lie within the bounds and total exactly 100, however ties fall |
| Apportionment.FloorOrCeiling | internal/controller/trafficpolicy_controller.go:451-471 | every backend's points lie strictly within one of its exact share |
| Apportionment.ShareOnFields | internal/controller/trafficpolicy_controller.go:440-453 | the exact share is what the minimums leave of 100, times a backend's headroom, over the maximums' total less the minimums' |
| Apportionment.StartOnFields | internal/controller/trafficpolicy_controller.go:428-474 | in the declared bounds alone: each starting weight lies strictly within one point of its minimum plus the exact share |
| Apportionment.MoreHeadroomMorePoints | internal/controller/trafficpolicy_controller.go:451-471 | strictly more headroom never means fewer points above the minimum |
| Apportionment.ClosestToExactShares | internal/controller/trafficpolicy_controller.go:428-474 | no integer split of the remainder has a smaller sum of squared deviations from the exact shares |
| Smoothing.Smoother.constructor | internal/evaluator/smoother.go:43-51 | starts empty; a non-positive capacity becomes 60 |
| Smoothing.Smoother.Observe | internal/evaluator/smoother.go:56-82 | every buffer stays the latest part of its unbounded history; the result, times how many values the window spans, is the total of that many last values of the history; one buffer changes |
| Smoothing.MeanOfOneMore | internal/evaluator/smoother.go:75-81 | the average of one value is that value, and each new value enters an average with the weight of one among all |
| Smoothing.DeviationsCancel | internal/evaluator/smoother.go:75-81 | the deviations from an average total zero |
| Smoothing.ObservedMean | internal/evaluator/smoother.go:63-81 | consulting the buffer alone gives the average over the whole history's last values |
| Smoothing.Smoother.Forget | internal/evaluator/smoother.go:86-90 | drops exactly the buffers and the history of one key |
| Smoothing.Smooth | internal/controller/trafficpolicy_controller.go:302-316 | whatever order the samples are visited in, the averages and the buffers come out the same |
| Smoothing.SmoothedBuffer | internal/controller/trafficpolicy_controller.go:311-315 | smoothing a sample extends the buffers of the sampled backends under its key and no other |
| Smoothing.KeysSeparate | internal/controller/trafficpolicy_controller.go:299-311 | different policies or signals have different keys when namespaces hold no '/' and names no '#' |
| Smoothing.PolicyKeyIsNoSmoothKey | internal/controller/trafficpolicy_controller.go:103-106 | forgetting a policy under its own name leaves every smoothing buffer as it was |
| Router.RewriteRule | internal/router/httproute.go:68-79 | reference by reference: a desired name gets its desired weight, every other reference stays what it was; a change is reported exactly when some reference differs |
| Router.RewriteRules | internal/router/httproute.go:59-80 | the same for all rules; references to other backends keep what they had |
| Router.RewrittenAt | internal/router/httproute.go:68-79 | place by place: a reference to a listed name has that name and its listed weight, any other reference is the one that was there |
| Router.HTTPRouteWeighter.Apply | internal/router/httproute.go:45-85 | missing route, failed read and failed patch reported as such; otherwise the stored route is the rewritten one, written only if it differs |
| Router.WritingTwice | internal/router/httproute.go:81-83 | a second write finds nothing to change |
| Router.ManagedTotal | internal/router/httproute.go:59-80 | a rule naming each listed backend once carries the total of the list |
| Reconciling.Reconciler.Reconcile | internal/controller/trafficpolicy_controller.go:98-208 | stored status, route, buffers, events, requeue and error are exactly those of one step, for every environment, including whether details outside the modelled status make a patch necessary |
| Reconciling.Reconciler.ReconcileFetched | internal/controller/trafficpolicy_controller.go:112-208 | on the fetched object and its deep copy: rejected, held or driven as one step says |
| Reconciling.Reconciler.Screen | internal/controller/trafficpolicy_controller.go:113-142 | an invalid spec or a pause ends the reconcile with its own status and events; the emits of `Paused` and `Resumed`, guarded by the copy's flag, add nothing to them |
| Reconciling.Reconciler.EvaluateMetrics | internal/controller/trafficpolicy_controller.go:222-297 | status, phase, buffers and warning after sampling, cooldown check and decision |
| Reconciling.Reconciler.SampleSignals | internal/controller/trafficpolicy_controller.go:233-265 | signals are sampled and smoothed in order, stopping at the first failure; what was observed before it stays observed |
| Reconciling.Reconciler.Drive | internal/controller/trafficpolicy_controller.go:144-208 | weights initialised only when there are none, then evaluated, applied and recorded |
| Reconciling.Reconciler.Conclude | internal/controller/trafficpolicy_controller.go:152-207 | missing route, failed write and success each leave their own conditions, phase, event and requeue |
| Reconciling.Reconciler.PatchStatusIfChanged | internal/controller/trafficpolicy_controller.go:386-394 | a patch is attempted, and can fail, exactly when the modelled status or one of the details beside it differs |
| Runs.DecisionKeepsSound | internal/evaluator/evaluator.go:154-163 | a decision on sound weights yields sound weights: all backends in order, within bounds, totalling 100 |
| Runs.WeightsStaySound | internal/controller/trafficpolicy_controller.go:98-208 | while the declared backends stay fixed and valid, the stored weights are empty or sound after every reconcile of every run |
| Runs.OnlyDecisionsMove | internal/controller/trafficpolicy_controller.go:144-147 | stored weights and change time move together, by a changed decision whose cooldown had elapsed; the only other move gives starting weights to a policy without any, alone or just before such a decision |
| Runs.DecisionWithinStep | internal/controller/trafficpolicy_controller.go:280-289 | one decision changes a declared backend's weight by at most the step |
| Runs.RateBound | internal/controller/trafficpolicy_controller.go:275-296 | over any run of span L a stored weight changes by at most step * (floor(L / cooldown) + 1), failed patches and defaults included, while the rest of the spec may vary |
| EditedRuns.TotalStays | internal/controller/trafficpolicy_controller.go:144-197 | whatever weights a run starts from, between any two of its rounds the declared backends keep their total and none moves further out of its interval |
| EditedRuns.SoundIff | internal/controller/trafficpolicy_controller.go:399-426 | weights listed as declared are within bounds at 100 if and only if they total 100 and nobody is out of its interval |
| EditedRuns.WrongTotalIsNeverRepaired | internal/controller/trafficpolicy_controller.go:144-147 | weights that do not total 100 over the declared backends never become sound |
| EditedRuns.HundredAfterEditIff | api/v1alpha1/trafficpolicy_types.go:31-36 | after an edit of the list the declared backends total 100, at once and as long as the list stays, if and only if those no longer declared had no weight between them |
| RouteRuns.RouteRateBound | api/v1alpha1/trafficpolicy_types.go:127-131 | while nobody else edits the route, a managed reference changes over a run of span L by at most step * (floor(L / cooldown) + 1) on top of what route and record were apart at its start, whatever fails |
| RouteRuns.WrittenIsNear | internal/controller/trafficpolicy_controller.go:149-207 | what is written on the route is what is then on record if the status is stored, and in any case within one step of the recorded or starting weights |
| RouteRuns.OtherRefStays | internal/router/httproute.go:69-74 | whatever a reconcile does, a reference to a backend neither declared nor on record keeps what it has, weight included, set or not |
| RouteRuns.OtherRefStaysInRuns | internal/router/httproute.go:69-74 | the same over a whole run, while nobody else edits the route |
| RouteRuns.ManagedRefFollows | internal/controller/trafficpolicy_controller.go:152-207 | after an error-free active reconcile a reference to a backend on record says what is then on record |
| Announcements.MetricsConditionStep | internal/controller/trafficpolicy_controller.go:235-273 | the metrics warning fires only from a condition that is not False, and leaving False takes a full sampling |
| Announcements.MetricsWarningsAreTransitions | internal/controller/trafficpolicy_controller.go:242-273 | between a recorded metrics warning and the next there is a reconcile that read every signal |
| Announcements.DegradedWarningsAreTransitions | internal/controller/trafficpolicy_controller.go:116-173 | between a recorded invalid-spec or missing-route warning and the next, some reconcile left another phase |
| Announcements.WarnsIffNotMuted | internal/controller/trafficpolicy_controller.go:116-158 | an invalid spec, a missing route or unreadable metrics are warned about if and only if the trouble is there and its guard is open: the phase is not already Degraded, for whatever reason, or the metrics condition is not already False |
| Announcements.PhaseStaysMatched | internal/controller/trafficpolicy_controller.go:116-202 | over every run from a status that matches, as a new policy's does: a reason of invalid spec or missing route means Degraded, and Degraded means one of these reasons or a write error |
| Announcements.NewTroubleAnnouncedIff | internal/controller/trafficpolicy_controller.go:116-171 | in a status that matches, a spec error or missing route that is not the reason on record is announced if and only if the policy is not Degraded for the other of the two, nor Degraded with a write error on record |
| Announcements.KnownTroubleIsQuiet | internal/controller/trafficpolicy_controller.go:116-158 | in a status that matches, trouble that is the reason on record is not announced again |
| Announcements.SecondTroubleIsSilent | internal/controller/trafficpolicy_controller.go:116-171 | of two different troubles in a row, the first one stored, the second is recorded but not announced |
| Announcements.WarningRepeatsIffUnrecorded | internal/controller/trafficpolicy_controller.go:386-394 | while the trouble lasts the next reconcile repeats the warning if and only if the first status was not stored |
| Announcements.TroublePersists | internal/controller/trafficpolicy_controller.go:116-173 | the same for the very world the first reconcile leaves, under the same environment |
| Announcements.WriteErrorIff | internal/controller/trafficpolicy_controller.go:174-179 | a write error is announced if and only if an active reconcile cannot read the route, or must change it and cannot |
| Announcements.WriteErrorsRepeat | internal/controller/trafficpolicy_controller.go:174-178 | from any world an unreadable route is announced twice in a row, stored status or not |
| Announcements.ShiftAnnouncedIff | internal/controller/trafficpolicy_controller.go:192-196 | a shift is announced if and only if the evaluator changed the weights and the route was found and took them or had them already |
| Announcements.SilentWriteIff | internal/controller/trafficpolicy_controller.go:149-196 | a reconcile changes the route without announcing a shift if and only if it made no decision, the route did not carry the recorded or starting weights and it could be written |
| Announcements.ShiftWithoutWriteIff | internal/controller/trafficpolicy_controller.go:152-196 | a shift is announced although the route stays as it is if and only if the evaluator changed the weights and the route, found and readable, already carried the result |
| Announcements.ProgressIff | internal/controller/trafficpolicy_controller.go:222-296 | the evaluator changes weights if and only if every signal was read, the recorded change is a cooldown ago and the decision moves something |
| Announcements.ShiftRepeatsIff | internal/controller/trafficpolicy_controller.go:192-207 | within the cooldown of an announced shift another is announced if and only if the first was not stored and the evaluator shifts again onto a route that can be read and takes it |
| Announcements.SameShiftToldAgain | internal/controller/trafficpolicy_controller.go:192-207 | after a shift that was not stored, the same signals make the controller announce the same weights again and write nothing |
| Announcements.ShiftRepeatsIffUnrecorded | internal/controller/trafficpolicy_controller.go:192-207 | without smoothing, in the world the first reconcile leaves, the announcement is repeated if and only if the first was not stored |
| Announcements.LateShiftIsSilent | internal/controller/trafficpolicy_controller.go:174-196 | a stored shift whose write failed reaches the route within the cooldown without ever being announced |
| Announcements.PauseIsNeverAnnounced | internal/controller/trafficpolicy_controller.go:112-142 | no reconcile emits Paused or Resumed |
| Runs.RouteCarriesStoredWeights | internal/controller/trafficpolicy_controller.go:152-207 | an active reconcile that finds the route and reports no error leaves the route carrying exactly the stored weights |
| Runs.RouteTotalsHundred | internal/controller/trafficpolicy_controller.go:144-207 | then the managed references of each rule naming every backend once total 100 |
| Runs.ReconciledMeansRouteAgrees | internal/controller/trafficpolicy_controller.go:183-202 | a Ready condition just stored says Reconciled only if the route carries exactly the stored weights |
| Examples.ToldTwice | internal/controller/trafficpolicy_controller.go:192-207 | a run that announces one shift twice, writing the route only once |
| Examples.NeverTold | internal/controller/trafficpolicy_controller.go:152-196 | a run whose shift is recorded, then written, and never announced |
| Examples.TwoStepsAtOnce | internal/controller/trafficpolicy_controller.go:275-296 | a run within one second that changes the route twice, the second time by one step more than route and record were apart |
| Examples.MaskedTrouble | internal/controller/trafficpolicy_controller.go:116-173 | in either order, a second kind of trouble is recorded without a warning |
| Examples.PointsLost | api/v1alpha1/trafficpolicy_types.go:31-36 | replacing a backend that carries 50 points leaves a total of 50 |
| SmoothedRuns.StepBuffer | internal/controller/trafficpolicy_controller.go:98-110 | each reconcile, even of a deleted policy, appends to this policy's buffers just the raw values it read |
| SmoothedRuns.BuffersFollowRun | internal/controller/trafficpolicy_controller.go:257-316 | over a run the buffers hold the latest part of all raw values read so far |
| SharedSmoother.ElsewhereKeepsBuffers | internal/controller/trafficpolicy_controller.go:98-110 | a reconcile of another policy, active, idle or gone, leaves this policy's buffers alone |
| SharedSmoother.BuffersAreOwn | internal/controller/trafficpolicy_controller.go:299-316 | however reconciles of several policies take turns on one smoother, each policy's run finds its buffers as its own last reconcile left them |
| SmoothedRuns.SensedIsWindowMean | internal/controller/trafficpolicy_controller.go:257-316 | a value read now reaches the evaluator as the mean of the raw values in its window (itself where there is no smoother), whichever signals were sampled before it |
| SmoothedRuns.CalmKeepsStart | internal/controller/trafficpolicy_controller.go:144-150 | whatever weights an active reconcile starts from, given just now or long recorded, a calm backend loses none of its own |
| SmoothedRuns.CalmBackendKeepsWeight | internal/controller/trafficpolicy_controller.go:257-289 | a backend whose raw samples lie at or below the threshold over each signal's averaging window never loses stored weight, nor starting weight in the reconcile that initialises |
| SettlingRuns.HoldsFromThenOn | internal/evaluator/evaluator.go:62-66 | once the evaluator holds, it holds for ever on its own output |
| SettlingRuns.PressingDecides | internal/controller/trafficpolicy_controller.go:275-296 | a reconcile that reads every signal after the cooldown and stores its status stores exactly the evaluator's decision; `Configuration.WaitDecides` tells when that is |
| SettlingRuns.OthersDoNotMove | internal/controller/trafficpolicy_controller.go:222-273 | any other reconcile leaves recorded weights alone |
| SettlingRuns.RunIterates | internal/controller/trafficpolicy_controller.go:275-296 | in any run whose active reconciles see one spec, and whose fully read, cooled-down and stored reconciles see the same signals, the stored weights after n reconciles are those of as many decisions in a row as there were such reconciles; every other reconcile is free to fail, wait, pause or find nothing |
| SettlingRuns.LoopSettles | internal/controller/trafficpolicy_controller.go:98-208 | once such a run has had enough of these reconciles, within the convergence bound, the stored weights never change again, with every breaching backend at its minimum or every healthy one at its maximum |
| SettlingRuns.FirstWeights | internal/controller/trafficpolicy_controller.go:144-147 | the first active reconcile whose status is stored leaves weights on record |
| SettlingRuns.LoopSettlesFrom | internal/controller/trafficpolicy_controller.go:144-208 | the same from any round of a run on at which there are weights, also from the very first ones |
| SteadySamples.WindowIsConstant | internal/evaluator/smoother.go:56-82 | once a value has been read alone for a whole window, the window holds nothing else, failed reads in between included |
| SteadySamples.SteadyWindowsShowRaw | internal/controller/trafficpolicy_controller.go:257-316 | over windows filled with steady samples the evaluator sees the raw samples |
| SteadySamples.LoopSettlesOnSteadySamples | internal/controller/trafficpolicy_controller.go:233-296 | once steady raw samples have filled every window, the loop settles where the evaluator would on the raw samples |
| Configuration.SpecsOnFields | internal/controller/trafficpolicy_controller.go:334-354 | latency, where configured, comes first with the latency threshold, error rate last with the error rate threshold, and nothing else is watched |
| Configuration.FullyReadIff | internal/controller/trafficpolicy_controller.go:228-265 | told from the fields: some signal is configured and each one configured could be read |
| Configuration.RawValueOnFields | internal/controller/trafficpolicy_controller.go:233-260 | a backend's latency is recorded where configured and read, its error rate where besides no configured latency was unreadable |
| Configuration.SeenOnFields | internal/controller/trafficpolicy_controller.go:228-265 | the evaluator sees each configured signal under its declared threshold, over averages of the last raw values: the declared window of them, 3 where nothing positive is declared, or all there are |
| Configuration.HealthOnFields | internal/controller/trafficpolicy_controller.go:334-354 | a backend is taken for breaching if and only if its average latency is above the latency threshold or its average error rate above the error rate threshold, either threshold being positive |
| Configuration.RawHealthOnFields | internal/controller/trafficpolicy_controller.go:334-354 | without smoothing, if and only if the value just read is |
| Configuration.WaitDecides | internal/controller/trafficpolicy_controller.go:364-370 | a fully read and stored reconcile stores the decision, of at most the declared step or 20, if the last recorded change is at least the declared cooldown or 30 seconds ago, and keeps the weights if it is not |
| Configuration.DueRunDecides | internal/controller/trafficpolicy_controller.go:275-296 | over a run under steady signals there are as many decisions in a row as reconciles were fully read, stored and had waited |
| Configuration.SpacedIsDue | internal/controller/trafficpolicy_controller.go:275-296 | where reconciles come at least a cooldown after one another, each is due |
| Configuration.SpacedRunDecides | internal/controller/trafficpolicy_controller.go:275-296 | so n such reconciles make n decisions |
| Configuration.SpacedRunSettles | internal/controller/trafficpolicy_controller.go:98-208 | after as many as the movable points take full steps, every breaching backend is at its minimum or every healthy one at its maximum |
| Outcomes.ErrorIff | internal/controller/trafficpolicy_controller.go:101-208 | an error is reported if and only if the policy cannot be fetched, the route cannot be read or written, or a status that is to change in anything cannot be stored |
| Outcomes.RequeueIff | internal/controller/trafficpolicy_controller.go:171-207 | a reconcile asks to run again after the declared cooldown or 30 seconds if and only if it is active and finds the route missing, or leaves it as it should be without an error |
| Outcomes.PhaseOnFields | internal/controller/trafficpolicy_controller.go:116-202 | the phase stored: Degraded, Frozen, Progressing, Stable or unchanged, told from spec, samples, route and decision |
| Outcomes.ConditionsOnFields | internal/controller/trafficpolicy_controller.go:116-190 | the three conditions stored, told from the same |
| Outcomes.TimesOnFields | internal/controller/trafficpolicy_controller.go:199-200 | an evaluation is dated when the route is as it should be, a change exactly when the evaluator moves weight |
| Outcomes.ReasonOnFields | internal/controller/trafficpolicy_controller.go:275-290 | the transition reason stored: the decision's, waiting, initialised or the one before |
| Examples.LoweredTwice | internal/controller/trafficpolicy_controller.go:275-296 | two reconciles half a minute apart each move a step |
| Examples.LoweringIsSpaced | internal/controller/trafficpolicy_controller.go:275-296 | they make a run of the kind that is proved to settle |

## Left out

* Prometheus HTTP and JSON, the Kubernetes client, manager setup and the CLI: input, output and user interface. Their answers are arbitrary values of `Env`.
* Prometheus counters and gauges, log lines, event messages and the wording of reasons: events are kept as a trace of causes, reasons as values.
* Condition messages and transition times, `observedGeneration`, the last transition reason's text, fractions of stored times: without influence on a decision, but the source compares them to decide whether a patch is attempted. The model does not compute them; whether one of them differs is an arbitrary value of `Env`.
* A status patch that is stored although it reports an error: a patch either fails and stores nothing or succeeds.
* The route name and the queries: carried along by the source.
* NaN and infinite samples, and rounding of means and scores in floating point: samples are reals.
* 32-bit overflow of weights and sums: weights are integers; the schema bounds keep them small.
* The smoother's mutex and parallel workers: each observation is one atomic step, and reconciles take turns, as with the default of one worker.
* Reads of a stale status from the client cache, and edits of the status by anyone else: a reconcile starts from the status last stored.
* Smoothing.Smooth: models the order of Go's map iteration as an arbitrary choice, with no claim that it is random.
* Evaluator.Classify: donors and recipients are lists of positions until they are sorted; the sorted lists are of shared backend states, as in the source.
* Ordering.StableSort: stands for `sort.SliceStable` as a function on positions; the library's own algorithm is not part of this model.
* Apportionment.InitialWeights: asks for a valid spec, which is what its only caller has just checked; ties between equal fractions fall by position here, while the properties cover every order.
