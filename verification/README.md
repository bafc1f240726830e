# Asynchronous Byzantine agreement, verified

A Dafny model of the agreement stack (reliable broadcast, graded vote, agreement loop, verifiable secret
sharing, common coin) and of the finite-field code under it, with proofs over every run.

The stack has `n` nodes of which at most `t` do not follow the code, `n > 3t`. Each service appears three times:

- as **functions** of a node's state and one event (`ACast`, `Vote`, `ABA`, `IVSS`, `IVSSNode`, `ICC`);
- as a **class** with the service's fields, handlers and loops, each method proved equal to those functions
  (`AcastService`, `VoteService`, `ABAService`, `IVSSService`, `ICCService`, `CertificationProtocol`);
- as a **system** of all nodes under any schedule, whose invariant carries the theorems (`ACastRuns`, `ACastMany`,
  `VoteRuns`, `ABARuns`, `IVSSRuns`, `ICCRuns`, `ICCJoint` and the theorem modules beside them).

Limits are shown by runs, too: `VoteSchedule`, `VoteScript`, `VoteForger` and `VoteSentinel` play out rounds of the
vote, `ABAScript` and `ABASplit` put such rounds together to runs of the loop, `IVSSScript`, `IVSSSchedule` and
`IVSSPlans` play out sharing instances, and `VoteExact`, `ABAExact` and `IVSSLimit` read the exact conditions off them.

`Modular`, `Products`, `Lagrange`, `Sharing`, `Bivariate`, `Commitment` hold the algebra; `Polynomial` and
`Interpolation` the loops over it. The modulus is any prime `p`, larger than the ids. Vote, agreement and sharing are
built on a *board*: what was A-Cast, one payload per origin and purpose, read by each node at its own pace. The A-Cast
theorems are what justifies the board.

## Results

- **A-Cast**: all READYs and all deliveries of one instance carry one value, that value was received in a MSG, and
  in a state where everything sent was handled one delivery means delivery everywhere. The service is what the messages
  of each identifier made of its instance, and a run of all instances is a run of each, so all this holds under every
  identifier.
- **Vote**: a grade 2 outcome settles the round; the round cannot get stuck; no ballot that counts rests on an INPUT
  the counting node has not read, and none that could count waits. Receivers check the set a ballot names
  and not its bit, so with forged bits each promise holds in all runs under an exact condition. Call a kind of ballot
  *justified* when every one names `n - t` senders and carries their majority. Graded values agree iff VOTE1s are
  justified, or none carries -1, or `n >= 5t`. A grade 2 outcome settles the round iff `t = 0`, or REVOTEs are
  justified and the former condition holds. Unanimous inputs win with grade 2 iff `t = 0` or VOTE1s are justified.
- **Agreement loop**: no node sends two results. No two nodes send different results, in any run and for any coins,
  iff `t = 0`, or REVOTEs are justified and VOTE1s are justified, or carry no -1, or `n >= 5t`. Nodes that all start
  with one bit get no other result iff `t = 0`, or VOTE1s are justified, or REVOTEs are. Under the first condition
  unanimity persists and decisions spread. Every INPUT is explained by a decision, an outcome or a coin of its round,
  and after a decision it is the decision. Re-entrant round starts terminate, lose no buffered message and take none
  early or twice.
- **Sharing**: Lagrange interpolation is exact, the secret does not depend on which consistent slices are used, and
  over all runs of any number of instances no honest pair is ever marked faulty, no wake-up is lost, every output
  comes once, and honest nodes reconstruct one value. Lists are accepted exactly as the code says, none is forgotten,
  and what the greedy passes choose is said without them. That last property (commitment) holds in all runs iff `n > 4t`,
  and so does reconstruction of what a code-following dealer dealt; if faulty nodes reveal nothing both hold for
  `n > 3t`.
- **Coin**: on top of the sharing layer and with all nodes acting, the sets of a node are formed, cast and used as they
  should be and its coin is that of the first proposed pair that fits; for `n > 4t` nodes that decide on one set of columns
  output one coin, whoever deals, reveals and casts what. When exactly `n - t` nodes act, every set is the live set and
  every coin is the one the dealt secrets fix.

## Hypotheses

- Origins are authentic: the sender named in a message is its sender, and each origin A-Casts one payload per
  purpose (per phase and round, or per instance identifier).
- A run of the agreement loop has rules that say which kinds of ballots are justified in it and whether VOTE1s may
  carry -1; the rules are a parameter of every theorem. They bind the faulty nodes only:
  `VoteTheorems.CodeFollowersAreJustified` shows that ballots of nodes that follow the code are justified. INPUTs and
  COMPLETEs of the other nodes are arbitrary. The round in a vote's wrapper is the round of its payload.
- A node gets at most one share per instance, from the instance's dealer, and polynomials have at most `t + 1`
  coefficients.
- A confirmation EQUAL:(i, j) is cast by `i` only. The code takes `i` from the payload and does not compare it with
  the caster (services/ivss.go:349); the same holds of the senders named in REVEAL and READY (services/ivss.go:392-398).
- Handlers are atomic; messages form a growing set that is delivered in any order.

## Where the documents and the code differ

The model follows the code.

- `pseudocode/vote.md` counts a VOTE1 whose set lies within the node's frozen A and a REVOTE whose set lies within its
  B; the code compares with all inputs received so far and with all valid VOTE1s (services/vote.go:279-332).
- `pseudocode/icc.md` waits for `t + 1` dealers, does not filter ACCEPT sets and reduces single secrets; the code waits
  for `n - t` dealers, filters, and reduces column sums (services/icc.go:301-389, services/icc.go:458-490).
- `pseudocode/aba.md` stops at a decision; the code goes on voting with it (services/aba.go:211-232).
- `pseudocode/ivss.md` suggests A-Casting the shares; the code sends them directly (services/ivss.go:183-202).

## Model

| member | source | states |
|---|---|---|
| ACastService.AcastService.GetInstance | services/acast.go:96-101 | the instance of a known identifier as it was, a fresh one the first time; no other changes |
| ACastService.AcastService.OnMsg | services/acast.go:122-145 | the ECHO reaction to a MSG, once |
| ACastService.AcastService.OnEcho | services/acast.go:147-167 | the READY reaction to `n - t` ECHOs of one value, once |
| ACastService.AcastService.OnReady | services/acast.go:169-206 | the early READY at `t + 1`, delivery and clearing at `2t + 1` |
| ACastService.AcastService.Act | services/acast.go:103-207 | the message goes to the instance it names, all others stay, and a delivered instance ignores it |
| ACastService.AcastService.OnMessage | services/acast.go:103-207 | every instance stays what the logged messages of its identifier made of it, and broadcasts and results are exactly those of the instances |
| ACastMany.ServeRemembers | services/acast.go:96-206 | one more message keeps table, deliveries and broadcasts equal to the folds over the messages of each identifier |
| ACastMany.EachIsARun | services/acast.go:96-207 | a run of nodes with tables of instances is, for every identifier, a run of its instance |
| ACastMany.AgreementForEach | services/acast.go:196-205 | under every identifier honest nodes deliver one value, each once |
| ACastMany.TotalityForEach | services/acast.go:180-205 | under every identifier one delivery means delivery everywhere once its messages are handled |
| ACastRuns.ReadyOnce | services/acast.go:154-205 | a READY leaves a node only while its flag is down, raises it, and carries the value handled |
| ACastRuns.OnMsgInv | services/acast.go:122-145 | a MSG keeps the one-shot flags and the tallies equal to the messages handled |
| ACastRuns.OnEchoInv | services/acast.go:147-167 | so does an ECHO, and no ECHO threshold is left unserved |
| ACastRuns.OnReadyInv | services/acast.go:169-206 | so does a READY, through the clearing of the tallies at delivery |
| ACastRuns.EmittedBacked | services/acast.go:154-194 | every READY of an honest node rests on `n - t` ECHOs of its value, directly or through earlier READYs |
| ACastRuns.RunInv | services/acast.go:103-207 | the invariant holds in every run with up to `t` arbitrary senders |
| ACastTheorems.ReadyAgreement | services/acast.go:154-194 | all READYs of honest nodes in one instance carry one value |
| ACastTheorems.Agreement | services/acast.go:196-205 | honest nodes deliver the same value, each at most once |
| ACastTheorems.Integrity | services/acast.go:109-205 | a delivered value was received in a MSG by an honest node |
| ACastTheorems.Totality | services/acast.go:180-205 | once all honest messages are handled, one delivery means every honest node has delivered that value |
| ACastTheorems.Validity | services/acast.go:122-205 | if only one value was ever sent in a MSG and all honest nodes got it, all of them deliver it |
| Vote.CommonSound | services/vote.go:341-352 | a common bit is somebody's, and nothing but -1 differs from it |
| Vote.CommonExactly | services/vote.go:341-352 | a set has the common bit `v` iff its first members, in order, say -1 and all others `v` |
| Vote.MajorityCounts | services/vote.go:244-261 | the majority is 1 iff fewer than half of the set are zeros |
| Vote.CommonComplete | services/vote.go:359-370 | a unanimous nonempty set yields its bit |
| VoteBoard.MajorityWins | services/vote.go:257-261 | fewer than half of a set cannot turn the majority, whichever way ties go |
| VoteBoard.QuorumForcesRevotes | services/vote.go:286-321 | once `n - t` VOTE1s agree, no justified REVOTE says anything else |
| VoteBoard.StrongOutcome | services/vote.go:341-357 | a grade 2 value is a bit and the VOTE1 of every honest member; the quorum is unanimous iff it holds no -1 |
| VoteBoard.WeakOutcome | services/vote.go:359-375 | a grade 1 value is a bit and the REVOTE of every honest member |
| VoteBoard.GradedValuesAgree | services/vote.go:334-378 | two graded outcomes have one value, whatever bits forged ballots carry, if no VOTE1 carries -1 or `n >= 5t` |
| VoteBoard.GradedAgreement | services/vote.go:334-378 | with justified REVOTEs, and no VOTE1 of -1 or `n >= 5t`, a grade 2 outcome fixes every REVOTE, and every finisher has its value with grade 1 or 2 |
| VoteBoard.UnanimousInputsWin | services/vote.go:240-274 | with justified VOTE1s and unanimous honest inputs every finisher has that value with grade 2, whatever the REVOTEs |
| VoteBoard.UnanimousInputsHold | services/vote.go:286-321 | with justified REVOTEs and unanimous honest inputs every finisher has that value with grade 1 or 2, whatever forged VOTE1s carry |
| VoteBoard.MajorityZero | services/vote.go:257-261 | up to half of a set may vote otherwise and the majority is still 0: ties go to 0 |
| VoteBoard.StrongHoldsRevote | services/vote.go:305-309 | a grade 2 outcome fixes every justified REVOTE if no VOTE1 carries -1 or `n >= 5t` |
| VoteScript.RoundPlayed | services/vote.go:136-381 | every script of a round, with ballots that keep the rules, is played by events that keep them one by one |
| VoteScript.Played | services/vote.go:136-381 | for any inputs, forged ballots and quorums of `n - t` there is a run in which each code-following node reads exactly its quorums and finishes with their decision |
| VoteExact.ForgerSplits | services/vote.go:277-284 | for every `t >= 1` a run with all honest inputs 0 in which one node finishes with (0, 2) and another with no value |
| VoteExact.RevoteSplits | services/vote.go:325-332 | the same split with justified VOTE1s: one forged REVOTE is enough |
| VoteExact.VoteWeakens | services/vote.go:277-284 | for every `t >= 1` a run with justified REVOTEs and all honest inputs 0 in which a node finishes with (0, 1) |
| VoteExact.SentinelSplits | services/vote.go:342-351 | for every `3t < n < 5t` a run with justified REVOTEs in which VOTE1s of -1 yield (0, 2) and (1, 1) |
| VoteExact.ValuesSafeExactly | services/vote.go:334-378 | graded values agree in all runs iff VOTE1s are justified, or carry no -1, or `n >= 5t` |
| VoteExact.GradingSafeExactly | services/vote.go:277-284 | a grade 2 outcome settles the round in all runs iff `t = 0`, or REVOTEs are justified and VOTE1s are justified, or carry no -1, or `n >= 5t` |
| VoteExact.ValiditySafeExactly | services/vote.go:325-332 | unanimous inputs win with grade 2 in all runs iff `t = 0` or VOTE1s are justified |
| VoteNode.Phase1Follows | services/vote.go:239-275 | the VOTE1 sent names the inputs read, a quorum, and carries their majority |
| VoteNode.Phase2Follows | services/vote.go:277-323 | the REVOTE sent names the valid VOTE1s, a quorum, and carries their majority |
| VoteNode.Phase3Follows | services/vote.go:325-380 | the outcome is the decision over the node's own quorums |
| VoteNode.ProgressFollows | services/vote.go:232-381 | one pass keeps the node in step with the board and leaves no phase unserved |
| VoteNode.DeliverFollows | services/vote.go:202-230 | so does a delivery, and a finished round ignores it |
| VoteRuns.RunInv | services/vote.go:136-381 | the invariant holds in every run of a round |
| VoteTheorems.CodeFollowersAreJustified | services/vote.go:240-321 | every ballot of a node that follows the code names a quorum and carries its majority |
| VoteTheorems.CountedVotesAreBacked | services/vote.go:279-284 | in every run each VOTE1 a REVOTE of a code-following node names, forged ones included, names only origins whose INPUT that node has read and is on the board |
| VoteTheorems.CountedRevotesAreBacked | services/vote.go:325-332 | so does each VOTE1 named by a REVOTE that a finished node counted |
| VoteTheorems.NothingWaits | services/vote.go:232-335 | in every run a node short of a phase has fewer than `n - t` of the INPUTs, supported VOTE1s or supported REVOTEs it needs |
| VoteTheorems.FinishersAgree | services/vote.go:334-378 | in every run finishers with a grade agree, if no VOTE1 carries -1 or `n >= 5t` |
| VoteTheorems.StrongSettlesTheRound | services/vote.go:334-378 | in every run with justified REVOTEs, and no VOTE1 of -1 or `n >= 5t`, a (s, 2) makes all REVOTEs s and all outcomes (s, 1) or (s, 2) |
| VoteTheorems.UnanimousInputsDecide | services/vote.go:240-274 | in every run with justified VOTE1s unanimous honest inputs `v` make every outcome (v, 2) |
| VoteTheorems.NeverStuck | services/vote.go:232-381 | once `n - t` live nodes have started and read what any of them cast or read, all of them have finished |
| VoteService.CountBits | services/vote.go:244-253 | the two counters are the numbers of zeros and of other bits, in any order of traversal |
| VoteService.MajorityBit | services/vote.go:257-261 | strict majority of ones, ties to 0 |
| VoteService.Supported | services/vote.go:279-284 | exactly the senders whose named set has arrived |
| VoteService.IsSubset | services/icc.go:540-557 | true iff every member occurs in the other set |
| VoteService.CommonBit | services/vote.go:342-352 | the scan with its -1 marker returns the common bit of the set, or -1 |
| VoteService.VoteService.TryVote1 | services/vote.go:239-275 | phase 1, once |
| VoteService.VoteService.TryRevote | services/vote.go:286-323 | phase 2, once, after VOTE1 |
| VoteService.VoteService.TryFinish | services/vote.go:334-380 | phase 3: grade 2 with a bit common to B, else grade 1 with one common to C, else no value |
| VoteService.VoteService.CheckProgress | services/vote.go:232-381 | the three phases in order with exactly their broadcasts; a REVOTE names exactly the VOTE1s all of whose senders' INPUTs are in, and C exactly the REVOTEs that name only those |
| VoteService.VoteService.StartRound | services/vote.go:136-158 | sends the INPUT of an unfinished round and acts on what has arrived |
| VoteService.VoteService.OnDeliver | services/vote.go:202-230 | records and acts unless finished; reports an outcome once |
| ABASafety.Persistence | services/aba.go:211-232 | with either kind of ballot justified and no other decision, a round entered with `v` alone makes every later round so, whatever the coins |
| ABASafety.Locked | services/aba.go:214-229 | after a grade 2 outcome every later round is entered with its value alone |
| ABASafety.NewOutcome | services/aba.go:195-234 | a new outcome keeps what the rules promise (one value among all grade 2 outcomes; unanimous inputs), also when a slow node finishes an early round late |
| ABALoop.CountedIsStrong | services/aba.go:263-275 | `t + 1` COMPLETEs mean some honest node reached that value with grade 2 |
| ABALoop.OnCompleteInv | services/aba.go:255-284 | a counted COMPLETE, a decision and one's own COMPLETE keep the invariant |
| ABALoop.OnVoteInv | services/aba.go:302-308 | a delivery that finishes the round, sets the estimate and enters the next round keeps it |
| ABALoop.OnCoinInv | services/aba.go:324-330 | any coin value keeps it |
| ABALoop.RunInv | services/aba.go:105-346 | it holds in every run |
| ABATheorems.StrongOutcomesAgree | services/aba.go:195-234 | all grade 2 outcomes of all nodes and rounds carry one value, under the condition of `ABAExact.OneResultExactly` |
| ABATheorems.OneResultEach | services/aba.go:271-275 | whatever the ballots, a node that sent a result sent that one only and decided it |
| ABATheorems.Agreement | services/aba.go:271-275 | under that condition no two honest nodes send different results, for any schedule and any coins |
| ABATheorems.ResultsAreEarned | services/aba.go:271-275 | whatever the ballots, a result is a bit some honest node reached with grade 2 |
| ABATheorems.UnanimityPersists | services/aba.go:211-232 | under that condition a round entered with `v` alone ends with `v` and a grade for all, which is 2 if VOTE1s are justified, as do all later ones, and every decision is `v` |
| ABATheorems.Validity | services/aba.go:105-111 | if all honest nodes start with `v` and either kind of ballot is justified, every result is `v` |
| ABAScript.ShowRun | services/aba.go:142-172 | whatever happens in one round of the vote can happen in that round of the loop |
| ABAScript.OneRound | services/aba.go:195-234 | the loop can play any script of a round and go on to the next with the estimates the outcomes and a common coin give |
| ABASplit.TwoRounds | services/aba.go:211-229 | a first round in which some nodes finish with (0, 2) and all others are free leads to a run in which those have cast COMPLETE for 0 and all others for 1 |
| ABAExact.OneResultExactly | services/aba.go:195-283 | all results are equal in all runs iff `t = 0`, or REVOTEs are justified and VOTE1s are justified, or carry no -1, or `n >= 5t` |
| ABAExact.RightResultExactly | services/aba.go:105-283 | nodes that all start with one bit send no other result in all runs iff `t = 0` or one kind of ballot is justified |
| ABAInputs.InputStep | services/aba.go:195-232 | an INPUT of a later round is cast by the node itself, from the round before, with the vote and the coin of that round in: the decision, else a graded outcome, else that coin |
| ABAInputs.DecidedInput | services/aba.go:211-212 | in every step a node that has decided casts no INPUT of a later round but its decision |
| ABAInputs.AfterDecision | services/aba.go:211-212 | in every run every such INPUT cast after a decision is the decision |
| ABAInputs.InputsExplained | services/aba.go:195-232 | in every run every INPUT of a later round is the node's decision, or its graded outcome of the round before, or a coin that came to it for that round |
| ABAInputs.NobodyWaits | services/aba.go:195-232 | in every run no node stays in a round whose vote and coin it both has |
| ABADecision.DecidersHelp | services/aba.go:277-282 | under the condition of `ABAExact.OneResultExactly` a node that has decided has cast COMPLETE for its decision |
| ABADecision.DecisionSpreads | services/aba.go:263-283 | under that condition, once one node decided, a node that got every cast COMPLETE has decided the same |
| ABATrace.NothingLost | services/aba.go:133-172 | between messages every event was taken once if its round has begun, and waits in its round's buffer otherwise |
| ABAService.ABAService.Enter | services/aba.go:113-130 | resets the round's results and starts its vote with the current estimate |
| ABAService.ABAService.StartRound | services/aba.go:113-140 | terminates, drains the buffers of all rounds entered, replays to the resulting state and accounts for every event |
| ABAService.ABAService.TakeBuffer | services/aba.go:132-139 | takes a buffer in order across nested round starts and then drops it |
| ABAService.ABAService.Dispatch | services/aba.go:174-193 | takes one event in a round no earlier than its own, and what it sets off |
| ABAService.ABAService.DispatchVote | services/aba.go:302-308 | only the current round's vote result counts |
| ABAService.ABAService.DispatchCoin | services/aba.go:182-186 | only the current round's coin counts; a coin of no round is dropped |
| ABAService.ABAService.HandleComplete | services/aba.go:263-283 | counts per value and sender, decides once at `t + 1`, casts COMPLETE once |
| ABAService.ABAService.CheckRoundProgress | services/aba.go:195-234 | moves on exactly with both results, and then sends as next INPUT the decision if there is one, else a graded vote value, else the coin |
| ABAService.ABAService.NewEstimate | services/aba.go:211-229 | the estimate is the decision if there is one, else a graded vote value, else the coin; COMPLETE once, on grade 2 and undecided |
| ABAService.ABAService.Start | services/aba.go:105-111 | begins round 1 |
| ABAService.ABAService.OnMessage | services/aba.go:142-172 | buffers events ahead of the round and takes all others; the node stays the replay of its log |
| Lagrange.DivisionByRoot | utils/polynomial.go:19-28 | a polynomial is its value at a point plus the distance times a quotient of one coefficient less |
| Lagrange.WeightsSumToOne | utils/polynomial.go:101-126 | the basis values at 0 of any distinct points add up to 1 |
| Lagrange.InterpolationIsExact | utils/polynomial.go:96-144 | interpolation at 0 recovers any polynomial with no more coefficients than points |
| Sharing.SubsetIndependence | services/ivss.go:617-639 | two sets of at least `t + 1` slices that agree across interpolate to one value |
| Bivariate.SymmetricValues | utils/polynomial.go:30-35 | a symmetric matrix gives a symmetric polynomial |
| Bivariate.SliceValue | utils/polynomial.go:67-94 | the slice dealt to `k` has the value of the bivariate polynomial at `k` and any point |
| Bivariate.SlicesAgree | utils/polynomial.go:47-91 | slices of one symmetric polynomial agree pairwise |
| Bivariate.SlicesGiveSecret | services/ivss.go:629-639 | slices at any `t + 1` points interpolate to the constant coefficient |
| Polynomial.EvalIsPowerSum | utils/polynomial.go:13-28 | nested evaluation is the sum of coefficient times power |
| Polynomial.Evaluate | utils/polynomial.go:19-28 | the loop, reducing at every step, returns the residue of the value |
| Polynomial.NewRandomSymmetric | utils/polynomial.go:38-65 | fails iff a draw fails; otherwise symmetric, the secret at (0, 0), every draw used once in order |
| Polynomial.EntryReads | utils/polynomial.go:50-60 | row `i`, column `j` below the first row is draw number `i(i + 1)/2 + j - 1`, and there are enough draws |
| Polynomial.SymmetricPolynomial.GetUnivariate | utils/polynomial.go:67-94 | the residues of the slice's coefficients |
| Polynomial.SymmetricPolynomial.ColumnValue | utils/polynomial.go:77-91 | one coefficient, with reduced powers and sums |
| Interpolation.Basis | utils/polynomial.go:106-125 | numerator and denominator of a basis polynomial at 0, as residues of products over all other points |
| Interpolation.InterpolateAtZero | utils/polynomial.go:96-144 | the residue of the Lagrange sum over the points, in any order |
| Interpolation.ExactOnValues | utils/polynomial.go:96-144 | on values of a polynomial with no more coefficients than points: the residue of its constant term |
| Interpolation.ShareReconstruct | services/ivss.go:629-639 | sharing and interpolating any distinct `t + 1` or more slices gives the secret back |
| Commitment.CommitmentByHonest | services/ivss.go:573-639 | reconstructions with at least `t + 1` honest members each have one value, for any dealt slices |
| Commitment.HonestDealer | services/ivss.go:573-639 | with such members the value is the dealer's secret |
| CommitmentLimit.CommitmentFails | services/ivss.go:611-617 | for every `3t < n <= 4t` two sets that pass the consistency check reconstruct two values, although honest members agree |
| CommitmentLimit.CommitmentExactly | services/ivss.go:573-639 | the check alone forces one value, for all slices and all reveals, iff `n > 4t` |
| Certification.CertificationProtocol.AddFaultyPair | services/certification.go:21-31 | adds the pair in both orders and forgets none |
| Certification.CertificationProtocol.IsFaultyPair | services/certification.go:33-42 | membership, whichever order is asked |
| IVSS.GreedyShape | services/ivss.go:447-487 | the built set is strictly increasing, so sorting it changes nothing, and pairwise confirmed |
| IVSS.GreedyMaximal | services/ivss.go:452-481 | a rejected id is not confirmed with some member |
| IVSS.GreedyTakesClique | services/ivss.go:452-481 | if ids `1..m` are pairwise confirmed all of them are members |
| IVSS.GreedyIsAccepted | services/ivss.go:483-528 | a built set that is large enough passes the verifier in the same state |
| IVSS.VerifiedMonotone | services/ivss.go:499-528 | more confirmations or fewer faulty pairs never withdraw acceptance |
| IVSS.SiftKeeps | services/ivss.go:583-609 | the interpolation set has no duplicates and only candidates |
| IVSS.SiftConsistent | services/ivss.go:573-609 | its polynomials agree pairwise |
| IVSS.SiftBlames | services/ivss.go:593-602 | a marked pair consists of two candidates whose polynomials contradict each other |
| IVSS.SiftMaximal | services/ivss.go:587-609 | a rejected candidate contradicts a kept one, and that pair is marked |
| IVSSChoice.GreedyChosen | services/ivss.go:447-487 | the built list takes ids in order, each unless it clashes with a smaller one taken: an EQUAL is missing or the pair is marked |
| IVSSChoice.ChosenOnce | services/ivss.go:447-487 | there is only one such list |
| IVSSChoice.OfferIs | services/ivss.go:439-496 | an unfinished dealer with `n - t` such members casts exactly that list; nobody else casts any |
| IVSSChoice.SiftIs | services/ivss.go:583-609 | a candidate is kept iff it differs from no earlier kept one, and exactly the pairs of a rejected one and the first kept one it differs from are marked |
| IVSSChoice.KeptOnce | services/ivss.go:583-609 | there is only one such set |
| IVSSLists.AcceptedIsClean | services/ivss.go:346-390 | when a node accepts a list, all EQUALs of its pairs were cast, no pair is marked at that node, and the node reports the list with its share |
| IVSSLists.NoListForgotten | services/ivss.go:346-390 | in every run a list delivered to a node is accepted, or waits there and is too short, lacks an EQUAL or holds a marked pair |
| IVSSLists.RevealersAreMembers | services/ivss.go:206-238 | in every run an honest node that has revealed is a member of the list it accepted and revealed its share |
| IVSSLists.MembersReveal | services/ivss.go:206-238 | a member that is asked to reveals its share |
| IVSSLists.DealerOffers | services/ivss.go:347-355 | after one more EQUAL an unfinished dealer casts exactly the chosen list if it has `n - t` members |
| IVSSService.IVSSService.VerifyMSet | services/ivss.go:499-528 | true iff the list has `n - t` entries and for all pairs both EQUALs are in and the pair is not marked |
| IVSSService.IVSSService.CanAdd | services/ivss.go:456-474 | true iff with every member both EQUALs are in and the pair is not marked |
| IVSSService.IVSSService.CheckCandidateSet | services/ivss.go:439-496 | only an unfinished dealer casts, and it casts the one list of `IVSSChoice.ChosenOnce` when it has `n - t` members |
| IVSSService.IVSSService.ProcessPoint | services/ivss.go:669-687 | casts the confirmation iff the point matches |
| IVSSService.IVSSService.OnShareMessage | services/ivss.go:267-294 | stores the share, sends every node its point, answers the buffered points in any order and clears them |
| IVSSService.IVSSService.OnPointMessage | services/ivss.go:296-306 | buffers a point before the share, checks it after |
| IVSSService.IVSSService.OnDirect | services/ivss.go:255-308 | ignores messages to others; otherwise the reaction to a share or point |
| IVSSService.IVSSService.OnEqualDelivered | services/ivss.go:347-368 | records a confirmation, lets the dealer offer, rechecks a waiting list |
| IVSSService.IVSSService.OnMSetDelivered | services/ivss.go:370-390 | accepts a verified list, keeps any other waiting |
| IVSSService.IVSSService.OnReadyDelivered | services/ivss.go:397-413 | outputs once with the secret and `n - t` READYs |
| IVSSService.IVSSService.FindCandidates | services/ivss.go:541-553 | lists each revealing member once, in any order |
| IVSSService.IVSSService.FirstConflict | services/ivss.go:590-603 | the first kept polynomial that contradicts the candidate |
| IVSSService.IVSSService.SiftCandidates | services/ivss.go:585-609 | the greedy pass, with exactly its marked pairs recorded |
| IVSSService.IVSSService.Combine | services/ivss.go:629-638 | the residue of the interpolated values at 0 |
| IVSSService.IVSSService.CheckInterpolationSet | services/ivss.go:530-649 | nothing without an agreed set and `n - 2t` revealing members; otherwise exactly the pairs of `IVSSChoice.SiftIs` are marked, and with `n - 2t` kept members the secret is their interpolation and READY is cast |
| IVSSService.IVSSService.OnRevealDelivered | services/ivss.go:392-395 | stores a reveal and tries to interpolate |
| IVSSService.IVSSService.OnACastDelivered | services/ivss.go:334-415 | the reaction to each kind of cast, on its own instance only |
| IVSSService.IVSSService.StartSharing | services/ivss.go:173-204 | sends every node its slice of one symmetric polynomial with the secret at (0, 0), or nothing if a draw fails |
| IVSSService.IVSSService.BeginReconstruction | services/ivss.go:206-238 | refused before sharing is over; members reveal their share, others nothing |
| IVSSMoves.ShareAnswersAll | services/ivss.go:272-294 | a share makes a node send every node its point and confirm exactly the early points that match |
| IVSSMoves.PointShareCommute | services/ivss.go:267-306 | a point before or after the share leads to the same state and the same confirmations |
| IVSSDeliveries.HonestConsistent | services/ivss.go:593-602 | revealed polynomials of two honest members never contradict each other |
| IVSSDeliveries.MemberHoldsShare | services/ivss.go:216-233 | an honest member of an accepted list holds its share |
| IVSSTheorems.StepInv | services/ivss.go:241-415 | every step of every instance keeps the invariant of all of them |
| IVSSTheorems.FaultyPairSoundness | services/ivss.go:593-602 | in every run no honest node marks a pair of honest nodes, whoever deals |
| IVSSTheorems.CommitmentOverRuns | services/ivss.go:397-413 | in every run with `n > 4t` all honest outputs of an instance are one value, whoever deals |
| IVSSTheorems.HonestDealerOverRuns | services/ivss.go:397-413 | and it is the secret of a dealer that follows the code |
| IVSSTheorems.SilentFaulty | services/ivss.go:397-413 | if faulty nodes reveal nothing it is that secret for `n > 3t` |
| IVSSTheorems.SilentAgreement | services/ivss.go:397-413 | if faulty nodes reveal nothing all honest outputs of an instance are one value for `n > 3t`, whoever deals |
| IVSSTheorems.CommitmentWithHonestMembers | services/ivss.go:573-639 | for `n > 3t` values earned with at least `t + 1` honest members agree in every run |
| IVSSPlans.Realised | services/ivss.go:173-415 | any slices, any polynomials of faulty nodes and any reveals read that pass the checks are played by a run in which every honest node outputs what its reveals interpolate to |
| IVSSLimit.TwoSecrets | services/ivss.go:611-639 | for every `3t < n <= 4t` a run in which two honest nodes output different values for one instance |
| IVSSLimit.OneOutputExactly | services/ivss.go:397-413 | commitment holds in all runs iff `n > 4t` |
| IVSSLimit.DealtOutputExactly | services/ivss.go:397-413 | all honest outputs are the secret of a code-following dealer in all runs iff `n > 4t` |
| IVSSTheorems.NoLostWakeUp | services/ivss.go:346-413 | a waiting list does not pass; with own READY and `n - t` READYs in, the output was sent; every output comes exactly once |
| IVSSTheorems.HonestNodesConfirm | services/ivss.go:669-683 | under a dealer that follows the code every honest point is confirmed |
| ICC.ColumnIsTotal | services/icc.go:467-481 | a column sums to the running total of its secrets from 0, in any order of its dealers |
| ICC.SingleColumn | services/icc.go:467-481 | the column of one dealer is its secret |
| ICC.CoinIs | services/icc.go:482-497 | the coin of a set is 0 iff the secrets of one of its columns add up to 0 modulo `u` |
| ICC.DecisionFrom | services/icc.go:446-507 | the coin is that of the first pair within the node's own sets all of whose secrets are known; there is none without such a pair |
| ICC.ProgressOnce | services/icc.go:300-393 | a second pass in the same state does nothing |
| ICCService.ICCService.CompleteDealers | services/icc.go:303-309 | exactly the dealers with `n` completed secrets |
| ICCService.ICCService.Filter | services/icc.go:331-340 | exactly the senders whose set lies within one's own |
| ICCService.ICCService.SumColumn | services/icc.go:461-481 | the running total of a column's secrets iff all of them are known |
| ICCService.ICCService.Evaluate | services/icc.go:454-497 | 0 iff some column sums to 0 modulo `u`, once all are known |
| ICCService.ICCService.CheckDecision | services/icc.go:441-507 | the first usable pair of sets decides, once |
| ICCService.ICCService.TryAttach | services/icc.go:301-325 | fixes T and casts it once |
| ICCService.ICCService.TryAccept | services/icc.go:327-356 | fixes A and casts it once, after T |
| ICCService.ICCService.TryReconstruct | services/icc.go:358-389 | fixes S, casts the final pair once and asks for exactly the secrets of A's columns |
| ICCService.ICCService.StartReconstruction | services/icc.go:414-439 | requests exactly the secrets `(k, j)` with `j` accepted and `k` in its attached set |
| ICCService.ICCService.CountSecret | services/icc.go:273-288 | counts each secret of a dealer once |
| ICCService.ICCService.CheckProgress | services/icc.go:300-393 | all steps in order with exactly their casts |
| ICCService.ICCService.OnMessage | services/icc.go:189-217 | the handler's pass and the second pass amount to one, a message that delivers nothing makes one pass, and a finished round ignores everything |
| ICCRuns.CommonCoin | services/icc.go:300-507 | when exactly `n - t` nodes act, T, A, S and every proposed pair are the live set and every coin is 0 iff the dealt secrets of some live column add up to 0 modulo `u` |
| ICCJoint.JointRunRefines | services/icc.go:255-299 | a run of coin and sharing together, in which a node acts on its own sharing outputs, is for the coin a run in which dealt secrets come back, if exactly `n - t` nodes act and the others reveal and cast nothing |
| ICCJoint.CommonCoinOverSharing | services/icc.go:300-507 | the same sets and the same coin over such runs |
| ICCRuns.SameSetSameCoin | services/icc.go:446-501 | nodes that agree on attached sets and known secrets evaluate one proposed set to one coin |
| ICCSets.SetsOverRuns | services/icc.go:300-507 | in every run of coin and sharing together, with any casts of faulty nodes: T, A and S are formed and cast as they should be, none that could be formed is missing, received sets were cast, and the coin is that of the first pair that fits |
| ICCAgreement.InputsOverRuns | services/icc.go:255-299 | in every such run a node counts only sharings its own sharing layer completed and adds only values it reconstructed |
| ICCAgreement.CoinHasSet | services/icc.go:441-507 | in every such run a coin is that of a proposed pair within the node's A and S whose columns it knows |
| ICCAgreement.OneSetOneCoin | services/icc.go:441-507 | in every such run with `n > 4t` two nodes that decide on one set of columns output one coin |

## Left out

- Goroutines, channels, the network and service loops: replaced by atomic steps over a growing set of messages.
- Mutexes: no claim about deadlock; a vote that finishes after the coin reaches the vote service again while its lock is held.
- Liveness of sharing and of the coin: the greedy sets need not reach their target in every run, and reveals are not rechecked when the member list comes later.
- Probability, secrecy, expected rounds, and the floating-point `u`: `u` is any positive integer.
- Lists inside payloads of the vote and the coin are sets: repeated entries are not modelled.
- JSON, UUIDs and the parsing of instance names: payloads are structured, instances are keyed by distinct names.
- The list of core invocations in the certification protocol: nothing reads it.
- Fields `receivedPoints` and `consistentPeers` of a sharing instance: nothing reads them.
- Polynomial.Evaluate: the modulus is a parameter `p > 0` in place of the fixed prime; primality is a hypothesis wherever it matters.
- Interpolation.InterpolateAtZero: needs points distinct modulo the prime; on repeated points the source has no inverse and panics.
- IVSSService.IVSSService.OnACastDelivered: needs candidates that differ modulo the prime; on others the source has no inverse and panics. A reveal without a polynomial is not modelled.
- IVSSService.IVSSService.BeginReconstruction: a member without a share reveals the empty polynomial where the source reveals a missing one; `IVSSDeliveries.MemberHoldsShare` shows it does not arise with two or more nodes.
- IVSSTheorems.CommitmentOverRuns: for two or more nodes.
- ICCRuns.CommonCoin: only for runs in which exactly `n - t` nodes act; takes reconstructed values to be the dealt ones, which `ICCJoint.CommonCoinOverSharing` derives from the sharing layer.
- IVSSLimit.DealtOutputExactly: the member list of an instance may be any list, also under a dealer that follows the code. The code names the cast of the list by the instance alone and does not compare its caster with the dealer (services/ivss.go:315-316, services/ivss.go:370).
- IVSSLimit.TwoSecrets: for ids `1..n`, the range in which points are sent.
- ABAService.ABAService.OnMessage: a message stands for what it makes the inner services deliver; messages that deliver nothing are not modelled.
