# Verified model of the DevOps agent swarm

A Dafny model of the parts of the swarm whose correctness spans more than one function, with proofs about all
their runs. `dafny verify dfyconfig.toml` checks everything.

| file | what it models |
|---|---|
| `Windows.dfy` | sliding windows over time stamps: what is recent, what fits into any interval |
| `Actions.dfy` | remediation actions as the agents read them |
| `Policy.dfy`, `BlastRadius.dfy`, `RateLimiting.dfy`, `SafetyGate.dfy` | the safety agent: its three checks, the composed verdict, and whole runs of it |
| `Remediator.dfy`, `RemediationProtocol.dfy`, `RemediationGuarantees.dfy`, `Rollbacks.dfy`, `RemediationBooks.dfy` | the remediator with its executor, and remediator and safety agent over a bus that duplicates, reorders and loses messages, with restarts of the remediator: which executions are approved, how often, what else reaches the executor, and what becomes of every proposal |
| `IncidentFsm.dfy`, `Escalation.dfy`, `Orchestrator.dfy`, `MessageTable.dfy`, `OrchestratorRuns.dfy`, `Clocks.dfy`, `Rejections.dfy`, `Restarts.dfy` | the incident state machine, the timeout scan, the message handlers with the persisted status, what each message does in each state, the machines' clocks, and runs of rejections, messages in any order and restarts |
| `Swarm.dfy` | safety agent, remediator and orchestrator together: which incidents can be resolved |
| `Accounts.dfy`, `Timeline.dfy` | additive dictionaries, and the postmortem's time per event type |
| `Inventory.dfy`, `InventoryOrder.dfy`, `InventoryConcurrency.dfy`, `InventoryRuns.dfy`, `InventoryDeadlocks.dfy` | stock reservation, alone, in every order of the items, repeated, in every interleaving of transactions, which histories these produce, and when they block one another |
| `Predictor.dfy`, `Detector.dfy`, `Deduplicator.dfy` | the observer: trend regression, anomaly detection, alert suppression |
| `Learner.dfy`, `RunbookTies.dfy` | runbook statistics, in a batch and as upserted counters, and how ties are broken |

Conventions. A time stamp is a whole number of microseconds and an explicit argument wherever the code reads its
clock; clocks do not go back within a run. Metric readings, regression and z-scores are exact reals. An object
whose methods update its fields is a class, and each such method is proved against a function on values; the
properties of runs are lemmas about those functions. A dictionary whose order the code depends on is a map with the
sequence of its keys. Errors that the code raises are values of the result.
Every lemma switches automatic induction off: its induction is the one written in its body.

## What the proofs found

Each of these is proved with the exact condition under which it happens.

- No incident whose diagnoses lead to one action is ever resolved (`Swarm.OneActionNeverResolves`). Execution has to
  follow a review, the orchestrator enters the review only on a decision that is left to a human, and what is left to
  a human is never approved. A correlation id needs an action of either kind, and one that the executor can run
  (`Swarm.ResolvableIff`). The executor knows two types of action; the policy passes others, which always fail
  (`Rollbacks.ScalingIsApprovedAndFails`).
- The cooldown is kept only up to the hour that the rate log remembers: with a longer cooldown two approvals an hour
  apart go through (`SafetyGate.CooldownKeptIff`, `SafetyGate.PrunedAnswersLikeUnprunedIff`).
- A blast radius of "critical" does not raise the risk, and on the graph that is built no target is ever "medium" or
  "high", so the blast radius never blocks anything (`SafetyGate.StaticGraphNeverBlocks`,
  `SafetyGate.CriticalIsNoObstacle`). The comment beside the check names those two levels as well, so this is what the
  code means to do.
- What an approved decision executes is always what was approved exactly when no correlation id has two planned actions
  of which one can be approved and the other has a type (`RemediationGuarantees.SoundIffUnambiguous`). That does not
  cover rollbacks: what a failed verification takes an action back with is executed without any check. So everything
  that reaches the executor was approved exactly when, besides, no action that can run defines a rollback
  (`Rollbacks.ApprovedIff`), and it meets the rules exactly when all planned actions and their rollbacks do
  (`Rollbacks.PermittedIff`). A permitted restart can run a banned one (`Rollbacks.BannedRestartIsRun`).
- A decision executes as often as it is delivered while its correlation id has an entry whose action has a type
  (`RemediationGuarantees.ExecutesPerLiveDelivery`); that no decision ever executes twice, or no proposal is ever lost,
  holds exactly when nothing can be executed at all (`RemediationGuarantees.AtMostOnceIff`,
  `RemediationBooks.NothingLostIff`). A proposal is lost exactly when it is made after the execution of another of its
  correlation id and before the entry is deleted, be it during the verification or while the report of a success or
  failure is published (`RemediationBooks.LostIff`).
- A restart of the remediator forgets exactly what waits for a decision, and leaves exactly what is being verified
  executed without a report (`RemediationBooks.RestartForgetsIff`).
- A rejection clears the retries where it sends the incident back to proposing, and counts one where it cannot
  (`Rejections.RejectionResetsIff`). So rejections in a row call a human after at most three
  (`Rejections.RejectionsInARow`), and rejections with reviews in between never do (`Rejections.ReviewsClearTheCount`).
- A resolved incident is taken up again exactly when a pending decision for it is delivered before a restart
  (`Restarts.RevivedIff`); an unattended incident is escalated again at every scan after its first escalation
  (`Escalation.EscalatesForEver`).
- `_ols` adds the shift of the time axis where it has to be subtracted, so the projection is off by exactly twice the
  slope times the first time stamp (`Predictor.ProjectionGap`). Slope, fit quality and the decision to alert are not
  affected.
- Negative quantities, which the inventory worker accepts, make the verdict depend on the order of the items exactly
  when some product's positive quantities exceed its stock although every total is in stock, where no column can
  overflow on the way (`InventoryOrder.OrderIsIrrelevantIff`). An order that is delivered again is reserved again if it
  is in stock twice (`InventoryOrder.RedeliveryReservesAgainIff`).
- Concurrent reservations produce exactly the serial histories: an order history is committed in some run if and only if
  it goes through one order after the other (`InventoryRuns.CommittedIff`).
- Reservations lock rows in the order of their items. Two orders can block each other exactly when each can take some of
  its items and then comes to a product the other has taken (`InventoryDeadlocks.DeadlockIff`); orders that list their
  products in one common order never do, however many run (`InventoryDeadlocks.CommonOrderNeverDeadlocks`).
- "Ties: prefer lower MTTR" compares totals; these agree with the averages exactly when the tied runbooks were tried
  equally often (`RunbookTies.LeastAverageIff`).
- The detector's verdict is independent of the unit of measurement exactly when the baseline varies, the reading is its
  mean, or no threshold is positive (`Detector.UnitsDoNotMatterIff`).

## Model

| member | source | states |
|---|---|---|
| `RateLimiting.RateLimiter.constructor` | agents/safety/src/rate_limiter.py:15-18 | an empty log, three approvals an hour and a quarter of an hour's cooldown unless told otherwise |
| `RateLimiting.RateLimiter.Check` | agents/safety/src/rate_limiter.py:29-52 | the answer for this fingerprint's stamps of the last hour, with its reason, and the log pruned by the hour whatever the answer |
| `RateLimiting.RateLimiter.Record` | agents/safety/src/rate_limiter.py:54-60 | one entry more, at the end, nothing else touched |
| `RateLimiting.AllowedExactly` | agents/safety/src/rate_limiter.py:43-52 | an action passes if and only if fewer than the cap of its stamps lie in the last hour and none of those lies within the cooldown |
| `RateLimiting.RoomIff` | agents/safety/src/rate_limiter.py:20-52 | in terms of the logged actions: there is room if and only if fewer than the limit of actions of the same type and target were logged in the last 3600 seconds, and none in the last cooldown minutes times 60 seconds; a database stands in for a missing target |
| `RateLimiting.PrunePrune` | agents/safety/src/rate_limiter.py:35-37 | pruning repeatedly is pruning once by the latest cutoff |
| `RateLimiting.StampsOfPruned` | agents/safety/src/rate_limiter.py:37-40 | selecting a fingerprint and pruning commute |
| `RateLimiting.PruningIsInvisible` | agents/safety/src/rate_limiter.py:35-52 | with a cooldown of at most an hour, older stamps never change an answer |
| `Policy.PassesExactlyPermitted` | agents/safety/src/policy_engine.py:20-48 | an action passes the policy if and only if no rule objects to it, whatever order the rules are tried in |
| `Policy.RefusedByTheFirst` | agents/safety/src/policy_engine.py:20-48 | a refusal names the first rule, in the order they are tried, that objects |
| `BlastRadius.BlastRadiusCalculator.constructor` | agents/safety/src/blast_radius.py:13-52 | exactly the listed services and dependencies |
| `BlastRadius.BlastRadiusCalculator.Calculate` | agents/safety/src/blast_radius.py:54-91 | level, score and affected services, where affected means: has a directed path to the target |
| `BlastRadius.BlastByCount` | agents/safety/src/blast_radius.py:54-91 | an action without a target in the graph is of unknown risk; else core infrastructure is critical, more than half of the services affected is high, more than a fifth medium, and the score is the share affected |
| `BlastRadius.StaticAncestors` | agents/safety/src/blast_radius.py:17-52 | on the graph that is built, exactly the listed services are affected by each target |
| `BlastRadius.Upstream` | agents/safety/src/blast_radius.py:69-72 | the backward search finds a service if and only if some path leads from it to the target, on any graph |
| `BlastRadius.UpstreamGrowsAlongEdges` | agents/safety/src/blast_radius.py:69-73 | in an acyclic graph whatever affects a service affects, together with that service, everything it relies on |
| `BlastRadius.ScoreGrowsAlongEdges` | agents/safety/src/blast_radius.py:72-73 | along a dependency the score strictly grows, and stays below one |
| `BlastRadius.LevelMonotoneIff` | agents/safety/src/blast_radius.py:75-84 | the risk level never falls along a dependency if and only if overridden services rely only on overridden ones |
| `BlastRadius.StaticGraphIsAcyclic` | agents/safety/src/blast_radius.py:17-52 | the graph that is built has no cycle, and the overridden services rely on nothing |
| `BlastRadius.StaticBlastNeverMediumOrHigh` | agents/safety/src/blast_radius.py:54-91 | on that graph no target is ever of medium or high risk |
| `SafetyGate.SafetyAgent.EvaluateAction` | agents/safety/src/main.py:81-123 | one evaluation gives the composed verdict and records the approved actions and no others |
| `SafetyGate.ApprovesExactly` | agents/safety/src/main.py:81-123 | an action is approved if and only if the rate log has room for it, the policy permits it, and neither its declared nor its computed risk is medium or high |
| `SafetyGate.ApprovedIff` | agents/safety/src/main.py:81-123 | after any run the next action is approved if and only if fewer than the limit of its type and target were approved in the last 3600 seconds, none within the cooldown, no rule objects, and neither declared nor computed risk is medium or high |
| `SafetyGate.StaticGraphNeverBlocks` | agents/safety/src/main.py:102-105 | on the graph that is built the computed risk decides nothing |
| `SafetyGate.AsksHumanExactly` | agents/safety/src/main.py:98-112 | a human is asked if and only if the rate log has room and the policy objects; such an action is never approved |
| `SafetyGate.CriticalIsNoObstacle` | agents/safety/src/main.py:102-123 | any action on a service of critical blast radius is approved if and only if rate log, policy and declared risk allow it |
| `SafetyGate.HistoryAnswersForLog` | agents/safety/src/rate_limiter.py:35-52 | the pruned history gives the answer of the log of all approvals |
| `SafetyGate.GateInvHolds` | agents/safety/src/main.py:90-115 | after every run the log is chronological, answers for everything that was ever approved, and is paced per fingerprint, although check and record read the clock separately |
| `SafetyGate.HourlyCap` | agents/safety/src/rate_limiter.py:42-44 | over every run, any half-open hour holds at most the cap of approvals of one fingerprint |
| `SafetyGate.CooldownKeptIff` | agents/safety/src/rate_limiter.py:46-50 | approvals of one fingerprint are a cooldown apart in every run if and only if the cooldown is at most an hour, or nothing is ever approved |
| `SafetyGate.PrunedAnswersLikeUnprunedIff` | agents/safety/src/rate_limiter.py:35-52 | pruned and never-pruned log agree, on every fingerprint after every run, if and only if the same holds |
| `SafetyGate.HourlyCapWithRestarts` | agents/safety/src/rate_limiter.py:15-16 | when restarts empty the log, an hour holds at most one cap of approvals more for every restart in it |
| `Remediator.RemediatorAgent.HandleDiagnosis` | agents/remediator/src/main.py:81-142 | stores the rendered action under the correlation id, over whatever was there, and asks for a review of exactly it; does nothing without a runbook |
| `Remediator.RemediatorAgent.PublishCompletion` | agents/remediator/src/main.py:197-224 | one completion message with the stored action's type and the result |
| `Remediator.RunnableIff` | agents/remediator/src/action_executor.py:21-75 | the executor can succeed with an action if and only if it is a circuit breaker, or a restart with a target; whatever the container runtime answers, all else fails |
| `Remediator.ExecutesIff` | agents/remediator/src/action_executor.py:21-75 | for each answer of the container runtime: only a circuit breaker, and a restart of a target that is carried out or pretended, succeeds |
| `Remediator.ApprovedIsExecuted` | agents/remediator/src/main.py:169-188 | so an approved entry with a type waits for its verification, with nothing sent, in exactly these cases, and is reported as failed in all others |
| `Remediator.RejectedIsDropped` | agents/remediator/src/main.py:159-163 | a rejection removes the entry of its correlation id, no other, and sends nothing |
| `Remediator.NothingToDo` | agents/remediator/src/main.py:150-170 | a decision that is pending, unknown, or approves an action without a type, changes nothing |
| `Remediator.DiagnosisIsStored` | agents/remediator/src/main.py:81-142 | the same in fields: one entry more, under this correlation id, with the runbook's action, and one request for a review of this action |
| `Remediator.AtOnceIsDone` | agents/remediator/src/main.py:144-191 | with nothing in between, an approved entry with a type is executed, reported once and gone, as a success only if execution and verification succeeded |
| `Remediator.VerificationIsReported` | agents/remediator/src/main.py:179-185 | a verification that succeeds is reported as success without a rollback; one that fails hands the action's rollback, if there is one, to the executor and is reported as failed |
| `Remediator.RemediatorAgent.StartDecision` | agents/remediator/src/main.py:144-188 | the handler up to its first await: drops on rejection, waits on pending, raises on an approved action without a type, and otherwise executes what is stored; it then waits for the verification, or reports the failure and waits for the acknowledgement |
| `Remediator.RemediatorAgent.ReportVerification` | agents/remediator/src/main.py:179-185 | from the verification to the await of its report: reports a success, or rolls back, handing the action's rollback to the executor if there is one, and reports that |
| `Remediator.RemediatorAgent.Delete` | agents/remediator/src/main.py:190-191 | the end of the handler, on whatever the map holds by then: deletes the entry that is there, raising if there is none |
| `Remediator.RemediatorAgent.HandleSafetyDecision` | agents/remediator/src/main.py:144-191 | all of it with nothing in between; it raises only on an approved action without a type |
| `RemediationProtocol.StepKeepsSound` | agents/remediator/src/main.py:81-191 | every step of either agent, on any message ever sent, keeps: approved decisions executed only what was approved (the execute call alone; for rollbacks see `Rollbacks`) |
| `RemediationProtocol.SoundRun` | agents/remediator/src/main.py:144-173 | over every run with duplicated, reordered and lost messages and restarts, what an approved decision executes was approved earlier for its correlation id, if actions are unambiguous (the execute call alone) |
| `RemediationProtocol.ReviewIsAnswered` | agents/safety/src/main.py:81-145 | every review is answered by one decision: rejected without room in the rate log, approved if nothing objects, left to a human if a rule does |
| `RemediationGuarantees.SoundIffUnambiguous` | agents/remediator/src/main.py:106-173 | this holds of all runs if and only if no correlation id has two planned actions of which one can be approved and the other has a type (the execute call alone) |
| `RemediationGuarantees.AmbiguityIsUnsound` | agents/remediator/src/main.py:150-173 | otherwise there is a run in which an approval executes an action nobody approved |
| `RemediationGuarantees.IdenticalDiagnosesAreSound` | agents/remediator/src/main.py:81-173 | identical diagnoses per correlation id are enough: each action an approved decision executes was evaluated earlier with room in the rate log, no rule objecting, and neither declared nor computed risk medium or high (the execute call alone) |
| `Rollbacks.HandedIff` | agents/remediator/src/rollback_manager.py:16-33 | exactly these actions reach the executor for a correlation id in some run, by approval or by rollback: once anything can be approved for it, every planned action that has a type, and the rollback of every one of these that can run |
| `Rollbacks.PermittedIff` | agents/remediator/src/main.py:169-188 | in every run everything that reaches the executor meets policy and risk rules if and only if all those planned actions and rollbacks do |
| `Rollbacks.ApprovedIff` | agents/remediator/src/main.py:169-188 | in every run everything that reaches the executor was approved earlier for its correlation id if and only if actions are unambiguous and none that can run defines a rollback |
| `Rollbacks.RollbackIsHanded` | agents/remediator/src/main.py:177-185 | for every planned action that can be approved and run and defines a rollback, a run in which that reaches the executor |
| `Rollbacks.BannedRestartIsRun` | agents/safety/src/policy_engine.py:15-18 | so on the graph that is built a restart that the policy bans is executed as the rollback of one that it passes |
| `Rollbacks.ScalingIsApprovedAndFails` | agents/remediator/src/action_executor.py:29-34 | a scaling within its limit can be approved, and fails whatever the runtime answers |
| `Rollbacks.MissingContainerFails` | agents/remediator/src/action_executor.py:58-66 | an approved restart of a container that does not exist, or that the runtime refuses, is reported as failed |
| `RemediationGuarantees.ExecutesPerLiveDelivery` | agents/remediator/src/main.py:149-173 | in every run a decision executes exactly as often as it is delivered approved while its correlation id has an entry whose action has a type |
| `RemediationGuarantees.OncePerRunIff` | agents/remediator/src/main.py:149-173 | so in a run no decision executes twice if and only if none is delivered so twice |
| `RemediationGuarantees.AtMostOnceIff` | agents/remediator/src/main.py:106-191 | no decision executes twice in any run if and only if no correlation id has both an action that can be approved and one, maybe the same, that has a type |
| `RemediationGuarantees.ExecutionsWithinApprovals` | agents/remediator/src/main.py:169-173 | if no decision is delivered twice, executions are matched one to one with approvals of their own |
| `RemediationGuarantees.RedeliveryExecutesTwice` | agents/remediator/src/main.py:106-191 | for every such correlation id, a run that executes one approval twice |
| `RemediationGuarantees.ApprovalsStayCapped` | agents/safety/src/main.py:90-115 | over the protocol, too, no hour holds more approvals of a fingerprint than the cap |
| `RemediationBooks.BooksAreKept` | agents/remediator/src/main.py:106-191 | over every run, restarts included, each stored entry leaves the map in exactly one way, is executed at most once, never after a rejection, and is reported once for that unless its verification is still awaited or was cut off by a restart |
| `RemediationBooks.OneFateEach` | agents/remediator/src/main.py:106-191 | in every run every stored proposal waits, is in verification, was superseded, declined or answered, is lost, or was forgotten or interrupted by a restart: exactly one of these |
| `RemediationBooks.FatesAddUp` | agents/remediator/src/main.py:106-191 | so the proposals stored are those eight kinds, counted once each |
| `RemediationBooks.FatesMoveForward` | agents/remediator/src/main.py:106-191 | in every run a proposal in verification stays there or is answered or interrupted, and every other fate but waiting is final |
| `RemediationBooks.RestartForgetsIff` | agents/remediator/src/main.py:106-191 | a restart after any run makes exactly the waiting forgotten, and exactly what is in verification interrupted |
| `RemediationBooks.ExecutesWhatWasStored` | agents/remediator/src/main.py:150-190 | what an approved decision executes is the action of that entry, stored earlier under the same correlation id; the deletion at the end never raises |
| `RemediationBooks.ReportsInOrder` | agents/remediator/src/main.py:173-188 | in every run a report follows the execution it reports and tells how it went, and a failed verification is rolled back, with what the action defines for that, before its report |
| `RemediationBooks.LostIff` | agents/remediator/src/main.py:173-190 | the end of a handler, after success, failed verification or failed execution, deletes a proposal that was never executed if and only if a diagnosis for its correlation id found a runbook since the execution |
| `RemediationBooks.ProposalLostWhileReporting` | agents/remediator/src/main.py:173-190 | wherever something can be approved and something with a type is planned, a run that loses a proposal, whatever the executor makes of it |
| `RemediationBooks.NothingLostIff` | agents/remediator/src/main.py:106-190 | no proposal is lost in any run if and only if nothing can be executed |
| `IncidentFsm.IncidentFSM.Transition` | agents/orchestrator/src/incident_fsm.py:75-94 | moves along an allowed edge, recording it and resetting clock and retries; refuses anything else and changes nothing |
| `IncidentFsm.IncidentFSM.IncrementRetry` | agents/orchestrator/src/incident_fsm.py:111-115 | one retry more and a new clock, same state and history |
| `IncidentFsm.MovedKeepsGood` | agents/orchestrator/src/incident_fsm.py:29-94 | a transition to a resting state keeps the history one unbroken lawful path |
| `IncidentFsm.VerifiedAndResolvedKeepsGood` | agents/orchestrator/src/orchestrator_agent.py:282-287 | verifying is entered from executing only, and the second transition cannot fail |
| `IncidentFsm.ResolvedAfterLastProposal` | agents/orchestrator/src/incident_fsm.py:29-38 | a resolved incident's path after its last proposal is exactly review, execution, verification, resolved |
| `Escalation.EscalationManager.RetryCurrentState` | agents/orchestrator/src/escalation_manager.py:47-67 | one retry of this machine, announced with the new count |
| `Escalation.EscalationManager.EscalateToHuman` | agents/orchestrator/src/escalation_manager.py:69-89 | one message to a human, no machine touched |
| `Escalation.EscalationManager.CheckOne` | agents/orchestrator/src/escalation_manager.py:34-43 | one incident's turn in the scan: untouched, retried with a message, or escalated and reported as such |
| `Escalation.EscalationManager.CheckTimeouts` | agents/orchestrator/src/escalation_manager.py:27-45 | a scan treats every incident by itself, sends its messages in order, and returns exactly the escalated ones |
| `Escalation.EscalationManager.HandleDeadAgent` | agents/orchestrator/src/escalation_manager.py:91-116 | exactly the incidents that wait on the dead agent's type are escalated, none is changed |
| `Escalation.EscalationTime` | agents/orchestrator/src/escalation_manager.py:27-67 | when an incident with some retries behind it is first escalated, and how many more retries it gets, even if a retry reads the clock later than the check |
| `Escalation.NoEscalationIsEarly` | agents/orchestrator/src/escalation_manager.py:34-43 | no scan after the bound finds the incident not escalated |
| `Escalation.UnattendedIncident` | agents/orchestrator/src/incident_fsm.py:96-115 | an incident left alone gets exactly the maximal number of retries before its first escalation, which comes later than three timeouts and no later than three timeouts and three scan gaps after it entered the state |
| `Escalation.EscalatesForEver` | agents/orchestrator/src/escalation_manager.py:34-43 | from then on every scan escalates it again |
| `Orchestrator.OrchestratorAgent.constructor` | agents/orchestrator/src/orchestrator_agent.py:88-90 | a restart on existing rows |
| `Orchestrator.OrchestratorAgent.RecoverInflight` | agents/orchestrator/src/orchestrator_agent.py:359-376 | one machine of its own per unresolved row, in the persisted state |
| `Orchestrator.OrchestratorAgent.HandleAnomaly` | agents/orchestrator/src/orchestrator_agent.py:121-191 | opens an incident in diagnosing with row and messages, unless one is active or a row is in the way |
| `Orchestrator.OrchestratorAgent.UpdateIncidentStatus` | agents/orchestrator/src/orchestrator_agent.py:378-388 | status and clock of an existing row |
| `Orchestrator.OrchestratorAgent.HandleDiagnosisResult` | agents/orchestrator/src/orchestrator_agent.py:193-228 | machine, row and announcement move together or not at all |
| `Orchestrator.OrchestratorAgent.HandleSafetyDecision` | agents/orchestrator/src/orchestrator_agent.py:230-270 | approval moves all three, rejection the machine only, and pending writes the row even where the machine refuses |
| `Orchestrator.OrchestratorAgent.HandleExecutionResult` | agents/orchestrator/src/orchestrator_agent.py:272-325 | success resolves through verifying, failure counts a retry and goes back or calls a human |
| `Orchestrator.OrchestratorAgent.HandleHumanApproval` | agents/orchestrator/src/orchestrator_agent.py:331-353 | a human approval is an approval, a human rejection an escalation |
| `Orchestrator.OrchestratorAgent.CheckTimeouts` | agents/orchestrator/src/orchestrator_agent.py:92-99 | a round of the loop scans all active machines and persists nothing |
| `MessageTable.AnomalyOpens` | agents/orchestrator/src/orchestrator_agent.py:121-191 | an anomaly opens exactly the incident that has neither machine nor row, in diagnosing, and asks for its diagnosis |
| `MessageTable.UnknownIsIgnored` | agents/orchestrator/src/orchestrator_agent.py:193-353 | without a machine no other message does anything |
| `MessageTable.RestartRebuilds` | agents/orchestrator/src/orchestrator_agent.py:359-376 | exactly the incidents whose row is neither resolved nor closed, in the state and at the time of the row, with no retries and no history |
| `MessageTable.OneNoticeEach` | agents/orchestrator/src/escalation_manager.py:34-45 | a scan sends one notice for each incident it has something to say about, and no other |
| `MessageTable.ReturnsTheCalled` | agents/orchestrator/src/escalation_manager.py:27-45 | a scan returns the incidents it has called a human about, in the order it went through them |
| `MessageTable.DiagnosisProposes` | agents/orchestrator/src/orchestrator_agent.py:193-228 | a diagnosis leads from diagnosing, review and execution to proposing, with a new clock, no retries, the change recorded, persisted and announced; elsewhere it changes nothing |
| `MessageTable.ApprovalExecutes` | agents/orchestrator/src/orchestrator_agent.py:240-249 | an approval, also a human one, leads from review to execution in the same way |
| `MessageTable.PendingReviews` | agents/orchestrator/src/orchestrator_agent.py:263-270 | a decision left to a human puts a proposal under review, and writes review into the row in every state |
| `MessageTable.RejectionSetsBack` | agents/orchestrator/src/orchestrator_agent.py:250-262 | a rejection or a failed execution goes back to proposing from diagnosing, review and execution, counts a retry elsewhere, and calls a human after two retries |
| `MessageTable.SuccessResolves` | agents/orchestrator/src/orchestrator_agent.py:281-312 | a successful execution resolves exactly what is being executed, through verifying, both changes recorded |
| `MessageTable.HumanRejectionIsNoted` | agents/orchestrator/src/orchestrator_agent.py:331-353 | a human rejection calls a human and moves nothing |
| `MessageTable.DeadAgentIff` | agents/orchestrator/src/escalation_manager.py:91-116 | when an agent dies a human is called about exactly the incidents in the state that waits for it |
| `MessageTable.DeadAgentOnceEach` | agents/orchestrator/src/escalation_manager.py:91-116 | ... and once about each |
| `Clocks.ClockIsLastTouch` | agents/orchestrator/src/incident_fsm.py:75-115 | in every run the clock of a machine stands at the last change of its state or of its retries; after a restart, at the row's time |
| `Clocks.RowTime` | agents/orchestrator/src/orchestrator_agent.py:121-388 | a row bears the time of the event that wrote it, and no other event changes it |
| `Clocks.QuietIff` | agents/orchestrator/src/escalation_manager.py:27-45 | in every run a scan is silent about an incident if and only if it is resolved or closed, or not longer in its state than 2 (detecting, proposing, verifying), 3 (diagnosing, executing) or 5 minutes (review); else it counts one of two retries or calls a human |
| `Clocks.NewStateHasItsTime` | agents/orchestrator/src/incident_fsm.py:86-94 | after a message that changes the state every scan up to the new state's time is silent, and the first later one counts the first retry |
| `Clocks.LateDiagnosisIsQuiet` | agents/orchestrator/src/incident_fsm.py:86-94 | an incident diagnosed after 170 seconds is left alone by the scan ten seconds later |
| `OrchestratorRuns.StepKeepsInv` | agents/orchestrator/src/orchestrator_agent.py:121-376 | every event keeps every machine lawful and every unresolved row with a machine |
| `OrchestratorRuns.EveryMachineIsLawful` | agents/orchestrator/src/incident_fsm.py:29-115 | over all runs of messages in any order, scans, dead agents and restarts: unbroken path, bounded retries, never resting in verifying or closed; a resolved one recorded at least execution, verification and resolution, and as far back as it was recorded exactly the full sequence |
| `OrchestratorRuns.ResolvedIsAbsorbing` | agents/orchestrator/src/orchestrator_agent.py:169-353 | nothing but a restart touches a resolved machine |
| `OrchestratorRuns.ResolvedForGood` | agents/orchestrator/src/orchestrator_agent.py:169-353 | over any run of one process, from any reachable state, a resolved incident stays resolved and its path stays as it was |
| `OrchestratorRuns.WholePathIsRecorded` | agents/orchestrator/src/incident_fsm.py:29-94 | without a restart a resolved incident's path starts with detection, diagnosis and proposal and ends with the five states of a resolution |
| `Restarts.RowRewrittenIff` | agents/orchestrator/src/orchestrator_agent.py:263-270 | an event takes the row of a resolved incident out of resolved if and only if it is a pending decision for it |
| `Restarts.RebuiltByNextRestartIff` | agents/orchestrator/src/orchestrator_agent.py:263-374 | the next restart rebuilds a resolved incident if and only if a pending decision was delivered for it meanwhile |
| `Restarts.RevivedIff` | agents/orchestrator/src/orchestrator_agent.py:169-376 | over runs with any number of restarts a resolved incident ever gets an unresolved machine if and only if a pending decision comes before the first restart and a restart follows |
| `Rejections.RejectionResetsIff` | agents/orchestrator/src/orchestrator_agent.py:250-261 | while retries are left a rejection clears the count if and only if the machine can go back to proposing, else it adds one; after that it calls a human |
| `Rejections.RejectionsInARow` | agents/orchestrator/src/orchestrator_agent.py:250-261 | of rejections in a row exactly as many are silent as the machine has patience for, and every further one calls a human |
| `Rejections.ReviewsClearTheCount` | agents/orchestrator/src/incident_fsm.py:93 | any number of rejections, each after a review, calls no human and leaves no retry counted |
| `OrchestratorRuns.ScanIsPerIncident` | agents/orchestrator/src/escalation_manager.py:33-43 | what a scan does to one incident does not depend on the others |
| `OrchestratorRuns.SyncKeptIff` | agents/orchestrator/src/orchestrator_agent.py:204-294 | persisted status and state stay equal if and only if the event is not a rejection or failure that moves the machine, nor a pending decision outside proposing and review |
| `OrchestratorRuns.RecoveryIsExact` | agents/orchestrator/src/orchestrator_agent.py:359-374 | on runs without those events a restart rebuilds exactly the unresolved machines, each in its state |
| `Swarm.ResolvableIff` | agents/orchestrator/src/orchestrator_agent.py:240-294 | some run of the three agents resolves an incident if and only if its correlation id has an action that can be approved, one left to a human, and one that the executor can run |
| `Swarm.HeardIff` | agents/safety/src/main.py:125-145 | the orchestrator hears exactly the verdicts and results that were published |
| `Swarm.OneActionNeverResolves` | agents/orchestrator/src/orchestrator_agent.py:263-287 | with one action per correlation id no run resolves it, whatever humans approve |
| `Timeline.TimelineBuilder.AddEvent` | agents/orchestrator/src/timeline_builder.py:28-43 | one event more, at the end, with the clock and its time zone |
| `Timeline.TimelineBuilder.StateDurations` | agents/orchestrator/src/timeline_builder.py:66-76 | for every event type the sum of the gaps after its events, over pairs of stamps that can be subtracted |
| `Timeline.DurationsAreTimes` | agents/orchestrator/src/timeline_builder.py:66-76 | the entry of a type is the time from each of its events to the next one, over pairs of stamps that both have or both lack a time zone; an event without a type counts as "unknown"; only measured types have an entry |
| `Timeline.KeyDecisionsAre` | agents/orchestrator/src/timeline_builder.py:78-82 | the key decisions are the approvals, rejections and escalations, each as often as it happened |
| `Timeline.KeyDecisionsInOrder` | agents/orchestrator/src/timeline_builder.py:78-82 | ... in the order in which they happened |
| `Timeline.TimelineBuilder.GeneratePostmortem` | agents/orchestrator/src/timeline_builder.py:46-95 | durations, decisions and counts of the timeline as it is |
| `Timeline.DurationsPartitionTheTime` | agents/orchestrator/src/timeline_builder.py:28-76 | built by adding events under a clock that does not go back, a timeline has non-negative durations that add up over all types to the time from first to last event |
| `Timeline.UnreadableStampsLoseTime` | agents/orchestrator/src/timeline_builder.py:70-76 | unreadable stamps can only lose time, never add any |
| `Timeline.WholeTimeIff` | agents/orchestrator/src/timeline_builder.py:66-76 | between readable, distinct stamps the durations cover the whole time if and only if every stamp is readable |
| `Accounts.EntriesAddUp` | agents/orchestrator/src/timeline_builder.py:67-74 | a dictionary filled by adding to its entries holds, over all keys, everything that was added |
| `Accounts.PostKeepsTotals` | agents/orchestrator/src/timeline_builder.py:74 | adding to one entry with a default of zero keeps every entry the sum of its own additions |
| `Inventory.InventoryWorker.ReserveStock` | services/inventory-worker/main.go:107-142 | commits if and only if every item can be taken after the ones before it and no statement fails, and then takes all of them; otherwise the table is as before and the first short item is reported |
| `Inventory.EndsMeans` | services/inventory-worker/main.go:107-142 | a reservation ends short if and only if an item finds too little stock before the database reports an error, and with an error if and only if one comes before an item stops it |
| `Inventory.ColumnsAreFull` | services/inventory-worker/main.go:133-136 | the columns end at 2147483647 |
| `Inventory.InventoryWorker.HandleOrderCreated` | services/inventory-worker/main.go:240-258 | acknowledged if and only if reserved in full; each delivery counted, successes, failures and shortages each exactly |
| `Inventory.CommitsIffTotalsInStock` | services/inventory-worker/main.go:114-141 | for non-negative quantities an order goes through if and only if for every tracked product the total over all items, repeats included, is in stock |
| `Inventory.ItemOrderIsIrrelevant` | services/inventory-worker/main.go:114-140 | then neither verdict nor table depends on the order of the items |
| `InventoryOrder.EveryOrderFitsIff` | services/inventory-worker/main.go:114-140 | every order of the items goes through if and only if for each tracked product the positive quantities alone are in stock, and no column can overflow on the way |
| `InventoryOrder.SomeOrderFitsIff` | services/inventory-worker/main.go:114-140 | where no column can overflow on the way, some order does if and only if every tracked product's total is in stock |
| `InventoryOrder.OrderIsIrrelevantIff` | services/inventory-worker/main.go:114-140 | where no column can overflow on the way, the verdict is the same for all orders if and only if the positive quantities are in stock for all products, or not even the total for one |
| `InventoryOrder.NegativeQuantityBreaksOrder` | services/inventory-worker/main.go:128-136 | two items of one product that go through in one order only |
| `InventoryOrder.OrdersCompose` | services/inventory-worker/main.go:107-142 | two orders one after the other are one order with the items of both |
| `InventoryOrder.RedeliveryReservesAgainIff` | services/inventory-worker/main.go:251-258 | an order delivered again is reserved again if and only if twice of everything is in stock |
| `Inventory.ReservationConserves` | services/inventory-worker/main.go:133-136 | whatever the quantities, stock plus reserved stays the same and stock does not become negative |
| `InventoryConcurrency.StepKeepsInv` | services/inventory-worker/main.go:107-142 | every statement of every concurrent transaction keeps: the table is a serial history, and each transaction's view is a reservation on the table as it is now |
| `InventoryConcurrency.CommitKeepsOthers` | services/inventory-worker/main.go:116-141 | a commit cannot change a row another transaction has read, because its lock is held |
| `InventoryConcurrency.EveryInterleavingIsSerial` | services/inventory-worker/main.go:107-142 | in every interleaving, with rollbacks anywhere, the table is that of the committed orders run alone in commit order, each of them going through |
| `InventoryRuns.CommittedIff` | services/inventory-worker/main.go:107-142 | and exactly the histories that go through one order after the other are committed in some run |
| `InventoryRuns.CommitsAloneIff` | services/inventory-worker/main.go:107-142 | so an order alone commits in some run if and only if each of its items can be taken after the ones before it |
| `InventoryRuns.RollsBackAnytime` | services/inventory-worker/main.go:112 | a transaction can be rolled back at any point, and leaves neither rows nor locks behind |
| `InventoryConcurrency.StockIsConserved` | services/inventory-worker/main.go:107-142 | so stock is never negative, and what is reserved is exactly what the committed orders asked for |
| `InventoryDeadlocks.CommonOrderNeverDeadlocks` | services/inventory-worker/main.go:114-140 | in no reachable state does each of some transactions wait for a row of another of them, if the running orders list their tracked products in one common order |
| `InventoryDeadlocks.DeadlockIff` | services/inventory-worker/main.go:114-140 | two orders alone can come to wait for each other if and only if each can take some of its items, none of them shared, and then comes to a product that the other has taken |
| `InventoryDeadlocks.OppositeOrdersCross` | services/inventory-worker/main.go:114-140 | one piece each of two products in stock, ordered in opposite order, is such a pair |
| `Predictor.TrendPredictor.Push` | agents/observer/src/predictor.py:84-86 | the window holds the latest samples; a missing stamp and a stamp of zero become the clock's |
| `Predictor.TrendPredictor.Evaluate` | agents/observer/src/predictor.py:88-132 | an alert if and only if the fit is good and rising and current ≤ threshold ≤ current + slope · look-ahead; it crosses the threshold at the predicted time |
| `Predictor.OlsIsOptimal` | agents/observer/src/predictor.py:142-157 | no line has a smaller sum of squared residuals, for every window whose stamps are not all the same |
| `Predictor.OlsRSquared` | agents/observer/src/predictor.py:159-164 | total = residual + slope² · spread, so R² is the explained share, between zero and one, and the clamp never acts |
| `Predictor.OlsShiftInvariant` | agents/observer/src/predictor.py:142-164 | slope and R² do not depend on where time starts |
| `Predictor.LineIsFound` | agents/observer/src/predictor.py:142-164 | samples on a line have its slope and a perfect fit, or none if the line is level |
| `Predictor.SameStampsHaveNoTrend` | agents/observer/src/predictor.py:153-154 | samples with one and the same time stamp have slope and fit zero and their mean as intercept |
| `Predictor.ReturnedResiduals` | agents/observer/src/predictor.py:164 | the line that is returned misses the best one by the same gap at every sample, and its squared error is the least one plus that gap squared for each |
| `Predictor.ProjectionGap` | agents/observer/src/predictor.py:121-164 | the projection is the threshold minus the last residual plus exactly 2 · slope · xs[0]; on a rising trend it is right if and only if the first stamp is zero |
| `Detector.AnomalyDetector.RecordValue` | agents/observer/src/detector.py:62-65 | the reading joins the window of its key and no other; a negative window size raises |
| `Detector.AnomalyDetector.Evaluate` | agents/observer/src/detector.py:67-149 | records the reading and judges it against the rest of its window |
| `Detector.WindowsHoldTheLatest` | agents/observer/src/detector.py:51-65 | however keys are interleaved, a window holds, in order, the last readings of its key, as many as there are or as it has room for |
| `Detector.KeysDiffer` | agents/observer/src/detector.py:58-65 | two metrics of one service, and one metric of two services, have windows of their own |
| `Detector.BaselineIsThePast` | agents/observer/src/detector.py:79-89 | the newest reading ends its window, and the baseline is exactly the last of the previous readings of that key, one fewer than the window holds |
| `Detector.VarianceInSums` | agents/observer/src/detector.py:95-96 | the variance is that of a sample: n · (n - 1) times it is n times the sum of squares less the square of the sum |
| `Detector.DynamicMetIff` | agents/observer/src/detector.py:95-112 | a threshold is met if and only if it is not positive or the deviation is at least that many standard deviations, in either direction; without variance it counts in hundredths unless the mean is zero |
| `Detector.StaticMetIff` | agents/observer/src/detector.py:129-135 | a static threshold is met if and only if the reading is at least that great |
| `Detector.ScoreCases` | agents/observer/src/detector.py:95-107 | the score that is reported has the sign of the deviation, and a single reading has no variance |
| `Detector.ChoosesTheGreatest` | agents/observer/src/detector.py:109-127 | the level chosen has the greatest threshold of all that are met, the first such in the map; none if and only if none is met |
| `Detector.ReportsAtMostOne` | agents/observer/src/detector.py:79-149 | at most one anomaly, with that level and the values judged; when it raises; and that silence means nothing was met |
| `Detector.VariedIsInvariant` | agents/observer/src/detector.py:96-112 | over a varied baseline the dynamic verdict is the same after x ↦ a·x + b |
| `Detector.UnitsDoNotMatterIff` | agents/observer/src/detector.py:96-112 | the dynamic verdict is the same in all units if and only if the baseline varies, or the reading is its mean, or no threshold is positive |
| `Deduplicator.AlertDeduplicator.IsDuplicate` | agents/observer/src/deduplicator.py:34-51 | prunes and answers for one fingerprint, remembers an emitted alert, leaves all other fingerprints alone |
| `Deduplicator.EmitsGreedily` | agents/observer/src/deduplicator.py:34-51 | over every run, whatever other fingerprints do, the alerts emitted are those of a deduplicator that never forgets |
| `Deduplicator.SuppressedExactly` | agents/observer/src/deduplicator.py:47-48 | an alert is suppressed if and only if that many alerts were emitted within the window before it |
| `Deduplicator.SuppressedIff` | agents/observer/src/deduplicator.py:34-51 | in seconds: suppressed if and only if at least the maximum of alerts of its fingerprint were emitted less than the window's seconds before |
| `Deduplicator.FingerprintsDiffer` | agents/observer/src/deduplicator.py:26-32 | alerts that differ in one of metric, service and severity are told apart |
| `Deduplicator.NeverMoreThanCap` | agents/observer/src/deduplicator.py:42-50 | no list grows beyond the maximum, on any clock |
| `Deduplicator.EmissionsAreCapped` | agents/observer/src/deduplicator.py:34-51 | no interval up to the window long emits more alerts of a fingerprint than the maximum |
| `Deduplicator.HoldsTheWindowIff` | agents/observer/src/deduplicator.py:42-50 | what is remembered is exactly the emitted alerts still inside the window as of the last call, if and only if the window is positive or nothing is emitted |
| `Learner.RecommendRunbook` | agents/learner/src/pattern_recognizer.py:68-114 | the loop's statistics are, per runbook, the counts and sums over the hits, and the figures returned are those of the runbook chosen |
| `Learner.StatsAreCounts` | agents/learner/src/pattern_recognizer.py:84-93 | what is kept of a runbook is how often it was tried, how often it succeeded and the time it took; an outcome without a runbook counts for "unknown", a missing time as zero |
| `Learner.TotalsSumToLog` | agents/learner/src/pattern_recognizer.py:87-93 | the attempts of all runbooks together are the hits |
| `Learner.RecommendsTheBest` | agents/learner/src/pattern_recognizer.py:95-100 | the choice has the greatest success ratio, among those the least total recovery time, and comes first among equals |
| `Learner.RecommendedByCounts` | agents/learner/src/pattern_recognizer.py:95-100 | in counts: no hit runbook has a greater share of successes, and none of the same share took less time altogether |
| `Learner.AverageIsWhole` | agents/learner/src/pattern_recognizer.py:103-114 | the average shown is the whole seconds of the average time, towards zero |
| `Learner.SlowerOnAverageCanWin` | agents/learner/src/pattern_recognizer.py:95-99 | a tie can go to the runbook that is slower on average |
| `RunbookTies.TotalsOrderAveragesIff` | agents/learner/src/pattern_recognizer.py:95-99 | total and average recovery time order two runbooks alike, for all times, if and only if they were tried equally often |
| `RunbookTies.LeastAverageIff` | agents/learner/src/pattern_recognizer.py:95-100 | the recommendation takes the least time on average among the runbooks of the top rate, for all recovery times, if and only if those were tried equally often |
| `Learner.RunbookOptimizer.Record` | agents/learner/src/runbook_optimizer.py:66-109 | one row counted up, all others untouched; refused, with nothing changed, when a column would overflow |
| `Learner.UpsertCounts` | agents/learner/src/runbook_optimizer.py:80-109 | an outcome counts its row up by one try, one success if it was one, and its time; it is refused beyond 32-bit counters and a 64-bit sum |
| `Learner.UpsertsMatchBatchIff` | agents/learner/src/runbook_optimizer.py:80-93 | upserting a log outcome by outcome gives the batch statistics if and only if no sum leaves its column on the way |
| `Learner.SummaryIsRecommendation` | agents/learner/src/runbook_optimizer.py:135-147 | for the same log the table's summary of the recommended runbook shows the recommendation's figures |
| `Learner.RowShows` | agents/learner/src/runbook_optimizer.py:135-147 | a row is shown with its counts, its rate and its average, and with zeros if it was never tried |
| `Windows.SpreadExtend` | agents/safety/src/rate_limiter.py:39-58 | admitting only when fewer than n are recent keeps any n-th next stamps a window apart, even if the stamp recorded is later than the one checked |
| `Windows.SpreadBoundsInterval` | agents/safety/src/rate_limiter.py:42-44 | and then no interval of the window's length holds more than n |

## Left out

- Intended clock: `timezone` is used but not imported in `agents/safety/src/rate_limiter.py` and `agents/remediator/src/main.py`; the model follows what the calls mean, not the `NameError`.
- Floating point and the final rounding: numbers are exact reals; a rate is the exact ratio, a z-score is a deviation with a variance.
- Hashes: the fingerprints of actions are taken as injective in type and target, those of alerts in the joined string.
- The message bus hands decisions to the remediator one after another, so only diagnoses run while a verification or the acknowledgement of a report is awaited. A proposal that is published late counts as one that is delivered late.
- `RateLimiting.RateLimiter.Check`: the text of the reasons is left out.
- `Remediator.RemediatorAgent.PublishCompletion`: the details text and the message header (ids, priority, time to live, context) are left out, as they are in every message; expiry counts as loss.
- `Remediator.RemediatorAgent.HandleSafetyDecision`: speaks of a handler that nothing interrupts at its awaits; `StartDecision`, `ReportVerification` and `Delete` are the parts that the runs interleave.
- `Remediator.RemediatorAgent.StartDecision`: parameters of an action that are not a dictionary, which make the executor answer with the exception's text, are not modelled; a type is a string.
- `RemediationProtocol.StepKeepsSound`: speaks of the execute call of an approved decision only; what a rollback executes is the subject of `Rollbacks`.
- `RemediationProtocol.SoundRun`: speaks of that call only; which runbook matches and how its first action is rendered is a parameter that depends on the diagnosis alone; publish failures are not steps.
- `RemediationGuarantees.SoundIffUnambiguous`: speaks of that call only; `Rollbacks.ApprovedIff` is the statement about everything that is executed.
- `RemediationGuarantees.IdenticalDiagnosesAreSound`: speaks of that call only; with a rollback defined it does not extend to what that executes.
- `Rollbacks.HandedIff`: a rollback is one action; the result of executing it, which is only logged, is left out.
- `Orchestrator.OrchestratorAgent.HandleAnomaly`: severity, the anomaly record and the timeline of the row are left out; one clock reading stands for the several of a handler, here and below (scans have separate readings for check and reset), and the handler's database calls succeed.
- `Orchestrator.OrchestratorAgent.HandleDiagnosisResult`: the diagnosis fields and the timeline written to the row are left out.
- `Orchestrator.OrchestratorAgent.HandleSafetyDecision`: the timeline entries written to the row are left out.
- `Orchestrator.OrchestratorAgent.HandleExecutionResult`: the resolution fields, the timeline and the postmortem written to the row are left out.
- `Orchestrator.OrchestratorAgent.HandleHumanApproval`: the timeline entries written to the row are left out.
- `Orchestrator.OrchestratorAgent.RecoverInflight`: a row with an unknown status, which would end the recovery at that row, is not modelled.
- `OrchestratorRuns.RecoveryIsExact`: takes the orchestrator as the only writer of the incident rows. `agents/diagnoser/src/rca_engine.py` also sets a row to diagnosing, and `agents/diagnoser/src/correlation_engine.py` inserts rows in detecting; these writes are not part of this model.
- `OrchestratorRuns.StepKeepsInv`: handlers and scans of the orchestrator are atomic; at their awaits other handlers could run.
- `Swarm.ResolvableIff`: the orchestrator hears of decisions and results only what the two agents publish; anomalies, diagnosis results and human decisions may come at any time.
- `Inventory.InventoryWorker.HandleOrderCreated`: redelivery by the bus is another call; the low-stock alerts after an acknowledgement are left out.
- `InventoryConcurrency.EveryInterleavingIsSerial`: rows are neither inserted nor deleted while reservations run; timeouts, crashes and the database's way out of a deadlock are rollbacks at any point.
- `InventoryOrder.NegativeQuantityBreaksOrder`: one input; `InventoryOrder.OrderIsIrrelevantIff` is the statement about all.
- `InventoryOrder.SomeOrderFitsIff`: asks that no column can overflow on the way; `InventoryOrder.EveryOrderFitsIff` covers the overflows.
- `InventoryOrder.OrderIsIrrelevantIff`: asks for the same.
- `InventoryDeadlocks.DeadlockIff`: two orders, nothing committed yet; `InventoryDeadlocks.CommonOrderNeverDeadlocks` is about any number.
- `Learner.SlowerOnAverageCanWin`: one log; `RunbookTies.LeastAverageIff` is the statement about all.
- `BlastRadius.Upstream`: stands for the graph library's search.
- `Learner.RecommendRunbook`: the similarity search is the parameter `hits`; the order of `get_all_stats` and the column of update times are left out.
- `Timeline.TimelineBuilder.GeneratePostmortem`: the fields copied from the incident (id, severity, status, root cause, resolution summary) are left out.
- The agents' registry, routing, heartbeats and configuration, the diagnoser and its language model, vector search, dashboards, the chaos injector and the other services: plumbing or thin access to external stores, which would add only easy members.
