# Agent Life Space: the approval-gated control plane, verified

This project models the parts of Agent Life Space that decide whether something risky may happen, and proves what
those decisions guarantee. The parts share a clock that never goes back:

- the **approval queue** and its table (`ApprovalModel`, `ApprovalTheorems`, `ApprovalEffects`, `ApprovalQueue`):
  requests need a number of different approvers, expire, are archived in a bounded history and are rebuilt from the
  table at start-up;
- the **external gateway** (`Policy`, `RateLimit`, `Retry`, `Gateway`): policy, approval gate, sliding-window rate
  limiter, retries with growing pauses, and fallback over provider routes;
- the **control-plane state** (`Delivery`, `Ledger`, `Retention`): deliveries that follow their approval request, the
  cost ledger, and retained artifacts;
- the **settlements, recurring workflows, pipelines and the work loop** (`Settlement`, `Recurring`, `Pipeline`,
  `WorkLoop`);
- two algorithmic pieces: the **decision cache** with task ranking (`DecisionCache`, `TaskRanking`) and the **intake
  estimator** (`IntakeCost`). `Common` holds shared vocabulary and the SQL listing.

## How it is built

Objects that the program updates in place are classes here, and its loops are methods. The approval queue, the rate
limiter, the cost ledger, the retained artifacts, the settlements, the recurring workflows, the work loop and the
decision cache carry a ghost history of the calls or writes made on them (`trace`, `calls`, `writes`, `texts`), and
`Valid()` says that their fields are what a pure step function makes of it. What is proved about all histories (the
lemmas) therefore holds of every state such an object can be in. A refresh of a stored delivery is proved to be one move
of the delivery state machine, so the results on its runs apply to every record refreshed; a pipeline execution is
specified by itself, as one declarative whole. The network, the wallet and the agent are objects that answer as they
like and log everything they were asked.

Central results, each over every run:

- **Nothing leaves without a quorum.** Under a policy that requires approval, the network log of `SendDelivery`, and of
  the fallback over routes, can only grow when the linked request was APPROVED or EXECUTED in the queue before the call,
  with exactly as many different approvers as it required, each of whom called approve before the request's time was
  over; the call itself only looks requests up
  (`Gateway.ExternalGatewayService.SendDelivery`, `GateRestsOnQuorum`, `ApprovalTheorems.ApprovedMeansQuorum`).
- **Every status has its cause**: over every run a request is DENIED, EXPIRED, approved or EXECUTED exactly when the
  call that decides so arrived in the right moment (`ApprovalEffects.DecidedExactlyWhen`).
- **A restart is invisible** while the table holds at most 5000 rows: same pending requests, same answers to every
  lookup (`ApprovalTheorems.RestartRefines`). `mark_executed` is the exception, and `MarkExecutedSeesHistoryOnly` says
  exactly when it succeeds; `EvictedApprovalCannotBeExecuted` is a run in which a restart changes its answer.
- **The pruned rate-limit list decides as the full history would**, no window-long interval holds more acceptances
  than the limit, and keys do not interfere (`RateLimit`).
- **The ledger conserves cost**: in the table the gateway charges, a job's total is its latest usage snapshot plus one
  entry per successful send plus its latest API call (`Ledger.ControlPlaneState.TotalIsOwed`). For arbitrary operation
  ids, `Ledger.ConservedExactlyWhenSpared` says exactly when.

## Where the code and its own words differ

- `execute_pipeline` is documented to stop at the first failure unless a stage says "always" (agent/control/pipeline.py:104-109).
  The code goes on: a completed "always" stage lets later "on_success" stages run again. `Pipeline.StopsExactlyWhen`
  gives the exact shape of the pipelines for which the documentation is right.
- A second `refresh_delivery_status` with no queue call in between can change the record: looking the request up
  expires it. `Delivery.SecondRefresh` says exactly when, and `Delivery.SecondRefreshRejects` is a run.
- Two successful API calls under one `job_id` are charged once: the charge is kept under `<job_id>-cost` and the second
  replaces the first (agent/control/gateway.py:755, 2188-2219). `Ledger.ApiChargeTotal` says exactly when a call adds
  its amount, `Ledger.RepeatedJobIdIsChargedOnce` is the witness. A `job_id` that starts with "usage" can even replace
  another job's usage entry (`Ledger.OperationReplacesUsage`).
- The hard delete of pruned artifacts looks for the status in capitals, which is never stored; it deletes nothing.
- Recording a pruned artifact again revives it (`Retention.RecordingRevives`).
- Stopping the work loop during its cool-down and starting it again skips the cool-down: the loop head can then be
  reached with three consecutive errors (`WorkLoop.BelowLimitAtHead`, `WorkLoop.RestartCarriesErrors`). A message that
  cannot be sent from inside the error handler ends the worker until the loop is stopped and started
  (`WorkLoop.RunningWithoutWorkerExactlyWhen`, with the run `WorkLoop.FailedMessageEndsWorker`).
- The planned cost falls when an invalid operation is added to some intakes, because a blocked intake is priced as
  small and by the type it asked for (`IntakeCost.NeverLoweredExactlyWhen`; `IntakeCost.CheaperWhenBlocked` is one).
- `call_api_via_capability` passes no approval to a policy that requires one, so such a call is always refused.
- A delivery refused by policy carries no status code, so fallback goes on to the next route; so does a 2xx answer
  whose receipt is incomplete. "At most one 2xx per delivery" is therefore not claimed.

## Model

| member | source | states |
|---|---|---|
| ApprovalModel.StepKeepsInv | agent/core/approval.py:145-249 | every call keeps the queue invariant (ids unique and disjoint, open requests pending, status tells the quorum, memory mirrors the table), loses no open request, and moves each request only along its lifecycle |
| ApprovalModel.RunKeepsInv | agent/core/approval.py:126-249 | the invariant holds after every run with fresh ids, restarts included |
| ApprovalModel.ApproveStep | agent/core/approval.py:174-209 | approve adds the decider only once and only in time, and grants exactly when the quorum is reached |
| ApprovalModel.DenyStep | agent/core/approval.py:211-225 | deny keeps the invariant; a pending request, expired or not, is closed as DENIED with decider, time and reason, and nothing else is touched |
| ApprovalModel.MarkExecutedStep | agent/core/approval.py:227-235 | only an APPROVED request becomes EXECUTED |
| ApprovalModel.ExpireStaleStep | agent/core/approval.py:237-249 | afterwards exactly the pending requests still in time are pending |
| ApprovalModel.LoadContents | agent/core/approval.py:371-382 | the rebuilt queue holds exactly the listed rows, the open ones pending and the others as history |
| ApprovalTheorems.ApprovalsAreReal | agent/core/approval.py:174-235 | every recorded approval was given by an approve call of that person strictly before creation + ttl, and every EXECUTED request by a mark_executed call |
| ApprovalTheorems.ApprovalsRecordedExactly | agent/core/approval.py:174-209 | over every run a person is on record iff they approved the request while it was pending and in time; the record stays |
| ApprovalTheorems.RequestsAreAsProposed | agent/core/approval.py:145-172 | every request keeps, over every run, the action, lifetime and number of approvers its propose call asked for, at least one |
| ApprovalTheorems.ApprovedMeansQuorum | agent/core/approval.py:74-82 | APPROVED or EXECUTED means exactly as many different in-time approvers as required |
| ApprovalTheorems.StatusesAdvance | agent/core/approval.py:174-249 | statuses only advance; EXECUTED only follows APPROVED, by mark_executed |
| ApprovalTheorems.QuorumStays | agent/core/approval.py:174-249 | no later call takes an approval or its quorum away |
| ApprovalTheorems.LookupApprovesNothing | agent/core/approval.py:237-271 | a lookup, which expires requests first, neither approves a request nor takes an approval back |
| ApprovalTheorems.FindIsLedger | agent/core/approval.py:260-271 | a lookup in memory or table gives the latest persisted value |
| ApprovalTheorems.FindsWhatIsThere | agent/core/approval.py:260-271 | unknown iff neither pending, nor in the history, nor, with a table, in a row |
| ApprovalTheorems.LedgerIsEverProposed | agent/core/approval.py:145-172 | over every run the rows are exactly those of the ids ever proposed |
| ApprovalTheorems.GetRequestReturnsRow | agent/core/approval.py:260-271 | with a table, get_request answers for exactly the ids ever proposed, evicted or not, and answers the stored row |
| ApprovalTheorems.RunIsComplete | agent/core/approval.py:371-382 | below 5001 rows no open request is ever missing from memory |
| ApprovalTheorems.RestartRefines | agent/core/approval.py:361-382 | after any run and up to 5000 rows, a rebuilt queue has the same pending map, all decided rows as history, and the same answer to every lookup |
| ApprovalTheorems.RestartKeepsListed | agent/core/approval.py:371-382 | in every reachable state the rebuilt pending map is the open rows among the 5000 newest by creation; it is the old one iff those were the pending ids, and misses no open row iff all are listed; the rebuilt history runs from the oldest to the newest |
| ApprovalTheorems.SameKeepsSame | agent/core/approval.py:145-249 | no later call but mark_executed, another restart included, tells a restarted queue from the old one |
| ApprovalTheorems.MarkExecutedSeesHistoryOnly | agent/core/approval.py:227-235 | mark_executed succeeds exactly when the APPROVED row is still in the bounded history |
| ApprovalTheorems.EvictedApprovalCannotBeExecuted | agent/core/approval.py:361-365 | a run where an evicted approval cannot be executed until a restart |
| ApprovalEffects.ProposeEffect | agent/core/approval.py:145-172 | one pending request with what was asked for, nobody's approval and at least one required; nothing else changes |
| ApprovalEffects.ApproveEffect | agent/core/approval.py:174-209 | no change unless pending; past creation + ttl EXPIRED with nobody added; before that the decider is on record once, and the request APPROVED by them iff as many as required are, otherwise still pending; row, pending map and history as that says |
| ApprovalEffects.DenyEffect | agent/core/approval.py:211-225 | no change unless pending; otherwise, late or not, row and answer are the request as it was but DENIED with this decider, time and reason, and it has left the pending map for the history |
| ApprovalEffects.MarkExecutedEffect | agent/core/approval.py:227-235 | true iff the history holds the request as APPROVED; then its row and entry are EXECUTED at this time, and nothing else changes |
| ApprovalEffects.ExpireEffect | agent/core/approval.py:237-249 | every pending request past creation + ttl is EXPIRED and no longer pending; every other row is as it was |
| ApprovalEffects.DecidedExactlyWhen | agent/core/approval.py:174-249 | over every run: DENIED iff a deny arrived while pending, EXPIRED iff an approve of it or an expire_stale found it pending and late, approved iff an approve in time made up the number required, EXECUTED iff a mark_executed found that approval in the history |
| ApprovalEffects.HistoryIsBounded | agent/core/approval.py:361-365 | until the first restart the history is never longer than its bound |
| ApprovalEffects.ExpiryHistory | agent/core/approval.py:237-249 | expired requests enter the bounded history one by one, in pending order, the oldest entries making room |
| ApprovalEffects.PendingOldestFirst | agent/core/approval.py:237-249 | over every run the pending requests are held in the order of their creation |
| ApprovalQueues.DictRoundTrip | agent/core/approval.py:84-124 | from_dict(to_dict(r)) is r |
| ApprovalQueues.ApprovalStorage.SaveRequest | agent/core/approval_storage.py:51-68 | upsert by id, nothing else changes |
| ApprovalQueues.ApprovalStorage.LoadRequest | agent/core/approval_storage.py:70-79 | the row, or none |
| ApprovalQueues.ApprovalStorage.ListRequests | agent/core/approval_storage.py:81-107 | the rows with the status, newest creation first, at most the limit, none newer left out |
| ApprovalQueues.ApprovalQueue.ProposeAction | agent/core/approval.py:145-172 | a fresh pending request object with what was asked for, in the dictionary and, as "pending", in the table; objects and table follow the model |
| ApprovalQueues.ApprovalQueue.ApproveRequest | agent/core/approval.py:174-209 | None and no change unless pending; otherwise the object itself is expired, approved or partially approved, leaves the dictionary for the history unless it stays open, and its row says so; objects and table follow the model |
| ApprovalQueues.ApprovalQueue.DenyRequest | agent/core/approval.py:211-225 | None and no change unless pending; otherwise the object itself becomes DENIED with decider, time and reason, moves from the dictionary to the history, and its row says "denied"; objects and table follow the model |
| ApprovalQueues.ApprovalQueue.MarkRequestExecuted | agent/core/approval.py:227-235 | true iff the history holds an APPROVED object with the id; that object becomes EXECUTED at this time and its row says so; objects and table follow the model |
| ApprovalQueues.ApprovalQueue.ExpireStaleRequests | agent/core/approval.py:237-249 | the same for expiry; returns how many left the pending map |
| ApprovalQueues.ApprovalQueue.GetRequestDict | agent/core/approval.py:260-271 | expires, then answers pending, history from the end, or table |
| ApprovalQueues.ApprovalQueue.ArchiveRequest | agent/core/approval.py:361-365 | appends, drops the oldest over the bound, writes the row |
| ApprovalQueues.ApprovalQueue.Reopen | agent/core/approval.py:136-143 | a queue constructed over an old table continues the run of the queue that wrote it |
| ApprovalQueues.ApprovalQueue.LoadFromStorage | agent/core/approval.py:371-382 | reading the listing back to front rebuilds the model's restart |
| Table.Newest | agent/core/approval_storage.py:81-107 | ORDER BY key DESC LIMIT n |
| Policy.EvaluateRuntimeAction | agent/control/policy.py:1863-1994 | allowed iff the policy named, or the default one, exists and meets every condition, iff no blocking reason was collected; an unknown delivery policy counts as the default; an unknown action is refused |
| Policy.RefusalNamesFirst | agent/control/policy.py:1332-1367 | the reason given is the first condition that fails |
| Policy.RouteOrderMeans | agent/control/policy.py:1407-1435 | lowest priority number first, then by route id in dictionary order |
| Policy.ListExternalCapabilityRoutes | agent/control/policy.py:1407-1435 | exactly the matching routes, each once, by (priority, route id) |
| RateLimit.PrunedIsEnough | agent/control/gateway.py:1247-1275 | the pruned list and the full history agree inside the window of any later call |
| RateLimit.DecidesAsFullHistory | agent/control/gateway.py:1254-1268 | a call is accepted iff the full history has room in its window |
| RateLimit.WindowBound | agent/control/gateway.py:1247-1271 | every half-open interval of window seconds holds at most rate_limit_calls acceptances of one key, each number counting as one if it is below |
| RateLimit.RefusedWhenFull | agent/control/gateway.py:1247-1271 | refused iff exactly rate_limit_calls acceptances of the key are less than window seconds old; there are never more |
| RateLimit.KeysAreIndependent | agent/control/gateway.py:1273-1275 | a key's list and history are as if no other key had been called |
| RateLimit.AnswersAreIndependent | agent/control/gateway.py:1273-1275 | so is the answer to its next call |
| Retry.RetryArithmetic | agent/control/gateway.py:1759-1814 | n attempts make n requests and sleep backoff * n(n-1)/2 |
| Retry.ExchangeLayout | agent/control/gateway.py:1759-1814 | the log alternates requests and pauses; the pause after the k-th attempt is k times the backoff |
| Retry.ResultIsReport | agent/control/gateway.py:1759-1814 | goes on only after a timeout, a client error or a status from 500 up, while a retry is left; ok iff the last answer is in 200..299; status, body and errors are those of the outcomes |
| Retry.ExecuteWithRetry | agent/control/gateway.py:1934-1986 | at most max_retries + 1 attempts, going on only after a timeout, a client error or a status from 500 up; ok iff the last answer is in 200..299; log, status and errors are those of the answers |
| Retry.ExecuteHttpRequestWithRetry | agent/control/gateway.py:1745-1814 | the same, keeping the body of a failed answer |
| Retry.FallsThroughWhenExhausted | agent/control/gateway.py:1394-1405 | after a failure the next route is tried iff the retries were exhausted or the final status is 0 or 429 |
| Gateway.ExternalGatewayService.AllowRateLimitedCall | agent/control/gateway.py:1247-1275 | prunes the key's list in place and records the call; allowed iff fewer than the policy's calls, accepted under this policy for this host before, are less than the policy's window old |
| Gateway.ExternalGatewayService.ApprovalStatus | agent/control/gateway.py:1239-1245 | the status the queue finds for the id after expiry, or ""; the lookup is one expiry call on the queue and no other, and it neither makes nor takes back an approval |
| Gateway.ExternalGatewayService.GateRestsOnQuorum | agent/control/policy.py:1343-1367 | an "approved" or "executed" answer of the queue rests on a real quorum |
| Gateway.ExternalGatewayService.GateOpensExactly | agent/control/gateway.py:1239-1245 | the answer is "approved" or "executed" iff the queue finds the request and it is APPROVED or EXECUTED |
| Gateway.ExternalGatewayService.SendNeeds | agent/control/gateway.py:56-190 | a send is allowed iff its policy exists and meets every condition and its contract, or the default one, has the target kind |
| Gateway.ExternalGatewayService.ApiNeeds | agent/control/gateway.py:917-975 | the same for an API call, under the caller's policy before the route's, and only if that requires no approval |
| Gateway.SendAnswerMeans | agent/control/gateway.py:190-342 | ok iff the last answer is in 200..299 and the receipt has every required field, not empty; the denial code tells which step failed |
| Gateway.ReadinessMeans | agent/control/gateway.py:1277-1350 | caller's target before the environment's before the route's; caller's token before the environment's before the secret; configured iff the target is absolute and a required token is there |
| Gateway.PassesWhenItGivesWay | agent/control/gateway.py:1394-1405 | the next route is tried iff the route is not configured, or the send failed by the limiter, an incomplete receipt, or a status 0, 429 or from 500 up |
| Gateway.ExternalGatewayService.SendDelivery | agent/control/gateway.py:56-342 | nothing is sent unless policy, contract, approval and limiter allow it; what is sent is the retry exchange; one ledger entry per success; the queue is looked up and not otherwise used; under require_approval a send implies that a real quorum stood before the call |
| Gateway.ExternalGatewayService.Transmit | agent/control/gateway.py:190-342 | retries, receipt check and cost entry of an admitted send |
| Gateway.ExternalGatewayService.SendDeliveryViaCapability | agent/control/gateway.py:507-731 | the routes followed are exactly the catalogue's matching routes, each once, by (priority, route id), or the one requested; they are tried in order until one is sent or fails for good, and each earlier one, but not a last one with routes left, gave way: not configured, limited, an incomplete receipt, or a status 0, 429 or from 500 up; the network log, the limiter's calls and the queue's calls grow by exactly what the attempted routes did, in order: nothing when unconfigured, one lookup and nothing else when the policy refuses the status found, one limiter call otherwise, and one retry exchange iff the limiter accepts, whose answer is the attempt; at most one ledger entry, none in the job table; a request over a route that requires approval implies a real quorum before the call |
| Gateway.ExternalGatewayService.TryApiRoute | agent/control/gateway.py:851-1190 | one API route: unavailable, refused by policy with nothing spent, refused by the limiter, or sent, iff policy and limiter allow it, as one retry exchange whose answers the attempt reports; with its charge |
| Gateway.ExternalGatewayService.CheckApi | agent/control/gateway.py:917-975 | a policy that requires approval refuses every API call |
| Gateway.ExternalGatewayService.CallApiViaCapability | agent/control/gateway.py:733-1237 | the routes followed are exactly the catalogue's matching routes in order; "running" once, then one terminal record that continues it, completed iff ok; log and limiter calls grow by exactly what the attempted routes did, in order; a failed route gives way iff its status is 0, 429 or from 500 up, so any other final status is the last; the writes are the two job updates and the winning route's charge, if any; the kind of end is determined by the routes and the attempts, and a call stops short after a route that gave way only where the next request cannot be built |
| Gateway.ExhaustedRoutePasses | agent/control/gateway.py:1117-1190 | given the answers its retry loop got, a failed route gives way iff its last answer was retryable, with no retry left, or had the status 0 or 429 |
| Ledger.ApiChargeTotal | agent/control/gateway.py:2188-2219 | a call replaces its operation's earlier charge: the total grows by exactly the estimate iff there was no non-zero one |
| Ledger.CallLedger | agent/control/gateway.py:733-1237 | the two job records of an API call leave the ledger alone; its charge is applied once |
| Ledger.OneCallIsCharged | agent/control/gateway.py:755-755 | an operation id used once is charged for every call under it |
| Ledger.RepeatedJobIdIsChargedOnce | agent/control/gateway.py:2188-2219 | two calls of 5 under one id give a total of 5 |
| Gateway.ResolveRoutes | agent/control/policy.py:1438-1452 | the requested route if it serves the capability, or exactly the matching routes of the catalogue, each once, in order |
| Ledger.LedgerConservation | agent/control/state.py:458-467 | after any interleaving, under any operation ids that do not start with "usage", a job's total is its latest usage, of any kind of job but operate, plus one entry per successful send plus its latest API call |
| Ledger.ConservedExactlyWhenSpared | agent/control/storage.py:509-527 | for any operation ids, every total is what is owed all along a run iff no write replaced another job's non-zero entry |
| Ledger.OperationReplacesUsage | agent/control/state.py:650-675 | an operation id that takes another job's usage out of the ledger |
| Ledger.ControlPlaneState.TotalIsOwed | agent/control/state.py:650-675 | the same of the table itself, which is always what its recorded writes lead to |
| Ledger.UpsertTotal | agent/control/storage.py:509-527 | an upsert takes out the amount under its key and puts in the new one |
| Ledger.ApplyMeans | agent/control/state.py:458-467 | which entry each write makes: usage-<job> for every job but an operate job, gateway-<run> for a send, <operation>-cost for an API call |
| Ledger.FreshKey | agent/control/gateway.py:2150-2186 | a fresh run id never overwrites an entry |
| Ledger.ControlPlaneState.RecordCostEntry | agent/control/state.py:650-675 | upsert under the given key or usage-<job> |
| Ledger.ControlPlaneState.RecordProductJob | agent/control/state.py:402-468 | keeps creation time and metadata, drops revenue, leaves the other jobs as they were, and writes the usage entry unless the job is an operate job |
| Delivery.MoveGoesForward | agent/control/state.py:281-318 | one queue call or refresh keeps the delivery truthful and moves it only forward |
| Delivery.DeliveryFollowsApproval | agent/control/state.py:281-318 | over any interleaving the status only moves forward, never out of rejected or handed off |
| Delivery.ApprovedDeliveryHasQuorum | agent/control/state.py:281-318 | approved or handed off rests on a real quorum |
| Delivery.SecondRefresh | agent/control/state.py:281-318 | a second refresh changes the record iff the request ran out of time in between and is still known |
| Delivery.SecondRefreshRejects | agent/control/state.py:281-318 | a run in which the second of two refreshes turns awaiting into rejected |
| Delivery.RefreshKeepsTruth | agent/control/state.py:281-318 | refreshing one stored record keeps every stored record truthful |
| Delivery.RefreshMeans | agent/control/state.py:281-318 | what one refresh makes of a record, in its fields |
| Delivery.DeliveryRecords.RefreshDeliveryStatus | agent/control/state.py:281-318 | a linked record that is not handed off takes over the status of its request, if the queue finds it: HANDED_OFF iff EXECUTED, APPROVED iff APPROVED, REJECTED iff DENIED or EXPIRED, AWAITING_APPROVAL iff open; a change is written back with its time and one event, unless that repeats the last; record and queue make one move of the state machine |
| Retention.OnlyForward | agent/control/state.py:1105-1122 | reads, listings and prunes move a record only active, expired, pruned; a refreshed record is expired iff its expiry has come |
| Retention.PrunesExactlyExpired | agent/control/state.py:590-623 | a prune empties exactly the scanned, unpruned records whose time has come; the other scanned ones are read, and the rest is left alone |
| Retention.NothingDueLeft | agent/control/state.py:590-623 | a prune not cut short by its limit leaves nothing due behind |
| Retention.PrunedStaysPruned | agent/control/state.py:551-623 | until it is recorded again |
| Retention.RecordingRevives | agent/control/state.py:512-549 | recording always takes a record out of pruned, keeping its creation time |
| Retention.RefreshMeans | agent/control/state.py:1105-1122 | a read record is expired from its expiry on and active before; its update time changes only with its status; pruned and undated ones stay as they are |
| Retention.RecordingMeans | agent/control/state.py:494-549 | old creation time, expiry retain_days of 86400 seconds later, content iff the policy keeps a snapshot |
| Retention.PrunedThenActive | agent/control/state.py:538-549 | a run in which a pruned record becomes active |
| Retention.HardDeleteRemovesNothing | agent/control/storage.py:663-670 | the hard delete of pruned artifacts deletes no row |
| Retention.RetentionState.RecordRetainedArtifact | agent/control/state.py:494-549 | the row becomes the new record: creation time kept, expiry retain_days after it, status by the clock, content iff the policy keeps a snapshot |
| Retention.RetentionState.GetRetainedArtifact | agent/control/state.py:551-559 | answers and stores the row, expired iff its expiry has come |
| Retention.RetentionState.ListRetainedArtifacts | agent/control/state.py:561-588 | the newest matching rows by update time, each read by the clock, then filtered by status; other rows are left alone |
| Retention.RetentionState.PruneRetainedArtifacts | agent/control/state.py:590-623 | returns exactly the records it pruned, each once |
| Retention.RetentionState.GetRetentionPosture | agent/control/state.py:625-648 | tallies by status and by policy are exact and each sum to the total |
| Settlement.FinalIsFinal | agent/control/settlement.py:294-374 | executed, failed and denied never change; every other change is the operator's decision or one execution |
| Settlement.RunInv | agent/control/settlement.py:230-374 | each settlement is charged iff executed or failed, and only after its approval |
| Settlement.ChargedOnceAndEnough | agent/control/settlement.py:332-374 | at most one top-up per approved settlement, of the shortfall between the price and the balance it was created with, or of the whole price when the balance was enough |
| Settlement.RequestsAreAsCreated | agent/control/settlement.py:230-278 | price, balance and the call to retry stay those of the create call |
| Settlement.RetriedExactlyWhenPaid | agent/control/settlement.py:332-374 | the call that had asked for payment is made again iff there was one and the top-up was paid |
| Settlement.PaymentSettlementService.CreateSettlementRequest | agent/control/settlement.py:230-278 | a fresh pending object with this price and balance, sufficient iff the balance covers the price, with the shortfall as top-up |
| Settlement.PaymentSettlementService.ApproveSettlement | agent/control/settlement.py:294-306 | succeeds iff pending, with note and time; otherwise nothing changes |
| Settlement.PaymentSettlementService.DenySettlement | agent/control/settlement.py:308-320 | succeeds iff pending, with note and time; otherwise nothing changes |
| Settlement.PaymentSettlementService.ExecuteTopup | agent/control/settlement.py:322-374 | charges only an approved settlement, its shortfall or the whole price; ok and EXECUTED iff the wallet's one answer is success, FAILED otherwise |
| Recurring.WorkflowsAccounted | agent/control/recurring.py:112-169 | error_count is the trailing failures since success or activation; unless failed it is below the limit and the next run is no earlier than last run + interval |
| Recurring.DueOnTime | agent/control/recurring.py:130-136 | nothing is due early |
| Recurring.FailsAtLimit | agent/control/recurring.py:138-169 | fails iff a failed run reaches the limit; leaves failed only by activation; is paused iff it was paused while active and since neither activated nor failed |
| Recurring.StepMeans | agent/control/recurring.py:20-169 | what each call does to the workflow it names, in its fields; hourly, daily, weekly, 30 days, and daily for an unknown schedule |
| Recurring.RecurringWorkflowManager.CreateWorkflow | agent/control/recurring.py:74-101 | active, first due one interval from now, no runs |
| Recurring.RecurringWorkflowManager.PauseWorkflow | agent/control/recurring.py:112-118 | succeeds iff active, and pauses; otherwise nothing changes |
| Recurring.RecurringWorkflowManager.ActivateWorkflow | agent/control/recurring.py:120-128 | succeeds iff paused or failed: active, no errors, due one interval from now; otherwise nothing changes |
| Recurring.RecurringWorkflowManager.RecordExecution | agent/control/recurring.py:138-169 | a success clears the errors, a failure adds one and fails the workflow at the limit; unless it fails, the next run is one interval after this one; an unknown workflow changes nothing |
| Recurring.RecurringWorkflowManager.GetDueWorkflows | agent/control/recurring.py:130-136 | exactly the active workflows whose next run has come; never a paused or failed one |
| Pipeline.DeterminedByOutcomes | agent/control/pipeline.py:122-153 | the declarative execution is unique given how the stages it runs end |
| Pipeline.RunsAgainOnlyThroughAnother | agent/control/pipeline.py:122-153 | after a failure an on_success stage runs only if a stage with another condition completed in between |
| Pipeline.StopsExactlyWhen | agent/control/pipeline.py:104-109 | the documented stop at the first failure holds iff, after the first stage that can run, come on_success and then only always stages |
| Pipeline.RunsOnAfterFailure | agent/control/pipeline.py:104-109 | a pipeline that does not stop |
| Pipeline.PipelineOrchestrator.CreatePipeline | agent/control/pipeline.py:52-93 | a draft with fresh pending stages |
| Pipeline.PipelineOrchestrator.ExecutePipeline | agent/control/pipeline.py:104-177 | the stages form the declarative execution; ok iff none failed; stages_executed counts those that did not raise; the agent got exactly the stages that ran, and each ended as the agent answered; without an agent every stage that runs fails |
| Pipeline.PipelineOrchestrator.RunStage | agent/control/pipeline.py:122-153 | skipped iff its condition fails, otherwise marked with the outcome the agent gave, or failed without an agent |
| WorkLoop.RunAccounted | agent/core/agent_loop.py:100-190 | items start in acceptance order, the queue stays within its maximum, and the counters account for every item |
| WorkLoop.Conservation | agent/core/agent_loop.py:100-190 | accepted = queued + executing + processed + errors iff as many success reports failed as items were cut off |
| WorkLoop.CountersMean | agent/core/agent_loop.py:123-190 | processed counts the executions that ended well, errors the executions and success reports that failed |
| WorkLoop.MessagesHaveAddressee | agent/core/agent_loop.py:123-190 | a message is awaited only with a bot and, about an item, a chat |
| WorkLoop.WokenMeans | agent/core/agent_loop.py:123-190 | one stretch from await to await, in the loop's fields |
| WorkLoop.BelowLimitAtHead | agent/core/agent_loop.py:123-190 | fewer than three errors in a row at the loop head iff the worker was not ended over the limit |
| WorkLoop.NeverStopped | agent/core/agent_loop.py:123-190 | always fewer than three in a loop that is never stopped |
| WorkLoop.RunningWithoutWorkerExactlyWhen | agent/core/agent_loop.py:123-190 | over every run: the loop counts as running without a worker iff since the last stop a message about an error or the pause could not be sent |
| WorkLoop.EndedWorkerStaysEnded | agent/core/agent_loop.py:146-181 | then work is accepted but no item is started before a stop |
| WorkLoop.FailedMessageEndsWorker | agent/core/agent_loop.py:146-170 | a run in which a message that cannot be sent ends the worker |
| WorkLoop.RestartCarriesErrors | agent/core/agent_loop.py:86-98 | a run that reaches the loop head with three errors |
| WorkLoop.AgentLoop.StartWorker | agent/core/agent_loop.py:86-92 | starts a worker iff not running, and leaves queue and errors alone |
| WorkLoop.AgentLoop.StopWorker | agent/core/agent_loop.py:94-98 | ends the worker wherever it waits |
| WorkLoop.AgentLoop.Add | agent/core/agent_loop.py:100-113 | accepts exactly the longest prefix that fits |
| WorkLoop.AgentLoop.Resume | agent/core/agent_loop.py:123-190 | the worker's code from one await to the next: takes the head of the queue, counts success and error apart, reports, complains, and from three errors in a row on cools down, after a warning if there is a chat; an unsendable message ends it |
| DecisionCache.StripKeeps | agent/brain/decision_engine.py:317-375 | keyword containment is unaffected by stripping |
| DecisionCache.StripMeans | agent/brain/decision_engine.py:298-316 | stripping cuts exactly the spaces around a text |
| DecisionCache.ClassifyMeaning | agent/brain/decision_engine.py:337-412 | use_llm iff a language keyword occurs and algorithmic ones are no more; confidence lowest iff no keyword |
| DecisionCache.ConfidenceMeans | agent/brain/decision_engine.py:337-412 | action by which kind has more keywords; confidence a half plus a tenth for each of them, at most one; the keywords found of each kind in list order as data |
| DecisionCache.CacheHoldsLastMisses | agent/brain/decision_engine.py:139-150 | in every reachable state the cache holds the last misses, in order, at most its capacity |
| DecisionCache.CachedIsClassified | agent/brain/decision_engine.py:317-335 | a cached entry is what the classifier says of the text asked for, unless its digest is that of an earlier, different text |
| DecisionCache.CollisionMisleads | agent/brain/decision_engine.py:134-137 | with such a digest the cached answer is another text's |
| DecisionCache.DecisionEngine.ShouldUseLlm | agent/brain/decision_engine.py:298-416 | nothing but spaces is refused; cached or not, same category, action, confidence and data as the classifier unless digests collide; a capacity below one fails; a hit gives the remembered decision again |
| DecisionCache.DecisionEngine.CacheSet | agent/brain/decision_engine.py:145-150 | evicts the first inserted entry when full |
| TaskRanking.RankingIsUnique | agent/brain/decision_engine.py:217-243 | the ranking is determined by the scores and the input order |
| TaskRanking.BetterComesFirst | agent/brain/decision_engine.py:154-215 | a task no worse in any respect and earlier in the input is ranked earlier |
| TaskRanking.ScoreMeans | agent/brain/decision_engine.py:154-215 | the worth of importance, urgency, effort and readiness in the combined score, the clamping, and how a deadline raises urgency |
| TaskRanking.PrioritizeTasks | agent/brain/decision_engine.py:217-243 | fails at the first task without id; otherwise all scores, highest combined first, ties in input order |
| IntakeCost.CostIsBounded | agent/control/intake.py:1052-1080 | a routed intake costs 1.50 to 40.00 |
| IntakeCost.CostIsMonotone | agent/control/intake.py:514-525 | asking for more never lowers the estimate while the larger intake is not blocked, across routing and scope flips |
| IntakeCost.NeverLoweredExactlyWhen | agent/control/intake.py:358-410 | with blocked extensions included, exactly for blocked intakes and cheap routes |
| IntakeCost.CheaperWhenBlocked | agent/control/intake.py:358-410 | an intake of 10.50 that costs 8.70 with one invalid operation more |
| IntakeCost.ItemPrices | agent/control/intake.py:1052-1061 | what one more file, operation, criterion or focus area adds to the price, and up to which number |
| IntakeCost.ItemScopes | agent/control/intake.py:905-928 | what one more of each adds to the scope, and up to which number |
| IntakeCost.RoutePrices | agent/control/intake.py:1058-1080 | the price of a review and of each type of build, of a diff, of a scope and of a review after the build |
| IntakeCost.BuildsExactlyWhen | agent/control/intake.py:514-531 | which intakes become builds |
| IntakeCost.ScopeProfile | agent/control/intake.py:892-943 | the items' scope plus one for a git source, two for a diff, two for a build and three for one with a review after it; small below 3, large from 7 |
| IntakeCost.Validates | agent/control/intake.py:88-106 | valid iff no rule is broken |
| IntakeCost.Qualify | agent/control/intake.py:358-410 | a blocked intake keeps its type and counts as small; any other is routed; supported iff neither blocked nor a build without a description |
| IntakeCost.EstimatePlannedCost | agent/control/intake.py:1052-1080 | the accumulated amount, or an error for an unreadable criterion |
| IntakeCost.PlanCost | agent/control/intake.py:1052-1080 | qualification and estimate together, within the bounds |

## Left out

- Storage engines, JSON encoding, logging, asyncio scheduling and the environment: tables are maps with sorted views,
  and an operation reads the clock once.
- Time is a real number and money an integer in its smallest unit; floating-point rounding and ISO text are not modelled.
  A creation or expiry text that cannot be parsed is `None`; one without a time zone, which raises, is not modelled.
- Request, run and workflow ids are parameters that must be fresh.
- The URL parser, the API request builder, the JSON receipt, lower-casing, the hash, rounding and the inspection of a git
  URL are function parameters.
- Review and build actions of `evaluate_runtime_action`, and all policy fields the gateway does not read.
- Retained artifacts, traces and the 402 callback of gateway calls; `call_api_across_providers`; the catalogue listing.
- Listing filters and statistics of the approval queue; `get_pending`, `get_history`.
- `mark_delivery_handed_off` and `record_delivery_event`, which set a delivery's status without asking the queue.
- Reloading settlements, workflows and pipelines from their tables (limited to 200 rows) and writing to them.
- Error texts, reasons and warnings are outcomes or are dropped; a stage's truncated error is kept.
- The history loaded from the table is not cut to its bound, as in the code.
- Retry.ExecuteWithRetry: an exception other than a timeout or a client error ends the call in the source and is not modelled.
- Retry.ExecuteHttpRequestWithRetry: the same exceptions are not modelled.
- Ledger.ControlPlaneState.RecordProductJob: the persistence-policy fields it adds to the metadata are not modelled,
  nor are the query parameters of an API call in it.
- Policy.EvaluateRuntimeAction: the review and build branches are not modelled.
- Delivery.DeliveryRecords.RefreshDeliveryStatus: an event's own id, time and metadata are not modelled.
- Settlement.PaymentSettlementService.ExecuteTopup: two overlapping calls for one settlement are outside the claim.
- WorkLoop.AgentLoop.Resume: the text of a result and an item's own success flag are not modelled; nothing reads them.
- TaskRanking.BetterComesFirst: assumes that rounding to four places is monotone.
- IntakeCost.Qualify: the risk level, the reasons, the warnings and the texts of the blockers are not modelled.
- IntakeCost.ScopeProfile: the list of signal texts is not modelled.
- Pipeline.PipelineOrchestrator.ExecutePipeline: linking the job to the pipeline in the job table is not modelled.
