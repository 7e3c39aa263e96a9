# Sentinel, modelled and proved in Dafny

Sentinel ingests web and host logs, enforces controls at the edge, runs sliding-window detection rules, keeps alerts
through a triage lifecycle, and serves incidents, kill chains and a live stream built on them. This project models that
live pipeline and its read models and proves what they keep over every run.

Each component has the same three layers:

* a **specification** in values: datatypes and functions that say what one call does (`Edge.EvalNext`,
  `Detect.ProcessNext`, `AlertService.IngestNext`, `ControlPlane.DeployNext`, ...);
* the **objects** of the program: classes with the source's maps, lists, counters and arrays, whose methods update them
  step by step and are proved against the specification (`Edge.Engine`, `Detect.Engine`, `Store.MemoryStore`,
  `AlertService.Service`, `Containment.Service`, `ControlPlane.Handlers`, `Ring.Ring`, `Hub.Hub`, `Pipeline.Pipeline`);
* **lemmas over whole runs** of the specification (`TokenBucket`, `EdgeRuns`, `ControlRuns`, `DetectRuns`, `Lifecycle`, `Trail`,
  `HubProtocol`, `PipelineRuns`, `CaseRuns`), and over the pure folds (`KillChain`, `Incidents`, `Indicators`, `AccessLog`).

Objects and runs meet as follows. A new `Pipeline.Pipeline` is in the initial state of `PipelineRuns`, and each of its
methods (`Step`, `Install`, `Remove`, `Operate`) takes its view to the `PipelineRuns.Next` of one input, so the lemmas of
`PipelineRuns` and `CaseRuns` are about the object. The hub's publisher steps between its consumers' receives, which one
method body cannot show; `Hub.Hub` therefore has a method per select, each with the effect on the queues that
`HubProtocol.StepsActOnLiveQueues` proves of the protocol step of that name in every reachable state, and its `Publish`
is the run of selects in which no consumer moves (`HubProtocol.QuietPublicationKeepsNewest`).

Modules, by what they model: `Common`, `Sorting`, `Events`, `Text` (shared vocabulary); `Edge`, `TokenBucket`, `EdgeRuns`
(enforcement); `Containment`, `ControlPlane`, `ControlRuns` (the control plane); `Rules`, `Detect`, `DetectRuns`
(detection); `Alerts`, `Store`, `AlertService`, `Lifecycle`, `Trail` (alerts); `Ring`, `HubProtocol`, `Hub` (live views);
`KillChain`, `Incidents`, `Indicators`, `CaseRuns` (analysis); `AccessLog` (nginx lines); `Pipeline`, `PipelineRuns` (the whole).

## Assumptions

* Times are integers (nanoseconds, zero being the zero time) and every call is given its `now`; one call reads the clock
  once. Lemmas that need the clock never to run backwards say so. Rates, tokens and confidences are reals.
* A service or handler call is one atomic step. The source does not lock `Assign`, `SetStatus` and `Action` against each
  other, so the lifecycle results are about serialised calls. The hub is the exception: its selects are separate steps.
* Go map iteration is an arbitrary choice: loops over maps pick keys in any order, and a rate policy found by iteration
  is any one that applies (`Edge.ValidPick`).
* Identifiers come from an arbitrary source, given as a parameter. Nothing assumes they are fresh, except
  `CoverIsInForceExactlyWhen`, which says so; the alert store refuses duplicates and the control tables overwrite together.
* A library sort is replaced by the stable sort of `Sorting`; where the source's sort is not stable, only the sorted
  permutation is promised.
* In `Pipeline.Enforce` the event counter is advanced after the edge's verdict instead of before it; both are in one step.

## Where the code is not what its documentation or names promise

Each is modelled as it is; the lemmas named say when the code does what its name promises, and show an input or a run
on which it does not.

* A WAF control deployed through the API never blocks anything: WAF policies are matched against the empty address, and
  a control always names one (`HandlerFirewallNeverBlocks`). An incident therefore shows as contained under a WAF control
  alone while the edge lets its address through (`FirewallContainsButEnforcesNothing`); it is enforced exactly when some
  control in force is a block or a rate limit (`ContainedIsEnforcedExactlyWhen`, `VerdictFollowsControls`).
* With overlapping rate policies of different rates, map iteration order decides verdicts (`OrderCanMatter`, a run from
  the initial state); it decides nothing exactly when a deny policy applies or the rate policies that apply agree
  (`OrderIsIrrelevantExactlyWhen`). The handlers, the only callers, install none but the default rate, so no request can
  bring it about (`HandlerOrderIsIrrelevant`).
* The kill chain looks phases up by rule identifier although its table is keyed by technique, so every alert of the
  engine lands in `initial_access` (`EngineAlertsStayInInitialAccess`), which is right for the three rules of technique
  T1190 and for no other (`PhaseIsRightExactlyFor`).
* A chain starts when its first phase does and was last seen when its last phase was. That is the case's own start
  exactly when an earliest alert is also first in kill-chain order, and likewise its end (`ChainStartsRightExactlyWhen`,
  `ChainEndsRightExactlyWhen`, `ChainCanMissBothEnds`). While every alert stays in one phase this cannot show
  (`EngineChainSpansTheCase`, `PipelineIncidentsAgree`).
* The first-seen fold takes the zero time for "nothing yet": it is right exactly when every alert is dated or the last one
  is not (`FirstSeenIsRightExactlyWhen`). Events are stamped by the clock, so no alert is undated
  (`ReachableAlertsAreDated`).
* `containsFold` searches the wrong way round, so only a tool's bare name scores as a tool
  (`ContainsFoldIsRightExactlyWhen`, `OnlyBareNamesScore`).
* Containing an incident with a request the service refuses skips the first alert of each address and still acts on the
  others, with no control in force (`ActsUnderCoverExactlyWhen`).
* The duration parser accepts negative durations. Such a control is deployed, labelled active, and has lapsed already
  (`CoverIsInForceExactlyWhen`).
* The parser keeps the text of a referer and a user agent, but normalizing trims both
  (`RoundTripIsExactWhenTrimmed`).
* The documented lifecycle is OPEN, ASSIGNED, IN_PROGRESS, RESOLVED in that order; an accepted edit goes back exactly when
  it sets a status below the current one (`GoesBackExactlyWhen`, `AlertsCanGoBack`), and the audit results are about the
  moves the code allows.
* A hub consumer that receives at the wrong moment loses an event although its queue had room (`DropMayHitAQueueWithRoom`,
  a run): exactly when it received between the publisher's look and its drop (`DropHitsRoomExactlyWhen`).
* Only merging caps the identifier list of an alert: it is longer than the cap exactly when its first batch was and nothing
  has merged since (`ExceedsCapExactlyWhen`, `LongBatchIsKept`).

## Model

| member | source | states |
|---|---|---|
| Edge.Engine.Install | internal/edge/edge.go:60-75 | stores the policy with default rate and burst filled in, ignores one without identifier, touches nothing else |
| Edge.Engine.Remove | internal/edge/edge.go:77-87 | drops one policy; every bucket too, but only for the managed ruleset |
| Edge.Engine.MatchLocked | internal/edge/edge.go:121-134 | finds an unexpired policy of the kind for the address if and only if there is one |
| Edge.Engine.AllowLocked | internal/edge/edge.go:136-152 | answers as the refilled bucket of that address does and changes no other bucket |
| Edge.Engine.HasAttackTag | internal/edge/edge.go:154-162 | true exactly when some tag is one of the five attack tags |
| Edge.Engine.Eval | internal/edge/edge.go:89-119 | deny before rate limit before WAF; marks, counts and reports a blocked event, and leaves one that passes as it was |
| Edge.Engine.ActivePolicies | internal/edge/edge.go:174-186 | exactly the unexpired policies |
| TokenBucket.AdmitsExactlyWhenWindowsHaveRoom | internal/edge/edge.go:136-152 | the lazy bucket admits exactly when every window from an earlier admission has room for one more |
| TokenBucket.GainIsPerSecond | internal/edge/edge.go:142-146 | what is gained in a second is the rate |
| TokenBucket.ExtraRefillsChangeNothing | internal/edge/edge.go:142-146 | refills at any further moments change no verdict |
| TokenBucket.RefusalEnds | internal/edge/edge.go:142-151 | a refused address is admitted again once one token has been gained |
| EdgeRuns.AdmissionsBounded | internal/edge/edge.go:60-152 | over any window [from, to] of any run, wherever it opens, an address passes its rate limit at most (resets + 1) bursts plus the refill of that window; other policy changes add nothing |
| EdgeRuns.EngineAdmitsExactlyWhenWindowsHaveRoom | internal/edge/edge.go:60-152 | over any run of the engine with one burst and rate, an address passes its rate limit exactly when every window from an earlier admission, since the last reset, has room; no other event or call matters |
| EdgeRuns.DecisionFollowsPolicies | internal/edge/edge.go:89-134 | the decision told by the policies' kinds, targets and expiries and by the tags |
| EdgeRuns.MarkSaysWhy | internal/edge/edge.go:105-119 | status and tags of a blocked event; one that passes is unmarked |
| EdgeRuns.BlocksAreCounted | internal/edge/edge.go:105-119 | each reason counter is the number of decisions of its kind, and the block counter that of all blocking decisions |
| EdgeRuns.OrderNeverMatters | internal/edge/edge.go:121-134 | with one burst and rate for all rate policies, two runs of the same calls that meet different policies in map order decide alike and end in the same state |
| EdgeRuns.OrderIsIrrelevantExactlyWhen | internal/edge/edge.go:89-152 | for a policy table, address and moment, every iteration order gives one verdict, bucket and counters, whatever the buckets, exactly when a deny policy applies or all applicable rate policies share burst and rate |
| EdgeRuns.OrderCanMatter | internal/edge/edge.go:121-134 | a run from the initial state, with two rates, that map order decides |
| EdgeRuns.PurgingIsInvisible | internal/edge/edge.go:126-128 | dropping lapsed policies at any points of a run changes no decision, bucket or counter |
| Containment.Service.Deploy | internal/containment/containment.go:64-103 | refuses type, address, duration in that order, otherwise stores an active control expiring its duration from now |
| Containment.Service.Get | internal/containment/containment.go:105-114 | returns the stored control, re-labelled if lapsed: one labelled active has not expired |
| Containment.Service.List | internal/containment/containment.go:116-129 | re-labels and returns exactly the controls of the address asked for, once each, newest first; none labelled active has expired |
| Containment.Service.Revoke | internal/containment/containment.go:131-146 | revokes a control labelled active, lapsed or not; refuses any other |
| Containment.ControlRecord.Resolve | internal/containment/containment.go:148-152 | re-labels an active control past its expiry and nothing else |
| Containment.SortByDeployedDesc | internal/containment/containment.go:173-179 | newest first, same items, and items of one moment in the order given |
| ControlPlane.Handlers.DeployContainment | internal/server/analysis_handlers.go:217-228 | control, policy and alert actions move together, or nothing does |
| ControlPlane.Handlers.RevokeContainment | internal/server/analysis_handlers.go:231-238 | control revoked and policy removed together; no bucket is touched |
| ControlPlane.Handlers.IncidentContain | internal/server/analysis_handlers.go:138-158 | one control per address of the case, then the action per alert |
| ControlPlane.Handlers.IncidentContained | internal/server/analysis_handlers.go:74-84 | true exactly when a control in force aims at the address |
| ControlRuns.RunsAgree | internal/server/analysis_handlers.go:145-154 | in every reachable state every policy enforces its unrevoked control and every control labelled active has its policy |
| ControlRuns.TablesAgree | internal/server/analysis_handlers.go:217-238 | from any reachable state on, the controls listed as active are exactly the policies in force, with equal target, kind and expiry |
| ControlRuns.DeployedControlLastsExactly | internal/containment/containment.go:85-103 | after any calls that neither revoke nor redeploy it, a control deployed at t for d is in force, and its policy applies, exactly through t + d; a permanent one always |
| ControlRuns.BlockDeniesThroughout | internal/edge/edge.go:94-95 | so a block denies its address throughout [t, t + d] |
| ControlRuns.RevokedStaysRevoked | internal/containment/containment.go:131-146 | a control revoked while labelled active stays revoked as of that moment, with no policy, until redeployed |
| ControlRuns.DeploymentTellsItsAlerts | internal/server/analysis_handlers.go:223-227 | an accepted deployment acts on exactly the alerts it names: a block is recorded on them, anything else resolves them as mitigated |
| ControlRuns.ContainmentTellsItsAlerts | internal/server/analysis_handlers.go:138-158 | an accepted containment does so to exactly the alerts of the incident |
| ControlRuns.ContainedMeansPolicyHeld | internal/server/analysis_handlers.go:74-84 | an incident shows as contained exactly when the edge holds an unexpired policy naming its address, whatever that policy does |
| ControlRuns.MatchFollowsControls | internal/edge/edge.go:121-134 | a deny or a rate policy matches an address exactly when a block or a rate limit in force aims at it |
| ControlRuns.VerdictFollowsControls | internal/edge/edge.go:89-119 | the edge's decision told by the containment table: denied under a block, else rate limited under a rate limit, else let through |
| ControlRuns.ContainedIsEnforcedExactlyWhen | internal/server/analysis_handlers.go:74-84 | the edge denies or rate limits an address exactly when some control in force against it is not a WAF rule; what is enforced shows as contained |
| ControlRuns.FirewallContainsButEnforcesNothing | internal/edge/edge.go:100-102 | after deploying a WAF rule alone the incident shows as contained and the edge lets its address through |
| ControlRuns.RevokedIsNotEnforced | internal/server/analysis_handlers.go:231-238 | a revoked control has no policy |
| ControlRuns.HandlerRatesAreUniform | internal/server/analysis_handlers.go:240-258 | all policies the handlers build carry the default burst and rate |
| ControlRuns.HandlerOrderIsIrrelevant | internal/server/analysis_handlers.go:240-258 | under the policies the handlers build, map iteration order decides nothing |
| ControlRuns.HandlerFirewallNeverBlocks | internal/edge/edge.go:100-102 | no event is blocked by a WAF control the handlers deployed |
| ControlRuns.ActsUnderCoverExactlyWhen | internal/server/analysis_handlers.go:138-158 | containing acts only under its own controls exactly when the request is acceptable or no address repeats; a refused request deploys nothing |
| ControlRuns.CoverIsInForceExactlyWhen | internal/server/analysis_handlers.go:145-153 | every address the sweep covered has a control of the requested type and end, labelled active, in force exactly when the requested duration is not negative |
| ControlRuns.EveryAddressIsCovered | internal/server/analysis_handlers.go:145-153 | when the request is acceptable these are all the addresses of the incident |
| Rules.CountDirEnum | internal/detect/rules.go:92-107 | counts distinct paths and refused requests; no outcome under eight paths |
| Rules.CountPortScan | internal/detect/rules.go:123-137 | counts distinct assets and positive ports; no outcome under two assets |
| Rules.CountAuthBrute | internal/detect/rules.go:174-183 | counts distinct named users |
| Rules.CountWebshell | internal/detect/rules.go:249-256 | counts distinct paths |
| Rules.DirEnumFires | internal/detect/rules.go:69-108 | fires on twelve events over eight paths at least; counts paths and refusals |
| Rules.PortScanFires | internal/detect/rules.go:110-138 | fires on fifteen events over two assets at least; counts ports and assets |
| Rules.AuthBruteFires | internal/detect/rules.go:161-184 | fires on five events; counts the users named |
| Rules.WebshellFires | internal/detect/rules.go:224-257 | fires on one event; counts paths |
| Rules.PlainRulesFire | internal/detect/rules.go:140-222 | the other three fire on three, eight and six events |
| Rules.WindowsAndKeys | internal/detect/rules.go:59-257 | how far each rule looks back, and whose events it puts together |
| Rules.TableIsWellFormed | internal/detect/rules.go:59-257 | seven rules, distinct identifiers, positive windows and thresholds |
| Rules.OutcomesAreBounded | internal/detect/rules.go:44-49 | an outcome needs the threshold, counts its whole window, and nothing in it exceeds the window |
| Detect.Compact | internal/detect/engine.go:53-59 | in-place compaction keeps exactly the later entries, in order |
| Detect.Engine.Process | internal/detect/engine.go:32-72 | every rule's window and emission as specified, in rule order; nothing without an emitter |
| Detect.Engine.Slide | internal/detect/engine.go:45-62 | one window slides, all others stay |
| Detect.Engine.Drain | internal/detect/engine.go:74-78 | forgets every window |
| DetectRuns.WindowHoldsSurvivors | internal/detect/engine.go:53-60 | for any timestamps, a window is exactly the events later than every later same-key time minus the window, in arrival order |
| DetectRuns.WindowIsRecentHistory | internal/detect/engine.go:53-60 | for ordered timestamps, an updated window is the history later than now minus the window |
| DetectRuns.RunAt | internal/detect/engine.go:37-71 | after any run, windows and emissions of a rule and key are functions of their own history |
| DetectRuns.KeysAreIsolated | internal/detect/engine.go:41-71 | removing all other events changes nothing a rule emits for a key |
| DetectRuns.OnlyMatchedEventsFire | internal/detect/engine.go:37-45 | over every run no rule holds or emits an event it does not match or that has another key |
| DetectRuns.MatchedEventEnters | internal/detect/engine.go:37-62 | an event a rule matches, with a key, is the newest of its window; any other changes none of the rule's windows and makes it emit nothing |
| DetectRuns.EmitsExactlyWhenHistorySays | internal/detect/engine.go:37-70 | an event emits exactly when the rule matches it and the survivors of the matching history meet threshold and condition, and it emits those events |
| DetectRuns.EmissionsInRuleOrder | internal/detect/engine.go:37-71 | the emissions of one event come in rule order, one a rule at most |
| DetectRuns.WindowSharesKey | internal/detect/engine.go:41-61 | all events of a window have its key |
| Alerts.Alert.Merge | internal/alerts/service.go:99-114 | the merged evidence: last seen, severity, confidence step, capped identifiers, maxima |
| Alerts.Alert.ApplyOutcome | internal/alerts/service.go:116-127 | count replaced, the other three counters raised to the outcome |
| Alerts.Alert.Assign | internal/alerts/service.go:129-147 | assigns unless resolved or unnamed; an open alert becomes assigned; one log entry |
| Alerts.Alert.SetStatus | internal/alerts/service.go:154-175 | refuses from and to RESOLVED and to ASSIGNED without assignee; one log entry |
| Alerts.Alert.Act | internal/alerts/service.go:182-222 | the effect of each action, one log entry; an unknown action changes nothing |
| Alerts.Alert.AppendAction | internal/alerts/service.go:229-234 | appends one entry ending in the current status |
| Store.MemoryStore.Create | internal/store/memory.go:24-33 | appends unless the identifier is taken |
| Store.MemoryStore.Get | internal/store/memory.go:35-43 | the one alert of that identifier |
| Store.MemoryStore.Update | internal/store/memory.go:45-53 | changes nothing for the object already stored |
| Store.MemoryStore.FindOpen | internal/store/memory.go:103-112 | the first open match in creation order |
| Store.MemoryStore.List | internal/store/memory.go:55-101 | one page of the stable priority order of the kept alerts; no alert on it behind one it should precede |
| Store.MemoryStore.Counts | internal/store/memory.go:114-153 | the counters and the by-severity table as cardinalities |
| Store.MemoryStore.MTTR | internal/store/memory.go:155-170 | truncated mean and number of the response times |
| Store.QueueIsInOrder | internal/store/memory.go:59-92 | open before resolved, then the more severe, then the later seen; exactly the alerts every given criterion accepts |
| Store.PageIsStretch | internal/store/memory.go:93-100 | a page is the stretch from the offset on, of the length asked for or what is left |
| Store.QueueIsTheStableOrder | internal/store/memory.go:84-92 | the queue is the unique stable ordering of the kept alerts |
| Store.PagesCoverQueue | internal/store/memory.go:93-100 | pages of any positive size concatenate to the queue, without gap or repeat |
| Store.CountsPartition | internal/store/memory.go:114-153 | active and resolved make up all, the three statuses make up active, severities make up all and agree with the by-severity table |
| Store.CountersCount | internal/store/memory.go:114-153 | every counter is the number of alerts of its status or severity |
| Sorting.StableSortUnique | internal/store/memory.go:84-92 | two stable sorts of the same sequence are equal |
| AlertService.Service.Ingest | internal/alerts/service.go:50-97 | merges into the first open match or creates an alert |
| AlertService.Service.Assign | internal/alerts/service.go:129-152 | the request, its refusals, and everything else unchanged |
| AlertService.Service.SetStatus | internal/alerts/service.go:154-180 | the request, its refusals, and everything else unchanged |
| AlertService.Service.Action | internal/alerts/service.go:182-227 | the request, its refusals, and everything else unchanged |
| AlertService.Service.List | internal/alerts/service.go:238-243 | a page of the queue in its order, fifty without a limit |
| AlertService.Service.RelatedEvents | internal/alerts/service.go:249-275 | the newest listed events or, failing those, of the origin; at most the maximum; oldest first |
| AlertService.RelatedAreRelated | internal/alerts/service.go:249-275 | only listed events if any is at hand, otherwise only those of the alert's address or asset; never more than asked for |
| Lifecycle.OneOpenAlertPerKey | internal/alerts/service.go:57-94 | at most one open alert per rule and key in every reachable store |
| Lifecycle.ResolvedIsAbsorbing | internal/alerts/service.go:137-227 | no request leads out of RESOLVED |
| Lifecycle.BothStoresFindTheSame | internal/store/postgres.go:183-195 | the database query and the in-memory search have one and the same answer |
| Lifecycle.AlertsLiveTheirBiographies | internal/alerts/service.go:50-227 | an alert is the outcome of the calls aimed at it and of no others |
| Lifecycle.LogReplaysToStatus | internal/alerts/service.go:129-234 | replaying the log from OPEN ends in the status; an assigned alert has an assignee |
| Lifecycle.ReplayedLogsConnect | internal/alerts/service.go:229-234 | a replayable log is a connected path of allowed moves that never leaves RESOLVED |
| Lifecycle.GoesBackExactlyWhen | internal/alerts/service.go:129-227 | an accepted edit lowers the status exactly when it sets a status below the current one |
| Lifecycle.AlertsCanGoBack | internal/alerts/service.go:154-175 | a run that takes an alert from IN_PROGRESS back to OPEN |
| Trail.LogTellsTheRest | internal/alerts/service.go:129-234 | response time, resolution, action on the address, assignee and their times are those of the first or last log entry that sets them, and absent when none does |
| Trail.RespondedAtFirstResponse | internal/alerts/service.go:182-222 | an alert was responded to when its first entry of the eight response actions was made, and not at all exactly when there is none |
| Trail.SampleIsFirstResponse | internal/alerts/model.go:88-97 | the response time is the time from creation to that entry |
| Lifecycle.RequestsAddOneEntry | internal/alerts/service.go:129-234 | refusals change nothing; an accepted request adds to the alert it names one entry that says who, what, when, from and to; it is not found exactly when there is no such alert |
| Trail.AcceptedExactlyWhen | internal/alerts/service.go:129-227 | when each request is accepted, with what status or error |
| Lifecycle.TimesAreOrdered | internal/alerts/service.go:182-227 | created, responded, resolved in order; RESOLVED, resolution and resolution time coincide |
| Lifecycle.SamplesNeverChange | internal/alerts/model.go:88-97 | a response time is never changed by later calls |
| Lifecycle.MeanIsBetweenSamples | internal/store/memory.go:155-170 | the mean response time lies between its smallest and largest sample |
| Lifecycle.MeanIsTruncated | internal/store/memory.go:155-170 | it is their sum over their number, cut to a whole |
| Lifecycle.EvidenceTellsTheWholeHistory | internal/alerts/service.go:99-127 | closed form of the evidence over all batches and outcomes that reached an alert: identifiers, confidence, maxima, worst severity, and last sight, asset, address and location of the latest batch |
| Lifecycle.OnlyOwnDetectionsMerge | internal/alerts/service.go:57-94 | an alert is named after the detection that raised it, and every one merged into it was by its rule and of its key |
| Lifecycle.ExceedsCapExactlyWhen | internal/alerts/service.go:108-112 | more than 200 identifiers exactly on an alert never merged whose first batch was longer |
| Lifecycle.LongBatchIsKept | internal/alerts/service.go:72-97 | one detection with a longer batch makes such an alert |
| Ring.Ring.Append | internal/requests/requests.go:30-38 | the history grows by one; the buffer holds its tail |
| Ring.Ring.Snapshot | internal/requests/requests.go:40-52 | the last min(n, capacity) events in order |
| Ring.Ring.Recent | internal/requests/requests.go:61-80 | a page of the held events of an asset, from the newest back |
| Ring.PagesCoverHistory | internal/requests/requests.go:72-79 | pages from oldest to newest reassemble the asset's held history |
| Ring.AssetsEvents | internal/requests/requests.go:61-71 | the events of an asset are those that name it |
| HubProtocol.EveryRunIsSafe | internal/requests/requests.go:90-127 | under every interleaving: no send on a closed channel, no double close, no eviction, books in order |
| HubProtocol.EvictionIsUnreachable | internal/requests/requests.go:119-124 | the evicting branch is never taken |
| HubProtocol.PublisherNeverBlocks | internal/requests/requests.go:107-127 | a publication always has a possible next step |
| HubProtocol.LiveQueueIsSuffix | internal/requests/requests.go:110-126 | a live queue is a suffix of what was published since it joined; drops never outnumber full sightings |
| HubProtocol.NothingIsLostUnlessFull | internal/requests/requests.go:111-116 | a queue never seen full loses nothing |
| HubProtocol.PickedIsSubsequence | internal/requests/requests.go:110-118 | a consumer gets an ordered, duplicate-free subsequence |
| HubProtocol.ChannelsCloseWithSubscriptions | internal/requests/requests.go:97-124 | in every reachable state a channel is closed exactly when it is not subscribed |
| HubProtocol.CancelledStaysSilent | internal/requests/requests.go:97-104 | after a cancellation nothing is ever sent to the channel |
| HubProtocol.DropHitsRoomExactlyWhen | internal/requests/requests.go:115-118 | after the publisher saw a queue full, room at the drop equals the receives since; an event is lost all the same unless the consumer emptied the queue |
| HubProtocol.DropMayHitAQueueWithRoom | internal/requests/requests.go:115-118 | a run in which the drop loses an event although the queue has room again |
| HubProtocol.QuietPublicationKeepsNewest | internal/requests/requests.go:107-127 | a publication without a receive in between, in any order of subscribers, leaves every queue its newest events and evicts nobody |
| HubProtocol.StepsActOnLiveQueues | internal/requests/requests.go:90-127 | in every reachable state each protocol step does to the subscribed queues what the hub's method of that name does |
| Hub.Hub.Subscribe | internal/requests/requests.go:90-97 | a new empty channel under a new identifier |
| Hub.Hub.Cancel | internal/requests/requests.go:97-104 | closes and removes once; a second call changes nothing |
| Hub.Hub.Receive | internal/server/handlers.go:237 | a consumer takes the oldest entry of one queue |
| Hub.Hub.Offer | internal/requests/requests.go:111-112 | the first select: sends if there is room |
| Hub.Hub.DropOldest | internal/requests/requests.go:115-118 | the second select: drops the oldest entry if there is one |
| Hub.Hub.Retry | internal/requests/requests.go:119-124 | the third select: sends if there is room, evicts otherwise |
| Hub.Hub.Publish | internal/requests/requests.go:107-127 | the selects for every subscriber, no consumer moving: every queue keeps its newest entries and nobody is evicted |
| KillChain.BuildChain | internal/analysis/analysis.go:121-162 | the chain of the two-level fold |
| KillChain.Summarize | internal/analysis/analysis.go:134-147 | one phase's count, blocked total, worst severity, first and last seen |
| KillChain.MaxSeverity | internal/analysis/analysis.go:164-172 | the worst severity over phases |
| KillChain.ChainIsOrdered | internal/analysis/analysis.go:129-150 | phases strictly increase; each holds its whole group; every alert is in its phase |
| KillChain.ChainKeepsEveryAlert | internal/analysis/analysis.go:122-150 | no alert lost or duplicated; total is the number given |
| KillChain.ChainKeepsBlocked | internal/analysis/analysis.go:134-147 | the blocked counts over the phases add up to those of the alerts |
| KillChain.ChainReachesFurthest | internal/analysis/analysis.go:151-162 | the phase reached is the furthest of any alert |
| KillChain.ChainSeverityIsFlat | internal/analysis/analysis.go:151-154 | worst over phases equals worst over alerts |
| KillChain.ChainTimesAreFlat | internal/analysis/analysis.go:141-146 | for dated alerts, earliest and latest over phases equal those of the flat list |
| KillChain.ChainStartsRightExactlyWhen | internal/analysis/analysis.go:154 | the chain's start is the case's exactly when an earliest alert is also first in kill-chain order |
| KillChain.ChainEndsRightExactlyWhen | internal/analysis/analysis.go:155 | the chain's last sight is the case's exactly when a latest alert is also last in kill-chain order |
| KillChain.ChainCanMissBothEnds | internal/analysis/analysis.go:154-155 | two alerts whose chain starts too late and ends too early |
| KillChain.FirstSeenIsRightExactlyWhen | internal/analysis/analysis.go:141-143 | the first-seen fold finds the earliest start exactly when every alert is dated or the last one is not |
| KillChain.EngineAlertsStayInInitialAccess | internal/analysis/analysis.go:67-96 | alerts of the seven rules reach the one phase initial_access |
| KillChain.PhaseIsRightExactlyFor | internal/analysis/analysis.go:67-96 | that phase is the one of the rule's techniques exactly for the three rules of T1190 |
| KillChain.EngineChainSpansTheCase | internal/analysis/analysis.go:154-155 | the chain of engine alerts starts and ends with the case |
| Incidents.BuildIncident | internal/analysis/analysis.go:387-460 | the incident of a group |
| Incidents.GroupByKey | internal/analysis/analysis.go:334-342 | groups by key, keys in order of first appearance |
| Incidents.GroupIncidents | internal/analysis/analysis.go:333-360 | the incidents of the keys with active alerts, more severe and more recent first |
| Incidents.GroupingPartitions | internal/analysis/analysis.go:333-352 | incidents list exactly the alerts of their key, none twice, every active alert in the one of its key |
| Incidents.IncidentsHoldWhatBelongsTogether | internal/analysis/analysis.go:333-385 | every incident lists exactly the alerts of one address, or without address of one asset, and every unresolved alert is in one |
| Incidents.IncidentSaysWhatItsAlertsSay | internal/analysis/analysis.go:387-460 | address, asset and breach marks told by the alerts |
| Incidents.StatusIsFurthest | internal/analysis/analysis.go:415-428 | the furthest status of the active alerts |
| Incidents.StatusIgnoresOrder | internal/analysis/analysis.go:415-428 | independent of the order of alerts |
| Incidents.IncidentAgreesWithItsChain | internal/analysis/analysis.go:396-437 | the flat and the two-level fold agree on total, severity and times |
| Indicators.EqFold | internal/analysis/analysis.go:259-276 | equality up to ASCII case |
| Indicators.IndexFold | internal/analysis/analysis.go:250-257 | the first occurrence up to case, or none |
| Indicators.ContainsFold | internal/analysis/analysis.go:242-248 | the search with its arguments exchanged |
| Indicators.ToolConfidence | internal/analysis/analysis.go:232-240 | 0.95 when one of the six tests holds, else 0.7 |
| Indicators.ContainsFoldIsRightExactlyWhen | internal/analysis/analysis.go:242-248 | containment is answered rightly exactly for equal lengths or no containment |
| Indicators.OnlyBareNamesScore | internal/analysis/analysis.go:232-240 | only a tool's bare name scores as a tool |
| AccessLog.ParseNginxCombined | internal/ingest/tail.go:93-144 | the parser, including where it would slice past the end |
| AccessLog.QuotedToken | internal/ingest/tail.go:146-158 | one quoted token and the rest |
| AccessLog.ParseRequestLine | internal/ingest/normalize.go:86-100 | method, path, protocol, or nothing |
| AccessLog.AllUpper | internal/ingest/normalize.go:102-109 | non-empty and upper-case letters only |
| AccessLog.RoundTrip | internal/ingest/tail.go:79-144 | render, parse, normalize gives back address, request, status and trimmed referer and user agent |
| AccessLog.RoundTripIsExactWhenTrimmed | internal/ingest/fields.go:9-18 | referer and user agent come back unchanged exactly when trimmed |
| Text.DecimalParses | internal/ingest/fields.go:20-37 | a decimal number within 64 bits parses to itself |
| Pipeline.Pipeline.Enforce | internal/server/pipeline.go:54-57 | the edge's whole new state and verdict; every event is blocked and counted or entered in the book |
| Pipeline.Pipeline.Watch | internal/server/pipeline.go:57-59 | detection and the alerts it raises |
| Pipeline.Pipeline.Step | internal/server/pipeline.go:51-61 | one loop pass is one input of `PipelineRuns`, then delivered to ring and hub; every windowed event is one let through undenied and not written since |
| Pipeline.Pipeline.Install | internal/server/analysis_handlers.go:222-222 | a policy installed between two passes is one input of `PipelineRuns` |
| Pipeline.Pipeline.Remove | internal/server/analysis_handlers.go:236-236 | so is a policy removed |
| Pipeline.Pipeline.Operate | internal/alerts/service.go:129-227 | so is an operator's request |
| PipelineRuns.EveryRunKeepsInv | internal/server/pipeline.go:45-62 | over every run: events are blocked or let through, windows are a detection run over the let-through events, alerts list only those, one open alert per key |
| PipelineRuns.NoDeniedEventInAnyWindow | internal/edge/edge.go:94-95 | every windowed event is one that arrived when no unexpired deny policy named its address or all |
| PipelineRuns.BlockedEventsLeaveNoTrace | internal/server/pipeline.go:57-59 | what was not let through is in no window and on no alert |
| PipelineRuns.WindowsHoldLetThroughHistory | internal/detect/engine.go:53-60 | the pipeline's windows are the survivors of the let-through history |
| PipelineRuns.BookIsWhatEntered | internal/server/pipeline.go:52-57 | events are counted as they arrive, and the let-through ones are the arrivals not blocked |
| PipelineRuns.AlertsAreIngestedEmissions | internal/server/pipeline.go:57-59 | the alerts are those of a service run over the operators' requests and one ingestion per emission of detection over the let-through events, and no other call |
| PipelineRuns.IngestedIsShownExactlyWhen | internal/alerts/service.go:57-97 | an ingested detection is listed by an open alert exactly when there was one or the drawn identifier is free |
| PipelineRuns.DetectionIsShown | internal/alerts/service.go:44-97 | an event let through that completes a rule's condition is then listed by an open alert of that rule and key, unless a drawn identifier was taken |
| CaseRuns.ReachableAlertsAreDated | internal/server/pipeline.go:52-53 | with events stamped by the clock, no alert of any run is undated |
| CaseRuns.PipelineAlertsAreSourced | internal/detect/engine.go:64-70 | every alert of a running pipeline is dated and comes from one of its rules |
| CaseRuns.PipelineIncidentsAgree | internal/analysis/analysis.go:387-437 | every incident built from a pipeline's alerts agrees with its kill chain on start, end, count and severity |

## Left out

- HTTP, JSON, routing, SSE, configuration, logging and `main`: plumbing around the calls modelled here.
- The Postgres store, except the meaning of its open-alert query: its other queries order and truncate differently.
- File tailing, the simulator and channels between goroutines before the pipeline: the input is an arbitrary sequence.
- Rule match predicates, the SQL-injection expression and keyword lists: uninterpreted predicates on events.
- Display texts of rules and outcomes, SLA strings, phase labels, per-second rate window, metrics: no behaviour to prove.
- Geo lookup, the hash in incident identifiers, random identifiers: the incident is named by its key, identifiers are parameters.
- `containment.ParseDuration`: the parsed duration is an input.
- sshd lines: the parser of those is a parameter of `ParseLine`.
- Event identifiers, extra fields and tags in `Normalize`: not part of the round trip.
- `ExtractIOCs` beyond its tool score, `IncidentByID`, the demo seed, the incident assign handler: compositions of what is here.
- Negative list offsets: the source would slice out of range.
- Alert search folds case for ASCII letters only, and text lengths count characters, not bytes.
- `Unassign` and other unnamed actions: all are the unknown action, as in the code.
