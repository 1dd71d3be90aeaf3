# OneLLM admin backend and gateway kernels: a verified model

OneLLM is an LLM gateway with an administration backend. This project models the logic on
which money, access and catalogue data depend, and proves what holds over every input, every run and
every interleaving:

| module | models |
|---|---|
| `Budget` | the six budget layers, the rounded percentage, the four levels, the most severe verdict |
| `BudgetLayers` | the same check spelled out: whose rows each layer sums, over which period, and what it answers at which spend |
| `Admission` | the protocol from `validate-key` through forwarding to `log-request`, step by step, with any number of requests interleaved |
| `Tightness` | exactly when a budget bounds its owner, and runs that come as close to the bound as one likes |
| `Spending` | the per-binding spend maps, the key-level sums, the `validate-key` answer |
| `RateLimiter` | the send limiter per IP, the login lockout per phone, the cleanup task |
| `Auth` | verification codes, logins, passwords and invitations as handlers on top of the limiter |
| `AuthOutcomes` | the same handlers spelled out: when each answers what, and what it leaves of every table |
| `AuthRuns` | runs of those handlers that reach what their bounds leave room for |
| `Providers` | provider creation by concurrent callers and sync runs, the single-run flag |
| `Catalog`, `CatalogRows` | the duplicate cleanup and the upsert of the catalogue sync, and the rows they leave column by column |
| `Discovery`, `DiscoveryAnswers`, `Sorting` | the discovery cache, its filters, the rankings and what they list, and the stable sort they use |
| `Bindings` | key-to-provider bindings and the legacy pointer |
| `ContentParts` | reading and writing the text of gateway requests and responses |
| `Fingerprint` | the 32-bit prompt fingerprint |
| `CamelCase` | key conversion of JSON trees |

Code that changes state in the original is a class with methods here. Each method is proved equal to a
step function, and what the step promises is proved about that function over all runs. The pure kernels
are functions with lemmas.

## Idealisations

- The clock never runs backwards; application and database share it, and a day of the code limit starts at UTC midnight.
- TIMESTAMP columns keep whole seconds (`admin-api/src/db/schema.sql:386-395`): the current time is cut to its second, a bound
  time with milliseconds is rounded to the nearest. Everything in memory keeps milliseconds.
- Money and percentages are exact reals, costs are not negative, and `Math.round(x)` is the floor of x + 1/2.
- Generated ids are fresh; `slug` and the invitation code are unique columns (`admin-api/src/db/schema.sql:185`, `:398-414`).
- SQL string comparison is exact equality. A SELECT without an order returns rows in table order.
- `Admission` and `Providers` make every await a step of its own. In `Auth` and `Bindings` a handler is one atomic step.
- In `Admission` a request is what the gateway makes of it: `validate-key` gets the key, and the agent only if a caller sends one;
  the log row carries the agent of an agent key, or else whatever agent the request's header names
  (`gateway-core/src/middlewares/onellmAuth.ts:45-56`, `gateway-core/src/middlewares/log/index.ts:120-132`, `:422-433`).
  Requests without a OneLLM key are rows charged to whomever their headers name.
- Budgets, keys and agents stay as they are over a run of `Admission`; the log, the date and the requests change.
- Bcrypt and SQL joins with tables that are not modelled enter as parameters (a password comparison is a boolean of the operation).

## Where the code differs from what it says, or from what one might expect

Each of these is a lemma; the code was followed.

- The comment at `admin-api/src/services/budget.ts:4-8` promises a cutoff at 100%. Because the percentage is rounded first, the
  cutoff is at 99.5%, throttling at 84.5% and warning at 69.5% (`Budget.LevelThresholds`).
- A budget alone bounds nothing: a request is priced after its check, so one admitted request can spend any amount
  (`Admission.OneRequestCanOverspend`). With at most K requests outstanding, at most c a row, and every row of an owner coming from a
  request that read the owner's budget, spend stays below 99.5% + K·c (`Admission.BoundedOverspend`), and no smaller bound
  holds (`Tightness.BoundIsTight`).
- That last condition fails in three ways. The gateway never sends an agent to the check, so agent limits change nothing about
  what it forwards (`Admission.GatewayReadsNoAgentLayer`, `Admission.AgentLimitsPlayNoPart`), while a header charges any agent
  (`Admission.HeaderAgentsEscape`). An agent key reads no budget at all (`Admission.AgentKeysEscape`). And a request
  without a OneLLM key is charged to the workspace and user its headers name (`Admission.ForeignRowsEscape`).
- With rows of at most c, no charges by such headers and at most K requests in flight, a workspace budget therefore bounds its
  workspace if and only if no active agent belongs to it (`Tightness.WorkspaceBoundIff`). Key budgets are compared with
  the spend of the key's user: a limit L bounds the user if every live key of the user has a limit between 1 and L and no active
  agent of the user is in the workspace, and, where nothing else bounds those keys, only if (`Tightness.UserBoundIff`).
- A key without bindings can report more spend for the day than for the month (`Spending.FallbackDailyCanExceedMonthly`, exactly
  when: `Spending.FallbackDailyWithinMonthlyIff`); with bindings only across midnight at a month's end
  (`Spending.DailyWithinMonthlyIff`).
- The limit of 5 codes per hour and IP is a fixed window: any closed hour holds at most 9, and 9 is reached
  (`RateLimiter.SendSlidingWindow`, `RateLimiter.NineIsReached`). For which hours 5 does hold, from any state of the limiter:
  `RateLimiter.FivePerHourIff`. Who waits exactly the advertised seconds is refused again
  if and only if the time left was a whole number of seconds (`RateLimiter.WaitingIsRewarded`).
- A cleanup can be seen by callers that record failures without checking first, exactly when it meets an expired lock
  (`RateLimiter.CleanupInvisibleIff`, `RateLimiter.CleanupShowsWithoutDiscipline`); the handlers do check first
  (`Auth.HandlersAreDisciplined`), and through them it is invisible (`Auth.SweepsAreInvisible`).
- The limit of 10 codes a day counts codes created strictly after midnight, so a code of the second of midnight is not counted: eleven
  in a day are possible, and only so (`Auth.AtMostTenADay`, `AuthRuns.ElevenInADay`).
- The cooldown and the lifetime suggest at most five unexpired codes. An expiry rounded up to the next second admits a
  sixth for one second (`Auth.AtMostFiveAlive`, `AuthRuns.ElevenInADay`).
- A sync does not count a provider whose row it inserted but failed to read back (`Providers.FailedRereadIsNotCounted`, exactly
  when: `Providers.SyncCountsItsRowsIff`).
- The duplicate cleanup of the sync keeps every row that shares the earliest creation time (`Catalog.CleanupKeepsTheEarliest`).
- Removing duplicates commutes with a filter exactly when the first model of an id passes whenever any of them does
  (`Discovery.FilterCommutesIff`): always for the provider filter, not for capabilities
  (`Discovery.ProviderFilterCommutes`, `Discovery.CapabilityFilterDoesNotCommute`).
- Writes to embedding requests are dropped (`ContentParts.EmbedWritesAreDropped`); a completion response is read from its
  first choice and written to its last, in the caller's own object (`ContentParts.CompletionReadsBackIff`,
  `ContentParts.SetResponseContentPart`); rewritten blocks of a messages response are read back empty
  (`ContentParts.RewrittenBlocksReadEmpty`). Two unit tests, at `gateway-core/plugins/utils.test.ts:85-114` and `:181-204`,
  expect the last choice to be read; the `describe.only` at line 207 skips them, and the code reads choice 0.
- A key with two underscores before a word character is only half converted by one pass, any other key for good
  (`CamelCase.CamelTwiceIff`, for trees `CamelCase.ConvertTwiceIff`), and sibling keys that collide lose a property
  (`CamelCase.CollisionLosesProperty`).
- Normalizing a prompt twice can differ from once: exactly when the text is longer than 500 units and the cut falls after a space
  (`Fingerprint.NormalizeIsIdempotentIff`).

## Model

| member | source | states |
|---|---|---|
| Budget.PercentReached | admin-api/src/services/budget.ts:161-168 | the rounded percentage reaches p exactly when 200 times the spend reaches (2p - 1) budgets |
| Budget.NegativeBudget | admin-api/src/services/budget.ts:159-170 | a negative budget is not treated as unset, yet its percentage never exceeds zero, so it never alerts |
| Budget.LevelThresholds | admin-api/src/services/budget.ts:75-80 | the exact spend at which warning, throttle and cutoff begin: 69.5%, 84.5% and 99.5% of the budget |
| Budget.LevelGrows | admin-api/src/services/budget.ts:75-80 | more spend never lowers the level, for budgets of either sign |
| Budget.SpentAppend | admin-api/src/services/budget.ts:162-167 | a logged row adds exactly its own contribution to every sum that charges it, and nothing to the others |
| Budget.SpentGrows | admin-api/src/services/budget.ts:162-167 | over an append-only log no sum ever falls |
| Budget.WorstIsEarliestMaximum | admin-api/src/services/budget.ts:149-152 | the verdict on a list of readings is null iff none alerts, and otherwise the earliest alert among those of greatest severity |
| Budget.SortedHeadIsWorst | admin-api/src/services/budget.ts:149-152 | sorting the alerts by falling severity and taking the head finds that earliest maximum |
| Budget.VerdictIsMostSevere | admin-api/src/services/budget.ts:112-115 | with each layer read at its own moment, the verdict is the earliest most severe layer, null iff no layer alerts |
| Budget.PushAlert | admin-api/src/services/budget.ts:123-129 | one layer's read and push extends the collected alerts by that layer's alert and nothing else |
| Budget.CheckAllBudgets | admin-api/src/services/budget.ts:116-153 | the imperative collect, sort and take the head computes the verdict, whatever moments the six reads fall on; what the verdict is, `BudgetLayers` says |
| Budget.NoAlertIff | admin-api/src/services/budget.ts:116-147 | an atomic check answers null iff every layer that applies is unset, negative or under 69.5% of its budget |
| Budget.QuietIff | admin-api/src/services/budget.ts:155-170 | one layer stays silent iff its budget is unset or negative or its spend is under 69.5% of it |
| Budget.CheckGrows | admin-api/src/services/budget.ts:155-289 | with the date and the budgets fixed, later log rows can only raise the severity a layer reports |
| Budget.InterleavedCheckIsSandwiched | admin-api/src/services/budget.ts:116-153 | a check whose reads interleave with new log rows is at least as severe as an atomic check at its first read and at most as severe as one at its last |
| BudgetLayers.RowAdds | admin-api/src/services/budget.ts:162-166 | a logged row adds its cost to the day and month sums of its workspace, user and agent, its tokens in and out to the agent's day, and nothing elsewhere |
| BudgetLayers.WorkspaceReports | admin-api/src/services/budget.ts:155-197 | the workspace layers compare the workspace's cost of today, and of this month, with its daily and monthly budget: level, figures and nearest percentage at every spend |
| BudgetLayers.KeyReports | admin-api/src/services/budget.ts:199-245 | the key layers compare the cost of the key's user in the workspace, today and this month, with the key's own two budgets |
| BudgetLayers.AgentReports | admin-api/src/services/budget.ts:247-289 | the agent layers compare the agent's tokens of today with its token limit, and its cost of this month with its cost limit |
| BudgetLayers.UnsetIsSilent | admin-api/src/services/budget.ts:159-204 | a missing row, a revoked or foreign key, and a zero or negative budget never alert, layer by layer |
| BudgetLayers.CheckSpelledOut | admin-api/src/services/budget.ts:116-153 | null, warning, throttling or cutoff exactly as some budget that applies has been used up to 69.5%, 84.5% or 99.5%, with every sum written out |
| BudgetLayers.EarliestLayerWins | admin-api/src/services/budget.ts:149-152 | of several layers at the level of the answer it names the first in the order workspace, key, agent, daily before monthly |
| BudgetLayers.VerdictIsOneOfItsReads | admin-api/src/services/budget.ts:116-153 | with reads at any moments the answer is the first of the most severe readings, each made at its own moment |
| Admission.BlockedStaysOut | admin-api/src/routes/internal.ts:152-153 | a cutoff read at any one layer decides the whole request, whatever the other layers said |
| Admission.AdmittedUnderThreshold | admin-api/src/services/budget.ts:155-175 | a layer that did not cut off read a spend under 99.5% of its budget |
| Admission.ReadAdmits | admin-api/src/routes/internal.ts:140-142 | a request becomes outstanding at a gate only by a read that found the spend under the cutoff |
| Admission.RecordContained | admin-api/src/routes/internal.ts:416-437 | logging a row keeps the containment invariant: a charged row's cost moves from the outstanding share to the spend, whichever agent its header names |
| Admission.DecideContained | admin-api/src/routes/internal.ts:144-166 | the decision adds no outstanding request, since whoever was cut off at the gate's own layer is refused |
| Admission.AdvanceContained | admin-api/src/services/budget.ts:162-190 | a change of day or month starts the new period at zero and keeps the containment invariant |
| Admission.StepContained | admin-api/src/routes/internal.ts:30-192 | every step of the protocol, of API key, agent key and foreign requests alike, keeps the containment invariant while charged rows are checked ones |
| Admission.BoundedOverspend | admin-api/src/routes/internal.ts:140-153 | over every run and every change of day or month, an owner whose charged rows all come from requests that read the gate spends less than 99.5% of the budget plus K·c in every period |
| Admission.BoundedPeriods | admin-api/src/services/budget.ts:162-190 | the bound with the periods written out: every day's cost under a daily budget, every day's tokens under a token limit, every month's cost under a monthly one |
| Admission.RecordedRow | admin-api/src/routes/internal.ts:416-437 | a log row carries, column by column, its request's workspace, user and key, the event's binding, cost and tokens, today's date, and the agent key's agent or the header's |
| Admission.Arrivals | admin-api/src/routes/internal.ts:42-48 | an API key is checked for its own workspace and the agent sent along, an agent key is forwarded at once for its agent's workspace and user |
| Admission.Decisions | admin-api/src/routes/internal.ts:144-166 | a request is turned away exactly if a cutoff is among its readings, and otherwise forwarded |
| Admission.OtherSteps | admin-api/src/routes/internal.ts:140-142 | a read appends the reading of the next layer on the log and date of that moment; the other steps change only what they name |
| Admission.ConfinedStep | admin-api/src/routes/internal.ts:140-142 | from plain conditions on arrivals and on the recorded agent it follows, and stays true, that every charged row comes from a request that read the gate |
| Admission.SteadyOverspend | admin-api/src/routes/internal.ts:140-153 | the same bound, 99.5% plus K·c, from those conditions alone; for an agent they include that the recorded agent is the one checked |
| Admission.CoveredIsBounded | admin-api/src/routes/internal.ts:140-153 | if everybody who can arrive under the tables is admitted, the bound holds in every run of rows of at most c, without charges from outside, and with at most K requests in flight |
| Admission.WorkspaceArrivals | admin-api/src/routes/internal.ts:140-186 | every API key of a workspace passes both workspace budgets; everybody is admitted exactly when no active agent belongs to the workspace |
| Admission.UserArrivals | admin-api/src/services/budget.ts:199-221 | everybody who can be charged to a user is admitted exactly when each live key of the user has a limit between 1 and the gate's and no active agent of the user is in the workspace |
| Admission.AgentArrivals | admin-api/src/services/budget.ts:139-145 | a request checked for an agent passes both its limits; an agent key breaks the hypothesis exactly when it is that agent's own |
| Admission.GatewayReadsNoAgentLayer | gateway-core/src/middlewares/onellmAuth.ts:45-56 | over every run of gateway requests no request ever reads an agent layer |
| Admission.AgentLimitsPlayNoPart | gateway-core/src/middlewares/onellmAuth.ts:45-56 | every run of gateway requests is possible, step for step with the same states, under any other agent limits |
| Admission.HeaderAgentsEscape | gateway-core/src/middlewares/log/index.ts:422-433 | in every state whose workspace and key do not block, one more gateway request adds any tokens and any cost to the agent its header names, whatever that agent has spent |
| Admission.PassageForwards | admin-api/src/routes/internal.ts:30-168 | an undisturbed request is forwarded after its reads if no layer blocks at that moment |
| Admission.AgentKeysEscape | admin-api/src/routes/internal.ts:170-186 | in every state, whatever has been spent, a validated agent key is forwarded and its row adds any cost to its workspace and its agent |
| Admission.ForeignRowsEscape | gateway-core/src/middlewares/log/index.ts:120-132 | in every state a request without a OneLLM key adds any cost to the workspace and the user its headers name |
| Admission.OneRequestCanOverspend | admin-api/src/routes/internal.ts:416-437 | whatever the budgets, a gateway run with one admitted API key request reaches any daily spend |
| Tightness.BoundIsTight | admin-api/src/routes/internal.ts:140-153 | the bound cannot be lowered, for workspace and for key budgets: for every budget standing alone, K, c and margin a restrained run with at most K requests in flight spends more than 99.5% plus K·c minus the margin |
| Tightness.WorkspaceBoundIff | admin-api/src/routes/internal.ts:140-186 | a workspace budget bounds its workspace in all such runs iff no active agent belongs to the workspace |
| Tightness.UserBoundIff | admin-api/src/services/budget.ts:199-245 | a key limit L bounds its user if every live key of the user has a limit between 1 and L and no active agent of the user is in the workspace; the second is always necessary, the first where nothing else bounds the keys |
| Tightness.AgentKeyExceeds | admin-api/src/routes/internal.ts:170-186 | an active agent charged to an owner brings the owner above any ceiling, whatever budgets are configured |
| Tightness.UnlimitedKeyExceeds | admin-api/src/services/budget.ts:204-206 | so does a live key without a positive budget in any layer it passes |
| Tightness.LargerKeyExceeds | admin-api/src/services/budget.ts:204-216 | a key bounded by a larger budget alone brings the owner above the ceiling of the smaller one |
| Spending.MergeInto | admin-api/src/routes/internal.ts:74-78 | one loop of the merge sets one half of the entries its rows mention and leaves every other half alone |
| Spending.MergeSpending | admin-api/src/routes/internal.ts:60-96 | after the two loops over one map each listed binding has exactly its own daily and monthly sums, zero when it has no rows |
| Spending.FillTotals | admin-api/src/services/budget.ts:340-356 | a map filled from grouped rows gives each listed binding its own sum, zero when absent |
| Spending.SettingsBindings | admin-api/src/services/budget.ts:338-369 | the two-map join yields per binding the same two sums as the one-map merge |
| Spending.SpendIsConserved | admin-api/src/services/budget.ts:383-384 | the sums of distinct bindings add up to the cost of all log rows of any of them: nothing lost, nothing counted twice |
| Spending.OwnerDailyWithinMonthly | admin-api/src/services/budget.ts:340-356 | within one month, an owner's daily sum never exceeds the monthly sum, even when the monthly query runs later |
| Spending.DailyWithinMonthlyIff | admin-api/src/services/budget.ts:340-356 | a binding's daily spend is within its monthly spend for all logs exactly when both queries run in the same month |
| Spending.FallbackDailyWithinMonthlyIff | admin-api/src/services/budget.ts:386-410 | without bindings daily stays within monthly exactly unless the key cost nothing today, something this month, and its user more today than the key all month |
| Spending.FallbackDailyCanExceedMonthly | admin-api/src/services/budget.ts:404-410 | such a log exists: 100 reported for the day and 1 for the month |
| Spending.KeySpending | admin-api/src/services/budget.ts:382-410 | with bindings, the reported key spend is the cost of all log rows of those bindings, daily within monthly unless the month changes between the queries; without, the fallback whose exact defect is stated above |
| Spending.Respond | admin-api/src/routes/internal.ts:98-166 | the answer is valid iff the verdict is no cutoff; bindings keep order and spend, or the legacy one stands in; a reduced rate is set on all of them iff throttled |
| Spending.ThrottledRate | admin-api/src/routes/internal.ts:145-149 | a throttled rate is half of any rate of 2 or more, rounded down, 1 for other set rates, and 30 for an unset one |
| RateLimiter.Limiter.CheckSendCodeLimit | admin-api/src/services/rate-limiter.ts:58-75 | the mutating check performs the send step on the store and answers it, for every entry state |
| RateLimiter.Limiter.CheckLoginLockout | admin-api/src/services/rate-limiter.ts:81-100 | the mutating check performs the lockout step, dropping an expired lock, and answers it |
| RateLimiter.Limiter.RecordLoginFailure | admin-api/src/services/rate-limiter.ts:106-120 | records the failure step: the fifth and every later failure sets the lock anew |
| RateLimiter.Limiter.ResetLoginFailures | admin-api/src/services/rate-limiter.ts:125-127 | a success forgets the phone and no other; what that gives the phone, `RateLimiter.SuccessForgives` says |
| RateLimiter.Limiter.RunCleanup | admin-api/src/services/rate-limiter.ts:34-48 | the two deletion loops leave exactly the entries whose window or lock is not over |
| RateLimiter.ApplyWellFormed | admin-api/src/services/rate-limiter.ts:58-127 | every event keeps counts between 1 and 5, windows in the past, and a lock set exactly from the fifth failure on |
| RateLimiter.AdmittedWithinRoom | admin-api/src/services/rate-limiter.ts:58-75 | from any well-formed store, the sends admitted in a closed hour are within the room the entry and the clock leave |
| RateLimiter.RoomIsReached | admin-api/src/services/rate-limiter.ts:58-75 | that room is exact: from every well-formed store a run is admitted just so often |
| RateLimiter.SendSlidingWindow | admin-api/src/services/rate-limiter.ts:58-75 | over every run one IP is admitted at most 9 times in any closed hour |
| RateLimiter.NineIsReached | admin-api/src/services/rate-limiter.ts:62-74 | the bound of 9 is tight: a run from the start reaches it across two windows |
| RateLimiter.FivePerHourIff | admin-api/src/services/rate-limiter.ts:58-75 | the named limit of five holds for a closed hour in all continuations of a store iff the hour begins no later than the running window, or that window is used up and reaches into it or just up to it, or, with none running, the hour has begun |
| RateLimiter.WaitingIsRewarded | admin-api/src/services/rate-limiter.ts:68-71 | a refused caller is admitted one millisecond after the advertised wait if nobody else asks; at the advertised wait itself iff the time left was not whole seconds |
| RateLimiter.CleanupIsInvisible | admin-api/src/services/rate-limiter.ts:34-50 | cleanups anywhere in a run that checks before it records change no answer, waiting times included |
| RateLimiter.CleanupIsInvisibleToSenders | admin-api/src/services/rate-limiter.ts:37-41 | in every run from every store, undisciplined login events included, cleanups change no answer to a request for a code |
| RateLimiter.CleanupShowsWithoutDiscipline | admin-api/src/services/rate-limiter.ts:43-47 | without check before record a cleanup does change an answer: the hypothesis is needed |
| RateLimiter.CleanupInvisibleIff | admin-api/src/services/rate-limiter.ts:34-48 | in every well-formed store, a cleanup is invisible to all continuations, however undisciplined, iff it meets no expired lock |
| RateLimiter.FailuresPerLockout | admin-api/src/services/rate-limiter.ts:106-120 | no closed 15 minutes hold more than five failures of a phone without a success |
| RateLimiter.SixthFailureWaits | admin-api/src/services/rate-limiter.ts:117-119 | five failures later, more than 15 minutes have passed |
| RateLimiter.FailuresSpanLockouts | admin-api/src/services/rate-limiter.ts:81-120 | n failures without a success span at least floor((n - 1) / 5) lockouts, each outwaited by a millisecond |
| RateLimiter.LockoutRate | admin-api/src/services/rate-limiter.ts:81-127 | both lockout rates hold of any stretch of any run from the empty store that checks before it records |
| RateLimiter.LockoutExactly | admin-api/src/services/rate-limiter.ts:81-127 | over every disciplined run a check is refused exactly when the phone has failed five times or more since its last success or outwaited lock, last at most fifteen minutes ago, with the remaining seconds rounded up |
| RateLimiter.SuccessForgives | admin-api/src/services/rate-limiter.ts:125-127 | after a success a phone is allowed until five more failures, whatever came before |
| RateLimiter.SendLimitExactly | admin-api/src/services/rate-limiter.ts:58-75 | over every run a code is refused exactly when five were admitted from the IP in a window that began at most an hour ago, with the remaining seconds rounded up |
| RateLimiter.CleanupOutcome | admin-api/src/services/rate-limiter.ts:34-48 | a cleanup removes exactly the windows that are over and the locks that are outwaited, and changes no other entry |
| Auth.Newest | admin-api/src/routes/auth.ts:205-210 | the selected code is usable and no usable code of the phone is newer; none is selected iff none is usable |
| Auth.AuthService.SendVerificationCode | admin-api/src/routes/auth.ts:55-120 | checks phone length, IP limit, cooldown and daily limit in order; the new state and status are those of the send step |
| Auth.AuthService.LoginWithCode | admin-api/src/routes/auth.ts:189-263 | lockout, newest code, failure or use of the code, reset and registration: state and status of the code login step, which `AuthOutcomes` spells out |
| Auth.AuthService.LoginWithPassword | admin-api/src/routes/auth.ts:127-187 | an unknown phone or missing password is refused without recording a failure, a wrong password with one: the password step |
| Auth.AuthService.SetNewPassword | admin-api/src/routes/auth.ts:293-337 | token, length, user and existing password are checked in order, then that user alone gets a password: the password-setting step |
| Auth.AuthService.AcceptInvitation | admin-api/src/routes/auth.ts:340-454 | invitation and code checks in order, then the code is used, the user registered, the member added and the invitation counted: the acceptance step, which `AuthOutcomes` spells out |
| Auth.AuthService.CreateInvitation | admin-api/src/routes/invitations.ts:35-85 | only a manager creates, a clashing code is an error, and the new invitation is active with no uses |
| Auth.AuthService.RevokeInvitation | admin-api/src/routes/invitations.ts:136-157 | exactly the active invitation of that id and workspace becomes revoked; 404 iff there is none |
| Auth.AtMostFiveAlive | admin-api/src/routes/auth.ts:78-103 | in every reachable state a phone has at most six unexpired codes, and six only in the one second that an expiry rounded up outlasts its five minutes |
| Auth.AtMostTenADay | admin-api/src/routes/auth.ts:87-94 | over every run a phone gets at most eleven codes within a day, and more than ten only if one was created in the second of midnight |
| AuthRuns.ElevenInADay | admin-api/src/routes/auth.ts:78-103 | both exceptions occur: a run in which a phone gets eleven codes in a day and then has six of them unexpired |
| Auth.AcceptedIsNewest | admin-api/src/routes/auth.ts:204-218 | an accepted code is the phone's newest unused unexpired one, strictly newer than all the others |
| Auth.UsedNeverAccepted | admin-api/src/routes/auth.ts:220-221 | a used code is accepted by no later step of any run |
| Auth.CodesAreSingleUse | admin-api/src/routes/auth.ts:389-391 | over every run no code is accepted twice, neither by a login nor by an invitation |
| Auth.UsesStep | admin-api/src/routes/auth.ts:447-454 | a step raises an invitation's use count by one iff it redeems it, and never redeems or reopens a closed one |
| Auth.UsesCountAcceptances | admin-api/src/routes/auth.ts:447-454 | over any run the use count grows by exactly the number of successful acceptances |
| Auth.InvitationCounts | admin-api/src/routes/auth.ts:369-454 | in every reachable state the use count equals the acceptances and respects the maximum, and an unrevoked invitation is accepted iff the maximum is reached |
| Auth.ClosedStaysClosed | admin-api/src/routes/invitations.ts:136-145 | after revoke or exhaustion nothing is accepted on the invitation in any continuation |
| Auth.HandleMembers | admin-api/src/routes/auth.ts:432-445 | a step adds to a workspace's membership rows exactly its registered owner and its invited member, if any |
| Auth.UsesIntoStep | admin-api/src/routes/auth.ts:447-454 | the uses of all invitations to a workspace rise by one exactly when a step redeems one of them |
| Auth.MembersWithinUses | admin-api/src/routes/auth.ts:432-454 | over every run from every state, a workspace's membership table gains at most as many rows as its invitations gain uses, registrations of its own owner aside |
| Auth.HandlersAreDisciplined | admin-api/src/routes/auth.ts:195-224 | every run of handlers asks the limiter in clock order and records a failure only after an allowed check of that phone |
| Auth.ApiLockoutRate | admin-api/src/routes/auth.ts:134-224 | over every run of the handlers, password logins included, n failed attempts without a success span floor((n - 1) / 5) lockouts and at most five fall in any closed lockout time |
| AuthRuns.PasswordLockoutHappens | admin-api/src/routes/auth.ts:134-161 | the password half is live: after sign-up and setting a password, five wrong ones record five failures and the right one is refused for 15 minutes |
| Auth.SweepsAreInvisible | admin-api/src/services/rate-limiter.ts:34-50 | the periodic cleanup, whenever it runs, changes no status the handlers answer |
| AuthOutcomes.UsersStep | admin-api/src/routes/auth.ts:226-263 | a known phone keeps its user id, gains a password only by setting one and never loses it; a new phone appears only by a code login or an acceptance, as the fresh user without a password |
| AuthOutcomes.UsersStay | admin-api/src/routes/auth.ts:226-263 | over every run a known phone keeps its user id, and its password once it has one |
| AuthOutcomes.MembersKeepRoles | admin-api/src/routes/auth.ts:432-445 | a membership keeps its role; a new one is a registered user's own workspace, as owner, or that of the redeemed invitation, with its role |
| AuthOutcomes.MembersAreEnrolled | admin-api/src/routes/auth.ts:432-454 | whoever registers gets a workspace, and whoever accepts is a member of the invitation's workspace, which counts one use more |
| AuthOutcomes.SendOutcome | admin-api/src/routes/auth.ts:55-120 | a code is sent exactly to a phone of 7 to 15 digits whose IP is within its limit, a minute after the phone's last code, with fewer than ten since midnight |
| AuthOutcomes.CodeIsAppended | admin-api/src/routes/auth.ts:96-103 | a sent code is unused, dated to the second, and expires five minutes on to the nearest second; the others stay |
| AuthOutcomes.CodeLoginOutcome | admin-api/src/routes/auth.ts:195-224 | a code login succeeds exactly when the phone is not locked and the text is that of its newest unused, unexpired code |
| AuthOutcomes.CodesAreUsed | admin-api/src/routes/auth.ts:220-221 | a login by a code uses up that code and changes no other; no other step uses one |
| AuthOutcomes.PasswordOutcome | admin-api/src/routes/auth.ts:134-163 | a password login succeeds exactly when the phone is not locked and its account has a password and it is the right one |
| AuthOutcomes.SetPasswordOutcome | admin-api/src/routes/auth.ts:312-330 | a password is set exactly for a signed-in, existing user without one, with six characters or more |
| AuthOutcomes.InviteOutcome | admin-api/src/routes/invitations.ts:40-61 | an invitation is created exactly by a manager under a new code, with the given columns, unused and active |
| AuthOutcomes.RevokeOutcome | admin-api/src/routes/invitations.ts:136-145 | exactly the active invitation of that id and workspace becomes revoked, and 404 says there was none |
| AuthOutcomes.AcceptOutcome | admin-api/src/routes/auth.ts:348-387 | each status of an acceptance exactly: locked, no open invitation, used up, wrong code, accepted |
| AuthOutcomes.AcceptCounts | admin-api/src/routes/auth.ts:447-454 | an acceptance counts on its invitation alone, names the user, and closes it exactly at its maximum |
| AuthOutcomes.SuccessIsForgiven | admin-api/src/routes/auth.ts:163-224 | every successful login, by code, password or invitation, clears the phone's failures |
| AuthOutcomes.FailureIsCounted | admin-api/src/routes/auth.ts:157-218 | a wrong code, or a wrong password of an account that has one, adds one failure of the phone |
| AuthOutcomes.NothingElseIsCounted | admin-api/src/routes/auth.ts:148-156 | an account without a password, an invitation that is not open and a locked phone add none |
| AuthOutcomes.SendsAreCounted | admin-api/src/routes/auth.ts:66-76 | every request for a code from a valid phone counts against its IP, sent or not |
| AuthOutcomes.OthersLeaveTheLimiter | admin-api/src/services/rate-limiter.ts:34-50 | the remaining handlers leave the limiter alone, and the sweep is one cleanup |
| AuthOutcomes.ApiLockoutExactly | admin-api/src/routes/auth.ts:134-202 | over every run of the handlers a login of any kind is told to wait exactly when its phone has five recorded failures or more since its last success or outwaited lock, last at most fifteen minutes ago |
| Providers.IgnoredIffTaken | admin-api/src/routes/models.ts:41-48 | with a fresh id the ignored insert adds its row exactly when the slug is free |
| Providers.ThreadStable | admin-api/src/routes/models.ts:33-56 | another thread's insert leaves what a thread has already seen true |
| Providers.ApplyInvariant | admin-api/src/services/sync.ts:62-87 | every await of every caller and sync, a database failure in the loop included, keeps unique rows and each thread's knowledge of them |
| Providers.ApplyFlag | admin-api/src/services/sync.ts:35-39 | each step keeps the flag of a process set exactly while one sync of that process is unfinished |
| Providers.CallersAgree | admin-api/src/routes/models.ts:26-56 | under every interleaving slugs stay unique, every returned caller holds the id of the one row for its slug, and callers of one slug agree |
| Providers.SyncAgreesAndCounts | admin-api/src/services/sync.ts:62-87 | a sync maps every slug it did not fail on to the one row for it, and counts a creation exactly for the rows it inserted and read back; its other rows are reported as errors |
| Providers.SyncCountsItsRowsIff | admin-api/src/services/sync.ts:62-87 | a finished sync counts exactly the rows its own inserts made iff none of their slugs is among its errors |
| Providers.FailedRereadIsNotCounted | admin-api/src/services/sync.ts:73-85 | a winning insert whose read-back fails leaves a row that is not counted |
| Providers.OneSyncPerProcess | admin-api/src/services/sync.ts:34-39 | two unfinished syncs of one process are the same sync |
| Providers.RowsOnlyGrow | admin-api/src/routes/models.ts:41-55 | a provider row, once there, keeps its place for ever |
| Providers.LoadSystemIff | admin-api/src/services/sync.ts:56-60 | a sync starts from exactly the slugs that have a system row |
| Providers.InsertedAreSystem | admin-api/src/services/sync.ts:67-72 | every row that callers and syncs add is a system row, and the old rows stay in place |
| Catalog.NativeId | admin-api/src/services/sync.ts:116-122 | the native id is a suffix without a slash, preceded by a slash unless it is the whole id |
| Catalog.First | admin-api/src/services/sync.ts:131-136 | the row found matches the id in one of two columns and no earlier system row does; none is found iff none matches |
| Catalog.SyncService.CleanUpDuplicates | admin-api/src/services/sync.ts:96-103 | the pass over the table leaves, in order, exactly the rows that are no system rows or are earliest of their model |
| Catalog.SyncService.UpsertModel | admin-api/src/services/sync.ts:129-168 | refreshes the first match in place, or appends a new system row; the columns are those of `CatalogRows.UpsertWrites` |
| Catalog.SyncService.RunSync | admin-api/src/services/sync.ts:34-185 | refuses while running and leaves all state alone; an empty list changes nothing; otherwise cleanup and upserts in order, the flag down, time and count set |
| Catalog.UpsertKeepsFirst | admin-api/src/services/sync.ts:138-168 | an upsert of any model leaves the first match of every id where it is |
| Catalog.UpsertFinds | admin-api/src/services/sync.ts:129-168 | after its own upsert a model is matched where it was, or by the appended row |
| Catalog.LastWriterWins | admin-api/src/services/sync.ts:138-154 | a row that several listed ids match ends with the details of the last of them |
| Catalog.Untouched | admin-api/src/services/sync.ts:106-173 | a row matched first by no resolvable listed id is left as it was |
| Catalog.AllFound | admin-api/src/services/sync.ts:106-173 | every listed model with a provider has a row afterwards |
| Catalog.NothingInserted | admin-api/src/services/sync.ts:138-154 | when all resolvable models are matched already, no row is added |
| Catalog.CleanupKeepsTheEarliest | admin-api/src/services/sync.ts:96-103 | a row survives iff it is no system row or is an earliest one of its model |
| Catalog.CleanupLeavesTies | admin-api/src/services/sync.ts:96-103 | every model keeps a system row, and several only with equal creation times |
| Catalog.SyncIsIdempotent | admin-api/src/services/sync.ts:96-173 | on an unchanged list a second run deletes nothing, inserts nothing and leaves every row equal but for its update time |
| Catalog.UpsertAllCount | admin-api/src/services/sync.ts:106-173 | exactly how many rows an id matches after the upserts: one if it is listed and matched none, and otherwise as many as before |
| Catalog.EachModelMatchesOnce | admin-api/src/services/sync.ts:106-173 | a listed id that matched at most one system row matches exactly one afterwards, repetitions in the list included |
| CatalogRows.FirstIff | admin-api/src/services/sync.ts:131-136 | the row found is the first system row with the id in one of its two columns, none exactly if there is none |
| CatalogRows.CleanupIff | admin-api/src/services/sync.ts:96-103 | a row is deleted exactly if it is a system row and an older system row has the same model id |
| CatalogRows.CountIsSize | admin-api/src/services/sync.ts:131-136 | what the counting statements count is the set of positions of matching system rows |
| CatalogRows.ResolvableIsSize | admin-api/src/services/sync.ts:108-169 | the reported number is that of the listed models with a known provider |
| CatalogRows.UpsertWrites | admin-api/src/services/sync.ts:116-168 | every column of a refreshed and of an inserted row: input fen from the prompt price and output fen from the completion price, rounded, the native id, the kept identity or the new one, both times |
| CatalogRows.LastListedModelIsWritten | admin-api/src/services/sync.ts:106-173 | after a run a row that listed models match first holds the details, prices and native id of the last of them |
| CatalogRows.UnlistedRowsStay | admin-api/src/services/sync.ts:106-173 | a row that no listed model with a known provider matches first is left exactly as it was |
| Discovery.FilterModels | admin-api/src/services/discovery.ts:263-285 | the successive filters equal one filter by the conjunction of the requested tests |
| Discovery.AtMostOnePrefix | admin-api/src/services/discovery.ts:17-73 | no id matches two different prefixes of the combined table, so its provider does not depend on the search order |
| Discovery.Catalogue.DiscoverModels | admin-api/src/services/discovery.ts:182-249 | one call refetches iff the cache is empty or an hour old, replaces it only on success, and answers from what is then cached |
| Discovery.CacheIsLastRefresh | admin-api/src/services/discovery.ts:185-237 | over every run the cache holds what the last successful fetch stored, and is empty iff there was none |
| Discovery.AnswersFollowTheLastFetch | admin-api/src/services/discovery.ts:182-249 | every answer is the filtered dataset of the last successful fetch, under an hour old unless this call's refetch failed |
| Discovery.NoFetchNoAnswer | admin-api/src/services/discovery.ts:241-245 | with no successful fetch so far the answer is empty |
| Discovery.AnswerMeans | admin-api/src/services/discovery.ts:263-285 | a model is in an answer iff it is in the dataset and meets each requested condition, window of days included |
| Discovery.DatasetIsNewestFirst | admin-api/src/services/discovery.ts:207-237 | the cached dataset is newest first and holds exactly the recognised models |
| Discovery.AnswersAreNewestFirst | admin-api/src/services/discovery.ts:248 | every answer of every run is newest first, which is what the rankings rely on |
| Discovery.Deduplicate | admin-api/src/services/discovery.ts:320-328 | the loop over a seen set keeps exactly the first model of each id |
| Discovery.GetRankings | admin-api/src/services/discovery.ts:310-371 | the imperative pipeline yields the entries of the stably sorted candidates, cut as `slice` cuts; what they are, `DiscoveryAnswers.RankingsSpelledOut` says |
| Discovery.RankedFacts | admin-api/src/services/discovery.ts:338-356 | the ranked candidates are a permutation with distinct ids, in order of the dimension, ties newest first |
| Discovery.RankingsAreTopK | admin-api/src/services/discovery.ts:310-371 | ranks are 1..n with distinct ids, n is what the limit allows, the order is by dimension with ties newest first, and a candidate left out is later than every entry, or level with it and no newer |
| DiscoveryAnswers.RankingsSpelledOut | admin-api/src/services/discovery.ts:310-371 | the entries show, field by field, as many candidates as the limit keeps, larger windows, larger outputs, lower prices or newer models first, ties newest first, and no candidate left out comes before one shown |
| DiscoveryAnswers.EntriesAreInOrder | admin-api/src/services/discovery.ts:338-356 | the order on the entries' own columns: window and output descending, summed price ascending |
| DiscoveryAnswers.CandidatesAre | admin-api/src/services/discovery.ts:320-336 | a candidate is the first model of its id, of the wanted provider and capability |
| DiscoveryAnswers.DatasetIs | admin-api/src/services/discovery.ts:209-237 | a dataset holds exactly the upstream entries with a known prefix, each as a model with its own fields, the id for a missing name, and its prefix's provider |
| DiscoveryAnswers.SlugInMeans | admin-api/src/services/discovery.ts:210-213 | the provider is that of the first matching prefix, and there is none exactly if no prefix matches |
| DiscoveryAnswers.CallOutcome | admin-api/src/services/discovery.ts:185-249 | a cache less than an hour old is kept; otherwise a successful fetch replaces it by its own dataset, stamped, and nothing else does |
| Discovery.NewestChangesNothing | admin-api/src/services/discovery.ts:353-355 | sorting by newness leaves the candidates as they are |
| Discovery.ProviderFilterCommutes | admin-api/src/services/discovery.ts:331-333 | on every dataset, filtering by provider before or after removing duplicates gives the same models |
| Discovery.FilterCommutesIff | admin-api/src/services/discovery.ts:320-336 | filtering before or after removing duplicates agrees iff the first model of each id passes whenever any of that id does |
| Discovery.CapabilityFilterDoesNotCommute | admin-api/src/services/discovery.ts:334-336 | for every recognised id there is an upstream list whose dataset breaks that condition for a capability |
| Sorting.SortIsStable | admin-api/src/services/discovery.ts:236 | the sort is a permutation in order that keeps equal elements in their old order |
| Sorting.StableSortIsUnique | admin-api/src/services/discovery.ts:236 | any result with those properties is the same sequence, so the choice of sorting algorithm does not matter |
| Bindings.Best | admin-api/src/routes/bindings.ts:183-186 | the chosen binding comes before all others by ascending priority, then descending weight |
| Bindings.BindingStore.PostBinding | admin-api/src/routes/bindings.ts:55-122 | status and tables after an add: each refusal in order, the unique pair as a conflict, the pointer set for the first binding only |
| Bindings.BindingStore.PutBinding | admin-api/src/routes/bindings.ts:125-164 | status and tables after an update: only the given fields of that one row change |
| Bindings.BindingStore.DeleteBinding | admin-api/src/routes/bindings.ts:167-201 | status and tables after a removal: that row goes and the pointer is rewritten |
| Bindings.PutKeepsPointer | admin-api/src/routes/bindings.ts:124-164 | an update moves no pointer and leaves it pointing at a bound credential |
| Bindings.DeletePointsAtBest | admin-api/src/routes/bindings.ts:180-188 | after a removal the key points at the best remaining binding's credential, and at nothing iff none remains |
| Bindings.PointerInvariant | admin-api/src/routes/bindings.ts:98-106 | from any valid state, every run of handler calls keeps a key with bindings pointing at a credential bound to it |
| Bindings.LegacyPointerStaysValid | admin-api/src/routes/bindings.ts:54-201 | from a key without bindings, the pointer is valid after every run |
| Bindings.PostOutcome | admin-api/src/routes/bindings.ts:55-122 | each status exactly, and after an add the new row column by column with its defaults, the pointer set exactly for the key's first binding |
| Bindings.PutOutcome | admin-api/src/routes/bindings.ts:125-164 | each status exactly, and after an update the given columns of that row alone |
| Bindings.DeleteOutcome | admin-api/src/routes/bindings.ts:167-188 | each status exactly, and after a removal all rows but that one, other keys' pointers untouched |
| ContentParts.MessageReadsMerge | gateway-core/plugins/utils.ts:157-171 | what a message reads back after any write: entry by entry the new text if there is one and the old text otherwise, at the old length |
| ContentParts.PromptReadsMerge | gateway-core/plugins/utils.ts:172-176 | a list prompt takes the length of the write and merges; a string prompt is simply replaced, by an empty text too |
| ContentParts.WriteThenRead | gateway-core/plugins/utils.ts:78-178 | writing non-empty texts of the old arity and then reading returns them, for chat, messages and completion requests |
| ContentParts.MessageWriteReadsBackIff | gateway-core/plugins/utils.ts:157-171 | a write to a message is read back iff the arity is the old one and every empty entry equals the old text |
| ContentParts.LastWriteWins | gateway-core/plugins/utils.ts:148-178 | a later full write makes an earlier one vanish without trace |
| ContentParts.ReadThenWrite | gateway-core/plugins/utils.ts:78-178 | writing back what was read leaves the request as it was |
| ContentParts.RestUnchanged | gateway-core/plugins/utils.ts:154-171 | other messages, other fields, part counts and part attributes survive every write |
| ContentParts.EmbedWritesAreDropped | gateway-core/plugins/utils.ts:91-94 | an embedding request reads its old input after every write |
| ContentParts.ChatResponseLaws | gateway-core/plugins/utils.ts:189-198 | a chat response reads back the new text, or the old for an empty one; other choices survive; the later write wins |
| ContentParts.CompletionReadsBackIff | gateway-core/plugins/utils.ts:199-202 | a completion write is read back iff there is one choice or the first already had that text |
| ContentParts.RewrittenBlocksReadEmpty | gateway-core/plugins/utils.ts:203-207 | rewritten blocks of a messages response read as empty texts; a write reads back iff it and the old blocks are all empty |
| ContentParts.RequestReads | gateway-core/plugins/utils.ts:78-96 | what each kind of request reads, part by part, an empty text for a missing one, and when reading fails |
| ContentParts.RequestWrites | gateway-core/plugins/utils.ts:148-178 | what a write leaves at every place: the new text unless it is missing, null or empty, in the last message or the prompt alone |
| ContentParts.ResponseReads | gateway-core/plugins/utils.ts:98-118 | what each kind of response reads, and when reading fails |
| ContentParts.ResponseWrites | gateway-core/plugins/utils.ts:180-209 | what a write leaves of each choice and block, and when it fails |
| ContentParts.SetRequestContentPart | gateway-core/plugins/utils.ts:148-178 | the written request is a fresh object with the specified content, and the caller's request is unchanged |
| ContentParts.SetResponseContentPart | gateway-core/plugins/utils.ts:180-209 | the written response is fresh and as specified; the caller's response is unchanged, except that a completion write shows in it |
| ContentParts.SetCurrentRequestPart | gateway-core/plugins/utils.ts:127-146 | without texts nothing is written at all |
| Fingerprint.ToInt32 | admin-api/src/services/summarize.ts:36 | the signed 32-bit reduction is the one value in range congruent to its argument |
| Fingerprint.HornerClosedForm | admin-api/src/services/summarize.ts:34-37 | hashing character by character gives 5381·33^n plus the weighted sum of the code units |
| Fingerprint.Djb2 | admin-api/src/services/summarize.ts:34-37 | the signed loop, all of whose intermediates are exact doubles, is that closed form modulo 2^32 |
| Fingerprint.NormalizeFacts | admin-api/src/services/summarize.ts:33 | a normalized text is single-spaced, starts with no space and has at most 500 units |
| Fingerprint.NormalizeKeepsWords | admin-api/src/services/summarize.ts:33 | before the cut a text keeps exactly its words, single-spaced with nothing around them, and the cut keeps the first 500 units |
| Fingerprint.SpacesAre | admin-api/src/services/summarize.ts:33 | which code units separate words |
| Fingerprint.OnlyPlainSpaces | admin-api/src/services/summarize.ts:33 | the only white space left is the plain space |
| Fingerprint.NormalizeIsIdempotentIff | admin-api/src/services/summarize.ts:33 | a second normalization changes something for exactly the texts that, collapsed and trimmed, exceed 500 units with a space as the 500th |
| Fingerprint.ComputeFingerprint | admin-api/src/services/summarize.ts:32-39 | the fingerprint is the rendering of the closed form of the normalized text |
| Fingerprint.RenderIsFaithful | admin-api/src/services/summarize.ts:38 | the rendering is always `fp_` and eight hex digits, and parsing them gives the hash back |
| CamelCase.CamelIsConvertedIff | gateway-core/src/utils.ts:114-116 | one pass leaves no underscore before a word character iff the key has no two underscores before one |
| CamelCase.CamelTwiceIff | gateway-core/src/utils.ts:114-116 | converting a key twice is converting it once iff it has no two underscores before a word character |
| CamelCase.CamelAt | gateway-core/src/utils.ts:114-116 | up to its first underscore a key stays; that is dropped and the character after it raised if it is a word character, and the rest converted likewise |
| CamelCase.CamelStays | gateway-core/src/utils.ts:114-116 | a key without an underscore, or with one only at its end, stays |
| CamelCase.WordCharactersAre | gateway-core/src/utils.ts:114-116 | the characters that an underscore raises are the letters and digits of ASCII and the underscore |
| CamelCase.ConvertFieldsApart | gateway-core/src/utils.ts:96-112 | when no sibling keys collide, the fold over the keys converts property by property in place |
| CamelCase.ConvertedFieldsAre | gateway-core/src/utils.ts:96-112 | the converted object has distinct keys and consists of exactly the properties whose new name no later sibling takes, each converted |
| CamelCase.ConvertedOrder | gateway-core/src/utils.ts:96-112 | properties come in the order in which their new names first occur |
| CamelCase.PreservedVerbatim | gateway-core/src/utils.ts:99-109 | a preserved property that is not overwritten keeps its whole subtree verbatim under its new key, in place when no keys collide |
| CamelCase.ConvertTwiceIff | gateway-core/src/utils.ts:81-117 | with nothing preserved, converting any tree twice is converting it once iff no key of a part that survives has two underscores before a word character |
| CamelCase.ConvertIsIdempotent | gateway-core/src/utils.ts:81-117 | so conversion is idempotent on every tree without such keys, colliding siblings included |
| CamelCase.CollisionLosesProperty | gateway-core/src/utils.ts:102-108 | the result has fewer properties whenever two sibling keys get the same name, and never more |
| CamelCase.ShapeKeptIffCollisionFree | gateway-core/src/utils.ts:81-117 | array lengths, property counts and all leaf values survive iff no siblings collide outside preserved subtrees |

## Left out

- Roles beyond the one an insert writes: only the invitation's and the owner's role are stored, and nothing checks them.
- HTTP parsing and missing-field answers, JWT, bcrypt, AES, SMS delivery, audit records and the upstream fetch itself: foreign calls. A failed SMS answers 500 after the code row is inserted; the model answers 200 there and has the same row.
- Changing an existing password, and deleting users or members.
- Stripping non-digits from phones, trimming submitted codes and upper-casing invitation codes: operations take the normalized values.
- Concurrent handlers for codes, invitations and bindings: those are checks followed by writes in the code, so only the atomic versions are stated.
- Alerts (`recordAlert`, `budgetMessage`, budget names) and the fire-and-forget summaries after a log row.
- `request_logs` columns that no budget reads, and how the gateway prices a request: cost and tokens are inputs of the log step.
- In `getBudgetSettings`, log rows that arrive between the user's monthly query and the later daily one; the fallback statements read one log.
- The failure of a spending query inside `validate-key` (the map keeps what it had) and the comparison of API keys by hash: a request arrives with its key already matched.
- Database errors in the sync outside the provider loop, for single upserts and for the whole run: the catalogue statements are about error-free runs.
- `Catalog.SyncService.RunSync`: does not create providers itself; the provider map is an input, and its creation under concurrency is `Providers`.
- Other writers of `model_specs` during a sync, and different exchange rates in the two runs of the idempotence statement.
- The counters of the manual sync route (`admin-api/src/routes/models.ts:371-378`), the series table, provider display names, series and capability derivation of discovered models.
- Upstream prices that do not parse as numbers (NaN in the sort by price), and overlapping calls of `discoverModels`: calls of a run are sequential.
- The rewrite of the legacy pointer by key updates, and provider or credential deletion with its cascades.
- Arrays of parts with `null` or non-object elements, messages or prompts that are neither text nor list, and setting the absent response of a stream.
- JavaScript's reordering of integer-like property names and the `__proto__` name, in the key conversion; objects are ordered lists of properties.
- The fingerprint cache and the language-model calls behind it, guardrail plugins, gateway handlers, the console, analytics, plans and reports: plumbing, or easy members.
