# Rocket R60V bridge: a verified model

The R60V espresso machine has one fragile control socket. A bridge owns that socket, keeps a cache of
the machine's 115-byte settings block, takes commands from the house, writes them with retries, and
backs off when the machine stops answering. This project models the bridge as Dafny classes and
transition systems and proves what its design promises.

| module | models |
|---|---|
| `Protocol`, `ProtocolLaws` | the hex wire codec and what it promises |
| `Machine`, `Framing` | the reference machine's memory; how request streams are cut into frames |
| `Client`, `Persistence`, `Frontend` | the retrying half-duplex client and how hard it tries; the LAN front-end as a transparent proxy |
| `Governor`, `Linearization` | the one-worker priority queue; its runs as a linear history |
| `Store`, `StoreLaws` | the state store with its optimistic overlay, the availability publisher |
| `Wedge`, `PollLoop`, `Recovery`, `Timeline`, `Traffic` | wedge back-off, the poll loop that drives it, its runs, what it does when, and its runs among commands |
| `Coordinator`, `Tolerance`, `Lockstep` | the Home Assistant side's second back-off, what it tolerates, and how it keeps in step with the first |
| `Bridge`, `Coherence`, `Attempts`, `Precedence`, `Refinement`, `Overlay`, `Steady`, `Stranding`, `Progress`, `Flicker`, `Convergence` | the whole write and reconcile protocol as a transition system, and its theorems |
| `Broker` | the orchestrator class; each method is one move of that system |
| `Profile` | the pressure-profile text codec |

Every stateful class is proved against a function of its old state (`Submitted`, `Reflected`, `Turned`,
`Next`, ...); the theorems are about those functions and about runs of any length. One move of `Bridge`
is the code between two awaits. The link, the clock, the callers' timing, and read and write outcomes
are unconstrained inputs. Callers of resolved jobs resume in completion order, as asyncio resumes waiters.

## Where the code and its promises part

The model follows the code. Four promises do not hold as documented; each is proved to hold under an
exact condition, with a concrete failing run from power-on or from the loop's start.

- *"The latest user intent is never reverted to an older one"* (bridge/r60v_broker/store.py:184-193).
  The overlay is cleared by value, so with commands A, B, A for one address still unfinished, the first A
  clears the newest overlay and the house is shown B. `Flicker.NoFlickerBackExactly`: the newest byte is
  shown in every quiet run, even of successful writes only, exactly when the unfinished bytes at that
  address, followed by the newest, never leave it once they reach it.
  `Flicker.SettingBackTheOldValueFlickers` runs from power-on through 110, 112, 110.
- *Optimism is always reconciled* (bridge/r60v_broker/broker.py:389-399). The consumer of write-intents
  survives an unexpected error, but skips the clearing of that intent's overlay. `Overlay.OrphansExactly`:
  an overlay byte loses its intent exactly when that happens to an intent with a byte of its own in the
  overlay that no queued intent carries. `Overlay.KilledIntentStrandsItsByte` is such a run from power-on;
  `Stranding.StrandedExactly` says that only a later command at that address ends it, and
  `Convergence.SnapshotIsMemoryExactly` that such bytes are all that can keep a finished bridge from converging.
  The error is real: a cooldown's `close_link` takes away the socket an exchange is about to use
  (bridge/r60v_broker/client.py:221-227). `Client.ExchangeDiesExactly` says when an exchange meets it, and
  `Governor.CloseUnderJobCrashes` that a job then ends in it with the machine untouched.
- *"A cooldown always implies unavailable"* (bridge/r60v_broker/store.py:130-146). True of the poll loop
  alone (`Recovery.CooldownMeansOffline`). `Traffic.CooldownIsOfflineExactly`: among commands, while a
  deadline is set, the store is offline exactly when no command has succeeded since the last rung was
  climbed, or the grace of command failures has run out since. `Traffic.CommandSuccessShowsOnlineInCooldown`
  wedges a fresh bridge in two polls and has one command answered ten seconds into the cooldown.
- *"A command must not reconnect during the machine's required rest"* (bridge/r60v_broker/broker.py:404-416).
  The cooldown is consulted once, before the first attempt. `Traffic.CommandsDisturbRestExactly`: anything
  the consumer does on the link later, the first attempt included, falls into a rest exactly when a turn that
  ends after the check, already under way or not, begins or extends a rest lasting beyond that time.
  `Traffic.CheckedCommandFallsIntoRest`: the check passes while a poll is dying and the attempt meets its cooldown.

`Profile.ReencodeDecoded` likewise states an if-and-only-if: a block read from the machine is reproduced
exactly when its times and pressures are in range, and refused otherwise.

## Model

| member | source | states |
|---|---|---|
| Flicker.NoFlickerBackExactly | bridge/r60v_broker/store.py:184-196 | at acceptance of a command, when every unfinished intent fits the machine's region and no failed last attempt or unexpected error waits to be delivered: its byte is shown after every quiet run (no other writer, no newer different command, no give-up of that byte) if and only if the queue is free of the A, B, A pattern at that address; the same condition is exact for runs in which every intent is acknowledged |
| Flicker.DoomedRunFlickers | bridge/r60v_broker/broker.py:401-454 | the converse, constructively: from any doomed state, a run in which every intent is acknowledged and nobody else writes that address ends with another byte on show |
| Flicker.SettingBackTheOldValueFlickers | bridge/r60v_broker/store.py:194-196 | from power-on with any memory: one poll, then 110, 112, 110 at the brew setpoint, and a continuation of acknowledged writes after which the house is shown something else |
| Steady.NoFlickerBack | bridge/r60v_broker/broker.py:361-454 | from acceptance on, in every quiet interleaving of polls, retries, older commands and front-end requests, the newest byte is what the snapshot shows, provided the older unfinished bytes settle on it |
| Steady.SteadyNeverFlickers | bridge/r60v_broker/store.py:107-113 | the invariant behind it holds over quiet runs of any length |
| Steady.MoveKeepsSteady | bridge/r60v_broker/broker.py:361-454 | every single move keeps it |
| Steady.ClearedByteIsInMemory | bridge/r60v_broker/broker.py:438-449 | when an acknowledged intent's overlay is cleared, machine memory holds its byte and no read on its way to the store shows another |
| Steady.AcceptanceShows | bridge/r60v_broker/broker.py:378-387 | an accepted command is on show at once and joins the bytes to be written last |
| Steady.DeliveredSettings | bridge/r60v_broker/store.py:107-113 | a delivery changes the snapshot only by a settings read, and then the overlay wins over the byte read |
| Overlay.OrphansExactly | bridge/r60v_broker/broker.py:389-454 | each overlay byte belongs to an unfinished intent carrying it; a move breaks this if and only if an unexpected error kills an intent with a byte of its own in the overlay that no queued intent carries |
| Overlay.NoOrphanedOptimism | bridge/r60v_broker/broker.py:438-442 | in every run in which no such stranding happens, harmless killed intents included, the overlay stays matched, so a drained bridge has an empty overlay |
| Overlay.AdmissionExactly | bridge/r60v_broker/broker.py:372-385 | every command: queued last as it came if it is non-empty, every byte lies in 0 to 255 and fewer than 32 are queued; otherwise nothing at all changes |
| Overlay.AdmittedAreTakenInOrder | bridge/r60v_broker/broker.py:361-393 | at every point of every run at most 32 intents are queued, and those taken followed by those queued are the commands that had to be taken, in order: none lost, repeated or overtaken |
| Overlay.RefusedLeaveNoTrace | bridge/r60v_broker/broker.py:370-384 | every run ends as if its malformed and surplus commands had never arrived: queue, store and memory alike |
| Overlay.KilledIntentStrandsItsByte | bridge/r60v_broker/broker.py:394-399 | from power-on with any memory: after one poll and one command killed in its write, nothing is left to do, the machine is unchanged and the byte is still on show |
| Attempts.ThreeAttemptsExactly | bridge/r60v_broker/broker.py:418-446 | in every run, a failed write attempt is tried again, with store and queue untouched, unless it was the third since its intent was taken; the third, or an acknowledgement, clears the intent's bytes and submits a read of all 115 settings bytes; an unexpected error does neither |
| Attempts.WaitingMeansFewerThanThree | bridge/r60v_broker/broker.py:420-430 | an intent between attempts has begun fewer than three, all of them failed, and can begin the next |
| Precedence.DispatchTakesWritesFirst | bridge/r60v_broker/governor.py:70-91 | in every run of the bridge no read is taken while a write waits, and among writes, as among reads, the earliest submitted is taken |
| Precedence.IntentsGoAheadOfPolls | bridge/r60v_broker/governor.py:75-91 | from the moment an attempt begins until its write is taken, the worker takes nothing but writes submitted before it |
| Precedence.OnlyEarlierWritesPass | bridge/r60v_broker/governor.py:75-91 | the same for every write queued, whoever submitted it |
| Precedence.LanFramesRankAlike | bridge/r60v_broker/tcp_frontend.py:171-175 | what the front-end submits for a frame is the bridge's own move for that job, so LAN frames obey these laws too |
| Refinement.BridgeStoreIsItsHistory | bridge/r60v_broker/broker.py:258-454 | in every run the store is the one made by the history of what each delivered reply, command and verdict means, and the machine is shown offline exactly when, since the last counted success, a wedge was declared or four failures were counted |
| Refinement.BridgeLinkIsLinear | bridge/r60v_broker/governor.py:70-106 | in every run the link is a run of the governor fed with the bridge's own submissions, so each job is carried out once and answered as in a serial run |
| Stranding.StrandedExactly | bridge/r60v_broker/store.py:184-202 | a stranded byte survives every move except, exactly, an admitted command at its address that replaces it in the overlay or carries the same byte |
| Stranding.StrandedByteStays | bridge/r60v_broker/store.py:107-113 | over runs of any length without such a command it stays on show, whatever the machine holds |
| Stranding.KilledByteStays | bridge/r60v_broker/broker.py:394-399 | so the killed command's byte from power-on outlives every later poll |
| Progress.OwnMovesEndAtRest | bridge/r60v_broker/broker.py:389-454 | left to itself, whatever fails, the bridge takes no more moves than its rank and, unless an MQTT error is about to end the process, stops exactly when every intent is ended and every job delivered, with no optimism left unless a byte was stranded |
| Progress.MoveLowersRank | bridge/r60v_broker/broker.py:414-454 | every move of the bridge's own, retries included, lowers the rank |
| Convergence.SnapshotIsMemoryExactly | bridge/r60v_broker/broker.py:389-454 | from power-on, after every mix of successes, give-ups, killed intents, stranded bytes and other writers, with nothing left to write: from the delivery of the last intent's reconcile read or any later read on, the snapshot is memory under the overlay, and it is memory itself if and only if no overlay byte in the block differs from it |
| Convergence.SnapshotConverges | bridge/r60v_broker/broker.py:443-449 | the same from any coherent state with nothing left to write: whatever else is delivered or fails around the read, the snapshot is memory under the overlay |
| Convergence.FailuresStillConverge | bridge/r60v_broker/broker.py:389-454 | so from power-on a run that strands no byte always ends with the snapshot equal to memory |
| Convergence.MemoryIsExplained | bridge/r60v_broker/broker.py:412-436 | without other writers, memory is at every moment the initial one with the intents that reached the machine applied in acceptance order, retried or not |
| Convergence.FinishedMemoryIsTheIntents | bridge/r60v_broker/broker.py:389-454 | from power-on with nothing left to write, memory is the effective intents in order, and all accepted ones if none was given up |
| Convergence.HouseSeesTheIntents | bridge/r60v_broker/broker.py:389-454 | with nothing left to write after only successes, from the delivery of the last reconcile read or any later read on, the house is shown the initial settings with every accepted intent applied in order |
| Coherence.RunsStayCoherent | bridge/r60v_broker/broker.py:389-454 | in every run: bounded queue, bounded retries, one consumer job at a time, well-typed replies, and resolved consumer writes explain memory and all later reads |
| Coherence.MoveKeepsCoherent | bridge/r60v_broker/broker.py:401-454 | each move keeps that invariant |
| Coherence.PoweredIsCoherent | bridge/r60v_broker/store.py:41-67 | it holds at power-on |
| Broker.Broker.OnWsCommand | bridge/r60v_broker/broker.py:361-385 | the method is the Command move: enqueue first, reflect only if admitted |
| Broker.Broker.GetIntent | bridge/r60v_broker/broker.py:389-393 | the TakeIntent move |
| Broker.Broker.SubmitWrite | bridge/r60v_broker/broker.py:412-416 | the BeginWrite move |
| Broker.Broker.AfterWrite | bridge/r60v_broker/broker.py:417-446 | retry, die, or clear the intent's overlay, note a failed write and submit the reconcile read |
| Broker.Broker.NoteRead | bridge/r60v_broker/broker.py:445-452 | a read that feeds the store counts as a success, a failed one as a failure |
| Broker.Broker.AfterPoll | bridge/r60v_broker/broker.py:262-268 | a poll's reply updates settings or one live register |
| Broker.Broker.AfterMqtt | bridge/r60v_broker/broker.py:345-357 | an MQTT write is followed by a settings read that feeds the store, a link failure is noted, an unexpected error is not |
| Broker.Broker.RunCaller | bridge/r60v_broker/broker.py:331-454 | the Deliver move, whoever the caller is |
| Broker.Broker.RunWorker | bridge/r60v_broker/governor.py:90-93 | the Dispatch move |
| Broker.Broker.FinishJob | bridge/r60v_broker/governor.py:94-106 | carrying a job out through the retrying client is a Complete move with one of the outcomes the system allows |
| Broker.ShippedParts | bridge/r60v_broker/broker.py:77-83 | the store and the recovery a broker starts with, constant by constant |
| Store.DeviceState.UpdateSettings | bridge/r60v_broker/store.py:107-113 | the snapshot becomes the read with the overlay on top; subscribers hear the present verdict |
| Store.DeviceState.UpdateLive | bridge/r60v_broker/store.py:115-119 | one live register and the reading's time change, nothing else |
| Store.DeviceState.NoteSuccess | bridge/r60v_broker/store.py:121-123 | the streak ends, the store is online, subscribers hear it only on a change |
| Store.DeviceState.NoteFailure | bridge/r60v_broker/store.py:125-128 | the streak grows and takes the store offline at the grace |
| Store.DeviceState.NoteWedged | bridge/r60v_broker/store.py:130-148 | offline at once, streak at least the grace |
| Store.DeviceState.ApplyOptimistic | bridge/r60v_broker/store.py:159-182 | applied exactly for reflectable commands; the loops build the same overlay and snapshot as the specification |
| Store.DeviceState.ApplyPending | bridge/r60v_broker/store.py:198-202 | the in-place loop overlays exactly the pending bytes that lie inside the block |
| Store.DeviceState.RecordPending | bridge/r60v_broker/store.py:178-179 | the loop adds the command's bytes over older ones and no others |
| Store.DeviceState.ReconcileClear | bridge/r60v_broker/store.py:184-196 | exactly the overlay bytes equal to the expected ones go |
| Store.DeviceState.InterpolateLiveTemps | bridge/r60v_broker/store.py:206-222 | only when stale, with data and the machine on, the two boiler readings are eased |
| Store.DeviceState.Ease | bridge/r60v_broker/store.py:224-234 | one bounded nudge of one reading |
| Store.StatePublisher.OnStoreChange | bridge/r60v_broker/publisher.py:47-51 | emits exactly when the verdict differs from the last one sent |
| StoreLaws.OfflineExactly | bridge/r60v_broker/store.py:96-155 | for every history and grace: offline if and only if, since the last success, there was a wedge or at least one failure and at least the grace of them |
| StoreLaws.AnnouncementsFollowVerdict | bridge/r60v_broker/publisher.py:47-51 | over every history the values emitted strictly alternate and the last one is the store's verdict |
| StoreLaws.HeardFollowsVerdict | bridge/r60v_broker/store.py:150-155 | every store operation either tells subscribers the new verdict or has not changed it |
| StoreLaws.EmissionsExactly | bridge/r60v_broker/publisher.py:47-51 | the publisher sends the verdict exactly when a read, a reflected command or a change of verdict tells it and it did not send that verdict last |
| StoreLaws.ReadingsAreTheLatest | bridge/r60v_broker/store.py:107-119 | after any history each live register holds its own latest reading, the readings' age is the latest one's, and there is data exactly once something was read |
| StoreLaws.ReflectionExactly | bridge/r60v_broker/store.py:159-182 | a command is reflected exactly when data was read and it is whole bytes inside the block, and then changes overlay and snapshot at its own addresses only |
| StoreLaws.InterpolationExactly | bridge/r60v_broker/store.py:206-234 | which readings one call eases toward which settings byte, and that fresh readings, standby and an empty store are left alone |
| StoreLaws.EasingConverges | bridge/r60v_broker/store.py:224-234 | after k calls the gap has shrunk by exactly k steps, never overshooting or leaving the interval |
| StoreLaws.EasingReachesExactly | bridge/r60v_broker/store.py:224-234 | the setpoint holds after k calls if and only if k is at least the gap over the step, rounded up |
| StoreLaws.StaleReadingsEase | bridge/r60v_broker/store.py:206-222 | over any stale calls each boiler's reading follows that law toward its own setpoint, the service boiler's only while enabled, and nothing but readings changes |
| Wedge.WedgeRecovery.constructor | bridge/r60v_broker/wedge.py:62-77 | starts polling; at least one probe is required to resume |
| Wedge.WedgeRecovery.RecordSuccess | bridge/r60v_broker/wedge.py:81-86 | all wedge state is cleared |
| Wedge.WedgeRecovery.RecordFailure | bridge/r60v_broker/wedge.py:88-91 | only the first failure of a streak starts its clock |
| Wedge.WedgeRecovery.RecordProbeSuccess | bridge/r60v_broker/wedge.py:93-111 | resumes exactly at the required number of good probes, otherwise stays due |
| Wedge.WedgeRecovery.BeginCooldown | bridge/r60v_broker/wedge.py:113-121 | climbs one rung, the last rung repeating, and discards probe progress |
| PollLoop.Loop.Turn | bridge/r60v_broker/broker.py:191-256 | one turn: idle, rest, probe or poll, with its effect on wedge state, store and cadence |
| PollLoop.Loop.PollOnce | bridge/r60v_broker/broker.py:258-297 | a poll cycle and its two ways of tripping the store offline |
| PollLoop.Loop.ProbeLink | bridge/r60v_broker/broker.py:211-240 | a probe feeds the store, counts, resumes or extends the back-off |
| PollLoop.Loop.SweepLive | bridge/r60v_broker/broker.py:265-268 | live reads in order up to the first miss |
| Recovery.CooldownMeansOffline | bridge/r60v_broker/broker.py:206-240 | in every run of the poll loop from its start a set deadline means offline, and the ladder index is 0 exactly when no deadline is set |
| Traffic.CooldownIsOfflineExactly | bridge/r60v_broker/store.py:130-148 | in every run of turns and command verdicts, wherever a deadline is set: offline if and only if no command succeeded since the last rung, or the grace of command failures ran out since the last success |
| Traffic.CommandSuccessShowsOnlineInCooldown | bridge/r60v_broker/broker.py:443-449 | with the shipped constants, two failed polls and one answered command leave a fresh bridge online 290 seconds before its deadline |
| Traffic.CommandsDisturbRestExactly | bridge/r60v_broker/broker.py:401-416 | an access by the consumer at any time after its one cooldown check, made between turns or during one, falls into a rest if and only if a turn ending after the check climbs a rung that reaches beyond that time |
| Traffic.CheckedCommandFallsIntoRest | bridge/r60v_broker/broker.py:284-297 | with the shipped constants: a check passed at 42 while a poll under way since 40 fails at 45, and the attempt at 46 falls into the cooldown |
| Recovery.NextPollExactly | bridge/r60v_broker/broker.py:211-242 | after a cooldown was entered, the next wanted turn is a full poll if and only if the last `resumeAfter` probes in a row were good |
| Recovery.RecoveryTracksStreak | bridge/r60v_broker/wedge.py:93-121 | from a cooldown's entry to the next full poll the probe counter is the length of the present run of good probes, and recovery ends when that run is long enough |
| Recovery.WindowIsQuiet | bridge/r60v_broker/broker.py:206-210 | until the deadline the loop never touches the device and recovery state does not move |
| Recovery.FailuresClimbTheLadder | bridge/r60v_broker/wedge.py:113-121 | for every ladder: a failed probe comes no earlier than the sum of the rungs climbed, and each failure costs at most `resumeAfter` probes |
| Recovery.BackoffBound | bridge/r60v_broker/wedge.py:40-45 | default ladder: the n-th failed probe is at least 1800 n - 3300 seconds into the wedge |
| Recovery.DefaultLadder | bridge/r60v_broker/wedge.py:40 | that bound is the ladder's sum, with equality from the third rung on |
| Timeline.WedgeDeclaredExactly | bridge/r60v_broker/broker.py:258-297 | in every run from the start: a poll is good exactly when all its reads were, and begins a cooldown, the first rung, if and only if it failed and was judged `wedgeAfter` or more after the first failed poll since the last good poll or probe |
| Timeline.WedgedAfter45Seconds | bridge/r60v_broker/wedge.py:36-40 | with the shipped constants: after 45 seconds, for 300 seconds |
| Timeline.NextTurnExactly | bridge/r60v_broker/broker.py:206-242 | during a recovery: rest until the next probe is due, computed from the failed probes so far, probe from then on, poll once enough good probes came in a row |
| Timeline.ShippedRecovery | bridge/r60v_broker/wedge.py:40-45 | with the shipped constants: two good probes, and rests of 300, 600, 1200 and 1800 seconds |
| Timeline.CadenceExactly | bridge/r60v_broker/broker.py:193-206 | a poll reads the settings exactly when it follows an idle turn or none, or the active turns before it are a multiple of the cadence |
| Timeline.LoopStoreIsItsHistory | bridge/r60v_broker/broker.py:206-313 | in every run the store is the one made by the loop's readings up to each first miss and its verdicts, a probe counting as a success only when it ends the recovery |
| Coordinator.R60VCoordinator.UpdateData | custom_components/rocket_r60v/coordinator.py:303-410 | the whole update in polling and push mode, with its report |
| Coordinator.R60VCoordinator.ReadSnapshot | custom_components/rocket_r60v/coordinator.py:392-410 | a full read clears everything; failures are tolerated, then enter a cooldown |
| Coordinator.R60VCoordinator.EnterCooldown | custom_components/rocket_r60v/coordinator.py:211-217 | climbs one rung from the present time |
| Coordinator.R60VCoordinator.ClearCooldown | custom_components/rocket_r60v/coordinator.py:231-236 | clears all recovery state |
| Tolerance.FiveMissesAreTolerated | custom_components/rocket_r60v/coordinator.py:392-410 | from the past reports alone: once loaded, five failed reads in a row show the last values and the sixth begins a rest of five minutes; before that every failure is reported and none does |
| Tolerance.SecondGoodProbeReads | custom_components/rocket_r60v/coordinator.py:350-390 | during a rest nothing; after it a failed probe extends it, the first good one is noted, the second in a row is followed by a full read with a clean slate |
| Tolerance.BlockedChangesNothing | custom_components/rocket_r60v/coordinator.py:340-348 | a blocking bridge suspends reading and counting |
| Lockstep.BackoffsRunInLockstep | custom_components/rocket_r60v/coordinator.py:352-390 | for every monotone clock, ladder and probe sequence the two back-offs agree turn by turn until both resume on the same one |
| Lockstep.TurnInStep | bridge/r60v_broker/broker.py:206-240 | one turn keeps them in step although only one of them moves its deadline on a partial success |
| Lockstep.InStepMeansSameCooldown | custom_components/rocket_r60v/coordinator.py:155-158 | in step means the same answer to "in cooldown?" at every later time |
| Lockstep.WedgeEntersInStep | custom_components/rocket_r60v/coordinator.py:48-58 | a wedge entered at one moment starts them in step, with equal constants |
| Governor.DeviceGovernor.Submit | bridge/r60v_broker/governor.py:80-85 | the job is queued by (priority, ticket) with the next ticket |
| Governor.DeviceGovernor.Take | bridge/r60v_broker/governor.py:89-91 | the head of the queue becomes the job in hand |
| Governor.DeviceGovernor.Finish | bridge/r60v_broker/governor.py:94-106 | the job is carried out by the client and its future resolved with the outcome |
| Governor.ClientCarriesJobs | bridge/r60v_broker/governor.py:94-106 | for every link behaviour the retrying client realizes one of the abstract outcomes of a job, on reply and memory |
| Governor.CloseUnderJobCrashes | bridge/r60v_broker/governor.py:60-66 | `close_link` in the pause before a job's first write makes the job end in an unexpected error with the machine untouched |
| Linearization.RunsAreLinear | bridge/r60v_broker/governor.py:80-106 | in every run from the start no job is lost, invented or repeated, and replies and memory are those of running the started jobs one at a time |
| Linearization.StartedOnce | bridge/r60v_broker/governor.py:80-91 | no ticket is started twice |
| Linearization.DispatchTakesLeast | bridge/r60v_broker/governor.py:91 | every dispatch takes the least (priority, ticket) queued |
| Linearization.NothingOvertakesACommand | bridge/r60v_broker/governor.py:70-91 | over whole runs, with no priority above a command's, only earlier-submitted commands start before a queued command |
| Client.R60VClient.Send | bridge/r60v_broker/client.py:170-200 | one request: at most two connections, each with bounded same-socket retries |
| Client.R60VClient.TryExchange | bridge/r60v_broker/client.py:210-247 | silence is retried in place, a fault is not, and a socket closed under it is an unexpected error |
| Client.R60VClient.EnsureConnected | bridge/r60v_broker/client.py:99-138 | a fresh connection sends one warm-up read; only an unexpected error of it escapes |
| Client.RetriesActAsOneDelivery | bridge/r60v_broker/client.py:170-247 | over any such link, a returned request was carried out exactly once, a raised one at most once in effect, and its frame went out at most attempts times tries |
| Client.ExchangeActsOnce | bridge/r60v_broker/client.py:210-247 | the same for the exchange on one socket |
| Client.ExchangeSucceedsExactly | bridge/r60v_broker/client.py:220-246 | an exchange succeeds if and only if the machine answers such a request and the link delivers one within the tries, after only silence |
| Client.RequestSucceedsExactly | bridge/r60v_broker/client.py:170-200 | a request succeeds over all its connections, warm-ups and tries if and only if the machine answers such requests and the link's fates let it through: one connection delivers in time before any socket is closed under it |
| Persistence.SilentRequest | bridge/r60v_broker/client.py:181-200 | over a silent link a request is sent exactly twice as often as one connection tries, with one warm-up round in between |
| Persistence.SecondConnectionAnswers | bridge/r60v_broker/client.py:181-197 | a fault costs a request its connection, not its answer |
| Persistence.ShippedClient | bridge/r60v_broker/client.py:56-68 | a client made without further settings retries three times |
| Persistence.AskSilentLink | bridge/r60v_broker/client.py:67-85 | the client as shipped sends a request eight times to a machine that never answers |
| Persistence.AskThroughThreeLosses | bridge/r60v_broker/client.py:220-246 | and is answered at the fourth transmission on the same socket when three were lost |
| Persistence.WarmUpIsTheSettingsPoll | bridge/r60v_broker/client.py:131-133 | the warm-up is the genuine settings poll, character for character |
| Client.ExchangeDiesExactly | bridge/r60v_broker/client.py:220-227 | it dies of an unexpected error if and only if, within the tries and after only silence, the socket is closed under it |
| Client.RequestDiesExactly | bridge/r60v_broker/client.py:170-200 | the same for a request: if and only if a socket is closed under one of its warm-ups or exchanges before an answer ended it |
| Client.CloseUnderExchangeRaises | bridge/r60v_broker/client.py:181-200 | no second connection is tried after such an error; it reaches the request's caller at once |
| Client.ConnectLeavesMemory | bridge/r60v_broker/client.py:124-138 | warming up never changes the machine |
| Frontend.R60VFrontend.Accept | bridge/r60v_broker/tcp_frontend.py:165-175 | whatever else the governor holds, a LAN frame is refused with nothing changed or submitted as its job |
| Frontend.R60VFrontend.Dispatch | bridge/r60v_broker/tcp_frontend.py:157-185 | one LAN frame through governor and client is the specified dispatch |
| Frontend.ReliableAskedIsTheMachine | bridge/r60v_broker/client.py:170-258 | over a link on which one of a request's two connections always delivers in time, a request through the client has the machine's effect and is answered exactly when the machine answers it |
| Frontend.DispatchIsTransparent | bridge/r60v_broker/tcp_frontend.py:157-185 | over any link, a reply equals the machine's own character for character with the same memory, and no reply leaves memory as before or as the machine would |
| Frontend.ReliableDispatchIsTheMachine | bridge/r60v_broker/tcp_frontend.py:157-185 | over a link on which one of a request's two connections always delivers in time, the proxy's answer and effect are the machine's for every text, refusals included |
| Frontend.ProxyIsTransparent | bridge/r60v_broker/tcp_frontend.py:128-155 | over a link on which one of a request's two connections always delivers in time, faults and silence on the other included: whole sessions on any character stream, well-formed or not, with any requests of other callers and link closings between frames, have the machine's reply characters and memory |
| Frontend.ProxyIsTruthful | bridge/r60v_broker/tcp_frontend.py:128-155 | over any link, beside any reads of others: what the client hears is the beginning of the machine's own session, and memory is the machine's after some beginning of the stream |
| Frontend.SidesDisagreeOnlyOnRefusals | bridge/r60v_broker/emulator.py:218-236 | where front-end and machine cut a stream differently, both refuse the text |
| Machine.MachineModel.Read | bridge/r60v_broker/emulator.py:78-83 | the bytes in the region, zero-padded |
| Machine.MachineModel.Write | bridge/r60v_broker/emulator.py:105-111 | byte by byte, ignored above the region, broken off at its end |
| Machine.MachineModel.Process | bridge/r60v_broker/emulator.py:238-254 | reply and memory after one request text |
| Machine.WriteThenRead | bridge/r60v_broker/emulator.py:78-111 | a write shows up in later reads where it wrote, and nowhere else |
| Machine.AnswerTwice | bridge/r60v_broker/emulator.py:238-254 | repeating any request changes nothing and is answered alike |
| Framing.MachineReadsExactly | bridge/r60v_broker/emulator.py:78-83 | every read is answered with the region's bytes, zeros beyond its 256, and changes nothing |
| Framing.MachineWritesExactly | bridge/r60v_broker/emulator.py:105-111 | every write stores its bytes in the region only and is acknowledged unless it starts inside and runs past the end |
| Framing.StreamReader.ReadRequest | bridge/r60v_broker/tcp_frontend.py:41-65 | takes exactly the first frame off the stream, or nothing when the peer closes |
| Framing.StreamsSplitUniquely | bridge/r60v_broker/tcp_frontend.py:41-65 | any concatenation of built requests is cut back into exactly those requests, at both ends |
| Framing.StreamsAreUnambiguous | bridge/r60v_broker/emulator.py:218-236 | two request lists with the same text are the same list |
| Framing.ReplyLengthIsExpected | bridge/r60v_broker/client.py:39-50 | the length the client waits for is the length of the reply the machine builds |
| ProtocolLaws.FrameRoundTrip | bridge/r60v_broker/protocol.py:85-166 | reads, writes and read replies parse back to what was built and are never an ack |
| ProtocolLaws.AckRoundTrip | bridge/r60v_broker/protocol.py:107-166 | an ack parses back to its envelope and is recognised |
| ProtocolLaws.PayloadIsNoAck | bridge/r60v_broker/protocol.py:155-159 | no encoded data is ever the ack text |
| ProtocolLaws.DataRoundTrip | bridge/r60v_broker/protocol.py:54-75 | decoding an encoding gives the bytes, each masked to eight bits |
| ProtocolLaws.ChecksumIsTheSum | bridge/r60v_broker/protocol.py:44-51 | the checksum of a joined text is the sum of both modulo 256, of one ASCII character its code, of nothing zero |
| ProtocolLaws.ParsesExactly | bridge/r60v_broker/protocol.py:135-166 | every text: it parses if and only if it has a frame's shape and its last two characters, in either case, print the sum of the rest |
| ProtocolLaws.GenuineFrames | bridge/r60v_broker/protocol.py:97-110 | the settings poll, a write and an ack, character for character |
| ProtocolLaws.HexDigitsAreHex | bridge/r60v_broker/protocol.py:82 | uppercase digits, most significant first |
| ProtocolLaws.SingleErrorDetected | bridge/r60v_broker/protocol.py:44-51 | one replaced character before the checksum makes a frame of any length fail to parse |
| ProtocolLaws.BuiltFrameDetectsErrors | bridge/r60v_broker/protocol.py:85-166 | the same for every built request and read reply |
| ProtocolLaws.AckDetectsErrors | bridge/r60v_broker/protocol.py:107-166 | the same for every ack |
| ProtocolLaws.ChecksumErrorDetected | bridge/r60v_broker/protocol.py:161-164 | a changed checksum character is accepted if and only if it differs in letter case alone |
| Profile.DecodeProfile | custom_components/rocket_r60v/entities.py:234-241 | the loop prints the block's five steps, joined by single spaces |
| Profile.EncodeProfile | custom_components/rocket_r60v/entities.py:244-278 | a text is refused with the first fault found, or laid out as the 15 bytes that hold its steps, times low byte first and then pressures, zero-filled |
| Profile.ReencodeDecoded | custom_components/rocket_r60v/entities.py:229-278 | encode(decode(block)) is the block if and only if every little-endian time is at most 600 and every pressure at most 100; otherwise it is refused |
| Profile.DecodeEncoded | custom_components/rocket_r60v/entities.py:229-278 | every accepted text comes back as the same steps padded to five |
| Profile.PrintedStepsReadBack | custom_components/rocket_r60v/entities.py:229-272 | printed steps read back as themselves exactly when in range |
| Profile.TenthsParse | custom_components/rocket_r60v/entities.py:229-231 | a printed number reads back as itself |
| Profile.WordsOfJoined | custom_components/rocket_r60v/entities.py:241-251 | splitting joined words gives the words |
| Profile.KnownBlock | custom_components/rocket_r60v/entities.py:234-241 | a block with low bytes first and its text |
| Profile.WordAcceptedExactly | custom_components/rocket_r60v/entities.py:258-270 | a word is accepted, as a step, exactly when it is two numbers around one colon of at most 60 seconds and 10 bar |
| Profile.WordRefusedExactly | custom_components/rocket_r60v/entities.py:259-270 | and refused for the first fault found: not a pair, not numbers, the time, the pressure |
| Profile.SplittingExactly | custom_components/rocket_r60v/entities.py:250-251 | white space separates words, however much of it |
| Profile.WhiteSpaceExactly | custom_components/rocket_r60v/entities.py:250-251 | which characters those are |
| Profile.TextAcceptedExactly | custom_components/rocket_r60v/entities.py:250-270 | a text is accepted exactly when it has at most five words and each is accepted |
| Profile.TenthsByPosition | custom_components/rocket_r60v/entities.py:263-264 | numbers by position around the point, either side optional |

## Left out

- Sockets, asyncio scheduling below the await, WebSocket, MQTT and HTTP plumbing: they appear as moves, fates and inputs.
- Late replies and stream desync: the bridge client matches only checksum and length of a reply, so the link is assumed never to deliver one after its timeout.
- Client.RequestSucceedsExactly: warm-ups lost to a socket error are not among the transmissions counted; the code reconnects and warms up again, as often as it takes.
- Client.R60VClient.EnsureConnected: connects at once; the endless reconnect with growing pauses, the greeting and the pacing between requests are not modelled.
- Client.R60VClient.TryExchange: the only unexpected error is the one of a link closed under an exchange.
- Governor.DeviceGovernor.Submit: the heap is a queue kept in dispatch order; the minimum interval between jobs is not modelled.
- Linearization.RunsAreLinear: cancellation of the worker or of a caller is not modelled.
- Frontend.R60VFrontend.Dispatch: is stated for a governor with nothing else to do; its halves Accept and Present are stated for every governor, and what runs between them is the subject of Linearization.
- Frontend.ProxyIsTransparent: other callers act between the client's frames, not between the transmissions of one request.
- Broker.Broker.SubmitWrite: needs an address and a data length that fit the 16-bit fields of a frame; the code accepts wider ones and sends a frame with wider fields.
- Broker.Broker.OnWsCommand: takes a non-negative address and integer data; frames of other JSON shapes, and the time before the queue exists, are not modelled.
- Broker.Broker.AfterMqtt: an unexpected error in the MQTT command loop ends the process, so no move delivers one; encoding of the MQTT payload is left out.
- Coherence.RunsStayCoherent: polls may be submitted in any number and order and the poll loop's verdicts are free moves, which allows more runs than the code has; the loop's own order is in PollLoop.
- PollLoop.Loop.Turn: a turn is one step with one outcome per device read; commands act between turns (Traffic), closing the link and broadcasting are left out.
- Lockstep.BackoffsRunInLockstep: covers wedge entry to resume, without the operator's override or a blocking bridge, while someone wants data.
- Coordinator.R60VCoordinator.UpdateData: the bridge-health signal is an input, and the snapshot itself is reduced to whether one was ever read.
- Store.DeviceState.InterpolateLiveTemps: the step is an integer, so the code's rounding never acts.
- Store.DeviceState.UpdateSettings: values, not shared lists; a caller that keeps and changes the list it passed is not modelled. Subscribers other than the publisher are left out.
- Machine.MachineModel.Read: live registers, the display and the clock answer zeros; temperature drift and the default memory contents are left out.
- Framing.StreamReader.ReadRequest: hex fields are digits of either case; signs, spaces and underscores that Python's int accepts in a malformed frame are refused here.
- ProtocolLaws.FrameRoundTrip: parsing with the checksum check switched off is left out.
- ProtocolLaws.SingleErrorDetected: the replacing character is ASCII or the replacement mark that decoding puts for a non-ASCII byte.
- Profile.EncodeProfile: numbers are digits with at most one decimal; signs, exponents, more decimals, underscores, non-ASCII digits and the rounding of binary floats are left out.
- Home Assistant entities, config flow, discovery, bridge-health polling, scripts, logging and configuration: they would add only easy members.
