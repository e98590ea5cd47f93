# Verification of the mixnet proxy

A Dafny model of the proxy's own logic, and proofs about it. The proxy carries a wallet's connections
over a mixnet: a dialling half beside the wallet opens streams and keeps one that answers, a listening
half beside the node accepts them, and a splice with a watchdog copies bytes at each end. The mixnet,
the sockets and the clock are not modelled; they appear as scripts and actions over which every
theorem is quantified.

Run `dafny verify dfyconfig.toml` to check the whole project.

| file | what it models |
|---|---|
| `Splice.dfy` | the watchdog, the two directions it reads, and the select loop (`src/splice.rs`) |
| `SpliceRuns.dfy` | what the watchdog promises over whole runs: soundness, completeness, the check period |
| `SpliceGrid.dfy` | the stall deadline under the ticker the code makes, on a grid whose period the deadlines give: exact bounds |
| `ChattyWallet.dfy` | two runs side by side: what extra writes can and cannot do to the stall deadline |
| `TornReads.dfy` | the same watchdog with every load and store a step of its own |
| `Handshake.dfy` | the header on the wire, tokens, `probe`, `announce`, `accept`, and many probes at once |
| `Dial.dfy` | rounds of racing streams, the attempt budget, and what giving up means (`src/dial.rs`) |
| `Hedging.dfy` | how long a dial takes for a fixed fate of every stream, compared across round sizes |
| `Streaks.dfy` | the two runs of outcomes, one fold, and any number of folds at once (`src/streaks.rs`) |
| `Pump.dfy` | one direction of a splice, over its reused buffer |
| `Transparency.dfy` | one connection end to end, under any fragmentation of reads and writes |
| `Delivery.dfy` | that everything sent can arrive from every state that machine gets to, and what its hops record |
| `PumpRuns.dfy` | that the machine of `Transparency.dfy` does what the pump and the first chunk of `Server.dfy` do |
| `Metrics.dfy` | the counters of both halves (`src/metrics.rs`) |
| `Server.dfy` | serving one stream, and the accept loop over any number of them (`src/bin/server.rs`) |
| `Client.dfy` | carrying one connection, and the accept loop over any number of them (`src/bin/client.rs`) |
| `Bench.dfy`, `BenchReport.dfy` | the benchmark's trial loop and the tables of its report (`src/bin/bench.rs`) |

Code that updates state step by step is modelled by methods and classes proved against functions; the
theorems are about those functions. A protocol of several tasks is a state machine: a run is any list
of events, and an event that is not possible where it comes does nothing, so a theorem about every list
is a theorem about every interleaving.

## How the parts fit

- **The watchdog.** `Splice.Tripped` is the code's tick; `Splice.Run` is the select loop and ends exactly
  at the first tick that trips. `SpliceRuns` relates what the ticks see (the latest stamps) to what is
  promised (the first unanswered write). `g` is the longest time between ticks, so those theorems cover a
  ticker that falls behind; `CheckPeriodIsLongest` says what the period is. `SpliceGrid` is about a ticker that
  is on time, whose period is the code's: `OnGrid` for any period, and `OnTime` where the period is `p` whole
  milliseconds and the k-th tick is at `k * p`, as it is for every deadline of whole seconds.
- **The dial.** `Dial.DialOut` returns `DialedOn(settings, scripts)` on every transport; `DialSpendsBudget` shows
  that this is always a `Ladder`, and everything downstream (metrics, client, benchmark) is proved for
  every ladder.
- **The bytes.** `Transparency` is a connection as a machine of single reads, writes and records. Nothing is
  ever wrong with what arrives (`BytesArriveUnchanged`), and all of it can arrive (`Delivery.EverythingCanArrive`);
  `PumpRuns.CopyIsARun` and `PumpRuns.FirstChunkIsARun` show that the methods `Pump.Copy` and `Server.Serve`
  give the upstream what that machine does.
- **The counters.** `Client.EveryRunIsSound` and `Server.EveryRunIsSound` are the invariants over all
  interleavings; `CarryingIsAPath` and `ServingIsAPath` show that the methods `Carry` and `Serve` count
  exactly what their paths through those machines count.

## Where the code and its documentation differ

- `check_period` is documented as keeping the overshoot under a quarter of the deadline. Four checks fit in
  a deadline exactly when it is at least 400 ms (`SpliceRuns.CheckPeriodIsLongest`). On the code's own
  ticks a splice outlives its first unanswered write by up to the periods the deadline takes and one more,
  counted from the tick at or before that write, and that far it can go (`SpliceGrid.ToldWithin`,
  `SpliceGrid.BoundIsReached`). That is a deadline and a quarter at most exactly when
  `4 * p * (ceil(d / p) + 1) <= 5 * d` (`SpliceGrid.QuarterIff`): of whole numbers of seconds, all but 21, 22,
  23, 26, 27 and 31 (`SpliceGrid.SecondsWithinAQuarterIff`).
- The stall deadline is documented as counted from the first write of the unanswered run. Where nothing was
  heard before, or the last answer `h` came before the first tick, a stall is told at that full age. After any
  other answer it always is exactly when `h` is further into its period than the deadline is short of whole
  periods (`SpliceGrid.FullAgeIff`): for a deadline of whole periods, when `h` is not the stamp of a tick.
  Otherwise a request that follows the answer before the next tick can be cut off young.
- A wallet that keeps writing is documented as unable to postpone the stall deadline. It can, to the very next
  tick and no further (`ChattyWallet.NextTickIsEnough`); and not at all exactly when the stamp the clock would
  otherwise stand at is further into its period than the deadline is short of whole periods
  (`ChattyWallet.NothingToBuyIff`). With a 60 s deadline, checked every 5 s, that is whenever the write the
  clock starts from is not on a tick.
- Verdicts survive torn reads exactly when every deadline that is set is at least a millisecond
  (`TornReads.VerdictsSurviveTornReadsIff`); both halves accept zero seconds.
- Rounds of any size never lose to retry in series. A dial in rounds of `d` never loses to one in rounds of
  `c`, whatever failures cost, exactly when `d` is a multiple of `c` or covers the whole budget
  (`Hedging.NeverSlowerIff`); when every failure costs the whole deadline, larger rounds never lose at all
  (`Hedging.SilentHedgingIsMonotone`).
- A first write to the upstream that fails is logged and counted nowhere, so connections made exceed
  connections finished by those failures (`Server.QuietServerBalances`).

## Model

| member | source | states |
|---|---|---|
| `Splice.AsMillis` | src/splice.rs:244-246 | whole milliseconds, rounded down, never more than the duration |
| `Splice.Direction.Record` | src/splice.rs:188-193 | the stamp becomes the latest, and the count grows by the chunk, wrapping at 64 bits |
| `Splice.Tripped` | src/splice.rs:115-153 | one tick: the clock and the verdict it leaves, for every combination of stamps and deadlines |
| `Splice.Run` | src/splice.rs:64-106 | the splice is cut off by the first tick whose verdict trips, with that verdict, and otherwise ends as its pumps did; its totals are the bytes up to there |
| `SpliceRuns.FirstUnansweredIsEarliest` | src/splice.rs:9-16 | the promised starting point, read from the end of a run, is the earliest write strictly younger than every answer, and exists exactly when there is such a write |
| `SpliceRuns.CountersExact` | src/splice.rs:177-193 | the overwritten stamps and wrapping counts still say what moved last each way, and whether anything did |
| `SpliceRuns.ClockInvariant` | src/splice.rs:121-144 | at every point of every run the sampled clock is within one gap of the first unanswered write, or that write came after the last tick and the clock is unset or about to be overruled |
| `SpliceRuns.SampledClockTracksIdeal` | src/splice.rs:114-153 | after a tick the clock is set exactly when a request is outstanding, is within one gap of the first unanswered write, and is not before the last answer |
| `SpliceRuns.StallSound` | src/splice.rs:121-144 | a stalled verdict means an unanswered write exists, nothing was heard for the whole deadline, and that write is at least the deadline less one gap old, or the whole deadline if nothing was ever heard |
| `SpliceRuns.AnsweringFarSideNeverStalls` | src/splice.rs:121-144 | a far side heard from within every deadline is never cut off for stalling, however its answers and the writes interleave |
| `SpliceRuns.IdleExact` | src/splice.rs:128-152 | under any watchdog, the idle verdict is given exactly when the stall deadline has not passed and nothing has moved either way for the idle one |
| `SpliceRuns.StallComplete` | src/splice.rs:91-105 | a splice does not outlive its first unanswered write by more than the deadline and two gaps, nor its clock by more than the deadline and one |
| `SpliceRuns.IdleComplete` | src/splice.rs:91-105 | a splice nothing moves on does not outlive its last movement by more than the deadline and one gap |
| `SpliceRuns.CheckPeriodIsLongest` | src/splice.rs:155-167 | whichever deadlines are set, the period is the longest from 100 ms to 5 s that fits four times in each of them, or 100 ms when none does; it fits four times in a deadline exactly when that is at least 400 ms; with no deadline it is an hour |
| `SpliceRuns.GridGap` | src/splice.rs:91-96 | ticks on a grid of any period are, in whole milliseconds, at most the rounded-up period apart |
| `SpliceGrid.GridRunIsPaced` | src/splice.rs:90-96 | a run whose ticks fall on the ticker's grid has no gap over the longer of the first tick's and the rounded-up period, so the theorems over paced runs apply |
| `SpliceGrid.PromptGridIsPaced` | src/splice.rs:90-96 | and none over the rounded-up period when the ticker is made within a millisecond of the start |
| `SpliceGrid.StallToldInTime` | src/splice.rs:155-167 | on the grid of the code's period, fractions of a millisecond and all, a stall is told within one and a half deadlines of the first unanswered write |
| `SpliceGrid.WholeSecondsTickWholeMillis` | src/splice.rs:155-167 | deadlines of whole seconds give a period of whole milliseconds: 250 for every second of the shorter, held between 100 and 5000, for either deadline or both |
| `SpliceGrid.OnTimeIff` | src/splice.rs:90-96 | for such a period `p` the k-th tick has the stamp `k * p` |
| `SpliceGrid.ClockOnGrid` | src/splice.rs:128-144 | on the grid the clock stands no later than the tick after the first unanswered write, and before that write only if held there by an answer the write followed within a period |
| `SpliceGrid.ToldWithin` | src/splice.rs:90-105 | a splice does not outlive its first unanswered write by more than the periods the deadline takes and one more, counted from the tick at or before that write |
| `SpliceGrid.BoundIsReached` | src/splice.rs:90-105 | wherever the first unanswered write is, some run lives exactly that long |
| `SpliceGrid.PeriodsInClosedForm` | src/splice.rs:155-167 | how many periods a deadline takes, and how far it and a stamp are from whole periods, as quotients and remainders |
| `SpliceGrid.QuarterIff` | src/splice.rs:155-157 | every stall is told within a deadline and a quarter of the first unanswered write exactly when the periods the deadline takes and one more come to no more than that |
| `SpliceGrid.SecondsWithinAQuarterIff` | src/splice.rs:155-167 | of the whole numbers of seconds exactly 21, 22, 23, 26, 27 and 31 break it |
| `SpliceGrid.FullAgeIff` | src/splice.rs:128-142 | after an answer at `h` a stall is always told at the first unanswered write's full age exactly when `h` is before the first tick or further into its period than the deadline is short of whole periods |
| `SpliceGrid.LateAnswerFullAge` | src/splice.rs:128-142 | and with no answer at all it is, too |
| `ChattyWallet.ClocksStayClose` | src/splice.rs:128-144 | with the same ticks and answers, the clock of a run with extra writes is at most one gap behind |
| `ChattyWallet.ChattyWalletCannotPostpone` | src/splice.rs:12-13 | if a run is cut off at a tick, the run with any extra writes is cut off there or at any tick a gap or more later, whatever other ticks come in between, unless an answer does |
| `ChattyWallet.ClocksMeetByNextTick` | src/splice.rs:128-144 | on the grid, extra writes start the clock no later than the tick after it starts without them |
| `ChattyWallet.NextTickIsEnough` | src/splice.rs:90-105 | on the grid, a run with extra writes is cut off at the tick the run without them is, or at the very next, unless an answer comes in between |
| `ChattyWallet.ClockIsAStamp` | src/splice.rs:128-136 | the clock only ever stands at the stamp of a write or an answer |
| `ChattyWallet.NothingToBuyIff` | src/splice.rs:128-167 | on the grid of the code's period, no extra writes move the tick a run is cut off at exactly when the stamp its clock stands at is further into its period than the deadline is short of whole periods |
| `TornReads.EveryInterleavingKeepsInvariant` | src/splice.rs:177-193 | with loads and stores separate, a count is never ahead of the stamp behind it, under any interleaving |
| `TornReads.UntornRecord` | src/splice.rs:188-193 | a record nothing interrupts is one event of the coarse model |
| `TornReads.UntornTick` | src/splice.rs:121-127 | a tick nothing interrupts is one tick of the coarse model, with the same clock and verdict |
| `TornReads.VerdictsSurviveTornReadsIff` | src/splice.rs:121-153 | for a watchdog, every interleaving comes only to verdicts whose counted records are a full deadline old by the tick's own clock, exactly when every deadline that is set is at least a millisecond |
| `Handshake.HeaderRoundTrip` | src/handshake.rs:58-80 | decoding an encoded header gives it back, for every flag and 64-bit token |
| `Handshake.WireLayout` | src/handshake.rs:58-65 | the fourteen bytes on the wire: the magic, the version, the flag, and the token with its highest byte first |
| `Handshake.UnusedBitsAreIgnored` | src/handshake.rs:67-80 | of the flags byte only the lowest bit is looked at, and only for the echo |
| `Handshake.EchoIsVerbatimIff` | src/handshake.rs:58-80 | re-encoding an accepted header reproduces its bytes exactly when the unused flag bits were clear |
| `Handshake.AcceptedIff` | src/handshake.rs:67-80 | a header is accepted exactly when it starts with the magic and the version; which error otherwise |
| `Handshake.Tokens.Next` | src/handshake.rs:50-56 | the k-th header carries the k-th token of a wrapping counter |
| `Handshake.TokensCountUp` | src/handshake.rs:50-56 | tokens start at one, go up by one and wrap to zero |
| `Handshake.TokensCollideIff` | src/handshake.rs:50-56 | two headers share a token exactly when they are a multiple of 2^64 apart |
| `Handshake.Stream.WriteHeader` | src/handshake.rs:153-162 | a header is written whole, or the write fails with any part of it out |
| `Handshake.Stream.ReadHeader` | src/handshake.rs:164-174 | takes the header's bytes and not one more, and tells a silent stream from a broken one |
| `Handshake.ShortReadIs` | src/handshake.rs:164-174 | a read is told to have timed out exactly when the stream fell silent before fourteen bytes, and to have failed exactly when it broke before them |
| `Handshake.WrittenIsRead` | src/handshake.rs:153-174 | what one end writes the other reads, whatever follows; of a failed write a header is read exactly when all of it got out |
| `Handshake.Probe` | src/handshake.rs:100-122 | sends a fresh header asking for its echo, and succeeds exactly on an echo with its token |
| `Handshake.Announce` | src/handshake.rs:124-133 | sends a fresh header that asks for nothing back, and reads nothing |
| `Handshake.Accept` | src/handshake.rs:135-151 | reads a header and writes it back exactly when asked |
| `Handshake.NoCrossTalk` | src/handshake.rs:100-151 | below 2^64 headers, a successful probe was given the echo of its own header, however echoes are copied, reordered and misdelivered between probes |
| `Handshake.AnsweredByOwnEchoIff` | src/handshake.rs:100-122 | below 2^64 headers, an echo delivered to a probe answers it exactly when it is of its own header |
| `Handshake.EveryProbeCanBeAnswered` | src/handshake.rs:100-151 | from every state of the network a header that asks for its echo gets it and is answered by it, and one that does not ask is not echoed |
| `Dial.OpenStreams` | src/dial.rs:189-206 | the streams opened and the refusals, in order |
| `Dial.AwaitEcho` | src/dial.rs:240-259 | every failure before the first echo, and that echo's stream |
| `Dial.RunRound` | src/dial.rs:179-259 | one round, with the probe on or off, comes to what its script says |
| `Dial.RoundBalances` | src/dial.rs:104-129 | every round the code returns: attempted is its size, opened is unanswered plus cancelled plus the one that answered, an unanswered round cancels nothing and discards all of its streams, and discards are in order of time; nothing clips |
| `Dial.UnprobedRoundCancelsNothingIff` | src/dial.rs:110-116 | an unprobed, unanswered round cancels nothing exactly when at most one of its opens succeeds; `dial` asks for one |
| `Dial.KeptStreamAnsweredFirst` | src/dial.rs:240-259 | the stream kept was opened in the round, its probe was answered, and none was answered sooner |
| `Dial.SpendBudget` | src/dial.rs:147-171 | the loop: a round of what is left up to the concurrency, until one answers or nothing is left |
| `Dial.DialOut` | src/dial.rs:142-172 | the dial ends at the first round to answer, with the rounds up to there, or gives up with all of them |
| `Dial.BudgetInClosedForm` | src/dial.rs:147-158 | round i has the budget less i full rounds, and the rounds are the budget divided by the concurrency, rounded up |
| `Dial.DialSpendsBudget` | src/dial.rs:147-171 | on every transport: round i tries min(c, a - i*c) streams, only the last round can have answered, and it gives up exactly when none did and every round was run |
| `Dial.DialHandsOver` | src/dial.rs:142-259 | on every transport the stream handed over was opened in the last round run and, probed, its probe was the first there to be answered, in the time given, or, unprobed, it was announced; and every round reported names exactly the opens refused and the probes failed before that, with their times and errors |
| `Dial.FirstRoundFailedIff` | src/dial.rs:147-171 | the first round failed exactly when the dial gave up or went on to another |
| `Dial.GivingUpSpendsEverything` | src/dial.rs:278-281 | giving up means exactly the whole budget was tried |
| `Dial.GiveUpClassifiedExactly` | src/dial.rs:268-290 | every give-up has a last error, and says "nothing opened" exactly when every stream of every round was a refused open |
| `Dial.LastErrorIsLast` | src/dial.rs:268-276 | on every transport a dial that gives up reports the error of the last probe of its last round, or of its last open when none came to a probe |
| `Hedging.DialTakesTheWait` | src/dial.rs:142-259 | on transports that give every stream its fate, the dial takes exactly the time the comparison is about |
| `Hedging.SomeTransportFollows` | src/dial.rs:142-259 | whatever the fates and the size of the rounds, there is such a transport |
| `Hedging.FollowingObeys` | src/dial.rs:142-172 | and it is one the dial can meet, with a budget of that many attempts |
| `Hedging.HedgingNeverLoses` | src/dial.rs:8-13 | rounds of any size find an answer exactly when retry in series does, and no later |
| `Hedging.EstablishedIff` | src/dial.rs:142-172 | whether a dial comes to a stream does not depend on the size of its rounds |
| `Hedging.NeverSlowerIff` | src/dial.rs:147-259 | on a budget, a dial in rounds of `d` takes no longer than one in rounds of `c` on streams of the same fates, whatever they are and whatever transport gives them, exactly when `d` is a multiple of `c` or one round of `d` is the whole budget |
| `Hedging.NeverSlowerOnAnyBudgetIff` | src/dial.rs:147-259 | and on every budget exactly when `d` is a multiple of `c` |
| `Hedging.SilentHedgingIsMonotone` | src/dial.rs:8-13 | when every failure costs the whole deadline, larger rounds are never slower, whether or not they divide the budget |
| `Streaks.CountsAreRuns` | src/streaks.rs:26-47 | the counts are exactly the trailing run of refused dials and the failed dials since the last answer, unprobed ones passed over |
| `Streaks.DeclaredDeadMeans` | src/streaks.rs:127-130 | the client is declared dead exactly if some five dials in a row opened nothing |
| `Streaks.Folder.Fold` | src/streaks.rs:88-131 | one fold leaves the counts, the gauge, the flag and the notification where the history with this outcome puts them |
| `Streaks.EveryInterleaving` | src/streaks.rs:88-131 | with folds as single steps of any number of callers: only the lock's holder is inside, each published place stands at the history before or after the holder's outcome, and no outcome is lost or doubled |
| `Streaks.FreeLockMeansAgreement` | src/streaks.rs:78-131 | whenever the lock is free the gauge, the flag, the notification and both runs agree on the one history, in lock order |
| `Streaks.UndisturbedFold` | src/streaks.rs:88-131 | the single steps of a fold nobody disturbs are the fold of the class |
| `Streaks.EveryHistoryHappens` | src/streaks.rs:88-131 | any list of outcomes can be folded, in its order |
| `Pump.Move` | src/splice.rs:211-231 | one turn writes exactly the chunk read, whatever the buffer held, and records it only once it is flushed |
| `Pump.Copy` | src/splice.rs:211-231 | what reaches the sink is what was read, in order and nothing else; what is recorded is the completed turns; and how it ended |
| `Pump.CountedIsDelivered` | src/splice.rs:188-193 | the counter shows the bytes delivered, up to its width |
| `Pump.PumpEndsAs` | src/splice.rs:211-244 | a pump ends closed exactly when every chunk was delivered and the source ended, and failed with a code exactly when that was its first failure or that of its last read |
| `Pump.PumpSends` | src/splice.rs:211-231 | what gets out is every chunk up to a failure, and of the one that failed what was written |
| `Transparency.HeaderArrives` | src/handshake.rs:135-174 | however its bytes arrive, the header is read as the one sent and nothing after it is taken |
| `Transparency.EchoArrives` | src/handshake.rs:100-122 | the same of its echo |
| `Transparency.EveryRunKeeps` | src/bin/server.rs:284-336 | at every point of every run, what each hop delivered and holds is what it read past the header, in order |
| `Transparency.BytesArriveUnchanged` | src/bin/server.rs:284-344 | for every fragmentation and with the probe on or off, the upstream has a prefix of exactly the wallet's bytes and the wallet a prefix of exactly the upstream's |
| `Transparency.NothingLostUp` | src/bin/server.rs:293-336 | between the handshake, the first chunk and the splice nothing is lost: every byte read is delivered, held or in flight, in order |
| `Transparency.NothingLostDown` | src/splice.rs:211-231 | the same on the way back, past the echo |
| `Transparency.OnlyLeavingEndsAHalf` | src/handshake.rs:100-151 | the handshake of an undisturbed stream never fails |
| `Transparency.LoggedTotalIsDelivered` | src/bin/server.rs:337-343 | the logged total, first chunk included, is what the upstream was given, short of at most the chunk being written |
| `Delivery.EverythingCanArrive` | src/splice.rs:64-106 | from every state a connection can be in with neither half gone, probe on or off, there are steps of the two halves after which the upstream has all the wallet sent and the wallet all the upstream sent |
| `Delivery.EveryExchangeHappens` | src/bin/server.rs:284-344 | whatever the wallet asks, if it asks anything, and whatever the upstream answers, some run of a connection delivers both whole |
| `Delivery.TotalsAreDelivered` | src/splice.rs:188-231 | in every run the total of each of the other three pumps is what it delivered past the header and its echo, short of at most the chunk being written |
| `Delivery.LeavingIsSilence` | src/splice.rs:93-105 | once a half has left it puts nothing more on the stream or on its socket |
| `PumpRuns.TurnIsARun` | src/splice.rs:211-231 | one turn of the pump is one read, writes cut any way that come to what got out, and a record when it was flushed |
| `PumpRuns.CopyIsARun` | src/splice.rs:211-231 | a whole pump, failing anywhere or not, is a run of those: the upstream is given what `Pump.Copy` sends and what is recorded is what it counts |
| `PumpRuns.BuffersAreAlike` | src/bin/server.rs:293 | the first chunk and the copy buffers are 8192 bytes each |
| `PumpRuns.RequestsFollowTheHeader` | src/bin/server.rs:284-296 | in every run, while a request is awaited exactly the header has been read and nothing is in hand |
| `PumpRuns.FirstChunkIsARun` | src/bin/server.rs:293-327 | and from there the first read, the connection and the first write give the upstream what `Server.Serve` does, whole or in part |
| `Metrics.ClientMetrics.ConnectionAccepted` | src/metrics.rs:160-168 | one more connection, one more in flight |
| `Metrics.ClientMetrics.Established` | src/metrics.rs:176-179 | what a dial that ended holding a stream counts |
| `Metrics.ClientMetrics.GaveUp` | src/metrics.rs:182-185 | what a dial that ran out counts |
| `Metrics.ClientMetrics.CountDial` | src/metrics.rs:197-210 | the loop counts every round, stream and discard once, and a failed first round once |
| `Metrics.ClientMetrics.CountDiscards` | src/metrics.rs:200-206 | every discard is counted under its own label |
| `Metrics.ClientMetrics.Finished` | src/metrics.rs:213-216 | the ending is counted under its label |
| `Metrics.ClientMetrics.DropGuard` | src/metrics.rs:325-333 | one fewer in flight |
| `Metrics.TallyCounts` | src/metrics.rs:358-365 | the labels keep refused opens apart: they add up to the refusals, and the rest to the failed probes |
| `Metrics.TallyByLabel` | src/metrics.rs:340-365 | every label shows exactly the discards it is for |
| `Metrics.DialAddsUp` | src/metrics.rs:192-210 | every stream a dial opened was kept, failed its probe or was let go of when another answered; a dial that gave up is among the failed first rounds |
| `Metrics.DialCountsExactly` | src/metrics.rs:192-210 | a dial counts its rounds, the streams they opened, what they threw away under each label, and a failed first round exactly when that round kept nothing, which is when it gave up or went on to another |
| `Metrics.ServerMetrics.Connected` | src/metrics.rs:309-316 | one more upstream connection, one more in flight |
| `Metrics.ServerMetrics.Reject` | src/metrics.rs:288-292 | a rejection is counted under the label of its error |
| `Server.Serve` | src/bin/server.rs:284-344 | what one stream counts, in order, on every way out; the upstream is written to only for a stream that introduced itself and carried a request, and gets exactly the bytes after the header, or those of them that got out before a write failed; a splice ends as its traffic has it under the reaper alone |
| `Server.ServeRequest` | src/bin/server.rs:295-323 | once introduced: what a stream counts on the way to the upstream, how much of it is read, and what the upstream is given |
| `Server.Relay` | src/bin/server.rs:323-336 | once connected: the first chunk reaches the upstream whole when its write succeeds and in any part when it fails, the splice runs under the idle deadline and no stall deadline, and the guard goes either way |
| `Server.FirstReadIs` | src/bin/server.rs:293-312 | as much of a request is read as has arrived, up to 8192 bytes, and nothing exactly when nothing has |
| `Server.ServedSplicesNeverStall` | src/bin/server.rs:329-337 | a served splice never ends stalled, and idle only by its own deadline |
| `Server.Arrive` | src/bin/server.rs:190-208 | a stream takes a permit if there is one and is otherwise shed and counted, as the accept loop's machine does |
| `Server.HappensKeepsSound` | src/bin/server.rs:182-224 | every step of the accept loop and of any task keeps the books balanced |
| `Server.OpenIsSound` | src/bin/server.rs:182-183 | the books balance before anything has arrived |
| `Server.EveryRunIsSound` | src/bin/server.rs:182-224 | in every state reachable from one whose books balance, so from the opening one: permits held plus available is the cap, arrivals are shed or admitted, and those admitted, accepted, carrying a request, connected and written upstream each equal their live stage plus its ways out, with the gauge at the live guards |
| `Server.NeverOverTheCap` | src/bin/server.rs:182-205 | upstream connections never exceed the cap, and a stream is shed exactly when every permit is held |
| `Server.QuietServerBalances` | src/bin/server.rs:284-344 | once every task is gone the gauge is at zero, every permit is back, and the counters account for every arrival |
| `Server.ShuttingDownEmpties` | src/bin/server.rs:209-250 | from every reachable state, cutting short what is left ends with every permit back and the gauge at zero |
| `Server.EveryLabelIsExact` | src/metrics.rs:288-320 | in every reachable state each rejection and each ending is counted under its own label |
| `Server.ServingIsAPath` | src/bin/server.rs:284-344 | what `Serve` counts is what its path through the accept loop counts, and it ends about to release its permit |
| `Client.OutcomeIsRight` | src/bin/client.rs:271-301 | each dial is folded as exactly one outcome, and which one says whether it answered, was probed, or had every open refused |
| `Client.Report` | src/bin/client.rs:274-301 | a dial that has resolved is counted, and folded as exactly one outcome |
| `Client.Carry` | src/bin/client.rs:261-321 | everything one connection counts and folds, on every way out; a connection whose dial came to a stream ends with the verdict of the first tick of its traffic that trips its watchdog, or as its pumps did when none does |
| `Client.CarryingLeavesTheGauge` | src/bin/client.rs:269 | a connection that is over leaves the in-flight gauge where it found it |
| `Client.OpenIsSound` | src/metrics.rs:82-154 | the counters cohere before anything has been accepted |
| `Client.EveryRunIsSound` | src/metrics.rs:160-210 | in every state reachable from one whose counters cohere, so from the opening one: connections are dialling, cut, established or unestablished; unestablished <= failed first rounds <= dials; streams opened are established plus failed probes plus cancelled; the gauge is the live connections; each resolved dial is folded once, as a success or as a failure |
| `Client.EveryDialIsFoldedAsItWas` | src/bin/client.rs:274-294 | in every reachable state, of each of the four outcomes there are as many folds, made or about to be, as dials that came to it |
| `Client.EveryCountIsExact` | src/metrics.rs:160-216 | in every reachable state each counter is the sum over the resolved dials of what it is documented to count: first-round failures the dials whose first round kept nothing, discards and endings each under their own label |
| `Client.ShuttingDownEmpties` | src/bin/client.rs:219-250 | from every reachable state, cutting short what is left ends with every connection over and the gauge at zero |
| `Client.ClosingsLeaveTheStreaksAlone` | src/bin/client.rs:271-273 | strike every ending of a carried connection from a run and the streaks come out the same |
| `Client.BailsExactlyOnADeadClient` | src/bin/client.rs:211-218 | the accept loop may give up on the local client exactly when five dials in a row have opened nothing, and then accepts no more |
| `Client.CarryingIsAPath` | src/bin/client.rs:261-321 | what `Carry` counts and folds is what its path through the accept loop counts and folds |
| `Bench.InArms` | src/bin/bench.rs:45-61 | the arms are exactly the pairs of a round size and a gap |
| `Bench.ArmAt` | src/bin/bench.rs:45-61 | the arms come by round size and within it by gap, in the order given |
| `Bench.InCommandLine` | src/bin/bench.rs:45-61 | they are every size with every gap given, or with none when the gap is not under test |
| `Bench.ArmsRepeatIff` | src/bin/bench.rs:45-61 | no arm comes up twice exactly when neither axis repeats a value |
| `Bench.CommandLineRepeatsIff` | src/bin/bench.rs:45-61 | the same of the axes as they are given, with the gap axis left out or not |
| `Bench.EveryTrialIsGenuine` | src/bin/bench.rs:278-301 | every trial the dialler can leave is a spent budget, answered exactly when a round was |
| `Bench.EveryTrialTellsItsDial` | src/bin/bench.rs:278-301 | a trial has its arm, the rounds its transport played, and for its answering time what the kept probe took |
| `Bench.TrialAddsUp` | src/bin/bench.rs:140-162 | the refusals a trial reports are the refusals there were and never underflow, opened streams add up, a trial that came to nothing spent its whole budget, and the first round failed exactly when it came to nothing or to a second round |
| `Bench.TurnIsRemainder` | src/bin/bench.rs:205-206 | going round the arms is indexing by the remainder |
| `Bench.CountOpened` | src/bin/bench.rs:148-150 | the streams a trial opened |
| `Bench.Measure` | src/bin/bench.rs:204-261 | trial n is the dial of the arm whose turn it is; the run is cut short as soon as five trials in a row opened nothing, and only then |
| `BenchReport.MeasuredTrialsRotate` | src/bin/bench.rs:205-206 | the trials of a run come round the arms in order |
| `BenchReport.RotationStaysBalanced` | src/bin/bench.rs:205-206 | at every point of a run any two places of the rotation have had as many trials, give or take one, whatever the arms |
| `BenchReport.EveryArmHasItsShare` | src/bin/bench.rs:205-206 | at every point of a run, for any list of arms, an arm's group has its completed rounds of the rotation, or one more, for every place it holds |
| `BenchReport.GroupsStayBalanced` | src/bin/bench.rs:313-321 | so any two groups differ by at most one when no arm is repeated |
| `BenchReport.GroupsPartitionIff` | src/bin/bench.rs:313-321 | the groups add up to the trials exactly when no arm that has had a turn is repeated, so, once every arm has had one, exactly when none is |
| `BenchReport.GroupIsItsTrials` | src/bin/bench.rs:313-321 | a group holds every trial of its arm as often as it was run and no other, in the order they were run |
| `BenchReport.TableMeansWhatItSays` | src/bin/bench.rs:493-525 | reached is exactly the trials whose earlier rounds all failed, what fails one round is what reaches the next, and what fails the last round the budget buys is the failures a wallet sees |
| `BenchReport.AllReachTheFirst` | src/bin/bench.rs:493-525 | the table starts from every trial, and what the wallet sees fail is among the failed first rounds |
| `BenchReport.CountRow` | src/bin/bench.rs:509-519 | the two counts of one line of the table |
| `BenchReport.ConditionalRates` | src/bin/bench.rs:497-525 | the table has a line for every round of the deepest trial, and is left out exactly when no trial went past one round |
| `BenchReport.WithinRound` | src/bin/bench.rs:528-537 | the map counts every round of more than one attempt under what it came to, and nothing else |
| `BenchReport.FailedRoundsAreTheDiagonal` | src/bin/bench.rs:528-537 | a round failed exactly when as many streams went unanswered as were opened, and fewer did otherwise; refusals are in neither |
| `BenchReport.SpreadCountsRounds` | src/bin/bench.rs:528-537 | the count under a key is the number of rounds that had more than one stream to try and came out that way |

## Left out

- The mixnet SDK, the async runtime and the sockets: opens, probes, reads, writes and time are inputs.
- Endpoint parsing, command lines, shutdown signals, logging and the text encoding of metrics: plumbing.
- The health state apart from the degraded flag that a fold writes.
- Weak memory ordering: the atomics are relaxed, but both pumps and the ticker run in one task, so steps are sequentially consistent.
- Waits the code does not time (connecting to the upstream, writing a header): they end or the half leaves, with no bound.
- Half-close: a splice ends when either pump ends, as in the code; what the other pump had read and not written is then dropped, and only prefixes are claimed.
- SpliceGrid.StallToldInTime: one and a half deadlines; the exact bound of `ToldWithin` is for periods of whole milliseconds, which every deadline of whole seconds has.
- SpliceGrid.FullAgeIff, ChattyWallet.NothingToBuyIff and the other exact conditions on the grid: of a ticker that is on time; one that falls behind has the bounds over paced runs.
- Byte counters of `finished` in both halves, and the width of every counter but the splice's: other counts are unbounded.
- A scrape in the middle of counting one dial: the client's accept-loop machine counts a resolved dial in one step and folds it in another.
- Poisoned locks and panics, apart from tasks that are cut short.
- Rates, percentages, percentiles, latency lines and printing in the benchmark; the warm-up dial, whose outcome the code throws away.
- Reply SURBs and the gap's sleep: they reach the SDK and the clock and decide nothing here.
- Pump.Copy: a write that fails half-way is a prefix of the chunk; how the socket buffers it is not modelled.
- Streaks.EveryInterleaving: the flag is compared and written in one step, since the lock is held across both.
- Dial.RunRound: the mixnet's order of finishing is part of the script; a stream's own latency to open is the refusal's or the round's elapsed time only.
- Metrics.TallyCounts: the histogram of establishment times is a count of observations, without their values.
