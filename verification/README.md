# kind-miner: a verified model of its core

kind-miner supervises mining programs on a machine that somebody else is using. This
project models, in Dafny, the parts of it that decide something: how a wallet address is
checked, how connections are carried to a Monero node over Tor, how much of the machine
the miner may take, when mining is held, stopped, paused or rolled back, how the child
processes are started and ended, and how the small records and codes are kept. Every
statement below is proved for all inputs, all runs or all interleavings.

`dafny verify dfyconfig.toml` checks the whole project. `Wrappers` and `Runs` hold what several
modules share: a value that may be missing, and runs of a step relation.

## What is modelled

**Addresses.** `Bits`, `Lanes` and `KeccakSpec` state FIPS 202 (sections 3.2 to 3.4),
`KeccakSponge` its sponge and padding (sections 4 and 5.1) without suffix bits. `Keccak` is
the code, updating 25 lanes in place; `KeccakTables` shows what its three tables are,
`KeccakBits` what each step does to single bits, `LaneNumbers` what the operations on lanes do
to 64-bit numbers, and `KeccakInverse` that the permutation is one. Theta is inverted through its parity map,
L = I + S + T·R over GF(2): squaring it only shifts, so L^64 · L^128 = I. `Positional` and
`Base58` are Monero's block base58, `Wallet` the classification of addresses.

**The relay.** `Zmtp` is one side of the ZMTP 3.0 handshake (RFC 23 of the ZeroMQ project) and
the splice, on connections that are mutable streams. `ZmtpPeers` lets two of them run
against each other over bounded FIFO streams with any fragmentation. `Relay` is the
concurrent part: acceptors, forwarders, dialling children, the tracked connections and
Close, as a state machine whose step is one locked section, one call on a connection or
one channel operation; `RelayCarries` is about which connections it then carries.

**The controller.** `Kindness` holds the presets, `Allowance` decides a tick and moves the
allowance, `Comparison` sets two runs side by side, `Controller` has the scheduler's fields
and methods and follows the allowance down to the share of the machine the miner occupies,
`Pause` interleaves any number of threads that set the override with the one that ticks.

**Guards with a memory.** `Island`, `Memory` and `Rollout` have the source's small mutable
objects, each with a function for one step, and lemmas that say what their fields mean about
everything they were ever given. `Daemon` is the reload loop around `Rollout`, over every
history of upgrades, restarts, reloads and verdicts.

**Processes.** `Lifecycle` runs Start, Stop, Close, Reconnect and Retarget of p2pool, Tor and
monerod in any number of threads beside the readers of their output, over processes that
may end at any time. `Miner` is xmrig's
manager, whose methods each hold the lock throughout, with the duty loops of all the
processes it ever launched.

**Records and codes.** `Ledger` and `Payouts` compare the pruned records with the full
histories. `Radix` is RFC 4648 (sections 5, 6 and 8), `Text` the trimming of strings, and
`Pairing` the pairing code and the onion address in it.

## Where the code and what is said about it differ

The code is modelled as it is; each point has a lemma with an input and a lemma that says
exactly when the statement does hold.

- README.md:653 lists the temperature limit among the conditions that set the allowance to
  zero. A machine that is busy as well is let down gently instead
  (`Allowance.AtLimitStopsUnlessBusy`, `Allowance.BusyAndHotExists`), and a busy hot machine
  can so keep more than an idle hot one (`Comparison.TickKeepsOrderIff`,
  `Comparison.BusyAndHotOvertakes`).
- CheckAddress promises a primary address of 95 characters and accepts 106 characters with
  the tag of one (`Wallet.LongPrimaryAddress`, `Wallet.CheckAddress`).
- memoryGuard.step says that a reading which knows nothing changes nothing. It clears the
  count of stalled readings and counts as a calm one (`Memory.UnknownChangesNothingIff`,
  `Memory.UnknownHidesStall`, `Memory.UnknownRestarts`).
- Relay.Close waits for the relay's goroutines, but only the first call does
  (`Relay.LaterCloseReturnsEarly`). Another call finds nothing left exactly when the first
  has returned or has nothing more to wait for (`Relay.LaterCloseIff`).
- A pause lasts until its end or until the user resumes, unless it is stored between a
  tick's look at an expired one and the lifting of it (`Pause.PauseLostIff`,
  `Pause.FreshPauseLost`).
- A pause is meant to stop the miner at once. A tick that had already decided still gives
  the engine its duty afterwards (`Pause.LateTickRuns`). That can follow a pause exactly when
  the tick under way is past its reading of the override and has not decided on nothing
  (`Pause.DutyAfterPauseIff`); it is that tick only (`Pause.PauseHolds`).
- Payouts.Record reports whether a payout was new; a payout recorded before and crowded out
  of the fifty is new again (`Payouts.NewIsNotFirstIff`, `Payouts.CrowdedOutIsNewAgain`).
- Nothing is judged before probation is over, except, and exactly, a pair on probation that
  cannot start (`Daemon.EarlyVerdictIff`, `Daemon.RejectedAtOnce`).
- Ready reports a p2pool or Tor that is up. It stays true when the process ends by itself
  (`Lifecycle.ReadyOutlivesACrash`), and a reader that took the lock late makes it true with
  no process, or with a newer one that has said nothing yet
  (`Lifecycle.ReadyCanOutliveTheProcess`, `Lifecycle.ReadyForANewerProcess`). Over whole runs
  `Lifecycle.ReadyIsWrongIff` says exactly when.
- Two threads that reconfigure p2pool at once can leave it running with the settings of the
  one and the fields of the other (`Lifecycle.TwoReconfigure`); over whole runs
  `Lifecycle.ArgumentsPartIff` says exactly when.

## Model

| member | source | states |
|---|---|---|
| Keccak.Keccak256 | internal/config/keccak.go:13-37 | the digest is KECCAK[512](M, 256) of FIPS 202 for every message |
| Keccak.KeccakF1600 | internal/config/keccak.go:55-84 | the array ends as the 24 rounds of the standard's permutation of what it was |
| Keccak.ThetaInPlace | internal/config/keccak.go:58-67 | the two loops over the array are the standard's theta |
| Keccak.RhoPiInPlace | internal/config/keccak.go:68-73 | moving lanes one by one through `t, a[j]` equals rho on all lanes and then pi on all lanes |
| Keccak.ChiInPlace | internal/config/keccak.go:74-80 | the rows rewritten one after the other are the standard's chi |
| Keccak.LastBlockBits | internal/config/keccak.go:26-29 | the last block is the rest of the message and pad10*1 of the whole, also when both markers fall into byte 135 |
| Keccak.MarkersShareAByte | internal/config/keccak.go:28-29 | the two marker bytes in one byte are 0x81 |
| Keccak.PaddedInjective | internal/config/keccak.go:22-30 | no two messages are absorbed as the same blocks |
| KeccakSponge.PaddedLength | internal/config/keccak.go:26-30 | the padding always fills whole blocks and is never longer than a block and a bit |
| KeccakSponge.PaddingInjective | internal/config/keccak.go:26-30 | pad10*1 keeps different messages different |
| KeccakTables.ChaseIsTheWalk | internal/config/keccak.go:50-53 | the lane visited at step t of the table is the one at step t of the standard's walk for rho |
| KeccakTables.ChaseSource | internal/config/keccak.go:52 | each lane visited takes the lane that pi moves there |
| KeccakTables.ChaseOffset | internal/config/keccak.go:51 | rotated by the offset the standard gives that lane |
| KeccakTables.ChaseOnce | internal/config/keccak.go:52 | the chase visits no lane twice |
| KeccakTables.ChaseCovers | internal/config/keccak.go:52 | and every lane but the first |
| KeccakTables.RoundConstantsAgree | internal/config/keccak.go:39-46 | the 24 constants are those of the standard's shift register |
| LaneNumbers.RotIsRotateLeft | internal/config/keccak.go:63-72 | rotating a lane by k multiplies its number by 2^k modulo 2^64 and adds what overflowed at the bottom |
| LaneNumbers.XorIsExclusiveOr | internal/config/keccak.go:60-65 | each bit of a sum of lanes is the sum of the two bits, without carry |
| LaneNumbers.AndNotIsAndOfNot | internal/config/keccak.go:78 | each bit of the complement of a and b is set exactly when b's is and a's is not |
| KeccakBits.ThetaBits | internal/config/keccak.go:58-67 | theta adds to bit (x, y, z) the columns (x-1, z) and (x+1, z-1), as section 3.2.1 of FIPS 202 says it of bits |
| KeccakBits.RhoBits | internal/config/keccak.go:48-53 | rho moves bit z - (t+1)(t+2)/2 of the lane that the walk meets at time t to z |
| KeccakBits.WalkCovers | internal/config/keccak.go:52 | the walk meets every lane but (0, 0) |
| KeccakBits.PiBits | internal/config/keccak.go:68-73 | pi takes lane (x, y) from (x + 3y, x) |
| KeccakBits.ChiBits | internal/config/keccak.go:74-80 | chi adds to each bit the product of the next one's complement and the one after |
| KeccakBits.IotaBits | internal/config/keccak.go:81-82 | iota changes bits 2^j - 1 of lane (0, 0) by the register's outputs, and nothing else |
| KeccakInverse.Order192 | internal/config/keccak.go:59-66 | applying the column-parity map 192 times is the identity |
| KeccakInverse.ThetaBijective | internal/config/keccak.go:58-67 | theta has a two-sided inverse on all states |
| KeccakInverse.RhoBijective | internal/config/keccak.go:68-73 | so has rho |
| KeccakInverse.PiBijective | internal/config/keccak.go:68-73 | so has pi |
| KeccakInverse.ChiBijective | internal/config/keccak.go:74-80 | so has chi, on every row |
| KeccakInverse.RndBijective | internal/config/keccak.go:57-83 | so has a round |
| KeccakInverse.KeccakFBijective | internal/config/keccak.go:55-84 | the permutation is a bijection on all 25-lane states |
| Base58.DecodeBase58 | internal/config/wallet.go:81-110 | the loop with 64-bit overflow detection returns exactly the decoding, or refuses exactly when there is none |
| Base58.BlockValue | internal/config/wallet.go:91-103 | a block's value is exact, or refused because it does not fit its bytes |
| Base58.DecodeEncode | internal/config/wallet_test.go:15-32 | decoding the encoding gives back every byte string |
| Base58.EncodeDecode | internal/config/wallet.go:81-110 | encoding what was decoded gives back every alphabet string that is accepted |
| Base58.DecodeRefuses | internal/config/wallet.go:85-103 | refused are exactly an impossible last length and a block whose value is too large |
| Base58.AlphabetIs | internal/config/wallet.go:27-28 | the digits ascend with their characters, which are the digits and letters without 0, O, I and l |
| Wallet.CheckAddress | internal/config/wallet.go:36-75 | for each outcome exactly when it is returned: nil exactly for the encoding of 18, a payload of 64 or 72 bytes and the first four bytes of their digest |
| Wallet.FirstCharacter | internal/config/wallet.go:41-43 | the first character of an encoding follows from its first byte, '4' for tag 18 |
| Wallet.AddressPassesEarlyTests | internal/config/wallet.go:41-54 | the tests before the checksum turn no real address away |
| Wallet.TagOfAddress | internal/config/wallet.go:55-75 | an address decodes, its checksum holds, and its first byte is its tag |
| Wallet.LongPrimaryAddress | internal/config/wallet.go:44-67 | an accepted address has 95 or 106 characters, as its payload has 64 or 72 bytes, and both occur |
| Wallet.AddressInjective | internal/config/wallet.go:55-60 | an address names one tag and one payload |
| Zmtp.MechanismIsNull | internal/nodes/zmtp.go:51-53 | trimmed of zeros the mechanism is NULL exactly when it is NULL and 16 zeros |
| Zmtp.OwnGreetingAccepted | internal/nodes/zmtp.go:29-55 | the greeting that is sent is one that is accepted |
| Zmtp.GreetingFields | internal/nodes/zmtp.go:22-36 | what is sent is signature, version 3.0, NULL in 20 bytes, as-server 0 and 31 bytes of filler |
| Zmtp.GreetingAcceptedIff | internal/nodes/zmtp.go:38-58 | accepted is exactly what frames its padding with FF and 7F, has a major version of at least 3 and the mechanism NULL, whatever else it holds |
| Zmtp.OwnReadyIsReady | internal/nodes/zmtp.go:110-121 | the READY that is sent is one that is accepted |
| Zmtp.ReadyFields | internal/nodes/zmtp.go:108-121 | the fields of the READY that is sent, in ASCII and with the lengths most significant byte first |
| Zmtp.IsReadyIff | internal/nodes/zmtp.go:128-165 | a READY is exactly a command frame, with a size of one byte or in a long frame of eight, of at most 65536 bytes that begin with the length of the name and the name |
| Zmtp.ReadyPrefixFree | internal/nodes/zmtp.go:128-165 | no READY, short or long, is the beginning of a stream that starts with another |
| Zmtp.ReadReady | internal/nodes/zmtp.go:128-165 | succeeds exactly on a stream that starts with a READY and takes exactly that |
| Zmtp.Handshake | internal/nodes/zmtp.go:170-185 | succeeds exactly on an acceptable stream, takes exactly greeting and READY, and sends its own |
| Zmtp.PeerStream | internal/nodes/zmtp.go:170-185 | after any acceptable greeting and READY the reader stands at the first byte behind them |
| Zmtp.CopyStep | internal/nodes/relay.go:251-254 | a copy reads any chunk, writes it whole or loses it on a closed connection, and is over at the end of its source |
| Zmtp.Splice | internal/nodes/relay.go:249-261 | with the two copies' reads and writes in any order and the closing between any of them, each side is sent, byte for byte, a prefix of what the other still had, one of them all of it, and both are closed |
| Zmtp.ForwardZmq | internal/nodes/relay.go:202-239 | after both handshakes the two streams are carried unchanged; a failed one carries nothing |
| ZmtpPeers.StepKeepsInv | internal/nodes/zmtp.go:170-185 | what one side has sent is what the other has read and what lies between them, in order, after every step, and every step counts |
| ZmtpPeers.NeedWithinFrame | internal/nodes/zmtp.go:128-165 | no read of the handshake asks for a byte beyond the frame |
| ZmtpPeers.NoDeadlock | internal/nodes/zmtp.go:167-185 | with room for it, two peers that can do nothing more have both finished |
| ZmtpPeers.HandshakesFinishIffRoom | internal/nodes/zmtp.go:167-185 | runs are short, and one that cannot go on is finished on both sides exactly when there was room; each has then read exactly the other's handshake |
| ZmtpPeers.OwnPeersFinish | internal/nodes/zmtp.go:22-35 | for the source's own frames: both directions hold a byte and one of them the 64-byte greeting |
| Relay.StepKeepsInv | internal/nodes/relay.go:118-315 | every step of any acceptor, forwarder, child or Close keeps what is open, what is tracked and who owns it |
| Relay.RunsKeepInv | internal/nodes/relay.go:118-315 | so does every run |
| RelayCarries.CarriesWhatIsWell | internal/nodes/relay.go:137-240 | in every run without a Close, a connection none of whose dials and handshakes has failed is or was carried, or will be within seven steps of its own that all go well: both ends open and tracked, and nothing of it closed before |
| RelayCarries.CarriesOnlyWhatIsWell | internal/nodes/relay.go:137-240 | in every run, whatever is carried was dialled, and over ZMQ greeted on both sides, by exactly the steps that takes, none of which failed |
| Relay.CloseLeavesNothing | internal/nodes/relay.go:295-315 | when the closing call has returned every connection ever made is closed, none is tracked and nobody runs |
| Relay.EveryStepCounts | internal/nodes/relay.go:295-315 | once Close has shut the listeners every step of anybody lowers one measure |
| Relay.CloseNeverStuck | internal/nodes/relay.go:295-315 | and until Close returns a step is possible that waits for no peer |
| Relay.CloseReturns | internal/nodes/relay.go:295-315 | from any reachable state in which it has begun Close returns within the measure, leaving nothing |
| Relay.LaterCloseIff | internal/nodes/relay.go:297-315 | in every reachable state in which another call of Close returns, nothing is left exactly when the wait group is empty, that is when the first call has returned or can |
| Relay.LaterCloseReturnsEarly | internal/nodes/relay.go:297-302 | another call of Close returns at once, here with a forwarder about to dial |
| Kindness.Get | internal/kindness/kindness.go:108-116 | whatever the stored name, the preset is one of the four, with Rise below Fall and a ceiling between Ghost's and the machine |
| Kindness.FromGhostToFull | internal/kindness/kindness.go:84-106 | the ceilings are 0.52, 0.78, 0.90 and 1, from each preset to the next Fall falls and Rise rises, and all but Full wait for the user to be away |
| Kindness.OtherNames | internal/kindness/kindness.go:39-57 | greedy is Full, and a name that is not known is Polite |
| Allowance.DecideMeans | internal/scheduler/scheduler.go:589-658 | when a decision is a hard stop, and otherwise that the target is the room under the ceiling, 0.52 at most while the user is about, times what the heat leaves |
| Allowance.ReasonMeans | internal/scheduler/scheduler.go:622-656 | WaitingForIdle, EasingOff, Busy and CoolingDown are each shown exactly when load, heat and presence say so |
| Allowance.HardReasonMeans | internal/scheduler/scheduler.go:589-620 | of the causes that stop mining outright the one shown is there and none before it is |
| Allowance.AtLimitStopsUnlessBusy | internal/scheduler/scheduler.go:627-644 | at the limit mining stops hard exactly while there is room under the ceiling |
| Allowance.BusyAndHotKeepsMining | internal/scheduler/scheduler.go:627-644 | a busy machine at its limit keeps a positive allowance |
| Allowance.BusyAndHotExists | internal/scheduler/scheduler.go:627-644 | such a moment, for the README's statement |
| Allowance.ApproachGap | internal/scheduler/scheduler.go:680-699 | one tick leaves (1-r)^8 of the gap, r by direction, and neither reaches nor crosses the target |
| Allowance.TickIsEightReferenceTicks | internal/scheduler/scheduler.go:688-699 | a tick is exactly eight ticks of the reference interval at the preset's rate |
| Allowance.AllowanceInRange | internal/scheduler/scheduler.go:721-733 | on every run the allowance stays in [0,1] |
| Allowance.Converges | internal/scheduler/scheduler.go:680-733 | after n ticks at a soft target the gap is the first one times (1-r)^(8n), on the same side |
| Allowance.FallOutpacesRise | internal/kindness/kindness.go:9-20 | over the same ticks a gap above is always closed further than the same gap below |
| Comparison.ApproachMonotone | internal/scheduler/scheduler.go:680-686 | a tick keeps the order of allowances and of targets |
| Comparison.BurdenedTarget | internal/scheduler/scheduler.go:589-658 | more load, presence, heat or cause to stop never raises the target, and loses a hard stop only where the load hides the heat |
| Comparison.TickKeepsOrderIff | internal/scheduler/scheduler.go:701-733 | a tick keeps the order of any two allowances exactly when the busier machine does not hide the other's temperature stop |
| Comparison.Compared | internal/scheduler/scheduler.go:701-733 | over whole runs the more burdened machine never has the larger allowance |
| Comparison.ComparedBelowTheLimit | internal/scheduler/scheduler.go:701-733 | in particular while the temperature stays below the limit |
| Comparison.BusyAndHotOvertakes | internal/scheduler/scheduler.go:627-644 | one busy-and-hot tick breaks that order |
| Controller.OccupancyTracksAllowance | internal/engine/xmrig.go:214-258 | the share occupied is the allowance up to a nanosecond's rounding, or the 80 ms slice, and exceeds it exactly for an allowance below that slice |
| Controller.FullShareMeans | internal/scheduler/scheduler.go:933-957 | the miner at full duty takes the least of the cores there are, the threads wanted and the cores it is confined to |
| Controller.CeilingPromise | internal/scheduler/scheduler.go:701-741 | miner and others stay under the ceiling but for the part of the miner's excess that one fall leaves and the shortest slice; a hard stop leaves nothing |
| Controller.SteadyCeilingPromise | internal/scheduler/scheduler.go:680-741 | after n ticks the excess left has shrunk by (1-Fall)^(8n) |
| Controller.Scheduler.Apply | internal/scheduler/scheduler.go:908-931 | the duty, its label and the engine's copy agree with the allowance |
| Controller.Scheduler.SetOverride | internal/scheduler/scheduler.go:411-427 | a pause zeroes the duty at once, anything else changes the override alone |
| Controller.Scheduler.EndExpiredSnooze | internal/scheduler/scheduler.go:453-462 | lifts a timed pause exactly when its time has come |
| Controller.Scheduler.Tick | internal/scheduler/scheduler.go:701-741 | the new allowance, duty and reason from the old ones and the readings; both are zero while the user's pause stands |
| Pause.PauseHolds | internal/scheduler/scheduler.go:411-427 | while a pause stands at most the tick past its snapshot gives duty; after two ticks allowance, duty and engine are at zero and stay there |
| Pause.PauseStopsAtOnce | internal/scheduler/scheduler.go:411-427 | with no earlier tick left to end, the duty is zero once the pause was applied and the engine's once it was told, and both stay so while it stands |
| Pause.NothingAfterwards | internal/scheduler/scheduler.go:701-741 | once one tick has ended no step of anybody gives the miner duty |
| Pause.RunsKeepTicker | internal/scheduler/scheduler.go:701-741 | on every run the allowance is never negative and the tick's own copies are what it stored |
| Pause.DutyAfterPauseIff | internal/scheduler/scheduler.go:411-427 | in every reachable state a pause can still be followed by duty for the engine exactly when the tick under way found no pause and has not decided on zero |
| Pause.LateTickRuns | internal/scheduler/scheduler.go:411-427 | that one tick is real: a run in which the pause was stored, applied and returned, and the engine then got its duty |
| Pause.SnoozeIsLifted | internal/scheduler/scheduler.go:449-462 | the first tick that begins at or after the deadline has lifted the pause before it reads the override |
| Pause.PauseStands | internal/scheduler/scheduler.go:449-462 | and no tick that begins earlier lifts it |
| Pause.PauseLostIff | internal/scheduler/scheduler.go:453-462 | a pause can vanish before its end, with nobody resuming, exactly when it was stored while a tick was about to lift another |
| Pause.FreshPauseLost | internal/scheduler/scheduler.go:453-462 | a run in which that happens |
| Island.IslandWatch.Observe | internal/core/island.go:112-132 | one sample moves the five fields as the step function does, and the answer is the hold and its fault |
| Island.AdvanceIs | internal/core/island.go:113-115 | lastAdvance is when the stretch of one height that the run ends with began |
| Island.FailingSinceIs | internal/core/island.go:121-127 | failingSince is when the stretch of faults that the run ends with began |
| Island.HeldIff | internal/core/island.go:121-131 | mining is held exactly when that stretch spans three minutes |
| Island.HeldOwnIs | internal/core/island.go:100-106 | heldOwn is this machine's hashrate at the sample that began the hold |
| Island.StalledIff | internal/core/island.go:83-85 | a stall is named exactly when the height stood still for five minutes and no earlier check failed |
| Island.VerdictIff | internal/core/island.go:69-92 | over every run, for each fault exactly when it is the verdict, and exactly when a sample is healthy; the pool is held against this machine's hashrate, or while mining is held the one it had when the hold began |
| Island.StallHeldAfterEight | internal/core/island.go:21-29 | a chain whose only fault is standing still is held no sooner than eight minutes after its last advance |
| Island.HoldLasts | internal/core/island.go:100-120 | held at h, it stays held while the pool is known and below twice h in 64 bits, whatever this machine's average does |
| Island.BeatenIff | internal/core/island.go:88-90 | twice the hashrate is twice the hashrate exactly below 2^63 |
| Memory.MemoryGuard.Observe | internal/scheduler/memory.go:66-98 | one reading moves the guard's fields as the step function does |
| Memory.MemoryGuard.StopOrRestart | internal/scheduler/memory.go:110-127 | the miner is ended and started exactly on a change of the verdict |
| Memory.MarginMeans | internal/scheduler/memory.go:54-61 | what is kept free is half a gibibyte or a twentieth of the memory, whichever is more |
| Memory.StallTicksIs | internal/scheduler/memory.go:68-73 | stallTicks counts the stalled readings the run ends with |
| Memory.StopsIff | internal/scheduler/memory.go:75-81 | a running miner is stopped exactly by a short reading or the third stalled one in a row |
| Memory.RestartIsNotStalled | internal/scheduler/memory.go:83-97 | the reading that restarts leaves no count behind, so the three belong to one miner |
| Memory.CalmSinceIs | internal/scheduler/memory.go:83-93 | calmSince is when the stretch of calm and roomy readings since the stop began |
| Memory.RestartsIff | internal/scheduler/memory.go:83-97 | a stopped miner comes back exactly when that stretch spans ten minutes |
| Memory.RestartLeavesRoom | internal/scheduler/memory.go:85-93 | after a restart that knew the memory the miner's own footprint cannot make the next reading short |
| Memory.BlindRestartCanBeShort | internal/scheduler/memory.go:85-93 | after one that did not, it can |
| Memory.UnknownChangesNothingIff | internal/scheduler/memory.go:63-93 | when a reading that knows nothing does change nothing |
| Memory.UnknownHidesStall | internal/scheduler/memory.go:68-73 | three stalled readings stop the miner, and one unknown among them does not let the third count |
| Memory.UnknownRestarts | internal/scheduler/memory.go:83-97 | ten minutes of knowing nothing bring a stopped miner back |
| Rollout.Check.Observe | internal/rollout/rollout.go:75-92 | one look is accumulated and judged |
| Rollout.PassesIff | internal/rollout/rollout.go:69-92 | a pair passes exactly after fifteen minutes with p2pool synced at some look or not expected, no island at the last, and a hash if it was ever allowed to; before that nothing is judged, and otherwise it fails for the first of these |
| Rollout.ChoiceIs | internal/rollout/rollout.go:223-251 | when the daemon goes back, that it then runs the pair that passed, and that probation is for exactly the unjudged |
| Daemon.StepKeepsInv | cmd/kind-minerd/engines.go:94-169 | every upgrade, restart, start, verdict and late verdict keeps what the memory may say |
| Daemon.RollbackIsSafe | internal/rollout/rollout.go:223-251 | healthy and rejected never name one pair, and a run that went back runs a pair that passed here |
| Daemon.OnlyVerdictsWrite | cmd/kind-minerd/engines.go:94-122 | the memory changes only by a verdict: a pass, a failure after fifteen minutes by what was looked at, or a failed start, and then to the run's own copy with just that pair's standing changed |
| Daemon.FailedPairIsReplaced | cmd/kind-minerd/engines.go:94-110 | when the installed pair fails, a run that could go back ends and the next one runs the pair before it; one that could not goes on unwatched |
| Daemon.BeginFindsOut | internal/rollout/rollout.go:223-251 | a run can go back exactly when there was another pair before and it is the one that passed |
| Daemon.EarlyVerdictIff | internal/rollout/rollout.go:69-82 | a verdict is written on less than fifteen minutes of watching exactly when a run on probation fails to start, and it is a rejection |
| Daemon.PassedWasWatched | internal/rollout/rollout.go:69-92 | over every run, whatever passed was judged after fifteen minutes of watching |
| Daemon.WatchBeganWithStart | cmd/kind-minerd/engines.go:148-150 | over every run, the time from which a pair is watched is the time at which a run of it started |
| Daemon.LooksAreKept | internal/rollout/rollout.go:75-82 | a look that settles nothing is kept, by the run that took it alone |
| Daemon.RestartEndsTheWatchers | cmd/kind-minerd/engines.go:148-155 | after a restart, and until a run is left, no watcher of an earlier one is out |
| Daemon.RejectedWasJudged | cmd/kind-minerd/engines.go:94-110 | over every run, whatever stands rejected was too, or could not start |
| Daemon.RejectedAtOnce | cmd/kind-minerd/main.go:357-363 | a run whose second step rejects its pair |
| Daemon.ReloadsAreBounded | cmd/kind-minerd/main.go:327-395 | while no verdict comes late, at most one reload for a failed pair for each package installed |
| Daemon.LateVerdictsReload | cmd/kind-minerd/engines.go:148-169 | with late verdicts that is too few: a single upgrade and any number of reloads |
| Daemon.UnjudgesIff | cmd/kind-minerd/engines.go:94-169 | without a new package, the reloads made and to come rise exactly at a verdict that leaves nothing known of the installed pair, which was judged, and costs a reload; and then by one |
| Daemon.ReloadsFollowUnjudgings | cmd/kind-minerd/main.go:327-395 | over every run, reloads are at most the packages installed and those steps |
| Daemon.PotentialStep | cmd/kind-minerd/main.go:327-395 | a step raises reloads and the reloads still possible by two for a package, one for a run that is left, and nothing otherwise |
| Daemon.ReloadsAreCounted | cmd/kind-minerd/main.go:327-395 | over every history, late verdicts included, reloads are at most one, two for each later package and one for each run that was left |
| Daemon.LoopEnds | cmd/kind-minerd/main.go:327-337 | from any reachable point, while nothing is installed and no run is left, there are at most as many reloads as watchers are still out and three more |
| Lifecycle.StepKeepsProcs | internal/engine/p2pool.go:136-317 | after every step the manager's process is the only one not waited for |
| Lifecycle.AtMostOneLives | internal/engine/p2pool.go:253-317 | at most one process of a manager lives, and none once a Close has returned, whatever was under way |
| Lifecycle.ChangeTakesEffect | internal/engine/p2pool.go:253-288 | undisturbed, a Reconnect keeps host, RPC port and proxy, a Retarget drops the login, and either leaves one new process with what was asked for as its arguments |
| Lifecycle.WaitersCanTimeOut | internal/engine/p2pool.go:200-213 | in every reachable state a waiting Start can time out, and then has no lock |
| Lifecycle.DeathEndsTheWait | internal/engine/p2pool.go:268-269 | a Start of p2pool whose process has died, at a Close or by itself, can return after at most three more steps of its reader |
| Lifecycle.ArgumentsAreTheSettings | internal/engine/p2pool.go:253-288 | with one thread at a time starting or reconfiguring, a running p2pool has the stored settings |
| Lifecycle.ArgumentsStepIff | internal/engine/p2pool.go:253-317 | from every state, the steps that part arguments and fields and the steps that bring them together, exactly |
| Lifecycle.ArgumentsPartIff | internal/engine/p2pool.go:253-317 | over every run they differ exactly when other settings were stored over a running process and neither a Stop that found it nor its own settings came after |
| Lifecycle.TwoReconfigure | internal/engine/p2pool.go:257-263 | a run of two reconnects in which they do |
| Lifecycle.MonerodStartTimesOut | internal/engine/monerod.go:37-115 | Monerod.Start never returns on readiness: the reader needs the lock that Start holds |
| Lifecycle.OthersReturnReady | internal/engine/p2pool.go:186-213 | P2Pool's and Tor's can, having let the lock go |
| Lifecycle.ReadyStepIff | internal/engine/p2pool.go:302-356 | from every state, the steps after which Ready is set with no announced living process, the end of the manager's own process among them, and the steps that set it straight, exactly |
| Lifecycle.ReadyIsWrongIff | internal/engine/p2pool.go:302-356 | over every run Ready is wrong exactly when a reader announced anything but the manager's own living process, or that process ended by itself, and no launch, effective Stop or right announcement came after it |
| Lifecycle.ReadyOutlivesACrash | internal/engine/p2pool.go:319-356 | a run in which p2pool or Tor starts, is announced and dies, and Ready stays set |
| Lifecycle.ReadyForANewerProcess | internal/engine/p2pool.go:302-356 | a run after which the old process's line counts for a newer one |
| Lifecycle.ReadyCanOutliveTheProcess | internal/engine/p2pool.go:302-356 | a run after which the manager is ready and has no process |
| Miner.XMRig.Start | internal/engine/xmrig.go:105-183 | a closed or running manager is left alone, otherwise the one launched is the manager's: alive, not stopped, with an open channel |
| Miner.XMRig.Close | internal/engine/xmrig.go:123-128 | the same for good |
| Miner.XMRig.Stop | internal/engine/xmrig.go:341-360 | the process that was the manager's is ended and waited for, its loop's channel closed once, and nothing else changes |
| Miner.XMRig.Suspend | internal/engine/xmrig.go:262-272 | the current process is stopped by one signal, which is the newest, and remains the manager's; a stale, repeated or failed suspend does nothing |
| Miner.XMRig.Unsuspend | internal/engine/xmrig.go:274-284 | the same for resuming it |
| Miner.StepKeepsSafe | internal/engine/xmrig.go:105-360 | every call keeps the state safe, and none revives a closed manager |
| Miner.DutyLoopsAreSafe | internal/engine/xmrig.go:214-284 | no process that was waited for is ever signalled, paused says whether the current one is stopped, and the channel of every other loop has been closed once |
| Miner.FrozenIsLastSignal | internal/engine/xmrig.go:260-284 | over every run a process is stopped exactly when the newest signal to it was a stop, and paused says so of the manager's own |
| Miner.AtMostOneLives | internal/engine/xmrig.go:105-128 | at most one miner lives, and none after a Close |
| Ledger.Ledger.Add | internal/stats/ledger.go:44-55 | the minutes after a sample |
| Ledger.Ledger.PruneBefore | internal/stats/ledger.go:58-67 | the minutes before the cutoff go, from the front |
| Ledger.Ledger.Rate | internal/stats/ledger.go:75-90 | the loop from the end gives the mean of the window, or refuses below half of it |
| Ledger.Ledger.Load | internal/stats/ledger.go:124-152 | what is kept of a file |
| Ledger.WindowIsSamples | internal/stats/ledger.go:75-90 | sum, count and minutes covered of a window are those of its samples |
| Ledger.AfterIsTheEnd | internal/stats/ledger.go:44-67 | the ledger is the end of the unpruned record, and what is missing is over a day old |
| Ledger.RateIsTrue | internal/stats/ledger.go:69-90 | any window up to a day that ends at or after the newest sample gets the rate, or the refusal, of the full history |
| Ledger.LedgerIsSmall | internal/stats/ledger.go:37-67 | the ledger never exceeds 1441 minutes |
| Ledger.LoadedStaysTheEnd | internal/stats/ledger.go:120-152 | saved, loaded and added to, it remains the end of the unpruned record |
| Ledger.LoadedIsUsable | internal/stats/ledger.go:142-149 | whatever a file holds, what is kept is in order, counts something and is not from the future |
| Ledger.DroppedIsLate | internal/stats/ledger.go:142-149 | and of what is usable only that is dropped which does not come after something kept |
| Ledger.LoadedRateIsTrue | internal/stats/ledger.go:101-152 | saved, loaded at a later time and added to since, it gives the rates of the full history |
| Payouts.Payouts.Record | internal/stats/payouts.go:41-55 | the new list, and whether the height was in the old one |
| Payouts.Payouts.Recent | internal/stats/payouts.go:57-65 | the newest n |
| Payouts.Payouts.Load | internal/stats/payouts.go:92-118 | the sound entries of a file, recorded one by one |
| Payouts.ListIsTheBest | internal/stats/payouts.go:15-55 | the list is the fifty greatest heights ever recorded, descending, each with its first payout |
| Payouts.NewIsNotFirstIff | internal/stats/payouts.go:38-55 | an old payout is reported new exactly when the list is full of higher ones |
| Payouts.SoundIs | internal/stats/payouts.go:112-116 | of a file exactly the entries without a height or an amount are left out |
| Payouts.CrowdedOutIsNewAgain | internal/stats/payouts.go:38-55 | 51 rising heights, the first of which is new again |
| Payouts.LoadRestores | internal/stats/payouts.go:92-118 | a saved list loads as itself |
| Payouts.DescendingIsUnique | internal/stats/payouts.go:50 | the sorted list of distinct heights is the only one |
| Radix.DecodeEncode | internal/hub/code.go:85 | base64url, base32 and hex decode what they encode |
| Radix.EncodeDecode | internal/hub/onion.go:50-53 | and encode what they decoded, where the characters hold whole bytes |
| Pairing.OnionKeyIff | internal/hub/onion.go:22-60 | onionKey gives a key exactly for that key's address, white space and case aside |
| Pairing.ValidComesBack | internal/hub/code.go:69-122 | every valid pairing, with or without an onion, is read back from its code |
| Pairing.ParsedIsValid | internal/hub/code.go:91-139 | whatever is read is a valid pairing |
| Pairing.CodeRoundTripIff | internal/hub/code.go:69-122 | a code reads back as its pairing exactly when that pairing is valid |
| Pairing.HostMeans | internal/hub/code.go:124-139 | a host that is no IP address is 1 to 253 letters, digits, dots and hyphens, and no colon |
| Pairing.CodeForm | internal/hub/code.go:61-87 | prefix, fingerprint, token, ports, key and host in this order; km2 exactly with an onion |
| Pairing.CodeCharacters | internal/hub/code.go:69-71 | every character of a code is a letter, a digit, a hyphen or an underscore |
| Pairing.AddressForm | internal/hub/onion.go:22-30 | an onion address is 56 characters and .onion |
| Pairing.WhitespaceForgiven | internal/hub/code.go:91-94 | white space around a code changes nothing |

## Left out

- The user interface, the monitors, HTTP, TLS, downloads, signatures, configuration files and
  the reading of D-Bus, sysfs and procfs: their readings are inputs here.
- Real signals, timers and files: a launch, a signal, a write and a rename succeed or fail as
  one step. JSON and the file system under Save and Load are not modelled.
- Rounding of floating point: shares, rates and sums are reals, and Memory.Margin takes a
  twentieth of the memory as an integer.
- Clocks: times are integers that the callers supply. A time of zero, the source's "unset",
  is an option type, and dates before 1970 are not considered.
- Text that is not ASCII: base58, pairing codes and onion addresses are taken apart by
  character. `decodeBase58` on text outside its alphabet, which CheckAddress rules out
  first, is covered only as far as such characters have no digit, and the case of letters
  outside ASCII is left alone.
- SHA3-256 and net.ParseIP: Pairing takes them as arbitrary functions, so nothing is said of
  which hosts are IP addresses.
- Relay.Close: a call that finds the relay closed already is one step that returns; the
  errors that Close joins, the failing flag and its log lines are not part of this model.
- Zmtp.CopyStep: a chunk is written whole or not at all.
- Zmtp.ForwardZmq: deadlines and the order of the two handshakes are not in this method; the
  concurrent order of dialling, tracking and closing is in Relay.
- Zmtp.Handshake: a connection fails when it is closed or its stream ends, not in the middle
  of a write.
- Lifecycle.AtMostOneLives: p2pool, Tor and monerod are state machines over values rather
  than classes, since their threads interleave between locked sections. The pipes, payout
  lines and statistics pollers are not part of it.
- Relay and Pause are state machines over values for the same reason.
- Miner.XMRig.Start: awaiting systemd's scope is one outcome of the call, and a second launch
  that fails leaves the same state as a first one that does.
- Daemon.ReloadsAreCounted: a memory that cannot be written or read back is not considered,
  nor are two packages that differ with one identifier.
- Rollout.ChoiceIs: an install without packaged engines has nothing to choose and is not a case.
- Daemon.LoopEnds: a reload because the hub's owner changed the wallet ends a run like a
  signal does, and what it costs is in the count of runs left.
- Relay.LaterCloseIff: the state machine takes one step of a later call, but the lemma is
  about every state in which such a call can return.
- Pairing.ValidComesBack: the newlines inside a code that decoding skips are stripped as the
  library strips them, and nothing more is said of codes that Code does not write.
- probeZMTP, ThreadCap, the placement on cores, history and chart series, version
  comparison and config migration: they would only add easy members.
