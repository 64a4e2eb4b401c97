# Blockmine, verified

Blockmine is a proof-of-work settlement protocol: a program holds one open block with a challenge, a 256-bit
target and a reward; miners search nonces off-chain; whoever submits a nonce whose SHA-256 lies below the target
is paid from a fixed reward vault, and the program retargets and opens the next block. This project models the
program's instructions, the difficulty and reward arithmetic, the search engines and the amount strings, and
proves what they are for. `dafny verify dfyconfig.toml` checks everything.

## How it is built

| files | content |
|---|---|
| `Bytes`, `Wrappers`, `Sums` | fixed-width integers, powers and logarithms, byte strings as numbers, sums |
| `Rewards`, `EraProgress` | the emission schedule and the studio's closed form of it |
| `Retarget`, `Difficulty` | the retarget as integer arithmetic, and the byte loops that compute it |
| `Ledger`, `Accounts`, `Preimages` | balances, the account records and events, the hashed byte strings |
| `Protocol` | every instruction as a function from state to outcome (`Committed` or `Rejected`), and runs |
| `Program` | the instructions as a class that mutates its records statement by statement and rolls back |
| `EventLog`, `Invariants`, `SettlementProof`, `Runs` | the inductive invariant and its proof |
| `Setup`, `Timing`, `Announcements` | single instructions in plain terms: fields, clock times, events, conditions |
| `Emissions`, `Submissions`, `Fees`, `Sessions`, `Challenges`, `Convergence`, `Liveness` | what holds over every run |
| `Witnesses`, `CpuOverflow` | concrete runs and a concrete search on which a promise fails |
| `Engine`, `Hashing`, `CpuSearch`, `CpuSearchProof`, `CpuWorker` | the multi-threaded search |
| `GpuSearch`, `GpuKernel` | the launch geometry and the work-item race, the kernel's own SHA-256 |
| `Fips180`, `WordBits`, `PublishedDigest` | SHA-256 of FIPS 180-4, its word functions bit by bit, a published digest round by round |
| `MinerLoop`, `Rounds`, `Mining` | one round over several engines, rounds in a row, searches and settlements together |
| `DecimalAmount` | token amounts as decimal strings |

Instructions are stated twice on purpose. `Protocol` says what an instruction does as one function; `Program` writes
the handler the way the source does, field by field and with early returns, and every method ensures `View() ==
Next(rt, old(View()), call)` together with the error it reports. Runs, reachability and all theorems are about
`Next`, and `Runs.ReachableNext` carries them over to the class. Two mirrors can share a mistake, so what an
instruction writes, when it is accepted and what the retarget and SHA-256 compute is stated a third time, in clock
times, literal amounts and named fields, without the functions that `Protocol` is made of (`Setup`, `Timing`,
`Announcements`, the value lemmas of `Rewards` and `Retarget`, `WordBits`, `PublishedDigest`). A `State` also holds
the two ledgers and the event stream, so that a theorem can speak of the whole history; commands include transfers,
new token accounts and changes of SOL balances made by the world outside. Keys may coincide wherever the program
allows it (a miner may be the treasury, a payer the payee). The hash is a parameter; collision-freeness is a
hypothesis about the strings hashed in one run, never an axiom. The concurrent searches are transition systems over
atomic steps: a schedule is any sequence of enabled steps, and relaxed or plain loads of a flag may be stale.

Two readings of the code deserve a note. The protocol guide lists the reward checks without the one that the
reward is positive, and describes a solved state of the block; the code checks for a positive reward and never
leaves a block at rest in such a state: a settled block is overwritten by its successor in the same
instruction. And the guide's "the treasury wallet receives 0.01 SOL" holds of every payer but the treasury
wallet itself; see the next section.

## Where a property is false, and exactly when it holds

* The CPU workers divide the window completely if and only if `max_attempts + threads <= 2^64`
  (`CpuSearch.CoversIff`); beyond that the first worker's share wraps to zero attempts in a release build, and a
  search whose only solution is its first nonce wrongly returns nothing (`CpuSearchProof.OverflowMisanswers`;
  `CpuOverflow.LargestWindowMisanswers` is such a search, with 2 threads and 2^64 - 1 attempts).
* A GPU launch covers its window if and only if the rounded-up global size fits in 64 bits
  (`GpuSearch.AlignedLaunchCovers`).
* The windows of one round are disjoint if and only if they span at most 2^64 nonces
  (`MinerLoop.SpanDistinctIff`).
* The vault equals "emissions minus paid rewards" up to what outsiders deposit into it
  (`Emissions.VaultIsExact`, which counts deposits; `Emissions.EmissionLaw` is the case without any).
* The treasury wallet gains the 0.01 SOL of a settlement if and only if it is not the payer itself
  (`Submissions.SettlementMoves`); over a run it earns the fee on every settled block if and only if it paid for
  none of them (`Fees.FeesCompleteIff`). `Witnesses.SelfPaidHappens` is a run of three calls that settles a block
  for which the treasury wallet earns nothing.
* A live protocol can always still settle, as far as its target goes, if its maximum is below 255 bits
  (`Liveness.TargetStaysPositive`). 255 bits are accepted and mean target zero, which no hash is below; an open block
  there can ever get a positive target again if and only if there is a ttl and a minimum below 255 bits
  (`Liveness.RevivesIff`). Otherwise the vault is locked for good (`Liveness.LockedForever`);
  `Witnesses.LockHappens` is an initialisation that does so.
* A decimal string with a plus sign inside its fraction is accepted, and the sign counts as a zero digit: "1.+5" is
  read as "1.05" (`DecimalAmount.SignedFractionShifts`, with an input in `DecimalAmount.SignedFractionMisreads`).
  `DecimalAmount.AcceptedIff` says exactly which strings are accepted, and as what.
* The decimal scale is the ten-power it stands for if and only if there are at most 19 decimals
  (`DecimalAmount.ScaleExactIff`); with 20, "1" is read as 2^64 - 1 units (`DecimalAmount.SaturatedScaleMisreads`).
  Printing and reading back is the identity for every number of decimals all the same.

## Model

| member | source | states |
|---|---|---|
| Rewards.FallThroughUnreachable | onchain/programs/blockmine/src/math/rewards.rs:155-174 | the era scan finds an era for every block before Scarcity, so its fall-through is never reached |
| Rewards.ScheduleOfTable | onchain/programs/blockmine/src/math/rewards.rs:48-174 | era and reward of every block before Scarcity, as numbers of blocks and of billionths |
| Rewards.ScheduleOfScarcity | onchain/programs/blockmine/src/math/rewards.rs:136-153 | the same for the tail: 0.15 BLOC for 6,466,666 blocks, 0.1 BLOC once, then nothing |
| Rewards.RewardsNonIncreasing | onchain/programs/blockmine/src/math/rewards.rs:135-178 | rewards never rise, and are positive exactly before block 22,466,667 |
| Rewards.TotalEmissions | onchain/programs/blockmine/src/math/rewards.rs:43-178 | the prefix sum of rewards never exceeds 20,000,000 BLOC and reaches it exactly at the last rewarded block |
| Rewards.RewardWithinRemainder | onchain/programs/blockmine/src/math/rewards.rs:43-178 | every block's reward fits in what the schedule has not paid yet |
| Rewards.RewardSplitsExactly | onchain/programs/blockmine/src/instructions/submit_solution.rs:151-157 | every reward is a multiple of 100, so the 1% share leaves no dust |
| EraProgress.LinearProgressIsEraSum | miner-client/src/bin/blockmine-studio.rs:3106-3119 | the saturating per-era formula is the block-by-block sum of the on-chain rewards of that era, for every block count |
| EraProgress.ScarcityProgress | miner-client/src/bin/blockmine-studio.rs:3121-3138 | the Scarcity formula is the block-by-block sum of the tail; its final cap never cuts |
| EraProgress.EraMinedIsEraSum | miner-client/src/bin/blockmine-studio.rs:3062-3082 | each era of the re-implemented table pays what the on-chain schedule pays in it block by block, unknown eras nothing |
| EraProgress.ErasSumToEmitted | miner-client/src/bin/blockmine-studio.rs:3062-3138 | the re-implemented closed form, summed over its 15 eras, equals the block-by-block emission for every n |
| Emissions.StudioShowsDistributed | miner-client/src/bin/blockmine-studio.rs:3062-3138 | at the block count of any reachable state that sum is the total the program has recorded as distributed |
| Retarget.BitsRoundTrip | onchain/programs/blockmine/src/math/difficulty.rs:10-47 | bits to target and back is the identity on all of u8 |
| Retarget.BitsWithinBounds | onchain/programs/blockmine/src/math/difficulty.rs:34-47 | a target between the bound targets shows a bit count between the bounds |
| Retarget.BitsAtLeast | onchain/programs/blockmine/src/math/difficulty.rs:34-47 | a 256-bit target shows at least `bits` bits iff it is below 2^(256-bits) |
| Retarget.LateBlockCounts | onchain/programs/blockmine/src/math/difficulty.rs:136-145 | a late block counts for floor((3 * observed + expected) / 4) seconds, and for 8 * expected from where that exceeds it |
| Retarget.EarlyBlockCounts | onchain/programs/blockmine/src/math/difficulty.rs:130-145 | in the second half of its time a block counts for floor((7 * observed + expected) / 8) seconds |
| Retarget.HastyBlockCounts | onchain/programs/blockmine/src/math/difficulty.rs:152-154 | in the second quarter it counts for the most seconds that this and 35% of the expectation allow, and for at least one |
| Retarget.RushedBlockCounts | onchain/programs/blockmine/src/math/difficulty.rs:150-151 | in the first quarter the cap is 15% |
| Retarget.RatioValue | onchain/programs/blockmine/src/math/difficulty.rs:156-158 | the ratio is the floor of 10,000 times these seconds over the expectation |
| Retarget.NextTargetValue | onchain/programs/blockmine/src/math/difficulty.rs:159-165 | the next target is the floor of target * ratio / 10,000 between the two bound targets, and the nearer bound outside |
| Retarget.RatioBounds | onchain/programs/blockmine/src/math/difficulty.rs:130-158 | the scaling ratio lies in 666 to 80,000 basis points for all u64 times, so the outer clamp never decides |
| Retarget.RatioBoundsAttained | onchain/programs/blockmine/src/math/difficulty.rs:130-158 | both ends of that range occur |
| Retarget.RatioMonotone | onchain/programs/blockmine/src/math/difficulty.rs:130-158 | slower blocks never give a smaller ratio, across both smoothings and every emergency band |
| Retarget.NextTargetMonotone | onchain/programs/blockmine/src/math/difficulty.rs:118-173 | the next target is monotone in the observed time and in the current target together |
| Retarget.NextTargetInBounds | onchain/programs/blockmine/src/math/difficulty.rs:150-173 | the next target and its bits lie within the configured bounds |
| Retarget.NextTargetSign | onchain/programs/blockmine/src/math/difficulty.rs:130-165 | early blocks never ease, late blocks never harden; an early block strictly hardens unless the floor or a one-second expectation prevents it |
| Retarget.FastBlockQuarters | onchain/programs/blockmine/src/math/difficulty.rs:130-165 | a block found in a quarter of its time cuts the target to a quarter or to the floor |
| Difficulty.TargetFromDifficultyBits | onchain/programs/blockmine/src/math/difficulty.rs:10-28 | the byte mask denotes 2^(256-bits) - 1, and 0 for 255 bits |
| Difficulty.DifficultyBitsFromTarget | onchain/programs/blockmine/src/math/difficulty.rs:34-47 | the byte scan counts the leading zero bits of the number, capped at 255 |
| Difficulty.MultiplyTargetBe | onchain/programs/blockmine/src/math/difficulty.rs:49-69 | the schoolbook product is exact for every u32 multiplier; no u64 operation saturates and the carry prefix is complete |
| Difficulty.CarryPrefix | onchain/programs/blockmine/src/math/difficulty.rs:60-68 | the carry loop ends and its reversed bytes denote the carry |
| Difficulty.QuotientDigits | onchain/programs/blockmine/src/math/difficulty.rs:71-81 | the long division yields the floor of the quotient; no digit loses bits in its cast to a byte |
| Difficulty.DivideTargetBe | onchain/programs/blockmine/src/math/difficulty.rs:71-97 | the 32-byte result is the floor of the quotient, or 2^256 - 1 when it does not fit |
| Difficulty.ScaleTarget | onchain/programs/blockmine/src/math/difficulty.rs:99-106 | min(floor(v * n / d), 2^256 - 1) for every target and all u32 n and d, zeros counting as one |
| Difficulty.ClampTarget | onchain/programs/blockmine/src/math/difficulty.rs:108-116 | comparing arrays clamps the number |
| Difficulty.EffectiveSeconds | onchain/programs/blockmine/src/math/difficulty.rs:127-155 | the checked and saturating u128 arithmetic equals the unbounded rule: no fallback and no saturation decides, and no clamp panics |
| Difficulty.CalculateNextDifficulty | onchain/programs/blockmine/src/math/difficulty.rs:118-173 | the byte-level retarget is the integer rule, its bits are those of its target, and it reports a change exactly when the target differs |
| Bytes.LexIsNumeric | onchain/programs/blockmine/src/math/difficulty.rs:30-32 | lexicographic order of equally long byte strings is numeric order |
| Program.Blockmine.InitializeProtocol | onchain/programs/blockmine/src/instructions/initialize_protocol.rs:70-196 | the handler with its account constraints performs exactly the initialisation step or changes nothing, with the step's error |
| Setup.InitializeCommitsIff | onchain/programs/blockmine/src/instructions/initialize_protocol.rs:70-104 | the exact conditions under which an initialisation is accepted, with the fixed values as numbers |
| Setup.InitializeRejectsFirst | onchain/programs/blockmine/src/instructions/initialize_protocol.rs:70-104 | every error names the first condition that is violated, in the order of the checks |
| Setup.InitializedRecords | onchain/programs/blockmine/src/instructions/initialize_protocol.rs:114-195 | every configured field is the argument of its name, all counters are zero, and block 0 is open from now on, unsolved and announced |
| Setup.OpeningTargetValue | onchain/programs/blockmine/src/instructions/initialize_protocol.rs:87-88 | the opening target is 2^(256-bits) - 1, and 0 for 255 bits |
| Program.Blockmine.RegisterMiner | onchain/programs/blockmine/src/instructions/register_miner.rs:27-50 | registration performs exactly its step on a fresh, zeroed or existing record |
| Program.Blockmine.UpdateNickname | onchain/programs/blockmine/src/instructions/update_nickname.rs:24-33 | renaming performs exactly its step |
| Submissions.RegistrationWrites | onchain/programs/blockmine/src/instructions/register_miner.rs:27-50 | whoever can sign can register; a new record is empty but for the name, an old one keeps all but a name replaced by a non-zero one |
| Submissions.RenamingWrites | onchain/programs/blockmine/src/instructions/update_nickname.rs:24-33 | only a registered miner is renamed, and nothing but the name changes |
| Program.Blockmine.CheckSubmission | onchain/programs/blockmine/src/instructions/submit_solution.rs:101-136 | the checks, made on bytes, give the first error that the numeric statement gives, or the proof hash |
| Program.Blockmine.PayShares | onchain/programs/blockmine/src/instructions/submit_solution.rs:138-192 | fee, miner share and treasury share are paid in this order from whichever accounts coincide, or the first failing transfer is reported |
| Program.ComputeTreasuryFee | onchain/programs/blockmine/src/instructions/submit_solution.rs:151-157 | the u128 share: its product never overflows, its truncation is modelled |
| Program.Blockmine.CreditMiner | onchain/programs/blockmine/src/instructions/submit_solution.rs:194-206 | the record after three checked additions, or an overflow |
| Program.Blockmine.CountBlock | onchain/programs/blockmine/src/instructions/submit_solution.rs:231-241 | the totals after three checked additions, or an overflow |
| Program.Blockmine.Adjust | onchain/programs/blockmine/src/instructions/submit_solution.rs:243-269 | the stored bytes become the retargeted number's encoding, announced exactly when they change |
| Program.Blockmine.OpenNext | onchain/programs/blockmine/src/instructions/submit_solution.rs:285-316 | the successor block is open with its expiry while a reward is left and closed and empty afterwards |
| Program.Blockmine.Succeed | onchain/programs/blockmine/src/instructions/submit_solution.rs:243-319 | retarget, next challenge and next block together give the successor that the settlement step prescribes, or an overflow |
| Program.Blockmine.Settle | onchain/programs/blockmine/src/instructions/submit_solution.rs:138-319 | behind the checks, the statements leave exactly the settled state, or the settlement's error |
| Program.Blockmine.ProcessSubmission | onchain/programs/blockmine/src/instructions/submit_solution.rs:85-319 | the whole settlement, mutated step by step, commits exactly the settlement step or reports its error |
| Timing.SubmissionsRetarget | onchain/programs/blockmine/src/instructions/submit_solution.rs:245-269 | after every committed submission the block carries the retarget for the seconds from its opening to now, the next number and the current time |
| Timing.LateBlocksEase | onchain/programs/blockmine/src/instructions/submit_solution.rs:246-257 | in clock times: a block that took at least the target block time never lowers the target, one that took at most that never raises it, one that took less lowers it above its floor |
| Timing.OpeningsAreStamped | onchain/programs/blockmine/src/instructions/submit_solution.rs:285-316 | settlement, rotation and initialisation stamp the block with their time; every other command leaves block and config alone |
| Announcements.SettlementRecorded | onchain/programs/blockmine/src/instructions/submit_solution.rs:194-316 | the miner's record, and the next block field by field: open on the new challenge at the next reward, or closed and empty after the last |
| Announcements.SettlementAnnounced | onchain/programs/blockmine/src/instructions/submit_solution.rs:214-309 | the events of a settlement: solved, adjusted iff the target changed, opened iff a reward is left |
| Program.Blockmine.SubmitSolution | onchain/programs/blockmine/src/instructions/submit_solution.rs:65-83 | a direct submission commits wholly or changes nothing |
| Program.Blockmine.AuthorizeSession | onchain/programs/blockmine/src/instructions/session_mining.rs:90-124 | authorisation overwrites the miner's session with an unused active one, or reports why not |
| Sessions.AuthorizeCommitsIff | onchain/programs/blockmine/src/instructions/session_mining.rs:95-102 | an authorisation is accepted iff the miner signs, the delegate is not the default key and the expiry is absent or in the future |
| Sessions.AuthorizeRejectsFirst | onchain/programs/blockmine/src/instructions/session_mining.rs:95-102 | each of its errors names the first violated condition |
| Sessions.FreshSessionAdmits | onchain/programs/blockmine/src/instructions/session_mining.rs:104-138 | a new session is unused, dated now, and passes the session checks for its delegate alone, until it expires |
| Sessions.FreshDelegateCommitsIff | onchain/programs/blockmine/src/instructions/session_mining.rs:126-174 | a fresh delegate settles what the verdict allows, exactly until the expiry |
| Program.Blockmine.SubmitWithSession | onchain/programs/blockmine/src/instructions/session_mining.rs:126-174 | a delegated submission settles and uses the session once, or changes nothing |
| Program.Blockmine.RotateStaleBlock | onchain/programs/blockmine/src/instructions/rotate_stale_block.rs:23-123 | a rotation performs exactly its step or changes nothing, with the step's error |
| Announcements.RotationRecorded | onchain/programs/blockmine/src/instructions/rotate_stale_block.rs:61-89 | the rotated block field by field: next number, challenge, easiest target, same reward, current time, new expiry |
| Announcements.RotationAnnounced | onchain/programs/blockmine/src/instructions/rotate_stale_block.rs:60-120 | the three events of a rotation; the block was open for longer than the ttl |
| Runs.ReachableInv | onchain/programs/blockmine/src/instructions/submit_solution.rs:85-319 | the invariant (custody, exact counters, agreement, phase, credits, quotas, log) holds after any commands at any times from any ledgers with a u64 supply |
| Runs.ReachableNext | onchain/programs/blockmine/src/lib.rs:15-55 | an instruction leads from a reachable state to a reachable one, committed or not |
| Runs.DifficultyAgrees | onchain/programs/blockmine/src/instructions/submit_solution.rs:256-288 | config and block agree on number, bits and target; the target lies between its bounds and shows the stored bits |
| Emissions.VaultIsExact | onchain/programs/blockmine/src/instructions/submit_solution.rs:132-192 | over every run the vault holds the fixed emissions minus the scheduled rewards of the settled blocks plus outside deposits |
| Emissions.EmissionLaw | onchain/programs/blockmine/src/instructions/submit_solution.rs:231-316 | the distributed total is the prefix sum, and the block is closed iff 22,466,667 blocks are settled iff the vault is empty |
| Emissions.BooksBalance | onchain/programs/blockmine/src/instructions/submit_solution.rs:194-241 | miner records, treasury share and events add up to the counters; the split is exactly 1:99; each record is what the events say the miner won; the announced submit fees are 10,000,000 per settled block |
| Fees.FeesMove | onchain/programs/blockmine/src/instructions/submit_solution.rs:138-149 | over every run payers lose and the treasury wallet gains 10,000,000 lamports for every settled block that the treasury did not pay for itself |
| Fees.FeesCompleteIff | onchain/programs/blockmine/src/instructions/submit_solution.rs:138-149 | the treasury earns the fee on every settled block iff it paid for none of them |
| Witnesses.SelfPaidRun | onchain/programs/blockmine/src/instructions/submit_solution.rs:138-149 | wherever hashes fall below the opening target, the treasury wallet can register, mine the first block and earn no fee for it |
| Witnesses.SelfPaidHappens | onchain/programs/blockmine/src/instructions/submit_solution.rs:138-149 | one concrete such run: one block settled, one settlement self-paid, no fee received |
| Emissions.SupplyConservedByRuns | onchain/programs/blockmine/src/instructions/submit_solution.rs:159-192 | no run changes the total number of tokens |
| Submissions.WindowsPartition | onchain/programs/blockmine/src/instructions/submit_solution.rs:103-113 | with a ttl an open block is at any time in exactly one of the submit and the rotate window; without one it is always open to submissions |
| Submissions.ProcessedByVerdict | onchain/programs/blockmine/src/instructions/submit_solution.rs:103-319 | which error a submission meets, exactly: pause, reward consistency, vault balance, token transfers and counters never reject |
| Submissions.DefensiveChecksUnreachable | onchain/programs/blockmine/src/instructions/submit_solution.rs:103-136 | in reachable states neither submissions nor rotations meet the pause, reward-state, remaining-reward or vault-balance errors, nor a failing token transfer |
| Submissions.SubmissionCommitsIff | onchain/programs/blockmine/src/instructions/submit_solution.rs:65-319 | the exact conditions under which a submission commits in a reachable state |
| Submissions.SettlementMoves | onchain/programs/blockmine/src/instructions/submit_solution.rs:138-206 | what every token account and every SOL address gains or loses in a settlement, whichever coincide; the treasury gains the fee iff it is not the payer; only the miner's record grows |
| Submissions.RotationCommitsIff | onchain/programs/blockmine/src/instructions/rotate_stale_block.rs:28-54 | the exact conditions under which a rotation commits in a reachable state |
| Submissions.RotatedByVerdict | onchain/programs/blockmine/src/instructions/rotate_stale_block.rs:28-59 | the exact error of every rotation of a reachable state |
| Submissions.RotationKeepsEmissions | onchain/programs/blockmine/src/instructions/rotate_stale_block.rs:55-89 | a rotation leaves ledgers, records, sessions, all three emission counters and the open reward alone, and never hardens the target |
| Submissions.NumberCountsOpenings | onchain/programs/blockmine/src/instructions/rotate_stale_block.rs:50-75 | the block number is the number of settlements plus the number of rotations |
| Submissions.RegistrationKeepsRecords | onchain/programs/blockmine/src/instructions/register_miner.rs:27-50 | registering again changes no counter of any miner |
| Sessions.SessionQuotaHolds | onchain/programs/blockmine/src/instructions/session_mining.rs:104-171 | a session counts exactly the delegated settlements since its authorisation, is active iff its quota is not used up, and never lets more through |
| Sessions.DelegateCommitsIff | onchain/programs/blockmine/src/instructions/session_mining.rs:126-174 | the exact conditions under which a delegated submission commits; the inner quota check and the use counter never decide |
| Sessions.DelegatedByVerdict | onchain/programs/blockmine/src/instructions/session_mining.rs:126-174 | the exact error of every delegated submission of a reachable state |
| Sessions.UseWrites | onchain/programs/blockmine/src/instructions/session_mining.rs:164-171 | a use is counted and dated, the last one closes the session, no other session changes |
| Challenges.ChallengesDistinct | onchain/programs/blockmine/src/instructions/submit_solution.rs:273-283 | unless the hash collides on the challenge strings of the run's committed calls, no challenge is opened twice |
| Challenges.ChallengesAreNotProofs | onchain/programs/blockmine/src/instructions/rotate_stale_block.rs:61-70 | unless it collides on those and the proof strings that submissions got as far as hashing, no challenge equals the hash of any of these proofs |
| Preimages.ProofLayout | onchain/programs/blockmine/src/instructions/submit_solution.rs:126 | what stands at each offset of the 72 bytes of a proof, the nonce read back as a number |
| Preimages.GenesisLayout | onchain/programs/blockmine/src/instructions/initialize_protocol.rs:105-112 | the same for the 97 bytes of the genesis challenge |
| Preimages.NextLayout | onchain/programs/blockmine/src/instructions/submit_solution.rs:273-283 | the same for the 142 bytes of a settlement challenge |
| Preimages.RotateLayout | onchain/programs/blockmine/src/instructions/rotate_stale_block.rs:61-70 | the same for the 118 bytes of a rotation challenge |
| Preimages.NextOpens | onchain/programs/blockmine/src/instructions/submit_solution.rs:273-283 | the number of the opened block can be read back from the 142 bytes of a settlement challenge |
| Preimages.RotateOpens | onchain/programs/blockmine/src/instructions/rotate_stale_block.rs:61-70 | the same for the 118 bytes of a rotation challenge |
| Convergence.FastRunQuarters | onchain/programs/blockmine/src/instructions/submit_solution.rs:246-257 | after k fast settlements the target is quartered k times or on its floor |
| Convergence.FastBlocksReachMaximum | onchain/programs/blockmine/src/math/difficulty.rs:150-165 | 128 settlements within a quarter of the expected time, none lost to a rotation, bring any reachable state to maximum difficulty |
| Liveness.TargetStaysPositive | onchain/programs/blockmine/src/math/difficulty.rs:108-116 | with fewer than 255 maximum bits every reachable live state has a positive target |
| Liveness.FastBlocksReachZero | onchain/programs/blockmine/src/math/difficulty.rs:10-13 | with 255 maximum bits 128 fast settlements bring the target to zero |
| Liveness.OpeningTargetZeroIff | onchain/programs/blockmine/src/instructions/initialize_protocol.rs:81-88 | an accepted initialisation opens at target zero iff it asks for 255 bits |
| Liveness.LockedForever | onchain/programs/blockmine/src/instructions/submit_solution.rs:126-131 | at target zero, without a ttl or with a minimum of 255 bits, no command ever settles a block or takes from the vault again; without a ttl config and block never change |
| Liveness.RevivesIff | onchain/programs/blockmine/src/instructions/rotate_stale_block.rs:32-54 | an open block at target zero can ever get a positive target iff there is a ttl and a minimum below 255 bits, as long as a block number and an expiry are left |
| Witnesses.LockHappens | onchain/programs/blockmine/src/instructions/initialize_protocol.rs:70-196 | one concrete initialisation, reachable, after which every run stands still |
| Ledger.TransferMoves | onchain/programs/blockmine/src/instructions/submit_solution.rs:159-192 | a token transfer moves exactly the amount, keeps owners and supply, and moves nothing between an account and itself |
| Hashing.ComputeSolutionHashFromPayload | miner-client/src/hashing.rs:16-19 | the re-used buffer hashes to the proof hash of its nonce whatever nonce it held before |
| Hashing.ComputeSolutionHash | miner-client/src/hashing.rs:4-14 | the miner hashes the bytes the program hashes |
| Hashing.HashMeetsTarget | miner-client/src/hashing.rs:21-23 | the miner's comparison is the program's |
| CpuSearch.CoversIff | miner-client/src/engine/cpu.rs:75-86 | the workers' shares cover the window iff attempts and threads together stay within 2^64 |
| CpuSearch.SharesDisjoint | miner-client/src/engine/cpu.rs:75-108 | no two attempts of the workers share an offset |
| CpuWorker.RunWorker | miner-client/src/engine/cpu.rs:88-112 | the worker's loop sends its first solving nonce, or Exhausted after its last attempt or the first stop it sees |
| CpuSearchProof.SearchVerdict | miner-client/src/engine/cpu.rs:64-141 | for any thread count and schedule a returned solution is valid, and None is returned only when every attempt of every worker failed; all workers have ended |
| CpuSearchProof.SearchAnswers | miner-client/src/engine/cpu.rs:64-141 | within the covering bound the search returns None iff no nonce of the wrapped window solves |
| CpuSearchProof.OverflowMissesStart | miner-client/src/engine/cpu.rs:82-86 | beyond the bound the first nonce is nobody's, on every schedule |
| CpuSearchProof.OverflowMisanswers | miner-client/src/engine/cpu.rs:82-86 | if that nonce is the only solution, returning nothing is the wrong answer |
| CpuOverflow.LargestWindowMisanswers | miner-client/src/engine/cpu.rs:82-86 | two threads over 2^64 - 1 attempts return nothing although the start nonce solves, on an explicit hash and a schedule that ends |
| CpuSearchProof.SchedulesEnd | miner-client/src/engine/cpu.rs:64-141 | no schedule is longer than threads * (2 * max_attempts + 5) + 3 steps |
| CpuSearchProof.SearchProgresses | miner-client/src/engine/cpu.rs:115-141 | the search never gets stuck before it returns, and its closed-channel branch is unreachable |
| CpuSearchProof.SearchCanReturn | miner-client/src/engine/cpu.rs:64-141 | every schedule can be continued to one on which the search returns |
| GpuSearch.FloorPowerOfTwo | miner-client/src/engine/gpu.rs:550-556 | the largest power of two not above the value |
| GpuSearch.LocalWorkSizeIsLargest | miner-client/src/engine/gpu.rs:520-547 | a size is chosen iff device, capacity and request (or 256) allow at least 2, and it is the largest power of two they allow |
| GpuSearch.AlignedLaunchCovers | miner-client/src/engine/gpu.rs:559-565 | the global size is the least multiple of the local size covering the window, iff that multiple fits in u64 |
| GpuSearch.SingleWriter | miner-client/src/engine/gpu.rs:691-734 | at any moment at most one work item has won the race, and one has iff the flag is set |
| GpuSearch.LaunchAnswers | miner-client/src/engine/gpu.rs:691-734 | for every interleaving a covering launch reports a result iff some nonce of the window solves, with nonce and hash belonging together |
| GpuSearch.GpuSearchAnswers | miner-client/src/engine/gpu.rs:283-384 | the same for the launch the host configures |
| GpuSearch.SchedulesEnd | miner-client/src/engine/gpu.rs:691-734 | in every schedule of a launch no work item takes more than 37 steps, so no schedule is longer than 37 per item |
| GpuSearch.LaunchProgresses | miner-client/src/engine/gpu.rs:691-734 | an item that has not ended can always move, whatever the others do |
| Fips180.ConstantsAreCubeRoots | miner-client/src/engine/gpu.rs:569-586 | the kernel's table holds the first 32 fractional bits of the cube roots of the first 64 primes, as section 4.2.2 of FIPS 180-4 defines it |
| Fips180.InitialHashIsSquareRoots | miner-client/src/engine/gpu.rs:615-622 | the initial values are those of the square roots of the first eight primes (section 5.3.3) |
| Fips180.SplitJoin | miner-client/src/engine/gpu.rs:629-676 | splitting a word into bytes undoes joining four bytes |
| WordBits.BigSigmaBits | miner-client/src/engine/gpu.rs:591-592 | every bit of the two large sigmas is the sum modulo 2 of three bits of the argument, at the distances of section 4.1.2 around the word |
| WordBits.SmallSigmaBits | miner-client/src/engine/gpu.rs:593-594 | the same for the small sigmas, whose third distance is a shift |
| WordBits.ChBits | miner-client/src/engine/gpu.rs:589 | Ch selects bit by bit |
| WordBits.MajBits | miner-client/src/engine/gpu.rs:590 | Maj is the bitwise majority |
| PublishedDigest.PublishedExample | miner-client/src/engine/gpu.rs:596-677 | the published two-block example of SHA-256, all 128 rounds of it: padding, schedule, rounds, chaining and output give exactly its 32 bytes |
| GpuKernel.SameSigmas | miner-client/src/engine/gpu.rs:588-594 | the kernel's own rotations and sigmas are those of the standard |
| GpuKernel.PadMessage | miner-client/src/engine/gpu.rs:597-613 | the fixed padding is the standard's padding of a 72-byte message (section 5.1.1) |
| GpuKernel.FillSchedule | miner-client/src/engine/gpu.rs:625-636 | the in-place message schedule is the recursive one (section 6.2.2) |
| GpuKernel.Scramble | miner-client/src/engine/gpu.rs:638-657 | 64 rounds on rotating variables are the standard's compression |
| GpuKernel.Sha256Fixed72 | miner-client/src/engine/gpu.rs:596-677 | the kernel's digest is SHA-256 of every 72-byte message |
| GpuKernel.HashLtTarget | miner-client/src/engine/gpu.rs:679-689 | the comparison loop returns 1 iff the hash is numerically below the target |
| GpuKernel.TryNonce | miner-client/src/engine/gpu.rs:701-727 | a work item digests the bytes the program hashes for its nonce and wins iff the program would accept it; this is the digest step of the launch model |
| MinerLoop.BuildJobs | miner-client/src/miner_loop.rs:186-220 | every engine gets its batch size and the nonces right after its predecessor's, for the same proof |
| MinerLoop.CollectRound | miner-client/src/miner_loop.rs:76-128 | in any arrival order: the first failure to arrive ends the round; otherwise all are reported, the fastest solution wins, first arrival on ties, and the next nonce follows the span |
| MinerLoop.RoundAnswers | miner-client/src/miner_loop.rs:76-128 | if the engines answer for their windows, the round finds nothing iff nothing in its whole span solves |
| MinerLoop.SpanDistinctIff | miner-client/src/miner_loop.rs:186-220 | the nonces of a round are pairwise different iff its span is at most 2^64 |
| Rounds.EngineAnswers | miner-client/src/engine/mod.rs:57-61 | a CPU or GPU engine, run to its end under any schedule, answers for its window as long as its arithmetic fits in 64 bits |
| Rounds.RealRoundAnswers | miner-client/src/miner_loop.rs:76-128 | a round of such engines finds nothing iff nothing in its whole span solves, and what it finds lies in the span and solves |
| Rounds.NextRoundInput | miner-client/src/miner_loop.rs:84-86 | the next nonce a round hands on starts the next round where this one ended |
| Rounds.RoundsExhaust | miner-client/src/miner_loop.rs:76-128 | rounds in a row all find nothing iff the union of their spans holds no solution; once that is the whole nonce space, no nonce solves |
| Mining.AnswerSettles | onchain/programs/blockmine/src/instructions/submit_solution.rs:126-131 | against a reachable state a found nonce settles as soon as the submission is otherwise ready, and when nothing is found no nonce of the window settles |
| Mining.SearchSettles | miner-client/src/engine/cpu.rs:64-141 | the multi-threaded search returns None iff no nonce of its window would settle the open block |
| DecimalAmount.ParseDecimalAmount | miner-client/src/bin/blockmine-studio.rs:2900-2938 | the padding loop and the checked recombination compute the parse function, error cases included |
| DecimalAmount.FormatDecimalAmountTrimmed | miner-client/src/bin/blockmine-studio.rs:2940-2960 | the trimming loop computes the print function |
| DecimalAmount.RoundTrip | miner-client/src/bin/blockmine-studio.rs:2900-2960 | reading what was printed gives the amount back, for every u64 and every number of decimals |
| DecimalAmount.PrintedShort | miner-client/src/bin/blockmine-studio.rs:2940-2960 | the print has no leading zeros, no trailing zeros in the fraction and no point without one; with the round trip this determines it |
| DecimalAmount.AcceptedIff | miner-client/src/bin/blockmine-studio.rs:2900-2938 | a string is accepted as a given amount iff it is blank and the amount zero, or it spells the amount: which whole parts, separators and fractions are taken, and what they denote |
| DecimalAmount.TrimAround | miner-client/src/bin/blockmine-studio.rs:2901 | trimming removes exactly the white space around a string |
| DecimalAmount.AmountMeaning | miner-client/src/bin/blockmine-studio.rs:2900-2938 | digits, a point or comma and digits are read as whole * scale + fraction * 10^(missing places) when that fits in u64; otherwise refused, as invalid if a part is out of range and as too large if only the sum is |
| DecimalAmount.SurplusDigitsRefused | miner-client/src/bin/blockmine-studio.rs:2917-2919 | a fraction longer than the decimals is refused as such, zeros or not |
| DecimalAmount.SignedFractionShifts | miner-client/src/bin/blockmine-studio.rs:2923-2933 | a plus sign in the fraction is read as a zero digit |
| DecimalAmount.SignedFractionMisreads | miner-client/src/bin/blockmine-studio.rs:2923-2933 | with 9 decimals "1.+5" is read as 1,050,000,000 units |
| DecimalAmount.ScaleExactIff | miner-client/src/bin/blockmine-studio.rs:2921 | the saturating scale is exact iff there are at most 19 decimals |
| DecimalAmount.SaturatedScaleMisreads | miner-client/src/bin/blockmine-studio.rs:2921-2937 | with 20 decimals "1" is read as 2^64 - 1 units |

## Left out

- Records are values in the fields of one class, replaced as a whole by a field update: the runtime hands the handlers deserialised copies, so there is no aliasing between records to model.
- Account plumbing: program-derived addresses, bumps, padding, rent, cross-program calls and signature checking are replaced by keys that can or cannot sign; the default key and the vault authority cannot.
- Only token accounts of the BLOC mint exist in the model; mint and freeze authorities, decimals checks of transfers and the separate mint supply are not part of it.
- Submissions.SubmissionCommitsIff: token accounts of the model are opened, credited and debited but never closed or handed to another owner, so its exact conditions do not mention a treasury account that its owner has closed, which would reject every settlement.
- SOL balances are unbounded naturals; transaction fees and rent do not appear.
- Clock readings are non-negative; nothing is assumed about their order.
- Era names and the events `ProtocolInitialized`, `MinerRegistered`, `NicknameUpdated` and `MiningSessionAuthorized` carry no amounts and are not recorded.
- `instructions/admin.rs` is not routed by the program; its handlers are not instructions of the model.
- The order in which the runtime evaluates account constraints of one instruction is fixed to the declared order; which of several violated constraints is reported first is not otherwise modelled.
- CPU workers: thread affinity and the benchmark loops; spawning is not a step of its own, an unspawned worker is one that has not moved. Attempts are computed as in a build without overflow checks.
- CpuWorker.RunWorker: the values the stop flag shows are a parameter; the interleaving is the subject of CpuSearch.
- GPU host: building the runtime, buffers and queues, and re-using a runtime for a smaller capacity. A launch is modelled from the reset of the found flag to the read-back.
- Fips180.SplitJoin: words are joined from and split into bytes as bit strings on both sides; that a joined word equals the big-endian number of its bytes is not stated.
- Engines' solutions carry no backend tag; elapsed times are parameters, not clocks.
- MinerLoop: an engine is represented by its kind and its answer; calling it is not modelled.
- DecimalAmount: lengths are counted in characters, not UTF-8 bytes; the two differ only on strings that are refused in either case, possibly with a different message.
- RPC, relay, wallet, user interface, hash-rate statistics and packaging code.
