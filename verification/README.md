# DNA: ledger, wallet, explorer and trust tools

A Dafny model of the parts of this repository where a wrong branch costs
money or trust, and proofs about them over every input and every run.

- **Nodus ledger (Ledger V2).** Blocks of items and epoch boundaries over
  coins, bonds, delegations, the reward pool, accruals and allocations:
  spend, burn, stake, unstake, delegate, undelegate, commission change,
  claim; settlement of `pool >> 16`, payday, graduation, Rule N with its
  voting-power floor, frozen balance copies, committee snapshots and
  attendance. `Ledger`, `Transactions`, `Settlement`, `Ranking`, `Committee`
  and `Boundary` say what each step does; `Node` is the same ledger as a class
  over its tables, with the source's loops, savepoints and rollback, proved
  equal to it. `Invariant`, `Frames`, `ItemProofs`, `BoundaryProofs` and
  `Runs` carry one invariant through every step. What the steps amount to is
  said without naming them: `Acceptance` (when an item is applied),
  `Authority` (who may change what), `Rewards` and `Income` (what a boundary
  pays), `Seating` (who is seated), `Votes` (the bar by the votes), `Limits`
  (minimums and locks). `Guarantees`, `Misses`, `AttendanceBar`,
  `QuorumEpoch`, `Principal`, `Exit` and `Commission` draw the consequences.
  `PowerCap` is the HF-6 cap.
- **Replay relation.** `Replay`: a pruned table against the whole history.
- **Web wallet.** `Wallet` (payments and resends), `SealCounter` (history
  seals), `CoinSelect` (largest-first coin choice).
- **Messenger configuration.** `CStrings`, `Config`, `ConfigRead`, `Tokens`,
  `ConfigFile`: the parser, printer and migration of `dna_config.c`, in place
  on arrays.
- **Explorer.** `IndexFold`, `IndexRows`, `CoinRows`, `Pages`, `ChainReset`,
  `Explorer`: page assembly, one transaction a height, consumed-coin
  resolution, chain resets.
- **Trust tools (qgp).** `DebVersion`, `VersionLaws`, `TrustBody`, `TrustFile`,
  `TrustChain`, `TrustRules`, `TrustDir`, `Packages`: Debian version order, the
  canonical trust body, the file layout, the chain of accepted files and the
  version rule.

`dafny verify dfyconfig.toml` checks everything.

Parameters instead of the outside world: the committee tie-break (a digest of
the epoch), the commit votes and items of each block, the answers a wallet or
the explorer gets, where a save or a transaction stops, file contents, the
digest and the signature check. An epoch is 720 blocks; bond, seats, fees and
the payout interval are parameters of the chain. Coin ids are the data they
are hashed from.

Where code and documentation differ, the code is modelled:

- A coin id is a digest of its owner and a seed the sender chooses, and the
  ledger keeps no table of spent ids, so a spent id can be created again
  (`Transactions.SpentIdReturns`). The explorer takes every id to be created
  once; a consumed row shows the oldest creation
  (`CoinRows.ShowsTheOlder`), and `CoinRows.ShowsConsumed` says exactly when
  that is the coin consumed.
- The wallet takes a coin once spent to be spent for good, and two attempts
  that share a coin to exclude each other. One that is created again lets the
  second attempt in (`Wallet.MadeAgain`); `Wallet.RevivalRule` says exactly
  when making a coin does harm.
- The wallet's rule that a resend before `expired` reuses the same coins is
  stated for one record (`resendInputs`). With two attempts of one payment it
  does not suffice (`Wallet.PaidTwice`); `Wallet.ResendRule` says exactly when
  it does, over the worlds a wallet can reach. Nothing under `web-wallet/src`
  calls it.
- The same rule says "exactly the same coins"; the builder may take fewer of
  them, but always the largest (`Wallet.PlannerBuilds`), which is what makes
  two attempts conflict.
- The settings written to disk do not always come back: a node cut at 63 bytes
  just after a space loses it (`Config.CutAfterSpace`, `Config.SecondLoad`).
- The version comparison's comment says a missing revision comes before every
  revision that is not zero; one that begins with a tilde comes before it
  (`DebVersion.AbsentRevision`).
- The explorer's `applied_count` is checked by `--verify-index` and by nothing
  before it (`IndexFold.VerifyIff`).

## Model

| member | source | states |
|---|---|---|
| `Runs.GenesisHolds` | nodus/src/witness/nodus_witness_v2_gen.c:1085-1175 | The committed genesis satisfies the ledger invariant: supply balanced, copy(0) and the sets of epochs 0 and E built from rows that still have their bonds. |
| `Runs.RunKeeps` | nodus/src/witness/nodus_witness_v2_apply.c:6645-6700 | Every state any run of blocks reaches satisfies the invariant, refused items and boundaries included. |
| `Guarantees.SupplyConserved` | dnac/README.md:605-609 | Over every run, genesis − burned equals coins + bonds + delegations + pool + accruals + unclaimed allocations + reserves, and the burned total never falls. |
| `Guarantees.EarningLocked` | dnac/README.md:226-231 | At every boundary H, position by position, the balance that earns (frozen at H − 3E) is at most what is still staked plus release coins locked for at least ten more epochs; for a bond, 82 more. |
| `Guarantees.EarningNotSpendable` | dnac/README.md:345-348 | System-wide: everything that earns at H, everything anybody can spend within ten epochs of it, the pool, accruals, claims, reserves and burns together fit the genesis supply, so no unit both earns and is spendable. |
| `Principal.NothingTaken` | dnac/README.md:523-524 | Over every run, an owner's coins, stakes, returning bonds, accruals and allocations together never shrink in blocks whose items the owner did not sign; Rule N, settlement and graduation take from nobody. |
| `Principal.RunAccounts` | dnac/README.md:605-609 | Over every run and for every owner, to the unit: what it has is what it had, less the coins it spent, plus the outputs, bonds and stakes items made for it, plus what its seats and stakes earned. |
| `Principal.ItemAccounts` | nodus/src/witness/nodus_witness_rt_native.c:2984-3114 | The same for every applied item of every kind; an owner who did not sign it spent nothing. |
| `Principal.ItemGrows` | nodus/src/witness/nodus_witness_rt_native.c:2984-3114 | No item takes from an owner who did not sign it, whoever funds it. |
| `Principal.BoundaryGrows` | nodus/src/witness/nodus_witness_v2_epoch.c:2188-2412 | A boundary gives every owner exactly its reward: payday, graduation and Rule N move nobody's money to anybody else. |
| `Principal.StakesReturn` | nodus/src/witness/nodus_witness_v2_epoch.c:543-709 | A graduation gives every delegator exactly its stake back as a coin, and nobody else anything. |
| `Principal.BondReturns` | nodus/src/witness/nodus_witness_v2_epoch.c:740-1106 | A graduation gives the bond to its destination in full, and to nobody else. |
| `Exit.ExitCompletes` | dnac/README.md:526-538 | Over every run, a validator that is leaving, of its own will or by Rule N, has its whole bond back, locked 84 epochs, at the first boundary or at the second. |
| `Exit.BoundaryExit` | nodus/src/witness/nodus_witness_v2_epoch.c:740-1106 | One boundary: a leaving row without a seat in the set taking effect graduates, one with a seat stays as it is, and neither is seated in the next set. |
| `Commission.CommissionAt` | dnac/README.md:247-248 | Over any run in which no item signed by the validator asks for another, its commission changes exactly when a boundary at or past the effective height is crossed. |
| `Commission.UpdateTakesEffect` | nodus/src/witness/nodus_witness_rt_native.c:7553-7675 | Over every run: a raise accepted in block h is in effect exactly from the first boundary at or past h + 2E, and anything else at once, whatever raise was waiting, as long as the validator asks for nothing newer. |
| `Commission.StakeTakesEffect` | nodus/src/witness/nodus_witness_rt_native.c:6837-7010 | Over every run: the commission a key is staked with is its commission from that block on, until it asks for another. |
| `Guarantees.SeatsStayBonded` | dnac/README.md:526-538 | In every reachable state each member of the set in effect and of the set already frozen for the next epoch still has exactly the bond its seat was given. |
| `Guarantees.StayingSeat` | nodus/src/witness/nodus_witness_committee.c:318-599 | A member of the set taking effect that has not asked to leave is a candidate of the next set. |
| `Guarantees.OneStays` | nodus/src/witness/nodus_witness_v2_epoch.c:2188-2412 | One such member is enough for the whole boundary to go through. |
| `Guarantees.NoExitNoFault` | dnac/README.md:496-508 | Without voluntary exits no run ever faults: the frozen set never becomes empty, whatever Rule N does. |
| `Guarantees.RetirementSafe` | dnac/README.md:496-508 | A boundary that auto-retires anybody stores a next set of at least four members with power that commits without any single one of them. |
| `Guarantees.PoolDecay` | dnac/README.md:220-235 | Over any run the pool keeps at least (65535/65536)^k of what it had, k the boundaries crossed. |
| `Guarantees.PoolAccounts` | nodus/src/witness/nodus_witness_v2_epoch.c:2188-2412 | Over every run the pool and everything settlement credited equal the opening pool and the fees paid in. |
| `Guarantees.CreditedAtMost` | explorer/README.md:367 | Over any run that pays no fee, claims and refused items included, the total credited is at most pool · (1 − (65535/65536)^k), the explorer's closed form, by cross-multiplication. |
| `BoundaryProofs.BoundaryKeeps` | nodus/src/witness/nodus_witness_v2_epoch.c:2188-2412 | A boundary faults if and only if none of the validators bonded when its block began is tenured with stake in the copy frozen one epoch before; otherwise the invariant holds again at its end. |
| `BoundaryProofs.BoundaryLeaves` | nodus/src/witness/nodus_witness_v2_epoch.c:1881-2412 | After a boundary a bonded row is ACTIVE if and only if it has a seat of the set taking effect, the attendance of the new epoch is empty, the next set is stored, and copy(h) is the balances as they stand. |
| `ItemProofs.ItemKeeps` | nodus/README.md:503 | Every item, applied or refused and rolled back, keeps the invariant. |
| `Transactions.PaySum` | nodus/src/witness/nodus_witness_rt_native.c:2984-3114 | A funded item moves exactly its fee and what it funds out of the coins. |
| `Transactions.PayCoins` | nodus/src/witness/nodus_witness_rt_native.c:3591-3824 | It touches no coin that is still locked and creates only plain outputs with no lock. |
| `Transactions.SpentIdReturns` | nodus/src/witness/nodus_witness_rt_native.c:2801-2813 | Once spent, and unless the same item makes it anew, an output's id passes every check on outputs again. |
| `Acceptance.AppliedIff` | nodus/README.md:503 | An item is applied if and only if it is funded, signed by the key it speaks for and meets its kind's conditions, all in numbers: nothing acceptable is refused. |
| `Acceptance.FundedIff` | nodus/src/witness/nodus_witness_rt_native.c:2984-3114 | The funding leg is taken if and only if 1 to 15 coins that exist, are unlocked and belong to signers pay exactly for up to 16 new outputs, a fee of at least 0.01 and what is bought; then the spent coins are gone, the outputs there, the rest untouched. |
| `Authority.OnlySigned` | nodus/src/witness/nodus_witness_rt_native.c:1697-1715 | Over every run: a validator is Retiring, a row is staked or re-bonded, a delegation grows or shrinks and a coin is gone only through an item the validator, the delegator or the coin's owner signed, or, for bond and delegation, at a boundary the leaving validator left at. |
| `Authority.ItemMoves` | nodus/src/witness/nodus_witness_rt_native.c:7310-7367 | One item moves a row's own columns only by that key's signed leave, stake or terms, and a position only by its delegator's signed amount. |
| `Limits.RunFits` | nodus/src/witness/nodus_witness_rt_native.c:7098-7279 | Over every run no position is below 100 coins, no validator has more than 2048 delegators, and every coin is locked for exactly what its kind says: bonds 84 epochs from their boundary, released delegations 12, withdrawals to a boundary less than 15 epochs away, everything else not at all. |
| `Limits.GenesisFits` | nodus/src/witness/nodus_witness_v2_gen.c:1085-1175 | So from every genesis on. |
| `ItemProofs.StakeKeeps` | nodus/src/witness/nodus_witness_rt_native.c:6837-7010 | Staking, also again with a key that has graduated, keeps the invariant: no seat, copy or release of the earlier bond is disturbed. |
| `ItemProofs.DelegateKeeps` | nodus/src/witness/nodus_witness_rt_native.c:7098-7279 | Delegating keeps the invariant: the row totals follow the delegation and nothing that earns loses cover. |
| `ItemProofs.UndelegateKeeps` | nodus/src/witness/nodus_witness_rt_native.c:7405-7503 | Withdrawing keeps the invariant: the release coin is locked past every copy in which the stake still earns. |
| `ItemProofs.UnstakeKeeps` | nodus/src/witness/nodus_witness_rt_native.c:7310-7367 | Asking to leave keeps the invariant: the bond stays in place until graduation. |
| `ItemProofs.SetCommissionKeeps` | nodus/src/witness/nodus_witness_rt_native.c:7553-7675 | A commission change, at once or pending, keeps the invariant and the 50% cap. |
| `Ledger.PowerExit` | nodus/src/witness/nodus_witness_v2_epoch.c:2512-2530 | The boundary at which a stake that leaves in block h has left the voting power: a multiple of E, at least two and less than three epochs after h. |
| `Settlement.SplitOf` | nodus/src/witness/nodus_witness_v2_econ.c:1326-1406 | A share splits without loss into own-bond part, commission and delegators' net; the first two are the floors of share · bond / total and rest · bps / 10000; all of it is the bond's when there are no delegations, none without a bond, and the commission takes at most half the rest. |
| `Settlement.SharesFitPayout` | nodus/src/witness/nodus_witness_v2_econ.c:1408-1591 | The floored shares of the seats together fit the payout. |
| `Settlement.SeatCreditsAtMost` | nodus/src/witness/nodus_witness_v2_econ.c:1326-1406 | What a seat and its delegators are credited is at most the seat's share, and nothing without a row, with fewer than 360 of the 720 blocks signed, or with none of the last 120. |
| `Settlement.SeatCreditsAlmostFull` | nodus/src/witness/nodus_witness_v2_econ.c:1326-1406 | A paid seat is paid its share but for less than one unit a delegator. |
| `Settlement.CreditsFitPayout` | nodus/src/witness/nodus_witness_v2_econ.c:1408-1591 | All credits of a boundary fit pool >> 16. |
| `Rewards.RewardPaid` | nodus/src/witness/nodus_witness_v2_econ.c:1326-1591 | Every owner is credited, to the unit, what the frozen rows and attendance say: from each seat with a row that signed 360 blocks and one of the last 120, its part of pool / 65536 by whole coins of stake, split into bond part, commission and pro-rata rest. |
| `Rewards.MissedEarnsNothing` | nodus/src/witness/nodus_witness_v2_econ.c:1336-1344 | An owner all of whose seats, its own and those it has frozen stakes on, missed those numbers is credited nothing. |
| `Rewards.WorkedEarns` | nodus/src/witness/nodus_witness_v2_econ.c:1326-1406 | A seat with a row that did not miss them is credited its parts, validator and delegators. |
| `Income.BlockPays` | nodus/src/witness/nodus_witness_v2_econ.c:1597-1719 | At every boundary of every run whose epoch number is a multiple of the interval the accrual table is empty afterwards and whoever was owed anything has one new unlocked coin of exactly that; at any other it stays owed. |
| `Income.EarnedIsPaid` | dnac/README.md:220-235 | Over every run an owner's payday coins and what is still owed are what was owed and everything it earned. |
| `Income.MissedIsUnpaid` | dnac/README.md:556-573 | Over every run from genesis, by the votes: whoever's seats all committed fewer than 360 of the epoch's blocks, or none of its last 120, earns nothing at its boundary. |
| `Income.WorkedIsPaid` | dnac/README.md:556-573 | And a seat with a row that did not miss the epoch earns its parts. |
| `Settlement.SettleMoves` | dnac/README.md:220-235 | The pool drops by exactly what is credited, at most one 65536th, and nothing else changes. |
| `Settlement.PaydayMoves` | nodus/src/witness/nodus_witness_v2_econ.c:1597-1719 | A payday turns every accrued unit into coins and nothing else. |
| `BoundaryProofs.GateHolds` | nodus/src/witness/nodus_witness_v2_econ.c:1203-1302 | In every reachable state the seats about to be paid agree with the copy they were built from, so the distribution's gate never faults. |
| `BoundaryProofs.SettleKeeps` | nodus/src/witness/nodus_witness_v2_econ.c:1408-1591 | In every reachable state the distribution completes and keeps the invariant; no accrual leaves the store's integers. |
| `BoundaryProofs.PaydayKeeps` | nodus/src/witness/nodus_witness_v2_econ.c:1597-1719 | In every reachable state the payday's coin ids are new and the payday completes. |
| `BoundaryProofs.GraduateKeeps` | nodus/src/witness/nodus_witness_v2_epoch.c:740-1106 | All due graduations go through, only the graduating rows change, every bond and delegation comes back as a locked coin, and no auto-retired row is left. |
| `BoundaryProofs.ScanFits` | nodus/src/witness/nodus_witness_v2_epoch.c:768-789 | The rows a graduation scan meets never exceed its 256 slots. |
| `BoundaryProofs.RuleNKeeps` | nodus/src/witness/nodus_witness_v2_epoch.c:1374-1789 | Rule N completes and changes only counters and statuses of bonded rows. |
| `BoundaryProofs.RetirementPreviewed` | nodus/src/witness/nodus_witness_v2_epoch.c:1577-1628 | Retirements are made only on a previewed next set that clears the floor, and that preview is the set the boundary stores. |
| `BoundaryProofs.SeatFits` | nodus/src/witness/nodus_witness_vset.c:820-857 | A seat won from the copy one epoch old still has the bond that copy shows. |
| `BoundaryProofs.CloseKeeps` | nodus/src/witness/nodus_witness_vset.c:669-834 | The end of a boundary faults if and only if the next set is empty; otherwise the invariant holds at the new height. |
| `Misses.CounterIsStreak` | dnac/README.md:480-490 | At every height of every run from genesis a bonded validator's miss counter is the number of immediately preceding epochs in all of which it was on duty and missed; any other epoch starts it over. |
| `Misses.RetiredIff` | dnac/README.md:492-503 | Over every run a validator is auto-retired at boundary b if and only if in both epochs ending at b − E and b it was ACTIVE with a seat and, by the blocks' votes, committed fewer than 360 of the 720 or none of the last 120, and the next set without the due rows keeps more than two thirds of its votes, one a whole coin, without any one member. |
| `Misses.FloorDefers` | dnac/README.md:498-501 | Over every run, a boundary the floor blocks leaves nobody auto-retired and every charged validator bonded with its streak on the counter; charged again at the next boundary, with the floor clear, it is auto-retired there. |
| `Misses.BoundaryTracks` | nodus/src/witness/nodus_witness_v2_epoch.c:1374-1789 | One boundary: a charged duty adds one, anything else resets, and the row retires exactly when that makes two and the floor clears. |
| `Misses.GenesisFresh` | nodus/src/witness/nodus_witness_v2_gen.c:1085-1175 | Every committed genesis is a start the run theorems about counters apply to. |
| `Votes.MeetsBarIff` | nodus/src/witness/nodus_witness_v2_epoch.c:1235-1261 | At every boundary of every run from genesis a validator meets the bar if and only if its COMMIT votes in the epoch's 720 blocks are at least 360 and one is in the last 120 blocks. |
| `Votes.RunCounts` | nodus/src/witness/nodus_witness_v2_epoch.c:1111-1190 | At every height the attendance table counts exactly the COMMIT votes since the last boundary and remembers the last block each voter committed. |
| `Committee.FloorMeaning` | nodus/src/witness/nodus_witness_v2_epoch.c:1308-1326 | A set that clears the floor has at least four members with power, none with a third of it, and keeps more than two thirds without any one. |
| `Committee.FloorNeedsSpread` | dnac/README.md:518-522 | The floor never clears when one member holds a third or more. |
| `Committee.FloorEqualStakes` | dnac/README.md:508-510 | Equal stakes clear the floor if and only if there are at least four members. |
| `Committee.CommitteeSeats` | nodus/src/witness/nodus_witness_committee.c:318-599 | The set has at most the configured seats, no member twice, and every member is bonded, tenured and carries the frozen bond and total. |
| `Committee.CommitteeReads` | nodus/src/witness/nodus_witness_v2_epoch.c:1577-1628 | The set depends on nothing but bonded rows, tenure, commission and the copy: the preview equals what is stored. |
| `Committee.LargestSeated` | nodus/src/witness/nodus_witness_committee.c:129-131 | Whoever may serve and has stake in the copy but no seat has at most the frozen stake of every seat, at equal stake no smaller tie-break, and all seats are taken. |
| `Committee.SeatsDescend` | nodus/src/witness/nodus_witness_committee.c:584-593 | Seats go to bonded, tenured rows with their frozen bond, frozen total and live commission, in descending order of frozen total. |
| `Seating.NextSetBest` | nodus/src/witness/nodus_witness_committee.c:318-599 | Every boundary block of every run stores for the epoch after next the largest frozen stakes among those who may serve, and changes no other set. |
| `Seating.StakesFrozen` | nodus/src/witness/nodus_witness_v2_econ.c:455-649 | Every boundary block of every run freezes exactly the bonds and delegations it leaves, and keeps what the two boundaries before it froze and nothing older. |
| `Ranking.SortedIsRanked` | nodus/src/witness/nodus_witness_committee.c:584-593 | Sorting all candidates and cutting gives the same set as taking the best one place after another. |
| `AttendanceBar.UnderBarWeight` | dnac/README.md:556-573 | In an epoch whose commits all carry more than 2/3 of the power, those not over a bar of b hold less than 1/(3(1 − b)) of it: less than two thirds at 50%. |
| `AttendanceBar.SomeoneMeetsBar` | nodus/src/witness/nodus_witness_v2_epoch.c:1235-1261 | In such an epoch, even when two of its 720 commits are another set's, some member with power meets the whole bar, the 120-block window included. |
| `QuorumEpoch.SomeSeatIsPaid` | dnac/README.md:556-573 | Over every run: in an epoch whose blocks, from the third on, carry commits of more than 2/3 of the power of the set in effect (the first two carry the previous set's), some seat of that set with power is not charged at the boundary and is paid if it has a share. |
| `AttendanceBar.EightyFailsAll` | dnac/README.md:563-569 | At 80% there is an epoch, every commit with three quarters of the power, in which all members fail. |
| `Node.Node.Commit` | nodus/src/witness/nodus_witness_v2_apply.c:6645-6700 | One decided block on the tables gives exactly the specified state; a fault restores every table; the invariant is kept either way. |
| `Node.Node.ApplyTx` | nodus/README.md:503 | One item inside its savepoint: applied exactly when it is acceptable, and a refused item leaves nothing it wrote. |
| `Node.Node.ApplyTxs` | nodus/src/witness/nodus_witness_v2_apply.c:6046-6082 | The items of a block in order, each in its own savepoint. |
| `Node.Node.ApplyStake` | nodus/src/witness/nodus_witness_rt_native.c:6837-7010 | STAKE on the tables: the specified outcome, exactly when its checks pass. |
| `Node.Node.ApplyUnstake` | nodus/src/witness/nodus_witness_rt_native.c:7310-7367 | UNSTAKE on the tables gives exactly the specified outcome, which `Acceptance.AppliedIff` says in numbers. |
| `Node.Node.ApplyDelegate` | nodus/src/witness/nodus_witness_rt_native.c:7098-7279 | DELEGATE on the tables, with the minimum and the delegator limit. |
| `Node.Node.ApplyUndelegate` | nodus/src/witness/nodus_witness_rt_native.c:7405-7503 | UNDELEGATE on the tables, with the locked release coin. |
| `Node.Node.ApplySetCommission` | nodus/src/witness/nodus_witness_rt_native.c:7553-7675 | VALIDATOR_UPDATE on the tables. |
| `Node.Node.ApplyClaim` | nodus/src/witness/nodus_witness_v2_claims.c:728-818 | A genesis claim on the tables: one coin of the allocation's amount, once. |
| `Node.Node.CreditVotes` | nodus/src/witness/nodus_witness_v2_epoch.c:1111-1190 | Attendance after the commit votes of one block. |
| `Node.Node.ApplyBoundary` | nodus/src/witness/nodus_witness_v2_epoch.c:2188-2412 | All steps of a boundary in order equal the specified boundary, and fault exactly when it does. |
| `Node.Node.SettleRewards` | nodus/src/witness/nodus_witness_v2_econ.c:1408-1591 | The two-pass distribution loop, gate and total first, then every seat, its owner and its delegators row by row, gives the specified distribution, which `Rewards.RewardPaid` says owner by owner. |
| `Node.Node.PayAccruals` | nodus/src/witness/nodus_witness_v2_econ.c:1597-1719 | The payday loop: one coin per accrual row, on payday boundaries only. |
| `Node.Node.GraduateRows` | nodus/src/witness/nodus_witness_v2_epoch.c:740-1106 | The graduation scan in key order. |
| `Node.Node.ReleaseStakes` | nodus/src/witness/nodus_witness_v2_epoch.c:543-709 | Every delegation of a graduating validator comes back as a locked coin. |
| `Node.Node.SelectCommittee` | nodus/src/witness/nodus_witness_committee.c:318-599 | Collecting, sorting and cutting the candidates gives the specified set, which `Committee.LargestSeated` says by stakes. |
| `Node.Node.RecountMisses` | nodus/src/witness/nodus_witness_v2_epoch.c:1374-1530 | The counters of all bonded rows after one epoch. |
| `Node.Node.ApplyRuleN` | nodus/src/witness/nodus_witness_v2_epoch.c:1374-1789 | Counting, the preview with its floor, and the retirements. |
| `Node.Node.ApplyFlips` | nodus/src/witness/nodus_witness_vset.c:669-816 | ACTIVE and ELIGIBLE follow the set that takes effect. |
| `Node.Node.FreezeBalances` | nodus/src/witness/nodus_witness_v2_econ.c:455-649 | It fails exactly when a copy of this height exists; the new copy holds every delegation and every bond, the copies of the last two epochs survive unchanged and older ones are gone. |
| `Node.CheckSeats` | nodus/src/witness/nodus_witness_v2_econ.c:1203-1302 | The gate: true exactly when every seat agrees with the copy; all seats count in the total, paid or not. |
| `Node.ClearsWeight` | nodus/src/witness/nodus_witness_v2_epoch.c:1308-1326 | The floor verdict over a set's powers. |
| `Node.CheckInputs` | nodus/src/witness/nodus_witness_rt_native.c:2984-3114 | True exactly when every input exists, is unlocked and belongs to a signer, with their total. |
| `Node.CheckOutputs` | nodus/src/witness/nodus_witness_rt_native.c:2984-3114 | True exactly when no output is zero, repeated or already there, with their total. |
| `PowerCap.CountedPowers` | shared/dnac/power_cap.c:26-90 | Refuses exactly the inputs outside its contract (1 to 128 positive powers, a ratio of 500 to 3000, a product that fits 64 bits) and otherwise writes every power cut at the one cap. |
| `PowerCap.Walk` | shared/dnac/power_cap.c:63-85 | The walk over the sorted powers ends at the cap and overflows exactly when the product does. |
| `PowerCap.CapUnique` | shared/dnac/power_cap.h:43-59 | At most one value is the largest admissible cap. |
| `PowerCap.SharesBounded` | shared/dnac/power_cap.h:43-59 | Under an admissible cap no counted share exceeds the rate. |
| `PowerCap.LeastKept` | shared/dnac/power_cap.h:43-59 | The smallest power is never cut. |
| `PowerCap.CapClearsFloor` | shared/dnac/power_cap.h:43-59 | Under the cap Rule N's floor clears if and only if there are at least four members, however stake is spread. |
| `PowerCap.WalkOn` | shared/dnac/power_cap.c:63-85 | Going on leaves a positive denominator and keeps what was capped capped. |
| `PowerCap.WalkStops` | shared/dnac/power_cap.c:63-85 | Where the walk stops, the closed form is the cap: the fast form agrees with the definition. |
| `PowerCap.OrderIndependent` | shared/dnac/power_cap.c:20-24 | The order of the members, and of ties, does not change the cap. |
| `Replay.PrunedIsFull` | nodus/README.md:343 | Over every run of envelopes carried at most 720 blocks before their expiry the pruned table lets through exactly what the whole history would: no intent and no wire id twice, nothing that does not execute, everything that does unless one of its ids was let through; every kept row expires within 720 blocks. |
| `Replay.SameVerdict` | nodus/src/witness/nodus_witness_v2_apply.c:3401-3492 | An item a block may carry is judged alike by the pruned table and by the whole history. |
| `Replay.StepsOnce` | nodus/src/witness/nodus_witness_v2_apply.c:6046-6082 | The guard over the whole history never admits an intent or a wire id twice. |
| `Replay.StepsExact` | nodus/src/witness/nodus_witness_v2_apply.c:3401-3492 | Whatever executes is let through itself or after something with one of its ids, and nothing else is. |
| `Replay.ReplayTable.ApplyBlock` | nodus/src/witness/nodus_witness_v2_apply.c:5843-5866 | One block on the table: taken exactly when every expiry is from its height to 720 above, then the items in order and the prune; otherwise nothing changes. |
| `Replay.ReplayTable.Hit` | nodus/src/witness/nodus_witness_v2_apply.c:3401-3492 | The two guard queries answer whether a stored row shares the intent or the wire id. |
| `Wallet.RunsSafe` | web-wallet/README.md:2141-2151 | Over every interleaving of payments, resends, answers, losses, reloads, scans, blocks and coins made anew no payment is applied twice, when a resend uses free coins only after all attempts of its payment have expired and no coin made revives an unsettled attempt of a payment already made. |
| `Wallet.ResendRule` | web-wallet/src/adapters/nodus.js:277-287 | In every world such a run reaches, a resend with free coins that an expired row allows and a block can still include keeps all continuations from paying twice if and only if every attempt of the payment has expired. |
| `Wallet.RevivalRule` | web-wallet/src/adapters/nodus.js:277-287 | In every world such a run reaches, making a coin, new or spent, keeps all continuations from paying twice if and only if it revives no unsettled attempt of a payment already made. |
| `Wallet.PaidTwice` | web-wallet/src/adapters/nodus.js:277-287 | A run in which one resend, allowed by the expired row alone, is the only step out of order, and one payment is applied twice. |
| `Wallet.MadeAgain` | nodus/src/witness/nodus_witness_rt_native.c:327-330 | A run in which a spent coin made again is the only step out of order, and one payment is applied twice. |
| `Wallet.FreshPaysTwice` | web-wallet/src/adapters/nodus.js:277-287 | From every safe world, a resend with free coins beside an attempt that has not expired has a continuation in which the payment is applied twice. |
| `Wallet.RevivedPaysTwice` | web-wallet/src/adapters/nodus.js:277-287 | An unsettled attempt of a payment already made, its coins all unspent, has a continuation in which the payment is applied again. |
| `Wallet.IncludeOnce` | web-wallet/src/adapters/nodus.js:236-245 | In a safe world the payment of an attempt a block can include has not been made, and including it leaves a safe world: every other unsettled attempt of the payment misses a coin. |
| `Wallet.PlannerBuilds` | nodus/src/client/nodus_v2_spend.c:102-121 | What the spend planner picks for a positive need comes from the coins offered and holds their largest, the shape every attempt has. |
| `Wallet.TakeSafe` | web-wallet/README.md:2141-2151 | Every step that heeds the two provisos keeps the invariant: open attempts of one payment share their largest coin and are unspent until one is made, those of different payments share no coin, and at most one envelope of a payment is applied. |
| `Wallet.ScanSettles` | web-wallet/README.md:2141-2151 | In every world such a run reaches, a scan of an unsettled record at the tip says confirmed if and only if it was included and expired if and only if it can no longer be; and a coin whose records have all expired is free. |
| `Wallet.Activity.LockedInputs` | web-wallet/src/adapters/nodus.js:236-245 | The held coins are those of every record that no scan has found expired. |
| `Wallet.Activity.ResubmitKept` | web-wallet/src/nodus/resubmit.js:1-89 | Trying again sends the kept bytes only, keeps them only when the node is busy once more and the record has not become final meanwhile, and changes no other record. |
| `SealCounter.NeverReused` | web-wallet/README.md:2714-2717 | Over every run of opens, saves that fail anywhere, crashes and deletions no seal number is used twice, and the key's budget of 2^32 is kept. |
| `SealCounter.ApplySafe` | web-wallet/src/connect/store.js:581-606 | Each step keeps the copy outside the database at or above every number used. |
| `SealCounter.DatabaseAloneReuses` | web-wallet/src/connect/store.js:183-204 | Without the second copy a failed commit and a crash reuse a number. |
| `SealCounter.EitherCopySuffices` | web-wallet/src/connect/store.js:618-625 | After a save that went through, either copy alone is enough: with the other lost, opening still starts above every number used. |
| `SealCounter.HistoryStore.SaveAll` | web-wallet/src/connect/store.js:581-606 | A save that stops anywhere leaves all seal numbers distinct, the new ones above every earlier one; true exactly when all of it went through, and then as many numbers were used as entries written. |
| `SealCounter.HistoryStore.OpenStore` | web-wallet/src/connect/store.js:618-625 | After opening, the counter is above every number ever used and at least both stored copies. |
| `SealCounter.HistoryStore.EraseHistory` | web-wallet/src/connect/store.js:904-911 | After the history is deleted, the next opening still starts above every number ever used. |
| `CoinSelect.Choose` | nodus/src/client/nodus_v2_spend.c:102-121 | The loop takes the shortest front of the free coins of the kind that covers the need, at most 15 of them; each refusal names its true cause. |
| `CoinSelect.FrontIsBest` | nodus/README.md:194 | Of sorted coins, no m are worth more than the first m. |
| `CoinSelect.FewestCoins` | nodus/README.md:194 | No choice of fewer coins covers the need. |
| `CoinSelect.PayableIff` | web-wallet/README.md:1825-1827 | A need is payable with at most 15 coins if and only if the first 15 cover it. |
| `CoinSelect.RefusedRightly` | web-wallet/README.md:1825-1827 | A payment is refused for its number of inputs only when no 15 usable coins cover it. |
| `CoinSelect.NoBetterChoice` | web-wallet/README.md:1825-1827 | Against every set of free coins of the list that covers the need: a pick has no more coins, and there is neither too little money nor, with at most 15 coins in the set, too many inputs. |
| `CoinSelect.TakesLargest` | nodus/src/client/nodus_v2_spend.c:102-121 | Every pick of a positive need contains the largest usable coin, so two payments built from the same coins conflict. |
| `CoinSelect.PurseDescends` | nodus/src/client/nodus_v2_spend.c:84-100 | Filtering the sorted list by kind keeps it sorted. |
| `Config.LoadResult` | messenger/dna_config.c:130-172 | Whatever the file holds, a load returns a level, a positive size, 0 to 10 files, at most 8 nodes and at least 6 unless the fallback is off, none on port 4000. |
| `ConfigRead.LoadReads` | messenger/dna_config.c:73-172 | For every text: each setting is what the last line that sets it says, or its default; with six nodes or more, or no fallback, the list is the text's own nodes with a final ":4000" read as ":4001", saved if and only if that changed it; otherwise the built-in six. |
| `ConfigRead.LineTaken` | messenger/dna_config.c:73-80 | A line of up to 510 bytes is read whole. |
| `ConfigRead.LineCut` | messenger/dna_config.c:73-80 | A longer one is read in pieces of 511. |
| `Config.RoundTrip` | messenger/dna_config.c:178-228 | Loading what a save wrote gives the same settings and saves nothing if and only if a load could have returned them and no node ends in a space. |
| `Config.SecondLoad` | messenger/dna_config.c:130-172 | After any load, loading what its save writes changes and saves nothing if and only if no node was cut just after a space. |
| `Config.CutAfterSpace` | messenger/dna_config.c:120-124 | A field cut at 63 bytes just after a space does not come back. |
| `Config.FreshLoads` | messenger/dna_config.c:43-71 | A first start writes a file that loads as itself. |
| `Config.NodesOfJoin` | messenger/dna_config.c:106-127 | Joining nodes with commas and splitting them gives the nodes back, trimmed. |
| `Config.ParseUnlines` | messenger/dna_config.c:73-82 | Reading written lines in 511-byte chunks gives exactly those lines. |
| `CStrings.FieldsJoin` | messenger/dna_config.c:106-127 | Splitting a joined list gives its non-blank fields, trimmed, in order. |
| `CStrings.AtoiDecimal` | messenger/dna_config.c:98-105 | Parsing a printed number gives it back. |
| `Tokens.StrTok` | messenger/dna_config.c:113-125 | In place, strtok yields the next field of the string and leaves the fields after it. |
| `Tokens.TrimToken` | messenger/dna_config.c:115-118 | In place, the trim loops leave exactly the trimmed token and nothing past it changes. |
| `ConfigFile.ConfigData.ParseNodes` | messenger/dna_config.c:106-127 | The token loop stores exactly the first 8 non-blank trimmed fields, cut to 63 bytes. |
| `ConfigFile.ConfigData.ReadLines` | messenger/dna_config.c:73-128 | The chunked line loop parses the text. |
| `ConfigFile.ConfigData.FixOldPorts` | messenger/dna_config.c:147-154 | Every :4000 becomes :4001 in place, and it is reported exactly when there was one. |
| `ConfigFile.ConfigData.Load` | messenger/dna_config.c:33-176 | A load on the fields: every setting is what the text last says or its default, the user's nodes are kept but for the port, and the file is written exactly when the list changed; without a file, the defaults. |
| `ConfigFile.ConfigData.Save` | messenger/dna_config.c:178-228 | A save writes the specified text of the fields. |
| `ConfigFile.ConfigData.EnabledTags` | messenger/dna_config.c:256-272 | The tag loop yields every non-blank trimmed field, in order. |
| `Explorer.Index.Walk` | explorer/src/exp_sync.c:218-340 | However requests and statements fail, the index stays the fold of the blocks it took, in height order, at most 256 a tick; each result code says why the walk ended. |
| `Explorer.Syncer.Tick` | explorer/src/exp_sync.c:218-340 | The index is replaced if and only if two servers in one unbroken streak named a foreign chain and the old one could be moved away; under the reference chain it grows to the tip, by 256 heights, or to the first height that cannot be had. |
| `Explorer.HonestTook` | explorer/README.md:494-505 | Pages cut from the chain's blocks, from any servers and cut anywhere, keep the taken blocks a prefix of the chain, so the index is a function of its height. |
| `Explorer.Index.TakeHeight` | explorer/src/exp_sync.c:313-339 | One height: taken exactly when its pages make a block and every statement succeeds, otherwise the index is unchanged. |
| `Explorer.Index.WriteHeight` | explorer/src/exp_db.c:813-885 | One transaction: refused unless the batch is well formed and the next height; all rows and the watermark, or nothing. |
| `Explorer.Index.InsertIo` | explorer/src/exp_db.c:717-770 | A consumed row takes the owner of the least row creating its coin; a created row is stored as it is. |
| `Explorer.CollectBlock` | explorer/src/exp_sync.c:161-214 | The page loop returns exactly the block the answers make, within its page bound. |
| `Explorer.Batch.Extract` | explorer/src/exp_extract.c:108-268 | A page is appended whole, after all of it was checked, or not at all. |
| `Explorer.CheckBatch` | explorer/src/exp_db.c:616-661 | The structural checks before a write. |
| `Explorer.BlockFits` | explorer/src/exp_db.c:616-661 | A block that passed the page checks passes the checks of the write. |
| `Pages.CollectedOk` | explorer/src/exp_extract.c:74-95 | Whatever servers answer, a collected block passed every item and header check. |
| `Pages.CollectedHonest` | explorer/README.md:141-154 | Pages cut from one block make that block or nothing. |
| `Pages.CollectedServed` | explorer/src/exp_sync.c:161-214 | Pages that serve a block without a gap make it, within the page bound. |
| `Pages.CollectedIff` | explorer/src/exp_sync.c:161-214 | A block is collected if and only if it passes the checks, in numbers, and the answers are its pages in order, each naming as next the item that follows. |
| `CoinRows.ConsumedRow` | explorer/README.md:179-184 | A consumed row knows its owner if and only if an earlier row of the index creates the coin, and its columns are those of the first such row. |
| `CoinRows.ShowsConsumed` | explorer/src/exp_db.c:717-770 | It shows the coin that was consumed if and only if the first and the last creation before it agree on token and amount. |
| `CoinRows.ShowsTheOlder` | explorer/src/exp_db.c:186-188 | A chain of four blocks that makes, spends, remakes and spends one id: the last row shows the first amount. |
| `CoinRows.LiveIsLast` | nodus/src/witness/nodus_witness_rt_native.c:327-330 | The coin alive under an id is the one last created. |
| `IndexFold.VerifyIff` | explorer/src/exp_db.c:963-1033 | The index passes the structural checks if and only if every header counts its applied envelopes right, the one figure no page check looks at. |
| `IndexFold.FoldCounts` | explorer/src/exp_db.c:992-997 | The item and applied counts of every height in the index are those of its block. |
| `IndexRows.OneRowPerItem` | explorer/src/exp_extract.c:176-206 | Every item of every block has exactly one row, whose kind, code, effects, burned amount and record are the item's. |
| `IndexRows.EveryRowIsAnItem` | explorer/src/exp_db.c:676-712 | And every row is the row of an item. |
| `IndexRows.OneRowPerCoin` | explorer/src/exp_extract.c:243-268 | Every coin an item with effects spends or makes has exactly one row, in its place; a made coin's with its owner, token, amount and lock. |
| `IndexRows.EveryRowIsACoin` | explorer/src/exp_db.c:717-770 | And every coin row is one of those. |
| `IndexRows.VerifyMeans` | explorer/src/exp_db.c:963-1033 | Any tables pass the structural checks if and only if heights run from 1 to the last, every header counts its rows and applied envelopes, no row contradicts itself and every coin row belongs to an applied item with effects. |
| `ChainReset.Tracker.Feed` | explorer/src/exp_chain.c:647-707 | CONFIRMED exactly when the unbroken streak of polls naming one foreign chain has two different servers; a matching poll ends it. |
| `ChainReset.StreakMeaning` | explorer/README.md:128-136 | The streak is the longest run of last polls that agree on a foreign chain. |
| `DebVersion.ComparePart` | qgp/src/qgp_debver.c:135-165 | The run-by-run comparison equals the lexicographic order of zero-padded keys. |
| `DebVersion.CompareNumbers` | qgp/src/qgp_debver.c:147-162 | Comparing digit runs by length and digits equals comparing their values. |
| `DebVersion.CompareVersions` | qgp/src/qgp_debver.c:167-183 | Epoch, then upstream, then revision; nothing unless both are versions. |
| `DebVersion.OrderTotal` | qgp/src/qgp_debver.c:167-183 | Any two versions compare, and swapping them flips the sign. |
| `DebVersion.OrderChains` | qgp/src/qgp_debver.c:167-183 | The comparison is transitive. |
| `DebVersion.AbsentRevision` | qgp/src/qgp_debver.c:26-29 | No revision comes before a revision if and only if, past its leading zeros, that goes on and not with a tilde; it comes after a tilde and equals zeros. |
| `VersionLaws.PartsInOrder` | qgp/src/qgp_debver.c:167-183 | The smaller epoch is below; at equal epochs the upstream versions decide whatever the revisions; only at equal ones do the revisions. |
| `VersionLaws.FirstCharacter` | qgp/src/qgp_debver.c:119-146 | Two parts that first differ in two characters compare by them: tilde, then letters, then the rest, each by code. |
| `VersionLaws.GoesOn` | qgp/src/qgp_debver.c:119-146 | A part that goes on where another ends, or has a number, is below it with a tilde and above it with anything else. |
| `VersionLaws.FirstNumber` | qgp/src/qgp_debver.c:147-162 | Two parts that first differ in a number compare by its value. |
| `VersionLaws.SplitIff` | qgp/src/qgp_debver.c:47-111 | A text is a version if and only if it is one written out, with an epoch of up to nine digits or none and a revision after the last hyphen or none, and is read as those parts. |
| `TrustBody.BodyCanonical` | qgp/src/qgp_trust.c:135-297 | Two accepted bodies with the same records are the same bytes. |
| `TrustBody.SortedUnique` | qgp/src/qgp_trust.c:223-235 | A set of lines has one sorted listing. |
| `TrustBody.LineInjective` | qgp/src/qgp_trust.c:177-221 | Different lines are different records. |
| `TrustFile.ParsePrint` | qgp/src/qgp_trust.c:329-354 | What was written is read back. |
| `TrustFile.PrintParse` | qgp/src/qgp_trust.c:329-354 | What was read is what writing it gives: a file has one layout. |
| `TrustFile.MessageInjective` | qgp/src/qgp_trust.c:364-379 | The signed message tells serial, previous digest, signer and body digest apart. |
| `TrustRules.FileLayout` | qgp/src/qgp_trust.c:329-354 | Every byte of a file in its place: version 1, serial, signer, body after its length, signature after its length. |
| `TrustRules.MessageLayout` | qgp/src/qgp_trust.c:364-379 | The 216 bytes of the signed message: tag, serial, digest of the previous file, signer, digest of the body. |
| `TrustRules.LineIff` | qgp/src/qgp_trust.c:177-221 | A line is read as a record if and only if it is that record written out. |
| `TrustRules.BodyIff` | qgp/src/qgp_trust.c:135-297 | A body is accepted if and only if it is a lawful state, one key a fingerprint, one floor a package, nothing pinned and revoked, at least one key, written out in ascending order of bytes in at most 65536 of them. |
| `TrustChain.SameLastSameChain` | qgp/README.md:60-78 | Two directories with the same last file accepted the same files from serial 1, if no two of the files and keys share a digest and a signature fits one message. |
| `TrustChain.ChainKeeps` | qgp/src/qgp_trust.c:408-462 | Along a chain of any length no revocation is dropped and no floor is dropped or lowered. |
| `TrustChain.RevokedForGood` | qgp/src/qgp_trust.c:408-462 | A key once revoked signs no later file and is pinned in none. |
| `TrustChain.SerialsGrow` | qgp/src/qgp_trust.c:408-462 | Serials grow along a chain. |
| `TrustRules.NextIff` | qgp/src/qgp_trust.c:408-478 | A file is the next of a directory if and only if its serial is larger, a key pinned and not revoked in the file before signed the message over that file's digest, every revocation is kept and every floor kept or raised. |
| `TrustRules.FirstIff` | qgp/src/main.c:401-433 | A file is the first if and only if its serial is 1 and a key it pins signed the message over 64 zero bytes. |
| `TrustDir.OneByOne` | qgp/README.md:60-78 | Files in one command are files in two, the second without --bootstrap and only if the first took all: one by one up to the first refusal. |
| `TrustDir.Directory.TrustAccept` | qgp/src/main.c:358-465 | Files are taken in order, each checked against the one before, up to the first that is not admitted; `--bootstrap` exactly for an empty directory; what is taken extends the chain. |
| `TrustDir.Directory.Verify` | qgp/src/main.c:407-455 | True exactly when `trust-accept` admits the file: as the next of the stored one, or, with none stored, as the start of a chain. |
| `TrustDir.CheckKept` | qgp/src/qgp_trust.c:432-448 | True exactly when every revocation and floor is kept. |
| `Packages.Verifier.Check` | qgp/src/qgp_state.c:504-545 | Accepted if and only if name and version are well formed, the version is not below the floor, and, unless a downgrade is allowed, not below any version accepted before. |

## Left out

- Rule-set generations from storage (4) on: owner keys apart from operator keys, storage rewards and probes, and the power cap inside the committee; `PowerCap` proves the cap by itself and `Node` uses uncapped powers.
- Tokens, the EVM and its reserve, multisignature vaults, chain names, chain-config votes and the shielded pools: the balances outside the native ledger are one constant `reserves`.
- Gas prices and the fee calculation: a fee is a number at least the minimum; the dust sweep and the absorption of small change in the spend planner.
- Consensus rounds, block sync, SQLite and the network: a block's commit votes and the failures of reads and writes are inputs.
- Root hashes, receipts and the byte encoding of envelopes; digests of coins are taken as the data itself, so coins of different data never collide; coins of the same data share their id over time, as in the source.
- The committee's fault above 128 candidates: the count of bonded rows is bounded by 128 in every reachable state.
- Node.Node.PayAccruals: names a payday coin by its owner where the source hashes the owner's place in the list.
- Replay.PrunedIsFull: starts at the first block of the roots generation with an empty table, and assumes that an intent id and a wire id fix the expiry they are hashed with.
- Wallet.RunsSafe: assumes honest answers about the chain and no other device with the same keys; claims, quarantine and the vault screens are not part of this model.
- SealCounter.NeverReused: one open tab, and the copy outside the database is not lost by itself.
- CoinSelect.Choose: the list is sorted by the caller; the order is a hypothesis of the lemmas about it.
- AttendanceBar.SomeoneMeetsBar: the powers are any map; `QuorumEpoch.SomeSeatIsPaid` is the same about the set in effect in a run.
- Config.RoundTrip: the wording of the comment lines is a parameter, any one-line comment; opening, creating and failing to write the file are not part of this model.
- CStrings.AtoiDecimal: past the range of `int` the C standard defines nothing; the model takes glibc's truncation.
- Explorer.Syncer.Tick: a reset that fails after the rename leaves no index at all, which is not part of this model; nor are names, EVM rows, supply figures and the read API.
- ChainReset.Tracker.Feed: a poll that reached no server, which changes nothing, is not part of this model.
- CoinRows.ConsumedRow: the owner's fingerprint syntax check is not part of this model.
- TrustDir.Directory.TrustAccept: refusals are not told apart by their code, and storing a file does not fail.
- TrustChain.SameLastSameChain: digest and signature are ideal on the files and keys at hand, as its hypotheses say.
- The archive checks of `deb-verify` (members, prefix, control fields) and key files.
- CometBFT, the light client, cryptography, user interface, installers and deployment.
