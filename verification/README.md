# Kava: swaps, auctions, tally and vesting in Dafny

A model of four parts of the Kava chain and proofs about them, for every input and every run.

- **Atomic swaps** (`x/bep3`). The swap store, its two height indexes, the supply counters and the escrow account move
  together through create, claim, refund and the begin blocker. `Bep3Invariant` holds the invariant that ties them together;
  `Bep3Runs`, `Bep3RateLimit`, `Bep3RateExact` and `Bep3LateClaim` draw the conclusions for whole runs; `Bep3Promise` says
  what a create message commits to, in terms of the message and of balances alone: which messages are accepted, who can claim
  and when, who pays and who is paid; `Bep3Keeper` carries out the handlers step by step on mutable state; `Bep3Genesis`
  exports and imports; `Keys` has the byte keys and ranges of the store.
- **Auctions** (`x/auction`). Surplus, debt and two-phase collateral auctions share one module account. `AuctionSpec` plans
  the coin movements of each handler, `AuctionFlows` says what they amount to, `AuctionInvariant` and `AuctionRuns` prove
  solvency, closing and settlement over runs, `AuctionAcceptance` says which bids and starts are accepted, `AuctionTerms`
  what a start message commits everybody to and when an auction closes, `AuctionKeeper` is the step-by-step form,
  `AuctionChecks` and `AuctionGenesis` are the registered invariants and genesis. `Split` and `SplitMethod` are the
  largest-remainder split used by reverse bids.
- **Governance tally** (`app/tally_handler.go`): `Tally` defines the result as a sum and proves that no order matters and that
  power is conserved; `TallyOptions` relates each option to the votes for it; `TallyDecision` is about the decision;
  `TallyMethod` is the loop form.
- **Vesting reset** (`migrate/utils/periodic_vesting.go`): `Vesting`.

`Banking`, `CoinSets`, `Decimal`, `MapSums` and `Prelude` are shared: the bank, sets of coins, 18-decimal numbers, sums over
stores, results and errors.

Check everything with `dafny verify dfyconfig.toml`.

## Assumptions of the model

- The bank is a map from account and denom to a natural number; sends, mints and burns fail as a whole on insufficient funds.
  Only sends from a module to an account refuse blocked recipients. The auction module account is blocked (app/app.go:1199-1222).
- User addresses are not module addresses. Messages are signed by users. Nobody else moves coins of the two module accounts.
  An auction's initiator is not the auction module.
- A failing message is rolled back by the transaction runner; `Deliver` and `DeliverBid` do it explicitly. A panic inside a
  handler counts as an error.
- Iterators see a snapshot of their range; encoding and decoding of stored values is the identity. Where the store iterates in
  key order and the order cannot matter, the model picks any order.
- Parameters do not change during a run. Block heights grow, block times do not fall. Height spans are arbitrary: the 64-bit
  wrap-around of an expiry height is modelled, and the two results that need spans that fit say so.
- The two hash functions of the swap module are arbitrary functions: nothing is assumed of them, not even injectivity; only
  `OnlyTheSecretClaims` asks that different hashes give different IDs.
- Runs start from any state with the invariant; the empty module has it (`InvInitially`), and `PassingGenesisEstablishesInv`
  says exactly when an imported one does.

## Where the code and its documentation differ

The model follows the code.

- x/bep3/spec/06_begin_block.md says a swap expires if its expire height is greater than the block height, and lists two
  begin-block steps; the code expires at heights up to and including the current one, and updates the time-based limits first.
- x/auction/spec/06_begin_block.md collects the expired IDs and then closes them, panicking on any error; the code closes while
  it iterates and skips auctions that are not found.
- x/auction/keeper/invariants.go describes the index check as a proof that index and store agree; it is not
  (`IndexCheckIsNotEnough`), and `IndexExactWhen` gives what is missing.

## Properties that fail, and exactly when

- A vesting reset keeps the unvested amount at every time from the new start on, except at the old start time of a schedule
  that begins with periods of length zero: `ResetKeepsUnvestedExactly`, `ResetCanLoseLeadingPeriod`. A schedule without any
  periods that is moved back in time is no longer valid: `ResetKeepsValid`, `ResetCanLeaveEndBehind`.
- An exported swap state can be imported exactly when every stored swap passes its own validation, and a message may create one
  that does not (an empty sender address on the other chain): `GenesisRoundTrip`, `EmptyOtherChainSenderIsRefused`.
- The time-based limit bounds what is minted in a stretch shorter than the period by twice the limit, not once, since the
  counter is reset at fixed points: `MintingIsRateLimited`, and `TwiceWithinOnePeriod` is a run that mints twice the limit in a
  nanosecond. Whether once is certain is decided by the block times: of the blocks in the window, only the first may start a
  new period. `MintingIsLimitedOnce` proves it then, for every chain and every run; `OnceExactlyWhenUnbroken` proves that on a
  chain with one asset it fails for every other schedule of blocks.
- Claims and refunds have disjoint windows if the height spans of the accepted swaps fit (`WindowsAreDisjoint`); the handler
  checks the span of outgoing swaps only. A new swap can always be claimed at once by whoever has the secret, and that claim is
  inside its window exactly when the span fits: `FirstClaimInWindowExactly`. `ClaimCanComeLate` is a run in which an incoming
  swap with the longest span, made by a message that passes ValidateBasic, is claimed at or after its expiry height.

## Model

| member | source | states |
|---|---|---|
| `Bep3Invariant.ClaimSucceedsExactly` | x/bep3/keeper/swap.go:134-215 | Under the invariant a claim succeeds if and only if the swap is stored, open and the secret is right: no supply, limit or escrow guard can fire. What a right secret is, in terms of the create message, is `ClaimedExactlyWithSecretInTime`. |
| `Bep3Invariant.RefundSucceedsExactly` | x/bep3/keeper/swap.go:218-267 | Under the invariant a refund succeeds if and only if the swap is stored and expired. |
| `Bep3Invariant.CreateKeepsInv` | x/bep3/keeper/swap.go:17-131 | A successful create keeps the whole invariant: both indexes exact, incoming and outgoing equal to the live swaps, limits, escrow equal to outgoing. |
| `Bep3Invariant.ClaimKeepsInv` | x/bep3/keeper/swap.go:160-215 | A successful claim keeps the whole invariant. |
| `Bep3Invariant.RefundKeepsInv` | x/bep3/keeper/swap.go:228-267 | A successful refund keeps the whole invariant. |
| `Bep3Invariant.TickAllPointwise` | x/bep3/keeper/asset.go:157-184 | The loop over the assets ticks each denom's record exactly once, makes missing records and touches no other. |
| `Bep3Invariant.UpdateLimitsKeepsInv` | x/bep3/keeper/asset.go:157-184 | Advancing or resetting the time windows keeps the invariant. |
| `Bep3Invariant.ExpireKeepsInv` | x/bep3/keeper/swap.go:270-295 | Expiring what is due keeps the invariant; in particular no counter changes. |
| `Bep3Invariant.DeleteKeepsInv` | x/bep3/keeper/swap.go:298-309 | Deleting old completed swaps keeps the invariant. |
| `Bep3Invariant.BeginBlockKeepsInv` | x/bep3/abci.go:14-20 | The three begin-block steps in order keep the invariant. |
| `Bep3Invariant.InvInitially` | x/bep3/types/genesis.go:20-27 | The empty module with an empty escrow has the invariant. |
| `Bep3Runs.RunKeepsInv` | x/bep3/keeper/swap.go:17-309 | After every run of blocks, messages (failing or not, with any height span) and movements of other modules, the invariant holds: index exactness, counters, limits, escrow. |
| `Bep3Runs.NoSwapIsEverStuck` | x/bep3/keeper/swap.go:134-253 | In every reachable state every open swap can be claimed with its secret and every expired one refunded, and nothing else can; `ClaimedExactlyWithSecretInTime` says when and with which secrets, from the create message. |
| `Bep3Runs.WindowsAreDisjoint` | x/bep3/keeper/swap.go:106-295 | Over every run in which the height spans of the accepted creates fit, claims happen only before the expiry height and refunds only from it on. |
| `Bep3Runs.SpanInRange` | x/bep3/keeper/swap.go:106-116 | A new swap's expiry height lies ahead if and only if the span is positive and the 64-bit sum does not wrap. |
| `Bep3Runs.CreationKeepsTimelyExactly` | x/bep3/keeper/swap.go:82-116 | A create leaves every open swap with blocks to go if and only if its span is positive and its expiry height does not wrap. |
| `Bep3Runs.FirstClaimInWindowExactly` | x/bep3/keeper/swap.go:82-155 | After every successful create, the claim with the right secret in the same block succeeds, and it comes before the expiry height if and only if the span is positive and does not wrap. |
| `Bep3LateClaim.ClaimCanComeLate` | x/bep3/keeper/swap.go:72-112 | In any block of a chain with one asset, a run that makes an incoming swap with the longest span, by a message that passes ValidateBasic, and claims it at or after its expiry height. |
| `Bep3Runs.SettledExactlyOnce` | x/bep3/keeper/swap.go:134-267 | Over every run the log of each swap ID is accepted by the automaton create, then one settlement, and its state is whether the swap is live. |
| `Bep3Runs.CreationBetweenSettlements` | x/bep3/keeper/swap.go:134-267 | What acceptance means: between two settlements (claims or refunds, in any mix) of an ID there is a creation of it. |
| `Bep3Runs.CurrentIsMintedMinusBurned` | x/bep3/keeper/asset.go:13-59 | Over every run the current supply of a denom changes by exactly what claims minted minus what claims burned. |
| `Bep3Runs.LiveSwapCanBeRefunded` | x/bep3/keeper/swap.go:218-295 | Whatever run came before, a swap still live when its expiry height arrives can be refunded from that block on. |
| `Bep3Runs.RefundUndoesCreate` | x/bep3/keeper/swap.go:78-131 | Creating, expiring and refunding a swap leaves every balance and the incoming, outgoing and current counters as they were. |
| `Bep3Promise.ClaimedExactlyWithSecretInTime` | x/bep3/keeper/swap.go:134-155 | After a create and any run that leaves its swap unsettled: a claim succeeds if and only if the swap is in time and hashing the secret with the timestamp of the message, and that with its sender and other-chain sender, gives the ID; a refund succeeds if and only if it is no longer in time. |
| `Bep3Promise.OnlyTheSecretClaims` | x/bep3/keeper/swap.go:145-152 | If different inputs have different IDs, the claim succeeds if and only if the swap is in time and the secret hashes to the random number hash of the message. |
| `Bep3Promise.CreatePays` | x/bep3/keeper/swap.go:80-103 | Creating an incoming swap moves nothing; creating an outgoing one moves exactly the coin of the message from its sender to the escrow. |
| `Bep3Promise.ClaimPays` | x/bep3/keeper/swap.go:155-191 | After a create and any run that leaves its swap unsettled, a claim gives the recipient of the message exactly its coin if it came from the deputy, else it burns exactly that coin from the escrow; no other balance changes. |
| `Bep3Promise.RefundPays` | x/bep3/keeper/swap.go:228-245 | Likewise a refund gives the coin of an outgoing swap back to the sender of the message and moves nothing for an incoming one. |
| `Bep3Promise.CreateSucceedsExactly` | x/bep3/keeper/swap.go:21-103 | Exactly these messages are accepted, in any state: a new ID, no module as recipient, one coin, a timestamp in the window, an active asset with the amount in its range and the deputy on one side, for outgoing swaps a span in range and more than fee and minimum, and counters, limits and balance that allow it. |
| `Bep3Promise.SettledIsCompleted` | x/bep3/keeper/swap.go:193-250 | A successful claim or refund leaves the swap stored as completed at the height of the block. |
| `Bep3Promise.SettledSwapIsKept` | x/bep3/keeper/keeper.go:144-182 | Over every run a settled swap stays stored as it is while the height is less than 86400 blocks past its settlement. |
| `Bep3Promise.SettledSwapIsDeleted` | x/bep3/keeper/swap.go:298-309 | The first block 86400 or more blocks past the settlement deletes it. |
| `Bep3RateLimit.MintingIsRateLimited` | x/bep3/keeper/asset.go:30-36 | Over every run, what is claimed in at block times of any interval shorter than the period is at most twice the time-based limit. |
| `Bep3RateLimit.MintingIsLimitedOnce` | x/bep3/keeper/asset.go:30-36 | Over every run, what is claimed in at block times of a window in which only the first block may start a new period is at most the time-based limit, however long the window. |
| `Bep3RateLimit.CounterIsMintedSinceReset` | x/bep3/keeper/asset.go:157-184 | Over every run the time-limited counter is exactly what was claimed in since the last reset, plus its starting value exactly when there was none, and the elapsed time is exactly the time since then; the last reset is defined from the block times alone. |
| `Bep3RateLimit.UnlimitedStaysStill` | x/bep3/keeper/asset.go:168-182 | Over every run the time-limited counter of an asset without a time limit is zero. |
| `Bep3RateExact.OnceExactlyWhenUnbroken` | x/bep3/keeper/asset.go:157-184 | For every schedule of blocks on a chain with one asset: every run over it mints at most the limit in a window if and only if, of the blocks in the window, only the first may start a new period. |
| `Bep3RateExact.TwiceAcrossReset` | x/bep3/keeper/asset.go:168-182 | For every schedule, if a block starts a new period, a run over the same schedule claims in the whole limit at any earlier block and again at that block. |
| `Bep3RateExact.TwiceWithinOnePeriod` | x/bep3/keeper/asset.go:168-182 | For every limit and every period of at least two nanoseconds, a run of three blocks that mints twice the limit within one nanosecond. |
| `Bep3Keeper.Keeper.IncrementCurrentAssetSupply` | x/bep3/keeper/asset.go:13-41 | The step-by-step form succeeds, fails and updates the record as the counter function says, with both limits. |
| `Bep3Keeper.Keeper.DecrementCurrentAssetSupply` | x/bep3/keeper/asset.go:44-59 | The same for the decrement of the current supply. |
| `Bep3Keeper.Keeper.IncrementIncomingAssetSupply` | x/bep3/keeper/asset.go:62-91 | The same for the increment of the incoming supply, with both limits. |
| `Bep3Keeper.Keeper.DecrementIncomingAssetSupply` | x/bep3/keeper/asset.go:94-109 | The same for the decrement of the incoming supply. |
| `Bep3Keeper.Keeper.IncrementOutgoingAssetSupply` | x/bep3/keeper/asset.go:112-127 | The same for the increment of the outgoing supply, limited by the current supply. |
| `Bep3Keeper.Keeper.DecrementOutgoingAssetSupply` | x/bep3/keeper/asset.go:130-145 | The same for the decrement of the outgoing supply. |
| `Bep3Keeper.Keeper.CheckSwap` | x/bep3/keeper/swap.go:21-91 | The checks one after another give the same error, or coin and direction, as the specification of create. |
| `Bep3Keeper.Keeper.CreateAtomicSwap` | x/bep3/keeper/swap.go:17-131 | The handler refines the create function: same errors in the same order, same new state. That function is pinned by `CreateSucceedsExactly`, `CreatePays` and, for the stored swap, `ClaimedExactlyWithSecretInTime`, `ClaimPays` and `RefundPays`. |
| `Bep3Keeper.Keeper.ClaimAtomicSwap` | x/bep3/keeper/swap.go:134-215 | The handler refines the claim function, which `ClaimedExactlyWithSecretInTime` and `ClaimPays` pin in terms of the create message. |
| `Bep3Keeper.Keeper.RefundAtomicSwap` | x/bep3/keeper/swap.go:218-267 | The handler refines the refund function. |
| `Bep3Keeper.Keeper.Deliver` | x/bep3/keeper/msg_server.go:24-117 | A message as a transaction: the new state on success, the old one on failure. |
| `Bep3Keeper.Keeper.UpdateTimeBasedSupplyLimit` | x/bep3/keeper/asset.go:168-182 | One asset: its window goes on or a new one begins, and a missing record is made. |
| `Bep3Keeper.Keeper.UpdateTimeBasedSupplyLimits` | x/bep3/keeper/asset.go:157-184 | The loop over the assets and the previous block time refine the tick of all assets. |
| `Bep3Keeper.Keeper.UpdateExpiredAtomicSwaps` | x/bep3/keeper/swap.go:270-295 | The iteration over the expiry index expires exactly the open swaps whose height has come. |
| `Bep3Keeper.Keeper.DeleteClosedAtomicSwapsFromLongtermStorage` | x/bep3/keeper/swap.go:298-309 | The iteration over the long-term index deletes exactly the completed swaps whose storage time is over. |
| `Bep3Keeper.Keeper.BeginBlocker` | x/bep3/abci.go:14-20 | The three loops in order compute the begin-block function and keep the invariant. |
| `Bep3Keeper.EntriesUpTo` | x/bep3/keeper/keeper.go:125-141 | Selecting by byte range up to the end of the height's prefix selects exactly the entries with height up to it. |
| `Bep3Keeper.KeyedInsert` | x/bep3/keeper/keeper.go:112-115 | The byte-keyed index with a key set is the index of the entries with that entry added. |
| `Bep3Keeper.KeyedRemove` | x/bep3/keeper/keeper.go:118-121 | The byte-keyed index with a key deleted is the index of the entries without that entry. |
| `Keys.RangeSelectsHeightsUpTo` | x/bep3/keeper/keeper.go:125-182 | A key lies below PrefixEndBytes(bigEndian(cutoff)) if and only if its height is at most the cutoff, the all-0xFF cutoff included. |
| `Keys.HeightKeyInjective` | x/bep3/types/keys.go:34-36 | Different height and ID give different keys, and the ID can be read back. |
| `Keys.LessIsNumericOrder` | x/auction/types/keys.go:43-47 | Byte order on encoded numbers of equal length is numeric order. |
| `Keys.BigEndianRoundTrip` | x/auction/types/keys.go:43-52 | Decoding an encoded number gives it back. |
| `Keys.FromBigEndianRoundTrip` | x/auction/types/keys.go:50-52 | Encoding a decoded key gives it back, whatever the bytes. |
| `Keys.Uint64ToBytes` | x/auction/types/keys.go:43-47 | Filling the buffer byte by byte gives the eight big-endian digits, and they decode to the number. |
| `Bep3Genesis.Validate` | x/bep3/types/genesis.go:30-59 | The loops accept exactly valid parameters (x/bep3/types/params.go:89-150), valid swaps with different IDs, and valid supplies with different denoms. |
| `Bep3Genesis.CheckPermissions` | x/bep3/genesis.go:15-36 | The loop over the permissions accepts exactly an account that is set and may both mint and burn. |
| `Bep3Genesis.InitGenesis` | x/bep3/genesis.go:14-129 | The import succeeds if and only if the module account is set and may mint and burn and every check passes, and then holds the swaps, both rebuilt indexes, the supplies and the block time. |
| `Bep3Genesis.CheckSupply` | x/bep3/genesis.go:98-128 | Accumulating the live swaps and comparing decides the supply checks for one denom. |
| `Bep3Genesis.ExportGenesis` | x/bep3/genesis.go:132-141 | The export lists every stored swap and supply exactly once. |
| `Bep3Genesis.PassingGenesisEstablishesInv` | x/bep3/genesis.go:45-129 | A genesis that passes establishes the invariant if and only if the listed unchecked conditions hold. |
| `Bep3Genesis.GenesisRoundTrip` | x/bep3/genesis.go:45-141 | From any state with the invariant, export then import gives back the same store, counters and both indexes, and is accepted if and only if every stored swap is valid and its asset active. |
| `Bep3Genesis.EmptyOtherChainSenderIsRefused` | x/bep3/types/msg.go:99-107 | A swap created by a message that passes ValidateBasic with an empty sender on the other chain makes the export unimportable. |
| `Bep3Genesis.ExportOfEveryRunIsImported` | x/bep3/genesis.go:45-141 | After every run whose messages pass ValidateBasic and name that sender, and whose accepted creates do not wrap to the expiry height zero, with all assets active, the export is accepted and restores the state. |
| `Split.SplitIsExact` | x/auction/keeper/math.go:13-66 | For every tie order: parts sum to the amount, each is within less than one unit of the exact share, exact shares are paid exactly, zero weights get zero. |
| `Split.RemaindersMakeLeftover` | x/auction/keeper/math.go:34-54 | The remainders sum to the total weight times the leftover, and the leftover is smaller than the number of buckets. |
| `Split.LeftoverBelowNonZero` | x/auction/keeper/math.go:42-64 | The leftover is smaller than the number of buckets with a non-zero remainder, and zero if there is none. |
| `Split.WinnersHaveRemainder` | x/auction/keeper/math.go:44-64 | Every bucket that gets an extra unit has a non-zero remainder, so the leftover is used up before the zero remainders begin. |
| `Split.SplitIsOptimal` | x/auction/keeper/math.go:42-64 | For every tie order the result minimises the sum of the distances to the exact shares over all integer allocations of the amount. |
| `SplitMethod.TotalInts` | x/auction/keeper/math.go:75-81 | The accumulating loop returns the sum. |
| `SplitMethod.SortByRemainder` | x/auction/keeper/math.go:44-47 | In place: afterwards a permutation of the same elements with decreasing remainders. |
| `SplitMethod.SplitIntIntoWeightedBuckets` | x/auction/keeper/math.go:13-66 | Fails exactly on a negative amount, no buckets, a negative weight or all-zero weights; otherwise the result is a largest-remainder split and sums to the amount. |
| `Decimal.RoundHalfEvenIsNearest` | x/auction/keeper/auctions.go:181-185 | RoundInt gives the nearest integer, ties to even. |
| `Decimal.NearestIsUnique` | x/auction/keeper/auctions.go:181-185 | There is only one such integer, so the rounding is determined. |
| `Decimal.QuoDecClose` | app/tally_handler.go:94-95 | Dec.Quo is within one unit in the last place of the exact quotient. |
| `AuctionFlows.PlanBidFlows` | x/auction/keeper/auctions.go:175-464 | Every accepted bid of any kind: the old bidder gets the old bid back, the new one pays the whole new bid, the initiator gets what is due, debt goes back, a smaller lot leaves the module account. |
| `AuctionFlows.ReverseBidGives` | x/auction/keeper/auctions.go:352-369 | An accepted reverse bid gives every address exactly the payouts standing at its places in the lot returns, and these are a largest-remainder split of the decrease of the lot. |
| `AuctionFlows.ClosingFlows` | x/auction/keeper/auctions.go:507-546 | A payout moves the lot to the bidder and what debt is left to the initiator, and nothing else. |
| `AuctionFlows.DepositFlows` | x/auction/keeper/auctions.go:17-131 | A start brings the module account exactly GetModuleAccountCoins of the new auction. |
| `AuctionInvariant.BidKeepsWellFormed` | x/auction/keeper/auctions.go:175-464 | After a bid at time t: t ≤ EndTime ≤ MaxEndTime, MaxEndTime fixed at the first bid, the bid within the maximum bid, same denoms, same lot returns. |
| `AuctionInvariant.BidKeepsInv` | x/auction/keeper/auctions.go:134-172 | An accepted bid keeps solvency in every denom, the exact index and the well-formed store. |
| `AuctionInvariant.StartKeepsInv` | x/auction/keeper/auctions.go:17-131 | Starting an auction of any kind keeps the same invariant. |
| `AuctionInvariant.CloseSucceeds` | x/auction/keeper/auctions.go:467-546 | Under the invariant, closing a due auction always succeeds, has a real bidder, and keeps the invariant. |
| `AuctionInvariant.ClosingExpiredIsExact` | x/auction/keeper/auctions.go:551-565 | At a time before the distant future, closing in any order never fails, removes exactly the auctions with EndTime ≤ t, and changes every balance by exactly their payouts. |
| `AuctionInvariant.InvInitially` | x/auction/types/genesis.go:75-85 | The empty module has the invariant. |
| `AuctionRuns.EveryRunIsSolvent` | x/auction/keeper/invariants.go:24-49 | After every run of starts, bids, blocks and movements elsewhere the module balance equals, per denom, the sum over the stored auctions, and the index is exact. |
| `AuctionRuns.BeginBlockerNeverFails` | x/auction/abci.go:16-23 | In every reachable state the begin blocker succeeds and leaves no auction with EndTime ≤ t. |
| `AuctionRuns.BidsMakeProgress` | x/auction/keeper/auctions.go:237-464 | Every accepted bid strictly decreases (MaxBid − Bid) + Lot on collateral and Lot on debt, raises a surplus bid, and never leaves the reverse phase. |
| `AuctionRuns.BidKeepsDebtForm` | x/auction/keeper/auctions.go:271-288 | Every bid keeps the closed form: debt held is the starting debt less the present bid, or zero. |
| `AuctionRuns.EveryRunKeepsRecords` | x/auction/keeper/auctions.go:134-546 | Over every run the ledger of every auction, open or closed, stays in order. |
| `AuctionRuns.RecordsOkInitially` | x/auction/types/genesis.go:75-85 | The empty module has its ledgers in order. |
| `AuctionRuns.OutbidBiddersAreMadeWhole` | x/auction/keeper/auctions.go:190-206 | After every run, of every auction, the bidder is out of pocket by exactly the bid and every other user by exactly nothing, in the bid denom. |
| `AuctionRuns.ClosedAuctionsAreSettled` | x/auction/keeper/auctions.go:507-546 | After every run a closed auction's initiator has all debt coins back and has received exactly the final bid, and the module account keeps nothing of it. |
| `AuctionRuns.DebtAndBidsOverRuns` | x/auction/keeper/auctions.go:271-288 | After every run the debt depends on the starting debt and the present bid only, and the number of accepted bids is bounded by what there was to bid. |
| `AuctionRuns.OpenAuctionsAreYoung` | x/auction/keeper/auctions.go:217-221 | After every run an auction that is still open got its first bid at most MaxAuctionDuration ago, however often it was bid on since. |
| `AuctionRuns.ClosedByDeadline` | x/auction/keeper/auctions.go:551-565 | After every run, the first block at or past the first bid plus MaxAuctionDuration leaves the auction closed. |
| `AuctionTerms.StartGives` | x/auction/keeper/auctions.go:17-131 | A start moves exactly the lot (surplus), the debt (debt) or both (collateral) of its message from the initiator to the module account, and nothing else. |
| `AuctionTerms.DebtTerms` | x/auction/keeper/auctions.go:49-85 | From a debt start on, through any run: the present or winning bidder is out of exactly the bid of the message and no other user of anything, the buyer has received exactly that, at most the lot of the message is paid, at the close and to the winner only, and by then the buyer has all its debt coins back. |
| `AuctionTerms.CollateralTerms` | x/auction/keeper/auctions.go:88-131 | From a collateral start on, through any run: the bidder is out of the present bid, at most the maximum bid, and no other user of anything, the seller has received exactly that, lot money goes only to the lot returns and the winner and at the close adds up to exactly the lot, and by then the seller has all its debt coins back. |
| `AuctionTerms.SurplusTerms` | x/auction/keeper/auctions.go:17-46 | From a surplus start on, through any run: the bidder is out of the present bid and no other user of anything, the seller keeps none of it, and exactly the lot of the message is paid, at the close and to the winner only. |
| `AuctionTerms.ClosesExactlyWhen` | x/auction/keeper/auctions.go:551-573 | After any run a block closes an open auction if and only if it has bids and the last one is as long ago as its phase waits (the reverse duration at the maximum bid, the forward duration otherwise) or the first one as long as an auction may last. |
| `AuctionAcceptance.SurplusBidAcceptedExactly` | x/auction/keeper/auctions.go:175-234 | A surplus bid is accepted if and only if it is in time, in the right denom, at least one and at least the integer nearest to the old bid times the increment (ties to even) above the old bid, the bidder has what is due, and the initiator may burn; it then is the bid. |
| `AuctionAcceptance.ForwardBidAcceptedExactly` | x/auction/keeper/auctions.go:237-316 | The same for a forward bid on collateral: the raise is that, or the bid is the maximum bid; it is above the old bid and at most the maximum bid. |
| `AuctionAcceptance.ReverseBidAcceptedExactly` | x/auction/keeper/auctions.go:319-390 | A reverse bid is accepted if and only if it is in time, in the right denom, not negative, at least one and at least the integer nearest to the old lot times the increment below the old lot, the bidder has the bid, and no payout goes to a blocked address; it then is the lot. |
| `AuctionAcceptance.DebtBidAcceptedExactly` | x/auction/keeper/auctions.go:393-464 | The same for a debt bid, without payouts. |
| `AuctionAcceptance.StartSucceedsExactly` | x/auction/keeper/auctions.go:17-131 | While there is a next ID, a start succeeds if and only if the initiator has what it gives, may mint (debt), and the lot returns can be split over (collateral). |
| `AuctionAcceptance.SplittableIsValid` | x/auction/types/auctions.go:266-291 | Lot returns are valid if and only if there are as many addresses as weights, none empty, no weight negative and one positive. |
| `AuctionKeeper.Keeper.SetAuction` | x/auction/keeper/keeper.go:126-137 | Stores the auction and moves its index entry. |
| `AuctionKeeper.Keeper.DeleteAuction` | x/auction/keeper/keeper.go:153-161 | Removes the auction and its index entry, and does nothing if there is no such auction. |
| `AuctionKeeper.Keeper.StoreNewAuction` | x/auction/keeper/keeper.go:109-123 | Stores under the next ID and increments it, or fails without one. |
| `AuctionKeeper.Keeper.StartSurplusAuction` | x/auction/keeper/auctions.go:17-46 | Refines the start function: same errors, same new state, returns the ID. |
| `AuctionKeeper.Keeper.StartDebtAuction` | x/auction/keeper/auctions.go:49-85 | The same for debt auctions, with the minting permission; `StartSucceedsExactly`, `StartGives` and `DebtTerms` pin the start function in terms of the message. |
| `AuctionKeeper.Keeper.StartCollateralAuction` | x/auction/keeper/auctions.go:88-131 | The same for collateral auctions, with the validated lot returns. |
| `AuctionKeeper.Keeper.PlaceBidSurplus` | x/auction/keeper/auctions.go:175-234 | The step-by-step bid fails with the error of its plan, or of the first coin that does not move, or for want of the permission to burn; otherwise it returns the planned auction and balances. `SurplusBidAcceptedExactly` says which bids these are. |
| `AuctionKeeper.Keeper.PlaceForwardBidCollateral` | x/auction/keeper/auctions.go:237-316 | The same for forward bids; on an auction whose bid exceeds its maximum bid the pay-back comes before the error. `ForwardBidAcceptedExactly` says which bids are accepted. |
| `AuctionKeeper.Keeper.PayLotReturns` | x/auction/keeper/auctions.go:355-369 | The loop sends every positive payout in order; the error is that of the first that cannot be sent, or of the first without an address. |
| `AuctionKeeper.Keeper.PlaceReverseBidCollateral` | x/auction/keeper/auctions.go:319-390 | The same for reverse bids, with unusable lot returns failing after the pay-back; once the denom, lot and weight checks pass the payouts are a largest-remainder split of the decrease, whether or not the bid then fails. |
| `AuctionKeeper.Keeper.PlaceBidDebt` | x/auction/keeper/auctions.go:393-464 | The same for debt bids. |
| `AuctionKeeper.Keeper.Dispatch` | x/auction/keeper/auctions.go:146-163 | The bid of the right kind and phase is made, with the result, the error and the split of that kind. |
| `AuctionKeeper.Keeper.PlaceBid` | x/auction/keeper/auctions.go:134-172 | Refines the bid function on the module state: same error or same new state, for a split that was really made. Which bids are accepted is said, kind by kind, in `AuctionAcceptance`. |
| `AuctionKeeper.Keeper.DeliverBid` | x/auction/keeper/msg_server.go:23-43 | A bid as a transaction: the new state on success, the old one and the error on failure, for a split that was really made. |
| `AuctionKeeper.Keeper.CloseAuction` | x/auction/keeper/auctions.go:467-504 | Refines the close function. |
| `AuctionKeeper.Keeper.CloseExpiredAuctions` | x/auction/keeper/auctions.go:551-565 | The iteration closes the auctions of the index range in some order, skipping those not found, until one fails. |
| `AuctionKeeper.Keeper.BeginBlocker` | x/auction/abci.go:16-23 | On a state with the invariant it closes exactly what is due and keeps the invariant. |
| `AuctionChecks.ValidateWeightedAddresses` | x/auction/types/auctions.go:266-291 | The loop accepts exactly non-empty lists of equal length with real addresses and non-negative weights that are not all zero. |
| `AuctionChecks.ValidateAuction` | x/auction/types/auctions.go:74-92 | Decides validity of an auction of any kind. |
| `AuctionChecks.AddHeld` | x/auction/types/auctions.go:126-237 | Adding an auction's module account coins adds its lot or debt or both, per denom, and leaves no zero coins. |
| `AuctionChecks.ModuleAccountInvariant` | x/auction/keeper/invariants.go:24-49 | Reports broken if and only if some denom's balance differs from the sum over the store. |
| `AuctionChecks.ValidAuctionInvariant` | x/auction/keeper/invariants.go:52-81 | Reports broken if and only if some stored auction is invalid. |
| `AuctionChecks.ValidIndexInvariant` | x/auction/keeper/invariants.go:84-132 | Reports broken if and only if an indexed ID is not stored or the sizes differ. |
| `AuctionChecks.IndexExactWhen` | x/auction/keeper/invariants.go:84-132 | The index is exact if and only if that check passes and every entry stands at its auction's end time. |
| `AuctionChecks.IndexCheckIsNotEnough` | x/auction/keeper/invariants.go:114-128 | A store and index that pass the check with one auction not indexed. |
| `AuctionGenesis.Validate` | x/auction/types/genesis.go:88-115 | The loop accepts exactly valid auctions with different IDs below the next ID, and valid parameters. |
| `AuctionGenesis.SetAuctions` | x/auction/genesis.go:28-32 | The loop stores and indexes every auction and adds up its module account coins per denom. |
| `AuctionGenesis.InitGenesis` | x/auction/genesis.go:13-47 | The import succeeds if and only if the genesis is valid and the module account holds exactly its coins, and leaves every auction stored and indexed. |
| `AuctionGenesis.PassingGenesisEstablishesInv` | x/auction/genesis.go:13-47 | A passing genesis gives a solvent store and an exact index, and the full invariant if and only if each auction is well formed. |
| `AuctionGenesis.ExportGenesis` | x/auction/genesis.go:50-74 | The export lists every stored auction exactly once, and fails exactly without a next ID. |
| `AuctionGenesis.GenesisRoundTrip` | x/auction/genesis.go:13-74 | From any state with the invariant, export then import gives back the same state, and is accepted if and only if every stored auction is valid. |
| `AuctionGenesis.ExportOfEveryRunIsImported` | x/auction/genesis.go:13-74 | After every run with named initiators and block times past the first second, the export is accepted and restores the state. |
| `AuctionGenesis.RegisteredInvariantsHoldOnEveryRun` | x/auction/keeper/invariants.go:14-21 | After every such run none of the three registered invariants reports broken. |
| `Tally.TallyIsOrderIndependent` | app/tally_handler.go:70-155 | Any two orders of the same votes give the same results and total power. |
| `Tally.ValidatorPowerIsConserved` | app/tally_handler.go:84-155 | What a voting bonded validator and its voting delegators count for is its bonded tokens, up to one unit in the last place per delegation and one for itself, and one token per derivative holding. |
| `Tally.TotalPowerIsByValidator` | app/tally_handler.go:84-155 | The total voting power is the sum over validators of what is counted through each. |
| `Tally.BkavaIsEverythingHeld` | app/tally_handler.go:194-256 | A voter's entry for a validator is the sum of what wallet, savings and earn hold of its derivative, and nothing else is counted. |
| `TallyMethod.GetAddrBkava` | app/tally_handler.go:212-256 | Collecting from wallet, savings and earn gives one entry per validator with the sum of the three. |
| `TallyDecision.DecisionIsOrderIndependent` | app/tally_handler.go:70-188 | Any two orders of the same votes lead to the same decision. |
| `TallyDecision.DecisionIsAlwaysMade` | app/tally_handler.go:157-188 | With a positive quorum, or when no voting validator has more shares voted with by others than it has, the tally never divides by a zero total. |
| `TallyDecision.PassesExactly` | app/tally_handler.go:157-188 | If not all voting power abstains: to the last unit of the rounding, the proposal passes if and only if the power reaches the quorum, the vetoes do not exceed their threshold of it, and the Yes votes exceed theirs of what does not abstain; and the deposit is burned exactly without the quorum, or on a veto, if the parameters say so. |
| `TallyDecision.VetoRejects` | app/tally_handler.go:177-180 | By multiplication instead of quotients: with the quorum, a veto above its threshold by one unit in the last place rejects with the burn flag for vetoes. |
| `TallyDecision.MajorityPasses` | app/tally_handler.go:182-185 | With the quorum and no veto, Yes votes above their threshold of the power that does not abstain, by one unit in the last place, pass. |
| `TallyDecision.MinorityFails` | app/tally_handler.go:182-188 | With the quorum and no veto, Yes votes within their threshold do not pass and nothing is burned. |
| `TallyDecision.TooFewVotesFail` | app/tally_handler.go:161-175 | No bonded tokens, power below the quorum by one unit in the last place, or nothing but abstention: the proposal fails, with the burn flag for the quorum in the second case only. |
| `TallyDecision.YesNeverHurts` | app/tally_handler.go:157-188 | Moving power from No to Yes never turns a proposal that passes into one that does not. |
| `TallyOptions.OnlyNamedOptions` | app/tally_handler.go:97-100 | An option that a vote does not name gets nothing from it. |
| `TallyOptions.WholeVote` | app/tally_handler.go:97-100 | A vote for one option with weight one gives it exactly the voting power. |
| `TallyOptions.OptionsAddUp` | app/tally_handler.go:150-154 | If the weights of a vote sum to one, the four options together get its voting power, up to half a unit in the last place per weighted option. |
| `TallyOptions.TallyAddsUp` | app/tally_handler.go:70-155 | If the weights of every vote do, the four options of the whole tally add up to the total voting power, up to half a unit per weighted option counted. |
| `TallyOptions.NobodyOrEverybody` | app/tally_handler.go:70-155 | Over the whole tally, an option that no vote names gets nothing, and one that every vote is wholly for gets exactly the total voting power. |
| `TallyMethod.CountDelegations` | app/tally_handler.go:84-105 | The loop over delegations deducts the shares and adds the scores of the bonded ones. |
| `TallyMethod.CountBkava` | app/tally_handler.go:107-135 | The loop over the derivatives, in any order of the map, deducts and adds exactly the order-free sum. |
| `TallyMethod.CountValidators` | app/tally_handler.go:142-155 | The loop over the validator map, in any order, adds exactly the order-free sum of what delegators left. |
| `TallyMethod.MakeDecision` | app/tally_handler.go:157-188 | The quorum, abstention, veto and threshold tests in order give the decision that `PassesExactly` and `TooFewVotesFail` describe. |
| `TallyMethod.TallyVotes` | app/tally_handler.go:44-189 | The whole tally computes the order-free sum in every option and in total, decides from these alone (`PassesExactly`), records the whole tokens of each option, and leaves no vote in the store. |
| `Vesting.PeriodicVestingAccount.ResetPeriodicVestingAccount` | migrate/utils/periodic_vesting.go:13-59 | In place: the periods that end after the new start, their sum, the end time, and delegated coins relabelled per denom. |
| `Vesting.ResetIsUnique` | migrate/utils/periodic_vesting.go:13-59 | The description of the reset determines the account. |
| `Vesting.ResetKeepsUnvestedExactly` | migrate/utils/periodic_vesting.go:14-36 | At every time from the new start on the unvested amount is unchanged if and only if it is not the old start time with periods due there. |
| `Vesting.ResetCanLoseLeadingPeriod` | migrate/utils/periodic_vesting.go:20-36 | An account for which it is changed. |
| `Vesting.KeepPeriods` | migrate/utils/periodic_vesting.go:14-36 | The first loop keeps exactly the periods that end after the new start, the first measured from there, and their sum. |
| `Vesting.VestedAndKept` | migrate/utils/periodic_vesting.go:20-36 | What is vested at a time and what a reset to that time keeps add up to the whole schedule. |
| `Vesting.ResetKeepsValid` | migrate/utils/periodic_vesting.go:50-58 | A valid account stays valid if and only if it has periods or is not moved back. |
| `Vesting.ResetCanLeaveEndBehind` | migrate/utils/periodic_vesting.go:50-58 | A valid account without periods whose reset to an earlier time is not valid. |
| `Vesting.ResetConservesDelegations` | migrate/utils/periodic_vesting.go:38-48 | Delegated vesting plus delegated free is unchanged per denom, and delegated vesting is within the new original vesting. |
| `Vesting.TwoResetsAreOne` | migrate/utils/periodic_vesting.go:13-59 | Resetting to t1 and then to t2 ≥ t1 is resetting to t2. |
| `Banking.ApplyAllNet` | x/auction/keeper/auctions.go:190-212 | A batch of bank operations that goes through changes every balance by exactly its net flow. |

## Left out

- Strength of the hashes, and hex and bech32 parsing: hashes are arbitrary functions.
- Events, logging, telemetry and the creation of accounts for new recipients: no effect on the properties.
- Byte keys of the auction index: entries are pairs of end time and ID; that FormatTimeBytes sorts by time is not modelled.
- Wrap-around of auction IDs at 2^64.
- Enum values outside the declared ones, swaps of a genesis with more than one coin, and the syntax of denoms in auctions.
- Msg.ValidateBasic apart from what genesis and runs need: the length limits on addresses of the other chain.
- TallyMethod.TallyVotes: does not model the error paths of the savings and earn queries.
- Tally.ValidatorPowerIsConserved: says nothing of derivatives of validators that are not bonded; the code adds their power
  without a deduction, and `TotalPowerIsByValidator` counts it as such.
- Codec and packing of interfaces: plumbing.
- GetVestedCoins is code of the SDK; the model follows its documented rule.
- The copies of the auction module under x/keeper and x/types, and x/genesis.go and x/abci.go: nothing new.
- Changes of parameters by governance during a run.
- The other modules (cdp, hard, incentive, earn, swap, savings, committee, community, issuance, pricefeed), the ante handlers
  and the wiring of the application.
