# ChiefSplitter in Dafny

ChiefSplitter is a Solana program. A *splitter* is an account that collects SOL
and tokens and pays them out to up to ten recipients whose shares total 10000.
An admin configures it, recipients can lock a minimum share for themselves, and
anyone may crank the distribution or swap tokens the admin has not whitelisted.
This project models the whole program and proves what its users rely on.

Verify with `dafny verify dfyconfig.toml`.

## How it is built

| module | what it holds |
|---|---|
| `Base` | integers, keys, errors |
| `Ledgers` | balances, floor shares, the pay-out loop and its reference, supply |
| `Records` | the two account records, the instructions, locks |
| `Borsh`, `Wire` | byte formats of instructions, accounts and events; where every byte lies |
| `Worlds` | the chain state, one function per handler, steps and runs |
| `Invariant`, `Cranks`, `Reach` | the account invariant, the exact SOL crank, reachability and conservation |
| `Guarantees`, `Drift`, `Swaps` | promises over whole runs |
| `TokenCranks` | the exact token crank, and whose accounts it reaches |
| `Instructions`, `Refusals` | instruction by instruction: exactly when a call succeeds, what it then does, and which error refuses it |
| `Objects`, `Buffers`, `Runtime`, `Handlers`, `Distribution`, `Selling`, `EntryPoint` | the handlers as they run: loops over arrays, objects and shared account cells |
| `TypeScript` | the client's hand-written encoders |

There are two descriptions of each handler. `Worlds` has a function from the
chain state to the next one; `Handlers`, `Distribution` and `Selling` have the
imperative code on mutable account cells. Each method is proved to *simulate* its
function: same error, or success with all cells as the function says. Accounts
passed twice are one cell, so aliasing is real. `EntryPoint.ProcessInstructionData`
puts them together, from instruction bytes on.

A run is a list of steps. A step is a call of the program, which changes nothing
if it fails, or anything other programs do in between: deposits, token
transfers, dropping accounts without lamports. Accounts hold bytes throughout,
so statements about records are statements about what the stored bytes decode to.

An address's *effective lock* is the largest lock of any of its table entries.
The code never computes it: it checks new shares against every matching entry but
carries over, and raises, only the first match. These agree because the first
entry of an address always holds its largest lock, which is part of the invariant
(`Records.FirstHoldsMax`) and holds in every reachable state although addresses
may repeat.

Nothing here assumes that address derivation is collision-free; where statements
need it for one address (`Guarantees.OwnConfigAddress`), they say so.

## Where code and documentation differ

The model follows the code.

- README.md:48 gives a splitter 442 bytes; state.rs:98-106 adds up to 507.
- README.md:35-44 numbers `SetSellConfig` 7 and knows no `SetSplitterName` or
  `SnsProxy`; lib.rs:24-160 has 12 variants with `SetSplitterName` at 7.
- state.rs:68 says a lock cannot be reduced. It is lost when the address is left
  off the next list (`Records.LockIsLostOffTheList`), and only then
  (`Records.DistributionKeepsLocks`).
- distribute_token.rs:25 says recipient token accounts must match the configured
  recipients. The code pays the accounts supplied, by position, and anybody can
  have all but the dust paid into one account of their choice
  (`TokenCranks.TokensToAnyone`). A payment reaches its addressee exactly when the
  account supplied names it as owner (`TokenCranks.TokenPaymentReaches`); with
  such accounts the table is paid to the unit (`TokenCranks.TokensReachRecipients`).
- lib.rs:129-130 and lib.rs:137 say the output of a swap must be native SOL or a
  whitelisted token in the splitter's own account. For a native destination it is
  (`Swaps.SwapUnwraps`). Otherwise swap_token.rs:91-104 checks the mint account
  passed, and nothing compares it, or an owner, with the destination token
  account: a swap can end in an account of the source mint that belongs to anyone
  (`Swaps.SwapIntoSourceMint`). If the swap program leaves mint and owner of the
  destination alone, the output is as promised exactly when the destination's own
  mint is native or whitelisted, and its owner the splitter
  (`Swaps.SwapOutputExactly`); if it does not, no check before the call is enough,
  since only the amount is read again (`Swaps.SwapMayReplaceDestination`).
- swap_token.rs:30 says the splitter is the authority of the swap call. The
  account list handed to the swap program marks nobody as signer
  (`Selling.ForwardedMetas`), and without taking from the splitter's own token
  accounts no swap succeeds (`Swaps.SwapNeedsDebit`); so a successful swap rests on
  other authority over them, such as a Token-2022 permanent delegate.

## Model

| member | source | states |
|---|---|---|
| Records.DistributionAccepted | programs/chiefsplitter/src/instructions/set_distribution.rs:44-87 | on a well-formed splitter, `SetSplitterDistribution` is accepted if and only if the signer is the unrevoked admin, there are at most 10 entries totalling 10000, none is zero and none is below its address's effective lock |
| Records.DistributionKeepsLocks | programs/chiefsplitter/src/instructions/set_distribution.rs:70-108 | a reconfiguration keeps the effective lock of every address still listed to the unit, and an address left off the list has none |
| Records.DistributionIsWellFormed | programs/chiefsplitter/src/instructions/set_distribution.rs:52-108 | the rebuilt table is well-formed and carries exactly the requested addresses and shares |
| Records.RebuiltLocks | programs/chiefsplitter/src/instructions/set_distribution.rs:89-105 | all entries of an address in a rebuilt table carry the same lock, so its first entry again holds the largest |
| Records.ViolationFreeIffRespectsLocks | programs/chiefsplitter/src/instructions/set_distribution.rs:70-87 | the pairwise check against every old entry rejects exactly the lists that go below some effective lock |
| Records.LockAccepted | programs/chiefsplitter/src/instructions/lock_recipient.rs:43-75 | `LockRecipient` is accepted if and only if the signer is listed and asks for more than its effective lock and no more than its first entry's share; `NotARecipient` means exactly not listed |
| Records.LockRaises | programs/chiefsplitter/src/instructions/lock_recipient.rs:45-69 | a lock sets the signer's effective lock to the amount asked for, above the old one, leaves every other address's alone, changes no share and keeps the splitter well-formed |
| Records.LockIsLostOffTheList | programs/chiefsplitter/src/state.rs:68-69 | counterexample to "once locked, cannot be reduced": lock, then a list without the address |
| Records.ResubmissionAccepted | programs/chiefsplitter/src/instructions/set_distribution.rs:70-87 | resubmitting the current table is accepted exactly when every entry's share covers its address's effective lock |
| Records.ResubmissionIsIdentity | programs/chiefsplitter/src/instructions/set_distribution.rs:89-108 | it changes nothing exactly when all entries of an address carry the same lock |
| Records.ResubmissionOfDistinct | programs/chiefsplitter/src/instructions/set_distribution.rs:70-108 | with distinct addresses resubmission always succeeds and changes nothing |
| Records.ResubmissionCanFail | programs/chiefsplitter/src/instructions/set_distribution.rs:72-87 | with a repeated address it can be refused: a reachable example |
| Records.AuthorityAfter | programs/chiefsplitter/src/instructions/set_admin.rs:41-50 | a transfer hands authority to exactly the new admin, revocation or transfer to the default key to nobody, other instructions leave it; only the admin gets admin instructions through |
| Records.NameReadsBack | programs/chiefsplitter/src/state.rs:132-137 | a name of up to 64 bytes reads back as written, a longer one cut off, with zero padding |
| Records.ModifyKeepsWellFormed | programs/chiefsplitter/src/instructions/revoke_admin.rs:41-52 | every rewriting instruction keeps well-formedness, creator, nonce and bump |
| Records.NewIsWellFormed | programs/chiefsplitter/src/state.rs:109-129 | a new splitter is well-formed |
| Records.NewPaysCreator | programs/chiefsplitter/src/state.rs:121-126 | a new splitter pays any amount entirely to its creator |
| Records.ScanAnswersMembership | programs/chiefsplitter/src/state.rs:209-226 | the scans of a written configuration answer membership in the lists it was written from; padding never counts |
| Ledgers.PayIsSimultaneous | programs/chiefsplitter/src/instructions/distribute_sol.rs:77-88 | the debit/credit loop, with any aliasing, succeeds exactly when every final balance fits 64 bits and then equals paying everyone at once |
| Ledgers.PayConserves | programs/chiefsplitter/src/instructions/distribute_sol.rs:81-83 | the loop keeps the supply of any group of accounts that holds the source and the paid destinations |
| Ledgers.DustBound | programs/chiefsplitter/src/instructions/distribute_sol.rs:77-88 | a complete distribution among n entries never overspends and leaves at most n - 1 units |
| Ledgers.DustBoundIsSharp | programs/chiefsplitter/src/instructions/distribute_sol.rs:77-88 | both bounds are sharp: for each n from 1 to 10 and any n addresses some table of positive shares totalling 10000 pays nobody out of n - 1 units |
| Ledgers.PaidAtOnceByGroup | programs/chiefsplitter/src/instructions/distribute_sol.rs:77-88 | a distribution changes the supply of any group of accounts by what is paid into it, less everything if the source is in it |
| Ledgers.CreditBounds | programs/chiefsplitter/src/instructions/distribute_sol.rs:78-79 | per key, the rounding error is less than one unit per entry naming it |
| Ledgers.FixedPoint | programs/chiefsplitter/src/instructions/distribute_sol.rs:78-81 | a distribution moves nothing exactly when amount * share < 10000 for every entry |
| Ledgers.Liveness | programs/chiefsplitter/src/instructions/distribute_sol.rs:77-88 | an amount of at least n units pays some entry at least 1 |
| Ledgers.PayoutsPermute | programs/chiefsplitter/src/instructions/distribute_sol.rs:77-83 | permuting the table changes nobody's payout |
| Ledgers.SupplyFits | programs/chiefsplitter/src/instructions/distribute_sol.rs:83 | if the supply fits 64 bits, no credit can overflow |
| Cranks.CastIsLossless | programs/chiefsplitter/src/instructions/distribute_sol.rs:79 | for shares up to 10000 the cast from 128 to 64 bits drops nothing |
| Cranks.CrankIsSimultaneous | programs/chiefsplitter/src/instructions/distribute_sol.rs:40-88 | on a live splitter `DistributeSOL` succeeds if and only if there is something above rent, the accounts are the table's in order and all balances fit; it then has paid all floor shares at once and logged them |
| Cranks.CrankLeavesDust | programs/chiefsplitter/src/instructions/distribute_sol.rs:44-88 | the splitter keeps its rent, and at most n - 1 lamports more when it is not its own recipient |
| Cranks.CrankConserves | programs/chiefsplitter/src/instructions/distribute_sol.rs:77-88 | the total of all lamports is unchanged, for every table and every aliasing |
| Cranks.CrankNeverOverflows | programs/chiefsplitter/src/instructions/distribute_sol.rs:82-86 | while the lamport supply fits 64 bits, funds and the right accounts are all a crank needs |
| Cranks.CrankIsLive | programs/chiefsplitter/src/instructions/distribute_sol.rs:77-88 | with at least n distributable lamports a crank names a table entry whose account, unless it is the splitter itself, gains at least 1 |
| Cranks.EventsReportPayments | programs/chiefsplitter/src/events.rs:11-24 | reading the log back gives exactly the nonzero payments in order, summing to everything sent |
| Cranks.CrankLogExplainsBalances | programs/chiefsplitter/src/instructions/distribute_sol.rs:81-86 | a crank logs SOL events of its splitter for exactly the nonzero payments in order, and they account for every other balance's gain to the lamport |
| Reach.ReachableSplitters | programs/chiefsplitter/src/state.rs:96-157 | in every run from before the first splitter, each splitter is well-formed, has recipients, is rent-exempt and sits at the address its stored creator, nonce and bump derive |
| Reach.RunKeepsInv | programs/chiefsplitter/src/lib.rs:190-239 | the account invariant survives every run of calls and outside activity |
| Invariant.Frame | programs/chiefsplitter/src/lib.rs:190-239 | beyond its own target an instruction changes no account data, and it debits no account of the program other than by a crank or a close |
| Invariant.OwnedConfigSize | programs/chiefsplitter/src/instructions/set_sell_config.rs:111-113 | a sell configuration cannot be written over a splitter, even if their addresses met: it does not fit |
| Reach.HandlersConserve | programs/chiefsplitter/src/instructions/close_sell_config.rs:69-76 | no handler makes or loses lamports, with one exception that the runtime's balance check stops: closing a funded configuration into itself |
| Reach.CreateSucceedsExactly | programs/chiefsplitter/src/instructions/create.rs:36-78 | `CreateSplitter` goes through if and only if the creator signs and can pay the rent from a plain wallet, address and name are right, and nothing is at the address, not even one lamport |
| Reach.AnyoneCanCrank | programs/chiefsplitter/src/instructions/distribute_sol.rs:17-21 | the crank is permissionless: any live splitter with funds can be paid out by a call with no signer |
| Reach.BytesRunInstructions | programs/chiefsplitter/src/lib.rs:178-239 | running the encoded bytes is running the instruction |
| Reach.OnlyEncodingsRun | programs/chiefsplitter/src/lib.rs:187-188 | whatever runs was the encoding of an instruction |
| Guarantees.SplitterStep | programs/chiefsplitter/src/lib.rs:190-239 | a splitter never goes away and changes only through one of its five rewriting instructions, with the signature that instruction needs |
| Guarantees.RewriteSucceedsExactly | programs/chiefsplitter/src/lib.rs:195-222 | a rewriting call goes through exactly when its signer signs, the account is a splitter and the record-level operation accepts, whatever the other accounts and funds |
| Guarantees.RecipientCanLock | programs/chiefsplitter/src/instructions/lock_recipient.rs:28-75 | with no other signature, an address can lock m if and only if it is listed, m is above its effective lock and at most its first entry's share |
| Guarantees.IdentityIsForever | programs/chiefsplitter/src/state.rs:149-155 | creator, nonce and bump never change and always derive the account's own address |
| Guarantees.LockNeverFalls | programs/chiefsplitter/src/instructions/set_distribution.rs:89-105 | over any run that keeps an address listed, its effective lock never falls |
| Guarantees.CrankHonoursLock | programs/chiefsplitter/src/instructions/distribute_sol.rs:77-83 | a crank pays a listed address at least its effective lock's share |
| Guarantees.LockedPayoutIsGuaranteed | programs/chiefsplitter/src/instructions/lock_recipient.rs:45-69 | after locking m, in every run whose reconfigurations keep the address listed, each successful crank raises its balance by at least floor(D * m / 10000) |
| Guarantees.LocksAccumulate | programs/chiefsplitter/src/instructions/lock_recipient.rs:50-60 | without reconfiguration shares stand still and each successful lock raises the sum of locks |
| Guarantees.AtMostTenThousandLocks | programs/chiefsplitter/src/instructions/lock_recipient.rs:50-60 | so at most 10000 locks succeed between two reconfigurations |
| Guarantees.RevocationIsForever | programs/chiefsplitter/src/instructions/revoke_admin.rs:41-49 | once the admin is the default key, no run changes admin, identity, name, addresses or shares, locks only grow, and the payouts of any amount are fixed |
| Guarantees.RevokedConfigIsFrozen | programs/chiefsplitter/src/instructions/set_sell_config.rs:53-58 | nor can the sell configuration change: if one loads after a run, it is the one from before, byte for byte |
| Guarantees.RevokedConfigStaysIffFunded | programs/chiefsplitter/src/instructions/set_sell_config.rs:53-58 | it stays, byte for byte, through every run if and only if its account has lamports |
| Guarantees.UnfundedIsReachable | programs/chiefsplitter/src/instructions/close_sell_config.rs:69-80 | a revoked splitter with a configuration without lamports occurs: close, set and revoke in one transaction; the next step may drop it |
| Guarantees.ConfigStep | programs/chiefsplitter/src/lib.rs:190-239 | a configuration that loads after any step was just written by `SetSellConfig` or was there before, byte for byte |
| Guarantees.WritingIsAuthorised | programs/chiefsplitter/src/instructions/set_sell_config.rs:46-58 | only the unrevoked admin of the splitter named, signing, writes or closes a configuration, at that splitter's configuration address |
| Drift.EverythingIsPaidOut | programs/chiefsplitter/src/instructions/distribute_sol.rs:77-88 | conservation over every run under one table without the splitter: the balance gains of all recipients by cranks, each address once, plus what is still there equal what was there plus what entered |
| Drift.DriftBound | programs/chiefsplitter/src/instructions/distribute_sol.rs:44-88 | over any interleaving of deposits and K cranks under one table, ending in a crank, an account's total payout P satisfies s*T - 9999*c*K <= 10000*P <= s*(T + (n-1)*(K-1)), and the payouts of all recipients plus at most n - 1 lamports of dust are exactly T |
| Drift.LockedShareOfEverything | programs/chiefsplitter/src/instructions/lock_recipient.rs:45-69 | over any run that keeps a locked address listed, reconfigurations included, ending in the K-th crank, its total payout P satisfies 10000*P >= m*T - 9999*K |
| Ledgers.CreditPartition | programs/chiefsplitter/src/instructions/distribute_sol.rs:77-83 | payments add up the same way by recipient as by entry, also when addresses repeat |
| Drift.MovingExactly | programs/chiefsplitter/src/instructions/distribute_sol.rs:77-88 | a crank changes some balance exactly when amount * share >= 10000 for some entry, and then lowers what is distributable |
| Drift.CrankingTerminates | programs/chiefsplitter/src/instructions/distribute_sol.rs:49-88 | after one crank, with no deposits, at most n - 1 further cranks move anything |
| Swaps.ScansAnswerLatest | programs/chiefsplitter/src/state.rs:209-226 | over all runs the scans answer membership in the lists of the latest successful `SetSellConfig` |
| Swaps.ClosedMeansNoSwap | programs/chiefsplitter/src/instructions/close_sell_config.rs:59-80 | after `CloseSellConfig`, and until the next `SetSellConfig`, swapping and closing are refused |
| Guarantees.WrittenConfigLoads | programs/chiefsplitter/src/instructions/set_sell_config.rs:100-113 | a configuration just set loads with exactly the lists given |
| Swaps.SwapSells | programs/chiefsplitter/src/instructions/swap_token.rs:127-191 | for every effect of the swap program, a successful swap had distinct accounts, a strictly smaller source and, unless native, a strictly larger destination |
| Swaps.SwapUnwraps | programs/chiefsplitter/src/instructions/swap_token.rs:193-210 | a native swap closed the splitter's own native account and put its lamports on the splitter |
| Swaps.SwapObeysLatest | programs/chiefsplitter/src/instructions/swap_token.rs:83-113 | it obeyed the latest lists: source mint outside, the mint account passed as destination native or inside (hence different), program approved |
| Swaps.SwapNeedsDebit | programs/chiefsplitter/src/instructions/swap_token.rs:138-188 | a swap program that takes nothing from the splitter's token accounts, in a call that carries no signature, cannot make a swap succeed |
| Swaps.SwapPossible | programs/chiefsplitter/src/instructions/swap_token.rs:91-191 | past the guards, for a mint that is not native, some effect within the modelled rules (debiting the splitter's account included) leads to success if and only if the two accounts differ and the destination has room for one unit |
| Swaps.SwapOutputExactly | programs/chiefsplitter/src/lib.rs:128-137 | over swap programs that leave mint and owner of the destination alone, every successful swap ends in native or whitelisted tokens if and only if the destination's own mint is one, and at the splitter if and only if the destination is the splitter's |
| Swaps.SwapMayReplaceDestination | programs/chiefsplitter/src/instructions/swap_token.rs:179-191 | without that restriction no check before the call suffices: the destination can end with any mint and owner |
| Swaps.SwapIntoSourceMint | programs/chiefsplitter/src/instructions/swap_token.rs:127-191 | counterexample to "output must be native or whitelisted": the swap succeeds into an account of the source mint of any owner, for effects that may debit the splitter's account |
| Swaps.SwapsAreBounded | programs/chiefsplitter/src/instructions/swap_token.rs:183-191 | an account that is never refilled can be swapped from at most as often as its starting balance |
| TokenCranks.TokenCrank | programs/chiefsplitter/src/instructions/distribute_token.rs:77-144 | `DistributeToken` pays the i-th account supplied its floor share, all at once under any aliasing, conserves the mint's supply, touches no other mint, leaves at most n - 1 units, and the log it adds holds token events of its splitter that report the nonzero payments in order under the table's addresses |
| TokenCranks.TokenCrankAccepted | programs/chiefsplitter/src/instructions/distribute_token.rs:88-144 | past its checks it succeeds exactly when all accounts to be paid hold the mint and no balance overflows; the stored seeds always sign |
| TokenCranks.TokensReachOwners | programs/chiefsplitter/src/instructions/distribute_token.rs:88-144 | whatever accounts are supplied, the accounts of the mint that belong to any one owner gain together exactly the payments made to accounts naming it, less everything for the splitter |
| TokenCranks.TokensReachRecipients | programs/chiefsplitter/src/instructions/distribute_token.rs:25-144 | when each account that is owed something belongs to the recipient in its position, the accounts of every address but the splitter gain exactly what the table owes it |
| TokenCranks.TokenPaymentReaches | programs/chiefsplitter/src/instructions/distribute_token.rs:107-144 | the i-th nonzero payment reaches an account of its addressee if and only if the account supplied names it as owner; otherwise the addressee gets nothing from it |
| TokenCranks.TokensToAnyone | programs/chiefsplitter/src/instructions/distribute_token.rs:25-144 | counterexample to "must match configured recipients": a call without signatures pays all but at most n - 1 units into one account of any owner |
| TokenCranks.TokenCrankHonoursLock | programs/chiefsplitter/src/instructions/distribute_token.rs:107-144 | a listed address whose own accounts are supplied for it gains at least its effective lock's share, whatever is supplied for the others |
| TokenCranks.LockedTokensAreGuaranteed | programs/chiefsplitter/src/instructions/lock_recipient.rs:45-69 | so after every run that keeps a locked address listed |
| Instructions.RewriteExactly | programs/chiefsplitter/src/instructions/set_name.rs:31-55 | each of the five rewriting instructions succeeds if and only if its signer signs and what it asks is granted (admin, lists, locks, name length); then only the record changes, exactly as asked: the table with each address's effective lock, the new admin, no admin, the name read back with zero padding, or the first entry's lock |
| Instructions.CreateDoes | programs/chiefsplitter/src/instructions/create.rs:63-92 | a successful `CreateSplitter` charges the creator exactly the rent and leaves a record with the creator as admin and only recipient, the name and the derived bump, and nothing else changed |
| Instructions.SetSellConfigSucceeds | programs/chiefsplitter/src/instructions/set_sell_config.rs:36-113 | `SetSellConfig` succeeds if and only if the admin signs, at most 10 mints and 5 programs are given, the address is right, and a configuration-sized account is there or a plain wallet signs that can pay the rent for an empty address |
| Instructions.SetSellConfigDoes | programs/chiefsplitter/src/instructions/set_sell_config.rs:76-113 | the account then reads back the lists given with empty slots behind them; a new one holds exactly the rent, debited from the payer, an existing one moves no lamports |
| Instructions.CloseSucceeds | programs/chiefsplitter/src/instructions/close_sell_config.rs:26-76 | `CloseSellConfig` succeeds if and only if the admin signs, the configuration loads at the splitter's configuration address, the sum of lamports fits, and a funded configuration is not closed into itself |
| Instructions.CloseDoes | programs/chiefsplitter/src/instructions/close_sell_config.rs:69-80 | it moves all lamports to the admin and leaves 523 zero bytes that no longer load, nothing else changed |
| Instructions.SolCrankExactly | programs/chiefsplitter/src/instructions/distribute_sol.rs:27-88 | `DistributeSOL`, for any account list: succeeds if and only if the first account is a splitter above its rent, the next ones are the table's addresses in order and all balances fit; it pays the floor shares at once and touches lamports and log only |
| Instructions.TokenGuardsExactly | programs/chiefsplitter/src/instructions/distribute_token.rs:37-95 | the checks of `DistributeToken` pass exactly for the SPL Token program or Token-2022, a splitter, a nonempty source of that program and mint owned by the splitter, a mint account, and one account for each recipient |
| Instructions.TokenCrankExactly | programs/chiefsplitter/src/instructions/distribute_token.rs:30-144 | a token crank succeeds if and only if besides every account something is owed to is a token account of the mint under that program and no balance overflows |
| Instructions.SwapGuardsExactly | programs/chiefsplitter/src/instructions/swap_token.rs:63-133 | over all runs, the checks of `SwapToken` pass if and only if the latest lists allow it (source mint outside, destination native or inside, program inside), the source is a nonempty account of that mint owned by the splitter and the destination a token account |
| Instructions.NativeSwapPossible | programs/chiefsplitter/src/instructions/swap_token.rs:179-210 | past the checks, a swap to native SOL can succeed if and only if the accounts differ, the destination has room and account 7 is one of the two token programs; leaving mint and owner of the destination alone, exactly when it is besides a native account of the splitter |
| Instructions.SwapDoes | programs/chiefsplitter/src/instructions/swap_token.rs:179-210 | what a successful swap leaves: what the swap program left, and for native SOL the destination closed onto the splitter; no data or log changed |
| Instructions.SnsProxyExactly | programs/chiefsplitter/src/instructions/sns_proxy.rs:27-104 | `SnsProxy` succeeds if and only if the unrevoked admin signs, the program is one of the two name-service programs and the call succeeds; what it leaves is left |
| Refusals.FirstErrors | programs/chiefsplitter/src/lib.rs:190-239 | every instruction answers `NotEnoughAccountKeys` exactly below its number of accounts, and then `MissingRequiredSigner` exactly when its signer did not sign |
| Refusals.RecordErrors | programs/chiefsplitter/src/instructions/set_distribution.rs:44-87 | which condition gives which error for the five rewriting instructions, both ways |
| Refusals.SolCrankErrors | programs/chiefsplitter/src/instructions/distribute_sol.rs:49-71 | which condition gives which error for a crank of a live splitter, both ways |
| Refusals.SwapListErrors | programs/chiefsplitter/src/instructions/swap_token.rs:83-113 | which list refuses a swap, with which error, in terms of the latest lists |
| Borsh.InstructionRoundTrip | programs/chiefsplitter/src/lib.rs:23-160 | decoding an encoded instruction returns it, for all 12 variants |
| Borsh.InstructionCanonical | programs/chiefsplitter/src/lib.rs:187-188 | every accepted byte string is the encoding of its result, so trailing bytes are rejected |
| Borsh.SplitterRoundTrip | programs/chiefsplitter/src/state.rs:74-106 | a splitter record reads back from its 507 bytes |
| Borsh.SplitterCanonical | programs/chiefsplitter/src/state.rs:74-106 | every 507-byte string is the encoding of the record it decodes to |
| Borsh.SellConfigRoundTrip | programs/chiefsplitter/src/state.rs:161-188 | a sell configuration reads back from its 523 bytes |
| Borsh.SellConfigCanonical | programs/chiefsplitter/src/state.rs:161-188 | every 523-byte string is the encoding of the record it decodes to |
| Borsh.ZerosAreNoSellConfig | programs/chiefsplitter/src/instructions/close_sell_config.rs:78-80 | zeroed bytes still decode, but not to an initialised configuration |
| Borsh.EventRoundTrip | programs/chiefsplitter/src/events.rs:5-24 | the 81-byte record determines splitter, recipient, amount and kind |
| Wire.LEDigit | programs/chiefsplitter/src/lib.rs:30-44 | byte i of an encoded number is its i-th digit to the base 256 |
| Wire.InstructionBytes | programs/chiefsplitter/src/lib.rs:23-160 | for all 12 variants, an instruction's bytes are exactly: its number, then each field at its offset, numbers byte by byte, lists item by item |
| Wire.WireIsDecoded | programs/chiefsplitter/src/lib.rs:187-188 | the program decodes an instruction from exactly these bytes |
| Wire.SplitterBytes | programs/chiefsplitter/src/state.rs:74-106 | a splitter account decodes to a record exactly when each field lies at its offset in 507 bytes |
| Wire.SellConfigBytes | programs/chiefsplitter/src/state.rs:161-188 | a sell configuration decodes to a record exactly when each field lies at its offset in 523 bytes |
| Wire.EventBytes | programs/chiefsplitter/src/events.rs:12-24 | an event's record is exactly the discriminator, splitter, recipient, amount and kind at their offsets in 81 bytes |
| Objects.SplitterState.SetName | programs/chiefsplitter/src/state.rs:131-137 | the in-place copy, zero fill and length computes the truncated, padded name |
| Objects.SplitterState.New | programs/chiefsplitter/src/state.rs:109-129 | builds the initial record in place |
| Objects.SellConfigState.Fill | programs/chiefsplitter/src/instructions/set_sell_config.rs:100-109 | the two fill loops produce the padded tables |
| Objects.SellConfigState.IsWhitelisted | programs/chiefsplitter/src/state.rs:208-216 | the loop decides membership among the counted slots, or traps past the table |
| Objects.SellConfigState.IsApprovedProgram | programs/chiefsplitter/src/state.rs:218-226 | likewise for approved programs |
| Runtime.EmitDistribution | programs/chiefsplitter/src/events.rs:11-24 | the segment-by-segment fill logs exactly the event's 81 bytes |
| Handlers.RaiseLock | programs/chiefsplitter/src/instructions/lock_recipient.rs:43-75 | the scan with its flag and early exits is the lock operation, error by error |
| Handlers.CheckLocks | programs/chiefsplitter/src/instructions/set_distribution.rs:70-87 | the nested loops reject exactly when some current entry of the address is locked above the new share |
| Handlers.CarriedLock | programs/chiefsplitter/src/instructions/set_distribution.rs:92-99 | the inner loop with its break finds the first match's lock |
| Handlers.BuildTable | programs/chiefsplitter/src/instructions/set_distribution.rs:89-105 | the outer loop builds the padded new table |
| Handlers.CheckShares | programs/chiefsplitter/src/instructions/set_distribution.rs:57-68 | the sum and zero-share loops, with their errors |
| Handlers.Reconfigure | programs/chiefsplitter/src/instructions/set_distribution.rs:52-108 | validation and rebuild together are the reconfiguration of the record |
| Handlers.ProcessSetDistribution | programs/chiefsplitter/src/instructions/set_distribution.rs:19-117 | on account cells: decode, check, rebuild, serialise simulates the world step |
| Handlers.ProcessCreateSplitter | programs/chiefsplitter/src/instructions/create.rs:24-92 | on account cells: checks, account creation and the initial record simulate the world step |
| Handlers.ProcessSetAdmin | programs/chiefsplitter/src/instructions/set_admin.rs:19-58 | on account cells: simulates the world step, error by error |
| Handlers.ProcessRevokeAdmin | programs/chiefsplitter/src/instructions/revoke_admin.rs:19-57 | on account cells: simulates the world step, error by error |
| Handlers.ProcessLockRecipient | programs/chiefsplitter/src/instructions/lock_recipient.rs:20-80 | on account cells: simulates the world step, error by error |
| Handlers.ProcessSetSplitterName | programs/chiefsplitter/src/instructions/set_name.rs:19-60 | on account cells: simulates the world step, error by error |
| Distribution.CollectRecipients | programs/chiefsplitter/src/instructions/distribute_sol.rs:55-71 | the collection loop accepts exactly the table's accounts in order |
| Distribution.PayLamports | programs/chiefsplitter/src/instructions/distribute_sol.rs:73-88 | the loop over shared cells is the ledger loop, traps included, and logs each nonzero payment |
| Distribution.ProcessDistributeSol | programs/chiefsplitter/src/instructions/distribute_sol.rs:22-93 | on account cells: simulates the world step, aliases included |
| Distribution.PayTokens | programs/chiefsplitter/src/instructions/distribute_token.rs:107-144 | the transfer loop is the ledger loop over token amounts, refusing accounts that may not receive |
| Distribution.ProcessDistributeToken | programs/chiefsplitter/src/instructions/distribute_token.rs:26-153 | on account cells: simulates the world step |
| Selling.ProcessSetSellConfig | programs/chiefsplitter/src/instructions/set_sell_config.rs:26-122 | on account cells: simulates the world step |
| Selling.ProcessCloseSellConfig | programs/chiefsplitter/src/instructions/close_sell_config.rs:20-85 | on account cells: lamport moves in order, then zero fill, simulate the world step |
| Selling.ForwardedMetas | programs/chiefsplitter/src/instructions/swap_token.rs:138-147 | every account handed to the swap program keeps its position and writability and loses its signer flag |
| Selling.CheckSwap | programs/chiefsplitter/src/instructions/swap_token.rs:63-133 | the guards, in order, with their errors |
| Selling.ProcessSwapToken | programs/chiefsplitter/src/instructions/swap_token.rs:44-216 | on account cells: simulates the world step for any effect of the swap program, which is called with every signer flag cleared |
| Selling.ProcessSnsProxy | programs/chiefsplitter/src/instructions/sns_proxy.rs:27-104 | on account cells: simulates the world step for any effect of the name service, which is called with only the splitter marked as signer |
| EntryPoint.ProcessInstructionData | programs/chiefsplitter/src/lib.rs:178-240 | decoding and dispatch on account cells simulate the world step of the decoded instruction |
| TypeScript.EncodeCreateSplitter | tests/typescript/test_splitter.ts:31-41 | the offset encoder writes exactly the Borsh encoding; stated on the bytes: its number, then each field at its offset |
| TypeScript.EncodeSetDistribution | tests/typescript/test_splitter.ts:43-61 | the offset loop writes exactly the Borsh encoding; stated on the bytes: its number, then each field at its offset |
| TypeScript.EncodeSetAdmin | tests/typescript/test_splitter.ts:63-69 | exactly the Borsh encoding; stated on the bytes: its number, then each field at its offset |
| TypeScript.EncodeRevokeAdmin | tests/typescript/test_splitter.ts:71-73 | exactly the byte 3, the Borsh encoding |
| TypeScript.EncodeDistributeSOL | tests/typescript/test_splitter.ts:75-77 | exactly the byte 4, the Borsh encoding |
| TypeScript.EncodeDistributeToken | tests/typescript/test_splitter.ts:79-81 | exactly the byte 5, the Borsh encoding |
| TypeScript.EncodeLockRecipient | tests/typescript/test_splitter.ts:83-89 | exactly the Borsh encoding; stated on the bytes: its number, then each field at its offset |
| TypeScript.EncodeSetSplitterName | tests/typescript/test_splitter.ts:91-99 | exactly the Borsh encoding; stated on the bytes: its number, then each field at its offset |
| TypeScript.EncodeSetSellConfig | tests/typescript/test_splitter.ts:101-125 | the two offset loops write exactly the Borsh encoding; stated on the bytes: its number, then each field at its offset |
| TypeScript.EncodeCloseSellConfig | tests/typescript/test_splitter.ts:127-129 | exactly the byte 9, the Borsh encoding |
| TypeScript.EncodeSwapToken | tests/typescript/test_splitter.ts:131-138 | exactly the Borsh encoding; stated on the bytes: its number, then each field at its offset |

## Left out

- Accounts not owned by this program whose data imitates a splitter or a configuration: account data in the model comes only from this program's own instructions.
- The runtime's own checks other than atomicity, its balance check and the removal of empty accounts: writability, account ownership, compute limits. A call that succeeds in the model may still be refused by them.
- The rent sysvar: rent exemption is an arbitrary positive constant.
- Address derivation: an arbitrary pair of functions; a bump outside the search is treated like any other.
- Which of two runtime failures happens: an overflow or index trap and a failed call into another program are one error, `Aborted`.
- The inside of swap and name-service programs: their effect on balances and token accounts is arbitrary, except that lamports are conserved, as the runtime checks, and this program's accounts are not debited.
- The token programs beyond plain transfers and closing: frozen accounts, delegates. Transfer fees cannot occur, because the mint unpacker used refuses mints with extensions.
- Worlds.HandleDistributeTokens: for the native mint the token program moves lamports between the accounts along with the tokens; the model moves the token amounts only.
- Swaps.SwapPossible: the effects of the swap program are wider than the runtime allows, since a token account of the splitter may be debited in a call without its signature. That is safe for statements about every effect; that some effect succeeds holds for mints with features such as a permanent delegate.
- Swaps.SwapIntoSourceMint: its effect is of that kind, too.
- Swaps.SwapMayReplaceDestination: its effect is of that kind, too.
- Swaps.SwapOutputExactly: that a swap ends elsewhere rests on an effect of that kind; that it ends as promised holds for every effect that leaves the destination's mint and owner alone.
- UTF-8: validity is an arbitrary predicate on bytes.
- Handlers.ProcessCreateSplitter: the system program account itself is not checked; `create_account` is modelled as needing a fresh address and a plain wallet with enough lamports.
- Logging text, the IDL, build scripts and the network part of the TypeScript file.
- Buffer errors of the TypeScript encoders for values outside their integer types: the encoders are proved for values of those types.
- Drift.DriftBound: stated per account with its total share s in c entries; for an address listed once, c is 1 and s its share.
