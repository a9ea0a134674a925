# Back It (Onchain): a Dafny model of its contracts and backend protocols

The project models the stateful core of the repository and proves what it keeps over whole runs:

- **Call registry** (`registry_*.dfy`, `reputation.dfy`, `creator_pages.dfy`): the escrow and lifecycle of prediction
  calls. `registry_state.dfy` is a state machine with one step function for each entry point, over any token balances,
  including tokens that deliver less than was sent. `registry_history.dfy` records what a run has paid, forfeited and
  burned. The invariants and theorems are in `registry_ledger.dfy`, `registry_refunds.dfy`, `registry_redemption.dfy`,
  `registry_escrow.dfy`, `registry_payability.dfy`, `registry_guards.dfy`, `registry_overpayment.dfy` and
  `registry_limits.dfy`; what single transactions do, told from balances, records and callers alone, is in
  `registry_exits.dfy`, `registry_movements.dfy`, `registry_records.dfy` and `registry_access.dfy`.
  `registry_theorems.dfy` spells the main ones out for every run from a fresh deployment.
  `registry_double_refund.dfy` and `registry_limit_drop.dfy` (with `registry_scenarios.dfy`) give a run that pays a
  staker twice and one whose stake lowers the staker's own limit. `registry_contract.dfy` is the contract as its
  entry points execute it, with storage fields written one after the other, proved to follow the state machine;
  `registry_host.dfy` proves that every transaction on that object keeps the invariants.
- **Multisig** (`multisig.dfy`, `multisig_settings.dfy`): proposals behind a timelock and a threshold.
- **Call metadata** (`base64.dfy`, `call_keys.dfy`): the base64 encoder over its fixed buffer against a bit-level
  definition of section 4 of RFC 4648, and the storage keys.
- **BACKit token** (`backit_token.dfy`, `backit_contract.dfy`, `backit_supply.dfy`, `backit_revenue.dfy`,
  `backit_liability.dfy`, `backit_effects.dfy`): fixed supply, boosted stakes and fee claims from snapshots. Every
  entry point of the token and multisig objects requires and ensures their invariant, `Valid()`.
- **Idempotency boundary** (`canonical_body.dfy`, `idempotency.dfy`, `idempotency_service.dfy`): the protocol of
  claims, executors, lost writes and cleanup in any interleaving, and canonical and sanitised bodies.
- **Event store** (`event_store.dfy`, `event_replay.dfy`, `event_visibility.dfy`), **reconciliation**
  (`reconciliation.dfy`, `reconciliation_rows.dfy`) and **webhook rate limiter** (`rate_limiter.dfy`).

A failed entry point, by error or panic, leaves the state unchanged; the contracts are compiled with overflow checks,
so an i128 or u64 result out of range is such a failure. Ledger time does not go back. Addresses are compared for
equality only. Signatures are the addresses named as callers; a contract never signs for itself. SHA-256 is taken to be
collision-free.

Where the code and its documentation differ, the model follows the code:

- Creating a call moves no tokens (`packages/contracts/call_registry/src/lib.rs:236-474`), yet cancelling and emergency
  cancelling pay back an "escrowed stake" (lines 1426-1433 and 1553-1560). `RegistryEscrow.OnlyDrainsLower` gives the
  exact list of transactions that take more out of the escrow than stakes put in.
- Void refunds are documented as full but read positions 1 and 2 only; see `RegistryRefunds.VoidRefundIsFullIff`.
- Early exits do not burn shares; see `RegistryRedemption.EarlyExitExcess`.
- A void refund does not look at expiry refunds already paid; see `RegistryRefunds.VoidRefundWithinStakeIff`.
- Approvals are documented as coming from the admin set but are not checked for membership
  (`packages/contracts/call_registry/src/admin.rs:239-260`); see `MultisigRuns.MembersDecideIff`.
- The documented maximum of ten admins is not enforced (`packages/contracts/call_registry/src/lib.rs:968-984`).
- Event sequences are documented as gapless and as what guarantees the order of replay
  (`packages/backend/src/event-store/entities/event-store-entry.entity.ts:55-62`), but a generated number is taken when
  an insert starts and the event is visible when it commits; see `EventVisibility.ReplayAgreesInEveryRunIff`.
- A fingerprint conflict is documented as status 422 but raised as a conflict error
  (`packages/backend/src/idempotency/idempotency.interceptor.ts:37` and 99-104).

The whole project is verified by `dafny verify dfyconfig.toml`.

## Model

| member | source | states |
|---|---|---|
| `RegistryTheorems.LedgersInEveryRun` | packages/contracts/call_registry/src/lib.rs:1888-2001 | After any run of transactions from a fresh deployment, for every call, position and user: the per-user record equals the call's staker entry, and the position total is the sum of the entries plus all penalties forfeited there. |
| `RegistryTheorems.RefundsInEveryRun` | packages/contracts/call_registry/src/lib.rs:1472-1625 | After any run, for either kind of refund: the claim flags are exactly the stakers paid, each was paid the records the refund reads (positions 1 and 2 for a void refund, all positions for an expiry refund), and together they are at most the pot of the call. |
| `RegistryTheorems.RedemptionsInEveryRun` | packages/contracts/call_registry/src/lib.rs:616-677 | After any run in which nobody left an outcome early: its redemptions together are at most the pot, and once all its shares are burned less than one unit for each redemption is left. |
| `RegistryTheorems.EscrowInEveryRun` | packages/contracts/call_registry/src/lib.rs:1448-1510 | Conservation over every run, unbacked payments included: the contract's balance of a token is its balance at deployment, plus what the pots still owe, plus the gains of the run's transactions. |
| `RegistryTheorems.EveryRunKeepsInvariant` | packages/contracts/call_registry/src/lib.rs:236-474 | Ledger, refund and share invariants together hold in every reachable state. |
| `RegistryLedger.LedgersAgree` | packages/contracts/call_registry/src/withdrawal.rs:19-64 | Every run keeps the three stake ledgers in agreement, whatever entry points it uses. |
| `RegistryLedger.ClosedCallsStayFrozen` | packages/contracts/call_registry/src/lib.rs:1888-1924 | Over every run no flag of a call is ever cleared, and once its end has passed or it is settled, cancelled or voided its ledgers never change again. |
| `RegistryLedger.RemovalBalances` | packages/contracts/call_registry/src/withdrawal.rs:48-61 | An early exit takes all but the penalty out of the position total, so the total still is the live stakes plus what was forfeited. |
| `RegistryExits.ExitPaysNineTenths` | packages/contracts/call_registry/src/withdrawal.rs:45-64 | Told from balances and records: an early exit pays the staker nine tenths of the stake, rounded up, in the token of the call; the contract and the position total lose exactly what was paid, and the record is cleared. |
| `RegistryExits.ForfeitedInEveryRun` | packages/contracts/call_registry/src/withdrawal.rs:48-49 | Over every run, for each call and position, early exits have taken out at least nine times what they left behind. |
| `RegistryRefunds.RefundsStayExact` | packages/contracts/call_registry/src/lib.rs:1472-1510 | Every run keeps each refund paid equal to the staker's records, with the claim flags set exactly for those paid. |
| `RegistryRefunds.RefundsWithinPot` | packages/contracts/call_registry/src/lib.rs:1575-1625 | Void refunds of a call together, and likewise expiry refunds, stay within the pot. |
| `RegistryRefunds.RefundedAtMostOnce` | packages/contracts/call_registry/src/lib.rs:1481-1483 | After one void refund the same staker is refused for that call after every further run. |
| `RegistryRefunds.VoidRefundIsFullIff` | packages/contracts/call_registry/src/lib.rs:1485-1510 | A void refund that is paid brings the staker tokens worth the whole stake on record if and only if nothing is staked on positions above 2; a staker with everything there is refused. The documentation promises a full refund in all cases. |
| `RegistryRefunds.RefundedWithinStakeIff` | packages/contracts/call_registry/src/lib.rs:1448-1625 | In every reachable state a staker was refunded at most the stake on record if and only if the flags for the two kinds of refund are not both set. |
| `RegistryRefunds.VoidRefundWithinStakeIff` | packages/contracts/call_registry/src/lib.rs:1472-1510 | The guard the code lacks: paying a void refund keeps the staker's refunds of both kinds within the stake on record if and only if no expiry refund was paid to the same staker. |
| `RegistryDoubleRefund.RefundedTwiceFromDeployment` | packages/contracts/call_registry/src/lib.rs:1448-1510 | From every fresh deployment, up to overflow: a call voided after an expiry refund pays the same staker twice, 200 for a stake of 100, and the other staker of the call is refused for lack of funds if and only if the contract held less than 100 XLM of its own. |
| `RegistryRedemption.PayoutCoversShares` | packages/contracts/call_registry/src/lib.rs:650-656 | A redemption pays at least one unit for each winning share, although it rounds down. |
| `RegistryRedemption.PayoutWithinPot` | packages/contracts/call_registry/src/lib.rs:650-656 | One payout stays within the pot if and only if the shares do not exceed the winning stake. |
| `RegistryRedemption.RoundedWithinPot` | packages/contracts/call_registry/src/lib.rs:650-656 | Any number of payouts rounded one by one stay within the pot while no more shares are burned than there is winning stake; burning all of it leaves less than one unit for each redemption. |
| `RegistryRedemption.ShareBooksBalance` | packages/contracts/call_registry/src/lib.rs:1986-1989 | Every run keeps shares in circulation, shares burned, stake withdrawn early and stake on the position in balance, and the sum paid exact up to one unit for each redemption. |
| `RegistryRedemption.RedemptionsWithinPot` | packages/contracts/call_registry/src/lib.rs:616-677 | Any sequence of redemptions and transfers, by whomever, pays at most the sum of all outcome stakes if nobody left the outcome early. |
| `RegistryRedemption.DustIsBounded` | packages/contracts/call_registry/src/lib.rs:616-677 | When all shares of the outcome are burned, the unpaid rest of the pot is smaller than the number of redemptions. |
| `RegistryRedemption.RedemptionCoversShares` | packages/contracts/call_registry/src/lib.rs:650-660 | A holder of winning shares is paid at least the number of shares and never refused for a zero payout. |
| `RegistryRedemption.EarlyExitBreaksTheBound` | packages/contracts/call_registry/src/withdrawal.rs:48-61 | Early exits burn no shares: one account holding all shares of an unredeemed outcome is paid within the pot if and only if nothing was withdrawn early from that outcome. |
| `RegistryRedemption.EarlyExitExcess` | packages/contracts/call_registry/src/withdrawal.rs:48-61 | For any number of holders: once all shares of an outcome are burned, its redemptions exceed the pot by the pot's share of the stake withdrawn early, exact up to one unit for each redemption. |
| `RegistryEscrow.RunGain` | packages/contracts/call_registry/src/lib.rs:933-958 | Over every run the surplus of balance over debt changes by exactly the sum of the gains of the successful transactions. |
| `RegistryEscrow.StepGain` | packages/contracts/call_registry/src/lib.rs:68-74 | One transaction moves balance and debt together, up to its gain; a refused one moves neither. |
| `RegistryEscrow.EscrowIsSolvent` | packages/contracts/call_registry/src/lib.rs:1957-1999 | In every run of creations, stakes by others than the contract, early exits, resolutions, settlements, voids, refunds, redemptions and share transfers, the contract holds at least the outcome stakes of its calls less what was paid against them, token by token. |
| `RegistryEscrow.OnlyDrainsLower` | packages/contracts/call_registry/src/lib.rs:1397-1443 | A successful transaction leaves the surplus of every token at least as high if and only if it is none of: a cancellation or emergency cancellation paying a creator, an escrow release of a positive amount, an executed fee withdrawal, a native stake funded by the contract itself. |
| `RegistryMovements.PaymentsMove` | packages/contracts/call_registry/src/lib.rs:650-672 | Every transaction that pays moves, from the contract to the party it is due to and in one token, what is due by records, shares or request (nine tenths of a stake, positions 1 and 2, all positions, the stake amount, the rounded worth of shares, the amount asked for), and no other balance changes. |
| `RegistryMovements.StakesMove` | packages/contracts/call_registry/src/lib.rs:1957-1983 | A native stake moves its amount from the funder to the contract; another token takes the amount and brings the contract what it delivers; no other balance changes. |
| `RegistryMovements.StakeIsCredited` | packages/contracts/call_registry/src/lib.rs:1971-1999 | The staker's record rises by what reached the contract, capped by the amount asked for; no other record changes. |
| `RegistryMovements.NothingElseMoves` | packages/contracts/call_registry/src/lib.rs:837-905 | Creations, resolutions, settlements, voids and share transfers move no token. |
| `RegistryMovements.RunConservesNative` | packages/contracts/call_registry/src/lib.rs:68-74 | Over every run, what all accounts together hold of XLM is changed by no transaction of the registry. |
| `RegistryMovements.SharesMoveExactly` | packages/contracts/call_registry/src/lib.rs:687-713 | After every transaction each holder's shares of each outcome have changed by exactly what a stake credited, a redemption burned or a transfer moved, to whom it was moved. |
| `RegistryAccess.AcceptedIffEntitled` | packages/contracts/call_registry/src/lib.rs:837-958 | Both ways, for every transaction: it succeeds only for a caller entitled to it, in the right phase of the call and within the settings; and then only a number out of range or a lack of tokens can stop it. |
| `RegistryAccess.RefusalsTellTheReason` | packages/contracts/call_registry/src/lib.rs:837-958 | Every refusal of every entry point tells the truth: what its error says about settings, call, caller, records or time is the case. |
| `RegistryAccess.FlagsAlone` | packages/contracts/call_registry/src/lib.rs:837-1562 | Resolving, settling, voiding and the two cancellations change exactly their fields of the one call. |
| `RegistryAccess.FlagsHaveOriginsFromDeployment` | packages/contracts/call_registry/src/lib.rs:913-1562 | In every run, a settled, voided or cancelled flag and an announced outcome were put there by a successful transaction of the outcome manager, admin or creator who was entitled to it in that state. |
| `RegistryPayability.NoOverpayment` | packages/contracts/call_registry/src/lib.rs:1472-1510 | Whatever the history: a call paid out in one way only (void refunds, expiry refunds or redemptions of one outcome) has never paid more than its pot. The guards for single payments are in RegistryGuards. |
| `RegistryPayability.EscrowCoversCall` | packages/contracts/call_registry/src/lib.rs:1472-1510 | While calls in a token are paid out in one way each, the balance covers the remaining debt of every single call. |
| `RegistryPayability.VoidRefundIsPaid` | packages/contracts/call_registry/src/lib.rs:1472-1510 | A staker of a voided call who was not refunded yet is paid: only an overflow of an i128 can prevent it. |
| `RegistryPayability.RedemptionIsPaid` | packages/contracts/call_registry/src/lib.rs:616-677 | A holder of winning shares is paid if only that outcome has been redeemed and nobody left it early, up to i128 overflow. |
| `RegistryGuards.DebtFromRecords` | packages/contracts/call_registry/src/lib.rs:1472-1625 | The remaining debt of a call is its pot less the refunds its flags and stake records show and less what was redeemed; before settlement nothing was, so the contract's storage alone gives the debt. |
| `RegistryGuards.ExpiredRefundKeepsDebt` | packages/contracts/call_registry/src/lib.rs:1575-1625 | In every reachable state an expiry refund leaves the debt of its call non-negative, without any further guard. |
| `RegistryGuards.VoidRefundKeepsDebtIff` | packages/contracts/call_registry/src/lib.rs:1472-1510 | On an unsettled call a void refund leaves the debt non-negative if and only if it is at most the pot less the refunds on record. |
| `RegistryGuards.LateVoidRefundKeepsDebtIff` | packages/contracts/call_registry/src/lib.rs:913-926 | The same on a call settled later, which the code also permits for a voided one; what was redeemed then counts too, which is not stored. |
| `RegistryGuards.RedemptionKeepsDebtIff` | packages/contracts/call_registry/src/lib.rs:616-677 | A redemption leaves the debt non-negative if and only if the shares at their exact worth come to less than one unit more than what refunds on record and earlier redemptions, of any outcome and not stored, left of the pot. |
| `RegistryGuards.FullRedemptionKeepsDebtIff` | packages/contracts/call_registry/src/lib.rs:616-677 | As the first redemption of a call, redeeming all the stake of an outcome at once overdraws the pot if and only if the refunds on record come to more than nothing. |
| `RegistryOverpayment.NeverOverpaidIff` | packages/contracts/call_registry/src/lib.rs:616-677 | From deployment, over every run of all entry points: no call is ever overpaid, in any state of the run, if and only if each void refund and each redemption that succeeds meets the exact guard for what is left of the pot. Every other transaction, expiry refunds included, overpays nobody. |
| `RegistryOverpayment.AffordableRunsAreCovered` | packages/contracts/call_registry/src/lib.rs:616-677 | If, in addition, nothing unbacked is paid out, the contract holds after such a run what every call still owes. |
| `RegistryGuards.FairRunsNeverOverpay` | packages/contracts/call_registry/src/lib.rs:616-677 | Guards over stored state alone that are enough: in every run whose successful void refunds, redemptions and second resolutions meet them, no call is overpaid and the contract holds what every call still owes. |
| `RegistryGuards.VoidRefundIsPaidInFairRuns` | packages/contracts/call_registry/src/lib.rs:1472-1510 | In such runs an unrefunded staker of a voided, unsettled call is paid, up to i128 overflow. |
| `RegistryGuards.ExpiredRefundIsPaidInFairRuns` | packages/contracts/call_registry/src/lib.rs:1575-1625 | In such runs an unrefunded staker of an expired call is paid, up to i128 overflow. |
| `RegistryGuards.RedemptionIsPaidInFairRuns` | packages/contracts/call_registry/src/lib.rs:616-677 | In such runs a holder of shares of the settled outcome who meets the guard is paid at least one unit for each share, up to i128 overflow. |
| `RegistryLimits.StatsStayConsistent` | packages/contracts/call_registry/src/lib.rs:867-883 | In every reachable state correct calls do not exceed resolved calls, and the platform volume and staker count are the sum and the number of the users' own volumes. |
| `RegistryLimits.CreditKeepsVolumes` | packages/contracts/call_registry/src/storage.rs:293-304 | Counting one stake keeps the platform volume equal to the sum of the users' volumes and the staker count equal to the number of users seen. |
| `RegistryRecords.ResolutionCounts` | packages/contracts/call_registry/src/lib.rs:863-883 | A resolution raises the resolved calls of the call's creator by one, the correct ones by one if and only if the outcome is 1 or 2 and the call's own staker map shows a stake of the creator on it, and changes no other record. |
| `RegistryRecords.CreationCounts` | packages/contracts/call_registry/src/lib.rs:236-474 | A creation raises the creator's created calls by one and changes nothing else of any record. |
| `RegistryRecords.RecordsInEveryRun` | packages/contracts/call_registry/src/lib.rs:863-883 | From deployment, in every run: each user's record is the number of the user's calls, of their resolutions, and of those that found the user's own stake on the outcome. |
| `RegistryLimits.AcceptedStakeWithinLimit` | packages/contracts/call_registry/src/lib.rs:1932-1955 | After any run an accepted stake leaves the staker's position within the limit computed before it, and that limit within twice the scaled base and within the configured cap. |
| `RegistryLimits.CreditKeepsLimitIff` | packages/contracts/call_registry/src/lib.rs:2000-2001 | Crediting a stake raises the staker's volume and the platform totals together; it keeps the staker's own limit if and only if the volume afterwards reaches the least factor needed against the average afterwards, or the limit does not depend on volume. |
| `RegistryLimits.AcceptedStakeKeepsLimitIff` | packages/contracts/call_registry/src/lib.rs:1932-2001 | The same condition, exact for every stake accepted after any run from a fresh deployment. |
| `Reputation.AccuracyIsAFraction` | packages/contracts/call_registry/src/reputation.rs:102-110 | Accuracy is between 0 and 10000 basis points, and 10000 exactly for a perfect record. |
| `Reputation.AccuracyRounds` | packages/contracts/call_registry/src/reputation.rs:102-110 | Accuracy is the share of correct calls in basis points, rounded down. |
| `Reputation.ScaledRounds` | packages/contracts/call_registry/src/reputation.rs:160-175 | The accuracy bonus follows the exact product of base, multiplier and accuracy, up to the two roundings. |
| `Reputation.FactorReachesIff` | packages/contracts/call_registry/src/reputation.rs:114-140 | The volume factor reaches a number of basis points, up to twice the average, if and only if the volume is at least that many of the platform average, or there is no average and the number is at most the neutral one. |
| `Reputation.LimitRounds` | packages/contracts/call_registry/src/reputation.rs:145-214 | From ten resolved calls on the limit is the scaled base times the volume factor, rounded down, under the cap. |
| `Reputation.LimitBounds` | packages/contracts/call_registry/src/reputation.rs:145-214 | The limit lies between 0 and twice the scaled base limit and never exceeds the absolute cap, through three floor divisions. |
| `Reputation.CeilingIsReached` | packages/contracts/call_registry/src/reputation.rs:145-186 | The upper bound is attained by a perfect record with at least twice the average volume. |
| `Reputation.LimitMonotoneInCorrect` | packages/contracts/call_registry/src/reputation.rs:145-214 | More correct calls out of the same number of resolved ones never lower the limit. |
| `Reputation.LimitMonotoneInVolume` | packages/contracts/call_registry/src/reputation.rs:114-140 | Of two users with the same record in one platform state, the one with more stake volume never has the lower limit. |
| `Reputation.LimitKeptIff` | packages/contracts/call_registry/src/reputation.rs:114-214 | Between any two platform states a user's limit is kept if and only if it does not depend on volume or the new volume reaches, against the new average, the least factor that gives the old limit. |
| `RegistryLimitDrop.OwnStakeLowersLimitFromDeployment` | packages/contracts/call_registry/src/lib.rs:1932-2001 | From every fresh deployment, after ten resolutions of one call: an accepted stake of one unit lowers the staker's own limit from 20000 to 15000, because the platform average rises with it. |
| `RegistryContract.CallRegistry.CreateCall` | packages/contracts/call_registry/src/lib.rs:236-474 | Writes exactly the state the machine prescribes: a new numbered call with empty books for each outcome and the creator's counters; moves no tokens. |
| `RegistryHost.Host.Transact` | packages/contracts/call_registry/src/lib.rs:236-958 | Whatever transaction is executed on the contract object, it takes the step of the machine or leaves no trace, and the ledger, refund and share invariants hold again afterwards. |
| `RegistryContract.CallRegistry.EmptyBooks` | packages/contracts/call_registry/src/lib.rs:294-301 | The loop opens an entry for every outcome from 1 to the count and no other. |
| `RegistryContract.CallRegistry.TotalStaked` | packages/contracts/call_registry/src/lib.rs:646-648 | The loop returns the pot: the stakes of all outcomes together. |
| `RegistryContract.CallRegistry.TotalUserStake` | packages/contracts/call_registry/src/lib.rs:1600-1603 | The loop returns a staker's records over all positions together. |
| `RegistryContract.CallRegistry.CheckStake` | packages/contracts/call_registry/src/lib.rs:1879-1955 | Returns the first applicable refusal in the contract's order, or none. |
| `RegistryContract.CallRegistry.Receive` | packages/contracts/call_registry/src/lib.rs:1957-1983 | Credits the amount for native XLM and the measured arrival, capped by the amount, for other tokens; a failed payment changes no balance. |
| `RegistryContract.CallRegistry.DoStake` | packages/contracts/call_registry/src/lib.rs:1865-2016 | Either all ledgers, totals, shares and balances are written as prescribed, or nothing is and the error is the prescribed one. |
| `RegistryContract.CallRegistry.WithdrawStake` | packages/contracts/call_registry/src/withdrawal.rs:14-85 | Refund and penalty add up to the recorded stake, the refund is nine tenths of it rounded up, and all books are written as prescribed. |
| `RegistryContract.CallRegistry.ResolveCall` | packages/contracts/call_registry/src/lib.rs:837-905 | Sets outcome, end price and the creator's statistics as prescribed; may be repeated. |
| `RegistryContract.CallRegistry.MarkSettled` | packages/contracts/call_registry/src/lib.rs:913-926 | Sets the settled flag once. |
| `RegistryContract.CallRegistry.VoidCall` | packages/contracts/call_registry/src/lib.rs:1448-1470 | Sets the voided flag of an unsettled call once. |
| `RegistryContract.CallRegistry.ClaimVoidRefund` | packages/contracts/call_registry/src/lib.rs:1472-1510 | Pays the records of positions 1 and 2 and sets the flag, or changes nothing. |
| `RegistryContract.CallRegistry.ClaimExpiredRefund` | packages/contracts/call_registry/src/lib.rs:1575-1625 | Pays and returns the records of all positions after the grace period and sets the flag, or changes nothing. |
| `RegistryContract.CallRegistry.CancelCall` | packages/contracts/call_registry/src/lib.rs:1397-1443 | Cancels a call without stakes and pays its stake amount to the creator, or changes nothing. |
| `RegistryContract.CallRegistry.EmergencyCancelCall` | packages/contracts/call_registry/src/lib.rs:1520-1562 | Cancels and voids a call by admin, or by its creator when unstaked and late, and pays the creator, or changes nothing. |
| `RegistryContract.CallRegistry.RedeemShares` | packages/contracts/call_registry/src/lib.rs:616-677 | Burns the redeemer's winning shares and pays their worth, or changes nothing. |
| `RegistryContract.CallRegistry.TransferShares` | packages/contracts/call_registry/src/lib.rs:687-713 | Moves shares of one outcome between two holders, self-transfers included. |
| `RegistryContract.CallRegistry.ReleaseEscrow` | packages/contracts/call_registry/src/lib.rs:933-958 | Moves the amount from the contract to the recipient, or changes nothing. |
| `RegistryContract.CallRegistry.GetCallsByCreator` | packages/contracts/call_registry/src/lib.rs:1110-1123 | The scan returns the creator's calls in order. |
| `RegistryContract.CallRegistry.GetCallsByCreatorPaginated` | packages/contracts/call_registry/src/lib.rs:1153-1181 | The loop returns the first page of the creator's calls from the start number on, at most the limit and at most 20 of them. |
| `CreatorPages.CallsFromIsTheList` | packages/contracts/call_registry/src/lib.rs:1110-1123 | The list holds exactly the creator's calls in the range, each once, in increasing order. |
| `CreatorPages.PagesCoverTheScan` | packages/contracts/call_registry/src/lib.rs:1153-1181 | Asking for page after page behind the last call seen gives the full scan: nothing skipped, nothing repeated. |
| `CreatorPages.PageIsBounded` | packages/contracts/call_registry/src/lib.rs:1153-1181 | A page is the beginning of the list: all of it, or as many calls as asked for, or 20. |
| `Base64.EncodeBase64` | packages/contracts/call_registry/src/lib.rs:387-428 | The loop over the 128-byte buffer writes the encoding of section 4 of RFC 4648, defined on the bit string, of the first 96 input bytes at most, and never past the end. |
| `Base64.DecodeUndoesEncode` | packages/contracts/call_registry/src/lib.rs:387-428 | Decoding the text gives the bytes back, for every byte string. |
| `Base64.StoredTextIsFaithful` | packages/contracts/call_registry/src/lib.rs:393-396 | The stored text decodes to the input if and only if the input has at most 96 bytes; a longer one is cut off silently. |
| `Base64.TableIsTheAlphabet` | packages/contracts/call_registry/src/lib.rs:388-388 | The encoder's table is table 1 of RFC 4648. |
| `Base64.QuantumOfThree` | packages/contracts/call_registry/src/lib.rs:397-404 | Shifting and masking three packed bytes gives the four sextets of their bit string. |
| `Base64.QuantumOfTwo` | packages/contracts/call_registry/src/lib.rs:417-426 | The padded case of two bytes. |
| `Base64.QuantumOfOne` | packages/contracts/call_registry/src/lib.rs:409-416 | The padded case of one byte. |
| `CallKeys.FormatKey` | packages/contracts/call_registry/src/lib.rs:430-460 | The buffer receives prefix, decimal number and suffix, within its 64 bytes. |
| `CallKeys.CollectDigits` | packages/contracts/call_registry/src/lib.rs:441-448 | The digit loop stores the decimal digits backwards and needs at most 20 places for a 64-bit number. |
| `CallKeys.AppendBackwards` | packages/contracts/call_registry/src/lib.rs:449-454 | The copying loop appends the stored digits in reverse to the buffer and leaves what was written before. |
| `CallKeys.DecimalDenotes` | packages/contracts/call_registry/src/lib.rs:437-454 | The decimal text denotes the number. |
| `CallKeys.KeysAreDistinct` | packages/contracts/call_registry/src/lib.rs:462-463 | Two metadata keys are equal if and only if call number and suffix are. |
| `MultisigRuns.ClosedOnce` | packages/contracts/call_registry/src/admin.rs:262-422 | In every run, a proposal that was executed, vetoed or cancelled is never executed, vetoed or cancelled again. |
| `MultisigRuns.ExecutionHasSignatures` | packages/contracts/call_registry/src/admin.rs:297-306 | Whenever a proposal executes, at least the threshold number of different addresses have signed for it in the run, or, without an admin set, the main admin signs. |
| `MultisigRuns.NeverBeforeTimelock` | packages/contracts/call_registry/src/admin.rs:287-293 | An executed proposal was proposed earlier in the run with the operation it carries, and its timelock, counted from then, has passed. |
| `MultisigRuns.RunKeepsRecorded` | packages/contracts/call_registry/src/admin.rs:249-258 | The stored approvals are distinct and are exactly the addresses whose approval was accepted in the run. |
| `MultisigRuns.MembershipChanges` | packages/contracts/call_registry/src/admin.rs:366-392 | Executed membership changes add or remove exactly the named address and introduce no duplicate. |
| `MultisigRuns.StrangersCanReachTheThreshold` | packages/contracts/call_registry/src/admin.rs:239-260 | Against any admin set and any positive threshold, as many outsiders as the threshold asks for can propose, approve and execute: approvals are not checked for membership, although the documentation says so. |
| `MultisigRuns.MembersDecideIff` | packages/contracts/call_registry/src/admin.rs:239-303 | The settings guarantee that whatever is proposed and signed by whomever, nothing executes under an admin set without the threshold of members, if and only if there is no admin set or the threshold is zero. |
| `MultisigSettings.ExecutedTakesEffect` | packages/contracts/call_registry/src/admin.rs:309-365 | After an executed proposal about fee, minimum stake, threshold or pause the setting is the one it names, with a fee of at most the whole and no negative minimum. |
| `MultisigSettings.SettingsHaveOrigins` | packages/contracts/call_registry/src/admin.rs:280-399 | In every run each setting that was not there at the start comes from an executed proposal that names it, from the main admin handing over, or from a new admin group with its threshold. |
| `MultisigSettings.SettingsStaySensible` | packages/contracts/call_registry/src/admin.rs:309-325 | In every run a fee above the whole or a negative minimum stake can only be what the settings started with. |
| `MultisigSettings.FeesGoToAdmin` | packages/contracts/call_registry/src/admin.rs:340-365 | An executed fee withdrawal moves its amount from the contract to the main admin and changes no setting. |
| `MultisigSettings.CancelIffUnsupported` | packages/contracts/call_registry/src/admin.rs:402-422 | An active proposal can be cancelled if and only if its timelock is over and, under an admin set, fewer addresses than the threshold have signed for it in the run. |
| `MultisigSettings.StatusTellsTheRun` | packages/contracts/call_registry/src/admin.rs:262-399 | In every run a proposal is marked executed, or vetoed, if and only if a transaction of the run successfully executed, or vetoed, it. |
| `MultisigSettings.AcceptedOnlyActive` | packages/contracts/call_registry/src/admin.rs:240-306 | Approving and vetoing succeed exactly for active proposals, executing exactly for active ones past their timelock with the threshold of approvals or, without a group, the main admin's signature, whose operation can be performed. |
| `MultisigSettings.AdminDecidesIff` | packages/contracts/call_registry/src/lib.rs:961-990 | The main admin and nobody else replaces group and threshold, under a threshold between one and the size of the group, or hands over; nothing else changes. |
| `MultisigContract.Contract.Approve` | packages/contracts/call_registry/src/admin.rs:240-260 | The duplicate search makes a second approval a no-op; otherwise the signer is appended. |
| `MultisigContract.Contract.IsAdmin` | packages/contracts/call_registry/src/admin.rs:368-374 | The search finds the address if and only if it is in the list. |
| `MultisigContract.Contract.AdminsWithout` | packages/contracts/call_registry/src/admin.rs:383-389 | The loop rebuilds the list without any occurrence of the address. |
| `MultisigContract.Contract.Perform` | packages/contracts/call_registry/src/admin.rs:309-393 | Each operation has its prescribed effect on the settings or balances, or an error and none. |
| `MultisigContract.Contract.Execute` | packages/contracts/call_registry/src/admin.rs:280-399 | Checks status, timelock, threshold or admin signature, performs the operation and marks the proposal, or changes nothing. |
| `MultisigContract.Contract.Propose` | packages/contracts/call_registry/src/admin.rs:212-237 | Stores an active proposal without approvals under the next number. |
| `MultisigContract.Contract.Veto` | packages/contracts/call_registry/src/admin.rs:263-277 | Marks an active proposal as vetoed. |
| `MultisigContract.Contract.Cancel` | packages/contracts/call_registry/src/admin.rs:404-422 | Removes an active proposal past its timelock unless an admin set has approved it. |
| `MultisigContract.Contract.SetAdminSet` | packages/contracts/call_registry/src/lib.rs:971-990 | Replaces the admin set under a threshold between 1 and its size. |
| `BackitSupply.SupplyIsConserved` | packages/contracts/backit_token/src/lib.rs:154-346 | In every state reachable after initialisation, liquid balances and active stakes together are at most the total supply, and equal to it if and only if the five recipients are distinct. |
| `BackitSupply.MintedIsTheSupply` | packages/contracts/backit_token/src/lib.rs:83-97 | The five allocations make up the supply if and only if no recipient is named twice. |
| `BackitSupply.ClaimsWithinSnapshot` | packages/contracts/backit_token/src/lib.rs:213-261 | In every run, per holder: what was claimed is at most the claim snapshot, which is at most the fees collected. |
| `BackitSupply.WeightWithinSupply` | packages/contracts/backit_token/src/lib.rs:429-445 | No effective balance exceeds the supply; for unstaked holders this is conservation. |
| `BackitSupply.ShareWithinNewFees` | packages/contracts/backit_token/src/lib.rs:240-245 | A claim never pays more than the fees collected since the holder's snapshot. |
| `BackitSupply.ClaimIsSpent` | packages/contracts/backit_token/src/lib.rs:232-248 | Directly after a claim the estimate is zero and a second claim is refused. |
| `BackitSupply.StepKeepsSnapshots` | packages/contracts/backit_token/src/lib.rs:248-248 | Every transaction raises a holder's snapshot by at least what it pays the holder, never past the fees collected. |
| `BackitEffects.StakeIsRecorded` | packages/contracts/backit_token/src/types.rs:32-52 | A stake is recorded with its amount, a boost of one more than the thresholds of 30, 90 and 180 days that the lock reaches, and a lock of the length asked for; nobody else's balance, stake or snapshot changes. |
| `BackitEffects.WeightIs` | packages/contracts/backit_token/src/lib.rs:429-445 | Liquid tokens count once, staked ones twice times the boost, up to the supply. |
| `BackitEffects.StakedWeight` | packages/contracts/backit_token/src/lib.rs:274-320 | The weight of a new stake in terms of the lock alone, below the supply the liquid rest plus twice boost times amount. |
| `BackitEffects.LongerLockWeighsMore` | packages/contracts/backit_token/src/types.rs:42-52 | Of two stakers with equal liquid balance and amount the one with the longer lock never has the lower weight. |
| `BackitEffects.StakeStaysLocked` | packages/contracts/backit_token/src/lib.rs:327-346 | In every run a stake stays as it was made until its lock is over. |
| `BackitEffects.UnstakeIff` | packages/contracts/backit_token/src/lib.rs:327-346 | In every state reachable from deployment a stake can be taken back if and only if its lock is over, and returns exactly its amount to the staker. |
| `BackitEffects.DepositIsPaidByAdmin` | packages/contracts/backit_token/src/lib.rs:178-197 | Fees move from the admin's account to the contract, and no other account changes. |
| `BackitEffects.ClaimPaysHolder` | packages/contracts/backit_token/src/lib.rs:213-261 | A claim moves the holder's part of the fees not drawn yet, rounded down, from the contract to the holder and brings that snapshot alone up to date. |
| `BackitEffects.AcceptedIffAcceptable` | packages/contracts/backit_token/src/lib.rs:68-346 | Both ways, for every entry point: its conditions on caller, amount, balances, stake and lock, and then only a number out of range can stop it. |
| `BackitEffects.RefusalsTellTheReason` | packages/contracts/backit_token/src/lib.rs:68-346 | Every refusal tells the truth about configuration, balances, stake or lock. |
| `BackitRevenue.DistributedWithinFees` | packages/contracts/backit_token/src/lib.rs:178-261 | From any state before the first fee whose weights fit the supply, every interleaving of deposits and claims keeps the total distributed within the total collected, each claim being rounded on its own. |
| `BackitRevenue.PoolAlwaysPaysIff` | packages/contracts/backit_token/src/lib.rs:252-257 | The pool pays every claim in every run of deposits and claims if and only if the weights of the holders add up to at most the supply; otherwise a run is constructed that ends in a claim the pool cannot pay. |
| `BackitRevenue.ClaimIsCovered` | packages/contracts/backit_token/src/lib.rs:241-257 | Within that condition, what any holder is owed next is in the pool, after every such run. |
| `BackitRevenue.DustIsBounded` | packages/contracts/backit_token/src/lib.rs:241-241 | With weights equal to the supply and all snapshots current, the undistributed rest is smaller than the number of paid claims. |
| `BackitRevenue.PoolCoversUndistributed` | packages/contracts/backit_token/src/lib.rs:185-193 | In every run whatsoever the contract's USDC is at least the fees collected less the revenue distributed. |
| `BackitRevenue.UnstakedWeights` | packages/contracts/backit_token/src/lib.rs:429-445 | Without stakes the weights are all tokens held by anyone but the contract, and fit the supply. |
| `BackitRevenue.FeeRunsFromDeployment` | packages/contracts/backit_token/src/lib.rs:68-261 | From deployment, through initialisation and any transfers, to every run of deposits and claims: if nobody holds a stake when the first fee arrives, no more is distributed than collected and the pool pays every claim. |
| `BackitLiability.TransferMovesOwed` | packages/contracts/backit_token/src/lib.rs:154-169 | The exact effect of moving tokens between any two holders, staked or not, on what all holders together are owed: for each party the change of its capped weight times the fees it has not drawn on. |
| `BackitLiability.UnstakedTransferMovesOwed` | packages/contracts/backit_token/src/lib.rs:154-169 | Between unstaked holders that effect is the amount times the sender's claim snapshot less the receiver's. |
| `BackitLiability.TransferKeepsCoveredIff` | packages/contracts/backit_token/src/lib.rs:154-169 | A transfer owes nobody more, and keeps books that come out even covered by the fees, if and only if the receiver's claim grows by no more than the sender's shrinks; between unstaked holders, if and only if the sender's claim snapshot is not ahead of the receiver's. |
| `BackitLiability.DepositKeepsCoveredIff` | packages/contracts/backit_token/src/lib.rs:178-197 | A deposit keeps books that come out even covered if and only if the weights fit the supply. |
| `BackitLiability.DistributedWithinFeesInGuardedRuns` | packages/contracts/backit_token/src/lib.rs:154-346 | From deployment, with transfers by staked and unstaked holders, stakes and unstakes among deposits and claims: while each transfer and deposit that succeeds meets its exact guard, no more is distributed than collected and the pool pays every claim. |
| `BackitLiability.UnguardedTransferBreaksTheBound` | packages/contracts/backit_token/src/lib.rs:154-169 | From every deployment with distinct recipients a run with one unguarded transfer distributes exactly twice the fees collected. |
| `BackitTokenContract.Contract.Initialize` | packages/contracts/backit_token/src/lib.rs:68-124 | Writes the five allocations, in order, the supply and the configuration, once, and keeps supply, snapshots and pool in order. |
| `BackitTokenContract.Contract.Transfer` | packages/contracts/backit_token/src/lib.rs:154-169 | Moves the amount, self-transfers included, or changes nothing. |
| `BackitTokenContract.Contract.FeePoolDeposit` | packages/contracts/backit_token/src/lib.rs:178-197 | Moves USDC from the admin into the pool and counts it, or changes nothing. |
| `BackitTokenContract.Contract.ClaimRevenueShare` | packages/contracts/backit_token/src/lib.rs:213-261 | Pays exactly the positive amount the estimate view reports, brings the snapshot up to date, or changes nothing. |
| `BackitTokenContract.Contract.StakeBackit` | packages/contracts/backit_token/src/lib.rs:274-320 | Moves the amount into a new stake with the boost of its duration and resets the claim snapshot, or changes nothing. |
| `BackitTokenContract.Contract.UnstakeBackit` | packages/contracts/backit_token/src/lib.rs:327-346 | Returns the stake after its lock, or changes nothing. |
| `IdempotencyRuns.AtMostOneExecutor` | packages/backend/src/idempotency/idempotency.interceptor.ts:95-185 | In every interleaving of claims, handler results, loads, saves, lost writes, crashes and cleanup: at most one executor is live per key, route and principal, and while it is live its record exists and is IN_PROGRESS. |
| `IdempotencyRuns.LiveExecutorAnswers` | packages/backend/src/idempotency/idempotency.service.ts:140-155 | In every run, while an executor is live, further claims change nothing: the same fingerprint is told to wait, any other is refused. |
| `IdempotencyRuns.ClaimIsGrantedIff` | packages/backend/src/idempotency/idempotency.service.ts:102-165 | A claim is granted if and only if there is no record, or one with the same fingerprint whose failure may be retried; it then leaves a record in progress for 24 hours and one new executor. |
| `IdempotencyRuns.ReplaysUntilCleanup` | packages/backend/src/idempotency/idempotency.service.ts:133-164 | From success until a cleanup after the expiry, in every run, each claim with the same fingerprint is answered with the stored status and body, any other with a conflict, and neither changes anything. |
| `IdempotencyRuns.CompletionIsReplayed` | packages/backend/src/idempotency/idempotency.service.ts:171-189 | What a completed execution stored, sanitised, is what claims get until a cleanup more than 24 hours later, whatever happens in between. |
| `IdempotencyRuns.FailureIsRetriedIff` | packages/backend/src/idempotency/idempotency.service.ts:196-223 | A stored failure lets the next claim with its fingerprint run again if and only if its status is 408, 429, 502, 503 or 504; any other status is replayed until a cleanup more than 24 hours later. The reason is kept up to 1024 characters. |
| `IdempotencyRuns.TerminalUntilCleanup` | packages/backend/src/idempotency/idempotency.service.ts:231-246 | A finished record, expired or not, is not touched by anything but a cleanup after its expiry. |
| `IdempotencyRuns.PresentIffSpared` | packages/backend/src/idempotency/idempotency.service.ts:231-246 | A finished record is present after every step of a run if and only if no cleanup of the run came after its expiry. |
| `IdempotencyRuns.GrantsWithinRetries` | packages/backend/src/idempotency/idempotency.service.ts:140-155 | Within one lifetime of a record the claims granted are exactly the retryable failures, plus one unless such a failure is what the record holds. |
| `IdempotencyRuns.LostExecutorBlocks` | packages/backend/src/idempotency/idempotency.service.ts:231-239 | When an executor is lost, its record stays IN_PROGRESS in every run: no further claim is granted and cleanup does not remove it. |
| `IdempotencyRuns.SameFingerprintIff` | packages/backend/src/idempotency/idempotency.service.ts:82-92 | For one principal and route, fingerprints agree if and only if the bodies are equal up to key order at every depth. |
| `IdempotencyService.RequestFollowsProtocol` | packages/backend/src/idempotency/idempotency.interceptor.ts:95-185 | A request that runs alone does to the records what the corresponding run of the protocol does. |
| `IdempotencyService.Service.ClaimOrReplay` | packages/backend/src/idempotency/idempotency.service.ts:102-165 | Answers as prescribed and writes the record only when the claim is granted. |
| `IdempotencyService.Service.Complete` | packages/backend/src/idempotency/idempotency.service.ts:171-189 | Stores status and sanitised body on an existing record only. |
| `IdempotencyService.Service.Fail` | packages/backend/src/idempotency/idempotency.service.ts:196-223 | Marks an existing record retryable exactly for the listed statuses, failed otherwise. |
| `IdempotencyService.Service.CleanupExpired` | packages/backend/src/idempotency/idempotency.service.ts:231-246 | Removes exactly the expired records that are not IN_PROGRESS. |
| `IdempotencyService.Service.Intercept` | packages/backend/src/idempotency/idempotency.interceptor.ts:50-186 | The handler's outcome reaches the client exactly when the claim is granted; every other answer leaves the records alone. |
| `CanonicalBody.CanonicalIff` | packages/backend/src/idempotency/idempotency.service.ts:274-285 | Two bodies have the same canonical form if and only if they are equal up to key order at every depth. |
| `CanonicalBody.CanonicalIsStable` | packages/backend/src/idempotency/idempotency.service.ts:274-285 | The canonical form is its own canonical form. |
| `CanonicalBody.SanitiseEntries` | packages/backend/src/idempotency/idempotency.service.ts:258-271 | The recursive loop computes the stored form. |
| `CanonicalBody.SanitisedIsClean` | packages/backend/src/idempotency/idempotency.service.ts:262-263 | No sensitive key at any depth holds anything but the redaction marker. |
| `CanonicalBody.SecretsByName` | packages/backend/src/idempotency/idempotency.service.ts:38-47 | A field is replaced by the marker exactly if it has one of eight names; a scalar under any other name is stored as it is. |
| `CanonicalBody.SanitiseIsIdempotent` | packages/backend/src/idempotency/idempotency.service.ts:258-271 | Sanitising a sanitised body changes nothing. |
| `CanonicalBody.SanitiseKeepsTheRest` | packages/backend/src/idempotency/idempotency.service.ts:258-271 | A scalar is kept if and only if no sensitive key lies on the way to it and it lies within the depth limit; everything else that can be read is the marker. |
| `EventVisibility.ReplayAgreesInEveryRunIff` | packages/backend/src/event-store/event-store.service.ts:222-270 | For every history of appends, of inserts that overtake each other, and of snapshots computed, saved late or lost: replaying from the latest snapshot gives version, last sequence and state of the full fold if and only if the snapshot's version counts every visible event up to its sequence; otherwise the version is short by exactly the events it does not count. |
| `EventVisibility.FaithfulIffCounted` | packages/backend/src/event-store/event-store.service.ts:309-317 | A snapshot holds the fold up to its sequence if and only if its version is the number of visible events up to it. |
| `EventVisibility.PublishIsMissedIff` | packages/backend/src/event-store/event-store.service.ts:149-149 | An event that becomes visible adds one to what replay misses if and only if its sequence is behind the latest snapshot of its aggregate. |
| `EventVisibility.LateEventIsMissed` | packages/backend/src/event-store/event-store.service.ts:149-158 | From the empty store: an insert overtaken by any number of appends and then by a snapshot is missed by the replay from that snapshot. |
| `EventStoreRuns.SnapshotsSoundIffTimely` | packages/backend/src/event-store/event-store.service.ts:286-322 | In every run all snapshots, saved or not, hold the fold up to their sequence after every step if and only if no event became visible behind one of them. |
| `EventStoreRuns.ReplayAgreesInTimelyRuns` | packages/backend/src/event-store/event-store.service.ts:222-270 | In every such run replay gives version, last sequence and state of the full fold, and the same last event if and only if there is no snapshot or something follows it. |
| `EventStoreRuns.ReplayIsFullFold` | packages/backend/src/event-store/event-store.service.ts:228-269 | The same for one store whose snapshots are faithful. |
| `EventReplay.FullFoldTells` | packages/backend/src/event-store/event-store.service.ts:257-267 | The full fold holds a key if and only if some event of the aggregate has it, with the value of the latest such event; its version is the number of events, and sequence, type and time are those of the last one. |
| `EventReplay.ReplayTells` | packages/backend/src/event-store/event-store.service.ts:222-270 | The same of a replay from the latest snapshot, told from the visible events alone. |
| `EventReplay.ReplayTellsInTimelyRuns` | packages/backend/src/event-store/event-store.service.ts:222-270 | The same in every history in which no event becomes visible behind a snapshot. |
| `EventStoreRuns.StepKeepsSoundIff` | packages/backend/src/event-store/event-store.service.ts:286-322 | One step keeps every snapshot right if and only if it is not an event becoming visible behind one of them. |
| `EventStoreRuns.ReplayStaysShort` | packages/backend/src/event-store/event-store.service.ts:149-158 | When each append is followed by its own check, fewer than 20 events follow the latest snapshot, plus one for each check that failed since the last that worked. |
| `EventStoreRuns.HistorySplits` | packages/backend/src/event-store/event-store.service.ts:228-239 | Cut at any sequence, the ordered history of an aggregate is its beginning followed by its rest. |
| `EventStoreService.Service.ReplayAggregate` | packages/backend/src/event-store/event-store.service.ts:222-270 | The loop computes the replay, which agrees with the full fold and holds, for every key, the value of the latest event that has it. |
| `EventStoreService.Service.MaybeSnapshot` | packages/backend/src/event-store/event-store.service.ts:286-322 | Saves a snapshot exactly when 20 events have gathered. |
| `EventStoreService.Service.Append` | packages/backend/src/event-store/event-store.service.ts:123-161 | Appends one event with a higher sequence, whether its snapshot check works or not. |
| `ReconciliationRuns.ThirdPassIsQuietIff` | packages/backend/src/reconciliation/reconciliation.service.ts:176-224 | For all tables and event lists: the third repair pass repairs nothing if and only if the resolution events of each known call imply one status, and then it changes nothing. |
| `ReconciliationRuns.OnePassSuffices` | packages/backend/src/reconciliation/reconciliation.service.ts:176-224 | One pass is enough when, in addition, no call is created behind its resolution events. |
| `ReconciliationRuns.QuietPass` | packages/backend/src/reconciliation/reconciliation.service.ts:256-286 | A pass repairs nothing if and only if no event had anything to repair at its start. |
| `ReconciliationRuns.RunAccounts` | packages/backend/src/reconciliation/reconciliation.service.ts:172-230 | For every event list: in repair mode repaired and quarantined add up to the discrepancies, which are the sum of the breakdown and the number of stored rows; in dry-run mode nothing is repaired and no call, stake or payout changes. |
| `ReconciliationRuns.QuietStaysQuiet` | packages/backend/src/reconciliation/reconciliation.service.ts:433-493 | Only a contradicting resolution, or the late creation of the resolved call, makes a repaired event need repair again. |
| `ReconciliationRuns.KnownCallsExist` | packages/backend/src/reconciliation/reconciliation.service.ts:290-337 | After a pass a call exists if and only if it existed before or has a creation event in the list. |
| `ReconciliationRows.ResolutionFollowsText` | packages/backend/src/reconciliation/reconciliation.service.ts:433-493 | Repairing a resolution of an existing call leaves the row read first resolved YES if and only if the outcome text is YES, 1 or TRUE, letter case aside, and resolved NO otherwise; a wrong status is corrected, with the time, on every row of the call and on no other. |
| `ReconciliationRows.PassFollowsText` | packages/backend/src/reconciliation/reconciliation.service.ts:433-493 | After a pass over tables that had the call: if all its resolutions say the same its status is what they say, and without a resolution it is as before. |
| `ReconciliationRows.CreationFollowsText` | packages/backend/src/reconciliation/reconciliation.service.ts:290-337 | A creation adds one row with the event's title and creator, or the stand-ins for them, exactly when the call has none. |
| `ReconciliationRows.StakeFollowsText` | packages/backend/src/reconciliation/reconciliation.service.ts:371-429 | A stake event that names call and user adds a row with its amount exactly when the pair has none. |
| `ReconciliationRows.PayoutFollowsText` | packages/backend/src/reconciliation/reconciliation.service.ts:497-580 | A payout event that names call and payee leaves a claimed row with the event's transaction and time, unless the row was claimed already. |
| `ReconciliationRows.OthersAreIgnored` | packages/backend/src/reconciliation/reconciliation.service.ts:256-286 | Events with other names change nothing, and events of other contracts are quarantined unseen. |
| `ReconciliationRows.CreationReports` | packages/backend/src/reconciliation/reconciliation.service.ts:305-367 | A creation reports a missing call, several rows, or another creator than the event names, and nothing otherwise. |
| `ReconciliationRows.ResolutionOfNothing` | packages/backend/src/reconciliation/reconciliation.service.ts:452-462 | A resolution of a call without rows is reported and changes nothing. |
| `ReconciliationRows.DryRunForetells` | packages/backend/src/reconciliation/reconciliation.service.ts:256-580 | For every event and tables a dry run finds the same kind of discrepancy as a repair, or nothing as it does, and changes no table. |
| `ReconciliationRows.BreakdownIsExact` | packages/backend/src/reconciliation/reconciliation.service.ts:172-230 | After every pass the breakdown counts the stored findings kind by kind. |
| `ReconciliationService.Service.ReconcileCallCreated` | packages/backend/src/reconciliation/reconciliation.service.ts:290-367 | Inserts a missing call in repair mode; duplicates and other creators are reported. |
| `ReconciliationService.Service.ReconcileStakeAdded` | packages/backend/src/reconciliation/reconciliation.service.ts:371-429 | Inserts a missing stake in repair mode; payloads without call or user are quarantined. |
| `ReconciliationService.Service.ReconcileCallResolved` | packages/backend/src/reconciliation/reconciliation.service.ts:433-493 | Brings the status of an existing call in line with the outcome in repair mode. |
| `ReconciliationService.Service.ReconcilePayoutClaimed` | packages/backend/src/reconciliation/reconciliation.service.ts:497-580 | Inserts or marks the payout as claimed in repair mode. |
| `ReconciliationService.Service.ExecuteRun` | packages/backend/src/reconciliation/reconciliation.service.ts:140-231 | The loop with its counters produces the report and tables of one pass, and the books balance. |
| `RateLimiterRuns.WindowIsBounded` | packages/backend/src/webhooks/webhook-dispatch.processor.ts:22-32 | In every run with a clock that does not go back, for every URL, any half-open window of 1000 ms holds at most the maximum of accepted requests. |
| `RateLimiterRuns.RefusedIff` | packages/backend/src/webhooks/webhook-dispatch.processor.ts:25-28 | A request is refused if and only if the URL has had its maximum in the 1000 ms up to it. |
| `RateLimiterRuns.BoundHoldsIff` | packages/backend/src/webhooks/webhook-dispatch.processor.ts:22-32 | For every maximum and every drift: the window bound holds in all runs whose clock never goes back by more than the drift if and only if the drift is zero or the maximum is at most one. |
| `RateLimiterRuns.OneMillisecondBreaksTheBound` | packages/backend/src/webhooks/webhook-dispatch.processor.ts:22-32 | For every maximum from 2 on, so for the 10 in use, one millisecond back lets one request too many into a window. |
| `RateLimiterRuns.RunTracks` | packages/backend/src/webhooks/webhook-dispatch.processor.ts:25-30 | The pruned list still counts every accepted request that can matter for a later window. |
| `WebhookDispatch.UrlRateLimiter.IsAllowed` | packages/backend/src/webhooks/webhook-dispatch.processor.ts:22-32 | The filter loop updates the window as prescribed; with a clock that has not gone back it answers by the number let through in the last 1000 ms, and no window of any URL holds more than the maximum. |

## Left out

- Contract initialisation of the registry, its setters one by one, metadata updates, the start price and condition
  evaluation: a run may replace the settings by any others at any time (`OpConfigure`).
- The reentrancy lock, storage lifetimes, entry counters, events, upgrades and share-token deployment: foreign calls are
  atomic, and a share token is its balance map.
- Staking gates and first-seen records: a stake carries a boolean that says whether the staker qualifies.
- SEP-10 verification, staker lists, statistics views and unfiltered paging: reads without state of their own.
- On-chain governance votes: their weights are arguments of the caller.
- RegistryEscrow.EscrowIsSolvent: does not cover cancellations, escrow releases and fee withdrawals, because nothing
  in the pots backs them; `RegistryEscrow.OnlyDrainsLower` says exactly which transactions those are.
- BackitRevenue.DistributedWithinFees: does not cover runs that move tokens between deposits, because moved tokens
  can earn again; `BackitLiability.DistributedWithinFeesInGuardedRuns` covers those whose transfers meet the exact guard
  of `BackitLiability.TransferKeepsCoveredIff`.
- RegistryPayability.RedemptionIsPaid: has a history of one way of payment as its condition;
  `RegistryGuards.RedemptionIsPaidInFairRuns` has guards over stored state instead.
- The distribution record of the token other than its five recipients, and the boost view in basis points.
- JavaScript details of bodies: arrays, integer-like key order, undefined values and ties of locale comparison; keys are
  ordered by character code.
- IdempotencyService.Service.Intercept: models a handler that answers or throws once; streamed responses and errors
  raised while response headers are written are not modelled.
- Redis, queues, SQL and RPC: tables are maps and sequences, one statement or transaction is one atomic step. The replay
  of an aggregate for a snapshot is one step, and of two snapshots with one sequence the first saved is read.
- EventStoreService.Service.Append: models one process, whose appends none overtakes; overlapping inserts are steps
  of the runs in `event_visibility.dfy`.
- Letter case outside a to z in outcome texts, and descriptions and stake sums of inserted calls.
- Database errors in a reconciliation run, its lock, the fetching of events and the amounts of existing stakes, which
  the code does not compare.
- Controllers, modules, entities, frontend, analytics with floating point, and pagination by offset.
