# Dispute oracle and wrapped-NEAR token: a verified model

The project models two NEAR contracts and the messages between them.

**The oracle.** A requester pays a validity bond and a fee for a data request. Users stake on outcomes in
resolution windows. The first outcome to fill a window's bond becomes bonded, and a new window opens with
double the bond, in which that outcome may not be staked on. The request is settled when nobody disputes in
time, when a bond reaches the amount that calls the final arbitrator, or by a named provider. Winners then
claim their stake and floor-divided shares of the losing bonds and of the fee.

**The token.** Wrapped NEAR with registration, and with the asynchronous `ft_transfer_call`: the tokens move
at once, the receiver's callback runs later, and the resolve step refunds what the receiver did not use, or
burns it if the sender's account is gone.

**Form.** The contracts and the structs whose methods update them are classes (`ResolutionWindow`,
`ActiveDataRequest`, `FinalizedDataRequest`, `Contract`, `TokenContract`). Every method is proved equal to a
function on the stored value (`Staked`, `ClaimedRequest`, `Execute`, `Resolved`, ...), and the lemmas are about
those functions and about runs of them. A struct read from a storage vector is a working copy that is loaded,
changed and written back; a panic (`Result.Panic`) leaves the contract's state as it was. Amounts are natural
numbers with every 64-bit and 128-bit check written out. `TwoContracts` composes oracle and token: pending
messages form a bag from which any one may arrive next, anyone may call either contract in between, and every
other token, receiver and caller is free to do what it likes.

**Main results.** Solvency over every interleaving (`SolventFromGenesis`); conservation of claims with a tight
dust bound, in any order, once per user (`ClaimConservation`, `ClaimIsOneShot`, `OrderIndependent`), also over
whole runs of the contract (`ClaimsConservedOverRuns`, `ClaimsPayOnceOverRuns`, `TotalsAccountOverRuns`,
`BondedEntriesStay`); the exact condition for a request to be settleable at all (`SettleableIff`); the shape of
every reachable dispute and its guaranteed rewards (`EveryReachableState`, `DisputesAlternate`,
`RewardIsGuaranteed`, `UndisputedIsMajorityBacked`); a single settlement (`SettledOnce`); stake conserved over
runs (`StakeIsConserved`) and user by user (`CallLedger`, `UserStakeIsConserved`); verdicts, credits and bonds
that belong to the calls that made them (`VerdictIsTheCallers`, `StakeEntry`, `BondGoesBackToItsPayer`); the
exact condition for each call to succeed (`StakeSucceedsIff`, `ArbitratorSucceedsIff`, `TokenCallSucceedsIff`
and their like); single messages followed through every interleaving (`TransferCallResolves`,
`PayoutIsDelivered`); disputes that stay short, open and settled (`DisputesStayShort`, `DisputesEnd`), and the
exact condition for them to end (`EscalationBoundedIff`); elapsed challenge periods in timed runs
(`ChallengePeriodHasPassed`).

**Properties that hold only conditionally.** A small stake multiplier can round the resolution bond down to
zero. Then a stake of nothing bonds, and disputes never have to end: `ZeroBondFromDeployment` drives a freshly
deployed contract with positive bonds to any number of windows, `BondIsZeroIff` says when the bond vanishes,
and `EscalationBoundedIff` says for every open request exactly when its disputes are bounded.

Accepted requests need not be settleable. `SettleableIff` gives the exact condition for every open request at
every time: it names a provider, or its arbitrator has been called, or it has a second window, or its first
bond can still be filled. What fails falls into three classes. The bond overflows while a multiplier scales it,
although the scaled bond itself would fit (`OverflowFromDeployment`). The bond can be computed, but the first
window does not fit, because twice the bond needs more than 128 bits or its end lies beyond the clock. In these
two classes nobody ever stakes, and nothing about the request ever changes again (`FrozenForever`,
`FirstStakeIff`). Or the first window opens, its bond is below the arbitrator's amount, and the second window
does not fit: then stake goes in and out, but no stake that would fill the bond is accepted
(`UnfillableFromDeployment`). `AcceptedSettlesIff` states the condition in the terms a requester asks for and
pays. `StakePanicsIff` gives the exact inputs on which a single stake that passed its guards panics.

**Where code and comments differ** the model follows the code. The token's comments ask for positive transfer
and withdrawal amounts (`token/src/fungible_token_core.rs:11`, `token/src/w_near.rs:22`); the code accepts 0.
The comment on the resolution bond speaks of double the fee (`oracle/src/data_request.rs:438-440`); the function
returns the amount itself and the first window doubles it. Unstaking zero on an outcome nobody staked on
creates a zero entry, so the invariants speak of positive stake, not of present keys.

## Model

| member | source | states |
|---|---|---|
| Arithmetic.CalcProductIsExactFloor | oracle/src/helpers.rs:10-16 | a share computes the exact floor within 128 bits and never exceeds what is shared |
| Arithmetic.CalcProductPanics | oracle/src/helpers.rs:10-16 | the narrowing panics if and only if the true quotient needs more than 128 bits |
| Arithmetic.SharesAtMost | oracle/src/helpers.rs:10-16 | floored shares of parts within the whole add up to at most the pot, for any number of parts |
| Arithmetic.SharesDust | oracle/src/helpers.rs:10-16 | if the parts are the whole, rounding loses less than one unit per positive part, less one |
| Arithmetic.SharesDustIsTight | oracle/src/helpers.rs:10-16 | the dust bound is met, for any number of equal parts |
| ResolutionWindows.ResolutionWindow.Stake | oracle/src/resolution_window.rs:58-101 | the in-place stake on both maps is `Staked`: fill to the bond, hand back the rest, bond when full |
| ResolutionWindows.ResolutionWindow.Unstake | oracle/src/resolution_window.rs:104-142 | the in-place unstake is `Unstaked`, and a panic changes nothing |
| ResolutionWindows.ResolutionWindow.ClaimFor | oracle/src/resolution_window.rs:144-167 | the in-place claim is `Claimed` with result `ClaimResult`: the user's entry goes, totals stay |
| ResolutionWindows.StakeKeepsBooks | oracle/src/resolution_window.rs:58-101 | no panic on an undecided consistent window; totals keep agreeing with the users' sums; stake comes back only from a full bond |
| ResolutionWindows.StakeCreditsSender | oracle/src/resolution_window.rs:58-101 | exactly the sender's entry on that outcome grows; filling the bond decides the window |
| ResolutionWindows.UnstakeKeepsBooks | oracle/src/resolution_window.rs:104-142 | exactly the amount leaves live and withdrawable stake; entries on the bonded outcome stay |
| ResolutionWindows.UnstakeDebitsSender | oracle/src/resolution_window.rs:104-142 | exactly the sender's entry on that outcome shrinks |
| ResolutionWindows.UnstakeGuardsSuffice | oracle/src/resolution_window.rs:104-122 | unstaking succeeds iff the outcome is not bonded and the user has the amount; the unchecked subtraction never underflows |
| ResolutionWindows.StakeUnstakeRoundTrip | oracle/src/resolution_window.rs:58-142 | a stake that did not bond is undone by unstaking it |
| ResolutionWindows.ClaimKeepsBooks | oracle/src/resolution_window.rs:144-167 | a claim clears one entry on the final outcome and leaves totals, withdrawable stake and all other entries |
| ResolutionWindows.LiveSplitsAtTheBond | oracle/src/resolution_window.rs:94-98 | a window's live stake is its bond, once decided, plus what can be withdrawn |
| DataRequests.ActiveDataRequest.Stake | oracle/src/data_request.rs:138-185 | the in-place stake on the window vector is `StakedRequest` |
| DataRequests.ActiveDataRequest.InvokeFinalArbitrator | oracle/src/data_request.rs:188-194 | the trigger is set at the invoke amount and latches |
| DataRequests.FinalizedDataRequest.Claim | oracle/src/data_request.rs:268-325 | the claim loop with its three accumulators computes the declared sums, clears the entries and panics exactly on overflow |
| Disputes.StakeKeepsActive | oracle/src/data_request.rs:138-194 | every accepted stake keeps the whole request invariant and adds exactly what was not handed back |
| Disputes.UnstakeKeepsActive | oracle/src/data_request.rs:46-63 | unstaking keeps the request invariant and takes out exactly the amount |
| Disputes.TrimKeeps | oracle/src/data_request.rs:783-792 | any settlement inherits the chain and the books |
| Disputes.AdmissibleMeans | oracle/src/data_request.rs:341-376 | the outcome guard passes exactly without a list, on Invalid and on every listed string; the type guard exactly on Invalid, on text where text is asked for, and on numbers at the multiplier asked for |
| Escalation.BondsDouble | oracle/src/resolution_window.rs:30-41 | window `i` asks for `2^i` times the first bond |
| Escalation.WindowChain | oracle/src/data_request.rs:138-194 | window `i` has round `i` and bond `B * 2^(i+1)`; only the last can be undecided, and it is decided iff the arbitrator was called, then with at least the invoke amount |
| Escalation.BondsStayBelowArbitrator | oracle/src/data_request.rs:167-194 | with `n >= 2` windows, `B * 2^(n-1)` is below the arbitrator's amount |
| Escalation.RoundsAreBounded | oracle/src/data_request.rs:167-194 | an open request whose bond is not zero has at most 128 windows and the `u16` round cast loses nothing |
| Escalation.BondsStayLogarithmic | oracle/src/data_request.rs:138-194 | in any chain that stayed below the invoke amount, `n >= 2` windows put `2^(n-2)` first bonds below that amount |
| Escalation.ShortChain | oracle/src/resolution_window.rs:30-41 | any consistent chain on a positive first bond, open or settled, has at most 128 windows |
| Escalation.UnwrapsNeverFire | oracle/src/data_request.rs:196-206 | the `unwrap` in the staking guard and the `expect` on the final outcome never fire, and what each call then answers is determined exactly |
| Escalation.ResolutionBondMeans | oracle/src/data_request.rs:442-456 | the bond is the largest of fee, validity bond and minimum, scaled and floored; it panics iff scaling overflows |
| Escalation.BondIsZeroIff | oracle/src/helpers.rs:44-52 | the exact inputs on which the bond rounds down to nothing |
| Escalation.StakePanicsIff | oracle/src/data_request.rs:138-185 | the exact condition under which a guarded stake panics, on a new request (scaling overflow, first or second window) and on a running dispute |
| Escalation.FirstStakeIff | oracle/src/data_request.rs:139-151 | some sequence of calls from a given time on stakes on a new request iff its first window can open then |
| Escalation.EscalationBoundedIff | oracle/src/data_request.rs:138-194 | for every open request, over all mixes of stakes and unstakes from a given time on: rounds are bounded iff the bond is not zero, or the invoke amount is 0 or reached, or only Invalid is admissible, or the clock has no room for more windows |
| Escalation.OnlyInvalidMeans | oracle/src/data_request.rs:341-376 | of all outcomes on the list and of the type nothing but Invalid remains iff there is a list that is empty or meets a numeric data type |
| Escalation.ZeroBondEscalates | oracle/src/helpers.rs:44-52 | with a zero bond and two admissible outcomes, runs of any length exist, at any block time with room on the clock |
| RareTerms.ZeroBondFromDeployment | oracle/src/whitelist.rs:67-70 | from deployment with positive bonds below 10000, a multiplier of 1 lets transfers of nothing reach any number of windows |
| RareTerms.OverflowFromDeployment | oracle/src/helpers.rs:44-52 | a request the contract accepts whose bond overflows while scaled, though its first window would fit, and which no later calls can change |
| RareTerms.UnfillableFromDeployment | oracle/src/data_request.rs:167-182 | a request the contract accepts whose first window opens but which no later calls can settle |
| RareTerms.FrozenForever | oracle/src/data_request.rs:139-151 | a new request stays untouched by everything that is called from a given time on iff it has no provider and its first window cannot open |
| RareTerms.AcceptedSettlesIff | oracle/src/data_request.rs:506-541 | of the accepted requests exactly those can be settled that name a provider or whose bond, scaled and doubled, fits the machine up to the arbitrator's amount |
| Settleability.SettleableIff | oracle/src/data_request.rs:647-722 | for every open request, over all calls of the contract from a given time on: it can be settled iff it has a provider, a called arbitrator, a second window, or a first bond that can still be filled |
| Escalation.RewardRatio | oracle/src/data_request.rs:378-390 | winning bonds are at most twice the losing ones plus the first bond, for any final outcome |
| Escalation.RewardRatioIsTight | oracle/src/data_request.rs:1872-1907 | the ratio is met with equality by every alternating dispute the correct side closes |
| Escalation.MajorityBacked | oracle/src/data_request.rs:196-206 | an undisputed outcome's bonds exceed all others together by at least the first bond |
| Claims.StakeWithinBonds | oracle/src/data_request.rs:268-325 | no user's correct stake exceeds the winning bonds |
| Claims.StakeByUserAddsUp | oracle/src/data_request.rs:279-296 | summing correct stake by user or by window gives the same |
| Claims.ClaimPays | oracle/src/data_request.rs:268-325 | a claim never panics and pays stake plus the exact floors |
| Claims.ClaimIsOneShot | oracle/src/data_request.rs:268-325 | after any claims and unstakes a first claim pays the same amounts and any later one pays 0 |
| Claims.OrderIndependent | oracle/src/data_request.rs:279-324 | any permutation of claims and unstakes pays the same totals and leaves the same claims |
| Claims.ClaimConservation | oracle/src/data_request.rs:268-325 | every sequence of claims stays within bonds and fee; once all winners claimed, less than one unit per winner is left, less one; without winning bonds nothing is paid |
| Claims.TotalsAccountForClaims | oracle/src/resolution_window.rs:144-167 | a winning outcome's total is its users' live stake plus the principal already claimed, and stays the full bond |
| ClaimHistory.ClaimsConservedOverRuns | oracle/src/data_request.rs:598-645 | over any run of the contract, claims on a request pay at most its bonds and fee, everyone once; once no winning stake is left, less than one unit per paid claim remains |
| ClaimHistory.ClaimsPayOnceOverRuns | oracle/src/data_request.rs:268-325 | at any point of any run a claim goes through iff the user had winning stake at settlement and has not been paid since, and pays the exact shares as of then |
| ClaimHistory.TotalsAccountOverRuns | oracle/src/resolution_window.rs:144-167 | over any run of the contract a winning window's total is its live stake plus the principal the run's claimants took there, and stays the full bond |
| ClaimHistory.BondedEntriesStay | oracle/src/resolution_window.rs:104-167 | over any run, before and after settlement, what a user has on a bonded outcome changes only by that user's own claim on it as the final outcome |
| Claims.ProfitBelowStake | oracle/src/data_request.rs:647-668 | after an undisputed settlement every winner's profit is below their stake |
| OracleContract.Contract.DrNew | oracle/src/data_request.rs:506-541 | the call appends the request of `NewRequest` or changes nothing |
| OracleContract.Contract.DrStake | oracle/src/data_request.rs:544-565 | guards, stake and write-back are `StakeRequest`; a panic changes nothing |
| OracleContract.Contract.DrUnstake | oracle/src/data_request.rs:568-591 | the window's maps change although the request is never replaced; the amount is sent in the stake token |
| OracleContract.Contract.DrClaim | oracle/src/data_request.rs:598-645 | both payouts are sent in their tokens; a claim of nothing is rolled back |
| OracleContract.Contract.DrFinalize | oracle/src/data_request.rs:647-668 | undisputed settlement and return of the validity bond |
| OracleContract.Contract.DrFinalizeByProvider | oracle/src/data_request.rs:670-693 | settlement by the named provider, without return of the bond |
| OracleContract.Contract.DrFinalArbitratorFinalize | oracle/src/data_request.rs:695-722 | settlement by the arbitrator once invoked |
| OracleContract.Contract.FtOnTransfer | oracle/src/fungible_token_receiver.rs:24-61 | dispatch by token and payload; the unspent amount is the answer; a late panic undoes the writes |
| OracleContract.Contract.SetConfig | oracle/src/oracle_config.rs:11-28 | governance appends a config with positive bonds |
| OracleContract.Contract.UpdateFeeConfig | oracle/src/fee_config.rs:8-31 | governance replaces only the fee of the last config |
| OracleInvariant.ExecuteKeeps | oracle/src/data_request.rs:499-722 | every call keeps the contract invariant; configs keep their terms, settled requests their verdict |
| OracleHistory.EveryReachableState | oracle/src/lib.rs:55-67 | from deployment on, in every state: ids are indices, windows form the chain, totals agree, terms agree |
| OracleHistory.SettlementIsAdmissible | oracle/src/data_request.rs:647-722 | a settlement meets an active request, ends on the outcome its call names or on the one bonded last, and returns the bond only for an answer and not by provider |
| OracleHistory.VerdictIsTheCallers | oracle/src/data_request.rs:647-722 | over any run a settled request has the outcome named in the one call that settled it, or, undisputed, the outcome bonded last |
| OracleHistory.SettlesOnAListedOutcome | oracle/src/data_request.rs:647-722 | with a list of outcomes set, all three paths settle on a listed string or on Invalid |
| OracleHistory.SettlementIsAuthorized | oracle/src/data_request.rs:670-722 | only the named provider, the arbitrator after a bonding at the invoke amount, or an undisputed timeout can settle |
| OracleHistory.FinalizeSucceedsIff | oracle/src/data_request.rs:392-410 | undisputed settlement succeeds iff a window bonded and the next one ran out unbonded |
| CallOutcomes.ProviderSucceedsIff | oracle/src/data_request.rs:670-693 | a provider settlement succeeds iff the request is open, the caller is its provider and the outcome is on its list; it settles on that outcome, sends nothing and touches no other request |
| CallOutcomes.ArbitratorSucceedsIff | oracle/src/data_request.rs:695-722 | an arbitrator settlement succeeds iff the request is open, the caller is its arbitrator, it was called and the outcome is on the list; it settles on that outcome and an answer returns the bond to the requester |
| CallOutcomes.StakeSucceedsIff | oracle/src/data_request.rs:544-565 | a stake succeeds iff unpaused, open, from the request's stake token, arbitrator not called, outcome listed, of the type and not the one bonded last, and no window it opens overflows |
| CallOutcomes.CreationSucceedsIff | oracle/src/data_request.rs:506-526 | a request is accepted iff unpaused, from a listed sender, well formed, in the current payment token and with at least the validity bond |
| CallOutcomes.TransferSucceedsIff | oracle/src/fungible_token_receiver.rs:24-61 | the callback succeeds iff the payload is readable, comes from the current token for it and the call behind it succeeds; then its effect is that call's |
| CallOutcomes.GovernanceSucceedsIff | oracle/src/oracle_config.rs:11-34 | the current governance account can always set a config with positive bonds, replace the fee within its limits and toggle the pause, and nobody else can |
| CallOutcomes.PausedRunMovesNothing | oracle/src/oracle_config.rs:31-34 | while nobody toggles the pause no call moves any request of a paused contract |
| CallOutcomes.CreationRecords | oracle/src/data_request.rs:525-540 | the new request is the sender's, with the outcomes, type, provider, period and multiplier of the call, the terms of the current config and the rest of the payment as its fee |
| CallOutcomes.BondGoesBackToItsPayer | oracle/src/data_request.rs:254-266 | over any run after a creation, settlement sends exactly one transfer, the validity bond in the creation config's payment token to the creating sender, iff settled on an answer and not by provider, and else nothing |
| OracleHistory.ClaimSucceedsIff | oracle/src/data_request.rs:598-645 | while payouts fit, a claim succeeds iff the user has unclaimed stake on the final outcome where it bonded |
| OracleHistory.OnlyGovernanceReconfigures | oracle/src/lib.rs:71-79 | configs and the pause switch move only by the current config's governance account and no request moves with them; a new config is stored as given, a new fee replaces the last config's, only the toggle throws the switch |
| OracleHistory.SettledOnce | oracle/src/data_request.rs:647-722 | over any run at most one settlement succeeds, and the bond returns exactly once in exactly the cases that earn it |
| OracleHistory.VerdictIsFinal | oracle/src/data_request.rs:741-750 | a settled outcome, its bonds and its fee never change again |
| OracleHistory.UnbondedStakeIsWithdrawable | oracle/src/data_request.rs:568-591 | at any time, before and after settlement, unstaking succeeds iff the outcome is not bonded and the caller has the amount |
| OracleHistory.DisputesAlternate | oracle/src/data_request.rs:378-390 | in every reachable state neighbouring windows differ in outcome, and none holds stake on its predecessor's |
| OracleHistory.RewardIsGuaranteed | oracle/src/data_request.rs:268-325 | the reward ratio holds for every reachable settled request, whichever path settled it |
| OracleHistory.UndisputedIsMajorityBacked | oracle/src/data_request.rs:647-668 | a successful undisputed settlement is majority-backed and pays profits below the stakes |
| OracleHistory.DisputesStayShort | oracle/src/data_request.rs:275-279 | in every reachable state a request with a positive first bond, settled or open, has at most 128 windows to loop over, numbered without loss, and logarithmically many in its config's invoke amount |
| OracleHistory.DisputesEnd | oracle/src/data_request.rs:167-194 | after any further calls, through settlement, a request whose resolution bond `B` is not zero has `n <= 128` windows with `B * 2^(n-1)` below the invoke amount from the second on |
| OracleHistory.ClaimTakesPrincipal | oracle/src/data_request.rs:268-325 | a claim lowers live stake by exactly the claimant's principal and withdrawable stake by nothing |
| OracleHistory.StakeIsConserved | oracle/src/data_request.rs:544-645 | per request, over any run, accepted stake is unstaked, claimed as principal or still live |
| Ledgers.StakeEntry | oracle/src/data_request.rs:138-185 | a contract-level stake credits exactly its sender, on its outcome, in the current window, with what did not come back; when that window decides, when the arbitrator is called, and the bond and times of every window it opens |
| Ledgers.CallLedger | oracle/src/data_request.rs:544-645 | every entry of every user: only that user's own stakes add to it, only that user's own unstakes and own claim take from it, and no other call moves it |
| Ledgers.UserStakeIsConserved | oracle/src/data_request.rs:544-645 | user by user over any run: what was accepted from a user is unstaked by, claimed as principal by, or still held by that user |
| OracleHistory.SettledTakesNoStake | oracle/src/data_request.rs:544-645 | on no run after settlement is stake accepted; what was live then is unstaked, claimed as principal or still live |
| OracleHistory.SnapshotForever | oracle/src/oracle_config.rs:6-28 | a request's terms agree with its config in every later state |
| OracleHistory.TokensGoOutWhereTheyCameIn | oracle/src/data_request.rs:544-722 | at any later time stake is taken, returned and paid in the tokens the request was created under |
| ChallengePeriods.WindowsRecountTheLog | oracle/src/data_request.rs:139-182 | over timed runs the windows record every bonding in order, and start times never decrease |
| ChallengePeriods.ChallengePeriodHasPassed | oracle/src/data_request.rs:392-410 | an undisputed settlement is of the last bonding, at least one whole challenge period after it |
| ChallengePeriods.UndisputedIff | oracle/src/data_request.rs:392-410 | at the end of any timed run an undisputed settlement succeeds iff something bonded, the arbitrator was not called, and the whole challenge period due after the last bonding has passed |
| ChallengePeriods.VerdictIsNamedOrLogged | oracle/src/data_request.rs:647-722 | over timed runs the verdict is the one named by provider or arbitrator, or the last bonding of the log |
| Liabilities.ClaimOwed | oracle/src/data_request.rs:598-645 | a claim lowers the debts in both tokens by exactly what it pays |
| Liabilities.SettleOwed | oracle/src/data_request.rs:647-722 | settling never raises a debt and frees the validity bond |
| Liabilities.CallMovesDebt | oracle/src/data_request.rs:499-722 | no call raises the debt in any one token beyond what it kept of a transfer of that token, net of what it sends |
| Token.TokenContract.InternalTransfer | token/src/internal.rs:51-68 | withdraw and deposit are `Moved`, undone together on a panic |
| Token.TokenContract.FtTransferCall | token/src/fungible_token_core.rs:114-142 | the tokens move at once and the callback is promised |
| Token.TokenContract.FtResolveTransfer | token/src/fungible_token_core.rs:155-204 | the in-place refund or burn is `Resolved` |
| Token.TokenContract.NearDeposit | token/src/w_near.rs:10-17 | minting is `Minted` |
| Token.TokenContract.NearWithdraw | token/src/w_near.rs:26-35 | burning against NEAR is `Unwrapped` |
| Token.TokenContract.StorageDeposit | token/src/storage_manager.rs:29-46 | registration is `Registered` |
| Token.TokenContract.StorageWithdraw | token/src/storage_manager.rs:49-71 | deletion of an empty account is `Unregistered` |
| Token.MovedBalances | token/src/internal.rs:51-68 | a transfer moves exactly the amount between two accounts and keeps the sum |
| Token.ResolvedBalances | token/src/fungible_token_core.rs:155-204 | the resolve step never panics, takes what the receiver did not report as used (all, if the answer is missing or unreadable) and still has, and gives it to the sender or burns it |
| Token.TokenCallKeeps | token/src/w_near.rs:10-35 | every call keeps supply equal to balances, within 128 bits, and backed besides the storage deposits |
| Token.TokenCallSucceedsIff | token/src/fungible_token_core.rs:106-142 | the exact condition for each of the six calls to succeed |
| Token.TokenCallMeans | token/src/storage_manager.rs:29-71 | what each of the six calls does to every balance, to who is registered, to the supply and to the NEAR held |
| Token.ResolvedKeepsToken | token/src/fungible_token_core.rs:177-203 | so does the resolve step, on both branches |
| Token.WithdrawalsArePaid | token/src/w_near.rs:26-35 | the contract always has the NEAR it sends out |
| Token.WrapRoundTrip | token/src/w_near.rs:10-35 | unwrapping undoes wrapping |
| Token.RegistrationRoundTrip | token/src/storage_manager.rs:29-71 | unregistering undoes registering and neither touches a balance |
| TwoContracts.EventKeepsWorld | token/src/fungible_token_core.rs:106-204 | every call and every arrival of a message keeps the two-contract invariant |
| TwoContracts.AlwaysSolvent | oracle/src/fungible_token_receiver.rs:24-61 | so does every interleaving |
| TwoContracts.SolventFromGenesis | oracle/src/data_request.rs:544-722 | from deployment on supply equals balances and is backed, and the oracle's balance covers all debts and everything in flight |
| TwoContracts.RefundsAreNeverShortened | token/src/fungible_token_core.rs:177-200 | when the oracle is the receiver the refund, or burn, is exactly what it did not use |
| TwoContracts.TransferCallSettles | token/src/fungible_token_core.rs:114-204 | a transfer call to the oracle, run through its three steps, moves exactly what the oracle kept and nothing else; a panicking callback undoes it entirely |
| Deliveries.TokenCallSends | token/src/fungible_token_core.rs:106-142 | of all calls of the token only a transfer call that goes through sends a message, its own notification; a failing call changes nothing |
| Deliveries.CallMovesAtOnce | token/src/fungible_token_core.rs:114-126 | a transfer call to anyone moves exactly the amount at once and puts exactly its own notification on its way |
| Deliveries.EventFollowed | token/src/fungible_token_core.rs:127-141 | no event but its own arrival touches a message; an arriving notification becomes its resolve step with the callback's answer, and only resolve steps and payouts end |
| Deliveries.RunFollowed | token/src/fungible_token_core.rs:127-141 | through any interleaving a message stays where it is followed to, unaltered until it arrives, and a notification goes on as the resolve step of the same sender, receiver and amount |
| Deliveries.TransferCallResolves | token/src/fungible_token_core.rs:114-204 | a transfer call to any receiver, with any answer and any events before and after the callback: its resolve step takes back exactly the unused part the receiver still has, to the sender of this call or burnt, and nothing else moves; the oracle always still has it |
| Deliveries.ClaimSends | oracle/src/data_request.rs:598-645 | a claim puts exactly its payouts in the honest token on their way, to the claimant |
| Deliveries.UnstakeSends | oracle/src/data_request.rs:568-591 | an unstake puts exactly its amount on its way, to the caller |
| Deliveries.SettlementSends | oracle/src/data_request.rs:647-722 | a settlement puts at most the validity bond on its way, to the requester |
| Deliveries.OthersSendNothing | oracle/src/fungible_token_receiver.rs:24-61 | creations, stakes, callbacks and governance send no tokens, and a failing call changes nothing |
| Deliveries.PayoutIsDelivered | oracle/src/fungible_token.rs:11-28 | after any events a payout arrives once and moves exactly its amount to its receiver if both accounts are registered then, and nothing otherwise |
| TwoContracts.PayoutsAreFunded | oracle/src/fungible_token.rs:11-28 | an outgoing transfer can fail only for want of a registration or because it is addressed to the oracle |
| TwoContracts.ClaimsNeverOverflow | oracle/src/data_request.rs:297-324 | in every reachable world a claim on stake in the honest token computes its exact amounts without a panic |

## Left out

- Logging, serialization, storage-key prefixes, summaries and view calls, token metadata, upgrade and deployment: no effect on the modelled state.
- Gas, storage usage, `refund_storage` and the oracle's storage ledger: host byte costs; each check is a flag of the call that may make it panic.
- `requester.set_outcome`: an external call whose result the oracle ignores.
- Whitelist changes and `dr_validate`: `NewRequestArgs.listing` and `wellFormed` carry their verdicts into `NewRequest`; the SDK's maximum fee percentage enters `UpdateFeeConfig` as a flag.
- The `flux_sdk` definitions of outcomes and configs are not part of this repository; the model has the fields the two contracts read.
- A zero bond with more than 65536 windows: the round wraps and the window's storage prefix repeats; the model keeps such windows apart (all their stakes are 0).
- DataRequests.ActiveDataRequest.Stake: on a panic it says nothing of the working copy, because the contract discards it.
- DataRequests.FinalizedDataRequest.Claim: on a panic it says nothing of the working copy, for the same reason.
- OracleContract.Contract.DrNew: the whitelist lookup and the request limits are flags of the call.
- OracleContract.Contract.UpdateFeeConfig: the SDK's maximum fee percentage is a flag of the call.
- ResolutionWindows.ResolutionWindow.Stake: on a panic it says nothing of the working copy, for the same reason.
- Aliasing of storage handles: a window is loaded, changed and written back as a value; `DrUnstake` writes back explicitly what the source writes through the handle.
- The order between the two transfers of one claim: they may arrive in either order, which allows more interleavings than the source.
- TwoContracts.SolventFromGenesis: one honest token at a time; other tokens, also malicious ones, are among the arbitrary callers.
- Panic messages: only which check fails is modelled.
