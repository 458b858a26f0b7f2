# A verified model of the shop bot

The bot sells proxy configurations and digital goods over Telegram. This project models the parts of it where money,
stock and panel configuration must not go wrong, and proves what they guarantee in every run:

- **Payments, wallet and stock** (`Tables`, `Database`, `Handlers`, `Protocol`). The SQLite tables are values, and every
  `Database` method is one atomic function on them, because each runs under one lock. The class in `DatabaseClass` has
  the methods themselves, proved equal to these functions. `Handlers` holds the stretches of the handlers between two awaits.
  `Protocol` interleaves all of them: five ways to credit an invoice, preparation, cancellation, expiry, renewals,
  referral rewards and stock administration, cut at every `await`. A run is any sequence of steps with any replies from
  the network. The results are in `DatabaseRuns`, `Persistence`, `Settlement`, `Delivery`, `Ledger`, `Solvency`,
  `Invoices`, `UniqueAmounts`, `Backing`, `Evidence`, `Confirmations`, `Transactions` and, together with the watcher,
  `Detection`.
- **The chain watcher** (`Chain`, `RpcPoolClass`, `Watcher`). Decoding transfers, the final check of a receipt, cyclic failover
  over RPC endpoints, the chunked log query and the fallback block scan, matching by amount, and the scan windows.
- **The Xray configuration** (`Xray`, `Credentials`, `Provisioning`). Outbounds and routing rules edited in place, the
  proxy credentials that carry a location, and the operations that change configuration and `configs` table around a
  lock. `Operations` says what one operation alone comes to, `PanelHistory` for every run whatever when row and panel agree, `CalmRuns` gives rules for the callers under
  which they do, and `PanelMishaps` says exactly what happens without these rules.
- **Two rate limiters and the session tokens** (`Throttle`, `LoginLimiter`, `Sessions`).

Amounts are integers: hundredths for prices and balances, micro-USDT for invoice amounts, and 10^-18 USDT on chain. The
tolerances of 0.0005 USDT and 0.000001 USDT are then 500 and 1 micro-units. Times are integers.

These results are negative or conditional, and say when the code keeps its promise:

- Waiting crypto amounts stay different exactly until a step of one of two kinds, named by `UniqueAmounts.Clashes`.
  Two preparations that overlap at the await do collide (`InterleavedPreparationsCollide`).
- Different amounts are not enough for matching. They must lie more than two micro-units apart
  (`Watcher.SeparatedIffUnambiguous`); amounts one micro-unit apart let an exact payment go to the other invoice
  (`Watcher.ExactPaymentTakenForOther`).
- A routing rule that names two inbounds is lost as a whole when one of them is routed (`Xray.SharedRuleIsLost`).
- A deletion removes the inbound from the panel before it cleans up. A new inbound that gets the same tag in between
  loses its rule to the late cleanup, exactly if the tags are equal (`PanelMishaps.LateCleanupAgreesIff`,
  `Provisioning.EditKeepsAgreementIff`).
- After a restart that fails behind a saved change, row and panel agree exactly if the change changed nothing about the
  outbound (`PanelMishaps.FailedRestartAgreesIff`).
- Two changes of one config at the same time end in agreement exactly if the one saved last would have built the same
  outbound from the final row (`PanelMishaps.RacedChangesAgreeIff`). Changes of the same columns do if their rows are
  written in the order of the saves. An IP change and a change of the life disagree in every order, unless the one saved
  first changed nothing (`PanelMishaps.IpAndLifeAgreeIff`).
- After an IP change whose restart fails behind the save, a resting config and its row agree exactly if the session is not
  a new one (`PanelMishaps.FailedIpChangeAgreesIff`).
- Used hashes are told apart as texts, but the check reads the receipt of the hash that it finds inside the text. So
  different written hashes can name one transaction: a second invoice is credited from the same transaction exactly if
  the text of its match is not, up to letter case, the hash found in it (`Transactions.ReplaySettlesIff`); one letter more
  is enough (`Transactions.SuffixIsImproper`). If no such match is taken, no transaction counts twice
  (`Transactions.TransactionsAreDistinct`).
- The login limiter admits, per window, failures that grow with the number q of attempts of the address in flight:
  exactly at most 2 * max_fails + q - 3 for the default limits (`LoginLimiter.FailuresPerWindow` has the bound for all
  limits, `LoginLimiter.BoundIsReached` a run that reaches it). So 2 * max_fails - 2 holds exactly if attempts do not
  overlap (`LoginLimiter.SharpBoundIff`), and no bound holds for every q (`LoginLimiter.BoundGrowsWithOverlap`).

The proofs also found that the refund branch after the delivery of a wallet purchase can never be taken
(`Handlers.PaidMeansDelivered`).

`dafny verify dfyconfig.toml` checks everything.

## Model

| member | source | states |
|---|---|---|
| Settlement.CreditedAndDeliveredAtMostOnce | bot/database.py:1128-1218 | In every state of every run of the protocol an order has one credit result and one delivery start if its row is credited, and none of either otherwise, whichever of the five paths raced |
| Settlement.NextAgrees | bot/ipn.py:52-58 | No step of any handler separates the history of credits and deliveries from the `credited` flags |
| Settlement.WalletEffect | bot/handlers/digital.py:278-298 | A wallet purchase sets the flag of its order exactly when it hands out a row, and only if it was unset |
| Settlement.CallbackCreditsIff | bot/ipn.py:43-91 | A callback credits exactly its own order, if it is signed and its status means paid at its gateway; a signed one always writes status and invoice id |
| Delivery.CreditedOrderGotItem | bot/fulfillment.py:231-277 | In every run a credited order of a stocked product was given, in the step that credited it and by whichever path, the item it held or else the lowest unsold one of its product, sold to the order's owner; without one the stock stayed as it was |
| Delivery.CreditGivesItem | bot/handlers/digital.py:248-298 | The same for one step of any handler |
| Delivery.DeliverBegins | bot/fulfillment.py:231-277 | Between a credit and the first await the history gains the credit and the start, and an order a delivery for its owner |
| Delivery.RewardIff | bot/service.py:436-459 | Of all steps exactly those that end a successful delivery reward anybody: the buyer's referrer, never the buyer |
| Delivery.ServedHavePaid | bot/fulfillment.py:231-277 | In every run whoever is served after a payment has a credited order in the history |
| Delivery.RenewalCosts | bot/service.py:1249-1260 | A renewal is begun if the wallet covers it or does not pay, and costs its price exactly if it succeeds and the wallet pays |
| Persistence.SettledForever | bot/database.py:1128-1154 | From any state of a run to any later one: tables stay sound, owner, amount, purpose and price of a row stay, a credit and a hash are for ever, a sold item keeps order and buyer |
| Ledger.MoneyIsConserved | bot/fulfillment.py:235-243 | In every state of every run a user's balance plus money held by purchases and renewals in flight equals credited top-ups plus rewards plus manual adjustments minus completed purchases; referral income equals the rewards |
| Ledger.NextGap | bot/service.py:1252-1260 | No step changes the difference between a user's money and what the history explains, so a failed purchase or renewal nets to zero |
| Solvency.OverdraftIsManual | bot/database.py:867-878 | With non-negative prices a balance is never below minus what manual adjustments took |
| Backing.SettlementsAreBacked | bot/crypto.py:512-579 | Every deposit settlement in every run, by watcher or by hash, was checked with a successful receipt in a non-zero block with enough confirmations, not before a known start block, whose official transfers to the address of some version of the invoice are worth its base price less 0.0005, however often it was prepared again during the check; whose receipt it is says `Transactions.SettlementNamesItsTransaction`, and which confirmations were required `Confirmations.SettlementMetSettings` |
| Confirmations.SettlementMetSettings | bot/handlers/payments.py:226-254 | In every run every settlement ends a check of a version of its invoice, and the receipt the check was given succeeded in a known block with at least the confirmations that an earlier step of the same task had read from the settings, and at least one, not before that version's start block if known, and pays that version's address the unique amount, or for a submitted hash the base price, less 500 micro-units |
| Confirmations.SettingWasRead | bot/crypto.py:414 | What a check asks for in confirmations was read by an earlier step of its task |
| Confirmations.CheckCreditsIff | bot/handlers/payments.py:226-254 | The end of a check credits its own invoice exactly if its receipt meets those terms, its text holds a hash and no other invoice carries it, and credits no other |
| Evidence.EveryHashHasOneProof | bot/database.py:1121-1154 | In every state of every run an invoice with a hash has exactly one settlement with that hash in the history, with its proof, and no other credit has the order or the hash |
| Transactions.DepositsCoverCredits | bot/crypto.py:512-579 | With replies from one chain and no match taken whose text is more than its hash, the base prices of all settled invoices together, less 0.0005 for each, are covered by the official transfers of the transactions that their hashes name, and no transaction counts twice |
| Transactions.TransactionsAreDistinct | bot/crypto.py:462-489 | In every run in which no such match is taken, and whatever users submit, no two settlements name the same transaction |
| Transactions.SettlementNamesItsTransaction | bot/crypto.py:526-533 | With replies from one chain every settlement has the receipt of the transaction found in its hash, which backs its demand; in those runs that is the transaction of the hash written on the invoice |
| Transactions.SettlementHasCheck | bot/crypto.py:476-489 | Every settlement of a run ends an earlier check of its hash, with the receipt this check was given |
| Transactions.ReplaySettlesIff | bot/crypto.py:462-483 | Of two good matches for two invoices, one with the plain hash and one with a text it is found in, the first is credited, and the second is credited from the same transaction if and only if its text is not, up to letter case, that hash |
| Transactions.SuffixIsImproper | bot/crypto.py:90-93 | A hash with one letter behind it is another text in which the same hash is found |
| Detection.DepositIsCredited | bot/crypto.py:399-489 | In every run, whatever other tasks and other matches do: a deposit whose event fits a waiting invoice, watched by ticks from soon enough until it is confirmed, with heads rising by at most 2002 - required, amounts kept apart and good answers to its checks, is credited to the invoice by the end of some tick, unless another invoice carries its hash |
| Detection.TickSettles | bot/crypto.py:462-489 | A tick that finds a confirmed match for an invoice on its list does not end before the invoice is credited or another one carries the hash, if the check is answered well |
| Evidence.DepositSettles | bot/crypto.py:462-489 | When the receipt of a confirmed, unused, matching deposit arrives and backs the demand, whatever other tasks did during the await, its invoice is credited with its hash unless it was credited or another one had the hash by then, and no other invoice is |
| Evidence.CheckSettlesIff | bot/database.py:1128-1154 | A check that ends well credits its invoice exactly if no other one carries the hash, and no other invoice |
| Evidence.MatchIsCheckedIff | bot/crypto.py:462-483 | A match is checked, for the invoice it fits, exactly if it is confirmed, unused and fits one of the tick's list; otherwise it is dropped |
| Evidence.CheckBeginsIff | bot/handlers/payments.py:232-234 | A submitted hash is checked exactly if it is unused, with at least one confirmation required |
| Backing.CreditsAreDistinct | bot/crypto.py:462-489 | Any two credits of a run are for different orders and write different non-empty hash texts, so duplicate matches settle nothing twice; `Transactions.ReplaySettlesIff` is about texts that name one transaction |
| Backing.NextAccounts | bot/handlers/payments.py:226-254 | Every step keeps all evidence in order: rows priced, tasks holding genuine invoice versions, credits backed |
| Backing.NextFrom | bot/crypto.py:403-489 | An invoice version held by a task or used by a settlement is one that the table really had |
| UniqueAmounts.StepKeepsDistinctIff | bot/service.py:1386-1403 | Of all protocol steps exactly the clashing ones (storing an amount taken meanwhile, reviving an invoice whose amount was given away) break pairwise difference of waiting amounts |
| UniqueAmounts.OrderlyPlayIsDistinct | bot/service.py:1309-1323 | If choosing and storing is one step, a draw is free and no status write revives a row, waiting amounts stay pairwise different through every sequence of prepare, re-prepare, cancel, expire and credit |
| UniqueAmounts.InterleavedPreparationsCollide | bot/service.py:1386-1403 | Two equally priced invoices prepared across the await can end on one amount |
| UniqueAmounts.ChosenAmount | bot/service.py:1309-1323 | A chosen amount is unused and decodes to its cents and its offset between 11 and 999 if any draw is free; otherwise it is the unchecked fallback |
| UniqueAmounts.ChooseAmount | bot/service.py:1309-1323 | The search loop returns the first unused draw or the fallback |
| Invoices.Preparation | bot/service.py:1369-1404 | A preparation writes address, start block, expiry and the base price with the first free offset, and makes the row wait; without a price or a valid address it writes nothing; no other column or row changes |
| Invoices.OnlyOwnersAct | bot/handlers/payments.py:39-66 | Cancelling, choosing a way to pay and submitting a hash do something exactly for the owner of an unpaid invoice |
| Invoices.InvoiceCreation | bot/service.py:1325-1356 | A new invoice is refused if it asks for nothing or its id is taken, else it waits, unpaid and without hash or address |
| Invoices.GatewayReply | bot/service.py:1414-1444 | What a gateway's invoice or failure writes on the row |
| Invoices.TickIs | bot/crypto.py:399-405 | A tick ends exactly the overdue invoices and then scans for exactly those that still wait, if any |
| DatabaseRuns.CreditedExactlyOnce | bot/database.py:1202-1218 | Over any sequence of database calls an order is handed out as credited exactly once if its row is credited |
| DatabaseRuns.CreditStep | bot/database.py:1128-1154 | A call changes the credited flag of an order exactly when it hands out its row, and only from unset to set |
| DatabaseRuns.HistoriesGrow | bot/database.py:1182-1200 | Every history of calls keeps the tables sound and only lets them grow |
| DatabaseRuns.HashSettlesOneOrderForever | bot/database.py:1121-1154 | A written hash stays on its credited order, in lower case, and is never on another one |
| DatabaseRuns.ItemSoldOnce | bot/database.py:451-483 | A sold item never changes order or buyer, and no other item goes to that order |
| DatabaseRuns.ClaimTakesLowest | bot/database.py:451-483 | A claim returns the order's own item, else the lowest available one of the product, else nothing, and touches nothing else |
| DatabaseRuns.StockIdsChangeOnlyBy | bot/database.py:414-498 | Item ids appear only by adding and disappear only by clearing, which takes exactly the product's unsold items, or deleting a product, which takes exactly its items |
| DatabaseRuns.AddStockKeeps | bot/database.py:418-434 | Added items get new ids, are available, are counted, and leave the others alone |
| DatabaseRuns.AddedItems | bot/database.py:418-434 | The new items are exactly the stripped non-blank payloads, in order, from the next id on, unsold and counted; an unknown product adds none |
| DatabaseRuns.WalletCalls | bot/database.py:855-980 | A deduction goes through exactly if the balance covers it, equality included; each call touches one user only; a referrer is set once |
| DatabaseRuns.CreditWrites | bot/database.py:1128-1218 | A credit succeeds exactly for a known, uncredited order whose hash no other order has, and writes exactly flag, status and hash, or without a hash the flag alone |
| DatabaseRuns.PatchWrites | bot/database.py:1182-1200 | A patch writes exactly the columns it gives, on one row |
| DatabaseRuns.ProductCalls | bot/database.py:414-416 | A product is never overwritten, and is deleted alone |
| DatabaseRuns.ClearedItems | bot/database.py:491-498 | Clearing reports how many items went |
| DatabaseRuns.ExpiryIsExact | bot/database.py:1156-1164 | Expiry ends exactly the unpaid waiting crypto invoices whose known expiry has passed, writes nothing but their status, and is idempotent |
| Tables.CreditCrypto | bot/database.py:1128-1154 | Crediting with a hash keeps hashes unique, lower case and on credited rows only, and undoes no credit |
| Tables.CreditOnce | bot/database.py:1202-1218 | Crediting without a hash keeps the tables sound and every invoice's terms |
| Tables.UpdatePayment | bot/database.py:1182-1200 | The writable columns exclude credit, hash, owner, amount and purpose, so soundness and growth survive any patch |
| Tables.ExpireStale | bot/database.py:1156-1164 | Expiry keeps soundness, growth and terms |
| Tables.ClaimStock | bot/database.py:451-483 | A claim keeps at most one item per order and leaves payments alone |
| Tables.AddStock | bot/database.py:418-434 | Adding keeps ids fresh and touches stock only |
| Tables.ClearAvailable | bot/database.py:491-498 | Clearing removes no sold item |
| Tables.DeleteProduct | bot/database.py:414-416 | Deleting a product with its stock keeps the tables sound |
| Tables.LowestAvailable | bot/database.py:466-470 | The found item is available and nothing below it is |
| DatabaseClass.Database.CreatePayment | bot/database.py:1077-1104 | Inserts a fresh row; refuses a second one with the same order id and says so |
| DatabaseClass.Database.CreditCryptoPayment | bot/database.py:1128-1154 | The method's statements compute `Tables.CreditCrypto` |
| DatabaseClass.Database.CreditPaymentOnce | bot/database.py:1202-1218 | The method's statements compute `Tables.CreditOnce` |
| DatabaseClass.Database.ExpireStaleCryptoPayments | bot/database.py:1156-1164 | The method computes `Tables.ExpireStale` |
| DatabaseClass.Database.UpdatePayment | bot/database.py:1187-1200 | The method computes `Tables.UpdatePayment` |
| DatabaseClass.Database.SetPaymentStatus | bot/database.py:1169-1179 | The method writes status and, if given, the gateway's invoice id |
| DatabaseClass.Database.AddBalance | bot/database.py:855-865 | Creates a missing user, adds, returns the new balance |
| DatabaseClass.Database.TryDeductBalance | bot/database.py:867-878 | Deducts only a covered amount and says so |
| DatabaseClass.Database.AddRefEarning | bot/database.py:968-980 | Adds a reward to balance and referral income together and returns the new balance |
| DatabaseClass.Database.ClaimStockItem | bot/database.py:451-483 | The method computes `Tables.ClaimStock` |
| DatabaseClass.Database.AddStockItems | bot/database.py:418-434 | The counting loop computes `Tables.AddStock` |
| DatabaseClass.Database.ClearAvailableStock | bot/database.py:491-498 | The method computes `Tables.ClearAvailable` and returns how many items went |
| DatabaseClass.Database.DeleteDigitalProduct | bot/database.py:414-416 | The method computes `Tables.DeleteProduct` |
| Handlers.CallbacksCreditOnce | bot/ipn.py:29-91 | A callback credits exactly an uncredited known order with a paid status; replayed it changes nothing; no later callback of any gateway credits the order |
| Handlers.GatewayCallback | bot/ipn.py:43-58 | An unsigned callback changes nothing; a signed one writes the status before it credits |
| Handlers.StartDelivery | bot/fulfillment.py:231-277 | The delivery up to its first await: a top-up is booked, a digital order claims stock, anything else goes to the panel |
| Handlers.StartDigital | bot/fulfillment.py:107-220 | Stock is claimed unless the product is gone or delivered by hand |
| Handlers.OrderGetsItem | bot/fulfillment.py:107-220 | A paid order of a stocked product is delivered exactly if it holds an item or one is unsold; then it has the one it held, unchanged, or the lowest unsold one, sold to the row's owner for this order; a product delivered by hand is accepted, a missing one not; nothing else changes |
| Handlers.OtherOrders | bot/fulfillment.py:231-243 | Any other order waits for the panel, and a top-up adds its amount to its owner's wallet |
| Handlers.PayFromWallet | bot/handlers/digital.py:248-298 | The purchase checks, deducts, marks, credits, refunds or claims in the handler's order |
| Handlers.NoPurchase | bot/handlers/digital.py:261-276 | A wallet purchase stops before it costs anything exactly if the invoice is for no digital product, the product is gone, or a stocked one has nothing unsold |
| Handlers.PurchaseIff | bot/handlers/digital.py:278-298 | Otherwise it goes through exactly if the balance covers the price and the order is known and uncredited; then the row is credited as paid by wallet and the order gets its item, for the buyer |
| Handlers.OnlyPaidCosts | bot/handlers/digital.py:278-293 | Only a purchase that goes through changes a wallet, by exactly its price |
| Handlers.OnlyReferrerIsRewarded | bot/service.py:436-459 | A reward reaches the referrer alone, in balance and referral income; never the buyer, and nobody without a referrer |
| Handlers.PaidMeansDelivered | bot/handlers/digital.py:296-306 | A debited purchase is always delivered, so the refund after a failed delivery cannot happen |
| Chain.VerifyDepositTx | bot/crypto.py:512-579 | The check accepts exactly a known hash whose receipt backs the demand, never one without an official transfer to its address, reports the sum paid there, and gives the first check that failed as its reason |
| Chain.TransfersPay | bot/crypto.py:549-555 | The receipt of any transfers pays an address exactly the sum of those sent to it (EIP-20, section "Events") |
| Chain.TransfersBackIff | bot/crypto.py:512-579 | The check of any transfers passes exactly if the transaction succeeded in a readable block other than 0, has the demanded confirmations and at least one, is not before the demanded block, and sends the address something and at least the demanded amount less 500 micro-units |
| Chain.NothingPaidToNobody | bot/crypto.py:549-560 | No transfer log pays the empty address, so an invoice without an address is never backed |
| Chain.ForeignLogsPayNothing | bot/crypto.py:184-204 | Logs of other contracts or events, wherever they stand in a receipt, add nothing to the sum it pays |
| Chain.DecodersAgree | bot/crypto.py:184-246 | For every ERC-20 transfer or transferFrom, in any letter case, the call decoder reads what the log parser reads from the emitted event, if the recipient is watched (EIP-20, sections "Methods" and "Events") |
| Chain.EventParses | bot/crypto.py:184-204 | The log parser recovers recipient, 256-bit amount, block and hash of the event |
| Chain.CallDecodes | bot/crypto.py:207-246 | The call decoder recovers them from the calldata of both methods |
| Chain.TopicRoundTrip | bot/crypto.py:84-87 | An address topic is a word of 32 bytes whose first twelve are zero and whose last 40 digits are the address, up to letter case |
| Chain.ExtractIdempotent | bot/crypto.py:90-93 | The hash found in a message is lower case, well formed, and found again in itself |
| Chain.ExtractsFirstHash | bot/crypto.py:90-93 | The hash found is the first of the message, in lower case, and none is found exactly if there is none |
| Text.ParseHexIff | bot/crypto.py:184-204 | A hexadecimal numeral, with or without its prefix and in any letter case, is read as its number; other text is refused |
| RpcPoolClass.RpcPool.constructor | bot/crypto.py:265-276 | The pool holds the distinct stripped addresses in order, or the defaults if there is none |
| RpcPoolClass.FirstGivenFirst | bot/crypto.py:265-276 | Endpoints keep the order in which they were first given |
| RpcPoolClass.RpcPool.Call | bot/crypto.py:282-294 | Endpoints are tried at most once each, cyclically from the last good one, until one answers; it fails only if all fail; the index stays in range |
| RpcPoolClass.RpcPool.GetTransferLogs | bot/crypto.py:306-333 | The chunked query ends, asks exactly the chunks of [max(0, from), to], succeeds exactly when every chunk has a healthy endpoint, and then equals one unbounded query; otherwise it stops at the first chunk without one |
| RpcPoolClass.RpcPool.ScanBlockTransfers | bot/crypto.py:335-357 | The block scan succeeds exactly when every block has a healthy endpoint and finds exactly the direct transfers of the range |
| RpcPoolClass.DirectCallIsFound | bot/crypto.py:335-360 | A call of either transfer method of the official contract is found wherever it stands in its block, exactly if its recipient is watched and its hash and block are readable, with recipient, amount and block |
| RpcPoolClass.ChunksPartition | bot/crypto.py:315-333 | The chunks are consecutive, at most 20 long, and hold each block of the range exactly once |
| RpcPoolClass.TriedOnce | bot/crypto.py:282-294 | No endpoint is tried twice within one call |
| Watcher.FindFirst | bot/crypto.py:491-508 | The loop returns the first invoice of the list that matches |
| Watcher.SeparatedIffUnambiguous | bot/crypto.py:491-508 | Every possible deposit matches at most one waiting invoice if and only if amounts for one address lie more than two micro-units apart |
| Watcher.MatchIgnoresOrder | bot/crypto.py:491-508 | With separated amounts the match does not depend on the order of the list |
| Watcher.ExactPaymentTakenForOther | bot/crypto.py:491-508 | Of two invoices with different amounts, an exact payment of the second is taken for the first exactly if they are one micro-unit apart and the first is not newer than the block |
| Watcher.DepositReachesLogQuery | bot/crypto.py:414-433 | While an invoice with a start block waits, rewritten or not, a deposit at or after it is in the log query of some tick with enough confirmations, if heads rise by at most 2002 - required |
| Watcher.DepositIsMatched | bot/crypto.py:414-472 | If amounts are also kept apart and the deposit fits, that tick reads the transfer from its logs, finds it confirmed and matches it to the invoice |
| Watcher.DepositReachesBlockScan | bot/crypto.py:444-454 | The same for any call of `transfer` or `transferFrom` to a watched address, wherever it stands in its block, in the block scan, if heads rise by at most 42 - required |
| Watcher.RiseBoundIsExact | bot/crypto.py:429-465 | Whatever positive heads are seen, every confirmed block is caught if and only if heads rise by at most window + 2 - required |
| Watcher.QueriedIff | bot/crypto.py:414-445 | A tick queries exactly the blocks of the last 2000 that are at most required + 8 before the start of a waiting invoice, or before the head if none has a start; the fallback scans exactly the last 40 |
| Xray.XrayConfig.UpsertOutbound | bot/xray_config.py:39-47 | The loop replaces the first outbound with the tag or appends |
| Xray.XrayConfig.RemoveOutbound | bot/xray_config.py:50-56 | All outbounds with the tag go, and the flag says whether any did |
| Xray.XrayConfig.GetOutbound | bot/xray_config.py:59-63 | The first outbound with the tag, if any |
| Xray.XrayConfig.RemoveRules | bot/xray_config.py:94-107 | All field rules naming the inbound go, and the flag says whether any did |
| Xray.XrayConfig.UpsertRule | bot/xray_config.py:71-91 | Removes those rules and puts the new one first |
| Xray.XrayConfig.CleanUp | bot/xray_config.py:110-114 | Removes rules and outbound of a config |
| Xray.CleanupUndoesApply | bot/xray_config.py:110-114 | Cleaning up after both upserts gives back the configuration if and only if it mentioned neither tag |
| Xray.LastApplyWins | bot/xray_config.py:39-91 | Of two applications with the same tags only the last counts; repeating one changes nothing |
| Xray.LookupUpserted | bot/xray_config.py:39-63 | After an upsert the tag is found as written, every other tag as before, and only a new tag adds an entry |
| Xray.LookupUntagged | bot/xray_config.py:50-63 | After a removal the tag is gone and every other tag is found as before |
| Xray.UpsertKeepsOthers | bot/xray_config.py:39-47 | Everything but the upserted tag keeps its place |
| Xray.UpsertPlace | bot/xray_config.py:39-47 | An upsert takes the place of the first outbound with the tag; a new tag goes to the end |
| Xray.UnnamedRouted | bot/xray_config.py:71-91 | Everything but the rules of the inbound keeps its order |
| Xray.OtherRoutingKeptIff | bot/xray_config.py:71-91 | All traffic of the routed inbound goes to its outbound; the deciding rule of other traffic is the same if and only if it does not name that inbound |
| Xray.OtherRoutingKept | bot/xray_config.py:71-107 | If removed rules name one inbound only, routing of every other inbound is unchanged, whatever other conditions hold |
| Xray.SharedRuleIsLost | bot/xray_config.py:82-88 | A rule that names two inbounds is taken away from both |
| Credentials.UsernameRoundTrip | bot/proxy.py:70-88 | The user name decodes to the cleaned location with the life clamped to 1440, if and only if no part contains an underscore |
| Credentials.PasswordRoundTrip | bot/proxy.py:103-132 | The IPRoyal password decodes to the cleaned location in lower case with the life clamped to 10080, written in hours or minutes, if and only if no part contains an underscore |
| Credentials.UsernameIs | bot/proxy.py:70-88 | The user name is the base with area, state, city, life of at most 1440 minutes and session, in this order, each only if set, and decodes to these; blanks around a part do not count |
| Credentials.PasswordIs | bot/proxy.py:103-132 | The same for the password, with country, state and city in lower case, session, and lifetime of at most 10080 minutes, in hours if they are whole |
| Credentials.InnerSpacesDrop | bot/proxy.py:46-48 | Spaces inside a code are dropped |
| Credentials.NewSessionNewCredential | bot/proxy.py:70-132 | A different session always gives a different user name and password |
| Credentials.LifetimeRoundTrip | bot/proxy.py:103-111 | The lifetime form, hours or minutes, stands for the minutes brought into 1 to 10080 |
| Credentials.CodesAreClean | bot/proxy.py:38-48 | Codes accepted by the validator, which lets one trailing newline through, are free of underscores, and cleaning drops nothing but that newline |
| PanelHistory.RowAgreesIff | bot/service.py:737-966 | In every state of every run, overlapping operations, failures and reused tags included, a row and the panel agree if and only if the last own save of the config wrote the outbound built from that row and no other config with the same inbound tag was saved since |
| PanelHistory.NextFollows | bot/service.py:737-751 | Every step keeps one lock holder with an up-to-date copy, no doubled outbound tag, and the panel in line with the history of saves |
| PanelHistory.EditFollows | bot/service.py:737-751 | What one saved edit leaves in place for its own config, for one with the same inbound tag and for any other |
| CalmRuns.RestingConfigsAgree | bot/service.py:737-966 | If operations start on configs without one in flight and on inbound tags that no active row and no operation in flight has, but for a deletion that has saved its cleanup, and no restart fails behind a change of the outbound, then in every state of every run, however operations on different configs interleave at the lock, a config without an operation in flight whose row is active has exactly one outbound with its tag, the one built from the stored location, life and session, and all traffic of its inbound goes there |
| CalmRuns.CalmStepKeeps | bot/service.py:806-966 | Every such step keeps tags apart and the outbound of every row, or of the saved operation that will write it, in force |
| PanelMishaps.LateCleanupAgreesIff | bot/service.py:1004-1018 | A config provisioned while another is being deleted, and cleaned up after it, ends in agreement if and only if its inbound tag is another one |
| Provisioning.EditKeepsAgreementIff | bot/service.py:737-751 | An operation on another config keeps a row and the panel in agreement if and only if it works on another inbound tag |
| PanelMishaps.FailedRestartAgreesIff | bot/service.py:743-744 | After a failed restart of a saved change that was in force, whatever other operations are in flight, row and panel agree if and only if the row gives the outbound that the change built |
| PanelMishaps.FailedIpChangeAgreesIff | bot/service.py:894-917 | An IP change whose restart fails behind the save leaves an active, resting config, whose location has no underscores, that agrees with its row if and only if the session is not a new one |
| PanelMishaps.RacedChangesAgreeIff | bot/service.py:894-966 | For any two changes of one config at the same time and either order of the row writes, row and panel agree if and only if the change saved last would have built the same outbound from the final row |
| PanelMishaps.LastSaveDecides | bot/service.py:737-751 | Of two saved changes of one config only the last decides whether a row agrees, whatever that row is |
| PanelMishaps.SameColumnsInOrderAgree | bot/service.py:894-966 | Two changes of the same columns agree if their rows are written in the order of the saves |
| PanelMishaps.TwoIpChangesAgreeIff | bot/service.py:894-917 | Two IP changes whose rows are written in the other order agree if and only if they drew the same session |
| PanelMishaps.IpAndLifeAgreeIff | bot/service.py:894-966 | An IP change and a life change at the same time agree, in any order, if and only if the one saved first changed nothing |
| PanelMishaps.SameOutboundIff | bot/service.py:693-722 | Two rows of one product have the same outbound if and only if their cleaned locations, lives in effect and sessions are the same, up to letter case for the second product |
| PanelMishaps.NewSessionNewOutbound | bot/service.py:894-917 | An IP change changes the outbound, for either product, if and only if the session is a new one |
| Provisioning.EditCopy | bot/service.py:737-751 | The edits made to the fetched copy are those of `Provisioning.Edited` |
| Provisioning.EditIsWhole | bot/service.py:739-743 | The stretch under the lock changes the configuration as one edit |
| Operations.OutboundIs | bot/service.py:693-722 | The outbound of a row, with the settings of its product, carries the row's own area, state, city, session and life, which decoding gives back |
| Operations.ChangeGoesThrough | bot/service.py:894-966 | A change alone leaves the row with exactly the new session, place or clamped life, and in agreement with the panel |
| Operations.ProvisionGoesThrough | bot/service.py:806-852 | A new config ends active, with its life in range, in agreement with the panel |
| Operations.DeletionGoesThrough | bot/service.py:1004-1018 | A deletion deactivates the row and removes exactly its outbound and the rules that name its inbound |
| Operations.FailureIs | bot/service.py:817-824 | A failure lets go of the lock and leaves the panel as it is; a new inbound is given up, a change unwritten, a deletion finished |
| Provisioning.OutTagInjective | bot/service.py:815 | Different inbounds get different outbound tags |
| Throttle.HandledPerWindow | bot/middlewares.py:54-91 | Any closed interval of length window holds at most (c + 1) * limit handled events of a user, with c clears of the tables in it |
| Throttle.HandledIff | bot/middlewares.py:54-91 | In every run an event outside a cooldown is handled exactly if the user's events of the closed window that ends with it, itself included, but not those in cooldowns or before the last emptying, are at most the limit |
| Throttle.NothingHandledInCooldown | bot/middlewares.py:56-59 | From the start of a cooldown until it has elapsed every event of the user is dropped uncounted, unless the tables are cleared |
| Throttle.DroppedInCooldownOnly | bot/middlewares.py:56-73 | An event is dropped only in a cooldown that an earlier event of the same user started, which has not elapsed and was not emptied |
| Throttle.StartsPerExcess | bot/middlewares.py:66-73 | Every threshold-th event over the limit, and no other, starts a cooldown |
| Throttle.ThrottleMiddleware.HandleEvent | bot/middlewares.py:54-90 | The statements with their popping loop compute `Throttle.Call` |
| Throttle.ThrottleMiddleware.PruneTables | bot/middlewares.py:86-89 | More than 10000 known users empty all three tables |
| LoginLimiter.FailuresPerWindow | bot/webpanel/security.py:141-167 | In every run with at most q attempts of an address in flight and a lock of at least window + 1 second, any closed interval of length window holds at most 2 * max_fails + q - 3 recorded failures of it, times one more than its record was lost in it; one more if max_fails is 1, or q reaches max_fails and the lock is shorter than 2 * window + 1 second, allowing for the rounding down of the lock check |
| LoginLimiter.BoundIsReached | bot/webpanel/security.py:150-164 | For all such limits with a positive window and every q some run reaches exactly that bound with nothing lost |
| LoginLimiter.SharpBoundIff | bot/webpanel/app.py:146-160 | At most 2 * max_fails - 2 failures per window, for max_fails of at least 2, hold in all runs with at most q attempts in flight if and only if q is 1 |
| LoginLimiter.BoundGrowsWithOverlap | bot/webpanel/app.py:146-160 | For any limits, q attempts checked before the first of them is recorded are all recorded, in one window |
| LoginLimiter.LoginRateLimiter.LockedFor | bot/webpanel/security.py:141-148 | The remaining lock in whole seconds, rounded down |
| LoginLimiter.LoginRateLimiter.Fail | bot/webpanel/security.py:150-164 | The statements compute `LoginLimiter.RecordFailure` |
| LoginLimiter.LoginRateLimiter.Succeed | bot/webpanel/security.py:166-167 | A success forgets the address |
| LoginLimiter.LockLasts | bot/webpanel/security.py:141-164 | A failure locks exactly if it is the max_fails-th of its window, for exactly the lock time in whole seconds, rounded down; any other leaves the lock as it was |
| LoginLimiter.OnlyOwnRecord | bot/webpanel/security.py:141-167 | An attempt touches its own record only, unless more than 20000 addresses empty the table; after a success the address is unlocked and counts from one |
| Sessions.Base64RoundTrip | bot/webpanel/security.py:56-62 | Decoding inverts encoding for every byte string (RFC 4648, section 5) |
| Sessions.PaddingIsRecomputed | bot/webpanel/security.py:56-62 | Exactly the padding is stripped and exactly as much is put back (RFC 4648, section 3.2) |
| Sessions.UrlSafe | bot/webpanel/security.py:56-62 | The digits are those of the URL-safe alphabet (RFC 4648, section 5) |
| Sessions.KnownEncodings | bot/webpanel/security.py:56-58 | Three test vectors (RFC 4648, section 10) |
| Sessions.AcceptedExactly | bot/webpanel/security.py:89-104 | A token is accepted if and only if it is a text, a dot and the signature of that text, and the text decodes to a payload whose expiry, a number or a numeral, has not passed; verification raises if and only if that expiry is no number |
| Sessions.CreatedVerifiesUntilExpiry | bot/webpanel/security.py:80-104 | A created token gives back its stamped payload up to and including its expiry second and nothing afterwards |
| Sessions.AcceptedUntil | bot/webpanel/security.py:89-104 | How long a signed payload is accepted: up to its number or numeral, as 1 or 0 for a flag, as 0 without expiry; anything else raises |

## Left out

- Floating point and `round`: amounts are integers in their smallest unit; an amount within half a unit of a tolerance may behave differently.
- Letter case and blanks beyond ASCII; numerals with signs, blanks or underscores, which Python's `int(s, 16)` accepts, count as malformed.
- JSON in the `meta` column is parsed already; a product's id and slug are one key; a wallet price is an argument of the step.
- Currency and timestamp columns, titles, audit rows and everything else the modelled decisions do not read.
- Manual delivery orders: their status may move backwards, so there is nothing strong to keep.
- The direct submission of a hash picks the user's latest waiting invoice; the model lets the step pick any payable invoice of the user.
- Several watcher ticks at once, and deliveries after a settlement that outlive their tick: allowed by the model although the watcher runs one at a time.
- Gateway replies of V2Ray renewals and provisioning: one bit that says whether the panel delivered.
- The lowest price a gateway takes: a request it refuses for its price is one that never gets a reply.
- Renewals of one config at the same time: volume and expiry are absolute writes after an await.
- Whether every renewal is charged: only a wallet payer is.
- The customer bot, which is a second process with a lock of its own, and edits of the panel by hand.
- V2Ray rows in the provisioning model: they share one inbound, so deleting one cleans up for all.
- A panel call that fails after the panel has done its work: a failed call leaves the panel as it was.
- CalmRuns.RestingConfigsAgree: asks that operations on one config do not overlap, that a restart does not fail behind a change and that tags in use are not given away; `PanelHistory.RowAgreesIff` has none of these conditions.
- Inbounds, clients, ports and links of the panel: only tags and ids are modelled.
- `inboundTag` as a single string, which the code would search as a substring: it is a list here.
- Xray rules of a type other than `field` are kept by the edits and still matched by the model's router.
- LoginLimiter.FailuresPerWindow: a lock shorter than a window and a second, after which a window can outlive its lock.
- Sessions.Verify: an expiry given as a fraction, and numerals with digits beyond ASCII.
- LoginLimiter.LoginRateLimiter.Fail: an attempt record is a value in the table, not an object that is updated in place.
- Throttle notices to the user and their five-second limit; administrators, who bypass the throttle.
- HMAC, PBKDF2 and JSON: parameters of the session model, with the one assumption that loading inverts dumping; non-ASCII tokens.
- Random draws, sessions, tokens, clocks and network replies: arguments of the steps.
- Telegram screens, message texts, HTTP servers and clients, QR images, SQL text, migrations, link building, discounts and price lookups.
