# Verified model of the flash-sale services

This project models the order, payment and user services of the flash-sale system and the generated
data models under them, and proves what they keep: for every schedule of concurrent calls, however stale
the caches, and for every sequence of operations on a cached table.

Check it with `dafny verify dfyconfig.toml`.

## What is modelled

| file | content |
|---|---|
| `cache_aside.dfy`, `cached_model.dfy` | a table behind an id cache and index caches, as functions, and the generated model as a class proved against them |
| `cache_coherence.dfy` | which cached answers can be wrong, and exactly when |
| `optimistic_lock.dfy`, `lock_safety.dfy`, `lock_theorems.dfy`, `lock_messages.dfy` | concurrent read-decide-write calls as a state machine, its invariant, whole-run theorems, and which messages are sent |
| `sequential_call.dfy` | one call run alone, and the proof that the machine then does the same |
| `trade_state.dfy`, `order_service.dfy`, `order_events.dfy`, `close_order.dfy`, `close_reach.dfy`, `order_list.dfy` | orders: transition rule, services, folds of events, the close job among racing callers and how it can always finish, the user's list |
| `payment_state.dfy`, `payment_service.dfy`, `payment_flow.dfy`, `payment_chain.dfy`, `payment_reach.dfy`, `order_fate.dfy`, `fate_reach.dfy` | payments: status rule, services, repeated callbacks, the amounts from order to callback with everything concurrent, what the published messages do to orders, and the runs that show it |
| `user_service.dfy`, `user_registration.dfy`, `cache_keys.dfy` | registering, logging in, WeChat binding, and the strings used as cache keys |
| `paging.dfy` | the list finders, and walking from page to page while the table changes |
| `int64.dfy`, `binary64.dfy`, `stay_pricing.dfy`, `coin.dfy` | wrapping integers, correctly rounded floats, stay length and price, fen and yuan |

The machine in `optimistic_lock.dfy` cuts every call at each cache access, statement and message. Any other
call may run in between, a call may fail anywhere, a message or a cache deletion may be lost, and any cache
entry may vanish at any time. The rule that decides what a call writes is a parameter, so the safety proofs are
made once and used for orders and payments.

## Assumed of the environment

- A cached query takes the entry, or reads the table and then sets the entry, or a placeholder when nothing
  was found. A write runs its statement and, if that succeeds, deletes the keys it was given; a deletion that
  does not go through is retried later and does not fail the call (`LoseEviction` in the machine; run alone, a
  service deletes at once).
- One SQL statement is atomic; unique columns are enforced over all rows, soft-deleted ones included; ids
  are positive and increase, and a rejected insert consumes one.
- The task queue keeps a task until its handler returns nil, and may run it more than once.
- Generated serials, prices, the parsed WeChat notification, the WeChat session and the answer of the travel
  service are arguments. The hash is a function argument; one lemma uses that its output has 32 characters.
- Float operations are correctly rounded to binary64. The day count holds whichever way each tie goes; the coin
  conversions hold for every fixed rule for ties, since what reads back shortest depends on the rule. Instants
  are kept as int64 seconds from the year 1, and `Sub` saturates.
- The connection's time zone is eight hours ahead of UTC, as Asia/Shanghai has been since 1991; a date column
  keeps the day in that zone.

## What turned out false, or narrower than it looks

- `UpdateTradeState` publishes the payment's serial in the message's order field. The consumer looks for an
  order with that serial, so no order moves: an order can be paid in full and still be cancelled by the close
  job (`PaidOrderIsStillCancelled`, and as a run of the whole system `EveryOrderCanBePaidAndCancelled`; the exact
  condition is `SuccessMovesOrderIff`). With serials under the
  prefixes they are generated with, in every run every order waits for payment or is cancelled, and nobody is
  told that a payment succeeded (`EveryOrderWaitsOrIsCancelled`, `NobodyIsNotified`).
- `verifyOrderTradeState` accepts every integer outside the named states, also from a final state
  (`FinalStateIsLeftIff`; request 99 moves a cancelled order, `UnnamedRequestMovesCancelled`). The column is a
  tinyint, so an integer outside -128..127 passes the rule and then fails at the write. Wait-pay is still never
  re-entered; that final states are final needs requests limited to -1..4 (`NamedRequestsGiveNamedTrail`).
- A cached lookup can hide a stored row: a placeholder left under an id before its insert, or under a key
  before an update moves a row to it, is not deleted by that write. `ApplyKeepsExactIff` and `RunIsExactIff`
  give the exact condition, `EarlyProbeHidesRow` and `ChangedKeyHidesRow` two inputs.
- A refused versioned update leaves the caller's copy one version ahead; using that copy again overwrites one
  concurrent write (`ReusedCopyCommitsIff`). The services never do: they return on error.
- The day count is the capped integer quotient except when only the end of the stay lies beyond what the time
  library can hold; the count is then not positive (`LiveDaysIsCappedIff`, `LastEndWraps`). Such an order is not
  stored: its end lies beyond the year 9999, which the date column and its driver reject.
- The days are counted between the requested instants, but only their dates are stored. The stored dates give
  the same count if and only if the end's time of day is not before the start's, or the stay is at the cap;
  otherwise one day more (`DatesGiveLiveDaysIff`, `EveningStayLosesItsDay`).
- Splitting a stay never raises the total below the cap of 106751 days (`SplitPrice`); beyond the cap two
  parts can count more days than the whole (`SplitLosesAtMostOneDay`, `CappedPartsExceedTheWhole`).
- A page number whose offset does not fit 64 bits can bring back rows of the table: a numbered page is right if
  and only if its offset fits, or wraps to a place beyond the end (`NumberedPageIsRightIff`; one such page that
  is the first one again, `HugePageRepeatsTheFirst`).
- Cache keys of the type/open-key index are unambiguous if and only if no auth type is another one followed
  by a colon (`RenderIsInjectiveIff`); the two types in use are safe (`DefinedTypesAreSafe`).
- An account made without a password accepts no password (`NoPasswordNeverLogsIn`), and every account made by a
  WeChat authorisation is one (`WechatAccountHasNoLogin`). A nickname given to
  `Register` is dropped: the code only fills in a random one when none is given (`GivenNicknameIsDropped`).
- The close job reads a missing order as one that waits, so a task whose order is not stored is never done
  (`MissingOrderFails`); every other queued task can still complete (`EveryQueuedTaskCanComplete`).
- A negative page size is a limit of nearly 2^64: the page holds all rows below the last id (`PageSizeIsLimit`).
- The WeChat callback leaves the pay time unset, so a paid payment carries the instant zero.
- A call that breaks off after its statement, when its connection or context ends, reports an error although
  the row was written; the machine has this outcome as `FailedAfterCommit`.

## Model

| member | source | states |
|---|---|---|
| CachedModels.CachedModel.FindOne | app/order/model/homestayOrderModel_gen.go:114-129 | a lookup by id takes the entry or the placeholder, else reads the live row and fills the cache, as `CacheAside.FindOne` says of the whole store |
| CachedModels.CachedModel.FindOneByKey | app/order/model/homestayOrderModel_gen.go:131-149 | a lookup by index goes key entry, then id entry, each falling back to the table, and fills both entries or one placeholder |
| CachedModels.CachedModel.Insert | app/order/model/homestayOrderModel_gen.go:100-112 | the row gets the next id and is live; what is deleted from the cache are the entries of the caller's own id and keys; a taken unique key rejects the insert |
| CachedModels.CachedModel.Update | app/order/model/homestayOrderModel_gen.go:151-165 | the row is replaced whatever its version, and the entries deleted are those of the row read through the cache |
| CachedModels.CachedModel.UpdateWithVersion | app/order/model/homestayOrderModel_gen.go:167-200 | the row is replaced only if the stored version is the caller's, the stored one gets the next version, and the caller's copy carries that version whatever the outcome |
| CachedModels.CachedModel.DeleteSoft | app/order/model/homestayOrderModel_gen.go:202-209 | the versioned update of the copy marked as deleted |
| CachedModels.CachedModel.Delete | app/order/model/homestayOrderModel_gen.go:404-420 | the row is removed with the entries of the row read through the cache |
| CacheAside.KeyHolderIsUnique | app/order/model/homestayOrderModel_gen.go:131-149 | a unique index leaves `limit 1` no choice |
| CacheCoherence.ApplyKeepsCoherent | app/order/model/homestayOrderModel_gen.go:100-209 | every operation keeps cached rows equal to live rows and cached keys pointing at live holders, although it derives the keys to delete from the same cache |
| CacheCoherence.RunKeepsCoherent | app/order/model/homestayOrderModel_gen.go:100-209 | the same over every sequence of operations and entry losses |
| CacheCoherence.SoftDeleteIsFinal | app/order/model/homestayOrderModel_gen.go:202-209 | once a soft delete commits, no later sequence of calls returns or changes the row |
| CacheCoherence.LookupIsRemembered | app/order/model/homestayOrderModel_gen.go:114-149 | after a lookup by id or by key, the next one gives the same answer whatever the table then holds |
| CacheCoherence.WriteForgetsItsRowOnly | app/order/model/homestayOrderModel_gen.go:181-197 | a successful versioned update deletes exactly the entries of the row it replaced |
| CacheCoherence.FindOneIsExactIff | app/order/model/homestayOrderModel_gen.go:114-129 | a cached lookup by id equals the table's answer exactly when no placeholder hides a live row |
| CacheCoherence.FindByKeyIsExactIff | app/order/model/homestayOrderModel_gen.go:131-149 | a cached lookup by key equals the table's answer exactly when the key's own entry is not a stale placeholder, whatever ids were probed |
| CacheCoherence.ApplyKeepsExactIff | app/order/model/homestayOrderModel_gen.go:100-200 | one call keeps every lookup exact if and only if its guard on placeholders holds |
| CacheCoherence.RunIsExactIff | app/order/model/homestayOrderModel_gen.go:100-200 | a run keeps every lookup exact throughout if and only if every call meets its guard |
| CacheCoherence.QuietRunIsExact | app/order/model/homestayOrderModel_gen.go:100-200 | probing no id before its insert and changing no key is enough |
| CacheCoherence.ExactRunRefinesTable | app/order/model/homestayOrderModel_gen.go:100-200 | while the guards hold, all replies and the table are those of the bare table without a cache |
| CacheCoherence.QuietRunRefinesTable | app/order/model/homestayOrderModel_gen.go:100-200 | from an empty store, such runs answer exactly as an uncached table |
| CacheCoherence.EarlyProbeHidesRow | app/order/model/homestayOrderModel_gen.go:100-112 | an id looked up before its insert stays not found although the row is stored |
| CacheCoherence.ChangedKeyHidesRow | app/order/model/homestayOrderModel_gen.go:151-165 | a key looked up before an update moves a row to it stays not found |
| CacheCoherence.ReusedCopyCommitsIff | app/order/model/homestayOrderModel_gen.go:167-200 | after a refused versioned update, retrying with the same copy commits exactly when one other write came between, and overwrites it |
| CacheCoherence.ApplyKeepsKeyExact | app/order/model/homestayOrderModel_gen.go:100-209 | lookups by key stay exact under every operation that changes no key, early id probes included |
| LockSafety.LookupStepKeepsInv | app/order/model/homestayOrderModel_gen.go:114-149 | each access of a racing lookup puts only rows that were really stored into the cache and the caller's hands |
| LockSafety.CommitKeepsInv | app/order/model/homestayOrderModel_gen.go:181-197 | a matching versioned write stores exactly what the call's request makes of the row stored at that moment |
| LockSafety.RunKeepsInv | app/order/cmd/rpc/internal/logic/updateHomestayOrderTradeStateLogic.go:34-83 | the machine's invariant holds in every run |
| LockTheorems.EveryStepFollowsRule | app/order/model/homestayOrderModel_gen.go:167-200 | a stored row changes only by one call's write, named by a key of the row, into what the rule gives for the stored row |
| LockTheorems.EveryCommitFollowsRule | app/order/model/homestayOrderModel_gen.go:167-200 | the same at every moment of every run |
| LockTheorems.TrailGrows | app/order/model/homestayOrderModel_gen.go:167-200 | the record of each row's versions only grows |
| LockTheorems.VersionDeterminesRow | app/order/model/homestayOrderModel_gen.go:167-200 | versions never go back, and id and version determine the row content |
| LockTheorems.CachedRowWasStored | app/order/model/homestayOrderModel_gen.go:114-149 | a cached row, however old, is one the table held at some moment |
| LockTheorems.SuccessesAreCommits | app/order/model/homestayOrderModel_gen.go:167-200 | the requests seen to change a row are those of the calls that committed to it, in the same order |
| LockTheorems.StoredRowIsReplay | app/order/model/homestayOrderModel_gen.go:167-200 | the stored row is the first one with the requests of its committed calls applied one at a time in commit order, and its version is their number: no update is lost |
| LockTheorems.CommitsMatchCalls | app/order/model/homestayOrderModel_gen.go:167-200 | commits and calls that committed correspond one to one |
| LockTheorems.NoticeMatchesCommit | app/payment/cmd/rpc/internal/logic/updateTradeStateLogic.go:69-76 | no message without a commit: each one was sent by one committed call about the row it committed |
| LockTheorems.NoticesAreDistinct | app/payment/cmd/rpc/internal/logic/updateTradeStateLogic.go:69-76 | no two messages are about the same commit |
| LockMessages.CommittedIsSentIff | app/payment/cmd/rpc/internal/logic/updateTradeStateLogic.go:69-76 | in every run in which its message is not lost, a call that committed has sent a message about its row if and only if the rule has the change announced |
| SequentialCall.ExactCallAppliesRule | app/order/cmd/rpc/internal/logic/updateHomestayOrderTradeStateLogic.go:34-83 | alone, a call on exact key lookups changes the named row as the rule says and nothing else |
| SequentialCall.CallWithoutHolder | app/order/cmd/rpc/internal/logic/updateHomestayOrderTradeStateLogic.go:36-43 | a call naming a serial no order has changes nothing and reports the missing order |
| SequentialCall.SoloCallIsUpdateCall | app/order/cmd/rpc/internal/logic/updateHomestayOrderTradeStateLogic.go:34-83 | the concurrent machine, left to one call, has the effect and outcome of the sequential call, and sends its message exactly when it committed an announced change |
| TradeState.EveryChangeIsAllowed | app/order/cmd/rpc/internal/logic/updateHomestayOrderTradeStateLogic.go:86-134 | in every interleaving, each committed change is one the rule allows from the state stored at that moment |
| TradeState.WaitPayIsNeverReentered | app/order/cmd/rpc/internal/logic/updateHomestayOrderTradeStateLogic.go:86-109 | once an order has left wait-pay it never returns, for all requested integers |
| TradeState.CancelledAndPaidExclude | app/order/cmd/rpc/internal/logic/updateHomestayOrderTradeStateLogic.go:86-109 | no order is cancelled at one moment of a run and waiting for use at another |
| TradeState.AtMostOneNotification | app/order/cmd/rpc/internal/logic/updateHomestayOrderTradeStateLogic.go:60-71 | each order enqueues at most one pay-success notification, and only for entering wait-use |
| TradeState.NotifiedIffWaitUse | app/order/cmd/rpc/internal/logic/updateHomestayOrderTradeStateLogic.go:60-71 | unless its message is lost, a committed call has enqueued a notification if and only if it moved its order to wait-use |
| TradeState.WaitUseIsNotified | app/order/cmd/rpc/internal/logic/updateHomestayOrderTradeStateLogic.go:60-71 | with no message lost and all calls returned, an order that was ever in wait-use has its notification |
| TradeState.VerifyIff | app/order/cmd/rpc/internal/logic/updateHomestayOrderTradeStateLogic.go:86-134 | the accepted pairs of states, as numbers: out of 0 to -1 or 1, out of 1 to 2, 3 or 4, and to anything unnamed |
| TradeState.FinalStateIsLeftIff | app/order/cmd/rpc/internal/logic/updateHomestayOrderTradeStateLogic.go:86-134 | a final state is left exactly by a request outside the named states |
| TradeState.NamedRequestsGiveNamedTrail | app/order/cmd/rpc/internal/logic/updateHomestayOrderTradeStateLogic.go:86-134 | with named requests only, an order's history has at most two changes and its second one is final |
| OrderServices.OrderService.CreateHomestayOrder | app/order/cmd/rpc/internal/logic/createHomestayOrderLogic.go:41-116 | a stay must end after it starts and the homestay exist; an accepted order is one new row under the given serial with the requested user, homestay, people and food, the days that contain the two instants, and the totals; otherwise the table stays, and the close task is handed over exactly when the insert succeeded |
| OrderServices.InsertedAsRequested | app/order/cmd/rpc/internal/logic/createHomestayOrderLogic.go:64-98 | the columns of an accepted order, each from the request and the homestay alone; a rejected insert leaves the table |
| OrderServices.OrderService.HomestayOrderDetail | app/order/cmd/rpc/internal/logic/homestayOrderDetailLogic.go:30-50 | a missing order is answered with the zero record |
| OrderServices.OrderService.UpdateHomestayOrderTradeState | app/order/cmd/rpc/internal/logic/updateHomestayOrderTradeStateLogic.go:34-83 | store, answer and notification of one call, including the unchanged, refused, missing and failed outcomes |
| OrderServices.ProcessTask | app/mqueue/cmd/job/internal/logic/closeOrder.go:30-55 | the close job cancels an order read as waiting, and fails when the cancellation does |
| OrderServices.ExecService | app/order/cmd/mq/internal/mqs/kq/paymentUpdateStatus.go:50-65 | a payment message asks for the mapped state of the order it names, and unmapped statuses ask for nothing |
| OrderEvents.UnnamedRequestMovesCancelled | app/order/cmd/rpc/internal/logic/updateHomestayOrderTradeStateLogic.go:86-134 | a cancelled order asked for state 99 through the service gets it |
| OrderEvents.RequestIsAnswered | app/order/cmd/rpc/internal/logic/updateHomestayOrderTradeStateLogic.go:36-83 | on exact lookups: zeros for the state the order has, an error for a refused one, otherwise the change and an answer with the order's own id, user, dates and total |
| OrderEvents.AnswerTellsTheTruth | app/order/cmd/rpc/internal/logic/updateHomestayOrderTradeStateLogic.go:36-83 | however stale the cache, a missing order is reported as missing, and an allowed change succeeds exactly when the table was changed, by that row's next version |
| OrderEvents.DetailIsStored | app/order/cmd/rpc/internal/logic/homestayOrderDetailLogic.go:30-50 | on exact lookups the detail carries the stored order's id, state and total |
| OrderEvents.FreshOrderClosedForm | app/order/cmd/mq/internal/mqs/kq/paymentUpdateStatus.go:50-79 | for any list of events, the first success or close decides; the order ends refunded exactly when a refund follows a deciding success |
| OrderEvents.HandlerAppliesEvent | app/mqueue/cmd/job/internal/logic/closeOrder.go:36-52 | one handler run has the effect of its event on the order it names and on nothing else; the close job succeeds and the order has left wait-pay, and a message is consumed exactly when the order ends in the state it asks for |
| OrderEvents.MissingOrderFails | app/mqueue/cmd/job/internal/logic/closeOrder.go:36-52 | without such an order the table stays, the close job fails, and a message that asks for a state is not consumed |
| OrderEvents.HandlersFollowFold | app/order/cmd/mq/internal/mqs/kq/paymentUpdateStatus.go:50-79 | any list of handler runs leaves the order in the state of the fold |
| OrderEvents.BuiltOrderPrice | app/order/cmd/rpc/internal/logic/createHomestayOrderLogic.go:86-95 | an order's total is its two parts, and one daily rate times the days |
| CloseOrder.CompletedMeansLeft | app/mqueue/cmd/job/internal/logic/closeOrder.go:30-55 | in every run, a close task that completed belongs to an order that has left wait-pay, even when its reads were stale or hit a placeholder |
| CloseOrder.WaitingOrderKeepsItsTask | app/order/cmd/rpc/internal/logic/createHomestayOrderLogic.go:103-111 | while an order whose task was enqueued still waits for payment, the task is still queued |
| CloseReach.EveryQueuedTaskCanComplete | app/mqueue/cmd/job/internal/logic/closeOrder.go:30-55 | from every reachable state, however stale the cache and whatever is under way, a queued task of a stored order can complete; it cancels the order exactly if that waited, and otherwise leaves it |
| OrderList.UserHomestayOrderList | app/order/cmd/rpc/internal/logic/userHomestayOrderListLogic.go:32-67 | every listed order is a live stored one of the user, below the last id, with its columns as stored and in the state asked for if that is a named one; there are as many as fit the page size |
| OrderList.ListShowsOnlyOwnOrders | app/order/cmd/rpc/internal/logic/userHomestayOrderListLogic.go:34-38 | nobody else's order, and no order in another state than the named one asked for, is ever listed |
| OrderList.NewOrderHeadsItsList | app/order/cmd/rpc/internal/logic/createHomestayOrderLogic.go:64-98 | an accepted order is the first in the list of the user who placed it, with its dates |
| OrderList.NewOrderIsInNoOtherList | app/order/cmd/rpc/internal/logic/userHomestayOrderListLogic.go:34-40 | an accepted order leaves every page of every other user as it was |
| OrderList.OrderStaysWithItsUser | app/order/cmd/rpc/internal/logic/userHomestayOrderListLogic.go:34-38 | in every run an order keeps its owner and stays live whatever happens to its state |
| OrderList.WalkShowsEveryOrder | app/order/cmd/rpc/internal/logic/userHomestayOrderListLogic.go:34-40 | walking the list during any run shows every order that was there at the first request exactly once; with a named state, every one that is in it at each request |
| PaymentState.EveryPaymentHistory | app/payment/cmd/rpc/internal/logic/updateTradeStateLogic.go:45-71 | in every run a payment's history is a prefix of wait, success, refund or of wait, fail, with at most two commits |
| PaymentState.PaymentTermsFixed | app/payment/cmd/rpc/internal/logic/updateTradeStateLogic.go:62-68 | a payment's amount and order serial never change |
| PaymentState.PublishedOncePerCommit | app/payment/cmd/rpc/internal/logic/updateTradeStateLogic.go:69-76 | a payment publishes each status at most once, whatever calls repeat |
| PaymentState.CommittedIsPublished | app/payment/cmd/rpc/internal/logic/updateTradeStateLogic.go:69-76 | unless its message is lost, every committed status update has published the row it stored |
| PaymentState.PayDecideIff | app/payment/cmd/rpc/internal/logic/updateTradeStateLogic.go:45-68 | a payment changes exactly from 0 to 1 or -1 and from 1 to 2, in six columns; a repeated success or failure is kept, the rest refused |
| PaymentServices.PaymentService.CreatePayment | app/payment/cmd/rpc/internal/logic/createPaymentLogic.go:31-49 | one new unpaid payment for the given user, mode, order and amount, of the homestay kind and with nothing else set; or an unchanged table |
| PaymentServices.PaymentService.GetPaymentBySn | app/payment/cmd/rpc/internal/logic/getPaymentBySnLogic.go:30-49 | a missing payment is answered with the zero record |
| PaymentServices.PaymentService.UpdateTradeState | app/payment/cmd/rpc/internal/logic/updateTradeStateLogic.go:33-79 | store, answer and published message of one call; the message carries the payment's own serial |
| PaymentServices.VerifyAndUpdateState | app/payment/cmd/api/internal/logic/thirdPayment/thirdPaymentWxPayCallbackLogic.go:74-116 | the callback rejects a missing payment or a different amount, acts only on success of an unpaid payment, and ignores the rest |
| PaymentServices.GetPayHomestayPrice | app/payment/cmd/api/internal/logic/thirdPayment/thirdPaymentwxPayLogic.go:138-155 | the amount to pay is the order's total, and a missing order is an error |
| PaymentServices.ThirdPaymentWxPay | app/payment/cmd/api/internal/logic/thirdPayment/thirdPaymentwxPayLogic.go:38-102 | prepay records one payment of the order's total, or nothing, and never looks at the order's state |
| PaymentFlow.CallbackSettlesIff | app/payment/cmd/api/internal/logic/thirdPayment/thirdPaymentWxPayCallbackLogic.go:74-116 | a callback succeeds if and only if the amount matches, and changes the payment if and only if it reports success of an unpaid one |
| PaymentFlow.CallbackWithoutPayment | app/payment/cmd/api/internal/logic/thirdPayment/thirdPaymentWxPayCallbackLogic.go:76-80 | a notification about no payment fails and does nothing |
| PaymentFlow.StatusUpdateIsAnswered | app/payment/cmd/rpc/internal/logic/updateTradeStateLogic.go:33-79 | on exact lookups: store, answer, error kind and message of a status update, from the stored status and the requested one |
| PaymentFlow.ManyCallbacksSettleOnce | app/payment/cmd/api/internal/logic/thirdPayment/thirdPaymentWxPayCallbackLogic.go:89-108 | over any list of notifications a payment is paid exactly when one reports success for the right amount, and then exactly one message is published |
| PaymentFlow.SuccessMovesOrderIff | app/order/cmd/mq/internal/mqs/kq/paymentUpdateStatus.go:50-65 | a success message moves a waiting order if and only if it names that order's serial |
| PaymentFlow.PaidOrderIsStillCancelled | app/payment/cmd/rpc/internal/logic/updateTradeStateLogic.go:73-86 | the published message names the payment's serial, so a fully paid order is refused by the consumer and cancelled by the close job |
| PaymentChain.OrderTermsFixed | app/order/cmd/rpc/internal/logic/updateHomestayOrderTradeStateLogic.go:54-58 | every version of an order carries the terms of the first |
| PaymentChain.EveryOrderIsAsRequested | app/order/cmd/rpc/internal/logic/createHomestayOrderLogic.go:64-98 | in every run, every stored order is, but for its state, what some customer's request asked for, under the serial it got |
| PaymentChain.SysNextKeepsInv | app/payment/cmd/api/internal/logic/thirdPayment/thirdPaymentWxPayCallbackLogic.go:74-108 | every step of orders, prepays, callbacks and other updates keeps payments priced as their orders and success requests backed by a matching notification |
| PaymentReach.EveryOrderCanBePaid | app/payment/cmd/api/internal/logic/thirdPayment/thirdPaymentwxPayLogic.go:91-97 | for every order, of any price, there is a run in which it is placed as requested, priced, notified and paid in full, with one message published |
| PaymentChain.SuccessWasPaidInFull | app/payment/cmd/api/internal/logic/thirdPayment/thirdPaymentWxPayCallbackLogic.go:82-108 | in every run, a payment that was ever successful was notified with exactly its total, which is stored with the order it names, and is what the request that placed that order costs: room total plus food total over its days |
| OrderFate.MessageNamesPayment | app/payment/cmd/rpc/internal/logic/updateTradeStateLogic.go:73-86 | in every run, every published message names a payment serial |
| OrderFate.EveryOrderWaitsOrIsCancelled | app/payment/cmd/rpc/internal/logic/updateTradeStateLogic.go:73-86 | with the consumer, the close job and prefixed serials, in every run, whatever is paid and however messages are delivered, every order's history is wait-pay, or wait-pay then cancelled |
| OrderFate.NobodyIsNotified | app/order/cmd/rpc/internal/logic/updateHomestayOrderTradeStateLogic.go:60-71 | in every such run no pay-success notification is ever enqueued |
| FateReach.EveryOrderCanBePaidAndCancelled | app/payment/cmd/rpc/internal/logic/updateTradeStateLogic.go:73-86 | for every order there is a run of the whole system in which it is paid in full, the message is consumed and finds no order, and the close job cancels it |
| UserServices.UserCenter.Trans | app/usercenter/cmd/rpc/internal/logic/registerLogic.go:43-72 | both inserts, or a rollback that keeps the consumed ids and deleted cache entries |
| UserServices.UserCenter.Register | app/usercenter/cmd/rpc/internal/logic/registerLogic.go:32-88 | a cached hit on the mobile refuses, otherwise the transaction decides |
| UserServices.UserCenter.LoginByMobile | app/usercenter/cmd/rpc/internal/logic/loginLogic.go:63-78 | lookup, missing user, wrong password, user id |
| UserServices.UserCenter.Login | app/usercenter/cmd/rpc/internal/logic/loginLogic.go:33-61 | only the system auth type can log in |
| UserServices.UserCenter.GetUserAuthByAuthKey | app/usercenter/cmd/rpc/internal/logic/getUserAuthByAuthKeyLogic.go:31-44 | a missing auth row is answered with the zero record |
| UserServices.UserCenter.WxMiniAuth | app/usercenter/cmd/api/internal/logic/user/wxMiniAuthLogic.go:56-100 | a bound open id logs in, an unbound one registers, and a mobile under seven characters panics |
| UserRegistration.RegisterIsAllOrNothing | app/usercenter/cmd/rpc/internal/logic/registerLogic.go:34-72 | a registration succeeds exactly when neither mobile nor open key is taken; it then adds exactly one user and one auth row that points to it, otherwise nothing |
| UserRegistration.RegisterStores | app/usercenter/cmd/rpc/internal/logic/registerLogic.go:34-72 | the answer, and column by column the two rows stored, from the request alone |
| UserRegistration.GivenNicknameIsDropped | app/usercenter/cmd/rpc/internal/logic/registerLogic.go:44-48 | the stored nickname is the random one, or empty when one was given |
| UserRegistration.LoginIffHashMatches | app/usercenter/cmd/rpc/internal/logic/loginLogic.go:63-78 | login answers from the table, cache notwithstanding, and accepts exactly the passwords with the stored hash |
| UserRegistration.OnlySystemLogsIn | app/usercenter/cmd/rpc/internal/logic/loginLogic.go:36-44 | any other auth type is refused, and only that |
| UserRegistration.RegisteredMobileCanLogIn | app/usercenter/cmd/rpc/internal/logic/registerLogic.go:34-54 | the not-found placeholder that registering itself caches does not hide the new user from the next login |
| UserRegistration.NoPasswordNeverLogsIn | app/usercenter/cmd/rpc/internal/logic/loginLogic.go:73-75 | an account without a password accepts none |
| UserRegistration.WxMiniAuthBindsOrLogsIn | app/usercenter/cmd/api/internal/logic/user/wxMiniAuthLogic.go:56-100 | exact condition and effect of binding and of logging in |
| UserRegistration.FirstWechatAuthStores | app/usercenter/cmd/api/internal/logic/user/wxMiniAuthLogic.go:62-86 | what a first authorisation answers, and the rows it stores literally: the mobile, no password, no nickname, and the open id bound to that user |
| UserRegistration.WechatAccountHasNoLogin | app/usercenter/cmd/api/internal/logic/user/wxMiniAuthLogic.go:71-76 | the account that a first authorisation makes accepts no password at login, whatever calls come later |
| UserRegistration.EveryUserHasOneAuth | app/usercenter/cmd/rpc/internal/logic/registerLogic.go:43-72 | after any calls, users and auth rows correspond one to one |
| UserRegistration.RepeatedWechatAuthIsStable | app/usercenter/cmd/api/internal/logic/user/wxMiniAuthLogic.go:57-100 | a later authorisation of the same open id, after any calls and with any mobile, gives the same user and adds no rows |
| CacheKeys.DecimalReadsBack | app/usercenter/model/userAuthModel_gen.go:85-87 | a rendered id reads back as itself and has no colon |
| CacheKeys.RenderIsInjectiveIff | app/usercenter/model/userAuthModel_gen.go:31-33 | the five families of keys are disjoint and injective if and only if no auth type is another one followed by a colon |
| CacheKeys.ColonFreeTypesAreSafe | app/usercenter/model/userAuthModel_gen.go:85-87 | auth types without a colon are always safe |
| CacheKeys.DefinedTypesAreSafe | app/usercenter/model/vars.go:12-13 | the two defined auth types are safe |
| Paging.PageHoldsTheLargest | app/order/model/homestayOrderModel_gen.go:347-368 | a page holds live matching rows below the last id, largest first, as they are now |
| Paging.PageSizeIsLimit | app/order/model/homestayOrderModel_gen.go:347-355 | a page holds as many rows as its size or all there are below the last id, whichever is less; a negative size is no limit |
| Paging.PageRowsAreListed | app/order/model/homestayOrderModel_gen.go:347-368 | every row of a page is a stored one, not deleted, accepted by the filter and below the last id |
| Paging.FindAllHoldsExactly | app/order/model/homestayOrderModel_gen.go:257-280 | the whole list holds exactly the live rows the filter accepts, each once, largest id first |
| Paging.PageLeavesOutTheSmallest | app/order/model/homestayOrderModel_gen.go:347-368 | a matching row a page leaves out is below all that it holds |
| Paging.WalkNeverRepeats | app/order/model/homestayOrderModel_gen.go:347-368 | whatever happens to the table between pages, ids only go down and no row is returned twice |
| Paging.WalkTerminates | app/order/model/homestayOrderModel_gen.go:351-355 | a walk has at most as many pages as there are ids when it starts |
| Paging.WalkReturnsWhatStays | app/order/model/homestayOrderModel_gen.go:347-368 | a finished walk returned every row that stayed live and matching throughout |
| Paging.KeysetPagesAreOffsetPages | app/order/model/homestayOrderModel_gen.go:257-368 | on an unchanging table the k-th page by last id is the k-th by number and holds the rows at places k times the size and on, together they are all the rows, and the total is their count |
| Paging.NumberedPageIsRightIff | app/order/model/homestayOrderModel_gen.go:285-297 | for every page number and positive size, the page holds the rows at its places of the whole list, as many as its size or as are left, if and only if its offset fits 64 bits or wraps to a place beyond the end |
| Paging.HugePageRepeatsTheFirst | app/order/model/homestayOrderModel_gen.go:292-297 | a page where it is not: the first one again |
| StayPricing.FloatDayCountIsLiveDays | app/order/cmd/rpc/internal/logic/createHomestayOrderLogic.go:86 | however the float steps round, the truncated day count is the integer quotient of the saturated difference |
| StayPricing.EveryStayEvaluates | app/order/cmd/rpc/internal/logic/createHomestayOrderLogic.go:86 | the float expression has a result for every pair of instants, and it is the integer count |
| StayPricing.LiveDaysIsCappedIff | app/order/cmd/rpc/internal/logic/createHomestayOrderLogic.go:83-86 | the count is the capped number of whole days if and only if the end of the stay alone does not wrap |
| StayPricing.LastEndWraps | app/order/cmd/rpc/internal/logic/createHomestayOrderLogic.go:83-86 | an end that wraps makes the count negative |
| StayPricing.OrderTotalIsRateTimesDays | app/order/cmd/rpc/internal/logic/createHomestayOrderLogic.go:88-95 | the wrapping products and sums amount to one daily rate times the days |
| StayPricing.SplitLosesAtMostOneDay | app/order/cmd/rpc/internal/logic/createHomestayOrderLogic.go:86 | splitting a stay never adds a day exactly while the parts stay under the cap, and below it loses at most one |
| StayPricing.CappedPartsExceedTheWhole | app/order/cmd/rpc/internal/logic/createHomestayOrderLogic.go:86 | two parts at the cap count twice the days of the whole |
| StayPricing.SplitPrice | app/order/cmd/rpc/internal/logic/createHomestayOrderLogic.go:86-95 | below the cap, splitting a stay never raises the total that orders are built with and lowers it by at most one day's rate |
| StayPricing.DatesGiveLiveDaysIff | deploy/sql/flashsale_order.sql:47-48 | the stored dates give the day count of the price if and only if the end's time of day is not before the start's, or the stay is at the cap; otherwise one day more |
| StayPricing.EveningStayLosesItsDay | deploy/sql/flashsale_order.sql:47-48 | a stay priced at no days and stored as two dates |
| Coin.ShortestIsOriginal | pkg/tool/coinconvert.go:8-19 | up to 10^15 fen, the shortest decimal of the yuan float is the fen amount in hundredths |
| Coin.RoundTrip | pkg/tool/coinconvert.go:8-19 | up to 10^15 fen, converting to yuan and back is the identity, whatever rule breaks ties |
| Coin.Yuan2FenTruncates | pkg/tool/coinconvert.go:14-19 | a yuan amount below 2^53 fen converts to the hundredths of its shortest decimal with the rest dropped towards zero |
| Coin.EveryFenConverts | pkg/tool/coinconvert.go:8-19 | every fen amount in that range has a result in both directions |
| Binary64.CorrectRoundingExists | pkg/tool/coinconvert.go:9-16 | a rounding that always gives a nearest binary64 number exists, so the statements about roundings are not empty |
| Binary64.FirstMissingInteger | pkg/tool/coinconvert.go:9-16 | 2^53 is a binary64 number and the next integer is not |

## Left out

- Columns that decide nothing: create, update and delete times, the descriptive order columns, the trade code and remark, and the user's sex, avatar and info.
- Expiry times of cache entries: an entry may be lost at any moment instead. Retry exhaustion of the task queue.
- The bounds of columns: versions and ids are unbounded integers, and the model stores an order whose state, number of people or dates its columns would reject, where the services report a failed insert or update.
- Daylight saving and earlier offsets of the time zone, which moved the start of some days before 1992.
- Collation: the database compares serials, mobiles and open keys by its collation, the model by equality.
- HTTP handlers, configuration, generated stubs, JSON, copying between message types and SQL text.
- WeChat signatures, prepay calls, decryption, token signing and the inside of the hash.
- Random generation: serials and nicknames are arguments; two equal serials are rejected by the unique index.
- Hand-over failures of queue and broker in the sequential services, where they are only logged; the machine has them as lost messages, and the close-task system as tasks never enqueued.
- Two registrations racing for one mobile: the unique index decides; only one-at-a-time registration is proved.
- Soft deletes, plain updates and hard deletes in the concurrent machine: no modelled service calls them; they are covered one at a time.
- `FindPageListByIdASC` and orders other than by id: the same argument with the order reversed, or caller-written SQL.
- `FindSum`, the travel service and its models, the settle job, health checks, and the lookup of paid or refunded payments by order, whose result depends on coercion between strings and numbers in SQL.
