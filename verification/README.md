# Commerce coordinator: a verified model

Dafny models of the parts of the commerce coordinator whose correctness is hard to see from any one
function: refunds recorded by concurrent pipeline runs and webhook tasks, fulfilment of line items
under expiring locks, the shared order-number counter, the cart-predicate language, refund arithmetic,
and a few algorithms that several callers rely on (cache keys, state provisioning, keyset pagination,
sort-then-cut). `dafny verify dfyconfig.toml` checks everything.

## How it is built

- **Protocols are state machines.** `RefundProtocol`, `FulfilmentProtocol` and `OrderNumbers` have a
  `State`, an `Event`, a function `Step` and a function `Run` over lists of events. Each remote read
  and each remote write is one step; the list of events is the schedule. A step can lose its request
  or its response, with an error the code handles or one it does not, tasks are delivered any number
  of times, and other clients write in between. The remote service applies `update_by_id` completely
  when the version is current and not at all otherwise. Lemmas about `Run` hold for every schedule.
- **The steps are implemented by classes with mutable fields** (`RefundService`, `FulfilmentService`,
  `OrderNumberService`), with the loops and branches of the code. The `ensures` of each method says
  that the new state is `Step` of the old one, so the lemmas about runs are about these methods.
- **Safety and progress.** What holds in every run comes with what a run achieves when nothing disturbs
  it (`RefundProgress`, `WebhookProgress`, `FulfilmentProgress`), from every start state of the kind.
- **Computations are functions** with lemmas about what they mean; where the code computes by a loop,
  a method with the loop is proved equal to the function.

| files | subject |
|---|---|
| `RefundProtocol`, `RefundInvariants`, `RefundTheorems`, `RefundRecords`, `RefundCalls`, `RefundBudget`, `RefundStatus`, `RefundProgress`, `RefundService`, `RefundWebhooks`, `WebhookProgress`, `MobileReturns`, `ReturnActions`, `Payments` | concurrent refunds |
| `LineItemStates`, `FulfilmentProtocol`, `FulfilmentTheorems`, `FulfilmentProgress`, `FulfilmentService` | fulfilment under locks |
| `OrderNumbers`, `OrderNumberRendering` | the order-number counter |
| `PredicateSyntax`, `PredicateParser`, `PredicateGrammar`, `PredicateTransformer`, `PredicateEvaluator`, `PredicateMeaning`, `PredicateCheck`, `DottedPaths` | cart predicates, from tokens to values |
| `RefundArithmetic`, `RefundDecimals`, `MoneyConversion`, `FloatAmounts`, `SignificantDigits`, `Decimals` | amounts, exact and in the code's arithmetic |
| `CacheKeys`, `StateProvisioning`, `KeysetPagination`, `Lexicographic`, `OrderHistory`, `StableSort`, `Wrappers` | agreement cores and shared definitions |

## Findings

Where the code does less than its documentation or the obvious expectation, the model follows the code.
Each finding names the lemma with the input and the one with the exact condition; where the condition is
known in one direction only, the finding says so.

- A refund can be recorded twice when Stripe answers that the charge was refunded already and returns
  an existing refund (`stripe/clients.py:291-293`): the pipeline, unlike the webhook tasks, does not look
  for the refund id in the payment. Input: `ExistingAnswerDuplicates`. Condition:
  `UniqueExactlyWhenPipelinesCheck`.
- A PayPal run whose transaction write is refused raises while it builds its log message, because the
  refund dictionary has no `paypal_capture_id` (`pipeline.py:407`, `paypal/clients.py:60-66`); its return
  items stay unmarked. Input: `PayPalRunLosesRace`. Condition: `RefusedWriteEndsPayPalRuns`.
- When the first read of a Stripe or PayPal webhook task fails, its error handler uses `payment` before
  it is assigned (`tasks.py:179-185`, `tasks.py:281-288`), so it fails with an error Celery does not
  retry, and the event is lost. Input: `FailedReadLosesRefund`. Condition:
  `FailedReadIsRetriedExactlyWhen`.
- A payment refunded in parts may not count as fully refunded, because floating-point sums are compared
  (`utils.py:274-288`). Input: `FullRefundMissed`. For amounts that floats hold exactly, such as multiples
  of 25 cents, the check is right in both directions (`FullExactlyWhen`). For other amounts it never
  counts by mistake (`FullMeansFull`) and counts when the refunds are the charges amount by amount
  (`SameAmountsAreFull`); for which other splits it counts is not claimed.
- The same check does not look at the state of a transaction: a refund recorded as failed counts, and
  blocks every later one. Input: `FailedRefundBlocksRefunds`. Condition: `FullIsEffectiveExactlyWhen`.
- A mobile refund task goes by the first item of each return (`utils.py:433-440`): it can mark an item
  that has a transaction already and never mark one that has none. Input: `SecondItemMispicked`.
  Condition: `NamesExactlyWhen`.
- Runs for the same return can ask for its refund more than once. Input: `TwoRunsAskTwice`. In one
  direction only: where no line item is asked for twice they stay within the planned amount
  (`CallsStayWithinPlanned`).
- A PayPal refund may be recorded one cent short (`clients.py:873-877`). Input: `PayPalCentLost`.
  Condition: `PayPalLosesCentExactlyWhen`.
- A share that lies halfway between two minor units may be rounded down, because 28 digits fall below
  it. Input: `DecimalTieExample`. Condition: `DecimalRefundExactlyWhen`.
- `get_line_item_price_to_refund` promises never to exceed `amount_planned`; the branch that adds line
  totals as they are has no cap. Input: `ExceedsPlannedExample`. Condition:
  `DecimalNeverExceedsPlannedExactlyWhen`.
- The amount sent to Stripe is right for currencies with two fraction digits, or when it is nothing,
  only. Input: `StripeCentsOfYen`. Condition: `StripeCentsExactlyWhen`.
- An order number printed in a later year than its counter write can be issued again. Input:
  `LatePrefixCollides`. With the year of the write it cannot: `OrderNumbersAreUnique`.
- A state draft without a name or a description is updated on every run, because `ls_eq` never equates
  two missing texts. Input: `DraftWithoutTextIsUpdatedAgain`. Condition: `SecondRunIsQuietExactlyWhen`. The
  shipped drafts have both.
- The debug evaluator of cart predicates takes an unknown function for 0. Input:
  `DebugAcceptsUnknownFunction`. Condition: `EvaluatorsAgreeExactlyWhen`.
- The context of a predicate check is not cleared when evaluation raises. Input: `UnknownCallRaises`.
  Condition: the contract of `Check`.

## Model

| member | source | states |
|---|---|---|
| `RefundTheorems.OneTransactionPerRefund` | commerce_coordinator/apps/commercetools/pipeline.py:369-401 | In every state of every run of pipeline runs and webhook tasks (any interleaving, lost requests and responses, conflicts, redelivery, retries, other clients' writes) no payment holds two refund transactions with one refund id of the provider, provided no call is answered with a refund that existed when the run read its payment |
| `RefundTheorems.UniqueExactlyWhenPipelinesCheck` | commerce_coordinator/apps/commercetools/tasks.py:153-167 | With no hypothesis on the provider, in every run: a payment holds some refund twice if and only if a pipeline run recorded a refund that was already in the payment it had read, i.e. the check the webhook tasks make before writing, and the pipeline omits, would have failed |
| `RefundTheorems.ExistingAnswerDuplicates` | commerce_coordinator/apps/stripe/clients.py:291-293 | The hypothesis is needed: from every start state in which an order's Stripe payment holds a partial refund and something is left to refund, a run whose call is answered with that refund leaves a duplicate |
| `RefundTheorems.FallbackNeverReached` | commerce_coordinator/apps/commercetools/pipeline.py:383-390 | No reachable state has a pipeline run at the fallback payment lookup |
| `RefundTheorems.RecordingsAccountForRefunds` | commerce_coordinator/apps/commercetools/clients.py:929-947 | Transactions are only ever appended, and the refunds among the new ones are exactly the accepted recordings in order |
| `RefundTheorems.RefundedTotalIsRecorded` | commerce_coordinator/apps/commercetools/clients.py:922-945 | Conservation: in every run the amount a payment shows as refunded is its amount at the start plus the amounts of the accepted recordings, each once |
| `RefundRecords.RunRecordsRefund` | commerce_coordinator/apps/commercetools/clients.py:873-928 | In every run, what a pipeline run records is the refund the provider answered with, added to the payment the run has read: its id, time, currency in upper case, state, and its amount, exactly for every provider but PayPal and for PayPal up to the cent of `PayPalLosesCentExactlyWhen` |
| `RefundRecords.TaskRecordsRefund` | commerce_coordinator/apps/commercetools/tasks.py:335-344 | The same for webhook tasks: the reported amount for Stripe and Apple, up to a cent for PayPal, the planned amount for Google |
| `RefundRecords.CallsAreForSucceededPayment` | commerce_coordinator/apps/commercetools/catalog_info/edx_utils.py:83-91 | In every run every provider call is for the first payment, of the order as read, that succeeded and has an interface id |
| `RefundRecords.SuccessfulPaymentIs` | commerce_coordinator/apps/commercetools/catalog_info/edx_utils.py:83-91 | The payment chosen is the first that succeeded and has an interface id; none if and only if there is none |
| `RefundRecords.LastChargeIs` | commerce_coordinator/apps/commercetools/catalog_info/edx_utils.py:272-276 | The interaction id handed on is that of the last charge; none without a charge |
| `RefundRecords.ReturnItemsConcat` | commerce_coordinator/apps/rollout/utils.py:25-31 | The return items of an order are those of all its returns, one return after the other |
| `RefundRecords.ReturnIdsAre` | commerce_coordinator/apps/commercetools/pipeline.py:307-308 | The ids marked are the return ids of the message's lines, in order |
| `RefundRecords.TagKeepsIds` | commerce_coordinator/apps/commercetools/clients.py:851-861 | The ids can be read back from the text a transaction is tagged with |
| `RefundProgress.UndisturbedRunRefunds` | commerce_coordinator/apps/commercetools/pipeline.py:159-423 | Progress: from every start state with a refundable payment of Stripe or PayPal, a run that nothing disturbs makes one call for what is left to refund, records the created refund, marks every return item the message names as refunded with that transaction (or the one recorded before for its line item) and with the message's entitlement, leaves all other items as they are, tags the transaction, and completes |
| `RefundProgress.FailedCallMarksNotRefunded` | commerce_coordinator/apps/commercetools/pipeline.py:300-329 | When the provider answers with an error, nothing is recorded, the named items are marked as not refunded, and the run completes |
| `RefundProgress.RefundedRunOnlyMarks` | commerce_coordinator/apps/stripe/pipeline.py:163-175 | When the payment counts as fully refunded, no call is made and nothing recorded, the named items are marked as refunded, and the run completes |
| `RefundProgress.UnpaidOrderCompletes` | commerce_coordinator/apps/commercetools/pipeline.py:159-194 | A run for an order without an eligible payment completes and changes nothing |
| `RefundProgress.FaultEndsRun` | commerce_coordinator/apps/commercetools/pipeline.py:200-211 | A failed request outside the calls and the recording ends the run |
| `RefundProgress.MissingDataEndsRun` | commerce_coordinator/apps/commercetools/pipeline.py:159-215 | A run for an order of another system, an unknown order or a missing payment ends at once and changes nothing |
| `RefundProgress.UnsuccessfulRefundEndsRun` | commerce_coordinator/apps/commercetools/pipeline.py:369-423 | An answer that is neither a refund nor an error, or an error of Stripe that is not caught, ends the run; nothing is recorded or marked |
| `RefundProgress.ConflictEndsMarking` | commerce_coordinator/apps/commercetools/clients.py:846-861 | A marking or tagging write under an old version is refused, changes nothing and ends the run |
| `RefundCalls.CallsAskForUnrefundedShare` | commerce_coordinator/apps/commercetools/pipeline.py:196-203 | Every provider call in every run asks for the share of exactly the line items of the message that the order as read does not show as refunded, for a payment not seen fully refunded; where line totals add up it is at most the planned amount and within half a minor unit of the exact share |
| `RefundTheorems.RedeliveredStepChangesNothing` | commerce_coordinator/apps/commercetools/tasks.py:154-161 | Once a payment holds a refund, no step of any webhook task for that refund, at whatever point of its work and whatever it has read, changes the payment's transactions |
| `RefundTheorems.RedeliveryRecordsNothing` | commerce_coordinator/apps/commercetools/tasks.py:326-344 | Over whole runs: after a payment holds a refund, no webhook task records it there again |
| `RefundCalls.FullRefundIsFinal` | commerce_coordinator/apps/stripe/pipeline.py:163-175 | Once the code's check finds recorded refunds equal to recorded charges, the transactions of the payment are final until a new charge, for everything in flight or started later, and a run that reads the payment from then on makes no provider call for it |
| `RefundCalls.FailedRefundBlocksRefunds` | commerce_coordinator/apps/commercetools/utils.py:274-288 | From every start state with a payment of one charge: a webhook reports a failed refund of the whole charge; from then on, until a new charge, no run asks for a refund of the payment and no task records one |
| `RefundBudget.CallsStayWithinPlanned` | commerce_coordinator/apps/commercetools/pipeline.py:196-203 | In every run, for any number of pipeline runs: calls for a payment that were made for one order with totals that add up, none of whose line items was asked for twice, ask together for at most the planned amount plus half a minor unit for each call, and for at most the planned amount when it equals the order total |
| `RefundBudget.TwoRunsAskTwice` | commerce_coordinator/apps/stripe/pipeline.py:163-177 | The condition on line items is needed: from every start state with a refundable Stripe payment, two runs for one return that both read before either calls ask for twice the amount |
| `RefundBudget.DisjointRefundsStayWithin` | commerce_coordinator/apps/commercetools/catalog_info/edx_utils.py:206-251 | Disjoint partial refunds, covering the order or not, add up to at most the planned amount plus half a minor unit for each, in the decimal arithmetic |
| `RefundWebhooks.FinishedTaskIsSettled` | commerce_coordinator/apps/commercetools/tasks.py:153-177 | In every run a webhook task that ends normally either found no payment, or the payment it found holds its refund, then and ever after, or that payment was fully refunded at the very moment one of the task's own reads returned it, and all its transactions of that moment are still there |
| `RefundWebhooks.NothingFoundMeansNone` | commerce_coordinator/apps/commercetools/tasks.py:251-259 | A task ends without a payment only when no payment answers its lookup at that moment |
| `RefundWebhooks.FailedReadIsRetriedExactlyWhen` | commerce_coordinator/apps/commercetools/tasks.py:179-185 | In every state a task whose first read fails is started over if and only if it is a mobile task, the error is of a retried kind and retries are left; otherwise it fails |
| `RefundWebhooks.FailedTaskStaysFailed` | commerce_coordinator/apps/commercetools/tasks.py:281-288 | Over every continuation a failed task stays failed and its steps change nothing |
| `RefundWebhooks.FailedReadLosesRefund` | commerce_coordinator/apps/commercetools/tasks.py:179-185 | From every start state: one failed first read of a Stripe or PayPal task loses the event; whatever follows, the task stays failed and by itself records nothing |
| `WebhookProgress.UndisturbedTaskRecords` | commerce_coordinator/apps/commercetools/tasks.py:153-177 | Progress: a Stripe or PayPal task that nothing disturbs, in any state, adds the reported refund to the payment it is about, changes nothing else, and is done |
| `WebhookProgress.KnownRefundIsSkipped` | commerce_coordinator/apps/commercetools/tasks.py:153-161 | When the payment shows the refund or counts as fully refunded the task changes nothing; it is done, or, if mobile, goes on to the return items |
| `WebhookProgress.UndisturbedMobileTask` | commerce_coordinator/apps/commercetools/tasks.py:311-375 | Progress: a mobile task that nothing disturbs adds the refund, points the return items it picks to it without changing their states, leaves all other items as they are, tags the transaction, and is done |
| `WebhookProgress.NothingToMark` | commerce_coordinator/apps/commercetools/clients.py:1753-1759 | When no order paid with the payment has a refunded return item without a transaction, the task is done |
| `WebhookProgress.EmptyReturnFailsTask` | commerce_coordinator/apps/commercetools/utils.py:433-434 | When the lookup of the items raises, the task fails |
| `WebhookProgress.NoPaymentFound` | commerce_coordinator/apps/commercetools/tasks.py:251-259 | When the message is about no payment, a Stripe task fails and any other is done; nothing changes |
| `WebhookProgress.FaultIsRetriedExactlyWhen` | commerce_coordinator/apps/commercetools/tasks.py:130-133 | After its first read a task whose request fails is started over if and only if the error is of a retried kind and fewer than five retries were made; otherwise it fails |
| `WebhookProgress.ConflictIsRetriedExactlyWhen` | commerce_coordinator/apps/commercetools/tasks.py:335-373 | A refused payment write starts the task over while retries are left; a refused order or tag write makes it fail; neither changes anything |
| `RefundInvariants.Effect` | commerce_coordinator/apps/commercetools/clients.py:929-947 | Every step either leaves all payments alone, appends one refund computed from exactly the version it replaces (never to a fully refunded payment; by a webhook task only if the refund is not there), or writes a payment without a new refund |
| `RefundInvariants.StepKeepsInv` | commerce_coordinator/apps/commercetools/pipeline.py:159-213 | Inductive invariant of every step: snapshots are coherent with the store, a run's arguments are what the order and payment it read say, recorded refunds exist at the provider, and a webhook task about to write has seen neither the refund nor a full refund |
| `RefundStatus.CommittedStatus` | commerce_coordinator/apps/commercetools/clients.py:809-850 | A committed status update replaces exactly the order the run read; every return item the message names is marked and carries the transaction recorded for its line item if there was one, else the transaction of the provider's refund, else the newest refund; no other return item changes |
| `RefundStatus.CommittedMobileStatus` | commerce_coordinator/apps/commercetools/tasks.py:356-373 | A mobile task's committed order update replaces the order at the version it has found and no other; it points every return item it names to its refund's transaction, else to the newest refund, without touching their states or any other item |
| `MobileReturns.MobileTaskMarksExactlyWhen` | commerce_coordinator/apps/commercetools/clients.py:1743-1768 | In every run the order a mobile task's committed update replaces is the one it found (paid with its payment, with an unprocessed return item), and the items marked are those picked in it; they are the order's unprocessed items if and only if the items of every return agree and at most one return is unprocessed |
| `MobileReturns.NamesExactlyWhen` | commerce_coordinator/apps/commercetools/utils.py:433-440 | For all return infos with distinct item ids: the picked ids name exactly the unprocessed items if and only if the items of every return agree with each other and at most one return is unprocessed |
| `MobileReturns.SecondItemMispicked` | commerce_coordinator/apps/commercetools/utils.py:433-440 | An unprocessed item behind a processed one is not picked, and a processed item behind an unprocessed one is |
| `MobileReturns.LookupRaisesExactlyWhen` | commerce_coordinator/apps/commercetools/utils.py:433-434 | The lookup raises if and only if some return is empty and every newer one starts with an item that is not unprocessed |
| `RefundStatus.LostRaceStillPointsToRefund` | commerce_coordinator/apps/commercetools/clients.py:809-818 | If the webhook recorded the run's refund first, then whatever happens, when the run marks the return items it has seen that transaction and marks them with it |
| `RefundStatus.RefusedWriteEndsPayPalRuns` | commerce_coordinator/apps/commercetools/pipeline.py:402-413 | A refused transaction write ends a run exactly when the provider is PayPal (the log message raises) or the connection failed in a way that is not caught; any other run goes on to mark the return items |
| `RefundStatus.PayPalRunLosesRace` | commerce_coordinator/apps/commercetools/pipeline.py:402-413 | From every start state with a refundable PayPal payment there is a run in which the webhook records the refund first and the pipeline run crashes, with the order as it was |
| `RefundStatus.RefundedItemsMeaning` | commerce_coordinator/apps/commercetools/pipeline.py:169-180 | The recorded-transaction dictionary holds a return id exactly when a line item of the message with that return id has a recorded transaction, and then the one of the last such line item |
| `RefundStatus.RecordedTransactionIs` | commerce_coordinator/apps/commercetools/pipeline.py:169-180 | The transaction recorded for a line item is that of its first refunded return item, unless it is empty |
| `RefundStatus.FilteredExactly` | commerce_coordinator/apps/rollout/utils.py:52-73 | A refund is asked for exactly the line items of the message none of whose return items is refunded |
| `RefundStatus.CollectedLines` | commerce_coordinator/apps/commercetools/sub_messages/tasks.py:326-337 | The dictionary of a return message has one entry per line item, with the return id that came last |
| `ReturnActions.BuildReturnActions` | commerce_coordinator/apps/commercetools/clients.py:820-842 | The state actions followed by the custom type actions, applied one after another, do to every return item exactly what the update asks for, repeated return ids included |
| `ReturnActions.ApplyToInfoMarks` | commerce_coordinator/apps/commercetools/clients.py:846-850 | Applying such a list of actions to an order is marking the order |
| `Payments.LatestRefundFound` | commerce_coordinator/apps/commercetools/utils.py:312-322 | The latest-refund search returns a refund none is newer than, the first recorded among the newest, and nothing exactly when there is no refund |
| `Payments.RefundTransactionFound` | commerce_coordinator/apps/commercetools/utils.py:302-309 | The search by interaction id finds a refund with that id whenever there is one |
| `Payments.HasFullRefundTransaction` | commerce_coordinator/apps/commercetools/utils.py:274-288 | True exactly when the floating-point sums of recorded refunds and of recorded charges are equal |
| `FloatAmounts.FullMeansFull` | commerce_coordinator/apps/commercetools/utils.py:274-288 | What counts as fully refunded is: the floats are equal only if the cents are, for all amounts that can be told apart |
| `FloatAmounts.SameAmountsAreFull` | commerce_coordinator/apps/commercetools/utils.py:274-288 | A payment whose refunds are its charges, amount by amount, counts as fully refunded, whatever the amounts |
| `FloatAmounts.FullRefundMissed` | commerce_coordinator/apps/commercetools/utils.py:274-288 | A charge of 30 cents refunded by 10 and 20 cents does not count as fully refunded |
| `FloatAmounts.FullExactlyWhen` | commerce_coordinator/apps/commercetools/utils.py:274-288 | When every amount is a multiple of 5^d for d fraction digits (any amount without fraction digits, multiples of 25 cents with two) every division and addition is exact, and the check succeeds if and only if refunds and charges are equal in minor units, whatever parts they are made in |
| `FloatAmounts.CheckIgnoresState` | commerce_coordinator/apps/commercetools/utils.py:274-288 | Changing the states of transactions never changes the outcome of the check |
| `FloatAmounts.FullIsEffectiveExactlyWhen` | commerce_coordinator/apps/commercetools/utils.py:274-288 | Where the check succeeds, what did not fail of the refunds equals what did not fail of the charges if and only if the failed amounts are equal on both sides |
| `FloatAmounts.PayPalCentsExactlyWhen` | commerce_coordinator/apps/commercetools/clients.py:873-877 | The recorded amount is the refunded one if and only if the float product is not below it; otherwise it is one cent less (the step on which the next row rests) |
| `FloatAmounts.PayPalLosesCentExactlyWhen` | commerce_coordinator/apps/commercetools/clients.py:873-877 | In integers, for all positive amounts up to thirty million million dollars: with x the amount doubled until it is at least 100 * 2^52, a cent is lost if and only if x is below 2^59 and x modulo 100 is above 32 and below 50; otherwise the amount is recorded as it is |
| `FloatAmounts.PayPalCentLost` | commerce_coordinator/apps/commercetools/clients.py:873-877 | A PayPal refund of 19.99 is recorded as 19.98, and the payment it refunds in full does not count as fully refunded |
| `Payments.IsTransactionAlreadyRefunded` | commerce_coordinator/apps/commercetools/utils.py:291-299 | True exactly when some refund transaction has the refund id |
| `Payments.GetChargeInteraction` | commerce_coordinator/apps/commercetools/catalog_info/edx_utils.py:272-276 | The interaction id of the last charge |
| `Payments.UniqueAfterAppend` | commerce_coordinator/apps/commercetools/utils.py:291-299 | Appending keeps refund ids unique exactly when the refund check would have passed |
| `RefundService.GetReturnItems` | commerce_coordinator/apps/rollout/utils.py:25-31 | All return items of the order, in order |
| `RefundService.FilterLineItems` | commerce_coordinator/apps/commercetools/pipeline.py:169-180 | The loop computes the filtered line items and the recorded transactions the theorems are about |
| `RefundService.GetSuccessfulPayment` | commerce_coordinator/apps/commercetools/catalog_info/edx_utils.py:83-91 | The first payment that succeeded and has an interface id |
| `RefundService.CollectReturnLines` | commerce_coordinator/apps/commercetools/sub_messages/tasks.py:331-337 | The loop computes the collected lines and all return ids |
| `RefundService.GetUnprocessedIds` | commerce_coordinator/apps/commercetools/utils.py:420-440 | The ids of the newest return info whose first item is refunded without a transaction; raises on an empty return info |
| `RefundService.RefundService.FetchOrderDetails` | commerce_coordinator/apps/commercetools/pipeline.py:159-194 | The first half of the fetch step is the protocol step |
| `RefundService.RefundService.FetchPaymentDetails` | commerce_coordinator/apps/commercetools/pipeline.py:196-211 | The second half: payment, amount, charge id and the already-refunded decision |
| `RefundService.RefundService.RefundPaymentIntent` | commerce_coordinator/apps/stripe/pipeline.py:163-195 | The Stripe step with its early returns and answers is the protocol step |
| `RefundService.RefundService.RefundPayPalPayment` | commerce_coordinator/apps/paypal/pipeline.py:61-92 | The PayPal step with its early returns and caught exceptions is the protocol step |
| `RefundService.RefundService.RecordReturnPayment` | commerce_coordinator/apps/commercetools/pipeline.py:365-423 | The recording step with its skips and exception handling is the protocol step |
| `RefundService.RefundService.CreateReturnPaymentTransaction` | commerce_coordinator/apps/commercetools/clients.py:929-947 | The transaction, with the amount, currency and state made of the refund, is appended under the version given, or nothing happens |
| `RefundService.RefundService.UpdateReturnPaymentState` | commerce_coordinator/apps/commercetools/clients.py:817-850 | All actions are applied to the order under the version given, or none |
| `RefundService.RefundService.MarkReturnItems` | commerce_coordinator/apps/commercetools/pipeline.py:300-329 | The status step is the protocol step |
| `RefundService.RefundService.TagReturnItems` | commerce_coordinator/apps/commercetools/clients.py:851-861 | The final payment write, under the version of the payment as read, is the protocol step |
| `RefundService.RefundService.ReadRefundedPayment` | commerce_coordinator/apps/commercetools/tasks.py:311-333 | The first read of the webhook tasks and their decision to skip is the protocol step |
| `RefundService.RefundService.RecordRefundEvent` | commerce_coordinator/apps/commercetools/tasks.py:335-344 | The write of the webhook tasks with Celery's retry is the protocol step |
| `RefundService.RefundService.FindUnprocessedReturn` | commerce_coordinator/apps/commercetools/clients.py:1743-1772 | The order query of the mobile task is the protocol step |
| `RefundService.RefundService.MarkMobileReturn` | commerce_coordinator/apps/commercetools/tasks.py:360-373 | The order update of the mobile task is the protocol step |
| `FulfilmentTheorems.Serialisable` | commerce_coordinator/apps/commercetools/tasks.py:95-110 | Locks expiring or not, in every run the orders are those of a sequential execution of the committed messages, and each write was computed from exactly the version it replaced |
| `FulfilmentProgress.MessagesAreConserved` | commerce_coordinator/apps/commercetools/tasks.py:52-127 | Conservation, in every run in which no worker dies: each time a completion was sent it is accounted for exactly once, by a copy in the queue, a task at work on it, a task that ended without an error, or one that ended with an error after five retries; a busy lock or a failed attempt loses nothing |
| `FulfilmentProgress.UndisturbedTaskCompletes` | commerce_coordinator/apps/commercetools/tasks.py:79-127 | Progress: a task that nothing disturbs frees the lock; a completion of an item that is or was being processed is in the order and the task ends without an error; any other leaves the order alone and is queued again, five times at most |
| `FulfilmentProgress.UnknownItemRaises` | commerce_coordinator/apps/commercetools/tasks.py:93-127 | A completion for an unknown item or order is never acknowledged: the task ends with an error and the message is queued again, five times at most |
| `FulfilmentProgress.FailureRaises` | commerce_coordinator/apps/commercetools/tasks.py:111-127 | A task whose request fails either way, or whose update is refused, ends with an error |
| `FulfilmentProgress.UndisturbedBatchMoves` | commerce_coordinator/apps/commercetools/clients.py:1037-1110 | A batch that nothing disturbs moves every item, when the transition is declared and every item is in its first state |
| `FulfilmentProgress.IdleBatchEnds` | commerce_coordinator/apps/commercetools/clients.py:1076-1094 | A batch with nothing to do ends at once and changes nothing |
| `FulfilmentProgress.FailedBatchIsRetriedExactlyWhen` | commerce_coordinator/apps/commercetools/clients.py:204-219 | A failed batch of a task is started over if and only if it was retried fewer than five times; a client that retries sends a refused update three times at most |
| `FulfilmentTheorems.SuccessIsPermanent` | commerce_coordinator/apps/commercetools/clients.py:1002-1008 | No run (failure reports, batch moves, duplicates, stale writes, retries) takes an item out of Success |
| `FulfilmentTheorems.OutcomeIsOrderIndependent` | commerce_coordinator/apps/commercetools/clients.py:1002-1022 | An item that starts uncompleted ends in Success if a committed completion reported success and in Failure if they all reported failure, whatever the order, duplication and interleaving, with batch moves from Initial and Pending |
| `FulfilmentTheorems.BatchKeepsOutcomeExactlyWhen` | commerce_coordinator/apps/commercetools/clients.py:1077-1092 | In every reachable state a committed batch move, whatever its target, leaves the outcome what the completions say if and only if it moves from Initial or from Pending |
| `FulfilmentTheorems.LateBatchForgesOutcome` | commerce_coordinator/apps/commercetools/clients.py:1077-1092 | From every start state with an order in Processing, one batch takes its items to Success without any report |
| `FulfilmentTheorems.SentBatchesAreEarly` | commerce_coordinator/apps/commercetools/sub_messages/tasks.py:131-137 | Batches to Processing, from whatever state the message names, and batches from Initial are all moves from Initial or Pending, because only declared transitions are accepted |
| `FulfilmentTheorems.RepeatedUpdateChangesNothing` | commerce_coordinator/apps/commercetools/clients.py:204-219 | In every run: once a batch update has reached the service, accepted or not, the client's repetition of it under the same version changes no order, whatever happens in between |
| `FulfilmentTheorems.CompletionsFromProcessing` | commerce_coordinator/apps/commercetools/clients.py:1002-1022 | For any list of completions of an item in Processing: every transition sent is declared and accepted, and the final state is Success if one reported success, else Failure |
| `FulfilmentTheorems.ItemsStayWhole` | commerce_coordinator/apps/commercetools/catalog_info/edx_utils.py:58-68 | In every reachable order each line item is wholly in one state with the quantity it was bought with, so its first state is its state |
| `FulfilmentTheorems.AcknowledgedCompletionsStick` | commerce_coordinator/apps/commercetools/tasks.py:111-127 | Once a task ends without raising, even after finding nothing to do on a stale snapshot, its outcome has been reached and still holds, as long as no batch reopens failed items |
| `FulfilmentTheorems.BatchUndoesFailureExactlyWhen` | commerce_coordinator/apps/commercetools/clients.py:1077-1092 | A committed batch undoes a failure that is in place if and only if it moves from Failure to Pending |
| `FulfilmentTheorems.MutualExclusion` | commerce_coordinator/apps/core/tasks.py:21-45 | Where the lock of an order does not expire, at most one worker is between acquire and release for it; and without worker deaths a set lock belongs to such a worker, so every exit path has released it |
| `FulfilmentTheorems.ExpiryAdmitsSecondWorker` | commerce_coordinator/apps/core/tasks.py:32-34 | Expiry while the holder works lets a second worker in: the exclusion does depend on it |
| `LineItemStates.MoveConserves` | commerce_coordinator/apps/commercetools/clients.py:1003-1008 | A transition of any part of an item conserves the total quantity |
| `LineItemStates.MoveWhole` | commerce_coordinator/apps/commercetools/clients.py:1003-1008 | A transition of the full quantity succeeds exactly from the current state along a declared transition and leaves the item whole |
| `LineItemStates.CompleteEffect` | commerce_coordinator/apps/commercetools/clients.py:991-1022 | A completion changes its item only, to the next state, or is rejected |
| `LineItemStates.CompletionIsDeclaredExactlyWhen` | commerce_coordinator/apps/commercetools/catalog_info/foundational_types.py:38-92 | The transition a completion sends is declared exactly when the item is neither Initial nor Pending |
| `LineItemStates.BatchIsAllOrNothing` | commerce_coordinator/apps/commercetools/clients.py:1077-1092 | A batch moves every item to its target, any target, or none |
| `LineItemStates.BuildBatchActions` | commerce_coordinator/apps/commercetools/clients.py:1078-1086 | One action for every item, in order |
| `LineItemStates.BuildCompletionActions` | commerce_coordinator/apps/commercetools/clients.py:992-1010 | The guarded action list, built step by step, is the plan the theorems are about |
| `FulfilmentService.FulfilmentService.AcquireTaskLock` | commerce_coordinator/apps/core/tasks.py:32-34 | Succeeds exactly when the key is not set, and sets it |
| `FulfilmentService.FulfilmentService.ReleaseTaskLock` | commerce_coordinator/apps/core/tasks.py:43-45 | Deletes the key, whoever set it |
| `FulfilmentService.FulfilmentService.UpdateById` | commerce_coordinator/apps/commercetools/clients.py:1011-1015 | All actions under the current version, or nothing |
| `FulfilmentService.FulfilmentService.BeginTask` | commerce_coordinator/apps/commercetools/tasks.py:79-93 | Taking the lock or requeueing the message is the protocol step |
| `FulfilmentService.FulfilmentService.UpdateLineItemOnFulfilment` | commerce_coordinator/apps/commercetools/tasks.py:100-121 | The guarded update with its exception handling is the protocol step |
| `FulfilmentService.FulfilmentService.EndTask` | commerce_coordinator/apps/commercetools/tasks.py:111-127 | Every exit path releases the lock; an error is retried five times at most |
| `FulfilmentService.FulfilmentService.UpdateLineItemsTransitionState` | commerce_coordinator/apps/commercetools/clients.py:1037-1110 | The batch loop, its single update and the client's own repetition of it under the same version is the protocol step |
| `OrderNumbers.OrderNumbersAreUnique` | commerce_coordinator/apps/commercetools/clients.py:1461-1480 | The numbers issued by any number of concurrent, retrying clients are pairwise distinct texts across years, given a monotone clock, four-digit years, and a printed year equal to the year of the counter write |
| `OrderNumbers.CommitsAreUnique` | commerce_coordinator/apps/commercetools/clients.py:1435-1452 | In every run no two issued numbers share counter value and year of the counter write |
| `OrderNumbers.ValuesAreConsecutive` | commerce_coordinator/apps/commercetools/clients.py:1435-1452 | In every run, between two moments of one counter year the value grows by exactly one for each accepted write: no number of a year is skipped |
| `OrderNumbers.LoneClientGetsNext` | commerce_coordinator/apps/commercetools/clients.py:1436-1443 | A client that nothing disturbs gets the next value, or one in a new year, under the current year |
| `OrderNumbers.GivesUpAfter` | commerce_coordinator/apps/commercetools/clients.py:204-219 | A client with retries gives up after losing three times, one without after losing once |
| `OrderNumbers.LostResponseIsRetried` | commerce_coordinator/apps/commercetools/clients.py:1445-1459 | A client that does not see the answer to its write hands out no number for it |
| `OrderNumbers.LatePrefixCollides` | commerce_coordinator/apps/commercetools/clients.py:1472-1474 | The printed-year hypothesis cannot be dropped: for any write in one year printed in any later year there is a run with a monotone clock in which another client gets the same text |
| `OrderNumberRendering.RenderInjective` | commerce_coordinator/apps/commercetools/clients.py:1472-1474 | The text determines year and counter, also past six digits, for years with equally many digits |
| `OrderNumberRendering.RenderReads` | commerce_coordinator/apps/commercetools/clients.py:1472-1474 | The text is the mark, the four-digit year and the counter, in six digits as long as they suffice |
| `OrderNumberRendering.RenderCollision` | commerce_coordinator/apps/commercetools/clients.py:1472-1474 | With years of different lengths it does not |
| `OrderNumbers.OrderNumberService.ChooseValue` | commerce_coordinator/apps/commercetools/clients.py:1436-1443 | Choosing the new value (1 after a change of year) is the protocol step |
| `OrderNumbers.OrderNumberService.CreateOrUpdate` | commerce_coordinator/apps/commercetools/clients.py:1445-1459 | The compare-and-swap write with the retry decision is the protocol step |
| `OrderNumbers.OrderNumberService.FormatNumber` | commerce_coordinator/apps/commercetools/clients.py:1471-1480 | The number handed out is the rendering of the committed counter |
| `PredicateGrammar.ParsesExactlyTheGrammar` | commerce_coordinator/apps/commercetools/predicate_parser.py:151-187 | A token list parses to a tree if and only if the grammar derives the list from that tree |
| `PredicateGrammar.Unambiguous` | commerce_coordinator/apps/commercetools/predicate_parser.py:151-187 | A token list has at most one tree |
| `PredicateGrammar.AndBindsTighter` | commerce_coordinator/apps/commercetools/predicate_parser.py:154-158 | `and` binds tighter than `or` on either side, for all operands |
| `PredicateGrammar.AssociatesLeft` | commerce_coordinator/apps/commercetools/predicate_parser.py:154-158 | Both operators associate to the left, for all operands |
| `PredicateSyntax.Productions` | commerce_coordinator/apps/commercetools/predicate_parser.py:154-165 | The three tree predicates are the three left-recursive productions |
| `PredicateSyntax.ConnectiveForms` | commerce_coordinator/apps/commercetools/predicate_parser.py:154-161 | The tokens of connectives and parentheses are those of their parts with the keyword between, or the parentheses around |
| `PredicateSyntax.ConditionForms` | commerce_coordinator/apps/commercetools/predicate_parser.py:163-165 | The tokens of comparisons, of `in` and `not in` lists, of `is defined` and `is not defined` |
| `PredicateSyntax.FieldForms` | commerce_coordinator/apps/commercetools/predicate_parser.py:167-172 | The tokens of dotted names, function calls and arguments |
| `PredicateSyntax.ListForms` | commerce_coordinator/apps/commercetools/predicate_parser.py:174 | The tokens of a list: its values with commas between them |
| `PredicateTransformer.PrintThenParse` | commerce_coordinator/apps/commercetools/predicate_parser.py:154-161 | Printing any operator tree with minimal parentheses and parsing it gives the tree back |
| `PredicateTransformer.MinimalParens` | commerce_coordinator/apps/commercetools/predicate_parser.py:160 | No grammatical tree of the same structure has fewer parentheses than the printed one, and no other has as few |
| `PredicateTransformer.RedundantParens` | commerce_coordinator/apps/commercetools/predicate_parser.py:160-161 | Parentheses added anywhere, any number of times, still parse and never change the abstract syntax |
| `PredicateTransformer.TransformedShape` | commerce_coordinator/apps/commercetools/predicate_parser.py:92-145 | What the transformer makes of a parse tree has function calls only in comparisons and arguments made the same way |
| `PredicateTransformer.InExpr` | commerce_coordinator/apps/commercetools/predicate_parser.py:123-133 | The loop finds the negation exactly when there is a `not` child, and keeps the last list; on the children of a membership condition it returns what the transformation says |
| `DottedPaths.SplitOfJoin` | commerce_coordinator/apps/commercetools/predicate_parser.py:80-82 | Joining segments and splitting again gives them back if and only if no segment holds a dot |
| `DottedPaths.JoinOfSplit` | commerce_coordinator/apps/commercetools/predicate_parser.py:260-262 | Splitting any path and joining again gives it back |
| `PredicateEvaluator.LookupFollowsSegments` | commerce_coordinator/apps/commercetools/predicate_parser.py:260-262 | For dot-free segments, lookup of the joined path is step-by-step lookup of the written segments |
| `PredicateMeaning.EvaluateComputesMeaning` | commerce_coordinator/apps/commercetools/predicate_parser.py:273-353 | On every parse tree and context the plain evaluator returns the tree's own truth value: connectives as truth functions, the six comparisons as relations between numbers or between texts, membership, definedness, known functions; it raises exactly where there is none |
| `PredicateMeaning.DebugComputesMeaning` | commerce_coordinator/apps/commercetools/predicate_parser.py:372-474 | So does the debug evaluator, with unknown functions read as 0 |
| `Lexicographic.LessExactlyWhen` | commerce_coordinator/apps/commercetools/predicate_parser.py:300-307 | Texts are compared at the first place where they differ |
| `DottedPaths.SplitOfJoinIsPath` | commerce_coordinator/apps/commercetools/predicate_parser.py:260-262 | For all names, dots or not: splitting the joined list gives the segments of each name in turn |
| `PredicateEvaluator.DebugAgrees` | commerce_coordinator/apps/commercetools/predicate_parser.py:372-474 | Wherever the plain evaluator returns a value the debug evaluator returns the same; with implemented functions only, the two succeed on the same inputs |
| `PredicateEvaluator.EvaluatorsAgreeExactlyWhen` | commerce_coordinator/apps/commercetools/predicate_parser.py:372-474 | On every expression and context the plain evaluator succeeds if and only if the debug evaluator does and every function that is reached is implemented |
| `PredicateEvaluator.DebugAcceptsUnknownFunction` | commerce_coordinator/apps/commercetools/predicate_parser.py:372-474 | With an unknown function the debug evaluator succeeds where the plain one raises |
| `PredicateCheck.UnknownCallRaises` | commerce_coordinator/apps/commercetools/predicate_parser.py:223-254 | A predicate that parses and whose plain evaluation raises in every context, so that checking it keeps the context |
| `PredicateEvaluator.ResultIsBoolean` | commerce_coordinator/apps/commercetools/predicate_parser.py:273-353 | On parsed input both evaluators return booleans only |
| `PredicateEvaluator.ConnectivesAreLogical` | commerce_coordinator/apps/commercetools/predicate_parser.py:273-353 | `and` and `or` are conjunction and disjunction, and fail exactly when a side fails |
| `PredicateCheck.CartPredicateParser.Check` | commerce_coordinator/apps/commercetools/predicate_parser.py:223-254 | The result is the truth of the parse tree in the context (`PredicateMeaning.Holds`), or an error where it has none; the final type check never fires, and the context is cleared exactly when nothing was raised |
| `RefundArithmetic.SplitRefundsAddUp` | commerce_coordinator/apps/commercetools/catalog_info/edx_utils.py:215-244 | Any k disjoint partial refunds covering an order refund the planned amount exactly when it equals the order total, and otherwise land within k/2 minor units of it |
| `RefundArithmetic.SplitBoundExactlyWhen` | commerce_coordinator/apps/commercetools/catalog_info/edx_utils.py:211-213 | That bound holds if and only if the order total is positive or the planned amount is itself within k/2 minor units |
| `RefundArithmetic.ExceedsPlannedExample` | commerce_coordinator/apps/commercetools/catalog_info/edx_utils.py:224-230 | A request on which the documented bound fails |
| `RefundDecimals.PriceToRefundIsWholeCents` | commerce_coordinator/apps/commercetools/catalog_info/edx_utils.py:178-179 | In the decimal context of 28 digits and for every currency the refund is a whole number of minor units, the one the theorems are about |
| `RefundDecimals.DecimalRefundExactlyWhen` | commerce_coordinator/apps/commercetools/catalog_info/edx_utils.py:234-244 | The decimal refund is the half-up rounding of the exact share if and only if the share is no tie or the digits do not fall below it; otherwise it is one minor unit less |
| `RefundDecimals.DecimalRefundIsNearest` | commerce_coordinator/apps/commercetools/catalog_info/edx_utils.py:206-251 | In every branch the decimal refund is an integer nearest to the exact share |
| `RefundDecimals.DecimalRefundInRange` | commerce_coordinator/apps/commercetools/catalog_info/edx_utils.py:206-251 | With any number of digits the refund lies between nothing and the planned amount |
| `RefundDecimals.DecimalRefundMonotone` | commerce_coordinator/apps/commercetools/catalog_info/edx_utils.py:206-251 | Requesting more of the order's items never refunds less, although every operation rounds |
| `RefundDecimals.DecimalRefundDependsOnRequestedItemsOnly` | commerce_coordinator/apps/commercetools/catalog_info/edx_utils.py:218-237 | Only which of the order's items are requested matters: duplicates, foreign ids and the order of the request do not, although they decide which branch is taken |
| `RefundDecimals.DecimalCapNeverBinds` | commerce_coordinator/apps/commercetools/catalog_info/edx_utils.py:242-244 | When line totals add up the final cap never changes the result |
| `RefundDecimals.DecimalNeverExceedsPlannedExactlyWhen` | commerce_coordinator/apps/commercetools/catalog_info/edx_utils.py:202-251 | Without assuming that line totals add up: the refund stays within the planned amount if and only if the branch that adds totals as they are is not taken or the requested totals are within the order total |
| `RefundDecimals.DecimalSplitRefundsAddUp` | commerce_coordinator/apps/commercetools/catalog_info/edx_utils.py:215-244 | The k/2 bound on partial refunds, and exactness when the planned amount is the order total, hold of the decimal arithmetic |
| `RefundDecimals.DecimalTieExample` | commerce_coordinator/apps/commercetools/catalog_info/edx_utils.py:237-242 | Line totals 5 and 9 with 21 planned: the exact share is 7.5, half up 8, and the code refunds 7 |
| `RefundDecimals.RoundNear` | commerce_coordinator/apps/commercetools/catalog_info/edx_utils.py:178-179 | Rounding any approximation of a fraction n/t that is off by less than 1/(2t) gives the rounding of the fraction, except at a tie approximated from below |
| `RefundDecimals.GetLineItemPriceToRefund` | commerce_coordinator/apps/commercetools/catalog_info/edx_utils.py:182-251 | The branches and loops of the code, with the context's rounding after each operation, compute the specified price |
| `RefundDecimals.AllocateShares` | commerce_coordinator/apps/commercetools/catalog_info/edx_utils.py:234-241 | The allocation loop adds up the rounded shares of the requested items, in order |
| `SignificantDigits.RoundPositiveIsClose` | commerce_coordinator/apps/commercetools/catalog_info/edx_utils.py:234-241 | Rounding to 28 decimal or 53 binary digits is off by at most half a unit in the last digit |
| `SignificantDigits.RoundMonotone` | commerce_coordinator/apps/commercetools/catalog_info/edx_utils.py:234-241 | Rounding keeps the order of amounts |
| `SignificantDigits.HalfEvenIsNearestEven` | commerce_coordinator/apps/commercetools/catalog_info/edx_utils.py:234-241 | Rounding in the last digit goes to the nearest integer, and to the even one at a tie |
| `SignificantDigits.AccumulateError` | commerce_coordinator/apps/commercetools/catalog_info/edx_utils.py:234-241 | A rounded sum of n terms is off by at most 3n last digits of a bound of the sum |
| `Decimals.RoundHalfUpIsNearest` | commerce_coordinator/apps/commercetools/catalog_info/edx_utils.py:178-179 | Half-up rounding is a nearest integer, away from zero at a tie |
| `MoneyConversion.CentsToPriceAndBack` | commerce_coordinator/apps/commercetools/utils.py:443-455 | Cents to price and back is the identity for every currency exponent and sign |
| `MoneyConversion.PriceToCentsAndBack` | commerce_coordinator/apps/iap/utils.py:171-173 | Price to cents and back loses less than one minor unit, towards zero |
| `MoneyConversion.StripeCentsExactlyWhen` | commerce_coordinator/apps/stripe/clients.py:289 | The cents sent to Stripe are the half-up-rounded refund if and only if the currency has two fraction digits or the refund is nothing |
| `MoneyConversion.StripeCentsOfYen` | commerce_coordinator/apps/stripe/clients.py:289 | A refund of 500 yen is sent as 50000 |
| `CacheKeys.SafeKey` | commerce_coordinator/apps/core/memcache.py:42-81 | Every key is at most 250 characters and printable, and is the key the injectivity lemmas are about |
| `CacheKeys.KeyForm` | commerce_coordinator/apps/core/memcache.py:57-81 | Up to 250 characters the key is the three encoded parts, beyond that their digest, behind the namespace if both fit with two characters to spare |
| `CacheKeys.UnhashedKeysAreInjective` | commerce_coordinator/apps/core/memcache.py:57-71 | Two argument triples whose keys are not hashed get equal keys only if they are equal |
| `CacheKeys.NamespacesNeverMix` | commerce_coordinator/apps/core/memcache.py:62-78 | Even hashed keys of different prefixes or versions never coincide, unless both are pure hashes |
| `CacheKeys.SharedExactlyWhen` | commerce_coordinator/apps/core/memcache.py:57-81 | For all arguments, when two keys are equal: pure hashes when their digests are; other keys within a namespace only, short ones when they are the same, long ones when their digests are, a short and a long one when the short one reads like the digest |
| `CacheKeys.UnquoteOfCleaned` | commerce_coordinator/apps/core/memcache.py:34-39 | Percent-encoding loses nothing: decoding gives every byte back |
| `CacheKeys.CleanedIsColonFree` | commerce_coordinator/apps/core/memcache.py:34-39 | Encoded text never contains the separator |
| `CacheKeys.QuotedForm` | commerce_coordinator/apps/core/memcache.py:34-39 | Letters, digits and `-._~` stand for themselves, a plus for a space, a percent sign with two hexadecimal digits for any other byte |
| `StateProvisioning.StateRegistry.Handle` | commerce_coordinator/apps/commercetools/management/commands/provision_states.py:38-114 | After one complete run from any remote configuration every provisioned state is what its draft says, every update used a current version, and other states are untouched |
| `StateProvisioning.SecondRunIsQuietExactlyWhen` | commerce_coordinator/apps/commercetools/management/commands/provision_states.py:62-114 | A second run updates nothing if and only if every draft has a name and a description |
| `StateProvisioning.UpdateReconciles` | commerce_coordinator/apps/commercetools/management/commands/provision_states.py:64-101 | One list of actions reconciles a state, whatever it was |
| `StateProvisioning.NothingToDoExactlyWhen` | commerce_coordinator/apps/commercetools/catalog_info/utils.py:72-75 | No actions exactly when the state is reconciled and the draft has both texts, since a missing text equals nothing |
| `StateProvisioning.DraftWithoutTextIsUpdatedAgain` | commerce_coordinator/apps/commercetools/management/commands/provision_states.py:97-101 | A draft without a description: after any update its state is what the draft says, and the next run updates it again |
| `StateProvisioning.TextIsLocalized` | commerce_coordinator/apps/commercetools/catalog_info/utils.py:22-34 | The texts of the shipped definitions are what `ls` makes of their English text: English and US English |
| `StateProvisioning.OrderStatesAreFit` | commerce_coordinator/apps/commercetools/catalog_info/foundational_types.py:30-92 | The shipped definitions satisfy the hypotheses of both results |
| `StateProvisioning.DeclaredIsProvisioned` | commerce_coordinator/apps/commercetools/catalog_info/foundational_types.py:38-92 | The transition relation of the fulfilment protocol is the one that gets provisioned |
| `KeysetPagination.FetchAll` | commerce_coordinator/apps/commercetools/management/commands/extract_commercetools_discount_data_to_csv.py:25-64 | The loop terminates for every table size and returns every record exactly once in id order; it gives up if and only if one of the requests it needs fails |
| `KeysetPagination.NextPage` | commerce_coordinator/apps/commercetools/management/commands/extract_commercetools_discount_data_to_csv.py:42-62 | After n records the next request returns exactly the records that follow them |
| `KeysetPagination.AfterRecord` | commerce_coordinator/apps/commercetools/management/commands/extract_commercetools_discount_data_to_csv.py:50 | Filtering by an id of a sorted table leaves exactly the rest of it |
| `OrderHistory.HistoryIsRecentOrdersNewestFirst` | commerce_coordinator/apps/frontend_app_ecommerce/views.py:133-149 | Cutting after sorting loses no recent order and shows no old one |
| `OrderHistory.HistoryShows` | commerce_coordinator/apps/frontend_app_ecommerce/views.py:133-149 | Every order placed at the cutoff or later is shown as often as it is reported, no other, newest first; without a cutoff all are |
| `StableSort.FilterCommutesWithSort` | commerce_coordinator/apps/frontend_app_ecommerce/views.py:136-140 | Stability in full: filtering commutes with sorting for every predicate |
| `StableSort.SortedPermutation` | commerce_coordinator/apps/frontend_app_ecommerce/views.py:136-140 | The sorted list is a descending permutation |

## Left out

- RefundTheorems.OneTransactionPerRefund: excludes the answer with an already existing refund that the run could have seen; the case is covered by `UniqueExactlyWhenPipelinesCheck` and `ExistingAnswerDuplicates`.
- OrderNumbers.OrderNumbersAreUnique: assumes the printed year is the year of the counter write, which the code does not ensure; `LatePrefixCollides` shows why.
- FulfilmentTheorems.MutualExclusion: assumes the lock of the order does not expire, which the cache does not ensure; `ExpiryAdmitsSecondWorker` shows why, and `Serialisable` does not need it.
- StateProvisioning.StateRegistry.Handle: error-free runs only, and generated ids are assumed not to equal a definition's key, because the code keeps keys and ids in one dictionary.
- KeysetPagination.FetchAll: the table does not change while it is read.
- FloatAmounts.FullMeansFull: amounts of one currency that are not negative, few and small enough that half a cent can be told apart; beyond that nothing is claimed.
- FloatAmounts.FullExactlyWhen: amounts that floats hold exactly; when unequal splits of other amounts happen to have equal floating-point sums is not characterised.
- FloatAmounts.FullIsEffectiveExactlyWhen: the amounts of `FullMeansFull`.
- FloatAmounts.PayPalLosesCentExactlyWhen: amounts below thirty million million dollars.
- SignificantDigits.RoundPositiveIsClose: exponents are not bounded, so overflow and subnormal numbers are left out.
- CacheKeys.SafeKey: works on the UTF-8 bytes of its arguments; MD5 is any function with 32 hexadecimal characters as its result.
- RefundDecimals.DecimalRefundExactlyWhen: orders whose amounts leave enough of the 28 digits (`Precise`), such as a million items with amounts of ten digits; beyond that nothing is claimed.
- RefundDecimals.DecimalSplitRefundsAddUp: the same orders.
- RefundDecimals.DecimalRefundMonotone: the same orders.
- RefundDecimals.DecimalRefundDependsOnRequestedItemsOnly: the same orders.
- RefundDecimals.DecimalCapNeverBinds: the same orders.
- RefundBudget.CallsStayWithinPlanned: the same orders; calls for several orders paid with one payment are not added up.
- RefundDecimals.PriceToRefundIsWholeCents: amounts of at most 28 digits; the decimal context raises on larger ones.
- FulfilmentTheorems.OutcomeIsOrderIndependent: assumes that the batch moves of the order were made from Initial or Pending; `SentBatchesAreEarly` shows that the batches the repository sends are, `BatchKeepsOutcomeExactlyWhen` and `LateBatchForgesOutcome` that the client method would accept others.
- FulfilmentTheorems.AcknowledgedCompletionsStick: assumes that no batch moves the order from Failure to Pending; `BatchUndoesFailureExactlyWhen` shows why.
- Lexing and the construction of the LALR table: the grammar is modelled over tokens, with a parser of its own. Empty `in ()` lists are left out, because their items depend on an option of the parser library.
- RefundCalls.CallsAskForUnrefundedShare: the requested amount is in minor units; how it is sent to Stripe is the subject of `MoneyConversion.StripeCentsExactlyWhen`.
- Evaluation compares numbers exactly, not as binary floating point; the text the debug evaluator prints is left out.
- A recorded refund is in the payment's currency as far as its number of fraction digits goes; upper and lower case are those of ASCII.
- `get_payment_by_key` is a lookup by the interface id: the normalisation of keys is left out, and so are the customer, enrolment and Segment calls of the tasks, except that the call after a Stripe or PayPal recording can fail and make Celery run them again.
- MobileReturns.NamesExactlyWhen: return items have distinct ids, as the service gives them.
- FulfilmentProgress.MessagesAreConserved: runs in which no worker dies; what Celery does with the message of a dead worker depends on its configuration.
- An update with an empty list of actions counts as an update in the refund protocol.
- The revoke signal of the mobile task, entitlement revocation, `update_return_payment_state_for_mobile_order` and the legacy redirect: no effect on the payments and return items modelled here.
- A pipeline run is not retried as a whole; a second delivery of its message is a second run, and two runs for one return may both ask the provider for a refund.
- Locks are named by order id; the cache key built from it is the subject of `CacheKeys`. States are named by their keys, not ids.
- Concurrency inside a single remote request, clock skew between workers, and HTTP, OAuth, Django, email, Braze and Segment.
- `SingleInvocationAPIView`: its check and its set are separate cache calls, so no exclusion can be claimed from it.
- The mobile create-order view, discount and program prices, the legacy order conversion and the discovery import: easy, dead, or resting on rules of the order service that the repository does not show.
