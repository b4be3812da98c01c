# CreditFlow, modelled and verified in Dafny

CreditFlow is a set of Python services behind an API gateway, with a TypeScript client. This project models the
parts whose correctness spans several tables, processes or programs, and proves what they keep over every run.

- **Credits and marketplace** (`Ledger`, `Credits`, `CreditsService`, `TradeProofs`, `LedgerProofs`, `CoverProofs`,
  `MarketProofs`, `GrantProofs`). An append-only ledger whose sum is the balance, the listing state machine, the reservation sweep,
  and the idempotency table. Sold listings and trade pairs correspond one to one, credits are conserved, balances have
  a floor, a usage reference is charged once, the condition under which listings stay covered is given exactly, and so
  is when a sale succeeds and what it moves.
- **From a Stripe webhook to a credit grant** (`Inbox`, `Outbox`, `OutboxRuns`, `Webhooks`, `Pipeline`, `PipelineProofs`,
  `PipelineGrants`, `PipelineCredits`, `PipelineRuns`, `BillingService`). A two-transaction inbox, a transactional
  outbox with its publishers, a broker that drops what no binding routes and a queue that duplicates, reorders and
  dead-letters, and the idempotent consumer, with crashes between any two steps. No event that the broker has routed is
  lost, and each checkout grants its credits at most once.
- **Rate limiting** (`RateLimit`, `RateLimitAgree`, `RateLimitBounds`, `RateLimitServices`). A Lua script over a sorted
  set and a list: when they answer alike, a bound over every window, and the meaning of the retry time.
- **Generation and its stream** (`Generation`, `Sse`, `SseProofs`, `SseStream`). The fallback and cancel loop, the
  gateway's frame printer, the browser's incremental parser, and all three put together.
- **Content versions** (`Content`, `ContentProofs`, `ContentService`). Histories of items under interleaved transactions.
- **Tokens and sessions** (`RefreshTokens`, `Sessions`, `AuthService`). Refresh rotation and the per-user session index.

Each service that changes state is a class whose methods are proved equal to a function on its tables; the theorems are
about those functions and about runs of them. `dafny verify dfyconfig.toml` checks everything.

## What the model assumes

- Each `session.begin()` block of the credits, billing and auth services is one atomic step, that is, transactions are
  serialisable. `consume_credits` and `create_listing` take no lock on the balance they read, so the database must
  provide this. The content service is modelled without it: its reads and writes interleave freely.
- Fresh identifiers (listing, ledger row, outbox row, item, token, session) are positions in the order of creation.
  Where the code takes any one of several matching rows, the model takes the earliest.
- Clocks are inputs. Redis and the service read the same clock.
- RabbitMQ keeps a confirmed message that a binding routes until it is acknowledged or dead-lettered. Bindings are
  durable; they are made one by one when credits-service first starts, which may be after billing-service publishes.

## What the code does not keep

Each of these has a lemma with a concrete run, and beside it the exact condition under which the property does hold.

- Listed credits can exceed the seller's balance after usage, after a refund, or when a reservation is completed after
  its listing expired, because `complete_purchase` does not look at the expiry. A run keeps sellers covered if and only
  if every such debit fits the headroom (`CoverProofs.RunKeepsCoverExactly`).
- Refunds of an invoice take the whole grant back once for each refund event that is first delivered after the payment,
  and nothing otherwise: the grant is cancelled exactly if and only if there is one such event
  (`GrantProofs.RefundsCancelExactly`). An invoice first seen when it is paid is granted under the name `None`, so its
  refund finds no grant (`Webhooks.RefundReachesGrantExactly`).
- An event published before credits-service has bound its type is confirmed and dropped, since the publisher does not
  ask for unroutable messages back, and its row is marked published: it is lost for good
  (`PipelineProofs.LostForGood`, `PipelineRuns.PublishedTooEarly`). An event first sent later never is
  (`PipelineProofs.NothingLostOnceBound`).
- A usage reference equal to the id of a billing event swallows that event, since both share one table: at rest a paid
  credit pack is granted if and only if its row was routed and its id was not such a reference
  (`PipelineGrants.EachPackGrantedAtRestExactly`, `PipelineRuns.SwallowedPack`).
- The publisher sorts by `created_at`, which is the start of the writing transaction, not its commit. First sends keep
  that order if and only if no row is written with a `created_at` before that of a row already sent or locked
  (`Outbox.FirstPublicationsKeepOrderExactly`, `OutboxRuns.LateRowIsOvertaken`).
- A request that repeats time and request id of an admitted one is let in by the Lua script again and again, and then
  the two limiters part: they agree for good if and only if no admitted request repeats another
  (`RateLimitAgree.LimitersAgreeExactly`, `RateLimitAgree.RepeatsAreUnbounded`). The script still bounds the distinct
  members of every window (`RateLimitBounds.ScriptMembersBounded`).
- One key serves two limits for public and webhook requests; a refused caller is told the right time if and only if the
  oldest stamp and the one its own limit waits for leave in the same second (`RateLimitBounds.RetryIsRightExactly`).
- A result that is stored before its charge fails leaves an extra history row: the history records a completed job once
  and any other not at all if and only if no attempt stored and then failed (`Generation.OneRowExactly`).
- Tokens travel by publish and subscribe, the browser subscribes after the job has started, and a wait that times out
  ends the gateway's subscription. The browser sees the end if and only if it subscribed before the terminal event and
  no wait timed out until then, and the stored response if and only if no text was published too early
  (`SseStream.BrowserShowsTheRecordExactly`, `SseStream.LateOrSlowLosesText`).
- A delete that read an item before it was published removes it afterwards (`ContentProofs.PublishedIsFinal`), and a
  delivery that is overtaken by another one of the same generation between its look and its insert makes a second item
  (`ContentProofs.SourcesStayUniqueExactly`).
- A shorter second session takes the user's index away while the first is still live
  (`Sessions.RunKeepsCoverExactly`), and a session stored while the user's sessions are being revoked escapes if and only
  if it falls between the reading and the deletion of the index (`Sessions.EscapesExactly`).

## Model

| member | source | states |
|---|---|---|
| Ledger.FirstWhere | credits-service/src/credits_service/services/credits.py:200-208 | The lookup returns the oldest row that satisfies the clause, and nothing only when no row satisfies it. |
| Ledger.BalancesAddUp | credits-service/src/credits_service/services/credits.py:27-38 | The per-account balances of any set of accounts that covers the ledger add up to the sum of the whole ledger. |
| Ledger.KindsAddUp | credits-service/src/credits_service/services/credits.py:27-38 | The ledger total is the sum of its five entry types. |
| CreditsServices.CreditsService.ConsumeCredits | credits-service/src/credits_service/services/credits.py:53-87 | Succeeds exactly for a seen reference or a sufficient balance, debits once per reference, answers with the balance afterwards; sales and trade rows stay in correspondence. |
| CreditsServices.CreditsService.Listings | credits-service/src/credits_service/services/credits.py:89-116 | The sweep reopens exactly the reservations untouched for 900 seconds, and the result is exactly the open, unexpired listings. |
| CreditsServices.CreditsService.CreateListing | credits-service/src/credits_service/services/credits.py:118-143 | Lists credits exactly when they fit the headroom, which falls by them; the whole new state and reply, invariant kept. |
| CreditsServices.CreditsService.CancelListing | credits-service/src/credits_service/services/credits.py:145-154 | Succeeds exactly for an open listing of the caller or for a super admin, and it is never on sale again; each refusal leaves the tables alone. |
| CreditsServices.CreditsService.ReservePurchase | credits-service/src/credits_service/services/credits.py:156-170 | Succeeds exactly for a listing on sale and an account other than its seller, which then holds it; each refusal leaves the tables alone. |
| CreditsServices.CreditsService.SetPaymentIntent | credits-service/src/credits_service/services/credits.py:172-177 | Sets the intent of a reserved listing unless another listing has it. |
| CreditsServices.CreditsService.ReleaseReservation | credits-service/src/credits_service/services/credits.py:179-189 | Reopens a reserved listing, for the given buyer only when one is given. |
| CreditsServices.CreditsService.CompletePurchase | credits-service/src/credits_service/services/credits.py:191-246 | A reserved listing of this buyer and payment is sold exactly when the seller can cover it, moving its credits and nothing else; a sold one returns the earlier id; every other call is refused; invariant kept. |
| CreditsServices.CreditsService.Consume | credits-service/src/credits_service/services/credits.py:248-311 | Succeeds exactly for a seen event or one whose fields are in order; balances move by what the event is worth or takes back; ledger and idempotency table change together or not at all; invariant kept. |
| TradeProofs.CompleteKeepsInv | credits-service/src/credits_service/services/credits.py:191-241 | Completing a purchase keeps the one-to-one correspondence of sold listings and trade pairs. |
| TradeProofs.StepKeepsInv | credits-service/src/credits_service/services/credits.py:53-309 | Every operation keeps that correspondence, unique intents, listing shapes and ledger signs, and only ever appends to the ledger. |
| TradeProofs.RunKeepsTrades | credits-service/src/credits_service/services/credits.py:156-241 | In every reachable state each sold listing has exactly one buyer row and one seller row of opposite amounts under its intent, and there are no other trade rows. |
| LedgerProofs.CompleteOnSold | credits-service/src/credits_service/services/credits.py:199-214 | On a sold listing with this intent the call changes nothing, and fails with TRANSFER_STATE_INVALID exactly for an account that is not the buyer. |
| LedgerProofs.SoldForever | credits-service/src/credits_service/services/credits.py:89-241 | No operation ever touches a sold listing again. |
| LedgerProofs.RetryReturnsSameId | credits-service/src/credits_service/services/credits.py:199-214 | After any run, repeating a completed purchase returns the same id and changes nothing. |
| LedgerProofs.StepAppends | credits-service/src/credits_service/services/credits.py:53-306 | A step appends nothing, one row that is no trade, or one opposite trade pair; debits other than clawbacks are funded; only refunds claw back. |
| LedgerProofs.TradesNetToZero | credits-service/src/credits_service/services/credits.py:216-241 | Trade rows sum to zero over every run. |
| LedgerProofs.CreditsAreConserved | credits-service/src/credits_service/services/credits.py:27-311 | In every reachable state the sum of all balances is grants minus usage minus clawbacks. |
| LedgerProofs.BalanceFloor | credits-service/src/credits_service/services/credits.py:53-306 | In every run each balance is at least minus what was clawed back from the account. |
| LedgerProofs.BalancesNonNegativeWithoutRefunds | credits-service/src/credits_service/services/credits.py:53-306 | Without refund events no balance is ever negative. |
| LedgerProofs.UsageChargedOnce | credits-service/src/credits_service/services/credits.py:53-87 | In every run there is one usage row for each accepted usage reference and none for any other. |
| CoverProofs.StepKeepsCoverExactly | credits-service/src/credits_service/services/credits.py:118-241 | A step keeps every seller's unexpired listed credits within the balance if and only if its unbacked debit fits the debited account's headroom. |
| CoverProofs.RunKeepsCoverExactly | credits-service/src/credits_service/services/credits.py:89-241 | Over a run sellers stay covered throughout if and only if every debit fitted the headroom when it was made. |
| CoverProofs.QuietRunsAreBacked | credits-service/src/credits_service/services/credits.py:89-241 | Runs without usage, refunds and sales of expired listings satisfy that condition. |
| CoverProofs.SellerNeverShortInQuietRuns | credits-service/src/credits_service/services/credits.py:212-222 | After such a run SELLER_BALANCE_CHANGED cannot occur for an unexpired listing. |
| CoverProofs.UsageBreaksCover | credits-service/src/credits_service/services/credits.py:53-84 | A reachable state in which usage spends credits that are listed. |
| CoverProofs.RefundBreaksCover | credits-service/src/credits_service/services/credits.py:286-306 | A reachable state in which a refund takes back credits that are listed. |
| CoverProofs.LateSaleBreaksCover | credits-service/src/credits_service/services/credits.py:191-241 | A reachable state in which completing an expired reservation spends credits that are listed again. |
| MarketProofs.UsageExactly | credits-service/src/credits_service/services/credits.py:53-87 | A charge succeeds exactly for a seen reference or a sufficient balance; a new one lowers that balance by the amount and no other; the answer is the balance after the call. |
| MarketProofs.CreateExactly | credits-service/src/credits_service/services/credits.py:118-143 | A listing is accepted exactly when its credits fit the headroom, which falls by them, and is on sale exactly until its days are over. |
| MarketProofs.CancelExactly | credits-service/src/credits_service/services/credits.py:145-154 | Who may cancel what, each refusal with its error; a canceled listing is never on sale again and promises nothing. |
| MarketProofs.ReserveExactly | credits-service/src/credits_service/services/credits.py:156-170 | Reserving succeeds exactly for a listing on sale to another account; then every further reservation is refused and the seller's promise stays. |
| MarketProofs.ReserveThenRelease | credits-service/src/credits_service/services/credits.py:156-189 | Releasing undoes reserving but for the time stamp, exactly when it names the buyer or nobody. |
| MarketProofs.ReleaseExactly | credits-service/src/credits_service/services/credits.py:179-189 | A release puts a listing back on sale until its expiry exactly when it is reserved, for the named buyer if one is named; else nothing changes. |
| MarketProofs.SetIntentExactly | credits-service/src/credits_service/services/credits.py:172-177 | A payment is attached exactly to a reserved listing when no other listing has it; the reservation stays. |
| MarketProofs.SweepExactly | credits-service/src/credits_service/services/credits.py:89-104 | The sweep ends a reservation exactly when the listing was left alone for more than fifteen minutes, and touches nothing else. |
| MarketProofs.ReservationHolds | credits-service/src/credits_service/services/credits.py:89-189 | Over every run of at most fifteen minutes a reservation stays with its buyer on the same terms, whatever others do, unless it is completed by that buyer or released. |
| MarketProofs.SweepDecidesSale | credits-service/src/credits_service/services/credits.py:89-246 | A paid and covered reservation is completed after a sweep exactly when the sweep came within fifteen minutes of the last change. |
| MarketProofs.CompleteExactly | credits-service/src/credits_service/services/credits.py:191-246 | A listing not sold yet is sold exactly when it is reserved for this buyer and payment and its credits are in the seller's balance, expired or not; each refusal has its error and changes nothing. |
| MarketProofs.SaleMovesCredits | credits-service/src/credits_service/services/credits.py:212-246 | A sale raises the buyer's balance and lowers the seller's by exactly the credits, leaves every other balance and listing, and answers with the buyer's new row. |
| MarketProofs.QuietSaleSucceeds | credits-service/src/credits_service/services/credits.py:191-246 | After any run without usage, refunds and late sales, completing an unexpired listing for the buyer and payment it is reserved for succeeds. |
| MarketProofs.PaidInTimeIsSold | credits-service/src/credits_service/services/credits.py:156-246 | From reservation to sale over such runs: a buyer whose payment is attached gets the credits if the run since the reservation took at most fifteen minutes and did not release it. |
| GrantProofs.DeliveryExactly | credits-service/src/credits_service/services/credits.py:248-309 | An unseen event is accepted exactly when the fields its type needs are in order; it is recorded, adds at most one row that names its account and object, and moves the balance by its worth or by the first grant of the refunded invoice; a refused one changes nothing. |
| GrantProofs.DeliveriesAddWorth | credits-service/src/credits_service/services/credits.py:248-309 | Deliveries of grant events add to a balance exactly what their distinct unseen events are worth: the credits of the plan, or those bought. |
| GrantProofs.OrderAndRepetitionDoNotMatter | credits-service/src/credits_service/services/credits.py:248-309 | Any two delivery sequences of grant events with the same ids give every account the same balance. |
| GrantProofs.RefundsTakeBack | credits-service/src/credits_service/services/credits.py:286-306 | Any refund deliveries of an invoice take back its first grant once for each distinct unseen refund event, and nothing without a grant. |
| GrantProofs.RefundsCancelExactly | credits-service/src/credits_service/services/credits.py:258-306 | A payment and any refunds of its invoice in any order and repetition: the payment is cancelled exactly if and only if one refund event, and only one, is first delivered after it; the balance in every case. |
| GrantProofs.RefundOrderMatters | credits-service/src/credits_service/services/credits.py:286-306 | Two runs: a refund before its grant takes nothing back, and after it all of it. |
| GrantProofs.TwoRefundsClawBackTwice | credits-service/src/credits_service/services/credits.py:286-306 | A run in which two refund events of one invoice take back twice its grant. |
| Inbox.StepKeepsInv | billing-service/src/billing_service/services/billing.py:206-231 | Each database step of any worker keeps: one row per id, effects committed exactly for processed ids, at most one lock holder per id. |
| Inbox.EffectsCommitAtMostOnce | billing-service/src/billing_service/services/billing.py:206-231 | However deliveries interleave and crash, the effects of a provider id commit at most once, and exactly when its row says processed. |
| Inbox.UninterruptedDelivery | billing-service/src/billing_service/services/billing.py:197-231 | The statements of one undisturbed delivery compose to: nothing if processed, else the effect commits, or on failure the event stays recorded and unprocessed. |
| BillingServices.BillingService.HandleGatewayEvent | billing-service/src/billing_service/services/billing.py:197-231 | The handler moves the inbox as that worker run does, and writes the outbox row only together with the processed flag; the row of a paid invoice names the plan of its lines, or else that of the subscription, and the subscription's account. |
| Webhooks.SubscriptionExactly | billing-service/src/billing_service/services/billing.py:233-244 | A webhook is about the subscription of its customer, or of the account in its metadata if the customer is unknown, and fails exactly when it must read an account that is no UUID. |
| Webhooks.PaidInvoiceExactly | billing-service/src/billing_service/services/billing.py:245-288 | A paid invoice of a subscriber writes one row with the subscription's account and the plan of the lines, or else that of the subscription, and is stored. |
| Webhooks.UnpaidInvoiceExactly | billing-service/src/billing_service/services/billing.py:245-304 | Any other invoice event of a subscriber stores the invoice; only a failed payment writes a row, which pays nothing. |
| Webhooks.PlanOfLinesWins | billing-service/src/billing_service/services/billing.py:273-281 | With a plan in the invoice lines the row does not depend on the plans the subscriptions have by then. |
| Webhooks.SubscriptionEventExactly | billing-service/src/billing_service/services/billing.py:305-339 | A subscription event changes only the plan of its own subscription: to free when deleted, else to the plan named, if any. |
| Webhooks.PlanFollowsSubscription | billing-service/src/billing_service/services/billing.py:273-339 | From webhook to ledger: after a subscription event, a paid invoice without a plan in its lines grants exactly the credits of the plan that the event left. |
| Webhooks.PackCheckoutExactly | billing-service/src/billing_service/services/billing.py:340-357 | A checkout for credits writes a purchase of the credits and account in its metadata exactly when both are there and the number is positive, and fails exactly when the number cannot be read. |
| Webhooks.RefusedExactly | billing-service/src/billing_service/services/billing.py:233-357 | A webhook is refused exactly for an account, object id or number of credits that it needs and cannot read. |
| Webhooks.RefundReachesGrantExactly | billing-service/src/billing_service/services/billing.py:245-288 | From webhook to ledger: a paid invoice grants the credits of the plan in its lines, or else of the subscription, and its refund takes them back if and only if the invoice was stored before it was paid. |
| Outbox.PickTakesTheOldest | billing-service/src/billing_service/services/outbox.py:38-45 | The batch of unpublished, unlocked rows is in `created_at` order, holds at most the limit, all of them if they fit, and no row while an older one is left out. |
| Outbox.StepKeepsInv | billing-service/src/billing_service/services/outbox.py:36-57 | With any number of publishers, locked batches are disjoint and unpublished, and a marked row is in the broker history. |
| Outbox.MarkedRowsWereSent | billing-service/src/billing_service/services/outbox.py:36-57 | In every run with any number of publishers and crashes, a row marked published has been handed to the broker. |
| OutboxRuns.AttemptsCountMarks | billing-service/src/billing_service/services/outbox.py:55-57 | In every run with crashes a row counts exactly one attempt once it is marked and none before. |
| Outbox.StepKeepsOrderExactly | billing-service/src/billing_service/services/outbox.py:36-57 | Any step of a lone publisher keeps first sends, sent rows, marked rows and the open batch in `created_at` order if and only if it writes no row stamped before one already sent or locked. |
| Outbox.FirstPublicationsKeepOrderExactly | billing-service/src/billing_service/services/outbox.py:36-57 | Over a whole run with crashes that order holds at every moment if and only if no row was written with a `created_at` before that of a row already sent or locked. |
| Outbox.FirstPublicationsKeepOrder | billing-service/src/billing_service/services/outbox.py:36-57 | With one publisher and stamps in commit order, first sends, sent rows and marked rows follow `created_at` with none left out, and every marked row was sent. |
| OutboxRuns.LateRowIsOvertaken | billing-service/src/billing_service/models.py:95-105 | A reachable run, for any two stamps, in which the row with the lower one commits later and is sent second. |
| Outbox.PublishAloneResult | billing-service/src/billing_service/services/outbox.py:36-57 | The steps of one undisturbed batch compose to: rows handed over stay handed over, marks and attempts survive only a commit. |
| Outbox.PublishAloneInEmpty | billing-service/src/billing_service/services/outbox.py:36-57 | The same from tables that no other publisher works on: the form that the method below repeats. |
| Outbox.OutboxPublisher.PublishBatch | billing-service/src/billing_service/services/outbox.py:36-57 | The loop sends the batch in order and marks all of it, or stops at the failing row with nothing marked. |
| PipelineProofs.StepKeepsSound | credits-service/src/credits_service/services/rabbitmq.py:36-57 | Every step of inbox, outbox, bindings, queue and consumer keeps: broker messages are the envelopes of routed rows, routed rows were sent and have a bound type, and each is at the broker or processed. |
| PipelineProofs.NoEventLost | billing-service/src/billing_service/services/outbox.py:36-57 | In every run a published row was sent, a routed one is queued, in flight, dead-lettered or recorded as processed, and nothing but routed rows of bound types is ever at the broker or accepted by credits-service. |
| PipelineProofs.LostForGood | billing-service/src/billing_service/services/rabbitmq.py:72-82 | A row marked published that was never routed is, after every continuation of the run, still never routed, not at the broker and not accepted. |
| PipelineProofs.NothingLostOnceBound | credits-service/src/credits_service/services/rabbitmq.py:48-50 | In every run, a row of a bound type not sent before the types were bound is routed whenever it is sent, and once published it is at the broker or processed. |
| PipelineProofs.DeadAfterSixReturns | credits-service/src/credits_service/services/rabbitmq.py:36-44 | In every run a message is handed back at most five times and still tried; the sixth time, and not before, it is dead-lettered. |
| PipelineGrants.StepKeepsGrants | credits-service/src/credits_service/services/credits.py:248-309 | Every step keeps the credit-pack grants of the ledger equal, in order, to the accepted purchases, each from its own committed webhook. |
| PipelineGrants.EachPackGrantedAtMostOnce | billing-service/src/billing_service/services/billing.py:340-357 | End to end: in every run each credit-pack grant comes from a distinct processed checkout and grants the credits of its metadata to its account. |
| PipelineGrants.EachPackGrantedAtRestExactly | billing-service/src/billing_service/services/billing.py:340-357 | When all is published and the broker is empty, every processed credit-pack checkout has exactly one purchase row, and its grant is in the ledger if and only if that row was routed and its id was not seen as a usage reference. |
| PipelineGrants.ReferenceShadowsEvent | credits-service/src/credits_service/services/credits.py:60-84 | After a charge under the id of an unseen event, consuming that event succeeds and changes nothing. |
| PipelineRuns.SwallowedPack | credits-service/src/credits_service/services/credits.py:53-87 | A reachable run, for any two paid packs: after the row of the second is written a charge uses its id, and the pack ends paid, published and consumed but never granted. |
| PipelineRuns.PublishedTooEarly | billing-service/src/billing_service/services/rabbitmq.py:72-82 | A reachable run, for any paid pack, that publishes it before the types are bound; whatever follows, it is never granted. |
| PipelineCredits.PipelineIsACreditsRun | credits-service/src/credits_service/services/rabbitmq.py:53-57 | The tables of the pipeline are always those of a run of the credits service, which is ordered in time when the requests are. |
| PipelineCredits.PipeStepKeepsCoverExactly | credits-service/src/credits_service/services/credits.py:89-311 | Any one step of inbox, outbox, broker, consumer or request keeps cover if and only if its debit fits the headroom. |
| PipelineCredits.PipelineKeepsCoverExactly | credits-service/src/credits_service/services/credits.py:89-241 | With requests in order, sellers are covered in every state the pipeline passes through if and only if the unbacked debit of every step, request or delivery, fitted the headroom of the tables before it. |
| PipelineCredits.PipelineConservesCredits | credits-service/src/credits_service/services/credits.py:27-38 | Conservation and the balance floor with the whole pipeline running. |
| PipelineCredits.GrantsAreAcceptedWorth | credits-service/src/credits_service/services/credits.py:248-311 | In every run of the pipeline the credits ever granted to an account are exactly what the accepted outbox rows are worth to it, each row accepted once. |
| RateLimitServices.InMemoryRedisService.Eval | api-gateway/src/api_gateway/services/redis.py:71-82 | The list form changes one key's window and answers as its specification. |
| RateLimitServices.RedisScript.Eval | api-gateway/src/api_gateway/services/rate_limiter.py:6-21 | The script changes one key's sorted set and deadline and answers as its specification. |
| RateLimitServices.RateLimiter.Check | api-gateway/src/api_gateway/services/rate_limiter.py:36-42 | An admitted caller is left with limit minus what its window holds; a refused one with nothing and a wait of at least a second. |
| RateLimitAgree.StepAgreesExactly | api-gateway/src/api_gateway/services/rate_limiter.py:6-21 | One request on matching states gives the same answer, and matching states again if and only if it is refused or its member is new; the maximum with one never matters. |
| RateLimitAgree.LimitersAgreeExactly | api-gateway/src/api_gateway/services/rate_limiter.py:6-21 | Both forms give every next request, after every prefix, the same decision, count and retry time if and only if no admitted request has the time and id of another. |
| RateLimitAgree.LimitersAgree | api-gateway/src/api_gateway/services/redis.py:71-82 | On every request sequence with distinct members, whatever the ids and limits, both forms give the next request the same answer. |
| RateLimitAgree.RepeatsAreUnbounded | api-gateway/src/api_gateway/services/rate_limiter.py:18-20 | One member repeated in the same millisecond is admitted by the script any number of times under a limit of two or more. |
| RateLimitBounds.ListShowsAdmitted | api-gateway/src/api_gateway/services/redis.py:74-74 | Although it forgets, the list always shows exactly the admitted requests of the last window. |
| RateLimitBounds.AdmittedIffBelowLimit | api-gateway/src/api_gateway/services/redis.py:71-82 | A request is admitted if and only if fewer than its limit were admitted in the window before it. |
| RateLimitBounds.AnswerCountsAdmitted | api-gateway/src/api_gateway/services/redis.py:71-82 | The count in an answer is the number of requests admitted in the window, with this one if it is admitted; there is none exactly when nothing may be and was admitted. |
| RateLimitBounds.EveryWindowBounded | api-gateway/src/api_gateway/services/redis.py:71-82 | In the list form every interval as long as the window, wherever it starts, holds at most as many admitted requests as the largest limit on the key. |
| RateLimitBounds.ScriptWindowBounded | api-gateway/src/api_gateway/services/rate_limiter.py:6-21 | When no admitted request repeats a member, every interval as long as the window holds at most as many requests admitted by the script as the largest limit. |
| RateLimitBounds.ScriptAdmitsExactly | api-gateway/src/api_gateway/services/rate_limiter.py:6-21 | In every run, repeats or not, the script admits a request if and only if fewer than its limit of distinct members were admitted in the window before it, and answers with their number. |
| RateLimitBounds.ScriptMembersBounded | api-gateway/src/api_gateway/services/rate_limiter.py:6-21 | In every run, repeats or not, every interval as long as the window holds at most as many distinct admitted members as the largest limit. |
| RateLimitBounds.AdmitsAgainWhen | api-gateway/src/api_gateway/services/redis.py:71-82 | An idle key holding at least limit stamps admits at a time if and only if enough of the oldest have left the window. |
| RateLimitBounds.RetryIsRightExactly | api-gateway/src/api_gateway/services/redis.py:75-80 | In every run and for any limits, a refused caller is told the least seconds after which it is admitted if and only if the oldest stamp and the one its limit waits for leave in the same second. |
| RateLimitBounds.RetryAfterIsLeast | api-gateway/src/api_gateway/services/redis.py:75-80 | With one limit per key every refusal of every run tells the least whole number of seconds after which the idle key admits. |
| RateLimitBounds.ListNeverExceedsLimit | api-gateway/src/api_gateway/services/redis.py:71-82 | With one limit per key the list never holds more stamps than the limit. |
| RateLimitBounds.SharedKeyRetryTooEarly | api-gateway/src/api_gateway/middleware/auth_rate_limit.py:57-74 | Three requests under two limits on one key, the last told a time at which it is still refused. |
| Sse.Separator | frontend/src/lib/api/content.ts:233-234 | The position found is that of the first empty line, and none is found only when there is none. |
| Sse.FramesAppend | frontend/src/lib/api/content.ts:229-245 | Cutting a text into frames may stop anywhere and go on with what is left over. |
| Sse.ReadFrame | frontend/src/lib/api/content.ts:237-243 | Reads one frame line by line: the last event field names it, its data fields are joined. |
| Sse.Drain | frontend/src/lib/api/content.ts:233-245 | Takes the complete frames off the buffer and leaves what is incomplete. |
| Sse.ReadSseEvents | frontend/src/lib/api/content.ts:223-250 | The events depend on the text only, not on how it was cut into chunks. |
| SseProofs.RoundTrip | api-gateway/src/api_gateway/services/sse.py:18-28 | Clean events come back from their printed frames exactly, in order, with nothing left over. |
| SseProofs.RoundTripUnderChunking | frontend/src/lib/api/content.ts:223-250 | The same under any chunking. |
| SseProofs.CutStreamIsPrefix | frontend/src/lib/api/content.ts:223-250 | A printed stream cut off anywhere delivers a prefix of its events. |
| SseProofs.RoundTripsExactlyClean | api-gateway/src/api_gateway/services/sse.py:22-24 | An event survives printing and parsing if and only if name and data have no line feed and nothing to trim. |
| SseProofs.DataLinesAreJoined | frontend/src/lib/api/content.ts:237-243 | A frame with any number of data lines is one event whose data are their contents joined by line feeds; without a name it is a message. |
| SseProofs.OtherLinesAreSkipped | frontend/src/lib/api/content.ts:237-243 | A line that is neither an event nor a data field changes nothing, wherever it stands. |
| SseProofs.LastNameCounts | frontend/src/lib/api/content.ts:237-243 | Of several event fields the last one names the event. |
| SseStream.Stream | api-gateway/src/api_gateway/services/sse.py:14-32 | The generator loop yields the text of the emitted events and stops at the first terminal one. |
| SseStream.EmittedExactly | api-gateway/src/api_gateway/services/sse.py:14-32 | Turn by turn a message is passed on and a timed-out wait gives one heartbeat, up to the first turn that ends the stream. |
| SseStream.NothingAfterTerminal | api-gateway/src/api_gateway/services/sse.py:25-26 | Only the last emitted event can be a completed or failed one. |
| SseStream.StreamGeneration | frontend/src/lib/api/content.ts:276-294 | The client's loop shows tokens, skips heartbeats and empty data, and ends with one final chunk. |
| SseStream.FailureShown | frontend/src/lib/api/content.ts:286-294 | A failed event ends what is shown: as cancelled exactly for that reason, else with its reason or a fixed text. |
| SseStream.ShowsPending | frontend/src/lib/api/content.ts:276-294 | For every pattern of waits: all non-empty tokens and the final chunk, or the tokens that arrived before the first wait without one. |
| SseStream.SubscriptionShows | api-gateway/src/api_gateway/services/sse.py:14-32 | The same from any start of the subscription, through printing, any chunking and parsing; a timed-out wait ends it. |
| SseStream.BrowserShowsTheRecordExactly | frontend/src/lib/api/content.ts:252-295 | From job to browser: the end is shown if and only if the subscription began before the terminal event and no wait until then timed out; the stored response if and only if moreover the job completed and no text was missed. |
| SseStream.LateOrSlowLosesText | api-gateway/src/api_gateway/services/sse.py:16-30 | A job of one token: subscribed one message late the completion has no text, and with a timed-out second wait there is none. |
| Generation.CandidatesAreTheModelsOnce | ai-generation-service/src/ai_generation_service/core/config.py:61-63 | The candidates are the primary model and the fallbacks, each once, the primary first. |
| Generation.DedupKeepsOrder | ai-generation-service/src/ai_generation_service/core/config.py:61-63 | Candidates of a prefix are a prefix of the candidates: first occurrences keep their order. |
| Generation.StreamMatchesRecord | ai-generation-service/src/ai_generation_service/services/generation.py:113-193 | For every provider behaviour, cancel timing and storing failure: models tried in order at most once, tokens of one model, then exactly one terminal event that agrees with the job row. |
| Generation.RunEndsExactly | ai-generation-service/src/ai_generation_service/services/generation.py:124-193 | In terms of the attempts alone: models are passed over while they fail without a token; the attempt of the first other one, or the last, decides stream, job row and history, and a cancellation stops the stream before the token at which it is seen and stores nothing. |
| Generation.HistoryRowsAdded | ai-generation-service/src/ai_generation_service/services/generation.py:203-275 | A run adds one history row if it completes and one for each attempt that stored its result and then failed. |
| Generation.OneRowExactly | ai-generation-service/src/ai_generation_service/services/generation.py:113-193 | The history records a completed job once and any other not at all if and only if no attempt tried stored and then failed. |
| Generation.ChargeFailureRecordsTwice | ai-generation-service/src/ai_generation_service/services/generation.py:164-181 | A run in which a failed charge leaves two history rows for one job. |
| Generation.GenerationService.StreamTokens | ai-generation-service/src/ai_generation_service/services/generation.py:127-145 | Publishes exactly the tokens before the one at which the job is seen cancelled and says so, or all of them. |
| Generation.GenerationService.TryModel | ai-generation-service/src/ai_generation_service/services/generation.py:124-155 | One attempt: job row, stream, history and outcome for every way it can end. |
| Generation.GenerationService.RunJob | ai-generation-service/src/ai_generation_service/services/generation.py:113-193 | The loop ends with the stream, job row and history that the deciding attempt gives, and raises exactly when the job failed. |
| Content.FromGeneration | content-service/src/content_service/services/content.py:176-180 | Finds an item of the generation when there is one and nothing only when there is none. |
| ContentProofs.SavesOnlyWhatItRead | content-service/src/content_service/models.py:59-59 | The unique constraint lets a save commit if and only if the item still is what the transaction read. |
| ContentProofs.CommittedSaveIsAtomic | content-service/src/content_service/services/content.py:90-108 | A save that commits does exactly what the same request would do alone at that moment. |
| ContentProofs.CommittedSaveExactly | content-service/src/content_service/services/content.py:90-138 | Under every interleaving a committed edit stores each field as given, or as it was when not given, and a committed transition moves the status only; with one snapshot of the item and nothing else touched. |
| ContentProofs.ModifyOpensExactly | content-service/src/content_service/services/content.py:90-275 | Who may edit, approve or publish what: the owner's account or a super admin, edits before publication, approval of drafts, publication of approved items by those permitted. |
| ContentProofs.GenerationOpensExactly | content-service/src/content_service/services/content.py:163-197 | A generation makes an item of its text exactly when it is a post with a text and no item comes from it. |
| ContentProofs.DeletionOpensExactly | content-service/src/content_service/services/content.py:199-215 | With one item per generation, deleting the generation removes that item exactly when it is there and unpublished. |
| ContentProofs.HistoryIsGapFree | content-service/src/content_service/services/content.py:275-286 | In a sound history the snapshots are versions 1 to n, and each follows its predecessor as the status rules allow. |
| ContentProofs.CommitKeepsOk | content-service/src/content_service/services/content.py:67-138 | A commit keeps every history sound and leaves a published item alone unless it deletes it. |
| ContentProofs.RunKeepsInv | content-service/src/content_service/services/content.py:67-241 | Under every interleaving with crashes, each item's snapshots are exactly versions 1 to its current one and the last equals the item. |
| ContentProofs.PublishedRepeatsApprovedDraft | content-service/src/content_service/services/content.py:217-241 | The last three snapshots of a published item are draft, approved and published with the same title, body and image. |
| ContentProofs.PublishedIsFinal | content-service/src/content_service/services/content.py:90-119 | A step leaves a published item and its history unchanged if and only if it does not commit a delete of it. |
| ContentProofs.LateDeleteReadEarlier | content-service/src/content_service/services/content.py:110-117 | Such a delete read the item at an earlier, unpublished version. |
| ContentProofs.AlonePublishedIsFinal | content-service/src/content_service/services/content.py:67-241 | Requests that run one at a time never change or remove a published item. |
| ContentProofs.PublishedStays | content-service/src/content_service/services/content.py:67-241 | Over a whole run in which no such delete commits, a published item and its history stay as they are. |
| ContentProofs.LateDeleteRemovesPublished | content-service/src/content_service/services/content.py:110-117 | A reachable run in which a delete that read a draft removes the published item. |
| ContentProofs.SourcesStayUniqueExactly | content-service/src/content_service/services/content.py:175-195 | A step keeps one item per generation if and only if it is not an insert overtaken by another item of that generation, made after the inserting delivery looked. |
| ContentProofs.RunKeepsSourcesExactly | content-service/src/content_service/services/content.py:175-195 | Over every interleaved run each generation has at most one item at every moment if and only if no delivery was overtaken. |
| ContentProofs.AloneKeepsSourcesUnique | content-service/src/content_service/services/content.py:163-195 | Handled one at a time, any number of deliveries of a generation make at most one item. |
| ContentProofs.TwoDeliveriesMakeTwoItems | content-service/src/content_service/services/content.py:175-195 | A reachable run in which two overlapping deliveries make two items. |
| ContentServices.ContentService.Create | content-service/src/content_service/services/content.py:67-84 | Stores the given text as a draft of the caller at version 1 with its snapshot; nothing else changes; invariant kept. |
| ContentServices.ContentService.Update | content-service/src/content_service/services/content.py:90-108 | Succeeds exactly for an unpublished item the caller may touch; each field is the given value or the one before, the item is a draft with the next version and one snapshot of it; nothing else changes; invariant kept. |
| ContentServices.ContentService.AttachImage | content-service/src/content_service/services/content.py:131-138 | Sets the two image fields, keeps title and body, and makes a draft of the next version. |
| ContentServices.ContentService.Transition | content-service/src/content_service/services/content.py:217-241 | Approves exactly drafts and publishes exactly approved items that the caller may touch; only status and version move, with a snapshot. |
| ContentServices.ContentService.PublishItem | content-service/src/content_service/services/content.py:124-129 | Without the permission it is refused before anything else is looked at; with it, exactly approved items are published. |
| ContentServices.ContentService.DeleteItem | content-service/src/content_service/services/content.py:110-119 | Removes exactly an unpublished item that the caller may touch, with its snapshots; other histories stay. |
| ContentServices.ContentService.HandleGenerationCompleted | content-service/src/content_service/services/content.py:163-197 | Makes a draft with the given text from a post unless the text is empty or an item comes from that generation. |
| ContentServices.ContentService.HandleGenerationDeleted | content-service/src/content_service/services/content.py:199-215 | With one item per generation, removes exactly the unpublished item of that generation. |
| RefreshTokens.RevokeAll | auth-service/src/auth_service/services/password_reset.py:97-101 | The bulk update revokes exactly the user's unrevoked rows and nothing else. |
| RefreshTokens.StepKeepsChained | auth-service/src/auth_service/services/auth.py:142-236 | Every operation keeps links pointing to later rows of the same user, from revoked rows only, no two to one row. |
| RefreshTokens.ChainsAreSimple | auth-service/src/auth_service/services/auth.py:142-182 | In every run the links are acyclic and only the end of a chain can be unrevoked. |
| RefreshTokens.ChainsNeverMerge | auth-service/src/auth_service/services/auth.py:178-180 | If two rows lead to the same row, one of them lies on the way from the other. |
| RefreshTokens.RevokedRowsAreFinal | auth-service/src/auth_service/services/auth.py:147-158 | A revoked row never changes again and is never exchanged in any later run. |
| RefreshTokens.NewTokensExactly | auth-service/src/auth_service/services/auth.py:101-219 | A token is added exactly by a login or by exchanging a usable token of an active user; it belongs to that user and is usable until exactly its own deadline, and the exchanged one never again. |
| RefreshTokens.TokenLivesExactly | auth-service/src/auth_service/services/auth.py:142-236 | After every run a token is usable exactly before its deadline and if it was not exchanged, logged out or ended by a reset of its user. |
| RefreshTokens.ExchangedAtMostOnce | auth-service/src/auth_service/services/auth.py:142-182 | Over every run a token was exchanged exactly once if its row names a replacement and never otherwise. |
| RefreshTokens.ResetEndsOldChains | auth-service/src/auth_service/services/password_reset.py:72-104 | After a password reset no earlier row of the user is exchanged or changes, and chains of such rows gain no new row. |
| Sessions.StoreKeepsCoverExactly | auth-service/src/auth_service/services/redis.py:60-64 | Storing a session keeps the index complete if and only if its deadline is not before that of another live session of the user. |
| Sessions.RevokeUserExactly | auth-service/src/auth_service/services/redis.py:73-81 | Revoking a user leaves no active session of the user if and only if the live index held them all. |
| Sessions.RunKeepsCoverExactly | auth-service/src/auth_service/services/redis.py:43-81 | The index is complete at every moment of a run if and only if no login set an earlier deadline. |
| Sessions.BackendsAgree | auth-service/src/auth_service/services/redis.py:121-142 | In every such run Redis and the in-memory store call the same sessions active, and after a reset exactly the other users' sessions are. |
| Sessions.OthersKeepSessions | auth-service/src/auth_service/services/redis.py:69-81 | In every run, whatever the deadlines, a reset or logout of one user takes no session from another. |
| Sessions.ShorterSessionHidesLonger | auth-service/src/auth_service/services/redis.py:60-64 | A run in which a shorter second session makes the reset miss the first. |
| Sessions.EscapesExactly | auth-service/src/auth_service/services/redis.py:73-81 | A session stored around the three commands of a revocation escapes every further one if and only if it falls between reading and deleting the index. |
| AuthServices.RedisService.StoreSession | auth-service/src/auth_service/services/redis.py:43-64 | The session is active, and listed for its user, until exactly its lifetime has passed; others are untouched; a complete index stays complete if and only if no other live session has a later deadline. |
| AuthServices.RedisService.RevokeSession | auth-service/src/auth_service/services/redis.py:69-71 | The session is never active again nor listed; others are untouched; a complete index stays complete. |
| AuthServices.RedisService.RevokeUserSessions | auth-service/src/auth_service/services/redis.py:73-81 | Ends exactly the sessions in the user's live index; with a complete index no session of the user stays active. |
| AuthServices.InMemoryRedisService.RevokeUserSessions | auth-service/src/auth_service/services/redis.py:141-142 | Keeps exactly the other users' sessions. |
| AuthServices.AuthService.Login | auth-service/src/auth_service/services/auth.py:101-140 | A verified login adds one refresh row usable until exactly its deadline and one session active for exactly its lifetime; a failed one changes neither. |
| AuthServices.AuthService.Refresh | auth-service/src/auth_service/services/auth.py:142-182 | Succeeds exactly for a present, unrevoked, unexpired row of an active user; the replacement is that user's and usable until exactly the new deadline, the old row never again, other rows stay. |
| AuthServices.AuthService.SwitchAccount | auth-service/src/auth_service/services/auth.py:184-219 | Succeeds exactly with an active session, a membership and an active user; replaces the session and adds a refresh row usable until exactly its deadline. |
| AuthServices.AuthService.Logout | auth-service/src/auth_service/services/auth.py:221-236 | With matching tokens neither the refresh row nor the session can be used afterwards; no other row or session changes. |
| AuthServices.AuthService.ResetPassword | auth-service/src/auth_service/services/password_reset.py:93-104 | Afterwards no refresh row of the user is usable and, with a complete index, no session of the user is active; other users' rows stay. |

## Left out

- Row-level anomalies of the credits, billing and auth transactions below serialisable isolation.
- The messages published after a commit (`_balance_events`, content and user events) and the notification service, whose consumer drops the event id.
- The messages on the `ai:generation` channel, which repeat those of the stream channel and add a notice before each retry.
- Listing order, transaction history, descriptions, currencies, token counts, costs and timestamps that no decision reads.
- JSON, UTF-8 decoding and the HTTP layer; payload encodings enter as a pair of functions that invert each other.
- SQL, Redis and RabbitMQ beyond transactions, unique keys, row locks, key deadlines and at-least-once delivery; the model lets any queue be reordered.
- The back-off of the outbox publisher's run loop. Rows with equal `created_at` are taken in the order of their commits, where the query leaves the order open.
- Webhook fields that leave no trace in the outbox, and the plan lookup by price id: the plan found is an input, in lower case.
- Password hashing, token signing, one-time codes, login failure counters, sign-up and email verification.
- The processed-event table of the content service. A repeated generation event is stopped by the source check, which is modelled, while the item exists; after the item was deleted only that table stops it.
- The title cut from a prompt (its first line, at most 120 characters) is an input.
- The services for tenants, usage, scheduling, scraping, social publishing and administration.
- GrantProofs.RefundsCancelExactly: speaks of refund events that name their refund. One that does not changes no balance: before the grant it is recorded as processed, after it it is an error.
- Sse.ReadSseEvents: yields its events at the end as one sequence, because methods here return once; the order is kept.
- SseStream.Stream: takes what each wait meets as an input; which inputs the subscription can produce is said by `SseStream.Meets`. Without Redis messages wait in a queue, so no prefix is missed there.
- Generation.GenerationService.RunJob: a failure of `_mark_streaming`, `_fail` or a Redis publish is not modelled.
- RateLimitServices.RateLimiter.Check: is written over the list form; the script gives the same answers by `RateLimitAgree.LimitersAgree` as long as members are distinct.
- AuthServices.AuthService.Login: a refused login is one error here; the limit on failed attempts is not modelled.
- AuthServices.AuthService.SwitchAccount: every refusal of the tenant service (403, 502, 503) is one error.
- AuthServices.AuthService.Logout: requires that the refresh token's signed user is the user of its row, which signing ensures.
- ContentServices.ContentService.Create: and the other methods of this class run one at a time; interleaving is the subject of ContentProofs.
