# Verified model of the back office

Dafny models of the parts of this back office whose correctness depends on order, repetition, concurrency or encoding,
with proofs of what they keep. `dafny verify dfyconfig.toml` checks everything.

## What is modelled

**The orders revenue pipeline.** `Lifecycle` is the status table, and the fulfilment it amounts to. `Orders` is the
writing side as a state machine: any number of transactions, one statement per step, over the `orders`, `order_events`
and `outbox` tables, with row locks, sequences that never roll back and reads of committed rows only. `OrderItems` and
`OrderService` are the order service's own methods, statement by statement on a mutable store that can fail at every
statement and lose the answer of a commit; `OrderRequests` is what each request does, accepted or refused, and why any
requests served one after another are a run of that machine; `StoredOrders` is what a taken order then holds and which
requests are taken. `Publishing` and `Publisher` are the outbox publisher and the stream: sends that are stored late,
again or never, confirmations and marks that get lost, a drain that stops at the first failure. `Projection`,
`Conservation` and `Reporting` are the projector: `Apply` as a transaction over `processed_events`, `revenue_by_day`
and `recognised_orders` that can break at every statement. `Pipeline` joins all of them in one machine, with
redelivery, lost acknowledgements, stale handlers and refusals; `Guarantees` holds the theorems about every reachable
state, `Overflow` the exact condition under which the pipeline can drain, `ReportDays` the drained report read off the
outbox rows and their instants alone, and `Reports` the figures read from it, with the run of `CancelledRevenue` in
which two of them disagree.

**The last administrator.** `Identity` specifies staff and role calls, `StaffLog` says what they leave as a log of
what was asked, `IdentityService` is the two services over a mutable store, and `AdminGuard` is the interleaved
version: reads, shared advisory lock, count and commit of any number of transactions, each of which alone is the
service's call (`AdminAlone`). `AdminRaces` holds the runs that mark its limit, and that the limit is exact.

**Session freshness.** `Session` is the gateway's cache, validator and principal signing over a clock, with
overlapping calls to identity; `CacheLife` is how long an answer is served. `Lockout` joins it to the staff, role and
session tables of identity.

**Encodings.** `Search` (ILIKE terms, with the matching of section 9.7.1 of the PostgreSQL documentation), `Money`
(the price field), `OrderNumbers`, and beneath them `Decimal` and `Doubles` (double-precision rounding).

Objects the source updates in place are classes here. Each of their methods is proved equal to a specification
function of the old state, and the theorems about those functions say what they mean without them. `Options` and
`Sums` are shared vocabulary.

## Assumptions

- Tables, keys, defaults and CHECK constraints are those of `services/orders/migrations/000002_orders.up.sql`,
  `000003_outbox.up.sql` and `000004_reporting.up.sql` beside it, and
  `services/identity/migrations/000002_identity.up.sql`. `BIGSERIAL` keys come from increasing sequences.
- Transactions are READ COMMITTED and a row lock lasts to the end of its transaction. Event ids
  (`services/orders/internal/outbox/outbox.go:62-65`) are fresh.
- One worker runs the publisher and the projector (`services/orders/cmd/worker/main.go:4`). The consumer has at most
  one unacknowledged message and the stream discards nothing (`services/orders/internal/natsx/natsx.go:39-64`).
- JSON, base64 and the header encodings lose nothing; SHA-256 has no collisions and nobody else can authenticate under
  the principal key. The gateway, identity and the verifying services read the same clock.
- An e-mail address stands for its case-folded form (`CITEXT`).

## Where the code and its comments differ

The model follows the code.

- `services/orders/internal/outbox/queries.go:3-4` says outbox ids follow commit order. Across orders they do not
  (`Orders.IdOrderIsNotCommitOrder`); for each order they do (`Orders.CommitAppends`), and `Projection.Confluence` is
  why that is enough.
- `services/identity/internal/staff/postgres.go:47-48` says a guard's read and the write it protects cannot be
  interleaved with another caller's. Transactions are not serializable, and reads before the advisory lock can:
  `AdminRaces.MovesAreNotCovered` is a run that leaves no administrator. `AdminGuard.AdminSurvivesDemotions` is what
  does hold, and `AdminRaces.SafeExactly` that no further kind of call can be added to it.
- `services/gateway/internal/config/config.go:23-24` gives the cache's time to live as how long a revoked session can
  be honoured. The principal's own time to live and the call to identity come on top: `Session.RevocationLatency` is
  the bound and `Session.BoundIsTight` shows that it is reached.
- `services/orders/internal/customer/queries.go:34-37` says cancelled money went back; the projection keeps it as
  revenue. `CancelledRevenue.CancelledStaysRevenue` is a run in which it does; `Reports.CrossReport` states the
  difference and `Reports.ReportsAgreeExactly` when there is none.
- `services/orders/internal/reporting/projector.go:68-75` retries whatever it cannot apply. An event whose total would
  overflow its column is refused at every delivery, and everything behind it waits (`Overflow.StuckForEver`);
  `Overflow.CanGetStuck` is a run to such a state with every order in range. It is the only way the pipeline stops: it
  can drain exactly when the report rows of the committed orders fit their columns (`Overflow.DrainsExactly`, in
  numbers `ReportDays.DrainsWithin`).

## Model

| member | source | states |
|---|---|---|
| `Lifecycle.LifecycleBounded` | services/orders/internal/order/lifecycle.go:6-14 | every path makes at most five transitions, never revisits a status, and five are possible |
| `Lifecycle.Absorbing` | services/orders/internal/order/lifecycle.go:3-14 | cancelled and refunded end a path, and they are the only statuses with no way on |
| `Lifecycle.PaidFirst` | services/orders/internal/order/lifecycle.go:23-28 | whatever holds or returns money was paid in the first transition, and paid occurs once |
| `Lifecycle.PathsAreStepByStep` | services/orders/internal/order/lifecycle.go:6-14 | the paths of the table are exactly the fulfilment steps in order, none left out, ended if at all by a cancellation before shipping or a refund after payment |
| `Projection.DayIsUtcDate` | services/orders/internal/reporting/reporting.go:55-59 | a day is the 86400 seconds from its midnight, before the epoch too |
| `Projection.ProjectIsCrediting` | services/orders/internal/reporting/postgres.go:57-112 | an event counts under the day its instant falls on and its own currency, a refund under the row the ledger has, and the tables change in nothing else: that determines the projection |
| `Projection.RevenueIsLocal` | services/orders/internal/reporting/postgres.go:57-112 | what an event does to a revenue row depends on the tables only through its own order's ledger row |
| `Projection.LedgerIsLocal` | services/orders/internal/reporting/postgres.go:78-112 | an event moves its own order's ledger row and no other |
| `Projection.RevenueDecomposes` | services/orders/internal/reporting/queries.go:5-25 | every revenue cell is the sum over orders of what that order's events alone would have put there |
| `Projection.RowsDecompose` | services/orders/internal/reporting/queries.go:5-18 | a revenue row exists exactly when some order alone would have created it |
| `Projection.Confluence` | services/orders/internal/reporting/postgres.go:57-112 | two event sequences that agree per order leave identical tables, legal histories or not |
| `Conservation.ConservationLaw` | services/orders/internal/reporting/queries.go:9-25 | for any events: recognised minus refunded equals the ledger under the key plus what was recognised while already ledgered |
| `Conservation.LegalFigures` | services/orders/internal/reporting/postgres.go:78-112 | replaying one lawful history gives the closed form of each cell, and a ledger row exactly if paid and not refunded |
| `Conservation.LawfulConservation` | services/orders/internal/reporting/postgres.go:78-86 | the totals equal the ledger because the lifecycle lets an order be paid once |
| `Reporting.ReportingStore.UpsertRevenue` | services/orders/internal/reporting/queries.go:5-18 | inserts the row or adds to it, and writes nothing when a count would leave 32 bits or a sum 64 |
| `Reporting.ReportingStore.InsertRecognisedOrder` | services/orders/internal/reporting/queries.go:20-22 | does nothing on conflict |
| `Reporting.ReportingStore.TakeRecognisedOrder` | services/orders/internal/reporting/queries.go:24-25 | deletes the ledger row and returns it |
| `Reporting.ReportingStore.ReverseOrder` | services/orders/internal/reporting/postgres.go:96-112 | credits the day of recognition, and is no error for an order with nothing recognised |
| `Reporting.ReportingStore.ProjectEvent` | services/orders/internal/reporting/postgres.go:57-94 | succeeds exactly when the payload parses and the columns hold the sums, and then credits the day the event occurred on, and nothing else, as `Projection.ProjectIsCrediting` determines |
| `Reporting.ReportingStore.Apply` | services/orders/internal/reporting/postgres.go:34-55 | the transaction with its duplicates, failures at every statement and rollbacks; an answer of true means the event was credited to the day it occurred on |
| `Reporting.Projector.HandleMessage` | services/orders/internal/reporting/projector.go:49-77 | new tables and verdict of one delivery |
| `Reporting.ExactlyOnce` | services/orders/internal/reporting/postgres.go:28-55 | after any deliveries with any failures the figures fold distinct events, exactly those marked processed |
| `Reporting.AppliedAtMostOnce` | services/orders/internal/reporting/postgres.go:31-55 | Apply never answers true after a success for the same id, and an error leaves no mark unless the commit's answer was lost |
| `Reporting.FirstOccurrencesTakeEffect` | services/orders/internal/reporting/postgres.go:34-55 | without failures the effective events are the first occurrences |
| `Reporting.TrueOnFirstDelivery` | services/orders/internal/reporting/postgres.go:31-55 | without failures Apply answers true exactly on an id's first delivery |
| `Decimal.ParseIntReads` | services/orders/internal/order/service.go:263-266 | a product id is numeric exactly when it is a base-ten numeral of a 64-bit integer, signs and leading zeros allowed |
| `Decimal.IntRoundTrip` | services/orders/internal/reporting/postgres.go:74-77 | an order id written in decimal into an envelope is parsed back, over all 64-bit integers |
| `Orders.HistoryConsistent` | services/orders/internal/order/service.go:137-170 | in every interleaving an order's events form a table path from creation to the status column, with one matching envelope each |
| `Orders.OrderLifetime` | services/orders/internal/order/lifecycle.go:3-28 | in every interleaving no order has more than six events, repeats a status, is refunded unpaid or moves after cancelled or refunded |
| `Orders.FulfilledStepByStep` | services/orders/internal/order/service.go:137-155 | in every interleaving a delivered order was paid, packed and shipped, in that order and with nothing else before, and so for each step |
| `Orders.RowsAreDated` | services/orders/internal/outbox/outbox.go:67-90 | in every run an envelope bears the id and the instant its transaction gave it |
| `Orders.CommitAppends` | services/orders/internal/order/queries.go:33-36 | a commit puts its event and envelope last of its order and disturbs no other order, though keys were drawn earlier |
| `Orders.IdOrderIsNotCommitOrder` | services/orders/internal/outbox/queries.go:3-6 | a reachable state in which key 1 is visible and key 0 commits later |
| `OrderItems.ValidateShape` | services/orders/internal/order/service.go:225-238 | refuses exactly an empty request or the first non-positive quantity |
| `OrderItems.IndexById` | services/orders/internal/order/service.go:244-247 | the index the response is matched through |
| `OrderItems.LookupKeepsLast` | services/orders/internal/order/service.go:244-247 | of products sharing an id the last one counts |
| `OrderItems.BuildItems` | services/orders/internal/order/service.go:240-280 | the loop computes the specified build, refusals included |
| `OrderItems.BuildMeans` | services/orders/internal/order/service.go:249-279 | built exactly when all lines are usable and currencies agree; every item is its own line's product; the total is the 64-bit sum |
| `OrderItems.RefusalMeans` | services/orders/internal/order/service.go:252-266 | a refusal names the first line that cannot be taken, and why |
| `OrderItems.OneCurrency` | services/orders/internal/order/service.go:257-261 | when products have currencies, every line is in the order's |
| `OrderItems.ResponseOrderIrrelevant` | services/orders/internal/order/service.go:240-247 | permuting a response with distinct ids changes nothing |
| `OrderService.OrderStore.Transition` | services/orders/internal/order/service.go:141-178 | answer and whole new state, keys drawn included, under every fault and with a lost commit |
| `OrderService.OrderStore.SetStatus` | services/orders/internal/order/service.go:113-122 | succeeds exactly for paid from pending, packed from paid, shipped from packed and delivered from shipped, when nothing fails; cancelled and refunded are refused with nothing changed |
| `OrderService.OrderStore.Cancel` | services/orders/internal/order/service.go:124-128 | that transition; it succeeds exactly from pending, paid and packed when nothing fails |
| `OrderService.OrderStore.Refund` | services/orders/internal/order/service.go:130-135 | that transition; it succeeds exactly from paid, packed, shipped and delivered when nothing fails |
| `OrderService.OrderStore.Write` | services/orders/internal/order/service.go:52-98 | answer and whole new state of the transaction, from its number to its commit, under every fault, with the currency as its column stores it |
| `OrderService.OrderStore.Create` | services/orders/internal/order/service.go:27-100 | answer and whole new state of every request, whatever the catalog answers and the store does; success exactly when the lines can be ordered, and then the stored lines are those asked for |
| `OrderRequests.NumberFresh` | services/orders/internal/order/service.go:53-64 | a number drawn from the sequence was never given out, so its UNIQUE constraint cannot fail |
| `OrderRequests.MoveAllOrNothing` | services/orders/internal/order/postgres.go:51-67 | a transition is written whole or not at all, succeeds exactly when allowed and nothing fails, names the reason when refused, and a refusal that wrote it is one whose commit was lost |
| `OrderRequests.MoveWrites` | services/orders/internal/order/service.go:141-170 | what a transition writes: the one status, and an event and an envelope that say from where to where, with the order's money |
| `OrderRequests.CreateAllOrNothing` | services/orders/internal/order/service.go:27-30 | so is a creation: no failure leaves a partial order |
| `OrderRequests.ServedAloneIsRun` | services/orders/internal/order/postgres.go:51-67 | any requests served one after another, accepted, refused or failing anywhere, are a run of the concurrent machine, and order numbers stay distinct |
| `StoredOrders.CreationAccepted` | services/orders/internal/order/service.go:31-49 | a creation succeeds exactly when nothing fails, the customer is known and every line can be ordered: active, numeric id, prices, quantity and currency its columns take, one currency, total in range |
| `StoredOrders.CreationWrites` | services/orders/internal/order/postgres.go:91-102 | then the order has one item row a line, with the title and price of the product the line names, its quantity and its line total, and the order's total is what the rows are worth; otherwise no order is written |
| `StoredOrders.CreationRefusals` | services/orders/internal/order/service.go:225-267 | every refusal is true of its request |
| `StoredOrders.OrdersAddUp` | services/orders/internal/order/service.go:268-279 | after any requests with any failures every order has item rows and they add up to its total |
| `StoredOrders.StoredCode` | services/orders/migrations/000002_orders.up.sql:23 | the column holds the code that differs only in spaces at its end, or refuses |
| `Publishing.PubStepKeeps` | services/orders/internal/outbox/publisher.go:54-93 | every publisher and broker step keeps per-order order in the stream and storage of what is marked |
| `Publishing.CommitKeepsPub` | services/orders/internal/outbox/queries.go:5-6 | a row committed during a batch, even below keys already read, breaks neither |
| `Publisher.Publisher.Publish` | services/orders/internal/outbox/publisher.go:71-93 | one row's publication under every outcome: marked exactly when confirmed and the mark is written, whether or not that is answered, and never without being in the stream |
| `Publisher.Publisher.Drain` | services/orders/internal/outbox/publisher.go:57-69 | the id-ordered batch, stopped by the first failure |
| `Publisher.DrainMarksPrefix` | services/orders/internal/outbox/publisher.go:54-69 | a drain marks a prefix of its batch, every marked row is stored, and the stream only grows |
| `Publisher.DrainIsRun` | services/orders/internal/outbox/publisher.go:57-93 | a drain with any failures is a run of the machine's publisher steps |
| `Publisher.RoundsEmptyTheOutbox` | services/orders/internal/outbox/publisher.go:57-69 | failure-free rounds empty n waiting rows after ceil(n / batch) rounds and not before |
| `Pipeline.DueEvent` | services/orders/internal/natsx/natsx.go:52-64 | when an unapplied stream position is handled, exactly its order's earlier events have been applied |
| `Pipeline.NextKeeps` | services/orders/internal/reporting/projector.go:49-77 | every step of the whole machine keeps its invariant |
| `Guarantees.EndToEnd` | services/orders/internal/reporting/postgres.go:28-112 | in every reachable state the report is the fold of distinct committed events that per order are a prefix of its history |
| `Guarantees.PerOrderFifo` | services/orders/internal/outbox/publisher.go:54-69 | in every run each copy of a later row stands behind a copy of every earlier row of its order |
| `Guarantees.LedgerAmount` | services/orders/internal/reporting/queries.go:20-22 | a ledger row carries its order's own total and currency |
| `Guarantees.Conserved` | services/orders/internal/reporting/postgres.go:78-89 | in every reachable state, per day and currency, recognised minus refunded is the ledger's sum and not negative |
| `Guarantees.DrainedAppliesAll` | services/orders/internal/reporting/projector.go:68-76 | once drained every order's whole history has been applied, once and in order |
| `Guarantees.DrainedIsAggregate` | services/orders/internal/reporting/queries.go:5-25 | once drained every cell is the aggregate computed from the committed orders |
| `Guarantees.DrainedLedger` | services/orders/internal/reporting/queries.go:20-25 | once drained the ledger holds exactly the orders paid and not refunded, under the day they were paid |
| `Guarantees.DrainedReportsAgree` | services/orders/internal/reporting/postgres.go:57-112 | two drained runs with the same histories report the same figures |
| `Guarantees.DrainReachable` | services/orders/internal/outbox/publisher.go:57-69 | the code's drain stays among the reachable states |
| `Guarantees.DrainLeads` | services/orders/internal/outbox/publisher.go:57-69 | because with any failures it is a run of the whole machine without order transactions |
| `Guarantees.CanDrain` | services/orders/internal/outbox/publisher.go:38-52 | from every reachable state a run without order transactions ends drained or at an event that does not fit its column |
| `Overflow.DrainsExactly` | services/orders/internal/reporting/queries.go:5-18 | from a reachable state a drained one can be reached without order transactions exactly when, for every day and currency, the committed orders' totals fit the columns |
| `Overflow.OverflowIsFinal` | services/orders/internal/reporting/projector.go:68-75 | once they do not, no run whatever, with later orders, payments and refunds, ends drained |
| `Overflow.StuckForEver` | services/orders/internal/reporting/projector.go:68-75 | an event that does not fit stays at the head, the same one in every run from there, and no figure changes again |
| `Overflow.CanGetStuck` | services/orders/migrations/000004_reporting.up.sql:8-16 | a reachable stuck state with two paid orders, each of 2^63 - 1 minor units |
| `ReportDays.DrainedReport` | services/orders/internal/reporting/postgres.go:57-89 | once drained each cell adds up the orders created, and those paid, on that very day in that currency, the latter's totals, and the totals of those refunded |
| `ReportDays.DrainedRows` | services/orders/internal/reporting/queries.go:5-18 | and the rows are exactly those of days and currencies with an order created or paid |
| `ReportDays.DrainedEntries` | services/orders/internal/reporting/queries.go:20-25 | and the ledger has exactly the orders paid and not refunded, each with its total under the day it was paid |
| `ReportDays.DrainsWithin` | services/orders/migrations/000004_reporting.up.sql:8-16 | draining is possible exactly while every day and currency has fewer than 2^31 orders created, fewer than 2^31 paid, and less than 2^63 minor units |
| `Reports.DashboardNetIsLedger` | services/orders/internal/reporting/service.go:63-71 | the dashboard shows every revenue row of its window once, with the money still recognised that day as its net, never negative |
| `Reports.LifetimeValueMinor` | services/orders/internal/customer/postgres.go:137-160 | fails exactly for a sum beyond 64 bits, else refuses exactly when there are live orders in two currencies, and otherwise counts all of them |
| `Reports.LifetimeResultExists` | services/orders/internal/customer/queries.go:38-40 | the grouped query has an answer on every state of the tables |
| `Reports.CrossReport` | services/orders/internal/customer/queries.go:34-40 | once drained net revenue is all lifetime values plus the orders cancelled after payment |
| `Reports.ReportsAgreeExactly` | services/orders/internal/customer/queries.go:34-40 | once drained, net revenue in a currency equals the lifetime values exactly when no order with a positive total was cancelled after payment |
| `CancelledRevenue.CancelledStaysRevenue` | services/orders/internal/reporting/postgres.go:78-89 | a drained run with one paid, then cancelled order: no lifetime value, one unit of net revenue |
| `Identity.ServeExact` | services/identity/internal/staff/service.go:48-78 | a call succeeds exactly when its subject exists and the unchecked write would keep keys, references, names and an administrator; then that is the write |
| `Identity.ServeKeepsAdmin` | services/identity/internal/role/service.go:45-85 | every call keeps an administrator, and a refused call changes no table |
| `Identity.AdminRemains` | services/identity/internal/staff/service.go:144-185 | after any sequence of calls somebody active has a role with edit_staff |
| `Identity.NamesStayUnique` | services/identity/internal/staff/postgres.go:110-127 | after any calls e-mail addresses and role names are unique |
| `Identity.StaffGuardExact` | services/identity/internal/staff/service.go:145-185 | the staff guard refuses exactly when the write would leave nobody |
| `Identity.RoleGuardExact` | services/identity/internal/role/service.go:122-141 | so does the role guard |
| `Identity.UpdateStaffUndone` | services/identity/internal/staff/queries.go:31-41 | an accepted update is taken back by the same call with the former columns, which is accepted too |
| `Identity.UpdateRoleUndone` | services/identity/internal/role/postgres.go:156-186 | so is an accepted update of a role |
| `Identity.DeactivationRevokes` | services/identity/internal/staff/service.go:67-71 | deactivation revokes that person's sessions and no others |
| `StaffLog.UpdateMeans` | services/identity/internal/staff/queries.go:31-41 | an accepted update gives each named column the value named and leaves the others, every other row, and all sessions but those of somebody it deactivates |
| `StaffLog.StaffIsLastSaid` | services/identity/internal/staff/postgres.go:94-127 | after any calls every column holds what the last accepted call that named it said, or what its member was created with |
| `StaffLog.RolesAreLastSaid` | services/identity/internal/role/postgres.go:135-200 | so do the name and permissions of every role, until it is deleted |
| `StaffLog.SessionsAreLogged` | services/identity/internal/staff/service.go:67-71 | a session is revoked by these calls exactly when its owner is deactivated |
| `StaffLog.RefusalsAreTrue` | services/identity/internal/staff/service.go:48-78 | every refusal names what is so: the missing row, the name or address in use, the unknown permission, the last administrator |
| `StaffLog.PermissionsStaySeeded` | services/identity/internal/role/service.go:143-150 | no role ever holds a permission but the eight seeded |
| `IdentityService.UniqueStrings` | services/identity/internal/role/postgres.go:86-96 | the first occurrences in order |
| `IdentityService.UniqueMeans` | services/identity/internal/role/postgres.go:86-96 | which are the same names, each once |
| `IdentityService.UniqueInOrder` | services/identity/internal/role/postgres.go:86-96 | and in the order in which they first occur |
| `IdentityService.IdentityStore.LockActiveEditStaffExcluding` | services/identity/internal/staff/postgres.go:65-87 | counts the other holders |
| `IdentityService.IdentityStore.LockActiveStaffWithEditStaffOutsideRole` | services/identity/internal/role/postgres.go:46-68 | counts the holders through other roles |
| `IdentityService.IdentityStore.GuardLastAdmin` | services/identity/internal/staff/service.go:145-185 | computes the staff guard |
| `IdentityService.IdentityStore.UpdateStaffMember` | services/identity/internal/staff/service.go:49-78 | guard, constraints, write, revocation; accepted, each named column has the value named and nothing else moved |
| `IdentityService.IdentityStore.Deactivate` | services/identity/internal/staff/service.go:80-85 | an update to inactive, after which the person holds nothing |
| `IdentityService.IdentityStore.CreateStaffMember` | services/identity/internal/staff/postgres.go:94-108 | an active row under a fresh id, or the constraint that failed |
| `IdentityService.IdentityStore.InsertRolePermissions` | services/identity/internal/role/postgres.go:70-84 | reports a mismatch exactly for unknown names, and otherwise writes the set |
| `IdentityService.IdentityStore.CreateNamedRole` | services/identity/internal/role/service.go:21-43 | a role with the named permissions, and no mismatch after validation |
| `IdentityService.IdentityStore.GuardLastAdminOfRole` | services/identity/internal/role/service.go:122-141 | computes the role guard |
| `IdentityService.IdentityStore.UpdateNamedRole` | services/identity/internal/role/service.go:45-75 | validation, guard, constraints, write |
| `IdentityService.IdentityStore.DeleteNamedRole` | services/identity/internal/role/postgres.go:188-200 | removes a role nobody has |
| `AdminGuard.CommitOnlyLoses` | services/identity/internal/role/queries.go:59-70 | a demotion's commit creates no holder, moves none, and spares everyone its guard counted |
| `AdminGuard.AdminSurvivesDemotions` | services/identity/internal/staff/queries.go:65-69 | in every interleaving of any calls that give nobody edit_staff, demotions of staff and roles among them, an administrator remains after every step |
| `AdminAlone.StaffAlone` | services/identity/internal/staff/service.go:145-185 | a lone staff transaction of the interleaved version writes, or refuses to, as the service's call does |
| `AdminAlone.RoleAlone` | services/identity/internal/role/service.go:122-141 | so does a lone change of a role's permissions |
| `AdminRaces.MovesAreNotCovered` | services/identity/internal/staff/service.go:165-175 | a run with one move between roles that hold edit_staff and one strip leaves nobody |
| `AdminRaces.ActivationsAreNotCovered` | services/identity/internal/staff/service.go:153-155 | a run with one activation, of somebody active when it is asked for, leaves nobody |
| `AdminRaces.GrantsAreNotCovered` | services/identity/internal/role/service.go:125-131 | a run with one grant, of what the role holds when it is asked for, leaves nobody |
| `AdminRaces.NewRolesAreNotCovered` | services/identity/internal/role/service.go:125-131 | a run with one new role that holds edit_staff leaves nobody |
| `AdminRaces.SafeExactly` | services/identity/internal/role/queries.go:67-70 | beside demotions, hiring and edits, a set of further kinds of calls keeps an administrator in every run exactly when it is empty |
| `Session.VerifyInvertsSign` | platform/principal/verify.go:19-52 | accepted exactly what was signed with the key, until it expires |
| `Session.Validator.Resolve` | services/gateway/internal/auth/auth.go:60-81 | one request to the validator; over sequences of them `CacheLife.GivenByLastAnswer` says what each is given |
| `CacheLife.GivenByLastAnswer` | services/gateway/internal/auth/auth.go:60-81 | over any requests each is answered as identity last answered for its token while the time to live lasts, then as identity answers now, and stamped with its own time |
| `CacheLife.ServedUntilExpiry` | services/gateway/internal/auth/cache.go:27-43 | in every run an answer is hit, with its fields and without a call, exactly until its time to live is over or the next comes |
| `CacheLife.NoHitUnanswered` | services/gateway/internal/auth/cache.go:27-36 | and without an answer about a token there is no hit |
| `CacheLife.CallIsRun` | services/gateway/internal/auth/auth.go:62-81 | a request that asks identity is a run of the machine that leaves the same cache and principal |
| `Session.AcceptedIsFresh` | services/gateway/internal/auth/auth.go:60-81 | an accepted principal was issued, and identity vouched for exactly its fields within the three budgets |
| `Session.RevocationLatency` | platform/principal/verify.go:47-49 | a budget after identity's last answer for a token nothing signed for it is accepted |
| `Session.BoundIsTight` | services/gateway/internal/config/config.go:18-25 | for every configuration a run accepts on an answer exactly one budget old |
| `Lockout.AcceptedWasTrue` | services/identity/internal/session/queries.go:27-32 | whoever an accepted principal names was, within the budget, active, signed in with a session not revoked, and held exactly the permissions it carries |
| `Lockout.DeactivatedIsLockedOut` | services/identity/internal/staff/service.go:67-71 | a budget after a deactivation a principal of the person is accepted only if they were activated again since, and then only for a session opened since |
| `Lockout.SignedInIsLetIn` | services/gateway/internal/auth/auth.go:62-81 | whoever is active and signs in is let in, with their own id and exactly the permissions of their role |
| `Search.EscapeWellFormed` | services/orders/internal/customer/postgres.go:128-135 | no escaped term leaves an escape dangling |
| `Search.PatternMeansSubstring` | services/orders/internal/customer/postgres.go:125-135 | only the empty term has no pattern, and a pattern matches exactly the strings containing its term |
| `Search.SearchMeansSubstring` | services/identity/internal/staff/postgres.go:197-207 | a search finds exactly the rows containing the term, up to any case fold, also one that turns a character into several; the empty term finds all |
| `Search.EscapeRoundTrip` | services/identity/internal/role/postgres.go:264-271 | the escaped term determines the term |
| `Money.ParseMoneyReads` | apps/web/src/api/money.ts:16-24 | an input is accepted as an amount exactly when it is a decimal numeral of the currency for that amount with white space around it |
| `Money.ParseMoneyIsExact` | apps/web/src/api/money.ts:16-24 | a decimal numeral is accepted exactly when the currency has its decimals, and the result is its exact value in minor units |
| `Money.ParseMoneyIsSafe` | apps/web/src/api/money.ts:22-23 | computed in doubles the result is the exact value when that is a safe integer, and no safe integer otherwise |
| `Money.ParseMoneyAccepts` | apps/web/src/api/money.ts:18-21 | nothing but decimal numerals is accepted |
| `Money.MoneyRoundTrip` | apps/web/src/api/money.ts:26-31 | what is printed for an amount has all the currency's decimals and no zero too many in front, and is parsed back as that amount |
| `Money.DivisionIsHarmless` | apps/web/src/api/money.ts:29-30 | the floor of the double nearest to the quotient of a safe integer is the true quotient |
| `OrderNumbers.OrderNumberRoundTrip` | services/orders/internal/order/order.go:108-113 | a printed number parses back to its year and sequence value, past six digits too |
| `OrderNumbers.OrderNumbersDistinct` | services/orders/internal/order/order.go:108-113 | numbers are equal exactly when year and sequence value are |

## Left out

- AdminGuard.AdminSurvivesDemotions: excludes calls that may give edit_staff, because for each kind of them a run that leaves nobody is proved in `AdminRaces`, even where the call changes nothing at the time it is made (`AdminRaces.SafeExactly`). All calls one at a time are `Identity.AdminRemains`.
- Money.ParseMoneyIsExact: is about exact arithmetic; what doubles make of it is `Money.ParseMoneyIsSafe`.
- Money.DivisionIsHarmless: does not bound a double's exponent, which no price comes near.
- OrderNumbers.OrderNumberRoundTrip: does not model negative sequence values or years, which the sequence and the clock do not produce.
- Search.SearchMeansSubstring: folds every character by itself; a locale whose folding looks at neighbouring characters is not modelled.
- Session.AcceptedIsFresh: takes the local steps of one resolution as instantaneous; the call to identity itself takes time and can overlap others.
- Session.BoundIsTight: reaches the bound at the exact instants where both expiry checks still let through; a clock that never shows them stays below it.
- Guarantees.CanDrain: says that draining remains possible, not that schedulers and brokers get around to it.
- OrderService.OrderStore.Create: does not tell the errors of a failing store apart.
- Identity.DeactivationRevokes: does not model session expiry, passwords or the one-time password of a new account.
- Lockout.AcceptedWasTrue: does not track whether the password must be changed.
- The stream's duplicate window is not timed: a repeated send may be stored again at any moment, which includes every window.
- The purge of published outbox rows, should one be added, and limits on the stream's size or age.
- Actor ids, reasons, trace parents, subjects and timestamps other than an event's.
- Listing events by time and then id: transaction start times need not follow commit order.
- Catalog products, full-text ranking, image storage and the paging and sorting of lists: little state.
- HTTP handlers, routing, configuration, error mapping, metrics, tracing and logging; the rate limiter, the reverse proxy and fault injection.
- React components, generated API types and the floating-point display of money.
- PostgreSQL, NATS, bcrypt and HMAC internals, beyond the assumptions above.
