# Verified models of a trade-finance platform

Dafny models of the parts of the platform whose guarantees run across several methods and whole histories,
with proofs of those guarantees. Each service that changes stored rows is a class whose fields are its tables;
every method is proved equal to a function on the tables before the call, and the theorems are about any
sequence of those functions. Times are integers, money and rates are exact reals.

| files | what they model |
|---|---|
| `SlaDeadline`, `SlaEngine`, `SlaRuns`, `SlaStory`, `SlaRaces` | deadlines in hours, days and working days; starting, resolving and breaching SLA timers by request, by message and by cron, with stale scans, duplicated messages and crashes; starts and resolves whose two halves are apart |
| `InvoiceTotals`, `InvoiceAmounts` | invoice lines, tax groups and header totals, rounded at every step, and how they compare with quantities, prices and percentages |
| `InvoiceService`, `InvoiceRuns`, `InvoiceHistory`, `InvoiceStory`, `InvoiceParties`, `InvoiceRaces` | creating invoices with their organizations and relationships, the status lifecycle and the event history it leaves; status moves whose two halves are apart |
| `GraphProjection`, `GraphMessages`, `GraphAgreement`, `GraphRuns`, `GraphCompanies` | the knowledge graph's view of invoices, kept up to date by events and rebuilt from the table, all while the directory goes on changing |
| `GraphPipeline`, `GraphInOrder`, `GraphFailures` | the whole way of an invoice event from the directory over its outbox, the relay and the log to the graph, with failed emissions, crashes of the graph and events that overtake each other |
| `RefreshTokens`, `TokenRuns`, `TokenStory`, `TokenRaces` | refresh token rotation, replay detection, logout and cleanup, the scheme of section 4.14.2 of RFC 9700; refreshes whose two halves are apart |
| `RateCards`, `RateCardRuns`, `RateCardStory`, `RateCardAudit` | products, versioned rate cards, bespoke products and the assignments copied from published cards |
| `OutboxRelay`, `OutboxRuns`, `OutboxStory` | the transactional outbox and the relay that empties it in batches of fifty |
| `TemplateRenderer`, `TemplateValues`, `TemplateMeaning`, `TemplateSegments`, `TemplateProducts` | the two-pass template renderer |
| `Wrappers`, `Ids` | `Option`; lists of ids |

The modules named `...Runs` say what every history keeps, those named `...Story` what its rows tell of the requests
that wrote them, and those named `...Races` what happens when the reading and the writing half of a request are apart.

`dafny verify dfyconfig.toml` checks everything.

## Where the code and its intent part

For each of these there is a lemma with an input that fails and one that says exactly when the intended property holds.

* The loop that counts working days stops after 2000 days. Windows of up to 1428 working days, less the excluded
  weekdays ahead, never meet that guard; from a Friday a window of 1429 is cut short even with an empty calendar
  (`SafeWindowIsSharp`, `GuardBitesIff`). No upper bound is placed on a template's window.
* The comment on deadlines says that region-specific days apply only to timers of that region. In the code a timer
  without a region is held up by the days of every region: a one-day timer started on a Friday is due on the Tuesday
  when some region has a holiday on the Monday (`ForeignHolidayDelays`). Such a timer is on time if and only if no
  weekday up to its deadline is excluded in any region (`RegionlessIsOnTimeIff`), and naming a region can only bring a
  deadline forward (`RegionNeverLater`).
* A resolve reads the timer and saves it later. If the timer is breached in between, it ends RESOLVED with a breach
  event (`BreachThenResolve`); if it is resolved in between, the second resolve overwrites the first
  (`SecondResolveOverwrites`). `LateResolveIff` says exactly when neither happens.
* A start promises to return a running timer of its key. Of several starts that all looked before any of them inserted,
  the first succeeds and the others fail on the unique index (`OnlyTheFirstStarts`). A late start fails if and only if
  its key got a running timer in between (`LateStartIff`).
* A status move reads the invoice before its transaction and saves it whole. Two moves that read the same status are
  both written, and both events are published (`SecondMoveBreaksHistory`). A late move keeps the history if and only if
  the invoice has the status that was read (`LateMoveIff`).
* A trade relationship is looked up per funder but is unique per pair of organizations. Once one funder's invoice has
  linked a pair, every invoice of another funder for that pair is refused for good, unless the caller names a
  relationship (`SecondFunderIsRefused`, `EnsureFailsIffPairOfOtherFunder`, `OtherFundersStayLockedOut`).
* A rebuild of the graph reads the invoices once and writes them one by one. A row that changes in between, and whose
  last event arrives before the write, stays in the graph as it was (`RebuildCanGoBack`); every other write leaves the
  final agreement alone (`WriteAgreesIff`, `StaleRowIff`). Until then it may still show an invoice older than an event
  that has arrived (`HarmlessCanGoBack`), unless no event published after the read has arrived, or what was read has
  been published again (`WriteIsCurrentIff`).
* The topic of the invoice events has two partitions and the relay gives its messages no key, so the graph may take
  the events of one invoice in another order than they were published, and then stays behind until the invoice moves
  again (`OvertakingGoesBack`). An event whose emission fails is not tried again (`FailedMoveIsNotShown`). At every
  moment the graph equals a rebuild if and only if of each invoice the event written last carries the row's status
  (`GraphEqualsRebuildIff`); in order and at rest, if and only if the newest emitted one does (`FailuresDecide`).
* When a revoked refresh token is replayed, the family that is revoked is that of whichever revoked row of the person
  is listed first. With two open sessions, replaying a token of one may end only the other
  (`ReuseCanEndTheOtherSession`, `ReuseEndsSessionIff`).
* A refresh token holds nothing but a person, an organization and the second of its signing. A refresh in the second of
  the login hands back the same token, which can then be rotated again (`LoginAndRefreshInOneSecond`,
  `SameSecondReturnsTheToken`). What was revoked stays out of use in every later state if and only if the signing is the
  first for its person and organization in its second; otherwise one row of the token can be revoked, by a logout or by
  the rotation itself, while another keeps it in use (`RotationIsSafeIff`, `LoginIsSafeIff`).
* Two refreshes of one token that both find its row active leave two active tokens in its family (`TwoRefreshesFork`,
  `LateRotationIff`). A rotation between the two halves of the answer to a replay leaves the new token active
  (`RotationEscapesReuse`); the session ends if and only if all of the family's tokens that are active at the write had
  been read (`LateReuseIff`).
* Relay runs that overlap can emit an event twice (`OverlapRepeats`). A fetch is safe if and only if it takes nothing
  that is in flight (`FetchIsSafeIff`), and an overlapping one always takes some when no timestamps tie
  (`OverlapAlwaysShares`).
* Events of one transaction share a timestamp and can be emitted in either order (`LaterCanGoFirst`). Emission follows
  the order of recording in every history if and only if each event is younger than those before it
  (`CreationOrderIff`).
* The value of `{{multiply a b}}` is looked up as a key when another directive is closed around it
  (`FramedProductIsLookedUp`). In all other templates, and in no such one, the two passes are one in every context
  (`PassesAgreeIff`).

## Model

| member | source | states |
|---|---|---|
| SlaDeadline.ComputeDeadline | apps/product-configurator/src/sla/sla-timer.service.ts:153-191 | the loop with its 2000-iteration guard and the exclusion query compute `Deadline`, whose meaning the rows below give |
| SlaDeadline.SpanIsLeast | apps/product-configurator/src/sla/sla-timer.service.ts:183-190 | the loop moves on by the least number of days that holds the window, or by the iteration limit, and never counts past the window |
| SlaDeadline.LeastIsSpan | apps/product-configurator/src/sla/sla-timer.service.ts:183-190 | a least such number of days is unique, so anything least is what the loop computes |
| SlaDeadline.DeadlineIsExact | apps/product-configurator/src/sla/sla-timer.service.ts:146-191 | a working-days deadline keeps the time of day; if the guard does not bite it falls on a working day with exactly the window's working days after the start, and one day earlier holds one fewer; if it bites, it is 2000 days later with too few |
| SlaDeadline.GuardBitesIff | apps/product-configurator/src/sla/sla-timer.service.ts:185-189 | the guard cuts a window short if and only if the weekdays of the next 2000 days less the excluded ones are fewer than the window |
| SlaDeadline.FewWindowsAreSafe | apps/product-configurator/src/sla/sla-timer.service.ts:185-189 | it never does when window plus excluded weekdays is at most 1428 |
| SlaDeadline.SafeWindowIsSharp | apps/product-configurator/src/sla/sla-timer.service.ts:185-189 | from any Friday a window of 1429 is cut short without any exclusion |
| SlaDeadline.DeadlineClosedForm | apps/product-configurator/src/sla/sla-timer.service.ts:183-190 | without exclusions and for windows of 1 to 1428 the loop equals whole weeks from the last weekday plus the remaining days plus a weekend when crossed |
| SlaDeadline.DeadlinesCompose | apps/product-configurator/src/sla/sla-timer.service.ts:183-190 | a window of a + b is a window of b started at the deadline of a |
| SlaDeadline.MoreExclusionsNeverEarlier | apps/product-configurator/src/sla/sla-timer.service.ts:166-190 | more excluded days never bring a deadline forward, guard or not |
| SlaDeadline.RegionNeverLater | apps/product-configurator/src/sla/sla-timer.service.ts:166-176 | a timer with a region is never due later than the same timer without one, in any unit |
| SlaDeadline.SameDeadlineIff | apps/product-configurator/src/sla/sla-timer.service.ts:166-190 | excluding more days leaves a deadline where it was if and only if none of them is a working day on the way, or the guard had been reached |
| SlaDeadline.RegionlessIsOnTimeIff | apps/product-configurator/src/sla/sla-timer.service.ts:146-176 | a timer without a region is due when it would be without any exclusion if and only if no weekday up to then is excluded in any region (guard aside) |
| SlaDeadline.ForeignHolidayDelays | apps/product-configurator/src/sla/sla-timer.service.ts:146-176 | a one-day timer without a region, started on any Friday, is due on Tuesday because of the Monday holiday of one region, while the timer of another region is due on Monday |
| SlaDeadline.LaterStartNeverEarlier | apps/product-configurator/src/sla/sla-timer.service.ts:183-190 | a later start day never gives an earlier deadline day |
| SlaDeadline.DaysMoveTheDay | apps/product-configurator/src/sla/sla-timer.service.ts:159-164 | a window in days moves the day by exactly so many and keeps the time of day, whatever the calendar |
| SlaDeadline.HoursFillDays | apps/product-configurator/src/sla/sla-timer.service.ts:159-164 | 24 times as many hours end when the days do, and an hour is 60 times 60 times 1000 milliseconds |
| SlaDeadline.ClockWindowsCompose | apps/product-configurator/src/sla/sla-timer.service.ts:159-164 | windows in hours and in days add up, under any two sets of exclusions |
| SlaDeadline.WorkingDaysTakeLonger | apps/product-configurator/src/sla/sla-timer.service.ts:159-190 | so many working days never end before so many days, unless the guard cuts them short |
| SlaDeadline.RowDelaysIff | apps/product-configurator/src/sla/sla-timer.service.ts:166-190 | one more calendar row moves a deadline if and only if it is a holiday or shutdown of the funder, and of the region if one is named, on a working day on the way, and fewer than 2000 days had been used |
| SlaEngine.SlaService.StartTimer | apps/product-configurator/src/sla/sla-timer.service.ts:52-101 | the new tables and the outcome of a start, with the four ways it is refused or finds a running timer |
| SlaEngine.SlaService.ResolveTimer | apps/product-configurator/src/sla/sla-timer.service.ts:103-115 | the new tables and the outcome of a resolve by id, scoped to the caller's organization |
| SlaEngine.SlaService.CancelTimer | apps/product-configurator/src/sla/sla-timer.service.ts:118-144 | the new tables of a resolve by subject, which does nothing when no timer runs |
| SlaEngine.SlaService.BreachTimer | apps/product-configurator/src/sla/sla-breach.service.ts:52-109 | a breach re-reads the row, closes it and appends its event and, if an address is set, its e-mail |
| SlaEngine.SlaService.FireOverdueTimers | apps/product-configurator/src/sla/sla-breach.service.ts:32-50 | one undisturbed cron run breaches the scanned timers and no other row; a scan that was not full leaves nothing overdue |
| SlaEngine.SlaService.OnMessage | apps/product-configurator/src/sla/sla.consumer.ts:77-133 | a start or cancel message acts once, is recorded, and is dropped when malformed or already processed |
| SlaRuns.RunKeepsInv | apps/product-configurator/src/sla/sla-breach.service.ts:33-109 | in every run, with scans gone stale between reading and breaching: one RUNNING timer per funder, code and subject; BREACHED if and only if exactly one breach event names the timer, plus one e-mail if and only if an address is set; every event tells the truth about its timer; breached after the deadline |
| SlaRuns.InitialInv | apps/product-configurator/src/sla/sla-timer.service.ts:52-101 | empty tables satisfy the invariant |
| SlaRuns.RunIsFinal | apps/product-configurator/src/sla/sla-timer.service.ts:103-144 | no timer disappears or changes what it watches or when it is due, and RESOLVED and BREACHED rows never change again |
| SlaRuns.LateTimersAreBreached | apps/product-configurator/src/sla/sla-breach.service.ts:32-50 | of n timers late at some moment, k undisturbed cron runs breach min(100k, n), however many more fall due meanwhile |
| SlaStory.StartOpensIff | apps/product-configurator/src/sla/sla-timer.service.ts:52-101 | a start opens a timer if and only if its funder has an active template of the code, no timer of the key runs, and its start can be read |
| SlaStory.ResolveSucceedsIff | apps/product-configurator/src/sla/sla-timer.service.ts:103-115 | a resolve succeeds if and only if the timer runs and is the caller's, or the caller is the platform |
| SlaStory.CancelEndsTheKey | apps/product-configurator/src/sla/sla-timer.service.ts:118-144 | a cancel leaves no running timer of its key and changes no other |
| SlaStory.EveryTimerIsTold | apps/product-configurator/src/sla/sla-timer.service.ts:52-144 | in every history each timer was opened by a request or a complete message for its key, with that region, address and start, and is due by the active template and the calendar of that moment; each closed one was closed by a resolve of its funder, a cancel of its key or its breach, at the time and with the reason it gives |
| SlaStory.EveryEventIsTold | apps/product-configurator/src/sla/sla-breach.service.ts:52-109 | in every history each event was written by the breach of the running timer that it names, with the name and action of the timer's template of that moment, or the code when the template is gone; e-mails go to timers with an address |
| SlaRuns.CrashIsHarmless | apps/product-configurator/src/sla/sla.consumer.ts:77-133 | a delivery that crashes before it is recorded, then steps that do not touch its key, then a redelivery, ends in the tables of a single delivery |
| SlaRuns.RepeatedCrashesAreHarmless | apps/product-configurator/src/sla/sla.consumer.ts:77-133 | the same for any number of crashed attempts, each followed by any run of steps that do not touch the key |
| SlaRaces.LateInsertIff | apps/product-configurator/migrations/1785200000000-SlaTimers.ts:36-39 | when a row is inserted later than its key was looked up, the partial unique index admits it if and only if one running timer per key remains |
| SlaRaces.LateStartIff | apps/product-configurator/src/sla/sla-timer.service.ts:47-101 | a start that looked, and inserts after any run of other steps, is refused if and only if its key has got a running timer, where a start at that moment would have returned that timer; otherwise the invariant is kept |
| SlaRaces.OnlyTheFirstStarts | apps/product-configurator/src/sla/sla-timer.service.ts:47-101 | of any number of starts of one key that all looked before any inserted, the first to insert succeeds and every other is refused |
| SlaRaces.LateResolveIff | apps/product-configurator/src/sla/sla-timer.service.ts:103-115 | a resolve that writes later than it read keeps the invariant if and only if the timer was not breached in between, and leaves settled timers as they are if and only if the timer still runs or is resolved in the very same way |
| SlaRaces.BreachThenResolve | apps/product-configurator/src/sla/sla-timer.service.ts:103-115 | from any sound state, a breach between the two halves leaves a RESOLVED timer with a breach event |
| SlaRaces.SecondResolveOverwrites | apps/product-configurator/src/sla/sla-timer.service.ts:103-115 | from any sound state, two resolves that both read before either wrote keep the invariant, but the second replaces what the first has settled |
| InvoiceTotals.BuildLinesAndTotals | apps/trade-directory/src/invoice/invoice.service.ts:159-238 | the loop that rounds running group sums computes, for each group and for the header, sums of lines rounded once each |
| InvoiceAmounts.LineIsAsAsked | apps/trade-directory/src/invoice/invoice.service.ts:168-199 | each line is numbered, keeps quantity and price, has category S, no tax and scheme VAT where these are left out, and as net amount the whole number of cents nearest to quantity times price, halves up |
| InvoiceAmounts.ExtensionIsClose | apps/trade-directory/src/invoice/invoice.service.ts:211-228 | the line extension of N lines is a whole number of cents within N/200 of the unrounded sum of quantity times price |
| InvoiceAmounts.PayableIsClose | apps/trade-directory/src/invoice/invoice.service.ts:224-237 | the amount to pay is a whole number of cents and differs from the unrounded sum of quantity times price with tax by at most half a cent times two plus the rate for each line, hence by at most 3N/200 for percentages of 0 to 100 |
| InvoiceAmounts.SubtotalIsOfItsGroup | apps/trade-directory/src/invoice/invoice.service.ts:174-199 | each subtotal has the net amounts of exactly the lines of its category, percentage and scheme, of which there is one, and a tax within half a cent per line of its percentage of them |
| InvoiceAmounts.LineHasOneSubtotal | apps/trade-directory/src/invoice/invoice.service.ts:174-199 | each line is in the group of exactly one subtotal |
| InvoiceTotals.TotalsAreConserved | apps/trade-directory/src/invoice/invoice.service.ts:211-237 | the line net amounts, the subtotals' taxable amounts and the header amounts are the same sum; tax-inclusive less tax-exclusive is the sum of subtotal taxes and of line taxes |
| InvoiceTotals.TotalsPermute | apps/trade-directory/src/invoice/invoice.service.ts:170-228 | permuting the lines changes no total and no group's subtotal |
| InvoiceTotals.KeysSeparate | apps/trade-directory/src/invoice/invoice.service.ts:174-178 | two lines share a group key if and only if they share category, percentage and scheme |
| InvoiceTotals.GroupTaxIsClose | apps/trade-directory/src/invoice/invoice.service.ts:185-187 | the tax of a group of n lines is within n/200 of its percentage of the taxable amount |
| InvoiceTotals.HeaderTaxIsClose | apps/trade-directory/src/invoice/invoice.service.ts:224-228 | the header tax of N lines is within N/200 of the unrounded tax |
| InvoiceTotals.DriftIsReached | apps/trade-directory/src/invoice/invoice.service.ts:185-187 | for every number of lines that bound is attained |
| InvoiceService.InvoiceServices.ResolveOrCreateOrganization | apps/trade-directory/src/invoice/invoice-trade-network.service.ts:95-147 | finds by id, registration number or name in that order, or creates and announces |
| InvoiceService.InvoiceServices.EnsureTradeNetwork | apps/trade-directory/src/invoice/invoice-trade-network.service.ts:40-80 | adds the personas and finds, creates or fails to create the relationship |
| InvoiceService.InvoiceServices.CreateInvoice | apps/trade-directory/src/invoice/invoice.service.ts:240-367 | the new tables and the outcome of a creation; a failure anywhere leaves the tables as they were |
| InvoiceService.InvoiceServices.ChangeStatus | apps/trade-directory/src/invoice/invoice.service.ts:406-468 | the new tables and the outcome of a status move, with its one event |
| InvoiceRuns.RunKeepsNetwork | apps/trade-directory/src/invoice/invoice.service.ts:246-366 | every run keeps the network invariant and never rewrites an organization, a relationship or an invoice's parties |
| InvoiceRuns.NetworkIsSound | apps/trade-directory/src/invoice/invoice-trade-network.service.ts:40-147 | from any directory: no two invoices share funder, issuer and number; issuer and debtor differ and hold their personas; created organizations differ from all earlier ones in name and in non-empty registration number; one relationship per pair; an invoice without a caller-supplied relationship points at the one of its own parties and funder |
| InvoiceRuns.EnsureFailsIffPairOfOtherFunder | apps/trade-directory/src/invoice/invoice-trade-network.service.ts:48-79 | finding or creating a relationship fails if and only if another funder holds the pair |
| InvoiceRuns.OtherFundersStayLockedOut | apps/trade-directory/src/models/relationship.entity.ts:23 | after any further run, creation between the pair still fails for every other funder |
| InvoiceRuns.SecondFunderIsRefused | apps/trade-directory/src/invoice/invoice-trade-network.service.ts:40-80 | one invoice, whatever its lines, is enough to shut the second funder out |
| InvoiceHistory.RunKeepsHistory | apps/trade-directory/src/invoice/invoice.service.ts:442-468 | every run keeps, per invoice, a chain of events from (null, UPLOADED) through legal moves to the row's present status and fields, and announces each organization and relationship once, in order |
| InvoiceHistory.PathsDoNotReturn | apps/trade-directory/src/invoice/invoice.service.ts:36-70 | along legal moves no status outside OVERDUE and PARTIALLY_PAID comes twice, and FINANCED is never followed by REJECTED |
| InvoiceHistory.OtherMovesAreBounded | apps/trade-directory/src/invoice/invoice.service.ts:36-70 | moves outside the OVERDUE/PARTIALLY_PAID loop are at most the rank of the status reached, hence seven |
| InvoiceHistory.InvoiceLifecycle | apps/trade-directory/src/invoice/invoice.service.ts:406-440 | for every invoice of every run, all of that, and: settled if and only if PAID was reached, ownership transferred if and only if a factoring invoice reached FINANCED |
| InvoiceStory.MoveSucceedsIff | apps/trade-directory/src/invoice/invoice.service.ts:36-70 | a move succeeds if and only if the caller's organization funds the invoice and its status is one of those listed, for each target, as its predecessors; then only status and dates of the row change, and otherwise nothing |
| InvoiceStory.OrganizationIsAsAsked | apps/trade-directory/src/invoice/invoice-trade-network.service.ts:95-147 | a party is found by id, else by a non-empty registration number, else by name, else created as asked, in MY unless a country is named, and announced with that |
| InvoiceStory.InvoiceIsAsAsked | apps/trade-directory/src/invoice/invoice.service.ts:240-366 | a created row has the number, dates, currency, product and totals of the request, the caller's funder, the parties named, and the relationship named or the pair's own |
| InvoiceStory.CreationSucceedsIff | apps/trade-directory/src/invoice/invoice.service.ts:240-366 | with parties named by id, a creation succeeds if and only if the caller is a funder, the parties exist and differ, the funder has no such invoice of the issuer, and the pair is not another funder's or a relationship is named; a failed one changes nothing |
| InvoiceStory.PartiesAreNamedOnce | apps/trade-directory/src/invoice/invoice.service.ts:246-255 | a request that names a party in no way or in two is refused and changes nothing |
| InvoiceStory.ResendIsRefused | apps/trade-directory/src/invoice/invoice.service.ts:257-318 | a request sent again at once is refused, as a duplicate or as naming one party twice, and changes nothing, whichever parties it created |
| InvoiceStory.EveryInvoiceIsTold | apps/trade-directory/src/invoice/invoice.service.ts:406-440 | in every history each row was created by a request as it is but for status and dates, was settled by a move to PAID at the time it says, and changed owners, being a factoring invoice, by a move to FINANCED at the time it says |
| InvoiceParties.PartiesAreEarned | apps/trade-directory/src/invoice/invoice-trade-network.service.ts:40-147 | in every history an organization is a supplier or a buyer if and only if it was entered as one or an invoice names it as issuer or debtor, nothing else about it ever changes, and every relationship is that of an invoice whose request named none |
| InvoiceRaces.LateMoveAtOnce | apps/trade-directory/src/invoice/invoice.service.ts:411-439 | the two halves of a move, one right after the other, are the move |
| InvoiceRaces.LateMoveIff | apps/trade-directory/src/invoice/invoice.service.ts:411-439 | a move that writes a row read at any earlier moment keeps the history of every invoice if and only if the invoice still has, or has again, the status that was read |
| InvoiceRaces.ReadRowWasRow | apps/trade-directory/src/invoice/invoice.service.ts:411-439 | whatever the directory does after a read, the row read is one of those earlier rows |
| InvoiceRaces.SecondMoveBreaksHistory | apps/trade-directory/src/invoice/invoice.service.ts:411-439 | of two moves that both read before either wrote, the second breaks the history, and both events are published from the same status |
| GraphProjection.GraphStore.FirstTimeSeen | apps/knowledge-graph/src/graph-sync/graph-sync.service.ts:15-26 | an event counts as new exactly once, and always when it has no id |
| GraphProjection.GraphStore.UpsertInvoice | apps/knowledge-graph/src/graph-sync/graph-sync.service.ts:99-139 | the graph after one message, which changes nothing when the event was seen |
| GraphProjection.GraphStore.RebuildInvoices | apps/knowledge-graph/src/scripts/rebuild-graph.ts:119-147 | the graph after the loop over rows read in any order, with edges only between companies that exist |
| GraphProjection.DeliveryShowsNewest | apps/knowledge-graph/src/graph-sync/graph-sync.service.ts:99-139 | at every moment of a delivery with duplicates and reordering across invoices the graph shows, for each invoice heard of, the newest event delivered |
| GraphMessages.MessagesAreTold | apps/knowledge-graph/src/graph-sync/graph-sync.service.ts:15-139 | of any messages, in which ids may be missing or come back on another payload: one without an id is always written and one with an id only if no earlier message has it; each invoice shows, field by field, the last payload written for it, and the edges are exactly those of the payloads written |
| GraphCompanies.DeliveryBringsCompanies | apps/knowledge-graph/src/graph-sync/graph-sync.service.ts:104-121 | whatever is delivered in whatever order, both ends of every edge are there, and the companies are exactly the parties of the delivered events |
| GraphAgreement.ChainedEventsDescribe | apps/trade-directory/src/invoice/invoice.service.ts:442-468 | the published events name the rows' own parties and the last event of each row carries the row's present properties |
| GraphAgreement.MirroredEdgesAreUnique | apps/knowledge-graph/src/scripts/rebuild-graph.ts:122-130 | a graph that mirrors the table has exactly one issuer and one debtor edge per invoice |
| GraphRuns.MaintainedIsFaithful | apps/knowledge-graph/src/graph-sync/graph-sync.service.ts:99-139 | while the directory changes, events arrive and rebuilds write rows that are unchanged or whose last event is still to come, the graph at every moment has no node or edge that the table lacks, every edge that has arrived, and the row of each invoice whose last event has arrived |
| GraphRuns.ShownIsNeverOlder | apps/knowledge-graph/src/graph-sync/graph-sync.service.ts:99-139 | when rebuilds write only what is still current, the graph at every moment shows of each invoice heard of a published state no older than the newest event delivered |
| GraphRuns.WriteIsCurrentIff | apps/knowledge-graph/src/scripts/rebuild-graph.ts:120-147 | a row written by a rebuild keeps that if and only if no event of the invoice published after the read has arrived, or what was read has been published since |
| GraphRuns.CurrentIsHarmless | apps/knowledge-graph/src/scripts/rebuild-graph.ts:120-147 | what is still current is also harmless to the final agreement |
| GraphRuns.HarmlessCanGoBack | apps/knowledge-graph/src/scripts/rebuild-graph.ts:120-147 | from any moment at which everything has arrived: a read, two moves of one invoice, the arrival of the first event and the write; the write is harmless, and the graph shows the invoice older than that event |
| GraphRuns.WriteAgreesIff | apps/knowledge-graph/src/scripts/rebuild-graph.ts:120-147 | a row written by a rebuild leaves the graph in agreement if and only if the row has not changed since it was read, or its last event has yet to arrive |
| GraphRuns.ProjectionEqualsRebuild | apps/knowledge-graph/src/scripts/rebuild-graph.ts:119-147 | however directory steps, arrivals with repetitions and reordering across invoices, and such rebuilds interleave, once every event has arrived the graph's invoices and edges are those of a rebuild of the final table from nothing, and mirror the table |
| GraphRuns.RebuildIsARun | apps/knowledge-graph/src/scripts/rebuild-graph.ts:119-147 | the rebuild script run undisturbed is one of these runs, its writes are harmless, and it leaves what the loop over the rows leaves |
| GraphRuns.StaleRowIff | apps/knowledge-graph/src/scripts/rebuild-graph.ts:120-147 | a row written by a rebuild and not written again: after a complete delivery the invoice's node is that of its row if and only if the row written was the final one, or the invoice's last event had not arrived before the write |
| GraphRuns.RebuildCanGoBack | apps/knowledge-graph/src/scripts/rebuild-graph.ts:120-147 | from any moment at which everything has arrived, a rebuild that reads, waits for any status move and its event, and then writes leaves the invoice at its old status |
| GraphCompanies.CompaniesOfRuns | apps/knowledge-graph/src/scripts/rebuild-graph.ts:119-147 | at every moment of every run of directory, arrivals and rebuilds no edge dangles, and the companies are exactly the parties of the arrived events and the organizations that rebuilds wrote |
| GraphCompanies.RebuildKeepsEdges | apps/knowledge-graph/src/scripts/rebuild-graph.ts:119-147 | the rebuild leaves no edge dangling and adds exactly the companies of the table |
| GraphPipeline.RunKeepsSound | apps/knowledge-graph/src/graph-sync/graph-sync.service.ts:99-139 | in every run of directory, relay and graph, with failed emissions, crashes and any order of taking, the graph is what the events written have made of it in the order of their writes |
| GraphPipeline.GraphEqualsRebuildIff | apps/knowledge-graph/src/graph-sync/graph-sync.service.ts:99-139 | at every moment of every such run the graph's invoices and edges are those of a rebuild from nothing if and only if of each invoice the event written last carries the status of the row |
| GraphCompanies.CompaniesOfPipelines | apps/knowledge-graph/src/graph-sync/graph-sync.service.ts:104-121 | at every moment of every run of directory, relay and graph no edge dangles, and the companies are exactly the parties of the events written |
| GraphInOrder.RunKeepsOrdered | apps/trade-directory/src/outbox/outbox-relay.service.ts:17-33 | when transactions have ascending timestamps, relays do not overlap and the log is taken in order, the events of each invoice are written in the order in which they were published |
| GraphInOrder.FailuresDecide | apps/trade-directory/src/outbox/outbox-relay.service.ts:17-33 | then, at rest and without a crash of the graph, it equals the rebuild if and only if of each invoice the newest event that was emitted carries the status of the row |
| GraphInOrder.NoFailureTellsRows | apps/trade-directory/src/outbox/outbox-relay.service.ts:17-33 | which holds when no invoice's last event is FAILED |
| GraphFailures.FailedMoveIsNotShown | apps/trade-directory/src/outbox/outbox-relay.service.ts:17-33 | from any moment of rest, one move whose emission fails leaves everything at rest and the graph different from a rebuild |
| GraphFailures.OvertakingGoesBack | libs/common/kafka/createTopics.ts:49-55 | from any moment of rest, two moves of one invoice whose events are taken in reverse leave everything at rest, nothing failed, and the graph different from a rebuild |
| RefreshTokens.AuthService.Login | apps/trade-directory/src/auth/auth.service.ts:111-166 | a member gets a new token row of a new family; anyone else changes nothing |
| RefreshTokens.AuthService.Scan | apps/trade-directory/src/auth/auth.service.ts:190-207 | the scan returns the first row that matches, or nothing if none does |
| RefreshTokens.AuthService.RefreshToken | apps/trade-directory/src/auth/auth.service.ts:168-316 | the new tables and the outcome of a refresh: rotated, reuse detected, expired, no match or unverifiable |
| RefreshTokens.AuthService.LogoutToken | apps/trade-directory/src/auth/auth.service.ts:318-355 | the matching active row is revoked as LOGOUT, and nothing else |
| RefreshTokens.AuthService.CleanupRevokedTokens | apps/trade-directory/src/auth/auth.service.ts:361-366 | exactly the rows revoked more than thirty days ago go |
| TokenRuns.SessionsAreSound | apps/trade-directory/src/auth/auth.service.ts:111-345 | in every history in which no two tokens are signed for one person and organization in one second: at most one active token per family; one person and one start per family; a raw token rotates successfully at most once; every token that still verifies has its row |
| TokenRuns.RotationIsSafeIff | apps/trade-directory/src/auth/auth.service.ts:282-304 | after a rotation, in every continuation no active row stores the token of a revoked row, if and only if no token was signed before for the person and organization in that second |
| TokenRuns.LoginIsSafeIff | apps/trade-directory/src/auth/auth.service.ts:134-155 | the same of the login of a member |
| TokenRuns.SameSecondReturnsTheToken | apps/trade-directory/src/auth/auth.service.ts:282-315 | a refresh hands back the token it was given if and only if it signs in the second in which that was signed, and then the token can be rotated once more |
| TokenRuns.LoginAndRefreshInOneSecond | apps/trade-directory/src/auth/auth.service.ts:134-140 | a login and a refresh in one second: the raw token of the login is rotated twice |
| TokenRuns.StaleTokensDoNotVerify | apps/trade-directory/src/auth/auth.service.ts:361-364 | cleanup drops no row of a token whose signature still verifies |
| TokenRuns.RevocationIsFinal | apps/trade-directory/src/auth/auth.service.ts:219-223 | no revoked row is revived, replaced or given another time or reason in any later state |
| TokenRuns.ReplayIsRecognized | apps/trade-directory/src/auth/auth.service.ts:199-209 | replaying a rotated token while it verifies always reaches the reuse branch |
| TokenRuns.ReuseEndsSessionIff | apps/trade-directory/src/auth/auth.service.ts:213-223 | reuse ends the replayed session if and only if it had ended, or the first listed revoked row is of the same session or of an ended one |
| TokenRuns.ReuseCanEndTheOtherSession | apps/trade-directory/src/auth/auth.service.ts:213-217 | a history, its signings a second apart, in which replaying a token of one session ends only the other |
| TokenRuns.ExpiredMeansSignedLate | apps/trade-directory/src/auth/auth.service.ts:275-280 | the expiry branch is reached only for a token signed in a later second than its row was dated by |
| TokenStory.RefreshableForAWeek | apps/trade-directory/src/auth/auth.service.ts:168-198 | presented in any sound state, a scannable token in use does not verify from seven days after the second of its signing, is expired when it still verifies but was last used more than seven days ago, and is rotated otherwise |
| TokenStory.SessionLasts | apps/trade-directory/src/auth/auth.service.ts:282-315 | a session whose tokens are presented at most seven days less a second apart is rotated every time, whatever other requests come between, as long as none logs it out or replays a token of the person |
| TokenStory.LoginLasts | apps/trade-directory/src/auth/auth.service.ts:111-166 | so from the login on |
| TokenStory.LogoutEndsIt | apps/trade-directory/src/auth/auth.service.ts:318-355 | a logout with a token in use revokes its row as LOGOUT at that time, scannable or not, and no other |
| TokenStory.ReuseLeaves | apps/trade-directory/src/auth/auth.service.ts:209-223 | after reuse the tokens of other persons are untouched, as are those of other families if the family of the first listed row had a token in use; all others in use are revoked as abuse at that time |
| TokenStory.RevokedIsKeptAMonth | apps/trade-directory/src/auth/auth.service.ts:361-366 | in every history a revoked row is there for thirty days after its revocation |
| TokenStory.CleanupGoesBackAMonth | apps/trade-directory/src/auth/auth.service.ts:361-366 | a cleanup keeps exactly the rows in use and those revoked at most thirty days ago |
| TokenStory.EveryRowIsTold | apps/trade-directory/src/auth/auth.service.ts:111-345 | in every history each row was opened by a member's login or by the refresh of an active row of its session, at the time it says and for seven days, and each revoked row was closed by the request that its reason names, at that time |
| TokenRaces.LateRotationIff | apps/trade-directory/src/auth/auth.service.ts:190-304 | a rotation that writes later than it matched leaves one active token per family if and only if no other token of the family is active by then, and keeps revoked rows as they are if and only if nobody revoked the row in between |
| TokenRaces.TwoRefreshesFork | apps/trade-directory/src/auth/auth.service.ts:190-304 | two refreshes of one token that both matched its row before either wrote: the first is an ordinary rotation, the second leaves two active tokens in the family |
| TokenRaces.LateReuseIff | apps/trade-directory/src/auth/auth.service.ts:209-223 | an answer to a replay that writes later than it read ends the session if and only if every token of the family active at the write had been read, and keeps revoked rows as they are if and only if nobody revoked in between what was read |
| TokenRaces.LateRevokeAtOnce | apps/trade-directory/src/auth/auth.service.ts:209-223 | written at once it is the revocation of the family |
| TokenRaces.RotationEscapesReuse | apps/trade-directory/src/auth/auth.service.ts:209-223 | a rotation between the two halves leaves the new token active, though an answer given at once, before or after it, would have ended the session |
| RateCards.ConfiguratorServices.CreateStandardProduct | apps/product-configurator/src/products/products.service.ts:59-100 | the new tables and the outcome of a product creation |
| RateCards.ConfiguratorServices.UpdateProductFields | apps/product-configurator/src/products/products.service.ts:102-140 | only name, description and the active flag are written, with old and new values audited |
| RateCards.ConfiguratorServices.DrawCode | apps/product-configurator/src/products/products.service.ts:211-218 | the loop returns the first of five drawn codes that is free, or the fifth |
| RateCards.ConfiguratorServices.CreateBespokeProduct | apps/product-configurator/src/products/products.service.ts:200-290 | the product, its published first card and the announcement appear together or not at all |
| RateCards.ConfiguratorServices.CreateDraftCard | apps/product-configurator/src/rate-cards/rate-cards.service.ts:43-86 | the new tables and the outcome of a draft, numbered one above the latest version |
| RateCards.ConfiguratorServices.UpdateDraftCard | apps/product-configurator/src/rate-cards/rate-cards.service.ts:88-145 | only drafts within the rules change, with old and new snapshots audited |
| RateCards.ConfiguratorServices.PublishCard | apps/product-configurator/src/rate-cards/rate-cards.service.ts:153-236 | the published card of the product is archived, the draft published and announced, in one step |
| RateCards.ConfiguratorServices.CreateAssignment | apps/product-configurator/src/assignments/assignments.service.ts:61-136 | the new tables and the outcome of an assignment copied from the published card |
| RateCardRuns.AcceptedTermsAreWithinRules | apps/product-configurator/src/rate-cards/rate-card-rules.ts:15-36 | fields that the validator accepts give ordered tenures and, for IF, an advance of 80 to 95 percent |
| RateCardRuns.RunKeepsInv | apps/product-configurator/src/rate-cards/rate-cards.service.ts:51-250 | every run keeps the invariant and only evolves the tables: cards move forward from DRAFT over PUBLISHED to ARCHIVED, terms freeze on leaving DRAFT, product identity never changes, assignments, audit rows and events are only appended |
| RateCardRuns.StepEvolves | apps/product-configurator/src/rate-cards/rate-cards.service.ts:166-195 | a single operation moves a card by at most one status |
| RateCardRuns.ConfiguratorIsSound | apps/product-configurator/src/rate-cards/rate-cards.service.ts:51-250 | in every history: codes unique per funder, cards within the rules, at most one published card per product, the newest announcement matches it, the audit rows of each card chain from its creation to its present terms, every assignment copies its card and a bespoke one belongs to the owner |
| RateCardRuns.RunKeepsTruth | apps/product-configurator/src/rate-cards/rate-cards.service.ts:181-233 | in every history every audit row and every event ever written stays true: each announcement still equals its card's parameters, each assignment event its assignment, each status row its card |
| RateCardRuns.VersionsAreExact | apps/product-configurator/src/rate-cards/rate-cards.service.ts:51-58 | in every history the versions of a product with n cards are exactly 1 to n, ascending in order of creation |
| RateCardRuns.PublishedCardIsAnnounced | apps/product-configurator/src/rate-cards/rate-cards.service.ts:147-236 | once anything of a product was published it has exactly one published card, and its newest announcement carries that card's present version and parameters |
| RateCardRuns.SnapshotsStayEqual | apps/product-configurator/src/assignments/assignments.service.ts:54-107 | an assignment is never changed and equals its card, field by field, in every later state |
| RateCardStory.ProductSucceedsIff | apps/product-configurator/src/products/products.service.ts:59-100 | a product is created if and only if the caller is a funder without a product of that code |
| RateCardStory.DraftSucceedsIff | apps/product-configurator/src/rate-cards/rate-card-rules.ts:15-36 | a draft is created if and only if the caller owns the product, tenures are in order with 30 and 360 days as defaults, and a factoring advance is within 80 to 95 percent |
| RateCardStory.UpdateSucceedsIff | apps/product-configurator/src/rate-cards/rate-cards.service.ts:88-110 | an update succeeds if and only if the card is a draft of a product the caller owns and the same rules hold with the card's own tenures |
| RateCardStory.PublishSucceedsIff | apps/product-configurator/src/rate-cards/rate-cards.service.ts:153-170 | a publication succeeds if and only if the card is a draft of a product the caller owns |
| RateCardStory.AssignSucceedsIff | apps/product-configurator/src/assignments/assignments.service.ts:61-95 | an assignment succeeds if and only if the caller owns the active product, a bespoke one is assigned to its owner, and its published card has an interest rate |
| RateCardStory.FundersAreApart | apps/product-configurator/src/rate-cards/rate-cards.service.ts:98-104 | no operation of a funder changes a product or a card of another one, and whatever it adds is its own |
| RateCardStory.TermsAreTheLastWord | apps/product-configurator/src/rate-cards/rate-cards.service.ts:60-130 | in every history each of the nine terms of a card is the last value accepted for it, or its default of 30 or 360 days, zero, or nothing |
| RateCardStory.ProductIsTold | apps/product-configurator/src/products/products.service.ts:59-140 | in every history a product has the funder, code and owner of the request that created it and the name, description and active flag said last |
| RateCardStory.CardIsDated | apps/product-configurator/src/rate-cards/rate-cards.service.ts:193-195 | in every history a card has a date if and only if it is no draft, and it is that of its publication |
| RateCardStory.PublicationRepeatsCard | apps/product-configurator/src/rate-cards/rate-cards.service.ts:210-233 | in every history each announcement ever made repeats its card's parameters one by one, its version, and the code and funder of its product |
| RateCardStory.BespokeIsAsAsked | apps/product-configurator/src/products/products.service.ts:200-290 | a bespoke product is as its request says, is published as version 1 at once, and can be assigned to its owner and nobody else, on the terms of the request |
| RateCardStory.StandardIsAsAsked | apps/product-configurator/src/assignments/assignments.service.ts:61-136 | a new product, its draft and its publication lead to assignments to any organization on the terms of the draft, field by field |
| RateCardStory.CodeReadsBack | apps/product-configurator/src/products/products.service.ts:211-218 | a bespoke code is CST_ and six digits that read back as the number drawn |
| RateCardStory.BespokeSucceedsIff | apps/product-configurator/src/products/products.service.ts:200-233 | a bespoke product is created if and only if the caller is a funder, tenures are in order with 30 and 360 days as defaults, and one of the five codes drawn is free; its advance is held to no range |
| RateCardStory.FirstFreeIsPicked | apps/product-configurator/src/products/products.service.ts:211-218 | the code is that of the first number drawn whose code is free, or of the last |
| RateCardAudit.AuditIsComplete | apps/product-configurator/src/rate-cards/rate-cards.service.ts:181-233 | in every history there is exactly one audit row for each product, for each card published on its own, for each archived card and for each assignment, exactly one event for each published card and each assignment, and no others of these kinds |
| RateCardAudit.UpdatesJoinUp | apps/product-configurator/src/products/products.service.ts:102-137 | in every history the audited updates of a product join up: each starts from the state the one before it left, and the last ends with the product as it is |
| OutboxRelay.OutboxRelayService.Record | apps/product-configurator/src/repositories/outbox-event.repository.ts:20-25 | a pending row is appended |
| OutboxRelay.OutboxRelayService.FindPending | apps/product-configurator/src/repositories/outbox-event.repository.ts:27-33 | the query's result is pending, distinct, oldest first, as long as the limit allows, with nothing older left out |
| OutboxRelay.OutboxRelayService.RelayEvent | apps/product-configurator/src/outbox/outbox-relay.service.ts:22-31 | one event is emitted and marked, whichever of its two steps throws |
| OutboxRelay.OutboxRelayService.RelayPendingEvents | apps/product-configurator/src/outbox/outbox-relay.service.ts:17-33 | a tick settles exactly the batch it fetched, in order |
| OutboxRuns.RunKeepsSane | apps/product-configurator/src/outbox/outbox-relay.service.ts:18-33 | with inserts between any two steps and batches settled in any order, as long as no relay fetches what is in flight: no event is emitted twice, SENT means emitted and is dated, pending events are not emitted, settled rows are final |
| OutboxRuns.FetchIsSafeIff | apps/product-configurator/src/outbox/outbox-relay.service.ts:17-33 | in every sane store, a fetch takes nothing that is in flight if and only if no continuation whose later fetches take nothing in flight emits an event twice |
| OutboxRuns.OverlapAlwaysShares | apps/product-configurator/src/outbox/outbox-relay.service.ts:17-19 | while a batch is in flight and no timestamps tie, every further fetch takes some of it again |
| OutboxRuns.OutboxIsSound | apps/product-configurator/src/outbox/outbox-relay.service.ts:18-33 | so from an empty outbox, and in order of timestamps when relays do not overlap and rows are inserted in that order |
| OutboxRuns.OverlapRepeats | apps/product-configurator/src/outbox/outbox-relay.service.ts:17-24 | two relays that overlap can emit one event twice |
| OutboxRuns.RowsAreTheRecords | apps/product-configurator/src/repositories/outbox-event.repository.ts:20-43 | in every run, orderly or not, the table holds exactly the recorded events, unaltered and in order |
| OutboxRuns.EmissionsAreSorted | apps/product-configurator/src/repositories/outbox-event.repository.ts:27-33 | across batches events are emitted in the order of their timestamps |
| OutboxRuns.EmissionsFollowCreation | apps/product-configurator/src/repositories/outbox-event.repository.ts:27-33 | when each row is younger than those before it, the emission log of relays that do not overlap is a duplicate-free subsequence of the order of creation |
| OutboxRuns.EveryOrderIsPossible | apps/product-configurator/src/repositories/outbox-event.repository.ts:27-33 | every ordering of the pending rows by age, ties either way, is what some run of ticks emits |
| OutboxRuns.LaterCanGoFirst | apps/product-configurator/src/repositories/outbox-event.repository.ts:27-33 | of any two pending rows the one inserted later is emitted first in some such run, whenever it is no younger |
| OutboxRuns.CreationOrderIff | apps/product-configurator/src/repositories/outbox-event.repository.ts:27-33 | recorded events are emitted in the order of recording in every history of relays that do not overlap if and only if each carries a later timestamp than those before it |
| OutboxRuns.TickIsARun | apps/product-configurator/src/outbox/outbox-relay.service.ts:18-33 | an undisturbed tick is one of the orderly runs |
| OutboxStory.TickTells | apps/product-configurator/src/outbox/outbox-relay.service.ts:17-33 | an undisturbed tick hands over, in order, exactly the events of its batch that the producer accepts, marks each SENT with the time or FAILED by what happened to it, and leaves all other rows alone |
| OutboxStory.EveryRowIsTold | apps/product-configurator/src/outbox/outbox-relay.service.ts:22-31 | in every history, orderly or not, each row was recorded as it is, and each settled one by a relay that had it in flight, with the outcome and at the time it says |
| OutboxStory.EveryEmissionIsTold | apps/product-configurator/src/outbox/outbox-relay.service.ts:22-31 | and each emission was made by a relay that had the event in flight |
| OutboxRuns.BacklogSettles | apps/product-configurator/src/outbox/outbox-relay.service.ts:19-32 | without new events a backlog is settled after k ticks if and only if it has at most 50k events, however each of them fares |
| TemplateRenderer.SpelledKeyMatches | apps/product-configurator/src/assignments/template-renderer.ts:26 | every spelling of the second pattern matches, with its key and no other |
| TemplateRenderer.MatchedKeyIsSpelled | apps/product-configurator/src/assignments/template-renderer.ts:26 | every match of the second pattern is such a spelling |
| TemplateRenderer.SpelledProductMatches | apps/product-configurator/src/assignments/template-renderer.ts:16 | every spelling of the first pattern matches, with its operands and no others |
| TemplateRenderer.MatchedProductIsSpelled | apps/product-configurator/src/assignments/template-renderer.ts:16 | every match of the first pattern is such a spelling |
| TemplateValues.DecimalTextReadsBack | apps/product-configurator/src/assignments/template-renderer.ts:23 | the text of a product reads back as the product rounded to ten-thousandths |
| TemplateProducts.MultiplyMultiplies | apps/product-configurator/src/assignments/template-renderer.ts:12-24 | `{{multiply a b}}` renders to a text that reads back as the multiple of a ten-thousandth nearest to the product of what a and b read as, halves up, and names a and b when one reads as no number |
| TemplateProducts.ProductReadsBack | apps/product-configurator/src/assignments/template-renderer.ts:17-24 | so wherever a product is inserted |
| TemplateProducts.KeyRenders | apps/product-configurator/src/assignments/template-renderer.ts:26-31 | `{{key}}` renders to the text of its value, and names a key that has none |
| TemplateProducts.ClassesAreListed | apps/product-configurator/src/assignments/template-renderer.ts:16-26 | white space is the 25 code points of ECMAScript, and word characters are the English letters, digits, underscore and point |
| TemplateValues.ProductValueHasNoBrace | apps/product-configurator/src/assignments/template-renderer.ts:17-24 | whatever the operands, the first pass inserts text without braces |
| TemplateMeaning.TwoPassesAreOne | apps/product-configurator/src/assignments/template-renderer.ts:12-32 | for every template in which no directive is closed around a product, the two passes equal one pass that never looks at inserted text, in every context |
| TemplateMeaning.PassesAgreeIff | apps/product-configurator/src/assignments/template-renderer.ts:12-32 | no directive is closed around a product if and only if the two passes equal that one pass in every context |
| TemplateMeaning.KeyAfterFirstPass | apps/product-configurator/src/assignments/template-renderer.ts:14-26 | after the first pass a key stands exactly where a directive is closed around word characters and products all of whose values read as words, and it is those characters and values joined |
| TemplateMeaning.FramedProductIsLookedUp | apps/product-configurator/src/assignments/template-renderer.ts:12-32 | for a product in a closed directive the two passes look the joined key up, where one pass leaves the directive standing around the product's value |
| TemplateSegments.RenderingIsCompositional | apps/product-configurator/src/assignments/template-renderer.ts:12-32 | every template printed from text without a double opening brace, `{{key}}` and `{{multiply a b}}`, in any spacing, renders to the concatenation of the segments' values, whatever those values contain |

## Left out

- SlaEngine.SlaService.FireOverdueTimers: the method runs undisturbed; other steps between the scan and each breach are the subject of `SlaRuns`.
- OutboxRuns.EmissionsAreSorted: assumes that rows commit in the order of their timestamps, which the database takes at the start of the transaction.
- GraphRuns.ProjectionEqualsRebuild: assumes that the events of one invoice first arrive in the order in which they were published, as all of `GraphRuns` and `GraphProjection.DeliveryShowsNewest` do; `GraphPipeline` drops that assumption, but has no rebuilds.
- Interleavings inside an operation that the code does not wrap in a transaction, beyond those of the modules `SlaRaces`, `InvoiceRaces` and `TokenRaces`: a logout and the reads of a creation are part of one step. In those modules, saving an entity is taken to bring every column back to what was read.
- A relay tick or cron run that dies between two of its writes, and a relay whose update to FAILED throws as well.
- Kafka, Neo4j, TypeORM, bcrypt and JWT internals: logs, sets of nodes and edges, tables, equality of tokens and signing times stand for them.
- Which hashes start with the prefix that a refresh looks for is a flag on each row.
- IEEE floating point, numeric column texts, numbers in exponent notation and the infinities; the reading of a bare template operand as a number is a parameter.
- Inherited properties of a template context, such as `toString`; only its own keys are looked up.
- The order in which the database lists rows without an ORDER BY is a parameter where it matters.
- Persona ids of organizations are flags; party snapshots, contracts and payment details of an invoice are not modelled, nor is the foreign key of a caller-supplied relationship.
- Contracts, relationships and company names in the graph: their updates are not part of this model.
- Audit and e-mail records of the auth service, reasons and actors of configuration audits, and the context of a timer.
- Calendar dates are day numbers; years beyond 9999 print differently.
- Product risk filters, document templates, lists and other queries: each is one insert, update or read of a single table, and no rule ties it to another operation.
