/** The events that a run leaves in the outbox: every invoice's status history, and the announcements
    of the organizations and relationships that invoices brought about. */
module InvoiceHistory {
  import opened Wrappers
  import opened InvoiceService
  import opened InvoiceRuns

  datatype Topic = Organizations | Relationships | OfInvoice(id: nat)

  predicate Matches(e: OutboxEvent, topic: Topic) {
    match topic
    case Organizations => e.OrganizationCreated?
    case Relationships => e.RelationshipUpserted?
    case OfInvoice(id) => e.InvoiceStatusChanged? && e.payload.id == id
  }

  /** The events of one topic, in outbox order. */
  function Select(outbox: seq<OutboxEvent>, topic: Topic): (selected: seq<OutboxEvent>)
    ensures forall e :: e in selected ==> Matches(e, topic)
  {
    if outbox == [] then []
    else
      var last := outbox[|outbox| - 1];
      Select(outbox[..|outbox| - 1], topic) + if Matches(last, topic) then [last] else []
  }

  lemma SelectAppend(outbox: seq<OutboxEvent>, e: OutboxEvent, topic: Topic)
    ensures Select(outbox + [e], topic) == Select(outbox, topic) + if Matches(e, topic) then [e] else []
  {
    assert (outbox + [e])[..|outbox|] == outbox;
  }

  // ---------------------------------------------------------------------------------------------
  // Legal histories
  // ---------------------------------------------------------------------------------------------

  /** The statuses an invoice went through, oldest first. */
  ghost predicate IsPath(path: seq<Status>) {
    && path != []
    && path[0] == UPLOADED
    && forall k :: 0 < k < |path| ==> path[k] in Successors(path[k - 1])
  }

  /** Every move raises the rank, except those between OVERDUE and PARTIALLY_PAID. */
  function Rank(status: Status): nat {
    match status
    case UPLOADED => 0
    case VALIDATED => 1
    case APPROVED_FOR_FINANCE => 2
    case PRESENTED => 3
    case REJECTED => 3
    case FINANCED => 4
    case PARTIALLY_PAID => 5
    case OVERDUE => 5
    case PAID => 6
    case CLOSED => 7
  }

  predicate InLoop(status: Status) {
    status == OVERDUE || status == PARTIALLY_PAID
  }

  lemma MovesRaiseRank(from: Status, to: Status)
    requires to in Successors(from)
    ensures Rank(from) < Rank(to) || (InLoop(from) && InLoop(to) && from != to)
  {
  }

  lemma {:induction false} RankGrows(path: seq<Status>, i: nat, j: nat)
    requires IsPath(path) && i < j < |path|
    ensures Rank(path[i]) <= Rank(path[j])
    ensures Rank(path[i]) == Rank(path[j]) ==> InLoop(path[i]) && InLoop(path[j])
  {
    MovesRaiseRank(path[j - 1], path[j]);
    if i < j - 1 {
      RankGrows(path, i, j - 1);
    }
  }

  /** Outside the loop no status is entered twice, and a financed invoice is never rejected. */
  lemma PathsDoNotReturn(path: seq<Status>)
    requires IsPath(path)
    ensures forall i, j :: 0 <= i < j < |path| && path[i] == path[j] ==> InLoop(path[i])
    ensures forall i, j :: 0 <= i < j < |path| && path[i] == FINANCED ==> path[j] != REJECTED
  {
    forall i, j | 0 <= i < j < |path|
      ensures path[i] == path[j] ==> InLoop(path[i])
      ensures path[i] == FINANCED ==> path[j] != REJECTED
    {
      RankGrows(path, i, j);
    }
  }

  function MovesOutsideLoop(path: seq<Status>): nat {
    if |path| < 2 then 0
    else
      MovesOutsideLoop(path[..|path| - 1])
      + if InLoop(path[|path| - 2]) && InLoop(path[|path| - 1]) then 0 else 1
  }

  /** However long an invoice alternates between OVERDUE and PARTIALLY_PAID, it makes at most seven
      other moves. */
  lemma {:induction false} OtherMovesAreBounded(path: seq<Status>)
    requires IsPath(path)
    ensures MovesOutsideLoop(path) <= Rank(path[|path| - 1]) <= 7
  {
    if |path| >= 2 {
      OtherMovesAreBounded(path[..|path| - 1]);
      MovesRaiseRank(path[|path| - 2], path[|path| - 1]);
    }
  }

  // ---------------------------------------------------------------------------------------------
  // The outbox against the tables
  // ---------------------------------------------------------------------------------------------

  function PathOf(history: seq<OutboxEvent>): seq<Status>
    requires forall e :: e in history ==> e.InvoiceStatusChanged?
  {
    seq(|history|, k requires 0 <= k < |history| => history[k].payload.status)
  }

  /** The events of one invoice: each starts from the status that the one before it reached, the last
      one reached the row's status, and everything but the status agrees with the row throughout. */
  ghost predicate Chain(history: seq<OutboxEvent>, row: Invoice, id: nat) {
    && (forall e :: e in history ==> e.InvoiceStatusChanged?)
    && IsPath(PathOf(history))
    && history[0].payload.previous == None
    && (forall k :: 0 < k < |history| ==> history[k].payload.previous == Some(history[k - 1].payload.status))
    && history[|history| - 1].payload.status == row.status
    && (forall k :: 0 <= k < |history| ==>
          history[k].payload == PayloadOf(row.(status := history[k].payload.status), id, history[k].payload.previous))
    && (row.settledAt.Some? <==> PAID in PathOf(history))
    && (row.ownershipTransferredAt.Some? <==>
          row.lendingProduct == Some(INVOICE_FACTORING) && FINANCED in PathOf(history))
  }

  /** Each row announced exactly once, in the order of their ids. */
  ghost predicate Announced(db: Db, seeded: nat) {
    var created, linked := Select(db.outbox, Organizations), Select(db.outbox, Relationships);
    && seeded + |created| == |db.organizations|
    && (forall k :: 0 <= k < |created| ==>
          var row := db.organizations[seeded + k];
          && created[k].OrganizationCreated?
          && created[k] == OrganizationCreated(seeded + k + 1, row.name, row.registration, row.country,
                                            created[k].source, created[k].funder))
    && |linked| == |db.relationships|
    && (forall k :: 0 <= k < |linked| ==> linked[k] == RelationshipUpserted(k + 1, db.relationships[k]))
  }

  ghost predicate Chained(db: Db) {
    && (forall i :: 0 <= i < |db.invoices| ==> Chain(Select(db.outbox, OfInvoice(i + 1)), db.invoices[i], i + 1))
    && (forall id: nat :: id == 0 || id > |db.invoices| ==> Select(db.outbox, OfInvoice(id)) == [])
  }

  ghost predicate HistoryInv(db: Db, seeded: nat) {
    Announced(db, seeded) && Chained(db)
  }

  lemma {:induction false} QuietAppendKeepsChains(db: Db, db': Db, e: OutboxEvent)
    requires Chained(db) && db'.invoices == db.invoices
    requires db'.outbox == db.outbox + [e] && !e.InvoiceStatusChanged?
    ensures Chained(db')
  {
    forall id: nat
      ensures Select(db'.outbox, OfInvoice(id)) == Select(db.outbox, OfInvoice(id))
    {
      SelectAppend(db.outbox, e, OfInvoice(id));
    }
  }

  lemma AddOrganizationIsTold(db: Db, newOrganization: NewOrganization, source: Source, funder: nat, seeded: nat)
    requires HistoryInv(db, seeded)
    ensures HistoryInv(AddOrganization(db, newOrganization, source, funder), seeded)
  {
    hide Select, Chained;
    var db' := AddOrganization(db, newOrganization, source, funder);
    var e := db'.outbox[|db.outbox|];
    assert db'.outbox == db.outbox + [e];
    SelectAppend(db.outbox, e, Organizations);
    SelectAppend(db.outbox, e, Relationships);
    QuietAppendKeepsChains(db, db', e);
  }

  lemma PersonasAreQuiet(db: Db, issuer: nat, debtor: nat, seeded: nat)
    requires HistoryInv(db, seeded) && IsOrganization(db, issuer) && IsOrganization(db, debtor)
    ensures HistoryInv(EnsureBuyer(EnsureSupplier(db, issuer), debtor), seeded)
  {
    assert EnsureBuyer(EnsureSupplier(db, issuer), debtor).outbox == db.outbox;
  }

  lemma RelationshipIsTold(db: Db, wanted: Relationship, seeded: nat)
    requires HistoryInv(db, seeded) && EnsureRelationship(db, wanted).Ok?
    ensures HistoryInv(EnsureRelationship(db, wanted).value.0, seeded)
  {
    hide Select, Chain;
    var (db', id) := EnsureRelationship(db, wanted).value;
    if db' != db {
      var e := RelationshipUpserted(id, wanted);
      SelectAppend(db.outbox, e, Organizations);
      SelectAppend(db.outbox, e, Relationships);
      QuietAppendKeepsChains(db, db', e);
    }
  }

  lemma AddInvoiceIsTold(db: Db, funder: nat, issuer: nat, debtor: nat, relationship: nat, dto: CreateDto, seeded: nat)
    requires HistoryInv(db, seeded)
    ensures HistoryInv(AddInvoice(db, funder, issuer, debtor, relationship, dto), seeded)
  {
    var db' := AddInvoice(db, funder, issuer, debtor, relationship, dto);
    var e, added := db'.outbox[|db.outbox|], |db.invoices| + 1;
    assert db'.outbox == db.outbox + [e];
    SelectAppend(db.outbox, e, Organizations);
    SelectAppend(db.outbox, e, Relationships);
    forall id: nat
      ensures Select(db'.outbox, OfInvoice(id)) == if id == added then [e] else Select(db.outbox, OfInvoice(id))
    {
      SelectAppend(db.outbox, e, OfInvoice(id));
    }
    FirstEventIsAChain(db'.invoices[added - 1], added);
    OtherRowsStayChained(db, db', added - 1);
  }

  lemma FirstEventIsAChain(row: Invoice, id: nat)
    requires row.status == UPLOADED && row.settledAt == None && row.ownershipTransferredAt == None
    ensures Chain([InvoiceStatusChanged(PayloadOf(row, id, None))], row, id)
  {
    assert PathOf([InvoiceStatusChanged(PayloadOf(row, id, None))]) == [UPLOADED];
  }

  /** Only the row at `i` has a new history. */
  lemma OtherRowsStayChained(db: Db, db': Db, i: nat)
    requires Chained(db) && |db.invoices| <= |db'.invoices| <= |db.invoices| + 1 && i < |db'.invoices|
    requires |db'.invoices| == |db.invoices| + 1 ==> i == |db.invoices|
    requires forall j :: 0 <= j < |db'.invoices| && j != i ==> db'.invoices[j] == db.invoices[j]
    requires forall id: nat :: id != i + 1 ==> Select(db'.outbox, OfInvoice(id)) == Select(db.outbox, OfInvoice(id))
    requires Chain(Select(db'.outbox, OfInvoice(i + 1)), db'.invoices[i], i + 1)
    ensures Chained(db')
  {
    forall j | 0 <= j < |db'.invoices| && j != i
      ensures Chain(Select(db'.outbox, OfInvoice(j + 1)), db'.invoices[j], j + 1)
    {
      assert Chain(Select(db.outbox, OfInvoice(j + 1)), db.invoices[j], j + 1);
      assert Select(db'.outbox, OfInvoice(j + 1)) == Select(db.outbox, OfInvoice(j + 1));
    }
  }

  lemma ChainGrows(history: seq<OutboxEvent>, row: Invoice, id: nat, to: Status, now: int)
    requires Chain(history, row, id) && to in Successors(row.status)
    ensures Chain(history + [InvoiceStatusChanged(PayloadOf(Moved(row, to, now), id, Some(row.status)))],
                  Moved(row, to, now), id)
  {
    var e := InvoiceStatusChanged(PayloadOf(Moved(row, to, now), id, Some(row.status)));
    assert PathOf(history + [e]) == PathOf(history) + [to];
    assert PathOf(history)[|history| - 1] == row.status;
  }

  lemma MoveIsTold(db: Db, now: int, orgId: nat, id: nat, to: Status, seeded: nat)
    requires HistoryInv(db, seeded)
    ensures HistoryInv(UpdateStatus(db, now, orgId, id, to).0, seeded)
  {
    hide Select, Chained;
    var (db', result) := UpdateStatus(db, now, orgId, id, to);
    if result.Ok? {
      var row := db.invoices[id - 1];
      var e := InvoiceStatusChanged(PayloadOf(Moved(row, to, now), id, Some(row.status)));
      SelectAppend(db.outbox, e, Organizations);
      SelectAppend(db.outbox, e, Relationships);
      MovedRowIsChained(db, db', id - 1, to, now);
    }
  }

  lemma MovedRowIsChained(db: Db, db': Db, i: nat, to: Status, now: int)
    requires Chained(db) && i < |db.invoices| && to in Successors(db.invoices[i].status)
    requires db'.invoices == db.invoices[i := Moved(db.invoices[i], to, now)]
    requires db'.outbox == db.outbox + [InvoiceStatusChanged(PayloadOf(db'.invoices[i], i + 1,
                                                                       Some(db.invoices[i].status)))]
    ensures Chained(db')
  {
    var e := db'.outbox[|db.outbox|];
    forall id: nat
      ensures Select(db'.outbox, OfInvoice(id))
           == Select(db.outbox, OfInvoice(id)) + if id == i + 1 then [e] else []
    {
      SelectAppend(db.outbox, e, OfInvoice(id));
    }
    ChainGrows(Select(db.outbox, OfInvoice(i + 1)), db.invoices[i], i + 1, to, now);
    OtherRowsStayChained(db, db', i);
  }

  lemma ResolveIsTold(db: Db, id: nat, newOrganization: NewOrganization, source: Source, funder: nat, seeded: nat)
    requires HistoryInv(db, seeded) && ResolveOrCreate(db, id, newOrganization, source, funder).Ok?
    ensures var (db', found) := ResolveOrCreate(db, id, newOrganization, source, funder).value;
            HistoryInv(db', seeded) && IsOrganization(db', found) && |db.organizations| <= |db'.organizations|
  {
    AddOrganizationIsTold(db, newOrganization, source, funder, seeded);
  }

  lemma CreateBetweenIsTold(db: Db, funder: nat, issuer: nat, debtor: nat, dto: CreateDto, seeded: nat)
    requires HistoryInv(db, seeded) && IsOrganization(db, issuer) && IsOrganization(db, debtor)
    requires CreateBetween(db, funder, issuer, debtor, dto).Ok?
    ensures HistoryInv(CreateBetween(db, funder, issuer, debtor, dto).value.0, seeded)
  {
    PersonasAreQuiet(db, issuer, debtor, seeded);
    var personas := EnsureBuyer(EnsureSupplier(db, issuer), debtor);
    if dto.relationship != 0 {
      AddInvoiceIsTold(personas, funder, issuer, debtor, dto.relationship, dto, seeded);
    } else {
      var wanted := Relationship(issuer, debtor, funder);
      RelationshipIsTold(personas, wanted, seeded);
      var (linked, id) := EnsureRelationship(personas, wanted).value;
      AddInvoiceIsTold(linked, funder, issuer, debtor, id, dto, seeded);
    }
  }

  lemma CreateIsTold(db: Db, orgId: nat, dto: CreateDto, seeded: nat)
    requires HistoryInv(db, seeded)
    ensures HistoryInv(Create(db, orgId, dto).0, seeded)
  {
    hide HistoryInv, ResolveOrCreate, CreateBetween;
    if Create(db, orgId, dto).1.Ok? {
      var funder := FunderPersona(db, orgId);
      ResolveIsTold(db, dto.issuer, Side(dto.newIssuer), INVOICE_ISSUER, funder, seeded);
      var (db1, issuer) := ResolveOrCreate(db, dto.issuer, Side(dto.newIssuer), INVOICE_ISSUER, funder).value;
      ResolveIsTold(db1, dto.debtor, Side(dto.newDebtor), INVOICE_DEBTOR, funder, seeded);
      var (db2, debtor) := ResolveOrCreate(db1, dto.debtor, Side(dto.newDebtor), INVOICE_DEBTOR, funder).value;
      CreateBetweenIsTold(db2, funder, issuer, debtor, dto, seeded);
    }
  }

  /** Every run tells its whole story: the outbox holds a legal chain for each invoice, ending in the
      invoice's current row, and nothing about invoices that do not exist. */
  lemma {:induction false} RunKeepsHistory(db: Db, steps: seq<Step>, seeded: nat)
    requires HistoryInv(db, seeded)
    ensures HistoryInv(Run(db, steps), seeded)
    decreases |steps|
  {
    if steps != [] {
      match steps[0] {
        case CreateStep(orgId, dto) => CreateIsTold(db, orgId, dto, seeded);
        case MoveStep(now, orgId, id, to) => MoveIsTold(db, now, orgId, id, to, seeded);
      }
      RunKeepsHistory(Apply(db, steps[0]), steps[1..], seeded);
    }
  }

  lemma HistoryIsSound(organizations: seq<Organization>, steps: seq<Step>)
    ensures HistoryInv(Run(Seeded(organizations), steps), |organizations|)
  {
    RunKeepsHistory(Seeded(organizations), steps, |organizations|);
  }

  /** What the history of any invoice of any run looks like. */
  lemma InvoiceLifecycle(organizations: seq<Organization>, steps: seq<Step>, i: nat)
    requires i < |Run(Seeded(organizations), steps).invoices|
    ensures var db := Run(Seeded(organizations), steps);
            var path, row := PathOf(Select(db.outbox, OfInvoice(i + 1))), db.invoices[i];
            && IsPath(path) && path[|path| - 1] == row.status
            && (forall m, n :: 0 <= m < n < |path| && path[m] == path[n] ==> InLoop(path[m]))
            && (forall m, n :: 0 <= m < n < |path| && path[m] == FINANCED ==> path[n] != REJECTED)
            && MovesOutsideLoop(path) <= 7
            && (row.settledAt.Some? <==> PAID in path)
            && (row.ownershipTransferredAt.Some? <==>
                  row.lendingProduct == Some(INVOICE_FACTORING) && FINANCED in path)
  {
    HistoryIsSound(organizations, steps);
    var db := Run(Seeded(organizations), steps);
    var path := PathOf(Select(db.outbox, OfInvoice(i + 1)));
    assert Chain(Select(db.outbox, OfInvoice(i + 1)), db.invoices[i], i + 1);
    PathsDoNotReturn(path);
    OtherMovesAreBounded(path);
  }
}
