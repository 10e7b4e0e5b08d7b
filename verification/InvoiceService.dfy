/** Invoices of the trade directory: creation, with the organizations and relationships it brings
    about, and the status lifecycle. Every operation is one transaction.
 */
module InvoiceService {
  import opened Wrappers
  import InvoiceTotals

  datatype Status =
    | UPLOADED | VALIDATED | APPROVED_FOR_FINANCE | PRESENTED | FINANCED
    | PARTIALLY_PAID | PAID | OVERDUE | CLOSED | REJECTED

  datatype LendingProduct = AR_FINANCE | SUPPLY_CHAIN_FINANCE | INVOICE_FACTORING | TERM_LOAN

  /** Rows have the id one above their index, so 0 stands for an absent id. An empty registration
      number stands for none. */
  datatype Organization = Organization(name: string, registration: string, country: string, orgType: string,
                                       funderPersona: nat, isSupplier: bool, isBuyer: bool)

  /** A SUPPLIES_TO row; the table has no other type. */
  datatype Relationship = Relationship(from: nat, to: nat, funder: nat)

  /** `namedByCaller` remembers whether the caller supplied the relationship. */
  datatype Invoice = Invoice(funder: nat, number: string, issuer: nat, debtor: nat, relationship: nat,
                             namedByCaller: bool, lendingProduct: Option<LendingProduct>, currency: string,
                             issueDate: string, dueDate: string, totals: InvoiceTotals.Totals,
                             status: Status, settledAt: Option<int>, ownershipTransferredAt: Option<int>)

  datatype Source = INVOICE_ISSUER | INVOICE_DEBTOR

  datatype Payload = Payload(previous: Option<Status>, id: nat, number: string, funder: nat, issuer: nat,
                             debtor: nat, lendingProduct: Option<LendingProduct>, payable: real,
                             currency: string, issueDate: string, dueDate: string, status: Status)

  datatype OutboxEvent =
    | OrganizationCreated(organization: nat, name: string, registration: string, country: string,
                          source: Source, funder: nat)
    | RelationshipUpserted(id: nat, relationship: Relationship)
    | InvoiceStatusChanged(payload: Payload)

  datatype Db = Db(organizations: seq<Organization>, relationships: seq<Relationship>,
                   invoices: seq<Invoice>, outbox: seq<OutboxEvent>)

  datatype NewOrganization = NewOrganization(name: string, registration: string, country: Option<string>,
                                             orgType: string)

  datatype CreateDto = CreateDto(number: string, issuer: nat, newIssuer: Option<NewOrganization>,
                                 debtor: nat, newDebtor: Option<NewOrganization>, relationship: nat,
                                 lendingProduct: Option<LendingProduct>, currency: string, issueDate: string,
                                 dueDate: string, lines: seq<InvoiceTotals.LineDto>)

  datatype Error =
    | NotAFunder | AmbiguousIssuer | AmbiguousDebtor | DuplicateInvoice | OrganizationNotFound
    | SameParty | RelationshipTaken | InvoiceNotFound | IllegalTransition

  datatype Outcome<+T> = Ok(value: T) | Fail(error: Error)

  // ---------------------------------------------------------------------------------------------
  // Queries
  // ---------------------------------------------------------------------------------------------

  function FunderPersona(db: Db, orgId: nat): nat {
    if 1 <= orgId <= |db.organizations| then db.organizations[orgId - 1].funderPersona else 0
  }

  function FindByRegistration(organizations: seq<Organization>, registration: string): (id: nat)
    ensures id <= |organizations|
    ensures id != 0 ==> organizations[id - 1].registration == registration
    ensures id == 0 ==> forall i :: 0 <= i < |organizations| ==> organizations[i].registration != registration
  {
    if organizations == [] then 0
    else
      var earlier := FindByRegistration(organizations[..|organizations| - 1], registration);
      if earlier != 0 then earlier
      else if organizations[|organizations| - 1].registration == registration then |organizations| else 0
  }

  function FindByName(organizations: seq<Organization>, name: string): (id: nat)
    ensures id <= |organizations|
    ensures id != 0 ==> organizations[id - 1].name == name
    ensures id == 0 ==> forall i :: 0 <= i < |organizations| ==> organizations[i].name != name
  {
    if organizations == [] then 0
    else
      var earlier := FindByName(organizations[..|organizations| - 1], name);
      if earlier != 0 then earlier
      else if organizations[|organizations| - 1].name == name then |organizations| else 0
  }

  function FindRelationship(relationships: seq<Relationship>, wanted: Relationship): (id: nat)
    ensures id <= |relationships|
    ensures id != 0 ==> relationships[id - 1] == wanted
    ensures id == 0 ==> wanted !in relationships
  {
    if relationships == [] then 0
    else if relationships[|relationships| - 1] == wanted then |relationships|
    else FindRelationship(relationships[..|relationships| - 1], wanted)
  }

  /** The unique key of the table is (from, to, type); the funder is not part of it. */
  predicate PairTaken(relationships: seq<Relationship>, from: nat, to: nat) {
    exists i :: 0 <= i < |relationships| && relationships[i].from == from && relationships[i].to == to
  }

  predicate InvoiceExists(invoices: seq<Invoice>, funder: nat, issuer: nat, number: string) {
    exists i :: 0 <= i < |invoices| &&
      invoices[i].funder == funder && invoices[i].issuer == issuer && invoices[i].number == number
  }

  // ---------------------------------------------------------------------------------------------
  // Operations on the tables
  // ---------------------------------------------------------------------------------------------

  function ResolveOrCreate(db: Db, id: nat, newOrganization: NewOrganization, source: Source, funder: nat)
    : Outcome<(Db, nat)>
  {
    if id != 0 then
      if id <= |db.organizations| then Ok((db, id)) else Fail(OrganizationNotFound)
    else
      var byRegistration := if newOrganization.registration == "" then 0
                            else FindByRegistration(db.organizations, newOrganization.registration);
      var byName := FindByName(db.organizations, newOrganization.name);
      if byRegistration != 0 then Ok((db, byRegistration))
      else if byName != 0 then Ok((db, byName))
      else Ok((AddOrganization(db, newOrganization, source, funder), |db.organizations| + 1))
  }

  function AddOrganization(db: Db, newOrganization: NewOrganization, source: Source, funder: nat): Db {
    var country := if newOrganization.country.Some? then newOrganization.country.value else "MY";
    var created := Organization(newOrganization.name, newOrganization.registration, country,
                                newOrganization.orgType, 0, false, false);
    db.(organizations := db.organizations + [created],
        outbox := db.outbox + [OrganizationCreated(|db.organizations| + 1, created.name, created.registration,
                                                   country, source, funder)])
  }

  function EnsureSupplier(db: Db, id: nat): Db
    requires 1 <= id <= |db.organizations|
  {
    db.(organizations := db.organizations[id - 1 := db.organizations[id - 1].(isSupplier := true)])
  }

  function EnsureBuyer(db: Db, id: nat): Db
    requires 1 <= id <= |db.organizations|
  {
    db.(organizations := db.organizations[id - 1 := db.organizations[id - 1].(isBuyer := true)])
  }

  /** Looks the relationship up under the funder, but can only insert it if no funder has the pair;
      the re-read after a unique violation is under the funder again. */
  function EnsureRelationship(db: Db, wanted: Relationship): Outcome<(Db, nat)> {
    var existing := FindRelationship(db.relationships, wanted);
    if existing != 0 then Ok((db, existing))
    else if PairTaken(db.relationships, wanted.from, wanted.to) then Fail(RelationshipTaken)
    else
      var id := |db.relationships| + 1;
      Ok((db.(relationships := db.relationships + [wanted],
              outbox := db.outbox + [RelationshipUpserted(id, wanted)]), id))
  }

  function PayloadOf(invoice: Invoice, id: nat, previous: Option<Status>): Payload {
    Payload(previous, id, invoice.number, invoice.funder, invoice.issuer, invoice.debtor,
            invoice.lendingProduct, invoice.totals.payable, invoice.currency, invoice.issueDate,
            invoice.dueDate, invoice.status)
  }

  function AddInvoice(db: Db, funder: nat, issuer: nat, debtor: nat, relationship: nat, dto: CreateDto): Db {
    var invoice := Invoice(funder, dto.number, issuer, debtor, relationship, dto.relationship != 0,
                           dto.lendingProduct, dto.currency, dto.issueDate, dto.dueDate,
                           InvoiceTotals.TotalsOf(dto.lines), UPLOADED, None, None);
    var id := |db.invoices| + 1;
    db.(invoices := db.invoices + [invoice],
        outbox := db.outbox + [InvoiceStatusChanged(PayloadOf(invoice, id, None))])
  }

  /** The body of the transaction, once the parties are known. */
  function CreateBetween(db: Db, funder: nat, issuer: nat, debtor: nat, dto: CreateDto): Outcome<(Db, nat)>
    requires 1 <= issuer <= |db.organizations| && 1 <= debtor <= |db.organizations|
  {
    if issuer == debtor then Fail(SameParty)
    else if dto.issuer == 0 && InvoiceExists(db.invoices, funder, issuer, dto.number) then Fail(DuplicateInvoice)
    else
      var personas := EnsureBuyer(EnsureSupplier(db, issuer), debtor);
      var linked := if dto.relationship != 0 then Ok((personas, dto.relationship))
                    else EnsureRelationship(personas, Relationship(issuer, debtor, funder));
      if linked.Fail? then linked
      else Ok((AddInvoice(linked.value.0, funder, issuer, debtor, linked.value.1, dto), |db.invoices| + 1))
  }

  function Side(newOrganization: Option<NewOrganization>): NewOrganization {
    if newOrganization.Some? then newOrganization.value else NewOrganization("", "", None, "")
  }

  /** A failed creation leaves the tables as they were. */
  function Create(db: Db, orgId: nat, dto: CreateDto): (Db, Outcome<nat>) {
    var funder := FunderPersona(db, orgId);
    if funder == 0 then (db, Fail(NotAFunder))
    else if (dto.issuer == 0) == dto.newIssuer.None? then (db, Fail(AmbiguousIssuer))
    else if (dto.debtor == 0) == dto.newDebtor.None? then (db, Fail(AmbiguousDebtor))
    else if dto.issuer != 0 && InvoiceExists(db.invoices, funder, dto.issuer, dto.number) then
      (db, Fail(DuplicateInvoice))
    else
      match ResolveOrCreate(db, dto.issuer, Side(dto.newIssuer), INVOICE_ISSUER, funder)
      case Fail(error) => (db, Fail(error))
      case Ok((db1, issuer)) =>
        match ResolveOrCreate(db1, dto.debtor, Side(dto.newDebtor), INVOICE_DEBTOR, funder)
        case Fail(error) => (db, Fail(error))
        case Ok((db2, debtor)) =>
          match CreateBetween(db2, funder, issuer, debtor, dto)
          case Fail(error) => (db, Fail(error))
          case Ok((db3, id)) => (db3, Ok(id))
  }

  function Successors(status: Status): set<Status> {
    match status
    case UPLOADED => {VALIDATED, REJECTED}
    case VALIDATED => {APPROVED_FOR_FINANCE, REJECTED}
    case APPROVED_FOR_FINANCE => {PRESENTED, FINANCED, REJECTED}
    case PRESENTED => {FINANCED, CLOSED}
    case FINANCED => {PARTIALLY_PAID, PAID, OVERDUE}
    case PARTIALLY_PAID => {PAID, OVERDUE}
    case OVERDUE => {PARTIALLY_PAID, PAID}
    case PAID => {CLOSED}
    case CLOSED => {}
    case REJECTED => {}
  }

  function Moved(invoice: Invoice, to: Status, now: int): Invoice {
    invoice.(status := to,
             settledAt := if to == PAID then Some(now) else invoice.settledAt,
             ownershipTransferredAt :=
               if to == FINANCED && invoice.lendingProduct == Some(INVOICE_FACTORING) then Some(now)
               else invoice.ownershipTransferredAt)
  }

  function UpdateStatus(db: Db, now: int, orgId: nat, id: nat, to: Status): (Db, Outcome<()>) {
    var funder := FunderPersona(db, orgId);
    if funder == 0 then (db, Fail(NotAFunder))
    else if !(1 <= id <= |db.invoices|) || db.invoices[id - 1].funder != funder then (db, Fail(InvoiceNotFound))
    else
      var invoice := db.invoices[id - 1];
      if to !in Successors(invoice.status) then (db, Fail(IllegalTransition))
      else
        var moved := Moved(invoice, to, now);
        (db.(invoices := db.invoices[id - 1 := moved],
             outbox := db.outbox + [InvoiceStatusChanged(PayloadOf(moved, id, Some(invoice.status)))]), Ok(()))
  }

  // ---------------------------------------------------------------------------------------------
  // The services
  // ---------------------------------------------------------------------------------------------

  class InvoiceServices {
    var organizations: seq<Organization>
    var relationships: seq<Relationship>
    var invoices: seq<Invoice>
    var outbox: seq<OutboxEvent>

    function Tables(): Db
      reads this
    {
      Db(organizations, relationships, invoices, outbox)
    }

    constructor (organizations: seq<Organization>)
      ensures Tables() == Db(organizations, [], [], [])
    {
      this.organizations := organizations;
      relationships, invoices, outbox := [], [], [];
    }

    method ResolveOrCreateOrganization(id: nat, newOrganization: NewOrganization, source: Source, funder: nat)
      returns (result: Outcome<nat>)
      modifies this
      ensures match ResolveOrCreate(old(Tables()), id, newOrganization, source, funder)
              case Fail(error) => result == Fail(error) && Tables() == old(Tables())
              case Ok((db, found)) => result == Ok(found) && Tables() == db
      ensures result.Ok? ==> 1 <= result.value <= |organizations| && |old(organizations)| <= |organizations|
    {
      if id != 0 {
        return if id <= |organizations| then Ok(id) else Fail(OrganizationNotFound);
      }
      if newOrganization.registration != "" {
        var byRegistration := FindByRegistration(organizations, newOrganization.registration);
        if byRegistration != 0 {
          return Ok(byRegistration);
        }
      }
      var byName := FindByName(organizations, newOrganization.name);
      if byName != 0 {
        return Ok(byName);
      }
      var country := if newOrganization.country.Some? then newOrganization.country.value else "MY";
      organizations := organizations + [Organization(newOrganization.name, newOrganization.registration, country,
                                                     newOrganization.orgType, 0, false, false)];
      outbox := outbox + [OrganizationCreated(|organizations|, newOrganization.name, newOrganization.registration,
                                              country, source, funder)];
      return Ok(|organizations|);
    }

    method EnsureTradeNetwork(issuer: nat, debtor: nat, funder: nat, callerRelationship: nat)
      returns (result: Outcome<nat>)
      requires 1 <= issuer <= |organizations| && 1 <= debtor <= |organizations|
      modifies this
      ensures var personas := EnsureBuyer(EnsureSupplier(old(Tables()), issuer), debtor);
              if callerRelationship != 0 then result == Ok(callerRelationship) && Tables() == personas
              else match EnsureRelationship(personas, Relationship(issuer, debtor, funder))
                case Fail(error) => result == Fail(error)
                case Ok((db, id)) => result == Ok(id) && Tables() == db
      ensures invoices == old(invoices)
    {
      if !organizations[issuer - 1].isSupplier {
        organizations := organizations[issuer - 1 := organizations[issuer - 1].(isSupplier := true)];
      }
      if !organizations[debtor - 1].isBuyer {
        organizations := organizations[debtor - 1 := organizations[debtor - 1].(isBuyer := true)];
      }
      assert organizations == EnsureBuyer(EnsureSupplier(old(Tables()), issuer), debtor).organizations;
      if callerRelationship != 0 {
        return Ok(callerRelationship);
      }
      var wanted := Relationship(issuer, debtor, funder);
      var existing := FindRelationship(relationships, wanted);
      if existing != 0 {
        return Ok(existing);
      }
      if PairTaken(relationships, issuer, debtor) {
        return Fail(RelationshipTaken);
      }
      relationships := relationships + [wanted];
      outbox := outbox + [RelationshipUpserted(|relationships|, wanted)];
      return Ok(|relationships|);
    }

    method CreateInvoice(orgId: nat, dto: CreateDto) returns (result: Outcome<nat>)
      modifies this
      ensures (Tables(), result) == Create(old(Tables()), orgId, dto)
    {
      var funder := FunderPersona(Tables(), orgId);
      if funder == 0 {
        return Fail(NotAFunder);
      }
      if (dto.issuer == 0) == dto.newIssuer.None? {
        return Fail(AmbiguousIssuer);
      }
      if (dto.debtor == 0) == dto.newDebtor.None? {
        return Fail(AmbiguousDebtor);
      }
      if dto.issuer != 0 && InvoiceExists(invoices, funder, dto.issuer, dto.number) {
        return Fail(DuplicateInvoice);
      }
      var totals := InvoiceTotals.BuildLinesAndTotals(dto.lines);
      // The transaction: a failure below rolls everything back to here.
      var begin := Tables();
      result := CreateInTransaction(funder, dto, totals);
      if result.Fail? {
        organizations, relationships := begin.organizations, begin.relationships;
        invoices, outbox := begin.invoices, begin.outbox;
      }
    }

    method CreateInTransaction(funder: nat, dto: CreateDto, totals: InvoiceTotals.Totals)
      returns (result: Outcome<nat>)
      requires totals == InvoiceTotals.TotalsOf(dto.lines)
      modifies this
      ensures match ResolveOrCreate(old(Tables()), dto.issuer, Side(dto.newIssuer), INVOICE_ISSUER, funder)
              case Fail(error) => result == Fail(error)
              case Ok((db1, issuer)) =>
                match ResolveOrCreate(db1, dto.debtor, Side(dto.newDebtor), INVOICE_DEBTOR, funder)
                case Fail(error) => result == Fail(error)
                case Ok((db2, debtor)) =>
                  match CreateBetween(db2, funder, issuer, debtor, dto)
                  case Fail(error) => result == Fail(error)
                  case Ok((db3, id)) => result == Ok(id) && Tables() == db3
    {
      hide ResolveOrCreate, EnsureRelationship, EnsureSupplier, EnsureBuyer;
      var issuer := ResolveOrCreateOrganization(dto.issuer, Side(dto.newIssuer), INVOICE_ISSUER, funder);
      if issuer.Fail? {
        return issuer;
      }
      var debtor := ResolveOrCreateOrganization(dto.debtor, Side(dto.newDebtor), INVOICE_DEBTOR, funder);
      if debtor.Fail? {
        return debtor;
      }
      if issuer.value == debtor.value {
        return Fail(SameParty);
      }
      if dto.issuer == 0 && InvoiceExists(invoices, funder, issuer.value, dto.number) {
        return Fail(DuplicateInvoice);
      }
      var relationship := EnsureTradeNetwork(issuer.value, debtor.value, funder, dto.relationship);
      if relationship.Fail? {
        return relationship;
      }
      var invoice := Invoice(funder, dto.number, issuer.value, debtor.value, relationship.value,
                             dto.relationship != 0, dto.lendingProduct, dto.currency, dto.issueDate,
                             dto.dueDate, totals, UPLOADED, None, None);
      invoices := invoices + [invoice];
      outbox := outbox + [InvoiceStatusChanged(PayloadOf(invoice, |invoices|, None))];
      return Ok(|invoices|);
    }

    method ChangeStatus(now: int, orgId: nat, id: nat, to: Status) returns (result: Outcome<()>)
      modifies this`invoices, this`outbox
      ensures (Tables(), result) == UpdateStatus(old(Tables()), now, orgId, id, to)
    {
      var funder := FunderPersona(Tables(), orgId);
      if funder == 0 {
        return Fail(NotAFunder);
      }
      if id == 0 || id > |invoices| || invoices[id - 1].funder != funder {
        return Fail(InvoiceNotFound);
      }
      var invoice := invoices[id - 1];
      var from := invoice.status;
      if to !in Successors(from) {
        return Fail(IllegalTransition);
      }
      invoice := invoice.(status := to);
      if to == PAID {
        invoice := invoice.(settledAt := Some(now));
      }
      if to == FINANCED && invoice.lendingProduct == Some(INVOICE_FACTORING) {
        invoice := invoice.(ownershipTransferredAt := Some(now));
      }
      invoices := invoices[id - 1 := invoice];
      outbox := outbox + [InvoiceStatusChanged(PayloadOf(invoice, id, Some(from)))];
      return Ok(());
    }
  }
}
