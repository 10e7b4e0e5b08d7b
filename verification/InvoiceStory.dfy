/** What requests come to: when an invoice can move, what a creation writes, what a second sending of it does, and what
    the rows of a history tell of the requests that wrote them. */
module InvoiceStory {
  import opened InvoiceRuns
  import opened InvoiceService
  import opened Wrappers
  import InvoiceTotals

  // ---------------------------------------------------------------------------------------------
  // Moves
  // ---------------------------------------------------------------------------------------------

  /** From where a status can be reached in one move. */
  function Predecessors(status: Status): set<Status> {
    match status
    case UPLOADED => {}
    case VALIDATED => {UPLOADED}
    case REJECTED => {UPLOADED, VALIDATED, APPROVED_FOR_FINANCE}
    case APPROVED_FOR_FINANCE => {VALIDATED}
    case PRESENTED => {APPROVED_FOR_FINANCE}
    case FINANCED => {APPROVED_FOR_FINANCE, PRESENTED}
    case PARTIALLY_PAID => {FINANCED, OVERDUE}
    case OVERDUE => {FINANCED, PARTIALLY_PAID}
    case PAID => {FINANCED, PARTIALLY_PAID, OVERDUE}
    case CLOSED => {PRESENTED, PAID}
  }

  /** The caller's organization has a funder persona, and the invoice is that funder's. */
  predicate Funds(db: Db, orgId: nat, id: nat) {
    && 1 <= orgId <= |db.organizations| && 1 <= id <= |db.invoices|
    && db.organizations[orgId - 1].funderPersona == db.invoices[id - 1].funder != 0
  }

  /** A move succeeds exactly when the caller funds the invoice and its status is one from which the wanted one can be
      reached; then the row has the new status, and otherwise nothing changes. */
  lemma MoveSucceedsIff(db: Db, now: int, orgId: nat, id: nat, to: Status)
    ensures var (after, result) := UpdateStatus(db, now, orgId, id, to);
      && (result.Ok? <==> Funds(db, orgId, id) && db.invoices[id - 1].status in Predecessors(to))
      && (if result.Ok? then
            && after.invoices == db.invoices[id - 1 := after.invoices[id - 1]]
            && after.invoices[id - 1].status == to
            && SameInvoice(db.invoices[id - 1], after.invoices[id - 1])
          else after == db)
  {
  }

  // ---------------------------------------------------------------------------------------------
  // What a creation writes
  // ---------------------------------------------------------------------------------------------

  /** How an organization of a request is found: by its id, by its registration number, by its name, or not at all, and
      then it is created as asked, in Malaysia unless a country is named. */
  lemma OrganizationIsAsAsked(db: Db, id: nat, asked: NewOrganization, source: Source, funder: nat)
    ensures match ResolveOrCreate(db, id, asked, source, funder)
      case Fail(error) => error == OrganizationNotFound && id > |db.organizations|
      case Ok((after, found)) =>
        && 1 <= found <= |after.organizations|
        && (if id != 0 then found == id && after == db
            else if asked.registration != "" && HasRegistration(db.organizations, asked.registration) then
              after == db && db.organizations[found - 1].registration == asked.registration
            else if HasName(db.organizations, asked.name) then
              after == db && db.organizations[found - 1].name == asked.name
            else
              && found == |db.organizations| + 1 && after.relationships == db.relationships
              && after.invoices == db.invoices
              && after.organizations
                 == db.organizations + [Organization(asked.name, asked.registration,
                                                     if asked.country == None then "MY" else asked.country.value,
                                                     asked.orgType, 0, false, false)]
              && after.outbox
                 == db.outbox + [OrganizationCreated(found, asked.name, asked.registration,
                                                     after.organizations[found - 1].country, source, funder)])
  {
  }

  predicate HasRegistration(organizations: seq<Organization>, registration: string) {
    exists i :: 0 <= i < |organizations| && organizations[i].registration == registration
  }

  predicate HasName(organizations: seq<Organization>, name: string) {
    exists i :: 0 <= i < |organizations| && organizations[i].name == name
  }

  /** The organization is the one named by id, or has the registration number or the name of the request. */
  predicate IsTheOne(organizations: seq<Organization>, found: nat, id: nat, asked: Option<NewOrganization>) {
    && 1 <= found <= |organizations|
    && (id != 0 ==> asked == None && found == id)
    && (id == 0 ==> && asked.Some?
                    && var row := organizations[found - 1];
                       || (asked.value.registration != "" && row.registration == asked.value.registration)
                       || row.name == asked.value.name)
  }

  lemma ResolvedIsTheOne(db: Db, id: nat, asked: Option<NewOrganization>, source: Source, funder: nat)
    requires (id == 0) != asked.None? && ResolveOrCreate(db, id, Side(asked), source, funder).Ok?
    ensures var (after, found) := ResolveOrCreate(db, id, Side(asked), source, funder).value;
      && IsTheOne(after.organizations, found, id, asked) && after.invoices == db.invoices
      && SameNames(db.organizations, after.organizations)
      && |after.organizations| <= |db.organizations| + 1
      && (forall i :: 0 <= i < |db.organizations| ==> after.organizations[i] == db.organizations[i])
  {
  }

  /** The first organizations have the names and numbers that they had. */
  ghost predicate SameNames(before: seq<Organization>, after: seq<Organization>) {
    && |before| <= |after|
    && forall i :: 0 <= i < |before| ==>
         before[i].name == after[i].name && before[i].registration == after[i].registration
  }

  /** A created invoice is as its request says, for the caller's funder, with the parties that the request names. */
  lemma InvoiceIsAsAsked(db: Db, orgId: nat, dto: CreateDto)
    requires Create(db, orgId, dto).1.Ok?
    ensures var (after, result) := Create(db, orgId, dto);
      && result.value == |db.invoices| + 1 == |after.invoices| && after.invoices[..|db.invoices|] == db.invoices
      && var row := after.invoices[|db.invoices|];
         && 1 <= orgId <= |db.organizations| && row.funder == db.organizations[orgId - 1].funderPersona != 0
         && IsTheOne(after.organizations, row.issuer, dto.issuer, dto.newIssuer)
         && IsTheOne(after.organizations, row.debtor, dto.debtor, dto.newDebtor)
         && row.issuer != row.debtor && row.number == dto.number && row.lendingProduct == dto.lendingProduct
         && row.currency == dto.currency && row.issueDate == dto.issueDate && row.dueDate == dto.dueDate
         && row.totals == InvoiceTotals.TotalsOf(dto.lines) && row.status == UPLOADED
         && row.settledAt == None && row.ownershipTransferredAt == None
         && row.namedByCaller == (dto.relationship != 0)
         && (dto.relationship != 0 ==> row.relationship == dto.relationship)
         && (dto.relationship == 0 ==> && 1 <= row.relationship <= |after.relationships|
                                       && after.relationships[row.relationship - 1]
                                          == Relationship(row.issuer, row.debtor, row.funder))
  {
    hide ResolveOrCreate, CreateBetween, InvoiceTotals.TotalsOf;
    var funder := FunderPersona(db, orgId);
    ResolvedIsTheOne(db, dto.issuer, dto.newIssuer, INVOICE_ISSUER, funder);
    var (db1, issuer) := ResolveOrCreate(db, dto.issuer, Side(dto.newIssuer), INVOICE_ISSUER, funder).value;
    ResolvedIsTheOne(db1, dto.debtor, dto.newDebtor, INVOICE_DEBTOR, funder);
    var (db2, debtor) := ResolveOrCreate(db1, dto.debtor, Side(dto.newDebtor), INVOICE_DEBTOR, funder).value;
    BetweenIsAsAsked(db2, funder, issuer, debtor, dto);
  }

  lemma BetweenIsAsAsked(db: Db, funder: nat, issuer: nat, debtor: nat, dto: CreateDto)
    requires IsOrganization(db, issuer) && IsOrganization(db, debtor)
    requires CreateBetween(db, funder, issuer, debtor, dto).Ok?
    ensures var (after, id) := CreateBetween(db, funder, issuer, debtor, dto).value;
      && id == |db.invoices| + 1 == |after.invoices| && after.invoices[..|db.invoices|] == db.invoices
      && SameNames(db.organizations, after.organizations) && |after.organizations| == |db.organizations|
      && var row := after.invoices[|db.invoices|];
         && row.funder == funder && row.issuer == issuer && row.debtor == debtor && issuer != debtor
         && row.number == dto.number && row.lendingProduct == dto.lendingProduct
         && row.currency == dto.currency && row.issueDate == dto.issueDate && row.dueDate == dto.dueDate
         && row.totals == InvoiceTotals.TotalsOf(dto.lines) && row.status == UPLOADED
         && row.settledAt == None && row.ownershipTransferredAt == None
         && row.namedByCaller == (dto.relationship != 0)
         && (dto.relationship != 0 ==> row.relationship == dto.relationship)
         && (dto.relationship == 0 ==> && 1 <= row.relationship <= |after.relationships|
                                       && after.relationships[row.relationship - 1]
                                          == Relationship(issuer, debtor, funder))
  {
    hide InvoiceTotals.TotalsOf;
  }

  /** For parties named by id, a creation succeeds exactly when the caller is a funder, both parties exist and differ,
      the funder has no such invoice of the issuer, and the pair is not another funder's unless a relationship is
      named; a failed one changes nothing. */
  lemma CreationSucceedsIff(db: Db, orgId: nat, dto: CreateDto)
    requires RelationshipsDistinct(db)
    requires dto.issuer != 0 && dto.debtor != 0 && dto.newIssuer == None && dto.newDebtor == None
    ensures var funder := if 1 <= orgId <= |db.organizations| then db.organizations[orgId - 1].funderPersona else 0;
      var (after, result) := Create(db, orgId, dto);
      && (result.Fail? ==> after == db)
      && (result.Ok? <==>
            && funder != 0 && dto.issuer != dto.debtor
            && IsOrganization(db, dto.issuer) && IsOrganization(db, dto.debtor)
            && !InvoiceExists(db.invoices, funder, dto.issuer, dto.number)
            && (dto.relationship != 0 || !PairOfOther(db, dto.issuer, dto.debtor, funder)))
  {
    hide InvoiceTotals.TotalsOf, FindRelationship;
    var funder := if 1 <= orgId <= |db.organizations| then db.organizations[orgId - 1].funderPersona else 0;
    if IsOrganization(db, dto.issuer) && IsOrganization(db, dto.debtor) {
      var personas := EnsureBuyer(EnsureSupplier(db, dto.issuer), dto.debtor);
      assert personas.relationships == db.relationships && RelationshipsDistinct(personas);
      EnsureFailsIffPairOfOtherFunder(personas, Relationship(dto.issuer, dto.debtor, funder));
    }
  }

  predicate PairOfOther(db: Db, from: nat, to: nat, funder: nat) {
    exists i :: 0 <= i < |db.relationships| && db.relationships[i].from == from && db.relationships[i].to == to
                && db.relationships[i].funder != funder
  }

  /** A request must name each party in exactly one way. */
  lemma PartiesAreNamedOnce(db: Db, orgId: nat, dto: CreateDto)
    requires (dto.issuer != 0) == dto.newIssuer.Some? || (dto.debtor != 0) == dto.newDebtor.Some?
    ensures Create(db, orgId, dto).1.Fail? && Create(db, orgId, dto).0 == db
  {
  }

  // ---------------------------------------------------------------------------------------------
  // Sending a request again
  // ---------------------------------------------------------------------------------------------

  lemma {:induction false} RegistrationIsStillFirst(a: seq<Organization>, b: seq<Organization>, registration: string)
    requires SameNames(a, b)
    ensures FindByRegistration(a, registration) != 0 ==>
              FindByRegistration(b, registration) == FindByRegistration(a, registration)
    ensures FindByRegistration(a, registration) == 0 ==>
              FindByRegistration(b, registration) == 0 || FindByRegistration(b, registration) > |a|
    decreases |b|
  {
    if |b| > |a| {
      RegistrationIsStillFirst(a, b[..|b| - 1], registration);
    } else if a != [] {
      RegistrationIsStillFirst(a[..|a| - 1], b[..|b| - 1], registration);
    }
  }

  lemma {:induction false} NameIsStillFirst(a: seq<Organization>, b: seq<Organization>, name: string)
    requires SameNames(a, b)
    ensures FindByName(a, name) != 0 ==> FindByName(b, name) == FindByName(a, name)
    ensures FindByName(a, name) == 0 ==> FindByName(b, name) == 0 || FindByName(b, name) > |a|
    decreases |b|
  {
    if |b| > |a| {
      NameIsStillFirst(a, b[..|b| - 1], name);
    } else if a != [] {
      NameIsStillFirst(a[..|a| - 1], b[..|b| - 1], name);
    }
  }

  /** The organization that is found by registration number or by name, or 0. */
  function Found(organizations: seq<Organization>, registration: string, name: string): nat {
    if registration != "" && FindByRegistration(organizations, registration) != 0
    then FindByRegistration(organizations, registration)
    else FindByName(organizations, name)
  }

  lemma ResolvingFinds(db: Db, asked: NewOrganization, source: Source, funder: nat)
    ensures var found := Found(db.organizations, asked.registration, asked.name);
      var result := ResolveOrCreate(db, 0, asked, source, funder);
      if found != 0 then result == Ok((db, found))
      else && result.Ok? && result.value.1 == |db.organizations| + 1
           && |result.value.0.organizations| == |db.organizations| + 1
           && result.value.0.organizations[..|db.organizations|] == db.organizations
           && result.value.0.organizations[|db.organizations|].name == asked.name
           && result.value.0.organizations[|db.organizations|].registration == asked.registration
  {
    hide FindByName, FindByRegistration;
  }

  /** What is found stays found, unless an organization created since has the registration number. */
  lemma FoundAgain(before: seq<Organization>, later: seq<Organization>, registration: string, name: string)
    requires SameNames(before, later) && Found(before, registration, name) != 0
    ensures var again := Found(later, registration, name);
      again == Found(before, registration, name)
      || (&& registration != "" && |before| < again <= |later| && later[again - 1].registration == registration
          && !HasRegistration(before, registration))
  {
    RegistrationIsStillFirst(before, later, registration);
    NameIsStillFirst(before, later, name);
    hide FindByName, FindByRegistration;
  }

  lemma CreatedIsFound(before: seq<Organization>, after: seq<Organization>, registration: string, name: string)
    requires |after| == |before| + 1 && after[..|before|] == before && Found(before, registration, name) == 0
    requires after[|before|].registration == registration && after[|before|].name == name
    ensures Found(after, registration, name) == |after|
  {
    FoundLast(before, after, registration, name);
    hide FindByName, FindByRegistration;
  }

  /** Resolved again later, an organization is found, and it is the same one unless an organization created since has
      the registration number asked for. */
  lemma ResolvingAgain(db: Db, later: Db, id: nat, asked: Option<NewOrganization>, source: Source, funder: nat)
    requires (id == 0) != asked.None? && ResolveOrCreate(db, id, Side(asked), source, funder).Ok?
    requires var db1 := ResolveOrCreate(db, id, Side(asked), source, funder).value.0;
      SameNames(db1.organizations, later.organizations)
    ensures var (db1, found) := ResolveOrCreate(db, id, Side(asked), source, funder).value;
      && ResolveOrCreate(later, id, Side(asked), source, funder).Ok?
      && var (same, again) := ResolveOrCreate(later, id, Side(asked), source, funder).value;
         && same == later
         && (again != found ==>
               && id == 0 && |db1.organizations| < again <= |later.organizations| && Side(asked).registration != ""
               && later.organizations[again - 1].registration == Side(asked).registration
               && !HasRegistration(db1.organizations, Side(asked).registration))
  {
    if id == 0 {
      var registration, name := asked.value.registration, asked.value.name;
      assert Side(asked) == asked.value;
      hide ResolveOrCreate, Found, HasRegistration, SameNames, Side;
      var db1 := ResolveOrCreate(db, 0, asked.value, source, funder).value.0;
      ResolvingFinds(db, asked.value, source, funder);
      if Found(db.organizations, registration, name) == 0 {
        CreatedIsFound(db.organizations, db1.organizations, registration, name);
      }
      FoundAgain(db1.organizations, later.organizations, registration, name);
      ResolvingFinds(later, asked.value, source, funder);
    }
  }

  lemma FoundLast(before: seq<Organization>, after: seq<Organization>, registration: string, name: string)
    requires |after| == |before| + 1 && after[..|before|] == before
    requires after[|before|].registration == registration && after[|before|].name == name
    requires FindByName(before, name) == 0
    ensures FindByName(after, name) == |after|
    ensures FindByRegistration(before, registration) == 0 ==> FindByRegistration(after, registration) == |after|
  {
  }

  /** The later of two parties that are looked up again. */
  lemma DebtorAgain(db1: Db, later: Db, dto: CreateDto, funder: nat, issuerAgain: nat)
    requires (dto.debtor == 0) != dto.newDebtor.None?
    requires ResolveOrCreate(db1, dto.debtor, Side(dto.newDebtor), INVOICE_DEBTOR, funder).Ok?
    requires var db2 := ResolveOrCreate(db1, dto.debtor, Side(dto.newDebtor), INVOICE_DEBTOR, funder).value.0;
      SameNames(db2.organizations, later.organizations) && |later.organizations| == |db2.organizations|
    requires |db1.organizations| < issuerAgain <= |later.organizations|
    ensures ResolveOrCreate(later, dto.debtor, Side(dto.newDebtor), INVOICE_DEBTOR, funder) == Ok((later, issuerAgain))
  {
    ResolvingAgain(db1, later, dto.debtor, dto.newDebtor, INVOICE_DEBTOR, funder);
    var (db2, debtor) := ResolveOrCreate(db1, dto.debtor, Side(dto.newDebtor), INVOICE_DEBTOR, funder).value;
    assert db2 != db1;
    assert debtor == |db2.organizations|;
  }

  /** Sent again at once, a request that succeeded is refused, as a duplicate or as naming one party twice, and changes
      nothing. */
  lemma ResendIsRefused(db: Db, orgId: nat, dto: CreateDto)
    requires Create(db, orgId, dto).1.Ok?
    ensures var after := Create(db, orgId, dto).0;
      Create(after, orgId, dto).0 == after && Create(after, orgId, dto).1 in {Fail(DuplicateInvoice), Fail(SameParty)}
  {
    hide ResolveOrCreate, CreateBetween, InvoiceTotals.TotalsOf;
    var funder := FunderPersona(db, orgId);
    var after := Create(db, orgId, dto).0;
    ResolvedIsTheOne(db, dto.issuer, dto.newIssuer, INVOICE_ISSUER, funder);
    var (db1, issuer) := ResolveOrCreate(db, dto.issuer, Side(dto.newIssuer), INVOICE_ISSUER, funder).value;
    ResolvedIsTheOne(db1, dto.debtor, dto.newDebtor, INVOICE_DEBTOR, funder);
    var (db2, debtor) := ResolveOrCreate(db1, dto.debtor, Side(dto.newDebtor), INVOICE_DEBTOR, funder).value;
    BetweenIsAsAsked(db2, funder, issuer, debtor, dto);
    PersonaStays(db, db2, after, funder, issuer, debtor, orgId, dto);
    assert InvoiceExists(after.invoices, funder, issuer, dto.number) by {
      var row := after.invoices[|db2.invoices|];
      assert row.funder == funder && row.issuer == issuer && row.number == dto.number;
    }
    ResolvingAgain(db, after, dto.issuer, dto.newIssuer, INVOICE_ISSUER, funder);
    if dto.issuer == 0 {
      var issuerAgain := ResolveOrCreate(after, dto.issuer, Side(dto.newIssuer), INVOICE_ISSUER, funder).value.1;
      if issuerAgain != issuer {
        DebtorAgain(db1, after, dto, funder, issuerAgain);
        SamePartyIsRefused(after, funder, issuerAgain, dto);
      } else {
        ResolvingAgain(db1, after, dto.debtor, dto.newDebtor, INVOICE_DEBTOR, funder);
        var debtorAgain := ResolveOrCreate(after, dto.debtor, Side(dto.newDebtor), INVOICE_DEBTOR, funder).value.1;
        DuplicateIsRefused(after, funder, issuer, debtorAgain, dto);
      }
    }
  }

  lemma SamePartyIsRefused(db: Db, funder: nat, party: nat, dto: CreateDto)
    requires IsOrganization(db, party)
    ensures CreateBetween(db, funder, party, party, dto) == Fail(SameParty)
  {
  }

  lemma DuplicateIsRefused(db: Db, funder: nat, issuer: nat, debtor: nat, dto: CreateDto)
    requires IsOrganization(db, issuer) && IsOrganization(db, debtor) && dto.issuer == 0
    requires InvoiceExists(db.invoices, funder, issuer, dto.number)
    ensures CreateBetween(db, funder, issuer, debtor, dto) in {Fail(DuplicateInvoice), Fail(SameParty)}
  {
  }

  lemma PersonaStays(db: Db, db2: Db, after: Db, funder: nat, issuer: nat, debtor: nat, orgId: nat, dto: CreateDto)
    requires IsOrganization(db2, issuer) && IsOrganization(db2, debtor)
    requires CreateBetween(db2, funder, issuer, debtor, dto) == Ok((after, |db2.invoices| + 1))
    requires |db.organizations| <= |db2.organizations|
    requires forall i :: 0 <= i < |db.organizations| ==> db2.organizations[i] == db.organizations[i]
    requires FunderPersona(db, orgId) != 0
    ensures FunderPersona(after, orgId) == FunderPersona(db, orgId)
  {
    hide InvoiceTotals.TotalsOf;
  }

  // ---------------------------------------------------------------------------------------------
  // What the rows of a history tell
  // ---------------------------------------------------------------------------------------------

  /** The step created this row. */
  ghost predicate CreatedBy(db: Db, step: Step, id: nat, row: Invoice) {
    && step.CreateStep? && Create(db, step.orgId, step.dto).1 == Ok(id) && 1 <= id
    && id - 1 < |Apply(db, step).invoices| && Apply(db, step).invoices[id - 1] == AsCreated(row)
  }

  function AsCreated(row: Invoice): Invoice {
    row.(status := UPLOADED, settledAt := None, ownershipTransferredAt := None)
  }

  /** The step moved the invoice there at that time. */
  predicate MovedBy(db: Db, step: Step, id: nat, to: Status, at: int) {
    step.MoveStep? && step.id == id && step.to == to && step.now == at
    && UpdateStatus(db, at, step.orgId, id, to).1.Ok?
  }

  ghost predicate WasCreated(db: Db, steps: seq<Step>, id: nat, row: Invoice) {
    exists k :: 0 <= k < |steps| && CreatedBy(Run(db, steps[..k]), steps[k], id, row)
  }

  ghost predicate WasMoved(db: Db, steps: seq<Step>, id: nat, to: Status, at: int) {
    exists k :: 0 <= k < |steps| && MovedBy(Run(db, steps[..k]), steps[k], id, to, at)
  }

  lemma {:induction false} RunSplits(db: Db, steps: seq<Step>, step: Step)
    ensures Run(db, steps + [step]) == Apply(Run(db, steps), step)
    decreases |steps|
  {
    hide Apply;
    if steps == [] {
      assert Run(Apply(db, step), []) == Apply(db, step);
      assert [] + [step] == [step] && [step][1..] == [];
    } else {
      assert (steps + [step])[1..] == steps[1..] + [step];
      RunSplits(Apply(db, steps[0]), steps[1..], step);
    }
  }

  lemma LongerRunTells(db: Db, init: seq<Step>, step: Step, id: nat, row: Invoice, to: Status, at: int)
    ensures WasCreated(db, init, id, row) || CreatedBy(Run(db, init), step, id, row) ==>
              WasCreated(db, init + [step], id, row)
    ensures WasMoved(db, init, id, to, at) || MovedBy(Run(db, init), step, id, to, at) ==>
              WasMoved(db, init + [step], id, to, at)
  {
    hide Run, CreatedBy, MovedBy;
    var steps := init + [step];
    assert steps[|init|] == step && steps[..|init|] == init;
    assert forall k :: 0 <= k < |init| ==> steps[k] == init[k] && steps[..k] == init[..k];
  }

  /** A step leaves a row, creates it, or moves it, dating what it does. */
  lemma StepTells(db: Db, step: Step, id: nat)
    requires 1 <= id <= |Apply(db, step).invoices|
    ensures |db.invoices| <= |Apply(db, step).invoices|
    ensures var row := Apply(db, step).invoices[id - 1];
      if id > |db.invoices| then row == AsCreated(row) && CreatedBy(db, step, id, row)
      else
        var before := db.invoices[id - 1];
        && SameInvoice(before, row)
        && (row.settledAt != before.settledAt ==>
              row.settledAt.Some? && MovedBy(db, step, id, PAID, row.settledAt.value))
        && (row.ownershipTransferredAt != before.ownershipTransferredAt ==>
              row.ownershipTransferredAt.Some? && row.lendingProduct == Some(INVOICE_FACTORING)
              && MovedBy(db, step, id, FINANCED, row.ownershipTransferredAt.value))
  {
    hide Create;
    match step
    case MoveStep(_, _, _, _) =>
    case CreateStep(orgId, dto) =>
      if Create(db, orgId, dto).1.Ok? {
        CreationAppends(db, orgId, dto);
      } else {
        FailureChangesNothing(db, orgId, dto);
      }
  }

  lemma CreationAppends(db: Db, orgId: nat, dto: CreateDto)
    requires Create(db, orgId, dto).1.Ok?
    ensures var (after, result) := Create(db, orgId, dto);
      && |after.invoices| == |db.invoices| + 1 && result == Ok(|after.invoices|)
      && (forall i :: 0 <= i < |db.invoices| ==> after.invoices[i] == db.invoices[i])
      && after.invoices[|db.invoices|] == AsCreated(after.invoices[|db.invoices|])
  {
    hide Create;
    InvoiceIsAsAsked(db, orgId, dto);
    var after := Create(db, orgId, dto).0;
    assert forall i :: 0 <= i < |db.invoices| ==> after.invoices[i] == after.invoices[..|db.invoices|][i];
  }

  lemma FailureChangesNothing(db: Db, orgId: nat, dto: CreateDto)
    requires Create(db, orgId, dto).1.Fail?
    ensures Create(db, orgId, dto).0 == db
  {
  }

  /** The row was created by a request, was settled by a move to PAID at the time it says, and changed owners by a move
      to FINANCED at the time it says. */
  ghost predicate IsTold(db: Db, steps: seq<Step>, id: nat, row: Invoice) {
    && WasCreated(db, steps, id, row)
    && (row.settledAt.Some? ==> WasMoved(db, steps, id, PAID, row.settledAt.value))
    && (row.ownershipTransferredAt.Some? ==> && row.lendingProduct == Some(INVOICE_FACTORING)
                                             && WasMoved(db, steps, id, FINANCED, row.ownershipTransferredAt.value))
  }

  lemma TellingGoesOn(db: Db, init: seq<Step>, step: Step, id: nat)
    requires 1 <= id <= |Apply(Run(db, init), step).invoices|
    requires id <= |Run(db, init).invoices| ==> IsTold(db, init, id, Run(db, init).invoices[id - 1])
    ensures IsTold(db, init + [step], id, Apply(Run(db, init), step).invoices[id - 1])
  {
    hide Run, Apply, WasCreated, WasMoved, CreatedBy, MovedBy;
    var before := Run(db, init);
    var row := Apply(before, step).invoices[id - 1];
    StepTells(before, step, id);
    LongerRunTells(db, init, step, id, row, PAID, if row.settledAt.Some? then row.settledAt.value else 0);
    LongerRunTells(db, init, step, id, row, FINANCED,
                   if row.ownershipTransferredAt.Some? then row.ownershipTransferredAt.value else 0);
    if id <= |before.invoices| {
      SameCreation(db, init, id, before.invoices[id - 1], row);
    }
  }

  lemma SameCreation(db: Db, steps: seq<Step>, id: nat, a: Invoice, b: Invoice)
    requires SameInvoice(a, b)
    ensures WasCreated(db, steps, id, a) <==> WasCreated(db, steps, id, b)
  {
    assert AsCreated(a) == AsCreated(b);
    hide Run, Apply, Create, AsCreated;
  }

  /** In every history of a directory each invoice tells of the requests that wrote it. */
  lemma {:induction false} EveryInvoiceIsTold(organizations: seq<Organization>, steps: seq<Step>, id: nat)
    requires 1 <= id <= |Run(Seeded(organizations), steps).invoices|
    ensures IsTold(Seeded(organizations), steps, id, Run(Seeded(organizations), steps).invoices[id - 1])
    decreases |steps|
  {
    if steps != [] {
      var init, step := steps[..|steps| - 1], steps[|steps| - 1];
      assert init + [step] == steps;
      RunSplits(Seeded(organizations), init, step);
      hide Run, Apply, IsTold, Seeded;
      if id <= |Run(Seeded(organizations), init).invoices| {
        EveryInvoiceIsTold(organizations, init, id);
      }
      TellingGoesOn(Seeded(organizations), init, step, id);
    }
  }
}
