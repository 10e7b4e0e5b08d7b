/** Whole runs of invoice creations and status moves: the trade network they build, and the event
    history that every invoice leaves in the outbox. */
module InvoiceRuns {
  import opened Wrappers
  import opened InvoiceService
  import InvoiceTotals

  datatype Step =
    | CreateStep(orgId: nat, dto: CreateDto)
    | MoveStep(now: int, orgId: nat, id: nat, to: Status)

  function Apply(db: Db, step: Step): Db {
    match step
    case CreateStep(orgId, dto) => Create(db, orgId, dto).0
    case MoveStep(now, orgId, id, to) => UpdateStatus(db, now, orgId, id, to).0
  }

  function Run(db: Db, steps: seq<Step>): Db
    decreases |steps|
  {
    if steps == [] then db else Run(Apply(db, steps[0]), steps[1..])
  }

  /** A directory of organizations that were entered some other way, and nothing else. */
  function Seeded(organizations: seq<Organization>): Db {
    Db(organizations, [], [], [])
  }

  // ---------------------------------------------------------------------------------------------
  // The trade network
  // ---------------------------------------------------------------------------------------------

  predicate IsOrganization(db: Db, id: nat) {
    1 <= id <= |db.organizations|
  }

  /** From `seeded` on, the organizations were created by invoices, and each differs from every
      earlier one in name and in registration number. */
  ghost predicate OrganizationsDistinct(organizations: seq<Organization>, seeded: nat) {
    && seeded <= |organizations|
    && forall i, j :: 0 <= i < j < |organizations| && seeded <= j ==>
         && organizations[i].name != organizations[j].name
         && (organizations[j].registration != "" ==> organizations[i].registration != organizations[j].registration)
  }

  /** One relationship per ordered pair of organizations, whatever the funder. */
  ghost predicate RelationshipsDistinct(db: Db) {
    && (forall i, j :: 0 <= i < j < |db.relationships| ==>
          db.relationships[i].from != db.relationships[j].from || db.relationships[i].to != db.relationships[j].to)
    && (forall i :: 0 <= i < |db.relationships| ==>
          db.relationships[i].from != db.relationships[i].to && IsOrganization(db, db.relationships[i].from)
          && IsOrganization(db, db.relationships[i].to))
  }

  ghost predicate InvoicesDistinct(invoices: seq<Invoice>) {
    forall i, j :: 0 <= i < j < |invoices| ==>
      invoices[i].funder != invoices[j].funder || invoices[i].issuer != invoices[j].issuer ||
      invoices[i].number != invoices[j].number
  }

  ghost predicate InvoiceLinked(db: Db, invoice: Invoice) {
    && IsOrganization(db, invoice.issuer) && db.organizations[invoice.issuer - 1].isSupplier
    && IsOrganization(db, invoice.debtor) && db.organizations[invoice.debtor - 1].isBuyer
    && invoice.issuer != invoice.debtor
    && (!invoice.namedByCaller ==>
          && 1 <= invoice.relationship <= |db.relationships|
          && db.relationships[invoice.relationship - 1]
             == Relationship(invoice.issuer, invoice.debtor, invoice.funder))
  }

  ghost predicate NetworkInv(db: Db, seeded: nat) {
    && OrganizationsDistinct(db.organizations, seeded)
    && RelationshipsDistinct(db)
    && InvoicesDistinct(db.invoices)
    && (forall i :: 0 <= i < |db.invoices| ==> InvoiceLinked(db, db.invoices[i]))
  }

  /** Organizations keep their identity and only gain personas; relationships and the parties of
      invoices never change. */
  ghost predicate Extends(before: Db, after: Db) {
    && |before.organizations| <= |after.organizations|
    && (forall i :: 0 <= i < |before.organizations| ==>
          SameOrganization(before.organizations[i], after.organizations[i]))
    && before.relationships <= after.relationships
    && |before.invoices| <= |after.invoices|
    && (forall i :: 0 <= i < |before.invoices| ==> SameInvoice(before.invoices[i], after.invoices[i]))
    && before.outbox <= after.outbox
  }

  predicate SameOrganization(before: Organization, after: Organization) {
    && after == before.(isSupplier := after.isSupplier, isBuyer := after.isBuyer)
    && (before.isSupplier ==> after.isSupplier)
    && (before.isBuyer ==> after.isBuyer)
  }

  predicate SameInvoice(before: Invoice, after: Invoice) {
    after == before.(status := after.status, settledAt := after.settledAt,
                     ownershipTransferredAt := after.ownershipTransferredAt)
  }

  lemma ExtendsTransitive(a: Db, b: Db, c: Db)
    requires Extends(a, b) && Extends(b, c)
    ensures Extends(a, c)
  {
    forall i | 0 <= i < |a.organizations|
      ensures SameOrganization(a.organizations[i], c.organizations[i])
    {
      assert SameOrganization(a.organizations[i], b.organizations[i]);
      assert SameOrganization(b.organizations[i], c.organizations[i]);
    }
    forall i | 0 <= i < |a.invoices|
      ensures SameInvoice(a.invoices[i], c.invoices[i])
    {
      assert SameInvoice(a.invoices[i], b.invoices[i]);
      assert SameInvoice(b.invoices[i], c.invoices[i]);
    }
  }

  lemma ExtendsReflexive(db: Db)
    ensures Extends(db, db)
  {
  }

  lemma LinkSurvives(before: Db, after: Db, invoice: Invoice)
    requires Extends(before, after) && InvoiceLinked(before, invoice)
    ensures InvoiceLinked(after, invoice)
  {
    assert SameOrganization(before.organizations[invoice.issuer - 1], after.organizations[invoice.issuer - 1]);
    assert SameOrganization(before.organizations[invoice.debtor - 1], after.organizations[invoice.debtor - 1]);
  }

  /** Extending the organizations, or their personas, keeps everything else. */
  lemma OrganizationsKeep(db: Db, db': Db, seeded: nat)
    requires NetworkInv(db, seeded) && Extends(db, db')
    requires db'.relationships == db.relationships && db'.invoices == db.invoices
    requires OrganizationsDistinct(db'.organizations, seeded)
    ensures NetworkInv(db', seeded)
  {
    forall i | 0 <= i < |db.invoices|
      ensures InvoiceLinked(db', db.invoices[i])
    {
      LinkSurvives(db, db', db.invoices[i]);
    }
  }

  lemma AddOrganizationKeeps(db: Db, newOrganization: NewOrganization, source: Source, funder: nat, seeded: nat)
    requires NetworkInv(db, seeded)
    requires FindByName(db.organizations, newOrganization.name) == 0
    requires newOrganization.registration == "" ||
             FindByRegistration(db.organizations, newOrganization.registration) == 0
    ensures var db' := AddOrganization(db, newOrganization, source, funder);
            NetworkInv(db', seeded) && Extends(db, db')
  {
    var db' := AddOrganization(db, newOrganization, source, funder);
    assert Extends(db, db');
    OrganizationsKeep(db, db', seeded);
  }

  lemma ResolveKeeps(db: Db, id: nat, newOrganization: NewOrganization, source: Source, funder: nat, seeded: nat)
    requires NetworkInv(db, seeded) && ResolveOrCreate(db, id, newOrganization, source, funder).Ok?
    ensures var (db', found) := ResolveOrCreate(db, id, newOrganization, source, funder).value;
            && NetworkInv(db', seeded) && IsOrganization(db', found) && Extends(db, db')
            && (id != 0 ==> found == id) && |db.organizations| <= |db'.organizations|
            && db'.invoices == db.invoices && db'.relationships == db.relationships
  {
    if id == 0 && FindByName(db.organizations, newOrganization.name) == 0 &&
       (newOrganization.registration == "" ||
        FindByRegistration(db.organizations, newOrganization.registration) == 0) {
      AddOrganizationKeeps(db, newOrganization, source, funder, seeded);
    }
  }

  lemma PersonasKeep(db: Db, issuer: nat, debtor: nat, seeded: nat)
    requires NetworkInv(db, seeded) && IsOrganization(db, issuer) && IsOrganization(db, debtor)
    ensures var db' := EnsureBuyer(EnsureSupplier(db, issuer), debtor);
            && NetworkInv(db', seeded) && Extends(db, db')
            && db'.organizations[issuer - 1].isSupplier && db'.organizations[debtor - 1].isBuyer
  {
    var db1 := EnsureSupplier(db, issuer);
    var db2 := EnsureBuyer(db1, debtor);
    assert Extends(db, db1) && Extends(db1, db2);
    ExtendsTransitive(db, db1, db2);
    assert forall i :: 0 <= i < |db.organizations| ==> SameOrganization(db.organizations[i], db2.organizations[i]);
    OrganizationsKeep(db, db2, seeded);
  }

  lemma RelationshipKeeps(db: Db, wanted: Relationship, seeded: nat)
    requires NetworkInv(db, seeded) && EnsureRelationship(db, wanted).Ok?
    requires IsOrganization(db, wanted.from) && IsOrganization(db, wanted.to) && wanted.from != wanted.to
    ensures var (db', id) := EnsureRelationship(db, wanted).value;
            && NetworkInv(db', seeded) && Extends(db, db')
            && db'.organizations == db.organizations && db'.invoices == db.invoices
            && 1 <= id <= |db'.relationships| && db'.relationships[id - 1] == wanted
  {
    var (db', id) := EnsureRelationship(db, wanted).value;
    assert forall i :: 0 <= i < |db.invoices| ==> InvoiceLinked(db, db'.invoices[i]);
  }

  lemma AddInvoiceKeeps(db: Db, funder: nat, issuer: nat, debtor: nat, relationship: nat, dto: CreateDto, seeded: nat)
    requires NetworkInv(db, seeded) && IsOrganization(db, issuer) && IsOrganization(db, debtor) && issuer != debtor
    requires db.organizations[issuer - 1].isSupplier && db.organizations[debtor - 1].isBuyer
    requires !InvoiceExists(db.invoices, funder, issuer, dto.number)
    requires dto.relationship == 0 ==>
               && 1 <= relationship <= |db.relationships|
               && db.relationships[relationship - 1] == Relationship(issuer, debtor, funder)
    ensures NetworkInv(AddInvoice(db, funder, issuer, debtor, relationship, dto), seeded)
    ensures Extends(db, AddInvoice(db, funder, issuer, debtor, relationship, dto))
  {
    var db' := AddInvoice(db, funder, issuer, debtor, relationship, dto);
    assert forall i :: 0 <= i < |db.invoices| ==> InvoiceLinked(db, db'.invoices[i]);
  }

  lemma CreateBetweenKeeps(db: Db, funder: nat, issuer: nat, debtor: nat, dto: CreateDto, seeded: nat)
    requires NetworkInv(db, seeded) && IsOrganization(db, issuer) && IsOrganization(db, debtor)
    requires dto.issuer != 0 ==> issuer == dto.issuer && !InvoiceExists(db.invoices, funder, issuer, dto.number)
    requires CreateBetween(db, funder, issuer, debtor, dto).Ok?
    ensures var db' := CreateBetween(db, funder, issuer, debtor, dto).value.0;
            NetworkInv(db', seeded) && Extends(db, db')
  {
    PersonasKeep(db, issuer, debtor, seeded);
    var personas := EnsureBuyer(EnsureSupplier(db, issuer), debtor);
    if dto.relationship != 0 {
      AddInvoiceKeeps(personas, funder, issuer, debtor, dto.relationship, dto, seeded);
    } else {
      var wanted := Relationship(issuer, debtor, funder);
      RelationshipKeeps(personas, wanted, seeded);
      var (linked, id) := EnsureRelationship(personas, wanted).value;
      AddInvoiceKeeps(linked, funder, issuer, debtor, id, dto, seeded);
    }
  }

  lemma CreateKeeps(db: Db, orgId: nat, dto: CreateDto, seeded: nat)
    requires NetworkInv(db, seeded)
    ensures NetworkInv(Create(db, orgId, dto).0, seeded) && Extends(db, Create(db, orgId, dto).0)
  {
    hide NetworkInv, Extends, ResolveOrCreate, CreateBetween;
    ExtendsReflexive(db);
    if Create(db, orgId, dto).1.Ok? {
      var funder := FunderPersona(db, orgId);
      ResolveKeeps(db, dto.issuer, Side(dto.newIssuer), INVOICE_ISSUER, funder, seeded);
      var (db1, issuer) := ResolveOrCreate(db, dto.issuer, Side(dto.newIssuer), INVOICE_ISSUER, funder).value;
      ResolveKeeps(db1, dto.debtor, Side(dto.newDebtor), INVOICE_DEBTOR, funder, seeded);
      var (db2, debtor) := ResolveOrCreate(db1, dto.debtor, Side(dto.newDebtor), INVOICE_DEBTOR, funder).value;
      CreateBetweenKeeps(db2, funder, issuer, debtor, dto, seeded);
      var db3 := CreateBetween(db2, funder, issuer, debtor, dto).value.0;
      ExtendsTransitive(db, db1, db2);
      ExtendsTransitive(db, db2, db3);
    }
  }

  lemma MoveKeeps(db: Db, now: int, orgId: nat, id: nat, to: Status, seeded: nat)
    requires NetworkInv(db, seeded)
    ensures var db' := UpdateStatus(db, now, orgId, id, to).0;
            NetworkInv(db', seeded) && Extends(db, db')
  {
    if UpdateStatus(db, now, orgId, id, to).1.Ok? {
      var db' := UpdateStatus(db, now, orgId, id, to).0;
      ReplaceInvoiceKeeps(db, db', id, seeded);
    }
  }

  lemma ReplaceInvoiceKeeps(db: Db, db': Db, id: nat, seeded: nat)
    requires NetworkInv(db, seeded) && 1 <= id <= |db.invoices|
    requires db'.organizations == db.organizations && db'.relationships == db.relationships
    requires db.outbox <= db'.outbox
    requires |db'.invoices| == |db.invoices| && SameInvoice(db.invoices[id - 1], db'.invoices[id - 1])
    requires forall i :: 0 <= i < |db.invoices| && i != id - 1 ==> db'.invoices[i] == db.invoices[i]
    ensures NetworkInv(db', seeded) && Extends(db, db')
  {
    assert forall i :: 0 <= i < |db.invoices| ==> SameInvoice(db.invoices[i], db'.invoices[i]);
    SameInvoicesStayDistinct(db.invoices, db'.invoices);
    forall i | 0 <= i < |db.invoices|
      ensures InvoiceLinked(db', db'.invoices[i])
    {
      assert InvoiceLinked(db, db.invoices[i]);
    }
  }

  lemma SameInvoicesStayDistinct(before: seq<Invoice>, after: seq<Invoice>)
    requires InvoicesDistinct(before) && |before| == |after|
    requires forall i :: 0 <= i < |before| ==> SameInvoice(before[i], after[i])
    ensures InvoicesDistinct(after)
  {
  }

  lemma {:induction false} RunKeepsNetwork(db: Db, steps: seq<Step>, seeded: nat)
    requires NetworkInv(db, seeded)
    ensures NetworkInv(Run(db, steps), seeded) && Extends(db, Run(db, steps))
    decreases |steps|
  {
    if steps != [] {
      match steps[0] {
        case CreateStep(orgId, dto) => CreateKeeps(db, orgId, dto, seeded);
        case MoveStep(now, orgId, id, to) => MoveKeeps(db, now, orgId, id, to, seeded);
      }
      RunKeepsNetwork(Apply(db, steps[0]), steps[1..], seeded);
      ExtendsTransitive(db, Apply(db, steps[0]), Run(db, steps));
    }
  }

  /** What any run builds on any directory it starts from. */
  lemma NetworkIsSound(organizations: seq<Organization>, steps: seq<Step>)
    ensures NetworkInv(Run(Seeded(organizations), steps), |organizations|)
  {
    RunKeepsNetwork(Seeded(organizations), steps, |organizations|);
  }

  // ---------------------------------------------------------------------------------------------
  // Relationships are looked up per funder but unique per pair
  // ---------------------------------------------------------------------------------------------

  /** Finding or creating the relationship of a pair fails exactly when another funder has the pair. */
  lemma EnsureFailsIffPairOfOtherFunder(db: Db, wanted: Relationship)
    requires RelationshipsDistinct(db)
    ensures EnsureRelationship(db, wanted).Fail?
       <==> exists i :: 0 <= i < |db.relationships| && db.relationships[i].from == wanted.from
                        && db.relationships[i].to == wanted.to && db.relationships[i].funder != wanted.funder
  {
    var id := FindRelationship(db.relationships, wanted);
    if id != 0 {
      assert db.relationships[id - 1] == wanted;
    }
  }

  /** Once one funder's invoice has linked a pair, every later state refuses the pair's invoices to
      every other funder, unless the caller names a relationship. */
  lemma OtherFundersStayLockedOut(db: Db, steps: seq<Step>, seeded: nat, i: nat, funder: nat, dto: CreateDto)
    requires NetworkInv(db, seeded) && i < |db.relationships|
    requires funder != db.relationships[i].funder && dto.relationship == 0
    ensures var db', pair := Run(db, steps), db.relationships[i];
            && IsOrganization(db', pair.from) && IsOrganization(db', pair.to)
            && CreateBetween(db', funder, pair.from, pair.to, dto).Fail?
  {
    RunKeepsNetwork(db, steps, seeded);
    var db', pair := Run(db, steps), db.relationships[i];
    assert db'.relationships[i] == pair;
    PersonasKeep(db', pair.from, pair.to, seeded);
    EnsureFailsIffPairOfOtherFunder(EnsureBuyer(EnsureSupplier(db', pair.from), pair.to),
                                    Relationship(pair.from, pair.to, funder));
  }

  /** It takes two funders and one pair of trading partners, whatever the invoice is for. */
  lemma SecondFunderIsRefused(lines: seq<InvoiceTotals.LineDto>)
    requires lines != []
    ensures var funderA := Organization("Funder A", "", "MY", "", 1, false, false);
            var funderB := Organization("Funder B", "", "MY", "", 2, false, false);
            var seller := Organization("Seller", "", "MY", "", 0, false, false);
            var buyer := Organization("Buyer", "", "MY", "", 0, false, false);
            var dto := CreateDto("INV-1", 3, None, 4, None, 0, None, "MYR", "2026-07-01", "2026-08-01", lines);
            var db := Run(Seeded([funderA, funderB, seller, buyer]), [CreateStep(1, dto)]);
            && |db.invoices| == 1
            && Create(db, 2, dto) == (db, Fail(RelationshipTaken))
  {
    hide InvoiceTotals.TotalsOf, PayloadOf;
    var funderA := Organization("Funder A", "", "MY", "", 1, false, false);
    var funderB := Organization("Funder B", "", "MY", "", 2, false, false);
    var seller := Organization("Seller", "", "MY", "", 0, false, false);
    var buyer := Organization("Buyer", "", "MY", "", 0, false, false);
    var dto := CreateDto("INV-1", 3, None, 4, None, 0, None, "MYR", "2026-07-01", "2026-08-01", lines);
    var seed := Seeded([funderA, funderB, seller, buyer]);
    var db := Create(seed, 1, dto).0;
    assert db.relationships == [Relationship(3, 4, 1)];
    assert Run(seed, [CreateStep(1, dto)]) == db;
  }
}
