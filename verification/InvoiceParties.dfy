/** Which organizations are suppliers and buyers, and which relationships there are: in every history those that its
    invoices call for, and no others. */
module InvoiceParties {
  import opened InvoiceRuns
  import opened InvoiceService
  import opened InvoiceStory
  import opened Wrappers
  import InvoiceTotals

  ghost predicate IsIssuer(invoices: seq<Invoice>, id: nat) {
    exists n :: 0 <= n < |invoices| && invoices[n].issuer == id
  }

  ghost predicate IsDebtor(invoices: seq<Invoice>, id: nat) {
    exists n :: 0 <= n < |invoices| && invoices[n].debtor == id
  }

  /** As entered, but a supplier and a buyer if an invoice made it one. */
  ghost predicate IsEarned(entered: Organization, row: Organization, issues: bool, owes: bool) {
    && row.name == entered.name && row.registration == entered.registration && row.country == entered.country
    && row.orgType == entered.orgType && row.funderPersona == entered.funderPersona
    && (row.isSupplier <==> entered.isSupplier || issues)
    && (row.isBuyer <==> entered.isBuyer || owes)
  }

  /** What an organization that a request brought starts with. */
  ghost predicate IsBlank(row: Organization) {
    row.funderPersona == 0 && !row.isSupplier && !row.isBuyer
  }

  /** Rows that were there are as they were but for the parties' marks, and new ones were blank but for these. */
  ghost predicate Marks(before: seq<Organization>, after: seq<Organization>, issuer: nat, debtor: nat) {
    && |before| <= |after|
    && (forall i :: 0 <= i < |before| ==> IsEarned(before[i], after[i], i + 1 == issuer, i + 1 == debtor))
    && (forall i :: |before| <= i < |after| ==>
          IsEarned(after[i].(isSupplier := false, isBuyer := false), after[i], i + 1 == issuer, i + 1 == debtor)
          && after[i].funderPersona == 0)
  }

  /** At most the relationship of the parties is added, and only for a request that names none. */
  ghost predicate Links(before: seq<Relationship>, after: seq<Relationship>, row: Invoice) {
    || after == before
    || (!row.namedByCaller && after == before + [Relationship(row.issuer, row.debtor, row.funder)]
        && row.relationship == |after|)
  }

  lemma BetweenMarks(db: Db, funder: nat, issuer: nat, debtor: nat, dto: CreateDto)
    requires IsOrganization(db, issuer) && IsOrganization(db, debtor)
    requires CreateBetween(db, funder, issuer, debtor, dto).Ok?
    ensures var after := CreateBetween(db, funder, issuer, debtor, dto).value.0;
      && |after.organizations| == |db.organizations| && |after.invoices| == |db.invoices| + 1
      && Marks(db.organizations, after.organizations, issuer, debtor)
      && Links(db.relationships, after.relationships, after.invoices[|db.invoices|])
  {
    hide InvoiceTotals.TotalsOf;
  }

  lemma ResolvedBringsBlank(db: Db, id: nat, asked: NewOrganization, source: Source, funder: nat)
    requires ResolveOrCreate(db, id, asked, source, funder).Ok?
    ensures var (after, found) := ResolveOrCreate(db, id, asked, source, funder).value;
      && IsOrganization(after, found) && db.organizations <= after.organizations
      && after.relationships == db.relationships && after.invoices == db.invoices
      && forall i :: |db.organizations| <= i < |after.organizations| ==> IsBlank(after.organizations[i])
  {
    OrganizationIsAsAsked(db, id, asked, source, funder);
    hide ResolveOrCreate;
  }

  /** Blank rows first, then the marks. */
  lemma BlankThenMarked(before: seq<Organization>, between: seq<Organization>, after: seq<Organization>,
                        issuer: nat, debtor: nat)
    requires before <= between && Marks(between, after, issuer, debtor) && |after| == |between|
    requires forall i :: |before| <= i < |between| ==> IsBlank(between[i])
    ensures Marks(before, after, issuer, debtor)
  {
    assert forall i :: 0 <= i < |before| ==> before[i] == between[i];
  }

  lemma CreationMarks(db: Db, orgId: nat, dto: CreateDto)
    requires Create(db, orgId, dto).1.Ok?
    ensures var after := Create(db, orgId, dto).0;
      && |after.invoices| == |db.invoices| + 1 && after.invoices[..|db.invoices|] == db.invoices
      && var row := after.invoices[|db.invoices|];
         && IsOrganization(after, row.issuer) && IsOrganization(after, row.debtor)
         && Marks(db.organizations, after.organizations, row.issuer, row.debtor)
         && Links(db.relationships, after.relationships, row)
  {
    hide ResolveOrCreate, CreateBetween, InvoiceTotals.TotalsOf, Marks, Links, IsBlank, SameNames;
    var funder := FunderPersona(db, orgId);
    ResolvedBringsBlank(db, dto.issuer, Side(dto.newIssuer), INVOICE_ISSUER, funder);
    var (db1, issuer) := ResolveOrCreate(db, dto.issuer, Side(dto.newIssuer), INVOICE_ISSUER, funder).value;
    ResolvedBringsBlank(db1, dto.debtor, Side(dto.newDebtor), INVOICE_DEBTOR, funder);
    var (db2, debtor) := ResolveOrCreate(db1, dto.debtor, Side(dto.newDebtor), INVOICE_DEBTOR, funder).value;
    BetweenMarks(db2, funder, issuer, debtor, dto);
    BetweenIsAsAsked(db2, funder, issuer, debtor, dto);
    assert forall i :: |db.organizations| <= i < |db1.organizations| ==> db2.organizations[i] == db1.organizations[i];
    BlankThenMarked(db.organizations, db2.organizations, Create(db, orgId, dto).0.organizations, issuer, debtor);
  }

  // ---------------------------------------------------------------------------------------------
  // Histories
  // ---------------------------------------------------------------------------------------------

  /** Every mark was entered, or an invoice made it. */
  ghost predicate AllEarned(entered: seq<Organization>, db: Db) {
    && |entered| <= |db.organizations|
    && (forall i :: 0 <= i < |entered| ==>
          IsEarned(entered[i], db.organizations[i], IsIssuer(db.invoices, i + 1), IsDebtor(db.invoices, i + 1)))
    && (forall i :: |entered| <= i < |db.organizations| ==>
          && IsEarned(db.organizations[i].(isSupplier := false, isBuyer := false), db.organizations[i],
                      IsIssuer(db.invoices, i + 1), IsDebtor(db.invoices, i + 1))
          && db.organizations[i].funderPersona == 0)
    && (forall n :: 0 <= n < |db.invoices| ==>
          IsOrganization(db, db.invoices[n].issuer) && IsOrganization(db, db.invoices[n].debtor))
  }

  /** Every relationship is that of an invoice whose request named none. */
  ghost predicate AllLinked(db: Db) {
    forall r :: 0 <= r < |db.relationships| ==> HasInvoice(db.invoices, r + 1, db.relationships[r])
  }

  ghost predicate HasInvoice(invoices: seq<Invoice>, id: nat, relationship: Relationship) {
    exists n :: 0 <= n < |invoices| && invoices[n].relationship == id && !invoices[n].namedByCaller
                && relationship == Relationship(invoices[n].issuer, invoices[n].debtor, invoices[n].funder)
  }

  lemma OneMoreParty(init: seq<Invoice>, row: Invoice, id: nat)
    ensures IsIssuer(init + [row], id) <==> IsIssuer(init, id) || row.issuer == id
    ensures IsDebtor(init + [row], id) <==> IsDebtor(init, id) || row.debtor == id
  {
    var all := init + [row];
    assert all[|init|] == row && forall n :: 0 <= n < |init| ==> all[n] == init[n];
  }

  lemma OneMoreLink(init: seq<Invoice>, row: Invoice, id: nat, relationship: Relationship)
    ensures HasInvoice(init, id, relationship) ==> HasInvoice(init + [row], id, relationship)
    ensures !row.namedByCaller && row.relationship == id
            && relationship == Relationship(row.issuer, row.debtor, row.funder) ==>
              HasInvoice(init + [row], id, relationship)
  {
    var all := init + [row];
    assert all[|init|] == row && forall n :: 0 <= n < |init| ==> all[n] == init[n];
  }

  lemma CreationEarns(entered: seq<Organization>, db: Db, after: Db, row: Invoice)
    requires AllEarned(entered, db) && after.invoices == db.invoices + [row]
    requires IsOrganization(after, row.issuer) && IsOrganization(after, row.debtor)
    requires Marks(db.organizations, after.organizations, row.issuer, row.debtor)
    ensures AllEarned(entered, after)
  {
    hide IsIssuer, IsDebtor;
    forall id: nat
      ensures IsIssuer(after.invoices, id) <==> IsIssuer(db.invoices, id) || row.issuer == id
      ensures IsDebtor(after.invoices, id) <==> IsDebtor(db.invoices, id) || row.debtor == id
      ensures id > |db.organizations| ==> !IsIssuer(db.invoices, id) && !IsDebtor(db.invoices, id)
    {
      OneMoreParty(db.invoices, row, id);
      if id > |db.organizations| {
        StrangersHaveNone(entered, db, id);
      }
    }
  }

  lemma CreationLinks(db: Db, after: Db, row: Invoice)
    requires AllLinked(db) && after.invoices == db.invoices + [row]
    requires Links(db.relationships, after.relationships, row)
    ensures AllLinked(after)
  {
    hide HasInvoice;
    forall r | 0 <= r < |after.relationships|
      ensures HasInvoice(after.invoices, r + 1, after.relationships[r])
    {
      OneMoreLink(db.invoices, row, r + 1, after.relationships[r]);
    }
  }

  lemma CreationTells(entered: seq<Organization>, db: Db, orgId: nat, dto: CreateDto)
    requires AllEarned(entered, db) && AllLinked(db) && Create(db, orgId, dto).1.Ok?
    ensures AllEarned(entered, Create(db, orgId, dto).0) && AllLinked(Create(db, orgId, dto).0)
  {
    CreationMarks(db, orgId, dto);
    hide Create, AllEarned, AllLinked, Marks, Links;
    var after := Create(db, orgId, dto).0;
    var row := after.invoices[|db.invoices|];
    assert after.invoices == db.invoices + [row];
    CreationEarns(entered, db, after, row);
    CreationLinks(db, after, row);
  }

  lemma StrangersHaveNone(entered: seq<Organization>, db: Db, id: nat)
    requires AllEarned(entered, db) && id > |db.organizations|
    ensures !IsIssuer(db.invoices, id) && !IsDebtor(db.invoices, id)
  {
  }

  ghost predicate SameParties(before: seq<Invoice>, after: seq<Invoice>) {
    && |after| == |before|
    && forall n :: 0 <= n < |before| ==>
         && after[n].issuer == before[n].issuer && after[n].debtor == before[n].debtor
         && after[n].funder == before[n].funder && after[n].relationship == before[n].relationship
         && after[n].namedByCaller == before[n].namedByCaller
  }

  lemma MoveLeavesParties(db: Db, now: int, orgId: nat, id: nat, to: Status)
    ensures var after := UpdateStatus(db, now, orgId, id, to).0;
      && after.organizations == db.organizations && after.relationships == db.relationships
      && SameParties(db.invoices, after.invoices)
  {
  }

  lemma SamePartiesTell(before: seq<Invoice>, after: seq<Invoice>)
    requires SameParties(before, after)
    ensures forall id: nat :: IsIssuer(after, id) <==> IsIssuer(before, id)
    ensures forall id: nat :: IsDebtor(after, id) <==> IsDebtor(before, id)
    ensures forall id: nat, relationship :: HasInvoice(before, id, relationship) ==> HasInvoice(after, id, relationship)
  {
  }

  lemma MoveEarns(entered: seq<Organization>, db: Db, now: int, orgId: nat, id: nat, to: Status)
    requires AllEarned(entered, db) && AllLinked(db)
    ensures AllEarned(entered, UpdateStatus(db, now, orgId, id, to).0)
    ensures AllLinked(UpdateStatus(db, now, orgId, id, to).0)
  {
    MoveLeavesParties(db, now, orgId, id, to);
    SamePartiesTell(db.invoices, UpdateStatus(db, now, orgId, id, to).0.invoices);
    hide UpdateStatus, IsEarned, IsIssuer, IsDebtor, HasInvoice;
  }

  lemma {:induction false} RunEarns(entered: seq<Organization>, db: Db, steps: seq<Step>)
    requires AllEarned(entered, db) && AllLinked(db)
    ensures AllEarned(entered, Run(db, steps)) && AllLinked(Run(db, steps))
    decreases |steps|
  {
    hide AllEarned, AllLinked, Create, UpdateStatus;
    if steps != [] {
      match steps[0] {
        case CreateStep(orgId, dto) =>
          if Create(db, orgId, dto).1.Ok? {
            CreationTells(entered, db, orgId, dto);
          } else {
            FailureChangesNothing(db, orgId, dto);
          }
        case MoveStep(now, orgId, id, to) => MoveEarns(entered, db, now, orgId, id, to);
      }
      RunEarns(entered, Apply(db, steps[0]), steps[1..]);
    }
  }

  /** In every history an organization is a supplier or a buyer if and only if it was entered as one or an invoice names
      it as issuer or debtor, nothing else about it ever changes, and every relationship is that of an invoice whose
      request named none. */
  lemma PartiesAreEarned(organizations: seq<Organization>, steps: seq<Step>)
    ensures var db := Run(Seeded(organizations), steps);
      AllEarned(organizations, db) && AllLinked(db)
  {
    assert AllEarned(organizations, Seeded(organizations)) && AllLinked(Seeded(organizations));
    hide AllEarned, AllLinked;
    RunEarns(organizations, Seeded(organizations), steps);
  }
}
