/** What it means that the graph agrees with the invoice table, in part and in whole. */
module GraphAgreement {
  import opened Ids
  import opened InvoiceService
  import opened InvoiceRuns
  import opened InvoiceHistory
  import opened GraphProjection

  // ---------------------------------------------------------------------------------------------
  // The published events against the table
  // ---------------------------------------------------------------------------------------------

  function AllIds(db: Db): set<nat> {
    IdsUpTo(|db.invoices|)
  }

  /** `n` is the last event ever published for its invoice. */
  ghost predicate IsLast(events: seq<Payload>, n: nat) {
    n < |events| && forall m :: n < m < |events| ==> events[m].id != events[n].id
  }

  /** Every event names a row and its unchanging parties. */
  ghost predicate EventsNameRows(events: seq<Payload>, db: Db) {
    forall n :: 0 <= n < |events| ==>
      && 1 <= events[n].id <= |db.invoices|
      && events[n].issuer == db.invoices[events[n].id - 1].issuer
      && events[n].debtor == db.invoices[events[n].id - 1].debtor
  }

  /** The last event of a row carries the row's current properties. */
  ghost predicate LastEventsCarryRows(events: seq<Payload>, db: Db)
    requires EventsNameRows(events, db)
  {
    forall n: nat :: IsLast(events, n) ==> NodeOf(events[n]) == RowNode(db.invoices[events[n].id - 1])
  }

  /** Every row has a last event. */
  ghost predicate RowsHaveEvents(events: seq<Payload>, db: Db) {
    forall id :: id in AllIds(db) ==> exists n: nat :: IsLast(events, n) && events[n].id == id
  }

  ghost predicate Describes(events: seq<Payload>, db: Db) {
    EventsNameRows(events, db) && LastEventsCarryRows(events, db) && RowsHaveEvents(events, db)
  }

  lemma {:induction false} PayloadsAreSelected(outbox: seq<OutboxEvent>)
    ensures forall n :: 0 <= n < |Payloads(outbox)| ==>
              InvoiceStatusChanged(Payloads(outbox)[n]) in Select(outbox, OfInvoice(Payloads(outbox)[n].id))
  {
    if outbox != [] {
      PayloadsAreSelected(outbox[..|outbox| - 1]);
    }
  }

  lemma {:induction false} LastSelectedIsLast(outbox: seq<OutboxEvent>, id: nat) returns (n: nat)
    requires Select(outbox, OfInvoice(id)) != []
    ensures var events, history := Payloads(outbox), Select(outbox, OfInvoice(id));
            IsLast(events, n) && events[n].id == id && InvoiceStatusChanged(events[n]) == history[|history| - 1]
  {
    var init, last := outbox[..|outbox| - 1], outbox[|outbox| - 1];
    if Matches(last, OfInvoice(id)) {
      n := |Payloads(init)|;
    } else {
      n := LastSelectedIsLast(init, id);
    }
  }

  lemma OnlyOneLast(events: seq<Payload>, m: nat, n: nat)
    requires IsLast(events, m) && IsLast(events, n) && events[m].id == events[n].id
    ensures m == n
  {
  }

  lemma EventNamesRow(db: Db, payload: Payload)
    requires Chained(db) && InvoiceStatusChanged(payload) in Select(db.outbox, OfInvoice(payload.id))
    ensures 1 <= payload.id <= |db.invoices|
    ensures payload.issuer == db.invoices[payload.id - 1].issuer
    ensures payload.debtor == db.invoices[payload.id - 1].debtor
  {
    hide Select;
    var history := Select(db.outbox, OfInvoice(payload.id));
    assert 1 <= payload.id <= |db.invoices|;
    assert Chain(history, db.invoices[payload.id - 1], payload.id - 1 + 1);
    var k :| 0 <= k < |history| && history[k] == InvoiceStatusChanged(payload);
  }

  lemma ChainedEventsNameRows(db: Db)
    requires Chained(db)
    ensures EventsNameRows(Payloads(db.outbox), db)
  {
    PayloadsAreSelected(db.outbox);
    hide Select, Payloads, Chained;
    var events := Payloads(db.outbox);
    forall n: nat | n < |events|
      ensures 1 <= events[n].id <= |db.invoices|
      ensures events[n].issuer == db.invoices[events[n].id - 1].issuer
      ensures events[n].debtor == db.invoices[events[n].id - 1].debtor
    {
      EventNamesRow(db, events[n]);
    }
  }

  lemma ChainedEventsCarryRows(db: Db)
    requires Chained(db) && EventsNameRows(Payloads(db.outbox), db)
    ensures LastEventsCarryRows(Payloads(db.outbox), db)
  {
    hide Payloads, Chained, NodeOf, RowNode;
    var events := Payloads(db.outbox);
    forall n: nat | IsLast(events, n)
      ensures NodeOf(events[n]) == RowNode(db.invoices[events[n].id - 1])
    {
      LastEventCarriesRow(db, n);
    }
  }

  lemma ChainedRowsHaveEvents(db: Db)
    requires Chained(db)
    ensures RowsHaveEvents(Payloads(db.outbox), db)
  {
    hide Payloads, Chained;
    var events := Payloads(db.outbox);
    forall id | id in AllIds(db)
      ensures exists n: nat :: IsLast(events, n) && events[n].id == id
    {
      var n := LastEventOfRow(db, id - 1);
    }
  }

  lemma ChainedEventsDescribe(db: Db)
    requires Chained(db)
    ensures Describes(Payloads(db.outbox), db)
  {
    hide Payloads, Chained, EventsNameRows, LastEventsCarryRows, RowsHaveEvents;
    ChainedEventsNameRows(db);
    ChainedEventsCarryRows(db);
    ChainedRowsHaveEvents(db);
  }

  lemma LastEventOfRow(db: Db, i: nat) returns (n: nat)
    requires Chained(db) && i < |db.invoices|
    ensures var events := Payloads(db.outbox);
            IsLast(events, n) && events[n].id == i + 1 && NodeOf(events[n]) == RowNode(db.invoices[i])
  {
    var history := Select(db.outbox, OfInvoice(i + 1));
    assert Chain(history, db.invoices[i], i + 1);
    n := LastSelectedIsLast(db.outbox, i + 1);
  }

  lemma LastEventCarriesRow(db: Db, n: nat)
    requires Chained(db) && IsLast(Payloads(db.outbox), n) && 1 <= Payloads(db.outbox)[n].id <= |db.invoices|
    ensures var event := Payloads(db.outbox)[n]; NodeOf(event) == RowNode(db.invoices[event.id - 1])
  {
    hide Chained, Payloads, NodeOf, RowNode;
    var m := LastEventOfRow(db, Payloads(db.outbox)[n].id - 1);
    OnlyOneLast(Payloads(db.outbox), m, n);
  }

  // ---------------------------------------------------------------------------------------------
  // Agreement in part: what has arrived
  // ---------------------------------------------------------------------------------------------

  predicate IsIssued(db: Db, e: (nat, nat)) {
    1 <= e.1 <= |db.invoices| && e.0 == db.invoices[e.1 - 1].issuer
  }

  predicate IsOwed(db: Db, e: (nat, nat)) {
    1 <= e.0 <= |db.invoices| && e.1 == db.invoices[e.0 - 1].debtor
  }

  /** No node that the table lacks, and the table's properties wherever the last event has arrived. */
  ghost predicate NodesFaithful(g: Graph, events: seq<Payload>, db: Db, arrived: set<nat>) {
    && g.invoices.Keys <= AllIds(db)
    && (forall n: nat :: n in arrived && IsLast(events, n) ==>
          events[n].id in g.invoices && g.invoices[events[n].id] == NodeOf(events[n]))
  }

  /** No edge that the table lacks, and every edge that has arrived. */
  ghost predicate EdgesFaithful(g: Graph, events: seq<Payload>, db: Db, arrived: set<nat>) {
    && (forall e :: e in g.issued ==> IsIssued(db, e))
    && (forall e :: e in g.owedBy ==> IsOwed(db, e))
    && (forall n: nat :: n in arrived && n < |events| ==>
          (events[n].issuer, events[n].id) in g.issued && (events[n].id, events[n].debtor) in g.owedBy)
  }

  ghost predicate Faithful(g: Graph, events: seq<Payload>, db: Db, arrived: set<nat>) {
    && g.seen == SeenIds(arrived)
    && NodesFaithful(g, events, db, arrived)
    && EdgesFaithful(g, events, db, arrived)
  }

  lemma WriteKeepsNodes(g: Graph, events: seq<Payload>, db: Db, arrived: set<nat>, n: nat, seen: set<nat>)
    requires Describes(events, db) && NodesFaithful(g, events, db, arrived) && n < |events| && n !in arrived
    requires forall m :: m in arrived ==> m < |events|
    requires ClosedDown(events, arrived)
    ensures NodesFaithful(Write(g, events[n]).(seen := seen), events, db, arrived + {n})
  {
    var g' := Write(g, events[n]).(seen := seen);
    forall m: nat | m in arrived + {n} && IsLast(events, m)
      ensures events[m].id in g'.invoices && g'.invoices[events[m].id] == NodeOf(events[m])
    {
      if m != n {
        assert events[m].id != events[n].id;
      }
    }
  }

  lemma WriteKeepsEdges(g: Graph, events: seq<Payload>, db: Db, arrived: set<nat>, n: nat, seen: set<nat>)
    requires Describes(events, db) && EdgesFaithful(g, events, db, arrived) && n < |events|
    ensures EdgesFaithful(Write(g, events[n]).(seen := seen), events, db, arrived + {n})
  {
    var g' := Write(g, events[n]).(seen := seen);
    assert events[n].id in AllIds(db);
    assert IsIssued(db, (events[n].issuer, events[n].id)) && IsOwed(db, (events[n].id, events[n].debtor));
    hide EdgesFaithful, Describes, NodeOf, IsIssued, IsOwed;
    AddedEdgesAreFaithful(g, g', events, db, arrived, n);
  }

  lemma AddedEdgesAreFaithful(g: Graph, g': Graph, events: seq<Payload>, db: Db, arrived: set<nat>, n: nat)
    requires EdgesFaithful(g, events, db, arrived) && n < |events|
    requires IsIssued(db, (events[n].issuer, events[n].id)) && IsOwed(db, (events[n].id, events[n].debtor))
    requires g'.issued == g.issued + {(events[n].issuer, events[n].id)}
    requires g'.owedBy == g.owedBy + {(events[n].id, events[n].debtor)}
    ensures EdgesFaithful(g', events, db, arrived + {n})
  {
    hide IsIssued, IsOwed;
  }

  lemma ArrivalIsFaithful(g: Graph, events: seq<Payload>, db: Db, arrived: set<nat>, n: nat)
    requires Describes(events, db) && Faithful(g, events, db, arrived) && n < |events|
    requires forall m :: m in arrived ==> m < |events|
    requires ClosedDown(events, arrived)
    ensures Faithful(Upsert(g, Message(n + 1, events[n])), events, db, arrived + {n})
  {
    SeenIdsTrack(arrived, n);
    var message := Message(n + 1, events[n]);
    if n in arrived {
      assert Upsert(g, message) == g;
      assert arrived + {n} == arrived;
    } else {
      assert Upsert(g, message) == Write(g, events[n]).(seen := g.seen + {n + 1});
      WriteKeepsNodes(g, events, db, arrived, n, g.seen + {n + 1});
      WriteKeepsEdges(g, events, db, arrived, n, g.seen + {n + 1});
    }
  }

  lemma EdgesComeFromTable(db: Db, ids: set<nat>, companies: set<nat>)
    requires forall id :: id in ids ==> 1 <= id <= |db.invoices|
    ensures forall e :: e in IssuerEdges(db, ids, companies) ==> IsIssued(db, e)
    ensures forall e :: e in DebtorEdges(db, ids, companies) ==> IsOwed(db, e)
  {
  }

  lemma NothingIsFaithful(events: seq<Payload>, db: Db)
    ensures Elements([]) == {} && Faithful(EMPTY, events, db, {})
  {
  }

  /** The graph has the invoices and the edges of the table, and no others. */
  ghost predicate MirrorsTable(g: Graph, db: Db) {
    && g.invoices.Keys == AllIds(db)
    && (forall id :: id in g.invoices ==> g.invoices[id] == RowNode(db.invoices[id - 1]))
    && (forall e :: e in g.issued <==> IsIssued(db, e))
    && (forall e :: e in g.owedBy <==> IsOwed(db, e))
  }

  /** So every invoice has exactly one issuer edge and exactly one debtor edge. */
  lemma MirroredEdgesAreUnique(g: Graph, db: Db, id: nat)
    requires MirrorsTable(g, db) && id in AllIds(db)
    ensures (set e | e in g.issued && e.1 == id) == {(db.invoices[id - 1].issuer, id)}
    ensures (set e | e in g.owedBy && e.0 == id) == {(id, db.invoices[id - 1].debtor)}
  {
    assert IsIssued(db, (db.invoices[id - 1].issuer, id));
    assert IsOwed(db, (id, db.invoices[id - 1].debtor));
  }

  lemma MirrorsAgree(g: Graph, h: Graph, db: Db)
    requires MirrorsTable(g, db) && MirrorsTable(h, db)
    ensures g.invoices == h.invoices && g.issued == h.issued && g.owedBy == h.owedBy
  {
  }

  lemma FaithfulRow(g: Graph, events: seq<Payload>, db: Db, arrived: set<nat>, id: nat)
    requires Describes(events, db) && Faithful(g, events, db, arrived) && id in AllIds(db)
    requires forall n: nat :: n < |events| ==> n in arrived
    ensures id in g.invoices && g.invoices[id] == RowNode(db.invoices[id - 1])
    ensures (db.invoices[id - 1].issuer, id) in g.issued && (id, db.invoices[id - 1].debtor) in g.owedBy
  {
    var n: nat :| IsLast(events, n) && events[n].id == id;
    assert n in arrived && NodeOf(events[n]) == RowNode(db.invoices[events[n].id - 1]);
    hide NodeOf, RowNode, SeenIds, IsIssued, IsOwed, AllIds, Describes;
  }

  lemma FaithfulMirrors(g: Graph, events: seq<Payload>, db: Db, arrived: set<nat>)
    requires Describes(events, db) && Faithful(g, events, db, arrived)
    requires forall n: nat :: n < |events| ==> n in arrived
    ensures MirrorsTable(g, db)
  {
    hide Describes, NodeOf;
    forall id | id in AllIds(db)
      ensures id in g.invoices && g.invoices[id] == RowNode(db.invoices[id - 1])
    {
      FaithfulRow(g, events, db, arrived, id);
    }
    forall e: (nat, nat)
      ensures IsIssued(db, e) ==> e in g.issued
      ensures IsOwed(db, e) ==> e in g.owedBy
    {
      if IsIssued(db, e) {
        FaithfulRow(g, events, db, arrived, e.1);
      }
      if IsOwed(db, e) {
        FaithfulRow(g, events, db, arrived, e.0);
      }
    }
  }

  lemma TableEdgeIsBuilt(db: Db, companies: set<nat>, e: (nat, nat))
    requires forall i :: 0 <= i < |db.invoices| ==> BothExist(companies, db.invoices[i])
    ensures IsIssued(db, e) ==> e in IssuerEdges(db, AllIds(db), companies)
    ensures IsOwed(db, e) ==> e in DebtorEdges(db, AllIds(db), companies)
  {
    if IsIssued(db, e) {
      assert e.1 in AllIds(db) && e == (db.invoices[e.1 - 1].issuer, e.1);
    }
    if IsOwed(db, e) {
      assert e.0 in AllIds(db) && e == (e.0, db.invoices[e.0 - 1].debtor);
    }
  }

  lemma RebuiltMirrors(db: Db, ids: seq<nat>)
    requires Elements(ids) == AllIds(db) && AreRows(db, ids)
    requires forall i :: 0 <= i < |db.invoices| ==>
               IsOrganization(db, db.invoices[i].issuer) && IsOrganization(db, db.invoices[i].debtor)
    ensures MirrorsTable(Rebuilt(EMPTY, db, ids), db)
  {
    var g := Rebuilt(EMPTY, db, ids);
    EdgesComeFromTable(db, AllIds(db), g.companies);
    forall e: (nat, nat)
      ensures IsIssued(db, e) ==> e in g.issued
      ensures IsOwed(db, e) ==> e in g.owedBy
    {
      TableEdgeIsBuilt(db, g.companies, e);
    }
    assert g.invoices == RowNodes(db, AllIds(db));
  }
}
