/** The knowledge graph's view of invoices: kept up to date by events, and rebuilt from the table.

    Only Invoice nodes, the companies they touch and their two kinds of edge are modelled. A graph
    write and the recording of its event are one step.
 */
module GraphProjection {
  import opened Wrappers
  import opened Ids
  import opened InvoiceService
  import opened InvoiceRuns
  import opened InvoiceHistory

  /** The properties set on an Invoice node. */
  datatype Node = Node(number: string, amount: real, currency: string, status: Status, issueDate: string,
                       dueDate: string, lendingProduct: Option<LendingProduct>, funder: nat)

  /** `issued` holds (issuer, invoice) edges and `owedBy` holds (invoice, debtor) edges; merging an
      edge that exists changes nothing. */
  datatype Graph = Graph(invoices: map<nat, Node>, companies: set<nat>, issued: set<(nat, nat)>,
                         owedBy: set<(nat, nat)>, seen: set<nat>)

  const EMPTY := Graph(map[], {}, {}, {}, {})

  /** An event id of 0 stands for a missing one. */
  datatype Message = Message(eventId: nat, payload: Payload)

  function NodeOf(payload: Payload): Node {
    Node(payload.number, payload.payable, payload.currency, payload.status, payload.issueDate,
         payload.dueDate, payload.lendingProduct, payload.funder)
  }

  function RowNode(row: Invoice): Node {
    Node(row.number, row.totals.payable, row.currency, row.status, row.issueDate, row.dueDate,
         row.lendingProduct, row.funder)
  }

  function Write(g: Graph, payload: Payload): Graph {
    g.(invoices := g.invoices[payload.id := NodeOf(payload)],
       companies := g.companies + {payload.issuer, payload.debtor},
       issued := g.issued + {(payload.issuer, payload.id)},
       owedBy := g.owedBy + {(payload.id, payload.debtor)})
  }

  function Upsert(g: Graph, message: Message): Graph {
    if message.eventId == 0 then Write(g, message.payload)
    else if message.eventId in g.seen then g
    else Write(g, message.payload).(seen := g.seen + {message.eventId})
  }

  /** Matching finds no company, and so merges no edge, unless both ends have an organization. */
  predicate BothExist(companies: set<nat>, row: Invoice) {
    row.issuer in companies && row.debtor in companies
  }

  function IdsUpTo(n: nat): (ids: set<nat>)
    ensures forall id :: id in ids <==> 1 <= id <= n
  {
    if n == 0 then {} else IdsUpTo(n - 1) + {n}
  }

  predicate AreRows(db: Db, ids: seq<nat>) {
    forall k :: 0 <= k < |ids| ==> 1 <= ids[k] <= |db.invoices|
  }

  function RowNodes(db: Db, ids: set<nat>): map<nat, Node>
    requires forall id :: id in ids ==> 1 <= id <= |db.invoices|
  {
    map id | id in ids :: RowNode(db.invoices[id - 1])
  }

  function IssuerEdges(db: Db, ids: set<nat>, companies: set<nat>): set<(nat, nat)>
    requires forall id :: id in ids ==> 1 <= id <= |db.invoices|
  {
    set id | id in ids && BothExist(companies, db.invoices[id - 1]) :: (db.invoices[id - 1].issuer, id)
  }

  function DebtorEdges(db: Db, ids: set<nat>, companies: set<nat>): set<(nat, nat)>
    requires forall id :: id in ids ==> 1 <= id <= |db.invoices|
  {
    set id | id in ids && BothExist(companies, db.invoices[id - 1]) :: (id, db.invoices[id - 1].debtor)
  }

  /** What rebuilding the invoices leaves of a graph, for rows read in the order `ids`. */
  function Rebuilt(g: Graph, db: Db, ids: seq<nat>): Graph
    requires AreRows(db, ids)
  {
    var companies := g.companies + IdsUpTo(|db.organizations|);
    g.(companies := companies,
       invoices := g.invoices + RowNodes(db, Elements(ids)),
       issued := g.issued + IssuerEdges(db, Elements(ids), companies),
       owedBy := g.owedBy + DebtorEdges(db, Elements(ids), companies))
  }

  // ---------------------------------------------------------------------------------------------
  // The services
  // ---------------------------------------------------------------------------------------------

  class GraphStore {
    var invoices: map<nat, Node>
    var companies: set<nat>
    var issued: set<(nat, nat)>
    var owedBy: set<(nat, nat)>
    var seen: set<nat>

    function Contents(): Graph
      reads this
    {
      Graph(invoices, companies, issued, owedBy, seen)
    }

    constructor ()
      ensures Contents() == EMPTY
    {
      invoices, companies, issued, owedBy, seen := map[], {}, {}, {}, {};
    }

    /** Merges the ProcessedEvent node and tells whether that created it. */
    method FirstTimeSeen(eventId: nat) returns (first: bool)
      modifies this`seen
      ensures first <==> eventId == 0 || eventId !in old(seen)
      ensures seen == if eventId == 0 then old(seen) else old(seen) + {eventId}
    {
      if eventId == 0 {
        return true;
      }
      first := eventId !in seen;
      seen := seen + {eventId};
    }

    method UpsertInvoice(message: Message)
      modifies this
      ensures Contents() == Upsert(old(Contents()), message)
    {
      var first := FirstTimeSeen(message.eventId);
      if !first {
        assert seen == old(seen);
        return;
      }
      var payload := message.payload;
      invoices := invoices[payload.id := NodeOf(payload)];
      companies := companies + {payload.issuer};
      companies := companies + {payload.debtor};
      issued := issued + {(payload.issuer, payload.id)};
      owedBy := owedBy + {(payload.id, payload.debtor)};
      assert companies == old(companies) + {payload.issuer, payload.debtor};
    }

    method Rebuild(db: Db, ids: seq<nat>)
      requires AreRows(db, ids)
      modifies this
      ensures Contents() == Rebuilt(old(Contents()), db, ids)
    {
      RebuildCompanies(|db.organizations|);
      RebuildInvoices(db, ids);
    }

    method RebuildCompanies(count: nat)
      modifies this`companies
      ensures companies == old(companies) + IdsUpTo(count)
    {
      var org := 0;
      while org < count
        invariant org <= count
        invariant companies == old(companies) + IdsUpTo(org)
      {
        org := org + 1;
        companies := companies + {org};
      }
    }

    method RebuildInvoices(db: Db, ids: seq<nat>)
      requires AreRows(db, ids)
      modifies this`invoices, this`issued, this`owedBy
      ensures invoices == old(invoices) + RowNodes(db, Elements(ids))
      ensures issued == old(issued) + IssuerEdges(db, Elements(ids), companies)
      ensures owedBy == old(owedBy) + DebtorEdges(db, Elements(ids), companies)
    {
      ghost var done: set<nat> := {};
      for k := 0 to |ids|
        invariant done == Elements(ids[..k])
        invariant invoices == old(invoices) + RowNodes(db, done)
        invariant issued == old(issued) + IssuerEdges(db, done, companies)
        invariant owedBy == old(owedBy) + DebtorEdges(db, done, companies)
      {
        var id := ids[k];
        var row := db.invoices[id - 1];
        assert Elements(ids[..k + 1]) == done + {id};
        EdgesOfOneMore(db, done, id, companies);
        NodesOfOneMore(old(invoices), db, done, id);
        invoices := invoices[id := RowNode(row)];
        if row.issuer in companies && row.debtor in companies {
          issued := issued + {(row.issuer, id)};
          owedBy := owedBy + {(id, row.debtor)};
        }
        done := done + {id};
      }
      assert ids[..|ids|] == ids;
    }
  }

  lemma NodesOfOneMore(nodes: map<nat, Node>, db: Db, ids: set<nat>, id: nat)
    requires 1 <= id <= |db.invoices| && forall i :: i in ids ==> 1 <= i <= |db.invoices|
    ensures nodes + RowNodes(db, ids + {id})
         == (nodes + RowNodes(db, ids))[id := RowNode(db.invoices[id - 1])]
  {
  }

  lemma EdgesOfOneMore(db: Db, ids: set<nat>, id: nat, companies: set<nat>)
    requires 1 <= id <= |db.invoices| && forall i :: i in ids ==> 1 <= i <= |db.invoices|
    ensures var row := db.invoices[id - 1];
            var linked := BothExist(companies, row);
            && IssuerEdges(db, ids + {id}, companies)
               == IssuerEdges(db, ids, companies) + (if linked then {(row.issuer, id)} else {})
            && DebtorEdges(db, ids + {id}, companies)
               == DebtorEdges(db, ids, companies) + (if linked then {(id, row.debtor)} else {})
  {
  }

  // ---------------------------------------------------------------------------------------------
  // Deliveries
  // ---------------------------------------------------------------------------------------------

  /** The invoice events, in the order they were published. */
  function Payloads(outbox: seq<OutboxEvent>): seq<Payload> {
    if outbox == [] then []
    else
      var last := outbox[|outbox| - 1];
      Payloads(outbox[..|outbox| - 1]) + if last.InvoiceStatusChanged? then [last.payload] else []
  }

  /** A delivery lists positions in the published events, with repetitions. Before any copy of an event
      arrives, a copy of every older event of the same invoice has arrived; nothing is said about the
      order of events of different invoices. */
  ghost predicate IsDelivery(events: seq<Payload>, delivery: seq<nat>) {
    && (forall i :: 0 <= i < |delivery| ==> delivery[i] < |events|)
    && (forall i, m: nat ::
          (0 <= i < |delivery| && m < delivery[i] && events[m].id == events[delivery[i]].id) ==> m in delivery[..i])
  }

  /** Every published event has an id of its own. */
  function Deliver(g: Graph, events: seq<Payload>, delivery: seq<nat>): Graph
    requires forall i :: 0 <= i < |delivery| ==> delivery[i] < |events|
  {
    if delivery == [] then g
    else
      var last := delivery[|delivery| - 1];
      Upsert(Deliver(g, events, delivery[..|delivery| - 1]), Message(last + 1, events[last]))
  }

  /** `n` is the newest event of its invoice among those delivered. */
  ghost predicate IsNewest(events: seq<Payload>, delivered: set<nat>, n: nat) {
    && n in delivered && n < |events|
    && forall m :: m in delivered && m < |events| && events[m].id == events[n].id ==> m <= n
  }

  /** For each invoice heard of, the graph shows the newest event delivered. */
  ghost predicate ShowsNewest(g: Graph, events: seq<Payload>, delivered: set<nat>) {
    && (forall id :: id in g.invoices ==> exists n: nat :: IsNewest(events, delivered, n) && events[n].id == id)
    && (forall n: nat :: IsNewest(events, delivered, n) ==>
          events[n].id in g.invoices && g.invoices[events[n].id] == NodeOf(events[n]))
  }

  function SeenIds(delivered: set<nat>): set<nat> {
    set n | n in delivered :: n + 1
  }

  lemma SeenIdsTrack(delivered: set<nat>, n: nat)
    ensures n + 1 in SeenIds(delivered) <==> n in delivered
    ensures SeenIds(delivered + {n}) == SeenIds(delivered) + {n + 1}
  {
  }

  /** Older events of an invoice have been delivered before newer ones. */
  ghost predicate ClosedDown(events: seq<Payload>, delivered: set<nat>)
    requires forall n :: n in delivered ==> n < |events|
  {
    forall m, n :: (n in delivered && 0 <= m < n && events[m].id == events[n].id) ==> m in delivered
  }

  lemma DeliveryIsClosedDown(events: seq<Payload>, delivery: seq<nat>)
    requires IsDelivery(events, delivery)
    ensures ClosedDown(events, Elements(delivery))
  {
    forall m, n | (n in Elements(delivery) && 0 <= m < n && events[m].id == events[n].id)
      ensures m in Elements(delivery)
    {
      var i :| 0 <= i < |delivery| && delivery[i] == n;
      assert m in delivery[..i];
    }
  }

  lemma DeliveryPrefix(events: seq<Payload>, delivery: seq<nat>, k: nat)
    requires IsDelivery(events, delivery) && k <= |delivery|
    ensures IsDelivery(events, delivery[..k])
  {
    forall i, m: nat | (0 <= i < k && m < delivery[i] && events[m].id == events[delivery[i]].id)
      ensures m in delivery[..k][..i]
    {
      assert delivery[..k][..i] == delivery[..i];
    }
  }

  /** At every moment of a delivery the graph shows the newest state delivered of each invoice. */
  lemma {:induction false} DeliveryShowsNewest(events: seq<Payload>, delivery: seq<nat>)
    requires IsDelivery(events, delivery)
    ensures ShowsNewest(Deliver(EMPTY, events, delivery), events, Elements(delivery))
    ensures Deliver(EMPTY, events, delivery).seen == SeenIds(Elements(delivery))
  {
    if delivery == [] {
      NothingDelivered(events);
    } else {
      var init, last := delivery[..|delivery| - 1], delivery[|delivery| - 1];
      var g := Deliver(EMPTY, events, init);
      assert Deliver(EMPTY, events, delivery) == Upsert(g, Message(last + 1, events[last]));
      assert Elements(delivery) == Elements(init) + {last};
      DeliveryPrefix(events, delivery, |init|);
      DeliveryShowsNewest(events, init);
      DeliveryIsClosedDown(events, init);
      OneMoreDelivered(g, events, Elements(init), last);
    }
  }

  lemma NothingDelivered(events: seq<Payload>)
    ensures Elements([]) == {}
    ensures ShowsNewest(EMPTY, events, {}) && EMPTY.seen == SeenIds({})
  {
  }

  lemma OneMoreDelivered(g: Graph, events: seq<Payload>, delivered: set<nat>, n: nat)
    requires n < |events| && forall m :: m in delivered ==> m < |events|
    requires ShowsNewest(g, events, delivered) && g.seen == SeenIds(delivered)
    requires ClosedDown(events, delivered)
    ensures var g' := Upsert(g, Message(n + 1, events[n]));
            ShowsNewest(g', events, delivered + {n}) && g'.seen == SeenIds(delivered + {n})
  {
    SeenIdsTrack(delivered, n);
    if n in delivered {
      assert delivered + {n} == delivered;
    } else {
      NewEventNodes(g, events, delivered, n, g.seen + {n + 1});
    }
  }

  lemma NewEventNodes(g: Graph, events: seq<Payload>, delivered: set<nat>, n: nat, seen: set<nat>)
    requires n < |events| && forall m :: m in delivered ==> m < |events|
    requires ShowsNewest(g, events, delivered) && n !in delivered && ClosedDown(events, delivered)
    ensures ShowsNewest(Write(g, events[n]).(seen := seen), events, delivered + {n})
  {
    var g', after := Write(g, events[n]).(seen := seen), delivered + {n};
    assert IsNewest(events, after, n);
    forall id | id in g'.invoices
      ensures exists m: nat :: IsNewest(events, after, m) && events[m].id == id
    {
      if id != events[n].id {
        var m: nat :| IsNewest(events, delivered, m) && events[m].id == id;
        assert IsNewest(events, after, m);
      }
    }
    forall m: nat | IsNewest(events, after, m)
      ensures events[m].id in g'.invoices && g'.invoices[events[m].id] == NodeOf(events[m])
    {
      if m != n {
        assert IsNewest(events, delivered, m);
      }
    }
  }
}
