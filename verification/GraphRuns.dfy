/** The directory, the deliveries of its events and rebuilds of the graph, all running at once.

    A rebuild reads the tables once and writes companies and rows one by one afterwards, while the directory and the
    deliveries go on.
 */
module GraphRuns {
  import opened GraphAgreement
  import opened GraphProjection
  import opened Ids
  import opened InvoiceHistory
  import opened InvoiceRuns
  import opened InvoiceService

  /** `arrived` holds the events that have arrived, by their position in the published ones; `read` is what the latest
      rebuild has read. */
  datatype World = World(db: Db, graph: Graph, arrived: set<nat>, read: Db)

  datatype Move =
    | Changes(step: Step)
    | Arrives(event: nat)
    | Reads
    | WritesCompany(organization: nat)
    | WritesRow(invoice: nat)

  function Events(w: World): seq<Payload> {
    Payloads(w.db.outbox)
  }

  /** An event arrives for the first time only after the older events of its invoice have, and a rebuild writes what it
      has read. */
  ghost predicate Enabled(w: World, move: Move) {
    match move
    case Arrives(n) =>
      && n < |Events(w)|
      && (forall m: nat :: m < n && Events(w)[m].id == Events(w)[n].id ==> m in w.arrived)
    case WritesCompany(id) => IsOrganization(w.read, id)
    case WritesRow(id) => 1 <= id <= |w.read.invoices|
    case _ => true
  }

  /** One turn of the rebuild's loop over the rows. */
  function WriteRow(g: Graph, row: Invoice, id: nat): Graph {
    var linked := BothExist(g.companies, row);
    g.(invoices := g.invoices[id := RowNode(row)],
       issued := g.issued + if linked then {(row.issuer, id)} else {},
       owedBy := g.owedBy + if linked then {(id, row.debtor)} else {})
  }

  function Made(w: World, move: Move): World {
    match move
    case Changes(step) => w.(db := InvoiceRuns.Apply(w.db, step))
    case Arrives(n) =>
      if n < |Events(w)|
      then w.(graph := Upsert(w.graph, Message(n + 1, Events(w)[n])), arrived := w.arrived + {n})
      else w
    case Reads => w.(read := w.db)
    case WritesCompany(id) => w.(graph := w.graph.(companies := w.graph.companies + {id}))
    case WritesRow(id) =>
      if 1 <= id <= |w.read.invoices| then w.(graph := WriteRow(w.graph, w.read.invoices[id - 1], id)) else w
  }

  function MadeAll(w: World, moves: seq<Move>): World
    decreases |moves|
  {
    if moves == [] then w else MadeAll(Made(w, moves[0]), moves[1..])
  }

  ghost predicate IsRun(w: World, moves: seq<Move>)
    decreases |moves|
  {
    moves != [] ==> Enabled(w, moves[0]) && IsRun(Made(w, moves[0]), moves[1..])
  }

  function Start(organizations: seq<Organization>): World {
    World(Seeded(organizations), EMPTY, {}, Seeded(organizations))
  }

  /** A row is written as it is by now, or its last event is still to come. */
  ghost predicate Harmless(w: World, move: Move) {
    move.WritesRow? && 1 <= move.invoice <= |w.read.invoices| && move.invoice <= |w.db.invoices| ==>
      || RowNode(w.read.invoices[move.invoice - 1]) == RowNode(w.db.invoices[move.invoice - 1])
      || forall n: nat :: IsLast(Events(w), n) && Events(w)[n].id == move.invoice ==> n !in w.arrived
  }

  ghost predicate AllHarmless(w: World, moves: seq<Move>)
    decreases |moves|
  {
    moves != [] ==> Harmless(w, moves[0]) && AllHarmless(Made(w, moves[0]), moves[1..])
  }

  // ---------------------------------------------------------------------------------------------
  // What every run keeps, harmful writes or not
  // ---------------------------------------------------------------------------------------------

  ghost predicate InOrder(events: seq<Payload>, arrived: set<nat>) {
    (forall n :: n in arrived ==> n < |events|) && ClosedDown(events, arrived)
  }

  ghost predicate Base(w: World, seeded: nat) {
    && NetworkInv(w.db, seeded) && HistoryInv(w.db, seeded)
    && HistoryInv(w.read, seeded) && Extends(w.read, w.db)
    && InOrder(Events(w), w.arrived) && w.graph.seen == SeenIds(w.arrived)
  }

  lemma {:induction false} PayloadsGrow(before: seq<OutboxEvent>, after: seq<OutboxEvent>)
    requires before <= after
    ensures Payloads(before) <= Payloads(after)
    decreases |after|
  {
    if before != after {
      var init := after[..|after| - 1];
      assert before <= init;
      PayloadsGrow(before, init);
    }
  }

  lemma ChangeExtends(db: Db, step: Step, seeded: nat)
    requires NetworkInv(db, seeded) && HistoryInv(db, seeded)
    ensures var after := InvoiceRuns.Apply(db, step);
      && NetworkInv(after, seeded) && HistoryInv(after, seeded) && Extends(db, after)
      && Payloads(db.outbox) <= Payloads(after.outbox) && |db.invoices| <= |after.invoices|
  {
    hide NetworkInv, HistoryInv, Payloads;
    match step {
      case CreateStep(orgId, dto) =>
        CreateKeeps(db, orgId, dto, seeded);
        CreateIsTold(db, orgId, dto, seeded);
      case MoveStep(now, orgId, id, to) =>
        MoveKeeps(db, now, orgId, id, to, seeded);
        MoveIsTold(db, now, orgId, id, to, seeded);
    }
    PayloadsGrow(db.outbox, InvoiceRuns.Apply(db, step).outbox);
  }

  lemma OrderSurvives(before: seq<Payload>, after: seq<Payload>, arrived: set<nat>)
    requires InOrder(before, arrived) && before <= after
    ensures InOrder(after, arrived)
  {
  }

  lemma ArrivalKeepsOrder(w: World, n: nat)
    requires InOrder(Events(w), w.arrived) && Enabled(w, Arrives(n))
    ensures InOrder(Events(w), w.arrived + {n})
  {
    hide Payloads;
  }

  lemma StepKeepsBase(w: World, move: Move, seeded: nat)
    requires Base(w, seeded) && Enabled(w, move)
    ensures Base(Made(w, move), seeded)
    ensures Events(w) <= Events(Made(w, move)) && |w.db.invoices| <= |Made(w, move).db.invoices|
  {
    hide NetworkInv, HistoryInv, Extends, InOrder, Payloads, InvoiceRuns.Apply, SeenIds;
    match move {
      case Changes(step) =>
        ChangeExtends(w.db, step, seeded);
        ExtendsTransitive(w.read, w.db, InvoiceRuns.Apply(w.db, step));
        OrderSurvives(Events(w), Payloads(InvoiceRuns.Apply(w.db, step).outbox), w.arrived);
      case Arrives(n) =>
        ArrivalKeepsOrder(w, n);
        SeenAfter(w.graph, w.arrived, n, Events(w)[n]);
      case Reads => ExtendsReflexive(w.db);
      case _ =>
    }
  }

  lemma SeenAfter(g: Graph, arrived: set<nat>, n: nat, payload: Payload)
    requires g.seen == SeenIds(arrived)
    ensures Upsert(g, Message(n + 1, payload)).seen == SeenIds(arrived + {n})
    ensures n in arrived ==> Upsert(g, Message(n + 1, payload)) == g
    ensures n !in arrived ==> Upsert(g, Message(n + 1, payload)) == Write(g, payload).(seen := g.seen + {n + 1})
  {
    SeenIdsTrack(arrived, n);
    if n in arrived {
      assert arrived + {n} == arrived;
    }
  }

  lemma {:induction false} RunKeepsBase(w: World, moves: seq<Move>, seeded: nat)
    requires Base(w, seeded) && IsRun(w, moves)
    ensures Base(MadeAll(w, moves), seeded) && Events(w) <= Events(MadeAll(w, moves))
    ensures |w.db.invoices| <= |MadeAll(w, moves).db.invoices|
    decreases |moves|
  {
    hide Base, Events, Made;
    if moves != [] {
      StepKeepsBase(w, moves[0], seeded);
      RunKeepsBase(Made(w, moves[0]), moves[1..], seeded);
    }
  }

  lemma StartIsBase(organizations: seq<Organization>)
    ensures Base(Start(organizations), |organizations|)
  {
    NetworkIsSound(organizations, []);
    HistoryIsSound(organizations, []);
    ExtendsReflexive(Seeded(organizations));
  }

  // ---------------------------------------------------------------------------------------------
  // What runs keep whose writes are harmless
  // ---------------------------------------------------------------------------------------------

  /** At this moment the graph has no node and no edge that the table lacks, every edge that has arrived, and for every
      invoice whose last event has arrived the properties of its row. */
  ghost predicate Agrees(w: World) {
    NodesFaithful(w.graph, Events(w), w.db, w.arrived) && EdgesFaithful(w.graph, Events(w), w.db, w.arrived)
  }

  lemma BaseDescribes(w: World, seeded: nat)
    requires Base(w, seeded)
    ensures Describes(Events(w), w.db)
  {
    ChainedEventsDescribe(w.db);
  }

  lemma ChangeKeepsAgreement(g: Graph, before: seq<Payload>, after: seq<Payload>, db: Db, db': Db, arrived: set<nat>)
    requires before <= after && Extends(db, db') && forall n :: n in arrived ==> n < |before|
    requires NodesFaithful(g, before, db, arrived) && EdgesFaithful(g, before, db, arrived)
    ensures NodesFaithful(g, after, db', arrived) && EdgesFaithful(g, after, db', arrived)
  {
    assert AllIds(db) <= AllIds(db');
    forall n: nat | n in arrived && IsLast(after, n)
      ensures IsLast(before, n)
    {
      assert forall m :: n < m < |before| ==> before[m] == after[m];
    }
    forall e | IsIssued(db, e) ensures IsIssued(db', e) {
      assert SameInvoice(db.invoices[e.1 - 1], db'.invoices[e.1 - 1]);
    }
    forall e | IsOwed(db, e) ensures IsOwed(db', e) {
      assert SameInvoice(db.invoices[e.0 - 1], db'.invoices[e.0 - 1]);
    }
  }

  lemma ArrivalAgrees(g: Graph, events: seq<Payload>, db: Db, arrived: set<nat>, n: nat)
    requires Describes(events, db) && g.seen == SeenIds(arrived) && InOrder(events, arrived) && n < |events|
    requires NodesFaithful(g, events, db, arrived) && EdgesFaithful(g, events, db, arrived)
    ensures var after := Upsert(g, Message(n + 1, events[n]));
      NodesFaithful(after, events, db, arrived + {n}) && EdgesFaithful(after, events, db, arrived + {n})
  {
    hide NodesFaithful, EdgesFaithful, Describes, ClosedDown, Upsert, SeenIds;
    ArrivalIsFaithful(g, events, db, arrived, n);
  }

  lemma ArrivalKeepsAgreement(w: World, n: nat, seeded: nat)
    requires Base(w, seeded) && Agrees(w) && Enabled(w, Arrives(n))
    ensures Agrees(Made(w, Arrives(n)))
  {
    hide *;
    var payload := BaseIsOrdered(w, n, seeded);
    var after := w.(graph := Upsert(w.graph, Message(n + 1, payload)), arrived := w.arrived + {n});
    BaseDescribes(w, seeded);
    AgreesIsFaithful(w);
    ArrivalAgrees(w.graph, Events(w), w.db, w.arrived, n);
    AgreesIsFaithful(after);
  }

  lemma BaseIsOrdered(w: World, n: nat, seeded: nat) returns (payload: Payload)
    requires Base(w, seeded) && Enabled(w, Arrives(n))
    ensures InOrder(Events(w), w.arrived) && w.graph.seen == SeenIds(w.arrived)
    ensures n < |Events(w)| && payload == Events(w)[n]
    ensures var after := w.(graph := Upsert(w.graph, Message(n + 1, payload)), arrived := w.arrived + {n});
      Made(w, Arrives(n)) == after && Events(after) == Events(w)
  {
    payload := Events(w)[n];
  }

  lemma AgreesIsFaithful(w: World)
    ensures Agrees(w) <==> NodesFaithful(w.graph, Events(w), w.db, w.arrived)
                           && EdgesFaithful(w.graph, Events(w), w.db, w.arrived)
  {
  }

  /** A row of the table as it was, written now: its node is the table's own unless the row has moved on since. */
  lemma RowKeepsEdges(g: Graph, events: seq<Payload>, db: Db, arrived: set<nat>, read: Db, id: nat)
    requires EdgesFaithful(g, events, db, arrived) && Extends(read, db) && 1 <= id <= |read.invoices|
    ensures EdgesFaithful(WriteRow(g, read.invoices[id - 1], id), events, db, arrived)
  {
    assert SameInvoice(read.invoices[id - 1], db.invoices[id - 1]);
    assert IsIssued(db, (read.invoices[id - 1].issuer, id)) && IsOwed(db, (id, read.invoices[id - 1].debtor));
  }

  lemma FreshRowKeepsNodes(g: Graph, events: seq<Payload>, db: Db, arrived: set<nat>, row: Invoice, id: nat)
    requires Describes(events, db) && NodesFaithful(g, events, db, arrived) && id in AllIds(db)
    requires || RowNode(row) == RowNode(db.invoices[id - 1])
             || forall n: nat :: IsLast(events, n) && events[n].id == id ==> n !in arrived
    ensures NodesFaithful(WriteRow(g, row, id), events, db, arrived)
  {
    assert WriteRow(g, row, id).invoices == g.invoices[id := RowNode(row)];
    hide WriteRow, RowNode, NodeOf;
  }

  lemma StaleRowBreaksNodes(g: Graph, events: seq<Payload>, db: Db, arrived: set<nat>, row: Invoice, id: nat, n: nat)
    requires Describes(events, db) && IsLast(events, n) && events[n].id == id && n in arrived
    requires RowNode(row) != RowNode(db.invoices[id - 1])
    ensures !NodesFaithful(WriteRow(g, row, id), events, db, arrived)
  {
    assert WriteRow(g, row, id).invoices[id] == RowNode(row);
    hide WriteRow, RowNode, NodeOf;
  }

  lemma RowKeepsNodesIff(g: Graph, events: seq<Payload>, db: Db, arrived: set<nat>, row: Invoice, id: nat)
    requires Describes(events, db) && NodesFaithful(g, events, db, arrived) && id in AllIds(db)
    ensures NodesFaithful(WriteRow(g, row, id), events, db, arrived)
       <==> || RowNode(row) == RowNode(db.invoices[id - 1])
            || forall n: nat :: IsLast(events, n) && events[n].id == id ==> n !in arrived
  {
    hide NodesFaithful, WriteRow, RowNode;
    if RowNode(row) == RowNode(db.invoices[id - 1]) {
      FreshRowKeepsNodes(g, events, db, arrived, row, id);
    } else if n: nat :| IsLast(events, n) && events[n].id == id && n in arrived {
      StaleRowBreaksNodes(g, events, db, arrived, row, id, n);
    } else {
      FreshRowKeepsNodes(g, events, db, arrived, row, id);
    }
  }

  /** A row that a rebuild writes leaves the graph in agreement exactly when the row has not changed since it was
      read, or its last event has yet to arrive. */
  lemma WriteAgreesIff(w: World, id: nat, seeded: nat)
    requires Base(w, seeded) && Agrees(w) && Enabled(w, WritesRow(id))
    ensures Agrees(Made(w, WritesRow(id))) <==> Harmless(w, WritesRow(id))
  {
    hide *;
    var row, after := RowIsWritten(w, id, seeded);
    BaseDescribes(w, seeded);
    IdsAreRows(w.db, id);
    AgreesIsFaithful(w);
    RowKeepsEdges(w.graph, Events(w), w.db, w.arrived, w.read, id);
    RowKeepsNodesIff(w.graph, Events(w), w.db, w.arrived, row, id);
    AgreesIsFaithful(after);
  }

  lemma RowIsWritten(w: World, id: nat, seeded: nat) returns (row: Invoice, after: World)
    requires Base(w, seeded) && Enabled(w, WritesRow(id))
    ensures Extends(w.read, w.db) && 1 <= id <= |w.read.invoices| && id <= |w.db.invoices|
    ensures row == w.read.invoices[id - 1] && after == w.(graph := WriteRow(w.graph, row, id))
    ensures Made(w, WritesRow(id)) == after && Events(after) == Events(w)
    ensures Harmless(w, WritesRow(id))
       <==> || RowNode(row) == RowNode(w.db.invoices[id - 1])
            || forall n: nat :: IsLast(Events(w), n) && Events(w)[n].id == id ==> n !in w.arrived
  {
    row := w.read.invoices[id - 1];
    after := w.(graph := WriteRow(w.graph, row, id));
    hide RowNode, NetworkInv, HistoryInv, Payloads, InOrder;
  }

  lemma StepKeepsAgreement(w: World, move: Move, seeded: nat)
    requires Base(w, seeded) && Agrees(w) && Enabled(w, move) && Harmless(w, move)
    ensures Agrees(Made(w, move))
  {
    match move
    case Changes(step) =>
      ChangeExtends(w.db, step, seeded);
      ChangeKeepsAgreement(w.graph, Events(w), Payloads(InvoiceRuns.Apply(w.db, step).outbox), w.db,
                           InvoiceRuns.Apply(w.db, step), w.arrived);
    case Arrives(n) => ArrivalKeepsAgreement(w, n, seeded);
    case WritesRow(id) => WriteAgreesIff(w, id, seeded);
    case Reads =>
    case WritesCompany(_) =>
  }

  /** At every moment of every run of the directory, of the deliveries and of rebuilds whose writes are harmless, the
      graph has no node and no edge that the table lacks, every edge that has arrived, and the row of each invoice whose
      last event has arrived. */
  lemma {:induction false} MaintainedIsFaithful(w: World, moves: seq<Move>, seeded: nat)
    requires Base(w, seeded) && Agrees(w) && IsRun(w, moves) && AllHarmless(w, moves)
    ensures Base(MadeAll(w, moves), seeded) && Agrees(MadeAll(w, moves))
    decreases |moves|
  {
    hide Base, Agrees, Made, Enabled, Harmless;
    if moves != [] {
      StepKeepsBase(w, moves[0], seeded);
      StepKeepsAgreement(w, moves[0], seeded);
      MaintainedIsFaithful(Made(w, moves[0]), moves[1..], seeded);
    }
  }

  // ---------------------------------------------------------------------------------------------
  // What is shown of an invoice while its events are on their way
  // ---------------------------------------------------------------------------------------------

  /** The event or a later one of the same invoice has these properties. */
  ghost predicate PublishedSince(events: seq<Payload>, n: nat, node: Node)
    requires n < |events|
  {
    exists k :: n <= k < |events| && events[k].id == events[n].id && NodeOf(events[k]) == node
  }

  /** Of every invoice heard of, the graph shows a published state that is no older than the newest event delivered. */
  ghost predicate NothingOlder(g: Graph, events: seq<Payload>, arrived: set<nat>) {
    forall n: nat :: n in arrived && n < |events| ==>
      events[n].id in g.invoices && PublishedSince(events, n, g.invoices[events[n].id])
  }

  ghost predicate ShowsNothingOlder(w: World) {
    NothingOlder(w.graph, Events(w), w.arrived)
  }

  /** What had been published when the rebuild read. */
  function ReadUpTo(w: World): nat {
    |Payloads(w.read.outbox)|
  }

  /** No event of the invoice has arrived that was published after the read, unless what was read has been published
      since. */
  ghost predicate StillCurrent(w: World, id: nat) {
    1 <= id <= |w.read.invoices| ==>
      forall n: nat :: n in w.arrived && ReadUpTo(w) <= n < |Events(w)| && Events(w)[n].id == id ==>
        PublishedSince(Events(w), n, RowNode(w.read.invoices[id - 1]))
  }

  ghost predicate AllCurrent(w: World, moves: seq<Move>)
    decreases |moves|
  {
    moves != [] ==>
      (moves[0].WritesRow? ==> StillCurrent(w, moves[0].invoice)) && AllCurrent(Made(w, moves[0]), moves[1..])
  }

  lemma GrowthKeepsNothingOlder(g: Graph, before: seq<Payload>, after: seq<Payload>, arrived: set<nat>)
    requires NothingOlder(g, before, arrived) && before <= after && forall n :: n in arrived ==> n < |before|
    ensures NothingOlder(g, after, arrived)
  {
    hide NodeOf;
    forall n: nat | n in arrived && n < |after|
      ensures after[n].id in g.invoices && PublishedSince(after, n, g.invoices[after[n].id])
    {
      assert after[n] == before[n] && PublishedSince(before, n, g.invoices[before[n].id]);
      var k :| n <= k < |before| && before[k].id == before[n].id && NodeOf(before[k]) == g.invoices[before[n].id];
      assert after[k] == before[k];
    }
  }

  lemma ArrivalKeepsNothingOlder(g: Graph, events: seq<Payload>, arrived: set<nat>, n: nat)
    requires NothingOlder(g, events, arrived) && InOrder(events, arrived) && g.seen == SeenIds(arrived)
    requires n < |events|
    ensures NothingOlder(Upsert(g, Message(n + 1, events[n])), events, arrived + {n})
  {
    SeenAfter(g, arrived, n, events[n]);
    if n in arrived {
      assert arrived + {n} == arrived;
    } else {
      var after := Upsert(g, Message(n + 1, events[n]));
      assert after.invoices == g.invoices[events[n].id := NodeOf(events[n])];
      hide NodeOf, Upsert, SeenIds;
      forall m: nat | m in arrived + {n} && m < |events|
        ensures events[m].id in after.invoices && PublishedSince(events, m, after.invoices[events[m].id])
      {
        if events[m].id == events[n].id {
          assert m <= n;
        } else {
          assert m in arrived && PublishedSince(events, m, g.invoices[events[m].id]);
        }
      }
    }
  }

  lemma LastIsPublishedSince(events: seq<Payload>, all: seq<Payload>, db: Db, id: nat)
    requires Describes(events, db) && events <= all && id in AllIds(db) && 1 <= id <= |db.invoices|
    ensures forall n: nat :: n < |events| && all[n].id == id ==> PublishedSince(all, n, RowNode(db.invoices[id - 1]))
  {
    hide NodeOf, RowNode, AllIds;
    var last: nat :| IsLast(events, last) && events[last].id == id;
    assert all[last] == events[last] && NodeOf(events[last]) == RowNode(db.invoices[events[last].id - 1]);
    forall n: nat | n < |events| && all[n].id == id
      ensures PublishedSince(all, n, RowNode(db.invoices[id - 1]))
    {
      assert events[n] == all[n];
      assert n <= last;
    }
  }

  lemma ReadIsSound(w: World, seeded: nat)
    requires Base(w, seeded)
    ensures Payloads(w.read.outbox) <= Events(w) && Describes(Payloads(w.read.outbox), w.read)
  {
    hide Payloads, NetworkInv, Announced, Chained, InOrder, Describes;
    PayloadsGrow(w.read.outbox, w.db.outbox);
    ChainedEventsDescribe(w.read);
  }

  /** What a rebuild reads of a row is what the invoice's last event by then had published. */
  lemma ReadRowIsPublished(w: World, id: nat, seeded: nat)
    requires Base(w, seeded) && 1 <= id <= |w.read.invoices|
    ensures ReadUpTo(w) <= |Events(w)| && Payloads(w.read.outbox) <= Events(w)
    ensures forall n: nat :: n < ReadUpTo(w) && Events(w)[n].id == id ==>
              PublishedSince(Events(w), n, RowNode(w.read.invoices[id - 1]))
  {
    hide Base, Events, Payloads, Describes, RowNode, PublishedSince, AllIds;
    ReadIsSound(w, seeded);
    IdsAreRows(w.read, id);
    LastIsPublishedSince(Payloads(w.read.outbox), Events(w), w.read, id);
  }

  lemma RowKeepsNothingOlderIff(g: Graph, events: seq<Payload>, arrived: set<nat>, row: Invoice, id: nat)
    requires NothingOlder(g, events, arrived)
    ensures NothingOlder(WriteRow(g, row, id), events, arrived)
       <==> forall n: nat :: n in arrived && n < |events| && events[n].id == id ==>
              PublishedSince(events, n, RowNode(row))
  {
    assert WriteRow(g, row, id).invoices == g.invoices[id := RowNode(row)];
    hide WriteRow, RowNode, PublishedSince;
  }

  /** A row that a rebuild writes leaves nothing older than what has been delivered exactly when no event of the invoice
      published after the read has arrived, unless what was read has been published since. */
  lemma WriteIsCurrentIff(w: World, id: nat, seeded: nat)
    requires Base(w, seeded) && ShowsNothingOlder(w) && Enabled(w, WritesRow(id))
    ensures ShowsNothingOlder(Made(w, WritesRow(id))) <==> StillCurrent(w, id)
  {
    var row, after := RowIsWritten(w, id, seeded);
    ReadRowIsPublished(w, id, seeded);
    hide Payloads, PublishedSince, WriteRow, RowNode, Made, Base, Enabled, Harmless;
    RowKeepsNothingOlderIff(w.graph, Events(w), w.arrived, row, id);
  }

  lemma LastPublishedIsLast(events: seq<Payload>, n: nat, node: Node)
    requires IsLast(events, n)
    ensures PublishedSince(events, n, node) ==> node == NodeOf(events[n])
  {
    hide NodeOf;
  }

  lemma LastTellsRow(w: World, n: nat, seeded: nat)
    requires Base(w, seeded) && IsLast(Events(w), n)
    ensures 1 <= Events(w)[n].id <= |w.db.invoices|
    ensures NodeOf(Events(w)[n]) == RowNode(w.db.invoices[Events(w)[n].id - 1])
  {
    BaseDescribes(w, seeded);
    hide Base, Payloads, NodeOf, RowNode;
  }

  /** A write that is still current is harmless. */
  lemma CurrentIsHarmless(w: World, id: nat, seeded: nat)
    requires Base(w, seeded) && StillCurrent(w, id)
    ensures Harmless(w, WritesRow(id))
  {
    hide Base, Payloads, RowNode, NodeOf, PublishedSince;
    if 1 <= id <= |w.read.invoices| && id <= |w.db.invoices| {
      ReadRowIsPublished(w, id, seeded);
      if n: nat :| IsLast(Events(w), n) && Events(w)[n].id == id && n in w.arrived {
        LastTellsRow(w, n, seeded);
        LastPublishedIsLast(Events(w), n, RowNode(w.read.invoices[id - 1]));
      }
    }
  }

  lemma StepKeepsNothingOlder(w: World, move: Move, seeded: nat)
    requires Base(w, seeded) && ShowsNothingOlder(w) && Enabled(w, move)
    requires move.WritesRow? ==> StillCurrent(w, move.invoice)
    ensures ShowsNothingOlder(Made(w, move))
  {
    hide NothingOlder, NetworkInv, HistoryInv, Extends, Payloads, InvoiceRuns.Apply, PublishedSince, Upsert;
    match move
    case Changes(step) =>
      ChangeExtends(w.db, step, seeded);
      GrowthKeepsNothingOlder(w.graph, Events(w), Payloads(InvoiceRuns.Apply(w.db, step).outbox), w.arrived);
    case Arrives(n) => ArrivalKeepsNothingOlder(w.graph, Events(w), w.arrived, n);
    case WritesRow(id) => WriteIsCurrentIff(w, id, seeded);
    case Reads =>
    case WritesCompany(id) => CompanyKeepsNothingOlder(w.graph, Events(w), w.arrived, id);
  }

  lemma CompanyKeepsNothingOlder(g: Graph, events: seq<Payload>, arrived: set<nat>, id: nat)
    requires NothingOlder(g, events, arrived)
    ensures NothingOlder(g.(companies := g.companies + {id}), events, arrived)
  {
    hide PublishedSince;
  }

  /** In every run whose writes are still current the graph at every moment shows of each invoice heard of a published
      state no older than the newest event delivered. */
  lemma {:induction false} ShownIsNeverOlder(w: World, moves: seq<Move>, seeded: nat)
    requires Base(w, seeded) && ShowsNothingOlder(w) && IsRun(w, moves) && AllCurrent(w, moves)
    ensures ShowsNothingOlder(MadeAll(w, moves))
    decreases |moves|
  {
    hide Base, ShowsNothingOlder, Made, Enabled, StillCurrent;
    if moves != [] {
      StepKeepsBase(w, moves[0], seeded);
      StepKeepsNothingOlder(w, moves[0], seeded);
      ShownIsNeverOlder(Made(w, moves[0]), moves[1..], seeded);
    }
  }

  ghost predicate Complete(w: World) {
    forall n: nat :: n < |Events(w)| ==> n in w.arrived
  }

  lemma CompleteMirrors(w: World, seeded: nat)
    requires Base(w, seeded) && Agrees(w) && Complete(w)
    ensures MirrorsTable(w.graph, w.db)
  {
    BaseDescribes(w, seeded);
    hide NodesFaithful, EdgesFaithful, Describes, Payloads;
    FaithfulMirrors(w.graph, Events(w), w.db, w.arrived);
  }

  lemma NothingAgrees(organizations: seq<Organization>)
    ensures Agrees(Start(organizations))
  {
    NothingIsFaithful([], Seeded(organizations));
  }

  /** However creations and status moves, deliveries and rebuilds interleave, once every event has arrived the graph's
      invoices and edges are those that a rebuild of the final table makes from nothing. Events arrive in an order that
      respects only the order within each invoice, with any repetitions, and the rows that rebuilds write are unchanged
      since they were read or have their last event still to come. */
  lemma ProjectionEqualsRebuild(organizations: seq<Organization>, moves: seq<Move>, ids: seq<nat>)
    requires IsRun(Start(organizations), moves) && AllHarmless(Start(organizations), moves)
    requires var w := MadeAll(Start(organizations), moves);
      Complete(w) && AreRows(w.db, ids) && Elements(ids) == AllIds(w.db)
    ensures var w := MadeAll(Start(organizations), moves);
      var rebuilt := Rebuilt(EMPTY, w.db, ids);
      && w.graph.invoices == rebuilt.invoices && w.graph.issued == rebuilt.issued && w.graph.owedBy == rebuilt.owedBy
      && MirrorsTable(w.graph, w.db)
  {
    StartIsBase(organizations);
    NothingAgrees(organizations);
    MaintainedIsFaithful(Start(organizations), moves, |organizations|);
    var w := MadeAll(Start(organizations), moves);
    CompleteMirrors(w, |organizations|);
    BaseIsLinked(w, |organizations|);
    hide *;
    RebuiltMirrors(w.db, ids);
    MirrorsAgree(w.graph, Rebuilt(EMPTY, w.db, ids), w.db);
  }

  lemma BaseIsLinked(w: World, seeded: nat)
    requires Base(w, seeded)
    ensures forall i :: 0 <= i < |w.db.invoices| ==>
              IsOrganization(w.db, w.db.invoices[i].issuer) && IsOrganization(w.db, w.db.invoices[i].debtor)
  {
    assert forall i :: 0 <= i < |w.db.invoices| ==> InvoiceLinked(w.db, w.db.invoices[i]);
    hide HistoryInv, IsOrganization, InOrder, SeenIds, Payloads;
  }

  // ---------------------------------------------------------------------------------------------
  // A rebuild that reads first and writes afterwards
  // ---------------------------------------------------------------------------------------------

  function CompanyMoves(count: nat): seq<Move> {
    if count == 0 then [] else CompanyMoves(count - 1) + [WritesCompany(count)]
  }

  function RowMoves(ids: seq<nat>): seq<Move> {
    if ids == [] then [] else RowMoves(ids[..|ids| - 1]) + [WritesRow(ids[|ids| - 1])]
  }

  lemma {:induction false} MadeAllAppends(w: World, a: seq<Move>, b: seq<Move>)
    ensures MadeAll(w, a + b) == MadeAll(MadeAll(w, a), b)
    ensures IsRun(w, a + b) <==> IsRun(w, a) && IsRun(MadeAll(w, a), b)
    ensures AllHarmless(w, a + b) <==> AllHarmless(w, a) && AllHarmless(MadeAll(w, a), b)
    decreases |a|
  {
    hide Made, Enabled, Harmless;
    if a == [] {
      assert a + b == b;
    } else {
      assert (a + b)[1..] == a[1..] + b;
      MadeAllAppends(Made(w, a[0]), a[1..], b);
    }
  }

  lemma OneMove(w: World, move: Move)
    ensures MadeAll(w, [move]) == Made(w, move)
    ensures IsRun(w, [move]) <==> Enabled(w, move)
    ensures AllHarmless(w, [move]) <==> Harmless(w, move)
  {
    assert [move][1..] == [];
  }

  lemma {:induction false} CompaniesAreWritten(w: World, count: nat)
    requires count <= |w.read.organizations|
    ensures IsRun(w, CompanyMoves(count)) && AllHarmless(w, CompanyMoves(count))
    ensures MadeAll(w, CompanyMoves(count))
         == w.(graph := w.graph.(companies := w.graph.companies + IdsUpTo(count)))
  {
    if count > 0 {
      var w' := w.(graph := w.graph.(companies := w.graph.companies + IdsUpTo(count - 1)));
      CompaniesAreWritten(w, count - 1);
      MadeAllAppends(w, CompanyMoves(count - 1), [WritesCompany(count)]);
      OneMove(w', WritesCompany(count));
      assert (w.graph.companies + IdsUpTo(count - 1)) + {count} == w.graph.companies + IdsUpTo(count);
    }
  }

  /** The rows of a table just read, written over a graph whose companies are in place. */
  function WithRows(g: Graph, db: Db, ids: seq<nat>): Graph
    requires AreRows(db, ids)
  {
    g.(invoices := g.invoices + RowNodes(db, Elements(ids)),
       issued := g.issued + IssuerEdges(db, Elements(ids), g.companies),
       owedBy := g.owedBy + DebtorEdges(db, Elements(ids), g.companies))
  }

  lemma RowAfterRows(g: Graph, db: Db, ids: seq<nat>, id: nat)
    requires AreRows(db, ids + [id])
    ensures AreRows(db, ids) && 1 <= id <= |db.invoices|
    ensures WriteRow(WithRows(g, db, ids), db.invoices[id - 1], id) == WithRows(g, db, ids + [id])
  {
    assert (ids + [id])[|ids|] == id;
    assert forall k :: 0 <= k < |ids| ==> (ids + [id])[k] == ids[k];
    assert Elements(ids + [id]) == Elements(ids) + {id};
    NodesOfOneMore(g.invoices, db, Elements(ids), id);
    EdgesOfOneMore(db, Elements(ids), id, g.companies);
  }

  lemma {:induction false} RowsAreWritten(w: World, ids: seq<nat>)
    requires w.read == w.db && AreRows(w.db, ids)
    ensures IsRun(w, RowMoves(ids)) && AllHarmless(w, RowMoves(ids))
    ensures MadeAll(w, RowMoves(ids)) == w.(graph := WithRows(w.graph, w.db, ids))
    decreases |ids|
  {
    if ids == [] {
      NoRows(w);
    } else {
      var init, id := ids[..|ids| - 1], ids[|ids| - 1];
      var mid := w.(graph := WithRows(w.graph, w.db, init));
      assert ids == init + [id];
      RowAfterRows(w.graph, w.db, init, id);
      RowsAreWritten(w, init);
      hide WithRows, WriteRow, AreRows;
      MadeAllAppends(w, RowMoves(init), [WritesRow(id)]);
      OneMove(mid, WritesRow(id));
    }
  }

  lemma NoRows(w: World)
    ensures WithRows(w.graph, w.db, []) == w.graph
  {
    assert Elements([]) == {};
  }

  /** A rebuild during which nothing else happens is one of the runs, its writes are harmless, and it leaves what the
      rebuild script leaves. */
  lemma RebuildIsARun(w: World, ids: seq<nat>)
    requires AreRows(w.db, ids)
    ensures var moves := [Reads] + (CompanyMoves(|w.db.organizations|) + RowMoves(ids));
      && IsRun(w, moves) && AllHarmless(w, moves)
      && MadeAll(w, moves) == w.(read := w.db, graph := Rebuilt(w.graph, w.db, ids))
  {
    var companies, rows := CompanyMoves(|w.db.organizations|), RowMoves(ids);
    var w1 := w.(read := w.db);
    var w2 := w1.(graph := w.graph.(companies := w.graph.companies + IdsUpTo(|w.db.organizations|)));
    assert WithRows(w2.graph, w.db, ids) == Rebuilt(w.graph, w.db, ids);
    hide WithRows, Rebuilt, IdsUpTo, CompanyMoves, RowMoves;
    OneMove(w, Reads);
    CompaniesAreWritten(w1, |w.db.organizations|);
    RowsAreWritten(w2, ids);
    MadeAllAppends(w1, companies, rows);
    MadeAllAppends(w, [Reads], companies + rows);
  }

  // ---------------------------------------------------------------------------------------------
  // A row that went stale between reading and writing
  // ---------------------------------------------------------------------------------------------

  predicate NeverWrites(moves: seq<Move>, id: nat) {
    forall k :: 0 <= k < |moves| ==> moves[k] != WritesRow(id)
  }

  /** Once event `n` has arrived the graph shows `node` for the invoice. */
  predicate ShowsOnce(w: World, n: nat, id: nat, node: Node) {
    n in w.arrived ==> id in w.graph.invoices && w.graph.invoices[id] == node
  }

  lemma StepKeepsShown(w: World, move: Move, seeded: nat, final: seq<Payload>, n: nat, node: Node)
    requires Base(w, seeded) && Enabled(w, move) && IsLast(final, n) && move != WritesRow(final[n].id)
    requires Events(w) <= final && ShowsOnce(w, n, final[n].id, node)
    requires n !in w.arrived ==> node == NodeOf(final[n])
    ensures ShowsOnce(Made(w, move), n, final[n].id, node)
  {
    if move.Arrives? {
      var k := move.event;
      SeenAfter(w.graph, w.arrived, k, Events(w)[k]);
      assert Events(w)[k] == final[k];
      assert final[k].id == final[n].id && n in w.arrived ==> k in w.arrived;
    }
  }

  lemma {:induction false} RunKeepsShown(w: World, moves: seq<Move>, seeded: nat, final: seq<Payload>, n: nat,
                                         node: Node)
    requires Base(w, seeded) && IsRun(w, moves) && IsLast(final, n) && NeverWrites(moves, final[n].id)
    requires Events(MadeAll(w, moves)) <= final && ShowsOnce(w, n, final[n].id, node)
    requires n !in w.arrived ==> node == NodeOf(final[n])
    ensures ShowsOnce(MadeAll(w, moves), n, final[n].id, node)
    decreases |moves|
  {
    hide Base, Events, Made, Enabled, ShowsOnce, IsLast, NodeOf;
    if moves != [] {
      var next := Made(w, moves[0]);
      StepKeepsBase(w, moves[0], seeded);
      RunKeepsBase(next, moves[1..], seeded);
      StepKeepsShown(w, moves[0], seeded, final, n, node);
      ArrivedGrows(w, moves[0]);
      RunKeepsShown(next, moves[1..], seeded, final, n, node);
    }
  }

  lemma ArrivedGrows(w: World, move: Move)
    ensures w.arrived <= Made(w, move).arrived
  {
  }

  /** A row is written by a rebuild, whatever was read and whatever happens afterwards short of writing it again.
      Once the invoice's events have all arrived, its node is that of its row exactly when the written row is the
      final one, or the invoice's last event had not arrived before the write. */
  lemma StaleRowIff(w: World, id: nat, moves: seq<Move>, seeded: nat)
    requires Base(w, seeded) && Enabled(w, WritesRow(id))
    requires IsRun(Made(w, WritesRow(id)), moves) && NeverWrites(moves, id)
    requires Complete(MadeAll(Made(w, WritesRow(id)), moves))
    ensures var end := MadeAll(Made(w, WritesRow(id)), moves);
      && 1 <= id <= |end.db.invoices| && id in end.graph.invoices
      && (end.graph.invoices[id] == RowNode(end.db.invoices[id - 1])
          <==> || RowNode(w.read.invoices[id - 1]) == RowNode(end.db.invoices[id - 1])
               || forall n: nat :: n < |Events(end)| && IsLast(Events(end), n) && Events(end)[n].id == id
                    ==> n !in w.arrived)
  {
    hide *;
    var after := Made(w, WritesRow(id));
    var end := MadeAll(after, moves);
    AfterRowWrite(w, id, seeded);
    RunKeepsBase(after, moves, seeded);
    BaseDescribes(end, seeded);
    IdsAreRows(end.db, id);
    var n := LastOf(end, id);
    var node := if n in w.arrived then RowNode(w.read.invoices[id - 1]) else NodeOf(Events(end)[n]);
    FirstShown(w, after, n, id, node);
    RunKeepsShown(after, moves, seeded, Events(end), n, node);
    LastShown(end, n, id, node);
  }

  lemma AfterRowWrite(w: World, id: nat, seeded: nat)
    requires Base(w, seeded) && Enabled(w, WritesRow(id))
    ensures var after := Made(w, WritesRow(id));
      && Base(after, seeded) && after.arrived == w.arrived
      && 1 <= id <= |w.read.invoices| && id <= |after.db.invoices|
      && id in after.graph.invoices && after.graph.invoices[id] == RowNode(w.read.invoices[id - 1])
  {
    hide NetworkInv, HistoryInv, Extends, InOrder, Payloads, RowNode, SeenIds;
    StepKeepsBase(w, WritesRow(id), seeded);
    assert |w.read.invoices| <= |w.db.invoices| by {
      ReadIsBehind(w, seeded);
    }
  }

  lemma ReadIsBehind(w: World, seeded: nat)
    requires Base(w, seeded)
    ensures |w.read.invoices| <= |w.db.invoices|
  {
  }

  lemma IdsAreRows(db: Db, id: nat)
    ensures id in AllIds(db) <==> 1 <= id <= |db.invoices|
  {
  }

  lemma FirstShown(w: World, after: World, n: nat, id: nat, node: Node)
    requires after.arrived == w.arrived && id in after.graph.invoices
    requires n in w.arrived ==> after.graph.invoices[id] == node
    ensures ShowsOnce(after, n, id, node)
  {
  }

  lemma LastShown(end: World, n: nat, id: nat, node: Node)
    requires Complete(end) && n < |Events(end)| && ShowsOnce(end, n, id, node)
    ensures id in end.graph.invoices && end.graph.invoices[id] == node
  {
  }

  /** The last event of an invoice, which carries its row. */
  lemma LastOf(w: World, id: nat) returns (n: nat)
    requires Describes(Events(w), w.db) && id in AllIds(w.db)
    ensures n < |Events(w)| && IsLast(Events(w), n) && Events(w)[n].id == id
    ensures NodeOf(Events(w)[n]) == RowNode(w.db.invoices[id - 1])
    ensures forall m: nat :: m < |Events(w)| && IsLast(Events(w), m) && Events(w)[m].id == id ==> m == n
  {
    hide NodeOf, RowNode, Payloads;
    var events := Events(w);
    n :| n < |events| && IsLast(events, n) && events[n].id == id;
    forall m: nat | IsLast(events, m) && events[m].id == id ensures m == n {
      OnlyOneLast(events, m, n);
    }
  }

  lemma MoveAddsEvent(db: Db, now: int, orgId: nat, id: nat, to: Status)
    requires UpdateStatus(db, now, orgId, id, to).1.Ok?
    ensures var after := UpdateStatus(db, now, orgId, id, to).0;
      && 1 <= id <= |db.invoices| && |after.invoices| == |db.invoices|
      && to != db.invoices[id - 1].status && after.invoices[id - 1].status == to
      && |Payloads(after.outbox)| == |Payloads(db.outbox)| + 1
      && Payloads(after.outbox)[|Payloads(db.outbox)|].id == id
  {
    var after := UpdateStatus(db, now, orgId, id, to).0;
    assert after.outbox[..|db.outbox|] == db.outbox;
  }

  /** The last published event arrives, and then a rebuild writes what it read before. */
  lemma LateWrite(w: World, id: nat)
    requires 1 <= id <= |w.read.invoices| && Events(w) != []
    requires forall m: nat :: m < |Events(w)| - 1 ==> m in w.arrived
    ensures var arrived := Made(w, Arrives(|Events(w)| - 1));
      var end := Made(arrived, WritesRow(id));
      && Enabled(w, Arrives(|Events(w)| - 1)) && Enabled(arrived, WritesRow(id))
      && Complete(end) && end.db == w.db
      && id in end.graph.invoices && end.graph.invoices[id] == RowNode(w.read.invoices[id - 1])
  {
    hide Payloads, Upsert, RowNode;
    var arrived := Made(w, Arrives(|Events(w)| - 1));
    var end := Made(arrived, WritesRow(id));
    assert Events(end) == Events(w) && end.arrived == w.arrived + {|Events(w)| - 1};
  }

  lemma FourMoves(w: World, a: Move, b: Move, c: Move, d: Move)
    ensures var w1 := Made(w, a);
      var w2 := Made(w1, b);
      var w3 := Made(w2, c);
      var moves := [a] + ([b] + ([c] + [d]));
      && MadeAll(w, moves) == Made(w3, d)
      && (IsRun(w, moves) <==> Enabled(w, a) && Enabled(w1, b) && Enabled(w2, c) && Enabled(w3, d))
  {
    hide *;
    var w1 := Made(w, a);
    var w2 := Made(w1, b);
    OneMove(w, a);
    OneMove(w1, b);
    OneMove(w2, c);
    OneMove(Made(w2, c), d);
    MadeAllAppends(w2, [c], [d]);
    MadeAllAppends(w1, [b], [c] + [d]);
    MadeAllAppends(w, [a], [b] + ([c] + [d]));
  }

  lemma ReadThenChanged(w: World, step: Step)
    ensures var changed := Made(Made(w, Reads), Changes(step));
      && Enabled(w, Reads) && Enabled(Made(w, Reads), Changes(step))
      && changed.db == InvoiceRuns.Apply(w.db, step) && changed.read == w.db && changed.arrived == w.arrived
  {
  }

  /** From any moment at which everything has arrived: a rebuild reads, one invoice moves on, its event arrives, and
      the rebuild then writes the row it has read. Everything has arrived again, and the graph shows the invoice as
      it was. */
  lemma RebuildCanGoBack(w: World, now: int, orgId: nat, id: nat, to: Status)
    requires Complete(w) && UpdateStatus(w.db, now, orgId, id, to).1.Ok?
    ensures var change, arrive := Changes(MoveStep(now, orgId, id, to)), Arrives(|Events(w)|);
      var moves := [Reads] + ([change] + ([arrive] + [WritesRow(id)]));
      var end := MadeAll(w, moves);
      && IsRun(w, moves) && Complete(end) && 1 <= id <= |end.db.invoices| && id in end.graph.invoices
      && end.db.invoices[id - 1].status == to && end.graph.invoices[id].status != to
  {
    var step := MoveStep(now, orgId, id, to);
    FourMoves(w, Reads, Changes(step), Arrives(|Events(w)|), WritesRow(id));
    MoveAddsEvent(w.db, now, orgId, id, to);
    ReadThenChanged(w, step);
    var changed := Made(Made(w, Reads), Changes(step));
    assert changed.db == UpdateStatus(w.db, now, orgId, id, to).0;
    hide Made, MadeAll, IsRun, Enabled, UpdateStatus, Payloads;
    LateWrite(changed, id);
  }

  lemma FirstMove(w: World, move: Move, rest: seq<Move>)
    ensures MadeAll(w, [move] + rest) == MadeAll(Made(w, move), rest)
    ensures IsRun(w, [move] + rest) <==> Enabled(w, move) && IsRun(Made(w, move), rest)
    ensures AllHarmless(w, [move] + rest) <==> Harmless(w, move) && AllHarmless(Made(w, move), rest)
  {
    hide Made, Enabled, Harmless;
    assert ([move] + rest)[1..] == rest;
  }

  lemma TwoChanges(w: World, first: Step, second: Step, rest: seq<Move>)
    ensures var read := w.(read := w.db);
      var changed := read.(db := InvoiceRuns.Apply(InvoiceRuns.Apply(w.db, first), second));
      var moves := [Reads] + ([Changes(first)] + ([Changes(second)] + rest));
      && MadeAll(w, moves) == MadeAll(changed, rest)
      && (IsRun(w, moves) <==> IsRun(changed, rest)) && (AllHarmless(w, moves) <==> AllHarmless(changed, rest))
  {
    var w1 := Made(w, Reads);
    var w2 := Made(w1, Changes(first));
    var w3 := Made(w2, Changes(second));
    assert w3 == w.(read := w.db, db := InvoiceRuns.Apply(InvoiceRuns.Apply(w.db, first), second));
    hide MadeAll, IsRun, AllHarmless, InvoiceRuns.Apply;
    FirstMove(w2, Changes(second), rest);
    FirstMove(w1, Changes(first), [Changes(second)] + rest);
    FirstMove(w, Reads, [Changes(first)] + ([Changes(second)] + rest));
  }

  /** A read, two moves of one invoice, the arrival of the first event, and then the write: it is harmless, as the
      invoice's last event is still to come. */
  lemma EarlyWrite(w: World, n: nat, id: nat)
    requires 1 <= id <= |w.read.invoices| && n + 2 == |Events(w)| && Events(w)[n].id == id == Events(w)[n + 1].id
    requires forall m: nat :: m in w.arrived <==> m < n
    ensures var moves := [Arrives(n)] + ([WritesRow(id)] + []);
      var end := MadeAll(w, moves);
      && IsRun(w, moves) && AllHarmless(w, moves) && n in end.arrived && end.db == w.db
      && id in end.graph.invoices && end.graph.invoices[id] == RowNode(w.read.invoices[id - 1])
  {
    var arrived := Made(w, Arrives(n));
    assert Events(arrived) == Events(w) && arrived.arrived == w.arrived + {n};
    assert Harmless(arrived, WritesRow(id)) by {
      assert forall m: nat :: IsLast(Events(w), m) && Events(w)[m].id == id ==> m == n + 1;
    }
    NoMoves(Made(arrived, WritesRow(id)));
    FirstMove(arrived, WritesRow(id), []);
    FirstMove(w, Arrives(n), [WritesRow(id)] + []);
  }

  lemma NoMoves(w: World)
    ensures MadeAll(w, []) == w && IsRun(w, []) && AllHarmless(w, [])
  {
  }

  lemma StatusEvents(db: Db, now: int, orgId: nat, id: nat, to: Status)
    requires UpdateStatus(db, now, orgId, id, to).1.Ok?
    ensures var after := UpdateStatus(db, now, orgId, id, to).0;
      && |after.invoices| == |db.invoices| && id <= |db.invoices| && to != db.invoices[id - 1].status
      && after.invoices[id - 1].status == to && Payloads(db.outbox) <= Payloads(after.outbox)
      && |Payloads(after.outbox)| == |Payloads(db.outbox)| + 1
      && Payloads(after.outbox)[|Payloads(db.outbox)|].id == id
      && Payloads(after.outbox)[|Payloads(db.outbox)|].status == to
  {
    MoveAddsEvent(db, now, orgId, id, to);
    PayloadsGrow(db.outbox, UpdateStatus(db, now, orgId, id, to).0.outbox);
    var after := UpdateStatus(db, now, orgId, id, to).0;
    assert after.outbox[..|db.outbox|] == db.outbox;
  }

  /** Harmless is not the same as current. From any moment at which everything has arrived: a rebuild reads, one invoice
      moves on twice, the event of the first move arrives, and the rebuild writes what it has read. No final agreement
      is put at risk, but the graph shows the invoice older than the event that it has been told of. */
  lemma HarmlessCanGoBack(w: World, seeded: nat, now: int, orgId: nat, id: nat, to: Status, later: int, to': Status)
    requires Base(w, seeded) && Complete(w) && UpdateStatus(w.db, now, orgId, id, to).1.Ok?
    requires UpdateStatus(UpdateStatus(w.db, now, orgId, id, to).0, later, orgId, id, to').1.Ok?
    ensures var first, second := Changes(MoveStep(now, orgId, id, to)), Changes(MoveStep(later, orgId, id, to'));
      var n := |Events(w)|;
      var moves := [Reads] + ([first] + ([second] + ([Arrives(n)] + ([WritesRow(id)] + []))));
      var end := MadeAll(w, moves);
      && IsRun(w, moves) && AllHarmless(w, moves) && n in end.arrived && n < |Events(end)|
      && Events(end)[n].id == id && Events(end)[n].status == to && 1 <= id <= |w.db.invoices|
      && id in end.graph.invoices && end.graph.invoices[id].status == w.db.invoices[id - 1].status != to
      && (to' != w.db.invoices[id - 1].status ==> !ShowsNothingOlder(end))
  {
    hide *;
    var n := |Events(w)|;
    var changed := MovedTwice(w, seeded, now, orgId, id, to, later, to');
    TwoChanges(w, MoveStep(now, orgId, id, to), MoveStep(later, orgId, id, to'),
               [Arrives(n)] + ([WritesRow(id)] + []));
    EarlyWrite(changed, n, id);
    var end := MadeAll(changed, [Arrives(n)] + ([WritesRow(id)] + []));
    ShownTooOld(changed, end, n, id);
  }

  /** A rebuild reads, and one invoice moves on twice. */
  lemma MovedTwice(w: World, seeded: nat, now: int, orgId: nat, id: nat, to: Status, later: int, to': Status)
    returns (changed: World)
    requires Base(w, seeded) && Complete(w) && UpdateStatus(w.db, now, orgId, id, to).1.Ok?
    requires UpdateStatus(UpdateStatus(w.db, now, orgId, id, to).0, later, orgId, id, to').1.Ok?
    ensures var first, second := MoveStep(now, orgId, id, to), MoveStep(later, orgId, id, to');
      changed == w.(read := w.db, db := InvoiceRuns.Apply(InvoiceRuns.Apply(w.db, first), second))
    ensures 1 <= id <= |changed.read.invoices| && changed.read == w.db && to != w.db.invoices[id - 1].status
    ensures var n := |Events(w)|;
      && |Events(changed)| == n + 2 && Events(changed)[n].id == id == Events(changed)[n + 1].id
      && Events(changed)[n].status == to && Events(changed)[n + 1].status == to'
      && forall m: nat :: m in changed.arrived <==> m < n
  {
    var db1 := UpdateStatus(w.db, now, orgId, id, to).0;
    var db2 := UpdateStatus(db1, later, orgId, id, to').0;
    StatusEvents(w.db, now, orgId, id, to);
    StatusEvents(db1, later, orgId, id, to');
    changed := w.(read := w.db, db := db2);
    hide UpdateStatus, Payloads, NetworkInv, HistoryInv, Extends, SeenIds;
    assert forall m: nat :: m in w.arrived <==> m < |Events(w)|;
  }

  lemma ShownTooOld(changed: World, end: World, n: nat, id: nat)
    requires end.db == changed.db && n in end.arrived && n + 2 == |Events(changed)|
    requires 1 <= id <= |changed.read.invoices|
    requires id in end.graph.invoices && end.graph.invoices[id] == RowNode(changed.read.invoices[id - 1])
    requires Events(changed)[n].id == id
    ensures end.graph.invoices[id].status == changed.read.invoices[id - 1].status && Events(end) == Events(changed)
    ensures changed.read.invoices[id - 1].status !in {Events(changed)[n].status, Events(changed)[n + 1].status} ==>
              !ShowsNothingOlder(end)
  {
    hide Payloads;
    assert forall k :: n <= k < |Events(end)| && Events(end)[k].id == id ==>
             NodeOf(Events(end)[k]).status in {Events(changed)[n].status, Events(changed)[n + 1].status};
  }
}
