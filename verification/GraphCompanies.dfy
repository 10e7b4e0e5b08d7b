/** The companies of the graph: no edge dangles, and the companies are the parties of the events that were written and
    those that rebuilds wrote. */
module GraphCompanies {
  import opened GraphProjection
  import opened Ids
  import opened InvoiceHistory
  import opened InvoiceRuns
  import opened InvoiceService

  import GraphAgreement
  import GraphPipeline
  import GraphRuns

  /** Both ends of every edge are there. */
  ghost predicate NoEdgeDangles(g: Graph) {
    && (forall e :: e in g.issued ==> e.0 in g.companies && e.1 in g.invoices)
    && (forall e :: e in g.owedBy ==> e.0 in g.invoices && e.1 in g.companies)
  }

  predicate IsParty(payload: Payload, company: nat) {
    company == payload.issuer || company == payload.debtor
  }

  ghost predicate IsPartyOfAny(events: seq<Payload>, ids: set<nat>, company: nat) {
    exists n :: n in ids && n < |events| && IsParty(events[n], company)
  }

  /** The companies are the parties of these events, and `others`. */
  ghost predicate CompaniesAre(g: Graph, events: seq<Payload>, ids: set<nat>, others: set<nat>) {
    forall company: nat :: company in g.companies <==> company in others || IsPartyOfAny(events, ids, company)
  }

  lemma WriteKeepsEdges(g: Graph, payload: Payload)
    requires NoEdgeDangles(g)
    ensures NoEdgeDangles(Write(g, payload))
    ensures forall company :: company in Write(g, payload).companies <==>
              company in g.companies || IsParty(payload, company)
  {
    hide NodeOf;
  }

  lemma UpsertKeeps(g: Graph, events: seq<Payload>, ids: set<nat>, others: set<nat>, n: nat)
    requires NoEdgeDangles(g) && CompaniesAre(g, events, ids, others) && g.seen == SeenIds(ids) && n < |events|
    ensures var after := Upsert(g, Message(n + 1, events[n]));
      NoEdgeDangles(after) && CompaniesAre(after, events, ids + {n}, others)
  {
    SeenIdsTrack(ids, n);
    if n in ids {
      assert ids + {n} == ids;
    } else {
      WriteKeepsEdges(g, events[n]);
      var after := Upsert(g, Message(n + 1, events[n]));
      assert after.companies == Write(g, events[n]).companies && after.issued == Write(g, events[n]).issued;
      assert after.owedBy == Write(g, events[n]).owedBy && after.invoices == Write(g, events[n]).invoices;
      hide Write, Upsert, SeenIds, IsParty;
      forall company: nat
        ensures IsPartyOfAny(events, ids + {n}, company) <==>
                IsPartyOfAny(events, ids, company) || IsParty(events[n], company)
      {
        OneMoreEvent(events, ids, n, company);
      }
    }
  }

  lemma OneMoreEvent(events: seq<Payload>, ids: set<nat>, n: nat, company: nat)
    requires n < |events|
    ensures IsPartyOfAny(events, ids + {n}, company) <==>
            IsPartyOfAny(events, ids, company) || IsParty(events[n], company)
  {
    hide IsParty;
    if IsParty(events[n], company) {
      assert n in ids + {n};
    }
    if m :| m in ids && m < |events| && IsParty(events[m], company) {
      assert m in ids + {n};
    }
  }

  /** Whatever is delivered, in whatever order, no edge dangles and the companies are the parties of what was
      delivered. */
  lemma {:induction false} DeliveryBringsCompanies(events: seq<Payload>, delivery: seq<nat>)
    requires forall i :: 0 <= i < |delivery| ==> delivery[i] < |events|
    ensures var g := Deliver(EMPTY, events, delivery);
      && NoEdgeDangles(g) && CompaniesAre(g, events, Elements(delivery), {})
      && g.seen == SeenIds(Elements(delivery))
  {
    if delivery == [] {
      assert Elements([]) == {};
    } else {
      var init, last := delivery[..|delivery| - 1], delivery[|delivery| - 1];
      var g := Deliver(EMPTY, events, init);
      assert Deliver(EMPTY, events, delivery) == Upsert(g, Message(last + 1, events[last]));
      assert Elements(delivery) == Elements(init) + {last};
      hide Deliver, Upsert, CompaniesAre, NoEdgeDangles;
      DeliveryBringsCompanies(events, init);
      UpsertKeeps(g, events, Elements(init), {}, last);
      GraphRuns.SeenAfter(g, Elements(init), last, events[last]);
    }
  }

  // ---------------------------------------------------------------------------------------------
  // Rebuilds
  // ---------------------------------------------------------------------------------------------

  /** The organizations that the rebuilds of a run wrote. */
  function WrittenCompanies(moves: seq<GraphRuns.Move>): set<nat> {
    set i | 0 <= i < |moves| && moves[i].WritesCompany? :: moves[i].organization
  }

  ghost predicate Complete(w: GraphRuns.World, others: set<nat>) {
    && NoEdgeDangles(w.graph) && CompaniesAre(w.graph, GraphRuns.Events(w), w.arrived, others)
  }

  lemma GrowthKeepsCompanies(g: Graph, before: seq<Payload>, after: seq<Payload>, ids: set<nat>, others: set<nat>)
    requires CompaniesAre(g, before, ids, others) && before <= after && forall n :: n in ids ==> n < |before|
    ensures CompaniesAre(g, after, ids, others)
  {
    hide IsParty;
    forall company: nat ensures IsPartyOfAny(after, ids, company) <==> IsPartyOfAny(before, ids, company) {
      if n :| n in ids && n < |before| && IsParty(before[n], company) {
        assert after[n] == before[n];
      }
    }
  }

  lemma RowKeepsEdges(g: Graph, row: Invoice, id: nat)
    requires NoEdgeDangles(g)
    ensures NoEdgeDangles(GraphRuns.WriteRow(g, row, id)) && GraphRuns.WriteRow(g, row, id).companies == g.companies
  {
    hide RowNode;
  }

  lemma StepBringsCompanies(w: GraphRuns.World, move: GraphRuns.Move, seeded: nat, others: set<nat>)
    requires GraphRuns.Base(w, seeded) && GraphRuns.Enabled(w, move) && Complete(w, others)
    ensures Complete(GraphRuns.Made(w, move), others + if move.WritesCompany? then {move.organization} else {})
  {
    hide NetworkInv, HistoryInv, Extends, Payloads, CompaniesAre, NoEdgeDangles, Upsert, GraphRuns.WriteRow,
         InvoiceRuns.Apply;
    assert others + {} == others;
    match move
    case Changes(step) =>
      GraphRuns.ChangeExtends(w.db, step, seeded);
      GrowthKeepsCompanies(w.graph, GraphRuns.Events(w), Payloads(InvoiceRuns.Apply(w.db, step).outbox), w.arrived,
                           others);
    case Arrives(n) => UpsertKeeps(w.graph, GraphRuns.Events(w), w.arrived, others, n);
    case Reads =>
    case WritesCompany(id) => CompanyIsAdded(w.graph, GraphRuns.Events(w), w.arrived, others, id);
    case WritesRow(id) =>
      RowKeepsEdges(w.graph, w.read.invoices[id - 1], id);
      SameCompanies(w.graph, GraphRuns.WriteRow(w.graph, w.read.invoices[id - 1], id), GraphRuns.Events(w), w.arrived,
                    others);
  }

  lemma SameCompanies(g: Graph, after: Graph, events: seq<Payload>, ids: set<nat>, others: set<nat>)
    requires CompaniesAre(g, events, ids, others) && after.companies == g.companies
    ensures CompaniesAre(after, events, ids, others)
  {
    hide IsPartyOfAny;
  }

  lemma CompanyIsAdded(g: Graph, events: seq<Payload>, ids: set<nat>, others: set<nat>, id: nat)
    requires NoEdgeDangles(g) && CompaniesAre(g, events, ids, others)
    ensures var after := g.(companies := g.companies + {id});
      NoEdgeDangles(after) && CompaniesAre(after, events, ids, others + {id})
  {
    hide IsPartyOfAny;
  }

  lemma {:induction false} RunBringsCompanies(w: GraphRuns.World, moves: seq<GraphRuns.Move>, seeded: nat,
                                              others: set<nat>)
    requires GraphRuns.Base(w, seeded) && GraphRuns.IsRun(w, moves) && Complete(w, others)
    ensures Complete(GraphRuns.MadeAll(w, moves), others + WrittenCompanies(moves))
    decreases |moves|
  {
    hide GraphRuns.Base, Complete, GraphRuns.Made, GraphRuns.Enabled;
    if moves == [] {
      assert others + WrittenCompanies(moves) == others;
    } else {
      var added := if moves[0].WritesCompany? then {moves[0].organization} else {};
      GraphRuns.StepKeepsBase(w, moves[0], seeded);
      StepBringsCompanies(w, moves[0], seeded, others);
      RunBringsCompanies(GraphRuns.Made(w, moves[0]), moves[1..], seeded, others + added);
      OneMoreMove(moves);
      assert (others + added) + WrittenCompanies(moves[1..]) == others + WrittenCompanies(moves);
    }
  }

  lemma OneMoreMove(moves: seq<GraphRuns.Move>)
    requires moves != []
    ensures WrittenCompanies(moves)
         == (if moves[0].WritesCompany? then {moves[0].organization} else {}) + WrittenCompanies(moves[1..])
  {
    forall id ensures id in WrittenCompanies(moves) <==>
                      (moves[0].WritesCompany? && id == moves[0].organization) || id in WrittenCompanies(moves[1..])
    {
      if id in WrittenCompanies(moves[1..]) {
        var i :| 0 <= i < |moves[1..]| && moves[1..][i].WritesCompany? && moves[1..][i].organization == id;
        assert moves[i + 1] == moves[1..][i];
      }
      if i :| 0 < i < |moves| && moves[i].WritesCompany? && moves[i].organization == id {
        assert moves[1..][i - 1] == moves[i];
      }
    }
  }

  /** At every moment of every run of directory, deliveries and rebuilds, both ends of every edge are there, and the
      companies are the parties of the events that have arrived and the organizations that rebuilds have written. */
  lemma CompaniesOfRuns(organizations: seq<Organization>, moves: seq<GraphRuns.Move>)
    requires GraphRuns.IsRun(GraphRuns.Start(organizations), moves)
    ensures var w := GraphRuns.MadeAll(GraphRuns.Start(organizations), moves);
      NoEdgeDangles(w.graph) && CompaniesAre(w.graph, GraphRuns.Events(w), w.arrived, WrittenCompanies(moves))
  {
    var start := GraphRuns.Start(organizations);
    GraphRuns.StartIsBase(organizations);
    assert Complete(start, {});
    RunBringsCompanies(start, moves, |organizations|, {});
    hide *;
    assert {} + WrittenCompanies(moves) == WrittenCompanies(moves);
    CompleteMeans(GraphRuns.MadeAll(start, moves), WrittenCompanies(moves));
  }

  lemma CompleteMeans(w: GraphRuns.World, others: set<nat>)
    requires Complete(w, others)
    ensures NoEdgeDangles(w.graph) && CompaniesAre(w.graph, GraphRuns.Events(w), w.arrived, others)
  {
  }

  /** A rebuild writes every organization, so none of the edges of the rows is left out. */
  lemma RebuildKeepsEdges(g: Graph, db: Db, ids: seq<nat>)
    requires AreRows(db, ids) && NoEdgeDangles(g)
    ensures var after := Rebuilt(g, db, ids);
      && NoEdgeDangles(after)
      && forall company: nat :: company in after.companies <==>
           company in g.companies || 1 <= company <= |db.organizations|
  {
    hide RowNode;
  }

  // ---------------------------------------------------------------------------------------------
  // The whole way of an event
  // ---------------------------------------------------------------------------------------------

  ghost predicate IsPartyOfWritten(outbox: seq<OutboxEvent>, ids: seq<nat>, company: nat) {
    exists i :: 0 <= i < |ids| && GraphPipeline.Tells(outbox, ids[i]) && IsParty(outbox[ids[i]].payload, company)
  }

  lemma {:induction false} ToldCompanies(outbox: seq<OutboxEvent>, ids: seq<nat>)
    requires GraphPipeline.AllTell(outbox, ids)
    ensures NoEdgeDangles(GraphPipeline.Told(outbox, ids))
    ensures forall company: nat :: company in GraphPipeline.Told(outbox, ids).companies <==>
              IsPartyOfWritten(outbox, ids, company)
  {
    if ids != [] {
      var init, last := ids[..|ids| - 1], ids[|ids| - 1];
      ToldCompanies(outbox, init);
      WriteKeepsEdges(GraphPipeline.Told(outbox, init), outbox[last].payload);
      hide IsParty, NoEdgeDangles, Write;
      forall company: nat
        ensures IsPartyOfWritten(outbox, ids, company) <==>
                IsPartyOfWritten(outbox, init, company) || IsParty(outbox[last].payload, company)
      {
        OneMoreWritten(outbox, ids, company);
      }
    }
  }

  lemma OneMoreWritten(outbox: seq<OutboxEvent>, ids: seq<nat>, company: nat)
    requires ids != [] && GraphPipeline.AllTell(outbox, ids)
    ensures var init, last := ids[..|ids| - 1], ids[|ids| - 1];
      IsPartyOfWritten(outbox, ids, company) <==>
      IsPartyOfWritten(outbox, init, company) || IsParty(outbox[last].payload, company)
  {
    hide IsParty;
    var init := ids[..|ids| - 1];
    assert forall i :: 0 <= i < |init| ==> init[i] == ids[i];
    if i :| 0 <= i < |init| && GraphPipeline.Tells(outbox, init[i]) && IsParty(outbox[init[i]].payload, company) {
      assert IsParty(outbox[ids[i]].payload, company);
    }
  }

  /** At every moment of every run of directory, relay and graph, both ends of every edge are there, and the companies
      are the parties of the events that the graph has written. */
  lemma CompaniesOfPipelines(organizations: seq<Organization>, moves: seq<GraphPipeline.Move>)
    requires GraphPipeline.IsRun(GraphPipeline.Start(organizations), moves)
    ensures var w := GraphPipeline.MadeAll(GraphPipeline.Start(organizations), moves);
      && NoEdgeDangles(w.graph)
      && forall company: nat :: company in w.graph.companies <==>
           IsPartyOfWritten(w.db.outbox, w.written, company)
  {
    var start := GraphPipeline.Start(organizations);
    var w := GraphPipeline.MadeAll(start, moves);
    GraphPipeline.StartIsSound(organizations);
    GraphPipeline.RunKeepsSound(start, moves, |organizations|);
    GraphPipeline.SoundIsLinked(w, |organizations|);
    hide GraphPipeline.MadeAll, GraphPipeline.IsRun, GraphPipeline.Told, GraphPipeline.Sound, GraphPipeline.Start,
         IsPartyOfWritten, SeenIds;
    ToldCompanies(w.db.outbox, w.written);
    SameGraph(w.graph, GraphPipeline.Told(w.db.outbox, w.written));
  }

  lemma SameGraph(g: Graph, told: Graph)
    requires g.(seen := {}) == told && NoEdgeDangles(told)
    ensures NoEdgeDangles(g) && g.companies == told.companies
  {
  }
}
