/** The whole way of an invoice event: written to the outbox with the change it tells of, emitted by the relay, taken
    from the log by the knowledge graph.

    The log has partitions and the events no key, so the graph may take them in any order, and each any number of times.
    The emission of an event may fail, and the graph may crash after it has marked an event as seen and before it has
    written it; either way the event is never written.
 */
module GraphPipeline {
  import opened GraphAgreement
  import opened GraphProjection
  import opened Ids
  import opened InvoiceHistory
  import opened InvoiceRuns
  import opened InvoiceService
  import opened Wrappers

  import GraphRuns
  import OutboxRelay
  import OutboxRuns

  /** Row `n` of the outbox table carries event `n` of `db.outbox`. `written` lists the events that the graph has
      written, oldest write first, and `lost` those that it has marked as seen without writing them. */
  datatype World = World(db: Db, store: OutboxRelay.Store, written: seq<nat>, lost: set<nat>, graph: Graph)

  datatype Move =
    | Changes(step: Step, at: int)
    | Relays(event: OutboxRuns.Event)
    | Takes(n: nat, crashed: bool)

  /** Event `n` is about an invoice. */
  predicate Tells(outbox: seq<OutboxEvent>, n: nat) {
    n < |outbox| && outbox[n].InvoiceStatusChanged?
  }

  predicate TellsOf(outbox: seq<OutboxEvent>, n: nat, id: nat) {
    Tells(outbox, n) && outbox[n].payload.id == id
  }

  /** The rows that one transaction adds share its timestamp. */
  function Outboxed(store: OutboxRelay.Store, count: nat, at: int): OutboxRelay.Store {
    store.(rows := store.rows + seq(count, i => OutboxRelay.Row("", "", at, OutboxRelay.PENDING, None)))
  }

  ghost predicate Enabled(w: World, move: Move) {
    match move
    case Changes(_, _) => true
    case Relays(event) => !event.Records?
    case Takes(n, _) => n in w.store.log
  }

  ghost function Made(w: World, move: Move): World {
    match move
    case Changes(step, at) =>
      var db := InvoiceRuns.Apply(w.db, step);
      w.(db := db,
         store := if |w.db.outbox| <= |db.outbox| then Outboxed(w.store, |db.outbox| - |w.db.outbox|, at) else w.store)
    case Relays(event) => w.(store := OutboxRuns.Apply(w.store, event))
    case Takes(n, crashed) =>
      if !Tells(w.db.outbox, n) || n + 1 in w.graph.seen then w
      else if crashed then w.(graph := w.graph.(seen := w.graph.seen + {n + 1}), lost := w.lost + {n})
      else w.(graph := Upsert(w.graph, Message(n + 1, w.db.outbox[n].payload)), written := w.written + [n])
  }

  ghost function MadeAll(w: World, moves: seq<Move>): World
    decreases |moves|
  {
    if moves == [] then w else MadeAll(Made(w, moves[0]), moves[1..])
  }

  ghost predicate IsRun(w: World, moves: seq<Move>)
    decreases |moves|
  {
    moves != [] ==> Enabled(w, moves[0]) && IsRun(Made(w, moves[0]), moves[1..])
  }

  function Start(organizations: seq<Organization>): World {
    World(Seeded(organizations), OutboxRuns.EMPTY, [], {}, EMPTY)
  }

  // ---------------------------------------------------------------------------------------------
  // What the graph makes of the events it has written
  // ---------------------------------------------------------------------------------------------

  ghost predicate AllTell(outbox: seq<OutboxEvent>, ids: seq<nat>) {
    forall i :: 0 <= i < |ids| ==> Tells(outbox, ids[i])
  }

  function Told(outbox: seq<OutboxEvent>, ids: seq<nat>): Graph
    requires AllTell(outbox, ids)
  {
    if ids == [] then EMPTY else Write(Told(outbox, ids[..|ids| - 1]), outbox[ids[|ids| - 1]].payload)
  }

  /** The last event of an invoice to be written. */
  function LastWritten(outbox: seq<OutboxEvent>, ids: seq<nat>, id: nat): (last: Option<nat>)
    ensures last.Some? ==> last.value in ids && TellsOf(outbox, last.value, id)
  {
    if ids == [] then None
    else if TellsOf(outbox, ids[|ids| - 1], id) then Some(ids[|ids| - 1])
    else LastWritten(outbox, ids[..|ids| - 1], id)
  }

  lemma {:induction false} ToldNodes(outbox: seq<OutboxEvent>, ids: seq<nat>, id: nat)
    requires AllTell(outbox, ids)
    ensures id in Told(outbox, ids).invoices <==> LastWritten(outbox, ids, id).Some?
    ensures LastWritten(outbox, ids, id).Some? ==>
              Told(outbox, ids).invoices[id] == NodeOf(outbox[LastWritten(outbox, ids, id).value].payload)
  {
    hide NodeOf;
    if ids != [] {
      ToldNodes(outbox, ids[..|ids| - 1], id);
    }
  }

  predicate HasIssuerEdge(outbox: seq<OutboxEvent>, n: nat, e: (nat, nat)) {
    Tells(outbox, n) && e == (outbox[n].payload.issuer, outbox[n].payload.id)
  }

  predicate HasDebtorEdge(outbox: seq<OutboxEvent>, n: nat, e: (nat, nat)) {
    Tells(outbox, n) && e == (outbox[n].payload.id, outbox[n].payload.debtor)
  }

  ghost predicate SomeIssuerEdge(outbox: seq<OutboxEvent>, ids: seq<nat>, e: (nat, nat)) {
    exists i :: 0 <= i < |ids| && HasIssuerEdge(outbox, ids[i], e)
  }

  ghost predicate SomeDebtorEdge(outbox: seq<OutboxEvent>, ids: seq<nat>, e: (nat, nat)) {
    exists i :: 0 <= i < |ids| && HasDebtorEdge(outbox, ids[i], e)
  }

  lemma OneMoreEdge(outbox: seq<OutboxEvent>, ids: seq<nat>, e: (nat, nat))
    requires ids != []
    ensures SomeIssuerEdge(outbox, ids, e)
       <==> SomeIssuerEdge(outbox, ids[..|ids| - 1], e) || HasIssuerEdge(outbox, ids[|ids| - 1], e)
    ensures SomeDebtorEdge(outbox, ids, e)
       <==> SomeDebtorEdge(outbox, ids[..|ids| - 1], e) || HasDebtorEdge(outbox, ids[|ids| - 1], e)
  {
    hide HasIssuerEdge, HasDebtorEdge;
    var init := ids[..|ids| - 1];
    if i :| 0 <= i < |init| && HasIssuerEdge(outbox, init[i], e) {
      assert HasIssuerEdge(outbox, ids[i], e);
    }
    if i :| 0 <= i < |init| && HasDebtorEdge(outbox, init[i], e) {
      assert HasDebtorEdge(outbox, ids[i], e);
    }
    if i :| 0 <= i < |ids| && HasIssuerEdge(outbox, ids[i], e) && i < |init| {
      assert HasIssuerEdge(outbox, init[i], e);
    }
    if i :| 0 <= i < |ids| && HasDebtorEdge(outbox, ids[i], e) && i < |init| {
      assert HasDebtorEdge(outbox, init[i], e);
    }
  }

  lemma {:induction false} ToldEdges(outbox: seq<OutboxEvent>, ids: seq<nat>, e: (nat, nat))
    requires AllTell(outbox, ids)
    ensures e in Told(outbox, ids).issued <==> SomeIssuerEdge(outbox, ids, e)
    ensures e in Told(outbox, ids).owedBy <==> SomeDebtorEdge(outbox, ids, e)
  {
    hide NodeOf, SomeIssuerEdge, SomeDebtorEdge;
    if ids == [] {
      NoEdge(outbox, e);
    } else {
      ToldEdges(outbox, ids[..|ids| - 1], e);
      OneMoreEdge(outbox, ids, e);
    }
  }

  lemma NoEdge(outbox: seq<OutboxEvent>, e: (nat, nat))
    ensures !SomeIssuerEdge(outbox, [], e) && !SomeDebtorEdge(outbox, [], e)
  {
  }

  lemma {:induction false} ToldGrows(before: seq<OutboxEvent>, after: seq<OutboxEvent>, ids: seq<nat>)
    requires AllTell(before, ids) && before <= after
    ensures AllTell(after, ids) && Told(after, ids) == Told(before, ids)
  {
    if ids != [] {
      ToldGrows(before, after, ids[..|ids| - 1]);
    }
  }

  // ---------------------------------------------------------------------------------------------
  // What every run keeps
  // ---------------------------------------------------------------------------------------------

  /** The graph is what the events written have made of it, in the order of their writes. */
  ghost predicate Traced(w: World) {
    && AllTell(w.db.outbox, w.written) && (forall n :: n in w.lost ==> Tells(w.db.outbox, n))
    && w.graph.(seen := {}) == Told(w.db.outbox, w.written)
    && w.graph.seen == SeenIds(Elements(w.written) + w.lost)
  }

  ghost predicate Sound(w: World, seeded: nat) {
    NetworkInv(w.db, seeded) && HistoryInv(w.db, seeded) && |w.store.rows| == |w.db.outbox| && Traced(w)
  }

  lemma SeenIdsHold(ids: set<nat>, n: nat)
    ensures n + 1 in SeenIds(ids) <==> n in ids
  {
  }

  lemma TakingKeepsTraced(w: World, n: nat, crashed: bool)
    requires Traced(w)
    ensures Traced(Made(w, Takes(n, crashed)))
  {
    hide Told, NodeOf, Write;
    SeenIdsHold(Elements(w.written) + w.lost, n);
    SeenIdsTrack(Elements(w.written) + w.lost, n);
    if Tells(w.db.outbox, n) && n + 1 !in w.graph.seen {
      if crashed {
        assert Elements(w.written) + (w.lost + {n}) == (Elements(w.written) + w.lost) + {n};
      } else {
        var after := Made(w, Takes(n, false));
        assert Elements(w.written + [n]) + w.lost == (Elements(w.written) + w.lost) + {n};
        OneMoreTold(w.db.outbox, w.written, n, w.graph, after.graph);
      }
    }
  }

  lemma OneMoreTold(outbox: seq<OutboxEvent>, ids: seq<nat>, n: nat, g: Graph, after: Graph)
    requires AllTell(outbox, ids) && Tells(outbox, n) && g.(seen := {}) == Told(outbox, ids)
    requires after == Write(g, outbox[n].payload).(seen := g.seen + {n + 1})
    ensures AllTell(outbox, ids + [n]) && after.(seen := {}) == Told(outbox, ids + [n])
  {
    assert (ids + [n])[..|ids|] == ids;
    hide NodeOf;
  }

  lemma RelayKeepsRows(store: OutboxRelay.Store, event: OutboxRuns.Event)
    requires !event.Records?
    ensures |OutboxRuns.Apply(store, event).rows| == |store.rows|
  {
  }

  lemma StepKeepsSound(w: World, move: Move, seeded: nat)
    requires Sound(w, seeded) && Enabled(w, move)
    ensures Sound(Made(w, move), seeded) && w.db.outbox <= Made(w, move).db.outbox
  {
    hide NetworkInv, HistoryInv, Told, OutboxRuns.Apply, InvoiceRuns.Apply, SeenIds, Upsert;
    match move
    case Changes(step, at) =>
      GraphRuns.ChangeExtends(w.db, step, seeded);
      ToldGrows(w.db.outbox, InvoiceRuns.Apply(w.db, step).outbox, w.written);
    case Relays(event) => RelayKeepsRows(w.store, event);
    case Takes(n, crashed) => TakingKeepsTraced(w, n, crashed);
  }

  lemma {:induction false} RunKeepsSound(w: World, moves: seq<Move>, seeded: nat)
    requires Sound(w, seeded) && IsRun(w, moves)
    ensures Sound(MadeAll(w, moves), seeded)
    decreases |moves|
  {
    hide Sound, Made, Enabled;
    if moves != [] {
      StepKeepsSound(w, moves[0], seeded);
      RunKeepsSound(Made(w, moves[0]), moves[1..], seeded);
    }
  }

  lemma StartIsSound(organizations: seq<Organization>)
    ensures Sound(Start(organizations), |organizations|)
  {
    NetworkIsSound(organizations, []);
    HistoryIsSound(organizations, []);
    assert Elements([]) == {};
  }

  // ---------------------------------------------------------------------------------------------
  // When the graph equals a rebuild
  // ---------------------------------------------------------------------------------------------

  /** The last event of the invoice to be written carries the status of its row. */
  ghost predicate UpToDate(w: World, id: nat) {
    1 <= id <= |w.db.invoices| ==>
      var last := LastWritten(w.db.outbox, w.written, id);
      last.Some? && w.db.outbox[last.value].payload.status == w.db.invoices[id - 1].status
  }

  lemma {:induction false} EventIsSelected(outbox: seq<OutboxEvent>, n: nat, id: nat)
    requires TellsOf(outbox, n, id)
    ensures outbox[n] in Select(outbox, OfInvoice(id))
  {
    if n < |outbox| - 1 {
      EventIsSelected(outbox[..|outbox| - 1], n, id);
    }
  }

  /** An event tells of the invoice's own parties, and all but its status agrees with the row. */
  lemma EventTellsRow(db: Db, n: nat)
    requires Chained(db) && Tells(db.outbox, n)
    ensures var payload := db.outbox[n].payload;
      && 1 <= payload.id <= |db.invoices|
      && payload.issuer == db.invoices[payload.id - 1].issuer && payload.debtor == db.invoices[payload.id - 1].debtor
      && (NodeOf(payload) == RowNode(db.invoices[payload.id - 1])
          <==> payload.status == db.invoices[payload.id - 1].status)
  {
    var payload := db.outbox[n].payload;
    EventIsSelected(db.outbox, n, payload.id);
    EventNamesRow(db, payload);
    hide Select;
    var history, row := Select(db.outbox, OfInvoice(payload.id)), db.invoices[payload.id - 1];
    assert Chain(history, row, payload.id - 1 + 1);
    var k :| 0 <= k < |history| && history[k] == db.outbox[n];
  }

  lemma NodeIsRowIff(w: World, id: nat)
    requires Chained(w.db) && Traced(w) && 1 <= id <= |w.db.invoices|
    ensures UpToDate(w, id) <==> id in w.graph.invoices && w.graph.invoices[id] == RowNode(w.db.invoices[id - 1])
  {
    hide Chained, Told, NodeOf, RowNode, SeenIds;
    ToldNodes(w.db.outbox, w.written, id);
    var last := LastWritten(w.db.outbox, w.written, id);
    if last.Some? {
      EventTellsRow(w.db, last.value);
    }
  }

  lemma NothingElseIsTold(w: World, id: nat)
    requires Chained(w.db) && Traced(w) && id in w.graph.invoices
    ensures 1 <= id <= |w.db.invoices|
  {
    ToldNodes(w.db.outbox, w.written, id);
    EventTellsRow(w.db, LastWritten(w.db.outbox, w.written, id).value);
  }

  ghost predicate AllUpToDate(w: World) {
    forall id: nat :: UpToDate(w, id)
  }

  lemma ToldEdgesAreTable(w: World, e: (nat, nat))
    requires Chained(w.db) && Traced(w)
    ensures e in w.graph.issued ==> IsIssued(w.db, e)
    ensures e in w.graph.owedBy ==> IsOwed(w.db, e)
  {
    hide Chained, Told, NodeOf, RowNode, SeenIds;
    ToldEdges(w.db.outbox, w.written, e);
    if i :| 0 <= i < |w.written| && HasIssuerEdge(w.db.outbox, w.written[i], e) {
      EventTellsRow(w.db, w.written[i]);
    }
    if i :| 0 <= i < |w.written| && HasDebtorEdge(w.db.outbox, w.written[i], e) {
      EventTellsRow(w.db, w.written[i]);
    }
  }

  lemma TableEdgesAreTold(w: World, e: (nat, nat))
    requires Chained(w.db) && Traced(w) && UpToDate(w, e.0) && UpToDate(w, e.1)
    ensures IsIssued(w.db, e) ==> e in w.graph.issued
    ensures IsOwed(w.db, e) ==> e in w.graph.owedBy
  {
    hide Chained, Told, NodeOf, RowNode, SeenIds;
    ToldEdges(w.db.outbox, w.written, e);
    if IsIssued(w.db, e) {
      var i := LastPosition(w, e.1);
      EventTellsRow(w.db, w.written[i]);
      assert HasIssuerEdge(w.db.outbox, w.written[i], e);
    }
    if IsOwed(w.db, e) {
      var i := LastPosition(w, e.0);
      EventTellsRow(w.db, w.written[i]);
      assert HasDebtorEdge(w.db.outbox, w.written[i], e);
    }
  }

  lemma LastPosition(w: World, id: nat) returns (i: nat)
    requires 1 <= id <= |w.db.invoices| && UpToDate(w, id)
    ensures i < |w.written| && TellsOf(w.db.outbox, w.written[i], id)
  {
    var last := LastWritten(w.db.outbox, w.written, id).value;
    i :| 0 <= i < |w.written| && w.written[i] == last;
  }

  lemma UpToDateMirrors(w: World)
    requires Chained(w.db) && Traced(w) && AllUpToDate(w)
    ensures MirrorsTable(w.graph, w.db)
  {
    hide Chained, Traced, UpToDate, RowNode, IsIssued, IsOwed;
    forall id: nat
      ensures id in AllIds(w.db) ==> id in w.graph.invoices && w.graph.invoices[id] == RowNode(w.db.invoices[id - 1])
      ensures id in w.graph.invoices ==> id in AllIds(w.db)
    {
      assert UpToDate(w, id);
      GraphRuns.IdsAreRows(w.db, id);
      if 1 <= id <= |w.db.invoices| {
        NodeIsRowIff(w, id);
      }
      if id in w.graph.invoices {
        NothingElseIsTold(w, id);
      }
    }
    forall e: (nat, nat)
      ensures e in w.graph.issued <==> IsIssued(w.db, e)
      ensures e in w.graph.owedBy <==> IsOwed(w.db, e)
    {
      assert UpToDate(w, e.0) && UpToDate(w, e.1);
      ToldEdgesAreTable(w, e);
      TableEdgesAreTold(w, e);
    }
  }

  lemma MirrorIsUpToDate(w: World)
    requires Chained(w.db) && Traced(w) && MirrorsTable(w.graph, w.db)
    ensures AllUpToDate(w)
  {
    hide Chained, Traced, RowNode, IsIssued, IsOwed, AllIds;
    forall id: nat ensures UpToDate(w, id) {
      GraphRuns.IdsAreRows(w.db, id);
      if 1 <= id <= |w.db.invoices| {
        NodeIsRowIff(w, id);
      }
    }
  }

  /** The graph mirrors the table exactly when of each invoice the event written last carries the status of the row. */
  lemma MirrorsIff(w: World)
    requires Chained(w.db) && Traced(w)
    ensures MirrorsTable(w.graph, w.db) <==> AllUpToDate(w)
  {
    hide *;
    if MirrorsTable(w.graph, w.db) {
      MirrorIsUpToDate(w);
    } else if AllUpToDate(w) {
      UpToDateMirrors(w);
    }
  }

  lemma SoundIsLinked(w: World, seeded: nat)
    requires Sound(w, seeded)
    ensures Chained(w.db) && Traced(w)
    ensures forall i :: 0 <= i < |w.db.invoices| ==>
              IsOrganization(w.db, w.db.invoices[i].issuer) && IsOrganization(w.db, w.db.invoices[i].debtor)
  {
    assert forall i :: 0 <= i < |w.db.invoices| ==> InvoiceLinked(w.db, w.db.invoices[i]);
    hide Chained, Traced, IsOrganization;
  }

  ghost predicate EqualsRebuild(w: World, ids: seq<nat>)
    requires AreRows(w.db, ids)
  {
    var rebuilt := Rebuilt(EMPTY, w.db, ids);
    w.graph.invoices == rebuilt.invoices && w.graph.issued == rebuilt.issued && w.graph.owedBy == rebuilt.owedBy
  }

  lemma MirrorsAreEqual(g: Graph, h: Graph, db: Db)
    requires MirrorsTable(h, db)
    ensures MirrorsTable(g, db) <==> g.invoices == h.invoices && g.issued == h.issued && g.owedBy == h.owedBy
  {
    hide AllIds, RowNode, IsIssued, IsOwed;
    if MirrorsTable(g, db) {
      MirrorsAgree(g, h, db);
    }
  }

  lemma EqualsRebuildIffMirrors(w: World, ids: seq<nat>, seeded: nat)
    requires Sound(w, seeded) && AreRows(w.db, ids) && Elements(ids) == AllIds(w.db)
    ensures EqualsRebuild(w, ids) <==> MirrorsTable(w.graph, w.db)
  {
    hide Sound, Rebuilt, IsOrganization, MirrorsTable, AllIds, Elements, AreRows;
    SoundIsLinked(w, seeded);
    RebuiltMirrors(w.db, ids);
    MirrorsAreEqual(w.graph, Rebuilt(EMPTY, w.db, ids), w.db);
  }

  /** At every moment of every run, whatever was lost and however events overtook each other, the graph's invoices and
      edges are those of a rebuild from nothing exactly when of each invoice the event written last carries the status
      of the row. */
  lemma GraphEqualsRebuildIff(organizations: seq<Organization>, moves: seq<Move>, ids: seq<nat>)
    requires IsRun(Start(organizations), moves)
    requires var w := MadeAll(Start(organizations), moves); AreRows(w.db, ids) && Elements(ids) == AllIds(w.db)
    ensures var w := MadeAll(Start(organizations), moves); EqualsRebuild(w, ids) <==> AllUpToDate(w)
  {
    var seeded, w := |organizations|, MadeAll(Start(organizations), moves);
    hide IsRun, MadeAll, Start, AllIds, AreRows, Sound, EqualsRebuild, AllUpToDate, MirrorsTable;
    StartIsSound(organizations);
    RunKeepsSound(Start(organizations), moves, seeded);
    SoundIsLinked(w, seeded);
    EqualsRebuildIffMirrors(w, ids, seeded);
    MirrorsIff(w);
  }
}
