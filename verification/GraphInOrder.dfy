/** A log that is written and taken in order: every transaction is younger than those before it, relays do not overlap,
    and the graph takes nothing before it has taken what was emitted earlier. */
module GraphInOrder {
  import opened GraphAgreement
  import opened GraphPipeline
  import opened GraphProjection
  import opened Ids
  import opened InvoiceHistory
  import opened InvoiceRuns
  import opened InvoiceService
  import opened Wrappers

  import OutboxRelay
  import OutboxRuns

  predicate Taken(w: World, n: nat) {
    n in w.written || n in w.lost
  }

  /** Every transaction is younger than those before it, relays do not overlap, and the graph takes nothing before it
      has taken what was emitted earlier. */
  ghost predicate InLine(w: World, move: Move) {
    match move
    case Changes(_, at) => Younger(w.store.rows, at)
    case Relays(event) => OutboxRuns.Orderly(w.store, event)
    case Takes(n, _) =>
      forall p, q :: 0 <= q < p < |w.store.log| && w.store.log[p] == n && Tells(w.db.outbox, w.store.log[q]) ==>
        Taken(w, w.store.log[q])
  }

  ghost predicate Younger(rows: seq<OutboxRelay.Row>, at: int) {
    forall i :: 0 <= i < |rows| ==> rows[i].createdAt < at
  }

  ghost predicate AllInLine(w: World, moves: seq<Move>)
    decreases |moves|
  {
    moves != [] ==> InLine(w, moves[0]) && AllInLine(Made(w, moves[0]), moves[1..])
  }

  /** Of two events of one invoice the one published later has the later timestamp. */
  ghost predicate Aged(rows: seq<OutboxRelay.Row>, outbox: seq<OutboxEvent>) {
    && |rows| == |outbox|
    && forall i, j :: 0 <= i < j < |outbox| && Tells(outbox, j) && TellsOf(outbox, i, outbox[j].payload.id) ==>
         rows[i].createdAt < rows[j].createdAt
  }

  /** What was taken had been emitted, and so had everything emitted before it been taken. */
  ghost predicate TakenInOrder(w: World) {
    && (forall n :: Taken(w, n) ==> n in w.store.log)
    && (forall p, q :: 0 <= q < p < |w.store.log| && Taken(w, w.store.log[p]) && Tells(w.db.outbox, w.store.log[q]) ==>
          Taken(w, w.store.log[q]))
  }

  /** Of one invoice the events are written in the order in which they were published. */
  ghost predicate WrittenInOrder(outbox: seq<OutboxEvent>, ids: seq<nat>) {
    && AllTell(outbox, ids)
    && forall i, j :: 0 <= i < j < |ids| && outbox[ids[i]].payload.id == outbox[ids[j]].payload.id ==> ids[i] < ids[j]
  }

  ghost predicate Ordered(w: World) {
    && OutboxRuns.Sane(w.store) && OutboxRuns.Sorted(w.store) && Aged(w.store.rows, w.db.outbox)
    && TakenInOrder(w) && WrittenInOrder(w.db.outbox, w.written)
  }

  /** No event about an invoice is added. */
  ghost predicate Quiet(before: seq<OutboxEvent>, after: seq<OutboxEvent>) {
    before <= after && forall n :: |before| <= n < |after| ==> !Tells(after, n)
  }

  lemma QuietTransitive(a: seq<OutboxEvent>, b: seq<OutboxEvent>, c: seq<OutboxEvent>)
    requires Quiet(a, b) && Quiet(b, c)
    ensures Quiet(a, c)
  {
    assert forall n :: |a| <= n < |b| ==> Tells(c, n) == Tells(b, n);
  }

  lemma ResolvingIsQuiet(db: Db, id: nat, newOrganization: NewOrganization, source: Source, funder: nat)
    requires ResolveOrCreate(db, id, newOrganization, source, funder).Ok?
    ensures var (after, found) := ResolveOrCreate(db, id, newOrganization, source, funder).value;
      Quiet(db.outbox, after.outbox) && IsOrganization(after, found) && |db.organizations| <= |after.organizations|
  {
  }

  /** At most one event about an invoice is added, and it comes last. */
  ghost predicate TellsLast(before: seq<OutboxEvent>, after: seq<OutboxEvent>) {
    before <= after && forall n :: |before| <= n < |after| - 1 ==> !Tells(after, n)
  }

  lemma CreatingTellsLast(db: Db, funder: nat, issuer: nat, debtor: nat, dto: CreateDto)
    requires IsOrganization(db, issuer) && IsOrganization(db, debtor)
    requires CreateBetween(db, funder, issuer, debtor, dto).Ok?
    ensures TellsLast(db.outbox, CreateBetween(db, funder, issuer, debtor, dto).value.0.outbox)
  {
    hide PayloadOf, InvoiceTotals.TotalsOf;
    var personas := EnsureBuyer(EnsureSupplier(db, issuer), debtor);
    assert personas.outbox == db.outbox;
  }

  lemma QuietThenLast(a: seq<OutboxEvent>, b: seq<OutboxEvent>, c: seq<OutboxEvent>)
    requires Quiet(a, b) && TellsLast(b, c)
    ensures TellsLast(a, c)
  {
    assert forall n :: |a| <= n < |b| ==> Tells(c, n) == Tells(b, n);
  }

  lemma ChangeTellsLast(db: Db, step: Step)
    ensures TellsLast(db.outbox, InvoiceRuns.Apply(db, step).outbox)
  {
    hide ResolveOrCreate, CreateBetween, Quiet, PayloadOf;
    match step
    case MoveStep(_, _, _, _) =>
    case CreateStep(orgId, dto) =>
      if Create(db, orgId, dto).1.Ok? {
        var funder := FunderPersona(db, orgId);
        ResolvingIsQuiet(db, dto.issuer, Side(dto.newIssuer), INVOICE_ISSUER, funder);
        var (db1, issuer) := ResolveOrCreate(db, dto.issuer, Side(dto.newIssuer), INVOICE_ISSUER, funder).value;
        ResolvingIsQuiet(db1, dto.debtor, Side(dto.newDebtor), INVOICE_DEBTOR, funder);
        var (db2, debtor) := ResolveOrCreate(db1, dto.debtor, Side(dto.newDebtor), INVOICE_DEBTOR, funder).value;
        CreatingTellsLast(db2, funder, issuer, debtor, dto);
        QuietTransitive(db.outbox, db1.outbox, db2.outbox);
        QuietThenLast(db.outbox, db2.outbox, Create(db, orgId, dto).0.outbox);
      }
  }

  lemma OutboxedKeepsSorted(store: OutboxRelay.Store, count: nat, at: int)
    requires OutboxRuns.Sane(store) && OutboxRuns.Sorted(store) && Younger(store.rows, at)
    ensures OutboxRuns.Sane(Outboxed(store, count, at)) && OutboxRuns.Sorted(Outboxed(store, count, at))
  {
  }

  lemma OutboxedKeepsAged(store: OutboxRelay.Store, before: seq<OutboxEvent>, after: seq<OutboxEvent>, at: int)
    requires Aged(store.rows, before) && Younger(store.rows, at) && TellsLast(before, after)
    ensures Aged(Outboxed(store, |after| - |before|, at).rows, after)
  {
    var rows := Outboxed(store, |after| - |before|, at).rows;
    forall i, j | 0 <= i < j < |after| && Tells(after, j) && TellsOf(after, i, after[j].payload.id)
      ensures rows[i].createdAt < rows[j].createdAt
    {
      if j < |before| {
        assert after[i] == before[i] && after[j] == before[j];
        assert Tells(before, j) && TellsOf(before, i, before[j].payload.id);
      }
    }
  }

  lemma ChangeKeepsOrdered(w: World, step: Step, at: int)
    requires Ordered(w) && InLine(w, Changes(step, at))
    ensures Ordered(Made(w, Changes(step, at)))
  {
    var before, after := w.db.outbox, InvoiceRuns.Apply(w.db, step).outbox;
    var w' := Made(w, Changes(step, at));
    ChangeTellsLast(w.db, step);
    assert forall n: nat :: n < |before| ==> after[n] == before[n];
    assert forall n: nat :: Taken(w', n) <==> Taken(w, n);
    assert forall n: nat :: n in w.store.log ==> n < |before|;
    assert w'.store.log == w.store.log && w'.db.outbox == after;
    hide InvoiceRuns.Apply, OutboxRuns.Sane, OutboxRuns.Sorted, TellsLast;
    OutboxedKeepsSorted(w.store, |after| - |before|, at);
    OutboxedKeepsAged(w.store, before, after, at);
  }

  /** What one step of the relay does to the log and to the ages of the rows. */
  lemma RelayLogs(store: OutboxRelay.Store, event: OutboxRuns.Event)
    requires OutboxRuns.Sane(store) && !event.Records?
    ensures var after := OutboxRuns.Apply(store, event);
      && |after.rows| == |store.rows|
      && (forall i :: 0 <= i < |store.rows| ==> after.rows[i].createdAt == store.rows[i].createdAt)
      && (after.log == store.log || exists id :: id !in store.log && after.log == store.log + [id])
  {
    if event.Settles? && event.at < |store.inFlight| {
      var id := store.inFlight[event.at];
      assert store.rows[id].status == OutboxRelay.PENDING;
      assert forall k :: 0 <= k < |store.log| ==> store.rows[store.log[k]].status != OutboxRelay.PENDING;
      assert id !in store.log;
    }
  }

  lemma RelayKeepsOrdered(w: World, event: OutboxRuns.Event)
    requires Ordered(w) && InLine(w, Relays(event)) && !event.Records?
    ensures Ordered(Made(w, Relays(event)))
  {
    OutboxRuns.StepKeepsSorted(w.store, event);
    OutboxRuns.StepKeepsSane(w.store, event);
    RelayLogs(w.store, event);
    hide OutboxRuns.Sane, OutboxRuns.Sorted, OutboxRuns.Apply, OutboxRuns.Orderly;
    var w' := Made(w, Relays(event));
    assert forall n: nat :: Taken(w', n) <==> Taken(w, n);
  }

  lemma SeenIsTaken(w: World, n: nat)
    requires Traced(w)
    ensures n + 1 in w.graph.seen <==> Taken(w, n)
  {
    hide Told;
    SeenIdsHold(Elements(w.written) + w.lost, n);
  }

  /** What is taken for the first time was published after all that was taken of its invoice. */
  lemma TakenIsNewest(w: World, n: nat, m: nat)
    requires Ordered(w) && n in w.store.log && InLine(w, Takes(n, false)) && !Taken(w, n) && Tells(w.db.outbox, n)
    requires Taken(w, m) && TellsOf(w.db.outbox, m, w.db.outbox[n].payload.id)
    ensures m < n
  {
    hide WrittenInOrder, OutboxRuns.Sane;
    var log := w.store.log;
    var p :| 0 <= p < |log| && log[p] == n;
    var q :| 0 <= q < |log| && log[q] == m;
    assert q < p;
    assert w.store.rows[m].createdAt <= w.store.rows[n].createdAt;
  }

  lemma TakingKeepsOrder(w: World, n: nat, crashed: bool)
    requires Traced(w) && Ordered(w) && n in w.store.log && InLine(w, Takes(n, crashed))
    ensures Ordered(Made(w, Takes(n, crashed)))
  {
    SeenIsTaken(w, n);
    var w' := Made(w, Takes(n, crashed));
    if Tells(w.db.outbox, n) && !Taken(w, n) {
      hide Upsert, Told, OutboxRuns.Sane, OutboxRuns.Sorted;
      assert forall k: nat :: Taken(w', k) <==> Taken(w, k) || k == n;
      if !crashed {
        forall m | m in w.written && w.db.outbox[m].payload.id == w.db.outbox[n].payload.id ensures m < n {
          TakenIsNewest(w, n, m);
        }
      }
    }
  }

  lemma StepKeepsOrdered(w: World, move: Move, seeded: nat)
    requires Sound(w, seeded) && Ordered(w) && Enabled(w, move) && InLine(w, move)
    ensures Ordered(Made(w, move))
  {
    hide Ordered, Made, InLine, NetworkInv, HistoryInv, Traced;
    match move
    case Changes(step, at) => ChangeKeepsOrdered(w, step, at);
    case Relays(event) => RelayKeepsOrdered(w, event);
    case Takes(n, crashed) => TakingKeepsOrder(w, n, crashed);
  }

  lemma {:induction false} RunKeepsOrdered(w: World, moves: seq<Move>, seeded: nat)
    requires Sound(w, seeded) && Ordered(w) && IsRun(w, moves) && AllInLine(w, moves)
    ensures Sound(MadeAll(w, moves), seeded) && Ordered(MadeAll(w, moves))
    decreases |moves|
  {
    hide Sound, Ordered, Made, Enabled, InLine;
    if moves != [] {
      StepKeepsSound(w, moves[0], seeded);
      StepKeepsOrdered(w, moves[0], seeded);
      RunKeepsOrdered(Made(w, moves[0]), moves[1..], seeded);
    }
  }

  // ---------------------------------------------------------------------------------------------
  // What failures leave behind
  // ---------------------------------------------------------------------------------------------

  /** The relay has nothing left to emit and the graph nothing left to take. */
  ghost predicate AtRest(w: World) {
    && OutboxRelay.Pending(w.store.rows) == {} && w.store.inFlight == []
    && forall n :: n in w.store.log && Tells(w.db.outbox, n) ==> Taken(w, n)
  }

  ghost predicate NewestOf(outbox: seq<OutboxEvent>, ids: seq<nat>, id: nat, n: nat) {
    n in ids && TellsOf(outbox, n, id) && forall m :: m in ids && TellsOf(outbox, m, id) ==> m <= n
  }

  /** In order, the event of an invoice that was written last is the newest of those written. */
  lemma {:induction false} LastWrittenIsNewest(outbox: seq<OutboxEvent>, ids: seq<nat>, id: nat)
    requires WrittenInOrder(outbox, ids)
    ensures LastWritten(outbox, ids, id).Some? ==> NewestOf(outbox, ids, id, LastWritten(outbox, ids, id).value)
    ensures LastWritten(outbox, ids, id).None? ==> forall n :: n in ids ==> !TellsOf(outbox, n, id)
  {
    if ids != [] {
      var init, last := ids[..|ids| - 1], ids[|ids| - 1];
      LastWrittenIsNewest(outbox, init, id);
      assert forall i :: 0 <= i < |init| ==> init[i] == ids[i];
      assert forall n :: n in ids ==> n in init || n == last;
    }
  }

  /** The newest emitted event of the invoice carries the status of its row. */
  ghost predicate NewestTellsRow(w: World, id: nat) {
    1 <= id <= |w.db.invoices| ==>
      exists n: nat :: NewestOf(w.db.outbox, w.store.log, id, n)
                  && w.db.outbox[n].payload.status == w.db.invoices[id - 1].status
  }

  ghost predicate NewestTellRows(w: World) {
    forall id: nat :: NewestTellsRow(w, id)
  }

  lemma RestIsWritten(w: World)
    requires Traced(w) && Ordered(w) && AtRest(w) && w.lost == {}
    ensures forall n: nat :: n in w.written <==> n in w.store.log && Tells(w.db.outbox, n)
  {
    hide Told, SeenIds, OutboxRuns.Sane, OutboxRuns.Sorted, WrittenInOrder;
    forall n: nat ensures n in w.written <==> n in w.store.log && Tells(w.db.outbox, n) {
      assert Taken(w, n) <==> n in w.written;
    }
  }

  lemma UpToDateIffNewest(w: World, id: nat)
    requires Traced(w) && Ordered(w) && AtRest(w) && w.lost == {}
    ensures UpToDate(w, id) <==> NewestTellsRow(w, id)
  {
    RestIsWritten(w);
    hide Traced, AtRest, Aged, TakenInOrder, OutboxRuns.Sane, OutboxRuns.Sorted;
    LastWrittenIsNewest(w.db.outbox, w.written, id);
    var last := LastWritten(w.db.outbox, w.written, id);
    if last.Some? {
      assert NewestOf(w.db.outbox, w.store.log, id, last.value);
    }
  }

  /** When a log that is written and taken in order has come to rest, and the graph has lost nothing, the graph equals
      the rebuild exactly when of each invoice the newest event that was emitted carries the status of its row: the
      events whose emission failed are all that can keep it back, and the last one of an invoice decides. */
  lemma FailuresDecide(organizations: seq<Organization>, moves: seq<Move>, ids: seq<nat>)
    requires IsRun(Start(organizations), moves) && AllInLine(Start(organizations), moves)
    requires var w := MadeAll(Start(organizations), moves);
      AtRest(w) && w.lost == {} && AreRows(w.db, ids) && Elements(ids) == AllIds(w.db)
    ensures var w := MadeAll(Start(organizations), moves); EqualsRebuild(w, ids) <==> NewestTellRows(w)
  {
    var seeded, start := |organizations|, Start(organizations);
    var w := MadeAll(start, moves);
    StartIsSound(organizations);
    StartIsOrdered(organizations);
    hide *;
    RunKeepsOrdered(start, moves, seeded);
    GraphEqualsRebuildIff(organizations, moves, ids);
    SoundIsLinked(w, seeded);
    UpToDateIffNewestOfAll(w);
  }

  lemma UpToDateIffNewestOfAll(w: World)
    requires Traced(w) && Ordered(w) && AtRest(w) && w.lost == {}
    ensures AllUpToDate(w) <==> NewestTellRows(w)
  {
    hide Traced, Ordered, AtRest, UpToDate, NewestTellsRow;
    forall id: nat ensures UpToDate(w, id) <==> NewestTellsRow(w, id) {
      UpToDateIffNewest(w, id);
    }
  }

  lemma StartIsOrdered(organizations: seq<Organization>)
    ensures Ordered(Start(organizations))
  {
    OutboxRuns.NothingRecorded(OutboxRuns.EMPTY);
  }

  /** At rest, an event that was not emitted is FAILED. */
  lemma UnsentIsFailed(w: World, n: nat)
    requires Ordered(w) && AtRest(w) && n < |w.db.outbox| && n !in w.store.log
    ensures w.store.rows[n].status == OutboxRelay.FAILED
  {
    assert n !in OutboxRelay.Pending(w.store.rows);
  }

  /** So when the last event of each invoice is not FAILED the newest emitted events tell the rows. */
  lemma NoFailureTellsRows(w: World, seeded: nat)
    requires Sound(w, seeded) && Ordered(w) && AtRest(w)
    requires forall n: nat :: IsLastOf(w.db.outbox, n) ==> w.store.rows[n].status != OutboxRelay.FAILED
    ensures NewestTellRows(w)
  {
    forall id: nat | 1 <= id <= |w.db.invoices|
      ensures NewestTellsRow(w, id)
    {
      var n := LastEventOf(w.db, id);
      assert IsLastOf(w.db.outbox, n);
      if n !in w.store.log {
        UnsentIsFailed(w, n);
      }
      assert NewestOf(w.db.outbox, w.store.log, id, n);
    }
  }

  /** `n` is the last event of its invoice. */
  ghost predicate IsLastOf(outbox: seq<OutboxEvent>, n: nat) {
    Tells(outbox, n) && forall m :: n < m < |outbox| ==> !TellsOf(outbox, m, outbox[n].payload.id)
  }

  lemma {:induction false} LastSelected(outbox: seq<OutboxEvent>, id: nat) returns (n: nat)
    requires Select(outbox, OfInvoice(id)) != []
    ensures var history := Select(outbox, OfInvoice(id));
      TellsOf(outbox, n, id) && IsLastOf(outbox, n) && outbox[n] == history[|history| - 1]
  {
    var init, last := outbox[..|outbox| - 1], outbox[|outbox| - 1];
    if Matches(last, OfInvoice(id)) {
      n := |init|;
    } else {
      n := LastSelected(init, id);
      assert forall m: nat :: m < |init| ==> TellsOf(outbox, m, id) == TellsOf(init, m, id);
    }
  }

  lemma LastEventOf(db: Db, id: nat) returns (n: nat)
    requires Chained(db) && 1 <= id <= |db.invoices|
    ensures TellsOf(db.outbox, n, id) && IsLastOf(db.outbox, n)
    ensures db.outbox[n].payload.status == db.invoices[id - 1].status
  {
    assert Chain(Select(db.outbox, OfInvoice(id - 1 + 1)), db.invoices[id - 1], id - 1 + 1);
    n := LastSelected(db.outbox, id);
  }
}
