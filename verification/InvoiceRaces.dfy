/** Status moves that read the invoice first and write the whole row back later, with anything in between. */
module InvoiceRaces {
  import opened InvoiceHistory
  import opened InvoiceRuns
  import opened InvoiceService
  import opened Wrappers

  /** The second half of a move: `row` is the invoice as it was read. */
  function LateMove(db: Db, now: int, id: nat, row: Invoice, to: Status): Db
    requires 1 <= id <= |db.invoices|
  {
    var moved := Moved(row, to, now);
    db.(invoices := db.invoices[id - 1 := moved],
        outbox := db.outbox + [InvoiceStatusChanged(PayloadOf(moved, id, Some(row.status)))])
  }

  /** Written at once, it is the move. */
  lemma LateMoveAtOnce(db: Db, now: int, orgId: nat, id: nat, to: Status)
    requires UpdateStatus(db, now, orgId, id, to).1.Ok?
    ensures UpdateStatus(db, now, orgId, id, to).0 == LateMove(db, now, id, db.invoices[id - 1], to)
  {
  }

  /** Once a status that can still move is reached, it alone tells whether the invoice was financed or paid. */
  lemma {:induction false} StatusTells(path: seq<Status>)
    requires IsPath(path) && path[|path| - 1] != CLOSED
    ensures PAID in path <==> path[|path| - 1] == PAID
    ensures FINANCED in path <==> Rank(path[|path| - 1]) >= 4
  {
    var init, last := path[..|path| - 1], path[|path| - 1];
    assert path == init + [last];
    if init != [] {
      assert last in Successors(init[|init| - 1]);
      StatusTells(init);
    }
  }

  /** The row was the invoice's at some earlier moment. */
  ghost predicate WasRow(row: Invoice, db: Db, id: nat) {
    && 1 <= id <= |db.invoices|
    && (exists history :: Chain(history, row, id))
    && SameInvoice(row, db.invoices[id - 1])
  }

  /** A row read before any run of the directory was the invoice's. */
  lemma ReadRowWasRow(db: Db, steps: seq<Step>, seeded: nat, id: nat)
    requires NetworkInv(db, seeded) && HistoryInv(db, seeded) && 1 <= id <= |db.invoices|
    ensures HistoryInv(Run(db, steps), seeded) && WasRow(db.invoices[id - 1], Run(db, steps), id)
  {
    RunKeepsNetwork(db, steps, seeded);
    RunKeepsHistory(db, steps, seeded);
    assert Chain(Select(db.outbox, OfInvoice(id - 1 + 1)), db.invoices[id - 1], id - 1 + 1);
  }

  lemma WrittenAsRead(db: Db, row: Invoice, id: nat)
    requires Chained(db) && WasRow(row, db, id)
    requires db.invoices[id - 1].status == row.status != CLOSED
    ensures Chained(db.(invoices := db.invoices[id - 1 := row]))
  {
    hide Select, IsPath;
    var current, history := db.invoices[id - 1], Select(db.outbox, OfInvoice(id));
    assert Chain(history, current, id - 1 + 1);
    SameFlags(history, current, row, id);
    assert Chain(history, row, id - 1 + 1);
    OtherRowsStayChained(db, db.(invoices := db.invoices[id - 1 := row]), id - 1);
  }

  lemma SameFlags(history: seq<OutboxEvent>, current: Invoice, row: Invoice, id: nat)
    requires Chain(history, current, id) && current.status == row.status != CLOSED
    requires SameInvoice(row, current) && exists earlier :: Chain(earlier, row, id)
    ensures row.settledAt.Some? == current.settledAt.Some?
    ensures row.ownershipTransferredAt.Some? == current.ownershipTransferredAt.Some?
  {
    var earlier :| Chain(earlier, row, id);
    StatusTells(PathOf(history));
    StatusTells(PathOf(earlier));
  }

  lemma WrongStatusBreaks(db: Db, row: Invoice, e: OutboxEvent, id: nat)
    requires Chained(db) && 1 <= id <= |db.invoices| && db.invoices[id - 1].status != row.status
    requires e.InvoiceStatusChanged? && e.payload.id == id && e.payload.previous == Some(row.status)
    ensures forall after: Invoice :: !Chain(Select(db.outbox + [e], OfInvoice(id)), after, id)
  {
    var history := Select(db.outbox, OfInvoice(id));
    assert Chain(history, db.invoices[id - 1], id - 1 + 1);
    SelectAppend(db.outbox, e, OfInvoice(id));
    var longer := history + [e];
    assert longer[|history|].payload.previous == Some(row.status) && longer[|history| - 1] == history[|history| - 1];
  }

  /** A move that writes later than it read keeps the history exactly when the invoice still has, or has again, the
      status that was read. */
  lemma LateMoveIff(db: Db, now: int, id: nat, row: Invoice, to: Status, seeded: nat)
    requires HistoryInv(db, seeded) && WasRow(row, db, id) && to in Successors(row.status)
    ensures HistoryInv(LateMove(db, now, id, row, to), seeded) <==> db.invoices[id - 1].status == row.status
  {
    hide Select, Chain, Chained;
    var after := LateMove(db, now, id, row, to);
    var e := after.outbox[|db.outbox|];
    assert after.outbox == db.outbox + [e];
    SelectAppend(db.outbox, e, Organizations);
    SelectAppend(db.outbox, e, Relationships);
    if db.invoices[id - 1].status == row.status {
      WrittenAsRead(db, row, id);
      MovedRowIsChained(db.(invoices := db.invoices[id - 1 := row]), after, id - 1, to, now);
    } else {
      WrongStatusBreaks(db, row, e, id);
      ChainedRow(after, id);
    }
  }

  lemma ChainedRow(db: Db, id: nat)
    requires 1 <= id <= |db.invoices|
    ensures Chained(db) ==> Chain(Select(db.outbox, OfInvoice(id)), db.invoices[id - 1], id)
  {
    assert Chained(db) ==> Chain(Select(db.outbox, OfInvoice(id - 1 + 1)), db.invoices[id - 1], id - 1 + 1);
  }

  /** Two moves that both read the invoice before either wrote: the second breaks the history, and the event of the
      status it reaches is published even where the first has reached it. */
  lemma SecondMoveBreaksHistory(db: Db, orgId: nat, id: nat, first: int, to: Status, second: int, to': Status,
                                seeded: nat)
    requires NetworkInv(db, seeded) && HistoryInv(db, seeded)
    requires UpdateStatus(db, first, orgId, id, to).1.Ok? && to' in Successors(db.invoices[id - 1].status)
    ensures var row, mid := db.invoices[id - 1], UpdateStatus(db, first, orgId, id, to).0;
      var after := LateMove(mid, second, id, row, to');
      && HistoryInv(mid, seeded) && !HistoryInv(after, seeded)
      && Select(after.outbox, OfInvoice(id))
         == Select(db.outbox, OfInvoice(id))
            + [InvoiceStatusChanged(PayloadOf(Moved(row, to, first), id, Some(row.status))),
               InvoiceStatusChanged(PayloadOf(Moved(row, to', second), id, Some(row.status)))]
  {
    hide Select, Chain, HistoryInv, NetworkInv, WasRow;
    var row, mid := db.invoices[id - 1], UpdateStatus(db, first, orgId, id, to).0;
    var after := LateMove(mid, second, id, row, to');
    ReadRowWasRow(db, [MoveStep(first, orgId, id, to)], seeded, id);
    OneStep(db, MoveStep(first, orgId, id, to));
    NoMoveStays(row.status, to);
    LateMoveIff(mid, second, id, row, to', seeded);
    assert mid.outbox == db.outbox + [mid.outbox[|db.outbox|]];
    assert after.outbox == mid.outbox + [after.outbox[|mid.outbox|]];
    SelectAppend(db.outbox, mid.outbox[|db.outbox|], OfInvoice(id));
    SelectAppend(mid.outbox, after.outbox[|mid.outbox|], OfInvoice(id));
  }

  lemma OneStep(db: Db, step: Step)
    ensures Run(db, [step]) == Apply(db, step)
  {
    assert Run(Apply(db, step), []) == Apply(db, step);
  }

  lemma NoMoveStays(from: Status, to: Status)
    requires to in Successors(from)
    ensures from != to
  {
  }
}
