/** Operations on SLA timers that read and write in two steps, with anything in between.

    A start looks for a running timer and inserts later; the partial unique index of the table has the last word. A
    resolve reads the row and writes the whole row back later.
 */
module SlaRaces {
  import opened SlaDeadline
  import opened SlaEngine
  import opened SlaRuns
  import opened Wrappers

  /** The second half of a start that found no running timer: the index refuses a second running row of the key. */
  function LateInsert(timers: seq<Timer>, row: Timer): Option<seq<Timer>> {
    if row.status == RUNNING && FindRunning(timers, row.key).Some? then None else Some(timers + [row])
  }

  /** The index refuses exactly the inserts that would leave two running timers of one key, so however starts interleave
      there is at most one. */
  lemma LateInsertIff(timers: seq<Timer>, row: Timer)
    requires OneRunning(timers)
    ensures LateInsert(timers, row).Some? <==> OneRunning(timers + [row])
  {
    var longer := timers + [row];
    if row.status == RUNNING && FindRunning(timers, row.key).Some? {
      var i := FindRunning(timers, row.key).value;
      assert longer[i].key == longer[|timers|].key;
    }
  }

  /** A start reads, anything happens, and then it inserts. It is refused exactly when its key has got a running timer
      in between, where a start at that moment would have returned that timer; otherwise the invariant is kept. */
  lemma LateStartIff(w: World, at: int, input: StartInput, events: seq<Event>, late: int)
    requires Inv(w) && IsRun(w, events)
    requires Start(w.db, at, input).1.Created?
    ensures var end, row := Run(w, events), Start(w.db, at, input).0.timers[|w.db.timers|];
      var inserted := LateInsert(end.db.timers, row);
      && (inserted.None? <==> HasRunning(end.db.timers, input.key))
      && (inserted.None? && end.db.templates == w.db.templates ==> Start(end.db, late, input).1.Existing?)
      && (inserted.Some? ==> Inv(end.(db := end.db.(timers := inserted.value))))
  {
    RunKeepsInv(w, events);
    var end, row := Run(w, events), Start(w.db, at, input).0.timers[|w.db.timers|];
    hide Run, IsRun;
    var inserted := LateInsert(end.db.timers, row);
    if inserted.Some? {
      InsertKeepsInv(end, row);
    }
  }

  lemma InsertKeepsInv(w: World, row: Timer)
    requires Inv(w) && row.status == RUNNING && RowConsistent(row) && FindRunning(w.db.timers, row.key).None?
    ensures Inv(w.(db := w.db.(timers := w.db.timers + [row])))
  {
    LateInsertIff(w.db.timers, row);
  }

  /** Inserts one after the other; a refused one leaves the table as it is. */
  function LateInserts(timers: seq<Timer>, rows: seq<Timer>): seq<Timer> {
    if rows == [] then timers
    else
      var init := LateInserts(timers, rows[..|rows| - 1]);
      var inserted := LateInsert(init, rows[|rows| - 1]);
      if inserted.Some? then inserted.value else init
  }

  /** Of any number of starts of one key that all looked before any of them inserted, the first to insert succeeds and
      all others are refused: they do not return the running timer. */
  lemma {:induction false} OnlyTheFirstStarts(timers: seq<Timer>, rows: seq<Timer>, key: Key)
    requires FindRunning(timers, key).None? && rows != []
    requires forall i :: 0 <= i < |rows| ==> Watches(rows[i], key)
    ensures LateInserts(timers, rows) == timers + [rows[0]]
    ensures forall i :: 0 < i < |rows| ==> LateInsert(LateInserts(timers, rows[..i]), rows[i]).None?
  {
    hide LateInserts, LateInsert, FindRunning;
    var init := rows[..|rows| - 1];
    InsertsStep(timers, rows);
    if init == [] {
      InsertsNothing(timers);
      FirstIsInserted(timers, rows[0], key);
    } else {
      OnlyTheFirstStarts(timers, init, key);
      assert forall i :: 0 < i < |init| ==> rows[..i] == init[..i];
      FirstIsInserted(timers, rows[0], key);
      NextIsRefused(timers, rows[0], rows[|rows| - 1], key);
    }
  }

  lemma InsertsNothing(timers: seq<Timer>)
    ensures LateInserts(timers, []) == timers
  {
  }

  lemma InsertsStep(timers: seq<Timer>, rows: seq<Timer>)
    requires rows != []
    ensures var init := LateInserts(timers, rows[..|rows| - 1]);
      var inserted := LateInsert(init, rows[|rows| - 1]);
      LateInserts(timers, rows) == if inserted.Some? then inserted.value else init
  {
  }

  lemma FirstIsInserted(timers: seq<Timer>, row: Timer, key: Key)
    requires FindRunning(timers, key).None? && Watches(row, key)
    ensures LateInsert(timers, row) == Some(timers + [row])
  {
  }

  lemma NextIsRefused(timers: seq<Timer>, first: Timer, next: Timer, key: Key)
    requires Watches(first, key) && Watches(next, key)
    ensures LateInsert(timers + [first], next).None?
  {
    assert Watches((timers + [first])[|timers|], key);
    assert FindRunning(timers + [first], key).Some?;
  }

  /** The second half of a resolve: `row` is the timer as it was read. */
  function LateResolve(db: Db, id: nat, row: Timer, now: int, reason: Option<string>): Db
    requires id < |db.timers|
  {
    db.(timers := db.timers[id := row.(status := RESOLVED, resolvedAt := Some(now), resolveReason := reason)])
  }

  /** A resolve that read a running timer keeps the invariant exactly when the timer was not breached before the write;
      otherwise a RESOLVED timer has a breach event. It leaves settled timers as they are exactly when the timer still
      runs, or is already resolved just so. */
  lemma LateResolveIff(w: World, id: nat, row: Timer, now: int, reason: Option<string>)
    requires Inv(w) && id < |w.db.timers|
    requires row.status == RUNNING && RowConsistent(row) && SameTimer(row, w.db.timers[id])
    ensures var after := LateResolve(w.db, id, row, now, reason);
      && (Inv(w.(db := after)) <==> w.db.timers[id].status != BREACHED)
      && (Extends(w.db.timers, after.timers)
          <==> w.db.timers[id].status == RUNNING || after.timers[id] == w.db.timers[id])
  {
    var after := LateResolve(w.db, id, row, now, reason);
    assert forall i :: 0 <= i < |w.db.timers| && i != id ==> after.timers[i] == w.db.timers[i];
    if w.db.timers[id].status == BREACHED {
      assert BreachNotices(w.db.outbox, id) == 1;
      assert !NoticesMatch(after);
    } else {
      assert NoticesMatch(after);
    }
  }

  /** Two resolves that both read the timer before either wrote: the second overwrites what the first has settled,
      unless it says the same. */
  lemma SecondResolveOverwrites(w: World, id: nat, first: int, reason: Option<string>, second: int,
                                reason': Option<string>)
    requires Inv(w) && id < |w.db.timers| && w.db.timers[id].status == RUNNING && w.now <= first
    requires first != second || reason != reason'
    ensures var mid := Apply(w, Event(first, ResolveStep(0, id, reason)));
      var after := LateResolve(mid.db, id, w.db.timers[id], second, reason');
      && mid.db.timers[id].status == RESOLVED && Inv(mid.(db := after)) && !Extends(mid.db.timers, after.timers)
  {
    StepKeepsInv(w, Event(first, ResolveStep(0, id, reason)));
    LateResolveIff(Apply(w, Event(first, ResolveStep(0, id, reason))), id, w.db.timers[id], second, reason');
  }

  /** It takes a breach between the two halves. */
  lemma BreachThenResolve(w: World, id: nat, at: int, now: int, reason: Option<string>)
    requires Inv(w) && id in w.scanned && w.db.timers[id].status == RUNNING && w.now <= at
    ensures var breached := Apply(w, Event(at, BreachStep(id)));
      Inv(breached) && id < |breached.db.timers|
      && !Inv(breached.(db := LateResolve(breached.db, id, w.db.timers[id], now, reason)))
  {
    var breached := Apply(w, Event(at, BreachStep(id)));
    StepKeepsInv(w, Event(at, BreachStep(id)));
    LateResolveIff(breached, id, w.db.timers[id], now, reason);
  }
}
