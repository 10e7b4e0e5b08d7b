/** Two ways in which the graph stays behind the table although all is at rest: an emission that fails, and an event
    that overtakes another one of its invoice. */
module GraphFailures {
  import opened GraphInOrder
  import opened GraphPipeline
  import opened GraphProjection
  import opened Ids
  import opened InvoiceHistory
  import opened InvoiceRuns
  import opened InvoiceService
  import opened Wrappers

  import OutboxRelay
  import OutboxRuns

  lemma {:induction false} LastWrittenGrows(before: seq<OutboxEvent>, after: seq<OutboxEvent>, ids: seq<nat>, id: nat)
    requires AllTell(before, ids) && before <= after
    ensures LastWritten(after, ids, id) == LastWritten(before, ids, id)
  {
    if ids != [] {
      LastWrittenGrows(before, after, ids[..|ids| - 1], id);
    }
  }

  lemma FirstMove(w: World, move: Move, rest: seq<Move>)
    ensures MadeAll(w, [move] + rest) == MadeAll(Made(w, move), rest)
    ensures IsRun(w, [move] + rest) <==> Enabled(w, move) && IsRun(Made(w, move), rest)
  {
    hide Made, Enabled;
    assert ([move] + rest)[1..] == rest;
  }

  lemma NoMoves(w: World)
    ensures MadeAll(w, []) == w && IsRun(w, [])
  {
  }

  /** A status move at rest: one event and one pending row more. */
  lemma MoveIsRecorded(w: World, now: int, orgId: nat, id: nat, to: Status, at: int)
    requires UpdateStatus(w.db, now, orgId, id, to).1.Ok? && |w.store.rows| == |w.db.outbox|
    ensures var moved, n := Made(w, Changes(MoveStep(now, orgId, id, to), at)), |w.db.outbox|;
      && 1 <= id <= |w.db.invoices| == |moved.db.invoices| && to != w.db.invoices[id - 1].status
      && moved.db.invoices[id - 1].status == to
      && w.db.outbox <= moved.db.outbox && |moved.db.outbox| == n + 1
      && TellsOf(moved.db.outbox, n, id) && moved.db.outbox[n].payload.status == to
      && moved == w.(db := moved.db, store := w.store.(rows := w.store.rows + [PendingRow(at)]))
  {
    assert seq(1, i => PendingRow(at)) == [PendingRow(at)];
  }

  function PendingRow(at: int): OutboxRelay.Row {
    OutboxRelay.Row("", "", at, OutboxRelay.PENDING, None)
  }

  lemma LoneBatch(store: OutboxRelay.Store, at: int)
    requires OutboxRelay.Pending(store.rows) == {}
    ensures OutboxRelay.IsBatch(store.rows + [PendingRow(at)], [|store.rows|], OutboxRelay.BATCH)
  {
    var rows := store.rows + [PendingRow(at)];
    assert forall i: nat :: i < |store.rows| ==> i !in OutboxRelay.Pending(store.rows);
    assert OutboxRelay.Pending(rows) == {|store.rows|};
  }

  /** A lone pending event is fetched and its emission fails. */
  lemma FetchAndFail(store: OutboxRelay.Store, at: int, later: int)
    requires OutboxRelay.Pending(store.rows) == {} && store.inFlight == []
    ensures var n, recorded := |store.rows|, store.(rows := store.rows + [PendingRow(at)]);
      var fetched := recorded.(inFlight := [n]);
      var failed := store.(rows := store.rows + [PendingRow(at).(status := OutboxRelay.FAILED)]);
      && OutboxRuns.Apply(recorded, OutboxRuns.Fetches([n])) == fetched
      && OutboxRuns.Apply(fetched, OutboxRuns.Settles(0, OutboxRelay.EmitThrows, later)) == failed
      && OutboxRelay.Pending(failed.rows) == {}
  {
    LoneBatch(store, at);
    var n := |store.rows|;
    assert [] + [n] == [n] && [n][..0] + [n][1..] == [];
    var failed := store.rows + [PendingRow(at).(status := OutboxRelay.FAILED)];
    assert (store.rows + [PendingRow(at)])[n := failed[n]] == failed;
    assert forall i: nat :: i < |store.rows| ==> i !in OutboxRelay.Pending(store.rows);
  }

  lemma NoLongerUpToDate(before: World, after: World, id: nat)
    requires 1 <= id <= |before.db.invoices| && |before.db.invoices| == |after.db.invoices| && UpToDate(before, id)
    requires AllTell(before.db.outbox, before.written) && before.db.outbox <= after.db.outbox
    requires after.written == before.written && after.db.invoices[id - 1].status != before.db.invoices[id - 1].status
    ensures !UpToDate(after, id)
  {
    LastWrittenGrows(before.db.outbox, after.db.outbox, before.written, id);
  }

  /** From any moment of rest at which an invoice is up to date: it moves on, and the emission of its event fails. All
      is at rest again, and the graph does not equal a rebuild. */
  lemma FailedMoveIsNotShown(w: World, seeded: nat, now: int, orgId: nat, id: nat, to: Status, at: int, later: int)
    requires Sound(w, seeded) && Ordered(w) && AtRest(w) && UpToDate(w, id)
    requires UpdateStatus(w.db, now, orgId, id, to).1.Ok?
    ensures var n := |w.db.outbox|;
      var change := Changes(MoveStep(now, orgId, id, to), at);
      var fetch := Relays(OutboxRuns.Fetches([n]));
      var settle := Relays(OutboxRuns.Settles(0, OutboxRelay.EmitThrows, later));
      var moves := [change] + ([fetch] + ([settle] + []));
      IsRun(w, moves) && AtRest(MadeAll(w, moves)) && !UpToDate(MadeAll(w, moves), id)
  {
    var n := |w.db.outbox|;
    var change := Changes(MoveStep(now, orgId, id, to), at);
    var fetch := Relays(OutboxRuns.Fetches([n]));
    var settle := Relays(OutboxRuns.Settles(0, OutboxRelay.EmitThrows, later));
    MoveIsRecorded(w, now, orgId, id, to, at);
    SoundRest(w, seeded);
    hide *;
    var moved := Made(w, change);
    var fetched := Made(moved, fetch);
    var end := Made(fetched, settle);
    FailedEnd(w, moved, at, later);
    NoLongerUpToDate(w, end, id);
    NoMoves(end);
    FirstMove(fetched, settle, []);
    FirstMove(moved, fetch, [settle] + []);
    FirstMove(w, change, [fetch] + ([settle] + []));
    ThreeAreEnabled(w, moved, fetched, change, fetch, settle);
  }

  lemma ThreeAreEnabled(w: World, moved: World, fetched: World, change: Move, fetch: Move, settle: Move)
    requires change.Changes? && fetch.Relays? && fetch.event.Fetches? && settle.Relays? && settle.event.Settles?
    ensures Enabled(w, change) && Enabled(moved, fetch) && Enabled(fetched, settle)
  {
  }

  lemma SoundRest(w: World, seeded: nat)
    requires Sound(w, seeded) && Ordered(w) && AtRest(w)
    ensures AllTell(w.db.outbox, w.written) && |w.store.rows| == |w.db.outbox|
    ensures OutboxRelay.Pending(w.store.rows) == {} && w.store.inFlight == []
    ensures forall k: nat :: k in w.store.log ==> k < |w.db.outbox|
    ensures forall k: nat :: k in w.store.log && Tells(w.db.outbox, k) ==> Taken(w, k)
  {
  }

  lemma FailedEnd(w: World, moved: World, at: int, later: int)
    requires w.db.outbox <= moved.db.outbox && |w.store.rows| == |w.db.outbox|
    requires OutboxRelay.Pending(w.store.rows) == {} && w.store.inFlight == []
    requires forall k: nat :: k in w.store.log ==> k < |w.db.outbox|
    requires forall k: nat :: k in w.store.log && Tells(w.db.outbox, k) ==> Taken(w, k)
    requires moved == w.(db := moved.db, store := w.store.(rows := w.store.rows + [PendingRow(at)]))
    ensures var fetch := Relays(OutboxRuns.Fetches([|w.db.outbox|]));
      var settle := Relays(OutboxRuns.Settles(0, OutboxRelay.EmitThrows, later));
      var end := Made(Made(moved, fetch), settle);
      end.db == moved.db && end.written == w.written && AtRest(end)
  {
    FetchAndFail(w.store, at, later);
    hide OutboxRuns.Apply, OutboxRelay.Pending;
  }

  lemma PairIsBatch(store: OutboxRelay.Store, at: int, at': int)
    requires OutboxRelay.Pending(store.rows) == {} && at <= at'
    ensures var n := |store.rows|;
      OutboxRelay.IsBatch(store.rows + [PendingRow(at)] + [PendingRow(at')], [n, n + 1], OutboxRelay.BATCH)
  {
    var n, rows := |store.rows|, store.rows + [PendingRow(at)] + [PendingRow(at')];
    assert forall i: nat :: i < n ==> i !in OutboxRelay.Pending(store.rows);
    assert OutboxRelay.Pending(rows) == {n, n + 1};
  }

  function SentRow(at: int, later: int): OutboxRelay.Row {
    PendingRow(at).(status := OutboxRelay.SENT, sentAt := Some(later))
  }

  lemma PairIsSent(store: OutboxRelay.Store, at: int, at': int, later: int)
    requires OutboxRelay.Pending(store.rows) == {} && store.inFlight == [] && at <= at'
    ensures var n, settle := |store.rows|, OutboxRuns.Settles(0, OutboxRelay.Relayed, later);
      var recorded := store.(rows := store.rows + [PendingRow(at)] + [PendingRow(at')]);
      var fetched := OutboxRuns.Apply(recorded, OutboxRuns.Fetches([n, n + 1]));
      var sent := OutboxRuns.Apply(OutboxRuns.Apply(fetched, settle), settle);
      && sent.log == store.log + [n] + [n + 1] && sent.inFlight == [] && OutboxRelay.Pending(sent.rows) == {}
  {
    PairIsBatch(store, at, at');
    var n := |store.rows|;
    var rows := store.rows + [PendingRow(at)] + [PendingRow(at')];
    var rows1 := store.rows + [SentRow(at, later)] + [PendingRow(at')];
    var rows2 := store.rows + [SentRow(at, later)] + [SentRow(at', later)];
    var settle := OutboxRuns.Settles(0, OutboxRelay.Relayed, later);
    var fetched := OutboxRelay.Store(rows, store.log, [n, n + 1]);
    var half := OutboxRelay.Store(rows1, store.log + [n], [n + 1]);
    assert rows[n := SentRow(at, later)] == rows1 && rows1[n + 1 := SentRow(at', later)] == rows2;
    assert OutboxRuns.Apply(store.(rows := rows), OutboxRuns.Fetches([n, n + 1])) == fetched by {
      assert [] + [n, n + 1] == [n, n + 1];
      hide OutboxRelay.IsBatch;
    }
    assert OutboxRuns.Apply(fetched, settle) == half by {
      assert [n, n + 1][..0] + [n, n + 1][1..] == [n + 1];
    }
    assert OutboxRuns.Apply(half, settle).rows == rows2;
    assert forall i: nat :: i < n ==> i !in OutboxRelay.Pending(store.rows);
  }

  lemma BothTaken(w: World, n: nat, m: nat)
    requires Traced(w) && n != m && Tells(w.db.outbox, n) && Tells(w.db.outbox, m) && !Taken(w, n) && !Taken(w, m)
    ensures var end := Made(Made(w, Takes(m, false)), Takes(n, false));
      end == w.(written := w.written + [m] + [n], graph := end.graph)
  {
    SeenIsTaken(w, n);
    SeenIsTaken(w, m);
    hide Told, Write, SeenIds;
  }

  lemma OlderWrittenLast(outbox: seq<OutboxEvent>, ids: seq<nat>, m: nat, n: nat, id: nat)
    requires TellsOf(outbox, n, id)
    ensures LastWritten(outbox, ids + [m] + [n], id) == Some(n)
  {
  }

  /** From any moment of rest: an invoice moves on twice, both events are emitted, in order, and the graph takes the
      second first. All is at rest again, nothing has failed, and the graph does not equal a rebuild. */
  lemma OvertakingGoesBack(w: World, seeded: nat, now: int, orgId: nat, id: nat, to: Status, at: int, now': int,
                           to': Status, at': int, later: int)
    requires Sound(w, seeded) && Ordered(w) && AtRest(w) && at <= at'
    requires UpdateStatus(w.db, now, orgId, id, to).1.Ok?
    requires UpdateStatus(UpdateStatus(w.db, now, orgId, id, to).0, now', orgId, id, to').1.Ok?
    ensures var n := |w.db.outbox|;
      var first, second := Changes(MoveStep(now, orgId, id, to), at), Changes(MoveStep(now', orgId, id, to'), at');
      var fetch, settle := Relays(OutboxRuns.Fetches([n, n + 1])),
                           Relays(OutboxRuns.Settles(0, OutboxRelay.Relayed, later));
      var moves := [first] + ([second] + ([fetch] + ([settle] + ([settle] + ([Takes(n + 1, false)]
                   + ([Takes(n, false)] + []))))));
      IsRun(w, moves) && AtRest(MadeAll(w, moves)) && !UpToDate(MadeAll(w, moves), id)
  {
    var n := |w.db.outbox|;
    var first, second := Changes(MoveStep(now, orgId, id, to), at), Changes(MoveStep(now', orgId, id, to'), at');
    MoveIsRecorded(w, now, orgId, id, to, at);
    var moved := Made(w, first);
    MoveIsRecorded(moved, now', orgId, id, to', at');
    var twice := Made(moved, second);
    assert forall k: nat :: Taken(w, k) ==> k < n;
    ToldGrows(w.db.outbox, twice.db.outbox, w.written);
    hide Made, UpdateStatus, MadeAll, IsRun, OutboxRuns.Sane, OutboxRuns.Sorted, Told;
    SentAndOvertaken(w.store, twice, n, id, at, at', later);
    SevenMoves(w, moved, first, second, n, later);
  }

  lemma SentAndOvertaken(store: OutboxRelay.Store, w: World, n: nat, id: nat, at: int, at': int, later: int)
    requires Traced(w) && n == |store.rows| && n + 2 == |w.db.outbox| && at <= at'
    requires w.store == store.(rows := store.rows + [PendingRow(at)] + [PendingRow(at')])
    requires OutboxRelay.Pending(store.rows) == {} && store.inFlight == []
    requires forall k: nat :: k in store.log && Tells(w.db.outbox, k) ==> Taken(w, k)
    requires !Taken(w, n) && !Taken(w, n + 1)
    requires TellsOf(w.db.outbox, n, id) && TellsOf(w.db.outbox, n + 1, id) && 1 <= id <= |w.db.invoices|
    requires w.db.outbox[n].payload.status != w.db.invoices[id - 1].status
    ensures var fetch, settle := Relays(OutboxRuns.Fetches([n, n + 1])),
                                 Relays(OutboxRuns.Settles(0, OutboxRelay.Relayed, later));
      var sent := Made(Made(Made(w, fetch), settle), settle);
      var end := Made(Made(sent, Takes(n + 1, false)), Takes(n, false));
      && Enabled(sent, Takes(n + 1, false)) && Enabled(Made(sent, Takes(n + 1, false)), Takes(n, false))
      && AtRest(end) && !UpToDate(end, id)
  {
    hide *;
    var sent := PairLeaves(store, w, n, at, at', later);
    Overtaken(store, sent, n, id);
  }

  lemma PairLeaves(store: OutboxRelay.Store, w: World, n: nat, at: int, at': int, later: int) returns (sent: World)
    requires n == |store.rows| && at <= at'
    requires w.store == store.(rows := store.rows + [PendingRow(at)] + [PendingRow(at')])
    requires OutboxRelay.Pending(store.rows) == {} && store.inFlight == []
    ensures var fetch, settle := Relays(OutboxRuns.Fetches([n, n + 1])),
                                 Relays(OutboxRuns.Settles(0, OutboxRelay.Relayed, later));
      sent == Made(Made(Made(w, fetch), settle), settle)
    ensures sent == w.(store := sent.store) && sent.store.log == store.log + [n] + [n + 1]
    ensures OutboxRelay.Pending(sent.store.rows) == {} && sent.store.inFlight == []
    ensures Traced(w) ==> Traced(sent)
    ensures forall k: nat :: Taken(sent, k) <==> Taken(w, k)
  {
    PairIsSent(store, at, at', later);
    var fetch, settle := Relays(OutboxRuns.Fetches([n, n + 1])),
                         Relays(OutboxRuns.Settles(0, OutboxRelay.Relayed, later));
    hide OutboxRuns.Apply, OutboxRelay.Pending, Told, SeenIds, Tells;
    sent := Made(Made(Made(w, fetch), settle), settle);
  }

  lemma Overtaken(store: OutboxRelay.Store, sent: World, n: nat, id: nat)
    requires Traced(sent) && n + 2 == |sent.db.outbox| && sent.store.log == store.log + [n] + [n + 1]
    requires OutboxRelay.Pending(sent.store.rows) == {} && sent.store.inFlight == []
    requires forall k: nat :: k in store.log && Tells(sent.db.outbox, k) ==> Taken(sent, k)
    requires !Taken(sent, n) && !Taken(sent, n + 1)
    requires TellsOf(sent.db.outbox, n, id) && TellsOf(sent.db.outbox, n + 1, id) && 1 <= id <= |sent.db.invoices|
    requires sent.db.outbox[n].payload.status != sent.db.invoices[id - 1].status
    ensures var end := Made(Made(sent, Takes(n + 1, false)), Takes(n, false));
      && Enabled(sent, Takes(n + 1, false)) && Enabled(Made(sent, Takes(n + 1, false)), Takes(n, false))
      && AtRest(end) && !UpToDate(end, id)
  {
    hide Made, MadeAll, Enabled, Traced, Taken, UpToDate, AtRest, OutboxRelay.Pending;
    BothTaken(sent, n, n + 1);
    TakingIsEnabled(store, sent, n);
    RestAfterBoth(store, sent, Made(Made(sent, Takes(n + 1, false)), Takes(n, false)), n, id);
  }

  lemma TakingIsEnabled(store: OutboxRelay.Store, sent: World, n: nat)
    requires sent.store.log == store.log + [n] + [n + 1]
    ensures Enabled(sent, Takes(n + 1, false)) && Enabled(Made(sent, Takes(n + 1, false)), Takes(n, false))
  {
    assert sent.store.log[|store.log|] == n && sent.store.log[|store.log| + 1] == n + 1;
    hide Tells, Upsert;
  }

  lemma RestAfterBoth(store: OutboxRelay.Store, sent: World, end: World, n: nat, id: nat)
    requires end == sent.(written := sent.written + [n + 1] + [n], graph := end.graph)
    requires sent.store.log == store.log + [n] + [n + 1]
    requires OutboxRelay.Pending(sent.store.rows) == {} && sent.store.inFlight == []
    requires forall k: nat :: k in store.log && Tells(sent.db.outbox, k) ==> Taken(sent, k)
    requires TellsOf(sent.db.outbox, n, id) && 1 <= id <= |sent.db.invoices|
    requires sent.db.outbox[n].payload.status != sent.db.invoices[id - 1].status
    ensures AtRest(end) && !UpToDate(end, id)
  {
    OlderWrittenLast(sent.db.outbox, sent.written, n + 1, n, id);
    hide OutboxRelay.Pending, LastWritten;
  }

  lemma SevenMoves(w: World, moved: World, first: Move, second: Move, n: nat, later: int)
    requires first.Changes? && second.Changes? && moved == Made(w, first)
    ensures var fetch, settle := Relays(OutboxRuns.Fetches([n, n + 1])),
                                 Relays(OutboxRuns.Settles(0, OutboxRelay.Relayed, later));
      var moves := [first] + ([second] + ([fetch] + ([settle] + ([settle] + ([Takes(n + 1, false)]
                   + ([Takes(n, false)] + []))))));
      var sent := Made(Made(Made(Made(moved, second), fetch), settle), settle);
      && MadeAll(w, moves) == Made(Made(sent, Takes(n + 1, false)), Takes(n, false))
      && (IsRun(w, moves) <==> Enabled(sent, Takes(n + 1, false))
                               && Enabled(Made(sent, Takes(n + 1, false)), Takes(n, false)))
  {
    hide Made, MadeAll, IsRun;
    var fetch, settle := Relays(OutboxRuns.Fetches([n, n + 1])),
                         Relays(OutboxRuns.Settles(0, OutboxRelay.Relayed, later));
    var twice := Made(moved, second);
    var fetched := Made(twice, fetch);
    var half := Made(fetched, settle);
    var sent := Made(half, settle);
    var last := Made(sent, Takes(n + 1, false));
    NoMoves(Made(last, Takes(n, false)));
    FirstMove(last, Takes(n, false), []);
    FirstMove(sent, Takes(n + 1, false), [Takes(n, false)] + []);
    FirstMove(half, settle, [Takes(n + 1, false)] + ([Takes(n, false)] + []));
    FirstMove(fetched, settle, [settle] + ([Takes(n + 1, false)] + ([Takes(n, false)] + [])));
    FirstMove(twice, fetch, [settle] + ([settle] + ([Takes(n + 1, false)] + ([Takes(n, false)] + []))));
    FirstMove(moved, second,
              [fetch] + ([settle] + ([settle] + ([Takes(n + 1, false)] + ([Takes(n, false)] + [])))));
    FirstMove(w, first, [second]
              + ([fetch] + ([settle] + ([settle] + ([Takes(n + 1, false)] + ([Takes(n, false)] + []))))));
  }
}
