/** The transactional outbox and the relay that empties it, batch by batch.
    A row's id is its index; what the relay has handed to the producer is the emission log. */
module OutboxRelay {
  import opened Ids
  import opened Wrappers

  datatype Status = PENDING | SENT | FAILED

  datatype Row = Row(topic: string, payload: string, createdAt: int, status: Status, sentAt: Option<int>)

  /** What happens to one event of a batch: all goes well, the producer throws, or the producer accepts the event and
      the update to SENT throws. */
  datatype Outcome = Relayed | EmitThrows | MarkThrows

  /** `inFlight` holds the ids that a running relay has fetched and not yet settled. */
  datatype Store = Store(rows: seq<Row>, log: seq<nat>, inFlight: seq<nat>)

  const BATCH: nat := 50

  function Pending(rows: seq<Row>): set<nat> {
    set i | 0 <= i < |rows| && rows[i].status == PENDING
  }

  ghost predicate Known(rows: seq<Row>, ids: seq<nat>) {
    forall i :: 0 <= i < |ids| ==> ids[i] < |rows|
  }

  ghost predicate ByAge(rows: seq<Row>, ids: seq<nat>)
    requires Known(rows, ids)
  {
    forall i, j :: 0 <= i < j < |ids| ==> rows[ids[i]].createdAt <= rows[ids[j]].createdAt
  }

  /** No pending row outside `ids` is older than one inside. */
  ghost predicate Oldest(rows: seq<Row>, ids: seq<nat>)
    requires Known(rows, ids)
  {
    forall i, j :: 0 <= i < |ids| && j in Pending(rows) && j !in ids ==> rows[ids[i]].createdAt <= rows[j].createdAt
  }

  /** What the query may return: pending rows, oldest first, as many as there are up to the limit. Rows of the same age
      come in any order. */
  ghost predicate IsBatch(rows: seq<Row>, ids: seq<nat>, limit: nat) {
    && Known(rows, ids) && Distinct(ids) && ByAge(rows, ids) && Oldest(rows, ids)
    && (forall i :: 0 <= i < |ids| ==> ids[i] in Pending(rows))
    && |ids| == if |Pending(rows)| < limit then |Pending(rows)| else limit
  }

  // ---------------------------------------------------------------------------------------------
  // Steps
  // ---------------------------------------------------------------------------------------------

  function Recorded(store: Store, topic: string, payload: string, createdAt: int): Store {
    store.(rows := store.rows + [Row(topic, payload, createdAt, PENDING, None)])
  }

  function SettledRow(row: Row, outcome: Outcome, now: int): Row {
    if outcome == Relayed then row.(status := SENT, sentAt := Some(now)) else row.(status := FAILED)
  }

  /** The event fetched at position `at` is settled. */
  function Settled(store: Store, at: nat, outcome: Outcome, now: int): Store
    requires at < |store.inFlight| && store.inFlight[at] < |store.rows|
  {
    var id := store.inFlight[at];
    Store(store.rows[id := SettledRow(store.rows[id], outcome, now)],
          if outcome == EmitThrows then store.log else store.log + [id],
          store.inFlight[..at] + store.inFlight[at + 1..])
  }

  /** A relay that runs undisturbed settles what it fetched, one after the other. */
  function Drained(store: Store, outcomes: nat -> Outcome, now: int): Store
    requires Known(store.rows, store.inFlight)
    decreases |store.inFlight|
  {
    if store.inFlight == [] then store
    else
      var next := Settled(store, 0, outcomes(store.inFlight[0]), now);
      assert next.inFlight == store.inFlight[1..];
      Drained(next, outcomes, now)
  }

  lemma DrainStop(store: Store, outcomes: nat -> Outcome, now: int)
    requires store.inFlight == []
    ensures Drained(store, outcomes, now) == store
  {
  }

  lemma DrainStep(store: Store, outcomes: nat -> Outcome, now: int)
    requires Known(store.rows, store.inFlight) && store.inFlight != []
    ensures var id := store.inFlight[0];
      Drained(store, outcomes, now)
      == Drained(Store(store.rows[id := SettledRow(store.rows[id], outcomes(id), now)],
                       if outcomes(id) == EmitThrows then store.log else store.log + [id],
                       store.inFlight[1..]), outcomes, now)
  {
    assert store.inFlight[..0] + store.inFlight[1..] == store.inFlight[1..];
  }

  // ---------------------------------------------------------------------------------------------
  // The relay
  // ---------------------------------------------------------------------------------------------

  lemma {:induction false} EarliestExists(rows: seq<Row>, ids: set<nat>)
    requires ids != {} && forall i :: i in ids ==> i < |rows|
    ensures exists e :: e in ids && forall i :: i in ids ==> rows[e].createdAt <= rows[i].createdAt
  {
    var some :| some in ids;
    var rest := ids - {some};
    if rest == {} {
      assert ids == {some};
    } else {
      EarliestExists(rows, rest);
      var e :| e in rest && forall i :: i in rest ==> rows[e].createdAt <= rows[i].createdAt;
      var best := if rows[some].createdAt < rows[e].createdAt then some else e;
      assert forall i :: i in ids ==> i == some || i in rest;
      assert best in ids && forall i :: i in ids ==> rows[best].createdAt <= rows[i].createdAt;
    }
  }

  lemma PendingAreKnown(rows: seq<Row>)
    ensures forall i :: i in Pending(rows) ==> i < |rows|
  {
  }

  class OutboxRelayService {
    var rows: seq<Row>
    var log: seq<nat>

    ghost function Tables(): Store
      reads this
    {
      Store(rows, log, [])
    }

    constructor ()
      ensures Tables() == Store([], [], [])
    {
      rows, log := [], [];
    }

    method Record(topic: string, payload: string, createdAt: int)
      modifies this`rows
      ensures Tables() == Recorded(old(Tables()), topic, payload, createdAt)
    {
      rows := rows + [Row(topic, payload, createdAt, PENDING, None)];
    }

    /** The oldest pending rows, at most `limit` of them. */
    method FindPending(limit: nat) returns (ids: seq<nat>)
      ensures IsBatch(rows, ids, limit)
    {
      PendingAreKnown(rows);
      hide Pending;
      ids := [];
      var left := Pending(rows);
      while |ids| < limit && left != {}
        invariant |ids| <= limit && |ids| + |left| == |Pending(rows)|
        invariant forall i :: i in Pending(rows) <==> i in left || i in ids
        invariant forall i :: 0 <= i < |ids| ==> ids[i] !in left && ids[i] in Pending(rows)
        invariant Distinct(ids) && ByAge(rows, ids)
        invariant forall i, j :: 0 <= i < |ids| && j in left ==> rows[ids[i]].createdAt <= rows[j].createdAt
        decreases |left|
      {
        EarliestExists(rows, left);
        var next :| next in left && forall i :: i in left ==> rows[next].createdAt <= rows[i].createdAt;
        ids := ids + [next];
        left := left - {next};
      }
    }

    method MarkSent(id: nat, now: int)
      requires id < |rows|
      modifies this`rows
      ensures rows == old(rows)[id := SettledRow(old(rows)[id], Relayed, now)]
    {
      rows := rows[id := rows[id].(status := SENT, sentAt := Some(now))];
    }

    method MarkFailed(id: nat)
      requires id < |rows|
      modifies this`rows
      ensures rows == old(rows)[id := old(rows)[id].(status := FAILED)]
    {
      rows := rows[id := rows[id].(status := FAILED)];
    }

    /** Hand one event to the producer and mark it. */
    method RelayEvent(id: nat, outcome: Outcome, now: int)
      requires id < |rows|
      modifies this`rows, this`log
      ensures rows == old(rows)[id := SettledRow(old(rows)[id], outcome, now)]
      ensures log == if outcome == EmitThrows then old(log) else old(log) + [id]
    {
      match outcome {
        case Relayed =>
          log := log + [id];
          MarkSent(id, now);
        case EmitThrows =>
          MarkFailed(id);
        case MarkThrows =>
          log := log + [id];
          MarkFailed(id);
      }
    }

    /** One tick: fetch a batch and settle it. */
    method RelayPendingEvents(now: int, outcomes: nat -> Outcome) returns (batch: seq<nat>)
      modifies this`rows, this`log
      ensures IsBatch(old(rows), batch, BATCH)
      ensures Tables() == Drained(old(Tables()).(inFlight := batch), outcomes, now)
    {
      hide Drained;
      batch := FindPending(BATCH);
      var next := 0;
      assert batch[0..] == batch;
      while next < |batch|
        invariant 0 <= next <= |batch| && |rows| == |old(rows)|
        invariant Drained(Store(rows, log, batch[next..]), outcomes, now)
               == Drained(Store(old(rows), old(log), batch), outcomes, now)
      {
        assert batch[next..][1..] == batch[next + 1..];
        DrainStep(Store(rows, log, batch[next..]), outcomes, now);
        RelayEvent(batch[next], outcomes(batch[next]), now);
        next := next + 1;
      }
      DrainStop(Store(rows, log, []), outcomes, now);
    }
  }
}
