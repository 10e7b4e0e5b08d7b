/** Runs of the outbox: inserts may fall between any two steps of the relays. A run is exclusive when no relay fetches
    what another has in flight, orderly when no relay starts before the previous one has settled its batch, and timely
    when rows are inserted in the order of their timestamps. */
module OutboxRuns {
  import opened Ids
  import opened Wrappers
  import opened OutboxRelay

  datatype Event =
    | Records(topic: string, payload: string, createdAt: int)
    | Fetches(batch: seq<nat>)
    | Settles(at: nat, outcome: Outcome, now: int)

  /** A step that cannot happen in a state leaves it as it is. */
  ghost function Apply(store: Store, event: Event): Store {
    match event
    case Records(topic, payload, createdAt) => Recorded(store, topic, payload, createdAt)
    case Fetches(batch) =>
      if IsBatch(store.rows, batch, BATCH) then store.(inFlight := store.inFlight + batch) else store
    case Settles(at, outcome, now) =>
      if at < |store.inFlight| && store.inFlight[at] < |store.rows| then Settled(store, at, outcome, now) else store
  }

  ghost function Run(store: Store, events: seq<Event>): Store
    decreases |events|
  {
    if events == [] then store else Run(Apply(store, events[0]), events[1..])
  }

  const EMPTY := Store([], [], [])

  predicate Disjoint(a: seq<nat>, b: seq<nat>) {
    forall id :: id in a ==> id !in b
  }

  /** What is fetched is not in flight already; it may be settled in any order. */
  predicate Exclusive(store: Store, event: Event) {
    event.Fetches? ==> Disjoint(event.batch, store.inFlight)
  }

  /** One relay at a time, and it settles its batch from the front. */
  predicate Orderly(store: Store, event: Event) {
    match event
    case Records(_, _, _) => true
    case Fetches(_) => store.inFlight == []
    case Settles(at, _, _) => at == 0
  }

  ghost predicate Timely(store: Store, event: Event) {
    event.Records? ==> forall i :: 0 <= i < |store.rows| ==> store.rows[i].createdAt <= event.createdAt
  }

  ghost predicate ExclusiveRun(store: Store, events: seq<Event>)
    decreases |events|
  {
    events != [] ==> Exclusive(store, events[0]) && ExclusiveRun(Apply(store, events[0]), events[1..])
  }

  ghost predicate OrderlyRun(store: Store, events: seq<Event>)
    decreases |events|
  {
    events != [] ==> Orderly(store, events[0]) && OrderlyRun(Apply(store, events[0]), events[1..])
  }

  ghost predicate TimelyRun(store: Store, events: seq<Event>)
    decreases |events|
  {
    events != [] ==> Timely(store, events[0]) && TimelyRun(Apply(store, events[0]), events[1..])
  }

  // ---------------------------------------------------------------------------------------------
  // Nothing is lost, nothing is emitted twice
  // ---------------------------------------------------------------------------------------------

  ghost predicate AllPending(rows: seq<Row>, ids: seq<nat>) {
    forall i :: 0 <= i < |ids| ==> ids[i] < |rows| && rows[ids[i]].status == PENDING
  }

  ghost predicate NonePending(rows: seq<Row>, ids: seq<nat>) {
    forall i :: 0 <= i < |ids| ==> ids[i] < |rows| && rows[ids[i]].status != PENDING
  }

  /** A row is SENT only if it was emitted, and carries the time of it exactly then. */
  ghost predicate SentMeansEmitted(rows: seq<Row>, log: seq<nat>) {
    forall i :: 0 <= i < |rows| ==>
      && (rows[i].status == SENT ==> i in log)
      && (rows[i].sentAt.Some? <==> rows[i].status == SENT)
  }

  ghost predicate Sane(store: Store) {
    && AllPending(store.rows, store.inFlight) && Distinct(store.inFlight)
    && NonePending(store.rows, store.log) && Distinct(store.log)
    && SentMeansEmitted(store.rows, store.log)
  }

  /** What was recorded stays, what was settled is final, what was emitted stays emitted. */
  ghost predicate Final(a: Store, b: Store) {
    && |a.rows| <= |b.rows| && a.log <= b.log
    && (forall i :: 0 <= i < |a.rows| ==> Follows(a.rows[i], b.rows[i]))
  }

  predicate Follows(a: Row, b: Row) {
    && a.topic == b.topic && a.payload == b.payload && a.createdAt == b.createdAt
    && (a.status != PENDING ==> a == b)
  }

  lemma FinalTransitive(a: Store, b: Store, c: Store)
    requires Final(a, b) && Final(b, c)
    ensures Final(a, c)
  {
    forall i | 0 <= i < |a.rows| ensures Follows(a.rows[i], c.rows[i]) {
      assert Follows(a.rows[i], b.rows[i]) && Follows(b.rows[i], c.rows[i]);
    }
  }

  lemma RestStaysPending(rows: seq<Row>, inFlight: seq<nat>, at: nat, row: Row)
    requires at < |inFlight| && AllPending(rows, inFlight) && Distinct(inFlight)
    ensures var rest := inFlight[..at] + inFlight[at + 1..];
      AllPending(rows[inFlight[at] := row], rest) && Distinct(rest)
  {
    var rest := inFlight[..at] + inFlight[at + 1..];
    assert forall i :: 0 <= i < |rest| ==> rest[i] == inFlight[if i < at then i else i + 1];
  }

  lemma LogStaysSettled(rows: seq<Row>, log: seq<nat>, id: nat, row: Row)
    requires id < |rows| && rows[id].status == PENDING && row.status != PENDING
    requires row.sentAt.Some? <==> row.status == SENT
    requires NonePending(rows, log) && Distinct(log) && SentMeansEmitted(rows, log)
    ensures var after := rows[id := row];
      && NonePending(after, log) && NonePending(after, log + [id]) && Distinct(log + [id])
      && (row.status != SENT ==> SentMeansEmitted(after, log)) && SentMeansEmitted(after, log + [id])
  {
    assert id !in log;
    assert (log + [id])[|log|] == id;
    assert forall i :: i in log ==> i in log + [id];
  }

  lemma SettleIsFinal(store: Store, at: nat, outcome: Outcome, now: int)
    requires at < |store.inFlight| && AllPending(store.rows, store.inFlight)
    ensures Final(store, Settled(store, at, outcome, now))
  {
    var id := store.inFlight[at];
    assert store.rows[id].status == PENDING;
    hide AllPending;
  }

  lemma SettleKeepsSane(store: Store, at: nat, outcome: Outcome, now: int)
    requires Sane(store) && at < |store.inFlight|
    ensures Sane(Settled(store, at, outcome, now)) && Final(store, Settled(store, at, outcome, now))
  {
    SettleIsFinal(store, at, outcome, now);
    var id := store.inFlight[at];
    var row := SettledRow(store.rows[id], outcome, now);
    assert store.rows[id].status == PENDING;
    hide Final, AllPending, NonePending, Distinct, SentMeansEmitted;
    RestStaysPending(store.rows, store.inFlight, at, row);
    LogStaysSettled(store.rows, store.log, id, row);
  }

  lemma FetchKeepsSane(store: Store, batch: seq<nat>)
    requires Sane(store) && Disjoint(batch, store.inFlight)
    ensures Sane(Apply(store, Fetches(batch))) && Final(store, Apply(store, Fetches(batch)))
  {
    assert forall i :: 0 <= i < |batch| ==> batch[i] in batch;
    assert forall i :: 0 <= i < |batch| ==> batch[i] !in store.inFlight;
    if IsBatch(store.rows, batch, BATCH) {
      assert AllPending(store.rows, batch);
      BothInFlight(store.rows, store.inFlight, batch);
    }
  }

  lemma BothInFlight(rows: seq<Row>, a: seq<nat>, b: seq<nat>)
    requires AllPending(rows, a) && AllPending(rows, b) && Distinct(a) && Distinct(b)
    requires forall i :: 0 <= i < |b| ==> b[i] !in a
    ensures AllPending(rows, a + b) && Distinct(a + b)
  {
  }

  lemma StepKeepsSane(store: Store, event: Event)
    requires Sane(store) && Exclusive(store, event)
    ensures Sane(Apply(store, event)) && Final(store, Apply(store, event))
  {
    match event
    case Records(_, _, _) =>
    case Fetches(batch) => FetchKeepsSane(store, batch);
    case Settles(at, outcome, now) =>
      if at < |store.inFlight| {
        SettleKeepsSane(store, at, outcome, now);
      }
  }

  /** As long as no relay fetches what is in flight, no event is emitted twice, SENT means emitted, and a settled row
      never changes again, in whatever order the batches are settled. */
  lemma {:induction false} RunKeepsSane(store: Store, events: seq<Event>)
    requires Sane(store) && ExclusiveRun(store, events)
    ensures Sane(Run(store, events)) && Final(store, Run(store, events))
    decreases |events|
  {
    if events != [] {
      var next := Apply(store, events[0]);
      StepKeepsSane(store, events[0]);
      RunKeepsSane(next, events[1..]);
      FinalTransitive(store, next, Run(next, events[1..]));
    }
  }

  /** Relays that do not overlap never fetch what is in flight. */
  lemma {:induction false} OrderlyIsExclusive(store: Store, events: seq<Event>)
    requires OrderlyRun(store, events)
    ensures ExclusiveRun(store, events)
    decreases |events|
  {
    if events != [] {
      OrderlyIsExclusive(Apply(store, events[0]), events[1..]);
    }
  }

  lemma NoStep(store: Store)
    ensures Run(store, []) == store && ExclusiveRun(store, []) && OrderlyRun(store, []) && TimelyRun(store, [])
    ensures RecordsOf([]) == []
  {
  }

  lemma FirstStep(store: Store, event: Event, rest: seq<Event>)
    ensures Run(store, [event] + rest) == Run(Apply(store, event), rest)
    ensures ExclusiveRun(store, [event] + rest) <==> Exclusive(store, event) && ExclusiveRun(Apply(store, event), rest)
    ensures OrderlyRun(store, [event] + rest) <==> Orderly(store, event) && OrderlyRun(Apply(store, event), rest)
    ensures TimelyRun(store, [event] + rest) <==> Timely(store, event) && TimelyRun(Apply(store, event), rest)
  {
    assert ([event] + rest)[1..] == rest;
  }

  /** An id that is twice in flight can be emitted twice. */
  lemma TwiceInFlightRepeats(store: Store, i: nat, j: nat) returns (events: seq<Event>)
    requires i < j < |store.inFlight| && store.inFlight[i] == store.inFlight[j] < |store.rows|
    ensures ExclusiveRun(store, events) && !Distinct(Run(store, events).log)
  {
    var id := store.inFlight[i];
    var first, second := Settles(j, Relayed, 0), Settles(i, Relayed, 0);
    var mid := Apply(store, first);
    assert mid.inFlight[i] == id && mid.log == store.log + [id] && |mid.rows| == |store.rows|;
    var end := Apply(mid, second);
    var n := |store.log|;
    assert end.log == store.log + [id] + [id];
    assert end.log[n] == end.log[n + 1];
    hide Run, ExclusiveRun, Apply;
    NoStep(end);
    FirstStep(mid, second, []);
    FirstStep(store, first, [second] + []);
    events := [first] + ([second] + []);
  }

  /** A fetch is safe exactly when it takes nothing that is in flight: then, and only then, no continuation in which all
      later fetches are disjoint emits an event twice. */
  lemma FetchIsSafeIff(store: Store, batch: seq<nat>)
    requires Sane(store) && IsBatch(store.rows, batch, BATCH)
    ensures var after := Apply(store, Fetches(batch));
      Disjoint(batch, store.inFlight)
      <==> forall events :: ExclusiveRun(after, events) ==> Distinct(Run(after, events).log)
  {
    var after := Apply(store, Fetches(batch));
    if Disjoint(batch, store.inFlight) {
      FetchKeepsSane(store, batch);
      forall events | ExclusiveRun(after, events) ensures Distinct(Run(after, events).log) {
        RunKeepsSane(after, events);
      }
    } else {
      var id :| id in batch && id in store.inFlight;
      var i :| 0 <= i < |store.inFlight| && store.inFlight[i] == id;
      var j :| 0 <= j < |batch| && batch[j] == id;
      assert after.inFlight == store.inFlight + batch;
      var events := TwiceInFlightRepeats(after, i, |store.inFlight| + j);
    }
  }

  lemma LoneBatch(row: Row)
    requires row.status == PENDING
    ensures IsBatch([row], [0], BATCH)
  {
    assert Pending([row]) == {0};
  }

  /** Two relays that overlap may fetch the same event, and then it is emitted twice. */
  lemma OverlapRepeats() returns (events: seq<Event>)
    ensures Run(EMPTY, events).log == [0, 0]
  {
    hide IsBatch, Run, OrderlyRun, TimelyRun;
    var row, sent := Row("t", "p", 0, PENDING, None), Row("t", "p", 0, SENT, Some(1));
    var settles, fetches := Settles(0, Relayed, 1), Fetches([0]);
    LoneBatch(row);
    assert Apply(EMPTY, Records("t", "p", 0)) == Store([row], [], []);
    assert [0] + [0] == [0, 0];
    assert Apply(Store([row], [], [0, 0]), settles) == Store([sent], [0], [0]);
    assert Apply(Store([sent], [0], [0]), settles) == Store([sent], [0, 0], []);
    NoStep(Store([sent], [0, 0], []));
    FirstStep(Store([sent], [0], [0]), settles, []);
    FirstStep(Store([row], [], [0, 0]), settles, [settles] + []);
    FirstStep(Store([row], [], [0]), fetches, [settles] + ([settles] + []));
    FirstStep(Store([row], [], []), fetches, [fetches] + ([settles] + ([settles] + [])));
    FirstStep(EMPTY, Records("t", "p", 0), [fetches] + ([fetches] + ([settles] + ([settles] + []))));
    events := [Records("t", "p", 0)] + ([fetches] + ([fetches] + ([settles] + ([settles] + []))));
  }

  // ---------------------------------------------------------------------------------------------
  // The recorded events, whatever the relay does
  // ---------------------------------------------------------------------------------------------

  datatype Content = Content(topic: string, payload: string, createdAt: int)

  function Contents(rows: seq<Row>): seq<Content> {
    seq(|rows|, i requires 0 <= i < |rows| => Content(rows[i].topic, rows[i].payload, rows[i].createdAt))
  }

  function RecordOf(event: Event): seq<Content> {
    match event
    case Records(topic, payload, createdAt) => [Content(topic, payload, createdAt)]
    case _ => []
  }

  function RecordsOf(events: seq<Event>): seq<Content>
    decreases |events|
  {
    if events == [] then [] else RecordOf(events[0]) + RecordsOf(events[1..])
  }

  lemma StepContents(store: Store, event: Event)
    ensures Contents(Apply(store, event).rows) == Contents(store.rows) + RecordOf(event)
  {
  }

  lemma Associates<T>(a: seq<T>, b: seq<T>, c: seq<T>)
    ensures (a + b) + c == a + (b + c)
  {
  }

  /** In every run, orderly or not, the table holds exactly the recorded events in the order of recording. */
  lemma {:induction false} RowsAreTheRecords(store: Store, events: seq<Event>)
    ensures Contents(Run(store, events).rows) == Contents(store.rows) + RecordsOf(events)
    decreases |events|
  {
    hide Contents, Apply;
    if events != [] {
      var next := Apply(store, events[0]);
      RowsAreTheRecords(next, events[1..]);
      StepContents(store, events[0]);
      Associates(Contents(store.rows), RecordOf(events[0]), RecordsOf(events[1..]));
    } else {
      assert Contents(store.rows) + [] == Contents(store.rows);
    }
  }

  // ---------------------------------------------------------------------------------------------
  // The order of emission
  // ---------------------------------------------------------------------------------------------

  /** Whatever is settled is no younger than what is pending. */
  ghost predicate SettledFirst(rows: seq<Row>) {
    forall i, j :: 0 <= i < |rows| && 0 <= j < |rows| && rows[i].status != PENDING && rows[j].status == PENDING
      ==> rows[i].createdAt <= rows[j].createdAt
  }

  ghost predicate Sorted(store: Store) {
    && Known(store.rows, store.inFlight) && ByAge(store.rows, store.inFlight) && Oldest(store.rows, store.inFlight)
    && SettledFirst(store.rows)
    && Known(store.rows, store.log) && ByAge(store.rows, store.log)
  }

  lemma RecordKeepsSorted(store: Store, event: Event)
    requires Sane(store) && Sorted(store) && event.Records? && Timely(store, event)
    ensures Sorted(Apply(store, event))
  {
  }

  /** The front of the batch is no younger than anything pending. */
  lemma FrontIsOldest(rows: seq<Row>, inFlight: seq<nat>)
    requires Known(rows, inFlight) && inFlight != [] && ByAge(rows, inFlight) && Oldest(rows, inFlight)
    ensures forall j :: j in Pending(rows) ==> rows[inFlight[0]].createdAt <= rows[j].createdAt
  {
    forall j | j in Pending(rows) && j in inFlight ensures rows[inFlight[0]].createdAt <= rows[j].createdAt {
      var k :| 0 <= k < |inFlight| && inFlight[k] == j;
    }
  }

  lemma RestIsOldest(rows: seq<Row>, inFlight: seq<nat>, row: Row)
    requires Known(rows, inFlight) && inFlight != [] && ByAge(rows, inFlight) && Oldest(rows, inFlight)
    requires row.status != PENDING && row.createdAt == rows[inFlight[0]].createdAt
    ensures var after := rows[inFlight[0] := row];
      Known(after, inFlight[1..]) && ByAge(after, inFlight[1..]) && Oldest(after, inFlight[1..])
  {
    var after := rows[inFlight[0] := row];
    forall j | j in Pending(after) && j !in inFlight[1..] ensures j in Pending(rows) && j !in inFlight {
      assert j != inFlight[0];
      assert forall k :: 0 < k < |inFlight| ==> inFlight[k] == inFlight[1..][k - 1];
    }
  }

  lemma SettleKeepsOrder(rows: seq<Row>, id: nat, row: Row)
    requires id < |rows| && SettledFirst(rows) && row.status != PENDING && row.createdAt == rows[id].createdAt
    requires forall j :: j in Pending(rows) ==> rows[id].createdAt <= rows[j].createdAt
    ensures SettledFirst(rows[id := row])
  {
    forall j | 0 <= j < |rows| && rows[id := row][j].status == PENDING ensures rows[id].createdAt <= rows[j].createdAt {
      assert j in Pending(rows);
    }
  }

  lemma LogStaysByAge(rows: seq<Row>, log: seq<nat>, id: nat, row: Row)
    requires id < |rows| && rows[id].status == PENDING && SettledFirst(rows) && row.createdAt == rows[id].createdAt
    requires NonePending(rows, log) && Known(rows, log) && ByAge(rows, log)
    ensures var after := rows[id := row];
      Known(after, log) && ByAge(after, log) && Known(after, log + [id]) && ByAge(after, log + [id])
  {
  }

  lemma SettleKeepsSorted(store: Store, outcome: Outcome, now: int)
    requires Sane(store) && Sorted(store) && store.inFlight != []
    ensures Sorted(Settled(store, 0, outcome, now))
  {
    var id := store.inFlight[0];
    var row := SettledRow(store.rows[id], outcome, now);
    assert store.inFlight[..0] + store.inFlight[1..] == store.inFlight[1..];
    hide ByAge, Oldest, SettledFirst;
    FrontIsOldest(store.rows, store.inFlight);
    RestIsOldest(store.rows, store.inFlight, row);
    SettleKeepsOrder(store.rows, id, row);
    LogStaysByAge(store.rows, store.log, id, row);
  }

  lemma StepKeepsSorted(store: Store, event: Event)
    requires Sane(store) && Sorted(store) && Orderly(store, event) && Timely(store, event)
    ensures Exclusive(store, event) && Sorted(Apply(store, event))
  {
    match event {
      case Records(_, _, _) => RecordKeepsSorted(store, event);
      case Fetches(batch) => assert store.inFlight + batch == batch;
      case Settles(_, outcome, now) =>
        if store.inFlight != [] {
          SettleKeepsSorted(store, outcome, now);
        }
    }
  }

  /** In every orderly and timely run events are emitted in the order of their timestamps. */
  lemma {:induction false} EmissionsAreSorted(store: Store, events: seq<Event>)
    requires Sane(store) && Sorted(store) && OrderlyRun(store, events) && TimelyRun(store, events)
    ensures Sorted(Run(store, events))
    decreases |events|
  {
    hide Sane, Sorted, Apply;
    if events != [] {
      StepKeepsSorted(store, events[0]);
      StepKeepsSane(store, events[0]);
      EmissionsAreSorted(Apply(store, events[0]), events[1..]);
    }
  }

  ghost predicate NoTies(rows: seq<Row>) {
    forall i, j :: 0 <= i < j < |rows| ==> rows[i].createdAt < rows[j].createdAt
  }

  ghost predicate Ascends(ids: seq<nat>) {
    forall i, j :: 0 <= i < j < |ids| ==> ids[i] < ids[j]
  }

  lemma SortedLogAscends(rows: seq<Row>, log: seq<nat>)
    requires Known(rows, log) && ByAge(rows, log) && Distinct(log)
    requires NoTies(rows)
    ensures Ascends(log)
  {
    forall i, j | 0 <= i < j < |log| ensures log[i] < log[j] {
      var older, younger := log[i], log[j];
      assert rows[older].createdAt <= rows[younger].createdAt && older != younger;
    }
  }

  lemma NothingRecorded(store: Store)
    requires store.rows == [] && store.log == [] && store.inFlight == []
    ensures Sane(store) && Sorted(store)
  {
  }

  /** What every history of an empty outbox keeps in which no relay fetches what is in flight, and what it keeps besides
      when the relays do not overlap and rows are inserted in the order of their timestamps. */
  lemma OutboxIsSound(events: seq<Event>)
    requires ExclusiveRun(EMPTY, events)
    ensures Sane(Run(EMPTY, events))
    ensures OrderlyRun(EMPTY, events) && TimelyRun(EMPTY, events) ==> Sorted(Run(EMPTY, events))
  {
    NothingRecorded(EMPTY);
    hide Sane, Sorted, Run, ExclusiveRun, OrderlyRun, TimelyRun;
    RunKeepsSane(EMPTY, events);
    if OrderlyRun(EMPTY, events) && TimelyRun(EMPTY, events) {
      EmissionsAreSorted(EMPTY, events);
    }
  }

  /** While a batch is in flight and no two rows share a timestamp, every further fetch takes some of it again. */
  lemma OverlapAlwaysShares(store: Store, batch: seq<nat>)
    requires Sane(store) && Sorted(store) && NoTies(store.rows) && store.inFlight != []
    requires IsBatch(store.rows, batch, BATCH)
    ensures !Disjoint(batch, store.inFlight)
  {
    var front := store.inFlight[0];
    assert front in Pending(store.rows);
    FrontIsOldest(store.rows, store.inFlight);
    assert batch != [] by {
      assert |Pending(store.rows)| > 0;
    }
    var first := batch[0];
    assert first in Pending(store.rows) && store.rows[front].createdAt <= store.rows[first].createdAt;
    assert front in batch || first == front;
  }

  /** Strictly ascending timestamps mean that the rows were inserted in their order. */
  lemma {:induction false} NoTiesIsTimely(store: Store, events: seq<Event>)
    requires NoTies(Run(store, events).rows)
    ensures TimelyRun(store, events)
    decreases |events|
  {
    if events != [] {
      var next := Apply(store, events[0]);
      NoTiesIsTimely(next, events[1..]);
      RowsAreTheRecords(next, events[1..]);
      RecordIsTimely(store, next, events[0], Run(next, events[1..]).rows, RecordsOf(events[1..]));
    }
  }

  lemma RecordIsTimely(store: Store, next: Store, event: Event, rows: seq<Row>, later: seq<Content>)
    requires next == Apply(store, event) && NoTies(rows) && Contents(rows) == Contents(next.rows) + later
    ensures Timely(store, event)
  {
    if event.Records? {
      var n := |store.rows|;
      forall i | 0 <= i < n ensures store.rows[i].createdAt <= event.createdAt {
        assert Contents(rows)[i] == Contents(next.rows)[i] && Contents(rows)[n] == Contents(next.rows)[n];
        assert rows[i].createdAt < rows[n].createdAt;
      }
    }
  }

  /** When each row is younger than those before it, the emission log is a subsequence of the order of creation: its ids
      strictly ascend. */
  lemma EmissionsFollowCreation(store: Store, events: seq<Event>)
    requires Sane(store) && Sorted(store) && OrderlyRun(store, events)
    requires NoTies(Run(store, events).rows)
    ensures Ascends(Run(store, events).log)
  {
    NoTiesIsTimely(store, events);
    OrderlyIsExclusive(store, events);
    RunKeepsSane(store, events);
    EmissionsAreSorted(store, events);
    SortedLogAscends(Run(store, events).rows, Run(store, events).log);
  }

  // ---------------------------------------------------------------------------------------------
  // The backlog
  // ---------------------------------------------------------------------------------------------

  /** The steps of one undisturbed tick. */
  function StepsOf(inFlight: seq<nat>, outcomes: nat -> Outcome, now: int): seq<Event> {
    if inFlight == [] then [] else [Settles(0, outcomes(inFlight[0]), now)] + StepsOf(inFlight[1..], outcomes, now)
  }

  lemma {:induction false} DrainIsARun(store: Store, outcomes: nat -> Outcome, now: int)
    requires Known(store.rows, store.inFlight)
    ensures Drained(store, outcomes, now) == Run(store, StepsOf(store.inFlight, outcomes, now))
    ensures OrderlyRun(store, StepsOf(store.inFlight, outcomes, now))
    decreases |store.inFlight|
  {
    if store.inFlight != [] {
      var next := Settled(store, 0, outcomes(store.inFlight[0]), now);
      assert next.inFlight == store.inFlight[1..];
      DrainIsARun(next, outcomes, now);
      assert StepsOf(store.inFlight, outcomes, now)[1..] == StepsOf(next.inFlight, outcomes, now);
    }
  }

  /** An undisturbed tick is one of the orderly runs: fetch the batch, then settle it from the front. */
  lemma TickIsARun(store: Store, batch: seq<nat>, outcomes: nat -> Outcome, now: int)
    requires store.inFlight == [] && IsBatch(store.rows, batch, BATCH)
    ensures var events := [Fetches(batch)] + StepsOf(batch, outcomes, now);
      Drained(store.(inFlight := batch), outcomes, now) == Run(store, events) && OrderlyRun(store, events)
  {
    assert [] + batch == batch;
    DrainIsARun(store.(inFlight := batch), outcomes, now);
    FirstStep(store, Fetches(batch), StepsOf(batch, outcomes, now));
  }

  /** A tick settles what it fetched and nothing else. */
  lemma {:induction false} DrainSettles(store: Store, outcomes: nat -> Outcome, now: int)
    requires Known(store.rows, store.inFlight)
    ensures var after := Drained(store, outcomes, now);
      Pending(after.rows) == Pending(store.rows) - Elements(store.inFlight) && after.inFlight == []
    decreases |store.inFlight|
  {
    if store.inFlight != [] {
      var next := Settled(store, 0, outcomes(store.inFlight[0]), now);
      assert next.inFlight == store.inFlight[1..];
      DrainSettles(next, outcomes, now);
      assert Pending(next.rows) == Pending(store.rows) - {store.inFlight[0]};
      assert Elements(store.inFlight) == {store.inFlight[0]} + Elements(next.inFlight);
    }
  }

  datatype Tick = Tick(batch: seq<nat>, outcomes: nat -> Outcome, now: int)

  ghost predicate Ticks(store: Store, ticks: seq<Tick>)
    decreases |ticks|
  {
    ticks != [] ==> IsBatch(store.rows, ticks[0].batch, BATCH) && Ticks(AfterTick(store, ticks[0]), ticks[1..])
  }

  ghost function AfterTick(store: Store, tick: Tick): Store {
    if Known(store.rows, tick.batch) then Drained(store.(inFlight := tick.batch), tick.outcomes, tick.now) else store
  }

  ghost function AfterTicks(store: Store, ticks: seq<Tick>): Store
    decreases |ticks|
  {
    if ticks == [] then store else AfterTicks(AfterTick(store, ticks[0]), ticks[1..])
  }

  lemma TickShrinks(store: Store, tick: Tick)
    requires IsBatch(store.rows, tick.batch, BATCH)
    ensures var before, after := |Pending(store.rows)|, |Pending(AfterTick(store, tick).rows)|;
      after == if before < BATCH then 0 else before - BATCH
  {
    DrainSettles(store.(inFlight := tick.batch), tick.outcomes, tick.now);
    DistinctCount(tick.batch);
    assert Elements(tick.batch) <= Pending(store.rows);
  }

  /** With no new events, k ticks leave a backlog of n at max(0, n - 50k), however each event fares. */
  lemma {:induction false} BacklogShrinks(store: Store, ticks: seq<Tick>)
    requires Ticks(store, ticks)
    ensures var before, after := |Pending(store.rows)|, |Pending(AfterTicks(store, ticks).rows)|;
      after == if before < BATCH * |ticks| then 0 else before - BATCH * |ticks|
    decreases |ticks|
  {
    if ticks != [] {
      TickShrinks(store, ticks[0]);
      BacklogShrinks(AfterTick(store, ticks[0]), ticks[1..]);
    }
  }

  /** A backlog is settled by k ticks if and only if it has at most 50k events. */
  lemma BacklogSettles(store: Store, ticks: seq<Tick>)
    requires Ticks(store, ticks)
    ensures Pending(AfterTicks(store, ticks).rows) == {} <==> |Pending(store.rows)| <= 50 * |ticks|
  {
    BacklogShrinks(store, ticks);
  }

  // ---------------------------------------------------------------------------------------------
  // Which orders of emission are possible
  // ---------------------------------------------------------------------------------------------

  /** All pending ids, each once, oldest first; rows of the same age in any order. */
  ghost predicate IsOrder(rows: seq<Row>, order: seq<nat>) {
    && Known(rows, order) && Distinct(order) && ByAge(rows, order)
    && (forall id :: id in order <==> id in Pending(rows))
  }

  lemma {:induction false} RunAppends(store: Store, a: seq<Event>, b: seq<Event>)
    ensures Run(store, a + b) == Run(Run(store, a), b)
    ensures OrderlyRun(store, a + b) <==> OrderlyRun(store, a) && OrderlyRun(Run(store, a), b)
    ensures RecordsOf(a + b) == RecordsOf(a) + RecordsOf(b)
    decreases |a|
  {
    hide Apply, Orderly, RecordOf;
    if a == [] {
      assert a + b == b;
      assert RecordsOf([]) == [];
    } else {
      assert (a + b)[0] == a[0] && (a + b)[1..] == a[1..] + b;
      RunAppends(Apply(store, a[0]), a[1..], b);
      Associates(RecordOf(a[0]), RecordsOf(a[1..]), RecordsOf(b));
    }
  }

  lemma {:induction false} TickRecordsNothing(inFlight: seq<nat>, outcomes: nat -> Outcome, now: int)
    ensures RecordsOf(StepsOf(inFlight, outcomes, now)) == []
  {
    if inFlight != [] {
      TickRecordsNothing(inFlight[1..], outcomes, now);
      assert StepsOf(inFlight, outcomes, now)[1..] == StepsOf(inFlight[1..], outcomes, now);
    }
  }

  function AllWell(): nat -> Outcome {
    id => Relayed
  }

  /** When all goes well a tick emits its batch in order and leaves every row its age. */
  lemma {:induction false} DrainEmits(store: Store, now: int)
    requires Known(store.rows, store.inFlight)
    ensures var after := Drained(store, AllWell(), now);
      && after.log == store.log + store.inFlight
      && SameAges(store.rows, after.rows)
    decreases |store.inFlight|
  {
    hide Drained;
    if store.inFlight == [] {
      DrainStop(store, AllWell(), now);
    } else {
      var id, rest := store.inFlight[0], store.inFlight[1..];
      var next := Store(store.rows[id := SettledRow(store.rows[id], Relayed, now)], store.log + [id], rest);
      DrainStep(store, AllWell(), now);
      DrainEmits(next, now);
      assert store.log + store.inFlight == (store.log + [id]) + rest;
    }
  }

  ghost predicate SameAges(before: seq<Row>, after: seq<Row>) {
    |before| == |after| && forall i :: 0 <= i < |before| ==> before[i].createdAt == after[i].createdAt
  }

  lemma HalvesHold(order: seq<nat>, k: nat)
    requires k <= |order|
    ensures forall n :: 0 <= n < k ==> order[n] in order[..k]
    ensures forall n :: k <= n < |order| ==> order[n] in order[k..]
  {
    forall n | k <= n < |order| ensures order[n] in order[k..] {
      assert order[k..][n - k] == order[n];
    }
    forall n | 0 <= n < k ensures order[n] in order[..k] {
      assert order[..k][n] == order[n];
    }
  }

  lemma PrefixIsBatch(rows: seq<Row>, order: seq<nat>, k: nat)
    requires IsOrder(rows, order) && k == if |order| < BATCH then |order| else BATCH
    ensures IsBatch(rows, order[..k], BATCH)
  {
    DistinctCount(order);
    assert Elements(order) == Pending(rows);
    HalvesHold(order, k);
    hide Pending, Elements;
    forall i, j | 0 <= i < k && j in Pending(rows) && j !in order[..k]
      ensures rows[order[i]].createdAt <= rows[j].createdAt
    {
      var n :| 0 <= n < |order| && order[n] == j;
    }
  }

  lemma RestIsOrder(rows: seq<Row>, after: seq<Row>, order: seq<nat>, k: nat)
    requires IsOrder(rows, order) && k <= |order| && SameAges(rows, after)
    requires Pending(after) == Pending(rows) - Elements(order[..k])
    ensures IsOrder(after, order[k..])
  {
    HalvesHold(order, k);
    assert forall n :: 0 <= n < |order| - k ==> order[k..][n] == order[k + n];
    forall id ensures id in order[k..] <==> id in Pending(after) {
      if id in Pending(after) {
        var n :| 0 <= n < |order| && order[n] == id;
      }
    }
  }

  /** Every order by age is the emission log of some orderly run. */
  lemma {:induction false} EveryOrderIsPossible(store: Store, order: seq<nat>) returns (events: seq<Event>)
    requires store.inFlight == [] && IsOrder(store.rows, order)
    ensures OrderlyRun(store, events) && RecordsOf(events) == []
    ensures Run(store, events).log == store.log + order
    decreases |order|
  {
    hide *;
    if order == [] {
      events := [];
      NoStep(store);
      assert store.log + order == store.log;
    } else {
      var tick, after, first, last := OrderedTick(store, order);
      var rest := EveryOrderIsPossible(after, last);
      RunAppends(store, tick, rest);
      Associates(store.log, first, last);
      events := tick + rest;
      assert RecordsOf(events) == [] + [];
    }
  }

  /** One tick over the front of an order. */
  lemma OrderedTick(store: Store, order: seq<nat>)
    returns (tick: seq<Event>, after: Store, batch: seq<nat>, rest: seq<nat>)
    requires store.inFlight == [] && IsOrder(store.rows, order) && order != []
    ensures OrderlyRun(store, tick) && RecordsOf(tick) == [] && Run(store, tick) == after
    ensures order == batch + rest && |rest| < |order|
    ensures after.log == store.log + batch && after.inFlight == [] && IsOrder(after.rows, rest)
  {
    hide IsOrder, IsBatch, OrderlyRun, Run, RecordsOf, Elements, Pending, SameAges;
    var k := if |order| < BATCH then |order| else BATCH;
    batch, rest := order[..k], order[k..];
    assert order == batch + rest;
    PrefixIsBatch(store.rows, order, k);
    tick, after := WellTick(store, batch);
    RestIsOrder(store.rows, after.rows, order, k);
  }

  /** One tick in which all goes well. */
  lemma WellTick(store: Store, batch: seq<nat>) returns (tick: seq<Event>, after: Store)
    requires store.inFlight == [] && IsBatch(store.rows, batch, BATCH)
    ensures OrderlyRun(store, tick) && RecordsOf(tick) == [] && Run(store, tick) == after
    ensures after.log == store.log + batch && after.inFlight == [] && SameAges(store.rows, after.rows)
    ensures Pending(after.rows) == Pending(store.rows) - Elements(batch)
  {
    var fetched := store.(inFlight := batch);
    tick, after := [Fetches(batch)] + StepsOf(batch, AllWell(), 0), Drained(fetched, AllWell(), 0);
    TickRecordsNothing(batch, AllWell(), 0);
    assert tick[1..] == StepsOf(batch, AllWell(), 0);
    assert RecordsOf(tick) == [] && Known(store.rows, batch);
    hide *;
    TickIsARun(store, batch, AllWell(), 0);
    DrainEmits(fetched, 0);
    DrainSettles(fetched, AllWell(), 0);
  }

  lemma PrependKeepsAge(rows: seq<Row>, first: nat, rest: seq<nat>)
    requires first < |rows| && Known(rows, rest) && Distinct(rest) && ByAge(rows, rest) && first !in Elements(rest)
    requires forall i :: i in Elements(rest) ==> rows[first].createdAt <= rows[i].createdAt
    ensures var order := [first] + rest;
      Known(rows, order) && Distinct(order) && ByAge(rows, order) && Elements(order) == {first} + Elements(rest)
  {
    assert forall i :: 0 <= i < |rest| ==> rest[i] in Elements(rest);
  }

  lemma EmptyIsByAge(rows: seq<Row>)
    ensures Known(rows, []) && ByAge(rows, []) && Distinct([]) && Elements([]) == {}
  {
  }

  lemma {:induction false} OrderExists(rows: seq<Row>, ids: set<nat>) returns (order: seq<nat>)
    requires forall id :: id in ids ==> id < |rows|
    ensures Known(rows, order) && Distinct(order) && ByAge(rows, order) && Elements(order) == ids
    decreases |ids|
  {
    hide *;
    if ids == {} {
      order := [];
      EmptyIsByAge(rows);
    } else {
      var first := Earliest(rows, ids);
      var rest := OrderExists(rows, ids - {first});
      PrependKeepsAge(rows, first, rest);
      order := [first] + rest;
      assert ids == {first} + (ids - {first});
    }
  }

  lemma Earliest(rows: seq<Row>, ids: set<nat>) returns (first: nat)
    requires ids != {} && forall i :: i in ids ==> i < |rows|
    ensures first in ids && forall i :: i in ids ==> rows[first].createdAt <= rows[i].createdAt
  {
    EarliestExists(rows, ids);
    first :| first in ids && forall i :: i in ids ==> rows[first].createdAt <= rows[i].createdAt;
  }

  lemma SwapKeepsOrder(rows: seq<Row>, order: seq<nat>, p: nat, q: nat)
    requires IsOrder(rows, order) && p < q < |order| && rows[order[p]].createdAt == rows[order[q]].createdAt
    ensures IsOrder(rows, order[p := order[q]][q := order[p]])
  {
    var swapped := order[p := order[q]][q := order[p]];
    assert forall i :: 0 <= i < |order| ==> rows[swapped[i]].createdAt == rows[order[i]].createdAt;
    SwapKeepsElements(order, p, q);
    hide Pending;
  }

  lemma SwapKeepsElements(order: seq<nat>, p: nat, q: nat)
    requires p < q < |order| && Distinct(order)
    ensures var swapped := order[p := order[q]][q := order[p]];
      Distinct(swapped) && forall id :: id in swapped <==> id in order
  {
    var swapped := order[p := order[q]][q := order[p]];
    assert forall i :: 0 <= i < |order| ==> swapped[i] == order[if i == p then q else if i == q then p else i];
    forall id | id in order ensures id in swapped {
      var i :| 0 <= i < |order| && order[i] == id;
      assert swapped[if i == p then q else if i == q then p else i] == id;
    }
  }

  ghost predicate EmittedBefore(log: seq<nat>, first: nat, second: nat) {
    exists p, q :: 0 <= p < q < |log| && log[p] == first && log[q] == second
  }

  /** Of two pending rows the one inserted later may be emitted first whenever it is no younger. */
  lemma LaterCanGoFirst(store: Store, i: nat, j: nat) returns (events: seq<Event>)
    requires store.inFlight == [] && i < j && i in Pending(store.rows) && j in Pending(store.rows)
    requires store.rows[i].createdAt >= store.rows[j].createdAt
    ensures OrderlyRun(store, events) && RecordsOf(events) == []
    ensures EmittedBefore(Run(store, events).log, j, i)
  {
    var order := OrderWith(store.rows, i, j);
    hide IsOrder, Run, OrderlyRun, Pending;
    events := EveryOrderIsPossible(store, order);
    BeforeInTail(store.log, order, j, i);
  }

  lemma OrderWith(rows: seq<Row>, i: nat, j: nat) returns (order: seq<nat>)
    requires i != j && i in Pending(rows) && j in Pending(rows) && rows[i].createdAt >= rows[j].createdAt
    ensures IsOrder(rows, order) && EmittedBefore(order, j, i)
  {
    order := OrderExists(rows, Pending(rows));
    assert forall id :: id in order <==> id in Elements(order);
    hide Pending;
    var p :| 0 <= p < |order| && order[p] == i;
    var q :| 0 <= q < |order| && order[q] == j;
    if p < q {
      SwapKeepsOrder(rows, order, p, q);
      order := order[p := j][q := i];
      assert order[p] == j && order[q] == i;
    } else {
      assert q < p;
    }
  }

  lemma BeforeInTail(front: seq<nat>, tail: seq<nat>, first: nat, second: nat)
    requires EmittedBefore(tail, first, second)
    ensures EmittedBefore(front + tail, first, second)
  {
    var p, q :| 0 <= p < q < |tail| && tail[p] == first && tail[q] == second;
    assert (front + tail)[|front| + p] == first && (front + tail)[|front| + q] == second;
  }

  // ---------------------------------------------------------------------------------------------
  // When emission follows creation
  // ---------------------------------------------------------------------------------------------

  ghost predicate StrictlyAged(contents: seq<Content>) {
    forall i, j :: 0 <= i < j < |contents| ==> contents[i].createdAt < contents[j].createdAt
  }

  function Recording(contents: seq<Content>): seq<Event> {
    if contents == [] then []
    else [Records(contents[0].topic, contents[0].payload, contents[0].createdAt)] + Recording(contents[1..])
  }

  /** Recording some events and nothing else leaves them all pending. */
  lemma {:induction false} RecordingOnly(store: Store, contents: seq<Content>)
    requires forall i :: 0 <= i < |store.rows| ==> store.rows[i].status == PENDING
    ensures var after := Run(store, Recording(contents));
      && OrderlyRun(store, Recording(contents)) && RecordsOf(Recording(contents)) == contents
      && after.inFlight == store.inFlight
      && (forall i :: 0 <= i < |after.rows| ==> after.rows[i].status == PENDING)
    decreases |contents|
  {
    if contents != [] {
      var event := Records(contents[0].topic, contents[0].payload, contents[0].createdAt);
      RecordingOnly(Apply(store, event), contents[1..]);
      FirstStep(store, event, Recording(contents[1..]));
      assert Recording(contents)[1..] == Recording(contents[1..]);
      assert contents == [contents[0]] + contents[1..];
    }
  }

  /** Recorded events are emitted in the order of recording in all histories of relays that do not overlap exactly when
      each carries a later timestamp than those before it. */
  lemma CreationOrderIff(contents: seq<Content>)
    ensures StrictlyAged(contents)
       <==> forall events ::
              OrderlyRun(EMPTY, events) && RecordsOf(events) == contents ==> Ascends(Run(EMPTY, events).log)
  {
    if StrictlyAged(contents) {
      forall events | OrderlyRun(EMPTY, events) && RecordsOf(events) == contents
        ensures Ascends(Run(EMPTY, events).log)
      {
        AgedIsFollowed(EMPTY, events);
      }
    } else {
      var i, j :| 0 <= i < j < |contents| && contents[i].createdAt >= contents[j].createdAt;
      var events := TiedIsNotFollowed(EMPTY, contents, i, j);
    }
  }

  lemma AgedRowsHaveNoTies(rows: seq<Row>)
    requires StrictlyAged(Contents(rows))
    ensures NoTies(rows)
  {
    forall i, j | 0 <= i < j < |rows| ensures rows[i].createdAt < rows[j].createdAt {
      assert Contents(rows)[i].createdAt < Contents(rows)[j].createdAt;
    }
  }

  lemma RowsFromNothing(store: Store, events: seq<Event>)
    requires store.rows == []
    ensures Contents(Run(store, events).rows) == RecordsOf(events)
  {
    RowsAreTheRecords(store, events);
    assert Contents(store.rows) == [];
    hide Run, RecordsOf, Contents;
    assert [] + RecordsOf(events) == RecordsOf(events);
  }

  lemma AgedIsFollowed(store: Store, events: seq<Event>)
    requires store.rows == [] && store.log == [] && store.inFlight == []
    requires OrderlyRun(store, events) && StrictlyAged(RecordsOf(events))
    ensures Ascends(Run(store, events).log)
  {
    hide *;
    NothingRecorded(store);
    RowsFromNothing(store, events);
    AgedRowsHaveNoTies(Run(store, events).rows);
    EmissionsFollowCreation(store, events);
  }

  /** The backlog left by recording some events on an empty outbox. */
  lemma RecordedBacklog(store: Store, contents: seq<Content>) returns (recorded: Store)
    requires store.rows == [] && store.log == [] && store.inFlight == []
    ensures recorded == Run(store, Recording(contents)) && OrderlyRun(store, Recording(contents))
    ensures RecordsOf(Recording(contents)) == contents && recorded.inFlight == [] && |recorded.rows| == |contents|
    ensures forall i :: 0 <= i < |contents| ==>
              i in Pending(recorded.rows) && recorded.rows[i].createdAt == contents[i].createdAt
  {
    recorded := Run(store, Recording(contents));
    RecordingOnly(store, contents);
    RowsFromNothing(store, Recording(contents));
    hide Run, OrderlyRun, Recording, RecordsOf;
    assert |Contents(recorded.rows)| == |recorded.rows|;
    assert forall i :: 0 <= i < |contents| ==> Contents(recorded.rows)[i] == contents[i];
  }

  lemma TiedIsNotFollowed(store: Store, contents: seq<Content>, i: nat, j: nat) returns (events: seq<Event>)
    requires store.rows == [] && store.log == [] && store.inFlight == []
    requires i < j < |contents| && contents[i].createdAt >= contents[j].createdAt
    ensures OrderlyRun(store, events) && RecordsOf(events) == contents && !Ascends(Run(store, events).log)
  {
    hide *;
    var recorded := RecordedBacklog(store, contents);
    var emitting := LaterCanGoFirst(recorded, i, j);
    RunAppends(store, Recording(contents), emitting);
    assert contents + [] == contents;
    events := Recording(contents) + emitting;
    LaterFirstDescends(Run(store, events).log, i, j);
  }

  lemma LaterFirstDescends(log: seq<nat>, i: nat, j: nat)
    requires i < j && EmittedBefore(log, j, i)
    ensures !Ascends(log)
  {
    var p, q :| 0 <= p < q < |log| && log[p] == j && log[q] == i;
  }
}
