/** What the rows and the log of the outbox tell: who recorded a row, what settled it and when, and which events a tick
    hands to the producer. */
module OutboxStory {
  import opened Ids
  import opened OutboxRelay
  import opened OutboxRuns
  import opened Wrappers

  // ---------------------------------------------------------------------------------------------
  // One tick
  // ---------------------------------------------------------------------------------------------

  /** The events of a batch that the producer accepts, whether or not they can be marked. */
  function Accepted(ids: seq<nat>, outcomes: nat -> Outcome): seq<nat> {
    if ids == [] then []
    else (if outcomes(ids[0]) == EmitThrows then [] else [ids[0]]) + Accepted(ids[1..], outcomes)
  }

  /** What a settled row says: SENT and when, or FAILED. */
  predicate Says(before: Row, after: Row, outcome: Outcome, now: int) {
    && after.topic == before.topic && after.payload == before.payload && after.createdAt == before.createdAt
    && match outcome
       case Relayed => after.status == SENT && after.sentAt == Some(now)
       case _ => after.status == FAILED && after.sentAt == before.sentAt
  }

  lemma FrontSays(store: Store, outcomes: nat -> Outcome, now: int) returns (next: Store)
    requires Known(store.rows, store.inFlight) && store.inFlight != []
    ensures next.inFlight == store.inFlight[1..] && Known(next.rows, next.inFlight)
    ensures Drained(store, outcomes, now) == Drained(next, outcomes, now)
    ensures next.log == store.log + (if outcomes(store.inFlight[0]) == EmitThrows then [] else [store.inFlight[0]])
    ensures |next.rows| == |store.rows| && Says(store.rows[store.inFlight[0]], next.rows[store.inFlight[0]],
                                                outcomes(store.inFlight[0]), now)
    ensures forall i :: 0 <= i < |store.rows| && i != store.inFlight[0] ==> next.rows[i] == store.rows[i]
  {
    var id := store.inFlight[0];
    next := Store(store.rows[id := SettledRow(store.rows[id], outcomes(id), now)],
                  if outcomes(id) == EmitThrows then store.log else store.log + [id], store.inFlight[1..]);
    DrainStep(store, outcomes, now);
  }

  /** An undisturbed tick hands over, in order, the events of its batch that the producer accepts, marks each row of the
      batch by what happened to it, and leaves all other rows alone. */
  lemma {:induction false} TickTells(store: Store, outcomes: nat -> Outcome, now: int)
    requires Known(store.rows, store.inFlight) && Distinct(store.inFlight)
    ensures var after := Drained(store, outcomes, now);
      && after.log == store.log + Accepted(store.inFlight, outcomes) && after.inFlight == []
      && |after.rows| == |store.rows|
      && forall i :: 0 <= i < |store.rows| ==>
           if i in store.inFlight then Says(store.rows[i], after.rows[i], outcomes(i), now)
           else after.rows[i] == store.rows[i]
    decreases |store.inFlight|
  {
    hide Drained, Says;
    if store.inFlight == [] {
      DrainStop(store, outcomes, now);
    } else {
      var next := FrontSays(store, outcomes, now);
      TickTells(next, outcomes, now);
      var id, rest := store.inFlight[0], next.inFlight;
      assert forall i :: i in store.inFlight <==> i == id || i in rest;
      assert id !in rest;
    }
  }

  // ---------------------------------------------------------------------------------------------
  // Whole histories
  // ---------------------------------------------------------------------------------------------

  /** The event recorded this row. */
  predicate RecordedBy(e: Event, row: Row) {
    e == Records(row.topic, row.payload, row.createdAt) && row.status == PENDING && row.sentAt == None
  }

  /** The event settled row `id`, which it had in flight, as the row says. */
  predicate SettledBy(store: Store, e: Event, id: nat, row: Row) {
    && e.Settles? && e.at < |store.inFlight| && store.inFlight[e.at] == id
    && match row.status
       case PENDING => false
       case SENT => e.outcome == Relayed && row.sentAt == Some(e.now)
       case FAILED => e.outcome in {EmitThrows, MarkThrows}
  }

  /** The event handed row `id` over, whether or not it could be marked. */
  predicate HandedBy(store: Store, e: Event, id: nat) {
    e.Settles? && e.at < |store.inFlight| && store.inFlight[e.at] == id && e.outcome in {Relayed, MarkThrows}
  }

  lemma StepTells(store: Store, e: Event, id: nat)
    requires id < |Apply(store, e).rows|
    ensures var row := Apply(store, e).rows[id];
      if id >= |store.rows| then id == |store.rows| && RecordedBy(e, row)
      else row == store.rows[id]
           || (SettledBy(store, e, id, row) && row == store.rows[id].(status := row.status, sentAt := row.sentAt))
  {
  }

  lemma StepHands(store: Store, e: Event)
    ensures var log := Apply(store, e).log;
      log == store.log || (|log| == |store.log| + 1 && store.log < log && HandedBy(store, e, log[|store.log|]))
  {
  }

  ghost predicate WasRecorded(events: seq<Event>, row: Row) {
    exists k :: 0 <= k < |events| && events[k] == Records(row.topic, row.payload, row.createdAt)
  }

  ghost predicate WasSettled(store: Store, events: seq<Event>, id: nat, row: Row) {
    exists k :: 0 <= k < |events| && SettledBy(Run(store, events[..k]), events[k], id, row)
  }

  ghost predicate WasHanded(store: Store, events: seq<Event>, id: nat) {
    exists k :: 0 <= k < |events| && HandedBy(Run(store, events[..k]), events[k], id)
  }

  lemma {:induction false} RunSplits(store: Store, events: seq<Event>, e: Event)
    ensures Run(store, events + [e]) == Apply(Run(store, events), e)
    decreases |events|
  {
    hide Apply;
    if events == [] {
      NoStep(Apply(store, e));
      assert [] + [e] == [e] && [e][1..] == [];
    } else {
      assert (events + [e])[1..] == events[1..] + [e];
      RunSplits(Apply(store, events[0]), events[1..], e);
    }
  }

  lemma LongerRunTells(store: Store, init: seq<Event>, e: Event, id: nat, row: Row)
    ensures WasRecorded(init, row) || e == Records(row.topic, row.payload, row.createdAt) ==>
              WasRecorded(init + [e], row)
    ensures WasSettled(store, init, id, row) || SettledBy(Run(store, init), e, id, row) ==>
              WasSettled(store, init + [e], id, row)
    ensures WasHanded(store, init, id) || HandedBy(Run(store, init), e, id) ==> WasHanded(store, init + [e], id)
  {
    hide Run, SettledBy, HandedBy;
    var events := init + [e];
    assert events[|init|] == e && events[..|init|] == init;
    assert forall k :: 0 <= k < |init| ==> events[k] == init[k] && events[..k] == init[..k];
  }

  /** In every history, orderly or not, each row was recorded as it is, and each row that is not pending was settled by
      a relay that had it in flight, with the outcome and at the time that the row says. */
  lemma {:induction false} EveryRowIsTold(events: seq<Event>, id: nat)
    requires id < |Run(EMPTY, events).rows|
    ensures var row := Run(EMPTY, events).rows[id];
      WasRecorded(events, row) && (row.status != PENDING ==> WasSettled(EMPTY, events, id, row))
    decreases |events|
  {
    if events != [] {
      var init, e := events[..|events| - 1], events[|events| - 1];
      assert init + [e] == events;
      RunSplits(EMPTY, init, e);
      var before := Run(EMPTY, init);
      var row := Apply(before, e).rows[id];
      StepTells(before, e, id);
      hide Run, Apply, WasRecorded, WasSettled, SettledBy;
      LongerRunTells(EMPTY, init, e, id, row);
      if id < |before.rows| {
        EveryRowIsTold(init, id);
        SameRecord(init, before.rows[id], row);
      }
    }
  }

  lemma SameRecord(events: seq<Event>, a: Row, b: Row)
    requires a.topic == b.topic && a.payload == b.payload && a.createdAt == b.createdAt
    ensures WasRecorded(events, a) <==> WasRecorded(events, b)
  {
  }

  /** And each entry of the log was handed over by a relay that had it in flight. */
  lemma {:induction false} EveryEmissionIsTold(events: seq<Event>, n: nat)
    requires n < |Run(EMPTY, events).log|
    ensures WasHanded(EMPTY, events, Run(EMPTY, events).log[n])
    decreases |events|
  {
    if events != [] {
      var init, e := events[..|events| - 1], events[|events| - 1];
      assert init + [e] == events;
      RunSplits(EMPTY, init, e);
      var before := Run(EMPTY, init);
      var log := Apply(before, e).log;
      StepHands(before, e);
      hide Run, Apply, WasHanded, HandedBy;
      LongerRunTells(EMPTY, init, e, log[n], Row("", "", 0, PENDING, None));
      if n < |before.log| {
        assert log[n] == before.log[n];
        EveryEmissionIsTold(init, n);
      }
    }
  }
}
