/** Whole runs of the SLA engine: what every history of starts, resolves, scans, breaches and
    messages keeps, and why redelivery after a crash is harmless. */
module SlaRuns {
  import opened Ids
  import opened Wrappers
  import opened SlaDeadline
  import opened SlaEngine

  /** `scanned` holds the ids that cron scans have read and not yet handed to a breach; by the time
      the breach runs, the row it was read from may have changed. */
  datatype World = World(now: int, scanned: multiset<nat>, db: Db)

  datatype Step =
    | Configure(templates: seq<Template>, calendar: seq<CalendarDay>)
    | StartStep(input: StartInput)
    | ResolveStep(orgId: nat, id: nat, reason: Option<string>)
    | ScanStep(ids: seq<nat>)
    | BreachStep(timer: nat)
    | DeliverStep(message: Message, crashed: bool)

  /** A step and the clock reading at which it happens. */
  datatype Event = Event(at: int, step: Step)

  ghost predicate Enabled(w: World, e: Event) {
    && w.now <= e.at
    && match e.step
       case ScanStep(ids) => IsOverdueScan(w.db.timers, e.at, ids)
       case BreachStep(id) => id in w.scanned
       case _ => true
  }

  function Apply(w: World, e: Event): World {
    match e.step
    case Configure(templates, calendar) =>
      World(e.at, w.scanned, w.db.(templates := templates, calendar := calendar))
    case StartStep(input) => World(e.at, w.scanned, Start(w.db, e.at, input).0)
    case ResolveStep(orgId, id, reason) => World(e.at, w.scanned, ResolveById(w.db, e.at, orgId, id, reason).0)
    case ScanStep(ids) => World(e.at, w.scanned + multiset(ids), w.db)
    case BreachStep(id) => World(e.at, w.scanned - multiset{id}, Breach(w.db, e.at, id))
    case DeliverStep(message, crashed) => World(e.at, w.scanned, Deliver(w.db, e.at, message, crashed))
  }

  function Run(w: World, events: seq<Event>): World
    decreases |events|
  {
    if events == [] then w else Run(Apply(w, events[0]), events[1..])
  }

  ghost predicate IsRun(w: World, events: seq<Event>)
    decreases |events|
  {
    events == [] || (Enabled(w, events[0]) && IsRun(Apply(w, events[0]), events[1..]))
  }

  // ---------------------------------------------------------------------------------------------
  // What one step may do to the timer table
  // ---------------------------------------------------------------------------------------------

  /** A new RUNNING row for a key that nothing is watching. */
  ghost predicate Opens(before: seq<Timer>, after: seq<Timer>, key: Key) {
    && |after| == |before| + 1
    && after[..|before|] == before
    && Watches(after[|before|], key)
    && RowConsistent(after[|before|])
    && forall i :: 0 <= i < |before| ==> !Watches(before[i], key)
  }

  /** The RUNNING row `id` of `key` ends, and what it watches and when it is due stay. */
  ghost predicate Closes(before: seq<Timer>, after: seq<Timer>, key: Key, id: nat) {
    && id < |before|
    && Watches(before[id], key)
    && |after| == |before|
    && after == before[id := after[id]]
    && after[id].status != RUNNING
    && SameTimer(before[id], after[id])
  }

  predicate SameTimer(before: Timer, after: Timer) {
    after == before.(status := after.status, breachedAt := after.breachedAt,
                     resolvedAt := after.resolvedAt, resolveReason := after.resolveReason)
  }

  ghost predicate Changes(before: seq<Timer>, after: seq<Timer>, key: Key) {
    after == before || Opens(before, after, key) || exists id :: Closes(before, after, key, id)
  }

  lemma StartChanges(db: Db, now: int, input: StartInput)
    ensures Changes(db.timers, Start(db, now, input).0.timers, input.key)
  {
  }

  lemma CloseChanges(db: Db, id: nat, now: int, reason: Option<string>)
    requires id < |db.timers| && db.timers[id].status == RUNNING
    ensures Changes(db.timers, Close(db, id, now, reason).timers, db.timers[id].key)
  {
    assert Closes(db.timers, Close(db, id, now, reason).timers, db.timers[id].key, id);
  }

  lemma BreachChanges(db: Db, now: int, id: nat)
    requires id < |db.timers|
    ensures Changes(db.timers, Breach(db, now, id).timers, db.timers[id].key)
  {
    if db.timers[id].status == RUNNING {
      assert Closes(db.timers, Breach(db, now, id).timers, db.timers[id].key, id);
    }
  }

  lemma DeliverChanges(db: Db, now: int, message: Message, crashed: bool)
    requires !Malformed(message)
    ensures Changes(db.timers, Deliver(db, now, message, crashed).timers, KeyOf(message))
  {
    if message.TimerStart? {
      StartChanges(db, now, StartInput(KeyOf(message), message.region, message.startedAt, message.notifyEmail));
    } else {
      var found := FindRunning(db.timers, KeyOf(message));
      if found.Some? {
        var reason := if message.reason.Some? then message.reason.value else "cancelled by originating flow";
        CloseChanges(db, found.value, now, Some(reason));
      }
    }
  }

  /** A step changes rows of one key only, and it is a key that the step touches. */
  lemma StepChanges(w: World, e: Event) returns (key: Key)
    ensures Changes(w.db.timers, Apply(w, e).db.timers, key)
    ensures Apply(w, e).db.timers == w.db.timers ||
            forall k, eventId :: !Touches(w, e.step, k, eventId) ==> k != key
  {
    key := Key(0, "", "", "");
    match e.step {
      case Configure(_, _) =>
      case ScanStep(_) =>
      case StartStep(input) =>
        key := input.key;
        StartChanges(w.db, e.at, input);
      case ResolveStep(orgId, id, reason) =>
        if id < |w.db.timers| {
          key := w.db.timers[id].key;
          if w.db.timers[id].status == RUNNING {
            CloseChanges(w.db, id, e.at, reason);
          }
        }
      case BreachStep(id) =>
        if id < |w.db.timers| {
          key := w.db.timers[id].key;
          BreachChanges(w.db, e.at, id);
        }
      case DeliverStep(message, crashed) =>
        if !Malformed(message) {
          key := KeyOf(message);
          DeliverChanges(w.db, e.at, message, crashed);
        }
    }
  }

  // ---------------------------------------------------------------------------------------------
  // Invariant
  // ---------------------------------------------------------------------------------------------

  function BreachNotices(outbox: seq<OutboxEvent>, id: nat): nat {
    if outbox == [] then 0
    else BreachNotices(outbox[..|outbox| - 1], id)
         + if outbox[|outbox| - 1].SlaBreached? && outbox[|outbox| - 1].timer == id then 1 else 0
  }

  function Emails(outbox: seq<OutboxEvent>, id: nat): nat {
    if outbox == [] then 0
    else Emails(outbox[..|outbox| - 1], id)
         + if outbox[|outbox| - 1].SendEmail? && outbox[|outbox| - 1].timer == id then 1 else 0
  }

  /** At most one RUNNING timer per funder, code and subject. */
  ghost predicate OneRunning(timers: seq<Timer>) {
    forall i, j :: 0 <= i < j < |timers| && timers[i].status == RUNNING && timers[j].status == RUNNING ==>
      timers[i].key != timers[j].key
  }

  /** A breach time is recorded exactly for BREACHED timers and lies after the deadline; a resolve
      time is recorded exactly for RESOLVED ones. */
  predicate RowConsistent(timer: Timer) {
    && (timer.status == BREACHED <==> timer.breachedAt.Some?)
    && (timer.status == BREACHED ==> timer.breachedAt.value > timer.deadlineAt)
    && (timer.status == RESOLVED <==> timer.resolvedAt.Some?)
  }

  /** Exactly one SLA_BREACHED event, and one e-mail if an address is set, for a BREACHED timer, and
      none for any other id. */
  ghost predicate NoticesMatch(db: Db) {
    forall id: nat {:trigger BreachNotices(db.outbox, id)} {:trigger Emails(db.outbox, id)} ::
      var breached := id < |db.timers| && db.timers[id].status == BREACHED;
      && BreachNotices(db.outbox, id) == (if breached then 1 else 0)
      && Emails(db.outbox, id) == (if breached && db.timers[id].notifyEmail != "" then 1 else 0)
  }

  /** Every event tells the truth about the timer it names. */
  ghost predicate NoticesTruthful(timers: seq<Timer>, outbox: seq<OutboxEvent>) {
    forall n :: 0 <= n < |outbox| ==>
      && outbox[n].timer < |timers|
      && outbox[n].key == timers[outbox[n].timer].key
      && outbox[n].deadlineAt == timers[outbox[n].timer].deadlineAt
      && (outbox[n].SlaBreached? ==> outbox[n].startedAt == timers[outbox[n].timer].startedAt)
      && (outbox[n].SendEmail? ==> outbox[n].receiver == timers[outbox[n].timer].notifyEmail)
  }

  ghost predicate Inv(w: World) {
    && OneRunning(w.db.timers)
    && (forall i :: 0 <= i < |w.db.timers| ==> RowConsistent(w.db.timers[i]))
    && NoticesMatch(w.db)
    && NoticesTruthful(w.db.timers, w.db.outbox)
    && (forall id :: id in w.scanned ==> id < |w.db.timers| && w.db.timers[id].deadlineAt < w.now)
  }

  lemma CountsAppend(outbox: seq<OutboxEvent>, e: OutboxEvent, id: nat)
    ensures BreachNotices(outbox + [e], id)
         == BreachNotices(outbox, id) + if e.SlaBreached? && e.timer == id then 1 else 0
    ensures Emails(outbox + [e], id) == Emails(outbox, id) + if e.SendEmail? && e.timer == id then 1 else 0
  {
    assert (outbox + [e])[..|outbox|] == outbox;
  }

  lemma NoticesCounted(db: Db, now: int, timer: nat, id: nat)
    requires timer < |db.timers| && db.timers[timer].status == RUNNING
    ensures BreachNotices(Breach(db, now, timer).outbox, id)
         == BreachNotices(db.outbox, id) + if id == timer then 1 else 0
    ensures Emails(Breach(db, now, timer).outbox, id)
         == Emails(db.outbox, id) + if id == timer && db.timers[timer].notifyEmail != "" then 1 else 0
  {
    hide BreachNotices, Emails;
    var added := Notices(db.timers, db.templates, timer);
    CountsAppend(db.outbox, added[0], id);
    if |added| == 1 {
      assert db.outbox + added == db.outbox + [added[0]];
    } else {
      CountsAppend(db.outbox + [added[0]], added[1], id);
      assert db.outbox + added == db.outbox + [added[0]] + [added[1]];
    }
  }

  lemma TruthSurvives(before: seq<Timer>, after: seq<Timer>, key: Key, outbox: seq<OutboxEvent>)
    requires Changes(before, after, key) && NoticesTruthful(before, outbox)
    ensures NoticesTruthful(after, outbox)
  {
    assert forall i :: 0 <= i < |before| ==> i < |after| && SameTimer(before[i], after[i]);
  }

  lemma BreachKeepsNotices(db: Db, now: int, timer: nat)
    requires NoticesMatch(db) && timer < |db.timers| && db.timers[timer].status == RUNNING
    ensures NoticesMatch(Breach(db, now, timer))
  {
    var after := Breach(db, now, timer);
    assert |after.timers| == |db.timers| && after.timers[timer] == BreachedRow(db.timers[timer], now);
    assert forall i :: 0 <= i < |db.timers| && i != timer ==> after.timers[i] == db.timers[i];
    hide Breach;
    forall k: nat
      ensures BreachNotices(after.outbox, k) == BreachNotices(db.outbox, k) + if k == timer then 1 else 0
      ensures Emails(after.outbox, k)
           == Emails(db.outbox, k) + if k == timer && db.timers[timer].notifyEmail != "" then 1 else 0
    {
      NoticesCounted(db, now, timer, k);
    }
  }

  lemma BreachKeepsTruth(db: Db, now: int, timer: nat)
    requires NoticesTruthful(db.timers, db.outbox) && timer < |db.timers| && db.timers[timer].status == RUNNING
    ensures NoticesTruthful(Breach(db, now, timer).timers, Breach(db, now, timer).outbox)
  {
    BreachChanges(db, now, timer);
    TruthSurvives(db.timers, Breach(db, now, timer).timers, db.timers[timer].key, db.outbox);
  }

  lemma BreachKeepsInv(w: World, e: Event)
    requires Inv(w) && Enabled(w, e) && e.step.BreachStep?
    ensures Inv(Apply(w, e))
  {
    var id := e.step.timer;
    assert w.db.timers[id].deadlineAt < e.at;
    if w.db.timers[id].status == RUNNING {
      BreachKeepsNotices(w.db, e.at, id);
      BreachKeepsTruth(w.db, e.at, id);
      hide NoticesMatch, NoticesTruthful, Notices;
      assert Inv(Apply(w, e));
    }
  }

  lemma ChangesKeepOneRunning(before: seq<Timer>, after: seq<Timer>, key: Key)
    requires OneRunning(before) && Changes(before, after, key)
    ensures OneRunning(after)
  {
  }

  /** What every operation but a breach keeps row by row. */
  ghost predicate Quiet(before: seq<Timer>, after: seq<Timer>) {
    && |before| <= |after|
    && ((forall i :: 0 <= i < |before| ==> RowConsistent(before[i])) ==>
          forall i :: 0 <= i < |after| ==> RowConsistent(after[i]))
    && (forall i :: 0 <= i < |after| && after[i].status == BREACHED ==> i < |before| && after[i] == before[i])
    && (forall i :: 0 <= i < |before| ==>
          && after[i].deadlineAt == before[i].deadlineAt
          && (before[i].status == BREACHED ==> after[i] == before[i]))
  }

  lemma CloseIsQuiet(db: Db, id: nat, now: int, reason: Option<string>)
    requires id < |db.timers| && db.timers[id].status == RUNNING
    ensures Quiet(db.timers, Close(db, id, now, reason).timers)
  {
  }

  lemma DeliverIsQuiet(db: Db, now: int, message: Message, crashed: bool)
    ensures Quiet(db.timers, Deliver(db, now, message, crashed).timers)
    ensures Deliver(db, now, message, crashed).outbox == db.outbox
  {
    if !Malformed(message) && message.TimerCancel? {
      var found := FindRunning(db.timers, KeyOf(message));
      if found.Some? {
        var reason := if message.reason.Some? then message.reason.value else "cancelled by originating flow";
        CloseIsQuiet(db, found.value, now, Some(reason));
      }
    }
  }

  lemma QuietStepKeepsRows(w: World, e: Event)
    requires !e.step.BreachStep?
    ensures Quiet(w.db.timers, Apply(w, e).db.timers)
    ensures Apply(w, e).db.outbox == w.db.outbox
  {
    match e.step {
      case Configure(_, _) =>
      case StartStep(_) =>
      case ScanStep(_) =>
      case BreachStep(_) =>
      case ResolveStep(_, id, reason) =>
        if id < |w.db.timers| && w.db.timers[id].status == RUNNING {
          CloseIsQuiet(w.db, id, e.at, reason);
        }
      case DeliverStep(message, crashed) =>
        DeliverIsQuiet(w.db, e.at, message, crashed);
    }
  }

  lemma StepKeepsInv(w: World, e: Event)
    requires Inv(w) && Enabled(w, e)
    ensures Inv(Apply(w, e))
  {
    if e.step.BreachStep? {
      BreachKeepsInv(w, e);
    } else {
      var key := StepChanges(w, e);
      ChangesKeepOneRunning(w.db.timers, Apply(w, e).db.timers, key);
      QuietStepKeepsRows(w, e);
      TruthSurvives(w.db.timers, Apply(w, e).db.timers, key, w.db.outbox);
    }
  }

  /** Safety over every run, with scans that go stale and messages that are delivered twice. */
  lemma {:induction false} RunKeepsInv(w: World, events: seq<Event>)
    requires Inv(w) && IsRun(w, events)
    ensures Inv(Run(w, events))
    decreases |events|
  {
    if events != [] {
      StepKeepsInv(w, events[0]);
      RunKeepsInv(Apply(w, events[0]), events[1..]);
    }
  }

  lemma InitialInv(now: int, templates: seq<Template>, calendar: seq<CalendarDay>)
    ensures Inv(World(now, multiset{}, Db(templates, calendar, [], [], {})))
  {
  }

  // ---------------------------------------------------------------------------------------------
  // History
  // ---------------------------------------------------------------------------------------------

  /** No timer disappears, no timer changes what it watches or when it is due, and a timer that has
      left RUNNING never changes again. */
  ghost predicate Extends(before: seq<Timer>, after: seq<Timer>) {
    && |before| <= |after|
    && forall i :: 0 <= i < |before| ==>
         && SameTimer(before[i], after[i])
         && (before[i].status != RUNNING ==> after[i] == before[i])
  }

  lemma {:induction false} RunIsFinal(w: World, events: seq<Event>)
    ensures Extends(w.db.timers, Run(w, events).db.timers)
    decreases |events|
  {
    if events != [] {
      var key := StepChanges(w, events[0]);
      RunIsFinal(Apply(w, events[0]), events[1..]);
    }
  }

  // ---------------------------------------------------------------------------------------------
  // The backlog
  // ---------------------------------------------------------------------------------------------

  /** The timers that were due before `since` and still run. */
  function Late(timers: seq<Timer>, since: int): set<nat> {
    set i | 0 <= i < |timers| && timers[i].status == RUNNING && timers[i].deadlineAt < since
  }

  /** A cron run with nothing else happening meanwhile: its clock reading and what its scan found. */
  datatype CronRun = CronRun(now: int, ids: seq<nat>)

  /** Cron runs one after the other, none before `since`. */
  ghost predicate CronRuns(db: Db, since: int, runs: seq<CronRun>)
    decreases |runs|
  {
    runs != [] ==>
      && since <= runs[0].now
      && IsOverdueScan(db.timers, runs[0].now, runs[0].ids)
      && CronRuns(BreachAll(db, runs[0].now, runs[0].ids), since, runs[1..])
  }

  function AfterCronRuns(db: Db, runs: seq<CronRun>): Db
    decreases |runs|
  {
    if runs == [] then db else AfterCronRuns(BreachAll(db, runs[0].now, runs[0].ids), runs[1..])
  }

  lemma RunLeavesLate(db: Db, since: int, now: int, ids: seq<nat>)
    requires IsOverdueScan(db.timers, now, ids)
    ensures Late(BreachAll(db, now, ids).timers, since) == Late(db.timers, since) - Elements(ids)
  {
    BreachAllRows(db, now, ids);
    hide BreachAll;
  }

  lemma CronRunShrinks(db: Db, since: int, now: int, ids: seq<nat>)
    requires since <= now && IsOverdueScan(db.timers, now, ids)
    ensures var before, after := |Late(db.timers, since)|, |Late(BreachAll(db, now, ids).timers, since)|;
            after == if before < SCAN_LIMIT then 0 else before - SCAN_LIMIT
  {
    var late := Late(db.timers, since);
    DistinctCount(ids);
    RunLeavesLate(db, since, now, ids);
    hide BreachAll;
    if i :| i in late && i !in ids {
      assert Elements(ids) <= late;
    } else {
      assert late <= Elements(ids);
      assert late - Elements(ids) == {};
      CardinalityGrows(late, Elements(ids));
    }
  }

  lemma {:induction false} CardinalityGrows(a: set<nat>, b: set<nat>)
    requires a <= b
    ensures |a| <= |b|
  {
    assert b == a + (b - a);
  }

  /** Of n timers that are late at some moment, k undisturbed cron runs after it breach min(100k, n), however many more
      fall due meanwhile. */
  lemma {:induction false} LateTimersAreBreached(db: Db, since: int, runs: seq<CronRun>)
    requires CronRuns(db, since, runs)
    ensures var before, after := |Late(db.timers, since)|, |Late(AfterCronRuns(db, runs).timers, since)|;
            after == if before < 100 * |runs| then 0 else before - 100 * |runs|
    decreases |runs|
  {
    if runs != [] {
      CronRunShrinks(db, since, runs[0].now, runs[0].ids);
      LateTimersAreBreached(BreachAll(db, runs[0].now, runs[0].ids), since, runs[1..]);
    }
  }

  // ---------------------------------------------------------------------------------------------
  // Crash and redelivery
  // ---------------------------------------------------------------------------------------------

  /** Whether a step may change the RUNNING timer of `key` or the record of event `eventId`. Changing
      the configuration counts as touching every key. */
  predicate Touches(w: World, step: Step, key: Key, eventId: string) {
    match step
    case Configure(_, _) => true
    case StartStep(input) => input.key == key
    case ResolveStep(_, id, _) => id < |w.db.timers| && w.db.timers[id].key == key
    case ScanStep(_) => false
    case BreachStep(id) => id < |w.db.timers| && w.db.timers[id].key == key
    case DeliverStep(message, _) =>
      message.eventId == eventId || (!Malformed(message) && KeyOf(message) == key)
  }

  predicate Untouched(w: World, events: seq<Event>, key: Key, eventId: string)
    decreases |events|
  {
    events == [] ||
    (!Touches(w, events[0].step, key, eventId) && Untouched(Apply(w, events[0]), events[1..], key, eventId))
  }

  predicate HasRunning(timers: seq<Timer>, key: Key) {
    FindRunning(timers, key).Some?
  }

  lemma OtherKeysStay(before: seq<Timer>, after: seq<Timer>, changed: Key, key: Key)
    requires Changes(before, after, changed)
    requires after == before || changed != key
    ensures HasRunning(after, key) <==> HasRunning(before, key)
  {
    if HasRunning(before, key) {
      var i := FindRunning(before, key).value;
      assert Watches(after[i], key);
    }
    if HasRunning(after, key) {
      var i := FindRunning(after, key).value;
      assert Watches(before[i], key);
    }
  }

  lemma DeliverFrame(db: Db, now: int, message: Message, crashed: bool)
    ensures var db' := Deliver(db, now, message, crashed);
            && db'.templates == db.templates && db'.calendar == db.calendar
            && db.processed <= db'.processed <= db.processed + {message.eventId}
  {
  }

  lemma UntouchedStepFrame(w: World, e: Event, key: Key, eventId: string)
    requires !Touches(w, e.step, key, eventId)
    ensures var w' := Apply(w, e);
            && w'.db.templates == w.db.templates && w'.db.calendar == w.db.calendar
            && (eventId in w'.db.processed <==> eventId in w.db.processed)
  {
    match e.step {
      case StartStep(_) =>
      case ResolveStep(_, _, _) =>
      case ScanStep(_) =>
      case BreachStep(_) =>
      case DeliverStep(message, crashed) => DeliverFrame(w.db, e.at, message, crashed);
    }
  }

  lemma UntouchedStepKeeps(w: World, e: Event, key: Key, eventId: string)
    requires !Touches(w, e.step, key, eventId)
    ensures var w' := Apply(w, e);
            && w'.db.templates == w.db.templates && w'.db.calendar == w.db.calendar
            && (HasRunning(w'.db.timers, key) <==> HasRunning(w.db.timers, key))
            && (eventId in w'.db.processed <==> eventId in w.db.processed)
  {
    UntouchedStepFrame(w, e, key, eventId);
    var changed := StepChanges(w, e);
    OtherKeysStay(w.db.timers, Apply(w, e).db.timers, changed, key);
  }

  lemma {:induction false} UntouchedKeeps(w: World, events: seq<Event>, key: Key, eventId: string)
    requires Untouched(w, events, key, eventId)
    ensures var w' := Run(w, events);
            && w'.db.templates == w.db.templates && w'.db.calendar == w.db.calendar
            && (HasRunning(w'.db.timers, key) <==> HasRunning(w.db.timers, key))
            && (eventId in w'.db.processed <==> eventId in w.db.processed)
    decreases |events|
  {
    if events != [] {
      UntouchedStepKeeps(w, events[0], key, eventId);
      UntouchedKeeps(Apply(w, events[0]), events[1..], key, eventId);
    }
  }

  function Recorded(w: World, eventId: string): World {
    w.(db := Record(w.db, eventId))
  }

  lemma RecordingCommutesWithStep(w: World, e: Event, key: Key, eventId: string)
    requires !Touches(w, e.step, key, eventId)
    ensures Apply(Recorded(w, eventId), e) == Recorded(Apply(w, e), eventId)
    ensures !Touches(Recorded(w, eventId), e.step, key, eventId)
  {
    if e.step.DeliverStep? {
      assert (w.db.processed + {eventId}) + {e.step.message.eventId}
          == (w.db.processed + {e.step.message.eventId}) + {eventId};
    }
  }

  /** Having recorded an event changes nothing for steps that do not deliver it. */
  lemma {:induction false} RecordingCommutes(w: World, events: seq<Event>, key: Key, eventId: string)
    requires Untouched(w, events, key, eventId)
    ensures Untouched(Recorded(w, eventId), events, key, eventId)
    ensures Run(Recorded(w, eventId), events) == Recorded(Run(w, events), eventId)
    decreases |events|
  {
    if events != [] {
      var e := events[0];
      var w' := Apply(w, e);
      RecordingCommutesWithStep(w, e, key, eventId);
      RecordingCommutes(w', events[1..], key, eventId);
    }
  }

  /** Acting again on a message changes nothing while nothing touched its key. */
  lemma ActingAgain(before: World, at: int, message: Message, later: World, at': int)
    requires Inv(before) && !Malformed(message)
    requires later.db.templates == before.db.templates && later.db.calendar == before.db.calendar
    requires var acted := Act(before.db, at, message);
             HasRunning(later.db.timers, KeyOf(message)) <==> HasRunning(acted.timers, KeyOf(message))
    ensures Act(later.db, at', message) == later.db
  {
    var key, acted := KeyOf(message), Act(before.db, at, message);
    var found := FindRunning(before.db.timers, key);
    if message.TimerCancel? {
      assert forall i :: 0 <= i < |acted.timers| ==> !Watches(acted.timers[i], key);
    } else if found.None? && acted != before.db {
      assert Watches(acted.timers[|before.db.timers|], key);
    }
  }

  /** One crashed attempt, then anything that does not touch the key, then a redelivery, leaves the
      tables as one delivery at the time of the first attempt would have. */
  lemma CrashIsHarmless(w: World, at: int, message: Message, between: seq<Event>, at': int, key: Key)
    requires Inv(w) && (!Malformed(message) ==> key == KeyOf(message))
    requires Untouched(Apply(w, Event(at, DeliverStep(message, true))), between, key, message.eventId)
    ensures var crashed := Run(Apply(w, Event(at, DeliverStep(message, true))), between);
            var once := Run(Apply(w, Event(at, DeliverStep(message, false))), between);
            Apply(crashed, Event(at', DeliverStep(message, false))) == once.(now := at')
  {
    var e := message.eventId;
    if !Ignored(w.db, message) {
      var acted := Apply(w, Event(at, DeliverStep(message, true)));
      var crashed := Run(acted, between);
      assert Apply(w, Event(at, DeliverStep(message, false))) == Recorded(acted, e);
      RecordingCommutes(acted, between, key, e);
      UntouchedKeeps(acted, between, key, e);
      ActingAgain(w, at, message, crashed, at');
    } else {
      UntouchedKeeps(Apply(w, Event(at, DeliverStep(message, true))), between, key, e);
    }
  }

  /** A crashed attempt and the steps that follow it before the next one. */
  datatype Attempt = Attempt(at: int, between: seq<Event>)

  function CrashRepeatedly(w: World, message: Message, attempts: seq<Attempt>): World
    decreases |attempts|
  {
    if attempts == [] then w
    else CrashRepeatedly(Run(Apply(w, Event(attempts[0].at, DeliverStep(message, true))), attempts[0].between),
                         message, attempts[1..])
  }

  function AllBetween(attempts: seq<Attempt>): seq<Event> {
    if attempts == [] then [] else attempts[0].between + AllBetween(attempts[1..])
  }

  ghost predicate AttemptsUntouched(w: World, message: Message, attempts: seq<Attempt>, key: Key)
    decreases |attempts|
  {
    attempts == [] ||
    (var attempt := Event(attempts[0].at, DeliverStep(message, true));
     var acted := Apply(w, attempt);
     && Enabled(w, attempt) && IsRun(acted, attempts[0].between)
     && Untouched(acted, attempts[0].between, key, message.eventId)
     && AttemptsUntouched(Run(acted, attempts[0].between), message, attempts[1..], key))
  }

  lemma {:induction false} RunAppends(w: World, a: seq<Event>, b: seq<Event>)
    ensures Run(w, a + b) == Run(Run(w, a), b)
    decreases |a|
  {
    if a == [] {
      assert a + b == b;
    } else {
      assert (a + b)[1..] == a[1..] + b;
      RunAppends(Apply(w, a[0]), a[1..], b);
    }
  }

  /** Every step reads its own clock, so the clock left behind by the last step does not matter. */
  lemma ClockIsRead(w: World, now: int, events: seq<Event>)
    ensures Run(w.(now := now), events).db == Run(w, events).db
    ensures Run(w.(now := now), events).scanned == Run(w, events).scanned
  {
    if events != [] {
      assert Apply(w.(now := now), events[0]) == Apply(w, events[0]);
    }
  }

  /** However often a delivery crashes before it is recorded, the tables end as if the message had
      been delivered once, at the first attempt. */
  lemma {:induction false} RepeatedCrashesAreHarmless(w: World, message: Message, attempts: seq<Attempt>,
                                                      last: int, key: Key)
    requires Inv(w) && attempts != []
    requires !Malformed(message) ==> key == KeyOf(message)
    requires AttemptsUntouched(w, message, attempts, key)
    ensures var crashed := CrashRepeatedly(w, message, attempts);
            var once := Run(Apply(w, Event(attempts[0].at, DeliverStep(message, false))), AllBetween(attempts));
            Apply(crashed, Event(last, DeliverStep(message, false))).db == once.db
    decreases |attempts|
  {
    var first := attempts[0];
    var acted := Apply(w, Event(first.at, DeliverStep(message, true)));
    var next := Run(acted, first.between);
    var delivered := Apply(w, Event(first.at, DeliverStep(message, false)));
    RunAppends(delivered, first.between, AllBetween(attempts[1..]));
    if attempts[1..] == [] {
      CrashIsHarmless(w, first.at, message, first.between, last, key);
    } else {
      var at' := attempts[1].at;
      StepKeepsInv(w, Event(first.at, DeliverStep(message, true)));
      RunKeepsInv(acted, first.between);
      RepeatedCrashesAreHarmless(next, message, attempts[1..], last, key);
      CrashIsHarmless(w, first.at, message, first.between, at', key);
      ClockIsRead(Run(delivered, first.between), at', AllBetween(attempts[1..]));
    }
  }
}
