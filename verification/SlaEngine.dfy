/** The SLA engine: starting, resolving and breaching timers, by request, by message and by cron. */
module SlaEngine {
  import opened Wrappers
  import opened SlaDeadline

  datatype Template = Template(id: nat, funder: nat, code: string, name: string, window: int,
                               unit: WindowUnit, action: string, active: bool)

  /** What at most one RUNNING timer may watch. */
  datatype Key = Key(funder: nat, code: string, subjectType: string, subjectId: string)

  datatype Status = RUNNING | RESOLVED | BREACHED

  /** A timer row; its id is its index in the table. An empty `notifyEmail` is a null column. */
  datatype Timer = Timer(key: Key, templateId: nat, region: string, startedAt: int, deadlineAt: int,
                         notifyEmail: string, status: Status, breachedAt: Option<int>,
                         resolvedAt: Option<int>, resolveReason: Option<string>)

  datatype OutboxEvent =
    | SlaBreached(timer: nat, key: Key, name: string, action: Option<string>, startedAt: int, deadlineAt: int)
    | SendEmail(timer: nat, key: Key, name: string, action: Option<string>, deadlineAt: int, receiver: string)

  /** The tables. */
  datatype Db = Db(templates: seq<Template>, calendar: seq<CalendarDay>, timers: seq<Timer>,
                   outbox: seq<OutboxEvent>, processed: set<string>)

  datatype StartTime = Omitted | At(instant: int) | Unreadable

  datatype StartInput = StartInput(key: Key, region: string, startedAt: StartTime, notifyEmail: string)

  datatype StartResult = Created(id: nat) | Existing(id: nat) | NoTemplate | Inactive | InvalidStart

  datatype ResolveResult = Resolved | NotFound | NotRunning(status: Status)

  // ---------------------------------------------------------------------------------------------
  // Queries
  // ---------------------------------------------------------------------------------------------

  function FindTemplate(templates: seq<Template>, funder: nat, code: string): Option<Template> {
    if templates == [] then None
    else if templates[0].funder == funder && templates[0].code == code then Some(templates[0])
    else FindTemplate(templates[1..], funder, code)
  }

  function TemplateById(templates: seq<Template>, id: nat): Option<Template> {
    if templates == [] then None
    else if templates[0].id == id then Some(templates[0])
    else TemplateById(templates[1..], id)
  }

  predicate Watches(timer: Timer, key: Key) {
    timer.key == key && timer.status == RUNNING
  }

  function FindRunning(timers: seq<Timer>, key: Key): (found: Option<nat>)
    ensures found.Some? ==> found.value < |timers| && Watches(timers[found.value], key)
    ensures found.None? ==> forall i :: 0 <= i < |timers| ==> !Watches(timers[i], key)
  {
    if timers == [] then None
    else if Watches(timers[|timers| - 1], key) then Some(|timers| - 1)
    else FindRunning(timers[..|timers| - 1], key)
  }

  predicate Overdue(timer: Timer, now: int) {
    timer.status == RUNNING && timer.deadlineAt < now
  }

  const SCAN_LIMIT := 100

  /** What the cron query may return: overdue timers, earliest deadline first and at most 100 of
      them, with none left out that is due before the last one taken. */
  ghost predicate IsOverdueScan(timers: seq<Timer>, now: int, ids: seq<nat>) {
    && |ids| <= SCAN_LIMIT
    && (forall n :: 0 <= n < |ids| ==> ids[n] < |timers| && Overdue(timers[ids[n]], now))
    && (forall m, n :: 0 <= m < n < |ids| ==>
          ids[m] != ids[n] && timers[ids[m]].deadlineAt <= timers[ids[n]].deadlineAt)
    && (forall i :: 0 <= i < |timers| && Overdue(timers[i], now) && i !in ids ==>
          && |ids| == SCAN_LIMIT
          && timers[ids[|ids| - 1]].deadlineAt <= timers[i].deadlineAt)
  }

  // ---------------------------------------------------------------------------------------------
  // Operations on the tables
  // ---------------------------------------------------------------------------------------------

  function Start(db: Db, now: int, input: StartInput): (Db, StartResult) {
    match FindTemplate(db.templates, input.key.funder, input.key.code)
    case None => (db, NoTemplate)
    case Some(template) =>
      if !template.active then (db, Inactive)
      else match FindRunning(db.timers, input.key)
        case Some(id) => (db, Existing(id))
        case None =>
          if input.startedAt.Unreadable? then (db, InvalidStart)
          else
            var startedAt := if input.startedAt.At? then input.startedAt.instant else now;
            var deadlineAt := Deadline(template.unit, template.window, startedAt,
                                       Exclusions(db.calendar, input.key.funder, input.region));
            var timer := Timer(input.key, template.id, input.region, startedAt, deadlineAt,
                               input.notifyEmail, RUNNING, None, None, None);
            (db.(timers := db.timers + [timer]), Created(|db.timers|))
  }

  function Close(db: Db, id: nat, now: int, reason: Option<string>): Db
    requires id < |db.timers|
  {
    db.(timers := db.timers[id := db.timers[id].(
          status := RESOLVED, resolvedAt := Some(now), resolveReason := reason)])
  }

  /** Organization 0 sees the rows of every funder. */
  predicate InScope(orgId: nat, funder: nat) {
    orgId == 0 || orgId == funder
  }

  function ResolveById(db: Db, now: int, orgId: nat, id: nat, reason: Option<string>): (Db, ResolveResult) {
    if id >= |db.timers| || !InScope(orgId, db.timers[id].key.funder) then (db, NotFound)
    else if db.timers[id].status != RUNNING then (db, NotRunning(db.timers[id].status))
    else (Close(db, id, now, reason), Resolved)
  }

  function ResolveBySubject(db: Db, now: int, key: Key, reason: Option<string>): Db {
    match FindRunning(db.timers, key)
    case None => db
    case Some(id) =>
      Close(db, id, now, Some(if reason.Some? then reason.value else "cancelled by originating flow"))
  }

  function Notices(timers: seq<Timer>, templates: seq<Template>, id: nat): seq<OutboxEvent>
    requires id < |timers|
  {
    var timer := timers[id];
    var template := TemplateById(templates, timer.templateId);
    var name := if template.Some? then template.value.name else timer.key.code;
    var action := if template.Some? then Some(template.value.action) else None;
    [SlaBreached(id, timer.key, name, action, timer.startedAt, timer.deadlineAt)]
    + if timer.notifyEmail == "" then []
      else [SendEmail(id, timer.key, name, action, timer.deadlineAt, timer.notifyEmail)]
  }

  function BreachedRow(timer: Timer, now: int): Timer {
    timer.(status := BREACHED, breachedAt := Some(now))
  }

  function Breach(db: Db, now: int, id: nat): Db {
    if id >= |db.timers| || db.timers[id].status != RUNNING then db
    else
      db.(timers := db.timers[id := BreachedRow(db.timers[id], now)],
          outbox := db.outbox + Notices(db.timers, db.templates, id))
  }

  function BreachAll(db: Db, now: int, ids: seq<nat>): Db {
    if ids == [] then db
    else Breach(BreachAll(db, now, ids[..|ids| - 1]), now, ids[|ids| - 1])
  }

  lemma {:induction false} BreachAllRows(db: Db, now: int, ids: seq<nat>)
    requires forall n :: 0 <= n < |ids| ==> ids[n] < |db.timers| && db.timers[ids[n]].status == RUNNING
    requires forall m, n :: 0 <= m < n < |ids| ==> ids[m] != ids[n]
    ensures |BreachAll(db, now, ids).timers| == |db.timers|
    ensures forall i :: 0 <= i < |db.timers| ==>
              BreachAll(db, now, ids).timers[i]
              == if i in ids then BreachedRow(db.timers[i], now) else db.timers[i]
  {
    if ids != [] {
      var init, last := ids[..|ids| - 1], ids[|ids| - 1];
      BreachAllRows(db, now, init);
      assert ids == init + [last];
    }
  }

  /** A message body; falsy fields are empty, zero or absent. */
  datatype Message =
    | TimerStart(eventId: string, funder: nat, code: string, subjectType: string, subjectId: Option<string>,
                 region: string, startedAt: StartTime, notifyEmail: string)
    | TimerCancel(eventId: string, funder: nat, code: string, subjectType: string, subjectId: Option<string>,
                  reason: Option<string>)

  predicate Malformed(message: Message) {
    message.eventId == "" || message.funder == 0 || message.code == "" || message.subjectType == "" ||
    message.subjectId.None?
  }

  function KeyOf(message: Message): Key
    requires !Malformed(message)
  {
    Key(message.funder, message.code, message.subjectType, message.subjectId.value)
  }

  predicate Ignored(db: Db, message: Message) {
    Malformed(message) || message.eventId in db.processed
  }

  /** What a message does to the timers. A start that is rejected is swallowed. */
  function Act(db: Db, now: int, message: Message): Db
    requires !Malformed(message)
  {
    match message
    case TimerStart(_, _, _, _, _, region, startedAt, notifyEmail) =>
      Start(db, now, StartInput(KeyOf(message), region, startedAt, notifyEmail)).0
    case TimerCancel(_, _, _, _, _, reason) =>
      ResolveBySubject(db, now, KeyOf(message), reason)
  }

  function Record(db: Db, eventId: string): Db {
    db.(processed := db.processed + {eventId})
  }

  /** A delivery acts first and records the event after; a crash in between loses the record. */
  function Deliver(db: Db, now: int, message: Message, crashed: bool): Db {
    if Ignored(db, message) then db
    else if crashed then Act(db, now, message)
    else Record(Act(db, now, message), message.eventId)
  }

  // ---------------------------------------------------------------------------------------------
  // The services
  // ---------------------------------------------------------------------------------------------

  class SlaService {
    var templates: seq<Template>
    var calendar: seq<CalendarDay>
    var timers: seq<Timer>
    var outbox: seq<OutboxEvent>
    var processed: set<string>

    function Tables(): Db
      reads this
    {
      Db(templates, calendar, timers, outbox, processed)
    }

    constructor (templates: seq<Template>, calendar: seq<CalendarDay>)
      ensures Tables() == Db(templates, calendar, [], [], {})
    {
      this.templates, this.calendar := templates, calendar;
      timers, outbox, processed := [], [], {};
    }

    method StartTimer(now: int, input: StartInput) returns (result: StartResult)
      modifies this`timers
      ensures (Tables(), result) == Start(old(Tables()), now, input)
    {
      var template := FindTemplate(templates, input.key.funder, input.key.code);
      if template.None? {
        return NoTemplate;
      }
      if !template.value.active {
        return Inactive;
      }
      var existing := FindRunning(timers, input.key);
      if existing.Some? {
        return Existing(existing.value);
      }
      var startedAt := now;
      match input.startedAt {
        case Omitted =>
        case At(instant) => startedAt := instant;
        case Unreadable => return InvalidStart;
      }
      var deadlineAt := ComputeDeadline(template.value.unit, template.value.window, startedAt, calendar,
                                        input.key.funder, input.region);
      timers := timers + [Timer(input.key, template.value.id, input.region, startedAt, deadlineAt,
                                input.notifyEmail, RUNNING, None, None, None)];
      return Created(|timers| - 1);
    }

    method ResolveTimer(now: int, orgId: nat, id: nat, reason: Option<string>) returns (result: ResolveResult)
      modifies this`timers
      ensures (Tables(), result) == ResolveById(old(Tables()), now, orgId, id, reason)
    {
      if id >= |timers| || !(orgId == 0 || timers[id].key.funder == orgId) {
        return NotFound;
      }
      if timers[id].status != RUNNING {
        return NotRunning(timers[id].status);
      }
      var timer := timers[id];
      timer := timer.(status := RESOLVED);
      timer := timer.(resolvedAt := Some(now));
      timer := timer.(resolveReason := reason);
      timers := timers[id := timer];
      return Resolved;
    }

    method CancelTimer(now: int, key: Key, reason: Option<string>)
      modifies this`timers
      ensures Tables() == ResolveBySubject(old(Tables()), now, key, reason)
    {
      var found := FindRunning(timers, key);
      if found.None? {
        return;
      }
      var id := found.value;
      var timer := timers[id];
      timer := timer.(status := RESOLVED);
      timer := timer.(resolvedAt := Some(now));
      timer := timer.(resolveReason := if reason.Some? then reason else Some("cancelled by originating flow"));
      timers := timers[id := timer];
    }

    method BreachTimer(now: int, id: nat)
      modifies this`timers, this`outbox
      ensures Tables() == Breach(old(Tables()), now, id)
    {
      if id >= |timers| || timers[id].status != RUNNING {
        return;
      }
      var template := TemplateById(templates, timers[id].templateId);
      var name, action := timers[id].key.code, None;
      if template.Some? {
        name, action := template.value.name, Some(template.value.action);
      }
      var current := timers[id];
      current := current.(status := BREACHED);
      current := current.(breachedAt := Some(now));
      timers := timers[id := current];
      outbox := outbox + [SlaBreached(id, current.key, name, action, current.startedAt, current.deadlineAt)];
      if current.notifyEmail != "" {
        outbox := outbox + [SendEmail(id, current.key, name, action, current.deadlineAt, current.notifyEmail)];
      }
    }

    /** One cron run over the scan it was handed, with nothing else happening meanwhile: the scanned
        timers are breached and no other row changes. A scan that was not full leaves nothing overdue. */
    method FireOverdueTimers(now: int, overdue: seq<nat>)
      requires IsOverdueScan(timers, now, overdue)
      modifies this`timers, this`outbox
      ensures Tables() == BreachAll(old(Tables()), now, overdue)
      ensures |timers| == |old(timers)|
      ensures forall i :: 0 <= i < |timers| ==>
                timers[i] == if i in overdue then BreachedRow(old(timers)[i], now) else old(timers)[i]
      ensures |overdue| < SCAN_LIMIT ==> forall i :: 0 <= i < |timers| ==> !Overdue(timers[i], now)
    {
      hide Breach;
      ghost var before := Tables();
      for n := 0 to |overdue|
        invariant Tables() == BreachAll(before, now, overdue[..n])
      {
        assert overdue[..n + 1][..n] == overdue[..n];
        BreachTimer(now, overdue[n]);
      }
      assert overdue[..|overdue|] == overdue;
      BreachAllRows(before, now, overdue);
    }

    method OnMessage(now: int, message: Message)
      modifies this`timers, this`processed
      ensures Tables() == Deliver(old(Tables()), now, message, false)
    {
      if message.eventId == "" || message.funder == 0 || message.code == "" || message.subjectType == "" ||
         message.subjectId.None? {
        return;
      }
      if message.eventId in processed {
        return;
      }
      var key := Key(message.funder, message.code, message.subjectType, message.subjectId.value);
      match message {
        case TimerStart(_, _, _, _, _, region, startedAt, notifyEmail) =>
          var _ := StartTimer(now, StartInput(key, region, startedAt, notifyEmail));
        case TimerCancel(_, _, _, _, _, reason) =>
          CancelTimer(now, key, reason);
      }
      processed := processed + {message.eventId};
    }
  }
}
