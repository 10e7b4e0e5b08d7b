/** What every timer and every event of a history tell: which request opened the timer and how its deadline came about,
    what closed it, and what the breach announced. */
module SlaStory {
  import opened SlaDeadline
  import opened SlaEngine
  import opened SlaRuns
  import opened Wrappers

  // ---------------------------------------------------------------------------------------------
  // What opens and what closes a timer
  // ---------------------------------------------------------------------------------------------

  /** What a step asks to start; a message that lacks something asks nothing. */
  function Asked(step: Step): Option<StartInput> {
    match step
    case StartStep(input) => Some(input)
    case DeliverStep(TimerStart(eventId, funder, code, subjectType, subjectId, region, startedAt, notifyEmail), _) =>
      if eventId == "" || funder == 0 || code == "" || subjectType == "" || subjectId == None then None
      else Some(StartInput(Key(funder, code, subjectType, subjectId.value), region, startedAt, notifyEmail))
    case _ => None
  }

  /** The timer is the one asked for, under an active template of its funder and code, and due by that template and the
      calendar of the moment. */
  predicate AsAsked(db: Db, at: int, input: StartInput, template: Template, timer: Timer) {
    && template in db.templates && template.active
    && template.funder == timer.key.funder && template.code == timer.key.code && template.id == timer.templateId
    && input.key == timer.key && input.region == timer.region && input.notifyEmail == timer.notifyEmail
    && !input.startedAt.Unreadable?
    && timer.startedAt == (if input.startedAt == Omitted then at else input.startedAt.instant)
    && timer.deadlineAt == Deadline(template.unit, template.window, timer.startedAt,
                                    Exclusions(db.calendar, timer.key.funder, timer.region))
  }

  ghost predicate OpenedBy(w: World, e: Event, timer: Timer) {
    && timer == AsOpened(timer) && Asked(e.step).Some?
    && exists template :: template in w.db.templates && AsAsked(w.db, e.at, Asked(e.step).value, template, timer)
  }

  function AsOpened(timer: Timer): Timer {
    timer.(status := RUNNING, breachedAt := None, resolvedAt := None, resolveReason := None)
  }

  /** The step ended the running timer `id`, as the row says. */
  predicate ClosedBy(e: Event, id: nat, timer: Timer) {
    match timer.status
    case RUNNING => false
    case BREACHED => e.step == BreachStep(id) && timer.breachedAt == Some(e.at) && timer.deadlineAt < e.at
    case RESOLVED =>
      timer.resolvedAt == Some(e.at) &&
      match e.step
      case ResolveStep(orgId, resolved, reason) =>
        resolved == id && orgId in {0, timer.key.funder} && timer.resolveReason == reason
      case DeliverStep(TimerCancel(eventId, funder, code, subjectType, subjectId, reason), _) =>
        && eventId != "" && funder != 0 && code != "" && subjectType != "" && subjectId.Some?
        && timer.key == Key(funder, code, subjectType, subjectId.value)
        && timer.resolveReason == (if reason == None then Some("cancelled by originating flow") else reason)
      case _ => false
  }

  /** A step leaves a timer, opens it, or closes it while it runs. */
  ghost predicate Told(w: World, e: Event, id: nat)
    requires id < |Apply(w, e).db.timers|
  {
    var before, row := w.db.timers, Apply(w, e).db.timers[id];
    if id >= |before| then id == |before| && OpenedBy(w, e, row)
    else row == before[id] || (before[id].status == RUNNING && SameTimer(before[id], row) && ClosedBy(e, id, row))
  }

  lemma {:induction false} TemplateIsFound(templates: seq<Template>, funder: nat, code: string)
    ensures var found := FindTemplate(templates, funder, code);
      if found.Some? then found.value in templates && found.value.funder == funder && found.value.code == code
      else forall template :: template in templates ==> template.funder != funder || template.code != code
  {
    if templates != [] {
      TemplateIsFound(templates[1..], funder, code);
      assert forall template :: template in templates <==> template == templates[0] || template in templates[1..];
    }
  }

  /** With one template per funder and code, a start opens a timer exactly when its template is there and active, no
      timer of its key runs, and its start can be read. */
  lemma StartOpensIff(db: Db, now: int, input: StartInput)
    requires forall s, t :: s in db.templates && t in db.templates && s.funder == t.funder && s.code == t.code ==>
               s == t
    ensures Start(db, now, input).1.Created?
       <==> && (exists template :: template in db.templates && template.funder == input.key.funder
                                   && template.code == input.key.code && template.active)
            && (forall i :: 0 <= i < |db.timers| ==> db.timers[i].key != input.key || db.timers[i].status != RUNNING)
            && !input.startedAt.Unreadable?
  {
    TemplateIsFound(db.templates, input.key.funder, input.key.code);
    var found := FindRunning(db.timers, input.key);
    hide FindTemplate, FindRunning, Deadline;
    assert found.Some? ==> Watches(db.timers[found.value], input.key);
    assert found.None? ==> forall i :: 0 <= i < |db.timers| ==> !Watches(db.timers[i], input.key);
  }

  /** A resolve by id succeeds exactly for a running timer of the caller's funder, or of any for the platform itself. */
  lemma ResolveSucceedsIff(db: Db, now: int, orgId: nat, id: nat, reason: Option<string>)
    ensures ResolveById(db, now, orgId, id, reason).1 == Resolved
       <==> id < |db.timers| && orgId in {0, db.timers[id].key.funder} && db.timers[id].status == RUNNING
    ensures ResolveById(db, now, orgId, id, reason).1 != Resolved ==> ResolveById(db, now, orgId, id, reason).0 == db
  {
  }

  /** A cancel leaves no running timer of its key, and no other timer changed. */
  lemma CancelEndsTheKey(db: Db, now: int, key: Key, reason: Option<string>)
    requires OneRunning(db.timers)
    ensures var after := ResolveBySubject(db, now, key, reason).timers;
      && |after| == |db.timers|
      && forall i :: 0 <= i < |after| ==>
           !Watches(after[i], key) && (!Watches(db.timers[i], key) ==> after[i] == db.timers[i])
  {
    var found := FindRunning(db.timers, key);
    assert found.Some? ==> Watches(db.timers[found.value], key);
  }

  lemma StartTells(w: World, e: Event, input: StartInput)
    requires Asked(e.step) == Some(input)
    ensures var (db, result) := Start(w.db, e.at, input);
      db == w.db || (w.db.timers < db.timers && |db.timers| == |w.db.timers| + 1 && db == w.db.(timers := db.timers)
                     && OpenedBy(w, e, db.timers[|w.db.timers|]))
  {
    TemplateIsFound(w.db.templates, input.key.funder, input.key.code);
    var found := FindTemplate(w.db.templates, input.key.funder, input.key.code);
    var db := Start(w.db, e.at, input).0;
    if db != w.db {
      assert AsAsked(w.db, e.at, input, found.value, db.timers[|w.db.timers|]);
    }
  }

  lemma CancelTells(db: Db, e: Event, id: nat)
    requires e.step.DeliverStep? && e.step.message.TimerCancel? && !Malformed(e.step.message) && id < |db.timers|
    ensures var key, reason := KeyOf(e.step.message), e.step.message.reason;
      var after := ResolveBySubject(db, e.at, key, reason).timers;
      |after| == |db.timers|
      && (after[id] == db.timers[id]
          || (db.timers[id].status == RUNNING && SameTimer(db.timers[id], after[id]) && ClosedBy(e, id, after[id])))
  {
  }

  lemma StepTells(w: World, e: Event, id: nat)
    requires Inv(w) && Enabled(w, e) && id < |Apply(w, e).db.timers|
    ensures Told(w, e, id)
  {
    hide Start, Inv, NoticesMatch, NoticesTruthful, OneRunning, Notices;
    match e.step {
      case StartStep(input) => StartTells(w, e, input);
      case DeliverStep(message, _) =>
        if !Ignored(w.db, message) {
          if message.TimerStart? {
            StartTells(w, e, Asked(e.step).value);
          } else if id < |w.db.timers| {
            CancelTells(w.db, e, id);
          }
        }
      case BreachStep(_) => ScannedIsLate(w);
      case _ =>
    }
  }

  lemma ScannedIsLate(w: World)
    requires Inv(w)
    ensures forall id :: id in w.scanned ==> id < |w.db.timers| && w.db.timers[id].deadlineAt < w.now
  {
  }

  // ---------------------------------------------------------------------------------------------
  // What a breach announces
  // ---------------------------------------------------------------------------------------------

  /** The name and action of the timer's template, or its code if the template is gone. */
  ghost predicate Named(templates: seq<Template>, timer: Timer, name: string, action: Option<string>) {
    || (exists template :: template in templates && template.id == timer.templateId && template.name == name
                           && Some(template.action) == action)
    || ((forall template :: template in templates ==> template.id != timer.templateId)
        && name == timer.key.code && action == None)
  }

  /** The step is the breach of the timer that the event names, and the event tells of it. */
  ghost predicate Announced(w: World, e: Event, event: OutboxEvent) {
    && e.step == BreachStep(event.timer) && event.timer < |w.db.timers|
    && var timer := w.db.timers[event.timer];
       && timer.status == RUNNING && event.key == timer.key && event.deadlineAt == timer.deadlineAt
       && Named(w.db.templates, timer, event.name, event.action)
       && (event.SlaBreached? ==> event.startedAt == timer.startedAt)
       && (event.SendEmail? ==> event.receiver == timer.notifyEmail != "")
  }

  lemma {:induction false} TemplateIsFoundById(templates: seq<Template>, id: nat)
    ensures match TemplateById(templates, id)
            case Some(found) => found in templates && found.id == id
            case None => forall template :: template in templates ==> template.id != id
  {
    if templates != [] {
      TemplateIsFoundById(templates[1..], id);
      assert forall template :: template in templates <==> template == templates[0] || template in templates[1..];
    }
  }

  lemma StepAnnounces(w: World, e: Event, n: nat)
    requires n < |Apply(w, e).db.outbox|
    ensures |w.db.outbox| <= |Apply(w, e).db.outbox|
    ensures if n < |w.db.outbox| then Apply(w, e).db.outbox[n] == w.db.outbox[n]
            else Announced(w, e, Apply(w, e).db.outbox[n])
  {
    hide FindRunning, FindTemplate, Deadline;
    if e.step.BreachStep? && e.step.timer < |w.db.timers| {
      TemplateIsFoundById(w.db.templates, w.db.timers[e.step.timer].templateId);
    }
  }

  // ---------------------------------------------------------------------------------------------
  // Whole histories
  // ---------------------------------------------------------------------------------------------

  ghost predicate WasOpened(w: World, events: seq<Event>, timer: Timer) {
    exists k :: 0 <= k < |events| && OpenedBy(Run(w, events[..k]), events[k], AsOpened(timer))
  }

  ghost predicate WasClosed(w: World, events: seq<Event>, id: nat, timer: Timer) {
    exists k :: 0 <= k < |events| && ClosedBy(events[k], id, timer)
  }

  ghost predicate WasAnnounced(w: World, events: seq<Event>, event: OutboxEvent) {
    exists k :: 0 <= k < |events| && Announced(Run(w, events[..k]), events[k], event)
  }

  lemma {:induction false} RunSplits(w: World, events: seq<Event>, e: Event)
    ensures Run(w, events + [e]) == Apply(Run(w, events), e)
    ensures IsRun(w, events + [e]) <==> IsRun(w, events) && Enabled(Run(w, events), e)
    decreases |events|
  {
    hide Apply, Enabled;
    if events == [] {
      assert Run(Apply(w, e), []) == Apply(w, e) && IsRun(Apply(w, e), []);
      assert [] + [e] == [e] && [e][1..] == [];
    } else {
      assert (events + [e])[1..] == events[1..] + [e];
      RunSplits(Apply(w, events[0]), events[1..], e);
    }
  }

  lemma LongerRunTells(w: World, init: seq<Event>, e: Event, id: nat, timer: Timer)
    ensures WasOpened(w, init, timer) ==> WasOpened(w, init + [e], timer)
    ensures WasClosed(w, init, id, timer) ==> WasClosed(w, init + [e], id, timer)
    ensures OpenedBy(Run(w, init), e, AsOpened(timer)) ==> WasOpened(w, init + [e], timer)
    ensures ClosedBy(e, id, timer) ==> WasClosed(w, init + [e], id, timer)
  {
    hide Run, OpenedBy, ClosedBy;
    var events := init + [e];
    assert events[|init|] == e && events[..|init|] == init;
    assert forall k :: 0 <= k < |init| ==> events[k] == init[k] && events[..k] == init[..k];
  }

  lemma LongerRunAnnounces(w: World, init: seq<Event>, e: Event, event: OutboxEvent)
    ensures WasAnnounced(w, init, event) ==> WasAnnounced(w, init + [e], event)
    ensures Announced(Run(w, init), e, event) ==> WasAnnounced(w, init + [e], event)
  {
    hide Run, Announced;
    var events := init + [e];
    assert events[|init|] == e && events[..|init|] == init;
    assert forall k :: 0 <= k < |init| ==> events[k] == init[k] && events[..k] == init[..k];
  }

  /** In every history that starts without timers, each timer was opened by a request for it and is due by the template
      and the calendar of that moment, and each closed one was closed by the request or the breach that it tells of. */
  lemma {:induction false} EveryTimerIsTold(w: World, events: seq<Event>, id: nat)
    requires Inv(w) && w.db.timers == [] && IsRun(w, events) && id < |Run(w, events).db.timers|
    ensures var timer := Run(w, events).db.timers[id];
      WasOpened(w, events, timer) && (timer.status != RUNNING ==> WasClosed(w, events, id, timer))
    decreases |events|
  {
    if events != [] {
      var init, e := events[..|events| - 1], events[|events| - 1];
      assert init + [e] == events;
      RunSplits(w, init, e);
      var before := Run(w, init);
      var timer := Apply(before, e).db.timers[id];
      hide Run, IsRun, Apply, Enabled, Inv, WasOpened, WasClosed, OpenedBy, ClosedBy;
      RunKeepsInv(w, init);
      StepTells(before, e, id);
      LongerRunTells(w, init, e, id, timer);
      OpeningIsKept(before, e, id);
      if id < |before.db.timers| {
        EveryTimerIsTold(w, init, id);
        SameOpening(w, init, before.db.timers[id], timer);
      }
    }
  }

  lemma OpeningIsKept(w: World, e: Event, id: nat)
    requires id < |Apply(w, e).db.timers| && Told(w, e, id)
    ensures var timer := Apply(w, e).db.timers[id];
      if id < |w.db.timers| then AsOpened(timer) == AsOpened(w.db.timers[id])
                                 && (timer != w.db.timers[id] ==> ClosedBy(e, id, timer))
      else timer == AsOpened(timer) && OpenedBy(w, e, AsOpened(timer))
  {
    hide Apply, ClosedBy;
  }

  lemma SameOpening(w: World, events: seq<Event>, a: Timer, b: Timer)
    requires AsOpened(a) == AsOpened(b)
    ensures WasOpened(w, events, a) <==> WasOpened(w, events, b)
  {
    hide Run, OpenedBy;
  }

  /** In every history that starts without events, each event was written by the breach of the timer that it names. */
  lemma {:induction false} EveryEventIsTold(w: World, events: seq<Event>, n: nat)
    requires w.db.outbox == [] && n < |Run(w, events).db.outbox|
    ensures WasAnnounced(w, events, Run(w, events).db.outbox[n])
    decreases |events|
  {
    if events != [] {
      var init, e := events[..|events| - 1], events[|events| - 1];
      assert init + [e] == events;
      RunSplits(w, init, e);
      var before := Run(w, init);
      hide Run, Apply, WasAnnounced, Announced;
      StepAnnounces(before, e, n);
      LongerRunAnnounces(w, init, e, Apply(before, e).db.outbox[n]);
      if n < |before.db.outbox| {
        EveryEventIsTold(w, init, n);
      }
    }
  }
}
