/** What the audit table and the outbox of the configurator hold, and how often: one row for each creation, publication,
    archiving and assignment, one event for each publication and assignment, and a chain of updates for each product. */
module RateCardAudit {
  import opened RateCardRuns
  import opened RateCards
  import opened Wrappers

  datatype Mark = ProductMade(product: nat) | CardOut(card: nat) | CardGone(card: nat) | Granted(assignment: nat)

  function MarkOf(entry: Audit): Option<Mark> {
    match entry
    case ProductCreated(p) => Some(ProductMade(p))
    case CardPublished(c, _) => Some(CardOut(c))
    case CardArchived(c) => Some(CardGone(c))
    case Assigned(a, _, _, _) => Some(Granted(a))
    case _ => None
  }

  function Times(audit: seq<Audit>, mark: Mark): nat {
    if audit == [] then 0
    else Times(audit[..|audit| - 1], mark) + if MarkOf(audit[|audit| - 1]) == Some(mark) then 1 else 0
  }

  function EventMark(event: OutboxEvent): Mark {
    match event
    case RateCardPublished(c, _, _, _, _, _) => CardOut(c)
    case AssignmentCreated(a, _, _, _, _) => Granted(a)
  }

  function EventTimes(outbox: seq<OutboxEvent>, mark: Mark): nat {
    if outbox == [] then 0
    else EventTimes(outbox[..|outbox| - 1], mark) + if EventMark(outbox[|outbox| - 1]) == mark then 1 else 0
  }

  /** Whether the tables call for the mark in the outbox. */
  predicate IsAnnounced(db: Db, mark: Mark) {
    match mark
    case CardOut(c) => c < |db.cards| && db.cards[c].status != DRAFT
    case Granted(a) => a < |db.assignments|
    case _ => false
  }

  /** Whether they call for it in the audit table; the first card of a bespoke product is published with the product. */
  predicate IsAudited(db: Db, mark: Mark)
    requires Named(db.products, db.cards)
  {
    match mark
    case ProductMade(p) => p < |db.products|
    case CardOut(c) => c < |db.cards| && db.cards[c].status != DRAFT && !BornPublished(db.products, db.cards[c])
    case CardGone(c) => c < |db.cards| && db.cards[c].status == ARCHIVED
    case Granted(a) => a < |db.assignments|
  }

  function Once(called: bool): nat {
    if called then 1 else 0
  }

  /** Each mark is there once if the tables call for it, and not at all otherwise. */
  ghost predicate Complete(db: Db) {
    && Named(db.products, db.cards)
    && forall mark :: Times(db.audit, mark) == Once(IsAudited(db, mark))
                      && EventTimes(db.outbox, mark) == Once(IsAnnounced(db, mark))
  }

  lemma TimesAppend(audit: seq<Audit>, entry: Audit)
    ensures forall mark :: Times(audit + [entry], mark) == Times(audit, mark) + Once(MarkOf(entry) == Some(mark))
  {
    assert (audit + [entry])[..|audit|] == audit;
  }

  lemma EventTimesAppend(outbox: seq<OutboxEvent>, event: OutboxEvent)
    ensures forall mark ::
              EventTimes(outbox + [event], mark) == EventTimes(outbox, mark) + Once(EventMark(event) == mark)
  {
    assert (outbox + [event])[..|outbox|] == outbox;
  }

  lemma ProductIsAudited(db: Db, event: Event)
    requires Complete(db) && (event.CreatesProduct? || event.UpdatesProduct?)
    ensures Complete(Apply(db, event))
  {
    var after := Apply(db, event);
    hide Times, EventTimes, CodeTaken;
    if |after.audit| > |db.audit| {
      TimesAppend(db.audit, after.audit[|db.audit|]);
      assert after.audit == db.audit + [after.audit[|db.audit|]];
    }
  }

  lemma CardIsAudited(db: Db, event: Event)
    requires Complete(db) && (event.CreatesDraft? || event.UpdatesDraft?)
    ensures Complete(Apply(db, event))
  {
    var after := Apply(db, event);
    hide Times, EventTimes, BrokenRule, NewTerms, Amended, LatestVersion;
    if |after.audit| > |db.audit| {
      TimesAppend(db.audit, after.audit[|db.audit|]);
      assert after.audit == db.audit + [after.audit[|db.audit|]];
    }
  }

  lemma AssignmentIsAudited(db: Db, event: Event)
    requires Complete(db) && event.Assigns?
    ensures Complete(Apply(db, event))
  {
    var after := Apply(db, event);
    hide Times, EventTimes, FindPublished;
    if after != db {
      TimesAppend(db.audit, after.audit[|db.audit|]);
      EventTimesAppend(db.outbox, after.outbox[|db.outbox|]);
      assert after.audit == db.audit + [after.audit[|db.audit|]];
      assert after.outbox == db.outbox + [after.outbox[|db.outbox|]];
    }
  }

  lemma BespokeIsAudited(db: Db, event: Event)
    requires Complete(db) && event.CreatesBespoke?
    ensures Complete(Apply(db, event))
  {
    var after := Apply(db, event);
    hide Times, EventTimes, BrokenRule, NewTerms, PickCode, CodeTaken, ParamsOf;
    if |after.audit| > |db.audit| {
      TimesAppend(db.audit, after.audit[|db.audit|]);
      EventTimesAppend(db.outbox, after.outbox[|db.outbox|]);
      assert after.audit == db.audit + [after.audit[|db.audit|]];
      assert after.outbox == db.outbox + [after.outbox[|db.outbox|]];
    }
  }

  /** What a publication adds. */
  ghost predicate Adds(db: Db, after: Db, card: nat, current: Option<nat>) {
    && after.products == db.products && after.assignments == db.assignments && |after.cards| == |db.cards|
    && card < |db.cards| && db.cards[card].status == DRAFT && after.cards[card].status == PUBLISHED
    && (forall c :: 0 <= c < |db.cards| ==>
          after.cards[c].product == db.cards[c].product && after.cards[c].version == db.cards[c].version)
    && (forall c :: 0 <= c < |db.cards| && c != card ==>
          after.cards[c].status == if current == Some(c) then ARCHIVED else db.cards[c].status)
    && (current.Some? ==> current.value < |db.cards| && db.cards[current.value].status == PUBLISHED)
    && |after.outbox| == |db.outbox| + 1 && after.outbox == db.outbox + [after.outbox[|db.outbox|]]
    && EventMark(after.outbox[|db.outbox|]) == CardOut(card)
    && after.audit == db.audit + (if current.Some? then [CardArchived(current.value)] else [])
                      + [CardPublished(card, db.cards[card].version)]
  }

  lemma PublicationAdds(db: Db, now: int, orgId: nat, card: nat)
    requires Named(db.products, db.cards) && Publish(db, now, orgId, card).1.Ok?
    ensures card < |db.cards|
    ensures Adds(db, Publish(db, now, orgId, card).0, card, FindPublished(db.cards, db.cards[card].product))
  {
    hide ParamsOf;
    assert forall found: Option<nat> :: found == FindPublished(db.cards, db.cards[card].product) && found.Some? ==>
      IsPublished(db.cards[found.value], db.cards[card].product);
  }

  lemma MarksAfter(db: Db, after: Db, card: nat, current: Option<nat>, mark: Mark)
    requires Adds(db, after, card, current)
    ensures Times(after.audit, mark)
         == Times(db.audit, mark) + Once(current.Some? && mark == CardGone(current.value)) + Once(mark == CardOut(card))
    ensures EventTimes(after.outbox, mark) == EventTimes(db.outbox, mark) + Once(mark == CardOut(card))
  {
    hide Times, EventTimes;
    EventTimesAppend(db.outbox, after.outbox[|db.outbox|]);
    var published := CardPublished(card, db.cards[card].version);
    if current.Some? {
      var archived := CardArchived(current.value);
      TimesAppend(db.audit, archived);
      TimesAppend(db.audit + [archived], published);
    } else {
      assert db.audit + [] == db.audit;
      TimesAppend(db.audit, published);
    }
  }

  lemma CallsAfter(db: Db, after: Db, card: nat, current: Option<nat>, mark: Mark)
    requires Adds(db, after, card, current) && Named(db.products, db.cards)
    requires !BornPublished(db.products, db.cards[card])
    ensures Named(after.products, after.cards)
    ensures Once(IsAudited(after, mark)) == Once(IsAudited(db, mark))
            + Once(current.Some? && mark == CardGone(current.value)) + Once(mark == CardOut(card))
    ensures Once(IsAnnounced(after, mark)) == Once(IsAnnounced(db, mark)) + Once(mark == CardOut(card))
  {
  }

  lemma PublicationIsAudited(db: Db, event: Event)
    requires Inv(db) && Complete(db) && event.Publishes?
    ensures Complete(Apply(db, event))
  {
    var after, card := Apply(db, event), event.card;
    hide Inv, Publish, Adds, FindPublished, Times, EventTimes, IsAudited, IsAnnounced;
    if Publish(db, event.now, event.orgId, card).1.Ok? {
      PublicationAdds(db, event.now, event.orgId, card);
      var current := FindPublished(db.cards, db.cards[card].product);
      AddsToDraft(db, after, card, current);
      DraftIsNotBorn(db, card);
      CallsAfter(db, after, card, current, CardOut(card));
      forall mark
        ensures Times(after.audit, mark) == Once(IsAudited(after, mark))
        ensures EventTimes(after.outbox, mark) == Once(IsAnnounced(after, mark))
      {
        MarksAfter(db, after, card, current, mark);
        CallsAfter(db, after, card, current, mark);
      }
    } else {
      FailedPublication(db, event.now, event.orgId, card);
    }
  }

  lemma AddsToDraft(db: Db, after: Db, card: nat, current: Option<nat>)
    requires Adds(db, after, card, current)
    ensures card < |db.cards| && db.cards[card].status == DRAFT
  {
  }

  lemma FailedPublication(db: Db, now: int, orgId: nat, card: nat)
    requires Publish(db, now, orgId, card).1.Fail?
    ensures Publish(db, now, orgId, card).0 == db
  {
  }

  lemma DraftIsNotBorn(db: Db, card: nat)
    requires Inv(db) && card < |db.cards| && db.cards[card].status == DRAFT
    ensures Named(db.products, db.cards) && !BornPublished(db.products, db.cards[card])
  {
  }

  lemma StepIsAudited(db: Db, event: Event)
    requires Inv(db) && Complete(db)
    ensures Complete(Apply(db, event))
  {
    hide Inv, Complete, Apply;
    match event
    case CreatesProduct(_, _, _, _) => ProductIsAudited(db, event);
    case UpdatesProduct(_, _, _, _, _) => ProductIsAudited(db, event);
    case CreatesBespoke(_, _, _, _, _, _, _) => BespokeIsAudited(db, event);
    case CreatesDraft(_, _, _) => CardIsAudited(db, event);
    case UpdatesDraft(_, _, _) => CardIsAudited(db, event);
    case Publishes(_, _, _) => PublicationIsAudited(db, event);
    case Assigns(_, _, _) => AssignmentIsAudited(db, event);
  }

  lemma {:induction false} RunIsAudited(db: Db, events: seq<Event>)
    requires Inv(db) && Complete(db)
    ensures Complete(Run(db, events))
    decreases |events|
  {
    hide Inv, Complete, Apply;
    if events != [] {
      StepIsAudited(db, events[0]);
      StepKeepsInv(db, events[0]);
      RunIsAudited(Apply(db, events[0]), events[1..]);
    }
  }

  /** In every history: one audit row for each product, for each card published on its own, for each archived card and
      for each assignment, one event for each published card and each assignment, and no others of these kinds. */
  lemma AuditIsComplete(events: seq<Event>)
    ensures Complete(Run(EMPTY, events))
  {
    assert Inv(EMPTY) && Complete(EMPTY);
    hide Inv, Complete;
    RunIsAudited(EMPTY, events);
  }

  // ---------------------------------------------------------------------------------------------
  // Updates of products
  // ---------------------------------------------------------------------------------------------

  datatype Chain = Unsaid | Ends(product: Product) | Torn

  /** What the updates of one product tell: nothing, its last state, or rows that do not join up. */
  function ChainOf(audit: seq<Audit>, p: nat): Chain {
    if audit == [] then Unsaid
    else
      var earlier := ChainOf(audit[..|audit| - 1], p);
      match audit[|audit| - 1]
      case ProductUpdated(updated, old_, new_) =>
        if updated != p then earlier
        else if earlier == Unsaid || earlier == Ends(old_) then Ends(new_) else Torn
      case _ => earlier
  }

  lemma ChainAppend(audit: seq<Audit>, entry: Audit, p: nat)
    ensures ChainOf(audit + [entry], p)
         == if entry.ProductUpdated? && entry.product == p
            then (if ChainOf(audit, p) in {Unsaid, Ends(entry.old_)} then Ends(entry.new_) else Torn)
            else ChainOf(audit, p)
  {
    assert (audit + [entry])[..|audit|] == audit;
  }

  /** The updates of each product join up and end with the product as it is. */
  ghost predicate Joined(db: Db) {
    && (forall p :: 0 <= p < |db.products| ==> ChainOf(db.audit, p) in {Unsaid, Ends(db.products[p])})
    && (forall p: nat :: p >= |db.products| ==> ChainOf(db.audit, p) == Unsaid)
  }

  lemma QuietRowsJoin(db: Db, audit: seq<Audit>)
    requires forall k :: 0 <= k < |audit| ==> !audit[k].ProductUpdated?
    ensures forall p: nat :: ChainOf(db.audit + audit, p) == ChainOf(db.audit, p)
  {
    forall p: nat ensures ChainOf(db.audit + audit, p) == ChainOf(db.audit, p) {
      QuietRows(db.audit, audit, p);
    }
  }

  lemma {:induction false} QuietRows(before: seq<Audit>, audit: seq<Audit>, p: nat)
    requires forall k :: 0 <= k < |audit| ==> !audit[k].ProductUpdated?
    ensures ChainOf(before + audit, p) == ChainOf(before, p)
  {
    if audit == [] {
      assert before + audit == before;
    } else {
      var init, last := audit[..|audit| - 1], audit[|audit| - 1];
      QuietRows(before, init, p);
      ChainAppend(before + init, last, p);
      assert before + audit == before + init + [last];
    }
  }

  /** Every other step adds no update, and leaves or adds products. */
  lemma OtherStepIsQuiet(db: Db, event: Event)
    requires !event.UpdatesProduct?
    ensures var after := Apply(db, event);
      && db.audit <= after.audit && db.products <= after.products
      && forall k :: |db.audit| <= k < |after.audit| ==> !after.audit[k].ProductUpdated?
  {
    hide BrokenRule, NewTerms, Amended, LatestVersion, PickCode, CodeTaken, ParamsOf, FindPublished;
  }

  lemma StepJoins(db: Db, event: Event)
    requires Joined(db)
    ensures Joined(Apply(db, event))
  {
    var after := Apply(db, event);
    if event.UpdatesProduct? {
      if after != db {
        hide ChainOf;
        assert after.audit == db.audit + [after.audit[|db.audit|]];
        forall p: nat {
          ChainAppend(db.audit, after.audit[|db.audit|], p);
        }
      }
    } else {
      OtherStepIsQuiet(db, event);
      hide ChainOf, Apply;
      QuietRowsJoin(db, after.audit[|db.audit|..]);
      assert db.audit + after.audit[|db.audit|..] == after.audit;
    }
  }

  lemma {:induction false} RunJoins(db: Db, events: seq<Event>)
    requires Joined(db)
    ensures Joined(Run(db, events))
    decreases |events|
  {
    hide Joined, Apply;
    if events != [] {
      StepJoins(db, events[0]);
      RunJoins(Apply(db, events[0]), events[1..]);
    }
  }

  /** In every history the audited updates of a product join up, the last one ending with the product as it is. */
  lemma UpdatesJoinUp(events: seq<Event>)
    ensures Joined(Run(EMPTY, events))
  {
    assert Joined(EMPTY);
    hide Joined;
    RunJoins(EMPTY, events);
  }
}
