/** What requests come to: when each operation succeeds, whose rows it can touch, and how the terms of a card, of its
    announcement and of an assignment follow from what was asked. */
module RateCardStory {
  import opened RateCardRuns
  import opened RateCards
  import opened Wrappers

  // ---------------------------------------------------------------------------------------------
  // When an operation succeeds
  // ---------------------------------------------------------------------------------------------

  /** The product is there, and the caller is its funder or the platform itself. */
  predicate Owns(db: Db, orgId: nat, product: nat) {
    product < |db.products| && orgId in {0, db.products[product].funder}
  }

  /** Tenures in order, where 30 and 360 days stand for what was never said, and for invoice factoring an advance of 80
      to 95 percent if one is asked for. */
  predicate Allowed(code: string, fields: Fields, min: int, max: int) {
    && (if fields.minTenure.Some? then fields.minTenure.value else min)
       <= (if fields.maxTenure.Some? then fields.maxTenure.value else max)
    && (code == "IF" && fields.advance.Some? ==> 80.0 <= fields.advance.value * 100.0 <= 95.0)
  }

  lemma ProductSucceedsIff(db: Db, orgId: nat, code: string, name: string, description: Option<string>)
    ensures CreateStandard(db, orgId, code, name, description).1.Ok?
       <==> orgId != 0 && forall p :: 0 <= p < |db.products| ==>
                            db.products[p].funder != orgId || db.products[p].code != code
  {
  }

  lemma DraftSucceedsIff(db: Db, orgId: nat, product: nat, fields: Fields)
    ensures CreateDraft(db, orgId, product, fields).1.Ok?
       <==> Owns(db, orgId, product) && Allowed(db.products[product].code, fields, 30, 360)
  {
  }

  lemma UpdateSucceedsIff(db: Db, orgId: nat, card: nat, fields: Fields)
    requires Named(db.products, db.cards)
    ensures UpdateDraft(db, orgId, card, fields).1.Ok?
       <==> && card < |db.cards| && Owns(db, orgId, db.cards[card].product) && db.cards[card].status == DRAFT
            && Allowed(db.products[db.cards[card].product].code, fields, db.cards[card].terms.minTenure,
                       db.cards[card].terms.maxTenure)
  {
  }

  lemma PublishSucceedsIff(db: Db, now: int, orgId: nat, card: nat)
    requires Named(db.products, db.cards)
    ensures Publish(db, now, orgId, card).1.Ok?
       <==> card < |db.cards| && Owns(db, orgId, db.cards[card].product) && db.cards[card].status == DRAFT
  {
  }

  lemma AssignSucceedsIff(db: Db, orgId: nat, product: nat, organization: nat)
    ensures Assign(db, orgId, product, organization).1.Ok?
       <==> && Owns(db, orgId, product) && db.products[product].active
            && (db.products[product].bespoke ==> db.products[product].owner == Some(organization))
            && FindPublished(db.cards, product).Some?
            && db.cards[FindPublished(db.cards, product).value].terms.apr.Some?
  {
  }

  // ---------------------------------------------------------------------------------------------
  // Whose rows an operation can touch
  // ---------------------------------------------------------------------------------------------

  function CallerOf(event: Event): nat {
    match event
    case CreatesProduct(orgId, _, _, _) => orgId
    case UpdatesProduct(orgId, _, _, _, _) => orgId
    case CreatesBespoke(_, orgId, _, _, _, _, _) => orgId
    case CreatesDraft(orgId, _, _) => orgId
    case UpdatesDraft(orgId, _, _) => orgId
    case Publishes(_, orgId, _) => orgId
    case Assigns(orgId, _, _) => orgId
  }

  /** Products of other funders and their cards are as they were, and what is new is the caller's own. */
  ghost predicate OnlyOwnRows(before: Db, after: Db, orgId: nat)
    requires Named(before.products, before.cards) && Named(after.products, after.cards)
  {
    && |before.products| <= |after.products| && |before.cards| <= |after.cards|
    && before.assignments <= after.assignments
    && (forall p :: 0 <= p < |before.products| && before.products[p].funder != orgId ==>
          after.products[p] == before.products[p])
    && (forall c :: 0 <= c < |before.cards| && before.products[before.cards[c].product].funder != orgId ==>
          after.cards[c] == before.cards[c])
    && (forall p :: |before.products| <= p < |after.products| ==> after.products[p].funder == orgId)
    && (forall c :: |before.cards| <= c < |after.cards| ==> after.products[after.cards[c].product].funder == orgId)
    && (forall a :: |before.assignments| <= a < |after.assignments| ==> after.assignments[a].funder == orgId)
  }

  /** No funder ever touches the products or the cards of another one. */
  lemma FundersAreApart(db: Db, event: Event)
    requires Inv(db) && CallerOf(event) != 0
    ensures Inv(Apply(db, event)) && OnlyOwnRows(db, Apply(db, event), CallerOf(event))
  {
    hide Inv, OnlyOwnRows, CreateStandard, UpdateProduct, CreateBespoke, CreateDraft, UpdateDraft, Publish, Assign;
    StepKeepsInv(db, event);
    InvIsNamed(db);
    InvIsNamed(Apply(db, event));
    match event
    case CreatesProduct(_, _, _, _) => ProductStepIsOwn(db, event);
    case UpdatesProduct(_, _, _, _, _) => ProductStepIsOwn(db, event);
    case CreatesBespoke(_, _, _, _, _, _, _) => BespokeIsOwn(db, event);
    case CreatesDraft(_, _, _) => CardStepIsOwn(db, event);
    case UpdatesDraft(_, _, _) => CardStepIsOwn(db, event);
    case Publishes(now, orgId, card) => PublishIsOwn(db, now, orgId, card);
    case Assigns(_, _, _) => AssignIsOwn(db, event);
  }

  lemma InvIsNamed(db: Db)
    requires Inv(db)
    ensures Named(db.products, db.cards)
  {
  }

  lemma ProductStepIsOwn(db: Db, event: Event)
    requires event.CreatesProduct? || event.UpdatesProduct?
    requires Named(db.products, db.cards) && Named(Apply(db, event).products, Apply(db, event).cards)
    requires CallerOf(event) != 0
    ensures OnlyOwnRows(db, Apply(db, event), CallerOf(event))
  {
    hide CodeTaken;
  }

  lemma CardStepIsOwn(db: Db, event: Event)
    requires event.CreatesDraft? || event.UpdatesDraft?
    requires Named(db.products, db.cards) && Named(Apply(db, event).products, Apply(db, event).cards)
    requires CallerOf(event) != 0
    ensures OnlyOwnRows(db, Apply(db, event), CallerOf(event))
  {
    hide BrokenRule, NewTerms, Amended, LatestVersion;
  }

  lemma AssignIsOwn(db: Db, event: Event)
    requires event.Assigns? && CallerOf(event) != 0
    requires Named(db.products, db.cards) && Named(Apply(db, event).products, Apply(db, event).cards)
    ensures OnlyOwnRows(db, Apply(db, event), CallerOf(event))
  {
    hide FindPublished;
  }

  lemma BespokeIsOwn(db: Db, event: Event)
    requires event.CreatesBespoke? && CallerOf(event) != 0
    requires Named(db.products, db.cards) && Named(Apply(db, event).products, Apply(db, event).cards)
    ensures OnlyOwnRows(db, Apply(db, event), CallerOf(event))
  {
    hide BrokenRule, NewTerms, PickCode, CodeTaken, ParamsOf;
  }

  lemma PublishIsOwn(db: Db, now: int, orgId: nat, card: nat)
    requires Named(db.products, db.cards) && orgId != 0
    ensures var after := Publish(db, now, orgId, card).0;
      Named(after.products, after.cards) && OnlyOwnRows(db, after, orgId)
  {
  }

  // ---------------------------------------------------------------------------------------------
  // Terms are the last word on each field
  // ---------------------------------------------------------------------------------------------

  /** What an event that succeeds says about a card. */
  function SaidOf(db: Db, event: Event, card: nat): seq<Fields> {
    match event
    case CreatesDraft(orgId, product, fields) =>
      if CreateDraft(db, orgId, product, fields).1 == Ok(card) then [fields] else []
    case UpdatesDraft(orgId, updated, fields) =>
      if updated == card && UpdateDraft(db, orgId, card, fields).1.Ok? then [fields] else []
    case CreatesBespoke(now, orgId, draws, name, description, owner, fields) =>
      if card == |db.cards| && CreateBespoke(db, now, orgId, draws, name, description, owner, fields).1.Ok?
      then [fields] else []
    case _ => []
  }

  function Said(events: seq<Event>, card: nat): seq<Fields> {
    if events == [] then []
    else
      var init := events[..|events| - 1];
      Said(init, card) + SaidOf(Run(EMPTY, init), events[|events| - 1], card)
  }

  /** The last value that was said for a field. */
  function Latest<F, T>(said: seq<F>, field: F -> Option<T>): Option<T> {
    if said == [] then None
    else if field(said[|said| - 1]).Some? then field(said[|said| - 1])
    else Latest(said[..|said| - 1], field)
  }

  function Default<T>(value: Option<T>, default: T): T {
    match value
    case None => default
    case Some(given) => given
  }

  /** Each field has the last value said for it, or its default. */
  ghost predicate LastWord(terms: Terms, said: seq<Fields>) {
    && terms.minTenure == Default(Latest(said, (f: Fields) => f.minTenure), 30)
    && terms.maxTenure == Default(Latest(said, (f: Fields) => f.maxTenure), 360)
    && terms.apr == Latest(said, (f: Fields) => f.apr)
    && terms.advance == Latest(said, (f: Fields) => f.advance)
    && terms.discount == Latest(said, (f: Fields) => f.discount)
    && terms.adminFee == Default(Latest(said, (f: Fields) => f.adminFee), 0.0)
    && terms.reserve == Default(Latest(said, (f: Fields) => f.reserve), 0.0)
    && terms.formula == Latest(said, (f: Fields) => f.formula)
    && terms.variables == Latest(said, (f: Fields) => f.variables)
  }

  lemma LatestAppend<F, T>(said: seq<F>, fields: F, field: F -> Option<T>)
    ensures Latest(said + [fields], field) == if field(fields).Some? then field(fields) else Latest(said, field)
  {
    assert (said + [fields])[..|said|] == said;
  }

  lemma LatestOfOne<F, T>(fields: F, field: F -> Option<T>)
    ensures Latest([fields], field) == field(fields)
  {
    assert [] + [fields] == [fields];
    LatestAppend([], fields, field);
  }

  lemma FirstWord(fields: Fields)
    ensures LastWord(NewTerms(fields), [fields])
  {
    hide Latest;
    LatestOfOne(fields, (f: Fields) => f.minTenure);
    LatestOfOne(fields, (f: Fields) => f.maxTenure);
    LatestOfOne(fields, (f: Fields) => f.apr);
    LatestOfOne(fields, (f: Fields) => f.advance);
    LatestOfOne(fields, (f: Fields) => f.discount);
    LatestOfOne(fields, (f: Fields) => f.adminFee);
    LatestOfOne(fields, (f: Fields) => f.reserve);
    LatestOfOne(fields, (f: Fields) => f.formula);
    LatestOfOne(fields, (f: Fields) => f.variables);
  }

  lemma NextWord(terms: Terms, said: seq<Fields>, fields: Fields)
    requires LastWord(terms, said)
    ensures LastWord(Amended(terms, fields), said + [fields])
  {
    hide Latest;
    LatestAppend(said, fields, (f: Fields) => f.minTenure);
    LatestAppend(said, fields, (f: Fields) => f.maxTenure);
    LatestAppend(said, fields, (f: Fields) => f.apr);
    LatestAppend(said, fields, (f: Fields) => f.advance);
    LatestAppend(said, fields, (f: Fields) => f.discount);
    LatestAppend(said, fields, (f: Fields) => f.adminFee);
    LatestAppend(said, fields, (f: Fields) => f.reserve);
    LatestAppend(said, fields, (f: Fields) => f.formula);
    LatestAppend(said, fields, (f: Fields) => f.variables);
  }

  /** A step leaves the terms of a card, writes them anew, or amends them, as what it says tells. */
  lemma StepSays(db: Db, event: Event, card: nat)
    requires card < |Apply(db, event).cards|
    ensures |db.cards| <= |Apply(db, event).cards|
    ensures var terms, said := Apply(db, event).cards[card].terms, SaidOf(db, event, card);
      if said == [] then card < |db.cards| && terms == db.cards[card].terms
      else && |said| == 1
           && terms == if card < |db.cards| then Amended(db.cards[card].terms, said[0]) else NewTerms(said[0])
  {
    hide NewTerms, Amended, BrokenRule, LatestVersion, PickCode, CodeTaken, ParamsOf;
  }

  lemma {:induction false} NothingSaidBefore(events: seq<Event>, card: nat)
    requires card >= |Run(EMPTY, events).cards|
    ensures Said(events, card) == []
  {
    if events != [] {
      var init := events[..|events| - 1];
      RunSplits(EMPTY, init, events[|events| - 1]);
      assert init + [events[|events| - 1]] == events;
      hide Run, Apply, SaidOf;
      SaysOnlyOfCards(Run(EMPTY, init), events[|events| - 1], card);
      NothingSaidBefore(init, card);
    }
  }

  lemma SaysOnlyOfCards(db: Db, event: Event, card: nat)
    requires card >= |Apply(db, event).cards|
    ensures card >= |db.cards| && SaidOf(db, event, card) == []
  {
    hide NewTerms, Amended, BrokenRule, LatestVersion, PickCode, CodeTaken, ParamsOf;
  }

  lemma {:induction false} RunSplits(db: Db, events: seq<Event>, event: Event)
    ensures Run(db, events + [event]) == Apply(Run(db, events), event)
    decreases |events|
  {
    hide Apply;
    if events == [] {
      assert Run(Apply(db, event), []) == Apply(db, event);
      assert [] + [event] == [event] && [event][1..] == [];
    } else {
      assert (events + [event])[1..] == events[1..] + [event];
      RunSplits(Apply(db, events[0]), events[1..], event);
    }
  }

  /** In every history the terms of a card are the last word that was accepted on each field, or the default. */
  lemma {:induction false} TermsAreTheLastWord(events: seq<Event>, card: nat)
    requires card < |Run(EMPTY, events).cards|
    ensures LastWord(Run(EMPTY, events).cards[card].terms, Said(events, card))
    decreases |events|
  {
    if events != [] {
      var init, event := events[..|events| - 1], events[|events| - 1];
      assert init + [event] == events;
      RunSplits(EMPTY, init, event);
      var db := Run(EMPTY, init);
      hide Run, Apply, SaidOf, LastWord, NewTerms, Amended;
      StepSays(db, event, card);
      var said := SaidOf(db, event, card);
      if card < |db.cards| {
        TermsAreTheLastWord(init, card);
        if said != [] {
          NextWord(db.cards[card].terms, Said(init, card), said[0]);
          assert said == [said[0]];
        } else {
          assert Said(init, card) + [] == Said(init, card);
        }
      } else {
        NothingSaidBefore(init, card);
        FirstWord(said[0]);
        assert [] + said == [said[0]];
      }
    }
  }

  // ---------------------------------------------------------------------------------------------
  // Products, and the dates of publication
  // ---------------------------------------------------------------------------------------------

  /** What a request says about the fields of a product that may change. */
  datatype Description = Description(name: Option<string>, description: Option<string>, active: Option<bool>)

  /** The event created product `p`, under the funder, the code and the owner that it has. */
  predicate CreatedBy(db: Db, event: Event, p: nat, product: Product) {
    match event
    case CreatesProduct(orgId, code, _, _) =>
      && p == |db.products| && orgId == product.funder && code == product.code
      && !product.bespoke && product.owner == None
    case CreatesBespoke(_, orgId, draws, _, _, owner, _) =>
      && p == |db.products| && orgId == product.funder && product.code == PickCode(db.products, orgId, draws)
      && product.bespoke && product.owner == Some(owner)
    case _ => false
  }

  function Describes(event: Event): Description {
    match event
    case CreatesProduct(_, _, name, description) => Description(Some(name), description, Some(true))
    case CreatesBespoke(_, _, _, name, description, _, _) => Description(Some(name), description, Some(true))
    case UpdatesProduct(_, _, name, description, active) => Description(name, description, active)
    case _ => Description(None, None, None)
  }

  /** What an event that succeeds says about a product. */
  function DescriptionOf(db: Db, event: Event, p: nat): seq<Description> {
    match event
    case UpdatesProduct(orgId, updated, _, _, _) =>
      if updated == p && Owns(db, orgId, p) then [Describes(event)] else []
    case _ => if |db.products| == p < |Apply(db, event).products| then [Describes(event)] else []
  }

  function Described(events: seq<Event>, p: nat): seq<Description> {
    if events == [] then []
    else
      var init := events[..|events| - 1];
      Described(init, p) + DescriptionOf(Run(EMPTY, init), events[|events| - 1], p)
  }

  ghost predicate WasCreated(events: seq<Event>, p: nat, product: Product) {
    exists k :: 0 <= k < |events| && CreatedBy(Run(EMPTY, events[..k]), events[k], p, product)
  }

  /** The changing fields have the last value that was said. */
  ghost predicate IsDescribed(product: Product, said: seq<Description>) {
    && Some(product.name) == Latest(said, (d: Description) => d.name)
    && product.description == Latest(said, (d: Description) => d.description)
    && Some(product.active) == Latest(said, (d: Description) => d.active)
  }

  lemma NextDescription(before: Product, after: Product, said: seq<Description>, next: Description)
    requires IsDescribed(before, said)
    requires after.name == Default(next.name, before.name) && after.active == Default(next.active, before.active)
    requires after.description == if next.description.Some? then next.description else before.description
    ensures IsDescribed(after, said + [next])
  {
    hide Latest;
    LatestAppend(said, next, (d: Description) => d.name);
    LatestAppend(said, next, (d: Description) => d.description);
    LatestAppend(said, next, (d: Description) => d.active);
  }

  lemma FirstDescription(product: Product, next: Description)
    requires next == Description(Some(product.name), product.description, Some(product.active))
    ensures IsDescribed(product, [next])
  {
    hide Latest;
    LatestOfOne(next, (d: Description) => d.name);
    LatestOfOne(next, (d: Description) => d.description);
    LatestOfOne(next, (d: Description) => d.active);
  }

  lemma StepDescribes(db: Db, event: Event, p: nat)
    requires p < |Apply(db, event).products|
    ensures |db.products| <= |Apply(db, event).products|
    ensures var product, said := Apply(db, event).products[p], DescriptionOf(db, event, p);
      if p >= |db.products| then
        && CreatedBy(db, event, p, product)
        && said == [Description(Some(product.name), product.description, Some(product.active))]
      else
        && SameIdentity(db.products[p], product)
        && (if said == [] then product == db.products[p]
            else && |said| == 1 && product.name == Default(said[0].name, db.products[p].name)
                 && product.active == Default(said[0].active, db.products[p].active)
                 && product.description
                    == if said[0].description.Some? then said[0].description else db.products[p].description)
  {
    hide NewTerms, Amended, BrokenRule, LatestVersion, PickCode, CodeTaken, ParamsOf, FindPublished;
  }

  lemma {:induction false} NothingDescribedBefore(events: seq<Event>, p: nat)
    requires p >= |Run(EMPTY, events).products|
    ensures Described(events, p) == []
  {
    if events != [] {
      var init := events[..|events| - 1];
      RunSplits(EMPTY, init, events[|events| - 1]);
      assert init + [events[|events| - 1]] == events;
      hide Run, Apply, DescriptionOf;
      DescribesOnlyProducts(Run(EMPTY, init), events[|events| - 1], p);
      NothingDescribedBefore(init, p);
    }
  }

  lemma DescribesOnlyProducts(db: Db, event: Event, p: nat)
    requires p >= |Apply(db, event).products|
    ensures p >= |db.products| && DescriptionOf(db, event, p) == []
  {
    hide NewTerms, Amended, BrokenRule, LatestVersion, PickCode, CodeTaken, ParamsOf, FindPublished;
  }

  lemma LongerRunCreates(init: seq<Event>, event: Event, p: nat, product: Product)
    ensures WasCreated(init, p, product) || CreatedBy(Run(EMPTY, init), event, p, product) ==>
              WasCreated(init + [event], p, product)
  {
    hide Run, CreatedBy;
    var events := init + [event];
    assert events[|init|] == event && events[..|init|] == init;
    assert forall k :: 0 <= k < |init| ==> events[k] == init[k] && events[..k] == init[..k];
  }

  lemma SameCreation(events: seq<Event>, p: nat, a: Product, b: Product)
    requires SameIdentity(a, b)
    ensures WasCreated(events, p, a) <==> WasCreated(events, p, b)
  {
    hide Run, PickCode;
  }

  /** In every history a product has the funder, the code and the owner of the request that created it, and the name,
      the description and the active flag that were said last. */
  lemma {:induction false} ProductIsTold(events: seq<Event>, p: nat)
    requires p < |Run(EMPTY, events).products|
    ensures var product := Run(EMPTY, events).products[p];
      WasCreated(events, p, product) && IsDescribed(product, Described(events, p))
    decreases |events|
  {
    if events != [] {
      var init, event := events[..|events| - 1], events[|events| - 1];
      assert init + [event] == events;
      RunSplits(EMPTY, init, event);
      var db := Run(EMPTY, init);
      var product := Apply(db, event).products[p];
      hide Run, Apply, DescriptionOf, IsDescribed, WasCreated, CreatedBy, SameIdentity;
      StepDescribes(db, event, p);
      LongerRunCreates(init, event, p, product);
      var said := DescriptionOf(db, event, p);
      if p < |db.products| {
        ProductIsTold(init, p);
        SameCreation(init, p, db.products[p], product);
        if said != [] {
          NextDescription(db.products[p], product, Described(init, p), said[0]);
          assert said == [said[0]];
        } else {
          assert Described(init, p) + [] == Described(init, p);
        }
      } else {
        NothingDescribedBefore(init, p);
        FirstDescription(product, said[0]);
        assert [] + said == [said[0]];
      }
    }
  }

  /** The event published the card at that time. */
  predicate PublishedBy(db: Db, event: Event, card: nat, at: int) {
    match event
    case Publishes(now, _, published) => published == card && now == at
    case CreatesBespoke(now, _, _, _, _, _, _) => card == |db.cards| && now == at
    case _ => false
  }

  ghost predicate WasPublished(events: seq<Event>, card: nat, at: int) {
    exists k :: 0 <= k < |events| && PublishedBy(Run(EMPTY, events[..k]), events[k], card, at)
  }

  /** A card is dated from its publication on. */
  predicate Dated(card: Card) {
    card.status == DRAFT <==> card.publishedAt == None
  }

  lemma StepDates(db: Db, event: Event, card: nat)
    requires card < |Apply(db, event).cards| && (card < |db.cards| ==> Dated(db.cards[card]))
    ensures |db.cards| <= |Apply(db, event).cards|
    ensures var row := Apply(db, event).cards[card];
      && Dated(row)
      && (row.publishedAt.Some? ==> || (card < |db.cards| && row.publishedAt == db.cards[card].publishedAt)
                                    || PublishedBy(db, event, card, row.publishedAt.value))
  {
    hide NewTerms, Amended, BrokenRule, LatestVersion, PickCode, CodeTaken, ParamsOf;
    if event.Publishes? {
      PublishDates(db, event.now, event.orgId, event.card, card);
    }
  }

  lemma PublishDates(db: Db, now: int, orgId: nat, published: nat, card: nat)
    requires card < |db.cards|
    ensures var after := Publish(db, now, orgId, published).0;
      && |after.cards| == |db.cards|
      && (if card == published && Publish(db, now, orgId, published).1.Ok? then
            db.cards[card].status == DRAFT && after.cards[card].publishedAt == Some(now)
            && after.cards[card].status == PUBLISHED
          else after.cards[card].publishedAt == db.cards[card].publishedAt
               && (after.cards[card].status == DRAFT <==> db.cards[card].status == DRAFT))
  {
    hide ParamsOf;
  }

  lemma LongerRunDates(init: seq<Event>, event: Event, card: nat, at: int)
    ensures WasPublished(init, card, at) || PublishedBy(Run(EMPTY, init), event, card, at) ==>
              WasPublished(init + [event], card, at)
  {
    hide Run, PublishedBy;
    var events := init + [event];
    assert events[|init|] == event && events[..|init|] == init;
    assert forall k :: 0 <= k < |init| ==> events[k] == init[k] && events[..k] == init[..k];
  }
  /** In every history a card has a date exactly when it is no longer a draft, and it is that of its publication. */
  lemma {:induction false} CardIsDated(events: seq<Event>, card: nat)
    requires card < |Run(EMPTY, events).cards|
    ensures var row := Run(EMPTY, events).cards[card];
      Dated(row) && (row.publishedAt.Some? ==> WasPublished(events, card, row.publishedAt.value))
    decreases |events|
  {
    if events != [] {
      var init, event := events[..|events| - 1], events[|events| - 1];
      assert init + [event] == events;
      RunSplits(EMPTY, init, event);
      var db := Run(EMPTY, init);
      var row := Apply(db, event).cards[card];
      hide Run, Apply, Dated, WasPublished, PublishedBy;
      if card < |db.cards| {
        CardIsDated(init, card);
      }
      StepDates(db, event, card);
      if row.publishedAt.Some? {
        LongerRunDates(init, event, card, row.publishedAt.value);
      }
    }
  }

  // ---------------------------------------------------------------------------------------------
  // What an announcement repeats
  // ---------------------------------------------------------------------------------------------

  lemma EmptyIsTrue()
    ensures Truthful(EMPTY)
  {
  }

  /** Every announcement ever made still repeats its card, parameter by parameter, and the card's product. */
  lemma PublicationRepeatsCard(events: seq<Event>, k: nat)
    requires k < |Run(EMPTY, events).outbox| && Run(EMPTY, events).outbox[k].RateCardPublished?
    ensures var db := Run(EMPTY, events);
      var event := db.outbox[k];
      && event.card < |db.cards| && event.product < |db.products|
      && var card, product, params := db.cards[event.card], db.products[event.product], event.params;
         && card.status != DRAFT && card.product == event.product && card.version == event.version
         && product.code == event.code && product.funder == event.funder
         && params.apr == card.terms.apr && params.advance == card.terms.advance
         && params.discount == card.terms.discount && params.adminFee == card.terms.adminFee
         && params.reserve == card.terms.reserve && params.minTenure == card.terms.minTenure
         && params.maxTenure == card.terms.maxTenure
  {
    EmptyIsTrue();
    RunKeepsTruth(EMPTY, events);
    hide Run;
    var db := Run(EMPTY, events);
    assert EventTrue(db, db.outbox[k]);
  }

  // ---------------------------------------------------------------------------------------------
  // From the request to the assignment
  // ---------------------------------------------------------------------------------------------

  /** The assignment has the terms asked for when the card was written. */
  predicate Grants(assignment: Assignment, fields: Fields) {
    && Some(assignment.apr) == fields.apr && assignment.advance == fields.advance
    && assignment.discount == fields.discount
    && assignment.adminFee == Default(fields.adminFee, 0.0) && assignment.reserve == Default(fields.reserve, 0.0)
    && assignment.tenureLimit == Default(fields.maxTenure, 360)
  }

  lemma LastIsPublished(cards: seq<Card>, card: Card)
    requires card.status == PUBLISHED && forall c :: 0 <= c < |cards| ==> cards[c].product != card.product
    ensures FindPublished(cards + [card], card.product) == Some(|cards|)
  {
    var longer := cards + [card];
    assert IsPublished(longer[|cards|], card.product);
    assert forall c :: 0 <= c < |cards| ==> longer[c] == cards[c];
  }

  /** A bespoke product is as its request says, is published at once, and can be assigned to its owner and to nobody
      else, on the terms asked for. */
  lemma BespokeIsAsAsked(db: Db, now: int, orgId: nat, draws: Draws, name: string, description: Option<string>,
                         owner: nat, fields: Fields, organization: nat)
    requires Named(db.products, db.cards)
    requires CreateBespoke(db, now, orgId, draws, name, description, owner, fields).1.Ok?
    ensures var (made, result) := CreateBespoke(db, now, orgId, draws, name, description, owner, fields);
      var p := result.value;
      var (after, granted) := Assign(made, orgId, p, organization);
      && orgId != 0 && p == |db.products| && |made.products| == p + 1 && |made.cards| == |db.cards| + 1
      && made.products[p].name == name && made.products[p].description == description
      && made.products[p].funder == orgId && made.products[p].active
      && made.cards[|db.cards|].version == 1 && made.cards[|db.cards|].publishedAt == Some(now)
      && (granted.Ok? <==> organization == owner && fields.apr.Some?)
      && (granted.Ok? ==> |after.assignments| == |made.assignments| + 1
                          && var assignment := after.assignments[|made.assignments|];
                             && assignment.organization == organization && assignment.product == p
                             && assignment.card == |db.cards| && assignment.version == 1
                             && assignment.funder == orgId && Grants(assignment, fields))
  {
    hide PickCode, CodeTaken, BrokenRule, FindPublished, ParamsOf;
    var made := CreateBespoke(db, now, orgId, draws, name, description, owner, fields).0;
    assert made.cards == db.cards + [made.cards[|db.cards|]];
    LastIsPublished(db.cards, made.cards[|db.cards|]);
  }

  lemma {:induction false} NoVersions(cards: seq<Card>, product: nat)
    requires forall c :: 0 <= c < |cards| ==> cards[c].product != product
    ensures LatestVersion(cards, product) == 0
  {
    if cards != [] {
      NoVersions(cards[..|cards| - 1], product);
    }
  }

  /** A new product, a draft for it and its publication: the card has version 1 and the time of its publication, and the
      product can be assigned to any organization, on the terms of the draft. */
  lemma StandardIsAsAsked(db: Db, orgId: nat, code: string, name: string, description: Option<string>, fields: Fields,
                          now: int, organization: nat)
    requires Named(db.products, db.cards)
    requires CreateStandard(db, orgId, code, name, description).1.Ok? && Allowed(code, fields, 30, 360)
    ensures var (made, p) := CreateStandard(db, orgId, code, name, description);
      var (drafted, c) := CreateDraft(made, orgId, p.value, fields);
      && p == Ok(|db.products|) && c == Ok(|db.cards|)
      && var (published, result) := Publish(drafted, now, orgId, c.value);
         var (after, granted) := Assign(published, orgId, p.value, organization);
         && result.Ok? && p.value < |published.products| && c.value < |published.cards|
         && published.products[p.value] == Product(code, name, description, false, None, orgId, true)
         && published.cards[c.value].version == 1 && published.cards[c.value].publishedAt == Some(now)
         && (granted.Ok? <==> fields.apr.Some?)
         && (granted.Ok? ==> |after.assignments| == |db.assignments| + 1
                             && after.assignments[|db.assignments|].organization == organization
                             && Grants(after.assignments[|db.assignments|], fields))
  {
    var (made, p) := CreateStandard(db, orgId, code, name, description);
    DraftSucceedsIff(made, orgId, |db.products|, fields);
    NoVersions(db.cards, |db.products|);
    NothingPublishedYet(db.cards, Card(|db.products|, 1, DRAFT, NewTerms(fields), None));
    hide CodeTaken, BrokenRule, FindPublished, ParamsOf, LatestVersion;
    LastIsPublished(db.cards, Card(|db.products|, 1, PUBLISHED, NewTerms(fields), Some(now)));
    var drafted := CreateDraft(made, orgId, |db.products|, fields).0;
    assert drafted.cards == db.cards + [Card(|db.products|, 1, DRAFT, NewTerms(fields), None)];
    var published := Publish(drafted, now, orgId, |db.cards|).0;
    assert published.cards == db.cards + [Card(|db.products|, 1, PUBLISHED, NewTerms(fields), Some(now))];
  }

  lemma NothingPublishedYet(cards: seq<Card>, draft: Card)
    requires draft.status == DRAFT && forall c :: 0 <= c < |cards| ==> cards[c].product != draft.product
    ensures FindPublished(cards + [draft], draft.product).None?
  {
    var longer := cards + [draft];
    assert forall c :: 0 <= c < |cards| ==> longer[c] == cards[c];
    assert forall c :: 0 <= c < |longer| ==> !IsPublished(longer[c], draft.product);
  }

  // ---------------------------------------------------------------------------------------------
  // Bespoke codes
  // ---------------------------------------------------------------------------------------------

  function ReadDigits(text: string): int {
    if text == "" then 0 else 10 * ReadDigits(text[..|text| - 1]) + (text[|text| - 1] as int - '0' as int)
  }

  function TenTo(width: nat): (power: nat)
    ensures power > 0
  {
    if width == 0 then 1 else 10 * TenTo(width - 1)
  }

  lemma {:induction false} DigitsReadBack(n: nat, width: nat)
    requires n < TenTo(width)
    ensures ReadDigits(Digits(n, width)) == n
    decreases width
  {
    if width > 0 {
      DigitsReadBack(n / 10, width - 1);
    }
  }

  /** A code is CST_ and six digits, those of the number drawn. */
  lemma CodeReadsBack(draw: nat)
    requires draw < 1_000_000
    ensures var code := BespokeCode(draw); |code| == 10 && code[..4] == "CST_" && ReadDigits(code[4..]) == draw
  {
    assert TenTo(6) == 1_000_000 by {
      assert TenTo(2) == 100 && TenTo(4) == 10000;
    }
    DigitsReadBack(draw, 6);
    hide Digits, TenTo, ReadDigits;
    assert BespokeCode(draw)[4..] == Digits(draw, 6);
  }

  /** The code is that of the first of five numbers whose code is free for the funder, or of the last. */
  lemma {:induction false} FirstFreeIsPicked(products: seq<Product>, funder: nat, draws: seq<nat>)
    requires draws != []
    ensures exists i :: && 0 <= i < |draws| && PickCode(products, funder, draws) == BespokeCode(draws[i])
                        && (forall j :: 0 <= j < i ==> CodeTaken(products, funder, BespokeCode(draws[j])))
                        && (i == |draws| - 1 || !CodeTaken(products, funder, BespokeCode(draws[i])))
  {
    hide BespokeCode, CodeTaken;
    if |draws| == 1 || !CodeTaken(products, funder, BespokeCode(draws[0])) {
      assert PickCode(products, funder, draws) == BespokeCode(draws[0]);
    } else {
      var rest := draws[1..];
      FirstFreeIsPicked(products, funder, rest);
      var i :| && 0 <= i < |rest| && PickCode(products, funder, rest) == BespokeCode(rest[i])
               && (forall j :: 0 <= j < i ==> CodeTaken(products, funder, BespokeCode(rest[j])))
               && (i == |rest| - 1 || !CodeTaken(products, funder, BespokeCode(rest[i])));
      assert draws[i + 1] == rest[i];
      assert forall j :: 0 < j < i + 1 ==> draws[j] == rest[j - 1];
    }
  }

  lemma FiveAreDrawn(draws: Draws)
    ensures |draws| == 5
  {
  }

  lemma PickedIsFree(products: seq<Product>, funder: nat, draws: seq<nat>)
    requires draws != []
    ensures !CodeTaken(products, funder, PickCode(products, funder, draws))
       <==> exists i :: 0 <= i < |draws| && !CodeTaken(products, funder, BespokeCode(draws[i]))
  {
    hide CodeTaken, BespokeCode, PickCode;
    FirstFreeIsPicked(products, funder, draws);
    var i :| && 0 <= i < |draws| && PickCode(products, funder, draws) == BespokeCode(draws[i])
             && (forall j :: 0 <= j < i ==> CodeTaken(products, funder, BespokeCode(draws[j])))
             && (i == |draws| - 1 || !CodeTaken(products, funder, BespokeCode(draws[i])));
  }

  lemma CustomRule(fields: Fields)
    ensures BrokenRule("CUSTOM", fields, None).None? <==> Allowed("", fields, 30, 360)
  {
  }

  /** A bespoke product is created if and only if the caller is a funder, its tenures are in order, and one of the five
      codes drawn is free; its advance is held to no range. */
  lemma BespokeSucceedsIff(db: Db, now: int, orgId: nat, draws: Draws, name: string, description: Option<string>,
                           owner: nat, fields: Fields)
    ensures CreateBespoke(db, now, orgId, draws, name, description, owner, fields).1.Ok?
       <==> && orgId != 0 && Allowed("", fields, 30, 360)
            && exists i :: 0 <= i < |draws| && !CodeTaken(db.products, orgId, BespokeCode(draws[i]))
  {
    PickedIsFree(db.products, orgId, draws);
    CustomRule(fields);
    hide CodeTaken, BespokeCode, PickCode, BrokenRule, Allowed, NewTerms, ParamsOf;
  }
}
