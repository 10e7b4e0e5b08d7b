/** What every run of the product configurator keeps: numbered versions, one published card per product,
    announcements and audit trails that match the cards, and assignments that stay equal to their card. */
module RateCardRuns {
  import opened Wrappers
  import opened RateCards

  datatype Event =
    | CreatesProduct(orgId: nat, code: string, name: string, description: Option<string>)
    | UpdatesProduct(orgId: nat, product: nat, newName: Option<string>, newDescription: Option<string>,
                     newActive: Option<bool>)
    | CreatesBespoke(now: int, orgId: nat, draws: Draws, name: string, description: Option<string>, owner: nat,
                     fields: Fields)
    | CreatesDraft(orgId: nat, product: nat, fields: Fields)
    | UpdatesDraft(orgId: nat, card: nat, fields: Fields)
    | Publishes(now: int, orgId: nat, card: nat)
    | Assigns(orgId: nat, product: nat, organization: nat)

  function Apply(db: Db, event: Event): Db {
    match event
    case CreatesProduct(orgId, code, name, description) => CreateStandard(db, orgId, code, name, description).0
    case UpdatesProduct(orgId, product, name, description, active) =>
      UpdateProduct(db, orgId, product, name, description, active).0
    case CreatesBespoke(now, orgId, draws, name, description, owner, fields) =>
      CreateBespoke(db, now, orgId, draws, name, description, owner, fields).0
    case CreatesDraft(orgId, product, fields) => CreateDraft(db, orgId, product, fields).0
    case UpdatesDraft(orgId, card, fields) => UpdateDraft(db, orgId, card, fields).0
    case Publishes(now, orgId, card) => Publish(db, now, orgId, card).0
    case Assigns(orgId, product, organization) => Assign(db, orgId, product, organization).0
  }

  function Run(db: Db, events: seq<Event>): Db
    decreases |events|
  {
    if events == [] then db else Run(Apply(db, events[0]), events[1..])
  }

  const EMPTY := Db([], [], [], [], [])

  // ---------------------------------------------------------------------------------------------
  // The invariant
  // ---------------------------------------------------------------------------------------------

  ghost predicate Named(products: seq<Product>, cards: seq<Card>) {
    forall c :: 0 <= c < |cards| ==> cards[c].product < |products|
  }

  ghost predicate CodesUnique(products: seq<Product>) {
    forall p, q :: 0 <= p < q < |products| && products[p].funder == products[q].funder
      ==> products[p].code != products[q].code
  }

  function CountOf(cards: seq<Card>, product: nat): nat {
    if cards == [] then 0
    else CountOf(cards[..|cards| - 1], product) + if cards[|cards| - 1].product == product then 1 else 0
  }

  /** The versions of a product are 1, 2, 3, ... in the order of creation. */
  ghost predicate Numbered(cards: seq<Card>) {
    forall c :: 0 <= c < |cards| ==> cards[c].version == CountOf(cards[..c], cards[c].product) + 1
  }

  ghost predicate Live(cards: seq<Card>, product: nat) {
    exists c :: 0 <= c < |cards| && IsPublished(cards[c], product)
  }

  ghost predicate AtMostOneLive(cards: seq<Card>) {
    forall c, d ::
      (0 <= c < |cards| && 0 <= d < |cards| && cards[c].status == PUBLISHED && IsPublished(cards[d], cards[c].product))
        ==> c == d
  }

  /** A product keeps a published card from its first publication on. */
  ghost predicate LiveOncePublished(cards: seq<Card>) {
    forall c :: 0 <= c < |cards| && cards[c].status != DRAFT ==> Live(cards, cards[c].product)
  }

  /** A bespoke product is never without a published card. */
  ghost predicate BespokeLive(products: seq<Product>, cards: seq<Card>) {
    forall p :: 0 <= p < |products| && products[p].bespoke ==> Live(cards, p)
  }

  predicate WithinRules(code: string, terms: Terms) {
    && terms.minTenure <= terms.maxTenure
    && (code == "IF" && terms.advance.Some? ==> 0.8 <= terms.advance.value <= 0.95)
  }

  ghost predicate RulesKept(products: seq<Product>, cards: seq<Card>)
    requires Named(products, cards)
  {
    forall c :: 0 <= c < |cards| ==> WithinRules(products[cards[c].product].code, cards[c].terms)
  }

  /** The newest announcement of a product. */
  function LastPublication(outbox: seq<OutboxEvent>, product: nat): Option<OutboxEvent> {
    if outbox == [] then None
    else
      var last := outbox[|outbox| - 1];
      if last.RateCardPublished? && last.product == product then Some(last)
      else LastPublication(outbox[..|outbox| - 1], product)
  }

  function Announcement(products: seq<Product>, cards: seq<Card>, c: nat): OutboxEvent
    requires c < |cards| && cards[c].product < |products|
  {
    var row := cards[c];
    var product := products[row.product];
    RateCardPublished(c, row.product, product.code, row.version, product.funder, ParamsOf(row.terms))
  }

  /** Whoever keeps the newest announcement of each product holds the published cards, and nothing else. */
  ghost predicate Announced(products: seq<Product>, cards: seq<Card>, outbox: seq<OutboxEvent>)
    requires Named(products, cards)
  {
    && (forall c :: 0 <= c < |cards| && cards[c].status == PUBLISHED
          ==> LastPublication(outbox, cards[c].product) == Some(Announcement(products, cards, c)))
    && (forall p: nat :: LastPublication(outbox, p).Some? ==> Live(cards, p))
  }

  /** What the audit rows of one card tell: nothing, its terms, or a trail that does not join up. */
  datatype Trail = Silent | At(terms: Terms) | Broken

  function Extended(trail: Trail, entry: Audit, card: nat): Trail {
    match entry
    case CardCreated(c, _, fields) =>
      if c != card then trail else if trail == Silent then At(NewTerms(fields)) else Broken
    case CardUpdated(c, oldTerms, newTerms) =>
      if c != card then trail else if trail == At(oldTerms) then At(newTerms) else Broken
    case _ => trail
  }

  function TrailOf(audit: seq<Audit>, card: nat): Trail {
    if audit == [] then Silent
    else Extended(TrailOf(audit[..|audit| - 1], card), audit[|audit| - 1], card)
  }

  /** The first card of a bespoke product is written without an audit row of its own. */
  predicate BornPublished(products: seq<Product>, card: Card)
    requires card.product < |products|
  {
    products[card.product].bespoke && card.version == 1
  }

  ghost predicate Audited(products: seq<Product>, cards: seq<Card>, audit: seq<Audit>)
    requires Named(products, cards)
  {
    && (forall c :: 0 <= c < |cards| ==>
          TrailOf(audit, c) == if BornPublished(products, cards[c]) then Silent else At(cards[c].terms))
    && (forall c :: 0 <= c < |cards| && BornPublished(products, cards[c]) ==> cards[c].status != DRAFT)
    && (forall c: nat :: c >= |cards| ==> TrailOf(audit, c) == Silent)
  }

  /** The assignment repeats its card field by field. */
  predicate Copies(assignment: Assignment, card: Card) {
    && assignment.product == card.product && assignment.version == card.version
    && card.terms.apr == Some(assignment.apr) && card.terms.advance == assignment.advance
    && card.terms.discount == assignment.discount && card.terms.adminFee == assignment.adminFee
    && card.terms.reserve == assignment.reserve && card.terms.maxTenure == assignment.tenureLimit
  }

  /** An assignment names a card that was published, copies it, and belongs to whoever may hold the product. */
  predicate Sound(products: seq<Product>, cards: seq<Card>, assignment: Assignment) {
    && assignment.card < |cards|
    && cards[assignment.card].status != DRAFT
    && Copies(assignment, cards[assignment.card])
    && assignment.product < |products|
    && assignment.funder == products[assignment.product].funder
    && (products[assignment.product].bespoke ==> products[assignment.product].owner == Some(assignment.organization))
  }

  ghost predicate Snapshotted(products: seq<Product>, cards: seq<Card>, assignments: seq<Assignment>) {
    forall a :: 0 <= a < |assignments| ==> Sound(products, cards, assignments[a])
  }

  ghost predicate CardsInv(cards: seq<Card>) {
    Numbered(cards) && AtMostOneLive(cards) && LiveOncePublished(cards)
  }

  ghost predicate Inv(db: Db) {
    && Named(db.products, db.cards)
    && CodesUnique(db.products)
    && CardsInv(db.cards)
    && BespokeLive(db.products, db.cards)
    && RulesKept(db.products, db.cards)
    && Announced(db.products, db.cards, db.outbox)
    && Audited(db.products, db.cards, db.audit)
    && Snapshotted(db.products, db.cards, db.assignments)
  }

  // ---------------------------------------------------------------------------------------------
  // What only grows
  // ---------------------------------------------------------------------------------------------

  /** The fields of a product that nothing writes again. */
  predicate SameIdentity(a: Product, b: Product) {
    a.code == b.code && a.bespoke == b.bespoke && a.owner == b.owner && a.funder == b.funder
  }

  ghost predicate ProductsKept(a: seq<Product>, b: seq<Product>) {
    && |a| <= |b|
    && (forall p :: 0 <= p < |a| ==> SameIdentity(a[p], b[p]))
  }

  function Rank(status: Status): nat {
    match status case DRAFT => 0 case PUBLISHED => 1 case ARCHIVED => 2
  }

  /** A card only moves forward, and its terms are frozen once it has left DRAFT. */
  predicate MovesForward(a: Card, b: Card) {
    && a.product == b.product && a.version == b.version && Rank(a.status) <= Rank(b.status)
    && (a.status != DRAFT ==> a.terms == b.terms && a.publishedAt == b.publishedAt)
  }

  ghost predicate CardsKept(a: seq<Card>, b: seq<Card>) {
    && |a| <= |b|
    && (forall c :: 0 <= c < |a| ==> MovesForward(a[c], b[c]))
  }

  ghost predicate Evolves(a: Db, b: Db) {
    && ProductsKept(a.products, b.products)
    && CardsKept(a.cards, b.cards)
    && a.assignments <= b.assignments && a.audit <= b.audit && a.outbox <= b.outbox
  }

  lemma EvolvesTransitive(a: Db, b: Db, c: Db)
    requires Evolves(a, b) && Evolves(b, c)
    ensures Evolves(a, c)
  {
    forall p | 0 <= p < |a.products| ensures SameIdentity(a.products[p], c.products[p]) {
      assert SameIdentity(a.products[p], b.products[p]) && SameIdentity(b.products[p], c.products[p]);
    }
    forall i | 0 <= i < |a.cards| ensures MovesForward(a.cards[i], c.cards[i]) {
      assert MovesForward(a.cards[i], b.cards[i]) && MovesForward(b.cards[i], c.cards[i]);
    }
  }

  lemma StepEvolves(db: Db, event: Event)
    ensures Evolves(db, Apply(db, event))
    ensures forall c :: 0 <= c < |db.cards| ==> Rank(Apply(db, event).cards[c].status) <= Rank(db.cards[c].status) + 1
  {
    hide Publish, CreateBespoke;
    match event
    case Publishes(now, orgId, card) => PublishEvolves(db, now, orgId, card);
    case CreatesBespoke(now, orgId, draws, name, description, owner, fields) =>
      BespokeEvolves(db, now, orgId, draws, name, description, owner, fields);
    case _ =>
  }

  lemma PublishEvolves(db: Db, now: int, orgId: nat, card: nat)
    ensures var after := Publish(db, now, orgId, card).0;
      Evolves(db, after)
      && forall c :: 0 <= c < |db.cards| ==> Rank(after.cards[c].status) <= Rank(db.cards[c].status) + 1
  {
  }

  lemma BespokeEvolves(db: Db, now: int, orgId: nat, draws: Draws, name: string, description: Option<string>,
                       owner: nat, fields: Fields)
    ensures var after := CreateBespoke(db, now, orgId, draws, name, description, owner, fields).0;
      Evolves(db, after) && db.cards <= after.cards
  {
  }

  // ---------------------------------------------------------------------------------------------
  // Counting and finding
  // ---------------------------------------------------------------------------------------------

  lemma {:induction false} CountSame(a: seq<Card>, b: seq<Card>, product: nat)
    requires |a| == |b| && forall c :: 0 <= c < |a| ==> a[c].product == b[c].product
    ensures CountOf(a, product) == CountOf(b, product)
  {
    if a != [] {
      CountSame(a[..|a| - 1], b[..|b| - 1], product);
    }
  }

  lemma {:induction false} CountIsLatest(cards: seq<Card>, product: nat)
    requires Numbered(cards)
    ensures LatestVersion(cards, product) == CountOf(cards, product)
  {
    if cards != [] {
      var front := cards[..|cards| - 1];
      forall c | 0 <= c < |front| ensures front[c].version == CountOf(front[..c], front[c].product) + 1 {
        assert front[..c] == cards[..c] && front[c] == cards[c];
      }
      CountIsLatest(front, product);
    }
  }

  lemma {:induction false} NoCards(cards: seq<Card>, product: nat)
    requires forall c :: 0 <= c < |cards| ==> cards[c].product != product
    ensures CountOf(cards, product) == 0
  {
    if cards != [] {
      NoCards(cards[..|cards| - 1], product);
    }
  }

  lemma NumberedAppend(cards: seq<Card>, card: Card)
    requires Numbered(cards) && card.version == CountOf(cards, card.product) + 1
    ensures Numbered(cards + [card])
  {
    var longer := cards + [card];
    forall c | 0 <= c < |longer| ensures longer[c].version == CountOf(longer[..c], longer[c].product) + 1 {
      assert longer[..c] == cards[..c];
      assert c == |cards| ==> longer[..c] == cards;
    }
  }

  lemma NumberedSame(a: seq<Card>, b: seq<Card>)
    requires Numbered(a) && |a| == |b|
    requires forall c :: 0 <= c < |a| ==> a[c].product == b[c].product && a[c].version == b[c].version
    ensures Numbered(b)
  {
    forall c | 0 <= c < |b| ensures b[c].version == CountOf(b[..c], b[c].product) + 1 {
      CountSame(a[..c], b[..c], b[c].product);
    }
  }

  lemma LastAppend(outbox: seq<OutboxEvent>, event: OutboxEvent, product: nat)
    ensures LastPublication(outbox + [event], product)
         == if event.RateCardPublished? && event.product == product then Some(event)
            else LastPublication(outbox, product)
  {
    assert (outbox + [event])[..|outbox|] == outbox;
  }

  lemma TrailsAppend(audit: seq<Audit>, entry: Audit)
    ensures forall c: nat :: TrailOf(audit + [entry], c) == Extended(TrailOf(audit, c), entry, c)
  {
    forall c: nat ensures TrailOf(audit + [entry], c) == Extended(TrailOf(audit, c), entry, c) {
      TrailAppend(audit, entry, c);
    }
  }

  lemma TrailAppend(audit: seq<Audit>, entry: Audit, card: nat)
    ensures TrailOf(audit + [entry], card) == Extended(TrailOf(audit, card), entry, card)
  {
    assert (audit + [entry])[..|audit|] == audit;
  }

  // ---------------------------------------------------------------------------------------------
  // Every step keeps the invariant
  // ---------------------------------------------------------------------------------------------

  /** Rewriting products within their identity disturbs no card, announcement or assignment. */
  lemma ProductsFrame(db: Db, products: seq<Product>)
    requires Inv(db) && ProductsKept(db.products, products) && CodesUnique(products)
    requires forall p :: |db.products| <= p < |products| ==> !products[p].bespoke
    ensures Inv(db.(products := products))
  {
    var after := db.(products := products);
    assert forall p :: 0 <= p < |db.products| ==> SameIdentity(db.products[p], products[p]);
    assert Named(products, db.cards);
    assert Announced(products, db.cards, db.outbox);
    assert Audited(products, db.cards, db.audit);
    assert Snapshotted(products, db.cards, db.assignments) by {
      forall a | 0 <= a < |db.assignments| ensures Sound(products, db.cards, db.assignments[a]) {
        assert Sound(db.products, db.cards, db.assignments[a]);
      }
    }
  }

  /** Rows about anything but a card's terms leave the trails as they are. */
  lemma TrailsKept(products: seq<Product>, cards: seq<Card>, audit: seq<Audit>, entry: Audit)
    requires Named(products, cards) && Audited(products, cards, audit)
    requires !entry.CardCreated? && !entry.CardUpdated?
    ensures Audited(products, cards, audit + [entry])
  {
    TrailsAppend(audit, entry);
  }

  lemma AuditFrame(db: Db, entry: Audit)
    requires Inv(db) && !entry.CardCreated? && !entry.CardUpdated?
    ensures Inv(db.(audit := db.audit + [entry]))
  {
    TrailsKept(db.products, db.cards, db.audit, entry);
  }

  lemma OutboxFrame(db: Db, event: OutboxEvent)
    requires Inv(db) && !event.RateCardPublished?
    ensures Inv(db.(outbox := db.outbox + [event]))
  {
    forall p: nat ensures LastPublication(db.outbox + [event], p) == LastPublication(db.outbox, p) {
      LastAppend(db.outbox, event, p);
    }
  }

  lemma AppendKeepsUnique(products: seq<Product>, product: Product)
    requires CodesUnique(products) && !CodeTaken(products, product.funder, product.code)
    ensures CodesUnique(products + [product])
  {
  }

  lemma StandardKeeps(db: Db, orgId: nat, code: string, name: string, description: Option<string>)
    requires Inv(db)
    ensures Inv(CreateStandard(db, orgId, code, name, description).0)
  {
    if orgId != 0 && !CodeTaken(db.products, orgId, code) {
      var product := Product(code, name, description, false, None, orgId, true);
      AppendKeepsUnique(db.products, product);
      var mid := db.(products := db.products + [product]);
      ProductsFrame(db, mid.products);
      AuditFrame(mid, ProductCreated(|db.products|));
    }
  }

  lemma ProductUpdateKeeps(db: Db, orgId: nat, id: nat, name: Option<string>, description: Option<string>,
                           active: Option<bool>)
    requires Inv(db)
    ensures Inv(UpdateProduct(db, orgId, id, name, description, active).0)
  {
    if id < |db.products| && InScope(orgId, db.products[id].funder) {
      var after := UpdateProduct(db, orgId, id, name, description, active).0;
      ProductsFrame(db, after.products);
      AuditFrame(db.(products := after.products), after.audit[|db.audit|]);
    }
  }

  /** A card of a product is appended; the assignments keep their cards. */
  lemma CardsGrow(products: seq<Product>, cards: seq<Card>, more: seq<Card>, assignments: seq<Assignment>)
    requires Snapshotted(products, cards, assignments) && CardsKept(cards, more)
    ensures Snapshotted(products, more, assignments)
  {
    forall a | 0 <= a < |assignments| ensures Sound(products, more, assignments[a]) {
      assert Sound(products, cards, assignments[a]);
      assert MovesForward(cards[assignments[a].card], more[assignments[a].card]);
    }
  }

  lemma DraftAppendKeepsCards(cards: seq<Card>, card: Card)
    requires CardsInv(cards) && card.status == DRAFT && card.version == CountOf(cards, card.product) + 1
    ensures CardsInv(cards + [card])
  {
    NumberedAppend(cards, card);
    var longer := cards + [card];
    forall c | 0 <= c < |longer| && longer[c].status != DRAFT ensures Live(longer, longer[c].product) {
      assert Live(cards, cards[c].product);
      var d :| 0 <= d < |cards| && IsPublished(cards[d], cards[c].product);
      assert IsPublished(longer[d], longer[c].product);
    }
  }

  lemma LiveGrows(cards: seq<Card>, card: Card, product: nat)
    requires Live(cards, product)
    ensures Live(cards + [card], product)
  {
    var d :| 0 <= d < |cards| && IsPublished(cards[d], product);
    assert IsPublished((cards + [card])[d], product);
  }

  lemma {:induction false} LiveIsCounted(cards: seq<Card>, product: nat)
    requires Live(cards, product)
    ensures CountOf(cards, product) > 0
  {
    var d :| 0 <= d < |cards| && IsPublished(cards[d], product);
    var front := cards[..|cards| - 1];
    if d < |front| {
      assert IsPublished(front[d], product);
      LiveIsCounted(front, product);
    }
  }

  lemma DraftIsAudited(products: seq<Product>, cards: seq<Card>, audit: seq<Audit>, card: Card, fields: Fields)
    requires Named(products, cards) && Audited(products, cards, audit)
    requires card.product < |products| && card.terms == NewTerms(fields) && !BornPublished(products, card)
    ensures Named(products, cards + [card])
    ensures Audited(products, cards + [card], audit + [CardCreated(|cards|, card.version, fields)])
  {
    TrailsAppend(audit, CardCreated(|cards|, card.version, fields));
    assert TrailOf(audit, |cards|) == Silent;
  }

  lemma DraftKeeps(db: Db, orgId: nat, product: nat, fields: Fields)
    requires Inv(db)
    ensures Inv(CreateDraft(db, orgId, product, fields).0)
  {
    if product < |db.products| && InScope(orgId, db.products[product].funder) {
      NewDraftKeeps(db, orgId, product, fields);
    }
  }

  lemma AcceptedTermsAreWithinRules(code: string, fields: Fields)
    requires BrokenRule(code, fields, None).None?
    ensures WithinRules(code, NewTerms(fields))
  {
  }

  lemma NewDraftKeeps(db: Db, orgId: nat, product: nat, fields: Fields)
    requires Inv(db) && product < |db.products| && InScope(orgId, db.products[product].funder)
    ensures Inv(CreateDraft(db, orgId, product, fields).0)
  {
    var broken := BrokenRule(db.products[product].code, fields, None);
    var card := Card(product, LatestVersion(db.cards, product) + 1, DRAFT, NewTerms(fields), None);
    assert card.version == CountOf(db.cards, product) + 1 by {
      CountIsLatest(db.cards, product);
    }
    if broken.None? {
      AcceptedTermsAreWithinRules(db.products[product].code, fields);
      assert CreateDraft(db, orgId, product, fields).0
          == db.(cards := db.cards + [card], audit := db.audit + [CardCreated(|db.cards|, card.version, fields)]);
      AppendedDraftKeeps(db, card, fields);
    } else {
      assert CreateDraft(db, orgId, product, fields).0 == db;
    }
  }

  lemma AppendedDraftKeeps(db: Db, card: Card, fields: Fields)
    requires Inv(db)
    requires card.product < |db.products| && card.version == CountOf(db.cards, card.product) + 1
    requires card.status == DRAFT && card.terms == NewTerms(fields)
    requires WithinRules(db.products[card.product].code, card.terms)
    ensures Inv(db.(cards := db.cards + [card], audit := db.audit + [CardCreated(|db.cards|, card.version, fields)]))
  {
    DraftAppendKeepsCards(db.cards, card);
    forall p: nat | Live(db.cards, p) ensures Live(db.cards + [card], p) {
      LiveGrows(db.cards, card, p);
    }
    if db.products[card.product].bespoke {
      LiveIsCounted(db.cards, card.product);
    }
    DraftIsAudited(db.products, db.cards, db.audit, card, fields);
    CardsGrow(db.products, db.cards, db.cards + [card], db.assignments);
    assert BespokeLive(db.products, db.cards + [card]);
    assert Announced(db.products, db.cards + [card], db.outbox);
  }

  // An update changes the terms of one draft.

  lemma RetermKeepsCards(cards: seq<Card>, c: nat, terms: Terms)
    requires CardsInv(cards) && c < |cards|
    ensures CardsInv(cards[c := cards[c].(terms := terms)])
    ensures forall p: nat :: Live(cards, p) ==> Live(cards[c := cards[c].(terms := terms)], p)
  {
    var after := cards[c := cards[c].(terms := terms)];
    NumberedSame(cards, after);
    forall p: nat | Live(cards, p) ensures Live(after, p) {
      var d :| 0 <= d < |cards| && IsPublished(cards[d], p);
      assert IsPublished(after[d], p);
    }
  }

  lemma UpdateIsAudited(products: seq<Product>, cards: seq<Card>, audit: seq<Audit>, card: nat, terms: Terms)
    requires Named(products, cards) && Audited(products, cards, audit)
    requires card < |cards| && cards[card].status == DRAFT
    ensures Named(products, cards[card := cards[card].(terms := terms)])
    ensures Audited(products, cards[card := cards[card].(terms := terms)],
                    audit + [CardUpdated(card, cards[card].terms, terms)])
  {
    TrailsAppend(audit, CardUpdated(card, cards[card].terms, terms));
    assert TrailOf(audit, card) == At(cards[card].terms);
  }

  lemma DraftUpdateKeeps(db: Db, orgId: nat, card: nat, fields: Fields)
    requires Inv(db)
    ensures Inv(UpdateDraft(db, orgId, card, fields).0)
  {
    if CardInScope(db, orgId, card) && db.cards[card].status == DRAFT
      && BrokenRule(db.products[db.cards[card].product].code, fields, Some(db.cards[card].terms)).None? {
      var terms := Amended(db.cards[card].terms, fields);
      assert WithinRules(db.products[db.cards[card].product].code, terms);
      RetermedDraftKeeps(db, card, terms);
    }
  }

  lemma RetermedDraftKeeps(db: Db, card: nat, terms: Terms)
    requires Inv(db) && card < |db.cards| && db.cards[card].status == DRAFT
    requires WithinRules(db.products[db.cards[card].product].code, terms)
    ensures Inv(db.(cards := db.cards[card := db.cards[card].(terms := terms)],
                    audit := db.audit + [CardUpdated(card, db.cards[card].terms, terms)]))
  {
    var cards := db.cards[card := db.cards[card].(terms := terms)];
    assert CardsKept(db.cards, cards);
    hide CodesUnique, CardsInv, RulesKept, BespokeLive, Announced, Audited, Snapshotted, WithinRules;
    RetermKeepsCards(db.cards, card, terms);
    RetermKeepsRules(db, card, terms);
    CardsGrow(db.products, db.cards, cards, db.assignments);
    UpdateIsAudited(db.products, db.cards, db.audit, card, terms);
  }

  lemma RetermKeepsRules(db: Db, card: nat, terms: Terms)
    requires Named(db.products, db.cards) && RulesKept(db.products, db.cards) && BespokeLive(db.products, db.cards)
    requires Announced(db.products, db.cards, db.outbox)
    requires card < |db.cards| && db.cards[card].status == DRAFT
    requires WithinRules(db.products[db.cards[card].product].code, terms)
    requires forall p: nat :: Live(db.cards, p) ==> Live(db.cards[card := db.cards[card].(terms := terms)], p)
    ensures var cards := db.cards[card := db.cards[card].(terms := terms)];
      && Named(db.products, cards) && RulesKept(db.products, cards) && BespokeLive(db.products, cards)
      && Announced(db.products, cards, db.outbox)
  {
    hide WithinRules;
  }

  // A publication archives the published card of the product and publishes a draft.

  function Promoted(cards: seq<Card>, card: nat, now: int): seq<Card>
    requires card < |cards|
  {
    var row := cards[card];
    var current := FindPublished(cards, row.product);
    (if current.Some? then cards[current.value := cards[current.value].(status := ARCHIVED)] else cards)
      [card := row.(status := PUBLISHED, publishedAt := Some(now))]
  }

  /** What the publication of `card` makes of row `c`. */
  function AfterPublication(cards: seq<Card>, card: nat, now: int, c: nat): Card
    requires card < |cards| && c < |cards|
  {
    if c == card then cards[c].(status := PUBLISHED, publishedAt := Some(now))
    else if IsPublished(cards[c], cards[card].product) then cards[c].(status := ARCHIVED)
    else cards[c]
  }

  lemma PromotedRow(cards: seq<Card>, card: nat, now: int, c: nat)
    requires AtMostOneLive(cards) && card < |cards| && cards[card].status == DRAFT && c < |cards|
    ensures |Promoted(cards, card, now)| == |cards|
    ensures Promoted(cards, card, now)[c]
         == AfterPublication(cards, card, now, c)
  {
  }

  /** After a publication the product is live through the new card alone, and no other product is touched. */
  ghost predicate Replaced(cards: seq<Card>, after: seq<Card>, card: nat, now: int)
    requires card < |cards|
  {
    && |after| == |cards|
    && (forall c :: 0 <= c < |cards| ==> after[c] == AfterPublication(cards, card, now, c))
  }

  lemma PromotionReplaces(cards: seq<Card>, card: nat, now: int)
    requires AtMostOneLive(cards) && card < |cards| && cards[card].status == DRAFT
    ensures Replaced(cards, Promoted(cards, card, now), card, now)
  {
    forall c: nat | c < |cards| {
      PromotedRow(cards, card, now, c);
    }
  }

  lemma ReplacementKeepsLive(cards: seq<Card>, after: seq<Card>, card: nat, now: int, p: nat)
    requires card < |cards| && Replaced(cards, after, card, now) && Live(cards, p)
    ensures Live(after, p)
  {
    var d :| 0 <= d < |cards| && IsPublished(cards[d], p);
    assert if p == cards[card].product then IsPublished(after[card], p) else IsPublished(after[d], p);
  }

  lemma ReplacementKeepsOneLive(cards: seq<Card>, after: seq<Card>, card: nat, now: int)
    requires AtMostOneLive(cards) && card < |cards| && Replaced(cards, after, card, now)
    ensures AtMostOneLive(after)
  {
  }

  lemma ReplacementKeepsCards(cards: seq<Card>, after: seq<Card>, card: nat, now: int)
    requires CardsInv(cards) && card < |cards| && cards[card].status == DRAFT && Replaced(cards, after, card, now)
    ensures CardsInv(after) && CardsKept(cards, after)
  {
    NumberedSame(cards, after);
    ReplacementKeepsOneLive(cards, after, card, now);
    hide Numbered, AtMostOneLive;
    forall c | 0 <= c < |after| && after[c].status != DRAFT ensures Live(after, after[c].product) {
      if c == card {
        assert IsPublished(after[card], after[c].product);
      } else {
        ReplacementKeepsLive(cards, after, card, now, cards[c].product);
      }
    }
  }

  lemma PublishedAfter(db: Db, after: seq<Card>, card: nat, now: int, c: nat)
    requires Named(db.products, db.cards) && Announced(db.products, db.cards, db.outbox)
    requires card < |db.cards| && Replaced(db.cards, after, card, now) && c < |after| && after[c].status == PUBLISHED
    ensures after[c].product < |db.products|
    ensures var event := Announcement(db.products, db.cards, card);
      LastPublication(db.outbox + [event], after[c].product) == Some(Announcement(db.products, after, c))
  {
    LastAppend(db.outbox, Announcement(db.products, db.cards, card), after[c].product);
    hide LastPublication, Live, ParamsOf;
    assert after[c] == AfterPublication(db.cards, card, now, c);
  }

  lemma LiveAfter(db: Db, after: seq<Card>, card: nat, now: int, p: nat)
    requires Named(db.products, db.cards) && Announced(db.products, db.cards, db.outbox)
    requires card < |db.cards| && Replaced(db.cards, after, card, now)
    requires LastPublication(db.outbox + [Announcement(db.products, db.cards, card)], p).Some?
    ensures Live(after, p)
  {
    LastAppend(db.outbox, Announcement(db.products, db.cards, card), p);
    hide LastPublication, ParamsOf;
    if p == db.cards[card].product {
      assert after[card] == AfterPublication(db.cards, card, now, card);
      assert IsPublished(after[card], p);
    } else {
      ReplacementKeepsLive(db.cards, after, card, now, p);
    }
  }

  lemma ReplacementIsAnnounced(db: Db, after: seq<Card>, card: nat, now: int)
    requires Named(db.products, db.cards) && Announced(db.products, db.cards, db.outbox)
    requires card < |db.cards| && Replaced(db.cards, after, card, now)
    ensures Named(db.products, after)
    ensures Announced(db.products, after, db.outbox + [Announcement(db.products, db.cards, card)])
  {
    ReplacementIsNamed(db.products, db.cards, after, card, now);
    hide LastPublication, Announcement, Replaced, Live;
    var event := Announcement(db.products, db.cards, card);
    forall c | 0 <= c < |after| && after[c].status == PUBLISHED
      ensures LastPublication(db.outbox + [event], after[c].product) == Some(Announcement(db.products, after, c))
    {
      PublishedAfter(db, after, card, now, c);
    }
    forall p: nat | LastPublication(db.outbox + [event], p).Some? ensures Live(after, p) {
      LiveAfter(db, after, card, now, p);
    }
  }

  lemma ReplacementIsNamed(products: seq<Product>, cards: seq<Card>, after: seq<Card>, card: nat, now: int)
    requires Named(products, cards) && card < |cards| && Replaced(cards, after, card, now)
    ensures Named(products, after)
  {
  }

  lemma ReplacementIsAudited(db: Db, after: seq<Card>, card: nat, now: int, archived: seq<Audit>)
    requires Named(db.products, db.cards) && Audited(db.products, db.cards, db.audit)
    requires card < |db.cards| && Replaced(db.cards, after, card, now)
    requires archived == [] || exists c :: archived == [CardArchived(c)]
    ensures Named(db.products, after)
    ensures Audited(db.products, after, db.audit + archived + [CardPublished(card, db.cards[card].version)])
  {
    assert Named(db.products, after) && Audited(db.products, after, db.audit);
    if archived == [] {
      assert db.audit + [] == db.audit;
    } else {
      TrailsKept(db.products, after, db.audit, archived[0]);
      assert db.audit + archived == db.audit + [archived[0]];
    }
    TrailsKept(db.products, after, db.audit + archived, CardPublished(card, db.cards[card].version));
  }

  lemma ReplacementKeepsRules(products: seq<Product>, cards: seq<Card>, after: seq<Card>, card: nat, now: int)
    requires Named(products, cards) && RulesKept(products, cards) && BespokeLive(products, cards)
    requires card < |cards| && Replaced(cards, after, card, now)
    ensures Named(products, after) && RulesKept(products, after) && BespokeLive(products, after)
  {
    forall p: nat | Live(cards, p) ensures Live(after, p) {
      ReplacementKeepsLive(cards, after, card, now, p);
    }
    hide WithinRules;
  }

  lemma PublishKeeps(db: Db, now: int, orgId: nat, card: nat)
    requires Inv(db)
    ensures Inv(Publish(db, now, orgId, card).0)
  {
    if CardInScope(db, orgId, card) && db.cards[card].status == DRAFT {
      PublishedDraftKeeps(db, now, orgId, card);
    }
  }

  lemma PublishedDraftKeeps(db: Db, now: int, orgId: nat, card: nat)
    requires Inv(db) && CardInScope(db, orgId, card) && db.cards[card].status == DRAFT
    ensures Inv(Publish(db, now, orgId, card).0)
  {
    var cards := Promoted(db.cards, card, now);
    var current := FindPublished(db.cards, db.cards[card].product);
    var archived := if current.Some? then [CardArchived(current.value)] else [];
    assert Publish(db, now, orgId, card).0
        == db.(cards := cards, audit := db.audit + archived + [CardPublished(card, db.cards[card].version)],
               outbox := db.outbox + [Announcement(db.products, db.cards, card)]);
    PromotionReplaces(db.cards, card, now);
    hide Promoted, Publish, FindPublished, CodesUnique, CardsInv, BespokeLive, RulesKept, Announced, Audited,
      Snapshotted, Replaced, CardsKept, Announcement;
    ReplacementKeepsCards(db.cards, cards, card, now);
    ReplacementKeepsRules(db.products, db.cards, cards, card, now);
    ReplacementIsAnnounced(db, cards, card, now);
    ReplacementIsAudited(db, cards, card, now, archived);
    CardsGrow(db.products, db.cards, cards, db.assignments);
  }

  // A bespoke product and its first card appear together, published.

  lemma DrawnCodeIsNotFactoring(products: seq<Product>, funder: nat, draws: seq<nat>)
    requires draws != []
    ensures PickCode(products, funder, draws) != "IF"
  {
  }

  lemma BirthKeepsCards(products: seq<Product>, cards: seq<Card>, card: Card)
    requires Named(products, cards) && CardsInv(cards)
    requires card.product == |products| && card.version == 1 && card.status == PUBLISHED
    ensures CardsInv(cards + [card])
    ensures Live(cards + [card], card.product)
    ensures forall p: nat :: Live(cards, p) ==> Live(cards + [card], p)
  {
    var after := cards + [card];
    NoCards(cards, card.product);
    NumberedAppend(cards, card);
    assert IsPublished(after[|cards|], card.product);
    forall p: nat | Live(cards, p) ensures Live(after, p) {
      LiveGrows(cards, card, p);
    }
  }

  lemma BirthIsAnnounced(db: Db, product: Product, card: Card)
    requires Inv(db)
    requires card.product == |db.products| && card.version == 1 && card.status == PUBLISHED
    ensures var products, cards := db.products + [product], db.cards + [card];
      Named(products, cards) && Announced(products, cards, db.outbox + [Announcement(products, cards, |db.cards|)])
  {
    var products, cards := db.products + [product], db.cards + [card];
    var event := Announcement(products, cards, |db.cards|);
    BirthKeepsCards(db.products, db.cards, card);
    forall p: nat
      ensures LastPublication(db.outbox + [event], p)
           == if p == |db.products| then Some(event) else LastPublication(db.outbox, p)
    {
      LastAppend(db.outbox, event, p);
    }
  }

  lemma BirthIsAudited(db: Db, product: Product, card: Card)
    requires Named(db.products, db.cards) && Audited(db.products, db.cards, db.audit) && product.bespoke
    requires card.product == |db.products| && card.version == 1 && card.status == PUBLISHED
    ensures Named(db.products + [product], db.cards + [card])
    ensures Audited(db.products + [product], db.cards + [card], db.audit + [ProductCreated(|db.products|)])
  {
    TrailsKept(db.products, db.cards, db.audit, ProductCreated(|db.products|));
  }

  lemma BirthKeepsAssignments(products: seq<Product>, product: Product, cards: seq<Card>, card: Card,
                              assignments: seq<Assignment>)
    requires Snapshotted(products, cards, assignments)
    ensures Snapshotted(products + [product], cards + [card], assignments)
  {
    forall a | 0 <= a < |assignments| ensures Sound(products + [product], cards + [card], assignments[a]) {
      assert Sound(products, cards, assignments[a]);
    }
  }

  lemma BespokeKeeps(db: Db, now: int, orgId: nat, draws: Draws, name: string, description: Option<string>,
                     owner: nat, fields: Fields)
    requires Inv(db)
    ensures Inv(CreateBespoke(db, now, orgId, draws, name, description, owner, fields).0)
  {
    var code := PickCode(db.products, orgId, draws);
    if orgId != 0 && BrokenRule("CUSTOM", fields, None).None? && !CodeTaken(db.products, orgId, code) {
      var product := Product(code, name, description, true, Some(owner), orgId, true);
      var card := Card(|db.products|, 1, PUBLISHED, NewTerms(fields), Some(now));
      DrawnCodeIsNotFactoring(db.products, orgId, draws);
      assert WithinRules(code, card.terms);
      BirthKeeps(db, product, card);
    }
  }

  lemma BirthKeeps(db: Db, product: Product, card: Card)
    requires Inv(db) && product.bespoke && !CodeTaken(db.products, product.funder, product.code)
    requires card.product == |db.products| && card.version == 1 && card.status == PUBLISHED
    requires WithinRules(product.code, card.terms)
    ensures Inv(db.(products := db.products + [product], cards := db.cards + [card],
                    audit := db.audit + [ProductCreated(|db.products|)],
                    outbox := db.outbox + [RateCardPublished(|db.cards|, card.product, product.code, 1, product.funder,
                                                             ParamsOf(card.terms))]))
  {
    AppendKeepsUnique(db.products, product);
    BirthKeepsCards(db.products, db.cards, card);
    BirthIsAnnounced(db, product, card);
    BirthIsAudited(db, product, card);
    BirthKeepsAssignments(db.products, product, db.cards, card, db.assignments);
    assert BespokeLive(db.products + [product], db.cards + [card]);
    assert RulesKept(db.products + [product], db.cards + [card]);
  }

  lemma AssignKeeps(db: Db, orgId: nat, product: nat, organization: nat)
    requires Inv(db)
    ensures Inv(Assign(db, orgId, product, organization).0)
  {
    hide CardsInv, CodesUnique, RulesKept, BespokeLive;
    var after := Assign(db, orgId, product, organization).0;
    if |after.assignments| > |db.assignments| {
      AuditFrame(db, after.audit[|db.audit|]);
      OutboxFrame(db, after.outbox[|db.outbox|]);
    }
  }

  lemma StepKeepsInv(db: Db, event: Event)
    requires Inv(db)
    ensures Inv(Apply(db, event))
  {
    hide Inv;
    match event
    case CreatesProduct(orgId, code, name, description) => StandardKeeps(db, orgId, code, name, description);
    case UpdatesProduct(orgId, product, name, description, active) =>
      ProductUpdateKeeps(db, orgId, product, name, description, active);
    case CreatesBespoke(now, orgId, draws, name, description, owner, fields) =>
      BespokeKeeps(db, now, orgId, draws, name, description, owner, fields);
    case CreatesDraft(orgId, product, fields) => DraftKeeps(db, orgId, product, fields);
    case UpdatesDraft(orgId, card, fields) => DraftUpdateKeeps(db, orgId, card, fields);
    case Publishes(now, orgId, card) => PublishKeeps(db, now, orgId, card);
    case Assigns(orgId, product, organization) => AssignKeeps(db, orgId, product, organization);
  }

  /** Every run keeps the invariant and only ever evolves the tables. */
  lemma {:induction false} RunKeepsInv(db: Db, events: seq<Event>)
    requires Inv(db)
    ensures Inv(Run(db, events)) && Evolves(db, Run(db, events))
    decreases |events|
  {
    if events != [] {
      var next := Apply(db, events[0]);
      StepKeepsInv(db, events[0]);
      StepEvolves(db, events[0]);
      RunKeepsInv(next, events[1..]);
      EvolvesTransitive(db, next, Run(next, events[1..]));
    }
  }

  // ---------------------------------------------------------------------------------------------
  // Every audit row and every event stays true
  // ---------------------------------------------------------------------------------------------

  /** What an audit row says holds of the tables. */
  predicate RowTrue(db: Db, entry: Audit) {
    match entry
    case ProductCreated(p) => p < |db.products|
    case ProductUpdated(p, old_, new_) =>
      p < |db.products| && SameIdentity(old_, db.products[p]) && SameIdentity(new_, db.products[p])
    case CardCreated(c, version, _) => c < |db.cards| && db.cards[c].version == version
    case CardUpdated(c, _, _) => c < |db.cards|
    case CardArchived(c) => c < |db.cards| && db.cards[c].status == ARCHIVED
    case CardPublished(c, version) => c < |db.cards| && db.cards[c].status != DRAFT && db.cards[c].version == version
    case Assigned(a, organization, c, version) =>
      && a < |db.assignments| && db.assignments[a].organization == organization
      && db.assignments[a].card == c && db.assignments[a].version == version
  }

  /** What an event announced still holds: its card keeps the announced parameters, its assignment the announced
      parties. */
  predicate EventTrue(db: Db, event: OutboxEvent) {
    match event
    case RateCardPublished(c, _, _, _, _, _) =>
      && c < |db.cards| && db.cards[c].status != DRAFT
      && db.cards[c].product < |db.products| && event == Announcement(db.products, db.cards, c)
    case AssignmentCreated(a, organization, product, code, funder) =>
      && a < |db.assignments| && db.assignments[a].organization == organization
      && db.assignments[a].product == product && product < |db.products|
      && db.products[product].code == code && db.products[product].funder == funder
  }

  ghost predicate Truthful(db: Db) {
    && (forall k :: 0 <= k < |db.audit| ==> RowTrue(db, db.audit[k]))
    && (forall k :: 0 <= k < |db.outbox| ==> EventTrue(db, db.outbox[k]))
  }

  lemma RowStaysTrue(before: Db, after: Db, entry: Audit)
    requires Evolves(before, after) && RowTrue(before, entry)
    ensures RowTrue(after, entry)
  {
    match entry
    case CardArchived(c) => assert MovesForward(before.cards[c], after.cards[c]);
    case CardPublished(c, _) => assert MovesForward(before.cards[c], after.cards[c]);
    case CardCreated(c, _, _) => assert MovesForward(before.cards[c], after.cards[c]);
    case ProductUpdated(p, _, _) => assert SameIdentity(before.products[p], after.products[p]);
    case Assigned(a, _, _, _) => assert after.assignments[a] == before.assignments[a];
    case _ =>
  }

  lemma EventStaysTrue(before: Db, after: Db, event: OutboxEvent)
    requires Evolves(before, after) && EventTrue(before, event)
    ensures EventTrue(after, event)
  {
    match event
    case RateCardPublished(c, p, _, _, _, _) =>
      assert MovesForward(before.cards[c], after.cards[c]);
      assert SameIdentity(before.products[p], after.products[p]);
    case AssignmentCreated(a, _, p, _, _) =>
      assert after.assignments[a] == before.assignments[a];
      assert SameIdentity(before.products[p], after.products[p]);
  }

  /** What one operation adds to the audit rows and to the outbox is true when it is added. */
  ghost predicate AddsTruth(before: Db, after: Db) {
    && (forall k :: |before.audit| <= k < |after.audit| ==> RowTrue(after, after.audit[k]))
    && (forall k :: |before.outbox| <= k < |after.outbox| ==> EventTrue(after, after.outbox[k]))
  }

  lemma PublicationIsTrue(db: Db, now: int, orgId: nat, card: nat)
    ensures AddsTruth(db, Publish(db, now, orgId, card).0)
  {
  }

  lemma AssignmentIsTrue(db: Db, orgId: nat, product: nat, organization: nat)
    ensures AddsTruth(db, Assign(db, orgId, product, organization).0)
  {
  }

  lemma BespokeIsTrue(db: Db, now: int, orgId: nat, draws: Draws, name: string, description: Option<string>,
                      owner: nat, fields: Fields)
    ensures AddsTruth(db, CreateBespoke(db, now, orgId, draws, name, description, owner, fields).0)
  {
    hide PickCode, BrokenRule, CodeTaken, NewTerms;
  }

  lemma CardNewsIsTrue(db: Db, orgId: nat, id: nat, fields: Fields)
    ensures AddsTruth(db, CreateDraft(db, orgId, id, fields).0)
    ensures AddsTruth(db, UpdateDraft(db, orgId, id, fields).0)
  {
    hide Amended, BrokenRule, NewTerms, LatestVersion;
  }

  lemma NewsIsTrue(db: Db, event: Event)
    ensures AddsTruth(db, Apply(db, event))
  {
    hide Publish, Assign, CreateBespoke, CreateDraft, UpdateDraft;
    match event
    case Publishes(now, orgId, card) => PublicationIsTrue(db, now, orgId, card);
    case Assigns(orgId, product, organization) => AssignmentIsTrue(db, orgId, product, organization);
    case CreatesBespoke(now, orgId, draws, name, description, owner, fields) =>
      BespokeIsTrue(db, now, orgId, draws, name, description, owner, fields);
    case CreatesDraft(orgId, product, fields) => CardNewsIsTrue(db, orgId, product, fields);
    case UpdatesDraft(orgId, card, fields) => CardNewsIsTrue(db, orgId, card, fields);
    case _ =>
  }

  lemma StepKeepsTruth(db: Db, event: Event)
    requires Truthful(db)
    ensures Truthful(Apply(db, event))
  {
    var after := Apply(db, event);
    StepEvolves(db, event);
    NewsIsTrue(db, event);
    hide Apply, RowTrue, EventTrue;
    forall k | 0 <= k < |db.audit| ensures RowTrue(after, after.audit[k]) {
      RowStaysTrue(db, after, db.audit[k]);
    }
    forall k | 0 <= k < |db.outbox| ensures EventTrue(after, after.outbox[k]) {
      EventStaysTrue(db, after, db.outbox[k]);
    }
  }

  /** Whatever was ever audited or announced is still true: a published card keeps every parameter it was announced
      with. */
  lemma {:induction false} RunKeepsTruth(db: Db, events: seq<Event>)
    requires Truthful(db)
    ensures Truthful(Run(db, events))
    decreases |events|
  {
    if events != [] {
      StepKeepsTruth(db, events[0]);
      RunKeepsTruth(Apply(db, events[0]), events[1..]);
    }
  }

  // ---------------------------------------------------------------------------------------------
  // What a reader of the tables may rely on
  // ---------------------------------------------------------------------------------------------

  /** Every history that starts from empty tables is sound: codes and versions are unique, at most one card per product
      is published, every card is within the rules, and announcements, audit trails and assignments match the cards. */
  lemma ConfiguratorIsSound(events: seq<Event>)
    ensures Inv(Run(EMPTY, events))
  {
    RunKeepsInv(EMPTY, events);
  }

  lemma {:induction false} CountGrows(cards: seq<Card>, product: nat, n: nat, m: nat)
    requires n <= m <= |cards|
    ensures CountOf(cards[..n], product) <= CountOf(cards[..m], product)
    ensures n < m && cards[n].product == product ==> CountOf(cards[..n], product) < CountOf(cards[..m], product)
    decreases m
  {
    if n < m {
      assert cards[..m][..m - 1] == cards[..m - 1];
      CountGrows(cards, product, n, m - 1);
    }
  }

  lemma {:induction false} VersionIsHeld(cards: seq<Card>, product: nat, version: nat) returns (c: nat)
    requires Numbered(cards) && 1 <= version <= CountOf(cards, product)
    ensures c < |cards| && cards[c].product == product && cards[c].version == version
  {
    var n := |cards| - 1;
    var front := cards[..n];
    if version <= CountOf(front, product) {
      forall c | 0 <= c < n ensures front[c].version == CountOf(front[..c], front[c].product) + 1 {
        assert front[..c] == cards[..c] && front[c] == cards[c];
      }
      c := VersionIsHeld(front, product, version);
    } else {
      c := n;
    }
  }

  ghost predicate Held(cards: seq<Card>, product: nat, version: nat) {
    exists c :: 0 <= c < |cards| && cards[c].product == product && cards[c].version == version
  }

  /** In every reachable state the versions of a product with n cards are 1 to n, each held by exactly one card, and a
      later card has a greater version. */
  lemma VersionsAreExact(events: seq<Event>, product: nat)
    ensures var cards := Run(EMPTY, events).cards;
      && (forall c :: 0 <= c < |cards| && cards[c].product == product ==>
            1 <= cards[c].version <= CountOf(cards, product))
      && (forall c, d :: 0 <= c < d < |cards| && cards[c].product == product && cards[d].product == product
            ==> cards[c].version < cards[d].version)
      && (forall version: nat :: 1 <= version <= CountOf(cards, product) ==> Held(cards, product, version))
  {
    RunKeepsInv(EMPTY, events);
    var cards := Run(EMPTY, events).cards;
    assert cards[..|cards|] == cards;
    forall c: nat | c < |cards| && cards[c].product == product ensures cards[c].version <= CountOf(cards, product) {
      CountGrows(cards, product, c, |cards|);
    }
    forall c: nat, d: nat | c < d < |cards| && cards[c].product == product && cards[d].product == product
      ensures cards[c].version < cards[d].version
    {
      CountGrows(cards, product, c, d);
    }
    forall version: nat | 1 <= version <= CountOf(cards, product) ensures Held(cards, product, version) {
      var c := VersionIsHeld(cards, product, version);
    }
  }

  /** In every reachable state a product has exactly one published card once anything of it was published, and the
      newest announcement of the product is about that card, with its present parameters. */
  lemma PublishedCardIsAnnounced(events: seq<Event>, c: nat)
    requires var db := Run(EMPTY, events); c < |db.cards| && db.cards[c].status != DRAFT
    ensures var db := Run(EMPTY, events);
      exists d :: && 0 <= d < |db.cards| && IsPublished(db.cards[d], db.cards[c].product)
                  && (forall e :: 0 <= e < |db.cards| && IsPublished(db.cards[e], db.cards[c].product) ==> e == d)
                  && db.cards[d].product < |db.products|
                  && LastPublication(db.outbox, db.cards[c].product) == Some(Announcement(db.products, db.cards, d))
  {
    RunKeepsInv(EMPTY, events);
    var db := Run(EMPTY, events);
    assert Live(db.cards, db.cards[c].product);
    var d :| 0 <= d < |db.cards| && IsPublished(db.cards[d], db.cards[c].product);
  }

  /** Once made, an assignment stands, and in every later state it still repeats the card it names, field by field. */
  lemma SnapshotsStayEqual(early: seq<Event>, later: seq<Event>, a: nat)
    requires a < |Run(EMPTY, early).assignments|
    ensures var before, after := Run(EMPTY, early), Run(Run(EMPTY, early), later);
      && a < |after.assignments| && after.assignments[a] == before.assignments[a]
      && Sound(before.products, before.cards, before.assignments[a])
      && Sound(after.products, after.cards, after.assignments[a])
      && after.cards[after.assignments[a].card].terms == before.cards[before.assignments[a].card].terms
  {
    RunKeepsInv(EMPTY, early);
    var before := Run(EMPTY, early);
    RunKeepsInv(before, later);
    var after := Run(before, later);
    assert Sound(before.products, before.cards, before.assignments[a]);
    assert Sound(after.products, after.cards, after.assignments[a]);
    assert MovesForward(before.cards[before.assignments[a].card], after.cards[before.assignments[a].card]);
  }
}
