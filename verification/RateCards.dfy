/** The product configurator: products, versioned rate cards and the assignments snapshotted from them.
    Every operation is one transaction, and a row's id is its index in its table. */
module RateCards {
  import opened Wrappers

  datatype Status = DRAFT | PUBLISHED | ARCHIVED

  /** The fields of a card that an update may change and that `snapshot` reports. */
  datatype Terms = Terms(minTenure: int, maxTenure: int, apr: Option<real>, advance: Option<real>,
                         discount: Option<real>, adminFee: real, reserve: real,
                         formula: Option<string>, variables: Option<seq<(string, string)>>)

  /** The same fields in a request, each of which may be left out. */
  datatype Fields = Fields(minTenure: Option<int>, maxTenure: Option<int>, apr: Option<real>,
                           advance: Option<real>, discount: Option<real>, adminFee: Option<real>,
                           reserve: Option<real>, formula: Option<string>,
                           variables: Option<seq<(string, string)>>)

  /** The part of a card that a publication announces. */
  datatype Params = Params(apr: Option<real>, advance: Option<real>, discount: Option<real>, adminFee: real,
                           reserve: real, minTenure: int, maxTenure: int)

  datatype Product = Product(code: string, name: string, description: Option<string>, bespoke: bool,
                             owner: Option<nat>, funder: nat, active: bool)

  datatype Card = Card(product: nat, version: nat, status: Status, terms: Terms, publishedAt: Option<int>)

  datatype Assignment = Assignment(organization: nat, product: nat, funder: nat, card: nat, version: nat,
                                   apr: real, advance: Option<real>, discount: Option<real>, adminFee: real,
                                   reserve: real, tenureLimit: int)

  datatype Audit =
    | ProductCreated(product: nat)
    | ProductUpdated(product: nat, old_: Product, new_: Product)
    | CardCreated(card: nat, version: nat, fields: Fields)
    | CardUpdated(card: nat, oldTerms: Terms, newTerms: Terms)
    | CardArchived(card: nat)
    | CardPublished(card: nat, version: nat)
    | Assigned(assignment: nat, organization: nat, card: nat, version: nat)

  datatype OutboxEvent =
    | RateCardPublished(card: nat, product: nat, code: string, version: nat, funder: nat, params: Params)
    | AssignmentCreated(assignment: nat, organization: nat, product: nat, code: string, funder: nat)

  datatype Db = Db(products: seq<Product>, cards: seq<Card>, assignments: seq<Assignment>,
                   audit: seq<Audit>, outbox: seq<OutboxEvent>)

  datatype Error =
    | NeedsFunder | CodeExists | ProductNotFound | CardNotFound | NotADraft | TenureOrder | AdvanceRange
    | Inactive | NotTheOwner | NothingPublished | NoInterestRate

  datatype Outcome<+T> = Ok(value: T) | Fail(error: Error)

  // ---------------------------------------------------------------------------------------------
  // Rules and helpers
  // ---------------------------------------------------------------------------------------------

  function Or<T>(option: Option<T>, default: T): T {
    if option.Some? then option.value else default
  }

  /** The card rules; `None` means that they are met. */
  function BrokenRule(code: string, fields: Fields, existing: Option<Terms>): Option<Error> {
    var min := Or(fields.minTenure, if existing.Some? then existing.value.minTenure else 30);
    var max := Or(fields.maxTenure, if existing.Some? then existing.value.maxTenure else 360);
    if min > max then Some(TenureOrder)
    else if code == "IF" && fields.advance.Some? && (fields.advance.value < 0.8 || fields.advance.value > 0.95) then
      Some(AdvanceRange)
    else None
  }

  function NewTerms(fields: Fields): Terms {
    Terms(Or(fields.minTenure, 30), Or(fields.maxTenure, 360), fields.apr, fields.advance, fields.discount,
          Or(fields.adminFee, 0.0), Or(fields.reserve, 0.0), fields.formula, fields.variables)
  }

  function Amended(terms: Terms, fields: Fields): Terms {
    Terms(Or(fields.minTenure, terms.minTenure), Or(fields.maxTenure, terms.maxTenure),
          if fields.apr.Some? then fields.apr else terms.apr,
          if fields.advance.Some? then fields.advance else terms.advance,
          if fields.discount.Some? then fields.discount else terms.discount,
          Or(fields.adminFee, terms.adminFee), Or(fields.reserve, terms.reserve),
          if fields.formula.Some? then fields.formula else terms.formula,
          if fields.variables.Some? then fields.variables else terms.variables)
  }

  function ParamsOf(terms: Terms): Params {
    Params(terms.apr, terms.advance, terms.discount, terms.adminFee, terms.reserve, terms.minTenure, terms.maxTenure)
  }

  /** Organization 0 sees the rows of every funder. */
  predicate InScope(orgId: nat, funder: nat) {
    orgId == 0 || orgId == funder
  }

  predicate CodeTaken(products: seq<Product>, funder: nat, code: string) {
    exists p :: 0 <= p < |products| && products[p].funder == funder && products[p].code == code
  }

  function LatestVersion(cards: seq<Card>, product: nat): nat {
    if cards == [] then 0
    else
      var earlier, last := LatestVersion(cards[..|cards| - 1], product), cards[|cards| - 1];
      if last.product == product && last.version > earlier then last.version else earlier
  }

  predicate IsPublished(card: Card, product: nat) {
    card.product == product && card.status == PUBLISHED
  }

  function FindPublished(cards: seq<Card>, product: nat): (found: Option<nat>)
    ensures found.Some? ==> found.value < |cards| && IsPublished(cards[found.value], product)
    ensures found.None? ==> forall c :: 0 <= c < |cards| ==> !IsPublished(cards[c], product)
  {
    if cards == [] then None
    else if IsPublished(cards[|cards| - 1], product) then Some(|cards| - 1)
    else FindPublished(cards[..|cards| - 1], product)
  }

  function Digits(n: nat, width: nat): (text: string)
    ensures |text| == width
    decreases width
  {
    if width == 0 then "" else Digits(n / 10, width - 1) + ["0123456789"[n % 10]]
  }

  function BespokeCode(draw: nat): string {
    "CST_" + Digits(draw, 6)
  }

  const ATTEMPTS: nat := 5

  /** The six-digit numbers drawn at random, one for each attempt. */
  type Draws = draws: seq<nat> | |draws| == ATTEMPTS witness [0, 0, 0, 0, 0]

  /** The first drawn code that is free, or the last one tried. */
  function PickCode(products: seq<Product>, funder: nat, draws: seq<nat>): string
    requires draws != []
  {
    if |draws| == 1 || !CodeTaken(products, funder, BespokeCode(draws[0])) then BespokeCode(draws[0])
    else PickCode(products, funder, draws[1..])
  }

  // ---------------------------------------------------------------------------------------------
  // Operations on the tables
  // ---------------------------------------------------------------------------------------------

  function CreateStandard(db: Db, orgId: nat, code: string, name: string, description: Option<string>)
    : (Db, Outcome<nat>)
  {
    if orgId == 0 then (db, Fail(NeedsFunder))
    else if CodeTaken(db.products, orgId, code) then (db, Fail(CodeExists))
    else
      var id := |db.products|;
      (db.(products := db.products + [Product(code, name, description, false, None, orgId, true)],
           audit := db.audit + [ProductCreated(id)]), Ok(id))
  }

  function UpdateProduct(db: Db, orgId: nat, id: nat, name: Option<string>, description: Option<string>,
                         active: Option<bool>): (Db, Outcome<()>)
  {
    if id >= |db.products| || !InScope(orgId, db.products[id].funder) then (db, Fail(ProductNotFound))
    else
      var before := db.products[id];
      var after := before.(name := Or(name, before.name), active := Or(active, before.active),
                           description := if description.Some? then description else before.description);
      (db.(products := db.products[id := after],
           audit := db.audit + [ProductUpdated(id, before, after)]), Ok(()))
  }

  function CreateBespoke(db: Db, now: int, orgId: nat, draws: Draws, name: string, description: Option<string>,
                         owner: nat, fields: Fields): (Db, Outcome<nat>)
  {
    if orgId == 0 then (db, Fail(NeedsFunder))
    else if BrokenRule("CUSTOM", fields, None).Some? then (db, Fail(BrokenRule("CUSTOM", fields, None).value))
    else
      var code := PickCode(db.products, orgId, draws);
      if CodeTaken(db.products, orgId, code) then (db, Fail(CodeExists))
      else
        var product, card := |db.products|, |db.cards|;
        var terms := NewTerms(fields);
        (db.(products := db.products + [Product(code, name, description, true, Some(owner), orgId, true)],
             cards := db.cards + [Card(product, 1, PUBLISHED, terms, Some(now))],
             audit := db.audit + [ProductCreated(product)],
             outbox := db.outbox + [RateCardPublished(card, product, code, 1, orgId, ParamsOf(terms))]), Ok(product))
  }

  function CreateDraft(db: Db, orgId: nat, product: nat, fields: Fields): (Db, Outcome<nat>) {
    if product >= |db.products| || !InScope(orgId, db.products[product].funder) then (db, Fail(ProductNotFound))
    else if BrokenRule(db.products[product].code, fields, None).Some? then
      (db, Fail(BrokenRule(db.products[product].code, fields, None).value))
    else
      var card, version := |db.cards|, LatestVersion(db.cards, product) + 1;
      (db.(cards := db.cards + [Card(product, version, DRAFT, NewTerms(fields), None)],
           audit := db.audit + [CardCreated(card, version, fields)]), Ok(card))
  }

  /** Cards name existing products; the check that a card exists joins its product. */
  predicate CardInScope(db: Db, orgId: nat, card: nat) {
    && card < |db.cards|
    && db.cards[card].product < |db.products|
    && InScope(orgId, db.products[db.cards[card].product].funder)
  }

  function UpdateDraft(db: Db, orgId: nat, card: nat, fields: Fields): (Db, Outcome<()>) {
    if !CardInScope(db, orgId, card) then (db, Fail(CardNotFound))
    else if db.cards[card].status != DRAFT then (db, Fail(NotADraft))
    else
      var before := db.cards[card].terms;
      var broken := BrokenRule(db.products[db.cards[card].product].code, fields, Some(before));
      if broken.Some? then (db, Fail(broken.value))
      else
        var after := Amended(before, fields);
        (db.(cards := db.cards[card := db.cards[card].(terms := after)],
             audit := db.audit + [CardUpdated(card, before, after)]), Ok(()))
  }

  function Publish(db: Db, now: int, orgId: nat, card: nat): (Db, Outcome<()>) {
    if !CardInScope(db, orgId, card) then (db, Fail(CardNotFound))
    else if db.cards[card].status != DRAFT then (db, Fail(NotADraft))
    else
      var row := db.cards[card];
      var current := FindPublished(db.cards, row.product);
      var cards := if current.Some? then db.cards[current.value := db.cards[current.value].(status := ARCHIVED)]
                   else db.cards;
      var archived := if current.Some? then [CardArchived(current.value)] else [];
      var product := db.products[row.product];
      (db.(cards := cards[card := row.(status := PUBLISHED, publishedAt := Some(now))],
           audit := db.audit + archived + [CardPublished(card, row.version)],
           outbox := db.outbox + [RateCardPublished(card, row.product, product.code, row.version, product.funder,
                                                    ParamsOf(row.terms))]), Ok(()))
  }

  function Assign(db: Db, orgId: nat, product: nat, organization: nat): (Db, Outcome<nat>) {
    if product >= |db.products| || !InScope(orgId, db.products[product].funder) then (db, Fail(ProductNotFound))
    else
      var row := db.products[product];
      if !row.active then (db, Fail(Inactive))
      else if row.bespoke && row.owner != Some(organization) then (db, Fail(NotTheOwner))
      else match FindPublished(db.cards, product)
        case None => (db, Fail(NothingPublished))
        case Some(c) =>
          var card := db.cards[c];
          if card.terms.apr.None? then (db, Fail(NoInterestRate))
          else
            var id := |db.assignments|;
            var assignment := Assignment(organization, product, row.funder, c, card.version, card.terms.apr.value,
                                         card.terms.advance, card.terms.discount, card.terms.adminFee,
                                         card.terms.reserve, card.terms.maxTenure);
            (db.(assignments := db.assignments + [assignment],
                 audit := db.audit + [Assigned(id, organization, c, card.version)],
                 outbox := db.outbox + [AssignmentCreated(id, organization, product, row.code, row.funder)]), Ok(id))
  }

  // ---------------------------------------------------------------------------------------------
  // The services
  // ---------------------------------------------------------------------------------------------

  class ConfiguratorServices {
    var products: seq<Product>
    var cards: seq<Card>
    var assignments: seq<Assignment>
    var audit: seq<Audit>
    var outbox: seq<OutboxEvent>

    function Tables(): Db
      reads this
    {
      Db(products, cards, assignments, audit, outbox)
    }

    constructor ()
      ensures Tables() == Db([], [], [], [], [])
    {
      products, cards, assignments, audit, outbox := [], [], [], [], [];
    }

    method CreateStandardProduct(orgId: nat, code: string, name: string, description: Option<string>)
      returns (result: Outcome<nat>)
      modifies this`products, this`audit
      ensures (Tables(), result) == CreateStandard(old(Tables()), orgId, code, name, description)
    {
      if orgId == 0 {
        return Fail(NeedsFunder);
      }
      if CodeTaken(products, orgId, code) {
        return Fail(CodeExists);
      }
      products := products + [Product(code, name, description, false, None, orgId, true)];
      audit := audit + [ProductCreated(|products| - 1)];
      return Ok(|products| - 1);
    }

    method UpdateProductFields(orgId: nat, id: nat, name: Option<string>, description: Option<string>,
                               active: Option<bool>) returns (result: Outcome<()>)
      modifies this`products, this`audit
      ensures (Tables(), result) == UpdateProduct(old(Tables()), orgId, id, name, description, active)
    {
      if id >= |products| || !(orgId == 0 || products[id].funder == orgId) {
        return Fail(ProductNotFound);
      }
      var before := products[id];
      var product := before;
      if name.Some? {
        product := product.(name := name.value);
      }
      if description.Some? {
        product := product.(description := description);
      }
      if active.Some? {
        product := product.(active := active.value);
      }
      products := products[id := product];
      audit := audit + [ProductUpdated(id, before, product)];
      return Ok(());
    }

    /** Draw codes until one is free, five times at most. */
    method DrawCode(orgId: nat, draws: Draws) returns (code: string)
      ensures code == PickCode(products, orgId, draws)
    {
      var attempt := 0;
      code := BespokeCode(draws[attempt]);
      while attempt + 1 < |draws| && CodeTaken(products, orgId, code)
        invariant 0 <= attempt < |draws| && code == BespokeCode(draws[attempt])
        invariant PickCode(products, orgId, draws[attempt..]) == PickCode(products, orgId, draws)
        decreases |draws| - attempt
      {
        assert draws[attempt..][1..] == draws[attempt + 1..];
        attempt := attempt + 1;
        code := BespokeCode(draws[attempt]);
      }
    }

    method CreateBespokeProduct(now: int, orgId: nat, draws: Draws, name: string, description: Option<string>,
                                owner: nat, fields: Fields) returns (result: Outcome<nat>)
      modifies this`products, this`cards, this`audit, this`outbox
      ensures (Tables(), result)
           == CreateBespoke(old(Tables()), now, orgId, draws, name, description, owner, fields)
    {
      hide PickCode, CodeTaken, NewTerms, BrokenRule;
      if orgId == 0 {
        return Fail(NeedsFunder);
      }
      var broken := BrokenRule("CUSTOM", fields, None);
      if broken.Some? {
        return Fail(broken.value);
      }
      var code := DrawCode(orgId, draws);
      if CodeTaken(products, orgId, code) {
        return Fail(CodeExists);
      }
      products := products + [Product(code, name, description, true, Some(owner), orgId, true)];
      var card := Card(|products| - 1, 1, PUBLISHED, NewTerms(fields), Some(now));
      cards := cards + [card];
      audit := audit + [ProductCreated(|products| - 1)];
      outbox := outbox + [RateCardPublished(|cards| - 1, |products| - 1, code, 1, orgId, ParamsOf(card.terms))];
      return Ok(|products| - 1);
    }

    method CreateDraftCard(orgId: nat, product: nat, fields: Fields) returns (result: Outcome<nat>)
      modifies this`cards, this`audit
      ensures (Tables(), result) == CreateDraft(old(Tables()), orgId, product, fields)
    {
      if product >= |products| || !(orgId == 0 || products[product].funder == orgId) {
        return Fail(ProductNotFound);
      }
      var broken := BrokenRule(products[product].code, fields, None);
      if broken.Some? {
        return Fail(broken.value);
      }
      var version := LatestVersion(cards, product) + 1;
      cards := cards + [Card(product, version, DRAFT, NewTerms(fields), None)];
      audit := audit + [CardCreated(|cards| - 1, version, fields)];
      return Ok(|cards| - 1);
    }

    /** The request's fields are written over the card's one by one. */
    static method Amend(before: Terms, fields: Fields) returns (terms: Terms)
      ensures terms == Amended(before, fields)
    {
      terms := before;
      terms := terms.(minTenure := Or(fields.minTenure, terms.minTenure));
      terms := terms.(maxTenure := Or(fields.maxTenure, terms.maxTenure));
      if fields.apr.Some? { terms := terms.(apr := fields.apr); }
      if fields.advance.Some? { terms := terms.(advance := fields.advance); }
      if fields.discount.Some? { terms := terms.(discount := fields.discount); }
      terms := terms.(adminFee := Or(fields.adminFee, terms.adminFee));
      terms := terms.(reserve := Or(fields.reserve, terms.reserve));
      if fields.formula.Some? { terms := terms.(formula := fields.formula); }
      if fields.variables.Some? { terms := terms.(variables := fields.variables); }
    }

    method UpdateDraftCard(orgId: nat, card: nat, fields: Fields) returns (result: Outcome<()>)
      modifies this`cards, this`audit
      ensures (Tables(), result) == UpdateDraft(old(Tables()), orgId, card, fields)
    {
      if !CardInScope(Tables(), orgId, card) {
        return Fail(CardNotFound);
      }
      var row := cards[card];
      if row.status != DRAFT {
        return Fail(NotADraft);
      }
      var broken := BrokenRule(products[row.product].code, fields, Some(row.terms));
      if broken.Some? {
        return Fail(broken.value);
      }
      var terms := Amend(row.terms, fields);
      cards := cards[card := row.(terms := terms)];
      audit := audit + [CardUpdated(card, row.terms, terms)];
      return Ok(());
    }

    method PublishCard(now: int, orgId: nat, card: nat) returns (result: Outcome<()>)
      modifies this`cards, this`audit, this`outbox
      ensures (Tables(), result) == Publish(old(Tables()), now, orgId, card)
    {
      if !CardInScope(Tables(), orgId, card) {
        return Fail(CardNotFound);
      }
      var row := cards[card];
      if row.status != DRAFT {
        return Fail(NotADraft);
      }
      var current := FindPublished(cards, row.product);
      if current.Some? {
        cards := cards[current.value := cards[current.value].(status := ARCHIVED)];
        audit := audit + [CardArchived(current.value)];
      }
      row := row.(status := PUBLISHED);
      row := row.(publishedAt := Some(now));
      cards := cards[card := row];
      assert old(audit) + [] == old(audit);
      audit := audit + [CardPublished(card, row.version)];
      var product := products[row.product];
      outbox := outbox + [RateCardPublished(card, row.product, product.code, row.version, product.funder,
                                            ParamsOf(row.terms))];
      return Ok(());
    }

    method CreateAssignment(orgId: nat, product: nat, organization: nat) returns (result: Outcome<nat>)
      modifies this`assignments, this`audit, this`outbox
      ensures (Tables(), result) == Assign(old(Tables()), orgId, product, organization)
    {
      if product >= |products| || !(orgId == 0 || products[product].funder == orgId) {
        return Fail(ProductNotFound);
      }
      var row := products[product];
      if !row.active {
        return Fail(Inactive);
      }
      if row.bespoke && row.owner != Some(organization) {
        return Fail(NotTheOwner);
      }
      var published := FindPublished(cards, product);
      if published.None? {
        return Fail(NothingPublished);
      }
      var card := cards[published.value];
      if card.terms.apr.None? {
        return Fail(NoInterestRate);
      }
      assignments := assignments + [Assignment(organization, product, row.funder, published.value, card.version,
                                               card.terms.apr.value, card.terms.advance, card.terms.discount,
                                               card.terms.adminFee, card.terms.reserve, card.terms.maxTenure)];
      audit := audit + [Assigned(|assignments| - 1, organization, published.value, card.version)];
      outbox := outbox + [AssignmentCreated(|assignments| - 1, organization, product, row.code, row.funder)];
      return Ok(|assignments| - 1);
    }
  }
}
