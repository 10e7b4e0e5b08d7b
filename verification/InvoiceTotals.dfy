/** Invoice lines, tax subtotals and header totals.

    Amounts are exact reals, so the only rounding is the one the code asks for.
 */
module InvoiceTotals {
  import opened Wrappers

  datatype TaxCategory = STANDARD | ZERO_RATED | EXEMPT | REVERSE_CHARGE

  /** A number and the text that a template literal prints for it. */
  datatype Number = Number(value: real, text: string)

  datatype LineDto = LineDto(quantity: real, price: real, category: Option<TaxCategory>,
                             percent: Option<Number>, scheme: Option<string>)

  datatype InvoiceLine = InvoiceLine(number: nat, quantity: real, price: real, net: real,
                                     category: TaxCategory, percent: Number, scheme: string)

  /** An entry of the tax-group map, and the subtotal row made from it. */
  datatype Subtotal = Subtotal(taxable: real, tax: real, category: TaxCategory, percent: Number, scheme: string)

  datatype Totals = Totals(lines: seq<InvoiceLine>, subtotals: seq<Subtotal>, lineExtension: real,
                           taxExclusive: real, taxInclusive: real, payable: real)

  function CategoryText(category: TaxCategory): string {
    match category
    case STANDARD => "S"
    case ZERO_RATED => "Z"
    case EXEMPT => "E"
    case REVERSE_CHARGE => "AE"
  }

  function Category(line: LineDto): TaxCategory {
    if line.category.Some? then line.category.value else STANDARD
  }

  function Percent(line: LineDto): Number {
    if line.percent.Some? then line.percent.value else Number(0.0, "0")
  }

  function Scheme(line: LineDto): string {
    if line.scheme.Some? then line.scheme.value else "VAT"
  }

  function GroupKey(line: LineDto): string {
    CategoryText(Category(line)) + "|" + Percent(line).text + "|" + Scheme(line)
  }

  /** Number texts are faithful: one text for each value, one value for each text, and no bar. */
  ghost predicate PrintsFaithfully(lines: seq<LineDto>) {
    && (forall i :: 0 <= i < |lines| ==> '|' !in Percent(lines[i]).text)
    && (forall i, j :: 0 <= i < |lines| && 0 <= j < |lines| ==>
          (Percent(lines[i]).text == Percent(lines[j]).text <==> Percent(lines[i]).value == Percent(lines[j]).value))
  }

  // ---------------------------------------------------------------------------------------------
  // Rounding to cents
  // ---------------------------------------------------------------------------------------------

  /** `Math.round` rounds halves up. */
  function Round2(value: real): real {
    (value * 100.0 + 0.5).Floor as real / 100.0
  }

  predicate IsCents(value: real) {
    value * 100.0 == (value * 100.0).Floor as real
  }

  lemma RoundedIsCents(value: real)
    ensures IsCents(Round2(value))
    ensures -0.005 <= Round2(value) - value <= 0.005
  {
    var cents := (value * 100.0 + 0.5).Floor;
    assert Round2(value) * 100.0 == cents as real;
  }

  /** Rounding after adding whole cents is adding them after rounding. */
  lemma RoundPastCents(cents: real, value: real)
    requires IsCents(cents)
    ensures Round2(cents + value) == cents + Round2(value)
  {
    var c := (cents * 100.0).Floor;
    assert (cents + value) * 100.0 + 0.5 == c as real + (value * 100.0 + 0.5);
    assert ((cents + value) * 100.0 + 0.5).Floor == c + (value * 100.0 + 0.5).Floor;
  }

  lemma CentsAdd(a: real, b: real)
    requires IsCents(a) && IsCents(b)
    ensures IsCents(a + b) && Round2(a + b) == a + b
  {
    var m, n := (a * 100.0).Floor, (b * 100.0).Floor;
    assert (a + b) * 100.0 == (m + n) as real;
    assert ((m + n) as real).Floor == m + n;
    assert ((m + n) as real + 0.5).Floor == m + n;
    assert (m + n) as real / 100.0 == a + b;
  }

  // ---------------------------------------------------------------------------------------------
  // What the totals mean: sums over lines, each rounded once
  // ---------------------------------------------------------------------------------------------

  function Gross(line: LineDto): real {
    line.quantity * line.price
  }

  function Net(line: LineDto): real {
    Round2(Gross(line))
  }

  /** A percentage of an amount. */
  function Share(amount: real, percent: real): real {
    amount * (percent / 100.0)
  }

  function ExactTax(line: LineDto): real {
    Share(Net(line), Percent(line).value)
  }

  function Tax(line: LineDto): real {
    Round2(ExactTax(line))
  }

  function One(line: LineDto): real {
    1.0
  }

  predicate Belongs(line: LineDto, key: Option<string>) {
    key == None || GroupKey(line) == key.value
  }

  /** The sum of an amount over all lines, or over the lines of one group. */
  function Sum(lines: seq<LineDto>, amount: LineDto -> real, key: Option<string>): real {
    if lines == [] then 0.0
    else
      var last := lines[|lines| - 1];
      Sum(lines[..|lines| - 1], amount, key) + if Belongs(last, key) then amount(last) else 0.0
  }

  /** Group keys in the order of first use, which is the iteration order of the map. */
  function GroupKeys(lines: seq<LineDto>): seq<string> {
    if lines == [] then []
    else
      var keys, key := GroupKeys(lines[..|lines| - 1]), GroupKey(lines[|lines| - 1]);
      if key in keys then keys else keys + [key]
  }

  /** The line that opened a group. */
  function Opener(lines: seq<LineDto>, key: string): LineDto
    requires key in GroupKeys(lines)
  {
    var init := lines[..|lines| - 1];
    if key in GroupKeys(init) then Opener(init, key) else lines[|lines| - 1]
  }

  function SubtotalOf(lines: seq<LineDto>, key: string): Subtotal
    requires key in GroupKeys(lines)
  {
    var opener := Opener(lines, key);
    Subtotal(Sum(lines, Net, Some(key)), Sum(lines, Tax, Some(key)),
             Category(opener), Percent(opener), Scheme(opener))
  }

  function LineOf(line: LineDto, index: nat): InvoiceLine {
    InvoiceLine(index + 1, line.quantity, line.price, Net(line), Category(line), Percent(line), Scheme(line))
  }

  function TotalsOf(lines: seq<LineDto>): Totals {
    var net, tax := Sum(lines, Net, None), Sum(lines, Tax, None);
    Totals(seq(|lines|, i requires 0 <= i < |lines| => LineOf(lines[i], i)),
           seq(|GroupKeys(lines)|, j requires 0 <= j < |GroupKeys(lines)| => SubtotalOf(lines, GroupKeys(lines)[j])),
           net, net, net + tax, net + tax)
  }

  // ---------------------------------------------------------------------------------------------
  // Sums
  // ---------------------------------------------------------------------------------------------

  lemma SumAppend(lines: seq<LineDto>, line: LineDto, amount: LineDto -> real, key: Option<string>)
    ensures Sum(lines + [line], amount, key)
         == Sum(lines, amount, key) + if Belongs(line, key) then amount(line) else 0.0
  {
    assert (lines + [line])[..|lines|] == lines;
  }

  lemma SumNothing(amount: LineDto -> real, key: Option<string>)
    ensures Sum([], amount, key) == 0.0
  {
  }

  lemma {:induction false} SumConcat(a: seq<LineDto>, b: seq<LineDto>, amount: LineDto -> real, key: Option<string>)
    ensures Sum(a + b, amount, key) == Sum(a, amount, key) + Sum(b, amount, key)
  {
    hide Sum;
    if b == [] {
      SumNothing(amount, key);
      assert a + b == a;
    } else {
      var init, last := b[..|b| - 1], b[|b| - 1];
      SumConcat(a, init, amount, key);
      SumAppend(a + init, last, amount, key);
      assert a + b == a + init + [last];
      assert b == init + [last];
      SumAppend(init, last, amount, key);
    }
  }

  lemma LinesAreRounded(line: LineDto)
    ensures IsCents(Net(line)) && IsCents(Tax(line))
    ensures -0.005 <= Tax(line) - ExactTax(line) <= 0.005
  {
    RoundedIsCents(Gross(line));
    RoundedIsCents(ExactTax(line));
  }

  lemma {:induction false} SumOfCents(lines: seq<LineDto>, amount: LineDto -> real, key: Option<string>)
    requires forall line :: IsCents(amount(line))
    ensures IsCents(Sum(lines, amount, key))
  {
    if lines != [] {
      var init, last := lines[..|lines| - 1], lines[|lines| - 1];
      SumOfCents(init, amount, key);
      if Belongs(last, key) {
        CentsAdd(Sum(init, amount, key), amount(last));
      }
    }
  }

  lemma SumsAreCents(lines: seq<LineDto>, key: Option<string>)
    ensures IsCents(Sum(lines, Net, key)) && IsCents(Sum(lines, Tax, key))
  {
    forall line
      ensures IsCents(Net(line)) && IsCents(Tax(line))
    {
      LinesAreRounded(line);
    }
    SumOfCents(lines, Net, key);
    SumOfCents(lines, Tax, key);
  }

  lemma {:induction false} GroupKeysAreTheKeys(lines: seq<LineDto>)
    ensures forall key :: key in GroupKeys(lines) <==> exists i :: 0 <= i < |lines| && GroupKey(lines[i]) == key
    ensures forall m, n :: 0 <= m < n < |GroupKeys(lines)| ==> GroupKeys(lines)[m] != GroupKeys(lines)[n]
  {
    hide GroupKey;
    if lines != [] {
      var init := lines[..|lines| - 1];
      GroupKeysAreTheKeys(init);
      forall key
        ensures key in GroupKeys(lines) <==> exists i :: 0 <= i < |lines| && GroupKey(lines[i]) == key
      {
        if key in GroupKeys(init) {
          var i :| 0 <= i < |init| && GroupKey(init[i]) == key;
          assert GroupKey(lines[i]) == key;
        } else if key == GroupKey(lines[|lines| - 1]) {
        } else {
          forall i | 0 <= i < |lines|
            ensures GroupKey(lines[i]) != key
          {
            if i < |init| {
              assert init[i] == lines[i];
            }
          }
        }
      }
    }
  }

  lemma {:induction false} OpenerOpens(lines: seq<LineDto>, key: string)
    requires key in GroupKeys(lines)
    ensures Opener(lines, key) in lines && GroupKey(Opener(lines, key)) == key
  {
    var init := lines[..|lines| - 1];
    if key in GroupKeys(init) {
      OpenerOpens(init, key);
    }
  }

  lemma {:induction false} AbsentKeySumsToZero(lines: seq<LineDto>, amount: LineDto -> real, key: string)
    requires key !in GroupKeys(lines)
    ensures Sum(lines, amount, Some(key)) == 0.0
  {
    if lines != [] {
      AbsentKeySumsToZero(lines[..|lines| - 1], amount, key);
    }
  }

  /** The group sums for the listed keys, added up. */
  function SumOverKeys(lines: seq<LineDto>, amount: LineDto -> real, keys: seq<string>): real {
    if keys == [] then 0.0
    else SumOverKeys(lines, amount, keys[..|keys| - 1]) + Sum(lines, amount, Some(keys[|keys| - 1]))
  }

  lemma {:induction false} SumOverKeysAppend(lines: seq<LineDto>, line: LineDto, amount: LineDto -> real,
                                             keys: seq<string>)
    requires forall m, n :: 0 <= m < n < |keys| ==> keys[m] != keys[n]
    ensures SumOverKeys(lines + [line], amount, keys)
         == SumOverKeys(lines, amount, keys) + if GroupKey(line) in keys then amount(line) else 0.0
  {
    hide Sum, GroupKey;
    if keys != [] {
      var init, last := keys[..|keys| - 1], keys[|keys| - 1];
      SumOverKeysAppend(lines, line, amount, init);
      SumAppend(lines, line, amount, Some(last));
      assert keys == init + [last];
    }
  }

  lemma SumOverOneMoreKey(lines: seq<LineDto>, amount: LineDto -> real, keys: seq<string>, key: string)
    ensures SumOverKeys(lines, amount, keys + [key])
         == SumOverKeys(lines, amount, keys) + Sum(lines, amount, Some(key))
  {
    assert (keys + [key])[..|keys|] == keys;
  }

  /** Every line is in exactly one group. */
  lemma {:induction false} GroupsPartitionTheLines(lines: seq<LineDto>, amount: LineDto -> real)
    ensures SumOverKeys(lines, amount, GroupKeys(lines)) == Sum(lines, amount, None)
  {
    if lines != [] {
      var init, last := lines[..|lines| - 1], lines[|lines| - 1];
      var keys, key := GroupKeys(init), GroupKey(last);
      assert lines == init + [last];
      GroupsPartitionTheLines(init, amount);
      GroupKeysAreTheKeys(init);
      SumOverKeysAppend(init, last, amount, keys);
      if key !in keys {
        AbsentKeySumsToZero(init, amount, key);
        SumAppend(init, last, amount, Some(key));
        SumOverOneMoreKey(lines, amount, keys, key);
      }
    }
  }

  // ---------------------------------------------------------------------------------------------
  // Conservation
  // ---------------------------------------------------------------------------------------------

  function SumOfTaxable(subtotals: seq<Subtotal>): real {
    if subtotals == [] then 0.0
    else SumOfTaxable(subtotals[..|subtotals| - 1]) + subtotals[|subtotals| - 1].taxable
  }

  function SumOfTax(subtotals: seq<Subtotal>): real {
    if subtotals == [] then 0.0
    else SumOfTax(subtotals[..|subtotals| - 1]) + subtotals[|subtotals| - 1].tax
  }

  function SumOfNet(lines: seq<InvoiceLine>): real {
    if lines == [] then 0.0 else SumOfNet(lines[..|lines| - 1]) + lines[|lines| - 1].net
  }

  lemma {:induction false} SubtotalSums(lines: seq<LineDto>, keys: seq<string>, subtotals: seq<Subtotal>)
    requires |keys| == |subtotals|
    requires forall j :: 0 <= j < |keys| ==> keys[j] in GroupKeys(lines) && subtotals[j] == SubtotalOf(lines, keys[j])
    ensures SumOfTaxable(subtotals) == SumOverKeys(lines, Net, keys)
    ensures SumOfTax(subtotals) == SumOverKeys(lines, Tax, keys)
  {
    if keys != [] {
      SubtotalSums(lines, keys[..|keys| - 1], subtotals[..|keys| - 1]);
    }
  }

  lemma {:induction false} LineSums(lines: seq<LineDto>)
    ensures SumOfNet(TotalsOf(lines).lines) == Sum(lines, Net, None)
  {
    if lines != [] {
      var init := lines[..|lines| - 1];
      LineSums(init);
      assert TotalsOf(lines).lines[..|init|] == TotalsOf(init).lines;
    }
  }

  /** The money of the lines, of the subtotals and of the header is the same money. */
  lemma TotalsAreConserved(lines: seq<LineDto>)
    ensures var totals := TotalsOf(lines);
            && SumOfNet(totals.lines) == totals.lineExtension == totals.taxExclusive
            && SumOfTaxable(totals.subtotals) == totals.lineExtension
            && totals.taxInclusive - totals.taxExclusive == SumOfTax(totals.subtotals)
            && SumOfTax(totals.subtotals) == Sum(lines, Tax, None)
            && totals.payable == totals.taxInclusive
  {
    LineSums(lines);
    SubtotalSums(lines, GroupKeys(lines), TotalsOf(lines).subtotals);
    GroupsPartitionTheLines(lines, Net);
    GroupsPartitionTheLines(lines, Tax);
  }

  // ---------------------------------------------------------------------------------------------
  // The loop
  // ---------------------------------------------------------------------------------------------

  /** The loop's map, and its iteration order, after the lines read so far. */
  ghost predicate GroupsAre(groups: map<string, Subtotal>, order: seq<string>, lines: seq<LineDto>) {
    && order == GroupKeys(lines)
    && (forall key :: key in groups <==> key in order)
    && (forall key :: key in groups ==> groups[key] == SubtotalOf(lines, key))
  }

  /** The group a line updates, before it is updated. */
  function GroupFor(groups: map<string, Subtotal>, line: LineDto): Subtotal {
    if GroupKey(line) in groups then groups[GroupKey(line)]
    else Subtotal(0.0, 0.0, Category(line), Percent(line), Scheme(line))
  }

  lemma GroupGrows(lines: seq<LineDto>, line: LineDto, key: string, groups: map<string, Subtotal>)
    requires key in GroupKeys(lines + [line]) && GroupsAre(groups, GroupKeys(lines), lines)
    ensures key != GroupKey(line) ==> key in groups && SubtotalOf(lines + [line], key) == groups[key]
    ensures key == GroupKey(line) ==>
              var group := GroupFor(groups, line);
              SubtotalOf(lines + [line], key)
              == group.(taxable := Round2(group.taxable + Net(line)), tax := Round2(group.tax + ExactTax(line)))
  {
    hide Sum, Round2, IsCents, Net, ExactTax, GroupKey;
    assert (lines + [line])[..|lines|] == lines;
    SumAppend(lines, line, Net, Some(key));
    SumAppend(lines, line, Tax, Some(key));
    if key == GroupKey(line) {
      SumsAreCents(lines, Some(key));
      LinesAreRounded(line);
      CentsAdd(Sum(lines, Net, Some(key)), Net(line));
      RoundPastCents(Sum(lines, Tax, Some(key)), ExactTax(line));
      if key !in GroupKeys(lines) {
        AbsentKeySumsToZero(lines, Net, key);
        AbsentKeySumsToZero(lines, Tax, key);
      }
    }
  }

  lemma GroupsAdvance(groups: map<string, Subtotal>, order: seq<string>, lines: seq<LineDto>, line: LineDto,
                      updated: Subtotal)
    requires GroupsAre(groups, order, lines)
    requires var group := GroupFor(groups, line);
             updated == group.(taxable := Round2(group.taxable + Net(line)), tax := Round2(group.tax + ExactTax(line)))
    ensures var key := GroupKey(line);
            GroupsAre(groups[key := updated], if key in groups then order else order + [key], lines + [line])
  {
    var key := GroupKey(line);
    assert (lines + [line])[..|lines|] == lines;
    forall k | k in GroupKeys(lines + [line])
      ensures SubtotalOf(lines + [line], k) == groups[key := updated][k]
    {
      GroupGrows(lines, line, k, groups);
    }
  }

  method SumSubtotalTax(subtotals: seq<Subtotal>) returns (total: real)
    ensures total == SumOfTax(subtotals)
  {
    total := 0.0;
    for j := 0 to |subtotals|
      invariant total == SumOfTax(subtotals[..j])
    {
      assert subtotals[..j + 1][..j] == subtotals[..j];
      total := total + subtotals[j].tax;
    }
    assert subtotals[..|subtotals|] == subtotals;
  }

  /** The roundings in the header change nothing: they are applied to whole cents. */
  lemma HeaderIsRounded(dtoLines: seq<LineDto>, totals: Totals)
    requires totals.lines == TotalsOf(dtoLines).lines && totals.subtotals == TotalsOf(dtoLines).subtotals
    requires totals.lineExtension == totals.taxExclusive == Round2(Sum(dtoLines, Net, None))
    requires totals.payable == totals.taxInclusive
          == Round2(totals.lineExtension + Round2(Sum(dtoLines, Tax, None)))
    ensures totals == TotalsOf(dtoLines)
  {
    var net, tax := Sum(dtoLines, Net, None), Sum(dtoLines, Tax, None);
    SumsAreCents(dtoLines, None);
    CentsAdd(net, 0.0);
    CentsAdd(tax, 0.0);
    CentsAdd(net, tax);
  }

  /** The callback that the loop runs for one line. */
  method AddLine(dto: LineDto, index: nat, taxGroups: map<string, Subtotal>, order: seq<string>,
                 ghost before: seq<LineDto>)
    returns (line: InvoiceLine, taxGroups': map<string, Subtotal>, order': seq<string>)
    requires GroupsAre(taxGroups, order, before)
    ensures line == LineOf(dto, index)
    ensures GroupsAre(taxGroups', order', before + [dto])
  {
    var net := Net(dto);
    var key := GroupKey(dto);
    var group := if key in taxGroups then taxGroups[key]
                 else Subtotal(0.0, 0.0, Category(dto), Percent(dto), Scheme(dto));
    group := group.(taxable := Round2(group.taxable + net));
    group := group.(tax := Round2(group.tax + ExactTax(dto)));
    GroupsAdvance(taxGroups, order, before, dto, group);
    order' := if key in taxGroups then order else order + [key];
    taxGroups' := taxGroups[key := group];
    line := InvoiceLine(index + 1, dto.quantity, dto.price, net, Category(dto), Percent(dto), Scheme(dto));
  }

  lemma RowsAreThoseOf(dtoLines: seq<LineDto>, lines: seq<InvoiceLine>, keys: seq<string>, subtotals: seq<Subtotal>)
    requires keys == GroupKeys(dtoLines) && |subtotals| == |keys| && |lines| == |dtoLines|
    requires forall j :: 0 <= j < |lines| ==> lines[j] == LineOf(dtoLines[j], j)
    requires forall j :: 0 <= j < |keys| ==>
               keys[j] in GroupKeys(dtoLines) && subtotals[j] == SubtotalOf(dtoLines, keys[j])
    ensures TotalsOf(dtoLines).lines == lines && TotalsOf(dtoLines).subtotals == subtotals
    ensures SumOfTax(subtotals) == Sum(dtoLines, Tax, None)
  {
    SubtotalSums(dtoLines, keys, subtotals);
    GroupsPartitionTheLines(dtoLines, Tax);
    assert TotalsOf(dtoLines).subtotals == subtotals;
  }

  lemma NothingYet()
    ensures Sum([], Net, None) == 0.0 && GroupsAre(map[], [], [])
  {
  }

  /** Rounding at every step computes the sums of lines that were each rounded once. */
  method BuildLinesAndTotals(dtoLines: seq<LineDto>) returns (totals: Totals)
    ensures totals == TotalsOf(dtoLines)
  {
    hide Sum, Round2, Tax, ExactTax, SumOfTax, TotalsOf, SubtotalOf, GroupKeys, GroupKey;
    NothingYet();
    var lines: seq<InvoiceLine> := [];
    var taxGroups: map<string, Subtotal>, order: seq<string> := map[], [];
    var lineExtension := 0.0;
    for i := 0 to |dtoLines|
      invariant |lines| == i && forall j :: 0 <= j < i ==> lines[j] == LineOf(dtoLines[j], j)
      invariant lineExtension == Sum(dtoLines[..i], Net, None)
      invariant GroupsAre(taxGroups, order, dtoLines[..i])
    {
      var line;
      line, taxGroups, order := AddLine(dtoLines[i], i, taxGroups, order, dtoLines[..i]);
      lineExtension := lineExtension + line.net;
      lines := lines + [line];
      assert dtoLines[..i + 1] == dtoLines[..i] + [dtoLines[i]];
      SumAppend(dtoLines[..i], dtoLines[i], Net, None);
    }
    assert dtoLines[..|dtoLines|] == dtoLines;
    var subtotals := seq(|order|, j requires 0 <= j < |order| && order[j] in taxGroups => taxGroups[order[j]]);
    RowsAreThoseOf(dtoLines, lines, order, subtotals);
    lineExtension := Round2(lineExtension);
    var totalTax := SumSubtotalTax(subtotals);
    totalTax := Round2(totalTax);
    var taxInclusive := Round2(lineExtension + totalTax);
    totals := Totals(lines, subtotals, lineExtension, lineExtension, taxInclusive, taxInclusive);
    HeaderIsRounded(dtoLines, totals);
  }

  // ---------------------------------------------------------------------------------------------
  // Order independence
  // ---------------------------------------------------------------------------------------------

  lemma SumWithout(lines: seq<LineDto>, j: nat, amount: LineDto -> real, key: Option<string>)
    requires j < |lines|
    ensures Sum(lines, amount, key)
         == Sum(lines[..j] + lines[j + 1..], amount, key)
            + if Belongs(lines[j], key) then amount(lines[j]) else 0.0
  {
    assert lines == lines[..j] + [lines[j]] + lines[j + 1..];
    SumConcat(lines[..j], lines[j + 1..], amount, key);
    SumConcat(lines[..j] + [lines[j]], lines[j + 1..], amount, key);
    SumAppend(lines[..j], lines[j], amount, key);
  }

  lemma TakeOut(a: seq<LineDto>, b: seq<LineDto>) returns (j: nat)
    requires a != [] && multiset(a) == multiset(b)
    ensures j < |b| && b[j] == a[|a| - 1]
    ensures multiset(a[..|a| - 1]) == multiset(b[..j] + b[j + 1..])
  {
    var last := a[|a| - 1];
    assert a == a[..|a| - 1] + [last];
    assert last in multiset(b);
    j :| 0 <= j < |b| && b[j] == last;
    assert b == b[..j] + [last] + b[j + 1..];
    assert multiset(b[..j] + b[j + 1..]) == multiset(b) - multiset{last};
    assert multiset(a[..|a| - 1]) == multiset(a) - multiset{last};
  }

  lemma {:induction false} SumPermutes(a: seq<LineDto>, b: seq<LineDto>, amount: LineDto -> real, key: Option<string>)
    requires multiset(a) == multiset(b)
    ensures Sum(a, amount, key) == Sum(b, amount, key)
  {
    if a == [] {
      assert b == [];
    } else {
      var init, last := a[..|a| - 1], a[|a| - 1];
      assert a == init + [last];
      var j := TakeOut(a, b);
      SumPermutes(init, b[..j] + b[j + 1..], amount, key);
      SumWithout(b, j, amount, key);
    }
  }

  /** Reordering the lines changes no total, and no subtotal of any group. */
  lemma TotalsPermute(a: seq<LineDto>, b: seq<LineDto>)
    requires multiset(a) == multiset(b) && PrintsFaithfully(a)
    ensures var s, t := TotalsOf(a), TotalsOf(b);
            && s.lineExtension == t.lineExtension && s.taxExclusive == t.taxExclusive
            && s.taxInclusive == t.taxInclusive && s.payable == t.payable
    ensures forall key :: key in GroupKeys(a) <==> key in GroupKeys(b)
    ensures forall key :: key in GroupKeys(a) ==> SubtotalOf(a, key) == SubtotalOf(b, key)
  {
    SumPermutes(a, b, Net, None);
    SumPermutes(a, b, Tax, None);
    SameElements(a, b);
    GroupKeysAreTheKeys(a);
    GroupKeysAreTheKeys(b);
    forall key | key in GroupKeys(a)
      ensures key in GroupKeys(b) && SubtotalOf(a, key) == SubtotalOf(b, key)
    {
      var i :| 0 <= i < |a| && GroupKey(a[i]) == key;
      assert a[i] in b;
      SumPermutes(a, b, Net, Some(key));
      SumPermutes(a, b, Tax, Some(key));
      OpenerOpens(a, key);
      OpenerOpens(b, key);
      KeysSeparate(a, Opener(a, key), Opener(b, key));
    }
    forall key | key in GroupKeys(b)
      ensures key in GroupKeys(a)
    {
      var i :| 0 <= i < |b| && GroupKey(b[i]) == key;
      assert b[i] in a;
    }
  }

  lemma SameElements(a: seq<LineDto>, b: seq<LineDto>)
    requires multiset(a) == multiset(b)
    ensures forall line :: line in a <==> line in b
  {
    forall line
      ensures line in a <==> line in b
    {
      assert line in a <==> line in multiset(a);
      assert line in b <==> line in multiset(b);
    }
  }

  // ---------------------------------------------------------------------------------------------
  // The group key separates groups
  // ---------------------------------------------------------------------------------------------

  lemma {:induction false} FirstBarSplits(p: string, q: string, p': string, q': string)
    requires '|' !in p && '|' !in p'
    requires p + "|" + q == p' + "|" + q'
    ensures p == p' && q == q'
  {
    var s, t := p + "|" + q, p' + "|" + q';
    assert s[|p|] == '|' && forall i :: 0 <= i < |p| ==> s[i] == p[i];
    assert t[|p'|] == '|' && forall i :: 0 <= i < |p'| ==> t[i] == p'[i];
    assert |p| == |p'|;
    assert s[..|p|] == p && t[..|p|] == p';
    assert s[|p| + 1..] == q && t[|p| + 1..] == q';
  }

  /** Lines share a group exactly when they share category, percentage and scheme, even if the scheme
      contains a bar. */
  lemma KeysSeparate(lines: seq<LineDto>, a: LineDto, b: LineDto)
    requires PrintsFaithfully(lines) && a in lines && b in lines
    ensures GroupKey(a) == GroupKey(b)
       <==> Category(a) == Category(b) && Percent(a).value == Percent(b).value && Scheme(a) == Scheme(b)
    ensures GroupKey(a) == GroupKey(b) ==> Percent(a) == Percent(b)
  {
    var pa, pb := CategoryText(Category(a)), CategoryText(Category(b));
    var qa, qb := Percent(a).text + "|" + Scheme(a), Percent(b).text + "|" + Scheme(b);
    assert GroupKey(a) == pa + "|" + qa && GroupKey(b) == pb + "|" + qb;
    if GroupKey(a) == GroupKey(b) {
      FirstBarSplits(pa, qa, pb, qb);
      FirstBarSplits(Percent(a).text, Scheme(a), Percent(b).text, Scheme(b));
    }
  }

  // ---------------------------------------------------------------------------------------------
  // How far rounding can drift
  // ---------------------------------------------------------------------------------------------

  lemma {:induction false} RoundingDrift(lines: seq<LineDto>, key: Option<string>)
    ensures var drift := Sum(lines, Tax, key) - Sum(lines, ExactTax, key);
            -Sum(lines, One, key) / 200.0 <= drift <= Sum(lines, One, key) / 200.0
  {
    if lines != [] {
      var init, last := lines[..|lines| - 1], lines[|lines| - 1];
      RoundingDrift(init, key);
      LinesAreRounded(last);
    }
  }

  lemma {:induction false} ExactTaxOfGroup(lines: seq<LineDto>, key: string, percent: real)
    requires forall i :: 0 <= i < |lines| && GroupKey(lines[i]) == key ==> Percent(lines[i]).value == percent
    ensures Sum(lines, ExactTax, Some(key)) == Share(Sum(lines, Net, Some(key)), percent)
  {
    if lines != [] {
      var init, last := lines[..|lines| - 1], lines[|lines| - 1];
      ExactTaxOfGroup(init, key, percent);
      if GroupKey(last) == key {
        SharesAdd(Sum(init, Net, Some(key)), Net(last), percent);
      }
    }
  }

  lemma SharesAdd(a: real, b: real, percent: real)
    ensures Share(a + b, percent) == Share(a, percent) + Share(b, percent)
  {
  }

  /** The tax of a group of n lines is within n/200 of its percentage of the group's taxable amount. */
  lemma GroupTaxIsClose(lines: seq<LineDto>, key: string)
    requires PrintsFaithfully(lines) && key in GroupKeys(lines)
    ensures var subtotal, n := SubtotalOf(lines, key), Sum(lines, One, Some(key));
            -n / 200.0 <= subtotal.tax - Share(subtotal.taxable, subtotal.percent.value) <= n / 200.0
  {
    var opener := Opener(lines, key);
    OpenerOpens(lines, key);
    GroupSharesPercent(lines, key, opener);
    GroupDrift(lines, key, Percent(opener).value);
  }

  lemma GroupDrift(lines: seq<LineDto>, key: string, percent: real)
    requires forall i :: 0 <= i < |lines| && GroupKey(lines[i]) == key ==> Percent(lines[i]).value == percent
    ensures var n, drift := Sum(lines, One, Some(key)),
                            Sum(lines, Tax, Some(key)) - Share(Sum(lines, Net, Some(key)), percent);
            -n / 200.0 <= drift <= n / 200.0
  {
    RoundingDrift(lines, Some(key));
    ExactTaxOfGroup(lines, key, percent);
  }

  lemma GroupSharesPercent(lines: seq<LineDto>, key: string, opener: LineDto)
    requires PrintsFaithfully(lines) && opener in lines && GroupKey(opener) == key
    ensures forall i :: 0 <= i < |lines| && GroupKey(lines[i]) == key ==>
              Percent(lines[i]).value == Percent(opener).value
  {
    forall i | 0 <= i < |lines| && GroupKey(lines[i]) == key
      ensures Percent(lines[i]).value == Percent(opener).value
    {
      KeysSeparate(lines, lines[i], opener);
    }
  }

  lemma {:induction false} LinesAreCounted(lines: seq<LineDto>)
    ensures Sum(lines, One, None) == |lines| as real
  {
    if lines != [] {
      LinesAreCounted(lines[..|lines| - 1]);
    }
  }

  /** The tax in the header of N lines is within N/200 of the unrounded tax of the lines. */
  lemma HeaderTaxIsClose(lines: seq<LineDto>)
    ensures var totals := TotalsOf(lines);
            var drift := totals.taxInclusive - totals.taxExclusive - Sum(lines, ExactTax, None);
            -(|lines| as real) / 200.0 <= drift <= |lines| as real / 200.0
  {
    RoundingDrift(lines, None);
    LinesAreCounted(lines);
  }

  /** The bound is reached for every number of lines: half a unit at one percent each. */
  lemma {:induction false} DriftIsReached(n: nat)
    ensures var line := LineDto(0.5, 1.0, None, Some(Number(1.0, "1")), None);
            var lines := seq(n, _ => line);
            Sum(lines, Tax, None) - Sum(lines, ExactTax, None) == n as real / 200.0
  {
    var line := LineDto(0.5, 1.0, None, Some(Number(1.0, "1")), None);
    if n > 0 {
      DriftIsReached(n - 1);
      assert seq(n, _ => line)[..n - 1] == seq(n - 1, _ => line);
      assert Net(line) == 0.5 by {
        assert (0.5 * 1.0 * 100.0 + 0.5).Floor == 50;
      }
      assert ExactTax(line) == 0.005;
      assert Round2(0.005) == 0.01 by {
        assert (0.005 * 100.0 + 0.5).Floor == 1;
      }
    }
  }
}
