/** The amounts of an invoice against the request: quantities, prices and percentages, before any rounding. */
module InvoiceAmounts {
  import opened InvoiceTotals
  import opened Wrappers

  ghost predicate WholeCents(value: real) {
    exists cents: int :: CentsOf(cents) == value
  }

  function CentsOf(cents: int): real {
    cents as real / 100.0
  }

  function Rate(line: LineDto): real {
    match line.percent
    case None => 0.0
    case Some(percent) => percent.value
  }

  function Size(value: real): real {
    if value < 0.0 then -value else value
  }

  function AskedFor(line: LineDto): real {
    line.quantity * line.price
  }

  /** Quantity times price, over all lines. */
  function Asked(lines: seq<LineDto>): real {
    if lines == [] then 0.0
    else Asked(lines[..|lines| - 1]) + AskedFor(lines[|lines| - 1])
  }

  /** An amount with a percentage of it on top. */
  function WithTax(amount: real, percent: real): real {
    amount * (1.0 + percent / 100.0)
  }

  /** The same with each line's tax on top. */
  function AskedWithTax(lines: seq<LineDto>): real {
    if lines == [] then 0.0
    else
      var last := lines[|lines| - 1];
      AskedWithTax(lines[..|lines| - 1]) + WithTax(AskedFor(last), Rate(last))
  }

  /** Half a cent for the net amount of each line, the tax on that, and half a cent for its tax. */
  function Slack(lines: seq<LineDto>): real {
    if lines == [] then 0.0
    else Slack(lines[..|lines| - 1]) + 0.005 * (2.0 + Size(Rate(lines[|lines| - 1])) / 100.0)
  }

  lemma RoundingGoesUp(value: real)
    ensures WholeCents(Round2(value)) && -0.005 < Round2(value) - value <= 0.005
  {
    var cents := (value * 100.0 + 0.5).Floor;
    assert Round2(value) == CentsOf(cents);
  }

  /** A line of the invoice is the line of the request, numbered, with the defaults for what was left out, and with the
      whole number of cents nearest to quantity times price, halves going up. */
  lemma LineIsAsAsked(lines: seq<LineDto>, i: nat)
    requires i < |lines|
    ensures |TotalsOf(lines).lines| == |lines|
    ensures var row, line := TotalsOf(lines).lines[i], lines[i];
      && row.number == i + 1 && row.quantity == line.quantity && row.price == line.price
      && Some(row.category) == (if line.category == None then Some(STANDARD) else line.category)
      && Some(row.percent) == (if line.percent == None then Some(Number(0.0, "0")) else line.percent)
      && Some(row.scheme) == (if line.scheme == None then Some("VAT") else line.scheme)
      && WholeCents(row.net) && -0.005 < row.net - AskedFor(line) <= 0.005
  {
    LineRow(lines, i);
    NetIsClose(lines[i]);
    hide TotalsOf, Net;
  }

  lemma LineRow(lines: seq<LineDto>, i: nat)
    requires i < |lines|
    ensures |TotalsOf(lines).lines| == |lines| && TotalsOf(lines).lines[i] == LineOf(lines[i], i)
  {
    hide Sum, GroupKeys, SubtotalOf, LineOf;
  }

  lemma NetIsClose(line: LineDto)
    ensures WholeCents(Net(line)) && -0.005 < Net(line) - AskedFor(line) <= 0.005
  {
    assert Gross(line) == AskedFor(line);
    hide Round2, WholeCents, Gross, AskedFor;
    RoundingGoesUp(Gross(line));
  }

  lemma {:induction false} NetsAreClose(lines: seq<LineDto>)
    ensures -(|lines| as real) / 200.0 <= Sum(lines, Net, None) - Asked(lines) <= |lines| as real / 200.0
  {
    hide Round2, WholeCents, AskedFor;
    if lines != [] {
      var init, last := lines[..|lines| - 1], lines[|lines| - 1];
      NetsAreClose(init);
      NetIsClose(last);
      assert Sum(lines, Net, None) == Sum(init, Net, None) + Net(last);
      assert Asked(lines) == Asked(init) + AskedFor(last);
      assert |lines| as real == |init| as real + 1.0;
    }
  }

  lemma CentsAreWhole(value: real)
    requires IsCents(value)
    ensures WholeCents(value)
  {
    assert CentsOf((value * 100.0).Floor) == value;
  }

  /** The line extension of N lines is a whole number of cents within N/200 of the unrounded amount. */
  lemma ExtensionIsClose(lines: seq<LineDto>)
    ensures var totals, n := TotalsOf(lines), |lines| as real;
      WholeCents(totals.lineExtension) && -n / 200.0 <= totals.lineExtension - Asked(lines) <= n / 200.0
  {
    NetsAreClose(lines);
    SumsAreCents(lines, None);
    hide Sum, IsCents, WholeCents;
    CentsAreWhole(Sum(lines, Net, None));
  }

  lemma Scaled(a: real, b: real, factor: real)
    requires -0.005 <= a - b <= 0.005
    ensures -0.005 * Size(factor) <= a * factor - b * factor <= 0.005 * Size(factor)
  {
    var d := a - b;
    if factor >= 0.0 {
      NoNegativeProduct(0.005 - d, factor);
      NoNegativeProduct(d + 0.005, factor);
    } else {
      NoNegativeProduct(0.005 - d, -factor);
      NoNegativeProduct(d + 0.005, -factor);
    }
  }

  lemma NoNegativeProduct(a: real, b: real)
    requires a >= 0.0 && b >= 0.0
    ensures a * b >= 0.0
  {
  }

  lemma TaxIsClose(line: LineDto, rate: real)
    requires rate == Rate(line) / 100.0
    ensures -0.005 < Tax(line) - Net(line) * rate <= 0.005
  {
    assert Percent(line).value == Rate(line);
    hide Net, Round2, WholeCents;
    assert ExactTax(line) == Net(line) * rate;
    RoundingGoesUp(ExactTax(line));
  }

  lemma WithTaxSplits(amount: real, percent: real, rate: real)
    requires rate == percent / 100.0
    ensures WithTax(amount, percent) == amount + amount * rate && Size(rate) == Size(percent) / 100.0
  {
  }

  lemma SlacksAdd(asked: real, net: real, tax: real, exact: real, shifted: real, size: real)
    requires -0.005 <= net - asked <= 0.005 && -0.005 <= tax - shifted <= 0.005
    requires -0.005 * size <= shifted - exact <= 0.005 * size
    ensures -0.005 * (2.0 + size) <= net + tax - (asked + exact) <= 0.005 * (2.0 + size)
  {
  }

  lemma WithTaxIsClose(asked: real, net: real, tax: real, percent: real, rate: real)
    requires rate == percent / 100.0
    requires -0.005 <= net - asked <= 0.005 && -0.005 <= tax - net * rate <= 0.005
    ensures var slack := 0.005 * (2.0 + Size(percent) / 100.0);
      -slack <= net + tax - WithTax(asked, percent) <= slack
  {
    hide *;
    WithTaxSplits(asked, percent, rate);
    Scaled(net, asked, rate);
    SlacksAdd(asked, net, tax, asked * rate, net * rate, Size(rate));
  }

  lemma LineWithTaxIsClose(line: LineDto)
    ensures var drift := Net(line) + Tax(line) - WithTax(AskedFor(line), Rate(line));
      var slack := 0.005 * (2.0 + Size(Rate(line)) / 100.0);
      -slack <= drift <= slack
  {
    hide *;
    NetIsClose(line);
    var rate := Rate(line) / 100.0;
    TaxIsClose(line, rate);
    WithTaxIsClose(AskedFor(line), Net(line), Tax(line), Rate(line), rate);
  }

  lemma {:induction false} LinesWithTaxAreClose(lines: seq<LineDto>)
    ensures -Slack(lines) <= Sum(lines, Net, None) + Sum(lines, Tax, None) - AskedWithTax(lines) <= Slack(lines)
  {
    hide Round2, ExactTax, Rate, Size, WithTax, AskedFor;
    if lines != [] {
      LinesWithTaxAreClose(lines[..|lines| - 1]);
      LineWithTaxIsClose(lines[|lines| - 1]);
    }
  }

  predicate UsualRates(lines: seq<LineDto>) {
    forall i :: 0 <= i < |lines| ==> 0.0 <= Rate(lines[i]) <= 100.0
  }

  lemma {:induction false} SlackOfUsualRates(lines: seq<LineDto>)
    requires UsualRates(lines)
    ensures Slack(lines) <= 3.0 * (|lines| as real) / 200.0
  {
    if lines != [] {
      SlackOfUsualRates(lines[..|lines| - 1]);
    }
  }

  lemma PayableIsASum(lines: seq<LineDto>)
    ensures var totals := TotalsOf(lines);
      && totals.payable == totals.taxInclusive == Sum(lines, Net, None) + Sum(lines, Tax, None)
      && WholeCents(totals.payable)
  {
    SumsAreCents(lines, None);
    hide Sum, IsCents, WholeCents;
    CentsAdd(Sum(lines, Net, None), Sum(lines, Tax, None));
    CentsAreWhole(Sum(lines, Net, None) + Sum(lines, Tax, None));
  }

  /** The amount to pay is a whole number of cents within that slack of the unrounded amount with tax, and so, for
      percentages of 0 to 100, within three half cents for each line. */
  lemma PayableIsClose(lines: seq<LineDto>)
    ensures var totals, n := TotalsOf(lines), |lines| as real;
      && totals.payable == totals.taxInclusive && WholeCents(totals.payable)
      && -Slack(lines) <= totals.payable - AskedWithTax(lines) <= Slack(lines)
      && (UsualRates(lines) ==> -3.0 * n / 200.0 <= totals.payable - AskedWithTax(lines) <= 3.0 * n / 200.0)
  {
    hide *;
    PayableIsASum(lines);
    LinesWithTaxAreClose(lines);
    if UsualRates(lines) {
      SlackOfUsualRates(lines);
    }
  }

  // ---------------------------------------------------------------------------------------------
  // Subtotals
  // ---------------------------------------------------------------------------------------------

  function PercentOf(amount: real, percent: real): real {
    amount * percent / 100.0
  }

  predicate InGroup(row: InvoiceLine, subtotal: Subtotal) {
    && row.category == subtotal.category && row.percent.value == subtotal.percent.value
    && row.scheme == subtotal.scheme
  }

  function NetOfGroup(rows: seq<InvoiceLine>, subtotal: Subtotal): real {
    if rows == [] then 0.0
    else
      var last := rows[|rows| - 1];
      NetOfGroup(rows[..|rows| - 1], subtotal) + if InGroup(last, subtotal) then last.net else 0.0
  }

  lemma GroupIsOfKey(lines: seq<LineDto>, j: nat)
    requires PrintsFaithfully(lines) && j < |GroupKeys(lines)|
    ensures var key, subtotal := GroupKeys(lines)[j], TotalsOf(lines).subtotals[j];
      && subtotal == SubtotalOf(lines, key)
      && forall i :: 0 <= i < |lines| ==> (InGroup(LineOf(lines[i], i), subtotal) <==> GroupKey(lines[i]) == key)
  {
    var key := GroupKeys(lines)[j];
    var subtotal := SubtotalOf(lines, key);
    assert subtotal == TotalsOf(lines).subtotals[j];
    OpenerOpens(lines, key);
    hide GroupKey, Net, PrintsFaithfully, Sum;
    forall i | 0 <= i < |lines|
      ensures InGroup(LineOf(lines[i], i), subtotal) <==> GroupKey(lines[i]) == key
    {
      KeysSeparate(lines, lines[i], Opener(lines, key));
    }
  }

  lemma {:induction false} NetOfKey(lines: seq<LineDto>, subtotal: Subtotal, key: string)
    requires forall i :: 0 <= i < |lines| ==> (InGroup(LineOf(lines[i], i), subtotal) <==> GroupKey(lines[i]) == key)
    ensures NetOfGroup(TotalsOf(lines).lines, subtotal) == Sum(lines, Net, Some(key))
  {
    hide GroupKey, Net, InGroup, SubtotalOf, GroupKeys;
    if lines != [] {
      var init := lines[..|lines| - 1];
      NetOfKey(init, subtotal, key);
      assert TotalsOf(lines).lines[..|init|] == TotalsOf(init).lines;
    }
  }

  /** Each subtotal has the net amounts of exactly the lines of its category, percentage and scheme, of which there is
      one, and its tax is within half a cent per line of its percentage of that. No two subtotals are of one group. */
  lemma SubtotalIsOfItsGroup(lines: seq<LineDto>, j: nat)
    requires PrintsFaithfully(lines) && j < |TotalsOf(lines).subtotals|
    ensures var totals := TotalsOf(lines);
      var subtotal, n := totals.subtotals[j], |lines| as real;
      && subtotal.taxable == NetOfGroup(totals.lines, subtotal)
      && (exists i :: 0 <= i < |totals.lines| && InGroup(totals.lines[i], subtotal))
      && -n / 200.0 <= subtotal.tax - PercentOf(subtotal.taxable, subtotal.percent.value) <= n / 200.0
  {
    var key := KeyOfSubtotal(lines, j);
    var subtotal := TotalsOf(lines).subtotals[j];
    GroupIsOfKey(lines, j);
    hide *;
    NetOfKey(lines, subtotal, key);
    GroupTax(lines, key);
    var i := KeyHasLine(lines, key);
    LineRow(lines, i);
    assert InGroup(TotalsOf(lines).lines[i], subtotal);
  }

  lemma KeyOfSubtotal(lines: seq<LineDto>, j: nat) returns (key: string)
    requires j < |TotalsOf(lines).subtotals|
    ensures j < |GroupKeys(lines)| && key == GroupKeys(lines)[j]
  {
    hide Sum, GroupKeys, SubtotalOf, LineOf;
    key := GroupKeys(lines)[j];
  }

  lemma GroupTax(lines: seq<LineDto>, key: string)
    requires PrintsFaithfully(lines) && key in GroupKeys(lines)
    ensures var subtotal, n := SubtotalOf(lines, key), |lines| as real;
      && subtotal.taxable == Sum(lines, Net, Some(key))
      && -n / 200.0 <= subtotal.tax - PercentOf(subtotal.taxable, subtotal.percent.value) <= n / 200.0
  {
    var subtotal := SubtotalOf(lines, key);
    ShareIsPercent(subtotal.taxable, subtotal.percent.value);
    assert subtotal.taxable == Sum(lines, Net, Some(key));
    hide *;
    GroupTaxIsClose(lines, key);
    GroupIsCounted(lines, key);
  }

  lemma ShareIsPercent(amount: real, percent: real)
    ensures Share(amount, percent) == PercentOf(amount, percent)
  {
  }

  lemma {:induction false} GroupIsCounted(lines: seq<LineDto>, key: string)
    ensures Sum(lines, One, Some(key)) <= |lines| as real
  {
    if lines != [] {
      GroupIsCounted(lines[..|lines| - 1], key);
    }
  }

  lemma KeyOfLine(lines: seq<LineDto>, i: nat)
    requires i < |lines|
    ensures GroupKey(lines[i]) in GroupKeys(lines)
  {
    GroupKeysAreTheKeys(lines);
    hide GroupKey, GroupKeys;
  }

  lemma KeyHasLine(lines: seq<LineDto>, key: string) returns (i: nat)
    requires key in GroupKeys(lines)
    ensures i < |lines| && GroupKey(lines[i]) == key
  {
    GroupKeysAreTheKeys(lines);
    hide GroupKey, GroupKeys;
    i :| 0 <= i < |lines| && GroupKey(lines[i]) == key;
  }

  /** Every line is in the group of exactly one subtotal. */
  lemma LineHasOneSubtotal(lines: seq<LineDto>, i: nat)
    requires PrintsFaithfully(lines) && i < |lines|
    ensures var totals := TotalsOf(lines);
      exists j: nat :: j < |totals.subtotals| && InGroup(totals.lines[i], totals.subtotals[j])
                       && forall k: nat :: k < |totals.subtotals| && InGroup(totals.lines[i], totals.subtotals[k])
                            ==> k == j
  {
    LineRow(lines, i);
    var j := KeyPosition(lines, i);
    assert |TotalsOf(lines).subtotals| == |GroupKeys(lines)|;
    hide *;
    forall k: nat | k < |GroupKeys(lines)|
      ensures k < |TotalsOf(lines).subtotals|
      ensures InGroup(TotalsOf(lines).lines[i], TotalsOf(lines).subtotals[k]) <==> k == j
    {
      GroupIsOfKey(lines, k);
    }
    assert InGroup(TotalsOf(lines).lines[i], TotalsOf(lines).subtotals[j]);
  }

  /** The key of a line stands in one place. */
  lemma KeyPosition(lines: seq<LineDto>, i: nat) returns (j: nat)
    requires i < |lines|
    ensures j < |GroupKeys(lines)| && forall k: nat :: k < |GroupKeys(lines)| ==>
              (GroupKeys(lines)[k] == GroupKey(lines[i]) <==> k == j)
  {
    KeyOfLine(lines, i);
    GroupKeysAreTheKeys(lines);
    hide GroupKey, GroupKeys;
    j :| 0 <= j < |GroupKeys(lines)| && GroupKeys(lines)[j] == GroupKey(lines[i]);
  }
}
