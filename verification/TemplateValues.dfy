/** What the values of a template look like: the decimal text of a product reads back, and no product brings a brace. */
module TemplateValues {
  import opened TemplateRenderer
  import opened Wrappers

  predicate NoOpening(s: string) {
    forall i :: 0 <= i < |s| ==> s[i] != '{'
  }

  predicate NoBrace(s: string) {
    forall i :: 0 <= i < |s| ==> s[i] != '{' && s[i] != '}'
  }

  lemma {:induction false} WholeTextHasNoBrace(n: nat)
    ensures WholeText(n) != "" && NoBrace(WholeText(n))
  {
    if n >= 10 {
      WholeTextHasNoBrace(n / 10);
    }
  }

  lemma {:induction false} FractionTextHasNoBrace(n: nat, width: nat)
    requires n < 10000
    ensures NoBrace(FractionText(n, width))
    decreases width
  {
    if n != 0 && width != 0 {
      FractionTextHasNoBrace(n % 1000 * 10, width - 1);
    }
  }

  function DigitValue(c: char): int {
    c as int - '0' as int
  }

  function ReadWhole(text: string): int {
    if text == "" then 0 else 10 * ReadWhole(text[..|text| - 1]) + DigitValue(text[|text| - 1])
  }

  /** The digits after a point, in ten-thousandths. */
  function ReadFraction(text: string): int {
    if text == "" then 0 else 1000 * DigitValue(text[0]) + ReadFraction(text[1..]) / 10
  }

  lemma {:induction false} WholeTextReadsBack(n: nat)
    ensures ReadWhole(WholeText(n)) == n
  {
    if n >= 10 {
      WholeTextReadsBack(n / 10);
    }
  }

  /** The least ten-thousandth that `width` digits can still show. */
  function Unit(width: nat): nat {
    if width == 4 then 1 else if width == 3 then 10 else if width == 2 then 100 else if width == 1 then 1000 else 10000
  }

  lemma TensShift(n: nat)
    requires n % 10 == 0
    ensures n % 1000 * 10 % 100 == 0
  {
    var k := n / 10 - 100 * (n / 1000);
    assert n == 10 * (n / 10);
    assert n % 1000 * 10 == 100 * k;
  }

  lemma HundredsShift(n: nat)
    requires n % 100 == 0
    ensures n % 1000 * 10 % 1000 == 0
  {
    var k := n / 100 - 10 * (n / 1000);
    assert n == 100 * (n / 100);
    assert n % 1000 * 10 == 1000 * k;
  }

  lemma ShiftedDigits(n: nat, width: nat)
    requires n < 10000 && 1 <= width <= 4 && n % Unit(width) == 0
    ensures n % 1000 * 10 < 10000 && n % 1000 * 10 % Unit(width - 1) == 0
    ensures n == 1000 * (n / 1000) + n % 1000 * 10 / 10
  {
    if width == 3 {
      TensShift(n);
    } else if width == 2 {
      HundredsShift(n);
    }
  }

  lemma {:induction false} FractionTextReadsBack(n: nat, width: nat)
    requires n < 10000 && width <= 4 && n % Unit(width) == 0
    ensures ReadFraction(FractionText(n, width)) == n
    decreases width
  {
    if n != 0 && width != 0 {
      ShiftedDigits(n, width);
      hide Unit;
      FractionTextReadsBack(n % 1000 * 10, width - 1);
    }
  }

  /** The text of a product reads back as the rounded product. */
  lemma DecimalTextReadsBack(n: int) returns (whole: string, fraction: string)
    requires n >= 0
    ensures DecimalText(n) == if fraction == "" then whole else whole + "." + fraction
    ensures DecimalText(-n) == if n == 0 then DecimalText(n) else "-" + DecimalText(n)
    ensures 10000 * ReadWhole(whole) + ReadFraction(fraction) == n
  {
    whole, fraction := WholeText(n / 10000), FractionText(n % 10000, 4);
    WholeTextReadsBack(n / 10000);
    FractionTextReadsBack(n % 10000, 4);
  }

  lemma DecimalTextHasNoBrace(n: int)
    ensures DecimalText(n) != "" && NoBrace(DecimalText(n))
    decreases n < 0
  {
    if n < 0 {
      DecimalTextHasNoBrace(-n);
    } else {
      WholeTextHasNoBrace(n / 10000);
      FractionTextHasNoBrace(n % 10000, 4);
    }
  }

  lemma JoinHasNoBrace(a: string, b: string)
    requires NoBrace(a) && NoBrace(b)
    ensures NoBrace(a + b)
  {
  }

  lemma MissingProductHasNoBrace(left: string, right: string)
    requires NoBrace(left) && NoBrace(right)
    ensures MissingProduct(left, right) != "" && NoBrace(MissingProduct(left, right))
  {
    var opening := "[missing: multiply ";
    assert NoBrace(opening) && NoBrace(" ") && NoBrace("]");
    JoinHasNoBrace(opening, left);
    JoinHasNoBrace(opening + left, " ");
    JoinHasNoBrace(opening + left + " ", right);
    JoinHasNoBrace(opening + left + " " + right, "]");
  }

  /** Whatever the operands, the value of a product is not empty and holds no brace, so it opens and closes nothing. */
  lemma ProductValueHasNoBrace(env: Env, left: string, right: string)
    requires Words(left) && Words(right)
    ensures ProductValue(env, left, right) != "" && NoBrace(ProductValue(env, left, right))
  {
    var l, r := Operand(env, left), Operand(env, right);
    MissingProductHasNoBrace(left, right);
    if l.Some? && r.Some? {
      DecimalTextHasNoBrace(TenThousandths(l.value, r.value));
    }
  }

  // ---------------------------------------------------------------------------------------------
  // A product reads as one word, or starts with a character that no word has
  // ---------------------------------------------------------------------------------------------

  lemma {:induction false} WholeTextIsWord(n: nat)
    ensures WholeText(n) != "" && Words(WholeText(n))
  {
    if n >= 10 {
      WholeTextIsWord(n / 10);
    }
  }

  lemma {:induction false} FractionTextIsWord(n: nat, width: nat)
    requires n < 10000
    ensures Words(FractionText(n, width))
    decreases width
  {
    if n != 0 && width != 0 {
      FractionTextIsWord(n % 1000 * 10, width - 1);
    }
  }

  lemma DecimalTextIsWord(n: int)
    ensures DecimalText(n) != ""
    ensures if n < 0 then DecimalText(n)[0] == '-' else Words(DecimalText(n))
  {
    if n >= 0 {
      WholeTextIsWord(n / 10000);
      FractionTextIsWord(n % 10000, 4);
    }
  }

  /** Where a word that is no value of a product ends. */
  predicate IsStop(c: char) {
    c == '-' || c == '['
  }

  lemma ProductValueIsWordOrStops(env: Env, left: string, right: string)
    ensures var value := ProductValue(env, left, right);
      value != "" && (Words(value) || IsStop(value[0])) && !IsSpace(value[0])
  {
    var l, r := Operand(env, left), Operand(env, right);
    if l.Some? && r.Some? {
      DecimalTextIsWord(TenThousandths(l.value, r.value));
    } else {
      assert "[missing: multiply "[0] == '[';
    }
  }

  /** A context in which every operand is one and nothing else is known. */
  function Ones(): Env {
    Env(map[], (operand: string) => Some(1.0))
  }

  lemma ProductOfOnes(left: string, right: string)
    ensures ProductValue(Ones(), left, right) == "1"
  {
    assert TenThousandths(1.0, 1.0) == 10000;
    assert DecimalText(10000) == WholeText(1);
    assert WholeText(1) == ['1'] == "1";
  }
}
