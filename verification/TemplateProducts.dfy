/** What a rendered directive says: a product reads back as the product of what its operands read as, a key shows the
    text of its value, and what is unknown is named. */
module TemplateProducts {
  import opened TemplateRenderer
  import opened TemplateSegments
  import opened TemplateValues
  import opened Wrappers

  // ---------------------------------------------------------------------------------------------
  // Reading a decimal text
  // ---------------------------------------------------------------------------------------------

  function PointOf(text: string): (p: nat)
    ensures p <= |text| && '.' !in text[..p] && (p < |text| ==> text[p] == '.')
  {
    if text == "" || text[0] == '.' then 0 else 1 + PointOf(text[1..])
  }

  function ReadUnsigned(text: string): real {
    var p := PointOf(text);
    ReadWhole(text[..p]) as real + if p < |text| then ReadFraction(text[p + 1..]) as real / 10000.0 else 0.0
  }

  function ReadDecimal(text: string): real {
    if text != "" && text[0] == '-' then -ReadUnsigned(text[1..]) else ReadUnsigned(text)
  }

  lemma {:induction false} PointIsFirst(before: string, after: string)
    requires '.' !in before
    ensures PointOf(before) == |before| && PointOf(before + "." + after) == |before|
  {
    if before == "" {
      assert before + "." + after == "." + after;
    } else {
      assert (before + "." + after)[1..] == before[1..] + "." + after;
      PointIsFirst(before[1..], after);
    }
  }

  lemma {:induction false} WholeTextIsDigits(n: nat)
    ensures WholeText(n) != "" && '.' !in WholeText(n) && WholeText(n)[0] != '-'
  {
    if n >= 10 {
      WholeTextIsDigits(n / 10);
    }
  }

  lemma UnsignedReads(n: nat)
    ensures ReadUnsigned(DecimalText(n)) == n as real / 10000.0 && DecimalText(n) != "" && DecimalText(n)[0] != '-'
  {
    var whole, fraction := n / 10000, n % 10000;
    WholeTextIsDigits(whole);
    WholeTextReadsBack(whole);
    FractionTextReadsBack(fraction, 4);
    PointIsFirst(WholeText(whole), FractionText(fraction, 4));
    hide WholeText, FractionText, ReadWhole, ReadFraction, PointOf;
    var text := DecimalText(n);
    assert n as real / 10000.0 == whole as real + fraction as real / 10000.0;
    assert text[..|WholeText(whole)|] == WholeText(whole);
    if fraction != 0 {
      assert text[|WholeText(whole)| + 1..] == FractionText(fraction, 4);
    }
  }

  lemma NegativeText(n: int)
    requires n < 0
    ensures DecimalText(n) == "-" + DecimalText(-n)
  {
  }

  lemma DecimalTextReads(n: int)
    ensures ReadDecimal(DecimalText(n)) == n as real / 10000.0
  {
    hide DecimalText, ReadUnsigned;
    if n < 0 {
      NegativeText(n);
      UnsignedReads(-n);
      assert ("-" + DecimalText(-n))[1..] == DecimalText(-n);
    } else {
      UnsignedReads(n);
    }
  }

  // ---------------------------------------------------------------------------------------------
  // Products and keys
  // ---------------------------------------------------------------------------------------------

  predicate Known(env: Env, name: string) {
    name in env.values && env.values[name].Value?
  }

  /** What an operand reads as: the number of its value if it has one, and otherwise itself as a number. */
  predicate ReadsAs(env: Env, operand: string, number: Option<real>) {
    number == if Known(env, operand) then env.values[operand].number else env.numeric(operand)
  }

  ghost predicate InTenThousandths(value: real) {
    exists n: int :: value == TenThousandthPart(n)
  }

  function TenThousandthPart(n: int): real {
    n as real / 10000.0
  }

  /** A product reads back as the multiple of a ten-thousandth nearest to the product of what the operands read as,
      halves going up. */
  lemma ProductReadsBack(env: Env, left: string, right: string, l: real, r: real)
    requires ReadsAs(env, left, Some(l)) && ReadsAs(env, right, Some(r))
    ensures var value := ReadDecimal(ProductValue(env, left, right));
      InTenThousandths(value) && -0.00005 < value - l * r <= 0.00005
  {
    var n := TenThousandths(l, r);
    DecimalTextReads(n);
    hide DecimalText, ReadDecimal;
    assert TenThousandthPart(n) == ReadDecimal(ProductValue(env, left, right));
  }

  lemma UnreadableIsNamed(env: Env, left: string, right: string)
    requires ReadsAs(env, left, None) || ReadsAs(env, right, None)
    ensures ProductValue(env, left, right) == "[missing: multiply " + left + " " + right + "]"
  {
  }

  lemma ProductRenders(env: Env, left: string, right: string)
    requires left != "" && Words(left) && right != "" && Words(right)
    ensures RenderTemplate("{{multiply " + left + " " + right + "}}", env) == ProductValue(env, left, right)
  {
    var gaps := Gaps("", " ", " ", "");
    var segment := Product(gaps, left, right);
    assert "{{multiply " + left + " " + right + "}}" == "{{" + ("" + ("multiply" + (" " + (left + (" " + (right + (""
           + ("}}" + ""))))))));
    assert Printed(segment, "") == "{{multiply " + left + " " + right + "}}";
    LoneSegmentRenders(env, segment);
  }

  lemma LoneSegmentRenders(env: Env, segment: Segment)
    requires WellFormed(segment)
    ensures RenderTemplate(Printed(segment, ""), env) == Meaning(segment, env)
  {
    RenderingIsCompositional([segment], env);
    hide Printed, Meaning, RenderTemplate;
    assert [segment][1..] == [];
    assert PrintAll([]) == "" && MeaningOfAll([], env) == "";
    assert Meaning(segment, env) + "" == Meaning(segment, env);
  }

  /** The directive {{multiply left right}} renders to a text that reads back as the rounded product, and names its
      operands when one of them reads as no number. */
  lemma MultiplyMultiplies(env: Env, left: string, right: string, l: Option<real>, r: Option<real>)
    requires left != "" && Words(left) && right != "" && Words(right)
    requires ReadsAs(env, left, l) && ReadsAs(env, right, r)
    ensures var text := RenderTemplate("{{multiply " + left + " " + right + "}}", env);
      if l.Some? && r.Some? then
        InTenThousandths(ReadDecimal(text)) && -0.00005 < ReadDecimal(text) - l.value * r.value <= 0.00005
      else text == "[missing: multiply " + left + " " + right + "]"
  {
    hide RenderTemplate, ReadDecimal, ProductValue, InTenThousandths, ReadsAs, Words;
    ProductRenders(env, left, right);
    if l.Some? && r.Some? {
      ProductReadsBack(env, left, right, l.value, r.value);
    } else {
      UnreadableIsNamed(env, left, right);
    }
  }

  /** The directive {{key}} renders to the text of its value, and names a key that has none. */
  lemma KeyRenders(env: Env, key: string)
    requires key != "" && Words(key)
    ensures RenderTemplate("{{" + key + "}}", env)
         == if Known(env, key) then env.values[key].text else "[missing: " + key + "]"
  {
    assert "{{" + key + "}}" == Printed(Key("", key, ""), "") by {
      assert "" + (key + ("" + ("}}" + ""))) == key + "}}";
    }
    LoneSegmentRenders(env, Key("", key, ""));
  }

  // ---------------------------------------------------------------------------------------------
  // The classes of the patterns
  // ---------------------------------------------------------------------------------------------

  /** The code points that ECMAScript counts as white space or line ends. */
  const SPACES := {0x9, 0xA, 0xB, 0xC, 0xD, 0x20, 0xA0, 0x1680, 0x2000, 0x2001, 0x2002, 0x2003, 0x2004, 0x2005, 0x2006,
                   0x2007, 0x2008, 0x2009, 0x200A, 0x2028, 0x2029, 0x202F, 0x205F, 0x3000, 0xFEFF}

  /** The letters of the English alphabet, the digits, the underscore and the point. */
  predicate IsWordCode(code: int) {
    0x41 <= code <= 0x5A || 0x61 <= code <= 0x7A || 0x30 <= code <= 0x39 || code in {0x2E, 0x5F}
  }

  lemma ClassesAreListed(c: char)
    ensures IsSpace(c) <==> c as int in SPACES
    ensures IsWord(c) <==> IsWordCode(c as int)
  {
  }
}
