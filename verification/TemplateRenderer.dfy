/** The template renderer: two passes of leftmost, non-overlapping replacement, first of {{multiply a b}} and then of
    {{key}}, proved equal to one pass and to the meaning of the segments a template is written from. */
module TemplateRenderer {
  import opened Wrappers

  /** A context entry: null or undefined, or a value with its text and the number it reads as. */
  datatype Value = Nothing | Value(text: string, number: Option<real>)

  /** The context and the reading of a bare operand as a number; `None` stands for NaN. */
  datatype Env = Env(values: map<string, Value>, numeric: string -> Option<real>)

  // ---------------------------------------------------------------------------------------------
  // Values
  // ---------------------------------------------------------------------------------------------

  function Resolve(env: Env, key: string): Value {
    if key in env.values then env.values[key] else Nothing
  }

  function Operand(env: Env, operand: string): Option<real> {
    match Resolve(env, operand)
    case Nothing => env.numeric(operand)
    case Value(_, number) => number
  }

  function Digit(n: nat): char
    requires n < 10
  {
    "0123456789"[n]
  }

  function WholeText(n: nat): string {
    if n < 10 then [Digit(n)] else WholeText(n / 10) + [Digit(n % 10)]
  }

  /** The digits after the point, of which `width` may still come; trailing zeros are dropped. */
  function FractionText(tenThousandths: nat, width: nat): string
    requires tenThousandths < 10000
    decreases width
  {
    if tenThousandths == 0 || width == 0 then ""
    else [Digit(tenThousandths / 1000)] + FractionText(tenThousandths % 1000 * 10, width - 1)
  }

  /** The text of a number given in ten-thousandths. */
  function DecimalText(n: int): string
    decreases n < 0
  {
    if n < 0 then "-" + DecimalText(-n)
    else if n % 10000 == 0 then WholeText(n / 10000)
    else WholeText(n / 10000) + "." + FractionText(n % 10000, 4)
  }

  /** The product in ten-thousandths, rounded half up. */
  function TenThousandths(left: real, right: real): int {
    (left * right * 10000.0 + 0.5).Floor
  }

  function MissingProduct(left: string, right: string): string {
    "[missing: multiply " + left + " " + right + "]"
  }

  function ProductValue(env: Env, left: string, right: string): string {
    var l, r := Operand(env, left), Operand(env, right);
    if l.None? || r.None? then MissingProduct(left, right)
    else DecimalText(TenThousandths(l.value, r.value))
  }

  function KeyValue(env: Env, key: string): string {
    match Resolve(env, key)
    case Nothing => "[missing: " + key + "]"
    case Value(text, _) => text
  }

  // ---------------------------------------------------------------------------------------------
  // Patterns
  // ---------------------------------------------------------------------------------------------

  /** White space as regular expressions of ECMAScript understand it. */
  predicate IsSpace(c: char) {
    || '\U{0009}' <= c <= '\U{000D}' || c == ' ' || c == '\U{00A0}' || c == '\U{1680}'
    || '\U{2000}' <= c <= '\U{200A}' || c == '\U{2028}' || c == '\U{2029}' || c == '\U{202F}'
    || c == '\U{205F}' || c == '\U{3000}' || c == '\U{FEFF}'
  }

  /** A word character or a point. */
  predicate IsWord(c: char) {
    'a' <= c <= 'z' || 'A' <= c <= 'Z' || '0' <= c <= '9' || c == '_' || c == '.'
  }

  predicate Spaces(s: string) {
    forall i :: 0 <= i < |s| ==> IsSpace(s[i])
  }

  predicate Words(s: string) {
    forall i :: 0 <= i < |s| ==> IsWord(s[i])
  }

  /** The greedy reading of \s*: the spaces at the front, and the rest. */
  function SpaceRun(s: string): (run: (string, string))
    ensures s == run.0 + run.1 && Spaces(run.0) && (run.1 == "" || !IsSpace(run.1[0]))
  {
    if s == "" || !IsSpace(s[0]) then ("", s)
    else
      var (spaces, rest) := SpaceRun(s[1..]);
      ([s[0]] + spaces, rest)
  }

  /** The greedy reading of [\w.]*. */
  function WordRun(s: string): (run: (string, string))
    ensures s == run.0 + run.1 && Words(run.0) && (run.1 == "" || !IsWord(run.1[0]))
  {
    if s == "" || !IsWord(s[0]) then ("", s)
    else
      var (word, rest) := WordRun(s[1..]);
      ([s[0]] + word, rest)
  }

  /** What follows `prefix`, when the text starts with it. */
  function Strip(s: string, prefix: string): (rest: Option<string>)
    ensures rest.Some? ==> s == prefix + rest.value
    ensures rest.None? ==> forall t: string :: s != prefix + t
  {
    if |prefix| <= |s| && s[..|prefix|] == prefix then Some(s[|prefix|..]) else None
  }

  /** A match of {{key}} at the front of a text, and what follows it. */
  datatype KeyMatch = KeyMatch(key: string, rest: string)

  function MatchKey(s: string): (found: Option<KeyMatch>)
    ensures found.Some? ==> |found.value.rest| < |s|
  {
    match Strip(s, "{{")
    case None => None
    case Some(inner) =>
      var (key, more) := WordRun(SpaceRun(inner).1);
      var end := Strip(SpaceRun(more).1, "}}");
      if key != "" && end.Some? then Some(KeyMatch(key, end.value)) else None
  }

  /** A match of {{multiply left right}} at the front of a text, and what follows it. */
  datatype ProductMatch = ProductMatch(left: string, right: string, rest: string)

  const MULTIPLY := "multiply"

  function MatchProduct(s: string): (found: Option<ProductMatch>)
    ensures found.Some? ==> |found.value.rest| < |s|
  {
    match Strip(s, "{{")
    case None => None
    case Some(inner) =>
      match Strip(SpaceRun(inner).1, MULTIPLY)
      case None => None
      case Some(operands) => MatchOperands(operands)
  }

  function MatchOperands(s: string): (found: Option<ProductMatch>)
    ensures found.Some? ==> |found.value.rest| < |s|
  {
    var (gap1, first) := SpaceRun(s);
    var (left, more) := WordRun(first);
    var (gap2, second) := SpaceRun(more);
    var (right, tail) := WordRun(second);
    var end := Strip(SpaceRun(tail).1, "}}");
    if gap1 != "" && left != "" && gap2 != "" && right != "" && end.Some? then
      Some(ProductMatch(left, right, end.value))
    else None
  }

  // ---------------------------------------------------------------------------------------------
  // Rendering
  // ---------------------------------------------------------------------------------------------

  function ReplaceProducts(s: string, env: Env): string
    decreases |s|
  {
    if s == "" then ""
    else match MatchProduct(s)
      case Some(found) => ProductValue(env, found.left, found.right) + ReplaceProducts(found.rest, env)
      case None => [s[0]] + ReplaceProducts(s[1..], env)
  }

  function ReplaceKeys(s: string, env: Env): string
    decreases |s|
  {
    if s == "" then ""
    else match MatchKey(s)
      case Some(found) => KeyValue(env, found.key) + ReplaceKeys(found.rest, env)
      case None => [s[0]] + ReplaceKeys(s[1..], env)
  }

  function RenderTemplate(template: string, env: Env): string {
    ReplaceKeys(ReplaceProducts(template, env), env)
  }

  // ---------------------------------------------------------------------------------------------
  // The patterns match what the regular expressions describe, in one way only
  // ---------------------------------------------------------------------------------------------

  /** {{ \s* [\w.]+ \s* }} spelled out, followed by `rest`. */
  predicate SpellsKey(s: string, before: string, key: string, after: string, rest: string) {
    && s == "{{" + (before + (key + (after + ("}}" + rest))))
    && Spaces(before) && key != "" && Words(key) && Spaces(after)
  }

  /** The spaces before the word multiply, before each operand, and before the closing braces. */
  datatype Gaps = Gaps(before: string, first: string, second: string, after: string)

  /** {{ \s* multiply \s+ [\w.]+ \s+ [\w.]+ \s* }} spelled out, followed by `rest`. */
  predicate SpellsProduct(s: string, gaps: Gaps, left: string, right: string, rest: string) {
    && s == "{{" + (gaps.before + (MULTIPLY + Operands(gaps, left, right, rest)))
    && ProductParts(gaps, left, right)
  }

  function Operands(gaps: Gaps, left: string, right: string, rest: string): string {
    gaps.first + (left + (gaps.second + (right + (gaps.after + ("}}" + rest)))))
  }

  predicate ProductParts(gaps: Gaps, left: string, right: string) {
    && Spaces(gaps.before) && Spaces(gaps.first) && Spaces(gaps.second) && Spaces(gaps.after)
    && gaps.first != "" && gaps.second != "" && left != "" && Words(left) && right != "" && Words(right)
  }

  lemma {:induction false} SpaceRunOf(spaces: string, rest: string)
    requires Spaces(spaces) && (rest == "" || !IsSpace(rest[0]))
    ensures SpaceRun(spaces + rest) == (spaces, rest)
  {
    if spaces == "" {
      assert spaces + rest == rest;
    } else {
      assert (spaces + rest)[1..] == spaces[1..] + rest;
      assert [spaces[0]] + spaces[1..] == spaces;
      SpaceRunOf(spaces[1..], rest);
    }
  }

  lemma {:induction false} WordRunOf(word: string, rest: string)
    requires Words(word) && (rest == "" || !IsWord(rest[0]))
    ensures WordRun(word + rest) == (word, rest)
  {
    if word == "" {
      assert word + rest == rest;
    } else {
      assert (word + rest)[1..] == word[1..] + rest;
      assert [word[0]] + word[1..] == word;
      WordRunOf(word[1..], rest);
    }
  }

  lemma StripOf(prefix: string, rest: string)
    ensures Strip(prefix + rest, prefix) == Some(rest)
  {
    assert (prefix + rest)[|prefix|..] == rest;
  }

  lemma StripHead(s: string, prefix: string)
    requires s != "" && prefix != "" && s[0] != prefix[0]
    ensures Strip(s, prefix).None?
  {
    assert |prefix| <= |s| ==> s[..|prefix|][0] == s[0];
  }

  lemma StripPair(s: string, a: char, b: char)
    ensures Strip(s, [a, b]).Some? <==> |s| >= 2 && s[0] == a && s[1] == b
    ensures Strip(s, [a, b]).Some? ==> Strip(s, [a, b]).value == s[2..]
  {
    if |s| >= 2 && s[0] == a && s[1] == b {
      assert s[..2] == [a, b];
    }
  }

  /** Whatever is spelled as {{key}} matches, with that key and no other. */
  lemma SpelledKeyMatches(s: string, before: string, key: string, after: string, rest: string)
    requires SpellsKey(s, before, key, after, rest)
    ensures MatchKey(s) == Some(KeyMatch(key, rest))
  {
    var close := "}}" + rest;
    StripOf("{{", before + (key + (after + close)));
    SpaceRunOf(before, key + (after + close));
    WordRunOf(key, after + close);
    SpaceRunOf(after, close);
    StripOf("}}", rest);
  }

  /** Whatever matches is spelled as {{key}}. */
  lemma MatchedKeyIsSpelled(s: string) returns (before: string, after: string)
    requires MatchKey(s).Some?
    ensures SpellsKey(s, before, MatchKey(s).value.key, after, MatchKey(s).value.rest)
  {
    var inner := Strip(s, "{{").value;
    before := SpaceRun(inner).0;
    after := SpaceRun(WordRun(SpaceRun(inner).1).1).0;
  }

  lemma SpelledOperandsMatch(gaps: Gaps, left: string, right: string, rest: string)
    requires ProductParts(gaps, left, right)
    ensures MatchOperands(Operands(gaps, left, right, rest)) == Some(ProductMatch(left, right, rest))
  {
    var close := "}}" + rest;
    StripOf("}}", rest);
    SpaceRunOf(gaps.after, close);
    WordRunOf(right, gaps.after + close);
    SpaceRunOf(gaps.second, right + (gaps.after + close));
    WordRunOf(left, gaps.second + (right + (gaps.after + close)));
    SpaceRunOf(gaps.first, left + (gaps.second + (right + (gaps.after + close))));
  }

  /** Whatever is spelled as {{multiply left right}} matches, with those operands and no others. */
  lemma SpelledProductMatches(s: string, gaps: Gaps, left: string, right: string, rest: string)
    requires SpellsProduct(s, gaps, left, right, rest)
    ensures MatchProduct(s) == Some(ProductMatch(left, right, rest))
  {
    var operands := Operands(gaps, left, right, rest);
    StripOf("{{", gaps.before + (MULTIPLY + operands));
    SpaceRunOf(gaps.before, MULTIPLY + operands);
    StripOf(MULTIPLY, operands);
    SpelledOperandsMatch(gaps, left, right, rest);
  }

  lemma MatchedOperandsAreSpelled(s: string) returns (gaps: Gaps)
    requires MatchOperands(s).Some?
    ensures gaps.before == ""
    ensures var found := MatchOperands(s).value;
      s == Operands(gaps, found.left, found.right, found.rest) && ProductParts(gaps, found.left, found.right)
  {
    var (gap1, first) := SpaceRun(s);
    var (left, more) := WordRun(first);
    var (gap2, second) := SpaceRun(more);
    var (right, tail) := WordRun(second);
    gaps := Gaps("", gap1, gap2, SpaceRun(tail).0);
  }

  /** Whatever matches is spelled as {{multiply left right}}. */
  lemma MatchedProductIsSpelled(s: string) returns (gaps: Gaps)
    requires MatchProduct(s).Some?
    ensures var found := MatchProduct(s).value; SpellsProduct(s, gaps, found.left, found.right, found.rest)
  {
    var inner := Strip(s, "{{").value;
    var operands := Strip(SpaceRun(inner).1, MULTIPLY).value;
    gaps := MatchedOperandsAreSpelled(operands);
    gaps := gaps.(before := SpaceRun(inner).0);
  }
}
