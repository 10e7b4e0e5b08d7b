/** Templates written from segments render to the concatenation of the segments' values. */
module TemplateSegments {
  import opened TemplateMeaning
  import opened TemplateRenderer
  import opened TemplateValues
  import opened Wrappers

  /** What a template is written from. */
  datatype Segment =
    | Text(text: string)
    | Key(before: string, key: string, after: string)
    | Product(gaps: Gaps, left: string, right: string)

  /** Text has no two opening braces in a row; it may hold any other brace. */
  predicate NoDirective(text: string) {
    forall i :: 0 <= i < |text| - 1 ==> text[i] != '{' || text[i + 1] != '{'
  }

  predicate WellFormed(segment: Segment) {
    match segment
    case Text(text) => NoDirective(text)
    case Key(before, key, after) => Spaces(before) && key != "" && Words(key) && Spaces(after)
    case Product(gaps, left, right) => ProductParts(gaps, left, right)
  }

  /** Neighbouring texts count as one text. */
  predicate WellWritten(segments: seq<Segment>) {
    && (forall i :: 0 <= i < |segments| ==> WellFormed(segments[i]))
    && (forall i :: 0 <= i < |segments| - 1 ==> !segments[i].Text? || !segments[i + 1].Text?)
  }

  function Printed(segment: Segment, rest: string): string {
    match segment
    case Text(text) => text + rest
    case Key(before, key, after) => "{{" + (before + (key + (after + ("}}" + rest))))
    case Product(gaps, left, right) => "{{" + (gaps.before + (MULTIPLY + Operands(gaps, left, right, rest)))
  }

  function PrintAll(segments: seq<Segment>): string {
    if segments == [] then "" else Printed(segments[0], PrintAll(segments[1..]))
  }

  function Meaning(segment: Segment, env: Env): string {
    match segment
    case Text(text) => text
    case Key(_, key, _) => KeyValue(env, key)
    case Product(_, left, right) => ProductValue(env, left, right)
  }

  function MeaningOfAll(segments: seq<Segment>, env: Env): string {
    if segments == [] then "" else Meaning(segments[0], env) + MeaningOfAll(segments[1..], env)
  }

  /** What may follow a text: nothing, or two opening braces and something else. */
  predicate Opens(rest: string) {
    rest == "" || (|rest| >= 3 && rest[0] == '{' && rest[1] == '{' && rest[2] != '{')
  }

  lemma PrintedOpens(segment: Segment, rest: string)
    requires WellFormed(segment) && !segment.Text?
    ensures Opens(Printed(segment, rest))
  {
    match segment
    case Key(before, key, after) => assert key[0] != '{';
    case Product(gaps, left, right) => MultiplyIsAWord();
  }

  /** No directive starts inside a text, not even across its end. */
  lemma TextMatchesNothing(text: string, rest: string)
    requires text != "" && NoDirective(text) && Opens(rest)
    ensures MatchKey(text + rest).None? && MatchProduct(text + rest).None? && !Framed(text + rest)
  {
    hide MatchKey, MatchProduct, Framed;
    if |text| == 1 && text[0] == '{' && rest != "" {
      assert text + rest == "{{" + rest[1..];
      BraceAfterOpening(rest[1..]);
      NothingMatches(rest[1..]);
      BraceIsNoPlace(rest[1..]);
    } else {
      NothingMatches(text + rest);
    }
  }

  lemma UnmatchedStep(s: string, env: Env)
    requires s != "" && MatchKey(s).None? && MatchProduct(s).None? && !Framed(s)
    ensures RenderOnce(s, env) == [s[0]] + RenderOnce(s[1..], env)
    ensures Guarded(s) == Guarded(s[1..])
  {
  }

  lemma {:induction false} TextMeansItself(text: string, rest: string, env: Env)
    requires NoDirective(text) && Opens(rest)
    ensures RenderOnce(text + rest, env) == text + RenderOnce(rest, env)
    ensures Guarded(text + rest) == Guarded(rest)
  {
    hide RenderOnce, Guarded, MatchKey, MatchProduct, Framed;
    if text == "" {
      assert text + rest == rest;
    } else {
      TextMatchesNothing(text, rest);
      UnmatchedStep(text + rest, env);
      TextMeansItself(text[1..], rest, env);
      assert (text + rest)[1..] == text[1..] + rest;
      assert [text[0]] + text[1..] == text;
    }
  }

  /** A key that begins like the word multiply still has no operands after it. */
  lemma KeyHasNoOperands(operands: string, after: string, rest: string)
    requires Spaces(after)
    requires WordRun(operands).1 == after + ("}}" + rest)
    ensures MatchOperands(operands).None?
  {
    var close := "}}" + rest;
    SpaceRunOf(after, close);
    WordRunOf("", close);
    assert "" + close == close;
    if WordRun(operands).0 == "" {
      assert operands == after + close;
    } else {
      assert IsWord(operands[0]);
      SpaceRunOf("", operands);
      assert "" + operands == operands;
    }
  }

  lemma KeyIsNoProduct(before: string, key: string, after: string, rest: string)
    requires WellFormed(Key(before, key, after))
    ensures MatchProduct(Printed(Key(before, key, after), rest)).None?
  {
    var tail := after + ("}}" + rest);
    hide SpaceRun, WordRun, Strip, MatchOperands;
    StripOf("{{", before + (key + tail));
    SpaceRunOf(before, key + tail);
    WordRunOf(key, tail);
    var operands := Strip(key + tail, MULTIPLY);
    if operands.Some? {
      ProductlessKey(key, tail, operands.value);
      KeyHasNoOperands(operands.value, after, rest);
    }
  }

  lemma ProductlessKey(key: string, tail: string, operands: string)
    requires key + tail == MULTIPLY + operands && WordRun(key + tail) == (key, tail)
    ensures WordRun(operands).1 == tail
  {
    var (word, more) := WordRun(operands);
    hide WordRun;
    MultiplyIsAWord();
    assert MULTIPLY + operands == (MULTIPLY + word) + more;
    WordRunOf(MULTIPLY + word, more);
  }

  /** Every template printed from segments renders to the concatenation of the segments' values: whatever the first pass
      inserts makes no new match, and whatever the second inserts is not looked at again. */
  lemma RenderingIsCompositional(segments: seq<Segment>, env: Env)
    requires WellWritten(segments)
    ensures RenderTemplate(PrintAll(segments), env) == MeaningOfAll(segments, env)
  {
    OnePassIsCompositional(segments, env);
    TwoPassesAreOne(PrintAll(segments), env);
  }

  lemma {:induction false} OnePassIsCompositional(segments: seq<Segment>, env: Env)
    requires WellWritten(segments)
    ensures RenderOnce(PrintAll(segments), env) == MeaningOfAll(segments, env)
    ensures Guarded(PrintAll(segments))
  {
    if segments != [] {
      var rest := PrintAll(segments[1..]);
      OnePassIsCompositional(segments[1..], env);
      match segments[0] {
        case Text(text) =>
          if |segments| > 1 {
            PrintedOpens(segments[1], PrintAll(segments[1..][1..]));
          }
          TextMeansItself(text, rest, env);
        case Key(before, key, after) =>
          KeyIsNoProduct(before, key, after, rest);
          SpelledKeyMatches(PrintAll(segments), before, key, after, rest);
        case Product(gaps, left, right) =>
          SpelledProductMatches(PrintAll(segments), gaps, left, right, rest);
      }
    }
  }
}
