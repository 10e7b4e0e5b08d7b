/** What the two passes of the renderer amount to: one pass over the template, in every context, exactly when no
    directive is closed around a product. */
module TemplateMeaning {
  import opened TemplateRenderer
  import opened TemplateValues
  import opened Wrappers

  /** Both patterns replaced in a single pass from the left; nothing inserted is looked at again. */
  function RenderOnce(s: string, env: Env): string
    decreases |s|
  {
    if s == "" then ""
    else match MatchProduct(s)
      case Some(found) => ProductValue(env, found.left, found.right) + RenderOnce(found.rest, env)
      case None =>
        match MatchKey(s)
        case Some(found) => KeyValue(env, found.key) + RenderOnce(found.rest, env)
        case None => [s[0]] + RenderOnce(s[1..], env)
  }

  /** What follows the word characters and products at the front. */
  function AfterMixed(s: string): (rest: string)
    ensures |rest| <= |s|
    decreases |s|
  {
    match MatchProduct(s)
    case Some(found) => AfterMixed(found.rest)
    case None => if s != "" && IsWord(s[0]) then AfterMixed(s[1..]) else s
  }

  /** What the first pass makes of them. */
  function MixedText(s: string, env: Env): string
    decreases |s|
  {
    match MatchProduct(s)
    case Some(found) => ProductValue(env, found.left, found.right) + MixedText(found.rest, env)
    case None => if s != "" && IsWord(s[0]) then [s[0]] + MixedText(s[1..], env) else ""
  }

  /** The word characters and products that a directive opened before `inner` would have for its key. */
  function KeyPlace(inner: string): string {
    SpaceRun(inner).1
  }

  /** What follows \s* (word character or product)+ \s* }} at the front. */
  function Closing(inner: string): Option<string> {
    var place := KeyPlace(inner);
    var rest := AfterMixed(place);
    if rest == place then None else Strip(SpaceRun(rest).1, "}}")
  }

  /** A directive opens here and closes around word characters and products. */
  predicate Framed(s: string) {
    var inner := Strip(s, "{{");
    inner.Some? && Closing(inner.value).Some?
  }

  /** No directive is closed around a product: something a caller can check on the template alone. */
  predicate Guarded(s: string)
    decreases |s|
  {
    s == "" ||
    match MatchProduct(s)
    case Some(found) => Guarded(found.rest)
    case None =>
      match MatchKey(s)
      case Some(found) => Guarded(found.rest)
      case None => !Framed(s) && Guarded(s[1..])
  }

  // ---------------------------------------------------------------------------------------------
  // Steps of the passes
  // ---------------------------------------------------------------------------------------------

  /** Without two opening braces at the front nothing matches there. */
  lemma NothingMatches(s: string)
    requires |s| < 2 || s[0] != '{' || s[1] != '{'
    ensures MatchKey(s).None? && MatchProduct(s).None? && !Framed(s)
  {
    assert "{{" == ['{', '{'];
    StripPair(s, '{', '{');
  }

  lemma PlainStep(c: char, rest: string, env: Env)
    requires c != '{'
    ensures ReplaceKeys([c] + rest, env) == [c] + ReplaceKeys(rest, env)
    ensures ReplaceProducts([c] + rest, env) == [c] + ReplaceProducts(rest, env)
  {
    NothingMatches([c] + rest);
    assert ([c] + rest)[1..] == rest;
  }

  lemma {:induction false} PassOver(text: string, rest: string, env: Env)
    requires NoOpening(text)
    ensures ReplaceKeys(text + rest, env) == text + ReplaceKeys(rest, env)
    ensures ReplaceProducts(text + rest, env) == text + ReplaceProducts(rest, env)
  {
    hide ReplaceKeys, ReplaceProducts;
    if text == "" {
      assert text + rest == rest;
    } else {
      assert text + rest == [text[0]] + (text[1..] + rest);
      assert text == [text[0]] + text[1..];
      PlainStep(text[0], text[1..] + rest, env);
      PassOver(text[1..], rest, env);
    }
  }

  /** The first pass leaves the first character alone, unless a product starts there. */
  lemma FirstCharacter(s: string, env: Env)
    ensures ReplaceProducts(s, env) == "" <==> s == ""
    ensures s != "" && MatchProduct(s).None? ==> ReplaceProducts(s, env)[0] == s[0]
    ensures s != "" && MatchProduct(s).Some? ==> s[0] == '{' && ReplaceProducts(s, env)[0] !in "{}"
  {
    if s != "" && MatchProduct(s).Some? {
      var found := MatchProduct(s).value;
      var gaps := MatchedProductIsSpelled(s);
      ProductValueHasNoBrace(env, found.left, found.right);
    }
  }

  /** Closing braces are neither made nor removed by the first pass. */
  lemma ClosingIsKept(tail: string, env: Env)
    requires MatchProduct(tail).None?
    ensures Strip(ReplaceProducts(tail, env), "}}").Some? <==> Strip(tail, "}}").Some?
    ensures Strip(tail, "}}").Some?
        ==> Strip(ReplaceProducts(tail, env), "}}").value == ReplaceProducts(Strip(tail, "}}").value, env)
  {
    var after := ReplaceProducts(tail, env);
    assert "}}" == ['}', '}'];
    StripPair(tail, '}', '}');
    StripPair(after, '}', '}');
    if tail != "" {
      FirstCharacter(tail, env);
      assert after == [tail[0]] + ReplaceProducts(tail[1..], env);
      hide ReplaceProducts, MatchProduct;
      if |tail| > 1 {
        FirstCharacter(tail[1..], env);
        if Strip(tail, "}}").Some? {
          PassOver("}}", tail[2..], env);
          assert tail == "}}" + tail[2..];
        }
      }
    }
  }

  lemma FirstPassStep(s: string, env: Env)
    requires s != "" && MatchProduct(s).None?
    ensures ReplaceProducts(s, env) == [s[0]] + ReplaceProducts(s[1..], env)
  {
  }

  // ---------------------------------------------------------------------------------------------
  // The place of a key after the first pass
  // ---------------------------------------------------------------------------------------------

  lemma {:induction false} MixedStops(s: string)
    ensures var rest := AfterMixed(s); MatchProduct(rest).None? && (rest == "" || !IsWord(rest[0]))
    decreases |s|
  {
    if MatchProduct(s).Some? {
      MixedStops(MatchProduct(s).value.rest);
    } else if s != "" && IsWord(s[0]) {
      MixedStops(s[1..]);
    }
  }

  lemma {:induction false} MixedIsEmptyIff(s: string, env: Env)
    ensures MixedText(s, env) == "" <==> AfterMixed(s) == s
    ensures AfterMixed(s) == s ==> MatchProduct(s).None? && (s == "" || !IsWord(s[0]))
  {
    if MatchProduct(s).Some? {
      var found := MatchProduct(s).value;
      ProductValueIsWordOrStops(env, found.left, found.right);
    }
  }

  lemma {:induction false} MixedPass(s: string, env: Env)
    ensures ReplaceProducts(s, env) == MixedText(s, env) + ReplaceProducts(AfterMixed(s), env)
    decreases |s|
  {
    hide MatchProduct, ProductValue, IsWord;
    if MatchProduct(s).Some? {
      MixedPass(MatchProduct(s).value.rest, env);
    } else if s != "" && IsWord(s[0]) {
      MixedPass(s[1..], env);
    }
  }

  lemma {:induction false} WordRunSkips(word: string, rest: string)
    requires Words(word)
    ensures WordRun(word + rest).1 == WordRun(rest).1
  {
    if word == "" {
      assert word + rest == rest;
    } else {
      assert (word + rest)[1..] == word[1..] + rest;
      WordRunSkips(word[1..], rest);
    }
  }

  lemma WordsJoin(a: string, b: string)
    ensures Words(a + b) <==> Words(a) && Words(b)
  {
    assert forall i :: 0 <= i < |a| ==> (a + b)[i] == a[i];
    assert forall i :: 0 <= i < |b| ==> (a + b)[|a| + i] == b[i];
  }

  /** If some product does not read as a word, the key's word ends at a character that closes nothing. */
  lemma {:induction false} MixedWordStops(s: string, env: Env)
    requires !Words(MixedText(s, env))
    ensures var more := WordRun(ReplaceProducts(s, env)).1; more != "" && IsStop(more[0])
    decreases |s|
  {
    hide WordRun, ProductValue, KeyValue;
    if MatchProduct(s).Some? {
      var found := MatchProduct(s).value;
      var value := ProductValue(env, found.left, found.right);
      ProductValueIsWordOrStops(env, found.left, found.right);
      WordsJoin(value, MixedText(found.rest, env));
      if Words(value) {
        WordRunSkips(value, ReplaceProducts(found.rest, env));
        MixedWordStops(found.rest, env);
      } else {
        var whole := value + ReplaceProducts(found.rest, env);
        WordRunOf("", whole);
        assert "" + whole == whole;
      }
    } else {
      assert s != "" && IsWord(s[0]);
      WordsJoin([s[0]], MixedText(s[1..], env));
      WordRunSkips([s[0]], ReplaceProducts(s[1..], env));
      MixedWordStops(s[1..], env);
    }
  }

  lemma SpacesAfterPass(s: string, env: Env)
    ensures SpaceRun(ReplaceProducts(s, env)) == (SpaceRun(s).0, ReplaceProducts(SpaceRun(s).1, env))
  {
    var (spaces, rest) := SpaceRun(s);
    var after := ReplaceProducts(rest, env);
    PassOver(spaces, rest, env);
    FirstCharacter(rest, env);
    if MatchProduct(rest).Some? {
      var found := MatchProduct(rest).value;
      ProductValueIsWordOrStops(env, found.left, found.right);
      assert after == ProductValue(env, found.left, found.right) + ReplaceProducts(found.rest, env);
    }
    hide ReplaceProducts, SpaceRun, MatchProduct;
    SpaceRunOf(spaces, after);
  }

  /** Whether a directive closes is not changed by the first pass. */
  lemma ClosingAfterPass(s: string, env: Env)
    ensures Strip(SpaceRun(ReplaceProducts(s, env)).1, "}}")
         == match Strip(SpaceRun(s).1, "}}") case None => None case Some(rest) => Some(ReplaceProducts(rest, env))
  {
    var tail := SpaceRun(s).1;
    SpacesAfterPass(s, env);
    if MatchProduct(tail).None? {
      ClosingIsKept(tail, env);
    } else {
      FirstCharacter(tail, env);
      StripHead(tail, "}}");
      StripHead(ReplaceProducts(tail, env), "}}");
    }
  }

  /** The key that a directive opened before `inner` has after the first pass. */
  lemma KeyOfInside(inner: string, env: Env)
    ensures MatchKey("{{" + ReplaceProducts(inner, env))
         == if Closing(inner).Some? && Words(MixedText(KeyPlace(inner), env))
            then Some(KeyMatch(MixedText(KeyPlace(inner), env), ReplaceProducts(Closing(inner).value, env)))
            else None
  {
    hide ReplaceProducts, MatchProduct, AfterMixed, MixedText, SpaceRun, WordRun;
    var place := KeyPlace(inner);
    var rest, key := AfterMixed(place), MixedText(place, env);
    StripOf("{{", ReplaceProducts(inner, env));
    SpacesAfterPass(inner, env);
    MixedIsEmptyIff(place, env);
    if Words(key) {
      MixedPass(place, env);
      MixedStops(place);
      FirstCharacter(rest, env);
      WordRunOf(key, ReplaceProducts(rest, env));
      ClosingAfterPass(rest, env);
    } else {
      MixedWordStops(place, env);
      var more := WordRun(ReplaceProducts(place, env)).1;
      SpaceRunOf("", more);
      assert "" + more == more;
      StripHead(more, "}}");
    }
  }

  lemma UnopenedStaysUnopened(s: string, env: Env)
    requires s != "" && Strip(s, "{{").None?
    ensures MatchKey(ReplaceProducts(s, env)).None?
  {
    assert "{{" == ['{', '{'];
    StripPair(s, '{', '{');
    NothingMatches(s);
    FirstPassStep(s, env);
    if |s| > 1 {
      FirstCharacter(s[1..], env);
    }
    NothingMatches(ReplaceProducts(s, env));
  }

  /** The first pass leaves two opening braces alone, unless a product starts at the second, and then nothing is
      framed. */
  lemma PairIsKept(inner: string, env: Env)
    requires MatchProduct("{{" + inner).None?
    ensures || ReplaceProducts("{{" + inner, env) == "{{" + ReplaceProducts(inner, env)
            || (MatchKey(ReplaceProducts("{{" + inner, env)).None? && !Framed("{{" + inner))
  {
    hide ReplaceProducts, MatchProduct, MatchKey, Framed;
    var s, t := "{{" + inner, "{" + inner;
    assert s[1..] == t && t[1..] == inner && s[0] == '{' && t[0] == '{';
    FirstPassStep(s, env);
    if MatchProduct(t).None? {
      FirstPassStep(t, env);
      assert ['{'] + (['{'] + ReplaceProducts(inner, env)) == "{{" + ReplaceProducts(inner, env);
    } else {
      FirstCharacter(t, env);
      NothingMatches(ReplaceProducts(s, env));
      ProductAtSecond(inner);
    }
  }

  lemma ProductAtSecond(inner: string)
    requires MatchProduct("{" + inner).Some?
    ensures !Framed("{{" + inner)
  {
    var gaps := MatchedProductIsSpelled("{" + inner);
    var found := MatchProduct("{" + inner).value;
    var inside := gaps.before + (MULTIPLY + Operands(gaps, found.left, found.right, found.rest));
    assert "{" + inner == "{{" + inside;
    assert inner == ("{" + inner)[1..] == "{" + inside;
    MultiplyIsAWord();
    assert inside[0] != '{';
    NothingMatches(inner);
    BraceIsNoPlace(inner);
  }

  lemma MultiplyIsAWord()
    ensures Words(MULTIPLY) && MULTIPLY != "" && MULTIPLY[0] == 'm'
  {
  }

  /** A third opening brace that opens no product leaves nothing framed. */
  lemma BraceIsNoPlace(inner: string)
    requires inner != "" && inner[0] == '{' && MatchProduct(inner).None?
    ensures !Framed("{{" + inner)
  {
    StripOf("{{", inner);
    SpaceRunOf("", inner);
    assert "" + inner == inner;
  }

  /** After the first pass a key stands where one is framed and every product in it reads as a word, and nowhere
      else. */
  lemma KeyAfterFirstPass(s: string, env: Env)
    requires s != "" && MatchProduct(s).None?
    ensures Framed(s) ==> Strip(s, "{{").Some? && Closing(Strip(s, "{{").value).Some?
    ensures MatchKey(ReplaceProducts(s, env))
         == if Framed(s) && Words(MixedText(KeyPlace(Strip(s, "{{").value), env))
            then Some(KeyMatch(MixedText(KeyPlace(Strip(s, "{{").value), env),
                               ReplaceProducts(Closing(Strip(s, "{{").value).value, env)))
            else None
  {
    if Strip(s, "{{").None? {
      UnopenedStaysUnopened(s, env);
    } else {
      var inner := Strip(s, "{{").value;
      PairIsKept(inner, env);
      KeyOfInside(inner, env);
    }
  }

  lemma {:induction false} WordIsMixed(word: string, rest: string, env: Env)
    requires Words(word) && MatchProduct(rest).None? && (rest == "" || !IsWord(rest[0]))
    ensures AfterMixed(word + rest) == rest && MixedText(word + rest, env) == word
  {
    if word == "" {
      assert word + rest == rest;
    } else {
      NothingMatches(word + rest);
      assert (word + rest)[1..] == word[1..] + rest;
      assert [word[0]] + word[1..] == word;
      WordIsMixed(word[1..], rest, env);
    }
  }

  /** A key in the template is framed, and holds no product. */
  lemma KeyIsFramed(s: string, env: Env)
    requires MatchKey(s).Some?
    ensures Strip(s, "{{").Some?
    ensures var inner := Strip(s, "{{").value;
      Closing(inner) == Some(MatchKey(s).value.rest) && MixedText(KeyPlace(inner), env) == MatchKey(s).value.key
  {
    var inner := Strip(s, "{{").value;
    var (key, more) := WordRun(KeyPlace(inner));
    var (spaces, end) := SpaceRun(more);
    assert "}}" == ['}', '}'];
    StripPair(end, '}', '}');
    NothingMatches(more);
    WordIsMixed(key, more, env);
  }

  /** Where no directive is closed around a product, the two passes are one, in every context. */
  lemma {:induction false} TwoPassesAreOne(s: string, env: Env)
    requires Guarded(s)
    ensures RenderTemplate(s, env) == RenderOnce(s, env)
    decreases |s|
  {
    if s != "" {
      if MatchProduct(s).Some? {
        ProductStep(s, env);
        TwoPassesAreOne(MatchProduct(s).value.rest, env);
      } else if MatchKey(s).Some? {
        KeyStep(s, env);
        TwoPassesAreOne(MatchKey(s).value.rest, env);
      } else {
        UnframedStep(s, env);
        TwoPassesAreOne(s[1..], env);
      }
    }
  }

  lemma ProductStep(s: string, env: Env)
    requires MatchProduct(s).Some?
    ensures var found := MatchProduct(s).value;
      && RenderTemplate(s, env) == ProductValue(env, found.left, found.right) + RenderTemplate(found.rest, env)
      && RenderOnce(s, env) == ProductValue(env, found.left, found.right) + RenderOnce(found.rest, env)
      && NoOpening(ProductValue(env, found.left, found.right))
  {
    var found := MatchProduct(s).value;
    var gaps := MatchedProductIsSpelled(s);
    ProductValueHasNoBrace(env, found.left, found.right);
    PassOver(ProductValue(env, found.left, found.right), ReplaceProducts(found.rest, env), env);
  }

  lemma KeyStep(s: string, env: Env)
    requires s != "" && MatchProduct(s).None? && MatchKey(s).Some?
    ensures var found := MatchKey(s).value;
      && RenderTemplate(s, env) == KeyValue(env, found.key) + RenderTemplate(found.rest, env)
      && RenderOnce(s, env) == KeyValue(env, found.key) + RenderOnce(found.rest, env)
      && Words(found.key)
  {
    KeyIsFramed(s, env);
    KeyAfterFirstPass(s, env);
    FirstCharacter(s, env);
  }

  lemma UnframedStep(s: string, env: Env)
    requires s != "" && MatchProduct(s).None? && MatchKey(s).None? && !Framed(s)
    ensures RenderTemplate(s, env) == [s[0]] + RenderTemplate(s[1..], env)
    ensures RenderOnce(s, env) == [s[0]] + RenderOnce(s[1..], env)
    ensures Guarded(s) == Guarded(s[1..])
  {
    KeyAfterFirstPass(s, env);
    FirstPassStep(s, env);
    assert ([s[0]] + ReplaceProducts(s[1..], env))[1..] == ReplaceProducts(s[1..], env);
  }

  // ---------------------------------------------------------------------------------------------
  // Where a directive is closed around a product, some context tells the passes apart
  // ---------------------------------------------------------------------------------------------

  lemma OncePlainStep(c: char, rest: string, env: Env)
    requires c != '{'
    ensures RenderOnce([c] + rest, env) == [c] + RenderOnce(rest, env)
  {
    NothingMatches([c] + rest);
    assert ([c] + rest)[1..] == rest;
  }

  lemma {:induction false} OncePassesOver(text: string, rest: string, env: Env)
    requires NoOpening(text)
    ensures RenderOnce(text + rest, env) == text + RenderOnce(rest, env)
  {
    hide RenderOnce;
    if text == "" {
      assert text + rest == rest;
    } else {
      assert text + rest == [text[0]] + (text[1..] + rest);
      assert text == [text[0]] + text[1..];
      OncePlainStep(text[0], text[1..] + rest, env);
      OncePassesOver(text[1..], rest, env);
    }
  }

  lemma {:induction false} MixedOnce(s: string, env: Env)
    ensures RenderOnce(s, env) == MixedText(s, env) + RenderOnce(AfterMixed(s), env)
    ensures NoOpening(MixedText(s, env))
    decreases |s|
  {
    hide RenderOnce, RenderTemplate, ProductValue, MatchProduct;
    if MatchProduct(s).Some? {
      ProductStep(s, env);
      MixedOnce(MatchProduct(s).value.rest, env);
    } else if s != "" && IsWord(s[0]) {
      assert s == [s[0]] + s[1..];
      OncePlainStep(s[0], s[1..], env);
      MixedOnce(s[1..], env);
    }
  }

  /** A single pass writes a framed directive out, with the values of its products. */
  lemma FramedOnce(inner: string, env: Env)
    requires MatchProduct("{{" + inner).None? && MatchKey("{{" + inner).None? && Closing(inner).Some?
    ensures var (spaces, place) := SpaceRun(inner);
      RenderOnce("{{" + inner, env)
      == "{{" + (spaces + (MixedText(place, env)
             + (SpaceRun(AfterMixed(place)).0 + ("}}" + RenderOnce(Closing(inner).value, env)))))
  {
    SecondMatchesNothing(inner);
    BothBracesStand(inner, env);
    InsideOnce(inner, env);
  }

  lemma BothBracesStand(inner: string, env: Env)
    requires MatchProduct("{{" + inner).None? && MatchKey("{{" + inner).None?
    requires MatchProduct("{" + inner).None? && MatchKey("{" + inner).None?
    ensures RenderOnce("{{" + inner, env) == "{{" + RenderOnce(inner, env)
  {
    hide RenderOnce, MatchProduct, MatchKey;
    var s, t := "{{" + inner, "{" + inner;
    assert s[1..] == t && t[1..] == inner && s[0] == '{' && t[0] == '{';
    OnceStep(s, env);
    OnceStep(t, env);
    assert ['{'] + (['{'] + RenderOnce(inner, env)) == "{{" + RenderOnce(inner, env);
  }

  lemma OnceStep(s: string, env: Env)
    requires s != "" && MatchProduct(s).None? && MatchKey(s).None?
    ensures RenderOnce(s, env) == [s[0]] + RenderOnce(s[1..], env)
  {
  }

  lemma InsideOnce(inner: string, env: Env)
    requires Closing(inner).Some?
    ensures var (spaces, place) := SpaceRun(inner);
      RenderOnce(inner, env)
      == spaces + (MixedText(place, env)
             + (SpaceRun(AfterMixed(place)).0 + ("}}" + RenderOnce(Closing(inner).value, env))))
  {
    var (spaces, place) := SpaceRun(inner);
    var (gap, tail) := SpaceRun(AfterMixed(place));
    assert tail == "}}" + Closing(inner).value;
    hide RenderOnce, SpaceRun, AfterMixed, MixedText, Closing;
    OncePassesOver(spaces, place, env);
    MixedOnce(place, env);
    OncePassesOver(gap, tail, env);
    OncePassesOver("}}", Closing(inner).value, env);
  }

  /** Nothing starts at the second brace of a framed directive. */
  lemma SecondMatchesNothing(inner: string)
    requires Closing(inner).Some?
    ensures MatchProduct("{" + inner).None? && MatchKey("{" + inner).None?
  {
    hide Closing, MatchProduct, MatchKey;
    if inner != "" && inner[0] == '{' {
      BraceStartsProduct(inner);
      assert "{" + inner == "{{" + inner[1..];
      BraceAfterOpening(inner[1..]);
    } else {
      NothingMatches("{" + inner);
    }
  }

  lemma BraceStartsProduct(inner: string)
    requires inner != "" && inner[0] == '{' && Closing(inner).Some?
    ensures |inner| >= 2 && inner[1] == '{'
  {
    SpaceRunOf("", inner);
    assert "" + inner == inner;
    hide SpaceRun;
    assert MatchProduct(inner).Some?;
    assert "{{" == ['{', '{'];
    StripPair(inner, '{', '{');
  }

  /** A third opening brace keeps the first two from opening anything. */
  lemma BraceAfterOpening(inner: string)
    requires inner != "" && inner[0] == '{'
    ensures MatchKey("{{" + inner).None? && MatchProduct("{{" + inner).None?
  {
    StripOf("{{", inner);
    SpaceRunOf("", inner);
    WordRunOf("", inner);
    assert "" + inner == inner;
    MultiplyIsAWord();
    hide MatchOperands;
    StripHead(inner, MULTIPLY);
  }

  /** The value of a framed product becomes the key, or part of it, and is looked up in its turn, where a single
      pass would have left the directive standing. */
  lemma FramedProductIsLookedUp(s: string, env: Env)
    requires s != "" && MatchProduct(s).None? && MatchKey(s).None? && Framed(s)
    requires Words(MixedText(KeyPlace(Strip(s, "{{").value), env))
    ensures var inner := Strip(s, "{{").value;
      var (spaces, place) := SpaceRun(inner);
      var key, rest := MixedText(place, env), Closing(inner).value;
      && RenderTemplate(s, env) == KeyValue(env, key) + RenderTemplate(rest, env)
      && RenderOnce(s, env)
         == "{{" + (spaces + (key + (SpaceRun(AfterMixed(place)).0 + ("}}" + RenderOnce(rest, env)))))
  {
    var inner := Strip(s, "{{").value;
    FramedOnce(inner, env);
    KeyAfterFirstPass(s, env);
    FirstCharacter(s, env);
  }

  function Braces(s: string): nat {
    if s == "" then 0 else Braces(s[1..]) + if s[0] == '{' then 1 else 0
  }

  lemma {:induction false} BracesAdd(a: string, b: string)
    ensures Braces(a + b) == Braces(a) + Braces(b)
  {
    if a == "" {
      assert a + b == b;
    } else {
      assert (a + b)[1..] == a[1..] + b;
      BracesAdd(a[1..], b);
    }
  }

  lemma {:induction false} NoOpeningNoBraces(s: string)
    requires NoOpening(s)
    ensures Braces(s) == 0
  {
    if s != "" {
      NoOpeningNoBraces(s[1..]);
    }
  }

  lemma {:induction false} MixedOnesIsWord(s: string)
    ensures Words(MixedText(s, Ones()))
    decreases |s|
  {
    hide ProductValue;
    if MatchProduct(s).Some? {
      var found := MatchProduct(s).value;
      ProductOfOnes(found.left, found.right);
      MixedOnesIsWord(found.rest);
    } else if s != "" && IsWord(s[0]) {
      MixedOnesIsWord(s[1..]);
    }
  }

  lemma MissingKeyHasNoOpening(key: string)
    requires Words(key)
    ensures NoOpening(KeyValue(Ones(), key))
  {
    var opening := "[missing: ";
    assert NoBrace(opening) && NoBrace("]");
    JoinHasNoBrace(opening, key);
    JoinHasNoBrace(opening + key, "]");
  }

  /** Two passes over a framed directive show two opening braces fewer than one pass. */
  lemma FramedLosesBraces(s: string)
    requires s != "" && MatchProduct(s).None? && MatchKey(s).None? && Framed(s)
    ensures var rest := Closing(Strip(s, "{{").value).value;
      && Braces(RenderTemplate(s, Ones())) == Braces(RenderTemplate(rest, Ones()))
      && Braces(RenderOnce(s, Ones())) == 2 + Braces(RenderOnce(rest, Ones()))
  {
    var env := Ones();
    var inner := Strip(s, "{{").value;
    var (spaces, place) := SpaceRun(inner);
    var key, gap, rest := MixedText(place, env), SpaceRun(AfterMixed(place)).0, Closing(inner).value;
    MixedOnesIsWord(place);
    FramedProductIsLookedUp(s, env);
    MissingKeyHasNoOpening(key);
    hide RenderTemplate, RenderOnce, KeyValue, MixedText, SpaceRun, AfterMixed, Closing;
    NoOpeningNoBraces(KeyValue(env, key));
    BracesAdd(KeyValue(env, key), RenderTemplate(rest, env));
    DirectiveHasTwoBraces(spaces, key, gap, RenderOnce(rest, env));
  }

  lemma DirectiveHasTwoBraces(spaces: string, key: string, gap: string, rest: string)
    requires Spaces(spaces) && Words(key) && Spaces(gap)
    ensures Braces("{{" + (spaces + (key + (gap + ("}}" + rest))))) == 2 + Braces(rest)
  {
    NoOpeningNoBraces(spaces);
    NoOpeningNoBraces(key);
    NoOpeningNoBraces(gap);
    BracesAdd("}}", rest);
    BracesAdd(gap, "}}" + rest);
    BracesAdd(key, gap + ("}}" + rest));
    BracesAdd(spaces, key + (gap + ("}}" + rest)));
    BracesAdd("{{", spaces + (key + (gap + ("}}" + rest))));
    assert "{{"[1..] == "{" && "{"[1..] == "" && "}}"[1..] == "}" && "}"[1..] == "";
  }

  /** When every operand is one, two passes never show more opening braces than one, and fewer where a directive is
      closed around a product. */
  lemma {:induction false} BracesDrop(s: string)
    ensures Braces(RenderTemplate(s, Ones())) <= Braces(RenderOnce(s, Ones()))
    ensures !Guarded(s) ==> Braces(RenderTemplate(s, Ones())) < Braces(RenderOnce(s, Ones()))
    decreases |s|
  {
    var env := Ones();
    if s != "" {
      if MatchProduct(s).Some? {
        var found := MatchProduct(s).value;
        ProductStep(s, env);
        BracesDrop(found.rest);
        BracesAdd(ProductValue(env, found.left, found.right), RenderTemplate(found.rest, env));
        BracesAdd(ProductValue(env, found.left, found.right), RenderOnce(found.rest, env));
      } else if MatchKey(s).Some? {
        var found := MatchKey(s).value;
        KeyStep(s, env);
        BracesDrop(found.rest);
        BracesAdd(KeyValue(env, found.key), RenderTemplate(found.rest, env));
        BracesAdd(KeyValue(env, found.key), RenderOnce(found.rest, env));
      } else if Framed(s) {
        FramedLosesBraces(s);
        BracesDrop(Closing(Strip(s, "{{").value).value);
      } else {
        UnframedStep(s, env);
        BracesDrop(s[1..]);
        BracesAdd([s[0]], RenderTemplate(s[1..], env));
        BracesAdd([s[0]], RenderOnce(s[1..], env));
      }
    }
  }

  /** The two passes are one in every context exactly when no directive is closed around a product. */
  lemma PassesAgreeIff(s: string)
    ensures Guarded(s) <==> forall env: Env :: RenderTemplate(s, env) == RenderOnce(s, env)
  {
    if Guarded(s) {
      forall env: Env ensures RenderTemplate(s, env) == RenderOnce(s, env) {
        TwoPassesAreOne(s, env);
      }
    } else {
      BracesDrop(s);
    }
  }
}
