/** The request and response shaping around the generative-model call:
    the dietary-filter clause of the prompt, the normalisation of each
    recipe's difficulty, and the single error every failure becomes. The
    call itself is represented by its outcome, a `ModelReply`. */
module GeminiService {
  import opened Wrappers
  import opened Strings
  import opened Types
  import opened LanguageContext

  /** A recipe as parsed from the model's JSON reply, before normalisation:
      its difficulty is whatever text the model produced. */
  datatype RawRecipe = RawRecipe(
    name: string,
    description: string,
    difficulty: string,
    prepTime: string,
    calories: int,
    ingredients: seq<Ingredient>,
    missingIngredients: seq<string>,
    steps: seq<string>,
    imageUrl: Option<string>)

  /** The outcome of sending the prompt and the image: a reply that parsed
      and matches the declared response schema, or a failure that throws
      inside the call (transport, status, JSON syntax, or a reply whose
      shape makes the recipe mapping throw). */
  datatype ModelReply =
    | Parsed(identifiedIngredients: seq<string>, recipes: seq<RawRecipe>)
    | CallFailed

  /** What `generateRecipesFromImage` resolves to. */
  datatype Generated = Generated(identifiedIngredients: seq<string>, recipes: seq<Recipe>)

  /** The one error `generateRecipesFromImage` rejects with. */
  const GenerationFailed: string := "Failed to get recipes from AI model."

  // ---------------------------------------------------------------- the filter clause

  function NoRestrictions(language: Language): string
  {
    if language == Tr then "Beslenme kısıtlaması yok."
    else "There are no dietary restrictions."
  }

  function RestrictionsLead(language: Language): string
  {
    if language == Tr then "Kullanıcının şu beslenme kısıtlamaları var: "
    else "The user has the following dietary restrictions: "
  }

  function RestrictionsTail(language: Language): string
  {
    if language == Tr then ". Lütfen tüm tariflerin bunlara uygun olduğundan emin olun."
    else ". Please ensure all recipes adhere to these."
  }

  /** The sentence about dietary restrictions that goes into the prompt. */
  function FilterInstructions(language: Language, filters: seq<string>): (clause: string)
    ensures |filters| == 0 ==> clause == NoRestrictions(language)
    ensures |filters| > 0 ==>
      clause == RestrictionsLead(language) + Join(filters, ", ") + RestrictionsTail(language)
  {
    var clause := NoRestrictions(language);
    if |filters| > 0 then RestrictionsLead(language) + Join(filters, ", ") + RestrictionsTail(language)
    else clause
  }

  /** Joining keeps list order: one more filter is appended after the
      others, separated by ", ". */
  lemma {:induction false} JoinSnoc(parts: seq<string>, last: string, sep: string)
    requires |parts| > 0
    ensures Join(parts + [last], sep) == Join(parts, sep) + sep + last
  {
    if |parts| == 1 {
      assert (parts + [last])[1..] == [last];
    } else {
      assert (parts + [last])[1..] == parts[1..] + [last];
      JoinSnoc(parts[1..], last, sep);
    }
  }

  /** The clause for a non-empty filter list lists the filters in order:
      adding a filter appends it to the listed names. */
  lemma FilterClauseAppends(language: Language, filters: seq<string>, f: string)
    requires |filters| > 0
    ensures FilterInstructions(language, filters + [f]) ==
      RestrictionsLead(language) + Join(filters, ", ") + ", " + f + RestrictionsTail(language)
  {
    ClauseSnoc(RestrictionsLead(language), RestrictionsTail(language), filters, f);
  }

  /** `JoinSnoc` between a fixed lead and tail. */
  lemma ClauseSnoc(lead: string, tail: string, filters: seq<string>, f: string)
    requires |filters| > 0
    ensures lead + Join(filters + [f], ", ") + tail == lead + Join(filters, ", ") + ", " + f + tail
  {
    var sep := ", ";
    var joined := Join(filters, sep);
    JoinSnoc(filters, f, sep);
    assert lead + (joined + sep + f) == lead + joined + sep + f by {
      SeqAssoc(lead, joined + sep, f);
      SeqAssoc(lead, joined, sep);
    }
  }

  /** Concatenation is associative. */
  lemma SeqAssoc(a: string, b: string, c: string)
    ensures a + (b + c) == a + b + c
  {
  }

  /** A single filter is named on its own. */
  lemma FilterClauseSingle(language: Language, f: string)
    ensures FilterInstructions(language, [f]) == RestrictionsLead(language) + f + RestrictionsTail(language)
  {
  }

  // ---------------------------------------------------------------- difficulty

  /** `difficultyMap`: English and Turkish words, in lower case. */
  const DifficultyTable: map<string, Difficulty> :=
    map["easy" := Easy, "kolay" := Easy,
        "medium" := Medium, "orta" := Medium,
        "hard" := Hard, "zor" := Hard]

  /** `difficultyMap[d.toLowerCase()] || 'Medium'`. */
  function NormalizeDifficulty(raw: string): (d: Difficulty)
    ensures d == Easy <==> LowerCase(raw) == "easy" || LowerCase(raw) == "kolay"
    ensures d == Hard <==> LowerCase(raw) == "hard" || LowerCase(raw) == "zor"
    ensures d == Medium <==>
      LowerCase(raw) !in {"easy", "kolay", "hard", "zor"}
  {
    var key := LowerCase(raw);
    if key in DifficultyTable then DifficultyTable[key] else Medium
  }

  /** The lookup ignores case. */
  lemma NormalizeIgnoresCase(raw: string)
    ensures NormalizeDifficulty(raw) == NormalizeDifficulty(LowerCase(raw))
  {
    LowerCaseIdempotent(raw);
  }

  /** A normalised difficulty, written back as its name, normalises to
      itself. */
  lemma NormalizeIdempotent(raw: string)
    ensures NormalizeDifficulty(DifficultyName(NormalizeDifficulty(raw))) == NormalizeDifficulty(raw)
  {
    assert LowerCase("Easy") == "easy";
    assert LowerCase("Medium") == "medium";
    assert LowerCase("Hard") == "hard";
  }

  /** Mixed-case Turkish and English words, and an unknown word. */
  lemma NormalizeExamples()
    ensures NormalizeDifficulty("Zor") == Hard
    ensures NormalizeDifficulty("KOLAY") == Easy
    ensures NormalizeDifficulty("Orta") == Medium
    ensures NormalizeDifficulty("extreme") == Medium
  {
    assert LowerCase("Zor") == "zor";
    assert LowerCase("KOLAY") == "kolay";
  }

  /** `{...recipe, difficulty: ...}`: only the difficulty is replaced. */
  function NormalizeRecipe(raw: RawRecipe): (r: Recipe)
    ensures r.difficulty == NormalizeDifficulty(raw.difficulty)
    ensures r.name == raw.name && r.description == raw.description
    ensures r.prepTime == raw.prepTime && r.calories == raw.calories
    ensures r.ingredients == raw.ingredients && r.missingIngredients == raw.missingIngredients
    ensures r.steps == raw.steps && r.imageUrl == raw.imageUrl
  {
    Recipe(raw.name, raw.description, NormalizeDifficulty(raw.difficulty), raw.prepTime,
           raw.calories, raw.ingredients, raw.missingIngredients, raw.steps, raw.imageUrl)
  }

  /** `result.recipes.map(...)`: same count, same order, each normalised. */
  function NormalizeRecipes(raws: seq<RawRecipe>): (rs: seq<Recipe>)
    ensures |rs| == |raws|
    ensures forall i :: 0 <= i < |raws| ==> rs[i] == NormalizeRecipe(raws[i])
  {
    seq(|raws|, i requires 0 <= i < |raws| => NormalizeRecipe(raws[i]))
  }

  // ---------------------------------------------------------------- the call

  /** `generateRecipesFromImage` given what the model call produced: the
      identified ingredients are passed through, the recipes normalised,
      and every failure rejects with the one generic message. */
  function Generate(reply: ModelReply): (r: Result<Generated, string>)
    ensures r.Failure? <==> reply.CallFailed?
    ensures r.Failure? ==> r.error == GenerationFailed
    ensures r.Success? ==>
      && r.value.identifiedIngredients == reply.identifiedIngredients
      && |r.value.recipes| == |reply.recipes|
      && forall i :: 0 <= i < |reply.recipes| ==>
           r.value.recipes[i] == NormalizeRecipe(reply.recipes[i])
  {
    match reply
    case CallFailed => Failure(GenerationFailed)
    case Parsed(identified, raws) => Success(Generated(identified, NormalizeRecipes(raws)))
  }
}
