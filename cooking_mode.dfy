/** The step-by-step cooking screen: a bounded step cursor with guarded
    next and previous moves, the read-aloud toggle and the arguments of the
    step label. The speech engine is represented by a speaking flag and the
    last request made to it. */
module Cooking {
  import opened Wrappers
  import opened Strings
  import opened Types
  import opened LanguageContext
  import opened Translation

  /** A request to read `text` aloud with language tag `lang`; the text is
      `None` when the current step does not exist (`steps[0]` of an empty
      list is `undefined`). */
  datatype Utterance = Utterance(text: Option<string>, lang: string)

  /** The speech language tag for the interface language. */
  function SpeechTag(language: Language): (tag: string)
    ensures tag == "tr-TR" <==> language == Tr
    ensures language == En ==> tag == "en-US"
  {
    if language == Tr then "tr-TR" else "en-US"
  }

  // ---------------------------------------------------------------- the cursor

  /** The largest index the cursor can reach: `max(0, len - 1)`. */
  function LastStep(len: nat): nat
  {
    if len == 0 then 0 else len - 1
  }

  /** `handleNextStep`'s move: forward only while not at the last step. */
  function NextStepIndex(current: nat, len: nat): (next: nat)
    ensures current <= LastStep(len) ==> next <= LastStep(len)
    ensures next == current + 1 <==> current + 1 < len
    ensures next == current <==> current + 1 >= len
  {
    if current < len - 1 then current + 1 else current
  }

  /** `handlePrevStep`'s move: back only while above the first step. */
  function PrevStepIndex(current: nat): (prev: nat)
    ensures current > 0 ==> prev == current - 1
    ensures current == 0 ==> prev == 0
  {
    if current > 0 then current - 1 else current
  }

  /** Back undoes a forward move that was not blocked. */
  lemma NextThenPrev(current: nat, len: nat)
    requires current + 1 < len
    ensures PrevStepIndex(NextStepIndex(current, len)) == current
  {
  }

  /** `n` presses of "next". */
  function NextTimes(current: nat, len: nat, n: nat): nat
    decreases n
  {
    if n == 0 then current else NextTimes(NextStepIndex(current, len), len, n - 1)
  }

  /** Pressing "next" `n` times moves `n` steps forward, but never past the
      last step. */
  lemma {:induction false} NextTimesClamps(current: nat, len: nat, n: nat)
    requires current <= LastStep(len)
    ensures NextTimes(current, len, n) == if current + n <= LastStep(len) then current + n else LastStep(len)
    decreases n
  {
    if n > 0 {
      NextTimesClamps(NextStepIndex(current, len), len, n - 1);
    }
  }

  /** `n` presses of "previous". */
  function PrevTimes(current: nat, n: nat): nat
    decreases n
  {
    if n == 0 then current else PrevTimes(PrevStepIndex(current), n - 1)
  }

  /** Pressing "previous" `n` times moves `n` steps back, but never below the
      first step. */
  lemma {:induction false} PrevTimesClamps(current: nat, n: nat)
    ensures PrevTimes(current, n) == if n <= current then current - n else 0
    decreases n
  {
    if n > 0 {
      PrevTimesClamps(PrevStepIndex(current), n - 1);
    }
  }

  // ---------------------------------------------------------------- the screen

  /** The translation key of the step label. */
  const StepKey: string := "cookingMode.step"

  class CookingMode {
    const recipe: Recipe
    var currentStep: nat
    var isSpeaking: bool
    var lastRequest: Option<Utterance>

    /** The cursor stays within `[0, max(0, steps.length - 1)]`. */
    predicate Valid()
      reads this
    {
      currentStep <= LastStep(|recipe.steps|)
    }

    /** The screen opens on the first step, silent. */
    constructor (recipe: Recipe)
      ensures Valid()
      ensures this.recipe == recipe && currentStep == 0
      ensures !isSpeaking && lastRequest == None
    {
      this.recipe := recipe;
      currentStep := 0;
      isSpeaking := false;
      lastRequest := None;
    }

    /** Cancels speech, then moves forward unless at the last step. */
    method HandleNextStep()
      requires Valid()
      modifies this
      ensures Valid()
      ensures !isSpeaking
      ensures currentStep == NextStepIndex(old(currentStep), |recipe.steps|)
      ensures lastRequest == old(lastRequest)
    {
      Cancel();
      if currentStep < |recipe.steps| - 1 {
        currentStep := currentStep + 1;
      }
    }

    /** Cancels speech, then moves back unless at the first step. */
    method HandlePrevStep()
      requires Valid()
      modifies this
      ensures Valid()
      ensures !isSpeaking
      ensures currentStep == PrevStepIndex(old(currentStep))
      ensures lastRequest == old(lastRequest)
    {
      Cancel();
      if currentStep > 0 {
        currentStep := currentStep - 1;
      }
    }

    /** Stops speaking when speaking; otherwise reads the current step with
      the tag of the interface language. The speech hook ignores an empty
      text, so a step that is the empty string starts nothing. */
    method HandleSpeak(language: Language)
      requires Valid()
      modifies this
      ensures Valid() && currentStep == old(currentStep)
      ensures old(isSpeaking) ==> !isSpeaking && lastRequest == old(lastRequest)
      ensures !old(isSpeaking) && CurrentStepText() == Some("") ==>
        !isSpeaking && lastRequest == old(lastRequest)
      ensures !old(isSpeaking) && CurrentStepText() != Some("") ==>
        isSpeaking && lastRequest == Some(Utterance(CurrentStepText(), SpeechTag(language)))
    {
      if isSpeaking {
        Cancel();
      } else if CurrentStepText() != Some("") {
        isSpeaking := true;
        lastRequest := Some(Utterance(CurrentStepText(), SpeechTag(language)));
      }
    }

    /** `cancel()`: stops speech; also run when the screen goes away. */
    method Cancel()
      modifies this
      ensures !isSpeaking
      ensures currentStep == old(currentStep) && lastRequest == old(lastRequest)
    {
      isSpeaking := false;
    }

    /** The utterance finished or failed: `onend` / `onerror`. */
    method SpeechEnded()
      modifies this
      ensures !isSpeaking
      ensures currentStep == old(currentStep) && lastRequest == old(lastRequest)
    {
      isSpeaking := false;
    }

    /** `recipe.steps[currentStep]`. */
    function CurrentStepText(): (text: Option<string>)
      reads this
      ensures text.Some? <==> currentStep < |recipe.steps|
      ensures text.Some? ==> text.value == recipe.steps[currentStep]
    {
      if currentStep < |recipe.steps| then Some(recipe.steps[currentStep]) else None
    }

    /** The options of the step label: the 1-based step number and the
      number of steps. */
    function StepLabelOptions(): (options: Options)
      reads this
      ensures |options| == 2
      ensures options[0] == ("current", NatToString(currentStep + 1))
      ensures options[1] == ("total", NatToString(|recipe.steps|))
      ensures ParseNat(options[0].1) == currentStep + 1 && ParseNat(options[1].1) == |recipe.steps|
    {
      ParseNatToString(currentStep + 1);
      ParseNatToString(|recipe.steps|);
      [("current", NatToString(currentStep + 1)), ("total", NatToString(|recipe.steps|))]
    }

    /** The step label, `t('cookingMode.step', {current, total})`. */
    function StepLabel(language: Language, translations: Translations): (text: Result<Text, string>)
      reads this
      ensures text.Failure? ==> text.error == ReplaceNotAFunction
    {
      Translated(language, translations, StepKey, Some(StepLabelOptions()))
    }

    /** `disabled={currentStep === 0}`. */
    predicate PrevDisabled()
      reads this
    {
      currentStep == 0
    }

    /** `disabled={currentStep === recipe.steps.length - 1}`. */
    predicate NextDisabled()
      reads this
    {
      currentStep == |recipe.steps| - 1
    }
  }

  /** With at least one step, each button is disabled exactly when pressing
      it would not move the cursor. */
  lemma ButtonsDisabledExactlyWhenBlocked(c: CookingMode)
    requires c.Valid() && |c.recipe.steps| > 0
    ensures c.PrevDisabled() <==> PrevStepIndex(c.currentStep) == c.currentStep
    ensures c.NextDisabled() <==> NextStepIndex(c.currentStep, |c.recipe.steps|) == c.currentStep
  {
  }

  /** With no steps, "next" stays enabled although it never moves, and
      there is no step text to show or read. */
  lemma EmptyRecipeSteps(c: CookingMode)
    requires c.Valid() && |c.recipe.steps| == 0
    ensures c.currentStep == 0 && !c.NextDisabled() && c.PrevDisabled()
    ensures NextStepIndex(c.currentStep, 0) == 0
    ensures c.CurrentStepText() == None
  {
  }

  /** A step-label template found in the active locale gets the step
      number and the step count substituted into it. */
  lemma StepLabelSubstitutes(c: CookingMode, language: Language, translations: Translations, template: string)
    requires Walk(translations.Tree(language), Split(StepKey, '.')) == Some(Leaf(template)) && template != ""
    ensures c.StepLabel(language, translations) == Success(Str(SubstituteAll(template, c.StepLabelOptions())))
  {
    ActiveHit(language, translations, StepKey, template, Some(c.StepLabelOptions()));
  }
}
