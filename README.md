# Smart Fridge Culinary Assistant — a Dafny model of its core

The app photographs a fridge and asks a generative model for the ingredients
it sees and for recipes that use them. The user confirms the ingredients,
picks a recipe, and follows it step by step in a cooking mode that can read
each step aloud. Missing ingredients go onto a shopping list. Dietary filters
restrict the suggestions. The interface is in English or Turkish.

This project models the logic behind that flow and proves what it promises:

- **Translation lookup** (`Translation`). A dotted key is walked through
  the active locale tree. If that fails, the walk is retried in English, and
  after that the key itself is used. `{{name}}` placeholders are then
  replaced one option at a time. A loop-based implementation
  (`Translate`, `WalkPath`) is proved equal to a recursive definition
  (`Translated`, `Walk`). The fallback order is proved about that definition.
- **Session state** (`AppState.App`). A class holds the app's nine fields. It
  has one method per handler and the two pure reads: where "back to
  recipes" leads, and which screen the content area shows. The invariants
  are:
  - the shopping list has no duplicates;
  - the cooking view is only entered with a selection;
  - that selection is one of the current recipes.
- **Response shaping** (`GeminiService`). Covers the dietary clause of the
  prompt and the case-insensitive English/Turkish difficulty normalisation.
  Every failure becomes one generic error. The model call itself is
  represented only by its outcome (`ModelReply`).
- **Cooking mode** (`Cooking.CookingMode`). A bounded step cursor with
  guarded next/previous, the read-aloud toggle, the speech tag and the step
  label arguments.
- **Filter sidebar** (`FilterSidebar`). The checkbox toggle and the label
  translation key.
- **Header** (`Header`). Which navigation button and which language
  button is highlighted, and the effect of each of the four buttons.
- **Language context** (`LanguageContext`). The provider's language field
  and the guarded `useLanguage` accessor.
- **Data types** (`Types`). `Recipe` and `Ingredient`.

Helper modules: `Wrappers` (Option, Result), `Strings` (split, join,
first-occurrence replace, ASCII lower case, decimal numerals), `Lists`
(remove-all and no-duplicates) and `Views` (the five views).

One might expect the selected recipe to always be one of the current
recipes. The code does not keep that in general: `handleFilterChange`
(App.tsx:47-52) re-generates the recipes but leaves `selectedRecipe`
untouched. The model follows the code. It proves the weaker invariant that
does hold: whenever the cooking view is showing, the selection is one of
the current recipes (`SelectionFromList`). This assumes the recipe was
selected from the list shown.

## Model

| member | source | states |
|---|---|---|
| Translation.WalkPath | hooks/useTranslation.ts:11-14 | the segment-by-segment loop that stops at the first missing segment returns exactly the recursive walk `Walk` |
| Translation.Translate | hooks/useTranslation.ts:6-36 | `t(key, options)` (split, active walk, English retry, key fallback, placeholder loop) equals `Translated`; an object hit with options raises |
| Translation.WalkAppend | hooks/useTranslation.ts:11-14 | walking `a + b` is walking `a` and then, if that succeeded, walking `b` from where it ended |
| Translation.WalkAllPresent | hooks/useTranslation.ts:7-14 | if every segment is present at its level, the walk returns the node at the end of the path |
| Translation.WalkPresentSegment | hooks/useTranslation.ts:11-12 | a segment present in the object reached so far extends the walk by that member |
| Translation.WalkMissingSegment | hooks/useTranslation.ts:12-13 | a missing segment (or a segment asked of a string) ends the walk with no value and no error, whatever follows |
| Translation.ActiveHit | hooks/useTranslation.ts:8-14 | a non-empty string found in the active locale is returned, unchanged without options and substituted with them |
| Translation.EnglishOnlyOnMiss | hooks/useTranslation.ts:17-23 | the other language's tree does not affect the result unless the language is Turkish and the Turkish walk failed: in English the Turkish tree is irrelevant, after an active hit the English tree is |
| Translation.EnglishFallback | hooks/useTranslation.ts:17-23 | a Turkish miss gives what English gives |
| Translation.KeyFallback | hooks/useTranslation.ts:26 | without options the result is the key exactly when nothing, an empty string, or the key itself was found; an empty active translation yields the key, not the English value |
| Translation.NoOptionsNeverFails | hooks/useTranslation.ts:29-35 | without options (or with an empty options object) `t` never raises and returns the resolved value unchanged, with only a missing value or an empty string replaced by the key |
| Translation.ObjectWithoutOptions | hooks/useTranslation.ts:26-35 | without options, a key that names an object returns that object itself |
| Translation.OptionsOnObjectFail | hooks/useTranslation.ts:29-33 | options on a key that names an object raise "finalString.replace is not a function" |
| Translation.SubstituteAbsent | hooks/useTranslation.ts:30-32 | options whose placeholders do not occur leave the string as it is |
| Translation.SubstituteSingle | hooks/useTranslation.ts:31 | an option replaces only the first occurrence of `{{name}}` and keeps the text around it |
| Strings.JoinSplit | hooks/useTranslation.ts:7 | splitting the key on "." loses nothing: joining the segments back gives the key |
| Strings.IndexFrom | hooks/useTranslation.ts:31 | the result is the first occurrence of the pattern at or after the start, or none exists |
| Strings.ReplaceFirstShape | hooks/useTranslation.ts:31 | replace-first keeps the string when the pattern is absent, otherwise splices the replacement at the first occurrence |
| Strings.Split | hooks/useTranslation.ts:7 | `key.split('.')`: at least one segment, and no segment contains the separator |
| Strings.IndexOf | hooks/useTranslation.ts:31 | the first occurrence of the pattern, or none exists |
| Strings.IndexOfChar | components/FilterSidebar.tsx:35 | for a one-character pattern the first occurrence is the first position of that character, found exactly when the character occurs |
| Strings.LowerCaseIdempotent | services/geminiService.ts:118 | lower-casing twice is lower-casing once |
| Strings.NatToString | components/CookingMode.tsx:101 | a non-empty decimal numeral without a leading zero |
| Lists.Without | App.tsx:81 | `filter(i => i !== x)`: every occurrence removed, every other element kept with its multiplicity |
| Lists.WithoutAppend | App.tsx:81 | filtering distributes over concatenation, so the kept elements stay in order |
| Lists.WithoutAbsent | App.tsx:81 | filtering out an absent element changes nothing |
| Lists.WithoutNoDuplicates | App.tsx:80-82 | filtering keeps a duplicate-free list duplicate-free |
| Lists.AppendFreshNoDuplicates | App.tsx:74-78 | appending an element not yet listed keeps the list duplicate-free |
| Strings.ParseNatToString | components/CookingMode.tsx:101 | the decimal rendering of a step number reads back as that number |
| LanguageContext.LanguageProvider.constructor | context/LanguageContext.tsx:19-20 | the initial language is English and the translations are the ones given |
| LanguageContext.LanguageProvider.SetLanguage | context/LanguageContext.tsx:20 | sets the language; the translations are a constant field and cannot change |
| LanguageContext.LanguageProvider.Value | context/LanguageContext.tsx:27 | the context value carries the current language and the provider's translations |
| LanguageContext.UseLanguage | context/LanguageContext.tsx:33-38 | fails exactly when there is no provider, with the provider-missing message; otherwise returns the provider's value |
| GeminiService.FilterClauseAppends | services/geminiService.ts:73-77 | with filters, the clause lists them joined by ", " in list order between the language's lead and tail |
| GeminiService.FilterClauseSingle | services/geminiService.ts:73-77 | a single filter is named on its own |
| GeminiService.FilterInstructions | services/geminiService.ts:70-77 | no filters gives the fixed "no restrictions" sentence of the language; otherwise lead, joined filters, tail |
| GeminiService.NormalizeDifficulty | services/geminiService.ts:110-118 | Easy exactly for easy/kolay, Hard exactly for hard/zor, Medium for every other word, all compared in lower case |
| GeminiService.NormalizeIgnoresCase | services/geminiService.ts:118 | normalisation depends only on the lower-cased word |
| GeminiService.NormalizeIdempotent | services/geminiService.ts:110-118 | a normalised difficulty written back as its name normalises to itself |
| GeminiService.NormalizeExamples | services/geminiService.ts:110-118 | "Zor" is Hard, "KOLAY" is Easy, "Orta" and "extreme" are Medium |
| GeminiService.NormalizeRecipe | services/geminiService.ts:116-119 | only the difficulty is replaced; every other field is kept |
| GeminiService.NormalizeRecipes | services/geminiService.ts:116-119 | same count and order, each recipe normalised |
| GeminiService.Generate | services/geminiService.ts:97-125 | fails exactly when the call failed, always with "Failed to get recipes from AI model."; on success passes the ingredients through and normalises the recipes index by index |
| Cooking.SpeechTag | components/CookingMode.tsx:41 | "tr-TR" exactly for Turkish, "en-US" for English |
| Cooking.NextStepIndex | components/CookingMode.tsx:25-27 | moves forward exactly when not at the last step, and never past `max(0, len-1)` |
| Cooking.PrevStepIndex | components/CookingMode.tsx:32-34 | moves back exactly when above the first step, never below 0 |
| Cooking.NextThenPrev | components/CookingMode.tsx:23-35 | back undoes a forward move that was not blocked |
| Cooking.NextTimesClamps | components/CookingMode.tsx:23-28 | n presses of next move min(n, remaining) steps |
| Cooking.PrevTimesClamps | components/CookingMode.tsx:30-35 | n presses of previous move min(n, current) steps back |
| Cooking.CookingMode.constructor | components/CookingMode.tsx:15-16 | the screen opens on step 0, not speaking |
| Cooking.CookingMode.HandleNextStep | components/CookingMode.tsx:23-28 | speech is cancelled even when blocked; the cursor takes `NextStepIndex` and stays in range |
| Cooking.CookingMode.HandlePrevStep | components/CookingMode.tsx:30-35 | speech is cancelled even when blocked; the cursor takes `PrevStepIndex` |
| Cooking.CookingMode.HandleSpeak | components/CookingMode.tsx:37-43 | speaking cancels; otherwise the current step is requested with the language's tag, unless it is the empty string |
| Cooking.CookingMode.Cancel | hooks/useSpeechSynthesis.ts:28-31 | `cancel()`, also run when the cooking screen unmounts (components/CookingMode.tsx:18-21): stops speaking and changes nothing else |
| Cooking.CookingMode.SpeechEnded | hooks/useSpeechSynthesis.ts:16-22 | an utterance that ends or fails clears the speaking flag |
| Cooking.CookingMode.CurrentStepText | components/CookingMode.tsx:109 | the current step's text, absent exactly when the index is past the steps |
| Cooking.CookingMode.StepLabel | components/CookingMode.tsx:101 | the label is `t('cookingMode.step', …)` with the step options; it can only fail with the "replace is not a function" error |
| Cooking.StepLabelSubstitutes | components/CookingMode.tsx:101 | a template found in the active locale gets the step number and step count substituted into it |
| Cooking.CookingMode.StepLabelOptions | components/CookingMode.tsx:101 | the label gets `current = currentStep + 1` and `total = steps.length`, as decimal numerals |
| Cooking.ButtonsDisabledExactlyWhenBlocked | components/CookingMode.tsx:116-123 | with steps, previous is disabled exactly at 0 and next exactly at the last step, i.e. exactly when the move is blocked |
| Cooking.EmptyRecipeSteps | components/CookingMode.tsx:109-123 | with no steps, next stays enabled but never moves and there is no step text |
| FilterSidebar.Toggle | components/FilterSidebar.tsx:15-19 | the option's membership flips, no other membership changes; an absent option is appended at the end |
| FilterSidebar.IsChecked | components/FilterSidebar.tsx:31 | `includes`: checked exactly when some position of the selected list holds the option |
| FilterSidebar.ToggleFlipsOnlyItsBox | components/FilterSidebar.tsx:31 | a click flips its own checkbox's checked state and no other |
| FilterSidebar.ToggleRemovesInPlace | components/FilterSidebar.tsx:17 | removing an option keeps the other filters in their order |
| FilterSidebar.ToggleNoDuplicates | components/FilterSidebar.tsx:16-18 | toggling never introduces a duplicate |
| FilterSidebar.ToggleTwice | components/FilterSidebar.tsx:16-18 | toggling an absent option twice restores the list |
| FilterSidebar.LabelKeyOf | components/FilterSidebar.tsx:35 | the key is "filter.options." plus the lower-cased option without its first hyphen |
| FilterSidebar.LabelKeyNoHyphen | components/FilterSidebar.tsx:35 | without a hyphen the key is "filter.options." plus the lower-cased option |
| FilterSidebar.LabelKey | components/FilterSidebar.tsx:35 | the key starts with "filter.options."; without a hyphen it is that prefix plus the lower-cased option, with one it is one character shorter than prefix plus option |
| FilterSidebar.DietaryLabelKeys | components/FilterSidebar.tsx:5-35 | the five options Vegetarian, Vegan, Gluten-Free, Keto and Dairy-Free, in that order, have the keys vegetarian, vegan, glutenfree, keto and dairyfree under "filter.options." |
| FilterSidebar.GlutenFreeLabelKey | components/FilterSidebar.tsx:35 | "Gluten-Free" gives "filter.options.glutenfree" |
| FilterSidebar.DairyFreeLabelKey | components/FilterSidebar.tsx:35 | "Dairy-Free" gives "filter.options.dairyfree" |
| FilterSidebar.VegetarianLabelKey | components/FilterSidebar.tsx:35 | "Vegetarian" gives "filter.options.vegetarian" |
| FilterSidebar.VeganLabelKey | components/FilterSidebar.tsx:35 | "Vegan" gives "filter.options.vegan" |
| FilterSidebar.KetoLabelKey | components/FilterSidebar.tsx:35 | "Keto" gives "filter.options.keto" |
| Header.IsRecipeFlowView | components/Header.tsx:17 | true for every view except shopping |
| Header.ExactlyOneNavHighlighted | components/Header.tsx:47-61 | on every view exactly one of the two navigation buttons is highlighted |
| Header.ExactlyOneLanguageHighlighted | components/Header.tsx:30-36 | exactly one of EN and TR is highlighted, the one of the active language |
| Header.OnClick | components/Header.tsx:29-59 | EN and TR set the language to en and tr; the recipes button sets the view to `getRecipeViewName()`; the shopping button sets it to shopping |
| AppState.GenerateErrorMessage | App.tsx:40 | the message stored after a failed generation is always truthy, so `renderContent` takes the error branch |
| AppState.App.constructor | App.tsx:18-26 | view upload; image, selection and error absent; ingredients, recipes, shopping list and filters empty; not loading |
| AppState.App.BeginAnalysis | App.tsx:31-33 | the image is kept, loading starts, the error is cleared; nothing else changes |
| AppState.App.CompleteAnalysis | App.tsx:35-43 | success stores exactly the returned ingredients and recipes and shows confirmation; failure stores the message and keeps view, ingredients and recipes; loading ends either way |
| AppState.App.HandleImageAnalysis | App.tsx:30-45 | the whole handler: image stays set, loading false, the request carries the filter clause, success and failure as above, with the translated error on failure, which the error screen then shows |
| AppState.App.HasImage | App.tsx:49 | `if (image)`: an image is held exactly when it is neither null nor the empty string |
| AppState.App.HandleFilterChange | App.tsx:47-52 | always stores the new filters; when an image is held, re-runs generation with a request whose clause is built from the new filters and stores its outcome (the translated error on failure); otherwise sends nothing and changes nothing else |
| AppState.App.HandleSelectRecipe | App.tsx:54-57 | sets the selection and the cooking view |
| AppState.App.HandleExitCookingMode | App.tsx:59-62 | clears the selection and returns to recipes |
| AppState.App.HandleConfirmIngredients | App.tsx:100 | confirming shows the recipes view |
| AppState.App.HandleReset | App.tsx:64-72 | view upload; image, ingredients, recipes, selection, filters and error cleared; shopping list and loading untouched |
| AppState.App.RecipeViewName | App.tsx:114-118 | recipes if there are recipes, else confirmation if there are ingredients, else upload |
| AppState.App.HandleHeaderClick | components/Header.tsx:29-59 | each header button's effect on the session or the language, and nothing else changes |
| AppState.App.AddToShoppingList | App.tsx:74-78 | an item already listed changes nothing; otherwise it is appended; no duplicates ever |
| AppState.App.RemoveFromShoppingList | App.tsx:80-82 | every occurrence is removed and the others keep their order; an absent item changes nothing |
| AppState.App.ShowsError | App.tsx:88 | `if (error)`: the error screen shows exactly when an error is stored and it is not the empty string |
| AppState.App.ShowsFilterSidebar | App.tsx:125 | the sidebar is shown only beside the recipe list or the error screen |
| AppState.App.RenderContent | App.tsx:84-111 | loading wins over an error, an error over the view; cooking without a selection renders nothing |
| AppState.NeverBlank | App.tsx:105-106 | in a valid session the content area is never blank |
| AppState.CookingShowsListedRecipe | App.tsx:105-106 | the cooking screen shows one of the current recipes |
| AppState.HeaderNeverEntersCooking | App.tsx:114-122 | the recipe-flow button never leads to cooking or shopping |

## Left out

- The generative-model call and `JSON.parse` are I/O. Their outcome is the parameter `ModelReply`: a reply that matches the declared response schema (`Parsed`), or a failure that throws inside the call (`CallFailed`).
- The API-key check (services/geminiService.ts:5-8) throws when the module loads, before any call, so without a key the app does not start. It is not modelled.
- A reply that breaks the response schema without throwing is not modelled. For example, a reply without `identifiedIngredients` is passed on as `undefined` (services/geminiService.ts:121).
- The prompt templates are not modelled. Only the dietary clause they embed is.
- `handleImageAnalysis` is asynchronous. Each call is modelled as one atomic step, and overlapping calls and stale responses are not modelled. The intermediate loading state is `BeginAnalysis` followed by `CompleteAnalysis`.
- The browser speech engine is reduced to a speaking flag and the last request. Its own "already speaking" guard is not modelled separately from that flag.
- `document.documentElement.lang` (context/LanguageContext.tsx:22-24) is a DOM side effect and is not modelled.
- index.tsx, which loads the locale files and mounts the app, is not part of this model.
- components/ImageUpload.tsx is not part of this model. An uploaded image is a string parameter of `HandleImageAnalysis`.
- The rendering-only components are not part of this model: RecipeCard, RecipeList, IngredientConfirmation, ShoppingList and Spinner. They are represented by the `Screen` value `RenderContent` returns.
- The unreachable `default:` branch of `renderContent` has no counterpart, because the view type is closed.
- A locale entry for `app.error.generateRecipes` that is an object, not a string, would be stored as the error. React cannot render it at App.tsx:90. The model still yields `ErrorScreen(Subtree(…))`, so rendering failures are not modelled.
- `console.error` logging (App.tsx:41, services/geminiService.ts:123, hooks/useSpeechSynthesis.ts:10 and 20) is output only and is not modelled.
- JavaScript object quirks are not modelled. Locale trees are finite maps of strings to nodes, so the following do not occur:
  - prototype keys such as "constructor" hitting `difficultyMap` or a locale object;
  - indexing into a string leaf (`result?.[k]` on a string) gives absence here;
  - `null` JSON values.
- Translation.Translate: options are an ordered list of pairs. JavaScript's `Object.keys` order, where integer-like keys come first, is taken as already applied.
- Strings.ReplaceFirst: the replacement is inserted literally. `$` patterns in JavaScript's `String.prototype.replace` replacement strings are not interpreted.
- Strings.LowerCase: maps ASCII A–Z and the Kelvin sign (which lowers to "k") only. That covers every word the difficulty table can match. Full Unicode case mapping is left out.
- Strings are sequences of Unicode characters, not UTF-16 code units.
- `calories` (a JavaScript number) is an `int`. Non-integer values are not modelled.
- The `selectedRecipe` can go stale outside the cooking view after a filter change, as the code allows. Only the cooking-view invariant `SelectionFromList` is proved, and it relies on the recipe being chosen from the list shown.
