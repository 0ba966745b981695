/** The application shell: the session fields, the handlers that change
    them, the derived "back to the recipe flow" view, and which screen the
    content area shows. */
module AppState {
  import opened Wrappers
  import opened Lists
  import opened Types
  import opened Views
  import opened LanguageContext
  import opened Translation
  import opened GeminiService
  import Header

  /** The translation key of the message shown when generation failed. */
  const GenerateErrorKey: string := "app.error.generateRecipes"

  /** JavaScript truthiness of what `t` returned. */
  predicate Truthy(text: Text)
  {
    match text
    case Str(s) => s != ""
    case Subtree(_) => true
  }

  /** The message stored on failure is always truthy, whatever the locale
      files hold: a missing or empty translation gives the (non-empty) key. */
  lemma GenerateErrorTruthy(language: Language, translations: Translations)
    ensures Translated(language, translations, GenerateErrorKey, None).Success?
    ensures Truthy(Translated(language, translations, GenerateErrorKey, None).value)
  {
  }

  /** `t('app.error.generateRecipes')` in the given language. */
  function GenerateErrorMessage(language: Language, translations: Translations): (message: Text)
    ensures Truthy(message)
  {
    GenerateErrorTruthy(language, translations);
    Translated(language, translations, GenerateErrorKey, None).value
  }

  /** What the content area shows. */
  datatype Screen =
    | Spinner
    | ErrorScreen(message: Text)
    | UploadScreen
    | ConfirmScreen(ingredients: seq<string>)
    | RecipeListScreen(recipes: seq<Recipe>)
    | CookingScreen(recipe: Recipe)
    | Blank
    | ShoppingScreen(items: seq<string>)

  class App {
    var view: View
    var image: Option<string>
    var identifiedIngredients: seq<string>
    var recipes: seq<Recipe>
    var selectedRecipe: Option<Recipe>
    var shoppingList: seq<string>
    var filters: seq<string>
    var isLoading: bool
    var error: Option<Text>
    const languageProvider: LanguageProvider

    /** The session invariant: the shopping list has no duplicates, and the
        cooking view is only entered with a recipe selected. */
    predicate Valid()
      reads this
    {
      && NoDuplicates(shoppingList)
      && (view == Cooking ==> selectedRecipe.Some?)
    }

    /** The cooking view shows one of the current recipes. The UI only
        selects recipes from the list it shows; `HandleSelectRecipe` then
        establishes this and every other handler keeps it. */
    predicate SelectionFromList()
      reads this
    {
      view == Cooking ==> selectedRecipe.Some? && selectedRecipe.value in recipes
    }

    /** The initial session. */
    constructor (languageProvider: LanguageProvider)
      ensures Valid() && SelectionFromList()
      ensures this.languageProvider == languageProvider
      ensures view == Upload && image == None
      ensures identifiedIngredients == [] && recipes == [] && shoppingList == [] && filters == []
      ensures selectedRecipe == None && !isLoading && error == None
    {
      view := Upload;
      image := None;
      identifiedIngredients := [];
      recipes := [];
      selectedRecipe := None;
      shoppingList := [];
      filters := [];
      isLoading := false;
      error := None;
      this.languageProvider := languageProvider;
    }

    // ------------------------------------------------------------ generation

    /** The part of `handleImageAnalysis` before the call: the image is
        kept, loading starts, the previous error is cleared. */
    method BeginAnalysis(imageData: string)
      requires Valid()
      modifies this
      ensures Valid()
      ensures old(SelectionFromList()) ==> SelectionFromList()
      ensures image == Some(imageData) && isLoading && error == None
      ensures view == old(view) && identifiedIngredients == old(identifiedIngredients)
      ensures recipes == old(recipes) && selectedRecipe == old(selectedRecipe)
      ensures shoppingList == old(shoppingList) && filters == old(filters)
    {
      image := Some(imageData);
      isLoading := true;
      error := None;
    }

    /** The part of `handleImageAnalysis` after the call, given its outcome
        and the message `t` gives for a failed call. Success stores exactly
        what came back and moves to ingredient confirmation; failure stores
        the message and keeps the view; loading ends either way. */
    method CompleteAnalysis(outcome: Result<Generated, string>, failureMessage: Text)
      requires Valid()
      modifies this
      ensures Valid()
      ensures old(SelectionFromList()) ==> SelectionFromList()
      ensures !isLoading
      ensures outcome.Success? ==>
        && identifiedIngredients == outcome.value.identifiedIngredients
        && recipes == outcome.value.recipes
        && view == ConfirmIngredients
        && error == old(error)
      ensures outcome.Failure? ==>
        && identifiedIngredients == old(identifiedIngredients)
        && recipes == old(recipes)
        && view == old(view)
        && error == Some(failureMessage)
      ensures image == old(image) && selectedRecipe == old(selectedRecipe)
      ensures shoppingList == old(shoppingList) && filters == old(filters)
    {
      if outcome.Success? {
        identifiedIngredients := outcome.value.identifiedIngredients;
        recipes := outcome.value.recipes;
        view := ConfirmIngredients;
      } else {
        error := Some(failureMessage);
      }
      isLoading := false;
    }

    /** `handleImageAnalysis(imageData, currentFilters)` as one step; returns
        the dietary clause the request carried. */
    method HandleImageAnalysis(imageData: string, currentFilters: seq<string>, reply: ModelReply)
      returns (clause: string)
      requires Valid()
      modifies this
      ensures Valid()
      ensures old(SelectionFromList()) ==> SelectionFromList()
      ensures clause == FilterInstructions(languageProvider.language, currentFilters)
      ensures image == Some(imageData) && !isLoading
      ensures Generate(reply).Success? ==>
        && identifiedIngredients == Generate(reply).value.identifiedIngredients
        && recipes == Generate(reply).value.recipes
        && view == ConfirmIngredients
        && error == None
      ensures Generate(reply).Failure? ==>
        && identifiedIngredients == old(identifiedIngredients)
        && recipes == old(recipes)
        && view == old(view)
        && error == Some(GenerateErrorMessage(languageProvider.language, languageProvider.translations))
      ensures Generate(reply).Failure? ==> ShowsError()
      ensures selectedRecipe == old(selectedRecipe)
      ensures shoppingList == old(shoppingList) && filters == old(filters)
    {
      var language := languageProvider.language;
      BeginAnalysis(imageData);
      clause := FilterInstructions(language, currentFilters);
      var message := Translate(language, languageProvider.translations, GenerateErrorKey, None);
      assert message.Success? && message.value == GenerateErrorMessage(language, languageProvider.translations) by {
        NoOptionsNeverFails(language, languageProvider.translations, GenerateErrorKey);
      }
      CompleteAnalysis(Generate(reply), message.value);
    }

    /** `if (image)`: an image is held and is not the empty string. */
    predicate HasImage()
      reads this
      ensures HasImage() <==> image != None && image != Some("")
    {
      image.Some? && image.value != ""
    }

    /** Stores the new filters; re-runs generation with them only when an
        image is held. Returns the dietary clause of the re-run request, or
        `None` when nothing was sent. */
    method HandleFilterChange(newFilters: seq<string>, reply: ModelReply)
      returns (clause: Option<string>)
      requires Valid()
      modifies this
      ensures Valid()
      ensures old(SelectionFromList()) ==> SelectionFromList()
      ensures filters == newFilters
      ensures shoppingList == old(shoppingList) && selectedRecipe == old(selectedRecipe)
      ensures image == old(image)
      ensures !old(HasImage()) ==> clause == None
      ensures old(HasImage()) ==>
        clause == Some(FilterInstructions(languageProvider.language, newFilters))
      ensures !old(HasImage()) ==>
        && view == old(view) && identifiedIngredients == old(identifiedIngredients)
        && recipes == old(recipes) && isLoading == old(isLoading) && error == old(error)
      ensures old(HasImage()) && Generate(reply).Success? ==>
        && view == ConfirmIngredients && !isLoading && error == None
        && identifiedIngredients == Generate(reply).value.identifiedIngredients
        && recipes == Generate(reply).value.recipes
      ensures old(HasImage()) && Generate(reply).Failure? ==>
        && view == old(view) && !isLoading
        && error == Some(GenerateErrorMessage(languageProvider.language, languageProvider.translations))
        && identifiedIngredients == old(identifiedIngredients) && recipes == old(recipes)
    {
      filters := newFilters;
      if HasImage() {
        var sent := HandleImageAnalysis(image.value, newFilters, reply);
        clause := Some(sent);
      } else {
        clause := None;
      }
    }

    // ------------------------------------------------------------ navigation

    /** Selecting a recipe opens it in cooking mode. */
    method HandleSelectRecipe(recipe: Recipe)
      requires Valid()
      modifies this
      ensures Valid()
      ensures recipe in old(recipes) ==> SelectionFromList()
      ensures selectedRecipe == Some(recipe) && view == Cooking
      ensures image == old(image) && identifiedIngredients == old(identifiedIngredients)
      ensures recipes == old(recipes) && shoppingList == old(shoppingList)
      ensures filters == old(filters) && isLoading == old(isLoading) && error == old(error)
    {
      selectedRecipe := Some(recipe);
      view := Cooking;
    }

    /** Leaving cooking mode clears the selection and returns to the recipes. */
    method HandleExitCookingMode()
      requires Valid()
      modifies this
      ensures Valid()
      ensures old(SelectionFromList()) ==> SelectionFromList()
      ensures selectedRecipe == None && view == Recipes
      ensures image == old(image) && identifiedIngredients == old(identifiedIngredients)
      ensures recipes == old(recipes) && shoppingList == old(shoppingList)
      ensures filters == old(filters) && isLoading == old(isLoading) && error == old(error)
    {
      selectedRecipe := None;
      view := Recipes;
    }

    /** Confirming the identified ingredients shows the recipes. */
    method HandleConfirmIngredients()
      requires Valid()
      modifies this
      ensures Valid()
      ensures old(SelectionFromList()) ==> SelectionFromList()
      ensures view == Recipes
      ensures image == old(image) && identifiedIngredients == old(identifiedIngredients)
      ensures recipes == old(recipes) && selectedRecipe == old(selectedRecipe)
      ensures shoppingList == old(shoppingList) && filters == old(filters)
      ensures isLoading == old(isLoading) && error == old(error)
    {
      view := Recipes;
    }

    /** Starting over clears the session except the shopping list (and the
        loading flag, which reset does not touch). */
    method HandleReset()
      requires Valid()
      modifies this
      ensures Valid()
      ensures old(SelectionFromList()) ==> SelectionFromList()
      ensures view == Upload && image == None
      ensures identifiedIngredients == [] && recipes == [] && selectedRecipe == None
      ensures filters == [] && error == None
      ensures shoppingList == old(shoppingList) && isLoading == old(isLoading)
    {
      view := Upload;
      image := None;
      identifiedIngredients := [];
      recipes := [];
      selectedRecipe := None;
      filters := [];
      error := None;
    }

    /** `getRecipeViewName`: where the recipe-flow button leads. */
    function RecipeViewName(): (v: View)
      reads this
      ensures v == Recipes <==> |recipes| > 0
      ensures v == ConfirmIngredients <==> |recipes| == 0 && |identifiedIngredients| > 0
      ensures v == Upload <==> |recipes| == 0 && |identifiedIngredients| == 0
    {
      if |recipes| > 0 then Recipes
      else if |identifiedIngredients| > 0 then ConfirmIngredients
      else Upload
    }

    /** A click in the header: views go to `setView`, languages to the
        language context. */
    method HandleHeaderClick(click: Header.Click)
      requires Valid()
      modifies this, languageProvider
      ensures Valid()
      ensures old(SelectionFromList()) ==> SelectionFromList()
      ensures click == Header.RecipesButton ==> view == old(RecipeViewName())
      ensures click == Header.ShoppingButton ==> view == Shopping
      ensures click == Header.EnButton ==> languageProvider.language == En && view == old(view)
      ensures click == Header.TrButton ==> languageProvider.language == Tr && view == old(view)
      ensures (click == Header.RecipesButton || click == Header.ShoppingButton) ==>
        languageProvider.language == old(languageProvider.language)
      ensures image == old(image) && identifiedIngredients == old(identifiedIngredients)
      ensures recipes == old(recipes) && selectedRecipe == old(selectedRecipe)
      ensures shoppingList == old(shoppingList) && filters == old(filters)
      ensures isLoading == old(isLoading) && error == old(error)
    {
      match Header.OnClick(click, RecipeViewName())
      case SetView(v) =>
        view := v;
      case SetLanguage(l) =>
        languageProvider.SetLanguage(l);
    }

    // ------------------------------------------------------------ shopping list

    /** Appends an item that is not yet on the list; otherwise does nothing. */
    method AddToShoppingList(item: string)
      requires Valid()
      modifies this
      ensures Valid()
      ensures old(SelectionFromList()) ==> SelectionFromList()
      ensures item in old(shoppingList) ==> shoppingList == old(shoppingList)
      ensures item !in old(shoppingList) ==> shoppingList == old(shoppingList) + [item]
      ensures view == old(view) && image == old(image)
      ensures identifiedIngredients == old(identifiedIngredients) && recipes == old(recipes)
      ensures selectedRecipe == old(selectedRecipe) && filters == old(filters)
      ensures isLoading == old(isLoading) && error == old(error)
    {
      if item !in shoppingList {
        AppendFreshNoDuplicates(shoppingList, item);
        shoppingList := shoppingList + [item];
      }
    }

    /** Removes every occurrence of the item, keeping the others in order. */
    method RemoveFromShoppingList(item: string)
      requires Valid()
      modifies this
      ensures Valid()
      ensures old(SelectionFromList()) ==> SelectionFromList()
      ensures shoppingList == Without(old(shoppingList), item)
      ensures item !in old(shoppingList) ==> shoppingList == old(shoppingList)
      ensures view == old(view) && image == old(image)
      ensures identifiedIngredients == old(identifiedIngredients) && recipes == old(recipes)
      ensures selectedRecipe == old(selectedRecipe) && filters == old(filters)
      ensures isLoading == old(isLoading) && error == old(error)
    {
      WithoutNoDuplicates(shoppingList, item);
      if item !in shoppingList {
        WithoutAbsent(shoppingList, item);
      }
      shoppingList := Without(shoppingList, item);
    }

    // ------------------------------------------------------------ rendering

    /** Whether the error screen is shown: `if (error)`. */
    predicate ShowsError()
      reads this
      ensures ShowsError() <==> error != None && error != Some(Str(""))
    {
      error.Some? && Truthy(error.value)
    }

    /** `renderContent()`: loading wins over an error, an error over the
        view; cooking without a selection shows nothing. */
    function RenderContent(): (screen: Screen)
      reads this
      ensures isLoading ==> screen == Spinner
      ensures !isLoading && ShowsError() ==> screen == ErrorScreen(error.value)
      ensures screen == Blank <==> !isLoading && !ShowsError() && view == Cooking && selectedRecipe.None?
      ensures screen.CookingScreen? ==> selectedRecipe == Some(screen.recipe) && view == Cooking
    {
      if isLoading then Spinner
      else if ShowsError() then ErrorScreen(error.value)
      else
        match view
        case Upload => UploadScreen
        case ConfirmIngredients => ConfirmScreen(identifiedIngredients)
        case Recipes => RecipeListScreen(recipes)
        case Cooking => if selectedRecipe.Some? then CookingScreen(selectedRecipe.value) else Blank
        case Shopping => ShoppingScreen(shoppingList)
    }

    /** The filter sidebar is shown on the recipes view when not loading. */
    predicate ShowsFilterSidebar()
      reads this
      ensures ShowsFilterSidebar() ==> RenderContent() == RecipeListScreen(recipes) || ShowsError()
    {
      view == Recipes && !isLoading
    }
  }

  /** In a valid session the content area is never blank. */
  lemma NeverBlank(app: App)
    requires app.Valid()
    ensures app.RenderContent() != Blank
  {
  }

  /** The cooking screen shows a recipe of the current list. */
  lemma CookingShowsListedRecipe(app: App)
    requires app.SelectionFromList()
    ensures app.RenderContent().CookingScreen? ==> app.RenderContent().recipe in app.recipes
  {
  }

  /** The recipe-flow button never leads into cooking or to the shopping
      list, whatever the session holds. */
  lemma HeaderNeverEntersCooking(app: App, click: Header.Click)
    ensures Header.OnClick(click, app.RecipeViewName()) != Header.SetView(Cooking)
    ensures click == Header.RecipesButton ==>
      Header.IsRecipeFlowView(Header.OnClick(click, app.RecipeViewName()).view)
  {
  }
}
