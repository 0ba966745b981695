/** The header: the two language buttons and the two navigation buttons.
    It has no state of its own; each click becomes an effect on the
    application's view or on the language context. */
module Header {
  import opened Views
  import opened LanguageContext

  /** `['upload', 'recipes', 'cooking', 'confirmIngredients'].includes(currentView)`. */
  predicate IsRecipeFlowView(view: View)
    ensures IsRecipeFlowView(view) <==> view != Shopping
  {
    var flow := [Upload, Recipes, Cooking, ConfirmIngredients];
    assert view != Shopping ==> view == flow[0] || view == flow[1] || view == flow[2] || view == flow[3];
    view in flow
  }

  /** The shopping button is highlighted on the shopping screen. */
  predicate IsShoppingHighlighted(view: View)
  {
    view == Shopping
  }

  /** On every screen exactly one of the two navigation buttons is
      highlighted. */
  lemma ExactlyOneNavHighlighted(view: View)
    ensures IsRecipeFlowView(view) != IsShoppingHighlighted(view)
  {
  }

  /** The EN or TR button is highlighted when its language is the active
      one. */
  predicate IsLanguageHighlighted(active: Language, button: Language)
  {
    active == button
  }

  /** Exactly one of the two language buttons is highlighted. */
  lemma ExactlyOneLanguageHighlighted(active: Language)
    ensures IsLanguageHighlighted(active, En) != IsLanguageHighlighted(active, Tr)
    ensures IsLanguageHighlighted(active, active)
  {
  }

  /** The four buttons. */
  datatype Click = RecipesButton | ShoppingButton | EnButton | TrButton

  /** What a click asks of the application or of the language context. */
  datatype Effect = SetView(view: View) | SetLanguage(language: Language)

  /** The handler of each button; `recipeViewName` is what
      `getRecipeViewName()` returns at the time of the click. */
  function OnClick(click: Click, recipeViewName: View): (e: Effect)
    ensures e.SetLanguage? <==> click == EnButton || click == TrButton
    ensures click == RecipesButton ==> e == SetView(recipeViewName)
    ensures click == ShoppingButton ==> e == SetView(Shopping)
    ensures click == EnButton ==> e == SetLanguage(En)
    ensures click == TrButton ==> e == SetLanguage(Tr)
  {
    match click
    case RecipesButton => SetView(recipeViewName)
    case ShoppingButton => SetView(Shopping)
    case EnButton => SetLanguage(En)
    case TrButton => SetLanguage(Tr)
  }
}
