/** The five screens of the application (the `View` union declared by both
    the application shell and the header). */
module Views {
  datatype View = Upload | ConfirmIngredients | Recipes | Cooking | Shopping
}
