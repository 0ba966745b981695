/** The records the generation service returns and the screens display. */
module Types {
  import opened Wrappers

  /** The three difficulty levels a recipe may have. */
  datatype Difficulty = Easy | Medium | Hard

  /** One line of a recipe's ingredient list. */
  datatype Ingredient = Ingredient(name: string, quantity: string)

  /** A recipe. `imageUrl` is the only optional field; `calories` is the
      integer the response schema asks for. */
  datatype Recipe = Recipe(
    name: string,
    description: string,
    difficulty: Difficulty,
    prepTime: string,
    calories: int,
    ingredients: seq<Ingredient>,
    missingIngredients: seq<string>,
    steps: seq<string>,
    imageUrl: Option<string>)

  /** The string literal a difficulty stands for. */
  function DifficultyName(d: Difficulty): string
  {
    match d
    case Easy => "Easy"
    case Medium => "Medium"
    case Hard => "Hard"
  }
}
