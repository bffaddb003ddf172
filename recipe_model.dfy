/**
 * The records the app passes around: a recipe object as parsed from the language
 * model's JSON reply, a saved recipe, and a shopping-cart line.
 */
module RecipeModel {
  import opened Wrappers

  /** KBJU: calories, proteins, fats and carbohydrates (grams). */
  datatype Nutrition = Nutrition(calories: real, proteins: real, fats: real, carbs: real)

  /** One instruction step. */
  datatype Step = Step(step: int, title: string, description: string)

  /**
   * A recipe object as JSON.parse returns it: every property may be missing.
   * `tags` is `None` when the property is missing or is not an array.
   */
  datatype Recipe = Recipe(
    dishName: Option<string>,
    servings: Option<real>,
    totalWeight: Option<real>,
    difficulty: Option<string>,
    cookingTime: Option<string>,
    ingredients: Option<seq<string>>,
    nutritionPer100g: Option<Nutrition>,
    nutritionPerServing: Option<Nutrition>,
    nutrition: Option<Nutrition>,
    instructions: Option<seq<Step>>,
    tags: Option<seq<string>>)

  /** JavaScript truthiness of a string property: present and not "". */
  predicate TruthyText(v: Option<string>) {
    v.Some? && v.value != ""
  }

  /** JavaScript truthiness of a number property: present and not 0. */
  predicate TruthyNumber(v: Option<real>) {
    v.Some? && v.value != 0.0
  }

  /** `{...recipe, savedAt, id}`: a recipe promoted into the local store. */
  datatype SavedRecipe = SavedRecipe(recipe: Recipe, savedAt: string, id: string)

  /** One shopping-cart line. */
  datatype CartItem = CartItem(id: string, name: string, purchased: bool, addedAt: string)
}
