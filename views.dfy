/**
 * What the controller renders from a meal: a result card and the recipe
 * shown in the detail modal. Markup is not modelled, only which fields
 * are shown.
 */
module Views {
  import opened Wrappers
  import opened JsText
  import opened Api
  import opened MealIngredients

  /**
   * A result card: title, image, and the category and origin badges when
   * they are shown. `mealId` is the identifier a click on the card looks up.
   */
  datatype Card = Card(
    mealId: string,
    title: string,
    image: string,
    category: Option<string>,
    origin: Option<string>)

  /**
   * The card for a meal. The category badge is shown exactly when
   * `strCategory` is present and non-empty, the origin line exactly when
   * `strArea` is, each with that field's text.
   */
  function CreateMealCard(meal: Meal): (card: Card)
    ensures card.mealId == meal.idMeal && card.title == meal.strMeal && card.image == meal.strMealThumb
    ensures card.category.Some? <==> Truthy(meal.strCategory)
    ensures card.category.Some? ==> card.category == meal.strCategory
    ensures card.origin.Some? <==> Truthy(meal.strArea)
    ensures card.origin.Some? ==> card.origin == meal.strArea
  {
    Card(
      meal.idMeal,
      meal.strMeal,
      meal.strMealThumb,
      if Truthy(meal.strCategory) then meal.strCategory else None,
      if Truthy(meal.strArea) then meal.strArea else None)
  }

  /** `cards` holds exactly one card per meal, in the meals' order. */
  predicate CardsFor(cards: seq<Card>, meals: seq<Meal>)
  {
    |cards| == |meals| && forall i :: 0 <= i < |meals| ==> cards[i] == CreateMealCard(meals[i])
  }

  /**
   * The content of the detail modal. The header shows category and area as
   * they are (a missing one renders as the text "null"); the video link is
   * shown only for a truthy `strYoutube`.
   */
  datatype Recipe = Recipe(
    title: string,
    image: string,
    category: Option<string>,
    area: Option<string>,
    ingredients: seq<IngredientLine>,
    instructions: string,
    video: Option<string>)

  /** The recipe shown for a meal that has instructions. */
  function RecipeOf(meal: Meal): (recipe: Recipe)
    requires meal.strInstructions.Some?
    ensures recipe.ingredients == Ingredients(meal)
    ensures recipe.video.Some? <==> Truthy(meal.strYoutube)
  {
    Recipe(
      meal.strMeal,
      meal.strMealThumb,
      meal.strCategory,
      meal.strArea,
      Ingredients(meal),
      meal.strInstructions.value,
      if Truthy(meal.strYoutube) then meal.strYoutube else None)
  }
}
