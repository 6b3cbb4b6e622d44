/**
 * The shapes the controller consumes from the remote meal-data service.
 * Fetching and JSON parsing are not modelled: every request is answered
 * by a `Response` value supplied as a parameter.
 */
module Api {
  import opened Wrappers

  /**
   * A meal record as the service returns it. `null` and missing fields are
   * `None`. `strIngredient[k]` and `strMeasure[k]` hold the fields
   * `strIngredient{k+1}` and `strMeasure{k+1}`; the sequences may have any
   * length, and a numbered field past their end reads as `undefined`.
   */
  datatype Meal = Meal(
    idMeal: string,
    strMeal: string,
    strMealThumb: string,
    strCategory: Option<string>,
    strArea: Option<string>,
    strInstructions: Option<string>,
    strYoutube: Option<string>,
    strIngredient: seq<Option<string>>,
    strMeasure: seq<Option<string>>)

  /** The value of numbered field `i` (1-based) of a meal, `None` when absent. */
  function NumberedField(fields: seq<Option<string>>, i: nat): Option<string>
  {
    if 1 <= i <= |fields| then fields[i - 1] else None
  }

  /** The outcome of one request: a transport or parse failure, or a parsed body. */
  datatype Response<T> = Failure | Ok(body: T)

  /** A response whose body carries the `meals` list, which may be null. */
  type MealsResponse = Response<Option<seq<Meal>>>

  /** A response whose body carries the `categories` list (category names), which may be null. */
  type CategoriesResponse = Response<Option<seq<string>>>

  /** The requests the controller issues, one constructor per endpoint. */
  datatype Request =
    | Categories
    | Random
    | Search(query: string)
    | Filter(category: string)
    | Lookup(mealId: string)
}
