/**
 * The recipe browser controller. Its state is what it shows: the
 * visibility of the loading indicator, the results grid and the
 * empty-state view, the cards in the grid, the category options, and the
 * detail modal. Every request flow takes the answers to its requests as
 * parameters and returns the requests it issued.
 */
module Explorer {
  import opened Wrappers
  import opened JsText
  import opened Api
  import opened MealIngredients
  import opened Views
  import opened RandomMeals

  /** A lookup answer that opens the modal: a non-empty list whose first meal has instructions. */
  predicate OpensModal(response: MealsResponse)
  {
    response.Ok? && response.body.Some? && |response.body.value| > 0 &&
    response.body.value[0].strInstructions.Some?
  }

  class MealExplorer {
    var loadingVisible: bool
    var gridVisible: bool
    var noResultsVisible: bool
    var cards: seq<Card>
    var categoryOptions: seq<string>
    var modalOpen: bool
    var recipe: Option<Recipe>

    /** Exactly one of loading indicator, grid and empty-state view is visible. */
    predicate OneViewVisible()
      reads this
    {
      || (loadingVisible && !gridVisible && !noResultsVisible)
      || (!loadingVisible && gridVisible && !noResultsVisible)
      || (!loadingVisible && !gridVisible && noResultsVisible)
    }

    /**
     * How a search or category filter ends: a non-null list is shown as the
     * grid with one card per meal; a null list or a failure shows the
     * empty-state view and leaves the (hidden) cards as they were.
     */
    predicate ShowsResponse(response: MealsResponse, before: seq<Card>)
      reads this
    {
      if response.Ok? && response.body.Some? then
        !loadingVisible && gridVisible && !noResultsVisible && CardsFor(cards, response.body.value)
      else
        !loadingVisible && !gridVisible && noResultsVisible && cards == before
    }

    /**
     * How the random listing ends: a failed draw shows the empty-state view;
     * otherwise the cards of the collected meals are appended until the
     * first `undefined` item, whose rendering throws and ends in the
     * empty-state view.
     */
    predicate ShowsDraws(draws: seq<MealsResponse>, before: seq<Card>)
      requires |draws| == RandomDraws
      reads this
    {
      match CollectedUpTo(draws, RandomDraws)
      case Failure =>
        !loadingVisible && !gridVisible && noResultsVisible && cards == before
      case Ok(items) =>
        var shown := DefinedPrefix(items);
        CardsFor(cards, shown) && !loadingVisible &&
        if |shown| == |items| then gridVisible && !noResultsVisible else !gridVisible && noResultsVisible
    }

    /** The requests of the random listing: one per draw up to and including the first failure. */
    static function RandomRequests(draws: seq<MealsResponse>): (requests: seq<Request>)
      requires |draws| == RandomDraws
    {
      var count := if FirstFailure(draws) < RandomDraws then FirstFailure(draws) + 1 else RandomDraws;
      seq(count, _ => Random)
    }

    /**
     * Page start-up: load the categories, then the random listing. The
     * page's initial markup is not part of this model; it starts with every
     * region hidden and the modal closed.
     */
    constructor (categories: CategoriesResponse, draws: seq<MealsResponse>)
      requires |draws| == RandomDraws
      ensures categoryOptions == if categories.Ok? && categories.body.Some? then categories.body.value else []
      ensures OneViewVisible() && ShowsDraws(draws, [])
      ensures !modalOpen && recipe == None
    {
      loadingVisible, gridVisible, noResultsVisible := false, false, false;
      cards, categoryOptions := [], [];
      modalOpen, recipe := false, None;
      new;
      var _ := LoadCategories(categories);
      var _ := LoadRandomMeals(draws);
    }

    method ShowLoading()
      modifies this`loadingVisible, this`gridVisible, this`noResultsVisible
      ensures loadingVisible && !gridVisible && !noResultsVisible
    {
      loadingVisible := true;
      gridVisible := false;
      noResultsVisible := false;
    }

    method HideLoading()
      modifies this`loadingVisible
      ensures !loadingVisible
    {
      loadingVisible := false;
    }

    method ShowNoResults()
      modifies this`loadingVisible, this`gridVisible, this`noResultsVisible
      ensures !loadingVisible && !gridVisible && noResultsVisible
    {
      HideLoading();
      gridVisible := false;
      noResultsVisible := true;
    }

    /**
     * Replace the cards by one card per meal and show the grid. The
     * empty-state view is not touched: only a preceding `ShowLoading` keeps
     * exactly one view visible.
     */
    method DisplayMeals(meals: seq<Meal>)
      modifies this`loadingVisible, this`gridVisible, this`cards
      ensures !loadingVisible && gridVisible
      ensures CardsFor(cards, meals)
      ensures OneViewVisible() <==> !noResultsVisible
    {
      HideLoading();
      gridVisible := true;
      cards := [];
      for i := 0 to |meals|
        invariant CardsFor(cards, meals[..i])
        modifies this`cards
      {
        cards := cards + [CreateMealCard(meals[i])];
      }
      assert meals[..|meals|] == meals;
    }

    /**
     * Request the category list and append one option per category name, in
     * order; a failure or a null list changes nothing.
     */
    method LoadCategories(response: CategoriesResponse) returns (requests: seq<Request>)
      modifies this`categoryOptions
      ensures requests == [Categories]
      ensures response.Ok? && response.body.Some? ==> categoryOptions == old(categoryOptions) + response.body.value
      ensures !(response.Ok? && response.body.Some?) ==> categoryOptions == old(categoryOptions)
    {
      requests := [Categories];
      if response.Ok? && response.body.Some? {
        var names := response.body.value;
        for i := 0 to |names|
          invariant categoryOptions == old(categoryOptions) + names[..i]
        {
          categoryOptions := categoryOptions + [names[i]];
        }
        assert names[..|names|] == names;
      }
    }

    /** The random listing: twelve sequential draws, then the grid or the empty-state view. */
    method LoadRandomMeals(draws: seq<MealsResponse>) returns (requests: seq<Request>)
      requires |draws| == RandomDraws
      modifies this`loadingVisible, this`gridVisible, this`noResultsVisible, this`cards
      ensures requests == RandomRequests(draws)
      ensures ShowsDraws(draws, old(cards)) && OneViewVisible()
    {
      ShowLoading();
      var outcome, requested := CollectRandomDraws(draws);
      requests := seq(requested, _ => Random);
      match outcome
      case Failure =>
        ShowNoResults();
      case Ok(items) =>
        var shown := DefinedPrefix(items);
        DisplayMeals(shown);
        if |shown| < |items| {
          ShowNoResults();
        }
    }

    /**
     * Search by the trimmed text of the search box: a blank query issues no
     * request and changes nothing.
     */
    method SearchMeals(input: string, response: MealsResponse) returns (requests: seq<Request>)
      modifies this`loadingVisible, this`gridVisible, this`noResultsVisible, this`cards
      ensures Trim(input) == "" ==> requests == [] && unchanged(this)
      ensures Trim(input) != "" ==> requests == [Search(Trim(input))] && ShowsResponse(response, old(cards))
      ensures Trim(input) != "" ==> OneViewVisible()
    {
      var query := Trim(input);
      if query == "" {
        return [];
      }
      ShowLoading();
      requests := [Search(query)];
      if response.Ok? && response.body.Some? {
        DisplayMeals(response.body.value);
      } else {
        ShowNoResults();
      }
    }

    /** Filter by the exact category name; the answer is handled as a search answer is. */
    method SearchByCategory(category: string, response: MealsResponse) returns (requests: seq<Request>)
      modifies this`loadingVisible, this`gridVisible, this`noResultsVisible, this`cards
      ensures requests == [Filter(category)]
      ensures ShowsResponse(response, old(cards)) && OneViewVisible()
    {
      ShowLoading();
      requests := [Filter(category)];
      if response.Ok? && response.body.Some? {
        DisplayMeals(response.body.value);
      } else {
        ShowNoResults();
      }
    }

    /** A key pressed in the search box: only Enter starts a search. */
    method OnSearchKeypress(key: string, input: string, response: MealsResponse) returns (requests: seq<Request>)
      modifies this`loadingVisible, this`gridVisible, this`noResultsVisible, this`cards
      ensures key != "Enter" ==> requests == [] && unchanged(this)
      ensures key == "Enter" && Trim(input) == "" ==> requests == [] && unchanged(this)
      ensures key == "Enter" && Trim(input) != "" ==> requests == [Search(Trim(input))] && ShowsResponse(response, old(cards))
    {
      requests := [];
      if key == "Enter" {
        requests := SearchMeals(input, response);
      }
    }

    /** A change of the category selector: a category filters, the empty choice reloads random meals. */
    method OnCategoryChange(value: string, filterResponse: MealsResponse, draws: seq<MealsResponse>) returns (requests: seq<Request>)
      requires |draws| == RandomDraws
      modifies this`loadingVisible, this`gridVisible, this`noResultsVisible, this`cards
      ensures value != "" ==> requests == [Filter(value)] && ShowsResponse(filterResponse, old(cards))
      ensures value == "" ==> requests == RandomRequests(draws) && ShowsDraws(draws, old(cards))
      ensures OneViewVisible()
    {
      if value != "" {
        requests := SearchByCategory(value, filterResponse);
      } else {
        requests := LoadRandomMeals(draws);
      }
    }

    /**
     * Render a meal's recipe and open the modal. A meal without instructions
     * makes the rendering throw before anything changes.
     */
    method DisplayRecipeModal(meal: Meal) returns (rendered: bool)
      modifies this`modalOpen, this`recipe
      ensures rendered <==> meal.strInstructions.Some?
      ensures rendered ==> modalOpen && recipe == Some(RecipeOf(meal))
      ensures !rendered ==> modalOpen == old(modalOpen) && recipe == old(recipe)
    {
      var ingredients := GetIngredients(meal);
      if meal.strInstructions.None? {
        return false;
      }
      recipe := Some(Recipe(
        meal.strMeal,
        meal.strMealThumb,
        meal.strCategory,
        meal.strArea,
        ingredients,
        meal.strInstructions.value,
        if Truthy(meal.strYoutube) then meal.strYoutube else None));
      modalOpen := true;
      rendered := true;
    }

    /**
     * Look up a meal's detail and show it. A failure, a null list or an
     * empty one (whose `undefined` first item throws) leaves everything as it was.
     */
    method ShowRecipeDetails(mealId: string, response: MealsResponse) returns (requests: seq<Request>)
      modifies this`modalOpen, this`recipe
      ensures requests == [Lookup(mealId)]
      ensures OpensModal(response) ==> modalOpen && recipe == Some(RecipeOf(response.body.value[0]))
      ensures !OpensModal(response) ==> modalOpen == old(modalOpen) && recipe == old(recipe)
    {
      requests := [Lookup(mealId)];
      if response.Ok? && response.body.Some? && |response.body.value| > 0 {
        var _ := DisplayRecipeModal(response.body.value[0]);
      }
    }

    /** The modal's close control. */
    method CloseModal()
      modifies this`modalOpen
      ensures !modalOpen
    {
      modalOpen := false;
    }

    /** A click anywhere in the window: only a click on the modal's backdrop closes it. */
    method OnWindowClick(targetIsModal: bool)
      modifies this`modalOpen
      ensures modalOpen == (old(modalOpen) && !targetIsModal)
    {
      if targetIsModal {
        modalOpen := false;
      }
    }
  }

  /**
   * Opening a card's recipe and then clicking the backdrop ends with the
   * modal closed and the grid, its cards and the view flags as they were.
   */
  method OpenThenDismiss(explorer: MealExplorer, card: Card, response: MealsResponse)
    modifies explorer
    ensures !explorer.modalOpen
    ensures explorer.cards == old(explorer.cards)
    ensures explorer.loadingVisible == old(explorer.loadingVisible)
    ensures explorer.gridVisible == old(explorer.gridVisible)
    ensures explorer.noResultsVisible == old(explorer.noResultsVisible)
  {
    var _ := explorer.ShowRecipeDetails(card.mealId, response);
    explorer.OnWindowClick(true);
  }
}
