/**
 * The initial listing: twelve sequential random-meal requests whose first
 * meals are collected, in draw order and without deduplication.
 */
module RandomMeals {
  import opened Wrappers
  import opened Api

  /** The number of random-meal requests one listing issues. */
  const RandomDraws: nat := 12

  /**
   * What one successful draw adds to the list: nothing for a null meal
   * list, otherwise its first element, where `None` is the `undefined` an
   * empty list yields.
   */
  function DrawnItems(meals: Option<seq<Meal>>): (items: seq<Option<Meal>>)
    ensures |items| == if meals.Some? then 1 else 0
    ensures meals.Some? && meals.value != [] ==> items == [Some(meals.value[0])]
    ensures meals == Some([]) ==> items == [None]
  {
    match meals
    case None => []
    case Some(list) => [if |list| > 0 then Some(list[0]) else None]
  }

  /**
   * The outcome of the first n draws: `Failure` as soon as one of them
   * fails, otherwise the collected items.
   */
  function CollectedUpTo(draws: seq<MealsResponse>, n: nat): (outcome: Response<seq<Option<Meal>>>)
    requires n <= |draws|
    ensures outcome.Ok? ==> |outcome.body| <= n
  {
    if n == 0 then Ok([])
    else
      match CollectedUpTo(draws, n - 1)
      case Failure => Failure
      case Ok(items) =>
        match draws[n - 1]
        case Failure => Failure
        case Ok(meals) => Ok(items + DrawnItems(meals))
  }

  /** The index of the first failing draw, or |draws| when none fails. */
  function FirstFailure(draws: seq<MealsResponse>): (k: nat)
    ensures k <= |draws|
    ensures forall j :: 0 <= j < k ==> draws[j].Ok?
    ensures k < |draws| ==> draws[k].Failure?
  {
    if draws == [] || draws[0].Failure? then 0 else 1 + FirstFailure(draws[1..])
  }

  /** The indices among the first n draws whose meal list is not null, ascending. */
  function NonNullDraws(draws: seq<MealsResponse>, n: nat): (indices: seq<nat>)
    requires n <= |draws|
    ensures forall j, k :: 0 <= j < k < |indices| ==> indices[j] < indices[k]
    ensures forall k :: 0 <= k < |indices| ==> indices[k] < n
    ensures forall k :: k in indices <==> 0 <= k < n && draws[k].Ok? && draws[k].body.Some?
  {
    if n == 0 then []
    else
      NonNullDraws(draws, n - 1) +
      if draws[n - 1].Ok? && draws[n - 1].body.Some? then [n - 1] else []
  }

  /** The collection fails exactly when one of the draws fails. */
  lemma {:induction false} CollectedFailsIffADrawFails(draws: seq<MealsResponse>, n: nat)
    requires n <= |draws|
    ensures CollectedUpTo(draws, n).Failure? <==> exists k :: 0 <= k < n && draws[k].Failure?
  {
    if n > 0 {
      CollectedFailsIffADrawFails(draws, n - 1);
    }
  }

  /**
   * When no draw fails, item j is the first element of the j-th draw with a
   * non-null list: one item per such draw, in draw order.
   */
  lemma {:induction false} CollectedInDrawOrder(draws: seq<MealsResponse>, n: nat)
    requires n <= |draws|
    requires CollectedUpTo(draws, n).Ok?
    ensures |CollectedUpTo(draws, n).body| == |NonNullDraws(draws, n)|
    ensures forall j :: 0 <= j < |NonNullDraws(draws, n)| ==>
              DrawnItems(draws[NonNullDraws(draws, n)[j]].body) == [CollectedUpTo(draws, n).body[j]]
  {
    if n > 0 {
      CollectedInDrawOrder(draws, n - 1);
    }
  }

  /**
   * Draws are not deduplicated: n draws that all return the same meal
   * collect that meal n times.
   */
  lemma {:induction false} RepeatedDrawsAreKept(draws: seq<MealsResponse>, meal: Meal, n: nat)
    requires n <= |draws|
    requires forall k :: 0 <= k < n ==> draws[k] == Ok(Some([meal]))
    ensures CollectedUpTo(draws, n).Ok? && |CollectedUpTo(draws, n).body| == n
    ensures forall j :: 0 <= j < n ==> CollectedUpTo(draws, n).body[j] == Some(meal)
  {
    if n > 0 {
      RepeatedDrawsAreKept(draws, meal, n - 1);
      assert draws[n - 1] == Ok(Some([meal]));
    }
  }

  /**
   * The meals before the first `undefined` item: the cards that get
   * appended before rendering an `undefined` item throws.
   */
  function DefinedPrefix(items: seq<Option<Meal>>): (meals: seq<Meal>)
    ensures |meals| <= |items|
    ensures forall i :: 0 <= i < |meals| ==> items[i] == Some(meals[i])
    ensures |meals| < |items| ==> items[|meals|].None?
  {
    if items == [] || items[0].None? then [] else [items[0].value] + DefinedPrefix(items[1..])
  }

  /** After the first failure the collection stays failed. */
  lemma {:induction false} FailureIsFinal(draws: seq<MealsResponse>, n: nat, m: nat)
    requires n <= m <= |draws|
    requires CollectedUpTo(draws, n).Failure?
    ensures CollectedUpTo(draws, m).Failure?
  {
    if n < m {
      FailureIsFinal(draws, n, m - 1);
    }
  }

  /**
   * The loop of the listing: request the draws one at a time, stopping at
   * the first failure, and collect the first meal of each non-null list.
   */
  method CollectRandomDraws(draws: seq<MealsResponse>) returns (outcome: Response<seq<Option<Meal>>>, requested: nat)
    requires |draws| == RandomDraws
    ensures outcome == CollectedUpTo(draws, RandomDraws)
    ensures FirstFailure(draws) == RandomDraws ==> requested == RandomDraws
    ensures FirstFailure(draws) < RandomDraws ==> requested == FirstFailure(draws) + 1
  {
    var items: seq<Option<Meal>> := [];
    requested := 0;
    while requested < RandomDraws
      invariant requested <= RandomDraws && requested <= FirstFailure(draws)
      invariant CollectedUpTo(draws, requested) == Ok(items)
    {
      var response := draws[requested];
      requested := requested + 1;
      match response
      case Failure =>
        FailureIsFinal(draws, requested, RandomDraws);
        outcome := Failure;
        return;
      case Ok(meals) =>
        if meals.Some? {
          items := items + [if |meals.value| > 0 then Some(meals.value[0]) else None];
        } else {
          assert items + DrawnItems(meals) == items;
        }
    }
    outcome := Ok(items);
  }
}
