/**
 * Ingredient normalisation: the fixed scan of the 20 numbered
 * ingredient/measure slots of a meal into a list of lines.
 */
module MealIngredients {
  import opened Wrappers
  import opened JsText
  import opened Api

  /** The number of ingredient slots the scan visits, fixed by the service's schema. */
  const IngredientSlots: nat := 20

  /** One displayed ingredient: its name and its measure, both trimmed. */
  datatype IngredientLine = IngredientLine(ingredient: string, measure: string)

  /**
   * The line slot `i` contributes: present exactly when the ingredient is
   * truthy and not blank after trimming; the measure is trimmed, or `""`
   * when it is absent or empty.
   */
  function SlotLine(meal: Meal, i: nat): (line: Option<IngredientLine>)
    ensures line.Some? <==> NumberedField(meal.strIngredient, i).Some? && Trim(NumberedField(meal.strIngredient, i).value) != ""
    ensures line.Some? ==> line.value.ingredient != "" && IsTrimmed(line.value.ingredient) && IsTrimmed(line.value.measure)
  {
    var ingredient := NumberedField(meal.strIngredient, i);
    var measure := NumberedField(meal.strMeasure, i);
    if Truthy(ingredient) && Trim(ingredient.value) != "" then
      if Truthy(measure) then
        Some(IngredientLine(Trim(ingredient.value), Trim(measure.value)))
      else
        Some(IngredientLine(Trim(ingredient.value), ""))
    else
      None
  }

  /** The measure text of a slot: the trimmed measure, or "" when the measure is absent. */
  function MeasureText(measure: Option<string>): string
  {
    if measure.Some? then Trim(measure.value) else ""
  }

  /**
   * A kept slot's line holds the trimmed ingredient field and the trimmed
   * measure field, or "" for an absent measure; skipping an empty measure
   * as falsy gives the same "".
   */
  lemma SlotLineFields(meal: Meal, i: nat)
    requires SlotLine(meal, i).Some?
    ensures SlotLine(meal, i).value.ingredient == Trim(NumberedField(meal.strIngredient, i).value)
    ensures SlotLine(meal, i).value.measure == MeasureText(NumberedField(meal.strMeasure, i))
  {
  }

  /** The lines of slots 1..n, in slot order. */
  function IngredientsUpTo(meal: Meal, n: nat): (lines: seq<IngredientLine>)
    ensures |lines| <= n
  {
    if n == 0 then []
    else
      IngredientsUpTo(meal, n - 1) +
      match SlotLine(meal, n)
      case Some(line) => [line]
      case None => []
  }

  /** The ingredient list of a meal: the lines of slots 1..20. */
  function Ingredients(meal: Meal): (lines: seq<IngredientLine>)
    ensures |lines| <= IngredientSlots
  {
    IngredientsUpTo(meal, IngredientSlots)
  }

  /** The numbers of the kept slots among 1..n, ascending. */
  function KeptSlotsUpTo(meal: Meal, n: nat): (slots: seq<nat>)
    ensures forall j, k :: 0 <= j < k < |slots| ==> slots[j] < slots[k]
    ensures forall k :: 0 <= k < |slots| ==> 1 <= slots[k] <= n
    ensures forall i :: i in slots <==> 1 <= i <= n && SlotLine(meal, i).Some?
  {
    if n == 0 then []
    else KeptSlotsUpTo(meal, n - 1) + if SlotLine(meal, n).Some? then [n] else []
  }

  /** The set of kept slot numbers among 1..n. */
  function KeptSlotSet(meal: Meal, n: nat): set<nat>
  {
    set i: nat | 1 <= i <= n && SlotLine(meal, i).Some?
  }

  /**
   * Entry k of the list is the line of the k-th kept slot: one entry per
   * kept slot, in ascending slot order.
   */
  lemma {:induction false} IngredientsInSlotOrder(meal: Meal, n: nat)
    ensures |IngredientsUpTo(meal, n)| == |KeptSlotsUpTo(meal, n)|
    ensures forall k :: 0 <= k < |KeptSlotsUpTo(meal, n)| ==>
              SlotLine(meal, KeptSlotsUpTo(meal, n)[k]) == Some(IngredientsUpTo(meal, n)[k])
  {
    if n > 0 {
      IngredientsInSlotOrder(meal, n - 1);
      var lines, slots := IngredientsUpTo(meal, n - 1), KeptSlotsUpTo(meal, n - 1);
      match SlotLine(meal, n)
      case Some(line) =>
        assert IngredientsUpTo(meal, n) == lines + [line];
        assert KeptSlotsUpTo(meal, n) == slots + [n];
      case None =>
        assert IngredientsUpTo(meal, n) == lines;
        assert KeptSlotsUpTo(meal, n) == slots;
    }
  }

  /** The set of values in a sequence. */
  function Elements(s: seq<nat>): set<nat>
  {
    set x | x in s
  }

  /** A strictly increasing sequence has as many distinct elements as entries. */
  lemma {:induction false} AscendingElementsCount(s: seq<nat>)
    requires forall j, k :: 0 <= j < k < |s| ==> s[j] < s[k]
    ensures |Elements(s)| == |s|
  {
    if s != [] {
      var init, last := s[..|s| - 1], s[|s| - 1];
      AscendingElementsCount(init);
      var all, before := Elements(s), Elements(init);
      forall x | x in all ensures x in before + {last} {
        var k :| 0 <= k < |s| && s[k] == x;
        if k < |init| { assert init[k] == x; }
      }
      forall x | x in before + {last} ensures x in all {
        if x != last {
          var k :| 0 <= k < |init| && init[k] == x;
          assert s[k] == x;
        }
      }
      assert last !in before by {
        forall k | 0 <= k < |init| ensures init[k] != last {
          assert s[k] < s[|s| - 1];
        }
      }
      assert all == before + {last};
    }
  }

  /**
   * Entry k of the list holds the trimmed fields of the k-th kept slot: its
   * trimmed ingredient, and its trimmed measure or "" when that is absent.
   */
  lemma {:induction false} EntriesAreTrimmedSlotFields(meal: Meal, n: nat)
    ensures |IngredientsUpTo(meal, n)| == |KeptSlotsUpTo(meal, n)|
    ensures forall k :: 0 <= k < |KeptSlotsUpTo(meal, n)| ==>
              NumberedField(meal.strIngredient, KeptSlotsUpTo(meal, n)[k]).Some? &&
              IngredientsUpTo(meal, n)[k].ingredient == Trim(NumberedField(meal.strIngredient, KeptSlotsUpTo(meal, n)[k]).value) &&
              IngredientsUpTo(meal, n)[k].measure == MeasureText(NumberedField(meal.strMeasure, KeptSlotsUpTo(meal, n)[k]))
  {
    IngredientsInSlotOrder(meal, n);
    var slots := KeptSlotsUpTo(meal, n);
    forall k | 0 <= k < |slots|
      ensures NumberedField(meal.strIngredient, slots[k]).Some?
      ensures IngredientsUpTo(meal, n)[k].ingredient == Trim(NumberedField(meal.strIngredient, slots[k]).value)
      ensures IngredientsUpTo(meal, n)[k].measure == MeasureText(NumberedField(meal.strMeasure, slots[k]))
    {
      SlotLineFields(meal, slots[k]);
    }
  }

  /** The list has exactly as many entries as there are kept slots. */
  lemma IngredientsCount(meal: Meal, n: nat)
    ensures |IngredientsUpTo(meal, n)| == |KeptSlotSet(meal, n)|
  {
    var slots := KeptSlotsUpTo(meal, n);
    IngredientsInSlotOrder(meal, n);
    AscendingElementsCount(slots);
    assert KeptSlotSet(meal, n) == Elements(slots);
  }

  /**
   * Every entry has a non-empty ingredient, and both its ingredient and its
   * measure are left unchanged by trimming.
   */
  lemma {:induction false} IngredientLinesTrimmed(meal: Meal, n: nat)
    ensures forall line :: line in IngredientsUpTo(meal, n) ==>
              line.ingredient != "" && IsTrimmed(line.ingredient) && IsTrimmed(line.measure)
  {
    if n > 0 {
      IngredientLinesTrimmed(meal, n - 1);
    }
  }

  /**
   * The scan reads slots 1..n only: two meals that agree on those slots
   * have the same lines, whatever other fields they carry.
   */
  lemma {:induction false} IngredientsReadOnlyScannedSlots(m1: Meal, m2: Meal, n: nat)
    requires forall i :: 1 <= i <= n ==>
               NumberedField(m1.strIngredient, i) == NumberedField(m2.strIngredient, i) &&
               NumberedField(m1.strMeasure, i) == NumberedField(m2.strMeasure, i)
    ensures IngredientsUpTo(m1, n) == IngredientsUpTo(m2, n)
  {
    if n > 0 {
      IngredientsReadOnlyScannedSlots(m1, m2, n - 1);
      assert SlotLine(m1, n) == SlotLine(m2, n);
    }
  }

  /** The loop of the source: visit slots 1..20 in order, appending each kept slot's line. */
  method GetIngredients(meal: Meal) returns (ingredients: seq<IngredientLine>)
    ensures ingredients == Ingredients(meal)
  {
    ingredients := [];
    for i := 1 to IngredientSlots + 1
      invariant ingredients == IngredientsUpTo(meal, i - 1)
    {
      var ingredient := NumberedField(meal.strIngredient, i);
      var measure := NumberedField(meal.strMeasure, i);
      if Truthy(ingredient) && Trim(ingredient.value) != "" {
        ingredients := ingredients + [IngredientLine(Trim(ingredient.value), if Truthy(measure) then Trim(measure.value) else "")];
      }
    }
  }
}
