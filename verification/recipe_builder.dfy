/** `recipe_builder_workflow`: pick a dish, look up its ingredients, and summarize. */
module RecipeBuilder {
  import opened Common
  import opened Text
  import opened PyRandom

  const Dishes: seq<string> := ["pasta", "salad", "stir-fry"]

  /** `pick_dish`: `random.choice` over the three dishes. */
  function PickDish(draw: nat): (dish: string)
    requires draw < |Dishes|
    ensures dish == "pasta" || dish == "salad" || dish == "stir-fry"
  {
    Choice(Dishes, draw)
  }

  /** Every dish is some draw's pick. */
  lemma PickDishCoversAll(dish: string) returns (draw: nat)
    requires dish in Dishes
    ensures draw < |Dishes| && PickDish(draw) == dish
  {
    draw := IndexOf(Dishes, dish);
  }

  /** `get_ingredients`: the `options` table, with an empty list for any other dish. */
  function GetIngredients(dish: string): (items: seq<string>)
    ensures dish !in Dishes <==> items == []
    ensures dish in Dishes ==> |items| == 3
  {
    if dish == "pasta" then ["spaghetti", "tomato sauce", "garlic"]
    else if dish == "salad" then ["lettuce", "tomato", "feta cheese"]
    else if dish == "stir-fry" then ["chicken", "broccoli", "soy sauce"]
    else []
  }

  /** Whatever the draw, the picked dish has ingredients. */
  lemma PickedDishHasIngredients(draw: nat)
    requires draw < |Dishes|
    ensures GetIngredients(PickDish(draw)) != []
  {
  }

  const Lead: string := "To make "
  const Need: string := ", you'll need: "

  /** `summarize_recipe`: the sentence naming the dish and listing the ingredients,
      comma-separated and ending in a full stop. */
  function SummarizeRecipe(dish: string, items: seq<string>): (text: string)
    ensures |text| == |Lead| + |dish| + |Need| + |Join(", ", items)| + 1
    ensures text[..|Lead|] == Lead
    ensures text[|Lead|..|Lead| + |dish|] == dish
    ensures text[|Lead| + |dish|..|Lead| + |dish| + |Need|] == Need
    ensures text[|Lead| + |dish| + |Need|..|text| - 1] == Join(", ", items)
    ensures text[|text| - 1] == '.'
  {
    Lead + dish + Need + Join(", ", items) + "."
  }

  /** The sentence names the dish and every one of its ingredients. */
  lemma SummaryNamesEverything(dish: string, items: seq<string>, k: nat)
    requires k < |items|
    ensures Contains(SummarizeRecipe(dish, items), dish)
    ensures Contains(SummarizeRecipe(dish, items), items[k])
  {
    var joined := Join(", ", items);
    assert OccursAt(dish, dish, 0);
    ContainsInContext(Lead, dish, Need + joined + ".", dish);
    assert SummarizeRecipe(dish, items) == Lead + dish + (Need + joined + ".");
    JoinContains(", ", items, k);
    ContainsInContext(Lead + dish + Need, joined, ".", items[k]);
  }

  // ---------------------------------------------------------------------------
  // The workflow.

  datatype Call =
    | PickDishCall
    | GetIngredientsCall(dish: Json)
    | SummarizeRecipeCall(dish: Json, ingredients: Json)

  datatype Oracles = Oracles(
    pickDish: nat -> Json,
    getIngredients: (nat, Json) -> Json,
    summarizeRecipe: (nat, Json, Json) -> Json)

  /** The workflow body: each activity's reply feeds the next, unchanged. */
  function RecipeBuilderWorkflow(o: Oracles): (r: Run<Call, Json>)
    ensures |r.calls| == 3 && r.outcome.Completed?
    ensures r.calls[0] == PickDishCall
    ensures r.calls[1] == GetIngredientsCall(o.pickDish(0))
    ensures r.calls[2] == SummarizeRecipeCall(o.pickDish(0), o.getIngredients(1, o.pickDish(0)))
    ensures r.outcome.value == o.summarizeRecipe(2, r.calls[2].dish, r.calls[2].ingredients)
  {
    var dish := o.pickDish(0);
    var ingredients := o.getIngredients(1, dish);
    Run([PickDishCall, GetIngredientsCall(dish), SummarizeRecipeCall(dish, ingredients)],
        Completed(o.summarizeRecipe(2, dish, ingredients)))
  }

  /** The JSON form of an `Ingredients` model. */
  function IngredientsJson(items: seq<string>): Json {
    JObj(map["items" := JArr(Strings(items))])
  }

  /** With the script's own activities behind the calls, the run returns the sentence
      for the drawn dish and that dish's three ingredients. */
  lemma RecipeBuilderWithScriptActivities(o: Oracles, draw: nat)
    requires draw < |Dishes|
    requires o.pickDish(0) == JStr(PickDish(draw))
    requires forall i: nat, d :: o.getIngredients(i, JStr(d)) == IngredientsJson(GetIngredients(d))
    requires forall i: nat, d, items ::
               o.summarizeRecipe(i, JStr(d), IngredientsJson(items)) == JStr(SummarizeRecipe(d, items))
    ensures var dish := PickDish(draw);
            var r := RecipeBuilderWorkflow(o);
            && r.calls[1] == GetIngredientsCall(JStr(dish))
            && r.outcome == Completed(JStr(SummarizeRecipe(dish, GetIngredients(dish))))
            && |GetIngredients(dish)| == 3
  {
  }
}
