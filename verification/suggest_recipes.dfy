/** The `suggest_recipes` tool of the durable chef agent: a fixed pair of recipes for
    each dietary preference, chosen case-insensitively. */
module SuggestRecipes {
  import opened Text

  datatype Recipe = Recipe(name: string, ingredients: seq<string>)

  const Vegetarian: seq<Recipe> := [
    Recipe("Veggie Stir Fry", ["Broccoli", "Carrots", "Tofu"]),
    Recipe("Lentil Soup", ["Lentils", "Tomatoes", "Spinach"])]

  const Keto: seq<Recipe> := [
    Recipe("Keto Chicken Salad", ["Chicken", "Avocado", "Olive Oil"]),
    Recipe("Zucchini Noodles", ["Zucchini", "Parmesan", "Garlic"])]

  const Fallback: seq<Recipe> := [
    Recipe("Grilled Cheese", ["Bread", "Cheddar", "Butter"]),
    Recipe("Spaghetti Bolognese", ["Spaghetti", "Beef", "Tomato"])]

  /** `suggest_recipes(dietary_preference)`. The reply tells which branch was taken:
      the vegetarian pair exactly for "vegetarian", the keto pair exactly for "keto",
      in any letter case, and the fallback pair for everything else. Every reply has
      two recipes of three ingredients each. */
  function Suggest(preference: string): (r: seq<Recipe>)
    ensures r == Vegetarian <==> Lower(preference) == "vegetarian"
    ensures r == Keto <==> Lower(preference) == "keto"
    ensures r == Fallback <==> Lower(preference) != "vegetarian" && Lower(preference) != "keto"
    ensures |r| == 2 && forall i | 0 <= i < 2 :: |r[i].ingredients| == 3
  {
    if Lower(preference) == "vegetarian" then Vegetarian
    else if Lower(preference) == "keto" then Keto
    else Fallback
  }

  /** Only the letter case of the ASCII letters is ignored: the preference and its
      lower-cased form get the same suggestions. */
  lemma SuggestIgnoresCase(preference: string)
    ensures Suggest(Lower(preference)) == Suggest(preference)
  {
    LowerIdempotent(preference);
  }
}
