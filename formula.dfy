/** Beverage recipes: a name and the quantity of each ingredient one unit needs. */
module Formulas {

  /** One entry of a recipe: an ingredient and the quantity required of it. */
  datatype Requirement = Requirement(ingredient: string, quantity: int)

  /** A recipe. Its requirements are listed in the iteration order of the recipe's map, so the
      list of missing ingredients comes out in that order. */
  datatype BeverageFormula = BeverageFormula(name: string, ingredients: seq<Requirement>)

  /** No ingredient is listed twice, as with the keys of a map. */
  predicate DistinctIngredients(required: seq<Requirement>) {
    forall i, j :: 0 <= i < j < |required| ==> required[i].ingredient != required[j].ingredient
  }

  /** The ingredients a recipe mentions. */
  ghost function Required(required: seq<Requirement>): set<string> {
    set i | 0 <= i < |required| :: required[i].ingredient
  }
}
