/** The dispensing rules: one prepare or refill at a time against the shared inventory. */
module Operator {
  import opened Responses
  import opened Formulas
  import opened Inventory

  /** The machine: its outlet count, the shared inventory and the recipes by beverage name. */
  datatype CoffeeMachine = CoffeeMachine(
    outlets: int,
    ingredientCapacity: IngredientCapacity,
    availableBeverages: map<string, BeverageFormula>)

  const UnknownBeverageMessage := "Unknown beverage selected"

  /** Each recipe lists an ingredient at most once (the recipes come from maps). */
  predicate WellFormedRecipes(recipes: map<string, BeverageFormula>) {
    forall b :: b in recipes ==> DistinctIngredients(recipes[b].ingredients)
  }

  /** One atomic prepare of `beverageName`: the response and the stock after it. */
  function Dispense(stock: Stock, recipes: map<string, BeverageFormula>, beverageName: string): (outcome: (Response, Stock))
    ensures !outcome.0.IsSuccess() ==> outcome.1 == stock
    ensures outcome.0.IsSuccess() ==> beverageName in recipes && AllPresent(stock, recipes[beverageName].ingredients)
  {
    if beverageName !in recipes then (Error(UnknownBeverageMessage), stock)
    else
      var formula := recipes[beverageName];
      var missing := Shortfall(stock, formula.ingredients);
      if missing != [] then (Error(ShortageMessage(formula.name, missing)), stock)
      else (Success(PreparedMessage(formula.name)), Debit(stock, formula.ingredients))
  }

  /** A request to the operator. */
  datatype Request = Prepare(beverage: string) | Refill(ingredient: string, amount: int)

  /** One request, run atomically: the response and the stock after it. */
  function Step(stock: Stock, recipes: map<string, BeverageFormula>, request: Request): (outcome: (Response, Stock))
    ensures request.Refill? ==> outcome.0 == Success(RefillMessage)
    ensures !outcome.0.IsSuccess() ==> request.Prepare? && outcome.1 == stock
  {
    match request
    case Prepare(beverage) => Dispense(stock, recipes, beverage)
    case Refill(ingredient, amount) => (Success(RefillMessage), Refilled(stock, ingredient, amount))
  }

  /** Requests run one after another: the final stock, and the responses in the order run. */
  function Run(stock: Stock, recipes: map<string, BeverageFormula>, requests: seq<Request>): (outcome: (Stock, seq<Response>))
    ensures |outcome.1| == |requests|
    decreases |requests|
  {
    if requests == [] then (stock, [])
    else
      var n := |requests| - 1;
      var (before, responses) := Run(stock, recipes, requests[..n]);
      var (response, after) := Step(before, recipes, requests[n]);
      (after, responses + [response])
  }

  /** An unknown beverage is reported as such and changes no stock. */
  lemma UnknownBeverageChangesNothing(stock: Stock, recipes: map<string, BeverageFormula>, beverageName: string)
    requires beverageName !in recipes
    ensures Dispense(stock, recipes, beverageName) == (Error(UnknownBeverageMessage), stock)
  {
  }

  /** A prepare succeeds exactly when the beverage is known and the stock meets every
      requirement of its recipe; otherwise it is an error and the stock is unchanged. */
  lemma DispenseSucceedsIffAvailable(stock: Stock, recipes: map<string, BeverageFormula>, beverageName: string)
    ensures Dispense(stock, recipes, beverageName).0.IsSuccess() <==>
      && beverageName in recipes
      && forall i :: 0 <= i < |recipes[beverageName].ingredients| ==> !Lacks(stock, recipes[beverageName].ingredients[i])
    ensures !Dispense(stock, recipes, beverageName).0.IsSuccess() ==> Dispense(stock, recipes, beverageName).1 == stock
  {
  }

  /** A known beverage whose recipe cannot be met gets the shortage message, which lists the
      missing ingredients in recipe order with "is" or "are" to match. */
  lemma ShortageReported(stock: Stock, recipes: map<string, BeverageFormula>, beverageName: string)
    requires beverageName in recipes
    requires Shortfall(stock, recipes[beverageName].ingredients) != []
    ensures Dispense(stock, recipes, beverageName) ==
      (Error(ShortageMessage(recipes[beverageName].name, Shortfall(stock, recipes[beverageName].ingredients))), stock)
  {
  }

  /** A successful prepare takes exactly the recipe's quantity of each of its ingredients, leaves
      every other ingredient alone, and reports the beverage as prepared. */
  lemma {:induction false} DispenseDebitsRecipe(stock: Stock, recipes: map<string, BeverageFormula>, beverageName: string)
    requires WellFormedRecipes(recipes)
    requires Dispense(stock, recipes, beverageName).0.IsSuccess()
    ensures beverageName in recipes
    ensures var (response, after) := Dispense(stock, recipes, beverageName);
      var required := recipes[beverageName].ingredients;
      && response.message == PreparedMessage(recipes[beverageName].name)
      && after.Keys == stock.Keys
      && (forall i :: 0 <= i < |required| ==>
            required[i].ingredient in stock &&
            after[required[i].ingredient] == stock[required[i].ingredient] - required[i].quantity)
      && (forall x :: x in stock && x !in Required(required) ==> after[x] == stock[x])
  {
    var required := recipes[beverageName].ingredients;
    DebitTakesEachQuantityOnce(stock, required);
  }

  /** No single prepare drives a quantity negative. */
  lemma DispenseKeepsNonNegative(stock: Stock, recipes: map<string, BeverageFormula>, beverageName: string)
    requires NonNegative(stock) && WellFormedRecipes(recipes)
    ensures NonNegative(Dispense(stock, recipes, beverageName).1)
  {
    if beverageName in recipes && Shortfall(stock, recipes[beverageName].ingredients) == [] {
      DebitKeepsNonNegative(stock, recipes[beverageName].ingredients);
    }
  }

  /** Every refill in `requests` adds a non-negative amount. */
  predicate RefillsNonNegative(requests: seq<Request>) {
    forall k :: 0 <= k < |requests| && requests[k].Refill? ==> requests[k].amount >= 0
  }

  /** Starting from non-negative stock, no sequence of prepares and non-negative refills ever
      makes a quantity negative. */
  lemma {:induction false} RunKeepsNonNegative(stock: Stock, recipes: map<string, BeverageFormula>, requests: seq<Request>)
    requires NonNegative(stock) && WellFormedRecipes(recipes) && RefillsNonNegative(requests)
    ensures NonNegative(Run(stock, recipes, requests).0)
    decreases |requests|
  {
    if requests != [] {
      var n := |requests| - 1;
      assert forall k :: 0 <= k < n ==> requests[..n][k] == requests[k];
      RunKeepsNonNegative(stock, recipes, requests[..n]);
      var before := Run(stock, recipes, requests[..n]).0;
      match requests[n]
      case Prepare(beverage) => DispenseKeepsNonNegative(before, recipes, beverage);
      case Refill(ingredient, amount) => RefillKeepsNonNegative(before, ingredient, amount);
    }
  }

  /** Runs over a longer list extend the runs over its prefixes: the responses already given do
      not change. */
  lemma {:induction false} RunExtends(stock: Stock, recipes: map<string, BeverageFormula>, requests: seq<Request>, m: nat)
    requires m <= |requests|
    ensures Run(stock, recipes, requests).1[..m] == Run(stock, recipes, requests[..m]).1
    decreases |requests|
  {
    if m < |requests| {
      var n := |requests| - 1;
      RunExtends(stock, recipes, requests[..n], m);
      assert requests[..n][..m] == requests[..m];
    } else {
      assert requests[..m] == requests;
    }
  }

  /** The response to the `k`-th request of a run is what that request gave, run alone on the
      stock the requests before it left. */
  lemma RunResponseAt(stock: Stock, recipes: map<string, BeverageFormula>, requests: seq<Request>, k: nat)
    requires k < |requests|
    ensures Run(stock, recipes, requests).1[k] == Step(Run(stock, recipes, requests[..k]).0, recipes, requests[k]).0
  {
    RunExtends(stock, recipes, requests, k + 1);
    assert requests[..k + 1][..k] == requests[..k];
  }

  /** The "Unknown beverage selected" error comes back exactly for names without a recipe: a
      shortage message is longer than it, and a success is no error. */
  lemma UnknownReportedIffUnlisted(stock: Stock, recipes: map<string, BeverageFormula>, beverageName: string)
    ensures Dispense(stock, recipes, beverageName).0 == Error(UnknownBeverageMessage) <==> beverageName !in recipes
  {
    if beverageName in recipes {
      var formula := recipes[beverageName];
      var missing := Shortfall(stock, formula.ingredients);
      if missing != [] {
        assert |ShortageMessage(formula.name, missing)| > |UnknownBeverageMessage|;
      }
    }
  }

  /** The total a recipe requires of `x`. */
  function QuantityOf(required: seq<Requirement>, x: string): (total: int)
    ensures x !in Required(required) ==> total == 0
    decreases |required|
  {
    if required == [] then 0
    else
      var n := |required| - 1;
      assert Required(required) == Required(required[..n]) + {required[n].ingredient};
      QuantityOf(required[..n], x) + if required[n].ingredient == x then required[n].quantity else 0
  }

  /** With distinct ingredients, the total required of a listed ingredient is its one quantity. */
  lemma {:induction false} QuantityOfListed(required: seq<Requirement>, i: nat)
    requires DistinctIngredients(required) && i < |required|
    ensures QuantityOf(required, required[i].ingredient) == required[i].quantity
    decreases |required|
  {
    var n := |required| - 1;
    var earlier := required[..n];
    assert forall j :: 0 <= j < n ==> earlier[j] == required[j];
    if i < n {
      QuantityOfListed(earlier, i);
    } else {
      assert required[i].ingredient !in Required(earlier);
    }
  }

  /** A successful prepare takes the recipe's total of every ingredient, present or not. */
  lemma DispenseTakesQuantityOf(stock: Stock, recipes: map<string, BeverageFormula>, beverageName: string, x: string)
    requires WellFormedRecipes(recipes)
    requires Dispense(stock, recipes, beverageName).0.IsSuccess()
    ensures beverageName in recipes
    ensures Quantity(Dispense(stock, recipes, beverageName).1, x) ==
      Quantity(stock, x) - QuantityOf(recipes[beverageName].ingredients, x)
  {
    var required := recipes[beverageName].ingredients;
    DispenseDebitsRecipe(stock, recipes, beverageName);
    if x in Required(required) {
      var i :| 0 <= i < |required| && required[i].ingredient == x;
      QuantityOfListed(required, i);
    }
  }

  /** The net change a run makes to `x`: minus the recipe's total for every prepare that was
      reported a success, plus the amount of every refill of `x`. */
  function NetChange(recipes: map<string, BeverageFormula>, requests: seq<Request>, responses: seq<Response>, x: string): (change: int)
    requires |responses| == |requests|
    ensures ((forall k :: 0 <= k < |requests| ==> !requests[k].Refill? || requests[k].ingredient != x) &&
             (forall k :: 0 <= k < |requests| ==> !requests[k].Prepare? || !responses[k].IsSuccess())) ==> change == 0
    decreases |requests|
  {
    if requests == [] then 0
    else
      var n := |requests| - 1;
      NetChange(recipes, requests[..n], responses[..n], x) +
        match requests[n]
        case Prepare(b) => if responses[n].IsSuccess() && b in recipes then -QuantityOf(recipes[b].ingredients, x) else 0
        case Refill(y, amount) => if y == x then amount else 0
  }

  /** Atomicity of a run: every quantity ends as it started, less the recipe totals of exactly
      the prepares reported successful, plus the refills. No error debits anything. */
  lemma {:induction false} RunAccountsEveryDebit(stock: Stock, recipes: map<string, BeverageFormula>, requests: seq<Request>, x: string)
    requires WellFormedRecipes(recipes)
    ensures Quantity(Run(stock, recipes, requests).0, x) ==
      Quantity(stock, x) + NetChange(recipes, requests, Run(stock, recipes, requests).1, x)
    decreases |requests|
  {
    if requests != [] {
      var n := |requests| - 1;
      RunAccountsEveryDebit(stock, recipes, requests[..n], x);
      var (before, responses) := Run(stock, recipes, requests[..n]);
      var all := Run(stock, recipes, requests).1;
      assert all[..n] == responses;
      match requests[n]
      case Prepare(b) =>
        if Dispense(before, recipes, b).0.IsSuccess() {
          DispenseTakesQuantityOf(before, recipes, b, x);
        }
      case Refill(y, amount) =>
    }
  }

  /** The operator every outlet calls; it owns no state but the machine it works on. */
  class CoffeeMachineOperator {
    const coffeeMachine: CoffeeMachine

    constructor (coffeeMachine: CoffeeMachine)
      ensures this.coffeeMachine == coffeeMachine
    {
      this.coffeeMachine := coffeeMachine;
    }

    /** Prepares one beverage: unknown name, shortage, or debit and success, as `Dispense`. */
    method PrepareDrink(beverageName: string) returns (response: Response)
      modifies coffeeMachine.ingredientCapacity
      ensures (response, coffeeMachine.ingredientCapacity.ingredients) ==
        Dispense(old(coffeeMachine.ingredientCapacity.ingredients), coffeeMachine.availableBeverages, beverageName)
    {
      if beverageName !in coffeeMachine.availableBeverages {
        return Error(UnknownBeverageMessage);
      }
      var ingredientCapacity := coffeeMachine.ingredientCapacity;
      var beverageFormula := coffeeMachine.availableBeverages[beverageName];
      var ingredientsToReduce := beverageFormula.ingredients;
      var unavailableIngredients := ingredientCapacity.GetUnavailableIngredients(ingredientsToReduce);
      if unavailableIngredients != [] {
        response := Error(ShortageMessage(beverageFormula.name, unavailableIngredients));
      } else {
        var _ := ingredientCapacity.ReduceIngredients(ingredientsToReduce);
        response := Success(PreparedMessage(beverageFormula.name));
      }
    }

    /** Adds `addQuantity` of `ingredientName` through the inventory. */
    method Refill(ingredientName: string, addQuantity: int) returns (response: Response)
      modifies coffeeMachine.ingredientCapacity
      ensures (response, coffeeMachine.ingredientCapacity.ingredients) ==
        Step(old(coffeeMachine.ingredientCapacity.ingredients), coffeeMachine.availableBeverages, Request.Refill(ingredientName, addQuantity))
    {
      response := coffeeMachine.ingredientCapacity.Refill(ingredientName, addQuantity);
    }

    /** The names of the beverages the machine has recipes for. */
    function GetBeverages(): (names: set<string>)
      ensures forall b :: b in names <==> b in coffeeMachine.availableBeverages
    {
      coffeeMachine.availableBeverages.Keys
    }
  }
}
