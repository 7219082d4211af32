/** The ingredient inventory: the quantities on hand, the availability check, the debit and the
    refill. */
module Inventory {
  import opened Responses
  import opened Formulas
  import opened JavaText
  import opened Sequences

  /** Ingredient name to quantity on hand. */
  type Stock = map<string, int>

  /** The stock cannot meet `q`: the ingredient is absent or on hand in a smaller quantity. */
  predicate Lacks(stock: Stock, q: Requirement) {
    q.ingredient !in stock || stock[q.ingredient] < q.quantity
  }

  /** Every required ingredient has an entry in the stock. */
  predicate AllPresent(stock: Stock, required: seq<Requirement>) {
    forall i :: 0 <= i < |required| ==> required[i].ingredient in stock
  }

  /** No quantity on hand is negative. */
  predicate NonNegative(stock: Stock) {
    forall x :: x in stock ==> stock[x] >= 0
  }

  /** The names of the requirements the stock cannot meet, in the order they are listed.
      It is empty exactly when every requirement can be met. */
  function Shortfall(stock: Stock, required: seq<Requirement>): (missing: seq<string>)
    ensures |missing| <= |required|
    ensures missing == [] <==> forall i :: 0 <= i < |required| ==> !Lacks(stock, required[i])
    decreases |required|
  {
    if required == [] then []
    else
      var n := |required| - 1;
      var earlier := Shortfall(stock, required[..n]);
      assert forall i :: 0 <= i < n ==> required[..n][i] == required[i];
      earlier + if Lacks(stock, required[n]) then [required[n].ingredient] else []
  }

  /** Every name in the shortfall is that of an unmet requirement, and the names come in the
      order of `required`: `pos` gives their positions. */
  lemma {:induction false} ShortfallFollowsRequirementOrder(stock: Stock, required: seq<Requirement>)
    returns (pos: seq<nat>)
    ensures IncreasingIndices(pos, |required|)
    ensures |pos| == |Shortfall(stock, required)|
    ensures forall k :: 0 <= k < |pos| ==>
      Shortfall(stock, required)[k] == required[pos[k]].ingredient && Lacks(stock, required[pos[k]])
    decreases |required|
  {
    if required == [] {
      pos := [];
    } else {
      var n := |required| - 1;
      var earlier := required[..n];
      var p := ShortfallFollowsRequirementOrder(stock, earlier);
      var before := Shortfall(stock, earlier);
      var missing := Shortfall(stock, required);
      assert forall i :: 0 <= i < n ==> earlier[i] == required[i];
      if Lacks(stock, required[n]) {
        assert missing == before + [required[n].ingredient];
        pos := p + [n];
        forall k | 0 <= k < |pos|
          ensures missing[k] == required[pos[k]].ingredient && Lacks(stock, required[pos[k]])
        {
          if k < |p| {
            assert missing[k] == before[k] && pos[k] == p[k];
          }
        }
      } else {
        assert missing == before;
        pos := p;
      }
    }
  }

  /** An ingredient is reported missing exactly when some requirement on it cannot be met. */
  lemma {:induction false} ShortfallMembership(stock: Stock, required: seq<Requirement>, x: string)
    ensures x in Shortfall(stock, required) <==>
      exists i :: 0 <= i < |required| && required[i].ingredient == x && Lacks(stock, required[i])
    decreases |required|
  {
    if required != [] {
      var n := |required| - 1;
      var earlier := required[..n];
      ShortfallMembership(stock, earlier, x);
      assert forall i :: 0 <= i < n ==> earlier[i] == required[i];
      if exists i :: 0 <= i < |required| && required[i].ingredient == x && Lacks(stock, required[i]) {
        var i :| 0 <= i < |required| && required[i].ingredient == x && Lacks(stock, required[i]);
        if i < n {
          assert earlier[i].ingredient == x && Lacks(stock, earlier[i]);
        }
      }
    }
  }

  /** The stock after taking every requirement's quantity, one requirement after another. */
  function Debit(stock: Stock, required: seq<Requirement>): (after: Stock)
    requires AllPresent(stock, required)
    ensures after.Keys == stock.Keys
    decreases |required|
  {
    if required == [] then stock
    else
      var n := |required| - 1;
      assert forall i :: 0 <= i < n ==> required[..n][i] == required[i];
      var before := Debit(stock, required[..n]);
      before[required[n].ingredient := before[required[n].ingredient] - required[n].quantity]
  }

  /** With distinct ingredients, the debit takes each required quantity exactly once from its
      own ingredient and leaves every other ingredient alone. */
  lemma {:induction false} DebitTakesEachQuantityOnce(stock: Stock, required: seq<Requirement>)
    requires AllPresent(stock, required) && DistinctIngredients(required)
    ensures forall i :: 0 <= i < |required| ==>
      Debit(stock, required)[required[i].ingredient] == stock[required[i].ingredient] - required[i].quantity
    ensures forall x :: x in stock && x !in Required(required) ==> Debit(stock, required)[x] == stock[x]
    decreases |required|
  {
    if required != [] {
      var n := |required| - 1;
      var earlier := required[..n];
      assert forall i :: 0 <= i < n ==> earlier[i] == required[i];
      DebitTakesEachQuantityOnce(stock, earlier);
      assert required[n].ingredient !in Required(earlier);
      assert Required(required) == Required(earlier) + {required[n].ingredient};
    }
  }

  /** The availability check and the debit together keep the stock non-negative. */
  lemma DebitKeepsNonNegative(stock: Stock, required: seq<Requirement>)
    requires NonNegative(stock) && DistinctIngredients(required)
    requires Shortfall(stock, required) == []
    ensures AllPresent(stock, required) && NonNegative(Debit(stock, required))
  {
    DebitTakesEachQuantityOnce(stock, required);
    var after := Debit(stock, required);
    forall x | x in after ensures after[x] >= 0 {
      if x in Required(required) {
        var i :| 0 <= i < |required| && required[i].ingredient == x;
        assert !Lacks(stock, required[i]);
      }
    }
  }

  /** The stock after adding `amount` of `ingredient`, which starts from zero when absent. */
  function Refilled(stock: Stock, ingredient: string, amount: int): (after: Stock)
    ensures after.Keys == stock.Keys + {ingredient}
    ensures ingredient in stock ==> after[ingredient] == stock[ingredient] + amount
    ensures ingredient !in stock ==> after[ingredient] == amount
    ensures forall x :: x in stock && x != ingredient ==> after[x] == stock[x]
  {
    stock[ingredient := amount + if ingredient in stock then stock[ingredient] else 0]
  }

  /** Two refills of one ingredient add up to one refill of the sum. */
  lemma RefillsAccumulate(stock: Stock, ingredient: string, a: int, b: int)
    ensures Refilled(Refilled(stock, ingredient, a), ingredient, b) == Refilled(stock, ingredient, a + b)
  {
  }

  /** A refill with a non-negative amount keeps the stock non-negative. */
  lemma RefillKeepsNonNegative(stock: Stock, ingredient: string, amount: int)
    requires NonNegative(stock) && amount >= 0
    ensures NonNegative(Refilled(stock, ingredient, amount))
  {
  }

  /** The quantity of `x` on hand, zero when there is no entry for it. */
  function Quantity(stock: Stock, x: string): int {
    if x in stock then stock[x] else 0
  }

  /** Java `int` addition: the exact sum wrapped into 32-bit two's complement. */
  function AddInt32(a: int, b: int): (r: int)
    ensures -0x8000_0000 <= r < 0x8000_0000
    ensures (r - (a + b)) % 0x1_0000_0000 == 0
    ensures -0x8000_0000 <= a + b < 0x8000_0000 ==> r == a + b
  {
    (a + b + 0x8000_0000) % 0x1_0000_0000 - 0x8000_0000
  }

  /** The refill exactly as the source computes it, in 32-bit arithmetic. */
  function RefilledInt32(stock: Stock, ingredient: string, amount: int): (after: Stock)
    ensures after.Keys == stock.Keys + {ingredient}
    ensures after[ingredient] == AddInt32(amount, Quantity(stock, ingredient))
    ensures forall x :: x in stock && x != ingredient ==> after[x] == stock[x]
  {
    stock[ingredient := AddInt32(amount, Quantity(stock, ingredient))]
  }

  /** A refill whose sum fits in an `int` is the exact refill. */
  lemma RefilledInt32InRange(stock: Stock, ingredient: string, amount: int)
    requires -0x8000_0000 <= amount + Quantity(stock, ingredient) < 0x8000_0000
    ensures RefilledInt32(stock, ingredient, amount) == Refilled(stock, ingredient, amount)
  {
  }

  /** A non-negative refill can wrap a quantity negative: topping up one unit of milk by the
      largest `int` leaves the smallest `int`. */
  lemma RefillInt32Overflows()
    ensures var after := RefilledInt32(map["milk" := 1], "milk", 0x7FFF_FFFF);
      after["milk"] == -0x8000_0000 && !NonNegative(after)
  {
    var after := RefilledInt32(map["milk" := 1], "milk", 0x7FFF_FFFF);
    assert after["milk"] == -0x8000_0000;
  }

  /** The message of a shortage: the beverage, the missing ingredients as a list, and "is" for at
      most one of them or "are" for more. */
  function ShortageMessage(name: string, missing: seq<string>): (msg: string)
    ensures name <= msg
    ensures EndsWith(msg, " not available")
  {
    name + " cannot be prepared because " + ListToString(missing) + " "
    + (if |missing| > 1 then "are" else "is") + " not available"
  }

  /** The shortage message agrees in number with the list of missing ingredients: it ends in
      " is not available" for at most one of them and in " are not available" for several. */
  lemma ShortageMessageAgreement(name: string, missing: seq<string>)
    ensures EndsWith(ShortageMessage(name, missing), " is not available") <==> |missing| <= 1
    ensures EndsWith(ShortageMessage(name, missing), " are not available") <==> |missing| > 1
  {
    var front := name + " cannot be prepared because " + ListToString(missing);
    var msg := ShortageMessage(name, missing);
    if |missing| > 1 {
      assert msg == front + " are not available";
      assert msg[|msg| - 17] == 'a';
    } else {
      assert msg == front + " is not available";
      assert msg[|msg| - 18] == front[|front| - 1] == ']';
    }
  }

  /** The shortage message starts with the beverage name and names every missing ingredient. */
  lemma ShortageMessageNamesAll(name: string, missing: seq<string>, k: nat) returns (i: nat)
    requires k < |missing|
    ensures ShortageMessage(name, missing)[..|name|] == name
    ensures OccursAt(missing[k], ShortageMessage(name, missing), i)
  {
    var head := name + " cannot be prepared because ";
    var list := ListToString(missing);
    var tail := " " + (if |missing| > 1 then "are" else "is") + " not available";
    var j := ListToStringMentions(missing, k);
    assert ShortageMessage(name, missing) == head + list + tail;
    assert (head + list + tail)[..|name|] == name;
    i := |head| + j;
    assert (head + list + tail)[i..i + |missing[k]|] == list[j..j + |missing[k]|];
  }

  /** The message of a prepared beverage. */
  function PreparedMessage(name: string): (msg: string)
    ensures name <= msg
    ensures EndsWith(msg, " is prepared")
  {
    name + " is prepared"
  }

  const RefillMessage := "Refill successful"

  /** The machine's ingredient inventory, shared by every outlet. */
  class IngredientCapacity {
    var ingredients: Stock

    constructor (ingredients: Stock)
      ensures this.ingredients == ingredients
    {
      this.ingredients := ingredients;
    }

    /** The names of the required ingredients that are absent or short, in the order listed.
        Reads the stock only. */
    method GetUnavailableIngredients(required: seq<Requirement>) returns (unavailable: seq<string>)
      ensures unavailable == Shortfall(ingredients, required)
    {
      unavailable := [];
      var i := 0;
      while i < |required|
        invariant 0 <= i <= |required|
        invariant unavailable == Shortfall(ingredients, required[..i])
      {
        var entry := required[i];
        if entry.ingredient !in ingredients || ingredients[entry.ingredient] < entry.quantity {
          unavailable := unavailable + [entry.ingredient];
        }
        assert required[..i + 1][..i] == required[..i];
        i := i + 1;
      }
      assert required[..i] == required;
    }

    /** Takes every required quantity from the stock without checking availability; each
        ingredient must already have an entry. */
    method ReduceIngredients(required: seq<Requirement>) returns (response: Response)
      requires AllPresent(ingredients, required)
      modifies this
      ensures ingredients == Debit(old(ingredients), required)
      ensures response == Success("success")
    {
      var i := 0;
      while i < |required|
        invariant 0 <= i <= |required|
        invariant AllPresent(old(ingredients), required[..i])
        invariant ingredients == Debit(old(ingredients), required[..i])
      {
        var entry := required[i];
        assert required[..i + 1][..i] == required[..i];
        ingredients := ingredients[entry.ingredient := ingredients[entry.ingredient] - entry.quantity];
        i := i + 1;
      }
      assert required[..i] == required;
      response := Success("success");
    }

    /** Checks availability and, only if nothing is missing, debits the whole recipe. */
    method PrepareDrink(beverageFormula: BeverageFormula) returns (response: Response)
      modifies this
      ensures var missing := Shortfall(old(ingredients), beverageFormula.ingredients);
        if missing == [] then
          && AllPresent(old(ingredients), beverageFormula.ingredients)
          && ingredients == Debit(old(ingredients), beverageFormula.ingredients)
          && response == Success(PreparedMessage(beverageFormula.name))
        else
          && ingredients == old(ingredients)
          && response == Error(ShortageMessage(beverageFormula.name, missing))
    {
      var ingredientsToReduce := beverageFormula.ingredients;
      var unavailable := GetUnavailableIngredients(ingredientsToReduce);
      if unavailable != [] {
        response := Error(ShortageMessage(beverageFormula.name, unavailable));
      } else {
        var _ := ReduceIngredients(ingredientsToReduce);
        response := Success(PreparedMessage(beverageFormula.name));
      }
    }

    /** Adds `addQuantity` of `ingredient`, creating the entry when absent. */
    method Refill(ingredient: string, addQuantity: int) returns (response: Response)
      modifies this
      ensures ingredients == Refilled(old(ingredients), ingredient, addQuantity)
      ensures response == Success(RefillMessage)
    {
      ingredients := ingredients[ingredient := addQuantity + if ingredient in ingredients then ingredients[ingredient] else 0];
      response := Success(RefillMessage);
    }
  }
}
