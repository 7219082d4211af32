/** Worked cases of the dispensing rules on a small hot-tea machine. */
module Scenarios {
  import opened Responses
  import opened Formulas
  import opened Inventory
  import opened Operator
  import opened Entry
  import opened JavaText

  /** hot_tea: 50 of milk, 50 of water and 10 of tea. */
  function HotTeaRecipes(): map<string, BeverageFormula> {
    map["hot_tea" := BeverageFormula("hot_tea", [Requirement("milk", 50), Requirement("water", 50), Requirement("tea", 10)])]
  }

  function TeaStock(tea: int): Stock {
    map["milk" := 500, "water" := 500, "tea" := tea]
  }

  /** One hot tea takes 50 of milk, 50 of water and 10 of tea. */
  lemma HotTeaDebit(milk: int, water: int, tea: int)
    ensures Debit(map["milk" := milk, "water" := water, "tea" := tea], HotTeaRecipes()["hot_tea"].ingredients) ==
      map["milk" := milk - 50, "water" := water - 50, "tea" := tea - 10]
  {
    var stock := map["milk" := milk, "water" := water, "tea" := tea];
    var required := HotTeaRecipes()["hot_tea"].ingredients;
    DebitTakesEachQuantityOnce(stock, required);
    assert required[0].ingredient == "milk" && required[1].ingredient == "water" && required[2].ingredient == "tea";
  }

  /** A run of one request is that request's step. */
  lemma RunOfOne(stock: Stock, recipes: map<string, BeverageFormula>, request: Request)
    ensures Run(stock, recipes, [request]) == (Step(stock, recipes, request).1, [Step(stock, recipes, request).0])
  {
    assert [request][..0] == [];
    assert [] + [Step(stock, recipes, request).0] == [Step(stock, recipes, request).0];
  }

  /** The text of the shortage message when only tea is missing. */
  lemma TeaShortageText()
    ensures ShortageMessage("hot_tea", ["tea"]) == "hot_tea cannot be prepared because [tea] is not available"
  {
    assert ListToString(["tea"]) == "[tea]";
    assert "hot_tea" + " cannot be prepared because " == "hot_tea cannot be prepared because ";
    assert "hot_tea cannot be prepared because " + "[tea]" == "hot_tea cannot be prepared because [tea]";
    assert "hot_tea cannot be prepared because [tea]" + " " == "hot_tea cannot be prepared because [tea] ";
    assert "hot_tea cannot be prepared because [tea] " + "is" == "hot_tea cannot be prepared because [tea] is";
    assert "hot_tea cannot be prepared because [tea] is" + " not available" == "hot_tea cannot be prepared because [tea] is not available";
  }

  /** With only 5 of tea, two prepares both report tea missing, in the singular, and the stock
      is left as it was. */
  lemma TeaShortTwice()
    ensures Run(TeaStock(5), HotTeaRecipes(), [Prepare("hot_tea"), Prepare("hot_tea")]) ==
      (TeaStock(5), [Error("hot_tea cannot be prepared because [tea] is not available"),
                     Error("hot_tea cannot be prepared because [tea] is not available")])
  {
    var recipes := HotTeaRecipes();
    var required := recipes["hot_tea"].ingredients;
    var message := "hot_tea cannot be prepared because [tea] is not available";
    assert required[..2][..1][..0] == [] && required[..2][..1] == [required[0]] && required[..2] == [required[0], required[1]];
    assert Shortfall(TeaStock(5), required) == ["tea"];
    TeaShortageText();
    assert Dispense(TeaStock(5), recipes, "hot_tea") == (Error(message), TeaStock(5));
    RunOfOne(TeaStock(5), recipes, Prepare("hot_tea"));
    var requests := [Prepare("hot_tea"), Prepare("hot_tea")];
    assert requests[..1] == [Prepare("hot_tea")];
    assert [Error(message)] + [Error(message)] == [Error(message), Error(message)];
  }

  /** With 100 of tea, one prepare succeeds and takes the recipe from each ingredient. */
  lemma HotTeaPrepared()
    ensures Run(TeaStock(100), HotTeaRecipes(), [Prepare("hot_tea")]) ==
      (map["milk" := 450, "water" := 450, "tea" := 90], [Success("hot_tea is prepared")])
  {
    var recipes := HotTeaRecipes();
    HotTeaFrom(500, 500, 100);
    RunOfOne(TeaStock(100), recipes, Prepare("hot_tea"));
  }

  /** With at least a recipe's worth of each ingredient, nothing is missing for a hot tea. */
  lemma HotTeaAvailable(milk: int, water: int, tea: int)
    requires milk >= 50 && water >= 50 && tea >= 10
    ensures Shortfall(map["milk" := milk, "water" := water, "tea" := tea], HotTeaRecipes()["hot_tea"].ingredients) == []
  {
    var required := HotTeaRecipes()["hot_tea"].ingredients;
    assert required[0].ingredient == "milk" && required[1].ingredient == "water" && required[2].ingredient == "tea";
  }

  /** Refilling an ingredient the machine has no entry for creates the entry. */
  lemma SugarRefilled()
    ensures Step(TeaStock(100), HotTeaRecipes(), Request.Refill("sugar", 50)) ==
      (Success("Refill successful"), map["milk" := 500, "water" := 500, "tea" := 100, "sugar" := 50])
  {
  }

  /** A hot tea from enough of each ingredient is prepared and takes its recipe. */
  lemma HotTeaFrom(milk: int, water: int, tea: int)
    requires milk >= 50 && water >= 50 && tea >= 10
    ensures Dispense(map["milk" := milk, "water" := water, "tea" := tea], HotTeaRecipes(), "hot_tea") ==
      (Success("hot_tea is prepared"), map["milk" := milk - 50, "water" := water - 50, "tea" := tea - 10])
  {
    HotTeaAvailable(milk, water, tea);
    HotTeaDebit(milk, water, tea);
    assert "hot_tea" + " is prepared" == "hot_tea is prepared";
  }

  /** Two hot teas in a row from 100 of tea: both succeed and leave 80 of tea. */
  lemma TwoHotTeas()
    ensures var ok := Success("hot_tea is prepared");
      Run(TeaStock(100), HotTeaRecipes(), [Prepare("hot_tea"), Prepare("hot_tea")]) ==
        (map["milk" := 400, "water" := 400, "tea" := 80], [ok, ok])
  {
    var prepare := Prepare("hot_tea");
    var ok := Success("hot_tea is prepared");
    HotTeaPrepared();
    HotTeaFrom(450, 450, 90);
    RunOneMore(TeaStock(100), HotTeaRecipes(), [prepare], prepare);
    assert [prepare] + [prepare] == [prepare, prepare] && [ok] + [ok] == [ok, ok];
  }

  /** Three hot teas in a row from 100 of tea: each succeeds and the last leaves 70 of tea. */
  lemma ThreeHotTeas()
    ensures var ok := Success("hot_tea is prepared");
      Run(TeaStock(100), HotTeaRecipes(), [Prepare("hot_tea"), Prepare("hot_tea"), Prepare("hot_tea")]) ==
        (map["milk" := 350, "water" := 350, "tea" := 70], [ok, ok, ok])
  {
    var prepare := Prepare("hot_tea");
    var ok := Success("hot_tea is prepared");
    TwoHotTeas();
    HotTeaFrom(400, 400, 80);
    RunOneMore(TeaStock(100), HotTeaRecipes(), [prepare, prepare], prepare);
    assert [prepare, prepare] + [prepare] == [prepare, prepare, prepare] && [ok, ok] + [ok] == [ok, ok, ok];
  }

  /** A run over one more request is one more step after the run before it. */
  lemma RunOneMore(stock: Stock, recipes: map<string, BeverageFormula>, requests: seq<Request>, request: Request)
    ensures var (before, responses) := Run(stock, recipes, requests);
      var (response, after) := Step(before, recipes, request);
      Run(stock, recipes, requests + [request]) == (after, responses + [response])
  {
    assert (requests + [request])[..|requests|] == requests;
  }

  /** A batch of three hot teas run in the order third, first, second, with the second slot
      stalled: three responses come back in request order, the stalled one as the generic
      error, and its prepare still takes its ingredients. */
  lemma StalledSlotInBatch()
    ensures Batch(TeaStock(100), HotTeaRecipes(), ["hot_tea", "hot_tea", "hot_tea"], [2, 0, 1], {1}) ==
      (map["milk" := 350, "water" := 350, "tea" := 70],
       [Success("hot_tea is prepared"), Error(GenericFailureMessage), Success("hot_tea is prepared")])
  {
    var prepare := Prepare("hot_tea");
    assert Scheduled(["hot_tea", "hot_tea", "hot_tea"], [2, 0, 1]) == [prepare, prepare, prepare];
    ThreeHotTeas();
    BatchSlots();
  }

  /** The slots of the three-tea batch after its runs, in request order. */
  lemma BatchSlots()
    ensures var ok := Success("hot_tea is prepared");
      Collect(SlotResults([2, 0, 1], [ok, ok, ok], 3), {1}) == [ok, Error(GenericFailureMessage), ok]
  {
    var ok := Success("hot_tea is prepared");
    SlotResultsInRequestOrder([2, 0, 1], [ok, ok, ok], 3);
    var slots := SlotResults([2, 0, 1], [ok, ok, ok], 3);
    assert slots[2] == ok && slots[0] == ok && slots[1] == ok;
  }
}
