/** The command front end: the tokenizer, the command classification, the batch of drinks and
    the loop over the commands of a session. */
module Entry {
  import opened Responses
  import opened Formulas
  import opened Inventory
  import opened Operator
  import opened JavaText
  import opened Sequences

  const CommandDrink := "drink"
  const CommandRefill := "refill"
  const GenericFailureMessage := "Something went wrong. Please try again after some time."
  const UnknownCommandPrefix := "Unknown command! :"
  /** What a slot that timed out prints before its generic error: the diagnostic prefix and the
      text of a `TimeoutException` without a message. */
  const TimeoutDiagnostic := "Error while getting value from future object java.util.concurrent.TimeoutException"

  datatype Option<T> = None | Some(value: T)

  // ---------------------------------------------------------------------------------------
  // Tokenizer

  /** The fields trimmed, with those left blank dropped, in their original order. Each word is
      non-blank, and neither its first nor its last character is one trimming removes. */
  function ValidWords(fields: seq<string>): (words: seq<string>)
    ensures |words| <= |fields|
    ensures forall k :: 0 <= k < |words| ==> !IsBlank(words[k]) && words[k] != [] && TrimmedEnds(words[k])
    decreases |fields|
  {
    if fields == [] then []
    else
      var n := |fields| - 1;
      var word := Trim(fields[n]);
      assert !IsBlank(word) ==> word != [];
      ValidWords(fields[..n]) + if IsBlank(word) then [] else [word]
  }

  /** Which fields give a word: those that do not trim to a blank string. */
  ghost function NonBlankFields(fields: seq<string>): (keep: seq<bool>)
    ensures |keep| == |fields|
    ensures forall j :: 0 <= j < |fields| ==> keep[j] == !IsBlank(Trim(fields[j]))
  {
    seq(|fields|, j requires 0 <= j < |fields| => !IsBlank(Trim(fields[j])))
  }

  /** Every field, trimmed. */
  ghost function TrimmedFields(fields: seq<string>): seq<string> {
    seq(|fields|, j requires 0 <= j < |fields| => Trim(fields[j]))
  }

  /** The words are the trimmed fields kept by the non-blank mask. */
  lemma {:induction false} ValidWordsAreKept(fields: seq<string>)
    ensures ValidWords(fields) == Kept(TrimmedFields(fields), NonBlankFields(fields))
    decreases |fields|
  {
    if fields != [] {
      var n := |fields| - 1;
      ValidWordsAreKept(fields[..n]);
      FieldMasksPrefix(fields, n);
    }
  }

  lemma FieldMasksPrefix(fields: seq<string>, n: nat)
    requires n <= |fields|
    ensures TrimmedFields(fields)[..n] == TrimmedFields(fields[..n])
    ensures NonBlankFields(fields)[..n] == NonBlankFields(fields[..n])
  {
    forall j | 0 <= j < n
      ensures TrimmedFields(fields)[..n][j] == TrimmedFields(fields[..n])[j]
      ensures NonBlankFields(fields)[..n][j] == NonBlankFields(fields[..n])[j]
    {
      assert fields[..n][j] == fields[j];
    }
  }

  /** The words are exactly the trimmed non-blank fields, in field order: `pos` lists the fields
      the words come from, and a field is among them exactly when it does not trim to a blank
      string. Repeated fields give repeated words. */
  lemma ValidWordsPositions(fields: seq<string>) returns (pos: seq<nat>)
    ensures IncreasingIndices(pos, |fields|)
    ensures |pos| == |ValidWords(fields)|
    ensures forall k :: 0 <= k < |pos| ==> ValidWords(fields)[k] == Trim(fields[pos[k]])
    ensures forall j :: 0 <= j < |fields| ==> (j in pos <==> !IsBlank(Trim(fields[j])))
  {
    pos := Selected(NonBlankFields(fields));
    SelectedExactly(NonBlankFields(fields));
    ValidWordsAtSelected(fields);
  }

  /** The `k`-th word is the trim of the `k`-th field that does not trim to a blank string. */
  lemma ValidWordsAtSelected(fields: seq<string>)
    ensures |Selected(NonBlankFields(fields))| == |ValidWords(fields)|
    ensures forall k :: 0 <= k < |ValidWords(fields)| ==>
      Selected(NonBlankFields(fields))[k] < |fields| &&
      ValidWords(fields)[k] == Trim(fields[Selected(NonBlankFields(fields))[k]])
  {
    var keep := NonBlankFields(fields);
    var trimmed := TrimmedFields(fields);
    var words := ValidWords(fields);
    KeptAtSelected(trimmed, keep);
    ValidWordsAreKept(fields);
    forall k | 0 <= k < |words| ensures Selected(keep)[k] < |fields| && words[k] == Trim(fields[Selected(keep)[k]]) {
      assert words[k] == trimmed[Selected(keep)[k]];
    }
  }

  /** A command line split on commas, each field trimmed, blank fields dropped. */
  function TrimToValidWords(line: string): (words: seq<string>)
    ensures forall k :: 0 <= k < |words| ==> !IsBlank(words[k]) && words[k] != [] && TrimmedEnds(words[k])
  {
    ValidWords(JavaSplit(line, ','))
  }

  /** With no separator, the split is the whole string. */
  lemma {:induction false} SplitWithoutSeparator(s: string, sep: char)
    requires sep !in s
    ensures Split(s, sep) == [s]
    decreases |s|
  {
    if s != [] {
      SplitWithoutSeparator(s[1..], sep);
      assert [s[0]] + s[1..] == s;
    }
  }

  /** Blank fields at the end make no difference once blank words are dropped. */
  lemma {:induction false} TrailingEmptyInvisible(fields: seq<string>)
    ensures ValidWords(DropTrailingEmpty(fields)) == ValidWords(fields)
    decreases |fields|
  {
    if fields != [] && fields[|fields| - 1] == "" {
      var n := |fields| - 1;
      TrailingEmptyInvisible(fields[..n]);
      assert Trim(fields[n]) == "";
    }
  }

  /** Java's removal of trailing empty fields and its whole-string result for a line without a
      comma do not change the words: they are those of the plain comma split. */
  lemma WordsOfPlainSplit(line: string)
    ensures TrimToValidWords(line) == ValidWords(Split(line, ','))
  {
    if ',' !in line {
      SplitWithoutSeparator(line, ',');
    } else {
      TrailingEmptyInvisible(Split(line, ','));
    }
  }

  /** The words of a line are its comma-separated fields, trimmed, in order, with exactly the
      blank ones left out: the fields joined by commas give back the line, `pos` lists the field
      each word comes from, and a field is listed exactly when it trims to a non-blank word. */
  lemma WordsFollowFields(line: string) returns (fields: seq<string>, pos: seq<nat>)
    ensures Join(fields, ",") == line && forall k :: 0 <= k < |fields| ==> ',' !in fields[k]
    ensures IncreasingIndices(pos, |fields|)
    ensures |pos| == |TrimToValidWords(line)|
    ensures forall k :: 0 <= k < |pos| ==> TrimToValidWords(line)[k] == Trim(fields[pos[k]])
    ensures forall j :: 0 <= j < |fields| ==> (j in pos <==> !IsBlank(Trim(fields[j])))
  {
    fields := Split(line, ',');
    SplitRoundTrip(line, ',');
    WordsOfPlainSplit(line);
    pos := ValidWordsPositions(fields);
  }

  /** The word lists that are not empty, in their original order. */
  function NonEmptyOnly(wordLists: seq<seq<string>>): (kept: seq<seq<string>>)
    ensures |kept| <= |wordLists|
    ensures forall k :: 0 <= k < |kept| ==> kept[k] != []
    decreases |wordLists|
  {
    if wordLists == [] then []
    else
      var n := |wordLists| - 1;
      NonEmptyOnly(wordLists[..n]) + if wordLists[n] == [] then [] else [wordLists[n]]
  }

  /** Which word lists are kept: the non-empty ones. */
  ghost function NonEmptyLists(wordLists: seq<seq<string>>): (keep: seq<bool>)
    ensures |keep| == |wordLists|
    ensures forall j :: 0 <= j < |wordLists| ==> keep[j] == (wordLists[j] != [])
  {
    seq(|wordLists|, j requires 0 <= j < |wordLists| => wordLists[j] != [])
  }

  /** The filter keeps the lists flagged by the non-empty mask. */
  lemma {:induction false} NonEmptyOnlyIsKept(wordLists: seq<seq<string>>)
    ensures NonEmptyOnly(wordLists) == Kept(wordLists, NonEmptyLists(wordLists))
    decreases |wordLists|
  {
    if wordLists != [] {
      var n := |wordLists| - 1;
      NonEmptyOnlyIsKept(wordLists[..n]);
      assert NonEmptyLists(wordLists)[..n] == NonEmptyLists(wordLists[..n]);
    }
  }

  /** The filter keeps exactly the non-empty lists, each at its own position, in order: `pos`
      lists the positions kept, and a position is kept exactly when its list is non-empty. */
  lemma NonEmptyOnlyPositions(wordLists: seq<seq<string>>) returns (pos: seq<nat>)
    ensures IncreasingIndices(pos, |wordLists|)
    ensures |pos| == |NonEmptyOnly(wordLists)|
    ensures forall k :: 0 <= k < |pos| ==> NonEmptyOnly(wordLists)[k] == wordLists[pos[k]]
    ensures forall j :: 0 <= j < |wordLists| ==> (j in pos <==> wordLists[j] != [])
  {
    pos := Selected(NonEmptyLists(wordLists));
    SelectedExactly(NonEmptyLists(wordLists));
    KeptAtSelected(wordLists, NonEmptyLists(wordLists));
    NonEmptyOnlyIsKept(wordLists);
  }

  /** The words of each line. */
  function WordsOfLines(lines: seq<string>): (wordLists: seq<seq<string>>)
    ensures |wordLists| == |lines|
    ensures forall j :: 0 <= j < |lines| ==> wordLists[j] == TrimToValidWords(lines[j])
  {
    seq(|lines|, j requires 0 <= j < |lines| => TrimToValidWords(lines[j]))
  }

  /** The commands of a session: the words of each line, with the lines that have none
      dropped. Every command has at least one word, and every line with words gives one. */
  function Commands(lines: seq<string>): (commands: seq<seq<string>>)
    ensures |commands| <= |lines|
    ensures forall k :: 0 <= k < |commands| ==> commands[k] != []
  {
    NonEmptyOnly(WordsOfLines(lines))
  }

  /** The commands are the word lists of the lines, in line order, one for each line with at
      least one word and none for the others: `pos` lists the lines that give a command.
      Repeated lines give repeated commands. */
  lemma CommandsFollowLines(lines: seq<string>) returns (pos: seq<nat>)
    ensures IncreasingIndices(pos, |lines|)
    ensures |pos| == |Commands(lines)|
    ensures forall k :: 0 <= k < |pos| ==> Commands(lines)[k] == TrimToValidWords(lines[pos[k]])
    ensures forall j :: 0 <= j < |lines| ==> (j in pos <==> TrimToValidWords(lines[j]) != [])
  {
    pos := NonEmptyOnlyPositions(WordsOfLines(lines));
  }

  // ---------------------------------------------------------------------------------------
  // Command classification

  datatype Command =
    | DrinkCommand(beverages: seq<string>)
    | RefillCommand(ingredient: string, quantityText: string)
    | UnknownCommand(words: seq<string>)

  /** A drink request needs "drink" and at least one beverage; a refill needs "refill" and
      exactly an ingredient and a quantity; anything else is unknown. */
  function Classify(command: seq<string>): (c: Command)
    requires command != []
    ensures c.DrinkCommand? <==> command[0] == CommandDrink && |command| > 1
    ensures c.RefillCommand? <==> command[0] == CommandRefill && |command| == 3
    ensures c.DrinkCommand? ==> c.beverages == command[1..]
    ensures c.RefillCommand? ==> c.ingredient == command[1] && c.quantityText == command[2]
    ensures c.UnknownCommand? ==> c.words == command
  {
    if command[0] == CommandDrink && |command| > 1 then DrinkCommand(command[1..])
    else if command[0] == CommandRefill && |command| == 3 then RefillCommand(command[1], command[2])
    else UnknownCommand(command)
  }

  // ---------------------------------------------------------------------------------------
  // A batch of drinks

  /** `order` runs every one of `n` slots exactly once. */
  predicate IsSchedule(order: seq<nat>, n: nat) {
    && |order| == n
    && (forall k :: 0 <= k < n ==> order[k] < n)
    && (forall k, l :: 0 <= k < l < n ==> order[k] != order[l])
  }

  /** The slots below `n`. */
  ghost function SlotsBelow(n: nat): (slots: set<nat>)
    ensures forall i: nat :: i in slots <==> i < n
    ensures |slots| == n
  {
    if n == 0 then {} else SlotsBelow(n - 1) + {n - 1}
  }

  /** Distinct values drawn from `pool` are at most as many as `pool` holds. */
  lemma {:induction false} DistinctWithin(s: seq<nat>, pool: set<nat>)
    requires forall k :: 0 <= k < |s| ==> s[k] in pool
    requires forall k, l :: 0 <= k < l < |s| ==> s[k] != s[l]
    ensures |s| <= |pool|
  {
    if s != [] {
      var last := s[|s| - 1];
      DistinctWithin(s[..|s| - 1], pool - {last});
    }
  }

  /** A schedule of `n` slots runs every slot: no slot is left out. */
  lemma ScheduleCoversEverySlot(order: seq<nat>, n: nat)
    requires IsSchedule(order, n)
    ensures forall i: nat :: i < n ==> i in order
  {
    forall i: nat | i < n
      ensures i in order
    {
      if i !in order {
        DistinctWithin(order, SlotsBelow(n) - {i});
        assert false;
      }
    }
  }

  /** The prepare requests of a batch in the order they run. */
  function Scheduled(beverages: seq<string>, order: seq<nat>): (requests: seq<Request>)
    requires forall k :: 0 <= k < |order| ==> order[k] < |beverages|
    ensures |requests| == |order|
    ensures forall k :: 0 <= k < |order| ==> requests[k] == Prepare(beverages[order[k]])
  {
    seq(|order|, k requires 0 <= k < |order| => Prepare(beverages[order[k]]))
  }

  /** The response waiting in each of `n` slots once the runs listed in `order` have finished;
      a slot no run has filled holds the generic error. */
  function SlotResults(order: seq<nat>, ran: seq<Response>, n: nat): (slots: seq<Response>)
    requires |ran| == |order| && forall k :: 0 <= k < |order| ==> order[k] < n
    ensures |slots| == n
    decreases |order|
  {
    if order == [] then seq(n, _ => Error(GenericFailureMessage))
    else
      var m := |order| - 1;
      SlotResults(order[..m], ran[..m], n)[order[m] := ran[m]]
  }

  /** Each slot holds the response of its own run, whatever the order of the runs. */
  lemma {:induction false} SlotResultsInRequestOrder(order: seq<nat>, ran: seq<Response>, n: nat)
    requires |ran| == |order| && forall k :: 0 <= k < |order| ==> order[k] < n
    requires forall k, l :: 0 <= k < l < |order| ==> order[k] != order[l]
    ensures forall k :: 0 <= k < |order| ==> SlotResults(order, ran, n)[order[k]] == ran[k]
    decreases |order|
  {
    if order != [] {
      var m := |order| - 1;
      SlotResultsInRequestOrder(order[..m], ran[..m], n);
      forall k | 0 <= k < m ensures SlotResults(order, ran, n)[order[k]] == ran[k] {
        assert order[..m][k] == order[k] && ran[..m][k] == ran[k];
      }
    }
  }

  /** The reported responses in request order: a slot that timed out reports the generic error. */
  function Collect(slots: seq<Response>, timedOut: set<nat>): (responses: seq<Response>)
    ensures |responses| == |slots|
    ensures forall i :: 0 <= i < |slots| ==>
      responses[i] == if i in timedOut then Error(GenericFailureMessage) else slots[i]
  {
    seq(|slots|, i requires 0 <= i < |slots| => if i in timedOut then Error(GenericFailureMessage) else slots[i])
  }

  /** What a batch reports and leaves: the prepares run atomically in the order `schedule`, and
      the responses are collected per requested beverage. */
  function Batch(stock: Stock, recipes: map<string, BeverageFormula>, beverages: seq<string>, schedule: seq<nat>, timedOut: set<nat>): (outcome: (Stock, seq<Response>))
    requires IsSchedule(schedule, |beverages|)
    ensures |outcome.1| == |beverages|
    ensures forall i :: 0 <= i < |beverages| && i in timedOut ==> outcome.1[i] == Error(GenericFailureMessage)
  {
    var (after, ran) := Run(stock, recipes, Scheduled(beverages, schedule));
    (after, Collect(SlotResults(schedule, ran, |beverages|), timedOut))
  }

  /** A batch reports one response per requested beverage, in request order: the generic error
      for a slot that timed out, otherwise the response that beverage's own prepare gave on the
      stock left by the prepares that ran before it. */
  lemma BatchRespondsPerRequest(stock: Stock, recipes: map<string, BeverageFormula>, beverages: seq<string>, schedule: seq<nat>, timedOut: set<nat>)
    requires IsSchedule(schedule, |beverages|)
    ensures |Batch(stock, recipes, beverages, schedule, timedOut).1| == |beverages|
    ensures forall k :: 0 <= k < |schedule| ==>
      Batch(stock, recipes, beverages, schedule, timedOut).1[schedule[k]] ==
        if schedule[k] in timedOut then Error(GenericFailureMessage)
        else Dispense(Run(stock, recipes, Scheduled(beverages, schedule)[..k]).0, recipes, beverages[schedule[k]]).0
    ensures forall i: nat :: i < |beverages| ==> i in schedule
  {
    ScheduleCoversEverySlot(schedule, |beverages|);
    var requests := Scheduled(beverages, schedule);
    var ran := Run(stock, recipes, requests).1;
    SlotResultsInRequestOrder(schedule, ran, |beverages|);
    forall k | 0 <= k < |schedule|
      ensures ran[k] == Dispense(Run(stock, recipes, requests[..k]).0, recipes, beverages[schedule[k]]).0
    {
      RunResponseAt(stock, recipes, requests, k);
    }
  }

  /** Running one more scheduled prepare is one more step after the run so far. */
  lemma ScheduledRunStep(stock: Stock, recipes: map<string, BeverageFormula>, beverages: seq<string>, schedule: seq<nat>, k: nat)
    requires forall j :: 0 <= j < |schedule| ==> schedule[j] < |beverages|
    requires k < |schedule|
    ensures var before := Run(stock, recipes, Scheduled(beverages, schedule[..k]));
      var (response, after) := Step(before.0, recipes, Prepare(beverages[schedule[k]]));
      Run(stock, recipes, Scheduled(beverages, schedule[..k + 1])) == (after, before.1 + [response])
  {
    var requests := Scheduled(beverages, schedule[..k + 1]);
    assert requests[..k] == Scheduled(beverages, schedule[..k]);
  }

  /** Recording one more run puts its response in the slot of its request. */
  lemma SlotResultsStep(schedule: seq<nat>, ran: seq<Response>, n: nat, k: nat)
    requires forall j :: 0 <= j < |schedule| ==> schedule[j] < n
    requires k < |schedule| && |ran| == k + 1
    ensures SlotResults(schedule[..k + 1], ran, n) == SlotResults(schedule[..k], ran[..k], n)[schedule[k] := ran[k]]
  {
    assert schedule[..k + 1][..k] == schedule[..k];
  }

  /** Runs the prepares of a batch in the order `schedule` and puts each response in its slot. */
  method RunScheduled(operator: CoffeeMachineOperator, beverages: seq<string>, schedule: seq<nat>)
    returns (slots: seq<Response>, ghost ran: seq<Response>)
    requires IsSchedule(schedule, |beverages|)
    modifies operator.coffeeMachine.ingredientCapacity
    ensures (operator.coffeeMachine.ingredientCapacity.ingredients, ran) ==
      Run(old(operator.coffeeMachine.ingredientCapacity.ingredients), operator.coffeeMachine.availableBeverages, Scheduled(beverages, schedule))
    ensures slots == SlotResults(schedule, ran, |beverages|)
  {
    var capacity := operator.coffeeMachine.ingredientCapacity;
    var recipes := operator.coffeeMachine.availableBeverages;
    ghost var initial := capacity.ingredients;
    slots := seq(|beverages|, _ => Error(GenericFailureMessage));
    ran := [];
    var k := 0;
    while k < |schedule|
      invariant 0 <= k <= |schedule|
      invariant (capacity.ingredients, ran) == Run(initial, recipes, Scheduled(beverages, schedule[..k]))
      invariant slots == SlotResults(schedule[..k], ran, |beverages|)
    {
      ScheduledRunStep(initial, recipes, beverages, schedule, k);
      var response := operator.PrepareDrink(beverages[schedule[k]]);
      SlotResultsStep(schedule, ran + [response], |beverages|, k);
      assert (ran + [response])[..k] == ran;
      slots := slots[schedule[k] := response];
      ran := ran + [response];
      k := k + 1;
    }
    assert schedule[..k] == schedule;
  }

  /** Gathers the responses in request order, the generic error standing in for every slot in
      `timedOut`. */
  method CollectResponses(slots: seq<Response>, timedOut: set<nat>) returns (responses: seq<Response>)
    ensures responses == Collect(slots, timedOut)
  {
    responses := [];
    var i := 0;
    while i < |slots|
      invariant 0 <= i <= |slots|
      invariant |responses| == i
      invariant forall j :: 0 <= j < i ==> responses[j] == if j in timedOut then Error(GenericFailureMessage) else slots[j]
    {
      var response := if i in timedOut then Error(GenericFailureMessage) else slots[i];
      responses := responses + [response];
      i := i + 1;
    }
  }

  /** Runs a batch of drink requests: every beverage is prepared, in the order `schedule`, and
      the responses are collected in request order, with the generic error for each slot in
      `timedOut`. */
  method MakeBeverages(operator: CoffeeMachineOperator, beverages: seq<string>, schedule: seq<nat>, timedOut: set<nat>)
    returns (responses: seq<Response>)
    requires IsSchedule(schedule, |beverages|)
    modifies operator.coffeeMachine.ingredientCapacity
    ensures (operator.coffeeMachine.ingredientCapacity.ingredients, responses) ==
      Batch(old(operator.coffeeMachine.ingredientCapacity.ingredients), operator.coffeeMachine.availableBeverages, beverages, schedule, timedOut)
  {
    var slots, ran := RunScheduled(operator, beverages, schedule);
    responses := CollectResponses(slots, timedOut);
  }

  // ---------------------------------------------------------------------------------------
  // A session of commands

  /** What the caller decides about one drink command: the order its prepares run in and the
      slots whose responses are not collected in time. */
  datatype Environment = Environment(schedule: seq<nat>, timedOut: set<nat>)

  /** The stock, the lines printed so far, and whether a refill quantity failed to parse (the
      exception that ends the session). */
  datatype SessionState = SessionState(stock: Stock, output: seq<string>, halted: bool)

  predicate EnvironmentFits(command: seq<string>, env: Environment)
    requires command != []
  {
    Classify(command).DrinkCommand? ==> IsSchedule(env.schedule, |Classify(command).beverages|)
  }

  predicate SessionFits(commands: seq<seq<string>>, envs: seq<Environment>) {
    |envs| == |commands| && forall k :: 0 <= k < |commands| ==> commands[k] != [] && EnvironmentFits(commands[k], envs[k])
  }

  /** The lines a batch prints, slot by slot in request order: the timeout diagnostic for a
      slot in `timedOut`, then the slot's message. */
  function BatchOutput(responses: seq<Response>, timedOut: set<nat>): (lines: seq<string>)
    ensures |responses| <= |lines| <= 2 * |responses|
    ensures (forall i :: 0 <= i < |responses| ==> i !in timedOut) ==>
      |lines| == |responses| && forall i :: 0 <= i < |responses| ==> lines[i] == responses[i].message
    decreases |responses|
  {
    if responses == [] then []
    else
      var n := |responses| - 1;
      var before := BatchOutput(responses[..n], timedOut);
      before + (if n in timedOut then [TimeoutDiagnostic] else []) + [responses[n].message]
  }

  /** How many of the slots below `n` timed out. */
  function TimedOutBelow(timedOut: set<nat>, n: nat): (count: nat)
    ensures count <= n
  {
    if n == 0 then 0 else TimedOutBelow(timedOut, n - 1) + if n - 1 in timedOut then 1 else 0
  }

  /** The line of a batch's output that holds slot `i`'s message: one line for each earlier
      slot's message and one for each diagnostic up to and including slot `i`'s. */
  function MessageLine(timedOut: set<nat>, i: nat): (line: nat)
    ensures i <= line <= 2 * i + 1
    ensures i in timedOut ==> i + 1 <= line
  {
    i + TimedOutBelow(timedOut, i + 1)
  }

  /** The first message is line 0, or line 1 after a diagnostic; each further message is the
      line after the previous one, or two lines on when a diagnostic comes between them. */
  lemma MessageLinesAdvance(timedOut: set<nat>, i: nat)
    ensures MessageLine(timedOut, 0) == if 0 in timedOut then 1 else 0
    ensures MessageLine(timedOut, i + 1) == MessageLine(timedOut, i) + if i + 1 in timedOut then 2 else 1
  {
  }

  /** Where each line of a batch's output sits: slot `i`'s message is on line
      `MessageLine(timedOut, i)`, the line just before it is the timeout diagnostic when slot
      `i` timed out, and there are no lines besides these. */
  lemma BatchOutputLayout(responses: seq<Response>, timedOut: set<nat>)
    ensures |BatchOutput(responses, timedOut)| == |responses| + TimedOutBelow(timedOut, |responses|)
    ensures forall i :: 0 <= i < |responses| ==>
      MessageLine(timedOut, i) < |BatchOutput(responses, timedOut)| &&
      BatchOutput(responses, timedOut)[MessageLine(timedOut, i)] == responses[i].message
    ensures forall i :: 0 <= i < |responses| && i in timedOut ==>
      BatchOutput(responses, timedOut)[MessageLine(timedOut, i) - 1] == TimeoutDiagnostic
  {
    BatchOutputLength(responses, timedOut);
    BatchMessageLines(responses, timedOut);
    BatchDiagnosticLines(responses, timedOut);
  }

  lemma {:induction false} BatchOutputLength(responses: seq<Response>, timedOut: set<nat>)
    ensures |BatchOutput(responses, timedOut)| == |responses| + TimedOutBelow(timedOut, |responses|)
    decreases |responses|
  {
    if responses != [] {
      BatchOutputLength(responses[..|responses| - 1], timedOut);
    }
  }

  /** Slot `i`'s message is on line `MessageLine(timedOut, i)`. */
  lemma {:induction false} BatchMessageLines(responses: seq<Response>, timedOut: set<nat>)
    ensures forall i :: 0 <= i < |responses| ==>
      MessageLine(timedOut, i) < |BatchOutput(responses, timedOut)| &&
      BatchOutput(responses, timedOut)[MessageLine(timedOut, i)] == responses[i].message
    decreases |responses|
  {
    if responses != [] {
      var n := |responses| - 1;
      BatchMessageLines(responses[..n], timedOut);
      BatchOutputLength(responses[..n], timedOut);
      BatchOutputGrows(responses, timedOut);
      var lines := BatchOutput(responses, timedOut);
      var before := BatchOutput(responses[..n], timedOut);
      forall i | 0 <= i < n
        ensures MessageLine(timedOut, i) < |lines| && lines[MessageLine(timedOut, i)] == responses[i].message
      {
        var line := MessageLine(timedOut, i);
        assert line < |before| && before[line] == responses[..n][i].message;
        assert responses[..n][i] == responses[i];
        assert lines[..|before|][line] == before[line];
      }
    }
  }

  /** The line before a timed-out slot's message is the timeout diagnostic. */
  lemma {:induction false} BatchDiagnosticLines(responses: seq<Response>, timedOut: set<nat>)
    ensures forall i :: 0 <= i < |responses| && i in timedOut ==>
      MessageLine(timedOut, i) - 1 < |BatchOutput(responses, timedOut)| &&
      BatchOutput(responses, timedOut)[MessageLine(timedOut, i) - 1] == TimeoutDiagnostic
    decreases |responses|
  {
    if responses != [] {
      var n := |responses| - 1;
      BatchDiagnosticLines(responses[..n], timedOut);
      BatchOutputLength(responses[..n], timedOut);
      BatchOutputGrows(responses, timedOut);
      var lines := BatchOutput(responses, timedOut);
      var before := BatchOutput(responses[..n], timedOut);
      forall i | 0 <= i < n && i in timedOut
        ensures MessageLine(timedOut, i) - 1 < |lines| && lines[MessageLine(timedOut, i) - 1] == TimeoutDiagnostic
      {
        var line := MessageLine(timedOut, i) - 1;
        assert line < |before| && before[line] == TimeoutDiagnostic;
        assert lines[..|before|][line] == before[line];
      }
      if n in timedOut {
        assert MessageLine(timedOut, n) - 1 == |before| by {
          assert TimedOutBelow(timedOut, n + 1) == TimedOutBelow(timedOut, n) + 1;
        }
      }
    }
  }

  /** One more slot keeps the earlier lines and adds its diagnostic, if it timed out, and then
      its message. */
  lemma BatchOutputGrows(responses: seq<Response>, timedOut: set<nat>)
    requires responses != []
    ensures var n := |responses| - 1;
      var before := BatchOutput(responses[..n], timedOut);
      var lines := BatchOutput(responses, timedOut);
      |lines| == |before| + (if n in timedOut then 2 else 1) &&
      lines[..|before|] == before &&
      lines[|lines| - 1] == responses[n].message &&
      (n in timedOut ==> lines[|before|] == TimeoutDiagnostic)
  {
  }

  /** One command: a batch of drinks, a refill, or the unknown-command line. */
  function Execute(stock: Stock, recipes: map<string, BeverageFormula>, command: seq<string>, env: Environment, parseInt: string -> Option<int>): (r: SessionState)
    requires command != [] && EnvironmentFits(command, env)
    ensures Classify(command).DrinkCommand? ==> !r.halted && |Classify(command).beverages| <= |r.output| <= 2 * |Classify(command).beverages|
    ensures Classify(command).DrinkCommand? ==>
      r.stock == Run(stock, recipes, Scheduled(Classify(command).beverages, env.schedule)).0 &&
      r.output == BatchOutput(Batch(stock, recipes, Classify(command).beverages, env.schedule, env.timedOut).1, env.timedOut)
    ensures Classify(command).RefillCommand? ==>
      (r.halted <==> parseInt(Classify(command).quantityText).None?) &&
      (r.halted ==> r.stock == stock && r.output == [])
    ensures Classify(command).RefillCommand? && parseInt(Classify(command).quantityText).Some? ==>
      r.stock == Refilled(stock, Classify(command).ingredient, parseInt(Classify(command).quantityText).value) &&
      r.output == [RefillMessage]
    ensures Classify(command).UnknownCommand? ==>
      !r.halted && r.stock == stock && r.output == [UnknownCommandPrefix + ListToString(command)]
  {
    match Classify(command)
    case DrinkCommand(beverages) =>
      var (after, responses) := Batch(stock, recipes, beverages, env.schedule, env.timedOut);
      SessionState(after, BatchOutput(responses, env.timedOut), false)
    case RefillCommand(ingredient, quantityText) =>
      (match parseInt(quantityText)
       case None => SessionState(stock, [], true)
       case Some(quantity) =>
         var (response, after) := Step(stock, recipes, Request.Refill(ingredient, quantity));
         SessionState(after, [response.message], false))
    case UnknownCommand(words) => SessionState(stock, [UnknownCommandPrefix + ListToString(words)], false)
  }

  /** The commands run one after another until a refill quantity fails to parse. */
  function Session(stock: Stock, recipes: map<string, BeverageFormula>, commands: seq<seq<string>>, envs: seq<Environment>, parseInt: string -> Option<int>): (r: SessionState)
    requires SessionFits(commands, envs)
    ensures r.halted ==>
      exists k :: 0 <= k < |commands| && Classify(commands[k]).RefillCommand? && parseInt(Classify(commands[k]).quantityText).None?
    decreases |commands|
  {
    if commands == [] then SessionState(stock, [], false)
    else
      var n := |commands| - 1;
      assert forall k :: 0 <= k < n ==> commands[..n][k] == commands[k] && envs[..n][k] == envs[k];
      var before := Session(stock, recipes, commands[..n], envs[..n], parseInt);
      if before.halted then before
      else
        var step := Execute(before.stock, recipes, commands[n], envs[n], parseInt);
        SessionState(step.stock, before.output + step.output, step.halted)
  }

  /** Every refill quantity that parses is non-negative. */
  predicate ParsedRefillsNonNegative(commands: seq<seq<string>>, parseInt: string -> Option<int>) {
    forall k :: 0 <= k < |commands| && commands[k] != [] && Classify(commands[k]).RefillCommand? ==>
      parseInt(Classify(commands[k]).quantityText).None? || parseInt(Classify(commands[k]).quantityText).value >= 0
  }

  /** One command keeps the stock non-negative. */
  lemma ExecuteKeepsNonNegative(stock: Stock, recipes: map<string, BeverageFormula>, command: seq<string>, env: Environment, parseInt: string -> Option<int>)
    requires command != [] && EnvironmentFits(command, env)
    requires NonNegative(stock) && WellFormedRecipes(recipes)
    requires ParsedRefillsNonNegative([command], parseInt)
    ensures NonNegative(Execute(stock, recipes, command, env, parseInt).stock)
  {
    match Classify(command)
    case DrinkCommand(beverages) =>
      RunKeepsNonNegative(stock, recipes, Scheduled(beverages, env.schedule));
    case RefillCommand(ingredient, quantityText) =>
      assert [command][0] == command;
      if parseInt(quantityText).Some? {
        RefillKeepsNonNegative(stock, ingredient, parseInt(quantityText).value);
      }
    case UnknownCommand(_) =>
  }

  /** A whole session never makes a quantity negative when it starts non-negative and every
      refill quantity is non-negative. */
  lemma {:induction false} SessionKeepsNonNegative(stock: Stock, recipes: map<string, BeverageFormula>, commands: seq<seq<string>>, envs: seq<Environment>, parseInt: string -> Option<int>)
    requires SessionFits(commands, envs)
    requires NonNegative(stock) && WellFormedRecipes(recipes)
    requires ParsedRefillsNonNegative(commands, parseInt)
    ensures NonNegative(Session(stock, recipes, commands, envs, parseInt).stock)
    decreases |commands|
  {
    if commands != [] {
      var n := |commands| - 1;
      assert forall k :: 0 <= k < n ==> commands[..n][k] == commands[k] && envs[..n][k] == envs[k];
      SessionKeepsNonNegative(stock, recipes, commands[..n], envs[..n], parseInt);
      var before := Session(stock, recipes, commands[..n], envs[..n], parseInt);
      if !before.halted {
        assert [commands[n]][0] == commands[n];
        ExecuteKeepsNonNegative(before.stock, recipes, commands[n], envs[n], parseInt);
      }
    }
  }

  /** Session prefixes: the commands and environments up to `k` still fit each other. */
  lemma SessionFitsPrefix(commands: seq<seq<string>>, envs: seq<Environment>, k: nat)
    requires SessionFits(commands, envs) && k <= |commands|
    ensures SessionFits(commands[..k], envs[..k])
  {
    assert forall j :: 0 <= j < k ==> commands[..k][j] == commands[j] && envs[..k][j] == envs[j];
  }

  /** The session over one more command is the session so far followed by that command, unless
      the session so far has already halted. */
  lemma SessionStep(stock: Stock, recipes: map<string, BeverageFormula>, commands: seq<seq<string>>, envs: seq<Environment>, parseInt: string -> Option<int>, k: nat)
    requires SessionFits(commands, envs) && k < |commands|
    ensures SessionFits(commands[..k], envs[..k]) && SessionFits(commands[..k + 1], envs[..k + 1])
    ensures var before := Session(stock, recipes, commands[..k], envs[..k], parseInt);
      var after := Session(stock, recipes, commands[..k + 1], envs[..k + 1], parseInt);
      if before.halted then after == before
      else
        var step := Execute(before.stock, recipes, commands[k], envs[k], parseInt);
        after == SessionState(step.stock, before.output + step.output, step.halted)
  {
    SessionFitsPrefix(commands, envs, k);
    SessionFitsPrefix(commands, envs, k + 1);
    assert commands[..k + 1][..k] == commands[..k] && envs[..k + 1][..k] == envs[..k];
  }

  /** Once a session halts, the commands after that point change nothing. */
  lemma {:induction false} HaltedSessionIgnoresRest(stock: Stock, recipes: map<string, BeverageFormula>, commands: seq<seq<string>>, envs: seq<Environment>, parseInt: string -> Option<int>, k: nat)
    requires SessionFits(commands, envs) && k <= |commands|
    requires SessionFits(commands[..k], envs[..k])
    requires Session(stock, recipes, commands[..k], envs[..k], parseInt).halted
    ensures Session(stock, recipes, commands, envs, parseInt) == Session(stock, recipes, commands[..k], envs[..k], parseInt)
    decreases |commands|
  {
    if k < |commands| {
      var n := |commands| - 1;
      SessionFitsPrefix(commands, envs, n);
      assert commands[..n][..k] == commands[..k] && envs[..n][..k] == envs[..k];
      HaltedSessionIgnoresRest(stock, recipes, commands[..n], envs[..n], parseInt, k);
    } else {
      assert commands[..k] == commands && envs[..k] == envs;
    }
  }

  /** Runs one command: a batch of drinks through `MakeBeverages`, a refill through the
      operator, or the unknown-command line. Returns the lines printed and whether the refill
      quantity failed to parse. */
  method ExecuteCommand(operator: CoffeeMachineOperator, command: seq<string>, env: Environment, parseInt: string -> Option<int>)
    returns (lines: seq<string>, halted: bool)
    requires command != [] && EnvironmentFits(command, env)
    modifies operator.coffeeMachine.ingredientCapacity
    ensures var r := Execute(old(operator.coffeeMachine.ingredientCapacity.ingredients), operator.coffeeMachine.availableBeverages, command, env, parseInt);
      operator.coffeeMachine.ingredientCapacity.ingredients == r.stock && lines == r.output && halted == r.halted
  {
    lines, halted := [], false;
    var classified := Classify(command);
    match classified {
      case DrinkCommand(beverages) =>
        var responses := MakeBeverages(operator, beverages, env.schedule, env.timedOut);
        lines := PrintedLines(responses, env.timedOut);
      case RefillCommand(ingredient, quantityText) =>
        var parsed := parseInt(quantityText);
        match parsed {
          case None =>
            halted := true;
          case Some(quantity) =>
            var response := operator.Refill(ingredient, quantity);
            lines := [response.message];
        }
      case UnknownCommand(words) =>
        lines := [UnknownCommandPrefix + ListToString(words)];
    }
  }

  /** Prints a batch: each slot's message in request order, after the timeout diagnostic when
      the slot timed out. */
  method PrintedLines(responses: seq<Response>, timedOut: set<nat>) returns (lines: seq<string>)
    ensures lines == BatchOutput(responses, timedOut)
  {
    lines := [];
    var i := 0;
    while i < |responses|
      invariant 0 <= i <= |responses|
      invariant lines == BatchOutput(responses[..i], timedOut)
    {
      assert responses[..i + 1][..i] == responses[..i];
      if i in timedOut {
        lines := lines + [TimeoutDiagnostic];
      }
      lines := lines + [responses[i].message];
      i := i + 1;
    }
    assert responses[..i] == responses;
  }

  /** Runs the commands of the given lines in order: each drink command as a batch, each refill
      through the operator, each other command reported as unknown. A refill quantity that does
      not parse ends the run. Returns the lines printed. */
  method ProcessCommands(operator: CoffeeMachineOperator, lines: seq<string>, envs: seq<Environment>, parseInt: string -> Option<int>)
    returns (output: seq<string>, halted: bool)
    requires SessionFits(Commands(lines), envs)
    modifies operator.coffeeMachine.ingredientCapacity
    ensures var s := Session(old(operator.coffeeMachine.ingredientCapacity.ingredients), operator.coffeeMachine.availableBeverages, Commands(lines), envs, parseInt);
      operator.coffeeMachine.ingredientCapacity.ingredients == s.stock && output == s.output && halted == s.halted
  {
    var commands := Commands(lines);
    var capacity := operator.coffeeMachine.ingredientCapacity;
    var recipes := operator.coffeeMachine.availableBeverages;
    ghost var initial := capacity.ingredients;
    output, halted := [], false;
    var k := 0;
    SessionFitsPrefix(commands, envs, 0);
    while k < |commands| && !halted
      invariant 0 <= k <= |commands|
      invariant SessionFits(commands[..k], envs[..k])
      invariant var s := Session(initial, recipes, commands[..k], envs[..k], parseInt);
        capacity.ingredients == s.stock && output == s.output && halted == s.halted
    {
      SessionStep(initial, recipes, commands, envs, parseInt, k);
      var printed, stop := ExecuteCommand(operator, commands[k], envs[k], parseInt);
      output, halted := output + printed, stop;
      k := k + 1;
    }
    if halted {
      HaltedSessionIgnoresRest(initial, recipes, commands, envs, parseInt, k);
    } else {
      assert commands[..k] == commands && envs[..k] == envs;
    }
  }
}
