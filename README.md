# Coffee machine dispenser — a verified Dafny model

This project models the core of a command-line coffee machine. The machine holds a shared
inventory of ingredients and a table of beverage recipes. It reads command lines and serves
them:
- `drink, a, b, …` prepares the listed beverages concurrently, one task per beverage;
- `refill, ingredient, quantity` tops up an ingredient;
- any other line is reported as an unknown command.

Every prepare is all-or-nothing. It checks the recipe against the inventory, then either
debits every ingredient of the recipe and reports "… is prepared", or debits nothing and
reports which ingredients are missing.

The model is split by the program's own structure:

| file | module | models |
|---|---|---|
| `response.dfy` | `Responses` | the success/error result value |
| `formula.dfy` | `Formulas` | recipes: a name and its ingredient requirements |
| `ingredient_capacity.dfy` | `Inventory` | the inventory class: availability check, debit, refill and the messages |
| `operator.dfy` | `Operator` | the operator class: unknown beverages, one atomic prepare or refill at a time, runs of requests |
| `java_text.dfy` | `JavaText` | the Java library string behaviour the front end relies on: `split`, `trim`, `isBlank`, `List.toString` |
| `entry.dfy` | `Entry` | the front end: the tokenizer, command classification, the batch of drinks and the command loop |
| `sequences.dfy` | `Sequences` | positions in sequences and filtering by a mask, shared by the lemmas |
| `scenarios.dfy` | `Scenarios` | worked cases on a hot-tea machine |

The two classes whose fields change in place, the inventory and the operator, are Dafny
classes. Each of their methods is proved against a function of the old state:
- `GetUnavailableIngredients` against `Shortfall`;
- `ReduceIngredients` against `Debit`;
- `Refill` against `Refilled`;
- the operator's `PrepareDrink` against `Dispense`.

The properties of the operation are then proved about those functions. The front end's batch
and command loop are methods as well:
- `MakeBeverages` is proved against `Batch`;
- `ProcessCommands` is proved against `Session`.

Concurrency is modelled as an order. A batch's prepares run in an order (`schedule`, any
permutation of the requested slots), and each prepare is atomic, as the `synchronized` methods
make it. Some slots may fail to answer within the wait (`timedOut`). Both `schedule` and
`timedOut` are parameters, so every property of a batch holds for every order of its prepares
and every pattern of timeouts. Every prepare of a batch completes before the next command runs;
see `Entry.Batch` under "Left out".

Two behaviours of the program deserve a note:
- A refill quantity that does not parse makes `Integer.parseInt` throw. Nothing catches the
  exception, so the session ends there (`halted`), and the commands after it are not run.
- A timed-out slot's prepare is not cancelled. The slot reports the generic error, but the
  prepare still runs and may debit the inventory. `Scenarios.StalledSlotInBatch` shows this on a
  concrete batch. `Operator.RunAccountsEveryDebit` states the accounting that does hold: in the
  order the prepares ran, exactly the successful prepares debit.

## Model

| member | source | states |
|---|---|---|
| Responses.FactoriesKeepMessage | coffee-machine/src/main/java/coffeemachine/model/Response.java:15-21 | `success` sets the flag and `error` clears it, and both keep the message as given |
| Responses.EveryResponseFromOneFactory | coffee-machine/src/main/java/coffeemachine/model/Response.java:10-13 | every response is exactly a success or exactly an error carrying its message; nothing else can be built |
| Inventory.Shortfall | coffee-machine/src/main/java/coffeemachine/main/IngredientCapacity.java:45-51 | the list of unavailable ingredients is no longer than the recipe, and it is empty exactly when every requirement is present in sufficient quantity |
| Inventory.ShortfallFollowsRequirementOrder | coffee-machine/src/main/java/coffeemachine/main/IngredientCapacity.java:47-49 | each reported name is an ingredient that is absent or short, and the names come in the recipe's iteration order |
| Inventory.ShortfallMembership | coffee-machine/src/main/java/coffeemachine/main/IngredientCapacity.java:48-49 | an ingredient is reported exactly when it is absent from the stock or on hand in a smaller quantity than required |
| Inventory.IngredientCapacity.GetUnavailableIngredients | coffee-machine/src/main/java/coffeemachine/main/IngredientCapacity.java:45-51 | the loop collects exactly `Shortfall` of the current stock and changes nothing |
| Inventory.Debit | coffee-machine/src/main/java/coffeemachine/main/IngredientCapacity.java:59-62 | the debit keeps the set of ingredients of the stock |
| Inventory.DebitTakesEachQuantityOnce | coffee-machine/src/main/java/coffeemachine/main/IngredientCapacity.java:59-62 | each required ingredient loses exactly its required quantity, and every other ingredient keeps its quantity |
| Inventory.DebitKeepsNonNegative | coffee-machine/src/main/java/coffeemachine/main/IngredientCapacity.java:26-36 | a debit taken only after an empty shortfall finds every ingredient present and leaves no quantity negative |
| Inventory.IngredientCapacity.ReduceIngredients | coffee-machine/src/main/java/coffeemachine/main/IngredientCapacity.java:59-62 | the new stock is the debit of the old one by the recipe, and the response is a success with the message "success" |
| Inventory.IngredientCapacity.PrepareDrink | coffee-machine/src/main/java/coffeemachine/main/IngredientCapacity.java:26-36 | all or nothing: with nothing missing, the whole recipe is debited and "<name> is prepared" is returned; otherwise the stock is untouched and the shortage message lists the missing ingredients |
| Inventory.Refilled | coffee-machine/src/main/java/coffeemachine/main/IngredientCapacity.java:70-73 | the refilled ingredient gains the amount, starting from zero when absent; every other ingredient is unchanged; the ingredient set gains the refilled name |
| Inventory.RefillsAccumulate | coffee-machine/src/main/java/coffeemachine/main/IngredientCapacity.java:70-73 | refilling `a` and then `b` equals one refill of `a + b` |
| Inventory.RefillKeepsNonNegative | coffee-machine/src/main/java/coffeemachine/main/IngredientCapacity.java:70-73 | a non-negative refill keeps every quantity non-negative |
| Inventory.IngredientCapacity.Refill | coffee-machine/src/main/java/coffeemachine/main/IngredientCapacity.java:70-73 | the new stock is `Refilled` of the old one, and the response is "Refill successful" |
| Inventory.AddInt32 | coffee-machine/src/main/java/coffeemachine/main/IngredientCapacity.java:71 | Java `int` addition: the result lies in the 32-bit range, is congruent to the exact sum modulo 2^32, and equals the exact sum when that fits |
| Inventory.RefilledInt32 | coffee-machine/src/main/java/coffeemachine/main/IngredientCapacity.java:70-73 | the refill in 32-bit arithmetic: the ingredient set gains the name, the entry holds the wrapped sum, and other entries are unchanged |
| Inventory.RefilledInt32InRange | coffee-machine/src/main/java/coffeemachine/main/IngredientCapacity.java:71 | when the sum fits in an `int`, the 32-bit refill is the exact refill |
| Inventory.RefillInt32Overflows | coffee-machine/src/main/java/coffeemachine/main/IngredientCapacity.java:71 | refilling 1 unit of milk by 2147483647 leaves -2147483648: the stock becomes negative |
| Inventory.ShortageMessage | coffee-machine/src/main/java/coffeemachine/main/IngredientCapacity.java:30-31 | the shortage message starts with the beverage name and ends in " not available"; its partners `Inventory.ShortageMessageAgreement` and `Inventory.ShortageMessageNamesAll` give the verb and the names |
| Inventory.PreparedMessage | coffee-machine/src/main/java/coffeemachine/main/IngredientCapacity.java:34 | the success message starts with the beverage name and ends in " is prepared" |
| Inventory.ShortageMessageAgreement | coffee-machine/src/main/java/coffeemachine/main/IngredientCapacity.java:30-31 | the shortage message ends in " is not available" exactly when at most one ingredient is missing, and in " are not available" exactly when several are |
| Inventory.ShortageMessageNamesAll | coffee-machine/src/main/java/coffeemachine/main/CoffeeMachineOperator.java:34-35 | the shortage message starts with the beverage name and contains the name of every missing ingredient |
| JavaText.ListToString | coffee-machine/src/main/java/coffeemachine/main/CoffeeMachineOperator.java:34-35 | the list text is bracketed by `[` and `]` |
| JavaText.ListToStringMentions | coffee-machine/src/main/java/coffeemachine/main/CoffeeMachineOperator.java:34-35 | every element of the list occurs in its text |
| Operator.Dispense | coffee-machine/src/main/java/coffeemachine/main/CoffeeMachineOperator.java:24-40 | a failed prepare leaves the stock unchanged, and a successful one is of a known beverage whose every ingredient has an entry; the partner lemmas `Operator.DispenseSucceedsIffAvailable` and `Operator.DispenseDebitsRecipe` give the rest |
| Operator.Step | coffee-machine/src/main/java/coffeemachine/main/CoffeeMachineOperator.java:24-50 | a refill always succeeds, and a failed request is a prepare that leaves the stock unchanged |
| Operator.NetChange | coffee-machine/src/main/java/coffeemachine/main/CoffeeMachineOperator.java:24-50 | the net change of an ingredient is zero over requests that refill nothing of it and prepare nothing successfully; `Operator.RunAccountsEveryDebit` ties it to the run |
| Operator.UnknownBeverageChangesNothing | coffee-machine/src/main/java/coffeemachine/main/CoffeeMachineOperator.java:25-26 | a name without a recipe gets "Unknown beverage selected" and the stock is unchanged |
| Operator.UnknownReportedIffUnlisted | coffee-machine/src/main/java/coffeemachine/main/CoffeeMachineOperator.java:24-40 | the unknown-beverage error is returned if and only if the name has no recipe; no shortage or success can be mistaken for it |
| Operator.DispenseSucceedsIffAvailable | coffee-machine/src/main/java/coffeemachine/main/CoffeeMachineOperator.java:24-40 | a prepare succeeds if and only if the beverage is known and every requirement is met; a failed prepare leaves the stock unchanged |
| Operator.ShortageReported | coffee-machine/src/main/java/coffeemachine/main/CoffeeMachineOperator.java:32-35 | a known beverage with a shortfall gets the shortage message naming exactly the shortfall, and the stock is unchanged |
| Operator.DispenseDebitsRecipe | coffee-machine/src/main/java/coffeemachine/main/CoffeeMachineOperator.java:36-38 | a successful prepare reports "<name> is prepared", keeps the ingredient set, takes exactly the recipe quantity of each of its ingredients and leaves the others alone |
| Operator.DispenseKeepsNonNegative | coffee-machine/src/main/java/coffeemachine/main/CoffeeMachineOperator.java:24-40 | no single prepare makes a quantity negative |
| Operator.CoffeeMachineOperator.PrepareDrink | coffee-machine/src/main/java/coffeemachine/main/CoffeeMachineOperator.java:24-40 | response and new stock are those of `Dispense` on the old stock: unknown beverage, shortage, or debit and success |
| Operator.CoffeeMachineOperator.Refill | coffee-machine/src/main/java/coffeemachine/main/CoffeeMachineOperator.java:48-50 | the refill goes through the inventory: response and new stock are those of the refill step |
| Operator.CoffeeMachineOperator.GetBeverages | coffee-machine/src/main/java/coffeemachine/main/CoffeeMachineOperator.java:58-60 | a name is listed exactly when the machine has a recipe for it |
| Operator.Run | coffee-machine/src/main/java/coffeemachine/main/CoffeeMachineOperator.java:24-50 | serialised requests give one response per request |
| Operator.RunKeepsNonNegative | coffee-machine/src/main/java/coffeemachine/main/CoffeeMachineOperator.java:24-50 | from a non-negative stock, no sequence of prepares and non-negative refills ever makes a quantity negative |
| Operator.RunExtends | coffee-machine/src/main/java/coffeemachine/main/CoffeeMachineOperator.java:24-50 | later requests never change the responses already given |
| Operator.RunResponseAt | coffee-machine/src/main/java/coffeemachine/main/CoffeeMachineOperator.java:24-50 | the k-th response is what the k-th request gives on the stock left by the requests before it |
| Operator.QuantityOf | coffee-machine/src/main/java/coffeemachine/main/CoffeeMachineOperator.java:31 | a recipe requires nothing of an ingredient it does not list |
| Operator.QuantityOfListed | coffee-machine/src/main/java/coffeemachine/main/CoffeeMachineOperator.java:31 | the total a recipe requires of a listed ingredient is its own quantity |
| Operator.DispenseTakesQuantityOf | coffee-machine/src/main/java/coffeemachine/main/CoffeeMachineOperator.java:36-38 | a successful prepare lowers every ingredient, present or not, by the recipe's total of it |
| Operator.RunAccountsEveryDebit | coffee-machine/src/main/java/coffeemachine/main/CoffeeMachineOperator.java:24-50 | atomicity: every quantity ends as it began, less the recipe totals of exactly the prepares that reported success, plus the refills |
| JavaText.JoinEnds | coffee-machine/src/main/java/coffeemachine/main/CoffeeMachineOperator.java:34-35 | `Join`: joining nothing gives the empty text, and a joined list starts with its first element and ends with its last; `JavaText.JoinMentions` gives every element in between |
| JavaText.Split | coffee-machine/src/main/java/coffeemachine/CoffeeMachineEntry.java:37 | a split has at least one field; `JavaText.SplitRoundTrip` is its inverse |
| JavaText.JavaSplit | coffee-machine/src/main/java/coffeemachine/CoffeeMachineEntry.java:37 | without the separator the string is its own single field; otherwise the fields are a prefix of the full split that does not end in an empty field, and only empty fields are left out |
| JavaText.SplitRoundTrip | coffee-machine/src/main/java/coffeemachine/CoffeeMachineEntry.java:37 | no field of the comma split contains a comma, and joining the fields with commas gives back the line |
| JavaText.DropTrailingEmpty | coffee-machine/src/main/java/coffeemachine/CoffeeMachineEntry.java:37 | `split` drops exactly the empty fields at the end: the result is a prefix, it does not end in an empty field, and only empty fields are dropped |
| JavaText.TrimStartDropsPrefix | coffee-machine/src/main/java/coffeemachine/CoffeeMachineEntry.java:38 | `TrimStart`, the front half of `trim`, drops a prefix made only of characters up to U+0020 and stops at the first other character; what is left is a suffix of the input |
| JavaText.TrimEndDropsSuffix | coffee-machine/src/main/java/coffeemachine/CoffeeMachineEntry.java:38 | `TrimEnd`, the back half of `trim`, drops a suffix made only of characters up to U+0020 and stops at the last other character; what is left is a prefix of the input |
| JavaText.Trim | coffee-machine/src/main/java/coffeemachine/CoffeeMachineEntry.java:38 | a trimmed word starts and ends with a character above U+0020, or is empty |
| JavaText.TrimStripsEnds | coffee-machine/src/main/java/coffeemachine/CoffeeMachineEntry.java:38 | trimming removes only characters up to U+0020, and only from the two ends; the result is a slice of the input |
| JavaText.TrimEndOfSuffix | coffee-machine/src/main/java/coffeemachine/CoffeeMachineEntry.java:38 | trimming the end of a front-trimmed suffix leaves a slice of the original with only strippable characters around it |
| JavaText.TrimIdempotent | coffee-machine/src/main/java/coffeemachine/CoffeeMachineEntry.java:38 | trimming twice is trimming once |
| JavaText.IsWhitespace | coffee-machine/src/main/java/coffeemachine/CoffeeMachineEntry.java:39 | space, tab, line feed and carriage return are whitespace; the non-breaking spaces U+00A0, U+2007, U+202F and U+FEFF are not; every whitespace character is at most U+0020 or between U+1680 and U+3000 |
| JavaText.IsBlank | coffee-machine/src/main/java/coffeemachine/CoffeeMachineEntry.java:39 | the empty string is blank, and a blank string holds neither a non-breaking space nor U+0000 |
| JavaText.JoinMentions | coffee-machine/src/main/java/coffeemachine/main/CoffeeMachineOperator.java:34-35 | every element of a joined list occurs in the joined text |
| Entry.ValidWords | coffee-machine/src/main/java/coffeemachine/CoffeeMachineEntry.java:38-40 | no more words than fields; every word is non-blank, non-empty and trimmed |
| Entry.ValidWordsPositions | coffee-machine/src/main/java/coffeemachine/CoffeeMachineEntry.java:38-40 | the words are exactly the trimmed fields that are not blank, in field order: the k-th word is the trim of the k-th listed field, and a field is listed if and only if it trims to a non-blank string, so repeated fields give repeated words |
| Entry.ValidWordsAtSelected | coffee-machine/src/main/java/coffeemachine/CoffeeMachineEntry.java:38-40 | the k-th word is the trim of the k-th field that does not trim to a blank string |
| Entry.ValidWordsAreKept | coffee-machine/src/main/java/coffeemachine/CoffeeMachineEntry.java:38-40 | the words are the trimmed fields filtered by the non-blank mask, one filter step per field |
| Entry.TrimToValidWords | coffee-machine/src/main/java/coffeemachine/CoffeeMachineEntry.java:36-40 | every word of a command line is non-blank, non-empty and trimmed |
| Entry.SplitWithoutSeparator | coffee-machine/src/main/java/coffeemachine/CoffeeMachineEntry.java:37 | a line without a comma splits into itself |
| Entry.TrailingEmptyInvisible | coffee-machine/src/main/java/coffeemachine/CoffeeMachineEntry.java:37-39 | dropping the empty trailing fields does not change the words |
| Entry.WordsOfPlainSplit | coffee-machine/src/main/java/coffeemachine/CoffeeMachineEntry.java:36-40 | Java's special cases of `split` do not change the words: they are those of the plain comma split |
| Entry.WordsFollowFields | coffee-machine/src/main/java/coffeemachine/CoffeeMachineEntry.java:36-40 | the words of a line are its comma-separated fields, trimmed, in order, with exactly the blank ones left out: a field gives a word if and only if it trims to a non-blank string; the fields rejoin to the line |
| Entry.NonEmptyOnly | coffee-machine/src/main/java/coffeemachine/CoffeeMachineEntry.java:47 | no empty word list survives the filter, and the filter only removes; its partner `Entry.NonEmptyOnlyPositions` gives exactly which lists are kept and where |
| Entry.NonEmptyOnlyIsKept | coffee-machine/src/main/java/coffeemachine/CoffeeMachineEntry.java:47 | the filter keeps the lists flagged by the non-empty mask, one filter step per list |
| Entry.NonEmptyOnlyPositions | coffee-machine/src/main/java/coffeemachine/CoffeeMachineEntry.java:47 | the filter keeps exactly the non-empty lists, in order: the k-th kept list is the list at the k-th kept position, and a position is kept if and only if its list is non-empty, so repeated lists stay repeated |
| Entry.WordsOfLines | coffee-machine/src/main/java/coffeemachine/CoffeeMachineEntry.java:45-46 | one word list per input line, each the tokenizer's words of that line |
| Entry.Commands | coffee-machine/src/main/java/coffeemachine/CoffeeMachineEntry.java:45-48 | every command has at least one word, and there are no more commands than lines |
| Entry.CommandsFollowLines | coffee-machine/src/main/java/coffeemachine/CoffeeMachineEntry.java:45-48 | the commands are the word lists of the lines, in line order: the k-th command is the words of the k-th listed line, and a line is listed if and only if it has at least one word |
| Entry.Classify | coffee-machine/src/main/java/coffeemachine/CoffeeMachineEntry.java:50-58 | a drink batch exactly for "drink" with at least one beverage, a refill exactly for "refill" with exactly two more words, otherwise unknown; each kind carries the right words |
| Entry.Scheduled | coffee-machine/src/main/java/coffeemachine/CoffeeMachineEntry.java:72-75 | one prepare per scheduled slot, of that slot's beverage |
| Entry.SlotResults | coffee-machine/src/main/java/coffeemachine/CoffeeMachineEntry.java:72-75 | one result slot per requested beverage |
| Entry.SlotResultsInRequestOrder | coffee-machine/src/main/java/coffeemachine/CoffeeMachineEntry.java:72-78 | each slot holds the response of its own prepare, whatever order the prepares ran in |
| Entry.Collect | coffee-machine/src/main/java/coffeemachine/CoffeeMachineEntry.java:88-97 | one response per slot, in request order; a timed-out slot yields the generic error, any other its own response |
| Entry.Batch | coffee-machine/src/main/java/coffeemachine/CoffeeMachineEntry.java:70-97 | a batch reports one response per requested beverage, and the generic error for each timed-out slot; its partner `Entry.BatchRespondsPerRequest` gives every other slot |
| Entry.BatchRespondsPerRequest | coffee-machine/src/main/java/coffeemachine/CoffeeMachineEntry.java:70-97 | a batch reports one response per beverage in request order: the generic error for a timed-out slot, otherwise what that beverage's prepare gave on the stock left by the prepares that ran before it; and every slot is answered, because a schedule runs each slot (`Entry.ScheduleCoversEverySlot`) |
| Entry.ScheduleCoversEverySlot | coffee-machine/src/main/java/coffeemachine/CoffeeMachineEntry.java:71-75 | an order in which all the submitted prepares run, each once, runs every slot of the batch: no beverage goes without its prepare |
| Entry.ScheduledRunStep | coffee-machine/src/main/java/coffeemachine/CoffeeMachineEntry.java:72-75 | running one more scheduled prepare is one more step after the run so far |
| Entry.SlotResultsStep | coffee-machine/src/main/java/coffeemachine/CoffeeMachineEntry.java:72-75 | one more finished prepare fills exactly its own slot |
| Entry.RunScheduled | coffee-machine/src/main/java/coffeemachine/CoffeeMachineEntry.java:71-75 | the prepares run through the operator in schedule order; the new stock and the responses are those of the serialised run, and each lands in its slot |
| Entry.CollectResponses | coffee-machine/src/main/java/coffeemachine/CoffeeMachineEntry.java:78 | the responses gathered are exactly `Collect` of the slots |
| Entry.MakeBeverages | coffee-machine/src/main/java/coffeemachine/CoffeeMachineEntry.java:70-81 | the new stock and the responses are those of `Batch` on the old stock |
| Entry.BatchOutput | coffee-machine/src/main/java/coffeemachine/CoffeeMachineEntry.java:78-80 | a batch prints between one and two lines per beverage; with no timeout it prints exactly each response's message in request order |
| Entry.TimedOutBelow | coffee-machine/src/main/java/coffeemachine/CoffeeMachineEntry.java:88-95 | the number of timed-out slots below a position is at most that position |
| Entry.MessageLine | coffee-machine/src/main/java/coffeemachine/CoffeeMachineEntry.java:78-95 | slot i's message is on a line between i and 2i + 1, and after line i when slot i timed out |
| Entry.MessageLinesAdvance | coffee-machine/src/main/java/coffeemachine/CoffeeMachineEntry.java:78-95 | the first message is on line 0, or line 1 after a diagnostic; each later message is one line after the previous one, or two when a diagnostic comes between them |
| Entry.BatchOutputLayout | coffee-machine/src/main/java/coffeemachine/CoffeeMachineEntry.java:78-95 | each slot's message is on its `MessageLine`, in request order; the line just before the message of each timed-out slot is the timeout diagnostic; and the output has one line per slot plus one per timed-out slot, so no other line is printed |
| Entry.BatchOutputLength | coffee-machine/src/main/java/coffeemachine/CoffeeMachineEntry.java:78-95 | a batch prints one line per slot plus one per timed-out slot |
| Entry.BatchMessageLines | coffee-machine/src/main/java/coffeemachine/CoffeeMachineEntry.java:78-80 | slot i's message is on line `MessageLine(timedOut, i)` |
| Entry.BatchDiagnosticLines | coffee-machine/src/main/java/coffeemachine/CoffeeMachineEntry.java:88-95 | the line before a timed-out slot's message is the timeout diagnostic |
| Entry.BatchOutputGrows | coffee-machine/src/main/java/coffeemachine/CoffeeMachineEntry.java:78-95 | one more slot keeps the earlier lines and adds its diagnostic, if it timed out, and then its message |
| Entry.PrintedLines | coffee-machine/src/main/java/coffeemachine/CoffeeMachineEntry.java:78-80 | the printing loop produces exactly `BatchOutput`: each message, after the diagnostic of a timed-out slot |
| Entry.Execute | coffee-machine/src/main/java/coffeemachine/CoffeeMachineEntry.java:50-58 | a batch never halts, prints one or two lines per beverage, leaves the stock of running its prepares in schedule order, and prints the batch output of the batch's responses, whose line layout `Entry.BatchOutputLayout` fixes and whose responses `Entry.BatchRespondsPerRequest` gives; a refill halts exactly when its quantity does not parse, and then changes nothing; a refill whose quantity parses adds it to the ingredient and prints "Refill successful"; an unknown command prints "Unknown command! :" and its words as a list, and changes nothing |
| Entry.Session | coffee-machine/src/main/java/coffeemachine/CoffeeMachineEntry.java:50-59 | a session halts only when some refill command's quantity does not parse; the partner lemmas `Entry.SessionStep` and `Entry.HaltedSessionIgnoresRest` give the rest |
| Entry.ExecuteKeepsNonNegative | coffee-machine/src/main/java/coffeemachine/CoffeeMachineEntry.java:50-58 | no command makes a quantity negative when refill quantities are non-negative |
| Entry.SessionKeepsNonNegative | coffee-machine/src/main/java/coffeemachine/CoffeeMachineEntry.java:50-59 | over a whole session, from a non-negative stock with non-negative refills and recipes without repeated ingredients, no quantity becomes negative |
| Entry.SessionFitsPrefix | coffee-machine/src/main/java/coffeemachine/CoffeeMachineEntry.java:50 | every prefix of a session is a session |
| Entry.SessionStep | coffee-machine/src/main/java/coffeemachine/CoffeeMachineEntry.java:50-59 | a session over one more command is the session so far followed by that command, unless it has halted |
| Entry.HaltedSessionIgnoresRest | coffee-machine/src/main/java/coffeemachine/CoffeeMachineEntry.java:54 | once a refill quantity fails to parse, the commands after it change nothing |
| Entry.ExecuteCommand | coffee-machine/src/main/java/coffeemachine/CoffeeMachineEntry.java:51-58 | running one command through the operator gives the stock, lines and halt flag of `Execute` |
| Entry.ProcessCommands | coffee-machine/src/main/java/coffeemachine/CoffeeMachineEntry.java:45-59 | the command loop leaves the stock and prints the lines of `Session`, and stops exactly where `Session` halts |
| Scenarios.HotTeaDebit | coffee-machine/src/main/java/coffeemachine/main/IngredientCapacity.java:59-62 | a hot tea debits 50 milk, 50 water and 10 tea |
| Scenarios.HotTeaAvailable | coffee-machine/src/main/java/coffeemachine/main/IngredientCapacity.java:45-51 | with a recipe's worth of each ingredient, nothing is missing for a hot tea |
| Scenarios.HotTeaFrom | coffee-machine/src/main/java/coffeemachine/main/CoffeeMachineOperator.java:36-38 | a hot tea from enough of each ingredient is prepared and takes its recipe |
| Scenarios.TeaShortageText | coffee-machine/src/main/java/coffeemachine/main/CoffeeMachineOperator.java:34-35 | the message for tea alone missing is "hot_tea cannot be prepared because [tea] is not available" |
| Scenarios.TeaShortTwice | coffee-machine/src/main/java/coffeemachine/main/CoffeeMachineOperator.java:24-40 | with 5 tea, two hot teas both report tea missing and the stock is unchanged |
| Scenarios.HotTeaPrepared | coffee-machine/src/main/java/coffeemachine/main/CoffeeMachineOperator.java:24-40 | with 500 milk, 500 water and 100 tea, one hot tea leaves 450, 450 and 90 |
| Scenarios.SugarRefilled | coffee-machine/src/main/java/coffeemachine/main/IngredientCapacity.java:70-73 | refilling 50 sugar on a stock without sugar adds a sugar entry of 50 and succeeds |
| Scenarios.TwoHotTeas | coffee-machine/src/main/java/coffeemachine/main/CoffeeMachineOperator.java:24-40 | two hot teas from 100 tea both succeed and leave 80 tea |
| Scenarios.ThreeHotTeas | coffee-machine/src/main/java/coffeemachine/main/CoffeeMachineOperator.java:24-40 | three hot teas from 100 tea all succeed and leave 70 tea |
| Scenarios.StalledSlotInBatch | coffee-machine/src/main/java/coffeemachine/CoffeeMachineEntry.java:70-97 | a three-tea batch run out of order with its second slot timed out reports three responses in request order, the second as the generic error, and all three prepares still debit |
| Scenarios.BatchSlots | coffee-machine/src/main/java/coffeemachine/CoffeeMachineEntry.java:78-97 | the slots of that batch, collected with the second timed out |
| Scenarios.RunOfOne | coffee-machine/src/main/java/coffeemachine/main/CoffeeMachineOperator.java:24-50 | a run of one request is that request's step |
| Scenarios.RunOneMore | coffee-machine/src/main/java/coffeemachine/main/CoffeeMachineOperator.java:24-50 | a run over one more request is one more step after the run before it |

## Left out

- Entry.Batch: assumes every prepare of a batch finishes before the next command runs. In the source, `executor.shutdown()` and the timed `get` cancel nothing, so a timed-out prepare may still be pending and run after later refills or inside later batches. The model covers every order within a batch, not orders that cross commands.
- Threads, the thread pool and the `synchronized` locks are not modelled as such. The model serialises each batch in a caller-chosen order (`schedule`). It treats each prepare and each refill as atomic, as the locks make them.
- Waiting for a result is left out. The 5-second wait becomes the set `timedOut` of slots whose result came too late. Other failures of a future (an interrupted wait, an exception inside a prepare) are not modelled.
- The diagnostic a timed-out slot prints is modelled for a timeout only. Its text is that of a `TimeoutException` without a message.
- Reading the configuration file is not modelled: `createCoffeeMachine`, `JsonUtil` and the truncating `intValue` conversion of JSON numbers. The machine is built from its parts instead.
- Reading the input file is not modelled: the lines are a parameter. Printing is not modelled: the printed lines are returned as a sequence.
- `Integer.parseInt` is a parameter (`parseInt`). `None` stands for the `NumberFormatException`.
- Debit, refill and quantity arithmetic use unbounded integers. The 32-bit behaviour of the refill is modelled separately; see Findings.
- Inventory.IngredientCapacity.ReduceIngredients: requires every ingredient of the recipe to have an entry. In the source, a missing entry is unboxed as null and throws. Its only caller checks availability first, so that path cannot be reached from a prepare.
- Recipes and quantities come from hash maps. A recipe is modelled as a sequence of requirements in the map's iteration order, with distinct ingredients where the lemmas need them. That order is unspecified in Java, so the order of names in a shortage message is the iteration order, whatever it is.
- `Character.isWhitespace` follows current Java: U+180E is not whitespace.
- The outlet count of the machine is kept but unused, as in the source. The thread pool is sized by the command instead.
- Lombok-generated methods are not modelled: `toString`, `equals`, `hashCode`, and the getters beyond the fields read directly.
- The JUnit test file is not modelled. Its JSON fixtures are not part of this model.

## Findings

| source | as written | input that shows it | evidently intended | confidence | as-written member | corrected member |
|---|---|---|---|---|---|---|
| coffee-machine/src/main/java/coffeemachine/main/IngredientCapacity.java:71 | the refill adds in 32-bit `int` arithmetic, which wraps around | a stock of 1 milk refilled with 2147483647 milk holds -2147483648 milk | the quantity grows by the refilled amount, so a non-negative refill never makes stock negative | medium, not executed | Inventory.RefillInt32Overflows | Inventory.RefillKeepsNonNegative |
