# Warehouse inventory manager, modelled in Dafny

This project models the core of a small command-line warehouse tool. The
tool keeps a set of named **locations**, and each location holds an
**inventory** that maps an item id to a positive quantity. A text command
such as `INVENTORY TRANSFER L1 L2 widget 5` is parsed and validated by the
**controller** (`WarehouseController.execute_command`) and executed by the
**service** (`WarehouseService`). The reply is `OK`, `EMPTY`, one
`ITEM <id> <qty>` line per item, or `ERR: <message>`. After every
successful change the service hands the whole state to storage.

The project has five modules:

- `Text` (`text.dfy`) holds the Python built-ins the core relies on, on
  ASCII: `strip`/`split`, `upper`, `str(int)`/`int(str)`, `join`, and the
  string order `sorted` uses.
- `Errors` (`errors.dfy`) holds the exception classes, with their messages,
  and the `Outcome`/`Result` values that stand in for raising.
- `Models` (`models.dfy`) holds `InventoryItem` as a validated value and
  `Location` as a class whose `inventory` is updated in place.
- `Service` (`service.dfy`) holds each service operation twice:
  - as a function on a `Snapshot` (location id -> inventory), with the
    lemmas about it (round trips, conservation, undo);
  - as a method of the `WarehouseService` class, which updates `Location`
    objects in place. Each method is proved to follow its function, to keep
    `Valid()`, and to append the new state to `saved` exactly when it
    succeeds.
- `Controller` (`controller.dfy`) holds:
  - the pure parsing and formatting functions, with their lemmas (render
    then parse, format then read back);
  - the `WarehouseController` class, whose `ExecuteCommand` is proved to do
    what the function `Execute` says.

## Model

| member | source | states |
|---|---|---|
| Text.Split | src/controller.py:42 | `str.split()`: every token is non-empty and holds no whitespace |
| Text.Join | src/controller.py:215 | `sep.join(parts)`: no parts give the empty string, and otherwise the result begins with the first part; SplitJoin and LinesJoin read it back |
| Text.SingleWord | src/controller.py:42 | a single word splits into itself |
| Text.WordThenSpace | src/controller.py:42 | a word followed by a space splits into that word followed by the tokens of the rest |
| Text.BlankIffNoWords | src/controller.py:37-44 | a line strips to nothing exactly when it splits into no tokens, so the blank check and the token count agree |
| Text.SplitJoin | src/controller.py:42 | words without whitespace, joined by single spaces, split back into the same words |
| Text.SplitAroundSpace | src/controller.py:215 | splitting text around one whitespace character (the newline between reply lines) splits each side on its own |
| Text.Lines | tests/test_controller.py:42 | `split("\n")`, the way a reply is cut into lines: at least one piece, and no piece holds a newline |
| Text.LineThenRest | src/controller.py:215 | a line without a newline, then a newline and more text, cuts into that line followed by the pieces of the rest |
| Text.SingleLine | src/controller.py:215 | a line without a newline cuts into itself |
| Text.LinesJoin | src/controller.py:215 | lines without newlines joined by "\n" cut back into the same lines |
| Text.Upper | src/controller.py:46-47 | `str.upper()` keeps the length, turns each lower-case ASCII letter into its capital and leaves every other character alone |
| Text.UpperIdempotent | src/controller.py:46-47 | upper-casing twice is upper-casing once |
| Text.UpperWord | src/controller.py:46-47 | the upper-cased token is still a token: non-empty, no whitespace |
| Text.NatToString | src/controller.py:214 | `str(n)` of a natural number is a non-empty string of digits with no leading zero |
| Text.IntToString | src/controller.py:214 | `str(i)` is non-empty, begins with "-" exactly when i is negative, and is digits after the sign |
| Text.ParseInt | src/controller.py:188 | `int(token)` accepts exactly an optional sign followed by one or more digits, and a negative value only after "-" |
| Text.ParseIntToString | src/controller.py:188 | `int(str(i)) == i` for every integer, negative ones included |
| Text.DigitsValueLeadingZero | src/controller.py:188 | a leading zero does not change the value of a digit string |
| Text.ParseIntLeadingZero | src/controller.py:188 | `int("0" + d) == int(d)` for every digit string d, so "007" reads as 7 |
| Text.ParseIntSigned | src/controller.py:188 | `int("+" + d) == int(d)` and `int("-" + d) == -int(d)` for every digit string d |
| Text.IntToStringIsWord | src/controller.py:214 | a printed integer is a single token |
| Text.LexAntisymmetric | src/controller.py:213 | the code-point order on ids is antisymmetric |
| Text.LexTransitive | src/controller.py:213 | the code-point order on ids is transitive |
| Text.LexTotal | src/controller.py:213 | the code-point order on ids is total |
| Text.LeastExists | src/controller.py:213 | every non-empty set of ids has a least element |
| Text.SortedKeys | src/service.py:134-140 | `sorted(keys)`: every key exactly once, strictly ascending |
| Text.PrependLeast | src/service.py:140 | the least key put in front of the sorted remaining keys gives every key once, strictly ascending |
| Errors.InsufficientMessageReportsAvailable | src/exceptions.py:45-53 | the insufficient-quantity message ends "(has N)", and N reads back as the available amount |
| Errors.Message | src/exceptions.py:12-67 | `str(e)`: a ValueError shows its text unchanged, and every other error has a non-empty message |
| Errors.LabelledMessages | src/exceptions.py:59-67 | the invalid-command and storage messages are the fixed label followed by the detail, unchanged |
| Errors.LocationMessageShape | src/exceptions.py:12-30 | a location error's message is "Location '", the id, then the tail that names its kind |
| Errors.TailKind | src/exceptions.py:12-30 | the last sixteen characters of a location error's tail decide its kind |
| Errors.LocationMessagesDistinct | src/exceptions.py:12-30 | the three location errors never share a message: the message tells the kind and the location id |
| Models.WithoutUnderscores | src/models.py:21 | `replace('_', '')` keeps exactly the characters other than the underscore |
| Models.IdentifierCharacters | src/models.py:19-22 | an id is accepted exactly when it is made of ASCII letters, digits and underscores and is not all underscores (both directions) |
| Models.IdentifierHasNoSpace | src/controller.py:168-173 | an accepted identifier contains no whitespace |
| Models.CheckItem | src/models.py:17-24 | item construction succeeds exactly for a non-empty alphanumeric string id and an integer quantity > 0; every refusal is a ValueError |
| Models.ToDict | src/models.py:26-31 | the dictionary has exactly the keys `item_id` and `quantity` |
| Models.FromDict | src/models.py:34-39 | a missing `item_id` key is a KeyError for it, checked before `quantity`; success exactly when both keys are present and the item checks pass; the item built is valid and carries the two fields' values |
| Models.FromDictToDict | src/models.py:26-39 | `from_dict(to_dict(item)) == item` for every valid item |
| Models.ToDictFromDict | src/models.py:26-39 | whatever `from_dict` accepts serializes back to the same two fields |
| Models.HasInventory | src/models.py:60-62 | a location has inventory exactly when its dictionary is non-empty |
| Models.ItemQuantity | src/models.py:64-68 | the quantity is never negative, and it is positive exactly when the item is present |
| Models.AddedTo | src/service.py:62-64 | adding succeeds exactly for a present item or an identifier; the item's quantity grows by the amount; no other item changes; validity is kept; a refusal is a ValueError |
| Models.RemovedFrom | src/service.py:86-88 | removing lowers the quantity by the amount; the item disappears exactly when it reaches zero; no other item changes; validity is kept |
| Models.InventoryExtensional | src/models.py:48-51 | two valid inventories that agree on every other item and on one item's quantity are equal |
| Models.RemoveUndoesAdd | src/service.py:54-96 | removing what was just added restores the inventory |
| Models.AddUndoesRemove | src/service.py:129-131 | adding back what was just removed restores the inventory |
| Models.SortedItems | src/service.py:134-140 | `get_sorted_items`: every stored item exactly once, in strictly ascending id, each as the inventory stores it |
| Models.ListedByIds | src/service.py:134-140 | the items looked up under the sorted keys are every stored item exactly once, strictly ascending by id |
| Models.CheckLocationId | src/models.py:53-58 | a location id is accepted exactly when it is an identifier; the two refusals are the ValueErrors in their source order |
| Models.Location.constructor | src/models.py:50-58 | a new location keeps its id and has an empty inventory |
| Models.Location.AddItem | src/service.py:63-64 | updates the inventory in place to what `AddedTo` gives, or leaves it alone and reports the ValueError |
| Models.Location.RemoveItem | src/service.py:86-88 | updates the inventory in place to what `RemovedFrom` gives and keeps it valid |
| Service.Register | src/service.py:31-38 | a duplicate id is refused with LocationAlreadyExists; success exactly for a new identifier; the new location is empty and nothing else changes; failure changes nothing; validity is kept |
| Service.Unregister | src/service.py:40-52 | an unknown id gives LocationNotFound; a non-empty location gives LocationHasInventory; success exactly for a known, empty location, which alone is removed |
| Service.Increment | src/service.py:54-65 | the errors in their source order; success exactly for a known location, quantity > 0, and a present item or valid id; only that item at that location grows, by the quantity |
| Service.Decrement | src/service.py:67-96 | the errors in their source order, the insufficient-quantity one carrying the available amount; success exactly when 0 < quantity <= available; only that item drops, and it disappears at zero |
| Service.Transfer | src/service.py:98-132 | the five errors in their source order; on a valid state, success exactly when both locations exist and 0 < quantity <= available at the source; failure changes nothing; validity is kept |
| Service.Observe | src/service.py:134-140 | succeeds exactly for a known location, and an unknown one gives LocationNotFound; on success one entry per stored item, strictly ascending by id, each with the quantity the location reports |
| Service.SortedItemsReport | src/service.py:134-140 | each listed item has the location's reported quantity, and every item the location holds is listed |
| Service.TransferMoves | src/service.py:129-131 | between two locations, a transfer moves exactly the quantity of the item from source to destination and touches nothing else |
| Service.TransferToSelf | src/service.py:115-131 | a transfer from a location to itself leaves the state unchanged |
| Service.TotalOverSplit | src/service.py:98-132 | the warehouse total of an item splits into one location's quantity plus the rest |
| Service.TotalOverAgree | src/service.py:98-132 | states that agree on an item at every location have the same total for it |
| Service.TotalAfterUpdate | src/service.py:98-132 | replacing one location's inventory changes an item's total by the difference at that location |
| Service.IncrementTotals | src/service.py:54-65 | an increment raises the item's warehouse total by the quantity and leaves every other item's total alone |
| Service.DecrementTotals | src/service.py:67-96 | a decrement lowers the item's warehouse total by the quantity and leaves every other item's total alone |
| Service.TransferConserves | src/service.py:98-132 | a transfer keeps the warehouse total of every item |
| Service.IncrementsAccumulate | src/service.py:54-65 | successive increments of one item add up to their sum |
| Service.UnregisterUndoesRegister | src/service.py:31-52 | unregistering a just-registered location succeeds and restores the state |
| Service.DecrementUndoesIncrement | src/service.py:54-96 | decrementing by what was just incremented succeeds and restores the state |
| Service.TransferBack | src/service.py:98-132 | transferring the same quantity back succeeds and restores the state |
| Service.WarehouseService.constructor | src/service.py:17-25 | adopts the loaded locations; the abstract state is their inventories; nothing has been saved |
| Service.WarehouseService.SaveState | src/service.py:27-29 | appends the current state to what storage has received |
| Service.WarehouseService.RegisterLocation | src/service.py:31-38 | does what `Register` says to the objects; keeps `Valid()`; saves once exactly on success |
| Service.WarehouseService.UnregisterLocation | src/service.py:40-52 | does what `Unregister` says to the objects; keeps `Valid()`; saves once exactly on success |
| Service.WarehouseService.AddAt | src/service.py:63-64 | `add_item` on one location object keeps `Valid()` and moves the abstract state as `AddedTo` says |
| Service.WarehouseService.RemoveAt | src/service.py:86-88 | `remove_item` on one location object keeps `Valid()` and moves the abstract state as `RemovedFrom` says |
| Service.WarehouseService.IncrementInventory | src/service.py:54-65 | does what `Increment` says to the objects; keeps `Valid()`; saves once exactly on success |
| Service.WarehouseService.DecrementInventory | src/service.py:67-96 | does what `Decrement` says to the objects; keeps `Valid()`; saves once exactly on success |
| Service.WarehouseService.TransferInventory | src/service.py:98-132 | removes from the source object, then adds to the destination object (the same object when the ids are equal), as `Transfer` says; saves once exactly on success |
| Service.WarehouseService.ObserveInventory | src/service.py:134-140 | changes nothing and returns what `Observe` says of the current state |
| Controller.FormatError | src/controller.py:217-226 | the reply is "ERR: " followed by the message, unchanged |
| Controller.ErrorReply | src/controller.py:58-63 | warehouse errors and ValueErrors show their message after "ERR: "; any other exception shows "Unexpected error: " and its message |
| Controller.Respond | src/controller.py:82-83 | the reply is "OK" exactly when the service call succeeded, and a failure replies with its formatted error |
| Controller.ValidateIdentifier | src/controller.py:158-173 | accepts exactly the identifiers, unchanged; an empty argument gets "<param> cannot be empty"; any other refusal gets "<param> must be alphanumeric (underscores allowed)" |
| Controller.ParseQuantity | src/controller.py:175-195 | accepts exactly the integer tokens > 0 and returns their value; a non-integer token and a non-positive one get their two messages |
| Controller.QuantityRoundTrip | src/controller.py:175-195 | every positive quantity, printed in decimal, is accepted as itself |
| Controller.QuantitySpellings | src/controller.py:113-116 | a quantity written with a leading zero or a "+" sign is accepted as the integer `int()` reads |
| Controller.QuantityRefusals | tests/test_controller.py:54-58 | a zero quantity and a non-integer quantity get the two messages the tests expect, word for word |
| Controller.ArgumentCount | src/controller.py:76-149 | only LOCATION and INVENTORY operations are known, and each takes between one and four arguments |
| Controller.ArityError | src/controller.py:76-149 | an invalid-command error whose detail begins "<DOMAIN> <OP> requires " |
| Controller.ParseLocationCommand | src/controller.py:65-96 | an unknown operation is refused with its name; a known one with the wrong argument count gets the arity error; with the right count it succeeds exactly when the argument is an identifier, and otherwise gives the location_id error; an accepted command is well formed, is the LOCATION command of that operation, and holds exactly the argument token |
| Controller.ParseInventoryCommand | src/controller.py:98-156 | an unknown operation is refused with its name; a known one with the wrong argument count gets the arity error; with the right count the checks run in source order (location ids, then item id, then quantity) and the first failing one gives its error; it succeeds exactly when all pass, and the command holds exactly the argument tokens, the quantity as the integer `int()` reads |
| Controller.ParseCommand | src/controller.py:35-56 | the line is blank exactly when the stripped line is empty; an accepted command has at least two tokens, the right arity, the upper-cased first token as its domain and the second as its operation, and holds exactly the remaining tokens as arguments |
| Controller.RoutedToHandler | src/controller.py:50-56 | a non-blank line of two or more tokens whose upper-cased domain is LOCATION or INVENTORY parses to exactly that handler's answer: what the handler accepts becomes a Call of that command, and what it refuses becomes Rejected with the handler's own error |
| Controller.IncrementLine | src/controller.py:37-56 | the line "INVENTORY INCREMENT <l> <i> <q>" is tokenised back into its words and handed to the INVENTORY handler |
| Controller.QuantityRefusalReplies | tests/test_controller.py:54-58 | the whole lines "INVENTORY INCREMENT <l> <i> 0" and "… nope" are answered with the two messages the tests expect, and nothing changes or is saved |
| Controller.ZeroQuantityReply | tests/test_controller.py:54-55 | the zero-quantity line gets "ERR: Invalid command: Quantity must be a positive integer", with no change |
| Controller.NonNumericQuantityReply | tests/test_controller.py:57-58 | the "nope" line gets "ERR: Invalid command: Invalid quantity: 'nope' is not an integer", with no change |
| Controller.IncrementRefusalReply | src/controller.py:58-59 | an INCREMENT line whose arguments the handler refuses is answered with that refusal, unchanged state and no save |
| Controller.QuantitySpellingLines | src/controller.py:188 | whole lines with a quantity written "0…" or "+…" parse to the increment of its int() value, and are executed as that service call |
| Controller.ArityEnforced | src/controller.py:76-149 | a known domain and operation with the wrong argument count is refused with "<DOMAIN> <OP> requires N argument(s), got M" before any argument is checked |
| Controller.TooFewTokens | src/controller.py:42-44 | a non-blank line of fewer than two tokens is refused with the fixed message |
| Controller.UnknownDomainRejected | src/controller.py:50-56 | a domain other than LOCATION or INVENTORY is refused, naming the upper-cased domain |
| Controller.UnknownDomain | src/controller.py:55-59 | the reply to an unknown domain is exactly "ERR: Invalid command: Unknown domain: <DOMAIN>", and nothing changes or is saved |
| Controller.CaseInsensitive | src/controller.py:46-47 | a line parses the same whatever the case of its domain and operation words |
| Controller.UpperOfCaseVariant | src/controller.py:46-47 | any spelling of a keyword in mixed case upper-cases to the keyword and is a single word |
| Controller.CaseVariantParses | src/controller.py:46-56 | a well-formed command whose domain and operation are written in any mix of cases, such as "location register L1", parses to that command |
| Controller.SameKeywordsSameParse | src/controller.py:35-56 | the parse of a line depends only on whether it is blank, its upper-cased first two tokens and its remaining tokens |
| Controller.KeywordWord | src/controller.py:46-47 | an upper-case keyword is a word that upper-casing leaves alone |
| Controller.KeywordsOf | src/controller.py:51-156 | the domain and operation keywords are upper-case words |
| Controller.ArgumentsAreWords | src/controller.py:113-150 | the arguments of a well-formed command are single tokens |
| Controller.RenderWords | src/controller.py:42-48 | a well-formed command written out is at least three tokens, with upper-case keywords |
| Controller.LocationArgumentsAccepted | src/controller.py:75-93 | the arguments of a well-formed LOCATION command pass the location handler's checks |
| Controller.InventoryArgumentsAccepted | src/controller.py:108-153 | the arguments of a well-formed INVENTORY command pass the inventory handler's checks |
| Controller.TransferArgumentsAccepted | src/controller.py:132-141 | the four arguments of a well-formed TRANSFER pass its checks |
| Controller.ParseRender | src/controller.py:35-156 | every well-formed command written in canonical form parses back to itself |
| Controller.InsertById | src/controller.py:213 | inserting into a list sorted by id keeps it sorted and one longer |
| Controller.InsertByIdPermutes | src/controller.py:213 | inserting adds exactly that item, as a multiset |
| Controller.SortById | src/controller.py:213 | `sorted(items, key=item_id)`: sorted by id and a permutation of the input |
| Controller.SortByIdKeepsAscending | src/controller.py:213 | a list already strictly ascending by id is left as it is |
| Controller.FormatObserve | src/controller.py:197-215 | the reply is "EMPTY" exactly for no items; it is never empty and never "OK" |
| Controller.ItemLineWords | src/controller.py:214 | an item line is three tokens: ITEM, the id, the quantity |
| Controller.ItemLine | src/controller.py:214 | the line begins "ITEM " and is longer than that prefix plus the id |
| Controller.ItemLineIsOneLine | src/controller.py:214 | an item line holds no newline |
| Controller.ItemLinesAreLines | src/controller.py:214 | no item line holds a newline |
| Controller.ItemLines | src/controller.py:214 | one line per item, the k-th being the k-th item's line |
| Controller.ReadOneLine | src/controller.py:214 | a single item line reads back as that item |
| Controller.ReadLineThenRest | src/controller.py:215 | an item line, a newline, and more text read back as the item followed by what the rest reads as |
| Controller.JoinLinesCons | src/controller.py:215 | joining two or more lines gives the first line, a newline, then the rest joined |
| Controller.ReadItemLines | src/controller.py:214-215 | the lines of valid items joined by newlines read back as those items, in order |
| Controller.ObserveRoundTrip | src/controller.py:197-215 | reading an OBSERVE reply back gives the valid items, sorted by id |
| Controller.ObserveListsAscending | src/controller.py:197-215 | a strictly ascending list of valid items reads back from its reply unchanged |
| Controller.ObserveLayout | src/controller.py:213-215 | a non-empty OBSERVE reply, cut at its newlines, is exactly one "ITEM <id> <qty>" line per item, in ascending id |
| Controller.Persist | src/controller.py:82-83 | a state-changing call replies "OK" exactly when it succeeded and its formatted error when it failed; the new state is the call's, and it is saved exactly on success |
| Controller.Mutation | src/controller.py:82-143 | the service call behind a state-changing command keeps a valid state valid and changes nothing when it fails |
| Controller.Apply | src/controller.py:82-153 | the reply to a parsed command is never empty; OBSERVE changes nothing and replies with the formatted items of a known location or "ERR: " and the not-found message for an unknown one; any other command moves the state exactly as its service call does, replies "OK" exactly when that call succeeds and its formatted error when it fails; a state is saved exactly when the reply is "OK"; validity is kept |
| Controller.Execute | src/controller.py:26-63 | the reply is empty exactly for a blank line; a line that does not parse changes nothing and replies with its error; a line that parses does what `Apply` says of its command, whatever its spelling; a state is saved exactly when the reply is "OK"; validity is kept |
| Controller.ExecuteMutation | src/controller.py:26-143 | any line that parses to a state-changing command moves the state as its service call does, replies "OK" exactly on success and the formatted error on failure, and saves exactly on success |
| Controller.ExecuteCanonicalMutation | src/controller.py:26-143 | in particular the canonical line of every well-formed state-changing command does so |
| Controller.MatchedArgumentsValid | src/controller.py:75-153 | argument tokens that a well-formed command was read from pass the checks: identifiers where ids are expected, and a trailing quantity token that is an integer above zero |
| Controller.ArgumentsValidated | src/controller.py:35-153 | every argument token of an accepted line passed its check |
| Controller.ObserveLine | src/controller.py:145-153 | the canonical OBSERVE line is "INVENTORY OBSERVE <id>" |
| Controller.ObserveReply | src/controller.py:145-153 | any line that parses to an OBSERVE changes and saves nothing; for a known location its reply reads back as the items in ascending id, and for an unknown one it is "ERR: Location '<id>' does not exist" |
| Controller.ObserveKnown | src/controller.py:150-153 | the OBSERVE reply for a known location reads back as its items in ascending id |
| Controller.NotFoundReply | src/controller.py:58-59 | the reply for an unknown location is "ERR: Location '<id>' does not exist" |
| Controller.InvalidCommandReply | src/controller.py:58-59 | the reply for a refused command is "ERR: Invalid command: " followed by the refusal's detail |
| Controller.ObserveReportsInventory | src/controller.py:145-153 | the canonical "INVENTORY OBSERVE <id>" line of a known location changes and saves nothing, and its reply reads back as the location's items in ascending id |
| Controller.WarehouseController.constructor | src/controller.py:18-24 | the controller keeps the service it was given |
| Controller.WarehouseController.ExecuteCommand | src/controller.py:26-63 | on the objects: the reply, the new state and the saved states are what `Execute` gives for the old state; the service stays valid |
| Controller.WarehouseController.Dispatch | src/controller.py:75-153 | on the objects: the reply, the new state and the saved states are what `Apply` gives for the old state |
| Controller.WarehouseController.Perform | src/controller.py:82-142 | calls the service method the command names; the outcome and new state are the matching service function's |

## Left out

- Storage (`src/storage.py`) is not part of this model: JSON encoding, file locking and file I/O are left out. Each save is recorded as a snapshot appended to the ghost sequence `saved`, and a save never fails.
- Service.WarehouseService.SaveState: a `StorageError` raised by a save, after a location has already been changed in memory, is not modelled.
- Service.WarehouseService.constructor: it takes the already-loaded locations as a parameter instead of calling storage, and requires them to be valid with each location stored under its own id. Storage's load checks neither, so a hand-edited state file whose keys differ from the stored ids, or whose data is invalid, falls outside the model.
- Concurrency (several processes sharing the state file) is left out.
- `src/main.py` (the interactive loop) and `src/config.py` (the file path) are not part of this model. The reply constants `OK`, `EMPTY` and `ERR` are imported from `src/config.py`, but that file does not define them. Their values here are the ones `tests/test_controller.py:30-58` expects.
- `str.isalnum`, `str.upper` and `str.split` are modelled on ASCII only. Unicode letters, digits and whitespace are not modelled.
- Text.ParseInt: Python's `int()` accepts `_` digit separators, so `int("1_000")` is 1000; the model refuses such a token with the not-an-integer message. Python also accepts surrounding whitespace, but a token never holds any.
- Models.CheckItem: a Python `bool` passes `isinstance(q, int)`. That case is not distinguished; any integer field counts as an integer.
- Service.Decrement: the `except (KeyError, ValueError)` re-raise at src/service.py:90-96 cannot fire, because the checks before it exclude both errors. The model has no such branch.
- Models.Location.RemoveItem: its body is not among the source files. Its requires (item present, 0 < quantity <= stock) is what every caller checks first (src/service.py:78-84, 119-127). `add_item`, `remove_item` and `get_sorted_items` are inferred from their call sites and from the documented behaviour.
- Controller.ErrorReply: the catch-all branch for other exceptions is reached only by a `KeyError`. That error is raised by `from_dict`, which storage calls; no controller path calls it.
- Controller.SortById: Python's `sorted` is stable, but the contract does not state stability. Every list it receives has distinct ids.
