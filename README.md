# Advanced calculator core, modelled in Dafny

This project models the core of a command-line calculator written in Python. The core has three parts:

- **Operation strategies and registry** (`app/operations.py`).
  - Ten binary operations, each an `Operation` subclass. `execute` first runs `validate_operands`, which raises `ValidationError` on bad operands, and only then computes.
  - `OperationFactory` keeps a name→class table. It registers and looks up names case-insensitively.
- **History engine** (`app/calculator.py`).
  - `Calculator` holds a bounded calculation history, memento-based undo and redo stacks, and a list of observers.
  - `perform_operation` validates, computes, records, snapshots and notifies, in that order.
- **Help menu** (`app/help_menu.py`).
  - A base menu plus decorators that each append one section to the text they wrap.
  - A builder chains the decorators; `create_default_help_menu` applies all three.

Files, one module each:

- `exceptions.dfy` (`Exceptions`): the errors the core raises or lets through, and the `Result`/`Outcome` types that stand in for `raise`.
- `text.dfy` (`Text`): the string built-ins the core relies on: `str.lower()`, string order and `sorted`, `"c" * n`, and `f"{s:<w}"`.
- `operations.dfy` (`Operations`):
  - `OpKind`, with `Validate`, `Compute` and `Execute`;
  - the registry functions `Register` and `Lookup`;
  - the class `OperationFactory`.
- `calculator.dfy` (`Calculator`):
  - `EngineState`, a value holding the three lists the engine mutates;
  - the pure transitions `Attempt`, `Record`, `UndoStep` and `RedoStep`;
  - the class `Calculator`, whose methods are proved to perform exactly those transitions on its fields.
- `help_menu.dfy` (`HelpMenu`):
  - the `HelpComponent` datatype and `GetHelpText`;
  - the section functions, and the `Generate...` loop methods proved equal to them;
  - the class `HelpMenuBuilder`.

Decimal values are exact reals. Decimal `//` and `%` truncate toward zero (`Operations.Trunc`); for the operands the source accepts (dividend ≥ 0) this is the floor when b > 0.

The model follows the code as written, in particular where its documentation or tests say otherwise:

- **Undo snapshots.** `perform_operation` pushes the undo snapshot after appending the new calculation and before evicting the oldest one (app/calculator.py:182-189). So `undo` right after a calculation restores a history that still contains that calculation, and undoes the eviction with it. The history is therefore not bounded: every calculation followed by an undo makes it one entry longer, whatever `max_history_size` is. The docstring of `undo` and the undo tests describe the pre-calculation state instead. `Calculator.UndoAfterRecordKeepsCalculation`, `Calculator.RecordThenUndoGrows` and `Calculator.RecordUndoRoundsUnbounded` state the behaviour as written. The length bound of `max_history_size` + 1 holds only while no calculation is recorded from a history an undo left over the maximum (`Calculator.SnapshotBoundLost`).
- **No strategy set.** Calling `perform_operation` with no strategy raises `ValueError("No operation set")` (app/calculator.py:164-165). The tests expect `OperationError` here.
- **`OperationError`.** app/calculator.py imports `OperationError` from app/exceptions.py, but that file defines only `CalculatorError` and `ValidationError`. The model treats `OperationError` as the second `CalculatorError` subclass the import evidently refers to.
- **History loading.** The constructor calls `_load_history`, which the file does not define. The resulting exception is caught and logged, so a new calculator starts with empty lists, which is what `Calculator.Calculator.constructor` states.

## Model

| member | source | states |
|---|---|---|
| Operations.OpKind.Name | app/operations.py:48-56 | `str(operation)`: the class name of each built-in operation, and the class name a registered subclass was given; the recorded calculation carries it (`Calculator.AttemptOutcomes`) |
| Operations.Validate | app/operations.py:34-46 | every failing check raises a ValidationError; Addition, Subtraction, Multiplication and AbsoluteDifference keep the base check, which accepts everything; the guards of the other overrides are stated by `DivisionSpec`, `PowerGuard`, `RootGuard`, `ModulusAndIntegerDivisionGuards` and `PercentageSpec` |
| Operations.Compute | app/operations.py:65-384 | once validation has passed, every operation computed exactly here succeeds; the values are stated by `TotalOperations`, `AbsoluteDifferenceProperties`, `DivisionSpec`, `DivisionWithRemainder` and `PercentageSpec` |
| Operations.Execute | app/operations.py:65-384 | `execute` succeeds only when `validate_operands` passes, and an exactly computed operation can fail only with a ValidationError; `ExecuteFailsExactlyOnValidationFailure` gives the full relation |
| Operations.ExecuteFailsExactlyOnValidationFailure | app/operations.py:34-46 | for each of the ten built-in classes, a failing `validate_operands` is exactly what `execute` raises; the seven whose value is computed exactly here fail only when validation fails |
| Operations.TotalOperations | app/operations.py:65-122 | Addition, Subtraction and Multiplication keep the no-op base check, never raise, and return a+b, a−b and a·b; AbsoluteDifference never raises |
| Operations.AbsoluteDifferenceProperties | app/operations.py:372-384 | abs_diff always succeeds, is ≥ 0, is symmetric in its operands, and is a−b or b−a |
| Operations.AbsoluteDifferenceExample | app/help_menu.py:201 | abs_diff -5 3 gives 8 |
| Operations.DivisionSpec | app/operations.py:131-164 | division fails exactly when b = 0, with "Division by zero is not allowed"; otherwise result·b = a |
| Operations.PowerGuard | app/operations.py:173-203 | a negative exponent raises "Negative exponents not supported"; every other exponent, zero included, goes to the float computation |
| Operations.RootGuard | app/operations.py:212-244 | a negative radicand is checked before a zero degree, so Root(-9, 0) reports the negative number; otherwise the float computation of a^(1/b) |
| Operations.ModulusAndIntegerDivisionGuards | app/operations.py:253-325 | modulus and integer division check b = 0 before a < 0, each with its own message, and succeed exactly when b ≠ 0 and a ≥ 0 |
| Operations.TruncBounds | app/operations.py:313-325 | truncation toward zero lies within less than one of its argument, on the side of zero |
| Operations.DivisionWithRemainder | app/operations.py:272-325 | on accepted operands `a // b` is a whole number q and `a % b` is r with b·q + r = a and 0 ≤ r < abs(b); for b > 0, q is the floor of a/b |
| Operations.DivisionWithRemainderExample | app/help_menu.py:198-199 | int_divide 17 5 gives 3 and modulus 17 5 gives 2 |
| Operations.PercentageSpec | app/operations.py:334-363 | a zero whole raises the percentage message; otherwise the result r satisfies r·b = 100·a; percent 50 200 gives 25 |
| Operations.Register | app/operations.py:412-427 | the table after `register_operation`, or its TypeError; characterised by `RegisterSpec` and `CreateAfterRegister` |
| Operations.Lookup | app/operations.py:430-449 | what `create_operation` returns or raises on a given table; characterised by `CreateAfterRegister`, `LookupMiss` and `LookupIgnoresCase` |
| Operations.RegisterSpec | app/operations.py:412-427 | a non-Operation class raises TypeError; a subclass is stored under the lower-cased name, replacing any earlier entry, and no other key changes |
| Operations.CreateAfterRegister | app/operations.py:430-449 | after registering C under a name, creating any case-variant of that name yields C |
| Operations.LookupMiss | app/operations.py:446-448 | a name whose lower-cased form is not registered raises ValueError "Unknown operation: <name>" |
| Operations.LookupIgnoresCase | app/operations.py:446-448 | the lookup lower-cases the name: "ADD" finds Addition, and "Sqrt" raises ValueError "Unknown operation: Sqrt" with the name as given |
| Operations.OperationFactory.constructor | app/operations.py:396-407 | the table starts with the ten built-in names |
| Operations.OperationFactory.RegisterOperation | app/operations.py:412-427 | fails with TypeError and leaves the table unchanged exactly for a non-Operation class; otherwise the table gains or overwrites the lower-cased key |
| Operations.OperationFactory.CreateOperation | app/operations.py:430-449 | succeeds exactly when the lower-cased name is registered, returning its class; otherwise raises ValueError; the table is only read |
| Text.LowerChar | app/operations.py:427 | an upper-case ASCII letter becomes the lower-case letter 32 code points above it; every other character is unchanged; the result is never upper case |
| Text.Lower | app/operations.py:427 | lowering keeps the length and lowers each character in place, so no upper-case letter is left |
| Text.LowerOfLowerCase | app/operations.py:446 | a name without upper-case letters is its own lower-case form |
| Text.LowerIdempotent | app/operations.py:446 | lowering twice is lowering once |
| Text.SortedKeys | app/help_menu.py:154 | `sorted(keys)` has every key exactly once and nothing else |
| Text.SortedKeysAscending | app/help_menu.py:154 | `sorted(keys)` is in strictly ascending code-point order |
| Text.Repeat | app/help_menu.py:151 | `c * n` is n copies of c |
| Text.PadRight | app/help_menu.py:162 | `f"{s:<w}"` starts with s, is max(len(s), w) long, and is filled with spaces |
| Calculator.Reraise | app/calculator.py:195-201 | a ValidationError is re-raised as is; any other error becomes OperationError "Operation failed: <message>"; either way a CalculatorError |
| Calculator.AttemptOutcomes | app/calculator.py:164-201 | no strategy raises ValueError "No operation set"; with a strategy every failure is a CalculatorError, decided by the first failing step in source order: first operand, second operand, `execute`, the `Calculation` constructor, each error re-raised as a ValidationError or wrapped as OperationError "Operation failed: …"; success holds exactly when every step succeeds, and then `execute`'s result is returned and the record holds the operation name, the validated operands and the constructor's own result |
| Calculator.ValidationErrorReachesCaller | app/calculator.py:173-197 | an operation's ValidationError (division by zero, say) reaches the caller unchanged |
| Calculator.Attempt | app/calculator.py:164-181 | the steps of `perform_operation` in the order written, including the construction of the record inside the `try`, giving the value returned and the calculation to record, or the error raised; characterised by `AttemptOutcomes` and `ValidationErrorReachesCaller` |
| Calculator.Record | app/calculator.py:182-189 | append, snapshot, clear the redo stack, evict index 0; characterised by `RecordEffects`, `RecordKeepsBound` and `RecordIsLastN` |
| Calculator.RecordEffects | app/calculator.py:182-189 | recording grows the undo stack by one snapshot, the history with the new calculation, and keeps the older snapshots; it empties the redo stack; the history is the appended one, minus index 0 exactly when it was already at the bound; the new calculation ends the history |
| Calculator.RecordKeepsBound | app/calculator.py:188-189 | a history within the bound stays within it, grows by one below the bound and stays at the bound otherwise |
| Calculator.RecordIsLastN | app/calculator.py:182-189 | within the bound, recording keeps the last `max_history_size` entries of the appended history |
| Calculator.RecordAllKeepsLast | app/calculator.py:182-189 | with no undo in between, a run of calculations leaves the last `max_history_size` entries of the old history followed by the new ones, in order |
| Calculator.FromEmptyKeepsLastM | app/calculator.py:182-189 | from an empty history, N > M calculations leave exactly the last M |
| Calculator.UndoStep | app/calculator.py:255-262 | `undo` on the three lists; characterised by `UndoRedoEffects`, `UndoThenRedo` and `UndoRedoInverse` |
| Calculator.RedoStep | app/calculator.py:274-281 | `redo` on the three lists; characterised by `UndoRedoEffects`, `RedoThenUndo` and `UndoRedoInverse` |
| Calculator.UndoRedoEffects | app/calculator.py:245-282 | undo and redo change nothing on an empty stack; otherwise they restore the top snapshot, push the current history onto the other stack, and change the two stack sizes by −1 and +1 |
| Calculator.UndoThenRedo | app/calculator.py:258-281 | undo followed by redo restores history, undo stack and redo stack exactly |
| Calculator.RedoThenUndo | app/calculator.py:258-281 | redo followed by undo restores all three lists exactly |
| Calculator.UndoTimesShrinks | app/calculator.py:258 | k undos on a stack of at least k snapshots remove exactly k |
| Calculator.UndoRedoInverse | app/calculator.py:245-282 | k undos followed by k redos restore the exact prior state, for every k up to the number of snapshots |
| Calculator.NothingToRedoAfterRecord | app/calculator.py:186 | after a new calculation, redo has nothing to do |
| Calculator.UndoAfterRecordKeepsCalculation | app/calculator.py:182-185 | as written, undo right after a calculation restores the history with that calculation, not the history before it |
| Calculator.UndoCanExceedBound | app/calculator.py:185-189 | as written, undo after a calculation at the bound leaves `max_history_size` + 1 entries |
| Calculator.RecordThenUndoGrows | app/calculator.py:182-189 | as written, every calculation followed by an undo lengthens the history by exactly one, whatever its length and the bound |
| Calculator.RecordUndoRoundsUnbounded | app/calculator.py:182-189 | as written, k rounds of calculate-then-undo leave the old history followed by all k calculations, so the history length is unbounded |
| Calculator.RecordPreservesSnapshotBound | app/calculator.py:182-189 | recording on a history within `max_history_size` keeps every list and snapshot at most `max_history_size` + 1 long; this holds only while no undo has left the history over the maximum |
| Calculator.UndoRedoPreserveSnapshotBound | app/calculator.py:245-282 | undo and redo keep that bound; recording keeps it only from a history within `max_history_size` |
| Calculator.SnapshotBoundLost | app/calculator.py:182-189 | recording from a history one over the maximum, as an undo can leave it, pushes a snapshot two over the maximum, so the bound is lost |
| Calculator.RemoveFirstDeletesFirstOccurrence | app/calculator.py:122 | `list.remove(x)` deletes exactly the first occurrence of x and keeps the order of the rest |
| Calculator.RemoveFirst | app/calculator.py:122 | `list.remove(x)` on a list; characterised by `RemoveFirstDeletesFirstOccurrence` and used by `Calculator.RemoveObserver` |
| Calculator.HistoryLine | app/calculator.py:231 | one `show_history` line: name, both operands in parentheses, " = ", result; used by `Calculator.ShowHistory` |
| Calculator.Calculator.constructor | app/calculator.py:34-76 | a new calculator has an empty history, empty stacks, no observers and no strategy, and keeps the given history bound, validator and computations |
| Calculator.Calculator.AddObserver | app/calculator.py:105-112 | the observer is appended at the end |
| Calculator.Calculator.RemoveObserver | app/calculator.py:115-122 | succeeds exactly when the observer is present, deleting its first occurrence; otherwise raises ValueError and leaves the list unchanged |
| Calculator.Calculator.NotifyObservers | app/calculator.py:125-133 | one `update(calculation)` per observer, in list order |
| Calculator.Calculator.SetOperation | app/calculator.py:135-142 | the strategy becomes the given operation |
| Calculator.Calculator.PerformOperation | app/calculator.py:145-201 | a failure leaves history and both stacks unchanged and notifies nobody; a success returns `execute`'s result, performs `Record` with the bound as it is at the call, and notifies every observer once, in order, with the new calculation |
| Calculator.Calculator.ShowHistory | app/calculator.py:223-233 | one line per calculation, oldest first, each starting with the operation name and an opening parenthesis |
| Calculator.Calculator.ClearHistory | app/calculator.py:235-242 | history, undo stack and redo stack are emptied together |
| Calculator.Calculator.Undo | app/calculator.py:245-263 | returns false and changes nothing exactly when there is nothing to undo; otherwise performs `UndoStep` on the three lists |
| Calculator.Calculator.Redo | app/calculator.py:265-282 | the mirror image of `Undo`, with `RedoStep` |
| HelpMenu.NewOperationsHelp | app/help_menu.py:98-107 | None or an empty dict falls back to the default descriptions; any other dict is kept; the descriptions are never empty |
| HelpMenu.NewExamplesHelp | app/help_menu.py:173-182 | None or an empty list falls back to the default examples; any other list is kept |
| HelpMenu.NewNotesHelp | app/help_menu.py:237-246 | None or an empty list falls back to the default notes; any other list is kept |
| HelpMenu.GetHelpText | app/help_menu.py:38-89 | `get_help_text` for each component, with the registry read at call time; characterised by `WrappedTextIsPrefix`, `DefaultShapeText`, `RegisteredLaterIsListed` and `DecoratorOrderMatters` |
| HelpMenu.OperationsSection | app/help_menu.py:140-165 | `_generate_operations_section`; characterised by `OperationsSectionListsName` and `SectionListsRegisteredName`, and computed by `GenerateOperationsSection` |
| HelpMenu.ListSection | app/help_menu.py:215-229 | `_generate_examples_section` and `_generate_notes_section` (app/help_menu.py:276-290); characterised by `ListSectionShowsItem`, and computed by `GenerateListSection` |
| HelpMenu.DescriptionOf | app/help_menu.py:156-159 | the given description or "Perform <name> operation"; characterised by `UnknownNameGetsDefaultDescription` and `SquareDescription` |
| HelpMenu.OperationLine | app/help_menu.py:162 | one padded operation line; characterised by `UnknownNameGetsDefaultDescription` |
| HelpMenu.WrappedTextIsPrefix | app/help_menu.py:82-89 | every decorator's text starts with the wrapped text; the base decorator adds nothing; the operations decorator adds its section; the notes decorator's text ends with the footer |
| HelpMenu.OperationsSectionListsName | app/help_menu.py:140-165 | the operations section has one line per registered name in ascending order: the i-th name is registered, smaller than all later ones and larger than all earlier ones, and the lines split around its line |
| HelpMenu.ItemLine | app/help_menu.py:226 | `f"  {item}\n"`, the line of one example or note; its place in the section is stated by `ListSectionShowsItem` |
| HelpMenu.ListSectionShowsItem | app/help_menu.py:215-229 | every example or note gets its own indented line, in list order, between the rule and the closing blank line |
| HelpMenu.UnknownNameGetsDefaultDescription | app/help_menu.py:156-159 | a name with no description is shown as "Perform <name> operation", padded to 15 |
| HelpMenu.SectionListsRegisteredName | app/help_menu.py:148-163 | every registered name's line, with its description or the default, occurs in the operations section |
| HelpMenu.RegisteredLaterIsListed | app/help_menu.py:129-165 | the registry is read when the text is asked for, so the text of an operations decorator built before a registration contains the line of the newly registered lower-cased name |
| HelpMenu.RegisteredNameInText | tests/test_help_menu.py:239-260 | for any menu with an operations decorator anywhere in its chain, the default menu included, the lower-cased name of a class registered after the menu was built occurs in its help text |
| HelpMenu.SquareIsListed | tests/test_help_menu.py:69-84 | registering `Square` under "square" puts "square" in the help text of any menu with an operations section |
| HelpMenu.SquareDescription | app/help_menu.py:156-159 | the default descriptions have no entry for "square", so it is described as "Perform square operation" |
| HelpMenu.NotesTextEnding | app/help_menu.py:264-299 | a text finished by the notes decorator ends with the footer's corner and a newline |
| HelpMenu.OperationsTextEnding | app/help_menu.py:140-165 | a text finished by the operations decorator ends with a blank line |
| HelpMenu.DecoratorOrderMatters | tests/test_help_menu.py:219-231 | whatever the registry holds, a menu finished by the notes decorator and one finished by the operations decorator never show the same text, so Notes(Examples(Operations(Base))) differs from Operations(Examples(Notes(Base))) |
| HelpMenu.GenerateOperationsSection | app/help_menu.py:140-165 | the loop builds the title, the 64-character rule, one padded line per sorted name with its description or the default, and a blank line |
| HelpMenu.GenerateListSection | app/help_menu.py:215-229 | the loop builds the title, the rule, one indented line per item, and a blank line; `_generate_notes_section` (app/help_menu.py:276-290) is the same loop under the notes title |
| HelpMenu.HelpMenuBuilder.constructor | app/help_menu.py:308-310 | a new builder holds the base menu |
| HelpMenu.HelpMenuBuilder.WithOperations | app/help_menu.py:312-323 | wraps the current component in the operations decorator and returns the same builder |
| HelpMenu.HelpMenuBuilder.WithExamples | app/help_menu.py:325-336 | wraps the current component in the examples decorator and returns the same builder |
| HelpMenu.HelpMenuBuilder.WithNotes | app/help_menu.py:338-349 | wraps the current component in the notes decorator and returns the same builder |
| HelpMenu.HelpMenuBuilder.Build | app/help_menu.py:351-358 | returns the component built so far |
| HelpMenu.CreateDefaultHelpMenu | app/help_menu.py:361-372 | the default menu is Notes(Examples(Operations(Base))), each with its defaults, so it has an operations section and lists names registered later (`RegisteredNameInText`) |
| HelpMenu.DefaultShapeText | app/help_menu.py:264-274 | a menu of that shape shows the base text, the operations, examples and notes sections, then the footer |

## Left out

- Console I/O, logging and configuration: the REPL in app/calculator_repl.py, `display_help`, `_setup_logging`, `_setup_directories`, `config.validate()`. They only print, log or touch the filesystem. `_setup_logging` does not parse as written: a comma is missing in its `basicConfig` call.
- `get_history_dataframe`: a pandas wrapper with no logic of its own.
- `_load_history` and history persistence: not defined in the calculator file, and file I/O.
- Timestamps on calculations and mementos: they do not take part in any decision.
- The values of Power and Root: computed through `float` and `pow`. `Foreign.floatPow` is an uninterpreted parameter, so only the guards are proved, and nothing is claimed about the computed values (Power(a, 0) = 1, say).
- The `execute` of an operation registered at run time: code outside the model, represented by `Foreign.userExecute`.
- Decimal context precision, rounding and signals: values are exact reals, so rounding of long quotients is not modelled, and neither are the exceptions the default 28-digit context raises. These are `decimal.InvalidOperation` (DivisionImpossible) from `//` and `%` when the integer quotient needs more than 28 digits, such as `Decimal('1e9') // Decimal('1e-20')`, and `Overflow` past the largest exponent. `Operations.TotalOperations` ("never raise"), `Operations.ModulusAndIntegerDivisionGuards` and `Operations.DivisionWithRemainder` hold over exact reals only.
- Operations.Validate: reports Pass for every class registered at run time. Such a class may override `validate_operands` or inherit a guard, for example from `Division`, and its `execute` need not call it at all. Its whole behaviour, including any validation, is folded into `Foreign.userExecute`. `Operations.ExecuteFailsExactlyOnValidationFailure` is a statement about the ten built-in classes.
- `InputValidator.validate_number`: its file is not part of this model. It is the uninterpreted `validator` field of `Calculator`, a function from a raw input to a number or an error.
- How `Calculation` computes its result: its file is not part of this model. It is the uninterpreted `construct` field of `Calculator`, which gives the record's result or the exception the constructor raises, such as an unknown operation name or an overflow.
- The operation name in a `Calculation`: the record holds the operation's class name (`OpKind.Name`) instead of the strategy object.
- `str(Decimal)` in `show_history`: it is the parameter `render`.
- `Text.Lower`: does not model `str.lower()` beyond ASCII letters; other characters are kept as they are.
- Observer effects: `LoggingObserver` and `AutoSaveObserver` are outside the core. `NotifyObservers` returns the calls it makes, in order.
- An observer that raises inside `perform_operation`, after the history and stacks were updated: it would surface as an OperationError on an already-recorded calculation. The model's observers never raise.
- Class-level sharing: `OperationFactory._operations` is a class attribute shared by all callers. The model keeps it in one `OperationFactory` object, and the help menu takes the registry table as a parameter read at call time.
- Abstract registered classes: `register_operation` accepts `Operation` itself or any subclass that leaves `execute` abstract, and `create_operation` then raises TypeError when it instantiates the class (app/operations.py:449). The model assumes every registered class is concrete, so a hit in the table always succeeds.
- Object identity: `create_operation` returns a fresh instance of the class. The model returns the class (`OpKind`) itself.
