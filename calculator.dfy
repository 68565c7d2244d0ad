/** The history engine of app/calculator.py: bounded history, memento
    undo/redo and observer notification, modelled as the code is written
    (the undo snapshot is taken after the new calculation is appended). */
module Calculator {
  import opened Exceptions
  import opened Operations

  /** A calculation record: the operation's name, both operands and the result.
      Its timestamp is not modelled. */
  datatype Calculation = Calculation(operation: string, operand1: real, operand2: real, result: real)

  /** A memento holds a copy of the history list; copies have value semantics. */
  type Memento = seq<Calculation>

  /** The three lists the engine mutates. */
  datatype EngineState = EngineState(history: seq<Calculation>, undoStack: seq<Memento>, redoStack: seq<Memento>)

  /** A raw operand as handed to `perform_operation`: a string or a number. */
  datatype RawInput = StringInput(text: string) | NumericInput(number: real)

  /** An observer, identified as the Python object is. */
  datatype Observer = Observer(id: nat)

  /** One call `observer.update(calculation)`. */
  datatype Notification = Notification(observer: Observer, calculation: Calculation)

  const NoOperationSet := "No operation set"
  const NotInList := "list.remove(x): x not in list"

  /** The `except` clauses of `perform_operation`: a ValidationError is
      re-raised, anything else becomes an OperationError. */
  function Reraise(e: Error): (r: Error)
    ensures r.IsCalculatorError()
    ensures e.ValidationError? ==> r == e
    ensures !e.ValidationError? ==> r == OperationError("Operation failed: " + e.message)
  {
    if e.ValidationError? then e else OperationError("Operation failed: " + e.message)
  }

  /** `Calculation(operation, operand1, operand2)`: the result the record
      computes for itself from the operation's name, or the exception its
      constructor raises (an unknown name, an overflow). */
  type CalculationResult = (string, real, real) -> Result<real>

  /** What a successful `perform_operation` returns and what it records. */
  datatype Performed = Performed(value: real, calculation: Calculation)

  /** Lines 164-181 of `perform_operation`: the strategy check, the two
      operand validations, `execute`, and the construction of the record,
      all but the first inside the `try`. */
  function Attempt(strategy: Option<OpKind>, validator: RawInput -> Result<real>, foreign: Foreign,
                   construct: CalculationResult, a: RawInput, b: RawInput): Result<Performed>
  {
    if strategy.None? then Failure(ValueError(NoOperationSet))
    else
      var va := validator(a);
      if va.Failure? then Failure(Reraise(va.error))
      else
        var vb := validator(b);
        if vb.Failure? then Failure(Reraise(vb.error))
        else
          var result := Execute(strategy.value, va.value, vb.value, foreign);
          if result.Failure? then Failure(Reraise(result.error))
          else
            var name := strategy.value.Name();
            var recorded := construct(name, va.value, vb.value);
            if recorded.Failure? then Failure(Reraise(recorded.error))
            else Success(Performed(result.value, Calculation(name, va.value, vb.value, recorded.value)))
  }

  /** Without a strategy `perform_operation` raises ValueError; otherwise the
      first failing step -- first operand, second operand, `execute`, the
      record's constructor -- decides the error, re-raised as a ValidationError
      or wrapped in an OperationError; success means every step succeeded,
      and then `execute`'s result is returned and the record holds the
      operation's name, the validated operands and its own result. */
  lemma AttemptOutcomes(strategy: Option<OpKind>, validator: RawInput -> Result<real>, foreign: Foreign,
                        construct: CalculationResult, a: RawInput, b: RawInput)
    ensures var r := Attempt(strategy, validator, foreign, construct, a, b);
      && (strategy.None? <==> r == Failure(ValueError(NoOperationSet)))
      && (r.Failure? && strategy.Some? ==> r.error.IsCalculatorError())
      && (strategy.Some? && validator(a).Failure? ==> r == Failure(Reraise(validator(a).error)))
      && (strategy.Some? && validator(a).Success? && validator(b).Failure? ==>
           r == Failure(Reraise(validator(b).error)))
      && (strategy.Some? && validator(a).Success? && validator(b).Success? ==>
           var result := Execute(strategy.value, validator(a).value, validator(b).value, foreign);
           var recorded := construct(strategy.value.Name(), validator(a).value, validator(b).value);
           && (result.Failure? ==> r == Failure(Reraise(result.error)))
           && (result.Success? && recorded.Failure? ==> r == Failure(Reraise(recorded.error)))
           && (r.Success? <==> result.Success? && recorded.Success?)
           && (r.Success? ==>
                && r.value.value == result.value
                && r.value.calculation == Calculation(strategy.value.Name(), validator(a).value, validator(b).value, recorded.value)))
      && (r.Success? ==> strategy.Some? && validator(a).Success? && validator(b).Success?)
  {
  }

  /** A validation error raised by an operation (division by zero, say)
      reaches the caller unchanged. */
  lemma ValidationErrorReachesCaller(strategy: OpKind, validator: RawInput -> Result<real>, foreign: Foreign,
                                     construct: CalculationResult, a: RawInput, b: RawInput)
    requires validator(a).Success? && validator(b).Success?
    requires Validate(strategy, validator(a).value, validator(b).value).Fail?
    ensures Attempt(Some(strategy), validator, foreign, construct, a, b) ==
      Failure(Validate(strategy, validator(a).value, validator(b).value).error)
  {
    ExecuteFailsExactlyOnValidationFailure(strategy, validator(a).value, validator(b).value, foreign);
  }

  /** Lines 182-189 of `perform_operation`: append, push a copy of the
      appended list, clear the redo stack, then evict index 0 if too long. */
  function Record(s: EngineState, c: Calculation, maxHistorySize: nat): EngineState {
    var appended := s.history + [c];
    EngineState(
      if |appended| > maxHistorySize then appended[1..] else appended,
      s.undoStack + [appended],
      [])
  }

  /** A recorded calculation grows the undo stack by one snapshot (the history
      WITH the new calculation), keeps the older snapshots, empties the redo
      stack, and leaves the appended history with at most index 0 removed. */
  lemma RecordEffects(s: EngineState, c: Calculation, maxHistorySize: nat)
    ensures var r := Record(s, c, maxHistorySize);
      && |r.undoStack| == |s.undoStack| + 1
      && r.undoStack[..|s.undoStack|] == s.undoStack
      && r.undoStack[|s.undoStack|] == s.history + [c]
      && r.redoStack == []
      && (r.history == s.history + [c] || r.history == (s.history + [c])[1..])
      && (|s.history| < maxHistorySize <==> r.history == s.history + [c])
      && (r.history != [] ==> r.history[|r.history| - 1] == c)
  {
  }

  /** A history within the bound stays within it, and then ends with the new
      calculation whenever the bound is at least one. */
  lemma RecordKeepsBound(s: EngineState, c: Calculation, maxHistorySize: nat)
    requires |s.history| <= maxHistorySize
    ensures var r := Record(s, c, maxHistorySize);
      && |r.history| <= maxHistorySize
      && |r.history| == (if |s.history| < maxHistorySize then |s.history| + 1 else maxHistorySize)
      && (maxHistorySize >= 1 ==> r.history != [] && r.history[|r.history| - 1] == c)
  {
  }

  /** The last `n` elements of `s` (all of it when it is shorter). */
  function LastN<T>(s: seq<T>, n: nat): seq<T> {
    if |s| <= n then s else s[|s| - n..]
  }

  lemma {:induction false} LastNOfLastN<T>(x: seq<T>, y: seq<T>, n: nat)
    ensures LastN(LastN(x, n) + y, n) == LastN(x + y, n)
  {
    var lx := LastN(x, n);
    if |x| > n {
      assert lx == x[|x| - n..];
      assert x + y == x[..|x| - n] + (lx + y);
      if |lx + y| <= n {
        assert |y| == 0;
        assert y == [];
        assert lx + y == lx;
      } else {
        var k := |lx + y| - n;
        assert (lx + y)[k..] == (x + y)[|x + y| - n..];
      }
    }
  }

  /** Records a sequence of calculations, one `perform_operation` after another. */
  function RecordAll(s: EngineState, cs: seq<Calculation>, maxHistorySize: nat): EngineState
    decreases |cs|
  {
    if cs == [] then s else RecordAll(Record(s, cs[0], maxHistorySize), cs[1..], maxHistorySize)
  }

  /** Within the bound, one recorded calculation keeps the last
      `maxHistorySize` entries of the appended history. */
  lemma RecordIsLastN(s: EngineState, c: Calculation, maxHistorySize: nat)
    requires |s.history| <= maxHistorySize
    ensures Record(s, c, maxHistorySize).history == LastN(s.history + [c], maxHistorySize)
  {
  }

  /** Without undo in between, the history after a run of calculations is
      the last `maxHistorySize` of the old history followed by the new ones. */
  lemma {:induction false} RecordAllKeepsLast(s: EngineState, cs: seq<Calculation>, maxHistorySize: nat)
    requires |s.history| <= maxHistorySize
    ensures RecordAll(s, cs, maxHistorySize).history == LastN(s.history + cs, maxHistorySize)
    decreases |cs|
  {
    if cs == [] {
      assert s.history + cs == s.history;
    } else {
      var h := s.history;
      var s' := Record(s, cs[0], maxHistorySize);
      RecordIsLastN(s, cs[0], maxHistorySize);
      RecordKeepsBound(s, cs[0], maxHistorySize);
      RecordAllKeepsLast(s', cs[1..], maxHistorySize);
      LastNOfLastN(h + [cs[0]], cs[1..], maxHistorySize);
      assert h + [cs[0]] + cs[1..] == h + cs;
      assert RecordAll(s, cs, maxHistorySize) == RecordAll(s', cs[1..], maxHistorySize);
      assert s'.history == LastN(h + [cs[0]], maxHistorySize);
      assert LastN(s'.history + cs[1..], maxHistorySize) == LastN(h + cs, maxHistorySize);
    }
  }

  /** From an empty history, N > M calculations leave exactly the last M. */
  lemma FromEmptyKeepsLastM(undoStack: seq<Memento>, redoStack: seq<Memento>, cs: seq<Calculation>, maxHistorySize: nat)
    requires |cs| > maxHistorySize
    ensures RecordAll(EngineState([], undoStack, redoStack), cs, maxHistorySize).history == cs[|cs| - maxHistorySize..]
  {
    RecordAllKeepsLast(EngineState([], undoStack, redoStack), cs, maxHistorySize);
    assert [] + cs == cs;
  }

  /** `undo`: pop the top snapshot, push the current history onto the redo
      stack, restore the snapshot. Nothing happens on an empty undo stack. */
  function UndoStep(s: EngineState): EngineState {
    if s.undoStack == [] then s
    else
      var n := |s.undoStack| - 1;
      EngineState(s.undoStack[n], s.undoStack[..n], s.redoStack + [s.history])
  }

  /** `redo`: the mirror image of `undo`. */
  function RedoStep(s: EngineState): EngineState {
    if s.redoStack == [] then s
    else
      var n := |s.redoStack| - 1;
      EngineState(s.redoStack[n], s.undoStack + [s.history], s.redoStack[..n])
  }

  /** Undo and redo change nothing on an empty stack; otherwise they move
      one snapshot across, changing the stack sizes by one each way. */
  lemma UndoRedoEffects(s: EngineState)
    ensures s.undoStack == [] ==> UndoStep(s) == s
    ensures s.redoStack == [] ==> RedoStep(s) == s
    ensures s.undoStack != [] ==>
      var u := UndoStep(s);
      && u.history == s.undoStack[|s.undoStack| - 1]
      && |u.undoStack| == |s.undoStack| - 1 && u.undoStack <= s.undoStack
      && u.redoStack == s.redoStack + [s.history]
    ensures s.redoStack != [] ==>
      var r := RedoStep(s);
      && r.history == s.redoStack[|s.redoStack| - 1]
      && |r.redoStack| == |s.redoStack| - 1 && r.redoStack <= s.redoStack
      && r.undoStack == s.undoStack + [s.history]
  {
  }

  /** Undo followed by redo restores all three lists exactly. */
  lemma UndoThenRedo(s: EngineState)
    requires s.undoStack != []
    ensures RedoStep(UndoStep(s)) == s
  {
    var n := |s.undoStack| - 1;
    assert s.undoStack[..n] + [s.undoStack[n]] == s.undoStack;
    assert (s.redoStack + [s.history])[..|s.redoStack|] == s.redoStack;
  }

  /** Redo followed by undo restores all three lists exactly. */
  lemma RedoThenUndo(s: EngineState)
    requires s.redoStack != []
    ensures UndoStep(RedoStep(s)) == s
  {
    var n := |s.redoStack| - 1;
    assert s.redoStack[..n] + [s.redoStack[n]] == s.redoStack;
    assert (s.undoStack + [s.history])[..|s.undoStack|] == s.undoStack;
  }

  function UndoTimes(s: EngineState, k: nat): EngineState {
    if k == 0 then s else UndoStep(UndoTimes(s, k - 1))
  }

  function RedoTimes(s: EngineState, k: nat): EngineState
    decreases k
  {
    if k == 0 then s else RedoTimes(RedoStep(s), k - 1)
  }

  lemma {:induction false} UndoTimesShrinks(s: EngineState, k: nat)
    requires k <= |s.undoStack|
    ensures |UndoTimes(s, k).undoStack| == |s.undoStack| - k
  {
    if k > 0 {
      UndoTimesShrinks(s, k - 1);
    }
  }

  /** k undos followed by k redos restore the exact prior state, for any k
      up to the number of snapshots. */
  lemma {:induction false} UndoRedoInverse(s: EngineState, k: nat)
    requires k <= |s.undoStack|
    ensures RedoTimes(UndoTimes(s, k), k) == s
  {
    if k > 0 {
      var before := UndoTimes(s, k - 1);
      UndoTimesShrinks(s, k - 1);
      UndoThenRedo(before);
      assert RedoTimes(UndoTimes(s, k), k) == RedoTimes(before, k - 1);
      UndoRedoInverse(s, k - 1);
    }
  }

  /** A new calculation after any number of undos leaves nothing to redo. */
  lemma NothingToRedoAfterRecord(s: EngineState, c: Calculation, maxHistorySize: nat)
    ensures RedoStep(Record(s, c, maxHistorySize)) == Record(s, c, maxHistorySize)
  {
  }

  /** As written, undo right after a calculation restores the history WITH
      that calculation (the state before eviction), not the history before it. */
  lemma UndoAfterRecordKeepsCalculation(s: EngineState, c: Calculation, maxHistorySize: nat)
    ensures UndoStep(Record(s, c, maxHistorySize)).history == s.history + [c]
    ensures UndoStep(Record(s, c, maxHistorySize)).history != s.history
  {
    assert |s.history + [c]| != |s.history|;
  }

  /** So an undo can leave the history one longer than its bound. */
  lemma UndoCanExceedBound(s: EngineState, c: Calculation, maxHistorySize: nat)
    requires |s.history| == maxHistorySize
    ensures |UndoStep(Record(s, c, maxHistorySize)).history| == maxHistorySize + 1
  {
    UndoAfterRecordKeepsCalculation(s, c, maxHistorySize);
  }

  /** Every calculation followed by an undo lengthens the history by one,
      whatever its length and the bound: the eviction is undone with it. */
  lemma RecordThenUndoGrows(s: EngineState, c: Calculation, maxHistorySize: nat)
    ensures |UndoStep(Record(s, c, maxHistorySize)).history| == |s.history| + 1
  {
    UndoAfterRecordKeepsCalculation(s, c, maxHistorySize);
  }

  /** Rounds of one calculation and one undo each. */
  function RecordUndoRounds(s: EngineState, cs: seq<Calculation>, maxHistorySize: nat): EngineState
    decreases |cs|
  {
    if cs == [] then s else RecordUndoRounds(UndoStep(Record(s, cs[0], maxHistorySize)), cs[1..], maxHistorySize)
  }

  /** As written, the history is not bounded: after k rounds of calculate and
      undo it holds the old history followed by all k calculations. */
  lemma {:induction false} RecordUndoRoundsUnbounded(s: EngineState, cs: seq<Calculation>, maxHistorySize: nat)
    ensures RecordUndoRounds(s, cs, maxHistorySize).history == s.history + cs
    ensures |RecordUndoRounds(s, cs, maxHistorySize).history| == |s.history| + |cs|
    decreases |cs|
  {
    if cs != [] {
      var s' := UndoStep(Record(s, cs[0], maxHistorySize));
      UndoAfterRecordKeepsCalculation(s, cs[0], maxHistorySize);
      RecordUndoRoundsUnbounded(s', cs[1..], maxHistorySize);
      assert s.history + [cs[0]] + cs[1..] == s.history + cs;
    }
  }

  /** A bound that holds only while every calculation is recorded from a
      history within the maximum: then no history and no snapshot is longer
      than the maximum plus one. An undo right after a calculation at the
      bound breaks that premise (UndoCanExceedBound), and the next
      calculation breaks the bound itself (SnapshotBoundLost). */
  ghost predicate WithinSnapshotBound(s: EngineState, maxHistorySize: nat) {
    && |s.history| <= maxHistorySize + 1
    && (forall i :: 0 <= i < |s.undoStack| ==> |s.undoStack[i]| <= maxHistorySize + 1)
    && (forall i :: 0 <= i < |s.redoStack| ==> |s.redoStack[i]| <= maxHistorySize + 1)
  }

  lemma RecordPreservesSnapshotBound(s: EngineState, c: Calculation, maxHistorySize: nat)
    requires WithinSnapshotBound(s, maxHistorySize) && |s.history| <= maxHistorySize
    ensures WithinSnapshotBound(Record(s, c, maxHistorySize), maxHistorySize)
  {
  }

  /** Undo and redo preserve the bound; recording preserves it only from a
      history within the maximum, since one record evicts only one entry. */
  lemma {:induction false} UndoRedoPreserveSnapshotBound(s: EngineState, c: Calculation, maxHistorySize: nat)
    requires WithinSnapshotBound(s, maxHistorySize)
    ensures WithinSnapshotBound(UndoStep(s), maxHistorySize)
    ensures WithinSnapshotBound(RedoStep(s), maxHistorySize)
    ensures |s.history| <= maxHistorySize ==> WithinSnapshotBound(Record(s, c, maxHistorySize), maxHistorySize)
  {
    if s.undoStack != [] {
      var u := UndoStep(s);
      var n := |s.undoStack| - 1;
      assert forall i :: 0 <= i < |u.undoStack| ==> u.undoStack[i] == s.undoStack[i];
      assert forall i :: 0 <= i < |u.redoStack| ==> u.redoStack[i] == (s.redoStack + [s.history])[i];
    }
    if s.redoStack != [] {
      var r := RedoStep(s);
      assert forall i :: 0 <= i < |r.redoStack| ==> r.redoStack[i] == s.redoStack[i];
      assert forall i :: 0 <= i < |r.undoStack| ==> r.undoStack[i] == (s.undoStack + [s.history])[i];
    }
    if |s.history| <= maxHistorySize {
      RecordPreservesSnapshotBound(s, c, maxHistorySize);
    }
  }

  /** Recording from a history already one past the maximum, as an undo
      can leave it, pushes a snapshot two past the maximum. */
  lemma SnapshotBoundLost(s: EngineState, c: Calculation, maxHistorySize: nat)
    requires |s.history| == maxHistorySize + 1
    ensures !WithinSnapshotBound(Record(s, c, maxHistorySize), maxHistorySize)
  {
    var r := Record(s, c, maxHistorySize);
    assert |r.undoStack[|s.undoStack|]| == maxHistorySize + 2;
  }

  /** `list.remove(x)`: drop the first element equal to `x`. */
  function RemoveFirst<T(==)>(s: seq<T>, x: T): seq<T> {
    if s == [] then []
    else if s[0] == x then s[1..]
    else [s[0]] + RemoveFirst(s[1..], x)
  }

  /** Removing an element that is present deletes exactly its first
      occurrence and keeps the order of the rest. */
  lemma {:induction false} RemoveFirstDeletesFirstOccurrence<T>(s: seq<T>, x: T, i: nat)
    requires i < |s| && s[i] == x && forall j :: 0 <= j < i ==> s[j] != x
    ensures RemoveFirst(s, x) == s[..i] + s[i + 1..]
  {
    if i > 0 {
      RemoveFirstDeletesFirstOccurrence(s[1..], x, i - 1);
      assert s[..i] == [s[0]] + s[1..][..i - 1];
      assert s[i + 1..] == s[1..][i..];
    }
  }

  /** One line of `show_history`; `render` stands for `str` on a Decimal. */
  function HistoryLine(c: Calculation, render: real -> string): string {
    c.operation + "(" + render(c.operand1) + ", " + render(c.operand2) + ") = " + render(c.result)
  }

  /** The engine: `Calculator` with its configuration reduced to the history
      bound, the operand validator and the uninterpreted computations. */
  class Calculator {
    /** `config.max_history_size`, read on every calculation; like the
        configuration object, it can be reassigned between calls. */
    var maxHistorySize: nat
    const validator: RawInput -> Result<real>
    const foreign: Foreign
    const construct: CalculationResult
    var history: seq<Calculation>
    var operationStrategy: Option<OpKind>
    var observers: seq<Observer>
    var undoStack: seq<Memento>
    var redoStack: seq<Memento>

    function State(): EngineState
      reads this
    {
      EngineState(history, undoStack, redoStack)
    }

    constructor (maxHistorySize: nat, validator: RawInput -> Result<real>, foreign: Foreign, construct: CalculationResult)
      ensures this.maxHistorySize == maxHistorySize && this.validator == validator && this.foreign == foreign
      ensures this.construct == construct
      ensures history == [] && undoStack == [] && redoStack == []
      ensures observers == [] && operationStrategy == None
    {
      this.maxHistorySize := maxHistorySize;
      this.validator := validator;
      this.foreign := foreign;
      this.construct := construct;
      history := [];
      operationStrategy := None;
      observers := [];
      undoStack := [];
      redoStack := [];
    }

    /** `add_observer`: append at the end. */
    method AddObserver(observer: Observer)
      modifies this`observers
      ensures observers == old(observers) + [observer]
    {
      observers := observers + [observer];
    }

    /** `remove_observer`: delete the first equal entry, or raise ValueError
      when there is none. */
    method RemoveObserver(observer: Observer) returns (r: Outcome)
      modifies this`observers
      ensures r.Pass? <==> observer in old(observers)
      ensures r.Fail? ==> r.error == ValueError(NotInList) && observers == old(observers)
      ensures r.Pass? ==> observers == RemoveFirst(old(observers), observer)
    {
      if observer !in observers {
        return Fail(ValueError(NotInList));
      }
      observers := RemoveFirst(observers, observer);
      r := Pass;
    }

    /** `_notify_observers`: one `update(calculation)` per observer, in list
      order; the calls are returned, their effects are foreign. */
    method NotifyObservers(calculation: Calculation) returns (sent: seq<Notification>)
      ensures |sent| == |observers|
      ensures forall i :: 0 <= i < |sent| ==> sent[i] == Notification(observers[i], calculation)
    {
      sent := [];
      for i := 0 to |observers|
        invariant |sent| == i
        invariant forall j :: 0 <= j < i ==> sent[j] == Notification(observers[j], calculation)
      {
        sent := sent + [Notification(observers[i], calculation)];
      }
    }

    /** `set_operation`. */
    method SetOperation(operation: OpKind)
      modifies this`operationStrategy
      ensures operationStrategy == Some(operation)
    {
      operationStrategy := Some(operation);
    }

    /** `perform_operation`: on failure nothing changes and nobody is notified;
      on success the calculation is recorded as `Record` says, every observer
      is notified once in order, and `execute`'s result is returned. */
    method PerformOperation(a: RawInput, b: RawInput) returns (r: Result<real>, notified: seq<Notification>)
      modifies this`history, this`undoStack, this`redoStack
      ensures var attempt := Attempt(operationStrategy, validator, foreign, construct, a, b);
        && (attempt.Failure? ==> r == Failure(attempt.error) && State() == old(State()) && notified == [])
        && (attempt.Success? ==>
             && r == Success(attempt.value.value)
             && State() == Record(old(State()), attempt.value.calculation, maxHistorySize)
             && |notified| == |observers|
             && forall i :: 0 <= i < |notified| ==> notified[i] == Notification(observers[i], attempt.value.calculation))
    {
      notified := [];
      if operationStrategy.None? {
        return Failure(ValueError(NoOperationSet)), [];
      }
      var operation := operationStrategy.value;
      var validatedA := validator(a);
      if validatedA.Failure? {
        return Failure(Reraise(validatedA.error)), [];
      }
      var validatedB := validator(b);
      if validatedB.Failure? {
        return Failure(Reraise(validatedB.error)), [];
      }
      var result := Execute(operation, validatedA.value, validatedB.value, foreign);
      if result.Failure? {
        return Failure(Reraise(result.error)), [];
      }
      var recorded := construct(operation.Name(), validatedA.value, validatedB.value);
      if recorded.Failure? {
        return Failure(Reraise(recorded.error)), [];
      }
      var calculation := Calculation(operation.Name(), validatedA.value, validatedB.value, recorded.value);
      history := history + [calculation];
      undoStack := undoStack + [history];
      redoStack := [];
      if |history| > maxHistorySize {
        history := history[1..];
      }
      notified := NotifyObservers(calculation);
      r := Success(result.value);
    }

    /** `show_history`: one formatted line per calculation, oldest first. */
    function ShowHistory(render: real -> string): (lines: seq<string>)
      reads this
      ensures |lines| == |history|
      ensures forall i :: 0 <= i < |lines| ==>
        && history[i].operation + "(" <= lines[i]
        && lines[i] == HistoryLine(history[i], render)
    {
      var h := history;
      seq(|h|, i requires 0 <= i < |h| => HistoryLine(h[i], render))
    }

    /** `clear_history`: the history and both stacks are emptied together. */
    method ClearHistory()
      modifies this`history, this`undoStack, this`redoStack
      ensures State() == EngineState([], [], [])
    {
      history := [];
      undoStack := [];
      redoStack := [];
    }

    /** `undo`: false and no change on an empty undo stack. */
    method Undo() returns (ok: bool)
      modifies this`history, this`undoStack, this`redoStack
      ensures ok <==> old(undoStack) != []
      ensures State() == UndoStep(old(State()))
    {
      if undoStack == [] {
        return false;
      }
      var n := |undoStack| - 1;
      var memento := undoStack[n];
      undoStack := undoStack[..n];
      redoStack := redoStack + [history];
      history := memento;
      ok := true;
    }

    /** `redo`: false and no change on an empty redo stack. */
    method Redo() returns (ok: bool)
      modifies this`history, this`undoStack, this`redoStack
      ensures ok <==> old(redoStack) != []
      ensures State() == RedoStep(old(State()))
    {
      if redoStack == [] {
        return false;
      }
      var n := |redoStack| - 1;
      var memento := redoStack[n];
      redoStack := redoStack[..n];
      undoStack := undoStack + [history];
      history := memento;
      ok := true;
    }
  }
}
