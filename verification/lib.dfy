/**
  The crate's entry points: accepting a loaded program, compiling its
  circuit into a circuit structure and a constraint system, and driving
  the iteration over a sequence of private inputs.

  `execute_steps` returns a lazy iterator. Here it is the sequence of the
  items it yields when consumed to the end: an item is `Ok` or `Err`, and an
  abort inside an iteration ends the sequence with a `Panic` item, since
  the unwinding stops the consumer.
 */
module Functions {
  import opened Errors
  import opened Field
  import opened IdSets
  import opened IvcTypes
  import opened Gate
  import opened Program
  import opened ProgramProofs
  import opened Load
  import opened Iteration

  /** The Noir compiler version the bridge is pinned to. */
  const NoirVersion: string := "0.33.0+325dac54efb6f99201de9fdeb0a507d45189607d"

  /**
    `load_circuit` once the artifact is parsed: the compiler version must be
    the pinned one (an assertion), the program must pass `check_supported`,
    and its only function is returned.
   */
  function LoadCircuit(lib: IvcLib, noirVersion: string, program: AcirProgram): (r: Result<AcvmCircuit>)
    ensures noirVersion != NoirVersion ==> r == Panic(NoirVersionMismatch)
    ensures noirVersion == NoirVersion && CheckSupported(lib, program).Fail? ==>
              r == Err(UnsupportedProgram(CheckSupported(lib, program).error))
    ensures r.Ok? <==> noirVersion == NoirVersion && CheckSupported(lib, program).Pass?
    ensures r.Ok? ==> |program.functions| == 1 && r.value == program.functions[0]
                      && AllAssertZero(r.value.opcodes)
  {
    if noirVersion != NoirVersion then Panic(NoirVersionMismatch)
    else
      match CheckSupported(lib, program)
      case Fail(e) => Err(UnsupportedProgram(e))
      case Pass => Ok(program.functions[0])
  }

  /**
    `compile`: the circuit structure built from the circuit, and the
    constraint system compiled from it in the given coefficient mode
    (`WitnessValues` as written, `UnitCoefficients` as intended).
   */
  function CompileCircuit(mode: CoefficientMode, types: FieldTypes, lib: IvcLib, circuit: AcvmCircuit)
    : (r: Result<(CircuitStructure, IVCProgram)>)
    ensures r.Ok? <==> FromAcvmCircuit(types, lib, circuit).Ok? && CompileWith(mode, FromAcvmCircuit(types, lib, circuit).value).Ok?
    ensures r.Ok? ==> r.value.0 == FromAcvmCircuit(types, lib, circuit).value
                      && r.value.1 == CompileWith(mode, r.value.0).value
    ensures FromAcvmCircuit(types, lib, circuit).Ok? && !r.Ok? ==>
              r == CompileWith(mode, FromAcvmCircuit(types, lib, circuit).value).PropagateFailure()
  {
    var structure :- FromAcvmCircuit(types, lib, circuit);
    var program :- CompileWith(mode, structure);
    Ok((structure, program))
  }

  /** One iteration as a state transition: `UnexecutedCircuit::execute` with its foreign pieces fixed. */
  type Transition = (UnexecutedCircuit, Witness) -> Result<(ExecutionResult, Witness, UnexecutedCircuit)>

  /** An iteration's outcome as `execute_steps` yields it: the next state reduced to its public input, as an `IO`. */
  function Project(lib: IvcLib, r: Result<(ExecutionResult, Witness, UnexecutedCircuit)>): (item: Result<(ExecutionResult, Witness, IO)>)
    ensures item.Ok? <==> r.Ok?
    ensures r.Ok? ==> item.value == (r.value.0, r.value.1, lib.witnessToIO(r.value.2.publicInput))
    ensures r.Err? ==> item == Err(r.error)
    ensures r.Panic? ==> item == Panic(r.reason)
  {
    match r
    case Ok((res, assignment, next)) => Ok((res, assignment, lib.witnessToIO(next.publicInput)))
    case Err(e) => Err(e)
    case Panic(p) => Panic(p)
  }

  /** The state after one item: the next state after an `Ok`, the same state otherwise. */
  function Advance(exec: Transition, state: UnexecutedCircuit, privateInput: Witness): UnexecutedCircuit {
    match exec(state, privateInput)
    case Ok((_, _, next)) => next
    case Err(_) => state
    case Panic(_) => state
  }

  /** The items yielded for `privateInputs`, starting from `state`; an abort ends the sequence. */
  function Drive(lib: IvcLib, exec: Transition, state: UnexecutedCircuit, privateInputs: seq<Witness>)
    : (items: seq<Result<(ExecutionResult, Witness, IO)>>)
    ensures |items| <= |privateInputs|
    ensures forall i :: 0 <= i < |items| - 1 ==> !items[i].Panic?
    ensures |items| < |privateInputs| ==> |items| > 0 && items[|items| - 1].Panic?
    decreases |privateInputs|
  {
    if |privateInputs| == 0 then []
    else
      var item := Project(lib, exec(state, privateInputs[0]));
      if item.Panic? then [item]
      else [item] + Drive(lib, exec, Advance(exec, state, privateInputs[0]), privateInputs[1..])
  }

  /** `UnexecutedCircuit::execute` under `env`, as a transition. */
  function ExecuteTransition(env: Env): Transition {
    (state, privateInput) => Execute(env, state, privateInput)
  }

  /**
    `execute_steps`: the state starts at the given step number, public
    input and circuit. At most one item per private input; only the last
    item can be an abort, and it is one when inputs are left over; item `i`
    is the `i`-th private input executed on the state before it.
   */
  function ExecuteSteps(env: Env, circuit: CircuitStructure, firstPublicInput: Witness, startStepNum: nat,
                        privateInputs: seq<Witness>): (items: seq<Result<(ExecutionResult, Witness, IO)>>)
    ensures |items| <= |privateInputs|
    ensures forall i :: 0 <= i < |items| - 1 ==> !items[i].Panic?
    ensures |items| < |privateInputs| ==> |items| > 0 && items[|items| - 1].Panic?
    ensures forall i :: 0 <= i < |items| ==>
      items[i] == Project(env.lib, Execute(env,
        StateAt(ExecuteTransition(env), New(startStepNum, firstPublicInput, circuit), privateInputs, i), privateInputs[i]))
  {
    var start := New(startStepNum, firstPublicInput, circuit);
    DriveItems(env.lib, ExecuteTransition(env), start, privateInputs);
    Drive(env.lib, ExecuteTransition(env), start, privateInputs)
  }

  // The items, one by one.

  /** The state before the `i`-th item, built from the front. */
  function StateAt(exec: Transition, start: UnexecutedCircuit, privateInputs: seq<Witness>, i: nat): UnexecutedCircuit
    requires i <= |privateInputs|
  {
    if i == 0 then start else Advance(exec, StateAt(exec, start, privateInputs, i - 1), privateInputs[i - 1])
  }

  lemma {:induction false} StateAtTail(exec: Transition, start: UnexecutedCircuit, privateInputs: seq<Witness>, i: nat)
    requires 0 < |privateInputs| && i < |privateInputs|
    ensures StateAt(exec, start, privateInputs, i + 1)
            == StateAt(exec, Advance(exec, start, privateInputs[0]), privateInputs[1..], i)
  {
    if i > 0 {
      StateAtTail(exec, start, privateInputs, i - 1);
      assert privateInputs[1..][i - 1] == privateInputs[i];
    }
  }

  /**
    Item `i` is the `i`-th private input executed on the state before it;
    that state is the one after item `i - 1` when that was `Ok`, and
    unchanged when it was `Err`.
   */
  lemma {:induction false} DriveItems(lib: IvcLib, exec: Transition, start: UnexecutedCircuit, privateInputs: seq<Witness>)
    ensures forall i :: 0 <= i < |Drive(lib, exec, start, privateInputs)| ==>
      Drive(lib, exec, start, privateInputs)[i] == Project(lib, exec(StateAt(exec, start, privateInputs, i), privateInputs[i]))
    decreases |privateInputs|
  {
    forall i | 0 <= i < |Drive(lib, exec, start, privateInputs)|
      ensures Drive(lib, exec, start, privateInputs)[i] == Project(lib, exec(StateAt(exec, start, privateInputs, i), privateInputs[i]))
    {
      DriveItem(lib, exec, start, privateInputs, i);
    }
  }

  lemma {:induction false} DriveItem(lib: IvcLib, exec: Transition, start: UnexecutedCircuit, privateInputs: seq<Witness>, i: nat)
    requires i < |Drive(lib, exec, start, privateInputs)|
    ensures Drive(lib, exec, start, privateInputs)[i] == Project(lib, exec(StateAt(exec, start, privateInputs, i), privateInputs[i]))
    decreases i
  {
    var items := Drive(lib, exec, start, privateInputs);
    var item := Project(lib, exec(start, privateInputs[0]));
    if i > 0 {
      var next := Advance(exec, start, privateInputs[0]);
      assert !item.Panic?;
      assert items == [item] + Drive(lib, exec, next, privateInputs[1..]);
      assert items[i] == Drive(lib, exec, next, privateInputs[1..])[i - 1];
      DriveItem(lib, exec, next, privateInputs[1..], i - 1);
      StateAtTail(exec, start, privateInputs, i - 1);
      assert privateInputs[1..][i - 1] == privateInputs[i];
    }
  }

  /** Without an abort, exactly one item per private input. */
  lemma {:induction false} DriveLength(lib: IvcLib, exec: Transition, start: UnexecutedCircuit, privateInputs: seq<Witness>)
    requires forall i :: 0 <= i < |privateInputs| ==> !exec(StateAt(exec, start, privateInputs, i), privateInputs[i]).Panic?
    ensures |Drive(lib, exec, start, privateInputs)| == |privateInputs|
    decreases |privateInputs|
  {
    if |privateInputs| > 0 {
      var next := Advance(exec, start, privateInputs[0]);
      forall i | 0 <= i < |privateInputs[1..]|
        ensures !exec(StateAt(exec, next, privateInputs[1..], i), privateInputs[1..][i]).Panic?
      {
        StateAtTail(exec, start, privateInputs, i);
        assert privateInputs[1..][i] == privateInputs[i + 1];
      }
      assert !exec(StateAt(exec, start, privateInputs, 0), privateInputs[0]).Panic?;
      DriveLength(lib, exec, next, privateInputs[1..]);
    }
  }

  /** The number of `Ok` items. */
  function OkCount<T>(items: seq<Result<T>>): nat {
    if |items| == 0 then 0 else OkCount(items[..|items| - 1]) + (if items[|items| - 1].Ok? then 1 else 0)
  }

  /** A transition that reports the current number, advances it by one and keeps the circuit, as `execute` does. */
  ghost predicate Numbered(exec: Transition) {
    forall state: UnexecutedCircuit, privateInput: Witness :: exec(state, privateInput).Ok? ==>
      && exec(state, privateInput).value.0.iterationNumber == state.iterationNumber
      && exec(state, privateInput).value.2.iterationNumber == state.iterationNumber + 1
      && exec(state, privateInput).value.2.structure == state.structure
  }

  lemma ExecuteNumbered(env: Env)
    ensures Numbered(ExecuteTransition(env))
  {
  }

  /**
    The state before item `i` carries the start number plus the number of
    earlier `Ok` items, and the start circuit.
   */
  lemma {:induction false} StateAtNumbering(lib: IvcLib, exec: Transition, start: UnexecutedCircuit, privateInputs: seq<Witness>, i: nat)
    requires Numbered(exec)
    requires i <= |Drive(lib, exec, start, privateInputs)|
    ensures StateAt(exec, start, privateInputs, i).iterationNumber
            == start.iterationNumber + OkCount(Drive(lib, exec, start, privateInputs)[..i])
    ensures StateAt(exec, start, privateInputs, i).structure == start.structure
  {
    var items := Drive(lib, exec, start, privateInputs);
    if i > 0 {
      StateAtNumbering(lib, exec, start, privateInputs, i - 1);
      DriveItems(lib, exec, start, privateInputs);
      assert items[..i][..i - 1] == items[..i - 1];
      assert items[..i][i - 1] == items[i - 1];
    }
  }

  /**
    `execute_steps` numbers its successes consecutively from the start
    number: an `Ok` item reports the start number plus the number of `Ok`
    items before it.
   */
  lemma ExecuteStepsNumbering(env: Env, circuit: CircuitStructure, firstPublicInput: Witness, startStepNum: nat,
                              privateInputs: seq<Witness>, i: nat)
    requires i < |ExecuteSteps(env, circuit, firstPublicInput, startStepNum, privateInputs)|
    requires ExecuteSteps(env, circuit, firstPublicInput, startStepNum, privateInputs)[i].Ok?
    ensures
      var items := ExecuteSteps(env, circuit, firstPublicInput, startStepNum, privateInputs);
      items[i].value.0.iterationNumber == startStepNum + OkCount(items[..i])
  {
    var exec := ExecuteTransition(env);
    var start := New(startStepNum, firstPublicInput, circuit);
    ExecuteNumbered(env);
    StateAtNumbering(env.lib, exec, start, privateInputs, i);
    DriveItems(env.lib, exec, start, privateInputs);
  }

  /**
    Each `Ok` item's third part is the next public input as an `IO`: the
    helper's next input witness made from the reported public output.
   */
  lemma ExecuteStepsNextInput(env: Env, circuit: CircuitStructure, firstPublicInput: Witness, startStepNum: nat,
                              privateInputs: seq<Witness>, i: nat)
    requires i < |ExecuteSteps(env, circuit, firstPublicInput, startStepNum, privateInputs)|
    requires ExecuteSteps(env, circuit, firstPublicInput, startStepNum, privateInputs)[i].Ok?
    ensures
      var item := ExecuteSteps(env, circuit, firstPublicInput, startStepNum, privateInputs)[i].value;
      item.2 == env.lib.witnessToIO(env.lib.makeNextInputWitness(item.0.publicOutput, circuit.program.io))
  {
    var exec := ExecuteTransition(env);
    var start := New(startStepNum, firstPublicInput, circuit);
    ExecuteNumbered(env);
    StateAtNumbering(env.lib, exec, start, privateInputs, i);
    DriveItems(env.lib, exec, start, privateInputs);
  }

  /** An `Err` item does not advance the state: the next item runs on the same state. */
  lemma ErrKeepsState(lib: IvcLib, exec: Transition, start: UnexecutedCircuit, privateInputs: seq<Witness>, i: nat)
    requires i < |Drive(lib, exec, start, privateInputs)|
    requires Drive(lib, exec, start, privateInputs)[i].Err?
    ensures StateAt(exec, start, privateInputs, i + 1) == StateAt(exec, start, privateInputs, i)
  {
    DriveItems(lib, exec, start, privateInputs);
  }

  // Loading and compiling together.

  /**
    A circuit that loads and converts (matching field types) compiles, in
    either mode, exactly when its referenced identifiers are 0..n-1. A
    witness that records every product then satisfies the compiled
    constraints exactly when it satisfies every assert-zero opcode of the
    circuit. With unit coefficients any witness satisfies them exactly when
    it records every product and satisfies every opcode; as written, exactly
    when it satisfies the closing constraints.
   */
  lemma LoadedCircuitCompiles(mode: CoefficientMode, types: FieldTypes, lib: IvcLib, noirVersion: string,
                              program: AcirProgram, w: Witness)
    requires TypesMatch(types)
    requires LoadCircuit(lib, noirVersion, program).Ok?
    ensures var circuit := LoadCircuit(lib, noirVersion, program).value;
            var s := FromAcvmCircuit(types, lib, circuit);
            var c := CompileCircuit(mode, types, lib, circuit);
            && s.Ok?
            && (c.Ok? <==> ReferencedIds(s.value) != {} && ReferencedIds(s.value) == IdRange(|ReferencedIds(s.value)|))
            && (c.Ok? && GatesRecorded(s.value.gates, |ReferencedIds(s.value)|, w) ==>
                  (AllHold(c.value.1.r1csConstraints, w) <==> AllGatesHold(s.value.gates, w)))
            && (c.Ok? && mode == UnitCoefficients ==>
                  (AllHold(c.value.1.r1csConstraints, w)
                   <==> GatesRecorded(s.value.gates, |ReferencedIds(s.value)|, w) && AllGatesHold(s.value.gates, w)))
            && (c.Ok? && mode == WitnessValues ==>
                  (AllHold(c.value.1.r1csConstraints, w) <==> ClosingsHold(s.value.gates, |ReferencedIds(s.value)|, w)))
  {
    var circuit := LoadCircuit(lib, noirVersion, program).value;
    var s := FromAcvmCircuit(types, lib, circuit).value;
    CompileSucceedsIffDense(mode, s);
    if CompileWith(mode, s).Ok? {
      if mode == UnitCoefficients {
        CompiledProgramSound(s, w);
      } else {
        CompiledAsWrittenSound(s, w);
      }
    }
  }

  /**
    An iteration whose solved witness covers exactly the placeholder
    witness's identifiers returns a step witness that satisfies the program
    compiled in either mode exactly when it satisfies every gate of the
    circuit.
   */
  lemma ExecutedWitnessMeetsCompiled(mode: CoefficientMode, env: Env, state: UnexecutedCircuit, privateInput: Witness)
    requires TypesMatch(env.types)
    ensures
      && CompileWith(mode, state.structure).Ok? && MakeTrivialWitness(state.structure).Ok?
      && Execute(env, state, privateInput).Ok?
      && SolvedWitness(env, state, privateInput).Keys == MakeTrivialWitness(state.structure).value.Keys
      ==>
      var w := Execute(env, state, privateInput).value.1;
      AllHold(CompileWith(mode, state.structure).value.r1csConstraints, w) <==> AllGatesHold(state.structure.gates, w)
  {
    var s := state.structure;
    if && CompileWith(mode, s).Ok? && MakeTrivialWitness(s).Ok?
       && Execute(env, state, privateInput).Ok?
       && SolvedWitness(env, state, privateInput).Keys == MakeTrivialWitness(s).value.Keys
    {
      var solved := SolvedWitness(env, state, privateInput);
      if !SolverRunOf(env, state, privateInput).status.Solved? {
        ExecuteUnsolved(env, state, privateInput);
      }
      ExecuteSolved(env, state, privateInput);
      if mode == UnitCoefficients {
        StepMatchesCompiled(s, solved);
      } else {
        MakeStepModesAgree(s, solved);
        AsWrittenStepMeetsCompiled(s, solved);
      }
    }
  }
}
