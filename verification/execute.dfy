/**
  One iteration of the folding loop (`UnexecutedCircuit::execute`): the
  public and private inputs are merged, converted into the solver's field
  encoding and handed, with the gates turned back into opcodes, to the ACVM
  solver; the solved witness is converted back, split into the four IO
  roles, expanded into a step, and the next iteration's public input is
  derived from the public output.

  The solver is foreign code and enters as a function value: given the
  opcodes and the initial witness, it reports a status and, when solved,
  the final witness. Witness maps are traversed in ascending identifier
  order, as a `BTreeMap` is.
 */
module Iteration {
  import opened Errors
  import opened Field
  import opened IdSets
  import opened IvcTypes
  import opened Gate
  import opened Seqs
  import opened Program

  /** What one iteration reports: its number and the witness restricted to each IO role. */
  datatype ExecutionResult = ExecutionResult(
    iterationNumber: nat,
    publicInput: Witness,
    privateInput: Witness,
    publicOutput: Witness,
    privateOutput: Witness)

  /** The state between iterations: the iteration number, its public input and the circuit. */
  datatype UnexecutedCircuit = UnexecutedCircuit(iterationNumber: nat, publicInput: Witness, structure: CircuitStructure)

  /** The solver's status; any status other than `Solved` is kept as its `Debug` text. */
  datatype AcvmStatus = Solved | Unsolved(debugText: string)

  datatype SolverRun = SolverRun(status: AcvmStatus, finalWitness: map<WitnessId, ArkFr>)

  /** `ACVM::new(..).solve()` followed by `finalize()`, on the opcodes and the initial witness. */
  type Solver = (seq<Opcode>, map<WitnessId, ArkFr>) -> SolverRun

  /** The foreign pieces an iteration calls: the field type pair, the IVC helpers and the solver. */
  datatype Env = Env(types: FieldTypes, lib: IvcLib, solver: Solver)

  /** `UnexecutedCircuit::new`: the three parts stored as given. */
  function New(iterationNumber: nat, initPublicInput: Witness, structure: CircuitStructure): (r: UnexecutedCircuit)
    ensures r.iterationNumber == iterationNumber
    ensures r.publicInput == initPublicInput
    ensures r.structure == structure
  {
    UnexecutedCircuit(iterationNumber, initPublicInput, structure)
  }

  /** The public input extended by the private input: every identifier of either, a shared one taking the private value. */
  function Merge(publicInput: Witness, privateInput: Witness): (m: Witness)
    ensures m.Keys == publicInput.Keys + privateInput.Keys
    ensures forall k :: k in privateInput ==> m[k] == privateInput[k]
    ensures forall k :: k in publicInput && k !in privateInput ==> m[k] == publicInput[k]
  {
    publicInput + privateInput
  }

  /** A witness carried over to the solver's encoding value for value. */
  function ArkImage(m: Witness): map<WitnessId, ArkFr> {
    map k | k in m :: ArkFr(m[k])
  }

  /** A solver witness carried back value for value. */
  function FfImage(m: map<WitnessId, ArkFr>): Witness {
    map k | k in m :: m[k].value
  }

  lemma ArkImageSplit(m: Witness, k: WitnessId)
    requires k in m
    ensures ArkImage(m) == ArkImage(m - {k})[k := ArkFr(m[k])]
  {
    assert ArkImage(m).Keys == ArkImage(m - {k})[k := ArkFr(m[k])].Keys;
  }

  lemma FfImageSplit(m: map<WitnessId, ArkFr>, k: WitnessId)
    requires k in m
    ensures FfImage(m) == FfImage(m - {k})[k := m[k].value]
  {
    assert FfImage(m).Keys == FfImage(m - {k})[k := m[k].value].Keys;
  }

  /** Every value converted into the solver's encoding, in ascending identifier order; the first failure is returned. */
  function WitnessToArk(types: FieldTypes, m: Witness): (r: Result<map<WitnessId, ArkFr>>)
    ensures TypesMatch(types) ==> r == Ok(ArkImage(m))
    ensures !TypesMatch(types) && |m| > 0 ==> r == Panic(FieldTypeMismatch)
    ensures !TypesMatch(types) && |m| == 0 ==> r == Ok(map[])
    decreases |m|
  {
    if |m| == 0 then
      assert m == map[];
      Ok(map[])
    else
      var k := SetMin(m.Keys);
      ArkImageSplit(m, k);
      var v :- FfToArk(types, m[k]);
      var rest :- WitnessToArk(types, m - {k});
      Ok(rest[k := v])
  }

  /** Every value converted back, in ascending identifier order; a failure aborts ("output fill error"). */
  function WitnessFromArk(types: FieldTypes, m: map<WitnessId, ArkFr>): (r: Result<Witness>)
    ensures TypesMatch(types) ==> r == Ok(FfImage(m))
    ensures !TypesMatch(types) && |m| > 0 ==> r == Panic(FieldTypeMismatch)
    ensures !TypesMatch(types) && |m| == 0 ==> r == Ok(map[])
    decreases |m|
  {
    if |m| == 0 then
      assert m == map[];
      Ok(map[])
    else
      var k := SetMin(m.Keys);
      FfImageSplit(m, k);
      var v :- Expect(ArkToFf(types, m[k]), "output fill error");
      var rest :- WitnessFromArk(types, m - {k});
      Ok(rest[k := v])
  }

  /** The opcode a gate converts to. */
  function OpcodeOf(g: AcirArithGate): Opcode {
    AssertZero(ExpressionOf(g))
  }

  /** The gates converted back to opcodes, in list order. */
  function GatesToOpcodes(types: FieldTypes, gates: seq<AcirArithGate>): (r: Result<seq<Opcode>>)
    ensures TypesMatch(types) ==> r == Ok(MapSeq(OpcodeOf, gates))
    ensures !TypesMatch(types) && |gates| > 0 ==> r == Panic(FieldTypeMismatch)
  {
    if |gates| == 0 then Ok([])
    else
      MapSeqCons(OpcodeOf, gates);
      var op :- GateToOpcode(types, gates[0]);
      var rest :- GatesToOpcodes(types, gates[1..]);
      Ok([op] + rest)
  }

  /** `Witness::extract_subset`, its error carried as `IVCProgramError`. */
  function Subset(lib: IvcLib, w: Witness, ids: set<WitnessId>): (r: Result<Witness>)
    ensures r.Ok? <==> lib.extractSubset(w, ids).IvcOk?
    ensures r.Ok? ==> r.value == lib.extractSubset(w, ids).value
    ensures !r.Ok? ==> r == Err(IVCProgramError(lib.extractSubset(w, ids).error))
  {
    match lib.extractSubset(w, ids)
    case IvcOk(v) => Ok(v)
    case IvcErr(e) => Err(IVCProgramError(e))
  }

  /**
    `UnexecutedCircuit::execute`: asserts the input check, solves, and
    returns the execution result, the step's witness and the next state.
   */
  function Execute(env: Env, state: UnexecutedCircuit, privateInput: Witness): (r: Result<(ExecutionResult, Witness, UnexecutedCircuit)>)
    ensures !IsValidInput(state.structure, state.publicInput, privateInput) ==> r == Panic(InvalidInputAssertion)
    ensures r.Ok? ==> IsValidInput(state.structure, state.publicInput, privateInput)
    ensures r.Ok? ==> r.value.0.iterationNumber == state.iterationNumber
    ensures r.Ok? ==> r.value.2.iterationNumber == state.iterationNumber + 1
    ensures r.Ok? ==> r.value.2.structure == state.structure
    ensures r.Ok? ==> r.value.2.publicInput == env.lib.makeNextInputWitness(r.value.0.publicOutput, state.structure.program.io)
  {
    if !IsValidInput(state.structure, state.publicInput, privateInput) then Panic(InvalidInputAssertion)
    else
      var merged := Merge(state.publicInput, privateInput);
      var initial :- WitnessToArk(env.types, merged);
      var opcodes :- GatesToOpcodes(env.types, state.structure.gates);
      var run := env.solver(opcodes, initial);
      if !run.status.Solved? then Err(ACVMSolveError(run.status.debugText))
      else
        var solved :- WitnessFromArk(env.types, run.finalWitness);
        var io := state.structure.program.io;
        var publicInput :- Subset(env.lib, solved, io.publicInputs);
        var privateInput :- Subset(env.lib, solved, io.privateInputs);
        var publicOutput :- Subset(env.lib, solved, io.publicOutputs);
        var privateOutput :- Subset(env.lib, solved, io.privateOutputs);
        var result := ExecutionResult(state.iterationNumber, publicInput, privateInput, publicOutput, privateOutput);
        var step :- MakeStep(state.structure, solved);
        var next := UnexecutedCircuit(state.iterationNumber + 1, env.lib.makeNextInputWitness(publicOutput, io), state.structure);
        Ok((result, step.assignment, next))
  }

  // Execution under a matching field type pair.

  /** The opcodes and initial witness the solver is handed. */
  function SolverOpcodes(state: UnexecutedCircuit): seq<Opcode> {
    MapSeq(OpcodeOf, state.structure.gates)
  }

  function InitialWitness(state: UnexecutedCircuit, privateInput: Witness): map<WitnessId, ArkFr> {
    ArkImage(Merge(state.publicInput, privateInput))
  }

  function SolverRunOf(env: Env, state: UnexecutedCircuit, privateInput: Witness): SolverRun {
    env.solver(SolverOpcodes(state), InitialWitness(state, privateInput))
  }

  /** The solved witness carried back into the proving field. */
  function SolvedWitness(env: Env, state: UnexecutedCircuit, privateInput: Witness): Witness {
    FfImage(SolverRunOf(env, state, privateInput).finalWitness)
  }

  /**
    With a valid input, the solver is handed the gates as opcodes in order
    and the merged input value for value; a status other than `Solved`
    becomes `ACVMSolveError` carrying the status text, and no next state.
   */
  lemma ExecuteUnsolved(env: Env, state: UnexecutedCircuit, privateInput: Witness)
    requires TypesMatch(env.types)
    requires IsValidInput(state.structure, state.publicInput, privateInput)
    requires !SolverRunOf(env, state, privateInput).status.Solved?
    ensures Execute(env, state, privateInput) == Err(ACVMSolveError(SolverRunOf(env, state, privateInput).status.debugText))
  {
  }

  /**
    With a valid input and a solved run, the iteration succeeds exactly
    when the four subset extractions and `make_step` do; it then reports
    the four subsets under the current iteration number and returns the
    witness `make_step` computes from the solved witness.
   */
  lemma ExecuteSolved(env: Env, state: UnexecutedCircuit, privateInput: Witness)
    requires TypesMatch(env.types)
    requires IsValidInput(state.structure, state.publicInput, privateInput)
    requires SolverRunOf(env, state, privateInput).status.Solved?
    ensures
      var solved := SolvedWitness(env, state, privateInput);
      var io := state.structure.program.io;
      var lib := env.lib;
      var r := Execute(env, state, privateInput);
      && (r.Ok? <==>
            && lib.extractSubset(solved, io.publicInputs).IvcOk?
            && lib.extractSubset(solved, io.privateInputs).IvcOk?
            && lib.extractSubset(solved, io.publicOutputs).IvcOk?
            && lib.extractSubset(solved, io.privateOutputs).IvcOk?
            && MakeStep(state.structure, solved).Ok?)
      && (r.Ok? ==>
            && r.value.0 == ExecutionResult(state.iterationNumber,
                 lib.extractSubset(solved, io.publicInputs).value,
                 lib.extractSubset(solved, io.privateInputs).value,
                 lib.extractSubset(solved, io.publicOutputs).value,
                 lib.extractSubset(solved, io.privateOutputs).value)
            && r.value.1 == MakeStep(state.structure, solved).value.assignment)
  {
  }

  /** When `extract_subset` is lawful, the reported roles are the solved witness restricted to each role's identifiers. */
  lemma ExecuteReportsRestrictions(env: Env, state: UnexecutedCircuit, privateInput: Witness)
    requires TypesMatch(env.types)
    ensures SubsetLawful(env.lib) && Execute(env, state, privateInput).Ok? ==>
      var solved := SolvedWitness(env, state, privateInput);
      var io := state.structure.program.io;
      var res := Execute(env, state, privateInput).value.0;
      && res.publicInput == Restrict(solved, io.publicInputs)
      && res.privateInput == Restrict(solved, io.privateInputs)
      && res.publicOutput == Restrict(solved, io.publicOutputs)
      && res.privateOutput == Restrict(solved, io.privateOutputs)
  {
    if Execute(env, state, privateInput).Ok? {
      ExecuteSolved(env, state, privateInput);
    }
  }
}
