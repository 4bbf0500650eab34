/**
  The circuit structure: the gate list and IO profile built from an ACVM
  circuit, the all-zero placeholder witness, the input check, and the
  expansion of gates into rank-1 constraints (`make_step`).

  `make_step` walks the gates in order. For each multiplication term
  `(coeff, l, r)` it allocates a fresh identifier `p` (the running witness
  count), records `w[l]*w[r]` at `p`, and emits the bilinear constraint
  `(x·l) * (y·r) = (z·p)`; after the terms it emits the closing constraint
  `(Σ coeff·p + Σ coeff·id + constant) * 1 = 0`. As written the bilinear
  coefficients x, y, z are the values of l, r and p; the expansion here is
  parameterised by `CoefficientMode` so that this and the evidently
  intended unit coefficients are both modelled (`MakeStepAsWritten`,
  `MakeStep`). The witness a step computes is the same in both.
 */
module Program {
  import opened Errors
  import opened Field
  import opened IvcTypes
  import opened Gate
  import opened IdSets
  import opened Seqs

  /**
    The parts of an ACVM circuit the bridge reads: its opcodes and the
    identifier sets returned by `circuit_arguments()`, `public_inputs()`
    and `return_values`.
   */
  datatype AcvmCircuit = AcvmCircuit(
    opcodes: seq<Opcode>,
    circuitArguments: set<WitnessId>,
    publicInputs: set<WitnessId>,
    returnValues: set<WitnessId>)

  /** `CircuitStructure`: the gates and the IVC program description (whose witness count and constraints stay unused). */
  datatype CircuitStructure = CircuitStructure(gates: seq<AcirArithGate>, program: IVCProgram)

  // IO profile.

  /**
    `extract_io`: public outputs are the return values less the private
    outputs, public inputs the declared public inputs less the public
    outputs, private inputs the circuit arguments less both; the private
    outputs are kept as given. Aborts unless every private output is a
    return value.
   */
  function ExtractIO(circuit: AcvmCircuit, privateOutputs: set<WitnessId>): (r: Result<IOProfile>)
    ensures r.Ok? <==> privateOutputs <= circuit.returnValues
    ensures !r.Ok? ==> r == Panic(PrivateOutputsNotReturned)
    ensures r.Ok? ==> forall x ::
      && (x in r.value.publicOutputs <==> x in circuit.returnValues && x !in privateOutputs)
      && (x in r.value.publicInputs <==> x in circuit.publicInputs && x !in r.value.publicOutputs)
      && (x in r.value.privateInputs <==>
            x in circuit.circuitArguments && x !in r.value.publicOutputs && x !in r.value.publicInputs)
    ensures r.Ok? ==> r.value.privateOutputs == privateOutputs
  {
    var publicOutputs := circuit.returnValues;
    if !(privateOutputs <= publicOutputs) then Panic(PrivateOutputsNotReturned)
    else
      var publicOutputs := publicOutputs - privateOutputs;
      var publicInputs := circuit.publicInputs - publicOutputs;
      var privateInputs := circuit.circuitArguments - publicOutputs - publicInputs;
      Ok(IOProfile(publicInputs, privateInputs, publicOutputs, privateOutputs))
  }

  /** Pairwise disjointness of the four roles. */
  predicate RolesDisjoint(io: IOProfile) {
    && io.publicInputs !! io.privateInputs
    && io.publicInputs !! io.publicOutputs
    && io.publicInputs !! io.privateOutputs
    && io.privateInputs !! io.publicOutputs
    && io.privateInputs !! io.privateOutputs
    && io.publicOutputs !! io.privateOutputs
  }

  function AllRoles(io: IOProfile): set<WitnessId> {
    io.publicInputs + io.privateInputs + io.publicOutputs + io.privateOutputs
  }

  // Circuit structure from an ACVM circuit.

  /** The opcodes converted to gates one by one, in order; the first that cannot be converted aborts. */
  function OpcodesToGates(types: FieldTypes, ops: seq<Opcode>): (r: Result<seq<AcirArithGate>>)
    ensures (forall i :: 0 <= i < |ops| ==> ops[i].AssertZero?) && (|ops| == 0 || TypesMatch(types))
            <==> r.Ok?
    ensures r.Ok? ==> |r.value| == |ops| && forall i :: 0 <= i < |ops| ==> r.value[i] == GateOf(ops[i].expr)
    ensures TypesMatch(types) && !r.Ok? ==> r == Panic(UnsupportedOpcode)
  {
    if |ops| == 0 then Ok([])
    else
      match OpcodeToGate(types, ops[0])
      case Ok(g) =>
        (match OpcodesToGates(types, ops[1..])
         case Ok(rest) => Ok([g] + rest)
         case Err(e) => Err(e)
         case Panic(p) => Panic(p))
      case Err(e) => Err(e)
      case Panic(p) => Panic(p)
  }

  /**
    `From<ACVMCircuit> for CircuitStructure`: the gates in opcode order,
    the IO profile with no private outputs, an empty constraint list, the
    curve name and the program version tag.
   */
  function FromAcvmCircuit(types: FieldTypes, lib: IvcLib, circuit: AcvmCircuit): (r: Result<CircuitStructure>)
    ensures r.Ok? <==> (forall i :: 0 <= i < |circuit.opcodes| ==> circuit.opcodes[i].AssertZero?)
                       && (|circuit.opcodes| == 0 || TypesMatch(types))
    ensures r.Ok? ==>
      && |r.value.gates| == |circuit.opcodes|
      && (forall i :: 0 <= i < |circuit.opcodes| ==> r.value.gates[i] == GateOf(circuit.opcodes[i].expr))
      && Ok(r.value.program.io) == ExtractIO(circuit, {})
      && RolesDisjoint(r.value.program.io)
      && r.value.program.numWitness == 0 && r.value.program.r1csConstraints == []
      && r.value.program.curve == lib.curveName && r.value.program.version == lib.programVersion
  {
    var gates :- OpcodesToGates(types, circuit.opcodes);
    var io :- ExtractIO(circuit, {});
    Ok(CircuitStructure(gates, IVCProgram(io, 0, [], lib.curveName, lib.programVersion)))
  }

  // The placeholder witness and the input check.

  function GateIds(g: AcirArithGate): set<WitnessId> {
    (set j | 0 <= j < |g.mulTerms| :: g.mulTerms[j].left)
    + (set j | 0 <= j < |g.mulTerms| :: g.mulTerms[j].right)
    + (set j | 0 <= j < |g.addTerms| :: g.addTerms[j].id)
  }

  function GatesIds(gates: seq<AcirArithGate>): set<WitnessId> {
    if |gates| == 0 then {} else GateIds(gates[0]) + GatesIds(gates[1..])
  }

  /** Every identifier the IO profile or any gate term mentions. */
  function ReferencedIds(s: CircuitStructure): set<WitnessId> {
    AllRoles(s.program.io) + GatesIds(s.gates)
  }

  /**
    `make_trivial_witness`: every referenced identifier mapped to zero.
    Aborts when no identifier is referenced (the maximum of an empty set is
    unwrapped) or when the greatest identifier is not the count minus one.
   */
  function MakeTrivialWitness(s: CircuitStructure): (r: Result<Witness>)
    ensures r.Ok? <==> ReferencedIds(s) != {} && ReferencedIds(s) == IdRange(|ReferencedIds(s)|)
    ensures r.Ok? ==> r.value.Keys == ReferencedIds(s) && forall k :: k in r.value ==> r.value[k] == Zero
    ensures ReferencedIds(s) == {} ==> r == Panic(EmptyWitnessSet)
    ensures ReferencedIds(s) != {} && !r.Ok? ==> r == Panic(WitnessIdsNotDense)
  {
    var ids := ReferencedIds(s);
    if ids == {} then Panic(EmptyWitnessSet)
    else
      DenseIffMaxIsSizeMinusOne(ids);
      if SetMax(ids) != |ids| - 1 then Panic(WitnessIdsNotDense)
      else Ok(map id | id in ids :: Zero)
  }

  /**
    `is_valid_input`: the public input's identifiers are exactly the
    declared public inputs, or the private input's identifiers are exactly
    the declared private inputs.
   */
  function IsValidInput(s: CircuitStructure, publicInput: Witness, privateInput: Witness): bool {
    publicInput.Keys == s.program.io.publicInputs || privateInput.Keys == s.program.io.privateInputs
  }

  // Expansion of gates into rank-1 constraints.

  /** Whether a bilinear constraint carries the operand values as coefficients (as written) or ones (as intended). */
  datatype CoefficientMode = WitnessValues | UnitCoefficients

  function BilinearCoefficient(mode: CoefficientMode, v: Fe): Fe {
    if mode == WitnessValues then v else One
  }

  /** The running state of `make_step`: assignment, witness count and constraints so far. */
  datatype Expansion = Expansion(assignment: Witness, numWitness: nat, constraints: seq<R1CSConstraint>)

  /** One gate's multiplication terms, in order, each given a fresh product identifier and a bilinear constraint. */
  function ExpandMulTerms(mode: CoefficientMode, terms: seq<MulTerm>, e: Expansion, lc: LC): (r: Result<(Expansion, LC)>)
    ensures !r.Err?
    ensures r.Ok? ==>
      && r.value.0.numWitness == e.numWitness + |terms|
      && |r.value.0.constraints| == |e.constraints| + |terms|
      && r.value.0.constraints[..|e.constraints|] == e.constraints
      && |r.value.1| == |lc| + |terms|
      && e.assignment.Keys <= r.value.0.assignment.Keys
    decreases |terms|
  {
    if |terms| == 0 then Ok((e, lc))
    else
      var t := terms[0];
      if t.left !in e.assignment then Panic(OperandNotFound("left not found"))
      else if t.right !in e.assignment then Panic(OperandNotFound("right not found"))
      else
        var leftValue := e.assignment[t.left];
        var rightValue := e.assignment[t.right];
        var product := Mul(leftValue, rightValue);
        var p := e.numWitness;
        var bilinear := R1CSConstraint(
          [LcTerm(BilinearCoefficient(mode, leftValue), t.left)],
          [LcTerm(BilinearCoefficient(mode, rightValue), t.right)],
          [LcTerm(BilinearCoefficient(mode, product), p)]);
        ExpandMulTerms(mode, terms[1..],
          Expansion(e.assignment[p := product], p + 1, e.constraints + [bilinear]),
          lc + [LcTerm(t.coeff, p)])
  }

  function AddTermsLC(ts: seq<AddTerm>): LC {
    MapSeq((t: AddTerm) => LcTerm(t.coeff, t.id), ts)
  }

  /** One gate: its bilinear constraints, then the closing constraint `(lc) * 1 = 0`. */
  function ExpandGate(mode: CoefficientMode, g: AcirArithGate, e: Expansion): (r: Result<Expansion>)
    ensures !r.Err?
    ensures r.Ok? ==>
      && r.value.numWitness == e.numWitness + |g.mulTerms|
      && |r.value.constraints| == |e.constraints| + |g.mulTerms| + 1
      && r.value.constraints[..|e.constraints|] == e.constraints
      && e.assignment.Keys <= r.value.assignment.Keys
  {
    var expanded :- ExpandMulTerms(mode, g.mulTerms, e, []);
    var e1 := expanded.0;
    var closing := R1CSConstraint(expanded.1 + AddTermsLC(g.addTerms) + [Const(g.constantTerm)], [Const(One)], []);
    Ok(e1.(constraints := e1.constraints + [closing]))
  }

  function TotalMulTerms(gates: seq<AcirArithGate>): nat {
    if |gates| == 0 then 0 else |gates[0].mulTerms| + TotalMulTerms(gates[1..])
  }

  /** Σ over the gates of (number of multiplication terms + 1). */
  function ConstraintCount(gates: seq<AcirArithGate>): nat {
    if |gates| == 0 then 0 else |gates[0].mulTerms| + 1 + ConstraintCount(gates[1..])
  }

  function ExpandGates(mode: CoefficientMode, gates: seq<AcirArithGate>, e: Expansion): (r: Result<Expansion>)
    ensures !r.Err?
    ensures r.Ok? ==>
      && r.value.numWitness == e.numWitness + TotalMulTerms(gates)
      && |r.value.constraints| == |e.constraints| + ConstraintCount(gates)
      && r.value.constraints[..|e.constraints|] == e.constraints
      && e.assignment.Keys <= r.value.assignment.Keys
    decreases |gates|
  {
    if |gates| == 0 then Ok(e)
    else
      match ExpandGate(mode, gates[0], e)
      case Ok(e1) =>
        var r := ExpandGates(mode, gates[1..], e1);
        assert r.Ok? ==> r.value.constraints[..|e.constraints|] == e.constraints by {
          if r.Ok? {
            assert r.value.constraints[..|e.constraints|] == r.value.constraints[..|e1.constraints|][..|e.constraints|];
          }
        }
        r
      case Err(err) => Err(err)
      case Panic(p) => Panic(p)
  }

  /**
    `make_step` with either coefficient mode: the solved witness extended
    by one product per multiplication term, the constraints, and the IO
    profile, curve and version copied from the structure.
   */
  function MakeStepWith(mode: CoefficientMode, s: CircuitStructure, solved: Witness): (r: Result<Step>)
    ensures !r.Err?
    ensures r.Ok? ==>
      && r.value.program.numWitness == |solved| + TotalMulTerms(s.gates)
      && |r.value.program.r1csConstraints| == ConstraintCount(s.gates)
      && r.value.program.io == s.program.io
      && r.value.program.curve == s.program.curve
      && r.value.program.version == s.program.version
      && solved.Keys <= r.value.assignment.Keys
  {
    var e :- ExpandGates(mode, s.gates, Expansion(solved, |solved|, []));
    Ok(Step(e.assignment, IVCProgram(s.program.io, e.numWitness, e.constraints, s.program.curve, s.program.version)))
  }

  /** `make_step` as written: bilinear coefficients are the operand and product values. */
  function MakeStepAsWritten(s: CircuitStructure, solved: Witness): Result<Step> {
    MakeStepWith(WitnessValues, s, solved)
  }

  /** `make_step` with the intended unit coefficients; the rest of the model uses this one. */
  function MakeStep(s: CircuitStructure, solved: Witness): Result<Step> {
    MakeStepWith(UnitCoefficients, s, solved)
  }

  /** `CircuitStructure::compile` with either coefficient mode: the shape of the step built on the placeholder witness. */
  function CompileWith(mode: CoefficientMode, s: CircuitStructure): (r: Result<IVCProgram>)
    ensures !r.Err?
    ensures r.Ok? ==> MakeTrivialWitness(s).Ok?
    ensures r.Ok? ==>
      && r.value.numWitness == |ReferencedIds(s)| + TotalMulTerms(s.gates)
      && |r.value.r1csConstraints| == ConstraintCount(s.gates)
      && r.value.io == s.program.io
  {
    var solved :- MakeTrivialWitness(s);
    var step :- MakeStepWith(mode, s, solved);
    Ok(step.program)
  }

  function CompileAsWritten(s: CircuitStructure): Result<IVCProgram> {
    CompileWith(WitnessValues, s)
  }

  function Compile(s: CircuitStructure): Result<IVCProgram> {
    CompileWith(UnitCoefficients, s)
  }
}
