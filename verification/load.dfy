/**
  The program validator (`check_supported`): a loaded ACIR program is
  accepted only with exactly one constrained function, no unconstrained
  functions, nothing but assert-zero opcodes, and a well-formed IO profile.
  The checks run in that order and the first that fails names the error.
 */
module Load {
  import opened Errors
  import opened IvcTypes
  import opened Gate
  import opened Program

  /** A compiled ACIR program: its constrained functions and the number of unconstrained (Brillig) ones. */
  datatype AcirProgram = AcirProgram(functions: seq<AcvmCircuit>, unconstrainedFunctions: nat)

  /** Whether every opcode is an assert-zero. */
  predicate AllAssertZero(ops: seq<Opcode>) {
    forall i :: 0 <= i < |ops| ==> ops[i].AssertZero?
  }

  /** The position of the first opcode, from `from` on, that is not an assert-zero. */
  function FirstOtherOpcode(ops: seq<Opcode>, from: nat): (r: Option<nat>)
    requires from <= |ops|
    ensures r.None? <==> forall i :: from <= i < |ops| ==> ops[i].AssertZero?
    ensures r.Some? ==> from <= r.value < |ops| && !ops[r.value].AssertZero?
                        && forall i :: from <= i < r.value ==> ops[i].AssertZero?
    decreases |ops| - from
  {
    if from == |ops| then None
    else if !ops[from].AssertZero? then Some(from)
    else FirstOtherOpcode(ops, from + 1)
  }

  /**
    `check_supported`: the number of functions must be one, the number of
    unconstrained functions zero, every opcode of the function an
    assert-zero (the first other opcode is reported by its debug text),
    and the IO profile extracted with no private outputs well formed.
   */
  function CheckSupported(lib: IvcLib, program: AcirProgram): (r: Outcome<UnsupportedProgramError>)
    ensures |program.functions| != 1 ==> r == Fail(MultipleFunctions(|program.functions|))
    ensures |program.functions| == 1 && program.unconstrainedFunctions != 0 ==>
              r == Fail(UnconstrainedFunctions(program.unconstrainedFunctions))
    ensures |program.functions| == 1 && program.unconstrainedFunctions == 0 ==>
      var ops := program.functions[0].opcodes;
      && (forall k :: 0 <= k < |ops| && !ops[k].AssertZero? && AllAssertZero(ops[..k]) ==>
            r == Fail(NonAssertZeroOpcode(ops[k].debugText)))
      && (AllAssertZero(ops) ==>
            var io := ExtractIO(program.functions[0], {});
            io.Ok? &&
            r == (match lib.checkStructure(io.value)
                  case None => Pass
                  case Some(m) => Fail(MalformedProgram(m))))
    ensures r.Pass? <==>
      && |program.functions| == 1 && program.unconstrainedFunctions == 0
      && AllAssertZero(program.functions[0].opcodes)
      && ExtractIO(program.functions[0], {}).Ok?
      && lib.checkStructure(ExtractIO(program.functions[0], {}).value).None?
  {
    if |program.functions| != 1 then Fail(MultipleFunctions(|program.functions|))
    else if program.unconstrainedFunctions != 0 then Fail(UnconstrainedFunctions(program.unconstrainedFunctions))
    else
      var circuit := program.functions[0];
      match FirstOtherOpcode(circuit.opcodes, 0)
      case Some(k) =>
        assert forall i :: 0 <= i < k ==> circuit.opcodes[..k][i] == circuit.opcodes[i];
        Fail(NonAssertZeroOpcode(circuit.opcodes[k].debugText))
      case None =>
        var io := ExtractIO(circuit, {}).value;
        match lib.checkStructure(io)
        case None => Pass
        case Some(m) => Fail(MalformedProgram(m))
  }
}
