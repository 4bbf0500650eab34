/**
  The arithmetic gate (`AcirArithGate`) and its conversion to and from the
  solver's assert-zero opcode. A gate stands for the constraint
  Σ coeff·w[left]·w[right] + Σ coeff·w[id] + constant = 0. Both
  conversions keep the order of both term lists, copy witness identifiers
  unchanged and send every coefficient through the field bridge; a failed
  coefficient conversion aborts (`expect`), and so does an opcode of any
  other kind.
 */
module Gate {
  import opened Errors
  import opened Field
  import opened IvcTypes
  import opened Seqs

  datatype MulTerm = MulTerm(coeff: Fe, left: WitnessId, right: WitnessId)

  datatype AddTerm = AddTerm(coeff: Fe, id: WitnessId)

  datatype AcirArithGate = AcirArithGate(mulTerms: seq<MulTerm>, addTerms: seq<AddTerm>, constantTerm: Fe)

  // The solver's side: an `Expression` over encoding A.

  datatype AcirMulTerm = AcirMulTerm(coeff: ArkFr, left: WitnessId, right: WitnessId)

  datatype AcirLinearTerm = AcirLinearTerm(coeff: ArkFr, wire: WitnessId)

  datatype Expression = Expression(mulTerms: seq<AcirMulTerm>, linearCombinations: seq<AcirLinearTerm>, qC: ArkFr)

  /** An ACIR opcode: an assert-zero expression, or any other kind, carried with its `Debug` text. */
  datatype Opcode = AssertZero(expr: Expression) | OtherOpcode(debugText: string)

  function MulTermToAcir(t: MulTerm): AcirMulTerm {
    AcirMulTerm(ArkFr(t.coeff), t.left, t.right)
  }

  function AddTermToAcir(t: AddTerm): AcirLinearTerm {
    AcirLinearTerm(ArkFr(t.coeff), t.id)
  }

  function MulTermFromAcir(t: AcirMulTerm): MulTerm {
    MulTerm(t.coeff.value, t.left, t.right)
  }

  function AddTermFromAcir(t: AcirLinearTerm): AddTerm {
    AddTerm(t.coeff.value, t.wire)
  }

  /** The expression a gate denotes, term for term: the value-exact image of the gate in encoding A. */
  function ExpressionOf(g: AcirArithGate): Expression {
    Expression(MapSeq(MulTermToAcir, g.mulTerms), MapSeq(AddTermToAcir, g.addTerms), ArkFr(g.constantTerm))
  }

  /** The gate an expression denotes, term for term: the value-exact image of the expression in encoding B. */
  function GateOf(e: Expression): AcirArithGate {
    AcirArithGate(MapSeq(MulTermFromAcir, e.mulTerms), MapSeq(AddTermFromAcir, e.linearCombinations), e.qC.value)
  }

  // Gate to opcode.

  function MulTermsToAcir(types: FieldTypes, ts: seq<MulTerm>): (r: Result<seq<AcirMulTerm>>)
    ensures TypesMatch(types) ==> r == Ok(MapSeq(MulTermToAcir, ts))
    ensures !TypesMatch(types) && |ts| > 0 ==> r == Panic(FieldTypeMismatch)
  {
    if |ts| == 0 then Ok([])
    else
      MapSeqCons(MulTermToAcir, ts);
      var c :- Expect(FfToArk(types, ts[0].coeff), "mul terms conversion error");
      var rest :- MulTermsToAcir(types, ts[1..]);
      Ok([AcirMulTerm(c, ts[0].left, ts[0].right)] + rest)
  }

  function AddTermsToAcir(types: FieldTypes, ts: seq<AddTerm>): (r: Result<seq<AcirLinearTerm>>)
    ensures TypesMatch(types) ==> r == Ok(MapSeq(AddTermToAcir, ts))
    ensures !TypesMatch(types) && |ts| > 0 ==> r == Panic(FieldTypeMismatch)
  {
    if |ts| == 0 then Ok([])
    else
      MapSeqCons(AddTermToAcir, ts);
      var c :- Expect(FfToArk(types, ts[0].coeff), "add terms conversion error");
      var rest :- AddTermsToAcir(types, ts[1..]);
      Ok([AcirLinearTerm(c, ts[0].id)] + rest)
  }

  /**
    `From<AcirArithGate> for Opcode`: always an `AssertZero`, multiplication
    terms converted first, then the linear terms, then the constant.
   */
  function GateToOpcode(types: FieldTypes, g: AcirArithGate): (r: Result<Opcode>)
    ensures TypesMatch(types) ==> r == Ok(AssertZero(ExpressionOf(g)))
    ensures !TypesMatch(types) ==> r == Panic(FieldTypeMismatch)
  {
    var mulTerms :- MulTermsToAcir(types, g.mulTerms);
    var addTerms :- AddTermsToAcir(types, g.addTerms);
    var constantTerm :- Expect(FfToArk(types, g.constantTerm), "constant term conversion error");
    Ok(AssertZero(Expression(mulTerms, addTerms, constantTerm)))
  }

  // Opcode to gate.

  function MulTermsFromAcir(types: FieldTypes, ts: seq<AcirMulTerm>): (r: Result<seq<MulTerm>>)
    ensures TypesMatch(types) ==> r == Ok(MapSeq(MulTermFromAcir, ts))
    ensures !TypesMatch(types) && |ts| > 0 ==> r == Panic(FieldTypeMismatch)
  {
    if |ts| == 0 then Ok([])
    else
      MapSeqCons(MulTermFromAcir, ts);
      var c :- Expect(ArkToFf(types, ts[0].coeff), "mul terms conversion error");
      var rest :- MulTermsFromAcir(types, ts[1..]);
      Ok([MulTerm(c, ts[0].left, ts[0].right)] + rest)
  }

  function AddTermsFromAcir(types: FieldTypes, ts: seq<AcirLinearTerm>): (r: Result<seq<AddTerm>>)
    ensures TypesMatch(types) ==> r == Ok(MapSeq(AddTermFromAcir, ts))
    ensures !TypesMatch(types) && |ts| > 0 ==> r == Panic(FieldTypeMismatch)
  {
    if |ts| == 0 then Ok([])
    else
      MapSeqCons(AddTermFromAcir, ts);
      var c :- Expect(ArkToFf(types, ts[0].coeff), "add terms conversion error");
      var rest :- AddTermsFromAcir(types, ts[1..]);
      Ok([AddTerm(c, ts[0].wire)] + rest)
  }

  /** `From<Opcode> for AcirArithGate`: an `AssertZero` is converted term by term; any other opcode aborts. */
  function OpcodeToGate(types: FieldTypes, op: Opcode): (r: Result<AcirArithGate>)
    ensures op.AssertZero? && TypesMatch(types) ==> r == Ok(GateOf(op.expr))
    ensures op.AssertZero? && !TypesMatch(types) ==> r == Panic(FieldTypeMismatch)
    ensures !op.AssertZero? ==> r == Panic(UnsupportedOpcode)
  {
    match op
    case AssertZero(e) =>
      var mulTerms :- MulTermsFromAcir(types, e.mulTerms);
      var addTerms :- AddTermsFromAcir(types, e.linearCombinations);
      var constantTerm :- Expect(ArkToFf(types, e.qC), "constant term conversion error");
      Ok(AcirArithGate(mulTerms, addTerms, constantTerm))
    case OtherOpcode(_) => Panic(UnsupportedOpcode)
  }

  /** Gate to opcode and back is the identity, term for term. */
  lemma GateRoundTrip(types: FieldTypes, g: AcirArithGate)
    requires TypesMatch(types)
    ensures GateToOpcode(types, g).Ok?
    ensures OpcodeToGate(types, GateToOpcode(types, g).value) == Ok(g)
  {
    MapSeqInverse(MulTermToAcir, MulTermFromAcir, g.mulTerms);
    MapSeqInverse(AddTermToAcir, AddTermFromAcir, g.addTerms);
  }

  /** An assert-zero opcode to gate and back is the identity, term for term. */
  lemma OpcodeRoundTrip(types: FieldTypes, e: Expression)
    requires TypesMatch(types)
    ensures OpcodeToGate(types, AssertZero(e)).Ok?
    ensures GateToOpcode(types, OpcodeToGate(types, AssertZero(e)).value) == Ok(AssertZero(e))
  {
    MapSeqInverse(MulTermFromAcir, MulTermToAcir, e.mulTerms);
    MapSeqInverse(AddTermFromAcir, AddTermToAcir, e.linearCombinations);
  }
}
