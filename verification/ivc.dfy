/**
  The data of the downstream IVC framework (`ivc_program`) that the bridge
  builds and consumes: witness maps, IO profiles, rank-1 constraints, the
  constraint-system description and the step. The framework's helper
  functions are not part of this model; they enter as the function values
  of `IvcLib`. The meaning of a constraint (`Holds`) is the usual rank-1
  reading: the value of `a` times the value of `b` equals the value of `c`,
  a `Const` term standing for its coefficient times the constant one.
 */
module IvcTypes {
  import opened Errors
  import opened Field

  type WitnessId = nat

  /** An assignment of field values to witness identifiers. */
  type Witness = map<WitnessId, Fe>

  /** The four roles a witness identifier can play in one iteration. */
  datatype IOProfile = IOProfile(
    publicInputs: set<WitnessId>,
    privateInputs: set<WitnessId>,
    publicOutputs: set<WitnessId>,
    privateOutputs: set<WitnessId>)

  datatype Term = LcTerm(coefficient: Fe, varId: WitnessId) | Const(value: Fe)

  /** A linear combination: the sum of its terms. */
  type LC = seq<Term>

  /** `a * b = c`. */
  datatype R1CSConstraint = R1CSConstraint(a: LC, b: LC, c: LC)

  /** The constraint-system description handed to the proving framework. */
  datatype IVCProgram = IVCProgram(
    io: IOProfile,
    numWitness: nat,
    r1csConstraints: seq<R1CSConstraint>,
    curve: string,
    version: string)

  /** A solved witness (`witness` in the framework) together with the constraint system it is meant to satisfy. */
  datatype Step = Step(assignment: Witness, program: IVCProgram)

  /** `ivc_program::input::IO`: the values an iteration exposes. */
  datatype IO = IO(values: seq<Fe>)

  /**
    The `ivc_program` functions the bridge calls, whose code is not part
    of this model: `Witness::extract_subset`, `make_next_input_witness`,
    `IOProfile::check_structure` (None when the profile is well formed),
    the conversion of a witness into an `IO`, `get_curve_name` and the
    `VERSION_0_1` tag.
   */
  datatype IvcLib = IvcLib(
    extractSubset: (Witness, set<WitnessId>) -> IvcResult<Witness>,
    makeNextInputWitness: (Witness, IOProfile) -> Witness,
    checkStructure: IOProfile -> Option<MalformedProgramError>,
    witnessToIO: Witness -> IO,
    curveName: string,
    programVersion: string)

  /** A result of an `ivc_program` call: a value or the framework's error. */
  datatype IvcResult<+T> = IvcOk(value: T) | IvcErr(error: IvcError)

  /** `m` restricted to the identifiers `ids`. */
  function Restrict(m: Witness, ids: set<WitnessId>): (r: Witness)
    ensures r.Keys == m.Keys * ids
    ensures forall k :: k in r ==> r[k] == m[k]
  {
    map k | k in m && k in ids :: m[k]
  }

  /** `extract_subset` returns, whenever it succeeds, the witness restricted to the requested identifiers. */
  ghost predicate SubsetLawful(lib: IvcLib) {
    forall w: Witness, ids: set<WitnessId> ::
      lib.extractSubset(w, ids).IvcOk? ==> lib.extractSubset(w, ids).value == Restrict(w, ids)
  }

  // The meaning of a rank-1 constraint under an assignment.

  /** The value of an identifier; an identifier the assignment lacks reads as zero. */
  function Value(w: Witness, id: WitnessId): Fe {
    if id in w then w[id] else Zero
  }

  function EvalTerm(t: Term, w: Witness): Fe {
    match t
    case LcTerm(c, id) => Mul(c, Value(w, id))
    case Const(v) => v
  }

  function EvalLC(lc: LC, w: Witness): Fe {
    if |lc| == 0 then Zero else Add(EvalTerm(lc[0], w), EvalLC(lc[1..], w))
  }

  predicate Holds(c: R1CSConstraint, w: Witness) {
    Mul(EvalLC(c.a, w), EvalLC(c.b, w)) == EvalLC(c.c, w)
  }

  predicate AllHold(cs: seq<R1CSConstraint>, w: Witness) {
    forall i :: 0 <= i < |cs| ==> Holds(cs[i], w)
  }

  /** The value of a concatenation is the sum of the values of its parts. */
  lemma {:induction false} EvalLCAppend(x: LC, y: LC, w: Witness)
    ensures EvalLC(x + y, w) == Add(EvalLC(x, w), EvalLC(y, w))
  {
    if |x| == 0 {
      assert x + y == y;
      AddZero(EvalLC(y, w));
    } else {
      assert (x + y)[1..] == x[1..] + y;
      EvalLCAppend(x[1..], y, w);
      AddAssoc(EvalTerm(x[0], w), EvalLC(x[1..], w), EvalLC(y, w));
    }
  }

  /** A one-term combination `c·id` has value `c` times the value of `id`. */
  lemma SingleTerm(c: Fe, id: WitnessId, w: Witness)
    ensures EvalLC([LcTerm(c, id)], w) == Mul(c, Value(w, id))
  {
    AddZero(Mul(c, Value(w, id)));
  }
}
