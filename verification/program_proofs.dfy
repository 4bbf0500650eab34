/**
  What `make_step` and `compile` produce, stated against reference
  definitions that do not follow the expansion loop: the constraint list a
  gate list should expand to (`Shape`, in either coefficient mode), the
  value a gate denotes (`GateValue`), and the products a witness must
  record (`GatesRecorded`).

  With a dense solved witness (identifiers 0..n-1), the expansion in either
  mode yields `Shape` with its coefficients read from the returned witness,
  keeps the solved values and records every product, so the step's witness
  satisfies its own constraints exactly when it satisfies every gate. With
  unit coefficients the constraints hold under any witness exactly when it
  records the products and satisfies every gate. As written, compiling on
  the all-zero placeholder yields bilinear constraints that every witness
  satisfies, so only the closing constraints constrain.
 */
module ProgramProofs {
  import opened Errors
  import opened Field
  import opened IvcTypes
  import opened Gate
  import opened IdSets
  import opened Seqs
  import opened Program

  // The meaning of a gate.

  function MulTermsValue(ts: seq<MulTerm>, w: Witness): Fe {
    if |ts| == 0 then Zero
    else Add(Mul(ts[0].coeff, Mul(Value(w, ts[0].left), Value(w, ts[0].right))), MulTermsValue(ts[1..], w))
  }

  function AddTermsValue(ts: seq<AddTerm>, w: Witness): Fe {
    if |ts| == 0 then Zero else Add(Mul(ts[0].coeff, Value(w, ts[0].id)), AddTermsValue(ts[1..], w))
  }

  /** Σ coeff·w[l]·w[r] + Σ coeff·w[id] + constant. */
  function GateValue(g: AcirArithGate, w: Witness): Fe {
    Add(Add(MulTermsValue(g.mulTerms, w), AddTermsValue(g.addTerms, w)), g.constantTerm)
  }

  predicate GateHolds(g: AcirArithGate, w: Witness) {
    GateValue(g, w) == Zero
  }

  predicate AllGatesHold(gates: seq<AcirArithGate>, w: Witness) {
    forall i :: 0 <= i < |gates| ==> GateHolds(gates[i], w)
  }

  // The constraints a gate list should expand to, product identifiers counted from `base`.

  /** The coefficient a bilinear constraint gives identifier `id`: its value under `a` as written, one as intended. */
  function Coefficient(mode: CoefficientMode, a: Witness, id: WitnessId): Fe {
    BilinearCoefficient(mode, Value(a, id))
  }

  /** `(k·l) * (k'·r) = (k''·p)`, each coefficient that of its identifier under `a`. */
  function BilinearConstraint(mode: CoefficientMode, a: Witness, l: WitnessId, r: WitnessId, p: WitnessId): R1CSConstraint {
    R1CSConstraint([LcTerm(Coefficient(mode, a, l), l)], [LcTerm(Coefficient(mode, a, r), r)], [LcTerm(Coefficient(mode, a, p), p)])
  }

  /** One bilinear constraint per term, the `j`-th product at `base + j`; `a` supplies coefficients as written. */
  function BilinearConstraints(mode: CoefficientMode, ts: seq<MulTerm>, base: nat, a: Witness): seq<R1CSConstraint> {
    if |ts| == 0 then []
    else [BilinearConstraint(mode, a, ts[0].left, ts[0].right, base)] + BilinearConstraints(mode, ts[1..], base + 1, a)
  }

  function ProductTerms(ts: seq<MulTerm>, base: nat): LC {
    if |ts| == 0 then [] else [LcTerm(ts[0].coeff, base)] + ProductTerms(ts[1..], base + 1)
  }

  function ClosingConstraint(g: AcirArithGate, base: nat): R1CSConstraint {
    R1CSConstraint(ProductTerms(g.mulTerms, base) + AddTermsLC(g.addTerms) + [Const(g.constantTerm)], [Const(One)], [])
  }

  function GateShape(mode: CoefficientMode, g: AcirArithGate, base: nat, a: Witness): seq<R1CSConstraint> {
    BilinearConstraints(mode, g.mulTerms, base, a) + [ClosingConstraint(g, base)]
  }

  function Shape(mode: CoefficientMode, gates: seq<AcirArithGate>, base: nat, a: Witness): seq<R1CSConstraint> {
    if |gates| == 0 then []
    else GateShape(mode, gates[0], base, a) + Shape(mode, gates[1..], base + |gates[0].mulTerms|, a)
  }

  /** Each gate's closing constraint holds, product identifiers counted from `base`. */
  predicate ClosingsHold(gates: seq<AcirArithGate>, base: nat, w: Witness) {
    |gates| == 0 || (Holds(ClosingConstraint(gates[0], base), w) && ClosingsHold(gates[1..], base + |gates[0].mulTerms|, w))
  }

  /** Every operand of the `j`-th term names an identifier allocated before its product (`base + j`). */
  predicate TermsInScope(ts: seq<MulTerm>, base: nat) {
    forall j :: 0 <= j < |ts| ==> ts[j].left < base + j && ts[j].right < base + j
  }

  predicate GatesInScope(gates: seq<AcirArithGate>, base: nat) {
    |gates| == 0 || (TermsInScope(gates[0].mulTerms, base) && GatesInScope(gates[1..], base + |gates[0].mulTerms|))
  }

  /** The `j`-th product identifier holds the product of its term's operands. */
  predicate TermsRecorded(ts: seq<MulTerm>, base: nat, w: Witness) {
    forall j :: 0 <= j < |ts| ==> Value(w, base + j) == Mul(Value(w, ts[j].left), Value(w, ts[j].right))
  }

  predicate GatesRecorded(gates: seq<AcirArithGate>, base: nat, w: Witness) {
    |gates| == 0 || (TermsRecorded(gates[0].mulTerms, base, w) && GatesRecorded(gates[1..], base + |gates[0].mulTerms|, w))
  }

  /** `big` agrees with `small` on every identifier `small` assigns. */
  predicate Extends(big: Witness, small: Witness) {
    small.Keys <= big.Keys && forall k :: k in small ==> big[k] == small[k]
  }

  lemma AppendAssoc<T>(a: seq<T>, b: seq<T>, c: seq<T>)
    ensures a + b + c == a + (b + c)
  {
  }

  /** The assignment's identifiers are exactly `0..n-1`. */
  ghost predicate DenseKeys(m: Witness, n: nat) {
    forall x: nat :: x in m <==> x < n
  }

  lemma DenseKeysRange(m: Witness, n: nat)
    ensures DenseKeys(m, n) <==> m.Keys == IdRange(n)
  {
  }

  // Unfolding the index-based predicates one term at a time.

  lemma TermsInScopeCons(ts: seq<MulTerm>, base: nat)
    requires |ts| > 0
    ensures TermsInScope(ts, base) <==>
            ts[0].left < base && ts[0].right < base && TermsInScope(ts[1..], base + 1)
  {
    var rest := ts[1..];
    if TermsInScope(ts, base) {
      forall j | 0 <= j < |rest| ensures rest[j].left < base + 1 + j && rest[j].right < base + 1 + j {
        assert rest[j] == ts[j + 1];
      }
    }
    if ts[0].left < base && ts[0].right < base && TermsInScope(rest, base + 1) {
      forall j | 0 <= j < |ts| ensures ts[j].left < base + j && ts[j].right < base + j {
        if j > 0 {
          assert ts[j] == rest[j - 1];
        }
      }
    }
  }

  lemma TermsRecordedCons(ts: seq<MulTerm>, base: nat, w: Witness)
    requires |ts| > 0
    ensures TermsRecorded(ts, base, w) <==>
            Value(w, base) == Mul(Value(w, ts[0].left), Value(w, ts[0].right)) && TermsRecorded(ts[1..], base + 1, w)
  {
    var rest := ts[1..];
    if TermsRecorded(ts, base, w) {
      assert Value(w, base + 0) == Mul(Value(w, ts[0].left), Value(w, ts[0].right));
      forall j | 0 <= j < |rest| ensures Value(w, base + 1 + j) == Mul(Value(w, rest[j].left), Value(w, rest[j].right)) {
        assert rest[j] == ts[j + 1];
        assert base + 1 + j == base + (j + 1);
      }
    }
    if Value(w, base) == Mul(Value(w, ts[0].left), Value(w, ts[0].right)) && TermsRecorded(rest, base + 1, w) {
      forall j | 0 <= j < |ts| ensures Value(w, base + j) == Mul(Value(w, ts[j].left), Value(w, ts[j].right)) {
        if j > 0 {
          assert ts[j] == rest[j - 1];
          assert base + j == base + 1 + (j - 1);
        }
      }
    }
  }

  lemma AllGatesHoldCons(gates: seq<AcirArithGate>, w: Witness)
    requires |gates| > 0
    ensures AllGatesHold(gates, w) <==> GateHolds(gates[0], w) && AllGatesHold(gates[1..], w)
  {
    if GateHolds(gates[0], w) && AllGatesHold(gates[1..], w) {
      forall i | 0 <= i < |gates| ensures GateHolds(gates[i], w) {
        if i > 0 {
          assert gates[i] == gates[1..][i - 1];
        }
      }
    }
  }

  // The witness the expansion computes from a dense assignment (the same in both modes).

  lemma {:induction false} ExpandMulTermsDense(mode: CoefficientMode, terms: seq<MulTerm>, e: Expansion, lc: LC)
    requires DenseKeys(e.assignment, e.numWitness)
    ensures ExpandMulTerms(mode, terms, e, lc).Ok? <==> TermsInScope(terms, e.numWitness)
    ensures ExpandMulTerms(mode, terms, e, lc).Ok? ==>
      var e1 := ExpandMulTerms(mode, terms, e, lc).value.0;
      && DenseKeys(e1.assignment, e.numWitness + |terms|)
      && Extends(e1.assignment, e.assignment)
      && TermsRecorded(terms, e.numWitness, e1.assignment)
    decreases |terms|
  {
    var n := e.numWitness;
    if |terms| > 0 {
      var t := terms[0];
      var rest := terms[1..];
      TermsInScopeCons(terms, n);
      if t.left < n && t.right < n {
        var product := Mul(e.assignment[t.left], e.assignment[t.right]);
        var bilinear := R1CSConstraint(
          [LcTerm(BilinearCoefficient(mode, e.assignment[t.left]), t.left)],
          [LcTerm(BilinearCoefficient(mode, e.assignment[t.right]), t.right)],
          [LcTerm(BilinearCoefficient(mode, product), n)]);
        var e' := Expansion(e.assignment[n := product], n + 1, e.constraints + [bilinear]);
        assert DenseKeys(e'.assignment, n + 1);
        ExpandMulTermsDense(mode, rest, e', lc + [LcTerm(t.coeff, n)]);
        var r := ExpandMulTerms(mode, terms, e, lc);
        assert r == ExpandMulTerms(mode, rest, e', lc + [LcTerm(t.coeff, n)]);
        if r.Ok? {
          var e1 := r.value.0;
          assert e1.assignment[n] == e'.assignment[n];
          assert e1.assignment[t.left] == e.assignment[t.left];
          assert e1.assignment[t.right] == e.assignment[t.right];
          TermsRecordedCons(terms, n, e1.assignment);
        }
      }
    }
  }

  lemma ExpandGateDense(mode: CoefficientMode, g: AcirArithGate, e: Expansion)
    requires DenseKeys(e.assignment, e.numWitness)
    ensures ExpandGate(mode, g, e).Ok? <==> TermsInScope(g.mulTerms, e.numWitness)
    ensures ExpandGate(mode, g, e).Ok? ==>
      var e1 := ExpandGate(mode, g, e).value;
      && DenseKeys(e1.assignment, e.numWitness + |g.mulTerms|)
      && Extends(e1.assignment, e.assignment)
      && TermsRecorded(g.mulTerms, e.numWitness, e1.assignment)
  {
    ExpandMulTermsDense(mode, g.mulTerms, e, []);
  }

  lemma ExtendsTrans(big: Witness, mid: Witness, small: Witness)
    requires Extends(big, mid) && Extends(mid, small)
    ensures Extends(big, small)
  {
  }

  /** Product records survive extension while the identifiers they read stay assigned. */
  lemma TermsRecordedExtends(ts: seq<MulTerm>, base: nat, small: Witness, big: Witness)
    requires TermsInScope(ts, base)
    requires DenseKeys(small, base + |ts|)
    requires Extends(big, small)
    requires TermsRecorded(ts, base, small)
    ensures TermsRecorded(ts, base, big)
  {
    forall j | 0 <= j < |ts|
      ensures Value(big, base + j) == Mul(Value(big, ts[j].left), Value(big, ts[j].right))
    {
      assert base + j in small && ts[j].left in small && ts[j].right in small;
    }
  }

  lemma {:induction false} ExpandGatesDense(mode: CoefficientMode, gates: seq<AcirArithGate>, e: Expansion)
    requires DenseKeys(e.assignment, e.numWitness)
    ensures ExpandGates(mode, gates, e).Ok? <==> GatesInScope(gates, e.numWitness)
    ensures ExpandGates(mode, gates, e).Ok? ==>
      var e1 := ExpandGates(mode, gates, e).value;
      && DenseKeys(e1.assignment, e.numWitness + TotalMulTerms(gates))
      && Extends(e1.assignment, e.assignment)
      && GatesRecorded(gates, e.numWitness, e1.assignment)
    decreases |gates|
  {
    if |gates| > 0 {
      var n := e.numWitness;
      ExpandGateDense(mode, gates[0], e);
      var r0 := ExpandGate(mode, gates[0], e);
      if r0.Ok? {
        var e0 := r0.value;
        ExpandGatesDense(mode, gates[1..], e0);
        var r := ExpandGates(mode, gates, e);
        assert r == ExpandGates(mode, gates[1..], e0);
        if r.Ok? {
          var e1 := r.value;
          assert TotalMulTerms(gates) == |gates[0].mulTerms| + TotalMulTerms(gates[1..]);
          ExtendsTrans(e1.assignment, e0.assignment, e.assignment);
          TermsRecordedExtends(gates[0].mulTerms, n, e0.assignment, e1.assignment);
        }
      }
    }
  }

  // The constraints the expansion emits from a dense assignment, read against any extension `a` of its result.

  lemma {:induction false} ExpandMulTermsShape(mode: CoefficientMode, terms: seq<MulTerm>, e: Expansion, lc: LC, a: Witness)
    requires DenseKeys(e.assignment, e.numWitness)
    ensures var r := ExpandMulTerms(mode, terms, e, lc);
      r.Ok? && Extends(a, r.value.0.assignment) ==>
      && r.value.0.constraints == e.constraints + BilinearConstraints(mode, terms, e.numWitness, a)
      && r.value.1 == lc + ProductTerms(terms, e.numWitness)
    decreases |terms|
  {
    var n := e.numWitness;
    if |terms| == 0 {
      assert e.constraints + [] == e.constraints;
      assert lc + [] == lc;
    } else {
      var t := terms[0];
      var rest := terms[1..];
      if t.left in e.assignment && t.right in e.assignment {
        var product := Mul(e.assignment[t.left], e.assignment[t.right]);
        var bilinear := R1CSConstraint(
          [LcTerm(BilinearCoefficient(mode, e.assignment[t.left]), t.left)],
          [LcTerm(BilinearCoefficient(mode, e.assignment[t.right]), t.right)],
          [LcTerm(BilinearCoefficient(mode, product), n)]);
        var e' := Expansion(e.assignment[n := product], n + 1, e.constraints + [bilinear]);
        assert DenseKeys(e'.assignment, n + 1);
        ExpandMulTermsShape(mode, rest, e', lc + [LcTerm(t.coeff, n)], a);
        ExpandMulTermsDense(mode, rest, e', lc + [LcTerm(t.coeff, n)]);
        var r := ExpandMulTerms(mode, terms, e, lc);
        assert r == ExpandMulTerms(mode, rest, e', lc + [LcTerm(t.coeff, n)]);
        if r.Ok? && Extends(a, r.value.0.assignment) {
          var (e1, lc1) := r.value;
          ExtendsTrans(a, e1.assignment, e'.assignment);
          assert bilinear == BilinearConstraint(mode, a, t.left, t.right, n);
          assert e1.constraints == e'.constraints + BilinearConstraints(mode, rest, n + 1, a);
          assert BilinearConstraints(mode, terms, n, a) == [bilinear] + BilinearConstraints(mode, rest, n + 1, a);
          AppendAssoc(e.constraints, [bilinear], BilinearConstraints(mode, rest, n + 1, a));
          assert lc1 == lc + [LcTerm(t.coeff, n)] + ProductTerms(rest, n + 1);
          assert ProductTerms(terms, n) == [LcTerm(t.coeff, n)] + ProductTerms(rest, n + 1);
          AppendAssoc(lc, [LcTerm(t.coeff, n)], ProductTerms(rest, n + 1));
        }
      }
    }
  }

  lemma ExpandGateShape(mode: CoefficientMode, g: AcirArithGate, e: Expansion, a: Witness)
    requires DenseKeys(e.assignment, e.numWitness)
    ensures var r := ExpandGate(mode, g, e);
      r.Ok? && Extends(a, r.value.assignment) ==>
      r.value.constraints == e.constraints + GateShape(mode, g, e.numWitness, a)
  {
    ExpandMulTermsShape(mode, g.mulTerms, e, [], a);
    var r := ExpandMulTerms(mode, g.mulTerms, e, []);
    if r.Ok? {
      assert [] + ProductTerms(g.mulTerms, e.numWitness) == ProductTerms(g.mulTerms, e.numWitness);
      AppendAssoc(e.constraints, BilinearConstraints(mode, g.mulTerms, e.numWitness, a), [ClosingConstraint(g, e.numWitness)]);
    }
  }

  lemma {:induction false} ExpandGatesShape(mode: CoefficientMode, gates: seq<AcirArithGate>, e: Expansion, a: Witness)
    requires DenseKeys(e.assignment, e.numWitness)
    ensures var r := ExpandGates(mode, gates, e);
      r.Ok? && Extends(a, r.value.assignment) ==>
      r.value.constraints == e.constraints + Shape(mode, gates, e.numWitness, a)
    decreases |gates|
  {
    if |gates| == 0 {
      assert e.constraints + [] == e.constraints;
    } else {
      var n := e.numWitness;
      ExpandGateShape(mode, gates[0], e, a);
      ExpandGateDense(mode, gates[0], e);
      var r0 := ExpandGate(mode, gates[0], e);
      if r0.Ok? {
        var e0 := r0.value;
        ExpandGatesShape(mode, gates[1..], e0, a);
        ExpandGatesDense(mode, gates[1..], e0);
        var r := ExpandGates(mode, gates, e);
        assert r == ExpandGates(mode, gates[1..], e0);
        if r.Ok? && Extends(a, r.value.assignment) {
          ExtendsTrans(a, r.value.assignment, e0.assignment);
          AppendAssoc(e.constraints, GateShape(mode, gates[0], n, a), Shape(mode, gates[1..], n + |gates[0].mulTerms|, a));
        }
      }
    }
  }

  /**
    `make_step` in either mode on a dense solved witness: succeeds exactly
    when every operand is allocated before its product; the result's
    identifiers are again dense, the solved values are kept, every product
    is recorded, and the constraints are `Shape` with the coefficients (as
    written) read from the returned witness.
   */
  lemma MakeStepDense(mode: CoefficientMode, s: CircuitStructure, solved: Witness)
    requires DenseKeys(solved, |solved|)
    ensures MakeStepWith(mode, s, solved).Ok? <==> GatesInScope(s.gates, |solved|)
    ensures MakeStepWith(mode, s, solved).Ok? ==>
      var step := MakeStepWith(mode, s, solved).value;
      && DenseKeys(step.assignment, |solved| + TotalMulTerms(s.gates))
      && Extends(step.assignment, solved)
      && step.program.r1csConstraints == Shape(mode, s.gates, |solved|, step.assignment)
      && GatesRecorded(s.gates, |solved|, step.assignment)
  {
    var e := Expansion(solved, |solved|, []);
    ExpandGatesDense(mode, s.gates, e);
    if MakeStepWith(mode, s, solved).Ok? {
      var step := MakeStepWith(mode, s, solved).value;
      ExpandGatesShape(mode, s.gates, e, step.assignment);
      assert [] + Shape(mode, s.gates, |solved|, step.assignment) == Shape(mode, s.gates, |solved|, step.assignment);
    }
  }

  // The witness the expansion computes from any solved witness.

  /**
    `big` is `small` with the identifiers `lo..hi-1` assigned: its keys are
    `small`'s and those, and it keeps `small`'s value everywhere else. A
    value `small` holds inside the range may be replaced.
   */
  ghost predicate WithSlots(big: Witness, small: Witness, lo: nat, hi: nat) {
    && (forall k :: k in big <==> k in small || lo <= k < hi)
    && (forall k :: k in small && !(lo <= k < hi) ==> big[k] == small[k])
  }

  lemma {:induction false} ExpandMulTermsSlots(mode: CoefficientMode, terms: seq<MulTerm>, e: Expansion, lc: LC, small: Witness, lo: nat)
    requires lo <= e.numWitness && WithSlots(e.assignment, small, lo, e.numWitness)
    ensures var r := ExpandMulTerms(mode, terms, e, lc);
      r.Ok? ==> WithSlots(r.value.0.assignment, small, lo, r.value.0.numWitness)
    decreases |terms|
  {
    var n := e.numWitness;
    if |terms| > 0 {
      var t := terms[0];
      if t.left in e.assignment && t.right in e.assignment {
        var product := Mul(e.assignment[t.left], e.assignment[t.right]);
        var bilinear := R1CSConstraint(
          [LcTerm(BilinearCoefficient(mode, e.assignment[t.left]), t.left)],
          [LcTerm(BilinearCoefficient(mode, e.assignment[t.right]), t.right)],
          [LcTerm(BilinearCoefficient(mode, product), n)]);
        var e' := Expansion(e.assignment[n := product], n + 1, e.constraints + [bilinear]);
        assert WithSlots(e'.assignment, small, lo, n + 1);
        ExpandMulTermsSlots(mode, terms[1..], e', lc + [LcTerm(t.coeff, n)], small, lo);
        assert ExpandMulTerms(mode, terms, e, lc) == ExpandMulTerms(mode, terms[1..], e', lc + [LcTerm(t.coeff, n)]);
      }
    }
  }

  lemma {:induction false} ExpandGatesSlots(mode: CoefficientMode, gates: seq<AcirArithGate>, e: Expansion, small: Witness, lo: nat)
    requires lo <= e.numWitness && WithSlots(e.assignment, small, lo, e.numWitness)
    ensures var r := ExpandGates(mode, gates, e);
      r.Ok? ==> WithSlots(r.value.assignment, small, lo, r.value.numWitness)
    decreases |gates|
  {
    if |gates| > 0 {
      ExpandMulTermsSlots(mode, gates[0].mulTerms, e, [], small, lo);
      var r0 := ExpandGate(mode, gates[0], e);
      if r0.Ok? {
        ExpandGatesSlots(mode, gates[1..], r0.value, small, lo);
      }
    }
  }

  /**
    `make_step` in either mode on any solved witness: the product
    identifiers are `|solved|..numWitness-1`, whether or not the solved
    witness already assigns them. The result keeps every solved value
    outside that range; what it holds inside the range is not stated here
    (`ProductOverwritesSolved` shows a solved value replaced there).
   */
  lemma MakeStepSlots(mode: CoefficientMode, s: CircuitStructure, solved: Witness)
    ensures var r := MakeStepWith(mode, s, solved);
      r.Ok? ==> WithSlots(r.value.assignment, solved, |solved|, r.value.program.numWitness)
  {
    ExpandGatesSlots(mode, s.gates, Expansion(solved, |solved|, []), solved, |solved|);
  }

  /** The one-gate circuit `1·w1·w1 = 0`. */
  const SquareOneGate: AcirArithGate := AcirArithGate([MulTerm(One, 1, 1)], [], Zero)
  const SquareOneCircuit: CircuitStructure :=
    CircuitStructure([SquareOneGate], IVCProgram(IOProfile({}, {}, {}, {}), 0, [], "", ""))

  /**
    On a solved witness over `{1, 2}` the product of `w1·w1` takes the
    identifier 2, the count of solved entries, and replaces the solved
    value of `w2`: the step has three witnesses by count but two entries.
   */
  lemma ProductOverwritesSolved(mode: CoefficientMode)
    ensures var r := MakeStepWith(mode, SquareOneCircuit, map[1 := 5, 2 := 7]);
      && r.Ok?
      && r.value.assignment == map[1 := 5, 2 := 25]
      && r.value.program.numWitness == 3
      && |r.value.assignment| == 2
  {
    var solved: Witness := map[1 := 5, 2 := 7];
    assert |solved| == 2 by {
      assert solved.Keys == {1, 2};
    }
    assert Mul(5, 5) == 25;
    var e0 := Expansion(solved, 2, []);
    var t := MulTerm(One, 1, 1);
    var bilinear := R1CSConstraint(
      [LcTerm(BilinearCoefficient(mode, 5), 1)],
      [LcTerm(BilinearCoefficient(mode, 5), 1)],
      [LcTerm(BilinearCoefficient(mode, 25), 2)]);
    var e1 := Expansion(solved[2 := 25], 3, [bilinear]);
    assert 1 in solved && solved[1] == 5;
    assert e0.constraints + [bilinear] == [bilinear];
    assert [] + [LcTerm(One, 2)] == [LcTerm(One, 2)];
    assert ExpandMulTerms(mode, [t], e0, []) == ExpandMulTerms(mode, [], e1, [LcTerm(One, 2)]);
    var closing := R1CSConstraint([LcTerm(One, 2)] + AddTermsLC([]) + [Const(Zero)], [Const(One)], []);
    assert SquareOneGate.mulTerms == [t];
    assert ExpandMulTerms(mode, SquareOneGate.mulTerms, e0, []) == Ok((e1, [LcTerm(One, 2)]));
    assert [bilinear] + [closing] == [bilinear, closing];
    assert ExpandGate(mode, SquareOneGate, e0) == Ok(e1.(constraints := [bilinear, closing]));
    assert ExpandGates(mode, [SquareOneGate], e0) == ExpandGates(mode, [], e1.(constraints := [bilinear, closing]));
    assert MakeStepWith(mode, SquareOneCircuit, solved).value.assignment == solved[2 := 25];
    assert solved[2 := 25] == map[1 := 5, 2 := 25];
    var expected: Witness := map[1 := 5, 2 := 25];
    assert expected.Keys == {1, 2};
  }

  /** The one-gate circuit `1·w3·w3 + 1·w1·w1 - 20 = 0`. */
  const OverwriteGate: AcirArithGate := AcirArithGate([MulTerm(One, 3, 3), MulTerm(One, 1, 1)], [], P - 20)
  const OverwriteCircuit: CircuitStructure :=
    CircuitStructure([OverwriteGate], IVCProgram(IOProfile({}, {}, {}, {}), 0, [], "", ""))
  const OverwriteSolved: Witness := map[1 := 2, 3 := 3]
  /** The witness `make_step` returns on `OverwriteSolved`: `w3` now holds the second product. */
  const OverwriteResult: Witness := map[1 := 2, 2 := 9, 3 := 4]

  /** The unit-coefficient constraint `w_l · w_r = w_p`. */
  function UnitBilinear(l: WitnessId, r: WitnessId, p: WitnessId): R1CSConstraint {
    R1CSConstraint([LcTerm(One, l)], [LcTerm(One, r)], [LcTerm(One, p)])
  }

  /** The first product `w3·w3 = 9` lands on identifier 2. */
  lemma OverwriteFirstProduct()
    ensures ExpandMulTerms(UnitCoefficients, OverwriteGate.mulTerms, Expansion(OverwriteSolved, 2, []), [])
         == ExpandMulTerms(UnitCoefficients, OverwriteGate.mulTerms[1..],
              Expansion(OverwriteSolved[2 := 9], 3, [UnitBilinear(3, 3, 2)]), [LcTerm(One, 2)])
  {
    var e0 := Expansion(OverwriteSolved, 2, []);
    assert 3 in e0.assignment && e0.assignment[3] == 3 && Mul(3, 3) == 9;
    assert e0.constraints + [UnitBilinear(3, 3, 2)] == [UnitBilinear(3, 3, 2)];
    assert [] + [LcTerm(One, 2)] == [LcTerm(One, 2)];
  }

  /** The second product `w1·w1 = 4` lands on identifier 3, replacing the solved `w3`. */
  lemma OverwriteSecondProduct()
    ensures ExpandMulTerms(UnitCoefficients, OverwriteGate.mulTerms[1..],
              Expansion(OverwriteSolved[2 := 9], 3, [UnitBilinear(3, 3, 2)]), [LcTerm(One, 2)])
         == Ok((Expansion(OverwriteResult, 4, [UnitBilinear(3, 3, 2), UnitBilinear(1, 1, 3)]),
                [LcTerm(One, 2), LcTerm(One, 3)]))
  {
    var e1 := Expansion(OverwriteSolved[2 := 9], 3, [UnitBilinear(3, 3, 2)]);
    assert OverwriteGate.mulTerms[1..] == [MulTerm(One, 1, 1)];
    assert 1 in e1.assignment && e1.assignment[1] == 2 && Mul(2, 2) == 4;
    assert [UnitBilinear(3, 3, 2)] + [UnitBilinear(1, 1, 3)] == [UnitBilinear(3, 3, 2), UnitBilinear(1, 1, 3)];
    assert [LcTerm(One, 2)] + [LcTerm(One, 3)] == [LcTerm(One, 2), LcTerm(One, 3)];
    assert OverwriteSolved[2 := 9][3 := 4] == OverwriteResult;
  }

  /** `OverwriteResult` satisfies the gate: 1·4·4 + 1·2·2 - 20 = 0. */
  lemma OverwriteGateHolds()
    ensures AllGatesHold(OverwriteCircuit.gates, OverwriteResult)
  {
    var w := OverwriteResult;
    assert Value(w, 3) == 4 && Value(w, 1) == 2;
    assert Mul(One, Mul(4, 4)) == 16 && Mul(One, Mul(2, 2)) == 4;
    assert OverwriteGate.mulTerms[1..] == [MulTerm(One, 1, 1)];
    assert [MulTerm(One, 1, 1)][1..] == [];
    assert MulTermsValue([MulTerm(One, 1, 1)], w) == 4;
    assert MulTermsValue(OverwriteGate.mulTerms, w) == Add(16, 4) == 20;
    assert GateValue(OverwriteGate, w) == Zero;
    assert OverwriteCircuit.gates == [OverwriteGate];
  }

  /** The constraints `make_step` emits for `OverwriteCircuit`: two products, then the closing one. */
  const OverwriteConstraints: seq<R1CSConstraint> :=
    [UnitBilinear(3, 3, 2), UnitBilinear(1, 1, 3),
     R1CSConstraint([LcTerm(One, 2), LcTerm(One, 3)] + AddTermsLC([]) + [Const(P - 20)], [Const(One)], [])]

  /** The whole step on `OverwriteSolved`, unit coefficients. */
  lemma OverwriteStep()
    ensures MakeStep(OverwriteCircuit, OverwriteSolved)
         == Ok(Step(OverwriteResult, IVCProgram(OverwriteCircuit.program.io, 4, OverwriteConstraints, "", "")))
  {
    assert |OverwriteSolved| == 2 by {
      assert OverwriteSolved.Keys == {1, 3};
    }
    OverwriteFirstProduct();
    OverwriteSecondProduct();
    var cs := [UnitBilinear(3, 3, 2), UnitBilinear(1, 1, 3)];
    var e0 := Expansion(OverwriteSolved, 2, []);
    var e2 := Expansion(OverwriteResult, 4, OverwriteConstraints);
    assert cs + [OverwriteConstraints[2]] == OverwriteConstraints;
    assert ExpandGate(UnitCoefficients, OverwriteGate, e0) == Ok(e2);
    assert ExpandGates(UnitCoefficients, [OverwriteGate], e0) == ExpandGates(UnitCoefficients, [], e2);
  }

  /** `OverwriteResult` breaks the first product constraint: w2 = 9 but w3·w3 = 16. */
  lemma OverwriteFirstFails()
    ensures !Holds(UnitBilinear(3, 3, 2), OverwriteResult)
  {
    UnitBilinearHolds(3, 3, 2, map[], OverwriteResult);
    assert UnitBilinear(3, 3, 2) == BilinearConstraint(UnitCoefficients, map[], 3, 3, 2);
    assert Value(OverwriteResult, 2) == 9 && Value(OverwriteResult, 3) == 4 && Mul(4, 4) == 16;
  }

  /**
    With unit coefficients, on the solved witness `w1 = 2, w3 = 3`, the
    first product (`w3·w3 = 9`) takes identifier 2 and the second
    (`w1·w1 = 4`) takes identifier 3, replacing the operand the first one
    read. The returned witness satisfies the gate (16 + 4 - 20 = 0) but not
    the step's own first constraint `w3·w3 = w2` (16 ≠ 9).
   */
  lemma ProductOverwritesOperand()
    ensures var r := MakeStep(OverwriteCircuit, OverwriteSolved);
      && r.Ok?
      && r.value.assignment == OverwriteResult
      && AllGatesHold(OverwriteCircuit.gates, r.value.assignment)
      && !AllHold(r.value.program.r1csConstraints, r.value.assignment)
  {
    OverwriteStep();
    OverwriteGateHolds();
    OverwriteFirstFails();
    var r := MakeStep(OverwriteCircuit, OverwriteSolved);
    assert r.value.program.r1csConstraints == OverwriteConstraints;
    assert r.value.program.r1csConstraints[0] == UnitBilinear(3, 3, 2);
  }

  // Satisfaction of the reference constraints.

  lemma AllHoldAppend(x: seq<R1CSConstraint>, y: seq<R1CSConstraint>, w: Witness)
    ensures AllHold(x + y, w) <==> AllHold(x, w) && AllHold(y, w)
  {
    if AllHold(x, w) && AllHold(y, w) {
      forall i | 0 <= i < |x + y| ensures Holds((x + y)[i], w) {
        if i >= |x| {
          assert (x + y)[i] == y[i - |x|];
        }
      }
    }
    if AllHold(x + y, w) {
      forall i | 0 <= i < |x| ensures Holds(x[i], w) {
        assert (x + y)[i] == x[i];
      }
      forall i | 0 <= i < |y| ensures Holds(y[i], w) {
        assert (x + y)[|x| + i] == y[i];
      }
    }
  }

  lemma AllHoldSingle(c: R1CSConstraint, w: Witness)
    ensures AllHold([c], w) <==> Holds(c, w)
  {
    assert [c][0] == c;
  }

  lemma UnitTermValue(id: WitnessId, w: Witness)
    ensures EvalLC([LcTerm(One, id)], w) == Value(w, id)
  {
    SingleTerm(One, id, w);
    MulOne(Value(w, id));
  }

  lemma ConstValue(c: Fe, w: Witness)
    ensures EvalLC([Const(c)], w) == c
  {
    AddZero(c);
  }

  /** A constraint `a * 1 = 0` holds exactly when `a` evaluates to zero. */
  lemma LinearHolds(c: R1CSConstraint, w: Witness)
    requires c.b == [Const(One)] && c.c == []
    ensures Holds(c, w) <==> EvalLC(c.a, w) == Zero
  {
    ConstValue(One, w);
    MulOne(EvalLC(c.a, w));
  }

  /** `(1·l) * (1·r) = (1·p)` holds exactly when `p` holds the product of `l` and `r`. */
  lemma UnitBilinearHolds(l: WitnessId, r: WitnessId, p: WitnessId, a: Witness, w: Witness)
    ensures Holds(BilinearConstraint(UnitCoefficients, a, l, r, p), w) <==> Value(w, p) == Mul(Value(w, l), Value(w, r))
  {
    assert BilinearConstraint(UnitCoefficients, a, l, r, p) == R1CSConstraint([LcTerm(One, l)], [LcTerm(One, r)], [LcTerm(One, p)]);
    UnitTermValue(l, w);
    UnitTermValue(r, w);
    UnitTermValue(p, w);
  }

  /**
    The bilinear constraint as written, `(w[l]·l) * (w[r]·r) = (w[p]·p)`,
    holds under the witness its coefficients come from once `p` holds the
    product: both sides are `w[l]²·w[r]²`.
   */
  lemma AsWrittenBilinearHolds(l: WitnessId, r: WitnessId, p: WitnessId, w: Witness)
    requires Value(w, p) == Mul(Value(w, l), Value(w, r))
    ensures Holds(BilinearConstraint(WitnessValues, w, l, r, p), w)
  {
    SingleTerm(Value(w, l), l, w);
    SingleTerm(Value(w, r), r, w);
    SingleTerm(Value(w, p), p, w);
    MulSquares(Value(w, l), Value(w, r));
  }

  /** As written with coefficients read from an all-zero witness, a bilinear constraint is `0 * 0 = 0`. */
  lemma ZeroCoefficientsHold(l: WitnessId, r: WitnessId, p: WitnessId, z: Witness, w: Witness)
    requires AllZero(z)
    ensures Holds(BilinearConstraint(WitnessValues, z, l, r, p), w)
  {
    var c := BilinearConstraint(WitnessValues, z, l, r, p);
    assert c == R1CSConstraint([LcTerm(Zero, l)], [LcTerm(Zero, r)], [LcTerm(Zero, p)]);
    assert ZeroBilinear(c);
    ZeroBilinearHolds(c, w);
  }

  lemma ClosingValue(g: AcirArithGate, base: nat, w: Witness)
    requires TermsRecorded(g.mulTerms, base, w)
    ensures EvalLC(ClosingConstraint(g, base).a, w) == GateValue(g, w)
  {
    var products := ProductTerms(g.mulTerms, base);
    var adds := AddTermsLC(g.addTerms);
    EvalLCAppend(products + adds, [Const(g.constantTerm)], w);
    ConstValue(g.constantTerm, w);
    EvalLCAppend(products, adds, w);
    ProductTermsValue(g.mulTerms, base, w);
    AddTermsLCValue(g.addTerms, w);
  }

  /** With unit coefficients the bilinear constraints hold exactly when every product is recorded. */
  lemma {:induction false} BilinearHold(ts: seq<MulTerm>, base: nat, a: Witness, w: Witness)
    ensures AllHold(BilinearConstraints(UnitCoefficients, ts, base, a), w) <==> TermsRecorded(ts, base, w)
    decreases |ts|
  {
    if |ts| > 0 {
      var c := BilinearConstraint(UnitCoefficients, a, ts[0].left, ts[0].right, base);
      UnitBilinearHolds(ts[0].left, ts[0].right, base, a, w);
      BilinearHold(ts[1..], base + 1, a, w);
      AllHoldAppend([c], BilinearConstraints(UnitCoefficients, ts[1..], base + 1, a), w);
      AllHoldSingle(c, w);
      TermsRecordedCons(ts, base, w);
    }
  }

  /** In either mode, the bilinear constraints built from a witness that records the products hold under it. */
  lemma {:induction false} RecordedBilinearHold(mode: CoefficientMode, ts: seq<MulTerm>, base: nat, w: Witness)
    requires TermsRecorded(ts, base, w)
    ensures AllHold(BilinearConstraints(mode, ts, base, w), w)
    decreases |ts|
  {
    if |ts| > 0 {
      var c := BilinearConstraint(mode, w, ts[0].left, ts[0].right, base);
      TermsRecordedCons(ts, base, w);
      if mode == UnitCoefficients {
        UnitBilinearHolds(ts[0].left, ts[0].right, base, w, w);
      } else {
        AsWrittenBilinearHolds(ts[0].left, ts[0].right, base, w);
      }
      RecordedBilinearHold(mode, ts[1..], base + 1, w);
      AllHoldSingle(c, w);
      AllHoldAppend([c], BilinearConstraints(mode, ts[1..], base + 1, w), w);
    }
  }

  /** As written with coefficients read from an all-zero witness, every bilinear constraint holds under any witness. */
  lemma {:induction false} ZeroBilinearConstraintsHold(ts: seq<MulTerm>, base: nat, z: Witness, w: Witness)
    requires AllZero(z)
    ensures AllHold(BilinearConstraints(WitnessValues, ts, base, z), w)
    decreases |ts|
  {
    if |ts| > 0 {
      var c := BilinearConstraint(WitnessValues, z, ts[0].left, ts[0].right, base);
      ZeroCoefficientsHold(ts[0].left, ts[0].right, base, z, w);
      ZeroBilinearConstraintsHold(ts[1..], base + 1, z, w);
      AllHoldSingle(c, w);
      AllHoldAppend([c], BilinearConstraints(WitnessValues, ts[1..], base + 1, z), w);
    }
  }

  lemma {:induction false} ProductTermsValue(ts: seq<MulTerm>, base: nat, w: Witness)
    requires TermsRecorded(ts, base, w)
    ensures EvalLC(ProductTerms(ts, base), w) == MulTermsValue(ts, w)
    decreases |ts|
  {
    if |ts| > 0 {
      TermsRecordedCons(ts, base, w);
      ProductTermsValue(ts[1..], base + 1, w);
      assert ProductTerms(ts, base)[1..] == ProductTerms(ts[1..], base + 1);
    }
  }

  lemma {:induction false} AddTermsLCValue(ts: seq<AddTerm>, w: Witness)
    ensures EvalLC(AddTermsLC(ts), w) == AddTermsValue(ts, w)
    decreases |ts|
  {
    if |ts| > 0 {
      MapSeqCons((t: AddTerm) => LcTerm(t.coeff, t.id), ts);
      assert AddTermsLC(ts)[1..] == AddTermsLC(ts[1..]);
      AddTermsLCValue(ts[1..], w);
    }
  }

  /** With the products recorded, a gate's closing constraint holds exactly when the gate does. */
  lemma ClosingHolds(g: AcirArithGate, base: nat, w: Witness)
    requires TermsRecorded(g.mulTerms, base, w)
    ensures Holds(ClosingConstraint(g, base), w) <==> GateHolds(g, w)
  {
    ClosingValue(g, base, w);
    LinearHolds(ClosingConstraint(g, base), w);
  }

  /** One gate's unit-coefficient constraints hold exactly when its products are recorded and the gate holds. */
  lemma GateShapeHolds(g: AcirArithGate, base: nat, a: Witness, w: Witness)
    ensures AllHold(GateShape(UnitCoefficients, g, base, a), w) <==> TermsRecorded(g.mulTerms, base, w) && GateHolds(g, w)
  {
    AllHoldAppend(BilinearConstraints(UnitCoefficients, g.mulTerms, base, a), [ClosingConstraint(g, base)], w);
    BilinearHold(g.mulTerms, base, a, w);
    AllHoldSingle(ClosingConstraint(g, base), w);
    if TermsRecorded(g.mulTerms, base, w) {
      ClosingHolds(g, base, w);
    }
  }

  /** The unit-coefficient constraints hold under `w` exactly when `w` records every product and satisfies every gate. */
  lemma {:induction false} ShapeHolds(gates: seq<AcirArithGate>, base: nat, a: Witness, w: Witness)
    ensures AllHold(Shape(UnitCoefficients, gates, base, a), w) <==> GatesRecorded(gates, base, w) && AllGatesHold(gates, w)
    decreases |gates|
  {
    if |gates| > 0 {
      var g := gates[0];
      var next := base + |g.mulTerms|;
      assert Shape(UnitCoefficients, gates, base, a) == GateShape(UnitCoefficients, g, base, a) + Shape(UnitCoefficients, gates[1..], next, a);
      ShapeHolds(gates[1..], next, a, w);
      AllHoldAppend(GateShape(UnitCoefficients, g, base, a), Shape(UnitCoefficients, gates[1..], next, a), w);
      GateShapeHolds(g, base, a, w);
      AllGatesHoldCons(gates, w);
    }
  }

  lemma GateShapeHoldsRecorded(mode: CoefficientMode, g: AcirArithGate, base: nat, w: Witness)
    requires TermsRecorded(g.mulTerms, base, w)
    ensures AllHold(GateShape(mode, g, base, w), w) <==> GateHolds(g, w)
  {
    AllHoldAppend(BilinearConstraints(mode, g.mulTerms, base, w), [ClosingConstraint(g, base)], w);
    RecordedBilinearHold(mode, g.mulTerms, base, w);
    AllHoldSingle(ClosingConstraint(g, base), w);
    ClosingHolds(g, base, w);
  }

  /** In either mode, a witness that records every product satisfies the constraints built from it exactly when every gate holds. */
  lemma {:induction false} ShapeHoldsRecorded(mode: CoefficientMode, gates: seq<AcirArithGate>, base: nat, w: Witness)
    requires GatesRecorded(gates, base, w)
    ensures AllHold(Shape(mode, gates, base, w), w) <==> AllGatesHold(gates, w)
    decreases |gates|
  {
    if |gates| > 0 {
      var g := gates[0];
      var next := base + |g.mulTerms|;
      assert Shape(mode, gates, base, w) == GateShape(mode, g, base, w) + Shape(mode, gates[1..], next, w);
      ShapeHoldsRecorded(mode, gates[1..], next, w);
      AllHoldAppend(GateShape(mode, g, base, w), Shape(mode, gates[1..], next, w), w);
      GateShapeHoldsRecorded(mode, g, base, w);
      AllGatesHoldCons(gates, w);
    }
  }

  /** As written with coefficients from an all-zero witness, the constraints hold under `w` exactly when the closing constraints do. */
  lemma {:induction false} ZeroShapeHolds(gates: seq<AcirArithGate>, base: nat, z: Witness, w: Witness)
    requires AllZero(z)
    ensures AllHold(Shape(WitnessValues, gates, base, z), w) <==> ClosingsHold(gates, base, w)
    decreases |gates|
  {
    if |gates| > 0 {
      var g := gates[0];
      var next := base + |g.mulTerms|;
      assert Shape(WitnessValues, gates, base, z) == GateShape(WitnessValues, g, base, z) + Shape(WitnessValues, gates[1..], next, z);
      ZeroShapeHolds(gates[1..], next, z, w);
      AllHoldAppend(GateShape(WitnessValues, g, base, z), Shape(WitnessValues, gates[1..], next, z), w);
      AllHoldAppend(BilinearConstraints(WitnessValues, g.mulTerms, base, z), [ClosingConstraint(g, base)], w);
      ZeroBilinearConstraintsHold(g.mulTerms, base, z, w);
      AllHoldSingle(ClosingConstraint(g, base), w);
    }
  }

  /** With the products recorded, the closing constraints hold exactly when every gate does. */
  lemma {:induction false} ClosingsHoldRecorded(gates: seq<AcirArithGate>, base: nat, w: Witness)
    requires GatesRecorded(gates, base, w)
    ensures ClosingsHold(gates, base, w) <==> AllGatesHold(gates, w)
    decreases |gates|
  {
    if |gates| > 0 {
      ClosingHolds(gates[0], base, w);
      ClosingsHoldRecorded(gates[1..], base + |gates[0].mulTerms|, w);
      AllGatesHoldCons(gates, w);
    }
  }

  /**
    In either mode, on a solved witness over `0..n-1`, the witness
    `make_step` computes satisfies its own constraints exactly when it
    satisfies every gate. Without density this fails
    (`ProductOverwritesOperand`).
   */
  lemma StepSatisfiedIffGatesHold(mode: CoefficientMode, s: CircuitStructure, solved: Witness)
    requires DenseKeys(solved, |solved|)
    requires MakeStepWith(mode, s, solved).Ok?
    ensures AllHold(MakeStepWith(mode, s, solved).value.program.r1csConstraints, MakeStepWith(mode, s, solved).value.assignment)
            <==> AllGatesHold(s.gates, MakeStepWith(mode, s, solved).value.assignment)
  {
    MakeStepDense(mode, s, solved);
    ShapeHoldsRecorded(mode, s.gates, |solved|, MakeStepWith(mode, s, solved).value.assignment);
  }

  // Compilation.

  lemma {:induction false} GatesIdsInScope(gates: seq<AcirArithGate>, base: nat)
    requires forall x :: x in GatesIds(gates) ==> x < base
    ensures GatesInScope(gates, base)
    decreases |gates|
  {
    if |gates| > 0 {
      var g := gates[0];
      assert GatesIds(gates) == GateIds(g) + GatesIds(gates[1..]);
      forall j | 0 <= j < |g.mulTerms| ensures g.mulTerms[j].left < base + j && g.mulTerms[j].right < base + j {
        assert g.mulTerms[j].left in GateIds(g);
        assert g.mulTerms[j].right in GateIds(g);
      }
      GatesIdsInScope(gates[1..], base + |g.mulTerms|);
    }
  }

  lemma TrivialWitnessSize(s: CircuitStructure)
    requires MakeTrivialWitness(s).Ok?
    ensures DenseKeys(MakeTrivialWitness(s).value, |ReferencedIds(s)|)
    ensures |MakeTrivialWitness(s).value| == |ReferencedIds(s)|
  {
    var m := MakeTrivialWitness(s).value;
    assert |m.Keys| == |m|;
    DenseKeysRange(m, |ReferencedIds(s)|);
  }

  /** In either mode, `compile` succeeds exactly when the referenced identifiers are 0..n-1 for some n ≥ 1. */
  lemma CompileSucceedsIffDense(mode: CoefficientMode, s: CircuitStructure)
    ensures CompileWith(mode, s).Ok? <==> ReferencedIds(s) != {} && ReferencedIds(s) == IdRange(|ReferencedIds(s)|)
    ensures !CompileWith(mode, s).Ok? ==> CompileWith(mode, s) == MakeTrivialWitness(s).PropagateFailure()
  {
    if MakeTrivialWitness(s).Ok? {
      TrivialWitnessSize(s);
      var n := |ReferencedIds(s)|;
      GatesIdsInScope(s.gates, n);
      MakeStepDense(mode, s, MakeTrivialWitness(s).value);
    }
  }

  /** Unit coefficients read nothing from the witness they are built against. */
  lemma {:induction false} UnitShapeIgnoresWitness(gates: seq<AcirArithGate>, base: nat, a: Witness, b: Witness)
    ensures Shape(UnitCoefficients, gates, base, a) == Shape(UnitCoefficients, gates, base, b)
    decreases |gates|
  {
    if |gates| > 0 {
      UnitBilinearIgnoresWitness(gates[0].mulTerms, base, a, b);
      UnitShapeIgnoresWitness(gates[1..], base + |gates[0].mulTerms|, a, b);
    }
  }

  lemma {:induction false} UnitBilinearIgnoresWitness(ts: seq<MulTerm>, base: nat, a: Witness, b: Witness)
    ensures BilinearConstraints(UnitCoefficients, ts, base, a) == BilinearConstraints(UnitCoefficients, ts, base, b)
    decreases |ts|
  {
    if |ts| > 0 {
      UnitBilinearIgnoresWitness(ts[1..], base + 1, a, b);
    }
  }

  /**
    The program compiled with unit coefficients is the reference expansion
    with products counted from the number of referenced identifiers, and a
    witness satisfies it exactly when it records every product and
    satisfies every gate.
   */
  lemma CompiledProgramSound(s: CircuitStructure, w: Witness)
    requires Compile(s).Ok?
    ensures Compile(s).value.r1csConstraints == Shape(UnitCoefficients, s.gates, |ReferencedIds(s)|, map[])
    ensures AllHold(Compile(s).value.r1csConstraints, w)
            <==> GatesRecorded(s.gates, |ReferencedIds(s)|, w) && AllGatesHold(s.gates, w)
  {
    var trivial := MakeTrivialWitness(s).value;
    TrivialWitnessSize(s);
    MakeStepDense(UnitCoefficients, s, trivial);
    UnitShapeIgnoresWitness(s.gates, |ReferencedIds(s)|, MakeStep(s, trivial).value.assignment, map[]);
    ShapeHolds(s.gates, |ReferencedIds(s)|, map[], w);
  }

  /** The witness `compile` expands as written: the placeholder with every product slot zero. */
  function PlaceholderExpansion(s: CircuitStructure): Witness
    requires MakeTrivialWitness(s).Ok? && MakeStepAsWritten(s, MakeTrivialWitness(s).value).Ok?
  {
    MakeStepAsWritten(s, MakeTrivialWitness(s).value).value.assignment
  }

  /**
    The program compiled as written is the reference expansion with
    coefficients read from the all-zero placeholder, so its bilinear
    constraints are `0 * 0 = 0`: a witness satisfies it exactly when it
    satisfies the closing constraints, and, when it records every product,
    exactly when it satisfies every gate.
   */
  lemma CompiledAsWrittenSound(s: CircuitStructure, w: Witness)
    requires CompileAsWritten(s).Ok?
    ensures MakeStepAsWritten(s, MakeTrivialWitness(s).value).Ok?
    ensures AllZero(PlaceholderExpansion(s))
    ensures CompileAsWritten(s).value.r1csConstraints
            == Shape(WitnessValues, s.gates, |ReferencedIds(s)|, PlaceholderExpansion(s))
    ensures AllHold(CompileAsWritten(s).value.r1csConstraints, w) <==> ClosingsHold(s.gates, |ReferencedIds(s)|, w)
    ensures GatesRecorded(s.gates, |ReferencedIds(s)|, w) ==>
            (AllHold(CompileAsWritten(s).value.r1csConstraints, w) <==> AllGatesHold(s.gates, w))
  {
    var trivial := MakeTrivialWitness(s).value;
    var n := |ReferencedIds(s)|;
    TrivialWitnessSize(s);
    MakeStepDense(WitnessValues, s, trivial);
    ExpandGatesOnZeros(s.gates, Expansion(trivial, |trivial|, []));
    ZeroShapeHolds(s.gates, n, PlaceholderExpansion(s), w);
    if GatesRecorded(s.gates, n, w) {
      ClosingsHoldRecorded(s.gates, n, w);
    }
  }

  /** A solved witness with the placeholder's identifiers is dense over them. */
  lemma SolvedDense(s: CircuitStructure, solved: Witness)
    requires MakeTrivialWitness(s).Ok? && solved.Keys == MakeTrivialWitness(s).value.Keys
    ensures |solved| == |ReferencedIds(s)| && DenseKeys(solved, |solved|)
    ensures GatesInScope(s.gates, |solved|)
  {
    var trivial := MakeTrivialWitness(s).value;
    TrivialWitnessSize(s);
    assert |solved| == |solved.Keys| == |trivial.Keys| == |trivial|;
    GatesIdsInScope(s.gates, |solved|);
  }

  /**
    With unit coefficients, a solved witness over the placeholder witness's
    identifiers gives a step whose constraint system is the compiled one,
    and the step's witness satisfies that system exactly when it satisfies
    every gate.
   */
  lemma StepMatchesCompiled(s: CircuitStructure, solved: Witness)
    requires Compile(s).Ok?
    requires MakeTrivialWitness(s).Ok? && solved.Keys == MakeTrivialWitness(s).value.Keys
    ensures MakeStep(s, solved).Ok?
    ensures MakeStep(s, solved).value.program == Compile(s).value
    ensures AllHold(Compile(s).value.r1csConstraints, MakeStep(s, solved).value.assignment)
            <==> AllGatesHold(s.gates, MakeStep(s, solved).value.assignment)
  {
    var trivial := MakeTrivialWitness(s).value;
    var n := |ReferencedIds(s)|;
    SolvedDense(s, solved);
    MakeStepDense(UnitCoefficients, s, trivial);
    MakeStepDense(UnitCoefficients, s, solved);
    UnitShapeIgnoresWitness(s.gates, n, MakeStep(s, trivial).value.assignment, MakeStep(s, solved).value.assignment);
    ShapeHolds(s.gates, n, MakeStep(s, solved).value.assignment, MakeStep(s, solved).value.assignment);
  }

  /**
    As written, the step built from a solved witness over the placeholder's
    identifiers has the compiled program's witness count, and its
    constraints are the reference expansion with coefficients read from its
    own witness rather than from the zero placeholder.
   */
  lemma AsWrittenStepShape(s: CircuitStructure, solved: Witness)
    requires CompileAsWritten(s).Ok?
    requires MakeTrivialWitness(s).Ok? && solved.Keys == MakeTrivialWitness(s).value.Keys
    ensures MakeStepAsWritten(s, solved).Ok?
    ensures MakeStepAsWritten(s, solved).value.program.numWitness == CompileAsWritten(s).value.numWitness
    ensures MakeStepAsWritten(s, solved).value.program.r1csConstraints
            == Shape(WitnessValues, s.gates, |ReferencedIds(s)|, MakeStepAsWritten(s, solved).value.assignment)
  {
    SolvedDense(s, solved);
    TrivialWitnessSize(s);
    MakeStepDense(WitnessValues, s, solved);
    MakeStepDense(WitnessValues, s, MakeTrivialWitness(s).value);
  }

  /**
    As written, the witness of the step built from a solved witness over the
    placeholder's identifiers satisfies the compiled program exactly when it
    satisfies every gate.
   */
  lemma AsWrittenStepMeetsCompiled(s: CircuitStructure, solved: Witness)
    requires CompileAsWritten(s).Ok?
    requires MakeTrivialWitness(s).Ok? && solved.Keys == MakeTrivialWitness(s).value.Keys
    ensures MakeStepAsWritten(s, solved).Ok?
    ensures AllHold(CompileAsWritten(s).value.r1csConstraints, MakeStepAsWritten(s, solved).value.assignment)
            <==> AllGatesHold(s.gates, MakeStepAsWritten(s, solved).value.assignment)
  {
    SolvedDense(s, solved);
    MakeStepDense(WitnessValues, s, solved);
    CompiledAsWrittenSound(s, MakeStepAsWritten(s, solved).value.assignment);
  }

  // Both coefficient modes compute the same witness.

  lemma {:induction false} ExpandMulTermsModesAgree(terms: seq<MulTerm>, e1: Expansion, e2: Expansion, lc: LC)
    requires e1.assignment == e2.assignment && e1.numWitness == e2.numWitness
    ensures var r1 := ExpandMulTerms(WitnessValues, terms, e1, lc);
            var r2 := ExpandMulTerms(UnitCoefficients, terms, e2, lc);
            && r1.Ok? == r2.Ok?
            && (r1.Ok? ==> r1.value.0.assignment == r2.value.0.assignment
                           && r1.value.0.numWitness == r2.value.0.numWitness && r1.value.1 == r2.value.1)
            && (!r1.Ok? ==> r1 == r2)
    decreases |terms|
  {
    if |terms| > 0 {
      var t := terms[0];
      if t.left in e1.assignment && t.right in e1.assignment {
        var v := Mul(e1.assignment[t.left], e1.assignment[t.right]);
        var p := e1.numWitness;
        ExpandMulTermsModesAgree(terms[1..],
          Expansion(e1.assignment[p := v], p + 1, e1.constraints + [R1CSConstraint(
            [LcTerm(e1.assignment[t.left], t.left)], [LcTerm(e1.assignment[t.right], t.right)], [LcTerm(v, p)])]),
          Expansion(e2.assignment[p := v], p + 1, e2.constraints + [R1CSConstraint(
            [LcTerm(One, t.left)], [LcTerm(One, t.right)], [LcTerm(One, p)])]),
          lc + [LcTerm(t.coeff, p)]);
      }
    }
  }

  lemma {:induction false} ExpandGatesModesAgree(gates: seq<AcirArithGate>, e1: Expansion, e2: Expansion)
    requires e1.assignment == e2.assignment && e1.numWitness == e2.numWitness
    ensures var r1 := ExpandGates(WitnessValues, gates, e1);
            var r2 := ExpandGates(UnitCoefficients, gates, e2);
            && r1.Ok? == r2.Ok?
            && (r1.Ok? ==> r1.value.assignment == r2.value.assignment && r1.value.numWitness == r2.value.numWitness)
            && (!r1.Ok? ==> r1 == r2)
    decreases |gates|
  {
    if |gates| > 0 {
      ExpandMulTermsModesAgree(gates[0].mulTerms, e1, e2, []);
      var g1 := ExpandGate(WitnessValues, gates[0], e1);
      var g2 := ExpandGate(UnitCoefficients, gates[0], e2);
      if g1.Ok? {
        ExpandGatesModesAgree(gates[1..], g1.value, g2.value);
      }
    }
  }

  /** The coefficient mode changes only the constraints: success, failure, witness and witness count agree. */
  lemma MakeStepModesAgree(s: CircuitStructure, solved: Witness)
    ensures MakeStepAsWritten(s, solved).Ok? <==> MakeStep(s, solved).Ok?
    ensures MakeStep(s, solved).Ok? ==>
      && MakeStepAsWritten(s, solved).value.assignment == MakeStep(s, solved).value.assignment
      && MakeStepAsWritten(s, solved).value.program.numWitness == MakeStep(s, solved).value.program.numWitness
    ensures !MakeStep(s, solved).Ok? ==> MakeStepAsWritten(s, solved) == MakeStep(s, solved)
  {
    ExpandGatesModesAgree(s.gates, Expansion(solved, |solved|, []), Expansion(solved, |solved|, []));
  }

  // The coefficients as written.

  predicate AllZero(w: Witness) {
    forall k :: k in w ==> w[k] == Zero
  }

  /** A one-term-per-side constraint whose three coefficients are zero: `0 * 0 = 0`. */
  predicate ZeroBilinear(c: R1CSConstraint) {
    && |c.a| == 1 && |c.b| == 1 && |c.c| == 1
    && c.a[0].LcTerm? && c.a[0].coefficient == Zero
    && c.b[0].LcTerm? && c.b[0].coefficient == Zero
    && c.c[0].LcTerm? && c.c[0].coefficient == Zero
  }

  /** Every constraint with a nonempty `c` side is `0 * 0 = 0`. */
  predicate BilinearVacuous(cs: seq<R1CSConstraint>) {
    forall i :: 0 <= i < |cs| ==> cs[i].c == [] || ZeroBilinear(cs[i])
  }

  lemma ZeroBilinearHolds(c: R1CSConstraint, w: Witness)
    requires ZeroBilinear(c)
    ensures Holds(c, w)
  {
    SingleTerm(Zero, c.a[0].varId, w);
    SingleTerm(Zero, c.b[0].varId, w);
    SingleTerm(Zero, c.c[0].varId, w);
    assert c.a == [LcTerm(Zero, c.a[0].varId)];
    assert c.b == [LcTerm(Zero, c.b[0].varId)];
    assert c.c == [LcTerm(Zero, c.c[0].varId)];
    MulZero(Value(w, c.a[0].varId));
    MulZero(Value(w, c.b[0].varId));
    MulZero(Value(w, c.c[0].varId));
    MulZero(Zero);
  }

  lemma {:induction false} ExpandMulTermsOnZeros(terms: seq<MulTerm>, e: Expansion, lc: LC)
    requires AllZero(e.assignment) && BilinearVacuous(e.constraints)
    ensures var r := ExpandMulTerms(WitnessValues, terms, e, lc);
            r.Ok? ==> AllZero(r.value.0.assignment) && BilinearVacuous(r.value.0.constraints)
    decreases |terms|
  {
    if |terms| > 0 {
      var t := terms[0];
      if t.left in e.assignment && t.right in e.assignment {
        var p := e.numWitness;
        MulZero(Zero);
        var c := R1CSConstraint([LcTerm(Zero, t.left)], [LcTerm(Zero, t.right)], [LcTerm(Zero, p)]);
        assert ZeroBilinear(c);
        var cs := e.constraints + [c];
        assert BilinearVacuous(cs) by {
          forall i | 0 <= i < |cs| ensures cs[i].c == [] || ZeroBilinear(cs[i]) {
            if i < |e.constraints| {
              assert cs[i] == e.constraints[i];
            }
          }
        }
        ExpandMulTermsOnZeros(terms[1..], Expansion(e.assignment[p := Zero], p + 1, cs), lc + [LcTerm(t.coeff, p)]);
      }
    }
  }

  lemma {:induction false} ExpandGatesOnZeros(gates: seq<AcirArithGate>, e: Expansion)
    requires AllZero(e.assignment) && BilinearVacuous(e.constraints)
    ensures var r := ExpandGates(WitnessValues, gates, e);
            r.Ok? ==> AllZero(r.value.assignment) && BilinearVacuous(r.value.constraints)
    decreases |gates|
  {
    if |gates| > 0 {
      ExpandMulTermsOnZeros(gates[0].mulTerms, e, []);
      var r0 := ExpandGate(WitnessValues, gates[0], e);
      if r0.Ok? {
        var m := ExpandMulTerms(WitnessValues, gates[0].mulTerms, e, []).value;
        var closing := R1CSConstraint(m.1 + AddTermsLC(gates[0].addTerms) + [Const(gates[0].constantTerm)], [Const(One)], []);
        var cs := m.0.constraints + [closing];
        assert r0.value.constraints == cs;
        assert BilinearVacuous(cs) by {
          forall i | 0 <= i < |cs| ensures cs[i].c == [] || ZeroBilinear(cs[i]) {
            if i < |m.0.constraints| {
              assert cs[i] == m.0.constraints[i];
            }
          }
        }
        ExpandGatesOnZeros(gates[1..], r0.value);
      }
    }
  }

  /**
    As written, `compile` runs the expansion on the all-zero placeholder,
    so every bilinear constraint of the compiled program is `0 * 0 = 0`
    and holds under every witness: only the closing constraints constrain.
   */
  lemma AsWrittenCompiledBilinearVacuous(s: CircuitStructure, w: Witness)
    requires CompileAsWritten(s).Ok?
    ensures BilinearVacuous(CompileAsWritten(s).value.r1csConstraints)
    ensures forall i :: 0 <= i < |CompileAsWritten(s).value.r1csConstraints| &&
                        CompileAsWritten(s).value.r1csConstraints[i].c != [] ==>
                        Holds(CompileAsWritten(s).value.r1csConstraints[i], w)
  {
    ExpandGatesOnZeros(s.gates, Expansion(MakeTrivialWitness(s).value, |MakeTrivialWitness(s).value|, []));
    var cs := CompileAsWritten(s).value.r1csConstraints;
    forall i | 0 <= i < |cs| && cs[i].c != [] ensures Holds(cs[i], w) {
      ZeroBilinearHolds(cs[i], w);
    }
  }

  /** One gate, `w0·w0 = 0`, and no IO: identifier 0 is the only referenced one. */
  const SquareGate: AcirArithGate := AcirArithGate([MulTerm(One, 0, 0)], [], Zero)

  const SquareCircuit: CircuitStructure :=
    CircuitStructure([SquareGate], IVCProgram(IOProfile({}, {}, {}, {}), 0, [], "", ""))

  /** `w0 = 1`, product slot `w1 = 0`: violates the gate (1·1 ≠ 0). */
  const SquareCounterWitness: Witness := map[0 := One, 1 := Zero]

  lemma SquareCircuitIds()
    ensures ReferencedIds(SquareCircuit) == {0}
  {
    assert GateIds(SquareGate) == {0} by {
      assert SquareGate.mulTerms[0].left == 0;
    }
    assert GatesIds([SquareGate]) == {0} by {
      assert [SquareGate][1..] == [];
    }
  }

  lemma SquareTrivialWitness()
    ensures MakeTrivialWitness(SquareCircuit) == Ok(map[0 := Zero])
  {
    SquareCircuitIds();
    assert {0} == IdRange(1);
    var r := MakeTrivialWitness(SquareCircuit);
    assert r.value.Keys == {0} && r.value[0] == Zero;
    assert r.value == map[0 := Zero];
  }

  /** The square gate expanded as written on the placeholder: `(0·w0) * (0·w0) = (0·w1)`, then `(1·w1 + 0) * 1 = 0`. */
  lemma SquareAsWrittenConstraints()
    ensures CompileAsWritten(SquareCircuit).Ok?
    ensures CompileAsWritten(SquareCircuit).value.r1csConstraints == [
      R1CSConstraint([LcTerm(Zero, 0)], [LcTerm(Zero, 0)], [LcTerm(Zero, 1)]),
      R1CSConstraint([LcTerm(One, 1), Const(Zero)], [Const(One)], [])]
  {
    SquareTrivialWitness();
    var e := Expansion(map[0 := Zero], 1, []);
    MulZero(Zero);
    var bilinear := R1CSConstraint([LcTerm(Zero, 0)], [LcTerm(Zero, 0)], [LcTerm(Zero, 1)]);
    var e1 := Expansion(map[0 := Zero][1 := Zero], 2, [bilinear]);
    assert ExpandMulTerms(WitnessValues, [], e1, [LcTerm(One, 1)]) == Ok((e1, [LcTerm(One, 1)]));
    assert SquareGate.mulTerms[1..] == [];
    assert [] + [bilinear] == [bilinear];
    assert [] + [LcTerm(One, 1)] == [LcTerm(One, 1)];
    assert ExpandMulTerms(WitnessValues, SquareGate.mulTerms, e, []) == Ok((e1, [LcTerm(One, 1)]));
    assert AddTermsLC([]) == [];
    var closing := R1CSConstraint([LcTerm(One, 1), Const(Zero)], [Const(One)], []);
    assert [LcTerm(One, 1)] + AddTermsLC(SquareGate.addTerms) + [Const(SquareGate.constantTerm)] == closing.a;
    assert [bilinear] + [closing] == [bilinear, closing];
    assert ExpandGate(WitnessValues, SquareGate, e) == Ok(e1.(constraints := [bilinear, closing]));
    assert ExpandGates(WitnessValues, [SquareGate][1..], e1.(constraints := [bilinear, closing]))
        == Ok(e1.(constraints := [bilinear, closing]));
  }

  lemma SquareClosingHolds()
    ensures Holds(R1CSConstraint([LcTerm(One, 1), Const(Zero)], [Const(One)], []), SquareCounterWitness)
  {
    var c := R1CSConstraint([LcTerm(One, 1), Const(Zero)], [Const(One)], []);
    EvalLCAppend([LcTerm(One, 1)], [Const(Zero)], SquareCounterWitness);
    assert c.a == [LcTerm(One, 1)] + [Const(Zero)];
    UnitTermValue(1, SquareCounterWitness);
    ConstValue(Zero, SquareCounterWitness);
    AddZero(Zero);
    LinearHolds(c, SquareCounterWitness);
  }

  lemma SquareGateViolated()
    ensures !GateHolds(SquareGate, SquareCounterWitness)
  {
    var w := SquareCounterWitness;
    MulOne(One);
    AddZero(One);
    assert MulTermsValue(SquareGate.mulTerms, w) == One;
    assert AddTermsValue(SquareGate.addTerms, w) == Zero;
  }

  lemma AllHoldPair(c0: R1CSConstraint, c1: R1CSConstraint, w: Witness)
    requires Holds(c0, w) && Holds(c1, w)
    ensures AllHold([c0, c1], w)
  {
  }

  /** The as-written compiled system of the square circuit holds under the violating witness. */
  lemma SquareAsWrittenHolds()
    ensures CompileAsWritten(SquareCircuit).Ok?
    ensures AllHold(CompileAsWritten(SquareCircuit).value.r1csConstraints, SquareCounterWitness)
  {
    var bilinear := R1CSConstraint([LcTerm(Zero, 0)], [LcTerm(Zero, 0)], [LcTerm(Zero, 1)]);
    var closing := R1CSConstraint([LcTerm(One, 1), Const(Zero)], [Const(One)], []);
    SquareAsWrittenConstraints();
    ZeroBilinearHolds(bilinear, SquareCounterWitness);
    SquareClosingHolds();
    AllHoldPair(bilinear, closing, SquareCounterWitness);
  }

  /** The system compiled with unit coefficients rejects the violating witness. */
  lemma SquareCorrectedRejects()
    ensures Compile(SquareCircuit).Ok?
    ensures !AllHold(Compile(SquareCircuit).value.r1csConstraints, SquareCounterWitness)
  {
    var w := SquareCounterWitness;
    SquareCircuitIds();
    assert {0} == IdRange(1);
    CompileSucceedsIffDense(UnitCoefficients, SquareCircuit);
    CompiledProgramSound(SquareCircuit, w);
    SquareGateViolated();
    assert [SquareGate][0] == SquareGate;
  }

  /**
    The discrepancy, on one input: the program compiled as written accepts
    a witness that violates the circuit's only gate, while the program
    compiled with unit coefficients rejects it.
   */
  lemma AsWrittenAcceptsViolatingWitness()
    ensures CompileAsWritten(SquareCircuit).Ok? && Compile(SquareCircuit).Ok?
    ensures AllHold(CompileAsWritten(SquareCircuit).value.r1csConstraints, SquareCounterWitness)
    ensures !GateHolds(SquareGate, SquareCounterWitness)
    ensures !AllHold(Compile(SquareCircuit).value.r1csConstraints, SquareCounterWitness)
  {
    SquareAsWrittenHolds();
    SquareGateViolated();
    SquareCorrectedRejects();
  }
}
