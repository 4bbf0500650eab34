# noir-ivc core in Dafny

A model of the core of `noir-ivc`, the bridge that turns a compiled Noir
circuit into an incrementally verifiable computation (IVC) program:

- **Field bridge** (`field.dfy`). Conversions between the solver's encoding of
  the BN254 scalar field (arkworks `Fr`) and the prover's (halo2 `Fr`). Both
  go through text: decimal one way, debug hexadecimal then decimal the other.
  Each is guarded by the type-pair assertion.
- **Gates** (`gate.dfy`). The arithmetic gate (multiplication terms, linear
  terms, constant) and its conversion to and from an `AssertZero` opcode.
- **Circuit structure** (`program.dfy`, `program_proofs.dfy`):
  - the IO profile drawn from a circuit (`extract_io`);
  - the structure built from a circuit;
  - the all-zero placeholder witness and the input check;
  - `make_step`, which expands each gate into rank-1 constraints with one
    auxiliary product witness per multiplication term;
  - `compile`.
- **Loading** (`load.dfy`, `lib.dfy`). The validator `check_supported` and the
  part of `load_circuit` after parsing: the pinned compiler version and the
  single function.
- **Iteration** (`execute.dfy`, `lib.dfy`):
  - `UnexecutedCircuit::execute`: input check, merge, conversion, solving,
    conversion back, the four role subsets, `make_step`, and the next state;
  - `execute_steps`, which threads that state through a sequence of private
    inputs.

Supporting modules:

- `errors.dfy`: the error enums. An abort (`assert!`, `unwrap`, `expect`,
  `panic!`) is the `Panic` variant of `Result`, and Rust's `?` is `:-`.
- `ivc.dfy`: the `ivc_program` types and R1CS satisfaction.
- `seqs.dfy`, `idsets.dfy`, `digits.dfy`: sequences, identifier sets and
  digit text.

Foreign code enters as parameters. The ACVM solver is a function value.
The `ivc_program` helpers are the record `IvcLib`:

- `extract_subset`;
- `make_next_input_witness`;
- `check_structure`;
- witness to `IO`;
- the curve name;
- the program version tag.

The type check behind `assert_types` is a pair of booleans, `FieldTypes`.
Ordered maps are traversed in ascending key order.

The main results:

- **Bridge.** Both directions convert value-exactly, and the round trips are
  the identity (`Field.BridgeRoundTrip`).
- **Gates.** Gate to opcode to gate is the identity, and so is the reverse
  (`Gate.GateRoundTrip`, `Gate.OpcodeRoundTrip`).
- **Validation.** `check_supported` accepts exactly the programs with:
  - one function;
  - no unconstrained function;
  - only assert-zero opcodes;
  - a profile that `check_structure` accepts.

  It reports the first check that fails.
- **`make_step`**, with the coefficients as written or with unit
  coefficients, succeeds exactly when every operand is allocated before its
  product (on a witness over `0..n-1`). On a solved witness over `0..n-1`,
  its constraint system holds under the witness it builds exactly when that
  witness satisfies every gate (`ProgramProofs.StepSatisfiedIffGatesHold`).
- **`compile`** succeeds exactly when the referenced identifiers are
  `0..n-1`. As written, a witness satisfies the compiled system exactly when
  it satisfies the closing constraints, and, if it records every product,
  exactly when it satisfies every gate (`ProgramProofs.CompiledAsWrittenSound`).
  With unit coefficients (the correction under "Findings"), a witness
  satisfies it exactly when it records every product and satisfies every
  gate (`ProgramProofs.CompiledProgramSound`).
- **Iteration.**
  - `execute_steps` numbers its successes consecutively.
  - It feeds each public output forward as the next public input.
  - An `Err` leaves the state unchanged.
  - An abort ends the sequence.

## Model

| member | source | states |
|---|---|---|
| Field.ArkToFf | src/field.rs:20-32 | With the BN254 type pair, every element converts to the same residue; with any other pair the conversion aborts |
| Field.FfToArk | src/field.rs:34-50 | With the BN254 type pair, every element converts to the same residue; with any other pair the conversion aborts |
| Field.DecimalTextReadsBack | src/field.rs:29-31 | The decimal text of a canonical value parses back to that value, so the `FieldConversionError` branch is never taken |
| Field.FieldFitsDebugWidth | src/field.rs:41-45 | Every field element fits in the 64 hexadecimal digits of its debug text |
| Digits.HexRoundTrip | src/field.rs:41-45 | Fixed-width hexadecimal text of a value that fits reads back as the value |
| Digits.DecimalRoundTrip | src/field.rs:29-31 | The decimal text of a number reads back as that number |
| Field.BridgeRoundTrip | src/field.rs:20-50 | Converting to the solver's encoding and back, or the other way round, is the identity |
| Field.ArkToFfSamples | src/field.rs:56-72 | The values the crate's unit test checks from the solver's encoding (0, 1, 16, -1) convert to 0, 1, 1 doubled four times, and 0 - 1 |
| Field.FfToArkSamples | src/field.rs:74-89 | The values the crate's unit test checks into the solver's encoding (0, 1, 16, 0 - 1) convert to 0, 1, 16 and -1 |
| Gate.GateToOpcode | src/gate.rs:17-50 | A gate becomes an `AssertZero` whose terms carry the same coefficients and identifiers in the same order; a type mismatch aborts |
| Gate.OpcodeToGate | src/gate.rs:52-92 | An `AssertZero` becomes the gate with the same terms in the same order; any other opcode aborts ("Unsupported opcode") |
| Gate.GateRoundTrip | src/gate.rs:17-92 | Gate to opcode to gate returns the original gate, term for term |
| Gate.OpcodeRoundTrip | src/gate.rs:17-92 | Assert-zero opcode to gate to opcode returns the original opcode, term for term |
| Program.ExtractIO | src/program.rs:23-69 | Aborts exactly when some private output is not a return value. Otherwise: public outputs = return values minus private outputs; public inputs = declared public inputs minus public outputs; private inputs = arguments minus both |
| Program.OpcodesToGates | src/program.rs:75-80 | Succeeds exactly when every opcode is an assert-zero and the type pair matches (or there are no opcodes); gate `i` is converted from opcode `i` |
| Program.FromAcvmCircuit | src/program.rs:71-96 | Gates follow opcode order. The IO profile has no private outputs and its four roles are pairwise disjoint. The witness count is zero and there are no constraints. Curve and version come from the library |
| Program.MakeTrivialWitness | src/program.rs:99-124 | Succeeds exactly when the referenced identifiers are `0..n-1` with `n >= 1`, mapping each of them to zero. Aborts on an empty set and on a gap |
| Program.MakeStepWith | src/program.rs:144-227 | Never returns a recoverable error. On success: witness count = solved witnesses + multiplication terms; one constraint per term plus one per gate; IO, curve and version copied; solved identifiers kept |
| Program.CompileWith | src/program.rs:138-142 | Compilation fails only through the placeholder witness. The compiled program counts the referenced identifiers plus the products as witnesses and keeps the IO profile |
| ProgramProofs.ExpandGatesDense | src/program.rs:153-213 | Over a witness on `0..n-1`, the expansion succeeds exactly when each operand precedes its product. The products get the next identifiers and the solved values are kept |
| ProgramProofs.MakeStepDense | src/program.rs:144-227 | In either coefficient mode, on a witness over `0..n-1`, `make_step` succeeds exactly when operands are in scope. Its constraints are the reference expansion `Shape`, the bilinear coefficients being the returned witness's values as written and ones as intended, and it records every product |
| ProgramProofs.MakeStepSlots | src/program.rs:144-168 | In either mode, on any solved witness, the products take the identifiers from the solved count upward: the step's witness has exactly the solved identifiers and those, and keeps every solved value outside that range; values inside it are not promised |
| ProgramProofs.ProductOverwritesSolved | src/program.rs:150-168 | On the gate `1·w1·w1` with solved witness `w1 = 5, w2 = 7`, the product takes identifier 2 and replaces `w2`: the witness is `w1 = 5, w2 = 25`, with a count of 3 but two entries |
| ProgramProofs.ProductOverwritesOperand | src/program.rs:150-168 | With unit coefficients, on the gate `1·w3·w3 + 1·w1·w1 - 20` and solved witness `w1 = 2, w3 = 3`, the second product replaces `w3` after the first product read it: the witness `w1 = 2, w2 = 9, w3 = 4` satisfies the gate but not the step's constraint `w3·w3 = w2` |
| ProgramProofs.ShapeHolds | src/program.rs:153-213 | With unit coefficients, the reference expansion holds under a witness exactly when the witness records every product and satisfies every gate |
| ProgramProofs.ShapeHoldsRecorded | src/program.rs:153-213 | In either mode, a witness that records every product satisfies the expansion whose coefficients it supplies exactly when it satisfies every gate |
| ProgramProofs.ZeroShapeHolds | src/program.rs:170-212 | As written with coefficients from an all-zero witness, the expansion holds under a witness exactly when its closing constraints do |
| ProgramProofs.ClosingsHoldRecorded | src/program.rs:194-212 | Under a witness that records every product, the closing constraints hold exactly when every gate does |
| ProgramProofs.StepSatisfiedIffGatesHold | src/program.rs:144-227 | In either coefficient mode, on a solved witness over `0..n-1`, the step's witness satisfies the step's own constraints exactly when it satisfies every gate of the circuit |
| ProgramProofs.CompileSucceedsIffDense | src/program.rs:138-142 | In either mode, `compile` succeeds exactly when the referenced identifiers are `0..n-1` with `n >= 1`; otherwise it fails as the placeholder witness does |
| ProgramProofs.CompiledProgramSound | src/program.rs:138-142 | Compiled with unit coefficients, the constraints are the reference expansion; a witness satisfies them exactly when it records every product and satisfies every gate |
| ProgramProofs.CompiledAsWrittenSound | src/program.rs:138-142 | Compiled as written, the constraints are the reference expansion with coefficients from the all-zero placeholder; a witness satisfies them exactly when it satisfies the closing constraints, and, if it records every product, exactly when every gate holds |
| ProgramProofs.StepMatchesCompiled | src/tests.rs:103-132 | With unit coefficients, a solved witness over the placeholder's identifiers gives a step whose program is the compiled program; its witness satisfies that program exactly when every gate holds |
| ProgramProofs.AsWrittenStepShape | src/tests.rs:103-132 | As written, a solved witness over the placeholder's identifiers gives a step with the compiled witness count whose constraints are the same expansion, its coefficients read from its own witness rather than the placeholder |
| ProgramProofs.AsWrittenStepMeetsCompiled | src/tests.rs:103-132 | As written, the witness of that step satisfies the compiled program exactly when it satisfies every gate |
| ProgramProofs.MakeStepModesAgree | src/program.rs:156-192 | The coefficient choice in the bilinear constraints changes neither success nor the computed witness nor its count |
| ProgramProofs.AsWrittenBilinearHolds | src/program.rs:161-186 | The bilinear constraint as written, its coefficients the operand and product values of a witness, holds under that witness once the product slot holds the product; these are the constraints `MakeStepDense` shows `make_step` emitting |
| ProgramProofs.AsWrittenCompiledBilinearVacuous | src/program.rs:170-186 | As written, every bilinear constraint compiled from the all-zero witness has zero coefficients and holds under any witness |
| ProgramProofs.AsWrittenAcceptsViolatingWitness | src/program.rs:170-186 | For the one-gate circuit `w0*w0 = 0`, the as-written compiled system accepts `w0 = 1, w1 = 0`, which violates the gate; the corrected one rejects it |
| Load.FirstOtherOpcode | src/load.rs:95-102 | Finds the first opcode that is not an assert-zero, or reports that there is none |
| Load.CheckSupported | src/load.rs:74-107 | Checks in order: one function, no unconstrained function, every opcode an assert-zero (the first other one reported), then the structure check on the private-output-free profile. Passes exactly when all hold |
| Iteration.New | src/execute.rs:26-36 | The new state holds the given number, public input and structure |
| Iteration.Merge | src/execute.rs:49-50 | The merged assignment covers both inputs' identifiers, and a private value overrides a public one |
| Iteration.WitnessToArk | src/execute.rs:52-63 | With matching types, every value is carried over unchanged, identifier by identifier; otherwise a non-empty input aborts |
| Iteration.WitnessFromArk | src/execute.rs:84-94 | With matching types, the solved witness is carried back unchanged; otherwise a non-empty witness aborts |
| Iteration.GatesToOpcodes | src/execute.rs:68-74 | The gates become their opcodes in order |
| Iteration.Subset | src/execute.rs:96-102 | `extract_subset` succeeds or fails as the library says; its error becomes `IVCProgramError` |
| Iteration.Execute | src/execute.rs:40-123 | An input failing `is_valid_input` aborts. A success reports the current number, the next state has the number plus one and the same structure, and the next public input is built from the public output |
| Iteration.ExecuteUnsolved | src/execute.rs:76-82 | Unfolds `Execute` for the lemmas about executed witnesses: a solver status other than `Solved` gives `ACVMSolveError` with the status text |
| Iteration.ExecuteSolved | src/execute.rs:84-122 | Unfolds `Execute` for the lemmas about executed witnesses: after solving, the iteration succeeds exactly when the four subsets and `make_step` succeed. It reports those subsets and returns `make_step`'s witness |
| Iteration.ExecuteReportsRestrictions | src/execute.rs:96-110 | With a lawful `extract_subset`, each reported role is the solved witness restricted to that role's identifiers |
| Functions.LoadCircuit | src/lib.rs:63-80 | Aborts on any compiler version but the pinned one. A failed validation becomes `UnsupportedProgram`. Succeeds exactly when both pass, returning the single, all assert-zero function |
| Functions.CompileCircuit | src/lib.rs:106-112 | In either coefficient mode (the crate's is the as-written one), succeeds exactly when the structure can be built and compiled in that mode, returning both; a compile failure is passed through |
| Functions.Project | src/lib.rs:123-129 | An item is the iteration's result with the next state reduced to its public input as `IO`; errors and aborts pass through |
| Functions.ExecuteSteps | src/lib.rs:114-131 | From the state `new(start_step_num, first_public_input, circuit)`: at most one item per private input; only the last item can be an abort, and a shorter sequence ends with one; item `i` is `execute` of the `i`-th private input on the state the earlier items leave |
| Functions.Drive | src/lib.rs:114-131 | At most one item per private input; only the last item can be an abort, and a shorter sequence ends with one |
| Functions.DriveItems | src/lib.rs:120-130 | Item `i` is the `i`-th private input run on the state left by the earlier items |
| Functions.DriveLength | src/lib.rs:122-130 | Without an abort there is exactly one item per private input |
| Functions.ExecuteNumbered | src/execute.rs:104-122 | An iteration reports the current number, advances it by one and keeps the structure |
| Functions.StateAtNumbering | src/lib.rs:120-127 | The state before item `i` has the start number plus the number of earlier successes, and the start structure |
| Functions.ExecuteStepsNumbering | src/lib.rs:114-131 | The successes of `execute_steps` are numbered consecutively from the start number |
| Functions.ExecuteStepsNextInput | src/lib.rs:123-129 | Each success carries the next public input, built from its own public output, as `IO` |
| Functions.ErrKeepsState | src/lib.rs:122-127 | After an `Err` item the next item runs on the same state |
| Functions.LoadedCircuitCompiles | src/lib.rs:63-112 | A loaded circuit always converts. In either mode it compiles exactly when its identifiers are `0..n-1`; a witness recording every product then satisfies the compiled constraints exactly when every opcode's equation holds. With unit coefficients any witness satisfies them exactly when it records the products and every opcode holds; as written, exactly when the closing constraints hold |
| Functions.ExecutedWitnessMeetsCompiled | src/tests.rs:103-132 | In either coefficient mode, an iteration solved over the placeholder's identifiers returns a witness that satisfies the compiled program exactly when it satisfies every gate |

Behaviours of the code that the model keeps:

- **`execute_steps`.** An `Err` from one iteration is yielded and the
  iterator goes on with the unchanged state. It does not halt. Only an
  abort ends the sequence (`Functions.Drive`, `Functions.ErrKeepsState`).
- **`extract_io`.** With a non-empty private-output set, the roles need not
  be disjoint: a private output can also be a public input. The crate only
  calls it with no private outputs, and then all four roles are disjoint
  (`Program.FromAcvmCircuit`).
- **`is_valid_input`.** It accepts when the public keys match OR the
  private keys match.
- **Product identifiers.** `make_step` numbers the products from the count
  of solved entries, whatever identifiers those entries have. On a solved
  witness whose identifiers are not `0..n-1`, a product can replace a
  solved value, and the witness count then exceeds the number of entries
  (`ProgramProofs.MakeStepSlots`, `ProgramProofs.ProductOverwritesSolved`).
  `execute` can reach this: `is_valid_input` accepts once the public keys
  match, and the merge keeps any extra private identifier. The results
  about the step's constraints assume identifiers `0..n-1`. Without that,
  a later product can replace an operand an earlier one read, and the
  step's witness then satisfies every gate but fails the step's own
  constraints (`ProgramProofs.ProductOverwritesOperand`).
- **Merging the inputs.** It does not reject shared identifiers: the
  private value wins.

## Findings

| source | as written | input that shows it | evidently intended | confidence | as-written member | corrected member |
|---|---|---|---|---|---|---|
| src/program.rs:170-186 | The bilinear constraint of each multiplication term is `(l_val·l)(r_val·r) = (p_val·p)`: the operand and product values are the coefficients. `compile` runs `make_step` on the all-zero witness, so every compiled product constraint is `0 = 0` and the product witnesses are unconstrained | The circuit with the single gate `w0·w0 = 0`, under the witness `w0 = 1, w1 = 0` (`w1` is the product). The compiled system holds, yet the gate is violated | Unit coefficients, `(1·l)(1·r) = (1·p)`, so that the compiled system holds exactly when every product is recorded and every gate holds | not executed | ProgramProofs.AsWrittenAcceptsViolatingWitness | ProgramProofs.CompiledProgramSound |

`Program.MakeStepAsWritten` and `Program.CompileAsWritten` keep the code as
written (`CoefficientMode.WitnessValues`). In that mode `make_step` emits
the reference expansion with coefficients read from the witness it returns
(`ProgramProofs.MakeStepDense`). Each such bilinear constraint holds under
that witness (`ProgramProofs.AsWrittenBilinearHolds`), so a single step
satisfies its own constraints exactly when its gates hold, and the flaw
shows only in the compiled program. There the coefficients come from the
all-zero placeholder, so the bilinear constraints hold under every witness
(`ProgramProofs.AsWrittenCompiledBilinearVacuous`) and only the closing
constraints constrain (`ProgramProofs.CompiledAsWrittenSound`).
`Program.MakeStep` and `Program.Compile` use unit coefficients.
`Iteration.Execute` keeps only the step's witness, which is the same in
both modes (`ProgramProofs.MakeStepModesAgree`). The compile and
soundness results are stated for both modes where they hold in both.

## Left out

- **Reading the artifact.** Reading the file, `load_circuit_from_text` and
  the JSON deserialisation (with its `unwrap`) are I/O. `LoadCircuit`
  starts from the parsed program and its version string.
- **`print_metadata` and the `print_info` flag.** Output only.
- **The ACVM solver.** It is a parameter from opcodes and initial witness
  to a status and a final witness. The stubbed black-box solver and the
  empty Brillig inputs are part of it.
- **`ivc_program` functions.** `extract_subset`, `make_next_input_witness`,
  `check_structure`, witness to `IO`, `get_curve_name` and `VERSION_0_1`
  are parameters (`IvcLib`), because their code is not part of this model.
  `Iteration.ExecuteReportsRestrictions` assumes a lawful `extract_subset`
  as a hypothesis.
- **`assert_types`.** The comparison of `type_name` strings is a boolean
  pair saying whether each type is the BN254 scalar field.
- **ark's decimal `from_str`.** Its code is not part of this model.
  `Field.FieldFromDecimal` models the ff decimal constructor and stands for
  both parsers.
- **Field element representation.** Elements are canonical residues; the
  Montgomery form and the `GenericFieldElement` wrapper are not modelled.
- **Debug text.** The `Debug` text of an ACVM status or of an opcode is an
  opaque string the model carries along. The `thiserror` display strings
  are not modelled.
- **Integer widths.**
  - `Program.MakeStepWith`: the witness count and product identifiers are
    unbounded naturals; a `u32` overflow would need more than 2^32
    witnesses.
  - `Iteration.Execute`: the `u64` iteration number is unbounded, so
    overflow is not modelled.
  - `make_trivial_witness`: the `len() as u32 - 1` underflow cannot happen,
    because an empty set aborts first at `max().unwrap()`.
- **Laziness of `execute_steps`.** The lazy iterator is modelled as the
  finite sequence of the items it yields when fully consumed.
- **Serialisation.** `Serialize` and `Deserialize` of the structures are not
  modelled.
- ProgramProofs.MakeStepSlots: says nothing about the values at the
  product identifiers. On a solved witness over `0..n-1` those are fresh and
  the other step lemmas give the products; otherwise a product may replace a
  solved value, as `ProgramProofs.ProductOverwritesSolved` shows.
- ProgramProofs.StepMatchesCompiled: the equality of the step's program with
  the compiled program holds for unit coefficients only. As written, the
  bilinear coefficients differ: the step reads them from its own witness,
  `compile` from the zero placeholder. `ProgramProofs.AsWrittenStepShape`
  and `ProgramProofs.AsWrittenStepMeetsCompiled` state what the two share.
- **Program.IsValidInput.** It has no contract of its own: it is the
  disjunction the code computes, and `Iteration.Execute` states its effect.
