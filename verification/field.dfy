/**
  The prime field shared by both numeric encodings, and the bridge between
  them. Encoding A (ark `Fp`, wrapped as the solver's field element) and
  encoding B (the halo2 `bn256::Fr` the rest of the system uses) both hold
  a residue below P; the bridge moves a value across by special-casing
  zero and otherwise writing it as digit text and reading the text back.
  Both directions first check that the type pair is the BN254 scalar field
  in both libraries and abort otherwise.
 */
module Field {
  import opened Errors
  import opened Digits

  /** The order of the BN254 scalar field (its primality is never used here). */
  const P: nat := 0x30644e72e131a029b85045b68181585d2833e84879b9709143e1f593f0000001

  /** A field element: its canonical residue. */
  type Fe = x: nat | x < P

  const Zero: Fe := 0
  const One: Fe := 1

  function Add(a: Fe, b: Fe): Fe {
    (a + b) % P
  }

  function Sub(a: Fe, b: Fe): Fe {
    (a - b) % P
  }

  function Double(a: Fe): Fe {
    Add(a, a)
  }

  function Mul(a: Fe, b: Fe): Fe {
    (a * b) % P
  }

  // Field laws the expansion proofs rest on.

  lemma AddZero(a: Fe)
    ensures Add(a, Zero) == a && Add(Zero, a) == a
  {
    ResidueBelowP(a);
  }

  lemma MulOne(a: Fe)
    ensures Mul(a, One) == a && Mul(One, a) == a
  {
    ResidueBelowP(a);
  }

  lemma MulZero(a: Fe)
    ensures Mul(a, Zero) == Zero && Mul(Zero, a) == Zero
  {
  }

  /** A sum of two elements reduces by subtracting P at most once. */
  lemma AddReduces(a: Fe, b: Fe)
    ensures Add(a, b) == if a + b < P then a + b else a + b - P
  {
  }

  lemma AddAssoc(a: Fe, b: Fe, c: Fe)
    ensures Add(Add(a, b), c) == Add(a, Add(b, c))
  {
    AddReduces(a, b);
    AddReduces(b, c);
    AddReduces(Add(a, b), c);
    AddReduces(a, Add(b, c));
  }

  lemma ModOfMultiplePlus(k: nat, r: nat)
    ensures (k * P + r) % P == r % P
  {
  }

  lemma MulMod(x: nat, y: nat)
    ensures ((x % P) * (y % P)) % P == (x * y) % P
  {
    var qx, rx := x / P, x % P;
    var qy, ry := y / P, y % P;
    assert x * y == (qx * qy * P + qx * ry + rx * qy) * P + rx * ry;
    ModOfMultiplePlus(qx * qy * P + qx * ry + rx * qy, rx * ry);
  }

  /** (a*a)*(b*b) and (a*b)*(a*b) are the same element. */
  lemma MulSquares(a: Fe, b: Fe)
    ensures Mul(Mul(a, a), Mul(b, b)) == Mul(Mul(a, b), Mul(a, b))
  {
    MulMod(a * a, b * b);
    MulMod(a * b, a * b);
    assert (a * a) * (b * b) == (a * b) * (a * b);
  }

  /** The type pair a conversion is instantiated with; `assert_types` demands both be the BN254 scalar field. */
  datatype FieldTypes = FieldTypes(arkIsBn254Fr: bool, ffIsBn256Fr: bool)

  predicate TypesMatch(t: FieldTypes) {
    t.arkIsBn254Fr && t.ffIsBn256Fr
  }

  /** An element in the solver's encoding (encoding A). */
  datatype ArkFr = ArkFr(value: Fe)

  /** Hexadecimal digits in the `Debug` text of a halo2 field element (32 bytes, two digits each). */
  const DebugHexWidth: nat := 64

  /**
    The decimal constructor `from_str_vartime`: non-empty digit text without
    a leading zero (except "0" itself), accumulated in the field. The
    solver library's decimal `from_str` is not part of this model; this
    function stands for it as well.
   */
  function FieldFromDecimal(s: string): (r: Option<Fe>)
    ensures r.Some? ==> |s| > 0 && forall i :: 0 <= i < |s| ==> '0' <= s[i] <= '9'
  {
    if |s| == 0 then None
    else if s == "0" then Some(0)
    else if s[0] == '0' then None
    else
      match DecimalValue(s)
      case None => None
      case Some(n) => Some(n % P)
  }

  /** `format!("{:?}", x)` of a halo2 field element: "0x" and the value as fixed-width hexadecimal. */
  function FfDebugText(x: Fe): (s: string)
    ensures |s| == 2 + DebugHexWidth
    ensures s[..2] == "0x"
  {
    "0x" + HexFixed(x, DebugHexWidth)
  }

  lemma {:induction false} Pow16Sum(a: nat, b: nat)
    ensures Pow16(a + b) == Pow16(a) * Pow16(b)
  {
    if a > 0 {
      Pow16Sum(a - 1, b);
    }
  }

  lemma FieldFitsDebugWidth()
    ensures P < Pow16(DebugHexWidth)
  {
    assert Pow16(8) == 0x1_0000_0000;
    Pow16Sum(8, 8);
    assert Pow16(16) == 0x1_0000_0000_0000_0000;
    Pow16Sum(16, 16);
    assert Pow16(32) == 0x1_0000_0000_0000_0000_0000_0000_0000_0000;
    Pow16Sum(32, 32);
  }

  /** The decimal text of a value below P reads back as that value. */
  lemma DecimalTextReadsBack(n: nat)
    requires n < P
    ensures FieldFromDecimal(DecimalText(n)) == Some(n)
  {
    var s := DecimalText(n);
    if n != 0 {
      DecimalRoundTrip(n);
      assert s[0] != '0';
      CanonicalDecimalReads(s, n);
      ResidueBelowP(n);
    } else {
      assert s == "0";
    }
  }

  lemma ResidueBelowP(n: nat)
    requires n < P
    ensures n % P == n
  {
  }

  lemma CanonicalDecimalReads(s: string, n: nat)
    requires |s| > 0 && s[0] != '0' && DecimalValue(s) == Some(n)
    ensures FieldFromDecimal(s) == Some(n % P)
  {
  }

  /**
    `generic_ark_ff_to_prime_field`: encoding A to encoding B. Zero maps to
    zero; any other value is rendered as decimal text and parsed, a parse
    failure being a `FieldConversionError` carrying the text.
   */
  function ArkToFf(types: FieldTypes, x: ArkFr): (r: Result<Fe>)
    ensures TypesMatch(types) ==> r == Ok(x.value)
    ensures !TypesMatch(types) ==> r == Panic(FieldTypeMismatch)
  {
    if !TypesMatch(types) then Panic(FieldTypeMismatch)
    else if x.value == 0 then Ok(0)
    else
      var text := DecimalText(x.value);
      DecimalTextReadsBack(x.value);
      match FieldFromDecimal(text)
      case Some(v) => Ok(v)
      case None => Err(FieldConversionError(text))
  }

  /**
    `ff_to_ark_prime_field`: encoding B to encoding A. Zero maps to zero;
    any other value has the "0x" of its debug text dropped, the rest read
    as hexadecimal (a bad digit aborts), written back as decimal text and
    parsed, a parse failure being a `FieldConversionError` carrying the text.
   */
  function FfToArk(types: FieldTypes, x: Fe): (r: Result<ArkFr>)
    ensures TypesMatch(types) ==> r == Ok(ArkFr(x))
    ensures !TypesMatch(types) ==> r == Panic(FieldTypeMismatch)
  {
    if !TypesMatch(types) then Panic(FieldTypeMismatch)
    else if x == 0 then Ok(ArkFr(0))
    else
      var debug := FfDebugText(x);
      var digits := debug[2..];
      assert digits == HexFixed(x, DebugHexWidth);
      FieldFitsDebugWidth();
      HexRoundTrip(x, DebugHexWidth);
      match ParseHex(digits)
      case None => Panic(HexParseFailure)
      case Some(bn) =>
        var text := DecimalText(bn);
        DecimalTextReadsBack(bn);
        match FieldFromDecimal(text)
        case Some(v) => Ok(ArkFr(v))
        case None => Err(FieldConversionError(text))
  }

  /** Both round trips through the bridge are the identity when the type pair matches. */
  lemma BridgeRoundTrip(types: FieldTypes, x: Fe, a: ArkFr)
    requires TypesMatch(types)
    ensures FfToArk(types, x).Ok? && ArkToFf(types, FfToArk(types, x).value) == Ok(x)
    ensures ArkToFf(types, a).Ok? && FfToArk(types, ArkToFf(types, a).value) == Ok(a)
  {
  }

  /** The values the crate's own test checks from the solver's encoding: 0, 1, 16 and -1 (that is, P - 1). */
  lemma ArkToFfSamples(types: FieldTypes)
    requires TypesMatch(types)
    ensures ArkToFf(types, ArkFr(0)) == Ok(Zero)
    ensures ArkToFf(types, ArkFr(1)) == Ok(One)
    ensures ArkToFf(types, ArkFr(16)) == Ok(Double(Double(Double(Double(One)))))
    ensures ArkToFf(types, ArkFr(P - 1)) == Ok(Sub(Zero, One))
  {
    SixteenIsDoubled();
  }

  /** The values the crate's own test checks into the solver's encoding: 0, 1, 16 and -1. */
  lemma FfToArkSamples(types: FieldTypes)
    requires TypesMatch(types)
    ensures FfToArk(types, 0) == Ok(ArkFr(0))
    ensures FfToArk(types, 1) == Ok(ArkFr(1))
    ensures FfToArk(types, 16) == Ok(ArkFr(16))
    ensures FfToArk(types, Sub(Zero, One)) == Ok(ArkFr(P - 1))
  {
  }

  lemma SixteenIsDoubled()
    ensures Double(Double(Double(Double(One)))) == 16
  {
    assert Double(One) == 2;
    assert Double(2) == 4;
    assert Double(4) == 8;
  }
}
