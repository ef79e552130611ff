/**
 * An abstract JSON value (RFC 8259) as Go's encoding/json hands it to the
 * room engine after decoding into `interface{}`: objects become
 * `map[string]interface{}`, `null` becomes `nil`, a number becomes a
 * `float64`. The byte encoding is not modelled; a number is kept as the
 * exact decimal value of its literal, so that the one limit the engine
 * meets, a literal too large for `float64`, can be stated.
 */
module Json {
  import opened Wrappers

  datatype Json =
    | JNull
    | JBool(b: bool)
    | JNumber(negative: bool, significand: nat, exponent: int)  // ±significand · 10^exponent
    | JString(s: string)
    | JArray(items: seq<Json>)
    | JObject(fields: map<string, Json>)

  /** `base` raised to the power `k`. */
  function Pow(base: nat, k: nat): (p: nat)
    ensures base > 0 ==> p > 0
  {
    if k == 0 then 1 else base * Pow(base, k - 1)
  }

  /**
   * The least magnitude that strconv.ParseFloat rounds to infinity and so
   * reports as out of range: halfway between the largest `float64`,
   * (2^53 - 1) · 2^971, and 2^1024, which round-half-to-even sends up. It
   * equals 2^1024 - 2^970.
   */
  const FLOAT64_OVERFLOW: nat := Pow(2, 970) * (Pow(2, 54) - 1)

  /** A decimal value significand · 10^exponent whose magnitude `float64` can hold (underflow rounds to 0). */
  predicate FitsFloat64(significand: nat, exponent: int)
  {
    if exponent >= 0 then significand * Pow(10, exponent) < FLOAT64_OVERFLOW
    else significand < FLOAT64_OVERFLOW * Pow(10, -exponent)
  }

  /**
   * Decoding into `interface{}` succeeds: every number anywhere inside the
   * value converts to `float64` without overflow; any other value decodes.
   */
  predicate DecodesAsInterface(v: Json)
  {
    match v
    case JNumber(_, significand, exponent) => FitsFloat64(significand, exponent)
    case JArray(items) => forall i :: 0 <= i < |items| ==> DecodesAsInterface(items[i])
    case JObject(fields) => forall k :: k in fields ==> DecodesAsInterface(fields[k])
    case _ => true
  }

  lemma {:induction false} PowAdd(base: nat, i: nat, j: nat)
    ensures Pow(base, i + j) == Pow(base, i) * Pow(base, j)
    decreases j
  {
    if j > 0 {
      PowAdd(base, i, j - 1);
      assert Pow(base, i + j) == base * Pow(base, i + j - 1);
    }
  }

  lemma {:induction false} PowMonotone(base: nat, i: nat, j: nat)
    requires base >= 1 && i <= j
    ensures Pow(base, i) <= Pow(base, j)
    decreases j
  {
    if i < j {
      PowMonotone(base, i, j - 1);
    }
  }

  /** 10^k is at least 2^(3k). */
  lemma {:induction false} PowTenDominates(k: nat)
    ensures Pow(10, k) >= Pow(2, 3 * k)
  {
    if k > 0 {
      PowTenDominates(k - 1);
      PowAdd(2, 3 * (k - 1), 3);
    }
  }

  lemma ProductBounds(a: nat, b: nat)
    requires a >= 1 && b >= 3
    ensures 1 < a * (b - 1) < a * b
  {
    assert a * (b - 1) == a * b - a;
    assert a * (b - 1) >= 1 * (b - 1);
  }

  lemma ScaledBelow(t: nat, s: nat, p: nat)
    requires t >= 2 && 1 <= p && s <= p
    ensures s < t * p
  {
    assert t * p >= 2 * p;
  }

  /** The overflow threshold lies strictly between 1 and 2^1024. */
  lemma OverflowBounds()
    ensures 1 < FLOAT64_OVERFLOW < Pow(2, 1024)
  {
    PowAdd(2, 970, 54);
    PowAdd(2, 2, 52);
    ProductBounds(Pow(2, 970), Pow(2, 54));
  }

  /**
   * A literal of magnitude 10^342 or more does not fit a `float64`. This is
   * a coarse sufficient condition (3 · 342 >= 1024), not the edge: the
   * overflow edge lies near 1.8 · 10^308, and `FitsFloat64` is the exact test.
   */
  lemma HugeLiteralOverflows(significand: nat, exponent: int)
    requires significand >= 1 && exponent >= 342
    ensures !FitsFloat64(significand, exponent)
  {
    PowTenDominates(exponent);
    PowMonotone(2, 1024, 3 * exponent);
    OverflowBounds();
    assert significand * Pow(10, exponent) >= Pow(10, exponent);
  }

  /** A literal of magnitude at most 1, however small (1e-400 included), fits: underflow is not an error. */
  lemma SmallLiteralFits(significand: nat, exponent: int)
    requires exponent < 0 && significand <= Pow(10, -exponent)
    ensures FitsFloat64(significand, exponent)
  {
    OverflowBounds();
    ScaledBelow(FLOAT64_OVERFLOW, significand, Pow(10, -exponent));
  }

  /** The outcome of parsing one text frame or request body. */
  datatype Document = Parsed(value: Json) | Unparseable

  /**
   * Decoding one member of a JSON object into a Go `string` struct field:
   * a missing key or `null` leaves the field at its zero value "", a JSON
   * string is taken as is, any other JSON type is an unmarshal error (None).
   */
  function StringField(fields: map<string, Json>, key: string): (r: Option<string>)
    ensures r.None? <==> key in fields && !fields[key].JNull? && !fields[key].JString?
    ensures r == Some("") <== key !in fields || fields[key] == JNull
    ensures key in fields && fields[key].JString? ==> r == Some(fields[key].s)
  {
    if key !in fields then Some("")
    else match fields[key]
      case JNull => Some("")
      case JString(s) => Some(s)
      case _ => None
  }
}
