/** Go's 64-bit integer arithmetic and mapToRange (pkg/resourcemanager/delegate.go), which turns free
    CPU or a preference into a priority. */
module PriorityMap {

  const TWO_63: int := 0x8000_0000_0000_0000
  const TWO_64: int := 0x1_0000_0000_0000_0000

  predicate InInt64(x: int) { -TWO_63 <= x < TWO_63 }

  /** The int64 value an unbounded result wraps around to. */
  function Wrap64(x: int): int { if InInt64(x) then x else (x + TWO_63) % TWO_64 - TWO_63 }

  /** Go's integer division, which truncates toward zero. */
  function TruncDiv(a: int, b: int): int
    requires b != 0
  {
    if a >= 0 then a / b else -((-a) / b)
  }

  /** Conversion of a float64 to an integer. */
  function Trunc(x: real): int { if x >= 0.0 then x.Floor else -((-x).Floor) }

  /** mapToRange: an inverted linear map, clamped to the output range. */
  function MapToRange(value: int, minInput: int, maxInput: int, maxOutput: int, minOutput: int): (mapped: int)
    requires Wrap64(maxInput - minInput) != 0 && minOutput <= maxOutput
    ensures minOutput <= mapped <= maxOutput
  {
    var product := Wrap64(Wrap64(maxOutput - minOutput) * Wrap64(value - minInput));
    var mappedValue := Wrap64(maxOutput - TruncDiv(product, Wrap64(maxInput - minInput)));
    if mappedValue > maxOutput then maxOutput
    else if mappedValue < minOutput then minOutput
    else mappedValue
  }

  /** Priority of a cluster from its total free CPU in millicores (load-based delegation). */
  function LoadPriority(freeCPU: int): (p: nat)
    ensures p <= 100
  {
    MapToRange(freeCPU, 0, 32000, 100, 0)
  }

  /** Priority of a replica from its TOPSIS preference. */
  function PreferencePriority(preference: real): (p: nat)
    ensures p <= 100
  {
    MapToRange(Trunc(preference * 100.0), 0, 100, 100, 0)
  }

  // ---------- Meaning ----------

  /** The most free CPU for which hundredfold still fits an int64. */
  const MAX_CPU: int := 92233720368547758

  /** Within that bound nothing overflows: one priority step per 320 millicores, clamped. */
  lemma LoadPriorityExact(v: int)
    requires -MAX_CPU <= v <= MAX_CPU
    ensures LoadPriority(v) == if v < 0 then 100 else if v > 32000 then 0 else 100 - v / 320
  {
  }

  /** More free CPU never gives a worse (larger) priority on the whole range lo..hi. */
  ghost predicate Antitone(lo: int, hi: int) {
    forall u, v :: lo <= u <= v <= hi ==> LoadPriority(v) <= LoadPriority(u)
  }

  /** Exactly the ranges on which the hundredfold does not overflow are mapped monotonically. */
  lemma {:induction false} AntitoneExactly(lo: int, hi: int)
    requires InInt64(lo) && InInt64(hi) && lo <= 0 && 32000 <= hi
    ensures Antitone(lo, hi) <==> -MAX_CPU <= lo && hi <= MAX_CPU
  {
    if -MAX_CPU <= lo && hi <= MAX_CPU {
      forall u, v | lo <= u <= v <= hi ensures LoadPriority(v) <= LoadPriority(u) {
        LoadPriorityExact(u);
        LoadPriorityExact(v);
      }
    } else {
      OverflowInverts();
      if hi > MAX_CPU {
        assert LoadPriority(MAX_CPU + 1) > LoadPriority(1000);
      } else {
        assert LoadPriority(1000) > LoadPriority(-MAX_CPU - 1);
      }
    }
  }

  /** One millicore beyond the bound the order is inverted: the best-provided cluster is ranked last. */
  lemma OverflowInverts()
    ensures LoadPriority(MAX_CPU + 1) == 100
    ensures LoadPriority(1000) == 97
    ensures LoadPriority(-MAX_CPU - 1) == 0
  {
  }

  /** A preference between 0 and 1 becomes 100 minus its whole percentage. */
  lemma PreferencePriorityExact(p: real)
    requires 0.0 <= p <= 1.0
    ensures PreferencePriority(p) == 100 - (p * 100.0).Floor
    ensures 0 <= (p * 100.0).Floor <= 100
  {
  }
}
