/** Conversion of computed quotas to the 32-bit quota columns, with saturation. */
module Quota {
  import opened Lists

  const MaxQuota := 0x7FFF_FFFF
  const MinQuota := -0x8000_0000

  /** A float64, with finite values taken as reals. */
  datatype Float = NaN | PosInf | NegInf | Fin(value: real)

  datatype ClampKind = Overflow | Underflow | NotANumber

  /** A converted quota, and why it had to be saturated if it was. */
  datatype Checked = Checked(quota: int, clamp: Option<ClampKind>)

  /** Go's conversion to int. */
  function Truncate(x: real): (r: int) {
    if x >= 0.0 then x.Floor else -((-x).Floor)
  }

  /** math.Round on a real: half away from zero. */
  function RoundAway(x: real): (r: int) {
    if x >= 0.0 then (x + 0.5).Floor else -((-x + 0.5).Floor)
  }

  function Saturate(f: Float): (r: Checked) {
    match f
    case NaN => Checked(0, Some(NotANumber))
    case PosInf => Checked(MaxQuota, Some(Overflow))
    case NegInf => Checked(MinQuota, Some(Underflow))
    case Fin(x) =>
      if x >= MaxQuota as real then Checked(MaxQuota, Some(Overflow))
      else if x <= MinQuota as real then Checked(MinQuota, Some(Underflow))
      else Checked(Truncate(x), None)
  }

  function Rounded(f: Float): (r: Float) {
    if f.Fin? then Fin(RoundAway(f.value) as real) else f
  }

  function FromFloatChecked(f: Float): (r: Checked) {
    Saturate(f)
  }

  function RoundChecked(f: Float): (r: Checked) {
    Saturate(Rounded(f))
  }

  /** The strict forms refuse a clamped value instead of billing it. */
  function Strict(checked: Checked): (r: Option<int>) {
    if checked.clamp.Some? then None else Some(checked.quota)
  }

  /** The order of float64 values other than NaN. */
  predicate AtMost(a: Float, b: Float)
    requires !a.NaN? && !b.NaN?
  {
    a.NegInf? || b.PosInf? || (a.Fin? && b.Fin? && a.value <= b.value)
  }

  lemma FloorMonotone(a: real, b: real)
    requires a <= b
    ensures a.Floor <= b.Floor
  {
  }

  lemma TruncateFacts(x: real)
    ensures x >= 0.0 ==> 0 <= Truncate(x) && Truncate(x) as real <= x < Truncate(x) as real + 1.0
    ensures x <= 0.0 ==> Truncate(x) <= 0 && Truncate(x) as real - 1.0 < x <= Truncate(x) as real
  {
  }

  lemma RoundFacts(x: real)
    ensures RoundAway(x) as real - 0.5 <= x <= RoundAway(x) as real + 0.5
    ensures x >= 0.0 ==> RoundAway(x) >= 0 && x < RoundAway(x) as real + 0.5
    ensures x <= 0.0 ==> RoundAway(x) <= 0 && x > RoundAway(x) as real - 0.5
  {
  }

  lemma TruncateOfInt(n: int)
    ensures Truncate(n as real) == n
  {
  }

  /** A larger value never becomes a smaller quota, in either conversion. */
  lemma ConversionsMonotone(a: Float, b: Float)
    requires !a.NaN? && !b.NaN? && AtMost(a, b)
    ensures FromFloatChecked(a).quota <= FromFloatChecked(b).quota
    ensures RoundChecked(a).quota <= RoundChecked(b).quota
  {
    if a.Fin? && b.Fin? {
      FloorMonotone(a.value, b.value);
      FloorMonotone(-b.value, -a.value);
      TruncateFacts(a.value);
      TruncateFacts(b.value);
      FloorMonotone(a.value + 0.5, b.value + 0.5);
      FloorMonotone(-b.value + 0.5, -a.value + 0.5);
      RoundFacts(a.value);
      RoundFacts(b.value);
      TruncateOfInt(RoundAway(a.value));
      TruncateOfInt(RoundAway(b.value));
    } else if b.Fin? {
      TruncateFacts(b.value);
      TruncateOfInt(RoundAway(b.value));
    } else if a.Fin? {
      TruncateFacts(a.value);
      TruncateOfInt(RoundAway(a.value));
    }
  }

  /** Results fit the column and a charge never turns into a credit. */
  lemma ConversionsStayInRange(f: Float)
    ensures MinQuota <= FromFloatChecked(f).quota <= MaxQuota && MinQuota <= RoundChecked(f).quota <= MaxQuota
    ensures !f.NaN? && AtMost(Fin(0.0), f) ==> FromFloatChecked(f).quota >= 0 && RoundChecked(f).quota >= 0
    ensures !f.NaN? && AtMost(f, Fin(0.0)) ==> FromFloatChecked(f).quota <= 0 && RoundChecked(f).quota <= 0
  {
    if f.Fin? {
      TruncateFacts(f.value);
      RoundFacts(f.value);
      TruncateOfInt(RoundAway(f.value));
    }
  }

  /** The strict forms accept exactly the values strictly inside the limits, and then are this close. */
  lemma StrictAcceptsIff(f: Float)
    ensures Strict(FromFloatChecked(f)).Some? <==> f.Fin? && -2147483648.0 < f.value < 2147483647.0
    ensures Strict(RoundChecked(f)).Some? <==> f.Fin? && -2147483647.5 < f.value < 2147483646.5
    ensures Strict(FromFloatChecked(f)).Some? ==>
              var q := Strict(FromFloatChecked(f)).value;
              q == FromFloatChecked(f).quota && -1.0 < f.value - q as real < 1.0
    ensures Strict(RoundChecked(f)).Some? ==>
              var q := Strict(RoundChecked(f)).value;
              q == RoundChecked(f).quota && q == RoundAway(f.value) && -0.5 <= f.value - q as real <= 0.5
  {
    if f.Fin? {
      TruncateFacts(f.value);
      RoundFacts(f.value);
      TruncateOfInt(RoundAway(f.value));
    }
  }

  /** What is billed for the values the strict forms refuse, and how they are flagged. */
  lemma ClampedQuota(f: Float)
    ensures f.NaN? ==> FromFloatChecked(f) == RoundChecked(f) == Checked(0, Some(NotANumber))
    ensures f.PosInf? || (f.Fin? && f.value >= 2147483647.0) ==>
              FromFloatChecked(f) == RoundChecked(f) == Checked(2147483647, Some(Overflow))
    ensures f.NegInf? || (f.Fin? && f.value <= -2147483648.0) ==>
              FromFloatChecked(f) == RoundChecked(f) == Checked(-2147483648, Some(Underflow))
  {
    if f.Fin? {
      RoundFacts(f.value);
    }
  }

  /** What is billed for the others: the part before the point, or the nearest integer, halves away from zero. */
  lemma AcceptedQuota(x: real)
    requires -2147483648.0 < x < 2147483647.0
    ensures var q := FromFloatChecked(Fin(x)).quota as real; if x >= 0.0 then 0.0 <= q <= x < q + 1.0 else q - 1.0 < x <= q <= 0.0
    ensures -2147483647.5 < x < 2147483646.5 ==>
              var q := RoundChecked(Fin(x)).quota as real; if x >= 0.0 then q - 0.5 <= x < q + 0.5 else q - 0.5 < x <= q + 0.5
  {
    TruncateFacts(x);
    RoundFacts(x);
    TruncateOfInt(RoundAway(x));
  }
}
