/** The position and label lists that accompany the temperature profile. */
module ResultLists {
  import opened Sums

  /**
   * Cumulative depth (mm) of every surface of a stack: 0 for the heated
   * surface, then the running sums of the thicknesses.
   */
  function Cumulative(thicknessesMm: seq<real>): (ps: seq<real>)
    ensures |ps| == |thicknessesMm| + 1
    ensures forall i :: 0 <= i <= |thicknessesMm| ==> ps[i] == Sum(thicknessesMm[..i])
  {
    seq(|thicknessesMm| + 1, i requires 0 <= i <= |thicknessesMm| => Sum(thicknessesMm[..i]))
  }

  /** The running sums start at 0, end at the total thickness, and grow by one thickness per layer. */
  lemma {:induction false} CumulativeSteps(thicknessesMm: seq<real>)
    ensures Cumulative(thicknessesMm)[0] == 0.0
    ensures Cumulative(thicknessesMm)[|thicknessesMm|] == Sum(thicknessesMm)
    ensures forall i :: 0 <= i < |thicknessesMm| ==>
              Cumulative(thicknessesMm)[i + 1] == Cumulative(thicknessesMm)[i] + thicknessesMm[i]
  {
    assert thicknessesMm[..|thicknessesMm|] == thicknessesMm;
    forall i | 0 <= i < |thicknessesMm|
      ensures Cumulative(thicknessesMm)[i + 1] == Cumulative(thicknessesMm)[i] + thicknessesMm[i]
    {
      SumPrefixStep(thicknessesMm, i);
    }
  }

  /** For positive thicknesses the surfaces lie strictly in order of depth. */
  lemma CumulativeIncreasing(thicknessesMm: seq<real>)
    requires AllPositive(thicknessesMm)
    ensures forall i, j :: 0 <= i < j <= |thicknessesMm| ==> Cumulative(thicknessesMm)[i] < Cumulative(thicknessesMm)[j]
  {
    forall i, j | 0 <= i < j <= |thicknessesMm|
      ensures Cumulative(thicknessesMm)[i] < Cumulative(thicknessesMm)[j]
    {
      PrefixSumsIncrease(thicknessesMm, i, j);
    }
  }

  /**
   * `_temperature_positions`: the running sums, then one more copy of the
   * last position when there are more temperatures than surfaces.
   */
  method TemperaturePositions(thicknessesMm: seq<real>, numTemperatures: int) returns (positions: seq<real>)
    ensures |positions| == |thicknessesMm| + (if numTemperatures > |thicknessesMm| + 1 then 2 else 1)
    ensures positions[0] == 0.0
    ensures numTemperatures > |thicknessesMm| + 1 ==>
              positions == Cumulative(thicknessesMm) + [Sum(thicknessesMm)]
    ensures numTemperatures <= |thicknessesMm| + 1 ==> positions == Cumulative(thicknessesMm)
  {
    positions := [0.0];
    var total := 0.0;
    for i := 0 to |thicknessesMm|
      invariant |positions| == i + 1
      invariant forall j :: 0 <= j <= i ==> positions[j] == Sum(thicknessesMm[..j])
      invariant total == Sum(thicknessesMm[..i])
    {
      SumPrefixStep(thicknessesMm, i);
      total := total + thicknessesMm[i];
      positions := positions + [total];
    }
    assert positions == Cumulative(thicknessesMm);
    assert thicknessesMm[..|thicknessesMm|] == thicknessesMm;
    if numTemperatures > |positions| {
      positions := positions + [positions[|positions| - 1]];
    }
  }

  // Labels

  const InnerSurfaceLabel: string := "Innenoberfläche"
  const InterfacePrefix: string := "Grenzfläche "
  const AmbientLabel: string := "Umgebung"

  /** The decimal digit character for d. */
  function DigitChar(d: nat): (c: char)
    requires d < 10
    ensures '0' <= c <= '9'
  {
    "0123456789"[d]
  }

  /** The value of a decimal digit character. */
  function DigitValue(c: char): (d: nat)
    requires '0' <= c <= '9'
    ensures d < 10
  {
    c as nat - '0' as nat
  }

  predicate IsDigits(s: string)
  {
    forall i :: 0 <= i < |s| ==> '0' <= s[i] <= '9'
  }

  /** The decimal rendering of n, as an f-string writes an int: no sign, no leading zeros. */
  function NatToString(n: nat): (s: string)
    ensures |s| > 0 && IsDigits(s)
    ensures s[0] == '0' ==> n == 0
  {
    if n < 10 then [DigitChar(n)] else NatToString(n / 10) + [DigitChar(n % 10)]
  }

  /** The number a string of decimal digits denotes. */
  function DecimalValue(s: string): nat
    requires IsDigits(s)
  {
    if |s| == 0 then 0 else DecimalValue(s[..|s| - 1]) * 10 + DigitValue(s[|s| - 1])
  }

  /** Reading back the rendering of n gives n. */
  lemma {:induction false} DecimalRoundTrip(n: nat)
    ensures DecimalValue(NatToString(n)) == n
  {
    var s := NatToString(n);
    if n >= 10 {
      DecimalRoundTrip(n / 10);
      assert s[..|s| - 1] == NatToString(n / 10);
    }
  }

  /** Different numbers render differently. */
  lemma NatToStringInjective(a: nat, b: nat)
    requires NatToString(a) == NatToString(b)
    ensures a == b
  {
    DecimalRoundTrip(a);
    DecimalRoundTrip(b);
  }

  /**
   * `_temperature_labels`: the inner surface, one label per interface
   * numbered from 1, then the ambient air; a count below 1 gives no interfaces.
   */
  function TemperatureLabels(numLayers: int): (labels: seq<string>)
    ensures |labels| == (if numLayers > 0 then numLayers else 0) + 2
    ensures labels[0] == InnerSurfaceLabel && labels[|labels| - 1] == AmbientLabel
    ensures forall i :: 1 <= i < |labels| - 1 ==> labels[i] == InterfacePrefix + NatToString(i)
  {
    var n := if numLayers > 0 then numLayers else 0;
    [InnerSurfaceLabel] + seq(n, i requires 0 <= i < n => InterfacePrefix + NatToString(i + 1)) + [AmbientLabel]
  }

  /** No two entries of the label list are the same, so each names one point of the profile. */
  lemma LabelsDistinct(numLayers: int)
    ensures forall i, j :: 0 <= i < j < |TemperatureLabels(numLayers)| ==>
              TemperatureLabels(numLayers)[i] != TemperatureLabels(numLayers)[j]
  {
    var labels := TemperatureLabels(numLayers);
    forall i, j | 0 <= i < j < |labels| ensures labels[i] != labels[j] {
      if i == 0 {
        assert labels[i][0] == 'I';
        assert labels[j][0] != 'I';
      } else if j == |labels| - 1 {
        assert labels[j][0] == 'U';
        assert labels[i][0] == 'G';
      } else if labels[i] == labels[j] {
        var k := |InterfacePrefix|;
        assert labels[i][k..] == NatToString(i);
        assert labels[j][k..] == NatToString(j);
        NatToStringInjective(i, j);
      }
    }
  }
}
