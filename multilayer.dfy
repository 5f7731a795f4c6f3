/**
 * The series-resistance model of a layer stack: a fixed temperature on the
 * left surface, convective loss to ambient air on the right.
 */
module MultiLayer {
  import opened Errors
  import opened Sums
  import opened Layers

  /** What `solve` returns: the flux density, the resistances and the profile. */
  datatype Results = Results(
    q: real,
    resistancesCond: seq<real>,
    resistanceConv: real,
    interfaceTemperatures: seq<real>)

  /** The stack with its boundary conditions (temperatures in degrees Celsius). */
  datatype MultiLayerModel = MultiLayerModel(layers: seq<Layer>, tLeft: real, tInf: real, h: real) {

    /** The model's invariant: what the initialiser and the layers guarantee. */
    predicate Valid()
    {
      |layers| > 0 && h > 0.0 && forall i :: 0 <= i < |layers| ==> layers[i].Valid()
    }

    /** One conduction resistance per layer, in layer order, each positive. */
    function ConductionResistances(): (rs: seq<real>)
      requires Valid()
      ensures |rs| == |layers|
      ensures forall i :: 0 <= i < |rs| ==> rs[i] == layers[i].Resistance()
      ensures AllPositive(rs)
    {
      seq(|layers|, i requires 0 <= i < |layers| => layers[i].Resistance())
    }

    /** The resistance of the convective film, the reciprocal of h. */
    function ConvectionResistance(): (r: real)
      requires h > 0.0
      ensures r > 0.0 && r * h == 1.0
    {
      1.0 / h
    }

    /** The series resistance of the whole network: all layers plus the convective film. */
    function TotalResistance(): (r: real)
      requires Valid()
      ensures r > ConvectionResistance() > 0.0
    {
      var rs := ConductionResistances();
      SumOfPositive(rs);
      Sum(rs) + ConvectionResistance()
    }

    /** The heat-flux density through the stack, in W/m^2: q R_total = T_left - T_inf. */
    function Flux(): (q: real)
      requires Valid()
      ensures q * TotalResistance() == tLeft - tInf
    {
      (tLeft - tInf) / TotalResistance()
    }

    /**
     * `solve`: walk the layers from left to right, lowering the temperature by
     * q R_i at each one, then append the ambient temperature.
     */
    method Solve() returns (res: Results)
      requires Valid()
      ensures res.resistancesCond == ConductionResistances()
      ensures res.resistanceConv == ConvectionResistance()
      ensures res.q == Flux()
      ensures res.interfaceTemperatures == InterfaceProfile(tLeft, res.q, res.resistancesCond, tInf)
    {
      var rCond := ConductionResistances();
      var rConv := 1.0 / h;
      var rTotal := Sum(rCond) + rConv;
      assert rTotal == TotalResistance();
      var q := (tLeft - tInf) / rTotal;
      var spec := InterfaceProfile(tLeft, q, rCond, tInf);
      var temps := [tLeft];
      var tCurr := tLeft;
      for i := 0 to |rCond|
        invariant |temps| == i + 1
        invariant forall j :: 0 <= j <= i ==> temps[j] == spec[j]
        invariant tCurr == spec[i]
      {
        ProfileStep(tLeft, q, rCond, tInf, i);
        tCurr := tCurr - q * rCond[i];
        temps := temps + [tCurr];
      }
      temps := temps + [tInf];
      assert temps == spec;
      res := Results(q, rCond, rConv, temps);
    }
  }

  /** The validating initialiser of the model. */
  function NewModel(layers: seq<Layer>, tLeft: real, tInf: real, h: real): (r: Result<MultiLayerModel>)
    ensures r.Ok? <==> |layers| > 0 && h > 0.0
    ensures |layers| == 0 ==> r == Err(NoLayers)
    ensures |layers| > 0 && h <= 0.0 ==> r == Err(NonPositiveHeatTransfer)
    ensures r.Ok? ==> r.value.layers == layers && r.value.tLeft == tLeft && r.value.tInf == tInf && r.value.h == h
    ensures r.Ok? && (forall i :: 0 <= i < |layers| ==> layers[i].Valid()) ==> r.value.Valid()
  {
    if |layers| == 0 then Err(NoLayers)
    else if h <= 0.0 then Err(NonPositiveHeatTransfer)
    else Ok(MultiLayerModel(layers, tLeft, tInf, h))
  }

  /**
   * The temperature profile `solve` produces, in closed form: the surface
   * temperature, the temperature after each layer, and the ambient temperature.
   */
  function InterfaceProfile(tLeft: real, q: real, rs: seq<real>, tInf: real): (temps: seq<real>)
    ensures |temps| == |rs| + 2
    ensures temps[0] == tLeft && temps[|rs| + 1] == tInf
    ensures forall i :: 1 <= i <= |rs| ==> temps[i] == tLeft - q * Sum(rs[..i])
  {
    seq(|rs| + 2, i requires 0 <= i < |rs| + 2 =>
      if i == 0 then tLeft else if i <= |rs| then tLeft - q * Sum(rs[..i]) else tInf)
  }

  /** Each layer lowers the temperature by the flux times its resistance. */
  lemma ProfileStep(tLeft: real, q: real, rs: seq<real>, tInf: real, i: nat)
    requires i < |rs|
    ensures InterfaceProfile(tLeft, q, rs, tInf)[i + 1] == InterfaceProfile(tLeft, q, rs, tInf)[i] - q * rs[i]
  {
    var p := InterfaceProfile(tLeft, q, rs, tInf);
    SumPrefixStep(rs, i);
    Distribute(q, Sum(rs[..i]), rs[i]);
    if i == 0 {
      assert p[0] == tLeft - q * Sum(rs[..0]);
    }
  }

  // Small facts of real arithmetic, kept apart so that each is proved in a small context.

  lemma Distribute(q: real, a: real, b: real)
    ensures q * (a + b) == q * a + q * b
  {
  }

  lemma ScaledDifference(q: real, a: real, b: real)
    ensures q * b - q * a == q * (b - a)
  {
  }

  lemma SeriesDrop(tLeft: real, tInf: real, q: real, s: real, c: real)
    requires q * (s + c) == tLeft - tInf
    ensures tLeft - q * s == tInf + q * c
  {
    Distribute(q, s, c);
  }

  lemma ProductSign(q: real, d: real)
    requires d > 0.0
    ensures q > 0.0 <==> q * d > 0.0
    ensures q < 0.0 <==> q * d < 0.0
    ensures q == 0.0 <==> q * d == 0.0
  {
  }

  /** Between two interfaces, the temperature differs by q times the positive resistance between them. */
  lemma InterfaceDifference(tLeft: real, q: real, rs: seq<real>, tInf: real, i: nat, j: nat)
    requires AllPositive(rs)
    requires i < j <= |rs|
    ensures InterfaceProfile(tLeft, q, rs, tInf)[i] - InterfaceProfile(tLeft, q, rs, tInf)[j]
            == q * (Sum(rs[..j]) - Sum(rs[..i]))
    ensures Sum(rs[..j]) - Sum(rs[..i]) > 0.0
  {
    var p := InterfaceProfile(tLeft, q, rs, tInf);
    assert p[i] == tLeft - q * Sum(rs[..i]);
    assert p[j] == tLeft - q * Sum(rs[..j]);
    ScaledDifference(q, Sum(rs[..i]), Sum(rs[..j]));
    PrefixSumsIncrease(rs, i, j);
  }

  /**
   * In a profile whose outer surface sits q c above ambient, entry i exceeds
   * entry j by q times a positive resistance d, for every i before j.
   */
  lemma ProfileGap(tLeft: real, q: real, rs: seq<real>, c: real, tInf: real, i: nat, j: nat) returns (d: real)
    requires AllPositive(rs) && c > 0.0
    requires InterfaceProfile(tLeft, q, rs, tInf)[|rs|] == tInf + q * c
    requires i < j < |rs| + 2
    ensures d > 0.0
    ensures InterfaceProfile(tLeft, q, rs, tInf)[i] - InterfaceProfile(tLeft, q, rs, tInf)[j] == q * d
  {
    if j <= |rs| {
      InterfaceDifference(tLeft, q, rs, tInf, i, j);
      d := Sum(rs[..j]) - Sum(rs[..i]);
    } else if i == |rs| {
      d := c;
    } else {
      d := AmbientGap(tLeft, q, rs, c, tInf, i);
    }
  }

  /** The gap from an interface i < n to the ambient entry: the layers after i plus the film. */
  lemma AmbientGap(tLeft: real, q: real, rs: seq<real>, c: real, tInf: real, i: nat) returns (d: real)
    requires AllPositive(rs) && c > 0.0
    requires InterfaceProfile(tLeft, q, rs, tInf)[|rs|] == tInf + q * c
    requires i < |rs|
    ensures d > 0.0
    ensures InterfaceProfile(tLeft, q, rs, tInf)[i] - tInf == q * d
  {
    InterfaceDifference(tLeft, q, rs, tInf, i, |rs|);
    var inner := Sum(rs[..|rs|]) - Sum(rs[..i]);
    Distribute(q, inner, c);
    d := inner + c;
  }

  /**
   * In a profile whose outer surface sits q c above ambient, any entry i
   * before entry j differs from it in the direction the sign of q says.
   */
  lemma ProfileOrder(tLeft: real, q: real, rs: seq<real>, c: real, tInf: real, i: nat, j: nat)
    requires AllPositive(rs) && c > 0.0
    requires InterfaceProfile(tLeft, q, rs, tInf)[|rs|] == tInf + q * c
    requires i < j < |rs| + 2
    ensures q > 0.0 ==> InterfaceProfile(tLeft, q, rs, tInf)[j] < InterfaceProfile(tLeft, q, rs, tInf)[i]
    ensures q < 0.0 ==> InterfaceProfile(tLeft, q, rs, tInf)[i] < InterfaceProfile(tLeft, q, rs, tInf)[j]
    ensures q == 0.0 ==> InterfaceProfile(tLeft, q, rs, tInf)[i] == InterfaceProfile(tLeft, q, rs, tInf)[j]
  {
    var d := ProfileGap(tLeft, q, rs, c, tInf, i, j);
    ProductSign(q, d);
  }

  /** ProfileOrder for every pair of entries at once. */
  lemma ProfileMonotone(tLeft: real, q: real, rs: seq<real>, c: real, tInf: real)
    requires AllPositive(rs) && c > 0.0
    requires InterfaceProfile(tLeft, q, rs, tInf)[|rs|] == tInf + q * c
    ensures q > 0.0 ==> forall i, j :: 0 <= i < j < |rs| + 2 ==>
              InterfaceProfile(tLeft, q, rs, tInf)[j] < InterfaceProfile(tLeft, q, rs, tInf)[i]
    ensures q < 0.0 ==> forall i, j :: 0 <= i < j < |rs| + 2 ==>
              InterfaceProfile(tLeft, q, rs, tInf)[i] < InterfaceProfile(tLeft, q, rs, tInf)[j]
    ensures q == 0.0 ==> forall i :: 0 <= i < |rs| + 2 ==> InterfaceProfile(tLeft, q, rs, tInf)[i] == tLeft
  {
    var p := InterfaceProfile(tLeft, q, rs, tInf);
    forall i, j | 0 <= i < j < |rs| + 2
      ensures q > 0.0 ==> p[j] < p[i]
      ensures q < 0.0 ==> p[i] < p[j]
      ensures q == 0.0 ==> p[i] == p[j]
    {
      ProfileOrder(tLeft, q, rs, c, tInf, i, j);
    }
    if q == 0.0 {
      forall i | 0 < i < |rs| + 2 ensures p[i] == tLeft {
        assert p[0] == p[i];
      }
    }
  }

  /** The profile a valid model's `solve` produces. */
  function Profile(m: MultiLayerModel): (p: seq<real>)
    requires m.Valid()
    ensures |p| == |m.layers| + 2
  {
    InterfaceProfile(m.tLeft, m.Flux(), m.ConductionResistances(), m.tInf)
  }

  /** The flux has the sign of the temperature difference T_left - T_inf. */
  lemma FluxSign(m: MultiLayerModel)
    requires m.Valid()
    ensures m.Flux() > 0.0 <==> m.tLeft > m.tInf
    ensures m.Flux() < 0.0 <==> m.tLeft < m.tInf
    ensures m.Flux() == 0.0 <==> m.tLeft == m.tInf
  {
    ProductSign(m.Flux(), m.TotalResistance());
  }

  /** The model's flux carries T_left - T_inf across its layers and its film. */
  lemma FluxAcrossNetwork(m: MultiLayerModel)
    requires m.Valid()
    ensures m.Flux() * (Sum(m.ConductionResistances()) + m.ConvectionResistance()) == m.tLeft - m.tInf
  {
  }

  /**
   * The outer surface sits above ambient by exactly the convective drop
   * q R_conv, so the appended ambient temperature agrees with the flux.
   */
  lemma OuterSurfaceTemperature(m: MultiLayerModel)
    requires m.Valid()
    ensures Profile(m)[|m.layers|] == m.tInf + m.Flux() * m.ConvectionResistance()
  {
    var rs, c, q := m.ConductionResistances(), m.ConvectionResistance(), m.Flux();
    FluxAcrossNetwork(m);
    assert rs[..|rs|] == rs;
    assert Profile(m)[|rs|] == m.tLeft - q * Sum(rs);
    SeriesDrop(m.tLeft, m.tInf, q, Sum(rs), c);
  }

  /**
   * The closed form is the left-to-right walk of `solve`: the same flux passes
   * every layer, so the drop across layer i is q R_i.
   */
  lemma ProfileIsWalk(tLeft: real, q: real, rs: seq<real>, tInf: real)
    ensures forall i :: 0 <= i < |rs| ==>
              InterfaceProfile(tLeft, q, rs, tInf)[i + 1] == InterfaceProfile(tLeft, q, rs, tInf)[i] - q * rs[i]
  {
    forall i | 0 <= i < |rs|
      ensures InterfaceProfile(tLeft, q, rs, tInf)[i + 1] == InterfaceProfile(tLeft, q, rs, tInf)[i] - q * rs[i]
    {
      ProfileStep(tLeft, q, rs, tInf, i);
    }
  }

  /** Heat flowing outwards: the flux is positive and the temperature strictly falls along the stack. */
  lemma ProfileDecreasing(m: MultiLayerModel)
    requires m.Valid() && m.tLeft > m.tInf
    ensures m.Flux() > 0.0
    ensures forall i, j :: 0 <= i < j < |Profile(m)| ==> Profile(m)[j] < Profile(m)[i]
  {
    FluxSign(m);
    OuterSurfaceTemperature(m);
    ProfileMonotone(m.tLeft, m.Flux(), m.ConductionResistances(), m.ConvectionResistance(), m.tInf);
  }

  /** Heat flowing inwards: the flux is negative and the temperature strictly rises along the stack. */
  lemma ProfileIncreasing(m: MultiLayerModel)
    requires m.Valid() && m.tLeft < m.tInf
    ensures m.Flux() < 0.0
    ensures forall i, j :: 0 <= i < j < |Profile(m)| ==> Profile(m)[i] < Profile(m)[j]
  {
    FluxSign(m);
    OuterSurfaceTemperature(m);
    ProfileMonotone(m.tLeft, m.Flux(), m.ConductionResistances(), m.ConvectionResistance(), m.tInf);
  }

  /** No temperature difference: no flux, and every entry equals T_left. */
  lemma ProfileConstant(m: MultiLayerModel)
    requires m.Valid() && m.tLeft == m.tInf
    ensures m.Flux() == 0.0
    ensures forall i :: 0 <= i < |Profile(m)| ==> Profile(m)[i] == m.tLeft
  {
    FluxSign(m);
    OuterSurfaceTemperature(m);
    ProfileMonotone(m.tLeft, m.Flux(), m.ConductionResistances(), m.ConvectionResistance(), m.tInf);
  }
}
