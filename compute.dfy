/** `compute_multilayer`: validate the input lists, solve, and assemble the result record. */
module Compute {
  import opened Errors
  import opened Sums
  import opened Layers
  import opened MultiLayer
  import opened ResultLists

  /** The result record (the dictionary of the source, with typed fields). */
  datatype MultilayerResult = MultilayerResult(
    q: real,
    interfaceTemperatures: seq<real>,
    rTotal: real,
    temperaturePositionsMm: seq<real>,
    temperatureLabels: seq<string>,
    tLeft: real,
    tInf: real)

  /**
   * Build one layer per (thickness, conductivity) pair, in order; the first
   * pair the initialiser rejects decides the error.
   */
  function BuildLayers(thicknessesMm: seq<real>, ks: seq<real>): (r: Result<seq<Layer>>)
    requires |thicknessesMm| == |ks|
    ensures r.Ok? <==> forall i :: 0 <= i < |ks| ==> NewLayer(thicknessesMm[i], ks[i]).Ok?
    ensures r.Ok? ==> |r.value| == |ks|
    ensures r.Ok? ==> forall i :: 0 <= i < |ks| ==> NewLayer(thicknessesMm[i], ks[i]) == Ok(r.value[i])
    ensures r.Err? ==>
              exists i :: && 0 <= i < |ks|
                          && NewLayer(thicknessesMm[i], ks[i]) == Err(r.error)
                          && forall j :: 0 <= j < i ==> NewLayer(thicknessesMm[j], ks[j]).Ok?
  {
    if |ks| == 0 then Ok([])
    else
      var first :- NewLayer(thicknessesMm[0], ks[0]);
      var rest :- BuildLayers(thicknessesMm[1..], ks[1..]);
      Ok([first] + rest)
  }

  /** Every input pair is a valid layer exactly when all thicknesses and conductivities are positive. */
  predicate AllLayersValid(thicknessesMm: seq<real>, ks: seq<real>)
    requires |thicknessesMm| == |ks|
  {
    forall i :: 0 <= i < |ks| ==> thicknessesMm[i] > 0.0 && ks[i] > 0.0
  }

  method ComputeMultilayer(thicknessesMm: seq<real>, ks: seq<real>, tLeft: real, tInf: real, h: real)
    returns (r: Result<MultilayerResult>)
    ensures |thicknessesMm| != |ks| ==> r == Err(LengthMismatch)
    ensures |thicknessesMm| == |ks| == 0 ==> r == Err(NoLayers)
    ensures |thicknessesMm| == |ks| > 0 && BuildLayers(thicknessesMm, ks).Err? ==>
              r == Err(BuildLayers(thicknessesMm, ks).error)
    ensures |thicknessesMm| == |ks| > 0 && BuildLayers(thicknessesMm, ks).Ok? && h <= 0.0 ==>
              r == Err(NonPositiveHeatTransfer)
    ensures r.Ok? <==> |thicknessesMm| == |ks| > 0 && AllLayersValid(thicknessesMm, ks) && h > 0.0
    ensures r.Ok? ==> r.value.tLeft == tLeft && r.value.tInf == tInf
    ensures r.Ok? ==>
              && |r.value.interfaceTemperatures| == |thicknessesMm| + 2
              && |r.value.temperaturePositionsMm| == |thicknessesMm| + 2
              && |r.value.temperatureLabels| == |thicknessesMm| + 2
    ensures r.Ok? ==> r.value.temperaturePositionsMm == Cumulative(thicknessesMm) + [Sum(thicknessesMm)]
    ensures r.Ok? ==> r.value.temperatureLabels == TemperatureLabels(|thicknessesMm|)
    ensures r.Ok? ==>
              var m := MultiLayerModel(BuildLayers(thicknessesMm, ks).value, tLeft, tInf, h);
              && m.Valid()
              && r.value.q == m.Flux()
              && r.value.interfaceTemperatures == Profile(m)
              && r.value.rTotal == m.TotalResistance()
  {
    if |thicknessesMm| != |ks| {
      return Err(LengthMismatch);
    }
    if |thicknessesMm| == 0 {
      return Err(NoLayers);
    }
    var layers :- BuildLayers(thicknessesMm, ks);
    var model :- NewModel(layers, tLeft, tInf, h);
    var res := model.Solve();
    var positions := TemperaturePositions(thicknessesMm, |res.interfaceTemperatures|);
    var labels := TemperatureLabels(|thicknessesMm|);
    r := Ok(MultilayerResult(
      res.q,
      res.interfaceTemperatures,
      Sum(res.resistancesCond) + res.resistanceConv,
      positions,
      labels,
      tLeft,
      tInf));
  }

  /** The resistance of input pair i: thickness in mm over 1000 times the conductivity. */
  function InputResistances(thicknessesMm: seq<real>, ks: seq<real>): (rs: seq<real>)
    requires |thicknessesMm| == |ks| && AllLayersValid(thicknessesMm, ks)
    ensures |rs| == |ks|
  {
    seq(|ks|, i requires 0 <= i < |ks| => thicknessesMm[i] / (1000.0 * ks[i]))
  }

  /**
   * For valid inputs, the layers built from the lists have exactly the
   * resistances t_i / (1000 k_i), so the reported R_total is their sum plus 1/h.
   */
  lemma {:induction false} ResistancesOfInputs(thicknessesMm: seq<real>, ks: seq<real>, tLeft: real, tInf: real, h: real)
    requires |thicknessesMm| == |ks| > 0 && AllLayersValid(thicknessesMm, ks) && h > 0.0
    ensures BuildLayers(thicknessesMm, ks).Ok?
    ensures var m := MultiLayerModel(BuildLayers(thicknessesMm, ks).value, tLeft, tInf, h);
      && m.Valid()
      && m.ConductionResistances() == InputResistances(thicknessesMm, ks)
      && m.TotalResistance() == Sum(InputResistances(thicknessesMm, ks)) + 1.0 / h
  {
    var layers := BuildLayers(thicknessesMm, ks).value;
    var m := MultiLayerModel(layers, tLeft, tInf, h);
    var rs := m.ConductionResistances();
    forall i | 0 <= i < |ks| ensures rs[i] == InputResistances(thicknessesMm, ks)[i] {
      ResistanceFromMillimetres(layers[i]);
    }
    assert rs == InputResistances(thicknessesMm, ks);
  }
}
