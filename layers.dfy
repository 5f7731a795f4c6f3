/** A plane layer of the insulation stack. */
module Layers {
  import opened Errors

  /**
   * A layer: its thickness as entered in millimetres, its thermal conductivity
   * in W/(m K), and the thickness in metres that the initialiser derives.
   */
  datatype Layer = Layer(thicknessMm: real, k: real, thicknessM: real) {

    /** What the initialiser guarantees of every layer it lets through. */
    predicate Valid()
    {
      thicknessMm > 0.0 && k > 0.0 && thicknessM * 1000.0 == thicknessMm
    }

    /** Conduction resistance of the layer per unit area, in m^2 K/W. */
    function Resistance(): (r: real)
      requires Valid()
      ensures r > 0.0
    {
      thicknessM / k
    }
  }

  /**
   * The validating initialiser: the thickness is checked first, then the
   * conductivity; a layer that passes carries its thickness converted to metres.
   */
  function NewLayer(thicknessMm: real, k: real): (r: Result<Layer>)
    ensures r.Ok? <==> thicknessMm > 0.0 && k > 0.0
    ensures thicknessMm <= 0.0 ==> r == Err(NonPositiveThickness)
    ensures thicknessMm > 0.0 && k <= 0.0 ==> r == Err(NonPositiveConductivity)
    ensures r.Ok? ==> r.value.Valid() && r.value.thicknessMm == thicknessMm && r.value.k == k
    ensures r.Ok? ==> r.value.thicknessM * 1000.0 == thicknessMm && 0.0 < r.value.thicknessM < thicknessMm
  {
    if thicknessMm <= 0.0 then Err(NonPositiveThickness)
    else if k <= 0.0 then Err(NonPositiveConductivity)
    else Ok(Layer(thicknessMm, k, thicknessMm / 1000.0))
  }

  /** The resistance in terms of the inputs: thickness in mm over 1000 times the conductivity. */
  lemma ResistanceFromMillimetres(l: Layer)
    requires l.Valid()
    ensures l.Resistance() == l.thicknessMm / (1000.0 * l.k)
  {
    assert l.thicknessM == l.thicknessMm / 1000.0;
  }

  /** Every valid layer is what the initialiser builds from its own inputs. */
  lemma NewLayerOfValid(l: Layer)
    requires l.Valid()
    ensures NewLayer(l.thicknessMm, l.k) == Ok(l)
  {
  }
}
