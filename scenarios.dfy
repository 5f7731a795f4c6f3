/** Closed-form instances of the model: a single layer, and a worked two-layer wall. */
module Scenarios {
  import opened Sums
  import opened Layers
  import opened MultiLayer

  /**
   * A single layer of resistance L/k: q = (T_left - T_inf) / (L/k + 1/h) and
   * the profile is T_left, T_left - q L/k, T_inf.
   */
  lemma SingleLayer(m: MultiLayerModel)
    requires m.Valid() && |m.layers| == 1
    ensures m.Flux() == (m.tLeft - m.tInf) / (m.layers[0].Resistance() + 1.0 / m.h)
    ensures |Profile(m)| == 3
    ensures Profile(m)[0] == m.tLeft
    ensures Profile(m)[1] == m.tLeft - m.Flux() * m.layers[0].Resistance()
    ensures Profile(m)[2] == m.tInf
  {
    var rs := m.ConductionResistances();
    assert rs[..1] == rs;
    assert Sum(rs) == m.layers[0].Resistance();
  }

  /** 50 mm at 0.04 W/(m K) and 100 mm at 0.12 W/(m K), from 20 degrees C to -10 degrees C with h = 25. */
  function WallModel(): (m: MultiLayerModel)
    ensures m.Valid()
  {
    MultiLayerModel([NewLayer(50.0, 0.04).value, NewLayer(100.0, 0.12).value], 20.0, -10.0, 25.0)
  }

  /**
   * The worked wall: R_total = 1.25 + 0.8333... + 0.04 = 637/300 m^2 K/W,
   * q = 9000/637 (about 14.13 W/m^2), and the interfaces sit at 1490/637 and
   * -6010/637 degrees C before the ambient -10.
   */
  lemma WallScenario()
    ensures WallModel().TotalResistance() == 637.0 / 300.0
    ensures WallModel().Flux() == 9000.0 / 637.0
    ensures Profile(WallModel()) == [20.0, 1490.0 / 637.0, -6010.0 / 637.0, -10.0]
  {
    var m := WallModel();
    var rs := m.ConductionResistances();
    assert rs[0] == 1.25 by { ResistanceFromMillimetres(m.layers[0]); }
    assert rs[1] == 0.1 / 0.12 by { ResistanceFromMillimetres(m.layers[1]); }
    assert rs[..1] == [rs[0]];
    assert rs[..2] == rs;
    assert Sum(rs[..1]) == 1.25;
    assert Sum(rs) == 1.25 + 0.1 / 0.12;
    assert m.TotalResistance() == 637.0 / 300.0;
    var q := m.Flux();
    assert q == 9000.0 / 637.0;
    var p := Profile(m);
    assert p[1] == 20.0 - q * 1.25;
    assert p[2] == 20.0 - q * (1.25 + 0.1 / 0.12);
  }
}
