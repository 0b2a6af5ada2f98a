/** Concrete schedules worked through `init`'s loop body. */
module Scenarios {
  import opened Wrappers
  import opened Transit
  import opened RouterRegistry

  /**
   Two routes on different lines share shape "shp_42"; the first one's
   transport mode "rail" has no mode-routing entry. One router is
   constructed, with absent network modes and no error, and both routes
   hold it.
   */
  lemma SharedShapeAcrossLines()
    ensures var config := Config(map["bus" := {"bus", "car"}]);
      var k1 := RouteKey("L1", "R1");
      var k2 := RouteKey("L2", "R2");
      var shape := Shape("shp_42", []);
      var shapes := map[k1 := shape, k2 := shape];
      var visits := [Visit("L1", TransitRoute("R1", "rail")), Visit("L2", TransitRoute("R2", "bus"))];
      var reg := Run(Empty(), config, shapes, visits);
      && |reg.built| == 1
      && reg.built[0] == RouterSpec(None, shape)
      && reg.byShape == map["shp_42" := 0]
      && Registered(reg, "L1", "R1") && Registered(reg, "L2", "R2")
      && RouterAt(reg, "L1", "R1") == 0 && RouterAt(reg, "L2", "R2") == 0
  {
    var config := Config(map["bus" := {"bus", "car"}]);
    var shape := Shape("shp_42", []);
    var shapes := map[RouteKey("L1", "R1") := shape, RouteKey("L2", "R2") := shape];
    var v1 := Visit("L1", TransitRoute("R1", "rail"));
    var v2 := Visit("L2", TransitRoute("R2", "bus"));
    assert [v1, v2][..1] == [v1];
    assert [v1][..0] == [];
    assert "rail" !in config.modeRouting;
    var first := Step(Empty(), config, shapes, v1);
    assert Run(Empty(), config, shapes, [v1]) == first;
    assert first.built == [RouterSpec(None, shape)];
    assert first.byShape == map["shp_42" := 0];
    assert Run(Empty(), config, shapes, [v1, v2]) == Step(first, config, shapes, v2);
  }
}
