/**
  Client code: three short runs of the campus whose outcomes follow from the contracts
  alone.
 */
module Scenarios {

  import opened Wrappers
  import opened Agents
  import opened CampusSpace
  import Registry
  import HomeCounter

  /** One home and one workplace: a random home is the home, a random workplace is the
      workplace, and an id nobody registered is not on file. */
  method FacilityScenario()
  {
    var campus := new Campus();
    var home := new Building(1, HomeCode);
    var work := new Building(2, WorkCode);
    var batch := [BuildingAgent(home), BuildingAgent(work)];
    assert batch[..1] == [BuildingAgent(home)] && batch[..1][..0] == [];
    assert Registry.Classified(batch[..1], HomeCode) == [home];
    assert Registry.Classified(batch[..1], WorkCode) == [];
    campus.AddBuildings(batch);
    assert campus.homes == [home] && campus.works == [work];
    var h := campus.RandomHome();
    assert h == home;
    var w := campus.RandomWork();
    assert w == work;
    Registry.RegisteredLookup(map[], batch, 3);
    assert 3 !in campus.buildings;
  }

  /** A commuter added at (1, 1) and moved to (2, 2) is found there and nowhere else. */
  method CommuterScenario()
  {
    var campus := new Campus();
    var here, there := Position(1.0, 1.0), Position(2.0, 2.0);
    var c := new Commuter(10, here);
    campus.AddCommuter(c);
    var s := campus.CommutersAt(here);
    assert s == {c};
    campus.MoveCommuter(c, there);
    s := campus.CommutersAt(here);
    assert s == {};
    s := campus.CommutersAt(there);
    assert s == {c};
    assert campus.CommuterById(10).pos == there;
  }

  /** A first home at (1, 1), then a move to (2, 2): one unit at (2, 2), none at (1, 1). */
  method HomeCounterScenario()
  {
    var campus := new Campus();
    var here, there := Position(1.0, 1.0), Position(2.0, 2.0);
    campus.UpdateHomeCounter(None, here);
    campus.UpdateHomeCounter(Some(here), there);
    assert HomeCounter.Count(campus.homeCounter, here) == 0;
    assert HomeCounter.Count(campus.homeCounter, there) == 1;
  }

}
