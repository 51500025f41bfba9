/**
  The facility registry as values: what one call of `add_buildings` appends to each
  role partition and writes into the id map, for a batch of agents. The campus's
  method is proved against these functions; the lemmas state what they mean.
 */
module Registry {

  import opened Wrappers
  import opened Agents

  predicate HasCode(a: Agent, code: real)
  {
    a.BuildingAgent? && a.building.functionCode == code
  }

  predicate IsUnclassified(a: Agent)
  {
    a.BuildingAgent? && !HasCode(a, OtherCode) && !HasCode(a, WorkCode) && !HasCode(a, HomeCode)
  }

  predicate IsBuildingWithId(a: Agent, id: int)
  {
    a.BuildingAgent? && a.building.id == id
  }

  /** The buildings of the batch whose function code is `code`, in batch order. */
  function Classified(agents: seq<Agent>, code: real): seq<Building>
  {
    if agents == [] then []
    else
      var last := agents[|agents| - 1];
      Classified(agents[..|agents| - 1], code) + (if HasCode(last, code) then [last.building] else [])
  }

  /** The buildings of the batch whose code is none of the three known ones. */
  function Unclassified(agents: seq<Agent>): seq<Building>
  {
    if agents == [] then []
    else
      var last := agents[|agents| - 1];
      Unclassified(agents[..|agents| - 1]) + (if IsUnclassified(last) then [last.building] else [])
  }

  /** Every building of the batch, in batch order; the other agents are skipped. */
  function BuildingsIn(agents: seq<Agent>): seq<Building>
  {
    if agents == [] then []
    else
      var last := agents[|agents| - 1];
      BuildingsIn(agents[..|agents| - 1]) + (if last.BuildingAgent? then [last.building] else [])
  }

  /** The id map after registering the batch's buildings one after another. */
  function Registered(m: map<int, Building>, agents: seq<Agent>): map<int, Building>
  {
    if agents == [] then m
    else
      var r := Registered(m, agents[..|agents| - 1]);
      var last := agents[|agents| - 1];
      if last.BuildingAgent? then r[last.building.id := last.building] else r
  }

  /** The index of the last building of the batch that has identity `id`, if any. */
  function LastWithId(agents: seq<Agent>, id: int): (r: Option<nat>)
    ensures r.Some? ==> r.value < |agents| && IsBuildingWithId(agents[r.value], id)
    ensures r.Some? ==> forall j :: r.value < j < |agents| ==> !IsBuildingWithId(agents[j], id)
    ensures r.None? ==> forall j :: 0 <= j < |agents| ==> !IsBuildingWithId(agents[j], id)
  {
    if agents == [] then None
    else if IsBuildingWithId(agents[|agents| - 1], id) then Some(|agents| - 1)
    else LastWithId(agents[..|agents| - 1], id)
  }

  /** A building lands in the partition of `code` exactly when it is in the batch with
      that function code. */
  lemma {:induction false} ClassifiedMembers(agents: seq<Agent>, code: real, b: Building)
    ensures b in Classified(agents, code) <==> BuildingAgent(b) in agents && b.functionCode == code
  {
    if agents != [] {
      var init := agents[..|agents| - 1];
      ClassifiedMembers(init, code, b);
      assert agents == init + [agents[|agents| - 1]];
    }
  }

  /** Two successive batches classify as their concatenation does: the partitions are
      append-only, never reordered. */
  lemma {:induction false} ClassifiedConcat(a: seq<Agent>, b: seq<Agent>, code: real)
    ensures Classified(a + b, code) == Classified(a, code) + Classified(b, code)
  {
    if b != [] {
      var init := b[..|b| - 1];
      ClassifiedConcat(a, init, code);
      assert (a + b)[..|a + b| - 1] == a + init;
    } else {
      assert a + b == a;
    }
  }

  /** Each building of the batch, counted with multiplicity, goes to exactly one of the
      three partitions or to none of them when its code is unknown. */
  lemma {:induction false} PartitionIsExact(agents: seq<Agent>)
    ensures multiset(Classified(agents, OtherCode)) + multiset(Classified(agents, WorkCode))
            + multiset(Classified(agents, HomeCode)) + multiset(Unclassified(agents))
            == multiset(BuildingsIn(agents))
  {
    if agents != [] {
      PartitionIsExact(agents[..|agents| - 1]);
    }
  }

  /** No building is in two partitions. */
  lemma PartitionsDisjoint(agents: seq<Agent>, code1: real, code2: real, b: Building)
    requires code1 != code2
    ensures !(b in Classified(agents, code1) && b in Classified(agents, code2))
  {
    ClassifiedMembers(agents, code1, b);
    ClassifiedMembers(agents, code2, b);
  }

  /** Looking an id up after registration finds the last building of the batch with
      that id, or else what was registered before. */
  lemma {:induction false} RegisteredLookup(m: map<int, Building>, agents: seq<Agent>, id: int)
    ensures id in Registered(m, agents) <==> id in m || LastWithId(agents, id).Some?
    ensures LastWithId(agents, id).Some? ==>
              Registered(m, agents)[id] == agents[LastWithId(agents, id).value].building
    ensures LastWithId(agents, id).None? && id in m ==> Registered(m, agents)[id] == m[id]
  {
    if agents != [] {
      RegisteredLookup(m, agents[..|agents| - 1], id);
    }
  }

  /** Registration keeps every entry filed under its own id, loses no id, and files the
      id of every building of the batch. */
  lemma {:induction false} RegisteredKeepsIds(m: map<int, Building>, agents: seq<Agent>)
    requires forall k :: k in m ==> m[k].id == k
    ensures forall k :: k in Registered(m, agents) ==> Registered(m, agents)[k].id == k
    ensures m.Keys <= Registered(m, agents).Keys
    ensures forall i :: 0 <= i < |agents| && agents[i].BuildingAgent? ==>
              agents[i].building.id in Registered(m, agents)
  {
    if agents != [] {
      RegisteredKeepsIds(m, agents[..|agents| - 1]);
    }
  }

  /** Every building of a partition has that partition's code and is on file by its id. */
  lemma ClassifiedRegistered(m: map<int, Building>, agents: seq<Agent>, code: real)
    requires forall k :: k in m ==> m[k].id == k
    ensures forall b :: b in Classified(agents, code) ==>
              b.functionCode == code && b.id in Registered(m, agents)
  {
    RegisteredKeepsIds(m, agents);
    forall b | b in Classified(agents, code)
      ensures b.functionCode == code && b.id in Registered(m, agents)
    {
      ClassifiedMembers(agents, code, b);
      var i :| 0 <= i < |agents| && agents[i] == BuildingAgent(b);
    }
  }

}
