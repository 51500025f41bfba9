/**
  The campus: a facility registry with three role partitions, a commuter index kept both
  by identity and by position, and a home occupancy counter. The spatial backend it
  builds on is reduced to the one effect the campus relies on, that a relocation sets
  the commuter's position.
 */
module CampusSpace {

  import opened Wrappers
  import opened Agents
  import Registry
  import HomeCounter

  class Campus {
    var homes: seq<Building>
    var works: seq<Building>
    var otherBuildings: seq<Building>
    var homeCounter: map<Position, int>
    var buildings: map<int, Building>
    var commutersByPos: map<Position, set<Commuter>>
    var commutersById: map<int, Commuter>

    /** The set a `defaultdict(set)` reads at `p`. */
    function Bucket(p: Position): set<Commuter>
      reads this`commutersByPos
    {
      if p in commutersByPos then commutersByPos[p] else {}
    }

    /** Every building is filed under its own id, and every building of a partition has
        that partition's code and can be looked up by its id. */
    ghost predicate BuildingsValid()
      reads this`buildings, this`homes, this`works, this`otherBuildings
    {
      && (forall k :: k in buildings ==> buildings[k].id == k)
      && (forall b :: b in otherBuildings ==> b.functionCode == OtherCode && b.id in buildings)
      && (forall b :: b in works ==> b.functionCode == WorkCode && b.id in buildings)
      && (forall b :: b in homes ==> b.functionCode == HomeCode && b.id in buildings)
    }

    /** The two commuter indexes agree: every commuter known by its id is in the bucket of
        its current position, and every member of a bucket is the commuter known by its id
        and stands at that bucket's position, so it is in no other bucket. Buckets may be
        empty. */
    ghost predicate CommutersValid()
      reads this`commutersById, this`commutersByPos, commutersById.Values
    {
      && (forall id :: id in commutersById ==>
            commutersById[id].id == id && commutersById[id] in Bucket(commutersById[id].pos))
      && (forall p, c :: p in commutersByPos && c in commutersByPos[p] ==>
            c.id in commutersById && commutersById[c.id] == c && commutersById[c.id].pos == p)
    }

    /** The commuter is the one filed under its id. */
    predicate IsTracked(c: Commuter)
      reads this`commutersById
    {
      c.id in commutersById && commutersById[c.id] == c
    }

    ghost predicate Valid()
      reads this`buildings, this`homes, this`works, this`otherBuildings
      reads this`commutersById, this`commutersByPos, commutersById.Values
    {
      BuildingsValid() && CommutersValid()
    }

    /** With the indexes consistent, a commuter is in the bucket of a position exactly when
        it is the commuter filed under its id and stands at that position: a tracked
        commuter is in the bucket of its current position and in no other one. */
    lemma BucketIsExact(c: Commuter, p: Position)
      requires Valid()
      ensures c in Bucket(p) <==> IsTracked(c) && c.pos == p
    {
    }

    constructor ()
      ensures Valid()
      ensures homes == [] && works == [] && otherBuildings == []
      ensures homeCounter == map[] && buildings == map[]
      ensures commutersByPos == map[] && commutersById == map[]
    {
      homes, works, otherBuildings := [], [], [];
      homeCounter := map[];
      buildings := map[];
      commutersByPos := map[];
      commutersById := map[];
    }

    /** `random.choice(self.homes)`: some home, any of them. */
    method RandomHome() returns (b: Building)
      requires BuildingsValid()
      requires |homes| > 0
      ensures b in homes && b.functionCode == HomeCode && b.id in buildings
    {
      var i :| 0 <= i < |homes|;
      b := homes[i];
    }

    /** `random.choice(self.works)`: some workplace, any of them. */
    method RandomWork() returns (b: Building)
      requires BuildingsValid()
      requires |works| > 0
      ensures b in works && b.functionCode == WorkCode && b.id in buildings
    {
      var i :| 0 <= i < |works|;
      b := works[i];
    }

    /** `self._buildings[unique_id]`; a missing id raises, so it is required present. */
    function BuildingById(id: int): (b: Building)
      reads this`buildings, this`homes, this`works, this`otherBuildings
      requires BuildingsValid() && id in buildings
      ensures b.id == id
    {
      buildings[id]
    }

    /** Files every building of the batch under its id and appends it to the partition of
        its function code; other agents are skipped, unknown codes join no partition. */
    method AddBuildings(agents: seq<Agent>)
      requires Valid()
      modifies this`buildings, this`homes, this`works, this`otherBuildings
      ensures Valid()
      ensures buildings == Registry.Registered(old(buildings), agents)
      ensures otherBuildings == old(otherBuildings) + Registry.Classified(agents, OtherCode)
      ensures works == old(works) + Registry.Classified(agents, WorkCode)
      ensures homes == old(homes) + Registry.Classified(agents, HomeCode)
    {
      var newHomes, newWorks, newOthers := [], [], [];
      var i := 0;
      while i < |agents|
        invariant 0 <= i <= |agents|
        invariant buildings == Registry.Registered(old(buildings), agents[..i])
        invariant newOthers == Registry.Classified(agents[..i], OtherCode)
        invariant newWorks == Registry.Classified(agents[..i], WorkCode)
        invariant newHomes == Registry.Classified(agents[..i], HomeCode)
        invariant otherBuildings == old(otherBuildings) && works == old(works) && homes == old(homes)
      {
        assert agents[..i + 1][..i] == agents[..i];
        match agents[i] {
          case BuildingAgent(b) =>
            buildings := buildings[b.id := b];
            if b.functionCode == OtherCode {
              newOthers := newOthers + [b];
            } else if b.functionCode == WorkCode {
              newWorks := newWorks + [b];
            } else if b.functionCode == HomeCode {
              newHomes := newHomes + [b];
            }
          case OtherAgent =>
        }
        i := i + 1;
      }
      assert agents[..i] == agents;
      otherBuildings := otherBuildings + newOthers;
      works := works + newWorks;
      homes := homes + newHomes;
      Registry.RegisteredKeepsIds(old(buildings), agents);
      Registry.ClassifiedRegistered(old(buildings), agents, OtherCode);
      Registry.ClassifiedRegistered(old(buildings), agents, WorkCode);
      Registry.ClassifiedRegistered(old(buildings), agents, HomeCode);
    }
  
    /** `self._commuters_pos_map[float_pos]`. Reading the defaultdict files an empty
        bucket under a position not seen before; the commuters seen are exactly those
        known by id that stand at that position. */
    method CommutersAt(p: Position) returns (s: set<Commuter>)
      requires Valid()
      modifies this`commutersByPos
      ensures Valid()
      ensures s == old(Bucket(p))
      ensures forall c :: c in s <==> IsTracked(c) && c.pos == p
      ensures commutersByPos == old(commutersByPos)[p := s]
    {
      if p !in commutersByPos {
        commutersByPos := commutersByPos[p := {}];
      }
      s := commutersByPos[p];
    }

    /** `self._commuter_id_map[commuter_id]`; a missing id raises, so it is required
        present. The commuter found carries that id and is in the bucket of its position. */
    function CommuterById(id: int): (c: Commuter)
      reads this`commutersById, this`commutersByPos, commutersById.Values
      reads this`buildings, this`homes, this`works, this`otherBuildings
      requires Valid() && id in commutersById
      ensures c.id == id && c in Bucket(c.pos)
    {
      commutersById[id]
    }

    /** Files the commuter in the bucket of its current position and under its id. No
        check is made on the id: the indexes stay consistent exactly when the id is new or
        already belongs to this same commuter; a different commuter with the same id is
        left behind in its bucket, no longer reachable by id. */
    method TrackCommuter(c: Commuter)
      requires Valid()
      modifies this`commutersById, this`commutersByPos
      ensures commutersByPos == old(commutersByPos)[c.pos := old(Bucket(c.pos)) + {c}]
      ensures commutersById == old(commutersById)[c.id := c]
      ensures Valid() <==> c.id !in old(commutersById) || old(commutersById)[c.id] == c
    {
      ghost var before := commutersById;
      commutersByPos := commutersByPos[c.pos := Bucket(c.pos) + {c}];
      commutersById := commutersById[c.id := c];
      if c.id in before && before[c.id] != c {
        var d := before[c.id];
        assert d in commutersByPos[d.pos];
      }
    }

    /** Hands the commuter to the spatial backend, which is not modelled, and tracks it. */
    method AddCommuter(c: Commuter)
      requires Valid()
      modifies this`commutersById, this`commutersByPos
      ensures commutersByPos == old(commutersByPos)[c.pos := old(Bucket(c.pos)) + {c}]
      ensures commutersById == old(commutersById)[c.id := c]
      ensures Valid() <==> c.id !in old(commutersById) || old(commutersById)[c.id] == c
    {
      TrackCommuter(c);
    }

    /** Deletes the commuter's id entry, then removes it from the bucket of the position it
        stands at. Either step raises when its key or member is missing, so both are
        required; with the indexes consistent, together they say that the commuter is the
        one known by its id. */
    method RemoveCommuter(c: Commuter)
      requires Valid()
      requires c.id in commutersById && c in Bucket(c.pos)
      modifies this`commutersById, this`commutersByPos
      ensures Valid()
      ensures commutersById == old(commutersById) - {c.id}
      ensures commutersByPos == old(commutersByPos)[c.pos := old(Bucket(c.pos)) - {c}]
      ensures !IsTracked(c) && c !in commutersById.Values && forall p :: c !in Bucket(p)
    {
      commutersById := commutersById - {c.id};
      commutersByPos := commutersByPos[c.pos := Bucket(c.pos) - {c}];
      assert forall k :: k in commutersById ==> commutersById[k] != c;
    }

    /** The spatial backend's relocation, reduced to its effect on the commuter. */
    method FastMove(c: Commuter, pos: Position)
      modifies c
      ensures c.pos == pos
    {
      c.pos := pos;
    }

    /** Removes the commuter at the position it stands at, relocates it, and files it again
        at its new position. Only the commuter's own bucket entries change; its id entry
        ends as it began, and moving it where it already stands changes no bucket. */
    method MoveCommuter(c: Commuter, pos: Position)
      requires Valid()
      requires c.id in commutersById && c in Bucket(c.pos)
      modifies this`commutersById, this`commutersByPos, c
      ensures Valid()
      ensures c.pos == pos
      ensures commutersById == old(commutersById)
      ensures commutersByPos.Keys == old(commutersByPos).Keys + {pos}
      ensures forall p :: Bucket(p) == if p == pos then old(Bucket(p)) + {c} else old(Bucket(p)) - {c}
      ensures pos == old(c.pos) ==> Bucket(pos) == old(Bucket(pos))
      ensures forall d :: IsTracked(d) && d != c ==> d.pos == old(d.pos)
    {
      RemoveCommuter(c);
      FastMove(c, pos);
      TrackCommuter(c);
    }

    /** Moves one unit of home occupancy from the previous home, when there is one, to the
        new home. */
    method UpdateHomeCounter(oldHome: Option<Position>, newHome: Position)
      modifies this`homeCounter
      ensures homeCounter == HomeCounter.Step(old(homeCounter), oldHome, newHome)
    {
      if oldHome.Some? {
        homeCounter := homeCounter[oldHome.value := HomeCounter.Count(homeCounter, oldHome.value) - 1];
      }
      homeCounter := homeCounter[newHome := HomeCounter.Count(homeCounter, newHome) + 1];
    }
  }
}
