# Campus bookkeeping model

This project models the `Campus` space of an agent-based commuting simulation. The campus
keeps four structures in step:

- **Facility registry.** An id map of buildings, plus three append-only role partitions:
  other buildings (function code 0), workplaces (1) and homes (2). A batch of agents fills
  them in `add_buildings`.
- **Commuter dual index.** Commuters are filed both by identity and by position, so a
  lookup by id or by position is direct.
- **Home occupancy counter.** A signed count per position.
- **Random accessors.** They pick a home or a workplace.

The spatial backend the campus builds on keeps its own geometric index, which is not
modelled. It appears only through the effect the campus relies on: relocating a commuter
sets the commuter's position.

Files:

- `agents.dfy` holds positions, buildings and commuters. `Building` and `Commuter` are
  classes, so distinct agents stay distinct objects, as they are in Python sets and lists.
  A position is a pair of reals. It is used only as a map key and compared only by
  equality.
- `registry.dfy` holds what one `add_buildings` call appends and files, as functions of
  the batch, with their lemmas.
- `home_counter.dfy` holds the counter as a map read with default 0, a single update,
  replays of many updates, and their lemmas.
- `campus.dfy` holds the class `Campus`. Its fields mirror the Python attributes. Its
  invariant `Valid()` has two parts. `BuildingsValid` says every building is filed under
  its own id, and every partition member has its partition's code and is on file.
  `CommutersValid` says the two commuter maps agree: a tracked commuter is in the bucket
  of its current position and in no other. Buckets may be empty.
- `scenarios.dfy` holds three client runs: one with a home and a workplace, one that adds
  and moves a commuter, and one with two counter updates. Their outcomes follow from the
  contracts alone.

Python raises `KeyError` on a missing id or bucket member, and `random.choice` fails on an
empty partition. The model states these failure points as preconditions.

## Model

| member | source | states |
|---|---|---|
| `Registry.ClassifiedMembers` | src/space/campus.py:47-55 | a building is in the partition of a code exactly when it is a building of the batch with that function code |
| `Registry.PartitionIsExact` | src/space/campus.py:47-55 | counted with multiplicity, the three partitions and the unclassified buildings together are exactly the batch's buildings, so each building goes to one partition or, for an unknown code, to none |
| `Registry.PartitionsDisjoint` | src/space/campus.py:50-55 | no building lands in the partitions of two different codes |
| `Registry.ClassifiedConcat` | src/space/campus.py:56-58 | classifying two batches in succession appends what classifying their concatenation gives: partitions keep input order and are never deduplicated |
| `Registry.LastWithId` | src/space/campus.py:48-49 | the index found holds a building with the id and no later agent is one; with no index found, no agent of the batch is a building with the id |
| `Registry.RegisteredLookup` | src/space/campus.py:48-49 | after registration an id is on file exactly when it was before or some building of the batch has it; the entry is the batch's last building with that id, and otherwise the earlier entry |
| `Registry.RegisteredKeepsIds` | src/space/campus.py:49 | registration keeps every entry under its own id, loses no id, and files the id of every building of the batch |
| `Registry.ClassifiedRegistered` | src/space/campus.py:47-55 | every partitioned building has that partition's code and is on file by its id after the call |
| `HomeCounter.Step` | src/space/campus.py:74-79 | one update lowers the count at the previous home by 1 when one is given and raises the count at the new home by 1; every other position keeps its count, with no floor at zero, and a move to the same home nets 0 |
| `HomeCounter.ReplayNet` | src/space/campus.py:74-79 | after any sequence of updates, the count at a position is its start value plus the increments there minus the decrements there |
| `HomeCounter.ReplayOrderIndependent` | src/space/campus.py:74-79 | making two runs of updates in either order gives the same count at every position |
| `CampusSpace.Campus.constructor` | src/space/campus.py:23-33 | a new campus has empty partitions, maps and counter, and satisfies the invariant |
| `CampusSpace.Campus.RandomHome` | src/space/campus.py:35-36 | with a non-empty home partition, the result is one of the homes, has the home code and is on file by its id |
| `CampusSpace.Campus.RandomWork` | src/space/campus.py:38-39 | with a non-empty workplace partition, the result is one of the workplaces, has the workplace code and is on file by its id |
| `CampusSpace.Campus.BuildingById` | src/space/campus.py:41-42 | for an id on file, the building returned carries that id |
| `CampusSpace.Campus.AddBuildings` | src/space/campus.py:44-58 | the id map becomes the batch's registration over the old map; each partition becomes the old partition followed by the batch's buildings of its code, in order; the invariant is kept |
| `CampusSpace.Campus.CommutersAt` | src/space/campus.py:60-61 | the result holds exactly the tracked commuters standing at the position, and is empty for a position never populated; reading files an empty bucket there and changes no bucket's contents |
| `CampusSpace.Campus.CommuterById` | src/space/campus.py:63-64 | for an id on file, the commuter returned carries that id and is in the bucket of its current position |
| `CampusSpace.Campus.BucketIsExact` | src/space/campus.py:66-68 | under the invariant, a commuter is in a position's bucket exactly when it is the commuter filed under its id and stands at that position |
| `CampusSpace.Campus.TrackCommuter` | src/space/campus.py:66-68 | the commuter joins the bucket of its current position and is filed under its id; the invariant holds afterwards exactly when the id was new or already belonged to this commuter |
| `CampusSpace.Campus.AddCommuter` | src/space/campus.py:70-72 | the same effect as tracking: the commuter is found by its id and in its position's bucket, and the invariant survives exactly when the id was new or already this commuter's |
| `CampusSpace.Campus.RemoveCommuter` | src/space/campus.py:88-93 | needs the id on file and the commuter in the bucket of where it stands; afterwards its id entry is gone, it is in no bucket, and the invariant holds |
| `CampusSpace.Campus.FastMove` | src/space/campus.py:83 | the commuter's position becomes the target |
| `CampusSpace.Campus.MoveCommuter` | src/space/campus.py:81-84 | needs the id on file and the commuter in its old bucket; afterwards it stands at the target, its id entry is as before, it has left the old bucket and is in the target's, every other bucket and every other commuter's position is unchanged, a move in place leaves the bucket as it was, and the invariant holds |
| `CampusSpace.Campus.UpdateHomeCounter` | src/space/campus.py:74-79 | the counter becomes one `HomeCounter.Step` of the old counter |

## Left out

- The spatial backend is not modelled. This covers the `crs` argument of the constructor,
  `register_class(Commuter)`, the `add_agents` calls in `add_buildings` and `add_commuter`,
  and the backend's own index. `FastMove` keeps only the backend's effect on the commuter's
  position.
- Positions are pairs of reals compared by exact equality. Float bit patterns, NaN and
  signed zero are not modelled; no arithmetic is done on positions.
- `random.choice` is modelled as an arbitrary choice of an element, not as a distribution.
- Function codes are reals compared with `==` against 0, 1 and 2, as the source compares
  floats.
- `CampusSpace.Campus.CommutersAt` returns the bucket as a value. In Python it returns the
  live set stored in the map, so a caller mutating it would change the index; that
  aliasing is not modelled.
- `CampusSpace.Campus.RemoveCommuter` requires both of its lookups to succeed. When the id
  is on file but the commuter is not in its bucket, Python deletes the id entry before
  raising `KeyError`, leaving that partial update behind. This error path is not modelled,
  and neither are the other `KeyError` and empty-choice raises; they are preconditions.
- `CampusSpace.Campus.MoveCommuter` requires the same two lookups, for the same reason.
- Commuter and building domain logic, including a commuter's home attribute, is not part of
  this model. Only ids, function codes and current positions are kept.
- The commented-out lines in `move_commuter` and `__remove_commuter` are not modelled.
