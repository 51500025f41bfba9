/**
  The agents the campus keeps track of, reduced to what the campus reads of them:
  a building's identity and function code, a commuter's identity and current position.
  Buildings and commuters are objects, so that two distinct agents are distinct even when
  their attributes coincide, as they are in Python's lists and sets.
 */
module Agents {

  /** A point coordinate `(x, y)`. The campus only uses it as a dictionary key, so it is
      compared by equality and nothing else. */
  datatype Position = Position(x: real, y: real)

  /** Function codes that classify a building. */
  const OtherCode: real := 0.0
  const WorkCode: real := 1.0
  const HomeCode: real := 2.0

  /** A stationary facility; nothing in the campus changes it. */
  class Building {
    const id: int
    const functionCode: real

    constructor (id: int, functionCode: real)
      ensures this.id == id && this.functionCode == functionCode
    {
      this.id := id;
      this.functionCode := functionCode;
    }
  }

  /** A mobile agent whose position the spatial backend updates in place. */
  class Commuter {
    const id: int
    var pos: Position

    constructor (id: int, pos: Position)
      ensures this.id == id && this.pos == pos
    {
      this.id := id;
      this.pos := pos;
    }
  }

  /** An element of the batch handed to `add_buildings`: a building, or any other kind
      of agent, which the classification skips. */
  datatype Agent = BuildingAgent(building: Building) | OtherAgent

}
