/** In-memory store of open positions, keyed by position id (src/trader/live/position_store.py). */
module PositionStores {
  import opened Common
  import opened Schemas

  class PositionStore {
    var positions: map<PositionId, Position>

    constructor ()
      ensures positions == map[]
    {
      positions := map[];
    }

    // Adding an id that is already present overwrites it.
    method Add(p: Position)
      modifies this
      ensures positions == old(positions)[p.id := p]
    {
      positions := positions[p.id := p];
    }

    // Removing an unknown id is a no-op.
    method Remove(id: PositionId)
      modifies this
      ensures positions == old(positions) - {id}
    {
      positions := positions - {id};
    }

    method Get(id: PositionId) returns (p: Option<Position>)
      ensures p == if id in positions then Some(positions[id]) else None
    {
      if id in positions {
        p := Some(positions[id]);
      } else {
        p := None;
      }
    }
  }
}
