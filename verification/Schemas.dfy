/** Records that several components pass around: contracts, GEX setups, candidates, live positions. */
module Schemas {
  import opened Common

  datatype OptionKind = Call | Put

  datatype Contract = Contract(ticker: string, expiry: int, strike: real, kind: OptionKind, bid: real, ask: real) {
    function Mid(): real {
      (bid + ask) / 2.0
    }
  }

  datatype Regime = Positive | Negative | Mixed

  datatype Direction = GoCall | GoPut | NoTrade

  datatype SetupType = Pin | Momentum | NoSetup

  datatype Wall = Wall(strike: real, netGex: real, distance: real)

  datatype Setup = Setup(
    spot: real,
    regime: Regime,
    flip: Option<real>,
    callWall: Option<Wall>,
    putWall: Option<Wall>,
    target: Option<real>,
    direction: Direction,
    setupType: SetupType,
    confidence: real)
  {
    // The wall on the side of the contract being held.
    function HeldWall(kind: OptionKind): Option<Wall> {
      if kind.Call? then callWall else putWall
    }

    predicate Supports(kind: OptionKind) {
      if kind.Call? then direction.GoCall? else direction.GoPut?
    }
  }

  datatype Candidate = Candidate(
    ticker: string,
    contract: Option<Contract>,
    setup: Setup,
    proposed: bool,
    composite: real)

  // What a position is kept under: the order that bought it, the instrument a restart found it on (or its
  // contract when that is unknown), or the trade of a replay.
  datatype PositionId =
    | OrderKey(order: nat)
    | InstrumentKey(instrument: nat)
    | ContractKey(ticker: string, expiry: int, strike: real, kind: OptionKind)
    | ReplayKey(trade: nat)

  // A live position.
  datatype Position = Position(
    id: PositionId,
    contract: Contract,
    entry: real,
    target: Option<real>,
    openedAt: int,
    quantity: int,
    instrument: Option<nat>,
    peak: Option<real>,
    entrySetup: Option<Setup>)
}
