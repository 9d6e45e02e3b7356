/** The pre-trade risk gate with its daily kill switch, persisted across restarts
    (src/trader/risk/engine.py). Each call reads the calendar day once. */
module RiskEngines {
  import opened Common
  import opened Schemas

  datatype Params = Params(maxPositions: int, maxPremium: real, lossPct: real, maxSector: int)

  datatype Setting = Setting(
    params: Params,
    nav: real,
    injectedPnl: real,
    sectorOf: map<string, string>,
    sectorCounts: map<string, int>)

  // The state file.
  datatype Saved = Saved(date: int, pnl: real, kill: bool)

  datatype Engine = Engine(pnl: real, kill: bool, date: int)

  datatype Books = Books(engine: Engine, file: Option<Saved>)

  function LossLimit(s: Setting): real {
    -(s.nav * s.params.lossPct)
  }

  predicate Trips(s: Setting, pnl: real) {
    s.nav > 0.0 && pnl <= LossLimit(s)
  }

  function Persist(e: Engine, today: int): Option<Saved> {
    Some(Saved(today, e.pnl, e.kill))
  }

  // The switch latches; only a new day clears it.
  function EvaluateKill(s: Setting, b: Books, today: int): Books {
    if !b.engine.kill && Trips(s, b.engine.pnl) then
      var e := b.engine.(kill := true);
      Books(e, Persist(e, today))
    else b
  }

  // Start from the state file when it is from today; a stale file is deleted.
  function Start(s: Setting, file: Option<Saved>, today: int): Books {
    var loaded := file.Some? && file.value.date == today;
    var e := if loaded then Engine(file.value.pnl, file.value.kill, today) else Engine(s.injectedPnl, false, today);
    EvaluateKill(s, Books(e, if loaded then file else None), today)
  }

  function Roll(b: Books, today: int): Books {
    if b.engine.date == today then b
    else
      var e := Engine(0.0, false, today);
      Books(e, Persist(e, today))
  }

  function Record(s: Setting, b: Books, today: int, pnl: real): Books {
    var b1 := Roll(b, today);
    var b2 := EvaluateKill(s, b1.(engine := b1.engine.(pnl := b1.engine.pnl + pnl)), today);
    Books(b2.engine, Persist(b2.engine, today))
  }

  datatype Refusal = KillSwitch | PositionCap | PremiumCap | SectorCap

  function Verdict(s: Setting, b: Books, c: Candidate, open: int): seq<Refusal> {
    if b.engine.kill then [KillSwitch]
    else
      (if open >= s.params.maxPositions then [PositionCap] else []) +
      (if c.contract.Some? && c.contract.value.Mid() * 100.0 > s.params.maxPremium then [PremiumCap] else []) +
      (if c.ticker in s.sectorOf && SectorCount(s, s.sectorOf[c.ticker]) >= s.params.maxSector then [SectorCap] else [])
  }

  function SectorCount(s: Setting, sector: string): int {
    if sector in s.sectorCounts then s.sectorCounts[sector] else 0
  }

  class StateFile {
    var contents: Option<Saved>

    constructor ()
      ensures contents == None
    {
      contents := None;
    }
  }

  class RiskEngine {
    const setting: Setting
    const file: StateFile
    var dailyPnl: real
    var killSwitch: bool
    var stateDate: int

    ghost function State(): Books
      reads this, file
    {
      Books(Engine(dailyPnl, killSwitch, stateDate), file.contents)
    }

    constructor (setting: Setting, file: StateFile, today: int)
      modifies file
      ensures this.setting == setting && this.file == file
      ensures State() == Start(setting, old(file.contents), today)
    {
      this.setting, this.file := setting, file;
      dailyPnl, killSwitch, stateDate := setting.injectedPnl, false, today;
      new;
      LoadState(today);
      EvaluateThreshold(today);
    }

    method LoadState(today: int)
      modifies this`dailyPnl, this`killSwitch, file
      ensures var saved := old(file.contents);
              if saved.Some? && saved.value.date == today
              then dailyPnl == saved.value.pnl && killSwitch == saved.value.kill && file.contents == saved
              else dailyPnl == old(dailyPnl) && killSwitch == old(killSwitch) && file.contents == None
    {
      if file.contents.None? {
        return;
      }
      var saved := file.contents.value;
      if saved.date != today {
        file.contents := None;
        return;
      }
      dailyPnl := saved.pnl;
      killSwitch := saved.kill;
    }

    method EvaluateThreshold(today: int)
      modifies this`killSwitch, file
      ensures State() == EvaluateKill(setting, old(State()), today)
      ensures killSwitch <==>
              old(killSwitch) || (setting.nav > 0.0 && dailyPnl <= -(setting.nav * setting.params.lossPct))
      ensures file.contents == if killSwitch && !old(killSwitch) then Some(Saved(today, dailyPnl, true))
                               else old(file.contents)
    {
      if killSwitch || setting.nav <= 0.0 {
        return;
      }
      var threshold := -(setting.nav * setting.params.lossPct);
      if dailyPnl <= threshold {
        killSwitch := true;
        PersistState(today);
      }
    }

    method PersistState(today: int)
      modifies file
      ensures file.contents == Persist(State().engine, today)
    {
      file.contents := Some(Saved(today, dailyPnl, killSwitch));
    }

    method MaybeRollDay(today: int)
      modifies this, file
      ensures State() == Roll(old(State()), today)
    {
      if today == stateDate {
        return;
      }
      stateDate := today;
      dailyPnl := 0.0;
      killSwitch := false;
      PersistState(today);
    }

    method RecordPnl(today: int, pnl: real)
      modifies this, file
      ensures State() == Record(setting, old(State()), today, pnl)
    {
      MaybeRollDay(today);
      dailyPnl := dailyPnl + pnl;
      EvaluateThreshold(today);
      PersistState(today);
    }

    // `open` is the live position count. An empty list of refusals is an approval.
    method Check(today: int, c: Candidate, open: int) returns (refusals: seq<Refusal>)
      modifies this, file
      ensures State() == Roll(old(State()), today)
      ensures refusals == Verdict(setting, State(), c, open)
    {
      MaybeRollDay(today);
      if killSwitch {
        return [KillSwitch];
      }
      refusals := [];
      if open >= setting.params.maxPositions {
        refusals := refusals + [PositionCap];
      }
      if c.contract.Some? {
        var cost := c.contract.value.Mid() * 100.0;
        if cost > setting.params.maxPremium {
          refusals := refusals + [PremiumCap];
        }
      }
      if c.ticker in setting.sectorOf {
        var sector := setting.sectorOf[c.ticker];
        var count := if sector in setting.sectorCounts then setting.sectorCounts[sector] else 0;
        if count >= setting.params.maxSector {
          refusals := refusals + [SectorCap];
        }
      }
    }
  }
}
