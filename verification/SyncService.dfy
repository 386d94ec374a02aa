/**
 TradeDataSyncService: the run that pulls, writes, pulls again and writes again. Every persistent
 effect is logged, and so is every loss of a file that comes between two of them; Valid() says that the log
 is a possible history that leads to the present state, so the process may be stopped after any beginning of it.
 */
module SyncService {
  import opened Common
  import opened Paths
  import opened Writer
  import opened SyncProtocol
  import opened SyncRuns
  import opened SyncMixes
  import opened SyncUnits
  import opened SyncLosses
  import opened SyncRounds
  import H = HostServer

  // ---- loading -----------------------------------------------------------------

  method LoadMarket(input: RunInput, a: Account, market: Market, types: seq<TradeDataType>)
    returns (units: seq<SyncUnit>)
    ensures fresh(units) && SpecsOf(units) == TypeUnits(input, a, market, types)
  {
    units := [];
    for i := 0 to |types|
      invariant fresh(units) && SpecsOf(units) == TypeUnits(input, a, market, types[..i])
    {
      assert types[..i + 1][..i] == types[..i];
      var unit := new SyncUnit(KeyOf(input, a, market, types[i]), a.keys);
      assert SpecsOf(units + [unit]) == SpecsOf(units) + [UnitSpec(unit.key, unit.keys)];
      units := units + [unit];
    }
    assert types[..|types|] == types;
  }

  method LoadAccount(input: RunInput, a: Account, types: seq<TradeDataType>) returns (units: seq<SyncUnit>)
    ensures fresh(units) && SpecsOf(units) == MarketUnits(input, a, Markets(a), types)
  {
    units := [];
    var markets := Markets(a);
    for i := 0 to |markets|
      invariant fresh(units) && SpecsOf(units) == MarketUnits(input, a, markets[..i], types)
    {
      assert markets[..i + 1][..i] == markets[..i];
      if input.markets != [] && markets[i] !in input.markets {
        continue;
      }
      var more := LoadMarket(input, a, markets[i], types);
      assert SpecsOf(units + more) == SpecsOf(units) + SpecsOf(more);
      units := units + more;
    }
    assert markets[..|markets|] == markets;
  }

  method LoadUnits(input: RunInput, accounts: seq<Account>, types: seq<TradeDataType>) returns (units: seq<SyncUnit>)
    requires WellFormedAccounts(accounts) && ResolveDataTypes(input) == Ok(types)
    ensures fresh(units) && ExactUnits(SpecsOf(units), input, accounts)
    ensures DistinctKeyed(units) && (PlainNames(input, accounts) ==> WellKeyed(units))
    ensures forall u :: u in units ==> MatchesFilter(u.key, FilterOf(input, types))
  {
    hide WellFormedAccounts, PlainNames;
    units := [];
    for i := 0 to |accounts|
      invariant fresh(units) && SpecsOf(units) == Units(input, accounts[..i], types)
    {
      assert accounts[..i + 1][..i] == accounts[..i];
      if input.fundAccounts != [] && accounts[i].account !in input.fundAccounts {
        continue;
      }
      var more := LoadAccount(input, accounts[i], types);
      assert SpecsOf(units + more) == SpecsOf(units) + SpecsOf(more);
      units := units + more;
    }
    assert accounts[..|accounts|] == accounts;
    ResolvedTypes(input);
    UnitsHaveShape(input, accounts, types);
    UnitsExactly(input, accounts, types);
    ShapeOfUnits(units, input, accounts, types);
  }

  lemma ShapeOfUnits(units: seq<SyncUnit>, input: RunInput, accounts: seq<Account>, types: seq<TradeDataType>)
    requires UnitsShape(SpecsOf(units), input, accounts, types)
    ensures DistinctKeyed(units) && (PlainNames(input, accounts) ==> WellKeyed(units))
    ensures forall u :: u in units ==> MatchesFilter(u.key, FilterOf(input, types))
  {
    hide PlainNames, SafeName, UnitKey;
    var specs := SpecsOf(units);
    forall i | 0 <= i < |units|
      ensures MatchesFilter(units[i].key, FilterOf(input, types))
      ensures PlainNames(input, accounts) ==> UnitKey(units[i].key) && SafeName(units[i].keys.brokerKey)
    {
      assert specs[i] in specs && specs[i].key == units[i].key && specs[i].keys == units[i].keys;
      if PlainNames(input, accounts) {
        UnitsArePlain(specs, input, accounts, types);
      }
    }
    forall i, j | 0 <= i < j < |units|
      ensures units[i].key != units[j].key
    {
      assert specs[i].key != specs[j].key;
    }
  }

  // ---- whole runs --------------------------------------------------------------

  /** Every unit was pulled and written before, and its file is still there. */
  ghost predicate AllSettledBefore(steps: map<StepKey, SyncStep>, files: map<string, Content>, keys: seq<StepKey>) {
    forall k :: k in keys ==> k in steps && !NeedsPull(steps[k], files) && WriteOk(steps[k])
  }

  function Stamped(steps: map<StepKey, SyncStep>, keys: seq<StepKey>, opsTaskId: int): map<StepKey, SyncStep> {
    map k | k in steps :: if k in keys then steps[k].(opsTaskId := Some(opsTaskId)) else steps[k]
  }

  /** Rows of other units change only by the reset of a forced run, and only the run's units get new rows. */
  ghost predicate RowsAfter(a: map<StepKey, SyncStep>, b: map<StepKey, SyncStep>, input: RunInput,
                            keys: seq<StepKey>)
  {
    && (forall k :: k in a ==> k in b && b[k].id == a[k].id)
    && (forall k :: k in a && k !in keys ==>
          b[k] == if input.force && Named(input, k)
                  then a[k].(pullStatus := PENDING, writeStatus := PENDING, pullError := None, writeError := None)
                  else a[k])
    && (forall k :: k in b && k !in a ==> k in keys)
  }

  lemma KeyOwners(units: seq<SyncUnit>)
    ensures forall k :: k in KeysOf(units) <==> exists u :: u in units && u.key == k
  {
    forall k: StepKey
      ensures k in KeysOf(units) <==> exists u :: u in units && u.key == k
    {
      if k in KeysOf(units) {
        var i :| 0 <= i < |units| && KeysOf(units)[i] == k;
        assert units[i] in units;
      }
      if u :| u in units && u.key == k {
        var i :| 0 <= i < |units| && units[i] == u;
        assert KeysOf(units)[i] == k;
      }
    }
  }

  /** A run up to its rounds: the reset of a forced run, and effects with losses between them. */
  lemma Prepared(dir: string, p0: Point, p1: Point, p2: Point, p3: Point, scope: Scope, force: bool)
    requires RunLog(dir, p0.log, p1.log, scope, force) && p1.files == p0.files && p1.lost == p0.lost
    requires Meanwhile(dir, p1, p2, scope) && Meanwhile(dir, p2, p3, scope)
    ensures RunLog(dir, p0.log, p3.log, scope, force) && Intact(dir, p0, p3) && Fewer(p0.files, p3.files)
  {
    hide RunLog, Kept, LostBetween, BelongsTo;
    MeanwhileMore(dir, p1, p2, p3, scope);
    RunLogIsPrefix(dir, p0.log, p1.log, scope, force);
    RunLogMore(dir, p0.log, p1.log, p3.log, scope, force);
    IntactMore(dir, p0, p1, p3);
  }

  /** What preparing makes of the rows. */
  lemma PreparedRows(s0: map<StepKey, SyncStep>, s1: map<StepKey, SyncStep>, s2: map<StepKey, SyncStep>,
                     s3: map<StepKey, SyncStep>, input: RunInput, types: seq<TradeDataType>, units: seq<SyncUnit>)
    requires WellKeyed(units) && forall u :: u in units ==> MatchesFilter(u.key, FilterOf(input, types))
    requires s1 == if input.force then Reset(s0, FilterOf(input, types)) else s0
    requires forall k :: k in s1 ==> k in s2 && s2[k] == s1[k]
    requires forall k :: k in s2 && k !in s1 ==> Untouched(s2[k]) && exists u :: u in units && u.key == k
    requires s3.Keys == s2.Keys && OnlyRowsOf(s2, s3, units)
    requires forall u :: u in units ==> u.key in s2 && s3[u.key] == s2[u.key].(opsTaskId := Some(input.opsTaskId))
    ensures forall k :: k in s0 && k !in KeysOf(units) ==>
              k in s3 && s3[k] == if input.force then Reset(s0, FilterOf(input, types))[k] else s0[k]
    ensures forall k :: k in s3 ==> k in s0 || k in KeysOf(units)
    ensures forall u :: u in units && u.key in s0 ==>
              s3[u.key] == (if input.force then ResetStep(s0[u.key]) else s0[u.key])
                           .(opsTaskId := Some(input.opsTaskId))
    ensures forall u :: u in units && u.key !in s0 ==>
              s3[u.key] == NewStep(s3[u.key].id).(opsTaskId := Some(input.opsTaskId))
  {
    hide MatchesFilter, KeysOf, UnitKey, SafeName;
    forall u | u in units
      ensures u.key in KeysOf(units)
    {
      KeyListed(units, units, u);
    }
  }

  /** Preparing, the rounds and the warnings: the log of a run, its files, and what it makes of its units. */
  lemma RunComposes(dir: string, p0: Point, p1: Point, p2: Point, scope: Scope, force: bool)
    requires RunLog(dir, p0.log, p1.log, scope, force) && Intact(dir, p0, p1)
    requires Grew(dir, p1.log, p2.log, scope) && Intact(dir, p1, p2)
    ensures RunLog(dir, p0.log, p2.log, scope, force) && Intact(dir, p0, p2) && p0.log <= p1.log <= p2.log
  {
    hide RunLog, Kept, Intact, Grew;
    RunLogIsPrefix(dir, p0.log, p1.log, scope, force);
    GrewIsPrefix(dir, p1.log, p2.log, scope);
    RunLogMore(dir, p0.log, p1.log, p2.log, scope, force);
    IntactMore(dir, p0, p1, p2);
  }

  /** Writing the warnings changes nothing of what the rounds have done; only files may be lost meanwhile. */
  lemma ReportKeeps(dir: string, p0: Point, p1: Point, p2: Point, units: seq<SyncUnit>, scope: Scope, force: bool,
                    healthy: bool)
    requires RunLog(dir, p0.log, p1.log, scope, force) && Intact(dir, p0, p1) && Meanwhile(dir, p1, p2, scope)
    requires RowsOwn(dir, p1.steps) && p2.steps == p1.steps
    requires forall k :: k in KeysOf(units) ==> Treated(dir, p0.log, p1.log, p1.steps, p1.files, k)
    requires healthy ==> AllWentWell(dir, p0.log, p1.log, SpecsOf(units), p1.steps, p1.files)
    ensures RunLog(dir, p0.log, p2.log, scope, force) && Intact(dir, p0, p2) && p0.log <= p1.log <= p2.log
    ensures forall k :: k in KeysOf(units) ==> Treated(dir, p0.log, p2.log, p2.steps, p2.files, k)
    ensures healthy ==> AllWentWell(dir, p0.log, p2.log, SpecsOf(units), p2.steps, p2.files)
  {
    hide RunLog, Meanwhile, Intact, Treated, AllWentWell, RowsOwn, KeysOf, SpecsOf, Grew, Proceeds, Fewer;
    MeanwhileProceeds(dir, p1, p2, scope);
    MeanwhileGrew(dir, p1, p2, scope);
    RunComposes(dir, p0, p1, p2, scope, force);
    forall k | k in KeysOf(units)
      ensures Treated(dir, p0.log, p2.log, p2.steps, p2.files, k)
    {
      StillTreated(dir, p0.log, p0.log, p1, p2, k);
    }
    if healthy {
      StillWell(dir, p0.log, p0.log, p1.log, p2.log, SpecsOf(units), p2.steps, p1.files, p2.files);
    }
  }

  /** Preparing and the rounds together. */
  lemma RowsAfterRun(a: map<StepKey, SyncStep>, b: map<StepKey, SyncStep>, c: map<StepKey, SyncStep>,
                     input: RunInput, types: seq<TradeDataType>, keys: seq<StepKey>)
    requires forall k :: k in a && k !in keys ==>
               k in b && b[k] == if input.force then Reset(a, FilterOf(input, types))[k] else a[k]
    requires (forall k :: k in b ==> k in a || k in keys) && c.Keys == b.Keys
    requires forall k :: k in c && k !in keys ==> c[k] == b[k]
    requires forall k :: k in a ==> k in c && c[k].id == a[k].id
    requires input.force ==> ResolveDataTypes(input) == Ok(types)
    ensures RowsAfter(a, c, input, keys)
  {
    hide ResolveDataTypes, MatchesFilter, Named;
    if input.force {
      forall k: StepKey
        ensures MatchesFilter(k, FilterOf(input, types)) <==> Named(input, k)
      {
        ResetNames(input, types, k);
      }
    }
  }

  /** Stamping leaves settled units settled. */
  lemma StampedStillSettled(a: map<StepKey, SyncStep>, b: map<StepKey, SyncStep>, files: map<string, Content>,
                            units: seq<SyncUnit>, opsTaskId: int)
    requires AllSettledBefore(a, files, KeysOf(units))
    requires forall k :: k in a && k !in KeysOf(units) ==> k in b && b[k] == a[k]
    requires forall k :: k in b ==> k in a || k in KeysOf(units)
    requires forall u :: u in units && u.key in a ==> u.key in b && b[u.key] == a[u.key].(opsTaskId := Some(opsTaskId))
    ensures b == Stamped(a, KeysOf(units), opsTaskId)
    ensures forall u :: u in units ==> u.key in b && !NeedsPull(b[u.key], files) && WriteOk(b[u.key])
    ensures forall k :: k in KeysOf(units) ==> k in b && FullyOk(b[k])
  {
    KeyOwners(units);
  }

  /** After the reset of a forced run every unit is due to be pulled. */
  lemma ForcedNeedPull(a: map<StepKey, SyncStep>, b: map<StepKey, SyncStep>, files: map<string, Content>,
                       units: seq<SyncUnit>, opsTaskId: int)
    requires forall u :: u in units && u.key in a ==>
               u.key in b && b[u.key] == ResetStep(a[u.key]).(opsTaskId := Some(opsTaskId))
    requires forall u :: u in units && u.key !in a ==>
               u.key in b && b[u.key] == NewStep(b[u.key].id).(opsTaskId := Some(opsTaskId))
    ensures forall u :: u in units ==> u.key in b && NeedsPull(b[u.key], files)
  {
  }

  class TradeDataSyncService {
    const tradeDataDir: string
    const writer: TradeDataSyncWriter
    var steps: map<StepKey, SyncStep>
    var files: map<string, Content>
    var warnings: multiset<Warning>
    var commands: multiset<StepKey>
    var nextStepId: nat
    var nextCommandId: nat

    ghost const start: Store
    ghost var lost: set<StepKey>
    ghost var committed: set<StepKey>
    ghost var log: seq<Effect>

    /** A process starts from whatever the processes before it left. */
    constructor (ghost s: Store, writer: TradeDataSyncWriter, dir: string, steps: map<StepKey, SyncStep>,
                 files: map<string, Content>, warnings: multiset<Warning>, commands: multiset<StepKey>,
                 nextStepId: nat, nextCommandId: nat)
      requires Inv(s) && s == Store(dir, steps, files, writer.tables, warnings, commands, s.lost, s.committed)
      requires forall k :: k in steps ==> steps[k].id < nextStepId
      ensures Valid() && State() == s && log == []
    {
      this.tradeDataDir, this.writer := dir, writer;
      this.steps, this.files, this.warnings, this.commands := steps, files, warnings, commands;
      this.nextStepId, this.nextCommandId := nextStepId, nextCommandId;
      start, lost, committed, log := s, s.lost, s.committed, [];
    }

    /** What the rounds are about. */
    ghost function Here(): Point
      reads this, writer
    {
      Point(steps, files, commands, lost, writer.tables, log)
    }

    ghost function State(): Store
      reads this, writer
    {
      Store(tradeDataDir, steps, files, writer.tables, warnings, commands, lost, committed)
    }

    ghost predicate Valid()
      reads this, writer
    {
      && Inv(start) && Possible(start, log) && After(start, log) == State()
      && forall k :: k in steps ==> steps[k].id < nextStepId
    }

    /** The state now, and the state after every beginning of the log, satisfies the invariant. */
    lemma EveryCrashStateIsSafe(n: nat)
      requires Valid() && n <= |log|
      ensures Inv(After(start, log[..n])) && Inv(State())
    {
      HistorySafe(start, log, n);
      HistorySafe(start, log, |log|);
      assert log[..|log|] == log;
    }

    ghost predicate Coherent(unit: SyncUnit)
      reads this, unit
    {
      unit.key in steps && unit.step == Some(steps[unit.key])
    }

    ghost predicate AllCoherent(units: seq<SyncUnit>)
      reads this, units
    {
      forall u :: u in units ==> Coherent(u)
    }

    lemma RowsOwned()
      requires Valid()
      ensures RowsOwn(tradeDataDir, steps)
    {
      hide OwnPath, UnitKey;
      EveryCrashStateIsSafe(|log|);
    }

    // ---- single effects ------------------------------------------------------

    method LoseFile(k: StepKey, path: string)
      requires Valid() && UnitKey(k) && OwnPath(tradeDataDir, k, path)
      modifies `files, `lost, `log
      ensures Valid() && OnlyLosses(tradeDataDir, old(Here()), Here(), ScopeOf(k))
      ensures WrittenKeys(log) == WrittenKeys(old(log))
    {
      hide Inv, Possible, After, OwnPath, UnitKey, OnlyLosses, WrittenKeys, RowsOwn;
      RowsOwned();
      PossibleMore(start, log, Effect.LoseFile(path));
      WrittenKeysStep(log, Effect.LoseFile(path));
      files := files - {path};
      lost := lost + set l | l in steps && steps[l].localFilePath == Some(path);
      log := log + [Effect.LoseFile(path)];
      OneLoss(tradeDataDir, old(Here()), Here(), k, path, ScopeOf(k));
    }

    /** What the world does meanwhile: any files of the units of a day and task type may be lost at any moment. */
    method LoseFiles(scope: Scope)
      requires Valid()
      modifies `files, `lost, `log
      ensures Valid() && OnlyLosses(tradeDataDir, old(Here()), Here(), scope)
      ensures WrittenKeys(log) == WrittenKeys(old(log))
    {
      hide Valid, OwnPath, UnitKey, OnlyLosses, WrittenKeys;
      NothingLost(tradeDataDir, Here(), scope);
      var gone: seq<(StepKey, string)> := *;
      for i := 0 to |gone|
        invariant Valid() && OnlyLosses(tradeDataDir, old(Here()), Here(), scope)
        invariant WrittenKeys(log) == WrittenKeys(old(log))
      {
        var (k, brokerKey) := gone[i];
        if UnitKey(k) && ScopeOf(k) == scope && SafeName(brokerKey) {
          ghost var before := Here();
          OwnPathOf(tradeDataDir, brokerKey, k);
          LoseFile(k, UnitPath(tradeDataDir, brokerKey, k));
          OnlyLossesMore(tradeDataDir, old(Here()), before, Here(), scope);
        }
      }
    }

    /** One update of the unit's row, by id; the unit keeps the row that comes back. */
    method UpdateStep(unit: SyncUnit, e: Effect)
      requires Valid() && unit.key in steps && Enabled(State(), e)
      requires e.StampTask? || e.PullSucceeded? || e.PullFailed? || e.WriteSucceeded? || e.WriteFailed?
      requires e.key == unit.key
      modifies `steps, `files, `lost, `committed, `log, unit`step
      ensures Valid() && Coherent(unit) && Meanwhile(tradeDataDir, old(Here()), Here(), ScopeOf(unit.key))
      ensures Ended(old(log), log, e)
      ensures WrittenKeys(log)
              == WrittenKeys(old(log)) + if e.WriteSucceeded? || e.WriteFailed? then [unit.key] else []
      ensures steps == old(steps)[unit.key := Updated(old(steps)[unit.key], e)]
    {
      hide Inv, Possible, Apply, After, Enabled, Updated, Meanwhile, Ended, WrittenKeys, Intact, Grew, Kept;
      ghost var s, p := State(), Here();
      LoseFiles(ScopeOf(unit.key));
      ghost var q := Here();
      OnlyLossesIsMeanwhile(tradeDataDir, p, q, ScopeOf(unit.key));
      StillEnabled(s, State(), e);
      PossibleMore(start, log, e);
      AfterUpdate(State(), e);
      WrittenKeysStep(log, e);
      steps := steps[unit.key := Updated(steps[unit.key], e)];
      committed := if e.StampTask? then committed else committed - {unit.key};
      log := log + [e];
      unit.step := Some(steps[unit.key]);
      EffectAfter(tradeDataDir, p, q, Here(), e, ScopeOf(unit.key));
    }

    method SaveLocalFile(unit: SyncUnit, path: string, content: Content)
      requires Valid() && Enabled(State(), SaveFile(unit.key, path, content))
      modifies `files, `lost, `committed, `log
      ensures Valid() && Proceeds(tradeDataDir, old(Here()), Here(), ScopeOf(unit.key))
      ensures Fewer(old(files)[path := content], files) && path in files
    {
      hide Inv, Possible, After, Enabled, Meanwhile, Ended, WrittenKeys, Intact, Grew, Kept;
      ghost var s, p := State(), Here();
      var e := SaveFile(unit.key, path, content);
      LoseFiles(ScopeOf(unit.key));
      ghost var q := Here();
      OnlyLossesIsMeanwhile(tradeDataDir, p, q, ScopeOf(unit.key));
      StillEnabled(s, State(), e);
      PossibleMore(start, log, e);
      files := files[path := content];
      committed := committed - {unit.key};
      log := log + [e];
      SaveAfter(tradeDataDir, p, q, Here(), e, ScopeOf(unit.key));
    }

    method CreateRemoteCommand(unit: SyncUnit, host: nat) returns (command: H.RemoteCommand)
      requires Valid() && Enabled(State(), IssueCommand(unit.key))
      modifies `files, `lost, `commands, `nextCommandId, `log
      ensures Valid() && Meanwhile(tradeDataDir, old(Here()), Here(), ScopeOf(unit.key))
      ensures commands == old(commands) + multiset{unit.key}
      ensures command == H.RemoteCommand(old(nextCommandId), host) && nextCommandId == old(nextCommandId) + 1
    {
      hide Inv, Possible, After, Enabled, Meanwhile, Ended, WrittenKeys, Intact, Grew, Kept;
      ghost var s, p := State(), Here();
      LoseFiles(ScopeOf(unit.key));
      ghost var q := Here();
      OnlyLossesIsMeanwhile(tradeDataDir, p, q, ScopeOf(unit.key));
      StillEnabled(s, State(), IssueCommand(unit.key));
      PossibleMore(start, log, IssueCommand(unit.key));
      commands := commands + multiset{unit.key};
      command := H.RemoteCommand(nextCommandId, host);
      nextCommandId := nextCommandId + 1;
      log := log + [IssueCommand(unit.key)];
      EffectAfter(tradeDataDir, p, q, Here(), IssueCommand(unit.key), ScopeOf(unit.key));
    }

    method CreateWarning(key: StepKey, warning: Warning)
      requires Valid() && Enabled(State(), Warn(key, warning))
      modifies `files, `lost, `warnings, `log
      ensures Valid() && Meanwhile(tradeDataDir, old(Here()), Here(), ScopeOf(key))
      ensures warnings == old(warnings) + multiset{warning}
    {
      hide Inv, Possible, After, Enabled, Meanwhile, Ended, WrittenKeys, Intact, Grew, Kept;
      ghost var s, p := State(), Here();
      LoseFiles(ScopeOf(key));
      ghost var q := Here();
      OnlyLossesIsMeanwhile(tradeDataDir, p, q, ScopeOf(key));
      StillEnabled(s, State(), Warn(key, warning));
      PossibleMore(start, log, Warn(key, warning));
      warnings := warnings + multiset{warning};
      log := log + [Warn(key, warning)];
      EffectAfter(tradeDataDir, p, q, Here(), Warn(key, warning), ScopeOf(key));
    }

    // ---- preparing a run -------------------------------------------------------

    /** A forced run sets exactly the matching rows back to pending. */
    method ResetMatchingSteps(filter: StepFilter)
      requires Valid()
      modifies `steps, `committed, `log
      ensures Valid() && log == old(log) + [ResetSteps(filter)]
      ensures steps == Reset(old(steps), filter) && steps.Keys == old(steps).Keys
      ensures forall k :: k in steps ==>
                steps[k] ==
                if && k.tradeDay == filter.tradeDay && k.taskType == filter.taskType && k.dataType in filter.dataTypes
                   && (filter.fundAccounts == [] || k.fundAccount in filter.fundAccounts)
                   && (filter.markets == [] || k.market in filter.markets)
                then old(steps)[k]
                     .(pullStatus := PENDING, writeStatus := PENDING, pullError := None, writeError := None)
                else old(steps)[k]
    {
      hide Inv, Possible;
      PossibleMore(start, log, ResetSteps(filter));
      steps := Reset(steps, filter);
      committed := set k | k in committed && !MatchesFilter(k, filter);
      log := log + [ResetSteps(filter)];
    }

    method FindOrCreate(unit: SyncUnit)
      requires Valid() && UnitKey(unit.key)
      modifies `steps, `files, `lost, `nextStepId, `log, unit`step
      ensures Valid() && Coherent(unit) && Meanwhile(tradeDataDir, old(Here()), Here(), ScopeOf(unit.key))
      ensures unit.key in old(steps) ==>
                steps == old(steps) && OnlyLosses(tradeDataDir, old(Here()), Here(), ScopeOf(unit.key))
      ensures unit.key !in old(steps) ==> steps == old(steps)[unit.key := NewStep(old(nextStepId))]
    {
      hide Inv, Possible, UnitKey, After, Apply, Enabled, OnlyLosses, Meanwhile, Ended, Intact, Grew, Kept;
      ghost var p := Here();
      LoseFiles(ScopeOf(unit.key));
      ghost var q := Here();
      OnlyLossesIsMeanwhile(tradeDataDir, p, q, ScopeOf(unit.key));
      if unit.key !in steps {
        var e := CreateStep(unit.key, nextStepId);
        AfterCreate(State(), unit.key, nextStepId);
        PossibleMore(start, log, e);
        steps := steps[unit.key := NewStep(nextStepId)];
        nextStepId := nextStepId + 1;
        log := log + [e];
        EffectAfter(tradeDataDir, p, q, Here(), e, ScopeOf(unit.key));
      }
      unit.step := Some(steps[unit.key]);
    }

    method EnsureSteps(units: seq<SyncUnit>, ghost scope: Scope)
      requires Valid() && WellKeyed(units) && forall u :: u in units ==> ScopeOf(u.key) == scope
      modifies `steps, `files, `lost, `nextStepId, `log, units
      ensures Valid() && AllCoherent(units) && Meanwhile(tradeDataDir, old(Here()), Here(), scope)
      ensures forall k :: k in old(steps) ==> k in steps && steps[k] == old(steps)[k]
      ensures forall k :: k in steps && k !in old(steps) ==>
                Untouched(steps[k]) && exists u :: u in units && u.key == k
      ensures (forall u :: u in units ==> u.key in old(steps)) ==>
                OnlyLosses(tradeDataDir, old(Here()), Here(), scope)
    {
      hide Inv, Possible, Valid, Meanwhile, OnlyLosses, UnitKey, SafeName;
      NothingLost(tradeDataDir, Here(), scope);
      OnlyLossesIsMeanwhile(tradeDataDir, Here(), Here(), scope);
      for i := 0 to |units|
        invariant Valid() && AllCoherent(units[..i]) && Meanwhile(tradeDataDir, old(Here()), Here(), scope)
        invariant forall k :: k in old(steps) ==> k in steps && steps[k] == old(steps)[k]
        invariant forall k :: k in steps && k !in old(steps) ==>
                    Untouched(steps[k]) && exists u :: u in units && u.key == k
        invariant (forall u :: u in units ==> u.key in old(steps)) ==>
                    OnlyLosses(tradeDataDir, old(Here()), Here(), scope)
      {
        TakeOneMore(units, i);
        ghost var before := Here();
        assert units[i] in units;
        FindOrCreate(units[i]);
        MeanwhileMore(tradeDataDir, old(Here()), before, Here(), scope);
        if forall u :: u in units ==> u.key in old(steps) {
          OnlyLossesMore(tradeDataDir, old(Here()), before, Here(), scope);
        }
      }
      assert units[..|units|] == units;
    }

    method StampOpsTaskId(units: seq<SyncUnit>, opsTaskId: int, ghost scope: Scope)
      requires Valid() && WellKeyed(units) && AllCoherent(units) && forall u :: u in units ==> ScopeOf(u.key) == scope
      modifies `steps, `files, `lost, `committed, `log, units
      ensures Valid() && AllCoherent(units) && Meanwhile(tradeDataDir, old(Here()), Here(), scope)
      ensures steps.Keys == old(steps).Keys && OnlyRowsOf(old(steps), steps, units)
      ensures forall u :: u in units ==> steps[u.key] == old(steps)[u.key].(opsTaskId := Some(opsTaskId))
    {
      hide Valid, Inv, Possible, Meanwhile, WrittenKeys, Ended, UnitKey, SafeName;
      NothingLost(tradeDataDir, Here(), scope);
      OnlyLossesIsMeanwhile(tradeDataDir, Here(), Here(), scope);
      for i := 0 to |units|
        invariant Valid() && AllCoherent(units) && Meanwhile(tradeDataDir, old(Here()), Here(), scope)
        invariant steps.Keys == old(steps).Keys && OnlyRowsOf(old(steps), steps, units)
        invariant forall u :: u in units ==>
                    || steps[u.key] == old(steps)[u.key]
                    || steps[u.key] == old(steps)[u.key].(opsTaskId := Some(opsTaskId))
        invariant forall u :: u in units[..i] ==>
                    u in units && steps[u.key] == old(steps)[u.key].(opsTaskId := Some(opsTaskId))
      {
        TakeOneMore(units, i);
        assert units[i] in units && Coherent(units[i]);
        assert KeysOf(units)[i] == units[i].key;
        ghost var before := Here();
        StampIsEnabled(units[i].key, opsTaskId);
        UpdateStep(units[i], StampTask(units[i].key, opsTaskId));
        MeanwhileMore(tradeDataDir, old(Here()), before, Here(), scope);
      }
      assert units[..|units|] == units;
    }

    lemma StampIsEnabled(k: StepKey, opsTaskId: int)
      requires Valid() && k in steps
      ensures Enabled(State(), StampTask(k, opsTaskId)) && UnitKey(k)
    {
      hide OwnPath, UnitKey;
      RowsOwned();
    }

    // ---- pulling -----------------------------------------------------------------

    /**
     Getting the file of a unit whose command has run: the path it now has, or why there is none. The file may
     be lost between the transfer and the look for it.
     */
    method FetchFile(unit: SyncUnit, code: int, stderr: string, reply: PullReply) returns (r: Result<string>)
      requires Valid() && Coherent(unit) && MayPull(steps, lost, unit.key)
      requires UnitKey(unit.key) && SafeName(unit.keys.brokerKey)
      modifies `files, `lost, `committed, `log
      ensures Valid() && Proceeds(tradeDataDir, old(Here()), Here(), ScopeOf(unit.key))
      ensures var path, saved := UnitPath(tradeDataDir, unit.keys.brokerKey, unit.key), Saved(unit.key, code, reply);
              && (r.Ok? ==> Delivers(unit.key, code, reply, path in old(files)) && r.value == path && path in files)
              && (Kept(tradeDataDir, old(log), log, unit.key) && Delivers(unit.key, code, reply, path in old(files)) ==>
                    r.Ok?)
              && Fewer(if saved.Some? then old(files)[path := saved.value] else old(files), files)
              && (saved.Some? && Kept(tradeDataDir, old(log), log, unit.key) ==> path in files)
    {
      hide Inv, Possible, Valid, Intact, Kept, Grew, Enabled, UnitPath, OnlyLosses;
      var path := UnitPath(tradeDataDir, unit.keys.brokerKey, unit.key);
      OwnPathOf(tradeDataDir, unit.keys.brokerKey, unit.key);
      NothingLost(tradeDataDir, Here(), ScopeOf(unit.key));
      OnlyLossesIsMeanwhile(tradeDataDir, Here(), Here(), ScopeOf(unit.key));
      if code != 0 {
        return Err(if stderr != "" then stderr else "remote command failed");
      }
      if unit.key.dataType == FUND {
        if reply.snapshot.None? {
          return Err("market not found");
        }
        if !reply.folder {
          return Err("mkdir failed");
        }
        match reply.written {
          case Whole =>
            SaveIsEnabled(unit.key, path, Fund(reply.snapshot.value));
            SaveLocalFile(unit, path, Fund(reply.snapshot.value));
            return Ok(path);
          case Part(content) =>
            SaveIsEnabled(unit.key, path, content);
            SaveLocalFile(unit, path, content);
            return Err("write failed");
          case Nothing =>
            return Err("write failed");
        }
      }
      if !reply.namesFile {
        return Err("no file_path found");
      }
      if !reply.folder {
        return Err("mkdir failed");
      }
      if !reply.connects {
        return Err("connect failed");
      }
      // a failed transfer is only logged, so an older file may stay in place
      if reply.transferred.Some? {
        SaveIsEnabled(unit.key, path, reply.transferred.value);
        SaveLocalFile(unit, path, reply.transferred.value);
      }
      ghost var saved := Here();
      LoseFiles(ScopeOf(unit.key));
      OnlyLossesIsMeanwhile(tradeDataDir, saved, Here(), ScopeOf(unit.key));
      ProceedsMore(tradeDataDir, old(Here()), saved, Here(), ScopeOf(unit.key));
      if path in saved.files && Kept(tradeDataDir, old(log), log, unit.key) {
        LaterKept(tradeDataDir, old(Here()), saved, Here(), unit.key, path, ScopeOf(unit.key));
      }
      if path !in files {
        return Err("local file missing after pull");
      }
      return Ok(path);
    }

    lemma SaveIsEnabled(k: StepKey, path: string, content: Content)
      requires MayPull(steps, lost, k) && UnitKey(k) && OwnPath(tradeDataDir, k, path)
      ensures Enabled(State(), SaveFile(k, path, content)) && Enabled(State(), PullSucceeded(k, path))
    {
      hide OwnPath, UnitKey;
    }

    method HandlePullResult(unit: SyncUnit, code: int, stderr: string, reply: PullReply)
      requires Valid() && Coherent(unit) && MayPull(steps, lost, unit.key)
      requires UnitKey(unit.key) && SafeName(unit.keys.brokerKey)
      modifies `steps, `files, `lost, `committed, `log, unit`step
      ensures Valid() && Coherent(unit) && Proceeds(tradeDataDir, old(Here()), Here(), ScopeOf(unit.key))
      ensures steps == old(steps)[unit.key := steps[unit.key]] && SameWrite(old(steps)[unit.key], steps[unit.key])
      ensures PullEnded(tradeDataDir, old(log), log, steps, files, unit.key)
      ensures Attempted(old(log), log, unit.key, PullAttempt)
      ensures code != 0 ==> steps[unit.key].pullStatus == FAILED
      ensures code == 0 && Good(reply) && Kept(tradeDataDir, old(log), log, unit.key) ==> PullOk(steps[unit.key])
      ensures var path, saved := UnitPath(tradeDataDir, unit.keys.brokerKey, unit.key), Saved(unit.key, code, reply);
              var delivered := Delivers(unit.key, code, reply, path in old(files)) && reply.acknowledged;
              && (steps[unit.key].pullStatus == SUCCESS ==> delivered)
              && (delivered && Kept(tradeDataDir, old(log), log, unit.key) ==> steps[unit.key].pullStatus == SUCCESS)
              && Fewer(if saved.Some? then old(files)[path := saved.value] else old(files), files)
              && (saved.Some? && Kept(tradeDataDir, old(log), log, unit.key) ==> path in files)
    {
      hide Inv, Possible, Valid, UnitPath, Saved, Attempted, Grew, Intact, Kept, Enabled, Ended, WrittenKeys;
      ghost var p := Here();
      var r := FetchFile(unit, code, stderr, reply);
      ghost var q := Here();
      var path := UnitPath(tradeDataDir, unit.keys.brokerKey, unit.key);
      OwnPathOf(tradeDataDir, unit.keys.brokerKey, unit.key);
      if r.Ok? && reply.acknowledged {
        SaveIsEnabled(unit.key, path, Malformed);
        UpdateStep(unit, PullSucceeded(unit.key, r.value));
        EndsAttempt(q.log, log, PullSucceeded(unit.key, r.value), unit.key, PullAttempt);
      } else {
        var message := if r.Ok? then "update failed" else r.message;
        FailIsEnabled(unit.key, message);
        UpdateStep(unit, PullFailed(unit.key, message));
        EndsAttempt(q.log, log, PullFailed(unit.key, message), unit.key, PullAttempt);
      }
      PullHandled(tradeDataDir, p, q, Here(), unit.key, path, ScopeOf(unit.key));
    }

    lemma FailIsEnabled(k: StepKey, message: string)
      requires MayPull(steps, lost, k) && UnitKey(k)
      ensures Enabled(State(), PullFailed(k, message))
    {
      hide UnitKey;
    }

    method SelectPulls(units: seq<SyncUnit>, ghost scope: Scope) returns (toPull: seq<SyncUnit>)
      requires Valid() && AllCoherent(units) && DistinctKeyed(units)
      requires forall u :: u in units ==> ScopeOf(u.key) == scope
      modifies `files, `lost, `log
      ensures Valid() && OnlyLosses(tradeDataDir, old(Here()), Here(), scope)
      ensures forall u :: u in toPull ==> u in units && NeedsPull(steps[u.key], files)
      ensures forall u :: u in units && NeedsPull(steps[u.key], old(files)) ==> u in toPull
      ensures DistinctKeyed(toPull)
    {
      hide Valid, Inv, Possible, OnlyLosses, NeedsPull, Meanwhile, WrittenKeys;
      NothingLost(tradeDataDir, Here(), scope);
      toPull := [];
      for i := 0 to |units|
        invariant Valid() && AllCoherent(units) && OnlyLosses(tradeDataDir, old(Here()), Here(), scope)
        invariant forall u :: u in toPull ==> u in units[..i] && u in units && NeedsPull(steps[u.key], files)
        invariant forall u :: u in units[..i] ==>
                    u.key in steps && (NeedsPull(steps[u.key], old(files)) ==> u in toPull)
        invariant DistinctKeyed(toPull)
      {
        TakeOneMore(units, i);
        assert units[i] in units && Coherent(units[i]);
        ghost var before := Here();
        LoseFiles(ScopeOf(units[i].key));
        OnlyLossesMore(tradeDataDir, old(Here()), before, Here(), scope);
        OnlyLossesIsMeanwhile(tradeDataDir, before, Here(), scope);
        OnlyLossesIsMeanwhile(tradeDataDir, old(Here()), Here(), scope);
        forall u | u in toPull
          ensures NeedsPull(steps[u.key], files)
        {
          StillNeedsPull(steps[u.key], before.files, files);
        }
        if NeedsPull(units[i].step.value, old(files)) {
          StillNeedsPull(units[i].step.value, old(files), files);
        }
        if NeedsPull(units[i].step.value, files) {
          toPull := toPull + [units[i]];
        }
      }
      assert units[..|units|] == units;
    }

    /** One command for a unit that has a master server; a unit without one fails. */
    method MakeQuery(unit: SyncUnit, master: Option<nat>) returns (made: Option<H.RemoteCommand>)
      requires Valid() && Coherent(unit) && MayPull(steps, lost, unit.key) && UnitKey(unit.key)
      requires NeedsPull(steps[unit.key], files)
      modifies `steps, `files, `lost, `committed, `commands, `nextCommandId, `log, unit`step
      ensures Valid() && Coherent(unit) && Meanwhile(tradeDataDir, old(Here()), Here(), ScopeOf(unit.key))
      ensures steps == old(steps)[unit.key := steps[unit.key]] && SameWrite(old(steps)[unit.key], steps[unit.key])
      ensures NeedsPull(steps[unit.key], files)
      ensures made == if master.Some? then Some(H.RemoteCommand(old(nextCommandId), master.value)) else None
      ensures made.None? ==> steps[unit.key].pullStatus == FAILED
                             && commands == old(commands) && nextCommandId == old(nextCommandId)
                             && Attempted(old(log), log, unit.key, PullAttempt)
      ensures made.Some? ==> steps == old(steps)
                             && nextCommandId == old(nextCommandId) + 1
                             && commands == old(commands) + multiset{unit.key}
    {
      hide Inv, Possible, Valid, Enabled, Attempted, Grew, Intact, WrittenKeys, Ended;
      match master
      case None =>
        var e := PullFailed(unit.key, "no master server");
        FailIsEnabled(unit.key, "no master server");
        UpdateStep(unit, e);
        EndsAttempt(old(log), log, e, unit.key, PullAttempt);
        return None;
      case Some(host) =>
        QueryIsEnabled(unit.key);
        var command := CreateRemoteCommand(unit, host);
        StillNeedsPull(steps[unit.key], old(files), files);
        return Some(command);
    }

    lemma QueryIsEnabled(k: StepKey)
      requires k in steps && UnitKey(k) && NeedsPull(steps[k], files)
      ensures Enabled(State(), IssueCommand(k))
    {
      hide UnitKey, NeedsPull;
    }

    /** A unit without a master server fails; every other unit gets one command, numbered in order. */
    method IssueCommands(toPull: seq<SyncUnit>, ghost scope: Scope, healthy: bool)
      returns (cmds: seq<H.RemoteCommand>, unitByCmdId: map<nat, SyncUnit>, ghost issued: seq<SyncUnit>)
      requires Valid() && AllCoherent(toPull) && DistinctKeyed(toPull) && WellKeyed(toPull)
      requires forall u :: u in toPull ==> ScopeOf(u.key) == scope && NeedsPull(steps[u.key], files)
      requires forall u :: u in toPull ==> MayPull(steps, lost, u.key)
      modifies `steps, `files, `lost, `committed, `commands, `nextCommandId, `log, toPull
      ensures Valid() && AllCoherent(toPull) && Meanwhile(tradeDataDir, old(Here()), Here(), scope)
      ensures SameWrites(old(steps), steps) && OnlyRowsOf(old(steps), steps, toPull)
      ensures Numbered(cmds, unitByCmdId, issued, old(nextCommandId)) && Picked(issued, toPull, |toPull|)
      ensures forall u :: u in toPull ==> u in issued || steps[u.key].pullStatus == FAILED
      ensures forall u :: u in toPull ==> u in issued || Attempted(old(log), log, u.key, PullAttempt)
      ensures forall u :: u in toPull ==> MayPull(steps, lost, u.key) && NeedsPull(steps[u.key], files)
      ensures commands == old(commands) + multiset(KeysOf(issued))
      ensures healthy ==> forall u :: u in toPull ==> u in issued
    {
      hide Inv, Possible, Valid, State, SameWrites, SameWrite, OnlyRowsOf, KeysOf, NeedsPull, MayPull, UnitKey,
           SafeName, Numbered, Picked, Attempted, AttemptedTwice, Meanwhile, WellKeyed, DistinctKeyed;
      NothingChanged(steps, toPull);
      NothingLost(tradeDataDir, Here(), scope);
      OnlyLossesIsMeanwhile(tradeDataDir, Here(), Here(), scope);
      cmds, unitByCmdId, issued := [], map[], [];
      for i := 0 to |toPull|
        invariant Valid() && AllCoherent(toPull) && Meanwhile(tradeDataDir, old(Here()), Here(), scope)
        invariant SameWrites(old(steps), steps) && OnlyRowsOf(old(steps), steps, toPull)
        invariant Numbered(cmds, unitByCmdId, issued, old(nextCommandId)) && Picked(issued, toPull, i)
        invariant |cmds| == |issued| && nextCommandId == old(nextCommandId) + |issued|
        invariant forall u :: u in toPull[..i] ==> u in issued || (u.key in steps && steps[u.key].pullStatus == FAILED)
        invariant forall u :: u in toPull[..i] ==> u in issued || Attempted(old(log), log, u.key, PullAttempt)
        invariant forall u :: u in toPull ==>
                    u.key in steps && NeedsPull(steps[u.key], files) && MayPull(steps, lost, u.key)
        invariant commands == old(commands) + multiset(KeysOf(issued))
        invariant healthy ==> forall u :: u in toPull[..i] ==> u in issued
      {
        TakeOneMore(toPull, i);
        PickedMore(issued, toPull, i);
        var unit := toPull[i];
        UnitIsKeyed(toPull, unit);
        ghost var before := Here();
        var master: Option<nat> := *;
        if healthy {
          var host: nat := *;
          master := Some(host);
        }
        var made := MakeQuery(unit, master);
        AttemptsGoOn(tradeDataDir, old(Here()), before, Here(), scope);
        PullUpdate(old(steps), before.steps, steps, toPull, unit);
        AllStillNeedPull(toPull, before, Here(), unit, tradeDataDir, scope);
        if made.None? {
          continue;
        }
        NumberedMore(cmds, unitByCmdId, issued, old(nextCommandId), made.value, unit);
        KeysOfOneMore(issued, unit);
        cmds := cmds + [made.value];
        unitByCmdId := unitByCmdId[made.value.id := unit];
        issued := issued + [unit];
      }
      assert toPull[..|toPull|] == toPull;
    }

    /** The results of a batch of commands are applied in the order they come back. */
    method ApplyResults(toPull: seq<SyncUnit>, cmds: seq<H.RemoteCommand>, results: seq<H.CommandResult>,
                        unitByCmdId: map<nat, SyncUnit>, ghost issued: seq<SyncUnit>, ghost first: nat,
                        ghost scope: Scope, healthy: bool)
      requires Valid() && AllCoherent(toPull) && DistinctKeyed(toPull) && WellKeyed(toPull)
      requires forall u :: u in toPull ==> ScopeOf(u.key) == scope && MayPull(steps, lost, u.key)
      requires Numbered(cmds, unitByCmdId, issued, first) && Picked(issued, toPull, |toPull|)
      requires Answers(results, cmds) && DistinctIds(results)
      requires healthy ==> forall r :: r in results ==> r.code == 0
      requires forall u :: u in toPull ==> u in issued || steps[u.key].pullStatus == FAILED
      modifies `steps, `files, `lost, `committed, `log, toPull
      ensures Valid() && AllCoherent(toPull) && Proceeds(tradeDataDir, old(Here()), Here(), scope)
      ensures SameWrites(old(steps), steps) && OnlyRowsOf(old(steps), steps, toPull)
      ensures forall u :: u in toPull ==> PullEnded(tradeDataDir, old(log), log, steps, files, u.key)
      ensures forall u :: u in toPull ==> u in issued || steps[u.key].pullStatus == FAILED
      ensures forall u :: u in issued ==> Attempted(old(log), log, u.key, PullAttempt)
      ensures FailuresKept(results, |results|, unitByCmdId, steps)
      ensures healthy ==> AllPulled(tradeDataDir, old(log), log, issued, steps)
    {
      hide Inv, Possible, Valid, State, SameWrites, SameWrite, OnlyRowsOf, MayPull, UnitKey, SafeName, Answers,
           NeedsPull, AllDone, AllPulled, Attempted, AttemptedTwice, Delivers, Saved, UnitPath, FailuresKept, Proceeds,
           PullEnded, RowsOwn, Fewer, Kept, WellKeyed, DistinctKeyed, Numbered;
      NothingChanged(steps, toPull);
      NothingLost(tradeDataDir, Here(), scope);
      OnlyLossesIsMeanwhile(tradeDataDir, Here(), Here(), scope);
      MeanwhileProceeds(tradeDataDir, Here(), Here(), scope);
      ghost var done: seq<StepKey> := [];
      NoneDone(tradeDataDir, log, steps, files, healthy);
      NoFailuresYet(results, unitByCmdId, steps);
      for n := 0 to |results|
        invariant Valid() && AllCoherent(toPull) && Proceeds(tradeDataDir, old(Here()), Here(), scope)
        invariant SameWrites(old(steps), steps) && OnlyRowsOf(old(steps), steps, toPull)
        invariant AllDone(tradeDataDir, old(log), log, done, steps, files, healthy)
        invariant forall k :: k in done ==> Attempted(old(log), log, k, PullAttempt)
        invariant FailuresKept(results, n, unitByCmdId, steps)
        invariant forall m :: 0 <= m < n && results[m].id in unitByCmdId ==> unitByCmdId[results[m].id].key in done
        invariant forall u :: u in toPull ==> u.key in steps && MayPull(steps, lost, u.key)
        invariant forall u :: u in toPull && u !in issued ==> steps[u.key] == old(steps)[u.key]
      {
        if results[n].id !in unitByCmdId {
          FailuresKeptSkip(results, n, unitByCmdId, steps);
          continue;
        }
        var unit := unitByCmdId[results[n].id];
        MappedUnit(cmds, unitByCmdId, issued, first, results[n].id);
        assert toPull[..|toPull|] == toPull;
        assert unit in toPull;
        UnitIsKeyed(toPull, unit);
        OtherUnits(toPull, issued, unit);
        ghost var before := Here();
        RowsOwned();
        var reply: PullReply := *;
        if healthy {
          reply := GoodReply();
          assert results[n] in results;
        }
        HandlePullResult(unit, results[n].code, results[n].stderr, reply);
        PullsGoOn(tradeDataDir, old(Here()), before, Here(), scope);
        PullUpdate(old(steps), before.steps, steps, toPull, unit);
        AllDoneMore(tradeDataDir, old(log), before, Here(), done, unit.key, healthy);
        FailuresKeptMore(results, n, cmds, unitByCmdId, issued, first, before.steps, steps);
        done := done + [unit.key];
      }
      AllIssuedDone(cmds, unitByCmdId, issued, first, results, done);
      PullsSettled(tradeDataDir, old(log), log, toPull, issued, done, steps, files, healthy);
    }

    /** When the batch itself throws, every unit that still needs its file fails. */
    method FailAll(toPull: seq<SyncUnit>, message: string, ghost scope: Scope)
      requires Valid() && AllCoherent(toPull) && DistinctKeyed(toPull) && WellKeyed(toPull)
      requires forall u :: u in toPull ==>
                 ScopeOf(u.key) == scope && MayPull(steps, lost, u.key) && NeedsPull(steps[u.key], files)
      modifies `steps, `files, `lost, `committed, `log, toPull
      ensures Valid() && AllCoherent(toPull) && Meanwhile(tradeDataDir, old(Here()), Here(), scope)
      ensures SameWrites(old(steps), steps) && OnlyRowsOf(old(steps), steps, toPull)
      ensures forall u :: u in toPull ==>
                steps[u.key].pullStatus == FAILED && Attempted(old(log), log, u.key, PullAttempt)
    {
      hide Inv, Possible, Valid, State, SameWrites, OnlyRowsOf, KeysOf, Attempted, AttemptedTwice, Meanwhile, NeedsPull,
           MayPull, UnitKey, SafeName, WrittenKeys, Ended, WellKeyed, DistinctKeyed, Enabled;
      NothingChanged(steps, toPull);
      NothingLost(tradeDataDir, Here(), scope);
      OnlyLossesIsMeanwhile(tradeDataDir, Here(), Here(), scope);
      for i := 0 to |toPull|
        invariant Valid() && AllCoherent(toPull) && Meanwhile(tradeDataDir, old(Here()), Here(), scope)
        invariant SameWrites(old(steps), steps) && OnlyRowsOf(old(steps), steps, toPull)
        invariant forall u :: u in toPull ==>
                    u.key in steps && NeedsPull(steps[u.key], files) && MayPull(steps, lost, u.key)
        invariant forall u :: u in toPull[..i] ==>
                    u.key in steps && steps[u.key].pullStatus == FAILED && Attempted(old(log), log, u.key, PullAttempt)
      {
        TakeOneMore(toPull, i);
        var unit := toPull[i];
        assert Coherent(unit);
        UnitIsKeyed(toPull, unit);
        if NeedsPull(unit.step.value, files) {
          ghost var before := Here();
          FailIsEnabled(unit.key, message);
          UpdateStep(unit, PullFailed(unit.key, message));
          EndsAttempt(before.log, log, PullFailed(unit.key, message), unit.key, PullAttempt);
          AttemptsGoOn(tradeDataDir, old(Here()), before, Here(), scope);
          PullUpdate(old(steps), before.steps, steps, toPull, unit);
          FailedNeeds(steps[unit.key], files);
          AllStillNeedPull(toPull, before, Here(), unit, tradeDataDir, scope);
        }
      }
      assert toPull[..|toPull|] == toPull;
    }

    /** The commands are run, whatever happens to each, and their results applied. */
    method Execute(toPull: seq<SyncUnit>, cmds: seq<H.RemoteCommand>, unitByCmdId: map<nat, SyncUnit>,
                   ghost issued: seq<SyncUnit>, ghost first: nat, ghost scope: Scope, healthy: bool)
      returns (ghost order: seq<H.RemoteCommand>, ghost env: H.Environment)
      requires Valid() && AllCoherent(toPull) && DistinctKeyed(toPull) && WellKeyed(toPull)
      requires forall u :: u in toPull ==> ScopeOf(u.key) == scope && MayPull(steps, lost, u.key)
      requires Numbered(cmds, unitByCmdId, issued, first) && Picked(issued, toPull, |toPull|)
      requires forall u :: u in toPull ==> u in issued || steps[u.key].pullStatus == FAILED
      modifies `steps, `files, `lost, `committed, `log, toPull
      ensures Valid() && AllCoherent(toPull) && Proceeds(tradeDataDir, old(Here()), Here(), scope)
      ensures SameWrites(old(steps), steps) && OnlyRowsOf(old(steps), steps, toPull)
      ensures forall u :: u in toPull ==> PullEnded(tradeDataDir, old(log), log, steps, files, u.key)
      ensures forall u :: u in toPull ==> u in issued || steps[u.key].pullStatus == FAILED
      ensures forall u :: u in issued ==> Attempted(old(log), log, u.key, PullAttempt)
      ensures healthy ==> AllPulled(tradeDataDir, old(log), log, issued, steps)
      ensures forall u :: u in issued && u.key in steps && steps[u.key].pullStatus == SUCCESS ==>
                CommandRan(u, order, unitByCmdId, env)
    {
      hide Inv, Possible, Valid, SameWrites, OnlyRowsOf, NeedsPull, Numbered, Picked, Attempted, AttemptedTwice,
           Proceeds, PullEnded, Kept, MayPull, WellKeyed, DistinctKeyed, FailuresKept, AllPulled, CommandRan;
      var outcomes: map<nat, H.Outcome> := *;
      var happens := (id: nat) =>
        if healthy then H.Outcome(H.Connected, H.Ran(0, "", ""))
        else if id in outcomes then outcomes[id]
        else H.Outcome(H.Refused, H.RunThrew(""));
      env := happens;
      var results, answered, _ := H.ExecByHost(cmds, happens);
      order := answered;
      NumbersApart(cmds, unitByCmdId, issued, first);
      ExecAnswers(cmds, happens);
      if healthy {
        H.GoodFlatResults(cmds, H.HostsInOrder(cmds), happens);
      }
      ApplyResults(toPull, cmds, results, unitByCmdId, issued, first, scope, healthy);
      forall u | u in issued && u.key in steps && steps[u.key].pullStatus == SUCCESS
        ensures CommandRan(u, order, unitByCmdId, env)
      {
        PulledMeansRan(u, issued, cmds, unitByCmdId, first, results, order, happens, steps);
      }
    }

    /**
     One pull round over the units that need a pull. `order` has the commands as they were answered and `env` what
     happened to each: only a unit whose command got a connection, ran and returned 0 can end pulled.
     */
    method PullUnits(toPull: seq<SyncUnit>, ghost scope: Scope, healthy: bool)
      returns (ghost order: seq<H.RemoteCommand>, ghost unitByCmdId: map<nat, SyncUnit>, ghost env: H.Environment)
      requires Valid() && AllCoherent(toPull) && DistinctKeyed(toPull) && WellKeyed(toPull)
      requires forall u :: u in toPull ==>
                 ScopeOf(u.key) == scope && MayPull(steps, lost, u.key) && NeedsPull(steps[u.key], files)
      modifies `steps, `files, `lost, `committed, `commands, `nextCommandId, `log, toPull
      ensures Valid() && AllCoherent(toPull) && Proceeds(tradeDataDir, old(Here()), Here(), scope)
      ensures SameWrites(old(steps), steps) && OnlyRowsOf(old(steps), steps, toPull)
      ensures forall u :: u in toPull ==>
                && PullEnded(tradeDataDir, old(log), log, steps, files, u.key)
                && Attempted(old(log), log, u.key, PullAttempt)
      ensures healthy ==> AllPulled(tradeDataDir, old(log), log, toPull, steps)
      ensures forall u :: u in toPull && steps[u.key].pullStatus == SUCCESS ==> CommandRan(u, order, unitByCmdId, env)
      ensures CountsOf(old(commands), commands, toPull, steps)
      ensures toPull == [] ==> Here() == old(Here())
    {
      hide Inv, Possible, Valid, SameWrites, OnlyRowsOf, KeysOf, NeedsPull, Numbered, Picked, CountsOf, Attempted,
           AttemptedTwice, Proceeds, Meanwhile, PullEnded, Kept, MayPull, WellKeyed, DistinctKeyed, FailuresKept,
           AllPulled, Intact, CommandRan, Answers, DistinctIds;
      ghost var p := Here();
      order, unitByCmdId, env := [], map[], (id: nat) => H.Outcome(H.Refused, H.RunThrew(""));
      if |toPull| == 0 {
        NothingChanged(steps, toPull);
        NoCounts(commands, steps);
        NothingLost(tradeDataDir, Here(), scope);
        OnlyLossesIsMeanwhile(tradeDataDir, Here(), Here(), scope);
        MeanwhileProceeds(tradeDataDir, Here(), Here(), scope);
        NonePulled(tradeDataDir, log, steps);
        return;
      }
      var cmds, unitByNewId, issued := IssueCommands(toPull, scope, healthy);
      ghost var q := Here();
      MeanwhileProceeds(tradeDataDir, p, q, scope);
      if |cmds| == 0 {
        NoneIssued(cmds, unitByNewId, issued, old(nextCommandId));
        CountsAfter(old(commands), toPull, issued, steps);
        FailedEnded(tradeDataDir, p.log, log, toPull, steps, files);
        if healthy {
          NothingToPull(toPull, issued);
          NonePulled(tradeDataDir, p.log, steps);
        }
        return;
      }
      var throws: bool := *;
      if throws && !healthy {
        FailAll(toPull, "ssh failed", scope);
        MeanwhileProceeds(tradeDataDir, q, Here(), scope);
        FailedEnded(tradeDataDir, q.log, log, toPull, steps, files);
      } else {
        order, env := Execute(toPull, cmds, unitByNewId, issued, old(nextCommandId), scope, healthy);
        unitByCmdId := unitByNewId;
        if healthy {
          AllIssued(tradeDataDir, q.log, log, toPull, issued, steps);
        }
      }
      PullsGoOn(tradeDataDir, p, q, Here(), scope);
      RowsCompose(old(steps), q.steps, steps, toPull);
      CountsAfter(old(commands), toPull, issued, steps);
      EndedSince(tradeDataDir, p, q, Here(), toPull, scope, healthy);
    }

    /** A pull round: every unit that needs its file is tried once; the others are left alone. */
    method PullRound(units: seq<SyncUnit>, ghost scope: Scope, healthy: bool) returns (ghost pulled: seq<SyncUnit>)
      requires Valid() && AllCoherent(units) && DistinctKeyed(units) && WellKeyed(units)
      requires forall u :: u in units ==> ScopeOf(u.key) == scope
      modifies `steps, `files, `lost, `committed, `commands, `nextCommandId, `log, units
      ensures Valid() && AllCoherent(units) && PullStep(tradeDataDir, units, old(Here()), Here(), pulled, scope)
      ensures healthy ==> AllPulled(tradeDataDir, old(log), log, units, steps)
    {
      hide Inv, Possible, Valid, NeedsPull, CountsOf, SameWrites, OnlyRowsOf, PullEnded, Attempted, PullStep, AllPulled,
           WellKeyed, Kept, Intact, OnlyLosses, Proceeds, Fewer, RowsOwn, Grew;
      ghost var before := Here();
      RowsOwned();
      var toPull := SelectPulls(units, scope);
      OnlyLossesIsMeanwhile(tradeDataDir, before, Here(), scope);
      ghost var mid := Here();
      assert mid.steps == before.steps;
      EveryCrashStateIsSafe(|log|);
      forall u | u in toPull
        ensures MayPull(steps, lost, u.key)
      {
        DueMayPull(State(), u.key);
      }
      SomeKeyed(units, toPull);
      assert forall i :: 0 <= i < |toPull| ==> toPull[i] in toPull && toPull[i] in units;
      var _, _, _ := PullUnits(toPull, scope, healthy);
      pulled := toPull;
      forall u | u in units && u !in toPull
        ensures u.key in steps && steps[u.key] == before.steps[u.key]
      {
        RowOfOther(units, toPull, before.steps, steps, u);
      }
      PullsMakeStep(tradeDataDir, units, toPull, before, mid, Here(), scope, healthy);
    }

    // ---- writing -----------------------------------------------------------------

    /** The unit's file, if it is still there, replaces its slice in one transaction, or nothing happens. */
    method CommitUnit(unit: SyncUnit, databaseUp: bool) returns (ok: bool)
      requires Valid() && Coherent(unit) && UnitKey(unit.key) && WriteDue(steps[unit.key])
      modifies `files, `lost, `committed, `log, writer
      ensures Valid() && Grew(tradeDataDir, old(log), log, ScopeOf(unit.key))
      ensures Intact(tradeDataDir, old(Here()), Here()) && Fewer(old(files), files)
      ensures !ok ==> writer.tables == old(writer.tables)
      ensures ok ==> unit.key in committed && unit.key !in lost
      ensures var path := steps[unit.key].localFilePath.value;
              if path in files then Written(old(writer.tables), writer.tables, unit, files[path], databaseUp, ok)
              else !ok
      ensures WrittenKeys(log) == WrittenKeys(old(log))
    {
      hide Inv, Possible, Transform, WriteTables, InSync, Apply, After, OwnPath, UnitKey, WrittenKeys, Intact, Grew,
           OnlyLosses, Kept;
      ghost var p := Here();
      LoseFiles(ScopeOf(unit.key));
      ghost var q := Here();
      OnlyLossesIsMeanwhile(tradeDataDir, p, q, ScopeOf(unit.key));
      var path := unit.step.value.localFilePath.value;
      if path !in files {
        return false;
      }
      var input := InputOf(unit.key, unit.keys);
      var e := CommitWrite(unit.key, unit.keys);
      PossibleMore(start, log, e);
      WrittenKeysStep(log, e);
      CommitBringsInSync(State(), unit.key, unit.keys, unit.key);
      AfterCommit(State(), unit.key, unit.keys);
      ok := writer.Write(input, files[path], databaseUp);
      if ok {
        lost, committed := lost - {unit.key}, committed + {unit.key};
        log := log + [e];
        CommitAfter(tradeDataDir, p, q, Here(), e, ScopeOf(unit.key));
      }
    }

    /**
     databaseUp and acknowledged say whether the transaction and the update after it reach the database;
     `there` is whether the file was there when it was read.
     */
    method WriteUnit(unit: SyncUnit, databaseUp: bool, acknowledged: bool) returns (ghost there: bool)
      requires Valid() && Coherent(unit) && UnitKey(unit.key) && WriteDue(steps[unit.key])
      modifies `steps, `files, `lost, `committed, `log, unit`step, writer
      ensures Valid() && Coherent(unit) && Grew(tradeDataDir, old(log), log, ScopeOf(unit.key))
      ensures Intact(tradeDataDir, old(Here()), Here()) && Fewer(old(files), files)
      ensures steps == old(steps)[unit.key := steps[unit.key]] && SamePull(old(steps)[unit.key], steps[unit.key])
      ensures Tried(tradeDataDir, old(Here()), Here(), unit.key) && Attempted(old(log), log, unit.key, WriteAttempt)
      ensures WrittenKeys(log) == WrittenKeys(old(log)) + [unit.key]
      ensures var path := old(steps)[unit.key].localFilePath.value;
              && (path in files ==> there) && (there ==> path in old(files))
              && var ok := there && databaseUp && Transform(InputOf(unit.key, unit.keys), old(files)[path]).Some?;
                 && steps[unit.key].writeStatus == (if ok && acknowledged then SUCCESS else FAILED)
                 && if ok then Some(writer.tables)
                               == WriteTables(old(writer.tables), InputOf(unit.key, unit.keys), old(files)[path])
                    else writer.tables == old(writer.tables)
      ensures writer.tables == old(writer.tables)
              || (there && Stores(old(writer.tables), writer.tables, InputOf(unit.key, unit.keys),
                                  old(files)[old(steps)[unit.key].localFilePath.value]))
      ensures databaseUp && acknowledged && Fits(unit.key, unit.keys, steps, files) ==> WriteOk(steps[unit.key])
    {
      hide Inv, Possible, Valid, InSync, Grew, Attempted, AttemptedTwice, WrittenKeys, Kept, Intact, Enabled, UnitKey,
           Transform, WriteTables, Ended, Stores, Storable;
      ghost var p := Here();
      if steps[unit.key].localFilePath.value in files {
        WriteStores(writer.tables, InputOf(unit.key, unit.keys), files[steps[unit.key].localFilePath.value]);
      }
      var ok := CommitUnit(unit, databaseUp);
      ghost var q := Here();
      there := steps[unit.key].localFilePath.value in files;
      var e := if ok && acknowledged then WriteSucceeded(unit.key) else WriteFailed(unit.key, "write failed");
      MarkIsEnabled(unit.key, ok && acknowledged);
      UpdateStep(unit, e);
      EndsAttempt(q.log, log, e, unit.key, WriteAttempt);
      WriteMarked(tradeDataDir, p, q, Here(), unit.key, ScopeOf(unit.key));
    }

    lemma MarkIsEnabled(k: StepKey, ok: bool)
      requires k in steps && UnitKey(k) && steps[k].writeStatus != SUCCESS && (ok ==> k in committed)
      ensures ok ==> Enabled(State(), WriteSucceeded(k))
      ensures Enabled(State(), WriteFailed(k, "write failed"))
    {
      hide UnitKey;
    }

    /** The units that are due, in their order; a file lost before the look at it takes its unit out. */
    method SelectWrites(units: seq<SyncUnit>, ghost scope: Scope) returns (toWrite: seq<SyncUnit>)
      requires Valid() && AllCoherent(units) && DistinctKeyed(units)
      requires forall u :: u in units ==> ScopeOf(u.key) == scope
      modifies `files, `lost, `log
      ensures Valid() && OnlyLosses(tradeDataDir, old(Here()), Here(), scope)
      ensures WrittenKeys(log) == WrittenKeys(old(log))
      ensures KeysOf(toWrite) == Filter(KeysOf(units), (k: StepKey) => k in KeysOf(toWrite))
      ensures forall u :: u in toWrite ==> u in units && NeedsWrite(steps[u.key], old(files))
      ensures forall u :: u in units && NeedsWrite(steps[u.key], files) ==> u in toWrite
      ensures DistinctKeyed(toWrite)
    {
      hide Valid, NeedsWrite, OnlyLosses, WrittenKeys, KeysOf, Filter, Selected, DistinctKeyed, Fewer;
      NothingLost(tradeDataDir, Here(), scope);
      NoneSelected(units, steps, files);
      ghost var chosen: set<StepKey> := {};
      toWrite := [];
      for i := 0 to |units|
        invariant Valid() && AllCoherent(units) && OnlyLosses(tradeDataDir, old(Here()), Here(), scope)
        invariant WrittenKeys(log) == WrittenKeys(old(log))
        invariant Selected(units, i, toWrite, chosen, steps, old(files), files)
      {
        assert units[i] in units && Coherent(units[i]);
        ghost var before := Here();
        LoseFiles(ScopeOf(units[i].key));
        OnlyLossesMore(tradeDataDir, old(Here()), before, Here(), scope);
        OnlyLossesIsMeanwhile(tradeDataDir, before, Here(), scope);
        OnlyLossesIsMeanwhile(tradeDataDir, old(Here()), Here(), scope);
        StillSelected(units, i, toWrite, chosen, steps, old(files), before.files, files);
        SelectedMore(units, i, toWrite, chosen, steps, old(files), files);
        if NeedsWrite(units[i].step.value, files) {
          toWrite := toWrite + [units[i]];
          chosen := chosen + {units[i].key};
        }
      }
      AllSelected(units, toWrite, chosen, steps, old(files), files);
    }

    /** The units of a round are written one after the other; a failure stops none of the others. */
    method WriteInOrder(sorted: seq<SyncUnit>, units: seq<SyncUnit>, ghost scope: Scope, healthy: bool)
      requires Valid() && AllCoherent(units) && WellKeyed(units) && DistinctKeyed(sorted)
      requires forall u :: u in units ==> ScopeOf(u.key) == scope
      requires forall u :: u in sorted ==> u in units && WriteDue(steps[u.key])
      modifies `steps, `files, `lost, `committed, `log, units, writer
      ensures Valid() && AllCoherent(units) && Grew(tradeDataDir, old(log), log, scope)
      ensures Intact(tradeDataDir, old(Here()), Here()) && Fewer(old(files), files)
      ensures WritesSoFar(tradeDataDir, old(Here()), Here(), KeysOf(sorted))
      ensures WrittenKeys(log) == WrittenKeys(old(log)) + KeysOf(sorted)
      ensures forall k :: k in KeysOf(sorted) ==> Attempted(old(log), log, k, WriteAttempt)
      ensures healthy ==> forall u :: u in sorted && Fits(u.key, u.keys, steps, files) ==> WriteOk(steps[u.key])
      ensures sorted == [] ==> Here() == old(Here())
    {
      hide Inv, Possible, Valid, WriteDue, Grew, Tried, SamePull, WritesSoFar, UnitKey, SafeName, Attempted,
           AttemptedTwice, WrittenKeys, Fits, WriteOk, Intact, Kept, Fewer, Transform, WriteTables, WellKeyed,
           DistinctKeyed;
      NoWrites(tradeDataDir, Here(), Here());
      NothingChanged(steps, []);
      NothingLost(tradeDataDir, Here(), scope);
      OnlyLossesIsMeanwhile(tradeDataDir, Here(), Here(), scope);
      for i := 0 to |sorted|
        invariant Valid() && AllCoherent(units) && Grew(tradeDataDir, old(log), log, scope)
        invariant Intact(tradeDataDir, old(Here()), Here()) && Fewer(old(files), files)
        invariant WritesSoFar(tradeDataDir, old(Here()), Here(), KeysOf(sorted[..i]))
        invariant WrittenKeys(log) == WrittenKeys(old(log)) + KeysOf(sorted[..i])
        invariant forall k :: k in KeysOf(sorted[..i]) ==> Attempted(old(log), log, k, WriteAttempt)
        invariant healthy ==> forall j :: 0 <= j < i && Fits(sorted[j].key, sorted[j].keys, steps, files) ==>
                    WriteOk(steps[sorted[j].key])
        invariant forall j :: i <= j < |sorted| ==> sorted[j].key in steps && WriteDue(steps[sorted[j].key])
        invariant i == 0 ==> Here() == old(Here())
      {
        TakeOneMore(sorted, i);
        KeysOfOneMore(sorted[..i], sorted[i]);
        ghost var before := Here();
        assert sorted[i] in sorted;
        UnitIsKeyed(units, sorted[i]);
        KeysApart(sorted, i);
        var databaseUp: bool := *;
        var acknowledged: bool := *;
        if healthy {
          databaseUp, acknowledged := true, true;
        }
        var _ := WriteUnit(sorted[i], databaseUp, acknowledged);
        FitsAlike(before.steps, steps, before.files, files, sorted, i);
        assert WrittenKeys(log) == WrittenKeys(old(log)) + (KeysOf(sorted[..i]) + [sorted[i].key]);
        WritesGoOn(tradeDataDir, old(Here()), before, Here(), scope);
        WriteMore(tradeDataDir, old(Here()), before, KeysOf(sorted[..i]), Here(), sorted[i].key);
      }
      assert sorted[..|sorted|] == sorted;
    }

    /** A write round: the eligible units are written once each, in the stable order of their data types. */
    method WriteRound(units: seq<SyncUnit>, ghost scope: Scope, healthy: bool) returns (ghost attempted: seq<StepKey>)
      requires Valid() && AllCoherent(units) && DistinctKeyed(units) && WellKeyed(units)
      requires forall u :: u in units ==> ScopeOf(u.key) == scope
      modifies `steps, `files, `lost, `committed, `log, units, writer
      ensures Valid() && AllCoherent(units) && WriteStep(tradeDataDir, units, old(Here()), Here(), attempted, scope)
      ensures InWriteOrder(attempted, KeysOf(units))
      ensures WrittenKeys(log) == WrittenKeys(old(log)) + attempted
      ensures healthy ==> DueWritten(units, old(steps), steps, files)
    {
      hide Inv, Possible, Valid, NeedsPull, NeedsWrite, Grew, SortByRank, SortByType, Tried, SamePull, WritesSoFar,
           UnitKey, SafeName, Attempted, AttemptedTwice, WrittenKeys, Fits, WriteOk, Intact, Kept, Fewer,
           WellKeyed, DistinctKeyed, RowsOwn, OnlyLosses, WriteStep, KeysOf, WriteDue, InWriteOrder;
      ghost var before := Here();
      var toWrite := SelectWrites(units, scope);
      ghost var mid := Here();
      OnlyLossesIsMeanwhile(tradeDataDir, before, mid, scope);
      var sorted := SortByRank(toWrite, UnitRank);
      attempted := KeysOf(sorted);
      SortedKeys(toWrite);
      SortedDistinct(toWrite);
      forall u: SyncUnit
        ensures u in sorted <==> u in toWrite
      {
        SortedMember(toWrite, u);
      }
      forall u | u in sorted
        ensures u in units && WriteDue(steps[u.key])
      {
        DueIfNeeded(steps[u.key], before.files);
      }
      WriteInOrder(sorted, units, scope, healthy);
      SameSelection(units, toWrite, sorted);
      SortedInWriteOrder(attempted, KeysOf(units));
      RowsOwned();
      WritesMakeStep(tradeDataDir, units, sorted, before, mid, Here(), scope, healthy);
    }

    /** Pull, write, pull again what failed, write again what failed. */
    method Rounds(units: seq<SyncUnit>, ghost scope: Scope, healthy: bool)
      requires Valid() && AllCoherent(units) && DistinctKeyed(units) && WellKeyed(units)
      requires forall u :: u in units ==> ScopeOf(u.key) == scope
      modifies `steps, `files, `lost, `committed, `commands, `nextCommandId, `log, units, writer
      ensures Valid() && AllCoherent(units) && RoundsDone(tradeDataDir, units, old(Here()), Here(), scope)
      ensures WrittenOnce(old(log), log)
      ensures healthy ==> AllWentWell(tradeDataDir, old(log), log, SpecsOf(units), steps, files)
    {
      hide Inv, Possible, Valid, WellKeyed, DistinctKeyed, SortByType, WrittenKeys, WrittenOnce, KeysOf, PullStep,
           WriteStep, RoundsDone, DueWritten, AllWentWell, AllPulled, RunLog, PullEnded, Fewer;
      ghost var p0 := Here();
      var pulled := PullRound(units, scope, healthy);
      ghost var p1 := Here();
      var attempted := WriteRound(units, scope, healthy);
      ghost var p2 := Here();
      var pulled' := PullRound(units, scope, healthy);
      ghost var p3 := Here();
      var attempted' := WriteRound(units, scope, healthy);
      FourSteps(tradeDataDir, units, p0, p1, p2, p3, Here(), pulled, pulled', attempted, attempted', scope);
      if healthy {
        HealthyUnits(tradeDataDir, units, p2, p3, Here(), attempted', scope);
      }
      StillWellIf(tradeDataDir, p0.log, p2.log, log, SpecsOf(units), steps, files, healthy);
      assert Possible(start, log) && start.dir == tradeDataDir by { ValidMeansLed(); }
      RoundsLog(tradeDataDir, units, p0, Here(), scope);
      RunWritesOnce(start, p0.log, log, scope, false);
    }

    // ---- reporting ---------------------------------------------------------------

    method RecordWarnings(units: seq<SyncUnit>, opsTaskId: int, ghost scope: Scope)
      requires Valid() && AllCoherent(units) && WellKeyed(units) && forall u :: u in units ==> ScopeOf(u.key) == scope
      modifies `files, `lost, `warnings, `log
      ensures Valid() && Meanwhile(tradeDataDir, old(Here()), Here(), scope)
      ensures forall k :: k in KeysOf(units) ==> k in steps
      ensures warnings == old(warnings) + multiset(WarningsFor(KeysOf(units), steps, opsTaskId))
      ensures (forall u :: u in units ==> FullyOk(steps[u.key])) ==> Here() == old(Here())
    {
      hide Inv, Possible, Valid, Meanwhile, FullyOk, UnitKey, SafeName, WarningsFor, WarningFor, KeysOf, Enabled;
      NothingChanged(steps, units);
      NothingLost(tradeDataDir, Here(), scope);
      OnlyLossesIsMeanwhile(tradeDataDir, Here(), Here(), scope);
      AllRowsThere(units, steps);
      NoWarnings(steps, opsTaskId);
      for i := 0 to |units|
        invariant Valid() && Meanwhile(tradeDataDir, old(Here()), Here(), scope) && AllCoherent(units)
        invariant forall k :: k in KeysOf(units[..i]) ==> k in steps
        invariant warnings == old(warnings) + multiset(WarningsFor(KeysOf(units[..i]), steps, opsTaskId))
        invariant (forall u :: u in units ==> FullyOk(steps[u.key])) ==> Here() == old(Here())
      {
        TakeOneMore(units, i);
        KeysOfOneMore(units[..i], units[i]);
        var unit := units[i];
        assert unit in units && Coherent(unit);
        WarningsStep(KeysOf(units[..i]), steps, opsTaskId, unit.key);
        if FullyOk(unit.step.value) {
          continue;
        }
        var warning := WarningFor(unit.key, unit.step.value, opsTaskId);
        ghost var before := Here();
        WarnIsEnabled(unit.key, warning);
        CreateWarning(unit.key, warning);
        MeanwhileMore(tradeDataDir, old(Here()), before, Here(), scope);
      }
      assert units[..|units|] == units;
    }

    lemma WarnIsEnabled(k: StepKey, warning: Warning)
      requires Valid() && k in steps
      ensures Enabled(State(), Warn(k, warning))
    {
      hide OwnPath, UnitKey;
      RowsOwned();
    }

    method Summarize(units: seq<SyncUnit>) returns (r: RunSummary)
      requires AllCoherent(units)
      ensures (forall k :: k in KeysOf(units) ==> k in steps) && SummaryOf(r, KeysOf(units), steps)
    {
      AllRowsThere(units, steps);
      r := RunSummary(0, 0, 0, 0, [], []);
      for i := 0 to |units|
        invariant forall k :: k in KeysOf(units[..i]) ==> k in steps
        invariant SummaryOf(r, KeysOf(units[..i]), steps)
      {
        TakeOneMore(units, i);
        KeysOfOneMore(units[..i], units[i]);
        assert Coherent(units[i]);
        SummaryStep(r, KeysOf(units[..i]), steps, units[i].key);
        r := CountUnit(r, units[i].key, units[i].step.value);
      }
      assert units[..|units|] == units;
    }

    // ---- the run -----------------------------------------------------------------

    /** Reset if forced, then a row for every unit, stamped with the id of the operations task. */
    method Prepare(input: RunInput, units: seq<SyncUnit>, types: seq<TradeDataType>, ghost scope: Scope)
      requires Valid() && DistinctKeyed(units) && WellKeyed(units)
      requires scope == Scope(input.tradeDay, input.taskType) && forall u :: u in units ==> ScopeOf(u.key) == scope
      requires forall u :: u in units ==> MatchesFilter(u.key, FilterOf(input, types))
      modifies `steps, `files, `nextStepId, `lost, `committed, `log, units
      ensures Valid() && AllCoherent(units) && Intact(tradeDataDir, old(Here()), Here()) && Fewer(old(files), files)
      ensures RunLog(tradeDataDir, old(log), log, scope, input.force)
      ensures forall k :: k in old(steps) && k !in KeysOf(units) ==>
                && k in steps
                && steps[k] == if input.force then Reset(old(steps), FilterOf(input, types))[k] else old(steps)[k]
      ensures forall k :: k in steps ==> k in old(steps) || k in KeysOf(units)
      ensures forall u :: u in units && u.key in old(steps) ==>
                steps[u.key] == (if input.force then ResetStep(old(steps)[u.key]) else old(steps)[u.key])
                                .(opsTaskId := Some(input.opsTaskId))
      ensures forall u :: u in units && u.key !in old(steps) ==>
                steps[u.key] == NewStep(steps[u.key].id).(opsTaskId := Some(input.opsTaskId))
    {
      hide Inv, Possible, Valid, RunLog, KeysOf, UnitKey, SafeName, Meanwhile, OnlyLosses, Intact, Fewer, Reset,
           MatchesFilter, ResetStep, NewStep, OnlyRowsOf;
      RunLogBegins(tradeDataDir, log, ResetSteps(FilterOf(input, types)), scope, input.force);
      ghost var p0 := Here();
      if input.force {
        ResetMatchingSteps(FilterOf(input, types));
      }
      ghost var p1 := Here();
      EnsureSteps(units, scope);
      ghost var p2 := Here();
      StampOpsTaskId(units, input.opsTaskId, scope);
      Prepared(tradeDataDir, p0, p1, p2, Here(), scope, input.force);
      PreparedRows(p0.steps, p1.steps, p2.steps, steps, input, types, units);
    }

    /** No row that was there at an earlier point of the log has gone or changed its id. */
    lemma IdsKept(before: seq<Effect>, rows: map<StepKey, SyncStep>)
      requires Valid() && before <= log && After(start, before).steps == rows
      ensures forall k :: k in rows ==> k in steps && steps[k].id == rows[k].id
    {
      RowsKeepIds(start, log, |before|, |log|);
      assert log[..|before|] == before && log[..|log|] == log;
    }

    /** The rows of the units are prepared, and the four rounds are run. */
    method Work(input: RunInput, units: seq<SyncUnit>, types: seq<TradeDataType>, ghost scope: Scope, healthy: bool)
      requires Valid() && DistinctKeyed(units) && WellKeyed(units)
      requires scope == Scope(input.tradeDay, input.taskType) && ResolveDataTypes(input) == Ok(types)
      requires forall u :: u in units ==> MatchesFilter(u.key, FilterOf(input, types))
      modifies `steps, `files, `lost, `committed, `commands, `nextStepId, `nextCommandId, `log, units, writer
      ensures Valid() && AllCoherent(units)
      ensures RunLog(tradeDataDir, old(log), log, scope, input.force) && Intact(tradeDataDir, old(Here()), Here())
      ensures forall k :: old(commands)[k] <= commands[k] <= old(commands)[k] + 2
      ensures forall k :: k !in KeysOf(units) ==> commands[k] == old(commands)[k]
      ensures input.force ==> forall u :: u in units ==>
                u.key in steps && (commands[u.key] > old(commands)[u.key] || steps[u.key].pullStatus == FAILED)
      ensures RowsAfter(old(steps), steps, input, KeysOf(units))
      ensures forall k :: k in KeysOf(units) ==> Treated(tradeDataDir, old(log), log, steps, files, k)
      ensures healthy ==> AllWentWell(tradeDataDir, old(log), log, SpecsOf(units), steps, files)
      ensures NoLosses(old(log), log) && !input.force && AllSettledBefore(old(steps), old(files), KeysOf(units)) ==>
                && steps == Stamped(old(steps), KeysOf(units), input.opsTaskId)
                && files == old(files) && writer.tables == old(writer.tables) && commands == old(commands)
                && forall k :: k in KeysOf(units) ==> FullyOk(steps[k])
    {
      hide Inv, Possible, Valid, Grew, RunLog, KeysOf, UnitKey, SafeName, WellKeyed, After, RowsAfter, Treated,
           AllWentWell, AllSettledBefore, Stamped, NeedsPull, WriteOk, FullyOk, ResetStep, NewStep, Reset, Intact,
           NoLosses, Fewer, RowsOwn, Kept, DistinctKeyed, SpecsOf, AllInScope, MatchesFilter, ResolveDataTypes;
      UnitsInScope(units, input, types);
      ghost var p0 := Here();
      assert After(start, log).steps == steps by { ValidMeansLed(); }
      Prepare(input, units, types, scope);
      ghost var p1 := Here();
      if input.force {
        ForcedNeedPull(p0.steps, p1.steps, files, units, input.opsTaskId);
      }
      Rounds(units, scope, healthy);
      RunComposes(tradeDataDir, p0, p1, Here(), scope, input.force);
      FilesAsTheyAre(Here());
      RowsOwned();
      AllStillTreated(tradeDataDir, p0.log, p1.log, Here(), Here(), units);
      StillWellIf(tradeDataDir, p0.log, p1.log, log, SpecsOf(units), steps, files, healthy);
      assert RowsAfter(p0.steps, steps, input, KeysOf(units)) by {
        IdsKept(p0.log, p0.steps);
        RowsAfterRun(p0.steps, p1.steps, steps, input, types, KeysOf(units));
      }
      KeyOwners(units);
      if NoLosses(p0.log, log) && !input.force && AllSettledBefore(p0.steps, p0.files, KeysOf(units)) {
        NoLossesParts(p0.log, p1.log, log);
        NoneLost(tradeDataDir, p0, p1);
        StampedStillSettled(p0.steps, p1.steps, p0.files, units, input.opsTaskId);
      }
    }

    lemma RunIsSafe(before: seq<Effect>, scope: Scope, force: bool)
      requires Valid() && RunLog(tradeDataDir, before, log, scope, force)
      ensures Inv(State()) && WrittenOnce(before, log)
    {
      hide Valid, Inv, Possible, RunLog, WrittenOnce;
      ValidMeansLed();
      RunWritesOnce(start, before, log, scope, force);
      EveryCrashStateIsSafe(|log|);
    }

    lemma UnitsInScope(units: seq<SyncUnit>, input: RunInput, types: seq<TradeDataType>)
      requires forall u :: u in units ==> MatchesFilter(u.key, FilterOf(input, types))
      ensures forall u :: u in units ==> ScopeOf(u.key) == Scope(input.tradeDay, input.taskType)
    {
    }

    /** What a run does to its units, once they are loaded. */
    method RunUnits(input: RunInput, units: seq<SyncUnit>, types: seq<TradeDataType>, healthy: bool)
      returns (r: RunSummary)
      requires Valid() && DistinctKeyed(units) && WellKeyed(units) && ResolveDataTypes(input) == Ok(types)
      requires forall u :: u in units ==> MatchesFilter(u.key, FilterOf(input, types))
      modifies this, units, writer
      ensures Valid() && Inv(State())
      ensures RunLog(tradeDataDir, old(log), log, Scope(input.tradeDay, input.taskType), input.force)
      ensures WrittenOnce(old(log), log) && Intact(tradeDataDir, old(Here()), Here())
      ensures forall k :: k in KeysOf(units) ==> Treated(tradeDataDir, old(log), log, steps, files, k)
      ensures forall k :: k in KeysOf(units) ==> k in steps
      ensures SummaryOf(r, KeysOf(units), steps)
      ensures warnings == old(warnings) + multiset(WarningsFor(KeysOf(units), steps, input.opsTaskId))
      ensures WarningsTell(WarningsFor(KeysOf(units), steps, input.opsTaskId), KeysOf(units), steps, input.opsTaskId)
      ensures forall k :: old(commands)[k] <= commands[k] <= old(commands)[k] + 2
      ensures forall k :: k !in KeysOf(units) ==> commands[k] == old(commands)[k]
      ensures input.force ==> forall k :: k in KeysOf(units) ==>
                commands[k] > old(commands)[k] || steps[k].pullStatus == FAILED
      ensures RowsAfter(old(steps), steps, input, KeysOf(units))
      ensures healthy ==> AllWentWell(tradeDataDir, old(log), log, SpecsOf(units), steps, files)
      ensures WrittenInSync(State(), KeysOf(units), lost)
      ensures (forall k :: k in KeysOf(units) ==> k !in lost) ==> r.writeSuccess + r.writeFailed == r.pullSuccess
      ensures NoLosses(old(log), log) && !input.force && AllSettledBefore(old(steps), old(files), KeysOf(units)) ==>
                && steps == Stamped(old(steps), KeysOf(units), input.opsTaskId)
                && files == old(files) && writer.tables == old(writer.tables)
                && warnings == old(warnings) && commands == old(commands)
    {
      hide Inv, Possible, Valid, Grew, RunLog, WrittenOnce, KeysOf, UnitKey, SafeName, Treated, WarningsFor, SummaryOf,
           WellKeyed, After, RowsAfter, WrittenInSync, AllWentWell, AllSettledBefore, Stamped, FullyOk, Intact, Fewer,
           Meanwhile, NoLosses, RowsOwn, WarningsTell, ResolveDataTypes, DistinctKeyed, SpecsOf, FilterOf,
           MatchesFilter;
      assert forall u :: u in units ==> ScopeOf(u.key) == Scope(input.tradeDay, input.taskType) by {
        UnitsInScope(units, input, types);
      }
      ghost var scope := Scope(input.tradeDay, input.taskType);
      ghost var p0 := Here();
      Work(input, units, types, scope, healthy);
      ghost var p1 := Here();
      RowsOwned();
      RecordWarnings(units, input.opsTaskId, scope);
      r := Summarize(units);
      WarningsExactly(KeysOf(units), steps, input.opsTaskId);
      ReportKeeps(tradeDataDir, p0, p1, Here(), units, scope, input.force, healthy);
      RunIsSafe(p0.log, scope, input.force);
      FiguresAreHonest(State(), KeysOf(units), lost, r);
      KeyOwners(units);
      if NoLosses(p0.log, log) && !input.force && AllSettledBefore(p0.steps, p0.files, KeysOf(units)) {
        NoLossesParts(p0.log, p1.log, log);
        AllOkNoWarnings(KeysOf(units), steps, input.opsTaskId);
      }
    }

    lemma ValidMeansLed()
      requires Valid()
      ensures After(start, log) == State() && Possible(start, log) && start.dir == tradeDataDir
    {
      hide Apply, Enabled, Inv, Possible;
      DirKept(start, log);
    }

    /**
     One run, during which files of its units may be lost between any two effects and looks at the disk. It
     throws, before any effect, exactly when no requested data type belongs to its task type. Otherwise every
     unit of the input ends pulled or failed; one that lost no file meanwhile has its file if it is pulled, is
     then written or failed, and if it ends failed was attempted in both rounds. Each unit is commanded at most
     twice; a forced run commands every unit that does not end failed; a run creates a row exactly when a unit
     of it had none; without losses a run over units that are all done changes nothing but their task id; rows
     of other units change only by the reset of a forced run; and what counts as written has its file and a
     slice that says the same, unless the file was lost.
     `healthy` says that nothing else outside fails: every unit has a master server, every host answers, every
     command returns 0 and delivers its file, and the database is up. Then every unit that lost no file is
     pulled, and written unless its file stands for no rows.
     */
    method Run(input: RunInput, accounts: seq<Account>, healthy: bool)
      returns (result: Result<RunSummary>, ghost units: seq<UnitSpec>)
      requires Valid() && WellFormedAccounts(accounts) && PlainNames(input, accounts)
      modifies this, writer
      ensures Valid() && Inv(State())
      ensures RunLog(tradeDataDir, old(log), log, Scope(input.tradeDay, input.taskType), input.force)
      ensures WrittenOnce(old(log), log) && Intact(tradeDataDir, old(Here()), Here())
      ensures result.Ok? <==> input.dataTypes == [] || exists t :: t in input.dataTypes && Syncs(input.taskType, t)
      ensures result.Err? ==> log == old(log) && State() == old(State())
      ensures result.Ok? ==> ExactUnits(units, input, accounts)
      ensures result.Ok? ==>
                var keys := SpecKeys(units);
                && (forall k :: k in keys ==> Treated(tradeDataDir, old(log), log, steps, files, k))
                && (forall k :: k in keys ==> k in steps) && SummaryOf(result.value, keys, steps)
                && warnings == old(warnings) + multiset(WarningsFor(keys, steps, input.opsTaskId))
                && WarningsTell(WarningsFor(keys, steps, input.opsTaskId), keys, steps, input.opsTaskId)
                && (forall k :: old(commands)[k] <= commands[k] <= old(commands)[k] + 2)
                && (forall k :: k !in keys ==> commands[k] == old(commands)[k])
                && (input.force ==> forall k :: k in keys ==>
                      commands[k] > old(commands)[k] || steps[k].pullStatus == FAILED)
                && RowsAfter(old(steps), steps, input, keys)
                && (Creates(log[|old(log)|..]) == 0 <==> forall k :: k in keys ==> k in old(steps))
                && (healthy ==> AllWentWell(tradeDataDir, old(log), log, units, steps, files))
                && WrittenInSync(State(), keys, lost)
                && ((forall k :: k in keys ==> k !in lost) ==>
                      result.value.writeSuccess + result.value.writeFailed == result.value.pullSuccess)
                && (NoLosses(old(log), log) && !input.force && AllSettledBefore(old(steps), old(files), keys) ==>
                      && steps == Stamped(old(steps), keys, input.opsTaskId)
                      && files == old(files) && writer.tables == old(writer.tables)
                      && warnings == old(warnings) && commands == old(commands))
    {
      hide Inv, Possible, After, Treated, WarningsFor, SummaryOf, AllWentWell, Kept, Stamped, AllSettledBefore,
           WrittenInSync, UnitKey, SafeName, WellFormedAccounts, PlainNames, RowsOwn,
           ExactUnits, WarningsTell, ResolveDataTypes, Syncs, Named;
      TypesExactly(input);
      units := [];
      var types := ResolveDataTypes(input);
      if types.Err? {
        EveryCrashStateIsSafe(|log|);
        NothingLost(tradeDataDir, Here(), Scope(input.tradeDay, input.taskType));
        return Err(types.message), [];
      }
      var loaded := LoadUnits(input, accounts, types.value);
      units := SpecsOf(loaded);
      assert KeysOf(loaded) == SpecKeys(units) by {
        assert forall i :: 0 <= i < |loaded| ==> SpecsOf(loaded)[i].key == loaded[i].key;
      }
      ghost var before := log;
      assert After(start, before).steps == steps by { ValidMeansLed(); }
      var r := RunUnits(input, loaded, types.value, healthy);
      ValidMeansLed();
      CreatesForNewUnits(start, before, log, Scope(input.tradeDay, input.taskType), input.force, KeysOf(loaded));
      return Ok(r), units;
    }
  }
}
