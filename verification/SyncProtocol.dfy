/**
 The persistent side of the resumable trade-data sync: step rows, local files and tables, and the
 effects a run has on them one at a time. A process may stop between any two effects, so what holds
 after every beginning of every possible sequence of effects holds after every crash.
 */
module SyncProtocol {
  import opened Common
  import opened Paths
  import opened Tables
  import opened Writer

  datatype Status = PENDING | SUCCESS | FAILED

  /** The unique key of a step row. */
  datatype StepKey = StepKey(
    tradeDay: string, taskType: OpsTaskType, fundAccount: string, market: Market, dataType: TradeDataType)

  datatype SyncStep = SyncStep(
    id: nat, pullStatus: Status, writeStatus: Status, localFilePath: Option<string>,
    pullError: Option<string>, writeError: Option<string>, opsTaskId: Option<int>)

  datatype Warning = Warning(tradeDay: string, opsTaskId: int, fundAccount: string, text: string)

  /**
   Everything that survives a crash. `commands` counts the remote-command rows created for each unit.
   The last two are bookkeeping of the model: `lost` has the keys of steps whose local file disappeared
   since their slice was last committed, `committed` those of units that were committed and for which
   nothing was done since, so that the success mark is next.
   */
  datatype Store = Store(
    dir: string,
    steps: map<StepKey, SyncStep>,
    files: map<string, Content>,
    tables: TradeTables,
    warnings: multiset<Warning>,
    commands: multiset<StepKey>,
    lost: set<StepKey>,
    committed: set<StepKey>)

  // ---- keys, paths and slices ------------------------------------------------

  /** The data types a task owns. */
  function DefaultTypes(task: OpsTaskType): seq<TradeDataType> {
    match task
    case BEFORE_SYNC_FUND_ACCOUNT => [FUND]
    case AFTER_SYNC_FUND_ACCOUNT => [FUND]
    case AFTER_SYNC_TRADE_DATA => [POSITION, ORDER, TRADE]
    case OTHER_TASK => []
  }

  /** The keys of units that a run can have. */
  predicate UnitKey(k: StepKey) {
    k.dataType in DefaultTypes(k.taskType) && SafeName(k.fundAccount) && DayShape(k.tradeDay)
  }

  function KindByType(dataType: TradeDataType): FileKind {
    match dataType
    case FUND => FundFile
    case POSITION => PositionFile
    case ORDER => OrderFile
    case TRADE => TradeFile
  }

  function UnitParams(brokerKey: string, k: StepKey): FileParams {
    FileParams(brokerKey, k.fundAccount, k.tradeDay, KindByType(k.dataType), k.market, Some(k.taskType))
  }

  function UnitPath(dir: string, brokerKey: string, k: StepKey): string {
    LocalTradeDataFile(dir, UnitParams(brokerKey, k)).value
  }

  /** A path that the unit has had under some broker: an account may change its broker between runs. */
  ghost predicate OwnPath(dir: string, k: StepKey, path: string) {
    exists brokerKey :: SafeName(brokerKey) && path == UnitPath(dir, brokerKey, k)
  }

  lemma OwnPathInjective(dir: string, k: StepKey, other: StepKey, path: string)
    requires UnitKey(k) && UnitKey(other) && OwnPath(dir, k, path) && OwnPath(dir, other, path)
    ensures k == other
  {
    var b :| SafeName(b) && path == UnitPath(dir, b, k);
    var c :| SafeName(c) && path == UnitPath(dir, c, other);
    PathInjective(dir, UnitParams(b, k), UnitParams(c, other));
  }

  /** A unit's file is named after what it holds, in the folder of its broker, account and day. */
  lemma UnitPathText(dir: string, brokerKey: string, k: StepKey)
    requires UnitKey(k)
    ensures var day := k.tradeDay[..4] + (k.tradeDay[5..7] + k.tradeDay[8..]);
            var market := if k.market == SH then "SH" else if k.market == SZ then "SZ" else MarketName(k.market);
            var ending := "." + (market + ("." + "json"));
            var name := if k.dataType == POSITION then "position" + ending
                        else if k.dataType == ORDER then "order" + ending
                        else if k.dataType == TRADE then "trade" + ending
                        else if k.taskType == BEFORE_SYNC_FUND_ACCOUNT
                        then "fund" + ("." + ("BEFORE_SYNC_FUND_ACCOUNT" + ending))
                        else "fund" + ("." + ("AFTER_SYNC_FUND_ACCOUNT" + ending));
            UnitPath(dir, brokerKey, k)
            == dir + ("/" + (brokerKey + ("/" + (k.fundAccount + ("/" + (day + ("/" + name)))))))
  {
    PathText(dir, UnitParams(brokerKey, k));
    hide LocalTradeDataFile;
  }

  function FundReason(task: OpsTaskType, dataType: TradeDataType): Option<Reason> {
    if dataType != FUND then None
    else if task == BEFORE_SYNC_FUND_ACCOUNT then Some(BEFORE_TRADING_DAY)
    else if task == AFTER_SYNC_FUND_ACCOUNT then Some(AFTER_TRADING_DAY)
    else None
  }

  function InputOf(k: StepKey, keys: AccountKeys): WriteInput {
    WriteInput(k.dataType, DaySlice(k.tradeDay, k.fundAccount, k.market), keys, FundReason(k.taskType, k.dataType))
  }

  /** The slice that a unit owns. */
  function SliceKeyOf(k: StepKey): SliceKey
    requires UnitKey(k)
  {
    TargetOf(InputOf(k, AccountKeys("", "", ""))).value
  }

  lemma SliceKeyInjective(k: StepKey, other: StepKey)
    requires UnitKey(k) && UnitKey(other) && SliceKeyOf(k) == SliceKeyOf(other)
    ensures k == other
  {
  }

  // ---- effects ---------------------------------------------------------------

  /** Empty filters stand for filters that were not given. */
  datatype StepFilter = StepFilter(
    tradeDay: string, taskType: OpsTaskType, dataTypes: seq<TradeDataType>,
    fundAccounts: seq<string>, markets: seq<Market>)

  predicate MatchesFilter(k: StepKey, f: StepFilter) {
    && k.tradeDay == f.tradeDay && k.taskType == f.taskType && k.dataType in f.dataTypes
    && (f.fundAccounts == [] || k.fundAccount in f.fundAccounts)
    && (f.markets == [] || k.market in f.markets)
  }

  datatype Effect =
    | ResetSteps(filter: StepFilter)
    | CreateStep(key: StepKey, id: nat)
    | StampTask(key: StepKey, opsTaskId: int)
    | IssueCommand(key: StepKey)
    | SaveFile(key: StepKey, path: string, content: Content)
    | PullSucceeded(key: StepKey, path: string)
    | PullFailed(key: StepKey, message: string)
    | CommitWrite(key: StepKey, keys: AccountKeys)
    | WriteSucceeded(key: StepKey)
    | WriteFailed(key: StepKey, message: string)
    | Warn(key: StepKey, warning: Warning)
    | LoseFile(path: string)

  function ResetStep(step: SyncStep): SyncStep {
    step.(pullStatus := PENDING, writeStatus := PENDING, pullError := None, writeError := None)
  }

  function NewStep(id: nat): SyncStep {
    SyncStep(id, PENDING, PENDING, None, None, None, None)
  }

  /** A row to which nothing has happened: to be pulled and to be written. */
  predicate Untouched(step: SyncStep) {
    && step.pullStatus == PENDING && step.writeStatus == PENDING && step.localFilePath == None
    && step.pullError == None && step.writeError == None && step.opsTaskId == None
  }

  function Reset(steps: map<StepKey, SyncStep>, filter: StepFilter): map<StepKey, SyncStep> {
    map k | k in steps :: if MatchesFilter(k, filter) then ResetStep(steps[k]) else steps[k]
  }

  /** The unit's local file is there and its write goes through. */
  ghost predicate Commits(s: Store, k: StepKey, keys: AccountKeys) {
    && k in s.steps && s.steps[k].localFilePath.Some? && s.steps[k].localFilePath.value in s.files
    && WriteTables(s.tables, InputOf(k, keys), s.files[s.steps[k].localFilePath.value]).Some?
  }

  /** The tables after an attempt to write a unit's local file. */
  ghost function Committed(s: Store, k: StepKey, keys: AccountKeys): TradeTables {
    if Commits(s, k, keys)
    then WriteTables(s.tables, InputOf(k, keys), s.files[s.steps[k].localFilePath.value]).value
    else s.tables
  }

  /** What an update of one row does to it; the row is left alone by effects that do not concern rows. */
  function Updated(step: SyncStep, e: Effect): SyncStep {
    match e
    case StampTask(_, id) => step.(opsTaskId := Some(id))
    case PullSucceeded(_, path) =>
      step.(pullStatus := SUCCESS, localFilePath := Some(path), pullError := None)
    case PullFailed(_, message) => step.(pullStatus := FAILED, pullError := Some(message))
    case WriteSucceeded(_) => step.(writeStatus := SUCCESS, writeError := None)
    case WriteFailed(_, message) => step.(writeStatus := FAILED, writeError := Some(message))
    case _ => step
  }

  ghost function Apply(s: Store, e: Effect): Store {
    match e
    case ResetSteps(filter) =>
      s.(steps := Reset(s.steps, filter), committed := set k | k in s.committed && !MatchesFilter(k, filter))
    case CreateStep(k, id) => s.(steps := s.steps[k := NewStep(id)])
    case IssueCommand(k) => s.(commands := s.commands + multiset{k})
    case SaveFile(k, path, content) => s.(files := s.files[path := content], committed := s.committed - {k})
    case CommitWrite(k, keys) =>
      if Commits(s, k, keys)
      then s.(tables := Committed(s, k, keys), lost := s.lost - {k}, committed := s.committed + {k})
      else s
    case Warn(_, warning) => s.(warnings := s.warnings + multiset{warning})
    case LoseFile(path) =>
      s.(files := s.files - {path},
         lost := s.lost + set k | k in s.steps && s.steps[k].localFilePath == Some(path))
    case _ =>
      var k := e.key;
      if k in s.steps then
        s.(steps := s.steps[k := Updated(s.steps[k], e)],
           committed := if e.StampTask? then s.committed else s.committed - {k})
      else s
  }

  // ---- when an effect may happen ----------------------------------------------

  predicate NeedsPull(step: SyncStep, files: map<string, Content>) {
    step.pullStatus != SUCCESS || step.localFilePath.None? || step.localFilePath.value !in files
  }

  predicate NeedsWrite(step: SyncStep, files: map<string, Content>) {
    !NeedsPull(step, files) && step.writeStatus != SUCCESS
  }

  /** The slice of the unit holds exactly what the content stands for, for some account keys. */
  ghost predicate InSync(t: TradeTables, k: StepKey, content: Content)
    requires UnitKey(k)
  {
    exists keys :: Transform(InputOf(k, keys), content) == Some(SliceOf(t, SliceKeyOf(k)))
  }

  /** Written, and its file has not been lost since. */
  ghost predicate Settled(s: Store, k: StepKey) {
    k in s.steps && s.steps[k].writeStatus == SUCCESS && k !in s.lost
  }

  /** The unit's local file is there and its slice says the same. */
  ghost predicate FileMatchesSlice(s: Store, k: StepKey)
    requires UnitKey(k) && k in s.steps
  {
    var path := s.steps[k].localFilePath;
    path.Some? && path.value in s.files && InSync(s.tables, k, s.files[path.value])
  }

  /** What an effect must look like whatever the state. */
  ghost predicate WellFormed(dir: string, e: Effect) {
    match e
    case ResetSteps(_) => true
    case LoseFile(_) => true
    case SaveFile(k, path, _) => UnitKey(k) && OwnPath(dir, k, path)
    case PullSucceeded(k, path) => UnitKey(k) && OwnPath(dir, k, path)
    case _ => UnitKey(e.key)
  }

  /**
   When the code performs an effect. Only a file loss comes from outside, and it may come between any two
   effects: the success marks ask for no file. A write needs its file until it has been read; a loss
   between the reading and the commit leaves the same state as a loss right after the commit.
   */
  ghost predicate Enabled(s: Store, e: Effect) {
    && WellFormed(s.dir, e)
    && match e
       case ResetSteps(_) => true
       case LoseFile(_) => true
       case CreateStep(k, id) => k !in s.steps && forall other :: other in s.steps ==> s.steps[other].id != id
       case StampTask(k, _) => k in s.steps
       case IssueCommand(k) => k in s.steps && NeedsPull(s.steps[k], s.files)
       case Warn(k, _) => k in s.steps
       case SaveFile(k, _, _) => k in s.steps && !Settled(s, k)
       case PullSucceeded(k, _) => k in s.steps && !Settled(s, k)
       case PullFailed(k, _) => k in s.steps && !Settled(s, k)
       case CommitWrite(k, _) => k in s.steps && NeedsWrite(s.steps[k], s.files)
       case WriteSucceeded(k) => k in s.steps && k in s.committed
       case WriteFailed(k, _) => k in s.steps && s.steps[k].writeStatus != SUCCESS
  }

  /** The state after a sequence of effects. */
  ghost function After(s: Store, es: seq<Effect>): Store {
    if es == [] then s else Apply(After(s, es[..|es| - 1]), es[|es| - 1])
  }

  ghost predicate Possible(s: Store, es: seq<Effect>) {
    forall n {:trigger es[n]} :: 0 <= n < |es| ==> Enabled(After(s, es[..n]), es[n])
  }

  // ---- the invariant ---------------------------------------------------------

  ghost predicate PathsOwn(s: Store) {
    forall k :: k in s.steps ==>
      UnitKey(k) && (s.steps[k].localFilePath.Some? ==> OwnPath(s.dir, k, s.steps[k].localFilePath.value))
  }

  ghost predicate PulledHavePath(s: Store) {
    forall k :: k in s.steps && s.steps[k].pullStatus == SUCCESS ==> s.steps[k].localFilePath.Some?
  }

  ghost predicate IdsDistinct(s: Store) {
    forall k, other :: k in s.steps && other in s.steps && s.steps[k].id == s.steps[other].id ==> k == other
  }

  /** What a settled unit guarantees. */
  ghost predicate SettledOk(s: Store, k: StepKey)
    requires UnitKey(k) && k in s.steps
  {
    s.steps[k].pullStatus == SUCCESS && FileMatchesSlice(s, k)
  }

  /** A written slice holds one whole file, if no longer the file that is on disk. */
  ghost predicate WholeSlice(s: Store, k: StepKey)
    requires UnitKey(k)
  {
    exists content :: InSync(s.tables, k, content)
  }

  /** What a committed unit that awaits its success mark guarantees, whether or not its file is lost by then. */
  ghost predicate CommittedOk(s: Store, k: StepKey)
    requires UnitKey(k) && k in s.steps
  {
    s.steps[k].pullStatus == SUCCESS && WholeSlice(s, k) && (k !in s.lost ==> FileMatchesSlice(s, k))
  }

  ghost predicate UnitOk(s: Store, k: StepKey)
    requires UnitKey(k) && k in s.steps
  {
    && (Settled(s, k) ==> SettledOk(s, k))
    && (s.steps[k].writeStatus == SUCCESS ==> WholeSlice(s, k))
    && (k in s.committed ==> CommittedOk(s, k))
  }

  ghost predicate UnitsOk(s: Store)
    requires PathsOwn(s)
  {
    (forall k :: k in s.committed ==> k in s.steps) && forall k :: k in s.steps ==> UnitOk(s, k)
  }

  ghost predicate Inv(s: Store) {
    PathsOwn(s) && PulledHavePath(s) && IdsDistinct(s) && UnitsOk(s)
  }

  function EmptyStore(dir: string, tables: TradeTables): Store {
    Store(dir, map[], map[], tables, multiset{}, multiset{}, {}, {})
  }

  lemma EmptyStoreIsFine(dir: string, tables: TradeTables)
    ensures Inv(EmptyStore(dir, tables))
  {
  }

  /** A committed write brings the unit's slice in sync with the file and touches no other unit's slice. */
  lemma CommitBringsInSync(s: Store, k: StepKey, keys: AccountKeys, other: StepKey)
    requires UnitKey(k) && UnitKey(other) && k in s.steps && NeedsWrite(s.steps[k], s.files)
    ensures var content := s.files[s.steps[k].localFilePath.value];
            && (Commits(s, k, keys) <==> Transform(InputOf(k, keys), content).Some?)
            && (Commits(s, k, keys) ==> InSync(Committed(s, k, keys), k, content))
    ensures other != k ==> SliceOf(Committed(s, k, keys), SliceKeyOf(other)) == SliceOf(s.tables, SliceKeyOf(other))
  {
    var content := s.files[s.steps[k].localFilePath.value];
    WriteExact(s.tables, InputOf(k, keys), content, SliceKeyOf(other));
    if other != k && SliceKeyOf(other) == SliceKeyOf(k) {
      SliceKeyInjective(k, other);
    }
  }

  /** A unit that keeps its row, its file and its slice keeps what it guarantees. */
  lemma UntouchedUnit(s: Store, u: Store, k: StepKey)
    requires UnitKey(k) && k in s.steps && k in u.steps && u.steps[k] == s.steps[k]
    requires UnitOk(s, k) && SliceOf(u.tables, SliceKeyOf(k)) == SliceOf(s.tables, SliceKeyOf(k))
    requires k in u.committed ==> k in s.committed
    requires k !in u.lost ==> k !in s.lost
    requires k !in u.lost && s.steps[k].localFilePath.Some? ==>
               var path := s.steps[k].localFilePath.value;
               path in s.files ==> path in u.files && u.files[path] == s.files[path]
    ensures UnitOk(u, k)
  {
    assert forall content :: InSync(s.tables, k, content) ==> InSync(u.tables, k, content);
  }

  lemma CommittingUnit(s: Store, k: StepKey, keys: AccountKeys)
    requires Inv(s) && Enabled(s, CommitWrite(k, keys))
    ensures UnitOk(Apply(s, CommitWrite(k, keys)), k)
  {
    hide InSync, Transform, WriteTables, UnitKey, OwnPath;
    var u := Apply(s, CommitWrite(k, keys));
    assert UnitOk(s, k);
    CommitBringsInSync(s, k, keys, k);
    assert Commits(s, k, keys) ==> InSync(u.tables, k, u.files[u.steps[k].localFilePath.value]);
  }

  /** The unit of an effect keeps what it guarantees. */
  lemma OwnUnit(s: Store, e: Effect, k: StepKey)
    requires Inv(s) && Enabled(s, e) && k in s.steps && !e.LoseFile?
    requires if e.ResetSteps? then MatchesFilter(k, e.filter) else e.key == k
    ensures UnitOk(Apply(s, e), k)
  {
    hide InSync, Transform, WriteTables, MatchesFilter, UnitKey, OwnPath, Commits, Committed;
    var u := Apply(s, e);
    assert UnitOk(s, k);
    if e.CommitWrite? {
      CommittingUnit(s, k, e.keys);
    } else {
      assert u.tables == s.tables;
    }
  }

  lemma OtherUnit(s: Store, e: Effect, k: StepKey)
    requires Inv(s) && Enabled(s, e) && k in s.steps
    requires !(if e.LoseFile? then false else if e.ResetSteps? then MatchesFilter(k, e.filter) else e.key == k)
    ensures var u := Apply(s, e);
            k in u.steps && u.steps[k] == s.steps[k] && UnitOk(u, k)
  {
    hide MatchesFilter, OwnPath, UnitKey, Updated, Committed, Commits, InSync;
    var u := Apply(s, e);
    if e.CommitWrite? {
      CommitBringsInSync(s, e.key, e.keys, k);
    }
    if e.SaveFile? && s.steps[k].localFilePath == Some(e.path) {
      OwnPathInjective(s.dir, k, e.key, e.path);
      assert false;
    }
    UntouchedUnit(s, u, k);
  }

  lemma KeepsDir(s: Store, e: Effect)
    ensures Apply(s, e).dir == s.dir
  {
  }

  /** An existing row after an effect. */
  function RowNow(step: SyncStep, e: Effect, k: StepKey): SyncStep {
    match e
    case ResetSteps(filter) => if MatchesFilter(k, filter) then ResetStep(step) else step
    case LoseFile(_) => step
    case CreateStep(key, id) => if key == k then NewStep(id) else step
    case _ => if e.key == k then Updated(step, e) else step
  }

  lemma RowAfter(s: Store, e: Effect, k: StepKey)
    ensures k in Apply(s, e).steps <==> k in s.steps || (e.CreateStep? && e.key == k)
    ensures k in s.steps ==> Apply(s, e).steps[k] == RowNow(s.steps[k], e, k)
    ensures k !in s.steps && k in Apply(s, e).steps ==> Apply(s, e).steps[k] == NewStep(e.id)
  {
  }

  lemma KeepsPathsOwn(s: Store, e: Effect)
    requires PathsOwn(s) && WellFormed(s.dir, e)
    ensures PathsOwn(Apply(s, e))
  {
    hide Apply, UnitKey, OwnPath, MatchesFilter;
    KeepsDir(s, e);
    var u := Apply(s, e);
    forall k | k in u.steps
      ensures UnitKey(k) && (u.steps[k].localFilePath.Some? ==> OwnPath(u.dir, k, u.steps[k].localFilePath.value))
    {
      RowAfter(s, e, k);
    }
  }

  lemma KeepsPulledHavePath(s: Store, e: Effect)
    requires PulledHavePath(s)
    ensures PulledHavePath(Apply(s, e))
  {
  }

  lemma KeepsIdsDistinct(s: Store, e: Effect)
    requires IdsDistinct(s) && Enabled(s, e)
    ensures IdsDistinct(Apply(s, e))
  {
    hide Apply, UnitKey, OwnPath, MatchesFilter, FileMatchesSlice, Settled, NeedsPull, NeedsWrite;
    var u := Apply(s, e);
    forall k, other | k in u.steps && other in u.steps && u.steps[k].id == u.steps[other].id
      ensures k == other
    {
      RowAfter(s, e, k);
      RowAfter(s, e, other);
    }
  }

  lemma KeepsCommitted(s: Store, e: Effect)
    requires forall k :: k in s.committed ==> k in s.steps
    ensures forall k :: k in Apply(s, e).committed ==> k in Apply(s, e).steps
  {
  }

  lemma NewUnit(s: Store, e: Effect, k: StepKey)
    requires Inv(s) && k !in s.steps && k in Apply(s, e).steps && UnitKey(k)
    ensures UnitOk(Apply(s, e), k)
  {
    RowAfter(s, e, k);
  }

  /** Every effect the code performs, and every file loss, keeps the invariant. */
  lemma EffectKeepsInv(s: Store, e: Effect)
    requires Inv(s) && Enabled(s, e)
    ensures Inv(Apply(s, e))
  {
    hide Apply, WellFormed, UnitOk, UnitKey, OwnPath, IdsDistinct, PulledHavePath, MatchesFilter;
    var u := Apply(s, e);
    KeepsPathsOwn(s, e);
    KeepsPulledHavePath(s, e);
    KeepsIdsDistinct(s, e);
    KeepsCommitted(s, e);
    forall k | k in u.steps
      ensures UnitOk(u, k)
    {
      if k in s.steps {
        if !e.LoseFile? && (if e.ResetSteps? then MatchesFilter(k, e.filter) else e.key == k) {
          OwnUnit(s, e, k);
        } else {
          OtherUnit(s, e, k);
        }
      } else {
        NewUnit(s, e, k);
      }
    }
  }

  /** Safety of every history: after every beginning of every possible sequence of effects the invariant holds. */
  lemma {:induction false} HistorySafe(s: Store, es: seq<Effect>, n: nat)
    requires Inv(s) && Possible(s, es) && n <= |es|
    ensures Inv(After(s, es[..n]))
  {
    hide Inv, Enabled, Apply;
    if n > 0 {
      HistorySafe(s, es, n - 1);
      assert es[..n][..n - 1] == es[..n - 1] && es[..n][n - 1] == es[n - 1];
      EffectKeepsInv(After(s, es[..n - 1]), es[n - 1]);
    }
  }

  lemma SafeAfter(s: Store, es: seq<Effect>)
    requires Inv(s) && Possible(s, es)
    ensures Inv(After(s, es))
  {
    HistorySafe(s, es, |es|);
    assert es[..|es|] == es;
  }

  lemma {:induction false} AfterAppend(s: Store, a: seq<Effect>, b: seq<Effect>)
    ensures After(s, a + b) == After(After(s, a), b)
    decreases |b|
  {
    hide Apply;
    if b == [] {
      assert a + b == a;
    } else {
      assert (a + b)[..|a + b| - 1] == a + b[..|b| - 1];
      AfterAppend(s, a, b[..|b| - 1]);
    }
  }

  /** One more effect extends a possible history. */
  lemma PossibleMore(s: Store, es: seq<Effect>, e: Effect)
    requires Possible(s, es) && Enabled(After(s, es), e)
    ensures Possible(s, es + [e]) && After(s, es + [e]) == Apply(After(s, es), e)
  {
    var more := es + [e];
    assert more[..|more| - 1] == es;
    forall n | 0 <= n < |more|
      ensures Enabled(After(s, more[..n]), more[n])
    {
      if n < |es| {
        assert more[..n] == es[..n] && more[n] == es[n];
        assert Enabled(After(s, es[..n]), es[n]);
      }
    }
  }

  lemma EffectKeepsIds(s: Store, e: Effect)
    requires Enabled(s, e)
    ensures forall k :: k in s.steps ==> k in Apply(s, e).steps && Apply(s, e).steps[k].id == s.steps[k].id
  {
  }

  /** Rows are never removed and never change their id. */
  lemma {:induction false} RowsKeepIds(s: Store, es: seq<Effect>, n: nat, m: nat)
    requires Possible(s, es) && n <= m <= |es|
    ensures forall k :: k in After(s, es[..n]).steps ==>
              k in After(s, es[..m]).steps && After(s, es[..m]).steps[k].id == After(s, es[..n]).steps[k].id
    decreases m - n
  {
    hide Enabled, Apply;
    if n < m {
      RowsKeepIds(s, es, n, m - 1);
      LastEffect(s, es, m);
      EffectKeepsIds(After(s, es[..m - 1]), es[m - 1]);
    }
  }

  lemma StaysWritten(s: Store, e: Effect, k: StepKey)
    requires k in s.steps && s.steps[k].writeStatus == SUCCESS && Enabled(s, e)
    requires e.ResetSteps? ==> !MatchesFilter(k, e.filter)
    ensures k in Apply(s, e).steps && Apply(s, e).steps[k].writeStatus == SUCCESS
  {
  }

  lemma {:induction false} WrittenUntilReset(s: Store, es: seq<Effect>, i: nat, j: nat, k: StepKey)
    requires Possible(s, es) && i < j <= |es| && es[i] == WriteSucceeded(k)
    requires forall m :: i < m < j && es[m].ResetSteps? ==> !MatchesFilter(k, es[m].filter)
    ensures k in After(s, es[..j]).steps && After(s, es[..j]).steps[k].writeStatus == SUCCESS
  {
    hide Enabled, Apply;
    var before, e := es[..j - 1], es[j - 1];
    LastEffect(s, es, j);
    if i < j - 1 {
      WrittenUntilReset(s, es, i, j - 1, k);
      StaysWritten(After(s, before), e, k);
    } else {
      JustWritten(After(s, before), k);
    }
  }

  lemma LastEffect(s: Store, es: seq<Effect>, n: nat)
    requires Possible(s, es) && 0 < n <= |es|
    ensures Enabled(After(s, es[..n - 1]), es[n - 1])
    ensures After(s, es[..n]) == Apply(After(s, es[..n - 1]), es[n - 1])
  {
    assert es[..n][..n - 1] == es[..n - 1] && es[..n][n - 1] == es[n - 1];
  }

  lemma JustWritten(s: Store, k: StepKey)
    requires Enabled(s, WriteSucceeded(k))
    ensures var u := Apply(s, WriteSucceeded(k)); k in u.steps && u.steps[k].writeStatus == SUCCESS
  {
  }

  /** A unit whose write succeeded is not written again until a forced run resets it. */
  lemma NoRewriteWithoutReset(s: Store, es: seq<Effect>, i: nat, j: nat, k: StepKey)
    requires Possible(s, es) && i < j < |es| && es[i] == WriteSucceeded(k)
    requires es[j].CommitWrite? && es[j].key == k
    ensures exists m :: i < m < j && es[m].ResetSteps? && MatchesFilter(k, es[m].filter)
  {
    assert Enabled(After(s, es[..j]), es[j]);
    if forall m :: i < m < j && es[m].ResetSteps? ==> !MatchesFilter(k, es[m].filter) {
      WrittenUntilReset(s, es, i, j, k);
      assert false;
    }
  }

  // ---- crashes and restarts ------------------------------------------------------

  /** A process that would have done `effects` and was stopped after the first `survived` of them. */
  datatype Process = Process(effects: seq<Effect>, survived: nat)

  /** Each process starts from what the one before it left behind. */
  ghost predicate Restarts(s: Store, processes: seq<Process>)
    decreases processes
  {
    processes == [] ||
    (var p := processes[0];
     p.survived <= |p.effects| && Possible(s, p.effects)
     && Restarts(After(s, p.effects[..p.survived]), processes[1..]))
  }

  ghost function LeftBehind(s: Store, processes: seq<Process>): Store
    requires Restarts(s, processes)
    decreases processes
  {
    if processes == [] then s
    else LeftBehind(After(s, processes[0].effects[..processes[0].survived]), processes[1..])
  }

  /** However many processes ran and wherever each was stopped, the invariant holds. */
  lemma {:induction false} CrashResumeSafe(s: Store, processes: seq<Process>)
    requires Inv(s) && Restarts(s, processes)
    ensures Inv(LeftBehind(s, processes))
    decreases processes
  {
    if processes != [] {
      var p := processes[0];
      HistorySafe(s, p.effects, p.survived);
      CrashResumeSafe(After(s, p.effects[..p.survived]), processes[1..]);
    }
  }

  /** In particular from a database without steps and a directory without files. */
  lemma SafeFromTheStart(dir: string, tables: TradeTables, processes: seq<Process>)
    requires Restarts(EmptyStore(dir, tables), processes)
    ensures Inv(LeftBehind(EmptyStore(dir, tables), processes))
  {
    EmptyStoreIsFine(dir, tables);
    CrashResumeSafe(EmptyStore(dir, tables), processes);
  }

  /**
   A crash between a committed write and its status update is repaired by writing again: the write is
   still due, and doing it again changes nothing and leaves the slice in sync.
   */
  lemma CommitThenCrash(s: Store, k: StepKey, keys: AccountKeys)
    requires Inv(s) && Enabled(s, CommitWrite(k, keys))
    requires Transform(InputOf(k, keys), s.files[s.steps[k].localFilePath.value]).Some?
    ensures var u := Apply(s, CommitWrite(k, keys));
            && Enabled(u, CommitWrite(k, keys))
            && Apply(u, CommitWrite(k, keys)) == u
            && Enabled(u, WriteSucceeded(k)) && FileMatchesSlice(u, k)
  {
    hide Inv, Transform, WriteTables, OwnPath, UnitKey, SliceOf, TargetOf, SliceKeyOf;
    var u := Apply(s, CommitWrite(k, keys));
    var content := s.files[s.steps[k].localFilePath.value];
    WriteExact(s.tables, InputOf(k, keys), content, SliceKeyOf(k));
    WriteIdempotent(s.tables, InputOf(k, keys), content);
    CommitBringsInSync(s, k, keys, k);
    assert u.tables == WriteTables(s.tables, InputOf(k, keys), content).value;
  }

  /**
   A file may be lost between the commit and the success mark: the code marks the step all the same, and its
   slice then holds the whole file that was committed.
   */
  lemma LostBeforeMark(s: Store, k: StepKey, keys: AccountKeys)
    requires Inv(s) && Enabled(s, CommitWrite(k, keys)) && Commits(s, k, keys)
    ensures var path := s.steps[k].localFilePath.value;
            var es := [CommitWrite(k, keys), LoseFile(path), WriteSucceeded(k)];
            && Possible(s, es)
            && var u := After(s, es);
               && Inv(u) && k in u.steps && u.steps[k].writeStatus == SUCCESS && path !in u.files
               && k in u.lost && InSync(u.tables, k, s.files[path])
  {
    var path := s.steps[k].localFilePath.value;
    var e0, e1, e2 := CommitWrite(k, keys), LoseFile(path), WriteSucceeded(k);
    hide Inv, InSync, Transform, WriteTables, OwnPath, UnitKey;
    CommitBringsInSync(s, k, keys, k);
    AfterCommit(s, k, keys);
    ThreeEffects(s, e0, e1, e2);
    SafeAfter(s, [e0, e1, e2]);
  }

  /**
   What a committed write of a unit stores: the records of its file, in the slice of its day, account and market;
   a fund snapshot as that before trading for the task type before trading, and otherwise as that after it.
   */
  lemma CommitStores(s: Store, k: StepKey, keys: AccountKeys)
    requires UnitKey(k) && Commits(s, k, keys)
    ensures var reason := if k.dataType != FUND then None
                          else if k.taskType == BEFORE_SYNC_FUND_ACCOUNT then Some(BEFORE_TRADING_DAY)
                          else Some(AFTER_TRADING_DAY);
            var input := WriteInput(k.dataType, DaySlice(k.tradeDay, k.fundAccount, k.market), keys, reason);
            var content := s.files[s.steps[k].localFilePath.value];
            && input == InputOf(k, keys) && Stores(s.tables, Apply(s, CommitWrite(k, keys)).tables, input, content)
  {
    hide Stores, WriteTables, Storable;
    WriteStores(s.tables, InputOf(k, keys), s.files[s.steps[k].localFilePath.value]);
  }

  lemma AfterCommit(s: Store, k: StepKey, keys: AccountKeys)
    ensures Commits(s, k, keys) ==>
              Apply(s, CommitWrite(k, keys))
              == s.(tables := Committed(s, k, keys), lost := s.lost - {k}, committed := s.committed + {k})
  {
  }

  lemma AfterUpdate(s: Store, e: Effect)
    requires e.StampTask? || e.PullSucceeded? || e.PullFailed? || e.WriteSucceeded? || e.WriteFailed?
    requires e.key in s.steps
    ensures Apply(s, e) == s.(steps := s.steps[e.key := Updated(s.steps[e.key], e)],
                              committed := if e.StampTask? then s.committed else s.committed - {e.key})
    ensures Updated(s.steps[e.key], e).id == s.steps[e.key].id
  {
  }

  /** Only a commit of the unit changes its slice. */
  lemma SlicesAfter(s: Store, e: Effect, k: StepKey)
    requires UnitKey(k) && WellFormed(s.dir, e)
    ensures !(e.CommitWrite? && e.key == k) ==>
              SliceOf(Apply(s, e).tables, SliceKeyOf(k)) == SliceOf(s.tables, SliceKeyOf(k))
  {
    if e.CommitWrite? && e.key != k {
      if Committed(s, e.key, e.keys) != s.tables {
        var content := s.files[s.steps[e.key].localFilePath.value];
        WriteExact(s.tables, InputOf(e.key, e.keys), content, SliceKeyOf(k));
        if SliceKeyOf(k) == SliceKeyOf(e.key) {
          SliceKeyInjective(k, e.key);
        }
      }
    }
  }

  /** A file is lost and pulled again. */
  function LostAndPulled(k: StepKey, path: string, content: Content): seq<Effect> {
    [LoseFile(path), SaveFile(k, path, content), PullSucceeded(k, path)]
  }

  /** Two contents that stand for the same rows, or neither for any, whatever the account's keys. */
  ghost predicate SameMeaning(k: StepKey, content: Content, other: Content) {
    var input := InputOf(k, AccountKeys("", "", ""));
    Transform(input, content) == Transform(input, other)
  }

  /** The contents in sync with a slice are those that mean the same as one of them. */
  lemma InSyncByMeaning(t: TradeTables, k: StepKey, content: Content, other: Content)
    requires UnitKey(k) && InSync(t, k, other)
    ensures InSync(t, k, content) <==> SameMeaning(k, content, other)
  {
    hide Transform, WithKeys, SliceOf, TargetOf, SliceKeyOf, UnitKey;
    var none := AccountKeys("", "", "");
    var keys :| Transform(InputOf(k, keys), other) == Some(SliceOf(t, SliceKeyOf(k)));
    OtherKeys(InputOf(k, keys), none, other);
    if InSync(t, k, content) {
      var more :| Transform(InputOf(k, more), content) == Some(SliceOf(t, SliceKeyOf(k)));
      OtherKeys(InputOf(k, more), none, content);
    }
    if SameMeaning(k, content, other) {
      OtherKeys(InputOf(k, none), keys, content);
      OtherKeys(InputOf(k, none), keys, other);
    }
  }

  /**
   A settled step whose file is lost is pulled again but no write is due, so its slice matches the new
   file exactly when the new file stands for the rows that the lost one stood for.
   */
  lemma LostFileIsNotRewritten(s: Store, k: StepKey, path: string, content: Content)
    requires Inv(s) && k in s.steps && Settled(s, k) && s.steps[k].localFilePath == Some(path)
    ensures Possible(s, LostAndPulled(k, path, content)) && path in s.files
    ensures var u := After(s, LostAndPulled(k, path, content));
            && k in u.steps && u.steps[k].pullStatus == SUCCESS && u.steps[k].writeStatus == SUCCESS
            && SliceOf(u.tables, SliceKeyOf(k)) == SliceOf(s.tables, SliceKeyOf(k))
            && (FileMatchesSlice(u, k) <==> SameMeaning(k, content, s.files[path]))
            && !NeedsWrite(u.steps[k], u.files)
  {
    hide SameMeaning, Transform, WriteTables, SliceOf, TargetOf, OwnPath, UnitKey;
    var e0, e1, e2 := LoseFile(path), SaveFile(k, path, content), PullSucceeded(k, path);
    var s1 := Apply(s, e0);
    var s2 := Apply(s1, e1);
    assert Enabled(s1, e1) && Enabled(s2, e2) by { assert k in s1.lost && path in s2.files; }
    ThreeEffects(s, e0, e1, e2);
    assert s2.tables == s.tables && s2.files[path] == content;
    InSyncByMeaning(s.tables, k, content, s.files[path]);
  }

  lemma MalformedMeansNothing(t: TradeTables, k: StepKey)
    requires UnitKey(k)
    ensures !InSync(t, k, Malformed)
  {
  }

  /** A file that does not parse matches no slice, so the promise does break: this is the input that shows it. */
  lemma LostThenMalformed(s: Store, k: StepKey, path: string)
    requires Inv(s) && k in s.steps && Settled(s, k) && s.steps[k].localFilePath == Some(path)
    ensures Possible(s, LostAndPulled(k, path, Malformed))
    ensures var u := After(s, LostAndPulled(k, path, Malformed));
            k in u.steps && u.steps[k].writeStatus == SUCCESS && !FileMatchesSlice(u, k)
  {
    hide Possible, After, SliceOf, WriteTables, Transform, InSync, SameMeaning, Apply, OwnPath, UnitKey;
    LostFileIsNotRewritten(s, k, path, Malformed);
    MalformedMeansNothing(s.tables, k);
    InSyncByMeaning(s.tables, k, Malformed, s.files[path]);
  }

  /** A unit created, pulled and written for the first time. */
  function FirstRun(k: StepKey, id: nat, path: string, content: Content, keys: AccountKeys): seq<Effect> {
    [CreateStep(k, id)] + [SaveFile(k, path, content)] + [PullSucceeded(k, path)] + [CommitWrite(k, keys)]
    + [WriteSucceeded(k)]
  }

  /** A step does get settled: from the start, with any file that stands for rows. */
  lemma FirstRunSettles(dir: string, tables: TradeTables, k: StepKey, id: nat, path: string, content: Content,
                        keys: AccountKeys)
    requires UnitKey(k) && OwnPath(dir, k, path) && Transform(InputOf(k, keys), content).Some?
    ensures var s, es := EmptyStore(dir, tables), FirstRun(k, id, path, content, keys);
            && Possible(s, es)
            && var u := After(s, es);
               && Inv(u) && k in u.steps && Settled(u, k) && u.steps[k].localFilePath == Some(path)
               && FileMatchesSlice(u, k)
  {
    hide Inv, InSync, Transform, WriteTables, OwnPath, UnitKey, Possible, After;
    var s := EmptyStore(dir, tables);
    var step := NewStep(id);
    var pulled := step.(pullStatus := SUCCESS, localFilePath := Some(path), pullError := None);
    EmptyStoreIsFine(dir, tables);
    NoEffects(s);
    var s1 := s.(steps := map[k := step]);
    Chain(s, [], CreateStep(k, id), s1);
    assert [] + [CreateStep(k, id)] == [CreateStep(k, id)];
    var s2 := s1.(files := map[path := content]);
    Chain(s, [CreateStep(k, id)], SaveFile(k, path, content), s2);
    var s3 := s2.(steps := map[k := pulled]);
    Chain(s, [CreateStep(k, id)] + [SaveFile(k, path, content)], PullSucceeded(k, path), s3);
    CommitBringsInSync(s3, k, keys, k);
    AfterCommit(s3, k, keys);
    var s4 := s3.(tables := Committed(s3, k, keys), committed := {k});
    assert s3.lost - {k} == s3.lost && s3.committed + {k} == {k};
    Chain(s, [CreateStep(k, id)] + [SaveFile(k, path, content)] + [PullSucceeded(k, path)], CommitWrite(k, keys), s4);
    var s5 := s4.(steps := map[k := pulled.(writeStatus := SUCCESS, writeError := None)], committed := {});
    Chain(s, [CreateStep(k, id)] + [SaveFile(k, path, content)] + [PullSucceeded(k, path)] + [CommitWrite(k, keys)],
          WriteSucceeded(k), s5);
    SafeAfter(s, FirstRun(k, id, path, content, keys));
  }

  lemma NoEffects(s: Store)
    ensures Possible(s, []) && After(s, []) == s
  {
  }

  lemma Chain(s: Store, es: seq<Effect>, e: Effect, u: Store)
    requires Possible(s, es) && Enabled(After(s, es), e) && Apply(After(s, es), e) == u
    ensures Possible(s, es + [e]) && After(s, es + [e]) == u
  {
    PossibleMore(s, es, e);
    assert (es + [e])[..|es|] == es;
  }

  /**
   And it breaks for good: in every possible continuation without a forced reset of the step, whatever is
   lost and pulled in it, the step is never committed and its slice stays what it was.
   */
  lemma {:induction false} WrittenForGood(s: Store, es: seq<Effect>, k: StepKey)
    requires UnitKey(k) && k in s.steps && s.steps[k].writeStatus == SUCCESS && Possible(s, es)
    requires forall n :: 0 <= n < |es| && es[n].ResetSteps? ==> !MatchesFilter(k, es[n].filter)
    ensures k in After(s, es).steps && After(s, es).steps[k].writeStatus == SUCCESS
    ensures SliceOf(After(s, es).tables, SliceKeyOf(k)) == SliceOf(s.tables, SliceKeyOf(k))
    ensures forall n :: 0 <= n < |es| ==> !(es[n].CommitWrite? && es[n].key == k)
    decreases |es|
  {
    hide Apply, MatchesFilter, UnitKey, SliceKeyOf, SliceOf, InSync, WellFormed, FileMatchesSlice;
    if es != [] {
      var before, e := es[..|es| - 1], es[|es| - 1];
      PossiblePrefix(s, es, |es| - 1);
      WrittenForGood(s, before, k);
      assert Enabled(After(s, before), e);
      StaysWritten(After(s, before), e, k);
      SlicesAfter(After(s, before), e, k);
      forall n | 0 <= n < |es|
        ensures !(es[n].CommitWrite? && es[n].key == k)
      {
        assert n < |before| ==> before[n] == es[n];
      }
    }
  }

  lemma PossiblePrefix(s: Store, es: seq<Effect>, n: nat)
    requires Possible(s, es) && n <= |es|
    ensures Possible(s, es[..n])
  {
    hide Enabled;
    forall m | 0 <= m < n
      ensures Enabled(After(s, es[..n][..m]), es[..n][m])
    {
      assert es[..n][..m] == es[..m] && es[..n][m] == es[m];
    }
  }

  lemma ThreeEffects(s: Store, e0: Effect, e1: Effect, e2: Effect)
    requires Enabled(s, e0) && Enabled(Apply(s, e0), e1) && Enabled(Apply(Apply(s, e0), e1), e2)
    ensures Possible(s, [e0, e1, e2]) && After(s, [e0, e1, e2]) == Apply(Apply(Apply(s, e0), e1), e2)
  {
    PossibleMore(s, [], e0);
    assert [] + [e0] == [e0] && [e0] + [e1] == [e0, e1] && [e0, e1] + [e2] == [e0, e1, e2];
    PossibleMore(s, [e0], e1);
    PossibleMore(s, [e0, e1], e2);
  }
}
