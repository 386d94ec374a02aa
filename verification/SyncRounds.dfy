/**
 The rounds of a run over its units: what one pull round and one write round may do, and what the four in a row
 achieve for every unit that lost no file meanwhile.
 */
module SyncRounds {
  import opened Common
  import opened Paths
  import opened Writer
  import opened SyncProtocol
  import opened SyncRuns
  import opened SyncUnits
  import opened SyncLosses
  import H = HostServer

  /** A unit in memory; its step is null until the row is found or created. */
  class SyncUnit {
    const key: StepKey
    const keys: AccountKeys
    var step: Option<SyncStep>

    constructor (key: StepKey, keys: AccountKeys)
      ensures this.key == key && this.keys == keys && step == None
    {
      this.key, this.keys, step := key, keys, None;
    }
  }

  function KeysOf(units: seq<SyncUnit>): seq<StepKey> {
    seq(|units|, i requires 0 <= i < |units| => units[i].key)
  }

  function SpecsOf(units: seq<SyncUnit>): seq<UnitSpec> {
    seq(|units|, i requires 0 <= i < |units| => UnitSpec(units[i].key, units[i].keys))
  }

  function SpecKeys(specs: seq<UnitSpec>): seq<StepKey> {
    seq(|specs|, i requires 0 <= i < |specs| => specs[i].key)
  }

  lemma TakeOneMore<T>(s: seq<T>, i: nat)
    requires i < |s|
    ensures s[..i + 1] == s[..i] + [s[i]]
  {
  }

  lemma KeysOfOneMore(units: seq<SyncUnit>, unit: SyncUnit)
    ensures KeysOf(units + [unit]) == KeysOf(units) + [unit.key]
    ensures multiset(KeysOf(units + [unit])) == multiset(KeysOf(units)) + multiset{unit.key}
  {
    assert KeysOf(units + [unit]) == KeysOf(units) + [unit.key];
  }

  ghost predicate DistinctKeyed(units: seq<SyncUnit>) {
    forall i, j :: 0 <= i < j < |units| ==> units[i].key != units[j].key
  }

  /** Units with distinct keys that a run can have. */
  ghost predicate WellKeyed(units: seq<SyncUnit>) {
    && (forall u, v :: u in units && v in units && u.key == v.key ==> u == v)
    && (forall u :: u in units ==> UnitKey(u.key) && SafeName(u.keys.brokerKey))
  }

  /** How writing a snapshot to the local disk ends; a write that fails may leave something behind. */
  datatype LocalWrite = Whole | Nothing | Part(content: Content)

  /** What one pull finds, once its command has run, on the remote side, on the local disk and in the database. */
  datatype PullReply = PullReply(
    snapshot: Option<RawFund>, namesFile: bool, folder: bool, written: LocalWrite, connects: bool,
    transferred: Option<Content>, acknowledged: bool)

  /** Whether a unit whose command ended with a code gets its file. */
  predicate Delivers(k: StepKey, code: int, reply: PullReply, there: bool) {
    && code == 0 && reply.folder
    && if k.dataType == FUND then reply.snapshot.Some? && reply.written.Whole?
       else reply.namesFile && reply.connects && (reply.transferred.Some? || there)
  }

  /** The content that a pull saves, if any. */
  function Saved(k: StepKey, code: int, reply: PullReply): Option<Content> {
    if code != 0 || !reply.folder then None
    else if k.dataType == FUND then
      if reply.snapshot.None? then None
      else
        match reply.written
        case Whole => Some(Fund(reply.snapshot.value))
        case Part(content) => Some(content)
        case Nothing => None
    else if reply.namesFile && reply.connects then reply.transferred
    else None
  }

  predicate Good(reply: PullReply) {
    && reply.snapshot.Some? && reply.namesFile && reply.folder && reply.written.Whole?
    && reply.connects && reply.transferred.Some? && reply.acknowledged
  }

  /** Some reply to a pull that goes well. */
  method GoodReply() returns (reply: PullReply)
    ensures Good(reply)
  {
    var snapshot: RawFund := *;
    var content: Content := *;
    reply := PullReply(Some(snapshot), true, true, Whole, true, Some(content), true);
  }

  // ---- rows of a round -----------------------------------------------------------

  /** A row that is not written, or whose file was lost since. */
  ghost predicate MayPull(steps: map<StepKey, SyncStep>, lost: set<StepKey>, k: StepKey) {
    k in steps && (steps[k].writeStatus == SUCCESS ==> k in lost)
  }

  ghost predicate SameWrite(a: SyncStep, b: SyncStep) {
    a.writeStatus == b.writeStatus && a.id == b.id
  }

  ghost predicate SameWrites(a: map<StepKey, SyncStep>, b: map<StepKey, SyncStep>) {
    a.Keys == b.Keys && forall k :: k in a ==> SameWrite(a[k], b[k])
  }

  /** Rows outside a set of units are untouched. */
  ghost predicate OnlyRowsOf(a: map<StepKey, SyncStep>, b: map<StepKey, SyncStep>, units: seq<SyncUnit>) {
    forall k :: k in a && k !in KeysOf(units) ==> k in b && b[k] == a[k]
  }

  /** One more row update that is not a write status keeps the picture of a pull round. */
  lemma PullUpdate(a: map<StepKey, SyncStep>, b: map<StepKey, SyncStep>, c: map<StepKey, SyncStep>,
                   units: seq<SyncUnit>, unit: SyncUnit)
    requires SameWrites(a, b) && OnlyRowsOf(a, b, units) && unit in units
    requires unit.key in b && unit.key in c && c == b[unit.key := c[unit.key]] && SameWrite(b[unit.key], c[unit.key])
    ensures SameWrites(a, c) && OnlyRowsOf(a, c, units)
    ensures forall k, lost, more :: MayPull(b, lost, k) && lost <= more ==> MayPull(c, more, k)
  {
    var i :| 0 <= i < |units| && units[i] == unit;
    assert KeysOf(units)[i] == unit.key;
  }

  /** Commands numbered in order from a first id, each mapped to its unit. */
  ghost predicate Numbered(cmds: seq<H.RemoteCommand>, unitByCmdId: map<nat, SyncUnit>, issued: seq<SyncUnit>,
                           first: nat)
  {
    && |cmds| == |issued|
    && (forall j :: 0 <= j < |cmds| ==>
         cmds[j].id == first + j && cmds[j].id in unitByCmdId && unitByCmdId[cmds[j].id] == issued[j])
    && forall id :: id in unitByCmdId ==> first <= id < first + |issued|
  }

  lemma NumbersApart(cmds: seq<H.RemoteCommand>, unitByCmdId: map<nat, SyncUnit>, issued: seq<SyncUnit>, first: nat)
    requires Numbered(cmds, unitByCmdId, issued, first)
    ensures forall i, j :: 0 <= i < j < |cmds| ==> cmds[i].id != cmds[j].id
  {
  }

  lemma NumberedMore(cmds: seq<H.RemoteCommand>, unitByCmdId: map<nat, SyncUnit>, issued: seq<SyncUnit>, first: nat,
                     cmd: H.RemoteCommand, unit: SyncUnit)
    requires Numbered(cmds, unitByCmdId, issued, first) && cmd.id == first + |issued|
    ensures Numbered(cmds + [cmd], unitByCmdId[cmd.id := unit], issued + [unit], first)
  {
  }

  /** Distinct units among the first n of a list. */
  ghost predicate Picked(issued: seq<SyncUnit>, units: seq<SyncUnit>, n: nat)
    requires n <= |units|
  {
    DistinctKeyed(issued) && forall u :: u in issued ==> u in units[..n]
  }

  lemma NoneIssued(cmds: seq<H.RemoteCommand>, unitByCmdId: map<nat, SyncUnit>, issued: seq<SyncUnit>, first: nat)
    requires Numbered(cmds, unitByCmdId, issued, first) && |cmds| == 0
    ensures issued == []
  {
  }

  lemma PickedMore(issued: seq<SyncUnit>, units: seq<SyncUnit>, n: nat)
    requires n < |units| && DistinctKeyed(units) && Picked(issued, units, n)
    ensures Picked(issued, units, n + 1) && Picked(issued + [units[n]], units, n + 1)
  {
    TakeOneMore(units, n);
    forall j | 0 <= j < |issued|
      ensures issued[j].key != units[n].key
    {
      assert issued[j] in units[..n];
    }
  }

  lemma NothingChanged(a: map<StepKey, SyncStep>, units: seq<SyncUnit>)
    ensures SameWrites(a, a) && OnlyRowsOf(a, a, units)
    ensures KeysOf([]) == [] && (forall first :: Numbered([], map[], [], first)) && Picked([], units, 0)
    ensures forall dir, es, scope :: Grew(dir, es, es, scope)
  {
  }

  ghost predicate AllPulled(dir: string, before: seq<Effect>, now: seq<Effect>, units: seq<SyncUnit>,
                            steps: map<StepKey, SyncStep>)
  {
    forall u :: u in units ==> u.key in steps && (Kept(dir, before, now, u.key) ==> PullOk(steps[u.key]))
  }

  /** The pulls of some units have ended, and if all goes well successfully. */
  ghost predicate AllDone(dir: string, before: seq<Effect>, now: seq<Effect>, keys: seq<StepKey>,
                          steps: map<StepKey, SyncStep>, files: map<string, Content>, healthy: bool)
  {
    forall k :: k in keys ==>
      && PullEnded(dir, before, now, steps, files, k)
      && (healthy && Kept(dir, before, now, k) ==> PullOk(steps[k]))
  }

  lemma AllDoneMore(dir: string, a: seq<Effect>, b: Point, c: Point, keys: seq<StepKey>, k: StepKey, healthy: bool)
    requires a <= b.log <= c.log && AllDone(dir, a, b.log, keys, b.steps, b.files, healthy) && Intact(dir, b, c)
    requires RowsOwn(dir, b.steps) && k in c.steps && c.steps == b.steps[k := c.steps[k]]
    requires PullEnded(dir, b.log, c.log, c.steps, c.files, k)
    requires healthy && Kept(dir, b.log, c.log, k) ==> PullOk(c.steps[k])
    ensures AllDone(dir, a, c.log, keys + [k], c.steps, c.files, healthy)
  {
    hide Kept, Intact, OwnPath, UnitKey;
    forall j | j in keys + [k]
      ensures PullEnded(dir, a, c.log, c.steps, c.files, j)
      ensures healthy && Kept(dir, a, c.log, j) ==> PullOk(c.steps[j])
    {
      if Kept(dir, a, c.log, j) {
        KeptParts(dir, a, b.log, c.log, j);
        if j != k && b.steps[j].localFilePath.Some? && b.steps[j].localFilePath.value in b.files {
          KeptFile(dir, b, c, j, b.steps[j].localFilePath.value);
        }
      }
    }
  }

  /** Every command is answered. */
  ghost predicate Answers(results: seq<H.CommandResult>, cmds: seq<H.RemoteCommand>) {
    forall j :: 0 <= j < |cmds| ==> Answered(results, cmds[j].id)
  }

  ghost predicate Answered(results: seq<H.CommandResult>, id: nat) {
    exists m :: 0 <= m < |results| && results[m].id == id
  }

  lemma PermutationAnswers(results: seq<H.CommandResult>, order: seq<H.RemoteCommand>, cmds: seq<H.RemoteCommand>)
    requires |results| == |order| && forall m :: 0 <= m < |results| ==> results[m].id == order[m].id
    requires multiset(order) == multiset(cmds)
    ensures Answers(results, cmds)
  {
    forall j | 0 <= j < |cmds|
      ensures Answered(results, cmds[j].id)
    {
      assert cmds[j] in multiset(order);
      var m :| 0 <= m < |order| && order[m] == cmds[j];
      assert results[m].id == cmds[j].id;
    }
  }

  ghost predicate DistinctIds(results: seq<H.CommandResult>) {
    forall i, j :: 0 <= i < j < |results| ==> results[i].id != results[j].id
  }

  lemma PermutationDistinct(results: seq<H.CommandResult>, order: seq<H.RemoteCommand>, cmds: seq<H.RemoteCommand>)
    requires |results| == |order| && forall m :: 0 <= m < |results| ==> results[m].id == order[m].id
    requires multiset(order) == multiset(cmds) && forall i, j :: 0 <= i < j < |cmds| ==> cmds[i].id != cmds[j].id
    ensures DistinctIds(results)
  {
    forall i, j | 0 <= i < j < |order|
      ensures order[i].id != order[j].id
    {
      if order[i].id == order[j].id {
        assert order[i] in multiset(cmds) && order[j] in multiset(cmds);
        assert order[i] == order[j];
        TwiceInMultiset(order, i, j);
        DistinctMultiplicity(cmds, order[i]);
        assert false;
      }
    }
  }

  /** Each command is answered once, under its id. */
  lemma ExecAnswers(cmds: seq<H.RemoteCommand>, env: H.Environment)
    requires forall i, j :: 0 <= i < j < |cmds| ==> cmds[i].id != cmds[j].id
    ensures Answers(H.ExpectedResults(cmds, env), cmds) && DistinctIds(H.ExpectedResults(cmds, env))
  {
    H.FlatResultIds(cmds, H.HostsInOrder(cmds), env);
    H.ResultOrderIsPermutation(cmds);
    PermutationAnswers(H.ExpectedResults(cmds, env), H.ResultOrder(cmds), cmds);
    PermutationDistinct(H.ExpectedResults(cmds, env), H.ResultOrder(cmds), cmds);
  }

  lemma MappedUnit(cmds: seq<H.RemoteCommand>, unitByCmdId: map<nat, SyncUnit>, issued: seq<SyncUnit>, first: nat,
                   id: nat)
    requires Numbered(cmds, unitByCmdId, issued, first) && id in unitByCmdId
    ensures unitByCmdId[id] in issued
  {
    assert cmds[id - first].id == id;
  }

  /** The first n results were applied to their own units: a failed command failed its unit. */
  ghost predicate FailuresKept(results: seq<H.CommandResult>, n: nat, unitByCmdId: map<nat, SyncUnit>,
                               steps: map<StepKey, SyncStep>)
    requires n <= |results|
  {
    forall m :: 0 <= m < n && results[m].id in unitByCmdId && results[m].code != 0 ==>
      var k := unitByCmdId[results[m].id].key; k in steps && steps[k].pullStatus == FAILED
  }

  lemma FailuresKeptMore(results: seq<H.CommandResult>, n: nat, cmds: seq<H.RemoteCommand>,
                         unitByCmdId: map<nat, SyncUnit>, issued: seq<SyncUnit>, first: nat,
                         before: map<StepKey, SyncStep>, steps: map<StepKey, SyncStep>)
    requires n < |results| && DistinctIds(results) && FailuresKept(results, n, unitByCmdId, before)
    requires Numbered(cmds, unitByCmdId, issued, first) && DistinctKeyed(issued) && results[n].id in unitByCmdId
    requires var k := unitByCmdId[results[n].id].key;
             k in steps && steps == before[k := steps[k]] && (results[n].code != 0 ==> steps[k].pullStatus == FAILED)
    ensures FailuresKept(results, n + 1, unitByCmdId, steps)
  {
    forall m | 0 <= m < n && results[m].id in unitByCmdId && results[m].code != 0
      ensures unitByCmdId[results[m].id].key != unitByCmdId[results[n].id].key
    {
      assert cmds[results[m].id - first].id == results[m].id && cmds[results[n].id - first].id == results[n].id;
    }
  }

  lemma NoFailuresYet(results: seq<H.CommandResult>, unitByCmdId: map<nat, SyncUnit>, steps: map<StepKey, SyncStep>)
    ensures FailuresKept(results, 0, unitByCmdId, steps)
  {
  }

  lemma FailuresKeptSkip(results: seq<H.CommandResult>, n: nat, unitByCmdId: map<nat, SyncUnit>,
                         steps: map<StepKey, SyncStep>)
    requires n < |results| && FailuresKept(results, n, unitByCmdId, steps) && results[n].id !in unitByCmdId
    ensures FailuresKept(results, n + 1, unitByCmdId, steps)
  {
  }

  lemma AllIssuedDone(cmds: seq<H.RemoteCommand>, unitByCmdId: map<nat, SyncUnit>, issued: seq<SyncUnit>, first: nat,
                      results: seq<H.CommandResult>, done: seq<StepKey>)
    requires Numbered(cmds, unitByCmdId, issued, first) && Answers(results, cmds)
    requires forall m :: 0 <= m < |results| && results[m].id in unitByCmdId ==> unitByCmdId[results[m].id].key in done
    ensures forall u :: u in issued ==> u.key in done
  {
    forall j | 0 <= j < |issued|
      ensures issued[j].key in done
    {
      assert Answered(results, cmds[j].id);
      var m :| 0 <= m < |results| && results[m].id == cmds[j].id;
    }
  }

  lemma NoneDone(dir: string, es: seq<Effect>, steps: map<StepKey, SyncStep>, files: map<string, Content>,
                 healthy: bool)
    ensures AllDone(dir, es, es, [], steps, files, healthy)
  {
  }

  /** Once every issued unit is settled and the others have failed, every unit is settled. */
  lemma PullsSettled(dir: string, before: seq<Effect>, now: seq<Effect>, toPull: seq<SyncUnit>, issued: seq<SyncUnit>,
                     done: seq<StepKey>, steps: map<StepKey, SyncStep>, files: map<string, Content>, healthy: bool)
    requires AllDone(dir, before, now, done, steps, files, healthy) && forall u :: u in issued ==> u.key in done
    requires forall u :: u in toPull ==> u.key in steps && (u in issued || steps[u.key].pullStatus == FAILED)
    ensures forall u :: u in toPull ==> PullEnded(dir, before, now, steps, files, u.key)
    ensures healthy ==> AllPulled(dir, before, now, issued, steps)
  {
    hide Kept;
  }

  /** A round issues at most one command for a unit, and none for other units. */
  lemma CommandCounts(issued: seq<SyncUnit>, k: StepKey)
    requires DistinctKeyed(issued)
    ensures multiset(KeysOf(issued))[k] <= 1
    ensures multiset(KeysOf(issued))[k] == 1 <==> exists u :: u in issued && u.key == k
  {
    var keys := KeysOf(issued);
    DistinctMultiplicity(keys, k);
    if k in keys {
      var i :| 0 <= i < |keys| && keys[i] == k;
      assert issued[i] in issued && issued[i].key == k;
    }
    if u :| u in issued && u.key == k {
      var i :| 0 <= i < |issued| && issued[i] == u;
      assert keys[i] == k;
    }
  }

  /** The unit's command got a connection to its host, ran on it and returned 0. */
  ghost predicate CommandRan(unit: SyncUnit, order: seq<H.RemoteCommand>, unitByCmdId: map<nat, SyncUnit>,
                             env: H.Environment)
  {
    exists i :: 0 <= i < |order| && order[i].id in unitByCmdId && unitByCmdId[order[i].id] == unit
                && H.OpenedBy(order, i, env) && env(order[i].id).run.Ran? && env(order[i].id).run.code == 0
  }

  /** Only a unit whose command ran can have been pulled. */
  lemma PulledMeansRan(unit: SyncUnit, issued: seq<SyncUnit>, cmds: seq<H.RemoteCommand>,
                       unitByCmdId: map<nat, SyncUnit>, first: nat, results: seq<H.CommandResult>,
                       order: seq<H.RemoteCommand>, env: H.Environment, steps: map<StepKey, SyncStep>)
    requires unit in issued && Numbered(cmds, unitByCmdId, issued, first) && H.ByHost(order, cmds)
    requires H.AnswersAll(results, order, env) && FailuresKept(results, |results|, unitByCmdId, steps)
    requires unit.key in steps && steps[unit.key].pullStatus == SUCCESS
    ensures CommandRan(unit, order, unitByCmdId, env)
  {
    hide H.OpenedBy;
    var j :| 0 <= j < |issued| && issued[j] == unit;
    assert cmds[j] in multiset(cmds) && multiset(order) == multiset(cmds);
    assert cmds[j] in multiset(order);
    var i :| 0 <= i < |order| && order[i] == cmds[j];
    assert H.Answers(results[i], order[i], H.OpenedBy(order, i, env), env);
  }

  lemma {:induction false} DistinctMultiplicity<T>(s: seq<T>, x: T)
    requires forall i, j :: 0 <= i < j < |s| ==> s[i] != s[j]
    ensures multiset(s)[x] <= 1 && (multiset(s)[x] == 1 <==> x in s)
  {
    if s != [] {
      assert s == [s[0]] + s[1..];
      assert forall i, j :: 0 <= i < j < |s[1..]| ==> s[1..][i] != s[1..][j];
      DistinctMultiplicity(s[1..], x);
    }
  }

  /** What a pull round leaves of the command rows. */
  ghost predicate CountsOf(before: multiset<StepKey>, now: multiset<StepKey>, pulled: seq<SyncUnit>,
                           steps: map<StepKey, SyncStep>) {
    && (forall k :: before[k] <= now[k] <= before[k] + 1)
    && (forall k :: k !in KeysOf(pulled) ==> now[k] == before[k])
    && (forall u :: u in pulled ==>
          now[u.key] == before[u.key] + 1 || (u.key in steps && steps[u.key].pullStatus == FAILED))
  }

  lemma CountsAfter(before: multiset<StepKey>, pulled: seq<SyncUnit>, issued: seq<SyncUnit>,
                    steps: map<StepKey, SyncStep>)
    requires DistinctKeyed(pulled) && Picked(issued, pulled, |pulled|)
    requires forall u :: u in pulled ==> u in issued || (u.key in steps && steps[u.key].pullStatus == FAILED)
    ensures CountsOf(before, before + multiset(KeysOf(issued)), pulled, steps)
  {
    assert pulled[..|pulled|] == pulled;
    forall k: StepKey
      ensures multiset(KeysOf(issued))[k] <= 1
      ensures k !in KeysOf(pulled) ==> multiset(KeysOf(issued))[k] == 0
    {
      CommandCounts(issued, k);
      if u :| u in issued && u.key == k {
        var i :| 0 <= i < |pulled| && pulled[i] == u;
        assert KeysOf(pulled)[i] == k;
      }
    }
    forall u | u in issued
      ensures multiset(KeysOf(issued))[u.key] == 1
    {
      CommandCounts(issued, u.key);
    }
  }

  lemma NoCounts(before: multiset<StepKey>, steps: map<StepKey, SyncStep>)
    ensures CountsOf(before, before, [], steps)
  {
  }

  lemma RowsCompose(a: map<StepKey, SyncStep>, b: map<StepKey, SyncStep>, c: map<StepKey, SyncStep>,
                    units: seq<SyncUnit>)
    requires SameWrites(a, b) && SameWrites(b, c) && OnlyRowsOf(a, b, units) && OnlyRowsOf(b, c, units)
    ensures SameWrites(a, c) && OnlyRowsOf(a, c, units)
  {
  }

  /** A unit whose file is missing or not pulled is not a settled one. */
  lemma DueMayPull(s: Store, k: StepKey)
    requires Inv(s) && k in s.steps && NeedsPull(s.steps[k], s.files)
    ensures MayPull(s.steps, s.lost, k)
  {
    assert Settled(s, k) ==> SettledOk(s, k);
  }

  lemma UnitIsKeyed(units: seq<SyncUnit>, unit: SyncUnit)
    requires WellKeyed(units) && unit in units
    ensures UnitKey(unit.key) && SafeName(unit.keys.brokerKey)
    ensures forall u :: u in units && u.key == unit.key ==> u == unit
  {
  }

  lemma OtherUnits(units: seq<SyncUnit>, issued: seq<SyncUnit>, unit: SyncUnit)
    requires WellKeyed(units) && unit in units && unit in issued
    ensures forall u :: u in units && u !in issued ==> u.key != unit.key
  {
    hide UnitKey, SafeName;
  }

  lemma KeysApart(units: seq<SyncUnit>, i: nat)
    requires DistinctKeyed(units) && i < |units|
    ensures forall j :: 0 <= j < |units| && j != i ==> units[j].key != units[i].key
  {
  }

  lemma FailedNeeds(step: SyncStep, files: map<string, Content>)
    requires step.pullStatus == FAILED
    ensures NeedsPull(step, files)
  {
  }

  /** Losses and one unit's update leave the others in need. */
  lemma AllStillNeedPull(units: seq<SyncUnit>, a: Point, b: Point, unit: SyncUnit, dir: string, scope: Scope)
    requires Meanwhile(dir, a, b, scope) && unit.key in b.steps && b.steps == a.steps[unit.key := b.steps[unit.key]]
    requires forall u :: u in units ==> u.key in a.steps && NeedsPull(a.steps[u.key], a.files)
    requires NeedsPull(b.steps[unit.key], b.files)
    ensures forall u :: u in units ==> u.key in b.steps && NeedsPull(b.steps[u.key], b.files)
  {
    hide Proceeds, NeedsPull;
    forall u | u in units
      ensures NeedsPull(b.steps[u.key], b.files)
    {
      StillNeedsPull(a.steps[u.key], a.files, b.files);
    }
  }

  lemma NonePulled(dir: string, es: seq<Effect>, steps: map<StepKey, SyncStep>)
    ensures forall now :: AllPulled(dir, es, now, [], steps)
  {
  }

  lemma NothingToPull(toPull: seq<SyncUnit>, issued: seq<SyncUnit>)
    requires issued == [] && forall u :: u in toPull ==> u in issued
    ensures toPull == []
  {
    FirstIsMember(toPull);
  }

  lemma FailedEnded(dir: string, before: seq<Effect>, now: seq<Effect>, units: seq<SyncUnit>,
                    steps: map<StepKey, SyncStep>, files: map<string, Content>)
    requires forall u :: u in units ==> u.key in steps && steps[u.key].pullStatus == FAILED
    ensures forall u :: u in units ==> PullEnded(dir, before, now, steps, files, u.key)
  {
    hide Kept;
  }

  lemma AllIssued(dir: string, before: seq<Effect>, now: seq<Effect>, toPull: seq<SyncUnit>, issued: seq<SyncUnit>,
                  steps: map<StepKey, SyncStep>)
    requires AllPulled(dir, before, now, issued, steps) && forall u :: u in toPull ==> u in issued
    ensures AllPulled(dir, before, now, toPull, steps)
  {
    hide Kept;
  }

  /** What ended since a later point ended since an earlier one. */
  lemma EndedSince(dir: string, a: Point, b: Point, c: Point, units: seq<SyncUnit>, scope: Scope, healthy: bool)
    requires a.log <= b.log <= c.log
    requires forall u :: u in units ==> PullEnded(dir, b.log, c.log, c.steps, c.files, u.key)
    requires healthy ==> AllPulled(dir, b.log, c.log, units, c.steps)
    ensures forall u :: u in units ==> PullEnded(dir, a.log, c.log, c.steps, c.files, u.key)
    ensures healthy ==> AllPulled(dir, a.log, c.log, units, c.steps)
  {
    hide Kept, PullEnded;
    forall u | u in units
      ensures PullEnded(dir, a.log, c.log, c.steps, c.files, u.key)
      ensures healthy && Kept(dir, a.log, c.log, u.key) ==> u.key in c.steps && PullOk(c.steps[u.key])
    {
      PullEndedEarlier(dir, a.log, b.log, c.log, c.steps, c.files, u.key);
      if Kept(dir, a.log, c.log, u.key) {
        KeptParts(dir, a.log, b.log, c.log, u.key);
      }
    }
  }

  // ---- writing: order and rows ----------------------------------------------

  lemma WriteWasDue(step: SyncStep, a: map<string, Content>, b: map<string, Content>)
    requires NeedsWrite(step, b) && Fewer(a, b)
    ensures NeedsWrite(step, a)
  {
  }

  lemma DueIfNeeded(step: SyncStep, files: map<string, Content>)
    requires NeedsWrite(step, files)
    ensures WriteDue(step)
  {
  }

  /** One more key to choose from; choosing it changes nothing before it. */
  lemma FilterMore(keys: seq<StepKey>, k: StepKey, chosen: set<StepKey>)
    requires k !in keys && k !in chosen
    ensures Filter(keys + [k], (x: StepKey) => x in chosen) == Filter(keys, (x: StepKey) => x in chosen)
    ensures Filter(keys + [k], (x: StepKey) => x in chosen + {k}) == Filter(keys, (x: StepKey) => x in chosen) + [k]
  {
    var old', new' := (x: StepKey) => x in chosen, (x: StepKey) => x in chosen + {k};
    FilterAppend(keys, [k], old');
    FilterAppend(keys, [k], new');
    FilterOne(k, old');
    FilterOne(k, new');
    assert forall i :: 0 <= i < |keys| ==> keys[i] in keys;
    FilterSame(keys, old', new');
  }

  lemma NotYetListed(units: seq<SyncUnit>, i: nat)
    requires DistinctKeyed(units) && i < |units|
    ensures units[i].key !in KeysOf(units[..i])
  {
    assert forall j :: 0 <= j < i ==> KeysOf(units[..i])[j] == units[j].key;
  }

  /** The units that are due among the first n, in their order, as far as their files were there when looked at. */
  ghost predicate Selected(units: seq<SyncUnit>, n: nat, toWrite: seq<SyncUnit>, chosen: set<StepKey>,
                           steps: map<StepKey, SyncStep>, had: map<string, Content>, files: map<string, Content>)
    requires n <= |units|
  {
    && KeysOf(toWrite) == Filter(KeysOf(units[..n]), (k: StepKey) => k in chosen) && DistinctKeyed(toWrite)
    && (forall k :: k in chosen <==> k in KeysOf(toWrite))
    && (forall u :: u in toWrite ==> u in units[..n] && u.key in steps && NeedsWrite(steps[u.key], had))
    && (forall u :: u in units[..n] && u.key in steps && NeedsWrite(steps[u.key], files) ==> u in toWrite)
  }

  lemma NoneSelected(units: seq<SyncUnit>, steps: map<StepKey, SyncStep>, files: map<string, Content>)
    ensures Selected(units, 0, [], {}, steps, files, files)
  {
  }

  lemma StillSelected(units: seq<SyncUnit>, n: nat, toWrite: seq<SyncUnit>, chosen: set<StepKey>,
                      steps: map<StepKey, SyncStep>, had: map<string, Content>, files: map<string, Content>,
                      files': map<string, Content>)
    requires n <= |units| && Selected(units, n, toWrite, chosen, steps, had, files) && Fewer(files, files')
    ensures Selected(units, n, toWrite, chosen, steps, had, files')
  {
    hide NeedsWrite, KeysOf, Filter, DistinctKeyed, Fewer;
    forall u | u in units[..n] && u.key in steps && NeedsWrite(steps[u.key], files')
      ensures u in toWrite
    {
      WriteWasDue(steps[u.key], files, files');
    }
  }

  lemma SelectedMore(units: seq<SyncUnit>, n: nat, toWrite: seq<SyncUnit>, chosen: set<StepKey>,
                     steps: map<StepKey, SyncStep>, had: map<string, Content>, files: map<string, Content>)
    requires n < |units| && DistinctKeyed(units) && units[n].key in steps && Fewer(had, files)
    requires Selected(units, n, toWrite, chosen, steps, had, files)
    ensures var k := units[n].key;
            if NeedsWrite(steps[k], files)
            then Selected(units, n + 1, toWrite + [units[n]], chosen + {k}, steps, had, files)
            else Selected(units, n + 1, toWrite, chosen, steps, had, files)
  {
    hide NeedsWrite, KeysOf, Filter, Fewer;
    var unit := units[n];
    TakeOneMore(units, n);
    KeysOfOneMore(units[..n], unit);
    KeysOfOneMore(toWrite, unit);
    NotYetListed(units, n);
    SomeKeys(units[..n], toWrite, unit.key);
    FilterMore(KeysOf(units[..n]), unit.key, chosen);
    if NeedsWrite(steps[unit.key], files) {
      WriteWasDue(steps[unit.key], had, files);
      assert forall u :: u in toWrite ==> u in units[..n];
      EarlierKeys(units, n);
    }
  }

  lemma EarlierKeys(units: seq<SyncUnit>, n: nat)
    requires DistinctKeyed(units) && n < |units|
    ensures forall u :: u in units[..n] ==> u.key != units[n].key
  {
  }

  lemma AllSelected(units: seq<SyncUnit>, toWrite: seq<SyncUnit>, chosen: set<StepKey>, steps: map<StepKey, SyncStep>,
                    had: map<string, Content>, files: map<string, Content>)
    requires Selected(units, |units|, toWrite, chosen, steps, had, files)
    ensures KeysOf(toWrite) == Filter(KeysOf(units), (k: StepKey) => k in KeysOf(toWrite)) && DistinctKeyed(toWrite)
    ensures forall u :: u in toWrite ==> u in units && u.key in steps && NeedsWrite(steps[u.key], had)
    ensures forall u :: u in units && u.key in steps && NeedsWrite(steps[u.key], files) ==> u in toWrite
  {
    hide NeedsWrite, KeysOf, Filter, DistinctKeyed;
    assert units[..|units|] == units;
    FilterSame(KeysOf(units), (k: StepKey) => k in chosen, (k: StepKey) => k in KeysOf(toWrite));
  }

  /** Sorting the selected units sorts the keys that the units' keys have in common with them. */
  lemma SameSelection(units: seq<SyncUnit>, toWrite: seq<SyncUnit>, sorted: seq<SyncUnit>)
    requires sorted == SortByRank(toWrite, UnitRank)
    requires KeysOf(toWrite) == Filter(KeysOf(units), (k: StepKey) => k in KeysOf(toWrite))
    ensures KeysOf(sorted) == SortByType(Filter(KeysOf(units), (k: StepKey) => k in KeysOf(sorted)))
  {
    hide SortByRank, SortByType;
    SortedKeys(toWrite);
    forall k: StepKey
      ensures k in KeysOf(toWrite) <==> k in KeysOf(sorted)
    {
      SortedSameKeys(toWrite, sorted, k);
    }
    FilterSame(KeysOf(units), (k: StepKey) => k in KeysOf(toWrite), (k: StepKey) => k in KeysOf(sorted));
  }

  lemma SortedSameKeys(toWrite: seq<SyncUnit>, sorted: seq<SyncUnit>, k: StepKey)
    requires sorted == SortByRank(toWrite, UnitRank)
    ensures k in KeysOf(toWrite) <==> k in KeysOf(sorted)
  {
    hide SortByRank;
    if k in KeysOf(toWrite) {
      var i :| 0 <= i < |toWrite| && KeysOf(toWrite)[i] == k;
      SortedMember(toWrite, toWrite[i]);
      var j :| 0 <= j < |sorted| && sorted[j] == toWrite[i];
      assert KeysOf(sorted)[j] == k;
    }
    if k in KeysOf(sorted) {
      var i :| 0 <= i < |sorted| && KeysOf(sorted)[i] == k;
      SortedMember(toWrite, sorted[i]);
      var j :| 0 <= j < |toWrite| && toWrite[j] == sorted[i];
      assert KeysOf(toWrite)[j] == k;
    }
  }

  function UnitRank(u: SyncUnit): int {
    TypeRank(u.key)
  }

  lemma {:induction false} KeysOfRank(units: seq<SyncUnit>, r: int)
    ensures KeysOf(OfRank(units, UnitRank, r)) == OfRank(KeysOf(units), TypeRank, r)
  {
    if units == [] {
      assert KeysOf(units) == [];
    } else {
      KeysOfRank(units[1..], r);
      assert KeysOf(units)[1..] == KeysOf(units[1..]);
      if UnitRank(units[0]) == r {
        var rest := OfRank(units[1..], UnitRank, r);
        assert KeysOf([units[0]] + rest) == [units[0].key] + KeysOf(rest);
      }
    }
  }

  lemma FilterOne<T>(x: T, keep: T -> bool)
    ensures Filter([x], keep) == if keep(x) then [x] else []
  {
    assert [x][1..] == [];
  }

  lemma KeysOfConcat(a: seq<SyncUnit>, b: seq<SyncUnit>)
    ensures KeysOf(a + b) == KeysOf(a) + KeysOf(b)
  {
  }

  /** Sorting units is sorting their keys. */
  lemma SortedKeys(units: seq<SyncUnit>)
    ensures KeysOf(SortByRank(units, UnitRank)) == SortByType(KeysOf(units))
  {
    var r0, r1 := OfRank(units, UnitRank, -1), OfRank(units, UnitRank, 0);
    var r2, r3 := OfRank(units, UnitRank, 1), OfRank(units, UnitRank, 2);
    KeysOfConcat(r0 + r1 + r2, r3);
    KeysOfConcat(r0 + r1, r2);
    KeysOfConcat(r0, r1);
    KeysOfRank(units, -1);
    KeysOfRank(units, 0);
    KeysOfRank(units, 1);
    KeysOfRank(units, 2);
  }

  /** Among units with distinct keys, being listed and having one's key listed are the same. */
  lemma KeyListed(all: seq<SyncUnit>, some: seq<SyncUnit>, u: SyncUnit)
    requires WellKeyed(all) && u in all && forall v :: v in some ==> v in all
    ensures u.key in KeysOf(some) <==> u in some
  {
    if u in some {
      var i :| 0 <= i < |some| && some[i] == u;
      assert KeysOf(some)[i] == u.key;
    }
    if u.key in KeysOf(some) {
      var i :| 0 <= i < |some| && KeysOf(some)[i] == u.key;
      assert some[i] in some;
    }
  }

  lemma SortedMember(units: seq<SyncUnit>, u: SyncUnit)
    ensures u in SortByRank(units, UnitRank) <==> u in units
  {
    OfRankMembers(units, UnitRank, -1, u);
    OfRankMembers(units, UnitRank, 0, u);
    OfRankMembers(units, UnitRank, 1, u);
    OfRankMembers(units, UnitRank, 2, u);
  }

  /** Sorting keeps distinct units distinct. */
  lemma SortedDistinct(units: seq<SyncUnit>)
    requires DistinctKeyed(units)
    ensures DistinctKeyed(SortByRank(units, UnitRank))
  {
    SortedKeys(units);
    SortByTypeIsStableSort(KeysOf(units), 0);
    var keys, sorted := KeysOf(units), KeysOf(SortByRank(units, UnitRank));
    assert forall i, j :: 0 <= i < j < |keys| ==> keys[i] != keys[j];
    forall i, j | 0 <= i < j < |sorted|
      ensures sorted[i] != sorted[j]
    {
      if sorted[i] == sorted[j] {
        TwiceInMultiset(sorted, i, j);
        DistinctMultiplicity(keys, sorted[i]);
        assert false;
      }
    }
    assert forall i :: 0 <= i < |sorted| ==> sorted[i] == SortByRank(units, UnitRank)[i].key;
  }

  lemma TwiceInMultiset<T>(s: seq<T>, i: nat, j: nat)
    requires i < j < |s| && s[i] == s[j]
    ensures multiset(s)[s[i]] >= 2
  {
    assert s == s[..i] + [s[i]] + s[i + 1..j] + [s[j]] + s[j + 1..];
  }

  /** A write changes nothing of a row but its write status and error. */
  ghost predicate SamePull(a: SyncStep, b: SyncStep) {
    b == a.(writeStatus := b.writeStatus, writeError := b.writeError)
  }

  /** The unit's file is there and stands for rows. */
  ghost predicate Fits(k: StepKey, keys: AccountKeys, steps: map<StepKey, SyncStep>, files: map<string, Content>) {
    && k in steps && steps[k].localFilePath.Some? && steps[k].localFilePath.value in files
    && Transform(InputOf(k, keys), files[steps[k].localFilePath.value]).Some?
  }

  /** The unit is pulled and not written. */
  predicate WriteDue(step: SyncStep) {
    step.pullStatus == SUCCESS && step.localFilePath.Some? && step.writeStatus != SUCCESS
  }

  /** Every unit that was due and whose file stands for rows has been written. */
  ghost predicate DueWritten(units: seq<SyncUnit>, before: map<StepKey, SyncStep>, steps: map<StepKey, SyncStep>,
                             files: map<string, Content>) {
    forall u :: u in units && u.key in before && NeedsWrite(before[u.key], files) ==>
      (Fits(u.key, u.keys, steps, files) ==> WriteOk(steps[u.key]))
  }

  /** Writing one unit, or losing files, gives no other unit a file that stands for rows. */
  lemma FitsAlike(a: map<StepKey, SyncStep>, b: map<StepKey, SyncStep>, files: map<string, Content>,
                  files': map<string, Content>, sorted: seq<SyncUnit>, i: nat)
    requires DistinctKeyed(sorted) && i < |sorted| && sorted[i].key in b && b == a[sorted[i].key := b[sorted[i].key]]
    requires Fewer(files, files')
    ensures forall j :: 0 <= j < i ==>
              (Fits(sorted[j].key, sorted[j].keys, b, files') ==> Fits(sorted[j].key, sorted[j].keys, a, files))
              && (sorted[j].key in a ==> b[sorted[j].key] == a[sorted[j].key])
  {
    hide Transform;
  }

  /** The outcome of one write: the slice replaced by the file's rows, or nothing changed. */
  ghost predicate Written(before: TradeTables, after: TradeTables, unit: SyncUnit, content: Content,
                          databaseUp: bool, ok: bool)
  {
    var input := InputOf(unit.key, unit.keys);
    && ok == (databaseUp && Transform(input, content).Some?)
    && if ok then Some(after) == WriteTables(before, input, content) else after == before
  }

  /** The rows of units after the first writes of a round. */
  ghost predicate WritesSoFar(dir: string, a: Point, b: Point, done: seq<StepKey>) {
    && a.steps.Keys == b.steps.Keys
    && (forall k :: k in a.steps ==> SamePull(a.steps[k], b.steps[k]))
    && (forall k :: k in a.steps && k !in done ==> b.steps[k] == a.steps[k])
    && (forall k :: k in done ==> Tried(dir, a, b, k))
  }

  lemma WriteMore(dir: string, a: Point, b: Point, done: seq<StepKey>, c: Point, k: StepKey)
    requires WritesSoFar(dir, a, b, done) && a.log <= b.log <= c.log && Intact(dir, b, c)
    requires k in b.steps && k in c.steps && c.steps == b.steps[k := c.steps[k]] && SamePull(b.steps[k], c.steps[k])
    requires Tried(dir, b, c, k)
    ensures WritesSoFar(dir, a, c, done + [k])
  {
    hide Kept;
    forall j | j in done + [k]
      ensures Tried(dir, a, c, j)
    {
      if Kept(dir, a.log, c.log, j) {
        KeptParts(dir, a.log, b.log, c.log, j);
      }
    }
  }

  /** Losses alone leave the rows as they are. */
  lemma NoWrites(dir: string, a: Point, b: Point)
    requires b.steps == a.steps
    ensures WritesSoFar(dir, a, b, [])
  {
  }

  lemma AllRowsThere(units: seq<SyncUnit>, steps: map<StepKey, SyncStep>)
    requires forall u :: u in units ==> u.key in steps
    ensures forall k :: k in KeysOf(units) ==> k in steps
  {
    forall k | k in KeysOf(units)
      ensures k in steps
    {
      var i :| 0 <= i < |units| && KeysOf(units)[i] == k;
      assert units[i] in units;
    }
  }

  lemma {:induction false} FilterBoth<T>(s: seq<T>, f: T -> bool, g: T -> bool, both: T -> bool)
    requires forall x :: both(x) <==> f(x) && g(x)
    ensures Filter(Filter(s, f), g) == Filter(s, both)
  {
    if s != [] {
      FilterBoth(s[1..], f, g, both);
      if f(s[0]) {
        assert ([s[0]] + Filter(s[1..], f))[1..] == Filter(s[1..], f);
      }
    }
  }

  function OfType(keys: seq<StepKey>, t: TradeDataType): seq<StepKey> {
    Filter(keys, (k: StepKey) => k.dataType == t)
  }

  /** Positions, then orders, then trades, each in the order of the units. */
  ghost predicate InWriteOrder(attempted: seq<StepKey>, keys: seq<StepKey>) {
    && (forall p, q :: 0 <= p < q < |attempted| ==> NotLater(attempted[p].dataType, attempted[q].dataType))
    && forall t :: OfType(attempted, t) == Filter(keys, (k: StepKey) => k in attempted && k.dataType == t)
  }

  lemma SortedInWriteOrder(attempted: seq<StepKey>, keys: seq<StepKey>)
    requires attempted == SortByType(Filter(keys, (k: StepKey) => k in attempted))
    ensures InWriteOrder(attempted, keys)
  {
    hide SortByType, NotLater;
    var listed := (k: StepKey) => k in attempted;
    WriteOrder(Filter(keys, listed), FUND);
    forall t
      ensures OfType(attempted, t) == Filter(keys, (k: StepKey) => k in attempted && k.dataType == t)
    {
      WriteOrder(Filter(keys, listed), t);
      FilterBoth(keys, listed, (k: StepKey) => k.dataType == t, (k: StepKey) => k in attempted && k.dataType == t);
    }
  }

  // ---- the four rounds ---------------------------------------------------------

  /** After the last round: pulled or failed, and if pulled then written or failed. */
  ghost predicate UnitFinished(step: SyncStep, files: map<string, Content>) {
    PullDone(step, files) && (PullOk(step) ==> step.writeStatus != PENDING)
  }

  lemma FailedNeedsPull(a: SyncStep, b: SyncStep, files: map<string, Content>)
    requires SamePull(a, b) && a.pullStatus == FAILED
    ensures NeedsPull(b, files)
  {
  }

  lemma FinishUnit(dir: string, a: Point, b: Point, attempted: seq<StepKey>, k: StepKey)
    requires k in a.steps && PullDone(a.steps[k], a.files) && WritesSoFar(dir, a, b, attempted)
    requires k in attempted <==> NeedsWrite(a.steps[k], a.files)
    requires k in b.steps ==> (NeedsPull(b.steps[k], b.files) <==> NeedsPull(b.steps[k], a.files))
    ensures k in b.steps && UnitFinished(b.steps[k], b.files)
  {
  }

  /**
   A pull round: every unit that needs a pull is tried, and no other that lost no file meanwhile, each with at
   most one command; every unit ends failed or successful, with its file unless that was lost.
   */
  ghost predicate PullStep(dir: string, units: seq<SyncUnit>, a: Point, b: Point, pulled: seq<SyncUnit>,
                           scope: Scope)
  {
    && Proceeds(dir, a, b, scope) && b.tables == a.tables
    && (forall u :: u in units ==> u.key in a.steps && u.key in b.steps)
    && SameWrites(a.steps, b.steps) && OnlyRowsOf(a.steps, b.steps, pulled)
    && (forall u :: u in pulled ==>
          u in units && (Kept(dir, a.log, b.log, u.key) ==> NeedsPull(a.steps[u.key], a.files)))
    && (forall u :: u in units && NeedsPull(a.steps[u.key], a.files) ==> u in pulled)
    && (forall u :: u in pulled ==> Attempted(a.log, b.log, u.key, PullAttempt))
    && (forall u :: u in units ==> PullEnded(dir, a.log, b.log, b.steps, b.files, u.key))
    && CountsOf(a.commands, b.commands, pulled, b.steps)
    && (pulled == [] ==> OnlyLosses(dir, a, b, scope))
  }

  /** A write round: the units that are due and lose no file meanwhile are tried, and no unit that is not due. */
  ghost predicate WriteStep(dir: string, units: seq<SyncUnit>, a: Point, b: Point, attempted: seq<StepKey>,
                            scope: Scope)
  {
    && Grew(dir, a.log, b.log, scope) && Intact(dir, a, b) && Fewer(a.files, b.files) && b.commands == a.commands
    && (forall u :: u in units ==>
          && u.key in a.steps && (u.key in attempted ==> NeedsWrite(a.steps[u.key], a.files))
          && (NeedsWrite(a.steps[u.key], a.files) && Kept(dir, a.log, b.log, u.key) ==> u.key in attempted))
    && (forall k :: k in attempted ==> k in KeysOf(units) && Attempted(a.log, b.log, k, WriteAttempt))
    && WritesSoFar(dir, a, b, attempted)
    && (forall u :: u in units && Kept(dir, a.log, b.log, u.key) && u.key in b.steps ==>
          (NeedsPull(b.steps[u.key], b.files) <==> NeedsPull(b.steps[u.key], a.files)))
    && (attempted == [] ==> OnlyLosses(dir, a, b, scope))
  }

  /**
   What a run makes of a unit: it was pulled or failed, and if no file of it was lost meanwhile it is finished
   and was given both chances.
   */
  ghost predicate Treated(dir: string, before: seq<Effect>, now: seq<Effect>, steps: map<StepKey, SyncStep>,
                          files: map<string, Content>, k: StepKey)
  {
    && k in steps && steps[k].pullStatus != PENDING
    && (Kept(dir, before, now, k) ==> UnitFinished(steps[k], files) && GivenTwoChances(before, now, steps, k))
  }

  /**
   All four rounds: every unit is treated and was commanded at most twice; rows of other units stay; and
   nothing at all happens when every unit was done before and no file is lost.
   */
  ghost predicate RoundsDone(dir: string, units: seq<SyncUnit>, a: Point, b: Point, scope: Scope) {
    && Grew(dir, a.log, b.log, scope) && Intact(dir, a, b) && b.steps.Keys == a.steps.Keys
    && (forall u :: u in units ==> Treated(dir, a.log, b.log, b.steps, b.files, u.key))
    && (forall k :: k in b.steps && k !in KeysOf(units) ==> b.steps[k] == a.steps[k])
    && (forall k :: a.commands[k] <= b.commands[k] <= a.commands[k] + 2)
    && (forall k :: k !in KeysOf(units) ==> b.commands[k] == a.commands[k])
    && (forall u :: u in units && NeedsPull(a.steps[u.key], a.files) ==>
          b.commands[u.key] > a.commands[u.key] || b.steps[u.key].pullStatus == FAILED)
    && (NoLosses(a.log, b.log)
        && (forall u :: u in units ==> !NeedsPull(a.steps[u.key], a.files) && WriteOk(a.steps[u.key])) ==>
          b == a)
  }

  /** A unit that one round could not command is tried again by the next. */
  lemma CommandedOrFailed(before: multiset<StepKey>, mid: multiset<StepKey>, now: multiset<StepKey>,
                          pulled: seq<SyncUnit>, pulled': seq<SyncUnit>, s1: map<StepKey, SyncStep>,
                          s3: map<StepKey, SyncStep>, u: SyncUnit)
    requires CountsOf(before, mid, pulled, s1) && CountsOf(mid, now, pulled', s3)
    requires u in pulled && u.key in s1 && (s1[u.key].pullStatus == FAILED ==> u in pulled')
    ensures now[u.key] > before[u.key] || (u.key in s3 && s3[u.key].pullStatus == FAILED)
  {
  }

  /** A pull round and a write round after it change only rows of the units. */
  lemma RoundRows(dir: string, a: Point, b: Point, c: Point, units: seq<SyncUnit>, pulled: seq<SyncUnit>,
                  attempted: seq<StepKey>)
    requires SameWrites(a.steps, b.steps) && OnlyRowsOf(a.steps, b.steps, pulled) && WritesSoFar(dir, b, c, attempted)
    requires (forall u :: u in pulled ==> u in units) && forall k :: k in attempted ==> k in KeysOf(units)
    ensures c.steps.Keys == a.steps.Keys
    ensures forall k :: k in c.steps && k !in KeysOf(units) ==> c.steps[k] == a.steps[k]
    ensures forall k :: k in b.steps ==> k in c.steps && SamePull(b.steps[k], c.steps[k])
  {
    hide Tried;
    forall k | k in c.steps && k !in KeysOf(units)
      ensures c.steps[k] == a.steps[k]
    {
      SomeKeys(units, pulled, k);
    }
  }

  /** A unit that ends failed was attempted in both rounds; its write at least once, if the pull took both. */
  ghost predicate GivenTwoChances(before: seq<Effect>, now: seq<Effect>, steps: map<StepKey, SyncStep>, k: StepKey) {
    k in steps ==>
      && (!PullOk(steps[k]) ==> AttemptedTwice(before, now, k, PullAttempt))
      && (PullOk(steps[k]) && !WriteOk(steps[k]) ==>
            || AttemptedTwice(before, now, k, WriteAttempt)
            || (AttemptedTwice(before, now, k, PullAttempt) && Attempted(before, now, k, WriteAttempt)))
  }

  /** A longer stretch of the log holds every attempt of a shorter one. */
  lemma ChancesLast(a: seq<Effect>, b: seq<Effect>, c: seq<Effect>, d: seq<Effect>, steps: map<StepKey, SyncStep>,
                    k: StepKey)
    requires a <= b <= c <= d && GivenTwoChances(b, c, steps, k)
    ensures GivenTwoChances(a, d, steps, k)
  {
    AttemptsLast(a, b, c, d, k, PullAttempt);
    AttemptsLast(a, b, c, d, k, WriteAttempt);
  }

  /** A longer stretch of the log, with losses after the rounds, leaves a unit treated. */
  lemma StillTreated(dir: string, a: seq<Effect>, b: seq<Effect>, p: Point, q: Point, k: StepKey)
    requires a <= b <= p.log <= q.log && Treated(dir, b, p.log, p.steps, p.files, k)
    requires q.steps == p.steps && Intact(dir, p, q) && Fewer(p.files, q.files) && RowsOwn(dir, p.steps)
    ensures Treated(dir, a, q.log, q.steps, q.files, k)
  {
    hide Kept, Intact, GivenTwoChances, NeedsPull, NeedsWrite, OwnPath, UnitKey;
    if Kept(dir, a, q.log, k) {
      KeptParts(dir, a, b, q.log, k);
      KeptParts(dir, b, p.log, q.log, k);
      ChancesLast(a, b, p.log, q.log, p.steps, k);
      NeedAlike(dir, p, q, k, p.steps[k]);
    }
  }

  lemma AllStillTreated(dir: string, a: seq<Effect>, b: seq<Effect>, p: Point, q: Point, units: seq<SyncUnit>)
    requires a <= b <= p.log <= q.log && forall u :: u in units ==> Treated(dir, b, p.log, p.steps, p.files, u.key)
    requires q.steps == p.steps && Intact(dir, p, q) && Fewer(p.files, q.files) && RowsOwn(dir, p.steps)
    ensures forall k :: k in KeysOf(units) ==> Treated(dir, a, q.log, q.steps, q.files, k)
  {
    hide Treated, Intact, RowsOwn, Fewer;
    forall k | k in KeysOf(units)
      ensures Treated(dir, a, q.log, q.steps, q.files, k)
    {
      var i :| 0 <= i < |units| && KeysOf(units)[i] == k;
      assert units[i] in units;
      StillTreated(dir, a, b, p, q, k);
    }
  }

  /** The unit is pulled, and written unless its file stands for no rows. */
  ghost predicate WentWell(k: StepKey, keys: AccountKeys, steps: map<StepKey, SyncStep>, files: map<string, Content>) {
    k in steps && PullOk(steps[k]) && (Fits(k, keys, steps, files) ==> WriteOk(steps[k]))
  }

  ghost predicate AllWentWell(dir: string, before: seq<Effect>, now: seq<Effect>, specs: seq<UnitSpec>,
                              steps: map<StepKey, SyncStep>, files: map<string, Content>)
  {
    forall i :: 0 <= i < |specs| && Kept(dir, before, now, specs[i].key) ==>
      WentWell(specs[i].key, specs[i].keys, steps, files)
  }

  lemma StillWell(dir: string, a: seq<Effect>, b: seq<Effect>, c: seq<Effect>, d: seq<Effect>, specs: seq<UnitSpec>,
                  steps: map<StepKey, SyncStep>, files: map<string, Content>, files': map<string, Content>)
    requires a <= b <= c <= d && AllWentWell(dir, b, c, specs, steps, files) && Fewer(files, files')
    ensures AllWentWell(dir, a, d, specs, steps, files')
  {
    hide Kept, Transform;
    forall i | 0 <= i < |specs| && Kept(dir, a, d, specs[i].key)
      ensures WentWell(specs[i].key, specs[i].keys, steps, files')
    {
      KeptParts(dir, a, b, d, specs[i].key);
      KeptParts(dir, b, c, d, specs[i].key);
    }
  }

  lemma StillWellIf(dir: string, a: seq<Effect>, b: seq<Effect>, c: seq<Effect>, specs: seq<UnitSpec>,
                    steps: map<StepKey, SyncStep>, files: map<string, Content>, healthy: bool)
    requires a <= b <= c && (healthy ==> AllWentWell(dir, b, c, specs, steps, files))
    ensures healthy ==> AllWentWell(dir, a, c, specs, steps, files)
  {
    hide AllWentWell;
    if healthy {
      StillWell(dir, a, b, c, c, specs, steps, files, files);
    }
  }

  lemma HealthyUnits(dir: string, units: seq<SyncUnit>, z: Point, a: Point, b: Point, attempted: seq<StepKey>,
                     scope: Scope)
    requires z.log <= a.log && AllPulled(dir, z.log, a.log, units, a.steps)
    requires WriteStep(dir, units, a, b, attempted, scope)
    requires DueWritten(units, a.steps, b.steps, b.files)
    requires forall u :: u in units ==> PullEnded(dir, z.log, a.log, a.steps, a.files, u.key)
    ensures AllWentWell(dir, z.log, b.log, SpecsOf(units), b.steps, b.files)
  {
    hide Fits, Attempted, Kept, Intact, Grew, OnlyLosses, Fewer;
    GrewIsPrefix(dir, a.log, b.log, scope);
    forall i | 0 <= i < |units| && Kept(dir, z.log, b.log, units[i].key)
      ensures WentWell(units[i].key, units[i].keys, b.steps, b.files)
    {
      var u := units[i];
      KeptParts(dir, z.log, a.log, b.log, u.key);
      assert u in units && SamePull(a.steps[u.key], b.steps[u.key]);
    }
  }

  lemma Chances(before: seq<Effect>, now: seq<Effect>, steps: map<StepKey, SyncStep>, k: StepKey)
    requires k in steps
    requires !PullOk(steps[k]) ==> AttemptedTwice(before, now, k, PullAttempt)
    requires PullOk(steps[k]) && !WriteOk(steps[k]) ==>
               || AttemptedTwice(before, now, k, WriteAttempt)
               || (AttemptedTwice(before, now, k, PullAttempt) && Attempted(before, now, k, WriteAttempt))
    ensures GivenTwoChances(before, now, steps, k)
  {
  }

  /** One row through the four rounds: a pull that failed is tried again, and what is not written yet is tried again. */
  lemma TwoChances(a0: SyncStep, a1: SyncStep, a2: SyncStep, a3: SyncStep, a4: SyncStep, f0: map<string, Content>,
                   f1: map<string, Content>, f3: map<string, Content>, p: bool, w: bool, p': bool, w': bool)
    requires p == NeedsPull(a0, f0) && (!p ==> a1 == a0) && PullDone(a1, f1)
    requires w == NeedsWrite(a1, f1) && SamePull(a1, a2) && (!w ==> a2 == a1)
    requires p' == NeedsPull(a2, f1) && (!p' ==> a3 == a2) && SameWrite(a2, a3) && PullDone(a3, f3)
    requires w' == NeedsWrite(a3, f3) && SamePull(a3, a4) && (!w' ==> a4 == a3)
    ensures !PullOk(a4) ==> p && p'
    ensures PullOk(a4) && !WriteOk(a4) ==> w' && (w || (p && p'))
  {
  }

  lemma ChancesOfUnit(dir: string, p0: Point, p1: Point, p2: Point, p3: Point, p4: Point, units: seq<SyncUnit>,
                      pulled: seq<SyncUnit>, pulled': seq<SyncUnit>, attempted: seq<StepKey>, attempted': seq<StepKey>,
                      u: SyncUnit)
    requires WellKeyed(units) && u in units
    requires u.key in p0.steps && u.key in p1.steps && u.key in p2.steps && u.key in p3.steps
    requires (forall v :: v in pulled ==> v in units) && forall v :: v in pulled' ==> v in units
    requires u in pulled <==> NeedsPull(p0.steps[u.key], p0.files)
    requires u in pulled' <==> NeedsPull(p2.steps[u.key], p2.files)
    requires NeedsPull(p2.steps[u.key], p2.files) <==> NeedsPull(p2.steps[u.key], p1.files)
    requires u.key in attempted <==> NeedsWrite(p1.steps[u.key], p1.files)
    requires u.key in attempted' <==> NeedsWrite(p3.steps[u.key], p3.files)
    requires OnlyRowsOf(p0.steps, p1.steps, pulled) && PullDone(p1.steps[u.key], p1.files)
    requires WritesSoFar(dir, p1, p2, attempted)
    requires OnlyRowsOf(p2.steps, p3.steps, pulled') && SameWrites(p2.steps, p3.steps)
    requires PullDone(p3.steps[u.key], p3.files) && WritesSoFar(dir, p3, p4, attempted')
    ensures u.key in p4.steps
    ensures !PullOk(p4.steps[u.key]) ==> u in pulled && u in pulled'
    ensures PullOk(p4.steps[u.key]) && !WriteOk(p4.steps[u.key]) ==>
              u.key in attempted' && (u.key in attempted || (u in pulled && u in pulled'))
  {
    hide Tried;
    KeyListed(units, pulled, u);
    KeyListed(units, pulled', u);
    TwoChances(p0.steps[u.key], p1.steps[u.key], p2.steps[u.key], p3.steps[u.key], p4.steps[u.key], p0.files, p1.files,
               p3.files, u in pulled, u.key in attempted, u in pulled', u.key in attempted');
  }

  /** When no unit is due, a round has nothing to do. */
  lemma NothingDue(units: seq<SyncUnit>, pulled: seq<SyncUnit>, steps: map<StepKey, SyncStep>,
                   files: map<string, Content>)
    requires forall u :: u in pulled ==> u in units && u.key in steps && NeedsPull(steps[u.key], files)
    requires forall u :: u in units ==> u.key in steps && !NeedsPull(steps[u.key], files)
    ensures pulled == []
  {
    FirstIsMember(pulled);
  }

  lemma NothingToWrite(units: seq<SyncUnit>, a: map<StepKey, SyncStep>, attempted: seq<StepKey>,
                       files: map<string, Content>)
    requires forall u :: u in units ==> u.key in a && WriteOk(a[u.key])
    requires forall u :: u in units && u.key in attempted ==> NeedsWrite(a[u.key], files)
    requires forall k :: k in attempted ==> k in KeysOf(units)
    ensures attempted == []
  {
    FirstIsMember(attempted);
    forall k | k in KeysOf(units)
      ensures exists u :: u in units && u.key == k
    {
      var i :| 0 <= i < |units| && KeysOf(units)[i] == k;
      assert units[i] in units;
    }
  }

  /** Two rounds issue at most two commands for a unit, and none for others. */
  lemma TwoRounds(before: multiset<StepKey>, mid: multiset<StepKey>, now: multiset<StepKey>, units: seq<SyncUnit>,
                  pulled: seq<SyncUnit>, pulled': seq<SyncUnit>, s1: map<StepKey, SyncStep>, s3: map<StepKey, SyncStep>)
    requires CountsOf(before, mid, pulled, s1) && CountsOf(mid, now, pulled', s3)
    requires (forall u :: u in pulled ==> u in units) && forall u :: u in pulled' ==> u in units
    ensures forall k :: before[k] <= now[k] <= before[k] + 2
    ensures forall k :: k !in KeysOf(units) ==> now[k] == before[k]
  {
    forall k | k !in KeysOf(units)
      ensures k !in KeysOf(pulled) && k !in KeysOf(pulled')
    {
      SomeKeys(units, pulled, k);
      SomeKeys(units, pulled', k);
    }
  }

  lemma SomeKeys(units: seq<SyncUnit>, some: seq<SyncUnit>, k: StepKey)
    requires forall u :: u in some ==> u in units
    ensures k in KeysOf(some) ==> k in KeysOf(units)
  {
    if k in KeysOf(some) {
      var i :| 0 <= i < |some| && KeysOf(some)[i] == k;
      assert some[i] in units;
      var j :| 0 <= j < |units| && units[j] == some[i];
      assert KeysOf(units)[j] == k;
    }
  }

  lemma SomeKeyed(units: seq<SyncUnit>, some: seq<SyncUnit>)
    requires WellKeyed(units) && forall u :: u in some ==> u in units
    ensures WellKeyed(some)
  {
  }

  lemma RowOfOther(units: seq<SyncUnit>, pulled: seq<SyncUnit>, a: map<StepKey, SyncStep>, b: map<StepKey, SyncStep>,
                   u: SyncUnit)
    requires WellKeyed(units) && u in units && u !in pulled && (forall v :: v in pulled ==> v in units)
    requires OnlyRowsOf(a, b, pulled) && u.key in a
    ensures u.key in b && b[u.key] == a[u.key]
  {
    KeyListed(units, pulled, u);
  }

  /** Selecting and pulling units makes the round. */
  lemma PullsMakeStep(dir: string, units: seq<SyncUnit>, pulled: seq<SyncUnit>, a: Point, m: Point, b: Point,
                      scope: Scope, healthy: bool)
    requires WellKeyed(units) && (forall u :: u in units ==> u.key in a.steps) && RowsOwn(dir, a.steps)
    requires OnlyLosses(dir, a, m, scope) && Proceeds(dir, m, b, scope) && b.tables == m.tables
    requires forall u :: u in pulled ==> u in units && NeedsPull(a.steps[u.key], m.files)
    requires forall u :: u in units && NeedsPull(a.steps[u.key], a.files) ==> u in pulled
    requires SameWrites(a.steps, b.steps) && OnlyRowsOf(a.steps, b.steps, pulled)
    requires forall u :: u in pulled ==>
               PullEnded(dir, m.log, b.log, b.steps, b.files, u.key) && Attempted(m.log, b.log, u.key, PullAttempt)
    requires CountsOf(m.commands, b.commands, pulled, b.steps) && (pulled == [] ==> b == m)
    requires healthy ==> AllPulled(dir, m.log, b.log, pulled, b.steps)
    ensures PullStep(dir, units, a, b, pulled, scope)
    ensures healthy ==> AllPulled(dir, a.log, b.log, units, b.steps)
  {
    hide Grew, Attempted, SameWrites, OnlyRowsOf, CountsOf, NeedsPull, WellKeyed, Kept, Intact, RowsOwn, PullEnded;
    GrewIsPrefix(dir, a.log, m.log, scope);
    GrewIsPrefix(dir, m.log, b.log, scope);
    ProceedsMore(dir, a, m, b, scope);
    forall u | u in units
      ensures PullEnded(dir, a.log, b.log, b.steps, b.files, u.key)
      ensures u.key in b.steps
      ensures healthy && Kept(dir, a.log, b.log, u.key) ==> PullOk(b.steps[u.key])
      ensures u in pulled ==> Attempted(a.log, b.log, u.key, PullAttempt)
      ensures u in pulled && Kept(dir, a.log, b.log, u.key) ==> NeedsPull(a.steps[u.key], a.files)
    {
      if Kept(dir, a.log, b.log, u.key) {
        KeptParts(dir, a.log, m.log, b.log, u.key);
      }
      if u in pulled {
        PulledUnit(dir, a, m, b, u.key);
      } else {
        RowOfOther(units, pulled, a.steps, b.steps, u);
        UnitLeftAlone(dir, a, b, u.key);
      }
    }
  }

  lemma PulledUnit(dir: string, a: Point, m: Point, b: Point, k: StepKey)
    requires a.log <= m.log <= b.log && k in a.steps && RowsOwn(dir, a.steps)
    requires Intact(dir, a, m) && Fewer(a.files, m.files) && NeedsPull(a.steps[k], m.files)
    requires PullEnded(dir, m.log, b.log, b.steps, b.files, k) && Attempted(m.log, b.log, k, PullAttempt)
    ensures PullEnded(dir, a.log, b.log, b.steps, b.files, k) && Attempted(a.log, b.log, k, PullAttempt)
    ensures k in b.steps
    ensures Kept(dir, a.log, b.log, k) ==> NeedsPull(a.steps[k], a.files)
  {
    hide Kept, Intact, NeedsPull, OwnPath, UnitKey;
    PullEndedEarlier(dir, a.log, m.log, b.log, b.steps, b.files, k);
    AttemptsLast(a.log, m.log, b.log, b.log, k, PullAttempt);
    if Kept(dir, a.log, b.log, k) {
      KeptParts(dir, a.log, m.log, b.log, k);
      NeedAlike(dir, a, m, k, a.steps[k]);
    }
  }

  lemma UnitLeftAlone(dir: string, a: Point, b: Point, k: StepKey)
    requires k in a.steps && RowsOwn(dir, a.steps) && !NeedsPull(a.steps[k], a.files)
    requires k in b.steps && b.steps[k] == a.steps[k] && Intact(dir, a, b)
    ensures PullEnded(dir, a.log, b.log, b.steps, b.files, k) && PullOk(b.steps[k])
  {
    hide Kept, Intact, OwnPath, UnitKey;
    if Kept(dir, a.log, b.log, k) {
      KeptFile(dir, a, b, k, a.steps[k].localFilePath.value);
    }
  }

  /** Selecting and writing units makes the round. */
  lemma WritesMakeStep(dir: string, units: seq<SyncUnit>, sorted: seq<SyncUnit>, a: Point, m: Point, b: Point,
                       scope: Scope, healthy: bool)
    requires WellKeyed(units) && (forall u :: u in units ==> u.key in a.steps) && RowsOwn(dir, b.steps)
    requires OnlyLosses(dir, a, m, scope)
    requires Grew(dir, m.log, b.log, scope) && Intact(dir, m, b) && Fewer(m.files, b.files) && b.commands == m.commands
    requires forall u :: u in sorted ==> u in units && NeedsWrite(a.steps[u.key], a.files)
    requires forall u :: u in units && NeedsWrite(a.steps[u.key], m.files) ==> u in sorted
    requires WritesSoFar(dir, m, b, KeysOf(sorted))
    requires forall k :: k in KeysOf(sorted) ==> Attempted(m.log, b.log, k, WriteAttempt)
    requires sorted == [] ==> b == m
    requires healthy ==> forall u :: u in sorted && Fits(u.key, u.keys, b.steps, b.files) ==>
                u.key in b.steps && WriteOk(b.steps[u.key])
    ensures WriteStep(dir, units, a, b, KeysOf(sorted), scope)
    ensures healthy ==> DueWritten(units, a.steps, b.steps, b.files)
  {
    hide Grew, Attempted, NeedsPull, NeedsWrite, WellKeyed, Kept, Intact, RowsOwn, WritesSoFar, KeysOf, Fits,
         OnlyLosses, Fewer;
    OnlyLossesIsMeanwhile(dir, a, m, scope);
    WritesGoOn(dir, a, m, b, scope);
    LossesThenWrites(dir, a, m, b, KeysOf(sorted), scope);
    LossesIsSteps(dir, a, m, scope);
    NoKeysOfNone();
    forall u | u in units
      ensures u.key in KeysOf(sorted) <==> u in sorted
    {
      KeyListed(units, sorted, u);
    }
    forall k | k in KeysOf(sorted)
      ensures k in KeysOf(units)
    {
      SomeKeys(units, sorted, k);
    }
    forall u | u in units && Kept(dir, a.log, b.log, u.key)
      ensures NeedsWrite(a.steps[u.key], a.files) ==> u in sorted
      ensures u.key in b.steps ==> (NeedsPull(b.steps[u.key], b.files) <==> NeedsPull(b.steps[u.key], a.files))
    {
      KeptUnit(dir, a, m, b, KeysOf(sorted), u.key);
    }
    if healthy {
      forall u | u in units && u.key in a.steps && NeedsWrite(a.steps[u.key], b.files)
        ensures u in sorted
      {
        WriteWasDue(a.steps[u.key], m.files, b.files);
      }
    }
  }

  lemma LossesIsSteps(dir: string, a: Point, m: Point, scope: Scope)
    requires OnlyLosses(dir, a, m, scope)
    ensures m.steps == a.steps && m.commands == a.commands && m.tables == a.tables
  {
  }

  lemma NoKeysOfNone()
    ensures KeysOf([]) == [] && forall units :: KeysOf(units) == [] ==> units == []
  {
    forall units | KeysOf(units) == []
      ensures units == []
    {
      assert |KeysOf(units)| == |units|;
    }
  }

  lemma LossesThenWrites(dir: string, a: Point, m: Point, b: Point, done: seq<StepKey>, scope: Scope)
    requires OnlyLosses(dir, a, m, scope) && WritesSoFar(dir, m, b, done) && a.log <= m.log <= b.log
    ensures WritesSoFar(dir, a, b, done)
  {
    hide Kept, Meanwhile;
    forall k | k in done
      ensures Tried(dir, a, b, k)
    {
      if Kept(dir, a.log, b.log, k) {
        KeptParts(dir, a.log, m.log, b.log, k);
      }
    }
  }

  lemma KeptUnit(dir: string, a: Point, m: Point, b: Point, done: seq<StepKey>, k: StepKey)
    requires a.log <= m.log <= b.log && Kept(dir, a.log, b.log, k) && WritesSoFar(dir, a, b, done)
    requires Intact(dir, a, m) && Fewer(a.files, m.files) && Intact(dir, a, b) && Fewer(a.files, b.files)
    requires k in a.steps && RowsOwn(dir, b.steps)
    ensures NeedsWrite(a.steps[k], a.files) <==> NeedsWrite(a.steps[k], m.files)
    ensures k in b.steps && (NeedsPull(b.steps[k], b.files) <==> NeedsPull(b.steps[k], a.files))
  {
    hide Kept, Intact, Fewer, NeedsPull, NeedsWrite, Tried, OwnPath, UnitKey;
    assert SamePull(a.steps[k], b.steps[k]);
    KeptParts(dir, a.log, m.log, b.log, k);
    NeedAlike(dir, a, m, k, a.steps[k]);
    NeedAlike(dir, a, b, k, b.steps[k]);
  }

  // ---- four steps in a row -------------------------------------------------------

  lemma StepsKeepOthers(dir: string, units: seq<SyncUnit>, p0: Point, p1: Point, p2: Point, p3: Point, p4: Point,
                        pulled: seq<SyncUnit>, pulled': seq<SyncUnit>, attempted: seq<StepKey>,
                        attempted': seq<StepKey>, scope: Scope)
    requires PullStep(dir, units, p0, p1, pulled, scope) && WriteStep(dir, units, p1, p2, attempted, scope)
    requires PullStep(dir, units, p2, p3, pulled', scope) && WriteStep(dir, units, p3, p4, attempted', scope)
    ensures p4.steps.Keys == p0.steps.Keys
    ensures forall k :: k in p4.steps && k !in KeysOf(units) ==> p4.steps[k] == p0.steps[k]
    ensures forall k :: p0.commands[k] <= p4.commands[k] <= p0.commands[k] + 2
    ensures forall k :: k !in KeysOf(units) ==> p4.commands[k] == p0.commands[k]
  {
    hide Grew, Attempted, NeedsPull, NeedsWrite, PullEnded, SameWrites, OnlyRowsOf, WritesSoFar, CountsOf, KeysOf,
         Kept, Intact, OnlyLosses, Fewer, Proceeds;
    RoundRows(dir, p0, p1, p2, units, pulled, attempted);
    RoundRows(dir, p2, p3, p4, units, pulled', attempted');
    TwoRounds(p0.commands, p2.commands, p4.commands, units, pulled, pulled', p1.steps, p3.steps);
  }

  lemma StepsLog(dir: string, units: seq<SyncUnit>, p0: Point, p1: Point, p2: Point, p3: Point, p4: Point,
                 pulled: seq<SyncUnit>, pulled': seq<SyncUnit>, attempted: seq<StepKey>,
                 attempted': seq<StepKey>, scope: Scope)
    requires PullStep(dir, units, p0, p1, pulled, scope) && WriteStep(dir, units, p1, p2, attempted, scope)
    requires PullStep(dir, units, p2, p3, pulled', scope) && WriteStep(dir, units, p3, p4, attempted', scope)
    ensures p0.log <= p1.log <= p2.log <= p3.log <= p4.log
    ensures Grew(dir, p0.log, p4.log, scope) && Intact(dir, p0, p4)
  {
    hide Grew, Attempted, NeedsPull, NeedsWrite, PullEnded, SameWrites, OnlyRowsOf, WritesSoFar, CountsOf, KeysOf,
         Kept, Intact, OnlyLosses, Fewer;
    GrewIsPrefix(dir, p0.log, p1.log, scope);
    GrewIsPrefix(dir, p1.log, p2.log, scope);
    GrewIsPrefix(dir, p2.log, p3.log, scope);
    GrewIsPrefix(dir, p3.log, p4.log, scope);
    GrewMore(dir, p0.log, p1.log, p2.log, scope);
    GrewMore(dir, p2.log, p3.log, p4.log, scope);
    GrewMore(dir, p0.log, p2.log, p4.log, scope);
    IntactMore(dir, p0, p1, p2);
    IntactMore(dir, p2, p3, p4);
    IntactMore(dir, p0, p2, p4);
  }

  lemma StepsCommand(dir: string, units: seq<SyncUnit>, p0: Point, p1: Point, p2: Point, p3: Point, p4: Point,
                     pulled: seq<SyncUnit>, pulled': seq<SyncUnit>, attempted: seq<StepKey>,
                     attempted': seq<StepKey>, scope: Scope, u: SyncUnit)
    requires PullStep(dir, units, p0, p1, pulled, scope) && WriteStep(dir, units, p1, p2, attempted, scope)
    requires PullStep(dir, units, p2, p3, pulled', scope) && WriteStep(dir, units, p3, p4, attempted', scope)
    requires u in units && NeedsPull(p0.steps[u.key], p0.files)
    ensures p4.commands[u.key] > p0.commands[u.key] || (u.key in p4.steps && p4.steps[u.key].pullStatus == FAILED)
  {
    hide Grew, Attempted, NeedsWrite, PullEnded, OnlyRowsOf, KeysOf, CountsOf, Kept, Intact, OnlyLosses, Fewer, Tried,
         Proceeds;
    if p1.steps[u.key].pullStatus == FAILED {
      FailedNeedsPull(p1.steps[u.key], p2.steps[u.key], p2.files);
    }
    CommandedOrFailed(p0.commands, p2.commands, p4.commands, pulled, pulled', p1.steps, p3.steps, u);
  }

  /** Every unit is treated, whatever happened to the files of others. */
  lemma StepsTreat(dir: string, units: seq<SyncUnit>, p0: Point, p1: Point, p2: Point, p3: Point, p4: Point,
                   pulled: seq<SyncUnit>, pulled': seq<SyncUnit>, attempted: seq<StepKey>,
                   attempted': seq<StepKey>, scope: Scope, u: SyncUnit)
    requires PullStep(dir, units, p0, p1, pulled, scope) && WriteStep(dir, units, p1, p2, attempted, scope)
    requires PullStep(dir, units, p2, p3, pulled', scope) && WriteStep(dir, units, p3, p4, attempted', scope)
    requires p0.log <= p1.log <= p2.log <= p3.log <= p4.log && WellKeyed(units) && u in units
    ensures Treated(dir, p0.log, p4.log, p4.steps, p4.files, u.key)
  {
    hide Grew, Attempted, AttemptedTwice, GivenTwoChances, SameWrites, OnlyRowsOf, WritesSoFar, CountsOf, KeysOf,
         NeedsPull, NeedsWrite, WellKeyed, Kept, Intact, OnlyLosses, Fewer, Proceeds, UnitFinished, PullDone;
    RowWritten(dir, p3, p4, attempted', u.key);
    if Kept(dir, p0.log, p4.log, u.key) {
      KeptParts(dir, p0.log, p1.log, p4.log, u.key);
      KeptParts(dir, p1.log, p2.log, p4.log, u.key);
      KeptParts(dir, p2.log, p3.log, p4.log, u.key);
      RowWritten(dir, p1, p2, attempted, u.key);
      FinishUnit(dir, p3, p4, attempted', u.key);
      ChancesOfUnit(dir, p0, p1, p2, p3, p4, units, pulled, pulled', attempted, attempted', u);
      if u in pulled && u in pulled' {
        TwiceLast(p0.log, p1.log, p2.log, p3.log, p4.log, u.key, PullAttempt);
      }
      if u.key in attempted && u.key in attempted' {
        TwiceLast(p1.log, p2.log, p3.log, p4.log, p4.log, u.key, WriteAttempt);
        AttemptsLast(p0.log, p1.log, p4.log, p4.log, u.key, WriteAttempt);
      }
      if u.key in attempted' {
        AttemptsLast(p0.log, p3.log, p4.log, p4.log, u.key, WriteAttempt);
      }
      Chances(p0.log, p4.log, p4.steps, u.key);
    }
  }

  lemma RowWritten(dir: string, a: Point, b: Point, attempted: seq<StepKey>, k: StepKey)
    requires WritesSoFar(dir, a, b, attempted) && k in a.steps
    ensures k in b.steps && b.steps[k].pullStatus == a.steps[k].pullStatus
  {
    hide Tried;
  }

  /** Nothing is due and nothing is lost, so nothing is done. */
  lemma StepsIdle(dir: string, units: seq<SyncUnit>, p0: Point, p1: Point, p2: Point, p3: Point, p4: Point,
                  pulled: seq<SyncUnit>, pulled': seq<SyncUnit>, attempted: seq<StepKey>,
                  attempted': seq<StepKey>, scope: Scope)
    requires PullStep(dir, units, p0, p1, pulled, scope) && WriteStep(dir, units, p1, p2, attempted, scope)
    requires PullStep(dir, units, p2, p3, pulled', scope) && WriteStep(dir, units, p3, p4, attempted', scope)
    requires p0.log <= p1.log <= p2.log <= p3.log <= p4.log && NoLosses(p0.log, p4.log)
    requires forall u :: u in units ==> !NeedsPull(p0.steps[u.key], p0.files) && WriteOk(p0.steps[u.key])
    ensures p4 == p0
  {
    hide Grew, Attempted, SameWrites, OnlyRowsOf, CountsOf, WritesSoFar, PullEnded, KeysOf, NeedsPull, Kept, Intact,
         OnlyLosses, Fewer, Proceeds, NoLosses;
    NoLossesParts(p0.log, p1.log, p4.log);
    NoLossesParts(p1.log, p2.log, p4.log);
    NoLossesParts(p2.log, p3.log, p4.log);
    PullStepIntact(dir, units, p0, p1, pulled, scope);
    NoneLost(dir, p0, p1);
    NothingDue(units, pulled, p0.steps, p0.files);
    OnlyNoLosses(dir, p0, p1, scope);
    NothingToWrite(units, p1.steps, attempted, p1.files);
    OnlyNoLosses(dir, p1, p2, scope);
    PullStepIntact(dir, units, p2, p3, pulled', scope);
    NoneLost(dir, p2, p3);
    NothingDue(units, pulled', p2.steps, p2.files);
    OnlyNoLosses(dir, p2, p3, scope);
    NothingToWrite(units, p3.steps, attempted', p3.files);
    OnlyNoLosses(dir, p3, p4, scope);
  }

  lemma PullStepIntact(dir: string, units: seq<SyncUnit>, a: Point, b: Point, pulled: seq<SyncUnit>, scope: Scope)
    requires PullStep(dir, units, a, b, pulled, scope)
    ensures Intact(dir, a, b)
  {
  }

  /** Pull, write, pull, write: the four rounds together. */
  lemma FourSteps(dir: string, units: seq<SyncUnit>, p0: Point, p1: Point, p2: Point, p3: Point, p4: Point,
                  pulled: seq<SyncUnit>, pulled': seq<SyncUnit>, attempted: seq<StepKey>,
                  attempted': seq<StepKey>, scope: Scope)
    requires PullStep(dir, units, p0, p1, pulled, scope) && WriteStep(dir, units, p1, p2, attempted, scope)
    requires PullStep(dir, units, p2, p3, pulled', scope) && WriteStep(dir, units, p3, p4, attempted', scope)
    requires WellKeyed(units)
    ensures RoundsDone(dir, units, p0, p4, scope) && p0.log <= p2.log <= p3.log <= p4.log
    ensures forall u :: u in units ==> PullEnded(dir, p2.log, p3.log, p3.steps, p3.files, u.key)
  {
    hide Grew, SameWrites, OnlyRowsOf, CountsOf, WritesSoFar, KeysOf, NeedsPull, NeedsWrite, WellKeyed, Treated,
         Attempted, WriteOk, PullEnded, Kept, Intact, OnlyLosses, Fewer, Proceeds, NoLosses;
    StepsLog(dir, units, p0, p1, p2, p3, p4, pulled, pulled', attempted, attempted', scope);
    StepsKeepOthers(dir, units, p0, p1, p2, p3, p4, pulled, pulled', attempted, attempted', scope);
    forall u | u in units
      ensures Treated(dir, p0.log, p4.log, p4.steps, p4.files, u.key)
    {
      StepsTreat(dir, units, p0, p1, p2, p3, p4, pulled, pulled', attempted, attempted', scope, u);
    }
    forall u | u in units && NeedsPull(p0.steps[u.key], p0.files)
      ensures p4.commands[u.key] > p0.commands[u.key] || (u.key in p4.steps && p4.steps[u.key].pullStatus == FAILED)
    {
      StepsCommand(dir, units, p0, p1, p2, p3, p4, pulled, pulled', attempted, attempted', scope, u);
    }
    if (forall u :: u in units ==> !NeedsPull(p0.steps[u.key], p0.files) && WriteOk(p0.steps[u.key]))
       && NoLosses(p0.log, p4.log) {
      StepsIdle(dir, units, p0, p1, p2, p3, p4, pulled, pulled', attempted, attempted', scope);
    }
  }

  lemma RoundsLog(dir: string, units: seq<SyncUnit>, a: Point, b: Point, scope: Scope)
    requires RoundsDone(dir, units, a, b, scope)
    ensures RunLog(dir, a.log, b.log, scope, false)
  {
  }
}
