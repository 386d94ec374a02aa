/**
 Runs of different trade days or task types: an effect of one is invisible to the other, and what a run does
 depends on its own part of the state only; row ids are what the database hands out and nothing else.
 */
module SyncRuns {
  import opened Common
  import opened Paths
  import opened Tables
  import opened Writer
  import opened SyncProtocol

  datatype Scope = Scope(tradeDay: string, taskType: OpsTaskType)

  function ScopeOf(k: StepKey): Scope {
    Scope(k.tradeDay, k.taskType)
  }

  /** The run that performs an effect; a file loss is performed by none. */
  function EffectScope(e: Effect): Option<Scope> {
    match e
    case LoseFile(_) => None
    case ResetSteps(filter) => Some(Scope(filter.tradeDay, filter.taskType))
    case _ => Some(ScopeOf(e.key))
  }

  /** A local file of a unit of one day and task type, under any broker. */
  ghost predicate PathIn(dir: string, path: string, a: Scope) {
    exists k :: UnitKey(k) && ScopeOf(k) == a && OwnPath(dir, k, path)
  }

  /** An effect of a run, or the loss of a file of its units, which may come at any moment. */
  ghost predicate BelongsTo(dir: string, e: Effect, a: Scope) {
    if e.LoseFile? then PathIn(dir, e.path, a) else EffectScope(e) == Some(a)
  }

  ghost predicate InScope(dir: string, e: Effect, a: Scope) {
    WellFormed(dir, e) && BelongsTo(dir, e, a)
  }

  ghost predicate SameRows(s: Store, u: Store, a: Scope) {
    forall k :: ScopeOf(k) == a ==> SameRow(s, u, k)
  }

  ghost predicate SameRow(s: Store, u: Store, k: StepKey) {
    && (k in s.steps <==> k in u.steps) && (k in s.steps ==> s.steps[k] == u.steps[k])
    && (k in s.lost <==> k in u.lost) && (k in s.committed <==> k in u.committed)
  }

  ghost predicate SameFile(s: Store, u: Store, path: string) {
    (path in s.files <==> path in u.files) && (path in s.files ==> s.files[path] == u.files[path])
  }

  ghost predicate SameFiles(s: Store, u: Store, a: Scope) {
    forall k, path :: ScopeOf(k) == a && UnitKey(k) && OwnPath(s.dir, k, path) ==> SameFile(s, u, path)
  }

  ghost predicate SameSlices(s: Store, u: Store, a: Scope) {
    forall k :: UnitKey(k) && ScopeOf(k) == a ==>
      SliceOf(s.tables, SliceKeyOf(k)) == SliceOf(u.tables, SliceKeyOf(k))
  }

  /** Two states agree on everything that runs of one task and day read or write. */
  ghost predicate SameView(s: Store, u: Store, a: Scope) {
    s.dir == u.dir && SameRows(s, u, a) && SameFiles(s, u, a) && SameSlices(s, u, a)
  }

  lemma FilesFrame(s: Store, e: Effect, own: Scope, a: Scope)
    requires InScope(s.dir, e, own) && own != a
    ensures SameFiles(s, Apply(s, e), a)
  {
    hide OwnPath, UnitKey, Commits, Committed, Reset, Updated, MatchesFilter;
    forall k, path | ScopeOf(k) == a && UnitKey(k) && OwnPath(s.dir, k, path)
      ensures SameFile(s, Apply(s, e), path)
    {
      if e.SaveFile? && path == e.path {
        OwnPathInjective(s.dir, k, e.key, path);
      } else if e.LoseFile? && path == e.path {
        OwnerOnly(s.dir, k, path, own);
      }
    }
  }

  /** A file of one day and task type is the file of no unit of another. */
  lemma OwnerOnly(dir: string, k: StepKey, path: string, a: Scope)
    requires UnitKey(k) && OwnPath(dir, k, path) && PathIn(dir, path, a)
    ensures ScopeOf(k) == a
  {
    hide OwnPath, UnitKey;
    var owner :| UnitKey(owner) && ScopeOf(owner) == a && OwnPath(dir, owner, path);
    OwnPathInjective(dir, k, owner, path);
  }

  /** The effect ends the wait for a success mark: a new file or a new status. */
  predicate EndsWait(e: Effect, k: StepKey) {
    match e
    case ResetSteps(filter) => MatchesFilter(k, filter)
    case SaveFile(key, _, _) => key == k
    case PullSucceeded(key, _) => key == k
    case PullFailed(key, _) => key == k
    case WriteSucceeded(key) => key == k
    case WriteFailed(key, _) => key == k
    case _ => false
  }

  lemma BookAfter(s: Store, e: Effect, k: StepKey)
    ensures var commits := e.CommitWrite? && e.key == k && Commits(s, k, e.keys);
            var loses := e.LoseFile? && k in s.steps && s.steps[k].localFilePath == Some(e.path);
            && (k in Apply(s, e).lost <==> loses || (k in s.lost && !commits))
            && (k in Apply(s, e).committed <==>
                  commits || (k in s.committed && !(EndsWait(e, k) && (e.ResetSteps? || e.SaveFile? || k in s.steps))))
  {
  }

  lemma RowsFrame(s: Store, e: Effect, own: Scope, a: Scope)
    requires PathsOwn(s) && InScope(s.dir, e, own) && own != a
    ensures SameRows(s, Apply(s, e), a)
  {
    hide Apply, PathsOwn, PathIn, WellFormed, Commits;
    forall k | ScopeOf(k) == a
      ensures SameRow(s, Apply(s, e), k)
    {
      RowAfter(s, e, k);
      BookAfter(s, e, k);
      if e.LoseFile? && k in s.steps && s.steps[k].localFilePath == Some(e.path) {
        PathOfRow(s, k);
        OwnerOnly(s.dir, k, e.path, own);
      }
    }
  }

  lemma PathOfRow(s: Store, k: StepKey)
    requires PathsOwn(s) && k in s.steps
    ensures UnitKey(k) && (s.steps[k].localFilePath.Some? ==> OwnPath(s.dir, k, s.steps[k].localFilePath.value))
  {
  }

  /** An effect of one run is invisible to runs of another task or day. */
  lemma EffectFrame(s: Store, e: Effect, own: Scope, a: Scope)
    requires PathsOwn(s) && InScope(s.dir, e, own) && own != a
    ensures SameView(s, Apply(s, e), a)
  {
    RowsFrame(s, e, own, a);
    FilesFrame(s, e, own, a);
    forall k | UnitKey(k) && ScopeOf(k) == a
      ensures SliceOf(s.tables, SliceKeyOf(k)) == SliceOf(Apply(s, e).tables, SliceKeyOf(k))
    {
      SlicesAfter(s, e, k);
    }
  }

  lemma CommitIsLocal(s: Store, u: Store, k: StepKey, keys: AccountKeys)
    requires PathsOwn(s) && UnitKey(k) && SameView(s, u, ScopeOf(k))
    ensures SliceOf(Committed(s, k, keys), SliceKeyOf(k)) == SliceOf(Committed(u, k, keys), SliceKeyOf(k))
  {
    if k in s.steps && s.steps[k].localFilePath.Some? {
      var path := s.steps[k].localFilePath.value;
      assert OwnPath(s.dir, k, path);
      assert SameFile(s, u, path);
      if path in s.files {
        WriteExact(s.tables, InputOf(k, keys), s.files[path], SliceKeyOf(k));
        WriteExact(u.tables, InputOf(k, keys), s.files[path], SliceKeyOf(k));
      }
    }
  }

  /** Whether a write goes through depends on the unit's own row, file and slice. */
  lemma CommitsAlike(s: Store, u: Store, k: StepKey, keys: AccountKeys)
    requires PathsOwn(s) && UnitKey(k) && SameView(s, u, ScopeOf(k))
    ensures Commits(s, k, keys) <==> Commits(u, k, keys)
  {
    assert SameRow(s, u, k);
    if k in s.steps && s.steps[k].localFilePath.Some? {
      var path := s.steps[k].localFilePath.value;
      assert OwnPath(s.dir, k, path);
      assert SameFile(s, u, path);
      if path in s.files {
        WriteExact(s.tables, InputOf(k, keys), s.files[path], SliceKeyOf(k));
        WriteExact(u.tables, InputOf(k, keys), s.files[path], SliceKeyOf(k));
      }
    }
  }

  lemma RowsAreLocal(s: Store, u: Store, e: Effect, a: Scope)
    requires PathsOwn(s) && InScope(s.dir, e, a) && SameView(s, u, a)
    ensures SameRows(Apply(s, e), Apply(u, e), a)
  {
    hide Apply, PathsOwn;
    if e.CommitWrite? {
      CommitsAlike(s, u, e.key, e.keys);
    }
    forall k | ScopeOf(k) == a
      ensures SameRow(Apply(s, e), Apply(u, e), k)
    {
      assert SameRow(s, u, k);
      RowIsLocal(s, u, e, k);
    }
  }

  /** What an effect does to one row depends on that row and on whether a write goes through. */
  lemma RowIsLocal(s: Store, u: Store, e: Effect, k: StepKey)
    requires SameRow(s, u, k)
    requires e.CommitWrite? ==> (Commits(s, e.key, e.keys) <==> Commits(u, e.key, e.keys))
    ensures SameRow(Apply(s, e), Apply(u, e), k)
  {
    hide Apply, MatchesFilter, Updated, Commits;
    RowAfter(s, e, k);
    RowAfter(u, e, k);
    BookAfter(s, e, k);
    BookAfter(u, e, k);
  }

  /** What an effect does to one file depends on that file. */
  lemma FileIsLocal(s: Store, u: Store, e: Effect, path: string)
    requires SameFile(s, u, path)
    ensures SameFile(Apply(s, e), Apply(u, e), path)
  {
  }

  lemma FilesAreLocal(s: Store, u: Store, e: Effect, a: Scope)
    requires s.dir == u.dir && SameFiles(s, u, a)
    ensures SameFiles(Apply(s, e), Apply(u, e), a)
  {
    hide Apply, OwnPath, SameFile, UnitKey;
    KeepsDir(s, e);
    forall k, path | ScopeOf(k) == a && UnitKey(k) && OwnPath(s.dir, k, path)
      ensures SameFile(Apply(s, e), Apply(u, e), path)
    {
      FileIsLocal(s, u, e, path);
    }
  }

  lemma SlicesAreLocal(s: Store, u: Store, e: Effect, k: StepKey)
    requires PathsOwn(s) && WellFormed(s.dir, e) && UnitKey(k) && SameView(s, u, ScopeOf(k))
    ensures SliceOf(Apply(s, e).tables, SliceKeyOf(k)) == SliceOf(Apply(u, e).tables, SliceKeyOf(k))
  {
    if e.CommitWrite? && e.key == k {
      CommitIsLocal(s, u, k, e.keys);
    } else {
      SlicesAfter(s, e, k);
      SlicesAfter(u, e, k);
    }
  }

  /** What an effect does inside its own run depends only on that run's part of the state. */
  lemma EffectIsLocal(s: Store, u: Store, e: Effect, a: Scope)
    requires PathsOwn(s) && InScope(s.dir, e, a) && SameView(s, u, a)
    ensures SameView(Apply(s, e), Apply(u, e), a)
  {
    RowsAreLocal(s, u, e, a);
    FilesAreLocal(s, u, e, a);
    forall k | UnitKey(k) && ScopeOf(k) == a
      ensures SliceOf(Apply(s, e).tables, SliceKeyOf(k)) == SliceOf(Apply(u, e).tables, SliceKeyOf(k))
    {
      SlicesAreLocal(s, u, e, k);
    }
  }

  ghost predicate AllInScope(dir: string, es: seq<Effect>, a: Scope) {
    forall i :: 0 <= i < |es| ==> InScope(dir, es[i], a)
  }

  lemma {:induction false} RunFrame(s: Store, es: seq<Effect>, a: Scope, b: Scope)
    requires PathsOwn(s) && AllInScope(s.dir, es, a)
    ensures PathsOwn(After(s, es)) && After(s, es).dir == s.dir
    ensures a != b ==> SameView(s, After(s, es), b)
    decreases |es|
  {
    hide Apply, WellFormed, OwnPath, UnitKey, PathIn;
    if es != [] {
      var before, e := es[..|es| - 1], es[|es| - 1];
      RunFrame(s, before, a, b);
      KeepsPathsOwn(After(s, before), e);
      KeepsDir(After(s, before), e);
      if a != b {
        EffectFrame(After(s, before), e, a, b);
        ViewTransitive(s, After(s, before), After(s, es), b);
      }
    }
  }

  lemma RowsTransitive(s: Store, u: Store, v: Store, a: Scope)
    requires SameRows(s, u, a) && SameRows(u, v, a)
    ensures SameRows(s, v, a) && SameRows(v, s, a)
  {
    forall k | ScopeOf(k) == a
      ensures SameRow(s, v, k) && SameRow(v, s, k)
    {
      assert SameRow(s, u, k) && SameRow(u, v, k);
    }
  }

  lemma FilesTransitive(s: Store, u: Store, v: Store, a: Scope)
    requires s.dir == u.dir == v.dir && SameFiles(s, u, a) && SameFiles(u, v, a)
    ensures SameFiles(s, v, a) && SameFiles(v, s, a)
  {
    hide OwnPath, UnitKey;
    forall k, path | ScopeOf(k) == a && UnitKey(k) && OwnPath(s.dir, k, path)
      ensures SameFile(s, v, path) && SameFile(v, s, path)
    {
      assert SameFile(s, u, path) && SameFile(u, v, path);
    }
  }

  lemma ViewTransitive(s: Store, u: Store, v: Store, a: Scope)
    requires SameView(s, u, a) && SameView(u, v, a)
    ensures SameView(s, v, a) && SameView(v, s, a)
  {
    hide SameRows, SameFiles, SliceOf, SliceKeyOf;
    RowsTransitive(s, u, v, a);
    FilesTransitive(s, u, v, a);
  }

  lemma {:induction false} RunIsLocal(s: Store, u: Store, es: seq<Effect>, a: Scope)
    requires PathsOwn(s) && AllInScope(s.dir, es, a) && SameView(s, u, a)
    ensures SameView(After(s, es), After(u, es), a)
    decreases |es|
  {
    if es != [] {
      var before := es[..|es| - 1];
      RunIsLocal(s, u, before, a);
      RunFrame(s, before, a, a);
      EffectIsLocal(After(s, before), After(u, before), es[|es| - 1], a);
    }
  }

  function NewWarning(e: Effect): multiset<Warning> {
    if e.Warn? then multiset{e.warning} else multiset{}
  }

  function NewCommand(e: Effect): multiset<StepKey> {
    if e.IssueCommand? then multiset{e.key} else multiset{}
  }

  lemma CreatesElse(s: Store, e: Effect)
    ensures !e.Warn? ==> Apply(s, e).warnings == s.warnings
    ensures !e.IssueCommand? ==> Apply(s, e).commands == s.commands
  {
    hide Commits, Committed, Reset, Updated, MatchesFilter;
  }

  lemma CreatedRow(s: Store, e: Effect)
    ensures Apply(s, e).warnings == s.warnings + NewWarning(e)
    ensures Apply(s, e).commands == s.commands + NewCommand(e)
  {
    CreatesElse(s, e);
    if !e.Warn? && !e.IssueCommand? {
      hide Apply;
    } else {
      hide Commits, Committed, Reset, Updated, MatchesFilter;
    }
  }

  function WarningsOf(es: seq<Effect>): multiset<Warning> {
    if es == [] then multiset{} else WarningsOf(es[..|es| - 1]) + NewWarning(es[|es| - 1])
  }

  function CommandsOf(es: seq<Effect>): multiset<StepKey> {
    if es == [] then multiset{} else CommandsOf(es[..|es| - 1]) + NewCommand(es[|es| - 1])
  }

  lemma {:induction false} CreatedRows(s: Store, es: seq<Effect>)
    ensures After(s, es).warnings == s.warnings + WarningsOf(es)
    ensures After(s, es).commands == s.commands + CommandsOf(es)
    decreases |es|
  {
    if es != [] {
      CreatedRows(s, es[..|es| - 1]);
      CreatedRow(After(s, es[..|es| - 1]), es[|es| - 1]);
    }
  }

  lemma SameRowsEverywhere(s: Store, u: Store)
    requires forall c :: SameView(s, u, c)
    ensures s.steps == u.steps && s.lost == u.lost && s.committed == u.committed
  {
    forall k: StepKey
      ensures k in s.committed <==> k in u.committed
      ensures (k in s.steps <==> k in u.steps) && (k in s.steps ==> s.steps[k] == u.steps[k])
      ensures k in s.lost <==> k in u.lost
    {
      assert SameView(s, u, ScopeOf(k)) && SameRow(s, u, k);
    }
  }

  /** The same rows, warnings and commands, the same file at every path of a unit and the same rows in every slice. */
  ghost predicate SameState(s: Store, u: Store) {
    && s.steps == u.steps && s.lost == u.lost && s.committed == u.committed
    && s.warnings == u.warnings && s.commands == u.commands
    && forall c :: SameView(s, u, c)
  }

  // ---- row ids -------------------------------------------------------------------

  /** The ids of rows erased. */
  function Plain(s: Store): Store {
    s.(steps := map k | k in s.steps :: s.steps[k].(id := 0))
  }

  function PlainEffect(e: Effect): Effect {
    if e.CreateStep? then e.(id := 0) else e
  }

  function Plains(es: seq<Effect>): seq<Effect> {
    seq(|es|, i requires 0 <= i < |es| => PlainEffect(es[i]))
  }

  /** The same effects, but for the ids that the database hands out. */
  ghost predicate SameRun(es: seq<Effect>, fs: seq<Effect>) {
    Plains(es) == Plains(fs)
  }

  lemma PlainRow(s: Store, e: Effect, k: StepKey)
    ensures k in Plain(Apply(s, e)).steps <==> k in Apply(Plain(s), PlainEffect(e)).steps
    ensures k in Plain(Apply(s, e)).steps ==> Plain(Apply(s, e)).steps[k] == Apply(Plain(s), PlainEffect(e)).steps[k]
  {
    hide Apply, MatchesFilter;
    RowAfter(s, e, k);
    RowAfter(Plain(s), PlainEffect(e), k);
  }

  lemma PlainLoss(s: Store, path: string)
    ensures Plain(Apply(s, LoseFile(path))).(steps := map[]) == Apply(Plain(s), LoseFile(path)).(steps := map[])
  {
    assert forall k :: k in s.steps <==> k in Plain(s).steps;
    assert forall k :: k in s.steps ==> Plain(s).steps[k].localFilePath == s.steps[k].localFilePath;
  }

  lemma PlainCommit(s: Store, k: StepKey, keys: AccountKeys)
    ensures var e := CommitWrite(k, keys);
            Plain(Apply(s, e)).(steps := map[]) == Apply(Plain(s), e).(steps := map[])
  {
    hide WriteTables, InputOf;
    assert Commits(s, k, keys) <==> Commits(Plain(s), k, keys);
  }

  lemma PlainRest(s: Store, e: Effect)
    ensures Plain(Apply(s, e)).(steps := map[]) == Apply(Plain(s), PlainEffect(e)).(steps := map[])
  {
    hide MatchesFilter, Reset, Updated, Commits, Committed;
    if e.CommitWrite? {
      PlainCommit(s, e.key, e.keys);
    } else if e.LoseFile? {
      PlainLoss(s, e.path);
    }
  }

  /** Nothing that an effect does depends on row ids. */
  lemma ApplyPlain(s: Store, e: Effect)
    ensures Plain(Apply(s, e)) == Apply(Plain(s), PlainEffect(e))
  {
    hide Apply, Plain;
    var x, y := Plain(Apply(s, e)), Apply(Plain(s), PlainEffect(e));
    forall k: StepKey
      ensures (k in x.steps <==> k in y.steps) && (k in x.steps ==> x.steps[k] == y.steps[k])
    {
      PlainRow(s, e, k);
    }
    PlainRest(s, e);
  }

  lemma {:induction false} AfterPlain(s: Store, es: seq<Effect>)
    ensures Plain(After(s, es)) == After(Plain(s), Plains(es))
    decreases |es|
  {
    hide Apply, Plain;
    if es != [] {
      var before, e := es[..|es| - 1], es[|es| - 1];
      AfterPlain(s, before);
      ApplyPlain(After(s, before), e);
      assert Plains(es)[..|es| - 1] == Plains(before) && Plains(es)[|es| - 1] == PlainEffect(e);
    }
  }

  /** When the code performs an effect, the freshness of a new row's id aside. */
  ghost predicate Due(s: Store, e: Effect) {
    if e.CreateStep? then UnitKey(e.key) && e.key !in s.steps else Enabled(s, e)
  }

  ghost predicate AllDue(s: Store, es: seq<Effect>) {
    forall n {:trigger es[n]} :: 0 <= n < |es| ==> Due(After(s, es[..n]), es[n])
  }

  lemma DuePlain(s: Store, e: Effect)
    ensures Due(s, e) <==> Due(Plain(s), PlainEffect(e))
  {
  }

  lemma AllDuePlain(s: Store, es: seq<Effect>)
    ensures AllDue(s, es) <==> AllDue(Plain(s), Plains(es))
  {
    hide Due, Plain;
    forall n | 0 <= n < |es|
      ensures Due(After(s, es[..n]), es[n]) <==> Due(After(Plain(s), Plains(es)[..n]), Plains(es)[n])
    {
      assert Plains(es)[..n] == Plains(es[..n]);
      AfterPlain(s, es[..n]);
      DuePlain(After(s, es[..n]), es[n]);
    }
    assert |Plains(es)| == |es|;
  }

  /** Every id handed out is new: not a row's, and not handed out before. */
  ghost predicate FreshIds(s: Store, es: seq<Effect>) {
    && (forall n, k :: 0 <= n < |es| && es[n].CreateStep? && k in s.steps ==> s.steps[k].id != es[n].id)
    && forall n, m :: 0 <= n < m < |es| && es[n].CreateStep? && es[m].CreateStep? ==> es[n].id != es[m].id
  }

  lemma DueKeepsIds(s: Store, e: Effect)
    requires Due(s, e)
    ensures forall k :: k in s.steps ==> k in Apply(s, e).steps && Apply(s, e).steps[k].id == s.steps[k].id
    ensures forall k :: k in Apply(s, e).steps && k !in s.steps ==>
              e.CreateStep? && e.key == k && Apply(s, e).steps[k].id == e.id
    ensures e.CreateStep? ==> e.key in Apply(s, e).steps && Apply(s, e).steps[e.key].id == e.id
  {
    hide Apply, MatchesFilter;
    forall k: StepKey
      ensures k in s.steps ==> k in Apply(s, e).steps && Apply(s, e).steps[k].id == s.steps[k].id
      ensures k in Apply(s, e).steps && k !in s.steps ==>
                e.CreateStep? && e.key == k && Apply(s, e).steps[k].id == e.id
      ensures e.CreateStep? && e.key == k ==> k in Apply(s, e).steps && Apply(s, e).steps[k].id == e.id
    {
      RowAfter(s, e, k);
    }
  }

  /** An id of a row that came with a run was handed out by the run. */
  ghost predicate CreatedBy(es: seq<Effect>, k: StepKey, id: nat) {
    exists m :: 0 <= m < |es| && es[m] == CreateStep(k, id)
  }

  lemma {:induction false} OldRows(s: Store, es: seq<Effect>)
    requires AllDue(s, es)
    ensures forall k :: k in s.steps ==> k in After(s, es).steps && After(s, es).steps[k].id == s.steps[k].id
    decreases |es|
  {
    hide Apply, Due;
    if es != [] {
      DuePrefix(s, es, |es| - 1);
      OldRows(s, es[..|es| - 1]);
      DueKeepsIds(After(s, es[..|es| - 1]), es[|es| - 1]);
    }
  }

  lemma {:induction false} NewRows(s: Store, es: seq<Effect>, k: StepKey)
    requires AllDue(s, es) && k in After(s, es).steps && k !in s.steps
    ensures CreatedBy(es, k, After(s, es).steps[k].id)
    decreases |es|
  {
    hide Apply, Due;
    var before, e := es[..|es| - 1], es[|es| - 1];
    DuePrefix(s, es, |es| - 1);
    DueKeepsIds(After(s, before), e);
    if k in After(s, before).steps {
      NewRows(s, before, k);
      var m :| 0 <= m < |before| && before[m] == CreateStep(k, After(s, before).steps[k].id);
      assert es[m] == before[m];
    }
  }

  lemma {:induction false} CreatedRowStays(s: Store, es: seq<Effect>, m: nat)
    requires AllDue(s, es) && m < |es| && es[m].CreateStep?
    ensures es[m].key in After(s, es).steps && After(s, es).steps[es[m].key].id == es[m].id
    decreases |es|
  {
    hide Apply, Due;
    var before, e := es[..|es| - 1], es[|es| - 1];
    DuePrefix(s, es, |es| - 1);
    DueKeepsIds(After(s, before), e);
    if m < |before| {
      CreatedRowStays(s, before, m);
    }
  }

  /** Where the rows come from: the first state, with their ids, or the run. */
  lemma RowsOfRun(s: Store, es: seq<Effect>)
    requires AllDue(s, es)
    ensures forall k :: k in s.steps ==> k in After(s, es).steps && After(s, es).steps[k].id == s.steps[k].id
    ensures forall k :: k in After(s, es).steps && k !in s.steps ==> CreatedBy(es, k, After(s, es).steps[k].id)
    ensures forall m :: 0 <= m < |es| && es[m].CreateStep? ==>
              es[m].key in After(s, es).steps && After(s, es).steps[es[m].key].id == es[m].id
  {
    hide AllDue, After, CreatedBy;
    OldRows(s, es);
    forall k | k in After(s, es).steps && k !in s.steps
      ensures CreatedBy(es, k, After(s, es).steps[k].id)
    {
      NewRows(s, es, k);
    }
    forall m | 0 <= m < |es| && es[m].CreateStep?
      ensures es[m].key in After(s, es).steps && After(s, es).steps[es[m].key].id == es[m].id
    {
      CreatedRowStays(s, es, m);
    }
  }

  lemma DuePrefix(s: Store, es: seq<Effect>, n: nat)
    requires AllDue(s, es) && n <= |es|
    ensures AllDue(s, es[..n])
  {
    hide Due;
    forall m | 0 <= m < n
      ensures Due(After(s, es[..n][..m]), es[..n][m])
    {
      assert es[..n][..m] == es[..m] && es[..n][m] == es[m];
    }
  }

  lemma DueAndFresh(s: Store, e: Effect)
    ensures Enabled(s, e) <==>
            Due(s, e) && (e.CreateStep? ==> forall k :: k in s.steps ==> s.steps[k].id != e.id)
  {
  }

  lemma PossibleMeansDue(s: Store, es: seq<Effect>)
    requires Possible(s, es)
    ensures AllDue(s, es) && FreshIds(s, es)
  {
    hide Enabled, Due, Apply;
    forall n | 0 <= n < |es|
      ensures Due(After(s, es[..n]), es[n])
    {
      DueAndFresh(After(s, es[..n]), es[n]);
    }
    forall n | 0 <= n < |es| && es[n].CreateStep?
      ensures forall k :: k in s.steps ==> s.steps[k].id != es[n].id
      ensures forall m :: 0 <= m < n && es[m].CreateStep? ==> es[m].id != es[n].id
    {
      DuePrefix(s, es, n);
      RowsOfRun(s, es[..n]);
      DueAndFresh(After(s, es[..n]), es[n]);
      assert forall m :: 0 <= m < n ==> es[..n][m] == es[m];
    }
  }

  /** A history is possible exactly when each effect is due and every id handed out is new. */
  lemma PossibleExactly(s: Store, es: seq<Effect>)
    ensures Possible(s, es) <==> AllDue(s, es) && FreshIds(s, es)
  {
    hide Enabled, Due, Apply;
    if Possible(s, es) {
      PossibleMeansDue(s, es);
    }
    if AllDue(s, es) && FreshIds(s, es) {
      forall n | 0 <= n < |es|
        ensures Enabled(After(s, es[..n]), es[n])
      {
        DuePrefix(s, es, n);
        RowsOfRun(s, es[..n]);
        assert forall m :: 0 <= m < n ==> es[..n][m] == es[m];
        DueAndFresh(After(s, es[..n]), es[n]);
      }
    }
  }

  // ---- what is due ---------------------------------------------------------------

  /** Whether an effect is due depends only on its own day and task type. */
  lemma DueIsLocal(s: Store, u: Store, e: Effect, a: Scope)
    requires PathsOwn(s) && InScope(s.dir, e, a) && SameView(s, u, a)
    ensures Due(s, e) ==> Due(u, e)
  {
    hide PathIn, OwnPath, UnitKey, SameSlices;
    if Due(s, e) && !e.ResetSteps? && !e.LoseFile? {
      assert SameRow(s, u, e.key);
      if e.key in s.steps && s.steps[e.key].localFilePath.Some? {
        assert OwnPath(s.dir, e.key, s.steps[e.key].localFilePath.value);
        assert SameFile(s, u, s.steps[e.key].localFilePath.value);
      }
    }
  }

  lemma {:induction false} DirKept(s: Store, es: seq<Effect>)
    ensures After(s, es).dir == s.dir
    decreases |es|
  {
    hide Apply;
    if es != [] {
      DirKept(s, es[..|es| - 1]);
      KeepsDir(After(s, es[..|es| - 1]), es[|es| - 1]);
    }
  }

  /** The later part of a history is a history of the state it starts from. */
  lemma LaterPart(s: Store, es: seq<Effect>, n: nat)
    requires Possible(s, es) && n <= |es|
    ensures Possible(After(s, es[..n]), es[n..]) && After(After(s, es[..n]), es[n..]) == After(s, es)
    ensures forall i :: n <= i < |es| ==> WellFormed(s.dir, es[i])
  {
    hide Enabled, Apply, WellFormed;
    assert es[..n] + es[n..] == es;
    AfterAppend(s, es[..n], es[n..]);
    forall i | n <= i < |es|
      ensures Enabled(After(After(s, es[..n]), es[n..][..i - n]), es[n..][i - n]) && WellFormed(s.dir, es[i])
    {
      assert es[..n] + es[n..][..i - n] == es[..i] && es[n..][i - n] == es[i];
      AfterAppend(s, es[..n], es[n..][..i - n]);
      DirKept(s, es[..i]);
      EnabledIsWellFormed(After(s, es[..i]), es[i]);
    }
    forall m | 0 <= m < |es[n..]|
      ensures Enabled(After(After(s, es[..n]), es[n..][..m]), es[n..][m])
    {
      assert n <= m + n < |es| && m + n - n == m;
    }
  }

  lemma EnabledIsWellFormed(s: Store, e: Effect)
    requires Enabled(s, e)
    ensures WellFormed(s.dir, e)
  {
  }

  // ---- the same but for new ids --------------------------------------------------

  /** No id is handed out by both. */
  ghost predicate IdsApart(es: seq<Effect>, fs: seq<Effect>) {
    forall n, m :: 0 <= n < |es| && 0 <= m < |fs| && es[n].CreateStep? && fs[m].CreateStep? ==> es[n].id != fs[m].id
  }

  /**
   The same state up to the ids of rows that were not there at first: those may differ, but rows have equal
   ids in the one exactly when they have in the other.
   */
  ghost predicate SameButNewIds(s: Store, x: Store, y: Store) {
    && SameState(Plain(x), Plain(y))
    && (forall k :: k in s.steps ==> k in x.steps && k in y.steps && x.steps[k] == y.steps[k])
    && forall k, l :: k in x.steps && l in x.steps ==>
         k in y.steps && l in y.steps && (x.steps[k].id == x.steps[l].id <==> y.steps[k].id == y.steps[l].id)
  }

  lemma {:induction false} RunKeepsIdsDistinct(s: Store, es: seq<Effect>)
    requires IdsDistinct(s) && Possible(s, es)
    ensures IdsDistinct(After(s, es))
    decreases |es|
  {
    hide Apply, Enabled, IdsDistinct;
    if es != [] {
      PossiblePrefix(s, es, |es| - 1);
      RunKeepsIdsDistinct(s, es[..|es| - 1]);
      KeepsIdsDistinct(After(s, es[..|es| - 1]), es[|es| - 1]);
    }
  }

  lemma NewIdsOnly(s: Store, es: seq<Effect>, fs: seq<Effect>)
    requires IdsDistinct(s) && Possible(s, es) && Possible(s, fs)
    requires SameState(Plain(After(s, es)), Plain(After(s, fs)))
    ensures SameButNewIds(s, After(s, es), After(s, fs))
  {
    hide Possible, After, AllDue, IdsDistinct, FreshIds, SameState;
    RunKeepsIdsDistinct(s, es);
    RunKeepsIdsDistinct(s, fs);
    PossibleMeansDue(s, es);
    PossibleMeansDue(s, fs);
    OldRows(s, es);
    OldRows(s, fs);
    SamePlainRows(s, After(s, es), After(s, fs));
  }

  lemma SamePlainRows(s: Store, x: Store, y: Store)
    requires SameState(Plain(x), Plain(y)) && IdsDistinct(x) && IdsDistinct(y)
    requires forall k :: k in s.steps ==> k in x.steps && x.steps[k].id == s.steps[k].id
    requires forall k :: k in s.steps ==> k in y.steps && y.steps[k].id == s.steps[k].id
    ensures SameButNewIds(s, x, y)
  {
    hide SameView;
    assert forall k :: k in Plain(x).steps <==> k in x.steps;
    assert forall k :: k in Plain(y).steps <==> k in y.steps;
    forall k | k in x.steps
      ensures k in y.steps && x.steps[k].(id := 0) == y.steps[k].(id := 0)
    {
      assert Plain(x).steps[k] == Plain(y).steps[k];
    }
  }

  /** Other ids leave a run due. */
  lemma RenamedRun(s: Store, es: seq<Effect>, es': seq<Effect>, a: Scope)
    requires SameRun(es, es') && AllDue(s, es) && AllInScope(s.dir, es, a)
    ensures AllDue(s, es') && AllInScope(s.dir, es', a)
  {
    hide AllDue, Plain;
    AllDuePlain(s, es);
    AllDuePlain(s, es');
    assert |Plains(es)| == |es| && |Plains(es')| == |es'|;
    forall i | 0 <= i < |es'|
      ensures InScope(s.dir, es'[i], a)
    {
      assert Plains(es)[i] == Plains(es')[i];
      assert InScope(s.dir, es[i], a);
    }
  }

  lemma PlainPaths(s: Store)
    requires PathsOwn(s)
    ensures PathsOwn(Plain(s)) && Plain(s).dir == s.dir
  {
    hide OwnPath, UnitKey;
  }

  lemma PlainInScope(dir: string, es: seq<Effect>, a: Scope)
    requires AllInScope(dir, es, a)
    ensures AllInScope(dir, Plains(es), a)
  {
    forall i | 0 <= i < |es|
      ensures InScope(dir, Plains(es)[i], a)
    {
      assert InScope(dir, es[i], a);
    }
  }
}
