/**
 Two points of one run: the files lost between them, the attempts made, and what stays when files may be lost
 between any two effects.
 */
module SyncLosses {
  import opened Common
  import opened Paths
  import opened Writer
  import opened SyncProtocol
  import opened SyncRuns
  import opened SyncMixes
  import opened SyncUnits

  /** A pull is settled: it failed, or it succeeded and its file is there. */
  predicate PullDone(step: SyncStep, files: map<string, Content>) {
    step.pullStatus == FAILED || !NeedsPull(step, files)
  }

  /** What the rounds are about, at one moment. */
  datatype Point = Point(
    steps: map<StepKey, SyncStep>, files: map<string, Content>, commands: multiset<StepKey>, lost: set<StepKey>,
    tables: TradeTables, log: seq<Effect>)

  // ---- files lost meanwhile -----------------------------------------------------

  ghost predicate LostBetween(before: seq<Effect>, now: seq<Effect>, path: string) {
    exists i :: |before| <= i < |now| && now[i] == LoseFile(path)
  }

  /** Between two points of the log no file of the unit was lost. */
  ghost predicate Kept(dir: string, before: seq<Effect>, now: seq<Effect>, k: StepKey) {
    forall i :: |before| <= i < |now| && now[i].LoseFile? ==> !OwnPath(dir, k, now[i].path)
  }

  ghost predicate NoLosses(before: seq<Effect>, now: seq<Effect>) {
    forall i :: |before| <= i < |now| ==> !now[i].LoseFile?
  }

  /** A file goes only by a loss in the log, and a step gets lost only by the loss of a file of its own. */
  ghost predicate Intact(dir: string, a: Point, b: Point) {
    && (forall path :: path in a.files && path !in b.files ==> LostBetween(a.log, b.log, path))
    && (forall k :: k in b.lost && k !in a.lost ==> !Kept(dir, a.log, b.log, k))
  }

  /** No file came or changed. */
  ghost predicate Fewer(a: map<string, Content>, b: map<string, Content>) {
    forall path :: path in b ==> path in a && b[path] == a[path]
  }

  /** Rows name local files of their own units. */
  ghost predicate RowsOwn(dir: string, steps: map<StepKey, SyncStep>) {
    forall k :: k in steps ==>
      UnitKey(k) && (steps[k].localFilePath.Some? ==> OwnPath(dir, k, steps[k].localFilePath.value))
  }

  // ---- attempts and the log -----------------------------------------------------

  datatype Attempt = PullAttempt | WriteAttempt

  /** The effect records how an attempt at a unit ended. */
  predicate Ends(e: Effect, k: StepKey, attempt: Attempt) {
    match attempt
    case PullAttempt => (e.PullSucceeded? || e.PullFailed?) && e.key == k
    case WriteAttempt => (e.WriteSucceeded? || e.WriteFailed?) && e.key == k
  }

  /** Between two points of the log an attempt at the unit ended. */
  ghost predicate Attempted(before: seq<Effect>, now: seq<Effect>, k: StepKey, attempt: Attempt) {
    exists i :: |before| <= i < |now| && Ends(now[i], k, attempt)
  }

  ghost predicate AttemptedTwice(before: seq<Effect>, now: seq<Effect>, k: StepKey, attempt: Attempt) {
    exists i, j :: |before| <= i < j < |now| && Ends(now[i], k, attempt) && Ends(now[j], k, attempt)
  }

  /** The log was extended by effects of one task type and day and losses of its files, none of them a forced reset. */
  ghost predicate Grew(dir: string, before: seq<Effect>, now: seq<Effect>, scope: Scope) {
    before <= now && forall i :: |before| <= i < |now| ==> BelongsTo(dir, now[i], scope) && !now[i].ResetSteps?
  }

  /**
   The log of one run: effects of one task type and day and losses of its files, with a reset only as the first,
   and only if forced.
   */
  ghost predicate RunLog(dir: string, before: seq<Effect>, now: seq<Effect>, scope: Scope, force: bool) {
    && before <= now && (forall i :: |before| <= i < |now| ==> BelongsTo(dir, now[i], scope))
    && forall i :: |before| <= i < |now| && now[i].ResetSteps? ==> force && i == |before|
  }

  /** No unit is committed again after its write succeeded. */
  ghost predicate WrittenOnce(before: seq<Effect>, now: seq<Effect>) {
    forall i, j :: |before| <= i < j < |now| && now[i].WriteSucceeded? && now[j].CommitWrite? ==>
      now[i].key != now[j].key
  }

  // ---- stretches of a run -------------------------------------------------------

  /** Effects of one run before its writes: files go only by losses, and lost steps stay lost. */
  ghost predicate Proceeds(dir: string, a: Point, b: Point, scope: Scope) {
    Grew(dir, a.log, b.log, scope) && Intact(dir, a, b) && a.lost <= b.lost
  }

  /** The same without a new file. */
  ghost predicate Meanwhile(dir: string, a: Point, b: Point, scope: Scope) {
    Proceeds(dir, a, b, scope) && Fewer(a.files, b.files)
  }

  /** Nothing happened but losses. */
  ghost predicate OnlyLosses(dir: string, a: Point, b: Point, scope: Scope) {
    && Meanwhile(dir, a, b, scope) && b.steps == a.steps && b.commands == a.commands && b.tables == a.tables
    && forall i :: |a.log| <= i < |b.log| ==> b.log[i].LoseFile?
  }

  // ---- stretches compose --------------------------------------------------------

  lemma KeptParts(dir: string, a: seq<Effect>, b: seq<Effect>, c: seq<Effect>, k: StepKey)
    requires a <= b <= c && Kept(dir, a, c, k)
    ensures Kept(dir, a, b, k) && Kept(dir, b, c, k)
  {
    hide OwnPath;
    forall i | |a| <= i < |b| && b[i].LoseFile?
      ensures !OwnPath(dir, k, b[i].path)
    {
      assert c[i] == b[i];
    }
  }

  lemma LostParts(a: seq<Effect>, b: seq<Effect>, c: seq<Effect>, path: string)
    requires a <= b <= c && (LostBetween(a, b, path) || LostBetween(b, c, path))
    ensures LostBetween(a, c, path)
  {
    if LostBetween(a, b, path) {
      var i :| |a| <= i < |b| && b[i] == LoseFile(path);
      assert c[i] == LoseFile(path);
    }
  }

  lemma NoLossesParts(a: seq<Effect>, b: seq<Effect>, c: seq<Effect>)
    requires a <= b <= c
    ensures NoLosses(a, c) <==> NoLosses(a, b) && NoLosses(b, c)
  {
    assert forall i :: 0 <= i < |b| ==> c[i] == b[i];
  }

  lemma IntactMore(dir: string, a: Point, b: Point, c: Point)
    requires a.log <= b.log <= c.log && Intact(dir, a, b) && Intact(dir, b, c)
    ensures Intact(dir, a, c)
  {
    hide Kept, LostBetween;
    forall path | path in a.files && path !in c.files
      ensures LostBetween(a.log, c.log, path)
    {
      LostParts(a.log, b.log, c.log, path);
    }
    forall k | k in c.lost && k !in a.lost
      ensures !Kept(dir, a.log, c.log, k)
    {
      if Kept(dir, a.log, c.log, k) {
        KeptParts(dir, a.log, b.log, c.log, k);
        assert false;
      }
    }
  }

  lemma GrewMore(dir: string, a: seq<Effect>, b: seq<Effect>, c: seq<Effect>, scope: Scope)
    requires Grew(dir, a, b, scope) && Grew(dir, b, c, scope)
    ensures Grew(dir, a, c, scope)
    ensures forall k, attempt :: Attempted(a, b, k, attempt) || Attempted(b, c, k, attempt) ==>
              Attempted(a, c, k, attempt)
    ensures forall k, attempt :: Attempted(a, b, k, attempt) && Attempted(b, c, k, attempt) ==>
              AttemptedTwice(a, c, k, attempt)
  {
    hide BelongsTo;
    forall k, attempt | Attempted(a, b, k, attempt)
      ensures Attempted(a, c, k, attempt)
      ensures Attempted(b, c, k, attempt) ==> AttemptedTwice(a, c, k, attempt)
    {
      var i :| |a| <= i < |b| && Ends(b[i], k, attempt);
      assert Ends(c[i], k, attempt);
    }
  }

  lemma GrewStep(dir: string, a: seq<Effect>, e: Effect, scope: Scope)
    requires EffectScope(e) == Some(scope) && !e.ResetSteps?
    ensures Grew(dir, a, a + [e], scope)
    ensures forall k, attempt :: Ends(e, k, attempt) ==> Attempted(a, a + [e], k, attempt)
  {
    hide PathIn;
    assert (a + [e])[|a|] == e;
  }

  lemma GrewIsPrefix(dir: string, a: seq<Effect>, b: seq<Effect>, scope: Scope)
    requires Grew(dir, a, b, scope)
    ensures a <= b
  {
  }

  lemma ProceedsMore(dir: string, a: Point, b: Point, c: Point, scope: Scope)
    requires Proceeds(dir, a, b, scope) && Proceeds(dir, b, c, scope)
    ensures Proceeds(dir, a, c, scope)
    ensures Fewer(a.files, b.files) && Fewer(b.files, c.files) ==> Meanwhile(dir, a, c, scope)
  {
    hide Kept, Intact, Grew;
    GrewIsPrefix(dir, a.log, b.log, scope);
    GrewIsPrefix(dir, b.log, c.log, scope);
    GrewMore(dir, a.log, b.log, c.log, scope);
    IntactMore(dir, a, b, c);
  }

  lemma OnlyLossesMore(dir: string, a: Point, b: Point, c: Point, scope: Scope)
    requires OnlyLosses(dir, a, b, scope) && OnlyLosses(dir, b, c, scope)
    ensures OnlyLosses(dir, a, c, scope)
  {
    hide Kept, Intact, Grew;
    GrewIsPrefix(dir, a.log, b.log, scope);
    GrewIsPrefix(dir, b.log, c.log, scope);
    ProceedsMore(dir, a, b, c, scope);
    assert forall i :: |a.log| <= i < |b.log| ==> c.log[i] == b.log[i];
  }

  /** A point reached by nothing. */
  lemma NothingLost(dir: string, a: Point, scope: Scope)
    ensures OnlyLosses(dir, a, a, scope)
  {
  }

  /** The loss of one file. */
  lemma OneLoss(dir: string, a: Point, b: Point, owner: StepKey, path: string, scope: Scope)
    requires RowsOwn(dir, a.steps) && UnitKey(owner) && ScopeOf(owner) == scope && OwnPath(dir, owner, path)
    requires b == a.(files := a.files - {path}, log := a.log + [LoseFile(path)],
                     lost := a.lost + set k | k in a.steps && a.steps[k].localFilePath == Some(path))
    ensures OnlyLosses(dir, a, b, scope)
  {
    hide OwnPath, UnitKey;
    assert b.log[|a.log|] == LoseFile(path);
    assert LostBetween(a.log, b.log, path);
    forall k | k in b.lost && k !in a.lost
      ensures !Kept(dir, a.log, b.log, k)
    {
      assert OwnPath(dir, k, path);
    }
  }

  /** The log grew and an effect is its last. */
  ghost predicate Ended(before: seq<Effect>, now: seq<Effect>, e: Effect) {
    |before| < |now| && now[|now| - 1] == e
  }

  lemma EndsAttempt(before: seq<Effect>, now: seq<Effect>, e: Effect, k: StepKey, attempt: Attempt)
    requires Ended(before, now, e) && Ends(e, k, attempt)
    ensures Attempted(before, now, k, attempt)
  {
  }

  /** One more effect that is neither a loss nor a reset, after some losses. */
  lemma EffectAfter(dir: string, a: Point, b: Point, c: Point, e: Effect, scope: Scope)
    requires Meanwhile(dir, a, b, scope) && c.files == b.files && c.lost == b.lost && c.log == b.log + [e]
    requires EffectScope(e) == Some(scope) && !e.ResetSteps?
    ensures Meanwhile(dir, a, c, scope) && Ended(a.log, c.log, e)
  {
    hide Kept, OwnPath, LostBetween;
    GrewStep(dir, b.log, e, scope);
    ProceedsMore(dir, a, b, c, scope);
  }

  lemma OnlyLossesIsMeanwhile(dir: string, a: Point, b: Point, scope: Scope)
    requires OnlyLosses(dir, a, b, scope)
    ensures Meanwhile(dir, a, b, scope) && Fewer(a.files, b.files) && a.lost <= b.lost && Grew(dir, a.log, b.log, scope)
    ensures Intact(dir, a, b)
  {
  }

  lemma MeanwhileMore(dir: string, a: Point, b: Point, c: Point, scope: Scope)
    requires Meanwhile(dir, a, b, scope) && Meanwhile(dir, b, c, scope)
    ensures Meanwhile(dir, a, c, scope)
  {
    hide Proceeds;
    ProceedsMore(dir, a, b, c, scope);
  }

  /** A saved file after some losses. */
  lemma SaveAfter(dir: string, a: Point, b: Point, c: Point, e: Effect, scope: Scope)
    requires Meanwhile(dir, a, b, scope) && e.SaveFile? && EffectScope(e) == Some(scope)
    requires c.files == b.files[e.path := e.content] && c.lost == b.lost && c.log == b.log + [e]
    ensures Proceeds(dir, a, c, scope) && Fewer(a.files[e.path := e.content], c.files)
  {
    hide Kept, OwnPath, LostBetween;
    GrewStep(dir, b.log, e, scope);
    ProceedsMore(dir, a, b, c, scope);
  }

  lemma OwnPathOf(dir: string, brokerKey: string, k: StepKey)
    requires SafeName(brokerKey)
    ensures OwnPath(dir, k, UnitPath(dir, brokerKey, k))
  {
  }

  lemma AfterCreate(s: Store, k: StepKey, id: nat)
    requires UnitKey(k) && k !in s.steps && forall other :: other in s.steps ==> s.steps[other].id < id
    ensures Enabled(s, CreateStep(k, id)) && Apply(s, CreateStep(k, id)) == s.(steps := s.steps[k := NewStep(id)])
  {
    hide UnitKey;
  }

  /** Without losses everything stays. */
  lemma NoneLost(dir: string, a: Point, b: Point)
    requires Intact(dir, a, b) && NoLosses(a.log, b.log)
    ensures (forall path :: path in a.files ==> path in b.files) && b.lost <= a.lost
    ensures forall k :: Kept(dir, a.log, b.log, k)
    ensures Fewer(a.files, b.files) ==> b.files == a.files
  {
    hide OwnPath;
    forall k
      ensures Kept(dir, a.log, b.log, k)
    {
    }
  }

  lemma LossIsALoss(before: seq<Effect>, now: seq<Effect>)
    requires forall i :: |before| <= i < |now| ==> now[i].LoseFile?
    ensures |before| < |now| ==> !NoLosses(before, now)
  {
    assert |before| < |now| ==> now[|before|].LoseFile?;
  }

  /** A unit that lost a file is not one that lost none. */
  lemma LossBreaks(dir: string, before: seq<Effect>, now: seq<Effect>, k: StepKey, path: string)
    ensures LostBetween(before, now, path) && OwnPath(dir, k, path) ==> !Kept(dir, before, now, k)
  {
    hide OwnPath;
  }

  lemma OnlyNoLosses(dir: string, a: Point, b: Point, scope: Scope)
    requires OnlyLosses(dir, a, b, scope) && NoLosses(a.log, b.log)
    ensures a == b
  {
    hide Intact, Kept, OwnPath;
    NoneLost(dir, a, b);
    LossIsALoss(a.log, b.log);
    assert a.log == b.log;
  }

  /** What a unit that lost no file still needs does not change by losses. */
  lemma NeedAlike(dir: string, a: Point, b: Point, k: StepKey, step: SyncStep)
    requires Intact(dir, a, b) && Fewer(a.files, b.files) && Kept(dir, a.log, b.log, k)
    requires step.localFilePath.Some? ==> OwnPath(dir, k, step.localFilePath.value)
    ensures NeedsPull(step, a.files) <==> NeedsPull(step, b.files)
    ensures NeedsWrite(step, a.files) <==> NeedsWrite(step, b.files)
  {
    hide OwnPath, Kept, LostBetween;
    if step.localFilePath.Some? {
      LossBreaks(dir, a.log, b.log, k, step.localFilePath.value);
    }
  }

  /** A file stays if the unit lost none. */
  lemma KeptFile(dir: string, a: Point, b: Point, k: StepKey, path: string)
    requires Intact(dir, a, b) && Kept(dir, a.log, b.log, k) && OwnPath(dir, k, path) && path in a.files
    ensures path in b.files
  {
    hide OwnPath, Kept, LostBetween;
    LossBreaks(dir, a.log, b.log, k, path);
  }

  /** Losing files makes nothing impossible but a write. */
  lemma StillEnabled(s: Store, u: Store, e: Effect)
    requires Enabled(s, e) && !e.CommitWrite? && u == s.(files := u.files, lost := u.lost)
    requires Fewer(s.files, u.files) && s.lost <= u.lost
    ensures Enabled(u, e)
  {
    hide OwnPath, UnitKey;
  }

  lemma StillNeedsPull(step: SyncStep, a: map<string, Content>, b: map<string, Content>)
    requires NeedsPull(step, a) && Fewer(a, b)
    ensures NeedsPull(step, b)
  {
  }

  // ---- pulls and writes with losses between -------------------------------------

  /** A unit pulled again or failed, or its file lost meanwhile. */
  ghost predicate PullEnded(dir: string, before: seq<Effect>, now: seq<Effect>, steps: map<StepKey, SyncStep>,
                            files: map<string, Content>, k: StepKey)
  {
    && k in steps && steps[k].pullStatus != PENDING
    && (Kept(dir, before, now, k) ==> PullDone(steps[k], files))
  }

  lemma PullEndedEarlier(dir: string, a: seq<Effect>, b: seq<Effect>, c: seq<Effect>, steps: map<StepKey, SyncStep>,
                         files: map<string, Content>, k: StepKey)
    requires a <= b <= c && PullEnded(dir, b, c, steps, files, k)
    ensures PullEnded(dir, a, c, steps, files, k)
  {
    hide Kept;
    if Kept(dir, a, c, k) {
      KeptParts(dir, a, b, c, k);
    }
  }

  lemma MeanwhileProceeds(dir: string, a: Point, b: Point, scope: Scope)
    requires Meanwhile(dir, a, b, scope)
    ensures Proceeds(dir, a, b, scope) && Fewer(a.files, b.files) && a.lost <= b.lost && a.log <= b.log
    ensures Intact(dir, a, b)
  {
  }

  lemma MeanwhileGrew(dir: string, a: Point, b: Point, scope: Scope)
    requires Meanwhile(dir, a, b, scope)
    ensures Grew(dir, a.log, b.log, scope)
  {
  }

  /** One more pull of one unit, after others. */
  lemma PullsGoOn(dir: string, a: Point, b: Point, c: Point, scope: Scope)
    requires Proceeds(dir, a, b, scope) && Proceeds(dir, b, c, scope)
    ensures Proceeds(dir, a, c, scope) && a.log <= b.log <= c.log && b.lost <= c.lost && Intact(dir, b, c)
    ensures forall k, attempt :: Attempted(a.log, b.log, k, attempt) || Attempted(b.log, c.log, k, attempt) ==>
              Attempted(a.log, c.log, k, attempt)
  {
    hide Intact, Kept, BelongsTo, Attempted, AttemptedTwice;
    ProceedsMore(dir, a, b, c, scope);
    GrewMore(dir, a.log, b.log, c.log, scope);
  }

  lemma AttemptsGoOn(dir: string, a: Point, b: Point, c: Point, scope: Scope)
    requires Meanwhile(dir, a, b, scope) && Meanwhile(dir, b, c, scope)
    ensures Meanwhile(dir, a, c, scope) && b.lost <= c.lost
    ensures forall k, attempt :: Attempted(a.log, b.log, k, attempt) || Attempted(b.log, c.log, k, attempt) ==>
              Attempted(a.log, c.log, k, attempt)
  {
    hide Intact, Kept, BelongsTo, Attempted, AttemptedTwice;
    ProceedsMore(dir, a, b, c, scope);
    PullsGoOn(dir, a, b, c, scope);
  }

  lemma WritesGoOn(dir: string, a: Point, b: Point, c: Point, scope: Scope)
    requires Grew(dir, a.log, b.log, scope) && Intact(dir, a, b) && Fewer(a.files, b.files)
    requires Grew(dir, b.log, c.log, scope) && Intact(dir, b, c) && Fewer(b.files, c.files)
    ensures Grew(dir, a.log, c.log, scope) && Intact(dir, a, c) && Fewer(a.files, c.files) && a.log <= b.log <= c.log
    ensures forall k, attempt :: Attempted(a.log, b.log, k, attempt) || Attempted(b.log, c.log, k, attempt) ==>
              Attempted(a.log, c.log, k, attempt)
  {
    hide Intact, Kept, Grew, Attempted, AttemptedTwice;
    GrewIsPrefix(dir, a.log, b.log, scope);
    GrewIsPrefix(dir, b.log, c.log, scope);
    GrewMore(dir, a.log, b.log, c.log, scope);
    IntactMore(dir, a, b, c);
  }

  /** A file that is there at one point is there later, if the unit lost none. */
  lemma LaterKept(dir: string, a: Point, b: Point, c: Point, k: StepKey, path: string, scope: Scope)
    requires Proceeds(dir, a, b, scope) && Proceeds(dir, b, c, scope) && Kept(dir, a.log, c.log, k)
    requires OwnPath(dir, k, path) && path in b.files
    ensures path in c.files
  {
    hide Intact, Kept, Grew, OwnPath;
    GrewIsPrefix(dir, a.log, b.log, scope);
    GrewIsPrefix(dir, b.log, c.log, scope);
    KeptParts(dir, a.log, b.log, c.log, k);
    KeptFile(dir, b, c, k, path);
  }

  /** A pull and the mark after it. */
  lemma PullHandled(dir: string, a: Point, b: Point, c: Point, k: StepKey, path: string, scope: Scope)
    requires Proceeds(dir, a, b, scope) && Meanwhile(dir, b, c, scope) && OwnPath(dir, k, path)
    requires Attempted(b.log, c.log, k, PullAttempt) && k in c.steps && c.steps[k].pullStatus != PENDING
    requires c.steps[k].pullStatus == SUCCESS ==> path in b.files && c.steps[k].localFilePath == Some(path)
    ensures Proceeds(dir, a, c, scope) && Fewer(b.files, c.files) && Attempted(a.log, c.log, k, PullAttempt)
    ensures PullEnded(dir, a.log, c.log, c.steps, c.files, k)
    ensures Kept(dir, a.log, c.log, k) ==> Kept(dir, a.log, b.log, k) && (path in b.files ==> path in c.files)
  {
    hide Intact, Kept, Grew, OwnPath, Attempted, AttemptedTwice;
    MeanwhileProceeds(dir, b, c, scope);
    PullsGoOn(dir, a, b, c, scope);
    if Kept(dir, a.log, c.log, k) {
      KeptParts(dir, a.log, b.log, c.log, k);
      if path in b.files {
        LaterKept(dir, a, b, c, k, path, scope);
      }
    }
  }

  /** A commit after some losses. */
  lemma CommitAfter(dir: string, a: Point, b: Point, c: Point, e: Effect, scope: Scope)
    requires OnlyLosses(dir, a, b, scope) && e.CommitWrite? && EffectScope(e) == Some(scope)
    requires c.files == b.files && c.lost <= b.lost && c.log == b.log + [e]
    ensures Grew(dir, a.log, c.log, scope) && Intact(dir, a, c) && Fewer(a.files, c.files)
  {
    hide Kept, OwnPath, LostBetween;
    GrewStep(dir, b.log, e, scope);
    OnlyLossesIsMeanwhile(dir, a, b, scope);
    WritesGoOn(dir, a, b, c, scope);
  }

  /** The unit's write was tried: it failed, or it succeeded and its file is not lost, unless that came after. */
  ghost predicate Tried(dir: string, a: Point, b: Point, k: StepKey) {
    && k in b.steps && b.steps[k].writeStatus != PENDING
    && (b.steps[k].writeStatus == SUCCESS && Kept(dir, a.log, b.log, k) ==> k !in b.lost)
  }

  /** A write and the mark after it. */
  lemma WriteMarked(dir: string, a: Point, b: Point, c: Point, k: StepKey, scope: Scope)
    requires Grew(dir, a.log, b.log, scope) && Intact(dir, a, b) && Fewer(a.files, b.files)
    requires Meanwhile(dir, b, c, scope) && Attempted(b.log, c.log, k, WriteAttempt)
    requires k in c.steps && c.steps[k].writeStatus != PENDING && (c.steps[k].writeStatus == SUCCESS ==> k !in b.lost)
    ensures Grew(dir, a.log, c.log, scope) && Intact(dir, a, c) && Fewer(a.files, c.files) && Fewer(b.files, c.files)
    ensures Attempted(a.log, c.log, k, WriteAttempt) && Tried(dir, a, c, k)
  {
    hide Kept, Grew, Attempted, AttemptedTwice;
    MeanwhileProceeds(dir, b, c, scope);
    assert Grew(dir, b.log, c.log, scope) by { MeanwhileGrew(dir, b, c, scope); }
    WritesGoOn(dir, a, b, c, scope);
    if Kept(dir, a.log, c.log, k) {
      KeptParts(dir, a.log, b.log, c.log, k);
    }
  }

  // ---- the log of a whole run ---------------------------------------------------

  /** The units whose writes ended, in the order in which they did. */
  function WrittenKeys(es: seq<Effect>): seq<StepKey> {
    if es == [] then []
    else
      var e := es[|es| - 1];
      WrittenKeys(es[..|es| - 1]) + if e.WriteSucceeded? || e.WriteFailed? then [e.key] else []
  }

  lemma WrittenKeysStep(es: seq<Effect>, e: Effect)
    ensures WrittenKeys(es + [e]) == WrittenKeys(es) + if e.WriteSucceeded? || e.WriteFailed? then [e.key] else []
  {
    assert (es + [e])[..|es|] == es;
  }

  lemma RunLogIsPrefix(dir: string, before: seq<Effect>, now: seq<Effect>, scope: Scope, force: bool)
    requires RunLog(dir, before, now, scope, force)
    ensures before <= now
  {
  }

  lemma RunLogMore(dir: string, a: seq<Effect>, b: seq<Effect>, c: seq<Effect>, scope: Scope, force: bool)
    requires RunLog(dir, a, b, scope, force) && Grew(dir, b, c, scope)
    ensures RunLog(dir, a, c, scope, force)
  {
    hide BelongsTo;
  }

  lemma RunLogBegins(dir: string, a: seq<Effect>, e: Effect, scope: Scope, force: bool)
    requires e.ResetSteps? && EffectScope(e) == Some(scope)
    ensures RunLog(dir, a, a, scope, force) && RunLog(dir, a, a + [e], scope, true)
  {
  }

  /** What a run logs is a possible history of its own day and task type, as the laws of SyncMixes ask for. */
  lemma RunIsAHistory(s: Store, before: seq<Effect>, now: seq<Effect>, scope: Scope, force: bool)
    requires Possible(s, now) && RunLog(s.dir, before, now, scope, force)
    ensures var run := now[|before|..];
            && Possible(After(s, before), run) && After(After(s, before), run) == After(s, now)
            && After(s, before).dir == s.dir && AllInScope(s.dir, run, scope)
  {
    hide Possible, After, WellFormed, BelongsTo;
    LaterPart(s, now, |before|);
    DirKept(s, before);
    assert now[..|before|] == before;
    assert forall i :: 0 <= i < |now| - |before| ==> now[|before|..][i] == now[|before| + i];
  }

  /** A run creates no row exactly when every one of its units had a row already. */
  lemma CreatesForNewUnits(s: Store, before: seq<Effect>, now: seq<Effect>, scope: Scope, force: bool,
                           keys: seq<StepKey>)
    requires Possible(s, now) && RunLog(s.dir, before, now, scope, force)
    requires forall k :: k in After(s, before).steps ==> k in After(s, now).steps
    requires forall k :: k in After(s, now).steps ==> k in After(s, before).steps || k in keys
    requires forall k :: k in keys ==> k in After(s, now).steps
    ensures Creates(now[|before|..]) == 0 <==> forall k :: k in keys ==> k in After(s, before).steps
  {
    hide Possible, After, WellFormed, RunLog, AllInScope, AllDue, FreshIds, Creates;
    RunLogIsPrefix(s.dir, before, now, scope, force);
    RunIsAHistory(s, before, now, scope, force);
    PossibleMeansDue(After(s, before), now[|before|..]);
    CreatesNothingExactly(After(s, before), now[|before|..]);
  }

  lemma RunWritesOnce(s: Store, before: seq<Effect>, now: seq<Effect>, scope: Scope, force: bool)
    requires Possible(s, now) && RunLog(s.dir, before, now, scope, force)
    ensures WrittenOnce(before, now)
  {
    hide Possible, BelongsTo;
    forall i, j | |before| <= i < j < |now| && now[i].WriteSucceeded? && now[j].CommitWrite?
      ensures now[i].key != now[j].key
    {
      if now[i].key == now[j].key {
        NoRewriteWithoutReset(s, now, i, j, now[i].key);
        assert false;
      }
    }
  }

  /** One attempt in each of two separate stretches makes two. */
  lemma TwiceLast(a: seq<Effect>, b: seq<Effect>, c: seq<Effect>, d: seq<Effect>, e: seq<Effect>, k: StepKey,
                  attempt: Attempt)
    requires a <= b <= c <= d <= e && Attempted(a, b, k, attempt) && Attempted(c, d, k, attempt)
    ensures AttemptedTwice(a, e, k, attempt)
  {
    var i :| |a| <= i < |b| && Ends(b[i], k, attempt);
    var j :| |c| <= j < |d| && Ends(d[j], k, attempt);
    assert e[i] == b[i] && e[j] == d[j];
  }

  lemma AttemptsLast(a: seq<Effect>, b: seq<Effect>, c: seq<Effect>, d: seq<Effect>, k: StepKey, attempt: Attempt)
    requires a <= b <= c <= d
    ensures Attempted(b, c, k, attempt) ==> Attempted(a, d, k, attempt)
    ensures AttemptedTwice(b, c, k, attempt) ==> AttemptedTwice(a, d, k, attempt)
  {
    assert forall i :: 0 <= i < |c| ==> d[i] == c[i];
  }

  lemma FilesAsTheyAre(a: Point)
    ensures Fewer(a.files, a.files) && forall dir :: Intact(dir, a, a)
  {
  }
}
