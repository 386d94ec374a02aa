/**
 Two runs of different trade days or task types, interleaved effect by effect in any way: they stay possible
 and leave one state, up to the ids of new rows. One after the other are two of the ways.
 */
module SyncMixes {
  import opened Common
  import opened SyncProtocol
  import opened SyncRuns

  /** The effects of both runs, each in its own order, and nothing else. */
  ghost predicate Mixes(es: seq<Effect>, fs: seq<Effect>, mix: seq<Effect>)
    decreases |mix|
  {
    if mix == [] then es == [] && fs == []
    else
      var before, e := mix[..|mix| - 1], mix[|mix| - 1];
      || (es != [] && es[|es| - 1] == e && Mixes(es[..|es| - 1], fs, before))
      || (fs != [] && fs[|fs| - 1] == e && Mixes(es, fs[..|fs| - 1], before))
  }

  lemma {:induction false} MixesEither(es: seq<Effect>, fs: seq<Effect>, mix: seq<Effect>)
    requires Mixes(es, fs, mix)
    ensures Mixes(fs, es, mix)
    decreases |mix|
  {
    if mix != [] {
      var before, e := mix[..|mix| - 1], mix[|mix| - 1];
      if es != [] && es[|es| - 1] == e && Mixes(es[..|es| - 1], fs, before) {
        MixesEither(es[..|es| - 1], fs, before);
      } else {
        MixesEither(es, fs[..|fs| - 1], before);
      }
    }
  }

  lemma {:induction false} OnlyOne(es: seq<Effect>)
    ensures Mixes(es, [], es)
    decreases |es|
  {
    if es != [] { OnlyOne(es[..|es| - 1]); }
  }

  /** One run after the other is one way to interleave them. */
  lemma {:induction false} OneAfterTheOther(es: seq<Effect>, fs: seq<Effect>)
    ensures Mixes(es, fs, es + fs)
    decreases |fs|
  {
    if fs == [] {
      assert es + fs == es;
      OnlyOne(es);
    } else {
      OneAfterTheOther(es, fs[..|fs| - 1]);
      assert (es + fs)[..|es + fs| - 1] == es + fs[..|fs| - 1];
    }
  }

  lemma {:induction false} MixMembers(es: seq<Effect>, fs: seq<Effect>, mix: seq<Effect>)
    requires Mixes(es, fs, mix)
    ensures forall e :: e in mix <==> e in es || e in fs
    decreases |mix|
  {
    if mix != [] {
      var before, e := mix[..|mix| - 1], mix[|mix| - 1];
      assert mix == before + [e];
      if es != [] && es[|es| - 1] == e && Mixes(es[..|es| - 1], fs, before) {
        MixMembers(es[..|es| - 1], fs, before);
        assert es == es[..|es| - 1] + [e];
      } else {
        MixMembers(es, fs[..|fs| - 1], before);
        assert fs == fs[..|fs| - 1] + [e];
      }
    }
  }

  // ---- what each run sees --------------------------------------------------------

  lemma SameViewSelf(s: Store, c: Scope)
    ensures SameView(s, s, c)
  {
  }

  lemma ViewChain(s: Store, u: Store, v: Store, c: Scope)
    requires SameView(s, u, c) && SameView(u, v, c)
    ensures SameView(s, v, c)
  {
    ViewTransitive(s, u, v, c);
  }

  lemma ViewBack(s: Store, u: Store, c: Scope)
    requires SameView(s, u, c)
    ensures SameView(u, s, c)
  {
    SameViewSelf(u, c);
    ViewTransitive(s, u, u, c);
  }

  lemma ScopePrefix(dir: string, es: seq<Effect>, a: Scope)
    requires es != [] && AllInScope(dir, es, a)
    ensures AllInScope(dir, es[..|es| - 1], a)
    ensures InScope(dir, es[|es| - 1], a)
  {
  }

  /** After the effect of one run each day and task type sees what it saw, or what that effect alone does to it. */
  lemma OneMoreEffect(s: Store, own: Store, other: Store, third: Store, e: Effect, a: Scope, b: Scope, c: Scope)
    requires PathsOwn(s) && PathsOwn(own) && InScope(s.dir, e, a) && a != b && c != a
    requires SameView(own, s, a) && SameView(other, s, b) && SameView(third, s, c)
    ensures PathsOwn(Apply(s, e)) && Apply(s, e).dir == s.dir
    ensures SameView(Apply(own, e), Apply(s, e), a)
    ensures SameView(other, Apply(s, e), b) && SameView(third, Apply(s, e), c)
  {
    hide Apply, WellFormed, PathIn;
    KeepsPathsOwn(s, e);
    KeepsDir(s, e);
    EffectIsLocal(own, s, e, a);
    EffectFrame(s, e, a, b);
    EffectFrame(s, e, a, c);
    ViewChain(other, s, Apply(s, e), b);
    ViewChain(third, s, Apply(s, e), c);
  }

  /** However two runs are interleaved, each sees what it alone leaves, and everything else sees neither. */
  lemma {:induction false} MixView(s: Store, es: seq<Effect>, fs: seq<Effect>, mix: seq<Effect>,
                                   a: Scope, b: Scope, c: Scope)
    requires PathsOwn(s) && a != b && c != a && c != b && Mixes(es, fs, mix)
    requires AllInScope(s.dir, es, a) && AllInScope(s.dir, fs, b)
    ensures PathsOwn(After(s, mix)) && After(s, mix).dir == s.dir
    ensures SameView(After(s, es), After(s, mix), a) && SameView(After(s, fs), After(s, mix), b)
    ensures SameView(s, After(s, mix), c)
    decreases |mix|
  {
    hide Apply, WellFormed, PathsOwn, SameView, AllInScope;
    if mix == [] {
      SameViewSelf(s, a);
      SameViewSelf(s, b);
      SameViewSelf(s, c);
    } else {
      var before, e := mix[..|mix| - 1], mix[|mix| - 1];
      if es != [] && es[|es| - 1] == e && Mixes(es[..|es| - 1], fs, before) {
        ScopePrefix(s.dir, es, a);
        MixView(s, es[..|es| - 1], fs, before, a, b, c);
        RunFrame(s, es[..|es| - 1], a, a);
        OneMoreEffect(After(s, before), After(s, es[..|es| - 1]), After(s, fs), s, e, a, b, c);
      } else {
        ScopePrefix(s.dir, fs, b);
        MixView(s, es, fs[..|fs| - 1], before, a, b, c);
        RunFrame(s, fs[..|fs| - 1], b, b);
        OneMoreEffect(After(s, before), After(s, fs[..|fs| - 1]), After(s, es), s, e, b, a, c);
      }
    }
  }

  function AnotherScope(a: Scope, b: Scope): (c: Scope)
    ensures c != a && c != b
  {
    var day := a.tradeDay + b.tradeDay + "+";
    assert |day| > |a.tradeDay| && |day| > |b.tradeDay|;
    Scope(day, a.taskType)
  }

  /** However two runs are interleaved, each effect is due when its turn comes, if it is in the run alone. */
  lemma {:induction false} MixDue(s: Store, es: seq<Effect>, fs: seq<Effect>, mix: seq<Effect>, a: Scope, b: Scope)
    requires PathsOwn(s) && a != b && Mixes(es, fs, mix)
    requires AllInScope(s.dir, es, a) && AllInScope(s.dir, fs, b) && AllDue(s, es) && AllDue(s, fs)
    ensures AllDue(s, mix)
    decreases |mix|
  {
    hide Apply, WellFormed, PathsOwn, SameView, AllInScope, Due, AllDue;
    if mix == [] {
      NothingDue(s);
    } else {
      var before, e := mix[..|mix| - 1], mix[|mix| - 1];
      var c := AnotherScope(a, b);
      if es != [] && es[|es| - 1] == e && Mixes(es[..|es| - 1], fs, before) {
        LastDue(s, es);
        ScopePrefix(s.dir, es, a);
        MixDue(s, es[..|es| - 1], fs, before, a, b);
        MixView(s, es[..|es| - 1], fs, before, a, b, c);
        RunFrame(s, es[..|es| - 1], a, a);
        DueIsLocal(After(s, es[..|es| - 1]), After(s, before), e, a);
      } else {
        LastDue(s, fs);
        ScopePrefix(s.dir, fs, b);
        MixDue(s, es, fs[..|fs| - 1], before, a, b);
        MixView(s, es, fs[..|fs| - 1], before, a, b, c);
        RunFrame(s, fs[..|fs| - 1], b, b);
        DueIsLocal(After(s, fs[..|fs| - 1]), After(s, before), e, b);
      }
      DueMore(s, mix);
    }
  }

  lemma NothingDue(s: Store)
    ensures AllDue(s, [])
  {
  }

  lemma LastDue(s: Store, es: seq<Effect>)
    requires es != [] && AllDue(s, es)
    ensures AllDue(s, es[..|es| - 1]) && Due(After(s, es[..|es| - 1]), es[|es| - 1])
  {
    DuePrefix(s, es, |es| - 1);
  }

  lemma DueMore(s: Store, es: seq<Effect>)
    requires es != [] && AllDue(s, es[..|es| - 1]) && Due(After(s, es[..|es| - 1]), es[|es| - 1])
    ensures AllDue(s, es)
  {
    hide Due;
    var before := es[..|es| - 1];
    forall n | 0 <= n < |es|
      ensures Due(After(s, es[..n]), es[n])
    {
      if n < |before| {
        assert before[..n] == es[..n] && before[n] == es[n];
      }
    }
  }

  // ---- ids, warnings and commands ------------------------------------------------

  lemma {:induction false} MixFresh(s: Store, es: seq<Effect>, fs: seq<Effect>, mix: seq<Effect>)
    requires Mixes(es, fs, mix) && FreshIds(s, es) && FreshIds(s, fs) && IdsApart(es, fs)
    ensures FreshIds(s, mix)
    decreases |mix|
  {
    if mix != [] {
      var before, e := mix[..|mix| - 1], mix[|mix| - 1];
      if es != [] && es[|es| - 1] == e && Mixes(es[..|es| - 1], fs, before) {
        MixFresh(s, es[..|es| - 1], fs, before);
        FreshLast(s, es, fs, mix);
      } else {
        MixFresh(s, es, fs[..|fs| - 1], before);
        MixesEither(es, fs[..|fs| - 1], before);
        FreshLast(s, fs, es, mix);
      }
    }
  }

  lemma FreshLast(s: Store, es: seq<Effect>, fs: seq<Effect>, mix: seq<Effect>)
    requires es != [] && mix != [] && es[|es| - 1] == mix[|mix| - 1]
    requires Mixes(es[..|es| - 1], fs, mix[..|mix| - 1]) && FreshIds(s, mix[..|mix| - 1])
    requires FreshIds(s, es) && IdsApart(es, fs)
    ensures FreshIds(s, mix)
  {
    hide Mixes;
    var before, own, e := mix[..|mix| - 1], es[..|es| - 1], es[|es| - 1];
    MixMembers(own, fs, before);
    forall n | 0 <= n < |before| && before[n].CreateStep? && e.CreateStep?
      ensures before[n].id != e.id
    {
      assert before[n] in before;
      if before[n] in own {
        var i :| 0 <= i < |own| && own[i] == before[n];
        assert es[i] == own[i];
      } else {
        var i :| 0 <= i < |fs| && fs[i] == before[n];
      }
    }
    forall n, k | 0 <= n < |mix| && mix[n].CreateStep? && k in s.steps
      ensures s.steps[k].id != mix[n].id
    {
      assert n < |before| ==> before[n] == mix[n];
    }
    forall n, m | 0 <= n < m < |mix| && mix[n].CreateStep? && mix[m].CreateStep?
      ensures mix[n].id != mix[m].id
    {
      assert before[n] == mix[n] && (m < |before| ==> before[m] == mix[m]);
    }
  }

  lemma Rearranged<T>(x: multiset<T>, y: multiset<T>, more: multiset<T>)
    ensures x + y + more == (x + more) + y && x + y + more == x + (y + more)
  {
  }

  lemma LastCreated(es: seq<Effect>)
    requires es != []
    ensures WarningsOf(es) == WarningsOf(es[..|es| - 1]) + NewWarning(es[|es| - 1])
    ensures CommandsOf(es) == CommandsOf(es[..|es| - 1]) + NewCommand(es[|es| - 1])
  {
  }

  lemma NoneCreated()
    ensures WarningsOf([]) == multiset{} && CommandsOf([]) == multiset{}
  {
  }

  lemma {:induction false} MixCreates(es: seq<Effect>, fs: seq<Effect>, mix: seq<Effect>)
    requires Mixes(es, fs, mix)
    ensures WarningsOf(mix) == WarningsOf(es) + WarningsOf(fs)
    ensures CommandsOf(mix) == CommandsOf(es) + CommandsOf(fs)
    decreases |mix|
  {
    hide WarningsOf, CommandsOf, NewWarning, NewCommand;
    if mix == [] {
      NoneCreated();
    } else {
      var before, e := mix[..|mix| - 1], mix[|mix| - 1];
      LastCreated(mix);
      if es != [] && es[|es| - 1] == e && Mixes(es[..|es| - 1], fs, before) {
        LastCreated(es);
        MixCreates(es[..|es| - 1], fs, before);
        Rearranged(WarningsOf(es[..|es| - 1]), WarningsOf(fs), NewWarning(e));
        Rearranged(CommandsOf(es[..|es| - 1]), CommandsOf(fs), NewCommand(e));
      } else {
        LastCreated(fs);
        MixCreates(es, fs[..|fs| - 1], before);
        Rearranged(WarningsOf(es), WarningsOf(fs[..|fs| - 1]), NewWarning(e));
        Rearranged(CommandsOf(es), CommandsOf(fs[..|fs| - 1]), NewCommand(e));
      }
    }
  }

  // ---- interleavings agree -------------------------------------------------------

  lemma TwoMixesView(s: Store, es: seq<Effect>, fs: seq<Effect>, x: seq<Effect>, y: seq<Effect>,
                     a: Scope, b: Scope, c: Scope)
    requires PathsOwn(s) && a != b && Mixes(es, fs, x) && Mixes(es, fs, y)
    requires AllInScope(s.dir, es, a) && AllInScope(s.dir, fs, b)
    ensures SameView(After(s, x), After(s, y), c)
  {
    hide Apply, After, WellFormed, PathsOwn, SameView, AllInScope, Mixes;
    var d := if c == a || c == b then AnotherScope(a, b) else c;
    MixView(s, es, fs, x, a, b, d);
    MixView(s, es, fs, y, a, b, d);
    var u := if c == a then After(s, es) else if c == b then After(s, fs) else s;
    ViewBack(u, After(s, x), c);
    ViewChain(After(s, x), u, After(s, y), c);
  }

  /** With the ids of created rows fixed in advance, every two interleavings leave the same state. */
  lemma FixedMixesAgree(s: Store, es: seq<Effect>, fs: seq<Effect>, x: seq<Effect>, y: seq<Effect>, a: Scope, b: Scope)
    requires PathsOwn(s) && a != b && Mixes(es, fs, x) && Mixes(es, fs, y)
    requires AllInScope(s.dir, es, a) && AllInScope(s.dir, fs, b)
    ensures SameState(After(s, x), After(s, y))
  {
    hide After, WellFormed, PathsOwn, SameView, AllInScope, Mixes;
    forall c
      ensures SameView(After(s, x), After(s, y), c)
    {
      TwoMixesView(s, es, fs, x, y, a, b, c);
    }
    SameRowsEverywhere(After(s, x), After(s, y));
    MixCreates(es, fs, x);
    MixCreates(es, fs, y);
    CreatedRows(s, x);
    CreatedRows(s, y);
  }

  /**
   Two runs of different days or task types that are possible alone and draw different ids are possible
   interleaved in any way, and every interleaving leaves the state that one after the other leaves.
   */
  lemma RunsInterleave(s: Store, es: seq<Effect>, fs: seq<Effect>, mix: seq<Effect>, a: Scope, b: Scope)
    requires PathsOwn(s) && a != b && AllInScope(s.dir, es, a) && AllInScope(s.dir, fs, b)
    requires Possible(s, es) && Possible(s, fs) && IdsApart(es, fs) && Mixes(es, fs, mix)
    ensures Possible(s, mix) && SameState(After(s, mix), After(s, es + fs))
  {
    hide Possible, AllDue, FreshIds, PathsOwn, SameState, AllInScope, Mixes, IdsApart;
    PossibleMeansDue(s, es);
    PossibleMeansDue(s, fs);
    MixDue(s, es, fs, mix, a, b);
    MixFresh(s, es, fs, mix);
    PossibleExactly(s, mix);
    OneAfterTheOther(es, fs);
    FixedMixesAgree(s, es, fs, mix, es + fs, a, b);
  }

  lemma {:induction false} PlainMix(es: seq<Effect>, fs: seq<Effect>, mix: seq<Effect>)
    requires Mixes(es, fs, mix)
    ensures Mixes(Plains(es), Plains(fs), Plains(mix))
    decreases |mix|
  {
    if mix != [] {
      var before, e := mix[..|mix| - 1], mix[|mix| - 1];
      assert Plains(mix)[..|mix| - 1] == Plains(before) && Plains(mix)[|mix| - 1] == PlainEffect(e);
      if es != [] && es[|es| - 1] == e && Mixes(es[..|es| - 1], fs, before) {
        PlainMix(es[..|es| - 1], fs, before);
        assert Plains(es)[..|es| - 1] == Plains(es[..|es| - 1]);
      } else {
        PlainMix(es, fs[..|fs| - 1], before);
        assert Plains(fs)[..|fs| - 1] == Plains(fs[..|fs| - 1]);
      }
    }
  }

  lemma PlainMixesAgree(s: Store, es: seq<Effect>, fs: seq<Effect>, x: seq<Effect>, es': seq<Effect>, fs': seq<Effect>,
                        y: seq<Effect>, a: Scope, b: Scope)
    requires PathsOwn(s) && a != b && AllInScope(s.dir, es, a) && AllInScope(s.dir, fs, b)
    requires SameRun(es, es') && SameRun(fs, fs') && Mixes(es, fs, x) && Mixes(es', fs', y)
    ensures SameState(Plain(After(s, x)), Plain(After(s, y)))
  {
    hide WellFormed, SameState, After, Plain, PathsOwn, Mixes;
    PlainPaths(s);
    AfterPlain(s, x);
    AfterPlain(s, y);
    PlainMix(es, fs, x);
    PlainMix(es', fs', y);
    PlainInScope(s.dir, es, a);
    PlainInScope(s.dir, fs, b);
    FixedMixesAgree(Plain(s), Plains(es), Plains(fs), Plains(x), Plains(y), a, b);
  }

  /**
   As they really run, drawing the ids that are new at each moment: two interleavings of the same two runs, which
   do the same but for the ids, are both possible and leave the same state up to the ids of new rows.
   */
  lemma RealInterleavings(s: Store, es: seq<Effect>, fs: seq<Effect>, x: seq<Effect>, es': seq<Effect>,
                          fs': seq<Effect>, y: seq<Effect>, a: Scope, b: Scope)
    requires PathsOwn(s) && IdsDistinct(s) && a != b && AllInScope(s.dir, es, a) && AllInScope(s.dir, fs, b)
    requires AllDue(s, es) && AllDue(s, fs) && SameRun(es, es') && SameRun(fs, fs')
    requires Mixes(es, fs, x) && Mixes(es', fs', y) && FreshIds(s, x) && FreshIds(s, y)
    ensures Possible(s, x) && Possible(s, y) && SameButNewIds(s, After(s, x), After(s, y))
  {
    hide Possible, AllDue, FreshIds, PathsOwn, SameState, IdsDistinct, Plain, Plains, SameButNewIds, Mixes, AllInScope;
    RenamedRun(s, es, es', a);
    RenamedRun(s, fs, fs', b);
    MixDue(s, es, fs, x, a, b);
    MixDue(s, es', fs', y, a, b);
    PossibleExactly(s, x);
    PossibleExactly(s, y);
    PlainMixesAgree(s, es, fs, x, es', fs', y, a, b);
    NewIdsOnly(s, x, y);
  }

  // ---- one after the other -------------------------------------------------------

  lemma SameStateBack(s: Store, u: Store)
    requires SameState(s, u)
    ensures SameState(u, s)
  {
    hide SameView;
    forall c
      ensures SameView(u, s, c)
    {
      ViewBack(s, u, c);
    }
  }

  lemma SameRunBack(es: seq<Effect>, fs: seq<Effect>)
    requires SameRun(es, fs)
    ensures SameRun(fs, es)
  {
  }

  /**
   Two runs of different days or task types that are possible alone and draw different ids are possible
   in both orders, and leave the same state.
   */
  lemma RunsCommute(s: Store, es: seq<Effect>, fs: seq<Effect>, a: Scope, b: Scope)
    requires PathsOwn(s) && a != b && AllInScope(s.dir, es, a) && AllInScope(s.dir, fs, b)
    requires Possible(s, es) && Possible(s, fs) && IdsApart(es, fs)
    ensures Possible(s, es + fs) && Possible(s, fs + es)
    ensures SameState(After(s, es + fs), After(s, fs + es))
  {
    hide Possible, PathsOwn, SameState, AllInScope, Mixes, IdsApart;
    OneAfterTheOther(es, fs);
    OneAfterTheOther(fs, es);
    MixesEither(fs, es, fs + es);
    RunsInterleave(s, es, fs, es + fs, a, b);
    RunsInterleave(s, es, fs, fs + es, a, b);
    SameStateBack(After(s, fs + es), After(s, es + fs));
  }

  /**
   As they really run, each drawing the ids that are next when it does. One order is es and then fs, the
   other fs' and then es', which do the same but for the ids. If each first run is possible, and every id
   handed out in an order is new, then both orders are possible and leave the same state up to new ids.
   */
  lemma RealRunsCommute(s: Store, es: seq<Effect>, fs: seq<Effect>, es': seq<Effect>, fs': seq<Effect>,
                        a: Scope, b: Scope)
    requires PathsOwn(s) && IdsDistinct(s) && a != b
    requires AllInScope(s.dir, es, a) && AllInScope(s.dir, fs', b) && SameRun(es, es') && SameRun(fs, fs')
    requires Possible(s, es) && Possible(s, fs') && FreshIds(s, es + fs) && FreshIds(s, fs' + es')
    ensures Possible(s, es + fs) && Possible(s, fs' + es')
    ensures SameButNewIds(s, After(s, es + fs), After(s, fs' + es'))
  {
    hide Possible, AllDue, FreshIds, PathsOwn, IdsDistinct, SameRun, SameButNewIds, Mixes, AllInScope;
    PossibleMeansDue(s, es);
    PossibleMeansDue(s, fs');
    SameRunBack(fs, fs');
    RenamedRun(s, fs', fs, b);
    OneAfterTheOther(es, fs);
    OneAfterTheOther(fs', es');
    MixesEither(fs', es', fs' + es');
    RealInterleavings(s, es, fs, es + fs, es', fs', fs' + es', a, b);
  }

  // ---- when the ids agree too ----------------------------------------------------

  /** How many rows a run creates. */
  function Creates(es: seq<Effect>): nat {
    if es == [] then 0 else Creates(es[..|es| - 1]) + if es[|es| - 1].CreateStep? then 1 else 0
  }

  /** Ids as an autoincrement column hands them out. */
  ghost predicate NumberedFrom(es: seq<Effect>, n: nat) {
    forall i :: 0 <= i < |es| && es[i].CreateStep? ==> es[i].id == n + Creates(es[..i])
  }

  lemma {:induction false} CreatesAppend(es: seq<Effect>, fs: seq<Effect>)
    ensures Creates(es + fs) == Creates(es) + Creates(fs)
    decreases |fs|
  {
    if fs == [] {
      assert es + fs == es;
    } else {
      assert (es + fs)[..|es + fs| - 1] == es + fs[..|fs| - 1];
      CreatesAppend(es, fs[..|fs| - 1]);
    }
  }

  lemma {:induction false} SameCreates(es: seq<Effect>, fs: seq<Effect>)
    requires SameRun(es, fs)
    ensures Creates(es) == Creates(fs)
    decreases |es|
  {
    assert |Plains(es)| == |es| && |Plains(fs)| == |fs|;
    if es != [] {
      var n := |es| - 1;
      assert Plains(es)[n] == Plains(fs)[n];
      assert Plains(es[..n]) == Plains(es)[..n] && Plains(fs[..n]) == Plains(fs)[..n];
      SameCreates(es[..n], fs[..n]);
    }
  }

  /** A run creates nothing exactly when it has no create, and otherwise there is one. */
  lemma {:induction false} SomeCreate(es: seq<Effect>)
    ensures Creates(es) == 0 <==> forall i :: 0 <= i < |es| ==> !es[i].CreateStep?
  {
    if es != [] {
      var before := es[..|es| - 1];
      SomeCreate(before);
      assert forall i :: 0 <= i < |before| ==> before[i] == es[i];
    }
  }

  lemma NumberedApart(es: seq<Effect>, fs: seq<Effect>, n: nat)
    requires NumberedFrom(es + fs, n)
    ensures NumberedFrom(es, n) && NumberedFrom(fs, n + Creates(es))
  {
    var both := es + fs;
    forall i | 0 <= i < |es| && es[i].CreateStep?
      ensures es[i].id == n + Creates(es[..i])
    {
      assert both[i] == es[i] && both[..i] == es[..i];
    }
    forall i | 0 <= i < |fs| && fs[i].CreateStep?
      ensures fs[i].id == n + Creates(es) + Creates(fs[..i])
    {
      assert both[|es| + i] == fs[i] && both[..|es| + i] == es + fs[..i];
      CreatesAppend(es, fs[..i]);
    }
  }

  /** The same run numbered from the same id is the same sequence of effects. */
  lemma SameNumbers(es: seq<Effect>, fs: seq<Effect>, n: nat, m: nat)
    requires SameRun(es, fs) && NumberedFrom(es, n) && NumberedFrom(fs, m) && (n == m || Creates(es) == 0)
    ensures es == fs
  {
    assert |Plains(es)| == |es| && |Plains(fs)| == |fs|;
    SomeCreate(es);
    forall i | 0 <= i < |es|
      ensures es[i] == fs[i]
    {
      assert Plains(es)[i] == Plains(fs)[i];
      if es[i].CreateStep? {
        assert Plains(es[..i]) == Plains(es)[..i] && Plains(fs[..i]) == Plains(fs)[..i];
        SameCreates(es[..i], fs[..i]);
      }
    }
  }

  /** Two runs that both create rows: a row of the first has another id when the second goes first. */
  lemma IdsDiffer(s: Store, es: seq<Effect>, fs: seq<Effect>, es': seq<Effect>, fs': seq<Effect>, n: nat)
    requires SameRun(es, es') && SameRun(fs, fs') && Possible(s, es + fs) && Possible(s, fs' + es')
    requires NumberedFrom(es + fs, n) && NumberedFrom(fs' + es', n) && Creates(es) > 0 && Creates(fs) > 0
    ensures After(s, es + fs).steps != After(s, fs' + es').steps
  {
    hide Possible, AllDue, After, FreshIds;
    SomeCreate(es);
    var i :| 0 <= i < |es| && es[i].CreateStep?;
    assert |Plains(es)| == |es| && |Plains(es')| == |es'| && Plains(es)[i] == Plains(es')[i];
    assert Plains(es[..i]) == Plains(es)[..i] && Plains(es'[..i]) == Plains(es')[..i];
    SameCreates(es[..i], es'[..i]);
    SameCreates(fs, fs');
    NumberedApart(es, fs, n);
    NumberedApart(fs', es', n);
    PossibleMeansDue(s, es + fs);
    PossibleMeansDue(s, fs' + es');
    assert (es + fs)[i] == es[i] && (fs' + es')[|fs'| + i] == es'[i];
    CreatedRowStays(s, es + fs, i);
    CreatedRowStays(s, fs' + es', |fs'| + i);
  }

  /**
   Two runs of different days or task types, numbered by one autoincrement column, leave the very same rows in
   both orders exactly when one of them creates none.
   */
  lemma SameRowsExactly(s: Store, es: seq<Effect>, fs: seq<Effect>, es': seq<Effect>, fs': seq<Effect>,
                        a: Scope, b: Scope, n: nat)
    requires PathsOwn(s) && a != b && AllInScope(s.dir, es, a) && AllInScope(s.dir, fs, b)
    requires SameRun(es, es') && SameRun(fs, fs') && Possible(s, es + fs) && Possible(s, fs' + es')
    requires NumberedFrom(es + fs, n) && NumberedFrom(fs' + es', n)
    ensures After(s, es + fs).steps == After(s, fs' + es').steps <==> Creates(es) == 0 || Creates(fs) == 0
  {
    hide Possible, After, NumberedFrom, WellFormed, PathsOwn;
    if Creates(es) > 0 && Creates(fs) > 0 {
      IdsDiffer(s, es, fs, es', fs', n);
    } else {
      NumberedApart(es, fs, n);
      NumberedApart(fs', es', n);
      SameCreates(fs, fs');
      SameCreates(es, es');
      SameNumbers(es, es', n, n + Creates(fs'));
      SameNumbers(fs, fs', n + Creates(es), n);
      OneAfterTheOther(es, fs);
      OneAfterTheOther(fs, es);
      MixesEither(fs, es, fs + es);
      FixedMixesAgree(s, es, fs, es + fs, fs + es, a, b);
    }
  }

  /** A run creates no row exactly when all its units had theirs, which can be seen before it starts. */
  lemma CreatesNothingExactly(s: Store, es: seq<Effect>)
    requires AllDue(s, es)
    ensures Creates(es) == 0 <==> After(s, es).steps.Keys == s.steps.Keys
  {
    hide AllDue, Apply, Due, After;
    SomeCreate(es);
    OldRows(s, es);
    if Creates(es) == 0 {
      forall k | k in After(s, es).steps
        ensures k in s.steps
      {
        if k !in s.steps {
          NewRows(s, es, k);
          assert false;
        }
      }
    } else {
      var m :| 0 <= m < |es| && es[m].CreateStep?;
      CreatedRowStays(s, es, m);
      NotYetThere(s, es, m);
    }
  }

  lemma NotYetThere(s: Store, es: seq<Effect>, m: nat)
    requires AllDue(s, es) && m < |es| && es[m].CreateStep?
    ensures es[m].key !in s.steps
  {
    hide Apply;
    DuePrefix(s, es, m);
    OldRows(s, es[..m]);
    assert Due(After(s, es[..m]), es[m]);
  }

  lemma TwoEffects(s: Store, e: Effect, f: Effect)
    requires Enabled(s, e) && Enabled(Apply(s, e), f)
    ensures Possible(s, [e] + [f]) && After(s, [e] + [f]) == Apply(Apply(s, e), f)
  {
    PossibleMore(s, [], e);
    assert [] + [e] == [e];
    PossibleMore(s, [e], f);
  }

  /** In particular two runs that create one row each leave other ids in the other order. */
  lemma IdsMayDiffer(s: Store, k: StepKey, l: StepKey, n: nat)
    requires UnitKey(k) && UnitKey(l) && k !in s.steps && l !in s.steps && ScopeOf(k) != ScopeOf(l)
    requires forall other :: other in s.steps ==> s.steps[other].id < n
    ensures var x, y := [CreateStep(k, n)] + [CreateStep(l, n + 1)], [CreateStep(l, n)] + [CreateStep(k, n + 1)];
            && Possible(s, x) && Possible(s, y)
            && k in After(s, x).steps && k in After(s, y).steps && After(s, x).steps[k] != After(s, y).steps[k]
  {
    TwoEffects(s, CreateStep(k, n), CreateStep(l, n + 1));
    TwoEffects(s, CreateStep(l, n), CreateStep(k, n + 1));
  }
}
