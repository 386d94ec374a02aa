/**
 HostServerService.execByHost: one worker per host runs its commands in order over one lazily opened
 connection; the workers of different hosts interleave freely.
 */
module HostServer {
  import opened Common

  datatype RemoteCommand = RemoteCommand(id: nat, hostId: nat)

  datatype CommandResult = CommandResult(id: nat, code: int, stdout: string, stderr: string)

  /** Refused: the failure was recorded and no connection came back. Threw: recording it failed too. */
  datatype ConnectOutcome = Connected | Refused | ConnectThrew(message: string)

  datatype RunOutcome = Ran(code: int, stdout: string, stderr: string) | RunThrew(message: string)

  datatype Outcome = Outcome(connect: ConnectOutcome, run: RunOutcome)

  /** What happens to each command, should it be tried. */
  type Environment = nat -> Outcome

  datatype Event =
    | Dialing(host: nat, id: nat)
    | Opened(host: nat, id: nat)
    | DialFailed(host: nat, id: nat)
    | Started(host: nat, id: nat)
    | Ended(host: nat, id: nat)
    | Disposed(host: nat, id: nat)

  // ---- grouping --------------------------------------------------------------

  /** Hosts in the order they are first seen. */
  function HostsInOrder(commands: seq<RemoteCommand>): seq<nat> {
    if commands == [] then []
    else
      var before := HostsInOrder(commands[..|commands| - 1]);
      var host := commands[|commands| - 1].hostId;
      if host in before then before else before + [host]
  }

  function GroupOf(commands: seq<RemoteCommand>, host: nat): seq<RemoteCommand> {
    Filter(commands, (c: RemoteCommand) => c.hostId == host)
  }

  function ConcatGroups(commands: seq<RemoteCommand>, hosts: seq<nat>): seq<RemoteCommand> {
    if hosts == [] then [] else GroupOf(commands, hosts[0]) + ConcatGroups(commands, hosts[1..])
  }

  /** The order in which results come back. */
  function ResultOrder(commands: seq<RemoteCommand>): seq<RemoteCommand> {
    ConcatGroups(commands, HostsInOrder(commands))
  }

  lemma {:induction false} HostsInOrderDistinct(commands: seq<RemoteCommand>)
    ensures Distinct(HostsInOrder(commands))
    ensures forall c :: c in commands ==> c.hostId in HostsInOrder(commands)
  {
    if commands != [] {
      HostsInOrderDistinct(commands[..|commands| - 1]);
      assert commands == commands[..|commands| - 1] + [commands[|commands| - 1]];
    }
  }

  lemma {:induction false} SplitByHost(commands: seq<RemoteCommand>, host: nat)
    ensures multiset(GroupOf(commands, host)) + multiset(Filter(commands, (c: RemoteCommand) => c.hostId != host))
            == multiset(commands)
  {
    if commands != [] {
      SplitByHost(commands[1..], host);
      assert commands == [commands[0]] + commands[1..];
    }
  }

  lemma {:induction false} GroupAfterRemoval(commands: seq<RemoteCommand>, host: nat, other: nat)
    requires host != other
    ensures GroupOf(Filter(commands, (c: RemoteCommand) => c.hostId != host), other) == GroupOf(commands, other)
  {
    if commands != [] {
      GroupAfterRemoval(commands[1..], host, other);
      var keep := (c: RemoteCommand) => c.hostId != host;
      if keep(commands[0]) {
        assert ([commands[0]] + Filter(commands[1..], keep))[1..] == Filter(commands[1..], keep);
      }
    }
  }

  lemma {:induction false} ConcatAfterRemoval(commands: seq<RemoteCommand>, host: nat, hosts: seq<nat>)
    requires host !in hosts
    ensures ConcatGroups(Filter(commands, (c: RemoteCommand) => c.hostId != host), hosts)
            == ConcatGroups(commands, hosts)
  {
    if hosts != [] {
      GroupAfterRemoval(commands, host, hosts[0]);
      ConcatAfterRemoval(commands, host, hosts[1..]);
    }
  }

  lemma {:induction false} ConcatIsPermutation(commands: seq<RemoteCommand>, hosts: seq<nat>)
    requires Distinct(hosts) && forall c :: c in commands ==> c.hostId in hosts
    ensures multiset(ConcatGroups(commands, hosts)) == multiset(commands)
    decreases hosts
  {
    if hosts == [] {
      FirstIsMember(commands);
    } else {
      var host := hosts[0];
      var keep := (c: RemoteCommand) => c.hostId != host;
      var others := Filter(commands, keep);
      forall c | c in others
        ensures c.hostId in hosts[1..]
      {
        InFilter(commands, keep, c);
        assert c.hostId in hosts;
      }
      assert forall i, j :: 0 <= i < j < |hosts[1..]| ==> hosts[1..][i] != hosts[1..][j];
      ConcatIsPermutation(others, hosts[1..]);
      assert host !in hosts[1..];
      ConcatAfterRemoval(commands, host, hosts[1..]);
      SplitByHost(commands, host);
    }
  }

  /** Every command is answered once: the result order is a permutation of the commands. */
  lemma ResultOrderIsPermutation(commands: seq<RemoteCommand>)
    ensures multiset(ResultOrder(commands)) == multiset(commands)
  {
    HostsInOrderDistinct(commands);
    ConcatIsPermutation(commands, HostsInOrder(commands));
  }

  // ---- one worker from start to end ----------------------------------------

  function Failed(c: RemoteCommand, message: string): CommandResult {
    CommandResult(c.id, 999, "", message)
  }

  function RunResult(c: RemoteCommand, env: Environment): CommandResult {
    match env(c.id).run
    case Ran(code, stdout, stderr) => CommandResult(c.id, code, stdout, stderr)
    case RunThrew(message) => Failed(c, message)
  }

  function DialResult(c: RemoteCommand, env: Environment): CommandResult {
    match env(c.id).connect
    case Connected => RunResult(c, env)
    case Refused => Failed(c, "ssh connect failed")
    case ConnectThrew(message) => Failed(c, message)
  }

  function ResultFor(c: RemoteCommand, env: Environment, open: bool): CommandResult {
    if open then RunResult(c, env) else DialResult(c, env)
  }

  /** Whether there is a connection after a command. */
  predicate OpenAfter(c: RemoteCommand, env: Environment, open: bool) {
    open || env(c.id).connect.Connected?
  }

  function EventsFor(host: nat, id: nat, env: Environment, open: bool): seq<Event> {
    if open then [Started(host, id), Ended(host, id)]
    else if env(id).connect.Connected? then [Dialing(host, id), Opened(host, id), Started(host, id), Ended(host, id)]
    else [Dialing(host, id), DialFailed(host, id)]
  }

  /** The answers of a worker that still has these commands before it. */
  function Results(group: seq<RemoteCommand>, env: Environment, open: bool): seq<CommandResult> {
    if group == [] then []
    else [ResultFor(group[0], env, open)] + Results(group[1..], env, OpenAfter(group[0], env, open))
  }

  /** What a worker does on its host, in order. */
  function Trace(host: nat, group: seq<RemoteCommand>, env: Environment, open: bool): seq<Event> {
    if group == [] then
      if open then [Disposed(host, 0)] else []
    else
      EventsFor(host, group[0].id, env, open) + Trace(host, group[1..], env, OpenAfter(group[0], env, open))
  }

  /** From the n-th command on. */
  lemma NextCommand(host: nat, group: seq<RemoteCommand>, n: nat, env: Environment, open: bool)
    requires n < |group|
    ensures Trace(host, group[n..], env, open)
            == EventsFor(host, group[n].id, env, open)
               + Trace(host, group[n + 1..], env, OpenAfter(group[n], env, open))
    ensures Results(group[n..], env, open)
            == [ResultFor(group[n], env, open)] + Results(group[n + 1..], env, OpenAfter(group[n], env, open))
  {
    assert group[n..][1..] == group[n + 1..] && group[n..][0] == group[n];
  }

  /** One answer per command, with its id, in order. */
  lemma {:induction false} OneResultPerCommand(group: seq<RemoteCommand>, env: Environment, open: bool)
    ensures |Results(group, env, open)| == |group|
    ensures forall i :: 0 <= i < |group| ==> Results(group, env, open)[i].id == group[i].id
  {
    if group != [] {
      OneResultPerCommand(group[1..], env, OpenAfter(group[0], env, open));
    }
  }

  /** Work begun and not yet over. */
  function InFlight(trace: seq<Event>): int {
    if trace == [] then 0
    else
      InFlight(trace[..|trace| - 1]) +
      match trace[|trace| - 1]
      case Dialing(_, _) => 1
      case Started(_, _) => 1
      case Opened(_, _) => -1
      case DialFailed(_, _) => -1
      case Ended(_, _) => -1
      case Disposed(_, _) => 0
  }

  function CountOpened(trace: seq<Event>): nat {
    if trace == [] then 0
    else CountOpened(trace[..|trace| - 1]) + if trace[|trace| - 1].Opened? then 1 else 0
  }

  function CountDisposed(trace: seq<Event>): nat {
    if trace == [] then 0
    else CountDisposed(trace[..|trace| - 1]) + if trace[|trace| - 1].Disposed? then 1 else 0
  }

  /** Nothing overlaps, at any time. */
  ghost predicate OneAtATime(trace: seq<Event>) {
    forall n :: 0 <= n <= |trace| ==> 0 <= InFlight(trace[..n]) <= 1
  }

  /** Once a connection is open no other is dialled. */
  ghost predicate DialsOnlyUntilOpen(trace: seq<Event>) {
    forall i, j :: 0 <= i < j < |trace| && trace[i].Opened? ==> !trace[j].Dialing? && !trace[j].Opened?
  }

  lemma {:induction false} CountersAppend(a: seq<Event>, b: seq<Event>)
    ensures InFlight(a + b) == InFlight(a) + InFlight(b)
    ensures CountOpened(a + b) == CountOpened(a) + CountOpened(b)
    ensures CountDisposed(a + b) == CountDisposed(a) + CountDisposed(b)
  {
    if b == [] {
      assert a + b == a;
    } else {
      assert (a + b)[..|a + b| - 1] == a + b[..|b| - 1];
      CountersAppend(a, b[..|b| - 1]);
    }
  }

  lemma OneAtATimeAppend(a: seq<Event>, b: seq<Event>)
    requires OneAtATime(a) && InFlight(a) == 0 && OneAtATime(b)
    ensures OneAtATime(a + b)
  {
    forall n | 0 <= n <= |a + b|
      ensures 0 <= InFlight((a + b)[..n]) <= 1
    {
      if n <= |a| {
        assert (a + b)[..n] == a[..n];
      } else {
        assert (a + b)[..n] == a + b[..n - |a|];
        CountersAppend(a, b[..n - |a|]);
      }
    }
  }

  /** A piece of work that begins and ends leaves nothing in flight. */
  lemma Bracket(start: Event, end: Event)
    requires (start.Dialing? || start.Started?) && (end.Opened? || end.DialFailed? || end.Ended?)
    ensures OneAtATime([start, end]) && InFlight([start, end]) == 0
    ensures CountOpened([start, end]) == (if end.Opened? then 1 else 0)
    ensures CountDisposed([start, end]) == 0
  {
    var one, two := [start], [start, end];
    assert one[..|one| - 1] == [] && two[..|two| - 1] == one;
    assert InFlight(one) == 1 && CountOpened(one) == 0 && CountDisposed(one) == 0;
    assert two[..0] == [] && two[..1] == one && two[..2] == two;
  }

  lemma {:induction false} OpenTraceNeverDials(host: nat, group: seq<RemoteCommand>, env: Environment)
    ensures forall e :: e in Trace(host, group, env, true) ==> !e.Dialing? && !e.Opened?
  {
    if group != [] {
      OpenTraceNeverDials(host, group[1..], env);
    }
  }

  /** A worker dials until its first success, keeps one thing in flight, and closes what it opened exactly once. */
  lemma {:induction false} TraceIsSafe(host: nat, group: seq<RemoteCommand>, env: Environment, open: bool)
    ensures OneAtATime(Trace(host, group, env, open)) && InFlight(Trace(host, group, env, open)) == 0
    ensures DialsOnlyUntilOpen(Trace(host, group, env, open))
    ensures CountDisposed(Trace(host, group, env, open))
            == CountOpened(Trace(host, group, env, open)) + if open then 1 else 0
    ensures CountDisposed(Trace(host, group, env, open)) <= 1
  {
    var trace := Trace(host, group, env, open);
    if group == [] {
      if open {
        assert trace[..0] == [] && trace[..1] == trace;
      } else {
        assert trace[..0] == [];
      }
    } else {
      var id, rest := group[0].id, group[1..];
      if open {
        TraceIsSafe(host, rest, env, true);
        Prepend([Started(host, id), Ended(host, id)], host, rest, env, true);
      } else if env(id).connect.Connected? {
        TraceIsSafe(host, rest, env, true);
        OpeningFirst(host, id, rest, env);
      } else {
        TraceIsSafe(host, rest, env, false);
        Prepend([Dialing(host, id), DialFailed(host, id)], host, rest, env, false);
      }
    }
  }

  /** A connection that opens, serves one command and then the rest. */
  lemma OpeningFirst(host: nat, id: nat, rest: seq<RemoteCommand>, env: Environment)
    requires OneAtATime(Trace(host, rest, env, true)) && InFlight(Trace(host, rest, env, true)) == 0
    requires CountOpened(Trace(host, rest, env, true)) == 0 && CountDisposed(Trace(host, rest, env, true)) == 1
    ensures var trace := [Dialing(host, id), Opened(host, id), Started(host, id), Ended(host, id)]
                         + Trace(host, rest, env, true);
            && OneAtATime(trace) && InFlight(trace) == 0 && DialsOnlyUntilOpen(trace)
            && CountOpened(trace) == 1 == CountDisposed(trace)
  {
    hide OneAtATime, InFlight, CountOpened, CountDisposed, Trace;
    var dial, serve := [Dialing(host, id), Opened(host, id)], [Started(host, id), Ended(host, id)];
    var tail := Trace(host, rest, env, true);
    OpenTraceNeverDials(host, rest, env);
    Bracket(Dialing(host, id), Opened(host, id));
    Bracket(Started(host, id), Ended(host, id));
    OneAtATimeAppend(serve, tail);
    CountersAppend(serve, tail);
    OneAtATimeAppend(dial, serve + tail);
    CountersAppend(dial, serve + tail);
    assert dial + (serve + tail) == [Dialing(host, id), Opened(host, id), Started(host, id), Ended(host, id)] + tail;
  }

  /** Work that opens nothing can come first. */
  lemma Prepend(work: seq<Event>, host: nat, rest: seq<RemoteCommand>, env: Environment, open: bool)
    requires |work| == 2 && (work[0].Dialing? || work[0].Started?) && (work[1].DialFailed? || work[1].Ended?)
    requires OneAtATime(Trace(host, rest, env, open)) && DialsOnlyUntilOpen(Trace(host, rest, env, open))
    ensures OneAtATime(work + Trace(host, rest, env, open))
    ensures DialsOnlyUntilOpen(work + Trace(host, rest, env, open))
    ensures InFlight(work + Trace(host, rest, env, open)) == InFlight(Trace(host, rest, env, open))
    ensures CountOpened(work + Trace(host, rest, env, open)) == CountOpened(Trace(host, rest, env, open))
    ensures CountDisposed(work + Trace(host, rest, env, open)) == CountDisposed(Trace(host, rest, env, open))
  {
    var trace := Trace(host, rest, env, open);
    assert work == [work[0], work[1]];
    Bracket(work[0], work[1]);
    OneAtATimeAppend(work, trace);
    CountersAppend(work, trace);
    forall i, j | 0 <= i < j < |work + trace| && (work + trace)[i].Opened?
      ensures !(work + trace)[j].Dialing? && !(work + trace)[j].Opened?
    {
      assert trace[i - 2].Opened? && (work + trace)[j] == trace[j - 2];
    }
  }

  // ---- the workers, interleaved ----------------------------------------------

  datatype Phase = Idle | Connecting | Running | Finished

  datatype Worker = Worker(
    host: nat, group: seq<RemoteCommand>, next: nat, phase: Phase, open: bool, results: seq<CommandResult>)

  datatype System = System(workers: seq<Worker>, log: seq<Event>)

  ghost predicate ValidWorker(w: Worker) {
    && w.next <= |w.group|
    && (w.phase == Connecting || w.phase == Running ==> w.next < |w.group|)
    && (w.phase == Connecting ==> !w.open)
    && (w.phase == Running ==> w.open)
    && (w.phase == Finished ==> w.next == |w.group|)
  }

  /** One turn of a worker: it runs from one await to the next. */
  function Turn(w: Worker, env: Environment): (Worker, seq<Event>)
    requires ValidWorker(w)
  {
    match w.phase
    case Finished => (w, [])
    case Idle =>
      if w.next == |w.group| then
        (w.(phase := Finished), if w.open then [Disposed(w.host, 0)] else [])
      else if w.open then
        (w.(phase := Running), [Started(w.host, w.group[w.next].id)])
      else
        (w.(phase := Connecting), [Dialing(w.host, w.group[w.next].id)])
    case Connecting =>
      var c := w.group[w.next];
      if env(c.id).connect.Connected? then
        (w.(phase := Running, open := true), [Opened(w.host, c.id), Started(w.host, c.id)])
      else
        (w.(phase := Idle, next := w.next + 1, results := w.results + [DialResult(c, env)]),
         [DialFailed(w.host, c.id)])
    case Running =>
      var c := w.group[w.next];
      (w.(phase := Idle, next := w.next + 1, results := w.results + [RunResult(c, env)]),
       [Ended(w.host, c.id)])
  }

  ghost predicate ValidSystem(s: System) {
    forall i :: 0 <= i < |s.workers| ==> ValidWorker(s.workers[i])
  }

  function Step(s: System, i: nat, env: Environment): (r: System)
    requires ValidSystem(s)
    ensures ValidSystem(r) && |r.workers| == |s.workers|
  {
    if i < |s.workers| then
      var (w, events) := Turn(s.workers[i], env);
      System(s.workers[i := w], s.log + events)
    else s
  }

  /** An interleaving is any sequence of turns. */
  function Interleave(s: System, schedule: seq<nat>, env: Environment): (r: System)
    requires ValidSystem(s)
    ensures ValidSystem(r) && |r.workers| == |s.workers|
  {
    if schedule == [] then s
    else Step(Interleave(s, schedule[..|schedule| - 1], env), schedule[|schedule| - 1], env)
  }

  function Start(commands: seq<RemoteCommand>): (s: System)
    ensures ValidSystem(s)
  {
    var hosts := HostsInOrder(commands);
    System(seq(|hosts|, i requires 0 <= i < |hosts| =>
             Worker(hosts[i], GroupOf(commands, hosts[i]), 0, Idle, false, [])), [])
  }

  ghost predicate AllFinished(s: System) {
    forall i :: 0 <= i < |s.workers| ==> s.workers[i].phase == Finished
  }

  /** What is left for a worker to do. */
  function Remaining(w: Worker, env: Environment): seq<Event>
    requires ValidWorker(w)
  {
    match w.phase
    case Finished => []
    case Idle => Trace(w.host, w.group[w.next..], env, w.open)
    case Connecting =>
      var id := w.group[w.next].id;
      if env(id).connect.Connected? then
        [Opened(w.host, id), Started(w.host, id), Ended(w.host, id)]
        + Trace(w.host, w.group[w.next + 1..], env, true)
      else
        [DialFailed(w.host, id)] + Trace(w.host, w.group[w.next + 1..], env, false)
    case Running =>
      [Ended(w.host, w.group[w.next].id)] + Trace(w.host, w.group[w.next + 1..], env, true)
  }

  function RemainingResults(w: Worker, env: Environment): seq<CommandResult>
    requires ValidWorker(w)
  {
    if w.phase == Finished then [] else Results(w.group[w.next..], env, w.open)
  }

  lemma NothingLeft(host: nat, env: Environment, open: bool)
    ensures Trace(host, [], env, open) == (if open then [Disposed(host, 0)] else []) && Results([], env, open) == []
  {
  }

  lemma TurnKeepsPromise(w: Worker, env: Environment)
    requires ValidWorker(w)
    ensures var (u, events) := Turn(w, env);
            && ValidWorker(u) && u.host == w.host && u.group == w.group
            && events + Remaining(u, env) == Remaining(w, env)
            && u.results + RemainingResults(u, env) == w.results + RemainingResults(w, env)
            && forall e :: e in events ==> e.host == w.host
  {
    hide Trace, Results, RunResult;
    if w.next < |w.group| {
      NextCommand(w.host, w.group, w.next, env, w.open);
      if w.phase == Running {
        var answer, rest := [RunResult(w.group[w.next], env)], Results(w.group[w.next + 1..], env, true);
        assert w.results + (answer + rest) == (w.results + answer) + rest;
      } else if w.phase == Connecting && !env(w.group[w.next].id).connect.Connected? {
        var answer, rest := [DialResult(w.group[w.next], env)], Results(w.group[w.next + 1..], env, false);
        assert w.results + (answer + rest) == (w.results + answer) + rest;
      } else if w.phase == Connecting {
        NextCommand(w.host, w.group, w.next, env, true);
      }
    } else {
      assert w.group[w.next..] == [];
      NothingLeft(w.host, env, w.open);
    }
  }

  /** The part of the log that concerns one host. */
  function HostLog(log: seq<Event>, host: nat): seq<Event> {
    Filter(log, (e: Event) => e.host == host)
  }

  /** A worker's share of the log and its results are the beginning of its lone run. */
  ghost predicate OnTrack(s: System, i: nat, commands: seq<RemoteCommand>, env: Environment)
    requires ValidSystem(s) && i < |s.workers| == |HostsInOrder(commands)|
  {
    var w, host := s.workers[i], HostsInOrder(commands)[i];
    w.host == host && w.group == GroupOf(commands, host) && Tracks(w, HostLog(s.log, host), env)
  }

  ghost predicate Tracks(w: Worker, log: seq<Event>, env: Environment)
    requires ValidWorker(w)
  {
    && log + Remaining(w, env) == Trace(w.host, w.group, env, false)
    && w.results + RemainingResults(w, env) == Results(w.group, env, false)
  }

  lemma TurnTracks(w: Worker, log: seq<Event>, env: Environment)
    requires ValidWorker(w) && Tracks(w, log, env)
    ensures var (u, events) := Turn(w, env); ValidWorker(u) && Tracks(u, log + events, env)
  {
    hide Turn, Remaining, RemainingResults, Trace, Results;
    var (u, events) := Turn(w, env);
    TurnKeepsPromise(w, env);
    assert log + events + Remaining(u, env) == log + (events + Remaining(u, env));
  }

  lemma {:induction false} HostLogOfOther(events: seq<Event>, host: nat)
    requires forall e :: e in events ==> e.host != host
    ensures HostLog(events, host) == []
  {
    if events != [] { HostLogOfOther(events[1..], host); }
  }

  lemma {:induction false} HostLogOfOwn(events: seq<Event>, host: nat)
    requires forall e :: e in events ==> e.host == host
    ensures HostLog(events, host) == events
  {
    if events != [] { HostLogOfOwn(events[1..], host); }
  }

  lemma HostLogGrows(log: seq<Event>, events: seq<Event>, host: nat, actor: nat)
    requires forall e :: e in events ==> e.host == actor
    ensures HostLog(log + events, host) == HostLog(log, host) + if actor == host then events else []
  {
    FilterAppend(log, events, (e: Event) => e.host == host);
    if actor == host {
      HostLogOfOwn(events, host);
    } else {
      HostLogOfOther(events, host);
    }
  }

  lemma TakerOnTrack(s: System, turn: nat, commands: seq<RemoteCommand>, env: Environment)
    requires ValidSystem(s) && turn < |s.workers| == |HostsInOrder(commands)|
    requires OnTrack(s, turn, commands, env)
    ensures OnTrack(Step(s, turn, env), turn, commands, env)
  {
    var w := s.workers[turn];
    var (u, events) := Turn(w, env);
    TurnTracks(w, HostLog(s.log, w.host), env);
    TurnKeepsPromise(w, env);
    HostLogGrows(s.log, events, w.host, w.host);
  }

  lemma OtherUntouched(s: System, turn: nat, i: nat, env: Environment)
    requires ValidSystem(s) && i < |s.workers| && turn < |s.workers|
    requires s.workers[turn].host != s.workers[i].host
    ensures Step(s, turn, env).workers[i] == s.workers[i]
    ensures HostLog(Step(s, turn, env).log, s.workers[i].host) == HostLog(s.log, s.workers[i].host)
  {
    var events := Turn(s.workers[turn], env).1;
    TurnKeepsPromise(s.workers[turn], env);
    HostLogGrows(s.log, events, s.workers[i].host, s.workers[turn].host);
    assert Step(s, turn, env).log == s.log + events;
  }

  lemma OtherOnTrack(s: System, r: System, i: nat, commands: seq<RemoteCommand>, env: Environment)
    requires ValidSystem(s) && ValidSystem(r) && i < |s.workers| == |r.workers| == |HostsInOrder(commands)|
    requires OnTrack(s, i, commands, env) && r.workers[i] == s.workers[i]
    requires HostLog(r.log, s.workers[i].host) == HostLog(s.log, s.workers[i].host)
    ensures OnTrack(r, i, commands, env)
  {
  }

  /** A turn keeps every worker on track. */
  lemma StepOnTrack(s: System, turn: nat, i: nat, commands: seq<RemoteCommand>, env: Environment)
    requires ValidSystem(s) && i < |s.workers| == |HostsInOrder(commands)| && turn < |s.workers|
    requires OnTrack(s, i, commands, env) && OnTrack(s, turn, commands, env)
    ensures OnTrack(Step(s, turn, env), i, commands, env)
  {
    if i == turn {
      TakerOnTrack(s, turn, commands, env);
    } else {
      HostsInOrderDistinct(commands);
      OtherUntouched(s, turn, i, env);
      OtherOnTrack(s, Step(s, turn, env), i, commands, env);
    }
  }

  /** Under every interleaving every worker stays on the track of its lone run. */
  lemma {:induction false} EveryWorkerOnTrack(
      commands: seq<RemoteCommand>, schedule: seq<nat>, env: Environment, i: nat)
    requires i < |HostsInOrder(commands)|
    ensures OnTrack(Interleave(Start(commands), schedule, env), i, commands, env)
    decreases |schedule|
  {
    if schedule == [] {
      var w := Start(commands).workers[i];
      assert w.group[0..] == w.group;
      assert HostLog([], w.host) + Remaining(w, env) == Remaining(w, env);
    } else {
      var before, turn := schedule[..|schedule| - 1], schedule[|schedule| - 1];
      EveryWorkerOnTrack(commands, before, env, i);
      if turn < |HostsInOrder(commands)| {
        EveryWorkerOnTrack(commands, before, env, turn);
        StepOnTrack(Interleave(Start(commands), before, env), turn, i, commands, env);
      }
    }
  }

  function FlattenResults(workers: seq<Worker>): seq<CommandResult> {
    if workers == [] then [] else workers[0].results + FlattenResults(workers[1..])
  }

  /** The answers in first-seen host order, and input order inside a host. */
  function FlatResults(commands: seq<RemoteCommand>, hosts: seq<nat>, env: Environment): seq<CommandResult> {
    if hosts == [] then []
    else Results(GroupOf(commands, hosts[0]), env, false) + FlatResults(commands, hosts[1..], env)
  }

  function ExpectedResults(commands: seq<RemoteCommand>, env: Environment): seq<CommandResult> {
    FlatResults(commands, HostsInOrder(commands), env)
  }

  /** The results carry the ids of the result order, one each. */
  lemma {:induction false} FlatResultIds(commands: seq<RemoteCommand>, hosts: seq<nat>, env: Environment)
    ensures |FlatResults(commands, hosts, env)| == |ConcatGroups(commands, hosts)|
    ensures forall i :: 0 <= i < |FlatResults(commands, hosts, env)| ==>
              FlatResults(commands, hosts, env)[i].id == ConcatGroups(commands, hosts)[i].id
  {
    if hosts != [] {
      OneResultPerCommand(GroupOf(commands, hosts[0]), env, false);
      FlatResultIds(commands, hosts[1..], env);
    }
  }

  /** When every host answers and every command returns 0, every result is 0. */
  ghost predicate AllGood(env: Environment) {
    forall id :: env(id).connect.Connected? && env(id).run.Ran? && env(id).run.code == 0
  }

  lemma {:induction false} GoodResults(group: seq<RemoteCommand>, env: Environment, open: bool)
    requires AllGood(env)
    ensures forall r :: r in Results(group, env, open) ==> r.code == 0
  {
    if group != [] {
      var id := group[0].id;
      assert env(id).connect.Connected? && env(id).run.Ran?;
      GoodResults(group[1..], env, OpenAfter(group[0], env, open));
    }
  }

  lemma {:induction false} GoodFlatResults(commands: seq<RemoteCommand>, hosts: seq<nat>, env: Environment)
    requires AllGood(env)
    ensures forall r :: r in FlatResults(commands, hosts, env) ==> r.code == 0
  {
    if hosts != [] {
      GoodResults(GroupOf(commands, hosts[0]), env, false);
      GoodFlatResults(commands, hosts[1..], env);
    }
  }

  // ---- what the answers say ----------------------------------------------------

  /** By the i-th command a connection to its host has been opened: by it or by one before it. */
  ghost predicate OpenedBy(order: seq<RemoteCommand>, i: nat, env: Environment)
    requires i < |order|
  {
    exists j :: 0 <= j <= i && order[j].hostId == order[i].hostId && env(order[j].id).connect.Connected?
  }

  /** What is answered to a command: its output if it ran, and otherwise code 999 with the reason. */
  predicate Answers(r: CommandResult, c: RemoteCommand, isOpen: bool, env: Environment) {
    && r.id == c.id
    && if isOpen then
         match env(c.id).run
         case Ran(code, stdout, stderr) => r.code == code && r.stdout == stdout && r.stderr == stderr
         case RunThrew(message) => r.code == 999 && r.stdout == "" && r.stderr == message
       else
         match env(c.id).connect
         case Connected => false
         case Refused => r.code == 999 && r.stdout == "" && r.stderr == "ssh connect failed"
         case ConnectThrew(message) => r.code == 999 && r.stdout == "" && r.stderr == message
  }

  /** The commands of each host in their order, and the hosts in the order in which they are first seen. */
  ghost predicate ByHost(order: seq<RemoteCommand>, commands: seq<RemoteCommand>) {
    && multiset(order) == multiset(commands)
    && (forall h :: GroupOf(order, h) == GroupOf(commands, h))
    && forall p, q :: 0 <= p < q < |order| && order[p].hostId != order[q].hostId ==>
         SeenFirst(commands, order[p].hostId, order[q].hostId)
  }

  /** The one host has a command before any of the other. */
  ghost predicate SeenFirst(commands: seq<RemoteCommand>, host: nat, other: nat) {
    exists i :: 0 <= i < |commands| && commands[i].hostId == host
                && forall j :: 0 <= j <= i ==> commands[j].hostId != other
  }

  ghost predicate AnswersAll(
      results: seq<CommandResult>, order: seq<RemoteCommand>, env: Environment)
  {
    |results| == |order| && forall i :: 0 <= i < |order| ==> Answers(results[i], order[i], OpenedBy(order, i, env), env)
  }

  /** Within one host the connection stays once it is open. */
  ghost predicate OpenWithin(group: seq<RemoteCommand>, i: nat, env: Environment, open: bool)
    requires i < |group|
  {
    open || exists j :: 0 <= j <= i && env(group[j].id).connect.Connected?
  }

  lemma {:induction false} GroupAnswers(group: seq<RemoteCommand>, env: Environment, open: bool, i: nat)
    requires i < |group| == |Results(group, env, open)|
    ensures Answers(Results(group, env, open)[i], group[i], OpenWithin(group, i, env, open), env)
  {
    OneResultPerCommand(group[1..], env, OpenAfter(group[0], env, open));
    if i > 0 {
      GroupAnswers(group[1..], env, OpenAfter(group[0], env, open), i - 1);
      OpenLater(group, i, env, open);
    }
  }

  lemma OpenLater(group: seq<RemoteCommand>, i: nat, env: Environment, open: bool)
    requires 0 < i < |group|
    ensures OpenWithin(group, i, env, open) <==> OpenWithin(group[1..], i - 1, env, OpenAfter(group[0], env, open))
  {
    assert forall j :: 0 <= j < |group[1..]| ==> group[1..][j] == group[j + 1];
    if OpenWithin(group, i, env, open) && !OpenAfter(group[0], env, open) {
      var j :| 0 <= j <= i && env(group[j].id).connect.Connected?;
      assert group[1..][j - 1] == group[j];
    }
  }

  lemma OfOneHost(commands: seq<RemoteCommand>, host: nat)
    ensures forall c :: c in GroupOf(commands, host) <==> c in commands && c.hostId == host
  {
    forall c: RemoteCommand
      ensures c in GroupOf(commands, host) <==> c in commands && c.hostId == host
    {
      InFilter(commands, (x: RemoteCommand) => x.hostId == host, c);
    }
  }

  lemma {:induction false} OfHosts(commands: seq<RemoteCommand>, hosts: seq<nat>)
    ensures forall c :: c in ConcatGroups(commands, hosts) ==> c in commands && c.hostId in hosts
  {
    if hosts != [] {
      OfOneHost(commands, hosts[0]);
      OfHosts(commands, hosts[1..]);
    }
  }

  /** Other hosts before it make no difference to whether a host's connection is open. */
  lemma OpenedInPart(a: seq<RemoteCommand>, b: seq<RemoteCommand>, host: nat, i: nat, env: Environment)
    requires i < |a| + |b| && (forall c :: c in a ==> c.hostId == host) && forall c :: c in b ==> c.hostId != host
    ensures i < |a| ==> (OpenedBy(a + b, i, env) <==> OpenWithin(a, i, env, false))
    ensures i >= |a| ==> (OpenedBy(a + b, i, env) <==> OpenedBy(b, i - |a|, env))
  {
    var all := a + b;
    if i < |a| {
      assert all[i] in a;
      assert forall j :: 0 <= j <= i ==> all[j] == a[j] && a[j] in a;
    } else {
      assert all[i] == b[i - |a|] && b[i - |a|] in b;
      assert forall j :: 0 <= j < |a| ==> all[j] == a[j] && a[j] in a;
      assert forall j :: 0 <= j < |b| ==> all[j + |a|] == b[j];
      if OpenedBy(all, i, env) {
        var j :| 0 <= j <= i && all[j].hostId == all[i].hostId && env(all[j].id).connect.Connected?;
        assert b[j - |a|] == all[j];
      }
    }
  }

  lemma AnswersOfParts(ra: seq<CommandResult>, a: seq<RemoteCommand>, rb: seq<CommandResult>, b: seq<RemoteCommand>,
                       host: nat, env: Environment)
    requires |ra| == |a| && AnswersAll(rb, b, env)
    requires forall i :: 0 <= i < |a| ==> Answers(ra[i], a[i], OpenWithin(a, i, env, false), env)
    requires (forall c :: c in a ==> c.hostId == host) && forall c :: c in b ==> c.hostId != host
    ensures AnswersAll(ra + rb, a + b, env)
  {
    hide Answers, OpenedBy, OpenWithin;
    forall i | 0 <= i < |a + b|
      ensures Answers((ra + rb)[i], (a + b)[i], OpenedBy(a + b, i, env), env)
    {
      OpenedInPart(a, b, host, i, env);
    }
  }

  lemma {:induction false} FlatAnswers(commands: seq<RemoteCommand>, hosts: seq<nat>, env: Environment)
    requires Distinct(hosts)
    ensures AnswersAll(FlatResults(commands, hosts, env), ConcatGroups(commands, hosts), env)
  {
    hide Answers, OpenWithin, OpenedBy, Results;
    if hosts != [] {
      var host, others := hosts[0], hosts[1..];
      var group, rest := GroupOf(commands, host), ConcatGroups(commands, others);
      assert forall i :: 0 <= i < |others| ==> others[i] == hosts[i + 1];
      FlatAnswers(commands, others, env);
      OneResultPerCommand(group, env, false);
      OfOneHost(commands, host);
      OfHosts(commands, others);
      forall i | 0 <= i < |group|
        ensures Answers(Results(group, env, false)[i], group[i], OpenWithin(group, i, env, false), env)
      {
        GroupAnswers(group, env, false, i);
      }
      hide AnswersAll, GroupOf;
      AnswersOfParts(Results(group, env, false), group, FlatResults(commands, others, env), rest, host, env);
    }
  }

  lemma {:induction false} GroupOfConcat(commands: seq<RemoteCommand>, hosts: seq<nat>, h: nat)
    requires Distinct(hosts)
    ensures GroupOf(ConcatGroups(commands, hosts), h) == if h in hosts then GroupOf(commands, h) else []
  {
    if hosts != [] {
      assert forall i, j :: 0 <= i < j < |hosts[1..]| ==> hosts[1..][i] != hosts[1..][j];
      GroupOfConcat(commands, hosts[1..], h);
      FilterAppend(GroupOf(commands, hosts[0]), ConcatGroups(commands, hosts[1..]),
                   (c: RemoteCommand) => c.hostId == h);
      GroupOfGroup(commands, hosts[0], h);
      assert forall i :: 0 <= i < |hosts[1..]| ==> hosts[1..][i] != hosts[0];
    }
  }

  lemma {:induction false} GroupOfGroup(commands: seq<RemoteCommand>, host: nat, h: nat)
    ensures GroupOf(GroupOf(commands, host), h) == if h == host then GroupOf(commands, h) else []
  {
    if commands != [] {
      GroupOfGroup(commands[1..], host, h);
      if commands[0].hostId == host {
        assert ([commands[0]] + GroupOf(commands[1..], host))[1..] == GroupOf(commands[1..], host);
      }
    }
  }

  lemma {:induction false} HostsFirstSeen(commands: seq<RemoteCommand>, p: nat, q: nat)
    requires p < q < |HostsInOrder(commands)|
    ensures SeenFirst(commands, HostsInOrder(commands)[p], HostsInOrder(commands)[q])
  {
    var n := |commands| - 1;
    var before, hosts := commands[..n], HostsInOrder(commands);
    HostsInOrderDistinct(before);
    if q < |HostsInOrder(before)| {
      HostsFirstSeen(before, p, q);
      var i :| 0 <= i < n && before[i].hostId == hosts[p] && forall j :: 0 <= j <= i ==> before[j].hostId != hosts[q];
      assert commands[i] == before[i];
    } else {
      HostIsSeen(before, hosts[p]);
      var i :| 0 <= i < n && before[i].hostId == hosts[p];
      assert forall j :: 0 <= j <= i ==> commands[j] == before[j] && before[j] in before;
    }
  }

  lemma {:induction false} HostIsSeen(commands: seq<RemoteCommand>, host: nat)
    requires host in HostsInOrder(commands)
    ensures exists i :: 0 <= i < |commands| && commands[i].hostId == host
  {
    var n := |commands| - 1;
    if host in HostsInOrder(commands[..n]) {
      HostIsSeen(commands[..n], host);
      var i :| 0 <= i < n && commands[..n][i].hostId == host;
      assert commands[i].hostId == host;
    } else {
      assert commands[n].hostId == host;
    }
  }

  /** Commands of a later group come from a later host. */
  lemma {:induction false} LaterHost(commands: seq<RemoteCommand>, hosts: seq<nat>, p: nat, q: nat)
    requires Distinct(hosts) && p < q < |ConcatGroups(commands, hosts)|
    requires ConcatGroups(commands, hosts)[p].hostId != ConcatGroups(commands, hosts)[q].hostId
    ensures exists a, b :: 0 <= a < b < |hosts| && hosts[a] == ConcatGroups(commands, hosts)[p].hostId
                           && hosts[b] == ConcatGroups(commands, hosts)[q].hostId
  {
    var group, rest := GroupOf(commands, hosts[0]), ConcatGroups(commands, hosts[1..]);
    assert forall i, j :: 0 <= i < j < |hosts[1..]| ==> hosts[1..][i] != hosts[1..][j];
    OfOneHost(commands, hosts[0]);
    OfHosts(commands, hosts[1..]);
    assert forall i :: 0 <= i < |group| ==> group[i] in group;
    if p >= |group| {
      LaterHost(commands, hosts[1..], p - |group|, q - |group|);
      var a, b :| 0 <= a < b < |hosts[1..]| && hosts[1..][a] == rest[p - |group|].hostId
                  && hosts[1..][b] == rest[q - |group|].hostId;
      assert hosts[a + 1] == hosts[1..][a] && hosts[b + 1] == hosts[1..][b];
    } else {
      assert rest[q - |group|] in rest;
      var b :| 0 <= b < |hosts[1..]| && hosts[1..][b] == rest[q - |group|].hostId;
      assert hosts[0] == group[p].hostId && hosts[b + 1] == hosts[1..][b];
    }
  }

  /** The result order is that of the commands, grouped by host. */
  lemma ResultOrderByHost(commands: seq<RemoteCommand>)
    ensures ByHost(ResultOrder(commands), commands)
  {
    var hosts, order := HostsInOrder(commands), ResultOrder(commands);
    HostsInOrderDistinct(commands);
    ResultOrderIsPermutation(commands);
    forall h: nat
      ensures GroupOf(order, h) == GroupOf(commands, h)
    {
      GroupOfConcat(commands, hosts, h);
      if h !in hosts {
        OfOneHost(commands, h);
        FirstIsMember(GroupOf(commands, h));
      }
    }
    forall p, q | 0 <= p < q < |order| && order[p].hostId != order[q].hostId
      ensures SeenFirst(commands, order[p].hostId, order[q].hostId)
    {
      LaterHost(commands, hosts, p, q);
      var a, b :| 0 <= a < b < |hosts| && hosts[a] == order[p].hostId && hosts[b] == order[q].hostId;
      HostsFirstSeen(commands, a, b);
    }
  }

  /** Each command is answered by what happened to it. */
  lemma AnswersExactly(commands: seq<RemoteCommand>, env: Environment)
    ensures AnswersAll(ExpectedResults(commands, env), ResultOrder(commands), env)
  {
    HostsInOrderDistinct(commands);
    FlatAnswers(commands, HostsInOrder(commands), env);
  }

  // ---- one answer for every interleaving ---------------------------------------

  lemma {:induction false} FlattenFinished(
      workers: seq<Worker>, commands: seq<RemoteCommand>, hosts: seq<nat>, env: Environment)
    requires |workers| == |hosts|
    requires forall i :: 0 <= i < |hosts| ==>
               workers[i].results == Results(GroupOf(commands, hosts[i]), env, false)
    ensures FlattenResults(workers) == FlatResults(commands, hosts, env)
  {
    if hosts != [] {
      FlattenFinished(workers[1..], commands, hosts[1..], env);
    }
  }

  /** When all workers are done the answer does not depend on how they interleaved. */
  lemma InterleavingIsInvisible(commands: seq<RemoteCommand>, schedule: seq<nat>, env: Environment)
    ensures var s := Interleave(Start(commands), schedule, env);
            AllFinished(s) ==> FlattenResults(s.workers) == ExpectedResults(commands, env)
  {
    var s := Interleave(Start(commands), schedule, env);
    var hosts := HostsInOrder(commands);
    if AllFinished(s) {
      forall i | 0 <= i < |hosts|
        ensures s.workers[i].results == Results(GroupOf(commands, hosts[i]), env, false)
      {
        EveryWorkerOnTrack(commands, schedule, env, i);
        assert s.workers[i].results + [] == s.workers[i].results;
      }
      FlattenFinished(s.workers, commands, hosts, env);
    }
  }

  lemma SafePrefix(trace: seq<Event>, whole: seq<Event>)
    requires trace <= whole && OneAtATime(whole) && DialsOnlyUntilOpen(whole)
    ensures OneAtATime(trace) && DialsOnlyUntilOpen(trace)
  {
    forall n | 0 <= n <= |trace|
      ensures 0 <= InFlight(trace[..n]) <= 1
    {
      assert trace[..n] == whole[..n];
    }
  }

  /**
   In every reachable state of every interleaving, on every host: at most one command is in flight,
   nothing is dialled after a connection opened, and once the host's worker is done each opened
   connection (there is at most one) has been disposed exactly once.
   */
  lemma EveryHostIsSafe(commands: seq<RemoteCommand>, schedule: seq<nat>, env: Environment, i: nat)
    requires i < |HostsInOrder(commands)|
    ensures
      var s := Interleave(Start(commands), schedule, env);
      var log := HostLog(s.log, HostsInOrder(commands)[i]);
      && OneAtATime(log)
      && DialsOnlyUntilOpen(log)
      && (s.workers[i].phase == Finished ==> CountDisposed(log) == CountOpened(log) <= 1)
  {
    EveryWorkerOnTrack(commands, schedule, env, i);
    var s, host := Interleave(Start(commands), schedule, env), HostsInOrder(commands)[i];
    var log, whole := HostLog(s.log, host), Trace(host, GroupOf(commands, host), env, false);
    TraceIsSafe(host, GroupOf(commands, host), env, false);
    SafePrefix(log, whole);
    if s.workers[i].phase == Finished {
      assert log + [] == log;
    }
  }

  // ---- the code ------------------------------------------------------------

  lemma GroupOfOneMore(before: seq<RemoteCommand>, c: RemoteCommand, host: nat)
    ensures GroupOf(before + [c], host) == GroupOf(before, host) + if c.hostId == host then [c] else []
  {
    FilterAppend(before, [c], (x: RemoteCommand) => x.hostId == host);
    assert [c][1..] == [];
  }

  /** Commands grouped by host, hosts in first-seen order as a JavaScript Map keeps them. */
  method GroupByHost(commands: seq<RemoteCommand>) returns (hosts: seq<nat>, groups: map<nat, seq<RemoteCommand>>)
    ensures hosts == HostsInOrder(commands)
    ensures forall h :: h in groups <==> h in hosts
    ensures forall h :: h in groups ==> groups[h] == GroupOf(commands, h)
  {
    hosts, groups := [], map[];
    for n := 0 to |commands|
      invariant hosts == HostsInOrder(commands[..n])
      invariant forall h :: h in groups <==> h in hosts
      invariant forall h :: h in groups ==> groups[h] == GroupOf(commands[..n], h)
      invariant forall h: nat :: h !in groups ==> GroupOf(commands[..n], h) == []
    {
      hide GroupOf;
      var command := commands[n];
      assert commands[..n + 1] == commands[..n] + [command];
      forall h: nat
        ensures GroupOf(commands[..n + 1], h)
                == GroupOf(commands[..n], h) + if command.hostId == h then [command] else []
      {
        GroupOfOneMore(commands[..n], command, h);
      }
      var list := if command.hostId in groups then groups[command.hostId] else [];
      if command.hostId !in groups {
        hosts := hosts + [command.hostId];
      }
      groups := groups[command.hostId := list + [command]];
    }
    assert commands[..|commands|] == commands;
  }

  /** The body of one host's worker, run alone; the pool holds the connection once it is open. */
  method RunGroup(host: nat, group: seq<RemoteCommand>, env: Environment)
    returns (result: seq<CommandResult>, trace: seq<Event>)
    ensures result == Results(group, env, false) && |result| == |group|
    ensures forall i :: 0 <= i < |group| ==> Answers(result[i], group[i], OpenWithin(group, i, env, false), env)
    ensures trace == Trace(host, group, env, false)
  {
    hide Trace, Results, RunResult, Answers, OpenWithin;
    result, trace := [], [];
    var open := false;
    assert group[0..] == group;
    for n := 0 to |group|
      invariant result + Results(group[n..], env, open) == Results(group, env, false)
      invariant trace + Trace(host, group[n..], env, open) == Trace(host, group, env, false)
    {
      NextCommand(host, group, n, env, open);
      ghost var events, answer := EventsFor(host, group[n].id, env, open), ResultFor(group[n], env, open);
      ghost var laterEvents := Trace(host, group[n + 1..], env, OpenAfter(group[n], env, open));
      ghost var laterResults := Results(group[n + 1..], env, OpenAfter(group[n], env, open));
      assert trace + (events + laterEvents) == (trace + events) + laterEvents;
      assert result + ([answer] + laterResults) == (result + [answer]) + laterResults;
      ghost var before := trace;
      var id := group[n].id;
      if !open {
        trace := trace + [Dialing(host, id)];
        match env(id).connect {
          case Connected =>
            trace := trace + [Opened(host, id)];
            open := true;
          case Refused =>
            trace := trace + [DialFailed(host, id)];
            assert trace == before + events;
            result := result + [Failed(group[n], "ssh connect failed")];
            continue;
          case ConnectThrew(message) =>
            trace := trace + [DialFailed(host, id)];
            assert trace == before + events;
            result := result + [Failed(group[n], message)];
            continue;
        }
      }
      trace := trace + [Started(host, id), Ended(host, id)];
      assert trace == before + events;
      result := result + [RunResult(group[n], env)];
    }
    assert group[|group|..] == [];
    NothingLeft(host, env, open);
    assert result + [] == result && trace + [] == trace;
    if open {
      trace := trace + [Disposed(host, 0)];
    }
    OneResultPerCommand(group, env, false);
    forall i | 0 <= i < |group|
      ensures Answers(result[i], group[i], OpenWithin(group, i, env, false), env)
    {
      GroupAnswers(group, env, false, i);
    }
  }

  /** How many turns a worker still needs, at most. */
  function TurnsLeft(w: Worker): nat
    requires ValidWorker(w)
  {
    match w.phase
    case Finished => 0
    case Idle => 3 * (|w.group| - w.next) + 1
    case Connecting => 3 * (|w.group| - w.next)
    case Running => 3 * (|w.group| - w.next) - 1
  }

  function AllTurnsLeft(workers: seq<Worker>): nat
    requires forall i :: 0 <= i < |workers| ==> ValidWorker(workers[i])
  {
    if workers == [] then 0 else TurnsLeft(workers[0]) + AllTurnsLeft(workers[1..])
  }

  lemma {:induction false} TurnsLeftDrop(workers: seq<Worker>, i: nat, w: Worker)
    requires i < |workers| && ValidWorker(w) && forall j :: 0 <= j < |workers| ==> ValidWorker(workers[j])
    requires TurnsLeft(w) < TurnsLeft(workers[i])
    ensures AllTurnsLeft(workers[i := w]) < AllTurnsLeft(workers)
  {
    if i == 0 {
      assert workers[i := w][1..] == workers[1..];
    } else {
      assert workers[i := w][1..] == workers[1..][i - 1 := w];
      TurnsLeftDrop(workers[1..], i - 1, w);
    }
  }

  /** The hosts run side by side: at each point any unfinished worker may take the next turn. */
  method ExecByHost(commands: seq<RemoteCommand>, env: Environment)
    returns (results: seq<CommandResult>, ghost order: seq<RemoteCommand>, ghost schedule: seq<nat>)
    ensures results == ExpectedResults(commands, env) && order == ResultOrder(commands)
    ensures ByHost(order, commands) && AnswersAll(results, order, env)
    ensures AllFinished(Interleave(Start(commands), schedule, env))
  {
    var hosts, groups := GroupByHost(commands);
    var s := System(seq(|hosts|, i requires 0 <= i < |hosts| =>
                          Worker(hosts[i], groups[hosts[i]], 0, Idle, false, [])), []);
    assert s.workers == Start(commands).workers;
    schedule := [];
    while exists i :: 0 <= i < |s.workers| && s.workers[i].phase != Finished
      invariant ValidSystem(s) && s == Interleave(Start(commands), schedule, env)
      decreases AllTurnsLeft(s.workers)
    {
      var i :| 0 <= i < |s.workers| && s.workers[i].phase != Finished;
      TurnsLeftDrop(s.workers, i, Turn(s.workers[i], env).0);
      s := Step(s, i, env);
      assert (schedule + [i])[..|schedule + [i]| - 1] == schedule;
      schedule := schedule + [i];
    }
    InterleavingIsInvisible(commands, schedule, env);
    results := FlattenResults(s.workers);
    order := ResultOrder(commands);
    AnswersExactly(commands, env);
    ResultOrderByHost(commands);
  }
}
