/** Cores and ports over one execution of the runtime (capsule/src/runtime):
    the master thread and one background thread for each other core, as steps
    that interleave in any order. */
module Lifecycle {
  datatype Config = Config(cores: set<nat>, master: nat, ports: nat)
  {
    /** The cores that have a thread of their own, and handles for it. */
    function Background(): set<nat> {
      cores - {master}
    }
  }

  datatype Event =
    | PortStarted(port: nat)
    | Unparked(core: nat)
    | TaskRan(core: nat)
    | ShutDown(core: nat)
    | Exited(core: nat)
    | Joined(core: nat)
    | PortStopped(port: nat)

  /** Where `execute` is; the maps of cores are walked in any order. */
  datatype Phase =
    | InstallingKni
    | StartingPorts(next: nat)
    | Unparking(todo: set<nat>)
    | Waiting
    | ShuttingDown(todo: set<nat>)
    | Joining(core: nat, todo: set<nat>)
    | StoppingPorts(next: nat)
    | Done
    | Failed

  /** Each background thread is in one of the four sets. A core's shutdown
      trigger is taken once, and then its signal is sent. */
  datatype State = State(
    phase: Phase,
    starting: set<nat>,
    parked: set<nat>,
    running: set<nat>,
    exited: set<nat>,
    triggers: set<nat>,
    signalled: set<nat>,
    log: seq<Event>)

  datatype Step =
    | InstallKni
    | StartPort
    | FinishStart
    | Unpark(core: nat)
    | SkipUnpark(core: nat)
    | FinishUnpark
    | FinishWait
    | Trigger(core: nat)
    | SkipTrigger(core: nat)
    | Join
    | FinishShutdown
    | StopPort
    | FinishStop
    | Fail
    | Park(core: nat)
    | RunTask(core: nat)
    | RunMasterTask
    | Exit(core: nat)

  predicate Init(c: Config, s: State) {
    && c.master in c.cores
    && s == State(InstallingKni, c.Background(), {}, {}, {}, c.Background(), {}, [])
  }

  /** Sending on the zero-capacity channel and receiving from it are one step
      of both threads. */
  predicate Next(c: Config, s: State, s': State, step: Step) {
    match step
    // the master thread
    case InstallKni =>
      s.phase.InstallingKni? && s' == s.(phase := StartingPorts(0))
    case StartPort =>
      s.phase.StartingPorts? && s.phase.next < c.ports &&
      s' == s.(phase := StartingPorts(s.phase.next + 1), log := s.log + [PortStarted(s.phase.next)])
    case FinishStart =>
      s.phase == StartingPorts(c.ports) && s' == s.(phase := Unparking(c.cores))
    case Unpark(k) =>
      s.phase.Unparking? && k in s.phase.todo && k in s.parked &&
      s' == s.(phase := Unparking(s.phase.todo - {k}), parked := s.parked - {k}, running := s.running + {k},
               log := s.log + [Unparked(k)])
    case SkipUnpark(k) =>
      s.phase.Unparking? && k in s.phase.todo && k !in c.Background() &&
      s' == s.(phase := Unparking(s.phase.todo - {k}))
    case FinishUnpark =>
      s.phase == Unparking({}) && s' == s.(phase := Waiting)
    case FinishWait =>
      s.phase.Waiting? && s' == s.(phase := ShuttingDown(c.cores))
    case Trigger(k) =>
      s.phase.ShuttingDown? && k in s.phase.todo && k in s.triggers &&
      s' == s.(phase := Joining(k, s.phase.todo - {k}), triggers := s.triggers - {k},
               signalled := s.signalled + {k}, log := s.log + [ShutDown(k)])
    case SkipTrigger(k) =>
      s.phase.ShuttingDown? && k in s.phase.todo && k !in s.triggers &&
      s' == s.(phase := ShuttingDown(s.phase.todo - {k}))
    case Join =>
      s.phase.Joining? && s.phase.core in s.exited &&
      s' == s.(phase := ShuttingDown(s.phase.todo), log := s.log + [Joined(s.phase.core)])
    case FinishShutdown =>
      s.phase == ShuttingDown({}) && s' == s.(phase := StoppingPorts(0))
    case StopPort =>
      s.phase.StoppingPorts? && s.phase.next < c.ports &&
      s' == s.(phase := StoppingPorts(s.phase.next + 1), log := s.log + [PortStopped(s.phase.next)])
    case FinishStop =>
      s.phase == StoppingPorts(c.ports) && s' == s.(phase := Done)
    case Fail =>
      (s.phase.InstallingKni? || s.phase.Waiting? || (s.phase.StartingPorts? && s.phase.next < c.ports)) &&
      s' == s.(phase := Failed)
    case RunMasterTask =>
      s.phase.Waiting? && s' == s.(log := s.log + [TaskRan(c.master)])
    // the background threads
    case Park(k) =>
      k in s.starting && s' == s.(starting := s.starting - {k}, parked := s.parked + {k})
    case RunTask(k) =>
      k in s.running && s' == s.(log := s.log + [TaskRan(k)])
    case Exit(k) =>
      k in s.running && k in s.signalled &&
      s' == s.(running := s.running - {k}, exited := s.exited + {k}, log := s.log + [Exited(k)])
  }

  ghost predicate Steps(c: Config, s: State, s': State) {
    exists step :: Next(c, s, s', step)
  }

  /** Any interleaving, from the start. */
  ghost predicate Run(c: Config, states: seq<State>) {
    && states != [] && Init(c, states[0])
    && forall i | 0 <= i < |states| - 1 :: Steps(c, states[i], states[i + 1])
  }

  // ---- safety ----

  ghost predicate AllStarted(c: Config, log: seq<Event>) {
    forall p: nat | p < c.ports :: PortStarted(p) in log
  }

  /** What must and must not have happened before an event. */
  ghost predicate Allowed(c: Config, log: seq<Event>, e: Event) {
    match e
    case PortStarted(p) =>
      && p < c.ports && e !in log
      && (forall q: nat | q < p :: PortStarted(q) in log)
      && (forall k: nat :: Unparked(k) !in log)
    case Unparked(k) =>
      k in c.Background() && e !in log && AllStarted(c, log)
    case TaskRan(k) =>
      && k in c.cores
      && AllStarted(c, log)
      && (k in c.Background() ==> Unparked(k) in log && Exited(k) !in log && Joined(k) !in log)
      && (forall p: nat :: PortStopped(p) !in log)
    case ShutDown(k) =>
      e !in log && Unparked(k) in log
    case Exited(k) =>
      e !in log && ShutDown(k) in log
    case Joined(k) =>
      e !in log && Exited(k) in log
    case PortStopped(p) =>
      && p < c.ports && e !in log
      && (forall q: nat | q < p :: PortStopped(q) in log)
      && (forall k | k in c.Background() :: Joined(k) in log)
  }

  ghost predicate Safe(c: Config, log: seq<Event>) {
    forall i | 0 <= i < |log| :: Allowed(c, log[..i], log[i])
  }

  lemma SafeAppend(c: Config, log: seq<Event>, e: Event)
    requires Safe(c, log) && Allowed(c, log, e)
    ensures Safe(c, log + [e])
  {
    var log' := log + [e];
    forall i | 0 <= i < |log'| ensures Allowed(c, log'[..i], log'[i]) {
      assert log'[..i] == if i < |log| then log[..i] else log;
    }
  }

  /** The threads, whatever the master is doing. */
  ghost predicate Threads(c: Config, s: State) {
    && c.master in c.cores
    && s.starting + s.parked + s.running + s.exited == c.Background()
    && s.starting !! s.parked !! s.running !! s.exited
    && s.triggers !! s.signalled && s.triggers + s.signalled == c.Background()
  }

  /** What has been logged, whatever the master is doing. */
  ghost predicate Logged(c: Config, s: State) {
    && (forall k: nat :: Unparked(k) in s.log <==> k in s.running + s.exited)
    && (forall k: nat :: ShutDown(k) in s.log <==> k in s.signalled)
    && (forall k: nat :: Exited(k) in s.log <==> k in s.exited)
    && (forall k: nat :: Joined(k) in s.log ==> k in s.exited && k in s.signalled)
    && (s.running + s.exited != {} ==> AllStarted(c, s.log))
    && (forall p: nat :: PortStopped(p) in s.log ==> s.phase.StoppingPorts? || s.phase.Done?)
  }

  ghost predicate Parked(c: Config, s: State) {
    s.starting + s.parked == c.Background() && s.signalled == {}
  }

  ghost predicate AllUnparked(c: Config, s: State) {
    s.starting == {} && s.parked == {} && AllStarted(c, s.log)
  }

  /** What the place of the master in `execute` tells. */
  ghost predicate Place(c: Config, s: State) {
    match s.phase
    case InstallingKni =>
      Parked(c, s) && forall p: nat :: PortStarted(p) !in s.log
    case StartingPorts(n) =>
      Parked(c, s) && n <= c.ports && forall p: nat :: PortStarted(p) in s.log <==> p < n
    case Unparking(todo) =>
      todo <= c.cores && todo * c.Background() == s.starting + s.parked && s.signalled == {} && AllStarted(c, s.log)
    case Waiting =>
      AllUnparked(c, s) && s.signalled == {}
    case ShuttingDown(todo) =>
      AllUnparked(c, s) && todo <= c.cores && s.triggers == todo * c.Background() &&
      forall k | k in s.signalled :: Joined(k) in s.log
    case Joining(core, todo) =>
      AllUnparked(c, s) && todo <= c.cores && s.triggers == todo * c.Background() &&
      core in s.signalled && Joined(core) !in s.log && core !in todo &&
      forall k | k in s.signalled && k != core :: Joined(k) in s.log
    case StoppingPorts(n) =>
      AllUnparked(c, s) && s.triggers == {} && n <= c.ports &&
      (forall k | k in c.Background() :: Joined(k) in s.log) &&
      forall p: nat :: PortStopped(p) in s.log <==> p < n
    case Done =>
      AllUnparked(c, s) && s.triggers == {} &&
      (forall k | k in c.Background() :: Joined(k) in s.log) &&
      forall p: nat :: PortStopped(p) in s.log <==> p < c.ports
    case Failed => true
  }

  ghost predicate Inv(c: Config, s: State) {
    Threads(c, s) && Logged(c, s) && Place(c, s) && Safe(c, s.log)
  }

  lemma InitKeeps(c: Config, s: State)
    requires Init(c, s)
    ensures Inv(c, s)
  {
  }

  lemma NextKeeps(c: Config, s: State, s': State, step: Step)
    requires Inv(c, s) && Next(c, s, s', step)
    ensures Inv(c, s')
  {
    ThreadsKept(c, s, s', step);
    LoggedKept(c, s, s', step);
    PlaceKept(c, s, s', step);
    LogGrows(c, s, s', step);
    hide *;
    if s'.log != s.log {
      var e := s'.log[|s.log|];
      EventAllowed(c, s, s', step, e);
      SafeAppend(c, s.log, e);
    }
    Together(c, s');
  }

  lemma Together(c: Config, s: State)
    requires Threads(c, s) && Logged(c, s) && Place(c, s) && Safe(c, s.log)
    ensures Inv(c, s)
  {
  }

  lemma LogGrows(c: Config, s: State, s': State, step: Step)
    requires Inv(c, s) && Next(c, s, s', step)
    ensures s'.log == s.log || (|s'.log| == |s.log| + 1 && s'.log == s.log + [s'.log[|s.log|]])
    ensures Safe(c, s.log)
  {
  }

  lemma EventAllowed(c: Config, s: State, s': State, step: Step, e: Event)
    requires Inv(c, s) && Next(c, s, s', step) && s'.log == s.log + [e]
    ensures Allowed(c, s.log, e)
  {
    hide Safe;
    assert e == s'.log[|s.log|];
  }

  lemma ThreadsKept(c: Config, s: State, s': State, step: Step)
    requires Inv(c, s) && Next(c, s, s', step)
    ensures Threads(c, s')
  {
  }

  lemma LoggedKept(c: Config, s: State, s': State, step: Step)
    requires Inv(c, s) && Next(c, s, s', step)
    ensures Logged(c, s')
  {
    hide Inv, Next, Logged;
    LoggedHolds(c, s);
    match step
    case Unpark(k) => UnparkLogged(c, s, s', k);
    case Trigger(k) => TriggerLogged(c, s, s', k);
    case Exit(k) => ExitLogged(c, s, s', k);
    case Join => JoinLogged(c, s, s');
    case StopPort => StopLogged(c, s, s');
    case StartPort => UntrackedLogged(c, s, s', step);
    case RunTask(_) => UntrackedLogged(c, s, s', step);
    case RunMasterTask => UntrackedLogged(c, s, s', step);
    case _ => QuietLogged(c, s, s', step);
  }

  lemma LoggedHolds(c: Config, s: State)
    requires Inv(c, s)
    ensures Logged(c, s) && Threads(c, s) && Place(c, s)
  {
  }

  lemma UnparkLogged(c: Config, s: State, s': State, k: nat)
    requires Logged(c, s) && Threads(c, s) && Place(c, s) && Next(c, s, s', Unpark(k))
    ensures Logged(c, s')
  {
  }

  lemma TriggerLogged(c: Config, s: State, s': State, k: nat)
    requires Logged(c, s) && Next(c, s, s', Trigger(k))
    ensures Logged(c, s')
  {
  }

  lemma ExitLogged(c: Config, s: State, s': State, k: nat)
    requires Logged(c, s) && Next(c, s, s', Exit(k))
    ensures Logged(c, s')
  {
  }

  lemma JoinLogged(c: Config, s: State, s': State)
    requires Logged(c, s) && Place(c, s) && Next(c, s, s', Join)
    ensures Logged(c, s')
  {
  }

  lemma StopLogged(c: Config, s: State, s': State)
    requires Logged(c, s) && Next(c, s, s', StopPort)
    ensures Logged(c, s')
  {
  }

  /** Events that tell nothing of a thread. */
  lemma UntrackedLogged(c: Config, s: State, s': State, step: Step)
    requires Logged(c, s) && Next(c, s, s', step) && (step.StartPort? || step.RunTask? || step.RunMasterTask?)
    ensures Logged(c, s')
  {
  }

  /** Steps that leave no event. */
  predicate Quiet(step: Step) {
    step.InstallKni? || step.FinishStart? || step.SkipUnpark? || step.FinishUnpark? || step.FinishWait? ||
    step.SkipTrigger? || step.FinishShutdown? || step.FinishStop? || step.Fail? || step.Park?
  }

  lemma QuietLogged(c: Config, s: State, s': State, step: Step)
    requires Logged(c, s) && Next(c, s, s', step) && Quiet(step)
    ensures Logged(c, s')
  {
  }

  lemma PlaceKept(c: Config, s: State, s': State, step: Step)
    requires Inv(c, s) && Next(c, s, s', step)
    ensures Place(c, s')
  {
    hide Safe;
  }

  lemma {:induction false} RunKeeps(c: Config, states: seq<State>, i: nat)
    requires Run(c, states) && i < |states|
    ensures Inv(c, states[i])
  {
    if i > 0 {
      RunKeeps(c, states, i - 1);
      assert Steps(c, states[i - 1], states[i - 1 + 1]);
      var step :| Next(c, states[i - 1], states[i], step);
      NextKeeps(c, states[i - 1], states[i], step);
    } else {
      InitKeeps(c, states[0]);
    }
  }

  /** In every run, whatever the threads' speeds: tasks of a background core
      run only after every port has started and its core was unparked, only
      until it was shut down and joined, and before any port is stopped. */
  lemma TasksBetweenPorts(c: Config, states: seq<State>, i: nat, j: nat, k: nat)
    requires Run(c, states) && i < |states|
    requires j < |states[i].log| && states[i].log[j] == TaskRan(k)
    ensures var before := states[i].log[..j];
      && AllStarted(c, before)
      && (k != c.master ==> Unparked(k) in before && Joined(k) !in before)
      && forall p: nat :: PortStopped(p) !in before
  {
    RunKeeps(c, states, i);
    assert Allowed(c, states[i].log[..j], states[i].log[j]);
  }

  /** Ports stop only after every background thread has been joined. */
  lemma StopsAfterJoins(c: Config, states: seq<State>, i: nat, j: nat, p: nat, k: nat)
    requires Run(c, states) && i < |states|
    requires j < |states[i].log| && states[i].log[j] == PortStopped(p)
    requires k in c.cores && k != c.master
    ensures Joined(k) in states[i].log[..j]
  {
    RunKeeps(c, states, i);
    assert Allowed(c, states[i].log[..j], states[i].log[j]);
  }

  /** Nothing but a task happens twice. */
  lemma AtMostOnce(c: Config, states: seq<State>, i: nat, j: nat, j': nat)
    requires Run(c, states) && i < |states|
    requires j < j' < |states[i].log| && states[i].log[j] == states[i].log[j']
    ensures states[i].log[j].TaskRan?
  {
    RunKeeps(c, states, i);
    var log := states[i].log;
    assert Allowed(c, log[..j'], log[j']);
    assert log[..j'][j] == log[j];
  }

  /** When `execute` returns normally, every port was started and stopped and
      every background core was unparked, shut down and joined. */
  lemma DoneComplete(c: Config, states: seq<State>, i: nat)
    requires Run(c, states) && i < |states| && states[i].phase.Done?
    ensures forall p: nat | p < c.ports :: PortStarted(p) in states[i].log && PortStopped(p) in states[i].log
    ensures forall k: nat | k in c.Background() ::
              Unparked(k) in states[i].log && ShutDown(k) in states[i].log && Joined(k) in states[i].log
    ensures states[i].exited == c.Background()
  {
    RunKeeps(c, states, i);
  }

  // ---- progress ----

  /** The steps that lead on; the two others are tasks at work. */
  predicate Leads(step: Step) {
    !step.RunTask? && !step.RunMasterTask? && !step.Fail?
  }

  /** No deadlock: until the master has returned, there is always a step to
      take other than running tasks or failing. */
  lemma NeverStuck(c: Config, s: State) returns (step: Step, s': State)
    requires Inv(c, s) && !s.phase.Done? && !s.phase.Failed?
    ensures Leads(step) && Next(c, s, s', step)
  {
    match s.phase
    case InstallingKni => step, s' := InstallKni, s.(phase := StartingPorts(0));
    case StartingPorts(n) =>
      if n < c.ports {
        step, s' := StartPort, s.(phase := StartingPorts(n + 1), log := s.log + [PortStarted(n)]);
      } else {
        step, s' := FinishStart, s.(phase := Unparking(c.cores));
      }
    case Unparking(todo) =>
      if todo == {} {
        step, s' := FinishUnpark, s.(phase := Waiting);
      } else {
        var k :| k in todo;
        step, s' := UnparkLeads(c, s, k);
      }
    case Waiting => step, s' := FinishWait, s.(phase := ShuttingDown(c.cores));
    case ShuttingDown(todo) =>
      if todo == {} {
        step, s' := FinishShutdown, s.(phase := StoppingPorts(0));
      } else {
        var k :| k in todo;
        if k in s.triggers {
          step := Trigger(k);
          s' := s.(phase := Joining(k, todo - {k}), triggers := s.triggers - {k},
                   signalled := s.signalled + {k}, log := s.log + [ShutDown(k)]);
        } else {
          step, s' := SkipTrigger(k), s.(phase := ShuttingDown(todo - {k}));
        }
      }
    case Joining(k, todo) =>
      if k in s.exited {
        step, s' := Join, s.(phase := ShuttingDown(todo), log := s.log + [Joined(k)]);
      } else {
        step := Exit(k);
        s' := s.(running := s.running - {k}, exited := s.exited + {k}, log := s.log + [Exited(k)]);
      }
    case StoppingPorts(n) =>
      if n < c.ports {
        step, s' := StopPort, s.(phase := StoppingPorts(n + 1), log := s.log + [PortStopped(n)]);
      } else {
        step, s' := FinishStop, s.(phase := Done);
      }
  }

  /** A core that is still to be unparked is parked or about to be. */
  lemma UnparkLeads(c: Config, s: State, k: nat) returns (step: Step, s': State)
    requires Inv(c, s) && s.phase.Unparking? && k in s.phase.todo
    ensures Leads(step) && Next(c, s, s', step)
  {
    if k !in c.Background() {
      step, s' := SkipUnpark(k), s.(phase := Unparking(s.phase.todo - {k}));
    } else if k in s.parked {
      step := Unpark(k);
      s' := s.(phase := Unparking(s.phase.todo - {k}), parked := s.parked - {k}, running := s.running + {k},
               log := s.log + [Unparked(k)]);
    } else {
      step, s' := Park(k), s.(starting := s.starting - {k}, parked := s.parked + {k});
    }
  }

  /** How many leading steps there can still be. */
  function Rank(c: Config, s: State): nat {
    ThreadRank(s) + PhaseRank(c, s.phase)
  }

  function ThreadRank(s: State): nat {
    3 * |s.starting| + 2 * |s.parked| + |s.running|
  }

  function PhaseRank(c: Config, phase: Phase): nat {
    match phase
    case Failed => 0
    case Done => 0
    case StoppingPorts(n) => 1 + if n < c.ports then c.ports - n else 0
    case Joining(_, todo) => 3 + c.ports + 2 * |todo|
    case ShuttingDown(todo) => 2 + c.ports + 2 * |todo|
    case Waiting => 3 + c.ports + 2 * |c.cores|
    case Unparking(todo) => 4 + c.ports + 2 * |c.cores| + |todo|
    case StartingPorts(n) => 5 + c.ports + 3 * |c.cores| + if n < c.ports then c.ports - n else 0
    case InstallingKni => 6 + 2 * c.ports + 3 * |c.cores|
  }

  lemma Fewer(a: set<nat>, k: nat)
    requires k in a
    ensures |a - {k}| == |a| - 1
  {
  }

  lemma More(a: set<nat>, k: nat)
    requires k !in a
    ensures |a + {k}| == |a| + 1
  {
  }

  /** Every leading step uses up some of a finite supply, and tasks use none. */
  lemma RankFalls(c: Config, s: State, s': State, step: Step)
    requires Inv(c, s) && Next(c, s, s', step)
    ensures if Leads(step) then Rank(c, s') < Rank(c, s) else Rank(c, s') <= Rank(c, s)
  {
    assert s.starting !! s.parked !! s.running !! s.exited;
    hide Inv, Next, Rank;
    match step
    case Unpark(k) => UnparkFalls(c, s, s', k);
    case Park(k) => ParkFalls(c, s, s', k);
    case Exit(k) => ExitFalls(c, s, s', k);
    case _ => MasterFalls(c, s, s', step);
  }

  lemma MasterFalls(c: Config, s: State, s': State, step: Step)
    requires Next(c, s, s', step) && !step.Unpark? && !step.Park? && !step.Exit?
    ensures if Leads(step) then Rank(c, s') < Rank(c, s) else Rank(c, s') <= Rank(c, s)
  {
    hide Next, Rank;
    if step.SkipUnpark? || step.Trigger? || step.SkipTrigger? {
      TodoFalls(c, s, s', step);
    } else if step.StartPort? || step.StopPort? {
      PortsFall(c, s, s', step);
    } else {
      PhaseFalls(c, s, s', step);
    }
  }

  lemma TodoFalls(c: Config, s: State, s': State, step: Step)
    requires Next(c, s, s', step) && (step.SkipUnpark? || step.Trigger? || step.SkipTrigger?)
    ensures Rank(c, s') < Rank(c, s)
  {
    Fewer(s.phase.todo, step.core);
  }

  lemma PortsFall(c: Config, s: State, s': State, step: Step)
    requires Next(c, s, s', step) && (step.StartPort? || step.StopPort?)
    ensures Rank(c, s') < Rank(c, s)
  {
  }

  lemma PhaseFalls(c: Config, s: State, s': State, step: Step)
    requires Next(c, s, s', step) && !step.Unpark? && !step.Park? && !step.Exit?
    requires !step.SkipUnpark? && !step.Trigger? && !step.SkipTrigger? && !step.StartPort? && !step.StopPort?
    ensures if Leads(step) then Rank(c, s') < Rank(c, s) else Rank(c, s') <= Rank(c, s)
  {
    assert ThreadRank(s') == ThreadRank(s);
    hide ThreadRank;
  }

  lemma ExitFalls(c: Config, s: State, s': State, k: nat)
    requires Next(c, s, s', Exit(k))
    ensures Rank(c, s') < Rank(c, s)
  {
    Fewer(s.running, k);
  }

  lemma UnparkFalls(c: Config, s: State, s': State, k: nat)
    requires s.parked !! s.running && Next(c, s, s', Unpark(k))
    ensures Rank(c, s') < Rank(c, s)
  {
    Fewer(s.phase.todo, k);
    Fewer(s.parked, k);
    More(s.running, k);
  }

  lemma ParkFalls(c: Config, s: State, s': State, k: nat)
    requires s.starting !! s.parked && Next(c, s, s', Park(k))
    ensures Rank(c, s') < Rank(c, s)
  {
    Fewer(s.starting, k);
    More(s.parked, k);
  }

  function Leading(steps: seq<Step>): nat {
    if steps == [] then 0
    else Leading(steps[..|steps| - 1]) + if Leads(steps[|steps| - 1]) then 1 else 0
  }

  /** A run in which every thread gets its turn comes to an end: whatever the
      interleaving, only so many of its steps are not tasks. */
  lemma {:induction false} RunsEnd(c: Config, states: seq<State>, steps: seq<Step>)
    requires |states| == |steps| + 1 && Init(c, states[0])
    requires forall i | 0 <= i < |steps| :: Next(c, states[i], states[i + 1], steps[i])
    ensures Inv(c, states[|steps|])
    ensures Leading(steps) + Rank(c, states[|steps|]) <= 6 + 2 * c.ports + 3 * |c.cores| + 3 * |c.Background()|
  {
    var n := |steps|;
    if n == 0 {
      InitKeeps(c, states[0]);
    } else {
      RunsEnd(c, states[..n], steps[..n - 1]);
      assert Next(c, states[n - 1], states[n - 1 + 1], steps[n - 1]);
      NextKeeps(c, states[n - 1], states[n], steps[n - 1]);
      RankFalls(c, states[n - 1], states[n], steps[n - 1]);
    }
  }
}
