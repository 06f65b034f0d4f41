/** The service runtime as a state machine over the steps between its suspension points:
    admission, reload, close and drain (`src/ski/runtime.py`). */
module Runtime {
  import opened Basics

  type Task = nat

  datatype Configuration = Configuration(
    database: string, caPrivateKey: string, caPublicKey: string, caKrl: string, settings: string)

  /** The bundle visible to requests; collaborators are known by handles. */
  datatype Resources = Resources(
    configuration: Configuration, database: nat, activeCa: nat, listener: nat, injector: nat, processor: nat)

  /** Where the one effective `close` call is suspended. */
  datatype Shutdown =
    | NotBegun
    | ClosingListener(closer: Task)
    | Draining(closer: Task, waiting: set<Task>)
    | Finished(closer: Task, listenerRaised: bool)

  datatype State = State(
    resources: Option<Resources>,
    generation: nat,
    inFlight: set<Task>,
    stopping: bool,
    closeStarted: bool,
    closeComplete: bool,
    shutdown: Shutdown,
    databaseCloses: nat,
    admitted: map<Task, Configuration>,
    history: seq<Configuration>)

  /** What may happen next. A reload carries what loading its candidate yields, if anything. */
  datatype Step =
    | Enter(task: Task)
    | Leave(task: Task)
    | Reload(candidate: Option<Configuration>)
    | Close(closer: Task)
    | ListenerClosed(raised: bool)
    | DrainOver

  predicate SamePaths(c: Configuration, d: Configuration) {
    c.database == d.database && c.caPrivateKey == d.caPrivateKey && c.caPublicKey == d.caPublicKey && c.caKrl == d.caKrl
  }

  // ---- transitions ----

  function Entered(s: State, task: Task): State {
    if s.stopping || s.resources.None? then s
    else s.(inFlight := s.inFlight + {task}, admitted := s.admitted[task := s.resources.value.configuration])
  }

  function Left(s: State, task: Task): State {
    s.(inFlight := s.inFlight - {task}, admitted := s.admitted - {task})
  }

  predicate Adoptable(s: State, candidate: Option<Configuration>) {
    s.resources.Some? && candidate.Some? && SamePaths(candidate.value, s.resources.value.configuration)
  }

  function Reloaded(s: State, candidate: Option<Configuration>): State {
    if !Adoptable(s, candidate) then s
    else s.(resources := Some(s.resources.value.(configuration := candidate.value)),
            generation := s.generation + 1, history := s.history + [candidate.value])
  }

  function CloseBegun(s: State, closer: Task): State {
    if s.closeStarted || s.resources.None? then s
    else s.(closeStarted := true, stopping := true, resources := None, shutdown := ClosingListener(closer))
  }

  function Ended(s: State, closer: Task, listenerRaised: bool): State {
    s.(databaseCloses := s.databaseCloses + 1, generation := 0, closeComplete := true,
       shutdown := Finished(closer, listenerRaised))
  }

  function DrainBegun(s: State, closer: Task): State {
    var waiting := s.inFlight - {closer};
    if waiting == {} then Ended(s, closer, false) else s.(shutdown := Draining(closer, waiting))
  }

  predicate Enabled(s: State, step: Step) {
    match step
    case Enter(task) => task !in s.inFlight
    case Leave(task) => task in s.inFlight
    case ListenerClosed(_) => s.shutdown.ClosingListener?
    case DrainOver => s.shutdown.Draining? && s.shutdown.waiting * s.inFlight == {}
    case _ => true
  }

  function Next(s: State, step: Step): State
    requires Enabled(s, step)
  {
    match step
    case Enter(task) => Entered(s, task)
    case Leave(task) => Left(s, task)
    case Reload(candidate) => Reloaded(s, candidate)
    case Close(closer) => CloseBegun(s, closer)
    case ListenerClosed(raised) =>
      if raised then Ended(s, s.shutdown.closer, true) else DrainBegun(s, s.shutdown.closer)
    case DrainOver => Ended(s, s.shutdown.closer, false)
  }

  function Started(startup: Resources): State {
    State(Some(startup), 1, {}, false, false, false, NotBegun, 0, map[], [startup.configuration])
  }

  // ---- the runtime object ----

  /** What `start` does in order, and what it does to unwind; any of it may raise. */
  datatype StartStep =
    | LoadConfiguration
    | OpenDatabase
    | ImportHostKey
    | CheckCaPaths
    | LoadActiveCa
    | BuildCollaborators
    | BuildListener
    | StartListener
    | CloseListener
    | CloseDatabase

  const ACQUISITIONS := [LoadConfiguration, OpenDatabase, ImportHostKey, CheckCaPaths, LoadActiveCa, BuildCollaborators,
                         BuildListener, StartListener]

  /** All acquisitions before the `n`-th succeed. */
  predicate Reached(raises: StartStep -> bool, n: nat)
    requires n <= |ACQUISITIONS|
  {
    forall i :: 0 <= i < n ==> !raises(ACQUISITIONS[i])
  }

  lemma ReachedMeans(raises: StartStep -> bool)
    ensures Reached(raises, 2) <==> !raises(LoadConfiguration) && !raises(OpenDatabase)
    ensures Reached(raises, 7) <==>
            forall step :: step != StartListener && step != CloseListener && step != CloseDatabase ==> !raises(step)
    ensures Reached(raises, 8) <==> forall step :: step != CloseListener && step != CloseDatabase ==> !raises(step)
  {
    var steps := ACQUISITIONS;
    assert steps[0] == LoadConfiguration && steps[1] == OpenDatabase && steps[2] == ImportHostKey;
    assert steps[3] == CheckCaPaths && steps[4] == LoadActiveCa && steps[5] == BuildCollaborators;
    assert steps[6] == BuildListener && steps[7] == StartListener;
  }

  datatype CloseCall = AlreadyClosing | NothingToClose | Began

  class ServiceRuntime {
    var resources: Option<Resources>
    var generation: nat
    var inFlight: set<Task>
    var stopping: bool
    var closeStarted: bool
    var closeComplete: bool
    var shutdown: Shutdown
    var databaseCloses: nat
    var databaseOpen: bool
    var listenerOpen: bool
    ghost var admitted: map<Task, Configuration>
    ghost var history: seq<Configuration>

    ghost function View(): State
      reads this
    {
      State(resources, generation, inFlight, stopping, closeStarted, closeComplete, shutdown, databaseCloses,
            admitted, history)
    }

    constructor ()
      ensures resources.None? && !stopping && !closeStarted && !databaseOpen && !listenerOpen
    {
      resources, generation, inFlight, admitted, history := None, 0, {}, map[], [];
      stopping, closeStarted, closeComplete, shutdown, databaseCloses := false, false, false, NotBegun, 0;
      databaseOpen, listenerOpen := false, false;
    }

    /** Acquires every resource in turn, or unwinds what it acquired. It succeeds exactly when no
        acquisition raises. Otherwise nothing becomes visible, and what was acquired is released
        again, but for what closing the listener or the database leaves by raising: a listener
        that does not close keeps the database open too. */
    method Start(acquired: Resources, raises: StartStep -> bool) returns (ok: bool)
      requires resources.None? && !stopping && !closeStarted && !closeComplete && inFlight == {}
      requires shutdown == NotBegun && databaseCloses == 0 && admitted == map[] && !databaseOpen && !listenerOpen
      modifies this
      ensures ok <==> forall step :: step != CloseListener && step != CloseDatabase ==> !raises(step)
      ensures ok ==> View() == Started(acquired) && databaseOpen && listenerOpen
      ensures ok ==> resources == Some(acquired) && generation == 1 && inFlight == {} && !stopping
      ensures !ok ==> View() == old(View())
      ensures !ok ==> (listenerOpen <==>
                         && raises(CloseListener) && raises(StartListener)
                         && forall step ::
                              step != StartListener && step != CloseListener && step != CloseDatabase ==> !raises(step))
      ensures !ok ==> (databaseOpen <==>
                         && !raises(LoadConfiguration) && !raises(OpenDatabase)
                         && (listenerOpen || raises(CloseDatabase)))
    {
      ReachedMeans(raises);
      ok := false;
      for i := 0 to |ACQUISITIONS|
        invariant Reached(raises, i) && View() == old(View())
        invariant databaseOpen == (i > 1) && listenerOpen == (i > 6)
      {
        var step := ACQUISITIONS[i];
        if raises(step) {
          ClosePartialResources(raises);
          return;
        }
        if step == OpenDatabase { databaseOpen := true; }
        if step == BuildListener { listenerOpen := true; }
      }
      resources, generation, history := Some(acquired), 1, [acquired.configuration];
      ok := true;
    }

    method ClosePartialResources(raises: StartStep -> bool)
      modifies this`listenerOpen, this`databaseOpen
      ensures listenerOpen <==> old(listenerOpen) && raises(CloseListener)
      ensures databaseOpen <==> old(databaseOpen) && (listenerOpen || raises(CloseDatabase))
    {
      if listenerOpen {
        if raises(CloseListener) { return; }
        listenerOpen := false;
      }
      if databaseOpen && !raises(CloseDatabase) { databaseOpen := false; }
    }

    /** Admits one request, giving it the current configuration. */
    method EnterScope(task: Task) returns (r: Option<Configuration>)
      requires task !in inFlight
      modifies this
      ensures View() == Next(old(View()), Enter(task))
      ensures r.Some? <==> !old(stopping) && old(resources).Some?
      ensures r.Some? ==> r.value == old(resources).value.configuration
      ensures inFlight == old(inFlight) + (if r.Some? then {task} else {})
      ensures r.Some? ==> task in admitted && admitted[task] == r.value
    {
      if stopping || resources.None? { return None; }
      inFlight := inFlight + {task};
      admitted := admitted[task := resources.value.configuration];
      return Some(resources.value.configuration);
    }

    method LeaveScope(task: Task)
      requires task in inFlight
      modifies this
      ensures View() == Next(old(View()), Leave(task))
      ensures inFlight == old(inFlight) - {task}
    {
      inFlight := inFlight - {task};
      admitted := admitted - {task};
    }

    /** One serialized reload attempt; nothing when the service is not running. */
    method ReloadOnce(candidate: Option<Configuration>) returns (r: Option<bool>)
      modifies this
      ensures View() == Next(old(View()), Reload(candidate))
      ensures r.None? <==> old(resources).None?
      ensures r == Some(true) <==>
              && old(resources).Some? && candidate.Some?
              && candidate.value.database == old(resources).value.configuration.database
              && candidate.value.caPrivateKey == old(resources).value.configuration.caPrivateKey
              && candidate.value.caPublicKey == old(resources).value.configuration.caPublicKey
              && candidate.value.caKrl == old(resources).value.configuration.caKrl
      ensures r == Some(true) ==>
                && resources == Some(old(resources).value.(configuration := candidate.value))
                && generation == old(generation) + 1
      ensures r != Some(true) ==> View() == old(View())
    {
      if resources.None? { return None; }
      var current := resources.value;
      if candidate.None? || candidate.value.database != current.configuration.database
         || candidate.value.caPrivateKey != current.configuration.caPrivateKey
         || candidate.value.caPublicKey != current.configuration.caPublicKey
         || candidate.value.caKrl != current.configuration.caKrl
      {
        return Some(false);
      }
      resources := Some(Resources(candidate.value, current.database, current.activeCa, current.listener,
                                  current.injector, current.processor));
      generation := generation + 1;
      history := history + [candidate.value];
      return Some(true);
    }

    /** The start of `close`, up to its first suspension. */
    method BeginClose(closer: Task) returns (call: CloseCall)
      modifies this
      ensures View() == Next(old(View()), Close(closer))
      ensures call == if old(closeStarted) then AlreadyClosing
                      else if old(resources).None? then NothingToClose
                      else Began
      ensures call.Began? ==> stopping && closeStarted && resources.None? && shutdown == ClosingListener(closer)
      ensures !call.Began? ==> View() == old(View())
    {
      if closeStarted { return AlreadyClosing; }
      if resources.None? { return NothingToClose; }
      closeStarted, stopping, resources := true, true, None;
      shutdown := ClosingListener(closer);
      return Began;
    }

    /** The final part of `close`, run whether or not the listener closed cleanly. */
    method FinishClose(closer: Task, listenerRaised: bool)
      modifies this
      ensures View() == Ended(old(View()), closer, listenerRaised) && !databaseOpen
    {
      databaseOpen := false;
      databaseCloses := databaseCloses + 1;
      generation, closeComplete := 0, true;
      shutdown := Finished(closer, listenerRaised);
    }

    /** `close` resumes after closing the listener and drains, or finishes at once. */
    method ResumeClose(raised: bool)
      requires shutdown.ClosingListener?
      modifies this
      ensures View() == Next(old(View()), ListenerClosed(raised))
      ensures var closer, others := old(shutdown).closer, old(inFlight) - {old(shutdown).closer};
              && shutdown == (if raised || others == {} then Finished(closer, raised) else Draining(closer, others))
              && databaseCloses == old(databaseCloses) + (if raised || others == {} then 1 else 0)
    {
      var closer := shutdown.closer;
      if raised {
        FinishClose(closer, true);
        return;
      }
      var tasks := inFlight - {closer};
      if tasks == {} {
        FinishClose(closer, false);
      } else {
        shutdown := Draining(closer, tasks);
      }
    }

    /** `close` resumes once every awaited request is done, cancelled or not. */
    method EndDrain()
      requires shutdown.Draining? && shutdown.waiting * inFlight == {}
      modifies this
      ensures View() == Next(old(View()), DrainOver)
      ensures shutdown == Finished(old(shutdown).closer, false) && databaseCloses == old(databaseCloses) + 1
    {
      FinishClose(shutdown.closer, false);
    }
  }

  // ---- every interleaving after one start ----

  ghost predicate IsRun(startup: Resources, states: seq<State>, steps: seq<Step>) {
    && |states| == |steps| + 1 && states[0] == Started(startup)
    && forall i :: 0 <= i < |steps| ==> Enabled(states[i], steps[i]) && states[i + 1] == Next(states[i], steps[i])
  }

  /** While running: the startup bundle with only its configuration replaced, same paths,
      and a generation that counts the adopted configurations. */
  ghost predicate Running(startup: Resources, s: State) {
    && s.resources.Some? && !s.stopping && !s.closeStarted && s.shutdown.NotBegun? && s.history != []
    && s.resources.value == startup.(configuration := s.resources.value.configuration)
    && s.resources.value.configuration == s.history[|s.history| - 1]
    && s.generation == |s.history|
  }

  ghost predicate Invariant(startup: Resources, s: State) {
    && |s.history| >= 1 && s.history[0] == startup.configuration
    && (forall i :: 0 <= i < |s.history| ==> SamePaths(s.history[i], startup.configuration))
    && s.admitted.Keys == s.inFlight
    && (forall t :: t in s.inFlight ==> s.admitted[t] in s.history)
    && (s.closeComplete <==> s.shutdown.Finished?)
    && s.databaseCloses == (if s.shutdown.Finished? then 1 else 0)
    && (s.resources.Some? ==> Running(startup, s))
    && (s.resources.None? ==> s.stopping && s.closeStarted && !s.shutdown.NotBegun?)
    && (s.shutdown.Draining? ==>
          s.inFlight <= s.shutdown.waiting + {s.shutdown.closer} && s.shutdown.closer !in s.shutdown.waiting)
    && (s.shutdown.Finished? ==> s.generation == 0)
    && (s.shutdown.Finished? && !s.shutdown.listenerRaised ==> s.inFlight <= {s.shutdown.closer})
  }

  lemma StepKeeps(startup: Resources, s: State, step: Step)
    requires Invariant(startup, s) && Enabled(s, step)
    ensures Invariant(startup, Next(s, step))
  {
  }

  lemma {:induction false} RunKeeps(startup: Resources, states: seq<State>, steps: seq<Step>, i: nat)
    requires IsRun(startup, states, steps) && i < |states|
    ensures Invariant(startup, states[i])
  {
    if i > 0 {
      RunKeeps(startup, states, steps, i - 1);
      StepKeeps(startup, states[i - 1], steps[i - 1]);
    }
  }

  /** The database is closed at most once, and only by a step that follows the end of the
      listener's closing; if that did not raise, only once every admitted request, save the
      closer itself, has left its scope. */
  lemma DatabaseClosedLast(startup: Resources, states: seq<State>, steps: seq<Step>, i: nat)
    requires IsRun(startup, states, steps) && i < |steps|
    ensures states[i].databaseCloses <= states[i + 1].databaseCloses <= 1
    ensures states[i + 1].databaseCloses > states[i].databaseCloses ==>
              && (steps[i].ListenerClosed? || (steps[i].DrainOver? && states[i].shutdown.Draining?))
              && (steps[i] != ListenerClosed(true) ==> states[i + 1].inFlight <= {states[i + 1].shutdown.closer})
  {
    RunKeeps(startup, states, steps, i);
    RunKeeps(startup, states, steps, i + 1);
  }

  /** At the moment the database closes, requests other than the closer are still in scope
      exactly when the listener's closing raised while they were in flight. */
  lemma UndrainedIff(startup: Resources, states: seq<State>, steps: seq<Step>, i: nat)
    requires IsRun(startup, states, steps) && i < |steps| && states[i + 1].databaseCloses > states[i].databaseCloses
    ensures states[i + 1].shutdown.Finished?
    ensures states[i + 1].inFlight - {states[i + 1].shutdown.closer} != {} <==>
            steps[i] == ListenerClosed(true) && states[i].inFlight - {states[i].shutdown.closer} != {}
  {
    RunKeeps(startup, states, steps, i);
    RunKeeps(startup, states, steps, i + 1);
  }

  /** So a request can outlive the database: whatever was acquired, whoever closes. */
  lemma UndrainedCloseHappens(startup: Resources, task: Task, closer: Task)
    requires task != closer
    ensures exists states: seq<State>, steps: seq<Step> ::
              && IsRun(startup, states, steps) && |steps| > 0
              && states[|steps|].databaseCloses == 1 && task in states[|steps|].inFlight
              && task in states[|steps|].admitted
  {
    var steps := [Enter(task), Close(closer), ListenerClosed(true)];
    var s0 := Started(startup);
    var s1 := Next(s0, steps[0]);
    var s2 := Next(s1, steps[1]);
    var states := [s0, s1, s2, Next(s2, steps[2])];
    assert IsRun(startup, states, steps);
  }

  /** Draining starts only after the listener's closing ended without raising. */
  lemma {:induction false} DrainFollowsListener(startup: Resources, states: seq<State>, steps: seq<Step>, i: nat)
    requires IsRun(startup, states, steps) && i < |states| && states[i].shutdown.Draining?
    ensures exists j :: 0 <= j < i && steps[j] == ListenerClosed(false)
  {
    if i > 0 && states[i - 1].shutdown.Draining? {
      DrainFollowsListener(startup, states, steps, i - 1);
    } else {
      assert steps[i - 1] == ListenerClosed(false);
    }
  }

  /** Once stopping, always stopping: no request is admitted, no resources come back, no
      queued reload changes anything. */
  lemma {:induction false} StoppingIsFinal(startup: Resources, states: seq<State>, steps: seq<Step>, i: nat, j: nat)
    requires IsRun(startup, states, steps) && i <= j < |states| && states[i].stopping
    ensures states[j].stopping && states[j].resources.None?
    ensures states[j].inFlight <= states[i].inFlight && states[j].history == states[i].history
    decreases j - i
  {
    RunKeeps(startup, states, steps, i);
    if i < j {
      StoppingIsFinal(startup, states, steps, i, j - 1);
      RunKeeps(startup, states, steps, j - 1);
    }
  }

  // ---- what a reload, an entry and a drain come to, over whole runs ----

  /** The service runs until the first close, and only until then. */
  lemma {:induction false} RunsUntilClose(startup: Resources, states: seq<State>, steps: seq<Step>, i: nat)
    requires IsRun(startup, states, steps) && i < |states|
    ensures states[i].stopping <==> exists j :: 0 <= j < i && steps[j].Close?
    ensures states[i].resources.Some? <==> !states[i].stopping
  {
    RunKeeps(startup, states, steps, i);
    if i > 0 {
      RunsUntilClose(startup, states, steps, i - 1);
      RunKeeps(startup, states, steps, i - 1);
      assert Enabled(states[i - 1], steps[i - 1]);
      if steps[i - 1].Close? { assert 0 <= i - 1 < i && steps[i - 1].Close?; }
    }
  }

  /** Before any close, a reload that loads a candidate with the four paths the service was started
      with makes that very candidate the configuration, whatever else it changes, keeps the rest
      of the bundle and raises the generation by one. Any other reload changes nothing. */
  lemma ReloadDecides(startup: Resources, states: seq<State>, steps: seq<Step>, i: nat,
                      candidate: Option<Configuration>)
    requires IsRun(startup, states, steps) && i < |steps| && steps[i] == Reload(candidate)
    ensures if (forall j :: 0 <= j < i ==> !steps[j].Close?) && candidate.Some?
               && candidate.value.database == startup.configuration.database
               && candidate.value.caPrivateKey == startup.configuration.caPrivateKey
               && candidate.value.caPublicKey == startup.configuration.caPublicKey
               && candidate.value.caKrl == startup.configuration.caKrl
            then
              && states[i + 1].resources == Some(Resources(candidate.value, startup.database, startup.activeCa,
                                                           startup.listener, startup.injector, startup.processor))
              && states[i + 1].generation == states[i].generation + 1
              && states[i + 1].inFlight == states[i].inFlight && states[i + 1].admitted == states[i].admitted
              && states[i + 1].shutdown == NotBegun && states[i + 1].databaseCloses == 0
            else states[i + 1] == states[i]
  {
    RunKeeps(startup, states, steps, i);
    RunsUntilClose(startup, states, steps, i);
    RunKeeps(startup, states, steps, i + 1);
    RunsUntilClose(startup, states, steps, i + 1);
    assert Enabled(states[i], steps[i]);
    if states[i].resources.Some? {
      var current := states[i].resources.value.configuration;
      assert current == states[i].history[|states[i].history| - 1] && SamePaths(current, startup.configuration);
    }
  }

  /** Before any close every entering request is admitted, with the current configuration; after
      a close none is. */
  lemma EntryDecides(startup: Resources, states: seq<State>, steps: seq<Step>, i: nat, task: Task)
    requires IsRun(startup, states, steps) && i < |steps| && steps[i] == Enter(task)
    ensures task in states[i + 1].inFlight <==> forall j :: 0 <= j < i ==> !steps[j].Close?
    ensures task in states[i + 1].inFlight ==>
              && states[i].resources.Some? && states[i + 1].inFlight == states[i].inFlight + {task}
              && states[i + 1].admitted == states[i].admitted[task := states[i].resources.value.configuration]
    ensures task !in states[i + 1].inFlight ==> states[i + 1] == states[i]
  {
    RunKeeps(startup, states, steps, i);
    RunsUntilClose(startup, states, steps, i);
    assert Enabled(states[i], steps[i]);
  }

  /** A drain can end exactly when no request is in scope but the closer's own. */
  lemma DrainEnds(startup: Resources, states: seq<State>, steps: seq<Step>, i: nat)
    requires IsRun(startup, states, steps) && i < |states| && states[i].shutdown.Draining?
    ensures Enabled(states[i], DrainOver) <==> states[i].inFlight <= {states[i].shutdown.closer}
  {
    RunKeeps(startup, states, steps, i);
    var waiting, inFlight := states[i].shutdown.waiting, states[i].inFlight;
    if waiting * inFlight == {} {
      forall task | task in inFlight ensures task == states[i].shutdown.closer {
        assert task !in waiting * inFlight;
      }
    }
  }

  function CountAdopted(states: seq<State>, steps: seq<Step>, i: nat): nat
    requires i <= |steps| <= |states|
  {
    if i == 0 then 0
    else CountAdopted(states, steps, i - 1)
         + (if steps[i - 1].Reload? && Adoptable(states[i - 1], steps[i - 1].candidate) then 1 else 0)
  }

  lemma StepAdopts(s: State, step: Step)
    requires Enabled(s, step)
    ensures |Next(s, step).history| ==
            |s.history| + (if step.Reload? && Adoptable(s, step.candidate) then 1 else 0)
  {
  }

  /** While running, the generation is one more than the number of accepted reloads. */
  lemma {:induction false} GenerationCounts(startup: Resources, states: seq<State>, steps: seq<Step>, i: nat)
    requires IsRun(startup, states, steps) && i < |states|
    ensures |states[i].history| == 1 + CountAdopted(states, steps, i)
    ensures states[i].resources.Some? ==> states[i].generation == 1 + CountAdopted(states, steps, i)
  {
    hide Next, Enabled, Adoptable;
    RunKeeps(startup, states, steps, i);
    if i > 0 {
      GenerationCounts(startup, states, steps, i - 1);
      StepAdopts(states[i - 1], steps[i - 1]);
    }
  }

  /** The configuration in force after `i` steps: that of the latest accepted reload, or else
      the one the service started with. */
  function InForce(startup: Resources, states: seq<State>, steps: seq<Step>, i: nat): Configuration
    requires i <= |steps| <= |states|
  {
    if i == 0 then startup.configuration
    else if steps[i - 1].Reload? && Adoptable(states[i - 1], steps[i - 1].candidate) then steps[i - 1].candidate.value
    else InForce(startup, states, steps, i - 1)
  }

  lemma {:induction false} CurrentInForce(startup: Resources, states: seq<State>, steps: seq<Step>, i: nat)
    requires IsRun(startup, states, steps) && i < |states|
    ensures states[i].resources.Some? ==> states[i].resources.value.configuration == InForce(startup, states, steps, i)
  {
    if i > 0 {
      CurrentInForce(startup, states, steps, i - 1);
      assert Enabled(states[i - 1], steps[i - 1]);
    }
  }

  /** An admitted request is given the configuration of the latest reload accepted before its
      admission, and keeps it until it leaves, whatever reloads are accepted meanwhile. */
  lemma {:induction false} AdmittedKeepConfiguration(startup: Resources, states: seq<State>, steps: seq<Step>,
                                                     task: Task, i: nat, j: nat)
    requires IsRun(startup, states, steps) && i < j < |states|
    requires steps[i] == Enter(task) && task in states[i + 1].inFlight
    requires forall k :: i < k < j ==> steps[k] != Leave(task)
    ensures task in states[j].inFlight && task in states[j].admitted
    ensures states[j].admitted[task] == InForce(startup, states, steps, i)
    decreases j - i
  {
    if i + 1 < j {
      AdmittedKeepConfiguration(startup, states, steps, task, i, j - 1);
      assert Enabled(states[j - 1], steps[j - 1]);
      assert steps[j - 1] != Enter(task);
    } else {
      RunKeeps(startup, states, steps, i);
      CurrentInForce(startup, states, steps, i);
      assert Enabled(states[i], steps[i]);
    }
  }
}
