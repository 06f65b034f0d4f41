/** Signal latches and the foreground loop that consumes them (`src/ski/control.py`, the
    serving loop in `src/ski/cli.py`). */
module Control {

  datatype ControlEvent = ShutdownEvent | ReloadEvent

  /** Where the foreground loop is.
      `Ready`: about to wait. `Waiting`: suspended, remembering whether shutdown was already
      latched when the wait began. `Chosen`: an event was picked, its pending twin is being
      cancelled. `Cleared`: the reload latch is cleared, the attempt not yet started. */
  datatype Place =
    | Ready
    | Waiting(shutdownLatched: bool)
    | Chosen(event: ControlEvent)
    | Cleared
    | Reloading
    | Over

  /** `requestedAt` and `attemptedAt` are the times of the latest reload request and of the
      latest start of a reload attempt; `lateAttempts` counts attempts started after the
      first shutdown request. */
  datatype State = State(
    shutdown: bool, reload: bool, place: Place, now: nat, requestedAt: nat, attemptedAt: nat, lateAttempts: nat)

  datatype Step =
    | RequestShutdown
    | RequestReload
    | BeginWait
    | Choose(shutdownDone: bool, reloadDone: bool)
    | Resume
    | StartReload
    | EndReload

  const INITIAL := State(false, false, Ready, 0, 0, 0, 0)

  predicate Enabled(s: State, step: Step) {
    match step
    case RequestShutdown => true
    case RequestReload => true
    case BeginWait => s.place.Ready?
    case Choose(shutdownDone, reloadDone) =>
      // A waiter is done only once its latch is set, and one that could finish at once does.
      s.place.Waiting? && (shutdownDone || reloadDone) && (shutdownDone ==> s.shutdown) && (reloadDone ==> s.reload)
      && (s.place.shutdownLatched ==> shutdownDone)
    case Resume => s.place.Chosen?
    case StartReload => s.place.Cleared?
    case EndReload => s.place.Reloading?
  }

  function Moved(s: State, step: Step): State
    requires Enabled(s, step)
  {
    match step
    case RequestShutdown => s.(shutdown := true)
    case RequestReload => s.(reload := true, requestedAt := s.now + 1)
    case BeginWait => s.(place := Waiting(s.shutdown))
    case Choose(shutdownDone, _) => s.(place := Chosen(if shutdownDone then ShutdownEvent else ReloadEvent))
    case Resume =>
      if s.place.event.ShutdownEvent? then s.(place := Over) else s.(reload := false, place := Cleared)
    case StartReload =>
      s.(place := Reloading, attemptedAt := s.now + 1, lateAttempts := s.lateAttempts + (if s.shutdown then 1 else 0))
    case EndReload => s.(place := Ready)
  }

  /** Every step takes one unit of time. */
  function Next(s: State, step: Step): State
    requires Enabled(s, step)
  {
    Moved(s, step).(now := s.now + 1)
  }

  // ---- the latches as an object ----

  class RuntimeControl {
    var shutdownRequested: bool
    var reloadRequested: bool
    var place: Place
    ghost var now: nat
    ghost var requestedAt: nat
    ghost var attemptedAt: nat
    ghost var lateAttempts: nat

    ghost function View(): State
      reads this
    {
      State(shutdownRequested, reloadRequested, place, now, requestedAt, attemptedAt, lateAttempts)
    }

    constructor ()
      ensures View() == INITIAL
    {
      shutdownRequested, reloadRequested, place := false, false, Ready;
      now, requestedAt, attemptedAt, lateAttempts := 0, 0, 0, 0;
    }

    method RequestShutdown()
      modifies this
      ensures View() == Next(old(View()), Step.RequestShutdown)
      ensures shutdownRequested && reloadRequested == old(reloadRequested) && place == old(place)
    {
      shutdownRequested := true;
      now := now + 1;
    }

    method RequestReload()
      modifies this
      ensures View() == Next(old(View()), Step.RequestReload)
      ensures reloadRequested && shutdownRequested == old(shutdownRequested) && place == old(place)
    {
      reloadRequested := true;
      now := now + 1;
      requestedAt := now;
    }

    /** The start of a wait: both waiters are created. */
    method BeginWait()
      requires place.Ready?
      modifies this
      ensures View() == Next(old(View()), Step.BeginWait)
    {
      place := Waiting(shutdownRequested);
      now := now + 1;
    }

    /** The wait wakes up with at least one finished waiter; shutdown takes precedence. */
    method WakeUp(shutdownDone: bool, reloadDone: bool)
      requires Enabled(View(), Choose(shutdownDone, reloadDone))
      modifies this
      ensures View() == Next(old(View()), Choose(shutdownDone, reloadDone))
      ensures place == Chosen(if shutdownDone then ShutdownEvent else ReloadEvent)
      ensures shutdownRequested == old(shutdownRequested) && reloadRequested == old(reloadRequested)
    {
      place := Chosen(if shutdownDone then ShutdownEvent else ReloadEvent);
      now := now + 1;
    }

    /** The wait returns; a reload event clears its latch. */
    method FinishWait() returns (event: ControlEvent)
      requires place.Chosen?
      modifies this
      ensures View() == Next(old(View()), Resume)
      ensures event == old(place).event && shutdownRequested == old(shutdownRequested)
      ensures event.ReloadEvent? ==> !reloadRequested && place == Cleared
      ensures event.ShutdownEvent? ==> reloadRequested == old(reloadRequested) && place == Over
    {
      event := place.event;
      now := now + 1;
      if event.ShutdownEvent? {
        place := Over;
        return;
      }
      reloadRequested := false;
      place := Cleared;
    }
  }

  // ---- every interleaving of signals with the loop ----

  ghost predicate IsRun(states: seq<State>, steps: seq<Step>) {
    && |states| == |steps| + 1 && states[0] == INITIAL
    && forall i :: 0 <= i < |steps| ==> Enabled(states[i], steps[i]) && states[i + 1] == Next(states[i], steps[i])
  }

  /** The latest reload request is covered by an attempt started after it, or still latched,
      or about to be attempted. */
  predicate NothingLost(s: State) {
    s.requestedAt <= s.attemptedAt || s.reload || s.place.Cleared?
  }

  predicate Invariant(s: State) {
    && NothingLost(s)
    && s.requestedAt <= s.now && s.attemptedAt <= s.now
    && (s.place == Chosen(ReloadEvent) ==> s.reload)
    && (s.place == Chosen(ShutdownEvent) || s.place.Over? ==> s.shutdown)
    && (s.place.Waiting? && s.place.shutdownLatched ==> s.shutdown)
    && s.lateAttempts <= 1
    && (s.lateAttempts == 1 ==>
          s.shutdown && (s.place.Reloading? || s.place.Ready? || s.place == Waiting(true)
                         || s.place == Chosen(ShutdownEvent) || s.place.Over?))
    && (!s.shutdown ==> s.lateAttempts == 0)
  }

  lemma {:induction false} RunKeeps(states: seq<State>, steps: seq<Step>, i: nat)
    requires IsRun(states, steps) && i < |states|
    ensures Invariant(states[i])
  {
    if i > 0 { RunKeeps(states, steps, i - 1); }
  }

  /** No reload request is lost, in any interleaving. Stated for any request, not only the
      latest: an attempt starts after it, or its latch or its attempt is still pending. */
  lemma NoReloadLost(states: seq<State>, steps: seq<Step>, i: nat, j: nat)
    requires IsRun(states, steps) && i < j < |states| && steps[i].RequestReload?
    ensures (exists k :: i < k < j && steps[k].StartReload?) || states[j].reload || states[j].place.Cleared?
  {
    RunKeeps(states, steps, j);
    Clock(states, steps, i);
    RequestTimes(states, steps, i, j);
    if states[j].requestedAt <= states[j].attemptedAt {
      AttemptSince(states, steps, i, j);
    }
  }

  lemma {:induction false} RequestTimes(states: seq<State>, steps: seq<Step>, i: nat, j: nat)
    requires IsRun(states, steps) && i < j < |states| && steps[i].RequestReload?
    ensures states[j].requestedAt > states[i].now
  {
    Clock(states, steps, i);
    if i + 1 < j {
      RequestTimes(states, steps, i, j - 1);
      Clock(states, steps, j - 1);
    }
  }

  lemma {:induction false} Clock(states: seq<State>, steps: seq<Step>, i: nat)
    requires IsRun(states, steps) && i < |states|
    ensures states[i].now == i && states[i].attemptedAt <= i
  {
    if i > 0 { Clock(states, steps, i - 1); }
  }

  lemma {:induction false} AttemptSince(states: seq<State>, steps: seq<Step>, i: nat, j: nat)
    requires IsRun(states, steps) && i < j < |states| && states[j].attemptedAt > i && !steps[i].StartReload?
    ensures exists k :: i < k < j && steps[k].StartReload?
  {
    Clock(states, steps, i);
    if !steps[j - 1].StartReload? {
      AttemptSince(states, steps, i, j - 1);
    }
  }

  function Requests(steps: seq<Step>): nat {
    if steps == [] then 0
    else Requests(steps[..|steps| - 1]) + (if steps[|steps| - 1].RequestReload? then 1 else 0)
  }

  function Attempts(steps: seq<Step>): nat {
    if steps == [] then 0
    else Attempts(steps[..|steps| - 1]) + (if steps[|steps| - 1].StartReload? then 1 else 0)
  }

  /** No reload is attempted unrequested: there are never more attempts than requests, counting
      one that is about to start and one that is still latched. */
  lemma {:induction false} AttemptsRequested(states: seq<State>, steps: seq<Step>, i: nat)
    requires IsRun(states, steps) && i < |states|
    ensures Attempts(steps[..i]) + (if states[i].place.Cleared? then 1 else 0) + (if states[i].reload then 1 else 0)
            <= Requests(steps[..i])
  {
    if i > 0 {
      AttemptsRequested(states, steps, i - 1);
      RunKeeps(states, steps, i - 1);
      assert steps[..i][..i - 1] == steps[..i - 1] && steps[..i][i - 1] == steps[i - 1];
    }
  }

  /** The loop is on its way out: it waits knowing of the shutdown, was told, or is over. */
  predicate Ending(s: State) {
    s.shutdown && (s.place == Waiting(true) || s.place == Chosen(ShutdownEvent) || s.place.Over?)
  }

  lemma {:induction false} EndingStays(states: seq<State>, steps: seq<Step>, i: nat, j: nat)
    requires IsRun(states, steps) && i <= j < |states| && Ending(states[i])
    ensures Ending(states[j])
    decreases j - i
  {
    if i < j {
      EndingStays(states, steps, i, j - 1);
      assert Enabled(states[j - 1], steps[j - 1]);
    }
  }

  /** Once a wait has begun after a shutdown request, the loop can only end: whatever signals
      still arrive and whatever is latched, no reload attempt starts and no wait begins again. */
  lemma ShutdownEndsWait(states: seq<State>, steps: seq<Step>, i: nat, w: nat, j: nat)
    requires IsRun(states, steps) && i < w < j < |steps|
    requires steps[i].RequestShutdown? && steps[w].BeginWait?
    ensures !steps[j].StartReload? && !steps[j].BeginWait? && Ending(states[j])
  {
    ShutdownLatched(states, steps, i, w);
    assert Enabled(states[w], steps[w]);
    EndingStays(states, steps, w + 1, j);
    assert Enabled(states[j], steps[j]);
  }

  predicate LoopStep(step: Step) { !step.RequestShutdown? && !step.RequestReload? }

  /** The loop is stuck exactly when it is over, or waits with nothing requested: no request
      that is latched is ever left waiting. */
  lemma WaitCanWake(states: seq<State>, steps: seq<Step>, i: nat)
    requires IsRun(states, steps) && i < |states|
    ensures (exists step :: LoopStep(step) && Enabled(states[i], step)) <==>
            !states[i].place.Over? && !(states[i].place.Waiting? && !states[i].shutdown && !states[i].reload)
  {
    RunKeeps(states, steps, i);
    var s := states[i];
    var next := match s.place
      case Ready => BeginWait
      case Waiting(_) => Choose(s.shutdown, s.reload)
      case Chosen(_) => Resume
      case Cleared => StartReload
      case Reloading => EndReload
      case Over => EndReload;
    assert LoopStep(next);
    if !s.place.Over? && !(s.place.Waiting? && !s.shutdown && !s.reload) { assert Enabled(s, next); }
  }

  /** After a shutdown request at most one more reload attempt starts. */
  lemma ShutdownIsPrompt(states: seq<State>, steps: seq<Step>, i: nat, k: nat, l: nat)
    requires IsRun(states, steps) && i < k < l < |steps|
    requires steps[i].RequestShutdown? && steps[k].StartReload?
    ensures !steps[l].StartReload?
  {
    LateCounted(states, steps, i, k, l);
    RunKeeps(states, steps, l);
  }

  lemma {:induction false} LateCounted(states: seq<State>, steps: seq<Step>, i: nat, k: nat, l: nat)
    requires IsRun(states, steps) && i < k < l < |states| && k < |steps|
    requires steps[i].RequestShutdown? && steps[k].StartReload?
    ensures states[l].lateAttempts >= 1
  {
    if k + 1 == l {
      ShutdownLatched(states, steps, i, k);
    } else {
      LateCounted(states, steps, i, k, l - 1);
    }
  }

  lemma {:induction false} ShutdownLatched(states: seq<State>, steps: seq<Step>, i: nat, k: nat)
    requires IsRun(states, steps) && i < k < |states| && steps[i].RequestShutdown?
    ensures states[k].shutdown
  {
    if i + 1 < k { ShutdownLatched(states, steps, i, k - 1); }
  }
}
