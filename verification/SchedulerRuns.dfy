/** What every run of the scheduler keeps, over all interleavings of its events. */
module SchedulerRuns {
  import opened Base
  import opened SchedulerModel

  // ----- one call, one timer of each kind

  /** The armed timers of a kind are exactly the remembered one. */
  predicate Remembers(armed: map<nat, Timer>, timer: Option<nat>, auto: bool) {
    && (timer.Some? ==> timer.value in armed && armed[timer.value].Auto? == auto)
    && (forall id :: id in armed && armed[id].Auto? == auto ==> timer == Some(id))
  }

  predicate OneTimerEach(t: Timers) {
    && Remembers(t.armed, t.auto, true) && Remembers(t.armed, t.debounce, false)
    && (forall id :: id in t.armed ==> id < t.next)
  }

  predicate Inv(s: State) {
    OneCall(s.sync) && OneTimerEach(s.timers)
  }

  lemma StepKeepsOneCall(s: State, e: Event)
    requires OneCall(s.sync)
    ensures OneCall(Step(s, e).sync)
  {
    hide Requested, Finished, Failing, Caught, Answered, Fired, CameOnline, NextAutoSync, Debounced, AllDisarmed;
  }

  lemma ArmingKeepsTimers(t: Timers, storage: Target)
    requires OneTimerEach(t)
    ensures OneTimerEach(NextAutoSync(t)) && OneTimerEach(Debounced(t, storage)) && OneTimerEach(AllDisarmed(t))
  {
  }

  lemma FiringKeepsTimers(t: Timers, timer: nat)
    requires OneTimerEach(t) && timer in t.armed
    ensures OneTimerEach(Popped(t, timer))
  {
  }

  lemma StepKeepsTimers(s: State, e: Event)
    requires OneTimerEach(s.timers)
    ensures OneTimerEach(Step(s, e).timers)
  {
    hide Requested, Finished, Failing, Caught, Answered, Fired, CameOnline, NextAutoSync, Debounced, AllDisarmed;
    hide OneTimerEach, Popped;
    ArmingKeepsTimers(s.timers, if e.Schedule? then e.storage else None);
    if e.Fire? && e.timer in s.timers.armed {
      FiringKeepsTimers(s.timers, e.timer);
    }
  }

  /** Over every run at most one `remote_sync` is in flight and at most one timer of each kind is armed. */
  lemma {:induction false} RunKeepsInv(s: State, events: seq<Event>)
    requires Inv(s)
    ensures Inv(Run(s, events))
    decreases |events|
  {
    if events != [] {
      StepKeepsOneCall(s, events[0]);
      StepKeepsTimers(s, events[0]);
      hide Step;
      RunKeepsInv(Step(s, events[0]), events[1..]);
    }
  }

  // ----- when a call ends

  /** Whether the event ends a call in this state, and whether it ends in a failure worth retrying. */
  datatype Ending = Continues | Ends(retry: bool)

  function EndingOf(s: State, e: Event): Ending {
    match e
    case Answer(i, Some(f)) =>
      if IsCall(s, i) && s.sync.calls[i].phase.Calling? && !IsSessionError(f) then Ends(IsRetryable(f)) else Continues
    case Reloaded(i, failure) =>
      if !IsCall(s, i) || !s.sync.calls[i].phase.Reloading? then Continues
      else if failure.None? then Ends(false)
      else if IsSessionError(failure.value) then Continues
      else Ends(IsRetryable(failure.value))
    case SessionHandled(i, threw) =>
      if IsCall(s, i) && s.sync.calls[i].phase.Expiring? then Ends(!threw && IsRetryable(s.sync.calls[i].phase.failure))
      else Continues
    case _ => Continues
  }

  // ----- backoff

  /** Consecutive retryable failures since the last reset, read off the events. */
  function NextStreak(s: State, e: Event, streak: nat): nat {
    if e.Stop? then 0
    else match EndingOf(s, e)
      case Continues => streak
      case Ends(retry) => if retry then streak + 1 else 0
  }

  function Streak(s: State, events: seq<Event>, streak: nat): nat
    decreases |events|
  {
    if events == [] then streak
    else Streak(Step(s, events[0]), events[1..], NextStreak(s, events[0], streak))
  }

  lemma FinishBackoff(s: State, i: nat, retry: bool, rejected: bool)
    requires i < |s.sync.calls|
    ensures Finished(s, i, retry, rejected).sync.backoff == if retry then Min(s.sync.backoff + 1, 5) else 0
  {
    hide Requested;
  }

  lemma FailBackoff(s: State, i: nat, f: Failure)
    requires i < |s.sync.calls|
    ensures Failing(s, i, f).sync.backoff == if IsRetryable(f) then Min(s.sync.backoff + 1, 5) else 0
  {
    hide Finished, Marked;
    var t := s.(status := Marked(s.status, s.sync.calls[i].targets, Failed));
    FinishBackoff(t, i, IsRetryable(f), false);
    var u := t.(env := t.env.(reachable := false), sync := t.sync.(queued := Some(s.sync.calls[i].storage)));
    FinishBackoff(u, i, IsRetryable(f), false);
  }

  lemma StepBackoff(s: State, e: Event)
    ensures Step(s, e).sync.backoff
            == if e.Stop? then 0
               else match EndingOf(s, e)
                 case Continues => s.sync.backoff
                 case Ends(retry) => if retry then Min(s.sync.backoff + 1, 5) else 0
  {
    hide Requested, Finished, Failing, NextAutoSync, Debounced, AllDisarmed, IsRetryable, IsSessionError, Marked;
    match e
    case Answer(i, Some(f)) =>
      if IsCall(s, i) {
        FailBackoff(s, i, f);
      }
    case Reloaded(i, failure) =>
      if IsCall(s, i) {
        FinishBackoff(s, i, false, false);
        if failure.Some? {
          FailBackoff(s, i, failure.value);
        }
      }
    case SessionHandled(i, threw) =>
      if IsCall(s, i) && s.sync.calls[i].phase.Expiring? {
        FinishBackoff(s, i, false, true);
        FailBackoff(s, i, s.sync.calls[i].phase.failure);
      }
    case _ =>
  }

  lemma {:induction false} BackoffFollowsStreak(s: State, events: seq<Event>, streak: nat)
    requires s.sync.backoff == Min(5, streak)
    ensures Run(s, events).sync.backoff == Min(5, Streak(s, events, streak))
    decreases |events|
  {
    if events != [] {
      StepBackoff(s, events[0]);
      hide Step, EndingOf;
      BackoffFollowsStreak(Step(s, events[0]), events[1..], NextStreak(s, events[0], streak));
    }
  }

  /**
    Over every run the backoff index is the number of consecutive retryable failures, capped at
    five, so the delay is the regular interval without failures and the step of the last failure
    with them; the lookup never leaves the table.
   */
  lemma BackoffIsStreak(events: seq<Event>)
    ensures var n := Streak(INIT, events, 0);
            && Run(INIT, events).sync.backoff == Min(5, n)
            && NextAutoSyncDelay(Run(INIT, events).sync.backoff)
               == if n == 0 then 60000 else [2000, 5000, 10000, 30000, 60000][Min(5, n) - 1]
  {
    BackoffFollowsStreak(INIT, events, 0);
  }

  /** What a scheduler can rely on at any moment. */
  predicate Safe(s: State) {
    Inv(s) && s.sync.backoff <= |BACKOFF_STEPS_MS|
  }

  lemma StepKeepsSafe(s: State, e: Event)
    requires Safe(s)
    ensures Safe(Step(s, e))
  {
    StepKeepsOneCall(s, e);
    StepKeepsTimers(s, e);
    StepBackoff(s, e);
    hide Step, EndingOf, OneCall, OneTimerEach;
  }

  lemma SafeAfter(s: State, e: Event)
    ensures Safe(s) ==> Safe(Step(s, e))
  {
    if Safe(s) {
      StepKeepsSafe(s, e);
    }
  }

  lemma SafeAfterRequest(s: State, storage: Target, byTimer: bool)
    ensures Safe(s) ==> Safe(Requested(s, storage, byTimer))
  {
    hide Requested;
  }

  lemma InitialSafe()
    ensures Safe(INIT)
  {
  }

  /** From the start of the application on, over every interleaving of events. */
  lemma EveryRunIsSafe(events: seq<Event>)
    ensures Safe(Run(INIT, events))
  {
    InitialSafe();
    RunKeepsInv(INIT, events);
    BackoffIsStreak(events);
    hide Run, Inv, Streak;
  }

  // ----- a request made while busy

  /** The storage an event asks a sync for, if it is one that calls `runRemoteSync`. */
  function Asks(s: State, e: Event): Option<Target> {
    match e
    case Request(storage) => Some(storage)
    case Fire(timer) =>
      if timer !in s.timers.armed then None
      else if s.timers.armed[timer].Auto? then Some(None)
      else Some(s.timers.armed[timer].storage)
    case Online => s.sync.queued
    case _ => None
  }

  /** Nothing asks again, stops the scheduler or ends the call. */
  predicate Uneventful(s: State, events: seq<Event>)
    decreases |events|
  {
    events == [] ||
    (Asks(s, events[0]).None? && !events[0].Stop? && EndingOf(s, events[0]).Continues?
     && Uneventful(Step(s, events[0]), events[1..]))
  }

  lemma AskingWhileBusy(s: State, e: Event)
    requires s.sync.busy && Asks(s, e).Some?
    ensures Step(s, e).sync.pending == Asks(s, e) && Step(s, e).sync.busy
  {
    hide Marked, Targets;
  }

  lemma PendingStays(s: State, e: Event)
    requires s.sync.busy && Asks(s, e).None? && !e.Stop? && EndingOf(s, e).Continues?
    ensures Step(s, e).sync.busy && Step(s, e).sync.pending == s.sync.pending
  {
    hide Requested, Finished, Failing, NextAutoSync, Debounced, Marked, IsRetryable, IsSessionError;
  }

  lemma {:induction false} PendingStaysOn(s: State, events: seq<Event>)
    requires OneCall(s.sync) && s.sync.busy && Uneventful(s, events)
    ensures var t := Run(s, events); OneCall(t.sync) && t.sync.busy && t.sync.pending == s.sync.pending
    decreases |events|
  {
    if events != [] {
      PendingStays(s, events[0]);
      StepKeepsOneCall(s, events[0]);
      hide Step, EndingOf, Asks;
      PendingStaysOn(Step(s, events[0]), events[1..]);
    }
  }

  /** A remote storage the request is about. */
  predicate IsTarget(env: Env, storage: Target, id: Id) {
    id in env.remotes && (storage == None || storage == Some(id))
  }

  predicate HasTarget(env: Env, storage: Target) {
    exists id :: id in env.remotes && IsTarget(env, storage, id)
  }

  lemma {:induction false} OnlyIs(ids: seq<Id>, id: Id, x: Id)
    ensures x in Only(ids, id) <==> x == id && id in ids
  {
    if ids != [] {
      OnlyIs(ids[1..], id, x);
    }
  }

  lemma TargetsAre(env: Env, storage: Target)
    ensures forall id :: id in Targets(env, storage) <==> IsTarget(env, storage, id)
    ensures Targets(env, storage) == [] <==> !HasTarget(env, storage)
  {
    forall id ensures id in Targets(env, storage) <==> IsTarget(env, storage, id) {
      if storage.Some? {
        OnlyIs(env.remotes, storage.value, id);
      }
    }
    hide Targets, IsTarget;
    if Targets(env, storage) != [] {
      assert IsTarget(env, storage, Targets(env, storage)[0]);
    }
  }

  /** A call for the remote storages a request is about, before its answer. */
  ghost predicate IsCallFor(c: Call, env: Env, storage: Target, byTimer: bool) {
    && c.storage == storage && c.phase == Calling && c.byTimer == byTimer
    && forall id :: id in c.targets <==> IsTarget(env, storage, id)
  }

  /** What a request leads to: a call, a place in the queue while the network is gone, or nothing. */
  ghost predicate Attempted(s: State, storage: Target) {
    if !s.env.unlocked || !HasTarget(s.env, storage) then !s.sync.busy
    else if s.env.online && s.env.reachable then
      s.sync.busy && |s.sync.calls| == 1 && IsCallFor(s.sync.calls[0], s.env, storage, false)
    else !s.sync.busy && s.sync.queued == Some(storage)
  }

  lemma FinishServesPending(s: State, i: nat, retry: bool, rejected: bool)
    requires OneCall(s.sync) && s.sync.pending.Some? && i < |s.sync.calls|
    ensures var u := Finished(s, i, retry, rejected);
            u.sync.pending == None && Attempted(u, s.sync.pending.value)
  {
    hide Marked, Targets, HasTarget, IsTarget;
    assert Released(s, i, retry).sync.calls == [];
    TargetsAre(s.env, s.sync.pending.value);
  }

  lemma FailServesPending(s: State, i: nat, f: Failure)
    requires OneCall(s.sync) && s.sync.pending.Some? && i < |s.sync.calls|
    ensures var u := Failing(s, i, f);
            u.sync.pending == None && Attempted(u, s.sync.pending.value)
  {
    hide Finished, Marked, Attempted;
    var t := s.(status := Marked(s.status, s.sync.calls[i].targets, Failed));
    FinishServesPending(t, i, IsRetryable(f), false);
    var u := t.(env := t.env.(reachable := false), sync := t.sync.(queued := Some(s.sync.calls[i].storage)));
    FinishServesPending(u, i, IsRetryable(f), false);
  }

  lemma EndServesPending(s: State, e: Event)
    requires OneCall(s.sync) && s.sync.pending.Some? && EndingOf(s, e).Ends?
    ensures Step(s, e).sync.pending == None && Attempted(Step(s, e), s.sync.pending.value)
  {
    hide Finished, Failing, Attempted, IsRetryable, IsSessionError;
    match e
    case Answer(i, failure) => FailServesPending(s, i, failure.value);
    case Reloaded(i, failure) =>
      if failure.None? {
        FinishServesPending(s, i, false, false);
      } else {
        FailServesPending(s, i, failure.value);
      }
    case SessionHandled(i, threw) =>
      FinishServesPending(s, i, false, true);
      FailServesPending(s, i, s.sync.calls[i].phase.failure);
  }

  /**
    A request made while a sync is in flight, from whatever source, is served when that sync ends,
    unless a later request or a stop comes in between: a new call for the requested storage is in
    flight, or it is queued because the network is gone, or there is nothing to sync.
   */
  lemma PendingIsServed(s: State, ask: Event, meanwhile: seq<Event>, last: Event)
    requires Inv(s) && s.sync.busy && Asks(s, ask).Some?
    requires Uneventful(Step(s, ask), meanwhile)
    requires EndingOf(Run(Step(s, ask), meanwhile), last).Ends?
    ensures var u := Step(Run(Step(s, ask), meanwhile), last);
            u.sync.pending == None && Attempted(u, Asks(s, ask).value)
  {
    AskingWhileBusy(s, ask);
    StepKeepsOneCall(s, ask);
    hide Step, Attempted, EndingOf, Asks;
    PendingStaysOn(Step(s, ask), meanwhile);
    EndServesPending(Run(Step(s, ask), meanwhile), last);
  }
}
