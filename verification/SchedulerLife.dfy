/** How long automatic syncing lives, what a stop stops, and what the status map shows. */
module SchedulerLife {
  import opened Base
  import opened SchedulerModel
  import opened SchedulerRuns

  // ----- automatic syncing

  predicate Awaited(calls: seq<Call>) {
    exists i :: 0 <= i < |calls| && calls[i].byTimer
  }

  /** A timer callback is suspended: it will arm the next timer when it goes on. */
  predicate Suspended(s: State) {
    s.resumable > 0 || Awaited(s.sync.calls)
  }

  predicate Alive(s: State) {
    s.timers.auto.Some? || Suspended(s)
  }

  /** The session handler throws, so the error leaves the call and the timer callback that awaits it. */
  predicate Breaks(s: State, e: Event) {
    e.SessionHandled? && e.threw && IsCall(s, e.call) && s.sync.calls[e.call].phase.Expiring?
        && s.sync.calls[e.call].byTimer
  }

  /** A request by a timer leaves a suspended callback; any request keeps those there are. */
  lemma RequestSuspends(s: State, storage: Target, byTimer: bool)
    ensures Suspended(Requested(s, storage, byTimer)) <==> Suspended(s) || byTimer
  {
    var r := Requested(s, storage, byTimer);
    hide Marked, Targets;
    if WayOf(s.env, s.sync.busy, storage).Free? {
      var c := r.sync.calls[|s.sync.calls|];
      assert c.byTimer == byTimer;
      assert forall i :: 0 <= i < |s.sync.calls| ==> r.sync.calls[i] == s.sync.calls[i];
    }
  }

  lemma FinishSuspends(s: State, i: nat, retry: bool, rejected: bool)
    requires OneCall(s.sync) && i < |s.sync.calls|
    ensures Suspended(Finished(s, i, retry, rejected)) <==> s.resumable > 0 || (s.sync.calls[i].byTimer && !rejected)
  {
    var t := Released(s, i, retry);
    assert t.sync.calls == [];
    if s.sync.pending.Some? {
      RequestSuspends(t, s.sync.pending.value, false);
    }
    hide Requested, Released;
  }

  lemma FailSuspends(s: State, i: nat, f: Failure)
    requires OneCall(s.sync) && i < |s.sync.calls|
    ensures Suspended(Failing(s, i, f)) <==> Suspended(s)
  {
    hide Finished, Marked;
    var t := s.(status := Marked(s.status, s.sync.calls[i].targets, Failed));
    FinishSuspends(t, i, IsRetryable(f), false);
    var u := t.(env := t.env.(reachable := false), sync := t.sync.(queued := Some(s.sync.calls[i].storage)));
    FinishSuspends(u, i, IsRetryable(f), false);
  }

  lemma PhaseSuspends(s: State, i: nat, phase: Phase)
    requires i < |s.sync.calls|
    ensures Suspended(InPhase(s, i, phase)) <==> Suspended(s)
  {
    var r := InPhase(s, i, phase);
    assert forall j :: 0 <= j < |s.sync.calls| ==> r.sync.calls[j].byTimer == s.sync.calls[j].byTimer;
  }

  lemma CaughtSuspends(s: State, i: nat, f: Failure)
    requires OneCall(s.sync) && i < |s.sync.calls|
    ensures Suspended(Caught(s, i, f)) <==> Suspended(s)
  {
    PhaseSuspends(s, i, Expiring(f));
    FailSuspends(s, i, f);
  }

  lemma CallSuspends(s: State, e: Event)
    requires OneCall(s.sync) && (e.Answer? || e.Reloaded? || e.SessionHandled?)
    ensures Suspended(Step(s, e)) <==> if Breaks(s, e) then s.resumable > 0 else Suspended(s)
  {
    hide Finished, Failing, Caught, InPhase, Marked, Suspended;
    match e
    case Answer(i, failure) =>
      if IsCall(s, i) {
        PhaseSuspends(s, i, Reloading);
        if failure.Some? {
          CaughtSuspends(s, i, failure.value);
        } else {
          SameSuspension(InPhase(s, i, Reloading), Answered(s, i, failure));
        }
      }
    case Reloaded(i, failure) =>
      if IsCall(s, i) {
        FinishIsSuspension(s, i, false);
        if failure.Some? {
          CaughtSuspends(s, i, failure.value);
        }
      }
    case SessionHandled(i, threw) =>
      if IsCall(s, i) && s.sync.calls[i].phase.Expiring? {
        FinishIsSuspension(s, i, true);
        FailSuspends(s, i, s.sync.calls[i].phase.failure);
      }
  }

  lemma SameSuspension(s: State, t: State)
    requires s.sync == t.sync && s.resumable == t.resumable
    ensures Suspended(s) <==> Suspended(t)
  {
  }

  lemma FinishIsSuspension(s: State, i: nat, rejected: bool)
    requires OneCall(s.sync) && i < |s.sync.calls|
    ensures Suspended(Finished(s, i, false, rejected))
            <==> if rejected && s.sync.calls[i].byTimer then s.resumable > 0 else Suspended(s)
  {
    FinishSuspends(s, i, false, rejected);
    hide Finished;
  }

  lemma OtherSuspends(s: State, e: Event)
    requires !(e.Answer? || e.Reloaded? || e.SessionHandled? || e.Resume?)
    ensures Suspended(Step(s, e))
            <==> Suspended(s) || (e.Fire? && e.timer in s.timers.armed && s.timers.armed[e.timer].Auto?)
  {
    hide Requested, Suspended, NextAutoSync, Debounced, AllDisarmed, Popped;
    match e
    case Request(storage) => RequestSuspends(s, storage, false);
    case Fire(timer) =>
      if timer in s.timers.armed {
        var t := s.(timers := Popped(s.timers, timer));
        SameSuspension(s, t);
        if s.timers.armed[timer].Auto? {
          RequestSuspends(t, None, true);
        } else {
          RequestSuspends(t, s.timers.armed[timer].storage, false);
        }
      }
    case Online =>
      var t := s.(env := s.env.(online := true, reachable := true));
      SameSuspension(s, t);
      if s.sync.queued.Some? {
        var u := t.(sync := t.sync.(queued := None));
        QueueIsNoSuspension(t, u);
        RequestSuspends(u, s.sync.queued.value, false);
      }
    case Stop => QueueIsNoSuspension(s, Stopped(s));
    case _ => SameSuspension(s, Step(s, e));
  }

  lemma QueueIsNoSuspension(s: State, t: State)
    requires s.sync.calls == t.sync.calls && s.resumable == t.resumable
    ensures Suspended(s) <==> Suspended(t)
  {
  }

  /** What takes the last trace of automatic syncing away. */
  predicate Ends(s: State, e: Event) {
    (e.Stop? && !Suspended(s)) || (Breaks(s, e) && s.resumable == 0 && s.timers.auto.None?)
  }

  /** Which remembered timer there is after a step. */
  lemma AutoAfter(s: State, e: Event)
    requires OneTimerEach(s.timers)
    ensures Step(s, e).timers.auto.Some?
            <==> match e
                 case Start => true
                 case Stop => false
                 case Resume => s.resumable > 0 || s.timers.auto.Some?
                 case Fire(timer) => s.timers.auto.Some? && s.timers.auto != Some(timer)
                 case _ => s.timers.auto.Some?
  {
    hide Requested, Finished, Failing, Caught, Answered, CameOnline;
  }

  /**
    One step ends automatic syncing exactly if it is a stop with no callback suspended, or a broken
    callback that was the last.
   */
  lemma StepLife(s: State, e: Event)
    requires Inv(s) && Alive(s)
    ensures Alive(Step(s, e)) <==> !Ends(s, e)
  {
    AutoAfter(s, e);
    if e.Answer? || e.Reloaded? || e.SessionHandled? {
      CallSuspends(s, e);
    } else if !e.Resume? {
      OtherSuspends(s, e);
    }
    hide Step;
    assert e.Fire? && s.timers.auto == Some(e.timer) ==> s.timers.armed[e.timer].Auto?;
  }

  predicate NeverEnds(s: State, events: seq<Event>)
    decreases |events|
  {
    events == [] || (!Ends(s, events[0]) && NeverEnds(Step(s, events[0]), events[1..]))
  }

  /** Automatic syncing, once started, goes on through every run in which no such step occurs. */
  lemma {:induction false} AutoSyncLives(s: State, events: seq<Event>)
    requires Inv(s) && Alive(s) && NeverEnds(s, events)
    ensures Alive(Run(s, events))
    decreases |events|
  {
    if events != [] {
      StepLife(s, events[0]);
      StepKeepsOneCall(s, events[0]);
      StepKeepsTimers(s, events[0]);
      hide Step, Ends, Alive;
      AutoSyncLives(Step(s, events[0]), events[1..]);
    }
  }

  // ----- stopping

  predicate NoStart(events: seq<Event>) {
    forall i :: 0 <= i < |events| ==> !events[i].Start?
  }

  lemma {:induction false} DeadStaysDead(s: State, events: seq<Event>)
    requires Inv(s) && !Alive(s) && NoStart(events)
    ensures !Alive(Run(s, events))
    decreases |events|
  {
    if events != [] {
      var e := events[0];
      AutoAfter(s, e);
      if e.Answer? || e.Reloaded? || e.SessionHandled? {
        CallSuspends(s, e);
      } else if !e.Resume? {
        OtherSuspends(s, e);
      }
      StepKeepsOneCall(s, e);
      StepKeepsTimers(s, e);
      hide Step;
      DeadStaysDead(Step(s, e), events[1..]);
    }
  }

  /** The rest of a suspended callback, if all goes well. */
  function Continuation(s: State): seq<Event>
    requires Suspended(s) && OneCall(s.sync)
  {
    if s.resumable > 0 then [Resume]
    else match s.sync.calls[0].phase
      case Calling => [Answer(0, None), Reloaded(0, None), Resume]
      case Reloading => [Reloaded(0, None), Resume]
      case Expiring(_) => [SessionHandled(0, false), Resume]
  }

  lemma RunOne(s: State, e: Event, rest: seq<Event>)
    ensures Run(s, [e] + rest) == Run(Step(s, e), rest)
  {
    assert ([e] + rest)[1..] == rest;
  }

  lemma ResumeArms(s: State)
    requires s.resumable > 0
    ensures Run(s, [Resume]).timers.auto.Some?
  {
    RunOne(s, Resume, []);
    assert [Resume] == [Resume] + [];
  }

  lemma ReturnResumes(s: State, e: Event)
    requires OneCall(s.sync) && s.resumable == 0 && Awaited(s.sync.calls)
    requires (e == Reloaded(0, None) && s.sync.calls[0].phase.Reloading?)
             || (e == SessionHandled(0, false) && s.sync.calls[0].phase.Expiring?)
    ensures Step(s, e).resumable > 0
  {
    hide Requested, Marked;
  }

  lemma ContinuationArms(s: State)
    requires Suspended(s) && OneCall(s.sync)
    ensures Run(s, Continuation(s)).timers.auto.Some? && NoStart(Continuation(s))
  {
    if s.resumable > 0 {
      ResumeArms(s);
    } else {
      var t := if s.sync.calls[0].phase.Calling? then Step(s, Answer(0, None)) else s;
      var e := if t.sync.calls[0].phase.Reloading? then Reloaded(0, None) else SessionHandled(0, false);
      assert t.sync.calls[0].byTimer;
      ReturnResumes(t, e);
      ResumeArms(Step(t, e));
      hide Step;
      RunOne(t, e, [Resume]);
      if s.sync.calls[0].phase.Calling? {
        RunOne(s, Answer(0, None), [e, Resume]);
        assert Continuation(s) == [Answer(0, None)] + [e, Resume];
      }
      assert [e, Resume] == [e] + [Resume];
    }
  }

  /**
    A stop is final, in that no later run without a start arms an automatic timer, if and only if
    no timer callback is suspended at that moment. A stop during a timer's own sync is undone
    when that sync returns.
   */
  lemma StopIsFinal(s: State)
    requires Inv(s)
    ensures (forall events :: NoStart(events) ==> Run(Stopped(s), events).timers.auto.None?) <==> !Suspended(s)
  {
    var t := Stopped(s);
    assert t == Step(s, Stop);
    StepKeepsOneCall(s, Stop);
    StepKeepsTimers(s, Stop);
    QueueIsNoSuspension(s, t);
    hide Stopped;
    if Suspended(s) {
      ContinuationArms(t);
    } else {
      forall events | NoStart(events)
        ensures Run(t, events).timers.auto.None?
      {
        DeadStaysDead(t, events);
      }
    }
  }

  // ----- the status map

  predicate NoneSyncing(status: map<Id, SyncStatus>) {
    forall id :: id in status ==> status[id] != Syncing
  }

  /** A storage is shown as syncing only while the call in flight is about it. */
  predicate Truthful(s: State) {
    forall id :: id in s.status && s.status[id] == Syncing ==>
      s.sync.busy && |s.sync.calls| == 1 && id in s.sync.calls[0].targets && !s.sync.calls[0].phase.Reloading?
  }

  lemma RequestIsTruthful(s: State, storage: Target, byTimer: bool)
    requires OneCall(s.sync) && Truthful(s)
    ensures Truthful(Requested(s, storage, byTimer))
  {
    hide Targets;
  }

  lemma FinishIsTruthful(s: State, i: nat, retry: bool, rejected: bool)
    requires OneCall(s.sync) && i < |s.sync.calls| && NoneSyncing(s.status)
    ensures Truthful(Finished(s, i, retry, rejected))
  {
    var t := Released(s, i, retry);
    assert t.sync.calls == [] && Truthful(t);
    if s.sync.pending.Some? {
      RequestIsTruthful(t, s.sync.pending.value, false);
    }
    hide Requested, Released;
  }

  lemma FailIsTruthful(s: State, i: nat, f: Failure)
    requires OneCall(s.sync) && i < |s.sync.calls| && Truthful(s)
    ensures Truthful(Failing(s, i, f))
  {
    var status := Marked(s.status, s.sync.calls[i].targets, Failed);
    assert NoneSyncing(status);
    hide Finished, Marked, NoneSyncing, Truthful;
    var t := s.(status := status);
    FinishIsTruthful(t, i, IsRetryable(f), false);
    var u := t.(env := t.env.(reachable := false), sync := t.sync.(queued := Some(s.sync.calls[i].storage)));
    FinishIsTruthful(u, i, IsRetryable(f), false);
  }

  lemma CaughtIsTruthful(s: State, i: nat, f: Failure)
    requires OneCall(s.sync) && i < |s.sync.calls| && Truthful(s)
    ensures Truthful(Caught(s, i, f))
  {
    FailIsTruthful(s, i, f);
    hide Failing;
  }

  predicate Throws(s: State, e: Event) {
    e.SessionHandled? && e.threw && IsCall(s, e.call) && s.sync.calls[e.call].phase.Expiring?
  }

  lemma CallIsTruthful(s: State, e: Event)
    requires OneCall(s.sync) && Truthful(s) && !Throws(s, e) && (e.Answer? || e.Reloaded? || e.SessionHandled?)
    ensures Truthful(Step(s, e))
  {
    hide Finished, Failing, Caught;
    match e
    case Answer(i, failure) =>
      if IsCall(s, i) && failure.Some? {
        CaughtIsTruthful(s, i, failure.value);
      }
    case Reloaded(i, failure) =>
      if IsCall(s, i) && s.sync.calls[i].phase.Reloading? {
        FinishIsTruthful(s, i, false, false);
        if failure.Some? {
          CaughtIsTruthful(s, i, failure.value);
        }
      }
    case SessionHandled(i, threw) =>
      if IsCall(s, i) && s.sync.calls[i].phase.Expiring? {
        FailIsTruthful(s, i, s.sync.calls[i].phase.failure);
      }
  }

  lemma SameShown(s: State, t: State)
    requires s.status == t.status && s.sync.busy == t.sync.busy && s.sync.calls == t.sync.calls
    ensures Truthful(s) <==> Truthful(t)
  {
  }

  lemma OtherIsTruthful(s: State, e: Event)
    requires OneCall(s.sync) && Truthful(s) && !(e.Answer? || e.Reloaded? || e.SessionHandled?)
    ensures Truthful(Step(s, e))
  {
    hide Requested, Truthful, NextAutoSync, Debounced, AllDisarmed, Popped;
    match e
    case Request(storage) => RequestIsTruthful(s, storage, false);
    case Fire(timer) =>
      if timer in s.timers.armed {
        var t := s.(timers := Popped(s.timers, timer));
        SameShown(s, t);
        if s.timers.armed[timer].Auto? {
          RequestIsTruthful(t, None, true);
        } else {
          RequestIsTruthful(t, s.timers.armed[timer].storage, false);
        }
      }
    case Online =>
      var t := s.(env := s.env.(online := true, reachable := true));
      SameShown(s, t);
      if s.sync.queued.Some? {
        var u := t.(sync := t.sync.(queued := None));
        SameShown(t, u);
        RequestIsTruthful(u, s.sync.queued.value, false);
      }
    case _ => SameShown(s, Step(s, e));
  }

  /** The storages whose status a pending request overwrites when it is served. */
  function Retargeted(s: State): seq<Id> {
    if s.sync.pending.None? then []
    else
      var way := WayOf(s.env, false, s.sync.pending.value);
      if way.Free? || way.NoNetwork? then Targets(s.env, s.sync.pending.value) else []
  }

  /** If the session handler throws, what was shown as syncing stays so unless a pending request takes it over. */
  lemma ThrowIsTruthful(s: State, e: Event)
    requires OneCall(s.sync) && Throws(s, e)
    ensures Truthful(Step(s, e)) <==>
            forall id :: id in s.status && s.status[id] == Syncing ==> id in Retargeted(s)
  {
    var r := Step(s, e);
    assert Released(s, e.call, false).sync.calls == [];
    hide Targets;
    assert forall id :: id in s.status && s.status[id] == Syncing && id !in Retargeted(s) ==>
                          id in r.status && r.status[id] == Syncing;
  }

  predicate NeverThrows(s: State, events: seq<Event>)
    decreases |events|
  {
    events == [] || (!Throws(s, events[0]) && NeverThrows(Step(s, events[0]), events[1..]))
  }

  /** Over every run in which the session handler never throws, the status map tells the truth. */
  lemma {:induction false} StatusIsTruthful(s: State, events: seq<Event>)
    requires Inv(s) && Truthful(s) && NeverThrows(s, events)
    ensures Truthful(Run(s, events))
    ensures !Run(s, events).sync.busy ==> NoneSyncing(Run(s, events).status)
    decreases |events|
  {
    if events != [] {
      var e := events[0];
      if e.Answer? || e.Reloaded? || e.SessionHandled? {
        CallIsTruthful(s, e);
      } else {
        OtherIsTruthful(s, e);
      }
      StepKeepsOneCall(s, e);
      StepKeepsTimers(s, e);
      hide Step, Throws;
      StatusIsTruthful(Step(s, e), events[1..]);
    }
  }

  /** The state of the example below: storage 7 syncs. */
  function SyncingState(phase: Phase): State {
    State(Env(true, true, true, [7]), Sync(true, [Call(None, [7], phase, false)], 0, None, None),
          Timers(map[], 1, None, None), 0, map[7 := Syncing])
  }

  lemma SyncingIsReached()
    ensures Run(INIT, [Unlocked(true), Storages([7]), Request(None)]) == SyncingState(Calling)
  {
    var a := INIT.(env := Env(true, true, true, []));
    var b := INIT.(env := Env(true, true, true, [7]));
    assert Step(INIT, Unlocked(true)) == a;
    assert Step(a, Storages([7])) == b;
    assert Step(b, Request(None)) == SyncingState(Calling) by {
      assert Marked(map[], [7], Syncing) == map[7 := Syncing];
    }
    hide Step;
    RunOne(INIT, Unlocked(true), [Storages([7]), Request(None)]);
    RunOne(a, Storages([7]), [Request(None)]);
    RunOne(b, Request(None), []);
    assert [Request(None)] == [Request(None)] + [];
    assert [Storages([7]), Request(None)] == [Storages([7])] + [Request(None)];
    assert [Unlocked(true), Storages([7]), Request(None)] == [Unlocked(true)] + [Storages([7]), Request(None)];
  }

  /** A throwing session handler leaves storage 7 shown as syncing with nothing in flight. */
  lemma StuckSyncing(f: Failure)
    requires IsSessionError(f)
    ensures Run(INIT, [Unlocked(true), Storages([7]), Request(None)]) == SyncingState(Calling)
    ensures Step(SyncingState(Calling), Answer(0, Some(f))) == SyncingState(Expiring(f))
    ensures var t := Step(SyncingState(Expiring(f)), SessionHandled(0, true));
            !t.sync.busy && t.sync.calls == [] && t.status == map[7 := Syncing]
  {
    hide IsSessionError, IsOfflineError, IsRetryable, Requested;
    SyncingIsReached();
  }
}
