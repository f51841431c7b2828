/**
  What the events of the scheduler do, said without the functions that do it
  (apps/desktop/src/composables/useStorages.ts:141-165, 202-381, 472-481): when a sync starts, when it is put
  off, what a storage shows, and how a call ends.
 */
module SchedulerSteps {
  import opened Base
  import opened SchedulerModel
  import opened SchedulerRuns

  // ----- asking for a sync

  /** The target storages show a status; the others show what they did. */
  ghost predicate Shows(env: Env, storage: Target, before: map<Id, SyncStatus>, after: map<Id, SyncStatus>,
                        value: SyncStatus)
  {
    forall id ::
      if IsTarget(env, storage, id) then id in after && after[id] == value
      else (id in after <==> id in before) && (id in before ==> after[id] == before[id])
  }

  /** From `s` to `t` by one request: it waits, does nothing, is queued, or starts a call. */
  ghost predicate AskedFor(s: State, t: State, storage: Target, byTimer: bool) {
    && t.env == s.env && t.timers == s.timers
    && var started := !s.sync.busy && s.env.unlocked && HasTarget(s.env, storage) && s.env.online && s.env.reachable;
       var queued := !s.sync.busy && s.env.unlocked && HasTarget(s.env, storage) && !(s.env.online && s.env.reachable);
       && t.resumable == (if byTimer && !started then s.resumable + 1 else s.resumable)
       && (if started then
             && |t.sync.calls| == |s.sync.calls| + 1 && t.sync.calls[..|s.sync.calls|] == s.sync.calls
             && IsCallFor(t.sync.calls[|s.sync.calls|], s.env, storage, byTimer)
             && t.sync == Sync(true, t.sync.calls, s.sync.backoff, s.sync.pending, s.sync.queued)
             && Shows(s.env, storage, s.status, t.status, Syncing)
           else if queued then
             && t.sync == Sync(false, s.sync.calls, s.sync.backoff, s.sync.pending, Some(storage))
             && Shows(s.env, storage, s.status, t.status, Failed)
           else
             && t.status == s.status
             && t.sync == Sync(s.sync.busy, s.sync.calls, s.sync.backoff,
                               if s.sync.busy then Some(storage) else s.sync.pending, s.sync.queued))
  }

  lemma RequestedIs(s: State, storage: Target, byTimer: bool)
    ensures AskedFor(s, Requested(s, storage, byTimer), storage, byTimer)
  {
    TargetsAre(s.env, storage);
    hide Targets, HasTarget, IsTarget;
  }

  /** The state in which an asking event comes to ask: a timer is forgotten, the queue emptied, the network back. */
  function Asking(s: State, e: Event): State {
    match e
    case Fire(timer) =>
      if timer !in s.timers.armed then s
      else if s.timers.armed[timer].Auto? then
        s.(timers := Timers(s.timers.armed - {timer}, s.timers.next, None, s.timers.debounce))
      else
        s.(timers := Timers(s.timers.armed - {timer}, s.timers.next, s.timers.auto, None))
    case Online =>
      s.(env := Env(s.env.unlocked, true, true, s.env.remotes),
         sync := Sync(s.sync.busy, s.sync.calls, s.sync.backoff, s.sync.pending, None))
    case _ => s
  }

  predicate IsAutoTimer(s: State, e: Event) {
    e.Fire? && e.timer in s.timers.armed && s.timers.armed[e.timer].Auto?
  }

  /**
    A step that asks for a sync, whoever asks. It starts a call if and only if none is in flight, the application
    is unlocked, the network is there and there is a remote storage to sync. It queues the request if and only if
    all that holds but the network. It leaves the request to the call in flight if and only if there is one.
   */
  lemma AskingStep(s: State, e: Event)
    requires Asks(s, e).Some?
    ensures AskedFor(Asking(s, e), Step(s, e), Asks(s, e).value, IsAutoTimer(s, e))
  {
    RequestedIs(Asking(s, e), Asks(s, e).value, IsAutoTimer(s, e));
    hide AskedFor, Requested;
  }

  // ----- a locked application

  lemma LockedFinish(s: State, i: nat, retry: bool, rejected: bool)
    requires i < |s.sync.calls| && !s.env.unlocked
    ensures Finished(s, i, retry, rejected).sync.calls == s.sync.calls[..i] + s.sync.calls[i + 1..]
  {
    hide Marked, Targets;
  }

  lemma LockedStep(s: State, e: Event)
    requires !s.env.unlocked
    ensures |Step(s, e).sync.calls| <= |s.sync.calls|
    ensures Step(s, e).env.unlocked ==> e == Unlocked(true)
  {
    hide Marked, Targets, Finished, IsRetryable, IsSessionError, NextAutoSync, Debounced, AllDisarmed, Released;
    match e
    case Answer(i, Some(f)) => LockedEnds(s, i, f);
    case Reloaded(i, Some(f)) => LockedEnds(s, i, f);
    case Reloaded(i, None) =>
      if IsCall(s, i) {
        LockedFinish(s, i, false, false);
      }
    case SessionHandled(i, threw) =>
      if IsCall(s, i) && s.sync.calls[i].phase.Expiring? {
        LockedFinish(s, i, false, true);
        LockedEnds(s, i, s.sync.calls[i].phase.failure);
      }
    case _ =>
  }

  lemma LockedEnds(s: State, i: nat, f: Failure)
    requires !s.env.unlocked
    ensures IsCall(s, i) ==>
              && |Failing(s, i, f).sync.calls| <= |s.sync.calls| && !Failing(s, i, f).env.unlocked
              && |Caught(s, i, f).sync.calls| <= |s.sync.calls| && !Caught(s, i, f).env.unlocked
  {
    hide Marked, Finished, IsRetryable, IsSessionError;
    if IsCall(s, i) {
      var t := s.(status := Marked(s.status, s.sync.calls[i].targets, Failed));
      LockedFinish(t, i, IsRetryable(f), false);
      var u := t.(env := t.env.(reachable := false), sync := t.sync.(queued := Some(s.sync.calls[i].storage)));
      LockedFinish(u, i, IsRetryable(f), false);
    }
  }

  /** Over every run in which a locked application is not unlocked, no call is ever started. */
  lemma {:induction false} LockedNeverSyncs(s: State, events: seq<Event>)
    requires !s.env.unlocked && s.sync.calls == [] && Unlocked(true) !in events
    ensures Run(s, events).sync.calls == []
    decreases |events|
  {
    if events != [] {
      LockedStep(s, events[0]);
      hide Step;
      LockedNeverSyncs(Step(s, events[0]), events[1..]);
    }
  }

  // ----- how a call ends

  /** What the kind and text of an error mean. */
  lemma FailureMeans(f: Failure)
    ensures IsOfflineError(f) <==> f.network && (f.kind == None || f.kind == Some("system_info_failed"))
    ensures IsSessionError(f) <==> f.session || f.kind == Some("session_expired") || f.kind == Some("context_missing")
    ensures IsRetryable(f) <==>
            || (f.network && (f.kind == None || f.kind == Some("system_info_failed")))
            || f.kind == Some("vault_list_failed") || f.kind == Some("vault_get_failed")
            || f.kind == Some("sync_push_failed") || f.kind == Some("vault_key_update_failed")
            || f.kind == Some("network_timeout") || f.kind == Some("rate_limited")
            || f.kind == Some("temporary_unavailable") || f.kind == Some("server_unreachable")
  {
  }

  /** The failure an ending call reports, if it reports one. */
  function FailureOf(s: State, e: Event): Option<Failure> {
    match e
    case Answer(_, failure) => failure
    case Reloaded(_, failure) => failure
    case SessionHandled(i, threw) =>
      if threw || !IsCall(s, i) || !s.sync.calls[i].phase.Expiring? then None
      else Some(s.sync.calls[i].phase.failure)
    case _ => None
  }

  /** The one call is gone; its failure is shown, and a lost network is noted and the request queued. */
  ghost predicate EndedWith(s: State, t: State, failure: Option<Failure>, retry: bool, resumes: bool)
    requires |s.sync.calls| == 1
  {
    var c := s.sync.calls[0];
    var lost := failure.Some? && IsOfflineError(failure.value);
    && t.timers == s.timers && t.resumable == (if resumes && c.byTimer then s.resumable + 1 else s.resumable)
    && t.env == (if lost then Env(s.env.unlocked, s.env.online, false, s.env.remotes) else s.env)
    && t.sync == Sync(false, [], if retry then Min(s.sync.backoff + 1, 5) else 0, None,
                      if lost then Some(c.storage) else s.sync.queued)
    && (failure.None? ==> t.status == s.status)
    && (failure.Some? ==>
          forall id ::
            if id in c.targets then id in t.status && t.status[id] == Failed
            else (id in t.status <==> id in s.status) && (id in s.status ==> t.status[id] == s.status[id]))
  }

  lemma FinishIs(s: State, i: nat, retry: bool, rejected: bool)
    requires OneCall(s.sync) && i < |s.sync.calls| && s.sync.pending == None
    ensures EndedWith(s, Finished(s, i, retry, rejected), None, retry, !rejected)
  {
  }

  lemma FailIs(s: State, i: nat, f: Failure)
    requires OneCall(s.sync) && i < |s.sync.calls| && s.sync.pending == None
    ensures EndedWith(s, Failing(s, i, f), Some(f), IsRetryable(f), true)
  {
    hide IsRetryable, IsOfflineError;
  }

  /** A call ends while no request waits. */
  lemma EndingStep(s: State, e: Event)
    requires OneCall(s.sync) && s.sync.pending == None && EndingOf(s, e).Ends?
    ensures EndedWith(s, Step(s, e), FailureOf(s, e), EndingOf(s, e).retry, !(e.SessionHandled? && e.threw))
  {
    hide Finished, Failing, IsRetryable, IsSessionError, EndedWith;
    match e
    case Answer(i, failure) => FailIs(s, i, failure.value);
    case Reloaded(i, failure) =>
      FinishIs(s, i, false, false);
      if failure.Some? {
        FailIs(s, i, failure.value);
      }
    case SessionHandled(i, threw) =>
      FinishIs(s, i, false, true);
      FailIs(s, i, s.sync.calls[i].phase.failure);
  }

  /** Without the request that waits for the call. */
  function Quiet(s: State): State {
    s.(sync := Sync(s.sync.busy, s.sync.calls, s.sync.backoff, None, s.sync.queued))
  }

  lemma FinishThenAsks(s: State, i: nat, retry: bool, rejected: bool)
    requires i < |s.sync.calls| && s.sync.pending.Some?
    ensures Finished(s, i, retry, rejected)
            == Requested(Finished(Quiet(s), i, retry, rejected), s.sync.pending.value, false)
  {
    hide Marked, Targets;
  }

  lemma FailThenAsks(s: State, i: nat, f: Failure)
    requires i < |s.sync.calls| && s.sync.pending.Some?
    ensures Failing(s, i, f) == Requested(Failing(Quiet(s), i, f), s.sync.pending.value, false)
  {
    hide Marked, Finished, Requested, IsRetryable;
    var t := s.(status := Marked(s.status, s.sync.calls[i].targets, Failed));
    FinishThenAsks(t, i, IsRetryable(f), false);
    var u := t.(env := t.env.(reachable := false), sync := t.sync.(queued := Some(s.sync.calls[i].storage)));
    FinishThenAsks(u, i, IsRetryable(f), false);
  }

  /** A call that ends while a request waits does as if it ended and the request came right after. */
  lemma EndThenAsks(s: State, e: Event)
    requires EndingOf(s, e).Ends? && s.sync.pending.Some?
    ensures Step(s, e) == Step(Step(Quiet(s), e), Request(s.sync.pending.value))
  {
    hide Finished, Failing, Requested, IsRetryable, IsSessionError;
    match e
    case Answer(i, failure) => FailThenAsks(s, i, failure.value);
    case Reloaded(i, failure) =>
      FinishThenAsks(s, i, false, false);
      if failure.Some? {
        FailThenAsks(s, i, failure.value);
      }
    case SessionHandled(i, threw) =>
      FinishThenAsks(s, i, false, true);
      FailThenAsks(s, i, s.sync.calls[i].phase.failure);
  }

  /**
    A call that goes on: after a good answer it reloads, its storages show that they are synced and the server
    counts as reachable; after a session error it waits for the session handler, and nothing else changes.
   */
  lemma GoingOn(s: State, e: Event)
    requires EndingOf(s, e).Continues? && (e.Answer? || e.Reloaded? || e.SessionHandled?)
    ensures var t := Step(s, e);
            || t == s
            || (&& e.Answer? && e.failure == None && e.call < |s.sync.calls| && s.sync.calls[e.call].phase == Calling
                && var c := s.sync.calls[e.call];
                   && t.sync == s.sync.(calls := s.sync.calls[e.call :=
                                          Call(c.storage, c.targets, Reloading, c.byTimer)])
                   && t.env == Env(s.env.unlocked, s.env.online, true, s.env.remotes)
                   && t.timers == s.timers && t.resumable == s.resumable
                   && forall id ::
                        if id in c.targets then id in t.status && t.status[id] == Synced
                        else (id in t.status <==> id in s.status) && (id in s.status ==> t.status[id] == s.status[id]))
            || (&& !e.SessionHandled? && e.failure.Some? && IsSessionError(e.failure.value) && e.call < |s.sync.calls|
                && s.sync.calls[e.call].phase == (if e.Answer? then Calling else Reloading)
                && var c := s.sync.calls[e.call];
                   t == s.(sync := s.sync.(calls := s.sync.calls[e.call :=
                             Call(c.storage, c.targets, Expiring(e.failure.value), c.byTimer)])))
    ensures e.Answer? && e.call < |s.sync.calls| && s.sync.calls[e.call].phase == Calling ==> Step(s, e) != s
  {
    hide Finished, Failing, IsRetryable, IsSessionError;
  }

  // ----- timers and switches

  /** The events that arm, disarm or switch, each with everything it changes. */
  lemma SwitchingStep(s: State, e: Event)
    ensures var t := Step(s, e);
            match e
            case Stop =>
              && t.sync == Sync(s.sync.busy, s.sync.calls, 0, None, None) && t.timers.auto == None
              && t.timers.debounce == None && t.timers.next == s.timers.next
              && t.env == s.env && t.resumable == s.resumable && t.status == s.status
              && forall id :: id in t.timers.armed <==>
                              id in s.timers.armed && s.timers.auto != Some(id) && s.timers.debounce != Some(id)
            case Start =>
              if s.timers.auto.Some? then t == s
              else t == s.(timers := t.timers) && ArmsAuto(s.timers, t.timers)
            case Resume =>
              if s.resumable == 0 then t == s
              else t == s.(timers := t.timers, resumable := s.resumable - 1) && ArmsAuto(s.timers, t.timers)
            case Schedule(storage) =>
              if !s.env.unlocked then t == s
              else t == s.(timers := t.timers) && ArmsDebounce(s.timers, t.timers, storage)
            case Offline => t == s.(env := Env(s.env.unlocked, false, s.env.reachable, s.env.remotes))
            case Online => s.sync.queued == None ==> t == s.(env := Env(s.env.unlocked, true, true, s.env.remotes))
            case Fire(timer) => timer !in s.timers.armed ==> t == s
            case _ => true
  {
    hide Requested, Answered, Finished, Failing, Caught;
  }

  /** A new timer in place of the remembered one; the other kind is left alone. */
  predicate ArmsAuto(a: Timers, b: Timers) {
    && b.armed == (if a.auto.Some? then a.armed - {a.auto.value} else a.armed)[a.next := Auto]
    && b.auto == Some(a.next) && b.next == a.next + 1 && b.debounce == a.debounce
  }

  predicate ArmsDebounce(a: Timers, b: Timers, storage: Target) {
    && b.armed == (if a.debounce.Some? then a.armed - {a.debounce.value} else a.armed)[a.next := Debounce(storage)]
    && b.debounce == Some(a.next) && b.next == a.next + 1 && b.auto == a.auto
  }
}
