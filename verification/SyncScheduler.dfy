/** The scheduler itself, field by field (apps/desktop/src/composables/useStorages.ts:39-56, 152-381, 472-481). */
module SyncScheduler {
  import opened Base
  import opened SchedulerModel
  import opened SchedulerRuns

  lemma NothingMarked(status: map<Id, SyncStatus>, value: SyncStatus)
    ensures Marked(status, [], value) == status
  {
  }

  lemma MarkedOneMore(status: map<Id, SyncStatus>, targets: seq<Id>, i: nat, value: SyncStatus)
    requires i < |targets|
    ensures Marked(status, targets[..i], value)[targets[i] := value] == Marked(status, targets[..i + 1], value)
  {
    assert targets[..i + 1] == targets[..i] + [targets[i]];
  }

  class Scheduler {
    // decided elsewhere
    var unlocked: bool
    var isNetworkOnline: bool
    var isServerReachable: bool
    var remotes: seq<Id>
    // the scheduler's own variables
    var syncBusy: bool
    var backoffIndex: nat
    var pendingSync: Option<Target>  // a requested flag and a storage id that is null whenever the flag is down
    var queuedSync: Option<Target>   // likewise
    var autoTimer: Option<nat>
    var debounceTimer: Option<nat>
    var status: map<Id, SyncStatus>
    // the event loop: suspended calls, armed timers, callbacks to go on with
    var calls: seq<Call>
    var armed: map<nat, Timer>
    var nextTimer: nat
    var resumable: nat

    ghost function EnvNow(): Env
      reads this
    {
      Env(unlocked, isNetworkOnline, isServerReachable, remotes)
    }

    ghost function SyncNow(): Sync
      reads this
    {
      Sync(syncBusy, calls, backoffIndex, pendingSync, queuedSync)
    }

    ghost function TimersNow(): Timers
      reads this
    {
      Timers(armed, nextTimer, autoTimer, debounceTimer)
    }

    ghost function View(): State
      reads this
    {
      State(EnvNow(), SyncNow(), TimersNow(), resumable, status)
    }

    /** At most one call in flight, the busy flag and the timer variables true, the backoff index in range. */
    ghost predicate Valid()
      reads this
    {
      Safe(View())
    }

    constructor ()
      ensures View() == INIT && Valid()
    {
      unlocked, isNetworkOnline, isServerReachable, remotes := false, true, true, [];
      syncBusy, backoffIndex, calls := false, 0, [];
      pendingSync, queuedSync := None, None;
      autoTimer, debounceTimer, armed, nextTimer, resumable := None, None, map[], 1, 0;
      status := map[];
      new;
      InitialSafe();
    }

    /** The loops over the target storages that set their status. */
    method MarkAll(targets: seq<Id>, value: SyncStatus)
      modifies this`status
      ensures status == Marked(old(status), targets, value)
    {
      hide Marked;
      assert status == Marked(old(status), targets[..0], value) by {
        NothingMarked(status, value);
      }
      for i := 0 to |targets|
        invariant status == Marked(old(status), targets[..i], value)
      {
        MarkedOneMore(old(status), targets, i, value);
        status := status[targets[i] := value];
      }
      assert targets[..|targets|] == targets;
    }

    /** The filter over the storages. */
    method TargetStorages(storage: Target) returns (targets: seq<Id>)
      ensures targets == Targets(EnvNow(), storage)
    {
      if storage.None? {
        return remotes;
      }
      targets := [];
      for i := |remotes| downto 0
        invariant targets == Only(remotes[i..], storage.value)
      {
        assert remotes[i..][1..] == remotes[i + 1..];
        if remotes[i] == storage.value {
          targets := [remotes[i]] + targets;
        }
      }
      assert remotes[0..] == remotes;
    }

    /** `runRemoteSync` up to its first `await`, or to its return if it does not get there. */
    method Launch(storage: Target, byTimer: bool) returns (suspended: bool)
      modifies this`status, this`syncBusy, this`calls, this`pendingSync, this`queuedSync
      ensures suspended == WayOf(old(EnvNow()), old(syncBusy), storage).Free?
      ensures suspended <==> !old(syncBusy) && unlocked && isNetworkOnline && isServerReachable
                             && HasTarget(EnvNow(), storage)
      ensures View() == Requested(old(View()), storage, byTimer).(resumable := old(resumable))
    {
      hide Marked, Targets, HasTarget;
      TargetsAre(EnvNow(), storage);
      if syncBusy {
        pendingSync := Some(storage);
        return false;
      }
      if !unlocked {
        return false;
      }
      var targets := TargetStorages(storage);
      if targets == [] {
        return false;
      }
      if !isNetworkOnline || !isServerReachable {
        MarkAll(targets, Failed);
        queuedSync := Some(storage);
        return false;
      }
      MarkAll(targets, Syncing);
      syncBusy := true;
      calls := calls + [Call(storage, targets, Calling, byTimer)];
      suspended := true;
    }

    /** A call of `runRemoteSync`; a timer callback that gets its answer at once can go on. */
    method RunRemoteSync(storage: Target, byTimer: bool)
      modifies this`status, this`syncBusy, this`calls, this`pendingSync, this`queuedSync, this`resumable
      ensures View() == Requested(old(View()), storage, byTimer)
      ensures old(Valid()) ==> Valid()
    {
      hide Safe;
      SafeAfterRequest(View(), storage, byTimer);
      var suspended := Launch(storage, byTimer);
      if byTimer && !suspended {
        resumable := resumable + 1;
      }
    }

    /** The `finally` block. */
    method Finish(i: nat, success: bool, retryableFailure: bool, rejected: bool)
      requires i < |calls|
      modifies this
      ensures View() == Finished(old(View()), i, !success && retryableFailure, rejected)
    {
      var call := calls[i];
      calls := calls[..i] + calls[i + 1..];
      syncBusy := false;
      if success {
        backoffIndex := 0;
      } else if retryableFailure {
        backoffIndex := Min(backoffIndex + 1, |BACKOFF_STEPS_MS|);
      } else {
        backoffIndex := 0;
      }
      if pendingSync.Some? {
        var nextStorage := pendingSync.value;
        pendingSync := None;
        assert View() == Released(old(View()), i, !success && retryableFailure);
        RunRemoteSync(nextStorage, false);
      }
      if call.byTimer && !rejected {
        resumable := resumable + 1;
      }
    }

    /** The end of the `catch` block, and the `finally` block after it. */
    method Fail(i: nat, f: Failure)
      requires i < |calls|
      modifies this
      ensures View() == Failing(old(View()), i, f)
    {
      MarkAll(calls[i].targets, Failed);
      if IsOfflineError(f) {
        isServerReachable := false;
        queuedSync := Some(calls[i].storage);
      }
      Finish(i, false, IsRetryable(f), false);
    }

    method Catch(i: nat, f: Failure)
      requires i < |calls|
      modifies this
      ensures View() == Caught(old(View()), i, f)
    {
      if IsSessionError(f) {
        calls := calls[i := calls[i].(phase := Expiring(f))];
      } else {
        Fail(i, f);
      }
    }

    /** The event loop continues call `i` after the back end answered. */
    method OnAnswer(i: nat, failure: Option<Failure>)
      modifies this
      ensures View() == Step(old(View()), Answer(i, failure))
      ensures old(Valid()) ==> Valid()
    {
      hide Safe;
      SafeAfter(View(), Answer(i, failure));
      if i >= |calls| || !calls[i].phase.Calling? {
        return;
      }
      if failure.Some? {
        Catch(i, failure.value);
        return;
      }
      MarkAll(calls[i].targets, Synced);
      isServerReachable := true;
      calls := calls[i := calls[i].(phase := Reloading)];
    }

    /** ... after the reloads. */
    method OnReloaded(i: nat, failure: Option<Failure>)
      modifies this
      ensures View() == Step(old(View()), Reloaded(i, failure))
      ensures old(Valid()) ==> Valid()
    {
      hide Safe;
      SafeAfter(View(), Reloaded(i, failure));
      if i >= |calls| || !calls[i].phase.Reloading? {
        return;
      }
      if failure.Some? {
        Catch(i, failure.value);
      } else {
        Finish(i, true, false, false);
      }
    }

    /** ... after the session handler. */
    method OnSessionHandled(i: nat, threw: bool)
      modifies this
      ensures View() == Step(old(View()), SessionHandled(i, threw))
      ensures old(Valid()) ==> Valid()
    {
      hide Safe;
      SafeAfter(View(), SessionHandled(i, threw));
      if i >= |calls| || !calls[i].phase.Expiring? {
        return;
      }
      if threw {
        Finish(i, false, false, true);
      } else {
        Fail(i, calls[i].phase.failure);
      }
    }

    method ClearTimeout(timer: Option<nat>)
      modifies this`armed
      ensures armed == Disarmed(old(armed), timer)
    {
      if timer.Some? {
        armed := armed - {timer.value};
      }
    }

    method SetTimeout(timer: Timer) returns (id: nat)
      modifies this`armed, this`nextTimer
      ensures id == old(nextTimer) && nextTimer == id + 1 && armed == old(armed)[id := timer]
    {
      id := nextTimer;
      nextTimer := nextTimer + 1;
      armed := armed[id := timer];
    }

    method ScheduleNextAutoSync()
      modifies this`armed, this`nextTimer, this`autoTimer
      ensures View() == old(View()).(timers := NextAutoSync(old(TimersNow())))
    {
      ClearTimeout(autoTimer);
      var id := SetTimeout(Auto);
      autoTimer := Some(id);
    }

    method ScheduleRemoteSync(storage: Target)
      modifies this`armed, this`nextTimer, this`debounceTimer
      ensures View() == Step(old(View()), Schedule(storage))
      ensures old(Valid()) ==> Valid()
    {
      hide Safe;
      SafeAfter(View(), Schedule(storage));
      if !unlocked {
        return;
      }
      ClearTimeout(debounceTimer);
      var id := SetTimeout(Debounce(storage));
      debounceTimer := Some(id);
    }

    method StartAutoSync()
      modifies this`armed, this`nextTimer, this`autoTimer
      ensures View() == Step(old(View()), Start)
      ensures old(Valid()) ==> Valid()
    {
      hide Safe;
      SafeAfter(View(), Start);
      if autoTimer.Some? {
        return;
      }
      ScheduleNextAutoSync();
    }

    /** The two timers `stopAutoSync` clears. */
    method ClearTimers()
      modifies this`armed, this`autoTimer, this`debounceTimer
      ensures TimersNow() == AllDisarmed(old(TimersNow()))
    {
      ClearTimeout(autoTimer);
      autoTimer := None;
      ClearTimeout(debounceTimer);
      debounceTimer := None;
    }

    method StopAutoSync()
      modifies this`armed, this`autoTimer, this`debounceTimer, this`backoffIndex, this`pendingSync, this`queuedSync
      ensures View() == Step(old(View()), Stop)
      ensures old(Valid()) ==> Valid()
    {
      hide Safe;
      SafeAfter(View(), Stop);
      ClearTimers();
      backoffIndex := 0;
      pendingSync := None;
      queuedSync := None;
    }

    /** A timer fires: its callback forgets it and asks for a sync. */
    method OnTimer(id: nat)
      modifies this
      ensures View() == Step(old(View()), Fire(id))
      ensures old(Valid()) ==> Valid()
    {
      hide Safe;
      SafeAfter(View(), Fire(id));
      if id !in armed {
        return;
      }
      var timer := armed[id];
      armed := armed - {id};
      if timer.Auto? {
        autoTimer := None;
        RunRemoteSync(None, true);
      } else {
        debounceTimer := None;
        RunRemoteSync(timer.storage, false);
      }
    }

    /** A timer callback goes on after its sync returned. */
    method OnResume()
      modifies this`resumable, this`armed, this`nextTimer, this`autoTimer
      ensures View() == Step(old(View()), Resume)
      ensures old(Valid()) ==> Valid()
    {
      hide Safe;
      SafeAfter(View(), Resume);
      if resumable > 0 {
        resumable := resumable - 1;
        ScheduleNextAutoSync();
      }
    }

    /** `handleOnline` with `flushQueuedSync`; what the reachability probe finds is an event of its own. */
    method HandleOnline()
      modifies this
      ensures View() == Step(old(View()), Online)
      ensures old(Valid()) ==> Valid()
    {
      hide Safe;
      SafeAfter(View(), Online);
      isNetworkOnline := true;
      isServerReachable := true;
      if queuedSync.None? {
        return;
      }
      var nextStorage := queuedSync.value;
      queuedSync := None;
      RunRemoteSync(nextStorage, false);
    }

    method HandleOffline()
      modifies this`isNetworkOnline
      ensures View() == Step(old(View()), Offline)
      ensures old(Valid()) ==> Valid()
    {
      hide Safe;
      SafeAfter(View(), Offline);
      isNetworkOnline := false;
    }

    /** `nextAutoSyncDelay`: the regular interval, or the backoff step that the index points at. */
    method NextDelay() returns (ms: int)
      requires Valid()
      ensures ms == if backoffIndex == 0 then AUTO_SYNC_INTERVAL_MS else BACKOFF_STEPS_MS[backoffIndex - 1]
    {
      if backoffIndex == 0 {
        return AUTO_SYNC_INTERVAL_MS;
      }
      var idx := Min(backoffIndex - 1, |BACKOFF_STEPS_MS| - 1);
      ms := BACKOFF_STEPS_MS[idx];
    }
  }
}
