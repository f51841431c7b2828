/**
  The desktop sync scheduler as a state machine over its events
  (apps/desktop/src/composables/useStorages.ts:39-56, 141-165, 202-381, 472-481). Every `await` is
  a point where other events may come in. What the back end answers, which errors are network
  errors, and what the session handler does are inputs.
 */
module SchedulerModel {
  import opened Base

  type Id = nat

  /** `storageId`: one storage, or all of them. */
  type Target = Option<Id>

  const AUTO_SYNC_INTERVAL_MS := 60000
  const BACKOFF_STEPS_MS := [2000, 5000, 10000, 30000, 60000]

  const RETRYABLE := {
    "vault_list_failed", "vault_get_failed", "sync_push_failed", "vault_key_update_failed",
    "network_timeout", "rate_limited", "temporary_unavailable", "server_unreachable"
  }

  /** A thrown error: its kind if it carries one, and what its text says. */
  datatype Failure = Failure(kind: Option<string>, network: bool, session: bool)

  function Kind(f: Failure): string {
    if f.kind.Some? then f.kind.value else if f.network then "server_unreachable" else "unknown"
  }

  predicate IsOfflineError(f: Failure) {
    f.network && (f.kind.Some? ==> f.kind.value == "system_info_failed")
  }

  predicate IsSessionError(f: Failure) {
    Kind(f) == "session_expired" || Kind(f) == "context_missing" || f.session
  }

  predicate IsRetryable(f: Failure) {
    IsOfflineError(f) || Kind(f) in RETRYABLE
  }

  datatype Timer = Auto | Debounce(storage: Target)

  /** Where a call is suspended: in `remote_sync`, in the reloads after it, or in the session handler. */
  datatype Phase = Calling | Reloading | Expiring(failure: Failure)

  /** A suspended `runRemoteSync`; `byTimer` if a timer callback awaits it. */
  datatype Call = Call(storage: Target, targets: seq<Id>, phase: Phase, byTimer: bool)

  datatype SyncStatus = Syncing | Synced | Failed

  /** What the rest of the application decides. */
  datatype Env = Env(unlocked: bool, online: bool, reachable: bool, remotes: seq<Id>)

  /** The timers of the event loop, and which of them the scheduler remembers. */
  datatype Timers = Timers(armed: map<nat, Timer>, next: nat, auto: Option<nat>, debounce: Option<nat>)

  datatype Sync = Sync(busy: bool, calls: seq<Call>, backoff: nat, pending: Option<Target>, queued: Option<Target>)

  /** `resumable` counts the timer callbacks whose sync has returned and that have not gone on yet. */
  datatype State = State(env: Env, sync: Sync, timers: Timers, resumable: nat, status: map<Id, SyncStatus>)

  datatype Event =
    | Request(storage: Target)
    | Schedule(storage: Target)
    | Start
    | Stop
    | Fire(timer: nat)
    | Answer(call: nat, failure: Option<Failure>)
    | Reloaded(call: nat, failure: Option<Failure>)
    | SessionHandled(call: nat, threw: bool)
    | Resume
    | Online
    | Offline
    | Reachable(value: bool)
    | Unlocked(value: bool)
    | Storages(remotes: seq<Id>)

  const INIT := State(Env(false, true, true, []), Sync(false, [], 0, None, None), Timers(map[], 1, None, None), 0,
                      map[])

  /** At most one call is in flight, and the busy flag says whether there is one. */
  predicate OneCall(y: Sync) {
    |y.calls| == if y.busy then 1 else 0
  }

  // ----- handlers

  function Marked(status: map<Id, SyncStatus>, targets: seq<Id>, value: SyncStatus): map<Id, SyncStatus> {
    status + map id | id in targets :: value
  }

  function Only(ids: seq<Id>, id: Id): seq<Id> {
    if ids == [] then []
    else (if ids[0] == id then [id] else []) + Only(ids[1..], id)
  }

  function Targets(env: Env, storage: Target): seq<Id> {
    if storage.Some? then Only(env.remotes, storage.value) else env.remotes
  }

  /** What a request meets: a sync in flight, nothing to do, no network, or a free way. */
  datatype Way = Busy | Nothing | NoNetwork | Free

  function WayOf(env: Env, busy: bool, storage: Target): Way {
    if busy then Busy
    else if !env.unlocked || Targets(env, storage) == [] then Nothing
    else if !env.online || !env.reachable then NoNetwork
    else Free
  }

  /** The synchronous part of `runRemoteSync`; `byTimer` if a timer callback awaits the result. */
  function Requested(s: State, storage: Target, byTimer: bool): (r: State)
    ensures r.timers == s.timers && r.env == s.env && r.sync.backoff == s.sync.backoff
    ensures OneCall(s.sync) ==> OneCall(r.sync)
  {
    var way, targets := WayOf(s.env, s.sync.busy, storage), Targets(s.env, storage);
    var sync := match way
      case Busy => s.sync.(pending := Some(storage))
      case Nothing => s.sync
      case NoNetwork => s.sync.(queued := Some(storage))
      case Free => s.sync.(busy := true, calls := s.sync.calls + [Call(storage, targets, Calling, byTimer)]);
    var status := match way
      case NoNetwork => Marked(s.status, targets, Failed)
      case Free => Marked(s.status, targets, Syncing)
      case _ => s.status;
    State(s.env, sync, s.timers, if byTimer && !way.Free? then s.resumable + 1 else s.resumable, status)
  }

  /** The state in which the `finally` block looks for a pending request. */
  function Released(s: State, i: nat, retry: bool): State
    requires i < |s.sync.calls|
  {
    s.(sync := Sync(false, s.sync.calls[..i] + s.sync.calls[i + 1..],
                    if retry then Min(s.sync.backoff + 1, |BACKOFF_STEPS_MS|) else 0, None, s.sync.queued))
  }

  /** The `finally` block of call `i`; `rejected` if an error leaves the function. */
  function Finished(s: State, i: nat, retry: bool, rejected: bool): (r: State)
    requires i < |s.sync.calls|
    ensures r.timers == s.timers && r.env == s.env
    ensures OneCall(s.sync) ==> OneCall(r.sync)
  {
    var t := Released(s, i, retry);
    var u := if s.sync.pending.Some? then Requested(t, s.sync.pending.value, false) else t;
    if s.sync.calls[i].byTimer && !rejected then u.(resumable := u.resumable + 1) else u
  }

  /** The end of the `catch` block. */
  function Failing(s: State, i: nat, f: Failure): (r: State)
    requires i < |s.sync.calls|
    ensures r.timers == s.timers
    ensures OneCall(s.sync) ==> OneCall(r.sync)
  {
    var c := s.sync.calls[i];
    var t := s.(status := Marked(s.status, c.targets, Failed));
    var u := if IsOfflineError(f) then t.(env := t.env.(reachable := false), sync := t.sync.(queued := Some(c.storage)))
             else t;
    Finished(u, i, IsRetryable(f), false)
  }

  function InPhase(s: State, i: nat, phase: Phase): State
    requires i < |s.sync.calls|
  {
    s.(sync := s.sync.(calls := s.sync.calls[i := s.sync.calls[i].(phase := phase)]))
  }

  function Caught(s: State, i: nat, f: Failure): (r: State)
    requires i < |s.sync.calls|
    ensures r.timers == s.timers
    ensures OneCall(s.sync) ==> OneCall(r.sync)
  {
    if IsSessionError(f) then InPhase(s, i, Expiring(f)) else Failing(s, i, f)
  }

  function Answered(s: State, i: nat, failure: Option<Failure>): (r: State)
    requires i < |s.sync.calls|
    ensures r.timers == s.timers
    ensures OneCall(s.sync) ==> OneCall(r.sync)
  {
    match failure
    case Some(f) => Caught(s, i, f)
    case None =>
      InPhase(s, i, Reloading).(status := Marked(s.status, s.sync.calls[i].targets, Synced),
                                env := s.env.(reachable := true))
  }

  function Disarmed(armed: map<nat, Timer>, timer: Option<nat>): map<nat, Timer> {
    if timer.Some? then armed - {timer.value} else armed
  }

  /** `scheduleNextAutoSync`. */
  function NextAutoSync(t: Timers): Timers {
    Timers(Disarmed(t.armed, t.auto)[t.next := Auto], t.next + 1, Some(t.next), t.debounce)
  }

  /** `scheduleRemoteSync`. */
  function Debounced(t: Timers, storage: Target): Timers {
    Timers(Disarmed(t.armed, t.debounce)[t.next := Debounce(storage)], t.next + 1, t.auto, Some(t.next))
  }

  function AllDisarmed(t: Timers): Timers {
    Timers(Disarmed(Disarmed(t.armed, t.auto), t.debounce), t.next, None, None)
  }

  /** `stopAutoSync`. */
  function Stopped(s: State): State {
    s.(timers := AllDisarmed(s.timers), sync := Sync(s.sync.busy, s.sync.calls, 0, None, None))
  }

  /** A timer that fires is no longer armed, and its callback forgets it first. */
  function Popped(t: Timers, timer: nat): Timers
    requires timer in t.armed
  {
    if t.armed[timer].Auto? then Timers(t.armed - {timer}, t.next, None, t.debounce)
    else Timers(t.armed - {timer}, t.next, t.auto, None)
  }

  function Fired(s: State, timer: nat): (r: State)
    requires timer in s.timers.armed
    ensures r.timers == Popped(s.timers, timer)
    ensures OneCall(s.sync) ==> OneCall(r.sync)
  {
    var t := s.(timers := Popped(s.timers, timer));
    match s.timers.armed[timer]
    case Auto => Requested(t, None, true)
    case Debounce(storage) => Requested(t, storage, false)
  }

  /** `handleOnline` with `flushQueuedSync`. */
  function CameOnline(s: State): (r: State)
    ensures r.timers == s.timers
    ensures OneCall(s.sync) ==> OneCall(r.sync)
  {
    var t := s.(env := s.env.(online := true, reachable := true));
    if s.sync.queued.Some? then Requested(t.(sync := t.sync.(queued := None)), s.sync.queued.value, false) else t
  }

  predicate IsCall(s: State, i: nat) {
    i < |s.sync.calls|
  }

  /** An event that cannot happen in a state leaves it as it is. */
  function Step(s: State, e: Event): State {
    match e
    case Request(storage) => Requested(s, storage, false)
    case Schedule(storage) => if s.env.unlocked then s.(timers := Debounced(s.timers, storage)) else s
    case Start => if s.timers.auto.Some? then s else s.(timers := NextAutoSync(s.timers))
    case Stop => Stopped(s)
    case Fire(timer) => if timer in s.timers.armed then Fired(s, timer) else s
    case Answer(i, failure) => if IsCall(s, i) && s.sync.calls[i].phase.Calling? then Answered(s, i, failure) else s
    case Reloaded(i, failure) =>
      if IsCall(s, i) && s.sync.calls[i].phase.Reloading? then
        (if failure.Some? then Caught(s, i, failure.value) else Finished(s, i, false, false))
      else s
    case SessionHandled(i, threw) =>
      if IsCall(s, i) && s.sync.calls[i].phase.Expiring? then
        (if threw then Finished(s, i, false, true) else Failing(s, i, s.sync.calls[i].phase.failure))
      else s
    case Resume => if s.resumable > 0 then s.(resumable := s.resumable - 1, timers := NextAutoSync(s.timers)) else s
    case Online => CameOnline(s)
    case Offline => s.(env := s.env.(online := false))
    case Reachable(value) => s.(env := s.env.(reachable := value))
    case Unlocked(value) => s.(env := s.env.(unlocked := value))
    case Storages(remotes) => s.(env := s.env.(remotes := remotes))
  }

  function Run(s: State, events: seq<Event>): State
    decreases |events|
  {
    if events == [] then s else Run(Step(s, events[0]), events[1..])
  }

  /** `nextAutoSyncDelay`. */
  function NextAutoSyncDelay(backoff: nat): int {
    if backoff == 0 then AUTO_SYNC_INTERVAL_MS
    else BACKOFF_STEPS_MS[Min(backoff - 1, |BACKOFF_STEPS_MS| - 1)]
  }
}
