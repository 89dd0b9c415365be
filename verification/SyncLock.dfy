/**
 * The per-user sync lock: session-level advisory locks taken on connections of a
 * finite pool, polled for by any number of tasks, with calls made under the lock
 * sharing the lock connection behind a mutex.
 *
 * Given semantics: an advisory lock belongs to a server session, is re-entrant
 * within it and is freed when the session ends; a session can end at any time;
 * a client that closes its connection does not know when the server notices, so
 * the session may outlive the close; Release puts an open connection back in the
 * pool and discards a closed one.
 */
module SyncLock {
  import opened Wrappers

  type Conn = int
  type TaskId = int
  type CallId = int
  type Key = int

  /** Where a call of WithUserSyncLock is. */
  datatype TaskPc =
    | WantConn                  // waiting in the pool's Acquire
    | Trying(tried: Conn)       // pg_try_advisory_lock about to run
    | TryFailed(tried: Conn)    // it returned an error
    | TryClosed(tried: Conn)    // that connection has been closed
    | NotLocked(tried: Conn)    // the lock is held elsewhere
    | Sleeping                  // between attempts
    | Inside                    // fn is running
    | Ending                    // fn returned or panicked; release waits for the mutex
    | Unlocking                 // release holds the mutex and has set `released`
    | Closing                   // the unlock failed
    | Returning                 // the connection is about to be returned
    | Done

  datatype Holder = Free | ByCall(call: CallId) | ByRelease

  /** `conn`, `released` and `mu` are the fields of syncLockConn, meaningful from Inside on. */
  datatype Task = Task(key: Key, pc: TaskPc, conn: Conn, released: bool, mu: Holder)

  datatype CallPc = Arriving | OnLock | WantPool | OnPool(conn: Conn) | Finished

  /** A Store call, made with the context of a lock or (None) with another one. */
  datatype Call = Call(scope: Option<TaskId>, pc: CallPc)

  datatype Owner = OfTask(task: TaskId) | OfCall(call: CallId)

  /**
   * `sessions` are the live server sessions with the locks they hold; `closed` the
   * connections the client has closed; `out` who acquired which connection;
   * `faulty` records a connection returned by someone not holding it, or used after.
   */
  datatype Sys = Sys(size: nat, sessions: map<Conn, multiset<Key>>, closed: set<Conn>, idle: set<Conn>,
                     out: map<Conn, Owner>, next: Conn, tasks: map<TaskId, Task>, calls: map<CallId, Call>, faulty: bool)

  datatype Action =
    | StartTask(task: TaskId, key: Key)
    | TakeIdle(task: TaskId, conn: Conn)
    | TakeNew(task: TaskId)
    | TryLock(task: TaskId)
    | TryError(task: TaskId, granted: bool)
    | CloseTried(task: TaskId)
    | ReleaseTried(task: TaskId)
    | ReleaseUnlocked(task: TaskId)
    | Wake(task: TaskId)
    | GiveUp(task: TaskId)
    | EndFn(task: TaskId)
    | BeginRelease(task: TaskId)
    | Unlock(task: TaskId)
    | UnlockError(task: TaskId, applied: bool)
    | CloseLock(task: TaskId)
    | ReturnLock(task: TaskId)
    | StartCall(call: CallId, scope: Option<TaskId>)
    | Querier(call: CallId)
    | FinishOnLock(call: CallId, breaks: bool)
    | CallTakeIdle(call: CallId, conn: Conn)
    | CallTakeNew(call: CallId)
    | CallGiveUp(call: CallId)
    | FinishOnPool(call: CallId, breaks: bool)
    | SessionEnds(conn: Conn)
    | IdleCloses(conn: Conn)

  function Start(size: nat): Sys {
    Sys(size, map[], {}, {}, map[], 0, map[], map[], false)
  }

  // ------------------------------------------------------------- the pool's part

  predicate HasRoom(s: Sys) {
    |s.idle| + |s.out| < s.size
  }

  function Taken(s: Sys, c: Conn, who: Owner): Sys {
    s.(idle := s.idle - {c}, out := s.out[c := who])
  }

  function Opened(s: Sys, who: Owner): Sys {
    s.(sessions := s.sessions[s.next := multiset{}], out := s.out[s.next := who], next := s.next + 1)
  }

  function PoolRelease(s: Sys, c: Conn, who: Owner): Sys {
    if c in s.out && s.out[c] == who then
      s.(out := s.out - {c}, idle := if c in s.closed then s.idle else s.idle + {c})
    else
      s.(faulty := true)
  }

  function Used(s: Sys, c: Conn, who: Owner): Sys {
    if c in s.out && s.out[c] == who then s else s.(faulty := true)
  }

  function Closed(s: Sys, c: Conn): Sys {
    s.(closed := s.closed + {c})
  }

  // ------------------------------------------------------------- the server's part

  predicate HeldElsewhere(s: Sys, k: Key, c: Conn) {
    exists d :: d in s.sessions && d != c && k in s.sessions[d]
  }

  function Granted(s: Sys, k: Key, c: Conn): Sys {
    if c in s.sessions && !HeldElsewhere(s, k, c) then s.(sessions := s.sessions[c := s.sessions[c] + multiset{k}]) else s
  }

  function Ungranted(s: Sys, k: Key, c: Conn): Sys {
    if c in s.sessions then s.(sessions := s.sessions[c := s.sessions[c] - multiset{k}]) else s
  }

  // ------------------------------------------------------------------------ steps

  predicate At(s: Sys, t: TaskId, pc: TaskPc) {
    t in s.tasks && s.tasks[t].pc == pc
  }

  predicate CallAt(s: Sys, x: CallId, pc: CallPc) {
    x in s.calls && s.calls[x].pc == pc
  }

  function Moved(s: Sys, t: TaskId, pc: TaskPc): Sys
    requires t in s.tasks
  {
    s.(tasks := s.tasks[t := s.tasks[t].(pc := pc)])
  }

  function CallMoved(s: Sys, x: CallId, pc: CallPc): Sys
    requires x in s.calls
  {
    s.(calls := s.calls[x := s.calls[x].(pc := pc)])
  }

  function SetMu(s: Sys, t: TaskId, mu: Holder): Sys
    requires t in s.tasks
  {
    s.(tasks := s.tasks[t := s.tasks[t].(mu := mu)])
  }

  /** The mutex a call must get before it learns what to run on. */
  predicate MutexFree(s: Sys, x: CallId)
    requires x in s.calls
  {
    s.calls[x].scope.Some? ==> s.calls[x].scope.value in s.tasks && s.tasks[s.calls[x].scope.value].mu == Free
  }

  predicate Enabled(s: Sys, a: Action) {
    match a
    case StartTask(t, _) => t !in s.tasks
    case TakeIdle(t, c) => At(s, t, WantConn) && c in s.idle
    case TakeNew(t) => At(s, t, WantConn) && HasRoom(s)
    case TryLock(t) =>
      t in s.tasks && s.tasks[t].pc.Trying? && s.tasks[t].pc.tried in s.sessions && s.tasks[t].pc.tried !in s.closed
    case TryError(t, _) => t in s.tasks && s.tasks[t].pc.Trying?
    case CloseTried(t) => t in s.tasks && s.tasks[t].pc.TryFailed?
    case ReleaseTried(t) => t in s.tasks && s.tasks[t].pc.TryClosed?
    case ReleaseUnlocked(t) => t in s.tasks && s.tasks[t].pc.NotLocked?
    case Wake(t) => At(s, t, Sleeping)
    case GiveUp(t) => At(s, t, Sleeping) || At(s, t, WantConn)
    case EndFn(t) => At(s, t, Inside)
    case BeginRelease(t) => At(s, t, Ending) && s.tasks[t].mu == Free
    case Unlock(t) => At(s, t, Unlocking) && s.tasks[t].conn in s.sessions && s.tasks[t].conn !in s.closed
    case UnlockError(t, _) => At(s, t, Unlocking)
    case CloseLock(t) => At(s, t, Closing)
    case ReturnLock(t) => At(s, t, Returning)
    case StartCall(x, scope) => x !in s.calls && (scope.Some? ==> At(s, scope.value, Inside))
    case Querier(x) => CallAt(s, x, Arriving) && MutexFree(s, x)
    case FinishOnLock(x, _) => CallAt(s, x, OnLock) && s.calls[x].scope.Some? && s.calls[x].scope.value in s.tasks
    case CallTakeIdle(x, c) => CallAt(s, x, WantPool) && c in s.idle
    case CallTakeNew(x) => CallAt(s, x, WantPool) && HasRoom(s)
    case CallGiveUp(x) => CallAt(s, x, WantPool)
    case FinishOnPool(x, _) => x in s.calls && s.calls[x].pc.OnPool?
    case SessionEnds(c) => c in s.sessions
    case IdleCloses(c) => c in s.idle
  }

  function TriedLock(s: Sys, t: TaskId): Sys
    requires Enabled(s, TryLock(t))
  {
    var task := s.tasks[t];
    var c := task.pc.tried;
    var u := Used(s, c, OfTask(t));
    if HeldElsewhere(s, task.key, c) then Moved(u, t, NotLocked(c))
    else Granted(u, task.key, c).(tasks := s.tasks[t := Task(task.key, Inside, c, false, Free)])
  }

  function TryErrored(s: Sys, t: TaskId, granted: bool): Sys
    requires Enabled(s, TryError(t, granted))
  {
    var task := s.tasks[t];
    var c := task.pc.tried;
    var u := Used(s, c, OfTask(t));
    Moved(if granted then Granted(u, task.key, c) else u, t, TryFailed(c))
  }

  function ReleaseBegun(s: Sys, t: TaskId): Sys
    requires Enabled(s, BeginRelease(t))
  {
    if s.tasks[t].released then Moved(s, t, Done)
    else s.(tasks := s.tasks[t := s.tasks[t].(pc := Unlocking, released := true, mu := ByRelease)])
  }

  function Unlocked(s: Sys, t: TaskId): Sys
    requires Enabled(s, Unlock(t))
  {
    var task := s.tasks[t];
    var u := Used(s, task.conn, OfTask(t));
    if task.key in s.sessions[task.conn] then Moved(Ungranted(u, task.key, task.conn), t, Returning)
    else Moved(u, t, Closing)
  }

  function UnlockErrored(s: Sys, t: TaskId, applied: bool): Sys
    requires Enabled(s, UnlockError(t, applied))
  {
    var task := s.tasks[t];
    var u := Used(s, task.conn, OfTask(t));
    Moved(if applied then Ungranted(u, task.key, task.conn) else u, t, Closing)
  }

  /** querier, for the lock `t`: a dead connection goes back to the pool; the mutex is kept only with a live one. */
  function QuerierChose(s: Sys, x: CallId): Sys
    requires Enabled(s, Querier(x))
  {
    if s.calls[x].scope.None? then CallMoved(s, x, WantPool)
    else
      var t := s.calls[x].scope.value;
      var task := s.tasks[t];
      if task.released then CallMoved(s, x, WantPool)
      else if task.conn in s.closed then
        CallMoved(PoolRelease(s, task.conn, OfTask(t)).(tasks := s.tasks[t := task.(released := true)]), x, WantPool)
      else CallMoved(SetMu(s, t, ByCall(x)), x, OnLock)
  }

  function FinishedOnLock(s: Sys, x: CallId, breaks: bool): Sys
    requires Enabled(s, FinishOnLock(x, breaks))
  {
    var t := s.calls[x].scope.value;
    var c := s.tasks[t].conn;
    var u := Used(s, c, OfTask(t));
    var v := if s.tasks[t].released then u.(faulty := true) else u;
    CallMoved(SetMu(if breaks then Closed(v, c) else v, t, Free), x, Finished)
  }

  function FinishedOnPool(s: Sys, x: CallId, breaks: bool): Sys
    requires Enabled(s, FinishOnPool(x, breaks))
  {
    var c := s.calls[x].pc.conn;
    var u := Used(s, c, OfCall(x));
    CallMoved(PoolRelease(if breaks then Closed(u, c) else u, c, OfCall(x)), x, Finished)
  }

  /** One step; an action that is not enabled leaves the state as it is. */
  function Do(s: Sys, a: Action): Sys {
    if !Enabled(s, a) then s
    else
      match a
      case StartTask(t, k) => s.(tasks := s.tasks[t := Task(k, WantConn, 0, false, Free)])
      case TakeIdle(t, c) => Moved(Taken(s, c, OfTask(t)), t, Trying(c))
      case TakeNew(t) => Moved(Opened(s, OfTask(t)), t, Trying(s.next))
      case TryLock(t) => TriedLock(s, t)
      case TryError(t, granted) => TryErrored(s, t, granted)
      case CloseTried(t) => Moved(Closed(s, s.tasks[t].pc.tried), t, TryClosed(s.tasks[t].pc.tried))
      case ReleaseTried(t) => Moved(PoolRelease(s, s.tasks[t].pc.tried, OfTask(t)), t, Done)
      case ReleaseUnlocked(t) => Moved(PoolRelease(s, s.tasks[t].pc.tried, OfTask(t)), t, Sleeping)
      case Wake(t) => Moved(s, t, WantConn)
      case GiveUp(t) => Moved(s, t, Done)
      case EndFn(t) => Moved(s, t, Ending)
      case BeginRelease(t) => ReleaseBegun(s, t)
      case Unlock(t) => Unlocked(s, t)
      case UnlockError(t, applied) => UnlockErrored(s, t, applied)
      case CloseLock(t) => Moved(Closed(s, s.tasks[t].conn), t, Returning)
      case ReturnLock(t) => Moved(SetMu(PoolRelease(s, s.tasks[t].conn, OfTask(t)), t, Free), t, Done)
      case StartCall(x, scope) => s.(calls := s.calls[x := Call(scope, Arriving)])
      case Querier(x) => QuerierChose(s, x)
      case FinishOnLock(x, breaks) => FinishedOnLock(s, x, breaks)
      case CallTakeIdle(x, c) => CallMoved(Taken(s, c, OfCall(x)), x, OnPool(c))
      case CallTakeNew(x) => CallMoved(Opened(s, OfCall(x)), x, OnPool(s.next))
      case CallGiveUp(x) => CallMoved(s, x, Finished)
      case FinishOnPool(x, breaks) => FinishedOnPool(s, x, breaks)
      case SessionEnds(c) => s.(sessions := s.sessions - {c})
      case IdleCloses(c) => Closed(s.(idle := s.idle - {c}), c)
  }

  function Run(size: nat, actions: seq<Action>): Sys {
    if actions == [] then Start(size)
    else Do(Run(size, actions[..|actions| - 1]), actions[|actions| - 1])
  }

  // ------------------------------------------------------------------ invariant

  /** The connection a task has acquired and not yet returned. */
  function Holds(task: Task): Option<Conn> {
    match task.pc
    case Trying(c) => Some(c)
    case TryFailed(c) => Some(c)
    case TryClosed(c) => Some(c)
    case NotLocked(c) => Some(c)
    case Inside => if task.released then None else Some(task.conn)
    case Ending => if task.released then None else Some(task.conn)
    case Unlocking => Some(task.conn)
    case Closing => Some(task.conn)
    case Returning => Some(task.conn)
    case _ => None
  }

  predicate InFn(pc: TaskPc) {
    pc == Inside || pc == Ending
  }

  predicate InRelease(pc: TaskPc) {
    pc == Unlocking || pc == Closing || pc == Returning
  }

  /** The connection a task's state is about: the one it holds, or the one its lock had before a call gave it back. */
  function ConnOf(task: Task): Option<Conn> {
    if InFn(task.pc) then Some(task.conn) else Holds(task)
  }

  ghost predicate PoolOk(s: Sys) {
    && !s.faulty
    && s.idle !! s.out.Keys && s.idle !! s.closed
    && |s.idle| + |s.out| <= s.size
    && (forall c :: c in s.idle || c in s.out || c in s.closed || c in s.sessions ==> c < s.next)
  }

  /** No two live sessions hold the same lock. */
  ghost predicate Exclusive(s: Sys) {
    forall c, d, k :: c in s.sessions && d in s.sessions && k in s.sessions[c] && k in s.sessions[d] ==> c == d
  }

  predicate NoLocks(s: Sys, c: Conn) {
    c in s.sessions ==> s.sessions[c] == multiset{}
  }

  predicate OnlyLock(s: Sys, c: Conn, k: Key) {
    c in s.sessions ==> s.sessions[c] == multiset{k}
  }

  predicate LocksOf(s: Sys, task: Task) {
    match task.pc
    case Trying(c) => NoLocks(s, c)
    case NotLocked(c) => NoLocks(s, c)
    case TryClosed(c) => c in s.closed
    case Inside => OnlyLock(s, task.conn, task.key)
    case Ending => OnlyLock(s, task.conn, task.key)
    case Unlocking => OnlyLock(s, task.conn, task.key)
    case Returning => task.conn in s.closed || NoLocks(s, task.conn)
    case _ => true
  }

  predicate TaskOk(s: Sys, t: TaskId)
    requires t in s.tasks
  {
    var task := s.tasks[t];
    && (Holds(task).Some? ==> Holds(task).value in s.out && s.out[Holds(task).value] == OfTask(t))
    && LocksOf(s, task)
    && (InRelease(task.pc) <==> task.mu == ByRelease)
    && (InRelease(task.pc) ==> task.released)
    && (InFn(task.pc) && task.released ==> task.conn in s.closed && task.conn !in s.out && task.conn < s.next)
    && (task.mu.ByCall? ==>
          InFn(task.pc) && !task.released
          && task.mu.call in s.calls && s.calls[task.mu.call] == Call(Some(t), OnLock))
  }

  predicate ScopeOk(s: Sys, x: CallId, t: TaskId)
    requires x in s.calls
  {
    && t in s.tasks
    && (InFn(s.tasks[t].pc) || InRelease(s.tasks[t].pc) || (s.tasks[t].pc == Done && s.tasks[t].released))
    && (s.calls[x].pc == OnLock ==> s.tasks[t].mu == ByCall(x))
    && (s.calls[x].pc == WantPool || s.calls[x].pc.OnPool? ==> s.tasks[t].released && !InRelease(s.tasks[t].pc))
  }

  predicate CallOk(s: Sys, x: CallId)
    requires x in s.calls
  {
    var call := s.calls[x];
    && (call.pc.OnPool? ==> call.pc.conn in s.out && s.out[call.pc.conn] == OfCall(x) && NoLocks(s, call.pc.conn))
    && (call.pc == OnLock ==> call.scope.Some?)
    && (call.scope.Some? ==> ScopeOk(s, x, call.scope.value))
  }

  predicate OutAt(s: Sys, c: Conn) {
    c in s.out ==>
      match s.out[c]
      case OfTask(t) => t in s.tasks && Holds(s.tasks[t]) == Some(c)
      case OfCall(x) => x in s.calls && s.calls[x].pc == OnPool(c)
  }

  predicate IdleAt(s: Sys, c: Conn) {
    c in s.idle ==> NoLocks(s, c)
  }

  predicate Apart(s: Sys, t: TaskId, u: TaskId)
    requires t in s.tasks && u in s.tasks
  {
    t != u && ConnOf(s.tasks[t]).Some? ==> ConnOf(s.tasks[t]) != ConnOf(s.tasks[u])
  }

  ghost predicate Inv(s: Sys) {
    && PoolOk(s)
    && Exclusive(s)
    && (forall t :: t in s.tasks ==> TaskOk(s, t))
    && (forall x :: x in s.calls ==> CallOk(s, x))
    && (forall c :: OutAt(s, c) && IdleAt(s, c))
    && (forall t, u :: t in s.tasks && u in s.tasks ==> Apart(s, t, u))
  }

  lemma StartIsOk(size: nat)
    ensures Inv(Start(size))
  {
  }

  // --------------------------------------------------------------- preservation

  /** Nothing about `c` changed, except that its session may have ended or been closed. */
  predicate Quiet(s: Sys, s': Sys, c: Conn) {
    && (c in s.out <==> c in s'.out)
    && (c in s.out ==> s'.out[c] == s.out[c])
    && (c in s'.sessions ==> c in s.sessions && s'.sessions[c] == s.sessions[c])
    && (c in s.closed ==> c in s'.closed)
    && (c in s'.idle ==> c in s.idle)
  }

  /** A step that changes at most the task `t`, the call `x` and the connection `c`. */
  ghost predicate Frame(s: Sys, s': Sys, t: Option<TaskId>, x: Option<CallId>, c: Option<Conn>) {
    && s.next <= s'.next
    && (forall u :: Some(u) != t ==> (u in s.tasks <==> u in s'.tasks) && (u in s.tasks ==> s'.tasks[u] == s.tasks[u]))
    && (forall y :: Some(y) != x ==> (y in s.calls <==> y in s'.calls) && (y in s.calls ==> s'.calls[y] == s.calls[y]))
    && (forall d :: Some(d) != c ==> Quiet(s, s', d))
  }

  /** `c` is no other task's and no other call's business. */
  ghost predicate Own(s: Sys, t: Option<TaskId>, x: Option<CallId>, c: Option<Conn>) {
    && (forall u :: u in s.tasks && Some(u) != t ==> ConnOf(s.tasks[u]).None? || ConnOf(s.tasks[u]) != c)
    && (forall y :: y in s.calls && Some(y) != x && s.calls[y].pc.OnPool? ==> Some(s.calls[y].pc.conn) != c)
    && (forall u :: u in s.tasks && Some(u) != t && s.tasks[u].mu.ByCall? ==> Some(s.tasks[u].mu.call) != x)
  }

  lemma FrameChain(s: Sys, u: Sys, s': Sys, t: Option<TaskId>, x: Option<CallId>, c: Option<Conn>)
    requires Frame(s, u, t, x, c) && Frame(u, s', t, x, c)
    ensures Frame(s, s', t, x, c)
  {
    forall d | Some(d) != c
      ensures Quiet(s, s', d)
    {
      assert Quiet(s, u, d) && Quiet(u, s', d);
    }
    hide Quiet;
  }

  lemma MovedFrame(s: Sys, t: TaskId, pc: TaskPc, x: Option<CallId>, c: Option<Conn>)
    requires t in s.tasks
    ensures Frame(s, Moved(s, t, pc), Some(t), x, c)
  {
  }

  lemma CallMovedFrame(s: Sys, x: CallId, pc: CallPc, t: Option<TaskId>, c: Option<Conn>)
    requires x in s.calls
    ensures Frame(s, CallMoved(s, x, pc), t, Some(x), c)
  {
  }

  lemma UsedFrame(s: Sys, c: Conn, who: Owner, t: Option<TaskId>, x: Option<CallId>)
    ensures Frame(s, Used(s, c, who), t, x, Some(c))
  {
  }

  lemma ClosedFrame(s: Sys, c: Conn, t: Option<TaskId>, x: Option<CallId>)
    ensures Frame(s, Closed(s, c), t, x, Some(c))
  {
  }

  lemma ReleaseFrame(s: Sys, c: Conn, who: Owner, t: Option<TaskId>, x: Option<CallId>)
    ensures Frame(s, PoolRelease(s, c, who), t, x, Some(c))
  {
  }

  lemma UngrantedFrame(s: Sys, c: Conn, k: Key, t: Option<TaskId>, x: Option<CallId>)
    ensures Frame(s, Ungranted(s, k, c), t, x, Some(c))
  {
  }

  lemma GrantedFrame(s: Sys, c: Conn, k: Key, t: Option<TaskId>, x: Option<CallId>)
    ensures Frame(s, Granted(s, k, c), t, x, Some(c))
  {
    hide HeldElsewhere;
  }

  lemma OpenedFrame(s: Sys, who: Owner, t: Option<TaskId>, x: Option<CallId>)
    ensures Frame(s, Opened(s, who), t, x, Some(s.next))
  {
  }

  lemma IdleDroppedFrame(s: Sys, c: Conn)
    ensures Frame(s, s.(idle := s.idle - {c}), None, None, Some(c))
  {
  }

  lemma OtherTaskStays(s: Sys, s': Sys, t: Option<TaskId>, x: Option<CallId>, c: Option<Conn>, u: TaskId)
    requires Frame(s, s', t, x, c) && Own(s, t, x, c)
    requires u in s.tasks && Some(u) != t && TaskOk(s, u)
    ensures u in s'.tasks && TaskOk(s', u)
  {
    var task := s.tasks[u];
    if ConnOf(task).Some? {
      assert Quiet(s, s', ConnOf(task).value);
    }
  }

  lemma OtherCallStays(s: Sys, s': Sys, t: Option<TaskId>, x: Option<CallId>, c: Option<Conn>, y: CallId)
    requires Frame(s, s', t, x, c) && Own(s, t, x, c)
    requires y in s.calls && Some(y) != x && CallOk(s, y)
    requires s.calls[y].scope.Some? && s.calls[y].scope == t ==> ScopeOk(s', y, t.value)
    ensures y in s'.calls && CallOk(s', y)
  {
    if s.calls[y].pc.OnPool? {
      assert Quiet(s, s', s.calls[y].pc.conn);
    }
  }

  /** The invariant survives a step when what the step changed is good again. */
  lemma StepKeeps(s: Sys, s': Sys, t: Option<TaskId>, x: Option<CallId>, c: Option<Conn>)
    requires Inv(s) && Frame(s, s', t, x, c) && Own(s, t, x, c)
    requires PoolOk(s') && Exclusive(s')
    requires t.Some? && t.value in s'.tasks ==> TaskOk(s', t.value)
    requires t.Some? && t.value in s'.tasks ==>
               var now := ConnOf(s'.tasks[t.value]);
               now.None? || now == c || (t.value in s.tasks && now == ConnOf(s.tasks[t.value]))
    requires x.Some? && x.value in s'.calls ==> CallOk(s', x.value)
    requires forall y :: y in s.calls && Some(y) != x && s.calls[y].scope.Some? && s.calls[y].scope == t ==> ScopeOk(s', y, t.value)
    requires c.Some? ==> OutAt(s', c.value) && IdleAt(s', c.value)
    requires t.Some? && t.value in s.tasks && Holds(s.tasks[t.value]).Some? && Holds(s.tasks[t.value]) != c ==>
               t.value in s'.tasks && Holds(s'.tasks[t.value]) == Holds(s.tasks[t.value])
    requires x.Some? && x.value in s.calls && s.calls[x.value].pc.OnPool? && Some(s.calls[x.value].pc.conn) != c ==>
               x.value in s'.calls && s'.calls[x.value].pc == s.calls[x.value].pc
    ensures Inv(s')
  {
    forall u | u in s'.tasks
      ensures TaskOk(s', u)
    {
      if Some(u) != t {
        OtherTaskStays(s, s', t, x, c, u);
      }
    }
    forall y | y in s'.calls
      ensures CallOk(s', y)
    {
      if Some(y) != x {
        OtherCallStays(s, s', t, x, c, y);
      }
    }
    forall d
      ensures OutAt(s', d) && IdleAt(s', d)
    {
      if Some(d) != c {
        assert Quiet(s, s', d) && IdleAt(s, d) && OutAt(s, d);
      }
    }
    forall u, v | u in s'.tasks && v in s'.tasks
      ensures Apart(s', u, v)
    {
      if Some(u) != t && Some(v) != t {
        assert Apart(s, u, v);
      } else if u != v && t.value in s.tasks {
        assert Apart(s, u, v) && Apart(s, v, u);
      }
    }
  }

  /** The parts of the invariant that a step of `t`, `x` and `c` needs. */
  lemma Local(s: Sys, t: Option<TaskId>, x: Option<CallId>, c: Option<Conn>)
    requires Inv(s)
    ensures PoolOk(s) && Exclusive(s)
    ensures t.Some? && t.value in s.tasks ==> TaskOk(s, t.value)
    ensures x.Some? && x.value in s.calls ==> CallOk(s, x.value)
    ensures c.Some? ==> OutAt(s, c.value) && IdleAt(s, c.value)
    ensures forall y :: y in s.calls && t.Some? && s.calls[y].scope == t ==> CallOk(s, y)
  {
  }

  lemma HeldIsOwn(s: Sys, t: TaskId)
    requires Inv(s) && t in s.tasks && Holds(s.tasks[t]).Some?
    ensures Own(s, Some(t), None, Holds(s.tasks[t]))
  {
    forall u | u in s.tasks && u != t && ConnOf(s.tasks[u]).Some?
      ensures ConnOf(s.tasks[u]) != Holds(s.tasks[t])
    {
      assert TaskOk(s, t) && TaskOk(s, u);
    }
    forall y | y in s.calls && s.calls[y].pc.OnPool?
      ensures Some(s.calls[y].pc.conn) != Holds(s.tasks[t])
    {
      assert TaskOk(s, t) && CallOk(s, y);
    }
  }

  lemma IdleIsOwn(s: Sys, t: Option<TaskId>, x: Option<CallId>, c: Conn)
    requires Inv(s) && c in s.idle
    requires forall u :: u in s.tasks && s.tasks[u].mu.ByCall? ==> Some(s.tasks[u].mu.call) != x
    ensures Own(s, t, x, Some(c))
  {
    forall u | u in s.tasks && ConnOf(s.tasks[u]).Some?
      ensures ConnOf(s.tasks[u]).value != c
    {
      assert TaskOk(s, u);
    }
    forall y | y in s.calls && s.calls[y].pc.OnPool?
      ensures s.calls[y].pc.conn != c
    {
      assert CallOk(s, y);
    }
  }

  lemma NextIsOwn(s: Sys, t: Option<TaskId>, x: Option<CallId>)
    requires Inv(s)
    requires forall u :: u in s.tasks && s.tasks[u].mu.ByCall? ==> Some(s.tasks[u].mu.call) != x
    ensures Own(s, t, x, Some(s.next))
  {
    forall u | u in s.tasks && ConnOf(s.tasks[u]).Some?
      ensures ConnOf(s.tasks[u]).value != s.next
    {
      assert TaskOk(s, u);
    }
    forall y | y in s.calls && s.calls[y].pc.OnPool?
      ensures s.calls[y].pc.conn != s.next
    {
      assert CallOk(s, y);
    }
  }

  lemma PoolCallIsOwn(s: Sys, x: CallId)
    requires Inv(s) && x in s.calls && s.calls[x].pc.OnPool?
    requires forall u :: u in s.tasks && s.tasks[u].mu.ByCall? ==> s.tasks[u].mu.call != x
    ensures Own(s, None, Some(x), Some(s.calls[x].pc.conn))
  {
    var c := s.calls[x].pc.conn;
    assert CallOk(s, x);
    forall u | u in s.tasks && ConnOf(s.tasks[u]).Some?
      ensures ConnOf(s.tasks[u]).value != c
    {
      assert TaskOk(s, u);
    }
    forall y | y in s.calls && y != x && s.calls[y].pc.OnPool?
      ensures s.calls[y].pc.conn != c
    {
      assert CallOk(s, y);
    }
  }

  lemma OpenKeepsPool(s: Sys, s': Sys, who: Owner)
    requires PoolOk(s) && HasRoom(s)
    requires s' == Opened(s, who).(tasks := s'.tasks, calls := s'.calls)
    ensures PoolOk(s')
  {
    var n := s.next;
    assert n !in s.out && n !in s.idle && n !in s.closed;
    CountOfNew(s.out, n, who);
    forall c | c in s'.out || c in s'.sessions
      ensures c < s'.next
    {
      assert c == n || c in s.out || c in s.sessions;
    }
  }

  lemma CountOfNew(out: map<Conn, Owner>, n: Conn, who: Owner)
    requires n !in out
    ensures |out[n := who]| == |out| + 1
    ensures out[n := who].Keys == out.Keys + {n}
  {
    assert out[n := who].Keys == out.Keys + {n};
    assert |out[n := who].Keys| == |out.Keys| + 1;
  }

  lemma OpenKeepsExclusive(s: Sys, s': Sys)
    requires Exclusive(s) && s'.sessions == s.sessions[s.next := multiset{}]
    ensures Exclusive(s')
  {
  }

  lemma SameSessions(s: Sys, s': Sys)
    requires Exclusive(s) && s'.sessions == s.sessions
    ensures Exclusive(s')
  {
  }

  lemma SamePool(s: Sys, s': Sys)
    requires PoolOk(s) && s' == s.(tasks := s'.tasks, calls := s'.calls)
    ensures PoolOk(s')
  {
  }

  lemma CloseKeepsPool(s: Sys, c: Conn)
    requires PoolOk(s) && c in s.out
    ensures PoolOk(Closed(s, c))
  {
  }

  lemma GrantKeepsPool(s: Sys, k: Key, c: Conn)
    requires PoolOk(s)
    ensures PoolOk(Granted(s, k, c))
  {
    hide HeldElsewhere;
  }

  lemma TakeCounts(idle: set<Conn>, out: map<Conn, Owner>, c: Conn, who: Owner)
    requires c in idle && idle !! out.Keys
    ensures |idle - {c}| == |idle| - 1 && |out[c := who]| == |out| + 1
    ensures idle - {c} !! out[c := who].Keys
  {
    CountOfNew(out, c, who);
  }

  lemma TakeKeepsPool(s: Sys, s': Sys, c: Conn, who: Owner)
    requires PoolOk(s) && c in s.idle
    requires s' == Taken(s, c, who).(tasks := s'.tasks, calls := s'.calls)
    ensures PoolOk(s') && s'.sessions == s.sessions
  {
    TakeCounts(s.idle, s.out, c, who);
  }

  lemma ReleaseMovesNone(s: Sys, c: Conn, who: Owner)
    ensures PoolRelease(s, c, who).tasks == s.tasks && PoolRelease(s, c, who).calls == s.calls
  {
  }

  lemma ReleaseKeepsPool(s: Sys, s': Sys, c: Conn, who: Owner)
    requires PoolOk(s) && c in s.out && s.out[c] == who
    requires s' == PoolRelease(s, c, who).(tasks := s'.tasks, calls := s'.calls)
    ensures PoolOk(s') && s'.sessions == s.sessions
  {
    var rest := s.out - {c};
    assert s.out == rest[c := who];
    assert |s.out| == |rest| + 1;
  }

  lemma LockingKeepsExclusive(s: Sys, s': Sys, k: Key, c: Conn)
    requires Exclusive(s)
    requires s'.sessions == s.sessions || s'.sessions == Granted(s, k, c).sessions || s'.sessions == Ungranted(s, k, c).sessions
    ensures Exclusive(s')
  {
  }

  lemma NotOnLock(s: Sys, x: CallId)
    requires Inv(s) && x in s.calls && s.calls[x].pc != OnLock
    ensures forall u :: u in s.tasks && s.tasks[u].mu.ByCall? ==> s.tasks[u].mu.call != x
  {
    forall u | u in s.tasks && s.tasks[u].mu.ByCall?
      ensures s.tasks[u].mu.call != x
    {
      assert TaskOk(s, u);
    }
  }

  /** A task that is not inside fn, nor past it, has no calls under its lock. */
  lemma NoCallsYet(s: Sys, t: TaskId)
    requires Inv(s) && t in s.tasks
    requires !InFn(s.tasks[t].pc) && !InRelease(s.tasks[t].pc) && s.tasks[t].pc != Done
    ensures forall y :: y in s.calls ==> s.calls[y].scope != Some(t)
  {
    forall y | y in s.calls
      ensures s.calls[y].scope != Some(t)
    {
      assert CallOk(s, y);
    }
  }

  lemma StartTaskKeeps(s: Sys, t: TaskId, k: Key)
    requires Inv(s) && t !in s.tasks
    ensures Inv(s.(tasks := s.tasks[t := Task(k, WantConn, 0, false, Free)]))
  {
    StepKeeps(s, s.(tasks := s.tasks[t := Task(k, WantConn, 0, false, Free)]), Some(t), None, None);
  }

  lemma TakeIdleFrame(s: Sys, t: TaskId, c: Conn)
    requires At(s, t, WantConn) && c in s.idle
    ensures Frame(s, Moved(Taken(s, c, OfTask(t)), t, Trying(c)), Some(t), None, Some(c))
  {
  }

  lemma TakeIdleLocal(s: Sys, t: TaskId, c: Conn)
    requires At(s, t, WantConn) && TaskOk(s, t) && IdleAt(s, c) && c in s.idle
    ensures var s' := Moved(Taken(s, c, OfTask(t)), t, Trying(c)); TaskOk(s', t) && OutAt(s', c) && IdleAt(s', c)
  {
  }

  lemma TakeIdleKeeps(s: Sys, t: TaskId, c: Conn)
    requires Inv(s) && At(s, t, WantConn) && c in s.idle
    ensures Inv(Moved(Taken(s, c, OfTask(t)), t, Trying(c)))
  {
    hide Inv, Frame, Own, PoolOk, Exclusive, Apart, OutAt, IdleAt, CallOk, TaskOk, ScopeOk;
    var s' := Moved(Taken(s, c, OfTask(t)), t, Trying(c));
    TakeIdleFrame(s, t, c);
    IdleIsOwn(s, Some(t), None, c);
    NoCallsYet(s, t);
    Local(s, Some(t), None, Some(c));
    TakeIdleLocal(s, t, c);
    TakeKeepsPool(s, s', c, OfTask(t));
    SameSessions(s, s');
    StepKeeps(s, s', Some(t), None, Some(c));
  }

  lemma TakeNewKeeps(s: Sys, t: TaskId)
    requires Inv(s) && At(s, t, WantConn) && HasRoom(s)
    ensures Inv(Moved(Opened(s, OfTask(t)), t, Trying(s.next)))
  {
    hide Inv, Own, PoolOk, Exclusive, Frame, Apart;
    var u, c := Opened(s, OfTask(t)), s.next;
    var s' := Moved(u, t, Trying(c));
    NextIsOwn(s, Some(t), None);
    NoCallsYet(s, t);
    Local(s, Some(t), None, Some(c));
    OpenKeepsPool(s, s', OfTask(t));
    OpenKeepsExclusive(s, s');
    OpenedFrame(s, OfTask(t), Some(t), None);
    MovedFrame(u, t, Trying(c), None, Some(c));
    FrameChain(s, u, s', Some(t), None, Some(c));
    assert TaskOk(s', t) && OutAt(s', c) && IdleAt(s', c);
    hide OutAt, IdleAt, TaskOk, CallOk, ScopeOk;
    StepKeeps(s, s', Some(t), None, Some(c));
  }

  lemma TryLockFrame(s: Sys, t: TaskId)
    requires Enabled(s, TryLock(t))
    ensures Frame(s, TriedLock(s, t), Some(t), None, Some(s.tasks[t].pc.tried))
  {
  }

  lemma TryLockLocal(s: Sys, t: TaskId)
    requires Inv(s) && Enabled(s, TryLock(t))
    ensures var s', c := TriedLock(s, t), s.tasks[t].pc.tried;
            PoolOk(s') && Exclusive(s') && TaskOk(s', t) && OutAt(s', c) && IdleAt(s', c)
  {
    hide Inv, PoolOk, Exclusive, HeldElsewhere, CallOk;
    var s', c, key := TriedLock(s, t), s.tasks[t].pc.tried, s.tasks[t].key;
    Local(s, Some(t), None, Some(c));
    assert Used(s, c, OfTask(t)) == s;
    GrantKeepsPool(s, key, c);
    if HeldElsewhere(s, key, c) {
      SamePool(s, s');
    } else {
      SamePool(Granted(s, key, c), s');
    }
    LockingKeepsExclusive(s, s', key, c);
  }

  lemma TryLockKeeps(s: Sys, t: TaskId)
    requires Inv(s) && Enabled(s, TryLock(t))
    ensures Inv(TriedLock(s, t))
  {
    TryLockFrame(s, t);
    HeldIsOwn(s, t);
    TryLockLocal(s, t);
    NoCallsYet(s, t);
    hide PoolOk, Own, Exclusive, Frame, HeldElsewhere, OutAt, IdleAt, TaskOk, CallOk, ScopeOk, Apart;
    StepKeeps(s, TriedLock(s, t), Some(t), None, Some(s.tasks[t].pc.tried));
  }

  lemma TryErrorFrame(s: Sys, t: TaskId, granted: bool)
    requires Enabled(s, TryError(t, granted))
    ensures Frame(s, TryErrored(s, t, granted), Some(t), None, Some(s.tasks[t].pc.tried))
  {
    hide Frame, HeldElsewhere;
    var c, key := s.tasks[t].pc.tried, s.tasks[t].key;
    var u := Used(s, c, OfTask(t));
    var v := if granted then Granted(u, key, c) else u;
    UsedFrame(s, c, OfTask(t), Some(t), None);
    GrantedFrame(u, c, key, Some(t), None);
    if granted {
      FrameChain(s, u, v, Some(t), None, Some(c));
    }
    MovedFrame(v, t, TryFailed(c), None, Some(c));
    FrameChain(s, v, Moved(v, t, TryFailed(c)), Some(t), None, Some(c));
  }

  lemma TryErrorKeeps(s: Sys, t: TaskId, granted: bool)
    requires Inv(s) && Enabled(s, TryError(t, granted))
    ensures Inv(TryErrored(s, t, granted))
  {
    hide Inv, Own, PoolOk, Exclusive, HeldElsewhere, Apart, Frame;
    var s', c, key := TryErrored(s, t, granted), s.tasks[t].pc.tried, s.tasks[t].key;
    HeldIsOwn(s, t);
    NoCallsYet(s, t);
    Local(s, Some(t), None, Some(c));
    assert Used(s, c, OfTask(t)) == s;
    TryErrorFrame(s, t, granted);
    GrantKeepsPool(s, key, c);
    SamePool(if granted then Granted(s, key, c) else s, s');
    LockingKeepsExclusive(s, s', key, c);
    assert TaskOk(s', t) && OutAt(s', c) && IdleAt(s', c);
    hide OutAt, IdleAt, TaskOk, CallOk, ScopeOk;
    StepKeeps(s, s', Some(t), None, Some(c));
  }

  lemma CloseTriedKeeps(s: Sys, t: TaskId)
    requires Inv(s) && t in s.tasks && s.tasks[t].pc.TryFailed?
    ensures Inv(Moved(Closed(s, s.tasks[t].pc.tried), t, TryClosed(s.tasks[t].pc.tried)))
  {
    hide Inv, PoolOk, Exclusive, Own, Apart;
    var c := s.tasks[t].pc.tried;
    var u := Closed(s, c);
    var s' := Moved(u, t, TryClosed(c));
    HeldIsOwn(s, t);
    NoCallsYet(s, t);
    Local(s, Some(t), None, Some(c));
    assert c in s.out;
    CloseKeepsPool(s, c);
    SamePool(u, s');
    SameSessions(s, s');
    ClosedFrame(s, c, Some(t), None);
    MovedFrame(u, t, TryClosed(c), None, Some(c));
    hide Frame;
    FrameChain(s, u, s', Some(t), None, Some(c));
    assert TaskOk(s', t) && OutAt(s', c) && IdleAt(s', c);
    hide OutAt, IdleAt, TaskOk, CallOk, ScopeOk;
    StepKeeps(s, s', Some(t), None, Some(c));
  }

  function Returned(s: Sys, t: TaskId, c: Conn, pc: TaskPc): Sys
    requires t in s.tasks
  {
    Moved(PoolRelease(s, c, OfTask(t)), t, pc)
  }

  lemma ReturnedFrame(s: Sys, t: TaskId, c: Conn, pc: TaskPc)
    requires t in s.tasks
    ensures Frame(s, Returned(s, t, c, pc), Some(t), None, Some(c))
  {
  }

  lemma ReturnedLocal(s: Sys, t: TaskId, c: Conn, pc: TaskPc)
    requires t in s.tasks && (s.tasks[t].pc == NotLocked(c) || s.tasks[t].pc == TryClosed(c)) && (pc == Done || pc == Sleeping)
    requires TaskOk(s, t) && OutAt(s, c) && IdleAt(s, c)
    ensures var s' := Returned(s, t, c, pc); TaskOk(s', t) && OutAt(s', c) && IdleAt(s', c)
    ensures var s' := Returned(s, t, c, pc); t in s'.tasks && ConnOf(s'.tasks[t]) == None
  {
  }

  /** A connection without a lock goes back to the pool, or is dropped if it was closed. */
  lemma ReturnedKeeps(s: Sys, t: TaskId, c: Conn, pc: TaskPc)
    requires Inv(s) && t in s.tasks && (s.tasks[t].pc == NotLocked(c) || s.tasks[t].pc == TryClosed(c)) && (pc == Done || pc == Sleeping)
    ensures Inv(Returned(s, t, c, pc))
  {
    hide Inv, Own, Frame, PoolOk, Exclusive, OutAt, IdleAt, CallOk, ScopeOk, Apart, PoolRelease;
    var s' := Returned(s, t, c, pc);
    HeldIsOwn(s, t);
    NoCallsYet(s, t);
    Local(s, Some(t), None, Some(c));
    ReturnedFrame(s, t, c, pc);
    ReturnedLocal(s, t, c, pc);
    assert c in s.out && s.out[c] == OfTask(t);
    hide TaskOk;
    ReleaseKeepsPool(s, s', c, OfTask(t));
    SameSessions(s, s');
    assert Holds(s.tasks[t]) == Some(c) && ConnOf(s.tasks[t]) == Some(c);
    assert ConnOf(s'.tasks[t]) == None;
    hide Holds, ConnOf, Returned, Moved, InFn, InRelease;
    StepKeeps(s, s', Some(t), None, Some(c));
  }

  lemma WakeKeeps(s: Sys, t: TaskId)
    requires Inv(s) && At(s, t, Sleeping)
    ensures Inv(Moved(s, t, WantConn))
  {
    StepKeeps(s, Moved(s, t, WantConn), Some(t), None, None);
  }

  lemma GiveUpKeeps(s: Sys, t: TaskId)
    requires Inv(s) && (At(s, t, Sleeping) || At(s, t, WantConn))
    ensures Inv(Moved(s, t, Done))
  {
    StepKeeps(s, Moved(s, t, Done), Some(t), None, None);
  }

  lemma EndFnKeeps(s: Sys, t: TaskId)
    requires Inv(s) && At(s, t, Inside)
    ensures Inv(Moved(s, t, Ending))
  {
    StepKeeps(s, Moved(s, t, Ending), Some(t), None, None);
  }

  lemma BeginReleaseFrame(s: Sys, t: TaskId)
    requires Enabled(s, BeginRelease(t))
    ensures Frame(s, ReleaseBegun(s, t), Some(t), None, None)
  {
  }

  lemma BeginReleaseKeeps(s: Sys, t: TaskId)
    requires Inv(s) && Enabled(s, BeginRelease(t))
    ensures Inv(ReleaseBegun(s, t))
  {
    hide Inv, Frame, PoolOk, Exclusive, Apart;
    var s' := ReleaseBegun(s, t);
    BeginReleaseFrame(s, t);
    Local(s, Some(t), None, None);
    SamePool(s, s');
    SameSessions(s, s');
    assert TaskOk(s', t);
    forall y | y in s.calls && s.calls[y].scope == Some(t)
      ensures ScopeOk(s', y, t)
    {
      assert CallOk(s, y);
    }
    hide OutAt, IdleAt, TaskOk, CallOk, ScopeOk;
    StepKeeps(s, s', Some(t), None, None);
  }

  lemma UnlockFrame(s: Sys, t: TaskId)
    requires Enabled(s, Unlock(t))
    ensures Frame(s, Unlocked(s, t), Some(t), None, Some(s.tasks[t].conn))
  {
    var task := s.tasks[t];
    var c := task.conn;
    var u := Used(s, c, OfTask(t));
    var v := if task.key in s.sessions[c] then Ungranted(u, task.key, c) else u;
    UsedFrame(s, c, OfTask(t), Some(t), None);
    UngrantedFrame(u, c, task.key, Some(t), None);
    hide Frame;
    if task.key in s.sessions[c] {
      FrameChain(s, u, v, Some(t), None, Some(c));
    }
    MovedFrame(v, t, if task.key in s.sessions[c] then Returning else Closing, None, Some(c));
    FrameChain(s, v, Moved(v, t, if task.key in s.sessions[c] then Returning else Closing), Some(t), None, Some(c));
  }

  lemma UnlockLocal(s: Sys, t: TaskId)
    requires Enabled(s, Unlock(t)) && PoolOk(s) && TaskOk(s, t)
    ensures PoolOk(Unlocked(s, t)) && TaskOk(Unlocked(s, t), t)
  {
  }

  lemma UnlockKeeps(s: Sys, t: TaskId)
    requires Inv(s) && Enabled(s, Unlock(t))
    ensures Inv(Unlocked(s, t))
  {
    var s', c := Unlocked(s, t), s.tasks[t].conn;
    HeldIsOwn(s, t);
    Local(s, Some(t), None, Some(c));
    UnlockFrame(s, t);
    UnlockLocal(s, t);
    hide Inv, Own, Frame, PoolOk, Exclusive;
    LockingKeepsExclusive(s, s', s.tasks[t].key, c);
    assert OutAt(s', c) && IdleAt(s', c);
    forall y | y in s.calls && s.calls[y].scope == Some(t)
      ensures ScopeOk(s', y, t)
    {
      assert CallOk(s, y);
    }
    hide OutAt, IdleAt, TaskOk, CallOk, ScopeOk, Apart;
    StepKeeps(s, s', Some(t), None, Some(c));
  }

  lemma UnlockErrorFrame(s: Sys, t: TaskId, applied: bool)
    requires Enabled(s, UnlockError(t, applied))
    ensures Frame(s, UnlockErrored(s, t, applied), Some(t), None, Some(s.tasks[t].conn))
  {
    var task := s.tasks[t];
    var c := task.conn;
    var u := Used(s, c, OfTask(t));
    var v := if applied then Ungranted(u, task.key, c) else u;
    UsedFrame(s, c, OfTask(t), Some(t), None);
    UngrantedFrame(u, c, task.key, Some(t), None);
    hide Frame;
    if applied {
      FrameChain(s, u, v, Some(t), None, Some(c));
    }
    MovedFrame(v, t, Closing, None, Some(c));
    FrameChain(s, v, Moved(v, t, Closing), Some(t), None, Some(c));
  }

  lemma UnlockErrorLocal(s: Sys, t: TaskId, applied: bool)
    requires Enabled(s, UnlockError(t, applied)) && PoolOk(s) && TaskOk(s, t)
    ensures PoolOk(UnlockErrored(s, t, applied)) && TaskOk(UnlockErrored(s, t, applied), t)
  {
  }

  lemma UnlockErrorKeeps(s: Sys, t: TaskId, applied: bool)
    requires Inv(s) && Enabled(s, UnlockError(t, applied))
    ensures Inv(UnlockErrored(s, t, applied))
  {
    var s', c := UnlockErrored(s, t, applied), s.tasks[t].conn;
    HeldIsOwn(s, t);
    Local(s, Some(t), None, Some(c));
    UnlockErrorFrame(s, t, applied);
    UnlockErrorLocal(s, t, applied);
    hide Inv, Own, Frame, PoolOk, Exclusive;
    LockingKeepsExclusive(s, s', s.tasks[t].key, c);
    assert OutAt(s', c) && IdleAt(s', c);
    forall y | y in s.calls && s.calls[y].scope == Some(t)
      ensures ScopeOk(s', y, t)
    {
      assert CallOk(s, y);
    }
    hide OutAt, IdleAt, TaskOk, CallOk, ScopeOk, Apart;
    StepKeeps(s, s', Some(t), None, Some(c));
  }

  lemma CloseLockKeeps(s: Sys, t: TaskId)
    requires Inv(s) && At(s, t, Closing)
    ensures Inv(Moved(Closed(s, s.tasks[t].conn), t, Returning))
  {
    hide Inv, PoolOk, Exclusive, Own, Apart;
    var c := s.tasks[t].conn;
    var u := Closed(s, c);
    var s' := Moved(u, t, Returning);
    HeldIsOwn(s, t);
    Local(s, Some(t), None, Some(c));
    assert c in s.out;
    CloseKeepsPool(s, c);
    SamePool(u, s');
    SameSessions(s, s');
    ClosedFrame(s, c, Some(t), None);
    MovedFrame(u, t, Returning, None, Some(c));
    hide Frame;
    FrameChain(s, u, s', Some(t), None, Some(c));
    forall y | y in s.calls && s.calls[y].scope == Some(t)
      ensures ScopeOk(s', y, t)
    {
      assert CallOk(s, y);
    }
    assert TaskOk(s', t) && OutAt(s', c) && IdleAt(s', c);
    hide OutAt, IdleAt, TaskOk, CallOk, ScopeOk;
    StepKeeps(s, s', Some(t), None, Some(c));
  }

  lemma ReturnLockFrame(s: Sys, t: TaskId)
    requires At(s, t, Returning)
    ensures Frame(s, Moved(SetMu(PoolRelease(s, s.tasks[t].conn, OfTask(t)), t, Free), t, Done), Some(t), None, Some(s.tasks[t].conn))
  {
  }

  lemma ReturnLockTask(s: Sys, t: TaskId)
    requires At(s, t, Returning) && TaskOk(s, t) && OutAt(s, s.tasks[t].conn) && IdleAt(s, s.tasks[t].conn)
    ensures var s', c := Moved(SetMu(PoolRelease(s, s.tasks[t].conn, OfTask(t)), t, Free), t, Done), s.tasks[t].conn;
            TaskOk(s', t) && OutAt(s', c) && IdleAt(s', c)
  {
  }

  lemma ReturnLockScope(s: Sys, t: TaskId, y: CallId)
    requires At(s, t, Returning) && TaskOk(s, t) && y in s.calls && s.calls[y].scope == Some(t) && CallOk(s, y)
    ensures ScopeOk(Moved(SetMu(PoolRelease(s, s.tasks[t].conn, OfTask(t)), t, Free), t, Done), y, t)
  {
  }

  lemma ReturnLockLocal(s: Sys, t: TaskId)
    requires Inv(s) && At(s, t, Returning)
    ensures var s', c := Moved(SetMu(PoolRelease(s, s.tasks[t].conn, OfTask(t)), t, Free), t, Done), s.tasks[t].conn;
            && PoolOk(s') && Exclusive(s') && TaskOk(s', t) && OutAt(s', c) && IdleAt(s', c)
            && forall y :: y in s.calls && s.calls[y].scope == Some(t) ==> ScopeOk(s', y, t)
  {
    hide Inv, PoolOk, Exclusive, Apart, PoolRelease, OutAt, IdleAt, CallOk, ScopeOk;
    var u, c := PoolRelease(s, s.tasks[t].conn, OfTask(t)), s.tasks[t].conn;
    ReleaseMovesNone(s, c, OfTask(t));
    var s' := Moved(SetMu(u, t, Free), t, Done);
    Local(s, Some(t), None, Some(c));
    assert c in s.out && s.out[c] == OfTask(t);
    ReturnLockTask(s, t);
    hide TaskOk;
    ReleaseKeepsPool(s, u, c, OfTask(t));
    SamePool(u, s');
    SameSessions(s, s');
    forall y | y in s.calls && s.calls[y].scope == Some(t)
      ensures ScopeOk(s', y, t)
    {
      ReturnLockScope(s, t, y);
    }
  }

  lemma ReturnLockKeeps(s: Sys, t: TaskId)
    requires Inv(s) && At(s, t, Returning)
    ensures Inv(Moved(SetMu(PoolRelease(s, s.tasks[t].conn, OfTask(t)), t, Free), t, Done))
  {
    ReturnLockFrame(s, t);
    HeldIsOwn(s, t);
    ReturnLockLocal(s, t);
    hide PoolOk, Own, Exclusive, OutAt, IdleAt, TaskOk, CallOk, ScopeOk, Frame, Apart;
    StepKeeps(s, Moved(SetMu(PoolRelease(s, s.tasks[t].conn, OfTask(t)), t, Free), t, Done), Some(t), None, Some(s.tasks[t].conn));
  }

  lemma StartCallKeeps(s: Sys, x: CallId, scope: Option<TaskId>)
    requires Inv(s) && x !in s.calls && (scope.Some? ==> At(s, scope.value, Inside))
    ensures Inv(s.(calls := s.calls[x := Call(scope, Arriving)]))
  {
    StepKeeps(s, s.(calls := s.calls[x := Call(scope, Arriving)]), None, Some(x), None);
  }

  lemma CallTakeIdleFrame(s: Sys, x: CallId, c: Conn)
    requires CallAt(s, x, WantPool) && c in s.idle
    ensures Frame(s, CallMoved(Taken(s, c, OfCall(x)), x, OnPool(c)), None, Some(x), Some(c))
  {
  }

  lemma CallTakeIdleLocal(s: Sys, x: CallId, c: Conn)
    requires CallAt(s, x, WantPool) && CallOk(s, x) && IdleAt(s, c) && c in s.idle
    ensures var s' := CallMoved(Taken(s, c, OfCall(x)), x, OnPool(c)); CallOk(s', x) && OutAt(s', c) && IdleAt(s', c)
  {
  }

  lemma CallTakeIdleKeeps(s: Sys, x: CallId, c: Conn)
    requires Inv(s) && CallAt(s, x, WantPool) && c in s.idle
    ensures Inv(CallMoved(Taken(s, c, OfCall(x)), x, OnPool(c)))
  {
    hide Inv, Frame, Own, PoolOk, Exclusive, Apart, OutAt, IdleAt, CallOk, TaskOk, ScopeOk;
    var s' := CallMoved(Taken(s, c, OfCall(x)), x, OnPool(c));
    CallTakeIdleFrame(s, x, c);
    NotOnLock(s, x);
    IdleIsOwn(s, None, Some(x), c);
    Local(s, None, Some(x), Some(c));
    CallTakeIdleLocal(s, x, c);
    TakeKeepsPool(s, s', c, OfCall(x));
    SameSessions(s, s');
    StepKeeps(s, s', None, Some(x), Some(c));
  }

  lemma CallTakeNewKeeps(s: Sys, x: CallId)
    requires Inv(s) && CallAt(s, x, WantPool) && HasRoom(s)
    ensures Inv(CallMoved(Opened(s, OfCall(x)), x, OnPool(s.next)))
  {
    hide Inv, Own, PoolOk, Exclusive, Frame, Apart;
    var u, c := Opened(s, OfCall(x)), s.next;
    var s' := CallMoved(u, x, OnPool(c));
    NotOnLock(s, x);
    NextIsOwn(s, None, Some(x));
    Local(s, None, Some(x), Some(c));
    OpenKeepsPool(s, s', OfCall(x));
    OpenKeepsExclusive(s, s');
    OpenedFrame(s, OfCall(x), None, Some(x));
    CallMovedFrame(u, x, OnPool(c), None, Some(c));
    FrameChain(s, u, s', None, Some(x), Some(c));
    assert CallOk(s', x) && OutAt(s', c) && IdleAt(s', c);
    hide OutAt, IdleAt, TaskOk, CallOk, ScopeOk;
    StepKeeps(s, s', None, Some(x), Some(c));
  }

  lemma CallGiveUpKeeps(s: Sys, x: CallId)
    requires Inv(s) && CallAt(s, x, WantPool)
    ensures Inv(CallMoved(s, x, Finished))
  {
    StepKeeps(s, CallMoved(s, x, Finished), None, Some(x), None);
  }

  lemma FinishOnPoolFrame(s: Sys, x: CallId, breaks: bool)
    requires Enabled(s, FinishOnPool(x, breaks))
    ensures Frame(s, FinishedOnPool(s, x, breaks), None, Some(x), Some(s.calls[x].pc.conn))
  {
    var c := s.calls[x].pc.conn;
    var u := Used(s, c, OfCall(x));
    var v := if breaks then Closed(u, c) else u;
    var w := PoolRelease(v, c, OfCall(x));
    UsedFrame(s, c, OfCall(x), None, Some(x));
    ClosedFrame(u, c, None, Some(x));
    ReleaseFrame(v, c, OfCall(x), None, Some(x));
    CallMovedFrame(w, x, Finished, None, Some(c));
    hide Frame;
    if breaks {
      FrameChain(s, u, v, None, Some(x), Some(c));
    }
    FrameChain(s, v, w, None, Some(x), Some(c));
    FrameChain(s, w, CallMoved(w, x, Finished), None, Some(x), Some(c));
  }

  lemma FinishOnPoolKeeps(s: Sys, x: CallId, breaks: bool)
    requires Inv(s) && Enabled(s, FinishOnPool(x, breaks))
    ensures Inv(FinishedOnPool(s, x, breaks))
  {
    hide Inv, Frame, Own, PoolOk, Exclusive, Apart;
    var s', c := FinishedOnPool(s, x, breaks), s.calls[x].pc.conn;
    FinishOnPoolFrame(s, x, breaks);
    NotOnLock(s, x);
    PoolCallIsOwn(s, x);
    Local(s, None, Some(x), Some(c));
    assert c in s.out && s.out[c] == OfCall(x) && NoLocks(s, c);
    CloseKeepsPool(s, c);
    var u := if breaks then Closed(s, c) else s;
    ReleaseKeepsPool(u, s', c, OfCall(x));
    SameSessions(s, s');
    assert CallOk(s', x) && OutAt(s', c) && IdleAt(s', c);
    hide OutAt, IdleAt, TaskOk, CallOk, ScopeOk;
    StepKeeps(s, s', None, Some(x), Some(c));
  }

  lemma SessionEndsKeeps(s: Sys, c: Conn)
    requires Inv(s) && c in s.sessions
    ensures Inv(s.(sessions := s.sessions - {c}))
  {
    StepKeeps(s, s.(sessions := s.sessions - {c}), None, None, None);
  }

  lemma IdleClosesKeeps(s: Sys, c: Conn)
    requires Inv(s) && c in s.idle
    ensures Inv(Closed(s.(idle := s.idle - {c}), c))
  {
    var s' := Closed(s.(idle := s.idle - {c}), c);
    IdleIsOwn(s, None, None, c);
    Local(s, None, None, Some(c));
    hide Inv, Own;
    assert |s.idle - {c}| == |s.idle| - 1;
    assert PoolOk(s');
    hide PoolOk, Exclusive;
    SameSessions(s, s');
    IdleDroppedFrame(s, c);
    ClosedFrame(s.(idle := s.idle - {c}), c, None, None);
    hide Frame;
    FrameChain(s, s.(idle := s.idle - {c}), s', None, None, Some(c));
    assert OutAt(s', c) && IdleAt(s', c);
    hide OutAt, IdleAt, TaskOk, CallOk, ScopeOk, Apart;
    StepKeeps(s, s', None, None, Some(c));
  }

  /** A call on the lock connection has the task's mutex, and only that task's. */
  lemma ScopeIsOwn(s: Sys, t: TaskId, x: CallId)
    requires Inv(s) && t in s.tasks && x in s.calls && s.calls[x].scope == Some(t)
    requires Holds(s.tasks[t]).Some? && !s.calls[x].pc.OnPool?
    ensures Own(s, Some(t), Some(x), Holds(s.tasks[t]))
  {
    HeldIsOwn(s, t);
    forall u | u in s.tasks && u != t && s.tasks[u].mu.ByCall?
      ensures s.tasks[u].mu.call != x
    {
      assert TaskOk(s, u);
    }
  }

  /** The lock connection is dead: it goes back to the pool and the call runs on the pool. */
  lemma FallBackKeeps(s: Sys, x: CallId, t: TaskId)
    requires Inv(s) && Enabled(s, Querier(x)) && s.calls[x].scope == Some(t)
    requires !s.tasks[t].released && s.tasks[t].conn in s.closed
    ensures Inv(QuerierChose(s, x))
  {
    hide Inv, PoolOk, Exclusive, Own, Apart;
    var s', c := QuerierChose(s, x), s.tasks[t].conn;
    Local(s, Some(t), Some(x), Some(c));
    ScopeIsOwn(s, t, x);
    ReleaseKeepsPool(s, s', c, OfTask(t));
    SameSessions(s, s');
    forall y | y in s.calls && y != x && s.calls[y].scope == Some(t)
      ensures ScopeOk(s', y, t)
    {
      assert CallOk(s, y);
    }
    assert Frame(s, s', Some(t), Some(x), Some(c));
    hide Frame;
    assert TaskOk(s', t) && CallOk(s', x) && OutAt(s', c) && IdleAt(s', c);
    hide OutAt, IdleAt, TaskOk, CallOk, ScopeOk;
    StepKeeps(s, s', Some(t), Some(x), Some(c));
  }

  lemma TakeMutexKeeps(s: Sys, x: CallId, t: TaskId)
    requires Inv(s) && Enabled(s, Querier(x)) && s.calls[x].scope == Some(t)
    requires !s.tasks[t].released && s.tasks[t].conn !in s.closed
    ensures Inv(QuerierChose(s, x))
  {
    var s' := QuerierChose(s, x);
    assert CallOk(s, x) && TaskOk(s, t);
    ScopeIsOwn(s, t, x);
    LockingKeepsExclusive(s, s', s.tasks[t].key, s.tasks[t].conn);
    forall y | y in s.calls && y != x && s.calls[y].scope == Some(t)
      ensures ScopeOk(s', y, t)
    {
      assert CallOk(s, y);
    }
    hide Exclusive;
    StepKeeps(s, s', Some(t), Some(x), None);
  }

  lemma CallIsOwn(s: Sys, x: CallId)
    requires forall u :: u in s.tasks && s.tasks[u].mu.ByCall? ==> s.tasks[u].mu.call != x
    ensures Own(s, None, Some(x), None)
  {
  }

  lemma PoolChosenKeeps(s: Sys, x: CallId)
    requires Inv(s) && Enabled(s, Querier(x))
    requires s.calls[x].scope.Some? ==> s.tasks[s.calls[x].scope.value].released
    ensures Inv(CallMoved(s, x, WantPool))
  {
    var s' := CallMoved(s, x, WantPool);
    NotOnLock(s, x);
    Local(s, s.calls[x].scope, Some(x), None);
    CallMovedFrame(s, x, WantPool, None, None);
    hide Inv, Frame;
    CallIsOwn(s, x);
    SamePool(s, s');
    hide PoolOk, Exclusive, Own;
    SameSessions(s, s');
    assert CallOk(s', x);
    hide OutAt, IdleAt, TaskOk, CallOk, ScopeOk, Apart;
    StepKeeps(s, s', None, Some(x), None);
  }

  lemma QuerierKeeps(s: Sys, x: CallId)
    requires Inv(s) && Enabled(s, Querier(x))
    ensures Inv(QuerierChose(s, x))
  {
    if s.calls[x].scope.Some? && !s.tasks[s.calls[x].scope.value].released {
      var t := s.calls[x].scope.value;
      if s.tasks[t].conn in s.closed {
        FallBackKeeps(s, x, t);
      } else {
        TakeMutexKeeps(s, x, t);
      }
    } else {
      PoolChosenKeeps(s, x);
    }
  }

  /** The call ran on a connection its task still held, so this is all that changed. */
  lemma FinishedOnLockIs(s: Sys, x: CallId, breaks: bool)
    requires Inv(s) && Enabled(s, FinishOnLock(x, breaks))
    ensures var t := s.calls[x].scope.value;
            var c := s.tasks[t].conn;
            && TaskOk(s, t) && Holds(s.tasks[t]) == Some(c) && s.tasks[t].mu == ByCall(x)
            && FinishedOnLock(s, x, breaks)
               == s.(closed := if breaks then s.closed + {c} else s.closed,
                     tasks := s.tasks[t := s.tasks[t].(mu := Free)],
                     calls := s.calls[x := s.calls[x].(pc := Finished)])
  {
    assert CallOk(s, x) && TaskOk(s, s.calls[x].scope.value);
  }

  lemma FreedFrame(s: Sys, x: CallId, t: TaskId, c: Conn, breaks: bool)
    requires t in s.tasks && x in s.calls
    ensures Frame(s, s.(closed := if breaks then s.closed + {c} else s.closed,
                        tasks := s.tasks[t := s.tasks[t].(mu := Free)],
                        calls := s.calls[x := s.calls[x].(pc := Finished)]),
                  Some(t), Some(x), Some(c))
  {
  }

  lemma FinishOnLockKeeps(s: Sys, x: CallId, breaks: bool)
    requires Inv(s) && Enabled(s, FinishOnLock(x, breaks))
    ensures Inv(FinishedOnLock(s, x, breaks))
  {
    FinishedOnLockIs(s, x, breaks);
    hide FinishedOnLock, Enabled;
    var s', t := FinishedOnLock(s, x, breaks), s.calls[x].scope.value;
    var c := s.tasks[t].conn;
    assert OutAt(s, c) && IdleAt(s, c) && CallOk(s, x);
    ScopeIsOwn(s, t, x);
    LockingKeepsExclusive(s, s', s.tasks[t].key, c);
    forall y | y in s.calls && y != x && s.calls[y].scope == Some(t)
      ensures ScopeOk(s', y, t)
    {
      assert CallOk(s, y);
    }
    FreedFrame(s, x, t, c, breaks);
    hide Frame, Own;
    assert PoolOk(s') && TaskOk(s', t) && CallOk(s', x) && OutAt(s', c) && IdleAt(s', c);
    hide Exclusive, Frame, PoolOk, TaskOk, CallOk, ScopeOk, OutAt, IdleAt, Own, Apart;
    StepKeeps(s, s', Some(t), Some(x), Some(c));
  }

  lemma {:induction false} DoKeeps(s: Sys, a: Action)
    requires Inv(s)
    ensures Inv(Do(s, a))
  {
    hide Inv, TriedLock, TryErrored, ReleaseBegun, Unlocked, UnlockErrored, QuerierChose, FinishedOnLock, FinishedOnPool,
      Taken, Opened, PoolRelease, Closed, Moved, CallMoved, SetMu;
    if Enabled(s, a) {
      match a
      case StartTask(t, k) => StartTaskKeeps(s, t, k);
      case TakeIdle(t, c) => TakeIdleKeeps(s, t, c);
      case TakeNew(t) => TakeNewKeeps(s, t);
      case TryLock(t) => TryLockKeeps(s, t);
      case TryError(t, granted) => TryErrorKeeps(s, t, granted);
      case CloseTried(t) => CloseTriedKeeps(s, t);
      case ReleaseTried(t) => ReturnedKeeps(s, t, s.tasks[t].pc.tried, Done);
      case ReleaseUnlocked(t) => ReturnedKeeps(s, t, s.tasks[t].pc.tried, Sleeping);
      case Wake(t) => WakeKeeps(s, t);
      case GiveUp(t) => GiveUpKeeps(s, t);
      case EndFn(t) => EndFnKeeps(s, t);
      case BeginRelease(t) => BeginReleaseKeeps(s, t);
      case Unlock(t) => UnlockKeeps(s, t);
      case UnlockError(t, applied) => UnlockErrorKeeps(s, t, applied);
      case CloseLock(t) => CloseLockKeeps(s, t);
      case ReturnLock(t) => ReturnLockKeeps(s, t);
      case StartCall(x, scope) => StartCallKeeps(s, x, scope);
      case Querier(x) => QuerierKeeps(s, x);
      case FinishOnLock(x, breaks) => FinishOnLockKeeps(s, x, breaks);
      case CallTakeIdle(x, c) => CallTakeIdleKeeps(s, x, c);
      case CallTakeNew(x) => CallTakeNewKeeps(s, x);
      case CallGiveUp(x) => CallGiveUpKeeps(s, x);
      case FinishOnPool(x, breaks) => FinishOnPoolKeeps(s, x, breaks);
      case SessionEnds(c) => SessionEndsKeeps(s, c);
      case IdleCloses(c) => IdleClosesKeeps(s, c);
    }
  }

  lemma {:induction false} RunKeeps(size: nat, actions: seq<Action>)
    ensures Inv(Run(size, actions))
  {
    if actions == [] {
      StartIsOk(size);
    } else {
      RunKeeps(size, actions[..|actions| - 1]);
      DoKeeps(Run(size, actions[..|actions| - 1]), actions[|actions| - 1]);
    }
  }
}
