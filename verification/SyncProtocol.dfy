/**
 * The double-checked library sync under the user's lock, with the database clock
 * and the success and failure stamps: what holds over whole runs of any number of
 * concurrent syncs as long as no lock connection dies under its sync.
 */
module SyncProtocol {
  import opened Wrappers
  import opened SyncLock
  import opened SyncLockSafety

  type User = int
  type Time = int

  /** How long a successful library sync stays fresh, in the clock's unit. */
  const DAY: Time := 86_400_000_000

  /** library_synced_at and library_sync_error_at of one user. */
  datatype Stamp = Stamp(synced: Option<Time>, failed: Option<Time>)

  /** LibrarySyncDue; an unknown user is due. */
  predicate Due(stamps: map<User, Stamp>, u: User, now: Time) {
    u in stamps ==> stamps[u].synced.None? || stamps[u].synced.value < now - DAY
  }

  /** storedSyncOutcome: whether a failure is stored after the last success. */
  predicate ReportsFailure(stamps: map<User, Stamp>, u: User) {
    && u in stamps && stamps[u].failed.Some?
    && (stamps[u].synced.Some? ==> stamps[u].failed.value > stamps[u].synced.value)
  }

  /** Where fn is, in each of the three callers: entered, told whether the sync is due, outcome recorded. */
  datatype Phase = Entered | IsDue(checked: Time) | NotDue | Recorded

  datatype Success = Success(user: User, at: Time)

  datatype World = World(lock: Sys, keyOf: User -> Key, users: map<TaskId, User>, phases: map<TaskId, Phase>,
                         stamps: map<User, Stamp>, now: Time, successes: seq<Success>)

  datatype Event =
    | Begin(task: TaskId, user: User)
    | LockStep(action: Action)
    | Tick(elapsed: nat)
    | NewUser(user: User)
    | Check(task: TaskId)
    | RecordSuccess(task: TaskId)
    | RecordFailure(task: TaskId)

  function Initial(size: nat, keyOf: User -> Key, stamps: map<User, Stamp>, now: Time): World {
    World(Start(size), keyOf, map[], map[], stamps, now, [])
  }

  predicate Happens(w: World, e: Event) {
    match e
    case Begin(t, _) => t !in w.lock.tasks
    case LockStep(a) => !a.StartTask?
    case Tick(_) => true
    case NewUser(u) => u !in w.stamps
    case Check(t) => InPhase(w, t) && w.phases[t] == Entered
    case RecordSuccess(t) => InPhase(w, t) && w.phases[t].IsDue?
    case RecordFailure(t) => InPhase(w, t) && w.phases[t].IsDue?
  }

  predicate InPhase(w: World, t: TaskId) {
    At(w.lock, t, Inside) && t in w.users && t in w.phases
  }

  function Locked(w: World, a: Action): World {
    var lock := Do(w.lock, a);
    if a.TryLock? && At(lock, a.task, Inside) && !At(w.lock, a.task, Inside)
    then w.(lock := lock, phases := w.phases[a.task := Entered])
    else w.(lock := lock)
  }

  /** The update of a row that exists; none is created. */
  function Stamped(stamps: map<User, Stamp>, u: User, stamp: Stamp): map<User, Stamp> {
    if u in stamps then stamps[u := stamp] else stamps
  }

  function Next(w: World, e: Event): World {
    if !Happens(w, e) then w
    else
      match e
      case Begin(t, u) => w.(lock := Do(w.lock, StartTask(t, w.keyOf(u))), users := w.users[t := u])
      case LockStep(a) => Locked(w, a)
      case Tick(d) => w.(now := w.now + d)
      case NewUser(u) => w.(stamps := w.stamps[u := Stamp(None, None)])
      case Check(t) => w.(phases := w.phases[t := if Due(w.stamps, w.users[t], w.now) then IsDue(w.now) else NotDue])
      case RecordSuccess(t) =>
        var u := w.users[t];
        w.(stamps := Stamped(w.stamps, u, Stamp(Some(w.now), None)), phases := w.phases[t := Recorded],
           successes := if u in w.stamps then w.successes + [Success(u, w.now)] else w.successes)
      case RecordFailure(t) =>
        var u := w.users[t];
        w.(stamps := if u in w.stamps then w.stamps[u := w.stamps[u].(failed := Some(w.now))] else w.stamps,
           phases := w.phases[t := Recorded])
  }

  function After(w: World, events: seq<Event>): World {
    if events == [] then w
    else Next(After(w, events[..|events| - 1]), events[|events| - 1])
  }

  /** The event does not end the session of a lock connection while fn runs under the lock. */
  predicate SparesLocks(w: World, e: Event) {
    e.LockStep? && e.action.SessionEnds? ==>
      forall t :: t in w.lock.tasks && At(w.lock, t, Inside) ==> w.lock.tasks[t].conn != e.action.conn
  }

  predicate LocksSurvive(w: World, events: seq<Event>) {
    events == [] ||
    (LocksSurvive(w, events[..|events| - 1]) && SparesLocks(After(w, events[..|events| - 1]), events[|events| - 1]))
  }

  // ------------------------------------------------------------------ invariant

  predicate StampOk(stamp: Stamp, now: Time) {
    && (stamp.synced.Some? ==> stamp.synced.value <= now)
    && (stamp.failed.Some? ==> stamp.failed.value <= now)
    && (stamp.failed.Some? && stamp.synced.Some? ==> stamp.synced.value < stamp.failed.value - DAY)
  }

  predicate StampsOk(w: World) {
    forall u :: u in w.stamps ==> StampOk(w.stamps[u], w.now)
  }

  /** Every task inside fn has a live lock session, so it is the only one for its user. */
  predicate InsideOk(w: World, t: TaskId)
    requires t in w.lock.tasks
  {
    && t in w.users && w.lock.tasks[t].key == w.keyOf(w.users[t])
    && (At(w.lock, t, Inside) ==> w.lock.tasks[t].conn in w.lock.sessions && t in w.phases && PhaseOk(w, t))
  }

  predicate PhaseOk(w: World, t: TaskId)
    requires t in w.users && t in w.phases
  {
    var u := w.users[t];
    && (w.phases[t].IsDue? ==> w.phases[t].checked <= w.now && Due(w.stamps, u, w.phases[t].checked))
    && (w.phases[t] == NotDue ==> u in w.stamps && w.stamps[u].failed.None?)
  }

  /** The successes of a user are more than a day apart, up to the stored one. */
  predicate Spaced(w: World) {
    && (forall i, j :: 0 <= i < j < |w.successes| && w.successes[i].user == w.successes[j].user ==>
          w.successes[i].at + DAY < w.successes[j].at)
    && (forall i :: 0 <= i < |w.successes| ==>
          var u := w.successes[i].user;
          u in w.stamps && w.stamps[u].synced.Some? && w.successes[i].at <= w.stamps[u].synced.value)
  }

  ghost predicate WorldOk(w: World) {
    Inv(w.lock) && StampsOk(w) && Spaced(w) && forall t :: t in w.lock.tasks ==> InsideOk(w, t)
  }

  /**
   * What a lock step leaves: the tasks with their keys, the sessions it does not end,
   * and inside fn only tasks that were there under the same lock, or one that just took its lock.
   */
  ghost predicate Kept(s: Sys, s': Sys, a: Action) {
    && (forall t :: t in s.tasks <==> t in s'.tasks)
    && (forall t :: t in s.tasks ==> s'.tasks[t].key == s.tasks[t].key)
    && (forall t :: At(s', t, Inside) ==>
          if At(s, t, Inside) then s'.tasks[t].conn == s.tasks[t].conn
          else a == TryLock(t) && s'.tasks[t].conn in s'.sessions)
    && (forall c :: c in s.sessions && a != SessionEnds(c) ==> c in s'.sessions)
  }

  lemma OneTaskKept(s: Sys, s': Sys, a: Action, t: TaskId, task: Task)
    requires t in s.tasks && s'.tasks == s.tasks[t := task] && task.key == s.tasks[t].key
    requires task.pc == Inside ==> s.tasks[t].pc == Inside && task.conn == s.tasks[t].conn
    requires s.sessions.Keys <= s'.sessions.Keys
    ensures Kept(s, s', a)
  {
  }

  lemma TryKept(s: Sys, t: TaskId)
    requires Enabled(s, TryLock(t))
    ensures Kept(s, TriedLock(s, t), TryLock(t))
  {
    hide HeldElsewhere;
  }

  lemma QuerierKept(s: Sys, x: CallId)
    requires Enabled(s, Querier(x))
    ensures Kept(s, QuerierChose(s, x), Querier(x))
  {
    var s' := QuerierChose(s, x);
    hide Kept;
    if s.calls[x].scope.None? {
      CallStepKept(s, s', Querier(x));
    } else {
      var t := s.calls[x].scope.value;
      OneTaskKept(s, s', Querier(x), t, s'.tasks[t]);
    }
  }

  lemma CallStepKept(s: Sys, s': Sys, a: Action)
    requires s'.tasks == s.tasks
    requires forall c :: c in s.sessions && a != SessionEnds(c) ==> c in s'.sessions
    ensures Kept(s, s', a)
  {
  }

  lemma FinishOnLockKept(s: Sys, x: CallId, breaks: bool)
    requires Enabled(s, FinishOnLock(x, breaks))
    ensures Kept(s, FinishedOnLock(s, x, breaks), FinishOnLock(x, breaks))
  {
    hide Kept;
    var s', t := FinishedOnLock(s, x, breaks), s.calls[x].scope.value;
    OneTaskKept(s, s', FinishOnLock(x, breaks), t, s'.tasks[t]);
  }

  lemma TakeKept(s: Sys, a: Action)
    requires Enabled(s, a) && (a.TakeIdle? || a.TakeNew? || a.Wake? || a.GiveUp? || a.EndFn?)
    ensures Kept(s, Do(s, a), a)
  {
    hide Kept, HeldElsewhere;
    OneTaskKept(s, Do(s, a), a, a.task, Do(s, a).tasks[a.task]);
  }

  lemma FailedTryKept(s: Sys, a: Action)
    requires Enabled(s, a) && (a.TryError? || a.CloseTried?)
    ensures Kept(s, Do(s, a), a)
  {
    hide Kept, HeldElsewhere;
    OneTaskKept(s, Do(s, a), a, a.task, Do(s, a).tasks[a.task]);
  }

  lemma ReturnTriedKept(s: Sys, a: Action)
    requires Enabled(s, a) && (a.ReleaseTried? || a.ReleaseUnlocked?)
    ensures Kept(s, Do(s, a), a)
  {
    hide Kept, HeldElsewhere;
    OneTaskKept(s, Do(s, a), a, a.task, Do(s, a).tasks[a.task]);
  }

  lemma ConnectionStaysPut(s: Sys, c: Conn, who: Owner, k: Key)
    ensures Used(s, c, who).tasks == s.tasks && Used(s, c, who).sessions == s.sessions
    ensures Ungranted(s, k, c).tasks == s.tasks && Ungranted(s, k, c).sessions.Keys == s.sessions.Keys
  {
  }

  lemma UnlockMovesOne(s: Sys, t: TaskId)
    requires Enabled(s, Unlock(t))
    ensures var s' := Unlocked(s, t);
            && s'.tasks == s.tasks[t := s.tasks[t].(pc := if s.tasks[t].key in s.sessions[s.tasks[t].conn] then Returning else Closing)]
            && s.sessions.Keys <= s'.sessions.Keys
  {
    hide Used, Ungranted;
    var task := s.tasks[t];
    var u := Used(s, task.conn, OfTask(t));
    ConnectionStaysPut(s, task.conn, OfTask(t), task.key);
    ConnectionStaysPut(u, task.conn, OfTask(t), task.key);
  }

  lemma UnlockErrorMovesOne(s: Sys, t: TaskId, applied: bool)
    requires Enabled(s, UnlockError(t, applied))
    ensures var s' := UnlockErrored(s, t, applied);
            s'.tasks == s.tasks[t := s.tasks[t].(pc := Closing)] && s.sessions.Keys <= s'.sessions.Keys
  {
    hide Used, Ungranted;
    var task := s.tasks[t];
    var u := Used(s, task.conn, OfTask(t));
    ConnectionStaysPut(s, task.conn, OfTask(t), task.key);
    ConnectionStaysPut(u, task.conn, OfTask(t), task.key);
  }

  lemma UnlockKept(s: Sys, a: Action)
    requires Enabled(s, a) && (a.Unlock? || a.UnlockError?)
    ensures Kept(s, Do(s, a), a)
  {
    hide Kept, HeldElsewhere, Unlocked, UnlockErrored;
    if a.Unlock? {
      UnlockMovesOne(s, a.task);
    } else {
      UnlockErrorMovesOne(s, a.task, a.applied);
    }
    OneTaskKept(s, Do(s, a), a, a.task, Do(s, a).tasks[a.task]);
  }

  lemma ReturnLockKept(s: Sys, a: Action)
    requires Enabled(s, a) && (a.BeginRelease? || a.CloseLock? || a.ReturnLock?)
    ensures Kept(s, Do(s, a), a)
  {
    hide Kept, HeldElsewhere;
    OneTaskKept(s, Do(s, a), a, a.task, Do(s, a).tasks[a.task]);
  }

  lemma CallStartKept(s: Sys, a: Action)
    requires a.StartCall? || a.CallTakeIdle? || a.CallTakeNew? || a.CallGiveUp?
    ensures Kept(s, Do(s, a), a)
  {
    hide Kept;
    CallStepKept(s, Do(s, a), a);
  }

  lemma FinishOnPoolKept(s: Sys, a: Action)
    requires a.FinishOnPool?
    ensures Kept(s, Do(s, a), a)
  {
    hide Kept;
    CallStepKept(s, Do(s, a), a);
  }

  lemma DeathKept(s: Sys, a: Action)
    requires a.SessionEnds? || a.IdleCloses?
    ensures Kept(s, Do(s, a), a)
  {
    hide Kept;
    CallStepKept(s, Do(s, a), a);
  }

  lemma StepKept(s: Sys, a: Action)
    requires !a.StartTask?
    ensures Kept(s, Do(s, a), a)
  {
    hide Kept, HeldElsewhere;
    if !Enabled(s, a) {
      CallStepKept(s, s, a);
    } else if a.TryLock? {
      TryKept(s, a.task);
    } else if a.Querier? {
      QuerierKept(s, a.call);
    } else if a.FinishOnLock? {
      FinishOnLockKept(s, a.call, a.breaks);
    } else if a.TryError? || a.CloseTried? {
      FailedTryKept(s, a);
    } else if a.ReleaseTried? || a.ReleaseUnlocked? {
      ReturnTriedKept(s, a);
    } else if a.Unlock? || a.UnlockError? {
      UnlockKept(s, a);
    } else if a.BeginRelease? || a.CloseLock? || a.ReturnLock? {
      ReturnLockKept(s, a);
    } else if a.TakeIdle? || a.TakeNew? || a.Wake? || a.GiveUp? || a.EndFn? {
      TakeKept(s, a);
    } else if a.FinishOnPool? {
      FinishOnPoolKept(s, a);
    } else if a.SessionEnds? || a.IdleCloses? {
      DeathKept(s, a);
    } else {
      CallStartKept(s, a);
    }
  }

  lemma BeginKeeps(w: World, t: TaskId, u: User)
    requires WorldOk(w)
    ensures WorldOk(Next(w, Begin(t, u)))
  {
    var w' := Next(w, Begin(t, u));
    DoKeeps(w.lock, StartTask(t, w.keyOf(u)));
    hide Inv;
    forall v | v in w'.lock.tasks
      ensures InsideOk(w', v)
    {
      if v != t {
        assert v in w.lock.tasks ==> InsideOk(w, v);
      }
    }
  }

  lemma InsideAfterLockStep(w: World, lock: Sys, a: Action, t: TaskId)
    requires Kept(w.lock, lock, a) && SparesLocks(w, LockStep(a)) && t in w.lock.tasks && InsideOk(w, t)
    ensures t in lock.tasks
    ensures var entered := a.TryLock? && At(lock, a.task, Inside) && !At(w.lock, a.task, Inside);
            InsideOk(w.(lock := lock, phases := if entered then w.phases[a.task := Entered] else w.phases), t)
  {
  }

  /** A step of the lock machine touches no stamp, no clock and no recorded success. */
  lemma LockedIs(w: World, a: Action)
    requires !a.StartTask?
    ensures var entered := a.TryLock? && At(Do(w.lock, a), a.task, Inside) && !At(w.lock, a.task, Inside);
            Next(w, LockStep(a))
            == w.(lock := Do(w.lock, a), phases := if entered then w.phases[a.task := Entered] else w.phases)
  {
    hide Do;
  }

  lemma SameTasks(s: Sys, s': Sys, a: Action)
    requires Kept(s, s', a)
    ensures forall t :: t in s.tasks <==> t in s'.tasks
  {
  }

  lemma {:induction false} LockStepKeeps(w: World, a: Action)
    requires WorldOk(w) && !a.StartTask? && SparesLocks(w, LockStep(a))
    ensures WorldOk(Next(w, LockStep(a)))
  {
    hide Inv, Do, Next, Kept, At, StampOk;
    var w' := Next(w, LockStep(a));
    DoKeeps(w.lock, a);
    StepKept(w.lock, a);
    LockedIs(w, a);
    SameTasks(w.lock, w'.lock, a);
    hide SparesLocks;
    forall t | t in w'.lock.tasks
      ensures InsideOk(w', t)
    {
      InsideAfterLockStep(w, w'.lock, a, t);
    }
    hide InsideOk;
    assert StampsOk(w') && Spaced(w');
  }

  lemma TickKeeps(w: World, d: nat)
    requires WorldOk(w)
    ensures WorldOk(Next(w, Tick(d)))
  {
    hide Inv;
    var w' := Next(w, Tick(d));
    forall t | t in w'.lock.tasks
      ensures InsideOk(w', t)
    {
      assert InsideOk(w, t);
    }
  }

  /** What is not due has no stored failure. */
  /** A row inserted while that user is being synced changes nothing for the sync: unknown and never synced are both due. */
  lemma NewUserKeeps(w: World, u: User)
    requires WorldOk(w) && u !in w.stamps
    ensures WorldOk(Next(w, NewUser(u)))
  {
    hide Inv, At;
    var w' := Next(w, NewUser(u));
    forall t | t in w'.lock.tasks
      ensures InsideOk(w', t)
    {
      assert InsideOk(w, t);
    }
    forall v | v in w'.stamps
      ensures StampOk(w'.stamps[v], w'.now)
    {
      assert v == u || StampOk(w.stamps[v], w.now);
    }
  }

  lemma NotDueHasNoFailure(w: World, u: User)
    requires StampsOk(w) && !Due(w.stamps, u, w.now)
    ensures u in w.stamps && w.stamps[u].failed.None? && !ReportsFailure(w.stamps, u)
  {
    assert StampOk(w.stamps[u], w.now);
  }

  lemma CheckKeeps(w: World, t: TaskId)
    requires WorldOk(w) && Happens(w, Check(t))
    ensures WorldOk(Next(w, Check(t)))
  {
    hide Inv;
    var w' := Next(w, Check(t));
    if !Due(w.stamps, w.users[t], w.now) {
      NotDueHasNoFailure(w, w.users[t]);
    }
    forall v | v in w'.lock.tasks
      ensures InsideOk(w', v)
    {
      assert InsideOk(w, v);
    }
  }

  /** While fn runs for a user, no other fn does, so a record changes only stamps no one else relies on. */
  lemma OthersAreForOthers(w: World, t: TaskId, v: TaskId)
    requires WorldOk(w) && InPhase(w, t) && v in w.lock.tasks && At(w.lock, v, Inside) && v != t
    ensures v in w.users && w.users[v] != w.users[t]
  {
    assert InsideOk(w, t) && InsideOk(w, v);
    if w.users[v] == w.users[t] {
      OnlyOneInside(w.lock, t, v);
    }
  }

  /** A record leaves every other task's view of its own user as it was. */
  lemma RecordKeepsInside(w: World, t: TaskId, e: Event, v: TaskId)
    requires WorldOk(w) && Happens(w, e) && (e == RecordSuccess(t) || e == RecordFailure(t)) && v in w.lock.tasks
    ensures InsideOk(Next(w, e), v)
  {
    hide Inv, Spaced, StampsOk;
    assert InsideOk(w, t) && InsideOk(w, v);
    if At(w.lock, v, Inside) && v != t {
      OthersAreForOthers(w, t, v);
    }
  }

  lemma RecordKeeps(w: World, t: TaskId, e: Event)
    requires WorldOk(w) && Happens(w, e) && (e == RecordSuccess(t) || e == RecordFailure(t))
    ensures WorldOk(Next(w, e))
  {
    hide Inv, InsideOk, StampsOk, Spaced;
    var w' := Next(w, e);
    forall v | v in w'.lock.tasks
      ensures InsideOk(w', v)
    {
      RecordKeepsInside(w, t, e, v);
    }
    RecordKeepsStamps(w, t, e);
  }

  lemma RecordKeepsStamps(w: World, t: TaskId, e: Event)
    requires WorldOk(w) && Happens(w, e) && (e == RecordSuccess(t) || e == RecordFailure(t))
    ensures StampsOk(Next(w, e)) && Spaced(Next(w, e))
  {
    hide Inv;
    var w' := Next(w, e);
    assert InsideOk(w, t);
    hide At;
    forall x | x in w'.stamps
      ensures StampOk(w'.stamps[x], w'.now)
    {
      assert x in w.stamps ==> StampOk(w.stamps[x], w.now);
    }
  }

  lemma {:induction false} AfterKeeps(w: World, events: seq<Event>)
    requires WorldOk(w) && LocksSurvive(w, events)
    ensures WorldOk(After(w, events))
  {
    if events != [] {
      var before, e := After(w, events[..|events| - 1]), events[|events| - 1];
      AfterKeeps(w, events[..|events| - 1]);
      if Happens(before, e) {
        match e
        case Begin(t, u) => BeginKeeps(before, t, u);
        case LockStep(a) => LockStepKeeps(before, a);
        case Tick(d) => TickKeeps(before, d);
        case NewUser(u) => NewUserKeeps(before, u);
        case Check(t) => CheckKeeps(before, t);
        case RecordSuccess(t) => RecordKeeps(before, t, e);
        case RecordFailure(t) => RecordKeeps(before, t, e);
      }
    }
  }

  // ------------------------------------------------------------------- theorems

  /** Any two recorded successes of one user, in any run, are more than a day apart. */
  lemma {:induction false} SuccessesAreSpaced(size: nat, keyOf: User -> Key, stamps: map<User, Stamp>, now: Time,
      events: seq<Event>, i: nat, j: nat)
    requires forall u :: u in stamps ==> StampOk(stamps[u], now)
    requires LocksSurvive(Initial(size, keyOf, stamps, now), events)
    requires i < j < |After(Initial(size, keyOf, stamps, now), events).successes|
    ensures var done := After(Initial(size, keyOf, stamps, now), events).successes;
            done[i].user == done[j].user ==> done[j].at - done[i].at > 86_400_000_000
  {
    StartIsOk(size);
    AfterKeeps(Initial(size, keyOf, stamps, now), events);
  }

  predicate IsLast(done: seq<Success>, i: nat, u: User)
    requires i < |done|
  {
    done[i].user == u && forall j :: i < j < |done| ==> done[j].user != u
  }

  /** The success stamp `synced` of `u` is the last one logged, or `first` when none is. */
  predicate LastLogged(done: seq<Success>, u: User, first: Option<Time>, synced: Option<Time>) {
    && (forall i :: 0 <= i < |done| && IsLast(done, i, u) ==> synced == Some(done[i].at))
    && ((forall i :: 0 <= i < |done| ==> done[i].user != u) ==> synced == first)
  }

  lemma StillLast(done: seq<Success>, s: Success, u: User, i: nat)
    requires i < |done| && IsLast(done + [s], i, u)
    ensures IsLast(done, i, u) && s.user != u
  {
    var more := done + [s];
    assert more[|done|] == s;
    assert forall j :: 0 <= j < |done| ==> more[j] == done[j];
  }

  lemma NoneBefore(done: seq<Success>, s: Success, u: User)
    requires forall i :: 0 <= i < |done + [s]| ==> (done + [s])[i].user != u
    ensures s.user != u && forall i :: 0 <= i < |done| ==> done[i].user != u
  {
    var more := done + [s];
    assert more[|done|] == s;
    assert forall j :: 0 <= j < |done| ==> more[j] == done[j];
  }

  lemma OneMoreLogged(done: seq<Success>, s: Success, u: User, first: Option<Time>, synced: Option<Time>)
    requires LastLogged(done, u, first, synced)
    ensures LastLogged(done + [s], u, first, if s.user == u then Some(s.at) else synced)
  {
    var more := done + [s];
    var synced' := if s.user == u then Some(s.at) else synced;
    hide IsLast;
    forall i | 0 <= i < |more| && IsLast(more, i, u)
      ensures synced' == Some(more[i].at)
    {
      if i < |done| {
        StillLast(done, s, u, i);
      } else {
        LastUser(more, i, u);
      }
    }
    if forall i :: 0 <= i < |more| ==> more[i].user != u {
      NoneBefore(done, s, u);
    }
  }

  lemma LastUser(done: seq<Success>, i: nat, u: User)
    requires i < |done| && IsLast(done, i, u)
    ensures done[i].user == u
  {
  }

  lemma LogGrows(w: World, e: Event, u: User, first: Option<Time>)
    requires u in w.stamps && LastLogged(w.successes, u, first, w.stamps[u].synced)
    ensures u in Next(w, e).stamps && LastLogged(Next(w, e).successes, u, first, Next(w, e).stamps[u].synced)
  {
    var v := Next(w, e);
    hide LastLogged;
    if v.successes != w.successes {
      OneMoreLogged(w.successes, Success(w.users[e.task], w.now), u, first, w.stamps[u].synced);
    }
  }

  lemma FirstLogged(w: World, e: Event, u: User)
    requires u !in w.stamps && forall i :: 0 <= i < |w.successes| ==> w.successes[i].user != u
    ensures forall i :: 0 <= i < |Next(w, e).successes| ==> Next(w, e).successes[i].user != u
    ensures u in Next(w, e).stamps ==> Next(w, e).stamps[u].synced == None
  {
  }

  lemma {:induction false} UnknownHasNoSuccess(size: nat, keyOf: User -> Key, stamps: map<User, Stamp>, now: Time,
      events: seq<Event>, u: User)
    requires u !in After(Initial(size, keyOf, stamps, now), events).stamps
    ensures var w := After(Initial(size, keyOf, stamps, now), events);
            u !in stamps && forall i :: 0 <= i < |w.successes| ==> w.successes[i].user != u
  {
    if events != [] {
      var n := |events| - 1;
      var front := After(Initial(size, keyOf, stamps, now), events[..n]);
      assert u !in front.stamps;
      hide Next;
      UnknownHasNoSuccess(size, keyOf, stamps, now, events[..n], u);
      FirstLogged(front, events[n], u);
    }
  }

  lemma {:induction false} StampIsLogged(size: nat, keyOf: User -> Key, stamps: map<User, Stamp>, now: Time,
      events: seq<Event>, u: User)
    requires u in After(Initial(size, keyOf, stamps, now), events).stamps
    ensures var w := After(Initial(size, keyOf, stamps, now), events);
            LastLogged(w.successes, u, if u in stamps then stamps[u].synced else None, w.stamps[u].synced)
  {
    if events != [] {
      hide Next;
      var n := |events| - 1;
      var front := After(Initial(size, keyOf, stamps, now), events[..n]);
      if u in front.stamps {
        StampIsLogged(size, keyOf, stamps, now, events[..n], u);
        LogGrows(front, events[n], u, if u in stamps then stamps[u].synced else None);
      } else {
        UnknownHasNoSuccess(size, keyOf, stamps, now, events[..n], u);
        FirstLogged(front, events[n], u);
      }
    }
  }

  /** The log is complete: a user's success stamp is the last success logged for them, or what it was before the run. */
  lemma StampIsTheLastSuccess(size: nat, keyOf: User -> Key, stamps: map<User, Stamp>, now: Time,
      events: seq<Event>, u: User)
    requires u in After(Initial(size, keyOf, stamps, now), events).stamps
    ensures var w := After(Initial(size, keyOf, stamps, now), events);
            && (forall i :: 0 <= i < |w.successes| && w.successes[i].user == u
                            && (forall j :: i < j < |w.successes| ==> w.successes[j].user != u) ==>
                  w.stamps[u].synced == Some(w.successes[i].at))
            && ((forall i :: 0 <= i < |w.successes| ==> w.successes[i].user != u) ==>
                  w.stamps[u].synced == if u in stamps then stamps[u].synced else None)
  {
    StampIsLogged(size, keyOf, stamps, now, events, u);
    hide After;
  }

  /**
   * A user who is not due has no stored failure; so a request that waited for the
   * lock and then found itself not due reports success, whenever it reads the outcome.
   */
  lemma {:induction false} WaiterReportsSuccess(size: nat, keyOf: User -> Key, stamps: map<User, Stamp>, now: Time,
      events: seq<Event>, u: User, t: TaskId)
    requires forall v :: v in stamps ==> StampOk(stamps[v], now)
    requires LocksSurvive(Initial(size, keyOf, stamps, now), events)
    ensures var w := After(Initial(size, keyOf, stamps, now), events);
            && (!Due(w.stamps, u, w.now) ==> w.stamps[u].failed.None?)
            && (InPhase(w, t) && w.phases[t] == NotDue ==> !ReportsFailure(w.stamps, w.users[t]))
  {
    var w := After(Initial(size, keyOf, stamps, now), events);
    StartIsOk(size);
    AfterKeeps(Initial(size, keyOf, stamps, now), events);
    if !Due(w.stamps, u, w.now) {
      NotDueHasNoFailure(w, u);
    }
    if InPhase(w, t) {
      assert InsideOk(w, t);
    }
  }
}
