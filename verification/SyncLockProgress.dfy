/**
 * Progress of the sync lock: nothing but sleeping pollers ever stands still, the steps of a
 * given amount of work come to an end, and a waiter can always get its lock.
 */
module SyncLockProgress {
  import opened Wrappers
  import opened SyncLock
  import opened SyncLockSafety

  predicate Live(s: Sys, t: TaskId) {
    t in s.tasks && s.tasks[t].pc != Done
  }

  predicate LiveCall(s: Sys, x: CallId) {
    x in s.calls && s.calls[x].pc != Finished
  }

  /** Nothing is under way: tasks are over or wait for their timer, and calls are over. */
  predicate Settled(s: Sys) {
    && (forall t :: t in s.tasks ==> s.tasks[t].pc == Sleeping || s.tasks[t].pc == Done)
    && (forall x :: x in s.calls ==> s.calls[x].pc == Finished)
  }

  /**
   * A step that a task or call can take by itself: no new work, no timer, no cancelled
   * wait, no failure of a live session, and fn returns only when its calls have.
   */
  ghost predicate OwnStep(s: Sys, a: Action) {
    && Enabled(s, a)
    && match a
       case StartTask(_, _) => false
       case StartCall(_, _) => false
       case Wake(_) => false
       case GiveUp(_) => false
       case CallGiveUp(_) => false
       case SessionEnds(_) => false
       case IdleCloses(_) => false
       case TryError(t, granted) => !Enabled(s, TryLock(t)) && !granted
       case UnlockError(t, applied) => !Enabled(s, Unlock(t)) && !applied
       case FinishOnLock(_, breaks) => !breaks
       case FinishOnPool(_, breaks) => !breaks
       case EndFn(t) => forall x :: LiveCall(s, x) ==> s.calls[x].scope != Some(t)
       case _ => true
  }

  ghost predicate CanStep(s: Sys) {
    exists a :: OwnStep(s, a)
  }

  lemma MutexHolderSteps(s: Sys, t: TaskId)
    requires Inv(s) && t in s.tasks && s.tasks[t].mu.ByCall?
    ensures CanStep(s)
  {
    assert TaskOk(s, t);
    assert OwnStep(s, FinishOnLock(s.tasks[t].mu.call, false));
  }

  lemma ReleasingSteps(s: Sys, t: TaskId)
    requires Inv(s) && t in s.tasks && (s.tasks[t].pc == Ending || InRelease(s.tasks[t].pc))
    ensures CanStep(s)
  {
    assert TaskOk(s, t);
    var pc := s.tasks[t].pc;
    if pc == Ending {
      if s.tasks[t].mu == Free {
        assert OwnStep(s, BeginRelease(t));
      } else {
        MutexHolderSteps(s, t);
      }
    } else if pc == Unlocking {
      assert OwnStep(s, if Enabled(s, Unlock(t)) then Unlock(t) else UnlockError(t, false));
    } else if pc == Closing {
      assert OwnStep(s, CloseLock(t));
    } else {
      assert OwnStep(s, ReturnLock(t));
    }
  }

  /** A call under a lock that has not been given back never waits for the pool. */
  lemma CallUnderLockSteps(s: Sys, x: CallId, t: TaskId)
    requires Inv(s) && LiveCall(s, x) && s.calls[x].scope == Some(t)
    requires t in s.tasks && InFn(s.tasks[t].pc) && !s.tasks[t].released
    ensures CanStep(s)
  {
    assert CallOk(s, x) && TaskOk(s, t);
    if s.calls[x].pc == OnLock {
      assert OwnStep(s, FinishOnLock(x, false));
    } else if s.tasks[t].mu == Free {
      assert OwnStep(s, Querier(x));
    } else {
      MutexHolderSteps(s, t);
    }
  }

  /** Every acquired connection is on its way back. */
  lemma HolderSteps(s: Sys, c: Conn)
    requires Inv(s) && c in s.out
    ensures CanStep(s)
  {
    assert OutAt(s, c);
    if s.out[c].OfCall? {
      assert OwnStep(s, FinishOnPool(s.out[c].call, false));
    } else {
      var t := s.out[c].task;
      var pc := s.tasks[t].pc;
      if pc.Trying? {
        assert OwnStep(s, if Enabled(s, TryLock(t)) then TryLock(t) else TryError(t, false));
      } else if pc.TryFailed? {
        assert OwnStep(s, CloseTried(t));
      } else if pc.TryClosed? {
        assert OwnStep(s, ReleaseTried(t));
      } else if pc.NotLocked? {
        assert OwnStep(s, ReleaseUnlocked(t));
      } else if pc != Inside {
        ReleasingSteps(s, t);
      } else if x :| LiveCall(s, x) && s.calls[x].scope == Some(t) {
        CallUnderLockSteps(s, x, t);
      } else {
        assert OwnStep(s, EndFn(t));
      }
    }
  }

  /** A pool of at least one connection always has one to give or one coming back. */
  lemma PoolSteps(s: Sys)
    requires Inv(s) && s.size >= 1 && s.idle == {} && !HasRoom(s)
    ensures CanStep(s)
  {
    assert |s.out.Keys| == |s.out|;
    assert (forall c :: c !in s.out) ==> s.out.Keys == {};
    var c :| c in s.out;
    HolderSteps(s, c);
  }

  lemma CallSteps(s: Sys, x: CallId)
    requires Inv(s) && s.size >= 1 && LiveCall(s, x)
    ensures CanStep(s)
  {
    assert CallOk(s, x);
    var pc := s.calls[x].pc;
    if pc.OnPool? {
      HolderSteps(s, pc.conn);
    } else if pc == OnLock {
      assert OwnStep(s, FinishOnLock(x, false));
    } else if pc == WantPool {
      assert (forall c :: c !in s.idle) ==> s.idle == {};
      if c :| c in s.idle {
        assert OwnStep(s, CallTakeIdle(x, c));
      } else if HasRoom(s) {
        assert OwnStep(s, CallTakeNew(x));
      } else {
        PoolSteps(s);
      }
    } else if MutexFree(s, x) {
      assert OwnStep(s, Querier(x));
    } else {
      MutexBusySteps(s, s.calls[x].scope.value);
    }
  }

  lemma MutexBusySteps(s: Sys, t: TaskId)
    requires Inv(s) && t in s.tasks && s.tasks[t].mu != Free
    ensures CanStep(s)
  {
    assert TaskOk(s, t);
    if s.tasks[t].mu == ByRelease {
      ReleasingSteps(s, t);
    } else {
      MutexHolderSteps(s, t);
    }
  }

  lemma {:induction false} TaskSteps(s: Sys, t: TaskId)
    requires Inv(s) && s.size >= 1 && Live(s, t) && s.tasks[t].pc != Sleeping
    ensures CanStep(s)
  {
    assert TaskOk(s, t);
    if Holds(s.tasks[t]).Some? {
      HolderSteps(s, Holds(s.tasks[t]).value);
    } else {
      var pc := s.tasks[t].pc;
      if pc == WantConn {
        assert (forall c :: c !in s.idle) ==> s.idle == {};
        if c :| c in s.idle {
          assert OwnStep(s, TakeIdle(t, c));
        } else if HasRoom(s) {
          assert OwnStep(s, TakeNew(t));
        } else {
          PoolSteps(s);
        }
      } else if pc == Inside {
        if x :| LiveCall(s, x) && s.calls[x].scope == Some(t) {
          CallSteps(s, x);
        } else {
          assert OwnStep(s, EndFn(t));
        }
      } else {
        ReleasingSteps(s, t);
      }
    }
  }

  lemma UnsettledSteps(s: Sys)
    requires Inv(s) && s.size >= 1 && !Settled(s)
    ensures CanStep(s)
  {
    if t :| Live(s, t) && s.tasks[t].pc != Sleeping {
      TaskSteps(s, t);
    } else {
      var x :| x in s.calls && s.calls[x].pc != Finished;
      CallSteps(s, x);
    }
  }

  /**
   * With a pool of any size from one up, some task or call can take a step of its own unless every
   * task is over or asleep and every call is over. A poller's timer does not count as a step.
   */
  lemma {:induction false} NeverStuck(size: nat, actions: seq<Action>)
    requires size >= 1 && !Settled(Run(size, actions))
    ensures CanStep(Run(size, actions))
  {
    RunKeeps(size, actions);
    SizeStays(size, actions);
    hide Run;
    UnsettledSteps(Run(size, actions));
  }

  // ----------------------------------------------------- own steps come to an end

  function TaskRank(pc: TaskPc): nat {
    match pc
    case WantConn => 8
    case Trying(_) => 7
    case Inside => 6
    case Ending => 5
    case Unlocking => 4
    case Closing => 3
    case TryFailed(_) => 2
    case Returning => 1
    case TryClosed(_) => 1
    case NotLocked(_) => 2
    case Sleeping => 1
    case Done => 0
  }

  function CallRank(pc: CallPc): nat {
    match pc
    case Arriving => 3
    case WantPool => 2
    case OnPool(_) => 1
    case OnLock => 1
    case Finished => 0
  }

  ghost function Total(ranks: map<int, nat>): nat {
    if ranks == map[] then 0
    else
      assert (forall k :: k !in ranks) ==> ranks == map[];
      var k :| k in ranks;
      ranks[k] + Total(ranks - {k})
  }

  lemma {:induction false} TotalSplit(ranks: map<int, nat>, k: int)
    requires k in ranks
    ensures Total(ranks) == ranks[k] + Total(ranks - {k})
    decreases |ranks|
  {
    assert (forall j :: j !in ranks) ==> ranks == map[];
    var j :| j in ranks && Total(ranks) == ranks[j] + Total(ranks - {j});
    if j != k {
      var rest := ranks - {j};
      TotalSplit(rest, k);
      TotalSplit(ranks - {k}, j);
      assert rest - {k} == (ranks - {k}) - {j};
    }
  }

  lemma TotalAfter(ranks: map<int, nat>, k: int, rank: nat)
    ensures Total(ranks[k := rank]) == Total(ranks - {k}) + rank
    ensures k in ranks ==> Total(ranks[k := rank]) + ranks[k] == Total(ranks) + rank
    ensures k !in ranks ==> Total(ranks[k := rank]) == Total(ranks) + rank
  {
    TotalSplit(ranks[k := rank], k);
    assert ranks[k := rank] - {k} == ranks - {k};
    if k in ranks {
      TotalSplit(ranks, k);
    } else {
      assert ranks - {k} == ranks;
    }
  }

  function TaskRanks(s: Sys): map<int, nat> {
    map t | t in s.tasks :: TaskRank(s.tasks[t].pc)
  }

  function CallRanks(s: Sys): map<int, nat> {
    map x | x in s.calls :: CallRank(s.calls[x].pc)
  }

  /** How many steps all tasks and calls have left, at most. */
  ghost function Rank(s: Sys): nat {
    Total(TaskRanks(s)) + Total(CallRanks(s))
  }

  /** The action is a step of a task or call already under way; Wake, new work and deaths are not. */
  predicate IsWork(a: Action) {
    !a.StartTask? && !a.StartCall? && !a.Wake? && !a.SessionEnds? && !a.IdleCloses?
  }

  /** Every task but `t` is where it was. */
  ghost predicate OtherTasksStay(s: Sys, s': Sys, t: TaskId) {
    forall u :: (u in s'.tasks <==> u in s.tasks) && (u in s.tasks && u != t ==> s'.tasks[u].pc == s.tasks[u].pc)
  }

  lemma TaskLowers(s: Sys, s': Sys, t: TaskId)
    requires t in s.tasks && OtherTasksStay(s, s', t) && s'.calls == s.calls
    requires TaskRank(s'.tasks[t].pc) < TaskRank(s.tasks[t].pc)
    ensures Rank(s') < Rank(s)
  {
    var rank := TaskRank(s'.tasks[t].pc);
    forall u
      ensures u in TaskRanks(s') <==> u in TaskRanks(s)[t := rank]
      ensures u in TaskRanks(s') ==> TaskRanks(s')[u] == TaskRanks(s)[t := rank][u]
    {
    }
    assert TaskRanks(s') == TaskRanks(s)[t := rank];
    TotalAfter(TaskRanks(s), t, rank);
    assert CallRanks(s') == CallRanks(s);
  }

  /** No task moves; of the calls only `x` does. */
  lemma CallLowers(s: Sys, s': Sys, x: CallId, call: Call)
    requires x in s.calls && s'.calls == s.calls[x := call] && CallRank(call.pc) < CallRank(s.calls[x].pc)
    requires forall u :: (u in s'.tasks <==> u in s.tasks) && (u in s.tasks ==> s'.tasks[u].pc == s.tasks[u].pc)
    ensures Rank(s') < Rank(s)
  {
    var rank := CallRank(call.pc);
    assert CallRanks(s') == CallRanks(s)[x := rank];
    TotalAfter(CallRanks(s), x, rank);
    forall u
      ensures u in TaskRanks(s') <==> u in TaskRanks(s)
      ensures u in TaskRanks(s') ==> TaskRanks(s')[u] == TaskRanks(s)[u]
    {
    }
    assert TaskRanks(s') == TaskRanks(s);
  }

  /** What the pool and the server do with a connection moves no task and no call. */
  lemma ConnStepsMoveNone(s: Sys, c: Conn, who: Owner, k: Key)
    ensures Taken(s, c, who).tasks == s.tasks && Taken(s, c, who).calls == s.calls
    ensures Opened(s, who).tasks == s.tasks && Opened(s, who).calls == s.calls
    ensures PoolRelease(s, c, who).tasks == s.tasks && PoolRelease(s, c, who).calls == s.calls
    ensures Used(s, c, who).tasks == s.tasks && Used(s, c, who).calls == s.calls
    ensures Closed(s, c).tasks == s.tasks && Closed(s, c).calls == s.calls
    ensures Granted(s, k, c).tasks == s.tasks && Granted(s, k, c).calls == s.calls
    ensures Ungranted(s, k, c).tasks == s.tasks && Ungranted(s, k, c).calls == s.calls
  {
  }

  lemma MovedLowers(s: Sys, s': Sys, t: TaskId)
    requires t in s.tasks && t in s'.tasks && s'.calls == s.calls && s'.tasks == s.tasks[t := s'.tasks[t]]
    requires TaskRank(s'.tasks[t].pc) < TaskRank(s.tasks[t].pc)
    ensures Rank(s') < Rank(s)
  {
    TaskLowers(s, s', t);
  }

  lemma CallMovedLowers(s: Sys, s': Sys, x: CallId, pc: CallPc)
    requires x in s.calls && s'.tasks == s.tasks && s'.calls == s.calls[x := s.calls[x].(pc := pc)]
    requires CallRank(pc) < CallRank(s.calls[x].pc)
    ensures Rank(s') < Rank(s)
  {
    CallLowers(s, s', x, s.calls[x].(pc := pc));
  }

  lemma MovedOnLowers(s: Sys, v: Sys, t: TaskId, pc: TaskPc)
    requires t in s.tasks && v.tasks == s.tasks && v.calls == s.calls && TaskRank(pc) < TaskRank(s.tasks[t].pc)
    ensures Rank(Moved(v, t, pc)) < Rank(s)
  {
    MovedLowers(s, Moved(v, t, pc), t);
  }

  lemma TryLowers(s: Sys, t: TaskId)
    requires Enabled(s, TryLock(t))
    ensures Rank(TriedLock(s, t)) < Rank(s)
  {
    hide Taken, Opened, PoolRelease, Used, Closed, Granted, Ungranted, HeldElsewhere, Rank;
    var task := s.tasks[t];
    var c := task.pc.tried;
    var u := Used(s, c, OfTask(t));
    ConnStepsMoveNone(s, c, OfTask(t), task.key);
    ConnStepsMoveNone(u, c, OfTask(t), task.key);
    if HeldElsewhere(s, task.key, c) {
      MovedLowers(s, Moved(u, t, NotLocked(c)), t);
    } else {
      MovedLowers(s, Granted(u, task.key, c).(tasks := s.tasks[t := Task(task.key, Inside, c, false, Free)]), t);
    }
  }

  lemma TryErrorLowers(s: Sys, t: TaskId, granted: bool)
    requires Enabled(s, TryError(t, granted))
    ensures Rank(TryErrored(s, t, granted)) < Rank(s)
  {
    hide Taken, Opened, PoolRelease, Used, Closed, Granted, Ungranted, HeldElsewhere, Rank;
    var c := s.tasks[t].pc.tried;
    ConnStepsMoveNone(s, c, OfTask(t), s.tasks[t].key);
    ConnStepsMoveNone(Used(s, c, OfTask(t)), c, OfTask(t), s.tasks[t].key);
    MovedLowers(s, TryErrored(s, t, granted), t);
  }

  lemma UnlockLowers(s: Sys, t: TaskId)
    requires Enabled(s, Unlock(t))
    ensures Rank(Unlocked(s, t)) < Rank(s)
  {
    hide Taken, Opened, PoolRelease, Used, Closed, Granted, Ungranted, HeldElsewhere, Rank;
    var c, key := s.tasks[t].conn, s.tasks[t].key;
    var u := Used(s, c, OfTask(t));
    var v := Ungranted(u, key, c);
    ConnStepsMoveNone(s, c, OfTask(t), key);
    ConnStepsMoveNone(u, c, OfTask(t), key);
    assert At(s, t, Unlocking);
    MovedOnLowers(s, v, t, Returning);
    MovedOnLowers(s, u, t, Closing);
  }

  lemma UnlockErrorLowers(s: Sys, t: TaskId, applied: bool)
    requires Enabled(s, UnlockError(t, applied))
    ensures Rank(UnlockErrored(s, t, applied)) < Rank(s)
  {
    hide Taken, Opened, PoolRelease, Used, Closed, Granted, Ungranted, HeldElsewhere, Rank;
    var c := s.tasks[t].conn;
    ConnStepsMoveNone(s, c, OfTask(t), s.tasks[t].key);
    ConnStepsMoveNone(Used(s, c, OfTask(t)), c, OfTask(t), s.tasks[t].key);
    MovedLowers(s, UnlockErrored(s, t, applied), t);
  }

  /** Under a lock: what happens to its task besides its pc does not matter here. */
  lemma ScopedCallLowers(s: Sys, s': Sys, x: CallId, t: TaskId, task: Task, pc: CallPc)
    requires x in s.calls && t in s.tasks && task.pc == s.tasks[t].pc
    requires s'.tasks == s.tasks[t := task] && s'.calls == s.calls[x := s.calls[x].(pc := pc)]
    requires CallRank(pc) < CallRank(s.calls[x].pc)
    ensures Rank(s') < Rank(s)
  {
    CallLowers(s, s', x, s.calls[x].(pc := pc));
  }

  lemma QuerierLowers(s: Sys, x: CallId)
    requires Enabled(s, Querier(x))
    ensures Rank(QuerierChose(s, x)) < Rank(s)
  {
    hide Taken, Opened, PoolRelease, Used, Closed, Granted, Ungranted, HeldElsewhere, Rank;
    var s' := QuerierChose(s, x);
    if s.calls[x].scope.None? || s.tasks[s.calls[x].scope.value].released {
      CallMovedLowers(s, s', x, WantPool);
    } else {
      var t := s.calls[x].scope.value;
      var task := s.tasks[t];
      ConnStepsMoveNone(s, task.conn, OfTask(t), 0);
      if task.conn in s.closed {
        ScopedCallLowers(s, s', x, t, task.(released := true), WantPool);
      } else {
        ScopedCallLowers(s, s', x, t, task.(mu := ByCall(x)), OnLock);
      }
    }
  }

  lemma FinishOnLockLowers(s: Sys, x: CallId, breaks: bool)
    requires Enabled(s, FinishOnLock(x, breaks))
    ensures Rank(FinishedOnLock(s, x, breaks)) < Rank(s)
  {
    hide Taken, Opened, PoolRelease, Used, Closed, Granted, Ungranted, HeldElsewhere, Rank;
    var t := s.calls[x].scope.value;
    var c := s.tasks[t].conn;
    var u := Used(s, c, OfTask(t));
    var v := if s.tasks[t].released then u.(faulty := true) else u;
    ConnStepsMoveNone(s, c, OfTask(t), 0);
    ConnStepsMoveNone(v, c, OfTask(t), 0);
    var w := if breaks then Closed(v, c) else v;
    assert w.tasks == s.tasks && w.calls == s.calls;
    ScopedCallLowers(s, CallMoved(SetMu(w, t, Free), x, Finished), x, t, s.tasks[t].(mu := Free), Finished);
  }

  lemma FinishOnPoolLowers(s: Sys, x: CallId, breaks: bool)
    requires Enabled(s, FinishOnPool(x, breaks))
    ensures Rank(FinishedOnPool(s, x, breaks)) < Rank(s)
  {
    hide Taken, Opened, PoolRelease, Used, Closed, Granted, Ungranted, HeldElsewhere, Rank;
    var c := s.calls[x].pc.conn;
    var u := Used(s, c, OfCall(x));
    var v := if breaks then Closed(u, c) else u;
    ConnStepsMoveNone(s, c, OfCall(x), 0);
    ConnStepsMoveNone(u, c, OfCall(x), 0);
    ConnStepsMoveNone(v, c, OfCall(x), 0);
    CallMovedLowers(s, FinishedOnPool(s, x, breaks), x, Finished);
  }

  lemma ReleaseLowers(s: Sys, a: Action)
    requires Enabled(s, a) && (a.ReleaseTried? || a.ReleaseUnlocked? || a.ReturnLock? || a.CloseTried? || a.CloseLock?)
    ensures Rank(Do(s, a)) < Rank(s)
  {
    hide Taken, Opened, PoolRelease, Used, Closed, Granted, Ungranted, HeldElsewhere, Rank;
    var t := a.task;
    var c := if s.tasks[t].pc.TryFailed? || s.tasks[t].pc.TryClosed? || s.tasks[t].pc.NotLocked?
             then s.tasks[t].pc.tried else s.tasks[t].conn;
    ConnStepsMoveNone(s, c, OfTask(t), 0);
    MovedLowers(s, Do(s, a), t);
  }

  lemma TakeLowers(s: Sys, a: Action)
    requires Enabled(s, a) && (a.TakeIdle? || a.TakeNew?)
    ensures Rank(Do(s, a)) < Rank(s)
  {
    hide Taken, Opened, PoolRelease, Used, Closed, Granted, Ungranted, HeldElsewhere, Rank;
    ConnStepsMoveNone(s, if a.TakeIdle? then a.conn else 0, OfTask(a.task), 0);
    MovedLowers(s, Do(s, a), a.task);
  }

  lemma CallTakeLowers(s: Sys, a: Action)
    requires Enabled(s, a) && (a.CallTakeIdle? || a.CallTakeNew? || a.CallGiveUp?)
    ensures Rank(Do(s, a)) < Rank(s)
  {
    hide Taken, Opened, PoolRelease, Used, Closed, Granted, Ungranted, HeldElsewhere, Rank;
    ConnStepsMoveNone(s, if a.CallTakeIdle? then a.conn else 0, OfCall(a.call), 0);
    CallMovedLowers(s, Do(s, a), a.call, Do(s, a).calls[a.call].pc);
  }

  lemma LeaveLowers(s: Sys, a: Action)
    requires Inv(s) && Enabled(s, a) && (a.EndFn? || a.BeginRelease? || a.GiveUp?)
    ensures Rank(Do(s, a)) < Rank(s)
  {
    hide Inv, Rank;
    MovedLowers(s, Do(s, a), a.task);
  }

  /** Every step of a task or call under way lowers the rank, whatever it finds and however it fails. */
  lemma {:induction false} WorkLowersRank(s: Sys, a: Action)
    requires Inv(s) && Enabled(s, a) && IsWork(a)
    ensures Rank(Do(s, a)) < Rank(s)
  {
    hide Inv, Rank, TriedLock, TryErrored, ReleaseBegun, Unlocked, UnlockErrored, QuerierChose, FinishedOnLock, FinishedOnPool,
      Taken, Opened, PoolRelease, Closed, Moved, CallMoved, SetMu;
    match a
    case TryLock(t) => TryLowers(s, t);
    case TryError(t, granted) => TryErrorLowers(s, t, granted);
    case Unlock(t) => UnlockLowers(s, t);
    case UnlockError(t, applied) => UnlockErrorLowers(s, t, applied);
    case Querier(x) => QuerierLowers(s, x);
    case FinishOnLock(x, breaks) => FinishOnLockLowers(s, x, breaks);
    case FinishOnPool(x, breaks) => FinishOnPoolLowers(s, x, breaks);
    case TakeIdle(_, _) => TakeLowers(s, a);
    case TakeNew(_) => TakeLowers(s, a);
    case CallTakeIdle(_, _) => CallTakeLowers(s, a);
    case CallTakeNew(_) => CallTakeLowers(s, a);
    case CallGiveUp(_) => CallTakeLowers(s, a);
    case EndFn(_) => LeaveLowers(s, a);
    case BeginRelease(_) => LeaveLowers(s, a);
    case GiveUp(_) => LeaveLowers(s, a);
    case CloseTried(_) => ReleaseLowers(s, a);
    case ReleaseTried(_) => ReleaseLowers(s, a);
    case ReleaseUnlocked(_) => ReleaseLowers(s, a);
    case CloseLock(_) => ReleaseLowers(s, a);
    case ReturnLock(_) => ReleaseLowers(s, a);
  }

  lemma TaskCost(s: Sys, s': Sys, t: TaskId, task: Task)
    requires task.pc == WantConn && s' == s.(tasks := s.tasks[t := task])
    ensures Rank(s') == Rank(s) + 8 - if t in s.tasks then TaskRank(s.tasks[t].pc) else 0
  {
    assert TaskRanks(s') == TaskRanks(s)[t := 8];
    TotalAfter(TaskRanks(s), t, 8);
    assert CallRanks(s') == CallRanks(s);
  }

  lemma CallCost(s: Sys, s': Sys, x: CallId, call: Call)
    requires x !in s.calls && call.pc == Arriving && s' == s.(calls := s.calls[x := call])
    ensures Rank(s') == Rank(s) + 3
  {
    assert CallRanks(s') == CallRanks(s)[x := 3];
    TotalAfter(CallRanks(s), x, 3);
    assert TaskRanks(s') == TaskRanks(s);
  }

  lemma OthersCost(s: Sys, a: Action)
    requires Enabled(s, a) && !IsWork(a)
    ensures Rank(Do(s, a)) == Rank(s) + Cost(a)
  {
    var s' := Do(s, a);
    if a.StartTask? || a.Wake? {
      hide Rank;
      TaskCost(s, s', a.task, s'.tasks[a.task]);
    } else if a.StartCall? {
      hide Rank;
      CallCost(s, s', a.call, Call(a.scope, Arriving));
    } else {
      assert s'.tasks == s.tasks && s'.calls == s.calls;
      hide Do, Enabled;
    }
  }

  /** The steps that a new task, a new call and a timer can lead to, at most. */
  function Cost(a: Action): nat {
    match a
    case StartTask(_, _) => 8
    case StartCall(_, _) => 3
    case Wake(_) => 7
    case _ => 0
  }

  ghost function Works(size: nat, actions: seq<Action>): nat {
    if actions == [] then 0
    else
      var before, a := actions[..|actions| - 1], actions[|actions| - 1];
      Works(size, before) + if IsWork(a) && Enabled(Run(size, before), a) then 1 else 0
  }

  ghost function Budget(size: nat, actions: seq<Action>): nat {
    if actions == [] then 0
    else
      var before, a := actions[..|actions| - 1], actions[|actions| - 1];
      Budget(size, before) + if Enabled(Run(size, before), a) then Cost(a) else 0
  }

  /** Over any run, with any failures: no more steps than eight a task, three a call and seven a timer. */
  lemma {:induction false} WorkIsBounded(size: nat, actions: seq<Action>)
    ensures Works(size, actions) + Rank(Run(size, actions)) <= Budget(size, actions)
  {
    if actions == [] {
      assert TaskRanks(Start(size)) == map[] && CallRanks(Start(size)) == map[];
    } else {
      var before, a := actions[..|actions| - 1], actions[|actions| - 1];
      var s := Run(size, before);
      WorkIsBounded(size, before);
      RunKeeps(size, before);
      hide Rank, Enabled, Do;
      assert Run(size, actions) == Do(s, a);
      if Enabled(s, a) {
        if IsWork(a) {
          WorkLowersRank(s, a);
        } else {
          OthersCost(s, a);
        }
      } else {
        DisabledStays(s, a);
      }
    }
  }

  lemma DisabledStays(s: Sys, a: Action)
    requires !Enabled(s, a)
    ensures Do(s, a) == s
  {
    hide Enabled;
  }

  // ------------------------------------------------------------- paths of steps

  ghost function After(s: Sys, steps: seq<Action>): Sys
    decreases |steps|
  {
    if steps == [] then s else After(Do(s, steps[0]), steps[1..])
  }

  /** Every step is one that a task or call takes by itself. */
  ghost predicate OwnPath(s: Sys, steps: seq<Action>)
    decreases |steps|
  {
    steps == [] || (OwnStep(s, steps[0]) && OwnPath(Do(s, steps[0]), steps[1..]))
  }

  lemma OwnStepIs(s: Sys, a: Action)
    requires OwnStep(s, a)
    ensures Enabled(s, a) && IsWork(a)
  {
    hide Enabled;
  }

  lemma {:induction false} OwnPathLowers(s: Sys, steps: seq<Action>)
    requires Inv(s) && OwnPath(s, steps)
    ensures Inv(After(s, steps)) && After(s, steps).size == s.size
    ensures |steps| + Rank(After(s, steps)) <= Rank(s)
    decreases |steps|
  {
    if steps != [] {
      hide Inv, Rank, OwnStep, Do;
      OwnStepIs(s, steps[0]);
      DoKeeps(s, steps[0]);
      DoKeepsSize(s, steps[0]);
      WorkLowersRank(s, steps[0]);
      OwnPathLowers(Do(s, steps[0]), steps[1..]);
    }
  }

  /**
   * From every reachable state, whichever own steps are taken: there are only so many of them, and
   * when none is left every task is over or asleep and every call is over.
   */
  lemma {:induction false} WorkComesToRest(size: nat, actions: seq<Action>, steps: seq<Action>)
    requires size >= 1 && OwnPath(Run(size, actions), steps)
    ensures |steps| <= Rank(Run(size, actions))
    ensures CanStep(After(Run(size, actions), steps)) || Settled(After(Run(size, actions), steps))
  {
    var s := Run(size, actions);
    RunKeeps(size, actions);
    SizeStays(size, actions);
    hide Run, Inv, Rank;
    OwnPathLowers(s, steps);
    if !Settled(After(s, steps)) {
      UnsettledSteps(After(s, steps));
    }
  }

  // --------------------------------------------------- every waiter can get in

  /** A live session belongs to a connection that the pool has, has lent, or has closed. */
  ghost predicate Known(s: Sys) {
    forall c :: c in s.sessions ==> c in s.idle || c in s.out || c in s.closed
  }

  lemma ReleaseKeepsKnown(s: Sys, c: Conn, who: Owner)
    requires Known(s)
    ensures Known(PoolRelease(s, c, who)) && Known(Closed(s, c)) && Known(Used(s, c, who)) && Known(Taken(s, c, who))
    ensures Known(Opened(s, who))
  {
  }

  lemma GrantKeepsKnown(s: Sys, c: Conn, k: Key)
    requires Known(s)
    ensures Known(Granted(s, k, c)) && Known(Ungranted(s, k, c))
  {
    hide HeldElsewhere;
  }

  lemma TaskStepKeepsKnown(s: Sys, a: Action)
    requires Known(s) && Enabled(s, a)
    ensures a.TryLock? ==> Known(TriedLock(s, a.task))
    ensures a.TryError? ==> Known(TryErrored(s, a.task, a.granted))
    ensures a.BeginRelease? ==> Known(ReleaseBegun(s, a.task))
    ensures a.Unlock? ==> Known(Unlocked(s, a.task))
    ensures a.UnlockError? ==> Known(UnlockErrored(s, a.task, a.applied))
  {
    hide Used, Granted, Ungranted, HeldElsewhere;
    if a.TryLock? || a.TryError? {
      var c := s.tasks[a.task].pc.tried;
      ReleaseKeepsKnown(s, c, OfTask(a.task));
      GrantKeepsKnown(Used(s, c, OfTask(a.task)), c, s.tasks[a.task].key);
    } else if a.Unlock? || a.UnlockError? {
      var c := s.tasks[a.task].conn;
      ReleaseKeepsKnown(s, c, OfTask(a.task));
      GrantKeepsKnown(Used(s, c, OfTask(a.task)), c, s.tasks[a.task].key);
    }
  }

  lemma CallStepKeepsKnown(s: Sys, a: Action)
    requires Known(s) && Enabled(s, a)
    ensures a.Querier? ==> Known(QuerierChose(s, a.call))
    ensures a.FinishOnLock? ==> Known(FinishedOnLock(s, a.call, a.breaks))
    ensures a.FinishOnPool? ==> Known(FinishedOnPool(s, a.call, a.breaks))
  {
    hide Used, PoolRelease, Closed;
    if a.Querier? && s.calls[a.call].scope.Some? {
      var t := s.calls[a.call].scope.value;
      ReleaseKeepsKnown(s, s.tasks[t].conn, OfTask(t));
    } else if a.FinishOnLock? {
      var t := s.calls[a.call].scope.value;
      var c := s.tasks[t].conn;
      var u := Used(s, c, OfTask(t));
      ReleaseKeepsKnown(s, c, OfTask(t));
      ReleaseKeepsKnown(if s.tasks[t].released then u.(faulty := true) else u, c, OfTask(t));
    } else if a.FinishOnPool? {
      var c, who := s.calls[a.call].pc.conn, OfCall(a.call);
      var u := Used(s, c, who);
      ReleaseKeepsKnown(s, c, who);
      ReleaseKeepsKnown(u, c, who);
      ReleaseKeepsKnown(if a.breaks then Closed(u, c) else u, c, who);
    }
  }

  lemma DoKeepsKnown(s: Sys, a: Action)
    requires Known(s)
    ensures Known(Do(s, a))
  {
    if Enabled(s, a) {
      TaskStepKeepsKnown(s, a);
      CallStepKeepsKnown(s, a);
      hide TriedLock, TryErrored, ReleaseBegun, Unlocked, UnlockErrored, QuerierChose, FinishedOnLock, FinishedOnPool;
    }
  }

  lemma {:induction false} RunKeepsKnown(size: nat, actions: seq<Action>)
    ensures Known(Run(size, actions))
  {
    if actions != [] {
      RunKeepsKnown(size, actions[..|actions| - 1]);
      DoKeepsKnown(Run(size, actions[..|actions| - 1]), actions[|actions| - 1]);
      hide Do, Known;
    }
  }

  /**
   * A step that helps the sleeper `t`: its timer, an own step of anyone, the server's notice of a
   * connection that the client closed, and the pool's removal of an idle connection that is dead.
   */
  ghost predicate Helps(s: Sys, t: TaskId, a: Action) {
    || a == Wake(t)
    || OwnStep(s, a)
    || (a.SessionEnds? && a.conn in s.sessions && a.conn in s.closed)
    || (a.IdleCloses? && a.conn in s.idle && a.conn !in s.sessions)
  }

  ghost predicate HelpPath(s: Sys, t: TaskId, steps: seq<Action>)
    decreases |steps|
  {
    steps == [] || (Helps(s, t, steps[0]) && HelpPath(Do(s, steps[0]), t, steps[1..]))
  }

  lemma {:induction false} PathJoins(s: Sys, t: TaskId, a: seq<Action>, b: seq<Action>)
    requires HelpPath(s, t, a) && HelpPath(After(s, a), t, b)
    ensures HelpPath(s, t, a + b) && After(s, a + b) == After(After(s, a), b)
    decreases |a|
  {
    hide Helps, Do;
    if a == [] {
      assert a + b == b;
    } else {
      PathJoins(Do(s, a[0]), t, a[1..], b);
      assert (a + b)[0] == a[0] && (a + b)[1..] == a[1..] + b;
    }
  }

  lemma {:induction false} RunOn(size: nat, actions: seq<Action>, steps: seq<Action>)
    ensures Run(size, actions + steps) == After(Run(size, actions), steps)
    decreases |steps|
  {
    hide Do;
    if steps == [] {
      assert actions + steps == actions;
    } else {
      var next := actions + [steps[0]];
      assert next[..|next| - 1] == actions;
      RunOn(size, next, steps[1..]);
      assert actions + steps == next + steps[1..];
    }
  }

  /** What the way to the lock keeps: the sleeper sleeps on, and the pool is sound. */
  ghost predicate Waits(s: Sys, t: TaskId, key: Key) {
    Inv(s) && Known(s) && s.size >= 1 && At(s, t, Sleeping) && s.tasks[t].key == key
  }

  /** A task's own step moves no other task. */
  lemma TasksLetSleep(s: Sys, a: Action, t: TaskId)
    requires At(s, t, Sleeping) && Enabled(s, a)
    ensures a.TryLock? ==> At(TriedLock(s, a.task), t, Sleeping) && TriedLock(s, a.task).tasks[t].key == s.tasks[t].key
    ensures a.TryError? ==> var u := TryErrored(s, a.task, a.granted); At(u, t, Sleeping) && u.tasks[t].key == s.tasks[t].key
    ensures a.BeginRelease? ==> At(ReleaseBegun(s, a.task), t, Sleeping) && ReleaseBegun(s, a.task).tasks[t].key == s.tasks[t].key
    ensures a.Unlock? ==> At(Unlocked(s, a.task), t, Sleeping) && Unlocked(s, a.task).tasks[t].key == s.tasks[t].key
    ensures a.UnlockError? ==> var u := UnlockErrored(s, a.task, a.applied); At(u, t, Sleeping) && u.tasks[t].key == s.tasks[t].key
  {
    hide Taken, Opened, PoolRelease, Closed, Used, Granted, Ungranted, HeldElsewhere;
    if a.TryLock? || a.TryError? || a.Unlock? || a.UnlockError? {
      var task := s.tasks[a.task];
      var c := if task.pc.Trying? then task.pc.tried else task.conn;
      ConnStepsMoveNone(s, c, OfTask(a.task), task.key);
      ConnStepsMoveNone(Used(s, c, OfTask(a.task)), c, OfTask(a.task), task.key);
    }
  }

  lemma CallsLetSleep(s: Sys, a: Action, t: TaskId)
    requires At(s, t, Sleeping) && Enabled(s, a)
    ensures a.Querier? ==> At(QuerierChose(s, a.call), t, Sleeping) && QuerierChose(s, a.call).tasks[t].key == s.tasks[t].key
    ensures a.FinishOnLock? ==> var u := FinishedOnLock(s, a.call, a.breaks); At(u, t, Sleeping) && u.tasks[t].key == s.tasks[t].key
    ensures a.FinishOnPool? ==> var u := FinishedOnPool(s, a.call, a.breaks); At(u, t, Sleeping) && u.tasks[t].key == s.tasks[t].key
  {
    hide Taken, Opened, PoolRelease, Closed, Used, Granted, Ungranted, HeldElsewhere;
    if a.Querier? && s.calls[a.call].scope.Some? {
      ConnStepsMoveNone(s, s.tasks[s.calls[a.call].scope.value].conn, OfTask(s.calls[a.call].scope.value), 0);
    } else if a.FinishOnLock? {
      var v := s.calls[a.call].scope.value;
      var c := s.tasks[v].conn;
      var u := Used(s, c, OfTask(v));
      ConnStepsMoveNone(s, c, OfTask(v), 0);
      ConnStepsMoveNone(if s.tasks[v].released then u.(faulty := true) else u, c, OfTask(v), 0);
    } else if a.FinishOnPool? {
      var c, who := s.calls[a.call].pc.conn, OfCall(a.call);
      var u := Used(s, c, who);
      ConnStepsMoveNone(s, c, who, 0);
      ConnStepsMoveNone(u, c, who, 0);
      ConnStepsMoveNone(if a.breaks then Closed(u, c) else u, c, who, 0);
    }
  }

  /** The steps that only move connections and the pc of their own task or call. */
  predicate IsPlain(a: Action) {
    || a.TakeIdle? || a.TakeNew? || a.CloseTried? || a.ReleaseTried? || a.ReleaseUnlocked? || a.CloseLock?
    || a.ReturnLock? || a.EndFn?
  }

  lemma PlainLetsSleep(s: Sys, a: Action, t: TaskId)
    requires At(s, t, Sleeping) && Enabled(s, a) && IsPlain(a)
    ensures At(Do(s, a), t, Sleeping) && Do(s, a).tasks[t].key == s.tasks[t].key
  {
    hide HasRoom, Taken, Opened, PoolRelease, Closed, Used, Granted, Ungranted, HeldElsewhere;
    var task := s.tasks[a.task];
    var c := if a.TakeIdle? then a.conn
             else if a.CloseTried? || a.ReleaseTried? || a.ReleaseUnlocked? then task.pc.tried else task.conn;
    ConnStepsMoveNone(s, c, OfTask(a.task), 0);
    hide TriedLock, TryErrored, ReleaseBegun, Unlocked, UnlockErrored, QuerierChose, FinishedOnLock, FinishedOnPool;
  }

  lemma CallTakesLetSleep(s: Sys, a: Action, t: TaskId)
    requires At(s, t, Sleeping) && Enabled(s, a) && (a.CallTakeIdle? || a.CallTakeNew?)
    ensures At(Do(s, a), t, Sleeping) && Do(s, a).tasks[t].key == s.tasks[t].key
  {
    hide HasRoom, Taken, Opened, PoolRelease, Closed, Used, Granted, Ungranted, HeldElsewhere;
    ConnStepsMoveNone(s, if a.CallTakeIdle? then a.conn else 0, OfCall(a.call), 0);
    hide TriedLock, TryErrored, ReleaseBegun, Unlocked, UnlockErrored, QuerierChose, FinishedOnLock, FinishedOnPool;
  }

  lemma OthersLetSleep(s: Sys, a: Action, t: TaskId)
    requires At(s, t, Sleeping) && OwnStep(s, a)
    ensures At(Do(s, a), t, Sleeping) && Do(s, a).tasks[t].key == s.tasks[t].key
  {
    OwnStepIs(s, a);
    assert !a.GiveUp? && !a.CallGiveUp?;
    hide OwnStep, Enabled;
    if IsPlain(a) {
      PlainLetsSleep(s, a, t);
    } else if a.CallTakeIdle? || a.CallTakeNew? {
      CallTakesLetSleep(s, a, t);
    } else {
      TasksLetSleep(s, a, t);
      CallsLetSleep(s, a, t);
      hide TriedLock, TryErrored, ReleaseBegun, Unlocked, UnlockErrored, QuerierChose, FinishedOnLock, FinishedOnPool;
    }
  }

  lemma HelpKeepsWaiting(s: Sys, a: Action, t: TaskId, key: Key)
    requires Waits(s, t, key) && Helps(s, t, a) && a != Wake(t)
    ensures Waits(Do(s, a), t, key)
  {
    hide Inv, Known;
    DoKeeps(s, a);
    DoKeepsKnown(s, a);
    DoKeepsSize(s, a);
    if OwnStep(s, a) {
      hide Do, OwnStep;
      OthersLetSleep(s, a, t);
    }
  }

  lemma {:induction false} ToRest(s: Sys, t: TaskId, key: Key) returns (steps: seq<Action>)
    requires Waits(s, t, key)
    ensures HelpPath(s, t, steps) && Waits(After(s, steps), t, key) && Settled(After(s, steps))
    decreases Rank(s)
  {
    if Settled(s) {
      steps := [];
    } else {
      UnsettledSteps(s);
      var a :| OwnStep(s, a);
      OwnStepIs(s, a);
      WorkLowersRank(s, a);
      HelpKeepsWaiting(s, a, t, key);
      hide Waits, Settled, Rank, OwnStep, Do;
      var rest := ToRest(Do(s, a), t, key);
      steps := [a] + rest;
      assert steps[1..] == rest;
    }
  }

  /** The server has noticed every close. */
  ghost predicate Noticed(s: Sys) {
    forall c :: c in s.closed ==> c !in s.sessions
  }

  lemma NoticeOne(s: Sys, t: TaskId, key: Key, c: Conn)
    requires Waits(s, t, key) && Settled(s) && c in s.closed && c in s.sessions
    ensures Helps(s, t, SessionEnds(c)) && Waits(Do(s, SessionEnds(c)), t, key) && Settled(Do(s, SessionEnds(c)))
    ensures |Do(s, SessionEnds(c)).sessions| < |s.sessions|
  {
    hide Inv, Known, OwnStep;
    HelpKeepsWaiting(s, SessionEnds(c), t, key);
    FewerSessions(s.sessions, c);
    hide Waits;
  }

  lemma FewerSessions(sessions: map<Conn, multiset<Key>>, c: Conn)
    requires c in sessions
    ensures |sessions - {c}| < |sessions|
  {
    assert sessions.Keys == (sessions - {c}).Keys + {c};
  }

  lemma {:induction false} ToNotice(s: Sys, t: TaskId, key: Key) returns (steps: seq<Action>)
    requires Waits(s, t, key) && Settled(s)
    ensures HelpPath(s, t, steps) && Waits(After(s, steps), t, key) && Settled(After(s, steps)) && Noticed(After(s, steps))
    decreases |s.sessions|
  {
    if Noticed(s) {
      steps := [];
    } else {
      var c :| c in s.closed && c in s.sessions;
      hide Waits, Settled, Noticed, Do, Helps;
      NoticeOne(s, t, key, c);
      var rest := ToNotice(Do(s, SessionEnds(c)), t, key);
      steps := [SessionEnds(c)] + rest;
      assert steps[1..] == rest;
    }
  }

  /** At rest the pool has lent nothing, so once closes are noticed no live session holds any lock. */
  lemma RestHoldsNothing(s: Sys)
    requires Inv(s) && Known(s) && Settled(s)
    ensures forall c :: c !in s.out
    ensures Noticed(s) ==> forall c :: c in s.sessions ==> s.sessions[c] == multiset{}
  {
    forall c
      ensures c !in s.out
    {
      assert OutAt(s, c);
    }
    if Noticed(s) {
      forall c | c in s.sessions
        ensures s.sessions[c] == multiset{}
      {
        assert IdleAt(s, c);
      }
    }
  }

  /** The last steps: a live connection is there or is opened, and the lock on it is free. */
  /** A dead idle connection makes room. */
  /** A dead idle connection makes room. */
  lemma DroppedMakesRoom(s: Sys, c: Conn)
    requires Inv(s) && Known(s) && Settled(s) && c in s.idle
    ensures HasRoom(Do(s, IdleCloses(c)))
  {
    RestHoldsNothing(s);
    assert (forall d :: d !in s.out) ==> s.out == map[];
    assert PoolOk(s);
    hide Inv, Known, Settled;
    assert |s.idle - {c}| == |s.idle| - 1;
  }

  lemma DropsDead(s: Sys, t: TaskId, key: Key, c: Conn)
    requires Waits(s, t, key) && Settled(s) && Noticed(s) && c in s.idle && c !in s.sessions
    ensures var u := Do(s, IdleCloses(c));
            Helps(s, t, IdleCloses(c)) && Waits(u, t, key) && Settled(u) && Noticed(u) && HasRoom(u)
  {
    hide Inv, Known, OwnStep, HasRoom;
    HelpKeepsWaiting(s, IdleCloses(c), t, key);
    DroppedMakesRoom(s, c);
    hide Waits;
  }

  lemma GetsInAnew(s: Sys, t: TaskId, key: Key)
    requires Waits(s, t, key) && Settled(s) && Noticed(s) && HasRoom(s)
    ensures HelpPath(s, t, [Wake(t), TakeNew(t), TryLock(t)])
    ensures HasLock(After(s, [Wake(t), TakeNew(t), TryLock(t)]), t, key)
  {
    RestHoldsNothing(s);
    assert s.next !in s.closed by {
      assert PoolOk(s);
    }
    hide Inv, Known, HelpPath, After, HasLock;
    WakesAndLocks(s, t, TakeNew(t), s.next);
  }

  /** The last steps: a live connection is there or is opened, and the lock on it is free. */
  lemma GetsIn(s: Sys, t: TaskId, key: Key) returns (steps: seq<Action>)
    requires Waits(s, t, key) && Settled(s) && Noticed(s)
    ensures HelpPath(s, t, steps) && HasLock(After(s, steps), t, key)
  {
    RestHoldsNothing(s);
    assert (forall c :: c !in s.out) ==> s.out == map[];
    assert (forall c :: c !in s.idle) ==> s.idle == {};
    hide Inv, Known, Settled, HasLock, Do, Helps;
    if c :| c in s.idle && c in s.sessions {
      assert c !in s.closed;
      hide HelpPath, After;
      steps := [Wake(t), TakeIdle(t, c), TryLock(t)];
      WakesAndLocks(s, t, TakeIdle(t, c), c);
    } else if HasRoom(s) {
      hide HelpPath, After;
      steps := [Wake(t), TakeNew(t), TryLock(t)];
      GetsInAnew(s, t, key);
    } else {
      assert s.idle != {};
      var c :| c in s.idle;
      hide Waits, Noticed;
      DropsDead(s, t, key, c);
      GetsInAnew(Do(s, IdleCloses(c)), t, key);
      var rest := [Wake(t), TakeNew(t), TryLock(t)];
      steps := [IdleCloses(c)] + rest;
      assert steps[1..] == rest;
    }
  }

  /** The task is inside fn and the live session of its lock connection holds the lock. */
  ghost predicate HasLock(s: Sys, t: TaskId, key: Key) {
    && At(s, t, Inside) && s.tasks[t].conn in s.sessions && key in s.sessions[s.tasks[t].conn]
  }

  /** A woken task that gets a live connection gets its lock exactly if no other live session holds it. */
  lemma FreeLockIsGranted(size: nat, actions: seq<Action>, t: TaskId)
    requires Enabled(Run(size, actions), TryLock(t))
    ensures var s := Run(size, actions);
            var s' := Do(s, TryLock(t));
            HasLock(s', t, s.tasks[t].key) <==> forall c :: c in s.sessions ==> s.tasks[t].key !in s.sessions[c]
  {
    var s := Run(size, actions);
    RunKeeps(size, actions);
    hide Run;
    var c := s.tasks[t].pc.tried;
    assert TaskOk(s, t);
    assert NoLocks(s, c);
  }

  lemma Woken(s: Sys, t: TaskId)
    requires At(s, t, Sleeping)
    ensures Do(s, Wake(t)) == s.(tasks := s.tasks[t := s.tasks[t].(pc := WantConn)])
  {
  }

  lemma Given(s: Sys, t: TaskId, take: Action, c: Conn)
    requires At(s, t, WantConn) && (forall d :: d in s.sessions ==> s.sessions[d] == multiset{})
    requires (take == TakeIdle(t, c) && c in s.idle && c in s.sessions) || (take == TakeNew(t) && HasRoom(s) && c == s.next)
    requires c !in s.closed
    ensures var v := Do(s, take);
            && OwnStep(s, take) && At(v, t, Trying(c)) && v.tasks[t].key == s.tasks[t].key
            && c in v.sessions && c !in v.closed
            && forall d :: d in v.sessions ==> v.sessions[d] == multiset{}
  {
    hide HasRoom;
  }

  lemma LocksFree(s: Sys, t: TaskId, c: Conn)
    requires At(s, t, Trying(c)) && c in s.sessions && c !in s.closed
    requires forall d :: d in s.sessions ==> s.sessions[d] == multiset{}
    ensures OwnStep(s, TryLock(t)) && HasLock(Do(s, TryLock(t)), t, s.tasks[t].key)
  {
    assert !HeldElsewhere(s, s.tasks[t].key, c);
  }

  lemma ThreeSteps(s: Sys, t: TaskId, a: Action, b: Action, c: Action)
    requires Helps(s, t, a) && Helps(Do(s, a), t, b) && Helps(Do(Do(s, a), b), t, c)
    ensures HelpPath(s, t, [a, b, c]) && After(s, [a, b, c]) == Do(Do(Do(s, a), b), c)
  {
    hide Helps, Do;
    var steps := [a, b, c];
    assert steps[1..] == [b, c] && steps[1..][1..] == [c] && steps[1..][1..][1..] == [];
    var u := Do(Do(s, a), b);
    assert HelpPath(u, t, [c]) && After(u, [c]) == Do(u, c);
    assert HelpPath(Do(s, a), t, [b, c]) && After(Do(s, a), [b, c]) == After(u, [c]);
  }

  lemma WakesAndLocks(s: Sys, t: TaskId, take: Action, c: Conn)
    requires At(s, t, Sleeping) && (forall d :: d in s.sessions ==> s.sessions[d] == multiset{})
    requires (take == TakeIdle(t, c) && c in s.idle && c in s.sessions) || (take == TakeNew(t) && HasRoom(s) && c == s.next)
    requires c !in s.closed
    ensures HelpPath(s, t, [Wake(t), take, TryLock(t)])
    ensures HasLock(After(s, [Wake(t), take, TryLock(t)]), t, s.tasks[t].key)
  {
    var u := Do(s, Wake(t));
    Woken(s, t);
    hide Do, OwnStep, HasLock, HelpPath, After;
    Given(u, t, take, c);
    LocksFree(Do(u, take), t, c);
    ThreeSteps(s, t, Wake(t), take, TryLock(t));
  }

  /**
   * From every reachable state, whoever holds the lock and however full the pool is, a sleeping
   * waiter can still get its lock without any session failing: a run of helpful steps leads there.
   */
  lemma {:induction false} EveryWaiterCanGetIn(size: nat, actions: seq<Action>, t: TaskId)
    requires size >= 1 && At(Run(size, actions), t, Sleeping)
    ensures exists steps ::
              && HelpPath(Run(size, actions), t, steps)
              && HasLock(Run(size, actions + steps), t, Run(size, actions).tasks[t].key)
  {
    var s := Run(size, actions);
    var key := s.tasks[t].key;
    RunKeeps(size, actions);
    SizeStays(size, actions);
    RunKeepsKnown(size, actions);
    hide Run, Inv, Known;
    var a := ToRest(s, t, key);
    hide Waits, Settled, Noticed, HasLock, Do;
    var b := ToNotice(After(s, a), t, key);
    var c := GetsIn(After(After(s, a), b), t, key);
    PathJoins(s, t, a, b);
    PathJoins(s, t, a + b, c);
    RunOn(size, actions, a + b + c);
  }
}
