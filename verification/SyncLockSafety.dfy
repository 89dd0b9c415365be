/** What the sync lock and its pool guarantee in every reachable state. */
module SyncLockSafety {
  import opened Wrappers
  import opened SyncLock

  lemma OnlyOneInside(s: Sys, t: TaskId, u: TaskId)
    requires Inv(s) && t != u && At(s, t, Inside) && At(s, u, Inside)
    requires s.tasks[t].key == s.tasks[u].key
    ensures s.tasks[t].conn !in s.sessions || s.tasks[u].conn !in s.sessions
  {
    assert TaskOk(s, t) && TaskOk(s, u) && Apart(s, t, u);
    var k, c, d := s.tasks[t].key, s.tasks[t].conn, s.tasks[u].conn;
    assert c in s.sessions ==> k in s.sessions[c];
    assert d in s.sessions ==> k in s.sessions[d];
  }

  /** Two tasks are inside fn for the same key only if the session of one of their lock connections has ended. */
  lemma {:induction false} Exclusion(size: nat, actions: seq<Action>, t: TaskId, u: TaskId)
    requires t != u && At(Run(size, actions), t, Inside) && At(Run(size, actions), u, Inside)
    requires Run(size, actions).tasks[t].key == Run(size, actions).tasks[u].key
    ensures var s := Run(size, actions);
            s.tasks[t].conn !in s.sessions || s.tasks[u].conn !in s.sessions
  {
    RunKeeps(size, actions);
    OnlyOneInside(Run(size, actions), t, u);
  }

  /** No connection in the pool holds an advisory lock, so re-entrancy never grants a lock it should not. */
  lemma {:induction false} IdleHoldsNoLock(size: nat, actions: seq<Action>, c: Conn)
    requires c in Run(size, actions).idle && c in Run(size, actions).sessions
    ensures Run(size, actions).sessions[c] == multiset{}
  {
    RunKeeps(size, actions);
    assert IdleAt(Run(size, actions), c);
  }

  /**
   * Connections are returned by whoever acquired them, once, and not used after:
   * none of the faults ever happens, an acquired connection has a holder, and when
   * all tasks and calls are over every connection has been returned.
   */
  lemma {:induction false} ConnectionsAreReturned(size: nat, actions: seq<Action>)
    ensures var s := Run(size, actions);
            && !s.faulty
            && |s.idle| + |s.out| <= size
            && (forall c, t :: c in s.out && s.out[c] == OfTask(t) ==> t in s.tasks && Holds(s.tasks[t]) == Some(c))
            && (forall c, x :: c in s.out && s.out[c] == OfCall(x) ==> x in s.calls && s.calls[x].pc == OnPool(c))
            && ((forall t :: t in s.tasks ==> s.tasks[t].pc == Done) && (forall x :: x in s.calls ==> s.calls[x].pc == Finished)
                ==> s.out == map[])
  {
    RunKeeps(size, actions);
    SizeStays(size, actions);
    var s := Run(size, actions);
    hide Run;
    forall c | c in s.out
      ensures OutAt(s, c)
    {
    }
    if (forall t :: t in s.tasks ==> s.tasks[t].pc == Done) && (forall x :: x in s.calls ==> s.calls[x].pc == Finished) {
      assert forall c :: c !in s.out;
      assert s.out.Keys == {};
    }
  }

  lemma TaskKeepsSize(s: Sys, a: Action)
    requires Enabled(s, a)
    ensures a.TryLock? ==> TriedLock(s, a.task).size == s.size
    ensures a.TryError? ==> TryErrored(s, a.task, a.granted).size == s.size
    ensures a.BeginRelease? ==> ReleaseBegun(s, a.task).size == s.size
    ensures a.Unlock? ==> Unlocked(s, a.task).size == s.size
    ensures a.UnlockError? ==> UnlockErrored(s, a.task, a.applied).size == s.size
  {
    hide HeldElsewhere;
  }

  lemma CallKeepsSize(s: Sys, a: Action)
    requires Enabled(s, a)
    ensures a.Querier? ==> QuerierChose(s, a.call).size == s.size
    ensures a.FinishOnLock? ==> FinishedOnLock(s, a.call, a.breaks).size == s.size
    ensures a.FinishOnPool? ==> FinishedOnPool(s, a.call, a.breaks).size == s.size
  {
  }

  lemma DoKeepsSize(s: Sys, a: Action)
    ensures Do(s, a).size == s.size
  {
    if Enabled(s, a) {
      TaskKeepsSize(s, a);
      CallKeepsSize(s, a);
      hide Enabled, TriedLock, TryErrored, ReleaseBegun, Unlocked, UnlockErrored, QuerierChose, FinishedOnLock, FinishedOnPool;
    }
  }

  lemma {:induction false} SizeStays(size: nat, actions: seq<Action>)
    ensures Run(size, actions).size == size
  {
    if actions != [] {
      SizeStays(size, actions[..|actions| - 1]);
      DoKeepsSize(Run(size, actions[..|actions| - 1]), actions[|actions| - 1]);
      hide Do;
    }
  }

  /** Whoever has a connection is not waiting for one, and nor is a call made under its lock. */
  lemma {:induction false} NoHoldAndWait(size: nat, actions: seq<Action>, c: Conn)
    requires c in Run(size, actions).out
    ensures var s := Run(size, actions);
            match s.out[c]
            case OfTask(t) =>
              t in s.tasks && s.tasks[t].pc != WantConn
              && forall x :: x in s.calls && s.calls[x].scope == Some(t) ==> s.calls[x].pc != WantPool && !s.calls[x].pc.OnPool?
            case OfCall(x) => x in s.calls && s.calls[x].pc != WantPool
  {
    var s := Run(size, actions);
    RunKeeps(size, actions);
    hide Run;
    assert OutAt(s, c);
    if s.out[c].OfTask? {
      var t := s.out[c].task;
      assert TaskOk(s, t);
      forall x | x in s.calls && s.calls[x].scope == Some(t)
        ensures s.calls[x].pc != WantPool && !s.calls[x].pc.OnPool?
      {
        assert CallOk(s, x);
      }
    }
  }

  // ------------------------------------------------------------------- lock keys

  /** A user id by its upper and lower 32 bits; ids below 2^32 are those with upper half 0. */
  datatype WideId = WideId(upper: bv32, lower: bv32)

  /** int32(id) ^ int32(id >> 32), the second half of the advisory lock's key. */
  function LockKey(id: WideId): bv32 {
    id.lower ^ id.upper
  }

  /** Ids with the same upper half, as are all ids below 2^32, have the same key only if they are equal. */
  lemma KeysAreDistinct(a: WideId, b: WideId)
    requires a.upper == b.upper
    ensures LockKey(a) == LockKey(b) <==> a == b
  {
    var x, y, h := a.lower, b.lower, a.upper;
    assert (x ^ h) ^ h == x && (y ^ h) ^ h == y;
  }

  /** Beyond that they can collide: 0 and 2^32 + 1. */
  lemma KeysCollide()
    ensures LockKey(WideId(0, 0)) == LockKey(WideId(1, 1))
  {
  }
}
