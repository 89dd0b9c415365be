/** The store and caller methods of the sync protocol, as the code runs them. */
module SyncStore {
  import opened Wrappers
  import Saves = LibraryStore
  import opened SyncLock
  import opened SyncProtocol

  // ---------------------------------------------------------------- connections

  /** The client's side of the pool. */
  class Pool {
    var idle: set<Conn>
    var out: set<Conn>
    var closed: set<Conn>

    ghost predicate Valid()
      reads this
    {
      idle !! out && idle !! closed
    }

    constructor ()
      ensures Valid() && idle == {} && out == {} && closed == {}
    {
      idle, out, closed := {}, {}, {};
    }

    /** `spare` is a connection the pool opens when it has none to give. */
    method Acquire(spare: Conn) returns (c: Conn)
      requires Valid() && spare !in idle + out + closed
      modifies this
      ensures Valid() && c !in old(out) && c !in closed && out == old(out) + {c} && idle == old(idle) - {c}
      ensures closed == old(closed) && (c in old(idle) || (c == spare && old(idle) == {}))
    {
      assert (forall d :: d !in idle) ==> idle == {};
      if d :| d in idle {
        c := d;
      } else {
        c := spare;
      }
      idle, out := idle - {c}, out + {c};
    }

    method Release(c: Conn)
      requires Valid() && c in out
      modifies this
      ensures Valid() && out == old(out) - {c} && closed == old(closed)
      ensures idle == if c in closed then old(idle) else old(idle) + {c}
    {
      out := out - {c};
      if c !in closed {
        idle := idle + {c};
      }
    }

    method CloseConn(c: Conn)
      requires Valid() && c in out
      modifies this
      ensures Valid() && out == old(out) && idle == old(idle) && closed == old(closed) + {c}
    {
      closed := closed + {c};
    }
  }

  /** What one attempt of the polling loop meets. */
  datatype Attempt = NoConnection | QueryError | HeldByOther | Granted

  const POLL_MIN: nat := 20
  const POLL_MAX: nat := 250

  function Backoff(wait: nat): nat {
    if 2 * wait < POLL_MAX then 2 * wait else POLL_MAX
  }

  /** The waits of the loop: from POLL_MIN, doubling up to POLL_MAX. */
  predicate BacksOff(waits: seq<nat>) {
    && (waits != [] ==> waits[0] == POLL_MIN)
    && (forall i :: 0 < i < |waits| ==> waits[i] == Backoff(waits[i - 1]))
  }

  lemma {:induction false} BackoffBounds(waits: seq<nat>, i: nat)
    requires BacksOff(waits) && i < |waits|
    ensures 20 <= waits[i] <= 250
    ensures i == 0 ==> waits[i] == 20
    ensures i + 1 < |waits| ==> waits[i + 1] == if 2 * waits[i] < 250 then 2 * waits[i] else 250
    ensures i + 1 < |waits| ==> waits[i] <= waits[i + 1]
  {
    if i > 0 {
      BackoffBounds(waits, i - 1);
    }
  }

  /**
   * acquireUserSyncLock: `attempts[i]` is what attempt i meets, and the context ends
   * while the loop waits after the last one. A lock comes with its connection; every
   * other connection the loop took has been given back, and the one on which the attempt
   * failed, which may hold the lock, is closed and not in the pool.
   */
  method AcquireUserSyncLock(pool: Pool, attempts: seq<Attempt>, spare: seq<Conn>)
    returns (conn: Option<Conn>, waits: seq<nat>)
    requires pool.Valid() && |spare| == |attempts|
    requires forall i, j :: 0 <= i < j < |spare| ==> spare[i] != spare[j]
    requires forall i :: 0 <= i < |spare| ==> spare[i] !in pool.idle + pool.out + pool.closed
    modifies pool
    ensures pool.Valid()
    ensures conn.None? ==> pool.out == old(pool.out)
    ensures conn.Some? ==> conn.value !in old(pool.out) && pool.out == old(pool.out) + {conn.value} && conn.value !in pool.closed
    ensures BacksOff(waits) && |waits| <= |attempts|
    ensures forall i :: 0 <= i < |waits| ==>
              waits[i] == if i == 0 then 20 else if 2 * waits[i - 1] < 250 then 2 * waits[i - 1] else 250
    ensures forall i :: 0 <= i < |waits| ==> attempts[i] == HeldByOther
    ensures conn.Some? <==> |waits| < |attempts| && attempts[|waits|] == Granted
    ensures if |waits| < |attempts| && attempts[|waits|] == QueryError
            then exists c :: && c !in old(pool.out) && c !in old(pool.closed)
                             && pool.closed == old(pool.closed) + {c} && c !in pool.idle
            else pool.closed == old(pool.closed)
  {
    var wait := POLL_MIN;
    waits := [];
    for i := 0 to |attempts|
      invariant pool.Valid() && pool.out == old(pool.out) && pool.closed == old(pool.closed) && |waits| == i
      invariant BacksOff(waits) && wait == (if i == 0 then POLL_MIN else Backoff(waits[i - 1]))
      invariant forall j :: 0 <= j < i ==> attempts[j] == HeldByOther
      invariant forall j :: i <= j < |spare| ==> spare[j] !in pool.idle + pool.out + pool.closed
    {
      if attempts[i] == NoConnection {
        return None, waits;
      }
      var c := pool.Acquire(spare[i]);
      assert pool.out - {c} == old(pool.out);
      match attempts[i] {
        case Granted => return Some(c), waits;
        case QueryError =>
          pool.CloseConn(c);
          pool.Release(c);
          return None, waits;
        case _ =>
      }
      pool.Release(c);
      waits := waits + [wait];
      wait := Backoff(wait);
    }
    return None, waits;
  }

  /** The connection of a held lock, shared by the calls made under it; `busy` is the mutex. */
  class SyncLockConn {
    const conn: Conn
    var busy: bool
    var released: bool

    constructor (c: Conn)
      ensures conn == c && !busy && !released
    {
      conn, busy, released := c, false, false;
    }

    /** A lock not yet given back owns its connection. */
    ghost predicate Valid(pool: Pool)
      reads this, pool
    {
      pool.Valid() && (!released ==> conn in pool.out) && (released ==> !busy)
    }

    /** querier: runs on the lock connection, keeping the mutex, or (false) on the pool, keeping nothing. */
    method Querier(pool: Pool) returns (onLock: bool)
      requires Valid(pool) && !busy
      modifies this, pool
      ensures Valid(pool)
      ensures onLock == (!old(released) && conn !in old(pool.closed)) && busy == onLock && released == !onLock
      ensures pool.closed == old(pool.closed) && pool.idle == old(pool.idle)
      ensures pool.out == if !old(released) && conn in old(pool.closed) then old(pool.out) - {conn} else old(pool.out)
    {
      busy := true;
      if !released && conn in pool.closed {
        released := true;
        pool.Release(conn);
      }
      if !released {
        return true;
      }
      busy := false;
      return false;
    }

    /** release: `unlocked` is the answer of pg_advisory_unlock, None when it failed. */
    method Release(pool: Pool, unlocked: Option<bool>)
      requires Valid(pool) && !busy
      modifies this, pool
      ensures Valid(pool) && released && !busy
      ensures pool.out == if old(released) then old(pool.out) else old(pool.out) - {conn}
      ensures !old(released) ==> (conn in pool.idle <==> unlocked == Some(true) && conn !in old(pool.closed))
      ensures old(released) ==> pool.idle == old(pool.idle)
    {
      if released {
        return;
      }
      released := true;
      if unlocked != Some(true) {
        pool.CloseConn(conn);
      }
      pool.Release(conn);
    }
  }

  // --------------------------------------------------------------------- stamps

  /** What becomes of the write that records an outcome. */
  datatype Write = Acknowledged | ReplyLost | Refused

  /** The stamps after a sync that ended so, run when it was due; a failed details fetch still counts as a success. */
  function AfterSync(stamps: map<User, Stamp>, u: User, now: Time, result: Saves.SyncResult): map<User, Stamp> {
    if result != Saves.SyncFailed then Stamped(stamps, u, Stamp(Some(now), None))
    else if u in stamps then stamps[u := stamps[u].(failed := Some(now))]
    else stamps
  }

  /** After a recorded success a known user is due again exactly when more than a day has passed. */
  lemma DueAfterSuccess(stamps: map<User, Stamp>, u: User, at: Time, now: Time)
    ensures Due(AfterSync(stamps, u, at, Saves.SyncDone), u, now) <==> u !in stamps || now > at + 86_400_000_000
    ensures !ReportsFailure(AfterSync(stamps, u, at, Saves.SyncDone), u)
  {
  }

  /** A recorded failure is reported until the next success, and leaves everyone as due as they were. */
  lemma FailureIsReported(stamps: map<User, Stamp>, u: User, at: Time)
    ensures u in stamps && StampOk(stamps[u], at) && Due(stamps, u, at) ==>
              ReportsFailure(AfterSync(stamps, u, at, Saves.SyncFailed), u)
    ensures forall v, now :: Due(AfterSync(stamps, u, at, Saves.SyncFailed), v, now) <==> Due(stamps, v, now)
  {
  }

  /** An outcome and when it was written. */
  datatype Record = Record(at: Time, result: Saves.SyncResult)

  function AfterRecords(stamps: map<User, Stamp>, u: User, records: seq<Record>): map<User, Stamp> {
    if records == [] then stamps
    else
      var r := records[|records| - 1];
      AfterSync(AfterRecords(stamps, u, records[..|records| - 1]), u, r.at, r.result)
  }

  /** Each outcome was written when the user was due, and not before the last one. */
  predicate Timely(stamps: map<User, Stamp>, u: User, now: Time, records: seq<Record>) {
    records == [] ||
    (var front, r := records[..|records| - 1], records[|records| - 1];
     && Timely(stamps, u, now, front)
     && Due(AfterRecords(stamps, u, front), u, r.at)
     && (if front == [] then now else front[|front| - 1].at) <= r.at)
  }

  /** The reported outcome is the last one recorded, whatever came before it. */
  lemma {:induction false} OutcomeIsTheLast(stamps: map<User, Stamp>, u: User, now: Time, records: seq<Record>)
    requires u in stamps && StampOk(stamps[u], now) && Timely(stamps, u, now, records)
    ensures u in AfterRecords(stamps, u, records)
    ensures StampOk(AfterRecords(stamps, u, records)[u], if records == [] then now else records[|records| - 1].at)
    ensures records != [] ==>
              (ReportsFailure(AfterRecords(stamps, u, records), u) <==> records[|records| - 1].result == Saves.SyncFailed)
  {
    if records != [] {
      OutcomeIsTheLast(stamps, u, now, records[..|records| - 1]);
    }
  }

  /** What the store methods write is what the protocol's recording steps write. */
  lemma RecordingIsTheProtocolStep(w: World, t: TaskId)
    requires Happens(w, RecordSuccess(t))
    ensures Next(w, RecordSuccess(t)).stamps == AfterSync(w.stamps, w.users[t], w.now, Saves.SyncDone)
    ensures Next(w, RecordFailure(t)).stamps == AfterSync(w.stamps, w.users[t], w.now, Saves.SyncFailed)
  {
  }

  class StampStore {
    var stamps: map<User, Stamp>
    var now: Time

    /** A user who is not due has synced successfully within the last day, so waiting for the lock is no use. */
    method LibrarySyncDue(u: User) returns (due: bool)
      ensures due == Due(stamps, u, now)
      ensures !due <==> u in stamps && stamps[u].synced.Some? && now - stamps[u].synced.value <= 86_400_000_000
    {
      due := true;
      if u in stamps {
        due := stamps[u].synced.None? || stamps[u].synced.value < now - DAY;
      }
    }

    /** A known user is then neither due, for a day to come, nor reported as failed; nobody else changes. */
    method RecordSyncSuccess(u: User)
      modifies this`stamps
      ensures stamps == AfterSync(old(stamps), u, now, Saves.SyncDone)
      ensures stamps == if u in old(stamps) then old(stamps)[u := Stamp(Some(now), None)] else old(stamps)
      ensures u in stamps ==> !ReportsFailure(stamps, u) && forall later :: later <= now + DAY ==> !Due(stamps, u, later)
    {
      if u in stamps {
        stamps := stamps[u := Stamp(Some(now), None)];
      }
    }

    /** Nobody is more or less due than before; a due user with consistent stamps is then reported as failed. */
    method RecordSyncFailure(u: User)
      modifies this`stamps
      ensures stamps == AfterSync(old(stamps), u, now, Saves.SyncFailed)
      ensures stamps == if u in old(stamps) then old(stamps)[u := old(stamps)[u].(failed := Some(now))] else old(stamps)
      ensures forall v, later :: Due(stamps, v, later) <==> Due(old(stamps), v, later)
      ensures u in old(stamps) && StampOk(old(stamps)[u], now) && Due(old(stamps), u, now) ==> ReportsFailure(stamps, u)
    {
      if u in stamps {
        stamps := stamps[u := stamps[u].(failed := Some(now))];
      }
    }

    /** A user with consistent stamps who is not due is never reported as failed. */
    method StoredSyncOutcome(u: User) returns (failed: bool)
      ensures failed == ReportsFailure(stamps, u)
      ensures failed <==>
              && u in stamps && stamps[u].failed.Some?
              && (stamps[u].synced.None? || stamps[u].failed.value > stamps[u].synced.value)
      ensures u in stamps && StampOk(stamps[u], now) && !Due(stamps, u, now) ==> !failed
    {
      if u !in stamps || stamps[u].failed.None? {
        return false;
      }
      if stamps[u].synced.Some? && !(stamps[u].failed.value > stamps[u].synced.value) {
        return false;
      }
      return true;
    }

    /** runLibrarySync: the sync takes `elapsed`, then its outcome is written. */
    method RunLibrarySync(u: User, result: Saves.SyncResult, elapsed: nat, write: Write) returns (failed: bool)
      modifies this
      ensures now == old(now) + elapsed
      ensures failed == (result == Saves.SyncFailed || write != Acknowledged)
      ensures stamps == if write == Refused then old(stamps) else AfterSync(old(stamps), u, now, result)
      ensures stamps == if write == Refused || u !in old(stamps) then old(stamps)
                        else if result == Saves.SyncFailed then old(stamps)[u := old(stamps)[u].(failed := Some(now))]
                        else old(stamps)[u := Stamp(Some(now), None)]
    {
      now := now + elapsed;
      if result == Saves.SyncFailed {
        if write != Refused {
          RecordSyncFailure(u);
        }
        return true;
      }
      if write != Refused {
        RecordSyncSuccess(u);
      }
      return write != Acknowledged;
    }

    /**
     * The part of handleLibrarySync that runs under the lock; `checked` and `answered` say whether the
     * due check and the read of the stored outcome succeed. An error ends it, and is reported as a failure.
     */
    method PageSyncUnderLock(u: User, result: Saves.SyncResult, elapsed: nat, write: Write, checked: bool, answered: bool)
      returns (failed: bool, err: bool)
      modifies this
      ensures err <==> !checked || (!Due(old(stamps), u, old(now)) && !answered)
      ensures err ==> stamps == old(stamps)
      ensures checked && Due(old(stamps), u, old(now)) ==>
                && failed == (result == Saves.SyncFailed || write != Acknowledged)
                && stamps == if write == Refused then old(stamps) else AfterSync(old(stamps), u, old(now) + elapsed, result)
      ensures !Due(old(stamps), u, old(now)) ==> stamps == old(stamps)
      ensures !Due(old(stamps), u, old(now)) && !err ==> failed == ReportsFailure(old(stamps), u)
      ensures !Due(old(stamps), u, old(now)) && StampOk(old(stamps)[u], old(now)) ==> !failed
    {
      if !checked {
        return false, true;
      }
      var due := LibrarySyncDue(u);
      if !due {
        if !answered {
          return false, true;
        }
        failed := StoredSyncOutcome(u);
        return failed, false;
      }
      failed := RunLibrarySync(u, result, elapsed, write);
      return failed, false;
    }

    /**
     * The part of syncMemberIfDue and syncAddedMember that runs under the lock; the returned error
     * joins the sync's own, also that of a failed details fetch, and that of the recording.
     */
    method MemberSyncUnderLock(u: User, result: Saves.SyncResult, elapsed: nat, write: Write, checked: bool) returns (err: bool)
      modifies this
      ensures stamps == if checked && Due(old(stamps), u, old(now)) && write != Refused
                        then AfterSync(old(stamps), u, old(now) + elapsed, result) else old(stamps)
      ensures err <==> !checked || (Due(old(stamps), u, old(now)) && (result != Saves.SyncDone || write != Acknowledged))
    {
      if !checked {
        return true;
      }
      var due := LibrarySyncDue(u);
      if !due {
        return false;
      }
      now := now + elapsed;
      if write != Refused {
        if result != Saves.SyncFailed {
          RecordSyncSuccess(u);
        } else {
          RecordSyncFailure(u);
        }
      }
      return result != Saves.SyncDone || write != Acknowledged;
    }
  }
}
