/**
 * Every interleaving of party transactions is equivalent to running the committed
 * ones one at a time, in the order in which they were granted their party's lock.
 */
module PartySerialisability {
  import opened Wrappers
  import opened Party
  import opened PartyInterleaving

  /**
   * How far a transaction has come: what its statements so far read and wrote is
   * what they would read and write on the rows `room`, with the users `users`.
   */
  ghost predicate At(op: Op, pc: Pc, writes: seq<Write>, room: Option<Room>, users: Users) {
    match pc
    case Lock => writes == []
    case Commit =>
      && Effect(op, room, users).Ok?
      && ApplyAll(writes, room) == Effect(op, room, users).value
    case CreateJoin =>
      op.Create? && room.None? && op.leader in users && writes == [PutParty(op.leader)]
    case LeaveDelete(leader) =>
      op.Leave? && room.Some? && leader == room.value.leader && writes == []
    case LeaveSuccessor =>
      op.Leave? && room.Some? && room.value.leader == op.user && writes == [DelMember(op.user)]
    case LeavePromote(successor) =>
      && op.Leave? && room.Some? && room.value.leader == op.user && writes == [DelMember(op.user)]
      && room.value.members - {op.user} != map[]
      && successor == Earliest(room.value.members - {op.user})
    case LeaveCount =>
      && op.Leave? && room.Some?
      && (if room.value.leader == op.user && room.value.members - {op.user} != map[]
          then writes == [DelMember(op.user), SetLeader(Earliest(room.value.members - {op.user}))]
          else writes == [DelMember(op.user)])
    case LeaveDrop =>
      op.Leave? && room.Some? && room.value.members - {op.user} == map[] && writes == [DelMember(op.user)]
    case StepCount =>
      op.StepDown? && room.Some? && room.value.leader == op.leader && writes == []
    case StepTarget =>
      op.StepDown? && room.Some? && room.value.leader == op.leader && |room.value.members| >= 2 && writes == []
    case StepUpdate =>
      && op.StepDown? && room.Some? && room.value.leader == op.leader && |room.value.members| >= 2
      && op.target in room.value.members && writes == []
    case SendMember =>
      op.Send? && room.Some? && room.value.leader == op.leader && writes == []
    case SendPending =>
      && op.Send? && room.Some? && room.value.leader == op.leader
      && op.target !in room.value.members && writes == []
    case SendFlag =>
      op.Send? && Invitable(room, op) && writes == []
    case SendInsertPending =>
      op.Send? && Invitable(room, op) && op.target in users && users[op.target] && writes == []
    case SendInsertAccepted =>
      op.Send? && Invitable(room, op) && op.target in users && !users[op.target] && writes == []
    case SendJoin =>
      && op.Send? && Invitable(room, op) && op.target in users && !users[op.target]
      && op.invite !in room.value.invites
      && writes == [PutInvite(op.invite, Invite(op.target, op.leader, Accepted))]
    case AcceptFind =>
      op.Accept? && room.Some? && writes == []
    case AcceptJoin(i) =>
      op.Accept? && room.Some? && HasPending(room.value, op.user) && i == PendingInvite(room.value, op.user) && writes == []
    case AcceptMark(i) =>
      && op.Accept? && room.Some? && HasPending(room.value, op.user) && i == PendingInvite(room.value, op.user)
      && op.user !in room.value.members && op.user in users && writes == [PutMember(op.user, op.at)]
    case RejectFind =>
      op.Reject? && room.Some? && writes == []
    case RejectMark(i) =>
      op.Reject? && room.Some? && HasPending(room.value, op.user) && i == PendingInvite(room.value, op.user) && writes == []
  }

  ghost predicate Invitable(room: Option<Room>, op: Op)
    requires op.Send?
  {
    && room.Some? && room.value.leader == op.leader
    && op.target !in room.value.members && !HasPending(room.value, op.target)
  }

  lemma ApplyAllUpTo2(writes: seq<Write>, room: Option<Room>)
    ensures |writes| == 1 ==> ApplyAll(writes, room) == Apply(writes[0], room)
    ensures |writes| == 2 ==> ApplyAll(writes, room) == Apply(writes[1], Apply(writes[0], room))
  {
    if |writes| == 1 {
      assert writes[..0] == [];
    } else if |writes| == 2 {
      assert writes[..1] == [writes[0]] && writes[..1][..0] == [];
      assert ApplyAll(writes[..1], room) == Apply(writes[0], room);
    }
  }

  lemma CreateAdvances(op: Op, pc: Pc, writes: seq<Write>, room: Option<Room>, users: Users)
    requires op.Create? && pc != Commit && pc != Lock && At(op, pc, writes, room, users)
    requires Exec(op, pc, ApplyAll(writes, room), users).Next?
    ensures var o := Exec(op, pc, ApplyAll(writes, room), users);
            At(op, o.pc, writes + o.writes, room, users)
  {
    var o := Exec(op, pc, ApplyAll(writes, room), users);
    ApplyAllUpTo2(writes, room);
    ApplyAllUpTo2(writes + o.writes, room);
  }

  lemma LeaveAdvances(op: Op, pc: Pc, writes: seq<Write>, room: Option<Room>, users: Users)
    requires op.Leave? && pc != Commit && pc != Lock && At(op, pc, writes, room, users)
    requires Exec(op, pc, ApplyAll(writes, room), users).Next?
    ensures var o := Exec(op, pc, ApplyAll(writes, room), users);
            At(op, o.pc, writes + o.writes, room, users)
  {
    var o := Exec(op, pc, ApplyAll(writes, room), users);
    ApplyAllUpTo2(writes, room);
    ApplyAllUpTo2(writes + o.writes, room);
  }

  lemma StepDownAdvances(op: Op, pc: Pc, writes: seq<Write>, room: Option<Room>, users: Users)
    requires op.StepDown? && pc != Commit && pc != Lock && At(op, pc, writes, room, users)
    requires Exec(op, pc, ApplyAll(writes, room), users).Next?
    ensures var o := Exec(op, pc, ApplyAll(writes, room), users);
            At(op, o.pc, writes + o.writes, room, users)
  {
    var o := Exec(op, pc, ApplyAll(writes, room), users);
    ApplyAllUpTo2(writes, room);
    ApplyAllUpTo2(writes + o.writes, room);
  }

  lemma SendAdvances(op: Op, pc: Pc, writes: seq<Write>, room: Option<Room>, users: Users)
    requires op.Send? && pc != Commit && pc != Lock && At(op, pc, writes, room, users)
    requires Exec(op, pc, ApplyAll(writes, room), users).Next?
    ensures var o := Exec(op, pc, ApplyAll(writes, room), users);
            At(op, o.pc, writes + o.writes, room, users)
  {
    var o := Exec(op, pc, ApplyAll(writes, room), users);
    ApplyAllUpTo2(writes, room);
    ApplyAllUpTo2(writes + o.writes, room);
  }

  lemma ReplyAdvances(op: Op, pc: Pc, writes: seq<Write>, room: Option<Room>, users: Users)
    requires (op.Accept? || op.Reject?) && pc != Commit && pc != Lock && At(op, pc, writes, room, users)
    requires Exec(op, pc, ApplyAll(writes, room), users).Next?
    ensures var o := Exec(op, pc, ApplyAll(writes, room), users);
            At(op, o.pc, writes + o.writes, room, users)
  {
    var o := Exec(op, pc, ApplyAll(writes, room), users);
    ApplyAllUpTo2(writes, room);
    ApplyAllUpTo2(writes + o.writes, room);
  }

  /** One statement, seeing the committed rows and its own writes, takes a transaction one step further. */
  lemma StatementAdvances(op: Op, pc: Pc, writes: seq<Write>, room: Option<Room>, users: Users)
    requires pc != Commit && At(op, pc, writes, room, users)
    requires Exec(op, pc, ApplyAll(writes, room), users).Next?
    ensures var o := Exec(op, pc, ApplyAll(writes, room), users);
            At(op, o.pc, writes + o.writes, room, users)
  {
    if pc == Lock {
    } else if op.Create? {
      CreateAdvances(op, pc, writes, room, users);
    } else if op.Leave? {
      LeaveAdvances(op, pc, writes, room, users);
    } else if op.StepDown? {
      StepDownAdvances(op, pc, writes, room, users);
    } else if op.Send? {
      SendAdvances(op, pc, writes, room, users);
    } else {
      ReplyAdvances(op, pc, writes, room, users);
    }
  }

  // ---------------------------------------------------------------- histories

  /** The entries of one kind, in order: those of party `c.value`, or the `users` upserts. */
  function OfClass(entries: seq<Entry>, c: Option<PartyId>): seq<Entry> {
    if entries == [] then []
    else
      var front, e := entries[..|entries| - 1], entries[|entries| - 1];
      OfClass(front, c) + if ClassOf(e) == c then [e] else []
  }

  function ClassOf(e: Entry): Option<PartyId> {
    if e.Committed? then Some(e.op.party) else None
  }

  /** The same entries, in the same order within each party and among the `users` upserts. */
  ghost predicate SameHistory(a: seq<Entry>, b: seq<Entry>) {
    && multiset(a) == multiset(b)
    && forall c :: OfClass(a, c) == OfClass(b, c)
  }

  /** Entries of one party are ordered by the tickets they got with the party's lock. */
  predicate LockOrder(entries: seq<Entry>) {
    forall i, j :: 0 <= i < j < |entries| && entries[i].Committed? && entries[j].Committed?
                   && entries[i].op.party == entries[j].op.party
                   ==> entries[i].ticket < entries[j].ticket
  }

  lemma {:induction false} OfClassInsert(pre: seq<Entry>, e: Entry, suf: seq<Entry>, c: Option<PartyId>)
    requires e.Committed? && Untouched(suf, e.op.party)
    ensures OfClass(pre + [e] + suf, c) == OfClass(pre + suf, c) + if ClassOf(e) == c then [e] else []
  {
    var a, b := pre + [e] + suf, pre + suf;
    if suf == [] {
      assert a[..|a| - 1] == pre && b == pre;
    } else {
      var x := suf[|suf| - 1];
      assert x in suf;
      assert a[..|a| - 1] == pre + [e] + suf[..|suf| - 1] && b[..|b| - 1] == pre + suf[..|suf| - 1];
      OfClassInsert(pre, e, suf[..|suf| - 1], c);
    }
  }

  lemma SameHistorySnoc(a: seq<Entry>, b: seq<Entry>, e: Entry, pre: seq<Entry>, suf: seq<Entry>)
    requires SameHistory(a, b) && b == pre + suf
    requires if e.Committed? then Untouched(suf, e.op.party) else suf == []
    ensures SameHistory(a + [e], pre + [e] + suf)
  {
    forall c
      ensures OfClass(a + [e], c) == OfClass(pre + [e] + suf, c)
    {
      assert (a + [e])[..|a|] == a;
      if e.Committed? {
        OfClassInsert(pre, e, suf, c);
      } else {
        assert pre + [e] + suf == b + [e] && (b + [e])[..|b|] == b;
      }
    }
    assert multiset(b) == multiset(pre) + multiset(suf);
  }

  // ---------------------------------------------------------------- invariant

  /** The `users` rows a transaction's outcome depends on: those a Send read the flag from, else the present ones. */
  ghost function UsersSeen(d: Db, s: Sys, t: Txn): Users {
    if t.point.Some? && t.point.value <= |s.serial| then UsersAfter(d.users, s.serial[..t.point.value]) else s.db.users
  }

  predicate PastFlag(op: Op, pc: Pc) {
    op.Send? && (pc == SendInsertPending || pc == SendInsertAccepted || pc == SendJoin || pc == Commit)
  }

  ghost predicate TxnOk(d: Db, s: Sys, t: Txn) {
    && At(t.op, t.pc, t.writes, RowsOf(s.db, t.op.party), UsersSeen(d, s, t))
    && t.point.Some? == PastFlag(t.op, t.pc)
    && PointOk(s.serial, t)
    && LastTicket(s.serial, s.tick, t)
  }

  /** Nothing on the transaction's party was committed after its point. */
  predicate PointOk(serial: seq<Entry>, t: Txn) {
    t.point.Some? ==> t.point.value <= |serial| && Untouched(serial[t.point.value..], t.op.party)
  }

  /** A transaction that has its party's lock got it after every committed one of the party. */
  predicate LastTicket(serial: seq<Entry>, tick: nat, t: Txn) {
    t.pc != Lock ==> t.ticket < tick && forall e :: e in serial && Touches(e, t.op.party) ==> e.ticket < t.ticket
  }

  ghost predicate LocksOk(s: Sys) {
    && (forall id :: id in s.txns && s.txns[id].pc != Lock ==>
          s.txns[id].op.party in s.locks && s.locks[s.txns[id].op.party] == id)
    && (forall p :: p in s.locks ==>
          s.locks[p] in s.txns && s.txns[s.locks[p]].op.party == p && s.txns[s.locks[p]].pc != Lock)
  }

  ghost predicate HistoryOk(d: Db, s: Sys) {
    && Replay(d, s.serial) == Some(s.db)
    && SameHistory(s.log, s.serial)
    && LockOrder(s.serial)
    && (forall e :: e in s.serial && e.Committed? ==> e.ticket < s.tick)
  }

  ghost predicate TxnsOk(d: Db, s: Sys) {
    forall id :: id in s.txns ==> TxnOk(d, s, s.txns[id])
  }

  ghost predicate Inv(d: Db, s: Sys) {
    LocksOk(s) && HistoryOk(d, s) && TxnsOk(d, s)
  }

  lemma {:induction false} UsersAfterGrows(users: Users, entries: seq<Entry>, n: nat)
    requires n <= |entries|
    ensures Grows(UsersAfter(users, entries[..n]), UsersAfter(users, entries))
  {
    if n < |entries| {
      var front := entries[..|entries| - 1];
      assert front[..n] == entries[..n];
      UsersAfterGrows(users, front, n);
    } else {
      assert entries[..n] == entries;
    }
  }

  /** Before the flag is read, nothing a transaction did depends on rows of `users` that can still change. */
  lemma AtGrows(op: Op, pc: Pc, writes: seq<Write>, room: Option<Room>, users: Users, users': Users)
    requires At(op, pc, writes, room, users) && Grows(users, users') && !PastFlag(op, pc)
    ensures At(op, pc, writes, room, users')
  {
  }

  /** After the flag is read, later sign-ins do not change what the Send does. */
  lemma ExecAfterFlag(op: Op, pc: Pc, writes: seq<Write>, room: Option<Room>, users: Users, users': Users)
    requires At(op, pc, writes, room, users) && Grows(users, users') && PastFlag(op, pc) && pc != Commit
    ensures Exec(op, pc, ApplyAll(writes, room), users) == Exec(op, pc, ApplyAll(writes, room), users')
  {
    ApplyAllUpTo2(writes, room);
  }

  lemma SameView(d: Db, s: Sys, s': Sys, t: Txn)
    requires TxnOk(d, s, t) && s'.db == s.db && s'.serial == s.serial && s'.tick == s.tick
    ensures TxnOk(d, s', t)
  {
    hide At, UsersAfter;
  }

  lemma NewTxnOk(d: Db, s: Sys, op: Op)
    ensures TxnOk(d, s, Txn(op, Lock, [], 0, None))
  {
  }

  lemma KeepBegin(d: Db, s: Sys, id: nat, op: Op)
    requires Inv(d, s)
    ensures Inv(d, Do(s, Begin(id, op)))
  {
    var s' := Do(s, Begin(id, op));
    hide TxnOk;
    forall i | i in s'.txns
      ensures TxnOk(d, s', s'.txns[i])
    {
      if i in s.txns {
        SameView(d, s, s', s.txns[i]);
      } else {
        NewTxnOk(d, s', op);
      }
    }
    hide HistoryOk;
    assert HistoryOk(d, s') by {
      HistoryStays(d, s, s');
    }
  }

  lemma HistoryStays(d: Db, s: Sys, s': Sys)
    requires HistoryOk(d, s) && s'.db == s.db && s'.log == s.log && s'.serial == s.serial && s'.tick == s.tick
    ensures HistoryOk(d, s')
  {
    hide Replay, SameHistory, LockOrder;
  }

  lemma DroppedKeepsLocks(s: Sys, id: nat)
    requires LocksOk(s) && id in s.txns
    ensures LocksOk(Dropped(s, id))
  {
  }

  lemma KeepDropped(d: Db, s: Sys, id: nat)
    requires Inv(d, s) && id in s.txns
    ensures Inv(d, Dropped(s, id))
  {
    hide TxnOk, HistoryOk, LocksOk;
    var s' := Dropped(s, id);
    DroppedKeepsLocks(s, id);
    forall i | i in s'.txns
      ensures TxnOk(d, s', s'.txns[i])
    {
      SameView(d, s, s', s.txns[i]);
    }
    HistoryStays(d, s, s');
  }

  lemma UpsertedHistoryOk(d: Db, s: Sys, e: Entry)
    requires HistoryOk(d, s) && !e.Committed?
    ensures HistoryOk(d, Upserted(s, e))
  {
    ReplaySnoc(d, s.serial, e);
    HistoryUpserted(s, e);
    hide Replay, SameHistory, LockOrder;
    assert forall x :: x in s.serial + [e] <==> x in s.serial || x == e;
  }

  lemma {:induction false} KeepUpserted(d: Db, s: Sys, e: Entry)
    requires Inv(d, s) && !e.Committed?
    ensures Inv(d, Upserted(s, e))
  {
    hide TxnOk, HistoryOk;
    var s' := Upserted(s, e);
    UpsertedHistoryOk(d, s, e);
    forall i | i in s'.txns
      ensures TxnOk(d, s', s'.txns[i])
    {
      UpsertKeepsTxn(d, s, e, i);
    }
  }

  lemma HistoryUpserted(s: Sys, e: Entry)
    requires SameHistory(s.log, s.serial) && LockOrder(s.serial) && !e.Committed?
    ensures SameHistory(s.log + [e], s.serial + [e]) && LockOrder(s.serial + [e])
  {
    SameHistorySnoc(s.log, s.serial, e, s.serial, []);
    assert s.serial + [] == s.serial && s.serial + [e] + [] == s.serial + [e];
  }

  lemma UpsertKeepsPoint(d: Db, s: Sys, e: Entry, t: Txn)
    requires PointOk(s.serial, t) && LastTicket(s.serial, s.tick, t) && !e.Committed?
    ensures PointOk(s.serial + [e], t) && LastTicket(s.serial + [e], s.tick, t)
    ensures t.point.Some? ==> UsersSeen(d, Upserted(s, e), t) == UsersSeen(d, s, t)
  {
    hide UsersAfter;
    if t.point.Some? {
      CutSnoc(s.serial, e, t.point.value);
    }
    assert forall x :: x in s.serial + [e] <==> x in s.serial || x == e;
  }

  lemma UpsertKeepsTxn(d: Db, s: Sys, e: Entry, i: nat)
    requires Inv(d, s) && !e.Committed? && i in s.txns
    ensures TxnOk(d, Upserted(s, e), s.txns[i])
  {
    hide At, HistoryOk, LocksOk, PointOk, LastTicket, UsersAfter;
    var s', t := Upserted(s, e), s.txns[i];
    assert TxnOk(d, s, t);
    UpsertKeepsPoint(d, s, e, t);
    if t.point.None? {
      AtGrows(t.op, t.pc, t.writes, RowsOf(s.db, t.op.party), s.db.users, s'.db.users);
    }
  }

  lemma CutSnoc(entries: seq<Entry>, e: Entry, n: nat)
    requires n <= |entries|
    ensures (entries + [e])[..n] == entries[..n]
    ensures (entries + [e])[n..] == entries[n..] + [e]
  {
  }

  lemma AtLockIsFree(op: Op, writes: seq<Write>, room: Option<Room>, users: Users, room': Option<Room>, users': Users)
    requires At(op, Lock, writes, room, users)
    ensures At(op, Lock, writes, room', users')
  {
  }

  lemma AtCommitIsEffect(op: Op, writes: seq<Write>, room: Option<Room>, users: Users)
    requires At(op, Commit, writes, room, users)
    ensures Effect(op, room, users) == Ok(ApplyAll(writes, room))
  {
  }

  lemma StepKeepsAt(d: Db, s: Sys, t: Txn)
    requires HistoryOk(d, s) && TxnOk(d, s, t) && t.pc != Commit
    requires Exec(t.op, t.pc, ApplyAll(t.writes, RowsOf(s.db, t.op.party)), s.db.users).Next?
    ensures var o := Exec(t.op, t.pc, ApplyAll(t.writes, RowsOf(s.db, t.op.party)), s.db.users);
            At(t.op, o.pc, t.writes + o.writes, RowsOf(s.db, t.op.party), UsersSeen(d, s, t))
            && (PastFlag(t.op, o.pc) <==> PastFlag(t.op, t.pc) || t.pc == SendFlag)
  {
    var room, seen := RowsOf(s.db, t.op.party), UsersSeen(d, s, t);
    if t.point.Some? {
      ReplayUsers(d, s.serial);
      UsersAfterGrows(d.users, s.serial, t.point.value);
      ExecAfterFlag(t.op, t.pc, t.writes, room, seen, s.db.users);
    }
    StatementAdvances(t.op, t.pc, t.writes, room, seen);
  }

  lemma StepKeepsTxn(d: Db, s: Sys, id: nat, o: Outcome)
    requires Inv(d, s) && id in s.txns && s.txns[id].pc != Commit && !Waits(s, id)
    requires o.Next? && o == Exec(s.txns[id].op, s.txns[id].pc,
                                  ApplyAll(s.txns[id].writes, RowsOf(s.db, s.txns[id].op.party)), s.db.users)
    ensures TxnOk(d, Executed(s, id), Executed(s, id).txns[id])
  {
    hide Effect, At, Exec;
    var t, t' := s.txns[id], Executed(s, id).txns[id];
    assert TxnOk(d, s, t);
    StepKeepsAt(d, s, t);
    assert s.serial[..|s.serial|] == s.serial && s.serial[|s.serial|..] == [];
    ReplayUsers(d, s.serial);
  }

  lemma ExecLeavesLock(op: Op, pc: Pc, view: Option<Room>, users: Users)
    ensures Exec(op, pc, view, users).Next? ==> Exec(op, pc, view, users).pc != Lock
  {
  }

  lemma ExecutedKeepsLocks(s: Sys, id: nat)
    requires LocksOk(s) && id in s.txns && s.txns[id].pc != Commit && !Waits(s, id)
    ensures LocksOk(Executed(s, id))
  {
    hide Effect, Exec, ApplyAll;
    var t := s.txns[id];
    ExecLeavesLock(t.op, t.pc, ApplyAll(t.writes, RowsOf(s.db, t.op.party)), s.db.users);
  }

  lemma FinishedKeepsLocks(s: Sys, id: nat)
    requires LocksOk(s) && id in s.txns && s.txns[id].pc == Commit
    ensures LocksOk(Finished(s, id))
  {
    hide ApplyAll;
  }

  lemma InsertedHas(serial: seq<Entry>, n: nat, e: Entry)
    requires n <= |serial|
    ensures forall x :: x in Inserted(serial, n, e) <==> x in serial || x == e
  {
    assert serial == serial[..n] + serial[n..];
  }

  lemma InsertedAt(serial: seq<Entry>, n: nat, e: Entry)
    requires n <= |serial|
    ensures var all := Inserted(serial, n, e);
            |all| == |serial| + 1
            && forall k :: 0 <= k < |all| ==> all[k] == if k < n then serial[k] else if k == n then e else serial[k - 1]
    ensures forall x :: x in Inserted(serial, n, e) <==> x in serial || x == e
  {
    InsertedHas(serial, n, e);
  }

  lemma InsertedKeepsOrder(serial: seq<Entry>, n: nat, e: Entry)
    requires LockOrder(serial) && n <= |serial| && e.Committed?
    requires Untouched(serial[n..], e.op.party)
    requires forall x :: x in serial && Touches(x, e.op.party) ==> x.ticket < e.ticket
    ensures LockOrder(Inserted(serial, n, e))
  {
    InsertedAt(serial, n, e);
    hide Inserted;
    var all := Inserted(serial, n, e);
    forall k | n < k < |all|
      ensures all[k] in serial[n..]
    {
      assert all[k] == serial[n..][k - 1 - n];
    }
  }

  lemma {:induction false} KeepExecuted(d: Db, s: Sys, id: nat)
    requires Inv(d, s) && id in s.txns && s.txns[id].pc != Commit && !Waits(s, id)
    ensures Inv(d, Executed(s, id))
  {
    hide Effect, At, Exec, LocksOk, ApplyAll;
    ExecutedKeepsLocks(s, id);
    var t := s.txns[id];
    var o := Exec(t.op, t.pc, ApplyAll(t.writes, RowsOf(s.db, t.op.party)), s.db.users);
    if o.Fails? {
      KeepDropped(d, s, id);
    } else {
      var s' := Executed(s, id);
      StepKeepsTxn(d, s, id, o);
      forall i | i in s'.txns
        ensures TxnOk(d, s', s'.txns[i])
      {
        if i != id {
          assert TxnOk(d, s, s.txns[i]);
        }
      }
    }
  }

  /** The commit is what running the transaction alone at its place in the serial order does. */
  lemma CommitReplays(d: Db, s: Sys, id: nat)
    requires Inv(d, s) && id in s.txns && s.txns[id].pc == Commit
    ensures Replay(d, Finished(s, id).serial) == Some(Finished(s, id).db)
  {
    hide Effect, At, Exec;
    var t := s.txns[id];
    assert TxnOk(d, s, t);
    var n := PlaceOf(s, t);
    var pre, suf, e := s.serial[..n], s.serial[n..], Committed(t.op, t.ticket);
    assert pre + suf == s.serial;
    UntouchedRows(d, pre, suf, t.op.party);
    ReplayUsers(d, pre);
    ReplaySnoc(d, pre, e);
    var room := ApplyAll(t.writes, RowsOf(s.db, t.op.party));
    if t.point.None? {
      assert pre == s.serial;
    }
    AtCommitIsEffect(t.op, t.writes, RowsOf(s.db, t.op.party), UsersSeen(d, s, t));
    assert UsersSeen(d, s, t) == Replay(d, pre).value.users;
    ReplayInsert(d, pre, e, suf, room);
  }

  /** Where a transaction's point lies after an insertion, the users it saw and the entries after it are the same. */
  lemma PointSurvives(users: Users, serial: seq<Entry>, n: nat, e: Entry, m: nat, p: PartyId)
    requires n <= |serial| && m <= |serial| && e.Committed? && e.op.party != p
    requires Untouched(serial[m..], p)
    ensures var m' := if m > n then m + 1 else m;
            var after := Inserted(serial, n, e);
            m' <= |after| && Untouched(after[m'..], p)
            && UsersAfter(users, after[..m']) == UsersAfter(users, serial[..m])
  {
    var pre, suf, after := serial[..n], serial[n..], Inserted(serial, n, e);
    if m <= n {
      assert after[..m] == serial[..m];
      assert after[m..] == serial[m..n] + [e] + suf;
      assert serial[m..] == serial[m..n] + suf;
    } else {
      assert after[..m + 1] == pre + [e] + serial[n..m];
      assert serial[..m] == pre + serial[n..m];
      UsersSkipCommitted(users, pre, e, serial[n..m]);
      assert after[m + 1..] == serial[m..];
    }
  }

  /** What a commit changes for another transaction on another party. */
  lemma FinishedIs(s: Sys, id: nat, i: nat)
    requires id in s.txns && i in s.txns && i != id
    ensures var s', t := Finished(s, id), s.txns[id];
            var n := PlaceOf(s, t);
            && i in s'.txns && s'.txns[i] == Shifted(s.txns[i], n)
            && s'.serial == Inserted(s.serial, n, Committed(t.op, t.ticket))
            && s'.db.users == s.db.users && s'.tick == s.tick
            && (s.txns[i].op.party != t.op.party ==> RowsOf(s'.db, s.txns[i].op.party) == RowsOf(s.db, s.txns[i].op.party))
  {
    hide Inserted, ApplyAll;
  }

  lemma CommitKeepsWaiting(d: Db, s: Sys, id: nat, i: nat)
    requires Inv(d, s) && id in s.txns && s.txns[id].pc == Commit
    requires i in s.txns && i != id && s.txns[i].pc == Lock
    ensures TxnOk(d, Finished(s, id), Finished(s, id).txns[i])
  {
    var s', u := Finished(s, id), s.txns[i];
    assert TxnOk(d, s, u);
    FinishedIs(s, id, i);
    hide Inv, At, Finished, UsersAfter, Inserted;
    AtLockIsFree(u.op, u.writes, RowsOf(s.db, u.op.party), UsersSeen(d, s, u),
                 RowsOf(s'.db, u.op.party), UsersSeen(d, s', s'.txns[i]));
  }

  lemma TicketSurvives(serial: seq<Entry>, n: nat, e: Entry, tick: nat, u: Txn)
    requires n <= |serial| && e.Committed? && e.op.party != u.op.party && LastTicket(serial, tick, u)
    ensures LastTicket(Inserted(serial, n, e), tick, Shifted(u, n))
  {
    InsertedHas(serial, n, e);
    hide Inserted;
  }

  lemma SeenSurvives(d: Db, s: Sys, s': Sys, n: nat, e: Entry, u: Txn)
    requires n <= |s.serial| && e.Committed? && e.op.party != u.op.party && PointOk(s.serial, u)
    requires s'.serial == Inserted(s.serial, n, e) && s'.db.users == s.db.users
    ensures UsersSeen(d, s', Shifted(u, n)) == UsersSeen(d, s, u) && PointOk(s'.serial, Shifted(u, n))
  {
    if u.point.Some? {
      PointSurvives(d.users, s.serial, n, e, u.point.value, u.op.party);
    }
    hide UsersAfter, Untouched, Inserted;
  }

  lemma CommitKeepsRunning(d: Db, s: Sys, id: nat, i: nat)
    requires Inv(d, s) && id in s.txns && s.txns[id].pc == Commit
    requires i in s.txns && i != id && s.txns[i].pc != Lock
    ensures TxnOk(d, Finished(s, id), Finished(s, id).txns[i])
  {
    hide At, UsersSeen, PointOk, LastTicket, HistoryOk, Finished, Inserted, RowsOf;
    var s', t, u := Finished(s, id), s.txns[id], s.txns[i];
    assert TxnOk(d, s, t) && TxnOk(d, s, u);
    assert u.op.party != t.op.party;
    hide Inv;
    FinishedIs(s, id, i);
    var n, e := PlaceOf(s, t), Committed(t.op, t.ticket);
    SeenSurvives(d, s, s', n, e, u);
    TicketSurvives(s.serial, n, e, s.tick, u);
  }

  lemma CommitKeepsOthers(d: Db, s: Sys, id: nat, i: nat)
    requires Inv(d, s) && id in s.txns && s.txns[id].pc == Commit
    requires i in s.txns && i != id
    ensures TxnOk(d, Finished(s, id), Finished(s, id).txns[i])
  {
    hide Inv, TxnOk, Finished;
    if s.txns[i].pc == Lock {
      CommitKeepsWaiting(d, s, id, i);
    } else {
      CommitKeepsRunning(d, s, id, i);
    }
  }

  lemma KeepFinished(d: Db, s: Sys, id: nat)
    requires Inv(d, s) && id in s.txns && s.txns[id].pc == Commit
    ensures Inv(d, Finished(s, id))
  {
    hide Effect, At, Exec, LocksOk, ApplyAll, Replay, LockOrder, SameHistory, OfClass, UsersAfter;
    FinishedKeepsLocks(s, id);
    var s', t := Finished(s, id), s.txns[id];
    assert TxnOk(d, s, t);
    var n := PlaceOf(s, t);
    var pre, suf, e := s.serial[..n], s.serial[n..], Committed(t.op, t.ticket);
    assert pre + suf == s.serial;
    CommitReplays(d, s, id);
    InsertedKeepsOrder(s.serial, n, e);
    InsertedAt(s.serial, n, e);
    SameHistorySnoc(s.log, s.serial, e, pre, suf);
    forall i | i in s'.txns
      ensures TxnOk(d, s', s'.txns[i])
    {
      CommitKeepsOthers(d, s, id, i);
    }
  }

  lemma KeepStart(d: Db)
    ensures Inv(d, Start(d))
  {
    assert multiset([]) == multiset(Start(d).serial);
  }

  lemma {:induction false} DoKeepsInv(d: Db, s: Sys, a: Action)
    requires Inv(d, s)
    ensures Inv(d, Do(s, a))
  {
    hide Inv;
    match a
    case Begin(id, op) => KeepBegin(d, s, id, op);
    case Statement(id) =>
      if id in s.txns && s.txns[id].pc != Commit && !Waits(s, id) { KeepExecuted(d, s, id); }
    case Finish(id) =>
      if id in s.txns && s.txns[id].pc == Commit { KeepFinished(d, s, id); }
    case Abort(id) =>
      if id in s.txns { KeepDropped(d, s, id); }
    case UpsertUser(u) => KeepUpserted(d, s, SignedIn(u));
    case UpsertFriend(u) => KeepUpserted(d, s, FriendAdded(u));
  }

  lemma {:induction false} RunKeepsInv(d: Db, actions: seq<Action>)
    ensures Inv(d, Run(d, actions))
  {
    if actions == [] {
      KeepStart(d);
    } else {
      RunKeepsInv(d, actions[..|actions| - 1]);
      DoKeepsInv(d, Run(d, actions[..|actions| - 1]), actions[|actions| - 1]);
    }
  }

  // ----------------------------------------------------------------- theorems

  /** The order in which the machine places the committed entries is such a serial order. */
  lemma {:induction false} SerialOrder(d: Db, actions: seq<Action>)
    ensures Replay(d, Run(d, actions).serial) == Some(Run(d, actions).db)
    ensures SameHistory(Run(d, actions).log, Run(d, actions).serial)
    ensures LockOrder(Run(d, actions).serial)
  {
    RunKeepsInv(d, actions);
  }

  /**
   * After any interleaving the committed rows are those of running the committed
   * entries one at a time, every one of them succeeding, in an order that has the same
   * entries as the commit order, in the same order within each party, which is the
   * order in which the party's lock was granted.
   */
  lemma {:induction false} Serialisable(d: Db, actions: seq<Action>)
    ensures exists serial ::
              && Replay(d, serial) == Some(Run(d, actions).db)
              && SameHistory(Run(d, actions).log, serial)
              && LockOrder(serial)
  {
    SerialOrder(d, actions);
  }

  lemma GoodRow(r: Room, users: Users)
    requires RoomOk(r, users)
    ensures r.leader in r.members
    ensures forall u :: u in r.members ==> u in users
    ensures forall i :: i in r.invites ==> r.invites[i].user in users
    ensures forall i :: i in r.invites && r.invites[i].status == Pending ==> r.invites[i].user !in r.members
    ensures forall i, j :: i in r.invites && j in r.invites && i != j
                           && r.invites[i].status == Pending && r.invites[j].status == Pending ==>
              r.invites[i].user != r.invites[j].user
  {
    assert forall i :: i in r.invites && r.invites[i].status == Pending ==> IsPending(r, i, r.invites[i].user);
  }

  /** In every reachable state of a good database each party's rows are good. */
  lemma {:induction false} ReachableRowsAreGood(d: Db, actions: seq<Action>)
    requires DbOk(d)
    ensures DbOk(Run(d, actions).db)
    ensures var db := Run(d, actions).db;
            forall p :: p in db.rooms ==>
              var r := db.rooms[p];
              && r.leader in r.members
              && (forall u :: u in r.members ==> u in db.users)
              && (forall i :: i in r.invites ==> r.invites[i].user in db.users)
              && (forall i :: i in r.invites && r.invites[i].status == Pending ==> r.invites[i].user !in r.members)
              && (forall i, j :: i in r.invites && j in r.invites && i != j
                                 && r.invites[i].status == Pending && r.invites[j].status == Pending ==>
                    r.invites[i].user != r.invites[j].user)
  {
    SerialOrder(d, actions);
    ReplayKeepsDb(d, Run(d, actions).serial);
    var db := Run(d, actions).db;
    hide Run, RoomOk;
    forall p | p in db.rooms
      ensures RoomOk(db.rooms[p], db.users)
    {
    }
    forall p | p in db.rooms {
      GoodRow(db.rooms[p], db.users);
    }
  }

  /** No reachable statement fails on the memberships key, on a pending invite's index, or on an accepting user's row. */
  lemma {:induction false} NoReachableViolation(d: Db, actions: seq<Action>, id: nat)
    requires DbOk(d)
    requires id in Run(d, actions).txns && Run(d, actions).txns[id].pc != Commit
    ensures var s := Run(d, actions);
            var t := s.txns[id];
            var o := Exec(t.op, t.pc, ApplyAll(t.writes, RowsOf(s.db, t.op.party)), s.db.users);
            && o != Fails(DuplicateMember)
            && o != Fails(DuplicatePending)
            && (t.op.Accept? ==> o != Fails(UnknownUser))
            && (t.pc != Lock ==> o != Fails(NoParty))
  {
    var s := Run(d, actions);
    var t := s.txns[id];
    RunKeepsInv(d, actions);
    ReachableRowsAreGood(d, actions);
    assert TxnOk(d, s, t) && Replay(d, s.serial) == Some(s.db);
    if t.point.Some? {
      ReplayUsers(d, s.serial);
      UsersAfterGrows(d.users, s.serial, t.point.value);
    }
    hide Run, Inv, At, Exec, ApplyAll, Replay, UsersAfter, DbOk;
    assert Grows(UsersSeen(d, s, t), s.db.users);
    NoViolation(t.op, t.pc, t.writes, RowsOf(s.db, t.op.party), UsersSeen(d, s, t), s.db.users);
  }

  lemma SendHasNoViolation(op: Op, pc: Pc, writes: seq<Write>, room: Option<Room>, seen: Users, users: Users)
    requires op.Send?
    requires At(op, pc, writes, room, seen) && Grows(seen, users) && pc != Commit
    requires room.Some? ==> RoomOk(room.value, users)
    ensures var o := Exec(op, pc, ApplyAll(writes, room), users);
            && o != Fails(DuplicateMember)
            && o != Fails(DuplicatePending)
            && (op.Accept? ==> o != Fails(UnknownUser))
            && (pc != Lock ==> o != Fails(NoParty))
  {
    hide Effect;
    ApplyAllUpTo2(writes, room);
  }

  lemma AcceptHasNoViolation(op: Op, pc: Pc, writes: seq<Write>, room: Option<Room>, seen: Users, users: Users)
    requires op.Accept?
    requires At(op, pc, writes, room, seen) && Grows(seen, users) && pc != Commit
    requires room.Some? ==> RoomOk(room.value, users)
    ensures var o := Exec(op, pc, ApplyAll(writes, room), users);
            && o != Fails(DuplicateMember)
            && o != Fails(DuplicatePending)
            && (op.Accept? ==> o != Fails(UnknownUser))
            && (pc != Lock ==> o != Fails(NoParty))
  {
    hide Effect;
    ApplyAllUpTo2(writes, room);
    if room.Some? && HasPending(room.value, op.user) {
      assert IsPending(room.value, PendingInvite(room.value, op.user), op.user);
    }
  }

  lemma NoViolation(op: Op, pc: Pc, writes: seq<Write>, room: Option<Room>, seen: Users, users: Users)
    requires At(op, pc, writes, room, seen) && Grows(seen, users) && pc != Commit
    requires room.Some? ==> RoomOk(room.value, users)
    ensures var o := Exec(op, pc, ApplyAll(writes, room), users);
            && o != Fails(DuplicateMember)
            && o != Fails(DuplicatePending)
            && (op.Accept? ==> o != Fails(UnknownUser))
            && (pc != Lock ==> o != Fails(NoParty))
  {
    if op.Send? {
      SendHasNoViolation(op, pc, writes, room, seen, users);
    } else if op.Accept? {
      AcceptHasNoViolation(op, pc, writes, room, seen, users);
    } else {
      hide Effect, RoomOk;
      ApplyAllUpTo2(writes, room);
    }
  }
}
