/**
 * Party transactions as sequences of statements, interleaved in any way.
 *
 * Given semantics (READ COMMITTED with row locks): a statement sees the committed
 * rows at its start plus its own transaction's writes; writes become visible to
 * others, all at once, at commit; `SELECT ... FOR UPDATE` on a party row waits
 * while another transaction holds it and then returns the latest committed row,
 * or none. A statement or a whole transaction can fail at any point, which
 * discards the transaction's writes and frees its lock.
 */
module PartyInterleaving {
  import opened Wrappers
  import opened Party

  datatype Db = Db(rooms: map<PartyId, Room>, users: Users)

  function RowsOf(d: Db, p: PartyId): Option<Room> {
    if p in d.rooms then Some(d.rooms[p]) else None
  }

  function Put(d: Db, p: PartyId, room: Option<Room>): Db {
    d.(rooms := if room.Some? then d.rooms[p := room.value] else d.rooms - {p})
  }

  // ---------------------------------------------------------------- statements

  datatype Write =
    | PutParty(leader: UserId)
    | SetLeader(leader: UserId)
    | PutMember(user: UserId, at: Time)
    | DelMember(user: UserId)
    | PutInvite(id: InviteId, invite: Invite)
    | SetStatus(id: InviteId, status: Status)
    | DropParty

  /** One write on the party's rows; a statement that matches no row changes nothing. */
  function Apply(w: Write, room: Option<Room>): Option<Room> {
    if w.PutParty? then Some(Room(w.leader, map[], map[]))
    else if room.None? then None
    else
      var r := room.value;
      match w
      case PutParty(_) => room
      case SetLeader(u) => Some(r.(leader := u))
      case PutMember(u, at) => Some(r.(members := r.members[u := at]))
      case DelMember(u) => Some(r.(members := r.members - {u}))
      case PutInvite(i, invite) => Some(r.(invites := r.invites[i := invite]))
      case SetStatus(i, status) =>
        if i in r.invites then Some(r.(invites := r.invites[i := r.invites[i].(status := status)])) else room
      case DropParty => None
  }

  function ApplyAll(writes: seq<Write>, room: Option<Room>): Option<Room> {
    if writes == [] then room
    else Apply(writes[|writes| - 1], ApplyAll(writes[..|writes| - 1], room))
  }

  /** The next statement of a transaction, with the values its earlier statements read. */
  datatype Pc =
    | Lock
    | CreateJoin
    | LeaveDelete(leader: UserId) | LeaveSuccessor | LeavePromote(successor: UserId) | LeaveCount | LeaveDrop
    | StepCount | StepTarget | StepUpdate
    | SendMember | SendPending | SendFlag | SendInsertPending | SendInsertAccepted | SendJoin
    | AcceptFind | AcceptJoin(found: InviteId) | AcceptMark(found: InviteId)
    | RejectFind | RejectMark(found: InviteId)
    | Commit

  datatype Outcome = Next(pc: Pc, writes: seq<Write>) | Fails(error: Error)

  ghost function Locked(op: Op, view: Option<Room>, users: Users): Outcome {
    if op.Create? then
      if view.Some? then Fails(DuplicateParty)
      else if op.leader !in users then Fails(UnknownUser)
      else Next(CreateJoin, [PutParty(op.leader)])
    else if view.None? then Fails(NoParty)
    else
      match op
      case Leave(_, _) => Next(LeaveDelete(view.value.leader), [])
      case StepDown(_, leader, _) => if view.value.leader != leader then Fails(NotLeader) else Next(StepCount, [])
      case Send(_, leader, _, _, _) => if view.value.leader != leader then Fails(NotLeader) else Next(SendMember, [])
      case Accept(_, _, _) => Next(AcceptFind, [])
      case _ => Next(RejectFind, [])
  }

  /** An insert into `memberships`, with its primary key and its reference to `users`. */
  ghost function Joined(r: Room, users: Users, u: UserId, at: Time, next: Pc): Outcome {
    if u in r.members then Fails(DuplicateMember)
    else if u !in users then Fails(UnknownUser)
    else Next(next, [PutMember(u, at)])
  }

  /** What the statement at `pc` does, given the rows it sees. */
  ghost function Exec(op: Op, pc: Pc, view: Option<Room>, users: Users): Outcome {
    if pc == Lock then Locked(op, view, users)
    else if view.None? then Fails(NoParty)
    else
      var r := view.value;
      match op
      case Create(_, leader, at) => Joined(r, users, leader, at, Commit)
      case Leave(_, u) => (
        match pc
        case LeaveDelete(leader) => Next(if leader == u then LeaveSuccessor else LeaveCount, [DelMember(u)])
        case LeaveSuccessor => Next(if r.members == map[] then LeaveCount else LeavePromote(Earliest(r.members)), [])
        case LeavePromote(successor) => Next(LeaveCount, [SetLeader(successor)])
        case LeaveCount => Next(if |r.members| == 0 then LeaveDrop else Commit, [])
        case _ => Next(Commit, [DropParty])
      )
      case StepDown(_, _, target) => (
        match pc
        case StepCount => if |r.members| < 2 then Fails(NoOtherMember) else Next(StepTarget, [])
        case StepTarget => if target !in r.members then Fails(TargetNotMember) else Next(StepUpdate, [])
        case _ => Next(Commit, [SetLeader(target)])
      )
      case Send(_, leader, target, i, at) => (
        match pc
        case SendMember => if target in r.members then Fails(AlreadyMember) else Next(SendPending, [])
        case SendPending => if HasPending(r, target) then Fails(InvitePending) else Next(SendFlag, [])
        case SendFlag =>
          if target !in users then Fails(UnknownUser)
          else Next(if users[target] then SendInsertPending else SendInsertAccepted, [])
        case SendInsertPending =>
          if i in r.invites then Fails(DuplicateInvite)
          else if HasPending(r, target) then Fails(DuplicatePending)
          else Next(Commit, [PutInvite(i, Invite(target, leader, Pending))])
        case SendInsertAccepted =>
          if i in r.invites then Fails(DuplicateInvite)
          else Next(SendJoin, [PutInvite(i, Invite(target, leader, Accepted))])
        case _ => Joined(r, users, target, at, Commit)
      )
      case Accept(_, u, at) => (
        match pc
        case AcceptFind => if HasPending(r, u) then Next(AcceptJoin(PendingInvite(r, u)), []) else Fails(NoPendingInvite)
        case AcceptJoin(i) => Joined(r, users, u, at, AcceptMark(i))
        case AcceptMark(i) => Next(Commit, [SetStatus(i, Accepted)])
        case _ => Fails(NoPendingInvite)
      )
      case Reject(_, u) => (
        match pc
        case RejectFind => if HasPending(r, u) then Next(RejectMark(PendingInvite(r, u)), []) else Fails(NoPendingInvite)
        case RejectMark(i) => Next(Commit, [SetStatus(i, Rejected)])
        case _ => Fails(NoPendingInvite)
      )
  }

  // ------------------------------------------------------------------- machine

  /** A committed change: a party transaction with the number its lock was granted under, or a `users` upsert. */
  datatype Entry =
    | Committed(op: Op, ticket: nat)
    | SignedIn(user: UserId)
    | FriendAdded(user: UserId)

  /** `point` is where in the serial order a Send read the flag; like `ticket` it is history no step reads. */
  datatype Txn = Txn(op: Op, pc: Pc, writes: seq<Write>, ticket: nat, point: Option<nat>)

  /** `log` is the commit order and `serial` the order the theorem is about; both are history. */
  datatype Sys = Sys(db: Db, locks: map<PartyId, nat>, txns: map<nat, Txn>,
                     log: seq<Entry>, serial: seq<Entry>, tick: nat)

  datatype Action =
    | Begin(id: nat, op: Op)
    | Statement(id: nat)
    | Finish(id: nat)
    | Abort(id: nat)
    | UpsertUser(user: UserId)
    | UpsertFriend(user: UserId)

  function Start(d: Db): Sys {
    Sys(d, map[], map[], [], [], 0)
  }

  function UpsertedUsers(users: Users, e: Entry): Users {
    match e
    case Committed(_, _) => users
    case SignedIn(u) => users[u := true]
    case FriendAdded(u) => if u in users then users else users[u := false]
  }

  function Upserted(s: Sys, e: Entry): Sys {
    s.(db := s.db.(users := UpsertedUsers(s.db.users, e)), log := s.log + [e], serial := s.serial + [e])
  }

  /** The transaction ends without effect: its writes are gone and its lock is free. */
  function Dropped(s: Sys, id: nat): Sys
    requires id in s.txns
  {
    var t := s.txns[id];
    s.(txns := s.txns - {id}, locks := if t.pc == Lock then s.locks else s.locks - {t.op.party})
  }

  predicate Waits(s: Sys, id: nat)
    requires id in s.txns
  {
    s.txns[id].pc == Lock && s.txns[id].op.party in s.locks
  }

  ghost function Executed(s: Sys, id: nat): Sys
    requires id in s.txns && s.txns[id].pc != Commit && !Waits(s, id)
  {
    var t := s.txns[id];
    var p := t.op.party;
    match Exec(t.op, t.pc, ApplyAll(t.writes, RowsOf(s.db, p)), s.db.users)
    case Fails(_) => Dropped(s, id)
    case Next(pc, writes) =>
      var t' := t.(pc := pc, writes := t.writes + writes,
                   ticket := if t.pc == Lock then s.tick else t.ticket,
                   point := if t.pc == SendFlag then Some(|s.serial|) else t.point);
      s.(txns := s.txns[id := t'],
         locks := s.locks[p := id],
         tick := if t.pc == Lock then s.tick + 1 else s.tick)
  }

  function Inserted(serial: seq<Entry>, n: nat, e: Entry): seq<Entry>
    requires n <= |serial|
  {
    serial[..n] + [e] + serial[n..]
  }

  function PlaceOf(s: Sys, t: Txn): nat {
    if t.point.Some? && t.point.value <= |s.serial| then t.point.value else |s.serial|
  }

  function Shifted(t: Txn, n: nat): Txn {
    if t.point.Some? && t.point.value > n then t.(point := Some(t.point.value + 1)) else t
  }

  /** Commit: the writes become visible and the lock is freed. */
  function Finished(s: Sys, id: nat): Sys
    requires id in s.txns
  {
    var t := s.txns[id];
    var p := t.op.party;
    var n := PlaceOf(s, t);
    var e := Committed(t.op, t.ticket);
    Sys(Put(s.db, p, ApplyAll(t.writes, RowsOf(s.db, p))), s.locks - {p},
        map i | i in s.txns && i != id :: Shifted(s.txns[i], n),
        s.log + [e], Inserted(s.serial, n, e), s.tick)
  }

  /** One step; an action that is not enabled leaves the state as it is. */
  ghost function Do(s: Sys, a: Action): Sys {
    match a
    case Begin(id, op) => if id in s.txns then s else s.(txns := s.txns[id := Txn(op, Lock, [], 0, None)])
    case Statement(id) => if id !in s.txns || s.txns[id].pc == Commit || Waits(s, id) then s else Executed(s, id)
    case Finish(id) => if id !in s.txns || s.txns[id].pc != Commit then s else Finished(s, id)
    case Abort(id) => if id !in s.txns then s else Dropped(s, id)
    case UpsertUser(u) => Upserted(s, SignedIn(u))
    case UpsertFriend(u) => Upserted(s, FriendAdded(u))
  }

  ghost function Run(d: Db, actions: seq<Action>): Sys {
    if actions == [] then Start(d)
    else Do(Run(d, actions[..|actions| - 1]), actions[|actions| - 1])
  }

  // ------------------------------------------------------------ serial executions

  ghost function ApplyEntry(d: Db, e: Entry): Option<Db> {
    match e
    case Committed(op, _) => (
      match Effect(op, RowsOf(d, op.party), d.users)
      case Ok(room) => Some(Put(d, op.party, room))
      case Err(_) => None
    )
    case _ => Some(d.(users := UpsertedUsers(d.users, e)))
  }

  /** The entries run one at a time, each succeeding; None when one of them would not. */
  ghost function Replay(d: Db, entries: seq<Entry>): Option<Db> {
    if entries == [] then Some(d)
    else
      var before := Replay(d, entries[..|entries| - 1]);
      if before.None? then None else ApplyEntry(before.value, entries[|entries| - 1])
  }

  function UsersAfter(users: Users, entries: seq<Entry>): Users {
    if entries == [] then users
    else UpsertedUsers(UsersAfter(users, entries[..|entries| - 1]), entries[|entries| - 1])
  }

  predicate Touches(e: Entry, p: PartyId) {
    e.Committed? && e.op.party == p
  }

  predicate Untouched(entries: seq<Entry>, p: PartyId) {
    forall e :: e in entries ==> !Touches(e, p)
  }

  lemma {:induction false} ReplayUsers(d: Db, entries: seq<Entry>)
    requires Replay(d, entries).Some?
    ensures Replay(d, entries).value.users == UsersAfter(d.users, entries)
  {
    if entries != [] {
      ReplayUsers(d, entries[..|entries| - 1]);
    }
  }

  lemma {:induction false} UsersSkipCommitted(users: Users, pre: seq<Entry>, e: Entry, suf: seq<Entry>)
    requires e.Committed?
    ensures UsersAfter(users, pre + [e] + suf) == UsersAfter(users, pre + suf)
  {
    var a, b := pre + [e] + suf, pre + suf;
    if suf == [] {
      assert a[..|a| - 1] == pre && b == pre;
    } else {
      UsersSkipCommitted(users, pre, e, suf[..|suf| - 1]);
      assert a[..|a| - 1] == pre + [e] + suf[..|suf| - 1];
      assert b[..|b| - 1] == pre + suf[..|suf| - 1];
    }
  }

  lemma {:induction false} UntouchedRows(d: Db, pre: seq<Entry>, suf: seq<Entry>, p: PartyId)
    requires Untouched(suf, p)
    requires Replay(d, pre + suf).Some?
    ensures Replay(d, pre).Some?
    ensures RowsOf(Replay(d, pre).value, p) == RowsOf(Replay(d, pre + suf).value, p)
  {
    var b := pre + suf;
    if suf == [] {
      assert b == pre;
    } else {
      assert b[..|b| - 1] == pre + suf[..|suf| - 1];
      assert b[|b| - 1] in suf;
      UntouchedRows(d, pre, suf[..|suf| - 1], p);
    }
  }

  lemma PutCommutes(d: Db, x: Entry, p: PartyId, room: Option<Room>)
    requires !Touches(x, p) && ApplyEntry(d, x).Some?
    ensures ApplyEntry(Put(d, p, room), x) == Some(Put(ApplyEntry(d, x).value, p, room))
  {
    if x.Committed? {
      var q := x.op.party;
      var d' := Put(d, p, room);
      assert RowsOf(d', q) == RowsOf(d, q);
      var after := Effect(x.op, RowsOf(d, q), d.users).value;
      assert Put(d', q, after).rooms == Put(Put(d, q, after), p, room).rooms;
    }
  }

  lemma ReplaySnoc(d: Db, front: seq<Entry>, e: Entry)
    ensures Replay(d, front + [e]) ==
            if Replay(d, front).None? then None else ApplyEntry(Replay(d, front).value, e)
  {
    var all := front + [e];
    assert all[..|all| - 1] == front;
  }

  lemma Snoc(a: seq<Entry>, b: seq<Entry>)
    requires b != []
    ensures a + b == (a + b[..|b| - 1]) + [b[|b| - 1]]
  {
  }

  /** An entry moves to the left past everything that does not touch its party. */
  lemma {:induction false} ReplayInsert(d: Db, pre: seq<Entry>, e: Entry, suf: seq<Entry>, room: Option<Room>)
    requires e.Committed? && Untouched(suf, e.op.party)
    requires Replay(d, pre + suf).Some?
    requires Replay(d, pre).Some? && Replay(d, pre + [e]) == Some(Put(Replay(d, pre).value, e.op.party, room))
    ensures Replay(d, pre + [e] + suf) == Some(Put(Replay(d, pre + suf).value, e.op.party, room))
  {
    if suf == [] {
      assert pre + [e] + suf == pre + [e] && pre + suf == pre;
    } else {
      var front, x := suf[..|suf| - 1], suf[|suf| - 1];
      assert x in suf && Untouched(front, e.op.party);
      hide Replay, Untouched;
      Snoc(pre, suf);
      Snoc(pre + [e], suf);
      ReplaySnoc(d, pre + front, x);
      ReplaySnoc(d, pre + [e] + front, x);
      ReplayInsert(d, pre, e, front, room);
      PutCommutes(Replay(d, pre + front).value, x, e.op.party, room);
    }
  }

  /** Running a good database forward keeps every party's rows good. */
  ghost predicate DbOk(d: Db) {
    forall p :: p in d.rooms ==> RoomOk(d.rooms[p], d.users)
  }

  lemma {:induction false} ReplayKeepsDb(d: Db, entries: seq<Entry>)
    requires DbOk(d) && Replay(d, entries).Some?
    ensures DbOk(Replay(d, entries).value)
  {
    if entries != [] {
      var front, e := entries[..|entries| - 1], entries[|entries| - 1];
      ReplayKeepsDb(d, front);
      var mid := Replay(d, front).value;
      if e.Committed? {
        EffectKeepsRows(e.op, RowsOf(mid, e.op.party), mid.users);
      }
    }
  }
}
