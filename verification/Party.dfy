/**
 * What each party transaction means: the rows of one party before and after.
 *
 * The rows that belong to a party are its `parties` row, its `memberships` rows
 * and its `invites` rows; the foreign keys with ON DELETE CASCADE make the last
 * two exist only together with the first, which is what `Room` says.
 */
module Party {
  import opened Wrappers
  import opened Ordering

  type UserId = int
  type PartyId = int
  type InviteId = int
  type Time = int

  datatype Status = Pending | Accepted | Rejected

  datatype Invite = Invite(user: UserId, inviter: UserId, status: Status)

  datatype Room = Room(leader: UserId, members: map<UserId, Time>, invites: map<InviteId, Invite>)

  /** The `users` rows: each known user with the `ever_logged_in` flag. */
  type Users = map<UserId, bool>

  /** A transaction with its inputs; `at` stands for the `joined_at` default, `invite` for the generated id. */
  datatype Op =
    | Create(party: PartyId, leader: UserId, at: Time)
    | Leave(party: PartyId, user: UserId)
    | StepDown(party: PartyId, leader: UserId, target: UserId)
    | Send(party: PartyId, leader: UserId, target: UserId, invite: InviteId, at: Time)
    | Accept(party: PartyId, user: UserId, at: Time)
    | Reject(party: PartyId, user: UserId)

  datatype Error =
    | NoParty | NotLeader | NoOtherMember | TargetNotMember | AlreadyMember | InvitePending
    | UnknownUser | NoPendingInvite
    // constraint violations: a primary key, or the partial unique index (SQLSTATE 23505)
    | DuplicateParty | DuplicateInvite | DuplicateMember | DuplicatePending

  ghost function SeniorityRows(members: map<UserId, Time>): set<Row> {
    set u | u in members :: (members[u], u)
  }

  lemma SomeoneIsSenior(members: map<UserId, Time>)
    requires members != map[]
    ensures SeniorityRows(members) != {}
  {
    assert (forall u :: u !in members) ==> members.Keys == {};
    var u :| u in members;
    assert (members[u], u) in SeniorityRows(members);
  }

  /** The first remaining member by joined_at, then user id. */
  ghost function Earliest(members: map<UserId, Time>): (u: UserId)
    requires members != map[]
    ensures u in members
    ensures forall v :: v in members && v != u ==> Before((members[u], u), (members[v], v))
  {
    SomeoneIsSenior(members);
    var u := Least(SeniorityRows(members)).1;
    assert forall v :: v in members ==> (members[v], v) in SeniorityRows(members);
    u
  }

  predicate IsPending(r: Room, i: InviteId, u: UserId) {
    i in r.invites && r.invites[i].user == u && r.invites[i].status == Pending
  }

  ghost predicate HasPending(r: Room, u: UserId) {
    exists i :: IsPending(r, i, u)
  }

  ghost function PendingInvite(r: Room, u: UserId): (i: InviteId)
    requires HasPending(r, u)
    ensures IsPending(r, i, u)
  {
    var i :| IsPending(r, i, u); i
  }

  ghost function AfterLeave(r: Room, u: UserId): Option<Room> {
    var rest := r.members - {u};
    if rest == map[] then None
    else Some(r.(members := rest, leader := if r.leader == u then Earliest(rest) else r.leader))
  }

  /** The party's rows after `op` commits, or the reason it changes nothing. */
  ghost function Effect(op: Op, room: Option<Room>, users: Users): Result<Option<Room>, Error> {
    match op
    case Create(_, leader, at) =>
      if room.Some? then Err(DuplicateParty)
      else if leader !in users then Err(UnknownUser)
      else Ok(Some(Room(leader, map[leader := at], map[])))
    case Leave(_, u) =>
      if room.None? then Err(NoParty) else Ok(AfterLeave(room.value, u))
    case StepDown(_, leader, target) =>
      if room.None? then Err(NoParty)
      else if room.value.leader != leader then Err(NotLeader)
      else if |room.value.members| < 2 then Err(NoOtherMember)
      else if target !in room.value.members then Err(TargetNotMember)
      else Ok(Some(room.value.(leader := target)))
    case Send(_, leader, target, i, at) =>
      if room.None? then Err(NoParty)
      else if room.value.leader != leader then Err(NotLeader)
      else if target in room.value.members then Err(AlreadyMember)
      else if HasPending(room.value, target) then Err(InvitePending)
      else if target !in users then Err(UnknownUser)
      else if i in room.value.invites then Err(DuplicateInvite)
      else if users[target] then
        Ok(Some(room.value.(invites := room.value.invites[i := Invite(target, leader, Pending)])))
      else
        Ok(Some(room.value.(invites := room.value.invites[i := Invite(target, leader, Accepted)],
                            members := room.value.members[target := at])))
    case Accept(_, u, at) =>
      if room.None? then Err(NoParty)
      else if !HasPending(room.value, u) then Err(NoPendingInvite)
      else if u in room.value.members then Err(DuplicateMember)
      else if u !in users then Err(UnknownUser)
      else
        var i := PendingInvite(room.value, u);
        Ok(Some(room.value.(invites := room.value.invites[i := room.value.invites[i].(status := Accepted)],
                            members := room.value.members[u := at])))
    case Reject(_, u) =>
      if room.None? then Err(NoParty)
      else if !HasPending(room.value, u) then Err(NoPendingInvite)
      else
        var i := PendingInvite(room.value, u);
        Ok(Some(room.value.(invites := room.value.invites[i := room.value.invites[i].(status := Rejected)])))
  }

  /** What every committed state keeps: the leader is a member, pending invites are unique and never a member's. */
  ghost predicate RoomOk(r: Room, users: Users) {
    && r.leader in r.members
    && (forall i, j, u :: IsPending(r, i, u) && IsPending(r, j, u) ==> i == j)
    && (forall i, u :: IsPending(r, i, u) ==> u !in r.members)
    && (forall u :: u in r.members ==> u in users)
    && (forall i :: i in r.invites ==> r.invites[i].user in users)
  }

  ghost predicate RowsOk(room: Option<Room>, users: Users) {
    room.Some? ==> RoomOk(room.value, users)
  }

  /** Rows of `users` are never deleted, and a set flag is never unset. */
  ghost predicate Grows(before: Users, after: Users) {
    forall u :: u in before ==> u in after && (before[u] ==> after[u])
  }

  lemma EffectKeepsRows(op: Op, room: Option<Room>, users: Users)
    requires RowsOk(room, users)
    requires Effect(op, room, users).Ok?
    ensures RowsOk(Effect(op, room, users).value, users)
  {
    var after := Effect(op, room, users).value;
    if after.Some? && room.Some? {
      var r, s := room.value, after.value;
      if !op.Send? {
        assert forall i, u :: IsPending(s, i, u) ==> IsPending(r, i, u);
      } else {
        assert forall i, u :: IsPending(s, i, u) && i != op.invite ==> IsPending(r, i, u);
      }
    }
  }

  /** The constraints behind DuplicateMember and DuplicatePending never fire from a good state. */
  lemma ConstraintsNeverFire(op: Op, room: Option<Room>, users: Users)
    requires RowsOk(room, users)
    ensures Effect(op, room, users) != Err(DuplicateMember)
    ensures Effect(op, room, users) != Err(DuplicatePending)
    ensures op.Accept? ==> Effect(op, room, users) != Err(UnknownUser)
  {
    if op.Accept? && room.Some? && HasPending(room.value, op.user) {
      assert IsPending(room.value, PendingInvite(room.value, op.user), op.user);
    }
  }
}
