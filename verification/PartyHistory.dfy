/** What holds over whole runs of committed party transactions: who joined how, and who leads next. */
module PartyHistory {
  import opened Wrappers
  import opened Ordering
  import opened Party
  import opened PartyInterleaving
  import opened PartySerialisability

  predicate IsMember(d: Db, p: PartyId, u: UserId) {
    p in d.rooms && u in d.rooms[p].members
  }

  function Count(b: bool): nat {
    if b then 1 else 0
  }

  /** The entry, committed on `before`, is one that joins `u`: their own create or accept, or a leader adding someone never signed in. */
  predicate Joins(before: Db, e: Entry, p: PartyId, u: UserId) {
    && Touches(e, p)
    && match e.op
       case Create(_, leader, _) => leader == u
       case Accept(_, user, _) => user == u
       case Send(_, _, target, _, _) => target == u && u in before.users && !before.users[u]
       case _ => false
  }

  /** The entry is a leave that removes a membership row of `u`. */
  predicate Removes(before: Db, e: Entry, p: PartyId, u: UserId) {
    Touches(e, p) && e.op.Leave? && e.op.user == u && IsMember(before, p, u)
  }

  ghost function JoinCount(d: Db, entries: seq<Entry>, p: PartyId, u: UserId): nat
    requires Replay(d, entries).Some?
  {
    if entries == [] then 0
    else
      var front, e := entries[..|entries| - 1], entries[|entries| - 1];
      JoinCount(d, front, p, u) + Count(Joins(Replay(d, front).value, e, p, u))
  }

  ghost function LeaveCount(d: Db, entries: seq<Entry>, p: PartyId, u: UserId): nat
    requires Replay(d, entries).Some?
  {
    if entries == [] then 0
    else
      var front, e := entries[..|entries| - 1], entries[|entries| - 1];
      LeaveCount(d, front, p, u) + Count(Removes(Replay(d, front).value, e, p, u))
  }

  lemma EntryBalances(before: Db, e: Entry, p: PartyId, u: UserId)
    requires ApplyEntry(before, e).Some?
    ensures var after := ApplyEntry(before, e).value;
            Count(IsMember(after, p, u)) + Count(Removes(before, e, p, u))
            == Count(IsMember(before, p, u)) + Count(Joins(before, e, p, u))
  {
    if Touches(e, p) && e.op.Leave? {
      var rest := before.rooms[p].members - {e.op.user};
      if rest == map[] {
        assert u !in rest;
      }
    }
  }

  /** Memberships are conserved: joins minus removing leaves is exactly whether the user is a member. */
  lemma {:induction false} MembershipConserved(d: Db, entries: seq<Entry>, p: PartyId, u: UserId)
    requires Replay(d, entries).Some?
    ensures Count(IsMember(Replay(d, entries).value, p, u)) + LeaveCount(d, entries, p, u)
            == Count(IsMember(d, p, u)) + JoinCount(d, entries, p, u)
  {
    if entries != [] {
      var front, e := entries[..|entries| - 1], entries[|entries| - 1];
      MembershipConserved(d, front, p, u);
      EntryBalances(Replay(d, front).value, e, p, u);
    }
  }

  // ---------------------------------------------------------------- invite rows

  predicate IsAccepted(r: Room, i: InviteId, u: UserId) {
    i in r.invites && r.invites[i].user == u && r.invites[i].status == Accepted
  }

  ghost function AcceptedRows(r: Room, u: UserId): set<InviteId> {
    set i | i in r.invites && IsAccepted(r, i, u)
  }

  /** Since the party's creation: whether `u` created it, and how often a leave removed `u`. */
  datatype Life = Life(created: nat, left: nat)

  ghost function LifeOf(d: Db, entries: seq<Entry>, p: PartyId, u: UserId): Life
    requires Replay(d, entries).Some?
  {
    if entries == [] then Life(0, 0)
    else
      var front, e := entries[..|entries| - 1], entries[|entries| - 1];
      var life := LifeOf(d, front, p, u);
      if Touches(e, p) && e.op.Create? then Life(Count(e.op.leader == u), 0)
      else life.(left := life.left + Count(Removes(Replay(d, front).value, e, p, u)))
  }

  /** A join by invitation adds exactly one accepted row of that user; nothing else changes a user's accepted rows. */
  lemma EntryAddsRow(before: Db, e: Entry, p: PartyId, u: UserId)
    requires ApplyEntry(before, e).Some?
    requires p in before.rooms && p in ApplyEntry(before, e).value.rooms
    ensures |AcceptedRows(ApplyEntry(before, e).value.rooms[p], u)|
            == |AcceptedRows(before.rooms[p], u)| + Count(Joins(before, e, p, u))
  {
    var r, r' := before.rooms[p], ApplyEntry(before, e).value.rooms[p];
    if Touches(e, p) && e.op.Send? {
      SendAddsRow(r, r', e.op, before.users, u);
    } else if Touches(e, p) && e.op.Accept? {
      AcceptAddsRow(r, r', e.op, before.users, u);
    } else {
      assert forall i :: i in r.invites && r.invites[i].status == Accepted ==> i in r'.invites && r'.invites[i] == r.invites[i];
      assert AcceptedRows(r', u) == AcceptedRows(r, u);
    }
  }

  lemma NewRow(r: Room, r': Room, i: InviteId, invite: Invite, u: UserId)
    requires i !in r.invites && r'.invites == r.invites[i := invite]
    ensures |AcceptedRows(r', u)| == |AcceptedRows(r, u)| + Count(invite.user == u && invite.status == Accepted)
  {
    var rows, rows' := AcceptedRows(r, u), AcceptedRows(r', u);
    var taken := invite.user == u && invite.status == Accepted;
    forall j
      ensures j in rows' <==> j in rows || (j == i && taken)
    {
    }
    assert i !in rows;
    hide AcceptedRows;
    assert rows' == if taken then rows + {i} else rows;
  }

  lemma SendAddsRow(r: Room, r': Room, op: Op, users: Users, u: UserId)
    requires op.Send? && Effect(op, Some(r), users) == Ok(Some(r'))
    ensures |AcceptedRows(r', u)|
            == |AcceptedRows(r, u)| + Count(op.target == u && u in users && !users[u])
  {
    NewRow(r, r', op.invite, r'.invites[op.invite], u);
  }

  lemma AcceptAddsRow(r: Room, r': Room, op: Op, users: Users, u: UserId)
    requires op.Accept? && Effect(op, Some(r), users) == Ok(Some(r'))
    ensures |AcceptedRows(r', u)| == |AcceptedRows(r, u)| + Count(op.user == u)
  {
    var i := PendingInvite(r, op.user);
    if op.user == u {
      assert AcceptedRows(r', u) == AcceptedRows(r, u) + {i};
    } else {
      assert AcceptedRows(r', u) == AcceptedRows(r, u);
    }
  }

  /**
   * For every live party: accepted invites of a user, plus one if they created it,
   * minus the leaves that removed them, is one if they are a member and zero otherwise.
   */
  lemma {:induction false} InviteLedger(d: Db, entries: seq<Entry>, p: PartyId, u: UserId)
    requires p !in d.rooms && Replay(d, entries).Some?
    ensures var after := Replay(d, entries).value;
            p in after.rooms ==>
              |AcceptedRows(after.rooms[p], u)| + LifeOf(d, entries, p, u).created
              == LifeOf(d, entries, p, u).left + Count(IsMember(after, p, u))
  {
    if entries != [] {
      var front, e := entries[..|entries| - 1], entries[|entries| - 1];
      InviteLedger(d, front, p, u);
      var before, after := Replay(d, front).value, Replay(d, entries).value;
      EntryBalances(before, e, p, u);
      if p in after.rooms {
        if p in before.rooms {
          EntryAddsRow(before, e, p, u);
        } else {
          assert AcceptedRows(after.rooms[p], u) == {};
        }
      }
    }
  }

  // Sent and rejected invites.

  ghost function InviteRows(r: Room, u: UserId): set<InviteId> {
    set i | i in r.invites && r.invites[i].user == u
  }

  ghost function RejectedRows(r: Room, u: UserId): set<InviteId> {
    set i | i in r.invites && r.invites[i].user == u && r.invites[i].status == Rejected
  }

  /** Since the party's creation: the sends to `u` and the rejections by `u` that were committed. */
  datatype Tally = Tally(sent: nat, rejected: nat)

  function TallyOf(entries: seq<Entry>, p: PartyId, u: UserId): Tally {
    if entries == [] then Tally(0, 0)
    else
      var t, e := TallyOf(entries[..|entries| - 1], p, u), entries[|entries| - 1];
      if Touches(e, p) && e.op.Create? then Tally(0, 0)
      else Tally(t.sent + Count(Touches(e, p) && e.op.Send? && e.op.target == u),
                 t.rejected + Count(Touches(e, p) && e.op.Reject? && e.op.user == u))
  }

  lemma NewInviteRow(r: Room, r': Room, i: InviteId, invite: Invite, u: UserId)
    requires i !in r.invites && r'.invites == r.invites[i := invite] && invite.status != Rejected
    ensures |InviteRows(r', u)| == |InviteRows(r, u)| + Count(invite.user == u)
    ensures RejectedRows(r', u) == RejectedRows(r, u)
  {
    if invite.user == u {
      assert InviteRows(r', u) == InviteRows(r, u) + {i};
    } else {
      assert InviteRows(r', u) == InviteRows(r, u);
    }
  }

  lemma AnsweredRow(r: Room, r': Room, i: InviteId, status: Status, u: UserId)
    requires i in r.invites && r.invites[i].status == Pending && r'.invites == r.invites[i := r.invites[i].(status := status)]
    ensures InviteRows(r', u) == InviteRows(r, u)
    ensures |RejectedRows(r', u)| == |RejectedRows(r, u)| + Count(r.invites[i].user == u && status == Rejected)
  {
    if r.invites[i].user == u && status == Rejected {
      assert RejectedRows(r', u) == RejectedRows(r, u) + {i};
    } else {
      assert RejectedRows(r', u) == RejectedRows(r, u);
    }
  }

  /** One committed entry: a send adds one invite of its target, a rejection turns one of its user's into a rejected one. */
  lemma EntryTallies(before: Db, e: Entry, p: PartyId, u: UserId)
    requires ApplyEntry(before, e).Some? && !(Touches(e, p) && e.op.Create?)
    requires p in before.rooms && p in ApplyEntry(before, e).value.rooms
    ensures var r, r' := before.rooms[p], ApplyEntry(before, e).value.rooms[p];
            && |InviteRows(r', u)| == |InviteRows(r, u)| + Count(Touches(e, p) && e.op.Send? && e.op.target == u)
            && |RejectedRows(r', u)| == |RejectedRows(r, u)| + Count(Touches(e, p) && e.op.Reject? && e.op.user == u)
  {
    hide InviteRows, RejectedRows;
    var r, r' := before.rooms[p], ApplyEntry(before, e).value.rooms[p];
    if Touches(e, p) && e.op.Send? {
      NewInviteRow(r, r', e.op.invite, r'.invites[e.op.invite], u);
    } else if Touches(e, p) && e.op.Accept? {
      AnsweredRow(r, r', PendingInvite(r, e.op.user), Accepted, u);
    } else if Touches(e, p) && e.op.Reject? {
      AnsweredRow(r, r', PendingInvite(r, e.op.user), Rejected, u);
    } else {
      SameInvites(r, r', u);
    }
  }

  lemma SameInvites(r: Room, r': Room, u: UserId)
    requires r'.invites == r.invites
    ensures InviteRows(r', u) == InviteRows(r, u) && RejectedRows(r', u) == RejectedRows(r, u)
  {
  }

  /**
   * In every live party a user's invites are as many as the sends to them, and their rejected invites
   * as many as their rejections, since the party was created.
   */
  lemma {:induction false} RejectionLedger(d: Db, entries: seq<Entry>, p: PartyId, u: UserId)
    requires p !in d.rooms && Replay(d, entries).Some? && p in Replay(d, entries).value.rooms
    ensures var r := Replay(d, entries).value.rooms[p];
            |InviteRows(r, u)| == TallyOf(entries, p, u).sent && |RejectedRows(r, u)| == TallyOf(entries, p, u).rejected
  {
    var front, e := entries[..|entries| - 1], entries[|entries| - 1];
    var before, after := Replay(d, front).value, Replay(d, entries).value;
    if Touches(e, p) && e.op.Create? {
      NoInvitesYet(before, e, p, u);
    } else {
      StillThere(before, e, p);
      RejectionLedger(d, front, p, u);
      EntryTallies(before, e, p, u);
    }
  }

  lemma NoInvitesYet(before: Db, e: Entry, p: PartyId, u: UserId)
    requires ApplyEntry(before, e).Some? && Touches(e, p) && e.op.Create?
    requires p in ApplyEntry(before, e).value.rooms
    ensures var r := ApplyEntry(before, e).value.rooms[p]; InviteRows(r, u) == {} && RejectedRows(r, u) == {}
  {
  }

  /** From the k-th entry on the party is not created anew. */
  predicate SameLife(entries: seq<Entry>, k: nat, p: PartyId) {
    forall j :: k <= j < |entries| ==> !(Touches(entries[j], p) && entries[j].op.Create?)
  }

  lemma EntryKeepsInvite(before: Db, e: Entry, p: PartyId, i: InviteId)
    requires ApplyEntry(before, e).Some? && !(Touches(e, p) && e.op.Create?)
    requires p in before.rooms && i in before.rooms[p].invites
    requires p in ApplyEntry(before, e).value.rooms
    ensures var r := ApplyEntry(before, e).value.rooms[p];
            && i in r.invites
            && r.invites[i].user == before.rooms[p].invites[i].user
            && r.invites[i].inviter == before.rooms[p].invites[i].inviter
            && (before.rooms[p].invites[i].status != Pending ==> r.invites[i] == before.rooms[p].invites[i])
  {
  }

  /** As long as the party lives its invites stay, and an accepted or rejected one never changes. */
  lemma {:induction false} InvitesAreFinal(d: Db, entries: seq<Entry>, k: nat, p: PartyId, i: InviteId)
    requires k <= |entries| && SameLife(entries, k, p)
    requires Replay(d, entries[..k]).Some? && p in Replay(d, entries[..k]).value.rooms
    requires i in Replay(d, entries[..k]).value.rooms[p].invites
    requires Replay(d, entries).Some? && p in Replay(d, entries).value.rooms
    ensures var was := Replay(d, entries[..k]).value.rooms[p].invites[i];
            var r := Replay(d, entries).value.rooms[p];
            && i in r.invites && r.invites[i].user == was.user && r.invites[i].inviter == was.inviter
            && (was.status != Pending ==> r.invites[i] == was)
    decreases |entries|
  {
    if k == |entries| {
      assert entries[..k] == entries;
    } else {
      var n := |entries| - 1;
      var before, e := Replay(d, entries[..n]), entries[n];
      assert before.Some? && ApplyEntry(before.value, e) == Replay(d, entries);
      assert SameLife(entries[..n], k, p);
      assert entries[..n][..k] == entries[..k];
      hide Replay, ApplyEntry;
      StillThere(before.value, e, p);
      InvitesAreFinal(d, entries[..n], k, p, i);
      EntryKeepsInvite(before.value, e, p, i);
    }
  }

  lemma StillThere(before: Db, e: Entry, p: PartyId)
    requires ApplyEntry(before, e).Some? && !(Touches(e, p) && e.op.Create?)
    requires p in ApplyEntry(before, e).value.rooms
    ensures p in before.rooms
  {
  }

  /** A user whose ever_logged_in flag is set enters a party only by their own create or accept. */
  lemma SignedInJoinOnlyThemselves(d: Db, entries: seq<Entry>, k: nat, p: PartyId, u: UserId)
    requires k < |entries| && HasSignedIn(UsersAfter(d.users, entries[..k]), u)
    requires Replay(d, entries[..k]).Some? && Replay(d, entries[..k + 1]).Some?
    requires !IsMember(Replay(d, entries[..k]).value, p, u)
    requires IsMember(Replay(d, entries[..k + 1]).value, p, u)
    ensures entries[k].Committed? && entries[k].op.party == p
    ensures (entries[k].op.Create? && entries[k].op.leader == u) || (entries[k].op.Accept? && entries[k].op.user == u)
  {
    OneMore(entries, k);
    ReplaySnoc(d, entries[..k], entries[k]);
    ReplayUsers(d, entries[..k]);
    hide Replay;
    var before := Replay(d, entries[..k]).value;
    EntryBalances(before, entries[k], p, u);
  }

  predicate HasSignedIn(users: Users, u: UserId) {
    u in users && users[u]
  }

  /** The flag is set exactly if it was at the start or a sign-in of the user came before. */
  lemma {:induction false} FlagIsHistory(users: Users, entries: seq<Entry>, u: UserId)
    ensures HasSignedIn(UsersAfter(users, entries), u) <==> HasSignedIn(users, u) || SignedIn(u) in entries
  {
    if entries != [] {
      var front, e := entries[..|entries| - 1], entries[|entries| - 1];
      FlagIsHistory(users, front, u);
      assert entries == front + [e];
    }
  }

  /** The three ledgers, for any interleaving from a database without the party. */
  lemma LedgerOverRuns(d: Db, actions: seq<Action>, p: PartyId, u: UserId)
    requires p !in d.rooms
    ensures var s := Run(d, actions);
            && Replay(d, s.serial) == Some(s.db)
            && Count(IsMember(s.db, p, u)) + LeaveCount(d, s.serial, p, u) == JoinCount(d, s.serial, p, u)
            && (p in s.db.rooms ==>
                  |AcceptedRows(s.db.rooms[p], u)| + LifeOf(d, s.serial, p, u).created
                  == LifeOf(d, s.serial, p, u).left + Count(IsMember(s.db, p, u)))
            && (p in s.db.rooms ==>
                  && |InviteRows(s.db.rooms[p], u)| == TallyOf(s.serial, p, u).sent
                  && |RejectedRows(s.db.rooms[p], u)| == TallyOf(s.serial, p, u).rejected)
  {
    SerialOrder(d, actions);
    if p in Run(d, actions).db.rooms {
      RejectionLedger(d, Run(d, actions).serial, p, u);
    }
    MembershipConserved(d, Run(d, actions).serial, p, u);
    InviteLedger(d, Run(d, actions).serial, p, u);
  }

  // ----------------------------------------------------------------- succession

  /** The members in the order PartyMembers lists them. */
  ghost function PartyMembers(r: Room): seq<Row> {
    Sorted(SeniorityRows(r.members))
  }

  /** The party after its leader, whoever that is at the time, has left `k` times. */
  ghost function AfterLeaderLeaves(r: Room, k: nat): Option<Room> {
    if k == 0 then Some(r)
    else
      var before := AfterLeaderLeaves(r, k - 1);
      if before.None? then None else AfterLeave(before.value, before.value.leader)
  }

  lemma LeaverRows(members: map<UserId, Time>, u: UserId)
    requires u in members
    ensures SeniorityRows(members - {u}) == SeniorityRows(members) - {(members[u], u)}
  {
    forall row | row in SeniorityRows(members) - {(members[u], u)}
      ensures row in SeniorityRows(members - {u})
    {
      assert row.1 in members - {u};
    }
  }

  lemma {:induction false} RowCount(members: map<UserId, Time>)
    ensures |SeniorityRows(members)| == |members|
    decreases |members|
  {
    if members == map[] {
      assert SeniorityRows(members) == {};
    } else {
      SomeoneIsSenior(members);
      var row :| row in SeniorityRows(members);
      var rest := members - {row.1};
      assert members == rest[row.1 := members[row.1]];
      LeaverRows(members, row.1);
      RowCount(rest);
    }
  }

  /** Leaders after the first are the other members in PartyMembers order; everything else about the party stays. */
  lemma {:induction false} SuccessionFollowsSeniority(r: Room, k: nat)
    requires r.leader in r.members && 0 < k < |r.members|
    ensures var heirs := Sorted(SeniorityRows(r.members - {r.leader}));
            var after := AfterLeaderLeaves(r, k);
            && |heirs| == |r.members| - 1
            && after.Some?
            && after.value.leader == heirs[k - 1].1
            && PartyMembers(after.value) == heirs[k - 1..]
            && after.value.invites == r.invites
    decreases k
  {
    var others := r.members - {r.leader};
    var heirs := Sorted(SeniorityRows(others));
    assert r.members == others[r.leader := r.members[r.leader]];
    RowCount(others);
    SortedIsAscending(SeniorityRows(others));
    if k == 1 {
      assert AfterLeaderLeaves(r, 0) == Some(r);
      assert others != map[];
    } else {
      SuccessionFollowsSeniority(r, k - 1);
      var before := AfterLeaderLeaves(r, k - 1).value;
      LeaderIsFirst(before);
      assert heirs[k - 2..][1..] == heirs[k - 1..];
    }
  }

  /** When the leader is first in the list, their leave takes them off it and the next one leads. */
  lemma LeaderIsFirst(r: Room)
    requires PartyMembers(r) != [] && r.leader == PartyMembers(r)[0].1
    ensures var after := AfterLeave(r, r.leader);
            if |PartyMembers(r)| == 1 then after.None?
            else after.Some? && PartyMembers(after.value) == PartyMembers(r)[1..]
                 && after.value.leader == PartyMembers(r)[1].1 && after.value.invites == r.invites
  {
    var rows := SeniorityRows(r.members);
    SortedIsAscending(rows);
    assert rows != {};
    var first := Least(rows);
    assert Sorted(rows) == [first] + Sorted(rows - {first});
    LeaverRows(r.members, r.leader);
    var rest := r.members - {r.leader};
    assert SeniorityRows(rest) == rows - {first};
    if rest == map[] {
      assert SeniorityRows(rest) == {};
    } else {
      SomeoneIsSenior(rest);
    }
  }

  /** An n-member party lives through n - 1 leaves of its leaders and ends with the n-th, rows and all. */
  lemma PartyEndsWithLastLeave(r: Room, k: nat)
    requires r.leader in r.members
    ensures AfterLeaderLeaves(r, k).None? <==> k >= |r.members|
    decreases k
  {
    var others := r.members - {r.leader};
    assert r.members == others[r.leader := r.members[r.leader]];
    if 0 < k < |r.members| {
      SuccessionFollowsSeniority(r, k);
    } else if k > |r.members| {
      PartyEndsWithLastLeave(r, k - 1);
    } else if k == |r.members| == 1 {
      assert AfterLeaderLeaves(r, 0) == Some(r);
      assert others.Keys == {};
    } else if k == |r.members| {
      SuccessionFollowsSeniority(r, k - 1);
      LeaderIsFirst(AfterLeaderLeaves(r, k - 1).value);
    }
  }

  /** The only transactions of `p` among the entries are leaves by whoever leads it at the time. */
  ghost predicate OnlyLeadersLeave(d: Db, entries: seq<Entry>, p: PartyId) {
    entries == [] ||
    (var front, e := entries[..|entries| - 1], entries[|entries| - 1];
     && OnlyLeadersLeave(d, front, p)
     && (Touches(e, p) ==>
           && e.op.Leave?
           && (Replay(d, front).Some? && p in Replay(d, front).value.rooms ==>
                 e.op.user == Replay(d, front).value.rooms[p].leader)))
  }

  function Leaves(entries: seq<Entry>, p: PartyId): nat {
    if entries == [] then 0
    else Leaves(entries[..|entries| - 1], p) + Count(Touches(entries[|entries| - 1], p))
  }

  lemma LeaderLeaves(before: Db, e: Entry, p: PartyId, r: Room, k: nat)
    requires RowsOf(before, p) == AfterLeaderLeaves(r, k) && ApplyEntry(before, e).Some?
    requires Touches(e, p) ==> e.op.Leave? && (p in before.rooms ==> e.op.user == before.rooms[p].leader)
    ensures RowsOf(ApplyEntry(before, e).value, p) == AfterLeaderLeaves(r, k + Count(Touches(e, p)))
  {
    if Touches(e, p) {
      LeaveIs(before, e, p);
      hide ApplyEntry, AfterLeave;
      assert AfterLeaderLeaves(r, k + 1) ==
             if RowsOf(before, p).None? then None else AfterLeave(before.rooms[p], before.rooms[p].leader);
    } else {
      OthersLeaveRows(before, e, p);
      hide ApplyEntry, AfterLeaderLeaves, RowsOf;
    }
  }

  lemma LeaveIs(before: Db, e: Entry, p: PartyId)
    requires Touches(e, p) && e.op.Leave? && ApplyEntry(before, e).Some?
    ensures p in before.rooms && RowsOf(ApplyEntry(before, e).value, p) == AfterLeave(before.rooms[p], e.op.user)
  {
    hide AfterLeave;
  }

  lemma OthersLeaveRows(before: Db, e: Entry, p: PartyId)
    requires !Touches(e, p) && ApplyEntry(before, e).Some?
    ensures RowsOf(ApplyEntry(before, e).value, p) == RowsOf(before, p)
  {
    hide Effect;
  }

  lemma {:induction false} LeaderLeavesOverRuns(d: Db, entries: seq<Entry>, p: PartyId)
    requires p in d.rooms && Replay(d, entries).Some? && OnlyLeadersLeave(d, entries, p)
    ensures RowsOf(Replay(d, entries).value, p) == AfterLeaderLeaves(d.rooms[p], Leaves(entries, p))
  {
    hide ApplyEntry;
    if entries == [] {
      assert AfterLeaderLeaves(d.rooms[p], 0) == Some(d.rooms[p]);
    } else {
      var front, e := entries[..|entries| - 1], entries[|entries| - 1];
      assert Replay(d, front).Some? && ApplyEntry(Replay(d, front).value, e) == Replay(d, entries);
      assert Leaves(entries, p) == Leaves(front, p) + Count(Touches(e, p));
      var before := Replay(d, front).value;
      assert OnlyLeadersLeave(d, front, p);
      assert Touches(e, p) ==> e.op.Leave? && (p in before.rooms ==> e.op.user == before.rooms[p].leader);
      hide Replay, OnlyLeadersLeave, Leaves, AfterLeaderLeaves, RowsOf, Count;
      LeaderLeavesOverRuns(d, front, p);
      LeaderLeaves(before, e, p, d.rooms[p], Leaves(front, p));
    }
  }

  /**
   * Over any run in which only the leader of the day leaves `p`, with any other parties' transactions
   * and sign-ins between: after the k-th leave the k-th heir leads and the others follow in PartyMembers
   * order, invites stay, and the party with all its rows is gone exactly from the n-th leave on.
   */
  lemma SuccessionOverRuns(d: Db, entries: seq<Entry>, p: PartyId)
    requires p in d.rooms && d.rooms[p].leader in d.rooms[p].members
    requires Replay(d, entries).Some? && OnlyLeadersLeave(d, entries, p)
    ensures var r, k, after := d.rooms[p], Leaves(entries, p), Replay(d, entries).value;
            var heirs := Sorted(SeniorityRows(r.members - {r.leader}));
            && (p !in after.rooms <==> k >= |r.members|)
            && (0 < k < |r.members| ==>
                  && |heirs| == |r.members| - 1
                  && after.rooms[p].leader == heirs[k - 1].1
                  && PartyMembers(after.rooms[p]) == heirs[k - 1..]
                  && after.rooms[p].invites == r.invites)
            && (k == 0 ==> after.rooms[p] == r)
  {
    var r, k := d.rooms[p], Leaves(entries, p);
    LeaderLeavesOverRuns(d, entries, p);
    assert AfterLeaderLeaves(r, 0) == Some(r);
    PartyEndsWithLastLeave(r, k);
    hide Replay, OnlyLeadersLeave, AfterLeaderLeaves, Leaves;
    if 0 < k < |r.members| {
      SuccessionFollowsSeniority(r, k);
    }
  }

  /** The same for every interleaving, by its serial order. */
  lemma {:induction false} SuccessionOverInterleavings(d: Db, actions: seq<Action>, p: PartyId)
    requires DbOk(d) && p in d.rooms && OnlyLeadersLeave(d, Run(d, actions).serial, p)
    ensures var s, r := Run(d, actions), d.rooms[p];
            var heirs, k := Sorted(SeniorityRows(r.members - {r.leader})), Leaves(s.serial, p);
            && (p !in s.db.rooms <==> k >= |r.members|)
            && (0 < k < |r.members| ==> |heirs| == |r.members| - 1 && s.db.rooms[p].leader == heirs[k - 1].1)
  {
    SerialOrder(d, actions);
    SuccessionOverRuns(d, Run(d, actions).serial, p);
  }
}
