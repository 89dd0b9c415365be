/**
 * The party methods of the store, statement by statement over the three tables.
 * Each leaves the tables exactly as `Effect` says for the rows of its party, and
 * touches no row of another party; a refused call changes nothing.
 */
module PartyStore {
  import opened Wrappers
  import opened Ordering
  import opened Party
  import opened PartyInterleaving

  datatype InviteRow = InviteRow(party: PartyId, user: UserId, inviter: UserId, status: Status)

  type Memberships = map<(PartyId, UserId), Time>
  type Invites = map<InviteId, InviteRow>

  function MembersOf(memberships: Memberships, p: PartyId): map<UserId, Time> {
    map k | k in memberships && k.0 == p :: k.1 := memberships[k]
  }

  function InvitesOf(invites: Invites, p: PartyId): map<InviteId, Invite> {
    map i | i in invites && invites[i].party == p :: Invite(invites[i].user, invites[i].inviter, invites[i].status)
  }

  function ViewOf(parties: map<PartyId, UserId>, memberships: Memberships, invites: Invites, users: Users): Db {
    Db(map p | p in parties :: Room(parties[p], MembersOf(memberships, p), InvitesOf(invites, p)), users)
  }

  lemma MemberIn(memberships: Memberships, p: PartyId, u: UserId)
    ensures u in MembersOf(memberships, p) <==> (p, u) in memberships
    ensures (p, u) in memberships ==> MembersOf(memberships, p)[u] == memberships[(p, u)]
  {
    if (p, u) in memberships {
      assert (p, u).1 in MembersOf(memberships, p);
    }
  }

  /** How many members a party has, read off its membership rows. */
  lemma MembersCount(memberships: Memberships, p: PartyId)
    ensures MembersOf(memberships, p) == map[] <==> forall v :: (p, v) !in memberships
    ensures |MembersOf(memberships, p)| < 2 <==> forall v, w :: (p, v) in memberships && (p, w) in memberships ==> v == w
  {
    var members := MembersOf(memberships, p);
    forall v
      ensures v in members <==> (p, v) in memberships
    {
      MemberIn(memberships, p, v);
    }
    assert (forall v :: v !in members) ==> members == map[];
    hide MembersOf;
    if |members| >= 2 {
      TwoKeys(members);
    } else {
      forall v, w | v in members && w in members
        ensures v == w
      {
        OneKey(members, v, w);
      }
    }
  }

  lemma TwoKeys(members: map<UserId, Time>)
    requires |members| >= 2
    ensures exists v, w :: v in members && w in members && v != w
  {
    assert (forall v :: v !in members) ==> members == map[];
    var v :| v in members;
    var rest := members - {v};
    assert members.Keys == rest.Keys + {v};
    assert (forall w :: w !in rest) ==> rest.Keys == {};
    var w :| w in rest;
  }

  lemma OneKey(members: map<UserId, Time>, v: UserId, w: UserId)
    requires |members| < 2 && v in members && w in members
    ensures v == w
  {
    var both, others := {v, w}, members.Keys - {v, w};
    assert members.Keys == both + others;
    assert |members| == |both| + |others|;
    assert v != w ==> |both| == 2;
  }

  /** The successor, read off the membership rows. */
  lemma EarliestRow(memberships: Memberships, p: PartyId)
    requires MembersOf(memberships, p) != map[]
    ensures var s := Earliest(MembersOf(memberships, p));
            && (p, s) in memberships
            && forall v :: (p, v) in memberships && v != s ==>
                 || memberships[(p, s)] < memberships[(p, v)]
                 || (memberships[(p, s)] == memberships[(p, v)] && s < v)
  {
    var members := MembersOf(memberships, p);
    var s := Earliest(members);
    MemberIn(memberships, p, s);
    forall v | (p, v) in memberships && v != s
      ensures memberships[(p, s)] < memberships[(p, v)] || (memberships[(p, s)] == memberships[(p, v)] && s < v)
    {
      MemberIn(memberships, p, v);
      assert Before((members[s], s), (members[v], v));
    }
  }

  lemma MembersAfterDelete(memberships: Memberships, p: PartyId, u: UserId, q: PartyId)
    ensures MembersOf(memberships - {(p, u)}, q)
            == if q == p then MembersOf(memberships, q) - {u} else MembersOf(memberships, q)
  {
    var a := MembersOf(memberships - {(p, u)}, q);
    var b := if q == p then MembersOf(memberships, q) - {u} else MembersOf(memberships, q);
    forall v
      ensures v in a <==> v in b
      ensures v in a ==> a[v] == b[v]
    {
      MemberIn(memberships, q, v);
      MemberIn(memberships - {(p, u)}, q, v);
    }
    assert a.Keys == b.Keys;
  }

  lemma MembersAfterInsert(memberships: Memberships, p: PartyId, u: UserId, at: Time, q: PartyId)
    ensures MembersOf(memberships[(p, u) := at], q)
            == if q == p then MembersOf(memberships, q)[u := at] else MembersOf(memberships, q)
  {
    hide MembersOf;
    var a := MembersOf(memberships[(p, u) := at], q);
    var b := if q == p then MembersOf(memberships, q)[u := at] else MembersOf(memberships, q);
    forall v
      ensures v in a <==> v in b
      ensures v in a ==> a[v] == b[v]
    {
      MemberIn(memberships, q, v);
      MemberIn(memberships[(p, u) := at], q, v);
    }
    assert a.Keys == b.Keys;
  }

  lemma InvitesAfterWrite(invites: Invites, i: InviteId, row: InviteRow, q: PartyId)
    requires i in invites ==> invites[i].party == row.party
    ensures InvitesOf(invites[i := row], q)
            == if q == row.party then InvitesOf(invites, q)[i := Invite(row.user, row.inviter, row.status)]
               else InvitesOf(invites, q)
  {
  }

  lemma ViewAt(parties: map<PartyId, UserId>, ms: Memberships, invites: Invites, users: Users, p: PartyId)
    ensures var v := ViewOf(parties, ms, invites, users);
            && v.users == users
            && (p in v.rooms <==> p in parties)
            && (p in parties ==> v.rooms[p] == Room(parties[p], MembersOf(ms, p), InvitesOf(invites, p)))
  {
  }

  lemma ViewAfterLeader(parties: map<PartyId, UserId>, ms: Memberships, invites: Invites, users: Users, p: PartyId, u: UserId)
    requires p in parties
    ensures var v := ViewOf(parties, ms, invites, users);
            ViewOf(parties[p := u], ms, invites, users) == Put(v, p, Some(v.rooms[p].(leader := u)))
  {
    hide MembersOf, InvitesOf;
  }

  lemma ViewAfterDelete(parties: map<PartyId, UserId>, ms: Memberships, invites: Invites, users: Users, p: PartyId, u: UserId)
    requires p in parties
    ensures var v := ViewOf(parties, ms, invites, users);
            ViewOf(parties, ms - {(p, u)}, invites, users)
            == Put(v, p, Some(v.rooms[p].(members := v.rooms[p].members - {u})))
  {
    forall q {
      MembersAfterDelete(ms, p, u, q);
    }
    hide MembersOf, InvitesOf;
  }

  lemma ViewAfterInsert(parties: map<PartyId, UserId>, ms: Memberships, invites: Invites, users: Users, p: PartyId, u: UserId, at: Time)
    requires p in parties
    ensures var v := ViewOf(parties, ms, invites, users);
            ViewOf(parties, ms[(p, u) := at], invites, users)
            == Put(v, p, Some(v.rooms[p].(members := v.rooms[p].members[u := at])))
  {
    forall q {
      MembersAfterInsert(ms, p, u, at, q);
    }
    hide MembersOf, InvitesOf;
  }

  lemma ViewAfterInvite(parties: map<PartyId, UserId>, ms: Memberships, invites: Invites, users: Users, i: InviteId, row: InviteRow)
    requires row.party in parties && (i in invites ==> invites[i].party == row.party)
    ensures var v := ViewOf(parties, ms, invites, users);
            var p := row.party;
            ViewOf(parties, ms, invites[i := row], users)
            == Put(v, p, Some(v.rooms[p].(invites := v.rooms[p].invites[i := Invite(row.user, row.inviter, row.status)])))
  {
    hide MembersOf, InvitesOf;
    forall q {
      InvitesAfterWrite(invites, i, row, q);
    }
  }

  lemma ViewAfterCreate(parties: map<PartyId, UserId>, ms: Memberships, invites: Invites, users: Users, p: PartyId, u: UserId)
    requires p !in parties && References(parties, ms, invites)
    ensures var v := ViewOf(parties, ms, invites, users);
            ViewOf(parties[p := u], ms, invites, users) == Put(v, p, Some(Room(u, map[], map[])))
  {
    NoRowsYet(parties, ms, invites, p);
    hide MembersOf, InvitesOf;
  }

  lemma ReferencesAfterDrop(parties: map<PartyId, UserId>, ms: Memberships, invites: Invites, p: PartyId, u: UserId)
    requires References(parties, ms, invites)
    ensures References(parties - {p}, WithoutMembers(ms - {(p, u)}, p), WithoutInvites(invites, p))
  {
  }

  lemma NoRowsYet(parties: map<PartyId, UserId>, ms: Memberships, invites: Invites, p: PartyId)
    requires p !in parties && References(parties, ms, invites)
    ensures MembersOf(ms, p) == map[] && InvitesOf(invites, p) == map[]
  {
    assert forall u :: u !in MembersOf(ms, p);
    assert forall i :: i !in InvitesOf(invites, p);
    assert MembersOf(ms, p).Keys == {} && InvitesOf(invites, p).Keys == {};
  }

  lemma OthersAfterDrop(ms: Memberships, invites: Invites, p: PartyId, q: PartyId)
    requires q != p
    ensures MembersOf(WithoutMembers(ms, p), q) == MembersOf(ms, q)
    ensures InvitesOf(WithoutInvites(invites, p), q) == InvitesOf(invites, q)
  {
    var a, b := MembersOf(WithoutMembers(ms, p), q), MembersOf(ms, q);
    forall v
      ensures v in a <==> v in b
      ensures v in a ==> a[v] == b[v]
    {
      MemberIn(ms, q, v);
      MemberIn(WithoutMembers(ms, p), q, v);
    }
    assert a.Keys == b.Keys;
  }

  lemma ViewAfterDrop(parties: map<PartyId, UserId>, ms: Memberships, invites: Invites, users: Users, p: PartyId)
    ensures ViewOf(parties - {p}, WithoutMembers(ms, p), WithoutInvites(invites, p), users)
            == Put(ViewOf(parties, ms, invites, users), p, None)
  {
    forall q | q != p {
      OthersAfterDrop(ms, invites, p, q);
    }
    hide MembersOf, InvitesOf, WithoutMembers, WithoutInvites;
  }

  /** ON DELETE CASCADE from `parties`. */
  function WithoutMembers(ms: Memberships, p: PartyId): Memberships {
    map k | k in ms && k.0 != p :: ms[k]
  }

  function WithoutInvites(invites: Invites, p: PartyId): Invites {
    map i | i in invites && invites[i].party != p :: invites[i]
  }

  /** The foreign keys to `parties`. */
  ghost predicate References(parties: map<PartyId, UserId>, ms: Memberships, invites: Invites) {
    && (forall k :: k in ms ==> k.0 in parties)
    && (forall i :: i in invites ==> invites[i].party in parties)
  }

  /** What a call that ran `op` must return and leave behind. */
  ghost predicate Ran(before: Db, op: Op, after: Db, result: Result<(), Error>) {
    match Effect(op, RowsOf(before, op.party), before.users)
    case Ok(room) => result == Ok(()) && after == Put(before, op.party, room)
    case Err(e) => result == Err(e) && after == before
  }

  lemma PutPut(d: Db, p: PartyId, a: Option<Room>, b: Option<Room>)
    ensures Put(Put(d, p, a), p, b) == Put(d, p, b)
    ensures a.Some? ==> p in Put(d, p, a).rooms && Put(d, p, a).rooms[p] == a.value
  {
    assert Put(Put(d, p, a), p, b).rooms == Put(d, p, b).rooms;
  }

  /** A good database stays good when one party's rows are replaced by what a transaction makes of them. */
  lemma RanKeepsDb(before: Db, op: Op, after: Db, result: Result<(), Error>)
    requires DbOk(before) && Ran(before, op, after, result)
    ensures DbOk(after)
  {
    if result.Ok? {
      EffectKeepsRows(op, RowsOf(before, op.party), before.users);
    }
  }

  datatype Tables = Tables(parties: map<PartyId, UserId>, memberships: Memberships, invites: Invites)

  /** The tables after each statement of a leave. */
  ghost function AfterDelete(t: Tables, p: PartyId, u: UserId): Tables {
    t.(memberships := t.memberships - {(p, u)})
  }

  ghost function AfterPromote(t: Tables, p: PartyId, u: UserId): Tables {
    var rest := MembersOf(t.memberships, p);
    if p in t.parties && t.parties[p] == u && rest != map[] then t.(parties := t.parties[p := Earliest(rest)]) else t
  }

  ghost function AfterCascade(t: Tables, p: PartyId): Tables {
    if MembersOf(t.memberships, p) == map[]
    then Tables(t.parties - {p}, WithoutMembers(t.memberships, p), WithoutInvites(t.invites, p))
    else t
  }

  ghost predicate TablesOk(t: Tables, users: Users) {
    References(t.parties, t.memberships, t.invites) && DbOk(ViewOf(t.parties, t.memberships, t.invites, users))
  }

  lemma NoPartyRan(t: Tables, users: Users, op: Op)
    requires !op.Create? && op.party !in t.parties
    ensures var v := ViewOf(t.parties, t.memberships, t.invites, users);
            Ran(v, op, v, Err(NoParty))
  {
    ViewAt(t.parties, t.memberships, t.invites, users, op.party);
  }

  lemma LeaveRan(t: Tables, users: Users, p: PartyId, u: UserId)
    requires p in t.parties && TablesOk(t, users)
    ensures var t' := AfterCascade(AfterPromote(AfterDelete(t, p, u), p, u), p);
            && TablesOk(t', users)
            && Ran(ViewOf(t.parties, t.memberships, t.invites, users), Leave(p, u),
                   ViewOf(t'.parties, t'.memberships, t'.invites, users), Ok(()))
  {
    hide ViewOf, Put, MembersOf, InvitesOf, RoomOk;
    var v := ViewOf(t.parties, t.memberships, t.invites, users);
    var t1 := AfterDelete(t, p, u);
    var t2 := AfterPromote(t1, p, u);
    ViewAt(t.parties, t.memberships, t.invites, users, p);
    ViewAt(t.parties, t1.memberships, t.invites, users, p);
    ViewAfterDelete(t.parties, t.memberships, t.invites, users, p, u);
    var left := v.rooms[p].(members := v.rooms[p].members - {u});
    PutPut(v, p, Some(left), AfterLeave(v.rooms[p], u));
    if MembersOf(t1.memberships, p) == map[] {
      ReferencesAfterDrop(t.parties, t.memberships, t.invites, p, u);
      ViewAfterDrop(t.parties, t1.memberships, t.invites, users, p);
    } else if t.parties[p] == u {
      ViewAfterLeader(t.parties, t1.memberships, t.invites, users, p, t2.parties[p]);
    }
    var t' := AfterCascade(t2, p);
    RanKeepsDb(v, Leave(p, u), ViewOf(t'.parties, t'.memberships, t'.invites, users), Ok(()));
  }

  lemma NoPendingLeft(before: Invites, after: Invites, i: InviteId, p: PartyId, u: UserId)
    requires i in before && i in after && after == before[i := after[i]] && after[i].status != Pending
    requires forall j :: PendingRow(before, j, p, u) ==> j == i
    ensures forall j :: j in after && after[j].party == p && after[j].user == u ==> after[j].status != Pending
  {
    forall j | j in after && after[j].party == p && after[j].user == u
      ensures after[j].status != Pending
    {
      assert PendingRow(before, j, p, u) || j == i || before[j].status != Pending;
    }
  }

  lemma DropIs(t: Tables, p: PartyId, u: UserId)
    ensures WithoutMembers(t.memberships - {(p, u)}, p) == map k | k in t.memberships && k.0 != p :: t.memberships[k]
    ensures WithoutInvites(t.invites, p) == map i | i in t.invites && t.invites[i].party != p :: t.invites[i]
  {
  }

  predicate PendingRow(invites: Invites, i: InviteId, p: PartyId, u: UserId) {
    i in invites && invites[i].party == p && invites[i].user == u && invites[i].status == Pending
  }

  lemma PendingAt(t: Tables, users: Users, i: InviteId, p: PartyId, u: UserId)
    requires p in t.parties
    ensures var v := ViewOf(t.parties, t.memberships, t.invites, users);
            p in v.rooms && (IsPending(v.rooms[p], i, u) <==> PendingRow(t.invites, i, p, u))
  {
    ViewAt(t.parties, t.memberships, t.invites, users, p);
  }

  lemma StepDownRan(t: Tables, users: Users, op: Op)
    requires op.StepDown? && op.party in t.parties && TablesOk(t, users)
    requires t.parties[op.party] == op.leader && |MembersOf(t.memberships, op.party)| >= 2
    requires (op.party, op.target) in t.memberships
    ensures var t' := t.(parties := t.parties[op.party := op.target]);
            TablesOk(t', users) && Ran(TablesView(t, users), op, TablesView(t', users), Ok(()))
  {
    hide ViewOf, MembersOf, InvitesOf, RoomOk;
    ViewAt(t.parties, t.memberships, t.invites, users, op.party);
    MemberIn(t.memberships, op.party, op.target);
    ViewAfterLeader(t.parties, t.memberships, t.invites, users, op.party, op.target);
    RanKeepsDb(TablesView(t, users), op, TablesView(t.(parties := t.parties[op.party := op.target]), users), Ok(()));
  }

  function TablesView(t: Tables, users: Users): Db {
    ViewOf(t.parties, t.memberships, t.invites, users)
  }

  /** The invite row a Send writes, and the membership it adds for someone who never signed in. */
  ghost function AfterSend(t: Tables, users: Users, op: Op): Tables
    requires op.Send? && op.target in users
  {
    var row := InviteRow(op.party, op.target, op.leader, if users[op.target] then Pending else Accepted);
    Tables(t.parties,
           if users[op.target] then t.memberships else t.memberships[(op.party, op.target) := op.at],
           t.invites[op.invite := row])
  }

  lemma SendRan(t: Tables, users: Users, op: Op)
    requires op.Send? && op.party in t.parties && TablesOk(t, users)
    requires t.parties[op.party] == op.leader && (op.party, op.target) !in t.memberships
    requires forall i :: !PendingRow(t.invites, i, op.party, op.target)
    requires op.target in users && op.invite !in t.invites
    ensures var t' := AfterSend(t, users, op);
            TablesOk(t', users) && Ran(TablesView(t, users), op, TablesView(t', users), Ok(()))
  {
    hide ViewOf, MembersOf, InvitesOf, RoomOk, Put;
    var p := op.party;
    var v, t' := TablesView(t, users), AfterSend(t, users, op);
    ViewAt(t.parties, t.memberships, t.invites, users, p);
    MemberIn(t.memberships, p, op.target);
    forall i {
      PendingAt(t, users, i, p, op.target);
    }
    NewInviteIn(t.invites, op.invite, p);
    var row := t'.invites[op.invite];
    ViewAfterInvite(t.parties, t.memberships, t.invites, users, op.invite, row);
    var invited := v.rooms[p].(invites := v.rooms[p].invites[op.invite := Invite(row.user, row.inviter, row.status)]);
    PutPut(v, p, Some(invited), Some(invited.(members := invited.members[op.target := op.at])));
    ViewAfterInsert(t.parties, t.memberships, t'.invites, users, p, op.target, op.at);
    RanKeepsDb(v, op, TablesView(t', users), Ok(()));
  }

  lemma NewInviteIn(invites: Invites, i: InviteId, p: PartyId)
    requires i !in invites
    ensures i !in InvitesOf(invites, p)
  {
  }

  /** The rows after a reply: the invite's new status and, on accepting, the membership. */
  ghost function AfterReply(t: Tables, op: Op, i: InviteId): Tables
    requires (op.Accept? || op.Reject?) && i in t.invites
  {
    Tables(t.parties,
           if op.Accept? then t.memberships[(op.party, op.user) := op.at] else t.memberships,
           t.invites[i := t.invites[i].(status := if op.Accept? then Accepted else Rejected)])
  }

  lemma ReplyRan(t: Tables, users: Users, op: Op, i: InviteId)
    requires (op.Accept? || op.Reject?) && op.party in t.parties && TablesOk(t, users)
    requires PendingRow(t.invites, i, op.party, op.user)
    ensures (op.party, op.user) !in t.memberships && op.user in users
    ensures forall j :: PendingRow(t.invites, j, op.party, op.user) ==> j == i
    ensures var t' := AfterReply(t, op, i);
            TablesOk(t', users) && Ran(TablesView(t, users), op, TablesView(t', users), Ok(()))
  {
    hide ViewOf, MembersOf, InvitesOf, Put;
    var p := op.party;
    var v, t' := TablesView(t, users), AfterReply(t, op, i);
    ViewAt(t.parties, t.memberships, t.invites, users, p);
    MemberIn(t.memberships, p, op.user);
    forall j {
      PendingAt(t, users, j, p, op.user);
    }
    assert RoomOk(v.rooms[p], users);
    assert i == PendingInvite(v.rooms[p], op.user);
    hide RoomOk;
    var row := t'.invites[i];
    InviteAt(t.invites, i);
    ViewAfterInvite(t.parties, t.memberships, t.invites, users, i, row);
    var replied := v.rooms[p].(invites := v.rooms[p].invites[i := Invite(row.user, row.inviter, row.status)]);
    if op.Accept? {
      PutPut(v, p, Some(replied), Some(replied.(members := replied.members[op.user := op.at])));
      ViewAfterInsert(t.parties, t.memberships, t'.invites, users, p, op.user, op.at);
    }
    RanKeepsDb(v, op, TablesView(t', users), Ok(()));
  }

  lemma InviteAt(invites: Invites, i: InviteId)
    requires i in invites
    ensures i in InvitesOf(invites, invites[i].party)
    ensures InvitesOf(invites, invites[i].party)[i] == Invite(invites[i].user, invites[i].inviter, invites[i].status)
  {
  }

  class PartyStore {
    var parties: map<PartyId, UserId>
    var memberships: Memberships
    var invites: Invites
    var users: Users

    ghost function View(): Db
      reads this
    {
      ViewOf(parties, memberships, invites, users)
    }

    ghost predicate Valid()
      reads this
    {
      References(parties, memberships, invites) && DbOk(View())
    }

    constructor ()
      ensures Valid() && View() == Db(map[], map[])
    {
      parties, memberships, invites, users := map[], map[], map[], map[];
    }

    method UpsertUser(u: UserId)
      requires Valid()
      modifies this
      ensures Valid() && View() == old(View()).(users := UpsertedUsers(old(users), SignedIn(u)))
      ensures users == old(users)[u := true]
      ensures parties == old(parties) && memberships == old(memberships) && invites == old(invites)
    {
      users := users[u := true];
    }

    method UpsertFriend(u: UserId)
      requires Valid()
      modifies this
      ensures Valid() && View() == old(View()).(users := UpsertedUsers(old(users), FriendAdded(u)))
      ensures users == if u in old(users) then old(users) else old(users)[u := false]
      ensures parties == old(parties) && memberships == old(memberships) && invites == old(invites)
    {
      if u !in users {
        users := users[u := false];
      }
    }

    /** `p` is the generated id of the new party. */
    method CreateParty(p: PartyId, leader: UserId, at: Time) returns (result: Result<(), Error>)
      requires Valid() && p !in parties
      modifies this
      ensures Valid() && Ran(old(View()), Create(p, leader, at), View(), result)
      ensures users == old(users) && invites == old(invites)
      ensures result == if leader in users then Ok(()) else Err(UnknownUser)
      ensures result.Ok? ==> parties == old(parties)[p := leader] && memberships == old(memberships)[(p, leader) := at]
      ensures result.Err? ==> parties == old(parties) && memberships == old(memberships)
    {
      hide ViewOf, RoomOk;
      ghost var before := View();
      ViewAt(parties, memberships, invites, users, p);
      if leader !in users {
        return Err(UnknownUser);
      }
      ViewAfterCreate(parties, memberships, invites, users, p, leader);
      parties := parties[p := leader];
      ViewAfterInsert(parties, memberships, invites, users, p, leader, at);
      memberships := memberships[(p, leader) := at];
      result := Ok(());
      PutPut(before, p, Some(Room(leader, map[], map[])), Some(Room(leader, map[leader := at], map[])));
      RanKeepsDb(before, Create(p, leader, at), View(), result);
    }

    method LeaveParty(p: PartyId, u: UserId) returns (result: Result<(), Error>)
      requires Valid()
      modifies this
      ensures Valid() && Ran(old(View()), Leave(p, u), View(), result)
      ensures users == old(users)
      ensures result == if p in old(parties) then Ok(()) else Err(NoParty)
      ensures result.Err? ==> parties == old(parties) && memberships == old(memberships) && invites == old(invites)
      // the last membership: the party goes with all its rows, and no other row does
      ensures result.Ok? && (forall v :: (p, v) in old(memberships) ==> v == u) ==>
                && parties == old(parties) - {p}
                && memberships == (map k | k in old(memberships) && k.0 != p :: old(memberships)[k])
                && invites == (map i | i in old(invites) && old(invites)[i].party != p :: old(invites)[i])
      // otherwise one membership goes, and a leader who leaves is followed by the earliest of the rest
      ensures result.Ok? && (exists v :: (p, v) in old(memberships) && v != u) ==>
                && memberships == old(memberships) - {(p, u)} && invites == old(invites)
                && parties.Keys == old(parties).Keys && (forall q :: q in parties && q != p ==> parties[q] == old(parties)[q])
                && (old(parties)[p] != u ==> parties[p] == old(parties)[p])
                && (old(parties)[p] == u ==>
                      && (p, parties[p]) in memberships
                      && forall v :: (p, v) in memberships && v != parties[p] ==>
                           || memberships[(p, parties[p])] < memberships[(p, v)]
                           || (memberships[(p, parties[p])] == memberships[(p, v)] && parties[p] < v))
    {
      hide ViewOf, MembersOf, WithoutMembers, WithoutInvites, References, Effect, DbOk, Ran, Earliest, RoomOk;
      ghost var t := Tables(parties, memberships, invites);
      if p !in parties {
        NoPartyRan(t, users, Leave(p, u));
        return Err(NoParty);
      }
      LeaveRan(t, users, p, u);
      var leader := parties[p];
      memberships := memberships - {(p, u)};
      var rest := MembersOf(memberships, p);
      MembersCount(memberships, p);
      if leader == u && rest != map[] {
        EarliestRow(memberships, p);
        var successor := FirstMember(rest);
        parties := parties[p := successor];
      }
      if |rest| == 0 {
        DropIs(t, p, u);
        parties, memberships, invites := parties - {p}, WithoutMembers(memberships, p), WithoutInvites(invites, p);
      }
      result := Ok(());
      assert Tables(parties, memberships, invites) == AfterCascade(AfterPromote(AfterDelete(t, p, u), p, u), p);
    }

    method StepDown(p: PartyId, leader: UserId, target: UserId) returns (result: Result<(), Error>)
      requires Valid()
      modifies this
      ensures Valid() && Ran(old(View()), Op.StepDown(p, leader, target), View(), result)
      ensures users == old(users) && memberships == old(memberships) && invites == old(invites)
      ensures result ==
              if p !in old(parties) then Err(NoParty)
              else if old(parties)[p] != leader then Err(NotLeader)
              else if forall v, w :: (p, v) in memberships && (p, w) in memberships ==> v == w then Err(NoOtherMember)
              else if (p, target) !in memberships then Err(TargetNotMember)
              else Ok(())
      ensures parties == if result.Ok? then old(parties)[p := target] else old(parties)
    {
      hide ViewOf, MembersOf, References, DbOk, RoomOk;
      ghost var t := Tables(parties, memberships, invites);
      ghost var op := Op.StepDown(p, leader, target);
      ViewAt(parties, memberships, invites, users, p);
      MemberIn(memberships, p, target);
      MembersCount(memberships, p);
      if p !in parties {
        return Err(NoParty);
      }
      if parties[p] != leader {
        return Err(NotLeader);
      }
      if |MembersOf(memberships, p)| < 2 {
        return Err(NoOtherMember);
      }
      if (p, target) !in memberships {
        return Err(TargetNotMember);
      }
      StepDownRan(t, users, op);
      parties := parties[p := target];
      result := Ok(());
    }

    /** `invite` is the generated id of the new invite. */
    method SendInvite(p: PartyId, leader: UserId, target: UserId, invite: InviteId, at: Time) returns (result: Result<(), Error>)
      requires Valid() && invite !in invites
      modifies this
      ensures Valid() && Ran(old(View()), Send(p, leader, target, invite, at), View(), result)
      ensures users == old(users) && parties == old(parties)
      ensures result ==
              if p !in parties then Err(NoParty)
              else if parties[p] != leader then Err(NotLeader)
              else if (p, target) in old(memberships) then Err(AlreadyMember)
              else if exists i :: && i in old(invites) && old(invites)[i].party == p
                                  && old(invites)[i].user == target && old(invites)[i].status == Pending then Err(InvitePending)
              else if target !in users then Err(UnknownUser)
              else Ok(())
      ensures result.Err? ==> memberships == old(memberships) && invites == old(invites)
      ensures result.Ok? ==>
                if users[target] then
                  && invites == old(invites)[invite := InviteRow(p, target, leader, Pending)]
                  && memberships == old(memberships)
                else
                  && invites == old(invites)[invite := InviteRow(p, target, leader, Accepted)]
                  && memberships == old(memberships)[(p, target) := at]
    {
      hide ViewOf, MembersOf, InvitesOf, References, DbOk, RoomOk;
      ghost var t := Tables(parties, memberships, invites);
      ghost var op := Send(p, leader, target, invite, at);
      ViewAt(parties, memberships, invites, users, p);
      MemberIn(memberships, p, target);
      NewInviteIn(invites, invite, p);
      if p !in parties {
        return Err(NoParty);
      }
      if parties[p] != leader {
        return Err(NotLeader);
      }
      if (p, target) in memberships {
        return Err(AlreadyMember);
      }
      forall i {
        PendingAt(t, users, i, p, target);
      }
      if exists i :: i in invites && PendingRow(invites, i, p, target) {
        return Err(InvitePending);
      }
      if target !in users {
        return Err(UnknownUser);
      }
      SendRan(t, users, op);
      if users[target] {
        invites := invites[invite := InviteRow(p, target, leader, Pending)];
      } else {
        invites := invites[invite := InviteRow(p, target, leader, Accepted)];
        memberships := memberships[(p, target) := at];
      }
      result := Ok(());
    }

    /** The insert's key and foreign key need no branch: `ReplyRan` shows they hold. */
    method AcceptInvite(p: PartyId, u: UserId, at: Time) returns (result: Result<(), Error>)
      requires Valid()
      modifies this
      ensures Valid() && Ran(old(View()), Accept(p, u, at), View(), result)
      ensures users == old(users) && parties == old(parties)
      ensures result ==
              if p !in parties then Err(NoParty)
              else if exists i :: && i in old(invites) && old(invites)[i].party == p
                                  && old(invites)[i].user == u && old(invites)[i].status == Pending then Ok(())
              else Err(NoPendingInvite)
      ensures result.Err? ==> memberships == old(memberships) && invites == old(invites)
      ensures result.Ok? ==>
                && (p, u) !in old(memberships) && memberships == old(memberships)[(p, u) := at]
                && (exists i :: && i in old(invites) && old(invites)[i].party == p
                                && old(invites)[i].user == u && old(invites)[i].status == Pending
                                && invites == old(invites)[i := InviteRow(p, u, old(invites)[i].inviter, Accepted)])
                && forall i :: i in invites && invites[i].party == p && invites[i].user == u ==> invites[i].status != Pending
    {
      hide ViewOf, MembersOf, InvitesOf, References, DbOk, RoomOk;
      ghost var t := Tables(parties, memberships, invites);
      ViewAt(parties, memberships, invites, users, p);
      if p !in parties {
        return Err(NoParty);
      }
      forall i {
        PendingAt(t, users, i, p, u);
      }
      if i :| i in invites && PendingRow(invites, i, p, u) {
        ReplyRan(t, users, Accept(p, u, at), i);
        memberships := memberships[(p, u) := at];
        invites := invites[i := invites[i].(status := Accepted)];
        NoPendingLeft(t.invites, invites, i, p, u);
        return Ok(());
      }
      result := Err(NoPendingInvite);
    }

    method RejectInvite(p: PartyId, u: UserId) returns (result: Result<(), Error>)
      requires Valid()
      modifies this
      ensures Valid() && Ran(old(View()), Reject(p, u), View(), result)
      ensures users == old(users) && parties == old(parties)
      ensures result ==
              if p !in parties then Err(NoParty)
              else if exists i :: && i in old(invites) && old(invites)[i].party == p
                                  && old(invites)[i].user == u && old(invites)[i].status == Pending then Ok(())
              else Err(NoPendingInvite)
      ensures result.Err? ==> memberships == old(memberships) && invites == old(invites)
      ensures result.Ok? ==>
                && memberships == old(memberships)
                && (exists i :: && i in old(invites) && old(invites)[i].party == p
                                && old(invites)[i].user == u && old(invites)[i].status == Pending
                                && invites == old(invites)[i := InviteRow(p, u, old(invites)[i].inviter, Rejected)])
                && forall i :: i in invites && invites[i].party == p && invites[i].user == u ==> invites[i].status != Pending
    {
      hide ViewOf, MembersOf, InvitesOf, References, DbOk, RoomOk;
      ghost var t := Tables(parties, memberships, invites);
      ViewAt(parties, memberships, invites, users, p);
      if p !in parties {
        return Err(NoParty);
      }
      forall i {
        PendingAt(t, users, i, p, u);
      }
      if i :| i in invites && PendingRow(invites, i, p, u) {
        ReplyRan(t, users, Reject(p, u), i);
        invites := invites[i := invites[i].(status := Rejected)];
        NoPendingLeft(t.invites, invites, i, p, u);
        return Ok(());
      }
      result := Err(NoPendingInvite);
    }

    /** ORDER BY joined_at, user_id LIMIT 1. */
    static method FirstMember(members: map<UserId, Time>) returns (u: UserId)
      requires members != map[]
      ensures u == Earliest(members)
    {
      ghost var e := Earliest(members);
      u :| u in members && forall v :: v in members && v != u ==> Before((members[u], u), (members[v], v));
      assert u == e || Before((members[u], u), (members[e], e));
    }
  }
}
