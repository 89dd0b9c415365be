/** The invite picker lists the friends that SendInvite would take, and no others. */
module InvitePicker {
  import opened Wrappers
  import opened Ordering
  import opened Party

  type SteamId = string

  /** `users.steam_id_64`, which is unique. */
  type Directory = map<UserId, SteamId>

  datatype Player = Player(steamId: SteamId, persona: string)

  datatype Candidate = Candidate(user: UserId, steamId: SteamId, name: string)

  predicate Unique(dir: Directory) {
    forall u, v :: u in dir && v in dir && dir[u] == dir[v] ==> u == v
  }

  predicate HasRow(dir: Directory, f: SteamId) {
    exists u :: u in dir && dir[u] == f
  }

  predicate Excluded(r: Room, u: UserId) {
    u in r.members || exists i :: i in r.invites && IsPending(r, i, u)
  }

  /** The rows InviteCandidates selects. */
  predicate Selected(dir: Directory, room: Option<Room>, acting: UserId, friends: seq<SteamId>, u: UserId) {
    && u in dir && dir[u] in friends && u != acting
    && room.Some? && room.value.leader == acting && !Excluded(room.value, u)
  }

  /** A selected row as the query returns it. */
  function RowFrom(dir: Directory, persona: map<UserId, string>, u: UserId): Candidate {
    Candidate(u, if u in dir then dir[u] else "", if u in persona then persona[u] else "")
  }

  method InviteCandidates(dir: Directory, room: Option<Room>, acting: UserId, friends: seq<SteamId>, persona: map<UserId, string>)
    returns (rows: seq<Candidate>)
    ensures forall i, j :: 0 <= i < j < |rows| ==> rows[i].user < rows[j].user
    ensures forall c :: c in rows ==> Selected(dir, room, acting, friends, c.user) && c == RowFrom(dir, persona, c.user)
    ensures forall u :: Selected(dir, room, acting, friends, u) ==> exists c :: c in rows && c.user == u
    ensures forall c :: c in rows <==>
              && c.user in dir && dir[c.user] in friends && c.user != acting
              && c.steamId == dir[c.user] && c.name == (if c.user in persona then persona[c.user] else "")
              && room.Some? && room.value.leader == acting && c.user !in room.value.members
              && forall i :: i in room.value.invites && room.value.invites[i].user == c.user ==>
                   room.value.invites[i].status != Pending
  {
    rows := [];
    var todo := set u | u in dir && Selected(dir, room, acting, friends, u);
    while todo != {}
      invariant forall i, j :: 0 <= i < j < |rows| ==> rows[i].user < rows[j].user
      invariant forall c :: c in rows ==> Selected(dir, room, acting, friends, c.user) && c == RowFrom(dir, persona, c.user)
      invariant forall c, u :: c in rows && u in todo ==> c.user < u
      invariant forall u :: Selected(dir, room, acting, friends, u) ==> u in todo || exists c :: c in rows && c.user == u
      invariant forall u :: u in todo ==> Selected(dir, room, acting, friends, u)
      decreases |todo|
    {
      var u := SmallestId(todo);
      var c := Candidate(u, dir[u], if u in persona then persona[u] else "");
      assert c.user == u;
      rows := rows + [c];
      todo := todo - {u};
    }
    forall c: Candidate
      ensures Selected(dir, room, acting, friends, c.user) <==>
              && c.user in dir && dir[c.user] in friends && c.user != acting
              && room.Some? && room.value.leader == acting && c.user !in room.value.members
              && forall i :: i in room.value.invites && room.value.invites[i].user == c.user ==>
                   room.value.invites[i].status != Pending
    {
      SelectedMeans(dir, room, acting, friends, c.user);
    }
  }

  lemma SelectedMeans(dir: Directory, room: Option<Room>, acting: UserId, friends: seq<SteamId>, u: UserId)
    ensures Selected(dir, room, acting, friends, u) <==>
            && u in dir && dir[u] in friends && u != acting
            && room.Some? && room.value.leader == acting && u !in room.value.members
            && forall i :: i in room.value.invites && room.value.invites[i].user == u ==>
                 room.value.invites[i].status != Pending
  {
    assert room.Some? ==> forall i :: i in room.value.invites ==>
             (IsPending(room.value, i, u) <==> room.value.invites[i].user == u && room.value.invites[i].status == Pending);
  }

  predicate IsSmallest(u: UserId, ids: set<UserId>) {
    u in ids && forall v :: v in ids ==> u <= v
  }

  method SmallestId(ids: set<UserId>) returns (u: UserId)
    requires ids != {}
    ensures IsSmallest(u, ids)
  {
    SmallestExists(ids);
    u :| u in ids && IsSmallest(u, ids);
  }

  lemma SmallestExists(ids: set<UserId>)
    requires ids != {}
    ensures exists u :: IsSmallest(u, ids)
  {
    var rows := set u | u in ids :: (0, u);
    assert (forall u :: u !in ids) ==> ids == {};
    var x :| x in ids;
    assert (0, x) in rows;
    LeastExists(rows);
    var m :| IsLeast(m, rows);
    assert forall v :: v in ids ==> (0, v) in rows;
    assert IsSmallest(m.1, ids);
  }

  /** The Steam ids InviteExclusions returns: friends with a row who are members or have a pending invite. */
  predicate IsExclusion(dir: Directory, room: Option<Room>, friends: seq<SteamId>, f: SteamId) {
    && f in friends && room.Some?
    && exists u :: u in dir && dir[u] == f && Excluded(room.value, u)
  }

  function InviteExclusions(dir: Directory, room: Option<Room>, friends: seq<SteamId>): set<SteamId> {
    set f | f in friends && IsExclusion(dir, room, friends, f)
  }

  function SteamIds(cs: seq<Candidate>): (ids: seq<SteamId>)
    ensures |ids| == |cs|
    ensures forall i :: 0 <= i < |cs| ==> ids[i] == cs[i].steamId
  {
    seq(|cs|, i requires 0 <= i < |cs| => cs[i].steamId)
  }

  predicate Listed(dir: Directory, room: Option<Room>, acting: UserId, friends: seq<SteamId>, f: SteamId) {
    exists u :: u in dir && dir[u] == f && Selected(dir, room, acting, friends, u)
  }

  /** Friends presented from their Steam profile. */
  predicate Missing(dir: Directory, room: Option<Room>, acting: UserId, friends: seq<SteamId>, f: SteamId) {
    && f in friends
    && !(f != "" && Listed(dir, room, acting, friends, f))
    && !IsExclusion(dir, room, friends, f)
  }

  /** `steamFriends` is what the Steam client returned; `lookup` is the profile lookup, None when it failed. */
  method BuildInviteCandidates(dir: Directory, room: Option<Room>, acting: UserId, verified: SteamId,
                               persona: map<UserId, string>, steamFriends: seq<SteamId>, canLookUp: bool,
                               lookup: Option<seq<Player>>)
    returns (candidates: seq<Candidate>)
    requires Unique(dir)
    ensures var friends := Others(steamFriends, verified);
            forall f :: multiset(SteamIds(candidates))[f]
                        == (if Listed(dir, room, acting, friends, f) then 1 else 0)
                           + (if canLookUp && Missing(dir, room, acting, friends, f) then multiset(friends)[f] else 0)
    ensures forall u :: Selected(dir, room, acting, Others(steamFriends, verified), u) ==> RowFrom(dir, persona, u) in candidates
    ensures forall c :: c in candidates ==>
              || (Selected(dir, room, acting, Others(steamFriends, verified), c.user) && c == RowFrom(dir, persona, c.user))
              || (&& canLookUp && c.user == 0 && Missing(dir, room, acting, Others(steamFriends, verified), c.steamId)
                  && c.name == ProfileName(if lookup.Some? then lookup.value else [], c.steamId))
    ensures forall i, j :: 0 <= i < j < |candidates| && candidates[j].user != 0 ==> candidates[i].user < candidates[j].user
  {
    var friendIds := FriendIds(steamFriends, verified);
    var known := InviteCandidates(dir, room, acting, friendIds, persona);
    KnownOnce(dir, room, acting, friendIds, known);
    hide Listed, Selected, SteamIds, IsExclusion, RowFrom, Missing, ProfileName;
    candidates := known;
    if canLookUp {
      var missing := MissingFriends(friendIds, SeenIds(known), InviteExclusions(dir, room, friendIds));
      MissingAsListed(dir, room, acting, friendIds, known, missing);
      var players := if lookup.Some? then lookup.value else [];
      candidates := AddProfiles(known, missing, players);
      ProfilesAppended(known, missing, players, candidates);
      forall f | f in missing
        ensures Missing(dir, room, acting, friendIds, f)
      {
        assert f in multiset(missing);
      }
    }
  }

  lemma ProfilesAppended(known: seq<Candidate>, missing: seq<SteamId>, players: seq<Player>, candidates: seq<Candidate>)
    requires |candidates| == |known| + |missing| && candidates[..|known|] == known
    requires forall i :: 0 <= i < |missing| ==>
               candidates[|known| + i] == Candidate(0, missing[i], ProfileName(players, missing[i]))
    requires forall i, j :: 0 <= i < j < |known| ==> known[i].user < known[j].user
    ensures forall c :: c in known ==> c in candidates
    ensures forall c :: c in candidates ==>
              c in known || (c.user == 0 && c.steamId in missing && c.name == ProfileName(players, c.steamId))
    ensures forall i, j :: 0 <= i < j < |candidates| && candidates[j].user != 0 ==> candidates[i].user < candidates[j].user
  {
    hide ProfileName;
    assert forall k :: 0 <= k < |known| ==> candidates[k] == candidates[..|known|][k];
    forall k | |known| <= k < |candidates|
      ensures candidates[k] == Candidate(0, missing[k - |known|], ProfileName(players, missing[k - |known|]))
    {
      var i := k - |known|;
      assert candidates[|known| + i] == candidates[k];
    }
  }

  /** The name of a friend without a row: the profile's, or the Steam id when the profile has none. */
  function ProfileName(players: seq<Player>, f: SteamId): string {
    if PersonaOf(players, f) != "" then PersonaOf(players, f) else f
  }

  method FriendIds(steamFriends: seq<SteamId>, verified: SteamId) returns (friendIds: seq<SteamId>)
    ensures friendIds == Others(steamFriends, verified)
  {
    friendIds := [];
    for i := 0 to |steamFriends|
      invariant friendIds == Others(steamFriends[..i], verified)
    {
      OthersSnoc(steamFriends, i, verified);
      if steamFriends[i] != verified {
        friendIds := friendIds + [steamFriends[i]];
      }
    }
    assert steamFriends[..|steamFriends|] == steamFriends;
  }

  function SeenIds(known: seq<Candidate>): set<SteamId> {
    set c | c in known && c.steamId != "" :: c.steamId
  }

  method MissingFriends(friendIds: seq<SteamId>, seen: set<SteamId>, excluded: set<SteamId>) returns (missing: seq<SteamId>)
    ensures forall f :: multiset(missing)[f] == if f !in seen && f !in excluded then multiset(friendIds)[f] else 0
  {
    missing := [];
    for i := 0 to |friendIds|
      invariant forall f :: multiset(missing)[f]
                            == if f !in seen && f !in excluded then multiset(friendIds[..i])[f] else 0
    {
      OneMore(friendIds, i);
      if friendIds[i] !in seen && friendIds[i] !in excluded {
        missing := missing + [friendIds[i]];
      }
    }
    assert friendIds[..|friendIds|] == friendIds;
  }

  /** Presents each missing friend by their profile, or by their id when there is none. */
  method AddProfiles(known: seq<Candidate>, missing: seq<SteamId>, players: seq<Player>) returns (candidates: seq<Candidate>)
    ensures |candidates| == |known| + |missing| && candidates[..|known|] == known
    ensures forall i :: 0 <= i < |missing| ==>
              candidates[|known| + i] == Candidate(0, missing[i], ProfileName(players, missing[i]))
    ensures multiset(SteamIds(candidates)) == multiset(SteamIds(known)) + multiset(missing)
  {
    candidates := known;
    for i := 0 to |missing|
      invariant |candidates| == |known| + i && candidates[..|known|] == known
      invariant forall j :: 0 <= j < i ==>
                  candidates[|known| + j] == Candidate(0, missing[j], ProfileName(players, missing[j]))
    {
      var name := PersonaOf(players, missing[i]);
      candidates := candidates + [Candidate(0, missing[i], if name != "" then name else missing[i])];
    }
    assert forall i :: 0 <= i < |known| ==> candidates[i] == candidates[..|known|][i];
    assert SteamIds(candidates) == SteamIds(known) + missing;
  }

  lemma MissingAsListed(dir: Directory, room: Option<Room>, acting: UserId, friends: seq<SteamId>,
      known: seq<Candidate>, missing: seq<SteamId>)
    requires forall f :: multiset(SteamIds(known))[f] == if Listed(dir, room, acting, friends, f) then 1 else 0
    requires forall f :: multiset(missing)[f]
                         == if f !in SeenIds(known) && f !in InviteExclusions(dir, room, friends) then multiset(friends)[f] else 0
    ensures forall f :: multiset(missing)[f] == if Missing(dir, room, acting, friends, f) then multiset(friends)[f] else 0
  {
    hide Listed, IsExclusion;
    forall f
      ensures f in SeenIds(known) <==> f != "" && Listed(dir, room, acting, friends, f)
    {
      if f in SeenIds(known) {
        var c :| c in known && c.steamId == f;
        var i :| 0 <= i < |known| && known[i] == c;
        assert SteamIds(known)[i] == f;
        assert f in multiset(SteamIds(known));
      }
      if f != "" && Listed(dir, room, acting, friends, f) {
        assert f in multiset(SteamIds(known));
        var i :| 0 <= i < |known| && SteamIds(known)[i] == f;
        assert known[i] in known;
      }
    }
  }

  /** The last player with that id wins, as in a map filled in order. */
  function PersonaOf(players: seq<Player>, f: SteamId): string {
    if players == [] then ""
    else if players[|players| - 1].steamId == f then players[|players| - 1].persona
    else PersonaOf(players[..|players| - 1], f)
  }

  /** A profile's name is that of the last player with the id. */
  lemma {:induction false} LastPlayerWins(players: seq<Player>, f: SteamId, p: nat)
    requires p < |players| && players[p].steamId == f && forall q :: p < q < |players| ==> players[q].steamId != f
    ensures ProfileName(players, f) == if players[p].persona != "" then players[p].persona else f
  {
    var n := |players| - 1;
    if p < n {
      LastPlayerWins(players[..n], f, p);
    }
  }

  lemma {:induction false} NoProfileNoName(players: seq<Player>, f: SteamId)
    requires forall p :: 0 <= p < |players| ==> players[p].steamId != f
    ensures ProfileName(players, f) == f
  {
    if players != [] {
      NoProfileNoName(players[..|players| - 1], f);
    }
  }

  function Others(ids: seq<SteamId>, self: SteamId): seq<SteamId> {
    if ids == [] then []
    else Others(ids[..|ids| - 1], self) + if ids[|ids| - 1] == self then [] else [ids[|ids| - 1]]
  }

  lemma OthersSnoc(ids: seq<SteamId>, i: nat, self: SteamId)
    requires i < |ids|
    ensures Others(ids[..i + 1], self) == Others(ids[..i], self) + if ids[i] == self then [] else [ids[i]]
  {
    assert ids[..i + 1][..i] == ids[..i];
  }

  lemma {:induction false} OthersCount(ids: seq<SteamId>, self: SteamId, f: SteamId)
    ensures multiset(Others(ids, self))[f] == if f == self then 0 else multiset(ids)[f]
  {
    if ids != [] {
      OthersCount(ids[..|ids| - 1], self, f);
      assert ids == ids[..|ids| - 1] + [ids[|ids| - 1]];
    }
  }

  lemma {:induction false} DistinctCount<T>(q: seq<T>, x: T)
    requires Distinct(q)
    ensures multiset(q)[x] == if x in q then 1 else 0
  {
    if q != [] {
      var front := q[..|q| - 1];
      DistinctCount(front, x);
      assert q == front + [q[|q| - 1]];
    }
  }

  lemma KnownOnce(dir: Directory, room: Option<Room>, acting: UserId, friends: seq<SteamId>, known: seq<Candidate>)
    requires Unique(dir)
    requires forall i, j :: 0 <= i < j < |known| ==> known[i].user < known[j].user
    requires forall c :: c in known ==> Selected(dir, room, acting, friends, c.user) && c.steamId == dir[c.user]
    requires forall u :: Selected(dir, room, acting, friends, u) ==> exists c :: c in known && c.user == u
    ensures forall f :: multiset(SteamIds(known))[f] == if Listed(dir, room, acting, friends, f) then 1 else 0
  {
    var ids := SteamIds(known);
    forall i, j | 0 <= i < j < |ids|
      ensures ids[i] != ids[j]
    {
      assert known[i] in known && known[j] in known;
    }
    forall f
      ensures f in ids <==> Listed(dir, room, acting, friends, f)
      ensures multiset(ids)[f] == if f in ids then 1 else 0
    {
      DistinctCount(ids, f);
      if f in ids {
        var i :| 0 <= i < |ids| && ids[i] == f;
        assert known[i] in known;
      }
      if Listed(dir, room, acting, friends, f) {
        var u :| u in dir && dir[u] == f && Selected(dir, room, acting, friends, u);
        var c :| c in known && c.user == u;
        var i :| 0 <= i < |known| && known[i] == c;
        assert ids[i] == f;
      }
    }
  }

  /** How often the picker shows a friend, by BuildInviteCandidates with exclusions and profiles. */
  ghost function Shown(dir: Directory, r: Room, acting: UserId, friends: seq<SteamId>, f: SteamId): nat {
    (if Listed(dir, Some(r), acting, friends, f) then 1 else 0) + (if Missing(dir, Some(r), acting, friends, f) then multiset(friends)[f] else 0)
  }

  ghost function RowFor(dir: Directory, f: SteamId): (u: UserId)
    requires HasRow(dir, f)
    ensures u in dir && dir[u] == f
  {
    var u :| u in dir && dir[u] == f; u
  }

  /** What SendInvite answers for the friend; `newUser` is the row created for a friend without one. */
  ghost function SendOutcome(dir: Directory, r: Room, users: Users, acting: UserId, f: SteamId, invite: InviteId, at: Time,
                             newUser: UserId): Result<Option<Room>, Error>
  {
    if HasRow(dir, f) then Effect(Send(0, acting, RowFor(dir, f), invite, at), Some(r), users)
    else Effect(Send(0, acting, newUser, invite, at), Some(r), users[newUser := false])
  }

  /**
   * For any friend list: a friend whom the leader's SendInvite would refuse in the same state is not
   * shown; one it would take is shown once if they have a users row, and as often as Steam lists them
   * if not; and an invitable friend with the empty Steam id and a row is shown in both ways.
   */
  lemma PickerAgrees(dir: Directory, r: Room, users: Users, acting: UserId, verified: SteamId, steamFriends: seq<SteamId>,
                     f: SteamId, invite: InviteId, at: Time, newUser: UserId)
    requires Unique(dir) && dir.Keys == users.Keys && RoomOk(r, users)
    requires r.leader == acting && acting in dir && dir[acting] == verified
    requires f in steamFriends
    requires invite !in r.invites && newUser !in users
    ensures var outcome := SendOutcome(dir, r, users, acting, f, invite, at, newUser);
            var times := multiset(steamFriends)[f];
            Shown(dir, r, acting, Others(steamFriends, verified), f)
            == if outcome.Err? then 0
               else if !HasRow(dir, f) then times
               else if f == "" then 1 + times else 1
  {
    var friends := Others(steamFriends, verified);
    OthersCount(steamFriends, verified, f);
    assert f in friends <==> f in multiset(friends);
    if HasRow(dir, f) {
      var u := RowFor(dir, f);
      RefusedIff(r, users, acting, u, invite, at);
      assert IsExclusion(dir, Some(r), friends, f) <==> f in friends && Excluded(r, u);
      assert Listed(dir, Some(r), acting, friends, f) <==> Selected(dir, Some(r), acting, friends, u);
    } else {
      assert newUser !in r.members;
      forall i
        ensures !IsPending(r, i, newUser)
      {
        assert i in r.invites ==> r.invites[i].user in users;
      }
      assert !Listed(dir, Some(r), acting, friends, f);
    }
  }

  /** With distinct friend ids, of which none is empty: exactly once, or not at all. */
  lemma {:induction false} ShownOnceIfInvitable(dir: Directory, r: Room, users: Users, acting: UserId, verified: SteamId,
                                               steamFriends: seq<SteamId>, f: SteamId, invite: InviteId, at: Time, newUser: UserId)
    requires Unique(dir) && dir.Keys == users.Keys && RoomOk(r, users)
    requires r.leader == acting && acting in dir && dir[acting] == verified
    requires Distinct(steamFriends) && f in steamFriends && (f == "" ==> !HasRow(dir, f))
    requires invite !in r.invites && newUser !in users
    ensures Shown(dir, r, acting, Others(steamFriends, verified), f)
            == if SendOutcome(dir, r, users, acting, f, invite, at, newUser).Ok? then 1 else 0
  {
    PickerAgrees(dir, r, users, acting, verified, steamFriends, f, invite, at, newUser);
    DistinctCount(steamFriends, f);
  }

  lemma RefusedIff(r: Room, users: Users, acting: UserId, u: UserId, invite: InviteId, at: Time)
    requires RoomOk(r, users) && r.leader == acting && u in users && invite !in r.invites
    ensures Effect(Send(0, acting, u, invite, at), Some(r), users).Err? <==> Excluded(r, u)
  {
    if HasPending(r, u) {
      var i := PendingInvite(r, u);
      assert i in r.invites && IsPending(r, i, u);
    }
  }

  /** The exception is real: an invitable friend whose Steam id is empty is shown twice. */
  lemma EmptySteamIdIsShownTwice()
    ensures exists dir: Directory, r: Room, users: Users ::
              Unique(dir) && dir.Keys == users.Keys && RoomOk(r, users) && r.leader == 1 && 1 in dir && dir[1] == "L"
              && Shown(dir, r, 1, [""], "") == 2
  {
    var dir: Directory := map[1 := "L", 2 := ""];
    var r := Room(1, map[1 := 0], map[]);
    var users: Users := map[1 := true, 2 := true];
    assert RoomOk(r, users);
    assert Selected(dir, Some(r), 1, [""], 2);
    assert Listed(dir, Some(r), 1, [""], "");
    assert Shown(dir, r, 1, [""], "") == 2;
  }
}
