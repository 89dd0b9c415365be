/** The shared games of a party: the counting query, and the page result built from it. */
module SharedGames {
  import opened Wrappers
  import opened Ordering
  import opened Library
  import opened BatchFetch
  import Scrub
  import SyncProtocol

  // The query.

  /** The users whose Steam id is listed and who own the app. */
  function Owners(db: Db, ids: seq<SteamId>, app: AppId): set<UserId> {
    set u | u in db.users && db.users[u].steam in ids && app in db.users[u].library
  }

  /** count(DISTINCT o.id) = cardinality(ids). */
  predicate CountsAll(db: Db, ids: seq<SteamId>, app: AppId) {
    |Owners(db, ids, app)| == |ids|
  }

  /** The user with this Steam id exists and owns the app. */
  predicate Owns(db: Db, id: SteamId, app: AppId) {
    exists u :: u in db.users && db.users[u].steam == id && app in db.users[u].library
  }

  lemma OwnersOfOne(db: Db, id: SteamId, app: AppId)
    requires DbOk(db)
    ensures |Owners(db, [id], app)| == if Owns(db, id, app) then 1 else 0
  {
    var owners := Owners(db, [id], app);
    forall v
      ensures v in owners <==> v in db.users && db.users[v].steam == id && app in db.users[v].library
    {
      assert v in db.users ==> (db.users[v].steam in [id] <==> db.users[v].steam == id);
    }
    if Owns(db, id, app) {
      var u :| u in db.users && db.users[u].steam == id && app in db.users[u].library;
      forall v | v in owners
        ensures v == u
      {
      }
      assert u in owners;
      assert owners == {u};
    } else {
      assert forall v :: v !in owners;
      assert owners == {};
    }
  }

  lemma OwnersSplit(db: Db, ids: seq<SteamId>, id: SteamId, app: AppId)
    requires id !in ids
    ensures |Owners(db, ids + [id], app)| == |Owners(db, ids, app)| + |Owners(db, [id], app)|
  {
    var a, b, c := Owners(db, ids, app), Owners(db, [id], app), Owners(db, ids + [id], app);
    assert forall s :: s in ids + [id] <==> s in ids || s in [id];
    assert forall s :: s in [id] ==> s !in ids;
    assert c == a + b && a !! b;
  }

  /** The count refines the intersection: it is the number of ids exactly when every one owns the app. */
  lemma {:induction false} CountIsIntersection(db: Db, ids: seq<SteamId>, app: AppId)
    requires DbOk(db) && Distinct(ids)
    ensures |Owners(db, ids, app)| <= |ids|
    ensures CountsAll(db, ids, app) <==> forall id :: id in ids ==> Owns(db, id, app)
    ensures |Owners(db, ids, app)| == |ids| <==>
            forall id :: id in ids ==>
              exists u :: u in db.users && db.users[u].steam == id && app in db.users[u].library
  {
    if ids == [] {
      assert Owners(db, ids, app) == {};
    } else {
      var n := |ids| - 1;
      var front := ids[..n];
      assert ids == front + [ids[n]];
      assert ids[n] !in front;
      CountIsIntersection(db, front, app);
      OwnersSplit(db, front, ids[n], app);
      OwnersOfOne(db, ids[n], app);
      hide DbOk, Owners, Owns, Distinct;
      assert forall id :: id in ids <==> id in front || id == ids[n];
    }
  }

  /** uniqueStrings: the distinct values at their first places. */
  function Unique(values: seq<SteamId>): seq<SteamId> {
    if values == [] then []
    else
      var n := |values| - 1;
      Unique(values[..n]) + if values[n] in values[..n] then [] else [values[n]]
  }

  lemma {:induction false} UniqueHolds(values: seq<SteamId>)
    ensures Distinct(Unique(values))
    ensures forall v :: v in Unique(values) <==> v in values
  {
    if values != [] {
      var n := |values| - 1;
      UniqueHolds(values[..n]);
      assert values == values[..n] + [values[n]];
    }
  }

  /** Wherever a kept value stands in the list, the values kept before it stand further ahead. */
  lemma {:induction false} UniqueKeepsOrder(values: seq<SteamId>)
    ensures forall a, b, i :: 0 <= a < b < |Unique(values)| && 0 <= i < |values| && values[i] == Unique(values)[b] ==>
              Unique(values)[a] in values[..i]
  {
    if values != [] {
      var n := |values| - 1;
      var front, unique := values[..n], Unique(values);
      UniqueKeepsOrder(front);
      UniqueHolds(front);
      forall a, b, i | 0 <= a < b < |unique| && 0 <= i < |values| && values[i] == unique[b]
        ensures unique[a] in values[..i]
      {
        assert unique[a] == Unique(front)[a] && Unique(front)[a] in Unique(front);
        if i < n {
          assert front[..i] == values[..i] && values[i] in front;
        }
      }
    }
  }

  lemma UniqueSnoc(values: seq<SteamId>, v: SteamId)
    ensures Unique(values + [v]) == Unique(values) + if v in values then [] else [v]
  {
    assert (values + [v])[..|values|] == values;
  }

  method UniqueStrings(values: seq<SteamId>) returns (unique: seq<SteamId>)
    ensures unique == Unique(values)
    ensures forall v :: v in unique <==> v in values
    ensures forall a, b :: 0 <= a < b < |unique| ==> unique[a] != unique[b]
    ensures forall a, b, i :: 0 <= a < b < |unique| && 0 <= i < |values| && values[i] == unique[b] ==>
              unique[a] in values[..i]
  {
    UniqueHolds(values);
    UniqueKeepsOrder(values);
    var seen: set<SteamId> := {};
    unique := [];
    for i := 0 to |values|
      invariant forall v :: v in seen <==> v in values[..i]
      invariant unique == Unique(values[..i])
    {
      OneMore(values, i);
      UniqueSnoc(values[..i], values[i]);
      if values[i] !in seen {
        seen := seen + {values[i]};
        unique := unique + [values[i]];
      }
    }
    assert values[..|values|] == values;
  }

  lemma MembersKeepOrder(caller: SteamId, others: seq<SteamId>)
    ensures var members := Unique([caller] + others);
            && (forall v :: v in members <==> v == caller || v in others)
            && (forall a, b :: 0 <= a < b < |members| ==> members[a] != members[b])
            && (|members| > 0 && members[0] == caller ==>
                  forall a, b, i :: 0 < a < b < |members| && 0 <= i < |others| && others[i] == members[b] ==>
                    members[a] in others[..i])
  {
    var values := [caller] + others;
    var members := Unique(values);
    UniqueHolds(values);
    UniqueKeepsOrder(values);
    hide Unique;
    forall a, b, i | 0 < a < b < |members| && members[0] == caller && 0 <= i < |others| && others[i] == members[b]
      ensures members[a] in others[..i]
    {
      assert values[i + 1] == members[b];
      assert members[a] in values[..i + 1];
      assert values[..i + 1] == [caller] + others[..i];
    }
  }

  /** uniqueMembers: the caller, then the other ids, none twice. */
  method UniqueMembers(caller: SteamId, others: seq<SteamId>) returns (members: seq<SteamId>)
    ensures members == Unique([caller] + others)
    ensures |members| > 0 && members[0] == caller
    ensures forall v :: v in members <==> v == caller || v in others
    ensures forall a, b :: 0 <= a < b < |members| ==> members[a] != members[b]
    ensures forall a, b, i :: 0 < a < b < |members| && 0 <= i < |others| && others[i] == members[b] ==>
              members[a] in others[..i]
  {
    members := [caller];
    var seen := {caller};
    assert Unique([caller]) == [caller];
    for i := 0 to |others|
      invariant forall v :: v in seen <==> v == caller || v in others[..i]
      invariant members == Unique([caller] + others[..i])
      invariant |members| > 0 && members[0] == caller
    {
      OneMore(others, i);
      UniqueSnoc([caller] + others[..i], others[i]);
      assert [caller] + others[..i + 1] == [caller] + others[..i] + [others[i]];
      if others[i] !in seen {
        seen := seen + {others[i]};
        members := members + [others[i]];
      }
    }
    assert others[..|others|] == others;
    MembersKeepOrder(caller, others);
  }

  function Where(db: Db, rows: seq<Row>, others: seq<SteamId>): seq<Row> {
    if rows == [] then []
    else
      var n := |rows| - 1;
      Where(db, rows[..n], others) + if CountsAll(db, others, rows[n].1) then [rows[n]] else []
  }

  lemma {:induction false} WhereHolds(db: Db, rows: seq<Row>, others: seq<SteamId>)
    ensures forall x :: x in Where(db, rows, others) <==> x in rows && CountsAll(db, others, x.1)
    ensures Ascending(rows) ==> Ascending(Where(db, rows, others))
  {
    if rows != [] {
      var n := |rows| - 1;
      var front := rows[..n];
      WhereHolds(db, front, others);
      assert rows == front + [rows[n]];
      if Ascending(rows) {
        assert Ascending(front);
        var kept := Where(db, front, others);
        forall i | 0 <= i < |kept|
          ensures Before(kept[i], rows[n])
        {
          assert kept[i] in front;
        }
      }
    }
  }

  /** SharedStoredGames: the caller's rows that the count keeps, in position order. */
  ghost function SharedRows(db: Db, caller: SteamId, others: seq<SteamId>): seq<Row> {
    match UserOf(db, caller)
    case None => []
    case Some(u) => Where(db, Order(db.users[u].library), Unique(others))
  }

  /** The apps that every listed user owns. */
  predicate SharedByAll(db: Db, ids: seq<SteamId>, app: AppId) {
    forall id :: id in ids ==> Owns(db, id, app)
  }

  lemma AllOwn(db: Db, ids: seq<SteamId>, app: AppId)
    ensures SharedByAll(db, ids, app) <==>
            forall id :: id in ids ==>
              exists u :: u in db.users && db.users[u].steam == id && app in db.users[u].library
  {
    assert forall id :: Owns(db, id, app) <==>
             exists u :: u in db.users && db.users[u].steam == id && app in db.users[u].library;
  }

  /** The rows are the caller's, in position order, and hold exactly the apps that all own, for any ids. */
  lemma SharedRowsAreTheIntersection(db: Db, caller: SteamId, others: seq<SteamId>)
    requires DbOk(db)
    ensures Ascending(SharedRows(db, caller, others))
    ensures forall x :: x in SharedRows(db, caller, others) ==>
              UserOf(db, caller).Some? && x in Order(db.users[UserOf(db, caller).value].library)
    ensures forall app :: (exists x :: x in SharedRows(db, caller, others) && x.1 == app)
                          <==> SharedByAll(db, [caller] + others, app)
  {
    UniqueHolds(others);
    forall app
      ensures CountsAll(db, Unique(others), app) <==> SharedByAll(db, others, app)
    {
      CountIsIntersection(db, Unique(others), app);
    }
    var rows := SharedRows(db, caller, others);
    if UserOf(db, caller).Some? {
      var u := UserOf(db, caller).value;
      OrderHolds(db.users[u].library);
      WhereHolds(db, Order(db.users[u].library), Unique(others));
      forall app
        ensures (exists x :: x in rows && x.1 == app) <==> SharedByAll(db, [caller] + others, app)
      {
        SharedIsCallersAndAll(db, caller, others, app);
        assert Owns(db, caller, app) <==> app in db.users[u].library;
        if SharedByAll(db, [caller] + others, app) {
          var x := (db.users[u].library[app], app);
          assert x in rows && x.1 == app;
        }
      }
    } else {
      forall app
        ensures !SharedByAll(db, [caller] + others, app)
      {
        SharedIsCallersAndAll(db, caller, others, app);
      }
    }
  }

  lemma SharedIsCallersAndAll(db: Db, caller: SteamId, others: seq<SteamId>, app: AppId)
    ensures SharedByAll(db, [caller] + others, app) <==> Owns(db, caller, app) && SharedByAll(db, others, app)
  {
    assert caller in [caller] + others;
    assert forall id :: id in [caller] + others <==> id == caller || id in others;
  }

  ghost function SharedApps(db: Db, caller: SteamId, others: seq<SteamId>): set<AppId> {
    var rows := SharedRows(db, caller, others);
    set k | 0 <= k < |rows| :: rows[k].1
  }

  lemma SharedAppsAre(db: Db, caller: SteamId, others: seq<SteamId>, app: AppId)
    requires DbOk(db)
    ensures app in SharedApps(db, caller, others) <==> SharedByAll(db, [caller] + others, app)
    ensures app in SharedApps(db, caller, others) <==>
            forall id :: id in [caller] + others ==>
              exists u :: u in db.users && db.users[u].steam == id && app in db.users[u].library
  {
    SharedRowsAreTheIntersection(db, caller, others);
    var rows := SharedRows(db, caller, others);
    if app in SharedApps(db, caller, others) {
      var k :| 0 <= k < |rows| && rows[k].1 == app;
      assert rows[k] in rows;
    }
  }

  /** The set of shared games is the same whichever member asks, and in whatever order or number the others are listed. */
  lemma AnyCallerSeesTheSame(db: Db, a: SteamId, others: seq<SteamId>, b: SteamId, rest: seq<SteamId>)
    requires DbOk(db) && forall id :: id in [a] + others <==> id in [b] + rest
    ensures SharedApps(db, a, others) == SharedApps(db, b, rest)
  {
    forall app
      ensures app in SharedApps(db, a, others) <==> app in SharedApps(db, b, rest)
    {
      SharedAppsAre(db, a, others, app);
      SharedAppsAre(db, b, rest, app);
    }
  }

  /** Another member never adds a game. */
  lemma MoreMembersShareLess(db: Db, caller: SteamId, others: seq<SteamId>, more: seq<SteamId>)
    requires DbOk(db)
    ensures SharedApps(db, caller, others + more) <= SharedApps(db, caller, others)
  {
    forall app | app in SharedApps(db, caller, others + more)
      ensures app in SharedApps(db, caller, others)
    {
      SharedAppsAre(db, caller, others + more, app);
      SharedAppsAre(db, caller, others, app);
      forall id | id in [caller] + others
        ensures Owns(db, id, app)
      {
        assert id in [caller] + (others + more);
      }
    }
  }

  // The page result.

  /** What a users row says of its library syncs: the stamps, and the stored reason ("" when none). */
  datatype SyncNote = SyncNote(stamp: SyncProtocol.Stamp, error: string)

  predicate SyncFailedSinceSuccess(note: SyncNote) {
    && note.error != ""
    && (note.stamp.synced.None? || note.stamp.failed.None? || note.stamp.failed.value > note.stamp.synced.value)
  }

  /** With a reason stored and stamped, as a recorded failure leaves it, this is the outcome the page sync reports. */
  lemma SameOutcome(notes: map<UserId, SyncNote>, stamps: map<SyncProtocol.User, SyncProtocol.Stamp>, u: UserId)
    requires u in notes && u in stamps && stamps[u] == notes[u].stamp
    requires notes[u].error != "" <==> notes[u].stamp.failed.Some?
    ensures SyncFailedSinceSuccess(notes[u]) <==> SyncProtocol.ReportsFailure(stamps, u)
  {
  }

  /** A member whose library cannot be used. */
  predicate Unusable(db: Db, id: SteamId) {
    forall u :: u in db.users && db.users[u].steam == id ==> db.users[u].state != Synced
  }

  /** The one message about an unusable member. */
  ghost function MessageFor(db: Db, notes: map<UserId, SyncNote>, id: SteamId, name: string): string {
    var u := UserOf(db, id);
    if u.Some? && db.users[u.value].state == PrivateOrNoGames then
      "no games found for user " + name + ". Their list may be private"
    else if u.Some? && u.value in notes && SyncFailedSinceSuccess(notes[u.value]) then
      name + "'s game sync failed: " + Scrub.Scrub(notes[u.value].error)
    else "games not synced yet for user " + name
  }

  function NameOf(names: map<SteamId, string>, id: SteamId): string {
    if id in names && names[id] != "" then names[id] else id
  }

  /** One message for each unusable member, in order. */
  ghost function Messages(db: Db, notes: map<UserId, SyncNote>, names: map<SteamId, string>, members: seq<SteamId>): seq<string> {
    if members == [] then []
    else
      var n := |members| - 1;
      Messages(db, notes, names, members[..n])
      + if Unusable(db, members[n]) then [MessageFor(db, notes, members[n], NameOf(names, members[n]))] else []
  }

  function UnusableIds(db: Db, ids: seq<SteamId>): set<SteamId> {
    set id | id in ids && Unusable(db, id)
  }

  lemma UnusableSnoc(db: Db, ids: seq<SteamId>, id: SteamId)
    requires id !in ids
    ensures |UnusableIds(db, ids + [id])| == |UnusableIds(db, ids)| + if Unusable(db, id) then 1 else 0
  {
    hide Unusable;
    var front, all := UnusableIds(db, ids), UnusableIds(db, ids + [id]);
    assert forall s :: s in ids + [id] <==> s in ids || s == id;
    assert all == if Unusable(db, id) then front + {id} else front;
  }

  /** As many messages as distinct members that cannot be used. */
  lemma {:induction false} MessagesCount(db: Db, notes: map<UserId, SyncNote>, names: map<SteamId, string>, members: seq<SteamId>)
    requires Distinct(members)
    ensures |Messages(db, notes, names, members)| == |UnusableIds(db, members)|
  {
    if members == [] {
      assert UnusableIds(db, members) == {};
    } else {
      var n := |members| - 1;
      MessagesCount(db, notes, names, members[..n]);
      assert members == members[..n] + [members[n]];
      assert members[n] !in members[..n];
      hide UnusableIds, Unusable, MessageFor, NameOf;
      UnusableSnoc(db, members[..n], members[n]);
    }
  }

  lemma {:induction false} MessagesFrom(db: Db, notes: map<UserId, SyncNote>, names: map<SteamId, string>, members: seq<SteamId>)
    returns (idx: seq<nat>)
    ensures |idx| == |Messages(db, notes, names, members)|
    ensures forall a, b :: 0 <= a < b < |idx| ==> idx[a] < idx[b]
    ensures forall i :: i in idx <==> 0 <= i < |members| && Unusable(db, members[i])
    ensures forall k :: 0 <= k < |idx| ==>
              && idx[k] < |members|
              && Messages(db, notes, names, members)[k] == MessageFor(db, notes, members[idx[k]], NameOf(names, members[idx[k]]))
  {
    hide Unusable, MessageFor, NameOf;
    idx := [];
    if members != [] {
      var n := |members| - 1;
      idx := MessagesFrom(db, notes, names, members[..n]);
      assert forall k :: 0 <= k < |idx| ==> idx[k] in idx;
      if Unusable(db, members[n]) {
        idx := idx + [n];
      }
    }
  }

  /** The messages stand in the members' order, one for each member without a synced row and none for others. */
  lemma MessagesAre(db: Db, notes: map<UserId, SyncNote>, names: map<SteamId, string>, members: seq<SteamId>)
    returns (idx: seq<nat>)
    ensures |idx| == |Messages(db, notes, names, members)|
    ensures forall a, b :: 0 <= a < b < |idx| ==> idx[a] < idx[b]
    ensures forall i :: i in idx <==>
              && 0 <= i < |members|
              && !(exists u :: u in db.users && db.users[u].steam == members[i] && db.users[u].state == Synced)
    ensures forall k :: 0 <= k < |idx| ==>
              && idx[k] < |members|
              && Messages(db, notes, names, members)[k] == MessageFor(db, notes, members[idx[k]], NameOf(names, members[idx[k]]))
  {
    idx := MessagesFrom(db, notes, names, members);
    hide Messages, MessageFor, NameOf;
  }

  /** The page's rows: shared games whose data is stored and multiplayer. */
  predicate Shown(games: Games, app: AppId) {
    app in games && games[app].fetched && games[app].multiplayer
  }

  ghost function ShownRows(games: Games, rows: seq<Row>): seq<Row> {
    if rows == [] then []
    else
      var n := |rows| - 1;
      ShownRows(games, rows[..n]) + if Shown(games, rows[n].1) then [rows[n]] else []
  }

  lemma {:induction false} ShownRowsHold(games: Games, rows: seq<Row>)
    ensures forall x :: x in ShownRows(games, rows) <==> x in rows && Shown(games, x.1)
    ensures Ascending(rows) ==> Ascending(ShownRows(games, rows))
  {
    if rows != [] {
      var n := |rows| - 1;
      var front := rows[..n];
      ShownRowsHold(games, front);
      assert rows == front + [rows[n]];
      if Ascending(rows) {
        assert Ascending(front);
        var kept := ShownRows(games, front);
        forall i | 0 <= i < |kept|
          ensures Before(kept[i], rows[n])
        {
          assert kept[i] in front;
        }
      }
    }
  }

  /** The games of shown rows, with their stored names and icons. */
  predicate AreGames(games: Games, rows: seq<Row>, list: seq<Game>) {
    && |list| == |rows|
    && forall k :: 0 <= k < |rows| ==>
         && rows[k].1 in games
         && list[k] == Game(rows[k].1, games[rows[k].1].name, games[rows[k].1].icon)
  }
}
