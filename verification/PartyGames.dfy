/** The party page's shared games, read from the store and completed by one fetch. */
module PartyGames {
  import opened Wrappers
  import opened Ordering
  import opened Library
  import opened BatchFetch
  import opened LibraryStore
  import opened SharedGames
  import Scrub

  /** Which of the store reads fail: the states, the shared games, and the shared games again. */
  datatype Reads = Reads(states: bool, shared: bool, again: bool)

  /** A library's rows in `ORDER BY ug.position, g.app_id` order. */
  method ReadOrder(library: map<AppId, int>) returns (rows: seq<Row>)
    ensures rows == Order(library)
  {
    OrderHolds(library);
    rows := [];
    var left := library.Keys;
    while left != {}
      invariant left <= library.Keys
      invariant Ascending(rows)
      invariant forall x :: x in rows <==> x.1 in library && x.1 !in left && library[x.1] == x.0
      decreases |left|
    {
      assert (forall a :: a !in left) ==> left == {};
      var a :| a in left;
      rows := InsertRow(rows, (library[a], a));
      left := left - {a};
    }
    AscendingIsUnique(rows, Order(library));
  }

  /** The query's WHERE and the scan of its rows. */
  method Select(store: LibraryStore, rows: seq<Row>, unique: seq<SteamId>) returns (shared: seq<StoredGame>)
    requires forall x :: x in rows ==> x.1 in store.games
    ensures forall x :: x in Where(store.Contents(), rows, unique) ==> x.1 in store.games
    ensures shared == Joined(store.games, Where(store.Contents(), rows, unique))
  {
    ghost var db := store.Contents();
    ghost var kept := [];
    shared := [];
    for i := 0 to |rows|
      invariant kept == Where(db, rows[..i], unique)
      invariant forall x :: x in kept ==> x.1 in store.games
      invariant shared == Joined(store.games, kept)
    {
      assert rows[..i + 1][..i] == rows[..i];
      assert rows[i] in rows;
      if |Owners(Db(store.games, store.users), unique, rows[i].1)| == |unique| {
        kept := kept + [rows[i]];
        shared := shared + [StoredGame(rows[i].1, store.games[rows[i].1])];
      }
    }
    assert rows[..|rows|] == rows;
  }

  /** SharedStoredGames: the caller's rows that every other id's user owns, in position order. */
  method SharedStoredGames(store: LibraryStore, caller: SteamId, others: seq<SteamId>) returns (shared: seq<StoredGame>)
    requires DbOk(store.Contents())
    ensures forall x :: x in SharedRows(store.Contents(), caller, others) ==> x.1 in store.games
    ensures shared == Joined(store.games, SharedRows(store.Contents(), caller, others))
  {
    var unique := UniqueStrings(others);
    shared := [];
    if u :| u in store.users && store.users[u].steam == caller {
      assert UserOf(store.Contents(), caller) == Some(u);
      var rows := ReadOrder(store.users[u].library);
      OrderHolds(store.users[u].library);
      shared := Select(store, rows, unique);
    }
  }

  /** The message about one member, if any, from the state the store returned. */
  method MemberMessage(store: LibraryStore, notes: map<UserId, SyncNote>, names: map<SteamId, string>, id: SteamId)
    returns (message: Option<string>)
    requires DbOk(store.Contents())
    ensures message == if Unusable(store.Contents(), id)
                       then Some(MessageFor(store.Contents(), notes, id, NameOf(names, id))) else None
    ensures message.None? <==> exists u :: u in store.users && store.users[u].steam == id && store.users[u].state == Synced
    ensures var name := if id in names && names[id] != "" then names[id] else id;
            && ((forall u :: u in store.users ==> store.users[u].steam != id) ==>
                  message == Some("games not synced yet for user " + name))
            && forall u :: u in store.users && store.users[u].steam == id ==>
                 match store.users[u].state
                 case Synced => message == None
                 case PrivateOrNoGames => message == Some("no games found for user " + name + ". Their list may be private")
                 case NeverSynced =>
                   message == Some(if && u in notes && notes[u].error != ""
                                      && (|| notes[u].stamp.synced.None? || notes[u].stamp.failed.None?
                                          || notes[u].stamp.failed.value > notes[u].stamp.synced.value)
                                   then name + "'s game sync failed: " + Scrub.Scrub(notes[u].error)
                                   else "games not synced yet for user " + name)
  {
    var name := if id in names then names[id] else "";
    if name == "" {
      name := id;
    }
    if u :| u in store.users && store.users[u].steam == id {
      assert UserOf(store.Contents(), id) == Some(u);
      var state := store.users[u].state;
      if state == NeverSynced {
        if u in notes && SyncFailedSinceSuccess(notes[u]) {
          return Some(name + "'s game sync failed: " + Scrub.Scrub(notes[u].error));
        }
        return Some("games not synced yet for user " + name);
      }
      if state == PrivateOrNoGames {
        return Some("no games found for user " + name + ". Their list may be private");
      }
      return None;
    }
    return Some("games not synced yet for user " + name);
  }

  /** The loop over the members. */
  method MemberMessages(store: LibraryStore, notes: map<UserId, SyncNote>, names: map<SteamId, string>, members: seq<SteamId>)
    returns (messages: seq<string>)
    requires DbOk(store.Contents())
    ensures messages == Messages(store.Contents(), notes, names, members)
    ensures messages == [] <==> forall id :: id in members ==> !Unusable(store.Contents(), id)
  {
    ghost var db := store.Contents();
    messages := [];
    for i := 0 to |members|
      invariant messages == Messages(db, notes, names, members[..i])
      invariant messages == [] <==> forall id :: id in members[..i] ==> !Unusable(db, id)
    {
      assert members[..i + 1][..i] == members[..i];
      assert forall id :: id in members[..i + 1] <==> id in members[..i] || id == members[i];
      var message := MemberMessage(store, notes, names, members[i]);
      if message.Some? {
        messages := messages + [message.value];
      }
    }
    assert members[..|members|] == members;
  }

  /** The shared apps without data, in the caller's order: what the page asks details for. */
  ghost function LackingApps(games: Games, rows: seq<Row>): seq<AppId> {
    if rows == [] then []
    else
      var n := |rows| - 1;
      LackingApps(games, rows[..n]) + if Lacks(games, rows[n].1) then [rows[n].1] else []
  }

  lemma {:induction false} LackingAppsAre(games: Games, rows: seq<Row>)
    ensures forall id :: id in LackingApps(games, rows) <==> Lacks(games, id) && exists x :: x in rows && x.1 == id
  {
    if rows != [] {
      var n := |rows| - 1;
      LackingAppsAre(games, rows[..n]);
      assert rows == rows[..n] + [rows[n]];
      forall id
        ensures id in LackingApps(games, rows) <==> Lacks(games, id) && exists x :: x in rows && x.1 == id
      {
        if Lacks(games, id) && exists x :: x in rows && x.1 == id {
          var x :| x in rows && x.1 == id;
          assert x in rows[..n] || x == rows[n];
        }
        if id in LackingApps(games, rows) {
          assert id in LackingApps(games, rows[..n]) || id == rows[n].1;
          assert rows[n] in rows;
        }
      }
    }
  }

  /** The call that fetches the data that the shared games of these members lack. */
  ghost function SharedFetch(db: Db, caller: SteamId, others: seq<SteamId>, schedule: seq<Action>): Call {
    FetchOf(db.games, LackingApps(db.games, SharedRows(db, caller, others)), schedule)
  }

  /**
   * The page's fetch asks exactly for the games that all own and that lack data, changes no other row,
   * and if every worker succeeds leaves no shared game without data.
   */
  lemma SharedFetchIsExact(db: Db, caller: SteamId, others: seq<SteamId>, schedule: seq<Action>)
    requires DbOk(db)
    ensures var ids := LackingApps(db.games, SharedRows(db, caller, others));
            var after := SharedFetch(db, caller, others, schedule).games;
            && FitsInt32(ids)
            && (forall app :: app in ids <==>
                  && app in db.games && !db.games[app].fetched
                  && forall id :: id in [caller] + others ==>
                       exists u :: u in db.users && db.users[u].steam == id && app in db.users[u].library)
            && after.Keys == db.games.Keys
            && (forall app :: app in db.games && after[app] != db.games[app] ==>
                  && !db.games[app].fetched
                  && forall id :: id in [caller] + others ==>
                       exists u :: u in db.users && db.users[u].steam == id && app in db.users[u].library)
            && (AllSucceed(SharedFetch(db, caller, others, schedule)) ==>
                  forall app :: SharedByAll(db, [caller] + others, app) ==> app in after && after[app].fetched)
  {
    var rows := SharedRows(db, caller, others);
    var ids := LackingApps(db.games, rows);
    LackingAppsAre(db.games, rows);
    SharedRowsAreTheIntersection(db, caller, others);
    FetchFills(db.games, ids, schedule);
    hide FetchOf, SharedRows, LackingApps, AllSucceed, SharedByAll;
    forall app
      ensures SharedByAll(db, [caller] + others, app) ==> app in db.games
      ensures SharedByAll(db, [caller] + others, app) <==>
              forall id :: id in [caller] + others ==>
                exists u :: u in db.users && db.users[u].steam == id && app in db.users[u].library
    {
      AllOwn(db, [caller] + others, app);
      assert caller in [caller] + others;
    }
  }

  /**
   * storedSharedGames: one message per distinct unusable member when there is one, and nothing else;
   * otherwise the data that shared games lack is fetched, and then the result is exactly the shared
   * games that have data and are multiplayer.
   */
  method StoredSharedGames(store: LibraryStore, notes: map<UserId, SyncNote>, names: map<SteamId, string>,
                           caller: SteamId, others: seq<SteamId>, answers: Reads, schedule: seq<Action>)
    returns (r: Result<(seq<Game>, seq<string>), bool>)
    requires DbOk(store.Contents())
    modifies store`games
    ensures DbOk(store.Contents()) && store.games.Keys == old(store.games).Keys
    ensures forall app :: app in store.games && store.games[app] != old(store.games)[app] ==>
              && !old(store.games)[app].fetched
              && forall id :: id in [caller] + others ==>
                   exists u :: u in store.users && store.users[u].steam == id && app in store.users[u].library
    ensures !answers.states || !answers.shared ==> store.games == old(store.games)
    ensures !answers.states ==> r == Err(false)
    ensures (exists id :: id in [caller] + others && Unusable(old(store.Contents()), id)) ==>
              && store.games == old(store.games)
              && (answers.states ==>
                    r == Ok(([], Messages(old(store.Contents()), notes, names, Unique([caller] + others)))))
    ensures (forall id :: id in [caller] + others ==> !Unusable(old(store.Contents()), id)) && answers.states && answers.shared ==>
              && store.games == SharedFetch(old(store.Contents()), caller, others, schedule).games
              && (AllSucceed(SharedFetch(old(store.Contents()), caller, others, schedule)) ==>
                    forall app :: SharedByAll(old(store.Contents()), [caller] + others, app) ==>
                      app in store.games && store.games[app].fetched)
    ensures (forall id :: id in [caller] + others ==> !Unusable(old(store.Contents()), id)) && r.Ok? ==>
              && r.value.1 == []
              && (forall app :: (exists k :: 0 <= k < |r.value.0| && r.value.0[k].app == app) <==>
                    && app in store.games && store.games[app].fetched && store.games[app].multiplayer
                    && forall id :: id in [caller] + others ==>
                         exists u :: u in store.users && store.users[u].steam == id && app in store.users[u].library)
              && (forall k :: 0 <= k < |r.value.0| ==>
                    var game := r.value.0[k];
                    && game.app in store.games
                    && game == Game(game.app, store.games[game.app].name, store.games[game.app].icon))
              && (forall u, i, j :: u in store.users && store.users[u].steam == caller && 0 <= i < j < |r.value.0| ==>
                    ReadBefore(store.users[u].library, r.value.0[i].app, r.value.0[j].app))
    ensures answers.states && answers.shared && answers.again ==> r.Ok?
  {
    ghost var db := store.Contents();
    var members := UniqueMembers(caller, others);
    UniqueHolds([caller] + others);
    if !answers.states {
      return Err(false);
    }
    var messages := MemberMessages(store, notes, names, members);
    if |messages| > 0 {
      return Ok(([], messages));
    }
    assert [caller] + members[1..] == members;
    SameRows(db, caller, others, members[1..]);
    SharedFetchIsExact(db, caller, others, schedule);
    hide SharedFetch, LackingApps, AllSucceed, FitsInt32, DbOk, Unusable, Messages, SharedRows, Unique, SharedByAll, AreGames;
    r := SharedPart(store, caller, others, members[1..], answers, schedule);
    if r.Ok? {
      SharedResultIsExact(store.Contents(), caller, others, r.value.0);
    }
  }

  /** The shared rows without data, collected in a loop. */
  method CollectLacking(ghost table: Games, ghost rows: seq<Row>, shared: seq<StoredGame>) returns (missing: seq<AppId>)
    requires forall x :: x in rows ==> x.1 in table
    requires shared == Joined(table, rows)
    ensures missing == LackingApps(table, rows)
  {
    missing := [];
    for i := 0 to |shared|
      invariant missing == LackingApps(table, rows[..i])
    {
      assert rows[..i + 1][..i] == rows[..i];
      assert rows[i] in rows;
      if !shared[i].row.fetched {
        missing := missing + [shared[i].app];
      }
    }
    assert rows[..|shared|] == rows;
  }

  /** The part after the messages: the shared rows, one fetch for those without data, and the rows again. */
  method SharedPart(store: LibraryStore, caller: SteamId, others: seq<SteamId>, rest: seq<SteamId>, answers: Reads, schedule: seq<Action>)
    returns (r: Result<(seq<Game>, seq<string>), bool>)
    requires DbOk(store.Contents())
    requires SharedRows(store.Contents(), caller, rest) == SharedRows(store.Contents(), caller, others)
    modifies store`games
    ensures DbOk(store.Contents())
    ensures store.games == if answers.shared then SharedFetch(old(store.Contents()), caller, others, schedule).games else old(store.games)
    ensures r.Ok? ==>
              && r.value.1 == []
              && AreGames(store.games, ShownRows(store.games, SharedRows(store.Contents(), caller, others)), r.value.0)
    ensures answers.shared && answers.again ==> r.Ok?
  {
    if !answers.shared {
      return Err(false);
    }
    ghost var db := store.Contents();
    ghost var rows := SharedRows(db, caller, others);
    SharedRowsAreTheIntersection(db, caller, others);
    SharedFetchIsExact(db, caller, others, schedule);
    var shared := SharedStoredGames(store, caller, rest);
    var missing := CollectLacking(store.games, rows, shared);
    hide SharedByAll, LackingApps, FetchOf, AreGames;
    if |missing| > 0 {
      var fetched := store.FetchMissingGameData(missing, schedule);
      SameKeysOk(db, store.Contents());
      SameOwners(db, store.Contents(), caller, rest);
      SameOwners(db, store.Contents(), caller, others);
      if !answers.again {
        return Err(false);
      }
      shared := SharedStoredGames(store, caller, rest);
    } else {
      NothingMissing(db.games, [], schedule);
    }
    var games := ShownGames(store.games, rows, shared);
    return Ok((games, []));
  }

  lemma SameKeysOk(a: Db, b: Db)
    requires DbOk(a) && b.users == a.users && b.games.Keys == a.games.Keys
    ensures DbOk(b)
  {
  }

  /** The last loop: shown rows as games. */
  method ShownGames(ghost table: Games, ghost rows: seq<Row>, shared: seq<StoredGame>) returns (games: seq<Game>)
    requires forall x :: x in rows ==> x.1 in table
    requires shared == Joined(table, rows)
    ensures AreGames(table, ShownRows(table, rows), games)
  {
    games := [];
    for i := 0 to |shared|
      invariant AreGames(table, ShownRows(table, rows[..i]), games)
    {
      assert rows[..i + 1][..i] == rows[..i];
      assert rows[i] in rows;
      if shared[i].row.fetched && shared[i].row.multiplayer {
        games := games + [Game(shared[i].app, shared[i].row.name, shared[i].row.icon)];
      }
    }
    assert rows[..|shared|] == rows;
  }

  /** The shared rows depend on the users and libraries only. */
  lemma SameOwners(a: Db, b: Db, caller: SteamId, others: seq<SteamId>)
    requires DbOk(a) && DbOk(b) && a.users == b.users
    ensures SharedRows(a, caller, others) == SharedRows(b, caller, others)
  {
    assert UserOf(a, caller) == UserOf(b, caller);
    if UserOf(a, caller).Some? {
      SameWhere(a, b, Order(a.users[UserOf(a, caller).value].library), Unique(others));
    }
  }

  lemma {:induction false} SameWhere(a: Db, b: Db, rows: seq<Row>, others: seq<SteamId>)
    requires a.users == b.users
    ensures Where(a, rows, others) == Where(b, rows, others)
  {
    if rows != [] {
      SameWhere(a, b, rows[..|rows| - 1], others);
      assert Owners(a, others, rows[|rows| - 1].1) == Owners(b, others, rows[|rows| - 1].1);
    }
  }

  /** Leaving the caller and repeats out of the others changes no row. */
  lemma SameRows(db: Db, caller: SteamId, others: seq<SteamId>, rest: seq<SteamId>)
    requires DbOk(db)
    requires [caller] + rest == Unique([caller] + others)
    ensures SharedRows(db, caller, rest) == SharedRows(db, caller, others)
  {
    UniqueHolds([caller] + others);
    assert forall id :: id in [caller] + rest <==> id in [caller] + others;
    SharedRowsAreTheIntersection(db, caller, others);
    SharedRowsAreTheIntersection(db, caller, rest);
    var a, b := SharedRows(db, caller, rest), SharedRows(db, caller, others);
    forall x
      ensures x in a <==> x in b
    {
      RowIsShared(db, caller, rest, x);
      RowIsShared(db, caller, others, x);
      assert SharedByAll(db, [caller] + rest, x.1) <==> SharedByAll(db, [caller] + others, x.1);
    }
    AscendingIsUnique(a, b);
  }

  lemma RowIsShared(db: Db, caller: SteamId, others: seq<SteamId>, x: Row)
    requires DbOk(db)
    ensures x in SharedRows(db, caller, others) <==>
            && UserOf(db, caller).Some?
            && x in Order(db.users[UserOf(db, caller).value].library)
            && SharedByAll(db, [caller] + others, x.1)
  {
    SharedRowsAreTheIntersection(db, caller, others);
    if UserOf(db, caller).Some? && x in Order(db.users[UserOf(db, caller).value].library) && SharedByAll(db, [caller] + others, x.1) {
      OrderHolds(db.users[UserOf(db, caller).value].library);
      var y :| y in SharedRows(db, caller, others) && y.1 == x.1;
      assert y == x;
    }
  }

  lemma AreShownApps(games: Games, shown: seq<Row>, list: seq<Game>, app: AppId)
    requires AreGames(games, shown, list)
    ensures (exists k :: 0 <= k < |list| && list[k].app == app) <==> exists x :: x in shown && x.1 == app
  {
    if exists k :: 0 <= k < |list| && list[k].app == app {
      var k :| 0 <= k < |list| && list[k].app == app;
      assert shown[k] in shown;
    }
    if exists x :: x in shown && x.1 == app {
      var x :| x in shown && x.1 == app;
      var k :| 0 <= k < |shown| && shown[k] == x;
      assert list[k].app == app;
    }
  }

  lemma ListedAreShared(db: Db, caller: SteamId, others: seq<SteamId>, list: seq<Game>, app: AppId)
    requires DbOk(db)
    requires AreGames(db.games, ShownRows(db.games, SharedRows(db, caller, others)), list)
    ensures (exists k :: 0 <= k < |list| && list[k].app == app) <==> SharedByAll(db, [caller] + others, app) && Shown(db.games, app)
  {
    var rows := SharedRows(db, caller, others);
    var shown := ShownRows(db.games, rows);
    SharedRowsAreTheIntersection(db, caller, others);
    ShownRowsHold(db.games, rows);
    AreShownApps(db.games, shown, list, app);
    hide SharedByAll, DbOk, AreGames, Shown, SharedRows, ShownRows, Ascending, UserOf, Order;
  }

  /** One app before another in `ORDER BY position, app_id`. */
  predicate ReadBefore(library: map<AppId, int>, a: AppId, b: AppId) {
    && a in library && b in library
    && (library[a] < library[b] || (library[a] == library[b] && a < b))
  }

  /** The listed games stand by the caller's stored position, and at one position by app id. */
  lemma ListedInOrder(db: Db, caller: SteamId, others: seq<SteamId>, list: seq<Game>, u: UserId)
    requires DbOk(db)
    requires AreGames(db.games, ShownRows(db.games, SharedRows(db, caller, others)), list)
    requires u in db.users && db.users[u].steam == caller
    ensures forall i, j :: 0 <= i < j < |list| ==>
              && list[i].app in db.users[u].library && list[j].app in db.users[u].library
              && (|| db.users[u].library[list[i].app] < db.users[u].library[list[j].app]
                  || (db.users[u].library[list[i].app] == db.users[u].library[list[j].app] && list[i].app < list[j].app))
    ensures forall i, j :: 0 <= i < j < |list| ==> ReadBefore(db.users[u].library, list[i].app, list[j].app)
  {
    var rows := SharedRows(db, caller, others);
    var shown := ShownRows(db.games, rows);
    SharedRowsAreTheIntersection(db, caller, others);
    ShownRowsHold(db.games, rows);
    assert UserOf(db, caller) == Some(u);
    OrderHolds(db.users[u].library);
    hide SharedRows, ShownRows, Order, UserOf, DbOk, SharedByAll, Shown;
    forall i, j | 0 <= i < j < |list|
      ensures list[i] == Game(shown[i].1, list[i].name, list[i].icon) && shown[i].1 in db.users[u].library
      ensures shown[j].1 in db.users[u].library && Before(shown[i], shown[j])
      ensures db.users[u].library[shown[i].1] == shown[i].0 && db.users[u].library[shown[j].1] == shown[j].0
    {
      assert shown[i] in shown && shown[j] in shown;
    }
  }

  /**
   * What the page shows, read off its rows: each game that all members own, once, if its data is stored and
   * multiplayer, with its stored name and icon, and by the caller's position and then the app id.
   */
  lemma SharedResultIsExact(db: Db, caller: SteamId, others: seq<SteamId>, list: seq<Game>)
    requires DbOk(db)
    requires AreGames(db.games, ShownRows(db.games, SharedRows(db, caller, others)), list)
    ensures forall app :: (exists k :: 0 <= k < |list| && list[k].app == app) <==>
              && app in db.games && db.games[app].fetched && db.games[app].multiplayer
              && forall id :: id in [caller] + others ==>
                   exists u :: u in db.users && db.users[u].steam == id && app in db.users[u].library
    ensures forall k :: 0 <= k < |list| ==>
              && list[k].app in db.games
              && list[k] == Game(list[k].app, db.games[list[k].app].name, db.games[list[k].app].icon)
    ensures forall u, i, j :: u in db.users && db.users[u].steam == caller && 0 <= i < j < |list| ==>
              ReadBefore(db.users[u].library, list[i].app, list[j].app)
  {
    hide DbOk, SharedRows, ShownRows, SharedByAll;
    forall app
      ensures (exists k :: 0 <= k < |list| && list[k].app == app) <==>
              && app in db.games && db.games[app].fetched && db.games[app].multiplayer
              && forall id :: id in [caller] + others ==>
                   exists u :: u in db.users && db.users[u].steam == id && app in db.users[u].library
    {
      ListedAreShared(db, caller, others, list, app);
      AllOwn(db, [caller] + others, app);
    }
    forall u | u in db.users && db.users[u].steam == caller
      ensures forall i, j :: 0 <= i < j < |list| ==> ReadBefore(db.users[u].library, list[i].app, list[j].app)
    {
      ListedInOrder(db, caller, others, list, u);
    }
  }
}
