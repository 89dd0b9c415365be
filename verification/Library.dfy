/** Stored libraries: what one save writes, and what reading the library back gives. */
module Library {
  import opened Wrappers
  import opened Ordering

  type UserId = int
  type AppId = int
  type SteamId = string

  /** An owned game as Steam lists it. */
  datatype Game = Game(app: AppId, name: string, icon: string)

  /** A `games` row; `fetched` is details_fetched_at IS NOT NULL. */
  datatype GameRow = GameRow(name: string, icon: string, fetched: bool, hasData: bool, multiplayer: bool)

  datatype SyncState = NeverSynced | Synced | PrivateOrNoGames

  /** A `users` row with the user's `user_games` rows: the position of each stored app id. */
  datatype UserRow = UserRow(steam: SteamId, state: SyncState, library: map<AppId, int>)

  datatype Db = Db(games: map<AppId, GameRow>, users: map<UserId, UserRow>)

  /** The foreign key of `user_games`, the width of `app_id`, and the unique key of `users`. */
  ghost predicate DbOk(db: Db) {
    && (forall u :: u in db.users ==> db.users[u].library.Keys <= db.games.Keys)
    && (forall app :: app in db.games ==> -0x8000_0000 <= app < 0x8000_0000)
    && (forall u, v :: u in db.users && v in db.users && db.users[u].steam == db.users[v].steam ==> u == v)
  }

  /** int32(x), which wraps around. */
  function ToInt32(x: int): (r: int)
    ensures -0x8000_0000 <= r < 0x8000_0000
    ensures -0x8000_0000 <= x < 0x8000_0000 ==> r == x
  {
    (x + 0x8000_0000) % 0x1_0000_0000 - 0x8000_0000
  }

  /** Ids are one int32 exactly when they are a multiple of 2^32 apart. */
  lemma SameInt32(x: int, y: int)
    ensures ToInt32(x) == ToInt32(y) <==> (x - y) % 0x1_0000_0000 == 0
  {
    var a, b := x + 0x8000_0000, y + 0x8000_0000;
    if a % 0x1_0000_0000 == b % 0x1_0000_0000 {
      assert x - y == 0x1_0000_0000 * (a / 0x1_0000_0000 - b / 0x1_0000_0000);
    }
    if (x - y) % 0x1_0000_0000 == 0 {
      assert a == b + 0x1_0000_0000 * ((x - y) / 0x1_0000_0000);
    }
  }

  // The statements of a save.

  /** One row of the arrays a save sends. */
  datatype SaveRow = SaveRow(app: AppId, name: string, icon: string, position: int)

  /** INSERT ... ON CONFLICT DO UPDATE refuses to touch a row twice. */
  predicate DistinctApps(rows: seq<SaveRow>) {
    forall i, j :: 0 <= i < j < |rows| ==> rows[i].app != rows[j].app
  }

  function Apps(rows: seq<SaveRow>): set<AppId> {
    set i | 0 <= i < |rows| :: rows[i].app
  }

  function Find(rows: seq<SaveRow>, app: AppId): Option<SaveRow> {
    if rows == [] then None
    else if rows[0].app == app then Some(rows[0])
    else Find(rows[1..], app)
  }

  /** The `games` upsert: new names and icons, fetched details untouched. */
  function MergeGames(games: map<AppId, GameRow>, rows: seq<SaveRow>): map<AppId, GameRow> {
    map a | a in games.Keys + Apps(rows) ::
      match Find(rows, a)
      case None => if a in games then games[a] else GameRow("", "", false, false, false)
      case Some(row) =>
        if a in games then games[a].(name := row.name, icon := row.icon)
        else GameRow(row.name, row.icon, false, false, false)
  }

  /** The `user_games` upsert. */
  function MergeLibrary(library: map<AppId, int>, rows: seq<SaveRow>): map<AppId, int> {
    map a | a in library.Keys + Apps(rows) ::
      match Find(rows, a)
      case None => if a in library then library[a] else 0
      case Some(row) => row.position
  }

  /** The transaction: None when a statement fails, which leaves nothing behind. */
  function SaveTx(db: Db, u: UserId, rows: seq<SaveRow>): Option<Db> {
    if !DistinctApps(rows) then None
    else if u !in db.users then (if rows == [] then Some(db) else None)
    else
      Some(Db(MergeGames(db.games, rows),
              db.users[u := db.users[u].(library := MergeLibrary(db.users[u].library, rows), state := Synced)]))
  }

  lemma {:induction false} FindIs(rows: seq<SaveRow>, app: AppId)
    ensures Find(rows, app).Some? <==> app in Apps(rows)
    ensures Find(rows, app).Some? ==> Find(rows, app).value in rows && Find(rows, app).value.app == app
  {
    if rows != [] {
      FindIs(rows[1..], app);
      assert forall i :: 0 < i < |rows| ==> rows[i] == rows[1..][i - 1];
    }
  }

  // The arrays of a save.

  /** The list's first game with its app id; the loop keeps this one. */
  predicate IsFirst(list: seq<Game>, i: int) {
    0 <= i < |list| && forall j :: 0 <= j < i ==> list[j].app != list[i].app
  }

  lemma {:induction false} FirstExists(list: seq<Game>, i: nat) returns (j: nat)
    requires i < |list|
    ensures j <= i && IsFirst(list, j) && list[j].app == list[i].app
  {
    if IsFirst(list, i) {
      j := i;
    } else {
      var k :| 0 <= k < i && list[k].app == list[i].app;
      j := FirstExists(list, k);
    }
  }

  /** The entries the loop keeps, as (app id, position). */
  ghost function Entries(list: seq<Game>): set<Row> {
    set i | 0 <= i < |list| && IsFirst(list, i) :: (list[i].app, i)
  }

  function RowOf(list: seq<Game>, i: nat): SaveRow
    requires i < |list|
  {
    SaveRow(ToInt32(list[i].app), list[i].name, list[i].icon, ToInt32(i))
  }

  predicate InList(list: seq<Game>, entries: seq<Row>) {
    forall k :: 0 <= k < |entries| ==> 0 <= entries[k].1 < |list|
  }

  function RowsOf(list: seq<Game>, entries: seq<Row>): seq<SaveRow>
    requires InList(list, entries)
  {
    seq(|entries|, k requires 0 <= k < |entries| => RowOf(list, entries[k].1))
  }

  lemma SortedEntries(list: seq<Game>)
    ensures InList(list, Sorted(Entries(list)))
    ensures Ascending(Sorted(Entries(list)))
    ensures forall x :: x in Sorted(Entries(list)) <==> x in Entries(list)
  {
    SortedIsAscending(Entries(list));
    var q := Sorted(Entries(list));
    assert forall k :: 0 <= k < |q| ==> q[k] in Entries(list);
  }

  /** The arrays: the kept games in app id order. */
  ghost function SaveArrays(list: seq<Game>): seq<SaveRow> {
    SortedEntries(list);
    RowsOf(list, Sorted(Entries(list)))
  }

  /** Two different app ids that int32 makes equal. */
  predicate Clash(list: seq<Game>) {
    exists i, j :: 0 <= i < |list| && 0 <= j < |list|
                && list[i].app != list[j].app && ToInt32(list[i].app) == ToInt32(list[j].app)
  }

  lemma ArraysHold(list: seq<Game>)
    ensures forall i :: IsFirst(list, i) ==> RowOf(list, i) in SaveArrays(list)
    ensures forall row :: row in SaveArrays(list) ==> exists i :: IsFirst(list, i) && row == RowOf(list, i)
  {
    SortedEntries(list);
    var q := Sorted(Entries(list));
    forall i | IsFirst(list, i)
      ensures RowOf(list, i) in SaveArrays(list)
    {
      assert (list[i].app, i) in q;
      var k :| 0 <= k < |q| && q[k] == (list[i].app, i);
      assert SaveArrays(list)[k] == RowOf(list, i);
    }
    forall row | row in SaveArrays(list)
      ensures exists i :: IsFirst(list, i) && row == RowOf(list, i)
    {
      var k :| 0 <= k < |q| && SaveArrays(list)[k] == row;
      assert q[k] in Entries(list);
      assert IsFirst(list, q[k].1) && row == RowOf(list, q[k].1);
    }
  }

  /** The upsert would touch a row twice exactly when two listed app ids wrap to the same one. */
  lemma ClashIsRefused(list: seq<Game>)
    ensures DistinctApps(SaveArrays(list)) <==> !Clash(list)
    ensures (forall a, b :: 0 <= a < b < |SaveArrays(list)| ==> SaveArrays(list)[a].app != SaveArrays(list)[b].app) <==>
            forall i, j :: 0 <= i < |list| && 0 <= j < |list| && ToInt32(list[i].app) == ToInt32(list[j].app) ==>
              list[i].app == list[j].app
  {
    SortedEntries(list);
    var q, rows := Sorted(Entries(list)), SaveArrays(list);
    if Clash(list) {
      var i, j :| 0 <= i < |list| && 0 <= j < |list|
               && list[i].app != list[j].app && ToInt32(list[i].app) == ToInt32(list[j].app);
      var i0 := FirstExists(list, i);
      var j0 := FirstExists(list, j);
      assert (list[i0].app, i0) in q && (list[j0].app, j0) in q;
      var a :| 0 <= a < |q| && q[a] == (list[i0].app, i0);
      var b :| 0 <= b < |q| && q[b] == (list[j0].app, j0);
      assert rows[a].app == rows[b].app && a != b;
    } else {
      forall a, b | 0 <= a < b < |rows|
        ensures rows[a].app != rows[b].app
      {
        assert Before(q[a], q[b]) && q[a] in Entries(list) && q[b] in Entries(list);
        assert IsFirst(list, q[a].1) && IsFirst(list, q[b].1);
        assert list[q[a].1].app != list[q[b].1].app;
      }
    }
  }

  // What a save means, without its arrays.

  predicate Lists(list: seq<Game>, app: AppId) {
    exists i :: 0 <= i < |list| && ToInt32(list[i].app) == app
  }

  /** The stored row of the list's i-th game: its name and icon, and the details stored before. */
  predicate GameSaved(before: Db, after: Db, list: seq<Game>, i: nat)
    requires i < |list|
  {
    var app := ToInt32(list[i].app);
    && app in after.games
    && after.games[app] ==
       (if app in before.games then before.games[app] else GameRow("", "", false, false, false))
         .(name := list[i].name, icon := list[i].icon)
  }

  predicate PositionSaved(after: Db, u: UserId, list: seq<Game>, i: nat)
    requires i < |list|
  {
    var app := ToInt32(list[i].app);
    u in after.users && app in after.users[u].library && after.users[u].library[app] == ToInt32(i)
  }

  /** Rows of unlisted apps are what they were. */
  predicate Kept(before: Db, after: Db, u: UserId, app: AppId) {
    && (app in before.games <==> app in after.games)
    && (app in before.games ==> after.games[app] == before.games[app])
    && (u in before.users ==>
        && u in after.users
        && (app in before.users[u].library <==> app in after.users[u].library)
        && (app in before.users[u].library ==> after.users[u].library[app] == before.users[u].library[app]))
  }

  /** `after` is `before` with `list` saved as the library of the known user `u`. */
  ghost predicate Saved(before: Db, u: UserId, list: seq<Game>, after: Db) {
    && u in before.users
    && after.users.Keys == before.users.Keys
    && (forall v :: v in before.users && v != u ==> after.users[v] == before.users[v])
    && after.users[u].steam == before.users[u].steam && after.users[u].state == Synced
    && (forall i :: IsFirst(list, i) ==> GameSaved(before, after, list, i) && PositionSaved(after, u, list, i))
    && (forall app :: !Lists(list, app) ==> Kept(before, after, u, app))
  }

  lemma ListedIsFirst(list: seq<Game>, app: AppId) returns (i: nat)
    requires Lists(list, app)
    ensures IsFirst(list, i) && ToInt32(list[i].app) == app
  {
    var k :| 0 <= k < |list| && ToInt32(list[k].app) == app;
    i := FirstExists(list, k);
  }

  /** The arrays hold an app's first listing and nothing else for it. */
  lemma FoundIsFirst(list: seq<Game>, app: AppId)
    requires !Clash(list)
    ensures Find(SaveArrays(list), app).Some? <==> Lists(list, app)
    ensures forall i :: IsFirst(list, i) && ToInt32(list[i].app) == app ==>
              Find(SaveArrays(list), app) == Some(RowOf(list, i))
  {
    var rows := SaveArrays(list);
    FindIs(rows, app);
    ArraysHold(list);
    forall i | IsFirst(list, i) && ToInt32(list[i].app) == app
      ensures Find(rows, app) == Some(RowOf(list, i))
    {
      assert RowOf(list, i) in rows;
      var k :| 0 <= k < |rows| && rows[k] == RowOf(list, i);
      assert rows[k].app in Apps(rows);
      var row := Find(rows, app).value;
      var j :| IsFirst(list, j) && row == RowOf(list, j);
      assert list[i].app == list[j].app;
      assert i == j;
    }
    if Lists(list, app) {
      var i := ListedIsFirst(list, app);
    }
    if Find(rows, app).Some? {
      var j :| IsFirst(list, j) && Find(rows, app).value == RowOf(list, j);
      assert ToInt32(list[j].app) == app;
    }
  }

  lemma MergedGame(db: Db, list: seq<Game>, app: AppId)
    requires !Clash(list)
    ensures app in MergeGames(db.games, SaveArrays(list)) <==> app in db.games || Lists(list, app)
    ensures app in db.games && !Lists(list, app) ==> MergeGames(db.games, SaveArrays(list))[app] == db.games[app]
  {
    FoundIsFirst(list, app);
    FindIs(SaveArrays(list), app);
  }

  lemma MergedPosition(library: map<AppId, int>, list: seq<Game>, app: AppId)
    requires !Clash(list)
    ensures app in MergeLibrary(library, SaveArrays(list)) <==> app in library || Lists(list, app)
    ensures app in library && !Lists(list, app) ==> MergeLibrary(library, SaveArrays(list))[app] == library[app]
  {
    FoundIsFirst(list, app);
    FindIs(SaveArrays(list), app);
  }

  /** A save fails exactly on clashing app ids or on an unknown user; otherwise it stores the whole list. */
  lemma SaveMeans(db: Db, u: UserId, list: seq<Game>)
    ensures SaveTx(db, u, SaveArrays(list)).None? <==> Clash(list) || (u !in db.users && list != [])
    ensures u in db.users && !Clash(list) ==> Saved(db, u, list, SaveTx(db, u, SaveArrays(list)).value)
    ensures u !in db.users && list == [] ==> SaveTx(db, u, SaveArrays(list)) == Some(db)
  {
    ClashIsRefused(list);
    ArraysHold(list);
    if list == [] {
      assert SaveArrays(list) == [];
    } else {
      assert IsFirst(list, 0);
      assert RowOf(list, 0) in SaveArrays(list);
    }
    if u in db.users && !Clash(list) {
      SaveStores(db, u, list);
    }
  }

  lemma {:induction false} SaveStores(db: Db, u: UserId, list: seq<Game>)
    requires u in db.users && !Clash(list) && DistinctApps(SaveArrays(list))
    ensures Saved(db, u, list, SaveTx(db, u, SaveArrays(list)).value)
  {
    var after := SaveTx(db, u, SaveArrays(list)).value;
    hide SaveArrays, Clash, DistinctApps;
    forall i | IsFirst(list, i)
      ensures GameSaved(db, after, list, i) && PositionSaved(after, u, list, i)
    {
      var app := ToInt32(list[i].app);
      FoundIsFirst(list, app);
      assert Lists(list, app);
      MergedGame(db, list, app);
      MergedPosition(db.users[u].library, list, app);
    }
    forall app | !Lists(list, app)
      ensures Kept(db, after, u, app)
    {
      MergedGame(db, list, app);
      MergedPosition(db.users[u].library, list, app);
    }
  }

  /** A list has at most one saved state. */
  lemma SavedIsUnique(before: Db, u: UserId, list: seq<Game>, a: Db, b: Db)
    requires Saved(before, u, list, a) && Saved(before, u, list, b)
    ensures a == b
  {
    forall app
      ensures app in a.games <==> app in b.games
      ensures app in a.games ==> a.games[app] == b.games[app]
      ensures app in a.users[u].library <==> app in b.users[u].library
      ensures app in a.users[u].library ==> a.users[u].library[app] == b.users[u].library[app]
    {
      if Lists(list, app) {
        var i := ListedIsFirst(list, app);
        assert GameSaved(before, a, list, i) && PositionSaved(a, u, list, i);
        assert GameSaved(before, b, list, i) && PositionSaved(b, u, list, i);
      } else {
        assert Kept(before, a, u, app) && Kept(before, b, u, app);
      }
    }
    assert a.games == b.games;
    assert a.users[u].library == b.users[u].library;
    assert a.users[u] == b.users[u];
    forall v | v in a.users
      ensures a.users[v] == b.users[v]
    {
      assert v == u || (a.users[v] == before.users[v] && b.users[v] == before.users[v]);
    }
    assert a.users == b.users;
  }

  /** Saving the same list again changes nothing (but the state's time stamp, not modelled). */
  lemma SaveTwice(before: Db, u: UserId, list: seq<Game>, once: Db, twice: Db)
    requires Saved(before, u, list, once) && Saved(once, u, list, twice)
    ensures twice == once
  {
    forall i | IsFirst(list, i)
      ensures GameSaved(once, once, list, i)
    {
      assert GameSaved(before, once, list, i);
    }
    assert forall i :: IsFirst(list, i) ==> PositionSaved(once, u, list, i);
    assert forall app :: Kept(once, once, u, app);
    assert Saved(once, u, list, once);
    SavedIsUnique(once, u, list, once, twice);
  }

  /** A clash that the code meets: app ids 0 and 2^32 are one int32, so neither is stored. */
  lemma WrappedIdsFail(db: Db, u: UserId)
    ensures SaveTx(db, u, SaveArrays([Game(0, "a", ""), Game(0x1_0000_0000, "b", "")])) == None
  {
    var list := [Game(0, "a", ""), Game(0x1_0000_0000, "b", "")];
    assert ToInt32(list[0].app) == ToInt32(list[1].app) && list[0].app != list[1].app;
    assert Clash(list);
    SaveMeans(db, u, list);
  }

  // Reading the library back.

  /** A library's rows as (position, app id), in `ORDER BY ug.position, g.app_id` order. */
  ghost function Order(library: map<AppId, int>): seq<Row> {
    Sorted(set a | a in library :: (library[a], a))
  }

  lemma OrderHolds(library: map<AppId, int>)
    ensures Ascending(Order(library))
    ensures forall x :: x in Order(library) <==> x.1 in library && library[x.1] == x.0
  {
    var rows := set a | a in library :: (library[a], a);
    SortedIsAscending(rows);
    forall x: Row
      ensures x in rows <==> x.1 in library && library[x.1] == x.0
    {
      if x.1 in library && library[x.1] == x.0 {
        var a := x.1;
        assert (library[a], a) in rows;
        assert x == (library[a], a);
      }
    }
  }

  function Only(rows: seq<Row>, apps: set<AppId>): seq<Row> {
    if rows == [] then []
    else (if rows[0].1 in apps then [rows[0]] else []) + Only(rows[1..], apps)
  }

  lemma {:induction false} OnlyHolds(rows: seq<Row>, apps: set<AppId>)
    ensures forall x :: x in Only(rows, apps) <==> x in rows && x.1 in apps
    ensures Ascending(rows) ==> Ascending(Only(rows, apps))
  {
    if rows != [] {
      OnlyHolds(rows[1..], apps);
      assert rows == [rows[0]] + rows[1..];
      if Ascending(rows) {
        assert Ascending(rows[1..]);
        var rest := Only(rows[1..], apps);
        forall j | 0 <= j < |rest|
          ensures Before(rows[0], rest[j])
        {
          assert rest[j] in rest;
          var k :| 0 <= k < |rows[1..]| && rows[1..][k] == rest[j];
          assert rows[k + 1] == rest[j];
        }
      }
    }
  }

  /** The first occurrences of a list, in list order. */
  function Firsts(list: seq<Game>): seq<Row> {
    if list == [] then []
    else
      var n := |list| - 1;
      Firsts(list[..n]) + if IsFirst(list, n) then [(n, ToInt32(list[n].app))] else []
  }

  lemma OneMoreFirst(list: seq<Game>, i: int)
    requires list != []
    ensures i < |list| - 1 ==> (IsFirst(list[..|list| - 1], i) <==> IsFirst(list, i))
  {
  }

  lemma {:induction false} FirstsHas(list: seq<Game>, x: Row)
    ensures x in Firsts(list) <==> IsFirst(list, x.0) && x.1 == ToInt32(list[x.0].app)
  {
    if list != [] {
      var n := |list| - 1;
      FirstsHas(list[..n], x);
      OneMoreFirst(list, x.0);
      assert IsFirst(list[..n], x.0) ==> list[..n][x.0] == list[x.0];
      hide ToInt32;
    }
  }

  lemma {:induction false} FirstsAscend(list: seq<Game>)
    ensures Ascending(Firsts(list))
  {
    if list != [] {
      var n := |list| - 1;
      var rows := Firsts(list[..n]);
      FirstsAscend(list[..n]);
      forall j | 0 <= j < |rows|
        ensures rows[j].0 < n
      {
        assert rows[j] in rows;
        FirstsHas(list[..n], rows[j]);
      }
      hide ToInt32, IsFirst;
    }
  }

  lemma FirstsHolds(list: seq<Game>)
    ensures Ascending(Firsts(list))
    ensures forall x :: x in Firsts(list) <==> IsFirst(list, x.0) && x.1 == ToInt32(list[x.0].app)
  {
    hide Firsts, Ascending, ToInt32;
    FirstsAscend(list);
    forall x: Row
      ensures x in Firsts(list) <==> IsFirst(list, x.0) && x.1 == ToInt32(list[x.0].app)
    {
      FirstsHas(list, x);
    }
  }

  /** After a save from any library, the synced games stand in first-occurrence order of the list. */
  lemma SyncedGamesKeepListOrder(before: Db, u: UserId, list: seq<Game>, after: Db)
    requires Saved(before, u, list, after) && !Clash(list) && |list| <= 0x8000_0000
    ensures Only(Order(after.users[u].library), set i | 0 <= i < |list| :: ToInt32(list[i].app)) == Firsts(list)
  {
    var library, apps := after.users[u].library, set i | 0 <= i < |list| :: ToInt32(list[i].app);
    OrderHolds(library);
    OnlyHolds(Order(library), apps);
    FirstsHolds(list);
    var got := Only(Order(library), apps);
    forall x
      ensures x in got <==> x in Firsts(list)
    {
      if x in Firsts(list) {
        assert PositionSaved(after, u, list, x.0);
      }
      if x in got {
        assert Lists(list, x.1);
        var i := ListedIsFirst(list, x.1);
        assert PositionSaved(after, u, list, i);
      }
    }
    AscendingIsUnique(got, Firsts(list));
  }

  /** From an empty library, the stored order is the list without its repeats. */
  lemma {:induction false} FreshLibraryIsTheList(before: Db, u: UserId, list: seq<Game>, after: Db)
    requires Saved(before, u, list, after) && !Clash(list) && |list| <= 0x8000_0000
    requires before.users[u].library == map[]
    ensures Order(after.users[u].library) == Firsts(list)
  {
    var library := after.users[u].library;
    OrderHolds(library);
    FirstsHolds(list);
    forall x
      ensures x in Order(library) <==> x in Firsts(list)
    {
      if x in Firsts(list) {
        assert PositionSaved(after, u, list, x.0);
      }
      if x in Order(library) {
        assert Lists(list, x.1) || Kept(before, after, u, x.1);
        var i := ListedIsFirst(list, x.1);
        assert PositionSaved(after, u, list, i);
      }
    }
    AscendingIsUnique(Order(library), Firsts(list));
  }

  /** A row of `UserGames` and of `SharedStoredGames`. */
  datatype StoredGame = StoredGame(app: AppId, row: GameRow)

  function Joined(games: map<AppId, GameRow>, rows: seq<Row>): seq<StoredGame>
    requires forall x :: x in rows ==> x.1 in games
  {
    seq(|rows|, k requires 0 <= k < |rows| => StoredGame(rows[k].1, games[rows[k].1]))
  }

  /** The user with a Steam id, which is unique. */
  ghost function UserOf(db: Db, steam: SteamId): Option<UserId> {
    if exists u :: u in db.users && db.users[u].steam == steam
    then
      var u :| u in db.users && db.users[u].steam == steam;
      Some(u)
    else None
  }

  ghost function UserGames(db: Db, steam: SteamId): seq<StoredGame>
    requires DbOk(db)
  {
    match UserOf(db, steam)
    case None => []
    case Some(u) =>
      OrderHolds(db.users[u].library);
      Joined(db.games, Order(db.users[u].library))
  }

  /** A save keeps the foreign and unique keys. */
  lemma SavedKeepsDb(before: Db, u: UserId, list: seq<Game>, after: Db)
    requires DbOk(before) && Saved(before, u, list, after)
    ensures DbOk(after)
    ensures before.games.Keys <= after.games.Keys
  {
    forall app | app in before.games
      ensures app in after.games
    {
      if Lists(list, app) {
        var i := ListedIsFirst(list, app);
        assert GameSaved(before, after, list, i);
      } else {
        assert Kept(before, after, u, app);
      }
    }
    forall app | app in after.games
      ensures -0x8000_0000 <= app < 0x8000_0000
    {
      assert Lists(list, app) || Kept(before, after, u, app);
    }
    forall app | app in after.users[u].library
      ensures app in after.games
    {
      if Lists(list, app) {
        var i := ListedIsFirst(list, app);
        assert GameSaved(before, after, list, i);
      } else {
        assert Kept(before, after, u, app);
      }
    }
    forall v | v in after.users && v != u
      ensures after.users[v] == before.users[v]
    {
    }
  }

  /** A save in columns: details are kept, new rows have none, unlisted rows and other users stay as they were. */
  lemma SavedInColumns(before: Db, u: UserId, list: seq<Game>, after: Db)
    requires Saved(before, u, list, after)
    ensures forall app :: app in before.games ==>
              && app in after.games
              && after.games[app].fetched == before.games[app].fetched
              && after.games[app].hasData == before.games[app].hasData
              && after.games[app].multiplayer == before.games[app].multiplayer
    ensures forall app :: app in after.games && app !in before.games ==>
              && !after.games[app].fetched && !after.games[app].hasData && !after.games[app].multiplayer
              && exists i :: 0 <= i < |list| && ToInt32(list[i].app) == app
    ensures forall app :: app in before.games && (forall i :: 0 <= i < |list| ==> ToInt32(list[i].app) != app) ==>
              after.games[app] == before.games[app]
    ensures forall app :: app in before.users[u].library && (forall i :: 0 <= i < |list| ==> ToInt32(list[i].app) != app) ==>
              app in after.users[u].library && after.users[u].library[app] == before.users[u].library[app]
    ensures after.users.Keys == before.users.Keys
    ensures after.users[u].state == Synced && after.users[u].steam == before.users[u].steam
    ensures forall v :: v in before.users && v != u ==> after.users[v] == before.users[v]
  {
    forall app
      ensures app in before.games || app in after.games ==>
                || (Lists(list, app) && exists i :: IsFirst(list, i) && ToInt32(list[i].app) == app && GameSaved(before, after, list, i))
                || (!Lists(list, app) && Kept(before, after, u, app))
    {
      if Lists(list, app) {
        var i := ListedIsFirst(list, app);
        assert GameSaved(before, after, list, i);
      }
    }
    forall app | app in before.users[u].library && (forall i :: 0 <= i < |list| ==> ToInt32(list[i].app) != app)
      ensures app in after.users[u].library && after.users[u].library[app] == before.users[u].library[app]
    {
      assert Kept(before, after, u, app);
    }
  }

  /** The places of the first occurrences, in order. */
  lemma {:induction false} FirstPlaces(list: seq<Game>) returns (idx: seq<nat>)
    ensures forall a, b :: 0 <= a < b < |idx| ==> idx[a] < idx[b]
    ensures forall i :: i in idx <==> 0 <= i < |list| && forall j :: 0 <= j < i ==> list[j].app != list[i].app
    ensures |idx| == |Firsts(list)|
    ensures forall k :: 0 <= k < |idx| ==> idx[k] < |list| && Firsts(list)[k] == (idx[k], ToInt32(list[idx[k]].app))
  {
    FirstsHolds(list);
    var rows := Firsts(list);
    assert forall k :: 0 <= k < |rows| ==> rows[k] in rows;
    idx := seq(|rows|, k requires 0 <= k < |rows| => rows[k].0);
    forall i | IsFirst(list, i)
      ensures i in idx
    {
      assert (i, ToInt32(list[i].app)) in rows;
      var k :| 0 <= k < |rows| && rows[k] == (i, ToInt32(list[i].app));
      assert idx[k] == i;
    }
    forall a, b | 0 <= a < b < |idx|
      ensures idx[a] < idx[b]
    {
      assert Before(rows[a], rows[b]);
    }
  }

  /**
   * The first sync of a user, read back: the listed games at the places `idx` where they first occur,
   * in list order, with their names and icons.
   */
  lemma RoundTrip(before: Db, u: UserId, list: seq<Game>, after: Db) returns (idx: seq<nat>)
    requires DbOk(before) && Saved(before, u, list, after) && !Clash(list) && |list| <= 0x8000_0000
    requires before.users[u].library == map[]
    ensures DbOk(after)
    ensures forall a, b :: 0 <= a < b < |idx| ==> idx[a] < idx[b]
    ensures forall i :: i in idx <==> 0 <= i < |list| && forall j :: 0 <= j < i ==> list[j].app != list[i].app
    ensures var got := UserGames(after, before.users[u].steam);
            && |got| == |idx|
            && forall k :: 0 <= k < |got| ==>
                 && idx[k] < |list|
                 && got[k].app == ToInt32(list[idx[k]].app)
                 && got[k].row.name == list[idx[k]].name
                 && got[k].row.icon == list[idx[k]].icon
  {
    SavedKeepsDb(before, u, list, after);
    FreshLibraryIsTheList(before, u, list, after);
    idx := FirstPlaces(list);
    OrderHolds(after.users[u].library);
    assert UserOf(after, before.users[u].steam) == Some(u) by {
      assert after.users[u].steam == before.users[u].steam;
    }
    forall k | 0 <= k < |idx|
      ensures GameSaved(before, after, list, idx[k])
    {
      assert idx[k] in idx;
      assert IsFirst(list, idx[k]);
    }
  }
}
