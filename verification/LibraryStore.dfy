/** The store's library writes: the save with its dedupe, arrays and retries, and the sync that calls it. */
module LibraryStore {
  import opened Wrappers
  import opened Ordering
  import opened Library
  import opened BatchFetch

  const STORE_LIBRARY_ATTEMPTS := 5

  /**
   * What the database does to one attempt of a transaction: it runs, it loses a deadlock or
   * serialization race, it breaks before the commit, or it commits and the acknowledgement is lost.
   */
  datatype Attempt = Runs | LosesRace | BreaksOff | LosesReply

  datatype TxResult = Committed | Retryable | Fatal

  /** The attempts that lose a race before any other outcome. */
  function Races(attempts: seq<Attempt>): (n: nat)
    ensures n <= |attempts| && forall k :: 0 <= k < n ==> attempts[k] == LosesRace
    ensures n < |attempts| ==> attempts[n] != LosesRace
  {
    if attempts == [] || attempts[0] != LosesRace then 0 else 1 + Races(attempts[1..])
  }

  lemma {:induction false} RacesIs(attempts: seq<Attempt>, n: nat)
    requires n <= |attempts| && forall k :: 0 <= k < n ==> attempts[k] == LosesRace
    requires n < |attempts| ==> attempts[n] != LosesRace
    ensures Races(attempts) == n
  {
    if n > 0 {
      RacesIs(attempts[1..], n - 1);
    }
  }

  /** The attempt after the lost races decides. */
  lemma FirstOther(attempts: seq<Attempt>)
    ensures Races(attempts) < |attempts| && attempts[Races(attempts)].Runs? <==>
            exists k :: 0 <= k < |attempts| && attempts[k].Runs? && forall j :: 0 <= j < k ==> attempts[j].LosesRace?
    ensures (exists k :: 0 <= k < |attempts| && attempts[k].BreaksOff? && forall j :: 0 <= j < k ==> attempts[j].LosesRace?) ==>
              Races(attempts) < |attempts| && attempts[Races(attempts)].BreaksOff?
    ensures (forall k :: 0 <= k < |attempts| ==> attempts[k].LosesRace?) ==> Races(attempts) == |attempts|
  {
  }

  /** unnest of the four arrays. */
  function Unnest(appIDs: seq<int>, names: seq<string>, icons: seq<string>, positions: seq<int>): seq<SaveRow>
    requires |appIDs| == |names| == |icons| == |positions|
  {
    seq(|appIDs|, k requires 0 <= k < |appIDs| => SaveRow(appIDs[k], names[k], icons[k], positions[k]))
  }

  /** The result of a sync: Steam's list and the save, then the details of missing games. */
  datatype SyncResult = SyncDone | DetailsFailed | SyncFailed

  class LibraryStore {
    var games: Games
    var users: map<UserId, UserRow>

    ghost function Contents(): Db
      reads this
    {
      Db(games, users)
    }

    /** The dedupe loop: each app id at its first index. */
    method KeepFirst(list: seq<Game>) returns (entries: seq<Row>)
      ensures forall x :: x in entries <==> x in Entries(list)
      ensures forall x :: x in entries <==>
                0 <= x.1 < |list| && x.0 == list[x.1].app && forall j :: 0 <= j < x.1 ==> list[j].app != x.0
      ensures forall a, b :: 0 <= a < b < |entries| ==> entries[a].0 != entries[b].0
    {
      var seen: set<AppId> := {};
      entries := [];
      for i := 0 to |list|
        invariant forall app :: app in seen <==> exists j :: 0 <= j < i && list[j].app == app
        invariant forall x :: x in entries <==> 0 <= x.1 < i && IsFirst(list, x.1) && x.0 == list[x.1].app
        invariant forall x :: x in entries ==> x.0 in seen
        invariant forall a, b :: 0 <= a < b < |entries| ==> entries[a].0 != entries[b].0
      {
        if list[i].app in seen {
          continue;
        }
        assert IsFirst(list, i);
        assert forall a :: 0 <= a < |entries| ==> entries[a] in entries;
        seen := seen + {list[i].app};
        entries := entries + [(list[i].app, i)];
      }
    }

    /** sort.Slice by app id; the ids are distinct, so there is one sorted order. */
    method SortByApp(entries: seq<Row>) returns (sorted: seq<Row>)
      requires forall a, b :: 0 <= a < b < |entries| ==> entries[a].0 != entries[b].0
      ensures sorted == Sorted((set x | x in entries))
      ensures forall x :: x in sorted <==> x in entries
      ensures forall a, b :: 0 <= a < b < |sorted| ==> sorted[a].0 < sorted[b].0
    {
      sorted := [];
      for i := 0 to |entries|
        invariant Ascending(sorted)
        invariant forall x :: x in sorted <==> x in entries[..i]
      {
        var x := entries[i];
        assert x !in sorted;
        sorted := InsertRow(sorted, x);
        assert entries[..i + 1] == entries[..i] + [x];
      }
      assert entries[..|entries|] == entries;
      forall a, b | 0 <= a < b < |sorted|
        ensures sorted[a].0 < sorted[b].0
      {
        assert Before(sorted[a], sorted[b]) && sorted[a] in entries && sorted[b] in entries;
      }
      SortedIsUnique((set x | x in entries), sorted);
    }

    /** One attempt: three statements on the transaction's own copy, published by the commit. */
    method TrySave(u: UserId, rows: seq<SaveRow>, attempt: Attempt) returns (r: TxResult)
      modifies this
      ensures Contents() ==
              if (attempt.Runs? || attempt.LosesReply?) && SaveTx(old(Contents()), u, rows).Some?
              then SaveTx(old(Contents()), u, rows).value else old(Contents())
      ensures r.Committed? <==> attempt.Runs? && SaveTx(old(Contents()), u, rows).Some?
      ensures r.Retryable? <==> attempt.LosesRace?
    {
      if attempt.LosesRace? {
        return Retryable;
      }
      if !DistinctApps(rows) {
        return Fatal;
      }
      var newGames := MergeGames(games, rows);
      if u !in users && rows != [] {
        return Fatal;
      }
      var newUsers := users;
      if u in users {
        newUsers := newUsers[u := newUsers[u].(library := MergeLibrary(newUsers[u].library, rows))];
        newUsers := newUsers[u := newUsers[u].(state := Synced)];
      }
      if attempt.BreaksOff? {
        return Fatal;
      }
      assert rows == [] ==> newGames == games;
      games, users := newGames, newUsers;
      return if attempt.Runs? then Committed else Fatal;
    }

    /** The four arrays a save sends, filled from the sorted entries. */
    method FillArrays(list: seq<Game>, entries: seq<Row>) returns (rows: seq<SaveRow>)
      requires InList(list, entries) && forall k :: 0 <= k < |entries| ==> entries[k].0 == list[entries[k].1].app
      ensures rows == RowsOf(list, entries)
      ensures |rows| == |entries|
      ensures forall k :: 0 <= k < |rows| ==>
                && rows[k].app == ToInt32(entries[k].0) && rows[k].position == ToInt32(entries[k].1)
                && rows[k].name == list[entries[k].1].name && rows[k].icon == list[entries[k].1].icon
    {
      var n := |entries|;
      var appIDs := new int[n](_ => 0);
      var names := new string[n](_ => "");
      var icons := new string[n](_ => "");
      var positions := new int[n](_ => 0);
      for i := 0 to n
        invariant forall k :: 0 <= k < i ==>
                    SaveRow(appIDs[k], names[k], icons[k], positions[k]) == RowsOf(list, entries)[k]
      {
        appIDs[i] := ToInt32(entries[i].0);
        names[i] := list[entries[i].1].name;
        icons[i] := list[entries[i].1].icon;
        positions[i] := ToInt32(entries[i].1);
      }
      rows := Unnest(appIDs[..], names[..], icons[..], positions[..]);
    }

    /** The rows of a save: the kept games in app id order. */
    method SortedRows(list: seq<Game>) returns (rows: seq<SaveRow>)
      ensures rows == SaveArrays(list)
    {
      var kept := KeepFirst(list);
      assert (set x | x in kept) == Entries(list);
      var entries := SortByApp(kept);
      SortedEntries(list);
      forall k | 0 <= k < |entries|
        ensures entries[k].0 == list[entries[k].1].app
      {
        assert entries[k] in Entries(list);
      }
      rows := FillArrays(list, entries);
    }

    /** StoreUserLibrary: the old state or exactly one save of the whole list; no error means the save. */
    method StoreUserLibrary(u: UserId, list: seq<Game>, attempts: seq<Attempt>) returns (ok: bool)
      requires |attempts| == 5
      modifies this
      ensures || Contents() == old(Contents())
              || (!Clash(list) && u in old(users) && Saved(old(Contents()), u, list, Contents()))
      ensures ok <==>
              && (exists k :: 0 <= k < 5 && attempts[k].Runs? && forall j :: 0 <= j < k ==> attempts[j].LosesRace?)
              && (forall i, j :: 0 <= i < |list| && 0 <= j < |list| && ToInt32(list[i].app) == ToInt32(list[j].app) ==>
                    list[i].app == list[j].app)
              && (u in old(users) || list == [])
      ensures ok && u in old(users) ==> Saved(old(Contents()), u, list, Contents())
      ensures (forall k :: 0 <= k < 5 ==> attempts[k].LosesRace?) ==> Contents() == old(Contents())
      ensures (exists k :: 0 <= k < 5 && attempts[k].BreaksOff? && forall j :: 0 <= j < k ==> attempts[j].LosesRace?) ==>
                Contents() == old(Contents())
    {
      var rows := SortedRows(list);
      SaveMeans(Contents(), u, list);
      FirstOther(attempts);
      assert !Clash(list) <==>
             forall i, j :: 0 <= i < |list| && 0 <= j < |list| && ToInt32(list[i].app) == ToInt32(list[j].app) ==>
               list[i].app == list[j].app;
      hide Saved, SaveTx, SaveArrays, Clash, Races;
      ok := SaveWithRetry(u, rows, attempts);
    }

    /** The retry loop: another attempt only after a lost race, and no more than five. */
    method SaveWithRetry(u: UserId, rows: seq<SaveRow>, attempts: seq<Attempt>) returns (ok: bool)
      requires |attempts| == STORE_LIBRARY_ATTEMPTS
      modifies this
      ensures ok <==> && Races(attempts) < STORE_LIBRARY_ATTEMPTS && attempts[Races(attempts)].Runs?
                      && SaveTx(old(Contents()), u, rows).Some?
      ensures Contents() ==
              if && Races(attempts) < STORE_LIBRARY_ATTEMPTS
                 && (attempts[Races(attempts)].Runs? || attempts[Races(attempts)].LosesReply?)
                 && SaveTx(old(Contents()), u, rows).Some?
              then SaveTx(old(Contents()), u, rows).value else old(Contents())
    {
      ok := false;
      var attempt := 0;
      while attempt < STORE_LIBRARY_ATTEMPTS
        invariant 0 <= attempt <= STORE_LIBRARY_ATTEMPTS
        invariant !ok && Contents() == old(Contents())
        invariant forall k :: 0 <= k < attempt ==> attempts[k].LosesRace?
      {
        var r := TrySave(u, rows, attempts[attempt]);
        ok := r.Committed?;
        if ok || !r.Retryable? {
          RacesIs(attempts, attempt);
          return;
        }
        attempt := attempt + 1;
      }
      RacesIs(attempts, STORE_LIBRARY_ATTEMPTS);
    }

    /** RecordEmptyLibrary: every row is kept, and the state says whether there are any. */
    method RecordEmptyLibrary(u: UserId, attempt: Attempt) returns (state: Option<SyncState>)
      modifies this`users
      ensures u in old(users) && (attempt.Runs? || attempt.LosesReply?) ==>
                users == old(users)[u := old(users)[u].(state :=
                           if old(users)[u].library == map[] then PrivateOrNoGames else Synced)]
      ensures u !in old(users) || attempt.LosesRace? || attempt.BreaksOff? ==> users == old(users)
      ensures state == if attempt.Runs? && u in old(users) then Some(users[u].state) else None
      ensures Contents() == old(Contents()) || (u in old(users) && Contents() == Emptied(old(Contents()), u))
    {
      if u !in users || attempt.LosesRace? || attempt.BreaksOff? {
        return None;
      }
      users := users[u := users[u].(state := if users[u].library != map[] then Synced else PrivateOrNoGames)];
      state := if attempt.Runs? then Some(users[u].state) else None;
    }

    /**
     * FetchMissingGameData, its workers taking the steps in `schedule`: the table after the call, and
     * no error exactly if the ids fit the query and every worker succeeded.
     */
    method FetchMissingGameData(ids: seq<AppId>, schedule: seq<Action>) returns (ok: bool)
      modifies this`games
      ensures games == AfterFetch(old(games), ids, schedule)
      ensures ok <==> FetchSucceeds(old(games), ids, schedule)
      ensures games.Keys == old(games).Keys
      ensures forall app :: app in games && (app !in ids || old(games)[app].fetched) ==> games[app] == old(games)[app]
      ensures ok ==> forall id :: id in ids && id in old(games) ==> id in games && games[id].fetched
    {
      FetchFills(games, ids, schedule);
      hide Run;
      if ids == [] {
        NothingMissing(games, ids, schedule);
        return true;
      }
      var missing := GamesMissingData(games, ids);
      if missing.None? {
        return false;
      }
      if missing.value == [] {
        NothingMissing(games, ids, schedule);
        return true;
      }
      var batches := MakeBatches(missing.value);
      var call := Run(games, batches, schedule);
      games := call.games;
      ok := true;
      for i := 0 to |call.pcs|
        invariant ok <==> forall j :: 0 <= j < i ==> call.pcs[j] == Done(false)
      {
        ok := ok && call.pcs[i] == Done(false);
      }
    }

    /**
     * SyncUserGames: an empty list is recorded; a non-empty one is saved and then, and only then, the
     * details its games lack are fetched.
     */
    method SyncUserGames(u: UserId, listed: Option<seq<Game>>, attempts: seq<Attempt>, schedule: seq<Action>)
      returns (r: SyncResult)
      requires |attempts| == STORE_LIBRARY_ATTEMPTS
      modifies this
      ensures SyncedTo(old(Contents()), u, listed, schedule, Contents())
      ensures r == SyncFailed ==>
                || Contents() == old(Contents())
                || (u in old(users) && listed == Some([]) && Contents() == Emptied(old(Contents()), u))
                || (listed.Some? && listed.value != [] && Saved(old(Contents()), u, listed.value, Contents()))
      ensures r != SyncFailed ==> listed.Some? && u in old(users)
      ensures r != SyncFailed && listed.value == [] ==>
                && r == SyncDone && games == old(games)
                && users == old(users)[u := old(users)[u].(state :=
                              if old(users)[u].library == map[] then PrivateOrNoGames else Synced)]
      ensures r != SyncFailed && listed.value != [] ==>
                exists mid :: && Saved(old(Contents()), u, listed.value, mid)
                              && users == mid.users
                              && games == AfterFetch(mid.games, AppIds(listed.value), schedule)
                              && (r == SyncDone <==> FetchSucceeds(mid.games, AppIds(listed.value), schedule))
      ensures r == SyncDone ==> forall i :: 0 <= i < |listed.value| ==>
                listed.value[i].app in games && games[listed.value[i].app].fetched
    {
      if listed.None? {
        return SyncFailed;
      }
      var list := listed.value;
      if |list| == 0 {
        var state := RecordEmptyLibrary(u, attempts[0]);
        return if state.Some? then SyncDone else SyncFailed;
      }
      var stored := StoreUserLibrary(u, list, attempts);
      if !stored {
        return SyncFailed;
      }
      ghost var mid := Contents();
      ListedAreSaved(old(Contents()), u, list, mid);
      hide Saved, Clash, Races, AfterFetch, FetchSucceeds;
      assert Saved(old(Contents()), u, list, mid);
      var appIDs := AppIds(list);
      var fetched := FetchMissingGameData(appIDs, schedule);
      assert users == mid.users;
      if fetched {
        SuccessFits(mid.games, appIDs, schedule);
        forall i | 0 <= i < |list|
          ensures list[i].app in games && games[list[i].app].fetched
        {
          assert appIDs[i] in appIDs;
          assert ToInt32(list[i].app) in mid.games;
        }
        return SyncDone;
      }
      return DetailsFailed;
    }
  }

  /** The app ids a sync asks details for, as Steam listed them. */
  function AppIds(list: seq<Game>): seq<AppId> {
    seq(|list|, i requires 0 <= i < |list| => list[i].app)
  }

  /** What RecordEmptyLibrary makes of a known user. */
  function Emptied(db: Db, u: UserId): Db
    requires u in db.users
  {
    db.(users := db.users[u := db.users[u].(state :=
                   if db.users[u].library != map[] then Synced else PrivateOrNoGames)])
  }

  /** The games table after a fetch; ids that the query cannot take leave it as it was. */
  function AfterFetch(games: Games, ids: seq<AppId>, schedule: seq<Action>): Games {
    if FitsInt32(ids) then FetchOf(games, ids, schedule).games else games
  }

  predicate FetchSucceeds(games: Games, ids: seq<AppId>, schedule: seq<Action>) {
    FitsInt32(ids) && AllSucceed(FetchOf(games, ids, schedule))
  }

  lemma SuccessFits(games: Games, ids: seq<AppId>, schedule: seq<Action>)
    requires FetchSucceeds(games, ids, schedule)
    ensures forall id :: id in ids ==> ToInt32(id) == id
  {
  }

  lemma ListedAreSaved(before: Db, u: UserId, list: seq<Game>, after: Db)
    requires Saved(before, u, list, after)
    ensures forall i :: 0 <= i < |list| ==> ToInt32(list[i].app) in after.games
  {
    forall i | 0 <= i < |list|
      ensures ToInt32(list[i].app) in after.games
    {
      var j := FirstExists(list, i);
      assert GameSaved(before, after, list, j);
    }
  }

  /**
   * Every state one sync of `u` may leave: nothing, the empty record, the save (when its reply was
   * lost), or the save and its details.
   */
  ghost predicate SyncedTo(before: Db, u: UserId, listed: Option<seq<Game>>, schedule: seq<Action>, after: Db) {
    || after == before
    || (u in before.users && listed == Some([]) && after == Emptied(before, u))
    || (exists mid :: && listed.Some? && listed.value != [] && !Clash(listed.value)
                      && Saved(before, u, listed.value, mid)
                      && after.users == mid.users
                      && (after.games == mid.games || after.games == AfterFetch(mid.games, AppIds(listed.value), schedule)))
  }
}
