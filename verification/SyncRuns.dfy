/** Whole runs of library syncs: every commit of any users' syncs, in any order. */
module SyncRuns {
  import opened Wrappers
  import opened Library
  import opened BatchFetch
  import opened LibraryStore

  /**
   * One committed write: a new user, a save of a non-empty list, an empty list recorded, or one
   * batch of game data. The two writes of one user's library never overlap, because that user's
   * syncs hold their lock; those of different users do.
   */
  datatype Step =
    | NewUser(user: UserId, steam: SteamId)
    | Save(user: UserId, list: seq<Game>)
    | Empty(user: UserId)
    | Batch(ids: seq<AppId>, details: seq<Detail>)

  predicate Saves(db: Db, u: UserId, list: seq<Game>) {
    u in db.users && list != [] && !Clash(list)
  }

  ghost function Do(db: Db, step: Step): Db {
    match step
    case NewUser(u, steam) =>
      if u in db.users || exists v :: v in db.users && db.users[v].steam == steam then db
      else db.(users := db.users[u := UserRow(steam, NeverSynced, map[])])
    case Save(u, list) =>
      if Saves(db, u, list) then
        SaveMeans(db, u, list);
        SaveTx(db, u, SaveArrays(list)).value
      else db
    case Empty(u) => if u in db.users then Emptied(db, u) else db
    case Batch(ids, details) => db.(games := StoreData(db.games, DataFor(ids, details)))
  }

  ghost function After(db: Db, steps: seq<Step>): Db {
    if steps == [] then db else Do(After(db, steps[..|steps| - 1]), steps[|steps| - 1])
  }

  const EMPTY_DB := Db(map[], map[])

  /** A user is `synced` exactly when their stored library is non-empty. */
  predicate StatesMatch(db: Db) {
    forall u :: u in db.users ==> (db.users[u].state == Synced <==> db.users[u].library != map[])
  }

  lemma SaveFills(before: Db, u: UserId, list: seq<Game>, after: Db)
    requires Saved(before, u, list, after) && list != []
    ensures after.users[u].library != map[]
  {
    assert IsFirst(list, 0);
    assert PositionSaved(after, u, list, 0);
  }

  lemma StepKeeps(db: Db, step: Step)
    requires DbOk(db) && StatesMatch(db)
    ensures DbOk(Do(db, step)) && StatesMatch(Do(db, step))
  {
    match step
    case NewUser(u, steam) =>
    case Save(u, list) =>
      if Saves(db, u, list) {
        SaveMeans(db, u, list);
        var after := Do(db, step);
        hide SaveTx, SaveArrays;
        SaveFills(db, u, list, after);
        SavedKeepsDb(db, u, list, after);
        forall v | v in after.users
          ensures after.users[v].state == Synced <==> after.users[v].library != map[]
        {
          assert v != u ==> after.users[v] == db.users[v];
        }
      }
    case Empty(u) =>
    case Batch(ids, details) =>
      StoredBatch(db.games, ids, details);
  }

  /** In every reachable state, the state column matches the library and the keys hold. */
  lemma {:induction false} ReachableStatesMatch(steps: seq<Step>)
    ensures DbOk(After(EMPTY_DB, steps)) && StatesMatch(After(EMPTY_DB, steps))
    ensures var db := After(EMPTY_DB, steps);
            forall u :: u in db.users ==>
              && (db.users[u].state == Synced <==> db.users[u].library != map[])
              && (forall app :: app in db.users[u].library ==> app in db.games)
              && (forall v :: v in db.users && db.users[v].steam == db.users[u].steam ==> v == u)
  {
    if steps != [] {
      ReachableStatesMatch(steps[..|steps| - 1]);
      StepKeeps(After(EMPTY_DB, steps[..|steps| - 1]), steps[|steps| - 1]);
    }
  }

  /** What no later step undoes. */
  ghost predicate Settled(before: Db, after: Db) {
    forall u :: u in before.users ==>
      && u in after.users
      && after.users[u].steam == before.users[u].steam
      && before.users[u].library.Keys <= after.users[u].library.Keys
      && (before.users[u].state != NeverSynced ==> after.users[u].state != NeverSynced)
      && (before.users[u].state == Synced ==> after.users[u].state == Synced)
  }

  lemma SaveSettles(before: Db, u: UserId, list: seq<Game>, after: Db)
    requires Saved(before, u, list, after)
    ensures Settled(before, after)
  {
    forall app | app in before.users[u].library
      ensures app in after.users[u].library
    {
      if Lists(list, app) {
        var i := ListedIsFirst(list, app);
        assert PositionSaved(after, u, list, i);
      } else {
        assert Kept(before, after, u, app);
      }
    }
    assert forall v :: v in before.users && v != u ==> after.users[v] == before.users[v];
  }

  lemma StepSettles(db: Db, step: Step)
    requires StatesMatch(db)
    ensures Settled(db, Do(db, step))
  {
    if step.Save? && Saves(db, step.user, step.list) {
      SaveMeans(db, step.user, step.list);
      SaveSettles(db, step.user, step.list, Do(db, step));
    }
  }

  /** `never_synced` is never re-entered, `synced` never left, and no game ever leaves a library. */
  lemma {:induction false} StatesOnlyAdvance(steps: seq<Step>, k: nat)
    requires k <= |steps|
    ensures Settled(After(EMPTY_DB, steps[..k]), After(EMPTY_DB, steps))
    ensures var before, after := After(EMPTY_DB, steps[..k]), After(EMPTY_DB, steps);
            forall u :: u in before.users ==>
              && u in after.users
              && (after.users[u].state == NeverSynced ==> before.users[u].state == NeverSynced)
              && (before.users[u].state == Synced ==> after.users[u].state == Synced)
              && (forall app :: app in before.users[u].library ==> app in after.users[u].library)
    decreases |steps|
  {
    if k == |steps| {
      assert steps[..k] == steps;
    } else {
      var n := |steps| - 1;
      StatesOnlyAdvance(steps[..n], k);
      assert steps[..n][..k] == steps[..k];
      ReachableStatesMatch(steps[..n]);
      StepSettles(After(EMPTY_DB, steps[..n]), steps[n]);
      Chain(After(EMPTY_DB, steps[..k]), After(EMPTY_DB, steps[..n]), After(EMPTY_DB, steps));
    }
  }

  lemma Chain(a: Db, b: Db, c: Db)
    requires Settled(a, b) && Settled(b, c)
    ensures Settled(a, c)
  {
  }

  /** The app ids of every list saved for `u`, as int32. */
  ghost function SavedApps(steps: seq<Step>, u: UserId): set<AppId> {
    if steps == [] then {}
    else
      var n := |steps| - 1;
      var step := steps[n];
      SavedApps(steps[..n], u) +
      if step.Save? && step.user == u && Saves(After(EMPTY_DB, steps[..n]), u, step.list)
      then set i | 0 <= i < |step.list| :: ToInt32(step.list[i].app)
      else {}
  }

  lemma SaveAddsApps(before: Db, u: UserId, list: seq<Game>, after: Db)
    requires Saved(before, u, list, after)
    ensures after.users[u].library.Keys ==
            before.users[u].library.Keys + (set i | 0 <= i < |list| :: ToInt32(list[i].app))
  {
    forall app
      ensures app in after.users[u].library <==>
              app in before.users[u].library || exists i :: 0 <= i < |list| && ToInt32(list[i].app) == app
    {
      if Lists(list, app) {
        var i := ListedIsFirst(list, app);
        assert PositionSaved(after, u, list, i);
      } else {
        assert Kept(before, after, u, app);
      }
    }
  }

  /** Conservation: a stored library is exactly the union of the lists ever saved for that user. */
  lemma {:induction false} LibraryIsEverySave(steps: seq<Step>, u: UserId)
    requires u in After(EMPTY_DB, steps).users
    ensures After(EMPTY_DB, steps).users[u].library.Keys == SavedApps(steps, u)
  {
    var n := |steps| - 1;
    var before, step := After(EMPTY_DB, steps[..n]), steps[n];
    var after := Do(before, step);
    if u in before.users {
      LibraryIsEverySave(steps[..n], u);
    } else {
      UnknownHasNone(steps[..n], u);
    }
    StepAddsApps(before, step, u);
  }

  lemma StepAddsApps(db: Db, step: Step, u: UserId)
    requires u in Do(db, step).users
    ensures Do(db, step).users[u].library.Keys
            == (if u in db.users then db.users[u].library.Keys else {})
               + if step.Save? && step.user == u && Saves(db, u, step.list)
                 then set i | 0 <= i < |step.list| :: ToInt32(step.list[i].app) else {}
  {
    if step.Save? && Saves(db, step.user, step.list) {
      SaveMeans(db, step.user, step.list);
      var after := Do(db, step);
      hide SaveTx, SaveArrays, Clash;
      if step.user == u {
        SaveAddsApps(db, u, step.list, after);
      } else {
        assert u in db.users && after.users[u] == db.users[u];
      }
    }
  }

  lemma {:induction false} UnknownHasNone(steps: seq<Step>, u: UserId)
    requires u !in After(EMPTY_DB, steps).users
    ensures SavedApps(steps, u) == {}
  {
    if steps != [] {
      var n := |steps| - 1;
      ReachableStatesMatch(steps[..n]);
      StepSettles(After(EMPTY_DB, steps[..n]), steps[n]);
      UnknownHasNone(steps[..n], u);
    }
  }

  /** A library is empty, and its user not `synced`, exactly until a list is saved for them. */
  lemma SyncedAfterFirstSave(steps: seq<Step>, u: UserId)
    requires u in After(EMPTY_DB, steps).users
    ensures After(EMPTY_DB, steps).users[u].state == Synced <==> SavedApps(steps, u) != {}
  {
    ReachableStatesMatch(steps);
    LibraryIsEverySave(steps, u);
    var library := After(EMPTY_DB, steps).users[u].library;
    assert library == map[] <==> library.Keys == {};
  }

  /** Step k saves a list for `u`. */
  ghost predicate SavesAt(steps: seq<Step>, k: nat, u: UserId)
    requires k < |steps|
  {
    steps[k].Save? && steps[k].user == u && Saves(After(EMPTY_DB, steps[..k]), u, steps[k].list)
  }

  /** Step k records an empty list for the known user `u`. */
  ghost predicate EmptiesAt(steps: seq<Step>, k: nat, u: UserId)
    requires k < |steps|
  {
    steps[k] == Empty(u) && u in After(EMPTY_DB, steps[..k]).users
  }

  lemma FrontAt(steps: seq<Step>, n: nat, k: nat, u: UserId)
    requires k < n <= |steps|
    ensures SavesAt(steps[..n], k, u) <==> SavesAt(steps, k, u)
    ensures EmptiesAt(steps[..n], k, u) <==> EmptiesAt(steps, k, u)
  {
    assert steps[..n][..k] == steps[..k];
  }

  /** What one step makes of the state of a user it knows. */
  lemma StepSetsState(db: Db, step: Step, u: UserId)
    requires u in db.users && StatesMatch(db)
    ensures u in Do(db, step).users
    ensures Do(db, step).users[u].state
            == if step.Save? && step.user == u && Saves(db, u, step.list) then Synced
               else if step == Empty(u) && db.users[u].state != Synced then PrivateOrNoGames
               else db.users[u].state
  {
    if step.Save? && Saves(db, step.user, step.list) {
      SaveMeans(db, step.user, step.list);
    }
  }

  ghost predicate SawSave(steps: seq<Step>, u: UserId) {
    exists k :: 0 <= k < |steps| && SavesAt(steps, k, u)
  }

  ghost predicate SawEmpty(steps: seq<Step>, u: UserId) {
    exists k :: 0 <= k < |steps| && EmptiesAt(steps, k, u)
  }

  lemma OneMoreStep(steps: seq<Step>, n: nat, u: UserId)
    requires |steps| == n + 1
    ensures SawSave(steps, u) <==> SawSave(steps[..n], u) || SavesAt(steps, n, u)
    ensures SawEmpty(steps, u) <==> SawEmpty(steps[..n], u) || EmptiesAt(steps, n, u)
  {
    hide SavesAt, EmptiesAt;
    forall k | 0 <= k < n
      ensures SavesAt(steps[..n], k, u) <==> SavesAt(steps, k, u)
      ensures EmptiesAt(steps[..n], k, u) <==> EmptiesAt(steps, k, u)
    {
      FrontAt(steps, n, k, u);
    }
  }

  lemma UnknownSawNothing(steps: seq<Step>, u: UserId)
    requires u !in After(EMPTY_DB, steps).users
    ensures !SawSave(steps, u) && !SawEmpty(steps, u)
  {
    forall k | 0 <= k < |steps|
      ensures !SavesAt(steps, k, u) && !EmptiesAt(steps, k, u)
    {
      StatesOnlyAdvance(steps, k);
    }
  }

  lemma NewUserState(db: Db, step: Step, u: UserId)
    requires u !in db.users && u in Do(db, step).users
    ensures step.NewUser? && Do(db, step).users[u].state == NeverSynced
  {
    if step.Save? && Saves(db, step.user, step.list) {
      SaveMeans(db, step.user, step.list);
    }
  }

  lemma {:induction false} StateSaw(steps: seq<Step>, u: UserId)
    requires u in After(EMPTY_DB, steps).users
    ensures After(EMPTY_DB, steps).users[u].state
            == if SawSave(steps, u) then Synced else if SawEmpty(steps, u) then PrivateOrNoGames else NeverSynced
  {
    var n := |steps| - 1;
    var step, before := steps[n], After(EMPTY_DB, steps[..n]);
    ReachableStatesMatch(steps[..n]);
    OneMoreStep(steps, n, u);
    if u in before.users {
      StateSaw(steps[..n], u);
      StepSetsState(before, step, u);
    } else {
      UnknownSawNothing(steps[..n], u);
      NewUserState(before, step, u);
    }
  }

  /**
   * The state is the user's history: `synced` exactly after a saved list, `private_or_no_games` exactly
   * after a recorded empty list and no saved one, and `never_synced` exactly after neither.
   */
  lemma StateIsHistory(steps: seq<Step>, u: UserId)
    requires u in After(EMPTY_DB, steps).users
    ensures var state := After(EMPTY_DB, steps).users[u].state;
            var saved := exists k :: 0 <= k < |steps| && SavesAt(steps, k, u);
            var emptied := exists k :: 0 <= k < |steps| && EmptiesAt(steps, k, u);
            && (state == Synced <==> saved)
            && (state == PrivateOrNoGames <==> emptied && !saved)
            && (state == NeverSynced <==> !emptied && !saved)
  {
    StateSaw(steps, u);
  }

  /** Why SyncUserGames must not pass on an empty list: the save itself would mark an empty library synced. */
  lemma EmptySaveWouldNotMatch(db: Db, u: UserId)
    requires u in db.users && db.users[u].library == map[]
    ensures SaveTx(db, u, SaveArrays([])).Some? && !StatesMatch(SaveTx(db, u, SaveArrays([])).value)
  {
    SaveMeans(db, u, []);
    var after := SaveTx(db, u, SaveArrays([])).value;
    forall app
      ensures app !in after.users[u].library
    {
      assert Kept(db, after, u, app);
    }
    assert after.users[u].library == map[];
  }

  // Every sync of the store is a run of these steps.

  predicate Commits(c: Call, a: Action) {
    a.Store? && a.commits && Enabled(c, a) && |c.pcs| == |c.batches|
  }

  lemma OnlyCommitsWrite(c: Call, a: Action)
    ensures BatchFetch.Do(c, a).games ==
            if Commits(c, a) then StoreData(c.games, DataFor(c.batches[a.i], c.pcs[a.i].details)) else c.games
  {
  }

  /** The batches one call stores, in the order of their commits. */
  function Committed(games: Games, batches: seq<seq<AppId>>, actions: seq<Action>): seq<Step> {
    if actions == [] then []
    else
      var n := |actions| - 1;
      var c, a := Run(games, batches, actions[..n]), actions[n];
      Committed(games, batches, actions[..n]) + if Commits(c, a) then [Batch(c.batches[a.i], c.pcs[a.i].details)] else []
  }

  lemma {:induction false} FetchIsSteps(db: Db, batches: seq<seq<AppId>>, actions: seq<Action>)
    ensures After(db, Committed(db.games, batches, actions)) == db.(games := Run(db.games, batches, actions).games)
  {
    if actions != [] {
      var n := |actions| - 1;
      FetchIsSteps(db, batches, actions[..n]);
      var c, a := Run(db.games, batches, actions[..n]), actions[n];
      var front := Committed(db.games, batches, actions[..n]);
      OnlyCommitsWrite(c, a);
      hide BatchFetch.Do, Enabled, StoreData, DataFor;
      if Commits(c, a) {
        AfterOneMore(db, front, Batch(c.batches[a.i], c.pcs[a.i].details));
      } else {
        assert Committed(db.games, batches, actions) == front;
      }
    }
  }

  lemma AfterOneMore(db: Db, steps: seq<Step>, step: Step)
    ensures After(db, steps + [step]) == Do(After(db, steps), step)
  {
    assert (steps + [step])[..|steps|] == steps;
  }

  lemma {:induction false} Joins(db: Db, a: seq<Step>, b: seq<Step>)
    ensures After(db, a + b) == After(After(db, a), b)
  {
    if b == [] {
      assert a + b == a;
    } else {
      var n := |b| - 1;
      Joins(db, a, b[..n]);
      assert (a + b)[..|a + b| - 1] == a + b[..n];
    }
  }

  /** What a sync may leave is what some run of steps leaves, so the results above hold after any syncs. */
  lemma SyncIsSteps(before: Db, u: UserId, listed: Option<seq<Game>>, schedule: seq<Action>, after: Db)
    returns (steps: seq<Step>)
    requires SyncedTo(before, u, listed, schedule, after)
    ensures After(before, steps) == after
  {
    if after == before {
      steps := [];
    } else if u in before.users && listed == Some([]) && after == Emptied(before, u) {
      steps := [Empty(u)];
      assert steps[..0] == [];
    } else {
      steps := SaveIsSteps(before, u, listed.value, schedule, after);
    }
  }

  lemma SaveIsSteps(before: Db, u: UserId, list: seq<Game>, schedule: seq<Action>, after: Db) returns (steps: seq<Step>)
    requires SyncedTo(before, u, Some(list), schedule, after) && after != before && list != []
    ensures After(before, steps) == after
  {
    var ids := AppIds(list);
    var mid :| Saved(before, u, list, mid) && after.users == mid.users && !Clash(list)
            && (after.games == mid.games || after.games == AfterFetch(mid.games, ids, schedule));
    SaveMeans(before, u, list);
    var save := Save(u, list);
    SavedIsUnique(before, u, list, mid, Do(before, save));
    AfterOneMore(before, [], save);
    assert [] + [save] == [save];
    steps := [save];
    if after.games != mid.games {
      var batches := Batches(Missing(mid.games, ids));
      assert after.games == Run(mid.games, batches, schedule).games;
      hide Saved, Clash, Run, Batches, Missing;
      FetchIsSteps(mid, batches, schedule);
      Joins(before, steps, Committed(mid.games, batches, schedule));
      steps := steps + Committed(mid.games, batches, schedule);
    }
  }
}
