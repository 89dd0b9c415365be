/** Fetching game data: the batches of one call, and its workers interleaved in any order. */
module BatchFetch {
  import opened Wrappers
  import opened Library

  /** The most app ids one request takes, and the most batches in flight. */
  const BATCH_SIZE := 10
  const MAX_CONCURRENCY := 10

  type Games = map<AppId, GameRow>

  /** A row that the query selects. */
  predicate Lacks(games: Games, id: AppId) {
    id in games && !games[id].fetched
  }

  /** The ids whose data is missing, each at its first place in `ids`. */
  function Missing(games: Games, ids: seq<AppId>): seq<AppId> {
    if ids == [] then []
    else
      var front, id := Missing(games, ids[..|ids| - 1]), ids[|ids| - 1];
      if Lacks(games, id) && id !in ids[..|ids| - 1] then front + [id] else front
  }

  lemma {:induction false} MissingHolds(games: Games, ids: seq<AppId>)
    ensures Distinct(Missing(games, ids))
    ensures forall id :: id in Missing(games, ids) <==> id in ids && id in games && !games[id].fetched
  {
    if ids != [] {
      var n := |ids| - 1;
      MissingHolds(games, ids[..n]);
      assert ids == ids[..n] + [ids[n]];
    }
  }

  /** Wherever a missing id is asked for, the missing ids before it have been asked for already. */
  lemma {:induction false} MissingKeepsOrder(games: Games, ids: seq<AppId>, i: nat, j: nat, b: nat)
    requires i < j < |Missing(games, ids)| && b < |ids| && ids[b] == Missing(games, ids)[j]
    ensures Missing(games, ids)[i] in ids[..b]
  {
    var n := |ids| - 1;
    var front := ids[..n];
    MissingHolds(games, front);
    assert Missing(games, ids)[i] == Missing(games, front)[i] && Missing(games, front)[i] in Missing(games, front);
    if b < n {
      assert front[b] == ids[b] && ids[b] in front && front[..b] == ids[..b];
      MissingKeepsOrder(games, front, i, j, b);
    }
  }

  predicate FitsInt32(ids: seq<AppId>) {
    forall id :: id in ids ==> -0x8000_0000 <= id < 0x8000_0000
  }

  /** GamesMissingData: the query's answer, put back in input order. An id too wide for the query fails it. */
  method GamesMissingData(games: Games, ids: seq<AppId>) returns (r: Option<seq<AppId>>)
    ensures r.Some? <==> forall id :: id in ids ==> -0x8000_0000 <= id < 0x8000_0000
    ensures r.Some? ==> r.value == Missing(games, ids)
    ensures r.Some? ==> forall id :: id in r.value <==> id in ids && id in games && !games[id].fetched
    ensures r.Some? ==> forall i, j :: 0 <= i < j < |r.value| ==> r.value[i] != r.value[j]
    ensures r.Some? ==> forall i, j, b :: 0 <= i < j < |r.value| && 0 <= b < |ids| && ids[b] == r.value[j] ==>
              r.value[i] in ids[..b]
  {
    if !FitsInt32(ids) {
      return None;
    }
    var missing := set id | id in ids && Lacks(games, id);
    var kept := [];
    for i := 0 to |ids|
      invariant missing == set id | id in ids && Lacks(games, id) && id !in ids[..i]
      invariant kept == Missing(games, ids[..i])
    {
      assert ids[..i + 1][..i] == ids[..i];
      assert ids[..i + 1] == ids[..i] + [ids[i]];
      if ids[i] in missing {
        kept := kept + [ids[i]];
        missing := missing - {ids[i]};
      }
    }
    assert ids[..|ids|] == ids;
    MissingHolds(games, ids);
    forall i, j, b | 0 <= i < j < |kept| && 0 <= b < |ids| && ids[b] == kept[j]
      ensures kept[i] in ids[..b]
    {
      MissingKeepsOrder(games, ids, i, j, b);
    }
    return Some(kept);
  }

  function Concat(batches: seq<seq<AppId>>): seq<AppId> {
    if batches == [] then [] else Concat(batches[..|batches| - 1]) + batches[|batches| - 1]
  }

  /** The batches a call makes: runs of at most ten that together are the missing ids in order. */
  predicate AreBatches(batches: seq<seq<AppId>>, missing: seq<AppId>) {
    && Concat(batches) == missing
    && (forall i :: 0 <= i < |batches| ==> 0 < |batches[i]| <= BATCH_SIZE)
    && (forall i :: 0 <= i < |batches| - 1 ==> |batches[i]| == BATCH_SIZE)
  }

  /** Those batches; there is one way to make them. */
  function Batches(missing: seq<AppId>): seq<seq<AppId>> {
    if missing == [] then []
    else if |missing| <= BATCH_SIZE then [missing]
    else [missing[..BATCH_SIZE]] + Batches(missing[BATCH_SIZE..])
  }

  method MakeBatches(missing: seq<AppId>) returns (batches: seq<seq<AppId>>)
    ensures AreBatches(batches, missing) && batches == Batches(missing)
    ensures forall i :: 0 <= i < |batches| ==> 0 < |batches[i]| <= 10 && (i < |batches| - 1 ==> |batches[i]| == 10)
  {
    hide Batches, AreBatches;
    BatchesAre(missing);
    BatchSizes(missing);
    NoBatches(missing);
    batches := [];
    var start := 0;
    while start < |missing|
      invariant 0 <= start
      invariant batches + Batches(missing[if start < |missing| then start else |missing|..]) == Batches(missing)
    {
      var end := if start + BATCH_SIZE < |missing| then start + BATCH_SIZE else |missing|;
      NextSlice(missing, start, end);
      Regroup(batches, missing[start..end], Batches(missing[end..]));
      batches := batches + [missing[start..end]];
      start := start + BATCH_SIZE;
    }
    NoBatches(missing);
  }

  lemma NoBatches(missing: seq<AppId>)
    ensures missing[0..] == missing && Batches(missing[|missing|..]) == []
    ensures forall b: seq<seq<AppId>> :: [] + b == b && b + [] == b
  {
    assert missing[|missing|..] == [];
  }

  lemma NextSlice(missing: seq<AppId>, start: nat, end: nat)
    requires start < end <= |missing| && end == (if start + BATCH_SIZE < |missing| then start + BATCH_SIZE else |missing|)
    ensures Batches(missing[start..]) == [missing[start..end]] + Batches(missing[end..])
  {
    NextBatch(missing[start..], end - start);
    assert missing[start..][..end - start] == missing[start..end] && missing[start..][end - start..] == missing[end..];
  }

  lemma Regroup(a: seq<seq<AppId>>, b: seq<AppId>, c: seq<seq<AppId>>)
    ensures a + ([b] + c) == a + [b] + c
  {
  }

  lemma BatchSizes(missing: seq<AppId>)
    ensures var batches := Batches(missing);
            forall i :: 0 <= i < |batches| ==> 0 < |batches[i]| <= 10 && (i < |batches| - 1 ==> |batches[i]| == 10)
  {
    BatchesAre(missing);
    hide Batches, Concat;
  }

  lemma NextBatch(missing: seq<AppId>, n: nat)
    requires 0 < n <= |missing| && n == (if BATCH_SIZE < |missing| then BATCH_SIZE else |missing|)
    ensures Batches(missing) == [missing[..n]] + Batches(missing[n..])
  {
    assert n == |missing| ==> missing[..n] == missing && missing[n..] == [];
  }

  lemma {:induction false} ConcatFirst(first: seq<AppId>, rest: seq<seq<AppId>>)
    ensures Concat([first] + rest) == first + Concat(rest)
  {
    var all := [first] + rest;
    if rest == [] {
      assert all[..0] == [] && Concat([]) == [];
    } else {
      assert all[..|all| - 1] == [first] + rest[..|rest| - 1];
      ConcatFirst(first, rest[..|rest| - 1]);
    }
  }

  lemma {:induction false} BatchesAre(missing: seq<AppId>)
    ensures AreBatches(Batches(missing), missing)
    decreases |missing|
  {
    if missing == [] {
    } else if |missing| <= BATCH_SIZE {
      ConcatFirst(missing, []);
    } else {
      var first, rest := missing[..BATCH_SIZE], missing[BATCH_SIZE..];
      BatchesAre(rest);
      ConcatFirst(first, Batches(rest));
      assert missing == first + rest;
      hide Batches, Concat;
      PrependBatch(first, Batches(rest), rest);
    }
  }

  lemma PrependBatch(first: seq<AppId>, rest: seq<seq<AppId>>, ids: seq<AppId>)
    requires AreBatches(rest, ids) && |first| == BATCH_SIZE
    ensures AreBatches([first] + rest, first + ids)
  {
    ConcatFirst(first, rest);
    var all := [first] + rest;
    forall i | 0 < i < |all|
      ensures all[i] == rest[i - 1]
    {
    }
  }

  /** No id is in two batches. */
  predicate Apart(batches: seq<seq<AppId>>) {
    forall i, j, id :: 0 <= i < j < |batches| && id in batches[i] ==> id !in batches[j]
  }

  lemma {:induction false} ConcatHolds(batches: seq<seq<AppId>>)
    ensures forall id :: id in Concat(batches) <==> exists i :: 0 <= i < |batches| && id in batches[i]
  {
    if batches != [] {
      var n := |batches| - 1;
      var front := batches[..n];
      ConcatHolds(front);
      forall id
        ensures id in Concat(batches) <==> exists i :: 0 <= i < |batches| && id in batches[i]
      {
        if id in Concat(front) {
          var i :| 0 <= i < |front| && id in front[i];
          assert id in batches[i];
        }
        if exists i :: 0 <= i < |batches| && id in batches[i] {
          var i :| 0 <= i < |batches| && id in batches[i];
          if i < n {
            assert id in front[i];
          }
        }
      }
    }
  }

  lemma {:induction false} ConcatApart(batches: seq<seq<AppId>>)
    requires Distinct(Concat(batches))
    ensures Apart(batches)
  {
    if batches != [] {
      var n := |batches| - 1;
      var front := batches[..n];
      SplitDistinct(Concat(front), batches[n]);
      ConcatApart(front);
      ConcatHolds(front);
      hide Distinct, Concat;
      forall i, j, id | 0 <= i < j < |batches| && id in batches[i]
        ensures id !in batches[j]
      {
        assert id in front[i];
        if j < n {
          assert front[j] == batches[j];
        }
      }
    }
  }

  lemma SplitDistinct(a: seq<AppId>, b: seq<AppId>)
    requires Distinct(a + b)
    ensures Distinct(a)
    ensures forall id :: id in a ==> id !in b
  {
    var c := a + b;
    assert forall i :: 0 <= i < |a| ==> a[i] == c[i];
    assert forall i :: 0 <= i < |b| ==> b[i] == c[|a| + i];
  }

  /** Batches of the missing ids share no id. */
  lemma BatchesAreApart(games: Games, ids: seq<AppId>, batches: seq<seq<AppId>>)
    requires AreBatches(batches, Missing(games, ids))
    ensures Apart(batches)
    ensures forall id :: (exists i :: 0 <= i < |batches| && id in batches[i]) <==>
              id in ids && id in games && !games[id].fetched
  {
    MissingHolds(games, ids);
    ConcatHolds(batches);
    ConcatApart(batches);
  }

  // One batch.

  datatype Detail = Detail(app: AppId, multiplayer: bool)

  datatype GameData = GameData(app: AppId, hasData: bool, multiplayer: bool)

  /** What the response says of an app: its last detail, if any. */
  function Returned(details: seq<Detail>, app: AppId): Option<bool> {
    if details == [] then None
    else
      var last := details[|details| - 1];
      if last.app == app then Some(last.multiplayer) else Returned(details[..|details| - 1], app)
  }

  function DataFor(batch: seq<AppId>, details: seq<Detail>): seq<GameData> {
    seq(|batch|, k requires 0 <= k < |batch| =>
      GameData(batch[k], Returned(details, batch[k]).Some?, Returned(details, batch[k]) == Some(true)))
  }

  lemma {:induction false} LastDetail(details: seq<Detail>, app: AppId, j: nat)
    requires j < |details| && details[j].app == app && forall k :: j < k < |details| ==> details[k].app != app
    ensures Returned(details, app) == Some(details[j].multiplayer)
  {
    var n := |details| - 1;
    if j < n {
      LastDetail(details[..n], app, j);
    }
  }

  lemma {:induction false} NoDetail(details: seq<Detail>, app: AppId)
    requires forall j :: 0 <= j < |details| ==> details[j].app != app
    ensures Returned(details, app) == None
  {
    if details != [] {
      NoDetail(details[..|details| - 1], app);
    }
  }

  lemma LastExists(details: seq<Detail>, app: AppId, i: nat) returns (j: nat)
    requires i < |details| && details[i].app == app
    ensures i <= j < |details| && details[j].app == app && forall k :: j < k < |details| ==> details[k].app != app
  {
    j := |details| - 1;
    while details[j].app != app
      invariant i <= j < |details|
      invariant forall k :: j < k < |details| ==> details[k].app != app
      decreases j
    {
      j := j - 1;
    }
  }

  /** What the answer means: a detail of the app was returned, and the last one returned says multiplayer. */
  lemma {:induction false} ReturnedIs(details: seq<Detail>, app: AppId)
    ensures Returned(details, app).Some? <==> exists j :: 0 <= j < |details| && details[j].app == app
    ensures Returned(details, app) == Some(true) <==>
              exists j :: && 0 <= j < |details| && details[j].app == app && details[j].multiplayer
                          && forall k :: j < k < |details| ==> details[k].app != app
  {
    hide Returned;
    if exists i :: 0 <= i < |details| && details[i].app == app {
      var i :| 0 <= i < |details| && details[i].app == app;
      var j := LastExists(details, app, i);
      LastDetail(details, app, j);
    } else {
      NoDetail(details, app);
    }
  }

  /** The rows of a batch: each requested id, with data exactly if the response has a detail of it. */
  method BuildData(batch: seq<AppId>, details: seq<Detail>) returns (data: array<GameData>)
    ensures data[..] == DataFor(batch, details)
    ensures data.Length == |batch|
    ensures forall k :: 0 <= k < |batch| ==>
              && data[k].app == batch[k]
              && (data[k].hasData <==> exists j :: 0 <= j < |details| && details[j].app == batch[k])
              && (data[k].multiplayer <==>
                    exists j :: && 0 <= j < |details| && details[j].app == batch[k] && details[j].multiplayer
                                && forall l :: j < l < |details| ==> details[l].app != batch[k])
  {
    var byAppID: map<AppId, Detail> := map[];
    for i := 0 to |details|
      invariant forall app :: app in byAppID <==> Returned(details[..i], app).Some?
      invariant forall app :: app in byAppID ==> Returned(details[..i], app) == Some(byAppID[app].multiplayer)
    {
      assert details[..i + 1][..i] == details[..i];
      byAppID := byAppID[details[i].app := details[i]];
    }
    assert details[..|details|] == details;
    data := new GameData[|batch|](_ => GameData(0, false, false));
    for i := 0 to |batch|
      invariant forall k :: 0 <= k < i ==> data[k] == DataFor(batch, details)[k]
    {
      var ok := batch[i] in byAppID;
      data[i] := GameData(batch[i], ok, ok && byAppID[batch[i]].multiplayer);
    }
    DataIs(batch, details);
    hide Returned;
    assert forall k :: 0 <= k < |batch| ==> data[k] == data[..][k];
  }

  lemma DataIs(batch: seq<AppId>, details: seq<Detail>)
    ensures forall k :: 0 <= k < |batch| ==>
              var d := DataFor(batch, details)[k];
              && d.app == batch[k]
              && (d.hasData <==> exists j :: 0 <= j < |details| && details[j].app == batch[k])
              && (d.multiplayer <==>
                    exists j :: && 0 <= j < |details| && details[j].app == batch[k] && details[j].multiplayer
                                && forall l :: j < l < |details| ==> details[l].app != batch[k])
  {
    forall k | 0 <= k < |batch| {
      ReturnedIs(details, batch[k]);
    }
    hide Returned;
  }

  /** One UPDATE of a stored batch; an app without a row is not touched. */
  function StoreOne(games: Games, d: GameData): Games {
    if d.app in games
    then games[d.app := games[d.app].(fetched := true, hasData := d.hasData, multiplayer := d.multiplayer)]
    else games
  }

  /** StoreGameData: the UPDATEs of one batch, in order, in one implicit transaction. */
  function StoreData(games: Games, data: seq<GameData>): Games {
    if data == [] then games else StoreOne(StoreData(games, data[..|data| - 1]), data[|data| - 1])
  }

  /** The row of an app whose batch was stored. */
  function Filled(row: GameRow, answer: Option<bool>): GameRow {
    row.(fetched := true, hasData := answer.Some?, multiplayer := answer == Some(true))
  }

  /** A stored batch fills exactly the rows of its ids. */
  lemma {:induction false} StoredBatch(games: Games, batch: seq<AppId>, details: seq<Detail>)
    ensures StoreData(games, DataFor(batch, details)).Keys == games.Keys
    ensures forall app :: app in games ==>
              StoreData(games, DataFor(batch, details))[app]
              == if app in batch then Filled(games[app], Returned(details, app)) else games[app]
  {
    if batch != [] {
      var n := |batch| - 1;
      StoredBatch(games, batch[..n], details);
      assert DataFor(batch, details)[..n] == DataFor(batch[..n], details);
      assert batch == batch[..n] + [batch[n]];
    }
  }

  /**
   * The columns of a row whose batch was stored: marked as fetched, with data exactly if the response
   * had a detail of the app, multiplayer exactly if the last such detail says so, name and icon untouched.
   */
  lemma FilledIs(row: GameRow, details: seq<Detail>, app: AppId)
    ensures var after := Filled(row, Returned(details, app));
            && after.fetched && after.name == row.name && after.icon == row.icon
            && (after.hasData <==> exists j :: 0 <= j < |details| && details[j].app == app)
            && (after.multiplayer <==>
                  exists j :: && 0 <= j < |details| && details[j].app == app && details[j].multiplayer
                              && forall l :: j < l < |details| ==> details[l].app != app)
  {
    ReturnedIs(details, app);
  }

  // The workers.

  datatype Pc =
    | Waiting
    | Admitted
    | Requesting
    | Storing(details: seq<Detail>)
    | Ending(failed: bool)
    | Done(failed: bool)

  /**
   * The state of one call: the games table, its batches, a program counter for each worker (Done
   * with its errs slot), the tokens in the slot channel, the caller's context, and the responses
   * stored so far by batch.
   */
  datatype Call = Call(games: Games, batches: seq<seq<AppId>>, pcs: seq<Pc>, slots: nat, cancelled: bool,
                       stored: map<int, seq<Detail>>)

  datatype Action =
    | Cancel
    | TakeSlot(i: int)
    | GiveUp(i: int)
    | Check(i: int)
    | Respond(i: int, response: Option<seq<Detail>>)
    | Panic(i: int)
    | Store(i: int, commits: bool, acked: bool)
    | FreeSlot(i: int)

  function Begin(games: Games, batches: seq<seq<AppId>>): Call {
    Call(games, batches, seq(|batches|, _ => Waiting), 0, false, map[])
  }

  predicate InFlight(pc: Pc) {
    pc.Admitted? || pc.Requesting? || pc.Storing? || pc.Ending?
  }

  predicate Enabled(c: Call, a: Action) {
    match a
    case Cancel => true
    case TakeSlot(i) => 0 <= i < |c.pcs| && c.pcs[i].Waiting? && c.slots < MAX_CONCURRENCY
    case GiveUp(i) => 0 <= i < |c.pcs| && c.pcs[i].Waiting? && c.cancelled
    case Check(i) => 0 <= i < |c.pcs| && c.pcs[i].Admitted?
    case Respond(i, _) => 0 <= i < |c.pcs| && c.pcs[i].Requesting?
    case Panic(i) => 0 <= i < |c.pcs| && (c.pcs[i].Requesting? || c.pcs[i].Storing?)
    case Store(i, _, _) => 0 <= i < |c.pcs| && c.pcs[i].Storing?
    case FreeSlot(i) => 0 <= i < |c.pcs| && c.pcs[i].Ending?
  }

  function At(c: Call, i: int, pc: Pc): Call
    requires 0 <= i < |c.pcs|
  {
    c.(pcs := c.pcs[i := pc])
  }

  /** The store's answer: nothing written, or all of the batch, whose acknowledgement may be lost. */
  function Stored(c: Call, i: int, commits: bool, acked: bool): Call
    requires 0 <= i < |c.pcs| == |c.batches| && c.pcs[i].Storing?
  {
    if commits then
      Call(StoreData(c.games, DataFor(c.batches[i], c.pcs[i].details)), c.batches, c.pcs[i := Ending(!acked)],
           c.slots, c.cancelled, c.stored[i := c.pcs[i].details])
    else At(c, i, Ending(true))
  }

  function Do(c: Call, a: Action): Call {
    if !Enabled(c, a) || |c.pcs| != |c.batches| then c
    else
      match a
      case Cancel => c.(cancelled := true)
      case TakeSlot(i) => At(c, i, Admitted).(slots := c.slots + 1)
      case GiveUp(i) => At(c, i, Done(true))
      case Check(i) => At(c, i, if c.cancelled then Ending(true) else Requesting)
      case Respond(i, response) => At(c, i, if response.Some? then Storing(response.value) else Ending(true))
      case Panic(i) => At(c, i, Ending(true))
      case Store(i, commits, acked) => Stored(c, i, commits, acked)
      case FreeSlot(i) => At(c, i, Done(c.pcs[i].failed)).(slots := if c.slots > 0 then c.slots - 1 else 0)
  }

  function Run(games: Games, batches: seq<seq<AppId>>, actions: seq<Action>): Call {
    if actions == [] then Begin(games, batches)
    else Do(Run(games, batches, actions[..|actions| - 1]), actions[|actions| - 1])
  }

  // What every state keeps.

  /** The workers that hold a slot. */
  function Flying(pcs: seq<Pc>): set<int> {
    set i | 0 <= i < |pcs| && InFlight(pcs[i])
  }

  predicate WorkerOk(c: Call, i: int)
    requires 0 <= i < |c.pcs|
  {
    var pc := c.pcs[i];
    && (i in c.stored ==> pc.Ending? || pc.Done?)
    && ((pc.Ending? || pc.Done?) && !pc.failed ==> i in c.stored)
  }

  /** The row of `app` once the batches in `stored` are. */
  predicate RowIs(c: Call, start: Games, app: AppId)
    requires app in start && app in c.games
  {
    && (forall i :: i in c.stored && 0 <= i < |c.batches| && app in c.batches[i] ==>
          c.games[app] == Filled(start[app], Returned(c.stored[i], app)))
    && ((forall i :: i in c.stored && 0 <= i < |c.batches| ==> app !in c.batches[i]) ==> c.games[app] == start[app])
  }

  ghost predicate Inv(c: Call, start: Games, batches: seq<seq<AppId>>) {
    && c.batches == batches && |c.pcs| == |batches|
    && (forall i :: i in c.stored ==> 0 <= i < |batches|)
    && c.slots == |Flying(c.pcs)| <= MAX_CONCURRENCY
    && (forall i :: 0 <= i < |c.pcs| ==> WorkerOk(c, i))
    && c.games.Keys == start.Keys
    && (forall app :: app in start ==> RowIs(c, start, app))
  }

  lemma FlyingAfter(pcs: seq<Pc>, i: int, pc: Pc)
    requires 0 <= i < |pcs|
    ensures |Flying(pcs[i := pc])| + (if InFlight(pcs[i]) then 1 else 0) == |Flying(pcs)| + (if InFlight(pc) then 1 else 0)
  {
    var before, after, rest := Flying(pcs), Flying(pcs[i := pc]), Flying(pcs) - {i};
    forall j
      ensures j in after <==> j in rest || (j == i && InFlight(pc))
    {
    }
    hide Flying;
    assert before == if InFlight(pcs[i]) then rest + {i} else rest;
    assert after == if InFlight(pc) then rest + {i} else rest;
  }

  lemma StoreKeeps(c: Call, start: Games, batches: seq<seq<AppId>>, i: int, acked: bool)
    requires Inv(c, start, batches) && Apart(batches)
    requires 0 <= i < |c.pcs| && c.pcs[i].Storing?
    ensures Stored(c, i, true, acked).games.Keys == start.Keys
    ensures forall app :: app in start ==> RowIs(Stored(c, i, true, acked), start, app)
  {
    var c' := Stored(c, i, true, acked);
    assert WorkerOk(c, i);
    StoredBatch(c.games, batches[i], c.pcs[i].details);
    forall app | app in start
      ensures RowIs(c', start, app)
    {
      assert RowIs(c, start, app);
      if app in batches[i] {
        assert i in c'.stored;
        assert forall j :: j in c.stored && 0 <= j < |batches| ==> app !in batches[j];
      }
    }
  }

  lemma CancelKeeps(c: Call, start: Games, batches: seq<seq<AppId>>)
    requires Inv(c, start, batches)
    ensures Inv(c.(cancelled := true), start, batches)
  {
    var c' := c.(cancelled := true);
    forall j | 0 <= j < |c'.pcs|
      ensures WorkerOk(c', j)
    {
      assert WorkerOk(c, j);
    }
    forall app | app in start
      ensures RowIs(c', start, app)
    {
      assert RowIs(c, start, app);
    }
  }

  lemma DoKeeps(c: Call, start: Games, batches: seq<seq<AppId>>, a: Action)
    requires Inv(c, start, batches) && Apart(batches)
    ensures Inv(Do(c, a), start, batches)
  {
    if Enabled(c, a) {
      var c' := Do(c, a);
      if a.Cancel? {
        CancelKeeps(c, start, batches);
      } else {
        assert WorkerOk(c, a.i);
        assert c'.pcs == c.pcs[a.i := c'.pcs[a.i]];
        FlyingAfter(c.pcs, a.i, c'.pcs[a.i]);
        if a.Store? && a.commits {
          StoreKeeps(c, start, batches, a.i, a.acked);
        }
        if a.FreeSlot? {
          assert a.i in Flying(c.pcs);
        }
        forall j | 0 <= j < |c'.pcs|
          ensures WorkerOk(c', j)
        {
          assert WorkerOk(c, j);
        }
        if !(a.Store? && a.commits) {
          forall app | app in start
            ensures RowIs(c', start, app)
          {
            assert RowIs(c, start, app);
          }
        }
      }
    }
  }

  lemma {:induction false} RunKeeps(games: Games, batches: seq<seq<AppId>>, actions: seq<Action>)
    requires Apart(batches)
    ensures Inv(Run(games, batches, actions), games, batches)
  {
    if actions == [] {
      assert Flying(Begin(games, batches).pcs) == {};
    } else {
      RunKeeps(games, batches, actions[..|actions| - 1]);
      DoKeeps(Run(games, batches, actions[..|actions| - 1]), games, batches, actions[|actions| - 1]);
    }
  }

  // The theorems.

  /** At most ten batches are in flight in every state, and a finished call has freed every slot. */
  lemma SlotsAreBounded(games: Games, batches: seq<seq<AppId>>, actions: seq<Action>)
    requires Apart(batches)
    ensures var c := Run(games, batches, actions);
            && |Flying(c.pcs)| <= 10
            && c.slots == |Flying(c.pcs)|
            && ((forall i :: 0 <= i < |c.pcs| ==> c.pcs[i].Done?) ==> c.slots == 0)
  {
    RunKeeps(games, batches, actions);
    var c := Run(games, batches, actions);
    if forall i :: 0 <= i < |c.pcs| ==> c.pcs[i].Done? {
      assert Flying(c.pcs) == {};
    }
  }

  /** The table is the initial one with exactly the rows of the stored batches filled, in every state of every run. */
  lemma TableIsStoredBatches(games: Games, batches: seq<seq<AppId>>, actions: seq<Action>, app: AppId)
    requires Apart(batches) && app in games
    ensures var c := Run(games, batches, actions);
            && c.games.Keys == games.Keys
            && (forall i :: i in c.stored ==> 0 <= i < |batches|)
            && (forall i :: i in c.stored && app in batches[i] ==>
                  c.games[app] == Filled(games[app], Returned(c.stored[i], app)))
            && ((forall i :: i in c.stored ==> app !in batches[i]) ==> c.games[app] == games[app])
  {
    RunKeeps(games, batches, actions);
    assert RowIs(Run(games, batches, actions), games, app);
  }

  /**
   * In every state of every run, the row of an id whose batch was stored says what the stored response
   * says of it: fetched, data exactly if a detail was returned, multiplayer by the last one returned.
   */
  lemma StoredRowsSayTheResponse(games: Games, batches: seq<seq<AppId>>, actions: seq<Action>, app: AppId, i: nat)
    requires Apart(batches) && app in games && i < |batches| && app in batches[i]
    requires i in Run(games, batches, actions).stored
    ensures var details := Run(games, batches, actions).stored[i];
            app in Run(games, batches, actions).games &&
            var row := Run(games, batches, actions).games[app];
            && row.fetched && row.name == games[app].name && row.icon == games[app].icon
            && (row.hasData <==> exists j :: 0 <= j < |details| && details[j].app == app)
            && (row.multiplayer <==>
                  exists j :: && 0 <= j < |details| && details[j].app == app && details[j].multiplayer
                              && forall l :: j < l < |details| ==> details[l].app != app)
  {
    TableIsStoredBatches(games, batches, actions, app);
    hide Run, Filled, Returned;
    FilledIs(games[app], Run(games, batches, actions).stored[i], app);
  }

  /** The order of the workers' steps, their errors and the cancellation matter only through what was stored. */
  lemma Confluence(games: Games, batches: seq<seq<AppId>>, a: seq<Action>, b: seq<Action>)
    requires Apart(batches)
    requires Run(games, batches, a).stored == Run(games, batches, b).stored
    ensures Run(games, batches, a).games == Run(games, batches, b).games
  {
    var c, d := Run(games, batches, a), Run(games, batches, b);
    RunKeeps(games, batches, a);
    RunKeeps(games, batches, b);
    hide Run, Begin;
    forall app | app in games
      ensures c.games[app] == d.games[app]
    {
      assert RowIs(c, games, app) && RowIs(d, games, app);
      if exists i :: i in c.stored && 0 <= i < |batches| && app in batches[i] {
        var i :| i in c.stored && 0 <= i < |batches| && app in batches[i];
        assert c.games[app] == Filled(games[app], Returned(c.stored[i], app));
      }
    }
  }

  /** A worker that ends without an error has stored its batch; one that stored nothing ends with an error. */
  lemma NoErrorMeansStored(games: Games, batches: seq<seq<AppId>>, actions: seq<Action>, i: nat)
    requires Apart(batches) && i < |batches|
    ensures var c := Run(games, batches, actions);
            && |c.pcs| == |batches|
            && (c.pcs[i] == Done(false) ==> i in c.stored)
            && (c.pcs[i].Done? && i !in c.stored ==> c.pcs[i].failed)
  {
    RunKeeps(games, batches, actions);
    assert WorkerOk(Run(games, batches, actions), i);
  }

  // No worker is stuck.

  /** The steps a worker has left. */
  function Rank(pc: Pc): nat {
    match pc
    case Waiting => 5
    case Admitted => 4
    case Requesting => 3
    case Storing(_) => 2
    case Ending(_) => 1
    case Done(_) => 0
  }

  function Left(pcs: seq<Pc>): nat {
    if pcs == [] then 0 else Left(pcs[..|pcs| - 1]) + Rank(pcs[|pcs| - 1])
  }

  lemma {:induction false} LeftDrops(pcs: seq<Pc>, i: nat, pc: Pc)
    requires i < |pcs|
    ensures Left(pcs[i := pc]) == Left(pcs) - Rank(pcs[i]) + Rank(pc)
  {
    var n := |pcs| - 1;
    if i < n {
      LeftDrops(pcs[..n], i, pc);
      assert pcs[i := pc][..n] == pcs[..n][i := pc];
    } else {
      assert pcs[i := pc][..n] == pcs[..n];
    }
  }

  /** Each step of a worker uses one up, whatever it finds and however it fails. */
  lemma StepUsesOneUp(c: Call, start: Games, batches: seq<seq<AppId>>, a: Action)
    requires Inv(c, start, batches) && Enabled(c, a) && !a.Cancel?
    ensures Left(Do(c, a).pcs) < Left(c.pcs)
  {
    hide Left, StoreData, Apart;
    var pc := Do(c, a).pcs[a.i];
    assert Do(c, a).pcs == c.pcs[a.i := pc] && Rank(pc) < Rank(c.pcs[a.i]);
    LeftDrops(c.pcs, a.i, pc);
  }

  /** Until every worker is done some worker can step, whatever failed before; and each step uses up one of finitely many. */
  lemma CallFinishes(games: Games, batches: seq<seq<AppId>>, actions: seq<Action>)
    requires Apart(batches)
    ensures var c := Run(games, batches, actions);
            (forall i :: 0 <= i < |c.pcs| ==> c.pcs[i].Done?) || exists a: Action :: !a.Cancel? && Enabled(c, a)
    ensures var c := Run(games, batches, actions);
            forall a: Action :: !a.Cancel? && Enabled(c, a) ==> Left(Do(c, a).pcs) < Left(c.pcs)
  {
    RunKeeps(games, batches, actions);
    var c := Run(games, batches, actions);
    hide Run, Begin;
    if exists i :: 0 <= i < |c.pcs| && !c.pcs[i].Done? {
      var i :| 0 <= i < |c.pcs| && !c.pcs[i].Done?;
      var a := StepOf(c, games, batches, i);
    }
    hide Inv, Do, Enabled, Left;
    forall a: Action | !a.Cancel? && Enabled(c, a)
      ensures Left(Do(c, a).pcs) < Left(c.pcs)
    {
      StepUsesOneUp(c, games, batches, a);
    }
  }

  lemma StepOf(c: Call, start: Games, batches: seq<seq<AppId>>, i: nat) returns (a: Action)
    requires Inv(c, start, batches) && i < |c.pcs| && !c.pcs[i].Done?
    ensures !a.Cancel? && Enabled(c, a)
  {
    var j: int := i;
    if c.pcs[i].Waiting? && c.slots == MAX_CONCURRENCY {
      assert (forall k :: k !in Flying(c.pcs)) ==> Flying(c.pcs) == {};
      j :| j in Flying(c.pcs);
    }
    match c.pcs[j]
    case Waiting => a := TakeSlot(j);
    case Admitted => a := Check(j);
    case Requesting => a := Respond(j, None);
    case Storing(_) => a := Store(j, false, false);
    case Ending(_) => a := FreeSlot(j);
  }

  lemma RunSnoc(games: Games, batches: seq<seq<AppId>>, actions: seq<Action>, a: Action)
    ensures Run(games, batches, actions + [a]) == Do(Run(games, batches, actions), a)
  {
    assert (actions + [a])[..|actions|] == actions;
  }

  /** One worker's way to success: its slot, its request, its answer stored, and the slot again. */
  lemma OneWorker(c: Call, i: nat, details: seq<Detail>)
    requires |c.pcs| == |c.batches| && i < |c.pcs| && c.pcs[i].Waiting? && c.slots == 0 && !c.cancelled
    ensures var after := Do(Do(Do(Do(Do(c, TakeSlot(i)), Check(i)), Respond(i, Some(details))), Store(i, true, true)), FreeSlot(i));
            && after.pcs == c.pcs[i := Done(false)] && after.stored == c.stored[i := details]
            && after.slots == 0 && !after.cancelled && after.batches == c.batches
  {
    hide StoreData, DataFor;
    var a := Do(c, TakeSlot(i));
    var b := Do(a, Check(i));
    var d := Do(b, Respond(i, Some(details)));
    var e := Do(d, Store(i, true, true));
    assert a.pcs[i] == Admitted && b.pcs[i] == Requesting && d.pcs[i] == Storing(details) && e.pcs[i] == Ending(false);
    assert Do(e, FreeSlot(i)).pcs == c.pcs[i := Done(false)];
  }

  lemma OneWorkerMore(games: Games, batches: seq<seq<AppId>>, schedule: seq<Action>, i: nat, details: seq<Detail>)
    returns (more: seq<Action>)
    requires var c := Run(games, batches, schedule);
             |c.pcs| == |c.batches| && i < |c.pcs| && c.pcs[i].Waiting? && c.slots == 0 && !c.cancelled
    ensures var c, after := Run(games, batches, schedule), Run(games, batches, more);
            && after.pcs == c.pcs[i := Done(false)] && after.stored == c.stored[i := details]
            && after.slots == 0 && !after.cancelled && after.batches == c.batches
  {
    OneWorker(Run(games, batches, schedule), i, details);
    hide Run, Do;
    RunSnoc(games, batches, schedule, TakeSlot(i));
    more := schedule + [TakeSlot(i)];
    RunSnoc(games, batches, more, Check(i));
    more := more + [Check(i)];
    RunSnoc(games, batches, more, Respond(i, Some(details)));
    more := more + [Respond(i, Some(details))];
    RunSnoc(games, batches, more, Store(i, true, true));
    more := more + [Store(i, true, true)];
    RunSnoc(games, batches, more, FreeSlot(i));
    more := more + [FreeSlot(i)];
  }

  lemma {:induction false} FirstSucceed(games: Games, batches: seq<seq<AppId>>, answers: seq<seq<Detail>>, n: nat)
    returns (schedule: seq<Action>)
    requires n <= |batches| == |answers|
    ensures var c := Run(games, batches, schedule);
            && c.batches == batches && |c.pcs| == |batches| && c.slots == 0 && !c.cancelled
            && (forall i :: 0 <= i < |batches| ==> c.pcs[i] == if i < n then Done(false) else Waiting)
            && (forall i :: i in c.stored <==> 0 <= i < n)
            && (forall i :: 0 <= i < n ==> c.stored[i] == answers[i])
  {
    if n == 0 {
      schedule := [];
    } else {
      var before := FirstSucceed(games, batches, answers, n - 1);
      hide Run;
      schedule := OneWorkerMore(games, batches, before, n - 1, answers[n - 1]);
    }
  }

  /** Nothing in the protocol stands in the way of success: whatever Steam answers, some run stores every answer without error. */
  lemma EveryAnswerCanBeStored(games: Games, batches: seq<seq<AppId>>, answers: seq<seq<Detail>>) returns (schedule: seq<Action>)
    requires |answers| == |batches|
    ensures var c := Run(games, batches, schedule);
            && |c.pcs| == |batches|
            && (forall i :: 0 <= i < |batches| ==> c.pcs[i] == Done(false) && i in c.stored && c.stored[i] == answers[i])
  {
    schedule := FirstSucceed(games, batches, answers, |batches|);
  }

  // A whole call.

  /** The call for `ids`, its workers having taken the steps in `schedule`. */
  function FetchOf(games: Games, ids: seq<AppId>, schedule: seq<Action>): Call {
    Run(games, Batches(Missing(games, ids)), schedule)
  }

  predicate AllSucceed(c: Call) {
    forall i :: 0 <= i < |c.pcs| ==> c.pcs[i] == Done(false)
  }

  /** A call changes only rows it asks for, and if every worker succeeds no asked-for row lacks data. */
  lemma FetchFills(games: Games, ids: seq<AppId>, schedule: seq<Action>)
    ensures var c := FetchOf(games, ids, schedule);
            && c.games.Keys == games.Keys
            && (forall app :: app in games && (app !in ids || games[app].fetched) ==> c.games[app] == games[app])
            && (AllSucceed(c) ==> forall id :: id in ids && id in games ==> c.games[id].fetched)
  {
    var batches := Batches(Missing(games, ids));
    var c := FetchOf(games, ids, schedule);
    BatchesAre(Missing(games, ids));
    BatchesAreApart(games, ids, batches);
    RunKeeps(games, batches, schedule);
    hide Run, Batches, Missing;
    forall app | app in games
      ensures app !in ids || games[app].fetched ==> c.games[app] == games[app]
      ensures AllSucceed(c) && app in ids ==> c.games[app].fetched
    {
      assert RowIs(c, games, app);
      if app in ids && Lacks(games, app) {
        var i :| 0 <= i < |batches| && app in batches[i];
        assert WorkerOk(c, i);
      }
    }
  }

  /** With nothing missing nothing is asked for. */
  lemma NothingMissing(games: Games, ids: seq<AppId>, schedule: seq<Action>)
    requires Missing(games, ids) == []
    ensures FetchOf(games, ids, schedule).games == games && AllSucceed(FetchOf(games, ids, schedule))
  {
    BatchesAre([]);
    RunKeeps(games, [], schedule);
    var c := FetchOf(games, ids, schedule);
    hide Run;
    forall app | app in games
      ensures c.games[app] == games[app]
    {
      assert RowIs(c, games, app);
    }
  }
}
