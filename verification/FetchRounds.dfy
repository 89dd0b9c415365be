/** Repeated fetches of the same games, with library saves in between. */
module FetchRounds {
  import opened Library
  import opened BatchFetch

  /** One fetch call, with its batches and its workers' steps, or one save's write to the games table. */
  datatype Round = Fetch(batches: seq<seq<AppId>>, actions: seq<Action>) | Save(rows: seq<SaveRow>)

  function AfterRound(games: Games, r: Round): Games {
    match r
    case Fetch(batches, actions) => Run(games, batches, actions).games
    case Save(rows) => MergeGames(games, rows)
  }

  function After(games: Games, rounds: seq<Round>): Games {
    if rounds == [] then games else AfterRound(After(games, rounds[..|rounds| - 1]), rounds[|rounds| - 1])
  }

  /** Each fetch asks for the ids missing when it starts. */
  predicate AsksForMissing(games: Games, ids: seq<AppId>, r: Round) {
    r.Fetch? ==> AreBatches(r.batches, Missing(games, ids))
  }

  predicate Sound(games: Games, ids: seq<AppId>, rounds: seq<Round>) {
    forall k :: 0 <= k < |rounds| ==> AsksForMissing(After(games, rounds[..k]), ids, rounds[k])
  }

  predicate HaveRows(games: Games, ids: seq<AppId>) {
    forall id :: id in ids ==> id in games
  }

  function Lacking(games: Games, ids: seq<AppId>): set<AppId> {
    set id | id in ids && Lacks(games, id)
  }

  /** The fetch stored at least one batch. */
  predicate Succeeds(games: Games, r: Round) {
    r.Fetch? && Run(games, r.batches, r.actions).stored != map[]
  }

  /** No row disappears and no stored data is unset. */
  ghost predicate Grows(before: Games, after: Games) {
    && before.Keys <= after.Keys
    && forall id :: id in before && before[id].fetched ==> after[id].fetched
  }

  lemma RoundGrows(games: Games, ids: seq<AppId>, r: Round)
    requires AsksForMissing(games, ids, r)
    ensures Grows(games, AfterRound(games, r))
  {
    if r.Fetch? {
      BatchesAreApart(games, ids, r.batches);
      forall id | id in games
        ensures id in AfterRound(games, r)
        ensures games[id].fetched ==> AfterRound(games, r)[id].fetched
      {
        TableIsStoredBatches(games, r.batches, r.actions, id);
        var c := Run(games, r.batches, r.actions);
        if exists i :: i in c.stored && id in r.batches[i] {
          var i :| i in c.stored && id in r.batches[i];
          assert c.games[id] == Filled(games[id], Returned(c.stored[i], id));
        }
      }
    } else {
      forall id | id in games && games[id].fetched
        ensures MergeGames(games, r.rows)[id].fetched
      {
        FindIs(r.rows, id);
      }
    }
  }

  /** Stored data is never unset, over any rounds. */
  lemma {:induction false} DataStays(games: Games, ids: seq<AppId>, rounds: seq<Round>)
    requires Sound(games, ids, rounds)
    ensures Grows(games, After(games, rounds))
    ensures forall id :: id in games ==>
              id in After(games, rounds) && (games[id].fetched ==> After(games, rounds)[id].fetched)
  {
    if rounds != [] {
      var n := |rounds| - 1;
      PrefixIsSound(games, ids, rounds, n);
      DataStays(games, ids, rounds[..n]);
      RoundGrows(After(games, rounds[..n]), ids, rounds[n]);
    }
  }

  lemma PrefixIsSound(games: Games, ids: seq<AppId>, rounds: seq<Round>, n: nat)
    requires Sound(games, ids, rounds) && n <= |rounds|
    ensures Sound(games, ids, rounds[..n])
  {
    forall k | 0 <= k < n
      ensures AsksForMissing(After(games, rounds[..n][..k]), ids, rounds[..n][k])
    {
      assert rounds[..n][..k] == rounds[..k];
    }
  }

  /** After a fetch, an id is missing exactly if it was and its batch was not stored. */
  lemma StillMissing(games: Games, ids: seq<AppId>, r: Round, id: AppId)
    requires r.Fetch? && AsksForMissing(games, ids, r) && id in ids
    ensures var c := Run(games, r.batches, r.actions);
            id in c.games && !c.games[id].fetched <==>
              && id in games && !games[id].fetched
              && forall i :: i in c.stored ==> 0 <= i < |r.batches| && id !in r.batches[i]
  {
    BatchesAreApart(games, ids, r.batches);
    var c := Run(games, r.batches, r.actions);
    RunKeeps(games, r.batches, r.actions);
    if id in games {
      TableIsStoredBatches(games, r.batches, r.actions, id);
      if exists i :: i in c.stored && id in r.batches[i] {
        var i :| i in c.stored && id in r.batches[i];
        assert c.games[id] == Filled(games[id], Returned(c.stored[i], id));
      }
    }
  }

  lemma RoundShrinks(games: Games, ids: seq<AppId>, r: Round)
    requires AsksForMissing(games, ids, r) && HaveRows(games, ids)
    ensures HaveRows(AfterRound(games, r), ids)
    ensures Lacking(AfterRound(games, r), ids) <= Lacking(games, ids)
    ensures Succeeds(games, r) ==> Lacking(AfterRound(games, r), ids) < Lacking(games, ids)
  {
    RoundGrows(games, ids, r);
    if Succeeds(games, r) {
      var c := Run(games, r.batches, r.actions);
      assert c.stored.Keys != {};
      assert (forall i :: i !in c.stored) ==> c.stored == map[];
      var i: int :| i in c.stored;
      BatchesAreApart(games, ids, r.batches);
      RunKeeps(games, r.batches, r.actions);
      var id := r.batches[i][0];
      assert id in r.batches[i];
      StillMissing(games, ids, r, id);
      assert id in Lacking(games, ids) && id !in Lacking(c.games, ids);
    }
  }

  function Successes(games: Games, rounds: seq<Round>): nat {
    if rounds == [] then 0
    else
      var n := |rounds| - 1;
      Successes(games, rounds[..n]) + if Succeeds(After(games, rounds[..n]), rounds[n]) then 1 else 0
  }

  /** Convergence: each fetch that stores a batch leaves strictly fewer ids missing, so there are only so many. */
  lemma {:induction false} Converges(games: Games, ids: seq<AppId>, rounds: seq<Round>)
    requires Sound(games, ids, rounds) && HaveRows(games, ids)
    ensures HaveRows(After(games, rounds), ids)
    ensures Lacking(After(games, rounds), ids) <= Lacking(games, ids)
    ensures |Lacking(After(games, rounds), ids)| + Successes(games, rounds) <= |Lacking(games, ids)|
  {
    if rounds != [] {
      var n := |rounds| - 1;
      PrefixIsSound(games, ids, rounds, n);
      Converges(games, ids, rounds[..n]);
      var before := After(games, rounds[..n]);
      RoundShrinks(before, ids, rounds[n]);
      Smaller(Lacking(AfterRound(before, rounds[n]), ids), Lacking(before, ids));
    }
  }

  lemma Smaller(a: set<AppId>, b: set<AppId>)
    requires a <= b
    ensures |a| <= |b| && (a != b ==> |a| < |b|)
  {
    assert b == a + (b - a);
    assert |b| == |a| + |b - a|;
  }

  /** An id is requested again only if every earlier batch holding it was not stored, so its worker did not succeed. */
  lemma {:induction false} RequestedAgain(games: Games, ids: seq<AppId>, rounds: seq<Round>, j: nat, k: nat, id: AppId, i: nat)
    requires Sound(games, ids, rounds) && HaveRows(games, ids)
    requires j < k < |rounds| && rounds[j].Fetch? && rounds[k].Fetch?
    requires i < |rounds[j].batches| && id in rounds[j].batches[i]
    requires exists l :: 0 <= l < |rounds[k].batches| && id in rounds[k].batches[l]
    ensures var c := Run(After(games, rounds[..j]), rounds[j].batches, rounds[j].actions);
            && i !in c.stored
            && |c.pcs| == |rounds[j].batches|
            && c.pcs[i] != Done(false)
  {
    var before, r := After(games, rounds[..j]), rounds[j];
    assert AsksForMissing(before, ids, r);
    assert AsksForMissing(After(games, rounds[..k]), ids, rounds[k]);
    BatchesAreApart(before, ids, r.batches);
    BatchesAreApart(After(games, rounds[..k]), ids, rounds[k].batches);
    assert id in ids && Lacks(After(games, rounds[..k]), id);
    MissingBefore(games, ids, rounds, j + 1, k, id);
    assert rounds[..j + 1][..j] == rounds[..j];
    StillMissing(before, ids, r, id);
    NoErrorMeansStored(before, r.batches, r.actions, i);
  }

  lemma {:induction false} OneRoundBack(games: Games, ids: seq<AppId>, rounds: seq<Round>, k: nat, id: AppId)
    requires Sound(games, ids, rounds) && HaveRows(games, ids)
    requires k < |rounds| && id in ids && Lacks(After(games, rounds[..k + 1]), id)
    ensures Lacks(After(games, rounds[..k]), id)
  {
    PrefixIsSound(games, ids, rounds, k);
    Converges(games, ids, rounds[..k]);
    assert rounds[..k + 1][..k] == rounds[..k];
    var before, after := After(games, rounds[..k]), After(games, rounds[..k + 1]);
    assert after == AfterRound(before, rounds[k]);
    hide After, AfterRound, Sound, Lacks;
    RoundShrinks(before, ids, rounds[k]);
    assert id in Lacking(after, ids);
  }

  /** What is missing later was missing earlier. */
  lemma {:induction false} MissingBefore(games: Games, ids: seq<AppId>, rounds: seq<Round>, j: nat, k: nat, id: AppId)
    requires Sound(games, ids, rounds) && HaveRows(games, ids)
    requires j <= k <= |rounds| && id in ids && Lacks(After(games, rounds[..k]), id)
    ensures Lacks(After(games, rounds[..j]), id)
    decreases k
  {
    hide *;
    if j < k {
      OneRoundBack(games, ids, rounds, k - 1, id);
      MissingBefore(games, ids, rounds, j, k - 1, id);
    }
  }
}
