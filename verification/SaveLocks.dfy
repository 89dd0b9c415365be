/**
 * The row locks of concurrent library saves, taken one at a time: games rows by app id,
 * then the user's own user_games rows by game id, then the users row, all held to the end.
 */
module SaveLocks {

  type TxnId = int

  /** A row lock, or the wait for another transaction's insert of the same key. */
  datatype Lock = OnGame(app: int) | OnLink(user: int, game: int) | OnUser(user: int)

  function Table(l: Lock): int {
    match l
    case OnGame(_) => 0
    case OnLink(_, _) => 1
    case OnUser(_) => 2
  }

  function Major(l: Lock): int {
    match l
    case OnGame(app) => app
    case OnLink(user, _) => user
    case OnUser(user) => user
  }

  function Minor(l: Lock): int {
    match l
    case OnGame(_) => 0
    case OnLink(_, game) => game
    case OnUser(_) => 0
  }

  /** The order in which every save takes its locks. */
  predicate Precedes(a: Lock, b: Lock) {
    || Table(a) < Table(b)
    || (Table(a) == Table(b) && (Major(a) < Major(b) || (Major(a) == Major(b) && Minor(a) < Minor(b))))
  }

  predicate Rising(locks: seq<Lock>) {
    forall i, j :: 0 <= i < j < |locks| ==> Precedes(locks[i], locks[j])
  }

  datatype Statement = Games | Links | Users

  /** A save under way: its user, the statement it is in, the locks left in that statement, and those held. */
  datatype Txn = Txn(user: int, statement: Statement, todo: seq<Lock>, held: set<Lock>)

  type Sys = map<TxnId, Txn>

  datatype Action =
    | Begin(t: TxnId, user: int, apps: seq<int>)
    | Take(t: TxnId)
    | NextStatement(t: TxnId, games: seq<int>)
    | Commit(t: TxnId)
    | Abort(t: TxnId)

  predicate Ascending(ids: seq<int>) {
    forall i, j :: 0 <= i < j < |ids| ==> ids[i] < ids[j]
  }

  predicate Wants(s: Sys, t: TxnId) {
    t in s && s[t].todo != []
  }

  predicate WaitsFor(s: Sys, t: TxnId, v: TxnId) {
    Wants(s, t) && v in s && v != t && s[t].todo[0] in s[v].held
  }

  /** NextStatement finds the game ids when the second statement starts, in the order of its ORDER BY. */
  predicate Enabled(s: Sys, a: Action) {
    match a
    case Begin(t, _, apps) => t !in s && Ascending(apps)
    case Take(t) => Wants(s, t) && forall v :: v in s && v != t ==> s[t].todo[0] !in s[v].held
    case NextStatement(t, games) => t in s && s[t].todo == [] && !s[t].statement.Users? && Ascending(games)
    case Commit(t) => t in s && s[t].todo == [] && s[t].statement.Users?
    case Abort(t) => t in s
  }

  function GameLocks(apps: seq<int>): seq<Lock> {
    seq(|apps|, i requires 0 <= i < |apps| => OnGame(apps[i]))
  }

  function LinkLocks(user: int, games: seq<int>): seq<Lock> {
    seq(|games|, i requires 0 <= i < |games| => OnLink(user, games[i]))
  }

  function Advanced(txn: Txn, games: seq<int>): Txn {
    if txn.statement.Games? then txn.(statement := Links, todo := LinkLocks(txn.user, games))
    else txn.(statement := Users, todo := [OnUser(txn.user)])
  }

  function Do(s: Sys, a: Action): Sys {
    if !Enabled(s, a) then s
    else
      match a
      case Begin(t, user, apps) => s[t := Txn(user, Games, GameLocks(apps), {})]
      case Take(t) => s[t := s[t].(todo := s[t].todo[1..], held := s[t].held + {s[t].todo[0]})]
      case NextStatement(t, games) => s[t := Advanced(s[t], games)]
      case Commit(t) => s - {t}
      case Abort(t) => s - {t}
  }

  function Run(actions: seq<Action>): Sys {
    if actions == [] then map[] else Do(Run(actions[..|actions| - 1]), actions[|actions| - 1])
  }

  // What every state keeps.

  /** What a save holds comes before everything it still wants. */
  predicate TxnOk(txn: Txn) {
    && Rising(txn.todo)
    && (forall l, i :: l in txn.held && 0 <= i < |txn.todo| ==> Precedes(l, txn.todo[i]))
    && (forall l :: l in txn.held ==> Table(l) <= Stage(txn.statement))
    && (forall i :: 0 <= i < |txn.todo| ==> Table(txn.todo[i]) == Stage(txn.statement))
  }

  function Stage(statement: Statement): int {
    match statement
    case Games => 0
    case Links => 1
    case Users => 2
  }

  ghost predicate Inv(s: Sys) {
    && (forall t :: t in s ==> TxnOk(s[t]))
    && (forall t, v :: t in s && v in s && t != v ==> s[t].held !! s[v].held)
  }

  lemma BeginIsOk(user: int, apps: seq<int>)
    requires Ascending(apps)
    ensures TxnOk(Txn(user, Games, GameLocks(apps), {}))
  {
  }

  lemma TakeIsOk(txn: Txn)
    requires TxnOk(txn) && txn.todo != []
    ensures TxnOk(txn.(todo := txn.todo[1..], held := txn.held + {txn.todo[0]}))
  {
    assert forall i :: 0 <= i < |txn.todo| - 1 ==> txn.todo[1..][i] == txn.todo[i + 1];
  }

  lemma AdvancedIsOk(txn: Txn, games: seq<int>)
    requires TxnOk(txn) && !txn.statement.Users? && Ascending(games)
    ensures TxnOk(Advanced(txn, games))
  {
  }

  lemma DoKeeps(s: Sys, a: Action)
    requires Inv(s)
    ensures Inv(Do(s, a))
  {
    if Enabled(s, a) {
      match a
      case Begin(t, user, apps) => BeginIsOk(user, apps);
      case Take(t) =>
        TakeIsOk(s[t]);
        hide TxnOk;
      case NextStatement(t, games) => AdvancedIsOk(s[t], games);
      case Commit(t) =>
      case Abort(t) =>
    }
  }

  lemma {:induction false} RunKeeps(actions: seq<Action>)
    ensures Inv(Run(actions))
  {
    if actions != [] {
      RunKeeps(actions[..|actions| - 1]);
      DoKeeps(Run(actions[..|actions| - 1]), actions[|actions| - 1]);
    }
  }

  // The theorems.

  lemma PrecedesChain(a: Lock, b: Lock, c: Lock)
    requires Precedes(a, b) && Precedes(b, c)
    ensures Precedes(a, c)
  {
  }

  /** A save that is waited for wants only locks after the one it is waited for. */
  lemma WaitRises(s: Sys, t: TxnId, v: TxnId)
    requires Inv(s) && WaitsFor(s, t, v) && Wants(s, v)
    ensures Precedes(s[t].todo[0], s[v].todo[0])
  {
    assert TxnOk(s[v]);
  }

  /** Each save of the path waits for the next. */
  predicate IsWaitPath(s: Sys, path: seq<TxnId>) {
    forall i :: 0 <= i < |path| - 1 ==> WaitsFor(s, path[i], path[i + 1])
  }

  lemma {:induction false} PathRises(s: Sys, path: seq<TxnId>, k: nat)
    requires Inv(s) && IsWaitPath(s, path) && 0 < k < |path| && Wants(s, path[k])
    ensures Wants(s, path[0]) && Precedes(s[path[0]].todo[0], s[path[k]].todo[0])
  {
    assert WaitsFor(s, path[k - 1], path[k]);
    WaitRises(s, path[k - 1], path[k]);
    if k > 1 {
      PathRises(s, path, k - 1);
      PrecedesChain(s[path[0]].todo[0], s[path[k - 1]].todo[0], s[path[k]].todo[0]);
    }
  }

  /** No reachable state has a cycle of saves each waiting for the next: a path never ends where it began. */
  lemma NoDeadlock(actions: seq<Action>, path: seq<TxnId>)
    requires IsWaitPath(Run(actions), path) && |path| > 1
    ensures path[0] != path[|path| - 1]
  {
    var s := Run(actions);
    RunKeeps(actions);
    if path[0] == path[|path| - 1] {
      assert WaitsFor(s, path[0], path[1]);
      PathRises(s, path, |path| - 1);
    }
  }

  /** Two saves never hold the same row. */
  lemma LocksAreExclusive(actions: seq<Action>, t: TxnId, v: TxnId)
    requires t in Run(actions) && v in Run(actions) && t != v
    ensures Run(actions)[t].held !! Run(actions)[v].held
  {
    RunKeeps(actions);
  }

  /** A save that wants a lock no other wanted lock comes after. */
  lemma {:induction false} LastWanted(s: Sys, some: set<TxnId>) returns (t: TxnId)
    requires some != {} && forall v :: v in some ==> Wants(s, v)
    ensures t in some && Wants(s, t)
    ensures forall v :: v in some ==> Wants(s, v) && !Precedes(s[t].todo[0], s[v].todo[0])
    decreases |some|
  {
    assert (forall v: int :: v !in some) ==> some == {};
    t :| t in some;
    if some != {t} {
      assert some == (some - {t}) + {t};
      var v := LastWanted(s, some - {t});
      if Precedes(s[t].todo[0], s[v].todo[0]) {
        t := v;
      } else {
        forall w | w in some
          ensures !Precedes(s[t].todo[0], s[w].todo[0])
        {
          if w != t && Precedes(s[t].todo[0], s[w].todo[0]) {
            LastIsTotal(s[t].todo[0], s[v].todo[0], s[w].todo[0]);
          }
        }
      }
    }
  }

  lemma LastIsTotal(t: Lock, v: Lock, w: Lock)
    requires !Precedes(t, v) && !Precedes(v, w)
    ensures !Precedes(t, w)
  {
  }

  /** While any save is under way, one of them can take its next step without an abort. */
  lemma SomeSaveAdvances(actions: seq<Action>)
    requires Run(actions) != map[]
    ensures exists a: Action :: !a.Begin? && !a.Abort? && Enabled(Run(actions), a)
  {
    var s := Run(actions);
    RunKeeps(actions);
    assert (forall t :: t !in s) ==> s == map[];
    if exists t :: t in s && s[t].todo == [] {
      var t :| t in s && s[t].todo == [];
      var a := if s[t].statement.Users? then Commit(t) else NextStatement(t, []);
      assert Enabled(s, a);
    } else {
      var any :| any in s;
      assert any in s.Keys;
      var t := LastWanted(s, s.Keys);
      forall v | v in s && v != t
        ensures s[t].todo[0] !in s[v].held
      {
        if s[t].todo[0] in s[v].held {
          assert v in s.Keys;
          WaitRises(s, t, v);
        }
      }
      assert Enabled(s, Take(t));
    }
  }
}
