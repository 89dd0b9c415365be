/**
 * The other half of serialisability: a transaction whose party is free runs on to its
 * end, and ends as its effect says, so no interleaving blocks or spoils one for good.
 */
module PartyProgress {
  import opened Wrappers
  import opened Party
  import opened PartyInterleaving
  import opened PartySerialisability

  /** A statement that fails does so with the whole transaction's error. */
  lemma FailsAsTheEffect(op: Op, pc: Pc, writes: seq<Write>, room: Option<Room>, users: Users)
    requires pc != Commit && At(op, pc, writes, room, users)
    requires Exec(op, pc, ApplyAll(writes, room), users).Fails?
    ensures Effect(op, room, users) == Err(Exec(op, pc, ApplyAll(writes, room), users).error)
  {
    ApplyAllUpTo2(writes, room);
  }

  /** How many statements a transaction has left, at most. */
  function StepsLeft(pc: Pc): nat {
    match pc
    case Lock => 6
    case LeaveDelete(_) | SendMember => 5
    case LeaveSuccessor | SendPending => 4
    case LeavePromote(_) | StepCount | SendFlag | AcceptFind => 3
    case LeaveCount | StepTarget | SendInsertAccepted | AcceptJoin(_) | RejectFind => 2
    case Commit => 0
    case _ => 1
  }

  lemma ExecUsesOneUp(op: Op, pc: Pc, view: Option<Room>, users: Users)
    requires pc != Commit && Exec(op, pc, view, users).Next?
    ensures StepsLeft(Exec(op, pc, view, users).pc) < StepsLeft(pc)
  {
  }

  ghost function OutcomeOf(s: Sys, id: nat): Outcome
    requires id in s.txns
  {
    var t := s.txns[id];
    Exec(t.op, t.pc, ApplyAll(t.writes, RowsOf(s.db, t.op.party)), s.db.users)
  }

  /** In any reachable state a failing statement's error is that of the transaction on the users it saw. */
  lemma FailureIsTheEffects(d: Db, s: Sys, id: nat)
    requires Inv(d, s) && id in s.txns && s.txns[id].pc != Commit && OutcomeOf(s, id).Fails?
    ensures var t := s.txns[id];
            Effect(t.op, RowsOf(s.db, t.op.party), UsersSeen(d, s, t)) == Err(OutcomeOf(s, id).error)
  {
    var t := s.txns[id];
    var room, seen := RowsOf(s.db, t.op.party), UsersSeen(d, s, t);
    assert TxnOk(d, s, t);
    if t.point.Some? {
      ReplayUsers(d, s.serial);
      UsersAfterGrows(d.users, s.serial, t.point.value);
      hide At, Exec, ApplyAll, Effect, UsersAfter;
      ExecAfterFlag(t.op, t.pc, t.writes, room, seen, s.db.users);
      FailsAsTheEffect(t.op, t.pc, t.writes, room, seen);
    } else {
      hide At, Exec, ApplyAll, Effect;
      FailsAsTheEffect(t.op, t.pc, t.writes, room, seen);
    }
  }

  /** A statement that goes through changes no committed row and not what the transaction saw. */
  lemma StatementKeepsView(d: Db, s: Sys, id: nat)
    requires Inv(d, s) && id in s.txns && s.txns[id].pc != Commit && !Waits(s, id) && OutcomeOf(s, id).Next?
    ensures var s' := Executed(s, id);
            && s'.db == s.db && s'.log == s.log && s'.txns.Keys == s.txns.Keys && s'.locks == s.locks[s.txns[id].op.party := id]
            && s'.txns[id].op == s.txns[id].op && s'.txns[id].pc == OutcomeOf(s, id).pc
            && UsersSeen(d, s', s'.txns[id]) == UsersSeen(d, s, s.txns[id])
  {
    assert TxnOk(d, s, s.txns[id]);
    ReplayUsers(d, s.serial);
    assert s.serial[..|s.serial|] == s.serial;
    hide At, Exec, ApplyAll, Replay, UsersAfter;
  }

  lemma RunSnoc(d: Db, actions: seq<Action>, a: Action)
    ensures Run(d, actions + [a]) == Do(Run(d, actions), a)
  {
    assert (actions + [a])[..|actions|] == actions;
  }

  /** How the transaction `id` ends when nobody else moves: committed as its effect, or gone without one. */
  ghost predicate EndsAs(s: Sys, id: nat, effect: Result<Option<Room>, Error>, s': Sys)
    requires id in s.txns
  {
    var p := s.txns[id].op.party;
    && id !in s'.txns
    && s'.txns.Keys == s.txns.Keys - {id}
    && s'.locks == s.locks - {p}
    && s'.db == (if effect.Ok? then Put(s.db, p, effect.value) else s.db)
    && |s'.log| == |s.log| + (if effect.Ok? then 1 else 0)
    && (forall i :: i in s'.txns ==> s'.txns[i].op == s.txns[i].op && s'.txns[i].pc == s.txns[i].pc)
  }

  /** The whole transaction's effect on the committed rows and the users it has seen. */
  ghost function EffectOf(d: Db, s: Sys, id: nat): Result<Option<Room>, Error>
    requires id in s.txns
  {
    Effect(s.txns[id].op, RowsOf(s.db, s.txns[id].op.party), UsersSeen(d, s, s.txns[id]))
  }

  lemma FinishEnds(d: Db, s: Sys, id: nat)
    requires Inv(d, s) && id in s.txns && s.txns[id].pc == Commit
    ensures EndsAs(s, id, EffectOf(d, s, id), Do(s, Finish(id)))
  {
    var t := s.txns[id];
    assert TxnOk(d, s, t);
    AtCommitIsEffect(t.op, t.writes, RowsOf(s.db, t.op.party), UsersSeen(d, s, t));
    hide At, Effect, ApplyAll, UsersSeen;
    var s' := Finished(s, id);
    assert s'.txns.Keys == s.txns.Keys - {id};
  }

  lemma FailureEnds(d: Db, s: Sys, id: nat)
    requires Inv(d, s) && id in s.txns && s.txns[id].pc != Commit && !Waits(s, id) && OutcomeOf(s, id).Fails?
    ensures EndsAs(s, id, EffectOf(d, s, id), Do(s, Statement(id)))
  {
    hide Effect, Exec, ApplyAll, UsersSeen, Inv, EndsAs, Dropped;
    FailureIsTheEffects(d, s, id);
    DroppedEnds(s, id, EffectOf(d, s, id));
  }

  lemma DroppedEnds(s: Sys, id: nat, effect: Result<Option<Room>, Error>)
    requires id in s.txns && !Waits(s, id) && effect.Err?
    ensures EndsAs(s, id, effect, Dropped(s, id))
  {
    assert s.txns[id].pc == Lock ==> s.locks - {s.txns[id].op.party} == s.locks;
  }

  /** A statement brings the transaction nearer to the same end. */
  lemma StatementNears(d: Db, s: Sys, id: nat)
    requires Inv(d, s) && id in s.txns && s.txns[id].pc != Commit && !Waits(s, id) && OutcomeOf(s, id).Next?
    ensures var mid := Do(s, Statement(id));
            && id in mid.txns && !Waits(mid, id)
            && StepsLeft(mid.txns[id].pc) < StepsLeft(s.txns[id].pc)
            && EffectOf(d, mid, id) == EffectOf(d, s, id)
  {
    var t := s.txns[id];
    var view := ApplyAll(t.writes, RowsOf(s.db, t.op.party));
    StatementKeepsView(d, s, id);
    ExecUsesOneUp(t.op, t.pc, view, s.db.users);
    ExecLeavesLock(t.op, t.pc, view, s.db.users);
    hide Effect, Exec, ApplyAll, UsersSeen, Inv, Executed, StepsLeft;
  }

  lemma EndsLater(d: Db, s: Sys, id: nat, effect: Result<Option<Room>, Error>, s': Sys)
    requires Inv(d, s) && id in s.txns && s.txns[id].pc != Commit && !Waits(s, id) && OutcomeOf(s, id).Next?
    requires id in Do(s, Statement(id)).txns && EndsAs(Do(s, Statement(id)), id, effect, s')
    ensures EndsAs(s, id, effect, s')
  {
    hide Effect, Exec, ApplyAll, UsersSeen, Inv;
    var mid := Executed(s, id);
    assert mid.locks - {s.txns[id].op.party} == s.locks - {s.txns[id].op.party};
  }

  /**
   * From any reachable state, a transaction that is not waiting for its party's lock comes to its end by
   * its own steps alone: committed with its effect exactly if that is not an error, and else without a trace.
   */
  lemma {:induction false} RunsToItsEnd(d: Db, actions: seq<Action>, id: nat) returns (more: seq<Action>)
    requires id in Run(d, actions).txns && !Waits(Run(d, actions), id)
    ensures forall a :: a in more ==> a == Statement(id) || a == Finish(id)
    ensures EndsAs(Run(d, actions), id, EffectOf(d, Run(d, actions), id), Run(d, actions + more))
    decreases StepsLeft(Run(d, actions).txns[id].pc)
  {
    hide Run, Inv, EffectOf, EndsAs, StepsLeft, OutcomeOf, Do, Waits;
    var s := Run(d, actions);
    RunKeepsInv(d, actions);
    if s.txns[id].pc == Commit {
      more := [Finish(id)];
      FinishEnds(d, s, id);
      RunSnoc(d, actions, Finish(id));
    } else {
      RunSnoc(d, actions, Statement(id));
      if OutcomeOf(s, id).Fails? {
        more := [Statement(id)];
        FailureEnds(d, s, id);
      } else {
        StatementNears(d, s, id);
        var rest := RunsToItsEnd(d, actions + [Statement(id)], id);
        more := [Statement(id)] + rest;
        assert actions + more == actions + [Statement(id)] + rest;
        EndsLater(d, s, id, EffectOf(d, s, id), Run(d, actions + more));
      }
    }
  }

  /** A transaction that finds its party free ends exactly as its effect on the rows and users it finds. */
  lemma AloneIsTheEffect(d: Db, actions: seq<Action>, id: nat) returns (more: seq<Action>)
    requires id in Run(d, actions).txns && Run(d, actions).txns[id].pc == Lock
    requires Run(d, actions).txns[id].op.party !in Run(d, actions).locks
    ensures forall a :: a in more ==> a == Statement(id) || a == Finish(id)
    ensures var s, s' := Run(d, actions), Run(d, actions + more);
            var op := s.txns[id].op;
            && id !in s'.txns
            && match Effect(op, RowsOf(s.db, op.party), s.db.users)
               case Ok(room) => s'.db == Put(s.db, op.party, room) && |s'.log| == |s.log| + 1
               case Err(_) => s'.db == s.db && |s'.log| == |s.log|
  {
    var s := Run(d, actions);
    RunKeepsInv(d, actions);
    assert TxnOk(d, s, s.txns[id]);
    assert UsersSeen(d, s, s.txns[id]) == s.db.users;
    assert EffectOf(d, s, id) == Effect(s.txns[id].op, RowsOf(s.db, s.txns[id].op.party), s.db.users);
    hide Run, Inv, Effect, UsersSeen, EffectOf;
    more := RunsToItsEnd(d, actions, id);
  }

  lemma HolderRuns(d: Db, s: Sys, id: nat)
    requires Inv(d, s) && id in s.txns && Waits(s, id)
    ensures var holder := s.locks[s.txns[id].op.party];
            holder in s.txns && holder != id && !Waits(s, holder) && s.txns[holder].op.party == s.txns[id].op.party
  {
    hide HistoryOk, TxnsOk;
  }

  lemma FreeAfter(s: Sys, holder: nat, effect: Result<Option<Room>, Error>, s': Sys, id: nat)
    requires holder in s.txns && id in s.txns && id != holder && EndsAs(s, holder, effect, s')
    requires s.txns[holder].op.party == s.txns[id].op.party
    ensures id in s'.txns && !Waits(s', id)
  {
  }

  /** From any reachable state every transaction can still end: if its party is locked, after the holder has. */
  lemma EveryTransactionCanEnd(d: Db, actions: seq<Action>, id: nat) returns (more: seq<Action>)
    requires id in Run(d, actions).txns
    ensures id !in Run(d, actions + more).txns
    ensures forall a :: a in more ==> a.Statement? || a.Finish?
  {
    var s := Run(d, actions);
    RunKeepsInv(d, actions);
    hide Run, Inv, EffectOf, EndsAs;
    if Waits(s, id) {
      HolderRuns(d, s, id);
      var holder := s.locks[s.txns[id].op.party];
      var first := RunsToItsEnd(d, actions, holder);
      FreeAfter(s, holder, EffectOf(d, s, holder), Run(d, actions + first), id);
      var rest := RunsToItsEnd(d, actions + first, id);
      Gone(d, actions + first, id, rest);
      more := first + rest;
      assert actions + more == actions + first + rest;
    } else {
      more := RunsToItsEnd(d, actions, id);
      Gone(d, actions, id, more);
    }
  }

  lemma Gone(d: Db, actions: seq<Action>, id: nat, more: seq<Action>)
    requires id in Run(d, actions).txns
    requires EndsAs(Run(d, actions), id, EffectOf(d, Run(d, actions), id), Run(d, actions + more))
    ensures id !in Run(d, actions + more).txns
  {
    hide Run, EffectOf;
  }
}
