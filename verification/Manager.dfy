/** The transaction manager: one active transaction, the vote counter, and the two ways a transaction runs,
    as coordinator and as replica. */
module Manager {
  import opened Options
  import opened Disk
  import opened Records
  import opened Changes
  import opened Memory
  import opened Transactions
  import opened TwoPhase
  import opened Votes
  import opened Wire

  /** How a call ended: turned away, killed by an exception, waiting for ever, or with an outcome. */
  datatype Ending = Refused | Died | Blocked | Ended(commit: bool)

  class TransactionManager {
    const H: Hasher
    const fs: FileSystem
    const shared: ServerState
    /** The id of this server, which signs its votes. */
    const id: Id
    var isCoordinator: bool
    var isTransactionActive: bool
    /** The transaction the manager points to. It outlives its activity. */
    var active: Transaction?
    var lastTid: nat
    var votingTotal: int
    var votes: int
    var hasResult: bool
    var result: bool

    ghost predicate Valid()
      reads this, active
    {
      && (isTransactionActive ==> active != null)
      && (active != null ==> active.Valid() && active.shared == shared && active.fs == fs)
    }

    constructor (id: Id, isCoordinator: bool, H: Hasher, fs: FileSystem, shared: ServerState)
      ensures Valid() && this.isCoordinator == isCoordinator && !isTransactionActive && !hasResult
      ensures this.H == H && this.fs == fs && this.shared == shared && this.id == id
      ensures lastTid == shared.lastTid
    {
      this.id, this.isCoordinator, this.H, this.fs, this.shared := id, isCoordinator, H, fs, shared;
      isTransactionActive, active, hasResult, result := false, null, false, false;
      lastTid, votingTotal, votes := shared.lastTid, 0, 0;
    }

    method StartVoting(activeServers: nat)
      modifies this`votingTotal, this`votes
      ensures votingTotal == activeServers + 1 && votes == 0
    {
      votingTotal := activeServers + 1;
      votes := 0;
    }

    /** A vote for another tid is dropped. After a no, nothing counts any more. */
    method CastVote(vote: bool, tid: nat)
      requires active != null
      modifies this`votes
      ensures votes == if tid == active.tid then AddVote(old(votes), vote) else old(votes)
    {
      if tid != active.tid {
        return;
      }
      if vote {
        if votes == -1 {
          return;
        }
        votes := votes + 1;
      } else {
        votes := -1;
      }
    }

    /** Votes that arrive while the manager does something else. */
    method CastVotes(arrived: seq<Arrival>)
      requires active != null
      modifies this`votes
      ensures votes == Tally(old(votes), active.tid, arrived)
    {
      for i := 0 to |arrived|
        invariant votes == Tally(old(votes), active.tid, arrived[..i])
      {
        assert arrived[..i + 1][..i] == arrived[..i];
        CastVote(arrived[i].yes, arrived[i].tid);
      }
      assert arrived[..|arrived|] == arrived;
    }

    method WaitEndVoting(arriving: seq<Arrival>) returns (outcome: Option<bool>)
      requires active != null
      modifies this`votes
      ensures outcome == Outcome(old(votes), votingTotal, active.tid, arriving)
    {
      var i := 0;
      while votes < votingTotal && votes != -1
        invariant i <= |arriving|
        invariant Outcome(votes, votingTotal, active.tid, arriving[i..])
                  == Outcome(old(votes), votingTotal, active.tid, arriving)
        decreases |arriving| - i
      {
        if i == |arriving| {
          return None;
        }
        CastVote(arriving[i].yes, arriving[i].tid);
        assert arriving[i..][1..] == arriving[i + 1..];
        i := i + 1;
      }
      return Some(votes == votingTotal);
    }

    method ReceiveResult(res: bool, tid: nat)
      requires active != null
      modifies this`hasResult, this`result
      ensures tid == active.tid ==> hasResult && result == res
      ensures tid != active.tid ==> hasResult == old(hasResult) && result == old(result)
    {
      if tid != active.tid {
        return;
      }
      result := res;
      hasResult := true;
    }

    method WaitResult(arriving: seq<Verdict>) returns (outcome: Option<bool>)
      requires active != null
      modifies this`hasResult, this`result
      ensures outcome == Awaited(old(hasResult), old(result), active.tid, arriving) && !hasResult
      ensures forall i :: !old(hasResult) && FirstVerdict(arriving, active.tid, i) ==>
                outcome == Some(arriving[i].commit)
    {
      AwaitedIsFirst(hasResult, result, active.tid, arriving);
      var i := 0;
      while !hasResult
        invariant i <= |arriving|
        invariant Awaited(hasResult, result, active.tid, arriving[i..])
                  == Awaited(old(hasResult), old(result), active.tid, arriving)
        decreases |arriving| - i, !hasResult
      {
        if i == |arriving| {
          return None;
        }
        ReceiveResult(arriving[i].commit, arriving[i].tid);
        assert arriving[i..][1..] == arriving[i + 1..];
        i := i + 1;
      }
      outcome := Some(result);
      hasResult := false;
    }

    /** An exception inside `commit` leaves the manager busy. */
    method CommitTransaction() returns (died: bool)
      requires Valid() && active != null
      modifies this`isTransactionActive, active`isCommitted, shared, fs
      ensures Valid() && isTransactionActive == (died && old(isTransactionActive))
      ensures old(active.hasRollback || !active.isPrepared) ==>
                died == !active.hasRollback && active.isCommitted == old(active.isCommitted)
                && shared.Model() == old(shared.Model()) && fs.tree == old(fs.tree)
      ensures old(!active.hasRollback && active.isPrepared) ==>
                var t0, ops := old(fs.tree), CommitOps(active.change);
                && died == !Survives(t0, ops) && fs.tree == Run(t0, Attempted(t0, ops))
                && shared.Model() == if died then old(shared.Model()) else old(active.work.Model())
    {
      var _, threw := active.Commit();
      died := threw;
      if !died {
        isTransactionActive := false;
      }
    }

    method RollbackTransaction() returns (died: bool)
      requires Valid() && active != null
      modifies this`isTransactionActive, active`hasRollback, fs
      ensures Valid() && isTransactionActive == (died && old(isTransactionActive))
      ensures active.isCommitted || !active.hasBegan || old(active.hasRollback) ==>
                !died && fs.tree == old(fs.tree) && active.hasRollback == old(active.hasRollback)
      ensures !active.isCommitted && active.hasBegan && !old(active.hasRollback) ==>
                var t0, ops := old(fs.tree), RollbackOps(active.change, old(fs.tree));
                && active.hasRollback && died == !Survives(t0, ops) && fs.tree == Run(t0, Attempted(t0, ops))
    {
      died := active.ForceRollback();
      if !died {
        isTransactionActive := false;
      }
    }

    /** A change of role rolls back what is active, on disk too, so that a later commit finds nothing to do. */
    method SetIsCoordinator(b: bool) returns (died: bool)
      requires Valid()
      modifies this`isTransactionActive, this`isCoordinator, active, fs
      ensures Valid()
      ensures !died ==> isCoordinator == b && !isTransactionActive
      ensures died ==> isCoordinator == old(isCoordinator) && isTransactionActive
      ensures !died && old(isTransactionActive) && active.hasBegan ==> active.isCommitted || active.hasRollback
      ensures !old(isTransactionActive) ==> !died && fs.tree == old(fs.tree)
      ensures old(isTransactionActive) && old(active.isCommitted || !active.hasBegan || active.hasRollback) ==>
                !died && fs.tree == old(fs.tree) && active.hasRollback == old(active.hasRollback)
      ensures old(isTransactionActive) && old(!active.isCommitted && active.hasBegan && !active.hasRollback) ==>
                var t0, ops := old(fs.tree), RollbackOps(active.change, old(fs.tree));
                && active.hasRollback && died == !Survives(t0, ops) && fs.tree == Run(t0, Attempted(t0, ops))
    {
      died := false;
      if isTransactionActive {
        died := RollbackTransaction();
        if died { return; }
      }
      isCoordinator := b;
    }

    /** Point to a new transaction on a copy of the guarded state. */
    method Activate(change: Change, tid: nat)
      requires Valid()
      modifies this`active, this`isTransactionActive
      ensures Valid() && isTransactionActive && active != null && fresh(active) && fresh(active.work)
      ensures active.change == change && active.tid == tid && active.H == H
      ensures active.work.Model() == shared.Model()
      ensures !active.hasBegan && !active.isPrepared && !active.isCommitted && !active.hasRollback
    {
      var t := new Transaction(change, H, fs, shared);
      t.SetTid(tid);
      active := t;
      isTransactionActive := true;
    }

    /** The active transaction's run. */
    method RunActive(ghost ran: Ran) returns (died: bool)
      requires Valid() && active != null && !active.hasBegan && !active.isPrepared && !active.hasRollback
      requires ran == RunChange(active.H, active.change, active.tid, active.work.Model(), fs.tree)
      modifies active`hasBegan, active`hasRollback, active`isPrepared, active.work, fs
      ensures Valid() && active.isCommitted == old(active.isCommitted)
      ensures active.hasBegan && died == ran.died
      ensures active.hasRollback == ran.rolledBack && active.isPrepared == ran.prepared
      ensures fs.tree == Run(old(fs.tree), ran.ops)
      ensures ran.prepared ==> active.work.Model() == ran.work
      ensures shared.Model() == old(shared.Model())
    {
      var _, d := active.RunOnce();
      died := d;
    }

    /** Commit or roll back what ran, and free the manager. */
    method Finish(commit: bool) returns (died: bool)
      requires Valid() && isTransactionActive && active.hasBegan && !active.isCommitted
      requires active.hasRollback == !active.isPrepared
      modifies this`isTransactionActive, active`isCommitted, active`hasRollback, shared, fs
      ensures Valid() && isTransactionActive == died
      ensures var t0 := old(fs.tree);
        var ops := if old(active.hasRollback) then []
                   else if commit then CommitOps(active.change) else RollbackOps(active.change, t0);
        died == !Survives(t0, ops) && fs.tree == Run(t0, Attempted(t0, ops))
      ensures shared.Model() == if commit && active.isPrepared && !died then old(active.work.Model())
                                else old(shared.Model())
    {
      if commit {
        died := CommitTransaction();
      } else {
        died := RollbackTransaction();
      }
    }

    /** The end of a call that was let in and survived its run. */
    method Settle(outcome: Option<bool>, ghost ran: Ran) returns (ending: Ending)
      requires Valid() && isTransactionActive && active.hasBegan && !active.isCommitted
      requires active.hasRollback == ran.rolledBack == !active.isPrepared && active.isPrepared == ran.prepared
      requires ran.prepared ==> active.work.Model() == ran.work
      modifies this`isTransactionActive, active`isCommitted, active`hasRollback, shared, fs
      ensures Valid()
      ensures Settles(active.change, ran, old(shared.Model()), old(fs.tree), outcome,
                      ending, shared.Model(), fs.tree, isTransactionActive)
    {
      if outcome.None? {
        return Blocked;
      }
      SurvivorsAttempted(fs.tree, FinishOps(active.change, ran, outcome.value, fs.tree));
      var died := Finish(outcome.value);
      ending := if died then Died else Ended(outcome.value);
    }

    /** Number the transaction, point to it, and open the vote. */
    method OpenVote(c: Change, activeServers: nat)
      requires Valid() && !isTransactionActive
      modifies this`lastTid, this`active, this`isTransactionActive, this`votingTotal, this`votes
      ensures Valid() && isTransactionActive && fresh(active) && fresh(active.work)
      ensures active.change == c && active.H == H && active.tid == lastTid == old(lastTid) + 1
      ensures active.work.Model() == shared.Model()
      ensures !active.hasBegan && !active.isPrepared && !active.isCommitted && !active.hasRollback
      ensures votingTotal == activeServers + 1 && votes == 0
    {
      lastTid := lastTid + 1;
      Activate(c, lastTid);
      StartVoting(activeServers);
    }

    /** Number the transaction, open the vote, run it here, and cast the own vote. */
    method RunAndVote(c: Change, activeServers: nat, early: seq<Arrival>, ghost ran: Ran) returns (died: bool)
      requires Valid() && !isTransactionActive
      requires ran == RunChange(H, c, lastTid + 1, shared.Model(), fs.tree)
      modifies this`lastTid, this`active, this`isTransactionActive, this`votingTotal, this`votes, fs
      ensures Valid() && isTransactionActive && fresh(active) && fresh(active.work)
      ensures active.change == c && active.tid == lastTid == old(lastTid) + 1 && votingTotal == activeServers + 1
      ensures shared.Model() == old(shared.Model())
      ensures died == ran.died && fs.tree == Run(old(fs.tree), ran.ops)
      ensures active.hasBegan && !active.isCommitted && active.hasRollback == ran.rolledBack
      ensures active.isPrepared == ran.prepared && (ran.prepared ==> active.work.Model() == ran.work)
      ensures !died ==> votes == AddVote(Tally(0, lastTid, early), ran.prepared)
    {
      OpenVote(c, activeServers);
      CastVotes(early);
      died := RunActive(ran);
      if !died {
        CastVote(active.isPrepared, lastTid);
      }
    }

    /** A transaction that was let in. `early` arrives before the own vote is cast, `late` during the wait. */
    method Coordinate(c: Change, activeServers: nat, early: seq<Arrival>, late: seq<Arrival>, ghost ran: Ran)
      returns (ending: Ending, announced: Option<Verdict>)
      requires Valid() && !isTransactionActive
      requires ran == RunChange(H, c, lastTid + 1, shared.Model(), fs.tree)
      modifies this, shared, fs
      ensures Valid() && isCoordinator == old(isCoordinator) && lastTid == old(lastTid) + 1
      ensures ran.died ==> ending == Died && announced == None && shared.Model() == old(shared.Model())
      ensures !ran.died ==>
                var votes := AddVote(Tally(0, lastTid, early), ran.prepared);
                var outcome := Outcome(votes, activeServers + 1, lastTid, late);
                && announced == (if outcome.Some? then Some(Verdict(lastTid, outcome.value)) else None)
                && Settles(c, ran, old(shared.Model()), Run(old(fs.tree), ran.ops), outcome,
                           ending, shared.Model(), fs.tree, isTransactionActive)
    {
      announced := None;
      var died := RunAndVote(c, activeServers, early, ran);
      if died {
        return Died, announced;
      }
      var outcome := WaitEndVoting(late);
      if outcome.Some? {
        announced := Some(Verdict(lastTid, outcome.value));
      }
      ending := Settle(outcome, ran);
    }

    /** The coordinator's side: let in one transaction at a time, number it, send it out, and see it through. */
    method DoTransaction(c: Change, activeServers: nat, early: seq<Arrival>, late: seq<Arrival>)
      returns (ending: Ending, sent: Option<TransactionMsg>, announced: Option<Verdict>)
      requires Valid()
      modifies this, shared, fs
      ensures Valid() && isCoordinator == old(isCoordinator)
      ensures ending == Refused <==> !isCoordinator || old(isTransactionActive)
      ensures ending == Refused ==>
                && sent == None && announced == None && lastTid == old(lastTid) && active == old(active)
                && isTransactionActive == old(isTransactionActive)
                && shared.Model() == old(shared.Model()) && fs.tree == old(fs.tree)
      ensures ending != Refused ==> lastTid == old(lastTid) + 1 && sent == Some(Serialize(c, lastTid))
      ensures ending != Refused ==>
                var ran := RunChange(H, c, lastTid, old(shared.Model()), old(fs.tree));
                var votes := AddVote(Tally(0, lastTid, early), ran.prepared);
                var outcome := Outcome(votes, activeServers + 1, lastTid, late);
                if ran.died then ending == Died && announced == None && shared.Model() == old(shared.Model()) else
                  && announced == (if outcome.Some? then Some(Verdict(lastTid, outcome.value)) else None)
                  && Settles(c, ran, old(shared.Model()), Run(old(fs.tree), ran.ops), outcome,
                             ending, shared.Model(), fs.tree, isTransactionActive)
    {
      if !isCoordinator || isTransactionActive {
        return Refused, None, None;
      }
      sent := Some(Serialize(c, lastTid + 1));
      ghost var ran := RunChange(H, c, lastTid + 1, shared.Model(), fs.tree);
      ending, announced := Coordinate(c, activeServers, early, late, ran);
    }

    /** A received transaction that was let in: run it, vote, and wait for the result. */
    method Participate(c: Change, tid: nat, results: seq<Verdict>, ghost ran: Ran)
      returns (ending: Ending, vote: Option<Arrival>)
      requires Valid() && !isTransactionActive
      requires ran == RunChange(H, c, tid, shared.Model(), fs.tree)
      modifies this, shared, fs
      ensures Valid() && isCoordinator == old(isCoordinator) && lastTid == old(lastTid)
      ensures ran.died ==> ending == Died && vote == None && shared.Model() == old(shared.Model())
      ensures !ran.died ==>
                && vote == Some(Arrival(id, tid, ran.prepared))
                && Settles(c, ran, old(shared.Model()), Run(old(fs.tree), ran.ops),
                           Awaited(old(hasResult), old(result), tid, results),
                           ending, shared.Model(), fs.tree, isTransactionActive)
    {
      vote := None;
      Activate(c, tid);
      var died := RunActive(ran);
      if died {
        return Died, vote;
      }
      vote := Some(Arrival(id, tid, active.isPrepared));
      var outcome := WaitResult(results);
      ending := Settle(outcome, ran);
    }

    /** A replica's side: let in one transaction at a time. */
    method ReceiveNewTransaction(msg: TransactionMsg, results: seq<Verdict>)
      returns (ending: Ending, vote: Option<Arrival>)
      requires Valid()
      modifies this, shared, fs
      ensures Valid() && isCoordinator == old(isCoordinator) && lastTid == old(lastTid)
      ensures ending == Refused <==> isCoordinator || old(isTransactionActive)
      ensures ending == Refused ==>
                && vote == None && active == old(active) && isTransactionActive == old(isTransactionActive)
                && shared.Model() == old(shared.Model()) && fs.tree == old(fs.tree)
      ensures ending != Refused ==>
                var c, tid := Deserialize(msg), msg.transactionId;
                var ran := RunChange(H, c, tid, old(shared.Model()), old(fs.tree));
                if ran.died then ending == Died && vote == None && shared.Model() == old(shared.Model()) else
                  && vote == Some(Arrival(id, tid, ran.prepared))
                  && Settles(c, ran, old(shared.Model()), Run(old(fs.tree), ran.ops),
                             Awaited(old(hasResult), old(result), tid, results),
                             ending, shared.Model(), fs.tree, isTransactionActive)
    {
      if isCoordinator || isTransactionActive {
        return Refused, None;
      }
      ghost var ran := RunChange(H, Deserialize(msg), msg.transactionId, shared.Model(), fs.tree);
      ending, vote := Participate(Deserialize(msg), msg.transactionId, results, ran);
    }
  }

  /** From the state and disk after a run to the end: what the votes or results made of it. */
  predicate Settles(c: Change, ran: Ran, s: State, t: Tree, outcome: Option<bool>,
                    ending: Ending, after: State, tree: Tree, busy: bool)
  {
    match outcome
    case None => ending == Blocked && busy && after == s && tree == t
    case Some(commit) =>
      var last := FinishOps(c, ran, commit, t);
      if Survives(t, last) then
        && ending == Ended(commit) && !busy && tree == Run(t, last)
        && after == if commit && ran.prepared then ran.work else s
      else
        ending == Died && busy && after == s
  }

  lemma {:induction false} SurvivorsAttempted(t: Tree, ops: seq<Op>)
    ensures Survives(t, ops) ==> Attempted(t, ops) == ops
    decreases ops
  {
    if Survives(t, ops) && ops != [] {
      SurvivorsAttempted(Apply(ops[0], t), ops[1..]);
    }
  }
}
