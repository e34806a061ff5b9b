/** How a call of the transaction manager ends on a server whose memory and disk are coupled, and that the
    object's methods take the steps of the protocol. */
module Endings {
  import opened Options
  import opened Disk
  import opened Records
  import opened Changes
  import opened Coupling
  import opened History
  import opened TwoPhase
  import opened Manager
  import opened Votes
  import opened Wire

  /** What the methods do is what the steps of the protocol do: a run and a finish of the node. */
  lemma StepsMatch(H: Hasher, n: Server, c: Change, tid: nat, commit: bool)
    ensures var after := FinishServer(RunServer(H, n, c, tid), commit);
      var ran := RunChange(H, c, tid, n.state, n.tree);
      && after.tree == Run(n.tree, LifeOps(H, c, tid, n.state, n.tree, commit))
      && after.state == (if commit && ran.prepared then ran.work else n.state)
      && after.outcome == n.outcome[tid := commit && ran.prepared]
  {
    var ran := RunChange(H, c, tid, n.state, n.tree);
    RunAppend(n.tree, ran.ops, FinishOps(c, ran, commit, Run(n.tree, ran.ops)));
  }

  /** A call of the manager that settles with an outcome, its last operations surviving, leaves the state and the disk
      that the run and finish steps of the protocol leave on that server. */
  lemma SettlesMatch(H: Hasher, n: Server, c: Change, tid: nat, commit: bool,
                     ending: Ending, after: State, tree: Tree, busy: bool)
    requires var ran := RunChange(H, c, tid, n.state, n.tree);
      && Settles(c, ran, n.state, Run(n.tree, ran.ops), Some(commit), ending, after, tree, busy)
      && Survives(Run(n.tree, ran.ops), FinishOps(c, ran, commit, Run(n.tree, ran.ops)))
    ensures var node := FinishServer(RunServer(H, n, c, tid), commit);
      && after == node.state && tree == node.tree && ending == Ended(commit) && !busy && node.current.None?
  {
    StepsMatch(H, n, c, tid, commit);
    var ran := RunChange(H, c, tid, n.state, n.tree);
    RunAppend(n.tree, ran.ops, FinishOps(c, ran, commit, Run(n.tree, ran.ops)));
  }

  /** On a coupled server nothing throws: the run comes through, a transaction with an outcome ends with it and frees
      the manager, and memory and disk are the next ones, or the old ones, and coupled again. */
  lemma SettlesCoupled(H: Hasher, c: Change, tid: nat, s: State, t: Tree, outcome: Option<bool>,
                       ending: Ending, after: State, tree: Tree, busy: bool)
    requires Coupled(H, s, t) && Admissible(c, s)
    requires var ran := RunChange(H, c, tid, s, t);
      Settles(c, ran, s, Run(t, ran.ops), outcome, ending, after, tree, busy)
    ensures !RunChange(H, c, tid, s, t).died
    ensures outcome.Some? ==>
              && ending == Ended(outcome.value) && !busy
              && Local(after, tree) == After(H, Finished(c, tid, outcome.value), Local(s, t))
              && Coupled(H, after, tree)
  {
    var ran := RunChange(H, c, tid, s, t);
    RunsThrough(H, c, tid, s, t);
    if outcome.Some? {
      var last := FinishOps(c, ran, outcome.value, Run(t, ran.ops));
      RunAppend(t, ran.ops, last);
      AfterCoupled(H, Finished(c, tid, outcome.value), Local(s, t));
    }
  }

  lemma RunsThrough(H: Hasher, c: Change, tid: nat, s: State, t: Tree)
    requires Coupled(H, s, t) && Admissible(c, s)
    ensures var ran := RunChange(H, c, tid, s, t);
      && !ran.died && ran.prepared == Prepares(c, s) && ran.rolledBack == !ran.prepared
      && (ran.prepared ==> ran.work == NextState(H, c, tid, s))
      && (forall commit: bool :: Survives(Run(t, ran.ops), FinishOps(c, ran, commit, Run(t, ran.ops))))
  {
    if Prepares(c, s) {
      RunPrepares(H, c, tid, s, t);
      CommitSurvives(H, c, tid, s, t);
      CoupledReady(H, c, s, t);
      AbortReady(c, tid, t);
    } else {
      RunFails(H, c, tid, s, t);
    }
  }

  /** Nodes with equal states vote alike on a transaction that came over the wire, and prepare the same next state,
      whatever left-over folders their disks hold. */
  lemma VotesAlike(H: Hasher, c: Change, tid: nat, s: State, mine: Tree, theirs: Tree)
    requires Coupled(H, s, mine) && Coupled(H, s, theirs) && Admissible(c, s)
    ensures var msg := Serialize(c, tid);
      var a, b := RunChange(H, c, tid, s, mine), RunChange(H, Deserialize(msg), msg.transactionId, s, theirs);
      && a.prepared == b.prepared && a.rolledBack == b.rolledBack && !a.died && !b.died
      && (a.prepared ==> a.work == b.work && a.ops == b.ops)
  {
    SameChange(c, tid);
    RunsThrough(H, c, tid, s, mine);
    RunsThrough(H, c, tid, s, theirs);
    if Prepares(c, s) {
      RunPrepares(H, c, tid, s, mine);
      RunPrepares(H, c, tid, s, theirs);
    }
  }

  /** What a commit or a rollback leaves of a prepared change: the next state and the committed disk, or the old state
      and the aborted disk. */
  predicate LeavesAsDecided(H: Hasher, c: Change, tid: nat, s: State, t: Tree, commit: bool, after: State, tree: Tree) {
    && after == (if commit then NextState(H, c, tid, s) else s)
    && tree == if commit then CommittedTree(c, tid, t) else AbortedTree(c, s, t)
  }

  lemma SettlesAsDecided(H: Hasher, c: Change, tid: nat, s: State, t: Tree, commit: bool,
                         ending: Ending, after: State, tree: Tree, busy: bool)
    requires Coupled(H, s, t) && Admissible(c, s) && Prepares(c, s)
    requires var ran := RunChange(H, c, tid, s, t);
      Settles(c, ran, s, Run(t, ran.ops), Some(commit), ending, after, tree, busy)
    ensures ending == Ended(commit) && !busy && LeavesAsDecided(H, c, tid, s, t, commit, after, tree)
  {
    SettlesCoupled(H, c, tid, s, t, Some(commit), ending, after, tree, busy);
    Finishes(H, Finished(c, tid, commit), Local(s, t));
  }

  /** A replica on a coupled server that is told to commit a change it prepared holds the changed state and disk, and
      one that is told to roll back holds the old ones: the first verdict on its transaction decides. */
  method ReplicaObeys(m: TransactionManager, msg: TransactionMsg, results: seq<Verdict>, i: nat)
    returns (ending: Ending)
    requires m.Valid() && !m.isCoordinator && !m.isTransactionActive && !m.hasResult
    requires Coupled(m.H, m.shared.Model(), m.fs.tree)
    requires Admissible(Deserialize(msg), m.shared.Model()) && Prepares(Deserialize(msg), m.shared.Model())
    requires FirstVerdict(results, msg.transactionId, i)
    modifies m, m.shared, m.fs
    ensures m.Valid() && !m.isTransactionActive && ending == Ended(results[i].commit)
    ensures LeavesAsDecided(m.H, Deserialize(msg), msg.transactionId, old(m.shared.Model()), old(m.fs.tree),
                            results[i].commit, m.shared.Model(), m.fs.tree)
  {
    ghost var s, t, c, tid := m.shared.Model(), m.fs.tree, Deserialize(msg), msg.transactionId;
    AwaitedIsFirst(m.hasResult, m.result, tid, results);
    RunsThrough(m.H, c, tid, s, t);
    var vote;
    ending, vote := m.ReceiveNewTransaction(msg, results);
    SettlesAsDecided(m.H, c, tid, s, t, results[i].commit, ending, m.shared.Model(), m.fs.tree, m.isTransactionActive);
  }

  /** Commit, announced and done, when all voters said yes; rollback, announced and done, when one said no. */
  ghost predicate EndsAsVoted(H: Hasher, c: Change, tid: nat, s: State, t: Tree, all: seq<Arrival>, voters: set<Id>,
                              ending: Ending, announced: Option<Verdict>, after: State, tree: Tree)
  {
    && (Yes(all, tid, voters) == voters ==>
          && ending == Ended(true) && announced == Some(Verdict(tid, true))
          && after == NextState(H, c, tid, s) && tree == CommittedTree(c, tid, t))
    && (AnyNo(all, tid) ==>
          && ending == Ended(false) && announced == Some(Verdict(tid, false))
          && after == s && tree == AbortedTree(c, s, t))
  }

  lemma VotesSettle(H: Hasher, c: Change, s: State, t: Tree, early: seq<Arrival>, own: Arrival, late: seq<Arrival>,
                    voters: set<Id>, ending: Ending, announced: Option<Verdict>, after: State, tree: Tree, busy: bool)
    requires Coupled(H, s, t) && Admissible(c, s) && Prepares(c, s) && own.yes
    requires Clean(early + [own] + late, own.tid, voters)
    requires var outcome := Outcome(AddVote(Tally(0, own.tid, early), true), |voters|, own.tid, late);
      var ran := RunChange(H, c, own.tid, s, t);
      && announced == (if outcome.Some? then Some(Verdict(own.tid, outcome.value)) else None)
      && Settles(c, ran, s, Run(t, ran.ops), outcome, ending, after, tree, busy)
    ensures EndsAsVoted(H, c, own.tid, s, t, early + [own] + late, voters, ending, announced, after, tree)
  {
    OwnVoteCounts(early, own, late, voters);
    NoIsNotYes(early + [own] + late, own.tid, voters);
    if announced.Some? {
      SettlesAsDecided(H, c, own.tid, s, t, announced.value.commit, ending, after, tree, busy);
    }
  }

  /** A coordinator on a coupled server holds the changed state and disk when all voters said yes, and the old ones when
      one said no; and it announces just that. Its own vote is among those that arrive. */
  method CoordinatorObeys(m: TransactionManager, c: Change, early: seq<Arrival>, late: seq<Arrival>,
                          ghost voters: set<Id>, activeServers: nat)
    returns (ending: Ending, announced: Option<Verdict>)
    requires m.Valid() && m.isCoordinator && !m.isTransactionActive && |voters| == activeServers + 1
    requires Coupled(m.H, m.shared.Model(), m.fs.tree)
    requires Admissible(c, m.shared.Model()) && Prepares(c, m.shared.Model())
    requires Clean(early + [Arrival(m.id, m.lastTid + 1, true)] + late, m.lastTid + 1, voters)
    modifies m, m.shared, m.fs
    ensures m.lastTid == old(m.lastTid) + 1
    ensures EndsAsVoted(m.H, c, m.lastTid, old(m.shared.Model()), old(m.fs.tree),
                        early + [Arrival(m.id, m.lastTid, true)] + late, voters,
                        ending, announced, m.shared.Model(), m.fs.tree)
  {
    ghost var s, t, tid := m.shared.Model(), m.fs.tree, m.lastTid + 1;
    RunsThrough(m.H, c, tid, s, t);
    var sent;
    ending, sent, announced := m.DoTransaction(c, activeServers, early, late);
    VotesSettle(m.H, c, s, t, early, Arrival(m.id, tid, true), late, voters,
                ending, announced, m.shared.Model(), m.fs.tree, m.isTransactionActive);
  }
}
