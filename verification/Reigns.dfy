/** What holds in every world a reign can reach. */
module Reigns {
  import opened Options
  import opened Disk
  import opened Records
  import opened Changes
  import opened Coupling
  import opened Recovery
  import opened History
  import opened TwoPhase
  import opened Replay
  import opened Agreement

  lemma ReachInv(H: Hasher, w: World, steps: seq<Step>, end: World)
    requires Initial(H, w) && Reaches(H, w, steps, end)
    ensures Inv(H, end)
  {
    InitialInv(H, w);
    RunInv(H, w, steps, end);
  }

  /** The replicated log: a replica's log is a prefix of the decided log; a replica still considered alive lacks at
      most the last entry; and its users, files and sessions are the replay of its own log, in memory and on disk. */
  lemma ReplicatedLog(H: Hasher, w: World, steps: seq<Step>, end: World, r: Id)
    requires Initial(H, w) && Reaches(H, w, steps, end) && r in end.replicas
    ensures var n, log := end.replicas[r], end.reign.log;
      && n.log <= log
      && (r in end.alive ==> |log| <= |n.log| + 1)
      && n.state == Replayed(H, end.reign.start, n.log).state
      && Visible(Base(n)) == Visible(Replayed(H, end.reign.start, n.log).tree)
      && Coupled(H, n.state, Base(n))
  {
    ReachInv(H, w, steps, end);
    assert ReplicaOk(end.reign, r, end.replicas[r]) && Faithful(H, end.reign.start, end.replicas[r]);
  }

  /** The coordinator's own log is the decided log, but for a commit it has announced and not yet applied. */
  lemma CoordinatorLog(H: Hasher, w: World, steps: seq<Step>, end: World)
    requires Initial(H, w) && Reaches(H, w, steps, end)
    ensures var n, log := end.coordinator, end.reign.log;
      && n.log <= log && |log| <= |n.log| + 1
      && (|log| == |n.log| + 1 <==> end.phase == Decided(true))
      && n.state == Replayed(H, end.reign.start, n.log).state
  {
    ReachInv(H, w, steps, end);
  }

  /** Two idle live replicas that have applied the same number of commits hold the same database. */
  lemma ReplicasAgree(H: Hasher, w: World, steps: seq<Step>, end: World, a: Id, b: Id)
    requires Initial(H, w) && Reaches(H, w, steps, end) && a in end.replicas && b in end.replicas
    requires |end.replicas[a].log| == |end.replicas[b].log|
    requires end.replicas[a].current.None? && end.replicas[b].current.None?
    ensures end.replicas[a].state == end.replicas[b].state
    ensures Visible(end.replicas[a].tree) == Visible(end.replicas[b].tree)
  {
    ReplicatedLog(H, w, steps, end, a);
    ReplicatedLog(H, w, steps, end, b);
    var log := end.reign.log;
    assert end.replicas[a].log == log[..|end.replicas[a].log|] == end.replicas[b].log;
  }

  /** The coordinator, or one of the replicas. */
  predicate Exists(w: World, who: Option<Id>) {
    who.Some? ==> who.value in w.replicas
  }

  function At(w: World, who: Option<Id>): Server
    requires Exists(w, who)
  {
    if who.Some? then w.replicas[who.value] else w.coordinator
  }

  /** The outcome of a transaction on a server, if it has one. */
  predicate HasOutcome(n: Server, t: nat, commit: bool) {
    t in n.outcome && n.outcome[t] == commit
  }

  lemma OutcomeIsDecision(H: Hasher, w: World, steps: seq<Step>, end: World, who: Option<Id>, t: nat, commit: bool)
    requires Initial(H, w) && Reaches(H, w, steps, end)
    requires Exists(end, who) && HasOutcome(At(end, who), t, commit)
    ensures t in end.reign.decided && end.reign.decided[t] == commit
  {
    ReachInv(H, w, steps, end);
    if who.Some? {
      assert ReplicaOk(end.reign, who.value, end.replicas[who.value]);
    }
  }

  /** Agreement: no two servers end the same transaction differently. */
  lemma OutcomesAgree(H: Hasher, w: World, steps: seq<Step>, end: World,
                      a: Option<Id>, b: Option<Id>, t: nat, x: bool, y: bool)
    requires Initial(H, w) && Reaches(H, w, steps, end) && Exists(end, a) && Exists(end, b)
    requires HasOutcome(At(end, a), t, x) && HasOutcome(At(end, b), t, y)
    ensures x == y
  {
    OutcomeIsDecision(H, w, steps, end, a, t, x);
    OutcomeIsDecision(H, w, steps, end, b, t, y);
  }

  /** Validity: a server commits only if the coordinator and every replica counted for the transaction voted yes. */
  lemma CommitNeedsEveryVote(H: Hasher, w: World, steps: seq<Step>, end: World, who: Option<Id>, t: nat)
    requires Initial(H, w) && Reaches(H, w, steps, end)
    requires Exists(end, who) && HasOutcome(At(end, who), t, true)
    ensures t in end.coordinator.voted && end.coordinator.voted[t]
    ensures t in end.reign.counted && AllVotedYes(end.replicas, end.reign.counted[t], t)
  {
    OutcomeIsDecision(H, w, steps, end, who, t, true);
    ReachInv(H, w, steps, end);
  }

  // ---- transaction numbers ----

  ghost predicate TidsAfter(first: nat, g: Reign) {
    g.lastTid >= first && forall t :: t in g.changes ==> first < t
  }

  lemma {:induction false} TidsStayAfter(H: Hasher, first: nat, w: World, steps: seq<Step>, end: World)
    requires TidsAfter(first, w.reign) && Reaches(H, w, steps, end)
    ensures TidsAfter(first, end.reign) && end.reign.start == w.reign.start
    decreases steps
  {
    if steps != [] {
      TidsStayAfter(H, first, Next(H, steps[0], w), steps[1..], end);
    }
  }

  /** No file carries a tid beyond the state's own. */
  ghost predicate Numbered(s: State) {
    forall u, f :: s.HasFile(u, f) ==> s.FilesOf(u)[f].lastTid <= s.lastTid
  }

  lemma NextNumbered(H: Hasher, c: Change, tid: nat, s: State)
    requires Numbered(s) && s.lastTid <= tid
    ensures Numbered(NextState(H, c, tid, s)) && NextState(H, c, tid, s).lastTid == tid
  {
    var s' := NextState(H, c, tid, s);
    forall u, f | s'.HasFile(u, f) ensures s'.FilesOf(u)[f].lastTid <= tid {
      if s.HasFile(u, f) { assert s.FilesOf(u)[f].lastTid <= s.lastTid; }
    }
  }

  ghost predicate Ascending(first: nat, log: seq<Entry>) {
    && (forall i :: 0 <= i < |log| ==> first < log[i].tid)
    && (forall i, j :: 0 <= i < j < |log| ==> log[i].tid < log[j].tid)
  }

  lemma {:induction false} ReplayNumbered(H: Hasher, first: nat, start: Local, log: seq<Entry>)
    requires Ascending(first, log) && Numbered(start.state) && start.state.lastTid <= first
    ensures var s := Replayed(H, start, log).state;
      Numbered(s) && s.lastTid == if log == [] then start.state.lastTid else log[|log| - 1].tid
    decreases log
  {
    if log != [] {
      var before, e := log[..|log| - 1], log[|log| - 1];
      ReplayNumbered(H, first, start, before);
      NextNumbered(H, e.change, e.tid, Replayed(H, start, before).state);
    }
  }

  /** Transaction numbers: if the coordinator's counter starts no lower than its state, the decided tids strictly
      increase, the next one was never given to any change, committed or aborted, and counter >= state >= every file,
      throughout the reign. */
  lemma TidsIncrease(H: Hasher, w: World, steps: seq<Step>, end: World)
    requires Initial(H, w) && Reaches(H, w, steps, end)
    requires Numbered(w.reign.start.state) && w.reign.start.state.lastTid <= w.reign.lastTid
    ensures Ascending(w.reign.lastTid, end.reign.log)
    ensures end.reign.lastTid + 1 !in end.reign.changes && end.reign.lastTid + 1 !in end.reign.decided
    ensures end.coordinator.state.lastTid <= end.reign.lastTid && Numbered(end.coordinator.state)
    ensures forall r :: r in end.replicas ==>
              end.replicas[r].state.lastTid <= end.reign.lastTid && Numbered(end.replicas[r].state)
  {
    ReachInv(H, w, steps, end);
    TidsStayAfter(H, w.reign.lastTid, w, steps, end);
    var g, first := end.reign, w.reign.lastTid;
    assert Ascending(first, g.log) by {
      forall i | 0 <= i < |g.log| ensures first < g.log[i].tid {
        assert g.log[i].tid in g.changes;
      }
    }
    LogNumbered(H, first, g, end.coordinator.log);
    forall r | r in end.replicas
      ensures end.replicas[r].state.lastTid <= g.lastTid && Numbered(end.replicas[r].state)
    {
      ReplicatedLog(H, w, steps, end, r);
      LogNumbered(H, first, g, end.replicas[r].log);
    }
  }

  lemma LogNumbered(H: Hasher, first: nat, g: Reign, log: seq<Entry>)
    requires log <= g.log && Ascending(first, g.log) && LogOrdered(g)
    requires Numbered(g.start.state) && g.start.state.lastTid <= first <= g.lastTid
    requires forall t :: t in g.changes ==> t <= g.lastTid
    ensures var s := Replayed(H, g.start, log).state; s.lastTid <= g.lastTid && Numbered(s)
  {
    assert Ascending(first, log) by {
      assert forall i :: 0 <= i < |log| ==> log[i] == g.log[i];
    }
    ReplayNumbered(H, first, g.start, log);
    if log != [] {
      assert log[|log| - 1] == g.log[|log| - 1];
    }
  }

  lemma {:induction false} CountersFrozen(H: Hasher, w: World, steps: seq<Step>, end: World, r: Id)
    requires Reaches(H, w, steps, end) && r in w.replicas
    ensures r in end.replicas && end.replicas[r].counter == w.replicas[r].counter
    decreases steps
  {
    if steps != [] {
      CountersFrozen(H, Next(H, steps[0], w), steps[1..], end, r);
    }
  }

  lemma {:induction false} ReplicasStay(H: Hasher, w: World, steps: seq<Step>, end: World)
    requires Reaches(H, w, steps, end)
    ensures end.replicas.Keys == w.replicas.Keys
    decreases steps
  {
    if steps != [] {
      ReplicasStay(H, Next(H, steps[0], w), steps[1..], end);
    }
  }

  /** A replica's counter keeps the value of its start-up. If the replica becomes coordinator, the first tid it gives
      is new to its own state exactly when it has committed nothing since; otherwise it gives an old tid again. */
  lemma PromotedReplicaTid(H: Hasher, w: World, steps: seq<Step>, end: World, r: Id)
    requires Initial(H, w) && Reaches(H, w, steps, end) && r in end.replicas
    requires Numbered(w.reign.start.state) && w.reign.start.state.lastTid == w.reign.lastTid
    requires r in w.replicas ==> w.replicas[r].counter == w.replicas[r].state.lastTid
    ensures end.replicas[r].counter + 1 > end.replicas[r].state.lastTid <==> end.replicas[r].log == []
  {
    ReplicasStay(H, w, steps, end);
    CountersFrozen(H, w, steps, end, r);
    TidsIncrease(H, w, steps, end);
    TidsStayAfter(H, w.reign.lastTid, w, steps, end);
    ReplicatedLog(H, w, steps, end, r);
    var log := end.replicas[r].log;
    assert Ascending(w.reign.lastTid, log) by {
      assert forall i :: 0 <= i < |log| ==> log[i] == end.reign.log[i];
    }
    ReplayNumbered(H, w.reign.lastTid, w.reign.start, log);
  }
}
