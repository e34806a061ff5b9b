/** The safety theorems are not empty: from a quiet world every list of changes can be carried through by everybody, for
    any number of live replicas. The coordinator asks and tells them all. */
module Progress {
  import opened Options
  import opened Disk
  import opened Records
  import opened Changes
  import opened Coupling
  import opened TwoPhase
  import opened Wire
  import opened Endings
  import opened History
  import opened Reigns

  lemma {:induction false} ReachMore(H: Hasher, w: World, steps: seq<Step>, middle: World, st: Step)
    requires Reaches(H, w, steps, middle) && Enabled(st, middle)
    ensures Reaches(H, w, steps + [st], Next(H, st, middle))
    decreases steps
  {
    if steps == [] {
      assert Reaches(H, Next(H, st, middle), [st][1..], Next(H, st, middle));
    } else {
      assert (steps + [st])[1..] == steps[1..] + [st];
      ReachMore(H, Next(H, steps[0], w), steps[1..], middle, st);
    }
  }

  /** Nothing is active or under way, and every live replica is where the coordinator is. */
  ghost predicate Quiet(H: Hasher, w: World) {
    && w.phase.Idle? && w.msgs == {} && w.alive <= w.replicas.Keys && w.coordinator.current.None?
    && Coupled(H, w.coordinator.state, w.coordinator.tree)
    && forall r :: r in w.alive ==> QuietReplica(H, w.coordinator.state, w.replicas[r])
  }

  ghost predicate QuietReplica(H: Hasher, s: State, n: Server) {
    n.current.None? && !n.hasResult && n.state == s && Coupled(H, n.state, n.tree)
  }

  function Proposals(ids: set<Id>, c: Change, tid: nat): set<Message> {
    set r | r in ids :: Propose(r, Serialize(c, tid))
  }

  function Results(ids: set<Id>, tid: nat, commit: bool): set<Message> {
    set r | r in ids :: Result(r, tid, commit)
  }

  /** The counter after the coordinator's vote and those of `done`, all alike. */
  function Count(yes: bool, done: set<Id>, all: set<Id>): Ballot {
    if yes then Ballot(1 + |done|, |all| + 1, done, true) else Ballot(-1, |all| + 1, {}, false)
  }

  /** The vote is open and the replicas in `done` have run, voted and been counted. */
  ghost predicate Voting(H: Hasher, w0: World, c: Change, tid: nat, done: set<Id>, w: World) {
    && w.phase.Waiting? && w.reign.lastTid == tid && tid in w.reign.changes && w.reign.changes[tid] == c
    && w.alive == w0.alive && done <= w0.alive && w.replicas.Keys == w0.replicas.Keys
    && w.ballot == Count(Prepares(c, w0.coordinator.state), done, w0.alive)
    && w.msgs == Proposals(w0.alive - done, c, tid)
    && w.coordinator == RunServer(H, w0.coordinator, c, tid)
    && forall r :: r in w0.alive ==>
         r in w.replicas && w.replicas[r] == if r in done then RunServer(H, w0.replicas[r], c, tid) else w0.replicas[r]
  }

  /** A replica's value after it ran the change and was told the outcome. */
  function Told(H: Hasher, n: Server, c: Change, tid: nat, commit: bool): Server {
    FinishServer(RunServer(H, n, c, tid).(hasResult := true, result := commit), commit)
  }

  /** The coordinator has ended the transaction and the replicas in `done` too. */
  ghost predicate Telling(H: Hasher, w0: World, c: Change, tid: nat, done: set<Id>, w: World) {
    var commit := Prepares(c, w0.coordinator.state);
    && w.phase.Idle? && w.alive == w0.alive && done <= w0.alive && w.replicas.Keys == w0.replicas.Keys
    && w.msgs == Results(w0.alive - done, tid, commit) && tid in w.reign.decided && w.reign.lastTid == tid
    && w.coordinator == FinishServer(RunServer(H, w0.coordinator, c, tid), commit)
    && forall r :: r in w0.alive ==>
         r in w.replicas &&
         w.replicas[r] == if r in done then Told(H, w0.replicas[r], c, tid, commit)
                          else RunServer(H, w0.replicas[r], c, tid)
  }

  /** Start, and send to all. */
  lemma StartAndSend(H: Hasher, w: World, c: Change) returns (steps: seq<Step>, w2: World)
    requires w.phase.Idle? && w.msgs == {} && Admissible(c, w.coordinator.state)
    ensures var tid := w.reign.lastTid + 1;
      && Reaches(H, w, steps, w2) && w2.phase.Sent? && w2.reign.lastTid == tid
      && tid in w2.reign.changes && w2.reign.changes[tid] == c
      && w2.alive == w.alive && w2.replicas == w.replicas && w2.coordinator == w.coordinator
      && w2.ballot == Ballot(0, |w.alive| + 1, {}, false) && w2.msgs == Proposals(w.alive, c, tid)
  {
    assert Reaches(H, w, [], w);
    ReachMore(H, w, [], w, Start(c));
    var w1 := Next(H, Start(c), w);
    ReachMore(H, w, [] + [Start(c)], w1, Send);
    w2 := Next(H, Send, w1);
    steps := [] + [Start(c)] + [Send];
    assert w2.msgs == Proposals(w.alive, c, w.reign.lastTid + 1);
  }

  /** Start, send to all, and run at the coordinator. */
  lemma FirstHalf(H: Hasher, w: World, c: Change) returns (steps: seq<Step>, w3: World)
    requires Quiet(H, w) && Admissible(c, w.coordinator.state)
    ensures Reaches(H, w, steps, w3) && Voting(H, w, c, w.reign.lastTid + 1, {}, w3)
  {
    var before, w2 := StartAndSend(H, w, c);
    RunsThrough(H, c, w.reign.lastTid + 1, w.coordinator.state, w.coordinator.tree);
    ReachMore(H, w, before, w2, RunOwn);
    w3 := Next(H, RunOwn, w2);
    steps := before + [RunOwn];
    assert w.alive - {} == w.alive;
  }

  /** What a replica makes of a proposal. */
  lemma ReplicaRuns(H: Hasher, w0: World, c: Change, tid: nat, done: set<Id>, w: World, r: Id)
    requires Quiet(H, w0) && Admissible(c, w0.coordinator.state)
    requires Voting(H, w0, c, tid, done, w) && r in w0.alive && r !in done
    ensures var m := Propose(r, Serialize(c, tid));
      && Enabled(DeliverPropose(m), w)
      && Next(H, DeliverPropose(m), w) ==
         w.(replicas := w.replicas[r := RunServer(H, w0.replicas[r], c, tid)],
            msgs := w.msgs - {m} + {Vote(r, tid, Prepares(c, w0.coordinator.state))})
  {
    SameChange(c, tid);
    assert QuietReplica(H, w0.coordinator.state, w0.replicas[r]);
    RunsThrough(H, c, tid, w0.replicas[r].state, w0.replicas[r].tree);
    assert Propose(r, Serialize(c, tid)) in Proposals(w0.alive - done, c, tid);
  }

  lemma Counted(H: Hasher, w0: World, c: Change, tid: nat, done: set<Id>, w: World, r: Id, w': World)
    requires Voting(H, w0, c, tid, done, w) && r in w0.alive && r !in done
    requires var yes := Prepares(c, w0.coordinator.state);
      w' == w.(replicas := w.replicas[r := RunServer(H, w0.replicas[r], c, tid)],
               msgs := w.msgs - {Propose(r, Serialize(c, tid))} + {Vote(r, tid, yes)} - {Vote(r, tid, yes)},
               ballot := w.ballot.(votes := AddVote(w.ballot.votes, yes),
                                   yes := if yes then w.ballot.yes + {r} else w.ballot.yes))
    ensures Voting(H, w0, c, tid, done + {r}, w')
  {
    OneLess(w0.alive, done, r, c, tid, Prepares(c, w0.coordinator.state));
  }

  /** One replica runs, votes, and is counted. */
  lemma OneVotes(H: Hasher, w0: World, c: Change, tid: nat, done: set<Id>, before: seq<Step>, w: World, r: Id)
    returns (steps: seq<Step>, w': World)
    requires Quiet(H, w0) && Admissible(c, w0.coordinator.state)
    requires Reaches(H, w0, before, w) && Voting(H, w0, c, tid, done, w) && r in w0.alive && r !in done
    ensures Reaches(H, w0, steps, w') && Voting(H, w0, c, tid, done + {r}, w')
  {
    var m, vote := Propose(r, Serialize(c, tid)), Vote(r, tid, Prepares(c, w0.coordinator.state));
    ReplicaRuns(H, w0, c, tid, done, w, r);
    var w1 := Next(H, DeliverPropose(m), w);
    ReachMore(H, w0, before, w, DeliverPropose(m));
    ReachMore(H, w0, before + [DeliverPropose(m)], w1, DeliverVote(vote));
    w' := Next(H, DeliverVote(vote), w1);
    steps := before + [DeliverPropose(m)] + [DeliverVote(vote)];
    Counted(H, w0, c, tid, done, w, r, w');
  }

  lemma OneLess(alive: set<Id>, done: set<Id>, r: Id, c: Change, tid: nat, yes: bool)
    requires r in alive && r !in done
    ensures var m, vote := Propose(r, Serialize(c, tid)), Vote(r, tid, yes);
      Proposals(alive - done, c, tid) - {m} + {vote} - {vote} == Proposals(alive - (done + {r}), c, tid)
    ensures Results(alive - done, tid, yes) - {Result(r, tid, yes)} == Results(alive - (done + {r}), tid, yes)
    ensures |done + {r}| == |done| + 1
  {
  }

  lemma Pick(goal: set<Id>, done: set<Id>, tid: nat) returns (r: Option<Id>)
    requires done <= goal
    ensures r.None? ==> done == goal
    ensures r.Some? ==>
              r.value in goal && r.value !in done && done + {r.value} <= goal
              && |goal - (done + {r.value})| < |goal - done|
  {
    var told := Results(goal - done, tid, true);
    if told == {} {
      assert forall q :: q in goal - done ==> Result(q, tid, true) in told;
      NoMembers(goal - done);
      return None;
    }
    var m :| m in told;
    assert goal - (done + {m.to}) == (goal - done) - {m.to};
    return Some(m.to);
  }

  /** One by one the replicas of `goal` vote. */
  lemma {:induction false} SomeVote(H: Hasher, w0: World, c: Change, tid: nat, done: set<Id>, goal: set<Id>,
                                    before: seq<Step>, w: World)
    returns (steps: seq<Step>, w': World)
    requires Quiet(H, w0) && Admissible(c, w0.coordinator.state)
    requires Reaches(H, w0, before, w) && Voting(H, w0, c, tid, done, w) && done <= goal <= w0.alive
    ensures Reaches(H, w0, steps, w') && Voting(H, w0, c, tid, goal, w')
    decreases |goal - done|
  {
    var r := Pick(goal, done, tid);
    if r.None? {
      return before, w;
    }
    var more, w1 := OneVotes(H, w0, c, tid, done, before, w, r.value);
    steps, w' := SomeVote(H, w0, c, tid, done + {r.value}, goal, more, w1);
  }

  lemma NoMembers(rest: set<Id>)
    requires forall r :: r !in rest
    ensures rest == {}
  {
    assert forall r :: r in rest ==> r in {0};
    assert rest <= {0};
  }

  /** The coordinator decides, tells all, and ends the transaction. */
  lemma CoordinatorDecides(H: Hasher, w0: World, c: Change, tid: nat, before: seq<Step>, w: World)
    returns (steps: seq<Step>, w': World)
    requires Reaches(H, w0, before, w) && Voting(H, w0, c, tid, w0.alive, w)
    ensures Reaches(H, w0, steps, w') && Telling(H, w0, c, tid, {}, w')
  {
    DecidesAsVoted(H, w0, c, tid, w);
    ReachMore(H, w0, before, w, Decide);
    var w1 := Next(H, Decide, w);
    ReachMore(H, w0, before + [Decide], w1, FinishOwn);
    w' := Next(H, FinishOwn, w1);
    steps := before + [Decide] + [FinishOwn];
    assert w0.alive - {} == w0.alive;
  }

  lemma DecidesAsVoted(H: Hasher, w0: World, c: Change, tid: nat, w: World)
    requires Voting(H, w0, c, tid, w0.alive, w)
    ensures Enabled(Decide, w)
    ensures var commit, w1 := Prepares(c, w0.coordinator.state), Next(H, Decide, w);
      && w1.phase == Decided(commit) && w1.msgs == Results(w0.alive, tid, commit)
      && w1.coordinator == w.coordinator && w1.replicas == w.replicas && w1.alive == w.alive
      && w1.reign.lastTid == tid && tid in w1.reign.decided
  {
    assert w0.alive - w0.alive == {};
    assert w.msgs == {};
  }

  /** What a replica makes of the result. */
  lemma HearsResult(H: Hasher, before: Server, c: Change, w: World, m: Message)
    requires m.Result? && m in w.msgs && m.to in w.replicas && w.replicas[m.to] == RunServer(H, before, c, m.tid)
    ensures var w1 := Next(H, DeliverResult(m), w);
      && Enabled(FinishReplica(m.to), w1)
      && Next(H, FinishReplica(m.to), w1) ==
         w.(replicas := w.replicas[m.to := Told(H, before, c, m.tid, m.commit)], msgs := w.msgs - {m})
  {
  }

  lemma HeardBy(H: Hasher, w0: World, c: Change, tid: nat, done: set<Id>, w: World, r: Id, w': World)
    requires Telling(H, w0, c, tid, done, w) && r in w0.alive && r !in done
    requires var commit := Prepares(c, w0.coordinator.state);
      w' == w.(replicas := w.replicas[r := Told(H, w0.replicas[r], c, tid, commit)],
               msgs := w.msgs - {Result(r, tid, commit)})
    ensures Telling(H, w0, c, tid, done + {r}, w')
  {
    OneLess(w0.alive, done, r, c, tid, Prepares(c, w0.coordinator.state));
  }

  /** One replica hears the result and ends the transaction. */
  lemma OneHears(H: Hasher, w0: World, c: Change, tid: nat, done: set<Id>, before: seq<Step>, w: World, r: Id)
    returns (steps: seq<Step>, w': World)
    requires Reaches(H, w0, before, w) && Telling(H, w0, c, tid, done, w) && r in w0.alive && r !in done
    ensures Reaches(H, w0, steps, w') && Telling(H, w0, c, tid, done + {r}, w')
  {
    var m := Result(r, tid, Prepares(c, w0.coordinator.state));
    assert m in Results(w0.alive - done, tid, m.commit);
    HearsResult(H, w0.replicas[r], c, w, m);
    ReachMore(H, w0, before, w, DeliverResult(m));
    var w1 := Next(H, DeliverResult(m), w);
    ReachMore(H, w0, before + [DeliverResult(m)], w1, FinishReplica(r));
    w' := Next(H, FinishReplica(r), w1);
    steps := before + [DeliverResult(m)] + [FinishReplica(r)];
    HeardBy(H, w0, c, tid, done, w, r, w');
  }

  lemma {:induction false} SomeHear(H: Hasher, w0: World, c: Change, tid: nat, done: set<Id>, goal: set<Id>,
                                      before: seq<Step>, w: World)
    returns (steps: seq<Step>, w': World)
    requires Reaches(H, w0, before, w) && Telling(H, w0, c, tid, done, w) && done <= goal <= w0.alive
    ensures Reaches(H, w0, steps, w') && Telling(H, w0, c, tid, goal, w')
    decreases |goal - done|
  {
    var r := Pick(goal, done, tid);
    if r.None? {
      return before, w;
    }
    var more, w1 := OneHears(H, w0, c, tid, done, before, w, r.value);
    steps, w' := SomeHear(H, w0, c, tid, done + {r.value}, goal, more, w1);
  }

  /** The server is at rest with the outcome on record: the changed state after a commit, the old one after a
      rollback. */
  ghost predicate Holds(H: Hasher, before: Server, c: Change, tid: nat, n: Server) {
    var commit := Prepares(c, before.state);
    && n.state == (if commit then NextState(H, c, tid, before.state) else before.state)
    && tid in n.outcome && n.outcome[tid] == commit
    && n.current.None? && !n.hasResult && Coupled(H, n.state, n.tree)
  }

  /** The transaction has ended on the coordinator and on every live replica, and the world is quiet again. */
  ghost predicate EndedByAll(H: Hasher, w: World, c: Change, end: World) {
    && Quiet(H, end) && end.alive == w.alive && end.reign.lastTid == w.reign.lastTid + 1
    && Holds(H, w.coordinator, c, w.reign.lastTid + 1, end.coordinator)
    && forall r :: r in w.alive ==>
         r in w.replicas && r in end.replicas && Holds(H, w.replicas[r], c, w.reign.lastTid + 1, end.replicas[r])
  }

  lemma EndsHolding(H: Hasher, n: Server, c: Change, tid: nat)
    requires Coupled(H, n.state, n.tree) && Admissible(c, n.state)
    ensures var commit := Prepares(c, n.state);
      && Holds(H, n, c, tid, Told(H, n, c, tid, commit))
      && Holds(H, n, c, tid, FinishServer(RunServer(H, n, c, tid), commit))
  {
    var commit := Prepares(c, n.state);
    RunsThrough(H, c, tid, n.state, n.tree);
    StepsMatch(H, n, c, tid, commit);
    AfterCoupled(H, Finished(c, tid, commit), Local(n.state, n.tree));
  }

  lemma ToldHolds(H: Hasher, w: World, c: Change, tid: nat, done: set<Id>, told: World, r: Id)
    requires Quiet(H, w) && Admissible(c, w.coordinator.state)
    requires Telling(H, w, c, tid, done, told) && r in done
    ensures r in told.replicas && Holds(H, w.replicas[r], c, tid, told.replicas[r])
  {
    assert QuietReplica(H, w.coordinator.state, w.replicas[r]);
    EndsHolding(H, w.replicas[r], c, tid);
  }

  /** All replicas vote, the coordinator decides, and those of `goal` hear of it. */
  lemma TellSome(H: Hasher, w: World, c: Change, goal: set<Id>) returns (steps: seq<Step>, end: World)
    requires Quiet(H, w) && Admissible(c, w.coordinator.state) && goal <= w.alive
    ensures Reaches(H, w, steps, end) && Telling(H, w, c, w.reign.lastTid + 1, goal, end)
  {
    var tid := w.reign.lastTid + 1;
    var first, w3 := FirstHalf(H, w, c);
    var second, w4 := SomeVote(H, w, c, tid, {}, w.alive, first, w3);
    var third, w5 := CoordinatorDecides(H, w, c, tid, second, w4);
    steps, end := SomeHear(H, w, c, tid, {}, goal, third, w5);
  }

  lemma FinishOne(H: Hasher, w: World, c: Change) returns (steps: seq<Step>, end: World)
    requires Quiet(H, w) && Admissible(c, w.coordinator.state)
    ensures Reaches(H, w, steps, end) && EndedByAll(H, w, c, end)
  {
    steps, end := TellSome(H, w, c, w.alive);
    AllHold(H, w, c, end);
  }

  lemma AllHold(H: Hasher, w: World, c: Change, end: World)
    requires Quiet(H, w) && Admissible(c, w.coordinator.state)
    requires Telling(H, w, c, w.reign.lastTid + 1, w.alive, end)
    ensures EndedByAll(H, w, c, end)
  {
    assert w.alive - w.alive == {};
    EndsHolding(H, w.coordinator, c, w.reign.lastTid + 1);
    forall r | r in w.alive
      ensures r in end.replicas && Holds(H, w.replicas[r], c, w.reign.lastTid + 1, end.replicas[r])
      ensures QuietReplica(H, end.coordinator.state, end.replicas[r])
    {
      ToldHolds(H, w, c, w.reign.lastTid + 1, w.alive, end, r);
      assert QuietReplica(H, w.coordinator.state, w.replicas[r]);
    }
  }

  /** From a quiet world, whatever replicas are alive, every change has a run after which the coordinator and all of
      them have ended it alike, committed exactly when it is acceptable, and the world is quiet again. */
  lemma EverybodyCanFinish(H: Hasher, w: World, c: Change)
    requires Quiet(H, w) && Admissible(c, w.coordinator.state)
    ensures exists steps, end :: Reaches(H, w, steps, end) && EndedByAll(H, w, c, end)
  {
    var steps, end := FinishOne(H, w, c);
  }

  /** The changes one after the other, those that are not acceptable skipped. */
  function AllEnded(H: Hasher, cs: seq<Change>, tid: nat, s: State): State
    decreases cs
  {
    if cs == [] then s
    else AllEnded(H, cs[1..], tid + 1, if Prepares(cs[0], s) then NextState(H, cs[0], tid + 1, s) else s)
  }

  ghost predicate AllAdmissible(H: Hasher, cs: seq<Change>, tid: nat, s: State)
    decreases cs
  {
    cs == [] ||
    (Admissible(cs[0], s)
     && AllAdmissible(H, cs[1..], tid + 1, if Prepares(cs[0], s) then NextState(H, cs[0], tid + 1, s) else s))
  }

  ghost predicate AllHoldState(w: World, s: State, end: World) {
    && end.coordinator.state == s && end.alive == w.alive
    && forall r :: r in w.alive ==> r in end.replicas && end.replicas[r].state == s
  }

  /** And so has every list of changes, one transaction after the other: in the end all hold the same database, which is
      that of the acceptable changes in their order. */
  lemma {:induction false} EveryListCanFinish(H: Hasher, w: World, cs: seq<Change>)
    requires Quiet(H, w) && AllAdmissible(H, cs, w.reign.lastTid, w.coordinator.state)
    ensures exists steps, end :: Reaches(H, w, steps, end) && Quiet(H, end)
                                 && AllHoldState(w, AllEnded(H, cs, w.reign.lastTid, w.coordinator.state), end)
    decreases cs
  {
    if cs == [] {
      assert Reaches(H, w, [], w);
      assert forall r :: r in w.alive ==> QuietReplica(H, w.coordinator.state, w.replicas[r]);
      assert AllHoldState(w, w.coordinator.state, w);
    } else {
      var first, middle := FinishOne(H, w, cs[0]);
      OneOfMany(H, w, cs, middle);
      EveryListCanFinish(H, middle, cs[1..]);
      var s := AllEnded(H, cs[1..], middle.reign.lastTid, middle.coordinator.state);
      var more, end :| Reaches(H, middle, more, end) && Quiet(H, end) && AllHoldState(middle, s, end);
      ReachesAppend(H, w, first, middle, more, end);
      assert AllHoldState(w, s, end);
    }
  }

  lemma OneOfMany(H: Hasher, w: World, cs: seq<Change>, middle: World)
    requires cs != [] && AllAdmissible(H, cs, w.reign.lastTid, w.coordinator.state)
    requires EndedByAll(H, w, cs[0], middle)
    ensures Quiet(H, middle) && AllAdmissible(H, cs[1..], middle.reign.lastTid, middle.coordinator.state)
    ensures AllEnded(H, cs, w.reign.lastTid, w.coordinator.state)
            == AllEnded(H, cs[1..], middle.reign.lastTid, middle.coordinator.state)
    ensures middle.alive == w.alive
  {
  }

  lemma {:induction false} ReachesAppend(H: Hasher, w: World, a: seq<Step>, middle: World, b: seq<Step>, end: World)
    requires Reaches(H, w, a, middle) && Reaches(H, middle, b, end)
    ensures Reaches(H, w, a + b, end)
    decreases a
  {
    if a == [] {
      assert a + b == b;
    } else {
      assert (a + b)[1..] == a[1..] + b;
      ReachesAppend(H, Next(H, a[0], w), a[1..], middle, b, end);
    }
  }

  const FreshNode := Server(EmptyState, map[], 0, None, None, false, false, [], map[], map[])

  /** A coordinator and one replica, both empty. */
  const TwoServers := World(FreshNode, Idle, Ballot(0, 0, {}, false), map[1 := FreshNode], {1}, {},
                            Reign(EmptyServer, 0, map[], map[], map[], [], {1}))

  /** A replica that became coordinator now would give an id that its state has seen. */
  predicate BehindItsState(w: World, r: Id) {
    r in w.replicas && w.replicas[r].counter + 1 <= w.replicas[r].state.lastTid
  }

  /** After one commit the replica is behind: its counter is still that of its start-up. */
  lemma ReplicaFallsBehind(H: Hasher)
    ensures Initial(H, TwoServers)
    ensures exists steps, end :: Reaches(H, TwoServers, steps, end) && BehindItsState(end, 1)
  {
    assert Coupled(H, EmptyState, map[]);
    var c := NewFrontend("host", 1);
    var steps, end := FinishOne(H, TwoServers, c);
    assert 1 in TwoServers.alive && Holds(H, FreshNode, c, 1, end.replicas[1]);
    CountersFrozen(H, TwoServers, steps, end, 1);
    assert BehindItsState(end, 1);
  }
}
