/** What a lost message or a lost server does to a reign for good: neither of the two waits has a timeout, and a
    server taken for dead is never asked again. */
module Losses {
  import opened Options
  import opened Disk
  import opened Records
  import opened Changes
  import opened Coupling
  import opened History
  import opened Wire
  import opened TwoPhase
  import Agreement
  import opened Reigns
  import opened Progress

  // ---- a coordinator that misses a vote ----

  /** A proposal of the transaction, or a vote on it. */
  predicate About(m: Message, tid: nat) {
    (m.Propose? && m.body.transactionId == tid) || (m.Vote? && m.tid == tid)
  }

  /** The vote is open, and nothing that could settle it is under way. */
  ghost predicate Waits(w: World) {
    && w.phase.Waiting? && 0 <= w.ballot.votes < w.ballot.total
    && forall m :: m in w.msgs ==> !About(m, w.reign.lastTid)
  }

  /** The coordinator stays in its wait whatever happens from here on. */
  ghost predicate StuckFrom(H: Hasher, w: World) {
    forall steps, end :: Reaches(H, w, steps, end) ==>
      end.phase.Waiting? && end.coordinator == w.coordinator && end.reign == w.reign && end.ballot == w.ballot
  }

  lemma WaitsOn(H: Hasher, w: World, st: Step)
    requires Waits(w) && Enabled(st, w)
    ensures var w' := Next(H, st, w);
      Waits(w') && w'.coordinator == w.coordinator && w'.reign == w.reign && w'.ballot == w.ballot
  {
    var w' := Next(H, st, w);
    forall m | m in w'.msgs ensures !About(m, w.reign.lastTid) {
      if m !in w.msgs {
        assert st.DeliverPropose? && !About(st.msg, w.reign.lastTid);
      }
    }
  }

  lemma {:induction false} WaitsForever(H: Hasher, w: World, steps: seq<Step>, end: World)
    requires Waits(w) && Reaches(H, w, steps, end)
    ensures end.phase.Waiting? && end.coordinator == w.coordinator && end.reign == w.reign && end.ballot == w.ballot
    decreases steps
  {
    if steps != [] {
      WaitsOn(H, w, steps[0]);
      WaitsForever(H, Next(H, steps[0], w), steps[1..], end);
    }
  }

  /** A single lost proposal is enough, although everybody else votes yes: from any quiet world and for any live replica
      there is a run that loses its proposal, after which the transaction never ends and no other ever begins, whoever
      is taken for dead later. */
  lemma LostProposalBlocks(H: Hasher, w: World, c: Change, r: Id)
    requires Quiet(H, w) && Admissible(c, w.coordinator.state) && Prepares(c, w.coordinator.state) && r in w.alive
    ensures exists steps, end :: Reaches(H, w, steps, end) && StuckFrom(H, end) && end.ballot.yes == w.alive - {r}
  {
    var tid := w.reign.lastTid + 1;
    var first, w3 := FirstHalf(H, w, c);
    var before, w4 := SomeVote(H, w, c, tid, {}, w.alive - {r}, first, w3);
    var m := Propose(r, Serialize(c, tid));
    ReachMore(H, w, before, w4, Lose(m));
    OneUnasked(H, w, c, tid, r, w4);
    WaitsIsStuck(H, Next(H, Lose(m), w4));
  }

  lemma OneUnasked(H: Hasher, w: World, c: Change, tid: nat, r: Id, voted: World)
    requires Prepares(c, w.coordinator.state) && r in w.alive && Voting(H, w, c, tid, w.alive - {r}, voted)
    ensures var end := Next(H, Lose(Propose(r, Serialize(c, tid))), voted);
      Waits(end) && end.ballot.yes == w.alive - {r}
  {
    AllButOne(w.alive, r);
    OnlyMessage(w.alive, r, c, tid);
    NothingLeft(Propose(r, Serialize(c, tid)));
  }

  lemma OnlyMessage(ids: set<Id>, r: Id, c: Change, tid: nat)
    requires r in ids
    ensures Proposals(ids - (ids - {r}), c, tid) == {Propose(r, Serialize(c, tid))}
    ensures Results(ids - (ids - {r}), tid, true) == {Result(r, tid, true)}
  {
    assert ids - (ids - {r}) == {r};
  }

  lemma NothingLeft(m: Message)
    ensures {m} - {m} == {}
  {
  }

  lemma WaitsIsStuck(H: Hasher, w: World)
    requires Waits(w)
    ensures StuckFrom(H, w)
  {
    forall steps, end | Reaches(H, w, steps, end)
      ensures end.phase.Waiting? && end.coordinator == w.coordinator && end.reign == w.reign && end.ballot == w.ballot
    {
      WaitsForever(H, w, steps, end);
    }
  }

  lemma AllButOne(ids: set<Id>, r: Id)
    requires r in ids
    ensures |ids - {r}| == |ids| - 1
  {
  }

  // ---- a replica that misses the result ----

  /** The replica waits for a result that has been given and is no longer under way. */
  ghost predicate Missed(w: World, r: Id) {
    && r in w.replicas && w.replicas[r].current.Some? && !w.replicas[r].hasResult
    && w.replicas[r].current.value.tid in w.reign.decided
    && w.replicas[r].pointer == Some(w.replicas[r].current.value.tid)
    && NoResult(w.msgs, r, w.replicas[r].current.value.tid)
  }

  predicate NoResult(msgs: set<Message>, r: Id, t: nat) {
    forall m :: m in msgs && m.Result? && m.to == r ==> m.tid != t
  }

  lemma MissedOn(H: Hasher, w: World, st: Step, r: Id)
    requires Missed(w, r) && Enabled(st, w)
    requires w.phase.Waiting? ==> w.reign.lastTid !in w.reign.decided
    ensures Missed(Next(H, st, w), r) && Next(H, st, w).replicas[r] == w.replicas[r]
  {
    ReplicaStays(H, w, st, r);
    var w' := Next(H, st, w);
    var t := w.replicas[r].current.value.tid;
    assert t in w'.reign.decided;
    forall m | m in w'.msgs && m.Result? && m.to == r ensures m.tid != t {
      if m !in w.msgs {
        NewResult(H, w, st, m);
      }
    }
  }

  lemma NewResult(H: Hasher, w: World, st: Step, m: Message)
    requires Enabled(st, w) && m.Result? && m in Next(H, st, w).msgs && m !in w.msgs
    ensures st.Decide? && m.tid == w.reign.lastTid
  {
  }

  lemma ReplicaStays(H: Hasher, w: World, st: Step, r: Id)
    requires Missed(w, r) && Enabled(st, w)
    ensures r in Next(H, st, w).replicas && Next(H, st, w).replicas[r] == w.replicas[r]
  {
    match st
    case DeliverResult(m) =>
      if m.to == r {
        assert m.tid != w.replicas[r].current.value.tid;
      }
    case DeliverPropose(m) =>
    case FinishReplica(id) =>
    case _ =>
  }

  lemma {:induction false} MissedForever(H: Hasher, w: World, steps: seq<Step>, end: World, r: Id)
    requires Agreement.Inv(H, w) && Missed(w, r) && Reaches(H, w, steps, end)
    ensures r in end.replicas && end.replicas[r] == w.replicas[r]
    decreases steps
  {
    if steps != [] {
      Agreement.StepInv(H, w, steps[0]);
      MissedOn(H, w, steps[0], r);
      MissedForever(H, Next(H, steps[0], w), steps[1..], end, r);
    }
  }

  /** The vote on the transaction counts on the replica. */
  predicate Counts(w: World, r: Id, t: nat) {
    t in w.reign.counted && r in w.reign.counted[t]
  }

  /** A single lost result is enough: from any quiet world and for any live replica there is a run after which the
      coordinator and all other live replicas hold the changed state, and this one waits for the result with the old. */
  lemma LostResultHappens(H: Hasher, w: World, c: Change, r: Id)
    requires Quiet(H, w) && Admissible(c, w.coordinator.state) && Prepares(c, w.coordinator.state) && r in w.alive
    ensures exists steps, end :: Reaches(H, w, steps, end) && AllButOneEnded(H, w, c, r, end)
  {
    var tid := w.reign.lastTid + 1;
    var before, w6 := TellSome(H, w, c, w.alive - {r});
    ReachMore(H, w, before, w6, Lose(Result(r, tid, true)));
    OneLeftBehind(H, w, c, tid, r, w6);
  }

  lemma OneLeftBehind(H: Hasher, w: World, c: Change, tid: nat, r: Id, told: World)
    requires Quiet(H, w) && Admissible(c, w.coordinator.state) && Prepares(c, w.coordinator.state) && r in w.alive
    requires Telling(H, w, c, tid, w.alive - {r}, told)
    requires tid == w.reign.lastTid + 1
    ensures AllButOneEnded(H, w, c, r, Next(H, Lose(Result(r, tid, true)), told))
  {
    var end := Next(H, Lose(Result(r, tid, true)), told);
    ResultLost(H, w, c, tid, r, told);
    forall q | q in w.alive && q != r ensures q in end.replicas && Holds(H, w.replicas[q], c, tid, end.replicas[q]) {
      ToldHolds(H, w, c, tid, w.alive - {r}, told, q);
    }
    EndsHolding(H, w.coordinator, c, tid);
  }

  lemma ResultLost(H: Hasher, w: World, c: Change, tid: nat, r: Id, told: World)
    requires Quiet(H, w) && Prepares(c, w.coordinator.state) && r in w.alive
    requires Telling(H, w, c, tid, w.alive - {r}, told)
    ensures var end := Next(H, Lose(Result(r, tid, true)), told);
      && Missed(end, r) && end.replicas[r].state == w.replicas[r].state
      && end.replicas == told.replicas && end.coordinator == told.coordinator
  {
    StillRunning(H, w, c, tid, w.alive - {r}, told, r);
    OnlyMessage(w.alive, r, c, tid);
    NothingLeft(Result(r, tid, true));
  }

  lemma StillRunning(H: Hasher, w: World, c: Change, tid: nat, done: set<Id>, told: World, r: Id)
    requires Quiet(H, w) && r in w.alive && r !in done && Telling(H, w, c, tid, done, told)
    ensures r in told.replicas && tid in told.reign.decided
    ensures var n := told.replicas[r];
      n.current.Some? && n.current.value.tid == tid && n.pointer == Some(tid) && !n.hasResult
      && n.state == w.replicas[r].state
  {
    assert QuietReplica(H, w.coordinator.state, w.replicas[r]);
  }

  ghost predicate AllButOneEnded(H: Hasher, w: World, c: Change, r: Id, end: World) {
    && Missed(end, r) && r in w.replicas && end.replicas[r].state == w.replicas[r].state
    && Holds(H, w.coordinator, c, w.reign.lastTid + 1, end.coordinator)
    && forall q :: q in w.alive && q != r ==>
         q in w.replicas && q in end.replicas && Holds(H, w.replicas[q], c, w.reign.lastTid + 1, end.replicas[q])
  }

  /** A replica whose result got lost keeps its old database for good, and no later transaction that counts on its vote
      is ever committed, by anybody. */
  lemma LostResultBlocks(H: Hasher, w0: World, before: seq<Step>, w: World, steps: seq<Step>, end: World, r: Id)
    requires Initial(H, w0) && Reaches(H, w0, before, w) && Missed(w, r) && Reaches(H, w, steps, end)
    ensures r in end.replicas && end.replicas[r] == w.replicas[r]
    ensures forall t :: t in end.reign.decided && t > w.reign.lastTid && Counts(end, r, t) ==> !end.reign.decided[t]
  {
    ReachInv(H, w0, before, w);
    MissedForever(H, w, steps, end, r);
    Agreement.RunInv(H, w, steps, end);
    assert Agreement.ReplicaOk(w.reign, r, w.replicas[r]);
    forall t | t in end.reign.decided && t > w.reign.lastTid && Counts(end, r, t)
      ensures !end.reign.decided[t]
    {
      assert t in w.replicas[r].voted ==> t in w.reign.counted;
    }
  }

  // ---- a server taken for dead ----

  /** The server is not among the live ones, no transaction after `first` counts on it, and nothing about one is under
      way to it. */
  ghost predicate Out(w: World, id: Id, first: nat) {
    && id !in w.alive && w.reign.lastTid >= first
    && (forall t :: t in w.reign.counted && t > first ==> id !in w.reign.counted[t])
    && (forall m :: m in w.msgs ==> Before(m, id, first))
  }

  predicate Before(m: Message, id: Id, first: nat) {
    && (m.Propose? && m.to == id ==> m.body.transactionId <= first)
    && (m.Result? && m.to == id ==> m.tid <= first)
  }

  lemma OutOn(H: Hasher, w: World, st: Step, id: Id, first: nat)
    requires Out(w, id, first) && Enabled(st, w)
    ensures Out(Next(H, st, w), id, first)
  {
    var w' := Next(H, st, w);
    forall m | m in w'.msgs ensures Before(m, id, first) {
      assert m in w.msgs ==> Before(m, id, first);
    }
  }

  lemma {:induction false} OutForever(H: Hasher, w: World, steps: seq<Step>, end: World, id: Id, first: nat)
    requires Out(w, id, first) && Reaches(H, w, steps, end)
    ensures Out(end, id, first)
    decreases steps
  {
    if steps != [] {
      OutOn(H, w, steps[0], id, first);
      OutForever(H, Next(H, steps[0], w), steps[1..], end, id, first);
    }
  }

  /** Once a replica is taken for dead it is never live again in the reign, no later transaction counts on its vote, and
      it is sent neither a later transaction nor its result. */
  lemma DeadStaysOut(H: Hasher, w0: World, before: seq<Step>, w: World, id: Id, steps: seq<Step>, end: World)
    requires Initial(H, w0) && Reaches(H, w0, before, w)
    requires Reaches(H, Next(H, MarkDead(id), w), steps, end)
    ensures id !in end.alive
    ensures forall t :: t in end.reign.counted && t > w.reign.lastTid ==> id !in end.reign.counted[t]
    ensures forall m :: m in end.msgs && m.Propose? && m.to == id ==> m.body.transactionId <= w.reign.lastTid
    ensures forall m :: m in end.msgs && m.Result? && m.to == id ==> m.tid <= w.reign.lastTid
  {
    ReachInv(H, w0, before, w);
    var w1 := Next(H, MarkDead(id), w);
    forall m | m in w1.msgs ensures Before(m, id, w.reign.lastTid) {
      assert Agreement.MessageOk(H, w, m);
    }
    OutForever(H, w1, steps, end, id, w.reign.lastTid);
    forall m | m in end.msgs && !m.Vote? && m.to == id
      ensures m.Propose? ==> m.body.transactionId <= w.reign.lastTid
      ensures m.Result? ==> m.tid <= w.reign.lastTid
    {
      assert Before(m, id, w.reign.lastTid);
    }
  }
}
