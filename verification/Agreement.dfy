/** What every step of a reign keeps. The central fact: the log of each replica, with a decided commit it still
    has to apply, is a prefix of the decided log, and all of it for the replicas that were counted last. */
module Agreement {
  import opened Options
  import opened Disk
  import opened Records
  import opened Changes
  import opened Coupling
  import opened History
  import opened Wire
  import opened TwoPhase
  import opened Replay

  // ---- the invariant ----

  predicate Voting(p: Phase) {
    p.Counted? || p.Sent? || p.Waiting?
  }

  /** A replica whose active transaction is decided to commit. */
  predicate Pending(g: Reign, n: Server) {
    n.current.Some? && n.current.value.tid in g.decided && g.decided[n.current.value.tid]
  }

  /** A replica's log with the commit it has yet to apply. */
  function FullLog(g: Reign, n: Server): seq<Entry> {
    if Pending(g, n) then n.log + [Entry(n.current.value.tid, n.current.value.change)] else n.log
  }

  ghost predicate LogOk(g: Reign, id: Id, n: Server) {
    && FullLog(g, n) <= g.log
    && (id in g.members ==> FullLog(g, n) == g.log)
  }

  /** A vote is cast once, by a counted replica, and the transaction is then active or finished. */
  ghost predicate VotesOk(g: Reign, id: Id, n: Server) {
    && (forall t :: t in n.voted ==>
          && t in g.counted && id in g.counted[t]
          && (t in n.outcome || (n.current.Some? && n.current.value.tid == t)))
    && (forall t :: t in n.outcome ==> t in n.voted && t in g.decided && g.decided[t] == n.outcome[t])
  }

  predicate CurrentOk(g: Reign, n: Server) {
    && (n.current.Some? ==>
          var a := n.current.value;
          && a.tid in n.voted && n.voted[a.tid] == a.ran.prepared
          && a.tid !in n.outcome
          && a.tid in g.changes && g.changes[a.tid] == a.change
          && n.pointer == Some(a.tid))
    && (n.hasResult ==>
          && n.current.Some? && n.current.value.tid in g.decided
          && g.decided[n.current.value.tid] == n.result)
    && (n.pointer.Some? ==> n.pointer.value in n.voted)
  }

  ghost predicate ReplicaOk(g: Reign, id: Id, n: Server) {
    LogOk(g, id, n) && VotesOk(g, id, n) && CurrentOk(g, n)
  }

  ghost predicate ReignOk(g: Reign, p: Phase) {
    && g.changes.Keys == g.counted.Keys && g.decided.Keys <= g.changes.Keys
    && (forall t :: t in g.changes ==> t <= g.lastTid)
    && (forall t :: t in g.changes && t !in g.decided ==> t == g.lastTid && Voting(p))
    && (Voting(p) ==>
          g.lastTid in g.changes && g.lastTid !in g.decided && g.counted[g.lastTid] == g.members)
    && (p.Decided? ==> g.lastTid in g.decided && g.decided[g.lastTid] == p.commit)
  }

  /** The decided log holds the committed changes in the order of their tids. */
  ghost predicate LogOrdered(g: Reign) {
    && (forall i :: 0 <= i < |g.log| ==>
          && g.log[i].tid in g.decided && g.decided[g.log[i].tid]
          && g.log[i].tid in g.changes && g.changes[g.log[i].tid] == g.log[i].change)
    && (forall i, j :: 0 <= i < j < |g.log| ==> g.log[i].tid < g.log[j].tid)
  }

  /** A decision to commit was the vote of everyone counted. */
  ghost predicate Unanimous(w: World) {
    forall t :: t in w.reign.decided && w.reign.decided[t] ==>
      && t in w.coordinator.voted && w.coordinator.voted[t]
      && (t in w.reign.counted ==> AllVotedYes(w.replicas, w.reign.counted[t], t))
  }

  ghost predicate AllVotedYes(replicas: map<Id, Server>, ids: set<Id>, t: nat) {
    forall r :: r in ids ==> r in replicas && t in replicas[r].voted && replicas[r].voted[t]
  }

  /** The counter is the number of distinct members whose yes arrived. */
  ghost predicate BallotOk(w: World) {
    var b := w.ballot;
    Voting(w.phase) ==>
      && b.total == |w.reign.members| + 1
      && b.yes <= w.reign.members
      && (b.votes != -1 ==> b.votes == |b.yes| + if b.own then 1 else 0)
      && AllVotedYes(w.replicas, b.yes, w.reign.lastTid)
      && (!w.phase.Waiting? ==> !b.own)
      && (w.phase.Waiting? && b.own ==>
            w.reign.lastTid in w.coordinator.voted && w.coordinator.voted[w.reign.lastTid])
  }

  ghost predicate CoordinatorOk(w: World) {
    var g, n := w.reign, w.coordinator;
    && (w.phase.Waiting? || w.phase.Decided? ==>
          && n.current.Some? && n.current.value.tid == g.lastTid
          && g.lastTid in g.changes && n.current.value.change == g.changes[g.lastTid]
          && g.lastTid in n.voted && n.voted[g.lastTid] == n.current.value.ran.prepared)
    && (!(w.phase.Waiting? || w.phase.Decided?) ==> n.current.None?)
    && (w.phase.Counted? || w.phase.Sent? ==>
          g.lastTid in g.changes && Admissible(g.changes[g.lastTid], n.state))
    && g.log == (if w.phase == Decided(true) && g.lastTid in g.changes
                 then n.log + [Entry(g.lastTid, g.changes[g.lastTid])] else n.log)
    && (forall t :: t in n.outcome ==> t in g.decided && g.decided[t] == n.outcome[t])
    && (forall t :: t in n.voted ==> t <= g.lastTid)
  }

  /** The state a replica has, or will have once it applies its pending commit. */
  ghost function Settled(H: Hasher, g: Reign, n: Server): State {
    Replayed(H, g.start, FullLog(g, n)).state
  }

  ghost predicate MessageOk(H: Hasher, w: World, m: Message) {
    var g := w.reign;
    match m
    case Propose(to, body) =>
      && to in w.replicas && body.transactionId in g.changes
      && body == Serialize(g.changes[body.transactionId], body.transactionId)
      && body.transactionId !in w.replicas[to].voted
      && (w.phase.Counted? ==> body.transactionId != g.lastTid)
      && body.transactionId in g.counted && to in g.counted[body.transactionId]
      && Admissible(g.changes[body.transactionId], Settled(H, g, w.replicas[to]))
    case Vote(sender, t, yes) =>
      && sender in w.replicas && t in w.replicas[sender].voted && w.replicas[sender].voted[t] == yes
      && (Voting(w.phase) && t == g.lastTid ==> sender !in w.ballot.yes)
    case Result(to, t, commit) =>
      && to in w.replicas && t in g.decided && g.decided[t] == commit
      && t !in w.replicas[to].outcome
      && !(w.replicas[to].hasResult && w.replicas[to].pointer == Some(t))
  }

  ghost predicate ReplicasOk(H: Hasher, w: World) {
    forall r :: r in w.replicas ==>
      Faithful(H, w.reign.start, w.replicas[r]) && ReplicaOk(w.reign, r, w.replicas[r])
  }

  /** Nobody has heard of a transaction that is not sent yet. */
  ghost predicate Unheard(w: World) {
    w.phase.Counted? ==> forall r :: r in w.replicas ==> w.reign.lastTid !in w.replicas[r].voted
  }

  ghost predicate MessagesOk(H: Hasher, w: World) {
    forall m :: m in w.msgs ==> MessageOk(H, w, m)
  }

  ghost predicate Inv(H: Hasher, w: World) {
    && w.alive <= w.reign.members <= w.replicas.Keys
    && ReignOk(w.reign, w.phase) && LogOrdered(w.reign)
    && ReplicasOk(H, w)
    && Faithful(H, w.reign.start, w.coordinator) && CoordinatorOk(w)
    && BallotOk(w) && Unanimous(w) && Unheard(w)
    && MessagesOk(H, w)
  }

  lemma InitialInv(H: Hasher, w: World)
    requires Initial(H, w)
    ensures Inv(H, w)
  {
  }

  // ---- steps that only lose things ----

  lemma LoseInv(H: Hasher, w: World, m: Message)
    requires Inv(H, w)
    ensures Inv(H, Next(H, Lose(m), w))
  {
    var w' := Next(H, Lose(m), w);
    forall m' | m' in w'.msgs ensures MessageOk(H, w', m') {
      assert MessageOk(H, w, m');
    }
  }

  lemma MarkDeadInv(H: Hasher, w: World, id: Id)
    requires Inv(H, w)
    ensures Inv(H, Next(H, MarkDead(id), w))
  {
    var w' := Next(H, MarkDead(id), w);
    forall m' | m' in w'.msgs ensures MessageOk(H, w', m') {
      assert MessageOk(H, w, m');
    }
  }

  // ---- the coordinator begins ----

  lemma StartReplica(g: Reign, g': Reign, c: Change, alive: set<Id>, id: Id, n: Server)
    requires ReplicaOk(g, id, n) && alive <= g.members
    requires g.lastTid + 1 !in g.changes && g.lastTid + 1 !in g.counted && g.lastTid + 1 !in g.decided
    requires g' == g.(lastTid := g.lastTid + 1, changes := g.changes[g.lastTid + 1 := c],
                      counted := g.counted[g.lastTid + 1 := alive], members := alive)
    ensures ReplicaOk(g', id, n) && FullLog(g', n) == FullLog(g, n)
  {
  }

  lemma StartReign(H: Hasher, w: World, c: Change)
    requires ReignOk(w.reign, w.phase) && LogOrdered(w.reign) && Enabled(Start(c), w)
    ensures ReignOk(Next(H, Start(c), w).reign, Counted) && LogOrdered(Next(H, Start(c), w).reign)
  {
  }

  lemma StartMessage(H: Hasher, w: World, c: Change, m: Message)
    requires w.alive <= w.reign.members && ReignOk(w.reign, w.phase) && Enabled(Start(c), w)
    requires MessageOk(H, w, m) && (m.Propose? ==> ReplicaOk(w.reign, m.to, w.replicas[m.to]))
    ensures MessageOk(H, Next(H, Start(c), w), m)
  {
    if m.Propose? {
      StartReplica(w.reign, Next(H, Start(c), w).reign, c, w.alive, m.to, w.replicas[m.to]);
    }
  }

  lemma StartMessages(H: Hasher, w: World, c: Change)
    requires w.alive <= w.reign.members && ReignOk(w.reign, w.phase) && Enabled(Start(c), w)
    requires ReplicasOk(H, w) && MessagesOk(H, w)
    ensures MessagesOk(H, Next(H, Start(c), w))
  {
    forall m | m in w.msgs ensures MessageOk(H, Next(H, Start(c), w), m) {
      assert MessageOk(H, w, m);
      StartMessage(H, w, c, m);
    }
  }

  lemma StartReplicas(H: Hasher, w: World, c: Change)
    requires w.alive <= w.reign.members && ReignOk(w.reign, w.phase) && Enabled(Start(c), w)
    requires ReplicasOk(H, w)
    ensures ReplicasOk(H, Next(H, Start(c), w))
  {
    var w' := Next(H, Start(c), w);
    forall r | r in w'.replicas
      ensures Faithful(H, w'.reign.start, w'.replicas[r]) && ReplicaOk(w'.reign, r, w'.replicas[r])
    {
      StartReplica(w.reign, w'.reign, c, w.alive, r, w.replicas[r]);
      assert Faithful(H, w.reign.start, w.replicas[r]) && w'.replicas[r] == w.replicas[r];
    }
  }

  lemma StartRest(H: Hasher, w: World, c: Change)
    requires w.alive <= w.reign.members <= w.replicas.Keys && ReignOk(w.reign, w.phase) && Enabled(Start(c), w)
    requires CoordinatorOk(w) && Unanimous(w) && ReplicasOk(H, w)
    ensures var w' := Next(H, Start(c), w); CoordinatorOk(w') && BallotOk(w') && Unanimous(w') && Unheard(w')
  {
    var w' := Next(H, Start(c), w);
    forall r | r in w'.replicas ensures w'.reign.lastTid !in w'.replicas[r].voted {
      assert ReplicaOk(w.reign, r, w.replicas[r]);
    }
  }

  lemma StartInv(H: Hasher, w: World, c: Change)
    requires Inv(H, w) && Enabled(Start(c), w)
    ensures Inv(H, Next(H, Start(c), w))
  {
    StartReign(H, w, c);
    StartReplicas(H, w, c);
    StartMessages(H, w, c);
    StartRest(H, w, c);
  }

  // ---- the coordinator sends the transaction ----

  lemma NewProposal(H: Hasher, w: World, r: Id)
    requires ReignOk(w.reign, w.phase) && CoordinatorOk(w) && Enabled(Send, w)
    requires r in w.replicas && r in w.reign.members && ReplicaOk(w.reign, r, w.replicas[r]) && Unheard(w)
    requires w.coordinator.state == Replayed(H, w.reign.start, w.coordinator.log).state
    ensures MessageOk(H, Next(H, Send, w), Propose(r, Serialize(w.reign.changes[w.reign.lastTid], w.reign.lastTid)))
  {
    var g, n := w.reign, w.replicas[r];
    SameChange(g.changes[g.lastTid], g.lastTid);
    assert FullLog(g, n) == g.log == w.coordinator.log;
    assert g.lastTid !in n.outcome;
  }

  lemma SendMessages(H: Hasher, w: World)
    requires w.alive <= w.reign.members <= w.replicas.Keys
    requires ReignOk(w.reign, w.phase) && CoordinatorOk(w) && Enabled(Send, w)
    requires ReplicasOk(H, w) && MessagesOk(H, w) && Unheard(w)
    requires w.coordinator.state == Replayed(H, w.reign.start, w.coordinator.log).state
    ensures MessagesOk(H, Next(H, Send, w))
  {
    var w' := Next(H, Send, w);
    forall m | m in w'.msgs ensures MessageOk(H, w', m) {
      if m in w.msgs {
        assert MessageOk(H, w, m);
      } else {
        assert m.to in w.replicas && ReplicaOk(w.reign, m.to, w.replicas[m.to]);
        NewProposal(H, w, m.to);
      }
    }
  }

  lemma SendInv(H: Hasher, w: World)
    requires Inv(H, w) && Enabled(Send, w)
    ensures Inv(H, Next(H, Send, w))
  {
    SendMessages(H, w);
    assert Next(H, Send, w).replicas == w.replicas && Next(H, Send, w).reign == w.reign;
    assert ReplicasOk(H, Next(H, Send, w));
  }

  // ---- the coordinator runs it and casts its own vote ----

  lemma RunOwnRest(w: World, w': World, n: Server)
    requires ReignOk(w.reign, w.phase) && CoordinatorOk(w) && BallotOk(w) && Unanimous(w) && Enabled(RunOwn, w)
    requires n.current.Some? && n.current.value.tid == w.reign.lastTid
    requires n.current.value.change == w.reign.changes[w.reign.lastTid]
    requires n == w.coordinator.(tree := n.tree, current := n.current, pointer := Some(w.reign.lastTid),
                                 voted := w.coordinator.voted[w.reign.lastTid := n.current.value.ran.prepared])
    requires w' == w.(phase := Waiting, coordinator := n,
                      ballot := w.ballot.(votes := AddVote(w.ballot.votes, n.current.value.ran.prepared),
                                          own := n.current.value.ran.prepared))
    ensures ReignOk(w'.reign, w'.phase) && CoordinatorOk(w') && BallotOk(w') && Unanimous(w')
  {
  }

  lemma RunOwnInv(H: Hasher, w: World)
    requires Inv(H, w) && Enabled(RunOwn, w)
    ensures Inv(H, Next(H, RunOwn, w))
  {
    var w', g := Next(H, RunOwn, w), w.reign;
    RunFaithful(H, g.start, w.coordinator, g.changes[g.lastTid], g.lastTid);
    RunOwnRest(w, w', w'.coordinator);
    assert ReplicasOk(H, w');
    SameMessages(H, w, w');
  }

  // ---- the decision ----

  lemma EveryoneCounted(b: Ballot, members: set<Id>)
    requires b.yes <= members && b.total == |members| + 1
    requires b.votes != -1 ==> b.votes == |b.yes| + if b.own then 1 else 0
    requires b.votes == b.total
    ensures b.own && b.yes == members
  {
    assert members == b.yes + (members - b.yes);
    assert |members| == |b.yes| + |members - b.yes|;
  }

  /** A commit decision means that the coordinator and every member voted yes. */
  lemma DecidedByAll(w: World)
    requires ReignOk(w.reign, w.phase) && BallotOk(w) && w.phase.Waiting? && w.ballot.votes == w.ballot.total
    ensures var t := w.reign.lastTid;
      && AllVotedYes(w.replicas, w.reign.members, t) && w.reign.counted[t] == w.reign.members
      && t in w.coordinator.voted && w.coordinator.voted[t]
  {
    EveryoneCounted(w.ballot, w.reign.members);
  }

  lemma DecideReplica(g: Reign, g': Reign, commit: bool, id: Id, n: Server)
    requires ReplicaOk(g, id, n) && ReignOk(g, Waiting)
    requires g' == g.(decided := g.decided[g.lastTid := commit],
                      log := if commit then g.log + [Entry(g.lastTid, g.changes[g.lastTid])] else g.log)
    requires commit && id in g.members ==> g.lastTid in n.voted && n.voted[g.lastTid]
    ensures ReplicaOk(g', id, n)
    ensures FullLog(g', n) == FullLog(g, n) ||
            (commit && FullLog(g', n) == FullLog(g, n) + [Entry(g.lastTid, g.changes[g.lastTid])])
  {
    assert g.lastTid !in n.outcome;
    if g.lastTid in n.voted {
      assert id in g.members;
      assert n.current.Some? && n.current.value.tid == g.lastTid;
      assert FullLog(g, n) == n.log;
    } else {
      assert FullLog(g', n) == FullLog(g, n);
    }
  }

  lemma AdmissibleLater(H: Hasher, start: Local, log: seq<Entry>, e: Entry, c: Change)
    requires Admissible(c, Replayed(H, start, log).state)
    ensures Admissible(c, Replayed(H, start, log + [e]).state)
  {
    ReplaySnoc(H, start, log, e);
  }

  lemma DecideMessages(H: Hasher, w: World)
    requires w.alive <= w.reign.members <= w.replicas.Keys && ReignOk(w.reign, w.phase) && Enabled(Decide, w)
    requires BallotOk(w) && ReplicasOk(H, w) && MessagesOk(H, w)
    ensures MessagesOk(H, Next(H, Decide, w))
  {
    var w', g := Next(H, Decide, w), w.reign;
    var commit := w.ballot.votes == w.ballot.total;
    if commit { DecidedByAll(w); }
    forall m | m in w'.msgs ensures MessageOk(H, w', m) {
      if m in w.msgs {
        assert MessageOk(H, w, m);
        if m.Propose? {
          var n := w.replicas[m.to];
          assert ReplicaOk(g, m.to, n);
          DecideReplica(g, w'.reign, commit, m.to, n);
          AdmissibleLater(H, g.start, FullLog(g, n), Entry(g.lastTid, g.changes[g.lastTid]),
                          g.changes[m.body.transactionId]);
        }
      } else {
        assert m.to in w.replicas && ReplicaOk(g, m.to, w.replicas[m.to]);
      }
    }
  }

  lemma DecideReplicas(H: Hasher, w: World)
    requires ReignOk(w.reign, w.phase) && Enabled(Decide, w) && BallotOk(w) && ReplicasOk(H, w)
    ensures ReplicasOk(H, Next(H, Decide, w))
  {
    var w', g := Next(H, Decide, w), w.reign;
    var commit := w.ballot.votes == w.ballot.total;
    if commit { DecidedByAll(w); }
    forall r | r in w'.replicas
      ensures Faithful(H, w'.reign.start, w'.replicas[r]) && ReplicaOk(w'.reign, r, w'.replicas[r])
    {
      DecideReplica(g, w'.reign, commit, r, w.replicas[r]);
    }
  }

  lemma DecideReign(H: Hasher, w: World)
    requires ReignOk(w.reign, w.phase) && LogOrdered(w.reign) && Enabled(Decide, w)
    ensures ReignOk(Next(H, Decide, w).reign, Next(H, Decide, w).phase) && LogOrdered(Next(H, Decide, w).reign)
  {
  }

  lemma DecideRest(H: Hasher, w: World)
    requires ReignOk(w.reign, w.phase) && BallotOk(w) && CoordinatorOk(w) && Unanimous(w) && Enabled(Decide, w)
    ensures var w' := Next(H, Decide, w); CoordinatorOk(w') && BallotOk(w') && Unanimous(w') && Unheard(w')
  {
    if w.ballot.votes == w.ballot.total { DecidedByAll(w); }
  }

  lemma DecideInv(H: Hasher, w: World)
    requires Inv(H, w) && Enabled(Decide, w)
    ensures Inv(H, Next(H, Decide, w))
  {
    DecideReign(H, w);
    DecideReplicas(H, w);
    DecideMessages(H, w);
    DecideRest(H, w);
  }

  lemma SameMessages(H: Hasher, w: World, w': World)
    requires MessagesOk(H, w) && w'.msgs <= w.msgs
    requires w'.replicas == w.replicas && w'.reign == w.reign
    requires Voting(w'.phase) ==> Voting(w.phase) && w'.ballot.yes == w.ballot.yes
    requires w'.phase.Counted? ==> w.phase.Counted?
    ensures MessagesOk(H, w')
  {
    forall m | m in w'.msgs ensures MessageOk(H, w', m) {
      assert MessageOk(H, w, m);
    }
  }

  /** Steps that touch only messages and the ballot. */
  lemma SameServers(H: Hasher, w: World, w': World)
    requires w'.replicas == w.replicas && w'.reign == w.reign && w'.coordinator == w.coordinator && w'.phase == w.phase
    ensures ReplicasOk(H, w) ==> ReplicasOk(H, w')
    ensures CoordinatorOk(w) ==> CoordinatorOk(w')
    ensures Unanimous(w) ==> Unanimous(w')
    ensures Unheard(w) ==> Unheard(w')
  {
  }

  lemma FinishOwnCoordinator(H: Hasher, w: World)
    requires ReignOk(w.reign, w.phase) && CoordinatorOk(w) && Unanimous(w) && Enabled(FinishOwn, w)
    requires Applies(w.coordinator.current.value, w.phase.commit)
             <==> w.phase.commit && w.coordinator.current.value.ran.prepared
    ensures CoordinatorOk(Next(H, FinishOwn, w)) && Unanimous(Next(H, FinishOwn, w))
    ensures ReignOk(w.reign, Idle)
  {
    var t := w.reign.lastTid;
    if w.phase.commit {
      assert t in w.coordinator.voted && w.coordinator.voted[t];
    }
  }

  lemma FinishOwnInv(H: Hasher, w: World)
    requires Inv(H, w) && Enabled(FinishOwn, w)
    ensures Inv(H, Next(H, FinishOwn, w))
  {
    var w' := Next(H, FinishOwn, w);
    FinishFaithful(H, w.reign.start, w.coordinator, w.phase.commit);
    FinishOwnCoordinator(H, w);
    SameMessages(H, w, w');
    assert ReplicasOk(H, w');
  }

  // ---- a vote arrives ----

  lemma DeliverVoteMessages(H: Hasher, w: World, m: Message)
    requires MessagesOk(H, w) && Enabled(DeliverVote(m), w)
    ensures MessagesOk(H, Next(H, DeliverVote(m), w))
  {
    var w' := Next(H, DeliverVote(m), w);
    assert MessageOk(H, w, m);
    forall m' | m' in w'.msgs ensures MessageOk(H, w', m') {
      assert MessageOk(H, w, m');
    }
  }

  lemma CountedOnce(w: World, sender: Id)
    requires ReignOk(w.reign, w.phase) && Voting(w.phase) && sender in w.replicas
    requires ReplicaOk(w.reign, sender, w.replicas[sender]) && w.reign.lastTid in w.replicas[sender].voted
    ensures sender in w.reign.members
  {
  }

  lemma DeliverVoteBallot(H: Hasher, w: World, m: Message)
    requires ReignOk(w.reign, w.phase) && BallotOk(w)
    requires Enabled(DeliverVote(m), w) && MessageOk(H, w, m) && ReplicaOk(w.reign, m.sender, w.replicas[m.sender])
    ensures BallotOk(Next(H, DeliverVote(m), w))
  {
    if Voting(w.phase) && m.tid == w.reign.lastTid {
      CountedOnce(w, m.sender);
      assert m.sender !in w.ballot.yes;
    }
  }

  lemma DeliverVoteInv(H: Hasher, w: World, m: Message)
    requires Inv(H, w) && Enabled(DeliverVote(m), w)
    ensures Inv(H, Next(H, DeliverVote(m), w))
  {
    var w' := Next(H, DeliverVote(m), w);
    DeliverVoteMessages(H, w, m);
    assert MessageOk(H, w, m) && ReplicaOk(w.reign, m.sender, w.replicas[m.sender]);
    DeliverVoteBallot(H, w, m);
    SameServers(H, w, w');
  }

  // ---- steps of one replica ----

  /** Votes that are cast stay cast. */
  lemma VotesKept(w: World, w': World, id: Id, n: Server)
    requires id in w.replicas && w' == w.(replicas := w.replicas[id := n], msgs := w'.msgs)
    requires w.replicas[id].voted.Keys <= n.voted.Keys
    requires forall t :: t in w.replicas[id].voted ==> n.voted[t] == w.replicas[id].voted[t]
    ensures CoordinatorOk(w) ==> CoordinatorOk(w')
    ensures BallotOk(w) ==> BallotOk(w')
    ensures Unanimous(w) ==> Unanimous(w')
  {
    forall ids: set<Id>, t: nat | AllVotedYes(w.replicas, ids, t) ensures AllVotedYes(w'.replicas, ids, t) {
    }
  }

  /** A replica may change as long as it stays in order and forgets no vote. */
  lemma OneReplica(H: Hasher, w: World, w': World, id: Id, n: Server)
    requires id in w.replicas && ReplicasOk(H, w) && Faithful(H, w.reign.start, n) && ReplicaOk(w.reign, id, n)
    requires w' == w.(replicas := w.replicas[id := n], msgs := w'.msgs)
    requires w.phase.Counted? ==> w.reign.lastTid !in n.voted
    ensures ReplicasOk(H, w') && w'.replicas.Keys == w.replicas.Keys
    ensures Unheard(w) ==> Unheard(w')
  {
  }

  // ---- a result arrives ----

  lemma DeliverResultMessages(H: Hasher, w: World, m: Message)
    requires MessagesOk(H, w) && Enabled(DeliverResult(m), w)
    ensures MessagesOk(H, Next(H, DeliverResult(m), w))
  {
    var w' := Next(H, DeliverResult(m), w);
    assert MessageOk(H, w, m);
    forall m' | m' in w'.msgs ensures MessageOk(H, w', m') {
      assert MessageOk(H, w, m');
      if m'.Propose? {
        assert FullLog(w.reign, w'.replicas[m'.to]) == FullLog(w.reign, w.replicas[m'.to]);
      }
    }
  }

  lemma DeliverResultReplica(H: Hasher, g: Reign, id: Id, n: Server, t: nat, commit: bool)
    requires Faithful(H, g.start, n) && ReplicaOk(g, id, n)
    requires n.pointer == Some(t) && t !in n.outcome && t in g.decided && g.decided[t] == commit
    ensures var n' := n.(hasResult := true, result := commit);
      Faithful(H, g.start, n') && ReplicaOk(g, id, n')
  {
    var n' := n.(hasResult := true, result := commit);
    assert Base(n') == Base(n) && FullLog(g, n') == FullLog(g, n);
  }

  lemma DeliverResultInv(H: Hasher, w: World, m: Message)
    requires Inv(H, w) && Enabled(DeliverResult(m), w)
    ensures Inv(H, Next(H, DeliverResult(m), w))
  {
    var w' := Next(H, DeliverResult(m), w);
    DeliverResultMessages(H, w, m);
    assert MessageOk(H, w, m);
    var n := w.replicas[m.to];
    if n.pointer == Some(m.tid) {
      DeliverResultReplica(H, w.reign, m.to, n, m.tid, m.commit);
      OneReplica(H, w, w', m.to, w'.replicas[m.to]);
      VotesKept(w, w', m.to, w'.replicas[m.to]);
    } else {
      SameServers(H, w, w');
    }
  }

  // ---- a replica receives the transaction, runs it and votes ----

  lemma NotYetDecidedYes(w: World, to: Id, t: nat)
    requires Unanimous(w) && t in w.reign.counted && to in w.reign.counted[t]
    requires to in w.replicas && t !in w.replicas[to].voted
    ensures t in w.reign.decided ==> !w.reign.decided[t]
  {
  }

  lemma RunReplica(g: Reign, id: Id, n: Server, n': Server, t: nat)
    requires ReplicaOk(g, id, n) && n.current.None? && t !in n.voted
    requires t in g.counted && id in g.counted[t] && t in g.changes
    requires t in g.decided ==> !g.decided[t]
    requires n'.current.Some? && n'.current.value.tid == t && n'.current.value.change == g.changes[t]
    requires n' == n.(tree := n'.tree, current := n'.current, pointer := Some(t),
                      voted := n.voted[t := n'.current.value.ran.prepared])
    ensures ReplicaOk(g, id, n') && FullLog(g, n') == FullLog(g, n)
  {
  }

  predicate RanAtReplica(w: World, w': World, m: Message, n: Server) {
    && m in w.msgs && m.Propose? && m.to in w.replicas
    && n == w.replicas[m.to].(tree := n.tree, current := n.current, pointer := Some(m.body.transactionId),
                              voted := n.voted)
    && n.current.Some? && FullLog(w.reign, n) == FullLog(w.reign, w.replicas[m.to])
    && n.voted == w.replicas[m.to].voted[m.body.transactionId := n.current.value.ran.prepared]
    && w' == w.(replicas := w.replicas[m.to := n],
                msgs := w.msgs - {m} + {Vote(m.to, m.body.transactionId, n.current.value.ran.prepared)})
  }

  lemma ProposeMessage(H: Hasher, w: World, w': World, m: Message, n: Server, m': Message)
    requires RanAtReplica(w, w', m, n) && MessageOk(H, w, m) && MessageOk(H, w, m') && m' != m
    requires ReplicaOk(w.reign, m.to, w.replicas[m.to]) && w.replicas[m.to].current.None?
    ensures MessageOk(H, w', m')
  {
    if m'.Propose? && m'.to == m.to {
      assert m'.body.transactionId != m.body.transactionId;
    }
  }

  lemma ProposeMessages(H: Hasher, w: World, w': World, m: Message, n: Server)
    requires RanAtReplica(w, w', m, n) && MessagesOk(H, w) && BallotOk(w)
    requires ReplicaOk(w.reign, m.to, w.replicas[m.to]) && w.replicas[m.to].current.None?
    ensures MessagesOk(H, w')
  {
    assert MessageOk(H, w, m);
    forall m' | m' in w'.msgs ensures MessageOk(H, w', m') {
      if m' in w.msgs && m' != m {
        ProposeMessage(H, w, w', m, n, m');
      } else if Voting(w.phase) && m.body.transactionId == w.reign.lastTid {
        assert m.to !in w.ballot.yes;
      }
    }
  }

  /** The replica after it ran the proposed transaction. */
  lemma ProposedReplica(H: Hasher, w: World, m: Message)
    requires ReplicasOk(H, w) && Unanimous(w) && Enabled(DeliverPropose(m), w) && MessageOk(H, w, m)
    ensures var n, n' := w.replicas[m.to], Next(H, DeliverPropose(m), w).replicas[m.to];
      && n' == RunServer(H, n, w.reign.changes[m.body.transactionId], m.body.transactionId)
      && Faithful(H, w.reign.start, n') && ReplicaOk(w.reign, m.to, n') && FullLog(w.reign, n') == FullLog(w.reign, n)
  {
    var g, n, t := w.reign, w.replicas[m.to], m.body.transactionId;
    assert ReplicaOk(g, m.to, n) && Faithful(H, g.start, n);
    SameChange(g.changes[t], t);
    assert FullLog(g, n) == n.log;
    RunFaithful(H, g.start, n, g.changes[t], t);
    NotYetDecidedYes(w, m.to, t);
    RunReplica(g, m.to, n, RunServer(H, n, g.changes[t], t), t);
  }

  /** The step in terms of the replica's new value. */
  lemma ProposedWorld(H: Hasher, w: World, m: Message)
    requires ReplicasOk(H, w) && Unanimous(w) && Unheard(w) && Enabled(DeliverPropose(m), w) && MessageOk(H, w, m)
    ensures var w' := Next(H, DeliverPropose(m), w);
      && RanAtReplica(w, w', m, w'.replicas[m.to])
      && (w.phase.Counted? ==> w.reign.lastTid !in w'.replicas[m.to].voted)
  {
    ProposedReplica(H, w, m);
  }

  lemma ProposeParts(H: Hasher, w: World, m: Message)
    requires ReplicasOk(H, w) && CoordinatorOk(w) && BallotOk(w) && Unanimous(w) && Unheard(w) && MessagesOk(H, w)
    requires Enabled(DeliverPropose(m), w)
    ensures var w' := Next(H, DeliverPropose(m), w);
      && ReplicasOk(H, w') && w'.replicas.Keys == w.replicas.Keys
      && CoordinatorOk(w') && BallotOk(w') && Unanimous(w') && Unheard(w') && MessagesOk(H, w')
  {
    assert MessageOk(H, w, m);
    ProposedReplica(H, w, m);
    ProposedWorld(H, w, m);
    assert ReplicaOk(w.reign, m.to, w.replicas[m.to]);
    var w' := Next(H, DeliverPropose(m), w);
    OneReplica(H, w, w', m.to, w'.replicas[m.to]);
    VotesKept(w, w', m.to, w'.replicas[m.to]);
    ProposeMessages(H, w, w', m, w'.replicas[m.to]);
  }

  lemma DeliverProposeInv(H: Hasher, w: World, m: Message)
    requires Inv(H, w) && Enabled(DeliverPropose(m), w)
    ensures Inv(H, Next(H, DeliverPropose(m), w))
  {
    ProposeParts(H, w, m);
  }

  // ---- a replica that has the result ends the transaction ----

  lemma FinishReplicaOk(g: Reign, id: Id, n: Server)
    requires ReplicaOk(g, id, n) && n.current.Some? && n.hasResult
    requires Applies(n.current.value, n.result) <==> n.result && n.current.value.ran.prepared
    requires n.result ==> n.current.value.ran.prepared
    ensures ReplicaOk(g, id, FinishServer(n, n.result)) && FullLog(g, FinishServer(n, n.result)) == FullLog(g, n)
  {
  }

  lemma FinishMessage(H: Hasher, w: World, id: Id, m: Message)
    requires Enabled(FinishReplica(id), w) && ReplicaOk(w.reign, id, w.replicas[id])
    requires FullLog(w.reign, FinishServer(w.replicas[id], w.replicas[id].result)) == FullLog(w.reign, w.replicas[id])
    requires MessageOk(H, w, m)
    ensures MessageOk(H, Next(H, FinishReplica(id), w), m)
  {
  }

  lemma FinishMessages(H: Hasher, w: World, id: Id)
    requires Enabled(FinishReplica(id), w) && ReplicaOk(w.reign, id, w.replicas[id]) && MessagesOk(H, w)
    requires FullLog(w.reign, FinishServer(w.replicas[id], w.replicas[id].result)) == FullLog(w.reign, w.replicas[id])
    ensures MessagesOk(H, Next(H, FinishReplica(id), w))
  {
    forall m | m in w.msgs ensures MessageOk(H, Next(H, FinishReplica(id), w), m) {
      FinishMessage(H, w, id, m);
    }
  }

  lemma FinishReplicaInv(H: Hasher, w: World, id: Id)
    requires Inv(H, w) && Enabled(FinishReplica(id), w)
    ensures Inv(H, Next(H, FinishReplica(id), w))
  {
    var w', g, n := Next(H, FinishReplica(id), w), w.reign, w.replicas[id];
    assert Faithful(H, g.start, n) && ReplicaOk(g, id, n);
    var t := n.current.value.tid;
    FinishFaithful(H, g.start, n, n.result);
    if n.result {
      assert g.decided[t] && id in g.counted[t];
      assert AllVotedYes(w.replicas, g.counted[t], t);
    }
    FinishReplicaOk(g, id, n);
    OneReplica(H, w, w', id, w'.replicas[id]);
    VotesKept(w, w', id, w'.replicas[id]);
    FinishMessages(H, w, id);
  }

  // ---- every step, every run ----

  lemma StepInv(H: Hasher, w: World, st: Step)
    requires Inv(H, w) && Enabled(st, w)
    ensures Inv(H, Next(H, st, w))
  {
    match st
    case Start(c) => StartInv(H, w, c);
    case Send => SendInv(H, w);
    case RunOwn => RunOwnInv(H, w);
    case Decide => DecideInv(H, w);
    case FinishOwn => FinishOwnInv(H, w);
    case DeliverVote(m) => DeliverVoteInv(H, w, m);
    case DeliverPropose(m) => DeliverProposeInv(H, w, m);
    case DeliverResult(m) => DeliverResultInv(H, w, m);
    case FinishReplica(id) => FinishReplicaInv(H, w, id);
    case MarkDead(id) => MarkDeadInv(H, w, id);
    case Lose(m) => LoseInv(H, w, m);
  }

  lemma {:induction false} RunInv(H: Hasher, w: World, steps: seq<Step>, end: World)
    requires Inv(H, w) && Reaches(H, w, steps, end)
    ensures Inv(H, end)
    decreases steps
  {
    if steps != [] {
      StepInv(H, w, steps[0]);
      RunInv(H, Next(H, steps[0], w), steps[1..], end);
    }
  }
}
