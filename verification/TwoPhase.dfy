/** One coordinator's reign: the coordinator, its replicas and the messages between them.
    Each step is one section the code runs under a lock, or one message. Messages may be delayed, reordered
    and lost, but not duplicated. */
module TwoPhase {
  import opened Options
  import opened Disk
  import opened Records
  import opened Changes
  import opened Coupling
  import opened History
  import opened Wire
  import Recovery

  type Id = int

  datatype Entry = Entry(tid: nat, change: Change)

  /** The active transaction of a node. `base` is the disk before it began. */
  datatype Active = Active(change: Change, tid: nat, ran: Ran, base: Tree)

  /** A server's copy of the database and the transaction part of its manager. `counter` is the manager's
      `lastTid`, read from the state at start-up; while the server coordinates, `Reign.lastTid` stands for it.
      `pointer` is the tid of the transaction object the manager points to, which outlives the transaction.
      The last three fields record history: the log of committed transactions, the votes cast, and the
      outcomes. */
  datatype Server = Server(
    state: State,
    tree: Tree,
    counter: nat,
    current: Option<Active>,
    pointer: Option<nat>,
    hasResult: bool,
    result: bool,
    log: seq<Entry>,
    voted: map<nat, bool>,
    outcome: map<nat, bool>)

  datatype Message =
    | Propose(to: Id, body: TransactionMsg)
    | Vote(sender: Id, tid: nat, yes: bool)
    | Result(to: Id, tid: nat, commit: bool)

  /** Where `doTransaction` stands. */
  datatype Phase = Idle | Counted | Sent | Waiting | Decided(commit: bool)

  /** What has happened in the reign so far: the proposed changes, who was counted for each, the decisions, the
      decided log, and the replicas counted last. */
  datatype Reign = Reign(
    start: Local,
    lastTid: nat,
    changes: map<nat, Change>,
    counted: map<nat, set<Id>>,
    decided: map<nat, bool>,
    log: seq<Entry>,
    members: set<Id>)

  /** The vote counter. -1 means that somebody voted no. `yes` records the replicas whose yes was counted. */
  datatype Ballot = Ballot(votes: int, total: int, yes: set<Id>, own: bool)

  datatype World = World(
    coordinator: Server,
    phase: Phase,
    ballot: Ballot,
    replicas: map<Id, Server>,
    alive: set<Id>,
    msgs: set<Message>,
    reign: Reign)

  // ---- one node ----

  /** Run a transaction on a node: the manager points to it, its run touches the disk, the vote is its flag. */
  function RunServer(H: Hasher, n: Server, c: Change, tid: nat): Server {
    var ran := RunChange(H, c, tid, n.state, n.tree);
    n.(tree := Run(n.tree, ran.ops),
       current := Some(Active(c, tid, ran, n.tree)),
       pointer := Some(tid),
       voted := n.voted[tid := ran.prepared])
  }

  /** Whether a node that is told `commit` really commits: `commit` does nothing after a rollback. */
  predicate Applies(a: Active, commit: bool) {
    commit && a.ran.prepared && !a.ran.rolledBack
  }

  function FinishServer(n: Server, commit: bool): Server
    requires n.current.Some?
  {
    var a := n.current.value;
    var did := Applies(a, commit);
    n.(state := if did then a.ran.work else n.state,
       tree := Run(n.tree, FinishOps(a.change, a.ran, commit, n.tree)),
       current := None,
       hasResult := false,
       log := if did then n.log + [Entry(a.tid, a.change)] else n.log,
       outcome := n.outcome[a.tid := did])
  }

  // ---- the vote counter ----

  function AddVote(votes: int, yes: bool): int {
    if !yes then -1 else if votes == -1 then -1 else votes + 1
  }

  predicate VotingOver(b: Ballot) {
    !(b.votes < b.total && b.votes != -1)
  }

  // ---- steps ----

  datatype Step =
    | Start(change: Change)
    | Send
    | RunOwn
    | Decide
    | FinishOwn
    | DeliverVote(msg: Message)
    | DeliverPropose(msg: Message)
    | DeliverResult(msg: Message)
    | FinishReplica(id: Id)
    | MarkDead(id: Id)
    | Lose(msg: Message)

  predicate Enabled(st: Step, w: World) {
    match st
    case Start(c) => w.phase.Idle? && Admissible(c, w.coordinator.state)
    case Send => w.phase.Counted?
    case RunOwn => w.phase.Sent? && w.reign.lastTid in w.reign.changes && w.coordinator.current.None?
    case Decide => w.phase.Waiting? && VotingOver(w.ballot) && w.reign.lastTid in w.reign.changes
    case FinishOwn => w.phase.Decided? && w.coordinator.current.Some?
    case DeliverVote(m) => m in w.msgs && m.Vote?
    case DeliverPropose(m) =>
      // a busy replica keeps its write lock, so the message waits
      m in w.msgs && m.Propose? && m.to in w.replicas && w.replicas[m.to].current.None?
    case DeliverResult(m) => m in w.msgs && m.Result? && m.to in w.replicas
    case FinishReplica(id) => id in w.replicas && w.replicas[id].current.Some? && w.replicas[id].hasResult
    case MarkDead(id) => true
    case Lose(m) => true
  }

  function Next(H: Hasher, st: Step, w: World): World
    requires Enabled(st, w)
  {
    var g := w.reign;
    match st
    case Start(c) =>
      var tid := g.lastTid + 1;
      w.(phase := Counted,
         ballot := Ballot(0, |w.alive| + 1, {}, false),
         reign := g.(lastTid := tid, changes := g.changes[tid := c],
                     counted := g.counted[tid := w.alive], members := w.alive))
    case Send =>
      var body := if g.lastTid in g.changes then Serialize(g.changes[g.lastTid], g.lastTid)
                  else Empty(CREATE_USER, g.lastTid);
      w.(phase := Sent, msgs := w.msgs + set r | r in w.alive :: Propose(r, body))
    case RunOwn =>
      var n := RunServer(H, w.coordinator, g.changes[g.lastTid], g.lastTid);
      var yes := n.current.value.ran.prepared;
      w.(phase := Waiting, coordinator := n,
         ballot := w.ballot.(votes := AddVote(w.ballot.votes, yes), own := yes))
    case Decide =>
      var tid := g.lastTid;
      var commit := w.ballot.votes == w.ballot.total;
      w.(phase := Decided(commit),
         msgs := w.msgs + set r | r in w.alive :: Result(r, tid, commit),
         reign := g.(decided := g.decided[tid := commit],
                     log := if commit then g.log + [Entry(tid, g.changes[tid])] else g.log))
    case FinishOwn => w.(phase := Idle, coordinator := FinishServer(w.coordinator, w.phase.commit))
    case DeliverVote(m) =>
      var w := w.(msgs := w.msgs - {m});
      if m.tid != g.lastTid then w
      else
        w.(ballot := w.ballot.(votes := AddVote(w.ballot.votes, m.yes),
                               yes := if m.yes then w.ballot.yes + {m.sender} else w.ballot.yes))
    case DeliverPropose(m) =>
      var tid := m.body.transactionId;
      var n := RunServer(H, w.replicas[m.to], Deserialize(m.body), tid);
      w.(msgs := w.msgs - {m} + {Vote(m.to, tid, n.current.value.ran.prepared)},
         replicas := w.replicas[m.to := n])
    case DeliverResult(m) =>
      var w := w.(msgs := w.msgs - {m});
      var n := w.replicas[m.to];
      if n.pointer != Some(m.tid) then w
      else w.(replicas := w.replicas[m.to := n.(hasResult := true, result := m.commit)])
    case FinishReplica(id) =>
      w.(replicas := w.replicas[id := FinishServer(w.replicas[id], w.replicas[id].result)])
    case MarkDead(id) => w.(alive := w.alive - {id})
    case Lose(m) => w.(msgs := w.msgs - {m})
  }

  /** The start of a reign: nothing active, no messages, every node with the same state and the same visible disk. */
  ghost predicate Initial(H: Hasher, w: World) {
    && w.phase.Idle? && w.msgs == {} && w.ballot == Ballot(0, 0, {}, false)
    && w.alive <= w.replicas.Keys
    && w.reign == Reign(w.reign.start, w.reign.lastTid, map[], map[], map[], [], w.alive)
    && FreshServer(H, w.reign.start, w.coordinator)
    && (forall r :: r in w.replicas ==> FreshServer(H, w.reign.start, w.replicas[r]))
  }

  ghost predicate FreshServer(H: Hasher, start: Local, n: Server) {
    && n.state == start.state
    && Recovery.Visible(n.tree) == Recovery.Visible(start.tree)
    && Coupled(H, n.state, n.tree)
    && n.current.None? && !n.hasResult && n.pointer.None?
    && n.log == [] && n.voted == map[] && n.outcome == map[]
  }

  /** The worlds a reign can reach. */
  ghost predicate Reaches(H: Hasher, w: World, steps: seq<Step>, end: World)
    decreases steps
  {
    if steps == [] then end == w
    else Enabled(steps[0], w) && Reaches(H, Next(H, steps[0], w), steps[1..], end)
  }
}
