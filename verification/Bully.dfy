/** The election of a coordinator among servers that may stop for good. One step is what a server does between two
    waits, the delivery of one message, a stop, or a loss. Any live server may start an election at any time, so
    elections run concurrently in every way. Server ids are natural numbers; -1 is nobody. */
module Bully {
  import opened Options

  const NOBODY := -1

  datatype Note =
    | ElectionNote(sender: nat, to: nat)
    | AnswerNote(sender: nat, to: nat)
    | VictoryNote(sender: nat, to: nat)

  /** The election a server takes part in: the highest id that answered, the victory it heard of, and the wait it
      is in. */
  datatype Stage = AwaitingReply | AwaitingVictory
  datatype Contest = Contest(highest: int, victorious: int, stage: Stage)

  datatype Node = Node(coordinator: int, contest: Option<Contest>)

  /** A victory, with the servers alive at that moment. */
  datatype Win = Win(id: nat, alive: set<nat>)

  /** Notes under way are a bag: equal notes may be under way at once. */
  datatype World = World(nodes: map<nat, Node>, alive: set<nat>, notes: multiset<Note>, wins: seq<Win>)

  // ---- one server ----

  function Higher(p: nat, ids: set<nat>): set<nat> {
    set q | q in ids && q > p
  }

  function Elections(p: nat, ids: set<nat>): set<Note> {
    set q | q in Higher(p, ids) :: ElectionNote(p, q)
  }

  function Victories(p: nat, ids: set<nat>): set<Note> {
    set q | q in ids && q != p :: VictoryNote(p, q)
  }

  function HearAnswer(n: Node, from: nat): Node {
    if n.contest.Some? && from > n.contest.value.highest
    then n.(contest := Some(n.contest.value.(highest := from))) else n
  }

  /** Inside an election only the first victory counts; outside, any sender becomes the coordinator. */
  function HearVictory(n: Node, from: nat): Node {
    if n.contest.None? then n.(coordinator := from)
    else if n.contest.value.victorious == NOBODY
    then n.(contest := Some(n.contest.value.(victorious := from)))
    else n
  }

  predicate Asked(n: Node) {
    n.contest.Some?
  }

  /** What a server does between two waits: its new state, what it sends, and whether it declared itself winner. */
  datatype Action = Action(node: Node, sent: set<Note>, won: bool)

  function WinAction(p: nat, ids: set<nat>): Action {
    Action(Node(p, None), Victories(p, ids), true)
  }

  /** One round: ask every higher server, or win when there is none. */
  function RoundAction(p: nat, ids: set<nat>, n: Node): Action {
    if Higher(p, ids) == {} then WinAction(p, ids)
    else Action(n.(contest := Some(Contest(p, NOBODY, AwaitingReply))), Elections(p, ids), false)
  }

  /** After the reply wait: win, or wait for the victory of a higher server. */
  function ReplyAction(p: nat, ids: set<nat>, n: Node): Action
    requires Asked(n)
  {
    if n.contest.value.highest == p then WinAction(p, ids)
    else Action(n.(contest := Some(n.contest.value.(stage := AwaitingVictory))), {}, false)
  }

  /** After the victory wait: follow the winner, or start over. */
  function VictoryAction(p: nat, ids: set<nat>, n: Node): Action
    requires Asked(n)
  {
    if n.contest.value.victorious == NOBODY then RoundAction(p, ids, n)
    else Action(Node(n.contest.value.victorious, None), {}, false)
  }

  function Hear(n: Node, m: Note): Node {
    match m
    case ElectionNote(_, _) => n
    case AnswerNote(from, _) => HearAnswer(n, from)
    case VictoryNote(from, _) => HearVictory(n, from)
  }

  // ---- steps ----

  datatype Step =
    | Begin(p: nat)
    | EndReplyWait(p: nat)
    | EndVictoryWait(p: nat)
    | Deliver(note: Note)
    | Stop(p: nat)
    | Lose(note: Note)

  function Act(w: World, p: nat, a: Action): World {
    World(w.nodes[p := a.node], w.alive, w.notes + multiset(a.sent),
          if a.won then w.wins + [Win(p, w.alive)] else w.wins)
  }

  function Became(w: World, p: nat): World {
    Act(w, p, WinAction(p, w.nodes.Keys))
  }

  predicate At(w: World, p: nat, stage: Stage) {
    p in w.nodes && p in w.alive && w.nodes[p].contest.Some? && w.nodes[p].contest.value.stage == stage
  }

  /** What the timeout is meant to cover: every live server that was asked has answered, and the answer is here. */
  ghost predicate Settled(w: World, p: nat) {
    forall q :: q in w.alive && q > p ==> ElectionNote(p, q) !in w.notes && AnswerNote(q, p) !in w.notes
  }

  /** A reply wait ends early once a higher server has answered, and otherwise at the timeout. */
  ghost predicate Enabled(st: Step, w: World) {
    match st
    case Begin(p) => p in w.nodes && p in w.alive && w.nodes[p].contest.None?
    case EndReplyWait(p) => At(w, p, AwaitingReply) && (w.nodes[p].contest.value.highest > p || Settled(w, p))
    case EndVictoryWait(p) => At(w, p, AwaitingVictory)
    case Deliver(m) => m in w.notes && m.to in w.nodes && m.to in w.alive
    case Stop(p) => true
    // an announcement can get lost, and so can what a stopped server sent or should receive
    case Lose(m) => m.VictoryNote? || m.sender !in w.alive || m.to !in w.alive
  }

  ghost function Next(st: Step, w: World): World
    requires Enabled(st, w)
  {
    match st
    case Begin(p) => Act(w, p, RoundAction(p, w.nodes.Keys, w.nodes[p]))
    case EndReplyWait(p) => Act(w, p, ReplyAction(p, w.nodes.Keys, w.nodes[p]))
    case EndVictoryWait(p) => Act(w, p, VictoryAction(p, w.nodes.Keys, w.nodes[p]))
    case Deliver(m) =>
      w.(nodes := w.nodes[m.to := Hear(w.nodes[m.to], m)],
         notes := w.notes - multiset{m} +
                  if m.ElectionNote? then multiset{AnswerNote(m.to, m.sender)} else multiset{})
    case Stop(p) => w.(alive := w.alive - {p})
    case Lose(m) => w.(notes := w.notes - multiset{m})
  }

  ghost predicate Initial(w: World) {
    && w.alive == w.nodes.Keys && w.notes == multiset{} && w.wins == []
    && forall p :: p in w.nodes ==> w.nodes[p] == Node(NOBODY, None)
  }

  ghost predicate Reaches(w: World, steps: seq<Step>, end: World)
    decreases steps
  {
    if steps == [] then end == w
    else Enabled(steps[0], w) && Reaches(Next(steps[0], w), steps[1..], end)
  }

  // ---- the invariant ----

  predicate Won(wins: seq<Win>, id: int) {
    exists i :: 0 <= i < |wins| && wins[i].id == id
  }

  /** A server that waits for replies has asked every live higher server, and the question, the answer, or the
      record of the answer is still somewhere. */
  ghost predicate Heard(w: World, p: nat) {
    At(w, p, AwaitingReply) ==>
      && w.nodes[p].contest.value.highest >= p
      && forall q :: q in w.alive && q > p ==>
           ElectionNote(p, q) in w.notes || AnswerNote(q, p) in w.notes || w.nodes[p].contest.value.highest >= q
  }

  /** Whom a server follows, or has heard of, has won. */
  ghost predicate Follows(w: World, p: nat) {
    p in w.nodes ==>
      && (w.nodes[p].coordinator == NOBODY || Won(w.wins, w.nodes[p].coordinator))
      && (w.nodes[p].contest.Some? && w.nodes[p].contest.value.victorious != NOBODY ==>
            Won(w.wins, w.nodes[p].contest.value.victorious))
  }

  /** Each winner was the highest live server when it won, and no live server is above it since. */
  ghost predicate WinsOk(w: World) {
    && (forall i :: 0 <= i < |w.wins| ==> w.wins[i].id in w.wins[i].alive && Above(w.wins[i].id, w.wins[i].alive))
    && (forall i :: 0 <= i < |w.wins| ==> w.wins[i].id in w.nodes && Above(w.wins[i].id, w.alive))
    && (forall i, j :: 0 <= i < j < |w.wins| ==> w.wins[j].id <= w.wins[i].id)
  }

  ghost predicate Above(id: nat, ids: set<nat>) {
    forall q :: q in ids ==> q <= id
  }

  ghost predicate NoteOk(w: World, m: Note) {
    m.VictoryNote? ==> Won(w.wins, m.sender)
  }

  ghost predicate Inv(w: World) {
    && w.alive <= w.nodes.Keys
    && (forall p :: p in w.alive ==> Heard(w, p))
    && (forall p :: p in w.nodes ==> Follows(w, p))
    && (forall m :: m in w.notes ==> NoteOk(w, m))
    && WinsOk(w)
  }

  lemma WonMore(wins: seq<Win>, more: Win, id: int)
    ensures Won(wins + [more], id) <==> Won(wins, id) || more.id == id
  {
    assert (wins + [more])[|wins|] == more;
    if Won(wins, id) {
      var i :| 0 <= i < |wins| && wins[i].id == id;
      assert (wins + [more])[i] == wins[i];
    }
  }

  lemma BecameInv(w: World, p: nat)
    requires Inv(w) && p in w.alive && Above(p, w.alive)
    ensures Inv(Became(w, p))
  {
    var w' := Became(w, p);
    WonMore(w.wins, Win(p, w.alive), p);
    forall q | q in w.alive ensures Heard(w', q) {
      assert Heard(w, q);
    }
    forall q | q in w'.nodes ensures Follows(w', q) {
      assert Follows(w, q);
      WonMore(w.wins, Win(p, w.alive), w.nodes[q].coordinator);
      if w.nodes[q].contest.Some? {
        WonMore(w.wins, Win(p, w.alive), w.nodes[q].contest.value.victorious);
      }
    }
    forall m | m in w'.notes ensures NoteOk(w', m) {
      if m in w.notes {
        assert NoteOk(w, m);
        WonMore(w.wins, Win(p, w.alive), m.sender);
      }
    }
  }

  lemma RoundInv(w: World, p: nat)
    requires Inv(w) && p in w.alive
    ensures Inv(Act(w, p, RoundAction(p, w.nodes.Keys, w.nodes[p])))
  {
    if Higher(p, w.nodes.Keys) == {} {
      assert forall q :: q in w.alive && q > p ==> q in Higher(p, w.nodes.Keys);
      BecameInv(w, p);
    } else {
      var w' := Act(w, p, RoundAction(p, w.nodes.Keys, w.nodes[p]));
      forall q | q in w'.alive ensures Heard(w', q) {
        if q != p { assert Heard(w, q); }
      }
      forall q | q in w'.nodes ensures Follows(w', q) {
        assert Follows(w, q);
      }
    }
  }

  lemma ReplyInv(w: World, p: nat)
    requires Inv(w) && Enabled(EndReplyWait(p), w)
    ensures Inv(Next(EndReplyWait(p), w))
  {
    assert Heard(w, p);
    if w.nodes[p].contest.value.highest == p {
      assert Above(p, w.alive);
      BecameInv(w, p);
    } else {
      var w' := Next(EndReplyWait(p), w);
      forall q | q in w'.alive ensures Heard(w', q) {
        assert Heard(w, q);
      }
      forall q | q in w'.nodes ensures Follows(w', q) {
        assert Follows(w, q);
      }
    }
  }

  lemma VictoryInv(w: World, p: nat)
    requires Inv(w) && Enabled(EndVictoryWait(p), w)
    ensures Inv(Next(EndVictoryWait(p), w))
  {
    assert Follows(w, p);
    if w.nodes[p].contest.value.victorious == NOBODY {
      RoundInv(w, p);
    } else {
      var w' := Next(EndVictoryWait(p), w);
      forall q | q in w'.alive ensures Heard(w', q) {
        assert Heard(w, q);
      }
      forall q | q in w'.nodes ensures Follows(w', q) {
        assert Follows(w, q);
      }
    }
  }

  lemma DeliverInv(w: World, m: Note)
    requires Inv(w) && Enabled(Deliver(m), w)
    ensures Inv(Next(Deliver(m), w))
  {
    var w' := Next(Deliver(m), w);
    assert NoteOk(w, m);
    forall q | q in w'.alive ensures Heard(w', q) {
      assert Heard(w, q);
    }
    forall q | q in w'.nodes ensures Follows(w', q) {
      assert Follows(w, q);
    }
    forall n | n in w'.notes ensures NoteOk(w', n) {
      if n in w.notes { assert NoteOk(w, n); }
    }
  }

  lemma QuietInv(w: World, st: Step)
    requires Inv(w) && Enabled(st, w) && (st.Stop? || st.Lose?)
    ensures Inv(Next(st, w))
  {
    var w' := Next(st, w);
    forall q | q in w'.alive ensures Heard(w', q) {
      assert Heard(w, q);
    }
    forall q | q in w'.nodes ensures Follows(w', q) {
      assert Follows(w, q);
    }
    forall n | n in w'.notes ensures NoteOk(w', n) {
      assert NoteOk(w, n);
    }
  }

  lemma StepInv(w: World, st: Step)
    requires Inv(w) && Enabled(st, w)
    ensures Inv(Next(st, w)) && Next(st, w).nodes.Keys == w.nodes.Keys
  {
    match st
    case Begin(p) => RoundInv(w, p);
    case EndReplyWait(p) => ReplyInv(w, p);
    case EndVictoryWait(p) => VictoryInv(w, p);
    case Deliver(m) => DeliverInv(w, m);
    case Stop(p) => QuietInv(w, st);
    case Lose(m) => QuietInv(w, st);
  }

  lemma {:induction false} RunInv(w: World, steps: seq<Step>, end: World)
    requires Inv(w) && Reaches(w, steps, end)
    ensures Inv(end) && end.nodes.Keys == w.nodes.Keys
    decreases steps
  {
    if steps != [] {
      StepInv(w, steps[0]);
      RunInv(Next(steps[0], w), steps[1..], end);
    }
  }

  // ---- what every run guarantees ----

  predicate IsCoordinator(w: World, p: nat) {
    p in w.nodes && w.nodes[p].coordinator == p
  }

  /** Two live servers never both consider themselves coordinator. */
  lemma SingleCoordinator(w: World, steps: seq<Step>, end: World, p: nat, q: nat)
    requires Initial(w) && Reaches(w, steps, end)
    requires p in end.alive && q in end.alive && IsCoordinator(end, p) && IsCoordinator(end, q)
    ensures p == q
  {
    RunInv(w, steps, end);
    assert Follows(end, p) && Follows(end, q);
  }

  /** Whoever wins is the highest live server at that moment, and later winners are never higher. */
  lemma WinnersDescend(w: World, steps: seq<Step>, end: World, i: nat, j: nat)
    requires Initial(w) && Reaches(w, steps, end) && i <= j < |end.wins|
    ensures var a, b := end.wins[i], end.wins[j];
      && a.id in a.alive && (forall q :: q in a.alive ==> q <= a.id)
      && b.id <= a.id
  {
    RunInv(w, steps, end);
    assert Above(end.wins[i].id, end.wins[i].alive);
  }

  /** A server that follows a live one follows the highest live one; any two that do follow the same. */
  lemma FollowedIsHighest(w: World, steps: seq<Step>, end: World, p: nat, q: nat)
    requires Initial(w) && Reaches(w, steps, end) && p in end.nodes && q in end.nodes
    requires end.nodes[p].coordinator in end.alive && end.nodes[q].coordinator in end.alive
    ensures end.nodes[p].coordinator == end.nodes[q].coordinator
    ensures forall r :: r in end.alive ==> r <= end.nodes[p].coordinator
  {
    RunInv(w, steps, end);
    assert Follows(end, p) && Follows(end, q);
    var i :| 0 <= i < |end.wins| && end.wins[i].id == end.nodes[p].coordinator;
    var j :| 0 <= j < |end.wins| && end.wins[j].id == end.nodes[q].coordinator;
    assert Above(end.wins[i].id, end.alive) && Above(end.wins[j].id, end.alive);
  }

  // ---- when a victory points to the right server ----

  /** The server follows a live one, the highest of them. */
  predicate FollowsHighest(w: World, p: nat) {
    p in w.nodes && w.nodes[p].coordinator in w.alive && forall r :: r in w.alive ==> r <= w.nodes[p].coordinator
  }

  lemma WonIsHighest(w: World, id: int)
    requires Inv(w) && Won(w.wins, id)
    ensures id in w.alive ==> forall r :: r in w.alive ==> r <= id
  {
    var i :| 0 <= i < |w.wins| && w.wins[i].id == id;
    assert Above(w.wins[i].id, w.alive);
  }

  /** Outside an election a victory announcement points its receiver to the highest live server exactly when the sender
      is still alive on delivery. */
  lemma AnnouncementRightIffAlive(w0: World, steps: seq<Step>, w: World, m: Note)
    requires Initial(w0) && Reaches(w0, steps, w) && Enabled(Deliver(m), w)
    requires m.VictoryNote? && w.nodes[m.to].contest.None?
    ensures FollowsHighest(Next(Deliver(m), w), m.to) <==> m.sender in w.alive
  {
    RunInv(w0, steps, w);
    assert NoteOk(w, m);
    WonIsHighest(w, m.sender);
  }

  /** Inside an election the first announcement is remembered; it names the highest live server exactly when its sender
      is still alive. */
  lemma RememberedRightIffAlive(w0: World, steps: seq<Step>, w: World, m: Note)
    requires Initial(w0) && Reaches(w0, steps, w) && Enabled(Deliver(m), w) && m.VictoryNote?
    requires w.nodes[m.to].contest.Some? && w.nodes[m.to].contest.value.victorious == NOBODY
    ensures var w' := Next(Deliver(m), w);
      && w'.nodes[m.to].coordinator == w.nodes[m.to].coordinator && w'.nodes[m.to].contest.Some?
      && var v := w'.nodes[m.to].contest.value.victorious;
         v in w'.alive && (forall r :: r in w'.alive ==> r <= v) <==> m.sender in w.alive
  {
    RunInv(w0, steps, w);
    assert NoteOk(w, m);
    WonIsHighest(w, m.sender);
  }

  /** And a server that ends its victory wait with a remembered winner follows the highest live server exactly when that
      winner is alive then. */
  lemma WaitEndsRightIffAlive(w0: World, steps: seq<Step>, w: World, p: nat)
    requires Initial(w0) && Reaches(w0, steps, w) && Enabled(EndVictoryWait(p), w)
    requires w.nodes[p].contest.value.victorious != NOBODY
    ensures FollowsHighest(Next(EndVictoryWait(p), w), p) <==> w.nodes[p].contest.value.victorious in w.alive
  {
    RunInv(w0, steps, w);
    assert Follows(w, p);
    WonIsHighest(w, w.nodes[p].contest.value.victorious);
  }

  /** While nobody has stopped, everybody follows nobody or the highest server, and no other victory is announced. */
  lemma HighestUnlessStopped(w: World, steps: seq<Step>, end: World, p: nat)
    requires Initial(w) && Reaches(w, steps, end) && end.alive == end.nodes.Keys && p in end.nodes
    ensures end.nodes[p].coordinator == NOBODY ||
            (end.nodes[p].coordinator in end.nodes.Keys && forall q :: q in end.nodes ==> q <= end.nodes[p].coordinator)
    ensures forall m :: m in end.notes && m.VictoryNote? ==> Above(m.sender, end.nodes.Keys)
  {
    RunInv(w, steps, end);
    assert Follows(end, p);
    forall m | m in end.notes && m.VictoryNote? ensures Above(m.sender, end.nodes.Keys) {
      assert NoteOk(end, m);
    }
  }

  // ---- where the guarantees end ----

  function Fresh(ids: set<nat>): World {
    World(map p | p in ids :: Node(NOBODY, None), ids, multiset{}, [])
  }

  /** The timeout must cover the answers: a server that stops waiting while its question is under way to a live higher
      server wins beside it. */
  lemma LateAnswer()
    ensures var w0 := Fresh({1, 2});
      && Initial(w0) && Enabled(Begin(1), w0)
      && var w1 := Next(Begin(1), w0);
         && At(w1, 1, AwaitingReply) && w1.nodes[1].contest.value.highest == 1 && !Settled(w1, 1)
         && var w2 := Became(w1, 1);
            && Enabled(Begin(2), w2)
            && var w3 := Next(Begin(2), w2);
               1 in w3.alive && 2 in w3.alive && IsCoordinator(w3, 1) && IsCoordinator(w3, 2)
  {
    var w0 := Fresh({1, 2});
    assert Higher(2, {1, 2}) == {};
    assert 2 in Higher(1, {1, 2});
    assert ElectionNote(1, 2) in Elections(1, {1, 2});
    assert w0.nodes.Keys == {1, 2};
    var w1 := Next(Begin(1), w0);
    assert w1.nodes.Keys == {1, 2};
    assert Became(w1, 1).nodes.Keys == {1, 2};
  }

  lemma {:induction false} ReachMore(w: World, steps: seq<Step>, middle: World, st: Step)
    requires Reaches(w, steps, middle) && Enabled(st, middle)
    ensures Reaches(w, steps + [st], Next(st, middle))
    decreases steps
  {
    if steps == [] {
      assert Reaches(Next(st, middle), [st][1..], Next(st, middle));
    } else {
      assert (steps + [st])[1..] == steps[1..] + [st];
      ReachMore(Next(steps[0], w), steps[1..], middle, st);
    }
  }

  /** Server 3 wins, stops before its announcements arrive, and server 2 wins. */
  lemma HighestStops() returns (steps: seq<Step>, w: World)
    ensures Reaches(Fresh({1, 2, 3}), steps, w)
    ensures w.alive == {1, 2} && w.nodes.Keys == {1, 2, 3} && w.nodes[1] == Node(NOBODY, None)
    ensures IsCoordinator(w, 2) && VictoryNote(3, 1) in w.notes && w.notes[VictoryNote(2, 1)] == 1
  {
    var ids: set<nat> := {1, 2, 3};
    var w0 := Fresh(ids);
    assert w0.nodes.Keys == ids && Higher(3, ids) == {} && 3 in Higher(2, ids);
    assert Reaches(w0, [], w0);
    var w1 := Next(Begin(3), w0);
    ReachMore(w0, [], w0, Begin(3));
    assert w1.nodes.Keys == ids && VictoryNote(3, 1) in w1.notes && w1.nodes[2] == Node(NOBODY, None);
    var w2 := Next(Stop(3), w1);
    ReachMore(w0, [Begin(3)], w1, Stop(3));
    assert w2.alive == {1, 2};
    steps, w := SecondWins(w0, [Begin(3)] + [Stop(3)], w2);
  }

  lemma SecondWins(w0: World, before: seq<Step>, w2: World) returns (steps: seq<Step>, w: World)
    requires Reaches(w0, before, w2) && w2.nodes.Keys == {1, 2, 3} && w2.alive == {1, 2}
    requires w2.nodes[1] == Node(NOBODY, None) && w2.nodes[2] == Node(NOBODY, None)
    requires VictoryNote(3, 1) in w2.notes && VictoryNote(2, 1) !in w2.notes
    ensures Reaches(w0, steps, w)
    ensures w.alive == {1, 2} && w.nodes.Keys == {1, 2, 3} && w.nodes[1] == Node(NOBODY, None)
    ensures IsCoordinator(w, 2) && VictoryNote(3, 1) in w.notes && w.notes[VictoryNote(2, 1)] == 1
  {
    assert 3 in Higher(2, w2.nodes.Keys);
    var w3 := Next(Begin(2), w2);
    ReachMore(w0, before, w2, Begin(2));
    assert w3.nodes.Keys == {1, 2, 3} && At(w3, 2, AwaitingReply) && Settled(w3, 2);
    w := Next(EndReplyWait(2), w3);
    ReachMore(w0, before + [Begin(2)], w3, EndReplyWait(2));
    steps := before + [Begin(2)] + [EndReplyWait(2)];
    assert VictoryNote(2, 1) in Victories(2, w3.nodes.Keys);
  }

  /** Server 1 follows the stopped server 3, although the live coordinator 2 has announced itself to it. */
  predicate Misled(w: World) {
    && 1 in w.alive && 2 in w.alive && 3 !in w.alive
    && IsCoordinator(w, 2) && VictoryNote(2, 1) !in w.notes
    && 1 in w.nodes && w.nodes[1].coordinator == 3
  }

  /** An announcement that is late leaves a live server following a stopped one. */
  lemma LateVictory()
    ensures exists steps, end :: Reaches(Fresh({1, 2, 3}), steps, end) && Misled(end)
  {
    var before, w := HighestStops();
    var middle := Next(Deliver(VictoryNote(2, 1)), w);
    ReachMore(Fresh({1, 2, 3}), before, w, Deliver(VictoryNote(2, 1)));
    var end := Next(Deliver(VictoryNote(3, 1)), middle);
    ReachMore(Fresh({1, 2, 3}), before + [Deliver(VictoryNote(2, 1))], middle, Deliver(VictoryNote(3, 1)));
    assert Misled(end);
  }

  // ---- exactly when a win is safe ----

  /** At most one live server considers itself coordinator. */
  ghost predicate AtMostOne(w: World) {
    forall p, q :: p in w.alive && q in w.alive && IsCoordinator(w, p) && IsCoordinator(w, q) ==> p == q
  }

  /** Reached without a change to any server but `q`. */
  ghost predicate WinsAlone(w: World, q: nat, steps: seq<Step>, end: World) {
    && Reaches(w, steps, end) && IsCoordinator(end, q) && end.alive == w.alive
    && forall r :: r in w.nodes && r != q ==> r in end.nodes && end.nodes[r] == w.nodes[r]
  }

  /** The highest live server wins as soon as it begins, because nobody is left who could answer. */
  lemma HighestBegins(w: World, q: nat)
    requires q in w.alive && q in w.nodes && Above(q, w.alive) && w.nodes[q].contest.None?
    ensures exists steps, end :: WinsAlone(w, q, steps, end)
  {
    var w1 := Next(Begin(q), w);
    assert Reaches(w1, [], w1) && [Begin(q)][1..] == [];
    assert Reaches(w, [Begin(q)], w1);
    if Higher(q, w.nodes.Keys) == {} {
      assert WinsAlone(w, q, [Begin(q)], w1);
    } else {
      assert At(w1, q, AwaitingReply) && Settled(w1, q);
      var w2 := Next(EndReplyWait(q), w1);
      ReachMore(w, [Begin(q)], w1, EndReplyWait(q));
      assert WinsAlone(w, q, [Begin(q)] + [EndReplyWait(q)], w2);
    }
  }

  lemma StepFirst(w: World, st: Step, q: nat)
    requires Enabled(st, w)
    requires forall r :: r in w.nodes && r != q ==> r in Next(st, w).nodes && Next(st, w).nodes[r] == w.nodes[r]
    requires Next(st, w).alive == w.alive
    requires exists steps, end :: WinsAlone(Next(st, w), q, steps, end)
    ensures exists steps, end :: WinsAlone(w, q, steps, end)
  {
    var steps, end :| WinsAlone(Next(st, w), q, steps, end);
    assert ([st] + steps)[1..] == steps;
    assert WinsAlone(w, q, [st] + steps, end);
  }

  /** From the end of its victory wait the highest live server follows or asks again, and wins. */
  lemma HighestAfterVictoryWait(w: World, q: nat)
    requires q in w.nodes && Above(q, w.alive) && At(w, q, AwaitingVictory)
    ensures exists steps, end :: WinsAlone(w, q, steps, end)
  {
    var w1 := Next(EndVictoryWait(q), w);
    if w.nodes[q].contest.value.victorious != NOBODY {
      HighestBegins(w1, q);
    } else if Higher(q, w.nodes.Keys) == {} {
      assert Reaches(w1, [], w1);
      assert WinsAlone(w1, q, [], w1);
    } else {
      assert At(w1, q, AwaitingReply) && Settled(w1, q);
      var w2 := Next(EndReplyWait(q), w1);
      assert Reaches(w2, [], w2) && [EndReplyWait(q)][1..] == [];
      assert WinsAlone(w1, q, [EndReplyWait(q)], w2);
    }
    StepFirst(w, EndVictoryWait(q), q);
  }

  /** The highest live server can win from wherever it is. */
  lemma HighestCanWin(w: World, q: nat)
    requires q in w.alive && q in w.nodes && Above(q, w.alive)
    ensures exists steps, end :: WinsAlone(w, q, steps, end)
  {
    if w.nodes[q].contest.None? {
      HighestBegins(w, q);
    } else if w.nodes[q].contest.value.stage == AwaitingVictory {
      HighestAfterVictoryWait(w, q);
    } else {
      assert At(w, q, AwaitingReply) && Settled(w, q);
      var w1 := Next(EndReplyWait(q), w);
      if w.nodes[q].contest.value.highest == q {
        assert Reaches(w1, [], w1);
        assert WinsAlone(w1, q, [], w1);
      } else {
        HighestAfterVictoryWait(w1, q);
      }
      StepFirst(w, EndReplyWait(q), q);
    }
  }

  lemma {:induction false} HighestOf(ids: set<nat>, p: nat) returns (q: nat)
    requires p in ids
    ensures q in ids && Above(q, ids) && q >= p
    decreases |Higher(p, ids)|
  {
    if Higher(p, ids) == {} {
      q := p;
      assert forall r :: r in ids && r > p ==> r in Higher(p, ids);
    } else {
      var r :| r in Higher(p, ids);
      assert Higher(r, ids) <= Higher(p, ids) - {r};
      Fewer(Higher(r, ids), Higher(p, ids), r);
      q := HighestOf(ids, r);
    }
  }

  lemma Fewer(a: set<nat>, b: set<nat>, x: nat)
    requires a <= b - {x} && x in b
    ensures |a| < |b|
  {
    assert |b - {x} - a| == |b - {x}| - |a|;
  }

  lemma InvAtMostOne(w: World)
    requires Inv(w)
    ensures AtMostOne(w)
  {
    forall p, q | p in w.alive && q in w.alive && IsCoordinator(w, p) && IsCoordinator(w, q) ensures p == q {
      assert Follows(w, p) && Follows(w, q);
    }
  }

  lemma SafeAfter(w: World, steps: seq<Step>, end: World)
    requires Inv(w) && Reaches(w, steps, end)
    ensures AtMostOne(end)
  {
    RunInv(w, steps, end);
    InvAtMostOne(end);
  }

  lemma UnsafeBelow(w: World, p: nat, r: nat)
    requires p in w.alive && p in w.nodes && r in w.alive && r > p && w.alive <= w.nodes.Keys
    ensures exists steps, end :: Reaches(Became(w, p), steps, end) && !AtMostOne(end)
  {
    var w1 := Became(w, p);
    var q := HighestOf(w.alive, r);
    HighestCanWin(w1, q);
    var steps, end :| WinsAlone(w1, q, steps, end);
    assert IsCoordinator(end, p) && IsCoordinator(end, q) && p != q;
    assert !AtMostOne(end);
  }

  /** A server that declares itself winner at the end of its wait is safe from a second coordinator, in every future,
      if and only if no higher server is alive at that moment. */
  lemma WinSafeIffHighest(w0: World, before: seq<Step>, w: World, p: nat)
    requires Initial(w0) && Reaches(w0, before, w) && At(w, p, AwaitingReply)
    ensures (forall steps, end :: Reaches(Became(w, p), steps, end) ==> AtMostOne(end)) <==> Above(p, w.alive)
  {
    RunInv(w0, before, w);
    var w1 := Became(w, p);
    if Above(p, w.alive) {
      BecameInv(w, p);
      forall steps, end | Reaches(w1, steps, end) ensures AtMostOne(end) {
        SafeAfter(w1, steps, end);
      }
    } else {
      var r :| r in w.alive && r > p;
      UnsafeBelow(w, p, r);
    }
  }
}
