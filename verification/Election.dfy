/** The election as the server runs it: objects with fields, loops over the configured servers, two timed waits and
    a retry. What arrives during a wait is a parameter. Every method is proved to do what a step of `Bully` does. */
module Election {
  import opened Options
  import opened Bully

  /** The notes delivered during the reply wait and during the victory wait of one round. */
  datatype Arrivals = Arrivals(replies: seq<Note>, victories: seq<Note>)

  function HearAll(n: Node, notes: seq<Note>): Node
    decreases notes
  {
    if notes == [] then n else HearAll(Hear(n, notes[0]), notes[1..])
  }

  /** A whole election as rounds of two waits; when the rounds run out the server is still waiting. */
  function Contend(p: nat, ids: set<nat>, n: Node, rounds: seq<Arrivals>): Action
    decreases rounds
  {
    var ask := RoundAction(p, ids, n);
    if ask.won || rounds == [] then ask else
      ContestStays(ask.node, rounds[0].replies);
      var reply := ReplyAction(p, ids, HearAll(ask.node, rounds[0].replies));
      if reply.won then Action(reply.node, ask.sent + reply.sent, true) else
        ContestStays(reply.node, rounds[0].victories);
        var heard := HearAll(reply.node, rounds[0].victories);
        if heard.contest.value.victorious == NOBODY then
          var rest := Contend(p, ids, heard, rounds[1..]);
          Action(rest.node, ask.sent + rest.sent, rest.won)
        else Action(VictoryAction(p, ids, heard).node, ask.sent, false)
  }

  lemma {:induction false} ContestStays(n: Node, notes: seq<Note>)
    requires Asked(n)
    ensures Asked(HearAll(n, notes)) && HearAll(n, notes).contest.value.stage == n.contest.value.stage
    ensures HearAll(n, notes).coordinator == n.coordinator
    ensures HearAll(n, notes).contest.value.highest >= n.contest.value.highest
    decreases notes
  {
    if notes != [] {
      ContestStays(Hear(n, notes[0]), notes[1..]);
    }
  }

  /** What the answers of one wait amount to: the highest of them, or what was known before. */
  lemma {:induction false} HighestHeard(n: Node, notes: seq<Note>)
    requires Asked(n)
    ensures var h := HearAll(n, notes);
      && Asked(h)
      && (forall m :: m in notes && m.AnswerNote? ==> m.sender <= h.contest.value.highest)
      && (h.contest.value.highest == n.contest.value.highest ||
          exists m :: m in notes && m.AnswerNote? && m.sender == h.contest.value.highest)
    decreases notes
  {
    ContestStays(n, notes);
    if notes != [] {
      var n' := Hear(n, notes[0]);
      HighestHeard(n', notes[1..]);
      ContestStays(n', notes[1..]);
      var top := HearAll(n, notes).contest.value.highest;
      if top != n'.contest.value.highest {
        var m :| m in notes[1..] && m.AnswerNote? && m.sender == top;
        assert m in notes;
      } else if top != n.contest.value.highest {
        assert notes[0] in notes && notes[0].AnswerNote? && notes[0].sender == top;
      }
      forall m | m in notes && m.AnswerNote? ensures m.sender <= top {
        if m != notes[0] { assert m in notes[1..]; }
      }
    }
  }

  /** A server wins its first round exactly when no higher server exists or none answered in time. */
  lemma WinsFirstRound(p: nat, ids: set<nat>, n: Node, round: Arrivals)
    ensures Contend(p, ids, n, [round]).won <==>
              Higher(p, ids) == {} || forall m :: m in round.replies && m.AnswerNote? ==> m.sender <= p
  {
    var ask := RoundAction(p, ids, n);
    if !ask.won {
      HighestHeard(ask.node, round.replies);
      ContestStays(ask.node, round.replies);
      var reply := ReplyAction(p, ids, HearAll(ask.node, round.replies));
      if !reply.won {
        ContestStays(reply.node, round.victories);
        assert [round][1..] == [];
        var top := HearAll(ask.node, round.replies).contest.value.highest;
        var m :| m in round.replies && m.AnswerNote? && m.sender == top;
        assert m.sender > p;
      }
    }
  }

  // ---- how an election ends ----

  /** Some higher server answered during the reply wait. */
  predicate Answered(p: nat, round: Arrivals) {
    exists m :: m in round.replies && m.AnswerNote? && m.sender > p
  }

  /** The first victory announced in these notes, in the order of their arrival. */
  predicate FirstVictory(notes: seq<Note>, i: int) {
    0 <= i < |notes| && notes[i].VictoryNote? && forall j :: 0 <= j < i ==> !notes[j].VictoryNote?
  }

  predicate NoVictory(notes: seq<Note>) {
    forall m :: m in notes ==> !m.VictoryNote?
  }

  function All(round: Arrivals): seq<Note> {
    round.replies + round.victories
  }

  /** Inside an election the first victory is remembered, and nothing replaces it. */
  lemma {:induction false} VictoryHeard(n: Node, notes: seq<Note>)
    requires Asked(n)
    ensures Asked(HearAll(n, notes))
    ensures var v := HearAll(n, notes).contest.value.victorious;
      && (n.contest.value.victorious != NOBODY || NoVictory(notes) ==> v == n.contest.value.victorious)
      && (forall i :: n.contest.value.victorious == NOBODY && FirstVictory(notes, i) ==> v == notes[i].sender)
    decreases notes
  {
    if notes != [] {
      var n' := Hear(n, notes[0]);
      VictoryHeard(n', notes[1..]);
      var v := HearAll(n, notes).contest.value.victorious;
      assert NoVictory(notes) ==> NoVictory(notes[1..]);
      forall i | n.contest.value.victorious == NOBODY && FirstVictory(notes, i) ensures v == notes[i].sender {
        if i > 0 {
          assert n' == n || n'.contest.value.victorious == NOBODY;
          assert FirstVictory(notes[1..], i - 1);
        }
      }
    }
  }

  lemma FirstOfBoth(a: seq<Note>, b: seq<Note>, i: int)
    requires FirstVictory(a + b, i)
    ensures if i < |a| then FirstVictory(a, i) && (a + b)[i] == a[i]
            else NoVictory(a) && FirstVictory(b, i - |a|) && (a + b)[i] == b[i - |a|]
  {
    assert forall j :: 0 <= j < |a| ==> (a + b)[j] == a[j];
    assert forall j :: 0 <= j < |b| ==> (a + b)[|a| + j] == b[j];
  }

  lemma {:induction false} SomeFirst(notes: seq<Note>) returns (i: int)
    requires !NoVictory(notes)
    ensures FirstVictory(notes, i)
    decreases notes
  {
    if notes[0].VictoryNote? {
      i := 0;
    } else {
      var m :| m in notes && m.VictoryNote?;
      assert m in notes[1..];
      i := SomeFirst(notes[1..]);
      i := i + 1;
    }
  }

  /** After both waits of a round the remembered victory is the first of either. */
  lemma VictoryHeardTwice(n: Node, middle: Node, a: seq<Note>, b: seq<Note>)
    requires Asked(n) && n.contest.value.victorious == NOBODY
    requires Asked(middle) && Asked(HearAll(n, a))
    requires middle.contest.value.victorious == HearAll(n, a).contest.value.victorious
    ensures Asked(HearAll(middle, b))
    ensures NoVictory(a + b) ==> HearAll(middle, b).contest.value.victorious == NOBODY
    ensures forall i :: FirstVictory(a + b, i) ==> HearAll(middle, b).contest.value.victorious == (a + b)[i].sender
  {
    VictoryHeard(n, a);
    VictoryHeard(middle, b);
    assert NoVictory(a + b) ==> NoVictory(a) && NoVictory(b);
    forall i | FirstVictory(a + b, i)
      ensures HearAll(middle, b).contest.value.victorious == (a + b)[i].sender
    {
      FirstOfBoth(a, b, i);
    }
  }

  lemma RoundVictory(p: nat, ids: set<nat>, n: Node, round: Arrivals)
    requires Higher(p, ids) != {}
    ensures Asked(HearAll(RoundAction(p, ids, n).node, round.replies))
    ensures var reply := ReplyAction(p, ids, HearAll(RoundAction(p, ids, n).node, round.replies));
      !reply.won ==>
        var v := HearAll(reply.node, round.victories);
        && Asked(v) && v.coordinator == n.coordinator
        && (NoVictory(All(round)) ==> v.contest.value.victorious == NOBODY)
        && (forall i :: FirstVictory(All(round), i) ==> v.contest.value.victorious == All(round)[i].sender)
  {
    var ask := RoundAction(p, ids, n).node;
    ContestStays(ask, round.replies);
    var reply := ReplyAction(p, ids, HearAll(ask, round.replies));
    if !reply.won {
      VictoryHeardTwice(ask, reply.node, round.replies, round.victories);
      ContestStays(reply.node, round.victories);
    }
  }

  lemma WinsUnanswered(p: nat, ids: set<nat>, n: Node, round: Arrivals)
    requires Higher(p, ids) != {}
    ensures var heard := HearAll(RoundAction(p, ids, n).node, round.replies);
      Asked(heard) && (ReplyAction(p, ids, heard).won <==> !Answered(p, round))
  {
    var ask := RoundAction(p, ids, n).node;
    HighestHeard(ask, round.replies);
    ContestStays(ask, round.replies);
    var top := HearAll(ask, round.replies).contest.value.highest;
    if top != p {
      var m :| m in round.replies && m.AnswerNote? && m.sender == top;
      assert Answered(p, round);
    }
  }

  /** The rounds before `k` were answered, and nobody announced a victory in them. */
  ghost predicate Undecided(p: nat, rounds: seq<Arrivals>, k: nat) {
    k <= |rounds| && forall j :: 0 <= j < k ==> Answered(p, rounds[j]) && NoVictory(All(rounds[j]))
  }

  predicate Asks(p: nat, ids: set<nat>, m: Note) {
    m.ElectionNote? && m.sender == p && m.to in ids && m.to > p
  }

  predicate Announces(p: nat, ids: set<nat>, m: Note) {
    m.VictoryNote? && m.sender == p && m.to in ids && m.to != p
  }

  /** How an election with higher servers ends, and with whom. At the first round that is not answered the server wins.
      At the first that is answered and hears of a victory, it follows the sender of the first announcement, whoever
      answered. If there is neither, it still waits for replies. */
  lemma {:induction false} ElectionEnds(p: nat, ids: set<nat>, n: Node, rounds: seq<Arrivals>, k: nat)
    requires Higher(p, ids) != {} && Undecided(p, rounds, k)
    ensures var a := Contend(p, ids, n, rounds);
      && (k < |rounds| && !Answered(p, rounds[k]) ==> a.won && a.node == Node(p, None))
      && (forall i :: k < |rounds| && Answered(p, rounds[k]) && FirstVictory(All(rounds[k]), i) ==>
            !a.won && a.node == Node(All(rounds[k])[i].sender, None))
      && (k == |rounds| ==> !a.won && a.node == Node(n.coordinator, Some(Contest(p, NOBODY, AwaitingReply))))
      && (forall m :: m in a.sent <==> Asks(p, ids, m) || (a.won && Announces(p, ids, m)))
    decreases rounds
  {
    SentAnyway(p, ids, n, rounds);
    if rounds != [] {
      var round := rounds[0];
      RoundVictory(p, ids, n, round);
      WinsUnanswered(p, ids, n, round);
      if k > 0 {
        assert Answered(p, rounds[0]) && NoVictory(All(rounds[0]));
        var reply := ReplyAction(p, ids, HearAll(RoundAction(p, ids, n).node, round.replies)).node;
        ElectionEnds(p, ids, HearAll(reply, round.victories), rounds[1..], k - 1);
        assert Undecided(p, rounds[1..], k - 1);
      }
    }
  }

  /** Whatever happens, every higher server is asked, and everybody is told exactly when the server wins. */
  lemma {:induction false} SentAnyway(p: nat, ids: set<nat>, n: Node, rounds: seq<Arrivals>)
    requires Higher(p, ids) != {}
    ensures var a := Contend(p, ids, n, rounds);
      forall m :: m in a.sent <==> Asks(p, ids, m) || (a.won && Announces(p, ids, m))
    decreases rounds
  {
    if rounds != [] {
      var round := rounds[0];
      RoundVictory(p, ids, n, round);
      var reply := ReplyAction(p, ids, HearAll(RoundAction(p, ids, n).node, round.replies));
      if !reply.won {
        SentAnyway(p, ids, HearAll(reply.node, round.victories), rounds[1..]);
      }
    }
  }

  /** The highest configured server wins at once and tells everybody. */
  lemma HighestWins(p: nat, ids: set<nat>, n: Node, rounds: seq<Arrivals>)
    requires Higher(p, ids) == {}
    ensures var a := Contend(p, ids, n, rounds);
      && a.node == Node(p, None) && a.won
      && (forall m :: m in a.sent <==> Announces(p, ids, m))
  {
  }

  // ---- an election within the runs of all servers ----

  /** What one server does or hears in a run of all of them. */
  datatype Event = Begins | Hears(note: Note) | RepliesEnd | VictoriesEnd

  /** The part of a step that concerns server `p`. */
  function Part(p: nat, st: Step): seq<Event> {
    match st
    case Begin(q) => if q == p then [Begins] else []
    case EndReplyWait(q) => if q == p then [RepliesEnd] else []
    case EndVictoryWait(q) => if q == p then [VictoriesEnd] else []
    case Deliver(m) => if m.to == p then [Hears(m)] else []
    case Stop(_) => []
    case Lose(_) => []
  }

  function Project(p: nat, steps: seq<Step>): seq<Event>
    decreases steps
  {
    if steps == [] then [] else Part(p, steps[0]) + Project(p, steps[1..])
  }

  function React(p: nat, ids: set<nat>, n: Node, e: Event): Node {
    match e
    case Begins => RoundAction(p, ids, n).node
    case Hears(m) => Hear(n, m)
    case RepliesEnd => if Asked(n) then ReplyAction(p, ids, n).node else n
    case VictoriesEnd => if Asked(n) then VictoryAction(p, ids, n).node else n
  }

  function Lived(p: nat, ids: set<nat>, n: Node, events: seq<Event>): Node
    decreases events
  {
    if events == [] then n else Lived(p, ids, React(p, ids, n, events[0]), events[1..])
  }

  /** In every run a server is what its own events made of it. */
  lemma {:induction false} RunLived(p: nat, w: World, steps: seq<Step>, end: World)
    requires p in w.nodes && Reaches(w, steps, end)
    ensures end.nodes.Keys == w.nodes.Keys
    ensures end.nodes[p] == Lived(p, w.nodes.Keys, w.nodes[p], Project(p, steps))
    decreases steps
  {
    if steps != [] {
      StepLived(p, w, steps[0]);
      RunLived(p, Next(steps[0], w), steps[1..], end);
      LivedMore(p, w.nodes.Keys, w.nodes[p], Part(p, steps[0]), Project(p, steps[1..]));
    }
  }

  lemma StepLived(p: nat, w: World, st: Step)
    requires p in w.nodes && Enabled(st, w)
    ensures Next(st, w).nodes.Keys == w.nodes.Keys
    ensures Next(st, w).nodes[p] == Lived(p, w.nodes.Keys, w.nodes[p], Part(p, st))
  {
    if Part(p, st) != [] {
      LivedOne(p, w.nodes.Keys, w.nodes[p], Part(p, st)[0]);
    }
  }

  lemma {:induction false} LivedMore(p: nat, ids: set<nat>, n: Node, a: seq<Event>, b: seq<Event>)
    ensures Lived(p, ids, n, a + b) == Lived(p, ids, Lived(p, ids, n, a), b)
    decreases a
  {
    if a == [] {
      assert a + b == b;
    } else {
      assert (a + b)[1..] == a[1..] + b;
      LivedMore(p, ids, React(p, ids, n, a[0]), a[1..], b);
    }
  }

  function Delivered(notes: seq<Note>): seq<Event> {
    seq(|notes|, i requires 0 <= i < |notes| => Hears(notes[i]))
  }

  lemma {:induction false} LivedHeard(p: nat, ids: set<nat>, n: Node, notes: seq<Note>)
    ensures Lived(p, ids, n, Delivered(notes)) == HearAll(n, notes)
    decreases notes
  {
    if notes != [] {
      assert Delivered(notes)[1..] == Delivered(notes[1..]);
      LivedHeard(p, ids, Hear(n, notes[0]), notes[1..]);
    }
  }

  /** The events of a whole round. */
  function Round(round: Arrivals): seq<Event> {
    Delivered(round.replies) + [RepliesEnd] + Delivered(round.victories) + [VictoriesEnd]
  }

  /** An election as events: it begins, and its waits end one after the other for as long as it lasts. */
  function Script(p: nat, rounds: seq<Arrivals>): seq<Event>
    decreases rounds
  {
    [Begins] + Rest(p, rounds)
  }

  function Rest(p: nat, rounds: seq<Arrivals>): seq<Event>
    decreases rounds
  {
    if rounds == [] then []
    else if !Answered(p, rounds[0]) then Delivered(rounds[0].replies) + [RepliesEnd]
    else if NoVictory(All(rounds[0])) then Round(rounds[0]) + Rest(p, rounds[1..])
    else Round(rounds[0])
  }

  lemma LivedRound(p: nat, ids: set<nat>, n: Node, round: Arrivals)
    requires Higher(p, ids) != {}
    ensures var ask := RoundAction(p, ids, n).node;
      && Asked(HearAll(ask, round.replies))
      && var reply := ReplyAction(p, ids, HearAll(ask, round.replies));
         && Lived(p, ids, ask, Delivered(round.replies) + [RepliesEnd]) == reply.node
         && (!reply.won ==>
               && Asked(HearAll(reply.node, round.victories))
               && Lived(p, ids, ask, Round(round)) == VictoryAction(p, ids, HearAll(reply.node, round.victories)).node)
  {
    var ask := RoundAction(p, ids, n).node;
    var first := Delivered(round.replies) + [RepliesEnd];
    ContestStays(ask, round.replies);
    LivedHeard(p, ids, ask, round.replies);
    LivedMore(p, ids, ask, Delivered(round.replies), [RepliesEnd]);
    var reply := ReplyAction(p, ids, HearAll(ask, round.replies));
    LivedOne(p, ids, HearAll(ask, round.replies), RepliesEnd);
    if !reply.won {
      ContestStays(reply.node, round.victories);
      var heard := HearAll(reply.node, round.victories);
      LivedMore(p, ids, ask, first, Delivered(round.victories));
      LivedHeard(p, ids, reply.node, round.victories);
      LivedMore(p, ids, ask, first + Delivered(round.victories), [VictoriesEnd]);
      LivedOne(p, ids, heard, VictoriesEnd);
    }
  }

  lemma LivedOne(p: nat, ids: set<nat>, n: Node, e: Event)
    ensures Lived(p, ids, n, [e]) == React(p, ids, n, e)
  {
    assert [e][1..] == [];
  }

  lemma {:induction false} LivedRest(p: nat, ids: set<nat>, n: Node, rounds: seq<Arrivals>)
    requires Higher(p, ids) != {}
    ensures Lived(p, ids, RoundAction(p, ids, n).node, Rest(p, rounds)) == Contend(p, ids, n, rounds).node
    decreases rounds
  {
    if rounds != [] {
      var round := rounds[0];
      var ask := RoundAction(p, ids, n).node;
      RoundVictory(p, ids, n, round);
      WinsUnanswered(p, ids, n, round);
      LivedRound(p, ids, n, round);
      var reply := ReplyAction(p, ids, HearAll(ask, round.replies));
      if !reply.won {
        var heard := HearAll(reply.node, round.victories);
        if NoVictory(All(round)) {
          LivedRest(p, ids, heard, rounds[1..]);
          LivedMore(p, ids, ask, Round(round), Rest(p, rounds[1..]));
        } else {
          var i := SomeFirst(All(round));
        }
      }
    }
  }

  /** A run of all servers in which the part of `p` is a whole election ends with `p` as that election leaves it. */
  lemma ElectionInRun(p: nat, w: World, steps: seq<Step>, end: World, rounds: seq<Arrivals>)
    requires Reaches(w, steps, end) && p in w.nodes && Higher(p, w.nodes.Keys) != {}
    requires Project(p, steps) == Script(p, rounds)
    ensures p in end.nodes && end.nodes[p] == Contend(p, w.nodes.Keys, w.nodes[p], rounds).node
  {
    RunLived(p, w, steps, end);
    LivedMore(p, w.nodes.Keys, w.nodes[p], [Begins], Rest(p, rounds));
    LivedOne(p, w.nodes.Keys, w.nodes[p], Begins);
    LivedRest(p, w.nodes.Keys, w.nodes[p], rounds);
  }

  /** An election that ends in following, amid whatever the other servers do, ends at the highest live server exactly
      when the server that announced itself first is still alive. */
  lemma FollowsRightIffAlive(
    w0: World, before: seq<Step>, p: nat, w: World, steps: seq<Step>, end: World,
    rounds: seq<Arrivals>, k: nat, i: int
  )
    requires Initial(w0) && Reaches(w0, before, w) && Reaches(w, steps, end)
    requires p in w.nodes && Higher(p, w.nodes.Keys) != {} && Project(p, steps) == Script(p, rounds)
    requires Undecided(p, rounds, k) && k < |rounds| && Answered(p, rounds[k]) && FirstVictory(All(rounds[k]), i)
    ensures p in end.nodes && end.nodes[p] == Node(All(rounds[k])[i].sender, None)
    ensures FollowsHighest(end, p) <==> All(rounds[k])[i].sender in end.alive
  {
    ElectionInRun(p, w, steps, end, rounds);
    ElectionEnds(p, w.nodes.Keys, w.nodes[p], rounds, k);
    RunInv(w0, before, w);
    RunInv(w, steps, end);
    assert Follows(end, p);
    WonIsHighest(end, end.nodes[p].coordinator);
  }

  function Sent(notes: seq<Note>): set<Note> {
    set m | m in notes
  }

  class Contender {
    var highestAliveReply: int
    var victorious: int

    constructor ()
      ensures highestAliveReply == NOBODY && victorious == NOBODY
    {
      highestAliveReply, victorious := NOBODY, NOBODY;
    }

    method ReceiveAnswer(i: int)
      modifies this`highestAliveReply
      ensures highestAliveReply == if i > old(highestAliveReply) then i else old(highestAliveReply)
    {
      if i > highestAliveReply {
        highestAliveReply := i;
      }
    }

    method ReceiveCoordinatorMessage(id: int)
      modifies this`victorious
      ensures victorious == if old(victorious) == NOBODY then id else old(victorious)
    {
      if victorious == NOBODY {
        victorious := id;
      }
    }
  }

  class Server {
    const id: nat
    /** The other servers of the configuration. */
    const servers: seq<nat>
    var coordinatorId: int
    var isCoordinator: bool
    var election: Contender?
    /** Which wait the election is in. */
    ghost var stage: Stage

    ghost function Ids(): set<nat> {
      (set q | q in servers) + {id}
    }

    ghost predicate Valid()
      reads this, election
    {
      && id !in servers
      && (isCoordinator <==> coordinatorId == id)
    }

    ghost function View(): Node
      reads this, election
      requires Valid()
    {
      Node(coordinatorId,
           if election == null then None
           else Some(Contest(election.highestAliveReply, election.victorious, stage)))
    }

    constructor (id: nat, servers: seq<nat>)
      requires id !in servers
      ensures Valid() && View() == Node(NOBODY, None) && this.id == id && this.servers == servers
    {
      this.id, this.servers, coordinatorId, isCoordinator, election := id, servers, NOBODY, false, null;
      stage := AwaitingReply;
    }

    /** One of the other servers of the configuration; looking up any other id throws. */
    predicate Known(c: int) {
      exists k :: 0 <= k < |servers| && servers[k] == c
    }

    predicate Configured(c: int) {
      c == id || Known(c)
    }

    /** The fields are set first; then an id that is not configured makes the look-up of its server throw. */
    method SetCoordinator(c: int) returns (threw: bool)
      modifies this`coordinatorId, this`isCoordinator
      ensures coordinatorId == c && (isCoordinator <==> c == id)
      ensures threw <==> !Configured(c)
    {
      coordinatorId := c;
      isCoordinator := c == id;
      threw := !isCoordinator && !Known(c);
    }

    /** Is this the highest configured id? */
    method IsHighest() returns (highest: bool)
      ensures highest <==> Higher(id, Ids()) == {}
    {
      var hi := id;
      for i := 0 to |servers|
        invariant hi >= id && (hi == id || hi in servers[..i])
        invariant forall k :: 0 <= k < i ==> servers[k] <= hi
      {
        if servers[i] > hi {
          hi := servers[i];
        }
      }
      highest := hi == id;
      if !highest {
        assert hi in Higher(id, Ids());
      } else {
        assert forall q :: q in Ids() ==> q <= id;
      }
    }

    /** Ask every server with a higher id. */
    method InformElection() returns (sent: seq<Note>)
      ensures Sent(sent) == Elections(id, Ids())
      ensures forall m :: m in sent <==> Asks(id, Ids(), m)
    {
      sent := [];
      for i := 0 to |servers|
        invariant forall m :: m in sent <==>
                    exists k :: 0 <= k < i && servers[k] > id && m == ElectionNote(id, servers[k])
      {
        if servers[i] > id {
          sent := sent + [ElectionNote(id, servers[i])];
        }
      }
      forall m ensures (m in sent <==> m in Elections(id, Ids())) && (m in sent <==> Asks(id, Ids(), m)) {
        if m in sent {
          var k :| 0 <= k < |servers| && servers[k] > id && m == ElectionNote(id, servers[k]);
          assert servers[k] in Higher(id, Ids());
        }
        if m in Elections(id, Ids()) {
          assert m.to in servers;
        }
      }
    }

    method InformVictory() returns (sent: seq<Note>)
      requires Valid()
      ensures Sent(sent) == Victories(id, Ids())
      ensures forall m :: m in sent <==> Announces(id, Ids(), m)
    {
      sent := [];
      for i := 0 to |servers|
        invariant forall m :: m in sent <==> exists k :: 0 <= k < i && m == VictoryNote(id, servers[k])
      {
        sent := sent + [VictoryNote(id, servers[i])];
      }
      forall m ensures (m in sent <==> m in Victories(id, Ids())) && (m in sent <==> Announces(id, Ids(), m)) {
        if m in sent {
          var k :| 0 <= k < |servers| && m == VictoryNote(id, servers[k]);
          assert servers[k] in Ids() && servers[k] != id;
        }
        if m in Victories(id, Ids()) {
          assert m.to in servers;
        }
      }
    }

    method WinElection() returns (sent: seq<Note>)
      requires Valid() && election != null
      modifies this, election
      ensures Valid() && election == null
      ensures Action(View(), Sent(sent), true) == WinAction(id, Ids())
    {
      election.victorious := id;
      var _ := SetCoordinator(id);
      sent := InformVictory();
      election := null;
    }

    /** The start of a round. */
    method AskHigher() returns (sent: seq<Note>, won: bool)
      requires Valid() && election != null && election.victorious == NOBODY
      modifies this, election
      ensures Valid() && election == if won then null else old(election)
      ensures Action(View(), Sent(sent), won) == RoundAction(id, Ids(), old(View()))
    {
      election.highestAliveReply := id;
      won := IsHighest();
      if won {
        sent := WinElection();
      } else {
        stage := AwaitingReply;
        sent := InformElection();
      }
    }

    /** A message from another server, up to the election it may start. A question of a known server is answered. */
    method Receive(m: Note) returns (answer: Option<Note>, threw: bool)
      requires Valid() && m.to == id
      modifies this`coordinatorId, this`isCoordinator, election
      ensures Valid() && View() == Hear(old(View()), m)
      ensures answer == if m.ElectionNote? && Known(m.sender) then Some(AnswerNote(id, m.sender)) else None
      ensures threw <==>
                (m.ElectionNote? && !Known(m.sender)) ||
                (m.VictoryNote? && election == null && !Configured(m.sender))
    {
      answer, threw := None, false;
      match m {
        case ElectionNote(from, _) =>
          threw := !Known(from);
          if !threw {
            answer := Some(AnswerNote(id, from));
          }
        case AnswerNote(from, _) =>
          if election != null {
            election.ReceiveAnswer(from);
          }
        case VictoryNote(from, _) =>
          if election != null {
            election.ReceiveCoordinatorMessage(from);
          } else {
            threw := SetCoordinator(from);
          }
      }
    }

    method ReceiveAll(notes: seq<Note>)
      requires Valid() && election != null && forall m :: m in notes ==> m.to == id
      modifies this`coordinatorId, this`isCoordinator, election
      ensures Valid() && View() == HearAll(old(View()), notes)
    {
      ghost var before := View();
      for i := 0 to |notes|
        invariant Valid() && HearAll(View(), notes[i..]) == HearAll(before, notes)
      {
        assert notes[i..][0] == notes[i] && notes[i..][1..] == notes[i + 1..];
        var _, _ := Receive(notes[i]);
      }
    }

    /** The branch after the reply wait. */
    method AfterReply() returns (sent: seq<Note>, won: bool)
      requires Valid() && election != null
      modifies this, election
      ensures Valid() && election == if won then null else old(election)
      ensures Action(View(), Sent(sent), won) == ReplyAction(id, Ids(), old(View()))
    {
      won := election.highestAliveReply == id;
      if won {
        sent := WinElection();
      } else {
        sent := [];
        stage := AwaitingVictory;
      }
    }

    /** A round and, if nobody announced a victory, the next. An exception ends it with the election still there. */
    method Rounds(rounds: seq<Arrivals>) returns (sent: seq<Note>, won: bool, threw: bool)
      requires Valid() && election != null && election.victorious == NOBODY
      requires forall r, m :: r in rounds && (m in r.replies || m in r.victories) ==> m.to == id
      modifies this, election
      ensures Valid()
      ensures !threw ==> Action(View(), Sent(sent), won) == Contend(id, Ids(), old(View()), rounds)
      ensures !threw && election == null ==> coordinatorId != NOBODY
      ensures threw ==>
                && election != null && !Configured(coordinatorId) && !won
                && Contend(id, Ids(), old(View()), rounds) == Action(Node(coordinatorId, None), Sent(sent), false)
      decreases rounds
    {
      threw := false;
      sent, won := AskHigher();
      if won || rounds == [] {
        return;
      }
      assert rounds[0] in rounds;
      ContestStays(View(), rounds[0].replies);
      ReceiveAll(rounds[0].replies);
      var more;
      more, won := AfterReply();
      if won {
        sent := sent + more;
        return;
      }
      ContestStays(View(), rounds[0].victories);
      ReceiveAll(rounds[0].victories);
      if election.victorious == NOBODY {
        more, won, threw := Rounds(rounds[1..]);
        sent := sent + more;
      } else {
        threw := SetCoordinator(election.victorious);
        if threw {
          return;
        }
        election := null;
      }
    }

    /** Start an election, unless one is running. When it ends there is a coordinator, so it is not started again. */
    method StartElection(rounds: seq<Arrivals>) returns (sent: seq<Note>, won: bool, threw: bool)
      requires Valid()
      requires forall r, m :: r in rounds && (m in r.replies || m in r.victories) ==> m.to == id
      modifies this, election
      ensures Valid()
      ensures old(election) != null ==>
                View() == old(View()) && election == old(election) && sent == [] && !won && !threw
      ensures old(election) == null && !threw ==>
                && Action(View(), Sent(sent), won) == Contend(id, Ids(), old(View()), rounds)
                && (election == null ==> coordinatorId != NOBODY)
      ensures threw ==>
                && election != null && !Configured(coordinatorId) && !won
                && Contend(id, Ids(), old(View()), rounds) == Action(Node(coordinatorId, None), Sent(sent), false)
    {
      if election != null {
        return [], false, false;
      }
      election := new Contender();
      ContendIgnores(id, Ids(), old(View()), View(), rounds);
      sent, won, threw := Rounds(rounds);
    }

    /** The whole handler of one message. A question of a known server is answered and then, unless an election is
        running, starts one; `rounds` is what arrives during that election. */
    method HandleRequest(m: Note, rounds: seq<Arrivals>) returns (sent: seq<Note>, won: bool, threw: bool)
      requires Valid() && m.to == id
      requires forall r, n :: r in rounds && (n in r.replies || n in r.victories) ==> n.to == id
      modifies this, election
      ensures Valid()
      ensures !m.ElectionNote? || old(election) != null || !Known(m.sender) ==>
                && View() == Hear(old(View()), m) && !won
                && sent == (if m.ElectionNote? && Known(m.sender) then [AnswerNote(id, m.sender)] else [])
                && (threw <==> (m.ElectionNote? && !Known(m.sender)) ||
                               (m.VictoryNote? && old(election) == null && !Configured(m.sender)))
      ensures m.ElectionNote? && old(election) == null && Known(m.sender) ==>
                && sent != [] && sent[0] == AnswerNote(id, m.sender)
                && var a := Contend(id, Ids(), old(View()), rounds);
                   if threw then election != null && !Configured(coordinatorId) && a.sent == Sent(sent[1..])
                                 && a.node == Node(coordinatorId, None)
                   else Action(View(), Sent(sent[1..]), won) == a
    {
      sent, won := [], false;
      var answer;
      answer, threw := Receive(m);
      if answer.Some? {
        sent := [answer.value];
        if election == null {
          var more;
          more, won, threw := StartElection(rounds);
          sent := sent + more;
          assert sent[1..] == more;
        }
      }
    }
  }

  /** A round begins afresh whatever the election was. */
  lemma ContendIgnores(p: nat, ids: set<nat>, a: Node, b: Node, rounds: seq<Arrivals>)
    requires a.coordinator == b.coordinator
    ensures Contend(p, ids, a, rounds) == Contend(p, ids, b, rounds)
  {
  }
}
