/** The election does its work: while no other election is under way, the highest live server can make every live
    server follow it. */
module Elected {
  import opened Options
  import opened Bully

  /** No live server takes part in an election, and `q` is the highest of them. */
  ghost predicate Calm(w: World, q: nat) {
    && q in w.alive && Above(q, w.alive) && w.alive <= w.nodes.Keys
    && forall p :: p in w.alive ==> w.nodes[p].contest.None?
  }

  /** `q` has won; the servers in `done` follow it, and its announcement is under way to the others. */
  ghost predicate Announcing(w0: World, q: nat, done: set<nat>, w: World) {
    && w.alive == w0.alive && w.nodes.Keys == w0.nodes.Keys && done <= w.alive
    && forall r :: r in w.alive ==> r in w.nodes && HeardOf(w0, q, done, w, r)
  }

  predicate HeardOf(w0: World, q: nat, done: set<nat>, w: World, r: nat)
    requires r in w.nodes
  {
    if r in done then w.nodes[r] == Node(q, None)
    else r in w0.nodes && w.nodes[r] == w0.nodes[r] && VictoryNote(q, r) in w.notes
  }

  lemma BecameAnnounces(w0: World, w: World, q: nat)
    requires Calm(w0, q) && w.alive == w0.alive && w.nodes.Keys == w0.nodes.Keys
    requires forall r :: r in w0.alive && r != q ==> w.nodes[r] == w0.nodes[r]
    ensures Announcing(w0, q, {q}, Became(w, q))
  {
    var w' := Became(w, q);
    forall r | r in w'.alive ensures HeardOf(w0, q, {q}, w', r) {
      if r != q {
        assert VictoryNote(q, r) in Victories(q, w.nodes.Keys);
      }
    }
  }

  lemma Wins(w: World, q: nat) returns (steps: seq<Step>, end: World)
    requires Calm(w, q)
    ensures Reaches(w, steps, end) && Announcing(w, q, {q}, end)
  {
    assert Reaches(w, [], w);
    var w1 := Next(Begin(q), w);
    ReachMore(w, [], w, Begin(q));
    if Higher(q, w.nodes.Keys) == {} {
      BecameAnnounces(w, w, q);
      return [] + [Begin(q)], w1;
    }
    assert At(w1, q, AwaitingReply) && Settled(w1, q);
    ReachMore(w, [] + [Begin(q)], w1, EndReplyWait(q));
    BecameAnnounces(w, w1, q);
    return [] + [Begin(q)] + [EndReplyWait(q)], Next(EndReplyWait(q), w1);
  }

  lemma OneFollows(w0: World, q: nat, done: set<nat>, before: seq<Step>, w: World, r: nat)
    returns (steps: seq<Step>, end: World)
    requires Calm(w0, q) && Reaches(w0, before, w) && Announcing(w0, q, done, w) && r in w.alive && r !in done
    ensures Reaches(w0, steps, end) && Announcing(w0, q, done + {r}, end)
  {
    var m := VictoryNote(q, r);
    assert HeardOf(w0, q, done, w, r);
    ReachMore(w0, before, w, Deliver(m));
    steps, end := before + [Deliver(m)], Next(Deliver(m), w);
    Followed(w0, q, done, w, r);
  }

  lemma Followed(w0: World, q: nat, done: set<nat>, w: World, r: nat)
    requires Calm(w0, q) && Announcing(w0, q, done, w) && r in w.alive && r !in done
    requires Enabled(Deliver(VictoryNote(q, r)), w)
    ensures Announcing(w0, q, done + {r}, Next(Deliver(VictoryNote(q, r)), w))
  {
    var end := Next(Deliver(VictoryNote(q, r)), w);
    assert HeardOf(w0, q, done, w, r);
    assert end.nodes[r] == Node(q, None);
    forall p | p in end.alive ensures HeardOf(w0, q, done + {r}, end, p) {
      assert HeardOf(w0, q, done, w, p);
    }
  }

  /** A server that does not follow yet, if there is one. */
  lemma NextOne(q: nat, done: set<nat>, alive: set<nat>) returns (r: Option<nat>)
    requires done <= alive
    ensures r.None? ==> done == alive
    ensures r.Some? ==> r.value in alive && r.value !in done && |alive - (done + {r.value})| < |alive - done|
  {
    var notes := set p | p in alive - done :: VictoryNote(q, p);
    if notes == {} {
      assert forall p :: p in alive - done ==> VictoryNote(q, p) in notes;
      Nobody(alive - done);
      assert done + (alive - done) == alive;
      return None;
    }
    var m :| m in notes;
    assert alive - (done + {m.to}) == (alive - done) - {m.to};
    return Some(m.to);
  }

  lemma Nobody(rest: set<nat>)
    requires forall r :: r !in rest
    ensures rest == {}
  {
    assert forall r :: r in rest ==> r in {0};
    assert rest <= {0};
  }

  lemma {:induction false} AllFollow(w0: World, q: nat, done: set<nat>, before: seq<Step>, w: World)
    returns (steps: seq<Step>, end: World)
    requires Calm(w0, q) && Reaches(w0, before, w) && Announcing(w0, q, done, w)
    ensures Reaches(w0, steps, end) && Announcing(w0, q, w0.alive, end)
    decreases |w0.alive - done|
  {
    var r := NextOne(q, done, w.alive);
    if r.None? {
      return before, w;
    }
    var more, w1 := OneFollows(w0, q, done, before, w, r.value);
    steps, end := AllFollow(w0, q, done + {r.value}, more, w1);
  }

  /** From a calm world there is a run without a further stop after which every live server follows the highest live
      one, and no election is under way among them. */
  lemma EverybodyCanFollow(w: World, q: nat)
    requires Calm(w, q)
    ensures exists steps, end :: Reaches(w, steps, end) && end.alive == w.alive && AllAt(end, q)
  {
    var before, w1 := Wins(w, q);
    var steps, end := AllFollow(w, q, {q}, before, w1);
    forall r | r in end.alive ensures r in end.nodes && end.nodes[r] == Node(q, None) {
      assert HeardOf(w, q, w.alive, end, r);
    }
    assert AllAt(end, q);
  }

  ghost predicate AllAt(w: World, q: nat) {
    forall r :: r in w.alive ==> r in w.nodes && w.nodes[r] == Node(q, None)
  }

  /** `q` leads, and `p` knows nothing of it: it is as it was, and no announcement is under way to it. */
  ghost predicate Unaware(w: World, q: nat, p: nat, end: World) {
    && end.alive == w.alive && q in end.nodes && end.nodes[q] == Node(q, None)
    && p in w.nodes && p in end.nodes && end.nodes[p] == w.nodes[p]
    && VictoryNote(q, p) !in end.notes
  }

  /** An announcement is sent once and not acknowledged: when it gets lost, the server it was meant for goes on as
      before, with the coordinator it had or with none. */
  lemma LostAnnouncement(w: World, q: nat, p: nat)
    requires Calm(w, q) && p in w.alive && p != q
    ensures exists steps, end :: Reaches(w, steps, end) && Unaware(w, q, p, end)
  {
    var before, w1 := Wins(w, q);
    assert HeardOf(w, q, {q}, w1, p) && HeardOf(w, q, {q}, w1, q);
    var steps, end := LoseAll(w, before, w1, VictoryNote(q, p));
    assert Unaware(w, q, p, end);
  }

  lemma {:induction false} LoseAll(w0: World, before: seq<Step>, w: World, m: Note)
    returns (steps: seq<Step>, end: World)
    requires Reaches(w0, before, w) && m.VictoryNote?
    ensures Reaches(w0, steps, end) && m !in end.notes
    ensures end.nodes == w.nodes && end.alive == w.alive
    decreases w.notes[m]
  {
    if m !in w.notes {
      return before, w;
    }
    ReachMore(w0, before, w, Lose(m));
    steps, end := LoseAll(w0, before + [Lose(m)], Next(Lose(m), w), m);
  }
}
