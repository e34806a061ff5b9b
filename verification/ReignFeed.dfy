/** The change feed on the coordinator of a reign: the commits it can see are the decided log, and they rise. */
module ReignFeed {
  import opened Records
  import opened Digests
  import opened Changes
  import opened Coupling
  import opened History
  import opened TwoPhase
  import opened Replay
  import opened Agreement
  import opened Reigns
  import opened Feed
  import Subscription

  /** An entry of the log was accepted by the state the entries before it make. */
  predicate AcceptedAt(H: Hasher, start: Local, log: seq<Entry>, i: nat) {
    i < |log| && Accepts(log[i].change, Replayed(H, start, log[..i]).state)
  }

  ghost predicate AllAccepted(H: Hasher, start: Local, log: seq<Entry>) {
    forall i :: 0 <= i < |log| ==> AcceptedAt(H, start, log, i)
  }

  lemma AcceptedMore(H: Hasher, start: Local, log: seq<Entry>, e: Entry)
    requires AllAccepted(H, start, log) && Accepts(e.change, Replayed(H, start, log).state)
    ensures AllAccepted(H, start, log + [e])
  {
    forall i | 0 <= i < |log + [e]| ensures AcceptedAt(H, start, log + [e], i) {
      assert (log + [e])[..i] == log[..i] && log[..|log|] == log;
      assert i < |log| ==> AcceptedAt(H, start, log, i);
    }
  }

  /** A commit decision is about a change that the coordinator's state accepts. */
  lemma DecidedAccepted(H: Hasher, w: World)
    requires Inv(H, w) && Enabled(Decide, w) && w.ballot.votes == w.ballot.total
    ensures Accepts(w.reign.changes[w.reign.lastTid], Replayed(H, w.reign.start, w.reign.log).state)
  {
    DecidedByAll(w);
  }

  lemma StepAccepted(H: Hasher, w: World, st: Step)
    requires Inv(H, w) && Enabled(st, w) && AllAccepted(H, w.reign.start, w.reign.log)
    ensures AllAccepted(H, Next(H, st, w).reign.start, Next(H, st, w).reign.log)
  {
    if st.Decide? && w.ballot.votes == w.ballot.total {
      DecidedAccepted(H, w);
      AcceptedMore(H, w.reign.start, w.reign.log, Entry(w.reign.lastTid, w.reign.changes[w.reign.lastTid]));
    }
  }

  lemma {:induction false} RunAccepted(H: Hasher, w: World, steps: seq<Step>, end: World)
    requires Inv(H, w) && AllAccepted(H, w.reign.start, w.reign.log) && Reaches(H, w, steps, end)
    ensures AllAccepted(H, end.reign.start, end.reign.log)
    decreases steps
  {
    if steps != [] {
      StepInv(H, w, steps[0]);
      StepAccepted(H, w, steps[0]);
      RunAccepted(H, Next(H, steps[0], w), steps[1..], end);
    }
  }

  /** The commits of an interleaving, as log entries. */
  function CommitsIn(events: seq<Happening>): seq<Entry>
    decreases events
  {
    if events == [] then [] else
      CommitsIn(events[..|events| - 1]) +
      match events[|events| - 1]
      case Commit(c, tid) => [Entry(tid, c)]
      case Wake => []
  }

  /** The log `log` of a reign that began at `start` after id `first`. */
  ghost predicate ReignLog(H: Hasher, first: nat, start: Local, log: seq<Entry>) {
    AllAccepted(H, start, log) && Ascending(first, log) && Numbered(start.state) && start.state.lastTid <= first
  }

  /** The states between the entries of a log. */
  function Stages(H: Hasher, start: Local, log: seq<Entry>): (r: seq<State>)
    ensures |r| == |log| + 1 && forall k :: 0 <= k <= |log| ==> r[k] == Replayed(H, start, log[..k]).state
  {
    seq(|log| + 1, k requires 0 <= k <= |log| => Replayed(H, start, log[..k]).state)
  }

  /** The entry is accepted where it stands, its id is beyond all before it, and it makes the next state. */
  predicate RisesAt(H: Hasher, stages: seq<State>, log: seq<Entry>, k: nat) {
    && k < |log| && |stages| == |log| + 1
    && Accepts(log[k].change, stages[k]) && stages[k].lastTid < log[k].tid
    && stages[k + 1] == NextState(H, log[k].change, log[k].tid, stages[k])
  }

  ghost predicate AllRise(H: Hasher, stages: seq<State>, log: seq<Entry>) {
    forall k :: 0 <= k < |log| ==> RisesAt(H, stages, log, k)
  }

  lemma NextEntryRises(H: Hasher, first: nat, start: Local, log: seq<Entry>, k: nat)
    requires ReignLog(H, first, start, log) && k < |log|
    ensures RisesAt(H, Stages(H, start, log), log, k)
  {
    assert AcceptedAt(H, start, log, k) && Ascending(first, log[..k]);
    ReplayNumbered(H, first, start, log[..k]);
    ReplayMore(H, start, log, k);
  }

  /** The commits of `events` come next in the log after `done` of its entries. */
  ghost predicate ComesNext(log: seq<Entry>, done: nat, events: seq<Happening>) {
    var k := done + |CommitsIn(events)|;
    k <= |log| && CommitsIn(events) == log[done..k]
  }

  lemma ComesBefore(log: seq<Entry>, done: nat, before: seq<Happening>, e: Happening)
    requires ComesNext(log, done, before + [e])
    ensures ComesNext(log, done, before)
    ensures e.Commit? ==>
              var k := done + |CommitsIn(before)|;
              && k < |log| && log[k] == Entry(e.tid, e.change) && |CommitsIn(before + [e])| == |CommitsIn(before)| + 1
    ensures e.Wake? ==> CommitsIn(before + [e]) == CommitsIn(before)
  {
    var all := before + [e];
    assert all[..|before|] == before;
    var k := done + |CommitsIn(before)|;
    assert log[done..k] == CommitsIn(all)[..|CommitsIn(before)|] == CommitsIn(before);
    if e.Commit? {
      assert CommitsIn(all)[|CommitsIn(before)|] == log[k];
    }
  }

  lemma ReplayMore(H: Hasher, l: Local, log: seq<Entry>, k: nat)
    requires k < |log|
    ensures Replayed(H, l, log[..k + 1]).state
            == NextState(H, log[k].change, log[k].tid, Replayed(H, l, log[..k]).state)
  {
    assert log[..k + 1][..k] == log[..k];
  }

  /** The events walk along the log, from `done` entries to `k`, and every entry on the way rises. */
  ghost predicate Walks(H: Hasher, stages: seq<State>, log: seq<Entry>, done: nat, k: nat, events: seq<Happening>)
    decreases events
  {
    if events == [] then k == done
    else
      var before := events[..|events| - 1];
      match events[|events| - 1]
      case Wake => Walks(H, stages, log, done, k, before)
      case Commit(c, tid) =>
        && k > 0 && RisesAt(H, stages, log, k - 1) && log[k - 1] == Entry(tid, c)
        && Walks(H, stages, log, done, k - 1, before)
  }

  lemma {:induction false} LogWalks(H: Hasher, stages: seq<State>, log: seq<Entry>, done: nat,
                                    events: seq<Happening>)
    requires AllRise(H, stages, log) && ComesNext(log, done, events)
    ensures Walks(H, stages, log, done, done + |CommitsIn(events)|, events)
    decreases events
  {
    if events != [] {
      var before, e := events[..|events| - 1], events[|events| - 1];
      assert events == before + [e];
      ComesBefore(log, done, before, e);
      LogWalks(H, stages, log, done, before);
      var k := done + |CommitsIn(before)|;
      if e.Wake? {
        assert done + |CommitsIn(events)| == k;
      } else {
        assert RisesAt(H, stages, log, k) && done + |CommitsIn(events)| == k + 1;
      }
    }
  }

  /** Such events rise, with wake-ups in any places, and the state is the one behind the last entry. */
  lemma {:induction false} WalkRises(H: Hasher, stages: seq<State>, log: seq<Entry>, done: nat, k: nat, start: Scene,
                                     events: seq<Happening>)
    requires k <= |log| && |stages| == |log| + 1 && done <= |log| && start.state == stages[done]
    requires Walks(H, stages, log, done, k, events)
    ensures Rising(H, start, events) && Play(H, start, events).state == stages[k]
    decreases events
  {
    if events != [] {
      var before, e := events[..|events| - 1], events[|events| - 1];
      assert events == before + [e];
      if e.Wake? {
        WalkRises(H, stages, log, done, k, start, before);
        WakeRises(H, start, before, events);
      } else {
        WalkRises(H, stages, log, done, k - 1, start, before);
        EntryRises(H, stages, log, k - 1, start, before, e, events);
      }
    }
  }

  lemma WakeRises(H: Hasher, start: Scene, before: seq<Happening>, events: seq<Happening>)
    requires Rising(H, start, before) && events == before + [Wake]
    ensures Rising(H, start, events) && Play(H, start, events).state == Play(H, start, before).state
  {
    PlayMore(H, start, before, Wake);
    RisingMore(H, start, before, Wake);
  }

  lemma EntryRises(H: Hasher, stages: seq<State>, log: seq<Entry>, k: nat, start: Scene, before: seq<Happening>,
                   e: Happening, events: seq<Happening>)
    requires Rising(H, start, before) && RisesAt(H, stages, log, k) && e == Commit(log[k].change, log[k].tid)
    requires Play(H, start, before).state == stages[k] && events == before + [e]
    ensures Rising(H, start, events) && Play(H, start, events).state == stages[k + 1]
  {
    PlayMore(H, start, before, e);
    RisingMore(H, start, before, e);
  }

  lemma LogRises(H: Hasher, first: nat, l: Local, log: seq<Entry>, done: nat, start: Scene, events: seq<Happening>)
    requires ReignLog(H, first, l, log) && ComesNext(log, done, events)
    requires done <= |log| && start.state == Replayed(H, l, log[..done]).state
    ensures Rising(H, start, events)
  {
    var stages := Stages(H, l, log);
    assert stages[done] == start.state;
    AllEntriesRise(H, first, l, log);
    LogWalks(H, stages, log, done, events);
    WalkRises(H, stages, log, done, done + |CommitsIn(events)|, start, events);
  }

  lemma AllEntriesRise(H: Hasher, first: nat, l: Local, log: seq<Entry>)
    requires ReignLog(H, first, l, log)
    ensures AllRise(H, Stages(H, l, log), log)
  {
    forall k | 0 <= k < |log| ensures RisesAt(H, Stages(H, l, log), log, k) {
      NextEntryRises(H, first, l, log, k);
    }
  }

  lemma ReachedLog(H: Hasher, w: World, steps: seq<Step>, end: World)
    requires Initial(H, w) && Reaches(H, w, steps, end)
    requires Numbered(w.reign.start.state) && w.reign.start.state.lastTid <= w.reign.lastTid
    ensures ReignLog(H, w.reign.lastTid, end.reign.start, end.reign.log)
  {
    InitialInv(H, w);
    RunAccepted(H, w, steps, end);
    TidsIncrease(H, w, steps, end);
    TidsStayAfter(H, w.reign.lastTid, w, steps, end);
  }

  /** A subscription made at any point of a reign, after `done` of its commits. */
  ghost predicate SubscribedAt(H: Hasher, end: World, done: nat, start: Scene) {
    && done <= |end.reign.log|
    && start.state == Replayed(H, end.reign.start, end.reign.log[..done]).state
    && start.sub == Subscribe(start.sub.user, start.sub.session, start.state)
  }

  /** In a reached world, what the coordinator decided since is a rising list of commits, however the subscriber's
      wake-ups fall between them. */
  lemma ReignRises(H: Hasher, w: World, steps: seq<Step>, end: World, done: nat, start: Scene, events: seq<Happening>)
    requires Initial(H, w) && Reaches(H, w, steps, end)
    requires Numbered(w.reign.start.state) && w.reign.start.state.lastTid <= w.reign.lastTid
    requires SubscribedAt(H, end, done, start) && ComesNext(end.reign.log, done, events)
    ensures Subscribed(start) && Rising(H, start, events)
  {
    var first, l, log := w.reign.lastTid, end.reign.start, end.reign.log;
    ReachedLog(H, w, steps, end);
    assert Ascending(first, log[..done]);
    ReplayNumbered(H, first, l, log[..done]);
    LogRises(H, first, l, log, done, start, events);
  }

  /** So the feed is complete in every reign, without further assumption. */
  lemma ReignFeedComplete(H: Hasher, w: World, steps: seq<Step>, end: World, done: nat, start: Scene,
                          events: seq<Happening>, f: string)
    requires Initial(H, w) && Reaches(H, w, steps, end)
    requires Numbered(w.reign.start.state) && w.reign.start.state.lastTid <= w.reign.lastTid
    requires SubscribedAt(H, end, done, start) && ComesNext(end.reign.log, done, events)
    requires var w := Play(H, start, events); w.state.IsSessionValid(w.sub.session) && !w.sub.closed
    ensures var w := Play(H, start, events + [Wake]);
      var table, view := w.state.FilesOf(w.sub.user), View(w.sub.batches);
      match LastChange(events, w.sub.user, f)
      case Untouched => f !in view
      case Uploaded(content) => f in view && f in table && view[f] == table[f] && view[f].hash == Digest(H, content)
      case Deleted => f !in table
  {
    ReignRises(H, w, steps, end, done, start, events);
    FeedComplete(H, start, events, f);
  }

  lemma {:induction false} ReplayedPlain(H: Hasher, start: Local, log: seq<Entry>)
    requires Subscription.Plain(start.state)
    ensures Subscription.Plain(Replayed(H, start, log).state)
    decreases log
  {
    if log != [] {
      var before, e := log[..|log| - 1], log[|log| - 1];
      ReplayedPlain(H, start, before);
      Subscription.NextPlain(H, e.change, e.tid, Replayed(H, start, before).state);
    }
  }

  /** And a client that keeps what it is sent holds the digest of every file uploaded last since it subscribed. */
  lemma ReignReceived(H: Hasher, w: World, steps: seq<Step>, end: World, done: nat, start: Scene,
                      events: seq<Happening>, sent: seq<seq<UserFile>>, f: string)
    requires Initial(H, w) && Reaches(H, w, steps, end)
    requires Numbered(w.reign.start.state) && w.reign.start.state.lastTid <= w.reign.lastTid
    requires SubscribedAt(H, end, done, start) && ComesNext(end.reign.log, done, events)
    requires var w := Play(H, start, events); w.state.IsSessionValid(w.sub.session) && !w.sub.closed
    requires Subscription.ListsAll(sent, Play(H, start, events + [Wake]).sub.batches)
    ensures var known := Subscription.Keep(map[], Subscription.Updates(Subscription.Flat(sent)));
      match LastChange(events, start.sub.user, f)
      case Untouched => f !in known
      case Uploaded(content) => f in known && known[f] == Digest(H, content)
      case Deleted => true
  {
    InitialInv(H, w);
    TidsStayAfter(H, w.reign.lastTid, w, steps, end);
    Subscription.CoupledPlain(H, w.coordinator.state, w.coordinator.tree);
    ReplayedPlain(H, end.reign.start, end.reign.log[..done]);
    ReignRises(H, w, steps, end, done, start, events);
    Subscription.ReceivedComplete(H, start, events, sent, f);
  }
}
