/** The vote counter and the waits of the transaction manager. What other threads deliver while a wait lasts is
    a parameter: votes or results in their order of arrival. A wait that never ends is the outcome `None`. */
module Votes {
  import opened Options
  import opened TwoPhase

  /** A vote as it arrives. Nobody looks at the sender. */
  datatype Arrival = Arrival(sender: Id, tid: nat, yes: bool)

  datatype Verdict = Verdict(tid: nat, commit: bool)

  // ---- the vote counter as a function ----

  function Count(votes: int, tid: nat, b: Arrival): int {
    if b.tid == tid then AddVote(votes, b.yes) else votes
  }

  function Tally(votes: int, tid: nat, arrived: seq<Arrival>): int
    decreases arrived
  {
    if arrived == [] then votes else Count(Tally(votes, tid, arrived[..|arrived| - 1]), tid, arrived[|arrived| - 1])
  }

  /** What the wait for the votes returns. */
  function Outcome(votes: int, total: int, tid: nat, arriving: seq<Arrival>): Option<bool>
    decreases arriving
  {
    if !(votes < total && votes != -1) then Some(votes == total)
    else if arriving == [] then None
    else Outcome(Count(votes, tid, arriving[0]), total, tid, arriving[1..])
  }

  /** What the wait for the result returns. */
  function Awaited(has: bool, result: bool, tid: nat, arriving: seq<Verdict>): Option<bool>
    decreases arriving
  {
    if has then Some(result)
    else if arriving == [] then None
    else if arriving[0].tid == tid then Some(arriving[0].commit)
    else Awaited(false, result, tid, arriving[1..])
  }

  /** The first verdict on the transaction is the one at `i`. */
  predicate FirstVerdict(arriving: seq<Verdict>, tid: nat, i: int) {
    0 <= i < |arriving| && arriving[i].tid == tid && forall j :: 0 <= j < i ==> arriving[j].tid != tid
  }

  /** A result that is held already is returned, and otherwise the first that arrives for the transaction, just as it
      was decided. */
  lemma {:induction false} AwaitedIsFirst(has: bool, result: bool, tid: nat, arriving: seq<Verdict>)
    ensures has ==> Awaited(has, result, tid, arriving) == Some(result)
    ensures forall i :: !has && FirstVerdict(arriving, tid, i) ==>
              Awaited(has, result, tid, arriving) == Some(arriving[i].commit)
    decreases arriving
  {
    if !has && arriving != [] && arriving[0].tid != tid {
      AwaitedIsFirst(false, result, tid, arriving[1..]);
      forall i | FirstVerdict(arriving, tid, i)
        ensures Awaited(has, result, tid, arriving) == Some(arriving[i].commit)
      {
        assert FirstVerdict(arriving[1..], tid, i - 1);
      }
    }
  }

  /** The wait goes on exactly while no result is held and none for the transaction arrives. */
  lemma {:induction false} AwaitedForever(has: bool, result: bool, tid: nat, arriving: seq<Verdict>)
    ensures Awaited(has, result, tid, arriving) == None
            <==> !has && forall i :: 0 <= i < |arriving| ==> arriving[i].tid != tid
    decreases arriving
  {
    if !has && arriving != [] && arriving[0].tid != tid {
      AwaitedForever(false, result, tid, arriving[1..]);
      assert forall i :: 0 < i < |arriving| ==> arriving[i] == arriving[1..][i - 1];
      assert forall i :: 0 <= i < |arriving[1..]| ==> arriving[1..][i] == arriving[i + 1];
    }
  }

  // ---- the counter refines the set of votes ----

  predicate Voted(all: seq<Arrival>, tid: nat, who: Id, yes: bool) {
    Arrival(who, tid, yes) in all
  }

  /** Votes for this tid come from voters only, and at most one from each. */
  ghost predicate Clean(all: seq<Arrival>, tid: nat, voters: set<Id>) {
    && (forall i :: 0 <= i < |all| && all[i].tid == tid ==> all[i].sender in voters)
    && (forall i, j :: 0 <= i < j < |all| && all[i].tid == tid && all[j].tid == tid ==> all[i].sender != all[j].sender)
  }

  ghost function Yes(all: seq<Arrival>, tid: nat, voters: set<Id>): set<Id> {
    set v | v in voters && Voted(all, tid, v, true)
  }

  ghost predicate AnyNo(all: seq<Arrival>, tid: nat) {
    exists i :: 0 <= i < |all| && all[i].tid == tid && !all[i].yes
  }

  /** On clean votes the counter is -1 once somebody voted no, and otherwise the number of voters who voted yes. */
  lemma {:induction false} TallyCounts(all: seq<Arrival>, tid: nat, voters: set<Id>)
    requires Clean(all, tid, voters)
    ensures Tally(0, tid, all) == if AnyNo(all, tid) then -1 else |Yes(all, tid, voters)|
    decreases all
  {
    if all == [] {
      assert Yes(all, tid, voters) == {};
    } else {
      var before, last := all[..|all| - 1], all[|all| - 1];
      assert all == before + [last];
      TallyCounts(before, tid, voters);
      if last.tid != tid {
        assert Yes(all, tid, voters) == Yes(before, tid, voters);
        assert AnyNo(all, tid) <==> AnyNo(before, tid) by { AnyNoSnoc(before, last, tid); }
      } else {
        AnyNoSnoc(before, last, tid);
        assert last.sender !in Yes(before, tid, voters);
        if last.yes {
          assert Yes(all, tid, voters) == Yes(before, tid, voters) + {last.sender};
        }
      }
    }
  }

  lemma AnyNoSnoc(before: seq<Arrival>, last: Arrival, tid: nat)
    ensures AnyNo(before + [last], tid) <==> AnyNo(before, tid) || (last.tid == tid && !last.yes)
  {
    var all := before + [last];
    assert all[|before|] == last;
    if AnyNo(before, tid) {
      var i :| 0 <= i < |before| && before[i].tid == tid && !before[i].yes;
      assert all[i] == before[i];
    }
  }

  lemma Pigeonhole(some: set<Id>, all: set<Id>)
    requires some <= all && |some| >= |all|
    ensures some == all
  {
    assert |all - some| == |all| - |some|;
  }

  /** A voter who voted no did not vote yes. */
  lemma NoIsNotYes(all: seq<Arrival>, tid: nat, voters: set<Id>)
    requires Clean(all, tid, voters)
    ensures AnyNo(all, tid) ==> Yes(all, tid, voters) != voters
  {
    if AnyNo(all, tid) {
      var i :| 0 <= i < |all| && all[i].tid == tid && !all[i].yes;
      if Voted(all, tid, all[i].sender, true) {
        var j :| 0 <= j < |all| && all[j] == Arrival(all[i].sender, tid, true);
      }
    }
  }

  /** The wait returns commit exactly when every voter voted yes, rollback exactly when one voted no, and goes on
      otherwise. Stale votes and the order of arrival make no difference, nor does when the waiting began. */
  lemma {:induction false} OutcomeIsUnanimity(early: seq<Arrival>, late: seq<Arrival>, tid: nat, voters: set<Id>)
    requires Clean(early + late, tid, voters)
    ensures Outcome(Tally(0, tid, early), |voters|, tid, late) ==
            if AnyNo(early + late, tid) then Some(false)
            else if Yes(early + late, tid, voters) == voters then Some(true)
            else None
    decreases late
  {
    var all := early + late;
    assert Clean(early, tid, voters) by {
      assert forall i :: 0 <= i < |early| ==> all[i] == early[i];
    }
    TallyCounts(early, tid, voters);
    NoIsNotYes(all, tid, voters);
    var votes := Tally(0, tid, early);
    if votes == -1 {
      var i :| 0 <= i < |early| && early[i].tid == tid && !early[i].yes;
      assert all[i] == early[i];
    } else if votes >= |voters| {
      Pigeonhole(Yes(early, tid, voters), voters);
      assert Yes(all, tid, voters) == voters;
    } else if late == [] {
      assert all == early;
    } else {
      assert early + [late[0]] + late[1..] == all;
      assert (early + [late[0]])[..|early|] == early;
      OutcomeIsUnanimity(early + [late[0]], late[1..], tid, voters);
    }
  }

  /** The same with the coordinator's own vote, cast before the wait. */
  lemma OwnVoteCounts(early: seq<Arrival>, own: Arrival, late: seq<Arrival>, voters: set<Id>)
    requires Clean(early + [own] + late, own.tid, voters)
    ensures var all := early + [own] + late;
      Outcome(AddVote(Tally(0, own.tid, early), own.yes), |voters|, own.tid, late) ==
      if AnyNo(all, own.tid) then Some(false) else if Yes(all, own.tid, voters) == voters then Some(true) else None
  {
    assert (early + [own])[..|early|] == early;
    OutcomeIsUnanimity(early + [own], late, own.tid, voters);
  }

  /** The same votes in another order, with other stale votes among them and the wait begun at another time, have the
      same outcome. */
  lemma OrderDoesNotMatter(early: seq<Arrival>, late: seq<Arrival>, early': seq<Arrival>, late': seq<Arrival>,
                           tid: nat, voters: set<Id>)
    requires Clean(early + late, tid, voters) && Clean(early' + late', tid, voters)
    requires forall v, yes :: Voted(early + late, tid, v, yes) <==> Voted(early' + late', tid, v, yes)
    ensures Outcome(Tally(0, tid, early), |voters|, tid, late) == Outcome(Tally(0, tid, early'), |voters|, tid, late')
  {
    OutcomeIsUnanimity(early, late, tid, voters);
    OutcomeIsUnanimity(early', late', tid, voters);
    assert Yes(early + late, tid, voters) == Yes(early' + late', tid, voters);
    AnyNoVoted(early + late, early' + late', tid);
    AnyNoVoted(early' + late', early + late, tid);
  }

  lemma AnyNoVoted(a: seq<Arrival>, b: seq<Arrival>, tid: nat)
    requires forall v, yes :: Voted(a, tid, v, yes) ==> Voted(b, tid, v, yes)
    ensures AnyNo(a, tid) ==> AnyNo(b, tid)
  {
    if AnyNo(a, tid) {
      var i :| 0 <= i < |a| && a[i].tid == tid && !a[i].yes;
      assert Voted(a, tid, a[i].sender, false);
      var j :| 0 <= j < |b| && b[j] == Arrival(a[i].sender, tid, false);
    }
  }

  /** A no is never outvoted: whatever else arrives, however often, the outcome is not commit. */
  lemma {:induction false} NoStands(total: nat, tid: nat, late: seq<Arrival>)
    ensures Outcome(-1, total, tid, late) == Some(false)
  {
  }
}
