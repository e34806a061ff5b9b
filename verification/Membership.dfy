/** The servers a coordinator counts: heartbeats, and a flag that never comes back. */
module Membership {
  import opened TwoPhase

  /** What came back on a heartbeat: a heartbeat, some other message, or nothing in time. */
  datatype Beat = Heartbeat | OtherMessage | Silence

  class Replica {
    const id: Id
    var isAlive: bool
    var lastHeartbeat: int

    constructor (id: Id)
      ensures this.id == id && isAlive
    {
      this.id, isAlive, lastHeartbeat := id, true, 0;
    }

    /** A replica that once was silent stays dead; a wrong answer fails the check without declaring it dead. */
    method CheckAliveBlocking(beat: Beat, now: int) returns (ok: bool)
      modifies this
      ensures isAlive <==> old(isAlive) && beat != Silence
      ensures ok <==> old(isAlive) && beat == Heartbeat
      ensures lastHeartbeat == if ok then now else old(lastHeartbeat)
    {
      if !isAlive {
        return false;
      }
      match beat {
        case Silence =>
          isAlive := false;
          ok := false;
        case Heartbeat =>
          lastHeartbeat := now;
          ok := true;
        case OtherMessage =>
          ok := false;
      }
    }
  }

  function AliveIds(servers: seq<Replica>): set<Id>
    reads servers
  {
    set s | s in servers && s.isAlive :: s.id
  }

  function AliveOnly(servers: seq<Replica>): seq<Replica>
    reads servers
    decreases servers
  {
    if servers == [] then []
    else AliveOnly(servers[..|servers| - 1]) + if servers[|servers| - 1].isAlive then [servers[|servers| - 1]] else []
  }

  method GetActiveServers(servers: seq<Replica>) returns (active: seq<Replica>)
    ensures active == AliveOnly(servers)
  {
    active := [];
    for i := 0 to |servers|
      invariant active == AliveOnly(servers[..i])
    {
      assert servers[..i + 1][..i] == servers[..i];
      if servers[i].isAlive {
        active := active + [servers[i]];
      }
    }
    assert servers[..|servers|] == servers;
  }

  ghost predicate DistinctIds(servers: seq<Replica>) {
    forall i, j :: 0 <= i < j < |servers| ==> servers[i].id != servers[j].id
  }

  lemma {:induction false} ActiveAreAlive(servers: seq<Replica>)
    ensures forall s :: s in AliveOnly(servers) <==> s in servers && s.isAlive
    decreases servers
  {
    if servers != [] {
      ActiveAreAlive(servers[..|servers| - 1]);
      assert servers == servers[..|servers| - 1] + [servers[|servers| - 1]];
    }
  }

  lemma AliveSnoc(before: seq<Replica>, last: Replica)
    requires forall i :: 0 <= i < |before| ==> before[i].id != last.id
    ensures last.id !in AliveIds(before)
    ensures AliveIds(before + [last]) == AliveIds(before) + if last.isAlive then {last.id} else {}
  {
    forall id ensures id in AliveIds(before + [last]) <==>
                        id in AliveIds(before) + if last.isAlive then {last.id} else {} {
      if id in AliveIds(before) {
        var s :| s in before && s.isAlive && s.id == id;
        assert s in before + [last];
      }
      assert last in before + [last];
    }
  }

  /** As many servers are counted as there are live ids: the number of votes waited for is that of distinct voters. */
  lemma {:induction false} ActiveCount(servers: seq<Replica>)
    requires DistinctIds(servers)
    ensures |AliveOnly(servers)| == |AliveIds(servers)|
    decreases servers
  {
    if servers == [] {
      assert AliveIds(servers) == {};
    } else {
      var before, last := servers[..|servers| - 1], servers[|servers| - 1];
      assert servers == before + [last];
      ActiveCount(before);
      AliveSnoc(before, last);
    }
  }

  /** A round of heartbeats takes exactly the silent servers off, and brings none back. */
  method CheckAll(servers: seq<Replica>, beats: seq<Beat>, now: int)
    requires DistinctIds(servers) && |beats| == |servers|
    modifies servers
    ensures forall i :: 0 <= i < |servers| ==> (servers[i].isAlive <==> old(servers[i].isAlive) && beats[i] != Silence)
    ensures AliveIds(servers) <= old(AliveIds(servers))
  {
    for i := 0 to |servers|
      invariant forall k :: 0 <= k < i ==> (servers[k].isAlive <==> old(servers[k].isAlive) && beats[k] != Silence)
      invariant forall k :: i <= k < |servers| ==> servers[k].isAlive == old(servers[k].isAlive)
    {
      var _ := servers[i].CheckAliveBlocking(beats[i], now);
    }
  }
}
