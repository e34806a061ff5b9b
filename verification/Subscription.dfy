/** The subscription handler as a loop: it looks at the state whenever it is woken, sends the changed files one by
    one, and stops when its session or its connection ends. */
module Subscription {
  import opened Disk
  import opened Records
  import opened Digests
  import opened Changes
  import opened Coupling
  import opened Feed
  import opened Memory

  datatype FileUpdate = FileUpdate(filename: string, hash: string, deleted: bool)

  /** The connection to the subscriber. It takes `room` more messages and then fails. */
  class Peer {
    var received: seq<FileUpdate>
    var room: nat

    constructor (room: nat)
      ensures received == [] && this.room == room
    {
      received, this.room := [], room;
    }

    method Send(update: FileUpdate) returns (ok: bool)
      modifies this
      ensures ok <==> old(room) > 0
      ensures received == if ok then old(received) + [update] else old(received)
      ensures room == if ok then old(room) - 1 else 0
    {
      ok := room > 0;
      if ok {
        received, room := received + [update], room - 1;
      }
    }
  }

  function Update(e: UserFile): FileUpdate {
    FileUpdate(e.filename, e.hash, e.deleted)
  }

  function Updates(found: seq<UserFile>): (r: seq<FileUpdate>)
    ensures |r| == |found| && forall i :: 0 <= i < |found| ==> r[i] == Update(found[i])
  {
    seq(|found|, i requires 0 <= i < |found| => Update(found[i]))
  }

  /** `found` holds each entry of the batch once; `names` are their keys. */
  ghost predicate Lists(names: seq<string>, found: seq<UserFile>, batch: FileList) {
    && |names| == |found|
    && (forall i, j :: 0 <= i < j < |names| ==> names[i] != names[j])
    && (forall i :: 0 <= i < |names| ==> names[i] in batch && found[i] == batch[names[i]])
    && (forall f :: f in batch ==> f in names)
  }

  ghost predicate ListsSome(found: seq<UserFile>, batch: FileList) {
    exists names :: Lists(names, found, batch)
  }

  ghost predicate ListsAll(sent: seq<seq<UserFile>>, batches: seq<FileList>) {
    |sent| == |batches| && forall i :: 0 <= i < |sent| ==> ListsSome(sent[i], batches[i])
  }

  function Flat(sent: seq<seq<UserFile>>): seq<UserFile>
    decreases sent
  {
    if sent == [] then [] else Flat(sent[..|sent| - 1]) + sent[|sent| - 1]
  }

  function Looks(sub: Subscriber, states: seq<State>): Subscriber
    decreases states
  {
    if states == [] then sub else Look(Looks(sub, states[..|states| - 1]), states[|states| - 1])
  }

  function Models(seen: seq<ServerState>): (r: seq<State>)
    reads seen
    ensures |r| == |seen| && forall i :: 0 <= i < |seen| ==> r[i] == seen[i].Model()
  {
    if seen == [] then [] else Models(seen[..|seen| - 1]) + [seen[|seen| - 1].Model()]
  }

  /** The states at the wake-ups of a scene. */
  function Witnessed(H: Hasher, start: Scene, events: seq<Happening>): seq<State>
    decreases events
  {
    if events == [] then [] else
      var before := events[..|events| - 1];
      Witnessed(H, start, before) +
      if events[|events| - 1].Wake? then [Play(H, start, before).state] else []
  }

  /** The subscriber of a scene is one that looked at the states of its wake-ups. */
  lemma {:induction false} PlayLooks(H: Hasher, start: Scene, events: seq<Happening>)
    ensures Play(H, start, events).sub == Looks(start.sub, Witnessed(H, start, events))
    decreases events
  {
    if events != [] {
      var before := events[..|events| - 1];
      PlayLooks(H, start, before);
      var states := Witnessed(H, start, before);
      if events[|events| - 1].Wake? {
        assert (states + [Play(H, start, before).state])[..|states|] == states;
      } else {
        assert states + [] == states;
      }
    }
  }

  lemma {:induction false} ClosedStays(sub: Subscriber, states: seq<State>, k: nat)
    requires k <= |states| && Looks(sub, states[..k]).closed
    ensures Looks(sub, states) == Looks(sub, states[..k])
    decreases |states| - k
  {
    if k == |states| {
      assert states[..k] == states;
    } else {
      assert states[..k + 1][..k] == states[..k];
      ClosedStays(sub, states, k + 1);
    }
  }

  lemma Follows(a: seq<FileUpdate>, b: seq<FileUpdate>, c: seq<FileUpdate>)
    ensures (a + b) + c == a + (b + c)
  {
  }

  lemma CutShort(a: seq<FileUpdate>, b: seq<FileUpdate>, k: nat)
    requires k <= |b|
    ensures a + b[..k] <= a + b
  {
  }

  // ---- what the client makes of it ----

  /** What a client knows that files each digest under the name it came with, and forgets a file announced deleted. */
  function Keep(known: map<string, string>, received: seq<FileUpdate>): map<string, string>
    decreases received
  {
    if received == [] then known else
      var before, last := Keep(known, received[..|received| - 1]), received[|received| - 1];
      if last.deleted then before - {last.filename} else before[last.filename := last.hash]
  }

  lemma {:induction false} KeepMore(known: map<string, string>, a: seq<FileUpdate>, b: seq<FileUpdate>)
    ensures Keep(known, a + b) == Keep(Keep(known, a), b)
    decreases b
  {
    if b == [] {
      assert a + b == a;
    } else {
      assert (a + b)[..|a + b| - 1] == a + b[..|b| - 1];
      KeepMore(known, a, b[..|b| - 1]);
    }
  }

  function Hashes(files: FileList): map<string, string> {
    map f | f in files :: files[f].hash
  }

  /** Entries are filed under their own names, and none is marked deleted. */
  ghost predicate OwnNames(files: FileList) {
    forall f :: f in files ==> files[f].filename == f && !files[f].deleted
  }

  ghost predicate AllOwn(batches: seq<FileList>) {
    forall i :: 0 <= i < |batches| ==> OwnNames(batches[i])
  }

  /** A notice for each name, in their order. */
  predicate Tells(updates: seq<FileUpdate>, names: seq<string>, batch: FileList) {
    |updates| == |names| && forall i :: 0 <= i < |names| ==>
      names[i] in batch && updates[i] == FileUpdate(names[i], batch[names[i]].hash, false)
  }

  function Part(names: seq<string>, batch: FileList): map<string, string> {
    map f | f in names && f in batch :: batch[f].hash
  }

  lemma {:induction false} KeepPart(known: map<string, string>, updates: seq<FileUpdate>, names: seq<string>,
                                    batch: FileList)
    requires Tells(updates, names, batch)
    ensures Keep(known, updates) == known + Part(names, batch)
    decreases names
  {
    if names == [] {
      assert known + Part(names, batch) == known;
    } else {
      var k := |names| - 1;
      KeepPart(known, updates[..k], names[..k], batch);
      assert names == names[..k] + [names[k]];
      PartLast(known, names[..k], names[k], batch);
    }
  }

  lemma PartLast(known: map<string, string>, names: seq<string>, f: string, batch: FileList)
    requires f in batch
    ensures known + Part(names + [f], batch) == (known + Part(names, batch))[f := batch[f].hash]
  {
  }

  /** A batch, sent entry by entry in any order, leaves the client with its digests. */
  lemma KeepBatch(known: map<string, string>, found: seq<UserFile>, batch: FileList)
    requires ListsSome(found, batch) && OwnNames(batch)
    ensures Keep(known, Updates(found)) == known + Hashes(batch)
  {
    var names :| Lists(names, found, batch);
    assert Tells(Updates(found), names, batch);
    KeepPart(known, Updates(found), names, batch);
    assert Part(names, batch) == Hashes(batch);
  }

  lemma UpdatesMore(a: seq<UserFile>, b: seq<UserFile>)
    ensures Updates(a + b) == Updates(a) + Updates(b)
  {
  }

  lemma HashesLater(known: map<string, string>, a: FileList, b: FileList)
    ensures known + Hashes(a + b) == known + Hashes(a) + Hashes(b)
  {
  }

  /** Everything that is sent leaves the client with the digests of its view. */
  lemma {:induction false} ReceivedIsView(known: map<string, string>, sent: seq<seq<UserFile>>, batches: seq<FileList>)
    requires ListsAll(sent, batches) && AllOwn(batches)
    ensures Keep(known, Updates(Flat(sent))) == known + Hashes(View(batches))
    decreases batches
  {
    if batches == [] {
      assert Updates(Flat(sent)) == [];
      assert Hashes(View(batches)) == map[];
    } else {
      var n := |batches| - 1;
      ReceivedIsView(known, sent[..n], batches[..n]);
      assert sent == sent[..n] + [sent[n]] && batches == batches[..n] + [batches[n]];
      assert ListsSome(sent[n], batches[n]) && OwnNames(batches[n]);
      ReceivedMore(known, sent[..n], sent[n], batches[..n], batches[n]);
    }
  }

  lemma ReceivedMore(known: map<string, string>, sent: seq<seq<UserFile>>, found: seq<UserFile>,
                     batches: seq<FileList>, batch: FileList)
    requires Keep(known, Updates(Flat(sent))) == known + Hashes(View(batches))
    requires ListsSome(found, batch) && OwnNames(batch)
    ensures Keep(known, Updates(Flat(sent + [found]))) == known + Hashes(View(batches + [batch]))
  {
    assert (sent + [found])[..|sent|] == sent;
    assert Flat(sent + [found]) == Flat(sent) + found;
    UpdatesMore(Flat(sent), found);
    KeepMore(known, Updates(Flat(sent)), Updates(found));
    KeepBatch(Keep(known, Updates(Flat(sent))), found, batch);
    ViewSnoc(batches, batch);
    HashesLater(known, View(batches), batch);
  }

  ghost predicate Plain(s: State) {
    forall u :: OwnNames(s.FilesOf(u))
  }

  /** Memory that agrees with the disk has its entries under their own names. */
  lemma CoupledPlain(H: Hasher, s: State, t: Tree)
    requires Coupled(H, s, t)
    ensures Plain(s)
  {
    forall u ensures OwnNames(s.FilesOf(u)) {
      if u in s.files {
        assert FolderMatches(H, s.passwords[u], s.FilesOf(u), t[u].files);
      }
    }
  }

  lemma NextPlain(H: Hasher, c: Change, tid: nat, s: State)
    requires Plain(s)
    ensures Plain(NextState(H, c, tid, s))
  {
    var s' := NextState(H, c, tid, s);
    forall u ensures OwnNames(s'.FilesOf(u)) {
      assert OwnNames(s.FilesOf(u));
      if c.FileChange? && c.username == u {
        var f := c.filename;
        var entry := UserFile(f, Digest(H, c.content), tid, AsInt(|c.content|), false);
        assert s'.FilesOf(u) == if c.deleted then s.FilesOf(u) - {f} else s.FilesOf(u)[f := entry];
      }
    }
  }

  lemma {:induction false} PlayPlain(H: Hasher, start: Scene, events: seq<Happening>)
    requires Plain(start.state) && AllOwn(start.sub.batches)
    ensures Plain(Play(H, start, events).state) && AllOwn(Play(H, start, events).sub.batches)
    decreases events
  {
    if events != [] {
      PlayPlain(H, start, events[..|events| - 1]);
      var w := Play(H, start, events[..|events| - 1]);
      match events[|events| - 1] {
        case Commit(c, tid) => NextPlain(H, c, tid, w.state);
        case Wake => SincePlain(w.state, w.sub.user, w.sub.cursor);
      }
    }
  }

  lemma SincePlain(s: State, user: string, tid: int)
    requires Plain(s)
    ensures OwnNames(s.FilesSince(user, tid))
  {
    assert OwnNames(s.FilesOf(user));
  }

  /** Right after a wake-up a client that keeps what it receives holds, of every file uploaded last since the
      subscription, the digest of that upload under the file's name; and it holds no file that nobody touched since. */
  lemma ReceivedComplete(H: Hasher, start: Scene, events: seq<Happening>, sent: seq<seq<UserFile>>, f: string)
    requires Subscribed(start) && Plain(start.state) && Rising(H, start, events)
    requires var w := Play(H, start, events); w.state.IsSessionValid(w.sub.session) && !w.sub.closed
    requires ListsAll(sent, Play(H, start, events + [Wake]).sub.batches)
    ensures var known := Keep(map[], Updates(Flat(sent)));
      match LastChange(events, start.sub.user, f)
      case Untouched => f !in known
      case Uploaded(content) => f in known && known[f] == Digest(H, content)
      case Deleted => true
  {
    var w := Play(H, start, events + [Wake]);
    FeedKeeps(H, start, events);
    PlayMore(H, start, events, Wake);
    FeedComplete(H, start, events, f);
    PlayPlain(H, start, events + [Wake]);
    ReceivedIsView(map[], sent, w.sub.batches);
    assert w.sub.user == start.sub.user;
  }

  /** Once a subscriber wakes without its session, nothing more is sent to it. */
  lemma SilentAfterSession(sub: Subscriber, states: seq<State>, k: nat)
    requires k < |states| && states[k].lastTid > Looks(sub, states[..k]).cursor
    requires sub.session !in states[k].sessions
    ensures Looks(sub, states).closed && Looks(sub, states).batches == Looks(sub, states[..k]).batches
  {
    LooksSnoc(sub, states, k);
    SessionStays(sub, states[..k]);
    ClosedStays(sub, states, k + 1);
  }

  lemma {:induction false} SessionStays(sub: Subscriber, states: seq<State>)
    ensures Looks(sub, states).session == sub.session && Looks(sub, states).user == sub.user
    decreases states
  {
    if states != [] {
      SessionStays(sub, states[..|states| - 1]);
    }
  }

  // ---- the loop ----

  method SendAll(peer: Peer, found: seq<UserFile>) returns (ok: bool)
    modifies peer
    ensures ok <==> |found| <= old(peer.room)
    ensures ok ==> peer.received == old(peer.received) + Updates(found) && peer.room == old(peer.room) - |found|
    ensures !ok ==>
              && peer.room == 0 && old(peer.room) < |found|
              && peer.received == old(peer.received) + Updates(found)[..old(peer.room)]
  {
    for i := 0 to |found|
      invariant i <= old(peer.room) && peer.room == old(peer.room) - i
      invariant peer.received == old(peer.received) + Updates(found)[..i]
    {
      ok := peer.Send(Update(found[i]));
      if !ok {
        return;
      }
    }
    return true;
  }

  /** A subscription that goes on, at the cursor of the loop. */
  predicate OpenAt(sub: Subscriber, user: string, session: int, tid: nat) {
    sub.user == user && sub.session == session && sub.cursor == tid && !sub.closed
  }

  /** One wake-up: nothing new, or the session is gone, or the changed files are sent. */
  method WakeUp(state: ServerState, user: string, session: int, tid: nat, peer: Peer, ghost sub: Subscriber)
    returns (cursor: nat, closed: bool, ok: bool, found: seq<UserFile>)
    requires OpenAt(sub, user, session, tid)
    modifies peer
    ensures closed == Look(sub, state.Model()).closed && cursor == Look(sub, state.Model()).cursor
    ensures cursor == tid ==>
              Look(sub, state.Model()).batches == sub.batches && ok && peer.received == old(peer.received)
    ensures cursor != tid ==>
              && Look(sub, state.Model()).batches == sub.batches + [state.Model().FilesSince(user, tid)]
              && ListsSome(found, state.Model().FilesSince(user, tid))
    ensures ok ==> peer.received == old(peer.received) + Updates(found)
    ensures !ok ==> peer.room == 0 && peer.received <= old(peer.received) + Updates(found)
  {
    cursor, closed, ok, found := tid, false, true, [];
    assert peer.received == peer.received + Updates([]);
    if state.lastTid > tid {
      if !state.Model().IsSessionValid(session) {
        closed := true;
        return;
      }
      var names;
      found, names := state.GetUserFilesSince(user, tid);
      assert Lists(names, found, state.Model().FilesSince(user, tid));
      ghost var room := peer.room;
      ok := SendAll(peer, found);
      if !ok {
        CutShort(old(peer.received), Updates(found), room);
      }
      cursor := state.lastTid;
    }
  }

  lemma OneMore(sent: seq<seq<UserFile>>, found: seq<UserFile>, batches: seq<FileList>, batch: FileList)
    requires ListsAll(sent, batches) && ListsSome(found, batch)
    ensures ListsAll(sent + [found], batches + [batch])
    ensures Updates(Flat(sent + [found])) == Updates(Flat(sent)) + Updates(found)
  {
    assert (sent + [found])[..|sent|] == sent;
    assert Flat(sent + [found]) == Flat(sent) + found;
  }

  lemma LooksSnoc(sub: Subscriber, states: seq<State>, i: nat)
    requires i < |states|
    ensures Looks(sub, states[..i + 1]) == Look(Looks(sub, states[..i]), states[i])
  {
    assert states[..i + 1][..i] == states[..i];
  }

  /** `seen` are the states at the wake-ups. What is sent lists the batches of the subscription one after the other; if
      the connection fails, what was received is cut short there. */
  method HandleSubscribe(first: ServerState, seen: seq<ServerState>, user: string, session: int, peer: Peer)
    returns (ok: bool, ghost sent: seq<seq<UserFile>>, upTo: nat)
    modifies peer
    ensures upTo <= |seen|
    ensures ListsAll(sent, Looks(Subscribe(user, session, old(first.Model())), old(Models(seen))[..upTo]).batches)
    ensures ok ==>
              && Looks(Subscribe(user, session, old(first.Model())), old(Models(seen)))
                 == Looks(Subscribe(user, session, old(first.Model())), old(Models(seen))[..upTo])
              && peer.received == old(peer.received) + Updates(Flat(sent))
    ensures !ok ==> peer.room == 0 && peer.received <= old(peer.received) + Updates(Flat(sent))
    ensures ok && AllOwn(Looks(Subscribe(user, session, old(first.Model())), old(Models(seen))).batches) ==>
              Keep(map[], peer.received)
              == Keep(map[], old(peer.received))
                 + Hashes(View(Looks(Subscribe(user, session, old(first.Model())), old(Models(seen))).batches))
  {
    ghost var start, states, received := Subscribe(user, session, first.Model()), Models(seen), peer.received;
    var tid := first.lastTid;
    sent, upTo := [], 0;
    while upTo < |seen|
      invariant upTo <= |seen|
      invariant OpenAt(Looks(start, states[..upTo]), user, session, tid)
      invariant ListsAll(sent, Looks(start, states[..upTo]).batches)
      invariant peer.received == received + Updates(Flat(sent))
    {
      LooksSnoc(start, states, upTo);
      ghost var sub := Looks(start, states[..upTo]);
      assert states[upTo] == seen[upTo].Model();
      var cursor, closed, stillOpen, found := WakeUp(seen[upTo], user, session, tid, peer, sub);
      upTo := upTo + 1;
      if cursor != tid {
        OneMore(sent, found, sub.batches, states[upTo - 1].FilesSince(user, tid));
        Follows(received, Updates(Flat(sent)), Updates(found));
        sent := sent + [found];
      }
      if closed {
        ClosedStays(start, states, upTo);
      }
      if closed || !stillOpen {
        if AllOwn(Looks(start, states[..upTo]).batches) {
          KeepMore(map[], received, Updates(Flat(sent)));
          ReceivedIsView(Keep(map[], received), sent, Looks(start, states[..upTo]).batches);
        }
        return stillOpen, sent, upTo;
      }
      tid := cursor;
    }
    assert states[..upTo] == states;
    if AllOwn(Looks(start, states).batches) {
      KeepMore(map[], received, Updates(Flat(sent)));
      ReceivedIsView(Keep(map[], received), sent, Looks(start, states).batches);
    }
    ok := true;
  }
}
