/** The change feed: a subscriber keeps a cursor, wakes when the last transaction id has passed it, and sends every
    file of its user that carries a later id. Commits and wake-ups interleave in any way. */
module Feed {
  import opened Records
  import opened Digests
  import opened Changes
  import opened Coupling
  import opened Memory
  import opened Reigns

  /** One subscription: the files sent at each wake-up, and whether it was closed because the session ended. */
  datatype Subscriber = Subscriber(user: string, session: int, cursor: nat, batches: seq<FileList>, closed: bool)

  /** The subscriber looks at the state. It goes on waiting unless the last id has passed its cursor. */
  function Look(sub: Subscriber, s: State): Subscriber {
    if sub.closed || s.lastTid <= sub.cursor then sub
    else if !s.IsSessionValid(sub.session) then sub.(closed := true)
    else sub.(batches := sub.batches + [s.FilesSince(sub.user, sub.cursor)], cursor := s.lastTid)
  }

  function Subscribe(user: string, session: int, s: State): Subscriber {
    Subscriber(user, session, s.lastTid, [], false)
  }

  datatype Happening = Commit(change: Change, tid: nat) | Wake

  datatype Scene = Scene(state: State, sub: Subscriber)

  function Advance(H: Hasher, w: Scene, e: Happening): Scene {
    match e
    case Commit(c, tid) => w.(state := NextState(H, c, tid, w.state))
    case Wake => w.(sub := Look(w.sub, w.state))
  }

  function Play(H: Hasher, start: Scene, events: seq<Happening>): Scene
    decreases events
  {
    if events == [] then start
    else Advance(H, Play(H, start, events[..|events| - 1]), events[|events| - 1])
  }

  /** Only accepted transactions commit, and in one reign their ids rise. */
  ghost predicate Rising(H: Hasher, start: Scene, events: seq<Happening>)
    decreases events
  {
    events == [] ||
    (var before, e := events[..|events| - 1], events[|events| - 1];
     && Rising(H, start, before)
     && (e.Commit? ==> Accepts(e.change, Play(H, start, before).state) && e.tid > Play(H, start, before).state.lastTid))
  }

  // ---- what happened, and what was received ----

  datatype Content = Untouched | Uploaded(content: string) | Deleted

  /** What the commits since the subscription last did to a file. */
  function LastChange(events: seq<Happening>, user: string, f: string): Content
    decreases events
  {
    if events == [] then Untouched else
      match events[|events| - 1]
      case Commit(FileChange(u, g, deleted, content), _) =>
        if u == user && g == f then if deleted then Deleted else Uploaded(content)
        else LastChange(events[..|events| - 1], user, f)
      case _ => LastChange(events[..|events| - 1], user, f)
  }

  /** What a client that keeps the latest notice of each file knows. */
  function View(batches: seq<FileList>): FileList
    decreases batches
  {
    if batches == [] then map[] else View(batches[..|batches| - 1]) + batches[|batches| - 1]
  }

  lemma ViewSnoc(batches: seq<FileList>, last: FileList)
    ensures View(batches + [last]) == View(batches) + last
  {
    assert (batches + [last])[..|batches|] == batches;
  }

  // ---- the invariant ----

  /** How the entry of a file reflects the commits since the subscription. */
  predicate EntryOk(H: Hasher, first: nat, change: Content, table: FileList, f: string) {
    match change
    case Untouched => f in table ==> table[f].lastTid <= first
    case Uploaded(content) => f in table && table[f].lastTid > first && table[f].hash == Digest(H, content)
    case Deleted => f !in table
  }

  /** How the received notices reflect the table, up to the cursor. */
  predicate ViewOk(first: nat, cursor: nat, change: Content, table: FileList, view: FileList, f: string) {
    && (f in view ==> change != Untouched && first < view[f].lastTid <= cursor)
    && (f in table && first < table[f].lastTid <= cursor ==> f in view && view[f] == table[f])
  }

  ghost predicate Entries(H: Hasher, first: nat, events: seq<Happening>, w: Scene) {
    forall f :: EntryOk(H, first, LastChange(events, w.sub.user, f), w.state.FilesOf(w.sub.user), f)
  }

  ghost predicate Views(first: nat, events: seq<Happening>, w: Scene) {
    forall f :: ViewOk(first, w.sub.cursor, LastChange(events, w.sub.user, f),
                       w.state.FilesOf(w.sub.user), View(w.sub.batches), f)
  }

  ghost predicate FeedInv(H: Hasher, start: Scene, events: seq<Happening>) {
    var w, first := Play(H, start, events), start.state.lastTid;
    && Numbered(w.state)
    && first <= w.sub.cursor <= w.state.lastTid && w.sub.user == start.sub.user
    && Entries(H, first, events, w)
    && Views(first, events, w)
  }

  /** A subscription just made. */
  ghost predicate Subscribed(start: Scene) {
    start.sub == Subscribe(start.sub.user, start.sub.session, start.state) && Numbered(start.state)
  }

  lemma CommitEntry(H: Hasher, first: nat, cursor: nat, s: State, c: Change, tid: nat, user: string, f: string,
                    before: Content, after: Content, view: FileList)
    requires first <= cursor <= s.lastTid < tid && Accepts(c, s)
    requires EntryOk(H, first, before, s.FilesOf(user), f) && ViewOk(first, cursor, before, s.FilesOf(user), view, f)
    requires after == match c
                      case FileChange(u, g, deleted, content) =>
                        if u == user && g == f then if deleted then Deleted else Uploaded(content) else before
                      case _ => before
    ensures EntryOk(H, first, after, NextState(H, c, tid, s).FilesOf(user), f)
    ensures ViewOk(first, cursor, after, NextState(H, c, tid, s).FilesOf(user), view, f)
  {
  }

  lemma CommitStep(H: Hasher, start: Scene, events: seq<Happening>, c: Change, tid: nat)
    requires FeedInv(H, start, events) && Rising(H, start, events + [Commit(c, tid)])
    ensures FeedInv(H, start, events + [Commit(c, tid)])
  {
    var after := events + [Commit(c, tid)];
    assert after[..|events|] == events;
    var w, first := Play(H, start, events), start.state.lastTid;
    NextNumbered(H, c, tid, w.state);
    forall f
      ensures EntryOk(H, first, LastChange(after, w.sub.user, f), NextState(H, c, tid, w.state).FilesOf(w.sub.user), f)
      ensures ViewOk(first, w.sub.cursor, LastChange(after, w.sub.user, f),
                     NextState(H, c, tid, w.state).FilesOf(w.sub.user), View(w.sub.batches), f)
    {
      CommitEntry(H, first, w.sub.cursor, w.state, c, tid, w.sub.user, f,
                  LastChange(events, w.sub.user, f), LastChange(after, w.sub.user, f), View(w.sub.batches));
    }
  }

  lemma WakeStep(H: Hasher, start: Scene, events: seq<Happening>)
    requires FeedInv(H, start, events)
    ensures FeedInv(H, start, events + [Wake])
  {
    var after := events + [Wake];
    assert after[..|events|] == events;
    var w, first := Play(H, start, events), start.state.lastTid;
    var w' := Play(H, start, after);
    var user := w.sub.user;
    ViewSnoc(w.sub.batches, w.state.FilesSince(user, w.sub.cursor));
    forall f
      ensures EntryOk(H, first, LastChange(after, user, f), w'.state.FilesOf(user), f)
      ensures ViewOk(first, w'.sub.cursor, LastChange(after, user, f), w'.state.FilesOf(user), View(w'.sub.batches), f)
    {
      assert EntryOk(H, first, LastChange(events, user, f), w.state.FilesOf(user), f);
      assert ViewOk(first, w.sub.cursor, LastChange(events, user, f), w.state.FilesOf(user), View(w.sub.batches), f);
      assert f in w.state.FilesOf(user) ==> w.state.HasFile(user, f);
    }
  }

  lemma {:induction false} FeedKeeps(H: Hasher, start: Scene, events: seq<Happening>)
    requires Subscribed(start) && Rising(H, start, events)
    ensures FeedInv(H, start, events)
    decreases events
  {
    if events == [] {
      forall f | f in start.state.FilesOf(start.sub.user)
        ensures start.state.FilesOf(start.sub.user)[f].lastTid <= start.state.lastTid
      {
        assert start.state.HasFile(start.sub.user, f);
      }
    } else {
      var before, e := events[..|events| - 1], events[|events| - 1];
      assert events == before + [e];
      FeedKeeps(H, start, before);
      match e {
        case Commit(c, tid) => CommitStep(H, start, before, c, tid);
        case Wake => WakeStep(H, start, before);
      }
    }
  }

  // ---- what a subscriber can rely on ----

  /** Right after a wake-up the notices received so far give the current entry of exactly those present files that were
      uploaded since the subscription, with the digest of what was uploaded last. However many commits came between
      two wake-ups makes no difference. */
  lemma FeedComplete(H: Hasher, start: Scene, events: seq<Happening>, f: string)
    requires Subscribed(start) && Rising(H, start, events)
    requires var w := Play(H, start, events); w.state.IsSessionValid(w.sub.session) && !w.sub.closed
    ensures var w := Play(H, start, events + [Wake]);
      var table, view := w.state.FilesOf(w.sub.user), View(w.sub.batches);
      match LastChange(events, w.sub.user, f)
      case Untouched => f !in view
      case Uploaded(content) => f in view && f in table && view[f] == table[f] && view[f].hash == Digest(H, content)
      case Deleted => f !in table
  {
    var after := events + [Wake];
    assert after[..|events|] == events;
    FeedKeeps(H, start, events);
    WakeStep(H, start, events);
    var w := Play(H, start, after);
    var first, user := start.state.lastTid, w.sub.user;
    assert EntryOk(H, first, LastChange(after, user, f), w.state.FilesOf(user), f);
    assert ViewOk(first, w.sub.cursor, LastChange(after, user, f), w.state.FilesOf(user), View(w.sub.batches), f);
    assert f in w.state.FilesOf(user) ==> w.state.HasFile(user, f);
  }

  /** A file that was sent and then deleted stays in the client's view: deletions are not announced. The view is right
      about the present exactly when no file in it was deleted last. */
  lemma ViewTrueUnlessDeleted(H: Hasher, start: Scene, events: seq<Happening>)
    requires Subscribed(start) && Rising(H, start, events)
    requires var w := Play(H, start, events); w.state.IsSessionValid(w.sub.session) && !w.sub.closed
    ensures var w := Play(H, start, events + [Wake]);
      var table, view := w.state.FilesOf(w.sub.user), View(w.sub.batches);
      (forall f :: f in view ==> f in table && view[f] == table[f])
      <==> (forall f :: f in view ==> LastChange(events, w.sub.user, f) != Deleted)
  {
    var w := Play(H, start, events + [Wake]);
    forall f
      ensures match LastChange(events, w.sub.user, f)
              case Untouched => f !in View(w.sub.batches)
              case Uploaded(_) => f in w.state.FilesOf(w.sub.user) && f in View(w.sub.batches)
                                  && View(w.sub.batches)[f] == w.state.FilesOf(w.sub.user)[f]
              case Deleted => f !in w.state.FilesOf(w.sub.user)
    {
      FeedComplete(H, start, events, f);
    }
  }

  lemma PlayMore(H: Hasher, start: Scene, events: seq<Happening>, e: Happening)
    ensures Play(H, start, events + [e]) == Advance(H, Play(H, start, events), e)
  {
    assert (events + [e])[..|events|] == events;
  }

  lemma RisingMore(H: Hasher, start: Scene, events: seq<Happening>, e: Happening)
    requires Rising(H, start, events)
    requires e.Commit? ==>
               Accepts(e.change, Play(H, start, events).state) && e.tid > Play(H, start, events).state.lastTid
    ensures Rising(H, start, events + [e])
  {
    assert (events + [e])[..|events|] == events;
  }

  /** A file that is uploaded and noticed. */
  function Noticed(start: Scene, f: string, content: string): seq<Happening> {
    [] + [Commit(FileChange(start.sub.user, f, false, content), start.state.lastTid + 1)] + [Wake]
  }

  /** The scene right after the upload: the file is there, and newer than the cursor. */
  lemma UploadedNew(H: Hasher, start: Scene, f: string, content: string)
    requires start.sub.cursor == start.state.lastTid
    ensures var tid := start.state.lastTid + 1;
      var w := Advance(H, start, Commit(FileChange(start.sub.user, f, false, content), tid));
      && w.sub == start.sub && w.state.sessions == start.state.sessions && w.state.lastTid == tid
      && f in w.state.FilesSince(start.sub.user, start.sub.cursor)
  {
    var upload := FileChange(start.sub.user, f, false, content);
    assert NextState(H, upload, start.state.lastTid + 1, start.state).HasFile(start.sub.user, f);
  }

  lemma UploadNoticed(H: Hasher, start: Scene, f: string, content: string)
    requires start.sub == Subscribe(start.sub.user, start.sub.session, start.state)
    requires start.state.IsSessionValid(start.sub.session)
    ensures Rising(H, start, Noticed(start, f, content))
    ensures var w := Play(H, start, Noticed(start, f, content));
      && !w.sub.closed && w.sub.user == start.sub.user && w.sub.session == start.sub.session
      && f in View(w.sub.batches) && w.state.HasFile(start.sub.user, f)
      && w.state.sessions == start.state.sessions && w.state.lastTid == w.sub.cursor
  {
    var c := Commit(FileChange(start.sub.user, f, false, content), start.state.lastTid + 1);
    var w := Advance(H, start, c);
    UploadedNew(H, start, f, content);
    LookTakesIn(w.sub, w.state, f);
    PlayMore(H, start, [], c);
    PlayMore(H, start, [] + [c], Wake);
    RisingMore(H, start, [], c);
    RisingMore(H, start, [] + [c], Wake);
  }

  lemma LookTakesIn(sub: Subscriber, s: State, f: string)
    requires !sub.closed && sub.batches == [] && s.IsSessionValid(sub.session) && s.lastTid > sub.cursor
    requires f in s.FilesSince(sub.user, sub.cursor)
    ensures Look(sub, s) == sub.(batches := [s.FilesSince(sub.user, sub.cursor)], cursor := s.lastTid)
    ensures f in View(Look(sub, s).batches) && s.HasFile(sub.user, f)
  {
    ViewSnoc([], s.FilesSince(sub.user, sub.cursor));
    assert [] + [s.FilesSince(sub.user, sub.cursor)] == [s.FilesSince(sub.user, sub.cursor)];
  }

  lemma DeleteAndWake(H: Hasher, w: Scene, f: string, tid: nat)
    requires !w.sub.closed && w.state.HasFile(w.sub.user, f) && f in View(w.sub.batches)
    requires w.state.IsSessionValid(w.sub.session) && tid > w.sub.cursor
    ensures var c := Commit(FileChange(w.sub.user, f, true, ""), tid);
      var end := Advance(H, Advance(H, w, c), Wake);
      !end.sub.closed && f in View(end.sub.batches) && f !in end.state.FilesOf(w.sub.user) && end.sub.user == w.sub.user
  {
    var deleted := Advance(H, w, Commit(FileChange(w.sub.user, f, true, ""), tid));
    ViewSnoc(w.sub.batches, deleted.state.FilesSince(w.sub.user, w.sub.cursor));
  }

  lemma DeletedAfter(H: Hasher, start: Scene, events: seq<Happening>, f: string, tid: nat)
    requires var w := Play(H, start, events);
      && Rising(H, start, events) && !w.sub.closed && w.state.HasFile(w.sub.user, f) && f in View(w.sub.batches)
      && w.state.IsSessionValid(w.sub.session) && w.state.lastTid == w.sub.cursor < tid
    ensures var user := Play(H, start, events).sub.user;
      var longer := events + [Commit(FileChange(user, f, true, ""), tid)] + [Wake];
      var end := Play(H, start, longer);
      && Rising(H, start, longer) && !end.sub.closed
      && f in View(end.sub.batches) && f !in end.state.FilesOf(user) && end.sub.user == user
  {
    var w := Play(H, start, events);
    var delete := Commit(FileChange(w.sub.user, f, true, ""), tid);
    PlayMore(H, start, events, delete);
    PlayMore(H, start, events + [delete], Wake);
    RisingMore(H, start, events, delete);
    RisingMore(H, start, events + [delete], Wake);
    DeleteAndWake(H, w, f, tid);
  }

  /** In every subscription just made, a file that is uploaded, noticed, and then deleted stays in the view. */
  lemma DeletionUnannounced(H: Hasher, start: Scene, f: string, content: string)
    requires Subscribed(start) && start.state.IsSessionValid(start.sub.session)
    ensures var delete := Commit(FileChange(start.sub.user, f, true, ""), start.state.lastTid + 2);
      var events := Noticed(start, f, content) + [delete] + [Wake];
      var w := Play(H, start, events);
      && Rising(H, start, events) && !w.sub.closed
      && f in View(w.sub.batches) && f !in w.state.FilesOf(w.sub.user)
  {
    UploadNoticed(H, start, f, content);
    NoticedTid(H, start, f, content);
    DeletedAfter(H, start, Noticed(start, f, content), f, start.state.lastTid + 2);
  }

  lemma NoticedTid(H: Hasher, start: Scene, f: string, content: string)
    requires start.sub.cursor == start.state.lastTid
    ensures Play(H, start, Noticed(start, f, content)).state.lastTid == start.state.lastTid + 1
  {
    var c := Commit(FileChange(start.sub.user, f, false, content), start.state.lastTid + 1);
    PlayMore(H, start, [], c);
    PlayMore(H, start, [] + [c], Wake);
    UploadedNew(H, start, f, content);
    assert Play(H, start, []) == start;
  }

  /** What was sent is dated up to the cursor, and later batches are dated later. */
  ghost predicate Dated(cursor: nat, batches: seq<FileList>) {
    && (forall i, f :: 0 <= i < |batches| && f in batches[i] ==> batches[i][f].lastTid <= cursor)
    && (forall i, j, f, g :: 0 <= i < j < |batches| && f in batches[i] && g in batches[j] ==>
          batches[i][f].lastTid < batches[j][g].lastTid)
  }

  lemma {:induction false} FeedDated(H: Hasher, start: Scene, events: seq<Happening>)
    requires Subscribed(start) && Rising(H, start, events)
    ensures var sub := Play(H, start, events).sub; Dated(sub.cursor, sub.batches)
    decreases events
  {
    if events != [] {
      var before := events[..|events| - 1];
      FeedDated(H, start, before);
      FeedKeeps(H, start, before);
      var w := Play(H, start, before);
      forall f | f in w.state.FilesSince(w.sub.user, w.sub.cursor)
        ensures w.state.FilesOf(w.sub.user)[f].lastTid <= w.state.lastTid
      {
        assert w.state.HasFile(w.sub.user, f);
      }
    }
  }

  /** No version is sent twice: a file that is sent again has a later transaction id. */
  lemma NoVersionTwice(H: Hasher, start: Scene, events: seq<Happening>, i: nat, j: nat, f: string)
    requires Subscribed(start) && Rising(H, start, events)
    requires var batches := Play(H, start, events).sub.batches;
      i < j < |batches| && f in batches[i] && f in batches[j]
    ensures var batches := Play(H, start, events).sub.batches; batches[i][f].lastTid < batches[j][f].lastTid
  {
    FeedDated(H, start, events);
  }

  // ---- without rising ids ----

  lemma EntryStays(H: Hasher, c: Change, tid: nat, s: State, user: string, f: string)
    requires f in s.FilesOf(user) && !(c.FileChange? && c.username == user && c.filename == f)
    ensures var table := NextState(H, c, tid, s).FilesOf(user); f in table && table[f] == s.FilesOf(user)[f]
  {
  }

  lemma {:induction false} EntryKept(H: Hasher, start: Scene, events: seq<Happening>, f: string)
    requires f in start.state.FilesOf(start.sub.user)
    requires LastChange(events, start.sub.user, f) == Untouched
    ensures var w := Play(H, start, events);
      && w.sub.user == start.sub.user && w.sub.session == start.sub.session
      && f in w.state.FilesOf(start.sub.user)
      && w.state.FilesOf(start.sub.user)[f] == start.state.FilesOf(start.sub.user)[f]
    decreases events
  {
    if events != [] {
      var before, last := events[..|events| - 1], events[|events| - 1];
      EntryKept(H, start, before, f);
      if last.Commit? {
        EntryStays(H, last.change, last.tid, Play(H, start, before).state, start.sub.user, f);
      }
    }
  }

  /** The scene after the subscriber's user has uploaded a file. */
  function Uploading(H: Hasher, start: Scene, f: string, content: string, tid: nat): Scene {
    Advance(H, start, Commit(FileChange(start.sub.user, f, false, content), tid))
  }

  /** Whatever ids the coordinator gives: from any open subscription, after an upload and any commits that leave the
      file alone, while the subscriber has not taken anything in yet, its next look announces the upload if and only if
      the session is alive, the last id is then beyond the cursor, and the upload's own id was. */
  lemma AnnouncedIffBeyond(H: Hasher, start: Scene, f: string, content: string, tid: nat, events: seq<Happening>)
    requires !start.sub.closed && LastChange(events, start.sub.user, f) == Untouched
    requires Play(H, Uploading(H, start, f, content, tid), events).sub == start.sub
    ensures var w := Play(H, Uploading(H, start, f, content, tid), events);
      var before, after := start.sub.batches, Look(w.sub, w.state).batches;
      (|after| == |before| + 1 && after[..|before|] == before && f in after[|before|])
      <==> w.state.IsSessionValid(start.sub.session) && w.state.lastTid > start.sub.cursor && tid > start.sub.cursor
  {
    var first := Uploading(H, start, f, content, tid);
    assert first.state.HasFile(start.sub.user, f) && first.state.FilesOf(start.sub.user)[f].lastTid == tid;
    EntryKept(H, first, events, f);
    var w := Play(H, first, events);
    assert Look(w.sub, w.state).batches == start.sub.batches
           || Look(w.sub, w.state).batches
              == start.sub.batches + [w.state.FilesSince(start.sub.user, start.sub.cursor)];
  }

  /** A later commit under a lower id silences an upload whose own id was new. */
  lemma LowerIdSilences(H: Hasher, start: Scene, f: string, content: string)
    requires start.sub == Subscribe(start.sub.user, start.sub.session, start.state) && start.state.lastTid > 0
    ensures var tid := start.state.lastTid + 1;
      var events := [Commit(NewFrontend("host", 1), start.state.lastTid)];
      Look(start.sub, Play(H, Uploading(H, start, f, content, tid), events).state) == start.sub
  {
    var first := Uploading(H, start, f, content, start.state.lastTid + 1);
    var e := Commit(NewFrontend("host", 1), start.state.lastTid);
    assert [e][..0] == [] && Play(H, first, [e]) == Advance(H, first, e);
  }

  /** The entry is dated at or before the cursor. */
  predicate Passed(w: Scene, f: string, e: UserFile) {
    f in w.state.FilesOf(w.sub.user) && w.state.FilesOf(w.sub.user)[f] == e && e.lastTid <= w.sub.cursor
  }

  /** A version committed under an id the cursor has passed is never announced, whatever ids come later. */
  lemma {:induction false} PassedOver(H: Hasher, start: Scene, events: seq<Happening>, f: string, e: UserFile)
    requires Passed(start, f, e)
    requires LastChange(events, start.sub.user, f) == Untouched
    ensures var w := Play(H, start, events);
      && Passed(w, f, e) && w.sub.user == start.sub.user
      && |start.sub.batches| <= |w.sub.batches|
      && forall k :: |start.sub.batches| <= k < |w.sub.batches| ==> f !in w.sub.batches[k]
    decreases events
  {
    if events != [] {
      var before, last := events[..|events| - 1], events[|events| - 1];
      PassedOver(H, start, before, f, e);
      if last.Commit? {
        EntryStays(H, last.change, last.tid, Play(H, start, before).state, start.sub.user, f);
      }
    }
  }
}
