/** Whole histories of one server: transactions that commit, transactions that abort, and stops at any point
    inside a transaction followed by a start-up. */
module History {
  import opened Disk
  import opened Records
  import opened Text
  import opened Changes
  import opened Coupling
  import opened Recovery
  import opened Crash

  datatype Local = Local(state: State, tree: Tree)

  const EmptyServer := Local(EmptyState, map[])

  datatype Event =
    | Finished(change: Change, tid: nat, commit: bool)
    | Stopped(change: Change, tid: nat, commit: bool, found: Tree)

  /** The outcome the code can give: only a prepared transaction commits. */
  predicate Commits(e: Event, l: Local) {
    e.commit && Prepares(e.change, l.state)
  }

  /** A stop leaves a disk a crash can leave, and the server starts again only if start-up does not throw. */
  ghost predicate Possible(H: Hasher, e: Event, l: Local) {
    && Admissible(e.change, l.state)
    && (e.Stopped? ==>
          && CrashState(l.tree, LifeOps(H, e.change, e.tid, l.state, l.tree, Commits(e, l)), e.found)
          && !InitThrows(e.found))
  }

  function After(H: Hasher, e: Event, l: Local): Local {
    match e
    case Finished(c, tid, _) =>
      Local(if Commits(e, l) then NextState(H, c, tid, l.state) else l.state,
            Run(l.tree, LifeOps(H, c, tid, l.state, l.tree, Commits(e, l))))
    case Stopped(_, _, _, found) => Local(Recovered(H, found), Visible(found))
  }

  lemma AfterState(H: Hasher, e: Event, l: Local)
    requires e.Finished?
    ensures After(H, e, l).state == if Commits(e, l) then NextState(H, e.change, e.tid, l.state) else l.state
  {
  }

  ghost predicate Runs(H: Hasher, l: Local, es: seq<Event>)
    decreases es
  {
    es == [] || (Possible(H, es[0], l) && Runs(H, After(H, es[0], l), es[1..]))
  }

  function End(H: Hasher, l: Local, es: seq<Event>): Local
    decreases es
  {
    if es == [] then l else End(H, After(H, es[0], l), es[1..])
  }

  lemma NextUserTid(H: Hasher, c: Change, tid: nat, s: State, u: string)
    requires u in s.usersLastTid
    ensures var s' := NextState(H, c, tid, s); u in s'.usersLastTid && s'.usersLastTid[u] == s.usersLastTid[u]
  {
  }

  lemma UserTidKept(H: Hasher, e: Event, l: Local, u: string)
    requires e.Finished? && u in l.state.usersLastTid
    ensures var s := After(H, e, l).state; u in s.usersLastTid && s.usersLastTid[u] == l.state.usersLastTid[u]
  {
    AfterState(H, e, l);
    NextUserTid(H, e.change, e.tid, l.state, u);
  }

  /** The tid kept for a user is that of the first transaction: once there it never changes, as long as the server is
      not started again. */
  lemma {:induction false} UserTidIsFirst(H: Hasher, l: Local, es: seq<Event>, u: string)
    requires u in l.state.usersLastTid && forall i :: 0 <= i < |es| ==> es[i].Finished?
    ensures u in End(H, l, es).state.usersLastTid
    ensures End(H, l, es).state.usersLastTid[u] == l.state.usersLastTid[u]
    decreases es
  {
    if es != [] {
      UserTidKept(H, es[0], l, u);
      UserTidIsFirst(H, After(H, es[0], l), es[1..], u);
    }
  }

  /** A commit gives a tid to no name but that of its user; the removal of a session gives it to the empty name. */
  lemma UserTidGiven(H: Hasher, c: Change, tid: nat, s: State, u: string)
    requires u !in s.usersLastTid && u in NextState(H, c, tid, s).usersLastTid
    ensures NextState(H, c, tid, s).usersLastTid[u] == tid
    ensures (c.CreateUser? && c.username == u) || (c.CreateSession? && c.username == u) || (c.RemoveSession? && u == "")
  {
  }

  /** Coupling of users and folders does not look at the tid entry. */
  lemma UsersCarry(H: Hasher, rb: State, vb: Tree, r: State, v: Tree)
    requires UsersOnDisk(H, rb, vb) && NothingElse(rb, vb)
    requires r.passwords == rb.passwords && r.files == rb.files && TID_FILE !in r.passwords
    requires v - {TID_FILE} == vb - {TID_FILE}
    ensures UsersOnDisk(H, r, v) && NothingElse(r, v)
  {
    forall n | n != TID_FILE ensures n in v <==> n in vb ensures n in v ==> v[n] == vb[n] {
      assert n in v - {TID_FILE} <==> n in v;
      assert n in vb - {TID_FILE} <==> n in vb;
    }
    forall u | u in r.passwords
      ensures IsFolder(v, u) && !Tilde(u) && FolderMatches(H, r.passwords[u], r.FilesOf(u), v[u].files)
    {
      assert r.FilesOf(u) == rb.FilesOf(u);
    }
  }

  /** A whole disk starts up into a coupled server. */
  lemma StartCoupled(H: Hasher, s: State, b: Tree, found: Tree, n: nat)
    requires Coupled(H, s, b) && Body(found) == Body(b)
    requires TID_FILE in found ==> found[TID_FILE] == File(Show(n))
    ensures Coupled(H, Recovered(H, found), Visible(found))
  {
    RestartCoupled(H, s, b);
    BodyDecides(H, found, b);
    UsersCarry(H, Recovered(H, b), Visible(b), Recovered(H, found), Visible(found));
    assert !Tilde(TID_FILE);
    ParseShow(n);
  }

  lemma StopCoupled(H: Hasher, e: Event, l: Local)
    requires Coupled(H, l.state, l.tree) && Possible(H, e, l) && e.Stopped?
    ensures Coupled(H, After(H, e, l).state, After(H, e, l).tree)
  {
    var c, s, t := e.change, l.state, l.tree;
    CrashAtomic(H, c, e.tid, s, t, Commits(e, l), e.found);
    var n := if TID_FILE in e.found && e.found[TID_FILE] == File(Show(e.tid)) then e.tid else s.lastTid;
    if Body(e.found) == Body(t) {
      StartCoupled(H, s, t, e.found, n);
    } else {
      TopUnseen(t, TID_FILE, File(Show(e.tid)));
      ReadyPrepares(H, c, s, t);
      CommitCoupled(H, c, e.tid, s, t);
      StartCoupled(H, NextState(H, c, e.tid, s), CommittedTree(c, e.tid, t), e.found, n);
    }
  }

  /** A finished transaction: the next state and the committed disk, or the old state and the aborted disk. */
  lemma Finishes(H: Hasher, e: Event, l: Local)
    requires Coupled(H, l.state, l.tree) && Possible(H, e, l) && e.Finished?
    ensures After(H, e, l) ==
            if Commits(e, l)
            then Local(NextState(H, e.change, e.tid, l.state), CommittedTree(e.change, e.tid, l.tree))
            else Local(l.state, AbortedTree(e.change, l.state, l.tree))
  {
    if Commits(e, l) {
      CommitDisk(H, e.change, e.tid, l.state, l.tree);
    } else {
      AbortDisk(H, e.change, e.tid, l.state, l.tree);
    }
  }

  lemma AfterCoupled(H: Hasher, e: Event, l: Local)
    requires Coupled(H, l.state, l.tree) && Possible(H, e, l)
    ensures Coupled(H, After(H, e, l).state, After(H, e, l).tree)
  {
    if e.Stopped? {
      StopCoupled(H, e, l);
    } else if Commits(e, l) {
      CommitDisk(H, e.change, e.tid, l.state, l.tree);
      CommitCoupled(H, e.change, e.tid, l.state, l.tree);
    } else {
      AbortDisk(H, e.change, e.tid, l.state, l.tree);
      AbortCoupled(H, e.change, l.state, l.tree);
    }
  }

  /** Memory and disk are coupled at the end of every history. */
  lemma {:induction false} HistoryCoupled(H: Hasher, l: Local, es: seq<Event>)
    requires Coupled(H, l.state, l.tree) && Runs(H, l, es)
    ensures Coupled(H, End(H, l, es).state, End(H, l, es).tree)
    decreases es
  {
    if es != [] {
      AfterCoupled(H, es[0], l);
      HistoryCoupled(H, After(H, es[0], l), es[1..]);
    }
  }

  /** A history in which no CreateUser meets an existing user. */
  ghost predicate NoRefusedUser(H: Hasher, l: Local, es: seq<Event>)
    decreases es
  {
    es == [] ||
    (!(es[0].change.CreateUser? && l.state.HasUser(es[0].change.username)) &&
     NoRefusedUser(H, After(H, es[0], l), es[1..]))
  }

  lemma AfterTidy(H: Hasher, e: Event, l: Local)
    requires Coupled(H, l.state, l.tree) && NoLeftovers(l.tree) && Possible(H, e, l)
    requires !(e.change.CreateUser? && l.state.HasUser(e.change.username))
    ensures NoLeftovers(After(H, e, l).tree)
  {
    if e.Finished? && Commits(e, l) {
      CommitDisk(H, e.change, e.tid, l.state, l.tree);
      assert !Tilde(TID_FILE);
    } else if e.Finished? {
      AbortUndoes(H, e.change, e.tid, l.state, l.tree);
    }
  }

  /** Then no staging name is left at the end, and start-up works. */
  lemma {:induction false} HistoryStarts(H: Hasher, l: Local, es: seq<Event>)
    requires Coupled(H, l.state, l.tree) && NoLeftovers(l.tree)
    requires Runs(H, l, es) && NoRefusedUser(H, l, es)
    ensures NoLeftovers(End(H, l, es).tree) && !InitThrows(End(H, l, es).tree)
    decreases es
  {
    if es != [] {
      AfterCoupled(H, es[0], l);
      AfterTidy(H, es[0], l);
      HistoryStarts(H, After(H, es[0], l), es[1..]);
    }
  }

  predicate LeftBehind(t: Tree, u: string) {
    PASSWORD_FILE in FilesIn(t, u + "~")
  }

  /** A user who exists and whose staged folder is still there. */
  ghost predicate Blocked(l: Local) {
    exists u :: u in l.state.passwords && LeftBehind(l.tree, u)
  }

  lemma BlockedThrows(l: Local)
    requires Blocked(l)
    ensures InitThrows(l.tree)
  {
    var u :| u in l.state.passwords && LeftBehind(l.tree, u);
    assert Tilde(u + "~") && u + "~" in l.tree && FilesIn(l.tree, u + "~") != map[];
  }

  lemma KeptByCommit(c: Change, tid: nat, t: Tree, u: string)
    requires LeftBehind(t, u) && !Tilde(u)
    requires c.CreateUser? ==> c.username != u
    requires c.CreateUser? || c.FileChange? ==> !Tilde(c.username)
    ensures LeftBehind(CommittedTree(c, tid, t), u)
  {
    StagedName(u, TID_FILE);
    assert Tilde(u + "~") && !Tilde(TID_FILE);
    if c.CreateUser? {
      StagedName(u, c.username);
    }
  }

  lemma KeptByAbort(c: Change, s: State, t: Tree, u: string)
    requires u in s.passwords
    requires LeftBehind(t, u) || (c.CreateUser? && c.username == u)
    ensures LeftBehind(AbortedTree(c, s, t), u)
  {
    if c.CreateUser? {
      StagedName(u, c.username);
    }
  }

  lemma UserStays(H: Hasher, c: Change, tid: nat, s: State, t: Tree, u: string)
    requires Coupled(H, s, t) && Admissible(c, s) && Prepares(c, s)
    requires u in s.passwords && LeftBehind(t, u)
    ensures u in NextState(H, c, tid, s).passwords && LeftBehind(CommittedTree(c, tid, t), u)
  {
    KeptByCommit(c, tid, t, u);
  }

  /** A refused CreateUser blocks the next start-up, and no finished transaction unblocks it. */
  lemma StaysBlocked(H: Hasher, e: Event, l: Local)
    requires Coupled(H, l.state, l.tree) && Possible(H, e, l) && e.Finished?
    requires Blocked(l) || (e.change.CreateUser? && l.state.HasUser(e.change.username))
    ensures Blocked(After(H, e, l))
  {
    var l', c := After(H, e, l), e.change;
    var u :| u in l.state.passwords && (LeftBehind(l.tree, u) || (c.CreateUser? && c.username == u));
    Finishes(H, e, l);
    if Commits(e, l) {
      UserStays(H, c, e.tid, l.state, l.tree, u);
    } else {
      KeptByAbort(c, l.state, l.tree, u);
    }
    assert u in l'.state.passwords && LeftBehind(l'.tree, u);
  }

  ghost predicate AllFinished(es: seq<Event>) {
    forall i :: 0 <= i < |es| ==> es[i].Finished?
  }

  lemma {:induction false} BlockedForGood(H: Hasher, l: Local, es: seq<Event>)
    requires Coupled(H, l.state, l.tree) && Runs(H, l, es) && AllFinished(es) && Blocked(l)
    ensures Blocked(End(H, l, es))
    decreases es
  {
    if es != [] {
      AfterCoupled(H, es[0], l);
      StaysBlocked(H, es[0], l);
      BlockedForGood(H, After(H, es[0], l), es[1..]);
    }
  }

  lemma BlockedFromHere(H: Hasher, l: Local, es: seq<Event>)
    requires Coupled(H, l.state, l.tree) && Runs(H, l, es) && AllFinished(es)
    requires es != [] && es[0].change.CreateUser? && l.state.HasUser(es[0].change.username)
    ensures Blocked(End(H, l, es))
  {
    AfterCoupled(H, es[0], l);
    StaysBlocked(H, es[0], l);
    BlockedForGood(H, After(H, es[0], l), es[1..]);
  }

  lemma {:induction false} RefusedUserBlocks(H: Hasher, l: Local, es: seq<Event>)
    requires Coupled(H, l.state, l.tree) && Runs(H, l, es) && AllFinished(es) && !NoRefusedUser(H, l, es)
    ensures Blocked(End(H, l, es))
    decreases es
  {
    if es[0].change.CreateUser? && l.state.HasUser(es[0].change.username) {
      BlockedFromHere(H, l, es);
    } else {
      AfterCoupled(H, es[0], l);
      RefusedUserBlocks(H, After(H, es[0], l), es[1..]);
    }
  }

  /** After any history of finished transactions the server can be started again exactly when no CreateUser
      met an existing user, as happens when one new user signs up twice at the same time. */
  lemma StartsAgain(H: Hasher, es: seq<Event>)
    requires Runs(H, EmptyServer, es) && AllFinished(es)
    ensures !InitThrows(End(H, EmptyServer, es).tree) <==> NoRefusedUser(H, EmptyServer, es)
  {
    assert Coupled(H, EmptyState, map[]);
    if NoRefusedUser(H, EmptyServer, es) {
      HistoryStarts(H, EmptyServer, es);
    } else {
      RefusedUserBlocks(H, EmptyServer, es);
      BlockedThrows(End(H, EmptyServer, es));
    }
  }

  lemma SignUp(H: Hasher, u: string, p: string, tid: nat, l: Local)
    requires Coupled(H, l.state, l.tree) && GoodName(u) && p != "" && !l.state.HasUser(u) && u != TID_FILE
    ensures var e := Finished(CreateUser(u, p), tid, true); Possible(H, e, l) && After(H, e, l).state.HasUser(u)
  {
    Finishes(H, Finished(CreateUser(u, p), tid, true), l);
  }

  lemma TwoEvents(H: Hasher, l: Local, a: Event, b: Event)
    requires Possible(H, a, l) && Possible(H, b, After(H, a, l))
    ensures Runs(H, l, [a, b])
    ensures b.change.CreateUser? && After(H, a, l).state.HasUser(b.change.username) ==> !NoRefusedUser(H, l, [a, b])
  {
    assert [a, b][1..] == [b] && [b][1..] == [];
  }

  /** The smallest such history. */
  lemma SecondSignUp(H: Hasher)
    ensures var es := [Finished(CreateUser("ana", "x"), 1, true), Finished(CreateUser("ana", "y"), 2, true)];
      Runs(H, EmptyServer, es) && !NoRefusedUser(H, EmptyServer, es)
  {
    assert GoodName("ana") && Coupled(H, EmptyState, map[]);
    SignUp(H, "ana", "x", 1, EmptyServer);
    TwoEvents(H, EmptyServer, Finished(CreateUser("ana", "x"), 1, true), Finished(CreateUser("ana", "y"), 2, true));
  }

  /** A password of two words is cut to its first at the next start-up. */
  lemma TwoWordPassword(H: Hasher)
    ensures var es := [Finished(CreateUser("ana", "a b"), 1, true)];
      var l := End(H, EmptyServer, es);
      && Runs(H, EmptyServer, es) && l.state.CheckPassword("ana", "a b")
      && !InitThrows(l.tree) && !Recovers(H, l.state, l.tree) && !Recovered(H, l.tree).CheckPassword("ana", "a b")
  {
    var e := Finished(CreateUser("ana", "a b"), 1, true);
    assert [e][1..] == [] && GoodName("ana") && Coupled(H, EmptyState, map[]);
    SignUp(H, "ana", "a b", 1, EmptyServer);
    var l := After(H, e, EmptyServer);
    assert End(H, l, []) == l && Runs(H, l, []);
    assert End(H, EmptyServer, [e]) == l && Runs(H, EmptyServer, [e]);
    Finishes(H, e, EmptyServer);
    AfterCoupled(H, e, EmptyServer);
    RecoveryRoundTrip(H, l.state, l.tree);
    assert l.state.passwords == map["ana" := "a b"] && Space("a b"[1]);
    assert !NoSpace(l.state.passwords["ana"]);
    assert NoLeftovers(EmptyServer.tree);
    AfterTidy(H, e, EmptyServer);
  }

  /** A file called like a staging file is gone after the next start-up. */
  lemma TildeFile(H: Hasher)
    ensures var l := After(H, Finished(CreateUser("ana", "x"), 1, true), EmptyServer);
      var upload := FileChange("ana", "f~", false, "data");
      && Possible(H, Finished(CreateUser("ana", "x"), 1, true), EmptyServer)
      && Recovers(H, l.state, l.tree) && Accepts(upload, l.state)
      && Run(l.tree, LifeOps(H, upload, 2, l.state, l.tree, true)) == CommittedTree(upload, 2, l.tree)
      && !Recovers(H, NextState(H, upload, 2, l.state), CommittedTree(upload, 2, l.tree))
  {
    assert GoodName("ana") && Coupled(H, EmptyState, map[]);
    FirstUserRecovers(H, "x");
    var l := After(H, Finished(CreateUser("ana", "x"), 1, true), EmptyServer);
    Finishes(H, Finished(CreateUser("ana", "x"), 1, true), EmptyServer);
    assert l.tree["ana"] == Folder(map[PASSWORD_FILE := "x"]) && TID_STAGED !in l.tree;
    TildeUploadLost(H, "ana", l);
  }

  lemma TildeUploadLost(H: Hasher, u: string, l: Local)
    requires Coupled(H, l.state, l.tree) && Recovers(H, l.state, l.tree) && l.state.HasUser(u)
    requires IsFolder(l.tree, u) && TID_STAGED !in l.tree && FilesIn(l.tree, u).Keys == {PASSWORD_FILE}
    ensures var upload := FileChange(u, "f~", false, "data");
      && Accepts(upload, l.state)
      && Run(l.tree, LifeOps(H, upload, 2, l.state, l.tree, true)) == CommittedTree(upload, 2, l.tree)
      && !Recovers(H, NextState(H, upload, 2, l.state), CommittedTree(upload, 2, l.tree))
  {
    assert "f~"[1] == '~' && Tilde("f~") && Component("f~");
    assert "f~" + "~" != PASSWORD_FILE;
    CommitRecoverable(H, FileChange(u, "f~", false, "data"), 2, l.state, l.tree);
  }

  lemma FirstUserRecovers(H: Hasher, p: string)
    requires p != "" && NoSpace(p)
    ensures var e := Finished(CreateUser("ana", p), 1, true);
      var l := After(H, e, EmptyServer);
      && Possible(H, e, EmptyServer) && Coupled(H, l.state, l.tree) && Recovers(H, l.state, l.tree)
      && l.state.HasUser("ana")
  {
    var e := Finished(CreateUser("ana", p), 1, true);
    assert GoodName("ana") && Coupled(H, EmptyState, map[]);
    SignUp(H, "ana", p, 1, EmptyServer);
    Finishes(H, e, EmptyServer);
    AfterCoupled(H, e, EmptyServer);
    var l := After(H, e, EmptyServer);
    RecoveryRoundTrip(H, l.state, l.tree);
    assert l.state.passwords == map["ana" := p];
    assert NoLeftovers(EmptyServer.tree);
    AfterTidy(H, e, EmptyServer);
  }
}
