/** A node's database is the replay of its log: the state exactly, the disk up to staging entries. */
module Replay {
  import opened Options
  import opened Disk
  import opened Records
  import opened Text
  import opened Changes
  import opened Coupling
  import opened Recovery
  import opened History
  import opened TwoPhase

  /** The committed effect of a log, one entry after the other. */
  function Replayed(H: Hasher, start: Local, log: seq<Entry>): Local
    decreases log
  {
    if log == [] then start
    else
      var l, e := Replayed(H, start, log[..|log| - 1]), log[|log| - 1];
      Local(NextState(H, e.change, e.tid, l.state), CommittedTree(e.change, e.tid, l.tree))
  }

  lemma ReplaySnoc(H: Hasher, start: Local, log: seq<Entry>, e: Entry)
    ensures var l := Replayed(H, start, log);
      Replayed(H, start, log + [e]) ==
      Local(NextState(H, e.change, e.tid, l.state), CommittedTree(e.change, e.tid, l.tree))
  {
    assert (log + [e])[..|log + [e]| - 1] == log;
  }

  /** The disk of a node outside its active transaction. */
  function Base(n: Server): Tree {
    if n.current.Some? then n.current.value.base else n.tree
  }

  /** A node holds the replay of its log, coupled with its disk; an active transaction has run on it. */
  ghost predicate Faithful(H: Hasher, start: Local, n: Server) {
    && Coupled(H, n.state, Base(n))
    && n.state == Replayed(H, start, n.log).state
    && Visible(Base(n)) == Visible(Replayed(H, start, n.log).tree)
    && (n.current.Some? ==>
          var a := n.current.value;
          && Admissible(a.change, n.state)
          && a.ran == RunChange(H, a.change, a.tid, n.state, a.base)
          && n.tree == Run(a.base, a.ran.ops))
  }

  lemma VisiblePut(t: Tree, n: string, files: map<string, string>)
    requires !Tilde(n)
    ensures Visible(t[n := Folder(files)]) == Visible(t)[n := Folder(Seen(files))]
  {
  }

  lemma VisibleTid(t: Tree, tid: nat)
    ensures Visible(t[TID_FILE := File(Show(tid))]) == Visible(t)[TID_FILE := File(Show(tid))]
  {
    assert !Tilde(TID_FILE);
  }

  lemma SeenChange(files: map<string, string>, f: string, content: string)
    requires !Tilde(f)
    ensures Seen(files[f := content]) == Seen(files)[f := content] && Seen(files - {f}) == Seen(files) - {f}
  {
    assert Seen(files[f := content]) == Seen(files)[f := content];
    assert Seen(files - {f}) == Seen(files) - {f};
  }

  /** What start-up sees after a commit depends only on what it would have seen before. */
  function SeenCommit(c: Change, tid: nat, v: Tree): Tree {
    var b := v[TID_FILE := File(Show(tid))];
    match c
    case CreateUser(u, p) => b[u := Folder(map[PASSWORD_FILE := p])]
    case FileChange(u, f, true, _) => b[u := Folder(FilesIn(v, u) - {f})]
    case FileChange(u, f, false, content) => b[u := Folder(FilesIn(v, u)[f := content])]
    case _ => b
  }

  lemma VisibleCommit(c: Change, tid: nat, t: Tree)
    requires c.CreateUser? || c.FileChange? ==> !Tilde(c.username)
    requires c.FileChange? ==> !Tilde(c.filename)
    ensures Visible(CommittedTree(c, tid, t)) == SeenCommit(c, tid, Visible(t))
  {
    assert !Tilde(TID_FILE) && !Tilde(PASSWORD_FILE);
    VisibleTid(t, tid);
    var b := t[TID_FILE := File(Show(tid))];
    if c.CreateUser? {
      var u := c.username;
      assert Tilde(u + "~");
      VisiblePut(b - {u + "~"}, u, map[PASSWORD_FILE := c.password]);
      assert Visible(b - {u + "~"}) == Visible(b);
      assert Seen(map[PASSWORD_FILE := c.password]) == map[PASSWORD_FILE := c.password];
    } else if c.FileChange? {
      var files := FilesIn(t, c.username);
      assert FilesIn(Visible(t), c.username) == Seen(files);
      SeenChange(files, c.filename, c.content);
      VisiblePut(b, c.username, if c.deleted then files - {c.filename} else files[c.filename := c.content]);
    }
  }

  lemma VisibleAbort(c: Change, s: State, t: Tree)
    ensures Visible(AbortedTree(c, s, t)) == Visible(t)
  {
    if c.CreateUser? {
      assert Tilde(c.username + "~");
    }
    assert Visible(AbortedTree(c, s, t)) == Visible(t);
  }

  lemma RunFaithful(H: Hasher, start: Local, n: Server, c: Change, tid: nat)
    requires Faithful(H, start, n) && n.current.None? && Admissible(c, n.state)
    ensures Faithful(H, start, RunServer(H, n, c, tid))
    ensures RunServer(H, n, c, tid).current.value.ran.prepared == Prepares(c, n.state)
  {
    if Prepares(c, n.state) {
      RunPrepares(H, c, tid, n.state, n.tree);
    } else {
      RunFails(H, c, tid, n.state, n.tree);
    }
  }

  /** Ending a transaction keeps a node faithful: a commit appends it to the log, an abort leaves no trace. */
  lemma FinishFaithful(H: Hasher, start: Local, n: Server, commit: bool)
    requires Faithful(H, start, n) && n.current.Some?
    ensures Faithful(H, start, FinishServer(n, commit))
    ensures Applies(n.current.value, commit) <==> commit && n.current.value.ran.prepared
  {
    var a := n.current.value;
    var c, s, t := a.change, n.state, a.base;
    if Prepares(c, s) {
      RunPrepares(H, c, a.tid, s, t);
    } else {
      RunFails(H, c, a.tid, s, t);
    }
    var life := LifeOps(H, c, a.tid, s, t, commit && Prepares(c, s));
    RunAppend(t, a.ran.ops, FinishOps(c, a.ran, commit, n.tree));
    if commit && Prepares(c, s) {
      CommitDisk(H, c, a.tid, s, t);
      CommitCoupled(H, c, a.tid, s, t);
      ReplaySnoc(H, start, n.log, Entry(a.tid, c));
      CommitSeen(H, c, a.tid, s, t, Replayed(H, start, n.log).tree);
    } else {
      AbortDisk(H, c, a.tid, s, t);
      AbortCoupled(H, c, s, t);
      VisibleAbort(c, s, t);
    }
  }

  lemma CommitSeen(H: Hasher, c: Change, tid: nat, s: State, t: Tree, r: Tree)
    requires Coupled(H, s, t) && Admissible(c, s) && Prepares(c, s)
    requires Visible(t) == Visible(r)
    ensures Visible(CommittedTree(c, tid, t)) == Visible(CommittedTree(c, tid, r))
  {
    VisibleCommit(c, tid, t);
    VisibleCommit(c, tid, r);
  }
}
