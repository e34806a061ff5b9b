/** Memory and disk describe the same users and files, and every transaction keeps it so.
    The life of a transaction is a list of primitive operations; here its effect on the disk is
    computed once and for all, for commit and for abort. */
module Coupling {
  import opened Disk
  import opened Records
  import opened Digests
  import opened Text
  import opened Changes

  /** A name that denotes one entry of a directory; only these have a place in the disk model. */
  predicate Component(n: string) {
    n != "" && n != "." && n != ".." && '/' !in n
  }

  /** A component that is not a staging name. */
  predicate GoodName(n: string) {
    Component(n) && !Tilde(n)
  }

  /** What the request handlers let through: users are created with a password, and only a registered
      user changes files. Names are well formed. */
  predicate Admissible(c: Change, s: State) {
    match c
    case CreateUser(u, p) => GoodName(u) && p != ""
    case FileChange(u, f, _, _) => s.HasUser(u) && GoodName(f) && f != PASSWORD_FILE
    case _ => true
  }

  /** A file entry tells the digest and size of the bytes on disk. */
  predicate EntryMatches(H: Hasher, f: string, e: UserFile, content: string) {
    e.filename == f && e.hash == Digest(H, content) && e.size == AsInt(|content|) && !e.deleted
  }

  /** The password in memory is the stored one or, after a restart, its first word. */
  predicate PasswordMatches(password: string, stored: string) {
    password == stored || password == Token(stored)
  }

  /** A user's folder holds the password and exactly the files of the table. */
  ghost predicate FolderMatches(H: Hasher, password: string, table: FileList, files: map<string, string>) {
    && PASSWORD_FILE in files && PasswordMatches(password, files[PASSWORD_FILE])
    && PASSWORD_FILE !in table
    && (forall f :: f in files && f != PASSWORD_FILE ==> f in table)
    && (forall f :: f in table ==> f in files && !Tilde(f) && EntryMatches(H, f, table[f], files[f]))
  }

  /** A folder that a refused CreateUser left behind. */
  predicate Leftover(n: string, node: Node) {
    n != TID_STAGED && node.Folder? && node.files.Keys <= {PASSWORD_FILE}
  }

  predicate TidMatches(lastTid: nat, t: Tree) {
    if TID_FILE in t then t[TID_FILE] == File(Show(lastTid)) else lastTid == 0
  }

  /** Every registered user has a folder with the right contents. */
  ghost predicate UsersOnDisk(H: Hasher, s: State, t: Tree) {
    forall u :: u in s.passwords ==>
      IsFolder(t, u) && !Tilde(u) && FolderMatches(H, s.passwords[u], s.FilesOf(u), t[u].files)
  }

  /** Nothing else is on disk but the tid file and left-over folders. */
  ghost predicate NothingElse(s: State, t: Tree) {
    forall n :: n in t && n != TID_FILE ==> if Tilde(n) then Leftover(n, t[n]) else n in s.passwords
  }

  ghost predicate Coupled(H: Hasher, s: State, t: Tree) {
    && TidMatches(s.lastTid, t)
    && TID_FILE !in s.passwords
    && UsersOnDisk(H, s, t)
    && NothingElse(s, t)
    && s.files.Keys <= s.passwords.Keys
  }

  /** No staging name is left anywhere. In a coupled state this only says that no CreateUser was refused. */
  ghost predicate NoLeftovers(t: Tree) {
    forall n :: n in t ==> !Tilde(n)
  }

  /** Whether `run` ends prepared: the guards pass, and the new user is not called like the tid file,
      whose staged copy is in the way of the staged folder. */
  predicate Prepares(c: Change, s: State) {
    Accepts(c, s) && !(c.CreateUser? && c.username == TID_FILE)
  }

  /** The disk while a prepared transaction waits for its outcome. */
  function StagedTree(c: Change, tid: nat, t: Tree): Tree {
    var b := t[TID_STAGED := File(Show(tid))];
    match c
    case CreateUser(u, p) => b[u + "~" := Folder(FilesIn(t, u + "~")[PASSWORD_FILE := p])]
    case FileChange(u, f, true, _) =>
      if f in FilesIn(t, u) then b[u := Folder((FilesIn(t, u) - {f})[f + "~" := FilesIn(t, u)[f]])] else b
    case FileChange(u, f, false, content) => b[u := Folder(FilesIn(t, u)[f + "~" := content])]
    case _ => b
  }

  /** The disk after commit. */
  function CommittedTree(c: Change, tid: nat, t: Tree): Tree {
    var b := t[TID_FILE := File(Show(tid))];
    match c
    case CreateUser(u, p) => (b - {u + "~"})[u := Folder(map[PASSWORD_FILE := p])]
    case FileChange(u, f, true, _) => b[u := Folder(FilesIn(t, u) - {f})]
    case FileChange(u, f, false, content) => b[u := Folder(FilesIn(t, u)[f := content])]
    case _ => b
  }

  /** The disk after an abort. */
  function AbortedTree(c: Change, s: State, t: Tree): Tree {
    match c
    case CreateUser(u, p) =>
      if Accepts(c, s) then t - {u + "~"} else t[u + "~" := Folder(map[PASSWORD_FILE := p])]
    case _ => t
  }

  /** The state after commit. */
  function NextState(H: Hasher, c: Change, tid: nat, s: State): State {
    var s := s.(lastTid := tid);
    match c
    case CreateUser(u, p) => s.(passwords := s.passwords[u := p], usersLastTid := Emplace(s.usersLastTid, u, tid))
    case CreateSession(id, u) =>
      s.(sessions := s.sessions[id := u], usersLastTid := Emplace(s.usersLastTid, u, tid))
    case RemoveSession(id) => s.(sessions := s.sessions - {id}, usersLastTid := Emplace(s.usersLastTid, "", tid))
    case FileChange(u, f, true, _) => s.DropFile(u, f)
    case FileChange(u, f, false, content) =>
      s.PutFile(u, f, UserFile(f, Digest(H, content), tid, AsInt(|content|), false))
    case NewFrontend(host, port) => s.(frontends := s.frontends + [Frontend(host, port)])
  }

  /** What a transaction needs of the disk: nothing stands under its staging names except a left-over folder. */
  predicate Ready(c: Change, t: Tree) {
    && TID_STAGED !in t && (TID_FILE in t ==> t[TID_FILE].File?)
    && match c
       case CreateUser(u, _) =>
         && u !in t && u != TID_FILE && u != TID_STAGED
         && (u + "~" in t ==> Leftover(u + "~", t[u + "~"]))
       case FileChange(u, f, deleted, _) =>
         && IsFolder(t, u) && u != TID_FILE && u != TID_STAGED
         && f + "~" !in t[u].files && (deleted ==> f in t[u].files)
       case _ => true
  }

  lemma CoupledReady(H: Hasher, c: Change, s: State, t: Tree)
    requires Coupled(H, s, t) && Admissible(c, s) && Prepares(c, s)
    ensures Ready(c, t)
  {
    assert TID_FILE + "~" == TID_STAGED && Tilde(TID_STAGED);
    match c
    case CreateUser(u, p) => assert Tilde(u + "~");
    case FileChange(u, f, deleted, content) =>
      assert FolderMatches(H, s.passwords[u], s.FilesOf(u), t[u].files);
      StagedName(f, PASSWORD_FILE);
    case _ =>
  }

  lemma OneOp(t: Tree, a: Op)
    ensures Run(t, [a]) == Apply(a, t)
    ensures Attempted(t, [a]) == [a]
    ensures Survives(t, [a]) <==> !Throws(a, t)
  {
    assert [a][1..] == [];
  }

  lemma TwoOps(t: Tree, a: Op, b: Op)
    ensures Run(t, [a, b]) == Apply(b, Apply(a, t))
    ensures Attempted(t, [a, b]) == if Throws(a, t) then [a] else [a, b]
    ensures Survives(t, [a, b]) <==> !Throws(a, t) && !Throws(b, Apply(a, t))
  {
    assert [a, b][1..] == [b];
    OneOp(Apply(a, t), b);
  }

  lemma ThreeOps(t: Tree, a: Op, b: Op, c: Op)
    ensures Run(t, [a, b, c]) == Apply(c, Apply(b, Apply(a, t)))
    ensures Survives(t, [a, b, c]) <==> !Throws(a, t) && !Throws(b, Apply(a, t)) && !Throws(c, Apply(b, Apply(a, t)))
  {
    assert [a, b, c][1..] == [b, c];
    TwoOps(Apply(a, t), b, c);
  }

  lemma BeginRun(tid: nat, t: Tree, stage: seq<Op>)
    requires TID_STAGED !in t
    ensures Run(t, BeginOps(tid)) == t[TID_STAGED := File(Show(tid))]
    ensures Run(t, BeginOps(tid) + stage) == Run(t[TID_STAGED := File(Show(tid))], stage)
  {
    OneOp(t, BeginOps(tid)[0]);
    RunAppend(t, BeginOps(tid), stage);
  }

  lemma StageCreateUser(u: string, p: string, begun: Tree)
    requires u + "~" in begun ==> begun[u + "~"].Folder?
    ensures var ops := StageOps(CreateUser(u, p));
      && Survives(begun, ops) && Attempted(begun, ops) == ops
      && Run(begun, ops) == begun[u + "~" := Folder(FilesIn(begun, u + "~")[PASSWORD_FILE := p])]
  {
    TwoOps(begun, MakeDir(u + "~"), WriteIn(u + "~", PASSWORD_FILE, p));
  }

  lemma StageUpload(u: string, f: string, content: string, begun: Tree)
    requires IsFolder(begun, u)
    ensures var ops := StageOps(FileChange(u, f, false, content));
      && Survives(begun, ops) && Attempted(begun, ops) == ops
      && Run(begun, ops) == begun[u := Folder(begun[u].files[f + "~" := content])]
  {
    OneOp(begun, WriteIn(u, f + "~", content));
  }

  lemma StageDelete(u: string, f: string, content: string, begun: Tree)
    requires IsFolder(begun, u) && f in begun[u].files
    ensures var ops := StageOps(FileChange(u, f, true, content));
      && Survives(begun, ops) && Attempted(begun, ops) == ops
      && Run(begun, ops) == begun[u := Folder((begun[u].files - {f})[f + "~" := begun[u].files[f]])]
  {
    OneOp(begun, RenameIn(u, f, f + "~"));
  }

  lemma StageReady(c: Change, tid: nat, t: Tree)
    requires Ready(c, t)
    ensures var begun := t[TID_STAGED := File(Show(tid))];
      && Survives(begun, StageOps(c)) && Attempted(begun, StageOps(c)) == StageOps(c)
      && Run(begun, StageOps(c)) == StagedTree(c, tid, t)
  {
    var begun := t[TID_STAGED := File(Show(tid))];
    match c
    case CreateUser(u, p) =>
      StagedName(u, TID_FILE);
      assert TID_FILE + "~" == TID_STAGED;
      StageCreateUser(u, p, begun);
    case FileChange(u, f, true, content) => StageDelete(u, f, content, begun);
    case FileChange(u, f, false, content) => StageUpload(u, f, content, begun);
    case _ =>
  }

  /** The work copy of a prepared run is the next state: the digest was taken of the uploaded bytes. */
  lemma EffectIsNext(H: Hasher, c: Change, tid: nat, s: State, t: Tree)
    requires Accepts(c, s) && Ready(c, t)
    ensures Effect(H, c, tid, s, StagedTree(c, tid, t)) == NextState(H, c, tid, s)
  {
  }

  lemma ReadyRun(H: Hasher, c: Change, tid: nat, s: State, t: Tree)
    requires Accepts(c, s) && Ready(c, t)
    ensures RunChange(H, c, tid, s, t) ==
            Ran(BeginOps(tid) + StageOps(c), NextState(H, c, tid, s), true, false, false)
    ensures RunTree(H, c, tid, s, t) == StagedTree(c, tid, t)
  {
    var begun := t[TID_STAGED := File(Show(tid))];
    BeginRun(tid, t, StageOps(c));
    BeginRun(tid, t, []);
    StageReady(c, tid, t);
    AcceptedOps(c, begun);
    EffectIsNext(H, c, tid, s, t);
    assert BeginOps(tid) + [] == BeginOps(tid);
  }

  /** A prepared run performs begin and staging, nothing throws, and the disk is the staged one. */
  lemma RunPrepares(H: Hasher, c: Change, tid: nat, s: State, t: Tree)
    requires Coupled(H, s, t) && Admissible(c, s) && Prepares(c, s)
    ensures RunChange(H, c, tid, s, t) ==
            Ran(BeginOps(tid) + StageOps(c), NextState(H, c, tid, s), true, false, false)
    ensures RunTree(H, c, tid, s, t) == StagedTree(c, tid, t)
  {
    CoupledReady(H, c, s, t);
    ReadyRun(H, c, tid, s, t);
  }

  /** When staging goes through, `run` does nothing but stage. */
  lemma AcceptedOps(c: Change, t: Tree)
    requires Survives(t, StageOps(c)) && Attempted(t, StageOps(c)) == StageOps(c)
    ensures ExecuteOps(true, c, t) == StageOps(c) && GuardedOps(true, c, t) == StageOps(c)
    ensures CatchOps(true, c, t) == []
  {
    assert [] + StageOps(c) == StageOps(c);
    assert StageOps(c) + [] == StageOps(c);
  }

  lemma PublishTid(tid: nat, t: Tree)
    requires TID_STAGED in t && t[TID_STAGED] == File(Show(tid))
    requires TID_FILE in t ==> t[TID_FILE].File?
    ensures var b := (t - {TID_STAGED})[TID_FILE := File(Show(tid))];
      && Survives(t, CommitOps(RemoveSession(0)))
      && Run(t, CommitOps(RemoveSession(0))) == b
  {
    TwoOps(t, RemoveTop(TID_FILE), RenameTop(TID_STAGED, TID_FILE));
  }

  lemma {:induction false} SurvivesAppend(t: Tree, a: seq<Op>, b: seq<Op>)
    ensures Survives(t, a + b) <==> Survives(t, a) && Survives(Run(t, a), b)
    decreases a
  {
    if a == [] {
      assert a + b == b;
    } else {
      assert (a + b)[1..] == a[1..] + b;
      SurvivesAppend(Apply(a[0], t), a[1..], b);
    }
  }

  /** The last operation of a commit, after the tid is published. */
  lemma FinishCreateUser(u: string, p: string, tid: nat, t: Tree)
    requires Ready(CreateUser(u, p), t)
    ensures var b := (StagedTree(CreateUser(u, p), tid, t) - {TID_STAGED})[TID_FILE := File(Show(tid))];
      && !Throws(RenameTop(u + "~", u), b)
      && Apply(RenameTop(u + "~", u), b) == CommittedTree(CreateUser(u, p), tid, t)
  {
    StagedName(u, u);
    StagedName(u, TID_FILE);
    assert TID_FILE + "~" == TID_STAGED && !Tilde(TID_FILE);
    assert FilesIn(t, u + "~")[PASSWORD_FILE := p] == map[PASSWORD_FILE := p];
  }

  lemma FinishUpload(u: string, f: string, content: string, tid: nat, t: Tree)
    requires Ready(FileChange(u, f, false, content), t)
    ensures var c := FileChange(u, f, false, content);
      var b := (StagedTree(c, tid, t) - {TID_STAGED})[TID_FILE := File(Show(tid))];
      && !Throws(RenameIn(u, f + "~", f), b)
      && Apply(RenameIn(u, f + "~", f), b) == CommittedTree(c, tid, t)
  {
    StagedName(f, f);
    var files := t[u].files;
    assert (files[f + "~" := content] - {f + "~"})[f := content] == files[f := content];
  }

  lemma FinishDelete(u: string, f: string, content: string, tid: nat, t: Tree)
    requires Ready(FileChange(u, f, true, content), t)
    ensures var c := FileChange(u, f, true, content);
      var b := (StagedTree(c, tid, t) - {TID_STAGED})[TID_FILE := File(Show(tid))];
      && !Throws(RemoveIn(u, f + "~"), b)
      && Apply(RemoveIn(u, f + "~"), b) == CommittedTree(c, tid, t)
  {
    var files := t[u].files;
    assert (files - {f})[f + "~" := files[f]] - {f + "~"} == files - {f};
  }

  lemma CommitReady(c: Change, tid: nat, t: Tree)
    requires Ready(c, t)
    ensures Survives(StagedTree(c, tid, t), CommitOps(c))
    ensures Run(StagedTree(c, tid, t), CommitOps(c)) == CommittedTree(c, tid, t)
  {
    var st := StagedTree(c, tid, t);
    if c.CreateUser? {
      StagedName(c.username, TID_FILE);
      assert TID_FILE + "~" == TID_STAGED && !Tilde(TID_FILE);
    }
    PublishTid(tid, st);
    var b := (st - {TID_STAGED})[TID_FILE := File(Show(tid))];
    var publish := CommitOps(RemoveSession(0));
    if c.CreateUser? {
      FinishCreateUser(c.username, c.password, tid, t);
    } else if c.FileChange? && c.deleted {
      FinishDelete(c.username, c.filename, c.content, tid, t);
    } else if c.FileChange? {
      FinishUpload(c.username, c.filename, c.content, tid, t);
    } else {
      assert b == CommittedTree(c, tid, t);
    }
    if |CommitOps(c)| == 3 {
      assert CommitOps(c) == publish + [CommitOps(c)[2]];
      OneOp(b, CommitOps(c)[2]);
      RunAppend(st, publish, [CommitOps(c)[2]]);
      SurvivesAppend(st, publish, [CommitOps(c)[2]]);
    }
  }

  /** Committing a prepared transaction throws nothing and publishes exactly the staged change. */
  lemma CommitSurvives(H: Hasher, c: Change, tid: nat, s: State, t: Tree)
    requires Coupled(H, s, t) && Admissible(c, s) && Prepares(c, s)
    ensures var staged := RunTree(H, c, tid, s, t);
      Survives(staged, CommitOps(c)) && Run(staged, CommitOps(c)) == CommittedTree(c, tid, t)
  {
    RunPrepares(H, c, tid, s, t);
    CoupledReady(H, c, s, t);
    CommitReady(c, tid, t);
  }

  lemma FolderAfterDelete(H: Hasher, password: string, table: FileList, files: map<string, string>, f: string)
    requires FolderMatches(H, password, table, files) && f != PASSWORD_FILE
    ensures FolderMatches(H, password, table - {f}, files - {f})
  {
  }

  lemma FolderAfterUpload(H: Hasher, password: string, table: FileList, files: map<string, string>,
                          e: UserFile, content: string)
    requires FolderMatches(H, password, table, files)
    requires e.filename != PASSWORD_FILE && !Tilde(e.filename) && EntryMatches(H, e.filename, e, content)
    ensures FolderMatches(H, password, table[e.filename := e], files[e.filename := content])
  {
  }

  /** A transaction touches no folder but its user's. */
  lemma OtherFolders(H: Hasher, c: Change, tid: nat, s: State, t: Tree, u: string)
    requires IsFolder(t, u) && !Tilde(u) && u != TID_FILE
    requires c.CreateUser? || c.FileChange? ==> c.username != u
    ensures var t' := CommittedTree(c, tid, t);
      IsFolder(t', u) && t'[u] == t[u] && NextState(H, c, tid, s).FilesOf(u) == s.FilesOf(u)
  {
    if c.CreateUser? {
      StagedName(c.username, u);
    }
  }

  lemma UsersFolderAfter(H: Hasher, c: Change, tid: nat, s: State, t: Tree, u: string)
    requires Coupled(H, s, t) && Admissible(c, s) && Prepares(c, s)
    requires u in s.passwords
    ensures var s', t' := NextState(H, c, tid, s), CommittedTree(c, tid, t);
      IsFolder(t', u) && FolderMatches(H, s.passwords[u], s'.FilesOf(u), t'[u].files)
  {
    assert FolderMatches(H, s.passwords[u], s.FilesOf(u), t[u].files);
    if c.FileChange? && c.username == u {
      if c.deleted {
        FolderAfterDelete(H, s.passwords[u], s.FilesOf(u), t[u].files, c.filename);
      } else {
        var e := UserFile(c.filename, Digest(H, c.content), tid, AsInt(|c.content|), false);
        FolderAfterUpload(H, s.passwords[u], s.FilesOf(u), t[u].files, e, c.content);
      }
    } else {
      OtherFolders(H, c, tid, s, t, u);
    }
  }

  lemma UsersAfter(H: Hasher, c: Change, tid: nat, s: State, t: Tree)
    requires Coupled(H, s, t) && Admissible(c, s) && Prepares(c, s)
    ensures UsersOnDisk(H, NextState(H, c, tid, s), CommittedTree(c, tid, t))
  {
    var s', t' := NextState(H, c, tid, s), CommittedTree(c, tid, t);
    forall u | u in s'.passwords
      ensures IsFolder(t', u) && !Tilde(u) && FolderMatches(H, s'.passwords[u], s'.FilesOf(u), t'[u].files)
    {
      if u in s.passwords {
        UsersFolderAfter(H, c, tid, s, t, u);
        assert s'.passwords[u] == s.passwords[u];
      } else {
        assert s'.FilesOf(u) == map[];
      }
    }
  }

  lemma TopAfter(H: Hasher, c: Change, tid: nat, s: State, t: Tree)
    requires NothingElse(s, t) && Admissible(c, s) && Prepares(c, s)
    requires c.FileChange? ==> !Tilde(c.username)
    ensures NothingElse(NextState(H, c, tid, s), CommittedTree(c, tid, t))
  {
    var s', t' := NextState(H, c, tid, s), CommittedTree(c, tid, t);
    forall n | n in t' && n != TID_FILE
      ensures if Tilde(n) then Leftover(n, t'[n]) else n in s'.passwords
    {
      if c.CreateUser? {
        StagedName(c.username, n);
      }
      assert n in t ==> if Tilde(n) then Leftover(n, t[n]) else n in s.passwords;
    }
  }

  lemma TidAfter(H: Hasher, c: Change, tid: nat, s: State, t: Tree)
    requires Coupled(H, s, t) && Admissible(c, s) && Prepares(c, s)
    ensures TidMatches(tid, CommittedTree(c, tid, t))
    ensures TID_FILE !in NextState(H, c, tid, s).passwords
    ensures NextState(H, c, tid, s).files.Keys <= NextState(H, c, tid, s).passwords.Keys
  {
    if c.CreateUser? {
      StagedName(c.username, TID_FILE);
    }
  }

  /** Committing keeps memory and disk coupled. */
  lemma CommitCoupled(H: Hasher, c: Change, tid: nat, s: State, t: Tree)
    requires Coupled(H, s, t) && Admissible(c, s) && Prepares(c, s)
    ensures Coupled(H, NextState(H, c, tid, s), CommittedTree(c, tid, t))
  {
    UsersAfter(H, c, tid, s, t);
    TopAfter(H, c, tid, s, t);
    TidAfter(H, c, tid, s, t);
  }

  /** Rolling back a prepared transaction removes exactly what was staged. */
  lemma AbortReady(c: Change, tid: nat, t: Tree)
    requires Ready(c, t)
    ensures var st := StagedTree(c, tid, t);
      && Survives(st, RollbackOps(c, st))
      && Run(st, RollbackOps(c, st)) == if c.CreateUser? then t - {c.username + "~"} else t
  {
    var st := StagedTree(c, tid, t);
    var b := Apply(RemoveTop(TID_STAGED), st);
    if c.CreateUser? {
      StagedName(c.username, TID_FILE);
      assert TID_FILE + "~" == TID_STAGED;
    }
    assert !Throws(RemoveTop(TID_STAGED), st);
    match c
    case CreateUser(u, p) =>
      TwoOps(st, RemoveTop(TID_STAGED), RemoveAll(u + "~"));
    case FileChange(u, f, deleted, content) =>
      var files := t[u].files;
      assert f + "~" in FilesIn(b, u);
      TwoOps(st, RemoveTop(TID_STAGED), RollbackOps(c, st)[1]);
      StagedName(f, f);
      assert (files[f + "~" := content] - {f + "~"}) == files;
      if deleted {
        assert ((files - {f})[f + "~" := files[f]] - {f + "~"})[f := files[f]] == files;
      }
    case _ =>
      OneOp(st, RemoveTop(TID_STAGED));
  }

  /** A refused CreateUser rolls back and then stages the user all the same. */
  lemma RefusedCreateUser(u: string, p: string, tid: nat, t: Tree)
    requires TID_STAGED !in t && u + "~" != TID_STAGED
    ensures var begun, c := t[TID_STAGED := File(Show(tid))], CreateUser(u, p);
      && GuardedOps(false, c, begun) == [RemoveTop(TID_STAGED), RemoveAll(u + "~")] + StageOps(c)
      && Run(begun, GuardedOps(false, c, begun)) == t[u + "~" := Folder(map[PASSWORD_FILE := p])]
  {
    var c := CreateUser(u, p);
    var begun := t[TID_STAGED := File(Show(tid))];
    var back, stage := RollbackOps(c, begun), StageOps(c);
    TwoOps(begun, RemoveTop(TID_STAGED), RemoveAll(u + "~"));
    assert begun - {TID_STAGED} == t;
    StageCreateUser(u, p, t - {u + "~"});
    assert Run(begun, back) == t - {u + "~"};
    RunAppend(begun, back, stage);
    assert back + stage + [] == back + stage;
  }

  /** A refused transaction of any other kind only takes its tid back. */
  lemma RefusedOther(c: Change, tid: nat, t: Tree)
    requires TID_STAGED !in t && !c.CreateUser?
    requires c.FileChange? ==> c.username != TID_STAGED && c.filename + "~" !in FilesIn(t, c.username)
    ensures var begun := t[TID_STAGED := File(Show(tid))];
      && GuardedOps(false, c, begun) == [RemoveTop(TID_STAGED)]
      && Run(begun, GuardedOps(false, c, begun)) == t
  {
    var begun := t[TID_STAGED := File(Show(tid))];
    assert begun - {TID_STAGED} == t;
    assert RollbackOps(c, begun) == [RemoveTop(TID_STAGED)];
    OneOp(begun, RemoveTop(TID_STAGED));
    assert [RemoveTop(TID_STAGED)] + [] + [] == [RemoveTop(TID_STAGED)];
  }

  /** Creating a user named like the tid file throws while staging, and is undone by `run` itself. */
  lemma TidUserAborts(p: string, tid: nat, t: Tree)
    requires TID_STAGED !in t
    ensures var begun, c := t[TID_STAGED := File(Show(tid))], CreateUser(TID_FILE, p);
      && GuardedOps(true, c, begun) == [MakeDir(TID_STAGED)] + [RemoveTop(TID_STAGED), RemoveAll(TID_STAGED)]
      && !Survives(begun, StageOps(c))
      && Survives(Run(begun, ExecuteOps(true, c, begun)), CatchOps(true, c, begun))
      && Run(begun, GuardedOps(true, c, begun)) == t
  {
    var c := CreateUser(TID_FILE, p);
    var begun := t[TID_STAGED := File(Show(tid))];
    assert TID_FILE + "~" == TID_STAGED;
    var back := RollbackOps(c, begun);
    TwoOps(begun, MakeDir(TID_STAGED), WriteIn(TID_STAGED, PASSWORD_FILE, p));
    OneOp(begun, MakeDir(TID_STAGED));
    TwoOps(begun, RemoveTop(TID_STAGED), RemoveAll(TID_STAGED));
    assert begun - {TID_STAGED} == t && t - {TID_STAGED} == t;
    assert [] + [MakeDir(TID_STAGED)] == [MakeDir(TID_STAGED)];
    RunAppend(begun, [MakeDir(TID_STAGED)], back);
  }

  /** A run that is not prepared has already rolled back, and the disk is the aborted one. */
  lemma RunFails(H: Hasher, c: Change, tid: nat, s: State, t: Tree)
    requires Coupled(H, s, t) && Admissible(c, s) && !Prepares(c, s)
    ensures var ran := RunChange(H, c, tid, s, t);
      && !ran.prepared && ran.rolledBack && !ran.died
      && Run(t, ran.ops) == AbortedTree(c, s, t)
      && ran.ops == BeginOps(tid) + FailedOps(c, s)
  {
    assert TID_FILE + "~" == TID_STAGED && Tilde(TID_STAGED);
    BeginRun(tid, t, []);
    assert BeginOps(tid) + [] == BeginOps(tid);
    BeginRun(tid, t, FailedOps(c, s));
    if Accepts(c, s) {
      TidUserAborts(c.password, tid, t);
      assert t - {TID_STAGED} == t;
    } else if c.CreateUser? {
      StagedName(c.username, TID_FILE);
      RefusedCreateUser(c.username, c.password, tid, t);
    } else {
      if c.FileChange? {
        assert FolderMatches(H, s.passwords[c.username], s.FilesOf(c.username), t[c.username].files);
        StagedName(c.filename, PASSWORD_FILE);
      }
      RefusedOther(c, tid, t);
    }
  }

  /** What a run that is not prepared does after begin, on a coupled disk. */
  function FailedOps(c: Change, s: State): seq<Op> {
    if Accepts(c, s) then [MakeDir(TID_STAGED)] + [RemoveTop(TID_STAGED), RemoveAll(TID_STAGED)]
    else if c.CreateUser? then [RemoveTop(TID_STAGED), RemoveAll(c.username + "~")] + StageOps(c)
    else [RemoveTop(TID_STAGED)]
  }

  /** The disk after a transaction that aborts, at whatever point it was refused, threw, or lost the vote. */
  lemma AbortDisk(H: Hasher, c: Change, tid: nat, s: State, t: Tree)
    requires Coupled(H, s, t) && Admissible(c, s)
    ensures Run(t, LifeOps(H, c, tid, s, t, false)) == AbortedTree(c, s, t)
  {
    var ran := RunChange(H, c, tid, s, t);
    var staged := Run(t, ran.ops);
    if Prepares(c, s) {
      RunPrepares(H, c, tid, s, t);
      CoupledReady(H, c, s, t);
      AbortReady(c, tid, t);
      RunAppend(t, ran.ops, RollbackOps(c, staged));
    } else {
      RunFails(H, c, tid, s, t);
      assert ran.ops + [] == ran.ops;
    }
  }

  /** The disk after a prepared transaction that commits. */
  lemma CommitDisk(H: Hasher, c: Change, tid: nat, s: State, t: Tree)
    requires Coupled(H, s, t) && Admissible(c, s) && Prepares(c, s)
    ensures Run(t, LifeOps(H, c, tid, s, t, true)) == CommittedTree(c, tid, t)
  {
    RunPrepares(H, c, tid, s, t);
    CommitSurvives(H, c, tid, s, t);
    RunAppend(t, RunChange(H, c, tid, s, t).ops, CommitOps(c));
  }

  /** Aborting keeps memory and disk coupled. */
  lemma AbortCoupled(H: Hasher, c: Change, s: State, t: Tree)
    requires Coupled(H, s, t) && Admissible(c, s)
    ensures Coupled(H, s, AbortedTree(c, s, t))
  {
    if c.CreateUser? {
      var t', staged := AbortedTree(c, s, t), c.username + "~";
      StagedName(c.username, TID_FILE);
      assert TID_FILE + "~" == TID_STAGED;
      forall u | u in s.passwords
        ensures IsFolder(t', u) && !Tilde(u) && FolderMatches(H, s.passwords[u], s.FilesOf(u), t'[u].files)
      {
        assert u != staged;
      }
      assert NothingElse(s, t');
    }
  }

  /** Abort is an exact undo of everything the transaction wrote, except when a CreateUser is refused
      because the user exists: then its staged folder stays on disk. */
  lemma AbortUndoes(H: Hasher, c: Change, tid: nat, s: State, t: Tree)
    requires Coupled(H, s, t) && Admissible(c, s) && NoLeftovers(t)
    ensures Run(t, LifeOps(H, c, tid, s, t, false)) == t <==> !(c.CreateUser? && s.HasUser(c.username))
  {
    AbortDisk(H, c, tid, s, t);
    if c.CreateUser? {
      assert c.username + "~" !in t by { StagedName(c.username, ""); }
      if Accepts(c, s) {
        assert t - {c.username + "~"} == t;
      } else {
        assert c.username + "~" in AbortedTree(c, s, t);
      }
    }
  }
}
