/** Start-up: the state is rebuilt from the directory tree. Staging entries are deleted, but a staged
    user folder is deleted with `remove`, which throws when the folder is not empty. */
module Recovery {
  import opened Disk
  import opened Records
  import opened Digests
  import opened Text
  import opened Changes
  import opened Coupling

  function Seen(files: map<string, string>): map<string, string> {
    map f | f in files && !Tilde(f) :: files[f]
  }

  /** A folder without its staging files. */
  function SeenNode(x: Node): Node {
    if x.File? then x else Folder(Seen(x.files))
  }

  /** The entries that are not staging entries; also the tree that `init` leaves when it succeeds. */
  function Visible(t: Tree): Tree {
    map n | n in t && !Tilde(n) :: SeenNode(t[n])
  }

  predicate InitThrows(t: Tree) {
    exists n | n in t :: Tilde(n) && FilesIn(t, n) != map[]
  }

  /** The file table of one folder. */
  function RecoveredList(H: Hasher, files: map<string, string>): FileList {
    map f | f in files && f != PASSWORD_FILE :: UserFile(f, Digest(H, files[f]), 0, AsInt(|files[f]|), false)
  }

  function RecoveredPasswords(v: Tree): map<string, string> {
    map u | u in v && v[u].Folder? && PASSWORD_FILE in v[u].files :: Token(v[u].files[PASSWORD_FILE])
  }

  function RecoveredFiles(H: Hasher, v: Tree): map<string, FileList> {
    map u | u in v && v[u].Folder? && v[u].files.Keys - {PASSWORD_FILE} != {} :: RecoveredList(H, v[u].files)
  }

  function RecoveredTid(v: Tree): nat {
    if TID_FILE in v && v[TID_FILE].File? then Parse(v[TID_FILE].data) else 0
  }

  /** The state that `init` builds on disk `t`. */
  function Recovered(H: Hasher, t: Tree): State {
    var v := Visible(t);
    State(RecoveredPasswords(v), map[], map[], RecoveredFiles(H, v), [], RecoveredTid(v))
  }

  /** Two tables with the same files, digests and sizes; the tids may differ. */
  ghost predicate SameFiles(a: State, b: State) {
    forall u, f ::
      (a.HasFile(u, f) <==> b.HasFile(u, f)) &&
      (a.HasFile(u, f) ==> a.FilesOf(u)[f].(lastTid := 0) == b.FilesOf(u)[f].(lastTid := 0))
  }

  /** Start-up on `t` works and brings back what `s` holds on disk. */
  ghost predicate Recovers(H: Hasher, s: State, t: Tree) {
    && !InitThrows(t)
    && Recovered(H, t).passwords == s.passwords
    && SameFiles(Recovered(H, t), s)
    && Recovered(H, t).lastTid == s.lastTid
  }

  ghost predicate NoSpaceInPasswords(s: State) {
    forall u :: u in s.passwords ==> NoSpace(s.passwords[u])
  }

  lemma RecoveredPassword(H: Hasher, s: State, t: Tree, u: string)
    requires Coupled(H, s, t) && u in s.passwords
    ensures u in Recovered(H, t).passwords && Recovered(H, t).passwords[u] == Token(s.passwords[u])
  {
    assert !Tilde(PASSWORD_FILE);
    assert FolderMatches(H, s.passwords[u], s.FilesOf(u), t[u].files);
    TokenTwice(t[u].files[PASSWORD_FILE]);
  }

  lemma RecoveredUser(H: Hasher, s: State, t: Tree, u: string)
    requires NothingElse(s, t) && (TID_FILE in t ==> t[TID_FILE].File?) && u in Recovered(H, t).passwords
    ensures u in s.passwords
  {
    assert u in t && !Tilde(u);
  }

  lemma RecoveredNumber(H: Hasher, s: State, t: Tree)
    requires TidMatches(s.lastTid, t)
    ensures Recovered(H, t).lastTid == s.lastTid
  {
    assert !Tilde(TID_FILE);
    ParseShow(s.lastTid);
  }

  lemma RecoveredTables(H: Hasher, s: State, t: Tree)
    requires Coupled(H, s, t)
    ensures Recovered(H, t).passwords.Keys == s.passwords.Keys
    ensures forall u :: u in s.passwords ==> Recovered(H, t).passwords[u] == Token(s.passwords[u])
    ensures Recovered(H, t).lastTid == s.lastTid
  {
    RecoveredNumber(H, s, t);
    var r := Recovered(H, t).passwords;
    forall u | u in s.passwords ensures u in r && r[u] == Token(s.passwords[u]) {
      RecoveredPassword(H, s, t, u);
    }
    forall u | u in r ensures u in s.passwords {
      RecoveredUser(H, s, t, u);
    }
  }

  lemma RecoveredFile(H: Hasher, s: State, t: Tree, u: string, f: string)
    requires Coupled(H, s, t)
    ensures var r := Recovered(H, t);
      && (r.HasFile(u, f) <==> s.HasFile(u, f))
      && (s.HasFile(u, f) ==> r.FilesOf(u)[f] == s.FilesOf(u)[f].(lastTid := 0))
  {
    assert !Tilde(TID_FILE);
    var r := Recovered(H, t);
    var v := Visible(t);
    if u in s.passwords {
      assert FolderMatches(H, s.passwords[u], s.FilesOf(u), t[u].files);
      if s.HasFile(u, f) {
        assert f in v[u].files.Keys - {PASSWORD_FILE};
      }
    }
  }

  /** What start-up brings back: every file with its digest and size, the tid, and each password up to its
      first white space. It throws exactly when a refused CreateUser left a folder with something in it. */
  lemma RecoveryRoundTrip(H: Hasher, s: State, t: Tree)
    requires Coupled(H, s, t)
    ensures SameFiles(Recovered(H, t), s)
    ensures Recovered(H, t).lastTid == s.lastTid
    ensures Recovered(H, t).passwords.Keys == s.passwords.Keys
    ensures Recovered(H, t).passwords == s.passwords <==> NoSpaceInPasswords(s)
    ensures Recovers(H, s, t) <==> NoSpaceInPasswords(s) && !InitThrows(t)
  {
    RecoveredTables(H, s, t);
    forall u, f
      ensures Recovered(H, t).HasFile(u, f) <==> s.HasFile(u, f)
      ensures s.HasFile(u, f) ==> Recovered(H, t).FilesOf(u)[f] == s.FilesOf(u)[f].(lastTid := 0)
    {
      RecoveredFile(H, s, t, u, f);
    }
    forall u | u in s.passwords
      ensures Recovered(H, t).passwords[u] == s.passwords[u] <==> NoSpace(s.passwords[u])
    {
      TokenExact(s.passwords[u]);
    }
  }

  /** A restarted server is coupled again, so recovery can be repeated. */
  lemma RestartCoupled(H: Hasher, s: State, t: Tree)
    requires Coupled(H, s, t)
    ensures Coupled(H, Recovered(H, t), Visible(t))
  {
    var r, v := Recovered(H, t), Visible(t);
    assert !Tilde(TID_FILE) && !Tilde(PASSWORD_FILE);
    RecoveryRoundTrip(H, s, t);
    forall u | u in r.passwords
      ensures IsFolder(v, u) && !Tilde(u) && FolderMatches(H, r.passwords[u], r.FilesOf(u), v[u].files)
    {
      assert FolderMatches(H, s.passwords[u], s.FilesOf(u), t[u].files);
      RestartedFolder(H, s, t, u);
    }
    assert NothingElse(r, v);
    assert r.files.Keys <= r.passwords.Keys by {
      forall u | u in r.files ensures u in r.passwords {
        assert u in t && !Tilde(u);
      }
    }
  }

  lemma RestartedFolder(H: Hasher, s: State, t: Tree, u: string)
    requires Coupled(H, s, t) && u in s.passwords
    ensures FolderMatches(H, Token(s.passwords[u]), Recovered(H, t).FilesOf(u), Visible(t)[u].files)
  {
    assert FolderMatches(H, s.passwords[u], s.FilesOf(u), t[u].files);
    assert !Tilde(PASSWORD_FILE);
    TokenTwice(t[u].files[PASSWORD_FILE]);
    var r, files := Recovered(H, t), Visible(t)[u].files;
    forall f | f in r.FilesOf(u) ensures f in files && !Tilde(f) && EntryMatches(H, f, r.FilesOf(u)[f], files[f]) {
    }
    forall f | f in files && f != PASSWORD_FILE ensures f in r.FilesOf(u) {
      assert f in files.Keys - {PASSWORD_FILE};
    }
  }

  /** Names and passwords that survive a restart. */
  predicate Recoverable(c: Change) {
    match c
    case CreateUser(u, p) => !Tilde(u) && NoSpace(p)
    case FileChange(_, f, false, _) => !Tilde(f) && f != PASSWORD_FILE
    case _ => true
  }

  lemma BadUserName(H: Hasher, c: Change, tid: nat, t: Tree)
    requires c.CreateUser? && Tilde(c.username)
    ensures InitThrows(CommittedTree(c, tid, t))
  {
    var t' := CommittedTree(c, tid, t);
    assert PASSWORD_FILE in FilesIn(t', c.username);
    assert c.username in t' && Tilde(c.username) && FilesIn(t', c.username) != map[];
  }

  lemma BadFileName(H: Hasher, c: Change, tid: nat, s: State, t: Tree)
    requires c.FileChange? && !c.deleted && (Tilde(c.filename) || c.filename == PASSWORD_FILE)
    ensures var s', t' := NextState(H, c, tid, s), CommittedTree(c, tid, t);
      s'.HasFile(c.username, c.filename) && !Recovered(H, t').HasFile(c.username, c.filename)
  {
  }

  /** A commit under any path name: the transaction is recovered exactly when its names do not collide with
      the names the server reserves and the password is one word. */
  lemma CommitRecoverable(H: Hasher, c: Change, tid: nat, s: State, t: Tree)
    requires Coupled(H, s, t) && Recovers(H, s, t) && Accepts(c, s) && Ready(c, t)
    requires c.CreateUser? ==> Component(c.username)
    requires c.FileChange? ==> s.HasUser(c.username) && Component(c.filename)
    ensures Run(t, LifeOps(H, c, tid, s, t, true)) == CommittedTree(c, tid, t)
    ensures Recovers(H, NextState(H, c, tid, s), CommittedTree(c, tid, t)) <==> Recoverable(c)
  {
    ReadyRun(H, c, tid, s, t);
    CommitReady(c, tid, t);
    RunAppend(t, BeginOps(tid) + StageOps(c), CommitOps(c));
    var s', t' := NextState(H, c, tid, s), CommittedTree(c, tid, t);
    if c.CreateUser? && Tilde(c.username) {
      BadUserName(H, c, tid, t);
    } else if c.FileChange? && !c.deleted && (Tilde(c.filename) || c.filename == PASSWORD_FILE) {
      BadFileName(H, c, tid, s, t);
    } else {
      if c.FileChange? {
        assert FolderMatches(H, s.passwords[c.username], s.FilesOf(c.username), t[c.username].files);
      }
      CommitCoupled(H, c, tid, s, t);
      RecoveryRoundTrip(H, s, t);
      RecoveryRoundTrip(H, s', t');
      CommitThrows(H, c, tid, s, t);
      PasswordsAfter(H, c, tid, s);
    }
  }

  lemma PasswordsAfter(H: Hasher, c: Change, tid: nat, s: State)
    requires Accepts(c, s) && NoSpaceInPasswords(s)
    ensures NoSpaceInPasswords(NextState(H, c, tid, s)) <==> (c.CreateUser? ==> NoSpace(c.password))
  {
    var s' := NextState(H, c, tid, s);
    if c.CreateUser? {
      assert s'.passwords[c.username] == c.password;
      assert forall u :: u in s.passwords ==> u in s'.passwords && s'.passwords[u] == s.passwords[u];
    }
  }

  /** A commit leaves nothing that start-up would choke on. */
  lemma CommitThrows(H: Hasher, c: Change, tid: nat, s: State, t: Tree)
    requires Coupled(H, s, t) && Admissible(c, s) && Prepares(c, s) && !InitThrows(t)
    ensures !InitThrows(CommittedTree(c, tid, t))
  {
    var t' := CommittedTree(c, tid, t);
    assert !Tilde(TID_FILE);
    forall n | n in t' && Tilde(n) ensures FilesIn(t', n) == map[] {
      assert n in t && t'[n] == t[n];
    }
  }
}
