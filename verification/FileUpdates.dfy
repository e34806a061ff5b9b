/** The file update that announces a digest first and sends the bytes only on request, against the plain upload. */
module FileUpdates {
  import opened Options
  import opened Disk
  import opened Records
  import opened Digests
  import opened Changes
  import opened Coupling
  import opened History
  import opened Service

  /** The server holds the announced digest already, and asks for nothing. */
  predicate Skips(s: State, u: string, f: string, hash: string) {
    s.HasFile(u, f) && s.files[u][f].hash == hash
  }

  function Upload(u: string, f: string, content: string, tid: nat): Event {
    Finished(FileChange(u, f, false, content), tid, true)
  }

  /** What the client sends when it is asked: its own file name and the bytes. */
  datatype FileData = FileData(filename: string, content: string)

  function ServeUpload(H: Hasher, l: Local, tid: nat, user: string, data: FileData, others: bool): Served {
    Served(After(H, Finished(FileChange(user, data.filename, false, data.content), tid + 1, others), l), tid + 1,
           if others then FileUpdated else Error("Error updating file"))
  }

  /** A deletion, nothing on an equal digest, or the upload of what the client sends. */
  function ServeUpdate(H: Hasher, l: Local, tid: nat, user: string, filename: string, hash: string, deleted: bool,
                       reply: Option<FileData>, others: bool): Served
  {
    if deleted then
      var c := FileChange(user, filename, true, "\0");
      Served(After(H, Finished(c, tid + 1, others), l), tid + 1,
             if others && Prepares(c, l.state) then FileUpdated else Error("Error deleting file"))
    else if Skips(l.state, user, filename, hash) then Served(l, tid, FileUpdated)
    else if reply.None? then Served(l, tid, Error("Error receiving request"))
    else ServeUpload(H, l, tid, user, reply.value, others)
  }

  method HandleUpload(db: Database, user: string, data: FileData, others: bool) returns (r: Response)
    modifies db
    ensures Served(db.local, db.lastTid, r) == ServeUpload(db.H, old(db.local), old(db.lastTid), user, data, others)
    ensures r.FileUpdated? <==> others
    ensures db.local == After(db.H, Finished(FileChange(user, data.filename, false, data.content), db.lastTid, others),
                              old(db.local))
    ensures db.lastTid == old(db.lastTid) + 1
  {
    var ok := db.Do(FileChange(user, data.filename, false, data.content), others);
    return if ok then FileUpdated else Error("Error updating file");
  }

  /** `reply` is what came after the request for the data; None stands for anything else. */
  method HandleFileUpdate(db: Database, user: string, filename: string, hash: string, deleted: bool,
                          reply: Option<FileData>, others: bool)
    returns (r: Response)
    modifies db
    ensures Served(db.local, db.lastTid, r)
            == ServeUpdate(db.H, old(db.local), old(db.lastTid), user, filename, hash, deleted, reply, others)
    ensures deleted ==>
              db.local == After(db.H, Finished(FileChange(user, filename, true, "\0"), db.lastTid, others),
                                old(db.local))
              && (r.FileUpdated? <==> others && old(db.local.state).HasFile(user, filename))
    ensures !deleted && Skips(old(db.local.state), user, filename, hash) ==>
              r.FileUpdated? && db.local == old(db.local) && db.lastTid == old(db.lastTid)
    ensures !deleted && !Skips(old(db.local.state), user, filename, hash) ==>
              if reply.None? then r.Error? && db.local == old(db.local)
              else
                var upload := FileChange(user, reply.value.filename, false, reply.value.content);
                (r.FileUpdated? <==> others)
                && db.local == After(db.H, Finished(upload, db.lastTid, others), old(db.local))
  {
    if deleted {
      var ok := db.Do(FileChange(user, filename, true, "\0"), others);
      return if ok then FileUpdated else Error("Error deleting file");
    }
    if db.local.state.HasFile(user, filename) {
      if db.local.state.FileHash(user, filename) == hash {
        return FileUpdated;
      }
    }
    if reply.None? {
      return Error("Error receiving request");
    }
    r := HandleUpload(db, user, reply.value, others);
  }

  /** The bytes on disk, without the transaction id. */
  function Contents(t: Tree): Tree {
    t - {TID_FILE}
  }

  /** What the hash-checked update makes of the disk. */
  function CheckedUpdate(H: Hasher, u: string, f: string, content: string, tid: nat, l: Local): Local {
    if Skips(l.state, u, f, Digest(H, content)) then l else After(H, Upload(u, f, content, tid), l)
  }

  lemma UploadEnds(H: Hasher, u: string, f: string, content: string, tid: nat, l: Local)
    requires Coupled(H, l.state, l.tree) && l.state.HasUser(u) && GoodName(f) && f != PASSWORD_FILE
    ensures After(H, Upload(u, f, content, tid), l).tree == CommittedTree(FileChange(u, f, false, content), tid, l.tree)
    ensures u != TID_FILE && IsFolder(l.tree, u)
  {
    Finishes(H, Upload(u, f, content, tid), l);
  }

  lemma SameBytes(u: string, f: string, content: string, tid: nat, t: Tree)
    requires u != TID_FILE && IsFolder(t, u)
    ensures Contents(CommittedTree(FileChange(u, f, false, content), tid, t)) == Contents(t)
            <==> f in t[u].files && t[u].files[f] == content
  {
    var plain, files := CommittedTree(FileChange(u, f, false, content), tid, t), t[u].files;
    assert Contents(plain) == Contents(t)[u := Folder(files[f := content])];
    assert Contents(t)[u] == Folder(files) && Contents(plain)[u] == Folder(files[f := content]);
    assert files[f := content][f] == content;
    if f in files && files[f] == content {
      assert files[f := content] == files;
    }
  }

  /** The update ends with the bytes of a plain upload exactly when it was not skipped, or the bytes it skipped are the
      ones already there. */
  lemma CheckedIsUpload(H: Hasher, u: string, f: string, content: string, tid: nat, l: Local)
    requires Coupled(H, l.state, l.tree) && l.state.HasUser(u) && GoodName(f) && f != PASSWORD_FILE
    ensures Contents(CheckedUpdate(H, u, f, content, tid, l).tree)
            == Contents(After(H, Upload(u, f, content, tid), l).tree)
            <==> (Skips(l.state, u, f, Digest(H, content)) ==>
                    f in FilesIn(l.tree, u) && FilesIn(l.tree, u)[f] == content)
  {
    UploadEnds(H, u, f, content, tid, l);
    SameBytes(u, f, content, tid, l.tree);
  }

  /** A skipped update finds the digest of the bytes on disk. */
  lemma SkipsOnDigest(H: Hasher, u: string, f: string, content: string, l: Local)
    requires Coupled(H, l.state, l.tree) && l.state.HasUser(u) && f != PASSWORD_FILE
    ensures Skips(l.state, u, f, Digest(H, content)) <==>
              f in FilesIn(l.tree, u) && Digest(H, FilesIn(l.tree, u)[f]) == Digest(H, content)
  {
    assert FolderMatches(H, l.state.passwords[u], l.state.FilesOf(u), l.tree[u].files);
  }

  /** If equal digests mean equal bytes, the update is a plain upload. */
  lemma CheckedIsUploadWithoutCollisions(H: Hasher, u: string, f: string, content: string, tid: nat, l: Local)
    requires Coupled(H, l.state, l.tree) && l.state.HasUser(u) && GoodName(f) && f != PASSWORD_FILE
    requires forall stored :: Digest(H, stored) == Digest(H, content) ==> stored == content
    ensures Contents(CheckedUpdate(H, u, f, content, tid, l).tree)
            == Contents(After(H, Upload(u, f, content, tid), l).tree)
  {
    SkipsOnDigest(H, u, f, content, l);
    CheckedIsUpload(H, u, f, content, tid, l);
  }

  // ---- which updates get lost ----

  ghost predicate CollisionFree(H: Hasher) {
    forall x, y :: H(x) == H(y) ==> x == y
  }

  /** Skipped although the bytes differ. */
  lemma LostOnCollision(H: Hasher, u: string, f: string, content: string, tid: nat, l: Local)
    requires Coupled(H, l.state, l.tree) && l.state.HasUser(u) && GoodName(f) && f != PASSWORD_FILE
    requires f in FilesIn(l.tree, u)
    ensures Contents(CheckedUpdate(H, u, f, content, tid, l).tree)
            != Contents(After(H, Upload(u, f, content, tid), l).tree)
            <==> FilesIn(l.tree, u)[f] != content && Digest(H, FilesIn(l.tree, u)[f]) == Digest(H, content)
  {
    SkipsOnDigest(H, u, f, content, l);
    CheckedIsUpload(H, u, f, content, tid, l);
  }

  /** A small file that only gets a zero byte more stays as it was, in every coupled state and for every hash function:
      the update is skipped. */
  lemma ZeroByteLost(H: Hasher, u: string, f: string, tid: nat, l: Local)
    requires Coupled(H, l.state, l.tree) && l.state.HasUser(u) && GoodName(f) && f != PASSWORD_FILE
    requires f in FilesIn(l.tree, u) && 0 < |FilesIn(l.tree, u)[f]| < CHUNK_SIZE
    ensures var content := FilesIn(l.tree, u)[f] + ['\0'];
      && CheckedUpdate(H, u, f, content, tid, l) == l
      && Contents(l.tree) != Contents(After(H, Upload(u, f, content, tid), l).tree)
  {
    var stored := FilesIn(l.tree, u)[f];
    PaddingCollides(H, stored);
    assert |stored + ['\0']| != |stored|;
    LostOnCollision(H, u, f, stored + ['\0'], tid, l);
    SkipsOnDigest(H, u, f, stored + ['\0'], l);
  }

  /** The longer content goes on with what the read buffer held behind the shorter one. */
  predicate Continues(a: string, b: string) {
    var zeros := Zeros(CHUNK_SIZE);
    if |a| <= |b| then |b| <= |Stream(zeros, a)| && b == Stream(zeros, a)[..|b|]
    else |a| <= |Stream(zeros, b)| && a == Stream(zeros, b)[..|a|]
  }

  /** Even with a hash function without collisions an update is lost: exactly when the new bytes differ from the old
      ones, and the longer of the two goes on with what the read buffer held behind the shorter one. */
  lemma LostIffContinued(H: Hasher, u: string, f: string, content: string, tid: nat, l: Local)
    requires Coupled(H, l.state, l.tree) && l.state.HasUser(u) && GoodName(f) && f != PASSWORD_FILE
    requires CollisionFree(H) && f in FilesIn(l.tree, u)
    ensures var stored := FilesIn(l.tree, u)[f];
      Contents(CheckedUpdate(H, u, f, content, tid, l).tree)
      != Contents(After(H, Upload(u, f, content, tid), l).tree)
      <==> stored != content && Continues(stored, content)
  {
    LostOnCollision(H, u, f, content, tid, l);
    SameDigestIffContinued(H, FilesIn(l.tree, u)[f], content);
  }

  lemma SameDigestIffContinued(H: Hasher, a: string, b: string)
    requires CollisionFree(H)
    ensures Digest(H, a) == Digest(H, b) <==> Continues(a, b)
  {
    if |a| <= |b| {
      SameStream(Zeros(CHUNK_SIZE), a, b);
    } else {
      SameStream(Zeros(CHUNK_SIZE), b, a);
    }
  }

  /** For files of at most one buffer that means zero bytes at the end. */
  lemma ContinuesWithZeros(a: string, b: string)
    requires 0 < |a| <= |b| <= CHUNK_SIZE
    ensures Continues(a, b) <==> b == a + Zeros(|b| - |a|)
  {
    var zeros := Zeros(CHUNK_SIZE);
    assert Stream(zeros, a) == Fill(zeros, a);
    assert Fill(zeros, a)[..|b|] == a + Zeros(|b| - |a|);
  }
}
