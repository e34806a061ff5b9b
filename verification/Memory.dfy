/** The `ServerState` object: maps changed in place, read by loops, and rebuilt from disk by `Init`.
    Each method is proved against the value `Model()`. */
module Memory {
  import opened Disk
  import opened Records
  import opened Digests
  import opened Text
  import opened Changes
  import opened Recovery

  class ServerState {
    var passwords: map<string, string>
    var sessions: map<int, string>
    var usersLastTid: map<string, nat>
    var files: map<string, FileList>
    var frontends: seq<Frontend>
    var lastTid: nat

    function Model(): State
      reads this
    {
      State(passwords, sessions, usersLastTid, files, frontends, lastTid)
    }

    constructor ()
      ensures Model() == EmptyState
    {
      passwords, sessions, usersLastTid, files, frontends, lastTid := map[], map[], map[], map[], [], 0;
    }

    /** The copy that a transaction works on. */
    constructor Copy(other: ServerState)
      ensures Model() == other.Model()
    {
      passwords, sessions, usersLastTid := other.passwords, other.sessions, other.usersLastTid;
      files, frontends, lastTid := other.files, other.frontends, other.lastTid;
    }

    /** Assignment, as a commit does it. */
    method Assign(other: ServerState)
      modifies this
      ensures Model() == old(other.Model())
    {
      passwords, sessions, usersLastTid := other.passwords, other.sessions, other.usersLastTid;
      files, frontends, lastTid := other.files, other.frontends, other.lastTid;
    }

    method AddSession(id: int, user: string)
      modifies this
      ensures Model() == old(Model()).(sessions := Emplace(old(sessions), id, user))
    {
      sessions := Emplace(sessions, id, user);
    }

    method RemoveSession(id: int)
      modifies this
      ensures Model() == old(Model()).(sessions := old(sessions) - {id})
    {
      sessions := sessions - {id};
    }

    method AddUser(user: string, password: string)
      modifies this
      ensures Model() == old(Model()).(passwords := Emplace(old(passwords), user, password))
    {
      passwords := Emplace(passwords, user, password);
    }

    method SetUserLastTid(user: string, tid: nat)
      modifies this
      ensures Model() == old(Model()).(usersLastTid := Emplace(old(usersLastTid), user, tid))
    {
      usersLastTid := Emplace(usersLastTid, user, tid);
    }

    method SetLastTid(tid: nat)
      modifies this
      ensures Model() == old(Model()).(lastTid := tid)
    {
      lastTid := tid;
    }

    method AddFrontend(hostname: string, port: int)
      modifies this
      ensures Model() == old(Model()).(frontends := old(frontends) + [Frontend(hostname, port)])
    {
      frontends := frontends + [Frontend(hostname, port)];
    }

    method RemoveFile(user: string, file: string)
      modifies this
      ensures Model() == old(Model()).DropFile(user, file)
    {
      if user !in files { return; }
      if file !in files[user] { return; }
      files := files[user := files[user] - {file}];
    }

    /** Replaces an entry that exists. */
    method UpdateFile(user: string, file: string, entry: UserFile)
      modifies this
      ensures Model() == if old(Model()).HasFile(user, file) then old(Model()).PutFile(user, file, entry)
                         else old(Model())
    {
      if user !in files { return; }
      if file !in files[user] { return; }
      files := files[user := files[user][file := entry]];
    }

    /** Adds an entry that does not exist; the user's table is made if it is the first. */
    method AddFile(user: string, file: string, entry: UserFile)
      modifies this
      ensures !old(Model()).HasFile(user, file) ==> Model() == old(Model()).PutFile(user, file, entry)
      ensures old(Model()).HasFile(user, file) ==> Model() == old(Model())
    {
      if user !in files {
        files := files[user := map[]];
      }
      files := files[user := Emplace(files[user], file, entry)];
    }

    /** The entries of a user changed after `tid`, each once. */
    method GetUserFilesSince(user: string, tid: int) returns (found: seq<UserFile>, names: seq<string>)
      ensures |found| == |names|
      ensures forall i, j :: 0 <= i < j < |names| ==> names[i] != names[j]
      ensures forall i :: 0 <= i < |names| ==>
                names[i] in Model().FilesSince(user, tid) && found[i] == Model().FilesSince(user, tid)[names[i]]
      ensures forall f :: f in Model().FilesSince(user, tid) ==> f in names
    {
      found, names := [], [];
      if user !in files { return; }
      var table := files[user];
      var todo := table.Keys;
      while todo != {}
        invariant todo <= table.Keys
        invariant |found| == |names|
        invariant forall i :: 0 <= i < |names| ==>
                    names[i] in table.Keys - todo && table[names[i]].lastTid > tid && found[i] == table[names[i]]
        invariant forall i, j :: 0 <= i < j < |names| ==> names[i] != names[j]
        invariant forall f :: f in table.Keys - todo && table[f].lastTid > tid ==> f in names
        decreases todo
      {
        var f :| f in todo;
        todo := todo - {f};
        if table[f].lastTid > tid {
          found, names := found + [table[f]], names + [f];
        }
      }
    }

    /** The sessions of a user, each once. */
    method GetUserSessions(user: string) returns (found: seq<int>)
      ensures Distinct(found)
      ensures forall id :: id in found <==> id in Model().SessionsOf(user)
      ensures |found| == |Model().SessionsOf(user)|
    {
      found := [];
      var todo := sessions.Items;
      while todo != {}
        invariant todo <= sessions.Items
        invariant Distinct(found)
        invariant forall id :: id in found <==>
                    id in sessions && sessions[id] == user && (id, sessions[id]) !in todo
        decreases todo
      {
        var item :| item in todo;
        todo := todo - {item};
        if item.1 == user {
          found := found + [item.0];
        }
      }
      DistinctLength(found, Model().SessionsOf(user));
    }

    /** Reads one user folder: staging files are removed, the password file gives the password, and every other
        file an entry. */
    method ScanFolder(H: Hasher, fs: FileSystem, u: string)
      requires IsFolder(fs.tree, u) && u !in passwords && u !in files
      modifies this, fs
      ensures fs.tree == old(fs.tree)[u := Folder(Seen(FilesIn(old(fs.tree), u)))]
      ensures Model() == WithFolder(H, old(Model()), u, Seen(FilesIn(old(fs.tree), u)))
    {
      ghost var t0, s0 := fs.tree, Model();
      var folder := fs.tree[u].files;
      var todo := folder.Keys;
      ScanStart(H, t0, s0, u);
      while todo != {}
        invariant todo <= folder.Keys
        invariant fs.tree == t0[u := Folder(Scanned(folder, todo))]
        invariant Model() == WithFolder(H, s0, u, Seen(folder - todo))
        decreases todo
      {
        var f :| f in todo;
        ScanOne(folder, todo, f);
        if Tilde(f) {
          var _ := fs.Do(RemoveIn(u, f));
        } else if f == PASSWORD_FILE {
          PasswordStep(H, s0, u, Seen(folder - todo), folder[f]);
          AddUser(u, Token(folder[f]));
        } else {
          FileStep(H, s0, u, Seen(folder - todo), f, folder[f]);
          AddFile(u, f, UserFile(f, Digest(H, folder[f]), 0, AsInt(|folder[f]|), false));
        }
        todo := todo - {f};
      }
      ScanEnd(folder);
    }

    /** Reads one entry of the server's directory. */
    method ScanEntry(H: Hasher, fs: FileSystem, n: string) returns (threw: bool)
      requires n in fs.tree && (!Tilde(n) ==> n !in passwords && n !in files)
      modifies this, fs
      ensures threw <==> Tilde(n) && FilesIn(old(fs.tree), n) != map[]
      ensures !threw ==>
                && fs.tree == (if Tilde(n) then old(fs.tree) - {n} else old(fs.tree)[n := SeenNode(old(fs.tree)[n])])
                && Model() == WithEntry(H, old(Model()), n, old(fs.tree)[n])
    {
      threw := false;
      if Tilde(n) {
        threw := fs.Do(RemoveTop(n));
      } else if IsFolder(fs.tree, n) {
        ScanFolder(H, fs, n);
      } else if n == TID_FILE {
        SetLastTid(Parse(fs.tree[n].data));
      }
    }

    /** `init`: rebuild the state from disk and clean the disk up. Directory entries come in any order. */
    method Init(H: Hasher, fs: FileSystem) returns (threw: bool)
      requires Model() == EmptyState
      modifies this, fs
      ensures threw <==> InitThrows(old(fs.tree))
      ensures !threw ==> Model() == Recovered(H, old(fs.tree)) && fs.tree == Visible(old(fs.tree))
    {
      ghost var t0 := fs.tree;
      var todo := fs.tree.Keys;
      InitStart(H, t0);
      while todo != {}
        invariant todo <= t0.Keys
        invariant fs.tree == Partly(t0, todo)
        invariant Model() == Recovered(H, t0 - todo)
        invariant !InitThrows(t0 - todo)
        decreases todo
      {
        var n :| n in todo;
        InitOne(H, t0, todo, n);
        threw := ScanEntry(H, fs, n);
        todo := todo - {n};
        if threw {
          ThrowsMore(t0, todo);
          return;
        }
      }
      threw := false;
      assert t0 - todo == t0 && Partly(t0, todo) == Visible(t0);
    }
  }

  lemma ThrowsMore(t: Tree, todo: set<string>)
    requires InitThrows(t - todo)
    ensures InitThrows(t)
  {
    var n :| n in t - todo && Tilde(n) && FilesIn(t - todo, n) != map[];
    assert n in t && FilesIn(t, n) == FilesIn(t - todo, n);
  }

  /** The disk during start-up: the entries not yet reached are as they were. */
  ghost function Partly(t: Tree, todo: set<string>): Tree {
    map n | n in t && (n in todo || !Tilde(n)) :: if n in todo then t[n] else Visible(t)[n]
  }

  lemma InitStart(H: Hasher, t: Tree)
    ensures t - t.Keys == map[] && Partly(t, t.Keys) == t
    ensures Recovered(H, map[]) == EmptyState && !InitThrows(map[])
  {
    assert Visible(map[]) == map[];
  }

  lemma VisibleAdd(t: Tree, n: string, x: Node)
    requires n !in t
    ensures Visible(t[n := x]) ==
            if Tilde(n) then Visible(t)
            else Visible(t)[n := SeenNode(x)]
  {
  }

  lemma PasswordsAdd(v: Tree, n: string, x: Node)
    requires n !in v
    ensures n !in RecoveredPasswords(v)
    ensures RecoveredPasswords(v[n := x]) ==
            if x.Folder? && PASSWORD_FILE in x.files then RecoveredPasswords(v)[n := Token(x.files[PASSWORD_FILE])]
            else RecoveredPasswords(v)
  {
  }

  lemma FilesAdd(H: Hasher, v: Tree, n: string, x: Node)
    requires n !in v
    ensures n !in RecoveredFiles(H, v)
    ensures RecoveredFiles(H, v[n := x]) ==
            if x.Folder? && x.files.Keys - {PASSWORD_FILE} != {}
            then RecoveredFiles(H, v)[n := RecoveredList(H, x.files)] else RecoveredFiles(H, v)
  {
    var v' := v[n := x];
    if x.Folder? && x.files.Keys - {PASSWORD_FILE} != {} {
      assert n in RecoveredFiles(H, v');
      assert RecoveredFiles(H, v') == RecoveredFiles(H, v)[n := RecoveredList(H, x.files)];
    } else {
      assert n !in RecoveredFiles(H, v');
      assert RecoveredFiles(H, v') == RecoveredFiles(H, v);
    }
  }

  lemma ThrowsAdd(t: Tree, n: string, x: Node)
    requires n !in t
    ensures InitThrows(t[n := x]) <==> InitThrows(t) || (Tilde(n) && FilesIn(t[n := x], n) != map[])
  {
    var t' := t[n := x];
    if InitThrows(t) {
      var m :| m in t && Tilde(m) && FilesIn(t, m) != map[];
      assert m in t' && FilesIn(t', m) == FilesIn(t, m);
    }
    if InitThrows(t') {
      var m :| m in t' && Tilde(m) && FilesIn(t', m) != map[];
      assert m != n ==> m in t && FilesIn(t', m) == FilesIn(t, m);
    }
    assert n in t';
  }

  lemma PartlyOne(t: Tree, todo: set<string>, n: string)
    requires todo <= t.Keys && n in todo
    ensures Partly(t, todo - {n}) ==
            if Tilde(n) then Partly(t, todo) - {n} else Partly(t, todo)[n := SeenNode(t[n])]
  {
  }

  lemma InitOne(H: Hasher, t: Tree, todo: set<string>, n: string)
    requires todo <= t.Keys && n in todo
    ensures Partly(t, todo - {n}) ==
            if Tilde(n) then Partly(t, todo) - {n} else Partly(t, todo)[n := SeenNode(t[n])]
    ensures InitThrows(t - (todo - {n})) <==> InitThrows(t - todo) || (Tilde(n) && FilesIn(t, n) != map[])
    ensures var before := Recovered(H, t - todo);
      && (!Tilde(n) ==> n !in before.passwords && n !in before.files)
      && Recovered(H, t - (todo - {n})) == WithEntry(H, before, n, t[n])
  {
    PartlyOne(t, todo, n);
    assert t - (todo - {n}) == (t - todo)[n := t[n]];
    ThrowsAdd(t - todo, n, t[n]);
    RecoveredAdd(H, t - todo, n, t[n]);
  }

  /** A state with what one entry of the directory adds. */
  function WithEntry(H: Hasher, s: State, n: string, x: Node): State {
    if Tilde(n) then s
    else if x.Folder? then WithFolder(H, s, n, Seen(x.files))
    else if n == TID_FILE then s.(lastTid := Parse(x.data))
    else s
  }

  lemma RecoveredAdd(H: Hasher, t: Tree, n: string, x: Node)
    requires n !in t
    ensures !Tilde(n) ==> n !in Recovered(H, t).passwords && n !in Recovered(H, t).files
    ensures Recovered(H, t[n := x]) == WithEntry(H, Recovered(H, t), n, x)
  {
    VisibleAdd(t, n, x);
    if !Tilde(n) {
      var seen := SeenNode(x);
      PasswordsAdd(Visible(t), n, seen);
      FilesAdd(H, Visible(t), n, seen);
    }
  }

  ghost predicate Distinct(ids: seq<int>) {
    forall i, j :: 0 <= i < j < |ids| ==> ids[i] != ids[j]
  }

  lemma {:induction false} DistinctLength(ids: seq<int>, all: set<int>)
    requires Distinct(ids) && forall id :: id in ids <==> id in all
    ensures |ids| == |all|
    decreases ids
  {
    if ids == [] {
      assert all == {} by {
        forall id | id in all ensures id in ids {}
      }
    } else {
      var last, rest := ids[|ids| - 1], ids[..|ids| - 1];
      forall id ensures id in rest <==> id in all - {last} {
        if id in all && id != last {
          var k :| 0 <= k < |ids| && ids[k] == id;
          assert rest[k] == id;
        }
      }
      DistinctLength(rest, all - {last});
    }
  }

  /** A state with what one scanned folder adds. */
  function WithFolder(H: Hasher, s: State, u: string, seen: map<string, string>): State {
    s.(passwords := if PASSWORD_FILE in seen then s.passwords[u := Token(seen[PASSWORD_FILE])] else s.passwords,
       files := if seen.Keys - {PASSWORD_FILE} != {} then s.files[u := RecoveredList(H, seen)] else s.files)
  }

  lemma ScanStart(H: Hasher, t: Tree, s: State, u: string)
    requires IsFolder(t, u)
    ensures var folder := t[u].files;
      && t == t[u := Folder(Scanned(folder, folder.Keys))]
      && Seen(folder - folder.Keys) == map[] && s == WithFolder(H, s, u, map[])
  {
    assert Scanned(t[u].files, t[u].files.Keys) == t[u].files;
  }

  lemma ScanEnd(folder: map<string, string>)
    ensures folder - {} == folder && Scanned(folder, {}) == Seen(folder)
  {
  }

  lemma PasswordStep(H: Hasher, s: State, u: string, done: map<string, string>, content: string)
    requires u !in s.passwords && PASSWORD_FILE !in done
    ensures var before := WithFolder(H, s, u, done);
      WithFolder(H, s, u, done[PASSWORD_FILE := content])
      == before.(passwords := Emplace(before.passwords, u, Token(content)))
  {
    assert RecoveredList(H, done[PASSWORD_FILE := content]) == RecoveredList(H, done);
    assert done[PASSWORD_FILE := content].Keys - {PASSWORD_FILE} == done.Keys - {PASSWORD_FILE};
  }

  lemma ListAdd(H: Hasher, done: map<string, string>, f: string, content: string)
    requires f !in done && f != PASSWORD_FILE
    ensures RecoveredList(H, done[f := content]) ==
            RecoveredList(H, done)[f := UserFile(f, Digest(H, content), 0, AsInt(|content|), false)]
    ensures done[f := content].Keys - {PASSWORD_FILE} == done.Keys - {PASSWORD_FILE} + {f}
  {
  }

  lemma ScannedTable(H: Hasher, s: State, u: string, done: map<string, string>)
    requires u !in s.files
    ensures WithFolder(H, s, u, done).FilesOf(u) == RecoveredList(H, done)
    ensures RecoveredList(H, done).Keys == done.Keys - {PASSWORD_FILE}
  {
  }

  lemma FileStep(H: Hasher, s: State, u: string, done: map<string, string>, f: string, content: string)
    requires u !in s.files && f !in done && f != PASSWORD_FILE
    ensures var before := WithFolder(H, s, u, done);
      && !before.HasFile(u, f)
      && WithFolder(H, s, u, done[f := content])
         == before.PutFile(u, f, UserFile(f, Digest(H, content), 0, AsInt(|content|), false))
  {
    var before, after := WithFolder(H, s, u, done), WithFolder(H, s, u, done[f := content]);
    ListAdd(H, done, f, content);
    ScannedTable(H, s, u, done);
    assert f in done[f := content].Keys - {PASSWORD_FILE};
    assert after.passwords == before.passwords;
    assert after.files == s.files[u := RecoveredList(H, done[f := content])];
    assert before.files[u := after.files[u]] == after.files;
  }

  /** A folder during the scan: staging files not yet reached are still there. */
  ghost function Scanned(folder: map<string, string>, todo: set<string>): map<string, string> {
    map f | f in folder && (f in todo || !Tilde(f)) :: folder[f]
  }

  lemma ScanOne(folder: map<string, string>, todo: set<string>, f: string)
    requires f in todo && todo <= folder.Keys
    ensures Seen(folder - (todo - {f})) ==
            if Tilde(f) then Seen(folder - todo) else Seen(folder - todo)[f := folder[f]]
    ensures Scanned(folder, todo - {f}) ==
            if Tilde(f) then Scanned(folder, todo) - {f} else Scanned(folder, todo)
  {
  }
}
