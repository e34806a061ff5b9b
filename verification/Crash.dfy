/** What start-up finds after the server stops at any point inside a transaction, even in the middle of a write. */
module Crash {
  import opened Disk
  import opened Records
  import opened Text
  import opened Changes
  import opened Coupling
  import opened Recovery

  /** Everything start-up reads except the tid. */
  function Body(t: Tree): Tree {
    Visible(t) - {TID_FILE}
  }

  /** The tid file is as before, or the new one, or missing. */
  predicate TidOldOrNew(tid: nat, t: Tree, found: Tree) {
    TID_FILE in found ==>
      found[TID_FILE] == File(Show(tid)) || (TID_FILE in t && found[TID_FILE] == t[TID_FILE])
  }

  /** The folders under top-level staging names are those that were there before. */
  ghost predicate SameStaging(t: Tree, found: Tree) {
    forall n :: Tilde(n) ==> FilesIn(found, n) == FilesIn(t, n)
  }

  /** A found disk is whole: users and files are all old or, if the change could be staged at all, all new.
      For all kinds but CreateUser it can also be started from whenever the old one could. */
  ghost predicate Whole(c: Change, tid: nat, t: Tree, found: Tree) {
    && (Body(found) == Body(t) || (Ready(c, t) && Body(found) == Body(CommittedTree(c, tid, t))))
    && TidOldOrNew(tid, t, found)
    && (c.CreateUser? || SameStaging(t, found))
  }

  ghost predicate TornWhole(c: Change, tid: nat, t: Tree, from: Tree, op: Op) {
    forall n: nat :: Whole(c, tid, t, Apply(Torn(op, n), from))
  }

  /** `Whole` for every state a crash inside `ops` can leave. */
  ghost predicate AlwaysWhole(c: Change, tid: nat, t: Tree, from: Tree, ops: seq<Op>)
    decreases ops
  {
    && Whole(c, tid, t, from)
    && (ops != [] ==>
          && TornWhole(c, tid, t, from, ops[0])
          && AlwaysWhole(c, tid, t, Apply(ops[0], from), ops[1..]))
  }

  lemma {:induction false} CrashIsWhole(c: Change, tid: nat, t: Tree, from: Tree, ops: seq<Op>, found: Tree)
    requires AlwaysWhole(c, tid, t, from, ops) && CrashState(from, ops, found)
    ensures Whole(c, tid, t, found)
    decreases ops
  {
    if found != from && CrashState(Apply(ops[0], from), ops[1..], found) {
      CrashIsWhole(c, tid, t, Apply(ops[0], from), ops[1..], found);
    }
  }

  lemma {:induction false} WholeAppend(c: Change, tid: nat, t: Tree, from: Tree, a: seq<Op>, b: seq<Op>)
    requires AlwaysWhole(c, tid, t, from, a) && AlwaysWhole(c, tid, t, Run(from, a), b)
    ensures AlwaysWhole(c, tid, t, from, a + b)
    decreases a
  {
    if a == [] {
      assert a + b == b;
    } else {
      assert (a + b)[1..] == a[1..] + b && (a + b)[0] == a[0];
      WholeAppend(c, tid, t, Apply(a[0], from), a[1..], b);
    }
  }

  lemma WholeOne(c: Change, tid: nat, t: Tree, from: Tree, op: Op)
    requires Whole(c, tid, t, from)
    requires TornWhole(c, tid, t, from, op)
    requires Whole(c, tid, t, Apply(op, from))
    ensures AlwaysWhole(c, tid, t, from, [op])
  {
    assert [op][1..] == [];
  }

  /** Changing an entry under a staging name, or the tid file, is not seen. */
  lemma TopUnseen(t: Tree, n: string, x: Node)
    requires Tilde(n) || n == TID_FILE
    ensures Body(t[n := x]) == Body(t) && Body(t - {n}) == Body(t)
  {
    assert Body(t[n := x]) == Body(t);
    assert Body(t - {n}) == Body(t);
  }

  lemma BodyPut(t: Tree, u: string, files: map<string, string>)
    requires !Tilde(u) && u != TID_FILE
    ensures Body(t[u := Folder(files)]) == Body(t)[u := Folder(Seen(files))]
  {
  }

  lemma BodyHas(t: Tree, u: string)
    requires IsFolder(t, u) && !Tilde(u) && u != TID_FILE
    ensures Body(t)[u := Folder(Seen(t[u].files))] == Body(t)
  {
  }

  /** Changing a staged file in a folder is not seen. */
  lemma InnerUnseen(t: Tree, u: string, f: string, data: string)
    requires IsFolder(t, u) && Tilde(f) && !Tilde(u) && u != TID_FILE
    ensures Body(t[u := Folder(t[u].files[f := data])]) == Body(t)
    ensures Body(t[u := Folder(t[u].files - {f})]) == Body(t)
  {
    var files := t[u].files;
    VisibleFolder(files[f := data], files);
    VisibleFolder(files - {f}, files);
    BodyPut(t, u, files[f := data]);
    BodyPut(t, u, files - {f});
    BodyHas(t, u);
  }

  lemma VisibleFolder(a: map<string, string>, b: map<string, string>)
    requires forall f :: !Tilde(f) ==> (f in a <==> f in b) && (f in a && f in b ==> a[f] == b[f])
    ensures Seen(a) == Seen(b)
  {
  }

  /** Operations that start-up cannot see. Those on a staged folder belong to CreateUser. */
  predicate Hidden(op: Op, from: Tree, create: bool) {
    match op
    case WriteTop(n, _) => n == TID_STAGED && n !in from
    case RemoveTop(n) => (n == TID_STAGED || n == TID_FILE) && FilesIn(from, n) == map[]
    case WriteIn(u, f, _) => if Tilde(u) then create else Tilde(f) && u != TID_FILE
    case RemoveIn(u, f) => Tilde(f) && !Tilde(u) && u != TID_FILE
    case MakeDir(n) => Tilde(n) && create
    case RemoveAll(n) => Tilde(n) && create
    case _ => false
  }

  lemma HiddenBody(from: Tree, op: Op, create: bool)
    requires Hidden(op, from, create)
    ensures Body(Apply(op, from)) == Body(from)
  {
    assert Tilde(TID_STAGED) && !Tilde(TID_FILE);
    match op
    case WriteTop(n, data) => TopUnseen(from, n, File(data));
    case RemoveTop(n) => TopUnseen(from, n, File(""));
    case WriteIn(u, f, data) =>
      if IsFolder(from, u) {
        if Tilde(u) {
          TopUnseen(from, u, Folder(from[u].files[f := data]));
        } else {
          InnerUnseen(from, u, f, data);
        }
      }
    case RemoveIn(u, f) =>
      if IsFolder(from, u) {
        InnerUnseen(from, u, f, "");
      }
    case MakeDir(n) => TopUnseen(from, n, Folder(map[]));
    case RemoveAll(n) => TopUnseen(from, n, Folder(map[]));
    case _ =>
  }

  lemma HiddenRest(from: Tree, op: Op, create: bool)
    requires Hidden(op, from, create)
    ensures TID_FILE in Apply(op, from) ==> TID_FILE in from && Apply(op, from)[TID_FILE] == from[TID_FILE]
    ensures !create ==> SameStaging(from, Apply(op, from))
  {
    assert Tilde(TID_STAGED) && !Tilde(TID_FILE);
  }

  lemma UnseenApply(c: Change, tid: nat, t: Tree, from: Tree, op: Op)
    requires Whole(c, tid, t, from) && Hidden(op, from, c.CreateUser?)
    ensures Whole(c, tid, t, Apply(op, from))
  {
    HiddenBody(from, op, c.CreateUser?);
    HiddenRest(from, op, c.CreateUser?);
  }

  /** A hidden operation is hidden wherever it is cut. */
  lemma UnseenOp(c: Change, tid: nat, t: Tree, from: Tree, op: Op)
    requires Whole(c, tid, t, from) && Hidden(op, from, c.CreateUser?)
    ensures AlwaysWhole(c, tid, t, from, [op])
  {
    forall n: nat ensures Whole(c, tid, t, Apply(Torn(op, n), from)) {
      UnseenApply(c, tid, t, from, Torn(op, n));
    }
    UnseenApply(c, tid, t, from, op);
    WholeOne(c, tid, t, from, op);
  }

  /** An operation that is atomic on disk only has to end whole. */
  lemma RenameWhole(c: Change, tid: nat, t: Tree, from: Tree, op: Op)
    requires op.RenameTop? || op.RenameIn?
    requires Whole(c, tid, t, from) && Whole(c, tid, t, Apply(op, from))
    ensures AlwaysWhole(c, tid, t, from, [op])
  {
    WholeOne(c, tid, t, from, op);
  }

  lemma TwoSegments(c: Change, tid: nat, t: Tree, from: Tree, a: Op, b: Op)
    requires AlwaysWhole(c, tid, t, from, [a]) && AlwaysWhole(c, tid, t, Apply(a, from), [b])
    ensures AlwaysWhole(c, tid, t, from, [a, b])
    ensures AlwaysWhole(c, tid, t, Run(from, [a, b]), [])
  {
    assert [a][1..] == [] && [b][1..] == [];
    assert [a, b] == [a] + [b];
    OneOp(from, a);
    TwoOps(from, a, b);
    WholeAppend(c, tid, t, from, [a], [b]);
  }

  lemma LastWhole(c: Change, tid: nat, t: Tree, from: Tree, op: Op)
    requires AlwaysWhole(c, tid, t, from, [op])
    ensures Whole(c, tid, t, from) && Whole(c, tid, t, Apply(op, from))
  {
    assert [op][1..] == [];
  }

  lemma BeginWhole(c: Change, tid: nat, t: Tree)
    requires TID_STAGED !in t
    ensures AlwaysWhole(c, tid, t, t, BeginOps(tid))
    ensures Whole(c, tid, t, t[TID_STAGED := File(Show(tid))])
  {
    UnseenOp(c, tid, t, t, BeginOps(tid)[0]);
    LastWhole(c, tid, t, t, BeginOps(tid)[0]);
    BeginRun(tid, t, []);
  }

  /** The staged copy of a deleted file hides the file from start-up. */
  lemma StagedDeleteSeen(u: string, f: string, content: string, tid: nat, t: Tree)
    requires IsFolder(t, u) && f in t[u].files && !Tilde(f) && !Tilde(u) && u != TID_FILE
    ensures var c := FileChange(u, f, true, content); Body(StagedTree(c, tid, t)) == Body(CommittedTree(c, tid, t))
  {
    var files := t[u].files;
    assert Tilde(f + "~");
    VisibleFolder((files - {f})[f + "~" := files[f]], files - {f});
    BodyPut(t[TID_STAGED := File(Show(tid))], u, (files - {f})[f + "~" := files[f]]);
    BodyPut(t[TID_FILE := File(Show(tid))], u, files - {f});
    TopUnseen(t, TID_STAGED, File(Show(tid)));
    TopUnseen(t, TID_FILE, File(Show(tid)));
  }

  lemma StagedDeleteBody(u: string, f: string, content: string, tid: nat, t: Tree)
    requires Ready(FileChange(u, f, true, content), t) && !Tilde(f) && !Tilde(u)
    ensures var c := FileChange(u, f, true, content); Whole(c, tid, t, StagedTree(c, tid, t))
  {
    assert Tilde(TID_STAGED) && !Tilde(TID_FILE);
    StagedDeleteSeen(u, f, content, tid, t);
  }

  lemma StageWhole(c: Change, tid: nat, t: Tree)
    requires Ready(c, t)
    requires c.FileChange? ==> !Tilde(c.filename) && !Tilde(c.username)
    ensures AlwaysWhole(c, tid, t, t[TID_STAGED := File(Show(tid))], StageOps(c))
    ensures Whole(c, tid, t, StagedTree(c, tid, t))
  {
    var begun := t[TID_STAGED := File(Show(tid))];
    BeginWhole(c, tid, t);
    StageReady(c, tid, t);
    match c {
      case CreateUser(u, p) =>
        assert Tilde(u + "~");
        UnseenOp(c, tid, t, begun, MakeDir(u + "~"));
        LastWhole(c, tid, t, begun, MakeDir(u + "~"));
        var mid := Apply(MakeDir(u + "~"), begun);
        UnseenOp(c, tid, t, mid, WriteIn(u + "~", PASSWORD_FILE, p));
        LastWhole(c, tid, t, mid, WriteIn(u + "~", PASSWORD_FILE, p));
        TwoSegments(c, tid, t, begun, MakeDir(u + "~"), WriteIn(u + "~", PASSWORD_FILE, p));
        TwoOps(begun, MakeDir(u + "~"), WriteIn(u + "~", PASSWORD_FILE, p));
      case FileChange(u, f, deleted, content) =>
        assert Tilde(f + "~");
        OneOp(begun, StageOps(c)[0]);
        if deleted {
          StagedDeleteBody(u, f, content, tid, t);
          RenameWhole(c, tid, t, begun, StageOps(c)[0]);
        } else {
          UnseenOp(c, tid, t, begun, StageOps(c)[0]);
          LastWhole(c, tid, t, begun, StageOps(c)[0]);
        }
      case _ =>
    }
  }

  lemma PublishWhole(c: Change, tid: nat, t: Tree, st: Tree)
    requires Whole(c, tid, t, st)
    requires TID_STAGED in st && st[TID_STAGED] == File(Show(tid)) && (TID_FILE in st ==> st[TID_FILE].File?)
    ensures AlwaysWhole(c, tid, t, st, CommitOps(RemoveSession(0)))
    ensures Whole(c, tid, t, (st - {TID_STAGED})[TID_FILE := File(Show(tid))])
  {
    var bare := Apply(RemoveTop(TID_FILE), st);
    UnseenOp(c, tid, t, st, RemoveTop(TID_FILE));
    LastWhole(c, tid, t, st, RemoveTop(TID_FILE));
    PublishedTidWhole(c, tid, t, st);
    RenameWhole(c, tid, t, bare, RenameTop(TID_STAGED, TID_FILE));
    TwoSegments(c, tid, t, st, RemoveTop(TID_FILE), RenameTop(TID_STAGED, TID_FILE));
  }

  lemma PublishedTidWhole(c: Change, tid: nat, t: Tree, st: Tree)
    requires Whole(c, tid, t, st)
    requires TID_STAGED in st && st[TID_STAGED] == File(Show(tid)) && (TID_FILE in st ==> st[TID_FILE].File?)
    ensures var b := (st - {TID_STAGED})[TID_FILE := File(Show(tid))];
      && Apply(RenameTop(TID_STAGED, TID_FILE), Apply(RemoveTop(TID_FILE), st)) == b
      && Whole(c, tid, t, b)
  {
    assert Tilde(TID_STAGED) && !Tilde(TID_FILE);
    PublishTid(tid, st);
    TwoOps(st, RemoveTop(TID_FILE), RenameTop(TID_STAGED, TID_FILE));
    TopUnseen(st, TID_STAGED, File(""));
    TopUnseen(st - {TID_STAGED}, TID_FILE, File(Show(tid)));
  }

  lemma CommittedWhole(c: Change, tid: nat, t: Tree)
    requires Ready(c, t) && (c.FileChange? ==> !Tilde(c.username))
    ensures Whole(c, tid, t, CommittedTree(c, tid, t))
  {
    assert !Tilde(TID_FILE);
  }

  lemma StagedTid(c: Change, tid: nat, t: Tree)
    requires Ready(c, t)
    ensures var st := StagedTree(c, tid, t);
      TID_STAGED in st && st[TID_STAGED] == File(Show(tid)) && (TID_FILE in st ==> st[TID_FILE].File?)
  {
    if c.CreateUser? {
      StagedName(c.username, TID_FILE);
      assert TID_FILE + "~" == TID_STAGED && !Tilde(TID_FILE);
    }
  }

  lemma CommitWhole(c: Change, tid: nat, t: Tree)
    requires Ready(c, t)
    requires c.FileChange? ==> !Tilde(c.filename) && !Tilde(c.username)
    ensures AlwaysWhole(c, tid, t, StagedTree(c, tid, t), CommitOps(c))
  {
    var st, publish := StagedTree(c, tid, t), CommitOps(RemoveSession(0));
    StageWhole(c, tid, t);
    StagedTid(c, tid, t);
    PublishWhole(c, tid, t, st);
    if |CommitOps(c)| == 3 {
      CommitTailWhole(c, tid, t, st);
      assert CommitOps(c) == publish + [CommitOps(c)[2]];
      WholeAppend(c, tid, t, st, publish, [CommitOps(c)[2]]);
    }
  }

  lemma CommitTailWhole(c: Change, tid: nat, t: Tree, st: Tree)
    requires Ready(c, t) && st == StagedTree(c, tid, t) && |CommitOps(c)| == 3
    requires c.FileChange? ==> !Tilde(c.filename) && !Tilde(c.username)
    requires Whole(c, tid, t, (st - {TID_STAGED})[TID_FILE := File(Show(tid))])
    ensures AlwaysWhole(c, tid, t, Run(st, CommitOps(RemoveSession(0))), [CommitOps(c)[2]])
  {
    StagedTid(c, tid, t);
    PublishTid(tid, st);
    CommittedWhole(c, tid, t);
    CommitLastWhole(c, tid, t, (st - {TID_STAGED})[TID_FILE := File(Show(tid))], CommitOps(c)[2]);
  }

  lemma CommitLastWhole(c: Change, tid: nat, t: Tree, b: Tree, last: Op)
    requires Ready(c, t) && Whole(c, tid, t, b) && Whole(c, tid, t, CommittedTree(c, tid, t))
    requires c.FileChange? ==> !Tilde(c.filename) && !Tilde(c.username)
    requires b == (StagedTree(c, tid, t) - {TID_STAGED})[TID_FILE := File(Show(tid))]
    requires |CommitOps(c)| == 3 && last == CommitOps(c)[2]
    ensures AlwaysWhole(c, tid, t, b, [last])
  {
    if c.CreateUser? {
      FinishCreateUser(c.username, c.password, tid, t);
      RenameWhole(c, tid, t, b, last);
    } else if c.deleted {
      FinishDelete(c.username, c.filename, c.content, tid, t);
      assert Tilde(c.filename + "~");
      UnseenOp(c, tid, t, b, last);
    } else {
      FinishUpload(c.username, c.filename, c.content, tid, t);
      RenameWhole(c, tid, t, b, last);
    }
  }

  lemma AbortWhole(c: Change, tid: nat, t: Tree)
    requires Ready(c, t)
    requires c.FileChange? ==> !Tilde(c.filename) && !Tilde(c.username)
    ensures AlwaysWhole(c, tid, t, StagedTree(c, tid, t), RollbackOps(c, StagedTree(c, tid, t)))
  {
    var st := StagedTree(c, tid, t);
    var ops := RollbackOps(c, st);
    StageWhole(c, tid, t);
    StagedTid(c, tid, t);
    UnseenOp(c, tid, t, st, RemoveTop(TID_STAGED));
    LastWhole(c, tid, t, st, RemoveTop(TID_STAGED));
    if |ops| == 2 {
      AbortTailWhole(c, tid, t, st);
      TwoSegments(c, tid, t, st, ops[0], ops[1]);
    }
  }

  lemma AbortTailWhole(c: Change, tid: nat, t: Tree, st: Tree)
    requires Ready(c, t) && st == StagedTree(c, tid, t) && |RollbackOps(c, st)| == 2
    requires c.FileChange? ==> !Tilde(c.filename) && !Tilde(c.username)
    requires Whole(c, tid, t, Apply(RemoveTop(TID_STAGED), st))
    ensures AlwaysWhole(c, tid, t, Apply(RemoveTop(TID_STAGED), st), [RollbackOps(c, st)[1]])
  {
    var mid, last := Apply(RemoveTop(TID_STAGED), st), RollbackOps(c, st)[1];
    if c.FileChange? && c.deleted {
      AbortReady(c, tid, t);
      TwoOps(st, RemoveTop(TID_STAGED), last);
      RenameWhole(c, tid, t, mid, last);
    } else {
      UnseenOp(c, tid, t, mid, last);
    }
  }

  lemma FollowedBy(c: Change, tid: nat, t: Tree, from: Tree, a: seq<Op>, b: Op)
    requires AlwaysWhole(c, tid, t, from, a) && AlwaysWhole(c, tid, t, Run(from, a), [b])
    ensures AlwaysWhole(c, tid, t, from, a + [b])
    ensures Run(from, a + [b]) == Apply(b, Run(from, a)) && Whole(c, tid, t, Run(from, a + [b]))
  {
    WholeAppend(c, tid, t, from, a, [b]);
    RunSnoc(from, a, b);
    LastWhole(c, tid, t, Run(from, a), b);
  }

  lemma RefusedCreateWhole(c: Change, tid: nat, t: Tree)
    requires c.CreateUser? && TID_STAGED !in t && c.username + "~" != TID_STAGED
    ensures AlwaysWhole(c, tid, t, t,
              BeginOps(tid) + ([RemoveTop(TID_STAGED), RemoveAll(c.username + "~")] + StageOps(c)))
  {
    var staged := c.username + "~";
    assert Tilde(staged);
    var begun := t[TID_STAGED := File(Show(tid))];
    BeginWhole(c, tid, t);
    BeginRun(tid, t, []);
    assert BeginOps(tid) + [] == BeginOps(tid);
    UnseenOp(c, tid, t, begun, RemoveTop(TID_STAGED));
    FollowedBy(c, tid, t, t, BeginOps(tid), RemoveTop(TID_STAGED));
    var o2 := BeginOps(tid) + [RemoveTop(TID_STAGED)];
    UnseenOp(c, tid, t, Run(t, o2), RemoveAll(staged));
    FollowedBy(c, tid, t, t, o2, RemoveAll(staged));
    var o3 := o2 + [RemoveAll(staged)];
    UnseenOp(c, tid, t, Run(t, o3), MakeDir(staged));
    FollowedBy(c, tid, t, t, o3, MakeDir(staged));
    var o4 := o3 + [MakeDir(staged)];
    UnseenOp(c, tid, t, Run(t, o4), WriteIn(staged, PASSWORD_FILE, c.password));
    FollowedBy(c, tid, t, t, o4, WriteIn(staged, PASSWORD_FILE, c.password));
    assert o4 + [WriteIn(staged, PASSWORD_FILE, c.password)]
        == BeginOps(tid) + ([RemoveTop(TID_STAGED), RemoveAll(staged)] + StageOps(c));
  }

  lemma TidUserWhole(c: Change, tid: nat, t: Tree)
    requires c.CreateUser? && TID_STAGED !in t
    ensures AlwaysWhole(c, tid, t, t,
              BeginOps(tid) + ([MakeDir(TID_STAGED)] + [RemoveTop(TID_STAGED), RemoveAll(TID_STAGED)]))
  {
    var begun := t[TID_STAGED := File(Show(tid))];
    assert Tilde(TID_STAGED);
    BeginWhole(c, tid, t);
    BeginRun(tid, t, []);
    assert BeginOps(tid) + [] == BeginOps(tid);
    UnseenOp(c, tid, t, begun, MakeDir(TID_STAGED));
    FollowedBy(c, tid, t, t, BeginOps(tid), MakeDir(TID_STAGED));
    var o2 := BeginOps(tid) + [MakeDir(TID_STAGED)];
    UnseenOp(c, tid, t, begun, RemoveTop(TID_STAGED));
    FollowedBy(c, tid, t, t, o2, RemoveTop(TID_STAGED));
    var o3 := o2 + [RemoveTop(TID_STAGED)];
    UnseenOp(c, tid, t, Run(t, o3), RemoveAll(TID_STAGED));
    FollowedBy(c, tid, t, t, o3, RemoveAll(TID_STAGED));
    assert o3 + [RemoveAll(TID_STAGED)]
        == BeginOps(tid) + ([MakeDir(TID_STAGED)] + [RemoveTop(TID_STAGED), RemoveAll(TID_STAGED)]);
  }

  lemma RefusedOtherWhole(c: Change, tid: nat, t: Tree)
    requires TID_STAGED !in t
    ensures AlwaysWhole(c, tid, t, t, BeginOps(tid) + [RemoveTop(TID_STAGED)])
  {
    var begun := t[TID_STAGED := File(Show(tid))];
    BeginWhole(c, tid, t);
    BeginRun(tid, t, []);
    assert BeginOps(tid) + [] == BeginOps(tid);
    UnseenOp(c, tid, t, begun, RemoveTop(TID_STAGED));
    FollowedBy(c, tid, t, t, BeginOps(tid), RemoveTop(TID_STAGED));
  }

  lemma FailedRunWhole(H: Hasher, c: Change, tid: nat, s: State, t: Tree)
    requires Coupled(H, s, t) && Admissible(c, s) && !Prepares(c, s)
    ensures AlwaysWhole(c, tid, t, t, BeginOps(tid) + FailedOps(c, s))
  {
    assert TID_FILE + "~" == TID_STAGED && Tilde(TID_STAGED);
    if Accepts(c, s) {
      TidUserWhole(c, tid, t);
    } else if c.CreateUser? {
      StagedName(c.username, TID_FILE);
      RefusedCreateWhole(c, tid, t);
    } else {
      RefusedOtherWhole(c, tid, t);
    }
  }

  lemma PreparedLifeWhole(H: Hasher, c: Change, tid: nat, s: State, t: Tree, commit: bool)
    requires Coupled(H, s, t) && Admissible(c, s) && Prepares(c, s)
    ensures AlwaysWhole(c, tid, t, t, LifeOps(H, c, tid, s, t, commit))
  {
    CoupledReady(H, c, s, t);
    RunPrepares(H, c, tid, s, t);
    var st := StagedTree(c, tid, t);
    BeginWhole(c, tid, t);
    BeginRun(tid, t, []);
    assert BeginOps(tid) + [] == BeginOps(tid);
    StageWhole(c, tid, t);
    WholeAppend(c, tid, t, t, BeginOps(tid), StageOps(c));
    if commit {
      CommitWhole(c, tid, t);
      WholeAppend(c, tid, t, t, BeginOps(tid) + StageOps(c), CommitOps(c));
    } else {
      AbortWhole(c, tid, t);
      WholeAppend(c, tid, t, t, BeginOps(tid) + StageOps(c), RollbackOps(c, st));
    }
  }

  /** Wherever the server stops inside a transaction, and whether or not the transaction was going to commit,
      the disk is whole. */
  lemma CrashAtomic(H: Hasher, c: Change, tid: nat, s: State, t: Tree, commit: bool, found: Tree)
    requires Coupled(H, s, t) && Admissible(c, s)
    requires CrashState(t, LifeOps(H, c, tid, s, t, commit), found)
    ensures Whole(c, tid, t, found)
  {
    if Prepares(c, s) {
      PreparedLifeWhole(H, c, tid, s, t, commit);
    } else {
      FailedRunWhole(H, c, tid, s, t);
      RunFails(H, c, tid, s, t);
      var ops := RunChange(H, c, tid, s, t).ops;
      assert LifeOps(H, c, tid, s, t, commit) == ops + [] == ops;
    }
    CrashIsWhole(c, tid, t, t, LifeOps(H, c, tid, s, t, commit), found);
  }

  lemma WholeTables(H: Hasher, c: Change, tid: nat, s: State, t: Tree, found: Tree)
    requires Coupled(H, s, t) && Admissible(c, s) && Whole(c, tid, t, found)
    ensures var r, before, after := Recovered(H, found), Recovered(H, t), Recovered(H, CommittedTree(c, tid, t));
      || (r.passwords == before.passwords && r.files == before.files)
      || (Prepares(c, s) && r.passwords == after.passwords && r.files == after.files)
  {
    var t' := CommittedTree(c, tid, t);
    if Body(found) == Body(t) {
      BodyDecides(H, found, t);
    } else {
      ReadyPrepares(H, c, s, t);
      if c.CreateUser? || c.FileChange? {
        BodyDecides(H, found, t');
      } else {
        TopUnseen(t, TID_FILE, File(Show(tid)));
      }
    }
  }

  lemma WholeTid(H: Hasher, c: Change, tid: nat, s: State, t: Tree, found: Tree)
    requires TidMatches(s.lastTid, t) && Whole(c, tid, t, found)
    ensures Recovered(H, found).lastTid in {s.lastTid, tid, 0}
  {
    assert !Tilde(TID_FILE);
    ParseShow(tid);
    ParseShow(s.lastTid);
  }

  /** The same, as start-up sees it: users, passwords and file tables are those recovered from the old disk or,
      if the transaction was prepared, those recovered from the committed one, and the recovered tid is the
      old one, the new one, or 0. */
  lemma CrashRecovers(H: Hasher, c: Change, tid: nat, s: State, t: Tree, commit: bool, found: Tree)
    requires Coupled(H, s, t) && Admissible(c, s)
    requires CrashState(t, LifeOps(H, c, tid, s, t, commit), found)
    ensures var r, before, after := Recovered(H, found), Recovered(H, t), Recovered(H, CommittedTree(c, tid, t));
      || (r.passwords == before.passwords && r.files == before.files)
      || (Prepares(c, s) && r.passwords == after.passwords && r.files == after.files)
    ensures Recovered(H, found).lastTid in {s.lastTid, tid, 0}
    ensures !c.CreateUser? ==> (InitThrows(found) <==> InitThrows(t))
  {
    CrashAtomic(H, c, tid, s, t, commit, found);
    WholeTables(H, c, tid, s, t, found);
    WholeTid(H, c, tid, s, t, found);
    if !c.CreateUser? {
      ThrowsCarries(found, t);
      ThrowsCarries(t, found);
    }
  }

  /** A torn write is as bad for start-up as the whole one. */
  lemma TornThrows(op: Op, n: nat, x: Tree)
    ensures InitThrows(Apply(Torn(op, n), x)) <==> InitThrows(Apply(op, x))
  {
    var torn, whole := Apply(Torn(op, n), x), Apply(op, x);
    forall m ensures m in torn <==> m in whole
             ensures FilesIn(torn, m) != map[] <==> FilesIn(whole, m) != map[]
    {
      if op.WriteIn? && IsFolder(x, op.dir) && m == op.dir {
        assert op.name in FilesIn(torn, m) && op.name in FilesIn(whole, m);
      }
    }
  }

  /** Start-up only minds how many operations were begun. */
  lemma StopThrows(t: Tree, ops: seq<Op>, stop: Stop)
    requires IsStop(ops, stop)
    ensures Begun(stop) <= |ops|
    ensures InitThrows(StoppedAt(t, ops, stop)) <==> InitThrows(Run(t, ops[..Begun(stop)]))
  {
    if stop.Inside? {
      TornThrows(ops[stop.done], stop.bytes, Run(t, ops[..stop.done]));
      PrefixStep(t, ops, stop.done);
    }
  }

  predicate Leads(ops: seq<Op>, trees: seq<Tree>, k: nat) {
    k < |ops| && k + 1 < |trees| && trees[k + 1] == Apply(ops[k], trees[k])
  }

  /** Trees that follow each other by the operations. */
  ghost predicate Trail(ops: seq<Op>, trees: seq<Tree>) {
    |trees| == |ops| + 1 && forall k :: 0 <= k < |ops| ==> Leads(ops, trees, k)
  }

  lemma {:induction false} TrailPrefix(t: Tree, ops: seq<Op>, trees: seq<Tree>, k: nat)
    requires Trail(ops, trees) && trees[0] == t && k <= |ops|
    ensures Run(t, ops[..k]) == trees[k]
    decreases k
  {
    if k == 0 {
      assert ops[..0] == [];
    } else {
      TrailPrefix(t, ops, trees, k - 1);
      PrefixStep(t, ops, k - 1);
      assert Leads(ops, trees, k - 1);
    }
  }

  /** What a sign-up finds at its staging names: nothing, or an empty folder. */
  predicate SignUpReady(u: string, t: Tree) {
    && !Tilde(u) && u != TID_FILE && TID_STAGED !in t && (TID_FILE in t ==> t[TID_FILE].File?)
    && (u + "~" in t ==> t[u + "~"] == Folder(map[]))
  }

  /** The disk after each operation of a sign-up that is prepared and commits or aborts. */
  function SignUpTrees(u: string, p: string, tid: nat, commit: bool, t: Tree): seq<Tree> {
    var t1 := t[TID_STAGED := File(Show(tid))];
    var t2 := t1[u + "~" := Folder(map[])];
    var t3 := t1[u + "~" := Folder(map[PASSWORD_FILE := p])];
    if commit then
      var t4 := t3 - {TID_FILE};
      var t5 := (t4 - {TID_STAGED})[TID_FILE := File(Show(tid))];
      [t, t1, t2, t3, t4, t5, (t5 - {u + "~"})[u := Folder(map[PASSWORD_FILE := p])]]
    else
      [t, t1, t2, t3, t3 - {TID_STAGED}, t3 - {TID_STAGED} - {u + "~"}]
  }

  function SignUpOps(u: string, p: string, tid: nat, commit: bool): seq<Op> {
    [WriteTop(TID_STAGED, Show(tid)), MakeDir(u + "~"), WriteIn(u + "~", PASSWORD_FILE, p)] +
    if commit then [RemoveTop(TID_FILE), RenameTop(TID_STAGED, TID_FILE), RenameTop(u + "~", u)]
    else [RemoveTop(TID_STAGED), RemoveAll(u + "~")]
  }

  lemma StagingLeads(u: string, p: string, tid: nat, commit: bool, t: Tree, k: nat)
    requires SignUpReady(u, t) && k < 3
    ensures Leads(SignUpOps(u, p, tid, commit), SignUpTrees(u, p, tid, commit, t), k)
  {
    StagedName(u, TID_FILE);
    assert TID_FILE + "~" == TID_STAGED;
  }

  lemma CommitLeads(u: string, p: string, tid: nat, t: Tree, k: nat)
    requires SignUpReady(u, t) && u !in t && 3 <= k < 6
    ensures Leads(SignUpOps(u, p, tid, true), SignUpTrees(u, p, tid, true, t), k)
  {
    StagedName(u, TID_FILE);
    StagedName(u, u);
    assert TID_FILE + "~" == TID_STAGED && !Tilde(TID_FILE);
  }

  lemma AbortLeads(u: string, p: string, tid: nat, t: Tree, k: nat)
    requires SignUpReady(u, t) && 3 <= k < 5
    ensures Leads(SignUpOps(u, p, tid, false), SignUpTrees(u, p, tid, false, t), k)
  {
    StagedName(u, TID_FILE);
    assert TID_FILE + "~" == TID_STAGED;
  }

  lemma SignUpTrail(u: string, p: string, tid: nat, commit: bool, t: Tree)
    requires SignUpReady(u, t) && u !in t
    ensures Trail(SignUpOps(u, p, tid, commit), SignUpTrees(u, p, tid, commit, t))
  {
    var ops, trees := SignUpOps(u, p, tid, commit), SignUpTrees(u, p, tid, commit, t);
    forall k | 0 <= k < |ops| ensures Leads(ops, trees, k) {
      if k < 3 {
        StagingLeads(u, p, tid, commit, t, k);
      } else if commit {
        CommitLeads(u, p, tid, t, k);
      } else {
        AbortLeads(u, p, tid, t, k);
      }
    }
  }

  /** The disk after each operation of a sign-up that is refused. */
  function RefusedTrees(u: string, p: string, tid: nat, t: Tree): seq<Tree> {
    var t3 := t - {u + "~"};
    [t, t[TID_STAGED := File(Show(tid))], t, t3, t3[u + "~" := Folder(map[])],
     t3[u + "~" := Folder(map[PASSWORD_FILE := p])]]
  }

  function RefusedOps(u: string, p: string, tid: nat): seq<Op> {
    [WriteTop(TID_STAGED, Show(tid)), RemoveTop(TID_STAGED), RemoveAll(u + "~"),
     MakeDir(u + "~"), WriteIn(u + "~", PASSWORD_FILE, p)]
  }

  lemma RefusedTrail(u: string, p: string, tid: nat, t: Tree)
    requires SignUpReady(u, t)
    ensures Trail(RefusedOps(u, p, tid), RefusedTrees(u, p, tid, t))
  {
    StagedName(u, TID_FILE);
    assert TID_FILE + "~" == TID_STAGED;
    assert t[TID_STAGED := File(Show(tid))] - {TID_STAGED} == t;
    var ops, trees := RefusedOps(u, p, tid), RefusedTrees(u, p, tid, t);
    assert Leads(ops, trees, 0) && Leads(ops, trees, 1) && Leads(ops, trees, 2);
    assert Leads(ops, trees, 3) && Leads(ops, trees, 4);
  }

  /** Only the staged folder of the user can be in the way of start-up. */
  lemma OnlyStaged(t: Tree, found: Tree, staged: string)
    requires !InitThrows(t) && Tilde(staged)
    requires forall n :: Tilde(n) && n != staged ==> FilesIn(found, n) == FilesIn(t, n)
    ensures InitThrows(found) <==> FilesIn(found, staged) != map[]
  {
    if FilesIn(found, staged) != map[] {
      assert staged in found;
    }
    forall n | n in found && Tilde(n) && n != staged ensures FilesIn(found, n) == map[] {
      assert FilesIn(t, n) != map[] ==> n in t;
    }
  }

  lemma SignUpThrows(u: string, p: string, tid: nat, commit: bool, t: Tree, k: nat)
    requires SignUpReady(u, t) && !InitThrows(t) && k < |SignUpTrees(u, p, tid, commit, t)|
    ensures InitThrows(SignUpTrees(u, p, tid, commit, t)[k]) <==> 3 <= k <= if commit then 5 else 4
  {
    StagedName(u, TID_FILE);
    assert TID_FILE + "~" == TID_STAGED && !Tilde(TID_FILE);
    var found := SignUpTrees(u, p, tid, commit, t)[k];
    OnlyStaged(t, found, u + "~");
    assert PASSWORD_FILE in FilesIn(found, u + "~") <==> 3 <= k <= if commit then 5 else 4;
  }

  lemma RefusedThrows(u: string, p: string, tid: nat, t: Tree, k: nat)
    requires SignUpReady(u, t) && !InitThrows(t) && k <= 5
    ensures InitThrows(RefusedTrees(u, p, tid, t)[k]) <==> k == 5
  {
    StagedName(u, TID_FILE);
    assert TID_FILE + "~" == TID_STAGED;
    var found := RefusedTrees(u, p, tid, t)[k];
    OnlyStaged(t, found, u + "~");
    assert PASSWORD_FILE in FilesIn(found, u + "~") <==> k == 5;
  }

  /** The numbers of begun operations at which a stop leaves a sign-up's password in its staged folder. A user called
      like the tid file fails on creating the folder. */
  predicate InWindow(u: string, s: State, commit: bool, begun: nat) {
    if s.HasUser(u) then begun == 5
    else u != TID_FILE && 3 <= begun <= if commit then 5 else 4
  }

  lemma CoupledSignUp(H: Hasher, u: string, s: State, t: Tree)
    requires Coupled(H, s, t) && !InitThrows(t) && GoodName(u) && u != TID_FILE
    ensures SignUpReady(u, t) && (!s.HasUser(u) ==> u !in t)
  {
    StagedName(u, TID_FILE);
    assert TID_FILE + "~" == TID_STAGED && Tilde(TID_STAGED);
    if u + "~" in t {
      assert Leftover(u + "~", t[u + "~"]) && FilesIn(t, u + "~") == map[];
    }
  }

  lemma SignUpLife(H: Hasher, u: string, p: string, tid: nat, s: State, t: Tree, commit: bool)
    requires Coupled(H, s, t) && Admissible(CreateUser(u, p), s)
    ensures LifeOps(H, CreateUser(u, p), tid, s, t, commit) ==
            if s.HasUser(u) then RefusedOps(u, p, tid)
            else if u == TID_FILE then
              [WriteTop(TID_STAGED, Show(tid)), MakeDir(TID_STAGED), RemoveTop(TID_STAGED), RemoveAll(TID_STAGED)]
            else SignUpOps(u, p, tid, commit)
  {
    var c := CreateUser(u, p);
    if Prepares(c, s) {
      RunPrepares(H, c, tid, s, t);
    } else {
      RunFails(H, c, tid, s, t);
    }
  }

  lemma TidUserThrows(tid: nat, t: Tree, k: nat)
    requires TID_STAGED !in t && !InitThrows(t) && k <= 4
    ensures var ops := [WriteTop(TID_STAGED, Show(tid)), MakeDir(TID_STAGED), RemoveTop(TID_STAGED),
                        RemoveAll(TID_STAGED)];
      !InitThrows(Run(t, ops[..k]))
  {
    var ops := [WriteTop(TID_STAGED, Show(tid)), MakeDir(TID_STAGED), RemoveTop(TID_STAGED), RemoveAll(TID_STAGED)];
    var t1 := t[TID_STAGED := File(Show(tid))];
    assert t1 - {TID_STAGED} == t && t - {TID_STAGED} == t;
    var trees := [t, t1, t1, t, t];
    assert Leads(ops, trees, 0) && Leads(ops, trees, 1) && Leads(ops, trees, 2) && Leads(ops, trees, 3);
    TrailPrefix(t, ops, trees, k);
    OnlyStaged(t, t1, TID_STAGED);
  }

  /** For a new user start-up is not always safe. Wherever a sign-up stops, prepared or refused, to be committed or
      rolled back, between two operations or inside a write: start-up throws if and only if the write of the staged
      password was begun and the staged folder has not got its name, or gone, since. */
  lemma CreateUserWindow(H: Hasher, u: string, p: string, tid: nat, s: State, t: Tree, commit: bool, stop: Stop)
    requires Coupled(H, s, t) && !InitThrows(t) && Admissible(CreateUser(u, p), s)
    requires IsStop(LifeOps(H, CreateUser(u, p), tid, s, t, commit), stop)
    ensures InitThrows(StoppedAt(t, LifeOps(H, CreateUser(u, p), tid, s, t, commit), stop))
            <==> InWindow(u, s, commit, Begun(stop))
  {
    var ops, k := LifeOps(H, CreateUser(u, p), tid, s, t, commit), Begun(stop);
    SignUpLife(H, u, p, tid, s, t, commit);
    StopThrows(t, ops, stop);
    if s.HasUser(u) {
      CoupledSignUp(H, u, s, t);
      RefusedTrail(u, p, tid, t);
      TrailPrefix(t, ops, RefusedTrees(u, p, tid, t), k);
      RefusedThrows(u, p, tid, t, k);
    } else if u == TID_FILE {
      assert Tilde(TID_STAGED);
      TidUserThrows(tid, t, k);
    } else {
      CoupledSignUp(H, u, s, t);
      SignUpTrail(u, p, tid, commit, t);
      TrailPrefix(t, ops, SignUpTrees(u, p, tid, commit, t), k);
      SignUpThrows(u, p, tid, commit, t, k);
    }
  }

  /** The same for every disk a crash can leave: it lies at a stop, and the stop decides. */
  lemma CrashedSignUp(H: Hasher, u: string, p: string, tid: nat, s: State, t: Tree, commit: bool, found: Tree)
    requires Coupled(H, s, t) && !InitThrows(t) && Admissible(CreateUser(u, p), s)
    requires CrashState(t, LifeOps(H, CreateUser(u, p), tid, s, t, commit), found)
    ensures exists stop ::
              && IsStop(LifeOps(H, CreateUser(u, p), tid, s, t, commit), stop)
              && found == StoppedAt(t, LifeOps(H, CreateUser(u, p), tid, s, t, commit), stop)
              && (InitThrows(found) <==> InWindow(u, s, commit, Begun(stop)))
  {
    var ops := LifeOps(H, CreateUser(u, p), tid, s, t, commit);
    CrashStateIsStop(t, ops, found);
    var stop :| IsStop(ops, stop) && found == StoppedAt(t, ops, stop);
    CreateUserWindow(H, u, p, tid, s, t, commit, stop);
  }

  lemma PrefixStep(t: Tree, ops: seq<Op>, k: nat)
    requires k < |ops|
    ensures Run(t, ops[..k + 1]) == Apply(ops[k], Run(t, ops[..k]))
  {
    assert ops[..k + 1] == ops[..k] + [ops[k]];
    RunSnoc(t, ops[..k], ops[k]);
  }

  lemma ReadyPrepares(H: Hasher, c: Change, s: State, t: Tree)
    requires Coupled(H, s, t) && Admissible(c, s) && Ready(c, t)
    ensures c.CreateUser? || c.FileChange? ==> Prepares(c, s)
  {
    if c.FileChange? {
      assert FolderMatches(H, s.passwords[c.username], s.FilesOf(c.username), t[c.username].files);
    }
  }

  lemma ThrowsCarries(a: Tree, b: Tree)
    requires forall n :: Tilde(n) ==> FilesIn(a, n) == FilesIn(b, n)
    ensures InitThrows(a) ==> InitThrows(b)
  {
    if InitThrows(a) {
      var n :| n in a && Tilde(n) && FilesIn(a, n) != map[];
      assert n in b;
    }
  }

  lemma BodyDecides(H: Hasher, a: Tree, b: Tree)
    requires Body(a) == Body(b)
    requires !IsFolder(a, TID_FILE) && !IsFolder(b, TID_FILE)
    ensures Recovered(H, a).passwords == Recovered(H, b).passwords
    ensures Recovered(H, a).files == Recovered(H, b).files
  {
    FromBody(H, Visible(a));
    FromBody(H, Visible(b));
  }

  lemma FromBody(H: Hasher, v: Tree)
    requires !IsFolder(v, TID_FILE)
    ensures RecoveredPasswords(v) == RecoveredPasswords(v - {TID_FILE})
    ensures RecoveredFiles(H, v) == RecoveredFiles(H, v - {TID_FILE})
  {
  }
}
