/** The transaction object: begin, execute, prepare, commit and roll back, flag by flag and operation by
    operation. Its methods are proved against `RunChange`, `CommitOps` and `RollbackOps`. */
module Transactions {
  import opened Disk
  import opened Records
  import opened Digests
  import opened Text
  import opened Changes
  import opened Coupling
  import opened Memory

  datatype Status = COMMITTED | ROLLBACK | PREPARED | RUNNING | NOT_RUNNING

  lemma ThreeAttempted(t: Tree, a: Op, b: Op, c: Op)
    ensures Attempted(t, [a, b, c]) ==
            if Throws(a, t) then [a] else if Throws(b, Apply(a, t)) then [a, b] else [a, b, c]
  {
    assert [a, b, c][1..] == [b, c];
    TwoOps(Apply(a, t), b, c);
  }

  class Transaction {
    const change: Change
    const H: Hasher
    const fs: FileSystem
    var tid: nat
    /** The guarded state and the private copy of it. */
    var shared: ServerState
    var work: ServerState
    var hasRollback: bool
    var isCommitted: bool
    var hasBegan: bool
    var isPrepared: bool

    /** The life cycle: committed and rolled back exclude each other, and both come after the steps they need. */
    ghost predicate Valid()
      reads this
    {
      && (isCommitted ==> isPrepared && !hasRollback)
      && (isPrepared || hasRollback ==> hasBegan)
      && work != shared
    }

    /** Construction and `setState`: the work copy starts as the guarded state. */
    constructor (change: Change, H: Hasher, fs: FileSystem, shared: ServerState)
      ensures Valid() && this.change == change && this.H == H && this.fs == fs && this.shared == shared
      ensures fresh(work) && work.Model() == shared.Model()
      ensures !hasBegan && !isPrepared && !isCommitted && !hasRollback && tid == 0
    {
      this.change, this.H, this.fs, this.shared, this.tid := change, H, fs, shared, 0;
      hasRollback, isCommitted, hasBegan, isPrepared := false, false, false, false;
      var copy := new ServerState.Copy(shared);
      work := copy;
    }

    method SetTid(id: nat)
      modifies this`tid
      ensures tid == id
    {
      tid := id;
    }

    method Begin()
      modifies this`hasBegan, fs
      ensures hasBegan
      ensures fs.tree == Run(old(fs.tree), BeginOps(tid)) && fs.journal == old(fs.journal) + BeginOps(tid)
    {
      hasBegan := true;
      OneOp(fs.tree, WriteTop(TID_STAGED, Show(tid)));
      var _ := fs.Do(WriteTop(TID_STAGED, Show(tid)));
    }

    /** Undo, once. The released work copy stays readable here, because a refused CreateUser goes on with it. */
    method Rollback() returns (threw: bool)
      modifies this`hasRollback, fs
      ensures old(!hasBegan || hasRollback) ==>
                !threw && hasRollback == old(hasRollback) && fs.tree == old(fs.tree) && fs.journal == old(fs.journal)
      ensures old(hasBegan && !hasRollback) ==>
                var ops := RollbackOps(change, old(fs.tree));
                && hasRollback
                && threw == !Survives(old(fs.tree), ops)
                && fs.tree == Run(old(fs.tree), Attempted(old(fs.tree), ops))
                && fs.journal == old(fs.journal) + Attempted(old(fs.tree), ops)
    {
      threw := false;
      if !hasBegan || hasRollback {
        return;
      }
      hasRollback := true;
      ghost var t0, ops := fs.tree, RollbackOps(change, fs.tree);
      if |ops| == 1 { OneOp(t0, ops[0]); } else { TwoOps(t0, ops[0], ops[1]); }
      OneOp(t0, ops[0]);
      threw := fs.Do(RemoveTop(TID_STAGED));
      if threw {
        return;
      }
      match change {
        case CreateUser(u, _) =>
          threw := fs.Do(RemoveAll(u + "~"));
        case FileChange(u, f, deleted, _) =>
          if f + "~" in FilesIn(fs.tree, u) {
            if deleted {
              threw := fs.Do(RenameIn(u, f + "~", f));
            } else {
              threw := fs.Do(RemoveIn(u, f + "~"));
            }
          }
        case _ =>
      }
    }

    /** What every `execute` promises, from the disk and work copy it starts with. */
    twostate predicate Executes(threw: bool)
      reads this, work, fs
    {
      var s0, t0 := old(work.Model()), old(fs.tree);
      var ops := ExecuteOps(Accepts(change, s0), change, t0);
      && work == old(work) && hasBegan
      && fs.tree == Run(t0, ops) && fs.journal == old(fs.journal) + ops
      && hasRollback == !Accepts(change, s0)
      && (Accepts(change, s0) ==>
            && threw == !Survives(t0, StageOps(change))
            && (!threw ==> work.Model() == Effect(H, change, tid, s0, fs.tree)))
    }

    /** The guards of CreateUser. Either of them rolls back; the second rollback does nothing. */
    method GuardUser(u: string, p: string) returns (threw: bool)
      requires change == CreateUser(u, p) && hasBegan && !hasRollback
      modifies this`hasRollback, fs
      ensures hasRollback == !Accepts(change, work.Model())
      ensures hasRollback <==> u == "" || p == "" || u in work.passwords
      ensures var t0, ops := old(fs.tree), GuardOps(Accepts(change, work.Model()), change, old(fs.tree));
        && threw == !Survives(t0, ops)
        && fs.tree == Run(t0, Attempted(t0, ops)) && fs.journal == old(fs.journal) + Attempted(t0, ops)
    {
      threw := false;
      if u == "" || p == "" {
        threw := Rollback();
        if threw { return; }
      }
      if work.Model().HasUser(u) {
        threw := Rollback();
      }
    }

    method ExecuteCreateUser(u: string, p: string) returns (threw: bool)
      requires change == CreateUser(u, p) && hasBegan && !hasRollback && work.lastTid == tid
      modifies this`hasRollback, work, fs
      ensures Executes(threw)
      ensures hasRollback <==> u == "" || p == "" || u in old(work.passwords)
    {
      ghost var t0, ops := fs.tree, GuardOps(Accepts(change, work.Model()), change, fs.tree);
      threw := GuardUser(u, p);
      Assoc(old(fs.journal), Attempted(t0, ops), Attempted(fs.tree, StageOps(change)));
      Assoc(Attempted(t0, ops), [], []);
      if threw {
        return;
      }
      RunAppend(t0, Attempted(t0, ops), Attempted(fs.tree, StageOps(change)));
      threw := StageUser(u, p);
    }

    /** The part of CreateUser after its guards. */
    method StageUser(u: string, p: string) returns (threw: bool)
      requires change == CreateUser(u, p)
      modifies work, fs
      ensures var t0, ops := old(fs.tree), StageOps(change);
        && threw == !Survives(t0, ops)
        && fs.tree == Run(t0, Attempted(t0, ops)) && fs.journal == old(fs.journal) + Attempted(t0, ops)
      ensures work.Model() == old(work.Model()).(
                passwords := Emplace(old(work.passwords), u, p),
                usersLastTid := Emplace(old(work.usersLastTid), u, tid))
    {
      work.AddUser(u, p);
      work.SetUserLastTid(u, tid);
      TwoOps(fs.tree, MakeDir(u + "~"), WriteIn(u + "~", PASSWORD_FILE, p));
      OneOp(fs.tree, MakeDir(u + "~"));
      threw := fs.Do(MakeDir(u + "~"));
      if !threw {
        var _ := fs.Do(WriteIn(u + "~", PASSWORD_FILE, p));
      }
    }

    method ExecuteCreateSession(id: int, u: string) returns (threw: bool)
      requires change == CreateSession(id, u) && hasBegan && !hasRollback && work.lastTid == tid
      modifies this`hasRollback, work, fs
      ensures Executes(threw)
      ensures hasRollback <==> id in old(work.sessions) || u !in old(work.passwords)
    {
      threw := false;
      if work.Model().IsSessionValid(id) {
        threw := Rollback();
        if threw { return; }
      }
      if !work.Model().HasUser(u) {
        threw := Rollback();
        if threw { return; }
      }
      work.AddSession(id, u);
      work.SetUserLastTid(u, tid);
    }

    method ExecuteRemoveSession(id: int) returns (threw: bool)
      requires change == RemoveSession(id) && hasBegan && !hasRollback && work.lastTid == tid
      modifies this`hasRollback, work, fs
      ensures Executes(threw)
      ensures hasRollback <==> id !in old(work.sessions)
    {
      threw := false;
      if !work.Model().IsSessionValid(id) {
        threw := Rollback();
        return;
      }
      work.RemoveSession(id);
      work.SetUserLastTid(work.Model().UserFromSession(id), tid);
    }

    method ExecuteFileChange(u: string, f: string, deleted: bool, content: string) returns (threw: bool)
      requires change == FileChange(u, f, deleted, content) && hasBegan && !hasRollback && work.lastTid == tid
      modifies this`hasRollback, work, fs
      ensures Executes(threw)
      ensures hasRollback <==> deleted && !(u in old(work.files) && f in old(work.files)[u])
    {
      threw := false;
      ghost var back := Attempted(fs.tree, RollbackOps(change, fs.tree));
      assert back + [] == back;
      OneOp(fs.tree, if deleted then RenameIn(u, f, f + "~") else WriteIn(u, f + "~", content));
      if deleted {
        if work.Model().HasFile(u, f) {
          work.RemoveFile(u, f);
          threw := fs.Do(RenameIn(u, f, f + "~"));
        } else {
          threw := Rollback();
        }
      } else {
        var _ := fs.Do(WriteIn(u, f + "~", content));
        var entry := UploadEntry(H, u, f, content, tid, fs.tree);
        if work.Model().HasFile(u, f) {
          work.UpdateFile(u, f, entry);
        } else {
          work.AddFile(u, f, entry);
        }
      }
    }

    method ExecuteNewFrontend(hostname: string, port: int) returns (threw: bool)
      requires change == NewFrontend(hostname, port) && hasBegan && !hasRollback && work.lastTid == tid
      modifies this`hasRollback, work, fs
      ensures Executes(threw)
      ensures !threw && !hasRollback
    {
      threw := false;
      work.AddFrontend(hostname, port);
    }

    method Execute() returns (threw: bool)
      requires hasBegan && !hasRollback && work.lastTid == tid
      modifies this`hasRollback, work, fs
      ensures Executes(threw)
    {
      match change
      case CreateUser(u, p) => threw := ExecuteCreateUser(u, p);
      case CreateSession(id, u) => threw := ExecuteCreateSession(id, u);
      case RemoveSession(id) => threw := ExecuteRemoveSession(id);
      case FileChange(u, f, deleted, content) => threw := ExecuteFileChange(u, f, deleted, content);
      case NewFrontend(host, port) => threw := ExecuteNewFrontend(host, port);
    }

    /** `isValid` of the work copy is always true. */
    method PrepareCommit()
      modifies this`isPrepared
      ensures isPrepared
    {
      isPrepared := true;
    }

    /** `execute` inside the try block: what it throws is caught and rolls back. */
    method ExecuteCaught() returns (died: bool)
      requires Valid() && hasBegan && !hasRollback && !isPrepared && work.lastTid == tid
      modifies this`hasRollback, work, fs
      ensures Valid()
      ensures var s, t := old(work.Model()), old(fs.tree);
        var accepted := Accepts(change, s);
        && died == !Survives(Run(t, ExecuteOps(accepted, change, t)), CatchOps(accepted, change, t))
        && hasRollback == !(accepted && Survives(t, StageOps(change)))
        && fs.tree == Run(t, GuardedOps(accepted, change, t))
        && fs.journal == old(fs.journal) + GuardedOps(accepted, change, t)
        && (!hasRollback ==> work.Model() == Effect(H, change, tid, s, fs.tree))
    {
      ghost var t, done := fs.tree, ExecuteOps(Accepts(change, work.Model()), change, fs.tree);
      var threw := Execute();
      died := false;
      Assoc(old(fs.journal), done, Attempted(fs.tree, RollbackOps(change, fs.tree)));
      Assoc(done, [], []);
      if threw {
        RunAppend(t, done, Attempted(fs.tree, RollbackOps(change, fs.tree)));
        died := Rollback();
      }
    }

    method BeginAndExecute() returns (died: bool)
      requires Valid() && !hasBegan && !hasRollback && !isPrepared
      modifies this`hasBegan, this`hasRollback, work, fs
      ensures Valid() && hasBegan
      ensures var ran := RunChange(H, change, tid, old(work.Model()), old(fs.tree));
        && died == ran.died && hasRollback == ran.rolledBack
        && fs.tree == Run(old(fs.tree), ran.ops) && fs.journal == old(fs.journal) + ran.ops
        && (ran.prepared ==> work.Model() == ran.work)
    {
      ghost var s0, t0, j0 := work.Model(), fs.tree, fs.journal;
      Begin();
      work.SetLastTid(tid);
      AcceptsAnyTid(change, s0, tid);
      ghost var rest := GuardedOps(Accepts(change, s0), change, fs.tree);
      RunAppend(t0, BeginOps(tid), rest);
      died := ExecuteCaught();
      Assoc(j0, BeginOps(tid), rest);
    }

    /** Run once; a second run is refused. Whatever `execute` does, the object ends as `RunChange` says. */
    method RunOnce() returns (refused: bool, died: bool)
      requires Valid()
      modifies this`hasBegan, this`hasRollback, this`isPrepared, work, fs
      ensures Valid() && refused == old(hasBegan)
      ensures refused ==> !died && fs.tree == old(fs.tree) && fs.journal == old(fs.journal)
                          && hasRollback == old(hasRollback) && isPrepared == old(isPrepared)
                          && work.Model() == old(work.Model())
      ensures !refused ==>
                var ran := RunChange(H, change, tid, old(work.Model()), old(fs.tree));
                && hasBegan && died == ran.died && hasRollback == ran.rolledBack && isPrepared == ran.prepared
                && fs.tree == Run(old(fs.tree), ran.ops) && fs.journal == old(fs.journal) + ran.ops
                && (ran.prepared ==> work.Model() == ran.work)
      ensures shared.Model() == old(shared.Model())
    {
      refused, died := hasBegan, false;
      if refused {
        return;
      }
      died := BeginAndExecute();
      if !died && !hasRollback {
        PrepareCommit();
      }
    }

    /** The tid is published and the staged change gets its name. */
    method Publish() returns (died: bool)
      modifies fs
      ensures var t0, ops := old(fs.tree), CommitOps(change);
        && died == !Survives(t0, ops)
        && fs.tree == Run(t0, Attempted(t0, ops)) && fs.journal == old(fs.journal) + Attempted(t0, ops)
    {
      ghost var t0, ops, j0 := fs.tree, CommitOps(change), fs.journal;
      OneOp(t0, ops[0]);
      TwoOps(t0, ops[0], ops[1]);
      if |ops| == 3 {
        ThreeOps(t0, ops[0], ops[1], ops[2]);
        ThreeAttempted(t0, ops[0], ops[1], ops[2]);
      }
      Assoc(j0, [ops[0]], [ops[1]]);
      died := fs.Do(RemoveTop(TID_FILE));
      if died {
        return;
      }
      died := fs.Do(RenameTop(TID_STAGED, TID_FILE));
      if died {
        return;
      }
      if |ops| == 3 {
        Assoc(j0, [ops[0], ops[1]], [ops[2]]);
      }
      match change {
        case CreateUser(u, _) => died := fs.Do(RenameTop(u + "~", u));
        case FileChange(u, f, true, _) => died := fs.Do(RemoveIn(u, f + "~"));
        case FileChange(u, f, false, _) => died := fs.Do(RenameIn(u, f + "~", f));
        case _ =>
      }
    }

    /** Commit: only a prepared transaction that has not rolled back. The guarded state changes here and nowhere else,
        after the disk, and only to the work copy. `died` is a throw: not prepared, or an error of the file system. */
    method Commit() returns (ok: bool, died: bool)
      requires Valid()
      modifies this`isCommitted, shared, fs
      ensures Valid() && work.Model() == old(work.Model())
      ensures hasRollback ==> !ok && !died
      ensures !hasRollback && !isPrepared ==> !ok && died
      ensures hasRollback || !isPrepared ==>
                isCommitted == old(isCommitted) && shared.Model() == old(shared.Model())
                && fs.tree == old(fs.tree) && fs.journal == old(fs.journal)
      ensures !hasRollback && isPrepared ==>
                var t0, ops := old(fs.tree), CommitOps(change);
                && isCommitted && ok == !died && died == !Survives(t0, ops)
                && fs.tree == Run(t0, Attempted(t0, ops)) && fs.journal == old(fs.journal) + Attempted(t0, ops)
                && shared.Model() == if ok then work.Model() else old(shared.Model())
    {
      ok, died := false, false;
      if hasRollback {
        return;
      }
      if !isPrepared {
        died := true;
        return;
      }
      isCommitted := true;
      died := Publish();
      if died {
        return;
      }
      shared.Assign(work);
      ok := true;
    }

    /** Rolls back unless the transaction is committed. */
    method ForceRollback() returns (died: bool)
      requires Valid()
      modifies this`hasRollback, fs
      ensures Valid()
      ensures old(isCommitted || !hasBegan || hasRollback) ==>
                !died && hasRollback == old(hasRollback) && fs.tree == old(fs.tree) && fs.journal == old(fs.journal)
      ensures old(!isCommitted && hasBegan && !hasRollback) ==>
                var t0, ops := old(fs.tree), RollbackOps(change, old(fs.tree));
                && hasRollback && died == !Survives(t0, ops)
                && fs.tree == Run(t0, Attempted(t0, ops)) && fs.journal == old(fs.journal) + Attempted(t0, ops)
    {
      died := false;
      if !isCommitted {
        died := Rollback();
      }
    }

    function GetStatus(): (s: Status)
      reads this
      requires Valid()
      ensures s == COMMITTED <==> isCommitted
      ensures s == ROLLBACK <==> hasRollback
      ensures s == PREPARED <==> isPrepared && !isCommitted && !hasRollback
      ensures s == RUNNING <==> hasBegan && !isPrepared && !hasRollback
      ensures s == NOT_RUNNING <==> !hasBegan
    {
      if isCommitted then COMMITTED
      else if hasRollback then ROLLBACK
      else if isPrepared then PREPARED
      else if hasBegan then RUNNING
      else NOT_RUNNING
    }
  }

  /** The calls a manager can make. */
  datatype Call = CallRun | CallCommit | CallForceRollback

  /** Any sequence of calls, until one throws: committed and rolled back stay what they are and exclude each other, and
      the guarded state is the one from before or the work copy of a committed transaction. */
  method Drive(t: Transaction, calls: seq<Call>)
    requires t.Valid()
    modifies t, t.work, t.shared, t.fs
    ensures t.Valid() && t.work == old(t.work) && t.shared == old(t.shared)
    ensures old(t.isCommitted) ==> t.isCommitted && !t.hasRollback
    ensures old(t.hasRollback) ==> t.hasRollback && !t.isCommitted && t.shared.Model() == old(t.shared.Model())
    ensures t.shared.Model() == old(t.shared.Model()) || (t.isCommitted && t.shared.Model() == t.work.Model())
  {
    for i := 0 to |calls|
      invariant t.Valid() && t.work == old(t.work) && t.shared == old(t.shared)
      invariant old(t.isCommitted) ==> t.isCommitted
      invariant old(t.hasRollback) ==> t.hasRollback && t.shared.Model() == old(t.shared.Model())
      invariant t.isCommitted ==> t.hasBegan
      invariant t.shared.Model() == old(t.shared.Model()) || (t.isCommitted && t.shared.Model() == t.work.Model())
    {
      var died;
      match calls[i] {
        case CallRun =>
          ghost var work, began := t.work.Model(), t.hasBegan;
          var _, d := t.RunOnce();
          died := d;
          assert began ==> t.work.Model() == work;
        case CallCommit =>
          var _, d := t.Commit();
          died := d;
        case CallForceRollback =>
          died := t.ForceRollback();
      }
      if died {
        return;
      }
    }
  }

  lemma AcceptsAnyTid(c: Change, s: State, tid: nat)
    ensures Accepts(c, s.(lastTid := tid)) == Accepts(c, s)
  {
  }
}
