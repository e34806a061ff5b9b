/** The five kinds of transaction as values: what each checks, what it does to the state,
    and which operations it performs on the disk. */
module Changes {
  import opened Disk
  import opened Records
  import opened Digests
  import opened Text

  datatype Change =
    | CreateUser(username: string, password: string)
    | CreateSession(sessionId: int, username: string)
    | RemoveSession(sessionId: int)
    | FileChange(username: string, filename: string, deleted: bool, content: string)
    | NewFrontend(hostname: string, port: int)

  const PASSWORD_FILE := ".password"
  const TID_FILE := "tid"
  const TID_STAGED := "tid~"

  /** The digest text of a file that cannot be opened: eight zero bytes, one hexadecimal digit each. */
  const NO_DIGEST := "00000000"

  /** The guards of `execute`. */
  predicate Accepts(c: Change, s: State) {
    match c
    case CreateUser(u, p) => u != "" && p != "" && !s.HasUser(u)
    case CreateSession(id, u) => !s.IsSessionValid(id) && s.HasUser(u)
    case RemoveSession(id) => s.IsSessionValid(id)
    case FileChange(u, f, deleted, _) => deleted ==> s.HasFile(u, f)
    case NewFrontend(_, _) => true
  }

  /** The file entry an upload records, read off the staged copy. */
  function UploadEntry(H: Hasher, u: string, f: string, content: string, tid: nat, staged: Tree): UserFile {
    var hash := if f + "~" in FilesIn(staged, u) then Digest(H, FilesIn(staged, u)[f + "~"]) else NO_DIGEST;
    UserFile(f, hash, tid, AsInt(|content|), false)
  }

  /** The work copy after `execute` was not refused. `staged` is the disk at that point. */
  function Effect(H: Hasher, c: Change, tid: nat, s: State, staged: Tree): State {
    var s := s.(lastTid := tid);
    match c
    case CreateUser(u, p) =>
      s.(passwords := Emplace(s.passwords, u, p), usersLastTid := Emplace(s.usersLastTid, u, tid))
    case CreateSession(id, u) =>
      s.(sessions := Emplace(s.sessions, id, u), usersLastTid := Emplace(s.usersLastTid, u, tid))
    case RemoveSession(id) =>
      // the session is erased before its user is looked up, so the name found is empty
      s.(sessions := s.sessions - {id}, usersLastTid := Emplace(s.usersLastTid, "", tid))
    case FileChange(u, f, deleted, content) =>
      if deleted then s.DropFile(u, f)
      else s.PutFile(u, f, UploadEntry(H, u, f, content, tid, staged))
    case NewFrontend(host, port) =>
      s.(frontends := s.frontends + [Frontend(host, port)])
  }

  function BeginOps(tid: nat): seq<Op> {
    [WriteTop(TID_STAGED, Show(tid))]
  }

  /** The disk operations of `execute`. */
  function StageOps(c: Change): seq<Op> {
    match c
    case CreateUser(u, p) => [MakeDir(u + "~"), WriteIn(u + "~", PASSWORD_FILE, p)]
    case FileChange(u, f, true, _) => [RenameIn(u, f, f + "~")]
    case FileChange(u, f, false, content) => [WriteIn(u, f + "~", content)]
    case _ => []
  }

  function CommitOps(c: Change): seq<Op> {
    [RemoveTop(TID_FILE), RenameTop(TID_STAGED, TID_FILE)] +
    match c
    case CreateUser(u, _) => [RenameTop(u + "~", u)]
    case FileChange(u, f, true, _) => [RemoveIn(u, f + "~")]
    case FileChange(u, f, false, _) => [RenameIn(u, f + "~", f)]
    case _ => []
  }

  /** The undo operations: the staged tid, then what the hook finds to undo. */
  function RollbackOps(c: Change, t: Tree): seq<Op> {
    [RemoveTop(TID_STAGED)] +
    match c
    case CreateUser(u, _) => [RemoveAll(u + "~")]
    case FileChange(u, f, deleted, _) =>
      if f + "~" !in FilesIn(Apply(RemoveTop(TID_STAGED), t), u) then []
      else if deleted then [RenameIn(u, f + "~", f)] else [RemoveIn(u, f + "~")]
    case _ => []
  }

  /** The rollback of a refused `execute`. */
  function GuardOps(accepted: bool, c: Change, t: Tree): seq<Op> {
    if accepted then [] else RollbackOps(c, t)
  }

  /** The operations that `execute` performs. CreateUser goes on after its rollback and stages the user anyway. */
  function ExecuteOps(accepted: bool, c: Change, t: Tree): seq<Op> {
    var back := Attempted(t, GuardOps(accepted, c, t));
    back + if (accepted || c.CreateUser?) && Survives(t, GuardOps(accepted, c, t))
           then Attempted(Run(t, back), StageOps(c)) else []
  }

  /** The rollback that catches what `execute` throws. A refused transaction has rolled back already, and a second
      rollback returns at once. */
  function CatchOps(accepted: bool, c: Change, t: Tree): seq<Op> {
    if accepted && !Survives(t, StageOps(c)) then RollbackOps(c, Run(t, ExecuteOps(accepted, c, t))) else []
  }

  /** Everything `run` does after `begin`. */
  function GuardedOps(accepted: bool, c: Change, t: Tree): seq<Op> {
    var done := ExecuteOps(accepted, c, t);
    done + Attempted(Run(t, done), CatchOps(accepted, c, t))
  }

  /** What `run` leaves: the operations it performed, the work copy, and the flags. `died` is an exception
      that nothing catches. */
  datatype Ran = Ran(ops: seq<Op>, work: State, prepared: bool, rolledBack: bool, died: bool)

  /** A whole `run` of a fresh transaction on state `s` and disk `t`. */
  function RunChange(H: Hasher, c: Change, tid: nat, s: State, t: Tree): Ran {
    var begun, accepted := Run(t, BeginOps(tid)), Accepts(c, s);
    var rest := GuardedOps(accepted, c, begun);
    var prepared := accepted && Survives(begun, StageOps(c));
    var work := if prepared then Effect(H, c, tid, s, Run(begun, rest)) else s.(lastTid := tid);
    var died := !Survives(Run(begun, ExecuteOps(accepted, c, begun)), CatchOps(accepted, c, begun));
    Ran(BeginOps(tid) + rest, work, prepared, !prepared, died)
  }

  /** The disk after `run`. */
  function RunTree(H: Hasher, c: Change, tid: nat, s: State, t: Tree): Tree {
    Run(t, RunChange(H, c, tid, s, t).ops)
  }

  /** The operations that end the transaction once its outcome is known. A transaction that already
      rolled back does nothing more. */
  function FinishOps(c: Change, ran: Ran, commit: bool, t: Tree): seq<Op> {
    if ran.rolledBack then [] else if commit then CommitOps(c) else RollbackOps(c, t)
  }

  /** All operations of a transaction from begin to end. */
  function LifeOps(H: Hasher, c: Change, tid: nat, s: State, t: Tree, commit: bool): seq<Op> {
    var ran := RunChange(H, c, tid, s, t);
    ran.ops + FinishOps(c, ran, commit, Run(t, ran.ops))
  }
}
