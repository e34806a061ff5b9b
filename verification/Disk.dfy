/** The server's directory as the code sees it: plain files and one level of user folders.
    Every change the server makes is one primitive operation, so that a crash can fall between
    any two of them, or in the middle of a write. */
module Disk {

  datatype Node = File(data: string) | Folder(files: map<string, string>)

  type Tree = map<string, Node>

  datatype Op =
    | WriteTop(name: string, data: string)
    | WriteIn(dir: string, name: string, data: string)
    | RemoveTop(name: string)
    | RemoveIn(dir: string, name: string)
    | RenameTop(name: string, to: string)
    | RenameIn(dir: string, name: string, to: string)
    | MakeDir(name: string)
    | RemoveAll(name: string)

  /** Names that end in `~` are staging names: recovery deletes what it finds under them. */
  predicate Tilde(name: string) {
    name != "" && name[|name| - 1] == '~'
  }

  predicate IsFolder(t: Tree, name: string) {
    name in t && t[name].Folder?
  }

  function FilesIn(t: Tree, dir: string): map<string, string> {
    if IsFolder(t, dir) then t[dir].files else map[]
  }

  /** When std::filesystem reports an error by throwing. Streams never throw. */
  predicate Throws(op: Op, t: Tree) {
    match op
    case WriteTop(_, _) => false
    case WriteIn(_, _, _) => false
    case RemoveTop(n) => FilesIn(t, n) != map[]
    case RemoveIn(_, _) => false
    case RenameTop(n, to) =>
      n !in t ||
      (n != to && to in t && (t[n].File? != t[to].File? || FilesIn(t, to) != map[]))
    case RenameIn(d, n, _) => n !in FilesIn(t, d)
    case MakeDir(n) => n in t && t[n].File?
    case RemoveAll(_) => false
  }

  /** The tree after one operation. An operation that throws changes nothing; neither does writing
      to a path that cannot be opened, or removing what is not there. */
  function Apply(op: Op, t: Tree): Tree {
    if Throws(op, t) then t else
      match op
      case WriteTop(n, data) => if IsFolder(t, n) then t else t[n := File(data)]
      case WriteIn(d, n, data) => if IsFolder(t, d) then t[d := Folder(t[d].files[n := data])] else t
      case RemoveTop(n) => t - {n}
      case RemoveIn(d, n) => if IsFolder(t, d) then t[d := Folder(t[d].files - {n})] else t
      case RenameTop(n, to) => (t - {n})[to := t[n]]
      case RenameIn(d, n, to) => t[d := Folder((t[d].files - {n})[to := t[d].files[n]])]
      case MakeDir(n) => if n in t then t else t[n := Folder(map[])]
      case RemoveAll(n) => t - {n}
  }

  function Run(t: Tree, ops: seq<Op>): Tree
    decreases ops
  {
    if ops == [] then t else Run(Apply(ops[0], t), ops[1..])
  }

  /** The operations that are attempted: an exception ends the sequence at the one that threw. */
  function Attempted(t: Tree, ops: seq<Op>): seq<Op>
    decreases ops
  {
    if ops == [] then []
    else if Throws(ops[0], t) then [ops[0]]
    else [ops[0]] + Attempted(Apply(ops[0], t), ops[1..])
  }

  predicate Survives(t: Tree, ops: seq<Op>)
    decreases ops
  {
    ops == [] || (!Throws(ops[0], t) && Survives(Apply(ops[0], t), ops[1..]))
  }

  /** A write cut short leaves a prefix of its bytes. */
  function Torn(op: Op, n: nat): Op {
    match op
    case WriteTop(name, data) => if n <= |data| then WriteTop(name, data[..n]) else op
    case WriteIn(dir, name, data) => if n <= |data| then WriteIn(dir, name, data[..n]) else op
    case _ => op
  }

  /** The trees a crash can leave behind while `ops` runs from `t`: any number of complete
      operations, then possibly part of a write. */
  ghost predicate CrashState(t: Tree, ops: seq<Op>, found: Tree)
    decreases ops
  {
    found == t ||
    (ops != [] &&
     ((exists n: nat :: found == Apply(Torn(ops[0], n), t)) || CrashState(Apply(ops[0], t), ops[1..], found)))
  }

  lemma {:induction false} RunAppend(t: Tree, a: seq<Op>, b: seq<Op>)
    ensures Run(t, a + b) == Run(Run(t, a), b)
    decreases a
  {
    if a == [] {
      assert a + b == b;
    } else {
      assert (a + b)[1..] == a[1..] + b;
      RunAppend(Apply(a[0], t), a[1..], b);
    }
  }

  lemma Assoc(a: seq<Op>, b: seq<Op>, c: seq<Op>)
    ensures (a + b) + c == a + (b + c)
    ensures a + [] == a && [] + a == a
  {
  }

  lemma RunSnoc(t: Tree, a: seq<Op>, op: Op)
    ensures Run(t, a + [op]) == Apply(op, Run(t, a))
  {
    RunAppend(t, a, [op]);
  }

  /** What a crash inside `a + b` leaves is what a crash inside `a` leaves, or one inside `b` after all of `a`. */
  lemma {:induction false} CrashAppend(t: Tree, a: seq<Op>, b: seq<Op>, found: Tree)
    requires CrashState(t, a + b, found)
    ensures CrashState(t, a, found) || CrashState(Run(t, a), b, found)
    decreases a
  {
    if a == [] {
      assert a + b == b;
    } else if found != t {
      assert (a + b)[1..] == a[1..] + b && (a + b)[0] == a[0];
      if CrashState(Apply(a[0], t), a[1..] + b, found) {
        CrashAppend(Apply(a[0], t), a[1..], b, found);
      }
    }
  }

  /** Every whole prefix is a crash state. */
  lemma {:induction false} PrefixIsCrashState(t: Tree, ops: seq<Op>, k: nat)
    requires k <= |ops|
    ensures CrashState(t, ops, Run(t, ops[..k]))
    decreases k
  {
    if k > 0 {
      assert ops[..k][1..] == ops[1..][..k - 1];
      PrefixIsCrashState(Apply(ops[0], t), ops[1..], k - 1);
    }
  }

  /** Where a run of operations stops: between two of them, or some bytes into the next one. */
  datatype Stop = Between(done: nat) | Inside(done: nat, bytes: nat)

  predicate IsStop(ops: seq<Op>, stop: Stop) {
    if stop.Between? then stop.done <= |ops| else stop.done < |ops|
  }

  /** How many operations were begun. */
  function Begun(stop: Stop): nat {
    if stop.Between? then stop.done else stop.done + 1
  }

  function StoppedAt(t: Tree, ops: seq<Op>, stop: Stop): Tree
    requires IsStop(ops, stop)
  {
    if stop.Between? then Run(t, ops[..stop.done])
    else Apply(Torn(ops[stop.done], stop.bytes), Run(t, ops[..stop.done]))
  }

  /** The same stop, one operation later. */
  function Later(stop: Stop): Stop {
    if stop.Between? then Between(stop.done + 1) else Inside(stop.done + 1, stop.bytes)
  }

  lemma LaterStop(t: Tree, ops: seq<Op>, stop: Stop)
    requires ops != [] && IsStop(ops[1..], stop)
    ensures IsStop(ops, Later(stop))
    ensures StoppedAt(t, ops, Later(stop)) == StoppedAt(Apply(ops[0], t), ops[1..], stop)
  {
    assert ops[..stop.done + 1][1..] == ops[1..][..stop.done];
  }

  /** The crash states are exactly the trees at the stops. */
  lemma {:induction false} CrashStateIsStop(t: Tree, ops: seq<Op>, found: Tree)
    ensures CrashState(t, ops, found) <==> exists stop :: IsStop(ops, stop) && found == StoppedAt(t, ops, stop)
    decreases ops
  {
    if CrashState(t, ops, found) {
      if found == t {
        assert StoppedAt(t, ops, Between(0)) == t;
      } else if n: nat :| found == Apply(Torn(ops[0], n), t) {
        assert ops[..0] == [] && StoppedAt(t, ops, Inside(0, n)) == found;
      } else {
        CrashStateIsStop(Apply(ops[0], t), ops[1..], found);
        var stop :| IsStop(ops[1..], stop) && found == StoppedAt(Apply(ops[0], t), ops[1..], stop);
        LaterStop(t, ops, stop);
      }
    }
    forall stop | IsStop(ops, stop) ensures CrashState(t, ops, StoppedAt(t, ops, stop)) {
      StopIsCrashState(t, ops, stop);
    }
  }

  lemma {:induction false} StopIsCrashState(t: Tree, ops: seq<Op>, stop: Stop)
    requires IsStop(ops, stop)
    ensures CrashState(t, ops, StoppedAt(t, ops, stop))
    decreases ops
  {
    if stop.Between? {
      PrefixIsCrashState(t, ops, stop.done);
    } else if stop.done == 0 {
      assert ops[..0] == [];
    } else {
      var before := Inside(stop.done - 1, stop.bytes);
      LaterStop(t, ops, before);
      StopIsCrashState(Apply(ops[0], t), ops[1..], before);
    }
  }

  /** A crash can leave any part of any write, from nothing to all of it, where the operations before it put it. */
  lemma AnyPartRemains(t: Tree, ops: seq<Op>, k: nat, n: nat)
    requires k < |ops| && (ops[k].WriteTop? || ops[k].WriteIn?) && n <= |ops[k].data|
    ensures var before, op := Run(t, ops[..k]), ops[k];
      && (op.WriteTop? && !IsFolder(before, op.name) ==>
            CrashState(t, ops, before[op.name := File(op.data[..n])]))
      && (op.WriteIn? && IsFolder(before, op.dir) ==>
            CrashState(t, ops, before[op.dir := Folder(before[op.dir].files[op.name := op.data[..n]])]))
  {
    StopIsCrashState(t, ops, Inside(k, n));
  }

  lemma StagedName(a: string, b: string)
    ensures Tilde(a + "~")
    ensures a + "~" == b + "~" ==> a == b
    ensures !Tilde(b) ==> a + "~" != b
    ensures a + "~" != a
  {
    assert (a + "~")[|a|] == '~';
    if a + "~" == b + "~" {
      assert a == (a + "~")[..|a|] && b == (b + "~")[..|b|];
    }
    assert |a + "~"| != |a|;
  }

  /** The disk of one server. The journal lists the operations in the order they reached the disk. */
  class FileSystem {
    var tree: Tree
    ghost var journal: seq<Op>

    constructor (initial: Tree)
      ensures tree == initial && journal == []
    {
      tree := initial;
      journal := [];
    }

    method Do(op: Op) returns (threw: bool)
      modifies this
      ensures tree == Apply(op, old(tree))
      ensures threw == Throws(op, old(tree))
      ensures journal == old(journal) + [op]
    {
      threw := Throws(op, tree);
      tree := Apply(op, tree);
      journal := journal + [op];
    }
  }
}
