/** Logins at the same time. A login first checks how many sessions its user has, and creates its own in a transaction
    of its own; anything can happen in between. */
module Logins {
  import opened Records
  import opened Changes
  import opened Coupling
  import opened History
  import opened Service

  /** A login that passed the check and has drawn its session id. */
  datatype Waiting = Waiting(user: string, id: int)

  datatype Desk = Desk(state: State, waiting: map<nat, Waiting>)

  datatype Move =
    | Check(ticket: nat, user: string, id: int)
    | Create(ticket: nat, tid: nat, others: bool)
    | Other(change: Change, tid: nat)

  const EmptyDesk := Desk(EmptyState, map[])

  predicate Allowed(m: Move, d: Desk) {
    match m
    case Check(ticket, user, id) =>
      && ticket !in d.waiting && d.state.HasUser(user)
      && |d.state.SessionsOf(user)| < MAX_SESSIONS && !d.state.IsSessionValid(id)
    case Create(ticket, _, _) => ticket in d.waiting
    // any other transaction that commits
    case Other(c, _) => Accepts(c, d.state) && !c.CreateSession?
  }

  function Moved(H: Hasher, m: Move, d: Desk): Desk
    requires Allowed(m, d)
  {
    match m
    case Check(ticket, user, id) => d.(waiting := d.waiting[ticket := Waiting(user, id)])
    case Create(ticket, tid, others) =>
      var c := CreateSession(d.waiting[ticket].id, d.waiting[ticket].user);
      Desk(if others && Accepts(c, d.state) then NextState(H, c, tid, d.state) else d.state, d.waiting - {ticket})
    case Other(c, tid) => d.(state := NextState(H, c, tid, d.state))
  }

  /** The logins of a user between check and creation. */
  function InFlight(d: Desk, user: string): set<nat> {
    set t | t in d.waiting && d.waiting[t].user == user
  }

  ghost predicate Within(d: Desk, limit: nat) {
    forall u :: |InFlight(d, u)| <= limit
  }

  /** A run with never more than `limit` logins of one user in flight. */
  ghost predicate Reaches(H: Hasher, d: Desk, moves: seq<Move>, end: Desk, limit: nat)
    decreases moves
  {
    Within(d, limit) &&
    if moves == [] then end == d
    else Allowed(moves[0], d) && Reaches(H, Moved(H, moves[0], d), moves[1..], end, limit)
  }

  // ---- never more than one above the limit ----

  function Weight(d: Desk, u: string): nat {
    |d.state.SessionsOf(u)| + |InFlight(d, u)|
  }

  ghost predicate Light(d: Desk, limit: nat) {
    forall u :: Weight(d, u) <= limit + 1
  }

  lemma CheckWeight(H: Hasher, d: Desk, m: Move, u: string, limit: nat)
    requires m.Check? && Allowed(m, d) && Within(Moved(H, m, d), limit) && Weight(d, u) <= limit + 1
    ensures Weight(Moved(H, m, d), u) <= limit + 1
  {
    var d' := Moved(H, m, d);
    if u == m.user {
      assert |InFlight(d', u)| <= limit;
    } else {
      assert InFlight(d', u) == InFlight(d, u);
    }
  }

  lemma CreateWeight(H: Hasher, d: Desk, m: Move, u: string)
    requires m.Create? && Allowed(m, d)
    ensures Weight(Moved(H, m, d), u) <= Weight(d, u)
  {
    var d', w := Moved(H, m, d), d.waiting[m.ticket];
    var c := CreateSession(w.id, w.user);
    if u == w.user {
      assert InFlight(d', u) == InFlight(d, u) - {m.ticket} && m.ticket in InFlight(d, u);
    } else {
      assert InFlight(d', u) == InFlight(d, u);
    }
    if m.others && Accepts(c, d.state) {
      OneMoreSession(d.state, d'.state, w.id, w.user, u);
    }
  }

  lemma OtherWeight(H: Hasher, d: Desk, m: Move, u: string)
    requires m.Other? && Allowed(m, d)
    ensures Weight(Moved(H, m, d), u) <= Weight(d, u)
  {
    var s' := NextState(H, m.change, m.tid, d.state);
    FewerKept(d.state, s', u);
    assert InFlight(Moved(H, m, d), u) == InFlight(d, u);
  }

  lemma FewerKept(s: State, s': State, u: string)
    requires forall id :: id in s'.sessions ==> id in s.sessions && s'.sessions[id] == s.sessions[id]
    ensures |s'.SessionsOf(u)| <= |s.SessionsOf(u)|
  {
    forall id | id in s'.SessionsOf(u) ensures id in s.SessionsOf(u) {
      assert id in s'.sessions;
    }
    Subset(s'.SessionsOf(u), s.SessionsOf(u));
  }

  lemma Subset(a: set<int>, b: set<int>)
    requires a <= b
    ensures |a| <= |b|
  {
    assert |b - a| == |b| - |a|;
  }

  lemma {:induction false} StaysLight(H: Hasher, d: Desk, moves: seq<Move>, end: Desk, limit: nat)
    requires Light(d, limit) && Reaches(H, d, moves, end, limit)
    ensures Light(end, limit)
    decreases moves
  {
    if moves != [] {
      var d' := Moved(H, moves[0], d);
      assert Within(d', limit);
      forall u ensures Weight(d', u) <= limit + 1 {
        assert Weight(d, u) <= limit + 1;
        match moves[0] {
          case Check(_, _, _) => CheckWeight(H, d, moves[0], u, limit);
          case Create(_, _, _) => CreateWeight(H, d, moves[0], u);
          case Other(_, _) => OtherWeight(H, d, moves[0], u);
        }
      }
      StaysLight(H, d', moves[1..], end, limit);
    }
  }

  /** With never more than `limit` logins of a user in flight, no user ever has more than `limit + 1` sessions. */
  lemma LoginLimit(H: Hasher, moves: seq<Move>, end: Desk, limit: nat, u: string)
    requires Reaches(H, EmptyDesk, moves, end, limit)
    ensures |end.state.SessionsOf(u)| <= limit + 1
  {
    forall v ensures Weight(EmptyDesk, v) <= limit + 1 {
      assert EmptyState.SessionsOf(v) == {} && InFlight(EmptyDesk, v) == {};
    }
    StaysLight(H, EmptyDesk, moves, end, limit);
    assert Weight(end, u) <= limit + 1;
  }

  // ---- and that many are reached ----

  /** `n` logins of one user in flight. */
  function Lined(u: string, n: nat): map<nat, Waiting> {
    map t: nat | 1 <= t <= n :: Waiting(u, t)
  }

  lemma LinedMore(u: string, n: nat)
    ensures Lined(u, n + 1) == Lined(u, n)[n + 1 := Waiting(u, n + 1)] && n + 1 !in Lined(u, n)
    ensures Lined(u, n + 1) - {n + 1} == Lined(u, n)
  {
  }

  lemma {:induction false} LinedSize(u: string, n: nat)
    ensures |Lined(u, n).Keys| == n
    decreases n
  {
    if n == 0 {
      assert Lined(u, 0) == map[];
    } else {
      LinedSize(u, n - 1);
      LinedMore(u, n - 1);
      assert Lined(u, n).Keys == Lined(u, n - 1).Keys + {n};
    }
  }

  lemma LinedWithin(s: State, u: string, n: nat, limit: nat)
    requires n <= limit
    ensures Within(Desk(s, Lined(u, n)), limit)
  {
    var d := Desk(s, Lined(u, n));
    forall v ensures |InFlight(d, v)| <= limit {
      LinedSize(u, n);
      assert InFlight(d, v) == if v == u then Lined(u, n).Keys else {};
    }
  }

  /** The run can end with that many sessions of the user. */
  ghost predicate CanHave(H: Hasher, d: Desk, u: string, sessions: nat, limit: nat) {
    exists moves, end :: Reaches(H, d, moves, end, limit) && |end.state.SessionsOf(u)| == sessions
  }

  lemma MoveFirst(H: Hasher, d: Desk, m: Move, u: string, sessions: nat, limit: nat)
    requires Within(d, limit) && Allowed(m, d) && CanHave(H, Moved(H, m, d), u, sessions, limit)
    ensures CanHave(H, d, u, sessions, limit)
  {
    var moves, end :| Reaches(H, Moved(H, m, d), moves, end, limit) && |end.state.SessionsOf(u)| == sessions;
    assert ([m] + moves)[1..] == moves;
    assert Reaches(H, d, [m] + moves, end, limit);
  }

  /** All logins in line create their sessions. */
  lemma {:induction false} LineCreates(H: Hasher, s: State, u: string, n: nat, limit: nat)
    requires s.HasUser(u) && n <= limit && forall t: nat :: 1 <= t <= n ==> t !in s.sessions
    ensures CanHave(H, Desk(s, Lined(u, n)), u, |s.SessionsOf(u)| + n, limit)
    decreases n
  {
    var d := Desk(s, Lined(u, n));
    LinedWithin(s, u, n, limit);
    if n == 0 {
      assert Reaches(H, d, [], d, limit);
    } else {
      var m := Create(n, 0, true);
      var s' := NextState(H, CreateSession(n, u), 0, s);
      LinedMore(u, n - 1);
      assert Moved(H, m, d) == Desk(s', Lined(u, n - 1));
      OneMoreSession(s, s', n, u, u);
      LineCreates(H, s', u, n - 1, limit);
      MoveFirst(H, d, m, u, |s.SessionsOf(u)| + n, limit);
    }
  }

  /** Logins of a user with one session pass the check until the line is full. */
  lemma {:induction false} LineForms(H: Hasher, s: State, u: string, n: nat, limit: nat)
    requires s.HasUser(u) && n <= limit && |s.SessionsOf(u)| == 1
    requires forall t: nat :: 1 <= t <= limit ==> t !in s.sessions
    ensures CanHave(H, Desk(s, Lined(u, n)), u, 1 + limit, limit)
    decreases limit - n
  {
    LinedWithin(s, u, n, limit);
    if n == limit {
      LineCreates(H, s, u, n, limit);
    } else {
      var m := Check(n + 1, u, n + 1);
      LinedMore(u, n);
      assert Moved(H, m, Desk(s, Lined(u, n))) == Desk(s, Lined(u, n + 1));
      LineForms(H, s, u, n + 1, limit);
      MoveFirst(H, Desk(s, Lined(u, n)), m, u, 1 + limit, limit);
    }
  }

  /** Sign up, log in once, and then `limit` times at once. */
  lemma LimitReached(H: Hasher, limit: nat)
    requires limit >= 1
    ensures CanHave(H, EmptyDesk, "ana", limit + 1, limit)
  {
    var u := "ana";
    assert Lined(u, 0) == map[];
    var signUp, check, create := Other(CreateUser(u, "x"), 1), Check(0, u, 0), Create(0, 2, true);
    var s1 := NextState(H, signUp.change, 1, EmptyState);
    var s2 := NextState(H, CreateSession(0, u), 2, s1);
    assert s1.SessionsOf(u) == {};
    OneMoreSession(s1, s2, 0, u, u);
    LinedWithin(EmptyState, u, 0, limit);
    LinedWithin(s1, u, 0, limit);
    var checked := Desk(s1, map[0 := Waiting(u, 0)]);
    forall v ensures |InFlight(checked, v)| <= limit {
      assert InFlight(checked, v) == if v == u then {0} else {};
    }
    assert map[0 := Waiting(u, 0)] - {0} == Lined(u, 0);
    LineForms(H, s2, u, 0, limit);
    MoveFirst(H, checked, create, u, limit + 1, limit);
    MoveFirst(H, Desk(s1, map[]), check, u, limit + 1, limit);
    MoveFirst(H, EmptyDesk, signUp, u, limit + 1, limit);
  }

  ghost predicate AlwaysBounded(H: Hasher, limit: nat) {
    forall moves, end :: Reaches(H, EmptyDesk, moves, end, limit) ==> Bounded(end.state)
  }

  /** Two sessions at most, in every run, if and only if no user has two logins in flight at once. */
  lemma TwoSessionsIffOneAtATime(H: Hasher, limit: nat)
    requires limit >= 1
    ensures AlwaysBounded(H, limit) <==> limit == 1
  {
    if limit == 1 {
      forall moves, end | Reaches(H, EmptyDesk, moves, end, limit) ensures Bounded(end.state) {
        forall u ensures |end.state.SessionsOf(u)| <= MAX_SESSIONS {
          LoginLimit(H, moves, end, limit, u);
        }
      }
    } else {
      LimitReached(H, limit);
      var moves, end :| Reaches(H, EmptyDesk, moves, end, limit) && |end.state.SessionsOf("ana")| == limit + 1;
      assert |end.state.SessionsOf("ana")| > MAX_SESSIONS;
      assert !Bounded(end.state);
      assert !AlwaysBounded(H, limit);
    }
  }

  /** Two logins at once, after one that is done, make three sessions. */
  lemma ThreeSessions(H: Hasher)
    ensures CanHave(H, EmptyDesk, "ana", 3, 2)
  {
    LimitReached(H, 2);
  }

  /** The end of a login is a check and, whatever happens in between, a creation; without anything in between they
      leave the state that the handler leaves. */
  lemma HandlerChecksThenCreates(H: Hasher, l: Local, tid: nat, user: string, password: string, draws: seq<int>,
                                 second: bool)
    ensures var v := OpenSession(H, l, tid, user, password, draws, second);
      if v.lastTid == tid then v.local == l
      else
        exists id :: id in draws
          && Allowed(Check(0, user, id), Desk(l.state, map[]))
          && var checked := Moved(H, Check(0, user, id), Desk(l.state, map[]));
             && checked.state == l.state && Allowed(Create(0, tid + 1, second), checked)
             && Moved(H, Create(0, tid + 1, second), checked) == Desk(v.local.state, map[])
             && (v.response == LoginOk(id) <==> v.local.state != l.state)
  {
    var v := OpenSession(H, l, tid, user, password, draws, second);
    if v.lastTid != tid {
      var id := FirstFree(draws, l.state).value;
      AfterState(H, Finished(CreateSession(id, user), tid + 1, second), l);
      var checked := Moved(H, Check(0, user, id), Desk(l.state, map[]));
      assert id in draws && id !in l.state.sessions;
      assert checked.waiting - {0} == map[];
      assert v.local.state != l.state ==> id in v.local.state.sessions;
    }
  }
}
