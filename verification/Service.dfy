/** What the request handlers do with the database: login, logout, and the file update that sends the bytes only when
    the announced digest is not the stored one. */
module Service {
  import opened Options
  import opened Disk
  import opened Records
  import opened Digests
  import opened Changes
  import opened Coupling
  import opened History

  /** The coordinator's copy, changed one transaction at a time. */
  class Database {
    const H: Hasher
    var local: Local
    var lastTid: nat

    constructor (H: Hasher, local: Local, lastTid: nat)
      ensures this.H == H && this.local == local && this.lastTid == lastTid
    {
      this.H, this.local, this.lastTid := H, local, lastTid;
    }

    /** A transaction; `others` tells whether every replica votes yes. */
    method Do(c: Change, others: bool) returns (ok: bool)
      modifies this
      ensures lastTid == old(lastTid) + 1 && ok == (others && Prepares(c, old(local.state)))
      ensures local == After(H, Finished(c, lastTid, others), old(local))
    {
      lastTid := lastTid + 1;
      ok := others && Prepares(c, local.state);
      local := After(H, Finished(c, lastTid, others), local);
    }
  }

  // ---- sessions ----

  /** Every session belongs to a registered user. */
  ghost predicate Registered(s: State) {
    forall id :: id in s.sessions ==> s.HasUser(s.sessions[id])
  }

  const MAX_SESSIONS: nat := 2

  ghost predicate Bounded(s: State) {
    forall u :: |s.SessionsOf(u)| <= MAX_SESSIONS
  }

  lemma NextRegistered(H: Hasher, c: Change, tid: nat, s: State)
    requires Registered(s) && Accepts(c, s)
    ensures Registered(NextState(H, c, tid, s))
  {
  }

  /** A committed transaction leaves every session as it is, but for the one it removes. */
  lemma SessionsKept(H: Hasher, c: Change, tid: nat, s: State, id: int)
    requires Accepts(c, s) && id in s.sessions && c != RemoveSession(id)
    ensures var s' := NextState(H, c, tid, s); id in s'.sessions && s'.sessions[id] == s.sessions[id]
  {
  }

  /** In every history each session belongs to a registered user. */
  lemma {:induction false} HistoryRegistered(H: Hasher, l: Local, es: seq<Event>)
    requires Registered(l.state) && Runs(H, l, es)
    ensures Registered(End(H, l, es).state)
    decreases es
  {
    if es != [] {
      if es[0].Finished? && Commits(es[0], l) {
        NextRegistered(H, es[0].change, es[0].tid, l.state);
      }
      HistoryRegistered(H, After(H, es[0], l), es[1..]);
    }
  }

  lemma OneMoreSession(s: State, s': State, id: int, u: string, v: string)
    requires id !in s.sessions && s'.sessions == s.sessions[id := u]
    ensures |s'.SessionsOf(v)| == |s.SessionsOf(v)| + if v == u then 1 else 0
  {
    AddedSession(s, s', id, u, v);
  }

  lemma AddedSession(s: State, s': State, id: int, u: string, v: string)
    requires id !in s.sessions && s'.sessions == s.sessions[id := u]
    ensures id !in s.SessionsOf(v)
    ensures s'.SessionsOf(v) == s.SessionsOf(v) + if v == u then {id} else {}
  {
  }

  function CreateAll(H: Hasher, ids: seq<int>, u: string, tid: nat, s: State): State
    decreases ids
  {
    if ids == [] then s else CreateAll(H, ids[1..], u, tid + 1, NextState(H, CreateSession(ids[0], u), tid, s))
  }

  /** Logins that all passed the check before any of them created its session: each transaction is accepted, and the
      user ends with all the sessions, whatever the limit. */
  lemma {:induction false} ConcurrentLogins(H: Hasher, ids: seq<int>, u: string, tid: nat, s: State)
    requires s.HasUser(u)
    requires forall i :: 0 <= i < |ids| ==> ids[i] !in s.sessions
    requires forall i, j :: 0 <= i < j < |ids| ==> ids[i] != ids[j]
    ensures |CreateAll(H, ids, u, tid, s).SessionsOf(u)| == |s.SessionsOf(u)| + |ids|
    ensures ids != [] ==> Accepts(CreateSession(ids[0], u), s)
    decreases ids
  {
    if ids != [] {
      var s' := NextState(H, CreateSession(ids[0], u), tid, s);
      OneMoreSession(s, s', ids[0], u, u);
      ConcurrentLogins(H, ids[1..], u, tid + 1, s');
    }
  }

  datatype Response = Error(message: string) | LoginOk(session: int) | LoggedOut | FileUpdated | Pending

  /** What a handler leaves: the database, the transaction counter, and its answer. */
  datatype Served = Served(local: Local, lastTid: nat, response: Response)

  /** The number at `i` is no session, and all numbers drawn before it are. */
  predicate FirstAt(draws: seq<int>, sessions: map<int, string>, id: int, i: int) {
    0 <= i < |draws| && draws[i] == id && id !in sessions && forall j :: 0 <= j < i ==> draws[j] in sessions
  }

  /** The first of the numbers drawn that is no session. */
  ghost predicate IsFirstFree(draws: seq<int>, sessions: map<int, string>, id: int) {
    exists i :: FirstAt(draws, sessions, id, i)
  }

  function FirstFree(draws: seq<int>, s: State): (free: Option<int>)
    ensures free.Some? <==> exists d :: d in draws && !s.IsSessionValid(d)
    ensures free.Some? ==> IsFirstFree(draws, s.sessions, free.value)
  {
    if draws == [] then None
    else if s.IsSessionValid(draws[0]) then
      var free := FirstFree(draws[1..], s);
      assert free.Some? ==> IsFirstFree(draws, s.sessions, free.value) by {
        if free.Some? {
          var i :| FirstAt(draws[1..], s.sessions, free.value, i);
          assert FirstAt(draws, s.sessions, free.value, i + 1);
        }
      }
      free
    else
      assert FirstAt(draws, s.sessions, draws[0], 0);
      Some(draws[0])
  }

  /** The end of a login, once the user exists: password, number of sessions, a free id, and the new session. */
  function OpenSession(H: Hasher, l: Local, tid: nat, user: string, password: string, draws: seq<int>, second: bool)
    : Served
  {
    if !l.state.CheckPassword(user, password) then Served(l, tid, Error("Wrong password"))
    else if |l.state.SessionsOf(user)| >= MAX_SESSIONS then Served(l, tid, Error("Too many sessions"))
    else if FirstFree(draws, l.state).None? then Served(l, tid, Pending)
    else
      var c := CreateSession(FirstFree(draws, l.state).value, user);
      Served(After(H, Finished(c, tid + 1, second), l), tid + 1,
             if second && Prepares(c, l.state) then LoginOk(c.sessionId) else Error("Error creating session"))
  }

  /** A whole login. */
  function Login(H: Hasher, l: Local, tid: nat, user: string, password: string, headerSession: int, draws: seq<int>,
                 first: bool, second: bool): Served
  {
    if user == "" || password == "" then Served(l, tid, Error("Username or password empty"))
    else if headerSession > 0 then Served(l, tid, Error("Already logged in"))
    else if l.state.HasUser(user) then OpenSession(H, l, tid, user, password, draws, second)
    else
      var c := CreateUser(user, password);
      var created := After(H, Finished(c, tid + 1, first), l);
      if first && Prepares(c, l.state) then OpenSession(H, created, tid + 1, user, password, draws, second)
      else Served(created, tid + 1, Error("Error creating user"))
  }

  function Logout(H: Hasher, l: Local, tid: nat, headerSession: int, others: bool): Served {
    if !l.state.IsSessionValid(headerSession) then Served(l, tid, Error("Invalid session"))
    else
      Served(After(H, Finished(RemoveSession(headerSession), tid + 1, others), l), tid + 1,
             if others then LoggedOut else Error("Error removing session"))
  }

  /** A login that succeeds adds exactly its session, to a user that had room for it; otherwise no session changes. */
  ghost predicate OpensAtMostOne(s: State, v: Served, user: string, draws: seq<int>) {
    var sessions := v.local.state.sessions;
    if v.response.LoginOk? then
      && v.response.session !in s.sessions && IsFirstFree(draws, s.sessions, v.response.session)
      && sessions == s.sessions[v.response.session := user] && |s.SessionsOf(user)| < MAX_SESSIONS
    else sessions == s.sessions
  }

  lemma OpenSessionDoes(H: Hasher, l: Local, tid: nat, user: string, password: string, draws: seq<int>, second: bool)
    ensures var v := OpenSession(H, l, tid, user, password, draws, second);
      && OpensAtMostOne(l.state, v, user, draws)
      && (v.response.LoginOk? ==> user in v.local.state.passwords && v.local.state.passwords[user] == password)
      && v.local.state.passwords == l.state.passwords && v.local.state.files == l.state.files
  {
  }

  /** A login succeeds only with the right password and room for a session. */
  lemma LoginDoes(H: Hasher, l: Local, tid: nat, user: string, password: string, headerSession: int, draws: seq<int>,
                  first: bool, second: bool)
    ensures var v := Login(H, l, tid, user, password, headerSession, draws, first, second);
      && OpensAtMostOne(l.state, v, user, draws)
      && (v.response.LoginOk? ==> user in v.local.state.passwords && v.local.state.passwords[user] == password)
      && (v.local.state.passwords == l.state.passwords
          || (user !in l.state.passwords && v.local.state.passwords == l.state.passwords[user := password]))
      && v.local.state.files == l.state.files
  {
    if user == "" || password == "" || headerSession > 0 {
    } else if l.state.HasUser(user) {
      OpenSessionDoes(H, l, tid, user, password, draws, second);
    } else {
      SignUp(H, l, tid + 1, user, password, first);
      var created := After(H, Finished(CreateUser(user, password), tid + 1, first), l);
      OpenSessionDoes(H, created, tid + 1, user, password, draws, second);
    }
  }

  /** What the handler needs of the user name: a known user with this password, or a new user whose creation is
      accepted here and voted for by the replicas. A user called like the tid file cannot be created. */
  predicate LetIn(s: State, user: string, password: string, first: bool) {
    if user in s.passwords then s.passwords[user] == password else first && user != TID_FILE
  }

  /** The user has fewer than two sessions, and one of the numbers drawn is no session. */
  predicate Room(s: State, user: string, draws: seq<int>) {
    |s.SessionsOf(user)| < MAX_SESSIONS && exists d :: d in draws && d !in s.sessions
  }

  predicate WellFormed(user: string, password: string, headerSession: int) {
    user != "" && password != "" && headerSession <= 0
  }

  lemma OpensIff(H: Hasher, l: Local, tid: nat, user: string, password: string, draws: seq<int>, second: bool)
    ensures OpenSession(H, l, tid, user, password, draws, second).response.LoginOk? <==>
              user in l.state.passwords && l.state.passwords[user] == password && Room(l.state, user, draws) && second
  {
  }

  /** The step of a login by a name nobody has: the user is created exactly when that is voted for. */
  lemma SignUp(H: Hasher, l: Local, tid: nat, user: string, password: string, first: bool)
    requires user != "" && password != "" && user !in l.state.passwords
    ensures var c := CreateUser(user, password);
      var s := After(H, Finished(c, tid, first), l).state;
      && (Prepares(c, l.state) <==> user != TID_FILE)
      && (if first && user != TID_FILE
          then s.passwords == l.state.passwords[user := password] && s.lastTid == tid
          else s == l.state)
      && s.sessions == l.state.sessions && s.files == l.state.files
  {
    AfterState(H, Finished(CreateUser(user, password), tid, first), l);
  }

  /** Exactly when a login succeeds, for known and for new users, and which passwords it leaves: a new user who is let
      in has registered, even if the session is then refused. */
  lemma LoginSucceeds(H: Hasher, l: Local, tid: nat, user: string, password: string, headerSession: int,
                      draws: seq<int>, first: bool, second: bool)
    ensures var v := Login(H, l, tid, user, password, headerSession, draws, first, second);
      && (v.response.LoginOk? <==>
            WellFormed(user, password, headerSession) && LetIn(l.state, user, password, first)
            && Room(l.state, user, draws) && second)
      && v.local.state.passwords == (if WellFormed(user, password, headerSession) && user !in l.state.passwords
                                        && LetIn(l.state, user, password, first)
                                     then l.state.passwords[user := password] else l.state.passwords)
      && (WellFormed(user, password, headerSession) && user !in l.state.passwords && !first ==>
            v.response.Error? && v.local.state == l.state)
      && (!WellFormed(user, password, headerSession) ==> v.response.Error? && v.local == l)
  {
    if WellFormed(user, password, headerSession) {
      if user in l.state.passwords {
        OpenSessionDoes(H, l, tid, user, password, draws, second);
        OpensIff(H, l, tid, user, password, draws, second);
      } else {
        SignUp(H, l, tid + 1, user, password, first);
        var created := After(H, Finished(CreateUser(user, password), tid + 1, first), l);
        assert created.state.SessionsOf(user) == l.state.SessionsOf(user);
        OpenSessionDoes(H, created, tid + 1, user, password, draws, second);
        OpensIff(H, created, tid + 1, user, password, draws, second);
      }
    }
  }

  method DrawFree(draws: seq<int>, s: State) returns (free: Option<int>)
    ensures free == FirstFree(draws, s)
  {
    var i := 0;
    while i < |draws| && s.IsSessionValid(draws[i])
      invariant 0 <= i <= |draws| && FirstFree(draws[i..], s) == FirstFree(draws, s)
    {
      assert draws[i..][1..] == draws[i + 1..];
      i := i + 1;
    }
    return if i == |draws| then None else Some(draws[i]);
  }

  method HandleOpenSession(db: Database, user: string, password: string, draws: seq<int>, second: bool)
    returns (r: Response)
    modifies db
    ensures Served(db.local, db.lastTid, r)
            == OpenSession(db.H, old(db.local), old(db.lastTid), user, password, draws, second)
  {
    if !db.local.state.CheckPassword(user, password) {
      return Error("Wrong password");
    }
    if |db.local.state.SessionsOf(user)| >= MAX_SESSIONS {
      return Error("Too many sessions");
    }
    var free := DrawFree(draws, db.local.state);
    if free.None? {
      return Pending;
    }
    var ok := db.Do(CreateSession(free.value, user), second);
    return if ok then LoginOk(free.value) else Error("Error creating session");
  }

  /** `draws` are the values of rand(); if all of them are taken the handler is still drawing. `first` and `second` are
      the replicas' votes on the two transactions. */
  method HandleLogin(db: Database, user: string, password: string, headerSession: int, draws: seq<int>,
                     first: bool, second: bool)
    returns (r: Response)
    modifies db
    ensures Served(db.local, db.lastTid, r)
            == Login(db.H, old(db.local), old(db.lastTid), user, password, headerSession, draws, first, second)
    ensures r.LoginOk? <==>
              WellFormed(user, password, headerSession) && LetIn(old(db.local.state), user, password, first)
              && Room(old(db.local.state), user, draws) && second
    ensures r.LoginOk? ==>
              && IsFirstFree(draws, old(db.local.state.sessions), r.session)
              && db.local.state.sessions == old(db.local.state.sessions)[r.session := user]
              && user in db.local.state.passwords && db.local.state.passwords[user] == password
              && |old(db.local.state).SessionsOf(user)| < MAX_SESSIONS
    ensures !r.LoginOk? ==> db.local.state.sessions == old(db.local.state.sessions)
    ensures db.local.state.passwords ==
            if WellFormed(user, password, headerSession) && user !in old(db.local.state.passwords)
               && LetIn(old(db.local.state), user, password, first)
            then old(db.local.state.passwords)[user := password] else old(db.local.state.passwords)
    ensures db.local.state.files == old(db.local.state.files)
    ensures !WellFormed(user, password, headerSession) ==> r.Error? && db.local == old(db.local)
  {
    LoginDoes(db.H, db.local, db.lastTid, user, password, headerSession, draws, first, second);
    LoginSucceeds(db.H, db.local, db.lastTid, user, password, headerSession, draws, first, second);
    if user == "" || password == "" {
      return Error("Username or password empty");
    }
    if headerSession > 0 {
      return Error("Already logged in");
    }
    if !db.local.state.HasUser(user) {
      var created := db.Do(CreateUser(user, password), first);
      if !created {
        return Error("Error creating user");
      }
    }
    r := HandleOpenSession(db, user, password, draws, second);
  }

  /** Logins handled one at a time never give a user more than two sessions. */
  method HandleLoginAlone(db: Database, user: string, password: string, headerSession: int, draws: seq<int>,
                          first: bool, second: bool)
    returns (r: Response)
    requires Bounded(db.local.state)
    modifies db
    ensures Bounded(db.local.state)
  {
    ghost var s := db.local.state;
    r := HandleLogin(db, user, password, headerSession, draws, first, second);
    forall u ensures |db.local.state.SessionsOf(u)| <= MAX_SESSIONS {
      if r.LoginOk? {
        OneMoreSession(s, db.local.state, r.session, user, u);
      } else {
        assert db.local.state.SessionsOf(u) == s.SessionsOf(u);
      }
    }
  }

  method HandleLogout(db: Database, headerSession: int, others: bool) returns (r: Response)
    modifies db
    ensures Served(db.local, db.lastTid, r) == Logout(db.H, old(db.local), old(db.lastTid), headerSession, others)
    ensures db.local.state.sessions ==
            if r.LoggedOut? then old(db.local.state.sessions) - {headerSession} else old(db.local.state.sessions)
    ensures r.LoggedOut? <==> others && headerSession in old(db.local.state.sessions)
    ensures db.local.state.passwords == old(db.local.state.passwords)
    ensures db.local.state.files == old(db.local.state.files)
  {
    if !db.local.state.IsSessionValid(headerSession) {
      return Error("Invalid session");
    }
    var ok := db.Do(RemoveSession(headerSession), others);
    return if ok then LoggedOut else Error("Error removing session");
  }
}
