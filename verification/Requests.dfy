/** Requests handled one after the other: the dispatch on their kind, the session check in front of most of them, and
    what every run of them keeps. */
module Requests {
  import opened Options
  import opened Disk
  import opened Records
  import opened Digests
  import opened Changes
  import opened Coupling
  import opened History
  import opened Service
  import opened FileUpdates

  /** The requests that change something, with what the handler meets: numbers drawn, data sent on request, votes. */
  datatype Request =
    | LoginRequest(user: string, password: string, headerSession: int, draws: seq<int>, first: bool, second: bool)
    | FrontendRequest(hostname: string, port: int, others: bool)
    | LogoutRequest(headerSession: int, others: bool)
    | UploadRequest(headerSession: int, data: FileData, others: bool)
    | UpdateRequest(headerSession: int, filename: string, hash: string, deleted: bool, reply: Option<FileData>,
                    others: bool)

  /** A login needs no session, and neither does a frontend; all others are of the user of their session. */
  function Serve(H: Hasher, req: Request, l: Local, tid: nat): Served {
    match req
    case LoginRequest(user, password, session, draws, first, second) =>
      Login(H, l, tid, user, password, session, draws, first, second)
    case FrontendRequest(hostname, port, others) =>
      Served(After(H, Finished(NewFrontend(hostname, port), tid + 1, others), l), tid + 1,
             if others then LoginOk(0) else Error("Error creating frontend"))
    case LogoutRequest(session, others) => Logout(H, l, tid, session, others)
    case UploadRequest(session, data, others) =>
      if !l.state.IsSessionValid(session) then Served(l, tid, Error("Invalid session"))
      else ServeUpload(H, l, tid, l.state.sessions[session], data, others)
    case UpdateRequest(session, filename, hash, deleted, reply, others) =>
      if !l.state.IsSessionValid(session) then Served(l, tid, Error("Invalid session"))
      else ServeUpdate(H, l, tid, l.state.sessions[session], filename, hash, deleted, reply, others)
  }

  method HandleRequest(db: Database, req: Request) returns (r: Response)
    modifies db
    ensures Served(db.local, db.lastTid, r) == Serve(db.H, req, old(db.local), old(db.lastTid))
  {
    if req.LoginRequest? {
      r := HandleLogin(db, req.user, req.password, req.headerSession, req.draws, req.first, req.second);
      return;
    }
    if req.FrontendRequest? {
      var ok := db.Do(NewFrontend(req.hostname, req.port), req.others);
      return if ok then LoginOk(0) else Error("Error creating frontend");
    }
    if !db.local.state.IsSessionValid(req.headerSession) {
      return Error("Invalid session");
    }
    var user := db.local.state.UserFromSession(req.headerSession);
    match req {
      case LogoutRequest(session, others) =>
        r := HandleLogout(db, session, others);
      case UploadRequest(_, data, others) =>
        r := HandleUpload(db, user, data, others);
      case UpdateRequest(_, filename, hash, deleted, reply, others) =>
        r := HandleFileUpdate(db, user, filename, hash, deleted, reply, others);
    }
  }

  // ---- what a request may touch ----

  /** Behind the session check: everything but a login and the notice of a frontend. */
  predicate NeedsSession(req: Request) {
    !req.LoginRequest? && !req.FrontendRequest?
  }

  /** A request under a session that does not exist is refused, and changes nothing. */
  lemma InvalidSession(H: Hasher, req: Request, l: Local, tid: nat)
    requires NeedsSession(req) && req.headerSession !in l.state.sessions
    ensures var v := Serve(H, req, l, tid); v.response.Error? && v.local == l && v.lastTid == tid
  {
  }

  /** No file but this one has changed, come or gone, for any user. */
  ghost predicate OnlyFile(s: State, s': State, user: string, file: string) {
    forall u, f :: u != user || f != file ==>
      (s'.HasFile(u, f) <==> s.HasFile(u, f)) && (s.HasFile(u, f) ==> s'.files[u][f] == s.files[u][f])
  }

  /** The file holds these bytes since transaction `tid`. */
  predicate Holds(H: Hasher, s: State, user: string, file: string, content: string, tid: nat) {
    s.HasFile(user, file) && s.files[user][file] == UserFile(file, Digest(H, content), tid, AsInt(|content|), false)
  }

  lemma UploadDoes(H: Hasher, l: Local, tid: nat, user: string, data: FileData, others: bool)
    ensures var v := ServeUpload(H, l, tid, user, data, others);
      && OnlyFile(l.state, v.local.state, user, data.filename)
      && (if others then v.response.FileUpdated?
                         && Holds(H, v.local.state, user, data.filename, data.content, tid + 1)
          else v.response.Error? && v.local.state == l.state)
  {
    AfterState(H, Finished(FileChange(user, data.filename, false, data.content), tid + 1, others), l);
  }

  lemma DeletionDoes(H: Hasher, l: Local, tid: nat, user: string, file: string, hash: string, reply: Option<FileData>,
                     others: bool)
    ensures var v := ServeUpdate(H, l, tid, user, file, hash, true, reply, others);
      && OnlyFile(l.state, v.local.state, user, file)
      && (if others && l.state.HasFile(user, file)
          then v.response.FileUpdated? && !v.local.state.HasFile(user, file)
          else v.response.Error? && v.local.state == l.state)
  {
    AfterState(H, Finished(FileChange(user, file, true, "\0"), tid + 1, others), l);
  }

  /** An upload under a valid session leaves the user's file with those bytes, or is refused and changes nothing; no
      other file of any user is touched. */
  lemma UploadIsOwn(H: Hasher, req: Request, l: Local, tid: nat)
    requires req.UploadRequest? && req.headerSession in l.state.sessions
    ensures var v, user := Serve(H, req, l, tid), l.state.sessions[req.headerSession];
      && OnlyFile(l.state, v.local.state, user, req.data.filename)
      && (if req.others then v.response.FileUpdated?
                             && Holds(H, v.local.state, user, req.data.filename, req.data.content, tid + 1)
          else v.response.Error? && v.local.state == l.state)
  {
    UploadDoes(H, l, tid, l.state.sessions[req.headerSession], req.data, req.others);
  }

  /** An update under a valid session deletes the announced file of the user, or keeps it when its digest is the
      announced one, or leaves the file the client sends when asked; in every other case it is refused. */
  lemma UpdateIsOwn(H: Hasher, req: Request, l: Local, tid: nat)
    requires req.UpdateRequest? && req.headerSession in l.state.sessions
    ensures var v, user := Serve(H, req, l, tid), l.state.sessions[req.headerSession];
      if req.deleted then
        && OnlyFile(l.state, v.local.state, user, req.filename)
        && (if req.others && l.state.HasFile(user, req.filename)
            then v.response.FileUpdated? && !v.local.state.HasFile(user, req.filename)
            else v.response.Error? && v.local.state == l.state)
      else if l.state.HasFile(user, req.filename) && l.state.files[user][req.filename].hash == req.hash then
        v.response.FileUpdated? && v.local == l
      else if req.reply.Some? && req.others then
        var data := req.reply.value;
        && OnlyFile(l.state, v.local.state, user, data.filename)
        && v.response.FileUpdated? && Holds(H, v.local.state, user, data.filename, data.content, tid + 1)
      else v.response.Error? && v.local.state == l.state
  {
    var user := l.state.sessions[req.headerSession];
    if req.deleted {
      DeletionDoes(H, l, tid, user, req.filename, req.hash, req.reply, req.others);
    } else if req.reply.Some? {
      UploadDoes(H, l, tid, user, req.reply.value, req.others);
    }
  }

  /** A frontend that is voted for comes last in the list of frontends, and nothing else changes but the tid. */
  lemma FrontendIsAdded(H: Hasher, req: Request, l: Local, tid: nat)
    requires req.FrontendRequest?
    ensures var v := Serve(H, req, l, tid);
      && (v.response.LoginOk? <==> req.others)
      && v.local.state == if req.others
                          then l.state.(frontends := l.state.frontends + [Frontend(req.hostname, req.port)],
                                        lastTid := tid + 1)
                          else l.state
  {
    AfterState(H, Finished(NewFrontend(req.hostname, req.port), tid + 1, req.others), l);
  }

  /** A list of requests, each begun when the one before it is done. */
  function ServeAll(H: Hasher, requests: seq<Request>, start: Served): Served
    decreases requests
  {
    if requests == [] then start else
      var before := ServeAll(H, requests[..|requests| - 1], start);
      Serve(H, requests[|requests| - 1], before.local, before.lastTid)
  }

  lemma NextKeepsSessions(H: Hasher, c: Change, tid: nat, s: State)
    requires c.FileChange? || c.NewFrontend?
    ensures NextState(H, c, tid, s).sessions == s.sessions && NextState(H, c, tid, s).passwords == s.passwords
  {
  }

  lemma ChangeKeepsSessions(H: Hasher, c: Change, tid: nat, others: bool, l: Local)
    requires c.FileChange? || c.NewFrontend?
    ensures var s := After(H, Finished(c, tid, others), l).state;
      s.sessions == l.state.sessions && s.passwords == l.state.passwords
  {
    NextKeepsSessions(H, c, tid, l.state);
    AfterState(H, Finished(c, tid, others), l);
  }

  lemma UpdateKeepsSessions(H: Hasher, l: Local, tid: nat, user: string, filename: string, hash: string, deleted: bool,
                            reply: Option<FileData>, others: bool)
    ensures var s := ServeUpdate(H, l, tid, user, filename, hash, deleted, reply, others).local.state;
      s.sessions == l.state.sessions && s.passwords == l.state.passwords
  {
    if deleted {
      ChangeKeepsSessions(H, FileChange(user, filename, true, "\0"), tid + 1, others, l);
    } else if reply.Some? {
      ChangeKeepsSessions(H, FileChange(user, reply.value.filename, false, reply.value.content), tid + 1, others, l);
    }
  }

  /** Other requests than logins and logouts leave the sessions alone. */
  lemma OthersKeepSessions(H: Hasher, req: Request, l: Local, tid: nat)
    requires !req.LoginRequest? && !req.LogoutRequest?
    ensures Serve(H, req, l, tid).local.state.sessions == l.state.sessions
    ensures Serve(H, req, l, tid).local.state.passwords == l.state.passwords
  {
    if req.FrontendRequest? {
      ChangeKeepsSessions(H, NewFrontend(req.hostname, req.port), tid + 1, req.others, l);
    } else if !l.state.IsSessionValid(req.headerSession) {
    } else if req.UploadRequest? {
      var user := l.state.sessions[req.headerSession];
      ChangeKeepsSessions(H, FileChange(user, req.data.filename, false, req.data.content), tid + 1, req.others, l);
    } else {
      UpdateKeepsSessions(H, l, tid, l.state.sessions[req.headerSession], req.filename, req.hash, req.deleted,
                          req.reply, req.others);
    }
  }

  lemma LogoutShrinks(H: Hasher, l: Local, tid: nat, session: int, others: bool)
    ensures var s := Logout(H, l, tid, session, others).local.state;
      s.sessions == (if others then l.state.sessions - {session} else l.state.sessions)
      && s.passwords == l.state.passwords
  {
    assert !l.state.IsSessionValid(session) ==> l.state.sessions - {session} == l.state.sessions;
  }

  lemma FewerSessions(s: State, s': State, session: int)
    requires Bounded(s) && s'.sessions == s.sessions - {session}
    ensures Bounded(s')
  {
    forall u ensures |s'.SessionsOf(u)| <= MAX_SESSIONS {
      assert s'.SessionsOf(u) == s.SessionsOf(u) - {session};
    }
  }

  lemma SameSessions(s: State, s': State)
    requires Bounded(s) && s'.sessions == s.sessions
    ensures Bounded(s')
  {
    forall u ensures |s'.SessionsOf(u)| <= MAX_SESSIONS {
      assert s'.SessionsOf(u) == s.SessionsOf(u);
    }
  }

  lemma LoginKeepsBound(s: State, v: Served, user: string, draws: seq<int>)
    requires Bounded(s) && OpensAtMostOne(s, v, user, draws)
    ensures Bounded(v.local.state)
  {
    if v.response.LoginOk? {
      forall u ensures |v.local.state.SessionsOf(u)| <= MAX_SESSIONS {
        OneMoreSession(s, v.local.state, v.response.session, user, u);
      }
    } else {
      SameSessions(s, v.local.state);
    }
  }

  /** Every request keeps at most two sessions for each user, all of registered users. */
  lemma ServeKeeps(H: Hasher, req: Request, l: Local, tid: nat)
    requires Bounded(l.state) && Registered(l.state)
    ensures Bounded(Serve(H, req, l, tid).local.state) && Registered(Serve(H, req, l, tid).local.state)
  {
    var s' := Serve(H, req, l, tid).local.state;
    if req.LoginRequest? {
      LoginDoes(H, l, tid, req.user, req.password, req.headerSession, req.draws, req.first, req.second);
      LoginKeepsBound(l.state, Serve(H, req, l, tid), req.user, req.draws);
    } else if req.LogoutRequest? {
      LogoutShrinks(H, l, tid, req.headerSession, req.others);
      if req.others {
        FewerSessions(l.state, s', req.headerSession);
      } else {
        SameSessions(l.state, s');
      }
    } else {
      OthersKeepSessions(H, req, l, tid);
      SameSessions(l.state, s');
    }
  }

  /** Handled one after the other from an empty server, no requests ever give a user more than two sessions. As this
      holds for every list, it holds at every point of every run. */
  lemma {:induction false} SequentialSessions(H: Hasher, requests: seq<Request>)
    ensures var s := ServeAll(H, requests, Served(EmptyServer, 0, Pending)).local.state; Bounded(s) && Registered(s)
    decreases requests
  {
    if requests == [] {
      forall u ensures |EmptyState.SessionsOf(u)| <= MAX_SESSIONS {
        assert EmptyState.SessionsOf(u) == {};
      }
    } else {
      var before := requests[..|requests| - 1];
      SequentialSessions(H, before);
      var v := ServeAll(H, before, Served(EmptyServer, 0, Pending));
      ServeKeeps(H, requests[|requests| - 1], v.local, v.lastTid);
    }
  }
}
