/** The transaction message: what `serialize` writes and `deserialize` reads back. */
module Wire {
  import opened Changes

  datatype Kind = CREATE_USER | CREATE_SESSION | REMOVE_SESSION | FILE_CHANGE | NEW_FRONTEND

  datatype Field<T> = Unset | Set(value: T) {
    /** An unset field reads as the default of its type. */
    function Or(default: T): T {
      if Set? then value else default
    }
  }

  datatype TransactionMsg = TransactionMsg(
    kind: Kind,
    transactionId: nat,
    user: Field<string>,
    password: Field<string>,
    sessionId: Field<int>,
    filename: Field<string>,
    deleted: Field<bool>,
    data: Field<string>,
    hostname: Field<string>,
    port: Field<int>)

  function Empty(kind: Kind, tid: nat): TransactionMsg {
    TransactionMsg(kind, tid, Unset, Unset, Unset, Unset, Unset, Unset, Unset, Unset)
  }

  function Serialize(c: Change, tid: nat): TransactionMsg {
    match c
    case CreateUser(u, p) => Empty(CREATE_USER, tid).(user := Set(u), password := Set(p))
    case CreateSession(id, u) => Empty(CREATE_SESSION, tid).(sessionId := Set(id), user := Set(u))
    case RemoveSession(id) => Empty(REMOVE_SESSION, tid).(sessionId := Set(id))
    case FileChange(u, f, deleted, content) =>
      Empty(FILE_CHANGE, tid).(user := Set(u), filename := Set(f), deleted := Set(deleted), data := Set(content))
    case NewFrontend(host, port) => Empty(NEW_FRONTEND, tid).(hostname := Set(host), port := Set(port))
  }

  /** The transaction that the receiving server builds: the kind chooses the class, the class reads its fields. */
  function Deserialize(m: TransactionMsg): Change {
    match m.kind
    case CREATE_USER => CreateUser(m.user.Or(""), m.password.Or(""))
    case CREATE_SESSION => CreateSession(m.sessionId.Or(0), m.user.Or(""))
    case REMOVE_SESSION => RemoveSession(m.sessionId.Or(0))
    case FILE_CHANGE => FileChange(m.user.Or(""), m.filename.Or(""), m.deleted.Or(false), m.data.Or(""))
    case NEW_FRONTEND => NewFrontend(m.hostname.Or(""), m.port.Or(0))
  }

  /** The replica runs the change that the coordinator sent, under the same tid. */
  lemma SameChange(c: Change, tid: nat)
    ensures Deserialize(Serialize(c, tid)) == c && Serialize(c, tid).transactionId == tid
  {
  }

  /** Every part of a change travels in the field of its name, and no other field is set. */
  lemma FieldsByName(c: Change, tid: nat)
    ensures var m := Serialize(c, tid);
      && (m.kind == CREATE_USER <==> c.CreateUser?) && (m.kind == CREATE_SESSION <==> c.CreateSession?)
      && (m.kind == REMOVE_SESSION <==> c.RemoveSession?) && (m.kind == FILE_CHANGE <==> c.FileChange?)
      && (m.kind == NEW_FRONTEND <==> c.NewFrontend?)
      && m.user == (if c.CreateUser? || c.CreateSession? || c.FileChange? then Set(c.username) else Unset)
      && m.password == (if c.CreateUser? then Set(c.password) else Unset)
      && m.sessionId == (if c.CreateSession? || c.RemoveSession? then Set(c.sessionId) else Unset)
      && m.filename == (if c.FileChange? then Set(c.filename) else Unset)
      && m.deleted == (if c.FileChange? then Set(c.deleted) else Unset)
      && m.data == (if c.FileChange? then Set(c.content) else Unset)
      && m.hostname == (if c.NewFrontend? then Set(c.hostname) else Unset)
      && m.port == (if c.NewFrontend? then Set(c.port) else Unset)
  {
  }
}
