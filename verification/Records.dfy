/** The value of a `ServerState` object: users, sessions, file tables and the last transaction id.
    Passwords are the field `senhas` of the source. */
module Records {

  /** std::map::emplace keeps the entry that is already there. */
  function Emplace<K, V>(m: map<K, V>, k: K, v: V): map<K, V> {
    if k in m then m else m[k := v]
  }

  /** The file digest as text: xxhash of a byte stream, then hexadecimal. Nothing is assumed of it. */
  type Hasher = string -> string

  datatype UserFile = UserFile(filename: string, hash: string, lastTid: nat, size: int, deleted: bool)

  type FileList = map<string, UserFile>

  datatype Frontend = Frontend(hostname: string, port: int)

  datatype State = State(
    passwords: map<string, string>,
    sessions: map<int, string>,
    usersLastTid: map<string, nat>,
    files: map<string, FileList>,
    frontends: seq<Frontend>,
    lastTid: nat)
  {
    predicate HasUser(user: string) {
      user in passwords
    }

    predicate CheckPassword(user: string, password: string) {
      user in passwords && passwords[user] == password
    }

    predicate IsSessionValid(id: int) {
      id in sessions
    }

    function UserFromSession(id: int): string {
      if id in sessions then sessions[id] else ""
    }

    function FilesOf(user: string): FileList {
      if user in files then files[user] else map[]
    }

    predicate HasFile(user: string, file: string) {
      file in FilesOf(user)
    }

    function FileHash(user: string, file: string): string {
      if HasFile(user, file) then files[user][file].hash else ""
    }

    function FilesSince(user: string, tid: int): FileList {
      map f | f in FilesOf(user) && FilesOf(user)[f].lastTid > tid :: FilesOf(user)[f]
    }

    function SessionsOf(user: string): set<int> {
      set id | id in sessions && sessions[id] == user
    }

    function PutFile(user: string, file: string, entry: UserFile): State {
      this.(files := files[user := FilesOf(user)[file := entry]])
    }

    function DropFile(user: string, file: string): State {
      if HasFile(user, file) then this.(files := files[user := files[user] - {file}]) else this
    }
  }

  const EmptyState := State(map[], map[], map[], map[], [], 0)

  /** static_cast<int> of a length: the 32-bit number with the same last 32 bits. */
  function AsInt(n: int): (r: int)
    ensures -0x8000_0000 <= r < 0x8000_0000 && (n - r) % 0x1_0000_0000 == 0
    ensures 0 <= n < 0x8000_0000 ==> r == n
  {
    (n + 0x8000_0000) % 0x1_0000_0000 - 0x8000_0000
  }
}
