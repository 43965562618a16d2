/** The six tables behind the account service and the statements it runs against them.
    A statement that the database refuses (a duplicate key, a missing referenced row)
    yields None and leaves nothing behind. */
module Schema {
  import opened Common

  /** Generated identifiers: user ids and token values. */
  type Id = nat
  /** Instants and durations of the one service clock. */
  type Time = int

  // ---- Password hashing, taken as ideal

  /** A stored password: a well-formed Argon2id hash, or text that does not decode as one. */
  datatype Hash = Argon2id(salt: nat, password: string) | Malformed(text: string)
  datatype Comparison = Match | Mismatch | Undecodable

  function Compare(password: string, hash: Hash): Comparison {
    match hash
    case Argon2id(_, p) => if p == password then Match else Mismatch
    case Malformed(_) => Undecodable
  }

  // ---- Rows

  datatype User = User(username: Option<string>, password: Option<Hash>, isActive: bool,
                       scopes: seq<string>, lastAuthenticatedAt: Option<Time>,
                       createdAt: Time, updatedAt: Time, requiresConfirmation: bool)
  datatype Profile = Profile(legalAcceptedAt: Option<Time>, createdAt: Time)
  /** An access, reset or confirmation token. */
  datatype Token = Token(userId: Id, createdAt: Time, validUntil: Time)
  datatype RefreshToken = RefreshToken(userId: Id, createdAt: Time)

  /** `referenced` holds the users that rows of other tables (an organization's owner, a signing
      request's initiator, ...) reference without ON DELETE CASCADE. */
  datatype Tables = Tables(users: map<Id, User>, profiles: map<Id, Profile>,
                           access: map<Id, Token>, refresh: map<Id, RefreshToken>,
                           resets: map<Id, Token>, confirmations: map<Id, Token>,
                           referenced: set<Id>)

  const EMPTY_TABLES := Tables(map[], map[], map[], map[], map[], map[], {})

  // ---- Queries

  predicate NamedBy(t: Tables, name: string, u: Id) {
    u in t.users && t.users[u].username == Some(name)
  }

  /** The user with the given name; at most one exists while names are unique. */
  ghost function UserByName(t: Tables, name: string): Option<Id> {
    if u :| NamedBy(t, name, u) then Some(u) else None
  }

  ghost predicate UniqueNames(t: Tables) {
    forall n, u, v :: NamedBy(t, n, u) && NamedBy(t, n, v) ==> u == v
  }

  function TokensOf(tokens: map<Id, Token>, u: Id): set<Id> {
    set k | k in tokens && tokens[k].userId == u
  }

  /** The user's unexpired tokens created after the given instant. */
  function RecentTokens(tokens: map<Id, Token>, u: Id, createdAfter: Time, now: Time): set<Id> {
    set k | k in tokens && tokens[k].userId == u && tokens[k].createdAt > createdAfter && tokens[k].validUntil > now
  }

  // ---- Statements

  function InsertUser(t: Tables, u: Id, row: User): Option<Tables> {
    if u in t.users || (row.username.Some? && exists v :: v in t.users && NamedBy(t, row.username.value, v)) then None
    else Some(t.(users := t.users[u := row]))
  }

  function InsertProfile(t: Tables, u: Id, row: Profile): Option<Tables> {
    if u in t.profiles || u !in t.users then None else Some(t.(profiles := t.profiles[u := row]))
  }

  function InsertAccess(t: Tables, k: Id, row: Token): Option<Tables> {
    if k in t.access || row.userId !in t.users then None else Some(t.(access := t.access[k := row]))
  }

  function InsertRefresh(t: Tables, k: Id, row: RefreshToken): Option<Tables> {
    if k in t.refresh || row.userId !in t.users then None else Some(t.(refresh := t.refresh[k := row]))
  }

  function InsertReset(t: Tables, k: Id, row: Token): Option<Tables> {
    if k in t.resets || row.userId !in t.users then None else Some(t.(resets := t.resets[k := row]))
  }

  function InsertConfirmation(t: Tables, k: Id, row: Token): Option<Tables> {
    if k in t.confirmations || row.userId !in t.users then None
    else Some(t.(confirmations := t.confirmations[k := row]))
  }

  // An UPDATE or DELETE that matches no row succeeds and changes nothing.

  /** The columns of a user row an UPDATE can name. */
  datatype UserColumn = UsernameColumn | PasswordColumn | IsActiveColumn | ScopesColumn | LastAuthenticatedAtColumn
                      | CreatedAtColumn | UpdatedAtColumn | RequiresConfirmationColumn

  /** Writes of the caller's copy `row` the whitelisted columns; the time of the update is set on the way. */
  function UpdateUser(t: Tables, u: Id, row: User, whitelist: set<UserColumn>, now: Time): Option<Tables> {
    if u !in t.users then Some(t)
    else if UsernameColumn in whitelist && row.username.Some? &&
            exists v :: v in t.users && v != u && NamedBy(t, row.username.value, v) then None
    else Some(t.(users := t.users[u := Overwrite(t.users[u], row.(updatedAt := now), whitelist)]))
  }

  function Overwrite(stored: User, row: User, whitelist: set<UserColumn>): User {
    User(if UsernameColumn in whitelist then row.username else stored.username,
         if PasswordColumn in whitelist then row.password else stored.password,
         if IsActiveColumn in whitelist then row.isActive else stored.isActive,
         if ScopesColumn in whitelist then row.scopes else stored.scopes,
         if LastAuthenticatedAtColumn in whitelist then row.lastAuthenticatedAt else stored.lastAuthenticatedAt,
         if CreatedAtColumn in whitelist then row.createdAt else stored.createdAt,
         if UpdatedAtColumn in whitelist then row.updatedAt else stored.updatedAt,
         if RequiresConfirmationColumn in whitelist then row.requiresConfirmation else stored.requiresConfirmation)
  }

  // What the three updates of the service come to.

  function UpdatePasswordColumn(t: Tables, u: Id, hash: Hash, now: Time): Tables {
    if u !in t.users then t
    else t.(users := t.users[u := t.users[u].(password := Some(hash), updatedAt := now)])
  }

  function UpdateLastAuthenticated(t: Tables, u: Id, now: Time): Tables {
    if u !in t.users then t
    else t.(users := t.users[u := t.users[u].(lastAuthenticatedAt := Some(now), updatedAt := now)])
  }

  function UpdateActivation(t: Tables, u: Id, now: Time): Tables {
    if u !in t.users then t
    else t.(users := t.users[u := t.users[u].(isActive := true, requiresConfirmation := false, updatedAt := now)])
  }

  function DeleteAccessOf(t: Tables, u: Id): Tables {
    t.(access := map k | k in t.access && t.access[k].userId != u :: t.access[k])
  }

  function DeleteRefreshOf(t: Tables, u: Id): Tables {
    t.(refresh := map k | k in t.refresh && t.refresh[k].userId != u :: t.refresh[k])
  }

  function DeleteAccessToken(t: Tables, k: Id): Tables { t.(access := t.access - {k}) }

  function DeleteRefreshToken(t: Tables, k: Id): Tables { t.(refresh := t.refresh - {k}) }

  function DeleteConfirmation(t: Tables, k: Id): Tables { t.(confirmations := t.confirmations - {k}) }

  function Without(tokens: map<Id, Token>, u: Id): map<Id, Token> {
    map k | k in tokens && tokens[k].userId != u :: tokens[k]
  }

  /** Deletes the user; profile and tokens go with it by ON DELETE CASCADE. Refused while some
      row references the user without cascading. */
  function DeleteUser(t: Tables, u: Id): Option<Tables> {
    if u !in t.users then Some(t)
    else if u in t.referenced then None
    else Some(t.(users := t.users - {u}, profiles := t.profiles - {u},
                 access := Without(t.access, u),
                 refresh := map k | k in t.refresh && t.refresh[k].userId != u :: t.refresh[k],
                 resets := Without(t.resets, u), confirmations := Without(t.confirmations, u)))
  }
}
