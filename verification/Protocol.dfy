/** The account operations as a protocol over the tables. Every operation reads a snapshot
    (`Read`) and, unless it can reply at once, later commits one transaction (`Commit`). */
module Protocol {
  import opened Common
  import opened Schema

  datatype Config = Config(accessValidity: Time,
                           resetValidity: Time, resetDebounce: Time, resetReuse: Time,
                           requiresConfirmation: bool, confirmationValidity: Time, confirmationDebounce: Time,
                           defaultScopes: seq<string>)

  datatype Error = Unauthorized | UserDeactivated | NotLocalUser | TokenNotFound | TokenExpired
                 | UserAlreadyExists | InvalidPassword | HashUndecodable | DatabaseError

  /** What a caller gets back. `Skipped` is the empty login result returned without an error. */
  datatype Outcome = LoggedIn(accessToken: Id, refreshToken: Id, expiresIn: Time)
                   | Skipped
                   | Registered(requiresConfirmation: bool, confirmationToken: Option<Id>)
                   | ResetStarted(resetToken: Option<Id>)
                   | Done
                   | Failed(error: Error)

  /** The identifiers the database would generate for the rows of one call. */
  datatype Gen = Gen(user: Id, access: Id, refresh: Id, confirmation: Id, reset: Id)

  /** What the caller keeps of a user row. It carries no requires_confirmation column. */
  datatype Copy = Copy(username: Option<string>, passwordHash: Option<Hash>, isActive: bool, scopes: seq<string>,
                       lastAuthenticatedAt: Option<Time>)

  datatype Account = Account(id: Id, copy: Copy)

  function ToCopy(row: User): Copy {
    Copy(row.username, row.password, row.isActive, row.scopes, row.lastAuthenticatedAt)
  }

  function ToAccount(u: Id, row: User): Account { Account(u, ToCopy(row)) }

  /** The row a copy turns back into. What the copy does not carry comes back as zero values. */
  function ToModels(c: Copy): User {
    User(c.username, c.passwordHash, c.isActive, c.scopes, c.lastAuthenticatedAt, 0, 0, false)
  }

  /** Calls of the service, with the salt the hashing would draw, and two steps of the environment.
      UpdatePassword and DeleteUserAccount act on the account of the authenticated user `user`. */
  datatype Request = Register(name: string, password: string, salt: nat)
                   | CompleteRegister(token: Id)
                   | Login(name: string, password: string)
                   | Refresh(token: Id)
                   | Logout(access: Id, refresh: Option<Id>)
                   | InitPasswordReset(name: string)
                   | ResetPassword(token: Id, newPassword: string, salt: nat)
                   | UpdatePassword(user: Id, current: string, newPassword: string, salt: nat)
                   | DeleteUserAccount(user: Id, current: string)
                   | Deactivate(user: Id)
                   | SetReferenced(user: Id, isReferenced: bool)

  /** The transaction an operation has decided on, with the copy of the user it kept from its snapshot. By the
      time of the commit the copy may be stale. */
  datatype Pending = CreateUser(name: string, hash: Hash)
                   | AddConfirmation(user: Id)
                   | Activate(user: Id, token: Id, row: User)
                   | OpenSession(user: Id, copy: Copy)
                   | Rotate(user: Id, token: Id, copy: Copy)
                   | ChangePassword(user: Id, hash: Hash, copy: Copy)
                   | CloseSession(access: Id, refresh: Option<Id>)
                   | IssueReset(user: Id)
                   | RemoveUser(user: Id)
                   | SetInactive(user: Id)
                   | Mark(user: Id, isReferenced: bool)

  datatype Phase = Reply(outcome: Outcome) | Proceed(pending: Pending)

  // ---- Read phase

  /** The checks of UpdatePassword; `current` is None when the verification is skipped. */
  function CheckPasswordChange(account: Account, current: Option<string>, hash: Hash): Phase {
    if !account.copy.isActive then Reply(Failed(UserDeactivated))
    else if account.copy.passwordHash.None? then Reply(Failed(NotLocalUser))
    else if current.None? then Proceed(ChangePassword(account.id, hash, account.copy))
    else
      match Compare(current.value, account.copy.passwordHash.value)
      case Undecodable => Reply(Failed(HashUndecodable))
      case Mismatch => Reply(Failed(Unauthorized))
      case Match => Proceed(ChangePassword(account.id, hash, account.copy))
  }

  function CheckDeletion(account: Account, current: string): Phase {
    if !account.copy.isActive then Reply(Failed(UserDeactivated))
    else if account.copy.passwordHash.None? then Reply(Failed(NotLocalUser))
    else if Compare(current, account.copy.passwordHash.value) != Match then Reply(Failed(Unauthorized))
    else Proceed(RemoveUser(account.id))
  }

  function CheckLogin(u: Id, row: User, password: string): Phase {
    if !row.isActive then Reply(Failed(UserDeactivated))
    else if row.password.None? then Reply(Failed(Unauthorized))
    else if Compare(password, row.password.value) != Match then Reply(Failed(Unauthorized))
    else Proceed(OpenSession(u, ToCopy(row)))
  }

  /** Register of a name that is taken. */
  function CheckTakenName(cfg: Config, t: Tables, now: Time, u: Id, row: User): Phase {
    if !row.requiresConfirmation then Reply(Failed(UserAlreadyExists))
    else if RecentTokens(t.confirmations, u, now - cfg.confirmationDebounce, now) != {} then
      Reply(Registered(true, None))
    else Proceed(AddConfirmation(u))
  }

  function CheckResetStart(cfg: Config, t: Tables, now: Time, u: Id, row: User): Phase {
    if !row.isActive || row.password.None? then Reply(ResetStarted(None))
    else if cfg.resetDebounce > 0 && RecentTokens(t.resets, u, now - cfg.resetDebounce, now) != {} then
      Reply(ResetStarted(None))
    else Proceed(IssueReset(u))
  }

  // A token whose owner is missing cannot be read while the foreign keys hold.
  const ORPHANED := Reply(Failed(DatabaseError))

  ghost function Read(cfg: Config, t: Tables, now: Time, request: Request): Phase {
    match request
    case Register(name, password, salt) =>
      (match UserByName(t, name)
       case Some(u) => CheckTakenName(cfg, t, now, u, t.users[u])
       case None => Proceed(CreateUser(name, Argon2id(salt, password))))
    case CompleteRegister(k) =>
      if k !in t.confirmations || t.confirmations[k].validUntil <= now then Reply(Failed(TokenNotFound))
      else
        var u := t.confirmations[k].userId;
        if u !in t.users then ORPHANED
        else if t.users[u].isActive || !t.users[u].requiresConfirmation then Reply(Skipped)
        else Proceed(Activate(u, k, t.users[u]))
    case Login(name, password) =>
      (match UserByName(t, name)
       case Some(u) => CheckLogin(u, t.users[u], password)
       case None => Reply(Failed(Unauthorized)))
    case Refresh(k) =>
      if k !in t.refresh then Reply(Failed(Unauthorized))
      else
        var u := t.refresh[k].userId;
        if u !in t.users then ORPHANED
        else if !t.users[u].isActive then Reply(Failed(UserDeactivated))
        else Proceed(Rotate(u, k, ToCopy(t.users[u])))
    case Logout(access, refresh) => Proceed(CloseSession(access, refresh))
    case InitPasswordReset(name) =>
      (match UserByName(t, name)
       case Some(u) => CheckResetStart(cfg, t, now, u, t.users[u])
       case None => Reply(ResetStarted(None)))
    case ResetPassword(k, newPassword, salt) =>
      if k !in t.resets then Reply(Failed(TokenNotFound))
      else if now > t.resets[k].validUntil then Reply(Failed(TokenExpired))
      else
        var u := t.resets[k].userId;
        if u !in t.users then ORPHANED
        else CheckPasswordChange(ToAccount(u, t.users[u]), None, Argon2id(salt, newPassword))
    case UpdatePassword(u, current, newPassword, salt) =>
      if u !in t.users then Reply(Failed(Unauthorized))
      else CheckPasswordChange(ToAccount(u, t.users[u]), Some(current), Argon2id(salt, newPassword))
    case DeleteUserAccount(u, current) =>
      if u !in t.users then Reply(Failed(Unauthorized))
      else CheckDeletion(ToAccount(u, t.users[u]), current)
    case Deactivate(u) => Proceed(SetInactive(u))
    case SetReferenced(u, r) => Proceed(Mark(u, r))
  }

  // ---- Commit phase

  /** An update by whitelist leaves a column alone for every copy, however stale, exactly if it does not name it. */
  lemma WhitelistShields(stored: User, whitelist: set<UserColumn>)
    ensures (forall row :: Overwrite(stored, row, whitelist).username == stored.username) <==>
            UsernameColumn !in whitelist
    ensures (forall row :: Overwrite(stored, row, whitelist).password == stored.password) <==>
            PasswordColumn !in whitelist
    ensures (forall row :: Overwrite(stored, row, whitelist).isActive == stored.isActive) <==>
            IsActiveColumn !in whitelist
    ensures (forall row :: Overwrite(stored, row, whitelist).scopes == stored.scopes) <==> ScopesColumn !in whitelist
    ensures (forall row :: Overwrite(stored, row, whitelist).requiresConfirmation == stored.requiresConfirmation)
            <==> RequiresConfirmationColumn !in whitelist
  {
    var other := User(if stored.username.None? then Some("") else None,
                      if stored.password.None? then Some(Malformed("")) else None,
                      !stored.isActive, stored.scopes + [""], None, 0, 0, !stored.requiresConfirmation);
    var mixed := Overwrite(stored, other, whitelist);
    assert |other.scopes| != |stored.scopes|;
    assert mixed.username == stored.username <==> UsernameColumn !in whitelist;
  }

  // The three updates of a user row write the caller's copy back, by whitelist. Whatever else the copy holds, stale
  // or missing, they change just the columns they are for.

  function WriteLastAuthenticated(t: Tables, u: Id, copy: Copy, now: Time): (r: Option<Tables>)
    ensures r == Some(UpdateLastAuthenticated(t, u, now))
  {
    UpdateUser(t, u, ToModels(copy).(lastAuthenticatedAt := Some(now)), {LastAuthenticatedAtColumn, UpdatedAtColumn},
               now)
  }

  function WritePassword(t: Tables, u: Id, copy: Copy, hash: Hash, now: Time): (r: Option<Tables>)
    ensures r == Some(UpdatePasswordColumn(t, u, hash, now))
  {
    UpdateUser(t, u, ToModels(copy.(passwordHash := Some(hash))), {PasswordColumn, UpdatedAtColumn}, now)
  }

  function WriteActivation(t: Tables, u: Id, row: User, now: Time): (r: Option<Tables>)
    ensures r == Some(UpdateActivation(t, u, now))
  {
    UpdateUser(t, u, Activated(row), {IsActiveColumn, RequiresConfirmationColumn, UpdatedAtColumn}, now)
  }

  function Activated(row: User): User { row.(isActive := true, requiresConfirmation := false) }

  /** Inserts an access and a refresh token, after deleting the user's existing ones if asked to. */
  function Authenticate(cfg: Config, t: Tables, now: Time, gen: Gen, account: Account,
                        invalidate: bool): Option<Tables>
  {
    var u := account.id;
    var t0 := if invalidate then DeleteRefreshOf(DeleteAccessOf(t, u), u) else t;
    match InsertAccess(t0, gen.access, Token(u, now, now + cfg.accessValidity))
    case None => None
    case Some(t1) =>
      match InsertRefresh(t1, gen.refresh, RefreshToken(u, now))
      case None => None
      case Some(t2) => WriteLastAuthenticated(t2, u, account.copy, now)
  }

  function Session(cfg: Config, gen: Gen): Outcome {
    LoggedIn(gen.access, gen.refresh, cfg.accessValidity)
  }

  ghost function NewUser(cfg: Config, t: Tables, now: Time, gen: Gen, name: string, hash: Hash): Option<Tables> {
    var row := User(Some(name), Some(hash), !cfg.requiresConfirmation, cfg.defaultScopes, Some(now), now, now,
                    cfg.requiresConfirmation);
    match InsertUser(t, gen.user, row)
    case None => None
    case Some(t1) =>
      match InsertProfile(t1, gen.user, Profile(None, now))
      case None => None
      case Some(t2) =>
        if cfg.requiresConfirmation then
          InsertConfirmation(t2, gen.confirmation, Token(gen.user, now, now + cfg.confirmationValidity))
        else Some(t2)
  }

  function ActivateAndOpen(cfg: Config, t: Tables, now: Time, gen: Gen, u: Id, k: Id, row: User): Option<Tables> {
    match WriteActivation(t, u, row, now)
    case None => None
    case Some(t1) => Authenticate(cfg, DeleteConfirmation(t1, k), now, gen, ToAccount(u, Activated(row)), false)
  }

  function ChangeAndOpen(cfg: Config, t: Tables, now: Time, gen: Gen, u: Id, hash: Hash, copy: Copy): Option<Tables> {
    match WritePassword(t, u, copy, hash, now)
    case None => None
    case Some(t1) => Authenticate(cfg, t1, now, gen, Account(u, copy.(passwordHash := Some(hash))), true)
  }

  /** The outcome of a transaction: the new tables and the reply, or a rollback. */
  function Settle(t: Tables, result: Option<Tables>, outcome: Outcome): (Tables, Outcome) {
    match result
    case Some(t') => (t', outcome)
    case None => (t, Failed(DatabaseError))
  }

  ghost function Commit(cfg: Config, t: Tables, now: Time, gen: Gen, p: Pending): (Tables, Outcome) {
    match p
    case CreateUser(name, hash) =>
      Settle(t, NewUser(cfg, t, now, gen, name, hash),
             Registered(cfg.requiresConfirmation, if cfg.requiresConfirmation then Some(gen.confirmation) else None))
    case AddConfirmation(u) =>
      Settle(t, InsertConfirmation(t, gen.confirmation, Token(u, now, now + cfg.confirmationValidity)),
             Registered(true, Some(gen.confirmation)))
    case Activate(u, k, row) => Settle(t, ActivateAndOpen(cfg, t, now, gen, u, k, row), Session(cfg, gen))
    case OpenSession(u, copy) => Settle(t, Authenticate(cfg, t, now, gen, Account(u, copy), false), Session(cfg, gen))
    case Rotate(u, k, copy) =>
      Settle(t, Authenticate(cfg, DeleteRefreshToken(t, k), now, gen, Account(u, copy), false), Session(cfg, gen))
    case ChangePassword(u, hash, copy) =>
      Settle(t, ChangeAndOpen(cfg, t, now, gen, u, hash, copy), Session(cfg, gen))
    case CloseSession(access, refresh) =>
      var t1 := DeleteAccessToken(t, access);
      (if refresh.Some? then DeleteRefreshToken(t1, refresh.value) else t1, Done)
    case IssueReset(u) =>
      var reusable := RecentTokens(t.resets, u, now - cfg.resetReuse, now);
      if reusable != {} then (t, ResetStarted(Some(AnyOf(reusable))))
      else Settle(t, InsertReset(t, gen.reset, Token(u, now, now + cfg.resetValidity)), ResetStarted(Some(gen.reset)))
    case RemoveUser(u) => Settle(t, DeleteUser(t, u), Done)
    case SetInactive(u) =>
      (if u in t.users then t.(users := t.users[u := t.users[u].(isActive := false)]) else t, Done)
    case Mark(u, r) =>
      if r && u !in t.users then (t, Failed(DatabaseError))
      else (t.(referenced := if r then t.referenced + {u} else t.referenced - {u}), Done)
  }

  // ---- Atomic calls and runs

  ghost function Conclude(cfg: Config, t: Tables, now: Time, gen: Gen, phase: Phase): (Tables, Outcome) {
    match phase
    case Reply(o) => (t, o)
    case Proceed(p) => Commit(cfg, t, now, gen, p)
  }

  ghost function Call(cfg: Config, t: Tables, now: Time, gen: Gen, request: Request): (Tables, Outcome) {
    Conclude(cfg, t, now, gen, Read(cfg, t, now, request))
  }

  datatype Step = Step(at: Time, request: Request, gen: Gen)

  ghost function After(cfg: Config, t: Tables, step: Step): Tables {
    Call(cfg, t, step.at, step.gen, step.request).0
  }

  ghost function Response(cfg: Config, t: Tables, step: Step): Outcome {
    Call(cfg, t, step.at, step.gen, step.request).1
  }

  ghost function Run(cfg: Config, t: Tables, steps: seq<Step>): Tables
    decreases |steps|
  {
    if steps == [] then t else Run(cfg, After(cfg, t, steps[0]), steps[1..])
  }

  function Ids(gen: Gen): set<Id> { {gen.user, gen.access, gen.refresh, gen.confirmation, gen.reset} }

  /** No generated identifier was issued before. */
  ghost predicate Fresh(issued: set<Id>, steps: seq<Step>)
    decreases |steps|
  {
    steps == [] || (Ids(steps[0].gen) !! issued && Fresh(issued + Ids(steps[0].gen), steps[1..]))
  }

  /** The clock never runs backwards, starting from `now`. */
  ghost predicate Timed(now: Time, steps: seq<Step>)
    decreases |steps|
  {
    steps == [] || (now <= steps[0].at && Timed(steps[0].at, steps[1..]))
  }

  lemma {:induction false} RunSplits(cfg: Config, t: Tables, a: seq<Step>, b: seq<Step>)
    ensures Run(cfg, t, a + b) == Run(cfg, Run(cfg, t, a), b)
    decreases |a|
  {
    hide After;
    if a == [] {
      assert a + b == b;
    } else {
      assert (a + b)[0] == a[0] && (a + b)[1..] == a[1..] + b;
      RunSplits(cfg, After(cfg, t, a[0]), a[1..], b);
    }
  }
}
