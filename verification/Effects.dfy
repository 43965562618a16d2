/** What one transaction does to each table. */
module Effects {
  import opened Common
  import opened Schema
  import opened Protocol

  predicate Committed(o: Outcome) { !o.Failed? }

  predicate OpensSession(p: Pending) {
    p.OpenSession? || p.Rotate? || p.ChangePassword? || p.Activate?
  }

  /** The row of an existing user after the transaction commits. */
  function RowAfter(p: Pending, now: Time, v: Id, row: User): User {
    match p
    case OpenSession(u, _) => if u == v then row.(lastAuthenticatedAt := Some(now), updatedAt := now) else row
    case Rotate(u, _, _) => if u == v then row.(lastAuthenticatedAt := Some(now), updatedAt := now) else row
    case ChangePassword(u, hash, _) =>
      if u == v then row.(password := Some(hash), lastAuthenticatedAt := Some(now), updatedAt := now) else row
    case Activate(u, _, _) =>
      if u == v then
        row.(isActive := true, requiresConfirmation := false, lastAuthenticatedAt := Some(now), updatedAt := now)
      else row
    case SetInactive(u) => if u == v then row.(isActive := false) else row
    case _ => row
  }

  function RowCreated(cfg: Config, now: Time, name: string, hash: Hash): User {
    User(Some(name), Some(hash), !cfg.requiresConfirmation, cfg.defaultScopes, Some(now), now, now,
         cfg.requiresConfirmation)
  }

  /** The users table after a transaction, given whether it committed. */
  function UsersAfter(cfg: Config, users: map<Id, User>, now: Time, gen: Gen, p: Pending): map<Id, User> {
    match p
    case CreateUser(name, hash) => users[gen.user := RowCreated(cfg, now, name, hash)]
    case RemoveUser(u) => users - {u}
    case _ => map v | v in users :: RowAfter(p, now, v, users[v])
  }

  lemma SessionUsers(cfg: Config, t: Tables, now: Time, gen: Gen, p: Pending)
    requires OpensSession(p)
    requires Committed(Commit(cfg, t, now, gen, p).1)
    ensures p.user in t.users
    ensures Commit(cfg, t, now, gen, p).0.users == UsersAfter(cfg, t.users, now, gen, p)
  {
  }

  /** A transaction changes the users table as `UsersAfter` says if it commits, and not at all if it fails. */
  lemma CommitUsers(cfg: Config, t: Tables, now: Time, gen: Gen, p: Pending)
    ensures var (t', o) := Commit(cfg, t, now, gen, p);
            t'.users == if Committed(o) then UsersAfter(cfg, t.users, now, gen, p) else t.users
  {
    if OpensSession(p) {
      if Committed(Commit(cfg, t, now, gen, p).1) { SessionUsers(cfg, t, now, gen, p); }
    } else {
      hide Authenticate;
    }
  }

  /** The reset and confirmation tokens after a committed transaction that issues none. */
  function ConfirmationsAfter(tokens: map<Id, Token>, p: Pending): map<Id, Token> {
    match p
    case Activate(_, k, _) => tokens - {k}
    case RemoveUser(u) => Without(tokens, u)
    case _ => tokens
  }

  function ResetsAfter(tokens: map<Id, Token>, p: Pending): map<Id, Token> {
    if p.RemoveUser? then Without(tokens, p.user) else tokens
  }

  lemma SessionTokens(cfg: Config, t: Tables, now: Time, gen: Gen, p: Pending)
    requires OpensSession(p)
    requires Committed(Commit(cfg, t, now, gen, p).1)
    ensures Commit(cfg, t, now, gen, p).0.resets == t.resets
    ensures Commit(cfg, t, now, gen, p).0.confirmations == ConfirmationsAfter(t.confirmations, p)
  {
  }

  lemma CommitTokens(cfg: Config, t: Tables, now: Time, gen: Gen, p: Pending)
    requires !p.IssueReset? && !p.CreateUser? && !p.AddConfirmation?
    requires Committed(Commit(cfg, t, now, gen, p).1)
    ensures p.RemoveUser? && p.user !in t.users ==> Commit(cfg, t, now, gen, p).0 == t
    ensures !(p.RemoveUser? && p.user !in t.users) ==>
              var t' := Commit(cfg, t, now, gen, p).0;
              t'.resets == ResetsAfter(t.resets, p) && t'.confirmations == ConfirmationsAfter(t.confirmations, p)
  {
    if OpensSession(p) {
      SessionTokens(cfg, t, now, gen, p);
      hide Commit;
    } else {
      hide Authenticate, NewUser;
    }
  }

  /** The session tokens that survive a committed transaction. */
  function RefreshKept(tokens: map<Id, RefreshToken>, p: Pending): map<Id, RefreshToken> {
    match p
    case Rotate(_, k, _) => tokens - {k}
    case ChangePassword(u, _, _) => map k | k in tokens && tokens[k].userId != u :: tokens[k]
    case CloseSession(_, k) => if k.Some? then tokens - {k.value} else tokens
    case RemoveUser(u) => map k | k in tokens && tokens[k].userId != u :: tokens[k]
    case _ => tokens
  }

  function AccessKept(tokens: map<Id, Token>, p: Pending): map<Id, Token> {
    match p
    case ChangePassword(u, _, _) => map k | k in tokens && tokens[k].userId != u :: tokens[k]
    case CloseSession(k, _) => tokens - {k}
    case RemoveUser(u) => Without(tokens, u)
    case _ => tokens
  }

  /** A transaction that opens a session adds exactly one access and one refresh token. */
  lemma CommitSessions(cfg: Config, t: Tables, now: Time, gen: Gen, p: Pending)
    requires OpensSession(p) && Committed(Commit(cfg, t, now, gen, p).1)
    ensures var (t', o) := Commit(cfg, t, now, gen, p);
            && o == LoggedIn(gen.access, gen.refresh, cfg.accessValidity)
            && gen.access !in AccessKept(t.access, p) && gen.refresh !in RefreshKept(t.refresh, p)
            && t'.access == AccessKept(t.access, p)[gen.access := Token(p.user, now, now + cfg.accessValidity)]
            && t'.refresh == RefreshKept(t.refresh, p)[gen.refresh := RefreshToken(p.user, now)]
  {
  }

  lemma SessionProfiles(cfg: Config, t: Tables, now: Time, gen: Gen, p: Pending)
    requires OpensSession(p)
    ensures Commit(cfg, t, now, gen, p).0.profiles == t.profiles
    ensures Commit(cfg, t, now, gen, p).0.referenced == t.referenced
  {
    hide AccessKept, RefreshKept, Without;
  }

  /** A profile row comes and goes with its user and is otherwise left alone; references change by themselves only. */
  lemma CommitProfiles(cfg: Config, t: Tables, now: Time, gen: Gen, p: Pending)
    ensures var (t', o) := Commit(cfg, t, now, gen, p);
            && (forall v :: v in t.profiles && v in t'.profiles ==> t'.profiles[v] == t.profiles[v])
            && (forall v :: v in t'.profiles && v !in t.profiles ==>
                  p.CreateUser? && v == gen.user && t'.profiles[v] == Profile(None, now))
            && (forall v :: v in t.profiles && v !in t'.profiles ==> p.RemoveUser? && v == p.user)
            && (!p.Mark? ==> t'.referenced == t.referenced)
  {
    if OpensSession(p) {
      SessionProfiles(cfg, t, now, gen, p);
      hide Commit;
    } else {
      hide Authenticate, ActivateAndOpen, ChangeAndOpen, NamedBy, RecentTokens, Without;
    }
  }

  /** It commits exactly if its user exists and the generated identifiers are not those of tokens that stay. */
  lemma SessionCommits(cfg: Config, t: Tables, now: Time, gen: Gen, p: Pending)
    requires OpensSession(p)
    ensures Committed(Commit(cfg, t, now, gen, p).1) <==>
            p.user in t.users && gen.access !in AccessKept(t.access, p) && gen.refresh !in RefreshKept(t.refresh, p)
    ensures Committed(Commit(cfg, t, now, gen, p).1) || Commit(cfg, t, now, gen, p) == (t, Failed(DatabaseError))
  {
  }

  lemma NewSessionCommits(cfg: Config, t: Tables, now: Time, gen: Gen, p: Pending)
    requires OpensSession(p) && p.user in t.users && gen.access !in t.access && gen.refresh !in t.refresh
    ensures Committed(Commit(cfg, t, now, gen, p).1)
  {
    SessionCommits(cfg, t, now, gen, p);
    hide Commit;
  }

  /** All seven tables after it. */
  lemma SessionTables(cfg: Config, t: Tables, now: Time, gen: Gen, p: Pending)
    requires OpensSession(p) && Committed(Commit(cfg, t, now, gen, p).1)
    ensures p.user in t.users
    ensures Commit(cfg, t, now, gen, p).0 ==
            t.(users := t.users[p.user := RowAfter(p, now, p.user, t.users[p.user])],
               access := AccessKept(t.access, p)[gen.access := Token(p.user, now, now + cfg.accessValidity)],
               refresh := RefreshKept(t.refresh, p)[gen.refresh := RefreshToken(p.user, now)],
               confirmations := ConfirmationsAfter(t.confirmations, p))
  {
    SessionUsers(cfg, t, now, gen, p);
    SessionTokens(cfg, t, now, gen, p);
    CommitSessions(cfg, t, now, gen, p);
    SessionProfiles(cfg, t, now, gen, p);
    hide Commit, AccessKept, RefreshKept, ConfirmationsAfter;
    var t' := Commit(cfg, t, now, gen, p).0;
    assert t'.users == t.users[p.user := RowAfter(p, now, p.user, t.users[p.user])];
  }

  /** Any other transaction adds no session token. */
  lemma CommitOther(cfg: Config, t: Tables, now: Time, gen: Gen, p: Pending)
    requires !OpensSession(p) && Committed(Commit(cfg, t, now, gen, p).1)
    requires p.RemoveUser? ==> p.user in t.users
    ensures var (t', o) := Commit(cfg, t, now, gen, p);
            !o.LoggedIn? && t'.access == AccessKept(t.access, p) && t'.refresh == RefreshKept(t.refresh, p)
  {
    hide Authenticate, ActivateAndOpen, ChangeAndOpen, NamedBy, RecentTokens, Without;
  }

  /** A failed transaction changes no table. */
  lemma FailureChangesNothing(cfg: Config, t: Tables, now: Time, gen: Gen, p: Pending)
    ensures var (t', o) := Commit(cfg, t, now, gen, p); !Committed(o) ==> t' == t
  {
  }

  // ---- Whole calls

  /** What an operation has established about the tables by the time it decides on a transaction. */
  ghost predicate Justified(t: Tables, request: Request, p: Pending) {
    match request
    case Register(name, password, salt) =>
      || p == CreateUser(name, Argon2id(salt, password))
      || (p.AddConfirmation? && NamedBy(t, name, p.user) && t.users[p.user].requiresConfirmation)
    case CompleteRegister(k) =>
      p.Activate? && p.token == k && k in t.confirmations && t.confirmations[k].userId == p.user &&
      p.user in t.users && !t.users[p.user].isActive && t.users[p.user].requiresConfirmation
    case Login(name, password) =>
      p.OpenSession? && NamedBy(t, name, p.user) && t.users[p.user].isActive &&
      t.users[p.user].password.Some? && Compare(password, t.users[p.user].password.value) == Match
    case Refresh(k) =>
      p.Rotate? && p.token == k && k in t.refresh && t.refresh[k].userId == p.user &&
      p.user in t.users && t.users[p.user].isActive
    case Logout(a, r) => p == CloseSession(a, r)
    case InitPasswordReset(name) =>
      p.IssueReset? && NamedBy(t, name, p.user) && t.users[p.user].isActive && t.users[p.user].password.Some?
    case ResetPassword(k, newPassword, salt) =>
      k in t.resets && p.ChangePassword? && p.user == t.resets[k].userId && p.hash == Argon2id(salt, newPassword) &&
      p.user in t.users && t.users[p.user].isActive
    case UpdatePassword(u, _, newPassword, salt) =>
      p.ChangePassword? && p.user == u && p.hash == Argon2id(salt, newPassword) && u in t.users && t.users[u].isActive
    case DeleteUserAccount(u, _) => p == RemoveUser(u) && u in t.users && t.users[u].isActive
    case Deactivate(u) => p == SetInactive(u)
    case SetReferenced(u, r) => p == Mark(u, r)
  }

  lemma ReadJustifies(cfg: Config, t: Tables, now: Time, request: Request)
    ensures var r := Read(cfg, t, now, request); r.Proceed? ==> Justified(t, request, r.pending)
    ensures var r := Read(cfg, t, now, request); r.Reply? ==> !r.outcome.LoggedIn? && !r.outcome.Done?
  {
  }

  /** The transaction a call committed, if any. */
  ghost function Decided(cfg: Config, t: Tables, step: Step): Option<Pending> {
    match Read(cfg, t, step.at, step.request)
    case Reply(_) => None
    case Proceed(p) => if Committed(Commit(cfg, t, step.at, step.gen, p).1) then Some(p) else None
  }

  /** A call either commits a transaction that its request justifies, or changes nothing. */
  lemma CallEffect(cfg: Config, t: Tables, step: Step)
    ensures match Decided(cfg, t, step)
            case None => After(cfg, t, step) == t && !Response(cfg, t, step).LoggedIn? && !Response(cfg, t, step).Done?
            case Some(p) => Justified(t, step.request, p) &&
                            Commit(cfg, t, step.at, step.gen, p) == (After(cfg, t, step), Response(cfg, t, step)) &&
                            Committed(Response(cfg, t, step))
  {
    ReadJustifies(cfg, t, step.at, step.request);
    var r := Read(cfg, t, step.at, step.request);
    if r.Proceed? { FailureChangesNothing(cfg, t, step.at, step.gen, r.pending); }
    hide Read, Commit, Justified;
  }
}
