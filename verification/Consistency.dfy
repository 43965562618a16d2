/** What every transaction keeps: referential integrity, one profile per user, and no session
    for a user whose confirmation is outstanding. */
module Consistency {
  import opened Common
  import opened Schema
  import opened Protocol

  ghost predicate Consistent(t: Tables) {
    && UniqueNames(t)
    && t.profiles.Keys == t.users.Keys
    && t.referenced <= t.users.Keys
    && OwnersExist(t.access, t.users.Keys)
    && RefreshOwnersExist(t.refresh, t.users.Keys)
    && OwnersExist(t.resets, t.users.Keys)
    && OwnersExist(t.confirmations, t.users.Keys)
  }

  ghost predicate OwnersExist(tokens: map<Id, Token>, users: set<Id>) {
    forall k :: k in tokens ==> tokens[k].userId in users
  }

  ghost predicate RefreshOwnersExist(tokens: map<Id, RefreshToken>, users: set<Id>) {
    forall k :: k in tokens ==> tokens[k].userId in users
  }

  ghost predicate Unconfirmed(t: Tables, u: Id) {
    u in t.users && t.users[u].requiresConfirmation
  }

  /** An unconfirmed user is inactive and owns no session row. */
  ghost predicate SessionsConfirmed(t: Tables) {
    && (forall u :: Unconfirmed(t, u) ==> !t.users[u].isActive)
    && (forall k :: k in t.access ==> !Unconfirmed(t, t.access[k].userId))
    && (forall k :: k in t.refresh ==> !Unconfirmed(t, t.refresh[k].userId))
  }

  ghost predicate Sound(t: Tables) { Consistent(t) && SessionsConfirmed(t) }

  /** A transaction about to open a session for a user does not concern an unconfirmed one. */
  ghost predicate SafeFor(t: Tables, p: Pending) {
    match p
    case OpenSession(u, _) => !Unconfirmed(t, u)
    case Rotate(u, _, _) => !Unconfirmed(t, u)
    case ChangePassword(u, _, _) => !Unconfirmed(t, u)
    case _ => true
  }

  lemma ReadIsSafe(cfg: Config, t: Tables, now: Time, request: Request)
    requires Sound(t)
    ensures var r := Read(cfg, t, now, request); r.Proceed? ==> SafeFor(t, r.pending)
  {
  }

  lemma ClearedShape(t: Tables, u: Id)
    ensures var t0 := DeleteRefreshOf(DeleteAccessOf(t, u), u);
            && t0 == t.(access := t0.access, refresh := t0.refresh)
            && (forall k :: k in t0.access ==> k in t.access && t0.access[k] == t.access[k])
            && (forall k :: k in t0.refresh ==> k in t.refresh && t0.refresh[k] == t.refresh[k])
  {
  }

  /** Opening a session adds rows for the account alone and keeps names and confirmations. */
  lemma AuthenticateShape(cfg: Config, t: Tables, now: Time, gen: Gen, account: Account, invalidate: bool)
    ensures var r := Authenticate(cfg, t, now, gen, account, invalidate);
            r.Some? ==> account.id in t.users && SessionAdded(t, r.value, account.id)
  {
    var u := account.id;
    ClearedShape(t, u);
    var t0 := if invalidate then DeleteRefreshOf(DeleteAccessOf(t, u), u) else t;
    hide DeleteRefreshOf, DeleteAccessOf, WriteLastAuthenticated;
    var r := Authenticate(cfg, t, now, gen, account, invalidate);
    if r.Some? {
      assert r.value.access == t0.access[gen.access := Token(u, now, now + cfg.accessValidity)];
      assert r.value.refresh == t0.refresh[gen.refresh := RefreshToken(u, now)];
      hide Authenticate;
    }
  }

  ghost predicate SessionAdded(t: Tables, t': Tables, u: Id) {
    && t'.users.Keys == t.users.Keys && t'.profiles == t.profiles && t'.referenced == t.referenced
    && t'.resets == t.resets && t'.confirmations == t.confirmations
    && (forall v :: v in t.users ==> t'.users[v].username == t.users[v].username &&
                                     t'.users[v].isActive == t.users[v].isActive &&
                                     t'.users[v].requiresConfirmation == t.users[v].requiresConfirmation)
    && (forall k :: k in t'.access ==> (k in t.access && t'.access[k] == t.access[k]) || t'.access[k].userId == u)
    && (forall k :: k in t'.refresh ==> (k in t.refresh && t'.refresh[k] == t.refresh[k]) || t'.refresh[k].userId == u)
  }

  lemma SessionAddedSound(t: Tables, t': Tables, u: Id)
    requires Sound(t) && u in t.users && !Unconfirmed(t, u) && SessionAdded(t, t', u)
    ensures Sound(t')
  {
    SameNames(t, t');
    hide UniqueNames;
    assert forall v :: Unconfirmed(t', v) <==> Unconfirmed(t, v);
  }

  lemma SameNames(t: Tables, t': Tables)
    requires UniqueNames(t)
    requires forall v :: v in t'.users ==> v in t.users && t'.users[v].username == t.users[v].username
    ensures UniqueNames(t')
  {
    assert forall n, v :: NamedBy(t', n, v) ==> NamedBy(t, n, v);
  }

  lemma AuthenticateKeepsSound(cfg: Config, t: Tables, now: Time, gen: Gen, account: Account, invalidate: bool)
    requires Sound(t) && !Unconfirmed(t, account.id)
    ensures var r := Authenticate(cfg, t, now, gen, account, invalidate);
            r.Some? ==> account.id in t.users && Sound(r.value)
  {
    var r := Authenticate(cfg, t, now, gen, account, invalidate);
    AuthenticateShape(cfg, t, now, gen, account, invalidate);
    hide *;
    if r.Some? { SessionAddedSound(t, r.value, account.id); }
  }

  /** One user with a profile and at most one confirmation token has been added. */
  ghost predicate UserAdded(t: Tables, t': Tables, u: Id, name: string) {
    && u !in t.users && (forall v :: !NamedBy(t, name, v))
    && t'.users.Keys == t.users.Keys + {u} && t'.profiles.Keys == t.profiles.Keys + {u}
    && (forall v :: v in t.users ==> t'.users[v] == t.users[v])
    && t'.users[u].username == Some(name) && t'.users[u].isActive == !t'.users[u].requiresConfirmation
    && t'.access == t.access && t'.refresh == t.refresh && t'.resets == t.resets && t'.referenced == t.referenced
    && (forall k :: k in t'.confirmations ==>
          (k in t.confirmations && t'.confirmations[k] == t.confirmations[k]) || t'.confirmations[k].userId == u)
  }

  lemma NewUserShape(cfg: Config, t: Tables, now: Time, gen: Gen, name: string, hash: Hash)
    ensures var r := NewUser(cfg, t, now, gen, name, hash); r.Some? ==> UserAdded(t, r.value, gen.user, name)
  {
    var r := NewUser(cfg, t, now, gen, name, hash);
    if r.Some? {
      forall v ensures !NamedBy(t, name, v) {
        assert v in t.users && NamedBy(t, name, v) ==> NewUser(cfg, t, now, gen, name, hash) == None;
      }
    }
  }

  lemma NewName(t: Tables, t': Tables, name: string, u: Id)
    requires UniqueNames(t) && forall v :: !NamedBy(t, name, v)
    requires u in t'.users && t'.users[u].username == Some(name)
    requires forall v :: v in t'.users && v != u ==> v in t.users && t'.users[v].username == t.users[v].username
    ensures UniqueNames(t')
  {
    assert forall n, v :: NamedBy(t', n, v) ==> NamedBy(t, n, v) || (n == name && v == u);
  }

  lemma UserAddedSound(t: Tables, t': Tables, u: Id, name: string)
    requires Sound(t) && UserAdded(t, t', u, name)
    ensures Sound(t')
  {
    NewName(t, t', name, u);
    hide UniqueNames, NamedBy;
    assert forall v :: Unconfirmed(t', v) ==> Unconfirmed(t, v) || v == u;
  }

  lemma CreateKeepsSound(cfg: Config, t: Tables, now: Time, gen: Gen, name: string, hash: Hash)
    requires Sound(t)
    ensures Sound(Commit(cfg, t, now, gen, CreateUser(name, hash)).0)
  {
    NewUserShape(cfg, t, now, gen, name, hash);
    var r := NewUser(cfg, t, now, gen, name, hash);
    hide NewUser, Sound, UserAdded;
    if r.Some? { UserAddedSound(t, r.value, gen.user, name); }
  }

  lemma DeletedTokens(tokens: map<Id, Token>, users: set<Id>, u: Id)
    requires OwnersExist(tokens, users)
    ensures OwnersExist(Without(tokens, u), users - {u})
  {
  }

  lemma DeletionConsistent(t: Tables, u: Id)
    requires Consistent(t)
    ensures DeleteUser(t, u).Some? ==> Consistent(DeleteUser(t, u).value)
  {
    var r := DeleteUser(t, u);
    if r.Some? && u in t.users {
      SameNames(t, r.value);
      DeletedTokens(t.access, t.users.Keys, u);
      DeletedTokens(t.resets, t.users.Keys, u);
      DeletedTokens(t.confirmations, t.users.Keys, u);
      assert r.value.users.Keys == t.users.Keys - {u} == r.value.profiles.Keys;
      hide UniqueNames, OwnersExist, Without;
    }
  }

  lemma DeletionConfirmed(t: Tables, u: Id)
    requires SessionsConfirmed(t)
    ensures DeleteUser(t, u).Some? ==> SessionsConfirmed(DeleteUser(t, u).value)
  {
    var r := DeleteUser(t, u);
    if r.Some? {
      assert forall v :: Unconfirmed(r.value, v) ==> Unconfirmed(t, v);
    }
  }

  lemma RemovalKeepsSound(cfg: Config, t: Tables, now: Time, gen: Gen, u: Id)
    requires Sound(t)
    ensures Sound(Commit(cfg, t, now, gen, RemoveUser(u)).0)
  {
    DeletionConsistent(t, u);
    DeletionConfirmed(t, u);
    hide Consistent, SessionsConfirmed, DeleteUser;
  }

  /** Column updates that leave names and confirmation alone, or only confirm. */
  lemma UpdateKeepsSound(t: Tables, u: Id, row: User)
    requires Sound(t) && u in t.users
    requires row.username == t.users[u].username
    requires row.requiresConfirmation ==> t.users[u].requiresConfirmation && !row.isActive
    ensures Sound(t.(users := t.users[u := row]))
  {
    var t' := t.(users := t.users[u := row]);
    SameNames(t, t');
    hide UniqueNames;
    assert forall v :: Unconfirmed(t', v) ==> Unconfirmed(t, v);
  }

  /** Tables with the same users, fewer sessions and confirmations that still have an owner. */
  lemma ShrinkKeepsSound(t: Tables, t': Tables)
    requires Sound(t)
    requires t'.users == t.users && t'.profiles == t.profiles && t'.referenced <= t.users.Keys
    requires forall k :: k in t'.access ==> k in t.access && t'.access[k] == t.access[k]
    requires forall k :: k in t'.refresh ==> k in t.refresh && t'.refresh[k] == t.refresh[k]
    requires forall k :: k in t'.resets ==> t'.resets[k].userId in t.users
    requires forall k :: k in t'.confirmations ==> t'.confirmations[k].userId in t.users
    ensures Sound(t')
  {
    SameNames(t, t');
    hide UniqueNames;
    assert forall v :: Unconfirmed(t', v) <==> Unconfirmed(t, v);
  }

  lemma OpenKeepsSound(cfg: Config, t: Tables, now: Time, gen: Gen, p: Pending)
    requires Sound(t) && p.OpenSession? && SafeFor(t, p)
    ensures Sound(Commit(cfg, t, now, gen, p).0)
  {
    AuthenticateKeepsSound(cfg, t, now, gen, Account(p.user, p.copy), false);
    hide Authenticate;
  }

  lemma ActivateKeepsSound(cfg: Config, t: Tables, now: Time, gen: Gen, p: Pending)
    requires Sound(t) && p.Activate?
    ensures Sound(Commit(cfg, t, now, gen, p).0)
  {
    var u := p.user;
    if u in t.users {
      UpdateKeepsSound(t, u, t.users[u].(isActive := true, requiresConfirmation := false, updatedAt := now));
    }
    var t1 := UpdateActivation(t, u, now);
    ShrinkKeepsSound(t1, DeleteConfirmation(t1, p.token));
    AuthenticateKeepsSound(cfg, DeleteConfirmation(t1, p.token), now, gen, ToAccount(u, Activated(p.row)), false);
    hide Authenticate, WriteActivation;
  }

  lemma RotateKeepsSound(cfg: Config, t: Tables, now: Time, gen: Gen, p: Pending)
    requires Sound(t) && p.Rotate? && SafeFor(t, p)
    ensures Sound(Commit(cfg, t, now, gen, p).0)
  {
    ShrinkKeepsSound(t, DeleteRefreshToken(t, p.token));
    AuthenticateKeepsSound(cfg, DeleteRefreshToken(t, p.token), now, gen, Account(p.user, p.copy), false);
    hide Authenticate;
  }

  lemma ChangeKeepsSound(cfg: Config, t: Tables, now: Time, gen: Gen, p: Pending)
    requires Sound(t) && p.ChangePassword? && SafeFor(t, p)
    ensures Sound(Commit(cfg, t, now, gen, p).0)
  {
    var u, hash := p.user, p.hash;
    if u in t.users { UpdateKeepsSound(t, u, t.users[u].(password := Some(hash), updatedAt := now)); }
    AuthenticateKeepsSound(cfg, UpdatePasswordColumn(t, u, hash, now), now, gen,
                           Account(u, p.copy.(passwordHash := Some(hash))), true);
    hide Authenticate, WritePassword;
  }

  lemma AddConfirmationKeepsSound(cfg: Config, t: Tables, now: Time, gen: Gen, u: Id)
    requires Sound(t)
    ensures Sound(Commit(cfg, t, now, gen, AddConfirmation(u)).0)
  {
    hide UniqueNames, SessionsConfirmed;
    ShrinkKeepsSound(t, Commit(cfg, t, now, gen, AddConfirmation(u)).0);
  }

  lemma CloseKeepsSound(cfg: Config, t: Tables, now: Time, gen: Gen, access: Id, refresh: Option<Id>)
    requires Sound(t)
    ensures Sound(Commit(cfg, t, now, gen, CloseSession(access, refresh)).0)
  {
    hide UniqueNames, SessionsConfirmed;
    ShrinkKeepsSound(t, Commit(cfg, t, now, gen, CloseSession(access, refresh)).0);
  }

  lemma IssueKeepsSound(cfg: Config, t: Tables, now: Time, gen: Gen, u: Id)
    requires Sound(t)
    ensures Sound(Commit(cfg, t, now, gen, IssueReset(u)).0)
  {
    hide UniqueNames, SessionsConfirmed;
    ShrinkKeepsSound(t, Commit(cfg, t, now, gen, IssueReset(u)).0);
  }

  lemma MarkKeepsSound(cfg: Config, t: Tables, now: Time, gen: Gen, u: Id, r: bool)
    requires Sound(t)
    ensures Sound(Commit(cfg, t, now, gen, Mark(u, r)).0)
  {
    hide UniqueNames, SessionsConfirmed;
    ShrinkKeepsSound(t, Commit(cfg, t, now, gen, Mark(u, r)).0);
  }

  lemma InactiveKeepsSound(cfg: Config, t: Tables, now: Time, gen: Gen, u: Id)
    requires Sound(t)
    ensures Sound(Commit(cfg, t, now, gen, SetInactive(u)).0)
  {
    if u in t.users { UpdateKeepsSound(t, u, t.users[u].(isActive := false)); }
  }

  /** Every transaction, run from sound tables on behalf of a confirmed user, leaves them sound. */
  lemma CommitKeepsSound(cfg: Config, t: Tables, now: Time, gen: Gen, p: Pending)
    requires Sound(t) && SafeFor(t, p)
    ensures Sound(Commit(cfg, t, now, gen, p).0)
  {
    hide *;
    match p
    case CreateUser(name, hash) => CreateKeepsSound(cfg, t, now, gen, name, hash);
    case Activate(_, _, _) => ActivateKeepsSound(cfg, t, now, gen, p);
    case OpenSession(_, _) => OpenKeepsSound(cfg, t, now, gen, p);
    case Rotate(_, _, _) => RotateKeepsSound(cfg, t, now, gen, p);
    case ChangePassword(_, _, _) => ChangeKeepsSound(cfg, t, now, gen, p);
    case RemoveUser(u) => RemovalKeepsSound(cfg, t, now, gen, u);
    case SetInactive(u) => InactiveKeepsSound(cfg, t, now, gen, u);
    case AddConfirmation(u) => AddConfirmationKeepsSound(cfg, t, now, gen, u);
    case CloseSession(a, r) => CloseKeepsSound(cfg, t, now, gen, a, r);
    case IssueReset(u) => IssueKeepsSound(cfg, t, now, gen, u);
    case Mark(u, r) => MarkKeepsSound(cfg, t, now, gen, u, r);
  }

  lemma CallKeepsSound(cfg: Config, t: Tables, now: Time, gen: Gen, request: Request)
    requires Sound(t)
    ensures Sound(Call(cfg, t, now, gen, request).0)
  {
    ReadIsSafe(cfg, t, now, request);
    var r := Read(cfg, t, now, request);
    if r.Proceed? { CommitKeepsSound(cfg, t, now, gen, r.pending); }
  }

  /** In every atomic run the tables stay sound. */
  lemma {:induction false} RunKeepsSound(cfg: Config, t: Tables, steps: seq<Step>)
    requires Sound(t)
    ensures Sound(Run(cfg, t, steps))
    decreases |steps|
  {
    if steps != [] {
      CallKeepsSound(cfg, t, steps[0].at, steps[0].gen, steps[0].request);
      RunKeepsSound(cfg, After(cfg, t, steps[0]), steps[1..]);
    }
  }
}
