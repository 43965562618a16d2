/** The account service itself, statement by statement, over a database in which any statement may
    fail. Whatever fails, a call takes effect as a whole or not at all. */
module Service {
  import opened Common
  import opened Schema
  import opened Protocol
  import opened Consistency

  /** The database as one connection sees it. `plan` says of the statements to come which of them fail
      (those beyond it succeed); `faults` counts the failures so far and `lost` the commits among them. */
  class Database {
    var tables: Tables
    var work: Tables
    var inTransaction: bool
    var plan: seq<bool>
    var faults: nat
    var lost: nat

    constructor (tables: Tables, plan: seq<bool>)
      ensures this.tables == tables && this.plan == plan && !inTransaction && faults == lost == 0
    {
      this.tables, this.work, this.inTransaction := tables, tables, false;
      this.plan, this.faults, this.lost := plan, 0, 0;
    }

    /** The fate of the next statement. */
    method Statement() returns (ok: bool)
      modifies this`plan, this`faults
      ensures faults == old(faults) + if ok then 0 else 1
      ensures ok <==> !Fails(old(plan), 0)
      ensures plan == Later(old(plan), 1)
    {
      if plan == [] {
        ok := true;
      } else {
        ok := !plan[0];
        plan := plan[1..];
        if !ok { faults := faults + 1; }
      }
    }

    method Begin() returns (ok: bool)
      requires !inTransaction
      modifies this
      ensures tables == old(tables) && lost == old(lost)
      ensures faults == old(faults) + if ok then 0 else 1
      ensures inTransaction == ok && (ok ==> work == tables)
      ensures plan == Later(old(plan), 1) && (ok <==> !Fails(old(plan), 0))
    {
      ok := Statement();
      if ok { inTransaction, work := true, tables; }
    }

    /** A writing statement of the open transaction; `effect` is None when a constraint refuses it. */
    method Execute(effect: Option<Tables>) returns (ok: bool)
      requires inTransaction
      modifies this
      ensures inTransaction && tables == old(tables) && lost == old(lost)
      ensures old(faults) <= faults
      ensures ok <==> effect.Some? && faults == old(faults)
      ensures work == if ok then effect.value else old(work)
      ensures plan == Later(old(plan), 1) && (ok <==> effect.Some? && !Fails(old(plan), 0))
    {
      ok := Statement();
      if ok {
        if effect.Some? { work := effect.value; } else { ok := false; }
      }
    }

    /** A writing statement outside any transaction. */
    method ExecuteDirectly(effect: Option<Tables>) returns (ok: bool)
      requires !inTransaction
      modifies this
      ensures !inTransaction && lost == old(lost)
      ensures old(faults) <= faults
      ensures ok <==> effect.Some? && faults == old(faults)
      ensures tables == if ok then effect.value else old(tables)
    {
      ok := Statement();
      if ok {
        if effect.Some? { tables := effect.value; } else { ok := false; }
      }
    }

    /** Ends the transaction: commits if its body succeeded, else rolls back. The caller of the
        transaction is not told when the commit itself fails. */
    method End(success: bool)
      requires inTransaction
      modifies this
      ensures !inTransaction
      ensures old(faults) <= faults && lost == old(lost) + (faults - old(faults))
      ensures !success ==> faults == old(faults)
      ensures tables == if success && faults == old(faults) then old(work) else old(tables)
      ensures success ==> (faults > old(faults) <==> Fails(old(plan), 0))
    {
      inTransaction := false;
      if success {
        var ok := Statement();
        if ok { tables := work; } else { lost := lost + 1; }
      }
    }

    /** The user of the given name, looked up outside any transaction. */
    method FindUser(name: string) returns (ok: bool, u: Option<Id>)
      requires UniqueNames(tables)
      modifies this`plan, this`faults
      ensures faults == old(faults) + if ok then 0 else 1
      ensures plan == Later(old(plan), 1) && (ok <==> !Fails(old(plan), 0))
      ensures ok ==> u == UserByName(tables, name)
    {
      u := None;
      ok := Statement();
      if ok {
        if v :| v in tables.users && NamedBy(tables, name, v) { u := Some(v); }
      }
    }
  }

  /** The replies a call may give; where several reset tokens can be reused, any one of them may be returned. */
  ghost predicate MayReply(cfg: Config, t: Tables, now: Time, gen: Gen, phase: Phase, o: Outcome) {
    || o == Conclude(cfg, t, now, gen, phase).1
    || (phase.Proceed? && phase.pending.IssueReset? && o.ResetStarted? && o.resetToken.Some? &&
        o.resetToken.value in RecentTokens(t.resets, phase.pending.user, now - cfg.resetReuse, now))
  }

  /** All or nothing: without a fault the call has its effect on the tables and replies accordingly. With one it
      changes nothing and reports the given failure, unless it was the commit that failed: then it replies as if nothing
      had. */
  ghost predicate AllOrNothing(cfg: Config, before: Tables, after: Tables, now: Time, gen: Gen, phase: Phase,
                               o: Outcome, faulted: bool, lostCommit: bool, denial: Error) {
    && (!faulted ==> after == Conclude(cfg, before, now, gen, phase).0 && MayReply(cfg, before, now, gen, phase, o))
    && (faulted ==> after == before)
    && (faulted && !lostCommit ==> o == Failed(denial))
    && (lostCommit ==> faulted && MayReply(cfg, before, now, gen, phase, o))
  }

  class Service {
    const cfg: Config
    const db: Database

    constructor (cfg: Config, db: Database)
      ensures this.cfg == cfg && this.db == db
    {
      this.cfg, this.db := cfg, db;
    }

    /** Opens a session inside the running transaction, for an account read at some earlier time. */
    method AuthenticateUser(account: Account, invalidate: bool, now: Time, gen: Gen) returns (r: Option<Outcome>)
      requires db.inTransaction
      modifies db
      ensures db.inTransaction && db.tables == old(db.tables) && db.lost == old(db.lost)
      ensures old(db.faults) <= db.faults
      ensures r.Some? ==> db.faults == old(db.faults) && r.value == Session(cfg, gen) &&
                          Authenticate(cfg, old(db.work), now, gen, account, invalidate) == Some(db.work)
      ensures r.None? && db.faults == old(db.faults) ==>
              Authenticate(cfg, old(db.work), now, gen, account, invalidate) == None
    {
      if invalidate {
        var ok := db.Execute(Some(DeleteAccessOf(db.work, account.id)));
        if !ok { return None; }
        ok := db.Execute(Some(DeleteRefreshOf(db.work, account.id)));
        if !ok { return None; }
      }
      var ok := db.Execute(InsertAccess(db.work, gen.access, Token(account.id, now, now + cfg.accessValidity)));
      if !ok { return None; }
      ok := db.Execute(InsertRefresh(db.work, gen.refresh, RefreshToken(account.id, now)));
      if !ok { return None; }
      ok := db.Execute(WriteLastAuthenticated(db.work, account.id, account.copy, now));
      if !ok { return None; }
      return Some(Session(cfg, gen));
    }

    method UpdatePassword(account: Account, current: Option<string>, newPassword: string, salt: nat,
                          now: Time, gen: Gen) returns (o: Outcome)
      requires !db.inTransaction
      modifies db
      ensures !db.inTransaction && old(db.faults) <= db.faults && old(db.lost) <= db.lost
      ensures AllOrNothing(cfg, old(db.tables), db.tables, now, gen,
                           CheckPasswordChange(account, current, Argon2id(salt, newPassword)),
                           o, db.faults > old(db.faults), db.lost > old(db.lost), DatabaseError)
    {
      if !account.copy.isActive { return Failed(UserDeactivated); }
      if account.copy.passwordHash.None? { return Failed(NotLocalUser); }
      if current.Some? {
        var comparison := Compare(current.value, account.copy.passwordHash.value);
        if comparison == Undecodable { return Failed(HashUndecodable); }
        if comparison != Match { return Failed(Unauthorized); }
      }
      var hash := Argon2id(salt, newPassword);

      var ok := db.Begin();
      if !ok { return Failed(DatabaseError); }
      ok := db.Execute(WritePassword(db.work, account.id, account.copy, hash, now));
      if !ok {
        db.End(false);
        return Failed(DatabaseError);
      }
      var r := AuthenticateUser(Account(account.id, account.copy.(passwordHash := Some(hash))), true, now, gen);
      db.End(r.Some?);
      return if r.Some? then r.value else Failed(DatabaseError);
    }

    method ResetPassword(token: Id, newPassword: string, salt: nat, now: Time, gen: Gen) returns (o: Outcome)
      requires !db.inTransaction
      modifies db
      ensures !db.inTransaction && old(db.faults) <= db.faults && old(db.lost) <= db.lost
      ensures AllOrNothing(cfg, old(db.tables), db.tables, now, gen,
                           Read(cfg, old(db.tables), now, Request.ResetPassword(token, newPassword, salt)),
                           o, db.faults > old(db.faults), db.lost > old(db.lost), DatabaseError)
    {
      var ok := db.Statement();
      if !ok { return Failed(DatabaseError); }
      if token !in db.tables.resets { return Failed(TokenNotFound); }
      var row := db.tables.resets[token];
      if now > row.validUntil { return Failed(TokenExpired); }
      if row.userId !in db.tables.users { return Failed(DatabaseError); }
      o := UpdatePassword(ToAccount(row.userId, db.tables.users[row.userId]), None, newPassword, salt, now, gen);
    }

    method InitPasswordReset(name: string, now: Time, gen: Gen) returns (o: Outcome)
      requires !db.inTransaction && UniqueNames(db.tables)
      modifies db
      ensures !db.inTransaction && old(db.faults) <= db.faults && old(db.lost) <= db.lost
      ensures AllOrNothing(cfg, old(db.tables), db.tables, now, gen,
                           Read(cfg, old(db.tables), now, Request.InitPasswordReset(name)),
                           o, db.faults > old(db.faults), db.lost > old(db.lost), DatabaseError)
    {
      var ok, u := db.FindUser(name);
      if !ok { return Failed(DatabaseError); }
      if u.None? { return ResetStarted(None); }
      var row := db.tables.users[u.value];
      if !row.isActive || row.password.None? { return ResetStarted(None); }
      if cfg.resetDebounce > 0 {
        ok := db.Statement();
        if !ok { return Failed(DatabaseError); }
        if RecentTokens(db.tables.resets, u.value, now - cfg.resetDebounce, now) != {} { return ResetStarted(None); }
      }
      o := FinishPasswordReset(u.value, now, gen);
    }

    /** The transaction of InitPasswordReset, at whatever later time it runs. */
    method FinishPasswordReset(u: Id, now: Time, gen: Gen) returns (o: Outcome)
      requires !db.inTransaction
      modifies db
      ensures !db.inTransaction && old(db.faults) <= db.faults && old(db.lost) <= db.lost
      ensures AllOrNothing(cfg, old(db.tables), db.tables, now, gen, Proceed(IssueReset(u)),
                           o, db.faults > old(db.faults), db.lost > old(db.lost), DatabaseError)
    {
      var ok := db.Begin();
      if !ok { return Failed(DatabaseError); }
      ok := db.Statement();
      if !ok {
        db.End(false);
        return Failed(DatabaseError);
      }
      var reusable := RecentTokens(db.work.resets, u, now - cfg.resetReuse, now);
      var token := gen.reset;
      if k :| k in reusable {
        token := k;
      } else {
        ok := db.Execute(InsertReset(db.work, gen.reset, Token(u, now, now + cfg.resetValidity)));
      }
      db.End(ok);
      return if ok then ResetStarted(Some(token)) else Failed(DatabaseError);
    }

    method Logout(access: Id, refresh: Option<Id>, now: Time, gen: Gen) returns (o: Outcome)
      requires !db.inTransaction
      modifies db
      ensures !db.inTransaction && old(db.faults) <= db.faults && old(db.lost) <= db.lost
      ensures AllOrNothing(cfg, old(db.tables), db.tables, now, gen,
                           Read(cfg, old(db.tables), now, Request.Logout(access, refresh)),
                           o, db.faults > old(db.faults), db.lost > old(db.lost), DatabaseError)
      ensures var commit := if refresh.Some? then 3 else 2;
              db.lost > old(db.lost) <==>
              Fails(old(db.plan), commit) && forall n :: 0 <= n < commit ==> !Fails(old(db.plan), n)
    {
      ghost var plan := db.plan;
      LaterFails(plan, 1);
      LaterFails(plan, 2);
      LaterFails(plan, 3);
      var ok := db.Begin();
      if !ok { return Failed(DatabaseError); }
      ok := db.Execute(Some(DeleteAccessToken(db.work, access)));
      if ok && refresh.Some? {
        ok := db.Execute(Some(DeleteRefreshToken(db.work, refresh.value)));
      }
      db.End(ok);
      return if ok then Done else Failed(DatabaseError);
    }

    method Login(name: string, password: string, now: Time, gen: Gen) returns (o: Outcome)
      requires !db.inTransaction && UniqueNames(db.tables)
      modifies db
      ensures !db.inTransaction && old(db.faults) <= db.faults && old(db.lost) <= db.lost
      ensures AllOrNothing(cfg, old(db.tables), db.tables, now, gen,
                           Read(cfg, old(db.tables), now, Request.Login(name, password)),
                           o, db.faults > old(db.faults), db.lost > old(db.lost),
                           if Fails(old(db.plan), 0) then Unauthorized else DatabaseError)
    {
      var ok, u := db.FindUser(name);
      if !ok || u.None? { return Failed(Unauthorized); }
      var row := db.tables.users[u.value];
      if !row.isActive { return Failed(UserDeactivated); }
      if row.password.None? { return Failed(Unauthorized); }
      if Compare(password, row.password.value) != Match { return Failed(Unauthorized); }
      o := FinishLogin(ToAccount(u.value, row), now, gen);
    }

    /** The transaction of Login, at whatever later time it runs, for an account that may be stale by then. */
    method FinishLogin(account: Account, now: Time, gen: Gen) returns (o: Outcome)
      requires !db.inTransaction
      modifies db
      ensures !db.inTransaction && old(db.faults) <= db.faults && old(db.lost) <= db.lost
      ensures AllOrNothing(cfg, old(db.tables), db.tables, now, gen, Proceed(OpenSession(account.id, account.copy)),
                           o, db.faults > old(db.faults), db.lost > old(db.lost), DatabaseError)
    {
      var ok := db.Begin();
      if !ok { return Failed(DatabaseError); }
      var r := AuthenticateUser(account, false, now, gen);
      db.End(r.Some?);
      return if r.Some? then r.value else Failed(DatabaseError);
    }

    method Refresh(token: Id, now: Time, gen: Gen) returns (o: Outcome)
      requires !db.inTransaction
      modifies db
      ensures !db.inTransaction && old(db.faults) <= db.faults && old(db.lost) <= db.lost
      ensures AllOrNothing(cfg, old(db.tables), db.tables, now, gen,
                           Read(cfg, old(db.tables), now, Request.Refresh(token)),
                           o, db.faults > old(db.faults), db.lost > old(db.lost), DatabaseError)
    {
      var ok := db.Statement();
      if !ok { return Failed(DatabaseError); }
      if token !in db.tables.refresh { return Failed(Unauthorized); }
      var u := db.tables.refresh[token].userId;
      if u !in db.tables.users { return Failed(DatabaseError); }
      var account := ToAccount(u, db.tables.users[u]);
      if !account.copy.isActive { return Failed(UserDeactivated); }
      o := FinishRefresh(token, account, now, gen);
    }

    /** The transaction of Refresh, likewise. */
    method FinishRefresh(token: Id, account: Account, now: Time, gen: Gen) returns (o: Outcome)
      requires !db.inTransaction
      modifies db
      ensures !db.inTransaction && old(db.faults) <= db.faults && old(db.lost) <= db.lost
      ensures AllOrNothing(cfg, old(db.tables), db.tables, now, gen, Proceed(Rotate(account.id, token, account.copy)),
                           o, db.faults > old(db.faults), db.lost > old(db.lost), DatabaseError)
    {
      var ok := db.Begin();
      if !ok { return Failed(DatabaseError); }
      ok := db.Execute(Some(DeleteRefreshToken(db.work, token)));
      if !ok {
        db.End(false);
        return Failed(DatabaseError);
      }
      var r := AuthenticateUser(account, false, now, gen);
      db.End(r.Some?);
      return if r.Some? then r.value else Failed(DatabaseError);
    }

    method Register(name: string, password: string, salt: nat, now: Time, gen: Gen) returns (o: Outcome)
      requires !db.inTransaction && UniqueNames(db.tables)
      modifies db
      ensures !db.inTransaction && old(db.faults) <= db.faults && old(db.lost) <= db.lost
      ensures AllOrNothing(cfg, old(db.tables), db.tables, now, gen,
                           Read(cfg, old(db.tables), now, Request.Register(name, password, salt)),
                           o, db.faults > old(db.faults), db.lost > old(db.lost), DatabaseError)
    {
      var ok, u := db.FindUser(name);
      if !ok { return Failed(DatabaseError); }
      if u.Some? {
        o := RegisterAgain(u.value, now, gen);
      } else {
        o := RegisterNew(name, Argon2id(salt, password), now, gen);
      }
    }

    /** Register for a name that some user already has. */
    method RegisterAgain(u: Id, now: Time, gen: Gen) returns (o: Outcome)
      requires !db.inTransaction && u in db.tables.users
      modifies db
      ensures !db.inTransaction && old(db.faults) <= db.faults && db.lost == old(db.lost)
      ensures AllOrNothing(cfg, old(db.tables), db.tables, now, gen,
                           CheckTakenName(cfg, old(db.tables), now, u, old(db.tables).users[u]),
                           o, db.faults > old(db.faults), false, DatabaseError)
    {
      if !db.tables.users[u].requiresConfirmation { return Failed(UserAlreadyExists); }
      var ok := db.Statement();
      if !ok { return Failed(DatabaseError); }
      if RecentTokens(db.tables.confirmations, u, now - cfg.confirmationDebounce, now) != {} {
        return Registered(true, None);
      }
      ok := db.ExecuteDirectly(InsertConfirmation(db.tables, gen.confirmation,
                                                  Token(u, now, now + cfg.confirmationValidity)));
      return if ok then Registered(true, Some(gen.confirmation)) else Failed(DatabaseError);
    }

    method RegisterNew(name: string, hash: Hash, now: Time, gen: Gen) returns (o: Outcome)
      requires !db.inTransaction
      modifies db
      ensures !db.inTransaction && old(db.faults) <= db.faults && old(db.lost) <= db.lost
      ensures AllOrNothing(cfg, old(db.tables), db.tables, now, gen, Proceed(CreateUser(name, hash)),
                           o, db.faults > old(db.faults), db.lost > old(db.lost), DatabaseError)
    {
      var pending := cfg.requiresConfirmation;
      var ok := db.Begin();
      if !ok { return Failed(DatabaseError); }
      ok := db.Execute(InsertUser(db.work, gen.user,
              User(Some(name), Some(hash), !pending, cfg.defaultScopes, Some(now), now, now, pending)));
      if ok {
        ok := db.Execute(InsertProfile(db.work, gen.user, Profile(None, now)));
      }
      if ok && pending {
        ok := db.Execute(InsertConfirmation(db.work, gen.confirmation,
                Token(gen.user, now, now + cfg.confirmationValidity)));
      }
      db.End(ok);
      return if !ok then Failed(DatabaseError)
             else Registered(pending, if pending then Some(gen.confirmation) else None);
    }

    method DeleteUserAccount(account: Account, current: string, now: Time, gen: Gen) returns (o: Outcome)
      requires !db.inTransaction
      modifies db
      ensures !db.inTransaction && old(db.faults) <= db.faults && old(db.lost) <= db.lost
      ensures AllOrNothing(cfg, old(db.tables), db.tables, now, gen, CheckDeletion(account, current),
                           o, db.faults > old(db.faults), db.lost > old(db.lost), DatabaseError)
    {
      if !account.copy.isActive { return Failed(UserDeactivated); }
      if account.copy.passwordHash.None? { return Failed(NotLocalUser); }
      if Compare(current, account.copy.passwordHash.value) != Match { return Failed(Unauthorized); }

      var ok := db.Begin();
      if !ok { return Failed(DatabaseError); }
      ok := db.Execute(DeleteUser(db.work, account.id));
      db.End(ok);
      return if ok then Done else Failed(DatabaseError);
    }

    /** The token is looked up outside the transaction, though after it began. */
    method CompleteRegister(token: Id, now: Time, gen: Gen) returns (o: Outcome)
      requires !db.inTransaction
      modifies db
      ensures !db.inTransaction && old(db.faults) <= db.faults && old(db.lost) <= db.lost
      ensures AllOrNothing(cfg, old(db.tables), db.tables, now, gen,
                           Read(cfg, old(db.tables), now, Request.CompleteRegister(token)),
                           o, db.faults > old(db.faults), db.lost > old(db.lost), DatabaseError)
    {
      var ok := db.Begin();
      if !ok { return Failed(DatabaseError); }
      o, ok := CompleteInTransaction(token, now, gen);
      db.End(ok);
    }

    method CompleteInTransaction(token: Id, now: Time, gen: Gen) returns (o: Outcome, success: bool)
      requires db.inTransaction && db.work == db.tables
      modifies db
      ensures db.inTransaction && db.tables == old(db.tables) && db.lost == old(db.lost) && old(db.faults) <= db.faults
      ensures success <==> !o.Failed?
      ensures db.faults > old(db.faults) ==> o == Failed(DatabaseError)
      ensures db.faults == old(db.faults) ==>
                (if success then db.work else db.tables, o) ==
                Conclude(cfg, old(db.tables), now, gen, Read(cfg, old(db.tables), now, Request.CompleteRegister(token)))
    {
      var ok := db.Statement();
      if !ok { return Failed(DatabaseError), false; }
      if token !in db.tables.confirmations || db.tables.confirmations[token].validUntil <= now {
        return Failed(TokenNotFound), false;
      }
      var u := db.tables.confirmations[token].userId;
      if u !in db.tables.users { return Failed(DatabaseError), false; }
      var row := db.tables.users[u];
      if row.isActive || !row.requiresConfirmation { return Skipped, true; }
      o, success := FinishRegister(u, token, row, now, gen);
    }

    /** The writing part of the transaction, which may by then see other tables than the row was read from. */
    method FinishRegister(u: Id, token: Id, row: User, now: Time, gen: Gen) returns (o: Outcome, success: bool)
      requires db.inTransaction
      modifies db
      ensures db.inTransaction && db.tables == old(db.tables) && db.lost == old(db.lost) && old(db.faults) <= db.faults
      ensures success <==> !o.Failed?
      ensures db.faults > old(db.faults) ==> o == Failed(DatabaseError)
      ensures db.faults == old(db.faults) ==>
                (if success then db.work else old(db.work), o) ==
                  Commit(cfg, old(db.work), now, gen, Activate(u, token, row))
    {
      var ok := db.Execute(WriteActivation(db.work, u, row, now));
      if !ok { return Failed(DatabaseError), false; }
      ok := db.Execute(Some(DeleteConfirmation(db.work, token)));
      if !ok { return Failed(DatabaseError), false; }
      var r := AuthenticateUser(ToAccount(u, Activated(row)), false, now, gen);
      if r.None? { return Failed(DatabaseError), false; }
      return r.value, true;
    }
  }
}
