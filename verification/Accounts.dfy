/** The life of one account in atomic runs: registration, confirmation and password reset. */
module Accounts {
  import opened Common
  import opened Schema
  import opened Protocol
  import opened Consistency
  import opened Effects
  import opened Sessions

  // ---- Logging in

  /** Login of a name that some user has. A deactivated user is told so, whatever the password; a user without a
      decodable hash of just the given password is unauthorized. Otherwise a session is opened, unless an identifier
      generated for it is taken, and that is all that changes. */
  lemma LoginOutcome(cfg: Config, t: Tables, step: Step, u: Id)
    requires UniqueNames(t) && step.request.Login?
    requires u in t.users && t.users[u].username == Some(step.request.name)
    ensures var t', o, row := After(cfg, t, step), Response(cfg, t, step), t.users[u];
            var right := row.password.Some? && row.password.value.Argon2id? &&
                         row.password.value.password == step.request.password;
            var free := step.gen.access !in t.access && step.gen.refresh !in t.refresh;
            && (o.LoggedIn? || o.Failed?)
            && (o.LoggedIn? <==> row.isActive && right && free)
            && (o == Failed(UserDeactivated) <==> !row.isActive)
            && (o == Failed(Unauthorized) <==> row.isActive && !right)
            && (o == Failed(DatabaseError) <==> row.isActive && right && !free)
            && (o.LoggedIn? ==> o == LoggedIn(step.gen.access, step.gen.refresh, cfg.accessValidity))
            && t' == if !o.LoggedIn? then t
                     else t.(users := t.users[u := row.(lastAuthenticatedAt := Some(step.at), updatedAt := step.at)],
                             access := t.access[o.accessToken := Token(u, step.at, step.at + cfg.accessValidity)],
                             refresh := t.refresh[o.refreshToken := RefreshToken(u, step.at)])
  {
    assert NamedBy(t, step.request.name, u);
    assert UserByName(t, step.request.name) == Some(u);
    hide UniqueNames, Commit;
    var p := OpenSession(u, ToCopy(t.users[u]));
    SessionCommits(cfg, t, step.at, step.gen, p);
    if Committed(Commit(cfg, t, step.at, step.gen, p).1) {
      SessionTables(cfg, t, step.at, step.gen, p);
      CommitSessions(cfg, t, step.at, step.gen, p);
    }
  }

  // ---- Confirmation

  /** A registered user whose confirmation is outstanding, with the name and hash it registered. */
  ghost predicate Awaiting(t: Tables, u: Id, name: string, hash: Hash) {
    u in t.users && t.users[u].username == Some(name) && t.users[u].password == Some(hash) &&
    !t.users[u].isActive && t.users[u].requiresConfirmation
  }

  ghost predicate Activates(cfg: Config, t: Tables, step: Step, u: Id) {
    step.request.CompleteRegister? && Grants(cfg, t, step, u)
  }

  ghost predicate NeverActivates(cfg: Config, t: Tables, steps: seq<Step>, u: Id)
    decreases |steps|
  {
    steps == [] || (!Activates(cfg, t, steps[0], u) && NeverActivates(cfg, After(cfg, t, steps[0]), steps[1..], u))
  }

  /** Registering a free name while confirmation is required creates an account that awaits it. */
  lemma RegisterAwaits(cfg: Config, t: Tables, step: Step)
    requires step.request.Register? && UserByName(t, step.request.name) == None
    requires cfg.requiresConfirmation && Committed(Response(cfg, t, step))
    ensures Awaiting(After(cfg, t, step), step.gen.user, step.request.name,
                     Argon2id(step.request.salt, step.request.password))
  {
    CallEffect(cfg, t, step);
    CommitUsers(cfg, t, step.at, step.gen,
                CreateUser(step.request.name, Argon2id(step.request.salt, step.request.password)));
    hide Commit;
  }

  /** Nothing but its own activation touches an awaiting account; registering the name again does not. */
  lemma CallKeepsAwaiting(cfg: Config, t: Tables, step: Step, u: Id, name: string, hash: Hash)
    requires Awaiting(t, u, name, hash) && !Activates(cfg, t, step, u)
    ensures Awaiting(After(cfg, t, step), u, name, hash)
  {
    var d := Decided(cfg, t, step);
    CallEffect(cfg, t, step);
    if d.Some? {
      Observations(cfg, t, step, d.value, u);
      CommitUsers(cfg, t, step.at, step.gen, d.value);
      CreatesNew(cfg, t, step, d.value);
    }
    hide After, Response, Commit, Decided, Grants;
  }

  lemma {:induction false} RunKeepsAwaiting(cfg: Config, t: Tables, steps: seq<Step>, u: Id, name: string, hash: Hash)
    requires Awaiting(t, u, name, hash) && NeverActivates(cfg, t, steps, u)
    ensures Awaiting(Run(cfg, t, steps), u, name, hash)
    decreases |steps|
  {
    if steps != [] {
      CallKeepsAwaiting(cfg, t, steps[0], u, name, hash);
      hide After, Awaiting, Activates;
      RunKeepsAwaiting(cfg, After(cfg, t, steps[0]), steps[1..], u, name, hash);
    }
  }

  lemma ActivationConfirms(cfg: Config, t: Tables, step: Step, u: Id)
    requires Activates(cfg, t, step, u)
    ensures var t' := After(cfg, t, step);
            && u in t.users && u in t'.users && t'.users[u].isActive && !t'.users[u].requiresConfirmation
            && t'.users[u].username == t.users[u].username && t'.users[u].password == t.users[u].password
            && t.users[u].requiresConfirmation
  {
    var d := Decided(cfg, t, step);
    CallEffect(cfg, t, step);
    if d.Some? {
      Observations(cfg, t, step, d.value, u);
      CommitUsers(cfg, t, step.at, step.gen, d.value);
    }
    hide After, Response, Commit, Decided, NamedBy;
  }

  /** After the first completion Login works with exactly the password the first Register gave, whatever
      passwords later calls registered the name with. */
  lemma FirstPasswordCounts(cfg: Config, t: Tables, u: Id, name: string, salt: nat, password: string,
                            steps: seq<Step>, completion: Step, login: Step)
    requires Sound(t) && Awaiting(t, u, name, Argon2id(salt, password)) && NeverActivates(cfg, t, steps, u)
    requires Activates(cfg, Run(cfg, t, steps), completion, u)
    requires var t1 := After(cfg, Run(cfg, t, steps), completion);
             login.request.Login? && login.request.name == name &&
             login.gen.access !in t1.access && login.gen.refresh !in t1.refresh
    ensures var t1 := After(cfg, Run(cfg, t, steps), completion);
            Response(cfg, t1, login).LoggedIn? <==> login.request.password == password
  {
    var t0 := Run(cfg, t, steps);
    var t1 := After(cfg, t0, completion);
    RunKeepsAwaiting(cfg, t, steps, u, name, Argon2id(salt, password));
    ActivationConfirms(cfg, t0, completion, u);
    RunKeepsSound(cfg, t, steps);
    CallKeepsSound(cfg, t0, completion.at, completion.gen, completion.request);
    hide Sound, After, Response, Activates;
    assert UniqueNames(t1) by { SoundNames(t1); }
    LoginOutcome(cfg, t1, login, u);
  }

  lemma SoundNames(t: Tables)
    requires Sound(t)
    ensures UniqueNames(t)
  {
  }

  /** Confirmed for good: a known identifier that is not awaiting confirmation never will be. */
  lemma {:induction false} StaysConfirmed(cfg: Config, t: Tables, issued: set<Id>, steps: seq<Step>, u: Id)
    requires !Unconfirmed(t, u) && u in issued && Fresh(issued, steps)
    ensures !Unconfirmed(Run(cfg, t, steps), u)
    decreases |steps|
  {
    if steps != [] {
      CallConfirms(cfg, t, steps[0], u);
      assert steps[0].gen.user in Ids(steps[0].gen);
      hide After, Unconfirmed;
      StaysConfirmed(cfg, After(cfg, t, steps[0]), issued + Ids(steps[0].gen), steps[1..], u);
    }
  }

  lemma CallConfirms(cfg: Config, t: Tables, step: Step, u: Id)
    requires !Unconfirmed(t, u) && u != step.gen.user
    ensures !Unconfirmed(After(cfg, t, step), u)
  {
    var d := Decided(cfg, t, step);
    CallEffect(cfg, t, step);
    if d.Some? { CommitUsers(cfg, t, step.at, step.gen, d.value); }
    hide After, Response, Commit, Decided, Justified;
  }

  /** The user a confirmation token of the table belongs to. */
  ghost predicate ConfirmationOf(t: Tables, k: Id, u: Id) {
    k in t.confirmations && t.confirmations[k].userId == u
  }

  lemma ConfirmedTokenIsIdle(cfg: Config, t: Tables, step: Step, u: Id)
    requires step.request.CompleteRegister? && ConfirmationOf(t, step.request.token, u) && !Unconfirmed(t, u)
    ensures After(cfg, t, step) == t
    ensures Response(cfg, t, step) == Skipped || Response(cfg, t, step) == Failed(TokenNotFound) || u !in t.users
  {
  }

  /** Once a user is confirmed, every other outstanding confirmation token of it changes nothing thereafter,
      even after the user was deactivated. */
  lemma ActivatedAtMostOnce(cfg: Config, t: Tables, issued: set<Id>, completion: Step, steps: seq<Step>, again: Step,
                            u: Id)
    requires Sound(t) && t.users.Keys <= issued && Fresh(issued, [completion] + steps)
    requires Activates(cfg, t, completion, u)
    requires again.request.CompleteRegister?
    requires ConfirmationOf(Run(cfg, After(cfg, t, completion), steps), again.request.token, u)
    ensures var t' := Run(cfg, After(cfg, t, completion), steps);
            After(cfg, t', again) == t' && Response(cfg, t', again) in {Skipped, Failed(TokenNotFound)}
  {
    var t1 := After(cfg, t, completion);
    var t2 := Run(cfg, t1, steps);
    ActivationConfirms(cfg, t, completion, u);
    assert ([completion] + steps)[1..] == steps;
    StaysConfirmed(cfg, t1, issued + Ids(completion.gen), steps, u);
    CallKeepsSound(cfg, t, completion.at, completion.gen, completion.request);
    RunKeepsSound(cfg, t1, steps);
    ConfirmedTokenIsIdle(cfg, t2, again, u);
    hide After, Response, Activates, UniqueNames, SessionsConfirmed;
  }

  // ---- Password reset

  /** An active user of the given name with some password. */
  ghost predicate Usable(t: Tables, u: Id, name: string) {
    NamedBy(t, name, u) && t.users[u].isActive && t.users[u].password.Some?
  }

  /** Neither deletes nor deactivates the user. */
  ghost predicate Spares(cfg: Config, t: Tables, steps: seq<Step>, u: Id)
    decreases |steps|
  {
    steps == [] || (steps[0].request != Deactivate(u) && !Deletes(cfg, t, steps[0], u) &&
                    Spares(cfg, After(cfg, t, steps[0]), steps[1..], u))
  }

  ghost predicate ResetTokenOf(t: Tables, k: Id, u: Id, until: Time) {
    k in t.resets && t.resets[k].userId == u && t.resets[k].validUntil >= until
  }

  lemma CallSpares(cfg: Config, t: Tables, step: Step, u: Id, name: string, k: Id, until: Time)
    requires Usable(t, u, name) && ResetTokenOf(t, k, u, until)
    requires step.request != Deactivate(u) && !Deletes(cfg, t, step, u)
    ensures Usable(After(cfg, t, step), u, name) && ResetTokenOf(After(cfg, t, step), k, u, until)
  {
    var d := Decided(cfg, t, step);
    CallEffect(cfg, t, step);
    if d.Some? {
      Observations(cfg, t, step, d.value, u);
      CommitUsers(cfg, t, step.at, step.gen, d.value);
      CreatesNew(cfg, t, step, d.value);
      CommitResets(cfg, t, step.at, step.gen, d.value);
    }
    hide After, Response, Commit, Decided;
  }

  lemma CommitResets(cfg: Config, t: Tables, now: Time, gen: Gen, p: Pending)
    requires Committed(Commit(cfg, t, now, gen, p).1)
    ensures forall k :: k in t.resets && (p.RemoveUser? ==> t.resets[k].userId != p.user) ==>
              k in Commit(cfg, t, now, gen, p).0.resets && Commit(cfg, t, now, gen, p).0.resets[k] == t.resets[k]
  {
    if p.IssueReset? || p.CreateUser? || p.AddConfirmation? {
      hide Authenticate, NamedBy;
    } else {
      CommitTokens(cfg, t, now, gen, p);
      hide Commit;
    }
  }

  lemma {:induction false} RunSpares(cfg: Config, t: Tables, steps: seq<Step>, u: Id, name: string, k: Id, until: Time)
    requires Usable(t, u, name) && ResetTokenOf(t, k, u, until) && Spares(cfg, t, steps, u)
    ensures Usable(Run(cfg, t, steps), u, name) && ResetTokenOf(Run(cfg, t, steps), k, u, until)
    decreases |steps|
  {
    if steps != [] {
      CallSpares(cfg, t, steps[0], u, name, k, until);
      hide After, Usable, ResetTokenOf, Deletes;
      RunSpares(cfg, After(cfg, t, steps[0]), steps[1..], u, name, k, until);
    }
  }

  /** A reset token handed out at `init.at`, new or reused, is good for the validity less the reuse window. */
  lemma ResetTokenHandedOut(cfg: Config, t: Tables, init: Step, k: Id, u: Id)
    requires init.request.InitPasswordReset? && Response(cfg, t, init) == ResetStarted(Some(k))
    requires UserByName(t, init.request.name) == Some(u)
    requires forall j :: j in t.resets ==> t.resets[j].validUntil == t.resets[j].createdAt + cfg.resetValidity
    ensures var t' := After(cfg, t, init);
            Usable(t', u, init.request.name) &&
              ResetTokenOf(t', k, u, init.at + cfg.resetValidity - Max(cfg.resetReuse, 0))
  {
  }

  lemma ResetAccepted(cfg: Config, t: Tables, reset: Step, k: Id, u: Id, name: string, until: Time)
    requires Usable(t, u, name) && ResetTokenOf(t, k, u, until) && reset.at <= until
    requires reset.request.ResetPassword? && reset.request.token == k
    requires reset.gen.access !in t.access && reset.gen.refresh !in t.refresh
    ensures Changes(cfg, t, reset, u)
    ensures var t' := After(cfg, t, reset);
            Usable(t', u, name) && t'.users[u].password == Some(Argon2id(reset.request.salt, reset.request.newPassword))
  {
    var p := ChangePassword(u, Argon2id(reset.request.salt, reset.request.newPassword), ToCopy(t.users[u]));
    assert Read(cfg, t, reset.at, reset.request) == Proceed(p);
    ChangeCommits(cfg, t, reset.at, reset.gen, p);
    CallEffect(cfg, t, reset);
    Observations(cfg, t, reset, p, u);
    CommitUsers(cfg, t, reset.at, reset.gen, p);
    hide After, Response, Commit, Read;
  }

  lemma ChangeCommits(cfg: Config, t: Tables, now: Time, gen: Gen, p: Pending)
    requires p.ChangePassword? && p.user in t.users && gen.access !in t.access && gen.refresh !in t.refresh
    ensures Committed(Commit(cfg, t, now, gen, p).1)
  {
  }

  /** A reset token is not used up: accepted once, it is accepted again after any run that spares the user, up to the
      same last instant, and sets yet another password. */
  lemma ResetAcceptedAgain(cfg: Config, t: Tables, first: Step, steps: seq<Step>, again: Step, k: Id, u: Id,
                           name: string, until: Time)
    requires Usable(t, u, name) && ResetTokenOf(t, k, u, until) && first.at <= until && again.at <= until
    requires first.request.ResetPassword? && again.request.ResetPassword?
    requires first.request.token == again.request.token == k
    requires first.gen.access !in t.access && first.gen.refresh !in t.refresh
    requires Spares(cfg, After(cfg, t, first), steps, u)
    requires var t1 := Run(cfg, After(cfg, t, first), steps);
             again.gen.access !in t1.access && again.gen.refresh !in t1.refresh
    ensures var t1 := Run(cfg, After(cfg, t, first), steps);
            Changes(cfg, t, first, u) && Changes(cfg, t1, again, u) &&
            var users := After(cfg, t1, again).users;
            u in users && users[u].password == Some(Argon2id(again.request.salt, again.request.newPassword))
  {
    var t1 := After(cfg, t, first);
    assert !Deletes(cfg, t, first, u);
    ResetAccepted(cfg, t, first, k, u, name, until);
    CallSpares(cfg, t, first, u, name, k, until);
    hide After, ResetTokenOf, Changes, Deletes;
    RunSpares(cfg, t1, steps, u, name, k, until);
    hide Spares;
    ResetAccepted(cfg, Run(cfg, t1, steps), again, k, u, name, until);
  }

  /** The reset round trip: a token that InitPasswordReset returned at time T is accepted by ResetPassword at any time
      up to T + validity - max(reuse, 0), after any run that spares the user, and then exactly the new
      password logs in. */
  lemma ResetRoundTrip(cfg: Config, t: Tables, init: Step, k: Id, u: Id, steps: seq<Step>, reset: Step, login: Step)
    requires Sound(t)
    requires forall j :: j in t.resets ==> t.resets[j].validUntil == t.resets[j].createdAt + cfg.resetValidity
    requires init.request.InitPasswordReset? && Response(cfg, t, init) == ResetStarted(Some(k))
    requires UserByName(t, init.request.name) == Some(u)
    requires Spares(cfg, After(cfg, t, init), steps, u)
    requires reset.request.ResetPassword? && reset.request.token == k
    requires reset.at <= init.at + cfg.resetValidity - Max(cfg.resetReuse, 0)
    requires login.request.Login? && login.request.name == init.request.name
    requires var t1 := Run(cfg, After(cfg, t, init), steps);
             reset.gen.access !in t1.access && reset.gen.refresh !in t1.refresh
    requires var t2 := After(cfg, Run(cfg, After(cfg, t, init), steps), reset);
             login.gen.access !in t2.access && login.gen.refresh !in t2.refresh
    ensures var t1 := Run(cfg, After(cfg, t, init), steps);
            && Response(cfg, t1, reset).LoggedIn?
            && (Response(cfg, After(cfg, t1, reset), login).LoggedIn? <==>
                login.request.password == reset.request.newPassword)
  {
    var name, until := init.request.name, init.at + cfg.resetValidity - Max(cfg.resetReuse, 0);
    var t0 := After(cfg, t, init);
    var t1 := Run(cfg, t0, steps);
    var t2 := After(cfg, t1, reset);
    ResetTokenHandedOut(cfg, t, init, k, u);
    RunSpares(cfg, t0, steps, u, name, k, until);
    ResetAccepted(cfg, t1, reset, k, u, name, until);
    CallKeepsSound(cfg, t, init.at, init.gen, init.request);
    RunKeepsSound(cfg, t0, steps);
    CallKeepsSound(cfg, t1, reset.at, reset.gen, reset.request);
    hide Sound, After, Response, UserByName, NamedBy, Run, Spares;
    SoundNames(t2);
    LoginOutcome(cfg, t2, login, u);
  }
}
