/** When exactly one call of each operation succeeds, and what it answers otherwise; and, over runs, that what a
    logout or a deletion has taken away stays refused. */
module Outcomes {
  import opened Common
  import opened Schema
  import opened Protocol
  import opened Consistency
  import opened Effects
  import opened Sessions

  // Each of these lemmas says of one kind of call which answer is given when, in terms of the rows before it, and what
  // all tables are afterwards. A database error without a fault means that a generated identifier was taken, or that
  // rows of other tables hold on to a user.

  /** Refresh succeeds exactly for an existing token of an active user; the token is replaced by the new pair. */
  lemma RefreshOutcome(cfg: Config, t: Tables, step: Step, k: Id)
    requires Sound(t) && step.request == Refresh(k)
    ensures var t', o := After(cfg, t, step), Response(cfg, t, step);
            && (o.LoggedIn? || o.Failed?)
            && (o == Failed(Unauthorized) <==> k !in t.refresh)
            && (k !in t.refresh ==> t' == t)
    ensures k in t.refresh ==>
              var t', o, u := After(cfg, t, step), Response(cfg, t, step), t.refresh[k].userId;
              var free := step.gen.access !in t.access && (step.gen.refresh !in t.refresh || step.gen.refresh == k);
              && u in t.users
              && (o.LoggedIn? <==> t.users[u].isActive && free)
              && (o == Failed(UserDeactivated) <==> !t.users[u].isActive)
              && (o == Failed(DatabaseError) <==> t.users[u].isActive && !free)
              && (o.LoggedIn? ==> o == LoggedIn(step.gen.access, step.gen.refresh, cfg.accessValidity))
              && t' == if !o.LoggedIn? then t
                       else t.(users := t.users[u := t.users[u].(lastAuthenticatedAt := Some(step.at),
                                                                 updatedAt := step.at)],
                               access := t.access[o.accessToken := Token(u, step.at, step.at + cfg.accessValidity)],
                               refresh := (t.refresh - {k})[o.refreshToken := RefreshToken(u, step.at)])
  {
    hide UniqueNames, SessionsConfirmed, Commit;
    if k in t.refresh {
      var p := Rotate(t.refresh[k].userId, k, ToCopy(t.users[t.refresh[k].userId]));
      SessionCommits(cfg, t, step.at, step.gen, p);
      if Committed(Commit(cfg, t, step.at, step.gen, p).1) {
        SessionTables(cfg, t, step.at, step.gen, p);
        CommitSessions(cfg, t, step.at, step.gen, p);
      }
    }
  }

  /** What is left when a password change has been accepted: the new hash, and of the user's sessions the returned
      pair only. */
  ghost predicate PasswordChanged(t: Tables, t': Tables, u: Id, at: Time, hash: Hash, o: Outcome)
    requires u in t.users && o.LoggedIn?
  {
    t' == t.(users := t.users[u := t.users[u].(password := Some(hash), lastAuthenticatedAt := Some(at),
                                               updatedAt := at)],
             access := (map j | j in t.access && t.access[j].userId != u :: t.access[j])
                       [o.accessToken := Token(u, at, at + o.expiresIn)],
             refresh := (map j | j in t.refresh && t.refresh[j].userId != u :: t.refresh[j])
                        [o.refreshToken := RefreshToken(u, at)])
  }

  /** The identifiers generated for a session that replaces all of the user's are not taken by anybody else. */
  predicate FreeFor(t: Tables, u: Id, gen: Gen) {
    && (gen.access in t.access ==> t.access[gen.access].userId == u)
    && (gen.refresh in t.refresh ==> t.refresh[gen.refresh].userId == u)
  }

  lemma ChangeOutcome(cfg: Config, t: Tables, now: Time, gen: Gen, p: Pending)
    requires p.ChangePassword? && p.user in t.users
    ensures var (t', o) := Commit(cfg, t, now, gen, p);
            if FreeFor(t, p.user, gen) then
              o == LoggedIn(gen.access, gen.refresh, cfg.accessValidity) &&
              PasswordChanged(t, t', p.user, now, p.hash, o)
            else t' == t && o == Failed(DatabaseError)
  {
    hide Commit;
    SessionCommits(cfg, t, now, gen, p);
    if Committed(Commit(cfg, t, now, gen, p).1) {
      SessionTables(cfg, t, now, gen, p);
      CommitSessions(cfg, t, now, gen, p);
    }
  }

  /** ResetPassword accepts a token up to and including its last instant, for an active user with a password, and asks
      for no other. */
  lemma ResetOutcome(cfg: Config, t: Tables, step: Step, k: Id, newPassword: string, salt: nat)
    requires Sound(t) && step.request == ResetPassword(k, newPassword, salt)
    ensures var t', o := After(cfg, t, step), Response(cfg, t, step);
            && (o.LoggedIn? || o.Failed?) && (o.Failed? ==> t' == t)
            && (o == Failed(TokenNotFound) <==> k !in t.resets)
    ensures k in t.resets ==>
              var t', o, u := After(cfg, t, step), Response(cfg, t, step), t.resets[k].userId;
              var timely := step.at <= t.resets[k].validUntil;
              u in t.users &&
              var row, free := t.users[u], FreeFor(t, u, step.gen);
              && (o == Failed(TokenExpired) <==> !timely)
              && (o == Failed(UserDeactivated) <==> timely && !row.isActive)
              && (o == Failed(NotLocalUser) <==> timely && row.isActive && row.password.None?)
              && (o == Failed(DatabaseError) <==> timely && row.isActive && row.password.Some? && !free)
              && (o.LoggedIn? <==> timely && row.isActive && row.password.Some? && free)
              && (o.LoggedIn? ==>
                  o == LoggedIn(step.gen.access, step.gen.refresh, cfg.accessValidity) &&
                  PasswordChanged(t, t', u, step.at, Argon2id(salt, newPassword), o))
  {
    hide UniqueNames, SessionsConfirmed, Commit, PasswordChanged;
    if k in t.resets {
      var u := t.resets[k].userId;
      ChangeOutcome(cfg, t, step.at, step.gen, ChangePassword(u, Argon2id(salt, newPassword), ToCopy(t.users[u])));
    }
  }

  /** UpdatePassword succeeds exactly for an active user who gives the current password. Of a hash that does not decode
      it says so, and any other password is unauthorized. */
  lemma UpdateOutcome(cfg: Config, t: Tables, step: Step, u: Id)
    requires step.request.UpdatePassword? && step.request.user == u && u in t.users
    ensures var t', o, row := After(cfg, t, step), Response(cfg, t, step), t.users[u];
            var hashed := row.password.Some? && row.password.value.Argon2id?;
            var right := hashed && row.password.value.password == step.request.current;
            && (o.LoggedIn? || o.Failed?) && (o.Failed? ==> t' == t)
            && (o == Failed(UserDeactivated) <==> !row.isActive)
            && (o == Failed(NotLocalUser) <==> row.isActive && row.password.None?)
            && (o == Failed(HashUndecodable) <==> row.isActive && row.password.Some? && !hashed)
            && (o == Failed(Unauthorized) <==> row.isActive && hashed && !right)
            && (o == Failed(DatabaseError) <==> row.isActive && right && !FreeFor(t, u, step.gen))
            && (o.LoggedIn? <==> row.isActive && right && FreeFor(t, u, step.gen))
            && (o.LoggedIn? ==>
                o == LoggedIn(step.gen.access, step.gen.refresh, cfg.accessValidity) &&
                PasswordChanged(t, t', u, step.at, Argon2id(step.request.salt, step.request.newPassword), o))
  {
    hide Commit, PasswordChanged, FreeFor;
    ChangeOutcome(cfg, t, step.at, step.gen,
                  ChangePassword(u, Argon2id(step.request.salt, step.request.newPassword), ToCopy(t.users[u])));
  }

  /** CompleteRegister accepts a token strictly before its last instant, and activates only a user who awaits it; it
      uses up the token and opens a session. */
  lemma CompletionOutcome(cfg: Config, t: Tables, step: Step, k: Id)
    requires Sound(t) && step.request == CompleteRegister(k)
    ensures var t', o := After(cfg, t, step), Response(cfg, t, step);
            && (o.LoggedIn? || o == Skipped || o.Failed?) && (!o.LoggedIn? ==> t' == t)
            && (o == Failed(TokenNotFound) <==> k !in t.confirmations || t.confirmations[k].validUntil <= step.at)
    ensures k in t.confirmations && step.at < t.confirmations[k].validUntil ==>
              var t', o, u := After(cfg, t, step), Response(cfg, t, step), t.confirmations[k].userId;
              u in t.users &&
              var row, free := t.users[u], step.gen.access !in t.access && step.gen.refresh !in t.refresh;
              && (o == Skipped <==> !row.requiresConfirmation)
              && (o == Failed(DatabaseError) <==> row.requiresConfirmation && !free)
              && (o.LoggedIn? <==> row.requiresConfirmation && free)
              && (o.LoggedIn? ==>
                  o == LoggedIn(step.gen.access, step.gen.refresh, cfg.accessValidity) &&
                  t' == t.(users := t.users[u := row.(isActive := true, requiresConfirmation := false,
                                                      lastAuthenticatedAt := Some(step.at), updatedAt := step.at)],
                           access := t.access[o.accessToken := Token(u, step.at, step.at + cfg.accessValidity)],
                           refresh := t.refresh[o.refreshToken := RefreshToken(u, step.at)],
                           confirmations := t.confirmations - {k}))
  {
    hide UniqueNames, Commit;
    if k in t.confirmations && step.at < t.confirmations[k].validUntil {
      var u := t.confirmations[k].userId;
      assert Unconfirmed(t, u) ==> !t.users[u].isActive;
      var p := Activate(u, k, t.users[u]);
      SessionCommits(cfg, t, step.at, step.gen, p);
      if Committed(Commit(cfg, t, step.at, step.gen, p).1) {
        SessionTables(cfg, t, step.at, step.gen, p);
        CommitSessions(cfg, t, step.at, step.gen, p);
      }
    }
  }

  /** A token of the user that is not expired and younger than the given age. */
  ghost predicate HasRecent(tokens: map<Id, Token>, u: Id, age: Time, now: Time) {
    exists k :: k in tokens && Recent(tokens[k], u, age, now)
  }

  predicate Recent(token: Token, u: Id, age: Time, now: Time) {
    token.userId == u && now - token.createdAt < age && now < token.validUntil
  }

  /** The query for the user's unexpired tokens created after the instant that long ago finds just those. */
  ghost predicate RecentMeans(tokens: map<Id, Token>, u: Id, age: Time, now: Time) {
    && (forall k :: k in RecentTokens(tokens, u, now - age, now) <==> k in tokens && Recent(tokens[k], u, age, now))
    && (RecentTokens(tokens, u, now - age, now) != {} <==> HasRecent(tokens, u, age, now))
  }

  lemma RecentTokensMean(tokens: map<Id, Token>, u: Id, age: Time, now: Time)
    ensures RecentMeans(tokens, u, age, now)
  {
  }

  /** A name that no user has: Login is unauthorized, and InitPasswordReset answers as if nothing were wrong. */
  lemma UnknownName(cfg: Config, t: Tables, step: Step)
    requires step.request.Login? || step.request.InitPasswordReset?
    requires forall v :: v in t.users ==> t.users[v].username != Some(step.request.name)
    ensures Response(cfg, t, step) == if step.request.Login? then Failed(Unauthorized) else ResetStarted(None)
    ensures After(cfg, t, step) == t
  {
  }

  /** InitPasswordReset answers without a token exactly if the named user cannot be helped or the debounce holds it
      back. Otherwise it answers with a token still within the reuse window, if the user has one, else with a new
      one. */
  lemma ResetStartOutcome(cfg: Config, t: Tables, step: Step, u: Id)
    requires UniqueNames(t) && step.request.InitPasswordReset?
    requires u in t.users && t.users[u].username == Some(step.request.name)
    ensures var t', o, row := After(cfg, t, step), Response(cfg, t, step), t.users[u];
            if !row.isActive || row.password.None? ||
               (cfg.resetDebounce > 0 && HasRecent(t.resets, u, cfg.resetDebounce, step.at))
            then o == ResetStarted(None) && t' == t
            else ResetIssued(cfg, t, t', u, step.at, step.gen.reset, o)
  {
    assert NamedBy(t, step.request.name, u);
    assert UserByName(t, step.request.name) == Some(u);
    hide UniqueNames, NamedBy, Commit, ResetIssued, HasRecent;
    RecentTokensMean(t.resets, u, cfg.resetDebounce, step.at);
    IssueOutcome(cfg, t, step.at, step.gen, u);
  }

  /** A token within the reuse window is handed out again, or else a new row is inserted for the user. */
  ghost predicate ResetIssued(cfg: Config, t: Tables, t': Tables, u: Id, at: Time, k: Id, o: Outcome) {
    if HasRecent(t.resets, u, cfg.resetReuse, at) then
      && t' == t && o.ResetStarted? && o.resetToken.Some?
      && o.resetToken.value in t.resets && Recent(t.resets[o.resetToken.value], u, cfg.resetReuse, at)
    else if k in t.resets then o == Failed(DatabaseError) && t' == t
    else
      && o == ResetStarted(Some(k))
      && t' == t.(resets := t.resets[k := Token(u, at, at + cfg.resetValidity)])
  }

  lemma IssueOutcome(cfg: Config, t: Tables, now: Time, gen: Gen, u: Id)
    requires u in t.users
    ensures var (t', o) := Commit(cfg, t, now, gen, IssueReset(u)); ResetIssued(cfg, t, t', u, now, gen.reset, o)
  {
    RecentTokensMean(t.resets, u, cfg.resetReuse, now);
    hide RecentTokens, HasRecent;
  }

  /** Register of a name that is taken is a conflict, unless the user still awaits confirmation: then the call issues
      another token or, within the debounce, none. The password it gives is ignored. */
  lemma RegisterOutcome(cfg: Config, t: Tables, step: Step, u: Id)
    requires Sound(t) && step.request.Register?
    requires u in t.users && t.users[u].username == Some(step.request.name)
    ensures var t', o, k := After(cfg, t, step), Response(cfg, t, step), step.gen.confirmation;
            if !t.users[u].requiresConfirmation then o == Failed(UserAlreadyExists) && t' == t
            else if HasRecent(t.confirmations, u, cfg.confirmationDebounce, step.at) then
              o == Registered(true, None) && t' == t
            else if k in t.confirmations then o == Failed(DatabaseError) && t' == t
            else
              && o == Registered(true, Some(k))
              && t' == t.(confirmations := t.confirmations[k :=
                                                           Token(u, step.at, step.at + cfg.confirmationValidity)])
  {
    assert NamedBy(t, step.request.name, u);
    assert UserByName(t, step.request.name) == Some(u);
    RecentTokensMean(t.confirmations, u, cfg.confirmationDebounce, step.at);
    hide SessionsConfirmed, UniqueNames, NewUser, Authenticate, RecentTokens, HasRecent;
  }

  /** Register of a free name inserts the user, its profile and, if confirmation is required, a token for it, and leaves
      every other row of every table alone. */
  lemma RegisterNewOutcome(cfg: Config, t: Tables, step: Step)
    requires Sound(t) && step.request.Register?
    requires forall v :: v in t.users ==> t.users[v].username != Some(step.request.name)
    ensures var t', o, u, k := After(cfg, t, step), Response(cfg, t, step), step.gen.user, step.gen.confirmation;
            var pending := cfg.requiresConfirmation;
            if u in t.users || (pending && k in t.confirmations) then o == Failed(DatabaseError) && t' == t
            else
              && o == Registered(pending, if pending then Some(k) else None)
              && t' == t.(users := t.users[u := User(Some(step.request.name),
                                                     Some(Argon2id(step.request.salt, step.request.password)),
                                                     !pending, cfg.defaultScopes, Some(step.at), step.at, step.at,
                                                     pending)],
                          profiles := t.profiles[u := Profile(None, step.at)],
                          confirmations :=
                            if pending then
                              t.confirmations[k := Token(u, step.at, step.at + cfg.confirmationValidity)]
                            else t.confirmations)
  {
    assert forall v :: !NamedBy(t, step.request.name, v);
    hide SessionsConfirmed, UniqueNames, Authenticate;
  }

  /** Logout always succeeds and removes the named tokens and nothing else. */
  lemma LogoutOutcome(cfg: Config, t: Tables, step: Step, access: Id, refresh: Option<Id>)
    requires step.request == Logout(access, refresh)
    ensures Response(cfg, t, step) == Done
    ensures After(cfg, t, step) ==
            t.(access := t.access - {access},
               refresh := if refresh.Some? then t.refresh - {refresh.value} else t.refresh)
  {
  }

  /** The two steps of the environment: a deactivation touches one flag of one user, a reference concerns that user only
      and needs it to exist. */
  lemma EnvironmentOutcome(cfg: Config, t: Tables, step: Step, u: Id)
    ensures step.request == Deactivate(u) ==>
              Response(cfg, t, step) == Done &&
              After(cfg, t, step) ==
              if u in t.users then t.(users := t.users[u := t.users[u].(isActive := false)]) else t
    ensures step.request == SetReferenced(u, true) ==>
              if u in t.users then
                Response(cfg, t, step) == Done && After(cfg, t, step) == t.(referenced := t.referenced + {u})
              else Response(cfg, t, step) == Failed(DatabaseError) && After(cfg, t, step) == t
    ensures step.request == SetReferenced(u, false) ==>
              Response(cfg, t, step) == Done && After(cfg, t, step) == t.(referenced := t.referenced - {u})
  {
  }

  /** No call changes a profile row that stays; one that appears is that of the user just registered, and one that goes,
      goes with its user. */
  lemma ProfilesKept(cfg: Config, t: Tables, step: Step)
    requires Sound(t)
    ensures var t' := After(cfg, t, step);
            && (forall v :: v in t.profiles && v in t'.profiles ==> t'.profiles[v] == t.profiles[v])
            && (forall v :: v in t'.profiles && v !in t.profiles ==>
                  step.request.Register? && v == step.gen.user && t'.profiles[v] == Profile(None, step.at))
            && (forall v :: v in t.profiles && v !in t'.profiles ==> v !in t'.users && step.request.DeleteUserAccount?)
            && (t'.referenced == t.referenced || step.request.SetReferenced?)
  {
    CallKeepsSound(cfg, t, step.at, step.gen, step.request);
    CallEffect(cfg, t, step);
    var d := Decided(cfg, t, step);
    if d.Some? { CommitProfiles(cfg, t, step.at, step.gen, d.value); }
    hide After, Response, Commit, Decided, UniqueNames, SessionsConfirmed;
  }

  /** Nothing in the tables mentions the user. */
  ghost predicate Gone(t: Tables, u: Id) {
    && u !in t.users && u !in t.profiles
    && TokensOf(t.access, u) == {} && TokensOf(t.resets, u) == {} && TokensOf(t.confirmations, u) == {}
    && forall k :: k in t.refresh ==> t.refresh[k].userId != u
  }

  /** The rows of everybody but the user are in the one table as in the other. */
  ghost predicate OthersKept(t: Tables, t': Tables, u: Id) {
    && (forall v :: v != u ==> (v in t'.users <==> v in t.users))
    && (forall v :: v != u && v in t.users ==> t'.users[v] == t.users[v])
    && (forall v :: v != u ==> (v in t'.profiles <==> v in t.profiles))
    && (forall v :: v != u && v in t.profiles ==> t'.profiles[v] == t.profiles[v])
    && SameOf(t.access, t'.access, u) && SameOf(t.resets, t'.resets, u) && SameOf(t.confirmations, t'.confirmations, u)
    && (forall k :: k in t'.refresh && t'.refresh[k].userId != u <==> k in t.refresh && t.refresh[k].userId != u)
    && (forall k :: k in t'.refresh && t'.refresh[k].userId != u ==> t'.refresh[k] == t.refresh[k])
  }

  ghost predicate SameOf(tokens: map<Id, Token>, tokens': map<Id, Token>, u: Id) {
    && (forall k :: k in tokens' && tokens'[k].userId != u <==> k in tokens && tokens[k].userId != u)
    && (forall k :: k in tokens' && tokens'[k].userId != u ==> tokens'[k] == tokens[k])
  }

  /** DeleteUserAccount deletes an active user who gives the current password, with everything that belongs to it,
      exactly if no row of another table holds on to the user. Nothing of anybody else is touched. Any other password,
      and a hash that does not decode, is unauthorized. */
  lemma DeletionOutcome(cfg: Config, t: Tables, step: Step, u: Id)
    requires Sound(t) && step.request.DeleteUserAccount? && step.request.user == u && u in t.users
    ensures var t', o, row := After(cfg, t, step), Response(cfg, t, step), t.users[u];
            var right := row.password.Some? && row.password.value.Argon2id? &&
                         row.password.value.password == step.request.current;
            && (o == Done || o.Failed?)
            && (o == Failed(UserDeactivated) <==> !row.isActive)
            && (o == Failed(NotLocalUser) <==> row.isActive && row.password.None?)
            && (o == Failed(Unauthorized) <==> row.isActive && row.password.Some? && !right)
            && (o == Failed(DatabaseError) <==> row.isActive && right && u in t.referenced)
            && (o == Done <==> row.isActive && right && u !in t.referenced)
            && (if o == Done then Gone(t', u) else t' == t)
            && t'.referenced == t.referenced
            && OthersKept(t, t', u)
  {
    DeletionIsClean(t, u);
    assert step.request.DeleteUserAccount?;
    hide UniqueNames, SessionsConfirmed, DeleteUser, Gone, OthersKept;
  }

  lemma DeletionIsClean(t: Tables, u: Id)
    requires u in t.users && Consistent(t)
    ensures DeleteUser(t, u).Some? <==> u !in t.referenced
    ensures DeleteUser(t, u).Some? ==> Gone(DeleteUser(t, u).value, u) && OthersKept(t, DeleteUser(t, u).value, u)
    ensures OthersKept(t, t, u)
  {
    hide UniqueNames, OwnersExist, RefreshOwnersExist;
    DeletedAreOthers(t.access, u);
    DeletedAreOthers(t.resets, u);
    DeletedAreOthers(t.confirmations, u);
    hide Without, SameOf, TokensOf;
  }

  lemma DeletedAreOthers(tokens: map<Id, Token>, u: Id)
    ensures SameOf(tokens, Without(tokens, u), u) && SameOf(tokens, tokens, u) && TokensOf(Without(tokens, u), u) == {}
  {
  }

  /** A user that owns an organization, say, cannot delete its account, though the password is right: registered and
      referenced, it gets a database error and stays. */
  lemma ReferencedUserStays(cfg: Config, register: Step, reference: Step, deletion: Step)
    requires !cfg.requiresConfirmation
    requires register.request.Register? && reference.request == SetReferenced(register.gen.user, true)
    requires deletion.request == DeleteUserAccount(register.gen.user, register.request.password)
    ensures var t := Run(cfg, EMPTY_TABLES, [register, reference]);
            && register.gen.user in t.users
            && Response(cfg, t, deletion) == Failed(DatabaseError) && After(cfg, t, deletion) == t
  {
    var t1 := After(cfg, EMPTY_TABLES, register);
    assert Sound(EMPTY_TABLES);
    RegisterNewOutcome(cfg, EMPTY_TABLES, register);
    CallKeepsSound(cfg, EMPTY_TABLES, register.at, register.gen, register.request);
    CallKeepsSound(cfg, t1, reference.at, reference.gen, reference.request);
    var t2 := After(cfg, t1, reference);
    assert t2 == t1.(referenced := t1.referenced + {register.gen.user});
    assert [register, reference][1..] == [reference] && [reference][1..] == [];
    hide Sound, After, Response;
    assert Run(cfg, t1, [reference]) == Run(cfg, t2, []) == t2;
    DeletionOutcome(cfg, t2, deletion, register.gen.user);
  }

  // ---- Refused ever after

  /** No call brings a token into a table but under an identifier generated for it. */
  lemma TokensAreNew(cfg: Config, t: Tables, step: Step)
    ensures var t' := After(cfg, t, step);
            && t'.access.Keys <= t.access.Keys + Ids(step.gen) && t'.refresh.Keys <= t.refresh.Keys + Ids(step.gen)
            && t'.resets.Keys <= t.resets.Keys + Ids(step.gen)
            && t'.confirmations.Keys <= t.confirmations.Keys + Ids(step.gen)
  {
    CallEffect(cfg, t, step);
    var d := Decided(cfg, t, step);
    if d.Some? { CommittedTokensAreNew(cfg, t, step.at, step.gen, d.value); }
    hide After, Response, Commit, Decided;
  }

  lemma CommittedTokensAreNew(cfg: Config, t: Tables, now: Time, gen: Gen, p: Pending)
    requires Committed(Commit(cfg, t, now, gen, p).1)
    ensures var t' := Commit(cfg, t, now, gen, p).0;
            && t'.access.Keys <= t.access.Keys + Ids(gen) && t'.refresh.Keys <= t.refresh.Keys + Ids(gen)
            && t'.resets.Keys <= t.resets.Keys + Ids(gen) && t'.confirmations.Keys <= t.confirmations.Keys + Ids(gen)
  {
    if OpensSession(p) {
      CommitSessions(cfg, t, now, gen, p);
      CommitTokens(cfg, t, now, gen, p);
    } else {
      if p.RemoveUser? && p.user !in t.users {
        CommitTokens(cfg, t, now, gen, p);
      } else {
        CommitOther(cfg, t, now, gen, p);
      }
      OtherTokensAreNew(cfg, t, now, gen, p);
    }
    hide Commit;
  }

  lemma OtherTokensAreNew(cfg: Config, t: Tables, now: Time, gen: Gen, p: Pending)
    requires !OpensSession(p)
    ensures var t' := Commit(cfg, t, now, gen, p).0;
            t'.resets.Keys <= t.resets.Keys + Ids(gen) && t'.confirmations.Keys <= t.confirmations.Keys + Ids(gen)
  {
    hide Authenticate, ActivateAndOpen, ChangeAndOpen, NamedBy, RecentTokens;
  }

  /** Tokens that are gone stay gone, in all four tables. */
  lemma {:induction false} TokensGoneForGood(cfg: Config, t: Tables, issued: set<Id>, steps: seq<Step>, k: Id)
    requires k in issued && Fresh(issued, steps)
    ensures var t' := Run(cfg, t, steps);
            && (k !in t.access ==> k !in t'.access) && (k !in t.refresh ==> k !in t'.refresh)
            && (k !in t.resets ==> k !in t'.resets) && (k !in t.confirmations ==> k !in t'.confirmations)
    decreases |steps|
  {
    if steps != [] {
      TokensAreNew(cfg, t, steps[0]);
      hide After;
      TokensGoneForGood(cfg, After(cfg, t, steps[0]), issued + Ids(steps[0].gen), steps[1..], k);
    }
  }

  /** A logout is final: whatever runs in between, the access token it named is gone and Refresh refuses the other. */
  lemma LoggedOutForGood(cfg: Config, t: Tables, issued: set<Id>, logout: Step, steps: seq<Step>, again: Step, a: Id,
                         k: Id)
    requires logout.request == Logout(a, Some(k)) && {a, k} <= issued && Fresh(issued, [logout] + steps)
    requires again.request == Refresh(k)
    ensures var t' := Run(cfg, After(cfg, t, logout), steps);
            a !in t'.access && Response(cfg, t', again) == Failed(Unauthorized) && After(cfg, t', again) == t'
  {
    var t1 := After(cfg, t, logout);
    LogoutOutcome(cfg, t, logout, a, Some(k));
    assert ([logout] + steps)[1..] == steps;
    TokensGoneForGood(cfg, t1, issued + Ids(logout.gen), steps, a);
    TokensGoneForGood(cfg, t1, issued + Ids(logout.gen), steps, k);
    hide After, Response;
    RefusesUnknown(cfg, Run(cfg, t1, steps), again, k);
  }

  /** The request presents a token of the user. */
  predicate Presents(t: Tables, request: Request, u: Id) {
    match request
    case Refresh(k) => k in LiveRefresh(t, u)
    case ResetPassword(k, _, _) => k in TokensOf(t.resets, u)
    case CompleteRegister(k) => k in TokensOf(t.confirmations, u)
    case _ => false
  }

  /** So is a deletion: every token the user had at the time is refused ever after, without effect. */
  lemma DeletedForGood(cfg: Config, t: Tables, issued: set<Id>, deletion: Step, steps: seq<Step>, again: Step, u: Id)
    requires Sound(t) && u in t.users && Deletes(cfg, t, deletion, u)
    requires t.refresh.Keys + t.resets.Keys + t.confirmations.Keys <= issued && Fresh(issued, [deletion] + steps)
    requires Presents(t, again.request, u)
    ensures var t' := Run(cfg, After(cfg, t, deletion), steps);
            && Response(cfg, t', again) == Failed(if again.request.Refresh? then Unauthorized else TokenNotFound)
            && After(cfg, t', again) == t'
  {
    var t1 := After(cfg, t, deletion);
    var k := again.request.token;
    DeletionOutcome(cfg, t, deletion, u);
    DeletedTokensGone(t, t1, again.request, u);
    assert ([deletion] + steps)[1..] == steps;
    TokensGoneForGood(cfg, t1, issued + Ids(deletion.gen), steps, k);
    hide After, Response, Gone, OthersKept, Sound;
    RefusesMissing(cfg, Run(cfg, t1, steps), again);
  }

  predicate Missing(t: Tables, request: Request) {
    match request
    case Refresh(k) => k !in t.refresh
    case ResetPassword(k, _, _) => k !in t.resets
    case CompleteRegister(k) => k !in t.confirmations
    case _ => false
  }

  lemma DeletedTokensGone(t: Tables, t': Tables, request: Request, u: Id)
    requires Presents(t, request, u) && Gone(t', u) && OthersKept(t, t', u)
    ensures Missing(t', request)
  {
    if request.ResetPassword? { assert request.token !in TokensOf(t'.resets, u); }
    if request.CompleteRegister? { assert request.token !in TokensOf(t'.confirmations, u); }
  }

  lemma RefusesMissing(cfg: Config, t: Tables, step: Step)
    requires Missing(t, step.request)
    ensures Response(cfg, t, step) == Failed(if step.request.Refresh? then Unauthorized else TokenNotFound)
    ensures After(cfg, t, step) == t
  {
  }
}
