/** Refresh tokens in atomic runs: how many a user owns, how they descend from one another, and
    that a used one is gone for good. */
module Sessions {
  import opened Common
  import opened Schema
  import opened Protocol
  import opened Consistency
  import opened Effects

  function LiveRefresh(t: Tables, u: Id): set<Id> {
    set k | k in t.refresh && t.refresh[k].userId == u
  }

  // ---- What a caller can observe of one call

  /** The call returned a token pair that belongs to `u`. */
  ghost predicate Grants(cfg: Config, t: Tables, step: Step, u: Id) {
    var o := Response(cfg, t, step);
    o.LoggedIn? && o.refreshToken in LiveRefresh(After(cfg, t, step), u)
  }

  /** A login, or a confirmation that activated the user. */
  ghost predicate Opens(cfg: Config, t: Tables, step: Step, u: Id) {
    (step.request.Login? || step.request.CompleteRegister?) && Grants(cfg, t, step, u)
  }

  ghost predicate Rotates(cfg: Config, t: Tables, step: Step, u: Id) {
    step.request.Refresh? && Grants(cfg, t, step, u)
  }

  ghost predicate Changes(cfg: Config, t: Tables, step: Step, u: Id) {
    (step.request.UpdatePassword? || step.request.ResetPassword?) && Grants(cfg, t, step, u)
  }

  /** A logout that names one of the user's existing refresh tokens. */
  predicate Closes(t: Tables, step: Step, u: Id) {
    step.request.Logout? && step.request.refresh.Some? && step.request.refresh.value in LiveRefresh(t, u)
  }

  ghost predicate Deletes(cfg: Config, t: Tables, step: Step, u: Id) {
    step.request.DeleteUserAccount? && step.request.user == u && Response(cfg, t, step).Done?
  }

  // ---- The effect of one call on a user's refresh tokens

  function LiveAfterCommit(live: set<Id>, p: Pending, gen: Gen, u: Id): set<Id> {
    match p
    case OpenSession(v, _) => if u == v then live + {gen.refresh} else live
    case Activate(v, _, _) => if u == v then live + {gen.refresh} else live
    case Rotate(v, k, _) => if u == v then live - {k} + {gen.refresh} else live
    case ChangePassword(v, _, _) => if u == v then {gen.refresh} else live
    case CloseSession(_, k) => if k.Some? then live - {k.value} else live
    case RemoveUser(v) => if u == v then {} else live
    case _ => live
  }

  /** A committed transaction does that to the user's refresh tokens on any tables, whenever it was decided on. */
  lemma CommitLive(cfg: Config, t: Tables, now: Time, gen: Gen, p: Pending, u: Id)
    requires Committed(Commit(cfg, t, now, gen, p).1)
    requires p.Rotate? && p.token in t.refresh ==> t.refresh[p.token].userId == p.user
    requires p.RemoveUser? && p.user == u ==> u in t.users
    ensures var t' := Commit(cfg, t, now, gen, p).0;
            LiveRefresh(t', u) == LiveAfterCommit(LiveRefresh(t, u), p, gen, u)
  {
    if OpensSession(p) {
      CommitSessions(cfg, t, now, gen, p);
    } else if p.RemoveUser? && p.user !in t.users {
      CommitTokens(cfg, t, now, gen, p);
    } else {
      CommitOther(cfg, t, now, gen, p);
    }
    hide Commit;
  }

  lemma CommittedLive(cfg: Config, t: Tables, step: Step, p: Pending, u: Id)
    requires Decided(cfg, t, step) == Some(p)
    ensures LiveRefresh(After(cfg, t, step), u) == LiveAfterCommit(LiveRefresh(t, u), p, step.gen, u)
    ensures Response(cfg, t, step).LoggedIn? <==> OpensSession(p)
    ensures OpensSession(p) ==>
              && Response(cfg, t, step).refreshToken == step.gen.refresh
              && (step.gen.refresh in LiveRefresh(After(cfg, t, step), u) <==> p.user == u)
              && (p.user == u && !p.ChangePassword? ==>
                  step.gen.refresh !in (if p.Rotate? then LiveRefresh(t, u) - {p.token} else LiveRefresh(t, u)))
  {
    CallEffect(cfg, t, step);
    CommitLive(cfg, t, step.at, step.gen, p, u);
    if OpensSession(p) {
      CommitSessions(cfg, t, step.at, step.gen, p);
    } else {
      CommitOther(cfg, t, step.at, step.gen, p);
    }
    hide After, Response, Commit, Decided;
  }

  /** The observations about a call that committed `p`, in terms of `p`. */
  lemma Observations(cfg: Config, t: Tables, step: Step, p: Pending, u: Id)
    requires Decided(cfg, t, step) == Some(p)
    ensures Opens(cfg, t, step, u) <==> (p.OpenSession? || p.Activate?) && p.user == u
    ensures Rotates(cfg, t, step, u) <==> p.Rotate? && p.user == u
    ensures Changes(cfg, t, step, u) <==> p.ChangePassword? && p.user == u
    ensures Closes(t, step, u) <==> p.CloseSession? && p.refresh.Some? && p.refresh.value in LiveRefresh(t, u)
    ensures Deletes(cfg, t, step, u) <==> p.RemoveUser? && p.user == u
    ensures p.Rotate? ==> step.request == Refresh(p.token) && p.token in LiveRefresh(t, p.user)
  {
    CommittedLive(cfg, t, step, p, u);
    CallEffect(cfg, t, step);
    if p.RemoveUser? { RemovalReplies(cfg, t, step, p); }
    hide After, Response, Commit, Decided;
  }

  lemma RemovalReplies(cfg: Config, t: Tables, step: Step, p: Pending)
    requires Decided(cfg, t, step) == Some(p) && p.RemoveUser?
    ensures Response(cfg, t, step).Done?
  {
  }

  lemma RemovalCounts(live: set<Id>, k: Id)
    ensures |live - {k}| + (if k in live then 1 else 0) == |live|
  {
    if k !in live { assert live - {k} == live; }
  }

  lemma ReplacementCounts(live: set<Id>, k: Id, replacement: Id)
    requires replacement !in live - {k}
    ensures |live - {k} + {replacement}| == |live| + (if k in live then 0 else 1)
  {
    RemovalCounts(live, k);
    assert |live - {k} + {replacement}| == |live - {k}| + 1;
  }

  lemma SetCounts(live: set<Id>, p: Pending, gen: Gen, u: Id)
    requires OpensSession(p) && p.user == u && !p.ChangePassword? ==>
               gen.refresh !in (if p.Rotate? then live - {p.token} else live)
    requires !(p.ChangePassword? && p.user == u) && !(p.RemoveUser? && p.user == u)
    ensures |LiveAfterCommit(live, p, gen, u)| +
            (if p.CloseSession? && p.refresh.Some? && p.refresh.value in live then 1 else 0)
            == |live| + (if (p.OpenSession? || p.Activate?) && p.user == u then 1 else 0)
                      + (if p.Rotate? && p.user == u && p.token !in live then 1 else 0)
  {
    var after := LiveAfterCommit(live, p, gen, u);
    if p.CloseSession? && p.refresh.Some? {
      assert after == live - {p.refresh.value};
      hide *;
      RemovalCounts(live, p.refresh.value);
    } else if p.Rotate? && p.user == u {
      assert after == live - {p.token} + {gen.refresh};
      hide *;
      ReplacementCounts(live, p.token, gen.refresh);
    } else {
      assert after == if OpensSession(p) && p.user == u then live + {gen.refresh} else live;
      hide LiveAfterCommit;
    }
  }

  /** Counted on any tables: a session opened adds one refresh token, a logout drops a live one it names, and a refresh
      adds one if the token it was given is gone. */
  lemma CommitCounts(cfg: Config, t: Tables, now: Time, gen: Gen, p: Pending, u: Id)
    requires Committed(Commit(cfg, t, now, gen, p).1)
    requires p.Rotate? && p.token in t.refresh ==> t.refresh[p.token].userId == p.user
    requires !(p.ChangePassword? && p.user == u) && !(p.RemoveUser? && p.user == u)
    ensures var live := LiveRefresh(t, u);
            |LiveRefresh(Commit(cfg, t, now, gen, p).0, u)| +
            (if p.CloseSession? && p.refresh.Some? && p.refresh.value in live then 1 else 0)
            == |live| + (if (p.OpenSession? || p.Activate?) && p.user == u then 1 else 0)
                      + (if p.Rotate? && p.user == u && p.token !in live then 1 else 0)
  {
    CommitLive(cfg, t, now, gen, p, u);
    if OpensSession(p) { CommitSessions(cfg, t, now, gen, p); }
    hide Commit, LiveAfterCommit;
    SetCounts(LiveRefresh(t, u), p, gen, u);
  }

  /** A password change leaves the user with the one refresh token it returns. Any other call adds one for a login
      or an activation, drops one for a logout naming it, and trades one for one in a refresh. */
  lemma CallCounts(cfg: Config, t: Tables, step: Step, u: Id)
    ensures Changes(cfg, t, step, u) ==> LiveRefresh(After(cfg, t, step), u) == {Response(cfg, t, step).refreshToken}
    ensures Deletes(cfg, t, step, u) ==> LiveRefresh(After(cfg, t, step), u) == {}
    ensures !Changes(cfg, t, step, u) && !Deletes(cfg, t, step, u) ==>
              |LiveRefresh(After(cfg, t, step), u)| + (if Closes(t, step, u) then 1 else 0)
              == |LiveRefresh(t, u)| + (if Opens(cfg, t, step, u) then 1 else 0)
  {
    var d := Decided(cfg, t, step);
    if d.Some? {
      CommittedLive(cfg, t, step, d.value, u);
      Observations(cfg, t, step, d.value, u);
      hide *;
      var p := d.value;
      if !(p.ChangePassword? && p.user == u) && !(p.RemoveUser? && p.user == u) {
        SetCounts(LiveRefresh(t, u), p, step.gen, u);
      }
    } else {
      Idle(cfg, t, step, u);
      hide *;
    }
  }

  lemma Idle(cfg: Config, t: Tables, step: Step, u: Id)
    requires Decided(cfg, t, step) == None
    ensures After(cfg, t, step) == t
    ensures !Grants(cfg, t, step, u) && !Closes(t, step, u) && !Deletes(cfg, t, step, u)
  {
    CallEffect(cfg, t, step);
    hide After, Response;
  }

  // ---- Conservation over runs

  /** No password change and no deletion of the user in the run. */
  ghost predicate Undisturbed(cfg: Config, t: Tables, steps: seq<Step>, u: Id)
    decreases |steps|
  {
    steps == [] || (!Changes(cfg, t, steps[0], u) && !Deletes(cfg, t, steps[0], u) &&
                    Undisturbed(cfg, After(cfg, t, steps[0]), steps[1..], u))
  }

  /** How many logins and activations of the user the run holds. */
  ghost function Opened(cfg: Config, t: Tables, steps: seq<Step>, u: Id): nat
    decreases |steps|
  {
    if steps == [] then 0
    else (if Opens(cfg, t, steps[0], u) then 1 else 0) + Opened(cfg, After(cfg, t, steps[0]), steps[1..], u)
  }

  /** How many logouts named one of the user's tokens. */
  ghost function Closed(cfg: Config, t: Tables, steps: seq<Step>, u: Id): nat
    decreases |steps|
  {
    if steps == [] then 0
    else (if Closes(t, steps[0], u) then 1 else 0) + Closed(cfg, After(cfg, t, steps[0]), steps[1..], u)
  }

  /** Between password changes the number of a user's refresh tokens grows by logins and activations and
      shrinks by logouts; refreshes cancel out. */
  lemma {:induction false} RefreshTokensConserved(cfg: Config, t: Tables, steps: seq<Step>, u: Id)
    requires Undisturbed(cfg, t, steps, u)
    ensures |LiveRefresh(Run(cfg, t, steps), u)| + Closed(cfg, t, steps, u)
            == |LiveRefresh(t, u)| + Opened(cfg, t, steps, u)
    decreases |steps|
  {
    if steps != [] {
      CallCounts(cfg, t, steps[0], u);
      RefreshTokensConserved(cfg, After(cfg, t, steps[0]), steps[1..], u);
      hide After, Changes, Opens, Closes, Deletes, LiveRefresh;
    }
  }

  /** After the last password change the count is one, plus logins and activations since, minus logouts since. */
  lemma CountSincePasswordChange(cfg: Config, t: Tables, before: seq<Step>, change: Step, since: seq<Step>, u: Id)
    requires Changes(cfg, Run(cfg, t, before), change, u)
    requires Undisturbed(cfg, After(cfg, Run(cfg, t, before), change), since, u)
    ensures var t1 := After(cfg, Run(cfg, t, before), change);
            |LiveRefresh(Run(cfg, t, before + [change] + since), u)| + Closed(cfg, t1, since, u)
            == 1 + Opened(cfg, t1, since, u)
  {
    var t0 := Run(cfg, t, before);
    CallCounts(cfg, t0, change, u);
    hide *;
    RunThrough(cfg, t, before, change, since);
    RefreshTokensConserved(cfg, After(cfg, t0, change), since, u);
  }

  lemma RunThrough(cfg: Config, t: Tables, before: seq<Step>, step: Step, since: seq<Step>)
    ensures Run(cfg, t, before + [step] + since) == Run(cfg, After(cfg, Run(cfg, t, before), step), since)
  {
    hide After;
    RunSplits(cfg, t, before, [step] + since);
    assert before + [step] + since == before + ([step] + since);
    assert ([step] + since)[1..] == since;
  }

  // ---- Families

  /** The family of the token a call returns: a refresh continues the family of the token it used up,
      anything else founds a new one, named by its first token. */
  ghost function FamiliesAfter(cfg: Config, t: Tables, family: map<Id, Id>, step: Step): map<Id, Id> {
    var o := Response(cfg, t, step);
    if !o.LoggedIn? then family
    else if step.request.Refresh? && step.request.token in family then
      family[o.refreshToken := family[step.request.token]]
    else family[o.refreshToken := o.refreshToken]
  }

  ghost function Families(cfg: Config, t: Tables, family: map<Id, Id>, steps: seq<Step>): map<Id, Id>
    decreases |steps|
  {
    if steps == [] then family
    else Families(cfg, After(cfg, t, steps[0]), FamiliesAfter(cfg, t, family, steps[0]), steps[1..])
  }

  /** Every live token has a family, and no family has two live tokens. */
  ghost predicate OnePerFamily(t: Tables, issued: set<Id>, family: map<Id, Id>) {
    && t.refresh.Keys <= family.Keys
    && (forall k :: k in family ==> k in issued && family[k] in issued)
    && (forall j, k :: j in t.refresh && k in t.refresh && family[j] == family[k] ==> j == k)
  }

  /** The refresh table after a call: a new token may have joined, others may have gone; a refresh
      removes the token it was given. */
  lemma RefreshTable(cfg: Config, t: Tables, step: Step)
    ensures var t' := After(cfg, t, step); var o := Response(cfg, t, step);
            && (o.LoggedIn? ==> o.refreshToken == step.gen.refresh)
            && (forall k :: k in t'.refresh ==> (k in t.refresh && t'.refresh[k] == t.refresh[k]) ||
                                                 (o.LoggedIn? && k == step.gen.refresh))
            && (o.LoggedIn? && step.request.Refresh? ==>
                step.request.token in t.refresh &&
                (step.request.token in t'.refresh ==> step.request.token == step.gen.refresh))
  {
    var d := Decided(cfg, t, step);
    CallEffect(cfg, t, step);
    if d.Some? {
      if OpensSession(d.value) {
        CommitSessions(cfg, t, step.at, step.gen, d.value);
      } else {
        CommitOther(cfg, t, step.at, step.gen, d.value);
      }
    }
    hide After, Response, Commit, Decided;
  }

  lemma CallKeepsFamilies(cfg: Config, t: Tables, issued: set<Id>, family: map<Id, Id>, step: Step)
    requires OnePerFamily(t, issued, family) && Ids(step.gen) !! issued
    ensures OnePerFamily(After(cfg, t, step), issued + Ids(step.gen), FamiliesAfter(cfg, t, family, step))
  {
    RefreshTable(cfg, t, step);
    hide After, Response;
    assert step.gen.refresh in Ids(step.gen);
  }

  /** Refresh token rotation: in every atomic run each family has at most one live refresh token. */
  lemma {:induction false} OneLiveTokenPerFamily(cfg: Config, t: Tables, issued: set<Id>, family: map<Id, Id>,
                                                 steps: seq<Step>)
    requires OnePerFamily(t, issued, family) && Fresh(issued, steps)
    ensures var t', f := Run(cfg, t, steps), Families(cfg, t, family, steps);
            && t'.refresh.Keys <= f.Keys
            && forall j, k :: j in t'.refresh && k in t'.refresh && f[j] == f[k] ==> j == k
    decreases |steps|
  {
    if steps != [] {
      CallKeepsFamilies(cfg, t, issued, family, steps[0]);
      hide After, FamiliesAfter, OnePerFamily;
      OneLiveTokenPerFamily(cfg, After(cfg, t, steps[0]), issued + Ids(steps[0].gen),
                            FamiliesAfter(cfg, t, family, steps[0]), steps[1..]);
    }
  }

  /** From an empty database on, every live refresh token is the only one of its family. */
  lemma RotationFromEmpty(cfg: Config, steps: seq<Step>)
    requires Fresh({}, steps)
    ensures var t, f := Run(cfg, EMPTY_TABLES, steps), Families(cfg, EMPTY_TABLES, map[], steps);
            t.refresh.Keys <= f.Keys && forall j, k :: j in t.refresh && k in t.refresh && f[j] == f[k] ==> j == k
  {
    OneLiveTokenPerFamily(cfg, EMPTY_TABLES, {}, map[], steps);
  }

  /** A refresh token that is gone stays gone. */
  lemma {:induction false} GoneForGood(cfg: Config, t: Tables, issued: set<Id>, steps: seq<Step>, k: Id)
    requires k in issued && k !in t.refresh && Fresh(issued, steps)
    ensures k !in Run(cfg, t, steps).refresh
    decreases |steps|
  {
    if steps != [] {
      RefreshTable(cfg, t, steps[0]);
      hide After, Response;
      assert steps[0].gen.refresh in Ids(steps[0].gen);
      GoneForGood(cfg, After(cfg, t, steps[0]), issued + Ids(steps[0].gen), steps[1..], k);
    }
  }

  /** Single use: a refresh token that Refresh has accepted once is refused ever after, at no effect. */
  lemma AcceptedOnceRefusedEverAfter(cfg: Config, t: Tables, issued: set<Id>, use: Step, steps: seq<Step>, again: Step)
    requires t.refresh.Keys <= issued && Fresh(issued, [use] + steps)
    requires use.request.Refresh? && Response(cfg, t, use).LoggedIn?
    requires again.request == use.request
    ensures var t' := Run(cfg, After(cfg, t, use), steps);
            Response(cfg, t', again) == Failed(Unauthorized) && After(cfg, t', again) == t'
  {
    RefreshTable(cfg, t, use);
    assert ([use] + steps)[1..] == steps;
    assert use.gen.refresh in Ids(use.gen);
    var k := use.request.token;
    GoneForGood(cfg, After(cfg, t, use), issued + Ids(use.gen), steps, k);
    RefusesUnknown(cfg, Run(cfg, After(cfg, t, use), steps), again, k);
    hide After, Response;
  }

  lemma RefusesUnknown(cfg: Config, t: Tables, step: Step, k: Id)
    requires step.request == Refresh(k) && k !in t.refresh
    ensures Response(cfg, t, step) == Failed(Unauthorized) && After(cfg, t, step) == t
  {
  }

  /** A refresh that commits keeps the number of the user's refresh tokens exactly if the token it was given still
      exists at the commit; otherwise there is one more. */
  lemma RotationCounts(cfg: Config, t: Tables, now: Time, gen: Gen, u: Id, k: Id, copy: Copy)
    requires Committed(Commit(cfg, t, now, gen, Rotate(u, k, copy)).1)
    requires k in t.refresh ==> t.refresh[k].userId == u
    ensures |LiveRefresh(Commit(cfg, t, now, gen, Rotate(u, k, copy)).0, u)|
            == |LiveRefresh(t, u)| + if k in t.refresh then 0 else 1
  {
    CommitSessions(cfg, t, now, gen, Rotate(u, k, copy));
    hide Commit;
    ReplacedCounts(t, Commit(cfg, t, now, gen, Rotate(u, k, copy)).0, u, k, gen.refresh, now);
  }

  lemma ReplacedCounts(t: Tables, t': Tables, u: Id, k: Id, replacement: Id, now: Time)
    requires (k in t.refresh ==> t.refresh[k].userId == u) && replacement !in t.refresh - {k}
    requires t'.refresh == (t.refresh - {k})[replacement := RefreshToken(u, now)]
    ensures LiveRefresh(t', u) == LiveRefresh(t, u) - {k} + {replacement}
    ensures |LiveRefresh(t', u)| == |LiveRefresh(t, u)| + if k in t.refresh then 0 else 1
  {
    var rest := LiveRefresh(t, u) - {k};
    assert LiveRefresh(t', u) == rest + {replacement} && replacement !in rest;
    if k in t.refresh {
      assert k in LiveRefresh(t, u) && |rest| == |LiveRefresh(t, u)| - 1;
    } else {
      assert rest == LiveRefresh(t, u);
    }
  }

  // ---- Password changes end all other sessions

  /** `t'` has exactly the one given pair of tokens for `u`, and the sessions of everybody else as in `t`. */
  ghost predicate OnlySession(t: Tables, t': Tables, u: Id, access: Id, refresh: Id, at: Time, until: Time) {
    && t'.access == Without(t.access, u)[access := Token(u, at, until)]
    && (forall k :: k in t'.refresh <==> k == refresh || (k in t.refresh && t.refresh[k].userId != u))
    && (forall k :: k in t'.refresh && k != refresh ==> t'.refresh[k] == t.refresh[k])
    && TokensOf(t'.access, u) == {access} && LiveRefresh(t', u) == {refresh}
    && access !in Without(t.access, u) && (refresh in t.refresh ==> t.refresh[refresh].userId == u)
  }

  lemma ChangeCommit(cfg: Config, t: Tables, step: Step, p: Pending, u: Id)
    requires p.ChangePassword? && p.user == u && Committed(Commit(cfg, t, step.at, step.gen, p).1)
    ensures OnlySession(t, Commit(cfg, t, step.at, step.gen, p).0, u, step.gen.access, step.gen.refresh,
                        step.at, step.at + cfg.accessValidity)
  {
    CommitSessions(cfg, t, step.at, step.gen, p);
    hide Commit;
    OnlyTokens(t, Commit(cfg, t, step.at, step.gen, p).0, u, step.gen.access, step.gen.refresh, step.at,
               step.at + cfg.accessValidity);
  }

  lemma OnlyTokens(t: Tables, t': Tables, u: Id, access: Id, refresh: Id, at: Time, until: Time)
    requires var kept := map k | k in t.refresh && t.refresh[k].userId != u :: t.refresh[k];
             access !in Without(t.access, u) && refresh !in kept &&
             t'.access == Without(t.access, u)[access := Token(u, at, until)] &&
             t'.refresh == kept[refresh := RefreshToken(u, at)]
    ensures OnlySession(t, t', u, access, refresh, at, until)
  {
  }

  /** A password change leaves the user exactly the returned token pair and other users' sessions untouched. */
  lemma PasswordChangeResetsSessions(cfg: Config, t: Tables, step: Step, u: Id)
    requires Changes(cfg, t, step, u)
    ensures var o := Response(cfg, t, step);
            o.LoggedIn? &&
            OnlySession(t, After(cfg, t, step), u, o.accessToken, o.refreshToken, step.at, step.at + o.expiresIn)
  {
    var d := Decided(cfg, t, step);
    CallEffect(cfg, t, step);
    if d.Some? {
      Observations(cfg, t, step, d.value, u);
      ChangeCommit(cfg, t, step, d.value, u);
      CommitSessions(cfg, t, step.at, step.gen, d.value);
    }
    hide After, Response, Commit, Decided, OnlySession;
  }

  /** A login that succeeded for this very user and gave the password. */
  ghost predicate LogsIn(cfg: Config, t: Tables, step: Step, u: Id, password: string) {
    step.request.Login? && step.request.password == password && Opens(cfg, t, step, u)
  }

  /** The family one call founds for the user by such a login, if any. */
  ghost function LoginRoot(cfg: Config, t: Tables, step: Step, u: Id, password: string): set<Id> {
    if LogsIn(cfg, t, step, u, password) then {Response(cfg, t, step).refreshToken} else {}
  }

  /** The families the logins of a run found for the user. */
  ghost function LoginRoots(cfg: Config, t: Tables, steps: seq<Step>, u: Id, password: string): set<Id>
    decreases |steps|
  {
    if steps == [] then {}
    else LoginRoot(cfg, t, steps[0], u, password) + LoginRoots(cfg, After(cfg, t, steps[0]), steps[1..], u, password)
  }

  /** The user is confirmed and its password is the given one. */
  ghost predicate PasswordIs(t: Tables, u: Id, password: string) {
    u in t.users && !t.users[u].requiresConfirmation &&
    t.users[u].password.Some? && Compare(password, t.users[u].password.value) == Match
  }

  lemma CallKeepsPassword(cfg: Config, t: Tables, step: Step, u: Id, password: string)
    requires PasswordIs(t, u, password) && !Changes(cfg, t, step, u) && !Deletes(cfg, t, step, u)
    ensures PasswordIs(After(cfg, t, step), u, password)
  {
    var d := Decided(cfg, t, step);
    CallEffect(cfg, t, step);
    if d.Some? {
      Observations(cfg, t, step, d.value, u);
      CommitUsers(cfg, t, step.at, step.gen, d.value);
      CreatesNew(cfg, t, step, d.value);
    }
    hide After, Response, Commit, Decided;
  }

  lemma CreatesNew(cfg: Config, t: Tables, step: Step, p: Pending)
    requires Committed(Commit(cfg, t, step.at, step.gen, p).1)
    ensures p.CreateUser? ==> step.gen.user !in t.users
  {
  }

  ghost predicate DescendsFrom(t: Tables, u: Id, family: map<Id, Id>, roots: set<Id>) {
    forall k :: k in LiveRefresh(t, u) ==> k in family && family[k] in roots
  }

  lemma CallKeepsDescent(cfg: Config, t: Tables, family: map<Id, Id>, step: Step, u: Id, password: string,
                         roots: set<Id>)
    requires PasswordIs(t, u, password) && !Changes(cfg, t, step, u) && !Deletes(cfg, t, step, u)
    requires DescendsFrom(t, u, family, roots)
    ensures DescendsFrom(After(cfg, t, step), u, FamiliesAfter(cfg, t, family, step),
                         roots + LoginRoot(cfg, t, step, u, password))
  {
    var d := Decided(cfg, t, step);
    CallEffect(cfg, t, step);
    if d.Some? {
      var p := d.value;
      CommittedLive(cfg, t, step, p, u);
      Observations(cfg, t, step, p, u);
      if p.OpenSession? && p.user == u {
        assert step.request.password == password;
      }
    }
    hide After, Response, Commit, Decided, NamedBy;
  }

  /** Until the next password change every live refresh token of the user descends from the given roots, or from a
      login of the user in the run that gave the password. */
  lemma {:induction false} SessionsDescendFromChange(cfg: Config, t: Tables, family: map<Id, Id>, steps: seq<Step>,
                                                     u: Id, password: string, roots: set<Id>)
    requires PasswordIs(t, u, password) && DescendsFrom(t, u, family, roots)
    requires Undisturbed(cfg, t, steps, u)
    ensures DescendsFrom(Run(cfg, t, steps), u, Families(cfg, t, family, steps),
                         roots + LoginRoots(cfg, t, steps, u, password))
    decreases |steps|
  {
    if steps == [] {
      assert roots + LoginRoots(cfg, t, steps, u, password) == roots;
    } else {
      var first, t1 := steps[0], After(cfg, t, steps[0]);
      var root := LoginRoot(cfg, t, first, u, password);
      CallKeepsPassword(cfg, t, first, u, password);
      CallKeepsDescent(cfg, t, family, first, u, password, roots);
      hide After, FamiliesAfter, PasswordIs, DescendsFrom, LoginRoot;
      SessionsDescendFromChange(cfg, t1, FamiliesAfter(cfg, t, family, first), steps[1..], u, password, roots + root);
      assert roots + root + LoginRoots(cfg, t1, steps[1..], u, password) ==
             roots + LoginRoots(cfg, t, steps, u, password);
    }
  }

  /** The password a successful UpdatePassword or ResetPassword sets is the one it was given, and the
      one family the user's live token then belongs to is the returned token's own. */
  lemma ChangeSetsPassword(cfg: Config, t: Tables, family: map<Id, Id>, step: Step, u: Id)
    requires Sound(t) && Changes(cfg, t, step, u)
    ensures PasswordIs(After(cfg, t, step), u, step.request.newPassword)
    ensures DescendsFrom(After(cfg, t, step), u, FamiliesAfter(cfg, t, family, step),
                         {Response(cfg, t, step).refreshToken})
  {
    var d := Decided(cfg, t, step);
    CallEffect(cfg, t, step);
    if d.Some? {
      CommittedLive(cfg, t, step, d.value, u);
      Observations(cfg, t, step, d.value, u);
      CommitUsers(cfg, t, step.at, step.gen, d.value);
    }
    hide After, Response, Commit, Decided, Consistent;
  }

  /** Both together: from a password change on, whatever follows short of another one. */
  lemma SessionsSincePasswordChange(cfg: Config, t: Tables, family: map<Id, Id>, change: Step, since: seq<Step>, u: Id)
    requires Sound(t) && Changes(cfg, t, change, u)
    requires Undisturbed(cfg, After(cfg, t, change), since, u)
    ensures DescendsFrom(Run(cfg, After(cfg, t, change), since), u,
                         Families(cfg, After(cfg, t, change), FamiliesAfter(cfg, t, family, change), since),
                         {Response(cfg, t, change).refreshToken} +
                         LoginRoots(cfg, After(cfg, t, change), since, u, change.request.newPassword))
  {
    ChangeSetsPassword(cfg, t, family, change, u);
    SessionsDescendFromChange(cfg, After(cfg, t, change), FamiliesAfter(cfg, t, family, change), since, u,
                              change.request.newPassword, {Response(cfg, t, change).refreshToken});
  }
}
