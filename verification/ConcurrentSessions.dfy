/** Refresh tokens when any number of clients act at once: what a committed password change leaves in force, and how
    many of them a user has. */
module ConcurrentSessions {
  import opened Common
  import opened Schema
  import opened Protocol
  import opened Consistency
  import opened Effects
  import opened Interleaving
  import opened Sessions

  // ---- Since a committed password change

  /** What is known of the tokens of a user since its password changed: the family of each token returned since; the
      families the user's sessions may belong to; the clients that had decided on a transaction before the change and
      have not finished; the password with which a client last began a login. */
  datatype Lineage = Lineage(family: map<Id, Id>, founders: set<Id>, early: set<nat>, given: map<nat, string>)

  /** At the change: the returned token, and all clients that are between their two steps. */
  function StartOf(w: World, refresh: Id): Lineage {
    Lineage(map[refresh := refresh], {refresh}, w.pending.Keys, map[])
  }

  /** A session of the user may found a family if it was pending at the change, or is a login begun later that gave
      the new password. */
  predicate MayFound(l: Lineage, client: nat, p: Pending, u: Id, password: string) {
    OpensSession(p) && p.user == u &&
    (client in l.early || (p.OpenSession? && client in l.given && l.given[client] == password))
  }

  ghost function Follow(cfg: Config, w: World, a: Action, l: Lineage, u: Id, password: string): Lineage
    requires Enabled(w, a)
  {
    match a
    case Advance(_) => l
    case Begin(c, request) =>
      if request.Login? then l.(given := l.given[c := request.password]) else l.(given := l.given - {c})
    case Abort(c) => l.(early := l.early - {c})
    case Finish(c, gen) =>
      var p, l' := w.pending[c], l.(early := l.early - {c});
      if !OpensSession(p) || !Committed(Commit(cfg, w.t, w.now, gen, p).1) then l'
      else if c !in l.early && p.Rotate? && p.token in l.family then
        l'.(family := l.family[gen.refresh := l.family[p.token]])
      else l'.(family := l.family[gen.refresh := gen.refresh],
               founders := if MayFound(l, c, p, u, password) then l.founders + {gen.refresh} else l.founders)
  }

  ghost function FollowAll(cfg: Config, w: World, actions: seq<Action>, l: Lineage, u: Id, password: string): Lineage
    requires Schedule(cfg, w, actions)
    decreases |actions|
  {
    if actions == [] then l
    else FollowAll(cfg, Next(cfg, w, actions[0]), actions[1..], Follow(cfg, w, actions[0], l, u, password), u, password)
  }

  /** The action commits a password change of the user. */
  ghost predicate CommitsChange(cfg: Config, w: World, a: Action, u: Id)
    requires Enabled(w, a)
  {
    a.Finish? && w.pending[a.client].ChangePassword? && w.pending[a.client].user == u &&
    Committed(Commit(cfg, w.t, w.now, a.gen, w.pending[a.client]).1)
  }

  ghost predicate KeepsPassword(cfg: Config, w: World, actions: seq<Action>, u: Id)
    requires Schedule(cfg, w, actions)
    decreases |actions|
  {
    actions == [] ||
    (!CommitsChange(cfg, w, actions[0], u) && KeepsPassword(cfg, Next(cfg, w, actions[0]), actions[1..], u))
  }

  predicate Rooted(l: Lineage, k: Id) { k in l.family && l.family[k] in l.founders }

  /** A transaction decided on after the change either leaves the user's sessions alone or has a root. */
  predicate Traced(l: Lineage, client: nat, p: Pending, u: Id, password: string) {
    match p
    case OpenSession(v, _) => v == u ==> client in l.given && l.given[client] == password
    case Rotate(v, k, _) => v == u ==> Rooted(l, k)
    case Activate(v, _, _) => v != u
    case _ => true
  }

  ghost predicate Descends(w: World, l: Lineage, u: Id, password: string) {
    && u in w.issued && l.family.Keys <= w.issued
    && (u in w.t.users ==> PasswordIs(w.t, u, password))
    && (forall k :: k in LiveRefresh(w.t, u) ==> Rooted(l, k))
    && (forall c :: c in w.pending && c !in l.early ==> Traced(l, c, w.pending[c], u, password))
  }

  /** What a call decides on, once the password is the new one. */
  lemma ReadIsTraced(cfg: Config, w: World, l: Lineage, c: nat, request: Request, u: Id, password: string)
    requires Descends(w, l, u, password) && c !in w.pending
    ensures var r, l' := Read(cfg, w.t, w.now, request), Follow(cfg, w, Begin(c, request), l, u, password);
            r.Proceed? ==> Traced(l', c, r.pending, u, password)
  {
    ReadJustifies(cfg, w.t, w.now, request);
    var r := Read(cfg, w.t, w.now, request);
    if r.Proceed? && r.pending.Rotate? && r.pending.user == u { assert r.pending.token in LiveRefresh(w.t, u); }
    hide Read, NamedBy;
  }

  lemma BeginDescends(cfg: Config, w: World, l: Lineage, c: nat, request: Request, u: Id, password: string)
    requires Descends(w, l, u, password) && c !in w.pending
    ensures Descends(Next(cfg, w, Begin(c, request)), Follow(cfg, w, Begin(c, request), l, u, password), u, password)
  {
    ReadIsTraced(cfg, w, l, c, request, u, password);
    hide Read, PasswordIs, LiveRefresh;
  }

  /** A transaction that does not change the user's password adds at most the token it returns to the user. */
  lemma CommitAdds(cfg: Config, t: Tables, now: Time, gen: Gen, p: Pending, u: Id)
    requires !(p.ChangePassword? && p.user == u && Committed(Commit(cfg, t, now, gen, p).1))
    ensures var (t', o) := Commit(cfg, t, now, gen, p);
            forall k :: k in LiveRefresh(t', u) ==>
              k in LiveRefresh(t, u) || (Committed(o) && OpensSession(p) && p.user == u && k == gen.refresh)
  {
    if !Committed(Commit(cfg, t, now, gen, p).1) {
      FailureChangesNothing(cfg, t, now, gen, p);
    } else if OpensSession(p) {
      CommitSessions(cfg, t, now, gen, p);
    } else if p.RemoveUser? && p.user !in t.users {
      CommitTokens(cfg, t, now, gen, p);
    } else {
      CommitOther(cfg, t, now, gen, p);
    }
    hide Commit;
  }

  lemma CommitPassword(cfg: Config, t: Tables, now: Time, gen: Gen, p: Pending, u: Id, password: string)
    requires u in t.users ==> PasswordIs(t, u, password)
    requires u != gen.user && !(p.ChangePassword? && p.user == u && Committed(Commit(cfg, t, now, gen, p).1))
    ensures var t' := Commit(cfg, t, now, gen, p).0; u in t'.users ==> PasswordIs(t', u, password)
  {
    CommitUsers(cfg, t, now, gen, p);
    hide Commit;
  }

  lemma RootsStay(cfg: Config, w: World, l: Lineage, a: Action, u: Id, password: string, k: Id)
    requires Enabled(w, a) && a.Finish? && l.family.Keys <= w.issued && Rooted(l, k)
    ensures Rooted(Follow(cfg, w, a, l, u, password), k)
  {
    assert a.gen.refresh in Ids(a.gen);
    hide Commit;
  }

  /** The token a finished transaction returns to the user has a root. */
  lemma NewTokenRooted(cfg: Config, w: World, l: Lineage, a: Action, u: Id, password: string)
    requires Descends(w, l, u, password) && a.Finish? && Enabled(w, a) && !CommitsChange(cfg, w, a, u)
    requires var p := w.pending[a.client];
             OpensSession(p) && p.user == u && Committed(Commit(cfg, w.t, w.now, a.gen, p).1)
    ensures Rooted(Follow(cfg, w, a, l, u, password), a.gen.refresh)
  {
    hide Commit, PasswordIs, LiveRefresh;
  }

  lemma TracesStay(cfg: Config, w: World, l: Lineage, a: Action, u: Id, password: string, c: nat)
    requires Enabled(w, a) && a.Finish? && l.family.Keys <= w.issued
    requires c in w.pending && c != a.client && (c !in l.early ==> Traced(l, c, w.pending[c], u, password))
    ensures var l' := Follow(cfg, w, a, l, u, password); c !in l'.early ==> Traced(l', c, w.pending[c], u, password)
  {
    var p := w.pending[c];
    if c !in l.early && p.Rotate? && p.user == u { RootsStay(cfg, w, l, a, u, password, p.token); }
    hide Commit, Rooted;
  }

  lemma FinishDescends(cfg: Config, w: World, l: Lineage, a: Action, u: Id, password: string)
    requires Descends(w, l, u, password) && a.Finish? && Enabled(w, a) && !CommitsChange(cfg, w, a, u)
    ensures Descends(Next(cfg, w, a), Follow(cfg, w, a, l, u, password), u, password)
  {
    var p, gen := w.pending[a.client], a.gen;
    var w', l' := Next(cfg, w, a), Follow(cfg, w, a, l, u, password);
    assert gen.refresh in Ids(gen) && gen.user in Ids(gen);
    CommitAdds(cfg, w.t, w.now, gen, p, u);
    CommitPassword(cfg, w.t, w.now, gen, p, u, password);
    hide Commit, PasswordIs, LiveRefresh, Traced, Rooted, MayFound;
    assert w'.pending == w.pending - {a.client} && w'.issued == w.issued + Ids(gen);
    assert w'.t == Commit(cfg, w.t, w.now, gen, p).0;
    assert l'.family.Keys <= w'.issued;
    forall k | Rooted(l, k) ensures Rooted(l', k) { RootsStay(cfg, w, l, a, u, password, k); }
    forall c | c in w'.pending && c !in l'.early ensures Traced(l', c, w'.pending[c], u, password) {
      TracesStay(cfg, w, l, a, u, password, c);
    }
    if OpensSession(p) && p.user == u && Committed(Commit(cfg, w.t, w.now, gen, p).1) {
      NewTokenRooted(cfg, w, l, a, u, password);
    }
    hide Next, Follow, CommitsChange, Enabled;
  }

  lemma NextDescends(cfg: Config, w: World, l: Lineage, a: Action, u: Id, password: string)
    requires Descends(w, l, u, password) && Enabled(w, a) && !CommitsChange(cfg, w, a, u)
    ensures Descends(Next(cfg, w, a), Follow(cfg, w, a, l, u, password), u, password)
  {
    match a
    case Advance(_) =>
    case Abort(_) =>
    case Begin(c, request) => BeginDescends(cfg, w, l, c, request, u, password);
    case Finish(_, _) => FinishDescends(cfg, w, l, a, u, password);
  }

  lemma {:induction false} RunDescends(cfg: Config, w: World, l: Lineage, actions: seq<Action>, u: Id, password: string)
    requires Descends(w, l, u, password) && Schedule(cfg, w, actions) && KeepsPassword(cfg, w, actions, u)
    ensures Descends(Execute(cfg, w, actions), FollowAll(cfg, w, actions, l, u, password), u, password)
    decreases |actions|
  {
    if actions != [] {
      NextDescends(cfg, w, l, actions[0], u, password);
      hide Next, Follow, Descends, CommitsChange;
      RunDescends(cfg, Next(cfg, w, actions[0]), Follow(cfg, w, actions[0], l, u, password), actions[1..], u, password);
    }
  }

  lemma ChangeResets(cfg: Config, t: Tables, now: Time, gen: Gen, p: Pending, salt: nat, password: string)
    requires Sound(t) && p.ChangePassword? && p.hash == Argon2id(salt, password) && SafeFor(t, p)
    requires Committed(Commit(cfg, t, now, gen, p).1)
    ensures var t' := Commit(cfg, t, now, gen, p).0;
            LiveRefresh(t', p.user) == {gen.refresh} && PasswordIs(t', p.user, password)
  {
    ChangeCommit(cfg, t, Step(now, Deactivate(p.user), gen), p, p.user);
    SessionUsers(cfg, t, now, gen, p);
    hide Commit, Sound;
  }

  lemma ChangeDescends(cfg: Config, w: World, change: Action, u: Id, salt: nat, password: string)
    requires Safe(w) && Enabled(w, change) && CommitsChange(cfg, w, change, u)
    requires w.pending[change.client].hash == Argon2id(salt, password)
    ensures var w1 := Next(cfg, w, change); Descends(w1, StartOf(w1, change.gen.refresh), u, password)
  {
    assert change.gen.refresh in Ids(change.gen);
    ChangeResets(cfg, w.t, w.now, change.gen, w.pending[change.client], salt, password);
    hide Commit, Sound, LiveRefresh, PasswordIs;
  }

  /** In every interleaving, from a committed password change to the next: each live refresh token of the user descends
      from the returned one, from a session that was pending when the change committed, or from a login begun later
      that gave the new password. */
  lemma SessionsSinceCommittedChange(cfg: Config, w: World, change: Action, actions: seq<Action>, u: Id, salt: nat,
                                     password: string)
    requires Safe(w) && Enabled(w, change) && CommitsChange(cfg, w, change, u)
    requires w.pending[change.client].hash == Argon2id(salt, password)
    requires var w1 := Next(cfg, w, change); Schedule(cfg, w1, actions) && KeepsPassword(cfg, w1, actions, u)
    ensures var w1 := Next(cfg, w, change);
            var l := FollowAll(cfg, w1, actions, StartOf(w1, change.gen.refresh), u, password);
            forall k :: k in LiveRefresh(Execute(cfg, w1, actions).t, u) ==> k in l.family && l.family[k] in l.founders
  {
    ChangeDescends(cfg, w, change, u, salt, password);
    RunDescends(cfg, Next(cfg, w, change), StartOf(Next(cfg, w, change), change.gen.refresh), actions, u, password);
    hide Next, FollowAll, Execute, Safe, CommitsChange;
  }

  // ---- What pending calls hold

  /** All session tokens were issued, and a pending refresh holds the token of its own user. */
  ghost predicate Held(w: World) {
    && w.t.access.Keys + w.t.refresh.Keys <= w.issued
    && forall c :: c in w.pending && w.pending[c].Rotate? ==>
         var p := w.pending[c];
         p.token in w.issued && (p.token in w.t.refresh ==> w.t.refresh[p.token].userId == p.user)
  }

  /** A transaction adds no session token but the two it generates. */
  lemma CommitTokensKept(cfg: Config, t: Tables, now: Time, gen: Gen, p: Pending)
    ensures var t' := Commit(cfg, t, now, gen, p).0;
            && t'.access.Keys <= t.access.Keys + {gen.access}
            && (forall k :: k in t'.refresh ==> k == gen.refresh || (k in t.refresh && t'.refresh[k] == t.refresh[k]))
  {
    if !Committed(Commit(cfg, t, now, gen, p).1) {
      FailureChangesNothing(cfg, t, now, gen, p);
    } else if OpensSession(p) {
      CommitSessions(cfg, t, now, gen, p);
    } else if p.RemoveUser? && p.user !in t.users {
      CommitTokens(cfg, t, now, gen, p);
    } else {
      CommitOther(cfg, t, now, gen, p);
    }
    hide Commit;
  }

  lemma NextKeepsHeld(cfg: Config, w: World, a: Action)
    requires Held(w) && Enabled(w, a)
    ensures Held(Next(cfg, w, a))
  {
    match a
    case Begin(c, request) =>
      ReadJustifies(cfg, w.t, w.now, request);
      hide Read, NamedBy;
    case Finish(c, gen) =>
      CommitTokensKept(cfg, w.t, w.now, gen, w.pending[c]);
      assert {gen.access, gen.refresh} <= Ids(gen);
      hide Commit;
    case _ =>
  }

  lemma {:induction false} RunKeepsHeld(cfg: Config, w: World, actions: seq<Action>)
    requires Held(w) && Schedule(cfg, w, actions)
    ensures Held(Execute(cfg, w, actions))
    decreases |actions|
  {
    if actions != [] {
      NextKeepsHeld(cfg, w, actions[0]);
      hide Next, Held;
      RunKeepsHeld(cfg, Next(cfg, w, actions[0]), actions[1..]);
    }
  }

  // ---- Sessions that were pending at the change

  /** A transaction that gives its user a further session. */
  predicate GetsSession(p: Pending) { p.OpenSession? || p.Rotate? || p.Activate? }

  /** A session transaction goes through as long as its user exists, and adds the refresh token it returns, whether or
      not the token used is still there. */
  lemma SessionFinish(cfg: Config, w: World, c: nat, g: Gen, p: Pending)
    requires c in w.pending && w.pending[c] == p && OpensSession(p) && p.user in w.t.users
    requires Ids(g) !! w.issued
    requires w.t.access.Keys + w.t.refresh.Keys <= w.issued
    ensures var w' := Next(cfg, w, Finish(c, g));
            && w'.pending == w.pending - {c} && w'.issued == w.issued + Ids(g) && w'.now == w.now
            && w'.log == w.log + [Event(p, g, w.now)] && w'.t.users.Keys == w.t.users.Keys
            && w'.t.access.Keys <= w.t.access.Keys + {g.access}
            && w'.t.refresh == RefreshKept(w.t.refresh, p)[g.refresh := RefreshToken(p.user, w.now)]
  {
    assert {g.access, g.refresh} <= Ids(g);
    NewSessionCommits(cfg, w.t, w.now, g, p);
    CommitSessions(cfg, w.t, w.now, g, p);
    SessionUsers(cfg, w.t, w.now, g, p);
    hide Commit;
  }

  lemma BothFinish(cfg: Config, w: World, c: nat, d: nat, p: Pending, q: Pending, g: Gen, h: Gen)
    requires c != d && c in w.pending && d in w.pending && w.pending[c] == p && w.pending[d] == q
    requires OpensSession(p) && OpensSession(q) && p.user in w.t.users && q.user in w.t.users
    requires w.t.access.Keys + w.t.refresh.Keys <= w.issued && Ids(g) !! w.issued && Ids(h) !! w.issued + Ids(g)
    ensures Enabled(w, Finish(c, g)) && Enabled(Next(cfg, w, Finish(c, g)), Finish(d, h))
    ensures g.refresh !in w.t.refresh && h.refresh !in w.t.refresh && g.refresh != h.refresh
    ensures var w' := Next(cfg, Next(cfg, w, Finish(c, g)), Finish(d, h));
            && w'.log == w.log + [Event(p, g, w.now), Event(q, h, w.now)]
            && w'.t.refresh == RefreshKept(RefreshKept(w.t.refresh, p)[g.refresh := RefreshToken(p.user, w.now)], q)
                               [h.refresh := RefreshToken(q.user, w.now)]
  {
    assert {g.access, g.refresh} <= Ids(g) && {h.access, h.refresh} <= Ids(h);
    SessionFinish(cfg, w, c, g, p);
    var w1 := Next(cfg, w, Finish(c, g));
    assert Enabled(w1, Finish(d, h));
    hide Next;
    SessionFinish(cfg, w1, d, h, q);
  }

  /** No session of the user was pending at the change: then the exception is void, and only the returned token and
      later logins with the new password are left. */
  lemma SessionsSinceUncontestedChange(cfg: Config, w: World, change: Action, actions: seq<Action>, u: Id, salt: nat,
                                       password: string)
    requires Safe(w) && Enabled(w, change) && CommitsChange(cfg, w, change, u)
    requires w.pending[change.client].hash == Argon2id(salt, password)
    requires var w1 := Next(cfg, w, change); Schedule(cfg, w1, actions) && KeepsPassword(cfg, w1, actions, u)
    requires forall c :: c in w.pending && GetsSession(w.pending[c]) ==> w.pending[c].user != u
    ensures var w1 := Next(cfg, w, change);
            var l := FollowAll(cfg, w1, actions, StartOf(w1, change.gen.refresh).(early := {}), u, password);
            forall k :: k in LiveRefresh(Execute(cfg, w1, actions).t, u) ==> k in l.family && l.family[k] in l.founders
  {
    var w1 := Next(cfg, w, change);
    ChangeDescends(cfg, w, change, u, salt, password);
    assert forall c :: c in w1.pending ==> c in w.pending && w1.pending[c] == w.pending[c];
    var l := StartOf(w1, change.gen.refresh).(early := {});
    hide Next, LiveRefresh, PasswordIs;
    assert Descends(w1, l, u, password);
    RunDescends(cfg, w1, l, actions, u, password);
    hide FollowAll, Execute, Safe, CommitsChange, Descends;
  }

  /** Otherwise the exception occurs: a session that was pending at the change gets through right after it, and the
      token it returns stays in force beside that of the change. */
  lemma PendingSessionOutlivesChange(cfg: Config, w: World, change: Action, c: nat, h: Gen, u: Id)
    requires Held(w) && Enabled(w, change) && CommitsChange(cfg, w, change, u)
    requires c in w.pending && GetsSession(w.pending[c]) && w.pending[c].user == u
    requires Ids(h) !! w.issued + Ids(change.gen)
    ensures var w1 := Next(cfg, w, change);
            Enabled(w1, Finish(c, h)) &&
            var w2 := Next(cfg, w1, Finish(c, h));
            && w2.log == w.log + [Event(w.pending[change.client], change.gen, w.now), Event(w.pending[c], h, w.now)]
            && LiveRefresh(w2.t, u) == {change.gen.refresh, h.refresh} && h.refresh != change.gen.refresh
  {
    var p, q, g := w.pending[change.client], w.pending[c], change.gen;
    assert g.refresh in Ids(g);
    SessionUsers(cfg, w.t, w.now, g, p);
    assert OpensSession(q) && change == Finish(change.client, g);
    hide Next, Commit, CommitsChange, LiveRefresh, RefreshKept;
    BothFinish(cfg, w, change.client, c, p, q, g, h);
    BothLive(w.t, Next(cfg, Next(cfg, w, change), Finish(c, h)).t, p, q, g.refresh, h.refresh, w.now);
  }

  lemma BothLive(t: Tables, t': Tables, p: Pending, q: Pending, g: Id, h: Id, now: Time)
    requires p.ChangePassword? && GetsSession(q) && p.user == q.user && (q.Rotate? ==> q.token != g)
    requires t'.refresh == RefreshKept(RefreshKept(t.refresh, p)[g := RefreshToken(p.user, now)], q)
                           [h := RefreshToken(q.user, now)]
    ensures LiveRefresh(t', p.user) == {g, h}
  {
  }

  lemma RotateBegin(cfg: Config, w: World, c: nat, u: Id, k: Id)
    requires k in w.t.refresh && w.t.refresh[k].userId == u && u in w.t.users && w.t.users[u].isActive
    requires c !in w.pending
    ensures Next(cfg, w, Begin(c, Refresh(k))) == w.(pending := w.pending[c := Rotate(u, k, ToCopy(w.t.users[u]))])
  {
  }

  lemma ChangeBegin(cfg: Config, w: World, d: nat, u: Id, current: string, replacement: string, salt: nat)
    requires PasswordIs(w.t, u, current) && w.t.users[u].isActive && d !in w.pending
    ensures Next(cfg, w, Begin(d, UpdatePassword(u, current, replacement, salt))) ==
            w.(pending := w.pending[d := ChangePassword(u, Argon2id(salt, replacement), ToCopy(w.t.users[u]))])
  {
  }

  /** Such a schedule exists whenever an active user has a live refresh token and changes its password: the refresh is
      read before the change, and commits after it with a token that the change has deleted. */
  lemma RefreshOutlivesChange(cfg: Config, w: World, c: nat, d: nat, u: Id, k: Id, current: string, replacement: string,
                              salt: nat, g: Gen, h: Gen)
    requires Held(w) && k in w.t.refresh && w.t.refresh[k].userId == u && PasswordIs(w.t, u, current)
    requires w.t.users[u].isActive && c != d && c !in w.pending && d !in w.pending
    requires Ids(g) !! w.issued && Ids(h) !! w.issued + Ids(g)
    ensures var actions := [Begin(c, Refresh(k)), Begin(d, UpdatePassword(u, current, replacement, salt)),
                            Finish(d, g), Finish(c, h)];
            Schedule(cfg, w, actions) &&
            var w' := Execute(cfg, w, actions);
            LiveRefresh(w'.t, u) == {g.refresh, h.refresh} && k !in {g.refresh, h.refresh} && h.refresh != g.refresh
  {
    var copy := ToCopy(w.t.users[u]);
    var p, q := ChangePassword(u, Argon2id(salt, replacement), copy), Rotate(u, k, copy);
    var a, b := Begin(c, Refresh(k)), Begin(d, UpdatePassword(u, current, replacement, salt));
    RotateBegin(cfg, w, c, u, k);
    var w1 := w.(pending := w.pending[c := q]);
    ChangeBegin(cfg, w1, d, u, current, replacement, salt);
    var w2 := w1.(pending := w1.pending[d := p]);
    assert {g.access, g.refresh} <= Ids(g) && {h.access, h.refresh} <= Ids(h);
    NewSessionCommits(cfg, w.t, w.now, g, p);
    hide Commit, Next, PasswordIs;
    assert Enabled(w, a) && Enabled(w1, b) && Enabled(w2, Finish(d, g)) && CommitsChange(cfg, w2, Finish(d, g), u);
    assert Held(w2);
    hide Held, Enabled, CommitsChange, LiveRefresh;
    PendingSessionOutlivesChange(cfg, w2, Finish(d, g), c, h, u);
    FourSteps(cfg, w, a, b, Finish(d, g), Finish(c, h));
    hide Schedule, Execute;
  }

  lemma FourSteps(cfg: Config, w: World, a: Action, b: Action, c: Action, d: Action)
    requires Enabled(w, a) && Enabled(Next(cfg, w, a), b) && Enabled(Next(cfg, Next(cfg, w, a), b), c)
    requires Enabled(Next(cfg, Next(cfg, Next(cfg, w, a), b), c), d)
    ensures Schedule(cfg, w, [a, b, c, d])
    ensures Execute(cfg, w, [a, b, c, d]) == Next(cfg, Next(cfg, Next(cfg, Next(cfg, w, a), b), c), d)
  {
    var w1 := Next(cfg, w, a);
    var w2 := Next(cfg, w1, b);
    var w3 := Next(cfg, w2, c);
    assert [a, b, c, d][1..] == [b, c, d] && [b, c, d][1..] == [c, d] && [c, d][1..] == [d] && [d][1..] == [];
    hide Next, Enabled;
    assert Execute(cfg, Next(cfg, w3, d), []) == Next(cfg, w3, d);
    assert Schedule(cfg, w3, [d]) && Execute(cfg, w3, [d]) == Next(cfg, w3, d);
    assert Schedule(cfg, w2, [c, d]) && Execute(cfg, w2, [c, d]) == Next(cfg, w3, d);
    assert Schedule(cfg, w1, [b, c, d]) && Execute(cfg, w1, [b, c, d]) == Next(cfg, w3, d);
  }

  // ---- Conservation

  /** The action commits `p`. */
  ghost predicate Commits(cfg: Config, w: World, a: Action, p: Pending)
    requires Enabled(w, a)
  {
    a.Finish? && p == w.pending[a.client] && Committed(Commit(cfg, w.t, w.now, a.gen, p).1)
  }

  /** No password change and no deletion of the user commits. */
  ghost predicate KeepsAccount(cfg: Config, w: World, actions: seq<Action>, u: Id)
    requires Schedule(cfg, w, actions)
    decreases |actions|
  {
    actions == [] ||
    (!CommitsChange(cfg, w, actions[0], u) && !Commits(cfg, w, actions[0], RemoveUser(u)) &&
     KeepsAccount(cfg, Next(cfg, w, actions[0]), actions[1..], u))
  }

  /** The refresh tokens a step adds to the user's: one for a login or an activation, and one for a refresh whose token
      was gone by the time it committed. */
  ghost function Gain(cfg: Config, w: World, a: Action, u: Id): nat
    requires Enabled(w, a)
  {
    if !a.Finish? then 0
    else
      var p := w.pending[a.client];
      if !Commits(cfg, w, a, p) then 0
      else if (p.OpenSession? || p.Activate?) && p.user == u then 1
      else if p.Rotate? && p.user == u && p.token !in w.t.refresh then 1
      else 0
  }

  /** One for a logout that names a token the user has at that moment. */
  ghost function Loss(cfg: Config, w: World, a: Action, u: Id): nat
    requires Enabled(w, a)
  {
    if !a.Finish? then 0
    else
      var p := w.pending[a.client];
      if p.CloseSession? && p.refresh.Some? && p.refresh.value in LiveRefresh(w.t, u) then 1 else 0
  }

  ghost function Gains(cfg: Config, w: World, actions: seq<Action>, u: Id): nat
    requires Schedule(cfg, w, actions)
    decreases |actions|
  {
    if actions == [] then 0 else Gain(cfg, w, actions[0], u) + Gains(cfg, Next(cfg, w, actions[0]), actions[1..], u)
  }

  ghost function Losses(cfg: Config, w: World, actions: seq<Action>, u: Id): nat
    requires Schedule(cfg, w, actions)
    decreases |actions|
  {
    if actions == [] then 0 else Loss(cfg, w, actions[0], u) + Losses(cfg, Next(cfg, w, actions[0]), actions[1..], u)
  }

  lemma NextCounts(cfg: Config, w: World, a: Action, u: Id)
    requires Held(w) && Enabled(w, a)
    requires !CommitsChange(cfg, w, a, u) && !Commits(cfg, w, a, RemoveUser(u))
    ensures |LiveRefresh(Next(cfg, w, a).t, u)| + Loss(cfg, w, a, u) == |LiveRefresh(w.t, u)| + Gain(cfg, w, a, u)
  {
    if a.Finish? {
      var p, gen := w.pending[a.client], a.gen;
      if Committed(Commit(cfg, w.t, w.now, gen, p).1) {
        CommitCounts(cfg, w.t, w.now, gen, p, u);
      } else {
        FailureChangesNothing(cfg, w.t, w.now, gen, p);
        assert !p.CloseSession?;
      }
      hide Commit;
    }
  }

  /** Over any schedule without a committed password change or deletion of the user: its refresh tokens at the end and
      the logouts of live ones are its tokens at the start, the sessions opened, and the refreshes whose token was
      already gone when they committed. All other refreshes cancel out. */
  lemma {:induction false} RefreshTokensConserved(cfg: Config, w: World, actions: seq<Action>, u: Id)
    requires Held(w) && Schedule(cfg, w, actions) && KeepsAccount(cfg, w, actions, u)
    ensures |LiveRefresh(Execute(cfg, w, actions).t, u)| + Losses(cfg, w, actions, u)
            == |LiveRefresh(w.t, u)| + Gains(cfg, w, actions, u)
    decreases |actions|
  {
    if actions != [] {
      NextCounts(cfg, w, actions[0], u);
      NextKeepsHeld(cfg, w, actions[0]);
      hide Next, Held, Gain, Loss, CommitsChange, Commits, LiveRefresh;
      RefreshTokensConserved(cfg, Next(cfg, w, actions[0]), actions[1..], u);
    }
  }
}
