/** A refresh or confirmation token used a second time, when any number of clients act at once: the exact condition, and
    schedules in which it happens. */
module SecondUse {
  import opened Common
  import opened Schema
  import opened Protocol
  import opened Consistency
  import opened Effects
  import opened Interleaving
  import opened Sessions
  import opened ConcurrentSessions

  // ---- What the commits since a moment have done to the account

  predicate Removes(p: Pending, u: Id) { p.RemoveUser? && p.user == u }

  predicate Completes(p: Pending, u: Id) { p.Activate? && p.user == u }

  lemma AccountStep(cfg: Config, w: World, a: Action, u: Id)
    requires Enabled(w, a) && u in w.issued
    ensures var w' := Next(cfg, w, a);
            && w.log <= w'.log && u in w'.issued
            && (u in w'.t.users <==>
                u in w.t.users && forall i :: |w.log| <= i < |w'.log| ==> !Removes(w'.log[i].pending, u))
            && (Unconfirmed(w'.t, u) <==>
                Unconfirmed(w.t, u) && forall i :: |w.log| <= i < |w'.log| ==>
                  !Removes(w'.log[i].pending, u) && !Completes(w'.log[i].pending, u))
  {
    if a.Finish? {
      CommitUsers(cfg, w.t, w.now, a.gen, w.pending[a.client]);
      assert a.gen.user in Ids(a.gen);
      var w' := Next(cfg, w, a);
      assert w'.log != w.log ==> w'.log[|w.log|].pending == w.pending[a.client];
      hide Commit;
    }
  }

  /** In every interleaving, of a user issued before: it exists exactly if it did and no deletion of it has committed
      since, and it awaits confirmation exactly if it did and neither has a completion. */
  lemma {:induction false} AccountSince(cfg: Config, w: World, actions: seq<Action>, u: Id)
    requires Schedule(cfg, w, actions) && u in w.issued
    ensures var w' := Execute(cfg, w, actions);
            && w.log <= w'.log
            && (u in w'.t.users <==>
                u in w.t.users && forall i :: |w.log| <= i < |w'.log| ==> !Removes(w'.log[i].pending, u))
            && (Unconfirmed(w'.t, u) <==>
                Unconfirmed(w.t, u) && forall i :: |w.log| <= i < |w'.log| ==>
                  !Removes(w'.log[i].pending, u) && !Completes(w'.log[i].pending, u))
    decreases |actions|
  {
    if actions != [] {
      AccountStep(cfg, w, actions[0], u);
      hide Next, Unconfirmed, Removes, Completes;
      AccountSince(cfg, Next(cfg, w, actions[0]), actions[1..], u);
      var w1, w' := Next(cfg, w, actions[0]), Execute(cfg, w, actions);
      assert forall i :: 0 <= i < |w1.log| ==> w'.log[i] == w1.log[i];
    }
  }

  /** A session transaction goes through exactly if its user has not been deleted since it was decided on. */
  lemma GoesThrough(cfg: Config, w: World, actions: seq<Action>, gen: Gen, p: Pending)
    requires Safe(w) && Held(w) && Schedule(cfg, w, actions) && OpensSession(p) && p.user in w.t.users
    requires Ids(gen) !! Execute(cfg, w, actions).issued
    ensures var w' := Execute(cfg, w, actions);
            && w.log <= w'.log
            && (Committed(Commit(cfg, w'.t, w'.now, gen, p).1) <==>
                forall i :: |w.log| <= i < |w'.log| ==> !Removes(w'.log[i].pending, p.user))
  {
    AccountSince(cfg, w, actions, p.user);
    RunKeepsHeld(cfg, w, actions);
    hide Execute, Removes, Sound;
    var w' := Execute(cfg, w, actions);
    assert {gen.access, gen.refresh} <= Ids(gen);
    if p.user in w'.t.users {
      NewSessionCommits(cfg, w'.t, w'.now, gen, p);
    } else if Committed(Commit(cfg, w'.t, w'.now, gen, p).1) {
      SessionUsers(cfg, w'.t, w'.now, gen, p);
    }
    hide Commit;
  }

  // ---- Refresh tokens

  /** The committed transaction removes the refresh token `k` of `u`, if it is still there. */
  predicate Consumes(p: Pending, u: Id, k: Id) {
    match p
    case Rotate(_, j, _) => j == k
    case ChangePassword(v, _, _) => v == u
    case CloseSession(_, r) => r == Some(k)
    case RemoveUser(v) => v == u
    case _ => false
  }

  predicate OwnedBy(t: Tables, u: Id, k: Id) { k in t.refresh ==> t.refresh[k].userId == u }

  lemma CommitConsumes(cfg: Config, t: Tables, now: Time, gen: Gen, p: Pending, u: Id, k: Id)
    requires Sound(t) && OwnedBy(t, u, k) && k != gen.refresh
    ensures var (t', o) := Commit(cfg, t, now, gen, p);
            OwnedBy(t', u, k) &&
            (k in t'.refresh <==> k in t.refresh && !(Committed(o) && Consumes(p, u, k)))
  {
    if !Committed(Commit(cfg, t, now, gen, p).1) {
      FailureChangesNothing(cfg, t, now, gen, p);
    } else if OpensSession(p) {
      CommitSessions(cfg, t, now, gen, p);
    } else if p.RemoveUser? && p.user !in t.users {
      CommitTokens(cfg, t, now, gen, p);
    } else {
      CommitOther(cfg, t, now, gen, p);
    }
    hide Commit, UniqueNames, SessionsConfirmed, OwnersExist;
  }

  lemma NextConsumes(cfg: Config, w: World, a: Action, u: Id, k: Id)
    requires Safe(w) && Enabled(w, a) && k in w.issued && OwnedBy(w.t, u, k)
    ensures var w' := Next(cfg, w, a);
            && w.log <= w'.log && k in w'.issued && OwnedBy(w'.t, u, k)
            && (k in w'.t.refresh <==>
                k in w.t.refresh && forall i :: |w.log| <= i < |w'.log| ==> !Consumes(w'.log[i].pending, u, k))
  {
    if a.Finish? {
      assert a.gen.refresh in Ids(a.gen);
      CommitConsumes(cfg, w.t, w.now, a.gen, w.pending[a.client], u, k);
      var w' := Next(cfg, w, a);
      assert w'.log != w.log ==> w'.log[|w.log|].pending == w.pending[a.client];
      hide Commit, Sound, Consumes, OwnedBy;
    }
  }

  /** In every interleaving a refresh token issued before is in the table exactly if it was and no transaction that
      consumes it has committed since. */
  lemma {:induction false} LiveUntilConsumed(cfg: Config, w: World, actions: seq<Action>, u: Id, k: Id)
    requires Safe(w) && Schedule(cfg, w, actions) && k in w.issued && OwnedBy(w.t, u, k)
    ensures var w' := Execute(cfg, w, actions);
            && w.log <= w'.log && OwnedBy(w'.t, u, k)
            && (k in w'.t.refresh <==>
                k in w.t.refresh && forall i :: |w.log| <= i < |w'.log| ==> !Consumes(w'.log[i].pending, u, k))
    decreases |actions|
  {
    if actions != [] {
      NextConsumes(cfg, w, actions[0], u, k);
      NextKeepsSafe(cfg, w, actions[0]);
      hide Next, Safe, Consumes, OwnedBy;
      LiveUntilConsumed(cfg, Next(cfg, w, actions[0]), actions[1..], u, k);
      var w1, w' := Next(cfg, w, actions[0]), Execute(cfg, w, actions);
      assert forall i :: 0 <= i < |w1.log| ==> w'.log[i] == w1.log[i];
    }
  }

  /** The exact condition for single use of a refresh token: a refresh goes through, at whatever later time it commits,
      exactly if its user has not been deleted since it read the token. It then trades its token for the new one exactly
      if no refresh with the token, logout naming it or password change has committed since; else the user has one token
      more. */
  lemma RefreshIsFirstUse(cfg: Config, w: World, c: nat, u: Id, k: Id, actions: seq<Action>, gen: Gen)
    requires Safe(w) && Held(w) && c !in w.pending
    requires k in w.t.refresh && w.t.refresh[k].userId == u && u in w.t.users && w.t.users[u].isActive
    requires Schedule(cfg, Next(cfg, w, Begin(c, Refresh(k))), actions)
    requires Ids(gen) !! Execute(cfg, Next(cfg, w, Begin(c, Refresh(k))), actions).issued
    ensures var w' := Execute(cfg, Next(cfg, w, Begin(c, Refresh(k))), actions);
            var (t', o) := Commit(cfg, w'.t, w'.now, gen, Rotate(u, k, ToCopy(w.t.users[u])));
            && w.log <= w'.log
            && (Committed(o) <==> forall i :: |w.log| <= i < |w'.log| ==> !Removes(w'.log[i].pending, u))
            && (Committed(o) ==>
                |LiveRefresh(t', u)| == |LiveRefresh(w'.t, u)| +
                  if forall i :: |w.log| <= i < |w'.log| ==> !Consumes(w'.log[i].pending, u, k) then 0 else 1)
  {
    var copy := ToCopy(w.t.users[u]);
    var p, w1 := Rotate(u, k, copy), w.(pending := w.pending[c := Rotate(u, k, copy)]);
    RotateBegin(cfg, w, c, u, k);
    assert Safe(w1) && Held(w1) by {
      NextKeepsSafe(cfg, w, Begin(c, Refresh(k)));
      NextKeepsHeld(cfg, w, Begin(c, Refresh(k)));
    }
    assert OwnedBy(w1.t, u, k) && k in w1.issued;
    hide Next, Safe, Held, LiveRefresh, Commit, Execute;
    GoesThrough(cfg, w1, actions, gen, p);
    LiveUntilConsumed(cfg, w1, actions, u, k);
    var w' := Execute(cfg, w1, actions);
    if Committed(Commit(cfg, w'.t, w'.now, gen, p).1) { RotationCounts(cfg, w'.t, w'.now, gen, u, k, copy); }
  }

  /** Whenever an active user has a live refresh token, two clients can both refresh with it: both read it before either
      commits, both are answered with a new session, and the user is left with both of them. */
  lemma RefreshedTwice(cfg: Config, w: World, c: nat, d: nat, u: Id, k: Id, g: Gen, h: Gen)
    requires k in w.t.refresh && w.t.refresh[k].userId == u && u in w.t.users && w.t.users[u].isActive
    requires c != d && c !in w.pending && d !in w.pending
    requires w.t.access.Keys + w.t.refresh.Keys <= w.issued && Ids(g) !! w.issued && Ids(h) !! w.issued + Ids(g)
    ensures var actions := [Begin(c, Refresh(k)), Begin(d, Refresh(k)), Finish(c, g), Finish(d, h)];
            Schedule(cfg, w, actions) &&
            var w' := Execute(cfg, w, actions);
            && w'.log == w.log + [Event(Rotate(u, k, ToCopy(w.t.users[u])), g, w.now),
                                  Event(Rotate(u, k, ToCopy(w.t.users[u])), h, w.now)]
            && LiveRefresh(w'.t, u) == LiveRefresh(w.t, u) - {k} + {g.refresh, h.refresh}
            && |LiveRefresh(w'.t, u)| == |LiveRefresh(w.t, u)| + 1
  {
    var p := Rotate(u, k, ToCopy(w.t.users[u]));
    RotateBegin(cfg, w, c, u, k);
    var w1 := w.(pending := w.pending[c := p]);
    RotateBegin(cfg, w1, d, u, k);
    var w2 := w1.(pending := w1.pending[d := p]);
    assert Enabled(w, Begin(c, Refresh(k))) && Enabled(w1, Begin(d, Refresh(k)));
    BothFinish(cfg, w2, c, d, p, p, g, h);
    FourSteps(cfg, w, Begin(c, Refresh(k)), Begin(d, Refresh(k)), Finish(c, g), Finish(d, h));
    hide Next, Schedule, Execute, LiveRefresh;
    RotatedTwice(w.t, Execute(cfg, w, [Begin(c, Refresh(k)), Begin(d, Refresh(k)), Finish(c, g), Finish(d, h)]).t, u, k,
                 g.refresh, h.refresh, w.now);
  }

  lemma RotatedTwice(t: Tables, t': Tables, u: Id, k: Id, g: Id, h: Id, now: Time)
    requires k in t.refresh && t.refresh[k].userId == u && g !in t.refresh && h !in t.refresh && g != h
    requires t'.refresh == ((t.refresh - {k})[g := RefreshToken(u, now)] - {k})[h := RefreshToken(u, now)]
    ensures LiveRefresh(t', u) == LiveRefresh(t, u) - {k} + {g, h} && |LiveRefresh(t', u)| == |LiveRefresh(t, u)| + 1
  {
    hide LiveRefresh;
    var once := t.(refresh := (t.refresh - {k})[g := RefreshToken(u, now)]);
    assert k !in once.refresh && once.refresh - {k} == once.refresh;
    ReplacedCounts(t, once, u, k, g, now);
    ReplacedCounts(once, t', u, k, h, now);
    OutOnce(LiveRefresh(t, u), k, g, h);
  }

  lemma OutOnce(live: set<Id>, k: Id, g: Id, h: Id)
    requires k != g
    ensures live - {k} + {g} - {k} + {h} == live - {k} + {g, h}
  {
  }

  // ---- Confirmation tokens

  lemma CompletionBegin(cfg: Config, w: World, c: nat, u: Id, k: Id)
    requires k in w.t.confirmations && w.t.confirmations[k].userId == u && w.now < w.t.confirmations[k].validUntil
    requires u in w.t.users && !w.t.users[u].isActive && w.t.users[u].requiresConfirmation && c !in w.pending
    ensures Next(cfg, w, Begin(c, CompleteRegister(k))) == w.(pending := w.pending[c := Activate(u, k, w.t.users[u])])
  {
  }

  /** The exact condition for a single completion: it goes through, at whatever later time it commits, exactly if its
      user has not been deleted since it read the token, and it is what confirms the user exactly if no other completion
      has committed since either. */
  lemma CompletionIsFirst(cfg: Config, w: World, c: nat, u: Id, k: Id, actions: seq<Action>, gen: Gen)
    requires Safe(w) && Held(w) && c !in w.pending
    requires k in w.t.confirmations && w.t.confirmations[k].userId == u && w.now < w.t.confirmations[k].validUntil
    requires u in w.t.users && !w.t.users[u].isActive && w.t.users[u].requiresConfirmation
    requires Schedule(cfg, Next(cfg, w, Begin(c, CompleteRegister(k))), actions)
    requires Ids(gen) !! Execute(cfg, Next(cfg, w, Begin(c, CompleteRegister(k))), actions).issued
    ensures var w' := Execute(cfg, Next(cfg, w, Begin(c, CompleteRegister(k))), actions);
            var (t', o) := Commit(cfg, w'.t, w'.now, gen, Activate(u, k, w.t.users[u]));
            && w.log <= w'.log
            && (Committed(o) <==> forall i :: |w.log| <= i < |w'.log| ==> !Removes(w'.log[i].pending, u))
            && (Committed(o) ==>
                !Unconfirmed(t', u) &&
                  (Unconfirmed(w'.t, u) <==> forall i :: |w.log| <= i < |w'.log| ==> !Completes(w'.log[i].pending, u)))
  {
    var p := Activate(u, k, w.t.users[u]);
    var w1 := w.(pending := w.pending[c := p]);
    CompletionBegin(cfg, w, c, u, k);
    assert Safe(w1) && Held(w1) by {
      NextKeepsSafe(cfg, w, Begin(c, CompleteRegister(k)));
      NextKeepsHeld(cfg, w, Begin(c, CompleteRegister(k)));
    }
    assert u in w1.issued;
    hide Next, Safe, Held, Execute;
    GoesThrough(cfg, w1, actions, gen, p);
    AccountSince(cfg, w1, actions, u);
    var w' := Execute(cfg, w1, actions);
    CommitUsers(cfg, w'.t, w'.now, gen, p);
    hide Commit;
  }

  /** Likewise a valid confirmation token of a user who awaits confirmation: two clients can both complete with it, and
      each gets a session. */
  lemma CompletedTwice(cfg: Config, w: World, c: nat, d: nat, u: Id, k: Id, g: Gen, h: Gen)
    requires k in w.t.confirmations && w.t.confirmations[k].userId == u && w.now < w.t.confirmations[k].validUntil
    requires u in w.t.users && !w.t.users[u].isActive && w.t.users[u].requiresConfirmation
    requires c != d && c !in w.pending && d !in w.pending
    requires w.t.access.Keys + w.t.refresh.Keys <= w.issued && Ids(g) !! w.issued && Ids(h) !! w.issued + Ids(g)
    ensures var actions := [Begin(c, CompleteRegister(k)), Begin(d, CompleteRegister(k)), Finish(c, g), Finish(d, h)];
            Schedule(cfg, w, actions) &&
            var w' := Execute(cfg, w, actions);
            && w'.log == w.log + [Event(Activate(u, k, w.t.users[u]), g, w.now),
                                  Event(Activate(u, k, w.t.users[u]), h, w.now)]
            && LiveRefresh(w'.t, u) == LiveRefresh(w.t, u) + {g.refresh, h.refresh}
  {
    var p := Activate(u, k, w.t.users[u]);
    CompletionBegin(cfg, w, c, u, k);
    var w1 := w.(pending := w.pending[c := p]);
    CompletionBegin(cfg, w1, d, u, k);
    var w2 := w1.(pending := w1.pending[d := p]);
    assert Enabled(w, Begin(c, CompleteRegister(k))) && Enabled(w1, Begin(d, CompleteRegister(k)));
    hide Next, Schedule, Execute, Enabled, LiveRefresh;
    BothFinish(cfg, w2, c, d, p, p, g, h);
    FourSteps(cfg, w, Begin(c, CompleteRegister(k)), Begin(d, CompleteRegister(k)), Finish(c, g), Finish(d, h));
    CompletedLive(w.t, Next(cfg, Next(cfg, w2, Finish(c, g)), Finish(d, h)).t, p, g.refresh, h.refresh, w.now);
  }

  lemma CompletedLive(t: Tables, t': Tables, p: Pending, g: Id, h: Id, now: Time)
    requires p.Activate?
    requires t'.refresh == RefreshKept(RefreshKept(t.refresh, p)[g := RefreshToken(p.user, now)], p)
                           [h := RefreshToken(p.user, now)]
    ensures LiveRefresh(t', p.user) == LiveRefresh(t, p.user) + {g, h}
  {
  }
}
