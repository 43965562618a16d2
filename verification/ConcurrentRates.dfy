/** How often reset and confirmation tokens can be issued to one user when any number of clients act at once. The reuse
    of a reset token is decided in the transaction that would insert another; the debounce of either kind is not. */
module ConcurrentRates {
  import opened Common
  import opened Schema
  import opened Protocol
  import opened Consistency
  import opened Effects
  import opened Interleaving
  import opened RateBounds
  import opened ConcurrentSessions

  // ---- Reset tokens: what remains of the bound

  /** The configuration without its debounce: only the reuse holds another reset token back. */
  function Undebounced(cfg: Config): Config { cfg.(resetDebounce := cfg.resetReuse) }

  /** The distance that every interleaving keeps. */
  function ReuseGap(cfg: Config): Time { Min(cfg.resetReuse, cfg.resetValidity) }

  /** All reset tokens that were in the table at some moment of the schedule. */
  ghost function EverIssued(cfg: Config, w: World, actions: seq<Action>, seen: map<Id, Token>): map<Id, Token>
    requires Schedule(cfg, w, actions)
    decreases |actions|
  {
    if actions == [] then seen
    else
      var w' := Next(cfg, w, actions[0]);
      EverIssued(cfg, w', actions[1..], seen + w'.t.resets)
  }

  /** A transaction, however long ago it was decided on, issues at most one reset token, to a user with no other within
      the reuse time; a reset token that vanishes belonged to a user who is gone. */
  lemma CommitShape(cfg: Config, t: Tables, step: Step, p: Pending)
    requires Stamped(t.resets, cfg.resetValidity, step.at)
    ensures var t' := Commit(cfg, t, step.at, step.gen, p).0;
            NoneEligible(ResetKind, t, t', step.gen) &&
            (Keeps(ResetKind, t, t') || exists u :: Issues(Undebounced(cfg), ResetKind, t, t', step, u))
  {
    var t' := Commit(cfg, t, step.at, step.gen, p).0;
    if p.CreateUser? {
      FirstRegisterShape(cfg, t, step.at, step.gen, p.name, p.hash);
      hide Commit;
    } else if p.IssueReset? {
      if t'.resets != t.resets {
        NoneRecent(t.resets, p.user, cfg.resetValidity, cfg.resetReuse, step.at);
        assert Issues(Undebounced(cfg), ResetKind, t, t', step, p.user);
      }
    } else if p.AddConfirmation? {
    } else {
      OtherCommit(cfg, ResetKind, t, step.at, step.gen, p);
      hide Commit;
    }
  }

  lemma IssuedSpaced(cfg: Config, t: Tables, t': Tables, issued: set<Id>, step: Step, seen: map<Id, Token>, u: Id)
    requires Remembers(ResetKind, t, issued, seen) && Ids(step.gen) !! issued
    requires Stamped(seen, cfg.resetValidity, step.at) && Spaced(seen, ReuseGap(cfg))
    requires t'.users.Keys <= t.users.Keys + Ids(step.gen) && NoneEligible(ResetKind, t, t', step.gen)
    requires Issues(Undebounced(cfg), ResetKind, t, t', step, u)
    ensures var seen' := seen + t'.resets;
            && Remembers(ResetKind, t', issued + Ids(step.gen), seen')
            && Stamped(seen', cfg.resetValidity, step.at) && Spaced(seen', ReuseGap(cfg))
  {
    assert Table(ResetKind, t') == t'.resets;
    assert Gap(Undebounced(cfg), ResetKind) == ReuseGap(cfg);
    assert Validity(Undebounced(cfg), ResetKind) == cfg.resetValidity;
    hide *;
    IssuingRemembers(Undebounced(cfg), ResetKind, t, t', issued, step, u, seen);
    IssuingKeepsSpaced(Undebounced(cfg), ResetKind, t, t', issued, step, u, seen);
  }

  lemma ShapeKeepsSpaced(cfg: Config, t: Tables, t': Tables, issued: set<Id>, step: Step, seen: map<Id, Token>)
    requires Remembers(ResetKind, t, issued, seen) && Ids(step.gen) !! issued
    requires Stamped(seen, cfg.resetValidity, step.at) && Spaced(seen, ReuseGap(cfg))
    requires t'.users.Keys <= t.users.Keys + Ids(step.gen) && NoneEligible(ResetKind, t, t', step.gen)
    requires Keeps(ResetKind, t, t') || exists u :: Issues(Undebounced(cfg), ResetKind, t, t', step, u)
    ensures var seen' := seen + t'.resets;
            && Remembers(ResetKind, t', issued + Ids(step.gen), seen')
            && Stamped(seen', cfg.resetValidity, step.at) && Spaced(seen', ReuseGap(cfg))
  {
    if Keeps(ResetKind, t, t') {
      assert step.gen.user in Ids(step.gen);
      assert Table(ResetKind, t') == t'.resets;
      hide *;
      KeepingKeepsSpaced(ResetKind, t, t', issued, step.gen, seen);
    } else {
      var u :| Issues(Undebounced(cfg), ResetKind, t, t', step, u);
      hide *;
      IssuedSpaced(cfg, t, t', issued, step, seen, u);
    }
  }

  lemma FinishKeepsSpaced(cfg: Config, w: World, a: Action, seen: map<Id, Token>)
    requires Enabled(w, a) && a.Finish? && Remembers(ResetKind, w.t, w.issued, seen)
    requires Stamped(seen, cfg.resetValidity, w.now) && Spaced(seen, ReuseGap(cfg))
    ensures var w' := Next(cfg, w, a);
            var seen' := seen + w'.t.resets;
            && Remembers(ResetKind, w'.t, w'.issued, seen')
            && Stamped(seen', cfg.resetValidity, w'.now) && Spaced(seen', ReuseGap(cfg))
  {
    var p, step := w.pending[a.client], Step(w.now, Deactivate(0), a.gen);
    var t' := Commit(cfg, w.t, w.now, a.gen, p).0;
    assert Stamped(w.t.resets, cfg.resetValidity, w.now) by { hide Commit, Issuable, Spaced; }
    CommitUsers(cfg, w.t, w.now, a.gen, p);
    assert a.gen.user in Ids(a.gen);
    hide Commit, Issuable, Remembers, Spaced, Stamped;
    CommitShape(cfg, w.t, step, p);
    hide NoneEligible, Keeps, Issues;
    ShapeKeepsSpaced(cfg, w.t, t', w.issued, step, seen);
  }

  lemma NextKeepsSpaced(cfg: Config, w: World, a: Action, seen: map<Id, Token>)
    requires Enabled(w, a) && Remembers(ResetKind, w.t, w.issued, seen)
    requires Stamped(seen, cfg.resetValidity, w.now) && Spaced(seen, ReuseGap(cfg))
    ensures var w' := Next(cfg, w, a);
            var seen' := seen + w'.t.resets;
            && Remembers(ResetKind, w'.t, w'.issued, seen')
            && Stamped(seen', cfg.resetValidity, w'.now) && Spaced(seen', ReuseGap(cfg))
  {
    if a.Finish? {
      FinishKeepsSpaced(cfg, w, a, seen);
      hide *;
    } else {
      assert Next(cfg, w, a).t == w.t && Next(cfg, w, a).issued == w.issued && w.now <= Next(cfg, w, a).now;
      assert seen + w.t.resets == seen;
      hide Next, Issuable;
    }
  }

  /** In every interleaving any two reset tokens ever issued to a user are created at least min(reuse, validity) apart,
      however many requests passed the debounce before either was issued. */
  lemma {:induction false} ResetTokensSpaced(cfg: Config, w: World, actions: seq<Action>, seen: map<Id, Token>)
    requires Schedule(cfg, w, actions) && Remembers(ResetKind, w.t, w.issued, seen)
    requires Stamped(seen, cfg.resetValidity, w.now) && Spaced(seen, ReuseGap(cfg))
    ensures var all := EverIssued(cfg, w, actions, seen);
            Stamped(all, cfg.resetValidity, Execute(cfg, w, actions).now) && Spaced(all, ReuseGap(cfg))
    decreases |actions|
  {
    if actions != [] {
      NextKeepsSpaced(cfg, w, actions[0], seen);
      hide Next, Remembers, Stamped, Spaced;
      var w1 := Next(cfg, w, actions[0]);
      ResetTokensSpaced(cfg, w1, actions[1..], seen + w1.t.resets);
    }
  }

  /** So at most ceil(V / g) of them are unexpired at any moment after the schedule, for g = min(reuse, validity). */
  lemma UnexpiredResetsBounded(cfg: Config, w: World, actions: seq<Action>, seen: map<Id, Token>, u: Id, moment: Time)
    requires Schedule(cfg, w, actions) && Remembers(ResetKind, w.t, w.issued, seen)
    requires Stamped(seen, cfg.resetValidity, w.now) && Spaced(seen, ReuseGap(cfg))
    requires ReuseGap(cfg) > 0 && moment >= Execute(cfg, w, actions).now
    ensures var all := EverIssued(cfg, w, actions, seen);
            && |Unexpired(all, u, moment)| <= CeilDiv(cfg.resetValidity, ReuseGap(cfg))
            && |Acceptable(all, u, moment)| <= cfg.resetValidity / ReuseGap(cfg) + 1
  {
    ResetTokensSpaced(cfg, w, actions, seen);
    hide Remembers, EverIssued, Execute;
    BoundedWhenSpaced(EverIssued(cfg, w, actions, seen), cfg.resetValidity, ReuseGap(cfg), u, moment);
  }

  // ---- Reset tokens: no more than that

  lemma ResetBegin(cfg: Config, w: World, c: nat, name: string, u: Id)
    requires UserByName(w.t, name) == Some(u) && w.t.users[u].isActive && w.t.users[u].password.Some?
    requires Unexpired(w.t.resets, u, w.now) == {} && c !in w.pending
    ensures Next(cfg, w, Begin(c, InitPasswordReset(name))) == w.(pending := w.pending[c := IssueReset(u)])
  {
    var recent := RecentTokens(w.t.resets, u, w.now - cfg.resetDebounce, w.now);
    assert recent <= Unexpired(w.t.resets, u, w.now);
  }

  lemma BothBegin(cfg: Config, w: World, c: nat, d: nat, name: string, u: Id)
    requires UserByName(w.t, name) == Some(u) && w.t.users[u].isActive && w.t.users[u].password.Some?
    requires Unexpired(w.t.resets, u, w.now) == {} && c != d && c !in w.pending && d !in w.pending
    ensures u in w.t.users && Enabled(w, Begin(c, InitPasswordReset(name)))
    ensures var w1 := Next(cfg, w, Begin(c, InitPasswordReset(name)));
            Enabled(w1, Begin(d, InitPasswordReset(name))) &&
            Next(cfg, w1, Begin(d, InitPasswordReset(name))) ==
              w.(pending := w.pending[c := IssueReset(u)][d := IssueReset(u)])
  {
    ResetBegin(cfg, w, c, name, u);
    hide Next, UserByName, Unexpired;
    ResetBegin(cfg, w.(pending := w.pending[c := IssueReset(u)]), d, name, u);
  }

  /** The transaction issues a token if none can be reused. */
  lemma ResetFinish(cfg: Config, w: World, c: nat, u: Id, gen: Gen)
    requires c in w.pending && w.pending[c] == IssueReset(u) && u in w.t.users
    requires w.t.resets.Keys <= w.issued && Ids(gen) !! w.issued
    requires RecentTokens(w.t.resets, u, w.now - cfg.resetReuse, w.now) == {}
    ensures Enabled(w, Finish(c, gen))
    ensures var w', row := Next(cfg, w, Finish(c, gen)), Token(u, w.now, w.now + cfg.resetValidity);
            && w'.t == w.t.(resets := w.t.resets[gen.reset := row]) && w'.now == w.now
            && w'.pending == w.pending - {c} && w'.issued == w.issued + Ids(gen) && w'.t.resets.Keys <= w'.issued
  {
    assert gen.reset in Ids(gen);
  }

  lemma FiveSteps(cfg: Config, w: World, a: Action, b: Action, c: Action, d: Action, e: Action)
    requires Enabled(w, a)
    requires var w1 := Next(cfg, w, a); Enabled(w1, b) && Enabled(Next(cfg, w1, b), c)
    requires var w3 := Next(cfg, Next(cfg, Next(cfg, w, a), b), c); Enabled(w3, d) && Enabled(Next(cfg, w3, d), e)
    ensures Schedule(cfg, w, [a, b, c, d, e])
    ensures Execute(cfg, w, [a, b, c, d, e]) ==
            Next(cfg, Next(cfg, Next(cfg, Next(cfg, Next(cfg, w, a), b), c), d), e)
  {
    hide Next, Enabled;
    FourSteps(cfg, Next(cfg, w, a), b, c, d, e);
    assert [a, b, c, d, e][1..] == [b, c, d, e];
  }

  lemma NoneReusable(cfg: Config, resets: map<Id, Token>, k: Id, u: Id, at: Time, later: Time)
    requires Unexpired(resets, u, at) == {} && later == at + Max(ReuseGap(cfg), 0)
    ensures RecentTokens(resets[k := Token(u, at, at + cfg.resetValidity)], u, later - cfg.resetReuse, later) == {}
  {
    forall j | j in resets && resets[j].userId == u ensures resets[j].validUntil <= at {
      assert j !in Unexpired(resets, u, at);
    }
  }

  lemma Wait(cfg: Config, w: World, to: Time)
    requires w.now <= to
    ensures Enabled(w, Advance(to)) && Next(cfg, w, Advance(to)) == w.(now := to)
  {
  }

  /** One of two decisions to issue is committed, and then time passes until its token can no longer be reused. */
  lemma IssueAndWait(cfg: Config, w: World, c: nat, d: nat, u: Id, g: Gen)
    requires c != d && c in w.pending && d in w.pending && w.pending[c] == w.pending[d] == IssueReset(u)
    requires u in w.t.users && Unexpired(w.t.resets, u, w.now) == {} && w.t.resets.Keys <= w.issued
    requires Ids(g) !! w.issued
    ensures Enabled(w, Finish(c, g))
    ensures var w1, later := Next(cfg, w, Finish(c, g)), w.now + Max(ReuseGap(cfg), 0);
            Enabled(w1, Advance(later)) &&
            var w2 := Next(cfg, w1, Advance(later));
            && d in w2.pending && w2.pending[d] == IssueReset(u) && w2.now == later && w2.issued == w.issued + Ids(g)
            && w2.t == w.t.(resets := w.t.resets[g.reset := Token(u, w.now, w.now + cfg.resetValidity)])
            && w2.t.resets.Keys <= w2.issued
            && RecentTokens(w2.t.resets, u, later - cfg.resetReuse, later) == {}
  {
    var later := w.now + Max(ReuseGap(cfg), 0);
    assert RecentTokens(w.t.resets, u, w.now - cfg.resetReuse, w.now) <= Unexpired(w.t.resets, u, w.now);
    NoneReusable(cfg, w.t.resets, g.reset, u, w.now, later);
    assert later >= w.now;
    hide *;
    ResetFinish(cfg, w, c, u, g);
    Wait(cfg, Next(cfg, w, Finish(c, g)), later);
  }

  /** Then the other one is committed and issues a token, too. */
  lemma BothIssue(cfg: Config, w: World, c: nat, d: nat, u: Id, g: Gen, h: Gen)
    requires c != d && c in w.pending && d in w.pending && w.pending[c] == w.pending[d] == IssueReset(u)
    requires u in w.t.users && Unexpired(w.t.resets, u, w.now) == {} && w.t.resets.Keys <= w.issued
    requires Ids(g) !! w.issued && Ids(h) !! w.issued + Ids(g)
    ensures var later := w.now + Max(ReuseGap(cfg), 0);
            Enabled(w, Finish(c, g)) &&
            var w1 := Next(cfg, w, Finish(c, g));
            Enabled(w1, Advance(later)) &&
            var w2 := Next(cfg, w1, Advance(later));
            Enabled(w2, Finish(d, h)) &&
            Next(cfg, w2, Finish(d, h)).t.resets ==
              w.t.resets[g.reset := Token(u, w.now, w.now + cfg.resetValidity)]
                        [h.reset := Token(u, later, later + cfg.resetValidity)]
  {
    hide *;
    IssueAndWait(cfg, w, c, d, u, g);
    var w1 := Next(cfg, w, Finish(c, g));
    ResetFinish(cfg, Next(cfg, w1, Advance(w.now + Max(ReuseGap(cfg), 0))), d, u, h);
  }

  lemma NewResets(w: World, g: Gen, h: Gen)
    requires w.t.resets.Keys <= w.issued && Ids(g) !! w.issued && Ids(h) !! w.issued + Ids(g)
    ensures g.reset != h.reset && g.reset !in w.t.resets && h.reset !in w.t.resets
  {
    assert g.reset in Ids(g) && h.reset in Ids(h);
  }

  /** The distance is attained, so the debounce adds nothing to it under interleaving: whenever a user could be issued a
      token and has no unexpired one, two requests that are both read now can be issued tokens just so far apart. */
  lemma ReuseGapAttained(cfg: Config, w: World, c: nat, d: nat, name: string, u: Id, g: Gen, h: Gen)
    requires UserByName(w.t, name) == Some(u) && w.t.users[u].isActive && w.t.users[u].password.Some?
    requires Unexpired(w.t.resets, u, w.now) == {} && w.t.resets.Keys <= w.issued
    requires c != d && c !in w.pending && d !in w.pending && Ids(g) !! w.issued && Ids(h) !! w.issued + Ids(g)
    ensures var later, request := w.now + Max(ReuseGap(cfg), 0), InitPasswordReset(name);
            var actions := [Begin(c, request), Begin(d, request), Finish(c, g), Advance(later), Finish(d, h)];
            Schedule(cfg, w, actions) &&
            Execute(cfg, w, actions).t.resets ==
              w.t.resets[g.reset := Token(u, w.now, w.now + cfg.resetValidity)]
                        [h.reset := Token(u, later, later + cfg.resetValidity)]
    ensures g.reset != h.reset && g.reset !in w.t.resets && h.reset !in w.t.resets
  {
    hide *;
    var later, request := w.now + Max(ReuseGap(cfg), 0), InitPasswordReset(name);
    NewResets(w, g, h);
    BothBegin(cfg, w, c, d, name, u);
    BothIssue(cfg, w.(pending := w.pending[c := IssueReset(u)][d := IssueReset(u)]), c, d, u, g, h);
    FiveSteps(cfg, w, Begin(c, request), Begin(d, request), Finish(c, g), Advance(later), Finish(d, h));
  }

  // ---- Confirmation tokens: none at all

  lemma RegisterBegin(cfg: Config, w: World, c: nat, name: string, password: string, salt: nat, u: Id)
    requires UserByName(w.t, name) == Some(u) && w.t.users[u].requiresConfirmation
    requires Unexpired(w.t.confirmations, u, w.now) == {} && c !in w.pending
    ensures Next(cfg, w, Begin(c, Register(name, password, salt))) ==
            w.(pending := w.pending[c := AddConfirmation(u)])
  {
    var recent := RecentTokens(w.t.confirmations, u, w.now - cfg.confirmationDebounce, w.now);
    assert recent <= Unexpired(w.t.confirmations, u, w.now);
  }

  lemma RegisterFinish(cfg: Config, w: World, c: nat, u: Id, gen: Gen)
    requires c in w.pending && w.pending[c] == AddConfirmation(u) && u in w.t.users
    requires w.t.confirmations.Keys <= w.issued && Ids(gen) !! w.issued
    ensures Enabled(w, Finish(c, gen))
    ensures var w', row := Next(cfg, w, Finish(c, gen)), Token(u, w.now, w.now + cfg.confirmationValidity);
            && w'.t == w.t.(confirmations := w.t.confirmations[gen.confirmation := row]) && w'.now == w.now
            && w'.pending == w.pending - {c} && w'.issued == w.issued + Ids(gen)
  {
    assert gen.confirmation in Ids(gen);
  }

  /** Check and insert of a repeated Register are apart: whenever a user awaits confirmation without an unexpired token,
      two requests that are both read now both issue one, at the same instant whatever the debounce. */
  lemma ConfirmationsTogether(cfg: Config, w: World, c: nat, d: nat, name: string, password: string, salt: nat, u: Id,
                              g: Gen, h: Gen)
    requires UserByName(w.t, name) == Some(u) && w.t.users[u].requiresConfirmation
    requires Unexpired(w.t.confirmations, u, w.now) == {} && w.t.confirmations.Keys <= w.issued
    requires c != d && c !in w.pending && d !in w.pending && Ids(g) !! w.issued && Ids(h) !! w.issued + Ids(g)
    ensures var request := Register(name, password, salt);
            var actions := [Begin(c, request), Begin(d, request), Finish(c, g), Finish(d, h)];
            var row := Token(u, w.now, w.now + cfg.confirmationValidity);
            Schedule(cfg, w, actions) &&
            Execute(cfg, w, actions).t.confirmations ==
              w.t.confirmations[g.confirmation := row][h.confirmation := row] &&
            g.confirmation != h.confirmation &&
            g.confirmation !in w.t.confirmations && h.confirmation !in w.t.confirmations
  {
    var request := Register(name, password, salt);
    assert g.confirmation in Ids(g) && h.confirmation in Ids(h);
    RegisterBegin(cfg, w, c, name, password, salt, u);
    var w1 := w.(pending := w.pending[c := AddConfirmation(u)]);
    RegisterBegin(cfg, w1, d, name, password, salt, u);
    var w2 := w1.(pending := w1.pending[d := AddConfirmation(u)]);
    assert Enabled(w, Begin(c, request)) && Enabled(w1, Begin(d, request));
    RegisterFinish(cfg, w2, c, u, g);
    var w3 := Next(cfg, w2, Finish(c, g));
    RegisterFinish(cfg, w3, d, u, h);
    hide Next, Enabled, UserByName;
    FourSteps(cfg, w, Begin(c, request), Begin(d, request), Finish(c, g), Finish(d, h));
  }
}
