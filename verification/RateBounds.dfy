/** How often reset and confirmation tokens can be issued to one user, in atomic runs. */
module RateBounds {
  import opened Common
  import opened Schema
  import opened Protocol
  import opened Consistency
  import opened Effects

  datatype Kind = ResetKind | ConfirmationKind

  function Table(kind: Kind, t: Tables): map<Id, Token> {
    match kind case ResetKind => t.resets case ConfirmationKind => t.confirmations
  }

  function Validity(cfg: Config, kind: Kind): Time {
    match kind case ResetKind => cfg.resetValidity case ConfirmationKind => cfg.confirmationValidity
  }

  /** The promised distance: debounce and reuse both hold creation back, but an expired token does not. */
  function Gap(cfg: Config, kind: Kind): Time {
    match kind
    case ResetKind => Min(Max(cfg.resetDebounce, cfg.resetReuse), cfg.resetValidity)
    case ConfirmationKind => Min(cfg.confirmationDebounce, cfg.confirmationValidity)
  }

  /** All tokens of the kind that were in the table at some moment of the run. */
  ghost function Ever(cfg: Config, kind: Kind, t: Tables, steps: seq<Step>, seen: map<Id, Token>): map<Id, Token>
    decreases |steps|
  {
    if steps == [] then seen
    else
      var t' := After(cfg, t, steps[0]);
      Ever(cfg, kind, t', steps[1..], seen + Table(kind, t'))
  }

  function EndTime(now: Time, steps: seq<Step>): Time {
    if steps == [] then now else steps[|steps| - 1].at
  }

  ghost predicate Spaced(tokens: map<Id, Token>, gap: Time) {
    forall j, k :: j in tokens && k in tokens && j != k && tokens[j].userId == tokens[k].userId ==>
      tokens[j].createdAt - tokens[k].createdAt >= gap || tokens[k].createdAt - tokens[j].createdAt >= gap
  }

  ghost predicate Stamped(tokens: map<Id, Token>, validity: Time, now: Time) {
    forall k :: k in tokens ==> tokens[k].validUntil == tokens[k].createdAt + validity && tokens[k].createdAt <= now
  }

  /** A token of the kind can still be issued to the user. */
  ghost predicate Issuable(kind: Kind, t: Tables, u: Id) {
    match kind case ResetKind => u in t.users case ConfirmationKind => Unconfirmed(t, u)
  }

  /** Whoever can still get a token has all tokens ever issued to it in the table. */
  ghost predicate Remembers(kind: Kind, t: Tables, issued: set<Id>, seen: map<Id, Token>) {
    && t.users.Keys <= issued
    && (forall k :: k in Table(kind, t) ==> k in seen && seen[k] == Table(kind, t)[k])
    && (forall k :: k in seen ==>
        k in issued && seen[k].userId in issued &&
        (Issuable(kind, t, seen[k].userId) ==> k in Table(kind, t)))
  }

  // ---- One call

  /** Nobody but a newly created user becomes eligible for a token. */
  ghost predicate NoneEligible(kind: Kind, t: Tables, t': Tables, gen: Gen) {
    forall u :: Issuable(kind, t', u) ==> Issuable(kind, t, u) || (u == gen.user && u !in t.users)
  }

  /** No token is issued, and those of still eligible users stay. */
  ghost predicate Keeps(kind: Kind, t: Tables, t': Tables) {
    && (forall k :: k in Table(kind, t') ==> k in Table(kind, t) && Table(kind, t')[k] == Table(kind, t)[k])
    && (forall k :: k in Table(kind, t) && Issuable(kind, t', Table(kind, t)[k].userId) ==> k in Table(kind, t'))
  }

  ghost predicate FarFromOthers(cfg: Config, kind: Kind, t: Tables, at: Time, u: Id) {
    forall k :: k in Table(kind, t) && Table(kind, t)[k].userId == u ==>
      at - Table(kind, t)[k].createdAt >= Gap(cfg, kind)
  }

  function NewId(kind: Kind, gen: Gen): Id {
    match kind case ResetKind => gen.reset case ConfirmationKind => gen.confirmation
  }

  /** One token is issued to `u`, which has no other within the gap. */
  ghost predicate Issues(cfg: Config, kind: Kind, t: Tables, t': Tables, step: Step, u: Id) {
    && u in t'.users && Issuable(kind, t', u)
    && Table(kind, t') == Table(kind, t)[NewId(kind, step.gen) := Token(u, step.at, step.at + Validity(cfg, kind))]
    && FarFromOthers(cfg, kind, t, step.at, u)
  }

  lemma NoneRecent(tokens: map<Id, Token>, u: Id, validity: Time, window: Time, now: Time)
    requires Stamped(tokens, validity, now)
    requires RecentTokens(tokens, u, now - window, now) == {}
    ensures forall k :: k in tokens && tokens[k].userId == u ==> now - tokens[k].createdAt >= Min(window, validity)
  {
    forall k | k in tokens && tokens[k].userId == u
      ensures now - tokens[k].createdAt >= Min(window, validity)
    {
      assert k !in RecentTokens(tokens, u, now - window, now);
    }
  }

  lemma IssueResetShape(cfg: Config, t: Tables, step: Step)
    requires Stamped(t.resets, cfg.resetValidity, step.at)
    requires step.request.InitPasswordReset?
    ensures var t' := After(cfg, t, step);
            t'.users == t.users && t'.confirmations == t.confirmations &&
            (t'.resets == t.resets || exists u :: Issues(cfg, ResetKind, t, t', step, u))
  {
    var t' := After(cfg, t, step);
    if t'.resets != t.resets {
      var u := Read(cfg, t, step.at, step.request).pending.user;
      NoneRecent(t.resets, u, cfg.resetValidity, cfg.resetReuse, step.at);
      if cfg.resetDebounce > 0 { NoneRecent(t.resets, u, cfg.resetValidity, cfg.resetDebounce, step.at); }
      assert Issues(cfg, ResetKind, t, t', step, u);
    }
  }

  lemma RepeatedRegisterShape(cfg: Config, t: Tables, step: Step, u: Id)
    requires Stamped(t.confirmations, cfg.confirmationValidity, step.at)
    requires step.request.Register? && Read(cfg, t, step.at, step.request) == Proceed(AddConfirmation(u))
    ensures var t' := After(cfg, t, step);
            t'.users == t.users && t'.resets == t.resets &&
            (t'.confirmations == t.confirmations || Issues(cfg, ConfirmationKind, t, t', step, u))
  {
    NoneRecent(t.confirmations, u, cfg.confirmationValidity, cfg.confirmationDebounce, step.at);
  }

  lemma FirstRegisterShape(cfg: Config, t: Tables, now: Time, gen: Gen, name: string, hash: Hash)
    ensures var t' := Commit(cfg, t, now, gen, CreateUser(name, hash)).0;
            && t'.resets == t.resets
            && NoneEligible(ResetKind, t, t', gen) && NoneEligible(ConfirmationKind, t, t', gen)
            && (t'.confirmations == t.confirmations ||
                (t'.confirmations ==
                 t.confirmations[gen.confirmation := Token(gen.user, now, now + cfg.confirmationValidity)]
                 && Unconfirmed(t', gen.user) && gen.user !in t.users))
  {
    CommitUsers(cfg, t, now, gen, CreateUser(name, hash));
    FirstRegisterTokens(cfg, t, now, gen, name, hash);
    hide Commit;
  }

  lemma FirstRegisterTokens(cfg: Config, t: Tables, now: Time, gen: Gen, name: string, hash: Hash)
    ensures var (t', o) := Commit(cfg, t, now, gen, CreateUser(name, hash));
            && t'.resets == t.resets
            && (Committed(o) ==> gen.user !in t.users)
            && (t'.confirmations == t.confirmations ||
                (Committed(o) && cfg.requiresConfirmation &&
                 t'.confirmations ==
                   t.confirmations[gen.confirmation := Token(gen.user, now, now + cfg.confirmationValidity)]))
  {
    hide NamedBy, Authenticate;
  }

  lemma RegisterShape(cfg: Config, t: Tables, step: Step)
    requires Stamped(t.confirmations, cfg.confirmationValidity, step.at)
    requires step.request.Register? && Consistent(t)
    ensures var t' := After(cfg, t, step);
            NoneEligible(ConfirmationKind, t, t', step.gen) &&
            (t'.confirmations == t.confirmations || exists u :: Issues(cfg, ConfirmationKind, t, t', step, u))
  {
    var r := Read(cfg, t, step.at, step.request);
    if r.Proceed? {
      if r.pending.AddConfirmation? {
        RepeatedRegisterShape(cfg, t, step, r.pending.user);
      } else {
        assert r.pending.CreateUser? by { hide CheckTakenName; }
        FirstRegisterShape(cfg, t, step.at, step.gen, r.pending.name, r.pending.hash);
        var t' := After(cfg, t, step);
        if t'.confirmations != t.confirmations {
          assert FarFromOthers(cfg, ConfirmationKind, t, step.at, step.gen.user);
          assert Issues(cfg, ConfirmationKind, t, t', step, step.gen.user) by { hide Commit, Read; }
        }
      }
    }
    hide Read, Commit, Issues;
  }

  lemma OtherCommit(cfg: Config, kind: Kind, t: Tables, now: Time, gen: Gen, p: Pending)
    requires !p.IssueReset? && !p.CreateUser? && !p.AddConfirmation?
    requires p.Activate? && kind.ConfirmationKind? ==>
               p.token in t.confirmations && t.confirmations[p.token].userId == p.user
    ensures var t' := Commit(cfg, t, now, gen, p).0;
            NoneEligible(kind, t, t', gen) && Keeps(kind, t, t')
  {
    CommitUsers(cfg, t, now, gen, p);
    if Committed(Commit(cfg, t, now, gen, p).1) {
      CommitTokens(cfg, t, now, gen, p);
    } else {
      FailureChangesNothing(cfg, t, now, gen, p);
    }
    hide Commit, UsersAfter;
    NobodyTurnsEligible(cfg, kind, t, Commit(cfg, t, now, gen, p).0, now, gen, p);
  }

  lemma NobodyTurnsEligible(cfg: Config, kind: Kind, t: Tables, t': Tables, now: Time, gen: Gen, p: Pending)
    requires !p.CreateUser? && (t'.users == t.users || t'.users == UsersAfter(cfg, t.users, now, gen, p))
    ensures NoneEligible(kind, t, t', gen)
  {
  }

  lemma ReadShape(cfg: Config, t: Tables, now: Time, request: Request)
    requires !request.InitPasswordReset? && !request.Register?
    ensures var r := Read(cfg, t, now, request);
            r.Proceed? ==>
            && !r.pending.IssueReset? && !r.pending.CreateUser? && !r.pending.AddConfirmation?
            && (r.pending.Activate? ==> r.pending.token in t.confirmations &&
                                        t.confirmations[r.pending.token].userId == r.pending.user)
  {
  }

  /** A call issues at most one token, to a user with none within the gap. A token vanishes only when its
      user can never be issued one again: with the user, or, a confirmation token, on confirmation. */
  lemma CallShape(cfg: Config, kind: Kind, t: Tables, step: Step)
    requires Sound(t) && Stamped(Table(kind, t), Validity(cfg, kind), step.at)
    ensures var t' := After(cfg, t, step);
            NoneEligible(kind, t, t', step.gen) &&
            (Keeps(kind, t, t') || exists u :: Issues(cfg, kind, t, t', step, u))
  {
    hide UniqueNames, SessionsConfirmed;
    if step.request.InitPasswordReset? {
      if kind.ResetKind? { IssueResetShape(cfg, t, step); } else { IssueLeavesConfirmations(cfg, t, step); }
      hide After;
    } else if step.request.Register? {
      if kind.ConfirmationKind? { RegisterShape(cfg, t, step); } else { RegisterLeavesResets(cfg, t, step); }
      hide After;
    } else {
      ReadShape(cfg, t, step.at, step.request);
      var r := Read(cfg, t, step.at, step.request);
      if r.Proceed? { OtherCommit(cfg, kind, t, step.at, step.gen, r.pending); }
      hide Read, Commit;
    }
  }

  lemma IssueLeavesConfirmations(cfg: Config, t: Tables, step: Step)
    requires step.request.InitPasswordReset?
    ensures var t' := After(cfg, t, step); t'.users == t.users && t'.confirmations == t.confirmations
  {
  }

  lemma RegisterLeavesResets(cfg: Config, t: Tables, step: Step)
    requires step.request.Register?
    ensures var t' := After(cfg, t, step); t'.resets == t.resets && NoneEligible(ResetKind, t, t', step.gen)
  {
    var r := Read(cfg, t, step.at, step.request);
    if r.Proceed? && r.pending.CreateUser? {
      FirstRegisterShape(cfg, t, step.at, step.gen, r.pending.name, r.pending.hash);
      hide Commit;
    } else {
      hide NewUser, Authenticate;
    }
  }

  // ---- All tokens ever issued

  lemma KeepingKeepsSpaced(kind: Kind, t: Tables, t': Tables, issued: set<Id>, gen: Gen, seen: map<Id, Token>)
    requires Remembers(kind, t, issued, seen) && NoneEligible(kind, t, t', gen) && Keeps(kind, t, t')
    requires t'.users.Keys <= t.users.Keys + Ids(gen) && gen.user !in issued
    ensures seen + Table(kind, t') == seen && Remembers(kind, t', issued + Ids(gen), seen)
  {
    hide Issuable;
    assert t.users.Keys <= issued;
  }

  lemma IssuingRemembers(cfg: Config, kind: Kind, t: Tables, t': Tables, issued: set<Id>, step: Step, u: Id,
                         seen: map<Id, Token>)
    requires Remembers(kind, t, issued, seen) && NoneEligible(kind, t, t', step.gen) &&
             Issues(cfg, kind, t, t', step, u)
    requires t'.users.Keys <= t.users.Keys + Ids(step.gen) && Ids(step.gen) !! issued
    ensures seen + Table(kind, t') == seen[NewId(kind, step.gen) := Token(u, step.at, step.at + Validity(cfg, kind))]
    ensures Remembers(kind, t', issued + Ids(step.gen), seen + Table(kind, t'))
  {
    hide Issuable, FarFromOthers, Validity;
    var k := NewId(kind, step.gen);
    assert k in Ids(step.gen) && step.gen.user in Ids(step.gen);
    assert seen + Table(kind, t') == seen[k := Token(u, step.at, step.at + Validity(cfg, kind))];
  }

  lemma IssuingKeepsSpaced(cfg: Config, kind: Kind, t: Tables, t': Tables, issued: set<Id>, step: Step, u: Id,
                           seen: map<Id, Token>)
    requires Remembers(kind, t, issued, seen) && NoneEligible(kind, t, t', step.gen) &&
             Issues(cfg, kind, t, t', step, u)
    requires Ids(step.gen) !! issued
    requires Stamped(seen, Validity(cfg, kind), step.at) && Spaced(seen, Gap(cfg, kind))
    ensures var seen' := seen[NewId(kind, step.gen) := Token(u, step.at, step.at + Validity(cfg, kind))];
            Stamped(seen', Validity(cfg, kind), step.at) && Spaced(seen', Gap(cfg, kind))
  {
    hide Issuable, Gap;
    assert step.gen.user in Ids(step.gen);
    forall j | j in seen && seen[j].userId == u
      ensures step.at - seen[j].createdAt >= Gap(cfg, kind)
    {
      assert j in Table(kind, t);
    }
  }

  lemma CallUserIds(cfg: Config, t: Tables, step: Step)
    ensures After(cfg, t, step).users.Keys <= t.users.Keys + Ids(step.gen)
  {
    var r := Read(cfg, t, step.at, step.request);
    if r.Proceed? { CommitUsers(cfg, t, step.at, step.gen, r.pending); }
    hide Read, Commit;
  }

  /** One call keeps the spacing of all tokens ever issued. */
  lemma CallKeepsSpaced(cfg: Config, kind: Kind, t: Tables, now: Time, issued: set<Id>, step: Step,
                        seen: map<Id, Token>)
    requires Sound(t) && Remembers(kind, t, issued, seen)
    requires Stamped(seen, Validity(cfg, kind), now) && Spaced(seen, Gap(cfg, kind))
    requires now <= step.at && Ids(step.gen) !! issued
    ensures var t' := After(cfg, t, step);
            var seen' := seen + Table(kind, t');
            && Remembers(kind, t', issued + Ids(step.gen), seen')
            && Stamped(seen', Validity(cfg, kind), step.at) && Spaced(seen', Gap(cfg, kind))
  {
    hide After, Sound, Issuable;
    CallShape(cfg, kind, t, step);
    CallUserIds(cfg, t, step);
    var t' := After(cfg, t, step);
    assert step.gen.user in Ids(step.gen);
    if Keeps(kind, t, t') {
      KeepingKeepsSpaced(kind, t, t', issued, step.gen, seen);
    } else {
      var u :| Issues(cfg, kind, t, t', step, u);
      IssuingRemembers(cfg, kind, t, t', issued, step, u, seen);
      IssuingKeepsSpaced(cfg, kind, t, t', issued, step, u, seen);
    }
  }

  /** In every atomic run any two tokens ever issued to a user are created at least the gap apart. */
  lemma {:induction false} TokensSpaced(cfg: Config, kind: Kind, t: Tables, now: Time, issued: set<Id>,
                                        steps: seq<Step>, seen: map<Id, Token>)
    requires Sound(t) && Remembers(kind, t, issued, seen)
    requires Stamped(seen, Validity(cfg, kind), now) && Spaced(seen, Gap(cfg, kind))
    requires Timed(now, steps) && Fresh(issued, steps)
    ensures var all := Ever(cfg, kind, t, steps, seen);
            Stamped(all, Validity(cfg, kind), EndTime(now, steps)) && Spaced(all, Gap(cfg, kind))
    decreases |steps|
  {
    if steps != [] {
      hide Sound, Remembers, Stamped, Spaced;
      CallKeepsSpaced(cfg, kind, t, now, issued, steps[0], seen);
      CallKeepsSound(cfg, t, steps[0].at, steps[0].gen, steps[0].request);
      var t' := After(cfg, t, steps[0]);
      TokensSpaced(cfg, kind, t', steps[0].at, issued + Ids(steps[0].gen), steps[1..], seen + Table(kind, t'));
      assert EndTime(now, steps) == EndTime(steps[0].at, steps[1..]);
    }
  }

  // ---- How many are alive at once

  function Unexpired(tokens: map<Id, Token>, u: Id, now: Time): set<Id> {
    set k | k in tokens && tokens[k].userId == u && tokens[k].validUntil > now
  }

  /** ResetPassword accepts a token at its very last instant, too. */
  function Acceptable(tokens: map<Id, Token>, u: Id, now: Time): set<Id> {
    set k | k in tokens && tokens[k].userId == u && now <= tokens[k].validUntil
  }

  function CeilDiv(a: nat, b: nat): nat
    requires b > 0
  {
    (a + b - 1) / b
  }

  lemma {:induction false} HasOldest(tokens: map<Id, Token>, s: set<Id>) returns (k: Id)
    requires s != {} && s <= tokens.Keys
    ensures k in s && forall j :: j in s ==> tokens[k].createdAt <= tokens[j].createdAt
    decreases |s|
  {
    k :| k in s;
    if s != {k} {
      var rest := HasOldest(tokens, s - {k});
      if tokens[rest].createdAt < tokens[k].createdAt { k := rest; }
    }
  }

  /** Tokens of one user, spaced by the gap and all younger than `age`: from the oldest on, each further one
      takes up another gap. */
  lemma {:induction false} SpacedAreFew(tokens: map<Id, Token>, s: set<Id>, u: Id, gap: nat, now: Time, age: int)
    requires Spaced(tokens, gap) && s != {}
    requires forall k :: k in s ==> k in tokens && tokens[k].userId == u && 0 <= now - tokens[k].createdAt < age
    ensures (|s| - 1) * gap < age
    decreases |s|
  {
    var k := HasOldest(tokens, s);
    var rest := s - {k};
    assert |s| == |rest| + 1;
    if rest != {} {
      SpacedAreFew(tokens, rest, u, gap, now, age - gap);
      assert (|s| - 1) * gap == (|rest| - 1) * gap + gap;
    }
  }

  lemma DivisionBound(n: nat, a: nat, b: nat)
    requires b > 0 && n * b <= a
    ensures n <= a / b
  {
    var q := a / b;
    assert a == b * q + a % b;
    assert (q + 1 - n) * b > 0;
  }

  /** The rate bound: of all tokens ever issued to a user, at most ceil(V / g) are unexpired at any moment
      after the run, and at most floor(V / g) + 1 would still be accepted. */
  lemma UnexpiredTokensBounded(cfg: Config, kind: Kind, t: Tables, now: Time, issued: set<Id>, steps: seq<Step>,
                               seen: map<Id, Token>, u: Id, moment: Time)
    requires Sound(t) && Remembers(kind, t, issued, seen)
    requires Stamped(seen, Validity(cfg, kind), now) && Spaced(seen, Gap(cfg, kind))
    requires Timed(now, steps) && Fresh(issued, steps)
    requires Gap(cfg, kind) > 0 && moment >= EndTime(now, steps)
    ensures var all := Ever(cfg, kind, t, steps, seen);
            var v, g := Validity(cfg, kind), Gap(cfg, kind);
            && |Unexpired(all, u, moment)| <= CeilDiv(v, g)
            && |Acceptable(all, u, moment)| <= v / g + 1
  {
    hide Sound, Remembers, Ever;
    TokensSpaced(cfg, kind, t, now, issued, steps, seen);
    var all := Ever(cfg, kind, t, steps, seen);
    BoundedWhenSpaced(all, Validity(cfg, kind), Gap(cfg, kind), u, moment);
  }

  lemma BoundedWhenSpaced(tokens: map<Id, Token>, v: nat, g: nat, u: Id, now: Time)
    requires g > 0 && Stamped(tokens, v, now) && Spaced(tokens, g)
    ensures |Unexpired(tokens, u, now)| <= CeilDiv(v, g)
    ensures |Acceptable(tokens, u, now)| <= v / g + 1
  {
    hide Spaced;
    var s := Unexpired(tokens, u, now);
    if s != {} {
      SpacedAreFew(tokens, s, u, g, now, v);
      assert |s| * g == (|s| - 1) * g + g;
      DivisionBound(|s|, v + g - 1, g);
    }
    var a := Acceptable(tokens, u, now);
    if a != {} {
      SpacedAreFew(tokens, a, u, g, now, v + 1);
      DivisionBound(|a| - 1, v, g);
    }
  }

  ghost predicate Among(tokens: map<Id, Token>, all: map<Id, Token>) {
    forall k :: k in tokens ==> k in all && all[k] == tokens[k]
  }

  /** The tokens in the table at the end are among those ever issued. */
  lemma {:induction false} TableIsSeen(cfg: Config, kind: Kind, t: Tables, steps: seq<Step>, seen: map<Id, Token>)
    requires Among(Table(kind, t), seen)
    ensures Among(Table(kind, Run(cfg, t, steps)), Ever(cfg, kind, t, steps, seen))
    decreases |steps|
  {
    if steps != [] {
      var t' := After(cfg, t, steps[0]);
      assert Among(Table(kind, t'), seen + Table(kind, t'));
      hide Among, After;
      TableIsSeen(cfg, kind, t', steps[1..], seen + Table(kind, t'));
    }
  }

  /** In particular, from an empty database on: never more than ceil(V / g) unexpired tokens of one user in the
      table. */
  lemma BoundFromEmpty(cfg: Config, kind: Kind, now: Time, steps: seq<Step>, u: Id, moment: Time)
    requires Timed(now, steps) && Fresh({}, steps) && Gap(cfg, kind) > 0 && moment >= EndTime(now, steps)
    ensures |Unexpired(Table(kind, Run(cfg, EMPTY_TABLES, steps)), u, moment)| <=
            CeilDiv(Validity(cfg, kind), Gap(cfg, kind))
  {
    var none: map<Id, Token> := map[];
    var all, table := Ever(cfg, kind, EMPTY_TABLES, steps, none), Table(kind, Run(cfg, EMPTY_TABLES, steps));
    assert Sound(EMPTY_TABLES) && Remembers(kind, EMPTY_TABLES, {}, none);
    hide Sound, Remembers;
    UnexpiredTokensBounded(cfg, kind, EMPTY_TABLES, now, {}, steps, none, u, moment);
    TableIsSeen(cfg, kind, EMPTY_TABLES, steps, none);
    FewerOfFewer(Unexpired(table, u, moment), Unexpired(all, u, moment));
  }

  lemma {:induction false} FewerOfFewer(a: set<Id>, b: set<Id>)
    requires a <= b
    ensures |a| <= |b|
    decreases |a|
  {
    if x :| x in a { FewerOfFewer(a - {x}, b - {x}); }
  }
}
