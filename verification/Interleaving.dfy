/** Any number of clients at once: each call is a read step and a later commit step, with the
    steps of other calls, the environment and the clock in between. */
module Interleaving {
  import opened Common
  import opened Schema
  import opened Protocol
  import opened Consistency
  import opened Effects

  /** A transaction that committed, with the identifiers it generated. */
  datatype Event = Event(pending: Pending, gen: Gen, at: Time)

  /** `pending` holds the calls between their two steps; `issued` the identifiers handed out so far;
      `log` the committed transactions in commit order. */
  datatype World = World(t: Tables, now: Time, pending: map<nat, Pending>, issued: set<Id>, log: seq<Event>)

  datatype Action = Advance(to: Time)
                  | Begin(client: nat, request: Request)
                  | Finish(client: nat, gen: Gen)
                  | Abort(client: nat)

  ghost predicate Enabled(w: World, a: Action) {
    match a
    case Advance(to) => w.now <= to
    case Begin(c, _) => c !in w.pending
    case Finish(c, gen) => c in w.pending && Ids(gen) !! w.issued
    case Abort(c) => c in w.pending
  }

  ghost function Next(cfg: Config, w: World, a: Action): World
    requires Enabled(w, a)
  {
    match a
    case Advance(to) => w.(now := to)
    case Begin(c, request) =>
      (match Read(cfg, w.t, w.now, request)
       case Reply(_) => w
       case Proceed(p) => w.(pending := w.pending[c := p]))
    case Finish(c, gen) =>
      var p := w.pending[c];
      var (t', o) := Commit(cfg, w.t, w.now, gen, p);
      World(t', w.now, w.pending - {c}, w.issued + Ids(gen),
            if Committed(o) then w.log + [Event(p, gen, w.now)] else w.log)
    case Abort(c) => w.(pending := w.pending - {c})
  }

  ghost predicate Schedule(cfg: Config, w: World, actions: seq<Action>)
    decreases |actions|
  {
    actions == [] || (Enabled(w, actions[0]) && Schedule(cfg, Next(cfg, w, actions[0]), actions[1..]))
  }

  ghost function Execute(cfg: Config, w: World, actions: seq<Action>): World
    requires Schedule(cfg, w, actions)
    decreases |actions|
  {
    if actions == [] then w else Execute(cfg, Next(cfg, w, actions[0]), actions[1..])
  }

  // ---- Safety of sessions

  ghost predicate SubjectIssued(w: World, p: Pending) {
    match p
    case OpenSession(u, _) => u in w.issued
    case Rotate(u, _, _) => u in w.issued
    case ChangePassword(u, _, _) => u in w.issued
    case _ => true
  }

  /** Stale snapshots included: whoever is about to be given a session is no longer unconfirmed. */
  ghost predicate Safe(w: World) {
    && Sound(w.t)
    && w.t.users.Keys <= w.issued
    && forall c :: c in w.pending ==> SafeFor(w.t, w.pending[c]) && SubjectIssued(w, w.pending[c])
  }

  /** Between two tables with one new user at most, nobody else turns unconfirmed. */
  ghost predicate Confirming(t: Tables, t': Tables, created: Id) {
    forall u :: Unconfirmed(t', u) ==> Unconfirmed(t, u) || u == created
  }

  lemma CommitConfirms(cfg: Config, t: Tables, now: Time, gen: Gen, p: Pending)
    ensures Confirming(t, Commit(cfg, t, now, gen, p).0, gen.user)
    ensures Commit(cfg, t, now, gen, p).0.users.Keys <= t.users.Keys + {gen.user}
  {
    CommitUsers(cfg, t, now, gen, p);
    hide Commit;
  }

  lemma ReadSubjectIssued(cfg: Config, t: Tables, now: Time, request: Request)
    ensures var r := Read(cfg, t, now, request);
            r.Proceed? && (r.pending.OpenSession? || r.pending.Rotate? || r.pending.ChangePassword?)
            ==> r.pending.user in t.users
  {
  }

  lemma NextKeepsSafe(cfg: Config, w: World, a: Action)
    requires Safe(w) && Enabled(w, a)
    ensures Safe(Next(cfg, w, a))
  {
    match a
    case Begin(c, request) =>
      ReadIsSafe(cfg, w.t, w.now, request);
      ReadSubjectIssued(cfg, w.t, w.now, request);
      hide Read, Sound;
    case Finish(c, gen) =>
      CommitKeepsSound(cfg, w.t, w.now, gen, w.pending[c]);
      CommitConfirms(cfg, w.t, w.now, gen, w.pending[c]);
      assert gen.user in Ids(gen);
      hide Commit, Sound;
    case _ =>
  }

  /** In every interleaving a user who still requires confirmation is inactive and owns no access
      or refresh token, and nobody lacks a profile. */
  lemma {:induction false} UnconfirmedOwnNoSession(cfg: Config, w: World, actions: seq<Action>)
    requires Safe(w) && Schedule(cfg, w, actions)
    ensures Safe(Execute(cfg, w, actions))
    ensures var t := Execute(cfg, w, actions).t;
            && (forall u :: u in t.users && t.users[u].requiresConfirmation ==>
                !t.users[u].isActive && TokensOf(t.access, u) == {} &&
                forall k :: k in t.refresh ==> t.refresh[k].userId != u)
            && t.profiles.Keys == t.users.Keys
    decreases |actions|
  {
    if actions == [] {
      forall u, k | Unconfirmed(w.t, u) && k in w.t.access ensures w.t.access[k].userId != u {}
    } else {
      NextKeepsSafe(cfg, w, actions[0]);
      UnconfirmedOwnNoSession(cfg, Next(cfg, w, actions[0]), actions[1..]);
    }
  }

  // ---- No lost updates

  /** The columns of a user row that identify the account and say what it may do. */
  datatype Identity = Identity(username: Option<string>, password: Option<Hash>, isActive: bool,
                               scopes: seq<string>, requiresConfirmation: bool)

  function IdentityOf(users: map<Id, User>, u: Id): Option<Identity> {
    if u !in users then None
    else
      var r := users[u];
      Some(Identity(r.username, r.password, r.isActive, r.scopes, r.requiresConfirmation))
  }

  /** What one committed transaction is meant to do to the identity of user `u`. Sessions are not
      mentioned: opening, rotating or closing one must leave it alone. */
  function Intended(cfg: Config, e: Event, u: Id, before: Option<Identity>): Option<Identity> {
    match e.pending
    case CreateUser(name, hash) =>
      if u == e.gen.user then
        Some(Identity(Some(name), Some(hash), !cfg.requiresConfirmation, cfg.defaultScopes, cfg.requiresConfirmation))
      else before
    case ChangePassword(v, hash, _) =>
      if u == v && before.Some? then Some(before.value.(password := Some(hash))) else before
    case Activate(v, _, _) =>
      if u == v && before.Some? then Some(before.value.(isActive := true, requiresConfirmation := false)) else before
    case SetInactive(v) => if u == v && before.Some? then Some(before.value.(isActive := false)) else before
    case RemoveUser(v) => if u == v then None else before
    case _ => before
  }

  function Replay(cfg: Config, log: seq<Event>, u: Id, start: Option<Identity>): Option<Identity> {
    if log == [] then start
    else Intended(cfg, log[|log| - 1], u, Replay(cfg, log[..|log| - 1], u, start))
  }

  lemma CommitIsIntended(cfg: Config, t: Tables, now: Time, gen: Gen, p: Pending, u: Id)
    ensures var (t', o) := Commit(cfg, t, now, gen, p);
            IdentityOf(t'.users, u) == if Committed(o) then Intended(cfg, Event(p, gen, now), u, IdentityOf(t.users, u))
                                       else IdentityOf(t.users, u)
  {
    CommitUsers(cfg, t, now, gen, p);
    hide Commit;
  }

  /** Every interleaving leaves each account exactly as its committed account changes, applied one after the other in
      commit order, say. The copies that pending transactions hold go stale in between; nothing else of them is
      written back. */
  lemma {:induction false} NoLostUpdates(cfg: Config, w: World, actions: seq<Action>, u: Id, start: Option<Identity>)
    requires Schedule(cfg, w, actions)
    requires IdentityOf(w.t.users, u) == Replay(cfg, w.log, u, start)
    ensures var w' := Execute(cfg, w, actions);
            IdentityOf(w'.t.users, u) == Replay(cfg, w'.log, u, start)
    decreases |actions|
  {
    if actions != [] {
      var a, w1 := actions[0], Next(cfg, w, actions[0]);
      if a.Finish? {
        CommitIsIntended(cfg, w.t, w.now, a.gen, w.pending[a.client], u);
        assert w1.log != w.log ==> w1.log[..|w1.log| - 1] == w.log;
      }
      NoLostUpdates(cfg, w1, actions[1..], u, start);
    }
  }

  /** The hash last written for the user: by a password change, or else by registration. */
  function LastHash(log: seq<Event>, u: Id): Option<Hash> {
    if log == [] then None
    else
      var e := log[|log| - 1];
      if e.pending.ChangePassword? && e.pending.user == u then Some(e.pending.hash)
      else if e.pending.CreateUser? && e.gen.user == u then Some(e.pending.hash)
      else LastHash(log[..|log| - 1], u)
  }

  lemma {:induction false} ReplayedPassword(cfg: Config, log: seq<Event>, u: Id, start: Option<Identity>)
    requires Replay(cfg, log, u, start).Some?
    ensures var p := Replay(cfg, log, u, start).value.password;
            match LastHash(log, u)
            case Some(h) => p == Some(h)
            case None => start.Some? && p == start.value.password
  {
    if log != [] {
      var before := log[..|log| - 1];
      if Replay(cfg, before, u, start).Some? { ReplayedPassword(cfg, before, u, start); }
    }
  }

  /** In every interleaving the stored hash is the one of the last committed UpdatePassword or
      ResetPassword of that user, else the one Register stored, else the one it started with. */
  lemma StoredPasswordIsLastWritten(cfg: Config, w: World, actions: seq<Action>, u: Id)
    requires w.log == [] && Schedule(cfg, w, actions)
    requires u in Execute(cfg, w, actions).t.users
    ensures var w' := Execute(cfg, w, actions);
            match LastHash(w'.log, u)
            case Some(h) => w'.t.users[u].password == Some(h)
            case None => u in w.t.users && w'.t.users[u].password == w.t.users[u].password
  {
    var start := IdentityOf(w.t.users, u);
    NoLostUpdates(cfg, w, actions, u, start);
    ReplayedPassword(cfg, Execute(cfg, w, actions).log, u, start);
  }

  ghost predicate TouchesStatus(e: Event, u: Id) {
    match e.pending
    case CreateUser(_, _) => u == e.gen.user
    case Activate(v, _, _) => u == v
    case SetInactive(v) => u == v
    case RemoveUser(v) => u == v
    case _ => false
  }

  lemma {:induction false} ReplayedStatus(cfg: Config, log: seq<Event>, u: Id, start: Option<Identity>)
    requires start.Some?
    requires forall i :: 0 <= i < |log| ==> !TouchesStatus(log[i], u)
    ensures var r := Replay(cfg, log, u, start);
            r.Some? && r.value.(password := None) == start.value.(password := None)
  {
    if log != [] { ReplayedStatus(cfg, log[..|log| - 1], u, start); }
  }

  /** While nobody activates, deactivates or deletes the user, no interleaving of logins, refreshes, logouts
      and password changes, begun before or after, alters its name, scopes, activity or confirmation. */
  lemma SessionsLeaveStatusAlone(cfg: Config, w: World, actions: seq<Action>, u: Id)
    requires w.log == [] && Schedule(cfg, w, actions) && u in w.t.users
    requires var log := Execute(cfg, w, actions).log;
             forall i :: 0 <= i < |log| ==> !TouchesStatus(log[i], u)
    ensures var row := w.t.users[u];
            var users := Execute(cfg, w, actions).t.users;
            && u in users && users[u].username == row.username && users[u].scopes == row.scopes
            && users[u].isActive == row.isActive && users[u].requiresConfirmation == row.requiresConfirmation
  {
    var start := IdentityOf(w.t.users, u);
    NoLostUpdates(cfg, w, actions, u, start);
    ReplayedStatus(cfg, Execute(cfg, w, actions).log, u, start);
  }
}
