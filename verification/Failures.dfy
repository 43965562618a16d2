/** Whole runs over a failing database: failed calls leave no trace. */
module Failures {
  import opened Common
  import opened Schema
  import opened Protocol
  import opened Consistency
  import opened Service

  /** The calls of a run that are not struck out. */
  function Select(steps: seq<Step>, kept: seq<bool>): seq<Step>
    requires |kept| == |steps|
  {
    if steps == [] then []
    else Select(steps[..|steps| - 1], kept[..|steps| - 1]) +
         (if kept[|steps| - 1] then [steps[|steps| - 1]] else [])
  }

  lemma SelectExtends(steps: seq<Step>, kept: seq<bool>, i: nat, k: bool)
    requires i < |steps| && |kept| == i
    ensures Select(steps[..i + 1], kept + [k]) == Select(steps[..i], kept) + if k then [steps[i]] else []
  {
    assert steps[..i + 1][..i] == steps[..i];
    assert (kept + [k])[..i] == kept;
  }

  lemma RunExtends(cfg: Config, t: Tables, steps: seq<Step>, step: Step)
    ensures Run(cfg, t, steps + [step]) == After(cfg, Run(cfg, t, steps), step)
  {
    RunSplits(cfg, t, steps, [step]);
    assert [step][1..] == [];
  }

  /** One call of any kind. UpdatePassword and DeleteUserAccount get the account of the authenticated user. */
  method Handle(service: Service, step: Step) returns (o: Outcome)
    requires !service.db.inTransaction && UniqueNames(service.db.tables)
    modifies service.db
    ensures !service.db.inTransaction
    ensures old(service.db.faults) <= service.db.faults && old(service.db.lost) <= service.db.lost
    ensures AllOrNothing(service.cfg, old(service.db.tables), service.db.tables, step.at, step.gen,
                         Read(service.cfg, old(service.db.tables), step.at, step.request), o,
                         service.db.faults > old(service.db.faults), service.db.lost > old(service.db.lost),
                         if step.request.Login? && Fails(old(service.db.plan), 0) then Unauthorized
                         else DatabaseError)
  {
    var db, now, gen := service.db, step.at, step.gen;
    match step.request
    case Register(name, password, salt) => o := service.Register(name, password, salt, now, gen);
    case CompleteRegister(k) => o := service.CompleteRegister(k, now, gen);
    case Login(name, password) => o := service.Login(name, password, now, gen);
    case Refresh(k) => o := service.Refresh(k, now, gen);
    case Logout(a, r) => o := service.Logout(a, r, now, gen);
    case InitPasswordReset(name) => o := service.InitPasswordReset(name, now, gen);
    case ResetPassword(k, newPassword, salt) => o := service.ResetPassword(k, newPassword, salt, now, gen);
    case UpdatePassword(u, current, newPassword, salt) =>
      if u !in db.tables.users {
        o := Failed(Unauthorized);
      } else {
        o := service.UpdatePassword(ToAccount(u, db.tables.users[u]), Some(current), newPassword, salt, now, gen);
      }
    case DeleteUserAccount(u, current) =>
      if u !in db.tables.users {
        o := Failed(Unauthorized);
      } else {
        o := service.DeleteUserAccount(ToAccount(u, db.tables.users[u]), current, now, gen);
      }
    case Deactivate(u) =>
      var t := db.tables;
      var ok := db.ExecuteDirectly(
        Some(if u in t.users then t.(users := t.users[u := t.users[u].(isActive := false)]) else t));
      o := if ok then Done else Failed(DatabaseError);
    case SetReferenced(u, r) =>
      var t := db.tables;
      var ok := db.ExecuteDirectly(
        if r && u !in t.users then None
        else Some(t.(referenced := if r then t.referenced + {u} else t.referenced - {u})));
      o := if ok then Done else Failed(DatabaseError);
  }

  /** The tables before the i-th call of a run from which the calls not kept are left out. */
  ghost function Before(cfg: Config, start: Tables, steps: seq<Step>, kept: seq<bool>, i: nat): Tables
    requires i <= |steps| && i <= |kept|
  {
    Run(cfg, start, Select(steps[..i], kept[..i]))
  }

  /** The reply is one the call may give on these tables when nothing fails. */
  ghost predicate RepliesAsIfDone(cfg: Config, t: Tables, step: Step, o: Outcome) {
    MayReply(cfg, t, step.at, step.gen, Read(cfg, t, step.at, step.request), o)
  }

  /** How a call reports a fault that kept it from committing. A Login whose lookup fails is merely refused. */
  predicate ReportsFault(request: Request, o: Outcome) {
    o == Failed(DatabaseError) || (request.Login? && o == Failed(Unauthorized))
  }

  /** What each call of a run has told its caller. */
  ghost predicate Told(cfg: Config, start: Tables, steps: seq<Step>, kept: seq<bool>, lost: seq<bool>,
                       outcomes: seq<Outcome>, n: nat) {
    && n <= |steps| && |kept| == |lost| == |outcomes| == n
    && forall i :: 0 <= i < n ==>
         if kept[i] || lost[i] then RepliesAsIfDone(cfg, Before(cfg, start, steps, kept, i), steps[i], outcomes[i])
         else ReportsFault(steps[i].request, outcomes[i])
  }

  /** Counters of faults and of lost commits before the first call, between the calls and after the last: the calls kept
      are those during which nothing failed, and a commit was lost in those during which the second counter rose. */
  ghost predicate Counted(kept: seq<bool>, lost: seq<bool>, faults: seq<nat>, losses: seq<nat>) {
    |faults| == |losses| == |kept| + 1 == |lost| + 1 &&
    forall i :: 0 <= i < |kept| ==>
      && faults[i] <= faults[i + 1] && (kept[i] <==> faults[i] == faults[i + 1])
      && losses[i] <= losses[i + 1] && (lost[i] <==> losses[i] < losses[i + 1])
  }

  lemma ToldExtends(cfg: Config, start: Tables, steps: seq<Step>, kept: seq<bool>, lost: seq<bool>,
                    outcomes: seq<Outcome>, n: nat, k: bool, l: bool, o: Outcome)
    requires Told(cfg, start, steps, kept, lost, outcomes, n) && n < |steps|
    requires if k || l then RepliesAsIfDone(cfg, Before(cfg, start, steps, kept, n), steps[n], o)
             else ReportsFault(steps[n].request, o)
    ensures Told(cfg, start, steps, kept + [k], lost + [l], outcomes + [o], n + 1)
  {
    hide RepliesAsIfDone;
    forall i | 0 <= i <= n ensures (kept + [k])[..i] == kept[..i] {}
  }

  lemma CountedExtends(kept: seq<bool>, lost: seq<bool>, faults: seq<nat>, losses: seq<nat>, fault: nat, loss: nat)
    requires Counted(kept, lost, faults, losses) && faults[|kept|] <= fault && losses[|kept|] <= loss
    ensures Counted(kept + [faults[|kept|] == fault], lost + [losses[|kept|] < loss], faults + [fault], losses + [loss])
  {
  }

  /** Failure atomicity over runs: whatever statements fail, the tables end as after the fault-free run of the calls
      that met no fault, so nobody ends up without a profile or with half a session. Each of these calls replies as in
      that run, and so does one whose commit was lost; every other call reports its failure. */
  method Serve(service: Service, steps: seq<Step>)
    returns (kept: seq<bool>, outcomes: seq<Outcome>, ghost lost: seq<bool>, ghost faults: seq<nat>,
             ghost losses: seq<nat>)
    requires !service.db.inTransaction && Sound(service.db.tables)
    modifies service.db
    ensures |kept| == |outcomes| == |steps|
    ensures service.db.tables == Run(service.cfg, old(service.db.tables), Select(steps, kept))
    ensures Sound(service.db.tables)
    ensures Told(service.cfg, old(service.db.tables), steps, kept, lost, outcomes, |steps|)
    ensures Counted(kept, lost, faults, losses)
    ensures faults[0] == old(service.db.faults) && faults[|steps|] == service.db.faults
    ensures losses[0] == old(service.db.lost) && losses[|steps|] == service.db.lost
  {
    kept, outcomes, lost, faults, losses := [], [], [], [service.db.faults], [service.db.lost];
    ghost var start, cfg := service.db.tables, service.cfg;
    for i := 0 to |steps|
      invariant !service.db.inTransaction && Sound(service.db.tables)
      invariant Told(cfg, start, steps, kept, lost, outcomes, i)
      invariant service.db.tables == Before(cfg, start, steps, kept, i)
      invariant Counted(kept, lost, faults, losses)
      invariant faults[0] == old(service.db.faults) && faults[i] == service.db.faults
      invariant losses[0] == old(service.db.lost) && losses[i] == service.db.lost
    {
      ghost var t := service.db.tables;
      var before := service.db.faults;
      ghost var lostBefore := service.db.lost;
      assert UniqueNames(t);
      CallKeepsSound(cfg, t, steps[i].at, steps[i].gen, steps[i].request);
      hide Sound, UniqueNames, Read, Conclude, MayReply, Told, Before;
      var o := Handle(service, steps[i]);
      var k := service.db.faults == before;
      assert service.db.tables == if k then After(cfg, t, steps[i]) else t;
      ghost var l := lostBefore < service.db.lost;
      assert if k || l then RepliesAsIfDone(cfg, t, steps[i], o) else ReportsFault(steps[i].request, o);
      hide AllOrNothing, After, RepliesAsIfDone, Counted;
      CountedExtends(kept, lost, faults, losses, service.db.faults, service.db.lost);
      BeforeExtends(cfg, start, steps, kept, lost, outcomes, i, k);
      ToldExtends(cfg, start, steps, kept, lost, outcomes, i, k, l, o);
      kept, outcomes, lost := kept + [k], outcomes + [o], lost + [l];
      faults, losses := faults + [service.db.faults], losses + [service.db.lost];
    }
    assert steps[..|steps|] == steps && kept[..|steps|] == kept;
  }

  lemma BeforeExtends(cfg: Config, start: Tables, steps: seq<Step>, kept: seq<bool>, lost: seq<bool>,
                      outcomes: seq<Outcome>, i: nat, k: bool)
    requires Told(cfg, start, steps, kept, lost, outcomes, i) && i < |steps|
    ensures var t := Before(cfg, start, steps, kept, i);
            Before(cfg, start, steps, kept + [k], i + 1) == if k then After(cfg, t, steps[i]) else t
  {
    assert (kept + [k])[..i + 1] == kept + [k] && kept[..i] == kept;
    SelectExtends(steps, kept, i, k);
    RunExtends(cfg, start, Select(steps[..i], kept), steps[i]);
    assert Select(steps[..i], kept) + [] == Select(steps[..i], kept);
  }

  /** A lost commit goes unnoticed: here a logout whose commit fails is answered as done, and both tokens live on. */
  method LostLogout(cfg: Config, now: Time, gen: Gen) returns (db: Database, o: Outcome)
    ensures o == Done && db.lost > 0
    ensures 2 in db.tables.access && 3 in db.tables.refresh && Sound(db.tables)
  {
    var row := User(Some("u"), Some(Argon2id(0, "p")), true, [], None, 0, 0, false);
    var t := Tables(map[1 := row], map[1 := Profile(None, 0)], map[2 := Token(1, 0, 1)], map[3 := RefreshToken(1, 0)],
                    map[], map[], {});
    assert Sound(t);
    db := new Database(t, [false, false, false, true]);
    var service := new Service(cfg, db);
    hide Sound;
    o := service.Logout(2, Some(3), now, gen);
  }
}
