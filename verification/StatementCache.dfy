/** The shared statement caches: any number of goroutines look up, build, execute and store
    statements under a key, and each must execute the statement its own arguments call for. */
module StatementCache {
  import opened Common
  import opened CacheKey

  // ---- The protocol, for arguments A and statements S

  /** Where a goroutine stands in one Insert, Update or Upsert. */
  datatype Stage<A, S> = Idle
                       | Looking(args: A)
                       | Missed(args: A)
                       | Ready(args: A, statement: S, cached: bool)
                       | Storing(args: A, statement: S)

  datatype Action<A> = Start(id: nat, args: A)
                     | Lookup(id: nat)
                     | Build(id: nat)
                     | Execute(id: nat, ok: bool)
                     | Store(id: nat)

  /** `executed` records every statement sent to the database with the arguments it was sent for. */
  datatype State<A, S> = State(cache: map<string, S>, stages: map<nat, Stage<A, S>>, executed: seq<(A, S)>)

  function StageOf<A, S>(s: State<A, S>, id: nat): Stage<A, S> {
    if id in s.stages then s.stages[id] else Idle
  }

  predicate Enabled<A, S>(s: State<A, S>, a: Action<A>) {
    match a
    case Start(id, _) => StageOf(s, id).Idle?
    case Lookup(id) => StageOf(s, id).Looking?
    case Build(id) => StageOf(s, id).Missed?
    case Execute(id, _) => StageOf(s, id).Ready?
    case Store(id) => StageOf(s, id).Storing?
  }

  function Next<A, S>(key: A -> string, build: A -> Option<S>, s: State<A, S>, a: Action<A>): State<A, S>
    requires Enabled(s, a)
  {
    var g := StageOf(s, a.id);
    match a
    case Start(id, args) => s.(stages := s.stages[id := Looking(args)])
    case Lookup(id) =>
      var k := key(g.args);
      s.(stages := s.stages[id := if k in s.cache then Ready(g.args, s.cache[k], true) else Missed(g.args)])
    case Build(id) =>
      s.(stages := s.stages[id := if build(g.args).Some? then Ready(g.args, build(g.args).value, false) else Idle])
    case Execute(id, ok) =>
      s.(executed := s.executed + [(g.args, g.statement)],
         stages := s.stages[id := if ok && !g.cached then Storing(g.args, g.statement) else Idle])
    case Store(id) =>
      s.(cache := s.cache[key(g.args) := g.statement], stages := s.stages[id := Idle])
  }

  ghost predicate Schedule<A, S>(key: A -> string, build: A -> Option<S>, s: State<A, S>, actions: seq<Action<A>>)
    decreases |actions|
  {
    actions == [] || (Enabled(s, actions[0]) && Schedule(key, build, Next(key, build, s, actions[0]), actions[1..]))
  }

  ghost function Play<A, S>(key: A -> string, build: A -> Option<S>, s: State<A, S>, actions: seq<Action<A>>):
    State<A, S>
    requires Schedule(key, build, s, actions)
    decreases |actions|
  {
    if actions == [] then s else Play(key, build, Next(key, build, s, actions[0]), actions[1..])
  }

  ghost predicate StartsWith<A>(valid: A -> bool, actions: seq<Action<A>>) {
    forall i :: 0 <= i < |actions| && actions[i].Start? ==> valid(actions[i].args)
  }

  /** Arguments that share a key call for the same statement. */
  ghost predicate KeyDetermines<A(!new), S>(key: A -> string, build: A -> Option<S>, valid: A -> bool) {
    forall a, b :: valid(a) && valid(b) && key(a) == key(b) ==> build(a) == build(b)
  }

  /** Nothing but the statement built afresh was ever executed. */
  ghost predicate Faithful<A, S>(build: A -> Option<S>, executed: seq<(A, S)>) {
    forall i :: 0 <= i < |executed| ==> build(executed[i].0) == Some(executed[i].1)
  }

  /** A cache entry is what any valid arguments with its key call for; a goroutine holds its own statement. */
  ghost predicate Coherent<A(!new), S>(key: A -> string, build: A -> Option<S>, valid: A -> bool, s: State<A, S>) {
    && (forall a :: valid(a) && key(a) in s.cache ==> build(a) == Some(s.cache[key(a)]))
    && (forall id :: id in s.stages && !s.stages[id].Idle? ==> valid(s.stages[id].args))
    && (forall id :: id in s.stages && (s.stages[id].Ready? || s.stages[id].Storing?) ==>
          build(s.stages[id].args) == Some(s.stages[id].statement))
    && Faithful(build, s.executed)
  }

  lemma NextKeepsCoherent<A(!new), S>(key: A -> string, build: A -> Option<S>, valid: A -> bool, s: State<A, S>,
                                      a: Action<A>)
    requires KeyDetermines(key, build, valid) && Coherent(key, build, valid, s)
    requires Enabled(s, a) && (a.Start? ==> valid(a.args))
    ensures Coherent(key, build, valid, Next(key, build, s, a))
  {
  }

  /** If the key determines the statement, the cache is invisible: in every schedule of any number of goroutines,
      each executes exactly the statement built afresh from its own arguments. */
  lemma {:induction false} CacheInvisible<A(!new), S>(key: A -> string, build: A -> Option<S>, valid: A -> bool,
                                                      s: State<A, S>, actions: seq<Action<A>>)
    requires KeyDetermines(key, build, valid) && Coherent(key, build, valid, s)
    requires Schedule(key, build, s, actions) && StartsWith(valid, actions)
    ensures Faithful(build, Play(key, build, s, actions).executed)
    decreases |actions|
  {
    if actions != [] {
      NextKeepsCoherent(key, build, valid, s, actions[0]);
      CacheInvisible(key, build, valid, Next(key, build, s, actions[0]), actions[1..]);
    }
  }

  /** A statement that failed is not kept: as long as no execution succeeds, the cache stays as it was. */
  lemma {:induction false} FailedStatementsAreNotKept<A, S>(key: A -> string, build: A -> Option<S>, s: State<A, S>,
                                                            actions: seq<Action<A>>)
    requires Schedule(key, build, s, actions) && forall id :: id in s.stages ==> !s.stages[id].Storing?
    requires forall i :: 0 <= i < |actions| && actions[i].Execute? ==> !actions[i].ok
    ensures Play(key, build, s, actions).cache == s.cache
    decreases |actions|
  {
    if actions != [] {
      FailedStatementsAreNotKept(key, build, Next(key, build, s, actions[0]), actions[1..]);
    }
  }

  /** One that succeeded is, unless it came from the cache: the goroutine can store it next, and then it is found. */
  lemma SuccessfulStatementIsKept<A, S>(key: A -> string, build: A -> Option<S>, s: State<A, S>, id: nat)
    requires StageOf(s, id).Ready? && !StageOf(s, id).cached
    ensures var g, actions := StageOf(s, id), [Execute(id, true), Store(id)];
            && Schedule(key, build, s, actions)
            && Play(key, build, s, actions).cache == s.cache[key(g.args) := g.statement]
            && Play(key, build, s, actions).executed == s.executed + [(g.args, g.statement)]
  {
    var first: Action<A>, second: Action<A> := Execute(id, true), Store(id);
    var s1 := Next(key, build, s, first);
    var s2 := Next(key, build, s1, second);
    assert [first, second][1..] == [second] && [second][1..] == [];
    assert Schedule(key, build, s2, []) && Play(key, build, s2, []) == s2;
    assert Schedule(key, build, s1, [second]) && Play(key, build, s1, [second]) == s2;
  }

  /** One goroutine fills the cache for `a`, the next one asks for `b`. */
  function Collision<A>(a: A, b: A): seq<Action<A>> {
    [Start(0, a), Lookup(0), Build(0), Execute(0, true), Store(0), Start(1, b), Lookup(1), Execute(1, true)]
  }

  /** The state after each step of a collision. */
  function CollisionState<A, S>(k: string, a: A, b: A, x: S, i: nat): State<A, S> {
    if i == 0 then State(map[], map[], [])
    else if i == 1 then State(map[], map[0 := Looking(a)], [])
    else if i == 2 then State(map[], map[0 := Missed(a)], [])
    else if i == 3 then State(map[], map[0 := Ready(a, x, false)], [])
    else if i == 4 then State(map[], map[0 := Storing(a, x)], [(a, x)])
    else if i == 5 then State(map[k := x], map[0 := Idle], [(a, x)])
    else if i == 6 then State(map[k := x], map[0 := Idle, 1 := Looking(b)], [(a, x)])
    else if i == 7 then State(map[k := x], map[0 := Idle, 1 := Ready(b, x, true)], [(a, x)])
    else State(map[k := x], map[0 := Idle, 1 := Idle], [(a, x), (b, x)])
  }

  lemma CollisionStep<A, S>(key: A -> string, build: A -> Option<S>, a: A, b: A, x: S, i: nat)
    requires key(a) == key(b) && build(a) == Some(x) && i < 8
    ensures Enabled(CollisionState(key(a), a, b, x, i), Collision(a, b)[i])
    ensures Next(key, build, CollisionState(key(a), a, b, x, i), Collision(a, b)[i]) ==
            CollisionState(key(a), a, b, x, i + 1)
  {
  }

  lemma {:induction false} CollisionPlays<A, S>(key: A -> string, build: A -> Option<S>, a: A, b: A, x: S, i: nat)
    requires key(a) == key(b) && build(a) == Some(x) && i <= 8
    ensures Schedule(key, build, CollisionState(key(a), a, b, x, i), Collision(a, b)[i..])
    ensures Play(key, build, CollisionState(key(a), a, b, x, i), Collision(a, b)[i..]) ==
            CollisionState(key(a), a, b, x, 8)
    decreases 8 - i
  {
    if i < 8 {
      CollisionStep(key, build, a, b, x, i);
      CollisionPlays(key, build, a, b, x, i + 1);
      hide CollisionState, Collision, Next, Enabled;
      Unfold(key, build, CollisionState(key(a), a, b, x, i), Collision(a, b), i);
    }
  }

  /** If two arguments with one key call for different statements, some schedule executes a wrong one. */
  lemma CollisionVisible<A(!new), S>(key: A -> string, build: A -> Option<S>, a: A, b: A)
    requires key(a) == key(b) && build(a).Some? && build(b) != build(a)
    ensures Schedule(key, build, State(map[], map[], []), Collision(a, b))
    ensures !Faithful(build, Play(key, build, State(map[], map[], []), Collision(a, b)).executed)
  {
    var x := build(a).value;
    CollisionPlays(key, build, a, b, x, 0);
    assert Collision(a, b)[0..] == Collision(a, b);
    assert CollisionState(key(a), a, b, x, 8).executed[1] == (b, x);
  }

  /** So the cache is invisible in all schedules exactly if the key determines the statement. */
  lemma InvisibleExactlyIfKeyDetermines<A(!new), S(!new)>(key: A -> string, build: A -> Option<S>, valid: A -> bool)
    ensures KeyDetermines(key, build, valid) <==>
            forall actions :: Schedule(key, build, State(map[], map[], []), actions) && StartsWith(valid, actions) ==>
              Faithful(build, Play(key, build, State(map[], map[], []), actions).executed)
  {
    if KeyDetermines(key, build, valid) {
      forall actions | Schedule(key, build, State(map[], map[], []), actions) && StartsWith(valid, actions)
        ensures Faithful(build, Play(key, build, State(map[], map[], []), actions).executed)
      {
        CacheInvisible(key, build, valid, State(map[], map[], []), actions);
      }
    } else {
      var a, b :| valid(a) && valid(b) && key(a) == key(b) && build(a) != build(b);
      var (c, d) := if build(a).Some? then (a, b) else (b, a);
      CollisionVisible(key, build, c, d);
      assert StartsWith(valid, Collision(c, d));
    }
  }

  lemma Unfold<A, S>(key: A -> string, build: A -> Option<S>, s: State<A, S>, actions: seq<Action<A>>, i: nat)
    requires i < |actions| && Enabled(s, actions[i])
    requires Schedule(key, build, Next(key, build, s, actions[i]), actions[i + 1..])
    ensures Schedule(key, build, s, actions[i..])
    ensures Play(key, build, s, actions[i..]) == Play(key, build, Next(key, build, s, actions[i]), actions[i + 1..])
  {
    assert actions[i..][0] == actions[i] && actions[i..][1..] == actions[i + 1..];
  }

  // ---- The three caches

  /** What Insert passes to its key; Update passes no defaults. */
  datatype InsertArgs = InsertArgs(columns: Columns, nzDefaults: seq<string>)

  /** What Upsert passes to its key, and the options, which it does not. */
  datatype UpsertArgs = UpsertArgs(updateOnConflict: bool, conflict: seq<string>, update: Columns, insert: Columns,
                                   nzDefaults: seq<string>)
  datatype UpsertOptions = UpsertOptions(conflictTarget: string, updateSet: string)

  function KeyOfInsert(a: InsertArgs): string { InsertKey(a.columns, a.nzDefaults) }

  function KeyOfUpsert(a: UpsertArgs): string {
    UpsertKey(a.updateOnConflict, a.conflict, a.update, a.insert, a.nzDefaults)
  }

  ghost predicate InsertOver(names: set<string>, a: InsertArgs) {
    Over(names, a.columns.cols) && Over(names, a.nzDefaults)
  }

  ghost predicate UpsertOver(names: set<string>, a: UpsertArgs) {
    Over(names, a.conflict) && Over(names, a.update.cols) && Over(names, a.insert.cols) && Over(names, a.nzDefaults)
  }

  /** Insert and Update, whatever deterministic statement building they use, cannot tell the cache is there. */
  lemma InsertCacheInvisible<S>(names: set<string>, build: InsertArgs -> Option<S>, valid: InsertArgs -> bool,
                                actions: seq<Action<InsertArgs>>)
    requires PrefixFree(names) && forall a :: valid(a) ==> InsertOver(names, a)
    requires Schedule(KeyOfInsert, build, State(map[], map[], []), actions) && StartsWith(valid, actions)
    ensures Faithful(build, Play(KeyOfInsert, build, State(map[], map[], []), actions).executed)
  {
    forall a, b | valid(a) && valid(b) && KeyOfInsert(a) == KeyOfInsert(b) ensures a == b {
      InsertKeyInjective(names, a.columns, a.nzDefaults, b.columns, b.nzDefaults);
    }
    CacheInvisible(KeyOfInsert, build, valid, State(map[], map[], []), actions);
  }

  /** Upsert without options cannot either. */
  lemma UpsertCacheInvisible<S>(names: set<string>, build: UpsertArgs -> Option<S>, valid: UpsertArgs -> bool,
                                actions: seq<Action<UpsertArgs>>)
    requires PrefixFree(names) && forall a :: valid(a) ==> UpsertOver(names, a)
    requires Schedule(KeyOfUpsert, build, State(map[], map[], []), actions) && StartsWith(valid, actions)
    ensures Faithful(build, Play(KeyOfUpsert, build, State(map[], map[], []), actions).executed)
  {
    forall a, b | valid(a) && valid(b) && KeyOfUpsert(a) == KeyOfUpsert(b) ensures a == b {
      UpsertKeyInjective(names, a.updateOnConflict, a.conflict, a.update, a.insert, a.nzDefaults,
                         b.updateOnConflict, b.conflict, b.update, b.insert, b.nzDefaults);
    }
    CacheInvisible(KeyOfUpsert, build, valid, State(map[], map[], []), actions);
  }

  function KeyOfUpsertWithOptions(a: (UpsertArgs, UpsertOptions)): string { KeyOfUpsert(a.0) }

  /** With options, which are not part of the key, the Upsert cache is invisible exactly if no option makes a
      difference to the statement. */
  lemma UpsertOptionsVisible<S(!new)>(names: set<string>, build: ((UpsertArgs, UpsertOptions)) -> Option<S>,
                                      valid: ((UpsertArgs, UpsertOptions)) -> bool)
    requires PrefixFree(names) && forall a, o :: valid((a, o)) <==> UpsertOver(names, a)
    ensures (forall actions :: Schedule(KeyOfUpsertWithOptions, build, State(map[], map[], []), actions) &&
                               StartsWith(valid, actions) ==>
               Faithful(build, Play(KeyOfUpsertWithOptions, build, State(map[], map[], []), actions).executed))
            <==> (forall a, o, o' :: UpsertOver(names, a) ==> build((a, o)) == build((a, o')))
  {
    InvisibleExactlyIfKeyDetermines(KeyOfUpsertWithOptions, build, valid);
    if forall a, o, o' :: UpsertOver(names, a) ==> build((a, o)) == build((a, o')) {
      forall p, q | valid(p) && valid(q) && KeyOfUpsertWithOptions(p) == KeyOfUpsertWithOptions(q)
        ensures build(p) == build(q)
      {
        var (a, b) := (p.0, q.0);
        assert p == (a, p.1) && q == (b, q.1);
        UpsertKeyInjective(names, a.updateOnConflict, a.conflict, a.update, a.insert, a.nzDefaults,
                           b.updateOnConflict, b.conflict, b.update, b.insert, b.nzDefaults);
      }
      assert KeyDetermines(KeyOfUpsertWithOptions, build, valid);
    }
    if KeyDetermines(KeyOfUpsertWithOptions, build, valid) {
      forall a, o, o' | UpsertOver(names, a) ensures build((a, o)) == build((a, o')) {
        assert valid((a, o)) && valid((a, o'));
      }
    }
  }

  /** "c1", "c2", ... */
  function QuotedList(list: seq<string>): string {
    if list == [] then ""
    else "\"" + list[0] + "\"" + (if |list| == 1 then "" else ", ") + QuotedList(list[1..])
  }

  /** The conflict target of the upsert statement: an option replaces the conflict columns. */
  function ConflictTarget(conflict: seq<string>, options: UpsertOptions): string {
    if options.conflictTarget != "" then options.conflictTarget
    else if conflict != [] then "(" + QuotedList(conflict) + ")"
    else ""
  }

  /** And options do make a difference: a second Upsert that names another conflict target than the first one,
      all else equal, is executed with the first one's. */
  lemma UpsertOptionsCollide(args: UpsertArgs)
    ensures var build := (p: (UpsertArgs, UpsertOptions)) => Some(ConflictTarget(p.0.conflict, p.1));
            var a, b := (args, UpsertOptions("(id)", "")), (args, UpsertOptions("(username)", ""));
            Schedule(KeyOfUpsertWithOptions, build, State(map[], map[], []), Collision(a, b)) &&
            !Faithful(build, Play(KeyOfUpsertWithOptions, build, State(map[], map[], []), Collision(a, b)).executed)
  {
    var build := (p: (UpsertArgs, UpsertOptions)) => Some(ConflictTarget(p.0.conflict, p.1));
    var a, b := (args, UpsertOptions("(id)", "")), (args, UpsertOptions("(username)", ""));
    assert "(id)"[1] != "(username)"[1];
    CollisionVisible(KeyOfUpsertWithOptions, build, a, b);
  }

  // ---- One goroutine at a time

  /** A table's insert cache. */
  class InsertCache<S> {
    var entries: map<string, S>

    constructor ()
      ensures entries == map[]
    {
      entries := map[];
    }

    ghost predicate Agrees(build: InsertArgs -> Option<S>, names: set<string>)
      reads this
    {
      forall a :: InsertOver(names, a) && KeyOfInsert(a) in entries ==> build(a) == Some(entries[KeyOfInsert(a)])
    }

    /** Executes the statement for the arguments, from the cache or built; `ok` is the database's answer.
        A statement that could not be built is not executed, and one that failed is not kept. */
    method Insert(args: InsertArgs, build: InsertArgs -> Option<S>, ok: bool, ghost names: set<string>)
      returns (executed: Option<S>)
      requires PrefixFree(names) && InsertOver(names, args) && Agrees(build, names)
      modifies this
      ensures Agrees(build, names)
      ensures executed == build(args)
      ensures entries ==
              if executed.Some? && ok then old(entries)[KeyOfInsert(args) := executed.value] else old(entries)
    {
      var key := MakeCacheKey(args.columns, args.nzDefaults);
      var cached := key in entries;
      executed := if cached then Some(entries[key]) else build(args);
      if executed.None? || !ok { return; }
      if !cached {
        entries := entries[key := executed.value];
        forall a | InsertOver(names, a) && KeyOfInsert(a) == key ensures a == args {
          InsertKeyInjective(names, a.columns, a.nzDefaults, args.columns, args.nzDefaults);
        }
      } else {
        assert entries == entries[key := executed.value];
      }
    }
  }
}
