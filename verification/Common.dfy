/** What several modules need. */
module Common {

  /** A value that may be absent, as the nullable columns and results of the program may. */
  datatype Option<+T> = None | Some(value: T)

  /** An element of a non-empty set; the same one each time it is asked for the same set. */
  ghost function AnyOf<T>(s: set<T>): (x: T)
    requires s != {}
    ensures x in s
  {
    var x :| x in s; x
  }

  function Min(a: int, b: int): int { if a < b then a else b }

  function Max(a: int, b: int): int { if a < b then b else a }

  // ---- Which statements to come fail; those beyond the plan succeed

  /** The plan after `n` more statements. */
  function Later(plan: seq<bool>, n: nat): seq<bool> {
    if n <= |plan| then plan[n..] else []
  }

  /** The plan lets the n-th statement to come fail, counted from 0. */
  predicate Fails(plan: seq<bool>, n: nat) { n < |plan| && plan[n] }

  /** None of the next `n` statements fails. */
  predicate Smooth(plan: seq<bool>, n: nat) { forall i :: 0 <= i < n ==> !Fails(plan, i) }

  lemma LaterFails(plan: seq<bool>, m: nat)
    ensures Later(Later(plan, m), 1) == Later(plan, m + 1)
    ensures Fails(Later(plan, m), 0) <==> Fails(plan, m)
  {
  }

  lemma NoneYet(plan: seq<bool>)
    ensures Later(plan, 0) == plan && Smooth(plan, 0)
    ensures plan == [] ==> forall n :: Later(plan, n) == []
  {
  }

  lemma SmoothNext(plan: seq<bool>, n: nat)
    ensures Smooth(plan, n + 1) <==> Smooth(plan, n) && !Fails(plan, n)
  {
  }

  lemma SmoothSplits(plan: seq<bool>, m: nat, n: nat)
    ensures Smooth(plan, m + n) <==> Smooth(plan, m) && Smooth(Later(plan, m), n)
    ensures Later(Later(plan, m), n) == Later(plan, m + n)
  {
    forall i: nat ensures Fails(Later(plan, m), i) <==> Fails(plan, m + i) {}
    if Smooth(plan, m) && Smooth(Later(plan, m), n) {
      forall i: nat | i < m + n ensures !Fails(plan, i) {
        if i >= m { assert !Fails(Later(plan, m), i - m); }
      }
    }
  }

  /** A failure among the two statements after the m-th counts in any number that includes them. */
  lemma FailsByThen(plan: seq<bool>, m: nat, n: nat)
    requires !Smooth(Later(plan, m), 2) && m + 2 <= n
    ensures !Smooth(plan, m + 2) && !Smooth(plan, n)
  {
    SmoothSplits(plan, m, 2);
  }

  // ---- Parts of a list

  /** Positions in a list of length `n`, each at most once and in order. */
  ghost predicate Ascending(at: seq<nat>, n: nat) {
    (forall i :: 0 <= i < |at| ==> at[i] < n) && forall i, j :: 0 <= i < j < |at| ==> at[i] < at[j]
  }

  /** `part` is what stands in `list` at the positions. */
  ghost predicate Picks<T>(part: seq<T>, list: seq<T>, at: seq<nat>) {
    Ascending(at, |list|) && |part| == |at| && forall i :: 0 <= i < |at| ==> part[i] == list[at[i]]
  }

  /** The list gets one more element, which is taken or not. */
  lemma PicksOneMore<T>(part: seq<T>, list: seq<T>, at: seq<nat>, last: T)
    requires Picks(part, list, at)
    ensures Picks(part + [last], list + [last], at + [|list|])
    ensures Picks(part, list + [last], at) && |list| !in at
  {
  }

  lemma PicksNothing<T>(list: seq<T>)
    ensures Picks([], list, [])
  {
  }

  lemma PositionsBelow(at: seq<nat>, n: nat)
    requires Ascending(at, n)
    ensures at != [] ==> n > 0
  {
    if at != [] { assert at[0] < n; }
  }

  /** A set of positions can be listed in order in one way only. */
  lemma {:induction false} SamePositions(a: seq<nat>, b: seq<nat>, n: nat)
    requires Ascending(a, n) && Ascending(b, n) && forall k :: 0 <= k < n ==> (k in a <==> k in b)
    ensures a == b
    decreases n
  {
    hide Ascending;
    if n == 0 {
      PositionsBelow(a, n);
      PositionsBelow(b, n);
    } else {
      assert n - 1 in a <==> n - 1 in b;
      SamePositions(Before(a, n), Before(b, n), n - 1);
    }
  }

  /** The positions but the last possible one. */
  ghost function Before(at: seq<nat>, n: nat): (r: seq<nat>)
    requires Ascending(at, n) && n > 0
    ensures Ascending(r, n - 1) && at == (if n - 1 in at then r + [n - 1] else r)
    ensures forall k :: 0 <= k < n - 1 ==> (k in r <==> k in at)
  {
    if at != [] && at[|at| - 1] == n - 1 then at[..|at| - 1] else at
  }
}
