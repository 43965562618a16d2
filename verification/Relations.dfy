/** A one-to-many relation kept twice: as a foreign key column in the table and as a list on the
    parent object, by Add, Set and Remove. */
module Relations {
  import opened Common

  type Id = nat

  /** The spending_limits table, by primary key, with its asset_id column. `plan` says which of the coming
      statements fail. */
  class LimitTable {
    var rows: map<Id, Option<Id>>
    var plan: seq<bool>

    constructor (rows: map<Id, Option<Id>>, plan: seq<bool>)
      ensures this.rows == rows && this.plan == plan
    {
      this.rows, this.plan := rows, plan;
    }

    method Succeeds() returns (ok: bool)
      modifies this`plan
      ensures ok <==> !Fails(old(plan), 0)
      ensures plan == Later(old(plan), 1)
    {
      ok := plan == [] || !plan[0];
      plan := if plan == [] then [] else plan[1..];
    }

    /** UPDATE ... SET asset_id = `asset` WHERE id = `id` */
    method SetAsset(id: Id, asset: Option<Id>) returns (ok: bool)
      modifies this
      ensures rows == if ok && id in old(rows) then old(rows)[id := asset] else old(rows)
      ensures (ok <==> !Fails(old(plan), 0)) && plan == Later(old(plan), 1)
    {
      ok := Succeeds();
      if ok && id in rows { rows := rows[id := asset]; }
    }

    /** UPDATE ... SET asset_id = null WHERE asset_id = `asset` */
    method ReleaseAll(asset: Id) returns (ok: bool)
      modifies this
      ensures rows == if ok then Released(old(rows), asset) else old(rows)
      ensures forall k :: k in rows <==> k in old(rows)
      ensures forall k :: k in rows ==>
                rows[k] == if ok && old(rows)[k] == Some(asset) then None else old(rows)[k]
      ensures (ok <==> !Fails(old(plan), 0)) && plan == Later(old(plan), 1)
    {
      ok := Succeeds();
      if ok { rows := Released(rows, asset); }
    }

    /** INSERT; refused if the key is taken. */
    method Insert(id: Id, asset: Option<Id>) returns (ok: bool)
      modifies this
      ensures (ok <==> !Fails(old(plan), 0) && id !in old(rows)) && plan == Later(old(plan), 1)
      ensures rows == if ok then old(rows)[id := asset] else old(rows)
    {
      ok := Succeeds();
      if id in rows { ok := false; }
      if ok { rows := rows[id := asset]; }
    }
  }

  function Released(rows: map<Id, Option<Id>>, asset: Id): map<Id, Option<Id>> {
    map k | k in rows :: if rows[k] == Some(asset) then None else rows[k]
  }

  /** `related` says whether the relation struct exists. */
  class SpendingLimit {
    const id: Id
    var assetId: Option<Id>
    var related: bool
    var asset: Asset?

    constructor (id: Id, assetId: Option<Id>)
      ensures this.id == id && this.assetId == assetId && !related && asset == null
    {
      this.id, this.assetId, related, asset := id, assetId, false, null;
    }
  }

  // ---- The list operation on its own

  /** Removes the first occurrence by moving the last element into its place. */
  function SwapRemove<T(==)>(list: seq<T>, x: T): seq<T> {
    if x !in list then list
    else list[IndexOf(list, x) := list[|list| - 1]][..|list| - 1]
  }

  function IndexOf<T(==)>(list: seq<T>, x: T): (i: nat)
    requires x in list
    ensures i < |list| && list[i] == x && x !in list[..i]
  {
    if list[0] == x then 0 else
      assert x in list[1..];
      var i := 1 + IndexOf(list[1..], x);
      assert list[..i] == [list[0]] + list[1..][..i - 1];
      i
  }

  function SwapRemoveAll<T(==)>(list: seq<T>, xs: seq<T>): seq<T>
    decreases |xs|
  {
    if xs == [] then list else SwapRemoveAll(SwapRemove(list, xs[0]), xs[1..])
  }

  lemma SwapRemoveContents<T>(list: seq<T>, x: T)
    ensures multiset(SwapRemove(list, x)) == multiset(list) - multiset{x}
  {
    if x in list {
      var n, i := |list| - 1, IndexOf(list, x);
      var swapped := list[i := list[n]];
      assert swapped == swapped[..n] + [swapped[n]];
      assert list == list[..n] + [list[n]];
      assert swapped[n] == list[n];
      assert multiset(swapped) == multiset(list) - multiset{x} + multiset{list[n]};
    } else {
      assert x !in multiset(list);
    }
  }

  lemma SubtractTwice<T>(a: multiset<T>, b: multiset<T>, c: multiset<T>)
    ensures a - b - c == a - (b + c)
  {
  }

  /** The removal loops leave the old contents minus one occurrence of each removed element that was present. */
  lemma {:induction false} SwapRemoveAllContents<T>(list: seq<T>, xs: seq<T>)
    ensures multiset(SwapRemoveAll(list, xs)) == multiset(list) - multiset(xs)
    decreases |xs|
  {
    if xs != [] {
      assert multiset(xs) == multiset{xs[0]} + multiset(xs[1..]) by { assert xs == [xs[0]] + xs[1..]; }
      SwapRemoveContents(list, xs[0]);
      hide SwapRemove;
      SwapRemoveAllContents(SwapRemove(list, xs[0]), xs[1..]);
      SubtractTwice(multiset(list), multiset{xs[0]}, multiset(xs[1..]));
    }
  }

  lemma {:induction false} SwapRemoveAllSnoc<T>(list: seq<T>, xs: seq<T>, x: T)
    ensures SwapRemoveAll(list, xs + [x]) == SwapRemove(SwapRemoveAll(list, xs), x)
    decreases |xs|
  {
    if xs == [] {
      assert [] + [x] == [x] && [x][1..] == [];
    } else {
      assert (xs + [x])[0] == xs[0] && (xs + [x])[1..] == xs[1..] + [x];
      SwapRemoveAllSnoc(SwapRemove(list, xs[0]), xs[1..], x);
    }
  }

  lemma {:induction false} IndexOfFirst<T>(list: seq<T>, x: T, i: nat)
    requires i < |list| && list[i] == x && x !in list[..i]
    ensures IndexOf(list, x) == i
    decreases i
  {
    if i > 0 {
      assert list[..i][0] == list[0] && list[..i] == [list[0]] + list[1..][..i - 1];
      IndexOfFirst(list[1..], x, i - 1);
    }
  }

  // ---- Rows and ids

  ghost predicate DistinctIds(limits: seq<SpendingLimit>) {
    forall i, j :: 0 <= i < j < |limits| ==> limits[i].id != limits[j].id
  }

  function IdsOf(limits: seq<SpendingLimit>): set<Id> { set i | 0 <= i < |limits| :: limits[i].id }

  /** The table after the objects have been inserted, or updated; an update of a missing row does nothing. */
  function AddRows(rows: map<Id, Option<Id>>, limits: seq<SpendingLimit>, asset: Id, insert: bool):
    map<Id, Option<Id>>
  {
    map k | k in rows.Keys + (if insert then IdsOf(limits) else {}) ::
      if k in IdsOf(limits) then Some(asset) else rows[k]
  }

  function RemoveRows(rows: map<Id, Option<Id>>, limits: seq<SpendingLimit>): map<Id, Option<Id>> {
    map k | k in rows :: if k in IdsOf(limits) then None else rows[k]
  }

  /** The k-th statement of an addition fails: by plan, or because it inserts a row whose key is taken. */
  ghost predicate Stops(rows: map<Id, Option<Id>>, plan: seq<bool>, insert: bool, added: seq<SpendingLimit>, k: nat)
    requires k < |added|
  {
    Fails(plan, k) || (insert && (added[k].id in rows || added[k].id in IdsOf(added[..k])))
  }

  /** It is the first one that fails. */
  ghost predicate StopsAt(rows: map<Id, Option<Id>>, plan: seq<bool>, insert: bool, added: seq<SpendingLimit>, j: nat) {
    j < |added| && Stops(rows, plan, insert, added, j) && NoneStops(rows, plan, insert, added, j)
  }

  ghost predicate NoneStops(rows: map<Id, Option<Id>>, plan: seq<bool>, insert: bool, added: seq<SpendingLimit>,
                            n: nat)
  {
    n <= |added| && forall i :: 0 <= i < n ==> !Stops(rows, plan, insert, added, i)
  }

  lemma IdsOfSnoc(limits: seq<SpendingLimit>, k: nat)
    requires k < |limits|
    ensures IdsOf(limits[..k + 1]) == IdsOf(limits[..k]) + {limits[k].id}
  {
    forall x | x in IdsOf(limits[..k + 1]) ensures x in IdsOf(limits[..k]) + {limits[k].id} {
      var i :| 0 <= i < k + 1 && limits[..k + 1][i].id == x;
      if i < k { assert limits[..k][i].id == x; }
    }
    forall x | x in IdsOf(limits[..k]) + {limits[k].id} ensures x in IdsOf(limits[..k + 1]) {
      if x == limits[k].id {
        assert limits[..k + 1][k].id == x;
      } else {
        var i :| 0 <= i < k && limits[..k][i].id == x;
        assert limits[..k + 1][i].id == x;
      }
    }
  }

  lemma AddRowsSnoc(rows: map<Id, Option<Id>>, limits: seq<SpendingLimit>, asset: Id, insert: bool, k: nat)
    requires k < |limits|
    ensures var before, id := AddRows(rows, limits[..k], asset, insert), limits[k].id;
            && AddRows(rows, limits[..k + 1], asset, insert) ==
               (if insert || id in before then before[id := Some(asset)] else before)
            && (id in before <==> id in rows || (insert && id in IdsOf(limits[..k])))
  {
    IdsOfSnoc(limits, k);
  }

  lemma RemoveRowsSnoc(rows: map<Id, Option<Id>>, limits: seq<SpendingLimit>, k: nat)
    requires k < |limits|
    ensures var before := RemoveRows(rows, limits[..k]);
            RemoveRows(rows, limits[..k + 1]) ==
            if limits[k].id in before then before[limits[k].id := None] else before
  {
    IdsOfSnoc(limits, k);
  }

  /** Row by row: the first `n` objects have the foreign key set in their rows, and all other rows are as before. */
  lemma RowsAdded(rows: map<Id, Option<Id>>, added: seq<SpendingLimit>, asset: Id, insert: bool, n: nat)
    requires n <= |added|
    ensures var rows' := AddRows(rows, added[..n], asset, insert);
            && (forall k :: k in rows' <==> k in rows || (insert && exists i :: 0 <= i < n && added[i].id == k))
            && (forall k :: k in rows' ==>
                  rows'[k] == if exists i :: 0 <= i < n && added[i].id == k then Some(asset) else rows[k])
  {
    IdsOfFirst(added, n);
    hide IdsOf;
  }

  /** Likewise for removals. */
  lemma RowsRemoved(rows: map<Id, Option<Id>>, removed: seq<SpendingLimit>, n: nat)
    requires n <= |removed|
    ensures var rows' := RemoveRows(rows, removed[..n]);
            && (forall k :: k in rows' <==> k in rows)
            && (forall k :: k in rows' ==>
                  rows'[k] == if exists i :: 0 <= i < n && removed[i].id == k then None else rows[k])
  {
    IdsOfFirst(removed, n);
    hide IdsOf;
  }

  lemma IdsOfFirst(limits: seq<SpendingLimit>, n: nat)
    requires n <= |limits|
    ensures forall k :: k in IdsOf(limits[..n]) <==> exists i :: 0 <= i < n && limits[i].id == k
  {
    assert forall i :: 0 <= i < n ==> limits[..n][i] == limits[i];
  }

  lemma IdsMembership(limits: seq<SpendingLimit>, l: SpendingLimit)
    requires l in limits
    ensures l.id in IdsOf(limits)
  {
    var i :| 0 <= i < |limits| && limits[i] == l;
  }

  lemma IdsOfConcat(a: seq<SpendingLimit>, b: seq<SpendingLimit>)
    ensures IdsOf(a + b) == IdsOf(a) + IdsOf(b)
    ensures DistinctIds(a) && DistinctIds(b) && IdsOf(a) !! IdsOf(b) ==> DistinctIds(a + b)
  {
    forall x | x in IdsOf(a) + IdsOf(b) ensures x in IdsOf(a + b) {
      if x in IdsOf(a) {
        var i :| 0 <= i < |a| && a[i].id == x;
        assert (a + b)[i].id == x;
      } else {
        var i :| 0 <= i < |b| && b[i].id == x;
        assert (a + b)[|a| + i].id == x;
      }
    }
    if DistinctIds(a) && DistinctIds(b) && IdsOf(a) !! IdsOf(b) {
      forall i, j | 0 <= i < j < |a + b| ensures (a + b)[i].id != (a + b)[j].id {
        if i < |a| <= j {
          assert a[i].id in IdsOf(a) && b[j - |a|].id in IdsOf(b);
        }
      }
    }
  }

  // ---- When list and table agree

  /** The ids of the list are those of the rows with the foreign key, each once. */
  ghost predicate Corresponds(rows: map<Id, Option<Id>>, limits: seq<SpendingLimit>, asset: Id) {
    DistinctIds(limits) && forall k :: k in rows && rows[k] == Some(asset) <==> k in IdsOf(limits)
  }

  /** Insertions all go through exactly if the ids are new, to the table and among each other. */
  lemma InsertionsGoThrough(rows: map<Id, Option<Id>>, plan: seq<bool>, added: seq<SpendingLimit>)
    ensures NoneStops(rows, plan, true, added, |added|) <==>
            DistinctIds(added) && IdsOf(added) !! rows.Keys && forall k :: 0 <= k < |added| ==> !Fails(plan, k)
  {
    if NoneStops(rows, plan, true, added, |added|) {
      forall i, j | 0 <= i < j < |added| ensures added[i].id != added[j].id {
        assert !Stops(rows, plan, true, added, j);
        assert added[..j][i].id in IdsOf(added[..j]);
      }
      forall i | 0 <= i < |added| ensures added[i].id !in rows && !Fails(plan, i) {
        assert !Stops(rows, plan, true, added, i);
      }
    }
    if DistinctIds(added) && IdsOf(added) !! rows.Keys && forall k :: 0 <= k < |added| ==> !Fails(plan, k) {
      forall j | 0 <= j < |added| ensures !Stops(rows, plan, true, added, j) {
        assert added[j].id in IdsOf(added);
      }
    }
  }

  /** A complete addition: insertions always leave list and table in agreement, updates exactly if every object has a
      row and no id is listed twice. */
  lemma AdditionCorresponds(rows: map<Id, Option<Id>>, limits: seq<SpendingLimit>, asset: Id, insert: bool,
                            added: seq<SpendingLimit>)
    requires Corresponds(rows, limits, asset)
    requires insert ==> DistinctIds(added) && IdsOf(added) !! rows.Keys
    ensures Corresponds(AddRows(rows, added, asset, insert), limits + added, asset) <==>
            insert || (DistinctIds(limits + added) && IdsOf(added) <= rows.Keys)
  {
    IdsOfConcat(limits, added);
    assert IdsOf(limits) <= rows.Keys;
    hide IdsOf, DistinctIds;
    var rows' := AddRows(rows, added, asset, insert);
    forall k ensures k in rows' && rows'[k] == Some(asset) <==>
                     k in IdsOf(limits) || (k in IdsOf(added) && (insert || k in rows)) {}
    if !insert && !(IdsOf(added) <= rows.Keys) {
      var k :| k in IdsOf(added) && k !in rows;
      assert k in IdsOf(limits + added);
    }
  }

  /** An addition cut short after `j` statements, none of which failed. */
  lemma PartialAddition(rows: map<Id, Option<Id>>, limits: seq<SpendingLimit>, asset: Id, insert: bool,
                        added: seq<SpendingLimit>, j: nat)
    requires Corresponds(rows, limits, asset) && j <= |added|
    requires insert ==> forall i :: 0 <= i < j ==> added[i].id !in rows
    ensures Corresponds(AddRows(rows, added[..j], asset, insert), limits, asset) <==>
            Harmless(rows, limits, insert, added, j)
  {
    var part, rows' := added[..j], AddRows(rows, added[..j], asset, insert);
    forall k ensures k in rows' && rows'[k] == Some(asset) <==>
                     k in IdsOf(limits) || (k in IdsOf(part) && (insert || k in rows)) {}
    forall i | 0 <= i < j ensures added[i].id in IdsOf(part) { assert part[i] == added[i]; }
    if insert && j > 0 { assert added[0].id in IdsOf(part) && added[0].id !in IdsOf(limits); }
    forall k | k in IdsOf(part) ensures exists i :: 0 <= i < j && added[i].id == k {
      var i :| 0 <= i < |part| && part[i].id == k;
      assert added[i].id == k;
    }
  }

  /** `rest` holds the listed objects that are not removed. */
  ghost predicate Keeps(limits: seq<SpendingLimit>, removed: seq<SpendingLimit>, rest: seq<SpendingLimit>) {
    && (forall i :: 0 <= i < |rest| ==> rest[i] in limits && rest[i] !in removed)
    && (forall i :: 0 <= i < |limits| ==> limits[i] in removed || limits[i] in rest)
  }

  /** Each listed object that has the id of a removed one is itself removed. */
  ghost predicate Covers(removed: seq<SpendingLimit>, limits: seq<SpendingLimit>) {
    forall i :: 0 <= i < |limits| && limits[i].id in IdsOf(removed) ==> limits[i] in removed
  }

  lemma CountsDecide(limits: seq<SpendingLimit>, removed: seq<SpendingLimit>, rest: seq<SpendingLimit>,
                     l: SpendingLimit)
    requires DistinctIds(limits) && multiset(rest) == multiset(limits) - multiset(removed)
    ensures l in rest <==> l in limits && l !in removed
  {
    if l in limits { OccursOnce(limits, l); }
    assert l in rest <==> l in multiset(rest);
    assert l in limits <==> l in multiset(limits);
    assert l in removed <==> l in multiset(removed);
  }

  /** What is left after the removal loops, when no id is listed twice. */
  lemma RemovalShape(limits: seq<SpendingLimit>, removed: seq<SpendingLimit>, rest: seq<SpendingLimit>)
    requires DistinctIds(limits) && multiset(rest) == multiset(limits) - multiset(removed)
    ensures DistinctIds(rest) && Keeps(limits, removed, rest)
    ensures if Covers(removed, limits) then IdsOf(rest) == IdsOf(limits) - IdsOf(removed)
            else !(IdsOf(rest) !! IdsOf(removed))
  {
    forall i | 0 <= i < |rest| ensures rest[i] in limits && rest[i] !in removed {
      CountsDecide(limits, removed, rest, rest[i]);
    }
    forall i | 0 <= i < |limits| ensures limits[i] in removed || limits[i] in rest {
      CountsDecide(limits, removed, rest, limits[i]);
    }
    NoRepeats(limits, rest);
    if Covers(removed, limits) {
      forall x ensures x in IdsOf(rest) <==> x in IdsOf(limits) - IdsOf(removed) {
        IdsAfterRemoval(limits, removed, rest, x);
      }
    } else {
      var i :| 0 <= i < |limits| && limits[i].id in IdsOf(removed) && limits[i] !in removed;
      IdsMembership(rest, limits[i]);
    }
  }

  /** After a removal list and table agree exactly if no listed object has been bypassed by another one with its id. */
  lemma RemovalCorresponds(rows: map<Id, Option<Id>>, limits: seq<SpendingLimit>, asset: Id,
                           removed: seq<SpendingLimit>, rest: seq<SpendingLimit>)
    requires Corresponds(rows, limits, asset) && multiset(rest) == multiset(limits) - multiset(removed)
    ensures Corresponds(RemoveRows(rows, removed), rest, asset) <==> Covers(removed, limits)
    ensures Keeps(limits, removed, rest)
  {
    RemovalShape(limits, removed, rest);
    var rows' := RemoveRows(rows, removed);
    forall k ensures k in rows' && rows'[k] == Some(asset) <==> k in IdsOf(limits) && k !in IdsOf(removed) {
      assert k in rows' && rows'[k] == Some(asset) <==> k in rows && rows[k] == Some(asset) && k !in IdsOf(removed);
    }
    if !Covers(removed, limits) {
      var k :| k in IdsOf(rest) && k in IdsOf(removed);
      assert !(k in rows' && rows'[k] == Some(asset));
    }
  }

  /** A removal cut short after `j` statements has left the list alone, so it must not have cleared a listed row. */
  lemma PartialRemoval(rows: map<Id, Option<Id>>, limits: seq<SpendingLimit>, asset: Id, removed: seq<SpendingLimit>)
    requires Corresponds(rows, limits, asset)
    ensures Corresponds(RemoveRows(rows, removed), limits, asset) <==> IdsOf(removed) !! IdsOf(limits)
  {
    var rows' := RemoveRows(rows, removed);
    forall k ensures k in rows' && rows'[k] == Some(asset) <==> k in IdsOf(limits) && k !in IdsOf(removed) {
      assert k in rows' && rows'[k] == Some(asset) <==> k in rows && rows[k] == Some(asset) && k !in IdsOf(removed);
    }
    if k :| k in IdsOf(removed) && k in IdsOf(limits) { assert !(k in rows' && rows'[k] == Some(asset)); }
  }

  /** The first `j` statements of an addition did not give the asset a row it does not list. */
  ghost predicate Harmless(rows: map<Id, Option<Id>>, limits: seq<SpendingLimit>, insert: bool,
                           added: seq<SpendingLimit>, j: nat)
    requires j <= |added|
  {
    if insert then j == 0 else forall i :: 0 <= i < j && added[i].id in rows ==> added[i].id in IdsOf(limits)
  }

  lemma ReleasedIsHarmless(rows: map<Id, Option<Id>>, asset: Id, insert: bool, added: seq<SpendingLimit>)
    ensures Released(rows, asset).Keys == rows.Keys
    ensures forall j :: 0 <= j <= |added| ==>
              (Harmless(Released(rows, asset), [], insert, added, j) <==> Harmless(rows, [], insert, added, j))
  {
  }

  lemma AdditionOutcome(rows: map<Id, Option<Id>>, plan: seq<bool>, limits: seq<SpendingLimit>, asset: Id, insert: bool,
                        added: seq<SpendingLimit>)
    requires Corresponds(rows, limits, asset) && NoneStops(rows, plan, insert, added, |added|)
    ensures Corresponds(AddRows(rows, added, asset, insert), limits + added, asset) <==>
            insert || (DistinctIds(limits + added) && IdsOf(added) <= rows.Keys)
  {
    if insert { InsertionsGoThrough(rows, plan, added); }
    hide Stops, AddRows, Corresponds;
    AdditionCorresponds(rows, limits, asset, insert, added);
  }

  lemma AdditionStopped(rows: map<Id, Option<Id>>, plan: seq<bool>, limits: seq<SpendingLimit>, asset: Id, insert: bool,
                        added: seq<SpendingLimit>, j: nat)
    requires Corresponds(rows, limits, asset) && StopsAt(rows, plan, insert, added, j)
    ensures Corresponds(AddRows(rows, added[..j], asset, insert), limits, asset) <==>
            Harmless(rows, limits, insert, added, j)
  {
    forall i | 0 <= i < j ensures insert ==> added[i].id !in rows { assert !Stops(rows, plan, insert, added, i); }
    hide Stops, AddRows, Corresponds;
    PartialAddition(rows, limits, asset, insert, added, j);
  }

  lemma OccursOnce(limits: seq<SpendingLimit>, l: SpendingLimit)
    requires DistinctIds(limits) && l in limits
    ensures multiset(limits)[l] == 1
  {
    var i :| 0 <= i < |limits| && limits[i] == l;
    assert limits == limits[..i] + [l] + limits[i + 1..];
    assert l !in limits[..i] && l !in limits[i + 1..];
    assert multiset(limits) == multiset(limits[..i]) + multiset{l} + multiset(limits[i + 1..]);
  }

  lemma TwiceCounts(list: seq<SpendingLimit>, i: nat, j: nat)
    requires i < j < |list| && list[i] == list[j]
    ensures multiset(list)[list[i]] >= 2
  {
    assert list == list[..j] + [list[j]] + list[j + 1..];
    assert list[i] in list[..j];
    assert multiset(list) == multiset(list[..j]) + multiset{list[j]} + multiset(list[j + 1..]);
  }

  lemma SameIdSameObject(limits: seq<SpendingLimit>, a: SpendingLimit, b: SpendingLimit)
    requires DistinctIds(limits) && a in limits && b in limits && a.id == b.id
    ensures a == b
  {
    var m :| 0 <= m < |limits| && limits[m] == a;
    var n :| 0 <= n < |limits| && limits[n] == b;
  }

  lemma NoRepeats(limits: seq<SpendingLimit>, rest: seq<SpendingLimit>)
    requires DistinctIds(limits) && multiset(rest) <= multiset(limits)
    ensures DistinctIds(rest)
  {
    forall i, j | 0 <= i < j < |rest| ensures rest[i].id != rest[j].id {
      var a, b := rest[i], rest[j];
      assert a in multiset(rest) && b in multiset(rest);
      OccursOnce(limits, a);
      if a.id == b.id {
        SameIdSameObject(limits, a, b);
        TwiceCounts(rest, i, j);
      }
    }
  }

  lemma IdsAfterRemoval(limits: seq<SpendingLimit>, removed: seq<SpendingLimit>, rest: seq<SpendingLimit>, x: Id)
    requires Keeps(limits, removed, rest) && Covers(removed, limits)
    ensures x in IdsOf(rest) <==> x in IdsOf(limits) - IdsOf(removed)
  {
    if x in IdsOf(rest) {
      var i :| 0 <= i < |rest| && rest[i].id == x;
      IdsMembership(limits, rest[i]);
      var j :| 0 <= j < |limits| && limits[j] == rest[i];
      assert limits[j].id !in IdsOf(removed);
    }
    if x in IdsOf(limits) - IdsOf(removed) {
      var i :| 0 <= i < |limits| && limits[i].id == x;
      if limits[i] in removed { IdsMembership(removed, limits[i]); }
      IdsMembership(rest, limits[i]);
    }
  }

  // ---- The parent object

  class Asset {
    const id: Id
    var related: bool
    var limits: seq<SpendingLimit>

    constructor (id: Id)
      ensures this.id == id && !related && limits == []
    {
      this.id, related, limits := id, false, [];
    }

    /** The list is part of the relation struct. */
    predicate Shaped()
      reads this
    {
      limits != [] ==> related
    }

    /** The listed ids are exactly the rows of this asset, and each listed item points back. */
    ghost predicate Agrees(table: LimitTable)
      reads this, table, limits
    {
      Shaped() && Corresponds(table.rows, limits, id) && AllPointBack(limits)
    }

    ghost predicate AllPointBack(list: seq<SpendingLimit>)
      reads list
    {
      forall i :: 0 <= i < |list| ==> list[i].asset == this && list[i].assetId == Some(id)
    }

    /** The statements of Add, object by object, up to the first that fails. */
    method AddToTable(table: LimitTable, insert: bool, added: seq<SpendingLimit>) returns (failed: bool, ghost j: nat)
      modifies table, added
      ensures !failed ==> NoneStops(old(table.rows), old(table.plan), insert, added, |added|) &&
                          table.rows == AddRows(old(table.rows), added, id, insert) &&
                          forall l :: l in added ==> l.assetId == Some(id)
      ensures failed ==> StopsAt(old(table.rows), old(table.plan), insert, added, j) &&
                         table.rows == AddRows(old(table.rows), added[..j], id, insert)
      ensures forall l :: l in added ==> l.asset == old(l.asset) && l.related == old(l.related)
      ensures failed ==> forall l :: l in added ==>
                l.assetId == if l in added[..if insert then j + 1 else j] then Some(id) else old(l.assetId)
      ensures old(table.plan) == [] ==> table.plan == []
    {
      hide AddRows, IdsOf, Later, Fails;
      ghost var rows, plan := table.rows, table.plan;
      NoneYet(plan);
      RowsAdded(rows, added, id, insert, 0);
      assert AddRows(rows, added[..0], id, insert) == rows;
      for k := 0 to |added|
        invariant table.plan == Later(plan, k) && NoneStops(rows, plan, insert, added, k)
        invariant table.rows == AddRows(rows, added[..k], id, insert)
        invariant forall l :: l in added ==> l.asset == old(l.asset) && l.related == old(l.related)
        invariant forall l :: l in added ==> l.assetId == if l in added[..k] then Some(id) else old(l.assetId)
      {
        var rel := added[k];
        assert added[..k + 1] == added[..k] + [rel];
        AddRowsSnoc(rows, added, id, insert, k);
        LaterFails(plan, k);
        if insert {
          rel.assetId := Some(id);
          var ok := table.Insert(rel.id, Some(id));
          if !ok { return true, k; }
        } else {
          var ok := table.SetAsset(rel.id, Some(id));
          if !ok { return true, k; }
          rel.assetId := Some(id);
        }
      }
      assert added[..|added|] == added;
      return false, |added|;
    }

    method PointBack(added: seq<SpendingLimit>)
      modifies added
      ensures forall l :: l in added ==> l.related && l.asset == this && l.assetId == old(l.assetId)
    {
      for k := 0 to |added|
        invariant forall i :: 0 <= i < k ==> added[i].related && added[i].asset == this
        invariant forall l :: l in added ==> l.assetId == old(l.assetId)
      {
        added[k].related := true;
        added[k].asset := this;
      }
    }

    /** Adds objects. If list and table agreed before, they still do after insertions; after updates exactly if every
        object has a row and no id is listed twice; and after a failure, at the j-th statement, exactly if the ones
        before it did not give the asset another row. */
    method AddSpendingLimits(table: LimitTable, insert: bool, added: seq<SpendingLimit>)
      returns (failed: bool, ghost j: nat)
      requires Shaped()
      modifies this, table, added
      ensures Shaped() && (old(table.plan) == [] ==> table.plan == [])
      ensures !failed <==> NoneStops(old(table.rows), old(table.plan), insert, added, |added|)
      ensures !failed ==> limits == old(limits) + added && table.rows == AddRows(old(table.rows), added, id, insert)
      ensures !failed && old(Agrees(table)) ==>
                (Agrees(table) <==>
                 insert || (DistinctIds(old(limits) + added) && IdsOf(added) <= old(table.rows).Keys))
      ensures failed ==> StopsAt(old(table.rows), old(table.plan), insert, added, j)
      ensures failed ==> limits == old(limits) && table.rows == AddRows(old(table.rows), added[..j], id, insert)
      ensures failed && old(Agrees(table)) ==> (Agrees(table) <==> Harmless(old(table.rows), limits, insert, added, j))
      ensures forall k :: k in table.rows <==>
                k in old(table.rows) ||
                (insert && exists i :: 0 <= i < (if failed then j else |added|) && added[i].id == k)
      ensures forall k :: k in table.rows ==>
                table.rows[k] ==
                if exists i :: 0 <= i < (if failed then j else |added|) && added[i].id == k then Some(id)
                else old(table.rows)[k]
      ensures related == (!failed || old(related))
      ensures !failed ==> forall l :: l in added ==> l.related && l.asset == this && l.assetId == Some(id)
      ensures failed ==> forall l :: l in added ==>
                && l.related == old(l.related) && l.asset == old(l.asset)
                && l.assetId == if l in added[..if insert then j + 1 else j] then Some(id) else old(l.assetId)
    {
      ghost var rows, plan, list, agreed := table.rows, table.plan, limits, Agrees(table);
      failed, j := AddToTable(table, insert, added);
      RowsAdded(rows, added, id, insert, if failed then j else |added|);
      assert added[..|added|] == added;
      if agreed {
        if failed { AdditionStopped(rows, plan, list, id, insert, added, j); }
        else { AdditionOutcome(rows, plan, list, id, insert, added); }
      }
      hide Corresponds, IdsOf, DistinctIds, AddRows, Stops, Harmless;
      if failed { return; }
      limits := if !related then added else limits + added;
      related := true;
      PointBack(added);
      assert list == [] ==> list + added == added;
      assert limits == list + added;
    }

    method Detach(list: seq<SpendingLimit>)
      modifies list
      ensures forall l :: l in list ==>
                && l.assetId == None && l.related == old(l.related)
                && l.asset == if l.related then null else old(l.asset)
    {
      for k := 0 to |list|
        invariant forall l :: l in list ==> l.related == old(l.related)
        invariant forall l :: l in list ==>
                    if l in list[..k] then l.assetId == None && l.asset == if l.related then null else old(l.asset)
                    else l.assetId == old(l.assetId) && l.asset == old(l.asset)
      {
        assert list[..k + 1] == list[..k] + [list[k]];
        list[k].assetId := None;
        if list[k].related { list[k].asset := null; }
      }
    }

    /** The first part of Set: all rows of the asset are released, all listed objects detached. */
    method ReleaseLimits(table: LimitTable) returns (ok: bool)
      requires Shaped()
      modifies this, table, limits
      ensures (ok <==> !Fails(old(table.plan), 0)) && table.plan == Later(old(table.plan), 1)
      ensures (old(table.plan) == [] ==> table.plan == []) && related == old(related)
      ensures ok ==> Shaped() && Agrees(table) && limits == [] && table.rows == Released(old(table.rows), id)
      ensures ok ==> forall k :: k in table.rows <==> k in old(table.rows)
      ensures ok ==> forall k :: k in table.rows ==>
                table.rows[k] == if old(table.rows)[k] == Some(id) then None else old(table.rows)[k]
      ensures ok ==> forall l :: l in old(limits) ==>
                l.assetId == None && l.related == old(l.related) && l.asset == if l.related then null else old(l.asset)
      ensures !ok ==> table.rows == old(table.rows) && limits == old(limits) && Agrees(table) == old(Agrees(table))
      ensures !ok ==> forall l :: l in old(limits) ==>
                l.assetId == old(l.assetId) && l.related == old(l.related) && l.asset == old(l.asset)
    {
      ok := table.ReleaseAll(id);
      if ok && related {
        Detach(limits);
        limits := [];
      }
    }

    /** Replaces the relation, whether or not list and table agreed before: they do after insertions, and after updates
        exactly if every object has a row and no id is given twice. */
    method SetSpendingLimits(table: LimitTable, insert: bool, added: seq<SpendingLimit>)
      returns (failed: bool, ghost j: nat)
      requires Shaped()
      modifies this, table, limits, added
      ensures Shaped() && (old(table.plan) == [] ==> table.plan == [])
      ensures !failed <==> !Fails(old(table.plan), 0) &&
                           NoneStops(Released(old(table.rows), id), Later(old(table.plan), 1), insert, added, |added|)
      ensures !failed ==> limits == added && table.rows == AddRows(Released(old(table.rows), id), added, id, insert)
      ensures !failed ==> (Agrees(table) <==> insert || (DistinctIds(added) && IdsOf(added) <= old(table.rows).Keys))
      ensures Fails(old(table.plan), 0) ==>
                limits == old(limits) && table.rows == old(table.rows) && Agrees(table) == old(Agrees(table))
      ensures failed && !Fails(old(table.plan), 0) ==>
                && StopsAt(Released(old(table.rows), id), Later(old(table.plan), 1), insert, added, j)
                && limits == [] && table.rows == AddRows(Released(old(table.rows), id), added[..j], id, insert)
                && (Agrees(table) <==> Harmless(old(table.rows), [], insert, added, j))
      ensures !Fails(old(table.plan), 0) ==> forall k :: k in table.rows <==>
                k in old(table.rows) ||
                (insert && exists i :: 0 <= i < (if failed then j else |added|) && added[i].id == k)
      ensures !Fails(old(table.plan), 0) ==> forall k :: k in table.rows ==>
                table.rows[k] ==
                if exists i :: 0 <= i < (if failed then j else |added|) && added[i].id == k then Some(id)
                else if old(table.rows)[k] == Some(id) then None else old(table.rows)[k]
      ensures related == (!failed || old(related))
      ensures !Fails(old(table.plan), 0) ==> forall l :: l in old(limits) && l !in added ==>
                l.assetId == None && l.related == old(l.related) && l.asset == if l.related then null else old(l.asset)
      ensures !failed ==> forall l :: l in added ==> l.related && l.asset == this && l.assetId == Some(id)
      ensures failed && !Fails(old(table.plan), 0) ==> forall l :: l in added ==>
                && l.related == old(l.related)
                && l.asset == (if l in old(limits) && l.related then null else old(l.asset))
                && l.assetId == if l in added[..if insert then j + 1 else j] then Some(id)
                                else if l in old(limits) then None else old(l.assetId)
      ensures Fails(old(table.plan), 0) ==> forall l :: l in old(limits) || l in added ==>
                l.assetId == old(l.assetId) && l.related == old(l.related) && l.asset == old(l.asset)
    {
      hide Stops, AddRows, Corresponds, Released, Harmless, IdsOf, DistinctIds;
      LaterFails(table.plan, 0);
      ghost var rows := table.rows;
      var ok := ReleaseLimits(table);
      if !ok { return true, 0; }
      ReleasedIsHarmless(rows, id, insert, added);
      failed, j := AddSpendingLimits(table, insert, added);
      assert [] + added == added;
    }

    /** The statements of Remove, object by object, up to the first that fails. An object is cleared before its row. */
    method RemoveFromTable(table: LimitTable, removed: seq<SpendingLimit>, ghost listed: seq<SpendingLimit>)
      returns (failed: bool, ghost j: nat)
      modifies table, removed
      ensures failed <==> !Smooth(old(table.plan), |removed|)
      ensures j == if failed then FirstFailure(old(table.plan), |removed|) else |removed|
      ensures table.rows == RemoveRows(old(table.rows), removed[..j])
      ensures forall l :: l in removed ==>
                && l.related == old(l.related)
                && if l in removed[..if failed then j + 1 else j]
                   then l.assetId == None && l.asset == if l.related then null else old(l.asset)
                   else l.assetId == old(l.assetId) && l.asset == old(l.asset)
      ensures old(AllPointBack(listed)) ==> StillPointBack(listed, removed[..if failed then j + 1 else j])
      ensures old(table.plan) == [] ==> table.plan == []
    {
      hide RemoveRows, IdsOf, Later, Fails, Smooth;
      ghost var rows, plan := table.rows, table.plan;
      NoneYet(plan);
      RowsRemoved(rows, removed, 0);
      assert removed[..0] == [] && RemoveRows(rows, removed[..0]) == rows;
      for k := 0 to |removed|
        invariant table.plan == Later(plan, k) && Smooth(plan, k)
        invariant table.rows == RemoveRows(rows, removed[..k])
        invariant forall l :: l in removed ==> l.related == old(l.related)
        invariant forall l :: l in removed ==>
                    if l in removed[..k] then l.assetId == None && l.asset == if l.related then null else old(l.asset)
                    else l.assetId == old(l.assetId) && l.asset == old(l.asset)
      {
        var rel := removed[k];
        rel.assetId := None;
        if rel.related { rel.asset := null; }
        RemoveRowsSnoc(rows, removed, k);
        LaterFails(plan, k);
        SmoothNext(plan, k);
        assert removed[..k + 1] == removed[..k] + [rel];
        var ok := table.SetAsset(rel.id, None);
        if !ok {
          FirstFailureIs(plan, |removed|, k);
          return true, k;
        }
      }
      return false, |removed|;
    }

    method RemoveFromList(rel: SpendingLimit)
      modifies this`limits
      ensures limits == SwapRemove(old(limits), rel)
      ensures rel !in old(limits) ==> limits == old(limits)
      ensures rel in old(limits) ==>
                |limits| == |old(limits)| - 1 &&
                exists i :: (0 <= i < |old(limits)| && old(limits)[i] == rel && rel !in old(limits)[..i] &&
                             forall k :: 0 <= k < |limits| ==> limits[k] == old(limits)[if k == i then |limits| else k])
    {
      for i := 0 to |limits|
        invariant limits == old(limits) && rel !in limits[..i]
      {
        if rel == limits[i] {
          IndexOfFirst(limits, rel, i);
          var ln := |limits|;
          if ln > 1 && i < ln - 1 {
            limits := limits[i := limits[ln - 1]];
          }
          limits := limits[..ln - 1];
          return;
        }
      }
      assert limits[..|limits|] == limits;
    }

    method RemoveAllFromList(removed: seq<SpendingLimit>)
      requires Shaped()
      modifies this`limits
      ensures limits == SwapRemoveAll(old(limits), removed)
    {
      if !related {
        EmptyStaysEmpty(removed);
        return;
      }
      ghost var list := limits;
      for k := 0 to |removed|
        invariant limits == SwapRemoveAll(list, removed[..k])
      {
        SwapRemoveAllSnoc(list, removed[..k], removed[k]);
        assert removed[..k + 1] == removed[..k] + [removed[k]];
        RemoveFromList(removed[k]);
      }
      assert removed[..|removed|] == removed;
    }

    /** Removes objects, listed ones by identity. If list and table agreed before, they still do exactly if every listed
        object with the id of a removed one is itself removed; after a failure, if no listed object was concerned. */
    method RemoveSpendingLimits(table: LimitTable, removed: seq<SpendingLimit>) returns (failed: bool, ghost j: nat)
      requires Shaped()
      modifies this, table, removed
      ensures Shaped() && (old(table.plan) == [] ==> table.plan == [])
      ensures failed <==> !Smooth(old(table.plan), |removed|)
      ensures !failed ==> limits == SwapRemoveAll(old(limits), removed)
      ensures !failed ==> table.rows == RemoveRows(old(table.rows), removed)
      ensures !failed ==> multiset(limits) == multiset(old(limits)) - multiset(removed)
      ensures !failed && old(Agrees(table)) ==> (Agrees(table) <==> Covers(removed, old(limits)))
      ensures failed ==> j == FirstFailure(old(table.plan), |removed|)
      ensures failed ==> limits == old(limits) && table.rows == RemoveRows(old(table.rows), removed[..j])
      ensures failed && old(Agrees(table)) ==>
                (Agrees(table) <==> IdsOf(removed[..j]) !! IdsOf(limits) && removed[j] !in limits)
      ensures forall k :: k in table.rows <==> k in old(table.rows)
      ensures forall k :: k in table.rows ==>
                table.rows[k] ==
                if exists i :: 0 <= i < (if failed then j else |removed|) && removed[i].id == k then None
                else old(table.rows)[k]
      ensures related == old(related)
      ensures forall l :: l in removed ==>
                && l.related == old(l.related)
                && if l in removed[..if failed then j + 1 else |removed|]
                   then l.assetId == None && l.asset == if l.related then null else old(l.asset)
                   else l.assetId == old(l.assetId) && l.asset == old(l.asset)
    {
      if |removed| == 0 {
        NothingRemoved(table.rows);
        assert removed == [];
        return false, 0;
      }
      ghost var rows, list, agreed := table.rows, limits, Agrees(table);
      if limits == [] { EmptyStaysEmpty(removed); }
      assert agreed ==> AllPointBack(list);
      hide Corresponds, IdsOf, DistinctIds, Covers, RemoveRows, Smooth, StillPointBack, AllPointBack;
      failed, j := RemoveFromTable(table, removed, list);
      RowsRemoved(rows, removed, j);
      assert removed[..|removed|] == removed;
      if failed {
        if agreed { RemovalStopped(table, rows, removed, j); }
      } else {
        SwapRemoveAllContents(limits, removed);
        RemoveAllFromList(removed);
        if agreed { RemovalDone(table, rows, list, removed); }
      }
    }

    /** Of the listed objects exactly the cleared ones no longer point back. */
    ghost predicate StillPointBack(list: seq<SpendingLimit>, cleared: seq<SpendingLimit>)
      reads list
    {
      forall i :: 0 <= i < |list| ==>
        if list[i] in cleared then list[i].assetId == None else list[i].assetId == Some(id) && list[i].asset == this
    }

    lemma RemovalDone(table: LimitTable, rows: map<Id, Option<Id>>, list: seq<SpendingLimit>,
                      removed: seq<SpendingLimit>)
      requires Corresponds(rows, list, id) && Shaped() && StillPointBack(list, removed)
      requires limits == SwapRemoveAll(list, removed) && table.rows == RemoveRows(rows, removed)
      ensures Agrees(table) <==> Covers(removed, list)
    {
      SwapRemoveAllContents(list, removed);
      RemovalCorresponds(rows, list, id, removed, limits);
      hide Corresponds, Covers;
    }

    /** The listed objects among those already cleared no longer point back. */
    lemma RemovalStopped(table: LimitTable, rows: map<Id, Option<Id>>, removed: seq<SpendingLimit>, j: nat)
      requires Corresponds(rows, limits, id) && Shaped() && j < |removed| &&
               table.rows == RemoveRows(rows, removed[..j])
      requires StillPointBack(limits, removed[..j + 1])
      ensures Agrees(table) <==> IdsOf(removed[..j]) !! IdsOf(limits) && removed[j] !in limits
    {
      PartialRemoval(rows, limits, id, removed[..j]);
      assert removed[..j + 1] == removed[..j] + [removed[j]];
      forall i | 0 <= i < |limits| && limits[i] in removed[..j]
        ensures limits[i].id in IdsOf(removed[..j]) && limits[i].id in IdsOf(limits)
      {
        IdsMembership(removed[..j], limits[i]);
      }
      hide Corresponds, IdsOf;
    }
  }

  /** Which of the next `n` statements is the first to fail. */
  function FirstFailure(plan: seq<bool>, n: nat): (j: nat)
    requires !Smooth(plan, n)
    ensures j < n && Fails(plan, j) && Smooth(plan, j)
  {
    if Smooth(plan, n - 1) then n - 1 else FirstFailure(plan, n - 1)
  }

  lemma FirstFailureIs(plan: seq<bool>, n: nat, k: nat)
    requires k < n && Fails(plan, k) && Smooth(plan, k)
    ensures !Smooth(plan, n) && FirstFailure(plan, n) == k
  {
    var j := FirstFailure(plan, n);
    assert !(j < k) && !(k < j);
  }

  lemma NothingRemoved(rows: map<Id, Option<Id>>)
    ensures RemoveRows(rows, []) == rows
  {
  }

  // ---- Two ways to lose the agreement without an error

  /** An update of an object that has no row is not an error; the list then has an id the table lacks. */
  method AddWithoutRow(id: Id, item: Id) returns (asset: Asset, table: LimitTable, failed: bool)
    ensures !failed && asset.limits != [] && table.rows == map[] && !asset.Agrees(table)
  {
    asset := new Asset(id);
    table := new LimitTable(map[], []);
    var l := new SpendingLimit(item, None);
    assert asset.Agrees(table);
    assert [l][0].id in IdsOf([l]);
    ghost var j;
    failed, j := asset.AddSpendingLimits(table, false, [l]);
    assert [] + [l] == [l];
  }

  /** An asset with one spending limit. */
  method WithOneLimit(id: Id, item: Id) returns (asset: Asset, table: LimitTable, l: SpendingLimit)
    ensures fresh(asset) && fresh(table) && fresh(l) && l.id == item && asset.id == id
    ensures asset.Agrees(table) && asset.limits == [l] && table.rows == map[item := Some(id)] && table.plan == []
  {
    asset := new Asset(id);
    table := new LimitTable(map[], []);
    l := new SpendingLimit(item, None);
    InsertionsGoThrough(table.rows, table.plan, [l]);
    SingleIds(l);
    hide IdsOf, DistinctIds, Stops;
    ghost var failed, j := asset.AddSpendingLimits(table, true, [l]);
    assert [] + [l] == [l];
  }

  /** Removing a second object for the same row, reloaded, say, clears the row and keeps the listed object. */
  method RemoveByCopy(id: Id, item: Id) returns (asset: Asset, table: LimitTable, failed: bool)
    ensures !failed && asset.limits != [] && table.rows == map[item := None] && !asset.Agrees(table)
  {
    var l;
    asset, table, l := WithOneLimit(id, item);
    var copy := new SpendingLimit(item, Some(id));
    SingleIds(copy);
    NotListed(l, copy);
    assert [l][0] == l;
    hide IdsOf, DistinctIds, SwapRemoveAll, Corresponds;
    ghost var j;
    failed, j := asset.RemoveSpendingLimits(table, [copy]);
  }

  lemma SingleIds(l: SpendingLimit)
    ensures IdsOf([l]) == {l.id} && DistinctIds([l])
  {
    assert [l][0] == l;
  }

  lemma NotListed(l: SpendingLimit, copy: SpendingLimit)
    requires l != copy
    ensures SwapRemoveAll([l], [copy]) == [l] && l !in [copy]
  {
    assert [copy][1..] == [];
  }

  // ---- Runs

  datatype Operation = Add(insert: bool, objs: seq<SpendingLimit>)
                     | Set(insert: bool, objs: seq<SpendingLimit>)
                     | Remove(objs: seq<SpendingLimit>)

  /** The table and the list together. */
  datatype Relation = Relation(rows: map<Id, Option<Id>>, limits: seq<SpendingLimit>)

  /** Insertions need new ids; updates need a row for every object, and no id listed twice. */
  ghost predicate Addable(rows: map<Id, Option<Id>>, limits: seq<SpendingLimit>, insert: bool,
                          objs: seq<SpendingLimit>)
  {
    if insert then DistinctIds(objs) && IdsOf(objs) !! rows.Keys
    else DistinctIds(limits + objs) && IdsOf(objs) <= rows.Keys
  }

  /** Exactly the operations that succeed and keep list and table in agreement. */
  ghost predicate Allowed(r: Relation, op: Operation) {
    match op
    case Add(insert, objs) => Addable(r.rows, r.limits, insert, objs)
    case Set(insert, objs) => Addable(r.rows, [], insert, objs)
    case Remove(objs) => Covers(objs, r.limits)
  }

  function Effect(r: Relation, op: Operation, asset: Id): Relation {
    match op
    case Add(insert, objs) => Relation(AddRows(r.rows, objs, asset, insert), r.limits + objs)
    case Set(insert, objs) => Relation(AddRows(Released(r.rows, asset), objs, asset, insert), objs)
    case Remove(objs) => Relation(RemoveRows(r.rows, objs), SwapRemoveAll(r.limits, objs))
  }

  function EffectAll(r: Relation, ops: seq<Operation>, asset: Id): Relation {
    if ops == [] then r else Effect(EffectAll(r, ops[..|ops| - 1], asset), ops[|ops| - 1], asset)
  }

  ghost predicate Allowable(r: Relation, ops: seq<Operation>, asset: Id) {
    forall i :: 0 <= i < |ops| ==> Allowed(EffectAll(r, ops[..i], asset), ops[i])
  }

  lemma AllowableNone(r: Relation, ops: seq<Operation>, asset: Id)
    ensures Allowable(r, ops[..0], asset) && EffectAll(r, ops[..0], asset) == r
  {
  }

  lemma AllowableSnoc(r: Relation, ops: seq<Operation>, asset: Id, k: nat)
    requires k < |ops|
    ensures Allowable(r, ops[..k + 1], asset) <==>
            Allowable(r, ops[..k], asset) && Allowed(EffectAll(r, ops[..k], asset), ops[k])
    ensures EffectAll(r, ops[..k + 1], asset) == Effect(EffectAll(r, ops[..k], asset), ops[k], asset)
    ensures Allowable(r, ops, asset) ==> Allowable(r, ops[..k + 1], asset)
  {
    hide Allowed, Effect;
    forall i | 0 <= i <= k ensures ops[..k + 1][..i] == ops[..i] && ops[..k + 1][i] == ops[i] {}
    forall i | 0 <= i < k ensures ops[..k][..i] == ops[..i] && ops[..k][i] == ops[i] {}
    assert Allowable(r, ops[..k + 1], asset) ==> Allowed(EffectAll(r, ops[..k + 1][..k], asset), ops[..k + 1][k]);
  }

  function Objects(ops: seq<Operation>): set<SpendingLimit> {
    set i, j | 0 <= i < |ops| && 0 <= j < |ops[i].objs| :: ops[i].objs[j]
  }

  /** With a database that does not fail, an operation succeeds and keeps the agreement exactly if it is allowed. */
  method Perform(asset: Asset, table: LimitTable, op: Operation) returns (failed: bool)
    requires asset.Shaped() && table.plan == []
    modifies asset, table, asset.limits, op.objs
    ensures asset.Shaped() && table.plan == []
    ensures !failed ==>
            Relation(table.rows, asset.limits) == Effect(old(Relation(table.rows, asset.limits)), op, asset.id)
    ensures old(asset.Agrees(table)) ==>
              (!failed && asset.Agrees(table) <==> Allowed(old(Relation(table.rows, asset.limits)), op))
  {
    ghost var rows := table.rows;
    if !op.Remove? && op.insert {
      InsertionsGoThrough(rows, [], op.objs);
      InsertionsGoThrough(Released(rows, asset.id), [], op.objs);
    }
    hide IdsOf, DistinctIds, AddRows;
    ghost var j;
    match op
    case Add(insert, objs) => failed, j := asset.AddSpendingLimits(table, insert, objs);
    case Set(insert, objs) =>
      failed, j := asset.SetSpendingLimits(table, insert, objs);
      assert [] + objs == objs;
    case Remove(objs) => failed, j := asset.RemoveSpendingLimits(table, objs);
  }

  lemma EffectObjects(r: Relation, op: Operation, asset: Id, i: nat)
    requires i < |Effect(r, op, asset).limits|
    ensures Effect(r, op, asset).limits[i] in r.limits || Effect(r, op, asset).limits[i] in op.objs
  {
    var l := Effect(r, op, asset).limits[i];
    if op.Remove? {
      SwapRemoveAllContents(r.limits, op.objs);
      assert l in multiset(Effect(r, op, asset).limits);
      assert l in multiset(r.limits);
    }
  }

  /** An operation of the sequence concerns and lists no objects but the old and the given ones. */
  lemma ObjectsStay(r: Relation, ops: seq<Operation>, asset: Id, k: nat, objects: set<SpendingLimit>)
    requires k < |ops| && Objects(ops) <= objects && forall i :: 0 <= i < |r.limits| ==> r.limits[i] in objects
    ensures forall j :: 0 <= j < |ops[k].objs| ==> ops[k].objs[j] in objects
    ensures var list := Effect(r, ops[k], asset).limits; forall i :: 0 <= i < |list| ==> list[i] in objects
  {
    assert forall j :: 0 <= j < |ops[k].objs| ==> ops[k].objs[j] in objects;
    forall i | 0 <= i < |Effect(r, ops[k], asset).limits| ensures Effect(r, ops[k], asset).limits[i] in objects {
      EffectObjects(r, ops[k], asset, i);
    }
  }

  /** Any sequence of additions, replacements and removals, up to the first that fails; `agreed` says whether list and
      table agreed after every one. All succeed and keep the agreement exactly if all are allowed, and as long as none
      fails both are what the operations say one by one. */
  method Maintain(asset: Asset, table: LimitTable, ops: seq<Operation>) returns (failed: bool, ghost agreed: bool)
    requires asset.Agrees(table) && table.plan == []
    modifies asset, table, asset.limits, Objects(ops)
    ensures !failed && agreed <==> Allowable(old(Relation(table.rows, asset.limits)), ops, asset.id)
    ensures agreed ==> asset.Agrees(table)
    ensures !failed ==>
              Relation(table.rows, asset.limits) == EffectAll(old(Relation(table.rows, asset.limits)), ops, asset.id)
  {
    hide Effect, EffectAll, Allowable, Allowed, Objects, Corresponds;
    ghost var start := Relation(table.rows, asset.limits);
    ghost var objects := Objects(ops) + set l | l in asset.limits;
    agreed := true;
    AllowableNone(start, ops, asset.id);
    for k := 0 to |ops|
      invariant asset.Shaped() && table.plan == [] && (agreed ==> asset.Agrees(table))
      invariant agreed <==> Allowable(start, ops[..k], asset.id)
      invariant Relation(table.rows, asset.limits) == EffectAll(start, ops[..k], asset.id)
      invariant forall i :: 0 <= i < |asset.limits| ==> asset.limits[i] in objects
    {
      AllowableSnoc(start, ops, asset.id, k);
      ObjectsStay(Relation(table.rows, asset.limits), ops, asset.id, k, objects);
      ghost var agreedBefore := agreed;
      failed := Perform(asset, table, ops[k]);
      agreed := agreedBefore && asset.Agrees(table);
      if failed { return; }
    }
    assert ops[..|ops|] == ops;
    failed := false;
  }

  lemma {:induction false} EmptyStaysEmpty(removed: seq<SpendingLimit>)
    ensures SwapRemoveAll([], removed) == []
    decreases |removed|
  {
    if removed != [] { EmptyStaysEmpty(removed[1..]); }
  }
}
