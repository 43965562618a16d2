/** The keys of the statement caches: column names run together without separators. */
module CacheKey {

  /** A column selection: how the list is to be read, and the list. */
  datatype Columns = Columns(kind: int, cols: seq<string>)

  predicate IsDigit(c: char) { '0' <= c <= '9' }

  // ---- Column names

  /** Not empty, no leading digit, no dot. */
  predicate IsName(s: string) {
    s != "" && !IsDigit(s[0]) && '.' !in s
  }

  /** The names a caller picks from: none begins another. */
  ghost predicate PrefixFree(names: set<string>) {
    && (forall a :: a in names ==> IsName(a))
    && (forall a, b :: a in names && b in names && a <= b ==> a == b)
  }

  ghost predicate Over(names: set<string>, list: seq<string>) {
    forall i :: 0 <= i < |list| ==> list[i] in names
  }

  // ---- The encoding

  function Concat(list: seq<string>): string {
    if list == [] then "" else list[0] + Concat(list[1..])
  }

  function Digit(d: nat): char
    requires d < 10
  {
    '0' + (d as char)
  }

  function Decimal(n: nat): string {
    if n < 10 then [Digit(n)] else Decimal(n / 10) + [Digit(n % 10)]
  }

  function Itoa(n: int): string {
    if n < 0 then "-" + Decimal(-n) else Decimal(n)
  }

  function InsertKey(columns: Columns, nzDefaults: seq<string>): string {
    Itoa(columns.kind) + Concat(columns.cols) + if nzDefaults == [] then "" else "." + Concat(nzDefaults)
  }

  function UpsertKey(updateOnConflict: bool, conflict: seq<string>, update: Columns, insert: Columns,
                     nzDefaults: seq<string>): string {
    (if updateOnConflict then "t" else "f") + "." + Concat(conflict) + "." +
    Itoa(update.kind) + Concat(update.cols) + "." +
    Itoa(insert.kind) + Concat(insert.cols) + "." + Concat(nzDefaults)
  }

  lemma {:induction false} ConcatSnoc(list: seq<string>, s: string)
    ensures Concat(list + [s]) == Concat(list) + s
  {
    if list == [] {
      assert [s][1..] == [] && [] + [s] == [s];
    } else {
      ConcatSnoc(list[1..], s);
      assert (list + [s])[0] == list[0] && (list + [s])[1..] == list[1..] + [s];
    }
  }

  /** Appends all names to the buffer. */
  method WriteAll(buffer: string, list: seq<string>) returns (result: string)
    ensures result == buffer + Concat(list)
  {
    result := buffer;
    for i := 0 to |list|
      invariant result == buffer + Concat(list[..i])
    {
      ConcatSnoc(list[..i], list[i]);
      assert list[..i + 1] == list[..i] + [list[i]];
      result := result + list[i];
    }
    assert list[..|list|] == list;
  }

  method MakeCacheKey(columns: Columns, nzDefaults: seq<string>) returns (key: string)
    ensures key == InsertKey(columns, nzDefaults)
  {
    key := Itoa(columns.kind);
    key := WriteAll(key, columns.cols);
    if |nzDefaults| != 0 { key := key + "."; }
    key := WriteAll(key, nzDefaults);
  }

  method MakeUpsertKey(updateOnConflict: bool, conflict: seq<string>, update: Columns, insert: Columns,
                       nzDefaults: seq<string>) returns (key: string)
    ensures key == UpsertKey(updateOnConflict, conflict, update, insert, nzDefaults)
  {
    key := if updateOnConflict then "t" else "f";
    key := key + ".";
    key := WriteAll(key, conflict);
    key := key + "." + Itoa(update.kind);
    key := WriteAll(key, update.cols);
    key := key + "." + Itoa(insert.kind);
    key := WriteAll(key, insert.cols);
    key := key + ".";
    key := WriteAll(key, nzDefaults);
  }

  /** How a numeral is read. */
  function Numeral(s: string): int
    requires forall i :: 0 <= i < |s| ==> IsDigit(s[i])
  {
    if s == "" then 0 else 10 * Numeral(s[..|s| - 1]) + (s[|s| - 1] as int - '0' as int)
  }

  lemma {:induction false} DecimalDigits(n: nat)
    ensures Decimal(n) != "" && forall i :: 0 <= i < |Decimal(n)| ==> IsDigit(Decimal(n)[i])
  {
    if n >= 10 { DecimalDigits(n / 10); }
  }

  /** The kind of a column list is written as the decimal numeral of its number. */
  lemma {:induction false} DecimalReads(n: nat)
    ensures (forall i :: 0 <= i < |Decimal(n)| ==> IsDigit(Decimal(n)[i])) && Numeral(Decimal(n)) == n
  {
    DecimalDigits(n);
    if n < 10 {
      assert Decimal(n)[..0] == "";
    } else {
      DecimalReads(n / 10);
      assert Decimal(n)[..|Decimal(n)| - 1] == Decimal(n / 10);
    }
  }

  /** The kind, the columns and, after a dot, the non-zero defaults; no dot if there are none. */
  lemma KeyTexts()
    ensures InsertKey(Columns(1, ["id", "name"]), ["scopes"]) == "1idname.scopes"
    ensures InsertKey(Columns(0, []), []) == "0"
    ensures UpsertKey(true, ["id"], Columns(1, ["id", "name"]), Columns(2, []), ["id", "name"])
            == "t.id.1idname.2.idname"
  {
    var names := ["id", "name"];
    assert Concat(names) == "idname" by { assert names[1..] == ["name"] && ["name"][1..] == []; }
    assert Concat(["scopes"]) == "scopes" by { assert ["scopes"][1..] == []; }
    assert Concat(["id"]) == "id" by { assert ["id"][1..] == []; }
  }

  // ---- Unique decoding

  /** What may follow a run of names: nothing, or a dot. */
  predicate Ends(rest: string) { rest == "" || rest[0] == '.' }

  lemma Assoc(a: string, b: string, c: string)
    ensures (a + b) + c == a + (b + c)
  {
  }

  lemma Cancel(a: string, x: string, y: string)
    requires a + x == a + y
    ensures x == y
  {
    assert x == (a + x)[|a|..] && y == (a + y)[|a|..];
  }

  lemma Comparable(a: string, x: string, b: string, y: string)
    requires a + x == b + y
    ensures a <= b || b <= a
  {
    var s := a + x;
    assert s[..|a|] == a && s[..|b|] == b;
  }

  /** A run of names up to a dot or the end can be read in one way only. */
  lemma {:induction false} NamesDecode(names: set<string>, xs: seq<string>, ys: seq<string>, r: string, q: string)
    requires PrefixFree(names) && Over(names, xs) && Over(names, ys) && Ends(r) && Ends(q)
    requires Concat(xs) + r == Concat(ys) + q
    ensures xs == ys && r == q
    decreases |xs|
  {
    if xs == [] && ys != [] {
      NothingStartsLikeAName(ys, r, q);
    } else if xs != [] && ys == [] {
      NothingStartsLikeAName(xs, q, r);
    } else if xs != [] {
      var x, y := Concat(xs[1..]) + r, Concat(ys[1..]) + q;
      Assoc(xs[0], Concat(xs[1..]), r);
      Assoc(ys[0], Concat(ys[1..]), q);
      Comparable(xs[0], x, ys[0], y);
      Cancel(xs[0], x, y);
      NamesDecode(names, xs[1..], ys[1..], r, q);
      assert xs == [xs[0]] + xs[1..] && ys == [ys[0]] + ys[1..];
    } else {
      assert Concat(xs) + r == r && Concat(ys) + q == q;
    }
  }

  lemma NothingStartsLikeAName(ys: seq<string>, r: string, q: string)
    requires ys != [] && IsName(ys[0]) && Ends(r)
    ensures r != Concat(ys) + q
  {
    assert (Concat(ys) + q)[0] == ys[0][0];
  }

  /** Not continuing a decimal number. */
  predicate StopsNumber(rest: string) { rest == "" || !IsDigit(rest[0]) }

  lemma {:induction false} DecimalInjective(m: nat, n: nat)
    requires Decimal(m) == Decimal(n)
    ensures m == n
  {
    DecimalDigits(m / 10);
    DecimalDigits(n / 10);
    if m >= 10 && n >= 10 {
      var a, b := Decimal(m), Decimal(n);
      assert a[..|a| - 1] == Decimal(m / 10) && b[..|b| - 1] == Decimal(n / 10);
      assert a[|a| - 1] == Digit(m % 10) && b[|b| - 1] == Digit(n % 10);
      DecimalInjective(m / 10, n / 10);
    }
  }

  function DigitRun(s: string): nat {
    if s == "" || !IsDigit(s[0]) then 0 else 1 + DigitRun(s[1..])
  }

  lemma {:induction false} DigitRunOf(digits: string, rest: string)
    requires (forall i :: 0 <= i < |digits| ==> IsDigit(digits[i])) && StopsNumber(rest)
    ensures DigitRun(digits + rest) == |digits|
  {
    if digits == "" {
      assert digits + rest == rest;
    } else {
      assert (digits + rest)[0] == digits[0] && (digits + rest)[1..] == digits[1..] + rest;
      DigitRunOf(digits[1..], rest);
    }
  }

  lemma DecimalDecodes(m: nat, n: nat, r: string, q: string)
    requires Decimal(m) + r == Decimal(n) + q && StopsNumber(r) && StopsNumber(q)
    ensures m == n && r == q
  {
    var a, b := Decimal(m), Decimal(n);
    DecimalDigits(m);
    DecimalDigits(n);
    DigitRunOf(a, r);
    DigitRunOf(b, q);
    assert (a + r)[..|a|] == a && (b + q)[..|b|] == b;
    DecimalInjective(m, n);
    Cancel(a, r, q);
  }

  /** The text of a number begins with a minus sign exactly if the number is negative. */
  lemma SignShows(m: int, r: string)
    ensures |Itoa(m) + r| > 0
    ensures (Itoa(m) + r)[0] == '-' <==> m < 0
    ensures m < 0 ==> Itoa(m) + r == "-" + (Decimal(-m) + r)
  {
    if m < 0 {
      Assoc("-", Decimal(-m), r);
    } else {
      DecimalDigits(m);
      assert (Itoa(m) + r)[0] == Decimal(m)[0];
    }
  }

  /** A kind is read back whatever names, dot or end follow it. */
  lemma KindDecodes(m: int, n: int, r: string, q: string)
    requires Itoa(m) + r == Itoa(n) + q && StopsNumber(r) && StopsNumber(q)
    ensures m == n && r == q
  {
    SignShows(m, r);
    SignShows(n, q);
    if m >= 0 {
      DecimalDecodes(m, n, r, q);
    } else {
      Cancel("-", Decimal(-m) + r, Decimal(-n) + q);
      DecimalDecodes(-m, -n, r, q);
    }
  }

  lemma NamesStopNumber(names: set<string>, list: seq<string>, r: string)
    requires PrefixFree(names) && Over(names, list) && Ends(r)
    ensures StopsNumber(Concat(list) + r)
  {
    if list != [] { assert (Concat(list) + r)[0] == list[0][0]; } else { assert Concat(list) + r == r; }
  }

  lemma ColumnsDecode(names: set<string>, a: Columns, b: Columns, r: string, q: string)
    requires PrefixFree(names) && Over(names, a.cols) && Over(names, b.cols) && Ends(r) && Ends(q)
    requires Itoa(a.kind) + Concat(a.cols) + r == Itoa(b.kind) + Concat(b.cols) + q
    ensures a == b && r == q
  {
    NamesStopNumber(names, a.cols, r);
    NamesStopNumber(names, b.cols, q);
    Assoc(Itoa(a.kind), Concat(a.cols), r);
    Assoc(Itoa(b.kind), Concat(b.cols), q);
    KindDecodes(a.kind, b.kind, Concat(a.cols) + r, Concat(b.cols) + q);
    NamesDecode(names, a.cols, b.cols, r, q);
  }

  function Tail(nz: seq<string>): string { if nz == [] then "" else "." + Concat(nz) }

  lemma TailDecodes(names: set<string>, a: seq<string>, b: seq<string>)
    requires PrefixFree(names) && Over(names, a) && Over(names, b) && Tail(a) == Tail(b)
    ensures a == b
  {
    if a != [] && b != [] {
      Cancel(".", Concat(a), Concat(b));
      assert Concat(a) + "" == Concat(b) + "";
      NamesDecode(names, a, b, "", "");
    }
  }

  /** The Insert and Update key says which kind, which columns and which non-zero defaults it was made from. */
  lemma InsertKeyInjective(names: set<string>, c: Columns, nz: seq<string>, c': Columns, nz': seq<string>)
    requires PrefixFree(names) && Over(names, c.cols) && Over(names, nz) && Over(names, c'.cols) && Over(names, nz')
    requires InsertKey(c, nz) == InsertKey(c', nz')
    ensures c == c' && nz == nz'
  {
    assert InsertKey(c, nz) == Itoa(c.kind) + Concat(c.cols) + Tail(nz);
    assert InsertKey(c', nz') == Itoa(c'.kind) + Concat(c'.cols) + Tail(nz');
    ColumnsDecode(names, c, c', Tail(nz), Tail(nz'));
    TailDecodes(names, nz, nz');
  }

  /** The Upsert key says all five things it was made from. */
  lemma UpsertKeyInjective(names: set<string>,
                           u: bool, conflict: seq<string>, update: Columns, insert: Columns, nz: seq<string>,
                           u': bool, conflict': seq<string>, update': Columns, insert': Columns, nz': seq<string>)
    requires PrefixFree(names)
    requires Over(names, conflict) && Over(names, update.cols) && Over(names, insert.cols) && Over(names, nz)
    requires Over(names, conflict') && Over(names, update'.cols) && Over(names, insert'.cols) && Over(names, nz')
    requires UpsertKey(u, conflict, update, insert, nz) == UpsertKey(u', conflict', update', insert', nz')
    ensures u == u' && conflict == conflict' && update == update' && insert == insert' && nz == nz'
  {
    var (k3, k3') := ("." + Concat(nz), "." + Concat(nz'));
    var (k2, k2') := (Itoa(insert.kind) + Concat(insert.cols) + k3, Itoa(insert'.kind) + Concat(insert'.cols) + k3');
    var (k1, k1') :=
        (Itoa(update.kind) + Concat(update.cols) + ("." + k2), Itoa(update'.kind) + Concat(update'.cols) + ("." + k2'));
    var (k0, k0') := ("." + (Concat(conflict) + ("." + k1)), "." + (Concat(conflict') + ("." + k1')));
    UpsertKeyShape(u, conflict, update, insert, nz);
    UpsertKeyShape(u', conflict', update', insert', nz');
    FlagDecodes(u, u', k0, k0');
    Cancel(".", Concat(conflict) + ("." + k1), Concat(conflict') + ("." + k1'));
    NamesDecode(names, conflict, conflict', "." + k1, "." + k1');
    Cancel(".", k1, k1');
    ColumnsDecode(names, update, update', "." + k2, "." + k2');
    Cancel(".", k2, k2');
    ColumnsDecode(names, insert, insert', k3, k3');
    Cancel(".", Concat(nz), Concat(nz'));
    assert Concat(nz) + "" == Concat(nz') + "";
    NamesDecode(names, nz, nz', "", "");
  }

  lemma FlagDecodes(u: bool, u': bool, r: string, q: string)
    requires (if u then "t" else "f") + r == (if u' then "t" else "f") + q
    ensures u == u' && r == q
  {
    assert ((if u then "t" else "f") + r)[0] == if u then 't' else 'f';
    Cancel(if u then "t" else "f", r, q);
  }

  lemma UpsertKeyShape(u: bool, conflict: seq<string>, update: Columns, insert: Columns, nz: seq<string>)
    ensures var k2 := Itoa(insert.kind) + Concat(insert.cols) + ("." + Concat(nz));
            var k1 := Itoa(update.kind) + Concat(update.cols) + ("." + k2);
            UpsertKey(u, conflict, update, insert, nz) ==
              (if u then "t" else "f") + ("." + (Concat(conflict) + ("." + k1)))
  {
    var flag, c, i, g := if u then "t" else "f", Concat(conflict), Concat(insert.cols), Concat(nz);
    var d, e, k := Itoa(update.kind), Concat(update.cols), Itoa(insert.kind);
    var k2 := k + i + ("." + g);
    Assoc(flag + "." + c + "." + d + e + "." + k + i, ".", g);
    Assoc(flag + "." + c + "." + d + e + "." + k, i, "." + g);
    Assoc(flag + "." + c + "." + d + e + ".", k, i + ("." + g));
    Assoc(k, i, "." + g);
    Assoc(flag + "." + c + "." + d + e, ".", k2);
    Assoc(flag + "." + c + "." + d, e, "." + k2);
    Assoc(flag + "." + c + ".", d, e + ("." + k2));
    Assoc(d, e, "." + k2);
    Assoc(flag + "." + c, ".", d + e + ("." + k2));
    Assoc(flag + ".", c, "." + (d + e + ("." + k2)));
    Assoc(flag, ".", c + ("." + (d + e + ("." + k2))));
  }

  // ---- The column lists of the tables

  /** `a` and `b` part at some position at or after `i`, `a` with the smaller character. */
  predicate PartsFrom(a: string, b: string, i: nat)
    decreases |a| - i
  {
    i < |a| && i < |b| && (a[i] < b[i] || (a[i] == b[i] && PartsFrom(a, b, i + 1)))
  }

  /** From index `k` on: proper names, in alphabetical order, each parting from the next one. */
  predicate SortedNames(list: seq<string>, k: nat)
    decreases |list| - k
  {
    k >= |list| || (IsName(list[k]) &&
                    (k + 1 < |list| ==> PartsFrom(list[k], list[k + 1], 0)) && SortedNames(list, k + 1))
  }

  ghost predicate PartAt(a: string, b: string, i: nat) {
    i < |a| && i < |b| && a[..i] == b[..i] && a[i] < b[i]
  }

  lemma {:induction false} PartsSomewhere(a: string, b: string, i: nat)
    requires i <= |a| && i <= |b| && a[..i] == b[..i] && PartsFrom(a, b, i)
    ensures exists j :: PartAt(a, b, j)
    decreases |a| - i
  {
    if a[i] < b[i] {
      assert PartAt(a, b, i);
    } else {
      assert a[..i + 1] == a[..i] + [a[i]] && b[..i + 1] == b[..i] + [b[i]];
      PartsSomewhere(a, b, i + 1);
    }
  }

  /** The converse, for names with a long common beginning. */
  lemma {:induction false} PartsLate(a: string, b: string, i: nat, n: nat)
    requires i <= n && PartAt(a, b, n)
    ensures PartsFrom(a, b, i)
    decreases n - i
  {
    if i < n {
      assert a[i] == a[..n][i] && b[i] == b[..n][i];
      PartsLate(a, b, i + 1, n);
    }
  }

  lemma PartingComposes(a: string, b: string, c: string, i: nat, j: nat)
    requires PartAt(a, b, i) && PartAt(b, c, j)
    ensures PartAt(a, c, if i < j then i else j)
  {
    var m := if i < j then i else j;
    assert a[..m] == a[..i][..m] && b[..m] == b[..i][..m] && b[..m] == b[..j][..m] && c[..m] == c[..j][..m];
    if i < j {
      assert b[i] == b[..j][i] && c[i] == c[..j][i];
    } else if j < i {
      assert a[j] == a[..i][j] && b[j] == b[..i][j];
    }
  }

  lemma PartedNeitherPrefix(a: string, b: string, i: nat)
    requires PartAt(a, b, i)
    ensures !(a <= b) && !(b <= a)
  {
  }

  lemma {:induction false} SortedFrom(list: seq<string>, k: nat, j: nat)
    requires SortedNames(list, k) && k < j < |list|
    ensures exists i :: PartAt(list[k], list[j], i)
    decreases |list| - k
  {
    PartsSomewhere(list[k], list[k + 1], 0);
    if k + 1 < j {
      SortedFrom(list, k + 1, j);
      var i :| PartAt(list[k], list[k + 1], i);
      var m :| PartAt(list[k + 1], list[j], m);
      PartingComposes(list[k], list[k + 1], list[j], i, m);
    }
  }

  lemma {:induction false} SortedSuffix(list: seq<string>, k: nat, j: nat)
    requires SortedNames(list, k) && k <= j < |list|
    ensures SortedNames(list, j)
    decreases j - k
  {
    if k < j { SortedSuffix(list, k + 1, j); }
  }

  lemma {:induction false} SortedJoin(a: seq<string>, b: seq<string>, k: nat)
    requires SortedNames(a, k) && SortedNames(b, 0) && k <= |a| && a != [] && b != []
    requires PartsFrom(a[|a| - 1], b[0], 0)
    ensures SortedNames(a + b, k)
    decreases |a| - k
  {
    if k < |a| {
      SortedJoin(a, b, k + 1);
    } else {
      SortedShift(a, b, 0);
    }
  }

  lemma {:induction false} SortedShift(a: seq<string>, b: seq<string>, k: nat)
    requires SortedNames(b, k) && k <= |b|
    ensures SortedNames(a + b, |a| + k)
    decreases |b| - k
  {
    if k < |b| { SortedShift(a, b, k + 1); }
  }

  /** Checking neighbours suffices: an alphabetical list whose neighbours part is prefix-free throughout. */
  lemma SortedNamesPrefixFree(list: seq<string>)
    requires SortedNames(list, 0)
    ensures PrefixFree(set k | 0 <= k < |list| :: list[k])
  {
    var names := set k | 0 <= k < |list| :: list[k];
    forall a | a in names ensures IsName(a) {
      var k :| 0 <= k < |list| && list[k] == a;
      SortedSuffix(list, 0, k);
    }
    forall a, b | a in names && b in names && a <= b ensures a == b {
      var k :| 0 <= k < |list| && list[k] == a;
      var j :| 0 <= j < |list| && list[j] == b;
      if k != j {
        var lo, hi := if k < j then k else j, if k < j then j else k;
        SortedSuffix(list, 0, lo);
        SortedFrom(list, lo, hi);
        var i :| PartAt(list[lo], list[hi], i);
        PartedNeitherPrefix(list[lo], list[hi], i);
        assert false;
      }
    }
  }

  ghost predicate IsColumnList(list: seq<string>) {
    PrefixFree(set k | 0 <= k < |list| :: list[k])
  }
}
