/** Slice UpdateAll and DeleteAll: one statement with numbered placeholders and a flat argument list,
    against updating or deleting the objects one by one. */
module Bulk {
  import opened Common

  type Value = string
  type Row = map<string, Value>

  // ---- Statements with placeholders $1, $2, ...

  /** `column = $n`, as an assignment or a comparison. */
  datatype Param = Param(column: string, n: nat)

  function SetParamNames(start: nat, names: seq<string>): seq<Param> {
    seq(|names|, i requires 0 <= i < |names| => Param(names[i], start + i))
  }

  /** (k1 = $s AND k2 = $s+1 ...) OR (k1 = $s+m AND ...) OR ..., `count` times. */
  function WhereClauseRepeated(start: nat, keys: seq<string>, count: nat): seq<seq<Param>> {
    seq(count, r requires 0 <= r < count => SetParamNames(start + r * |keys|, keys))
  }

  predicate Bound(params: seq<Param>, args: seq<Value>) {
    forall i :: 0 <= i < |params| ==> 1 <= params[i].n <= |args|
  }

  predicate Satisfies(row: Row, clause: seq<Param>, args: seq<Value>)
    requires Bound(clause, args)
  {
    forall j :: 0 <= j < |clause| ==> clause[j].column in row && row[clause[j].column] == args[clause[j].n - 1]
  }

  predicate Selected(row: Row, where: seq<seq<Param>>, args: seq<Value>)
    requires forall r :: 0 <= r < |where| ==> Bound(where[r], args)
  {
    exists r :: 0 <= r < |where| && Satisfies(row, where[r], args)
  }

  function Assign(row: Row, params: seq<Param>, args: seq<Value>): Row
    requires forall i :: 0 <= i < |params| ==> 1 <= params[i].n <= |args|
  {
    if params == [] then row
    else
      var p := params[|params| - 1];
      Assign(row, params[..|params| - 1], args)[p.column := args[p.n - 1]]
  }

  /** What the database does for UPDATE ... SET params WHERE where. */
  function ExecuteUpdate(table: seq<Row>, params: seq<Param>, where: seq<seq<Param>>, args: seq<Value>): seq<Row>
    requires Bound(params, args) && forall r :: 0 <= r < |where| ==> Bound(where[r], args)
  {
    if table == [] then []
    else
      ExecuteUpdate(table[..|table| - 1], params, where, args) +
      [if Selected(table[|table| - 1], where, args) then Assign(table[|table| - 1], params, args)
       else table[|table| - 1]]
  }

  /** And for DELETE ... WHERE where. */
  function ExecuteDelete(table: seq<Row>, where: seq<seq<Param>>, args: seq<Value>): seq<Row>
    requires forall r :: 0 <= r < |where| ==> Bound(where[r], args)
  {
    if table == [] then []
    else
      ExecuteDelete(table[..|table| - 1], where, args) +
      if Selected(table[|table| - 1], where, args) then [] else [table[|table| - 1]]
  }

  // ---- One object at a time

  predicate HasKey(row: Row, keys: seq<string>) {
    forall j :: 0 <= j < |keys| ==> keys[j] in row
  }

  predicate SameKey(row: Row, obj: Row, keys: seq<string>)
    requires HasKey(obj, keys)
  {
    forall j :: 0 <= j < |keys| ==> keys[j] in row && row[keys[j]] == obj[keys[j]]
  }

  /** Said of columns: object and row have the same value in every one of the key columns. */
  ghost predicate Identifies(obj: Row, keys: seq<string>, row: Row) {
    forall c :: c in keys ==> c in row && c in obj && row[c] == obj[c]
  }

  function UpdateOne(table: seq<Row>, keys: seq<string>, obj: Row, cols: map<string, Value>): seq<Row>
    requires HasKey(obj, keys)
  {
    seq(|table|, i requires 0 <= i < |table| => if SameKey(table[i], obj, keys) then table[i] + cols else table[i])
  }

  function UpdateEach(table: seq<Row>, keys: seq<string>, objs: seq<Row>, cols: map<string, Value>): seq<Row>
    requires forall r :: 0 <= r < |objs| ==> HasKey(objs[r], keys)
    decreases |objs|
  {
    if objs == [] then table else UpdateEach(UpdateOne(table, keys, objs[0], cols), keys, objs[1..], cols)
  }

  function DeleteOne(table: seq<Row>, keys: seq<string>, obj: Row): seq<Row>
    requires HasKey(obj, keys)
  {
    if table == [] then []
    else DeleteOne(table[..|table| - 1], keys, obj) +
         if SameKey(table[|table| - 1], obj, keys) then [] else [table[|table| - 1]]
  }

  function DeleteEach(table: seq<Row>, keys: seq<string>, objs: seq<Row>): seq<Row>
    requires forall r :: 0 <= r < |objs| ==> HasKey(objs[r], keys)
    decreases |objs|
  {
    if objs == [] then table else DeleteEach(DeleteOne(table, keys, objs[0]), keys, objs[1..])
  }

  // ---- The generated methods

  function KeyValues(obj: Row, keys: seq<string>): seq<Value>
    requires HasKey(obj, keys)
  {
    seq(|keys|, j requires 0 <= j < |keys| => obj[keys[j]])
  }

  /** The key values of all objects, flat. */
  function Flat(objs: seq<Row>, keys: seq<string>): seq<Value>
    requires forall r :: 0 <= r < |objs| ==> HasKey(objs[r], keys)
  {
    if objs == [] then [] else Flat(objs[..|objs| - 1], keys) + KeyValues(objs[|objs| - 1], keys)
  }

  /** The columns to set and their values, in any order. */
  ghost predicate Lists(cols: map<string, Value>, names: seq<string>, args: seq<Value>) {
    && |names| == |args|
    && (forall i :: 0 <= i < |names| ==> names[i] in cols && args[i] == cols[names[i]])
    && (forall i, j :: 0 <= i < j < |names| ==> names[i] != names[j])
    && (forall c :: c in cols ==> c in names)
  }

  /** Iterates over the map in no particular order. */
  method ListColumns(cols: map<string, Value>) returns (names: seq<string>, args: seq<Value>)
    ensures Lists(cols, names, args)
  {
    names, args := [], [];
    var todo := cols.Keys;
    while todo != {}
      invariant todo <= cols.Keys && |names| == |args|
      invariant forall i :: 0 <= i < |names| ==> names[i] in cols && names[i] !in todo && args[i] == cols[names[i]]
      invariant forall i, j :: 0 <= i < j < |names| ==> names[i] != names[j]
      invariant forall c :: c in cols && c !in todo ==> c in names
      decreases |todo|
    {
      var name :| name in todo;
      names, args, todo := names + [name], args + [cols[name]], todo - {name};
    }
  }

  /** UpdateAll of a slice: a new table, or None for want of columns. Whatever the order in which the columns come
      out of the map, the one statement does to the table what updating object after object by primary key does. */
  method UpdateAll(table: seq<Row>, keys: seq<string>, objs: seq<Row>, cols: map<string, Value>)
    returns (result: Option<seq<Row>>, failed: bool)
    requires keys != [] && forall r :: 0 <= r < |objs| ==> HasKey(objs[r], keys)
    ensures failed == (objs != [] && cols == map[]) && failed == result.None?
    ensures !failed ==> result.value == UpdateEach(table, keys, objs, cols)
    ensures !failed ==> |result.value| == |table| && forall i :: 0 <= i < |table| ==>
              result.value[i] ==
              if exists obj :: obj in objs && Identifies(obj, keys, table[i]) then table[i] + cols else table[i]
  {
    UpdateEachMeans(table, keys, objs, cols);
    if |objs| == 0 { return Some(table), false; }
    if |cols| == 0 { return None, true; }
    var names, args := ListColumns(cols);
    ghost var values := args;
    for r := 0 to |objs|
      invariant args == values + Flat(objs[..r], keys)
    {
      assert objs[..r + 1][..r] == objs[..r];
      assert (values + Flat(objs[..r], keys)) + KeyValues(objs[r], keys)
          == values + (Flat(objs[..r], keys) + KeyValues(objs[r], keys));
      args := args + KeyValues(objs[r], keys);
    }
    assert objs[..|objs|] == objs;
    var params, where := SetParamNames(1, names), WhereClauseRepeated(|names| + 1, keys, |objs|);
    ParamsBound(names, keys, objs, values);
    result := Some(ExecuteUpdate(table, params, where, args));
    failed := false;
    UpdateAgrees(table, keys, objs, cols, names, values);
  }

  /** DeleteAll of a slice, likewise. */
  method DeleteAll(table: seq<Row>, keys: seq<string>, objs: seq<Row>) returns (result: seq<Row>)
    requires keys != [] && forall r :: 0 <= r < |objs| ==> HasKey(objs[r], keys)
    ensures result == DeleteEach(table, keys, objs)
    ensures exists at :: Picks(result, table, at) && forall i :: 0 <= i < |table| ==>
              (i in at <==> !exists obj :: obj in objs && Identifies(obj, keys, table[i]))
  {
    DeleteEachMeans(table, keys, objs);
    if |objs| == 0 { return table; }
    var args := [];
    for r := 0 to |objs|
      invariant args == Flat(objs[..r], keys)
    {
      assert objs[..r + 1][..r] == objs[..r];
      args := args + KeyValues(objs[r], keys);
    }
    assert objs[..|objs|] == objs;
    assert [] + args == args;
    ParamsBound([], keys, objs, []);
    result := ExecuteDelete(table, WhereClauseRepeated(1, keys, |objs|), args);
    DeleteAgrees(table, keys, objs);
  }

  // ---- Index arithmetic

  lemma {:induction false} FlatAt(objs: seq<Row>, keys: seq<string>, r: nat, j: nat)
    requires forall i :: 0 <= i < |objs| ==> HasKey(objs[i], keys)
    requires r < |objs| && j < |keys|
    ensures |Flat(objs, keys)| == |objs| * |keys| && r * |keys| + j < |Flat(objs, keys)|
    ensures Flat(objs, keys)[r * |keys| + j] == objs[r][keys[j]]
    decreases |objs|
  {
    var rest := objs[..|objs| - 1];
    FlatLength(rest, keys);
    FlatLength(objs, keys);
    if r < |rest| {
      FlatAt(rest, keys, r, j);
      assert rest[r] == objs[r];
    }
  }

  lemma {:induction false} FlatLength(objs: seq<Row>, keys: seq<string>)
    requires forall i :: 0 <= i < |objs| ==> HasKey(objs[i], keys)
    ensures |Flat(objs, keys)| == |objs| * |keys|
    decreases |objs|
  {
    if objs != [] {
      FlatLength(objs[..|objs| - 1], keys);
      assert |objs| * |keys| == (|objs| - 1) * |keys| + |keys|;
    }
  }

  lemma RowOfBlock(r: nat, j: nat, n: nat, count: nat)
    requires r < count && j < n
    ensures r * n + j < count * n
  {
    assert (r + 1) * n <= count * n;
  }

  /** All placeholders have their argument. */
  lemma ParamsBound(names: seq<string>, keys: seq<string>, objs: seq<Row>, values: seq<Value>)
    requires |values| == |names| && forall i :: 0 <= i < |objs| ==> HasKey(objs[i], keys)
    ensures var args := values + Flat(objs, keys);
            var where: seq<seq<Param>> := WhereClauseRepeated(|names| + 1, keys, |objs|);
            Bound(SetParamNames(1, names), args) && forall r :: 0 <= r < |where| ==> Bound(where[r], args)
  {
    hide Flat, HasKey;
    FlatLength(objs, keys);
    var args := values + Flat(objs, keys);
    var where: seq<seq<Param>> := WhereClauseRepeated(|names| + 1, keys, |objs|);
    forall r: nat, j: nat | r < |where| && j < |keys| ensures where[r][j].n <= |args| {
      RowOfBlock(r, j, |keys|, |objs|);
    }
  }

  ghost predicate AnySameKey(row: Row, objs: seq<Row>, keys: seq<string>)
    requires forall r :: 0 <= r < |objs| ==> HasKey(objs[r], keys)
  {
    exists r :: 0 <= r < |objs| && SameKey(row, objs[r], keys)
  }

  /** The j-th argument of the r-th group, which starts at `start`, is the j-th key value of the r-th object. */
  lemma ArgumentOf(keys: seq<string>, objs: seq<Row>, values: seq<Value>, r: nat, j: nat, start: nat)
    requires forall i :: 0 <= i < |objs| ==> HasKey(objs[i], keys)
    requires r < |objs| && j < |keys| && start == r * |keys|
    ensures |values| + start + j < |values + Flat(objs, keys)|
    ensures (values + Flat(objs, keys))[|values| + start + j] == objs[r][keys[j]]
  {
    FlatAt(objs, keys, r, j);
  }

  lemma GroupMeansKey(row: Row, keys: seq<string>, obj: Row, clause: seq<Param>, args: seq<Value>)
    requires Bound(clause, args) && HasKey(obj, keys) && |clause| == |keys|
    requires forall j :: 0 <= j < |keys| ==> clause[j].column == keys[j] && args[clause[j].n - 1] == obj[keys[j]]
    ensures Satisfies(row, clause, args) <==> SameKey(row, obj, keys)
  {
  }

  /** The r-th group of placeholders, at `start`, compares with the key of the r-th object. */
  lemma ClauseIsKey(row: Row, keys: seq<string>, objs: seq<Row>, values: seq<Value>, r: nat, start: nat)
    requires forall i :: 0 <= i < |objs| ==> HasKey(objs[i], keys)
    requires r < |objs| && start == r * |keys|
    requires Bound(SetParamNames(|values| + 1 + start, keys), values + Flat(objs, keys))
    ensures Satisfies(row, SetParamNames(|values| + 1 + start, keys), values + Flat(objs, keys))
            <==> SameKey(row, objs[r], keys)
  {
    var clause, args := SetParamNames(|values| + 1 + start, keys), values + Flat(objs, keys);
    forall j: nat | j < |keys| ensures clause[j].column == keys[j] && args[clause[j].n - 1] == objs[r][keys[j]] {
      ArgumentOf(keys, objs, values, r, j, start);
    }
    hide Satisfies, SameKey;
    GroupMeansKey(row, keys, objs[r], clause, args);
  }

  lemma SelectedBySomeKey(row: Row, keys: seq<string>, objs: seq<Row>, values: seq<Value>)
    requires forall i :: 0 <= i < |objs| ==> HasKey(objs[i], keys)
    requires var where := WhereClauseRepeated(|values| + 1, keys, |objs|);
             forall r :: 0 <= r < |where| ==> Bound(where[r], values + Flat(objs, keys))
    ensures Selected(row, WhereClauseRepeated(|values| + 1, keys, |objs|), values + Flat(objs, keys))
            <==> AnySameKey(row, objs, keys)
  {
    var where := WhereClauseRepeated(|values| + 1, keys, |objs|);
    forall r: nat | r < |objs|
      ensures Satisfies(row, where[r], values + Flat(objs, keys)) <==> SameKey(row, objs[r], keys)
    {
      assert where[r] == SetParamNames(|values| + 1 + r * |keys|, keys);
      ClauseIsKey(row, keys, objs, values, r, r * |keys|);
    }
  }

  /** Assigning all listed columns, in whatever order, overwrites the row with the map. */
  lemma AssignAll(row: Row, cols: map<string, Value>, names: seq<string>, values: seq<Value>, args: seq<Value>)
    requires Lists(cols, names, values) && |values| <= |args| && args[..|values|] == values
    ensures Assign(row, SetParamNames(1, names), args) == row + cols
  {
    forall i | 0 <= i < |names| ensures names[i] in cols && args[i] == cols[names[i]] {
      assert args[i] == args[..|values|][i];
    }
    AssignEach(row, cols, names, SetParamNames(1, names), args);
    hide SetParamNames;
    SameMap(Assign(row, SetParamNames(1, names), args), row, cols, names);
  }

  lemma SameMap(r: Row, row: Row, cols: map<string, Value>, names: seq<string>)
    requires (forall c :: c in cols ==> c in names) && forall i :: 0 <= i < |names| ==> names[i] in cols
    requires forall c :: c in r <==> c in row || c in names
    requires forall c :: c in r ==> r[c] == if c in names then cols[c] else row[c]
    ensures r == row + cols
  {
    forall c ensures c in names <==> c in cols {
      if c in names {
        var i :| 0 <= i < |names| && names[i] == c;
      }
    }
  }

  lemma {:induction false} AssignEach(row: Row, cols: map<string, Value>, names: seq<string>, params: seq<Param>,
                                      args: seq<Value>)
    requires |params| == |names|
    requires forall i :: 0 <= i < |names| ==>
               params[i].column == names[i] && 1 <= params[i].n <= |args| &&
               names[i] in cols && args[params[i].n - 1] == cols[names[i]]
    ensures var r := Assign(row, params, args);
            && (forall c :: c in r <==> c in row || c in names)
            && (forall c :: c in r ==> r[c] == if c in names then cols[c] else row[c])
    decreases |names|
  {
    if names != [] {
      var rest, last := names[..|names| - 1], names[|names| - 1];
      AssignEach(row, cols, rest, params[..|params| - 1], args);
      assert names == rest + [last];
    }
  }

  lemma {:induction false} UpdateEachRow(table: seq<Row>, keys: seq<string>, objs: seq<Row>, cols: map<string, Value>,
                                         i: nat)
    requires forall r :: 0 <= r < |objs| ==> HasKey(objs[r], keys)
    requires i < |table|
    ensures |UpdateEach(table, keys, objs, cols)| == |table|
    ensures UpdateEach(table, keys, objs, cols)[i] ==
            if AnySameKey(table[i], objs, keys) then table[i] + cols else table[i]
    decreases |objs|
  {
    if objs != [] {
      var once := UpdateOne(table, keys, objs[0], cols);
      UpdateEachRow(once, keys, objs[1..], cols, i);
      assert (table[i] + cols) + cols == table[i] + cols;
      if AnySameKey(table[i], objs, keys) && !SameKey(table[i], objs[0], keys) {
        var r :| 0 <= r < |objs| && SameKey(table[i], objs[r], keys);
        assert objs[1..][r - 1] == objs[r];
      }
    }
  }

  /** Row by row: the columns are set in the rows that agree with some object in all key columns, and in no others. */
  lemma UpdateEachMeans(table: seq<Row>, keys: seq<string>, objs: seq<Row>, cols: map<string, Value>)
    requires forall r :: 0 <= r < |objs| ==> HasKey(objs[r], keys)
    ensures var result := UpdateEach(table, keys, objs, cols);
            |result| == |table| && forall i :: 0 <= i < |table| ==>
              result[i] ==
              if exists obj :: obj in objs && Identifies(obj, keys, table[i]) then table[i] + cols else table[i]
  {
    hide UpdateEach, AnySameKey, HasKey, Identifies;
    UpdateEachLength(table, keys, objs, cols);
    forall i | 0 <= i < |table|
      ensures UpdateEach(table, keys, objs, cols)[i] ==
              if AnySameKey(table[i], objs, keys) then table[i] + cols else table[i]
    {
      UpdateEachRow(table, keys, objs, cols, i);
    }
    forall i | 0 <= i < |table|
      ensures AnySameKey(table[i], objs, keys) <==> exists obj :: obj in objs && Identifies(obj, keys, table[i])
    {
      SameKeyMeans(table[i], objs, keys);
    }
  }

  lemma SameKeyMeans(row: Row, objs: seq<Row>, keys: seq<string>)
    requires forall r :: 0 <= r < |objs| ==> HasKey(objs[r], keys)
    ensures AnySameKey(row, objs, keys) <==> exists obj :: obj in objs && Identifies(obj, keys, row)
  {
    forall r | 0 <= r < |objs| ensures SameKey(row, objs[r], keys) <==> Identifies(objs[r], keys, row) {
      if SameKey(row, objs[r], keys) {
        forall c | c in keys ensures c in row && c in objs[r] && row[c] == objs[r][c] {
          var j :| 0 <= j < |keys| && keys[j] == c;
        }
      }
    }
    hide SameKey, Identifies, HasKey;
    if obj :| obj in objs && Identifies(obj, keys, row) {
      var r :| 0 <= r < |objs| && objs[r] == obj;
      assert SameKey(row, objs[r], keys);
    }
  }

  lemma {:induction false} ExecuteUpdateRow(table: seq<Row>, params: seq<Param>, where: seq<seq<Param>>,
                                            args: seq<Value>, i: nat)
    requires Bound(params, args) && forall r :: 0 <= r < |where| ==> Bound(where[r], args)
    requires i < |table|
    ensures |ExecuteUpdate(table, params, where, args)| == |table|
    ensures ExecuteUpdate(table, params, where, args)[i]
            == if Selected(table[i], where, args) then Assign(table[i], params, args) else table[i]
    decreases |table|
  {
    ExecuteUpdateLength(table[..|table| - 1], params, where, args);
    if i < |table| - 1 { ExecuteUpdateRow(table[..|table| - 1], params, where, args, i); }
  }

  lemma {:induction false} ExecuteUpdateLength(table: seq<Row>, params: seq<Param>, where: seq<seq<Param>>,
                                               args: seq<Value>)
    requires Bound(params, args) && forall r :: 0 <= r < |where| ==> Bound(where[r], args)
    ensures |ExecuteUpdate(table, params, where, args)| == |table|
    decreases |table|
  {
    if table != [] { ExecuteUpdateLength(table[..|table| - 1], params, where, args); }
  }

  /** The one statement agrees with the updates one by one. */
  lemma UpdateAgrees(table: seq<Row>, keys: seq<string>, objs: seq<Row>, cols: map<string, Value>,
                     names: seq<string>, values: seq<Value>)
    requires forall r :: 0 <= r < |objs| ==> HasKey(objs[r], keys)
    requires Lists(cols, names, values)
    requires var args := values + Flat(objs, keys); var where := WhereClauseRepeated(|names| + 1, keys, |objs|);
             Bound(SetParamNames(1, names), args) && forall r :: 0 <= r < |where| ==> Bound(where[r], args)
    ensures ExecuteUpdate(table, SetParamNames(1, names), WhereClauseRepeated(|names| + 1, keys, |objs|),
                          values + Flat(objs, keys))
            == UpdateEach(table, keys, objs, cols)
  {
    var params, where := SetParamNames(1, names), WhereClauseRepeated(|names| + 1, keys, |objs|);
    var args := values + Flat(objs, keys);
    assert args[..|values|] == values;
    forall i | 0 <= i < |table|
      ensures |ExecuteUpdate(table, params, where, args)| == |table| == |UpdateEach(table, keys, objs, cols)|
      ensures ExecuteUpdate(table, params, where, args)[i] == UpdateEach(table, keys, objs, cols)[i]
    {
      UpdateEachRow(table, keys, objs, cols, i);
      ExecuteUpdateRow(table, params, where, args, i);
      SelectedBySomeKey(table[i], keys, objs, values);
      AssignAll(table[i], cols, names, values, args);
    }
    ExecuteUpdateLength(table, params, where, args);
    UpdateEachLength(table, keys, objs, cols);
  }

  lemma {:induction false} UpdateEachLength(table: seq<Row>, keys: seq<string>, objs: seq<Row>,
                                            cols: map<string, Value>)
    requires forall r :: 0 <= r < |objs| ==> HasKey(objs[r], keys)
    ensures |UpdateEach(table, keys, objs, cols)| == |table|
    decreases |objs|
  {
    if objs != [] { UpdateEachLength(UpdateOne(table, keys, objs[0], cols), keys, objs[1..], cols); }
  }

  // ---- Deletion

  /** The rows whose key is that of no object, in order. */
  ghost function Rest(table: seq<Row>, keys: seq<string>, objs: seq<Row>): seq<Row>
    requires forall r :: 0 <= r < |objs| ==> HasKey(objs[r], keys)
  {
    if table == [] then []
    else Rest(table[..|table| - 1], keys, objs) +
         if AnySameKey(table[|table| - 1], objs, keys) then [] else [table[|table| - 1]]
  }

  lemma {:induction false} RestOfRest(table: seq<Row>, keys: seq<string>, objs: seq<Row>)
    requires forall r :: 0 <= r < |objs| ==> HasKey(objs[r], keys)
    requires objs != []
    ensures Rest(DeleteOne(table, keys, objs[0]), keys, objs[1..]) == Rest(table, keys, objs)
    decreases |table|
  {
    if table != [] {
      var rest, last := table[..|table| - 1], table[|table| - 1];
      RestOfRest(rest, keys, objs);
      var d := DeleteOne(rest, keys, objs[0]);
      assert (d + [last])[..|d|] == d && d + [] == d;
      assert AnySameKey(last, objs, keys) <==> SameKey(last, objs[0], keys) || AnySameKey(last, objs[1..], keys) by {
        if AnySameKey(last, objs[1..], keys) {
          var r :| 0 <= r < |objs[1..]| && SameKey(last, objs[1..][r], keys);
          assert SameKey(last, objs[r + 1], keys);
        }
        if AnySameKey(last, objs, keys) && !SameKey(last, objs[0], keys) {
          var r :| 0 <= r < |objs| && SameKey(last, objs[r], keys);
          assert objs[1..][r - 1] == objs[r];
        }
      }
    }
  }

  lemma {:induction false} DeleteEachIsRest(table: seq<Row>, keys: seq<string>, objs: seq<Row>)
    requires forall r :: 0 <= r < |objs| ==> HasKey(objs[r], keys)
    ensures DeleteEach(table, keys, objs) == Rest(table, keys, objs)
    decreases |objs|
  {
    if objs == [] {
      RestOfNone(table, keys);
    } else {
      DeleteEachIsRest(DeleteOne(table, keys, objs[0]), keys, objs[1..]);
      RestOfRest(table, keys, objs);
    }
  }

  lemma {:induction false} RestAt(table: seq<Row>, keys: seq<string>, objs: seq<Row>) returns (at: seq<nat>)
    requires forall r :: 0 <= r < |objs| ==> HasKey(objs[r], keys)
    ensures Picks(Rest(table, keys, objs), table, at)
    ensures forall i :: 0 <= i < |table| ==> (i in at <==> !AnySameKey(table[i], objs, keys))
    decreases |table|
  {
    hide AnySameKey, HasKey, Picks, Ascending;
    if table == [] {
      at := [];
      PicksNothing(table);
    } else {
      var rest, last := table[..|table| - 1], table[|table| - 1];
      at := RestAt(rest, keys, objs);
      PicksOneMore(Rest(rest, keys, objs), rest, at, last);
      assert table == rest + [last] && Rest(rest, keys, objs) + [] == Rest(rest, keys, objs);
      if !AnySameKey(last, objs, keys) { at := at + [|rest|]; }
    }
  }

  /** Deletion leaves, in order, the rows that agree with no object in all key columns. */
  lemma DeleteEachMeans(table: seq<Row>, keys: seq<string>, objs: seq<Row>)
    requires forall r :: 0 <= r < |objs| ==> HasKey(objs[r], keys)
    ensures exists at :: Picks(DeleteEach(table, keys, objs), table, at) && forall i :: 0 <= i < |table| ==>
              (i in at <==> !exists obj :: obj in objs && Identifies(obj, keys, table[i]))
  {
    hide AnySameKey, Rest, DeleteEach, HasKey, Identifies, Picks;
    DeleteEachIsRest(table, keys, objs);
    var at := RestAt(table, keys, objs);
    forall i | 0 <= i < |table|
      ensures i in at <==> !exists obj :: obj in objs && Identifies(obj, keys, table[i])
    {
      SameKeyMeans(table[i], objs, keys);
    }
  }

  lemma {:induction false} RestOfNone(table: seq<Row>, keys: seq<string>)
    ensures Rest(table, keys, []) == table
    decreases |table|
  {
    if table != [] {
      RestOfNone(table[..|table| - 1], keys);
      assert table == table[..|table| - 1] + [table[|table| - 1]];
    }
  }

  lemma {:induction false} ExecuteDeleteIsRest(table: seq<Row>, keys: seq<string>, objs: seq<Row>)
    requires forall r :: 0 <= r < |objs| ==> HasKey(objs[r], keys)
    requires var where := WhereClauseRepeated(1, keys, |objs|);
             forall r :: 0 <= r < |where| ==> Bound(where[r], Flat(objs, keys))
    ensures ExecuteDelete(table, WhereClauseRepeated(1, keys, |objs|), Flat(objs, keys)) == Rest(table, keys, objs)
    decreases |table|
  {
    if table != [] {
      ExecuteDeleteIsRest(table[..|table| - 1], keys, objs);
      assert [] + Flat(objs, keys) == Flat(objs, keys);
      SelectedBySomeKey(table[|table| - 1], keys, objs, []);
    }
  }

  lemma DeleteAgrees(table: seq<Row>, keys: seq<string>, objs: seq<Row>)
    requires forall r :: 0 <= r < |objs| ==> HasKey(objs[r], keys)
    requires var where := WhereClauseRepeated(1, keys, |objs|);
             forall r :: 0 <= r < |where| ==> Bound(where[r], Flat(objs, keys))
    ensures ExecuteDelete(table, WhereClauseRepeated(1, keys, |objs|), Flat(objs, keys)) ==
            DeleteEach(table, keys, objs)
  {
    ExecuteDeleteIsRest(table, keys, objs);
    DeleteEachIsRest(table, keys, objs);
  }
}
