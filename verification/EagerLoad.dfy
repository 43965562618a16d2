/** Eager loading of relations: one query for many objects, joined in memory by nested loops. */
module EagerLoad {
  import opened Common

  type Id = nat

  /** Rows as stored; `data` stands for the remaining columns. */
  datatype UserRow = UserRow(id: Id, data: string)
  datatype TokenRow = TokenRow(token: Id, userId: Id, data: string)

  /** A loaded user; `related` says whether the relation struct exists. */
  class User {
    const row: UserRow
    var related: bool
    var accessTokens: seq<AccessToken>

    constructor (row: UserRow)
      ensures this.row == row && !related && accessTokens == []
    {
      this.row, related, accessTokens := row, false, [];
    }
  }

  class AccessToken {
    const row: TokenRow
    var related: bool
    var user: User?

    constructor (row: TokenRow)
      ensures this.row == row && !related && user == null
    {
      this.row, related, user := row, false, null;
    }
  }

  // ---- Queries (rows come in table order)

  function TokensOfUsers(table: seq<TokenRow>, ids: set<Id>): seq<TokenRow> {
    if table == [] then []
    else TokensOfUsers(table[..|table| - 1], ids) +
         if table[|table| - 1].userId in ids then [table[|table| - 1]] else []
  }

  function UsersById(table: seq<UserRow>, ids: set<Id>): seq<UserRow> {
    if table == [] then []
    else UsersById(table[..|table| - 1], ids) + if table[|table| - 1].id in ids then [table[|table| - 1]] else []
  }

  function RowsOf(tokens: seq<AccessToken>): seq<TokenRow> {
    seq(|tokens|, i requires 0 <= i < |tokens| => tokens[i].row)
  }

  function UserRowsOf(users: seq<User>): seq<UserRow> {
    seq(|users|, i requires 0 <= i < |users| => users[i].row)
  }

  /** `rows` are the rows of the table whose user id is among the given ones, each once and in table order. */
  ghost predicate TokenQuery(rows: seq<TokenRow>, table: seq<TokenRow>, ids: set<Id>) {
    exists at :: Picks(rows, table, at) && forall k :: 0 <= k < |table| ==> (k in at <==> table[k].userId in ids)
  }

  ghost predicate UserQuery(rows: seq<UserRow>, table: seq<UserRow>, ids: set<Id>) {
    exists at :: Picks(rows, table, at) && forall k :: 0 <= k < |table| ==> (k in at <==> table[k].id in ids)
  }

  lemma {:induction false} TokensOfUsersAt(table: seq<TokenRow>, ids: set<Id>) returns (at: seq<nat>)
    ensures Picks(TokensOfUsers(table, ids), table, at)
    ensures forall k :: 0 <= k < |table| ==> (k in at <==> table[k].userId in ids)
    decreases |table|
  {
    at := [];
    if table != [] {
      var rest, last := table[..|table| - 1], table[|table| - 1];
      at := TokensOfUsersAt(rest, ids);
      PicksOneMore(TokensOfUsers(rest, ids), rest, at, last);
      if last.userId in ids { at := at + [|rest|]; }
      assert table == rest + [last];
    }
  }

  lemma {:induction false} UsersByIdAt(table: seq<UserRow>, ids: set<Id>) returns (at: seq<nat>)
    ensures Picks(UsersById(table, ids), table, at)
    ensures forall k :: 0 <= k < |table| ==> (k in at <==> table[k].id in ids)
    decreases |table|
  {
    at := [];
    if table != [] {
      var rest, last := table[..|table| - 1], table[|table| - 1];
      at := UsersByIdAt(rest, ids);
      PicksOneMore(UsersById(rest, ids), rest, at, last);
      if last.id in ids { at := at + [|rest|]; }
      assert table == rest + [last];
    }
  }

  lemma Queried(table: seq<TokenRow>, ids: set<Id>)
    ensures TokenQuery(TokensOfUsers(table, ids), table, ids)
  {
    var at := TokensOfUsersAt(table, ids);
  }

  lemma UsersQueried(table: seq<UserRow>, ids: set<Id>)
    ensures UserQuery(UsersById(table, ids), table, ids)
  {
    var at := UsersByIdAt(table, ids);
  }

  /** Ids are the primary key. */
  ghost predicate UniqueUsers(table: seq<UserRow>) {
    forall i, j :: 0 <= i < j < |table| ==> table[i].id != table[j].id
  }

  /** Binds rows to new objects. */
  method BindTokens(rows: seq<TokenRow>) returns (tokens: seq<AccessToken>)
    ensures RowsOf(tokens) == rows
    ensures forall i :: 0 <= i < |tokens| ==> fresh(tokens[i]) && !tokens[i].related && tokens[i].user == null
    ensures forall i, j :: 0 <= i < j < |tokens| ==> tokens[i] != tokens[j]
  {
    tokens := [];
    for i := 0 to |rows|
      invariant |tokens| == i && forall k :: 0 <= k < i ==> tokens[k].row == rows[k]
      invariant forall k :: 0 <= k < i ==> fresh(tokens[k]) && !tokens[k].related && tokens[k].user == null
      invariant forall k, j :: 0 <= k < j < i ==> tokens[k] != tokens[j]
    {
      var t := new AccessToken(rows[i]);
      tokens := tokens + [t];
    }
  }

  method BindUsers(rows: seq<UserRow>) returns (users: seq<User>)
    ensures UserRowsOf(users) == rows
    ensures forall i :: 0 <= i < |users| ==> fresh(users[i]) && !users[i].related && users[i].accessTokens == []
    ensures forall i, j :: 0 <= i < j < |users| ==> users[i] != users[j]
  {
    users := [];
    for i := 0 to |rows|
      invariant |users| == i && forall k :: 0 <= k < i ==> users[k].row == rows[k]
      invariant forall k :: 0 <= k < i ==> fresh(users[k]) && !users[k].related && users[k].accessTokens == []
      invariant forall k, j :: 0 <= k < j < i ==> users[k] != users[j]
    {
      var u := new User(rows[i]);
      users := users + [u];
    }
  }

  // ---- One to many

  /** Of the given tokens those that belong to the user id, in order. */
  function Owned(tokens: seq<AccessToken>, id: Id): seq<AccessToken> {
    if tokens == [] then []
    else Owned(tokens[..|tokens| - 1], id) +
         if tokens[|tokens| - 1].row.userId == id then [tokens[|tokens| - 1]] else []
  }

  /** `part` are the tokens of the list with the user id, each once and in order. */
  ghost predicate OwnedBy(part: seq<AccessToken>, tokens: seq<AccessToken>, id: Id) {
    exists at :: Picks(part, tokens, at) && forall k :: 0 <= k < |tokens| ==> (k in at <==> tokens[k].row.userId == id)
  }

  lemma {:induction false} OwnedAt(tokens: seq<AccessToken>, id: Id) returns (at: seq<nat>)
    ensures Picks(Owned(tokens, id), tokens, at)
    ensures forall k :: 0 <= k < |tokens| ==> (k in at <==> tokens[k].row.userId == id)
    decreases |tokens|
  {
    at := [];
    if tokens != [] {
      var rest, last := tokens[..|tokens| - 1], tokens[|tokens| - 1];
      at := OwnedAt(rest, id);
      PicksOneMore(Owned(rest, id), rest, at, last);
      if last.row.userId == id { at := at + [|rest|]; }
      assert tokens == rest + [last];
    }
  }

  lemma OwnedMeans(tokens: seq<AccessToken>, id: Id)
    ensures OwnedBy(Owned(tokens, id), tokens, id)
  {
    var at := OwnedAt(tokens, id);
  }

  ghost predicate HasId(slice: seq<User>, id: Id) {
    exists i :: 0 <= i < |slice| && slice[i].row.id == id
  }

  /** The first user of the slice with the id. */
  ghost function FirstWith(slice: seq<User>, id: Id): (u: User)
    requires HasId(slice, id)
    ensures u in slice && u.row.id == id
    decreases |slice|
  {
    if slice[0].row.id == id then slice[0]
    else assert HasId(slice[1..], id) by {
           var i :| 0 <= i < |slice| && slice[i].row.id == id;
           assert slice[1..][i - 1] == slice[i];
         }
         FirstWith(slice[1..], id)
  }

  /** `j` is the first index with the id. */
  lemma {:induction false} FirstWithAt(slice: seq<User>, j: nat, id: Id)
    requires j < |slice| && slice[j].row.id == id && forall i :: 0 <= i < j ==> slice[i].row.id != id
    ensures HasId(slice, id) && FirstWith(slice, id) == slice[j]
    decreases j
  {
    if j > 0 {
      FirstWithAt(slice[1..], j - 1, id);
    }
  }

  function IdsOf(slice: seq<User>): set<Id> { set i | 0 <= i < |slice| :: slice[i].row.id }

  /** The child lists of the users, as one value. */
  ghost function Lists(slice: seq<User>): map<User, seq<AccessToken>>
    reads slice
  {
    map u | u in slice :: u.accessTokens
  }

  /** The child lists after each of the tokens has gone to the end of the list of the first user it belongs to. */
  ghost function Joined(before: map<User, seq<AccessToken>>, slice: seq<User>, tokens: seq<AccessToken>):
      map<User, seq<AccessToken>>
  {
    if tokens == [] then before
    else
      var m, t := Joined(before, slice, tokens[..|tokens| - 1]), tokens[|tokens| - 1];
      if HasId(slice, t.row.userId) && FirstWith(slice, t.row.userId) in m then
        var u := FirstWith(slice, t.row.userId);
        m[u := m[u] + [t]]
      else m
  }

  /** The join gives a user the tokens it owns, provided no user before it in the slice has the same id. */
  lemma {:induction false} JoinedOwned(before: map<User, seq<AccessToken>>, slice: seq<User>, tokens: seq<AccessToken>,
                                       u: User)
    requires u in slice && u in before && HasId(slice, u.row.id)
    ensures Joined(before, slice, tokens).Keys == before.Keys
    ensures Joined(before, slice, tokens)[u] ==
            if FirstWith(slice, u.row.id) == u then before[u] + Owned(tokens, u.row.id) else before[u]
    decreases |tokens|
  {
    if tokens == [] {
      assert before[u] + [] == before[u];
    } else {
      hide HasId, FirstWith;
      var rest, t := tokens[..|tokens| - 1], tokens[|tokens| - 1];
      JoinedOwned(before, slice, rest, u);
      assert (before[u] + Owned(rest, u.row.id)) + [t] == before[u] + (Owned(rest, u.row.id) + [t]);
      assert Owned(rest, u.row.id) + [] == Owned(rest, u.row.id);
    }
  }

  /** Attaches one fetched token to the first user of the slice it belongs to. */
  method AttachToUser(slice: seq<User>, foreign: AccessToken)
    requires HasId(slice, foreign.row.userId)
    modifies slice, foreign
    ensures foreign.related && foreign.user == FirstWith(slice, foreign.row.userId)
    ensures Lists(slice) == Joined(old(Lists(slice)), slice, [foreign])
    ensures forall u :: u in slice ==> u.related == old(u.related)
  {
    for j := 0 to |slice|
      invariant forall i :: 0 <= i < j ==> slice[i].row.id != foreign.row.userId
      invariant forall u :: u in slice ==> u.accessTokens == old(u.accessTokens) && u.related == old(u.related)
    {
      if slice[j].row.id == foreign.row.userId {
        FirstWithAt(slice, j, foreign.row.userId);
        slice[j].accessTokens := slice[j].accessTokens + [foreign];
        foreign.related := true;
        foreign.user := slice[j];
        assert [foreign][..0] == [];
        return;
      }
    }
  }

  lemma JoinedSnoc(before: map<User, seq<AccessToken>>, slice: seq<User>, tokens: seq<AccessToken>, k: nat)
    requires k < |tokens|
    ensures Joined(before, slice, tokens[..k + 1]) == Joined(Joined(before, slice, tokens[..k]), slice, [tokens[k]])
  {
    assert tokens[..k + 1][..k] == tokens[..k];
    assert [tokens[k]][..0] == [];
  }

  method MarkUsers(slice: seq<User>)
    modifies slice
    ensures forall u :: u in slice ==> u.related && u.accessTokens == old(u.accessTokens)
  {
    for j := 0 to |slice|
      invariant forall i :: 0 <= i < j ==> slice[i].related
      invariant forall u :: u in slice ==> u.accessTokens == old(u.accessTokens)
    {
      slice[j].related := true;
    }
  }

  method AttachAllToUsers(slice: seq<User>, result: seq<AccessToken>)
    requires forall i :: 0 <= i < |result| ==> HasId(slice, result[i].row.userId)
    requires forall i, j :: 0 <= i < j < |result| ==> result[i] != result[j]
    modifies slice, result
    ensures forall i :: 0 <= i < |result| ==>
              result[i].related && result[i].user == FirstWith(slice, result[i].row.userId)
    ensures Lists(slice) == Joined(old(Lists(slice)), slice, result)
    ensures forall u :: u in slice ==> u.related == old(u.related)
  {
    hide HasId, FirstWith;
    for k := 0 to |result|
      invariant forall u :: u in slice ==> u.related == old(u.related)
      invariant forall i :: 0 <= i < k ==> result[i].related && result[i].user == FirstWith(slice, result[i].row.userId)
      invariant Lists(slice) == Joined(old(Lists(slice)), slice, result[..k])
    {
      JoinedSnoc(old(Lists(slice)), slice, result, k);
      AttachToUser(slice, result[k]);
    }
    assert result[..|result|] == result;
  }

  /** Every token fetched for a slice belongs to one of its users. */
  lemma FetchedBelong(slice: seq<User>, table: seq<TokenRow>, tokens: seq<AccessToken>)
    requires RowsOf(tokens) == TokensOfUsers(table, IdsOf(slice))
    ensures forall i :: 0 <= i < |tokens| ==> HasId(slice, tokens[i].row.userId)
  {
    forall i | 0 <= i < |tokens| ensures HasId(slice, tokens[i].row.userId) {
      SelectedBelong(table, IdsOf(slice), i);
      assert RowsOf(tokens)[i] == tokens[i].row;
    }
  }

  /** Loads the tokens of all users of the slice with one query. Each token fetched goes to the end of the
      list of the first user in the slice with its user id, and points back to it. */
  method LoadAccessTokens(slice: seq<User>, table: seq<TokenRow>) returns (result: seq<AccessToken>)
    modifies slice
    ensures RowsOf(result) == TokensOfUsers(table, IdsOf(slice))
    ensures TokenQuery(RowsOf(result), table, set u | u in slice :: u.row.id)
    ensures forall i, j :: 0 <= i < j < |result| ==> result[i] != result[j]
    ensures forall i :: 0 <= i < |result| ==>
              fresh(result[i]) && result[i].related && HasId(slice, result[i].row.userId) &&
              result[i].user == FirstWith(slice, result[i].row.userId)
    ensures Lists(slice) == Joined(old(Lists(slice)), slice, result)
    ensures forall u :: u in slice ==> u.related
  {
    Queried(table, IdsOf(slice));
    assert IdsOf(slice) == set u | u in slice :: u.row.id;
    hide TokenQuery;
    MarkUsers(slice);
    assert Lists(slice) == old(Lists(slice));
    if |slice| == 0 {
      NoIdsNoTokens(table);
      assert IdsOf(slice) == {};
      return [];
    }
    result := BindTokens(TokensOfUsers(table, IdsOf(slice)));
    FetchedBelong(slice, table, result);
    assert Lists(slice) == old(Lists(slice));
    AttachAllToUsers(slice, result);
  }

  lemma ListsJoined(before: map<User, seq<AccessToken>>, slice: seq<User>, tokens: seq<AccessToken>)
    requires forall i :: 0 <= i < |slice| ==> slice[i] in before
    ensures Joined(before, slice, tokens).Keys >= before.Keys
    ensures forall i :: 0 <= i < |slice| ==>
              HasId(slice, slice[i].row.id) && slice[i] in Joined(before, slice, tokens) &&
              Joined(before, slice, tokens)[slice[i]] ==
                if FirstWith(slice, slice[i].row.id) == slice[i] then before[slice[i]] + Owned(tokens, slice[i].row.id)
                else before[slice[i]]
  {
    JoinedKeys(before, slice, tokens);
    forall i | 0 <= i < |slice| ensures HasId(slice, slice[i].row.id) {}
    forall i | 0 <= i < |slice|
      ensures Joined(before, slice, tokens)[slice[i]] ==
              if FirstWith(slice, slice[i].row.id) == slice[i] then before[slice[i]] + Owned(tokens, slice[i].row.id)
              else before[slice[i]]
    {
      JoinedOwned(before, slice, tokens, slice[i]);
    }
  }

  lemma {:induction false} JoinedKeys(before: map<User, seq<AccessToken>>, slice: seq<User>, tokens: seq<AccessToken>)
    ensures Joined(before, slice, tokens).Keys == before.Keys
    decreases |tokens|
  {
    if tokens != [] { JoinedKeys(before, slice, tokens[..|tokens| - 1]); }
  }

  /** Loads the tokens of one user: its list is replaced. */
  method LoadAccessTokensOfOne(one: User, table: seq<TokenRow>) returns (result: seq<AccessToken>)
    modifies one
    ensures RowsOf(result) == TokensOfUsers(table, {one.row.id})
    ensures TokenQuery(RowsOf(result), table, {one.row.id})
    ensures one.related && one.accessTokens == result
    ensures forall t :: t in result ==> fresh(t) && t.related && t.user == one
  {
    Queried(table, {one.row.id});
    hide TokenQuery;
    one.related := true;
    result := BindTokens(TokensOfUsers(table, {one.row.id}));
    one.accessTokens := result;
    for k := 0 to |result|
      invariant one.related && one.accessTokens == result
      invariant forall i :: 0 <= i < |result| ==> fresh(result[i])
      invariant forall i :: 0 <= i < k ==> result[i].related && result[i].user == one
    {
      result[k].related := true;
      result[k].user := one;
    }
  }

  lemma {:induction false} NoIdsNoTokens(table: seq<TokenRow>)
    ensures TokensOfUsers(table, {}) == []
    decreases |table|
  {
    if table != [] { NoIdsNoTokens(table[..|table| - 1]); }
  }

  lemma {:induction false} SelectedBelong(table: seq<TokenRow>, ids: set<Id>, i: nat)
    requires i < |TokensOfUsers(table, ids)|
    ensures TokensOfUsers(table, ids)[i].userId in ids
    decreases |table|
  {
    var rest := table[..|table| - 1];
    if i < |TokensOfUsers(rest, ids)| { SelectedBelong(rest, ids, i); }
  }

  lemma {:induction false} OwnedRows(tokens: seq<AccessToken>, id: Id)
    ensures RowsOf(Owned(tokens, id)) == TokensOfUsers(RowsOf(tokens), {id})
    decreases |tokens|
  {
    if tokens != [] {
      var rest, last := tokens[..|tokens| - 1], tokens[|tokens| - 1];
      OwnedRows(rest, id);
      assert RowsOf(tokens)[..|tokens| - 1] == RowsOf(rest) && RowsOf(tokens)[|tokens| - 1] == last.row;
      assert RowsOf(Owned(rest, id) + [last]) == RowsOf(Owned(rest, id)) + [last.row];
      assert RowsOf(Owned(rest, id) + []) == RowsOf(Owned(rest, id));
    }
  }

  lemma {:induction false} SelectTwice(table: seq<TokenRow>, ids: set<Id>, id: Id)
    requires id in ids
    ensures TokensOfUsers(TokensOfUsers(table, ids), {id}) == TokensOfUsers(table, {id})
    decreases |table|
  {
    if table != [] {
      var rest, last := table[..|table| - 1], table[|table| - 1];
      SelectTwice(rest, ids, id);
      var s := TokensOfUsers(rest, ids);
      assert (s + [last])[..|s|] == s && s + [] == s;
    }
  }

  /** What one user of a batch gets is what loading that user alone gets. */
  lemma BatchGivesSingleLoad(slice: seq<User>, table: seq<TokenRow>, result: seq<AccessToken>, u: User)
    requires RowsOf(result) == TokensOfUsers(table, IdsOf(slice)) && u in slice
    ensures RowsOf(Owned(result, u.row.id)) == TokensOfUsers(table, {u.row.id})
  {
    OwnedRows(result, u.row.id);
    SelectTwice(table, IdsOf(slice), u.row.id);
  }

  ghost predicate DistinctIds(slice: seq<User>) {
    forall i, j :: 0 <= i < j < |slice| ==> slice[i].row.id != slice[j].row.id
  }

  /** With distinct ids and empty relations every user of the batch has the same child list as by a load of its own. */
  method LoadFreshBatch(slice: seq<User>, table: seq<TokenRow>) returns (result: seq<AccessToken>)
    requires DistinctIds(slice) && forall i :: 0 <= i < |slice| ==> slice[i].accessTokens == []
    modifies slice
    ensures RowsOf(result) == TokensOfUsers(table, IdsOf(slice))
    ensures forall i :: 0 <= i < |slice| ==>
              slice[i].accessTokens == Owned(result, slice[i].row.id) &&
              RowsOf(slice[i].accessTokens) == TokensOfUsers(table, {slice[i].row.id}) &&
              TokenQuery(RowsOf(slice[i].accessTokens), table, {slice[i].row.id})
    ensures forall i :: 0 <= i < |result| ==>
              result[i].user != null && result[i].user in slice && result[i].user.row.id == result[i].row.userId
  {
    ghost var before := Lists(slice);
    result := LoadAccessTokens(slice, table);
    ListsJoined(before, slice, result);
    forall i | 0 <= i < |slice|
      ensures slice[i].accessTokens == Owned(result, slice[i].row.id)
      ensures RowsOf(Owned(result, slice[i].row.id)) == TokensOfUsers(table, {slice[i].row.id})
      ensures TokenQuery(TokensOfUsers(table, {slice[i].row.id}), table, {slice[i].row.id})
    {
      Queried(table, {slice[i].row.id});
      FirstWithAt(slice, i, slice[i].row.id);
      assert slice[i].accessTokens == Lists(slice)[slice[i]];
      assert [] + Owned(result, slice[i].row.id) == Owned(result, slice[i].row.id);
      BatchGivesSingleLoad(slice, table, result, slice[i]);
    }
  }

  /** The lists partition the fetched tokens: each occurrence is in the list of its own user id and in no other. */
  lemma {:induction false} OwnedPartitions(tokens: seq<AccessToken>, id: Id, t: AccessToken)
    ensures multiset(Owned(tokens, id))[t] == if t.row.userId == id then multiset(tokens)[t] else 0
    decreases |tokens|
  {
    if tokens != [] {
      OwnedPartitions(tokens[..|tokens| - 1], id, t);
      assert tokens == tokens[..|tokens| - 1] + [tokens[|tokens| - 1]];
    }
  }

  /** Each fetched token lands in exactly one of the lists of a batch of distinct users. */
  lemma LandsInExactlyOneList(slice: seq<User>, result: seq<AccessToken>, t: AccessToken)
    requires DistinctIds(slice) && t in result && HasId(slice, t.row.userId)
    ensures exists i :: 0 <= i < |slice| && t in Owned(result, slice[i].row.id) &&
                        forall j :: 0 <= j < |slice| && t in Owned(result, slice[j].row.id) ==> i == j
  {
    var i :| 0 <= i < |slice| && slice[i].row.id == t.row.userId;
    assert t in multiset(result);
    forall j | 0 <= j < |slice| ensures t in Owned(result, slice[j].row.id) <==> i == j {
      OwnedPartitions(result, slice[j].row.id, t);
      assert t in Owned(result, slice[j].row.id) <==> t in multiset(Owned(result, slice[j].row.id));
    }
    assert t in Owned(result, slice[i].row.id);
  }

  // ---- Many to one

  /** Attaches the token to the first fetched user it belongs to, if any. */
  method AttachToToken(local: AccessToken, result: seq<User>)
    modifies local, result
    ensures local.related == old(local.related)
    ensures local.user ==
            if HasId(result, local.row.userId) then FirstWith(result, local.row.userId) else old(local.user)
    ensures Lists(result) == Joined(old(Lists(result)), result, [local])
    ensures forall u :: u in result && old(u.related) ==> u.related
    ensures HasId(result, local.row.userId) ==> FirstWith(result, local.row.userId).related
  {
    assert [local][..0] == [];
    for j := 0 to |result|
      invariant local.related == old(local.related) && local.user == old(local.user)
      invariant forall i :: 0 <= i < j ==> result[i].row.id != local.row.userId
      invariant forall u :: u in result ==> u.accessTokens == old(u.accessTokens) && u.related == old(u.related)
    {
      if local.row.userId == result[j].row.id {
        FirstWithAt(result, j, local.row.userId);
        local.user := result[j];
        result[j].related := true;
        result[j].accessTokens := result[j].accessTokens + [local];
        return;
      }
    }
  }

  function UserIdsOf(slice: seq<AccessToken>): set<Id> { set i | 0 <= i < |slice| :: slice[i].row.userId }

  method MarkTokens(slice: seq<AccessToken>)
    modifies slice
    ensures forall t :: t in slice ==> t.related && t.user == old(t.user)
  {
    for j := 0 to |slice|
      invariant forall i :: 0 <= i < j ==> slice[i].related
      invariant forall t :: t in slice ==> t.user == old(t.user)
    {
      slice[j].related := true;
    }
  }

  method AttachAllToTokens(slice: seq<AccessToken>, result: seq<User>)
    modifies slice, result
    ensures Lists(result) == Joined(old(Lists(result)), result, slice)
    ensures forall i :: 0 <= i < |slice| && HasId(result, slice[i].row.userId) ==>
            FirstWith(result, slice[i].row.userId).related
    ensures forall t :: t in slice ==>
              t.related == old(t.related) &&
              t.user == if HasId(result, t.row.userId) then FirstWith(result, t.row.userId) else old(t.user)
  {
    hide HasId, FirstWith;
    for k := 0 to |slice|
      invariant forall t :: t in slice ==> t.related == old(t.related)
      invariant forall t :: t in slice ==>
                  t.user == if t in slice[..k] && HasId(result, t.row.userId) then FirstWith(result, t.row.userId)
                            else old(t.user)
      invariant Lists(result) == Joined(old(Lists(result)), result, slice[..k])
      invariant forall i :: 0 <= i < k && HasId(result, slice[i].row.userId) ==>
                FirstWith(result, slice[i].row.userId).related
    {
      JoinedSnoc(old(Lists(result)), result, slice, k);
      AttachToToken(slice[k], result);
    }
    assert slice[..|slice|] == slice;
  }

  lemma FetchedDistinct(slice: seq<AccessToken>, table: seq<UserRow>, result: seq<User>)
    requires UniqueUsers(table) && UserRowsOf(result) == UsersById(table, UserIdsOf(slice))
    ensures DistinctIds(result)
  {
    SelectedDistinct(table, UserIdsOf(slice));
    assert forall i :: 0 <= i < |result| ==> result[i].row == UserRowsOf(result)[i];
  }

  /** Every user fetched for a slice is the user of one of its tokens, the only one with its id, and joined to them. */
  lemma FetchedFor(slice: seq<AccessToken>, table: seq<UserRow>, result: seq<User>, j: nat)
    requires DistinctIds(result) && UserRowsOf(result) == UsersById(table, UserIdsOf(slice)) && j < |result|
    ensures HasId(result, result[j].row.id) && FirstWith(result, result[j].row.id) == result[j]
    ensures exists i :: 0 <= i < |slice| && slice[i].row.userId == result[j].row.id
    ensures var joined := Joined(map v | v in result :: [], result, slice);
            result[j] in joined && joined[result[j]] == Owned(slice, result[j].row.id)
  {
    assert UserRowsOf(result)[j] == result[j].row;
    SelectedComeFrom(table, UserIdsOf(slice), j);
    FirstWithAt(result, j, result[j].row.id);
    JoinedOwned(map v | v in result :: [], result, slice, result[j]);
    assert [] + Owned(slice, result[j].row.id) == Owned(slice, result[j].row.id);
  }

  /** Loads the users of all tokens of the slice with one query. Every token gets the user with its user id;
      every user fetched lists its tokens of the slice in order. */
  method LoadUser(slice: seq<AccessToken>, table: seq<UserRow>) returns (result: seq<User>)
    requires UniqueUsers(table)
    modifies slice
    ensures UserRowsOf(result) == UsersById(table, UserIdsOf(slice))
    ensures UserQuery(UserRowsOf(result), table, set t | t in slice :: t.row.userId)
    ensures DistinctIds(result)
    ensures forall u :: u in result ==>
              fresh(u) && u.related && u.accessTokens == Owned(slice, u.row.id) &&
              OwnedBy(u.accessTokens, slice, u.row.id)
    ensures forall t :: t in slice ==>
              t.related &&
              t.user == if HasId(result, t.row.userId) then FirstWith(result, t.row.userId) else old(t.user)
  {
    UsersQueried(table, UserIdsOf(slice));
    assert UserIdsOf(slice) == set t | t in slice :: t.row.userId;
    hide UserQuery, OwnedBy;
    MarkTokens(slice);
    if |slice| == 0 {
      NoIdsNoUsers(table);
      assert UserIdsOf(slice) == {};
      return [];
    }
    result := BindUsers(UsersById(table, UserIdsOf(slice)));
    FetchedDistinct(slice, table, result);
    assert Lists(result) == map v | v in result :: [];
    hide UsersById, HasId, FirstWith, UserIdsOf, Joined, UniqueUsers, Owned, UserRowsOf, DistinctIds;
    AttachAllToTokens(slice, result);
    forall j | 0 <= j < |result|
      ensures result[j].related && result[j].accessTokens == Owned(slice, result[j].row.id)
      ensures OwnedBy(Owned(slice, result[j].row.id), slice, result[j].row.id)
    {
      FetchedFor(slice, table, result, j);
      OwnedMeans(slice, result[j].row.id);
      assert result[j].accessTokens == Lists(result)[result[j]];
    }
  }

  /** Loads the user of one token. */
  method LoadUserOfOne(one: AccessToken, table: seq<UserRow>) returns (result: seq<User>)
    modifies one
    ensures UserRowsOf(result) == UsersById(table, {one.row.userId})
    ensures UserQuery(UserRowsOf(result), table, {one.row.userId})
    ensures one.related
    ensures result == [] ==> one.user == old(one.user)
    ensures result != [] ==> one.user == result[0] && result[0].related && result[0].accessTokens == [one]
  {
    UsersQueried(table, {one.row.userId});
    hide UserQuery;
    one.related := true;
    result := BindUsers(UsersById(table, {one.row.userId}));
    if |result| == 0 { return; }
    one.user := result[0];
    result[0].related := true;
    result[0].accessTokens := result[0].accessTokens + [one];
  }

  lemma {:induction false} NoIdsNoUsers(table: seq<UserRow>)
    ensures UsersById(table, {}) == []
    decreases |table|
  {
    if table != [] { NoIdsNoUsers(table[..|table| - 1]); }
  }

  lemma {:induction false} SelectedComeFrom(table: seq<UserRow>, ids: set<Id>, i: nat)
    requires i < |UsersById(table, ids)|
    ensures UsersById(table, ids)[i] in table && UsersById(table, ids)[i].id in ids
    decreases |table|
  {
    var rest := table[..|table| - 1];
    if i < |UsersById(rest, ids)| { SelectedComeFrom(rest, ids, i); }
  }

  lemma {:induction false} SelectedDistinct(table: seq<UserRow>, ids: set<Id>)
    requires UniqueUsers(table)
    ensures UniqueUsers(UsersById(table, ids))
    decreases |table|
  {
    if table != [] {
      var rest, last := table[..|table| - 1], table[|table| - 1];
      SelectedDistinct(rest, ids);
      forall i | 0 <= i < |UsersById(rest, ids)| ensures UsersById(rest, ids)[i].id != last.id {
        SelectedComeFrom(rest, ids, i);
      }
    }
  }

  lemma {:induction false} SelectedAll(table: seq<UserRow>, ids: set<Id>, r: UserRow)
    requires r in table && r.id in ids
    ensures r in UsersById(table, ids)
    decreases |table|
  {
    if table[|table| - 1] != r {
      SelectedAll(table[..|table| - 1], ids, r);
    }
  }

  /** Loading by one id finds the one row with it, if there is one. */
  lemma {:induction false} SingleUser(table: seq<UserRow>, r: UserRow)
    requires UniqueUsers(table) && r in table
    ensures UsersById(table, {r.id}) == [r]
    decreases |table|
  {
    var rest, last := table[..|table| - 1], table[|table| - 1];
    if last == r {
      NoSuchUser(rest, r.id);
    } else {
      SingleUser(rest, r);
    }
  }

  lemma {:induction false} NoSuchUser(table: seq<UserRow>, id: Id)
    requires forall i :: 0 <= i < |table| ==> table[i].id != id
    ensures UsersById(table, {id}) == []
    decreases |table|
  {
    if table != [] { NoSuchUser(table[..|table| - 1], id); }
  }

  lemma FoundInBatch(table: seq<UserRow>, ids: set<Id>, result: seq<User>, r: UserRow)
    requires UserRowsOf(result) == UsersById(table, ids) && r in table && r.id in ids
    ensures HasId(result, r.id)
  {
    SelectedAll(table, ids, r);
    var j :| 0 <= j < |result| && UserRowsOf(result)[j] == r;
    assert result[j].row.id == r.id;
  }

  /** The user a batch gives to a token has the row that loading the token alone gives, and neither finds one
      exactly if the other does not. */
  lemma BatchGivesSingleUser(slice: seq<AccessToken>, table: seq<UserRow>, result: seq<User>, t: AccessToken)
    requires UniqueUsers(table) && UserRowsOf(result) == UsersById(table, UserIdsOf(slice)) && t in slice
    ensures var single := UsersById(table, {t.row.userId});
            if HasId(result, t.row.userId) then single == [FirstWith(result, t.row.userId).row] else single == []
  {
    var id := t.row.userId;
    if HasId(result, id) {
      var j :| 0 <= j < |result| && result[j] == FirstWith(result, id);
      assert UserRowsOf(result)[j] == result[j].row;
      SelectedComeFrom(table, UserIdsOf(slice), j);
      SingleUser(table, result[j].row);
    } else {
      forall i | 0 <= i < |table| ensures table[i].id != id {
        if table[i].id == id {
          FoundInBatch(table, UserIdsOf(slice), result, table[i]);
        }
      }
      NoSuchUser(table, id);
    }
  }
}
