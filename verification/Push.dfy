/** Sending to all push providers of a user: a loop over an unordered map that deletes table rows as
    it goes. */
module Push {
  import opened Common

  type Id = nat
  type ProviderType = string

  datatype PushToken = PushToken(token: string, provider: ProviderType, userId: Id)

  /** A provider's answer for one token; `failed` covers errors that leave the token valid. */
  datatype Response = Response(token: string, valid: bool, failed: bool)

  /** A provider, for one message: what it answers to a multicast. */
  datatype Provider = Provider(kind: ProviderType, sendMulticast: seq<string> -> seq<Response>)

  // ---- Specification

  function TokensFor(table: seq<PushToken>, kind: ProviderType, user: Id): seq<string> {
    if table == [] then []
    else
      var last := table[|table| - 1];
      TokensFor(table[..|table| - 1], kind, user) +
      if last.provider == kind && last.userId == user then [last.token] else []
  }

  function Invalid(responses: seq<Response>): seq<string> {
    if responses == [] then []
    else
      var last := responses[|responses| - 1];
      Invalid(responses[..|responses| - 1]) + if last.valid then [] else [last.token]
  }

  /** The tokens the provider reports as invalid when sent the user's tokens of the table. */
  function Reported(table: seq<PushToken>, provider: Provider, kind: ProviderType, user: Id): seq<string> {
    Invalid(provider.sendMulticast(TokensFor(table, kind, user)))
  }

  function DeleteTokens(table: seq<PushToken>, tokens: seq<string>, user: Id): seq<PushToken> {
    if table == [] then []
    else
      var last := table[|table| - 1];
      DeleteTokens(table[..|table| - 1], tokens, user) +
      if last.token in tokens && last.userId == user then [] else [last]
  }

  /** Some of the given providers reports the token. */
  ghost predicate ReportedBy(table: seq<PushToken>, providers: map<ProviderType, Provider>, kinds: set<ProviderType>,
                             user: Id, token: string) {
    exists k :: k in kinds && k in providers && token in Reported(table, providers[k], k, user)
  }

  /** The table less the user's tokens that the given providers report, each asked about the original table. */
  ghost function Remaining(table: seq<PushToken>, all: seq<PushToken>, providers: map<ProviderType, Provider>,
                           kinds: set<ProviderType>, user: Id): seq<PushToken> {
    if table == [] then []
    else
      var last := table[|table| - 1];
      Remaining(table[..|table| - 1], all, providers, kinds, user) +
      if last.userId == user && ReportedBy(all, providers, kinds, user, last.token) then [] else [last]
  }

  // What these mean, said of rows and answers

  /** `sent` has the tokens of the user's rows for the provider, one each and in table order. */
  ghost predicate SentFor(table: seq<PushToken>, kind: ProviderType, user: Id, sent: seq<string>) {
    exists at: seq<nat> :: SentAt(table, kind, user, sent, at)
  }

  ghost predicate SentAt(table: seq<PushToken>, kind: ProviderType, user: Id, sent: seq<string>, at: seq<nat>) {
    && Ascending(at, |table|) && |sent| == |at|
    && (forall i :: 0 <= i < |at| ==> table[at[i]] == PushToken(sent[i], kind, user))
    && (forall k :: 0 <= k < |table| && table[k].provider == kind && table[k].userId == user ==> k in at)
  }

  /** One of the given providers, sent the user's tokens of the table, answers that the token is not valid. */
  ghost predicate AnsweredInvalid(table: seq<PushToken>, providers: map<ProviderType, Provider>,
                                  kinds: set<ProviderType>, user: Id, token: string) {
    exists kind, sent, i ::
      && kind in kinds && kind in providers && SentFor(table, kind, user, sent)
      && 0 <= i < |providers[kind].sendMulticast(sent)|
      && !providers[kind].sendMulticast(sent)[i].valid && providers[kind].sendMulticast(sent)[i].token == token
  }

  ghost predicate DistinctTokens(table: seq<PushToken>) {
    forall i, j :: 0 <= i < j < |table| ==> table[i].token != table[j].token
  }

  /** Providers answer only for tokens they were sent. */
  ghost predicate AnswersOnlySent(providers: map<ProviderType, Provider>) {
    forall k, sent, i :: k in providers && 0 <= i < |providers[k].sendMulticast(sent)| ==>
      providers[k].sendMulticast(sent)[i].token in sent
  }

  // ---- The service

  class PushService {
    var providers: map<ProviderType, Provider>
    var tokens: seq<PushToken>
    var plan: seq<bool>

    constructor (tokens: seq<PushToken>, plan: seq<bool>)
      ensures providers == map[] && this.tokens == tokens && this.plan == plan
    {
      providers := map[];
      this.tokens, this.plan := tokens, plan;
    }

    method RegisterProvider(p: Provider)
      modifies this`providers
      ensures providers == old(providers)[p.kind := p]
    {
      providers := providers[p.kind := p];
    }

    method Statement() returns (ok: bool)
      modifies this`plan
      ensures (ok <==> !Fails(old(plan), 0)) && plan == Later(old(plan), 1)
    {
      ok := plan == [] || !plan[0];
      plan := if plan == [] then [] else plan[1..];
    }

    method TokensOf(kind: ProviderType, user: Id) returns (list: seq<string>)
      ensures list == TokensFor(tokens, kind, user)
      ensures SentFor(tokens, kind, user, list)
    {
      SentIsTokensFor(tokens, kind, user, TokensFor(tokens, kind, user));
      list := [];
      for i := 0 to |tokens|
        invariant list == TokensFor(tokens[..i], kind, user)
      {
        assert tokens[..i + 1][..i] == tokens[..i];
        if tokens[i].provider == kind && tokens[i].userId == user { list := list + [tokens[i].token]; }
      }
      assert tokens[..|tokens|] == tokens;
    }

    static method CollectInvalid(responses: seq<Response>) returns (list: seq<string>)
      ensures list == Invalid(responses)
      ensures forall x :: x in list <==>
                exists i :: 0 <= i < |responses| && !responses[i].valid && responses[i].token == x
    {
      InvalidMeans(responses);
      list := [];
      for i := 0 to |responses|
        invariant list == Invalid(responses[..i])
      {
        assert responses[..i + 1][..i] == responses[..i];
        if !responses[i].valid { list := list + [responses[i].token]; }
      }
      assert responses[..|responses|] == responses;
    }

    /** The body of the loop: the provider is sent the user's tokens as they were in the beginning, `all`, and the ones
        it answers to be invalid are deleted, unless one of the two statements fails. */
    method SendThrough(kind: ProviderType, user: Id, ghost all: seq<PushToken>, ghost done: set<ProviderType>)
      returns (ok: bool)
      requires DistinctTokens(all) && AnswersOnlySent(providers) && kind in providers && kind !in done
      requires tokens == Remaining(all, all, providers, done, user)
      modifies this`tokens, this`plan
      ensures (ok <==> Smooth(old(plan), 2)) && (ok ==> plan == Later(old(plan), 2))
      ensures tokens == Remaining(all, all, providers, if ok then done + {kind} else done, user)
    {
      SmoothSplits(plan, 1, 1);
      ok := Statement();
      if !ok { return; }
      var sent := TokensOf(kind, user);
      SentAsFromTheStart(all, providers, done, kind, user);
      var invalid := CollectInvalid(providers[kind].sendMulticast(sent));
      ok := Statement();
      if !ok { return; }
      DeletionExtends(all, all, providers, done, kind, user);
      tokens := DeleteTokens(tokens, invalid, user);
    }

    /** In whatever order the providers come out of the map, a successful call leaves exactly the rows that are not a
        row of the user with a token that its provider answered to be invalid, in the same order; a call that fails
        half-way has dealt with some of the providers, `done`, in this way, and with no other. It fails exactly if there
        is no provider, or if one of its two statements per provider fails. */
    method SendToUser(user: Id) returns (failed: bool, ghost done: set<ProviderType>)
      requires DistinctTokens(tokens) && AnswersOnlySent(providers)
      modifies this`tokens, this`plan
      ensures failed <==> providers == map[] || !Smooth(old(plan), 2 * |providers|)
      ensures if failed then done <= providers.Keys else done == providers.Keys
      ensures failed && providers != map[] ==>
                |done| < |providers| && Smooth(old(plan), 2 * |done|) && !Smooth(old(plan), 2 * |done| + 2)
      ensures forall row :: row in tokens <==>
                row in old(tokens) &&
                !(row.userId == user && AnsweredInvalid(old(tokens), providers, done, user, row.token))
      ensures exists at :: Picks(tokens, old(tokens), at)
    {
      hide *;
      ghost var all, start := tokens, plan;
      done := {};
      NoneReported(all, all, providers, user);
      NoneYet(plan);
      RowsRemaining(all, providers, done, user);
      if |providers| < 1 { return true, done; }
      var todo := providers.Keys;
      while todo != {}
        invariant done !! todo && done + todo == providers.Keys && |done| + |todo| == |providers|
        invariant tokens == Remaining(all, all, providers, done, user)
        invariant plan == Later(start, 2 * |done|) && Smooth(start, 2 * |done|)
        decreases |todo|
      {
        var kind :| kind in todo;
        ghost var n := 2 * |done|;
        var ok := SendThrough(kind, user, all, done);
        if !ok {
          RowsRemaining(all, providers, done, user);
          FailsByThen(start, n, 2 * |providers|);
          return true, done;
        }
        SmoothSplits(start, n, 2);
        todo, done := todo - {kind}, done + {kind};
      }
      assert done == providers.Keys;
      RowsRemaining(all, providers, done, user);
      failed := false;
    }
  }

  // ---- What is sent, reported and left

  lemma {:induction false} TokensForAt(table: seq<PushToken>, kind: ProviderType, user: Id) returns (at: seq<nat>)
    ensures SentAt(table, kind, user, TokensFor(table, kind, user), at)
    decreases |table|
  {
    at := [];
    if table != [] {
      var rest, last := table[..|table| - 1], table[|table| - 1];
      at := TokensForAt(rest, kind, user);
      if last.provider == kind && last.userId == user { at := at + [|rest|]; }
      assert table == rest + [last];
    }
  }

  /** That is the list a provider is sent, and there is only one such list. */
  lemma SentIsTokensFor(table: seq<PushToken>, kind: ProviderType, user: Id, sent: seq<string>)
    ensures SentFor(table, kind, user, sent) <==> sent == TokensFor(table, kind, user)
  {
    var at := TokensForAt(table, kind, user);
    if SentFor(table, kind, user, sent) {
      var at' :| SentAt(table, kind, user, sent, at');
      SamePositions(at, at', |table|);
      assert forall i :: 0 <= i < |at| ==> table[at[i]].token == sent[i];
    }
  }

  /** The answers that are not valid, and no others, are reported. */
  lemma {:induction false} InvalidMeans(responses: seq<Response>)
    ensures forall x :: x in Invalid(responses) <==>
              exists i :: 0 <= i < |responses| && !responses[i].valid && responses[i].token == x
    decreases |responses|
  {
    if responses != [] {
      var rest, last := responses[..|responses| - 1], responses[|responses| - 1];
      InvalidMeans(rest);
      assert responses == rest + [last];
    }
  }

  lemma ReportedMeans(all: seq<PushToken>, providers: map<ProviderType, Provider>, kinds: set<ProviderType>, user: Id,
                      token: string)
    ensures ReportedBy(all, providers, kinds, user, token) <==> AnsweredInvalid(all, providers, kinds, user, token)
  {
    forall kind | kind in kinds && kind in providers
      ensures token in Reported(all, providers[kind], kind, user) <==>
              exists sent, i ::
                && SentFor(all, kind, user, sent) && 0 <= i < |providers[kind].sendMulticast(sent)|
                && !providers[kind].sendMulticast(sent)[i].valid
                && providers[kind].sendMulticast(sent)[i].token == token
    {
      forall sent ensures SentFor(all, kind, user, sent) <==> sent == TokensFor(all, kind, user) {
        SentIsTokensFor(all, kind, user, sent);
      }
      InvalidMeans(providers[kind].sendMulticast(TokensFor(all, kind, user)));
    }
  }

  lemma {:induction false} RemainingAt(table: seq<PushToken>, all: seq<PushToken>,
                                       providers: map<ProviderType, Provider>, kinds: set<ProviderType>, user: Id)
    returns (at: seq<nat>)
    ensures Picks(Remaining(table, all, providers, kinds, user), table, at)
    ensures forall k :: 0 <= k < |table| ==>
              (k in at <==>
               !(table[k].userId == user && ReportedBy(all, providers, kinds, user, table[k].token)))
    decreases |table|
  {
    at := [];
    if table != [] {
      var rest, last := table[..|table| - 1], table[|table| - 1];
      at := RemainingAt(rest, all, providers, kinds, user);
      PicksOneMore(Remaining(rest, all, providers, kinds, user), rest, at, last);
      if !(last.userId == user && ReportedBy(all, providers, kinds, user, last.token)) { at := at + [|rest|]; }
      assert table == rest + [last];
      hide ReportedBy;
    }
  }

  lemma RowsRemaining(all: seq<PushToken>, providers: map<ProviderType, Provider>, kinds: set<ProviderType>, user: Id)
    ensures var left := Remaining(all, all, providers, kinds, user);
            && (forall row :: row in left <==>
                  row in all && !(row.userId == user && AnsweredInvalid(all, providers, kinds, user, row.token)))
            && exists at :: Picks(left, all, at)
  {
    hide Remaining, AnsweredInvalid, ReportedBy;
    var left := Remaining(all, all, providers, kinds, user);
    var at := RemainingAt(all, all, providers, kinds, user);
    forall token ensures ReportedBy(all, providers, kinds, user, token) <==>
                         AnsweredInvalid(all, providers, kinds, user, token)
    {
      ReportedMeans(all, providers, kinds, user, token);
    }
    forall row | row in all && !(row.userId == user && ReportedBy(all, providers, kinds, user, row.token))
      ensures row in left
    {
      var k :| 0 <= k < |all| && all[k] == row;
      var i :| 0 <= i < |at| && at[i] == k;
      assert left[i] == row;
    }
  }

  // ---- Why the order does not matter

  lemma {:induction false} NoneReported(table: seq<PushToken>, all: seq<PushToken>,
                                        providers: map<ProviderType, Provider>, user: Id)
    ensures Remaining(table, all, providers, {}, user) == table
    decreases |table|
  {
    if table != [] {
      NoneReported(table[..|table| - 1], all, providers, user);
      assert table == table[..|table| - 1] + [table[|table| - 1]];
    }
  }

  lemma {:induction false} SentComeFrom(table: seq<PushToken>, kind: ProviderType, user: Id, token: string)
    requires token in TokensFor(table, kind, user)
    ensures exists i :: 0 <= i < |table| && table[i] == PushToken(token, kind, user)
    decreases |table|
  {
    var last := table[|table| - 1];
    if token in TokensFor(table[..|table| - 1], kind, user) {
      SentComeFrom(table[..|table| - 1], kind, user, token);
      var i :| 0 <= i < |table| - 1 && table[..|table| - 1][i] == PushToken(token, kind, user);
      assert table[i] == PushToken(token, kind, user);
    } else {
      assert last == PushToken(token, kind, user);
    }
  }

  lemma {:induction false} InvalidComeFrom(responses: seq<Response>, token: string)
    requires token in Invalid(responses)
    ensures exists i :: 0 <= i < |responses| && responses[i].token == token
    decreases |responses|
  {
    var last := responses[|responses| - 1];
    if token in Invalid(responses[..|responses| - 1]) {
      InvalidComeFrom(responses[..|responses| - 1], token);
      var i :| 0 <= i < |responses| - 1 && responses[..|responses| - 1][i].token == token;
      assert responses[i].token == token;
    } else {
      assert last.token == token;
    }
  }

  /** A reported token is registered with the provider that reports it. */
  lemma ReportedBelongs(all: seq<PushToken>, providers: map<ProviderType, Provider>, kind: ProviderType, user: Id,
                        j: nat)
    requires DistinctTokens(all) && AnswersOnlySent(providers) && kind in providers && j < |all|
    requires all[j].token in Reported(all, providers[kind], kind, user)
    ensures all[j].provider == kind
  {
    var token, sent := all[j].token, TokensFor(all, kind, user);
    InvalidComeFrom(providers[kind].sendMulticast(sent), token);
    SentComeFrom(all, kind, user, token);
    var i :| 0 <= i < |all| && all[i] == PushToken(token, kind, user);
    assert i == j;
  }

  /** So no provider done before reports a token of another kind. */
  lemma NotReportedElsewhere(all: seq<PushToken>, providers: map<ProviderType, Provider>, done: set<ProviderType>,
                             user: Id, j: nat)
    requires DistinctTokens(all) && AnswersOnlySent(providers) && j < |all|
    requires all[j].provider !in done
    ensures !ReportedBy(all, providers, done, user, all[j].token)
  {
    forall k | k in done && k in providers ensures all[j].token !in Reported(all, providers[k], k, user) {
      if all[j].token in Reported(all, providers[k], k, user) { ReportedBelongs(all, providers, k, user, j); }
    }
  }

  lemma {:induction false} SentPrefix(all: seq<PushToken>, providers: map<ProviderType, Provider>,
                                      done: set<ProviderType>, kind: ProviderType, user: Id, n: nat)
    requires DistinctTokens(all) && AnswersOnlySent(providers) && kind !in done && n <= |all|
    ensures TokensFor(Remaining(all[..n], all, providers, done, user), kind, user) == TokensFor(all[..n], kind, user)
    decreases n
  {
    if n > 0 {
      SentPrefix(all, providers, done, kind, user, n - 1);
      assert all[..n][..n - 1] == all[..n - 1];
      var rest, last := Remaining(all[..n - 1], all, providers, done, user), all[n - 1];
      if last.provider == kind { NotReportedElsewhere(all, providers, done, user, n - 1); }
      assert (rest + [last])[..|rest|] == rest && rest + [] == rest;
      assert TokensFor(all[..n - 1], kind, user) + [] == TokensFor(all[..n - 1], kind, user);
    }
  }

  /** A provider is sent the same tokens whichever providers were dealt with before. */
  lemma SentAsFromTheStart(all: seq<PushToken>, providers: map<ProviderType, Provider>, done: set<ProviderType>,
                           kind: ProviderType, user: Id)
    requires DistinctTokens(all) && AnswersOnlySent(providers) && kind !in done
    ensures TokensFor(Remaining(all, all, providers, done, user), kind, user) == TokensFor(all, kind, user)
  {
    SentPrefix(all, providers, done, kind, user, |all|);
    assert all[..|all|] == all;
  }

  lemma {:induction false} DeletionExtends(table: seq<PushToken>, all: seq<PushToken>,
                                           providers: map<ProviderType, Provider>, done: set<ProviderType>,
                                           kind: ProviderType, user: Id)
    requires kind in providers
    ensures DeleteTokens(Remaining(table, all, providers, done, user), Reported(all, providers[kind], kind, user), user)
            == Remaining(table, all, providers, done + {kind}, user)
    decreases |table|
  {
    if table != [] {
      DeletionExtends(table[..|table| - 1], all, providers, done, kind, user);
      var rest, last := Remaining(table[..|table| - 1], all, providers, done, user), table[|table| - 1];
      assert (rest + [last])[..|rest|] == rest && rest + [] == rest;
      assert ReportedBy(all, providers, done + {kind}, user, last.token) <==>
             ReportedBy(all, providers, done, user, last.token) ||
               last.token in Reported(all, providers[kind], kind, user);
    }
  }
}
