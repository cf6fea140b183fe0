/**
 The invariant the endpoints keep on the store: community names and key
 names are unique across all accounts, every community has a name and a
 description, no account owns more than five communities or five keys,
 and every community's scorer link resolves to a scorer row of its own.
 Under it, the endpoints' "exactly one row has this name" duplicate test
 is the same as "some row has this name".
 */
module StoreInvariant {
  import opened AccountModel
  import opened Communities
  import opened ApiKeys
  import opened Scorers

  ghost predicate UniqueCommunityNames(m: map<RecordId, Community>) {
    forall i, j :: i in m && j in m && m[i].name == m[j].name ==> i == j
  }

  ghost predicate UniqueKeyNames(m: map<RecordId, ApiKey>) {
    forall i, j :: i in m && j in m && m[i].name == m[j].name ==> i == j
  }

  ghost predicate FilledRows(m: map<RecordId, Community>) {
    forall id :: id in m ==> m[id].name != [] && m[id].description != []
  }

  ghost predicate CommunityLimit(m: map<RecordId, Community>) {
    forall a: AccountId :: |OwnedCommunities(m, a)| <= MaxCommunities
  }

  ghost predicate KeyLimit(m: map<RecordId, ApiKey>) {
    forall a: AccountId :: |OwnedKeys(m, a)| <= MaxKeys
  }

  /** Every scorer link resolves, and no two communities share a scorer row. */
  ghost predicate ScorerLinks(s: Store) {
    && (forall id :: id in s.communities && s.communities[id].scorer.Some?
          ==> s.communities[id].scorer.value in s.scorers)
    && (forall i, j ::
          i in s.communities && j in s.communities && s.communities[i].scorer.Some?
          && s.communities[i].scorer == s.communities[j].scorer
          ==> i == j)
  }

  ghost predicate Valid(s: Store) {
    && UniqueCommunityNames(s.communities)
    && FilledRows(s.communities)
    && CommunityLimit(s.communities)
    && UniqueKeyNames(s.apiKeys)
    && KeyLimit(s.apiKeys)
    && ScorerLinks(s)
  }

  lemma EmptyStoreValid()
    ensures Valid(EmptyStore)
  {
  }

  /** With unique names, exactly one community carries n iff some community carries it. */
  lemma NameCountUnderUniqueness(m: map<RecordId, Community>, n: string)
    requires UniqueCommunityNames(m)
    ensures |CommunitiesNamed(m, n)| == 1 <==> !NameFree(m, n)
    ensures |CommunitiesNamed(m, n)| <= 1
  {
    if id :| id in m && m[id].name == n {
      assert CommunitiesNamed(m, n) == {id};
    } else {
      assert CommunitiesNamed(m, n) == {};
    }
  }

  /** With unique names, exactly one key carries n iff some key carries it. */
  lemma KeyNameCountUnderUniqueness(m: map<RecordId, ApiKey>, n: string)
    requires UniqueKeyNames(m)
    ensures |KeysNamed(m, n)| == 1 <==> exists id :: id in m && m[id].name == n
    ensures |KeysNamed(m, n)| <= 1
  {
    if id :| id in m && m[id].name == n {
      assert KeysNamed(m, n) == {id};
    } else {
      assert KeysNamed(m, n) == {};
    }
  }

  lemma CreatePreservesValid(s: Store, caller: Option<AccountId>, payload: Option<CommunityPayload>, dsc: Scorer)
    requires Valid(s) && Create(s, caller, payload, dsc).Ok?
    ensures Valid(Create(s, caller, payload, dsc).value)
  {
    var a := caller.value;
    var p := payload.value;
    CreateAddsRow(s, a, p, dsc);
    var s' := Create(s, caller, payload, dsc).value;
    var id := NewCommunityId(s);
    NameCountUnderUniqueness(s.communities, p.name);
    forall b: AccountId ensures |OwnedCommunities(s'.communities, b)| <= MaxCommunities {
      OwnedCommunitiesAfterInsert(s.communities, id, s'.communities[id], b);
    }
  }

  lemma UpdatePreservesValid(s: Store, caller: Option<AccountId>, id: RecordId, p: CommunityPayload)
    requires Valid(s) && Update(s, caller, id, p).Ok?
    ensures Valid(Update(s, caller, id, p).value)
  {
    var s' := Update(s, caller, id, p).value;
    NameCountUnderUniqueness(s.communities, p.name);
    forall b: AccountId ensures |OwnedCommunities(s'.communities, b)| <= MaxCommunities {
      assert OwnedCommunities(s'.communities, b) == OwnedCommunities(s.communities, b);
    }
  }

  lemma DeletePreservesValid(s: Store, caller: Option<AccountId>, id: RecordId)
    requires Valid(s) && Delete(s, caller, id).Ok?
    ensures Valid(Delete(s, caller, id).value)
  {
    var s' := Delete(s, caller, id).value;
    forall b: AccountId ensures |OwnedCommunities(s'.communities, b)| <= MaxCommunities {
      assert OwnedCommunities(s'.communities, b) == OwnedCommunities(s.communities, b) - {id};
    }
  }

  lemma CreateKeyPreservesValid(s: Store, caller: Option<AccountId>, name: string)
    requires Valid(s) && CreateKey(s, caller, name).Ok?
    ensures Valid(CreateKey(s, caller, name).value.0)
  {
    var (s', id) := CreateKey(s, caller, name).value;
    assert s'.apiKeys == s.apiKeys[id := ApiKey(caller.value, name)];
    KeyNameCountUnderUniqueness(s.apiKeys, name);
    forall b: AccountId ensures |OwnedKeys(s'.apiKeys, b)| <= MaxKeys {
      OwnedKeysAfterInsert(s.apiKeys, id, ApiKey(caller.value, name), b);
    }
  }

  lemma DeleteKeyPreservesValid(s: Store, caller: Option<AccountId>, id: RecordId)
    requires Valid(s) && DeleteKey(s, caller, id).Ok?
    ensures Valid(DeleteKey(s, caller, id).value)
  {
    var s' := DeleteKey(s, caller, id).value;
    forall b: AccountId ensures |OwnedKeys(s'.apiKeys, b)| <= MaxKeys {
      assert OwnedKeys(s'.apiKeys, b) == OwnedKeys(s.apiKeys, b) - {id};
    }
  }

  lemma UpdateScorersPreservesValid(s: Store, caller: Option<AccountId>, id: RecordId, t: string, dw: Weights)
    requires Valid(s) && UpdateScorers(s, caller, id, t, dw).Ok?
    ensures Valid(UpdateScorers(s, caller, id, t, dw).value)
  {
    var s' := UpdateScorers(s, caller, id, t, dw).value;
    forall b: AccountId ensures |OwnedCommunities(s'.communities, b)| <= MaxCommunities {
      assert OwnedCommunities(s'.communities, b) == OwnedCommunities(s.communities, b);
    }
  }

  /**
   The duplicate-name check of create is global: a community of any account
   holding the name blocks it, ahead of the empty-field checks.
   */
  lemma DuplicateNameRejectedAcrossAccounts(s: Store, a: AccountId, other: RecordId, p: CommunityPayload, dsc: Scorer)
    requires Valid(s)
    requires other in s.communities && s.communities[other].name == p.name
    requires |OwnedCommunities(s.communities, a)| < MaxCommunities
    ensures Create(s, Some(a), Some(p), dsc) == Err(Raised(CommunityExists))
  {
    NameCountUnderUniqueness(s.communities, p.name);
  }

  /**
   The duplicate test counts rows and compares with one: a table that
   already holds two communities named n lets a third through. The
   invariant above shows no sequence of endpoint calls builds such a table.
   */
  lemma TwoDuplicatesLetAThirdThrough(s: Store, a: AccountId, p: CommunityPayload, dsc: Scorer)
    requires |CommunitiesNamed(s.communities, p.name)| == 2
    requires |OwnedCommunities(s.communities, a)| < MaxCommunities && Filled(p)
    ensures Create(s, Some(a), Some(p), dsc).Ok?
    ensures |CommunitiesNamed(Create(s, Some(a), Some(p), dsc).value.communities, p.name)| == 3
  {
    CreateAddsRow(s, a, p, dsc);
    var s' := Create(s, Some(a), Some(p), dsc).value;
    assert CommunitiesNamed(s'.communities, p.name) == CommunitiesNamed(s.communities, p.name) + {NewCommunityId(s)};
  }

  /**
   The scorer endpoint works on what create leaves: right after a create,
   its caller can switch the new community to either scorer type.
   */
  lemma CreateThenUpdateScorersSucceeds(s: Store, a: AccountId, p: CommunityPayload, dsc: Scorer, t: string, dw: Weights)
    requires Create(s, Some(a), Some(p), dsc).Ok? && IsScorerType(t)
    ensures var s' := Create(s, Some(a), Some(p), dsc).value;
      && UpdateScorers(s', Some(a), NewCommunityId(s), t, dw).Ok?
      && var s'' := UpdateScorers(s', Some(a), NewCommunityId(s), t, dw).value;
         s''.scorers[s''.communities[NewCommunityId(s)].scorer.value] == Replacement(dsc, t, dw)
  {
  }

  /** Renaming a community and renaming it back restores the store exactly. */
  lemma UpdateRoundTrip(s: Store, a: AccountId, id: RecordId, p: CommunityPayload)
    requires Valid(s) && Update(s, Some(a), id, p).Ok?
    ensures var c := s.communities[id];
      Update(Update(s, Some(a), id, p).value, Some(a), id, CommunityPayload(c.name, c.description, c.useCase))
      == Ok(s)
  {
    var c := s.communities[id];
    var s' := Update(s, Some(a), id, p).value;
    assert NameFree(s'.communities, c.name);
    assert CommunitiesNamed(s'.communities, c.name) == {};
    var back := CommunityPayload(c.name, c.description, c.useCase);
    assert Update(s', Some(a), id, back).value.communities == s.communities;
  }

  /** Sequential create calls by one account; a failed call leaves the store as it was. */
  function CreateAll(s: Store, a: AccountId, ps: seq<CommunityPayload>, dsc: Scorer): Store
    decreases |ps|
  {
    if ps == [] then s
    else
      var r := Create(s, Some(a), Some(ps[0]), dsc);
      CreateAll(if r.Ok? then r.value else s, a, ps[1..], dsc)
  }

  /** However many creates an account issues, the store stays valid, so in particular it owns at most five communities. */
  lemma {:induction false} CreateAllKeepsValid(s: Store, a: AccountId, ps: seq<CommunityPayload>, dsc: Scorer)
    requires Valid(s)
    ensures Valid(CreateAll(s, a, ps, dsc))
    decreases |ps|
  {
    if ps != [] {
      var r := Create(s, Some(a), Some(ps[0]), dsc);
      if r.Ok? {
        CreatePreservesValid(s, Some(a), Some(ps[0]), dsc);
      }
      CreateAllKeepsValid(if r.Ok? then r.value else s, a, ps[1..], dsc);
    }
  }

  /** Payloads a fresh account can create one after another: filled, with names unused and pairwise distinct. */
  ghost predicate Creatable(s: Store, ps: seq<CommunityPayload>) {
    && (forall i :: 0 <= i < |ps| ==> Filled(ps[i]) && NameFree(s.communities, ps[i].name))
    && (forall i, j :: 0 <= i < j < |ps| ==> ps[i].name != ps[j].name)
  }

  /**
   Creates up to the limit all succeed: each adds one community for the
   caller and one row to the table.
   */
  lemma {:induction false} CreateAllUpToLimit(s: Store, a: AccountId, ps: seq<CommunityPayload>, dsc: Scorer)
    requires Creatable(s, ps)
    requires |OwnedCommunities(s.communities, a)| + |ps| <= MaxCommunities
    ensures |OwnedCommunities(CreateAll(s, a, ps, dsc).communities, a)| == |OwnedCommunities(s.communities, a)| + |ps|
    ensures |CreateAll(s, a, ps, dsc).communities| == |s.communities| + |ps|
    decreases |ps|
  {
    if ps != [] {
      var p := ps[0];
      CreateBelowLimitSucceeds(s, a, p, dsc);
      CreateAddsRow(s, a, p, dsc);
      var s' := Create(s, Some(a), Some(p), dsc).value;
      forall i | 0 <= i < |ps[1..]| ensures NameFree(s'.communities, ps[1..][i].name) {
        assert ps[1..][i] == ps[i + 1];
      }
      CreateAllUpToLimit(s', a, ps[1..], dsc);
    }
  }

  /**
   An account that owns nothing issues five good creates and then a sixth:
   the five succeed, the sixth fails with TooManyCommunities, and the table
   holds exactly five more rows.
   */
  lemma FiveCreatesThenSixthFails(s: Store, a: AccountId, ps: seq<CommunityPayload>, sixth: CommunityPayload, dsc: Scorer)
    requires OwnedCommunities(s.communities, a) == {}
    requires |ps| == MaxCommunities && Creatable(s, ps)
    ensures var s5 := CreateAll(s, a, ps, dsc);
      && Create(s5, Some(a), Some(sixth), dsc) == Err(Raised(TooManyCommunities))
      && |s5.communities| == |s.communities| + MaxCommunities
  {
    CreateAllUpToLimit(s, a, ps, dsc);
  }

  /** One call to a state-changing endpoint, with its caller. */
  datatype Request =
    | CreateCommunityRequest(caller: Option<AccountId>, payload: Option<CommunityPayload>, defaultScorer: Scorer)
    | UpdateCommunityRequest(caller: Option<AccountId>, id: RecordId, update: CommunityPayload)
    | DeleteCommunityRequest(caller: Option<AccountId>, id: RecordId)
    | CreateApiKeyRequest(caller: Option<AccountId>, name: string)
    | DeleteApiKeyRequest(caller: Option<AccountId>, id: RecordId)
    | UpdateScorersRequest(caller: Option<AccountId>, id: RecordId, scorerType: string, defaultWeights: Weights)

  function Handle(s: Store, req: Request): Result<Store> {
    match req
    case CreateCommunityRequest(c, p, dsc) => Create(s, c, p, dsc)
    case UpdateCommunityRequest(c, id, p) => Update(s, c, id, p)
    case DeleteCommunityRequest(c, id) => Delete(s, c, id)
    case CreateApiKeyRequest(c, n) =>
      var r := CreateKey(s, c, n);
      if r.Ok? then Ok(r.value.0) else Err(r.failure)
    case DeleteApiKeyRequest(c, id) => DeleteKey(s, c, id)
    case UpdateScorersRequest(c, id, t, dw) => UpdateScorers(s, c, id, t, dw)
  }

  /** The store after serving the requests in order; a failed request changes nothing. */
  function Serve(s: Store, reqs: seq<Request>): Store
    decreases |reqs|
  {
    if reqs == [] then s
    else
      var r := Handle(s, reqs[0]);
      Serve(if r.Ok? then r.value else s, reqs[1..])
  }

  lemma HandlePreservesValid(s: Store, req: Request)
    requires Valid(s) && Handle(s, req).Ok?
    ensures Valid(Handle(s, req).value)
  {
    match req
    case CreateCommunityRequest(c, p, dsc) => CreatePreservesValid(s, c, p, dsc);
    case UpdateCommunityRequest(c, id, p) => UpdatePreservesValid(s, c, id, p);
    case DeleteCommunityRequest(c, id) => DeletePreservesValid(s, c, id);
    case CreateApiKeyRequest(c, n) => CreateKeyPreservesValid(s, c, n);
    case DeleteApiKeyRequest(c, id) => DeleteKeyPreservesValid(s, c, id);
    case UpdateScorersRequest(c, id, t, dw) => UpdateScorersPreservesValid(s, c, id, t, dw);
  }

  /**
   Every store the endpoints build from an empty one is valid: names are
   unique and no account exceeds five communities or five keys.
   */
  lemma {:induction false} ServeKeepsValid(s: Store, reqs: seq<Request>)
    requires Valid(s)
    ensures Valid(Serve(s, reqs))
    decreases |reqs|
  {
    if reqs != [] {
      var r := Handle(s, reqs[0]);
      if r.Ok? {
        HandlePreservesValid(s, reqs[0]);
      }
      ServeKeepsValid(if r.Ok? then r.value else s, reqs[1..]);
    }
  }

  /**
   In every store reachable from the empty one, the create check "exactly
   one community has this name" rejects precisely the names already in use.
   */
  lemma ReachableDuplicateCheckIsExact(reqs: seq<Request>, n: string)
    ensures var s := Serve(EmptyStore, reqs);
      |CommunitiesNamed(s.communities, n)| == 1 <==> !NameFree(s.communities, n)
    ensures |CommunitiesNamed(Serve(EmptyStore, reqs).communities, n)| <= 1
  {
    EmptyStoreValid();
    ServeKeepsValid(EmptyStore, reqs);
    NameCountUnderUniqueness(Serve(EmptyStore, reqs).communities, n);
  }
}
