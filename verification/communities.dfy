/**
 The community endpoints of the account API: create, list, update and
 delete. Each is a pure function from the store, the calling account and
 the request payload to either the failure the endpoint raises or the
 store it leaves behind. The checks run in the endpoint's order, which
 decides the failure reported when several apply.
 */
module Communities {
  import opened AccountModel

  /** The request body of the create and update endpoints; use_case is optional. */
  datatype CommunityPayload = CommunityPayload(name: string, description: string, useCase: Option<string>)

  /** How many communities one account may own. */
  const MaxCommunities: nat := 5

  /** The id the next created community receives. */
  function NewCommunityId(s: Store): (id: RecordId)
    ensures id !in s.communities
  {
    FreshId(s.communities, s.nextCommunityId)
  }

  /**
   The create endpoint. The data layer gives every new community a scorer
   row of its own; `defaultScorer` is that row's class, type and weights.
   */
  function Create(s: Store, caller: Option<AccountId>, payload: Option<CommunityPayload>, defaultScorer: Scorer)
    : (r: Result<Store>)
    // the checks, in order; the first that applies decides the failure
    ensures caller.None? ==> r == Err(Raised(Unauthorized))
    ensures caller.Some? && payload.None? ==> r == Err(Raised(CommunityHasNoBody))
    ensures caller.Some? && payload.Some? && |OwnedCommunities(s.communities, caller.value)| >= MaxCommunities
      ==> r == Err(Raised(TooManyCommunities))
    ensures caller.Some? && payload.Some? && |OwnedCommunities(s.communities, caller.value)| < MaxCommunities
      && |CommunitiesNamed(s.communities, payload.value.name)| == 1
      ==> r == Err(Raised(CommunityExists))
    ensures caller.Some? && payload.Some? && |OwnedCommunities(s.communities, caller.value)| < MaxCommunities
      && |CommunitiesNamed(s.communities, payload.value.name)| != 1 && payload.value.name == []
      ==> r == Err(Raised(CommunityHasNoName))
    ensures caller.Some? && payload.Some? && |OwnedCommunities(s.communities, caller.value)| < MaxCommunities
      && |CommunitiesNamed(s.communities, payload.value.name)| != 1 && payload.value.name != []
      && payload.value.description == []
      ==> r == Err(Raised(CommunityHasNoDescription))
    // a create that passes every check succeeds
    ensures r.Ok? <==>
      && caller.Some? && payload.Some?
      && |OwnedCommunities(s.communities, caller.value)| < MaxCommunities
      && |CommunitiesNamed(s.communities, payload.value.name)| != 1
      && payload.value.name != [] && payload.value.description != []
    // success adds exactly one community, owned by the caller, holding the payload
    // and linked to a new scorer row
    ensures r.Ok? ==>
      && caller.Some? && payload.Some?
      && NewCommunityId(s) !in s.communities
      && r.value.communities.Keys == s.communities.Keys + {NewCommunityId(s)}
      && r.value.communities[NewCommunityId(s)]
         == Community(caller.value, payload.value.name, payload.value.description, payload.value.useCase,
                      Some(NewScorerId(s)))
      && AgreeExcept(s.communities, r.value.communities, NewCommunityId(s))
      && NewScorerId(s) !in s.scorers
      && r.value.scorers.Keys == s.scorers.Keys + {NewScorerId(s)}
      && r.value.scorers[NewScorerId(s)] == defaultScorer
      && AgreeExcept(s.scorers, r.value.scorers, NewScorerId(s))
      && r.value.apiKeys == s.apiKeys
  {
    if caller.None? then Err(Raised(Unauthorized))
    else if payload.None? then Err(Raised(CommunityHasNoBody))
    else
      var account := caller.value;
      var p := payload.value;
      if |OwnedCommunities(s.communities, account)| >= MaxCommunities then Err(Raised(TooManyCommunities))
      else if |CommunitiesNamed(s.communities, p.name)| == 1 then Err(Raised(CommunityExists))
      else if |p.name| == 0 then Err(Raised(CommunityHasNoName))
      else if |p.description| == 0 then Err(Raised(CommunityHasNoDescription))
      else
        var id := NewCommunityId(s);
        var scorerId := NewScorerId(s);
        Ok(s.(communities := s.communities[id := Community(account, p.name, p.description, p.useCase, Some(scorerId))],
              nextCommunityId := id + 1,
              scorers := s.scorers[scorerId := defaultScorer],
              nextScorerId := scorerId + 1))
  }

  /** The communities the listing endpoint returns: those of the caller and no others. */
  function Get(s: Store, caller: Option<AccountId>): (r: Result<map<RecordId, Community>>)
    ensures r.Err? <==> caller.None?
    ensures r.Err? ==> r.failure == Raised(Unauthorized)
    ensures r.Ok? ==> r.value.Keys == OwnedCommunities(s.communities, caller.value)
    ensures r.Ok? ==> forall id :: id in r.value ==> id in s.communities && r.value[id] == s.communities[id]
  {
    if caller.None? then Err(Raised(Unauthorized))
    else Ok(OwnedRows(s.communities, caller.value))
  }

  function OwnedRows(m: map<RecordId, Community>, a: AccountId): map<RecordId, Community> {
    map id | id in m && m[id].owner == a :: m[id]
  }

  /** Two tables whose rows owned by a coincide give a the same listing. */
  lemma OwnedRowsAgree(m: map<RecordId, Community>, m': map<RecordId, Community>, a: AccountId)
    requires forall id :: id in m && m[id].owner == a ==> id in m' && m'[id] == m[id]
    requires forall id :: id in m' && m'[id].owner == a ==> id in m && m[id] == m'[id]
    ensures OwnedRows(m, a) == OwnedRows(m', a)
  {
  }

  /** The community with this id, if the caller owns it (the ownership-scoped lookup). */
  predicate OwnedBy(s: Store, id: RecordId, a: AccountId) {
    id in s.communities && s.communities[id].owner == a
  }

  function Update(s: Store, caller: Option<AccountId>, id: RecordId, payload: CommunityPayload): (r: Result<Store>)
    ensures caller.None? ==> r == Err(Raised(Unauthorized))
    ensures caller.Some? && !OwnedBy(s, id, caller.value) ==> r == Err(NotFound)
    ensures caller.Some? && OwnedBy(s, id, caller.value) && payload.name == []
      ==> r == Err(Raised(CommunityHasNoName))
    ensures caller.Some? && OwnedBy(s, id, caller.value) && payload.name != [] && payload.description == []
      ==> r == Err(Raised(CommunityHasNoDescription))
    ensures caller.Some? && OwnedBy(s, id, caller.value) && payload.name != [] && payload.description != []
      && payload.name == s.communities[id].name
      ==> r == Err(Raised(SameCommunityName))
    ensures caller.Some? && OwnedBy(s, id, caller.value) && payload.name != [] && payload.description != []
      && payload.name != s.communities[id].name && |CommunitiesNamed(s.communities, payload.name)| == 1
      ==> r == Err(Raised(CommunityExists))
    // an update that passes every check succeeds
    ensures r.Ok? <==>
      && caller.Some? && OwnedBy(s, id, caller.value)
      && payload.name != [] && payload.description != []
      && payload.name != s.communities[id].name
      && |CommunitiesNamed(s.communities, payload.name)| != 1
    // success rewrites every payload field of that one community and nothing else
    ensures r.Ok? ==>
      && caller.Some? && OwnedBy(s, id, caller.value)
      && r.value.communities.Keys == s.communities.Keys
      && r.value.communities[id].name == payload.name
      && r.value.communities[id].description == payload.description
      && r.value.communities[id].useCase == payload.useCase
      && r.value.communities[id].owner == s.communities[id].owner
      && r.value.communities[id].scorer == s.communities[id].scorer
      && AgreeExcept(s.communities, r.value.communities, id)
      && r.value.apiKeys == s.apiKeys && r.value.scorers == s.scorers
      && r.value.nextCommunityId == s.nextCommunityId
  {
    if caller.None? then Err(Raised(Unauthorized))
    else if !OwnedBy(s, id, caller.value) then Err(NotFound)
    else
      var current := s.communities[id];
      if |payload.name| == 0 then Err(Raised(CommunityHasNoName))
      else if |payload.description| == 0 then Err(Raised(CommunityHasNoDescription))
      else if payload.name == current.name then Err(Raised(SameCommunityName))
      else if |CommunitiesNamed(s.communities, payload.name)| == 1 then Err(Raised(CommunityExists))
      else
        var updated := current.(name := payload.name, description := payload.description, useCase := payload.useCase);
        Ok(s.(communities := s.communities[id := updated]))
  }

  function Delete(s: Store, caller: Option<AccountId>, id: RecordId): (r: Result<Store>)
    ensures caller.None? ==> r == Err(Raised(Unauthorized))
    ensures caller.Some? ==> (r.Ok? <==> OwnedBy(s, id, caller.value))
    ensures caller.Some? && !OwnedBy(s, id, caller.value) ==> r == Err(NotFound)
    // success removes exactly the targeted community
    ensures r.Ok? ==>
      && r.value.communities.Keys == s.communities.Keys - {id}
      && AgreeExcept(s.communities, r.value.communities, id)
      && r.value.apiKeys == s.apiKeys && r.value.scorers == s.scorers
  {
    if caller.None? then Err(Raised(Unauthorized))
    else if !OwnedBy(s, id, caller.value) then Err(NotFound)
    else Ok(s.(communities := s.communities - {id}))
  }

  /** A payload that passes the name and description checks. */
  predicate Filled(p: CommunityPayload) {
    p.name != [] && p.description != []
  }

  /** No community, of any account, uses the name n. */
  predicate NameFree(m: map<RecordId, Community>, n: string) {
    forall id :: id in m ==> m[id].name != n
  }

  /** With fewer than five communities and a free name, a filled create succeeds and the caller owns one more. */
  lemma CreateBelowLimitSucceeds(s: Store, a: AccountId, p: CommunityPayload, dsc: Scorer)
    requires |OwnedCommunities(s.communities, a)| < MaxCommunities
    requires NameFree(s.communities, p.name) && Filled(p)
    ensures Create(s, Some(a), Some(p), dsc).Ok?
    ensures |OwnedCommunities(Create(s, Some(a), Some(p), dsc).value.communities, a)| == |OwnedCommunities(s.communities, a)| + 1
    ensures |Create(s, Some(a), Some(p), dsc).value.communities| == |s.communities| + 1
  {
    assert CommunitiesNamed(s.communities, p.name) == {};
    var id := NewCommunityId(s);
    var c := Community(a, p.name, p.description, p.useCase, Some(NewScorerId(s)));
    OwnedCommunitiesAfterInsert(s.communities, id, c, a);
  }

  /** Once the caller owns five communities every create by them fails, whatever the payload. */
  lemma CreateAtLimitFails(s: Store, a: AccountId, p: CommunityPayload, dsc: Scorer)
    requires |OwnedCommunities(s.communities, a)| >= MaxCommunities
    ensures Create(s, Some(a), Some(p), dsc) == Err(Raised(TooManyCommunities))
  {
  }

  /** The table a successful create leaves: the old one with the new row added. */
  lemma CreateAddsRow(s: Store, a: AccountId, p: CommunityPayload, dsc: Scorer)
    requires Create(s, Some(a), Some(p), dsc).Ok?
    ensures Create(s, Some(a), Some(p), dsc).value.communities
            == s.communities[NewCommunityId(s) := Community(a, p.name, p.description, p.useCase, Some(NewScorerId(s)))]
  {
  }

  /** A successful create shows the new community in its caller's listing. */
  lemma CreateThenGet(s: Store, a: AccountId, p: CommunityPayload, dsc: Scorer)
    requires Create(s, Some(a), Some(p), dsc).Ok?
    ensures var s' := Create(s, Some(a), Some(p), dsc).value;
      && Get(s', Some(a)).value.Keys == Get(s, Some(a)).value.Keys + {NewCommunityId(s)}
      && Get(s', Some(a)).value[NewCommunityId(s)].name == p.name
  {
  }

  /** A successful create leaves every other account's listing as it was. */
  lemma CreateHiddenFromOthers(s: Store, a: AccountId, p: CommunityPayload, dsc: Scorer, b: AccountId)
    requires Create(s, Some(a), Some(p), dsc).Ok? && b != a
    ensures Get(Create(s, Some(a), Some(p), dsc).value, Some(b)) == Get(s, Some(b))
  {
    CreateAddsRow(s, a, p, dsc);
    OwnedRowsAgree(s.communities, Create(s, Some(a), Some(p), dsc).value.communities, b);
  }

  /** Deleting the community a create just added gives back the community table it started from. */
  lemma CreateThenDeleteRestores(s: Store, a: AccountId, p: CommunityPayload, dsc: Scorer)
    requires Create(s, Some(a), Some(p), dsc).Ok?
    ensures var s' := Create(s, Some(a), Some(p), dsc).value;
      && Delete(s', Some(a), NewCommunityId(s)).Ok?
      && Delete(s', Some(a), NewCommunityId(s)).value.communities == s.communities
  {
  }

  /** Update is not subject to the five-community limit. */
  lemma UpdateIgnoresLimit(s: Store, a: AccountId, id: RecordId, p: CommunityPayload)
    requires OwnedBy(s, id, a) && Filled(p)
    requires p.name != s.communities[id].name && NameFree(s.communities, p.name)
    ensures Update(s, Some(a), id, p).Ok?
    ensures |Update(s, Some(a), id, p).value.communities| == |s.communities|
  {
  }

  /** Neither update nor delete by one account changes what another account lists. */
  lemma OtherAccountsUnaffected(s: Store, a: AccountId, b: AccountId, id: RecordId, p: CommunityPayload)
    requires a != b
    ensures Update(s, Some(a), id, p).Ok? ==> Get(Update(s, Some(a), id, p).value, Some(b)) == Get(s, Some(b))
    ensures Delete(s, Some(a), id).Ok? ==> Get(Delete(s, Some(a), id).value, Some(b)) == Get(s, Some(b))
  {
    if Update(s, Some(a), id, p).Ok? {
      OwnedRowsAgree(s.communities, Update(s, Some(a), id, p).value.communities, b);
    }
    if Delete(s, Some(a), id).Ok? {
      OwnedRowsAgree(s.communities, Delete(s, Some(a), id).value.communities, b);
    }
  }
}
