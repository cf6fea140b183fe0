/**
 The API-key endpoints of the account API: create, list and delete. Key
 generation and hashing are opaque to the model: a key is its owner and
 its name, stored under a fresh id.
 */
module ApiKeys {
  import opened AccountModel

  /** How many API keys one account may own. */
  const MaxKeys: nat := 5

  /** The id the next created key receives. */
  function NewKeyId(s: Store): (id: RecordId)
    ensures id !in s.apiKeys
  {
    FreshId(s.apiKeys, s.nextKeyId)
  }

  /** On success, the new store and the id of the key it added. */
  function CreateKey(s: Store, caller: Option<AccountId>, name: string): (r: Result<(Store, RecordId)>)
    ensures caller.None? ==> r == Err(Raised(Unauthorized))
    ensures caller.Some? && |OwnedKeys(s.apiKeys, caller.value)| >= MaxKeys ==> r == Err(Raised(TooManyKeys))
    ensures caller.Some? && |OwnedKeys(s.apiKeys, caller.value)| < MaxKeys && |KeysNamed(s.apiKeys, name)| == 1
      ==> r == Err(Raised(ApiKeyDuplicateName))
    ensures r.Ok? <==>
      caller.Some? && |OwnedKeys(s.apiKeys, caller.value)| < MaxKeys && |KeysNamed(s.apiKeys, name)| != 1
    // success adds exactly one key, owned by the caller, with the requested name
    ensures r.Ok? ==>
      var (s', id) := r.value;
      && id !in s.apiKeys
      && s'.apiKeys.Keys == s.apiKeys.Keys + {id}
      && s'.apiKeys[id] == ApiKey(caller.value, name)
      && AgreeExcept(s.apiKeys, s'.apiKeys, id)
      && s'.communities == s.communities && s'.scorers == s.scorers
  {
    if caller.None? then Err(Raised(Unauthorized))
    else if |OwnedKeys(s.apiKeys, caller.value)| >= MaxKeys then Err(Raised(TooManyKeys))
    else if |KeysNamed(s.apiKeys, name)| == 1 then Err(Raised(ApiKeyDuplicateName))
    else
      var id := NewKeyId(s);
      Ok((s.(apiKeys := s.apiKeys[id := ApiKey(caller.value, name)], nextKeyId := id + 1), id))
  }

  /** The keys the listing endpoint returns: those of the caller and no others. */
  function GetKeys(s: Store, caller: Option<AccountId>): (r: Result<map<RecordId, ApiKey>>)
    ensures r.Err? <==> caller.None?
    ensures r.Err? ==> r.failure == Raised(Unauthorized)
    ensures r.Ok? ==> r.value.Keys == OwnedKeys(s.apiKeys, caller.value)
    ensures r.Ok? ==> forall id :: id in r.value ==> id in s.apiKeys && r.value[id] == s.apiKeys[id]
  {
    if caller.None? then Err(Raised(Unauthorized))
    else Ok(OwnedKeyRows(s.apiKeys, caller.value))
  }

  function OwnedKeyRows(m: map<RecordId, ApiKey>, a: AccountId): map<RecordId, ApiKey> {
    map id | id in m && m[id].owner == a :: m[id]
  }

  /** Two tables whose keys owned by a coincide give a the same listing. */
  lemma OwnedKeyRowsAgree(m: map<RecordId, ApiKey>, m': map<RecordId, ApiKey>, a: AccountId)
    requires forall id :: id in m && m[id].owner == a ==> id in m' && m'[id] == m[id]
    requires forall id :: id in m' && m'[id].owner == a ==> id in m && m[id] == m'[id]
    ensures OwnedKeyRows(m, a) == OwnedKeyRows(m', a)
  {
  }

  function DeleteKey(s: Store, caller: Option<AccountId>, id: RecordId): (r: Result<Store>)
    ensures caller.None? ==> r == Err(Raised(Unauthorized))
    ensures caller.Some? ==> (r.Ok? <==> id in s.apiKeys && s.apiKeys[id].owner == caller.value)
    ensures caller.Some? && r.Err? ==> r.failure == NotFound
    // success removes exactly the targeted key
    ensures r.Ok? ==>
      && r.value.apiKeys.Keys == s.apiKeys.Keys - {id}
      && AgreeExcept(s.apiKeys, r.value.apiKeys, id)
      && r.value.communities == s.communities && r.value.scorers == s.scorers
  {
    if caller.None? then Err(Raised(Unauthorized))
    else if !(id in s.apiKeys && s.apiKeys[id].owner == caller.value) then Err(NotFound)
    else Ok(s.(apiKeys := s.apiKeys - {id}))
  }

  /** Once the caller owns five keys every key creation by them fails, whatever the name. */
  lemma CreateKeyAtLimitFails(s: Store, a: AccountId, name: string)
    requires |OwnedKeys(s.apiKeys, a)| >= MaxKeys
    ensures CreateKey(s, Some(a), name) == Err(Raised(TooManyKeys))
  {
  }

  /** Below the limit, a name no key uses is accepted and the caller owns one key more. */
  lemma CreateKeyBelowLimitSucceeds(s: Store, a: AccountId, name: string)
    requires |OwnedKeys(s.apiKeys, a)| < MaxKeys
    requires forall id :: id in s.apiKeys ==> s.apiKeys[id].name != name
    ensures CreateKey(s, Some(a), name).Ok?
    ensures |OwnedKeys(CreateKey(s, Some(a), name).value.0.apiKeys, a)| == |OwnedKeys(s.apiKeys, a)| + 1
  {
    assert KeysNamed(s.apiKeys, name) == {};
    OwnedKeysAfterInsert(s.apiKeys, NewKeyId(s), ApiKey(a, name), a);
  }

  /** Deleting the key a creation just added gives back the key table it started from. */
  lemma CreateThenDeleteKeyRestores(s: Store, a: AccountId, name: string)
    requires CreateKey(s, Some(a), name).Ok?
    ensures var (s', id) := CreateKey(s, Some(a), name).value;
      && DeleteKey(s', Some(a), id).Ok?
      && DeleteKey(s', Some(a), id).value.apiKeys == s.apiKeys
  {
  }

  /** A successful creation shows the new key, under its name, in its caller's listing; the rest of the listing stays. */
  lemma CreateKeyThenGetKeys(s: Store, a: AccountId, name: string)
    requires CreateKey(s, Some(a), name).Ok?
    ensures var s' := CreateKey(s, Some(a), name).value.0;
      var id := CreateKey(s, Some(a), name).value.1;
      GetKeys(s', Some(a)).value == GetKeys(s, Some(a)).value[id := ApiKey(a, name)]
    ensures CreateKey(s, Some(a), name).value.1 !in GetKeys(s, Some(a)).value
  {
    var r := CreateKey(s, Some(a), name).value;
    var s', id := r.0, r.1;
    assert s'.apiKeys == s.apiKeys[id := ApiKey(a, name)];
    OwnedKeyRowsAfterInsert(s.apiKeys, id, ApiKey(a, name));
    assert GetKeys(s', Some(a)).value == OwnedKeyRows(s'.apiKeys, a);
    assert GetKeys(s, Some(a)).value == OwnedKeyRows(s.apiKeys, a);
  }

  /** Inserting a key owned by its owner adds exactly that row to the owner's listing. */
  lemma OwnedKeyRowsAfterInsert(m: map<RecordId, ApiKey>, id: RecordId, k: ApiKey)
    requires id !in m
    ensures OwnedKeyRows(m[id := k], k.owner) == OwnedKeyRows(m, k.owner)[id := k]
  {
  }

  /** Neither key creation nor key deletion by one account changes what another account lists. */
  lemma KeyChangesHiddenFromOthers(s: Store, a: AccountId, b: AccountId, name: string, id: RecordId)
    requires a != b
    ensures CreateKey(s, Some(a), name).Ok? ==> GetKeys(CreateKey(s, Some(a), name).value.0, Some(b)) == GetKeys(s, Some(b))
    ensures DeleteKey(s, Some(a), id).Ok? ==> GetKeys(DeleteKey(s, Some(a), id).value, Some(b)) == GetKeys(s, Some(b))
  {
    if CreateKey(s, Some(a), name).Ok? {
      OwnedKeyRowsAgree(s.apiKeys, CreateKey(s, Some(a), name).value.0.apiKeys, b);
    }
    if DeleteKey(s, Some(a), id).Ok? {
      OwnedKeyRowsAgree(s.apiKeys, DeleteKey(s, Some(a), id).value.apiKeys, b);
    }
  }
}
