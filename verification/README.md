# Account API of the passport scorer, modelled in Dafny

This project models the server-side account endpoints of the passport scorer
(`api/account/api.py`). Accounts own *communities* (a name, a description, an
optional use case and a link to a *scorer*) and *API keys* (a name). Each
endpoint is a guarded operation on the persisted tables. It checks its
preconditions in a fixed order and either raises the first failure that
applies or writes a new state.

The model drops the ORM. The store (`AccountModel.Store`) is one map per table,
from row id to record, plus each table's id sequence. Every endpoint is a pure
function from the store, the calling account and the request payload to a
`Result`. `Err` carries the failure and no store, so a failed call never
changes anything. `Ok` carries the new store.

- `AccountModel`: records, the exception classes with their HTTP status codes,
  the store, and fresh row ids.
- `Communities`: `create_community`, `get_communities`, `update_community` and
  `delete_community`, with lemmas about the limit, listings and round trips.
- `ApiKeys`: `create_api_key`, `get_api_keys` and `delete_api_key`.
- `Scorers`: `update_community_scorers`.
- `StoreInvariant`: the invariant every endpoint preserves. Community and key
  names are unique, every community has a name and a description, no account
  owns more than five communities or five keys, and scorer links resolve. It
  also proves that the invariant holds in every store reachable from the empty
  one, and gives a replay of the "five creates, then a sixth" scenario.

The caller is an `Option<AccountId>`. `None` stands for a request whose user
has no account, where `request.user.account` raises. The endpoints turn that
into `Unauthorized` (401). `update_community_scorers` catches only
`Community.DoesNotExist`, so for that endpoint a missing account is an
unhandled exception (500). A failed ownership-scoped lookup
(`get_object_or_404` with `account=`) is `NotFound` (404).

The React panel (`interface/components/CommunityList.tsx:52-55`) sends only
`{name, description}`. The endpoints also take `use_case`, which update
overwrites, with `None` when the request leaves it out; the model follows the
endpoints.

Every community the data layer creates gets a scorer row of its own. Its class,
type and weights are defined outside `api/account/api.py`, so create takes
that row as a parameter.

## Model

| member | source | states |
|---|---|---|
| `AccountModel.ApiException.StatusCode` | api/account/api.py:56-123 | Unauthorized is the only 401. The no-name, no-description and no-body exceptions are the 422s. Every other exception class is a 400. |
| `AccountModel.Failure.StatusCode` | api/account/api.py:380-435 | An ownership-scoped lookup that fails is a 404. An exception the endpoint does not catch is a 500. A raised API exception keeps its own status. |
| `AccountModel.FreshId` | api/account/api.py:274-279 | A new row gets an id that no row of the table holds. It is the first such id at or after the table's sequence value. |
| `Communities.Create` | api/account/api.py:255-284 | The checks run in this order: account, body, caller already owns ≥ 5, exactly one community anywhere has the name, empty name, empty description. Each failing check gives its exception. Create succeeds iff none of these apply. On success, exactly one community is added under a fresh id. It is owned by the caller, holds the payload's name, description and use case, and links to a new scorer row holding the given default scorer. Every other row and the key table are unchanged. |
| `Communities.Get` | api/account/api.py:287-295 | Returns exactly the communities whose owner is the caller, with their stored contents. Unauthorized when there is no account. |
| `Communities.Update` | api/account/api.py:302-333 | The checks run in this order: account, then 404 unless the caller owns the community, then empty name, empty description, the current name again, and a name held by exactly one community. Update succeeds iff none of these apply. On success, only that community's name, description and use case change. Its owner and scorer, the set of ids and all other rows stay the same. |
| `Communities.Delete` | api/account/api.py:336-345 | Succeeds iff the caller owns the community. It then removes that row and no other. Otherwise it is 404 and nothing is removed. |
| `Communities.CreateAddsRow` | api/account/api.py:274-279 | The community table after a successful create is the old table plus the one new row, linked to the new scorer row. |
| `Communities.CreateBelowLimitSucceeds` | api/account/api.py:262-279 | With fewer than five owned communities, a name no community uses, and a non-empty name and description, create succeeds. The caller's count and the table size each grow by one. |
| `Communities.CreateAtLimitFails` | api/account/api.py:262-263 | Once the caller owns five communities, create fails with TooManyCommunities whatever the payload. |
| `Communities.CreateThenGet` | api/account/api.py:255-295 | After a successful create, the caller's listing is the old listing plus the new id, which carries the requested name. |
| `Communities.CreateHiddenFromOthers` | api/account/api.py:287-295 | A create by one account leaves every other account's listing unchanged. |
| `Communities.CreateThenDeleteRestores` | api/account/api.py:336-342 | Deleting the community that a create just added succeeds and gives back the original community table. |
| `Communities.UpdateIgnoresLimit` | api/account/api.py:302-329 | A rename to a filled, unused name of a community the caller owns succeeds, whatever number of communities the caller owns. It leaves the number of rows unchanged. |
| `Communities.OtherAccountsUnaffected` | api/account/api.py:302-345 | An update or delete by one account does not change what any other account lists. |
| `ApiKeys.CreateKey` | api/account/api.py:198-219 | The checks run in this order: account, caller already owns ≥ 5 keys, exactly one key anywhere has the name. Create succeeds iff all three pass. It then adds one key under a fresh id, owned by the caller and carrying the name. The id is returned and nothing else changes. |
| `ApiKeys.GetKeys` | api/account/api.py:222-230 | Returns exactly the caller's keys. Unauthorized when there is no account. |
| `ApiKeys.DeleteKey` | api/account/api.py:233-242 | Succeeds iff the caller owns the key. It then removes that key only. Otherwise it is 404. |
| `ApiKeys.CreateKeyAtLimitFails` | api/account/api.py:202-203 | Once the caller owns five keys, key creation fails with TooManyKeys whatever the name. |
| `ApiKeys.CreateKeyBelowLimitSucceeds` | api/account/api.py:202-210 | Below the limit, a name no key uses is accepted and the caller owns one more key. |
| `ApiKeys.CreateKeyThenGetKeys` | api/account/api.py:198-230 | After a successful key creation, the caller's listing is the old listing plus the returned id, which was not listed before and maps to a key of the caller with the requested name. |
| `ApiKeys.KeyChangesHiddenFromOthers` | api/account/api.py:198-242 | A key creation or deletion by one account leaves every other account's key listing unchanged. |
| `ApiKeys.CreateThenDeleteKeyRestores` | api/account/api.py:198-242 | Deleting a key that was just created succeeds and gives back the original key table. |
| `Scorers.OldWeights` | api/account/api.py:396-403 | A scorer has weights to carry over exactly when it has a weighted or binary weighted part. Those weights are its own. |
| `Scorers.Replacement` | api/account/api.py:405-415 | The new scorer is binary weighted iff the type is WEIGHTED_BINARY, and weighted otherwise. It records the requested type. It keeps the old weights when they exist and are non-empty, and has the fresh defaults otherwise. |
| `Scorers.UpdateScorers` | api/account/api.py:380-435 | A missing account is a 500. A community the caller does not own is a 404. A community without a resolvable scorer is a 500. An unknown type is ScorerTypeDoesNotExist. The call succeeds iff none of these apply. The community then points at a new scorer row, which is exactly the replacement of its old scorer for the requested type. The old scorer row is gone. Every other scorer, community and key is unchanged. |
| `Scorers.UpdateScorersTwiceSameKind` | api/account/api.py:396-415 | Setting the same scorer type twice in a row succeeds again and produces a scorer equal to the first one (same class, type and weights). |
| `StoreInvariant.NameCountUnderUniqueness` | api/account/api.py:265-266 | When community names are unique, "exactly one community has this name" holds iff some community has it. |
| `StoreInvariant.KeyNameCountUnderUniqueness` | api/account/api.py:205-206 | When key names are unique, "exactly one key has this name" holds iff some key has it. |
| `StoreInvariant.CreatePreservesValid` | api/account/api.py:262-279 | A successful community create keeps the store invariant. |
| `StoreInvariant.UpdatePreservesValid` | api/account/api.py:314-329 | A successful community update keeps the store invariant. |
| `StoreInvariant.DeletePreservesValid` | api/account/api.py:339-342 | A successful community delete keeps the store invariant. |
| `StoreInvariant.CreateKeyPreservesValid` | api/account/api.py:202-210 | A successful key creation keeps the store invariant. |
| `StoreInvariant.DeleteKeyPreservesValid` | api/account/api.py:236-239 | A successful key deletion keeps the store invariant. |
| `StoreInvariant.UpdateScorersPreservesValid` | api/account/api.py:405-431 | A successful scorer update keeps the store invariant, including that every scorer link resolves to a scorer row of its own. |
| `StoreInvariant.DuplicateNameRejectedAcrossAccounts` | api/account/api.py:265-266 | In a valid store, if a community of any account holds the name and the caller is under the limit, create fails with CommunityExists. This check comes before the empty-name and empty-description checks. |
| `StoreInvariant.TwoDuplicatesLetAThirdThrough` | api/account/api.py:265-266 | The test compares a count with one. A table that already holds two communities with a name accepts a third one. |
| `StoreInvariant.CreateThenUpdateScorersSucceeds` | api/account/api.py:380-431 | Right after a successful create, its caller can set the new community's scorer to either type. The community then points at the replacement of the default scorer. |
| `StoreInvariant.UpdateRoundTrip` | api/account/api.py:314-329 | In a valid store, after a successful update, updating back to the old name, description and use case succeeds. It restores the store exactly. |
| `StoreInvariant.CreateAllKeepsValid` | api/account/api.py:262-263 | Any sequence of creates by one account keeps the invariant, whose five-community limit the account therefore never exceeds. |
| `StoreInvariant.CreateAllUpToLimit` | api/account/api.py:262-279 | Creates with filled, fresh, pairwise distinct names all succeed while the total stays within five. Each one adds one row for the caller. |
| `StoreInvariant.FiveCreatesThenSixthFails` | api/account/test/test_community.py:116-141 | An account that owns nothing makes five good creates and then a sixth. The sixth fails with TooManyCommunities and the table holds exactly five more rows. |
| `StoreInvariant.HandlePreservesValid` | api/account/api.py:198-435 | Every successful state-changing endpoint call keeps the store invariant. |
| `StoreInvariant.ServeKeepsValid` | api/account/api.py:198-435 | Any sequence of endpoint calls, successful or failing, keeps the store invariant. |
| `StoreInvariant.ReachableDuplicateCheckIsExact` | api/account/api.py:265-266 | In every store reachable from the empty one, at most one community has any name. So the create check "exactly one has this name" rejects precisely the names in use. |

## Notes

- Duplicate-name tests. Both duplicate tests (`count() == 1` for community
  names, and the same for key names) reject a name only when exactly one row
  holds it. `StoreInvariant.TwoDuplicatesLetAThirdThrough` shows that a table
  already holding two communities with a name would accept a third one.
  `StoreInvariant.ReachableDuplicateCheckIsExact` shows that, starting from an
  empty store and using only these endpoints, no such table can be built. So
  the `== 1` test behaves as "name in use" there. Rows written directly to the
  database bypass the endpoints and can break this.
- Check order. Update checks for the current name before it counts name
  holders. So the community being renamed never counts as a duplicate of
  itself.

## Left out

- Sign-in with Ethereum (`nonce`, `submit_signed_challenge`, `get_random_username`): signature checks, nonces, JWT issuance and randomness. Authentication appears only as "caller account present, or Unauthorized".
- JWT validation failures, which the framework answers with 401 before the endpoint runs. They coincide with the model's `Unauthorized` outcome.
- Request-schema validation by the web framework. A body missing `name` or `description` is answered with 422 before the endpoint runs. The model takes well-typed payloads. Only the endpoint's own `payload == None` check is modelled, as `CommunityHasNoBody`.
- Path parameters arrive as strings. Ids that are not numbers are not modelled; ids are `nat`.
- `AccountAPIKey.objects.create_key`: key generation, hashing, the prefix and the secret returned once to the caller. These are opaque library code. A key is modelled as owner plus name under a fresh id.
- The default scorer a community gets when it is created comes from `account/models.py`, which is not part of this model. Its class, type and weights are a parameter of create, which stores it under a fresh scorer id and links the new community to it.
- Scorer type values: `scorer_weighted/models.py` is not part of this model. The enumeration values are taken to be "WEIGHTED" and "WEIGHTED_BINARY", as the member names used in the code. The default weights of a freshly built scorer are a parameter. Other scorer fields, such as the threshold of the binary scorer, are not modelled.
- `get_community_scorers` and `health`: read-only or trivial endpoints outside the modelled core.
- `SameCommunityDescriptionException` is declared but never raised. It appears in the exception type only.
- Response serialisation (the `{"ok": True}` bodies and the schemas) and the exceptions' detail strings, which are data without a property to prove.
- Communities.Get: returns the rows as a map keyed by id. The order of the query result is not modelled, and neither is the field selection of the response schema (name, description, id).
- ApiKeys.GetKeys: returns the rows as a map keyed by id, without the query's order or the prefix field.
- Concurrency. The count-then-insert checks are not atomic in the source. Two concurrent creates could both pass the limit or duplicate test. The model is sequential.
- `api/account/admin.py` (admin page links), `api/account/deduplication/__init__.py` (a two-value enumeration) and `interface/components/CommunityList.tsx` (the React panel, whose five-community button gating is presentation only).
