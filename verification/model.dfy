/**
 The data of the account API: the records it keeps (communities, API keys,
 scorers), the exceptions it raises with their HTTP status codes, and the
 store the endpoints read and rewrite. The persistence layer is abstracted
 to one map per table plus the table's id sequence.
 */
module AccountModel {

  type AccountId = nat
  type RecordId = nat

  datatype Option<+T> = None | Some(value: T)

  /** The exception classes the API raises, each with its HTTP status. */
  datatype ApiException =
    | Unauthorized
    | ApiKeyDuplicateName
    | TooManyKeys
    | TooManyCommunities
    | CommunityExists
    | CommunityHasNoName
    | CommunityHasNoDescription
    | CommunityHasNoBody
    | SameCommunityName
    | SameCommunityDescription
    | ScorerTypeDoesNotExist
    | FailedVerification
    | InvalidDomain
    | InvalidNonce
  {
    /** Only Unauthorized is a 401; the three "missing input" classes are 422; all others are 400. */
    function StatusCode(): (code: int)
      ensures code == 401 <==> this == Unauthorized
      ensures code == 422 <==> this in {CommunityHasNoName, CommunityHasNoDescription, CommunityHasNoBody}
      ensures code == 400 <==> !(this in {Unauthorized, CommunityHasNoName, CommunityHasNoDescription, CommunityHasNoBody})
    {
      match this
      case Unauthorized => 401
      case CommunityHasNoName | CommunityHasNoDescription | CommunityHasNoBody => 422
      case _ => 400
    }
  }

  /**
   How an endpoint call fails: one of the API's own exceptions, the 404 of
   an ownership-scoped lookup, or an exception the endpoint does not catch
   (which the web framework turns into a 500).
   */
  datatype Failure = Raised(exception: ApiException) | NotFound | Unhandled {
    function StatusCode(): (code: int)
      ensures code == 404 <==> NotFound?
      ensures code == 500 <==> Unhandled?
      ensures Raised? ==> code == exception.StatusCode()
    {
      match this
      case Raised(e) => e.StatusCode()
      case NotFound => 404
      case Unhandled => 500
    }
  }

  datatype Result<+T> = Ok(value: T) | Err(failure: Failure)

  /** Scorer weights are only ever copied, never computed with. */
  type Weights = map<string, real>

  /**
   Which concrete scorer table backs a scorer row: a bare base row, a
   weighted scorer or a binary weighted scorer.
   */
  datatype ScorerClass = BaseScorer | WeightedScorer | BinaryWeightedScorer

  datatype Scorer = Scorer(cls: ScorerClass, scorerType: string, weights: Weights)

  datatype Community = Community(
    owner: AccountId,
    name: string,
    description: string,
    useCase: Option<string>,
    scorer: Option<RecordId>)

  datatype ApiKey = ApiKey(owner: AccountId, name: string)

  /** The persisted state: one table per record kind, each with its id sequence. */
  datatype Store = Store(
    communities: map<RecordId, Community>,
    nextCommunityId: nat,
    apiKeys: map<RecordId, ApiKey>,
    nextKeyId: nat,
    scorers: map<RecordId, Scorer>,
    nextScorerId: nat)

  const EmptyStore := Store(map[], 1, map[], 1, map[], 1)

  /**
   The id the database assigns to the next row of a table: the sequence
   value, or the first id above it that no row holds.
   */
  function FreshId<V>(m: map<RecordId, V>, from: nat): (id: RecordId)
    ensures id !in m
    ensures from <= id
    ensures forall k :: from <= k < id ==> k in m
    decreases |KeysFrom(m, from)|
  {
    if from !in m then from
    else
      assert KeysFrom(m, from + 1) == KeysFrom(m, from) - {from};
      FreshId(m, from + 1)
  }

  function KeysFrom<V>(m: map<RecordId, V>, from: nat): set<RecordId> {
    set k | k in m && from <= k
  }

  /** The id the next scorer row receives. */
  function NewScorerId(s: Store): (id: RecordId)
    ensures id !in s.scorers
  {
    FreshId(s.scorers, s.nextScorerId)
  }

  /** m' holds exactly the rows of m, except possibly the row with id k. */
  ghost predicate AgreeExcept<V>(m: map<RecordId, V>, m': map<RecordId, V>, k: RecordId) {
    forall j :: j != k ==> (j in m <==> j in m') && (j in m ==> m'[j] == m[j])
  }

  function OwnedCommunities(m: map<RecordId, Community>, a: AccountId): set<RecordId> {
    set id | id in m && m[id].owner == a
  }

  function CommunitiesNamed(m: map<RecordId, Community>, n: string): set<RecordId> {
    set id | id in m && m[id].name == n
  }

  function OwnedKeys(m: map<RecordId, ApiKey>, a: AccountId): set<RecordId> {
    set id | id in m && m[id].owner == a
  }

  function KeysNamed(m: map<RecordId, ApiKey>, n: string): set<RecordId> {
    set id | id in m && m[id].name == n
  }

  lemma OwnedCommunitiesAfterInsert(m: map<RecordId, Community>, id: RecordId, c: Community, a: AccountId)
    requires id !in m
    ensures |OwnedCommunities(m[id := c], a)| == |OwnedCommunities(m, a)| + (if c.owner == a then 1 else 0)
  {
    if c.owner == a {
      assert OwnedCommunities(m[id := c], a) == OwnedCommunities(m, a) + {id};
    } else {
      assert OwnedCommunities(m[id := c], a) == OwnedCommunities(m, a);
    }
  }

  lemma OwnedKeysAfterInsert(m: map<RecordId, ApiKey>, id: RecordId, k: ApiKey, a: AccountId)
    requires id !in m
    ensures |OwnedKeys(m[id := k], a)| == |OwnedKeys(m, a)| + (if k.owner == a then 1 else 0)
  {
    if k.owner == a {
      assert OwnedKeys(m[id := k], a) == OwnedKeys(m, a) + {id};
    } else {
      assert OwnedKeys(m[id := k], a) == OwnedKeys(m, a);
    }
  }
}
