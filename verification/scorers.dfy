/**
 The scorer-update endpoint of the account API: it replaces a community's
 scorer by a fresh one of the requested type, carrying the old weights
 over, and deletes the old scorer.
 */
module Scorers {
  import opened AccountModel

  /** The values of the scorer type enumeration. */
  const WeightedType: string := "WEIGHTED"
  const WeightedBinaryType: string := "WEIGHTED_BINARY"

  predicate IsScorerType(t: string) {
    t == WeightedType || t == WeightedBinaryType
  }

  /** The weights of a scorer row that has a weighted or binary weighted part. */
  function OldWeights(sc: Scorer): (w: Option<Weights>)
    ensures w.Some? <==> sc.cls != BaseScorer
    ensures w.Some? ==> w.value == sc.weights
  {
    match sc.cls
    case WeightedScorer => Some(sc.weights)
    case BinaryWeightedScorer => Some(sc.weights)
    case BaseScorer => None
  }

  /**
   The scorer that replaces `current` for the requested type: binary weighted for
   the binary type, weighted otherwise, with the weights of `current` when it has any
   and the defaults of a freshly made scorer when there are none.
   */
  function Replacement(current: Scorer, scorerType: string, defaultWeights: Weights): (sc: Scorer)
    ensures sc.scorerType == scorerType
    ensures sc.cls == BinaryWeightedScorer <==> scorerType == WeightedBinaryType
    ensures sc.cls != BaseScorer
    ensures current.cls != BaseScorer && current.weights != map[] ==> sc.weights == current.weights
    ensures current.cls == BaseScorer || current.weights == map[] ==> sc.weights == defaultWeights
  {
    var cls := if scorerType == WeightedBinaryType then BinaryWeightedScorer else WeightedScorer;
    var weights := match OldWeights(current)
      case Some(w) => if w != map[] then w else defaultWeights
      case None => defaultWeights;
    Scorer(cls, scorerType, weights)
  }

  /** The scorer row a community currently points at, when the link resolves. */
  predicate HasScorer(s: Store, id: RecordId) {
    id in s.communities && s.communities[id].scorer.Some? && s.communities[id].scorer.value in s.scorers
  }

  function UpdateScorers(s: Store, caller: Option<AccountId>, id: RecordId, scorerType: string, defaultWeights: Weights)
    : (r: Result<Store>)
    // a missing account is not caught by this endpoint
    ensures caller.None? ==> r == Err(Unhandled)
    ensures caller.Some? && !(id in s.communities && s.communities[id].owner == caller.value) ==> r == Err(NotFound)
    ensures caller.Some? && id in s.communities && s.communities[id].owner == caller.value && !HasScorer(s, id)
      ==> r == Err(Unhandled)
    ensures caller.Some? && id in s.communities && s.communities[id].owner == caller.value && HasScorer(s, id)
      && !IsScorerType(scorerType)
      ==> r == Err(Raised(ScorerTypeDoesNotExist))
    ensures r.Ok? <==>
      caller.Some? && id in s.communities && s.communities[id].owner == caller.value && HasScorer(s, id)
      && IsScorerType(scorerType)
    // success: the community points at a new scorer of the requested kind; the old one is gone
    ensures r.Ok? ==>
      var oldId := s.communities[id].scorer.value;
      var newId := NewScorerId(s);
      && r.value.communities.Keys == s.communities.Keys
      && r.value.communities[id] == s.communities[id].(scorer := Some(newId))
      && newId !in s.scorers
      && r.value.scorers.Keys == s.scorers.Keys - {oldId} + {newId}
      && r.value.scorers[newId] == Replacement(s.scorers[oldId], scorerType, defaultWeights)
      && r.value.scorers[newId].scorerType == scorerType
      && (r.value.scorers[newId].cls == BinaryWeightedScorer <==> scorerType == WeightedBinaryType)
      && (s.scorers[oldId].cls != BaseScorer && s.scorers[oldId].weights != map[]
          ==> r.value.scorers[newId].weights == s.scorers[oldId].weights)
      && (forall k :: k in s.scorers && k != oldId ==> r.value.scorers[k] == s.scorers[k])
      && AgreeExcept(s.communities, r.value.communities, id)
      && r.value.apiKeys == s.apiKeys
  {
    if caller.None? then Err(Unhandled)
    else if !(id in s.communities && s.communities[id].owner == caller.value) then Err(NotFound)
    else if !HasScorer(s, id) then Err(Unhandled)
    else if !IsScorerType(scorerType) then Err(Raised(ScorerTypeDoesNotExist))
    else
      var c := s.communities[id];
      var oldId := c.scorer.value;
      var newId := NewScorerId(s);
      var newScorer := Replacement(s.scorers[oldId], scorerType, defaultWeights);
      Ok(s.(scorers := s.scorers[newId := newScorer] - {oldId},
            nextScorerId := newId + 1,
            communities := s.communities[id := c.(scorer := Some(newId))]))
  }

  /** Setting the same type twice yields a scorer equal to the first, under a new id. */
  lemma UpdateScorersTwiceSameKind(s: Store, a: AccountId, id: RecordId, t: string, dw: Weights)
    requires UpdateScorers(s, Some(a), id, t, dw).Ok?
    ensures var s1 := UpdateScorers(s, Some(a), id, t, dw).value;
      && UpdateScorers(s1, Some(a), id, t, dw).Ok?
      && var s2 := UpdateScorers(s1, Some(a), id, t, dw).value;
         s2.scorers[s2.communities[id].scorer.value] == s1.scorers[s1.communities[id].scorer.value]
  {
  }
}
