/**
 * `CategorySuggester`: a category for a transaction description, taken from
 * the user's matching rules when one applies and otherwise asked of an AI
 * client. The client and the logarithm in the confidence formula are
 * parameters of the model.
 */
module CategorySuggester {
  import opened Wrappers
  import opened Text
  import opened TransactionRules
  import opened Categories

  datatype Source = FromLookup | FromAi

  datatype Suggestion = Suggestion(category: CategoryId, confidence: real, source: Source)

  /** What `suggest` returned, and what the AI client was asked (`None` when it was not called). */
  datatype Answer = Answer(suggestion: Option<Suggestion>, aiQuery: Option<AiQuery>)

  /** The normalised description and the categories available to the user. */
  datatype AiQuery = AiQuery(description: string, categories: set<CategoryId>)

  /** The AI client: a suggestion, or none, for a query. */
  type AiClient = AiQuery -> Option<Suggestion>

  /** `Math.log(1 + usage_count) / 5.0`. */
  type UsageBoost = int -> real

  const ConfidenceBase: real := 0.6
  const ConfidenceCap: real := 0.95

  /** `[0.6 + Math.log(1 + usage_count) / 5.0, 0.95].min`. */
  function Confidence(usageCount: int, boost: UsageBoost): (c: real)
    ensures c <= ConfidenceCap && c <= ConfidenceBase + boost(usageCount)
    ensures c == ConfidenceCap || c == ConfidenceBase + boost(usageCount)
  {
    if ConfidenceBase + boost(usageCount) < ConfidenceCap then ConfidenceBase + boost(usageCount) else ConfidenceCap
  }

  /** A more used rule is at least as confident whenever the boost grows with use. */
  lemma ConfidenceMonotone(a: int, b: int, boost: UsageBoost)
    requires boost(a) <= boost(b)
    ensures Confidence(a, boost) <= Confidence(b, boost)
  {
  }

  /**
   * `suggest_from_lookup`: the category of the lookup `suggest_for` picks,
   * with a confidence that grows with its usage count; nothing when there is
   * no such lookup or its category no longer exists.
   */
  function LookupSuggestion(lookups: map<LookupId, Lookup>, bound: nat, cs: map<CategoryId, Category>, user: UserId,
                            description: string, similarity: Similarity, boost: UsageBoost): (r: Option<Suggestion>)
    ensures r.None? <==> SuggestFor(lookups, bound, user, description, similarity).None?
                         || lookups[SuggestFor(lookups, bound, user, description, similarity).value].category !in cs
    ensures r.Some? ==>
              && r.value.source == FromLookup
              && r.value.category in cs
              && r.value.category == lookups[SuggestFor(lookups, bound, user, description, similarity).value].category
              && r.value.confidence <= ConfidenceCap
  {
    var found := SuggestFor(lookups, bound, user, description, similarity);
    if found.None? then None
    else
      var l := lookups[found.value];
      if l.category !in cs then None
      else Some(Suggestion(l.category, Confidence(l.usageCount, boost), FromLookup))
  }

  /**
   * `suggest`: the lookup's suggestion when there is one; otherwise nothing
   * for a blank description, and the AI client's answer for the normalised
   * description and the user's categories for any other.
   */
  function Suggest(lookups: map<LookupId, Lookup>, bound: nat, cs: map<CategoryId, Category>, user: UserId,
                   description: string, similarity: Similarity, boost: UsageBoost, ai: AiClient): (a: Answer)
    ensures a.aiQuery.Some? <==>
              LookupSuggestion(lookups, bound, cs, user, description, similarity, boost).None? && !Blank(description)
    ensures a.aiQuery.Some? ==>
              a.aiQuery.value == AiQuery(Normalize(description), ForUser(cs, user)) && a.suggestion == ai(a.aiQuery.value)
    ensures a.aiQuery.None? ==> a.suggestion == LookupSuggestion(lookups, bound, cs, user, description, similarity, boost)
  {
    var fromLookup := LookupSuggestion(lookups, bound, cs, user, description, similarity, boost);
    if fromLookup.Some? then Answer(fromLookup, None)
    else
      var norm := Normalize(description);
      if norm == [] then Answer(None, None)
      else
        var query := AiQuery(norm, ForUser(cs, user));
        Answer(ai(query), Some(query))
  }

  /** The user's rule for exactly this description answers, and the AI client is not consulted. */
  lemma ExactRuleAnswers(lookups: map<LookupId, Lookup>, bound: nat, cs: map<CategoryId, Category>, user: UserId,
                         description: string, similarity: Similarity, boost: UsageBoost, ai: AiClient, id: LookupId)
    requires LookupsUnique(lookups) && !Blank(description)
    requires id < bound && id in lookups && Exact(lookups[id], user, Normalize(description))
    requires lookups[id].category in cs
    ensures Suggest(lookups, bound, cs, user, description, similarity, boost, ai)
            == Answer(Some(Suggestion(lookups[id].category, Confidence(lookups[id].usageCount, boost), FromLookup)), None)
  {
    ExactBeforeFuzzy(lookups, bound, user, description, similarity, id);
  }

  /** A blank description gets no suggestion, and the AI client is not consulted. */
  lemma BlankGetsNothing(lookups: map<LookupId, Lookup>, bound: nat, cs: map<CategoryId, Category>, user: UserId,
                         description: string, similarity: Similarity, boost: UsageBoost, ai: AiClient)
    requires Blank(description)
    ensures Suggest(lookups, bound, cs, user, description, similarity, boost, ai) == Answer(None, None)
  {
  }

  /** A rule whose category is gone does not answer: a present description goes to the AI client. */
  lemma DanglingRuleFallsThrough(lookups: map<LookupId, Lookup>, bound: nat, cs: map<CategoryId, Category>, user: UserId,
                                 description: string, similarity: Similarity, boost: UsageBoost, ai: AiClient, id: LookupId)
    requires !Blank(description)
    requires SuggestFor(lookups, bound, user, description, similarity) == Some(id) && lookups[id].category !in cs
    ensures Suggest(lookups, bound, cs, user, description, similarity, boost, ai)
            == Answer(ai(AiQuery(Normalize(description), ForUser(cs, user))), Some(AiQuery(Normalize(description), ForUser(cs, user))))
  {
  }
}
