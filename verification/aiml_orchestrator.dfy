/** The uAgents orchestrator's `handle_request`: the lower-cased query is checked
    for "risk" and for "yield" independently, and each check switches on a canned
    part of the single reply.  The request's `user_data` is never read, so it is
    not a parameter here. */
module AimlOrchestrator {
  import opened Text

  const AssessmentPrefix: string := "Assessment: "
  const NotRequested: string := "Not requested"
  const HighRisk: string := "High Risk - Portfolio is highly concentrated."

  /** One entry of the actionable plan's "yields" list. */
  datatype Suggestion = Suggestion(protocol: string, apr: real)

  const AaveSuggestion: Suggestion := Suggestion("Aave", 5.2)

  /** The OrchestratorResponse: the assessment that the response text reports,
      and the plan's "yields" list. */
  datatype Response = Response(assessment: string, suggestions: seq<Suggestion>) {
    /** The `response` field: `f"Assessment: {assessment}"`. */
    function Text(): (t: string)
      ensures IsPrefix(AssessmentPrefix, t) && t[|AssessmentPrefix|..] == assessment
    {
      var t := AssessmentPrefix + assessment;
      assert t[..|AssessmentPrefix|] == AssessmentPrefix;
      t
    }
  }

  predicate AsksRisk(query: string) {
    Contains(Lower(query), "risk")
  }

  predicate AsksYield(query: string) {
    Contains(Lower(query), "yield")
  }

  /** `handle_request`: the one reply sent back to the sender. */
  function HandleRequest(query: string): (r: Response)
    ensures r.assessment in {HighRisk, NotRequested}
    ensures r.suggestions == [] || r.suggestions == [AaveSuggestion]
  {
    var assessment := if AsksRisk(query) then HighRisk else NotRequested;
    var plan := if AsksYield(query) then [AaveSuggestion] else [];
    Response(assessment, plan)
  }

  /** The assessment is the high-risk text exactly when "risk" occurs somewhere in
      the query, in any letter case, and "Not requested" otherwise. */
  lemma RiskIff(query: string)
    ensures HandleRequest(query).assessment == HighRisk <==>
      exists i :: 0 <= i <= |query| && IsPrefix("risk", Lower(query)[i..])
    ensures HandleRequest(query).assessment == NotRequested <==>
      !exists i :: 0 <= i <= |query| && IsPrefix("risk", Lower(query)[i..])
  {
    ContainsIff(Lower(query), "risk");
  }

  /** The plan suggests Aave at 5.2 exactly when "yield" occurs somewhere in the
      query, in any letter case, and suggests nothing otherwise. */
  lemma YieldIff(query: string)
    ensures HandleRequest(query).suggestions == [AaveSuggestion] <==>
      exists i :: 0 <= i <= |query| && IsPrefix("yield", Lower(query)[i..])
    ensures HandleRequest(query).suggestions == [] <==>
      !exists i :: 0 <= i <= |query| && IsPrefix("yield", Lower(query)[i..])
  {
    ContainsIff(Lower(query), "yield");
  }

  /** The two checks are independent: the text depends only on the "risk" check and
      the plan only on the "yield" check. */
  lemma ChecksIndependent(q1: string, q2: string)
    ensures AsksRisk(q1) == AsksRisk(q2) ==> HandleRequest(q1).Text() == HandleRequest(q2).Text()
    ensures AsksYield(q1) == AsksYield(q2) ==> HandleRequest(q1).suggestions == HandleRequest(q2).suggestions
  {
  }

  /** Letter case never matters: a query and its lower-case form get the same reply. */
  lemma {:induction false} CaseInsensitive(query: string)
    ensures HandleRequest(Lower(query)) == HandleRequest(query)
  {
    LowerUnchanged(Lower(query));
  }

  /** The acceptance query, "Analyze my portfolio risk and find yield for PYUSD.",
      mentions both words, so the reply carries the high-risk text and the Aave
      suggestion together. */
  lemma AcceptanceQuery(query: string)
    requires query == "Analyze my portfolio " + "risk" + " and find " + "yield" + " for PYUSD."
    ensures HandleRequest(query).assessment == HighRisk
    ensures HandleRequest(query).suggestions == [AaveSuggestion]
  {
    var head := "Analyze my portfolio ";
    var middle := " and find ";
    var tail := " for PYUSD.";
    WordBetween(head, "risk", middle + "yield" + tail);
    WordBetween(head + "risk" + middle, "yield", tail);
    assert query == head + "risk" + (middle + "yield" + tail);
    WordAt(query, "risk", |head|);
    WordAt(query, "yield", |head + "risk" + middle|);
  }

  /** A word written between two texts sits right after the first. */
  lemma WordBetween(before: string, word: string, after: string)
    ensures (before + word + after)[|before|..|before| + |word|] == word
  {
  }

  /** A lower-case word written at position `i` of the query, in any case, is
      found by the lower-cased check. */
  lemma WordAt(query: string, word: string, i: nat)
    requires i + |word| <= |query| && query[i..i + |word|] == word
    requires forall j :: 0 <= j < |word| ==> !IsUpper(word[j])
    ensures Contains(Lower(query), word)
  {
    var low := Lower(query);
    assert low[i..i + |word|] == word by {
      assert forall j :: 0 <= j < |word| ==> low[i + j] == LowerChar(query[i + j]) == word[j];
    }
    assert low[i..][..|word|] == low[i..i + |word|];
    ContainsAt(low, word, i);
  }

  /** A query too short to hold either word is answered with neither part. */
  lemma ShortQueryAsksNothing(query: string)
    requires |query| < 4
    ensures HandleRequest(query) == Response(NotRequested, [])
  {
    ContainsNeedsRoom(Lower(query), "risk");
    ContainsNeedsRoom(Lower(query), "yield");
  }
}
