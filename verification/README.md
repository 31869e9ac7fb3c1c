# NeuraDEX agent core in Dafny

This project models the decision logic of the NeuraDEX multi-agent DeFi assistant:

- the rule engine `MettaShim.assess_portfolio`. It turns a portfolio summary and a rule table into a risk level (LOW, MEDIUM or HIGH) and an ordered evidence trail.
- the four message-passing agents:
  - the risk agent answers RISK_ASSESS and CHAT_QUERY with the engine's verdict;
  - the yield agent scores, sorts and truncates market listings;
  - the coordinator routes a CHAT by keyword and composes one CHAT_REPLY;
  - the execution agent guards a proposal. It fails closed on the risk agent and fails open on the yield agent, with a bounded collector of twenty receives for each. Only then does it call the backend.
- the three `aiml/` uAgents variants:
  - the MeTTa-backed risk score, with the MeTTa interpreter as an oracle parameter;
  - the token and pool matching of `get_yields`;
  - the simulated orchestrator, whose "risk" and "yield" checks are independent.

Everything is pure functions over immutable datatypes.

A handler is a function from its inbound message and the bus's delivery sequence to a trace. The delivery sequence is `inbox: seq<Option<Msg>>`, where `None` is a receive that timed out. The trace holds sends, receive attempts and backend calls.

- Each receive consumes one element of `inbox`. Once `inbox` is used up, every further receive times out (`Collector.Stream`).
- The trace is read through views (`Bus.Project`): the replies to an address, the evaluator requests, the receive attempts and the backend calls.
- Python dictionaries with optional keys become datatypes with `Option` fields, where `None` means the key is absent. `.get(k, default)` becomes `GetOr(default)`.
- Metrics are `real`. Rendering a float in an f-string is the parameter `showReal: real -> string`.

Files:

- `wrappers.dfy`, `text.dfy`: shared helpers.
- `metta_shim.dfy`: the rule engine.
- `yield_ranking.dfy`: scoring and the stable sort.
- `bus.dfy`: messages, traces and views.
- `collector.dfy`: the bounded receive loop.
- `risk_agent.dfy`, `yield_agent.dfy`, `coordinator.dfy`, `execution_gate.dfy`: the agents.
- `aiml_risk.dfy`, `aiml_yield.dfy`, `aiml_orchestrator.dfy`: the uAgents variants.

## Model

| member | source | states |
|---|---|---|
| MettaShim.Fires | metta_engine/metta_shim.py:44-54 | A rule matches a holding exactly when one of three tests holds, each with a strict comparison and defaults fraction 0, volatility 0, liquidity 1.0: (gt, volatility), (lt, liquidity_ratio) or (gt, holding_fraction). Any other type/field pair never matches. |
| MettaShim.Bump | metta_engine/metta_shim.py:57-63 | One priority update is the maximum of the current level and the requested one. It never lowers the level. An effect whose risk is LOW, absent or unrecognised leaves it unchanged, and a MEDIUM match never lowers a HIGH. |
| MettaShim.ApplyRules | metta_engine/metta_shim.py:44-63 | The inner loop appends one evidence line per matching rule, in rule order. Its level is the maximum of the incoming level and the highest level any matching rule requests. |
| MettaShim.ApplyHoldings | metta_engine/metta_shim.py:39-63 | The outer loop's evidence is every matching (holding, rule) pair, holding-major. Its level is the highest requested level over all pairs. |
| Bus.ReportOf | metta_engine/metta_shim.py:71-75 | The returned dictionary has exactly the keys `portfolio_risk`, `evidence` and `raw`, all present and holding the verdict's level name, evidence and echoed input. So it is never empty. |
| Bus.TagNamed | agents/risk_agent.py:34-55 | A `type` string selects a tag only when it is exactly that tag's wire name. Any other string selects none and falls to the unknown-type branch. |
| Bus.WireNameRoundTrip | agents/risk_agent.py:34-55 | Every tag's wire name selects that tag back, so the wire names are pairwise distinct. |
| MettaShim.Assess | metta_engine/metta_shim.py:31-75 | The evidence is the pair lines followed by one aggregate line exactly when aggregate volatility exceeds 0.18. The level is HIGH under that override and otherwise the highest requested. The input is echoed as `raw`. |
| MettaShim.LevelHighIff | metta_engine/metta_shim.py:57-70 | The level is HIGH iff some matching rule has effect risk HIGH or aggregate volatility exceeds 0.18. |
| MettaShim.LevelMediumIff | metta_engine/metta_shim.py:57-70 | The level is MEDIUM iff there is no cause for HIGH and some matching rule has effect risk MEDIUM. |
| MettaShim.LevelLowIff | metta_engine/metta_shim.py:57-70 | The level is LOW iff no matching rule asks for HIGH or MEDIUM and there is no aggregate override. |
| MettaShim.EmptyHoldingsAreLow | metta_engine/metta_shim.py:37-38 | No holdings and no aggregate override give LOW with empty evidence, whatever the rules. |
| MettaShim.AggregateOverride | metta_engine/metta_shim.py:65-70 | Aggregate volatility above 0.18 forces HIGH, and its line is the last piece of evidence. |
| MettaShim.HitLinesMembership | metta_engine/metta_shim.py:39-58 | A line is in the pair evidence iff some holding and some rule match and the line is `symbol -> explanation` for them. |
| MettaShim.HitLinesHoldingMajor | metta_engine/metta_shim.py:39-58 | The evidence of `hs1 + hs2` is that of `hs1` followed by that of `hs2`. |
| MettaShim.DuplicatesKept | metta_engine/metta_shim.py:54-58 | Two identical matching rules produce two identical lines: nothing is deduplicated. |
| MettaShim.ShibScenario | metta_engine/metta_shim.py:44-63 | SHIB with volatility 0.9 against a (gt, volatility, 0.5, HIGH) rule gives HIGH with the single line `SHIB -> volatility above 0.5`. |
| YieldRanking.Score | agents/yield_agent.py:31-33 | The score is `apy * (1 - risk_score)` with absent keys read as 0. A risk score of 1 or more makes it 0, and a non-negative apy gives a non-negative score. |
| YieldRanking.WithScore | agents/yield_agent.py:33-34 | The scored listing has `score` set to the computed score. Its protocol, apy, risk score and every other key are copied unchanged. |
| YieldRanking.ScoreAll | agents/yield_agent.py:30-34 | Every input listing appears once, in input order, with only its `score` key set. |
| YieldRanking.Sort | agents/yield_agent.py:35 | The sort returns a permutation of its input in non-increasing key order. For every key value, the entries with that key keep their input order (stability). |
| YieldRanking.Rank | agents/yield_agent.py:29-36 | The result is the first `min(5, n)` entries of the sorted scored market, in non-increasing score order, and is a sub-multiset of the scored input. |
| YieldRanking.RankEntriesAreScoredInputs | agents/yield_agent.py:34-36 | Each ranked entry is some input listing with only its score added. |
| YieldRanking.RankStable | agents/yield_agent.py:35-36 | For each score value, the kept entries with that score are a prefix of the input's entries with that score, in input order. |
| YieldRanking.RankDropsOnlyLower | agents/yield_agent.py:35-36 | Every entry that truncation drops scores no higher than every kept entry. |
| YieldRanking.TieKeepsInputOrder | agents/yield_agent.py:35 | Two listings with equal scores come out in input order. |
| YieldAgent.Handle | agents/yield_agent.py:21-38 | Exactly one send, back to the sender. YIELD_QUERY gets YIELD_RESULT with the ranked market, where an absent market is the empty list. Any other type gets the unknown-type error. |
| YieldAgent.YieldResultShape | agents/yield_agent.py:26-36 | The YIELD_RESULT lists `min(5, \|market\|)` entries in non-increasing score order, and an absent or empty market gives an empty list. |
| RiskAgent.ChatText | agents/risk_agent.py:52 | The CHAT_QUERY text is "Portfolio risk: " and the level, then ". See evidence: " and the evidence list's repr. |
| RiskAgent.Handle | agents/risk_agent.py:30-55 | Exactly one send, back to the sender. RISK_ASSESS without a portfolio, or with an empty one, is refused with "missing portfolio". Otherwise it gets RISK_RESULT carrying the engine's result unchanged. CHAT_QUERY gets a CHAT_REPLY whose text starts with "Portfolio risk: LEVEL" and whose meta is the result. Any other type gets the unknown-type error. |
| RiskAgent.RiskResultHighIff | agents/risk_agent.py:35-47 | For a non-empty portfolio the RISK_RESULT level is "HIGH" iff a matching rule asks for HIGH or aggregate volatility exceeds 0.18, and every matching pair's line is in the evidence. |
| RiskAgent.ChatQueryDefaultsToEmpty | agents/risk_agent.py:48-53 | A CHAT_QUERY without a portfolio is assessed as `{}`: level LOW, no evidence. |
| Collector.Await | agents/execution_agent.py:45-51 | The collector makes at most `attempts` receives and stops at the first message of the wanted type. With no match it makes exactly `attempts` receives, and none of them matched. It leaves the rest of the bus for the next phase. |
| Collector.AwaitFindsFirstMatch | agents/execution_agent.py:47-50 | The collector returns a message iff one of the wanted type is among the first `n` receives. It is then the first such message, found after exactly `k + 1` receives. |
| Collector.AwaitFoundIff | agents/execution_agent.py:47-51 | The collector finds something iff some receive among the first `n` has the wanted type. |
| Coordinator.Handle | agents/coordinator_agent.py:21-60 | Corrected handler. A non-CHAT gets the unknown-type error. A CHAT gets exactly one evaluator request, one receive and then one CHAT_REPLY to the sender. |
| Coordinator.ExactlyOneReply | agents/coordinator_agent.py:21-60 | Every message gets exactly one reply, and it is the last event. A CHAT makes exactly one receive attempt and one evaluator request, and a non-CHAT makes no request. |
| Coordinator.RiskTakesPrecedence | agents/coordinator_agent.py:28-33 | "risk" in the lower-cased text sends only RISK_ASSESS with the CHAT's portfolio (empty when absent), even when "yield" also appears. |
| Coordinator.YieldWithoutRisk | agents/coordinator_agent.py:42-43 | Without "risk" but with "yield", only YIELD_QUERY is sent, with the CHAT's market (empty when absent). |
| Coordinator.FallbackAsksRisk | agents/coordinator_agent.py:51-53 | With neither keyword, the risk agent is asked as the fallback. |
| Coordinator.TimeoutTexts | agents/coordinator_agent.py:35-60 | A received message counts only if it has the type the branch expects. Otherwise the branch's fixed text is sent without meta, and meta is absent exactly in that case. |
| Coordinator.RiskAnswerForwarded | agents/coordinator_agent.py:36-39 | A RISK_RESULT is forwarded as meta. The reply text is exactly "Portfolio risk: ", then the level, then ". Evidence: ", then the evidence list's repr ("None" when absent), so it starts with the level. |
| Coordinator.FallbackAnswerForwarded | agents/coordinator_agent.py:51-58 | With neither keyword, a RISK_RESULT is still forwarded as meta. The text is exactly "I couldn't parse your intent exactly. Best guess: Portfolio risk is " followed by the level. |
| Coordinator.YieldReplyListsTopThree | agents/coordinator_agent.py:45-48 | The yield reply lists the first `min(3, n)` ranked entries in order, while meta carries the whole ranked list. |
| Coordinator.WhatIsMyRisk | agents/coordinator_agent.py:28-33 | "what is my risk" without a portfolio sends RISK_ASSESS for `{}` and nothing else. |
| Coordinator.HandleAsWritten | agents/coordinator_agent.py:44-48 | As written: the same trace as the corrected handler, except that the reply is missing when a shown ranked entry lacks `protocol` or `apy`. |
| Coordinator.EntryTextsAsWritten | agents/coordinator_agent.py:47 | Rendering fails iff some entry lacks `protocol` or `apy`. Otherwise it equals the corrected rendering. |
| Coordinator.AsWrittenCanDropReply | agents/coordinator_agent.py:47 | For a ranked entry without `apy`, the original trace has no reply to the user, while the corrected handler replies once. |
| Coordinator.AbortSendsNoReply | agents/coordinator_agent.py:44-48 | Whenever the original raises while rendering the yield reply, the sender gets no reply at all. |
| Coordinator.AsWrittenAgreesWhenEntriesComplete | agents/coordinator_agent.py:44-48 | When every shown entry has `protocol` and `apy`, the original's trace is the corrected one. |
| ExecutionGate.GateOf | agents/execution_agent.py:53-59 | The collected verdict clears the proposal iff it is a non-empty RISK_RESULT whose level is not HIGH. It refuses as too risky iff the level is HIGH. |
| ExecutionGate.Handle | agents/execution_agent.py:29-83 | A non-EXECUTE_PROPOSAL gets the unknown-type error. Otherwise the first event is RISK_ASSESS with the proposal's portfolio, and the last is a reply to the sender. |
| ExecutionGate.ExactlyOneReply | agents/execution_agent.py:29-83 | Every message gets exactly one reply, and it is the last event. |
| ExecutionGate.Views | agents/execution_agent.py:39-83 | YIELD_QUERY, the yield wait and the one backend call with the proposal and reason happen exactly when the risk phase clears the proposal. The risk query and the risk wait always happen. |
| ExecutionGate.ClearedIff | agents/execution_agent.py:45-59 | The risk phase clears iff the first RISK_RESULT among the first twenty receives is non-empty and not HIGH. |
| ExecutionGate.BackendCalledIffSafe | agents/execution_agent.py:53-83 | The backend is called at most once. It is called iff the first RISK_RESULT within twenty receives is non-empty and not HIGH. |
| ExecutionGate.RiskWaitKeepsFirst | agents/execution_agent.py:47-50 | The verdict kept is the first RISK_RESULT within twenty receives; later ones are ignored. |
| ExecutionGate.HighVerdictRejects | agents/execution_agent.py:57-59 | A HIGH first verdict gets EXEC_REJECTED with "RISK_HIGH" and the verdict's evidence. Only the risk agent is contacted, and the backend is not called. |
| ExecutionGate.NoVerdictTimesOut | agents/execution_agent.py:47-56 | With no RISK_RESULT within twenty receives the sender gets "risk agent timeout", after exactly twenty receive attempts, and the backend is not called. |
| ExecutionGate.EmptyVerdictTimesOut | agents/execution_agent.py:53-56 | An empty RISK_RESULT payload counts as no verdict: the sender gets "risk agent timeout" and there is no backend call. |
| ExecutionGate.YieldFoundIff | agents/execution_agent.py:65-72 | The yield phase finds a YIELD_RESULT iff one arrives within the twenty receives that follow the risk phase's receives. |
| ExecutionGate.YieldReasonIff | agents/execution_agent.py:61-83 | Fail open: once cleared, the backend is called exactly once, with the proposal. The reason is "ok" iff a YIELD_RESULT arrives within twenty receives after the verdict, and "no_yield_info" otherwise. The sender then gets EXEC_ACCEPTED with the backend's response. |
| ExecutionGate.RefusalIsLast | agents/execution_agent.py:53-59 | A proposal the risk phase did not clear ends with the refusal for its gate. |
| ExecutionGate.AcceptIsLast | agents/execution_agent.py:80-83 | A cleared proposal ends with EXEC_ACCEPTED carrying the backend's response. |
| ExecutionGate.BackendAfterVerdict | agents/execution_agent.py:53-83 | A backend call is the second-to-last event, and a received RISK_RESULT with a safe report precedes it. |
| AimlRisk.Query | aiml/agents/risk_agent/src/main.py:64-70 | The MeTTa query for an asset is "!(volatility-of ", then the symbol (`None` when absent), then ")". |
| AimlRisk.ScanAssets | aiml/agents/risk_agent/src/main.py:63-75 | The loop fails iff some asset's MeTTa result has an empty first list. Otherwise it records one trace entry per asset in asset order. It is concentrated iff some allocation exceeds 0.5 (strict, default 0), and volatile iff some lookup answers `(VolHigh)`. |
| AimlRisk.Decide | aiml/agents/risk_agent/src/main.py:77-85 | The score is "High" iff volatile or concentrated, and "Low" otherwise. The volatile explanation takes precedence over the concentrated one. |
| AimlRisk.AssessRisk | aiml/agents/risk_agent/src/main.py:52-111 | The reply is "High", "Low" or "ERROR", and the provenance is empty exactly for "ERROR". The provenance's computed score equals the score. It records the portfolio as inputs, wrapped as `{"portfolio": …}`, names the agent "risk-agent" and recommends no actions. |
| AimlRisk.ScoreIff | aiml/agents/risk_agent/src/main.py:59-85 | The score is "ERROR" iff some lookup's first result list is empty. Otherwise it is "High" iff some asset is volatile by the oracle or holds more than half the portfolio. |
| AimlRisk.VolatileExplanationFirst | aiml/agents/risk_agent/src/main.py:77-79 | One volatile asset gives "High" with the volatile explanation, whatever the allocations. |
| AimlRisk.TraceFollowsAssets | aiml/agents/risk_agent/src/main.py:70-72 | The MeTTa trace has one entry per asset, in asset order, with that asset's query and printed result. |
| AimlRisk.NoAssetsIsLow | aiml/agents/risk_agent/src/main.py:56-85 | An empty or missing asset list gives "Low" with the well-diversified explanation and an empty trace. |
| AimlRisk.HalfIsNotConcentrated | aiml/agents/risk_agent/src/main.py:67 | An allocation of exactly 0.5 is not concentrated. |
| AimlRisk.ShibAndBtc | aiml/acceptance/test_risk_reasoning.py:20-33 | With SHIB answering `(VolHigh)` and BTC answering its unreduced query, a portfolio with SHIB is "High" for volatility, and BTC at 40% alone is "Low". |
| AimlYield.NativeFor | aiml/agents/yield_agent/src/main.py:99-106 | An opportunity comes from the native data iff some stored entry has the token, with protocol "PYUSD Native Yield" and that entry's apr. The handler raises iff such an entry lacks "apr". |
| AimlYield.AaveFor | aiml/agents/yield_agent/src/main.py:107-114 | A pool contributes iff its symbol is the token and its project is "aave-v3", with protocol = project and apr = its apy. The handler raises iff such a pool lacks "apy". |
| AimlYield.NativeForOne | aiml/agents/yield_agent/src/main.py:100-106 | One stored entry gives exactly one native opportunity, with its apr, when its token matches. It gives none when the token does not match, and raises when it matches without "apr". |
| AimlYield.NativeForAppend | aiml/agents/yield_agent/src/main.py:100-106 | The native scan follows storage order: the opportunities from `a + b` are those from `a` followed by those from `b`, and the scan raises iff either part does. With NativeForOne, this fixes one opportunity per matching entry, in storage order. |
| AimlYield.AaveForOne | aiml/agents/yield_agent/src/main.py:107-114 | One stored pool gives exactly one "aave-v3" opportunity, with its apy, when its symbol is the token and its project is "aave-v3". It gives none otherwise, and raises when it matches without "apy". |
| AimlYield.AaveForAppend | aiml/agents/yield_agent/src/main.py:107-114 | The pool scan follows storage order: the opportunities from `a + b` are those from `a` followed by those from `b`, and the scan raises iff either part does. |
| AimlYield.GetYields | aiml/agents/yield_agent/src/main.py:93-115 | No reply is sent iff some requested token hits an entry missing its rate. Otherwise every returned opportunity's token is a requested token. |
| AimlYield.OpportunityIff | aiml/agents/yield_agent/src/main.py:98-114 | An opportunity is returned iff some requested token matches a native entry or an aave-v3 pool that gives exactly it. |
| AimlYield.RequestOrderKept | aiml/agents/yield_agent/src/main.py:98-114 | The reply for `t1 + t2` is the reply for `t1` followed by that for `t2`: request order is kept, and repeated tokens repeat. |
| AimlYield.OneToken | aiml/agents/yield_agent/src/main.py:98-114 | For one token, the native entries' opportunities come before the aave pools'. The order within each part is fixed by NativeForAppend and AaveForAppend. |
| AimlYield.EmptyCases | aiml/agents/yield_agent/src/main.py:96-97 | An empty request, missing storage keys, or empty storage all give an empty list. |
| AimlYield.MockPyusd | aiml/agents/yield_agent/src/main.py:82-83 | With the hourly mock entry stored, PYUSD gets one native opportunity at 4.5 and USDC gets none. |
| AimlOrchestrator.HandleRequest | aiml/agents/orchestrator_agent/src/main.py:39-69 | The one reply's assessment is either the high-risk text or "Not requested". Its "yields" plan is either empty or the single Aave 5.2 suggestion. Which one is chosen is stated by RiskIff and YieldIff. |
| AimlOrchestrator.Response.Text | aiml/agents/orchestrator_agent/src/main.py:59 | The response text is "Assessment: " followed by exactly the assessment, so the assessment can be read back from the text. |
| AimlOrchestrator.RiskIff | aiml/agents/orchestrator_agent/src/main.py:43-51 | The assessment is "High Risk - Portfolio is highly concentrated." iff "risk" occurs in the query in any letter case, and "Not requested" otherwise. |
| AimlOrchestrator.YieldIff | aiml/agents/orchestrator_agent/src/main.py:53-57 | The plan's yields are `[Aave 5.2]` iff "yield" occurs in the query in any letter case, and `[]` otherwise. |
| AimlOrchestrator.ChecksIndependent | aiml/agents/orchestrator_agent/src/main.py:47-60 | The response text depends only on the "risk" check, and the plan only on the "yield" check. |
| AimlOrchestrator.CaseInsensitive | aiml/agents/orchestrator_agent/src/main.py:43 | A query and its lower-case form get the same reply. |
| AimlOrchestrator.AcceptanceQuery | aiml/test_simple.py:8-41 | "Analyze my portfolio risk and find yield for PYUSD." gets the high-risk assessment and the Aave suggestion together. |
| AimlOrchestrator.ShortQueryAsksNothing | aiml/agents/orchestrator_agent/src/main.py:47-57 | A query shorter than four characters gets "Not requested" and no yields. |

## Left out

- Transport:
  - uAgents agent construction, addresses, ports, funding and registration are not modelled.
  - The bus is the `inbox` sequence, and handlers return traces.
  - Real-time timeouts (2 s and 5 s) are one `None` receive each; the twenty-attempt bound is kept.
- I/O:
  - HTTP is not modelled: the backend POST in the execution agent, the Flask endpoint of the aiml risk agent, and the DeFiLlama fetch and storage refresh in `query_yield_opportunities`.
  - The backend's JSON response is the opaque parameter `response`; HTTP failures are not modelled.
  - The yield agent's storage is an input.
- Files: reading `rules.json` and `risk_rules.metta` is not modelled; the rule table is a parameter. The corruption repair `ensure_storage_is_clean` is also not modelled.
- MeTTa: the Hyperon interpreter is the oracle parameter of `AimlRisk`, from query text to the printed result and its printed atoms.
- AimlRisk.AssessRisk: the wallet signature in the provenance is not modelled. It is a foreign cryptographic call over the score and explanation.
- Float handling:
  - Rendering a float in an f-string is the parameter `showReal`.
  - IEEE rounding is not modelled, and metrics are exact reals.
  - The `float()` conversion of non-numeric metrics, and its exception, are not modelled.
- Python `repr` of strings inside lists is rendered with plain single quotes, without escaping.
- Malformed messages are not modelled. Every message payload is a dictionary, and `msg['payload']` on a message that lacks it is not modelled. The same holds for non-dictionary assets or pools, and for an `assets` or `ranked` key explicitly set to null.
- Case: `str.lower()` is modelled for ASCII letters only.
- Payload keys nobody reads:
  - A RISK_RESULT payload's other keys are only counted (`extraKeys`). The count decides whether the dictionary is empty; the values are not modelled.
  - A listing's other keys are kept as the JSON text of their values (`others`). They pass through scoring and ranking but are never interpreted.
  - Nothing stops `others` from naming `protocol`, `apy`, `risk_score` or `score`. A Python dictionary cannot hold such a key twice, so these values have no counterpart. After scoring, a stale `score` in `others` would sit next to the new `score` field, and no lemma reads `others`.
  - Portfolios keep only the keys the engines read. Other keys are not kept: those of a holding, of `aggregates`, of an aiml asset and of the aiml portfolio's top level. For the shim's summary, the top-level extra keys keep only a count (`extraKeys`), without their values. The echoed input (`raw` in the verdict, `inputs` in the provenance, and so the RISK_RESULT and the coordinator's `meta`) is therefore the input restricted to those keys.
- Message tags: `Unrecognised` may carry any string, including one that names a known type. Such a value is never built for a message of a known type; it is a representable value with no counterpart on the bus, and no lemma depends on excluding it.
- Logging, everywhere, is not modelled.
- The generic `except` path of `assess_risk` is modelled only for the `result[0][0]` IndexError, the one the decision logic itself can raise.

## Findings

| source | as written | input that shows it | evidently intended | confidence | as-written member | corrected member |
|---|---|---|---|---|---|---|
| agents/coordinator_agent.py:47 | The yield reply subscripts `r['protocol']` and `r['apy']` for each of the first three ranked entries. The yield agent passes market items through unchanged, so these keys may be missing. | A CHAT "yield" whose YIELD_RESULT ranks `{protocol: "Aave", risk_score: 0.1}` (no `apy`): the handler raises KeyError after the receive and the user gets no CHAT_REPLY | Every CHAT gets exactly one CHAT_REPLY, with a missing key shown as `None` as the other branches do via `.get` | medium; not executed | Coordinator.AsWrittenCanDropReply | Coordinator.ExactlyOneReply |
