/** The uAgents risk agent's `assess_risk`: each asset's volatility is looked up
    in a MeTTa knowledge base, each allocation is compared with one half, and the
    two flags decide a "High" or "Low" score with an explanation and a provenance
    record.  The MeTTa interpreter is an oracle parameter: it maps the query text
    to the reply's printed form and the printed atoms of its result lists. */
module AimlRisk {
  import opened Wrappers
  import opened Text

  /** An allocation strictly above this marks the portfolio as concentrated. */
  const ConcentrationLimit: real := 0.5

  /** The atom the knowledge base answers for a volatile symbol. */
  const VolHigh: string := "(VolHigh)"

  const High: string := "High"
  const Low: string := "Low"
  const Failed: string := "ERROR"
  const VolatileWhy: string := "Portfolio contains highly volatile assets."
  const ConcentratedWhy: string := "Portfolio is highly concentrated in a single asset."
  const CalmWhy: string := "Portfolio has low volatility and is well-diversified."
  /** The text of the IndexError raised by `result[0][0]` on an empty inner list. */
  const IndexErrorText: string := "list index out of range"
  const AgentName: string := "risk-agent"
  const Timestamp: string := "..."

  /** One asset of the portfolio; `None` is a key absent from its dictionary. */
  datatype Asset = Asset(symbol: Option<string>, allocation: Option<real>) {
    /** `asset.get("allocation", 0)`. */
    function Allocation(): real {
      allocation.GetOr(0.0)
    }
  }

  /** The portfolio dictionary; only its "assets" key is read. */
  datatype Portfolio = Portfolio(assets: Option<seq<Asset>>) {
    function Assets(): seq<Asset> {
      assets.GetOr([])
    }
  }

  /** What `metta.run(query)` returns: `shown` is `str(result)`, and `atoms[i][j]`
      is `str(result[i][j])`. */
  datatype MettaReply = MettaReply(shown: string, atoms: seq<seq<string>>)

  type Oracle = string -> MettaReply

  datatype TraceEntry = TraceEntry(query: string, result: string)

  /** The provenance's `inputs` entry: `{"portfolio": portfolio}`. */
  datatype Inputs = Inputs(portfolio: Portfolio)

  /** The provenance dictionary; `Empty` is the `{}` of the error reply.  The wallet
      signature is not modelled. */
  datatype Provenance =
    | Empty
    | Provenance(
        timestamp: string,
        agent: string,
        inputs: Inputs,
        mettaTrace: seq<TraceEntry>,
        computedScore: string,
        recommendedActions: seq<string>)

  datatype RiskScore = RiskScore(riskScore: string, explanation: string, provenance: Provenance)

  /** The query sent to MeTTa for one asset; a missing symbol prints as `None`. */
  function Query(a: Asset): (q: string)
    ensures IsPrefix("!(volatility-of ", q)
    ensures q[|"!(volatility-of "|..] == OptText(a.symbol) + ")"
  {
    var head := "!(volatility-of ";
    var q := head + OptText(a.symbol) + ")";
    assert q[..|head|] == head;
    q
  }

  /** `result[0][0]` raises: the result is non-empty but its first list is empty. */
  predicate Raises(r: MettaReply) {
    |r.atoms| > 0 && |r.atoms[0]| == 0
  }

  /** `result and str(result[0][0]) == "(VolHigh)"`, for a reply that does not raise. */
  predicate SaysVolatile(r: MettaReply) {
    |r.atoms| > 0 && |r.atoms[0]| > 0 && r.atoms[0][0] == VolHigh
  }

  predicate Concentrated(a: Asset) {
    a.Allocation() > ConcentrationLimit
  }

  predicate Volatile(metta: Oracle, a: Asset) {
    SaysVolatile(metta(Query(a)))
  }

  predicate Faulty(metta: Oracle, a: Asset) {
    Raises(metta(Query(a)))
  }

  /** The state the loop over the assets leaves behind, or the fault that ended it. */
  datatype Scan = Scanned(volatile: bool, concentrated: bool, trace: seq<TraceEntry>) | Fault

  /** `s` is what the loop over `assets` leaves: it faults exactly when some reply's
      first list is empty; otherwise each flag is set exactly when some asset calls
      for it, and there is one trace entry per asset, in asset order. */
  ghost predicate ScanOf(metta: Oracle, assets: seq<Asset>, s: Scan) {
    FlagsOf(metta, assets, s) && TraceOf(metta, assets, s)
  }

  ghost predicate FlagsOf(metta: Oracle, assets: seq<Asset>, s: Scan) {
    && (s.Fault? <==> exists i :: 0 <= i < |assets| && Faulty(metta, assets[i]))
    && (s.Scanned? ==>
          && (s.concentrated <==> exists i :: 0 <= i < |assets| && Concentrated(assets[i]))
          && (s.volatile <==> exists i :: 0 <= i < |assets| && Volatile(metta, assets[i])))
  }

  ghost predicate TraceOf(metta: Oracle, assets: seq<Asset>, s: Scan) {
    s.Scanned? ==>
      && |s.trace| == |assets|
      && forall i :: 0 <= i < |assets| ==>
           s.trace[i] == TraceEntry(Query(assets[i]), metta(Query(assets[i])).shown)
  }

  /** One asset whose lookup does not raise, ahead of the loop over the rest. */
  function ScanOne(metta: Oracle, a: Asset, rest: Scan): Scan {
    var reply := metta(Query(a));
    match rest
    case Fault => Fault
    case Scanned(v, c, t) =>
      Scanned(SaysVolatile(reply) || v, Concentrated(a) || c, [TraceEntry(Query(a), reply.shown)] + t)
  }

  /** The loop over the assets.  It stops at the first reply whose first list is
      empty; otherwise it sets each flag when some asset calls for it and records
      one trace entry per asset, in asset order. */
  function ScanAssets(metta: Oracle, assets: seq<Asset>): (s: Scan)
    ensures ScanOf(metta, assets, s)
  {
    if |assets| == 0 then Scanned(false, false, [])
    else if Raises(metta(Query(assets[0]))) then Fault
    else
      var rest := ScanAssets(metta, assets[1..]);
      FlagsStep(metta, assets, rest);
      TraceStep(metta, assets, rest);
      ScanOne(metta, assets[0], rest)
  }

  lemma FlagsStep(metta: Oracle, assets: seq<Asset>, rest: Scan)
    requires |assets| > 0 && !Faulty(metta, assets[0])
    requires FlagsOf(metta, assets[1..], rest)
    ensures FlagsOf(metta, assets, ScanOne(metta, assets[0], rest))
  {
    assert forall i :: 1 <= i < |assets| ==> assets[i] == assets[1..][i - 1];
  }

  lemma TraceStep(metta: Oracle, assets: seq<Asset>, rest: Scan)
    requires |assets| > 0
    requires TraceOf(metta, assets[1..], rest)
    ensures TraceOf(metta, assets, ScanOne(metta, assets[0], rest))
  {
    assert forall i :: 1 <= i < |assets| ==> assets[i] == assets[1..][i - 1];
  }

  /** The score and its explanation; volatility is reported ahead of concentration. */
  function Decide(volatile: bool, concentrated: bool): (r: (string, string))
    ensures r.0 == High <==> volatile || concentrated
    ensures r.0 == Low <==> !volatile && !concentrated
    ensures volatile ==> r.1 == VolatileWhy
    ensures !volatile && concentrated ==> r.1 == ConcentratedWhy
    ensures !volatile && !concentrated ==> r.1 == CalmWhy
  {
    if volatile then (High, VolatileWhy)
    else if concentrated then (High, ConcentratedWhy)
    else (Low, CalmWhy)
  }

  /** `assess_risk`: the one RiskScore sent back to the sender. */
  function AssessRisk(metta: Oracle, portfolio: Portfolio): (r: RiskScore)
    ensures r.riskScore in {High, Low, Failed}
    ensures r.riskScore == Failed <==> r.provenance.Empty?
    ensures r.provenance.Provenance? ==>
      && r.provenance.computedScore == r.riskScore
      && r.provenance.inputs == Inputs(portfolio)
      && r.provenance.agent == AgentName
      && r.provenance.recommendedActions == []
  {
    match ScanAssets(metta, portfolio.Assets())
    case Fault => RiskScore(Failed, IndexErrorText, Empty)
    case Scanned(v, c, t) =>
      var (score, why) := Decide(v, c);
      RiskScore(score, why, Provenance(Timestamp, AgentName, Inputs(portfolio), t, score, []))
  }

  /** The score is "High" exactly when some asset is volatile by the oracle or holds
      more than half of the portfolio, and "Low" otherwise; the assessment fails
      only when a lookup's first result list is empty. */
  lemma ScoreIff(metta: Oracle, portfolio: Portfolio)
    ensures var r := AssessRisk(metta, portfolio);
      var assets := portfolio.Assets();
      && (r.riskScore == Failed <==> exists i :: 0 <= i < |assets| && Faulty(metta, assets[i]))
      && (r.riskScore == High <==>
            && (forall i :: 0 <= i < |assets| ==> !Faulty(metta, assets[i]))
            && exists i :: 0 <= i < |assets| && (Volatile(metta, assets[i]) || Concentrated(assets[i])))
  {
    var assets := portfolio.Assets();
    var s := ScanAssets(metta, assets);
    if s.Scanned? {
      if exists i :: 0 <= i < |assets| && (Volatile(metta, assets[i]) || Concentrated(assets[i])) {
        var i :| 0 <= i < |assets| && (Volatile(metta, assets[i]) || Concentrated(assets[i]));
        assert s.volatile || s.concentrated;
      }
    }
  }

  /** The volatile explanation wins whenever some asset is volatile, even if
      another is also concentrated. */
  lemma VolatileExplanationFirst(metta: Oracle, portfolio: Portfolio, i: nat)
    requires i < |portfolio.Assets()| && Volatile(metta, portfolio.Assets()[i])
    requires forall k :: 0 <= k < |portfolio.Assets()| ==> !Faulty(metta, portfolio.Assets()[k])
    ensures AssessRisk(metta, portfolio).riskScore == High
    ensures AssessRisk(metta, portfolio).explanation == VolatileWhy
  {
  }

  /** The provenance trace lists the query for each asset, in asset order, with the
      printed reply. */
  lemma TraceFollowsAssets(metta: Oracle, portfolio: Portfolio)
    requires AssessRisk(metta, portfolio).riskScore != Failed
    ensures var p := AssessRisk(metta, portfolio).provenance;
      && |p.mettaTrace| == |portfolio.Assets()|
      && forall i :: 0 <= i < |portfolio.Assets()| ==>
           p.mettaTrace[i].query == Query(portfolio.Assets()[i])
           && p.mettaTrace[i].result == metta(Query(portfolio.Assets()[i])).shown
  {
  }

  /** A portfolio without assets, or without the "assets" key, is "Low" with an
      empty trace, whatever the oracle says. */
  lemma NoAssetsIsLow(metta: Oracle, portfolio: Portfolio)
    requires portfolio.Assets() == []
    ensures AssessRisk(metta, portfolio).riskScore == Low
    ensures AssessRisk(metta, portfolio).explanation == CalmWhy
    ensures AssessRisk(metta, portfolio).provenance.mettaTrace == []
  {
  }

  /** An allocation of exactly one half does not count as concentrated. */
  lemma HalfIsNotConcentrated(metta: Oracle, symbol: Option<string>)
    requires !SaysVolatile(metta(Query(Asset(symbol, Some(0.5)))))
    requires !Raises(metta(Query(Asset(symbol, Some(0.5)))))
    ensures AssessRisk(metta, Portfolio(Some([Asset(symbol, Some(0.5))]))).riskScore == Low
  {
    var p := Portfolio(Some([Asset(symbol, Some(0.5))]));
    ScoreIff(metta, p);
  }

  /** The knowledge base's own examples: SHIB answers `(VolHigh)`, BTC answers the
      unreduced query.  A SHIB holding makes the portfolio "High" for volatility; a
      BTC holding of 40% alone is "Low". */
  lemma ShibAndBtc(metta: Oracle, shib: Asset, btc: Asset)
    requires shib == Asset(Some("SHIB"), Some(0.1)) && btc == Asset(Some("BTC"), Some(0.4))
    requires metta(Query(shib)).atoms == [[VolHigh]]
    requires metta(Query(btc)).atoms == [["(volatility-of BTC)"]]
    ensures AssessRisk(metta, Portfolio(Some([btc, shib]))).riskScore == High
    ensures AssessRisk(metta, Portfolio(Some([btc, shib]))).explanation == VolatileWhy
    ensures AssessRisk(metta, Portfolio(Some([btc]))).riskScore == Low
  {
    ScoreIff(metta, Portfolio(Some([btc])));
    VolatileExplanationFirst(metta, Portfolio(Some([btc, shib])), 1);
  }
}
