/** The risk agent's message handler: RISK_ASSESS and CHAT_QUERY are answered
    with the rule engine's verdict, anything else with the unknown-type error. */
module RiskAgent {
  import opened Wrappers
  import opened Text
  import opened MettaShim
  import opened Bus

  const MissingPortfolio: string := "missing portfolio"

  /** The CHAT_REPLY text: the level, then the evidence list. */
  function ChatText(v: Verdict): (s: string)
    ensures IsPrefix("Portfolio risk: " + v.level.Name(), s)
    ensures s[|"Portfolio risk: " + v.level.Name()|..] == ". See evidence: " + ListRepr(v.evidence)
  {
    var head := "Portfolio risk: " + v.level.Name();
    var s := head + ". See evidence: " + ListRepr(v.evidence);
    assert s[..|head|] == head;
    s
  }

  /** `handle`: exactly one send, back to the sender, whatever arrives.  A missing
      or empty portfolio is refused without an assessment; otherwise the payload
      is the engine's result unchanged. */
  function Handle(rules: seq<Rule>, showReal: real -> string, sender: string, msg: Msg): (t: Trace)
    ensures |t| == 1 && t[0].Send? && t[0].to == sender && !IsRequest(t[0].msg)
    ensures msg.RiskAssess? && (msg.portfolio.None? || msg.portfolio.value.IsFalsy()) ==>
      t[0].msg == ErrorReply(MissingPortfolio)
    ensures msg.RiskAssess? && msg.portfolio.Some? && !msg.portfolio.value.IsFalsy() ==>
      t[0].msg == RiskResult(ReportOf(Assess(rules, msg.portfolio.value, showReal)))
    ensures msg.ChatQuery? ==>
      var v := Assess(rules, msg.portfolio.GetOr(EmptyPortfolio), showReal);
      t[0].msg == ChatReply(ChatText(v), ReportMeta(ReportOf(v)))
    ensures !msg.RiskAssess? && !msg.ChatQuery? ==> t[0].msg == ErrorReply(UnknownType)
  {
    match msg
    case RiskAssess(portfolio) =>
      if portfolio.None? || portfolio.value.IsFalsy() then
        [Send(sender, ErrorReply(MissingPortfolio))]
      else
        [Send(sender, RiskResult(ReportOf(Assess(rules, portfolio.value, showReal))))]
    case ChatQuery(portfolio) =>
      var v := Assess(rules, portfolio.GetOr(EmptyPortfolio), showReal);
      [Send(sender, ChatReply(ChatText(v), ReportMeta(ReportOf(v))))]
    case _ =>
      [Send(sender, ErrorReply(UnknownType))]
  }

  /** Seen from the bus: a RISK_ASSESS with a non-empty portfolio is answered with
      a RISK_RESULT whose level is "HIGH" exactly when a matching rule asks for
      HIGH or the aggregate volatility exceeds 0.18, and whose evidence names every
      matching pair. */
  lemma RiskResultHighIff(rules: seq<Rule>, showReal: real -> string, sender: string, p: Portfolio)
    requires !p.IsFalsy()
    ensures Handle(rules, showReal, sender, RiskAssess(Some(p)))[0].msg.RiskResult?
    ensures Handle(rules, showReal, sender, RiskAssess(Some(p)))[0].msg.report.level == Some("HIGH") <==>
      Hit(p.Holdings(), rules, "HIGH") || p.AggregateVolatility() > AggregateThreshold
    ensures forall line :: line in HitLines(p.Holdings(), rules) ==>
      line in Handle(rules, showReal, sender, RiskAssess(Some(p)))[0].msg.report.evidence.value
  {
    LevelHighIff(rules, p, showReal);
    var v := Assess(rules, p, showReal);
    assert v.level == High <==> v.level.Name() == "HIGH";
  }

  /** A CHAT_QUERY without a portfolio is assessed as the empty portfolio: LOW,
      no evidence. */
  lemma ChatQueryDefaultsToEmpty(rules: seq<Rule>, showReal: real -> string, sender: string)
    ensures Handle(rules, showReal, sender, ChatQuery(None))[0].msg.meta.report.level == Some("LOW")
    ensures Handle(rules, showReal, sender, ChatQuery(None))[0].msg.meta.report.evidence == Some([])
  {
    EmptyHoldingsAreLow(rules, EmptyPortfolio, showReal);
  }
}
