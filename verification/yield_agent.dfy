/** The yield agent's message handler: YIELD_QUERY is answered with the ranked
    listings, anything else with the unknown-type error. */
module YieldAgent {
  import opened Wrappers
  import opened YieldRanking
  import opened Bus

  /** `handle`: exactly one send, back to the sender. */
  function Handle(sender: string, msg: Msg): (t: Trace)
    ensures |t| == 1 && t[0].Send? && t[0].to == sender && !IsRequest(t[0].msg)
    ensures msg.YieldQuery? ==> t[0].msg == YieldResult(Some(Rank(msg.market.GetOr([]))))
    ensures !msg.YieldQuery? ==> t[0].msg == ErrorReply(UnknownType)
  {
    match msg
    case YieldQuery(market) => [Send(sender, YieldResult(Some(Rank(market.GetOr([])))))]
    case _ => [Send(sender, ErrorReply(UnknownType))]
  }

  /** The YIELD_RESULT carries min(5, |market|) entries in non-increasing score
      order; an absent or empty market gives an empty list, not an error. */
  lemma YieldResultShape(sender: string, market: Option<seq<Listing>>)
    ensures Handle(sender, YieldQuery(market))[0].msg.ranked.Some?
    ensures |Handle(sender, YieldQuery(market))[0].msg.ranked.value| == Min(TopK, |market.GetOr([])|)
    ensures SortedDesc(Handle(sender, YieldQuery(market))[0].msg.ranked.value)
    ensures market.GetOr([]) == [] ==> Handle(sender, YieldQuery(market))[0].msg == YieldResult(Some([]))
  {
  }
}
