/** The message bus as the handlers see it: the closed set of message types, the
    payload of each, and the trace of what a handler does (sends, receives, the
    backend call). */
module Bus {
  import opened Wrappers
  import opened MettaShim
  import opened YieldRanking

  const RiskAgentAddr: string := "risk-agent"
  const YieldAgentAddr: string := "yield-agent"

  /** The text of every unknown-type error envelope. */
  const UnknownType: string := "unknown message type"

  /** A JSON value the core passes along without looking inside (a proposal, the
      backend's response). */
  datatype Opaque = Opaque(json: string)

  /** The payload of a RISK_RESULT as it travels on the bus: `{portfolio_risk,
      evidence, raw}`, any key of which may be absent. `extraKeys` counts
      the other keys of the dictionary; the core never reads them, but they
      make it non-empty. */
  datatype RiskReport = RiskReport(
    level: Option<string>,
    evidence: Option<seq<string>>,
    raw: Option<Portfolio>,
    extraKeys: nat)
  {
    /** The empty dictionary: what `not risk_result` rejects. */
    predicate IsFalsy() {
      level.None? && evidence.None? && raw.None? && extraKeys == 0
    }
  }

  /** The dictionary `assess_portfolio` returns: exactly its three keys, all
      present, so it is never empty. */
  function ReportOf(v: Verdict): (r: RiskReport)
    ensures !r.IsFalsy()
    ensures r.level == Some(v.level.Name())
    ensures r.evidence == Some(v.evidence) && r.raw == Some(v.raw) && r.extraKeys == 0
  {
    RiskReport(Some(v.level.Name()), Some(v.evidence), Some(v.raw), 0)
  }

  /** The `meta` entry of a CHAT_REPLY, absent on the timeout replies. */
  datatype Meta = NoMeta | ReportMeta(report: RiskReport) | RankedMeta(ranked: seq<Listing>)

  /** A message: one constructor per wire type, carrying that type's payload.  An
      `Option` field is a payload key that may be absent.  `ErrorReply` is the
      `{error: ...}` envelope (it has no type); `Unrecognised` is any message whose
      type is absent or a string that `TagNamed` does not know. */
  datatype Msg =
    | RiskAssess(portfolio: Option<Portfolio>)
    | RiskResult(report: RiskReport)
    | YieldQuery(market: Option<seq<Listing>>)
    | YieldResult(ranked: Option<seq<Listing>>)
    | Chat(text: Option<string>, portfolio: Option<Portfolio>, market: Option<seq<Listing>>)
    | ChatQuery(portfolio: Option<Portfolio>)
    | ChatReply(reply: string, meta: Meta)
    | ExecuteProposal(proposal: Option<Opaque>, portfolio: Option<Portfolio>, market: Option<seq<Listing>>)
    | ExecAccepted(response: Opaque)
    | ExecRejected(reason: string, evidence: Option<seq<string>>)
    | ErrorReply(error: string)
    | Unrecognised(tag: Option<string>)

  datatype Tag =
    | RiskAssessTag | RiskResultTag | YieldQueryTag | YieldResultTag | ChatTag
    | ChatQueryTag | ChatReplyTag | ExecuteProposalTag | ExecAcceptedTag | ExecRejectedTag

  /** `msg.get('type')`, as a tag of the closed set. */
  function TagOf(m: Msg): Option<Tag> {
    match m
    case RiskAssess(_) => Some(RiskAssessTag)
    case RiskResult(_) => Some(RiskResultTag)
    case YieldQuery(_) => Some(YieldQueryTag)
    case YieldResult(_) => Some(YieldResultTag)
    case Chat(_, _, _) => Some(ChatTag)
    case ChatQuery(_) => Some(ChatQueryTag)
    case ChatReply(_, _) => Some(ChatReplyTag)
    case ExecuteProposal(_, _, _) => Some(ExecuteProposalTag)
    case ExecAccepted(_) => Some(ExecAcceptedTag)
    case ExecRejected(_, _) => Some(ExecRejectedTag)
    case ErrorReply(_) => None
    case Unrecognised(_) => None
  }

  /** The `type` string on the wire. */
  function WireName(t: Tag): string {
    match t
    case RiskAssessTag => "RISK_ASSESS"
    case RiskResultTag => "RISK_RESULT"
    case YieldQueryTag => "YIELD_QUERY"
    case YieldResultTag => "YIELD_RESULT"
    case ChatTag => "CHAT"
    case ChatQueryTag => "CHAT_QUERY"
    case ChatReplyTag => "CHAT_REPLY"
    case ExecuteProposalTag => "EXECUTE_PROPOSAL"
    case ExecAcceptedTag => "EXEC_ACCEPTED"
    case ExecRejectedTag => "EXEC_REJECTED"
  }

  /** The handlers' `mtype == '...'` comparisons: the tag a wire string names, if any. */
  function TagNamed(s: string): (r: Option<Tag>)
    ensures r.Some? ==> WireName(r.value) == s
  {
    if s == "RISK_ASSESS" then Some(RiskAssessTag)
    else if s == "RISK_RESULT" then Some(RiskResultTag)
    else if s == "YIELD_QUERY" then Some(YieldQueryTag)
    else if s == "YIELD_RESULT" then Some(YieldResultTag)
    else if s == "CHAT" then Some(ChatTag)
    else if s == "CHAT_QUERY" then Some(ChatQueryTag)
    else if s == "CHAT_REPLY" then Some(ChatReplyTag)
    else if s == "EXECUTE_PROPOSAL" then Some(ExecuteProposalTag)
    else if s == "EXEC_ACCEPTED" then Some(ExecAcceptedTag)
    else if s == "EXEC_REJECTED" then Some(ExecRejectedTag)
    else None
  }

  /** Every tag's wire name is read back as that tag, so no two tags share a name. */
  lemma WireNameRoundTrip(t: Tag)
    ensures TagNamed(WireName(t)) == Some(t)
  {
  }

  /** Requests a handler sends to an evaluator while serving its own inbound message. */
  predicate IsRequest(m: Msg) {
    m.RiskAssess? || m.YieldQuery?
  }

  /** One step of a handler: a send, one receive attempt (`None` is a receive that
      timed out), or the call to the execution backend. */
  datatype Event =
    | Send(to: string, msg: Msg)
    | Recv(got: Option<Msg>)
    | BackendCall(proposal: Option<Opaque>, reason: string)

  type Trace = seq<Event>

  /** Views of a trace: the replies sent to an address, the evaluator requests,
      the receive attempts, the backend calls. */
  datatype View = RepliesTo(addr: string) | Requests | Polls | Calls

  predicate Shows(v: View, e: Event) {
    match v
    case RepliesTo(addr) => e.Send? && e.to == addr && !IsRequest(e.msg)
    case Requests => e.Send? && IsRequest(e.msg)
    case Polls => e.Recv?
    case Calls => e.BackendCall?
  }

  /** The events of `t` that `v` shows, in order. */
  function Project(t: Trace, v: View): (r: Trace)
    ensures |r| <= |t|
    ensures forall i :: 0 <= i < |r| ==> Shows(v, r[i])
  {
    if |t| == 0 then []
    else (if Shows(v, t[0]) then [t[0]] else []) + Project(t[1..], v)
  }

  lemma {:induction false} ProjectAppend(a: Trace, b: Trace, v: View)
    ensures Project(a + b, v) == Project(a, v) + Project(b, v)
  {
    if |a| == 0 {
      assert a + b == b;
    } else {
      var ab := a + b;
      assert ab[0] == a[0];
      assert ab[1..] == a[1..] + b;
      ProjectAppend(a[1..], b, v);
    }
  }

  lemma ProjectOne(e: Event, v: View)
    ensures Project([e], v) == if Shows(v, e) then [e] else []
  {
    assert [e][1..] == [];
  }

  /** A send back to `addr` that is not an evaluator request is a reply to it. */
  lemma ProjectReply(addr: string, m: Msg)
    requires !IsRequest(m)
    ensures Project([Send(addr, m)], RepliesTo(addr)) == [Send(addr, m)]
  {
    ProjectOne(Send(addr, m), RepliesTo(addr));
  }

  /** The receive attempts of a flow, as trace events. */
  function Recvs(polls: seq<Option<Msg>>): (t: Trace)
    ensures |t| == |polls|
    ensures forall i :: 0 <= i < |polls| ==> t[i] == Recv(polls[i])
  {
    if |polls| == 0 then [] else [Recv(polls[0])] + Recvs(polls[1..])
  }

  /** Receive attempts are seen only by the `Polls` view. */
  lemma {:induction false} ProjectRecvs(polls: seq<Option<Msg>>, v: View)
    ensures Project(Recvs(polls), v) == if v.Polls? then Recvs(polls) else []
  {
    if |polls| > 0 {
      var t := Recvs(polls);
      assert t[1..] == Recvs(polls[1..]);
      ProjectRecvs(polls[1..], v);
    }
  }
}
