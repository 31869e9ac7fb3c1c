/** The execution agent's EXECUTE_PROPOSAL handler: ask the risk agent, wait for
    its verdict, refuse on HIGH or on no verdict (fail closed), then ask the yield
    agent, wait for it but proceed either way (fail open), call the backend once and
    answer the sender with its response. */
module ExecutionGate {
  import opened Wrappers
  import opened Bus
  import opened Collector

  const RiskTimeout: string := "risk agent timeout"
  const RiskHigh: string := "RISK_HIGH"
  const NoYieldInfo: string := "no_yield_info"
  const YieldOk: string := "ok"

  /** What the risk phase decided: no usable verdict, a HIGH verdict (with its
      evidence), or clearance to go on. */
  datatype Gate = NoVerdict | TooRisky(evidence: Option<seq<string>>) | Cleared

  /** A report that lets the proposal through: non-empty and not HIGH. */
  predicate Safe(report: RiskReport) {
    !report.IsFalsy() && report.level != Some("HIGH")
  }

  /** A received message that is a RISK_RESULT with a safe report. */
  predicate Clears(m: Option<Msg>) {
    m.Some? && m.value.RiskResult? && Safe(m.value.report)
  }

  /** `if not risk_result` / `if risk_result.get('portfolio_risk') == 'HIGH'` on the
      collected RISK_RESULT. */
  function GateOf(found: Option<Msg>): (g: Gate)
    ensures g == Cleared <==> Clears(found)
    ensures g.TooRisky? <==> found.Some? && found.value.RiskResult? && found.value.report.level == Some("HIGH")
  {
    match found
    case Some(RiskResult(report)) =>
      if report.IsFalsy() then NoVerdict
      else if report.level == Some("HIGH") then TooRisky(report.evidence)
      else Cleared
    case _ => NoVerdict
  }

  /** The reason sent to the backend: whether a YIELD_RESULT was collected. */
  function Reason(yieldFound: Option<Msg>): string {
    if yieldFound.None? then NoYieldInfo else YieldOk
  }

  /** The risk phase's wait. */
  function RiskWait(inbox: seq<Option<Msg>>): Wait {
    Await(inbox, RiskResultTag, MaxAttempts)
  }

  /** The yield phase's wait, on what the risk phase left on the bus. */
  function YieldWait(inbox: seq<Option<Msg>>): Wait {
    Await(RiskWait(inbox).rest, YieldResultTag, MaxAttempts)
  }

  /** The risk query; the portfolio is passed on as received. */
  function RiskAsk(msg: Msg): Event
    requires msg.ExecuteProposal?
  {
    Send(RiskAgentAddr, RiskAssess(msg.portfolio))
  }

  /** The yield query; the market defaults to the empty list. */
  function YieldAsk(msg: Msg): Event
    requires msg.ExecuteProposal?
  {
    Send(YieldAgentAddr, YieldQuery(Some(msg.market.GetOr([]))))
  }

  /** The risk query and the risk phase's receive attempts. */
  function Opening(msg: Msg, riskPolls: seq<Option<Msg>>): Trace
    requires msg.ExecuteProposal?
  {
    [RiskAsk(msg)] + Recvs(riskPolls)
  }

  /** After clearance: query the yield agent, wait (`y`), call the backend, reply. */
  function Proceed(sender: string, msg: Msg, y: Wait, response: Opaque): (t: Trace)
    requires msg.ExecuteProposal?
    ensures |t| >= 3 && t[|t| - 1] == Send(sender, ExecAccepted(response))
  {
    [YieldAsk(msg)] + Recvs(y.polls) + [BackendCall(msg.proposal, Reason(y.found))]
      + [Send(sender, ExecAccepted(response))]
  }

  /** The reply that refuses a proposal the risk phase did not clear. */
  function Refusal(g: Gate): (m: Msg)
    requires !g.Cleared?
    ensures !IsRequest(m)
  {
    if g.NoVerdict? then ErrorReply(RiskTimeout) else ExecRejected(RiskHigh, g.evidence)
  }

  /** What follows the risk phase, given what it found: the refusal, or the rest of
      the flow. */
  function Closing(sender: string, msg: Msg, riskFound: Option<Msg>, y: Wait, response: Opaque): (t: Trace)
    requires msg.ExecuteProposal?
    ensures |t| >= 1 && t[|t| - 1].Send? && t[|t| - 1].to == sender && !IsRequest(t[|t| - 1].msg)
  {
    var g := GateOf(riskFound);
    if g.Cleared? then Proceed(sender, msg, y, response) else [Send(sender, Refusal(g))]
  }

  /** `handle`.  The bus delivers `inbox`; the backend answers `response`. */
  function Handle(sender: string, msg: Msg, inbox: seq<Option<Msg>>, response: Opaque): (t: Trace)
    ensures |t| >= 1 && t[|t| - 1].Send? && t[|t| - 1].to == sender && !IsRequest(t[|t| - 1].msg)
    ensures !msg.ExecuteProposal? ==> t == [Send(sender, ErrorReply(UnknownType))]
    ensures msg.ExecuteProposal? ==> t[0] == Send(RiskAgentAddr, RiskAssess(msg.portfolio))
  {
    if !msg.ExecuteProposal? then [Send(sender, ErrorReply(UnknownType))]
    else
      var w := RiskWait(inbox);
      Opening(msg, w.polls) + Closing(sender, msg, w.found, YieldWait(inbox), response)
  }

  // ---------------------------------------------------------------------------
  // Views of the trace

  lemma OpeningView(msg: Msg, riskPolls: seq<Option<Msg>>, v: View)
    requires msg.ExecuteProposal?
    ensures Project(Opening(msg, riskPolls), v) == Project([RiskAsk(msg)], v) + Project(Recvs(riskPolls), v)
  {
    ProjectAppend([RiskAsk(msg)], Recvs(riskPolls), v);
  }

  /** The risk phase neither replies nor calls the backend. */
  lemma OpeningSilent(sender: string, msg: Msg, riskPolls: seq<Option<Msg>>)
    requires msg.ExecuteProposal?
    ensures Project(Opening(msg, riskPolls), RepliesTo(sender)) == []
    ensures Project(Opening(msg, riskPolls), Calls) == []
  {
    OpeningView(msg, riskPolls, RepliesTo(sender));
    OpeningView(msg, riskPolls, Calls);
    ProjectOne(RiskAsk(msg), RepliesTo(sender));
    ProjectOne(RiskAsk(msg), Calls);
    ProjectRecvs(riskPolls, RepliesTo(sender));
    ProjectRecvs(riskPolls, Calls);
  }

  /** The risk phase sends the risk query and polls. */
  lemma OpeningActive(msg: Msg, riskPolls: seq<Option<Msg>>)
    requires msg.ExecuteProposal?
    ensures Project(Opening(msg, riskPolls), Requests) == [RiskAsk(msg)]
    ensures Project(Opening(msg, riskPolls), Polls) == Recvs(riskPolls)
  {
    OpeningView(msg, riskPolls, Requests);
    OpeningView(msg, riskPolls, Polls);
    ProjectOne(RiskAsk(msg), Requests);
    ProjectOne(RiskAsk(msg), Polls);
    ProjectRecvs(riskPolls, Requests);
    ProjectRecvs(riskPolls, Polls);
  }

  // A view that sees all of one part of a four-part trace and nothing of the
  // others sees exactly that part.

  lemma FirstPartShown(a: Trace, b: Trace, c: Trace, d: Trace, v: View)
    requires Project(a, v) == a && Project(b, v) == [] && Project(c, v) == [] && Project(d, v) == []
    ensures Project(a + b + c + d, v) == a
  {
    ProjectAppend(a, b, v);
    assert Project(a + b, v) == a;
    ProjectAppend(a + b, c, v);
    assert Project(a + b + c, v) == a;
    ProjectAppend(a + b + c, d, v);
  }

  lemma SecondPartShown(a: Trace, b: Trace, c: Trace, d: Trace, v: View)
    requires Project(a, v) == [] && Project(b, v) == b && Project(c, v) == [] && Project(d, v) == []
    ensures Project(a + b + c + d, v) == b
  {
    ProjectAppend(a, b, v);
    assert Project(a + b, v) == b;
    ProjectAppend(a + b, c, v);
    assert Project(a + b + c, v) == b;
    ProjectAppend(a + b + c, d, v);
  }

  lemma ThirdPartShown(a: Trace, b: Trace, c: Trace, d: Trace, v: View)
    requires Project(a, v) == [] && Project(b, v) == [] && Project(c, v) == c && Project(d, v) == []
    ensures Project(a + b + c + d, v) == c
  {
    ProjectAppend(a, b, v);
    assert Project(a + b, v) == [];
    ProjectAppend(a + b, c, v);
    assert Project(a + b + c, v) == c;
    ProjectAppend(a + b + c, d, v);
  }

  lemma FourthPartShown(a: Trace, b: Trace, c: Trace, d: Trace, v: View)
    requires Project(a, v) == [] && Project(b, v) == [] && Project(c, v) == [] && Project(d, v) == d
    ensures Project(a + b + c + d, v) == d
  {
    ProjectAppend(a, b, v);
    assert Project(a + b, v) == [];
    ProjectAppend(a + b, c, v);
    assert Project(a + b + c, v) == [];
    ProjectAppend(a + b + c, d, v);
  }

  lemma ProceedReplies(sender: string, msg: Msg, y: Wait, response: Opaque)
    requires msg.ExecuteProposal?
    ensures Project(Proceed(sender, msg, y, response), RepliesTo(sender)) == [Send(sender, ExecAccepted(response))]
  {
    var v := RepliesTo(sender);
    var call := BackendCall(msg.proposal, Reason(y.found));
    ProjectOne(YieldAsk(msg), v);
    ProjectRecvs(y.polls, v);
    ProjectOne(call, v);
    ProjectReply(sender, ExecAccepted(response));
    FourthPartShown([YieldAsk(msg)], Recvs(y.polls), [call], [Send(sender, ExecAccepted(response))], v);
  }

  lemma ProceedRequests(sender: string, msg: Msg, y: Wait, response: Opaque)
    requires msg.ExecuteProposal?
    ensures Project(Proceed(sender, msg, y, response), Requests) == [YieldAsk(msg)]
  {
    var v := Requests;
    var call := BackendCall(msg.proposal, Reason(y.found));
    ProjectOne(YieldAsk(msg), v);
    ProjectRecvs(y.polls, v);
    ProjectOne(call, v);
    ProjectOne(Send(sender, ExecAccepted(response)), v);
    FirstPartShown([YieldAsk(msg)], Recvs(y.polls), [call], [Send(sender, ExecAccepted(response))], v);
  }

  lemma ProceedCalls(sender: string, msg: Msg, y: Wait, response: Opaque)
    requires msg.ExecuteProposal?
    ensures Project(Proceed(sender, msg, y, response), Calls) == [BackendCall(msg.proposal, Reason(y.found))]
  {
    var v := Calls;
    var call := BackendCall(msg.proposal, Reason(y.found));
    ProjectOne(YieldAsk(msg), v);
    ProjectRecvs(y.polls, v);
    ProjectOne(call, v);
    ProjectOne(Send(sender, ExecAccepted(response)), v);
    ThirdPartShown([YieldAsk(msg)], Recvs(y.polls), [call], [Send(sender, ExecAccepted(response))], v);
  }

  lemma ProceedPolls(sender: string, msg: Msg, y: Wait, response: Opaque)
    requires msg.ExecuteProposal?
    ensures Project(Proceed(sender, msg, y, response), Polls) == Recvs(y.polls)
  {
    var v := Polls;
    var call := BackendCall(msg.proposal, Reason(y.found));
    ProjectOne(YieldAsk(msg), v);
    ProjectRecvs(y.polls, v);
    ProjectOne(call, v);
    ProjectOne(Send(sender, ExecAccepted(response)), v);
    SecondPartShown([YieldAsk(msg)], Recvs(y.polls), [call], [Send(sender, ExecAccepted(response))], v);
  }

  /** The closing of a refusal is the reply alone. */
  lemma RefusalViews(sender: string, msg: Msg, riskFound: Option<Msg>, y: Wait, response: Opaque)
    requires msg.ExecuteProposal? && GateOf(riskFound) != Cleared
    ensures var c := Closing(sender, msg, riskFound, y, response);
      && c == [Send(sender, Refusal(GateOf(riskFound)))]
      && Project(c, RepliesTo(sender)) == c
      && Project(c, Requests) == [] && Project(c, Calls) == [] && Project(c, Polls) == []
  {
    var c := Closing(sender, msg, riskFound, y, response);
    ProjectReply(sender, c[0].msg);
    ProjectOne(c[0], Requests);
    ProjectOne(c[0], Calls);
    ProjectOne(c[0], Polls);
  }

  lemma HandleSplits(sender: string, msg: Msg, inbox: seq<Option<Msg>>, response: Opaque, v: View)
    requires msg.ExecuteProposal?
    ensures var w := RiskWait(inbox);
      Project(Handle(sender, msg, inbox, response), v) ==
        Project(Opening(msg, w.polls), v) + Project(Closing(sender, msg, w.found, YieldWait(inbox), response), v)
  {
    var w := RiskWait(inbox);
    ProjectAppend(Opening(msg, w.polls), Closing(sender, msg, w.found, YieldWait(inbox), response), v);
  }

  /** Every inbound message gets exactly one reply, and it is the last event. */
  lemma ExactlyOneReply(sender: string, msg: Msg, inbox: seq<Option<Msg>>, response: Opaque)
    ensures var t := Handle(sender, msg, inbox, response);
      Project(t, RepliesTo(sender)) == [t[|t| - 1]]
  {
    if !msg.ExecuteProposal? {
      ProjectReply(sender, ErrorReply(UnknownType));
    } else {
      var w := RiskWait(inbox);
      var y := YieldWait(inbox);
      HandleSplits(sender, msg, inbox, response, RepliesTo(sender));
      OpeningSilent(sender, msg, w.polls);
      if GateOf(w.found) == Cleared {
        ProceedReplies(sender, msg, y, response);
      } else {
        RefusalViews(sender, msg, w.found, y, response);
      }
    }
  }

  /** The evaluator requests, backend calls and receive attempts of the handler:
      the yield query, the yield wait and the backend call happen exactly when the
      risk phase clears the proposal. */
  lemma Views(sender: string, msg: Msg, inbox: seq<Option<Msg>>, response: Opaque)
    requires msg.ExecuteProposal?
    ensures var t := Handle(sender, msg, inbox, response);
      var cleared := GateOf(RiskWait(inbox).found) == Cleared;
      && Project(t, Requests) == [RiskAsk(msg)] + (if cleared then [YieldAsk(msg)] else [])
      && Project(t, Calls) ==
           (if cleared then [BackendCall(msg.proposal, Reason(YieldWait(inbox).found))] else [])
      && Project(t, Polls) ==
           Recvs(RiskWait(inbox).polls) + (if cleared then Recvs(YieldWait(inbox).polls) else [])
  {
    var w := RiskWait(inbox);
    var y := YieldWait(inbox);
    HandleSplits(sender, msg, inbox, response, Requests);
    HandleSplits(sender, msg, inbox, response, Calls);
    HandleSplits(sender, msg, inbox, response, Polls);
    OpeningSilent(sender, msg, w.polls);
    OpeningActive(msg, w.polls);
    if GateOf(w.found) == Cleared {
      ProceedRequests(sender, msg, y, response);
      ProceedCalls(sender, msg, y, response);
      ProceedPolls(sender, msg, y, response);
    } else {
      RefusalViews(sender, msg, w.found, y, response);
    }
  }

  /** The last event when the risk phase does not clear the proposal. */
  lemma RefusalIsLast(sender: string, msg: Msg, inbox: seq<Option<Msg>>, response: Opaque)
    requires msg.ExecuteProposal? && GateOf(RiskWait(inbox).found) != Cleared
    ensures var t := Handle(sender, msg, inbox, response);
      t[|t| - 1] == Send(sender, Refusal(GateOf(RiskWait(inbox).found)))
  {
    var w := RiskWait(inbox);
    RefusalViews(sender, msg, w.found, YieldWait(inbox), response);
  }

  // ---------------------------------------------------------------------------
  // The gate

  /** The risk phase clears the proposal exactly when the first RISK_RESULT among
      the first twenty receives is non-empty and not HIGH. */
  lemma ClearedIff(inbox: seq<Option<Msg>>)
    ensures GateOf(RiskWait(inbox).found) == Cleared <==>
      exists k: nat :: k < MaxAttempts && FirstMatchAt(inbox, RiskResultTag, k) && Clears(Stream(inbox, k))
  {
    var w := RiskWait(inbox);
    AwaitFindsFirstMatch(inbox, RiskResultTag, MaxAttempts);
    if w.found.Some? {
      assert FirstMatchAt(inbox, RiskResultTag, |w.polls| - 1);
    }
  }

  /** The backend is called at most once, and exactly when the first RISK_RESULT
      among the first twenty receives is non-empty and not HIGH. */
  lemma BackendCalledIffSafe(sender: string, msg: Msg, inbox: seq<Option<Msg>>, response: Opaque)
    requires msg.ExecuteProposal?
    ensures var calls := Project(Handle(sender, msg, inbox, response), Calls);
      && |calls| <= 1
      && (|calls| == 1 <==>
            exists k: nat :: k < MaxAttempts && FirstMatchAt(inbox, RiskResultTag, k) && Clears(Stream(inbox, k)))
  {
    Views(sender, msg, inbox, response);
    ClearedIff(inbox);
  }

  /** The first RISK_RESULT within twenty receives is what the risk phase keeps. */
  lemma RiskWaitKeepsFirst(inbox: seq<Option<Msg>>, k: nat)
    requires k < MaxAttempts && FirstMatchAt(inbox, RiskResultTag, k)
    ensures RiskWait(inbox).found == Stream(inbox, k)
  {
    AwaitFindsFirstMatch(inbox, RiskResultTag, MaxAttempts);
  }

  /** Fail closed on a HIGH verdict: the proposal is rejected with the verdict's
      evidence, and neither the yield agent nor the backend is contacted. */
  lemma HighVerdictRejects(sender: string, msg: Msg, inbox: seq<Option<Msg>>, response: Opaque, k: nat, report: RiskReport)
    requires msg.ExecuteProposal?
    requires k < MaxAttempts && FirstMatchAt(inbox, RiskResultTag, k)
    requires Stream(inbox, k) == Some(RiskResult(report)) && report.level == Some("HIGH")
    ensures var t := Handle(sender, msg, inbox, response);
      && t[|t| - 1] == Send(sender, ExecRejected(RiskHigh, report.evidence))
      && Project(t, Calls) == []
      && Project(t, Requests) == [Send(RiskAgentAddr, RiskAssess(msg.portfolio))]
  {
    RiskWaitKeepsFirst(inbox, k);
    RefusalIsLast(sender, msg, inbox, response);
    Views(sender, msg, inbox, response);
  }

  /** Fail closed on silence: without a RISK_RESULT in twenty receives the sender
      gets the timeout error after exactly twenty attempts, and nothing else is
      contacted. */
  lemma NoVerdictTimesOut(sender: string, msg: Msg, inbox: seq<Option<Msg>>, response: Opaque)
    requires msg.ExecuteProposal?
    requires forall i :: 0 <= i < MaxAttempts ==> !Matches(Stream(inbox, i), RiskResultTag)
    ensures var t := Handle(sender, msg, inbox, response);
      && t[|t| - 1] == Send(sender, ErrorReply(RiskTimeout))
      && Project(t, Calls) == []
      && |Project(t, Polls)| == MaxAttempts
  {
    AwaitFoundIff(inbox, RiskResultTag, MaxAttempts);
    RefusalIsLast(sender, msg, inbox, response);
    Views(sender, msg, inbox, response);
  }

  /** An empty RISK_RESULT payload counts as no verdict. */
  lemma EmptyVerdictTimesOut(sender: string, msg: Msg, inbox: seq<Option<Msg>>, response: Opaque, k: nat)
    requires msg.ExecuteProposal?
    requires k < MaxAttempts && FirstMatchAt(inbox, RiskResultTag, k)
    requires Stream(inbox, k).value.report.IsFalsy()
    ensures var t := Handle(sender, msg, inbox, response);
      t[|t| - 1] == Send(sender, ErrorReply(RiskTimeout)) && Project(t, Calls) == []
  {
    RiskWaitKeepsFirst(inbox, k);
    RefusalIsLast(sender, msg, inbox, response);
    Views(sender, msg, inbox, response);
  }

  /** What the yield phase sees is the bus after the risk phase's receives. */
  lemma YieldPhaseStream(inbox: seq<Option<Msg>>, i: nat)
    ensures Stream(RiskWait(inbox).rest, i) == Stream(inbox, |RiskWait(inbox).polls| + i)
  {
    RestIsShifted(inbox, RiskResultTag, MaxAttempts, RiskWait(inbox), i);
  }

  /** A YIELD_RESULT the yield phase can see is one the bus delivers after the
      risk phase's receives, and conversely. */
  lemma YieldWitnessForward(inbox: seq<Option<Msg>>, i: nat)
    requires i < MaxAttempts && Matches(Stream(RiskWait(inbox).rest, i), YieldResultTag)
    ensures var n := |RiskWait(inbox).polls|;
      n <= n + i < n + MaxAttempts && Matches(Stream(inbox, n + i), YieldResultTag)
  {
    YieldPhaseStream(inbox, i);
  }

  lemma YieldWitnessBack(inbox: seq<Option<Msg>>, j: nat)
    requires var n := |RiskWait(inbox).polls|;
      n <= j < n + MaxAttempts && Matches(Stream(inbox, j), YieldResultTag)
    ensures var n := |RiskWait(inbox).polls|;
      0 <= j - n < MaxAttempts && Matches(Stream(RiskWait(inbox).rest, j - n), YieldResultTag)
  {
    YieldPhaseStream(inbox, j - |RiskWait(inbox).polls|);
  }

  /** The yield phase finds a YIELD_RESULT exactly when one arrives within the
      twenty receives after the risk phase's. */
  lemma YieldFoundIff(inbox: seq<Option<Msg>>)
    ensures var n := |RiskWait(inbox).polls|;
      YieldWait(inbox).found.Some? <==>
        exists j :: n <= j < n + MaxAttempts && Matches(Stream(inbox, j), YieldResultTag)
  {
    var n := |RiskWait(inbox).polls|;
    var rest := RiskWait(inbox).rest;
    AwaitFoundIff(rest, YieldResultTag, MaxAttempts);
    if YieldWait(inbox).found.Some? {
      var i :| 0 <= i < MaxAttempts && Matches(Stream(rest, i), YieldResultTag);
      YieldWitnessForward(inbox, i);
    }
    if exists j :: n <= j < n + MaxAttempts && Matches(Stream(inbox, j), YieldResultTag) {
      var j :| n <= j < n + MaxAttempts && Matches(Stream(inbox, j), YieldResultTag);
      YieldWitnessBack(inbox, j);
    }
  }

  /** The last event once the risk phase clears the proposal. */
  lemma AcceptIsLast(sender: string, msg: Msg, inbox: seq<Option<Msg>>, response: Opaque)
    requires msg.ExecuteProposal? && GateOf(RiskWait(inbox).found) == Cleared
    ensures var t := Handle(sender, msg, inbox, response);
      t[|t| - 1] == Send(sender, ExecAccepted(response))
  {
  }

  /** Fail open on the yield agent: once cleared, the backend is always called,
      once, with the proposal and reason "ok" exactly when a YIELD_RESULT arrives
      within twenty receives after the risk verdict ("no_yield_info" otherwise),
      and the sender gets the backend's response. */
  lemma YieldReasonIff(sender: string, msg: Msg, inbox: seq<Option<Msg>>, response: Opaque)
    requires msg.ExecuteProposal? && GateOf(RiskWait(inbox).found) == Cleared
    ensures var t := Handle(sender, msg, inbox, response);
      var n := |RiskWait(inbox).polls|;
      var yieldSeen := exists j :: n <= j < n + MaxAttempts && Matches(Stream(inbox, j), YieldResultTag);
      && t[|t| - 1] == Send(sender, ExecAccepted(response))
      && Project(t, Calls) == [BackendCall(msg.proposal, if yieldSeen then YieldOk else NoYieldInfo)]
  {
    AcceptIsLast(sender, msg, inbox, response);
    Views(sender, msg, inbox, response);
    YieldFoundIff(inbox);
  }

  lemma OpeningHasNoCall(msg: Msg, riskPolls: seq<Option<Msg>>, i: nat)
    requires msg.ExecuteProposal? && i < |Opening(msg, riskPolls)|
    ensures !Opening(msg, riskPolls)[i].BackendCall?
  {
    var o := Opening(msg, riskPolls);
    assert forall k :: 0 < k < |o| ==> o[k] == Recvs(riskPolls)[k - 1];
  }

  /** The opening ends with the risk phase's last receive. */
  lemma OpeningEndsWithLastPoll(msg: Msg, riskPolls: seq<Option<Msg>>)
    requires msg.ExecuteProposal? && |riskPolls| > 0
    ensures var o := Opening(msg, riskPolls);
      o[|o| - 1] == Recv(riskPolls[|riskPolls| - 1])
  {
  }

  lemma ProceedCallIsSecondToLast(sender: string, msg: Msg, y: Wait, response: Opaque, m: nat)
    requires msg.ExecuteProposal?
    requires m < |Proceed(sender, msg, y, response)| && Proceed(sender, msg, y, response)[m].BackendCall?
    ensures m == |Proceed(sender, msg, y, response)| - 2
  {
    var p := Proceed(sender, msg, y, response);
    assert forall k :: 0 < k <= |y.polls| ==> p[k] == Recvs(y.polls)[k - 1];
  }

  /** A backend call lies in the flow that follows clearance. */
  lemma CallOnlyWhenCleared(sender: string, msg: Msg, inbox: seq<Option<Msg>>, response: Opaque, i: nat)
    requires i < |Handle(sender, msg, inbox, response)| && Handle(sender, msg, inbox, response)[i].BackendCall?
    ensures msg.ExecuteProposal? && GateOf(RiskWait(inbox).found) == Cleared
    ensures var o := Opening(msg, RiskWait(inbox).polls);
      && |o| <= i
      && Handle(sender, msg, inbox, response) == o + Proceed(sender, msg, YieldWait(inbox), response)
  {
    var w := RiskWait(inbox);
    var o := Opening(msg, w.polls);
    var c := Closing(sender, msg, w.found, YieldWait(inbox), response);
    if i < |o| {
      OpeningHasNoCall(msg, w.polls, i);
      assert false;
    }
    assert c[i - |o|].BackendCall?;
  }

  /** A clearing verdict is the last thing the risk phase received. */
  lemma OpeningEndsWithVerdict(msg: Msg, inbox: seq<Option<Msg>>, o: Trace, report: RiskReport)
    requires msg.ExecuteProposal? && o == Opening(msg, RiskWait(inbox).polls)
    requires RiskWait(inbox).found == Some(RiskResult(report))
    ensures 1 <= |o| && o[|o| - 1] == Recv(Some(RiskResult(report)))
  {
    var w := RiskWait(inbox);
    assert w.polls[|w.polls| - 1] == Stream(inbox, |w.polls| - 1) == w.found;
    OpeningEndsWithLastPoll(msg, w.polls);
  }

  /** A trace that starts with a phase ending in a clearing verdict shows that
      verdict before every later position. */
  lemma VerdictCarriedOver(o: Trace, p: Trace, i: nat, report: RiskReport)
    requires 1 <= |o| <= i < |o + p| && o[|o| - 1] == Recv(Some(RiskResult(report))) && Safe(report)
    ensures exists j, r :: 0 <= j < i && (o + p)[j] == Recv(Some(RiskResult(r))) && Safe(r)
  {
    assert (o + p)[|o| - 1] == o[|o| - 1];
  }

  /** The backend call comes after the receive of a clearing RISK_RESULT, and only
      the reply follows it. */
  lemma BackendAfterVerdict(sender: string, msg: Msg, inbox: seq<Option<Msg>>, response: Opaque, i: nat)
    requires i < |Handle(sender, msg, inbox, response)| && Handle(sender, msg, inbox, response)[i].BackendCall?
    ensures var t := Handle(sender, msg, inbox, response);
      && i == |t| - 2
      && exists j, report :: 0 <= j < i && t[j] == Recv(Some(RiskResult(report))) && Safe(report)
  {
    CallOnlyWhenCleared(sender, msg, inbox, response, i);
    var w := RiskWait(inbox);
    var o := Opening(msg, w.polls);
    var p := Proceed(sender, msg, YieldWait(inbox), response);
    ProceedCallIsSecondToLast(sender, msg, YieldWait(inbox), response, i - |o|);
    var report := w.found.value.report;
    OpeningEndsWithVerdict(msg, inbox, o, report);
    VerdictCarriedOver(o, p, i, report);
  }
}
