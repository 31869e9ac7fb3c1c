/** The coordinator agent's CHAT handler: classify the text by keyword, ask one
    evaluator, wait for a single reply, and answer the sender with one CHAT_REPLY. */
module Coordinator {
  import opened Wrappers
  import opened Text
  import opened MettaShim
  import opened YieldRanking
  import opened Bus
  import opened Collector

  /** The evaluator a CHAT is routed to. */
  datatype Intent = AskRisk | AskYield | Fallback

  /** Fixed precedence on the lower-cased text: "risk", then "yield", then the
      risk agent as the default. */
  function Classify(text: string): Intent {
    if Contains(text, "risk") then AskRisk
    else if Contains(text, "yield") then AskYield
    else Fallback
  }

  const RiskTimedOut: string := "Risk agent timed out."
  const YieldTimedOut: string := "Yield agent timed out."
  const CouldNotProcess: string := "I could not process your request."

  /** How many ranked entries the yield reply lists. */
  const ShownEntries: nat := 3

  function RiskText(report: RiskReport): string {
    "Portfolio risk: " + OptText(report.level) + ". Evidence: " + OptListRepr(report.evidence)
  }

  function GuessText(report: RiskReport): string {
    "I couldn't parse your intent exactly. Best guess: Portfolio risk is " + OptText(report.level)
  }

  /** f-string rendering of an optional number. */
  function OptRealText(showReal: real -> string, o: Option<real>): string {
    match o
    case Some(x) => showReal(x)
    case None => "None"
  }

  /** `protocol(@apy%)` of one ranked entry, an absent key shown as `None`. */
  function EntryText(showReal: real -> string, r: Listing): string {
    OptText(r.protocol) + "(@" + OptRealText(showReal, r.apy) + "%)"
  }

  function EntryTexts(showReal: real -> string, rs: seq<Listing>): (ts: seq<string>)
    ensures |ts| == |rs|
    ensures forall i :: 0 <= i < |rs| ==> ts[i] == EntryText(showReal, rs[i])
  {
    if |rs| == 0 then [] else [EntryText(showReal, rs[0])] + EntryTexts(showReal, rs[1..])
  }

  /** `ranked[:3]`. */
  function Shown(ranked: seq<Listing>): (s: seq<Listing>)
    ensures |s| == Min(ShownEntries, |ranked|)
    ensures s == ranked[..|s|]
  {
    ranked[..Min(ShownEntries, |ranked|)]
  }

  function YieldText(showReal: real -> string, ranked: seq<Listing>): string {
    "Top yield opportunities: " + Join(", ", EntryTexts(showReal, Shown(ranked)))
  }

  /** The reply when the risk agent was asked because the text mentions "risk". */
  function RiskReply(res: Option<Msg>): Msg {
    if Matches(res, RiskResultTag) then ChatReply(RiskText(res.value.report), ReportMeta(res.value.report))
    else ChatReply(RiskTimedOut, NoMeta)
  }

  /** The reply when the yield agent was asked; `meta` carries the full ranked list. */
  function YieldReply(showReal: real -> string, res: Option<Msg>): Msg {
    if Matches(res, YieldResultTag) then
      var ranked := res.value.ranked.GetOr([]);
      ChatReply(YieldText(showReal, ranked), RankedMeta(ranked))
    else ChatReply(YieldTimedOut, NoMeta)
  }

  /** The reply when the risk agent was asked as the fallback. */
  function FallbackReply(res: Option<Msg>): Msg {
    if Matches(res, RiskResultTag) then ChatReply(GuessText(res.value.report), ReportMeta(res.value.report))
    else ChatReply(CouldNotProcess, NoMeta)
  }

  /** The branch a CHAT takes, decided on its lower-cased text. */
  function Route(msg: Msg): Intent
    requires msg.Chat?
  {
    Classify(Lower(msg.text.GetOr("")))
  }

  /** The one evaluator request a CHAT causes: the portfolio defaults to the empty
      one and the market to the empty list. */
  function Request(msg: Msg): Event
    requires msg.Chat?
  {
    if Route(msg) == AskYield then Send(YieldAgentAddr, YieldQuery(Some(msg.market.GetOr([]))))
    else Send(RiskAgentAddr, RiskAssess(Some(msg.portfolio.GetOr(EmptyPortfolio))))
  }

  /** The CHAT_REPLY built from what the single receive returned. */
  function Reply(showReal: real -> string, msg: Msg, res: Option<Msg>): Msg
    requires msg.Chat?
  {
    match Route(msg)
    case AskRisk => RiskReply(res)
    case AskYield => YieldReply(showReal, res)
    case Fallback => FallbackReply(res)
  }

  /** `handle`, with the yield reply rendered so that it cannot fail (see
      `HandleAsWritten` for the original's behaviour on entries without
      `protocol` or `apy`).  The bus delivers `inbox`; one receive is made. */
  function Handle(showReal: real -> string, sender: string, msg: Msg, inbox: seq<Option<Msg>>): (t: Trace)
    ensures |t| >= 1 && t[|t| - 1].Send? && t[|t| - 1].to == sender
    ensures !msg.Chat? ==> t == [Send(sender, ErrorReply(UnknownType))]
    ensures msg.Chat? ==> |t| == 3 && t[1] == Recv(Stream(inbox, 0)) && t[2].msg.ChatReply?
    ensures msg.Chat? ==> t[0].Send? && IsRequest(t[0].msg) && t[0].to in {RiskAgentAddr, YieldAgentAddr}
  {
    if !msg.Chat? then [Send(sender, ErrorReply(UnknownType))]
    else
      var res := Stream(inbox, 0);
      [Request(msg), Recv(res), Send(sender, Reply(showReal, msg, res))]
  }

  // ---------------------------------------------------------------------------
  // Routing and reply properties

  lemma ProjectThree(a: Event, b: Event, c: Event, v: View)
    ensures Project([a, b, c], v) ==
      (if Shows(v, a) then [a] else []) + (if Shows(v, b) then [b] else []) + (if Shows(v, c) then [c] else [])
  {
    assert [a, b, c] == [a] + [b] + [c];
    ProjectAppend([a] + [b], [c], v);
    ProjectAppend([a], [b], v);
    ProjectOne(a, v);
    ProjectOne(b, v);
    ProjectOne(c, v);
  }

  /** Every inbound message gets exactly one reply, the last event; a CHAT makes
      exactly one receive attempt and sends exactly one evaluator request. */
  lemma ExactlyOneReply(showReal: real -> string, sender: string, msg: Msg, inbox: seq<Option<Msg>>)
    ensures var t := Handle(showReal, sender, msg, inbox);
      Project(t, RepliesTo(sender)) == [t[|t| - 1]]
    ensures var t := Handle(showReal, sender, msg, inbox);
      msg.Chat? ==> Project(t, Polls) == [Recv(Stream(inbox, 0))] && |Project(t, Requests)| == 1
    ensures !msg.Chat? ==> Project(Handle(showReal, sender, msg, inbox), Requests) == []
  {
    var t := Handle(showReal, sender, msg, inbox);
    if msg.Chat? {
      ProjectThree(t[0], t[1], t[2], RepliesTo(sender));
      ProjectThree(t[0], t[1], t[2], Polls);
      ProjectThree(t[0], t[1], t[2], Requests);
    } else {
      ProjectOne(t[0], RepliesTo(sender));
      ProjectOne(t[0], Requests);
    }
  }

  /** "risk" in the lower-cased text sends RISK_ASSESS only, even if "yield"
      appears too. */
  lemma RiskTakesPrecedence(showReal: real -> string, sender: string, msg: Msg, inbox: seq<Option<Msg>>)
    requires msg.Chat? && Contains(Lower(msg.text.GetOr("")), "risk")
    ensures Project(Handle(showReal, sender, msg, inbox), Requests) ==
      [Send(RiskAgentAddr, RiskAssess(Some(msg.portfolio.GetOr(EmptyPortfolio))))]
  {
    var t := Handle(showReal, sender, msg, inbox);
    ProjectThree(t[0], t[1], t[2], Requests);
  }

  /** Without "risk" but with "yield", only YIELD_QUERY is sent, with the CHAT's
      market (an empty list when absent). */
  lemma YieldWithoutRisk(showReal: real -> string, sender: string, msg: Msg, inbox: seq<Option<Msg>>)
    requires msg.Chat? && !Contains(Lower(msg.text.GetOr("")), "risk")
    requires Contains(Lower(msg.text.GetOr("")), "yield")
    ensures Project(Handle(showReal, sender, msg, inbox), Requests) ==
      [Send(YieldAgentAddr, YieldQuery(Some(msg.market.GetOr([]))))]
  {
    var t := Handle(showReal, sender, msg, inbox);
    ProjectThree(t[0], t[1], t[2], Requests);
  }

  /** With neither keyword, the risk agent is asked as the default. */
  lemma FallbackAsksRisk(showReal: real -> string, sender: string, msg: Msg, inbox: seq<Option<Msg>>)
    requires msg.Chat?
    requires !Contains(Lower(msg.text.GetOr("")), "risk") && !Contains(Lower(msg.text.GetOr("")), "yield")
    ensures Project(Handle(showReal, sender, msg, inbox), Requests) ==
      [Send(RiskAgentAddr, RiskAssess(Some(msg.portfolio.GetOr(EmptyPortfolio))))]
  {
    var t := Handle(showReal, sender, msg, inbox);
    ProjectThree(t[0], t[1], t[2], Requests);
  }

  /** A reply counts only if it has the expected type; otherwise the fixed
      timeout text of the routed branch is sent, with no `meta`. */
  lemma TimeoutTexts(showReal: real -> string, sender: string, msg: Msg, inbox: seq<Option<Msg>>)
    requires msg.Chat?
    ensures var text := Lower(msg.text.GetOr(""));
      var last := Handle(showReal, sender, msg, inbox)[2].msg;
      && (Classify(text) == AskRisk && !Matches(Stream(inbox, 0), RiskResultTag) ==>
            last == ChatReply(RiskTimedOut, NoMeta))
      && (Classify(text) == AskYield && !Matches(Stream(inbox, 0), YieldResultTag) ==>
            last == ChatReply(YieldTimedOut, NoMeta))
      && (Classify(text) == Fallback && !Matches(Stream(inbox, 0), RiskResultTag) ==>
            last == ChatReply(CouldNotProcess, NoMeta))
      && (last.meta.NoMeta? <==>
            !Matches(Stream(inbox, 0), if Classify(text) == AskYield then YieldResultTag else RiskResultTag))
  {
  }

  /** A RISK_RESULT answer is passed on as `meta`. The text states its level,
      then its evidence list, and starts with the level. */
  lemma RiskAnswerForwarded(showReal: real -> string, sender: string, msg: Msg, inbox: seq<Option<Msg>>, report: RiskReport)
    requires msg.Chat? && Contains(Lower(msg.text.GetOr("")), "risk")
    requires Stream(inbox, 0) == Some(RiskResult(report))
    ensures Handle(showReal, sender, msg, inbox)[2].msg.meta == ReportMeta(report)
    ensures Handle(showReal, sender, msg, inbox)[2].msg.reply ==
      "Portfolio risk: " + OptText(report.level) + ". Evidence: " + OptListRepr(report.evidence)
    ensures IsPrefix("Portfolio risk: " + OptText(report.level),
                     Handle(showReal, sender, msg, inbox)[2].msg.reply)
  {
    var head := "Portfolio risk: " + OptText(report.level);
    var s := RiskText(report);
    assert s == head + (". Evidence: " + OptListRepr(report.evidence));
    assert s[..|head|] == head;
  }

  /** Outside both keywords, a RISK_RESULT answer still yields a best guess
      naming its level, with the report passed on as `meta`. */
  lemma FallbackAnswerForwarded(showReal: real -> string, sender: string, msg: Msg, inbox: seq<Option<Msg>>, report: RiskReport)
    requires msg.Chat? && !Contains(Lower(msg.text.GetOr("")), "risk")
    requires !Contains(Lower(msg.text.GetOr("")), "yield")
    requires Stream(inbox, 0) == Some(RiskResult(report))
    ensures Handle(showReal, sender, msg, inbox)[2].msg.meta == ReportMeta(report)
    ensures Handle(showReal, sender, msg, inbox)[2].msg.reply ==
      "I couldn't parse your intent exactly. Best guess: Portfolio risk is " + OptText(report.level)
  {
  }

  /** The yield reply lists the first three ranked entries in order, while
      `meta` carries the whole ranked list. */
  lemma YieldReplyListsTopThree(showReal: real -> string, sender: string, msg: Msg, inbox: seq<Option<Msg>>, ranked: seq<Listing>)
    requires msg.Chat? && !Contains(Lower(msg.text.GetOr("")), "risk")
    requires Contains(Lower(msg.text.GetOr("")), "yield")
    requires Stream(inbox, 0) == Some(YieldResult(Some(ranked)))
    ensures var reply := Handle(showReal, sender, msg, inbox)[2].msg;
      && reply.meta == RankedMeta(ranked)
      && reply.reply == "Top yield opportunities: " + Join(", ", EntryTexts(showReal, Shown(ranked)))
    ensures |EntryTexts(showReal, Shown(ranked))| == Min(ShownEntries, |ranked|)
    ensures forall i :: 0 <= i < Min(ShownEntries, |ranked|) ==>
      EntryTexts(showReal, Shown(ranked))[i] == EntryText(showReal, ranked[i])
  {
  }

  /** "what is my risk" goes to the risk agent only. */
  lemma WhatIsMyRisk(showReal: real -> string, msg: Msg, inbox: seq<Option<Msg>>)
    requires msg == Chat(Some("what is my risk"), None, None)
    ensures Project(Handle(showReal, "user", msg, inbox), Requests) ==
      [Send(RiskAgentAddr, RiskAssess(Some(EmptyPortfolio)))]
  {
    WhatIsMyRiskRoute(msg);
    RiskTakesPrecedence(showReal, "user", msg, inbox);
  }

  // ---------------------------------------------------------------------------
  // The handler as written: `r['protocol']` and `r['apy']` raise on a ranked
  // entry that lacks either key, and the handler ends without replying.

  /** `protocol(@apy%)`, or `None` when the subscripting raises. */
  function EntryTextAsWritten(showReal: real -> string, r: Listing): Option<string> {
    if r.protocol.None? || r.apy.None? then None
    else Some(r.protocol.value + "(@" + showReal(r.apy.value) + "%)")
  }

  function EntryTextsAsWritten(showReal: real -> string, rs: seq<Listing>): (o: Option<seq<string>>)
    ensures o.None? <==> exists i :: 0 <= i < |rs| && (rs[i].protocol.None? || rs[i].apy.None?)
    ensures o.Some? ==> o.value == EntryTexts(showReal, rs)
  {
    if |rs| == 0 then Some([])
    else
      match EntryTextAsWritten(showReal, rs[0])
      case None => None
      case Some(first) =>
        match EntryTextsAsWritten(showReal, rs[1..])
        case None =>
          var i :| 0 <= i < |rs[1..]| && (rs[1..][i].protocol.None? || rs[1..][i].apy.None?);
          assert rs[i + 1] == rs[1..][i];
          None
        case Some(rest) => Some([first] + rest)
  }

  /** The original handler: identical to `Handle` except that a YIELD_RESULT whose
      first three entries include one without `protocol` or `apy` aborts the flow
      after the receive, before any reply. */
  function HandleAsWritten(showReal: real -> string, sender: string, msg: Msg, inbox: seq<Option<Msg>>): (t: Trace)
    ensures var fixed := Handle(showReal, sender, msg, inbox);
      t == fixed || t == fixed[..|fixed| - 1]
  {
    var fixed := Handle(showReal, sender, msg, inbox);
    if Aborts(showReal, msg, Stream(inbox, 0)) then fixed[..|fixed| - 1] else fixed
  }

  /** The original raises while rendering the reply to this receive. */
  predicate Aborts(showReal: real -> string, msg: Msg, res: Option<Msg>) {
    && msg.Chat? && Route(msg) == AskYield && Matches(res, YieldResultTag)
    && EntryTextsAsWritten(showReal, Shown(res.value.ranked.GetOr([]))).None?
  }

  lemma YieldWordRoutesToYield()
    ensures Route(Chat(Some("yield"), None, None)) == AskYield
  {
    LowerUnchanged("yield");
    assert !IsPrefix("risk", "yield") && "yield"[1..] == "ield";
    assert !IsPrefix("risk", "ield") && "ield"[1..] == "eld";
    ContainsNeedsRoom("eld", "risk");
    assert IsPrefix("yield", "yield");
  }

  /** A ranked entry without `apy`, as the yield agent passes on for a market item
      without one, leaves the original handler without a reply; the corrected
      handler still replies once. */
  lemma AsWrittenCanDropReply(showReal: real -> string, msg: Msg, item: Listing, inbox: seq<Option<Msg>>)
    requires msg == Chat(Some("yield"), None, None)
    requires item == Listing(Some("Aave"), None, Some(0.1), None, map[])
    requires inbox == [Some(YieldResult(Some(Rank([item]))))]
    ensures Project(HandleAsWritten(showReal, "user", msg, inbox), RepliesTo("user")) == []
    ensures |Project(Handle(showReal, "user", msg, inbox), RepliesTo("user"))| == 1
  {
    ExampleAborts(showReal, msg, item, inbox);
    AbortSendsNoReply(showReal, "user", msg, inbox);
    ExactlyOneReply(showReal, "user", msg, inbox);
  }

  /** Whenever the original aborts, the sender gets no reply at all: the request
      and the receive are all it leaves behind. */
  lemma AbortSendsNoReply(showReal: real -> string, sender: string, msg: Msg, inbox: seq<Option<Msg>>)
    requires Aborts(showReal, msg, Stream(inbox, 0))
    ensures Project(HandleAsWritten(showReal, sender, msg, inbox), RepliesTo(sender)) == []
  {
    var t := Handle(showReal, sender, msg, inbox);
    assert HandleAsWritten(showReal, sender, msg, inbox) == [t[0]] + [t[1]];
    ProjectAppend([t[0]], [t[1]], RepliesTo(sender));
    ProjectOne(t[0], RepliesTo(sender));
    ProjectOne(t[1], RepliesTo(sender));
  }

  lemma ExampleAborts(showReal: real -> string, msg: Msg, item: Listing, inbox: seq<Option<Msg>>)
    requires msg == Chat(Some("yield"), None, None)
    requires item == Listing(Some("Aave"), None, Some(0.1), None, map[])
    requires inbox == [Some(YieldResult(Some(Rank([item]))))]
    ensures Aborts(showReal, msg, Stream(inbox, 0))
  {
    var ranked := Rank([item]);
    YieldWordRoutesToYield();
    RankEntriesAreScoredInputs([item]);
    assert |ranked| == 1 && ranked[0] == WithScore(item);
    var shown := Shown(ranked);
    assert shown[0] == ranked[0] && shown[0].apy.None?;
    assert EntryTextsAsWritten(showReal, shown).None?;
    assert Stream(inbox, 0) == Some(YieldResult(Some(ranked)));
    YieldResultMatches(ranked);
  }

  lemma YieldResultMatches(ranked: seq<Listing>)
    ensures Matches(Some(YieldResult(Some(ranked))), YieldResultTag)
  {
  }

  lemma CompleteEntriesRender(showReal: real -> string, ranked: seq<Listing>)
    requires forall i :: 0 <= i < Min(ShownEntries, |ranked|) ==> ranked[i].protocol.Some? && ranked[i].apy.Some?
    ensures EntryTextsAsWritten(showReal, Shown(ranked)).Some?
  {
    var shown := Shown(ranked);
    forall i | 0 <= i < |shown| ensures shown[i].protocol.Some? && shown[i].apy.Some? {
      assert shown[i] == ranked[i];
    }
  }

  /** Where no listed entry lacks `protocol` or `apy`, the original's trace is the
      corrected handler's. */
  lemma AsWrittenAgreesWhenEntriesComplete(showReal: real -> string, sender: string, msg: Msg, inbox: seq<Option<Msg>>)
    requires Matches(Stream(inbox, 0), YieldResultTag) ==>
      var r := Stream(inbox, 0).value.ranked.GetOr([]);
      forall i :: 0 <= i < Min(ShownEntries, |r|) ==> r[i].protocol.Some? && r[i].apy.Some?
    ensures HandleAsWritten(showReal, sender, msg, inbox) == Handle(showReal, sender, msg, inbox)
  {
    var res := Stream(inbox, 0);
    if Matches(res, YieldResultTag) {
      CompleteEntriesRender(showReal, res.value.ranked.GetOr([]));
    }
  }

  lemma WhatIsMyRiskRoute(msg: Msg)
    requires msg == Chat(Some("what is my risk"), None, None)
    ensures Route(msg) == AskRisk
  {
    RiskWordRoutes(msg, "what is my risk", 11);
  }

  /** Lower-case text with "risk" at position `i` routes to the risk agent. */
  lemma RiskWordRoutes(msg: Msg, text: string, i: nat)
    requires msg.Chat? && msg.text == Some(text)
    requires forall j :: 0 <= j < |text| ==> !IsUpper(text[j])
    requires i <= |text| && IsPrefix("risk", text[i..])
    ensures Route(msg) == AskRisk
  {
    LowerUnchanged(text);
    ContainsAt(text, "risk", i);
  }
}
