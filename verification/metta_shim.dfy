/** The rule evaluation engine (`MettaShim.assess_portfolio`): holdings × rules →
    a risk level with an ordered evidence trail.  The rule table, read from a JSON
    file by the original constructor, is a parameter here. */
module MettaShim {
  import opened Wrappers
  import opened Text

  /** Aggregate volatility above this forces HIGH. */
  const AggregateThreshold: real := 0.18

  datatype Level = Low | Medium | High {
    /** The wire string of the level. */
    function Name(): string {
      match this
      case Low => "LOW"
      case Medium => "MEDIUM"
      case High => "HIGH"
    }

    /** Priority: HIGH > MEDIUM > LOW. */
    function Rank(): nat {
      match this
      case Low => 0
      case Medium => 1
      case High => 2
    }
  }

  function Max(a: Level, b: Level): (m: Level)
    ensures m.Rank() >= a.Rank() && m.Rank() >= b.Rank()
    ensures m == a || m == b
  {
    if a.Rank() >= b.Rank() then a else b
  }

  /** A holding; a `None` field is a key absent from the holding's dictionary. */
  datatype Holding = Holding(
    symbol: Option<string>,
    fraction: Option<real>,
    volatility: Option<real>,
    liquidityRatio: Option<real>)

  datatype Aggregates = Aggregates(volatility: Option<real>)

  /** A portfolio summary.  `extraKeys` counts keys the engine never reads; they
      matter only for the dictionary's truthiness. */
  datatype Portfolio = Portfolio(
    holdings: Option<seq<Holding>>,
    aggregates: Option<Aggregates>,
    extraKeys: nat)
  {
    /** The empty dictionary `{}`, the only falsy portfolio. */
    predicate IsFalsy() {
      holdings.None? && aggregates.None? && extraKeys == 0
    }

    function Holdings(): seq<Holding> {
      holdings.GetOr([])
    }

    function AggregateVolatility(): real {
      match aggregates
      case None => 0.0
      case Some(a) => a.volatility.GetOr(0.0)
    }
  }

  const EmptyPortfolio: Portfolio := Portfolio(None, None, 0)

  /** `{type, field, value}` of a rule's condition, kept as the strings of the rule table. */
  datatype Condition = Condition(kind: string, field: string, value: real)

  /** `{risk, explanation}` of a rule's effect; either key may be absent. */
  datatype Effect = Effect(risk: Option<string>, explanation: Option<string>)

  datatype Rule = Rule(condition: Condition, effect: Effect)

  /** Whether a condition matches a holding.  Three independent tests each may set
      the flag; the missing-field defaults are fraction 0, volatility 0 and
      liquidity ratio 1.0. */
  function Fires(h: Holding, c: Condition): (ok: bool)
    ensures ok <==>
      || (c.kind == "gt" && c.field == "volatility" && h.volatility.GetOr(0.0) > c.value)
      || (c.kind == "lt" && c.field == "liquidity_ratio" && h.liquidityRatio.GetOr(1.0) < c.value)
      || (c.kind == "gt" && c.field == "holding_fraction" && h.fraction.GetOr(0.0) > c.value)
  {
    var fraction := h.fraction.GetOr(0.0);
    var vol := h.volatility.GetOr(0.0);
    var liq := h.liquidityRatio.GetOr(1.0);
    var ok0 := false;
    var ok1 := if c.kind == "gt" && c.field == "volatility" then vol > c.value else ok0;
    var ok2 := if c.kind == "lt" && c.field == "liquidity_ratio" then liq < c.value else ok1;
    if c.kind == "gt" && c.field == "holding_fraction" then fraction > c.value else ok2
  }

  /** The level an effect's `risk` asks for; an absent or unrecognised risk asks for nothing. */
  function Requested(risk: Option<string>): Level {
    if risk == Some("HIGH") then High
    else if risk == Some("MEDIUM") then Medium
    else Low
  }

  /** One priority update after a match: the level never goes down, and only a
      HIGH or MEDIUM effect can raise it. */
  function Bump(highest: Level, risk: Option<string>): (r: Level)
    ensures r == Max(highest, Requested(risk))
    ensures r.Rank() >= highest.Rank()
    ensures Requested(risk) == Low ==> r == highest
  {
    var level := risk.GetOr("LOW");
    if level == "HIGH" then High
    else if level == "MEDIUM" && highest != High then Medium
    else highest
  }

  function EvidenceLine(h: Holding, e: Effect): string {
    OptText(h.symbol) + " -> " + OptText(e.explanation)
  }

  /** The aggregate evidence line; Python's float formatting is the parameter `showReal`. */
  function AggregateLine(showReal: real -> string, vol: real): string {
    "Portfolio aggregate volatility " + showReal(vol) + " > 0.18"
  }

  // ---------------------------------------------------------------------------
  // Reference definitions: what the loops accumulate, stated without an accumulator.

  /** One evidence line per rule that fires on `h`, in rule order. */
  function RuleLines(h: Holding, rules: seq<Rule>): seq<string> {
    if |rules| == 0 then []
    else
      (if Fires(h, rules[0].condition) then [EvidenceLine(h, rules[0].effect)] else [])
      + RuleLines(h, rules[1..])
  }

  /** Holding-major, then rule order; no deduplication. */
  function HitLines(hs: seq<Holding>, rules: seq<Rule>): seq<string> {
    if |hs| == 0 then [] else RuleLines(hs[0], rules) + HitLines(hs[1..], rules)
  }

  /** The highest level requested by a rule that fires on `h`. */
  function RuleWorst(h: Holding, rules: seq<Rule>): Level {
    if |rules| == 0 then Low
    else
      Max(if Fires(h, rules[0].condition) then Requested(rules[0].effect.risk) else Low,
          RuleWorst(h, rules[1..]))
  }

  function Worst(hs: seq<Holding>, rules: seq<Rule>): Level {
    if |hs| == 0 then Low else Max(RuleWorst(hs[0], rules), Worst(hs[1..], rules))
  }

  /** Some rule whose effect risk is `risk` fires on `h`. */
  ghost predicate RuleHit(h: Holding, rules: seq<Rule>, risk: string) {
    exists j :: 0 <= j < |rules| && Fires(h, rules[j].condition) && rules[j].effect.risk == Some(risk)
  }

  /** Some (holding, rule) pair with effect risk `risk` matches. */
  ghost predicate Hit(hs: seq<Holding>, rules: seq<Rule>, risk: string) {
    exists i :: 0 <= i < |hs| && RuleHit(hs[i], rules, risk)
  }

  // ---------------------------------------------------------------------------
  // The engine, following the nested loops of the original.

  datatype Acc = Acc(highest: Level, evidence: seq<string>)

  function ApplyRule(acc: Acc, h: Holding, rule: Rule): Acc {
    if Fires(h, rule.condition) then
      Acc(Bump(acc.highest, rule.effect.risk), acc.evidence + [EvidenceLine(h, rule.effect)])
    else acc
  }

  lemma MaxAssociative(a: Level, b: Level, c: Level)
    ensures Max(Max(a, b), c) == Max(a, Max(b, c))
  {
  }

  lemma AppendAssociative(a: seq<string>, b: seq<string>, c: seq<string>)
    ensures a + b + c == a + (b + c)
  {
  }

  /** What one matching step adds. */
  lemma ApplyRuleStep(acc: Acc, h: Holding, rule: Rule)
    ensures ApplyRule(acc, h, rule).evidence ==
      acc.evidence + (if Fires(h, rule.condition) then [EvidenceLine(h, rule.effect)] else [])
    ensures ApplyRule(acc, h, rule).highest ==
      Max(acc.highest, if Fires(h, rule.condition) then Requested(rule.effect.risk) else Low)
  {
  }

  /** The inner loop over the rules for one holding. */
  function ApplyRules(acc: Acc, h: Holding, rules: seq<Rule>): (r: Acc)
    ensures r.evidence == acc.evidence + RuleLines(h, rules)
    ensures r.highest == Max(acc.highest, RuleWorst(h, rules))
    decreases |rules|
  {
    if |rules| == 0 then acc
    else
      var next := ApplyRule(acc, h, rules[0]);
      var line := if Fires(h, rules[0].condition) then [EvidenceLine(h, rules[0].effect)] else [];
      ApplyRuleStep(acc, h, rules[0]);
      MaxAssociative(acc.highest,
        if Fires(h, rules[0].condition) then Requested(rules[0].effect.risk) else Low,
        RuleWorst(h, rules[1..]));
      AppendAssociative(acc.evidence, line, RuleLines(h, rules[1..]));
      ApplyRules(next, h, rules[1..])
  }

  /** The outer loop over the holdings. */
  function ApplyHoldings(acc: Acc, hs: seq<Holding>, rules: seq<Rule>): (r: Acc)
    ensures r.evidence == acc.evidence + HitLines(hs, rules)
    ensures r.highest == Max(acc.highest, Worst(hs, rules))
    decreases |hs|
  {
    if |hs| == 0 then acc
    else
      MaxAssociative(acc.highest, RuleWorst(hs[0], rules), Worst(hs[1..], rules));
      AppendAssociative(acc.evidence, RuleLines(hs[0], rules), HitLines(hs[1..], rules));
      ApplyHoldings(ApplyRules(acc, hs[0], rules), hs[1..], rules)
  }

  datatype Verdict = Verdict(level: Level, evidence: seq<string>, raw: Portfolio)

  /** `assess_portfolio`: the evidence is every matching (holding, rule) pair in
      holding-major order followed, when aggregate volatility exceeds 0.18, by one
      aggregate line; the level is the highest requested one unless the aggregate
      override forces HIGH; the input is echoed unchanged. */
  function Assess(rules: seq<Rule>, p: Portfolio, showReal: real -> string): (v: Verdict)
    ensures v.raw == p
    ensures v.evidence ==
      HitLines(p.Holdings(), rules)
      + (if p.AggregateVolatility() > AggregateThreshold
         then [AggregateLine(showReal, p.AggregateVolatility())] else [])
    ensures v.level ==
      if p.AggregateVolatility() > AggregateThreshold then High else Worst(p.Holdings(), rules)
  {
    var acc := ApplyHoldings(Acc(Low, []), p.Holdings(), rules);
    var aggVol := p.AggregateVolatility();
    if aggVol > AggregateThreshold then
      Verdict(High, acc.evidence + [AggregateLine(showReal, aggVol)], p)
    else
      Verdict(acc.highest, acc.evidence, p)
  }

  // ---------------------------------------------------------------------------
  // Properties

  lemma {:induction false} RuleWorstCharacterised(h: Holding, rules: seq<Rule>)
    ensures RuleWorst(h, rules) == High <==> RuleHit(h, rules, "HIGH")
    ensures RuleWorst(h, rules) == Low <==> !RuleHit(h, rules, "HIGH") && !RuleHit(h, rules, "MEDIUM")
  {
    if |rules| > 0 {
      RuleWorstCharacterised(h, rules[1..]);
      forall risk: string | RuleHit(h, rules, risk)
        ensures (Fires(h, rules[0].condition) && rules[0].effect.risk == Some(risk)) || RuleHit(h, rules[1..], risk)
      {
        var j :| 0 <= j < |rules| && Fires(h, rules[j].condition) && rules[j].effect.risk == Some(risk);
        if j > 0 {
          assert rules[1..][j - 1] == rules[j];
        }
      }
      forall risk: string | RuleHit(h, rules[1..], risk)
        ensures RuleHit(h, rules, risk)
      {
        var j :| 0 <= j < |rules[1..]| && Fires(h, rules[1..][j].condition) && rules[1..][j].effect.risk == Some(risk);
        assert rules[j + 1] == rules[1..][j];
      }
      if Fires(h, rules[0].condition) && rules[0].effect.risk.Some? {
        assert RuleHit(h, rules, rules[0].effect.risk.value);
      }
    }
  }

  lemma {:induction false} WorstCharacterised(hs: seq<Holding>, rules: seq<Rule>)
    ensures Worst(hs, rules) == High <==> Hit(hs, rules, "HIGH")
    ensures Worst(hs, rules) == Low <==> !Hit(hs, rules, "HIGH") && !Hit(hs, rules, "MEDIUM")
  {
    if |hs| > 0 {
      WorstCharacterised(hs[1..], rules);
      RuleWorstCharacterised(hs[0], rules);
      forall risk: string | Hit(hs, rules, risk)
        ensures RuleHit(hs[0], rules, risk) || Hit(hs[1..], rules, risk)
      {
        var i :| 0 <= i < |hs| && RuleHit(hs[i], rules, risk);
        if i > 0 {
          assert hs[1..][i - 1] == hs[i];
        }
      }
      forall risk: string | Hit(hs[1..], rules, risk)
        ensures Hit(hs, rules, risk)
      {
        var i :| 0 <= i < |hs[1..]| && RuleHit(hs[1..][i], rules, risk);
        assert hs[i + 1] == hs[1..][i];
      }
      forall risk: string | RuleHit(hs[0], rules, risk)
        ensures Hit(hs, rules, risk)
      {
        assert 0 < |hs| && RuleHit(hs[0], rules, risk);
      }
    }
  }

  /** The level is HIGH exactly when some matching rule asks for HIGH or the
      aggregate override fires. */
  lemma LevelHighIff(rules: seq<Rule>, p: Portfolio, showReal: real -> string)
    ensures Assess(rules, p, showReal).level == High <==>
      Hit(p.Holdings(), rules, "HIGH") || p.AggregateVolatility() > AggregateThreshold
  {
    WorstCharacterised(p.Holdings(), rules);
  }

  /** MEDIUM exactly when there is no cause for HIGH and some matching rule asks for MEDIUM. */
  lemma LevelMediumIff(rules: seq<Rule>, p: Portfolio, showReal: real -> string)
    ensures Assess(rules, p, showReal).level == Medium <==>
      && !Hit(p.Holdings(), rules, "HIGH")
      && p.AggregateVolatility() <= AggregateThreshold
      && Hit(p.Holdings(), rules, "MEDIUM")
  {
    WorstCharacterised(p.Holdings(), rules);
  }

  /** LOW exactly when no matching rule asks for HIGH or MEDIUM and the override
      does not fire: effects whose risk is LOW, absent or unrecognised never count. */
  lemma LevelLowIff(rules: seq<Rule>, p: Portfolio, showReal: real -> string)
    ensures Assess(rules, p, showReal).level == Low <==>
      && !Hit(p.Holdings(), rules, "HIGH")
      && !Hit(p.Holdings(), rules, "MEDIUM")
      && p.AggregateVolatility() <= AggregateThreshold
  {
    WorstCharacterised(p.Holdings(), rules);
  }

  /** No holdings and no aggregate override: LOW with no evidence, whatever the rules. */
  lemma EmptyHoldingsAreLow(rules: seq<Rule>, p: Portfolio, showReal: real -> string)
    requires p.Holdings() == []
    requires p.AggregateVolatility() <= AggregateThreshold
    ensures Assess(rules, p, showReal).level == Low
    ensures Assess(rules, p, showReal).evidence == []
  {
  }

  /** The aggregate override can only raise the verdict, and its line comes last. */
  lemma AggregateOverride(rules: seq<Rule>, p: Portfolio, showReal: real -> string)
    requires p.AggregateVolatility() > AggregateThreshold
    ensures Assess(rules, p, showReal).level == High
    ensures |Assess(rules, p, showReal).evidence| == |HitLines(p.Holdings(), rules)| + 1
    ensures Assess(rules, p, showReal).evidence[|HitLines(p.Holdings(), rules)|]
      == AggregateLine(showReal, p.AggregateVolatility())
  {
  }

  /** `line` is the evidence line of some rule that fires on `h`. */
  ghost predicate LineOfRule(h: Holding, rules: seq<Rule>, line: string) {
    exists j :: 0 <= j < |rules| && Fires(h, rules[j].condition) && line == EvidenceLine(h, rules[j].effect)
  }

  lemma {:induction false} RuleLinesMembership(h: Holding, rules: seq<Rule>, line: string)
    ensures line in RuleLines(h, rules) <==> LineOfRule(h, rules, line)
  {
    if |rules| > 0 {
      RuleLinesMembership(h, rules[1..], line);
      if LineOfRule(h, rules, line) {
        var j :| 0 <= j < |rules| && Fires(h, rules[j].condition) && line == EvidenceLine(h, rules[j].effect);
        if j > 0 {
          assert rules[1..][j - 1] == rules[j];
        }
      }
      if line in RuleLines(h, rules[1..]) {
        var j :| 0 <= j < |rules[1..]| && Fires(h, rules[1..][j].condition) && line == EvidenceLine(h, rules[1..][j].effect);
        assert rules[j + 1] == rules[1..][j];
      }
    }
  }

  /** Every line of the per-holding evidence comes from a matching (holding, rule)
      pair, and every matching pair contributes its line. */
  lemma {:induction false} HitLinesMembership(hs: seq<Holding>, rules: seq<Rule>, line: string)
    ensures line in HitLines(hs, rules) <==> exists i :: 0 <= i < |hs| && LineOfRule(hs[i], rules, line)
  {
    if |hs| > 0 {
      HitLinesMembership(hs[1..], rules, line);
      RuleLinesMembership(hs[0], rules, line);
      assert HitLines(hs, rules) == RuleLines(hs[0], rules) + HitLines(hs[1..], rules);
      if exists i :: 0 <= i < |hs| && LineOfRule(hs[i], rules, line) {
        var i :| 0 <= i < |hs| && LineOfRule(hs[i], rules, line);
        if i > 0 {
          assert hs[1..][i - 1] == hs[i];
        }
      }
      if line in HitLines(hs[1..], rules) {
        var i :| 0 <= i < |hs[1..]| && LineOfRule(hs[1..][i], rules, line);
        assert hs[i + 1] == hs[1..][i];
      }
    }
  }

  /** Evidence is holding-major: the lines of earlier holdings precede those of later ones. */
  lemma {:induction false} HitLinesHoldingMajor(hs1: seq<Holding>, hs2: seq<Holding>, rules: seq<Rule>)
    ensures HitLines(hs1 + hs2, rules) == HitLines(hs1, rules) + HitLines(hs2, rules)
  {
    if |hs1| > 0 {
      assert (hs1 + hs2)[1..] == hs1[1..] + hs2;
      HitLinesHoldingMajor(hs1[1..], hs2, rules);
    } else {
      assert hs1 + hs2 == hs2;
    }
  }

  /** Two identical matching rules give two identical lines: nothing is deduplicated. */
  lemma DuplicatesKept(h: Holding, r: Rule, p: Portfolio, showReal: real -> string)
    requires Fires(h, r.condition)
    requires p.holdings == Some([h]) && p.AggregateVolatility() <= AggregateThreshold
    ensures Assess([r, r], p, showReal).evidence == [EvidenceLine(h, r.effect), EvidenceLine(h, r.effect)]
  {
    assert [r, r][1..] == [r];
    assert [h][1..] == [];
    assert RuleLines(h, [r]) == [EvidenceLine(h, r.effect)];
    assert HitLines([h], [r, r]) == RuleLines(h, [r, r]);
  }

  /** The SHIB scenario: volatility 0.9 above a 0.5 HIGH threshold gives HIGH with a SHIB line. */
  lemma ShibScenario(showReal: real -> string)
    ensures
      var shib := Holding(Some("SHIB"), Some(0.3), Some(0.9), Some(0.4));
      var rule := Rule(Condition("gt", "volatility", 0.5), Effect(Some("HIGH"), Some("volatility above 0.5")));
      var v := Assess([rule], Portfolio(Some([shib]), None, 0), showReal);
      v.level == High && v.evidence == ["SHIB" + " -> " + "volatility above 0.5"]
  {
    var shib := Holding(Some("SHIB"), Some(0.3), Some(0.9), Some(0.4));
    var rule := Rule(Condition("gt", "volatility", 0.5), Effect(Some("HIGH"), Some("volatility above 0.5")));
    assert Fires(shib, rule.condition);
    var line := "SHIB" + " -> " + "volatility above 0.5";
    assert EvidenceLine(shib, rule.effect) == line;
    assert [shib][1..] == [] && [rule][1..] == [];
    assert RuleLines(shib, [rule]) == [line];
    assert HitLines([shib], [rule]) == RuleLines(shib, [rule]);
    assert RuleWorst(shib, [rule]) == High;
    assert Worst([shib], [rule]) == High;
  }
}
