/** The yield ranking engine of the yield agent: score every listing, sort by
    score descending with a stable sort, keep the first five. */
module YieldRanking {
  import opened Wrappers

  /** How many ranked entries the yield agent returns. */
  const TopK: nat := 5

  /** A market listing; a `None` field is an absent key.  `score` is the key the
      ranking adds (or overwrites).  `others` holds every other key, with the
      JSON text of its value: the ranking passes those through untouched. */
  datatype Listing = Listing(
    protocol: Option<string>,
    apy: Option<real>,
    riskScore: Option<real>,
    score: Option<real>,
    others: map<string, string>)

  function MaxReal(a: real, b: real): real {
    if a >= b then a else b
  }

  /** `apy * max(0, 1 - risk_score)` with absent keys read as 0: a risk score of 1
      or more zeroes the score. */
  function Score(l: Listing): (s: real)
    ensures l.riskScore.GetOr(0.0) >= 1.0 ==> s == 0.0
    ensures l.riskScore.GetOr(0.0) < 1.0 ==> s == l.apy.GetOr(0.0) * (1.0 - l.riskScore.GetOr(0.0))
    ensures l.apy.GetOr(0.0) >= 0.0 ==> s >= 0.0
  {
    var apy := l.apy.GetOr(0.0);
    var risk := l.riskScore.GetOr(0.0);
    apy * MaxReal(0.0, 1.0 - risk)
  }

  /** `{**item, 'score': score}`: the score key is set and every other key is
      copied. */
  function WithScore(l: Listing): (r: Listing)
    ensures r.score == Some(Score(l))
    ensures r.protocol == l.protocol && r.apy == l.apy && r.riskScore == l.riskScore
    ensures r.others == l.others
  {
    l.(score := Some(Score(l)))
  }

  function ScoreAll(market: seq<Listing>): (r: seq<Listing>)
    ensures |r| == |market|
    ensures forall i :: 0 <= i < |market| ==> r[i] == WithScore(market[i])
  {
    if |market| == 0 then [] else [WithScore(market[0])] + ScoreAll(market[1..])
  }

  /** The sort key: the `score` entry (every scored listing has one). */
  function Key(l: Listing): real {
    l.score.GetOr(0.0)
  }

  ghost predicate SortedDesc(s: seq<Listing>) {
    forall i, j :: 0 <= i < j < |s| ==> Key(s[i]) >= Key(s[j])
  }

  /** The entries whose key is `k`, in order: stability means this subsequence is
      the same before and after sorting. */
  function WithKey(s: seq<Listing>, k: real): seq<Listing> {
    if |s| == 0 then []
    else (if Key(s[0]) == k then [s[0]] else []) + WithKey(s[1..], k)
  }

  lemma {:induction false} WithKeyAppend(a: seq<Listing>, b: seq<Listing>, k: real)
    ensures WithKey(a + b, k) == WithKey(a, k) + WithKey(b, k)
  {
    if |a| == 0 {
      assert a + b == b;
    } else {
      var ab := a + b;
      assert ab[0] == a[0];
      assert ab[1..] == a[1..] + b;
      WithKeyAppend(a[1..], b, k);
      var head := if Key(a[0]) == k then [a[0]] else [];
      assert WithKey(ab, k) == head + WithKey(ab[1..], k);
      assert WithKey(a, k) == head + WithKey(a[1..], k);
    }
  }

  /** Insert `x` before the first entry whose key is not greater than its own, so
      that `x` precedes the entries it ties with (it came earlier in the input). */
  function Insert(x: Listing, s: seq<Listing>): seq<Listing> {
    if |s| == 0 then [x]
    else if Key(s[0]) <= Key(x) then [x] + s
    else [s[0]] + Insert(x, s[1..])
  }

  /** Where `Insert` puts its element: after every entry with a strictly greater key. */
  function InsertPos(x: Listing, s: seq<Listing>): (p: nat)
    ensures p <= |s|
    ensures forall i :: 0 <= i < p ==> Key(s[i]) > Key(x)
    ensures p < |s| ==> Key(s[p]) <= Key(x)
  {
    if |s| == 0 then 0
    else if Key(s[0]) <= Key(x) then 0
    else 1 + InsertPos(x, s[1..])
  }

  lemma {:induction false} InsertSplit(x: Listing, s: seq<Listing>)
    ensures Insert(x, s) == s[..InsertPos(x, s)] + [x] + s[InsertPos(x, s)..]
  {
    if |s| > 0 && Key(s[0]) > Key(x) {
      InsertSplit(x, s[1..]);
      var p := InsertPos(x, s[1..]);
      assert s[..p + 1] == [s[0]] + s[1..][..p];
      assert s[p + 1..] == s[1..][p..];
    }
  }

  lemma InsertSorted(x: Listing, s: seq<Listing>)
    requires SortedDesc(s)
    ensures SortedDesc(Insert(x, s))
  {
    InsertSplit(x, s);
    var p := InsertPos(x, s);
    var r := Insert(x, s);
    assert |r| == |s| + 1;
    forall i, j | 0 <= i < j < |r| ensures Key(r[i]) >= Key(r[j]) {
      if j < p {
        assert r[i] == s[i] && r[j] == s[j];
      } else if j == p {
        assert r[i] == s[i] && r[j] == x;
      } else if i < p {
        assert r[i] == s[i] && r[j] == s[j - 1];
      } else if i == p {
        assert r[i] == x && r[j] == s[j - 1];
        assert Key(s[p]) >= Key(s[j - 1]) || p == j - 1;
      } else {
        assert r[i] == s[i - 1] && r[j] == s[j - 1];
      }
    }
  }

  lemma {:induction false} WithKeyNone(s: seq<Listing>, k: real)
    requires forall i :: 0 <= i < |s| ==> Key(s[i]) != k
    ensures WithKey(s, k) == []
  {
    if |s| > 0 {
      WithKeyNone(s[1..], k);
    }
  }

  lemma InsertWithKey(x: Listing, s: seq<Listing>, k: real)
    ensures WithKey(Insert(x, s), k) == (if Key(x) == k then [x] else []) + WithKey(s, k)
  {
    InsertSplit(x, s);
    var p := InsertPos(x, s);
    var a, b := s[..p], s[p..];
    assert s == a + b;
    WithKeyAppend(a, b, k);
    WithKeyAround(a, x, b, k);
    if Key(x) == k {
      WithKeyNone(a, k);
    }
  }

  lemma WithKeyAround(a: seq<Listing>, x: Listing, b: seq<Listing>, k: real)
    ensures WithKey(a + [x] + b, k) == WithKey(a, k) + (if Key(x) == k then [x] else []) + WithKey(b, k)
  {
    WithKeyAppend(a + [x], b, k);
    WithKeyAppend(a, [x], k);
    assert WithKey([x], k) == (if Key(x) == k then [x] else []) + WithKey([x][1..], k);
  }

  lemma InsertMultiset(x: Listing, s: seq<Listing>)
    ensures multiset(Insert(x, s)) == multiset(s) + multiset{x}
  {
    InsertSplit(x, s);
    var p := InsertPos(x, s);
    var a, b := s[..p], s[p..];
    assert s == a + b;
    assert multiset(a + [x] + b) == multiset(a) + multiset{x} + multiset(b);
  }

  /** Stable insertion sort, descending by key. */
  function Sort(s: seq<Listing>): (r: seq<Listing>)
    ensures SortedDesc(r)
    ensures multiset(r) == multiset(s)
    ensures |r| == |s|
    ensures forall k :: WithKey(r, k) == WithKey(s, k)
  {
    if |s| == 0 then []
    else
      var rest := Sort(s[1..]);
      SortStep(s, rest);
      Insert(s[0], rest)
  }

  /** Inserting the head into the sorted tail sorts the whole sequence. */
  lemma SortStep(s: seq<Listing>, rest: seq<Listing>)
    requires |s| > 0
    requires SortedDesc(rest) && multiset(rest) == multiset(s[1..]) && |rest| == |s| - 1
    requires forall k :: WithKey(rest, k) == WithKey(s[1..], k)
    ensures SortedDesc(Insert(s[0], rest))
    ensures multiset(Insert(s[0], rest)) == multiset(s)
    ensures |Insert(s[0], rest)| == |s|
    ensures forall k :: WithKey(Insert(s[0], rest), k) == WithKey(s, k)
  {
    InsertSorted(s[0], rest);
    InsertMultiset(s[0], rest);
    assert s == [s[0]] + s[1..];
    forall k ensures WithKey(Insert(s[0], rest), k) == WithKey(s, k) {
      InsertWithKey(s[0], rest, k);
    }
  }

  function Min(a: nat, b: nat): nat {
    if a <= b then a else b
  }

  /** Every scored listing, sorted: `ranked.sort(key=score, reverse=True)`. */
  function Ranked(market: seq<Listing>): (r: seq<Listing>)
    ensures |r| == |market|
    ensures SortedDesc(r)
    ensures multiset(r) == multiset(ScoreAll(market))
    ensures forall k :: WithKey(r, k) == WithKey(ScoreAll(market), k)
  {
    Sort(ScoreAll(market))
  }

  /** `ranked[:5]`: at most five entries, sorted by non-increasing score, drawn from
      the scored input. */
  function Rank(market: seq<Listing>): (r: seq<Listing>)
    ensures |r| == Min(TopK, |market|)
    ensures r == Ranked(market)[..|r|]
    ensures SortedDesc(r)
    ensures multiset(r) <= multiset(ScoreAll(market))
  {
    var ranked := Ranked(market);
    var n := Min(TopK, |ranked|);
    assert ranked == ranked[..n] + ranked[n..];
    assert multiset(ranked) == multiset(ranked[..n]) + multiset(ranked[n..]);
    ranked[..n]
  }

  // ---------------------------------------------------------------------------
  // Properties

  lemma {:induction false} WithKeyPrefix(s: seq<Listing>, n: nat, k: real)
    requires n <= |s|
    ensures WithKey(s[..n], k) <= WithKey(s, k)
  {
    assert s == s[..n] + s[n..];
    WithKeyAppend(s[..n], s[n..], k);
  }

  /** Each ranked entry is an input listing with only its `score` set. */
  lemma RankEntriesAreScoredInputs(market: seq<Listing>)
    ensures forall i :: 0 <= i < |Rank(market)| ==>
      exists j :: 0 <= j < |market| && Rank(market)[i] == WithScore(market[j])
  {
    var r := Rank(market);
    var scored := ScoreAll(market);
    forall i | 0 <= i < |r| ensures exists j :: 0 <= j < |market| && r[i] == WithScore(market[j]) {
      assert r[i] in multiset(r);
      assert r[i] in multiset(scored);
      var j :| 0 <= j < |scored| && scored[j] == r[i];
    }
  }

  /** Stability: for every score value, the kept entries with that score are the
      first of the input's entries with that score, in input order. */
  lemma RankStable(market: seq<Listing>)
    ensures forall k :: WithKey(Rank(market), k) <= WithKey(ScoreAll(market), k)
  {
    var full := Ranked(market);
    forall k ensures WithKey(Rank(market), k) <= WithKey(ScoreAll(market), k) {
      WithKeyPrefix(full, |Rank(market)|, k);
    }
  }

  /** Top-k: every entry the truncation drops scores no higher than every kept entry. */
  lemma RankDropsOnlyLower(market: seq<Listing>)
    ensures forall i, j :: 0 <= i < |Rank(market)| <= j < |Ranked(market)| ==>
      Key(Ranked(market)[j]) <= Key(Rank(market)[i])
  {
    var full := Ranked(market);
    var r := Rank(market);
    forall i, j | 0 <= i < |r| <= j < |full| ensures Key(full[j]) <= Key(r[i]) {
      assert r[i] == full[i];
    }
  }

  /** Two listings with equal scores come out in their input order (Aave before Comp). */
  lemma TieKeepsInputOrder()
    ensures
      var aave := Listing(Some("Aave"), Some(5.2), Some(0.1), None, map[]);
      var comp := Listing(Some("Comp"), Some(5.2), Some(0.1), None, map[]);
      Rank([aave, comp]) == [WithScore(aave), WithScore(comp)]
  {
    var aave := Listing(Some("Aave"), Some(5.2), Some(0.1), None, map[]);
    var comp := Listing(Some("Comp"), Some(5.2), Some(0.1), None, map[]);
    assert [aave, comp][1..] == [comp];
    assert [comp][1..] == [];
    assert ScoreAll([aave, comp]) == [WithScore(aave), WithScore(comp)];
    assert Key(WithScore(aave)) == Key(WithScore(comp));
    assert Sort([WithScore(aave), WithScore(comp)]) == [WithScore(aave), WithScore(comp)] by {
      var sc := [WithScore(aave), WithScore(comp)];
      assert sc[1..] == [WithScore(comp)];
      assert [WithScore(comp)][1..] == [];
      assert Sort([WithScore(comp)]) == [WithScore(comp)];
    }
  }
}
