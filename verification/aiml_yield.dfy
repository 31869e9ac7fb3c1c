/** The uAgents yield agent's `get_yields`: for each requested token, the stored
    PYUSD native entries and the stored DeFiLlama pools of the "aave-v3" project
    whose token matches become yield opportunities.  The storage is an input; the
    hourly refresh that fills it is not modelled. */
module AimlYield {
  import opened Wrappers

  const NativeProtocol: string := "PYUSD Native Yield"
  const AaveProject: string := "aave-v3"

  /** A stored PYUSD entry; `None` is a key absent from its dictionary. */
  datatype NativeEntry = NativeEntry(token: Option<string>, apr: Option<real>)

  /** A DeFiLlama pool; `None` is a key absent from its dictionary. */
  datatype Pool = Pool(symbol: Option<string>, project: Option<string>, apy: Option<real>)

  /** The stored DeFiLlama response; only its "data" key is read. */
  datatype Llama = Llama(data: Option<seq<Pool>>)

  /** The agent's key-value storage: `None` is a key never set. */
  datatype Storage = Storage(pyusd: Option<seq<NativeEntry>>, defillama: Option<Llama>) {
    /** `ctx.storage.get("pyusd_opportunities", [])`. */
    function Native(): seq<NativeEntry> {
      pyusd.GetOr([])
    }

    /** `ctx.storage.get("defilama_opportunities", {}).get("data", [])`. */
    function Pools(): seq<Pool> {
      match defillama
      case None => []
      case Some(l) => l.data.GetOr([])
    }
  }

  datatype Opportunity = Opportunity(protocol: string, token: string, apr: real)

  predicate NativeMatches(e: NativeEntry, token: string) {
    e.token == Some(token)
  }

  predicate PoolMatches(p: Pool, token: string) {
    p.symbol == Some(token) && p.project == Some(AaveProject)
  }

  /** The native opportunities for one token, in storage order; `None` when a
      matching entry has no "apr" (the KeyError that ends the handler). */
  function NativeFor(entries: seq<NativeEntry>, token: string): (r: Option<seq<Opportunity>>)
    ensures r.None? <==> exists i :: 0 <= i < |entries| && NativeMatches(entries[i], token) && entries[i].apr.None?
    ensures r.Some? ==> forall o :: o in r.value <==>
      exists i :: 0 <= i < |entries| && NativeMatches(entries[i], token)
        && o == Opportunity(NativeProtocol, token, entries[i].apr.value)
  {
    if |entries| == 0 then Some([])
    else
      var e := entries[0];
      var rest := NativeFor(entries[1..], token);
      if !NativeMatches(e, token) then
        assert forall i :: 1 <= i < |entries| ==> entries[i] == entries[1..][i - 1];
        rest
      else if e.apr.None? || rest.None? then None
      else
        assert forall i :: 1 <= i < |entries| ==> entries[i] == entries[1..][i - 1];
        Some([Opportunity(NativeProtocol, token, e.apr.value)] + rest.value)
  }

  /** The aave-v3 opportunities for one token, in storage order; `None` when a
      matching pool has no "apy". */
  function AaveFor(pools: seq<Pool>, token: string): (r: Option<seq<Opportunity>>)
    ensures r.None? <==> exists i :: 0 <= i < |pools| && PoolMatches(pools[i], token) && pools[i].apy.None?
    ensures r.Some? ==> forall o :: o in r.value <==>
      exists i :: 0 <= i < |pools| && PoolMatches(pools[i], token)
        && o == Opportunity(AaveProject, token, pools[i].apy.value)
  {
    if |pools| == 0 then Some([])
    else
      var p := pools[0];
      var rest := AaveFor(pools[1..], token);
      if !PoolMatches(p, token) then
        assert forall i :: 1 <= i < |pools| ==> pools[i] == pools[1..][i - 1];
        rest
      else if p.apy.None? || rest.None? then None
      else
        assert forall i :: 1 <= i < |pools| ==> pools[i] == pools[1..][i - 1];
        Some([Opportunity(AaveProject, token, p.apy.value)] + rest.value)
  }

  /** Both sources for one token: the native entries first, then the pools. */
  function ForToken(store: Storage, token: string): Option<seq<Opportunity>> {
    var native := NativeFor(store.Native(), token);
    var aave := AaveFor(store.Pools(), token);
    if native.None? || aave.None? then None else Some(native.value + aave.value)
  }

  /** `get_yields`: the opportunities sent back, or `None` when a KeyError ends
      the handler before it sends anything. */
  function GetYields(store: Storage, tokens: seq<string>): (r: Option<seq<Opportunity>>)
    ensures r.None? <==> exists i :: 0 <= i < |tokens| && ForToken(store, tokens[i]).None?
    ensures r.Some? ==> forall o :: o in r.value ==> o.token in tokens
  {
    if |tokens| == 0 then Some([])
    else
      var head := ForToken(store, tokens[0]);
      var rest := GetYields(store, tokens[1..]);
      assert forall i :: 1 <= i < |tokens| ==> tokens[i] == tokens[1..][i - 1];
      if head.None? || rest.None? then None
      else
        assert forall o :: o in head.value ==> o.token == tokens[0] by {
          forall o | o in head.value ensures o.token == tokens[0] {
            var n := NativeFor(store.Native(), tokens[0]);
            var a := AaveFor(store.Pools(), tokens[0]);
            assert o in n.value || o in a.value;
          }
        }
        Some(head.value + rest.value)
  }

  /** Some stored native entry for `token` gives `o`. */
  predicate NativeGives(store: Storage, token: string, o: Opportunity) {
    exists i :: 0 <= i < |store.Native()| && NativeMatches(store.Native()[i], token)
      && store.Native()[i].apr == Some(o.apr) && o == Opportunity(NativeProtocol, token, o.apr)
  }

  /** Some stored aave-v3 pool for `token` gives `o`. */
  predicate AaveGives(store: Storage, token: string, o: Opportunity) {
    exists i :: 0 <= i < |store.Pools()| && PoolMatches(store.Pools()[i], token)
      && store.Pools()[i].apy == Some(o.apr) && o == Opportunity(AaveProject, token, o.apr)
  }

  /** What each source contributes: an opportunity is in the reply exactly when
      some requested token matches a native entry (protocol "PYUSD Native Yield",
      that entry's apr) or an aave-v3 pool (protocol "aave-v3", that pool's apy). */
  lemma {:induction false} OpportunityIff(store: Storage, tokens: seq<string>, o: Opportunity)
    requires GetYields(store, tokens).Some?
    ensures o in GetYields(store, tokens).value <==>
      exists k :: 0 <= k < |tokens| && (NativeGives(store, tokens[k], o) || AaveGives(store, tokens[k], o))
    decreases |tokens|
  {
    if |tokens| > 0 {
      var rest := tokens[1..];
      OpportunityIff(store, rest, o);
      assert forall k :: 1 <= k < |tokens| ==> tokens[k] == rest[k - 1];
      var n := NativeFor(store.Native(), tokens[0]);
      var a := AaveFor(store.Pools(), tokens[0]);
      assert GetYields(store, tokens).value == n.value + a.value + GetYields(store, rest).value;
    }
  }

  /** Replies compose along the request: the opportunities for `t1 + t2` are those
      for `t1` followed by those for `t2`, so the request order is kept and a
      repeated token is answered twice. */
  lemma {:induction false} RequestOrderKept(store: Storage, t1: seq<string>, t2: seq<string>)
    requires GetYields(store, t1 + t2).Some?
    ensures GetYields(store, t1).Some? && GetYields(store, t2).Some?
    ensures GetYields(store, t1 + t2).value == GetYields(store, t1).value + GetYields(store, t2).value
    decreases |t1|
  {
    if |t1| == 0 {
      assert t1 + t2 == t2;
    } else {
      assert (t1 + t2)[1..] == t1[1..] + t2;
      assert (t1 + t2)[0] == t1[0];
      RequestOrderKept(store, t1[1..], t2);
    }
  }

  /** One stored entry gives one opportunity when it matches and has an "apr", none
      when it does not match, and raises when it matches without an "apr". */
  lemma NativeForOne(e: NativeEntry, token: string)
    ensures NativeFor([e], token) ==
      if !NativeMatches(e, token) then Some([])
      else if e.apr.None? then None
      else Some([Opportunity(NativeProtocol, token, e.apr.value)])
  {
    assert [e][1..] == [];
    assert NativeFor([], token) == Some([]);
    if NativeMatches(e, token) && e.apr.Some? {
      assert [Opportunity(NativeProtocol, token, e.apr.value)] + [] == [Opportunity(NativeProtocol, token, e.apr.value)];
    }
  }

  /** The native scan runs through storage in order: the opportunities of `a + b`
      are those of `a` followed by those of `b`, one per matching entry. */
  lemma {:induction false} NativeForAppend(a: seq<NativeEntry>, b: seq<NativeEntry>, token: string)
    ensures NativeFor(a + b, token).None? <==> NativeFor(a, token).None? || NativeFor(b, token).None?
    ensures NativeFor(a + b, token).Some? ==>
      NativeFor(a + b, token).value == NativeFor(a, token).value + NativeFor(b, token).value
    decreases |a|
  {
    if |a| == 0 {
      assert a + b == b;
    } else {
      assert (a + b)[0] == a[0];
      assert (a + b)[1..] == a[1..] + b;
      NativeForAppend(a[1..], b, token);
    }
  }

  /** One stored pool gives one opportunity when it matches and has an "apy", none
      when it does not match, and raises when it matches without an "apy". */
  lemma AaveForOne(p: Pool, token: string)
    ensures AaveFor([p], token) ==
      if !PoolMatches(p, token) then Some([])
      else if p.apy.None? then None
      else Some([Opportunity(AaveProject, token, p.apy.value)])
  {
    assert [p][1..] == [];
    assert AaveFor([], token) == Some([]);
    if PoolMatches(p, token) && p.apy.Some? {
      assert [Opportunity(AaveProject, token, p.apy.value)] + [] == [Opportunity(AaveProject, token, p.apy.value)];
    }
  }

  /** The pool scan runs through storage in order: the opportunities of `a + b` are
      those of `a` followed by those of `b`, one per matching pool. */
  lemma {:induction false} AaveForAppend(a: seq<Pool>, b: seq<Pool>, token: string)
    ensures AaveFor(a + b, token).None? <==> AaveFor(a, token).None? || AaveFor(b, token).None?
    ensures AaveFor(a + b, token).Some? ==>
      AaveFor(a + b, token).value == AaveFor(a, token).value + AaveFor(b, token).value
    decreases |a|
  {
    if |a| == 0 {
      assert a + b == b;
    } else {
      assert (a + b)[0] == a[0];
      assert (a + b)[1..] == a[1..] + b;
      AaveForAppend(a[1..], b, token);
    }
  }

  /** For one token, the native entries come first and the pools after, each in
      storage order. */
  lemma OneToken(store: Storage, token: string)
    requires GetYields(store, [token]).Some?
    ensures GetYields(store, [token]).value ==
      NativeFor(store.Native(), token).value + AaveFor(store.Pools(), token).value
  {
    assert [token][1..] == [];
  }

  /** Missing storage keys read as empty data, and an empty request gets an empty
      reply: in both cases a reply is sent and it lists nothing. */
  lemma EmptyCases(store: Storage, tokens: seq<string>)
    ensures GetYields(store, []) == Some([])
    ensures GetYields(Storage(None, None), tokens) == Some([])
    ensures GetYields(Storage(Some([]), Some(Llama(None))), tokens) == Some([])
  {
    EmptyStorageIsEmpty(Storage(None, None), tokens);
    EmptyStorageIsEmpty(Storage(Some([]), Some(Llama(None))), tokens);
  }

  lemma {:induction false} EmptyStorageIsEmpty(store: Storage, tokens: seq<string>)
    requires store.Native() == [] && store.Pools() == []
    ensures GetYields(store, tokens) == Some([])
    decreases |tokens|
  {
    if |tokens| > 0 {
      EmptyStorageIsEmpty(store, tokens[1..]);
      var n := NativeFor(store.Native(), tokens[0]);
      var a := AaveFor(store.Pools(), tokens[0]);
      assert n == Some([]) && a == Some([]);
      assert n.value + a.value == [];
      assert ForToken(store, tokens[0]) == Some(n.value + a.value);
      assert ForToken(store, tokens[0]) == Some([]);
    }
  }

  /** The stored mock entry answers a PYUSD request at 4.5 APR. */
  lemma MockPyusd(store: Storage)
    requires store == Storage(Some([NativeEntry(Some("PYUSD"), Some(4.5))]), None)
    ensures GetYields(store, ["PYUSD"]) == Some([Opportunity(NativeProtocol, "PYUSD", 4.5)])
    ensures GetYields(store, ["USDC"]) == Some([])
  {
    var e := store.Native();
    assert e[1..] == [];
    assert NativeFor(e[1..], "PYUSD") == Some([]);
    assert NativeMatches(e[0], "PYUSD") && e[0].apr == Some(4.5);
    assert [Opportunity(NativeProtocol, "PYUSD", 4.5)] + NativeFor(e[1..], "PYUSD").value
      == [Opportunity(NativeProtocol, "PYUSD", 4.5)];
    assert NativeFor(e, "PYUSD") == Some([Opportunity(NativeProtocol, "PYUSD", 4.5)]);
    assert NativeFor(e, "USDC") == Some([]);
    OneToken(store, "PYUSD");
    OneToken(store, "USDC");
  }
}
