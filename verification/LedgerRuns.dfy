/** Whole runs of the ledger: every token's part of a run is a run of that token, swap logs only grow
    and record what the swap contract burns, and sending tokens to the swap contract is all or
    nothing. */
module LedgerRuns {
  import opened Prelude
  import opened Ledger
  import T = BridgeToken
  import S = BridgeSwap
  import R = TokenRuns

  // ---- What every call keeps ----

  lemma {:induction false} CallsOnAppend(a: seq<Event>, b: seq<Event>, t: Addr)
    ensures CallsOn(a + b, t) == CallsOn(a, t) + CallsOn(b, t)
  {
    if b == [] {
      assert a + b == a;
    } else {
      assert (a + b)[..|a + b| - 1] == a + b[..|b| - 1];
      CallsOnAppend(a, b[..|b| - 1], t);
    }
  }

  lemma CallsOnOne(e: Event, t: Addr)
    ensures CallsOn([e], t) == if e.token == t then [e.call] else []
  {
    assert [e][..0] == [];
    assert CallsOn([], t) == [];
  }

  lemma BurnedOne(c: R.Call, who: Addr)
    ensures R.Burned([c], who) == R.BurnOf(c, who)
  {
    assert [c][..0] == [];
  }

  /** A swap record that fits position `i` of the log of token `t`. */
  predicate Fits(swap: S.Swap, i: nat, t: Addr) {
    swap.nonce == i && swap.token == t && swap.destination.EthAddress?
  }

  /** The second log continues the first with entries numbered by position, all for token `t`. */
  ghost predicate LogExtends(log: seq<S.Swap>, log': seq<S.Swap>, t: Addr) {
    log <= log' && forall i :: |log| <= i < |log'| ==> Fits(log'[i], i, t)
  }

  ghost predicate SameSetting(l: Ledger, l': Ledger) {
    && l'.swapAddr == l.swapAddr && l'.tokenHash == l.tokenHash && l'.swapHash == l.swapHash
    && l'.tokens.Keys == l.tokens.Keys
  }

  ghost predicate TokenEvolves(l: Ledger, trace: seq<Event>, l': Ledger, t: Addr)
    requires t in l.tokens && t in l'.tokens
  {
    R.Replay(l.tokens[t], CallsOn(trace, t)) == Ok(l'.tokens[t])
  }

  /** The token states of `l'` are those of `l` after the traced calls, swap logs have grown, and the
      whitelist still lists no token twice. */
  ghost predicate Evolves(l: Ledger, trace: seq<Event>, l': Ledger) {
    && SameSetting(l, l')
    && (forall t <- l.tokens :: TokenEvolves(l, trace, l', t))
    && (forall t :: LogExtends(S.LogOf(l.swap, t), S.LogOf(l'.swap, t), t))
    && (S.Distinct(l.swap.whitelist) ==> S.Distinct(l'.swap.whitelist))
  }

  lemma EvolvesNot(l: Ledger)
    ensures Evolves(l, [], l)
  {
  }

  lemma EvolvesThen(l: Ledger, a: seq<Event>, l1: Ledger, b: seq<Event>, l2: Ledger)
    requires Evolves(l, a, l1) && Evolves(l1, b, l2)
    ensures Evolves(l, a + b, l2)
  {
    forall t | t in l.tokens ensures TokenEvolves(l, a + b, l2, t) {
      assert TokenEvolves(l, a, l1, t) && TokenEvolves(l1, b, l2, t);
      CallsOnAppend(a, b, t);
      R.ReplayAppend(l.tokens[t], CallsOn(a, t), CallsOn(b, t));
    }
    forall t ensures LogExtends(S.LogOf(l.swap, t), S.LogOf(l2.swap, t), t) {
      assert LogExtends(S.LogOf(l.swap, t), S.LogOf(l1.swap, t), t);
      assert LogExtends(S.LogOf(l1.swap, t), S.LogOf(l2.swap, t), t);
    }
  }

  lemma TokenDelivered(l: Ledger, sender: Addr, time: u64, c: Call, d: Delivered)
    requires c.target in l.tokens && DeliverToken(l, sender, time, c) == Ok(d)
    ensures Evolves(l, d.events, d.ledger)
  {
    hide T.Handle;
    var call := R.Call(Env(sender, time), c.body.tokenMsg);
    forall t | t in l.tokens ensures TokenEvolves(l, d.events, d.ledger, t) {
      CallsOnOne(d.events[0], t);
      if t == c.target {
        assert [call][..0] == [];
        assert R.Replay(l.tokens[t], []) == Ok(l.tokens[t]);
      }
    }
  }

  lemma SwapDelivered(l: Ledger, sender: Addr, time: u64, c: Call, d: Delivered)
    requires DeliverSwap(l, sender, time, c) == Ok(d)
    ensures Evolves(l, d.events, d.ledger)
  {
    hide S.Added, S.Removed, S.Lookup, S.Distinct;
    WhitelistDelivered(l, sender, time, c, d);
  }

  lemma WhitelistDelivered(l: Ledger, sender: Addr, time: u64, c: Call, d: Delivered)
    requires DeliverSwap(l, sender, time, c) == Ok(d)
    ensures S.Distinct(l.swap.whitelist) ==> S.Distinct(d.ledger.swap.whitelist)
  {
    hide S.Added, S.Removed, S.Lookup, S.Distinct, S.BurnToken, S.MintToken;
    if S.Distinct(l.swap.whitelist) {
      match c.body.swapMsg {
        case AddToken(a, h, min) => S.AddedLists(l.swap.whitelist, S.TokenEntry(a, h, min));
        case RemoveToken(a) => S.RemovedDelists(l.swap.whitelist, a);
        case Receive(from, payload, n) => BurnKeepsWhitelist(l.swap, Env(sender, time), from, n, payload);
        case MintFromExtChain(a, _, n, t) => MintKeepsState(l.swap, a, n, t);
        case _ =>
      }
    }
  }

  lemma BurnKeepsWhitelist(s: S.State, env: Env, from: Addr, amount: u128, payload: Option<Destination>)
    ensures var r := S.BurnToken(s, env, from, amount, payload);
            r.Ok? ==> r.value.0 == s.(logs := r.value.0.logs)
  {
    hide S.Lookup;
  }

  lemma MintKeepsState(s: S.State, address: Addr, amount: nat, token: Addr)
    ensures var r := S.MintToken(s, address, amount, token); r.Ok? ==> r.value.0 == s
  {
    hide S.Lookup;
  }

  lemma DeliverEvolves(l: Ledger, sender: Addr, time: u64, c: Call, gas: nat, script: Script, d: Delivered)
    requires Deliver(l, sender, time, c, gas, script) == Ok(d)
    ensures Evolves(l, d.events, d.ledger)
  {
    hide DeliverToken, DeliverSwap, Evolves;
    if c.target in l.tokens {
      TokenDelivered(l, sender, time, c, d);
    } else if c.target == l.swapAddr {
      SwapDelivered(l, sender, time, c, d);
    } else {
      EvolvesNot(l);
    }
  }

  lemma {:induction false} ExecEvolves(l: Ledger, sender: Addr, time: u64, c: Call, gas: nat, script: Script, r: Done)
    requires Exec(l, sender, time, c, gas, script) == Ok(r)
    ensures Evolves(l, r.trace, r.ledger)
    decreases gas, 0
  {
    hide Deliver, Evolves;
    var d := Deliver(l, sender, time, c, gas, script).value;
    DeliverEvolves(l, sender, time, c, gas, script, d);
    var rest := ExecAll(d.ledger, c.target, time, d.calls, gas - 1, script).value;
    ExecAllEvolves(d.ledger, c.target, time, d.calls, gas - 1, script, rest);
    EvolvesThen(l, d.events, d.ledger, rest.trace, rest.ledger);
  }

  lemma {:induction false} ExecAllEvolves(l: Ledger, sender: Addr, time: u64, calls: seq<Call>, gas: nat,
                                          script: Script, r: Done)
    requires ExecAll(l, sender, time, calls, gas, script) == Ok(r)
    ensures Evolves(l, r.trace, r.ledger)
    decreases gas, 1 + |calls|
  {
    hide Evolves;
    if calls == [] {
      EvolvesNot(l);
    } else {
      var first := Exec(l, sender, time, calls[0], gas, script).value;
      ExecEvolves(l, sender, time, calls[0], gas, script, first);
      var rest := ExecAll(first.ledger, sender, time, calls[1..], first.gas, script).value;
      ExecAllEvolves(first.ledger, sender, time, calls[1..], first.gas, script, rest);
      EvolvesThen(l, first.trace, first.ledger, rest.trace, rest.ledger);
    }
  }

  lemma TransactEvolves(l: Ledger, tx: Tx)
    ensures var (l', trace) := Transact(l, tx); Evolves(l, trace, l')
  {
    hide Evolves;
    match Exec(l, tx.sender, tx.time, tx.call, tx.gas, tx.script) {
      case Ok(d) => ExecEvolves(l, tx.sender, tx.time, tx.call, tx.gas, tx.script, d);
      case Err(_) => EvolvesNot(l);
    }
  }

  /** Over any list of transactions, whatever unknown contracts do in between, each token ends as
      its own committed calls alone would leave it, and every swap log keeps all its entries. */
  lemma {:induction false} RunEvolves(l: Ledger, txs: seq<Tx>)
    ensures Evolves(l, Trace(l, txs), After(l, txs))
  {
    hide Evolves, Transact;
    if txs == [] {
      EvolvesNot(l);
    } else {
      var front := txs[..|txs| - 1];
      RunEvolves(l, front);
      TransactEvolves(After(l, front), txs[|txs| - 1]);
      EvolvesThen(l, Trace(l, front), After(l, front), Transact(After(l, front), txs[|txs| - 1]).1, After(l, txs));
    }
  }

  /** Once a query answers, it gives the same answer after any further transactions, including
      removal of the token and adding it again. */
  lemma QueryStable(l: Ledger, txs: seq<Tx>, nonce: nat, token: Addr)
    requires S.Query(l.swap, nonce, token).Some?
    ensures S.Query(After(l, txs).swap, nonce, token) == S.Query(l.swap, nonce, token)
  {
    RunEvolves(l, txs);
    assert LogExtends(S.LogOf(l.swap, token), S.LogOf(After(l, txs).swap, token), token);
  }

  /** Whatever a query answers after a run from empty logs names the nonce and token asked for, and an
      address on Ethereum. */
  lemma QueryNames(l: Ledger, txs: seq<Tx>, nonce: nat, token: Addr)
    requires l.swap.logs == map[]
    ensures match S.Query(After(l, txs).swap, nonce, token)
            case Some(swap) => Fits(swap, nonce, token)
            case None => true
  {
    RunEvolves(l, txs);
    assert LogExtends(S.LogOf(l.swap, token), S.LogOf(After(l, txs).swap, token), token);
  }

  /** From a ledger whose whitelist lists no token twice, whatever happens before, removing a token
      closes it: until it is added again no notice from it is accepted and nothing is minted on it,
      and every other token is listed as it was. */
  lemma RemovalCloses(l: Ledger, txs: seq<Tx>, env: Env, token: Addr)
    requires S.Distinct(l.swap.whitelist)
    requires S.Handle(After(l, txs).swap, env, l.swapHash, S.RemoveToken(token)).Ok?
    ensures var s := After(l, txs).swap;
            var s' := S.Handle(s, env, l.swapHash, S.RemoveToken(token)).value.0;
            && (forall t :: S.Lookup(s'.whitelist, t) == if t == token then None else S.Lookup(s.whitelist, t))
            && (forall time, from, amount, payload ::
                  S.BurnToken(s', Env(token, time), from, amount, payload).Err?)
            && (forall address, amount :: S.MintToken(s', address, amount, token).Err?)
  {
    hide S.Lookup, S.Removed, S.Distinct;
    RunEvolves(l, txs);
    S.RemovedDelists(After(l, txs).swap.whitelist, token);
  }

  /** On every token of the ledger, supply minus the sum of balances never changes. */
  lemma LedgerConserves(l: Ledger, txs: seq<Tx>, t: Addr)
    requires t in l.tokens
    ensures t in After(l, txs).tokens
    ensures var (s, s') := (l.tokens[t], After(l, txs).tokens[t]);
            s'.supply - Sum(s'.balances) == s.supply - Sum(s.balances)
  {
    RunEvolves(l, txs);
    assert TokenEvolves(l, Trace(l, txs), After(l, txs), t);
    R.SupplyConserved(l.tokens[t], CallsOn(Trace(l, txs), t), After(l, txs).tokens[t]);
  }

  /** Every token fresh from `init`, and no swap logged. */
  ghost predicate Genesis(l: Ledger) {
    && WellFormed(l)
    && (forall t <- l.tokens :: Fresh(l.tokens[t]))
    && l.swap.logs == map[]
  }

  ghost predicate Fresh(s: T.State) {
    exists entries, admin :: T.Init(entries, admin) == Ok(s)
  }

  lemma FreshCovered(s: T.State)
    requires Fresh(s)
    ensures Sum(s.balances) <= s.supply
  {
    var entries, admin :| T.Init(entries, admin) == Ok(s);
    R.InitGap(entries, admin, s);
  }

  /** In every reachable ledger each token's supply covers its balances. */
  lemma ReachableCovered(l: Ledger, txs: seq<Tx>, t: Addr)
    requires Genesis(l) && t in l.tokens
    ensures t in After(l, txs).tokens
    ensures Sum(After(l, txs).tokens[t].balances) <= After(l, txs).tokens[t].supply
  {
    hide Sum, Fresh;
    FreshCovered(l.tokens[t]);
    LedgerConserves(l, txs, t);
  }

  // ---- The swap log records exactly what the swap contract burns ----

  function SwapBurned(l: Ledger, trace: seq<Event>, t: Addr): nat {
    R.Burned(CallsOn(trace, t), l.swapAddr)
  }

  /** From `l` to `l'` the log of `t` grew by as much as the swap contract burned of `t`. */
  ghost predicate Balanced(l: Ledger, trace: seq<Event>, l': Ledger, t: Addr) {
    LogTotal(S.LogOf(l'.swap, t)) == LogTotal(S.LogOf(l.swap, t)) + SwapBurned(l, trace, t)
  }

  lemma {:induction false} BurnedAppend(a: seq<R.Call>, b: seq<R.Call>, who: Addr)
    ensures R.Burned(a + b, who) == R.Burned(a, who) + R.Burned(b, who)
  {
    if b == [] {
      assert a + b == a;
    } else {
      assert (a + b)[..|a + b| - 1] == a + b[..|b| - 1];
      BurnedAppend(a, b[..|b| - 1], who);
    }
  }

  lemma BalancedThen(l: Ledger, a: seq<Event>, l1: Ledger, b: seq<Event>, l2: Ledger, t: Addr)
    requires Balanced(l, a, l1, t) && Balanced(l1, b, l2, t) && l1.swapAddr == l.swapAddr
    ensures Balanced(l, a + b, l2, t)
  {
    CallsOnAppend(a, b, t);
    BurnedAppend(CallsOn(a, t), CallsOn(b, t), l.swapAddr);
  }

  /** A call to a token by anyone but the swap contract burns nothing on its behalf. */
  lemma TokenCallBalanced(l: Ledger, sender: Addr, time: u64, c: Call, d: Delivered, t: Addr)
    requires c.target in l.tokens && DeliverToken(l, sender, time, c) == Ok(d) && sender != l.swapAddr
    ensures Balanced(l, d.events, d.ledger, t)
  {
    hide T.Handle;
    CallsOnOne(d.events[0], t);
    BurnedOne(d.events[0].call, l.swapAddr);
  }

  /** What the swap contract's handler leaves owing: only a `Receive` logs, for its sender, and it
      asks that sender to burn the same amount. */
  lemma SwapCallOwes(l: Ledger, sender: Addr, time: u64, c: Call, d: Delivered, t: Addr)
    requires DeliverSwap(l, sender, time, c) == Ok(d)
    ensures d.events == [] && |d.calls| <= 1 && SameSetting(l, d.ledger)
    ensures d.calls != [] ==>
              d.calls[0].body.ToToken? && (d.calls[0].body.tokenMsg.Burn? ==> d.calls[0].target == sender)
    ensures LogTotal(S.LogOf(d.ledger.swap, t)) == LogTotal(S.LogOf(l.swap, t)) + Owed(d.calls, t)
  {
    if c.body.swapMsg.Receive? {
      var log := S.LogOf(l.swap, sender);
      var log' := S.LogOf(d.ledger.swap, sender);
      assert log'[..|log|] == log;
    }
  }

  function Owed(calls: seq<Call>, t: Addr): nat {
    if calls != [] && calls[0].target == t && calls[0].body.ToToken? && calls[0].body.tokenMsg.Burn?
    then calls[0].body.tokenMsg.amount else 0
  }

  lemma ExecAllOne(l: Ledger, sender: Addr, time: u64, calls: seq<Call>, gas: nat, script: Script)
    requires |calls| == 1
    ensures ExecAll(l, sender, time, calls, gas, script) == Exec(l, sender, time, calls[0], gas, script)
  {
    hide Deliver;
    var r := Exec(l, sender, time, calls[0], gas, script);
    if r.Ok? {
      assert ExecAll(r.value.ledger, sender, time, calls[1..], r.value.gas, script) ==
          Ok(Done(r.value.ledger, [], r.value.gas));
      assert r.value.trace + [] == r.value.trace;
    }
  }

  /** A token call by the swap contract burns what the call says, and logs nothing. */
  lemma SwapCallLands(l: Ledger, time: u64, c: Call, gas: nat, script: Script, d: Delivered, t: Addr)
    requires WellFormed(l) && t in l.tokens && c.body.ToToken?
    requires Deliver(l, l.swapAddr, time, c, gas, script) == Ok(d)
    ensures c.target != l.swapAddr && d.ledger.swap == l.swap
    ensures SwapBurned(l, d.events, t) == Owed([c], t)
  {
    hide T.Handle, S.Handle;
    if c.target in l.tokens {
      CallsOnOne(d.events[0], t);
      BurnedOne(d.events[0].call, l.swapAddr);
    }
  }

  /** The call the swap contract emits pays what its handler owed. */
  lemma {:induction false} SwapCallPays(l: Ledger, time: u64, calls: seq<Call>, gas: nat, script: Script, r: Done,
                                        t: Addr)
    requires WellFormed(l) && t in l.tokens
    requires |calls| <= 1 && (calls != [] ==> calls[0].body.ToToken?)
    requires ExecAll(l, l.swapAddr, time, calls, gas, script) == Ok(r)
    ensures SwapBurned(l, r.trace, t) ==
            Owed(calls, t) + LogTotal(S.LogOf(r.ledger.swap, t)) - LogTotal(S.LogOf(l.swap, t))
    decreases gas, 2
  {
    hide Deliver, LogTotal;
    if calls != [] {
      ExecAllOne(l, l.swapAddr, time, calls, gas, script);
      var c := calls[0];
      var d := Deliver(l, l.swapAddr, time, c, gas, script).value;
      var rest := ExecAll(d.ledger, c.target, time, d.calls, gas - 1, script).value;
      DeliverEvolves(l, l.swapAddr, time, c, gas, script, d);
      SwapCallLands(l, time, c, gas, script, d, t);
      ExecAllBalanced(d.ledger, c.target, time, d.calls, gas - 1, script, rest, t);
      CallsOnAppend(d.events, rest.trace, t);
      BurnedAppend(CallsOn(d.events, t), CallsOn(rest.trace, t), l.swapAddr);
    }
  }

  lemma {:induction false} ExecBalanced(l: Ledger, sender: Addr, time: u64, c: Call, gas: nat, script: Script,
                                        r: Done, t: Addr)
    requires WellFormed(l) && t in l.tokens && sender != l.swapAddr
    requires Exec(l, sender, time, c, gas, script) == Ok(r)
    ensures Balanced(l, r.trace, r.ledger, t)
    decreases gas, 0
  {
    hide DeliverToken, DeliverSwap;
    var d := Deliver(l, sender, time, c, gas, script).value;
    var rest := ExecAll(d.ledger, c.target, time, d.calls, gas - 1, script).value;
    DeliverEvolves(l, sender, time, c, gas, script, d);
    if c.target == l.swapAddr {
      SwapCallOwes(l, sender, time, c, d, t);
      SwapCallPays(d.ledger, time, d.calls, gas - 1, script, rest, t);
      assert d.events + rest.trace == rest.trace;
    } else {
      if c.target in l.tokens {
        TokenCallBalanced(l, sender, time, c, d, t);
      }
      ExecAllBalanced(d.ledger, c.target, time, d.calls, gas - 1, script, rest, t);
      BalancedThen(l, d.events, d.ledger, rest.trace, rest.ledger, t);
    }
  }

  lemma {:induction false} ExecAllBalanced(l: Ledger, sender: Addr, time: u64, calls: seq<Call>, gas: nat,
                                           script: Script, r: Done, t: Addr)
    requires WellFormed(l) && t in l.tokens && sender != l.swapAddr
    requires ExecAll(l, sender, time, calls, gas, script) == Ok(r)
    ensures Balanced(l, r.trace, r.ledger, t)
    decreases gas, 1 + |calls|
  {
    if calls != [] {
      var first := Exec(l, sender, time, calls[0], gas, script).value;
      ExecBalanced(l, sender, time, calls[0], gas, script, first, t);
      ExecEvolves(l, sender, time, calls[0], gas, script, first);
      var rest := ExecAll(first.ledger, sender, time, calls[1..], first.gas, script).value;
      ExecAllBalanced(first.ledger, sender, time, calls[1..], first.gas, script, rest, t);
      BalancedThen(l, first.trace, first.ledger, rest.trace, rest.ledger, t);
    }
  }

  lemma TransactBalanced(l: Ledger, tx: Tx, t: Addr)
    requires WellFormed(l) && t in l.tokens && Signed(l, tx)
    ensures var (l', trace) := Transact(l, tx); Balanced(l, trace, l', t)
  {
    var r := Exec(l, tx.sender, tx.time, tx.call, tx.gas, tx.script);
    if r.Ok? {
      ExecBalanced(l, tx.sender, tx.time, tx.call, tx.gas, tx.script, r.value, t);
    }
  }

  /** Over any list of signed transactions, each token's swap log grows by exactly the amount the
      swap contract burns of that token. */
  lemma {:induction false} SwapLogAccounting(l: Ledger, txs: seq<Tx>, t: Addr)
    requires WellFormed(l) && t in l.tokens && (forall tx <- txs :: Signed(l, tx))
    ensures LogTotal(S.LogOf(After(l, txs).swap, t)) ==
            LogTotal(S.LogOf(l.swap, t)) + R.Burned(CallsOn(Trace(l, txs), t), l.swapAddr)
  {
    hide Transact;
    if txs != [] {
      var front, last := txs[..|txs| - 1], txs[|txs| - 1];
      SwapLogAccounting(l, front, t);
      RunEvolves(l, front);
      assert last in txs;
      TransactBalanced(After(l, front), last, t);
      BalancedThen(l, Trace(l, front), After(l, front), Transact(After(l, front), last).1, After(l, txs), t);
    }
  }
}
