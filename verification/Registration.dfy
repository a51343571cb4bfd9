/** The swap contract and its tokens know each other: adding a token and registering with it commit
    together, so on every reachable ledger a listed token has the swap contract registered. */
module Registration {
  import opened Prelude
  import opened Ledger
  import opened LedgerRuns
  import T = BridgeToken
  import S = BridgeSwap

  /** Whoever the token notifies at the swap contract's address, it is the swap contract. */
  predicate Sincere(l: Ledger, t: Addr)
    requires t in l.tokens
  {
    l.swapAddr in l.tokens[t].receivers ==> l.tokens[t].receivers[l.swapAddr] == l.swapHash
  }

  /** A listed token runs the token code it is listed with and has the swap contract registered. */
  predicate Acquainted(l: Ledger, t: Addr)
    requires t in l.tokens
  {
    match S.Lookup(l.swap.whitelist, t)
    case Some(e) => e.codeHash == l.tokenHash && l.swapAddr in l.tokens[t].receivers
    case None => true
  }

  ghost predicate Registered(l: Ledger) {
    S.Distinct(l.swap.whitelist) && forall t <- l.tokens :: Sincere(l, t) && Acquainted(l, t)
  }

  /** The registration that a call list still has to make for a token listed a moment ago. */
  predicate Registers(l: Ledger, calls: seq<Call>, t: Addr) {
    && |calls| == 1 && calls[0].target == t && calls[0].body == ToToken(T.RegisterReceive(l.swapHash))
    && match S.Lookup(l.swap.whitelist, t) case Some(e) => e.codeHash == calls[0].codeHash case None => false
  }

  ghost predicate RegisteredBut(l: Ledger, calls: seq<Call>) {
    && S.Distinct(l.swap.whitelist)
    && (forall t <- l.tokens :: Sincere(l, t) && (Acquainted(l, t) || Registers(l, calls, t)))
  }

  /** What the swap contract may ask of a token. */
  predicate Polite(l: Ledger, calls: seq<Call>) {
    && |calls| <= 1
    && (forall c <- calls ::
          c.body.ToToken? && (c.body.tokenMsg.RegisterReceive? ==> c.body.tokenMsg.codeHash == l.swapHash))
  }

  lemma SwapCallRegisters(l: Ledger, sender: Addr, time: u64, c: Call, d: Delivered)
    requires Registered(l) && DeliverSwap(l, sender, time, c) == Ok(d)
    ensures RegisteredBut(d.ledger, d.calls) && Polite(d.ledger, d.calls)
  {
    hide S.Added, S.Removed, S.Lookup, S.Distinct, S.BurnToken, S.MintToken;
    match c.body.swapMsg {
      case AddToken(a, h, min) => S.AddedLists(l.swap.whitelist, S.TokenEntry(a, h, min));
      case RemoveToken(a) => S.RemovedDelists(l.swap.whitelist, a);
      case Receive(from, payload, n) =>
        BurnKeepsWhitelist(l.swap, Env(sender, time), from, n, payload);
        BurnAsksToBurn(l.swap, Env(sender, time), from, n, payload);
      case MintFromExtChain(a, _, n, t) =>
        MintKeepsState(l.swap, a, n, t);
        MintAsksToMint(l.swap, a, n, t);
      case _ =>
    }
    forall t | t in d.ledger.tokens
      ensures Sincere(d.ledger, t) && (Acquainted(d.ledger, t) || Registers(d.ledger, d.calls, t))
    {
      assert Sincere(l, t) && Acquainted(l, t);
    }
  }

  lemma BurnAsksToBurn(s: S.State, env: Env, from: Addr, amount: u128, payload: Option<Destination>)
    ensures var r := S.BurnToken(s, env, from, amount, payload);
            r.Ok? ==> r.value.1.Some? && r.value.1.value.msg == T.Burn(amount)
  {
    hide S.Lookup;
  }

  lemma MintAsksToMint(s: S.State, address: Addr, amount: nat, token: Addr)
    ensures var r := S.MintToken(s, address, amount, token);
            r.Ok? ==> r.value.1.Some? && r.value.1.value.msg.Mint?
  {
    hide S.Lookup;
  }

  /** Only its own registration changes what a token holds for an address. */
  lemma ReceiversKept(s: T.State, env: Env, msg: T.Msg)
    ensures var r := T.Handle(s, env, msg);
            r.Ok? ==> r.value.0.receivers ==
                      if msg.RegisterReceive? then s.receivers[env.sender := msg.codeHash] else s.receivers
  {
    hide T.TransferImpl, T.TransferFromImpl, T.TryBurn, T.TryMint, T.TryIncreaseAllowance, T.TryDecreaseAllowance,
         T.Without, T.Emits;
    match msg {
      case Transfer(to, n) => TransferKeeps(s, env, to, n);
      case Send(to, n, _) => TransferKeeps(s, env, to, n);
      case TransferFrom(o, to, n) => TransferFromKeeps(s, env, o, to, n);
      case SendFrom(o, to, n, _) => TransferFromKeeps(s, env, o, to, n);
      case Burn(n) => BurnKeeps(s, env, n);
      case Mint(n, to) => MintKeeps(s, env, to, n);
      case IncreaseAllowance(sp, n, ex) => AllowKeeps(s, env, sp, n, ex);
      case DecreaseAllowance(sp, n, ex) => AllowKeeps(s, env, sp, n, ex);
      case _ =>
    }
  }

  lemma StoreKeeps(s: T.State, owner: Addr, sender: Addr, receiver: Addr, amount: u128)
    ensures var r := T.StoreTransfer(s, owner, sender, receiver, amount); r.Ok? ==> r.value.receivers == s.receivers
  {
  }

  lemma TransferKeeps(s: T.State, env: Env, to: Addr, amount: u128)
    ensures var r := T.TransferImpl(s, env, to, amount); r.Ok? ==> r.value.receivers == s.receivers
  {
    hide T.StoreTransfer;
    var r1 := T.PerformTransfer(s, env.sender, to, amount);
    if r1.Ok? {
      StoreKeeps(r1.value, env.sender, env.sender, to, amount);
    }
  }

  lemma TransferFromKeeps(s: T.State, env: Env, owner: Addr, to: Addr, amount: u128)
    ensures var r := T.TransferFromImpl(s, env, owner, to, amount); r.Ok? ==> r.value.receivers == s.receivers
  {
    hide T.StoreTransfer;
    var r0 := T.SpendAllowance(s, env, owner, amount);
    if r0.Ok? {
      var r1 := T.PerformTransfer(r0.value, owner, to, amount);
      if r1.Ok? {
        StoreKeeps(r1.value, owner, env.sender, to, amount);
      }
    }
  }

  lemma BurnKeeps(s: T.State, env: Env, amount: u128)
    ensures var r := T.TryBurn(s, env, amount); r.Ok? ==> r.value.receivers == s.receivers
  {
  }

  lemma MintKeeps(s: T.State, env: Env, to: Addr, amount: u128)
    ensures var r := T.TryMint(s, env, to, amount); r.Ok? ==> r.value.receivers == s.receivers
  {
  }

  lemma AllowKeeps(s: T.State, env: Env, spender: Addr, amount: u128, expiration: Option<u64>)
    ensures var r := T.TryIncreaseAllowance(s, env, spender, amount, expiration);
            r.Ok? ==> r.value.receivers == s.receivers
    ensures var r := T.TryDecreaseAllowance(s, env, spender, amount, expiration);
            r.Ok? ==> r.value.receivers == s.receivers
  {
  }

  /** A token call by anyone but the swap contract leaves its registrations alone. */
  lemma TokenCallRegistered(l: Ledger, sender: Addr, time: u64, c: Call, d: Delivered)
    requires Registered(l) && c.target in l.tokens && sender != l.swapAddr
    requires DeliverToken(l, sender, time, c) == Ok(d)
    ensures Registered(d.ledger)
  {
    hide T.Handle, S.Lookup, S.Distinct;
    ReceiversKept(l.tokens[c.target], Env(sender, time), c.body.tokenMsg);
    forall t | t in d.ledger.tokens ensures Sincere(d.ledger, t) && Acquainted(d.ledger, t) {
      assert Sincere(l, t) && Acquainted(l, t);
    }
  }

  /** The call the swap contract makes completes the registration. */
  lemma SwapCallCompletes(l: Ledger, time: u64, c: Call, d: Delivered)
    requires RegisteredBut(l, [c]) && Polite(l, [c]) && c.target in l.tokens
    requires DeliverToken(l, l.swapAddr, time, c) == Ok(d)
    ensures Registered(d.ledger)
  {
    hide T.Handle, S.Lookup, S.Distinct;
    assert c in [c];
    ReceiversKept(l.tokens[c.target], Env(l.swapAddr, time), c.body.tokenMsg);
    forall t | t in d.ledger.tokens ensures Sincere(d.ledger, t) && Acquainted(d.ledger, t) {
      assert Sincere(l, t) && (Acquainted(l, t) || Registers(l, [c], t));
    }
  }

  lemma NothingPending(l: Ledger, calls: seq<Call>)
    requires RegisteredBut(l, calls) && (calls == [] || calls[0].target !in l.tokens)
    ensures Registered(l)
  {
    hide S.Lookup, S.Distinct, Acquainted, Sincere;
  }

  lemma SwapCallLanded(l: Ledger, time: u64, c: Call, gas: nat, script: Script, d: Delivered)
    requires WellFormed(l) && RegisteredBut(l, [c]) && Polite(l, [c])
    requires Deliver(l, l.swapAddr, time, c, gas, script) == Ok(d)
    ensures c.target != d.ledger.swapAddr && WellFormed(d.ledger) && Registered(d.ledger)
  {
    hide Registered, RegisteredBut, DeliverToken, T.Handle, S.Handle, Evolves;
    assert c in [c];
    DeliverEvolves(l, l.swapAddr, time, c, gas, script, d);
    KeepsForm(l, d.events, d.ledger);
    if c.target in l.tokens {
      SwapCallCompletes(l, time, c, d);
    } else {
      NothingPending(l, [c]);
    }
  }

  /** A successful call is its delivery and then the calls it emits. */
  lemma ExecParts(l: Ledger, sender: Addr, time: u64, c: Call, gas: nat, script: Script, r: Done)
    requires Exec(l, sender, time, c, gas, script) == Ok(r)
    ensures gas > 0 && Deliver(l, sender, time, c, gas, script).Ok?
    ensures var d := Deliver(l, sender, time, c, gas, script).value;
            var rest := ExecAll(d.ledger, c.target, time, d.calls, gas - 1, script);
            rest.Ok? && r.ledger == rest.value.ledger && r.trace == d.events + rest.value.trace
  {
    hide Deliver;
  }

  lemma NoCalls(l: Ledger, sender: Addr, time: u64, gas: nat, script: Script)
    ensures ExecAll(l, sender, time, [], gas, script) == Ok(Done(l, [], gas))
  {
  }

  lemma OneCall(l: Ledger, calls: seq<Call>)
    requires Polite(l, calls) && calls != []
    ensures calls == [calls[0]]
  {
  }

  lemma KeepsForm(l: Ledger, trace: seq<Event>, l': Ledger)
    requires WellFormed(l) && Evolves(l, trace, l')
    ensures WellFormed(l') && SameSetting(l, l')
  {
    hide TokenEvolves, LogExtends, S.Distinct;
  }

  lemma {:induction false} SwapCallsRegistered(l: Ledger, time: u64, calls: seq<Call>, gas: nat, script: Script,
                                               r: Done)
    requires WellFormed(l) && RegisteredBut(l, calls) && Polite(l, calls)
    requires ExecAll(l, l.swapAddr, time, calls, gas, script) == Ok(r)
    ensures Registered(r.ledger)
    decreases gas, 2
  {
    hide Registered, RegisteredBut, Polite, Deliver, WellFormed, Exec, ExecAll, Evolves;
    if calls == [] {
      NothingPending(l, calls);
      NoCalls(l, l.swapAddr, time, gas, script);
    } else {
      OneCall(l, calls);
      var c := calls[0];
      ExecAllOne(l, l.swapAddr, time, calls, gas, script);
      ExecParts(l, l.swapAddr, time, c, gas, script, r);
      var d := Deliver(l, l.swapAddr, time, c, gas, script).value;
      var rest := ExecAll(d.ledger, c.target, time, d.calls, gas - 1, script).value;
      SwapCallLanded(l, time, c, gas, script, d);
      ExecAllRegistered(d.ledger, c.target, time, d.calls, gas - 1, script, rest);
    }
  }

  lemma {:induction false} ExecRegistered(l: Ledger, sender: Addr, time: u64, c: Call, gas: nat, script: Script,
                                          r: Done)
    requires WellFormed(l) && Registered(l) && sender != l.swapAddr
    requires Exec(l, sender, time, c, gas, script) == Ok(r)
    ensures Registered(r.ledger)
    decreases gas, 0
  {
    hide Registered, RegisteredBut, Polite, DeliverToken, DeliverSwap;
    var d := Deliver(l, sender, time, c, gas, script).value;
    var rest := ExecAll(d.ledger, c.target, time, d.calls, gas - 1, script).value;
    DeliverEvolves(l, sender, time, c, gas, script, d);
    if c.target == l.swapAddr {
      SwapCallRegisters(l, sender, time, c, d);
      SwapCallsRegistered(d.ledger, time, d.calls, gas - 1, script, rest);
    } else {
      if c.target in l.tokens {
        TokenCallRegistered(l, sender, time, c, d);
      }
      ExecAllRegistered(d.ledger, c.target, time, d.calls, gas - 1, script, rest);
    }
  }

  lemma {:induction false} ExecAllRegistered(l: Ledger, sender: Addr, time: u64, calls: seq<Call>, gas: nat,
                                             script: Script, r: Done)
    requires WellFormed(l) && Registered(l) && sender != l.swapAddr
    requires ExecAll(l, sender, time, calls, gas, script) == Ok(r)
    ensures Registered(r.ledger)
    decreases gas, 1 + |calls|
  {
    hide Registered;
    if calls != [] {
      var first := Exec(l, sender, time, calls[0], gas, script).value;
      ExecRegistered(l, sender, time, calls[0], gas, script, first);
      ExecEvolves(l, sender, time, calls[0], gas, script, first);
      var rest := ExecAll(first.ledger, sender, time, calls[1..], first.gas, script).value;
      ExecAllRegistered(first.ledger, sender, time, calls[1..], first.gas, script, rest);
    }
  }

  /** A ledger nobody has used yet: fresh tokens, and a swap contract without tokens and records. */
  ghost predicate Unused(l: Ledger) {
    Genesis(l) && l.swap.whitelist == []
  }

  lemma FreshNotifiesNobody(s: T.State)
    requires Fresh(s)
    ensures s.receivers == map[]
  {
  }

  /** On every ledger reached by signed transactions, whatever unknown contracts do, each token the swap
      contract lists runs the code it is listed with and has the swap contract registered under its
      own code: `AddToken` and its registration happen together or not at all. */
  lemma {:induction false} AlwaysRegistered(l: Ledger, txs: seq<Tx>)
    requires Unused(l) && (forall tx <- txs :: Signed(l, tx))
    ensures Registered(After(l, txs))
  {
    hide Registered, Exec;
    if txs == [] {
      UnusedRegistered(l);
    } else {
      var front, tx := txs[..|txs| - 1], txs[|txs| - 1];
      AlwaysRegistered(l, front);
      RunEvolves(l, front);
      assert tx in txs;
      var l1 := After(l, front);
      var r := Exec(l1, tx.sender, tx.time, tx.call, tx.gas, tx.script);
      if r.Ok? {
        ExecRegistered(l1, tx.sender, tx.time, tx.call, tx.gas, tx.script, r.value);
      }
    }
  }

  lemma UnusedRegistered(l: Ledger)
    requires Unused(l)
    ensures Registered(l)
  {
    hide Fresh;
    forall t | t in l.tokens ensures Sincere(l, t) {
      FreshNotifiesNobody(l.tokens[t]);
    }
  }
}
