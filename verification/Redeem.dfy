/** Sending bridge tokens to the swap contract: `Send` or `SendFrom` on the token, `Receive` on the
    swap contract, `Burn` back on the token, in one transaction. */
module Redeem {
  import opened Prelude
  import opened Ledger
  import opened LedgerRuns
  import opened Registration
  import T = BridgeToken
  import S = BridgeSwap
  import R = TokenRuns
  import TR = TokenRules
  import SR = SwapRules

  /** A call that sends tokens of `c.target` to the swap contract. */
  ghost predicate SendsToSwap(l: Ledger, c: Call) {
    && c.target in l.tokens && c.body.ToToken?
    && (c.body.tokenMsg.Send? || c.body.tokenMsg.SendFrom?) && c.body.tokenMsg.recipient == l.swapAddr
  }

  /** The token notifies the swap contract. */
  predicate Notifies(l: Ledger, t: Addr)
    requires t in l.tokens
  {
    l.swapAddr in l.tokens[t].receivers
  }

  function Payer(sender: Addr, m: T.Msg): Addr
    requires m.Send? || m.SendFrom?
  {
    if m.Send? then sender else m.owner
  }

  /** The token's handler takes the call. */
  predicate Handled(l: Ledger, sender: Addr, time: u64, c: Call, gas: nat)
    requires c.target in l.tokens && c.body.ToToken?
  {
    gas > 0 && c.codeHash == l.tokenHash && T.Handle(l.tokens[c.target], Env(sender, time), c.body.tokenMsg).Ok?
  }

  /** What the token asks of a send, all of it readable from the ledger: it runs, the addresses are well
      formed, the payer holds the amount and, to a third party, allows it by an allowance that has
      not expired, and there is room to record the transfer. */
  predicate Sends(l: Ledger, sender: Addr, time: u64, c: Call, gas: nat)
    requires c.target in l.tokens && c.body.ToToken? && (c.body.tokenMsg.Send? || c.body.tokenMsg.SendFrom?)
  {
    && gas > 0 && c.codeHash == l.tokenHash
    && TR.MayMove(l.tokens[c.target], R.Call(Env(sender, time), c.body.tokenMsg),
                  R.Move(Payer(sender, c.body.tokenMsg), sender, c.body.tokenMsg.recipient, c.body.tokenMsg.amount))
  }

  lemma SendsIsHandled(l: Ledger, sender: Addr, time: u64, c: Call, gas: nat)
    requires SendsToSwap(l, c) && Sum(l.tokens[c.target].balances) <= l.tokens[c.target].supply
    ensures Sends(l, sender, time, c, gas) <==> Handled(l, sender, time, c, gas)
  {
    hide Sum, T.Handle, TR.MayMove;
    var m := c.body.tokenMsg;
    TR.TransferExactly(l.tokens[c.target], R.Call(Env(sender, time), m),
                       R.Move(Payer(sender, m), sender, m.recipient, m.amount));
  }

  /** From `l` to `l'` the payer's tokens moved to the swap contract's own account and nothing was
      burned or logged: a plain transfer. */
  ghost predicate Stranded(l: Ledger, t: Addr, payer: Addr, amount: nat, l': Ledger)
    requires t in l.tokens
  {
    && t in l'.tokens
    && var s, s' := l.tokens[t], l'.tokens[t];
    && (forall a :: At(s'.balances, a) ==
                    At(s.balances, a) - (if a == payer then amount else 0) + (if a == l.swapAddr then amount else 0))
    && s' == s.(balances := s'.balances, history := s'.history, txCount := s'.txCount, allowances := s'.allowances)
    && l' == l.(tokens := l.tokens[t := s'])
  }

  /** What the swap contract asks of a `Receive` from token `t`. */
  predicate Accepts(s: S.State, t: Addr, amount: nat, payload: Option<Destination>) {
    && !s.paused
    && S.Lookup(s.whitelist, t).Some? && S.Lookup(s.whitelist, t).value.minimum <= amount
    && payload.Some? && payload.value.EthAddress?
    && |S.LogOf(s, t)| + 1 < U32
  }

  /** The two contracts know each other's code. */
  predicate Linked(l: Ledger, t: Addr)
    requires t in l.tokens
  {
    && l.swapAddr in l.tokens[t].receivers && l.tokens[t].receivers[l.swapAddr] == l.swapHash
    && S.Lookup(l.swap.whitelist, t).Some? && S.Lookup(l.swap.whitelist, t).value.codeHash == l.tokenHash
  }

  /** From `l` to `l'` the payer lost `amount` of token `t`, nobody else gained or lost any, the
      supply dropped as much, and one swap record was appended; nothing else changed but the
      token's transfer history, its counter and the spent allowance. */
  ghost predicate Redeemed(l: Ledger, t: Addr, payer: Addr, amount: nat, destination: Destination, l': Ledger)
    requires t in l.tokens
  {
    && t in l'.tokens
    && var s, s', log := l.tokens[t], l'.tokens[t], S.LogOf(l.swap, t);
    && (forall a :: At(s'.balances, a) == At(s.balances, a) - if a == payer then amount else 0)
    && amount <= s.supply && s'.supply == s.supply - amount
    && s' == s.(balances := s'.balances, supply := s'.supply, history := s'.history, txCount := s'.txCount,
                allowances := s'.allowances)
    && |log| < U32 && amount < U128
    && l' == l.(tokens := l.tokens[t := s'],
                swap := l.swap.(logs := l.swap.logs[t := log + [S.Swap(destination, payer, amount, t, |log|)]]))
  }

  /** The token's own part: the transfer to the swap contract, and its callback. */
  lemma SendPart(l: Ledger, sender: Addr, time: u64, c: Call, s1: T.State)
    requires SendsToSwap(l, c)
    requires T.Handle(l.tokens[c.target], Env(sender, time), c.body.tokenMsg).Ok?
    requires s1 == T.Handle(l.tokens[c.target], Env(sender, time), c.body.tokenMsg).value.0
    ensures var s, m, payer := l.tokens[c.target], c.body.tokenMsg, Payer(sender, c.body.tokenMsg);
            && m.amount <= At(s.balances, payer)
            && (forall a :: At(s1.balances, a) ==
                            At(s.balances, a) - (if a == payer then m.amount else 0) +
                                (if a == l.swapAddr then m.amount else 0))
            && Sum(s1.balances) == Sum(s.balances)
            && s1 == s.(balances := s1.balances, history := s1.history, txCount := s1.txCount,
                        allowances := s1.allowances)
    ensures T.Handle(l.tokens[c.target], Env(sender, time), c.body.tokenMsg).value.1 ==
            if l.swapAddr !in s1.receivers then None else
              Some(T.Callback(l.swapAddr, s1.receivers[l.swapAddr], sender, Payer(sender, c.body.tokenMsg),
                              c.body.tokenMsg.amount, c.body.tokenMsg.payload))
    ensures s1.status == T.NormalRun
  {
    var s, call := l.tokens[c.target], R.Call(Env(sender, time), c.body.tokenMsg);
    var m := R.MoveOf(call).value;
    HandleEmits(s, call, s1, l.swapAddr);
    hide T.Handle, Sum, R.Moved, R.Recorded, T.SpendAllowance;
    R.MoveEffect(s, call, m, s1);
    R.MovedKeepsSum(s.balances, m.owner, m.receiver, m.amount);
    forall a
      ensures At(s1.balances, a) ==
              At(s.balances, a) - (if a == m.owner then m.amount else 0) + (if a == m.receiver then m.amount else 0)
    {
      R.MovedAt(s.balances, m.owner, m.receiver, m.amount, a);
    }
  }

  lemma HandleEmits(s: T.State, c: R.Call, s1: T.State, recipient: Addr)
    requires c.msg.Send? || c.msg.SendFrom?
    requires R.Succeeds(s, c, s1) && c.msg.recipient == recipient
    ensures T.Handle(s, c.env, c.msg).value.1 ==
            T.CallbackTo(s1, recipient, c.env.sender, Payer(c.env.sender, c.msg), c.msg.amount, c.msg.payload)
    ensures s.status == T.NormalRun
  {
    hide T.Change;
  }

  /** Once the swap contract has accepted, the burn it asks for cannot fail. */
  lemma BurnPart(s: T.State, who: Addr, time: u64, amount: u128)
    requires who.Account? && s.status == T.NormalRun
    requires Sum(s.balances) <= s.supply && amount <= At(s.balances, who)
    ensures amount <= s.supply
    ensures T.Handle(s, Env(who, time), T.Burn(amount)) ==
            Ok((s.(balances := s.balances[who := At(s.balances, who) - amount], supply := s.supply - amount), None))
  {
    hide Sum;
    SumAtLeast(s.balances, who);
  }

  lemma ReceivePart(l: Ledger, t: Addr, time: u64, from: Addr, amount: u128, payload: Option<Destination>)
    requires t.Account?
    ensures var r := S.Handle(l.swap, Env(t, time), l.swapHash, S.Receive(from, payload, amount));
            var log := S.LogOf(l.swap, t);
            if Accepts(l.swap, t, amount, payload) then
              r == Ok((l.swap.(logs := l.swap.logs[t := log + [S.Swap(payload.value, from, amount, t, |log|)]]),
                       Some(S.Outgoing(t, S.Lookup(l.swap.whitelist, t).value.codeHash, T.Burn(amount)))))
            else r.Err?
  {
  }

  lemma ExecLeaf(l: Ledger, sender: Addr, time: u64, c: Call, gas: nat, script: Script)
    requires gas > 0 && Deliver(l, sender, time, c, gas, script).Ok?
    requires Deliver(l, sender, time, c, gas, script).value.calls == []
    ensures var d := Deliver(l, sender, time, c, gas, script).value;
            Exec(l, sender, time, c, gas, script) == Ok(Done(d.ledger, d.events, gas - 1))
  {
    hide Deliver;
    var d := Deliver(l, sender, time, c, gas, script).value;
    assert d.events + [] == d.events;
  }

  /** The last leg: the swap contract's burn on token `t`. */
  lemma BurnLeg(l: Ledger, t: Addr, time: u64, codeHash: nat, amount: u128, gas: nat, script: Script)
    requires WellFormed(l) && t in l.tokens && l.tokens[t].status == T.NormalRun
    requires Sum(l.tokens[t].balances) <= l.tokens[t].supply && amount <= At(l.tokens[t].balances, l.swapAddr)
    ensures var r := Exec(l, l.swapAddr, time, Call(t, codeHash, ToToken(T.Burn(amount))), gas, script);
            var s := l.tokens[t];
            if gas > 0 && codeHash == l.tokenHash then
              && amount <= s.supply
              && r.Ok? && r.value.ledger == l.(tokens := l.tokens[t :=
                   s.(balances := s.balances[l.swapAddr := At(s.balances, l.swapAddr) - amount],
                      supply := s.supply - amount)])
              && r.value.trace == [Event(t, R.Call(Env(l.swapAddr, time), T.Burn(amount)))]
            else r.Err?
  {
    hide Sum, T.Handle, Exec, ExecAll;
    var c := Call(t, codeHash, ToToken(T.Burn(amount)));
    BurnPart(l.tokens[t], l.swapAddr, time, amount);
    if gas > 0 && codeHash == l.tokenHash {
      ExecLeaf(l, l.swapAddr, time, c, gas, script);
    } else {
      ExecFails(l, l.swapAddr, time, c, gas, script);
    }
  }

  lemma ExecFails(l: Ledger, sender: Addr, time: u64, c: Call, gas: nat, script: Script)
    requires gas == 0 || Deliver(l, sender, time, c, gas, script).Err?
    ensures Exec(l, sender, time, c, gas, script).Err?
  {
  }

  /** A delivered call that emits one more: the whole succeeds exactly when that one does. */
  lemma ExecChain(l: Ledger, sender: Addr, time: u64, c: Call, gas: nat, script: Script)
    requires gas > 0 && Deliver(l, sender, time, c, gas, script).Ok?
    requires |Deliver(l, sender, time, c, gas, script).value.calls| == 1
    ensures var d := Deliver(l, sender, time, c, gas, script).value;
            var next := Exec(d.ledger, c.target, time, d.calls[0], gas - 1, script);
            match Exec(l, sender, time, c, gas, script)
            case Ok(r) => next.Ok? && r.ledger == next.value.ledger && r.trace == d.events + next.value.trace
            case Err(_) => next.Err?
  {
    hide Deliver;
    var d := Deliver(l, sender, time, c, gas, script).value;
    ExecAllOne(d.ledger, c.target, time, d.calls, gas - 1, script);
  }

  /** The middle leg: the token's callback to the swap contract, with the burn it causes. */
  lemma ReceiveLeg(l: Ledger, t: Addr, time: u64, codeHash: nat, from: Addr, amount: u128, payload: Option<Destination>,
                   gas: nat, script: Script)
    requires WellFormed(l) && t in l.tokens && l.tokens[t].status == T.NormalRun
    requires Sum(l.tokens[t].balances) <= l.tokens[t].supply && amount <= At(l.tokens[t].balances, l.swapAddr)
    ensures var c := Call(l.swapAddr, codeHash, ToSwap(S.Receive(from, payload, amount)));
            var r := Exec(l, t, time, c, gas, script);
            var s, log := l.tokens[t], S.LogOf(l.swap, t);
            if gas >= 2 && codeHash == l.swapHash && Accepts(l.swap, t, amount, payload)
               && S.Lookup(l.swap.whitelist, t).value.codeHash == l.tokenHash
            then
              && amount <= s.supply
              && r.Ok? && r.value.ledger == l.(
                   tokens := l.tokens[t := s.(balances := s.balances[l.swapAddr := At(s.balances, l.swapAddr) - amount],
                                              supply := s.supply - amount)],
                   swap := l.swap.(logs := l.swap.logs[t := log + [S.Swap(payload.value, from, amount, t, |log|)]]))
              && r.value.trace == [Event(t, R.Call(Env(l.swapAddr, time), T.Burn(amount)))]
            else r.Err?
  {
    hide Sum, S.Handle, Exec, ExecAll, S.Lookup;
    var c := Call(l.swapAddr, codeHash, ToSwap(S.Receive(from, payload, amount)));
    ReceivePart(l, t, time, from, amount, payload);
    if gas > 0 && codeHash == l.swapHash && Accepts(l.swap, t, amount, payload) {
      var d := Deliver(l, t, time, c, gas, script).value;
      ExecChain(l, t, time, c, gas, script);
      BurnLeg(d.ledger, t, time, S.Lookup(l.swap.whitelist, t).value.codeHash, amount, gas - 1, script);
      assert d.events == [];
    } else {
      ExecFails(l, t, time, c, gas, script);
    }
  }

  /** The transfer to the swap contract and its burn of the same amount, put together. */
  lemma Composed(l: Ledger, t: Addr, payer: Addr, amount: u128, destination: Destination, s1: T.State, l': Ledger)
    requires t in l.tokens && amount <= At(s1.balances, l.swapAddr) && amount <= s1.supply
    requires forall a :: At(s1.balances, a) == At(l.tokens[t].balances, a)
                           - (if a == payer then amount else 0) + (if a == l.swapAddr then amount else 0)
    requires s1 == l.tokens[t].(balances := s1.balances, history := s1.history, txCount := s1.txCount,
                                allowances := s1.allowances)
    requires |S.LogOf(l.swap, t)| < U32
    requires var log := S.LogOf(l.swap, t);
             var left := At(s1.balances, l.swapAddr) - amount;
             l' == l.(tokens := l.tokens[t := s1.(balances := s1.balances[l.swapAddr := left], supply := s1.supply - amount)],
                      swap := l.swap.(logs := l.swap.logs[t := log + [S.Swap(destination, payer, amount, t, |log|)]]))
    ensures Redeemed(l, t, payer, amount, destination, l')
  {
  }

  /** Sending tokens to a swap contract the token notifies: it succeeds exactly when the token accepts
      the transfer, the swap contract accepts the notice, the two name each other's code and there
      is gas for three calls; in particular no burn fails after an accepted notice. */
  lemma SendNotified(l: Ledger, sender: Addr, time: u64, c: Call, gas: nat, script: Script)
    requires WellFormed(l) && SendsToSwap(l, c) && Notifies(l, c.target)
    requires Sum(l.tokens[c.target].balances) <= l.tokens[c.target].supply
    ensures var t, m := c.target, c.body.tokenMsg;
            var r := Exec(l, sender, time, c, gas, script);
            && (r.Ok? <==> Sends(l, sender, time, c, gas) && gas >= 3
                           && Accepts(l.swap, t, m.amount, m.payload) && Linked(l, t))
            && (r.Ok? ==>
                && Redeemed(l, t, Payer(sender, m), m.amount, m.payload.value, r.value.ledger)
                && r.value.trace == [Event(t, R.Call(Env(sender, time), m)),
                                     Event(t, R.Call(Env(l.swapAddr, time), T.Burn(m.amount)))])
  {
    hide Sum, T.Handle, S.Handle, Exec, ExecAll, S.Lookup, Sends, Redeemed;
    SendsIsHandled(l, sender, time, c, gas);
    var t, m, env := c.target, c.body.tokenMsg, Env(sender, time);
    if Handled(l, sender, time, c, gas) {
      var s1 := T.Handle(l.tokens[t], env, m).value.0;
      SendPart(l, sender, time, c, s1);
      var d := Deliver(l, sender, time, c, gas, script).value;
      ExecChain(l, sender, time, c, gas, script);
      ReceiveLeg(d.ledger, t, time, s1.receivers[l.swapAddr], Payer(sender, m), m.amount, m.payload, gas - 1, script);
      assert d.ledger.tokens[t] == s1 && l.tokens[t := s1][t := s1] == l.tokens[t := s1];
      var r := Exec(l, sender, time, c, gas, script);
      if r.Ok? {
        assert r.value.ledger.tokens == l.tokens[t := r.value.ledger.tokens[t]];
        Composed(l, t, Payer(sender, m), m.amount, m.payload.value, s1, r.value.ledger);
      }
    } else {
      ExecFails(l, sender, time, c, gas, script);
    }
  }

  /** Where the token does not notify the swap contract, a send is a plain transfer to it. */
  lemma SendUnnoticed(l: Ledger, sender: Addr, time: u64, c: Call, gas: nat, script: Script)
    requires WellFormed(l) && SendsToSwap(l, c) && !Notifies(l, c.target)
    ensures var t, m := c.target, c.body.tokenMsg;
            var r := Exec(l, sender, time, c, gas, script);
            && (r.Ok? <==> Handled(l, sender, time, c, gas))
            && (r.Ok? ==>
                && Stranded(l, t, Payer(sender, m), m.amount, r.value.ledger)
                && r.value.trace == [Event(t, R.Call(Env(sender, time), m))])
  {
    hide Sum, T.Handle, S.Handle, Exec, ExecAll, S.Lookup;
    if Handled(l, sender, time, c, gas) {
      var s1 := T.Handle(l.tokens[c.target], Env(sender, time), c.body.tokenMsg).value.0;
      SendPart(l, sender, time, c, s1);
      ExecLeaf(l, sender, time, c, gas, script);
    } else {
      ExecFails(l, sender, time, c, gas, script);
    }
  }

  /** Every send to the swap contract, on any ledger: when it succeeds, and what it then does. */
  lemma SendToSwap(l: Ledger, sender: Addr, time: u64, c: Call, gas: nat, script: Script)
    requires WellFormed(l) && SendsToSwap(l, c)
    requires Sum(l.tokens[c.target].balances) <= l.tokens[c.target].supply
    ensures var t, m := c.target, c.body.tokenMsg;
            Exec(l, sender, time, c, gas, script).Ok? <==>
              && Sends(l, sender, time, c, gas)
              && (Notifies(l, t) ==> gas >= 3 && Accepts(l.swap, t, m.amount, m.payload) && Linked(l, t))
    ensures var t, m := c.target, c.body.tokenMsg;
            match Exec(l, sender, time, c, gas, script)
            case Ok(r) =>
              if Notifies(l, t) then Redeemed(l, t, Payer(sender, m), m.amount, m.payload.value, r.ledger)
              else Stranded(l, t, Payer(sender, m), m.amount, r.ledger)
            case Err(_) => true
  {
    hide Exec, T.Handle, Redeemed, Stranded, S.Lookup, Sum, Linked, Sends;
    SendsIsHandled(l, sender, time, c, gas);
    if Notifies(l, c.target) {
      SendNotified(l, sender, time, c, gas, script);
    } else {
      SendUnnoticed(l, sender, time, c, gas, script);
    }
  }

  /** On every ledger reached by signed transactions, a transaction that sends tokens to the swap contract
      has exactly one of three outcomes. If the token does not notify the swap contract, which then
      does not list it either, the tokens move to the swap contract and stay there. If it does, they
      are redeemed, the exact amount burned and logged, when both contracts accept; and nothing at
      all changes otherwise. */
  lemma RedeemAtomic(l0: Ledger, txs: seq<Tx>, tx: Tx)
    requires Unused(l0) && (forall x <- txs :: Signed(l0, x)) && SendsToSwap(After(l0, txs), tx.call)
    ensures var l, t, m := After(l0, txs), tx.call.target, tx.call.body.tokenMsg;
            var sends := Sends(l, tx.sender, tx.time, tx.call, tx.gas);
            && (S.Lookup(l.swap.whitelist, t).Some? ==> Notifies(l, t))
            && if sends && !Notifies(l, t) then
                 Stranded(l, t, Payer(tx.sender, m), m.amount, Transact(l, tx).0)
               else if sends && tx.gas >= 3 && Accepts(l.swap, t, m.amount, m.payload) then
                 Redeemed(l, t, Payer(tx.sender, m), m.amount, m.payload.value, Transact(l, tx).0)
               else Transact(l, tx) == (l, [])
  {
    hide Exec, T.Handle, Redeemed, Stranded, S.Lookup, Unused, Sum, Sends;
    var l, t := After(l0, txs), tx.call.target;
    RunEvolves(l0, txs);
    GenesisOf(l0);
    ReachableCovered(l0, txs, t);
    AlwaysRegistered(l0, txs);
    assert Sincere(l, t) && Acquainted(l, t);
    SendToSwap(l, tx.sender, tx.time, tx.call, tx.gas, tx.script);
  }

  lemma GenesisOf(l: Ledger)
    requires Unused(l)
    ensures Genesis(l)
  {
  }

  /** What was redeemed is on record: the swap contract answers for it, under the next nonce of its token,
      with the payer, the amount and the destination, at once and after any further transactions. */
  lemma RedeemedIsAnswered(l: Ledger, t: Addr, payer: Addr, amount: nat, destination: Destination, l': Ledger,
                           txs: seq<Tx>)
    requires t in l.tokens && Redeemed(l, t, payer, amount, destination, l')
    ensures var n := |S.LogOf(l.swap, t)|;
            && n < U32 && amount < U128
            && S.Query(l'.swap, n, t) == Some(S.Swap(destination, payer, amount, t, n))
            && S.Query(After(l', txs).swap, n, t) == Some(S.Swap(destination, payer, amount, t, n))
  {
    var n := |S.LogOf(l.swap, t)|;
    assert S.LogOf(l'.swap, t) == S.LogOf(l.swap, t) + [S.Swap(destination, payer, amount, t, n)];
    hide Redeemed, S.LogOf;
    SR.QueryExactly(l'.swap, n, t);
    SameLog(l'.swap, t);
    QueryStable(l', txs, n, t);
  }

  lemma SameLog(s: S.State, t: Addr)
    ensures S.LogOf(s, t) == SR.Stored(s, t)
  {
  }
}
