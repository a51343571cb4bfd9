/** How far the bridge is backed, to the token: the exact account of what covers the supply, what an open
    mint does to it, the precautions under which it never falls short, and the same by coin. */
module Solvency {
  import opened Prelude
  import opened Ledger
  import opened LedgerRuns
  import opened Accounts
  import opened Backing
  import Redeem
  import P = MintProtocol
  import PS = ProtocolSafety
  import G = GivingUp
  import T = BridgeToken
  import S = BridgeSwap
  import SR = SwapRules
  import R = TokenRuns
  import E = EthDirection

  /** What deposits less payments leave after covering the supply created since the start. */
  ghost function Slack(cfg: Setup, l0: Ledger, g: State, t: Addr): int
    requires t in l0.tokens && t in g.ledger.tokens
  {
    Deposits(cfg.protocol, g.desk.proto.eth, t) - PaidOut(cfg.pairs, g.paid, t)
    - (g.ledger.tokens[t].supply - l0.tokens[t].supply)
  }

  function OutsideMints(g: State, t: Addr): nat {
    R.MintedAll(CallsOn(g.outside, t))
  }

  lemma Present(cfg: Setup, l0: Ledger, g: State, t: Addr)
    requires Reachable(cfg, l0, g) && t in l0.tokens
    ensures t in g.ledger.tokens && BooksOk(l0, g, t)
    ensures SameSetting(l0, g.ledger) && WellFormed(l0) && WellFormed(g.ledger)
  {
    hide PS.Inv, E.Complete, WalletOk, LogExtends, BooksOk, Run, Start, SamePairings, Injective;
    ReachableOk(cfg, l0, g);
    assert BooksOk(l0, g, t);
  }

  /** The exact account, in every reachable state: the slack is the deposits not minted yet, plus the
      swaps logged and not paid yet, plus what holders burned outside the bridge, less what others
      than the leader minted and what given-up broadcasts minted; the first three are never negative. */
  lemma SlackExactly(cfg: Setup, l0: Ledger, g: State, t: Addr)
    requires Reachable(cfg, l0, g) && t in l0.tokens
    ensures t in g.ledger.tokens
    ensures var (out, bs) := (CallsOn(g.outside, t), g.desk.proto.broadcasts);
            var unminted := Deposits(cfg.protocol, g.desk.proto.eth, t) - (BroadcastMints(bs, t) - StrayAmount(bs, t));
            var unpaid := LogTotal(S.LogOf(g.ledger.swap, t)) - PaidOut(cfg.pairs, g.paid, t);
            var burnedOutside := R.BurnedAll(out) - R.Burned(out, l0.swapAddr);
            && unminted >= 0 && unpaid >= 0 && burnedOutside >= 0
            && Slack(cfg, l0, g, t) ==
               unminted + unpaid + burnedOutside - OutsideMints(g, t) - StrayAmount(bs, t)
  {
    Present(cfg, l0, g, t);
    hide Run, Start, PS.Inv, E.Complete, WalletOk, WellFormed, BroadcastMints, StrayAmount, Deposits, R.MintedAll,
         R.BurnedAll, R.Burned, CallsOn, LogTotal, PaidOut, LogExtends, SamePairings, Injective;
    ReachableOk(cfg, l0, g);
    BurnedWithin(CallsOn(g.outside, t), l0.swapAddr);
    LiveBelowDeposits(cfg.protocol, g.desk.proto, t);
    PaidBelowLog(cfg, l0, g, t);
  }

  // ---- Open minting ----

  /** The swap contract does not look at who asks for a mint. */
  lemma MintIsOpen(l: Ledger, a: Addr, b: Addr, time: u64, mint: P.MintTx, gas: nat, script: Script)
    requires WellFormed(l)
    ensures Exec(l, a, time, MintCall(l, mint), gas, script) == Exec(l, b, time, MintCall(l, mint), gas, script)
  {
    hide ExecAll;
  }

  /** What a mint asked of the swap contract needs, all of it readable from the ledger beforehand. */
  predicate Mintable(l: Ledger, mint: P.MintTx)
    requires mint.token in l.tokens
  {
    var s, listed := l.tokens[mint.token], S.Lookup(l.swap.whitelist, mint.token);
    && !l.swap.paused && listed.Some? && listed.value.codeHash == l.tokenHash
    && s.status == T.NormalRun && l.swapAddr in s.minters && mint.recipient.Account?
    && s.supply + mint.amount < U128
  }

  function MintedLedger(l: Ledger, mint: P.MintTx): Ledger
    requires mint.token in l.tokens && At(l.tokens[mint.token].balances, mint.recipient) + mint.amount < U128
    requires l.tokens[mint.token].supply + mint.amount < U128
  {
    var s := l.tokens[mint.token];
    l.(tokens := l.tokens[mint.token :=
      s.(supply := s.supply + mint.amount,
         balances := s.balances[mint.recipient := At(s.balances, mint.recipient) + mint.amount])])
  }

  lemma TokenMints(s: T.State, who: Addr, time: u64, recipient: Addr, amount: u128)
    requires Sum(s.balances) <= s.supply
    ensures var r := T.Handle(s, Env(who, time), T.Mint(amount, recipient));
            if s.status == T.NormalRun && who in s.minters && recipient.Account? && s.supply + amount < U128 then
              && At(s.balances, recipient) + amount < U128
              && r == Ok((s.(supply := s.supply + amount,
                             balances := s.balances[recipient := At(s.balances, recipient) + amount]), None))
            else r.Err?
  {
    hide Sum;
    SumAtLeast(s.balances, recipient);
  }

  lemma SwapAsks(l: Ledger, sender: Addr, time: u64, mint: P.MintTx, gas: nat, script: Script)
    requires WellFormed(l) && mint.token in l.tokens
    ensures var r := Deliver(l, sender, time, MintCall(l, mint), gas, script);
            var listed := S.Lookup(l.swap.whitelist, mint.token);
            if mint.amount < U128 && !l.swap.paused && listed.Some? then
              r == Ok(Delivered(l, [], [Call(mint.token, listed.value.codeHash,
                                             ToToken(T.Mint(mint.amount, mint.recipient)))]))
            else r.Err?
  {
    hide S.Lookup;
  }

  /** Whoever asks, a mint through the swap contract succeeds if and only if there is gas for two calls
      and the ledger allows it, and it then adds the amount to supply and recipient and changes
      nothing else. */
  lemma MintExactly(l: Ledger, sender: Addr, time: u64, mint: P.MintTx, gas: nat, script: Script)
    requires WellFormed(l) && mint.token in l.tokens
    requires Sum(l.tokens[mint.token].balances) <= l.tokens[mint.token].supply
    ensures var r := Exec(l, sender, time, MintCall(l, mint), gas, script);
            && (r.Ok? <==> gas >= 2 && Mintable(l, mint))
            && (r.Ok? ==>
                && At(l.tokens[mint.token].balances, mint.recipient) + mint.amount < U128
                && r.value.ledger == MintedLedger(l, mint)
                && r.value.trace == [Event(mint.token, R.Call(Env(l.swapAddr, time),
                                                              T.Mint(mint.amount, mint.recipient)))])
  {
    hide Exec, ExecAll, T.Handle, S.Lookup, Sum, Deliver;
    var c := MintCall(l, mint);
    SwapAsks(l, sender, time, mint, gas, script);
    if gas == 0 || Deliver(l, sender, time, c, gas, script).Err? {
      Redeem.ExecFails(l, sender, time, c, gas, script);
    } else {
      Redeem.ExecChain(l, sender, time, c, gas, script);
      var c2 := Deliver(l, sender, time, c, gas, script).value.calls[0];
      TokenMints(l.tokens[mint.token], l.swapAddr, time, mint.recipient, mint.amount);
      MintDelivered(l, time, c2, gas, script);
      if gas == 1 || Deliver(l, c.target, time, c2, gas - 1, script).Err? {
        Redeem.ExecFails(l, c.target, time, c2, gas - 1, script);
      } else {
        Redeem.ExecLeaf(l, c.target, time, c2, gas - 1, script);
      }
    }
  }

  /** Delivering the mint to the token is its handler, if the code hash is right. */
  lemma MintDelivered(l: Ledger, time: u64, c: Call, gas: nat, script: Script)
    requires c.target in l.tokens && c.body.ToToken? && gas > 0
    ensures Deliver(l, l.swapAddr, time, c, gas - 1, script) == DeliverToken(l, l.swapAddr, time, c)
  {
  }

  /** What a user's own transaction does to the slack: it falls by what the transaction mints and grows
      by what it burns. */
  lemma TxSlack(cfg: Setup, l0: Ledger, g: State, tx: Tx, t: Addr)
    requires Reachable(cfg, l0, g) && t in l0.tokens && tx.sender != g.ledger.swapAddr && tx.sender !in g.ledger.tokens
    ensures var g', calls := Next(cfg, g, UserTx(tx)), CallsOn(Transact(g.ledger, tx).1, t);
            && t in g.ledger.tokens && t in g'.ledger.tokens
            && Slack(cfg, l0, g', t) == Slack(cfg, l0, g, t) - R.MintedAll(calls) + R.BurnedAll(calls)
  {
    hide Deposits, PaidOut, R.MintedAll, R.BurnedAll, CallsOn, Transact, Reachable, BooksOk;
    Present(cfg, l0, g, t);
    TransactEvolves(g.ledger, tx);
    var (l, trace) := Transact(g.ledger, tx);
    assert TokenEvolves(g.ledger, trace, l, t);
    R.SupplyMatchesCalls(g.ledger.tokens[t], CallsOn(trace, t), l.tokens[t]);
  }

  /** The exact condition for a mint asked by anyone: it uses up slack by its amount if the ledger
      allows it, and so leaves the token backed if and only if it is refused and the token was backed,
      or the slack is at least the amount. All of this can be read off before the call. */
  lemma UserMintExactly(cfg: Setup, l0: Ledger, g: State, sender: Addr, time: u64, mint: P.MintTx, gas: nat,
                        script: Script)
    requires Reachable(cfg, l0, g) && mint.token in l0.tokens
    requires Sum(l0.tokens[mint.token].balances) <= l0.tokens[mint.token].supply
    requires sender != g.ledger.swapAddr && sender !in g.ledger.tokens
    ensures var g' := Next(cfg, g, UserTx(Tx(sender, time, MintCall(g.ledger, mint), gas, script)));
            && mint.token in g.ledger.tokens && mint.token in g'.ledger.tokens
            && var used := if gas >= 2 && Mintable(g.ledger, mint) then mint.amount else 0;
               && Slack(cfg, l0, g', mint.token) == Slack(cfg, l0, g, mint.token) - used
               && (Slack(cfg, l0, g', mint.token) >= 0 <==> Slack(cfg, l0, g, mint.token) >= used)
  {
    hide Deposits, PaidOut, Exec, Reachable, Sum, Mintable, MintCall, Slack;
    Present(cfg, l0, g, mint.token);
    var tx := Tx(sender, time, MintCall(g.ledger, mint), gas, script);
    TxSlack(cfg, l0, g, tx, mint.token);
    MintExactly(g.ledger, sender, time, mint, gas, script);
    var r := Exec(g.ledger, sender, time, MintCall(g.ledger, mint), gas, script);
    if r.Ok? {
      OneMint(r.value.trace[0], mint.token);
    } else {
      assert Transact(g.ledger, tx).1 == [];
    }
  }

  /** The failing case: on any ledger that allows it, one transaction of anybody mints with nothing
      deposited, and the token is short of backing by the amount. */
  lemma MintedFromNothing(cfg: Setup, l0: Ledger, chainSequence: nat, sender: Addr, time: u64, mint: P.MintTx, gas: nat,
                          script: Script)
    requires Sound(cfg, l0) && mint.token in l0.tokens && Mintable(l0, mint) && gas >= 2
    requires Sum(l0.tokens[mint.token].balances) <= l0.tokens[mint.token].supply
    requires sender != l0.swapAddr && sender !in l0.tokens
    ensures var g := Run(cfg, Start(l0, chainSequence), [UserTx(Tx(sender, time, MintCall(l0, mint), gas, script))]);
            && g.desk.proto.eth == map[] && g.paid == [] && mint.token in g.ledger.tokens
            && g.ledger.tokens[mint.token].supply == l0.tokens[mint.token].supply + mint.amount
            && Slack(cfg, l0, g, mint.token) == -(mint.amount as int)
  {
    hide Next, Mintable, MintCall, Sum, Sound;
    var g0, a := Start(l0, chainSequence), UserTx(Tx(sender, time, MintCall(l0, mint), gas, script));
    assert [a][..0] == [];
    assert Run(cfg, g0, []) == g0 && Run(cfg, g0, [a]) == Next(cfg, g0, a);
    assert Reachable(cfg, l0, g0);
    hide Run;
    UserMintExactly(cfg, l0, g0, sender, time, mint, gas, script);
    NothingMoved(cfg, l0, g0, a, mint.token);
  }

  lemma NothingMoved(cfg: Setup, l0: Ledger, g0: State, a: Action, t: Addr)
    requires t in l0.tokens && g0.ledger == l0 && g0.desk.proto.eth == map[] && g0.paid == [] && a.UserTx?
    ensures var g := Next(cfg, g0, a);
            && g.desk.proto.eth == map[] && g.paid == []
            && Slack(cfg, l0, g0, t) == 0
            && (t in g.ledger.tokens ==> Slack(cfg, l0, g, t) == l0.tokens[t].supply - g.ledger.tokens[t].supply)
  {
    hide Transact;
    assert PerTransaction(cfg.protocol, map[], t) == map[];
  }

  // ---- Precautions ----

  /** The precautions, each checkable before the action: nobody but the leader mints the token in it,
      and the leader gives up on nothing that is not dead. */
  predicate Prudent(cfg: Setup, g: State, a: Action, t: Addr) {
    && OutsideMints(Next(cfg, g, a), t) == OutsideMints(g, t)
    && (a.Work? ==> G.CarefulAction(cfg.protocol, g.desk.proto, a.action))
  }

  predicate PrudentRun(cfg: Setup, g: State, actions: seq<Action>, t: Addr) {
    actions == [] ||
    (PrudentRun(cfg, g, actions[..|actions| - 1], t)
     && Prudent(cfg, Run(cfg, g, actions[..|actions| - 1]), actions[|actions| - 1], t))
  }

  lemma ExecuteIsCareful(cfg: P.Config, s: P.State, i: nat, ok: bool)
    requires G.AbandonedAreDead(s)
    ensures G.AbandonedAreDead(P.Next(cfg, s, P.ChainExecute(i, ok)))
  {
    hide G.AbandonedAreDead;
    G.CarefulStep(cfg, s, P.ChainExecute(i, ok));
  }

  lemma PrudentStep(cfg: Setup, g: State, a: Action, t: Addr)
    requires G.AbandonedAreDead(g.desk.proto) && Prudent(cfg, g, a, t)
    ensures G.AbandonedAreDead(Next(cfg, g, a).desk.proto)
  {
    hide G.CarefulAction, OutsideMints, P.Next, Exec, Transact, MintCall, E.Build, Answer, Approvable;
    match a {
      case Work(w) => G.CarefulStep(cfg.protocol, g.desk.proto, w);
      case Execute(i, _, _, _) =>
        ExecuteIsCareful(cfg.protocol, g.desk.proto, i, true);
        ExecuteIsCareful(cfg.protocol, g.desk.proto, i, false);
      case _ =>
    }
  }

  lemma {:induction false} PrudentKeeps(cfg: Setup, g: State, actions: seq<Action>, t: Addr)
    requires G.AbandonedAreDead(g.desk.proto) && PrudentRun(cfg, g, actions, t)
    ensures G.AbandonedAreDead(Run(cfg, g, actions).desk.proto)
    ensures OutsideMints(Run(cfg, g, actions), t) == OutsideMints(g, t)
  {
    hide Next, G.AbandonedAreDead, OutsideMints;
    if actions != [] {
      var front := actions[..|actions| - 1];
      PrudentKeeps(cfg, g, front, t);
      PrudentStep(cfg, Run(cfg, g, front), actions[|actions| - 1], t);
    }
  }

  /** Over every run that takes the precautions, the token is backed throughout: deposits less payments
      cover all supply, and all holdings, created since the start. */
  lemma PrudentlyBacked(cfg: Setup, l0: Ledger, chainSequence: nat, actions: seq<Action>, t: Addr)
    requires Sound(cfg, l0) && t in l0.tokens && PrudentRun(cfg, Start(l0, chainSequence), actions, t)
    ensures var g := Run(cfg, Start(l0, chainSequence), actions);
            && t in g.ledger.tokens && Slack(cfg, l0, g, t) >= 0
            && Sum(g.ledger.tokens[t].balances) - Sum(l0.tokens[t].balances) <=
               Deposits(cfg.protocol, g.desk.proto.eth, t) - PaidOut(cfg.pairs, g.paid, t)
  {
    hide Run, PrudentRun, Sound, Deposits, PaidOut, Sum;
    var g0 := Start(l0, chainSequence);
    var g := Run(cfg, g0, actions);
    PrudentKeeps(cfg, g0, actions, t);
    assert Reachable(cfg, l0, g);
    FullyBacked(cfg, l0, g, t);
  }

  // ---- By coin ----

  /** In every reachable state, and for every paired coin of Ethereum: as far as the submissions paid so
      far fit the coin they name, what was deposited of that very coin less what left the wallet in
      it covers the supply of its bridge token, up to the stated mints. */
  lemma BackedByCoin(cfg: Setup, l0: Ledger, g: State, coin: E.EthToken)
    requires Reachable(cfg, l0, g) && coin in cfg.pairs && cfg.pairs[coin] in l0.tokens
    requires forall sub <- g.paid :: E.Fits(sub)
    ensures coin in cfg.labels && cfg.pairs[coin] in g.ledger.tokens
    ensures var t := cfg.pairs[coin];
            CoinDeposits(g.desk.proto.eth, cfg.labels[coin]) - CoinOut(g.paid, coin) >=
            g.ledger.tokens[t].supply - l0.tokens[t].supply - OutsideMints(g, t)
            - StrayAmount(g.desk.proto.broadcasts, t)
  {
    assert SamePairings(cfg.protocol.tokens, cfg.pairs, cfg.labels) && Injective(cfg.pairs) && coin in cfg.labels;
    hide Reachable, Deposits, CoinDeposits, PaidOut, CoinOut, StrayAmount, R.MintedAll, CallsOn, SamePairings,
         Injective, E.Fits;
    Backed(cfg, l0, g, cfg.pairs[coin]);
    DepositsByCoin(cfg.protocol, cfg.pairs, cfg.labels, coin, g.desk.proto.eth);
    PaidByCoin(cfg.pairs, g.paid, coin);
  }

  /** Where a submission does not fit, the coin it really takes is charged without its bridge token
      noticing: from any state whose ledger answers for an unpaid record of the ether token, a signer
      approves and the wallet pays in any other contract's token. */
  lemma PaidElsewhere(cfg: Setup, g: State, nonce: nat, fee: nat, contract: nat)
    requires E.Native in cfg.pairs && S.Query(g.ledger.swap, nonce, cfg.pairs[E.Native]).Some?
    requires var swap := S.Query(g.ledger.swap, nonce, cfg.pairs[E.Native]).value;
             swap.nonce == nonce && swap.destination.EthAddress? && swap.amount > fee
    requires forall p <- g.paid :: p.token != E.Native || p.nonce != nonce
    ensures var record := RecordOf(cfg, S.Query(g.ledger.swap, nonce, cfg.pairs[E.Native]).value);
            var sub := E.Elsewhere(record, fee, contract);
            var g' := Next(cfg, Next(cfg, g, Approve(sub)), Pay(sub));
            && CoinOut(g'.paid, E.Erc20(contract)) == CoinOut(g.paid, E.Erc20(contract)) + (record.amount - fee)
            && CoinOut(g'.paid, E.Native) == CoinOut(g.paid, E.Native) + fee
            && (Injective(cfg.pairs) && E.Erc20(contract) in cfg.pairs ==>
                  PaidOut(cfg.pairs, g'.paid, cfg.pairs[E.Erc20(contract)]) ==
                  PaidOut(cfg.pairs, g.paid, cfg.pairs[E.Erc20(contract)]))
  {
    hide S.Query;
    var record := RecordOf(cfg, S.Query(g.ledger.swap, nonce, cfg.pairs[E.Native]).value);
    var sub := E.Elsewhere(record, fee, contract);
    E.CheckMissesCoin(record, fee, contract);
    assert Approvable(cfg, g.ledger, sub);
    var g1 := Next(cfg, g, Approve(sub));
    assert Payable(g1, sub);
    assert (g.paid + [sub])[..|g.paid|] == g.paid;
  }

  // ---- From end to end ----

  /** A broadcast whose turn has come is executed if and only if the ledger allows its mint and gas suffices:
      then its amount is minted to its recipient, else it is rejected and the ledger stays; either way
      the account moves on to the next sequence. */
  lemma ExecuteExactly(cfg: Setup, l0: Ledger, g: State, i: nat, time: u64, gas: nat, script: Script)
    requires Reachable(cfg, l0, g) && i < |g.desk.proto.broadcasts|
    requires var b := g.desk.proto.broadcasts[i];
             && b.state.Pending? && b.sequence == g.desk.proto.chainSequence && b.mint.token in l0.tokens
             && Sum(l0.tokens[b.mint.token].balances) <= l0.tokens[b.mint.token].supply
    ensures var (b, g') := (g.desk.proto.broadcasts[i], Next(cfg, g, Execute(i, time, gas, script)));
            && b.mint.token in g.ledger.tokens && i < |g'.desk.proto.broadcasts|
            && var allowed := gas >= 2 && Mintable(g.ledger, b.mint);
               && g'.desk.proto.broadcasts[i] == b.(state := if allowed then P.Executed else P.Rejected)
               && g'.desk.proto.chainSequence == g.desk.proto.chainSequence + 1
               && (allowed ==> At(g.ledger.tokens[b.mint.token].balances, b.mint.recipient) + b.mint.amount < U128
                               && g'.ledger == MintedLedger(g.ledger, b.mint))
               && (!allowed ==> g'.ledger == g.ledger)
  {
    hide Exec, Reachable, Sum, Mintable, MintCall;
    var b := g.desk.proto.broadcasts[i];
    Present(cfg, l0, g, b.mint.token);
    hide BooksOk;
    MintExactly(g.ledger, cfg.multisig, time, b.mint, gas, script);
  }

  /** The ledger answers the leader if and only if its token has a record under the next nonce, and then
      with that record. */
  lemma AnswerExactly(cfg: Setup, g: State, token: Addr)
    requires E.Tracker(g.desk, Spell(cfg, token)) >= -1
    ensures var (next, log) := (E.Tracker(g.desk, Spell(cfg, token)) + 1, SR.Stored(g.ledger.swap, token));
            && (Answer(cfg, g, token).Some? <==> next < |log|)
            && (next < |log| ==>
                  var swap := log[next];
                  Answer(cfg, g, token) ==
                    Some(E.SwapRecord(swap.nonce, Spell(cfg, swap.token), swap.destination, swap.amount)))
  {
    hide S.Query;
    SR.QueryExactly(g.ledger.swap, E.Tracker(g.desk, Spell(cfg, token)) + 1, token);
  }

  /** What the leader submits for a record not paid yet is paid once a signer looked at it: amount and fee
      make up the burned amount, and no submission under the same token and nonce is paid again. */
  lemma RecordIsPaid(cfg: Setup, g: State, nonce: nat, dst: E.EthToken, fee: nat)
    requires dst in cfg.pairs && S.Query(g.ledger.swap, nonce, cfg.pairs[dst]).Some?
    requires var swap := S.Query(g.ledger.swap, nonce, cfg.pairs[dst]).value;
             swap.nonce == nonce && swap.destination.EthAddress? && swap.amount > fee
    requires forall p <- g.paid :: p.token != dst || p.nonce != nonce
    ensures var swap := S.Query(g.ledger.swap, nonce, cfg.pairs[dst]).value;
            var built := E.Build(RecordOf(cfg, swap), dst, fee);
            && built.Submit?
            && var sub := built.submission;
               var g' := Next(cfg, Next(cfg, g, Approve(sub)), Pay(sub));
               && g'.paid == g.paid + [sub]
               && PaidOut(cfg.pairs, g'.paid, cfg.pairs[dst]) ==
                  PaidOut(cfg.pairs, g.paid, cfg.pairs[dst]) + swap.amount
               && CoinOut(g'.paid, dst) == CoinOut(g.paid, dst) + swap.amount
               && (forall again: E.Submission :: again.token == dst && again.nonce == nonce ==>
                     Next(cfg, g', Pay(again)) == g')
  {
    hide S.Query, E.Validates;
    var record := RecordOf(cfg, S.Query(g.ledger.swap, nonce, cfg.pairs[dst]).value);
    E.LeaderAndSignerAgree(record, dst, fee);
    var sub := E.Build(record, dst, fee).submission;
    E.ValidatedPaysBurned(record, sub);
    E.FitsExactly(sub);
    assert E.Takes(sub, dst) == E.Paid(sub);
    hide E.Build, E.Takes, E.Paid, E.Fits, E.Asset;
    assert Approvable(cfg, g.ledger, sub);
    var g1 := Next(cfg, g, Approve(sub));
    assert Payable(g1, sub);
    var g' := Next(cfg, g1, Pay(sub));
    assert (g.paid + [sub])[..|g.paid|] == g.paid && g'.paid[|g.paid|] == sub;
    forall again: E.Submission | again.token == dst && again.nonce == nonce ensures !Payable(g', again) {
      assert sub in g'.paid;
    }
  }
}
