/** The sums a bridge audit compares: what was deposited on Ethereum, what broadcasts minted, and
    what the Ethereum wallet paid out, each per bridge token. */
module Accounts {
  import opened Prelude
  import opened Ledger
  import P = MintProtocol
  import PS = ProtocolSafety
  import S = BridgeSwap
  import E = EthDirection

  // ---- Deposits ----

  /** The log deposits a coin that is paired with token `t`. */
  predicate OnToken(cfg: P.Config, log: P.Log, t: Addr) {
    log.ours && P.CoinOf(log) in cfg.tokens && cfg.tokens[P.CoinOf(log)] == t
  }

  function LogsTotal(cfg: P.Config, logs: seq<P.Log>, t: Addr): nat {
    if logs == [] then 0 else
      LogsTotal(cfg, logs[..|logs| - 1], t) + if OnToken(cfg, logs[|logs| - 1], t) then logs[|logs| - 1].amount else 0
  }

  function PerTransaction(cfg: P.Config, eth: map<string, seq<P.Log>>, t: Addr): map<string, nat> {
    map h | h in eth :: LogsTotal(cfg, eth[h], t)
  }

  ghost function Deposits(cfg: P.Config, eth: map<string, seq<P.Log>>, t: Addr): nat {
    Sum(PerTransaction(cfg, eth, t))
  }

  lemma {:induction false} LogsAtLeast(cfg: P.Config, logs: seq<P.Log>, t: Addr, log: P.Log)
    requires log in logs && OnToken(cfg, log, t)
    ensures log.amount <= LogsTotal(cfg, logs, t)
  {
    var front, last := logs[..|logs| - 1], logs[|logs| - 1];
    assert logs == front + [last];
    if log in front {
      LogsAtLeast(cfg, front, t, log);
    }
  }

  // ---- Mints by broadcasts ----

  function MintIn(b: P.Broadcast, t: Addr): nat {
    if b.state.Executed? && b.mint.token == t then b.mint.amount else 0
  }

  function BroadcastMints(bs: seq<P.Broadcast>, t: Addr): nat {
    if bs == [] then 0 else BroadcastMints(bs[..|bs| - 1], t) + MintIn(bs[|bs| - 1], t)
  }

  /** The part minted by broadcasts the leader gave up on. */
  function StrayAmount(bs: seq<P.Broadcast>, t: Addr): nat {
    if bs == [] then 0 else
      StrayAmount(bs[..|bs| - 1], t) + if bs[|bs| - 1].abandoned then MintIn(bs[|bs| - 1], t) else 0
  }

  lemma BroadcastMintsSnoc(bs: seq<P.Broadcast>, b: P.Broadcast, t: Addr)
    ensures BroadcastMints(bs + [b], t) == BroadcastMints(bs, t) + MintIn(b, t)
  {
    assert (bs + [b])[..|bs|] == bs;
  }

  lemma {:induction false} BroadcastMintsUpdate(bs: seq<P.Broadcast>, i: nat, b: P.Broadcast, t: Addr)
    requires i < |bs|
    ensures BroadcastMints(bs[i := b], t) == BroadcastMints(bs, t) - MintIn(bs[i], t) + MintIn(b, t)
  {
    hide MintIn;
    var n := |bs| - 1;
    if i == n {
      assert bs[i := b][..n] == bs[..n];
    } else {
      assert bs[i := b][..n] == bs[..n][i := b];
      BroadcastMintsUpdate(bs[..n], i, b, t);
    }
  }

  /** What live broadcasts minted fits under any bound per row, because no row has two of them. */
  lemma {:induction false} LiveWithin(bs: seq<P.Broadcast>, t: Addr, bound: map<string, nat>)
    requires PS.OneLive(bs)
    requires forall b <- bs :: !b.abandoned ==> MintIn(b, t) <= At(bound, b.key)
    ensures BroadcastMints(bs, t) <= StrayAmount(bs, t) + Sum(bound)
    decreases |bs|
  {
    hide Sum, MintIn;
    if bs != [] {
      var n := |bs| - 1;
      var front, b := bs[..n], bs[n];
      if b.abandoned || b.key !in bound {
        LiveWithin(front, t, bound);
      } else {
        SumRemove(bound, b.key);
        forall other | other in front && !other.abandoned ensures MintIn(other, t) <= At(bound - {b.key}, other.key) {
          var i :| 0 <= i < n && front[i] == other;
          assert bs[i] == other && other in bs;
        }
        LiveWithin(front, t, bound - {b.key});
      }
    }
  }

  /** Live broadcasts mint no more of a token than was deposited for it. */
  lemma LiveBelowDeposits(cfg: P.Config, s: P.State, t: Addr)
    requires PS.Inv(cfg, s)
    ensures BroadcastMints(s.broadcasts, t) <= StrayAmount(s.broadcasts, t) + Deposits(cfg, s.eth, t)
  {
    hide Sum, PS.Inv, LogsTotal, BroadcastMints, StrayAmount;
    PS.GlobalFacts(cfg, s);
    var bound := PerTransaction(cfg, s.eth, t);
    forall b | b in s.broadcasts && !b.abandoned ensures MintIn(b, t) <= At(bound, b.key) {
      var i :| 0 <= i < |s.broadcasts| && s.broadcasts[i] == b;
      MintDeposited(cfg, s, i, t);
    }
    LiveWithin(s.broadcasts, t, bound);
  }

  lemma MintDeposited(cfg: P.Config, s: P.State, i: nat, t: Addr)
    requires PS.Inv(cfg, s) && i < |s.broadcasts|
    ensures var b := s.broadcasts[i]; MintIn(b, t) <= At(PerTransaction(cfg, s.eth, t), b.key)
  {
    hide PS.Inv, PS.Authorizes, LogsTotal, PS.ProgressOk;
    var b := s.broadcasts[i];
    PS.BroadcastFact(cfg, s, i);
    PS.RowFact(cfg, s, b.key);
    var row := s.rows[b.key];
    assert PS.Deposited(cfg, s.eth, b.key, row);
    if b.state.Executed? && b.mint.token == t {
      var log :| log in s.eth[b.key] && PS.Backs(log, row);
      LogsAtLeast(cfg, s.eth[b.key], t, log);
    }
  }

  // ---- Payments by the wallet ----

  function PaidIn(pairs: map<E.EthToken, Addr>, sub: E.Submission, t: Addr): nat {
    if sub.token in pairs && pairs[sub.token] == t then E.Paid(sub) + sub.fee else 0
  }

  /** Amounts paid and fees charged by the submissions executed on a token. */
  function PaidOut(pairs: map<E.EthToken, Addr>, paid: seq<E.Submission>, t: Addr): nat {
    if paid == [] then 0 else PaidOut(pairs, paid[..|paid| - 1], t) + PaidIn(pairs, paid[|paid| - 1], t)
  }

  ghost predicate Injective(pairs: map<E.EthToken, Addr>) {
    forall a, b :: a in pairs && b in pairs && pairs[a] == pairs[b] ==> a == b
  }

  /** No token and nonce is paid twice. */
  ghost predicate PaidOnce(paid: seq<E.Submission>) {
    forall i, j :: 0 <= i < j < |paid| ==> paid[i].token != paid[j].token || paid[i].nonce != paid[j].nonce
  }

  lemma {:induction false} PaidWithin(pairs: map<E.EthToken, Addr>, paid: seq<E.Submission>, t: Addr,
                                      bound: map<nat, nat>)
    requires Injective(pairs) && PaidOnce(paid)
    requires forall sub <- paid :: PaidIn(pairs, sub, t) <= At(bound, sub.nonce)
    ensures PaidOut(pairs, paid, t) <= Sum(bound)
    decreases |paid|
  {
    hide Sum, E.Paid;
    if paid != [] {
      var n := |paid| - 1;
      var front, last := paid[..n], paid[n];
      if last.nonce !in bound || PaidIn(pairs, last, t) == 0 {
        PaidWithin(pairs, front, t, bound);
      } else {
        SumRemove(bound, last.nonce);
        forall sub | sub in front ensures PaidIn(pairs, sub, t) <= At(bound - {last.nonce}, sub.nonce) {
          var i :| 0 <= i < n && front[i] == sub;
          assert paid[i] == sub && sub in paid;
        }
        PaidWithin(pairs, front, t, bound - {last.nonce});
      }
    }
  }

  function ByNonce(log: seq<S.Swap>): map<nat, nat> {
    map i: nat | i < |log| :: log[i].amount
  }

  lemma {:induction false} LogTotalIsSum(log: seq<S.Swap>)
    ensures Sum(ByNonce(log)) == LogTotal(log)
  {
    if log == [] {
      assert ByNonce(log) == map[];
    } else {
      hide Sum;
      var n: nat := |log| - 1;
      LogTotalIsSum(log[..n]);
      assert ByNonce(log) == ByNonce(log[..n])[n := log[n].amount];
      SumUpdate(ByNonce(log[..n]), n, log[n].amount);
    }
  }

  // ---- By coin ----

  function CoinLogs(logs: seq<P.Log>, name: string): nat {
    if logs == [] then 0 else
      var log := logs[|logs| - 1];
      CoinLogs(logs[..|logs| - 1], name) + if log.ours && P.CoinOf(log) == name then log.amount else 0
  }

  /** What was deposited of the coin that logs call `name`. */
  ghost function CoinDeposits(eth: map<string, seq<P.Log>>, name: string): nat {
    Sum(map h | h in eth :: CoinLogs(eth[h], name))
  }

  /** What a submission costs the wallet in a coin: what it takes, and the fee, which is charged in the
      coin it names. */
  function CoinCost(sub: E.Submission, coin: E.EthToken): nat {
    E.Takes(sub, coin) + if sub.token == coin then sub.fee else 0
  }

  function CoinOut(paid: seq<E.Submission>, coin: E.EthToken): nat {
    if paid == [] then 0 else CoinOut(paid[..|paid| - 1], coin) + CoinCost(paid[|paid| - 1], coin)
  }

  /** Manager and signers read the same pairings: each paired token of Ethereum has a label of its own
      in logs, `native` for ether, and both name the same bridge token for it. */
  ghost predicate SamePairings(tokens: map<string, Addr>, pairs: map<E.EthToken, Addr>,
                               labels: map<E.EthToken, string>)
  {
    && labels.Keys == pairs.Keys
    && (forall e <- pairs :: e.Native? <==> labels[e] == "native")
    && (forall e <- pairs :: labels[e] in tokens && tokens[labels[e]] == pairs[e])
    && (forall c <- tokens :: exists e <- pairs :: labels[e] == c)
  }

  lemma LabelOfToken(cfg: P.Config, pairs: map<E.EthToken, Addr>, labels: map<E.EthToken, string>,
                     e: E.EthToken, log: P.Log)
    requires SamePairings(cfg.tokens, pairs, labels) && Injective(pairs) && e in pairs
    ensures OnToken(cfg, log, pairs[e]) <==> log.ours && P.CoinOf(log) == labels[e]
  {
    if OnToken(cfg, log, pairs[e]) {
      var e' :| e' in pairs && labels[e'] == P.CoinOf(log);
      assert pairs[e'] == pairs[e];
    }
  }

  lemma {:induction false} SameLogs(cfg: P.Config, pairs: map<E.EthToken, Addr>, labels: map<E.EthToken, string>,
                                    e: E.EthToken, logs: seq<P.Log>)
    requires SamePairings(cfg.tokens, pairs, labels) && Injective(pairs) && e in pairs
    ensures LogsTotal(cfg, logs, pairs[e]) == CoinLogs(logs, labels[e])
  {
    hide SamePairings, Injective, OnToken;
    if logs != [] {
      SameLogs(cfg, pairs, labels, e, logs[..|logs| - 1]);
      LabelOfToken(cfg, pairs, labels, e, logs[|logs| - 1]);
    }
  }

  /** What was deposited for a bridge token is what was deposited of its coin. */
  lemma DepositsByCoin(cfg: P.Config, pairs: map<E.EthToken, Addr>, labels: map<E.EthToken, string>, e: E.EthToken,
                       eth: map<string, seq<P.Log>>)
    requires SamePairings(cfg.tokens, pairs, labels) && Injective(pairs) && e in pairs
    ensures Deposits(cfg, eth, pairs[e]) == CoinDeposits(eth, labels[e])
  {
    assert e in labels;
    hide Sum, LogsTotal, CoinLogs, SamePairings, Injective;
    forall h | h in eth ensures LogsTotal(cfg, eth[h], pairs[e]) == CoinLogs(eth[h], labels[e]) {
      SameLogs(cfg, pairs, labels, e, eth[h]);
    }
    assert PerTransaction(cfg, eth, pairs[e]) == map h | h in eth :: CoinLogs(eth[h], labels[e]);
  }

  /** Where every payment fits, what left the wallet in a coin is what was paid on its bridge token. */
  lemma {:induction false} PaidByCoin(pairs: map<E.EthToken, Addr>, paid: seq<E.Submission>, coin: E.EthToken)
    requires Injective(pairs) && coin in pairs && forall sub <- paid :: E.Fits(sub)
    ensures CoinOut(paid, coin) == PaidOut(pairs, paid, pairs[coin])
  {
    if paid != [] {
      hide E.Fits, E.Takes, E.Paid;
      var front, last := paid[..|paid| - 1], paid[|paid| - 1];
      assert last in paid && forall sub <- front :: sub in paid;
      PaidByCoin(pairs, front, coin);
      E.FitsExactly(last);
      assert E.Takes(last, coin) == if coin == last.token then E.Paid(last) else 0;
    }
  }
}
