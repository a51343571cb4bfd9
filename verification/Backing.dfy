/** The whole bridge: users' transactions on the Secret ledger, the workers of both directions, the
    Secret chain executing the leader's broadcasts as ledger transactions, the signers approving
    Ethereum submissions against the ledger's swap records, and the Ethereum wallet. The result is an
    account per bridge token: deposits of its coin less the payments booked under it cover its supply
    up to the mints it names. Module Solvency makes the account exact, says when an open mint breaks
    it, and under which condition it is an account of the coins that really leave the wallet. */
module Backing {
  import opened Prelude
  import opened Ledger
  import opened LedgerRuns
  import opened Accounts
  import Redeem
  import P = MintProtocol
  import PS = ProtocolSafety
  import PR = ProtocolResults
  import T = BridgeToken
  import S = BridgeSwap
  import R = TokenRuns
  import E = EthDirection

  /** `pairs` gives the bridge token of each Ethereum token, `labels` what logs call that Ethereum
      token; `spelling` writes token addresses the way row keys do. `multisig` is the account that
      signs the leader's broadcasts. */
  datatype Setup = Setup(
    protocol: P.Config,
    pairs: map<E.EthToken, Addr>,
    labels: map<E.EthToken, string>,
    spelling: map<Addr, string>,
    multisig: Addr)

  /** `outside` lists the token calls that took effect other than by executing a broadcast. */
  datatype State = State(
    ledger: Ledger,
    desk: E.Desk,
    outside: seq<Event>,
    approved: set<E.Submission>,
    paid: seq<E.Submission>)

  datatype Action =
    | UserTx(tx: Tx)
    | Work(action: P.Action)
    | Execute(index: nat, time: u64, gas: nat, script: Script)
    | Scan(token: Addr, dst: E.EthToken, fee: nat, sent: bool, crash: E.Crash)
    | Approve(submission: E.Submission)
    | Pay(submission: E.Submission)

  function Spell(cfg: Setup, a: Addr): string {
    if a in cfg.spelling then cfg.spelling[a] else ""
  }

  function RecordOf(cfg: Setup, swap: S.Swap): E.SwapRecord {
    E.SwapRecord(swap.nonce, Spell(cfg, swap.token), swap.destination, swap.amount)
  }

  function MintCall(l: Ledger, mint: P.MintTx): Call {
    Call(l.swapAddr, l.swapHash, ToSwap(S.MintFromExtChain(mint.recipient, mint.hash, mint.amount, mint.token)))
  }

  /** The chain takes the broadcast at the account's current sequence and runs its call. */
  function ExecuteStep(cfg: Setup, g: State, index: nat, time: u64, gas: nat, script: Script): State {
    var bs := g.desk.proto.broadcasts;
    if index >= |bs| || !bs[index].state.Pending? || bs[index].sequence != g.desk.proto.chainSequence then g else
      match Exec(g.ledger, cfg.multisig, time, MintCall(g.ledger, bs[index].mint), gas, script)
      case Err(_) => g.(desk := Worked(cfg, g.desk, P.ChainExecute(index, false)))
      case Ok(d) =>
        g.(desk := Worked(cfg, g.desk, P.ChainExecute(index, true)), ledger := d.ledger,
           outside := if bs[index].mint.token in g.ledger.tokens then g.outside else g.outside + d.trace)
  }

  function Worked(cfg: Setup, d: E.Desk, a: P.Action): E.Desk {
    d.(proto := P.Next(cfg.protocol, d.proto, a))
  }

  /** What the ledger answers when the leader asks for the token's next record. */
  function Answer(cfg: Setup, g: State, token: Addr): Option<E.SwapRecord> {
    var next := E.Tracker(g.desk, Spell(cfg, token)) + 1;
    if next < 0 then None else
      match S.Query(g.ledger.swap, next, token)
      case Some(swap) => Some(RecordOf(cfg, swap))
      case None => None
  }

  /** A signer approves what validates against the record of the submission's nonce and token. */
  predicate Approvable(cfg: Setup, l: Ledger, sub: E.Submission) {
    sub.token in cfg.pairs &&
    match S.Query(l.swap, sub.nonce, cfg.pairs[sub.token])
    case Some(swap) => E.Validates(RecordOf(cfg, swap), sub)
    case None => false
  }

  /** The wallet executes only what a signer approved, and each token and nonce once. */
  predicate Payable(g: State, sub: E.Submission) {
    sub in g.approved && forall p <- g.paid :: p.token != sub.token || p.nonce != sub.nonce
  }

  function Next(cfg: Setup, g: State, a: Action): State {
    match a
    case UserTx(tx) =>
      if tx.sender == g.ledger.swapAddr || tx.sender in g.ledger.tokens then g else
        var (l, trace) := Transact(g.ledger, tx);
        g.(ledger := l, outside := g.outside + trace)
    case Work(w) => if w.ChainExecute? || w.InsertSecret? then g else g.(desk := Worked(cfg, g.desk, w))
    case Execute(i, time, gas, script) => ExecuteStep(cfg, g, i, time, gas, script)
    case Scan(t, dst, fee, sent, crash) =>
      g.(desk := E.ScanStep(g.desk, Spell(cfg, t), Answer(cfg, g, t), dst, fee, sent, crash))
    case Approve(sub) => if Approvable(cfg, g.ledger, sub) then g.(approved := g.approved + {sub}) else g
    case Pay(sub) => if Payable(g, sub) then g.(paid := g.paid + [sub]) else g
  }

  function Run(cfg: Setup, g: State, actions: seq<Action>): State {
    if actions == [] then g else Next(cfg, Run(cfg, g, actions[..|actions| - 1]), actions[|actions| - 1])
  }

  function Start(l: Ledger, chainSequence: nat): State {
    State(l, E.Desk(P.Init(chainSequence), map[]), [], {}, [])
  }

  ghost predicate Sound(cfg: Setup, l: Ledger) {
    && WellFormed(l) && l.swap.logs == map[]
    && Injective(cfg.pairs) && SamePairings(cfg.protocol.tokens, cfg.pairs, cfg.labels)
    && cfg.multisig != l.swapAddr && cfg.multisig !in l.tokens
  }

  // ---- The invariant ----

  ghost predicate BooksOk(l0: Ledger, g: State, t: Addr)
    requires t in l0.tokens && t in g.ledger.tokens
  {
    var out := CallsOn(g.outside, t);
    && g.ledger.tokens[t].supply + R.BurnedAll(out) ==
       l0.tokens[t].supply + R.MintedAll(out) + BroadcastMints(g.desk.proto.broadcasts, t)
    && LogTotal(S.LogOf(g.ledger.swap, t)) == R.Burned(out, l0.swapAddr)
    && g.ledger.tokens[t].supply - Sum(g.ledger.tokens[t].balances) == l0.tokens[t].supply - Sum(l0.tokens[t].balances)
  }

  ghost predicate LedgerOk(l0: Ledger, g: State) {
    && SameSetting(l0, g.ledger)
    && (forall t <- l0.tokens :: BooksOk(l0, g, t))
    && (forall t :: LogExtends([], S.LogOf(g.ledger.swap, t), t))
  }

  ghost predicate WalletOk(cfg: Setup, g: State) {
    && (forall sub <- g.approved :: Approvable(cfg, g.ledger, sub))
    && (forall sub <- g.paid :: sub in g.approved)
    && PaidOnce(g.paid)
  }

  ghost predicate Inv(cfg: Setup, l0: Ledger, g: State) {
    LedgerOk(l0, g) && WalletOk(cfg, g) && PS.Inv(cfg.protocol, g.desk.proto) && E.Complete(g.desk)
  }

  // ---- Moves of the ledger ----

  lemma {:induction false} TotalsAppend(a: seq<R.Call>, b: seq<R.Call>)
    ensures R.MintedAll(a + b) == R.MintedAll(a) + R.MintedAll(b)
    ensures R.BurnedAll(a + b) == R.BurnedAll(a) + R.BurnedAll(b)
  {
    if b == [] {
      assert a + b == a;
    } else {
      assert (a + b)[..|a + b| - 1] == a + b[..|b| - 1];
      TotalsAppend(a, b[..|b| - 1]);
    }
  }

  /** A ledger move whose calls are all outside ones keeps the books. */
  lemma BooksMove(l0: Ledger, g: State, trace: seq<Event>, g': State, t: Addr)
    requires t in l0.tokens && SameSetting(l0, g.ledger) && BooksOk(l0, g, t)
    requires Evolves(g.ledger, trace, g'.ledger) && Balanced(g.ledger, trace, g'.ledger, t)
    requires g'.outside == g.outside + trace
    requires BroadcastMints(g'.desk.proto.broadcasts, t) == BroadcastMints(g.desk.proto.broadcasts, t)
    ensures t in g'.ledger.tokens && BooksOk(l0, g', t)
  {
    hide R.MintedAll, R.BurnedAll, R.Burned, R.Replay, CallsOn, LogTotal, BroadcastMints, Sum;
    CallsOnAppend(g.outside, trace, t);
    TotalsAppend(CallsOn(g.outside, t), CallsOn(trace, t));
    BurnedAppend(CallsOn(g.outside, t), CallsOn(trace, t), l0.swapAddr);
    assert TokenEvolves(g.ledger, trace, g'.ledger, t);
    R.SupplyMatchesCalls(g.ledger.tokens[t], CallsOn(trace, t), g'.ledger.tokens[t]);
    R.SupplyConserved(g.ledger.tokens[t], CallsOn(trace, t), g'.ledger.tokens[t]);
  }

  /** Executing a broadcast for a token of the ledger is one mint of the amount, and nothing else. */
  lemma MintLands(l: Ledger, sender: Addr, time: u64, mint: P.MintTx, gas: nat, script: Script, d: Done)
    requires WellFormed(l) && mint.token in l.tokens
    requires Exec(l, sender, time, MintCall(l, mint), gas, script) == Ok(d)
    ensures mint.amount < U128
    ensures d.trace == [Event(mint.token, R.Call(Env(l.swapAddr, time), T.Mint(mint.amount, mint.recipient)))]
  {
    hide Exec, ExecAll, T.Change, S.Lookup;
    var c := MintCall(l, mint);
    if gas == 0 || Deliver(l, sender, time, c, gas, script).Err? {
      Redeem.ExecFails(l, sender, time, c, gas, script);
    } else {
      Redeem.ExecChain(l, sender, time, c, gas, script);
      var d1 := Deliver(l, sender, time, c, gas, script).value;
      var c2 := d1.calls[0];
      if gas == 1 || Deliver(d1.ledger, c.target, time, c2, gas - 1, script).Err? {
        Redeem.ExecFails(d1.ledger, c.target, time, c2, gas - 1, script);
      } else {
        Redeem.ExecLeaf(d1.ledger, c.target, time, c2, gas - 1, script);
        assert [] + d.trace == d.trace;
      }
    }
  }

  lemma OneMint(e: Event, t: Addr)
    requires e.call.msg.Mint?
    ensures R.MintedAll(CallsOn([e], t)) == if e.token == t then e.call.msg.amount else 0
    ensures R.BurnedAll(CallsOn([e], t)) == 0
    ensures forall who :: R.Burned(CallsOn([e], t), who) == 0
  {
    CallsOnOne(e, t);
    assert [e.call][..0] == [];
  }

  lemma MintedBooks(l0: Ledger, g: State, e: Event, g': State, t: Addr)
    requires t in l0.tokens && SameSetting(l0, g.ledger) && BooksOk(l0, g, t) && e.call.msg.Mint?
    requires Evolves(g.ledger, [e], g'.ledger) && Balanced(g.ledger, [e], g'.ledger, t) && g'.outside == g.outside
    requires BroadcastMints(g'.desk.proto.broadcasts, t) ==
             BroadcastMints(g.desk.proto.broadcasts, t) + if e.token == t then e.call.msg.amount else 0
    ensures t in g'.ledger.tokens && BooksOk(l0, g', t)
  {
    hide R.MintedAll, R.BurnedAll, R.Burned, R.Replay, CallsOn, LogTotal, BroadcastMints, Sum;
    OneMint(e, t);
    assert TokenEvolves(g.ledger, [e], g'.ledger, t);
    R.SupplyMatchesCalls(g.ledger.tokens[t], CallsOn([e], t), g'.ledger.tokens[t]);
    R.SupplyConserved(g.ledger.tokens[t], CallsOn([e], t), g'.ledger.tokens[t]);
  }

  // ---- Moves of the protocol ----

  /** Only the chain changes which broadcasts are executed. */
  lemma WorkMintsNothing(cfg: P.Config, s: P.State, a: P.Action, t: Addr)
    requires !a.ChainExecute?
    ensures BroadcastMints(P.Next(cfg, s, a).broadcasts, t) == BroadcastMints(s.broadcasts, t)
  {
    hide P.SignaturesOf, P.Deleted, P.Verify, P.HandleEventStep, P.RetryRowStep, P.MarkSignedStep, P.SignStep,
         P.InsertSecretStep, P.SetResultStep, BroadcastMints;
    match a {
      case BroadcastRow(k, d) =>
        if P.Next(cfg, s, a).broadcasts != s.broadcasts {
          var bs := P.Next(cfg, s, a).broadcasts;
          BroadcastMintsSnoc(s.broadcasts, bs[|s.broadcasts|], t);
        }
      case SetRetry(k) => AbandonMintsNothing(s, k, t);
      case ValidateRow(k, _) => AbandonMintsNothing(s, k, t);
      case Mine(_, _) =>
      case UpdateSequence =>
      case _ => PR.OnlyRows(cfg, s, a);
    }
  }

  lemma AbandonMintsNothing(s: P.State, key: string, t: Addr)
    ensures BroadcastMints(P.Abandon(s, key).broadcasts, t) == BroadcastMints(s.broadcasts, t)
  {
    hide BroadcastMints;
    if P.Abandon(s, key) != s {
      var i := s.rows[key].dst.value;
      BroadcastMintsUpdate(s.broadcasts, i, s.broadcasts[i].(abandoned := true), t);
    }
  }

  lemma ExecuteMints(cfg: P.Config, s: P.State, index: nat, ok: bool, t: Addr)
    requires index < |s.broadcasts| && s.broadcasts[index].state.Pending?
    requires s.broadcasts[index].sequence == s.chainSequence
    ensures var b := s.broadcasts[index];
            BroadcastMints(P.Next(cfg, s, P.ChainExecute(index, ok)).broadcasts, t) ==
            BroadcastMints(s.broadcasts, t) + if ok && b.mint.token == t then b.mint.amount else 0
  {
    hide BroadcastMints;
    var b := s.broadcasts[index];
    BroadcastMintsUpdate(s.broadcasts, index, b.(state := if ok then P.Executed else P.Rejected), t);
  }

  // ---- Every action keeps the invariant ----

  lemma QueryKept(l: Ledger, trace: seq<Event>, l': Ledger, nonce: nat, t: Addr)
    requires Evolves(l, trace, l') && S.Query(l.swap, nonce, t).Some?
    ensures S.Query(l'.swap, nonce, t) == S.Query(l.swap, nonce, t)
  {
    hide TokenEvolves;
    assert LogExtends(S.LogOf(l.swap, t), S.LogOf(l'.swap, t), t);
  }

  lemma WalletKept(cfg: Setup, g: State, trace: seq<Event>, g': State)
    requires WalletOk(cfg, g) && Evolves(g.ledger, trace, g'.ledger)
    requires g'.approved == g.approved && g'.paid == g.paid
    ensures WalletOk(cfg, g')
  {
    hide Evolves, E.Validates, S.Query, PaidOnce;
    forall sub | sub in g'.approved ensures Approvable(cfg, g'.ledger, sub) {
      QueryKept(g.ledger, trace, g'.ledger, sub.nonce, cfg.pairs[sub.token]);
    }
  }

  lemma LogsKept(l0: Ledger, l: Ledger, trace: seq<Event>, l': Ledger)
    requires SameSetting(l0, l) && Evolves(l, trace, l')
    requires forall t :: LogExtends([], S.LogOf(l.swap, t), t)
    ensures SameSetting(l0, l') && forall t :: LogExtends([], S.LogOf(l'.swap, t), t)
  {
    hide TokenEvolves;
    forall t ensures LogExtends([], S.LogOf(l'.swap, t), t) {
      assert LogExtends([], S.LogOf(l.swap, t), t) && LogExtends(S.LogOf(l.swap, t), S.LogOf(l'.swap, t), t);
    }
  }

  /** An action that leaves the ledger alone and executes nothing. */
  lemma DeskMoves(cfg: Setup, l0: Ledger, g: State, desk: E.Desk)
    requires Inv(cfg, l0, g)
    requires PS.Inv(cfg.protocol, desk.proto) && E.Complete(desk)
    requires forall t :: BroadcastMints(desk.proto.broadcasts, t) == BroadcastMints(g.desk.proto.broadcasts, t)
    ensures Inv(cfg, l0, g.(desk := desk))
  {
    hide PS.Inv, E.Complete, Approvable, PaidOnce, LogExtends, BroadcastMints, CallsOn, R.MintedAll, R.BurnedAll,
        R.Burned, LogTotal, Sum;
    var g' := g.(desk := desk);
    forall t | t in l0.tokens ensures BooksOk(l0, g', t) {
      assert BooksOk(l0, g, t);
    }
  }

  lemma WorkOk(cfg: Setup, l0: Ledger, g: State, w: P.Action)
    requires Inv(cfg, l0, g) && !w.ChainExecute?
    ensures Inv(cfg, l0, g.(desk := Worked(cfg, g.desk, w)))
  {
    hide PS.Inv, E.Complete, LedgerOk, WalletOk, P.Next, BroadcastMints;
    PS.NextOk(cfg.protocol, g.desk.proto, w);
    E.ActionKeepsComplete(cfg.protocol, g.desk, w);
    forall t
      ensures BroadcastMints(Worked(cfg, g.desk, w).proto.broadcasts, t) == BroadcastMints(g.desk.proto.broadcasts, t)
    {
      WorkMintsNothing(cfg.protocol, g.desk.proto, w, t);
    }
    DeskMoves(cfg, l0, g, Worked(cfg, g.desk, w));
  }

  /** The ledger's answers name what was asked for, so that the leader's tracker stays complete. */
  lemma ScanOk(cfg: Setup, l0: Ledger, g: State, t: Addr, dst: E.EthToken, fee: nat, sent: bool, crash: E.Crash)
    requires Inv(cfg, l0, g)
    ensures Inv(cfg, l0, Next(cfg, g, Scan(t, dst, fee, sent, crash)))
  {
    hide PS.Inv, E.Complete, WalletOk, BooksOk, P.InsertSecretStep, E.Build, BroadcastMints;
    var answer := Answer(cfg, g, t);
    assert LogExtends([], S.LogOf(g.ledger.swap, t), t);
    E.ScanKeepsComplete(g.desk, Spell(cfg, t), answer, dst, fee, sent, crash);
    hide LedgerOk, Answer;
    var desk := E.ScanStep(g.desk, Spell(cfg, t), answer, dst, fee, sent, crash);
    ScanIsInsert(cfg, g.desk, Spell(cfg, t), answer, dst, fee, sent, crash);
    DeskMoves(cfg, l0, g, desk);
  }

  lemma ScanIsInsert(cfg: Setup, d: E.Desk, token: string, reply: Option<E.SwapRecord>, dst: E.EthToken, fee: nat,
                     sent: bool, crash: E.Crash)
    requires PS.Inv(cfg.protocol, d.proto)
    ensures var d' := E.ScanStep(d, token, reply, dst, fee, sent, crash);
            PS.Inv(cfg.protocol, d'.proto) && d'.proto.broadcasts == d.proto.broadcasts
  {
    hide PS.Inv, E.Build;
    if reply.Some? {
      var r := reply.value;
      PS.InsertSecretOk(cfg.protocol, d.proto, r.token, r.nonce, r.amount, true);
      PS.InsertSecretOk(cfg.protocol, d.proto, r.token, r.nonce, r.amount, false);
    }
  }

  lemma UserTxOk(cfg: Setup, l0: Ledger, g: State, tx: Tx)
    requires Sound(cfg, l0) && Inv(cfg, l0, g)
    ensures Inv(cfg, l0, Next(cfg, g, UserTx(tx)))
  {
    hide PS.Inv, E.Complete, WalletOk, BooksOk, Transact, BroadcastMints, Evolves;
    var g' := Next(cfg, g, UserTx(tx));
    if g' != g {
      var (l, trace) := Transact(g.ledger, tx);
      TransactEvolves(g.ledger, tx);
      LogsKept(l0, g.ledger, trace, l);
      WalletKept(cfg, g, trace, g');
      forall t | t in l0.tokens ensures BooksOk(l0, g', t) {
        TransactBalanced(g.ledger, tx, t);
        BooksMove(l0, g, trace, g', t);
      }
    }
  }

  lemma ExecuteOk(cfg: Setup, l0: Ledger, g: State, index: nat, time: u64, gas: nat, script: Script)
    requires Sound(cfg, l0) && Inv(cfg, l0, g)
    ensures Inv(cfg, l0, ExecuteStep(cfg, g, index, time, gas, script))
  {
    hide PS.Inv, E.Complete, WalletOk, BooksOk, Exec, BroadcastMints, Evolves, P.Next, LogExtends, Injective, MintCall;
    var g' := ExecuteStep(cfg, g, index, time, gas, script);
    var bs := g.desk.proto.broadcasts;
    if index < |bs| && bs[index].state.Pending? && bs[index].sequence == g.desk.proto.chainSequence {
      var r := Exec(g.ledger, cfg.multisig, time, MintCall(g.ledger, bs[index].mint), gas, script);
      PS.NextOk(cfg.protocol, g.desk.proto, P.ChainExecute(index, r.Ok?));
      E.ActionKeepsComplete(cfg.protocol, g.desk, P.ChainExecute(index, r.Ok?));
      if r.Err? {
        forall t ensures BroadcastMints(g'.desk.proto.broadcasts, t) == BroadcastMints(bs, t) {
          ExecuteMints(cfg.protocol, g.desk.proto, index, false, t);
        }
        hide ExecuteStep;
        DeskMoves(cfg, l0, g, g'.desk);
      } else {
        ExecEvolves(g.ledger, cfg.multisig, time, MintCall(g.ledger, bs[index].mint), gas, script, r.value);
        LogsKept(l0, g.ledger, r.value.trace, r.value.ledger);
        WalletKept(cfg, g, r.value.trace, g');
        forall t | t in l0.tokens ensures BooksOk(l0, g', t) {
          ExecutedBooks(cfg, l0, g, index, time, gas, script, t);
        }
      }
    }
  }

  lemma ExecutedBooks(cfg: Setup, l0: Ledger, g: State, index: nat, time: u64, gas: nat, script: Script, t: Addr)
    requires Sound(cfg, l0) && t in l0.tokens && SameSetting(l0, g.ledger) && BooksOk(l0, g, t)
    requires index < |g.desk.proto.broadcasts| && g.desk.proto.broadcasts[index].state.Pending?
    requires g.desk.proto.broadcasts[index].sequence == g.desk.proto.chainSequence
    requires Exec(g.ledger, cfg.multisig, time, MintCall(g.ledger, g.desk.proto.broadcasts[index].mint), gas,
                  script).Ok?
    ensures var g' := ExecuteStep(cfg, g, index, time, gas, script); t in g'.ledger.tokens && BooksOk(l0, g', t)
  {
    hide BooksOk, Exec, BroadcastMints, Evolves, P.Next, Injective, MintCall;
    var g' := ExecuteStep(cfg, g, index, time, gas, script);
    var mint := g.desk.proto.broadcasts[index].mint;
    var c := MintCall(g.ledger, mint);
    var d := Exec(g.ledger, cfg.multisig, time, c, gas, script).value;
    ExecEvolves(g.ledger, cfg.multisig, time, c, gas, script, d);
    ExecBalanced(g.ledger, cfg.multisig, time, c, gas, script, d, t);
    ExecuteMints(cfg.protocol, g.desk.proto, index, true, t);
    if mint.token in g.ledger.tokens {
      MintLands(g.ledger, cfg.multisig, time, mint, gas, script, d);
      MintedBooks(l0, g, d.trace[0], g', t);
    } else {
      BooksMove(l0, g, d.trace, g', t);
    }
  }

  lemma WalletMoves(cfg: Setup, l0: Ledger, g: State, approved: set<E.Submission>, paid: seq<E.Submission>)
    requires Inv(cfg, l0, g) && WalletOk(cfg, g.(approved := approved, paid := paid))
    ensures Inv(cfg, l0, g.(approved := approved, paid := paid))
  {
    hide PS.Inv, E.Complete, WalletOk, LogExtends, BroadcastMints, CallsOn, R.MintedAll, R.BurnedAll, R.Burned,
        LogTotal, Sum;
    var g' := g.(approved := approved, paid := paid);
    forall t | t in l0.tokens ensures BooksOk(l0, g', t) {
      assert BooksOk(l0, g, t);
    }
  }

  lemma ApproveOk(cfg: Setup, l0: Ledger, g: State, sub: E.Submission)
    requires Inv(cfg, l0, g)
    ensures Inv(cfg, l0, Next(cfg, g, Approve(sub)))
  {
    hide PS.Inv, E.Complete, Approvable, LedgerOk, PaidOnce;
    if Approvable(cfg, g.ledger, sub) {
      WalletMoves(cfg, l0, g, g.approved + {sub}, g.paid);
    }
  }

  lemma PayOk(cfg: Setup, l0: Ledger, g: State, sub: E.Submission)
    requires Inv(cfg, l0, g)
    ensures Inv(cfg, l0, Next(cfg, g, Pay(sub)))
  {
    hide PS.Inv, E.Complete, Approvable, LedgerOk;
    if Payable(g, sub) {
      WalletMoves(cfg, l0, g, g.approved, g.paid + [sub]);
    }
  }

  lemma NextOk(cfg: Setup, l0: Ledger, g: State, a: Action)
    requires Sound(cfg, l0) && Inv(cfg, l0, g)
    ensures Inv(cfg, l0, Next(cfg, g, a))
  {
    hide Inv, Sound, ExecuteStep, E.ScanStep, Transact, Worked, Answer;
    match a {
      case UserTx(tx) => UserTxOk(cfg, l0, g, tx);
      case Work(w) => if !w.ChainExecute? { WorkOk(cfg, l0, g, w); }
      case Execute(i, time, gas, script) => ExecuteOk(cfg, l0, g, i, time, gas, script);
      case Scan(t, dst, fee, sent, crash) => ScanOk(cfg, l0, g, t, dst, fee, sent, crash);
      case Approve(sub) => ApproveOk(cfg, l0, g, sub);
      case Pay(sub) => PayOk(cfg, l0, g, sub);
    }
  }

  lemma StartOk(cfg: Setup, l: Ledger, chainSequence: nat)
    requires Sound(cfg, l)
    ensures Inv(cfg, l, Start(l, chainSequence))
  {
    PS.RunOk(cfg.protocol, chainSequence, []);
  }

  lemma {:induction false} RunOk(cfg: Setup, l0: Ledger, chainSequence: nat, actions: seq<Action>)
    requires Sound(cfg, l0)
    ensures Inv(cfg, l0, Run(cfg, Start(l0, chainSequence), actions))
  {
    hide Inv, Sound, Next;
    if actions == [] {
      StartOk(cfg, l0, chainSequence);
    } else {
      RunOk(cfg, l0, chainSequence, actions[..|actions| - 1]);
      NextOk(cfg, l0, Run(cfg, Start(l0, chainSequence), actions[..|actions| - 1]), actions[|actions| - 1]);
    }
  }

  // ---- Backing ----

  /** A user or the swap contract burning is burning. */
  lemma {:induction false} BurnedWithin(calls: seq<R.Call>, who: Addr)
    ensures R.Burned(calls, who) <= R.BurnedAll(calls)
  {
    if calls != [] {
      BurnedWithin(calls[..|calls| - 1], who);
    }
  }

  /** What the wallet paid on a token is at most what the swap log records for it. */
  lemma PaidBelowLog(cfg: Setup, l0: Ledger, g: State, t: Addr)
    requires Sound(cfg, l0) && LedgerOk(l0, g) && WalletOk(cfg, g)
    ensures PaidOut(cfg.pairs, g.paid, t) <= LogTotal(S.LogOf(g.ledger.swap, t))
  {
    hide BooksOk, LogTotal, PaidOut, PaidOnce, WellFormed, Sum, E.Decode;
    var log := S.LogOf(g.ledger.swap, t);
    forall sub | sub in g.paid ensures PaidIn(cfg.pairs, sub, t) <= At(ByNonce(log), sub.nonce) {
      assert Approvable(cfg, g.ledger, sub);
      if cfg.pairs[sub.token] == t {
        E.ValidatedPaysBurned(RecordOf(cfg, log[sub.nonce]), sub);
      }
    }
    PaidWithin(cfg.pairs, g.paid, t, ByNonce(log));
    LogTotalIsSum(log);
  }

  /** Some interleaving leads from a sound start on ledger `l0` to this state. */
  ghost predicate Reachable(cfg: Setup, l0: Ledger, g: State) {
    Sound(cfg, l0) && exists chainSequence, actions :: g == Run(cfg, Start(l0, chainSequence), actions)
  }

  lemma ReachableOk(cfg: Setup, l0: Ledger, g: State)
    requires Reachable(cfg, l0, g)
    ensures Inv(cfg, l0, g)
  {
    hide Sound, Inv;
    var chainSequence, actions :| g == Run(cfg, Start(l0, chainSequence), actions);
    RunOk(cfg, l0, chainSequence, actions);
  }

  /** In every reachable state of the bridge, and for every token, what was deposited for it on
      Ethereum less what the wallet paid out covers the supply, apart from the supply it started
      with, mints made by others than the leader, and mints by broadcasts the leader gave up on. */
  lemma Backed(cfg: Setup, l0: Ledger, g: State, t: Addr)
    requires Reachable(cfg, l0, g) && t in l0.tokens
    ensures t in g.ledger.tokens
    ensures Deposits(cfg.protocol, g.desk.proto.eth, t) - PaidOut(cfg.pairs, g.paid, t) >=
            g.ledger.tokens[t].supply - l0.tokens[t].supply - R.MintedAll(CallsOn(g.outside, t))
            - StrayAmount(g.desk.proto.broadcasts, t)
  {
    hide Run, Start, PS.Inv, E.Complete, WalletOk, WellFormed, BroadcastMints, StrayAmount, Deposits, R.MintedAll,
         R.BurnedAll, R.Burned, CallsOn, LogTotal, PaidOut, LogExtends;
    ReachableOk(cfg, l0, g);
    assert BooksOk(l0, g, t);
    BurnedWithin(CallsOn(g.outside, t), l0.swapAddr);
    LiveBelowDeposits(cfg.protocol, g.desk.proto, t);
    PaidBelowLog(cfg, l0, g, t);
  }

  /** If the leader never gives up on a broadcast that is executed, and nobody else mints the token,
      deposits less payments cover all supply created since the start, and with it whatever more
      tokens all accounts together hold than at the start. */
  lemma FullyBacked(cfg: Setup, l0: Ledger, g: State, t: Addr)
    requires Reachable(cfg, l0, g) && t in l0.tokens
    requires forall b <- g.desk.proto.broadcasts :: b.abandoned ==> !b.state.Executed?
    requires R.MintedAll(CallsOn(g.outside, t)) == 0
    ensures t in g.ledger.tokens
    ensures var held := Deposits(cfg.protocol, g.desk.proto.eth, t) - PaidOut(cfg.pairs, g.paid, t);
            && g.ledger.tokens[t].supply <= l0.tokens[t].supply + held
            && Sum(g.ledger.tokens[t].balances) <= Sum(l0.tokens[t].balances) + held
  {
    hide Reachable, Deposits, StrayAmount, R.MintedAll, R.BurnedAll, R.Burned, CallsOn, PaidOut, Sum, LogTotal,
         PS.Inv, E.Complete, WalletOk, LogExtends, BroadcastMints;
    Backed(cfg, l0, g, t);
    ReachableOk(cfg, l0, g);
    assert BooksOk(l0, g, t);
    NoStrayAmount(g.desk.proto.broadcasts, t);
  }

  lemma {:induction false} NoStrayAmount(bs: seq<P.Broadcast>, t: Addr)
    requires forall b <- bs :: b.abandoned ==> !b.state.Executed?
    ensures StrayAmount(bs, t) == 0
  {
    if bs != [] {
      NoStrayAmount(bs[..|bs| - 1], t);
    }
  }

  // ---- The ledger's answers and the workers of the Ethereum side ----

  /** In every reachable state each nonce up to a token's tracker has its row: against the ledger
      itself, every answer is the record asked for. */
  lemma TrackersComplete(cfg: Setup, l0: Ledger, g: State)
    requires Reachable(cfg, l0, g)
    ensures E.Complete(g.desk)
  {
    hide Reachable, PS.Inv, E.Complete, WalletOk, LedgerOk;
    ReachableOk(cfg, l0, g);
  }

  lemma ApprovableKept(cfg: Setup, g: State, a: Action, sub: E.Submission)
    requires Approvable(cfg, g.ledger, sub)
    ensures Approvable(cfg, Next(cfg, g, a).ledger, sub)
  {
    hide Evolves, E.Validates, S.Query, E.ScanStep, P.Next, Transact, Exec, MintCall;
    match a {
      case UserTx(tx) =>
        TransactEvolves(g.ledger, tx);
        var (l, trace) := Transact(g.ledger, tx);
        QueryKept(g.ledger, trace, l, sub.nonce, cfg.pairs[sub.token]);
      case Execute(i, time, gas, script) =>
        if Next(cfg, g, a).ledger != g.ledger {
          var c := MintCall(g.ledger, g.desk.proto.broadcasts[i].mint);
          var d := Exec(g.ledger, cfg.multisig, time, c, gas, script).value;
          ExecEvolves(g.ledger, cfg.multisig, time, c, gas, script, d);
          QueryKept(g.ledger, d.trace, d.ledger, sub.nonce, cfg.pairs[sub.token]);
        }
      case _ =>
    }
  }

  lemma {:induction false} ApprovableForever(cfg: Setup, g: State, actions: seq<Action>, sub: E.Submission)
    requires Approvable(cfg, g.ledger, sub)
    ensures Approvable(cfg, Run(cfg, g, actions).ledger, sub)
  {
    hide Next, Approvable;
    if actions != [] {
      ApprovableForever(cfg, g, actions[..|actions| - 1], sub);
      ApprovableKept(cfg, Run(cfg, g, actions[..|actions| - 1]), actions[|actions| - 1], sub);
    }
  }

  /** What the leader submits for the ledger's answer is approved by every signer who looks at it, at
      once or after anything else has happened; and the leader submits it whenever the amount
      exceeds the fee, since a logged destination always is an address. */
  lemma LeaderIsApproved(cfg: Setup, l0: Ledger, g: State, later: seq<Action>, dst: E.EthToken, fee: nat)
    requires Reachable(cfg, l0, g) && dst in cfg.pairs && Answer(cfg, g, cfg.pairs[dst]).Some?
    ensures var record := Answer(cfg, g, cfg.pairs[dst]).value;
            && (E.Build(record, dst, fee).Submit? <==> record.amount > fee)
            && (record.amount > fee ==>
                  Approvable(cfg, Run(cfg, g, later).ledger, E.Build(record, dst, fee).submission))
  {
    hide Run, Reachable, PS.Inv, E.Complete, WalletOk, BooksOk, E.Validates, E.Build;
    ReachableOk(cfg, l0, g);
    var t := cfg.pairs[dst];
    assert LogExtends([], S.LogOf(g.ledger.swap, t), t);
    var record := Answer(cfg, g, t).value;
    E.LeaderAndSignerAgree(record, dst, fee);
    if record.amount > fee {
      var sub := E.Build(record, dst, fee).submission;
      assert Approvable(cfg, g.ledger, sub);
      ApprovableForever(cfg, g, later, sub);
    }
  }

  /** Visits to the token find the fee above the amount, as for any later visit while fees stay up. */
  predicate FeeAbove(cfg: Setup, a: Action, token: Addr, amount: nat) {
    a.Scan? && Spell(cfg, a.token) == Spell(cfg, token) ==> a.token == token && a.dst.Erc20? && a.fee > amount
  }

  lemma LedgerAnswers(cfg: Setup, g: State, trace: seq<Event>, g': State, token: Addr)
    requires Evolves(g.ledger, trace, g'.ledger) && g'.desk.trackers == g.desk.trackers && Answer(cfg, g, token).Some?
    ensures Answer(cfg, g', token) == Answer(cfg, g, token)
  {
    hide Evolves, S.Query;
    QueryKept(g.ledger, trace, g'.ledger, E.Tracker(g.desk, Spell(cfg, token)) + 1, token);
  }

  lemma StuckStep(cfg: Setup, g: State, a: Action, token: Addr)
    requires Answer(cfg, g, token).Some? && FeeAbove(cfg, a, token, Answer(cfg, g, token).value.amount)
    ensures E.Tracker(Next(cfg, g, a).desk, Spell(cfg, token)) == E.Tracker(g.desk, Spell(cfg, token))
    ensures Answer(cfg, Next(cfg, g, a), token) == Answer(cfg, g, token)
  {
    hide Evolves, S.Query, P.Next, P.InsertSecretStep, Transact, Exec, MintCall, Approvable;
    match a {
      case UserTx(tx) =>
        TransactEvolves(g.ledger, tx);
        if Next(cfg, g, a) != g {
          LedgerAnswers(cfg, g, Transact(g.ledger, tx).1, Next(cfg, g, a), token);
        }
      case Execute(i, time, gas, script) =>
        if Next(cfg, g, a).ledger != g.ledger {
          var c := MintCall(g.ledger, g.desk.proto.broadcasts[i].mint);
          var d := Exec(g.ledger, cfg.multisig, time, c, gas, script).value;
          ExecEvolves(g.ledger, cfg.multisig, time, c, gas, script, d);
          LedgerAnswers(cfg, g, d.trace, Next(cfg, g, a), token);
        }
      case _ =>
    }
  }

  /** A record below the fee of its token stops the leader for good: as long as fees stay above its
      amount, no later visit passes it, whatever else happens. */
  lemma {:induction false} ScanStuck(cfg: Setup, g: State, actions: seq<Action>, token: Addr)
    requires Answer(cfg, g, token).Some?
    requires forall a <- actions :: FeeAbove(cfg, a, token, Answer(cfg, g, token).value.amount)
    ensures E.Tracker(Run(cfg, g, actions).desk, Spell(cfg, token)) == E.Tracker(g.desk, Spell(cfg, token))
    ensures Answer(cfg, Run(cfg, g, actions), token) == Answer(cfg, g, token)
  {
    hide Next, Answer, FeeAbove, E.Tracker;
    if actions != [] {
      var front, last := actions[..|actions| - 1], actions[|actions| - 1];
      assert last in actions && forall a <- front :: a in actions;
      ScanStuck(cfg, g, front, token);
      StuckStep(cfg, Run(cfg, g, front), last, token);
    }
  }
}
