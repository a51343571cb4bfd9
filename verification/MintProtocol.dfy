/** The Ethereum-to-Secret direction: the manager, the signers and the leader working on shared
    swap and signature rows, next to the two chains. One action is one actor's visit to one row,
    from reading it to saving it, taken as atomic; a run is any interleaving of actions. */
module MintProtocol {
  import opened Prelude
  import opened Keys

  /** A log of an Ethereum transaction that decodes as `Swap` or `SwapToken`. `ours` says that the
      wallet contract emitted it, and `recipient` is absent when its bytes do not decode. */
  datatype Log = Log(native: bool, ours: bool, token: string, amount: nat, recipient: Option<Addr>)

  function CoinOf(log: Log): string {
    if log.native then "native" else log.token
  }

  /** The unsigned transaction: mint `amount` of `token` for `recipient` on account of `hash`. */
  datatype MintTx = MintTx(amount: nat, recipient: Addr, hash: string, token: Addr)

  datatype Status = Unsigned | Signed | Submitted | Confirmed | Failed | Retry

  datatype Source = FromEthereum(coin: string, mint: MintTx) | FromSecret(token: string, nonce: nat)

  /** A swap row; `dst` is the broadcast it was submitted as. */
  datatype Row = Row(source: Source, status: Status, amount: nat, sequence: nat, dst: Option<nat>)

  datatype Signature = Signature(key: string, signer: string, mint: MintTx, sequence: nat)

  datatype BroadcastState = Pending | Executed | Rejected

  /** A signed transaction handed to the Secret chain. `abandoned` records that its row was sent
      back to be retried, or never learned of it. */
  datatype Broadcast = Broadcast(
    key: string, mint: MintTx, sequence: nat, signatures: seq<Signature>, state: BroadcastState, abandoned: bool)

  datatype Config = Config(threshold: nat, tokens: map<string, Addr>)

  /** `sequence` is the manager's counter, `chainSequence` the multisig account's on chain. */
  datatype State = State(
    rows: map<string, Row>,
    signatures: seq<Signature>,
    sequence: nat,
    eth: map<string, seq<Log>>,
    broadcasts: seq<Broadcast>,
    chainSequence: nat)

  /** What asking for a transaction's result returns. */
  datatype Reply = OnChain | Missing(young: bool) | Garbled

  /** How handing a transaction to the chain ends. `SentUnread`: it is on its way, but the client's
      reply cannot be read, which the leader does not catch: the row stays as it was. */
  datatype Delivery = Sent | Refused | SentButNotSaved | SentUnread

  datatype Action =
    | Mine(hash: string, logs: seq<Log>)
    | HandleEvent(hash: string, index: nat, built: bool)
    | RetryRow(key: string)
    | MarkSigned(key: string)
    | Sign(key: string, signer: string, cliWorks: bool, saves: bool)
    | BroadcastRow(key: string, delivery: Delivery)
    | SetRetry(key: string)
    | ValidateRow(key: string, reply: Reply)
    | UpdateSequence
    | ChainExecute(index: nat, ok: bool)
    | InsertSecret(token: string, nonce: nat, amount: nat, submitted: bool)
    | SetResult(token: string, nonce: nat, success: bool)

  function Init(chainSequence: nat): State {
    State(map[], [], chainSequence, map[], [], chainSequence)
  }

  // ---- Signatures ----

  function SignaturesOf(signatures: seq<Signature>, key: string): seq<Signature> {
    if signatures == [] then [] else
      SignaturesOf(signatures[..|signatures| - 1], key) +
      if signatures[|signatures| - 1].key == key then [signatures[|signatures| - 1]] else []
  }

  function Deleted(signatures: seq<Signature>, key: string): seq<Signature> {
    if signatures == [] then [] else
      Deleted(signatures[..|signatures| - 1], key) +
      if signatures[|signatures| - 1].key == key then [] else [signatures[|signatures| - 1]]
  }

  predicate HasSigned(s: State, key: string, signer: string) {
    exists sig <- s.signatures :: sig.key == key && sig.signer == signer
  }

  /** The log a signer looks at: the transaction's first native log, or else its first log. */
  function FirstLog(logs: seq<Log>): Option<Log> {
    if logs == [] then None
    else if logs[0].native then Some(logs[0])
    else match FirstLog(logs[1..])
         case Some(log) => if log.native then Some(log) else Some(logs[0])
         case None => Some(logs[0])
  }

  datatype Verdict = Valid | Invalid | Raises

  function Verify(eth: map<string, seq<Log>>, key: string, row: Row): Verdict {
    if key !in eth || row.source.FromSecret? then Invalid else
      match FirstLog(eth[key])
      case None => Invalid
      case Some(log) =>
        if log.recipient.None? then Raises
        else if row.source.mint.amount != log.amount || row.source.mint.amount != row.amount then Invalid
        else if row.source.mint.recipient != log.recipient.value then Invalid
        else Valid
  }

  // ---- The actors ----

  function SetStatus(s: State, key: string, status: Status): State
    requires key in s.rows
  {
    s.(rows := s.rows[key := s.rows[key].(status := status)])
  }

  predicate Is(s: State, key: string, status: Status) {
    key in s.rows && s.rows[key].status == status
  }

  predicate IsEthereum(s: State, key: string, status: Status) {
    Is(s, key, status) && s.rows[key].source.FromEthereum?
  }

  /** Ignored: logs of other contracts, undecodable recipients, unknown coins, transactions the
      client fails to build, and hashes already in the database. */
  function HandleEventStep(cfg: Config, s: State, hash: string, index: nat, built: bool): State {
    if hash !in s.eth || index >= |s.eth[hash]| then s else
      var log := s.eth[hash][index];
      if !log.ours || log.recipient.None? || CoinOf(log) !in cfg.tokens || !built || hash in s.rows then s else
        var mint := MintTx(log.amount, log.recipient.value, hash, cfg.tokens[CoinOf(log)]);
        s.(rows := s.rows[hash := Row(FromEthereum(CoinOf(log), mint), Unsigned, log.amount, s.sequence, None)],
           sequence := s.sequence + 1)
  }

  function RetryRowStep(s: State, key: string): State {
    if !Is(s, key, Retry) then s else
      s.(signatures := Deleted(s.signatures, key),
         rows := s.rows[key := s.rows[key].(status := Unsigned, sequence := s.sequence)],
         sequence := s.sequence + 1)
  }

  function MarkSignedStep(cfg: Config, s: State, key: string): State {
    if Is(s, key, Unsigned) && |SignaturesOf(s.signatures, key)| >= cfg.threshold
    then SetStatus(s, key, Signed) else s
  }

  function SignStep(s: State, key: string, signer: string, cliWorks: bool, saves: bool): State {
    if !Is(s, key, Unsigned) || HasSigned(s, key, signer) then s else
      match Verify(s.eth, key, s.rows[key])
      case Raises => s
      case Invalid => SetStatus(s, key, Failed)
      case Valid =>
        if !cliWorks then SetStatus(s, key, Failed)
        else if !saves then s
        else s.(signatures := s.signatures + [Signature(key, signer, s.rows[key].source.mint, s.rows[key].sequence)])
  }

  /** The row's transaction with all its signatures. */
  function Assembled(s: State, key: string): Broadcast
    requires key in s.rows && s.rows[key].source.FromEthereum?
  {
    Broadcast(key, s.rows[key].source.mint, s.rows[key].sequence, SignaturesOf(s.signatures, key), Pending, false)
  }

  function BroadcastStep(cfg: Config, s: State, key: string, delivery: Delivery): State {
    if !IsEthereum(s, key, Signed) || |SignaturesOf(s.signatures, key)| < cfg.threshold then s
    else if delivery.Refused? then SetStatus(s, key, Failed)
    else
      var s1 := s.(broadcasts := s.broadcasts + [Assembled(s, key).(abandoned := delivery.SentUnread?)]);
      if delivery.SentUnread? then s1 else
        s1.(rows := s.rows[key := s.rows[key].(status := if delivery.Sent? then Submitted else Failed,
                                               dst := Some(|s.broadcasts|))])
  }

  function Abandon(s: State, key: string): State {
    if IsEthereum(s, key, Submitted) && s.rows[key].dst.Some? && s.rows[key].dst.value < |s.broadcasts| then
      var i := s.rows[key].dst.value;
      s.(broadcasts := s.broadcasts[i := s.broadcasts[i].(abandoned := true)])
    else s
  }

  /** The leader's `failed_prev` branch, in either of its passes. */
  function SetRetryStep(s: State, key: string): State {
    if IsEthereum(s, key, Signed) || IsEthereum(s, key, Submitted)
    then SetStatus(Abandon(s, key), key, Retry) else s
  }

  function ValidateStep(s: State, key: string, reply: Reply): State {
    if !IsEthereum(s, key, Submitted) || s.rows[key].dst.None? || s.rows[key].dst.value >= |s.broadcasts| then s else
      match (reply, s.broadcasts[s.rows[key].dst.value].state)
      case (OnChain, Executed) => SetStatus(s, key, Confirmed)
      case (OnChain, Rejected) => SetStatus(s, key, Failed).(sequence := s.chainSequence)
      case (OnChain, Pending) => s
      case (Garbled, _) => SetStatus(s, key, Failed).(sequence := s.chainSequence)
      case (Missing(young), _) =>
        if young then s else SetStatus(Abandon(s, key), key, Retry).(sequence := s.chainSequence)
  }

  /** The Secret chain runs a transaction only at the account's current sequence, which it then
      advances, whether the contract call succeeds or not. */
  function ChainExecuteStep(s: State, index: nat, ok: bool): State {
    if index < |s.broadcasts| && s.broadcasts[index].state.Pending?
       && s.broadcasts[index].sequence == s.chainSequence then
      s.(broadcasts := s.broadcasts[index := s.broadcasts[index].(state := if ok then Executed else Rejected)],
         chainSequence := s.chainSequence + 1)
    else s
  }

  function InsertSecretStep(s: State, token: string, nonce: nat, amount: nat, submitted: bool): State {
    if SwapKey(nonce, token) in s.rows then s else
      s.(rows := s.rows[SwapKey(nonce, token) :=
        Row(FromSecret(token, nonce), if submitted then Submitted else Failed, amount, 0, None)])
  }

  function SetResultStep(s: State, token: string, nonce: nat, success: bool): State {
    if Is(s, SwapKey(nonce, token), Submitted)
    then SetStatus(s, SwapKey(nonce, token), if success then Confirmed else Failed) else s
  }

  function Next(cfg: Config, s: State, a: Action): State {
    match a
    case Mine(h, logs) => if IsHash(h) && h !in s.eth then s.(eth := s.eth[h := logs]) else s
    case HandleEvent(h, i, built) => HandleEventStep(cfg, s, h, i, built)
    case RetryRow(k) => RetryRowStep(s, k)
    case MarkSigned(k) => MarkSignedStep(cfg, s, k)
    case Sign(k, who, works, saves) => SignStep(s, k, who, works, saves)
    case BroadcastRow(k, d) => BroadcastStep(cfg, s, k, d)
    case SetRetry(k) => SetRetryStep(s, k)
    case ValidateRow(k, r) => ValidateStep(s, k, r)
    case UpdateSequence => s.(sequence := s.chainSequence)
    case ChainExecute(i, ok) => ChainExecuteStep(s, i, ok)
    case InsertSecret(t, n, amount, submitted) => InsertSecretStep(s, t, n, amount, submitted)
    case SetResult(t, n, success) => SetResultStep(s, t, n, success)
  }

  function Run(cfg: Config, s: State, actions: seq<Action>): State {
    if actions == [] then s else
      Next(cfg, Run(cfg, s, actions[..|actions| - 1]), actions[|actions| - 1])
  }

  lemma {:induction false} RunAppend(cfg: Config, s: State, a: seq<Action>, b: seq<Action>)
    ensures Run(cfg, s, a + b) == Run(cfg, Run(cfg, s, a), b)
  {
    hide Next;
    if b == [] {
      assert a + b == a;
    } else {
      assert (a + b)[..|a + b| - 1] == a + b[..|b| - 1];
      RunAppend(cfg, s, a, b[..|b| - 1]);
    }
  }
}
