/** The host of the contracts. A transaction is one call and, depth first and in order, every call
    the handlers reached from it emit; any failure undoes all of them. Gas bounds the number of
    calls. Contracts the model does not know answer as a script says, which may differ at every
    call, so that nothing is assumed about them. */
module Ledger {
  import opened Prelude
  import T = BridgeToken
  import S = BridgeSwap
  import R = TokenRuns

  datatype Body = ToToken(tokenMsg: T.Msg) | ToSwap(swapMsg: S.Msg)

  datatype Call = Call(target: Addr, codeHash: nat, body: Body)

  /** All bridge tokens and the swap contract, with the hash of the code each kind runs. */
  datatype Ledger = Ledger(tokens: map<Addr, T.State>, swap: S.State, swapAddr: Addr, tokenHash: nat, swapHash: nat)

  /** A token call that took effect. */
  datatype Event = Event(token: Addr, call: R.Call)

  datatype Failure = OutOfGas | WrongCode | BadMessage | ForeignError | TokenError(t: T.Error) | SwapError(s: S.Error)

  datatype Delivered = Delivered(ledger: Ledger, events: seq<Event>, calls: seq<Call>)

  datatype Done = Done(ledger: Ledger, trace: seq<Event>, gas: nat)

  /** What unknown contracts emit, by the gas left when they are called; an absent entry fails. */
  type Script = map<nat, seq<Call>>

  ghost predicate WellFormed(l: Ledger) {
    l.swapAddr.Account? && l.swapAddr !in l.tokens.Keys && (forall t <- l.tokens :: t.Account?)
  }

  function FromToken(out: Option<T.Callback>): seq<Call> {
    match out
    case None => []
    case Some(c) => [Call(c.recipient, c.codeHash, ToSwap(S.Receive(c.from, c.payload, c.amount)))]
  }

  function FromSwap(out: Option<S.Outgoing>): seq<Call> {
    match out
    case None => []
    case Some(o) => [Call(o.target, o.codeHash, ToToken(o.msg))]
  }

  function DeliverToken(l: Ledger, sender: Addr, time: u64, c: Call): Result<Delivered, Failure>
    requires c.target in l.tokens
  {
    if c.codeHash != l.tokenHash then Err(WrongCode)
    else if c.body.ToSwap? then Err(BadMessage)
    else
      match T.Handle(l.tokens[c.target], Env(sender, time), c.body.tokenMsg)
      case Err(e) => Err(TokenError(e))
      case Ok((s, out)) =>
        Ok(Delivered(l.(tokens := l.tokens[c.target := s]),
                     [Event(c.target, R.Call(Env(sender, time), c.body.tokenMsg))], FromToken(out)))
  }

  function DeliverSwap(l: Ledger, sender: Addr, time: u64, c: Call): Result<Delivered, Failure> {
    if c.codeHash != l.swapHash then Err(WrongCode)
    else if c.body.ToToken? then Err(BadMessage)
    else
      match S.Handle(l.swap, Env(sender, time), l.swapHash, c.body.swapMsg)
      case Err(e) => Err(SwapError(e))
      case Ok((s, out)) => Ok(Delivered(l.(swap := s), [], FromSwap(out)))
  }

  function Deliver(l: Ledger, sender: Addr, time: u64, c: Call, gas: nat, script: Script): Result<Delivered, Failure> {
    if c.target in l.tokens then DeliverToken(l, sender, time, c)
    else if c.target == l.swapAddr then DeliverSwap(l, sender, time, c)
    else if gas in script then Ok(Delivered(l, [], script[gas]))
    else Err(ForeignError)
  }

  function Exec(l: Ledger, sender: Addr, time: u64, c: Call, gas: nat, script: Script): (r: Result<Done, Failure>)
    ensures r.Ok? ==> r.value.gas < gas
    decreases gas, 0
  {
    if gas == 0 then Err(OutOfGas) else
      match Deliver(l, sender, time, c, gas, script)
      case Err(e) => Err(e)
      case Ok(d) =>
        match ExecAll(d.ledger, c.target, time, d.calls, gas - 1, script)
        case Err(e) => Err(e)
        case Ok(rest) => Ok(Done(rest.ledger, d.events + rest.trace, rest.gas))
  }

  function ExecAll(l: Ledger, sender: Addr, time: u64, calls: seq<Call>, gas: nat, script: Script)
    : (r: Result<Done, Failure>)
    ensures r.Ok? ==> r.value.gas <= gas
    decreases gas, 1 + |calls|
  {
    if calls == [] then Ok(Done(l, [], gas)) else
      match Exec(l, sender, time, calls[0], gas, script)
      case Err(e) => Err(e)
      case Ok(first) =>
        match ExecAll(first.ledger, sender, time, calls[1..], first.gas, script)
        case Err(e) => Err(e)
        case Ok(rest) => Ok(Done(rest.ledger, first.trace + rest.trace, rest.gas))
  }

  datatype Tx = Tx(sender: Addr, time: u64, call: Call, gas: nat, script: Script)

  /** Contracts do not sign transactions. */
  ghost predicate Signed(l: Ledger, tx: Tx) {
    tx.sender != l.swapAddr && tx.sender !in l.tokens.Keys
  }

  /** The ledger and the committed token calls after a transaction; a failing one leaves both as
      they were. */
  function Transact(l: Ledger, tx: Tx): (Ledger, seq<Event>) {
    match Exec(l, tx.sender, tx.time, tx.call, tx.gas, tx.script)
    case Ok(d) => (d.ledger, d.trace)
    case Err(_) => (l, [])
  }

  function After(l: Ledger, txs: seq<Tx>): Ledger {
    if txs == [] then l else Transact(After(l, txs[..|txs| - 1]), txs[|txs| - 1]).0
  }

  function Trace(l: Ledger, txs: seq<Tx>): seq<Event> {
    if txs == [] then [] else
      Trace(l, txs[..|txs| - 1]) + Transact(After(l, txs[..|txs| - 1]), txs[|txs| - 1]).1
  }

  /** The committed calls on one token, in order. */
  function CallsOn(trace: seq<Event>, t: Addr): seq<R.Call> {
    if trace == [] then [] else
      var last := trace[|trace| - 1];
      CallsOn(trace[..|trace| - 1], t) + if last.token == t then [last.call] else []
  }

  function LogTotal(log: seq<S.Swap>): nat {
    if log == [] then 0 else LogTotal(log[..|log| - 1]) + log[|log| - 1].amount
  }
}
