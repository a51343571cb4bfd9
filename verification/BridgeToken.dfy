/** What the bridge token does: one pure function per handler, and `Handle` over them.
    A result is the state after the message together with at most one callback message;
    on an error the host keeps the state before (see module Ledger). */
module BridgeToken {
  import opened Prelude

  datatype Allowance = Allowance(amount: u128, expiration: Option<u64>)

  /** A stored transfer; `owner` is the account debited (`from` in the source). */
  datatype Tx = Tx(id: u64, owner: Addr, sender: Addr, receiver: Addr, amount: u128)

  datatype Status = NormalRun | StopAllButRedeems | StopAll

  datatype State = State(
    balances: map<Addr, u128>,
    supply: u128,
    allowances: map<(Addr, Addr), Allowance>,
    history: map<Addr, seq<Tx>>,
    txCount: u64,
    receivers: map<Addr, nat>,
    minters: seq<Addr>,
    admin: Addr,
    status: Status)

  datatype Msg =
    | Transfer(recipient: Addr, amount: u128)
    | Send(recipient: Addr, amount: u128, payload: Option<Destination>)
    | RegisterReceive(codeHash: nat)
    | IncreaseAllowance(spender: Addr, amount: u128, expiration: Option<u64>)
    | DecreaseAllowance(spender: Addr, amount: u128, expiration: Option<u64>)
    | TransferFrom(owner: Addr, recipient: Addr, amount: u128)
    | SendFrom(owner: Addr, recipient: Addr, amount: u128, payload: Option<Destination>)
    | Burn(amount: u128)
    | Mint(amount: u128, recipient: Addr)
    | ChangeAdmin(address: Addr)
    | SetContractStatus(level: Status)
    | AddMinters(minters: seq<Addr>)
    | RemoveMinters(minters: seq<Addr>)
    | SetMinters(minters: seq<Addr>)

  /** The `Receive` message a transfer may trigger at its recipient. */
  datatype Callback = Callback(
    recipient: Addr, codeHash: nat, sender: Addr, from: Addr, amount: u128, payload: Option<Destination>)

  datatype Error =
    | Stopped | NotAdmin | NotMinter | BadAddress | Panic
    | InsufficientFunds | RecipientTooRich
    | InsufficientAllowance(allowance: u128)
    | InsufficientBurn | BurnAboveSupply
    | SupplyOverflow | MintAccountOverflow

  type Outcome = Result<(State, Option<Callback>), Error>

  function Balance(s: State, a: Addr): u128 {
    if a in s.balances then s.balances[a] else 0
  }

  function AllowanceOf(s: State, owner: Addr, spender: Addr): Allowance {
    if (owner, spender) in s.allowances then s.allowances[(owner, spender)] else Allowance(0, None)
  }

  function History(s: State, a: Addr): seq<Tx> {
    if a in s.history then s.history[a] else []
  }

  // ---- Moving tokens ----

  function PerformTransfer(s: State, from: Addr, to: Addr, amount: u128): Result<State, Error> {
    if Balance(s, from) < amount then Err(InsufficientFunds) else
      var s1 := s.(balances := s.balances[from := Balance(s, from) - amount]);
      if Balance(s1, to) + amount >= U128 then Err(RecipientTooRich) else
        Ok(s1.(balances := s1.balances[to := Balance(s1, to) + amount]))
  }

  /** Each account's list has a 32-bit length; pushing onto a full one panics. */
  function AppendTx(s: State, tx: Tx, a: Addr): Result<State, Error> {
    if |History(s, a)| + 1 >= U32 then Err(Panic) else
      Ok(s.(history := s.history[a := History(s, a) + [tx]]))
  }

  function StoreTransfer(s: State, owner: Addr, sender: Addr, receiver: Addr, amount: u128): Result<State, Error> {
    if s.txCount + 1 >= U64 then Err(Panic) else
      var tx := Tx(s.txCount + 1, owner, sender, receiver, amount);
      var s0 := s.(txCount := s.txCount + 1);
      match if owner != sender then AppendTx(s0, tx, owner) else Ok(s0)
      case Err(e) => Err(e)
      case Ok(s1) =>
        match AppendTx(s1, tx, sender)
        case Err(e) => Err(e)
        case Ok(s2) => AppendTx(s2, tx, receiver)
  }

  function TransferImpl(s: State, env: Env, recipient: Addr, amount: u128): Result<State, Error> {
    if env.sender.Malformed? || recipient.Malformed? then Err(BadAddress) else
      var s1 :- PerformTransfer(s, env.sender, recipient, amount);
      StoreTransfer(s1, env.sender, env.sender, recipient, amount)
  }

  predicate Expired(a: Allowance, now: u64) {
    a.expiration.Some? && a.expiration.value < now
  }

  function SpendAllowance(s: State, env: Env, owner: Addr, amount: u128): Result<State, Error> {
    var a := AllowanceOf(s, owner, env.sender);
    if Expired(a, env.time) then Err(InsufficientAllowance(0))
    else if a.amount < amount then Err(InsufficientAllowance(a.amount))
    else Ok(s.(allowances := s.allowances[(owner, env.sender) := a.(amount := a.amount - amount)]))
  }

  function TransferFromImpl(s: State, env: Env, owner: Addr, recipient: Addr, amount: u128): Result<State, Error> {
    if env.sender.Malformed? || owner.Malformed? || recipient.Malformed? then Err(BadAddress) else
      var s1 :- SpendAllowance(s, env, owner, amount);
      var s2 :- PerformTransfer(s1, owner, recipient, amount);
      StoreTransfer(s2, owner, env.sender, recipient, amount)
  }

  function CallbackTo(s: State, recipient: Addr, sender: Addr, from: Addr, amount: u128,
                      payload: Option<Destination>): Option<Callback>
  {
    if recipient in s.receivers
    then Some(Callback(recipient, s.receivers[recipient], sender, from, amount, payload))
    else None
  }

  // ---- Supply ----

  function TryBurn(s: State, env: Env, amount: u128): Result<State, Error> {
    if env.sender.Malformed? then Err(BadAddress)
    else if Balance(s, env.sender) < amount then Err(InsufficientBurn)
    else if s.supply < amount then Err(BurnAboveSupply)
    else Ok(s.(balances := s.balances[env.sender := Balance(s, env.sender) - amount], supply := s.supply - amount))
  }

  function TryMint(s: State, env: Env, recipient: Addr, amount: u128): Result<State, Error> {
    if env.sender !in s.minters then Err(NotMinter)
    else if s.supply + amount >= U128 then Err(SupplyOverflow)
    else if recipient.Malformed? then Err(BadAddress)
    else if Balance(s, recipient) + amount >= U128 then Err(MintAccountOverflow)
    else Ok(s.(supply := s.supply + amount, balances := s.balances[recipient := Balance(s, recipient) + amount]))
  }

  // ---- Allowances ----

  function SaturatingAdd(a: u128, b: u128): u128 {
    if a + b >= U128 then U128 - 1 else a + b
  }

  function SaturatingSub(a: u128, b: u128): u128 {
    if a < b then 0 else a - b
  }

  function SetAllowance(s: State, env: Env, spender: Addr, amount: u128, expiration: Option<u64>): State {
    var a := AllowanceOf(s, env.sender, spender);
    s.(allowances := s.allowances[(env.sender, spender) :=
      Allowance(amount, if expiration.Some? then expiration else a.expiration)])
  }

  function TryIncreaseAllowance(s: State, env: Env, spender: Addr, amount: u128, expiration: Option<u64>)
    : Result<State, Error>
  {
    if env.sender.Malformed? || spender.Malformed? then Err(BadAddress) else
      Ok(SetAllowance(s, env, spender, SaturatingAdd(AllowanceOf(s, env.sender, spender).amount, amount), expiration))
  }

  function TryDecreaseAllowance(s: State, env: Env, spender: Addr, amount: u128, expiration: Option<u64>)
    : Result<State, Error>
  {
    if env.sender.Malformed? || spender.Malformed? then Err(BadAddress) else
      Ok(SetAllowance(s, env, spender, SaturatingSub(AllowanceOf(s, env.sender, spender).amount, amount), expiration))
  }

  // ---- Administration ----

  function Without(minters: seq<Addr>, gone: seq<Addr>): seq<Addr> {
    if minters == [] then [] else
      Without(minters[..|minters| - 1], gone) +
      (if minters[|minters| - 1] in gone then [] else [minters[|minters| - 1]])
  }

  function ByAdmin(s: State, env: Env, s': State): Result<State, Error> {
    if env.sender != s.admin then Err(NotAdmin) else Ok(s')
  }

  // ---- Dispatch ----

  /** The state change of a message in normal running. */
  function Change(s: State, env: Env, msg: Msg): Result<State, Error> {
    match msg
    case Transfer(r, n) => TransferImpl(s, env, r, n)
    case Send(r, n, _) => TransferImpl(s, env, r, n)
    case RegisterReceive(h) => Ok(s.(receivers := s.receivers[env.sender := h]))
    case IncreaseAllowance(sp, n, ex) => TryIncreaseAllowance(s, env, sp, n, ex)
    case DecreaseAllowance(sp, n, ex) => TryDecreaseAllowance(s, env, sp, n, ex)
    case TransferFrom(o, r, n) => TransferFromImpl(s, env, o, r, n)
    case SendFrom(o, r, n, _) => TransferFromImpl(s, env, o, r, n)
    case Burn(n) => TryBurn(s, env, n)
    case Mint(n, r) => TryMint(s, env, r, n)
    case ChangeAdmin(a) => ByAdmin(s, env, s.(admin := a))
    case SetContractStatus(level) => ByAdmin(s, env, s.(status := level))
    case AddMinters(ms) => ByAdmin(s, env, s.(minters := s.minters + ms))
    case RemoveMinters(ms) => ByAdmin(s, env, s.(minters := Without(s.minters, ms)))
    case SetMinters(ms) => ByAdmin(s, env, s.(minters := ms))
  }

  /** The callback a successful message emits, read from the state it leaves. */
  function Emits(s': State, env: Env, msg: Msg): Option<Callback> {
    match msg
    case Send(r, n, p) => CallbackTo(s', r, env.sender, env.sender, n, p)
    case SendFrom(o, r, n, p) => CallbackTo(s', r, env.sender, o, n, p)
    case _ => None
  }

  function Handle(s: State, env: Env, msg: Msg): Outcome {
    if s.status != NormalRun && !msg.SetContractStatus? then Err(Stopped) else
      var s' :- Change(s, env, msg);
      Ok((s', Emits(s', env, msg)))
  }

  // ---- Instantiation ----

  datatype InitialBalance = InitialBalance(address: Addr, amount: u128)

  /** The balances and the supply after the entries so far: a later entry for an address
      overwrites the balance, while the supply counts every entry. */
  function Credit(entries: seq<InitialBalance>): Result<(map<Addr, u128>, u128), Error> {
    if entries == [] then Ok((map[], 0)) else
      var (balances, total) :- Credit(entries[..|entries| - 1]);
      var last := entries[|entries| - 1];
      if last.address.Malformed? then Err(BadAddress)
      else if total + last.amount >= U128 then Err(SupplyOverflow)
      else Ok((balances[last.address := last.amount], total + last.amount))
  }

  /** The contract after `init`; the name, symbol and decimals checks are not modelled. */
  function Init(entries: seq<InitialBalance>, admin: Addr): Result<State, Error> {
    var (balances, total) :- Credit(entries);
    Ok(State(balances, total, map[], map[], 0, map[], [admin], admin, NormalRun))
  }
}
