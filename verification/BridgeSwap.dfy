/** What the swap contract does: a whitelist of tokens, one append-only swap log per token, and the
    handlers that turn a `Receive` into a burn and a `MintFromExtChain` into a mint. */
module BridgeSwap {
  import opened Prelude
  import T = BridgeToken

  datatype TokenEntry = TokenEntry(address: Addr, codeHash: nat, minimum: u128)

  datatype Swap = Swap(destination: Destination, source: Addr, amount: u128, token: Addr, nonce: u32)

  datatype State = State(owner: Addr, paused: bool, whitelist: seq<TokenEntry>, logs: map<Addr, seq<Swap>>)

  datatype Msg =
    | AddToken(address: Addr, codeHash: nat, minimum: u128)
    | RemoveToken(address: Addr)
    | ChangeOwner(owner: Addr)
    | PauseSwap
    | UnpauseSwap
    | Receive(from: Addr, payload: Option<Destination>, amount: u128)
    | MintFromExtChain(address: Addr, identifier: string, quantity: nat, token: Addr)

  /** A message to a token contract, with the code hash the swap contract believes it runs. */
  datatype Outgoing = Outgoing(target: Addr, codeHash: nat, msg: T.Msg)

  datatype Error = NotOwner | Paused | UnknownToken | BadAddress | BadDestination | BelowMinimum | Panic | BadNumber

  function LogOf(s: State, token: Addr): seq<Swap> {
    if token in s.logs then s.logs[token] else []
  }

  /** The first whitelist entry for an address. */
  function Lookup(whitelist: seq<TokenEntry>, address: Addr): Option<TokenEntry> {
    if whitelist == [] then None
    else if whitelist[0].address == address then Some(whitelist[0])
    else Lookup(whitelist[1..], address)
  }

  /** Entries compare by address alone, so adding a listed token again changes nothing. */
  function Added(whitelist: seq<TokenEntry>, e: TokenEntry): seq<TokenEntry> {
    if Lookup(whitelist, e.address).Some? then whitelist else whitelist + [e]
  }

  function Removed(whitelist: seq<TokenEntry>, address: Addr): seq<TokenEntry> {
    if whitelist == [] then []
    else if whitelist[0].address == address then whitelist[1..]
    else [whitelist[0]] + Removed(whitelist[1..], address)
  }

  /** No address is listed twice. */
  ghost predicate Distinct(whitelist: seq<TokenEntry>) {
    forall i, j :: 0 <= i < j < |whitelist| ==> whitelist[i].address != whitelist[j].address
  }

  lemma {:induction false} LookupFinds(whitelist: seq<TokenEntry>, address: Addr)
    ensures Lookup(whitelist, address).Some? <==> exists e <- whitelist :: e.address == address
  {
    if whitelist != [] {
      LookupFinds(whitelist[1..], address);
      assert whitelist == [whitelist[0]] + whitelist[1..];
    }
  }

  lemma {:induction false} LookupSnoc(whitelist: seq<TokenEntry>, e: TokenEntry, address: Addr)
    ensures Lookup(whitelist + [e], address) ==
            if Lookup(whitelist, address).Some? then Lookup(whitelist, address)
            else if e.address == address then Some(e) else None
  {
    if whitelist == [] {
      assert [e][1..] == [];
    } else {
      assert (whitelist + [e])[1..] == whitelist[1..] + [e];
      LookupSnoc(whitelist[1..], e, address);
    }
  }

  /** Adding lists a token under the entry given, unless it is listed already, and disturbs no other. */
  lemma AddedLists(whitelist: seq<TokenEntry>, e: TokenEntry)
    requires Distinct(whitelist)
    ensures Distinct(Added(whitelist, e))
    ensures forall a :: Lookup(Added(whitelist, e), a) ==
              if a == e.address && Lookup(whitelist, a).None? then Some(e) else Lookup(whitelist, a)
  {
    LookupFinds(whitelist, e.address);
    forall a ensures Lookup(whitelist + [e], a) ==
                     if Lookup(whitelist, a).Some? then Lookup(whitelist, a)
                     else if e.address == a then Some(e) else None
    {
      LookupSnoc(whitelist, e, a);
    }
  }

  /** Removing a token takes it off the list for good, since it is listed once, and no other token. */
  lemma {:induction false} RemovedDelists(whitelist: seq<TokenEntry>, address: Addr)
    requires Distinct(whitelist)
    ensures Distinct(Removed(whitelist, address))
    ensures forall e <- Removed(whitelist, address) :: e in whitelist
    ensures forall a :: Lookup(Removed(whitelist, address), a) == if a == address then None else Lookup(whitelist, a)
  {
    if whitelist != [] {
      var first, rest := whitelist[0], whitelist[1..];
      assert whitelist == [first] + rest;
      forall e | e in rest ensures e.address != first.address {
        var j :| 0 <= j < |rest| && rest[j] == e;
        assert whitelist[j + 1] == e;
      }
      RemovedDelists(rest, address);
      LookupFinds(rest, address);
      if first.address != address {
        ConsLists(first, Removed(rest, address));
      }
    }
  }

  lemma ConsLists(first: TokenEntry, rest: seq<TokenEntry>)
    ensures Distinct(rest) && (forall e <- rest :: e.address != first.address) ==> Distinct([first] + rest)
    ensures forall a :: Lookup([first] + rest, a) == if first.address == a then Some(first) else Lookup(rest, a)
  {
    assert ([first] + rest)[1..] == rest;
  }

  /** Logs a swap under the next nonce of its token; the log's length is a 32-bit number. */
  function Store(s: State, token: Addr, source: Addr, amount: u128, destination: Destination): Result<State, Error> {
    var log := LogOf(s, token);
    if |log| + 1 >= U32 then Err(Panic) else
      Ok(s.(logs := s.logs[token := log + [Swap(destination, source, amount, token, |log|)]]))
  }

  type Outcome = Result<(State, Option<Outgoing>), Error>

  function BurnToken(s: State, env: Env, from: Addr, amount: u128, payload: Option<Destination>): Outcome {
    if s.paused then Err(Paused)
    else if env.sender.Malformed? || Lookup(s.whitelist, env.sender).None? then Err(UnknownToken)
    else if payload.None? then Err(Panic)
    else if payload.value.Garbage? then Err(BadDestination)
    else if amount < Lookup(s.whitelist, env.sender).value.minimum then Err(BelowMinimum)
    else
      var s' :- Store(s, env.sender, from, amount, payload.value);
      Ok((s', Some(Outgoing(env.sender, Lookup(s.whitelist, env.sender).value.codeHash, T.Burn(amount)))))
  }

  /** Nothing is stored: the identifier is not checked for uniqueness. An amount that does not fit
      128 bits does not parse. */
  function MintToken(s: State, address: Addr, amount: nat, token: Addr): Outcome {
    if amount >= U128 then Err(BadNumber)
    else if s.paused then Err(Paused)
    else if token.Malformed? then Err(BadAddress)
    else if Lookup(s.whitelist, token).None? then Err(UnknownToken)
    else Ok((s, Some(Outgoing(token, Lookup(s.whitelist, token).value.codeHash, T.Mint(amount, address)))))
  }

  function ByOwner(s: State, env: Env, s': State, out: Option<Outgoing>): Outcome {
    if env.sender != s.owner then Err(NotOwner) else Ok((s', out))
  }

  /** `self` is the hash of the contract's own code, which `AddToken` registers with the token. */
  function Handle(s: State, env: Env, self: nat, msg: Msg): Outcome {
    match msg
    case AddToken(a, h, min) =>
      if env.sender != s.owner then Err(NotOwner)
      else if a.Malformed? then Err(BadAddress)
      else Ok((s.(whitelist := Added(s.whitelist, TokenEntry(a, h, min))),
               Some(Outgoing(a, h, T.RegisterReceive(self)))))
    case RemoveToken(a) =>
      if env.sender != s.owner then Err(NotOwner)
      else if a.Malformed? then Err(BadAddress)
      else Ok((s.(whitelist := Removed(s.whitelist, a)), None))
    case ChangeOwner(o) =>
      if env.sender != s.owner then Err(NotOwner)
      else if o.Malformed? then Err(BadAddress)
      else Ok((s.(owner := o), None))
    case PauseSwap => ByOwner(s, env, s.(paused := true), None)
    case UnpauseSwap => ByOwner(s, env, s.(paused := false), None)
    case Receive(from, payload, n) => BurnToken(s, env, from, n, payload)
    case MintFromExtChain(a, _, n, t) => MintToken(s, a, n, t)
  }

  function Init(owner: Addr): State {
    State(owner, false, [], map[])
  }

  /** `query_swap`: the record at a position of a token's log, whitelisted or not. */
  function Query(s: State, nonce: nat, token: Addr): Option<Swap> {
    if nonce < |LogOf(s, token)| then Some(LogOf(s, token)[nonce]) else None
  }
}
