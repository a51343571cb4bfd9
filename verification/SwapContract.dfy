/** The swap contract as the source writes it, over stored vectors and a stored log, proved equal to
    the pure functions of module BridgeSwap. */
module SwapContract {
  import opened Prelude
  import opened BridgeSwap
  import T = BridgeToken

  class Contract {
    var owner: Addr
    var paused: bool
    var whitelist: seq<TokenEntry>
    var logs: map<Addr, seq<Swap>>

    function Abs(): State
      reads this
    {
      State(owner, paused, whitelist, logs)
    }

    method Position(address: Addr) returns (i: nat)
      ensures i <= |whitelist|
      ensures i < |whitelist| ==> Lookup(whitelist, address) == Some(whitelist[i])
      ensures i < |whitelist| ==> Removed(whitelist, address) == whitelist[..i] + whitelist[i + 1..]
      ensures i == |whitelist| ==> Lookup(whitelist, address).None? && Removed(whitelist, address) == whitelist
    {
      i := 0;
      while i < |whitelist| && whitelist[i].address != address
        invariant i <= |whitelist|
        invariant Lookup(whitelist, address) == Lookup(whitelist[i..], address)
        invariant Removed(whitelist, address) == whitelist[..i] + Removed(whitelist[i..], address)
      {
        PassOver(whitelist, i, address);
        i := i + 1;
      }
      StopAt(whitelist, i, address);
    }

    method StoreSwap(token: Addr, source: Addr, amount: u128, destination: Destination) returns (r: Result<u32, Error>)
      modifies this`logs
      ensures r.Ok? ==> Store(old(Abs()), token, source, amount, destination) == Ok(Abs())
      ensures r.Ok? ==> r.value == |LogOf(old(Abs()), token)|
      ensures r.Err? ==> Store(old(Abs()), token, source, amount, destination) == Err(r.error)
    {
      var log := LogOf(Abs(), token);
      if |log| + 1 >= U32 { return Err(Panic); }
      var nonce := |log|;
      logs := logs[token := log + [Swap(destination, source, amount, token, nonce)]];
      return Ok(nonce);
    }

    method BurnToken(env: Env, from: Addr, amount: u128, payload: Option<Destination>)
      returns (r: Result<Option<Outgoing>, Error>)
      modifies this`logs
      ensures r.Ok? ==> BridgeSwap.BurnToken(old(Abs()), env, from, amount, payload) == Ok((Abs(), r.value))
      ensures r.Err? ==> BridgeSwap.BurnToken(old(Abs()), env, from, amount, payload) == Err(r.error)
    {
      if paused { return Err(Paused); }
      if env.sender.Malformed? { return Err(UnknownToken); }
      var i := Position(env.sender);
      if i == |whitelist| { return Err(UnknownToken); }
      if payload.None? { return Err(Panic); }
      if payload.value.Garbage? { return Err(BadDestination); }
      if amount < whitelist[i].minimum { return Err(BelowMinimum); }
      var stored := StoreSwap(env.sender, from, amount, payload.value);
      if stored.Err? { return Err(stored.error); }
      return Ok(Some(Outgoing(env.sender, whitelist[i].codeHash, T.Burn(amount))));
    }

    method MintToken(address: Addr, amount: nat, token: Addr) returns (r: Result<Option<Outgoing>, Error>)
      ensures r.Ok? ==> BridgeSwap.MintToken(Abs(), address, amount, token) == Ok((Abs(), r.value))
      ensures r.Err? ==> BridgeSwap.MintToken(Abs(), address, amount, token) == Err(r.error)
    {
      if amount >= U128 { return Err(BadNumber); }
      if paused { return Err(Paused); }
      if token.Malformed? { return Err(BadAddress); }
      var i := Position(token);
      if i == |whitelist| { return Err(UnknownToken); }
      return Ok(Some(Outgoing(token, whitelist[i].codeHash, T.Mint(amount, address))));
    }

    method Handle(env: Env, self: nat, msg: Msg) returns (r: Result<Option<Outgoing>, Error>)
      modifies this
      ensures r.Ok? ==> BridgeSwap.Handle(old(Abs()), env, self, msg) == Ok((Abs(), r.value))
      ensures r.Err? ==> BridgeSwap.Handle(old(Abs()), env, self, msg) == Err(r.error)
    {
      if msg.Receive? {
        r := BurnToken(env, msg.from, msg.amount, msg.payload);
        return;
      }
      if msg.MintFromExtChain? {
        r := MintToken(msg.address, msg.quantity, msg.token);
        return;
      }
      if env.sender != owner { return Err(NotOwner); }
      match msg {
        case AddToken(a, h, min) =>
          if a.Malformed? { return Err(BadAddress); }
          var i := Position(a);
          if i == |whitelist| {
            whitelist := whitelist + [TokenEntry(a, h, min)];
          }
          return Ok(Some(Outgoing(a, h, T.RegisterReceive(self))));
        case RemoveToken(a) =>
          if a.Malformed? { return Err(BadAddress); }
          var i := Position(a);
          if i < |whitelist| {
            whitelist := whitelist[..i] + whitelist[i + 1..];
          }
        case ChangeOwner(o) =>
          if o.Malformed? { return Err(BadAddress); }
          owner := o;
        case PauseSwap => paused := true;
        case UnpauseSwap => paused := false;
        case _ =>
      }
      return Ok(None);
    }
  }

  lemma PassOver(whitelist: seq<TokenEntry>, i: nat, address: Addr)
    requires i < |whitelist| && whitelist[i].address != address
    ensures Lookup(whitelist[i..], address) == Lookup(whitelist[i + 1..], address)
    ensures whitelist[..i] + Removed(whitelist[i..], address) == whitelist[..i + 1] +
        Removed(whitelist[i + 1..], address)
  {
    assert whitelist[i..][1..] == whitelist[i + 1..];
    assert whitelist[..i] + [whitelist[i]] == whitelist[..i + 1];
    var rest := Removed(whitelist[i + 1..], address);
    assert whitelist[..i] + ([whitelist[i]] + rest) == whitelist[..i] + [whitelist[i]] + rest;
  }

  lemma StopAt(whitelist: seq<TokenEntry>, i: nat, address: Addr)
    requires i <= |whitelist| && (i < |whitelist| ==> whitelist[i].address == address)
    ensures i < |whitelist| ==> Lookup(whitelist[i..], address) == Some(whitelist[i])
    ensures i < |whitelist| ==> Removed(whitelist[i..], address) == whitelist[i + 1..]
    ensures i == |whitelist| ==>
              Lookup(whitelist[i..], address).None? && whitelist[..i] + Removed(whitelist[i..], address) == whitelist
  {
    if i < |whitelist| {
      assert whitelist[i..][1..] == whitelist[i + 1..];
    }
  }
}
