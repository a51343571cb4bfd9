/** When each swap-contract message succeeds and what it then does, and what its query answers. */
module SwapRules {
  import opened Prelude
  import opened BridgeSwap
  import T = BridgeToken

  /** The records stored for a token. */
  function Stored(s: State, token: Addr): seq<Swap> {
    if token in s.logs then s.logs[token] else []
  }

  /** Every stored swap is answered under its position, and nothing else is. */
  lemma QueryExactly(s: State, nonce: nat, token: Addr)
    ensures Query(s, nonce, token).Some? <==> nonce < |Stored(s, token)|
    ensures nonce < |Stored(s, token)| ==> Query(s, nonce, token) == Some(Stored(s, token)[nonce])
  {
  }

  predicate OwnersOnly(msg: Msg) {
    !msg.Receive? && !msg.MintFromExtChain?
  }

  predicate WellAddressed(msg: Msg) {
    match msg
    case AddToken(a, _, _) => a.Account?
    case RemoveToken(a) => a.Account?
    case ChangeOwner(o) => o.Account?
    case _ => true
  }

  /** The owner's messages succeed if and only if the owner sends them with well-formed addresses. They
      hand over ownership, pause or resume, and list or delist one token, and touch no record. */
  lemma OwnerExactly(s: State, env: Env, self: nat, msg: Msg)
    requires OwnersOnly(msg) && Distinct(s.whitelist)
    ensures var r := Handle(s, env, self, msg);
            && (r.Ok? <==> env.sender == s.owner && WellAddressed(msg))
            && (r.Ok? ==>
                  var (s', out) := r.value;
                  && s'.owner == (if msg.ChangeOwner? then msg.owner else s.owner)
                  && s'.paused == (if msg.PauseSwap? then true else if msg.UnpauseSwap? then false else s.paused)
                  && s'.logs == s.logs
                  && (forall a :: Lookup(s'.whitelist, a) == ListedAfter(s, msg, a))
                  && out == if msg.AddToken? then Some(Outgoing(msg.address, msg.codeHash, T.RegisterReceive(self)))
                            else None)
  {
    hide Lookup, Added, Removed, Distinct;
    if msg.AddToken? {
      AddedLists(s.whitelist, TokenEntry(msg.address, msg.codeHash, msg.minimum));
    } else if msg.RemoveToken? {
      RemovedDelists(s.whitelist, msg.address);
    }
  }

  /** An unlisted token is listed with the code hash and minimum given, a listed one keeps its entry, and
      a removed one is gone. */
  function ListedAfter(s: State, msg: Msg, a: Addr): Option<TokenEntry> {
    if msg.AddToken? && a == msg.address && Lookup(s.whitelist, a).None?
    then Some(TokenEntry(a, msg.codeHash, msg.minimum))
    else if msg.RemoveToken? && a == msg.address then None
    else Lookup(s.whitelist, a)
  }

  /** The minimum given when a token is added is the one its swaps are held to. */
  lemma MinimumHolds(s: State, owner: Env, self: nat, token: Addr, codeHash: nat, minimum: u128, env: Env, from: Addr,
                     amount: u128, payload: Option<Destination>)
    requires Distinct(s.whitelist) && Lookup(s.whitelist, token).None?
    requires Handle(s, owner, self, AddToken(token, codeHash, minimum)).Ok? && env.sender == token
    ensures var s' := Handle(s, owner, self, AddToken(token, codeHash, minimum)).value.0;
            Handle(s', env, self, Receive(from, payload, amount)).Ok? <==>
              && !s.paused && minimum <= amount && payload.Some? && payload.value.EthAddress?
              && |Stored(s, token)| + 1 < U32
  {
    hide Lookup, Added, Distinct;
    AddedLists(s.whitelist, TokenEntry(token, codeHash, minimum));
  }
}
