/** When each token message succeeds and what it then does, said in terms of the stored maps alone, so
    that no handler's own definition has to be believed. */
module TokenRules {
  import opened Prelude
  import opened BridgeToken
  import opened TokenRuns

  // ---- The four transfers ----

  /** The counter and the lists of everybody mentioned have room for the transfer. */
  predicate Room(s: State, m: Move) {
    && s.txCount + 1 < U64
    && (forall a <- {m.owner, m.sender, m.receiver} :: |Listed(s.history, a)| + Mentions(m, a) < U32)
  }

  /** What is stored allows a third party the amount: enough, and without expiration or not past it. */
  predicate Allows(s: State, owner: Addr, spender: Addr, amount: nat, now: u64) {
    if (owner, spender) in s.allowances then
      var a := s.allowances[(owner, spender)];
      amount <= a.amount && (a.expiration.None? || now <= a.expiration.value)
    else amount == 0
  }

  predicate ThirdParty(msg: Msg) {
    msg.TransferFrom? || msg.SendFrom?
  }

  predicate MayMove(s: State, c: Call, m: Move) {
    && s.status == NormalRun
    && m.owner.Account? && m.sender.Account? && m.receiver.Account?
    && (ThirdParty(c.msg) ==> Allows(s, m.owner, m.sender, m.amount, c.env.time))
    && m.amount <= At(s.balances, m.owner)
    && Room(s, m)
  }

  lemma AppendExactly(s: State, tx: Tx, a: Addr)
    ensures var r := AppendTx(s, tx, a);
            if |Listed(s.history, a)| + 1 < U32 then r == Ok(s.(history := Appended(s.history, tx, a)))
            else r == Err(Panic)
  {
  }

  lemma StoreExactly(s: State, m: Move)
    ensures var r := StoreTransfer(s, m.owner, m.sender, m.receiver, m.amount);
            if Room(s, m) then r.Ok? else r == Err(Panic)
  {
    hide AppendTx, Appended, Listed;
    if s.txCount + 1 < U64 {
      var tx := Numbered(s.txCount + 1, m);
      var s0 := s.(txCount := s.txCount + 1);
      var h1 := if m.owner != m.sender then Appended(s.history, tx, m.owner) else s.history;
      var h2 := Appended(h1, tx, m.sender);
      AppendExactly(s0, tx, m.owner);
      AppendExactly(s0.(history := h1), tx, m.sender);
      AppendExactly(s0.(history := h2), tx, m.receiver);
      forall a | a in {m.owner, m.sender, m.receiver}
        ensures |Listed(h1, a)| == |Listed(s.history, a)| + if m.owner != m.sender && a == m.owner then 1 else 0
        ensures |Listed(h2, a)| == |Listed(h1, a)| + if a == m.sender then 1 else 0
      {
        AppendedAt(s.history, tx, m.owner, a);
        AppendedAt(h1, tx, m.sender, a);
      }
      assert m.owner in {m.owner, m.sender, m.receiver} && m.sender in {m.owner, m.sender, m.receiver}
             && m.receiver in {m.owner, m.sender, m.receiver};
    }
  }

  /** The transfer itself is refused only for lack of funds, where the supply covers the balances. */
  lemma PerformExactly(s: State, from: Addr, to: Addr, amount: u128)
    requires Sum(s.balances) <= s.supply
    ensures var r := PerformTransfer(s, from, to, amount);
            if amount <= At(s.balances, from) then r.Ok? && r.value == s.(balances := r.value.balances)
            else r == Err(InsufficientFunds)
  {
    hide Sum;
    TransferCannotOverflow(s, from, to, amount);
  }

  lemma SpendExactly(s: State, env: Env, owner: Addr, amount: u128)
    ensures var r := SpendAllowance(s, env, owner, amount);
            if Allows(s, owner, env.sender, amount, env.time)
            then r.Ok? && r.value == s.(allowances := r.value.allowances)
            else r.Err? && r.error.InsufficientAllowance?
  {
  }

  lemma RoomSame(s: State, s': State, m: Move)
    requires s'.history == s.history && s'.txCount == s.txCount
    ensures Room(s', m) == Room(s, m)
  {
  }

  /** Why a transfer is refused: the first of the conditions that does not hold. */
  function Refusal(s: State, c: Call, m: Move): (e: Option<Error>)
    ensures e.None? <==> MayMove(s, c, m)
  {
    if s.status != NormalRun then Some(Stopped)
    else if m.owner.Malformed? || m.sender.Malformed? || m.receiver.Malformed? then Some(BadAddress)
    else if ThirdParty(c.msg) && !Allows(s, m.owner, m.sender, m.amount, c.env.time) then
      Some(InsufficientAllowance(StillAllowed(s, m.owner, m.sender, c.env.time)))
    else if m.amount > At(s.balances, m.owner) then Some(InsufficientFunds)
    else if !Room(s, m) then Some(Panic)
    else None
  }

  /** The amount an error reports as allowed: none once expired. */
  function StillAllowed(s: State, owner: Addr, spender: Addr, now: u64): u128 {
    if (owner, spender) !in s.allowances then 0
    else
      var a := s.allowances[(owner, spender)];
      if a.expiration.Some? && a.expiration.value < now then 0 else a.amount
  }

  lemma SpendRefusal(s: State, env: Env, owner: Addr, amount: u128)
    requires !Allows(s, owner, env.sender, amount, env.time)
    ensures SpendAllowance(s, env, owner, amount) ==
            Err(InsufficientAllowance(StillAllowed(s, owner, env.sender, env.time)))
  {
  }

  lemma OwnTransferExactly(s: State, env: Env, m: Move)
    requires Sum(s.balances) <= s.supply && m.owner == m.sender == env.sender && m.amount < U128
    ensures var r := TransferImpl(s, env, m.receiver, m.amount);
            if m.owner.Malformed? || m.receiver.Malformed? then r == Err(BadAddress)
            else if m.amount > At(s.balances, m.owner) then r == Err(InsufficientFunds)
            else if !Room(s, m) then r == Err(Panic)
            else r.Ok?
  {
    hide Sum, PerformTransfer, StoreTransfer, Room;
    PerformExactly(s, m.owner, m.receiver, m.amount);
    var r := PerformTransfer(s, m.owner, m.receiver, m.amount);
    if r.Ok? {
      StoreExactly(r.value, m);
      RoomSame(s, r.value, m);
    }
  }

  lemma ThirdPartyExactly(s: State, env: Env, m: Move)
    requires Sum(s.balances) <= s.supply && m.sender == env.sender && m.amount < U128
    ensures var r := TransferFromImpl(s, env, m.owner, m.receiver, m.amount);
            if m.owner.Malformed? || m.sender.Malformed? || m.receiver.Malformed? then r == Err(BadAddress)
            else if !Allows(s, m.owner, m.sender, m.amount, env.time) then
              r == Err(InsufficientAllowance(StillAllowed(s, m.owner, m.sender, env.time)))
            else if m.amount > At(s.balances, m.owner) then r == Err(InsufficientFunds)
            else if !Room(s, m) then r == Err(Panic)
            else r.Ok?
  {
    hide Sum, PerformTransfer, StoreTransfer, Room, SpendAllowance, Allows, StillAllowed;
    SpendExactly(s, env, m.owner, m.amount);
    var r1 := SpendAllowance(s, env, m.owner, m.amount);
    if r1.Ok? {
      PerformExactly(r1.value, m.owner, m.receiver, m.amount);
      var r2 := PerformTransfer(r1.value, m.owner, m.receiver, m.amount);
      if r2.Ok? {
        StoreExactly(r2.value, m);
        RoomSame(s, r2.value, m);
      }
    } else {
      SpendRefusal(s, env, m.owner, m.amount);
    }
  }

  /** Each of the four transfers succeeds if and only if the token runs, all addresses are well formed,
      a third party is allowed the amount by an allowance that has not expired, the owner holds it,
      and there is room to record it; else it fails with the first of these that is missing. */
  lemma TransferExactly(s: State, c: Call, m: Move)
    requires Sum(s.balances) <= s.supply && MoveOf(c) == Some(m)
    ensures var r := Handle(s, c.env, c.msg);
            && (r.Ok? <==> MayMove(s, c, m))
            && (r.Err? ==> Some(r.error) == Refusal(s, c, m))
  {
    hide Sum, TransferImpl, TransferFromImpl, Room, Allows, StillAllowed, Emits;
    if ThirdParty(c.msg) {
      ThirdPartyExactly(s, c.env, m);
    } else {
      OwnTransferExactly(s, c.env, m);
    }
  }

  // ---- Notices ----

  /** A successful message notifies somebody if and only if it is a `Send` or `SendFrom` to a recipient
      that registered, and then says who sent it, whose tokens they were, how many and why. */
  lemma NoticeExactly(s: State, c: Call)
    requires Handle(s, c.env, c.msg).Ok?
    ensures var (s', notice) := Handle(s, c.env, c.msg).value;
            && (notice.Some? <==> (c.msg.Send? || c.msg.SendFrom?) && c.msg.recipient in s'.receivers)
            && (notice.Some? ==> notice.value == Callback(c.msg.recipient, s'.receivers[c.msg.recipient], c.env.sender,
                  if c.msg.Send? then c.env.sender else c.msg.owner, c.msg.amount, c.msg.payload))
  {
    hide Change;
  }

  // ---- Burning ----

  lemma BurnExactly(s: State, env: Env, amount: u128)
    requires Sum(s.balances) <= s.supply
    ensures var r := Handle(s, env, Burn(amount));
            if s.status == NormalRun && env.sender.Account? && amount <= At(s.balances, env.sender) then
              && amount <= s.supply
              && r == Ok((s.(balances := s.balances[env.sender := At(s.balances, env.sender) - amount],
                             supply := s.supply - amount), None))
            else r.Err?
  {
    hide Sum;
    SumAtLeast(s.balances, env.sender);
  }

  // ---- Allowances ----

  /** What is stored as allowed, nothing if there is no entry. */
  function Allowed(s: State, owner: Addr, spender: Addr): u128 {
    if (owner, spender) in s.allowances then s.allowances[(owner, spender)].amount else 0
  }

  function Expires(s: State, owner: Addr, spender: Addr): Option<u64> {
    if (owner, spender) in s.allowances then s.allowances[(owner, spender)].expiration else None
  }

  /** From `s` to `s'` only the allowance of one pair changed: to that amount, with the expiration given
      or else the one it had. */
  ghost predicate Reallowed(s: State, owner: Addr, spender: Addr, amount: u128, expiration: Option<u64>, s': State) {
    && s' == s.(allowances := s'.allowances)
    && Allowed(s', owner, spender) == amount
    && Expires(s', owner, spender) == (if expiration.Some? then expiration else Expires(s, owner, spender))
    && (forall o, p :: (o, p) != (owner, spender) ==>
          Allowed(s', o, p) == Allowed(s, o, p) && Expires(s', o, p) == Expires(s, o, p))
  }

  predicate MayAllow(s: State, env: Env, spender: Addr) {
    s.status == NormalRun && env.sender.Account? && spender.Account?
  }

  /** A decrease takes away the amount, or all there is. */
  lemma DecreaseExactly(s: State, env: Env, spender: Addr, amount: u128, expiration: Option<u64>)
    ensures var r := Handle(s, env, DecreaseAllowance(spender, amount, expiration));
            && (r.Ok? <==> MayAllow(s, env, spender))
            && (r.Ok? ==>
                  var had := Allowed(s, env.sender, spender);
                  Reallowed(s, env.sender, spender, if had < amount then 0 else had - amount, expiration, r.value.0))
  {
  }

  /** An increase adds the amount, or as much as 128 bits hold. */
  lemma IncreaseExactly(s: State, env: Env, spender: Addr, amount: u128, expiration: Option<u64>)
    ensures var r := Handle(s, env, IncreaseAllowance(spender, amount, expiration));
            && (r.Ok? <==> MayAllow(s, env, spender))
            && (r.Ok? ==>
                  var sum := Allowed(s, env.sender, spender) + amount;
                  Reallowed(s, env.sender, spender, if sum < U128 then sum else U128 - 1, expiration, r.value.0))
  {
  }

  /** What a call really takes back from an allowance. */
  function TakenOf(s: State, c: Call, owner: Addr, spender: Addr): nat {
    var asked := LowerOf(c, owner, spender);
    if asked < Allowed(s, owner, spender) then asked else Allowed(s, owner, spender)
  }

  /** What a call grants beyond what 128 bits hold. */
  function LostOf(s: State, c: Call, owner: Addr, spender: Addr): nat {
    var sum := Allowed(s, owner, spender) + GrantOf(c, owner, spender);
    if sum < U128 then 0 else sum - (U128 - 1)
  }

  function TakenBack(s0: State, calls: seq<Call>, owner: Addr, spender: Addr): nat
    requires Replay(s0, calls).Ok?
  {
    if calls == [] then 0 else
      var front := calls[..|calls| - 1];
      TakenBack(s0, front, owner, spender) + TakenOf(Replay(s0, front).value, calls[|calls| - 1], owner, spender)
  }

  function Lost(s0: State, calls: seq<Call>, owner: Addr, spender: Addr): nat
    requires Replay(s0, calls).Ok?
  {
    if calls == [] then 0 else
      var front := calls[..|calls| - 1];
      Lost(s0, front, owner, spender) + LostOf(Replay(s0, front).value, calls[|calls| - 1], owner, spender)
  }

  lemma AllowedIs(s: State, owner: Addr, spender: Addr)
    ensures AllowanceOf(s, owner, spender) == Allowance(Allowed(s, owner, spender), Expires(s, owner, spender))
  {
  }

  lemma MoveAllowed(s: State, c: Call, m: Move, s': State, owner: Addr, spender: Addr)
    requires MoveOf(c) == Some(m) && Succeeds(s, c, s')
    ensures Allowed(s', owner, spender) + SpendOf(c, owner, spender) == Allowed(s, owner, spender)
  {
    hide Handle, SpendAllowance, Moves, Succeeds;
    MoveEffect(s, c, m, s');
    if ThirdParty(c.msg) {
      var spent := SpendAllowance(s, c.env, m.owner, m.amount).value;
      SpendStep(s, c.env, m.owner, m.amount, spent, owner, spender);
      AllowedIs(s, owner, spender);
      AllowedIs(spent, owner, spender);
    }
  }

  lemma ChangeAllowed(s: State, c: Call, s': State, owner: Addr, spender: Addr)
    requires (c.msg.IncreaseAllowance? || c.msg.DecreaseAllowance?) && Succeeds(s, c, s')
    ensures Allowed(s', owner, spender) + TakenOf(s, c, owner, spender) + LostOf(s, c, owner, spender)
            == Allowed(s, owner, spender) + GrantOf(c, owner, spender)
  {
    hide Handle, Allowed, Expires;
    if c.msg.IncreaseAllowance? {
      IncreaseExactly(s, c.env, c.msg.spender, c.msg.amount, c.msg.expiration);
    } else {
      DecreaseExactly(s, c.env, c.msg.spender, c.msg.amount, c.msg.expiration);
    }
  }

  lemma RestAllowed(s: State, c: Call, s': State)
    requires MoveOf(c) == None && !c.msg.IncreaseAllowance? && !c.msg.DecreaseAllowance? && Succeeds(s, c, s')
    ensures s'.allowances == s.allowances
  {
    hide Handle, TryBurn, TryMint;
    Dispatch(s, c, s');
    if c.msg.Burn? {
      BurnEffect(s, c.env, c.msg.amount, s');
    } else if c.msg.Mint? {
      MintEffect(s, c.env, c.msg.recipient, c.msg.amount, s');
    }
  }

  lemma AllowedStep(s: State, c: Call, s': State, owner: Addr, spender: Addr)
    requires Succeeds(s, c, s')
    ensures Allowed(s', owner, spender) + SpendOf(c, owner, spender) + TakenOf(s, c, owner, spender)
            + LostOf(s, c, owner, spender) == Allowed(s, owner, spender) + GrantOf(c, owner, spender)
  {
    hide Handle, Succeeds;
    match MoveOf(c) {
      case Some(m) => MoveAllowed(s, c, m, s', owner, spender);
      case None =>
        if c.msg.IncreaseAllowance? || c.msg.DecreaseAllowance? {
          ChangeAllowed(s, c, s', owner, spender);
        } else {
          RestAllowed(s, c, s');
        }
    }
  }

  /** The exact account of an allowance over any run: what was spent, what is left, what was really taken
      back and what did not fit 128 bits make up what was granted. */
  lemma {:induction false} AllowanceAccount(s0: State, calls: seq<Call>, s: State, owner: Addr, spender: Addr)
    requires Replay(s0, calls) == Ok(s)
    ensures Spent(calls, owner, spender) + Allowed(s, owner, spender) + TakenBack(s0, calls, owner, spender)
            + Lost(s0, calls, owner, spender) == Granted(calls, owner, spender) + Allowed(s0, owner, spender)
  {
    hide Handle, Allowed, TakenOf, LostOf, GrantOf, SpendOf;
    if calls != [] {
      var s1 := ReplaySplit(s0, calls, s);
      AllowanceAccount(s0, calls[..|calls| - 1], s1, owner, spender);
      AllowedStep(s1, calls[|calls| - 1], s, owner, spender);
    }
  }

  // ---- Administration ----

  /** While the token is stopped, only the message that changes that gets through. */
  lemma StoppedRefuses(s: State, env: Env, msg: Msg)
    requires s.status != NormalRun && !msg.SetContractStatus?
    ensures Handle(s, env, msg) == Err(Stopped)
  {
  }

  predicate Administrative(msg: Msg) {
    msg.ChangeAdmin? || msg.SetContractStatus? || msg.AddMinters? || msg.RemoveMinters? || msg.SetMinters?
  }

  /** Whether an account may mint after an administrative message. */
  predicate KeepsMinting(s: State, msg: Msg, a: Addr) {
    if msg.AddMinters? then a in s.minters || a in msg.minters
    else if msg.RemoveMinters? then a in s.minters && a !in msg.minters
    else if msg.SetMinters? then a in msg.minters
    else a in s.minters
  }

  lemma {:induction false} WithoutMembers(minters: seq<Addr>, gone: seq<Addr>)
    ensures forall a :: a in Without(minters, gone) <==> a in minters && a !in gone
  {
    if minters != [] {
      var front, last := minters[..|minters| - 1], minters[|minters| - 1];
      assert minters == front + [last];
      WithoutMembers(front, gone);
    }
  }

  /** An administrative message succeeds if and only if the admin sends it, and only while the token
      runs unless it sets the status. It hands over the admin's role, sets the status, or changes who
      may mint by exactly the addresses named, and nothing else. */
  lemma AdminExactly(s: State, env: Env, msg: Msg)
    requires Administrative(msg)
    ensures var r := Handle(s, env, msg);
            && (r.Ok? <==> env.sender == s.admin && (s.status == NormalRun || msg.SetContractStatus?))
            && (r.Ok? ==>
                  var s' := r.value.0;
                  && s' == s.(admin := s'.admin, status := s'.status, minters := s'.minters)
                  && s'.admin == (if msg.ChangeAdmin? then msg.address else s.admin)
                  && s'.status == (if msg.SetContractStatus? then msg.level else s.status)
                  && (forall a :: a in s'.minters <==> KeepsMinting(s, msg, a)))
  {
    if msg.RemoveMinters? {
      WithoutMembers(s.minters, msg.minters);
    }
    hide Without;
  }

  /** Registering is open to everybody and concerns only the sender. */
  lemma RegisterExactly(s: State, env: Env, codeHash: nat)
    ensures var r := Handle(s, env, RegisterReceive(codeHash));
            if s.status == NormalRun then
              && r.Ok? && r.value.0 == s.(receivers := r.value.0.receivers)
              && env.sender in r.value.0.receivers && r.value.0.receivers[env.sender] == codeHash
              && (forall a :: a != env.sender ==>
                    (a in r.value.0.receivers <==> a in s.receivers)
                    && (a in s.receivers ==> r.value.0.receivers[a] == s.receivers[a]))
            else r == Err(Stopped)
  {
  }

  // ---- Instantiation ----

  function Listing(entries: seq<InitialBalance>): nat {
    if entries == [] then 0 else entries[0].amount + Listing(entries[1..])
  }

  lemma {:induction false} ListingSnoc(entries: seq<InitialBalance>, e: InitialBalance)
    ensures Listing(entries + [e]) == Listing(entries) + e.amount
  {
    if entries == [] {
      assert ([] + [e])[1..] == [];
    } else {
      assert (entries + [e])[1..] == entries[1..] + [e];
      ListingSnoc(entries[1..], e);
    }
  }

  lemma {:induction false} CreditExactly(entries: seq<InitialBalance>)
    ensures Credit(entries).Ok? <==> (forall e <- entries :: e.address.Account?) && Listing(entries) < U128
    ensures Credit(entries).Ok? ==> Credit(entries).value.1 == Listing(entries)
  {
    if entries != [] {
      var front, last := entries[..|entries| - 1], entries[|entries| - 1];
      assert entries == front + [last];
      CreditExactly(front);
      ListingSnoc(front, last);
    }
  }

  /** A token comes to life if and only if all addresses are well formed and the listed amounts fit 128
      bits together. Its admin is then its only minter, everything runs, and nothing is recorded,
      allowed or registered. */
  lemma InitExactly(entries: seq<InitialBalance>, admin: Addr)
    ensures var r := Init(entries, admin);
            && (r.Ok? <==> (forall e <- entries :: e.address.Account?) && Listing(entries) < U128)
            && (r.Ok? ==>
                  var s := r.value;
                  && s.supply == Listing(entries)
                  && (forall a :: At(s.balances, a) == Latest(entries, a))
                  && s == State(s.balances, s.supply, map[], map[], 0, map[], [admin], admin, NormalRun))
  {
    CreditExactly(entries);
    if Credit(entries).Ok? {
      CreditIsLatest(entries);
    }
  }
}
