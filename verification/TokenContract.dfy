/** The bridge token as the source writes it: a contract whose handlers read stored values, check
    them and write them back in order. A handler that fails may already have written; `Transact`
    is the host's side of the bargain and puts everything back. Every method is proved equal to
    the pure function of module BridgeToken. */
module TokenContract {
  import opened Prelude
  import opened BridgeToken

  class Contract {
    var balances: map<Addr, u128>
    var supply: u128
    var allowances: map<(Addr, Addr), Allowance>
    var history: map<Addr, seq<Tx>>
    var txCount: u64
    var receivers: map<Addr, nat>
    var minters: seq<Addr>
    var admin: Addr
    var status: Status

    /** The contract's storage as a value. */
    function Abs(): State
      reads this
    {
      State(balances, supply, allowances, history, txCount, receivers, minters, admin, status)
    }

    method Init(entries: seq<InitialBalance>, admin: Addr) returns (r: Result<(), Error>)
      modifies this
      ensures r.Ok? ==> BridgeToken.Init(entries, admin) == Ok(Abs())
      ensures r.Err? ==> BridgeToken.Init(entries, admin) == Err(r.error)
    {
      var total: u128 := 0;
      balances := map[];
      for i := 0 to |entries|
        invariant Credit(entries[..i]) == Ok((balances, total))
      {
        ghost var more := entries[..i + 1];
        assert more[..i] == entries[..i];
        var entry := entries[i];
        if entry.address.Malformed? {
          CreditFails(entries, i + 1);
          return Err(BadAddress);
        }
        balances := balances[entry.address := entry.amount];
        if total + entry.amount >= U128 {
          CreditFails(entries, i + 1);
          return Err(SupplyOverflow);
        }
        total := total + entry.amount;
      }
      assert entries[..|entries|] == entries;
      this.admin, minters, supply, status := admin, [admin], total, NormalRun;
      allowances, history, txCount, receivers := map[], map[], 0, map[];
      return Ok(());
    }

    method StoreTransfer(owner: Addr, sender: Addr, receiver: Addr, amount: u128) returns (r: Result<(), Error>)
      modifies this`txCount, this`history
      ensures r.Ok? ==> BridgeToken.StoreTransfer(old(Abs()), owner, sender, receiver, amount) == Ok(Abs())
      ensures r.Err? ==> BridgeToken.StoreTransfer(old(Abs()), owner, sender, receiver, amount) == Err(r.error)
    {
      hide BridgeToken.AppendTx;
      if txCount + 1 >= U64 { return Err(Panic); }
      var id := txCount + 1;
      txCount := id;
      var tx := Tx(id, owner, sender, receiver, amount);
      if owner != sender {
        r := AppendTx(tx, owner);
        if r.Err? { return; }
      }
      r := AppendTx(tx, sender);
      if r.Err? { return; }
      r := AppendTx(tx, receiver);
    }

    method AppendTx(tx: Tx, a: Addr) returns (r: Result<(), Error>)
      modifies this`history
      ensures r.Ok? ==> BridgeToken.AppendTx(old(Abs()), tx, a) == Ok(Abs())
      ensures r.Err? ==> BridgeToken.AppendTx(old(Abs()), tx, a) == Err(r.error)
    {
      var stored := if a in history then history[a] else [];
      if |stored| + 1 >= U32 { return Err(Panic); }
      history := history[a := stored + [tx]];
      return Ok(());
    }

    method PerformTransfer(from: Addr, to: Addr, amount: u128) returns (r: Result<(), Error>)
      modifies this`balances
      ensures r.Ok? ==> BridgeToken.PerformTransfer(old(Abs()), from, to, amount) == Ok(Abs())
      ensures r.Err? ==> BridgeToken.PerformTransfer(old(Abs()), from, to, amount) == Err(r.error)
    {
      var fromBalance := Balance(Abs(), from);
      if fromBalance < amount { return Err(InsufficientFunds); }
      balances := balances[from := fromBalance - amount];
      var toBalance := Balance(Abs(), to);
      if toBalance + amount >= U128 { return Err(RecipientTooRich); }
      balances := balances[to := toBalance + amount];
      return Ok(());
    }

    method TransferImpl(env: Env, recipient: Addr, amount: u128) returns (r: Result<(), Error>)
      modifies this`balances, this`txCount, this`history
      ensures r.Ok? ==> BridgeToken.TransferImpl(old(Abs()), env, recipient, amount) == Ok(Abs())
      ensures r.Err? ==> BridgeToken.TransferImpl(old(Abs()), env, recipient, amount) == Err(r.error)
    {
      if env.sender.Malformed? || recipient.Malformed? { return Err(BadAddress); }
      r := PerformTransfer(env.sender, recipient, amount);
      if r.Err? { return; }
      r := StoreTransfer(env.sender, env.sender, recipient, amount);
    }

    /** On an expired allowance the zero is written and then the call fails: the write survives
        here, and only the host undoes it. */
    method SpendAllowance(env: Env, owner: Addr, amount: u128) returns (r: Result<(), Error>)
      modifies this`allowances
      ensures r.Ok? ==> BridgeToken.SpendAllowance(old(Abs()), env, owner, amount) == Ok(Abs())
      ensures r.Err? ==> BridgeToken.SpendAllowance(old(Abs()), env, owner, amount) == Err(r.error)
      ensures Expired(AllowanceOf(old(Abs()), owner, env.sender), env.time) ==>
                r.Err? && AllowanceOf(Abs(), owner, env.sender).amount == 0
    {
      var allowance := AllowanceOf(Abs(), owner, env.sender);
      if Expired(allowance, env.time) {
        allowances := allowances[(owner, env.sender) := allowance.(amount := 0)];
        return Err(InsufficientAllowance(0));
      }
      if allowance.amount < amount { return Err(InsufficientAllowance(allowance.amount)); }
      allowances := allowances[(owner, env.sender) := allowance.(amount := allowance.amount - amount)];
      return Ok(());
    }

    method TransferFromImpl(env: Env, owner: Addr, recipient: Addr, amount: u128) returns (r: Result<(), Error>)
      modifies this`balances, this`txCount, this`history, this`allowances
      ensures r.Ok? ==> BridgeToken.TransferFromImpl(old(Abs()), env, owner, recipient, amount) == Ok(Abs())
      ensures r.Err? ==> BridgeToken.TransferFromImpl(old(Abs()), env, owner, recipient, amount) == Err(r.error)
    {
      if env.sender.Malformed? || owner.Malformed? || recipient.Malformed? { return Err(BadAddress); }
      r := SpendAllowance(env, owner, amount);
      if r.Err? { return; }
      r := PerformTransfer(owner, recipient, amount);
      if r.Err? { return; }
      r := StoreTransfer(owner, env.sender, recipient, amount);
    }

    method TryBurn(env: Env, amount: u128) returns (r: Result<(), Error>)
      modifies this`balances, this`supply
      ensures r.Ok? ==> BridgeToken.TryBurn(old(Abs()), env, amount) == Ok(Abs())
      ensures r.Err? ==> BridgeToken.TryBurn(old(Abs()), env, amount) == Err(r.error)
    {
      if env.sender.Malformed? { return Err(BadAddress); }
      var accountBalance := Balance(Abs(), env.sender);
      if accountBalance < amount { return Err(InsufficientBurn); }
      balances := balances[env.sender := accountBalance - amount];
      if supply < amount { return Err(BurnAboveSupply); }
      supply := supply - amount;
      return Ok(());
    }

    method TryMint(env: Env, recipient: Addr, amount: u128) returns (r: Result<(), Error>)
      modifies this`balances, this`supply
      ensures r.Ok? ==> BridgeToken.TryMint(old(Abs()), env, recipient, amount) == Ok(Abs())
      ensures r.Err? ==> BridgeToken.TryMint(old(Abs()), env, recipient, amount) == Err(r.error)
    {
      if env.sender !in minters { return Err(NotMinter); }
      if supply + amount >= U128 { return Err(SupplyOverflow); }
      supply := supply + amount;
      if recipient.Malformed? { return Err(BadAddress); }
      var accountBalance := Balance(Abs(), recipient);
      if accountBalance + amount >= U128 { return Err(MintAccountOverflow); }
      balances := balances[recipient := accountBalance + amount];
      return Ok(());
    }

    method ChangeAllowance(env: Env, spender: Addr, amount: u128, expiration: Option<u64>, increase: bool)
      returns (r: Result<(), Error>)
      modifies this`allowances
      ensures var spec := if increase then TryIncreaseAllowance(old(Abs()), env, spender, amount, expiration)
                          else TryDecreaseAllowance(old(Abs()), env, spender, amount, expiration);
              if r.Ok? then spec == Ok(Abs()) else spec == Err(r.error) && Abs() == old(Abs())
    {
      if env.sender.Malformed? || spender.Malformed? { return Err(BadAddress); }
      var allowance := AllowanceOf(Abs(), env.sender, spender);
      allowance := allowance.(amount := if increase then SaturatingAdd(allowance.amount, amount)
                                        else SaturatingSub(allowance.amount, amount));
      if expiration.Some? {
        allowance := allowance.(expiration := expiration);
      }
      allowances := allowances[(env.sender, spender) := allowance];
      return Ok(());
    }

    /** `retain` for each address in turn leaves exactly the minters named by none of them. */
    method DropMinters(gone: seq<Addr>)
      modifies this`minters
      ensures minters == Without(old(minters), gone)
    {
      hide Without;
      WithoutNone(minters);
      assert gone[..0] == [];
      for i := 0 to |gone|
        invariant minters == Without(old(minters), gone[..i])
      {
        WithoutTwice(old(minters), gone[..i], [gone[i]]);
        assert gone[..i] + [gone[i]] == gone[..i + 1];
        minters := Without(minters, [gone[i]]);
      }
      assert gone[..|gone|] == gone;
    }

    method Handle(env: Env, msg: Msg) returns (r: Result<Option<Callback>, Error>)
      modifies this
      ensures r.Ok? ==> BridgeToken.Handle(old(Abs()), env, msg) == Ok((Abs(), r.value))
      ensures r.Err? ==> BridgeToken.Handle(old(Abs()), env, msg) == Err(r.error)
    {
      hide BridgeToken.TransferImpl, BridgeToken.TransferFromImpl, BridgeToken.TryBurn, BridgeToken.TryMint,
           TryIncreaseAllowance, TryDecreaseAllowance, Without, Emits;
      if status != NormalRun && !msg.SetContractStatus? { return Err(Stopped); }
      var done: Result<(), Error> := Ok(());
      match msg {
        case Transfer(to, n) => done := TransferImpl(env, to, n);
        case Send(to, n, _) => done := TransferImpl(env, to, n);
        case RegisterReceive(h) => receivers := receivers[env.sender := h];
        case IncreaseAllowance(sp, n, ex) => done := ChangeAllowance(env, sp, n, ex, true);
        case DecreaseAllowance(sp, n, ex) => done := ChangeAllowance(env, sp, n, ex, false);
        case TransferFrom(o, to, n) => done := TransferFromImpl(env, o, to, n);
        case SendFrom(o, to, n, _) => done := TransferFromImpl(env, o, to, n);
        case Burn(n) => done := TryBurn(env, n);
        case Mint(n, to) => done := TryMint(env, to, n);
        case ChangeAdmin(a) => if env.sender == admin { admin := a; } else { done := Err(NotAdmin); }
        case SetContractStatus(level) => if env.sender == admin { status := level; } else { done := Err(NotAdmin); }
        case AddMinters(ms) => if env.sender == admin { minters := minters + ms; } else { done := Err(NotAdmin); }
        case RemoveMinters(ms) => if env.sender == admin { DropMinters(ms); } else { done := Err(NotAdmin); }
        case SetMinters(ms) => if env.sender == admin { minters := ms; } else { done := Err(NotAdmin); }
      }
      if done.Err? { return Err(done.error); }
      return Ok(Emits(Abs(), env, msg));
    }

    /** A message under the host: every write of a failed handler is undone. */
    method Transact(env: Env, msg: Msg) returns (r: Result<Option<Callback>, Error>)
      modifies this
      ensures match BridgeToken.Handle(old(Abs()), env, msg)
              case Ok((s, out)) => r == Ok(out) && Abs() == s
              case Err(e) => r == Err(e) && Abs() == old(Abs())
    {
      hide BridgeToken.Handle;
      var saved := Abs();
      r := Handle(env, msg);
      if r.Err? {
        var State(b, su, al, h, n, rs, ms, ad, st) := saved;
        balances, supply, allowances, history, txCount := b, su, al, h, n;
        receivers, minters, admin, status := rs, ms, ad, st;
      }
    }
  }

  lemma {:induction false} CreditFails(entries: seq<InitialBalance>, i: nat)
    requires i <= |entries| && Credit(entries[..i]).Err?
    ensures Credit(entries) == Err(Credit(entries[..i]).error)
  {
    if i == |entries| {
      assert entries[..i] == entries;
    } else {
      var front := entries[..|entries| - 1];
      assert front[..i] == entries[..i];
      CreditFails(front, i);
    }
  }

  lemma {:induction false} WithoutNone(minters: seq<Addr>)
    ensures Without(minters, []) == minters
  {
    if minters != [] {
      WithoutNone(minters[..|minters| - 1]);
    }
  }

  lemma {:induction false} WithoutTwice(minters: seq<Addr>, a: seq<Addr>, b: seq<Addr>)
    ensures Without(Without(minters, a), b) == Without(minters, a + b)
  {
    if minters != [] {
      var front, last := minters[..|minters| - 1], minters[|minters| - 1];
      WithoutTwice(front, a, b);
      assert last in a + b <==> last in a || last in b;
      var kept := Without(minters, a);
      if last in a {
        assert kept == Without(front, a);
      } else {
        assert kept == Without(front, a) + [last];
        assert kept[..|kept| - 1] == Without(front, a);
      }
    }
  }

  /** The spec function of `RemoveMinters` is the filter it should be: what remains is what was not
      named, with nothing reordered or lost. */
  lemma {:induction false} WithoutIsFilter(minters: seq<Addr>, gone: seq<Addr>)
    ensures forall a :: multiset(Without(minters, gone))[a] == if a in gone then 0 else multiset(minters)[a]
  {
    if minters != [] {
      var front, last := minters[..|minters| - 1], minters[|minters| - 1];
      assert minters == front + [last];
      WithoutIsFilter(front, gone);
    }
  }
}
