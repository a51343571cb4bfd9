/** Whole runs of one bridge token: conservation of supply, the history as an index of the
    transfer log, balances against the log, and the allowance bound. */
module TokenRuns {
  import opened Prelude
  import opened BridgeToken

  datatype Call = Call(env: Env, msg: Msg)

  /** The state after calls that all succeed, or the first error. */
  function Replay(s: State, calls: seq<Call>): Result<State, Error> {
    if calls == [] then Ok(s) else
      var s1 :- Replay(s, calls[..|calls| - 1]);
      var (s2, _) :- Handle(s1, calls[|calls| - 1].env, calls[|calls| - 1].msg);
      Ok(s2)
  }

  /** The state after arbitrary calls under the host, which undoes the failing ones. */
  function Run(s: State, calls: seq<Call>): State {
    if calls == [] then s else
      var s1 := Run(s, calls[..|calls| - 1]);
      match Handle(s1, calls[|calls| - 1].env, calls[|calls| - 1].msg)
      case Ok((s2, _)) => s2
      case Err(_) => s1
  }

  /** The calls of a run that succeeded, in order. */
  function Committed(s: State, calls: seq<Call>): seq<Call> {
    if calls == [] then [] else
      var front, last := calls[..|calls| - 1], calls[|calls| - 1];
      Committed(s, front) + if Handle(Run(s, front), last.env, last.msg).Ok? then [last] else []
  }

  /** A run leaves what its successful calls alone would leave: failures have no trace. */
  lemma {:induction false} RunIsReplay(s: State, calls: seq<Call>)
    ensures Replay(s, Committed(s, calls)) == Ok(Run(s, calls))
  {
    if calls != [] {
      var front, last := calls[..|calls| - 1], calls[|calls| - 1];
      RunIsReplay(s, front);
      var c := Committed(s, front);
      assert (c + [last])[..|c|] == c;
      assert c + [] == c;
    }
  }

  lemma {:induction false} ReplayAppend(s: State, a: seq<Call>, b: seq<Call>)
    requires Replay(s, a).Ok?
    ensures Replay(s, a + b) == Replay(Replay(s, a).value, b)
  {
    hide Handle;
    if b == [] {
      assert a + b == a;
    } else {
      ReplayAppend(s, a, b[..|b| - 1]);
      assert (a + b)[..|a + b| - 1] == a + b[..|b| - 1];
    }
  }

  /** One more successful call at the end of a replay. */
  lemma ReplaySplit(s0: State, calls: seq<Call>, s: State) returns (s1: State)
    requires calls != [] && Replay(s0, calls) == Ok(s)
    ensures Replay(s0, calls[..|calls| - 1]) == Ok(s1)
    ensures Succeeds(s1, calls[|calls| - 1], s)
  {
    s1 := Replay(s0, calls[..|calls| - 1]).value;
  }

  // ---- What a call moves ----

  /** A transfer, before it is numbered. */
  datatype Move = Move(owner: Addr, sender: Addr, receiver: Addr, amount: u128)

  function MoveOf(c: Call): Option<Move> {
    match c.msg
    case Transfer(r, n) => Some(Move(c.env.sender, c.env.sender, r, n))
    case Send(r, n, _) => Some(Move(c.env.sender, c.env.sender, r, n))
    case TransferFrom(o, r, n) => Some(Move(o, c.env.sender, r, n))
    case SendFrom(o, r, n, _) => Some(Move(o, c.env.sender, r, n))
    case _ => None
  }

  /** The transfer log of a list of successful calls. */
  function Log(calls: seq<Call>): seq<Move> {
    if calls == [] then [] else
      Log(calls[..|calls| - 1]) +
      match MoveOf(calls[|calls| - 1]) case Some(m) => [m] case None => []
  }

  function MintOf(c: Call, a: Addr): nat {
    if c.msg.Mint? && c.msg.recipient == a then c.msg.amount else 0
  }

  function BurnOf(c: Call, a: Addr): nat {
    if c.msg.Burn? && c.env.sender == a then c.msg.amount else 0
  }

  function MintAmount(c: Call): nat {
    if c.msg.Mint? then c.msg.amount else 0
  }

  function BurnAmount(c: Call): nat {
    if c.msg.Burn? then c.msg.amount else 0
  }

  function Minted(calls: seq<Call>, a: Addr): nat {
    if calls == [] then 0 else Minted(calls[..|calls| - 1], a) + MintOf(calls[|calls| - 1], a)
  }

  function Burned(calls: seq<Call>, a: Addr): nat {
    if calls == [] then 0 else Burned(calls[..|calls| - 1], a) + BurnOf(calls[|calls| - 1], a)
  }

  function Received(log: seq<Move>, a: Addr): nat {
    if log == [] then 0 else
      Received(log[..|log| - 1], a) + if log[|log| - 1].receiver == a then log[|log| - 1].amount else 0
  }

  function Sent(log: seq<Move>, a: Addr): nat {
    if log == [] then 0 else
      Sent(log[..|log| - 1], a) + if log[|log| - 1].owner == a then log[|log| - 1].amount else 0
  }

  // ---- Effects of one successful call ----

  /** What a successful call of each kind did, by its handler. */
  lemma Dispatch(s: State, c: Call, s': State)
    requires Succeeds(s, c, s')
    ensures match c.msg
            case Transfer(r, n) => TransferImpl(s, c.env, r, n) == Ok(s')
            case Send(r, n, _) => TransferImpl(s, c.env, r, n) == Ok(s')
            case TransferFrom(o, r, n) => TransferFromImpl(s, c.env, o, r, n) == Ok(s')
            case SendFrom(o, r, n, _) => TransferFromImpl(s, c.env, o, r, n) == Ok(s')
            case Burn(n) => TryBurn(s, c.env, n) == Ok(s')
            case Mint(n, r) => TryMint(s, c.env, r, n) == Ok(s')
            case IncreaseAllowance(sp, n, ex) => TryIncreaseAllowance(s, c.env, sp, n, ex) == Ok(s')
            case DecreaseAllowance(sp, n, ex) => TryDecreaseAllowance(s, c.env, sp, n, ex) == Ok(s')
            case _ => s' == s.(receivers := s'.receivers, minters := s'.minters, admin := s'.admin, status := s'.status)
  {
    hide TransferImpl, TransferFromImpl, TryBurn, TryMint, TryIncreaseAllowance, TryDecreaseAllowance, Without,
         Emits;
  }

  predicate Succeeds(s: State, c: Call, s': State) {
    Handle(s, c.env, c.msg).Ok? && Handle(s, c.env, c.msg).value.0 == s'
  }

  function Moved(b: map<Addr, nat>, from: Addr, to: Addr, amount: nat): map<Addr, nat>
    requires amount <= At(b, from)
  {
    var b1 := b[from := At(b, from) - amount];
    b1[to := At(b1, to) + amount]
  }

  lemma MovedKeepsSum(b: map<Addr, nat>, from: Addr, to: Addr, amount: nat)
    requires amount <= At(b, from)
    ensures Sum(Moved(b, from, to, amount)) == Sum(b)
  {
    hide Sum, At;
    var b1 := b[from := At(b, from) - amount];
    SumUpdate(b, from, At(b, from) - amount);
    SumUpdate(b1, to, At(b1, to) + amount);
  }

  lemma MovedAt(b: map<Addr, nat>, from: Addr, to: Addr, amount: nat, a: Addr)
    requires amount <= At(b, from)
    ensures At(Moved(b, from, to, amount), a) ==
            At(b, a) - (if a == from then amount else 0) + (if a == to then amount else 0)
  {
  }

  lemma TransferMoves(s: State, from: Addr, to: Addr, amount: u128, s': State)
    requires PerformTransfer(s, from, to, amount) == Ok(s')
    ensures amount <= At(s.balances, from)
    ensures s' == s.(balances := s'.balances)
    ensures s'.balances == Moved(s.balances, from, to, amount)
  {
  }

  /** How often a transfer enters the list of account `a`: once as the owner if a third party sent
      it, once as the sender and once as the receiver. */
  function Mentions(m: Move, a: Addr): nat {
    (if m.owner != m.sender && a == m.owner then 1 else 0) +
    (if a == m.sender then 1 else 0) + (if a == m.receiver then 1 else 0)
  }

  function Numbered(id: u64, m: Move): Tx {
    Tx(id, m.owner, m.sender, m.receiver, m.amount)
  }

  function Listed(history: map<Addr, seq<Tx>>, a: Addr): seq<Tx> {
    if a in history then history[a] else []
  }

  function Copies(tx: Tx, m: Move, a: Addr): seq<Tx> {
    seq(Mentions(m, a), _ => tx)
  }

  function Appended(h: map<Addr, seq<Tx>>, tx: Tx, a: Addr): map<Addr, seq<Tx>> {
    h[a := Listed(h, a) + [tx]]
  }

  function Recorded(h: map<Addr, seq<Tx>>, tx: Tx, m: Move): map<Addr, seq<Tx>> {
    var h1 := if m.owner != m.sender then Appended(h, tx, m.owner) else h;
    Appended(Appended(h1, tx, m.sender), tx, m.receiver)
  }

  lemma AppendedAt(h: map<Addr, seq<Tx>>, tx: Tx, b: Addr, a: Addr)
    ensures Listed(Appended(h, tx, b), a) == Listed(h, a) + Once(b == a, tx)
  {
  }

  function Once(mentioned: bool, tx: Tx): seq<Tx> {
    if mentioned then [tx] else []
  }

  lemma RecordedAt(h: map<Addr, seq<Tx>>, tx: Tx, m: Move, a: Addr)
    ensures Listed(Recorded(h, tx, m), a) == Listed(h, a) + Copies(tx, m, a)
  {
    hide Appended, Listed;
    var h1 := if m.owner != m.sender then Appended(h, tx, m.owner) else h;
    AppendedAt(h, tx, m.owner, a);
    AppendedAt(h1, tx, m.sender, a);
    AppendedAt(Appended(h1, tx, m.sender), tx, m.receiver, a);
    var own, sent, got := Once(m.owner != m.sender && a == m.owner, tx), Once(a == m.sender, tx),
        Once(a == m.receiver, tx);
    assert Copies(tx, m, a) == own + sent + got;
    assert Listed(h, a) + own + sent + got == Listed(h, a) + (own + sent + got);
  }

  lemma AppendRecords(s: State, tx: Tx, a: Addr, s': State)
    requires AppendTx(s, tx, a) == Ok(s')
    ensures s' == s.(history := Appended(s.history, tx, a))
  {
  }

  lemma StoreRecords(s: State, m: Move, s': State)
    requires StoreTransfer(s, m.owner, m.sender, m.receiver, m.amount) == Ok(s')
    ensures s.txCount + 1 < U64
    ensures s' == s.(txCount := s.txCount + 1, history := Recorded(s.history, Numbered(s.txCount + 1, m), m))
  {
    hide AppendTx;
    var tx := Numbered(s.txCount + 1, m);
    var s0 := s.(txCount := s.txCount + 1);
    var s1 := if m.owner != m.sender then AppendTx(s0, tx, m.owner).value else s0;
    var s2 := AppendTx(s1, tx, m.sender).value;
    if m.owner != m.sender {
      AppendRecords(s0, tx, m.owner, s1);
    }
    AppendRecords(s1, tx, m.sender, s2);
    AppendRecords(s2, tx, m.receiver, s');
  }

  /** From `s` to `s'` exactly the transfer `m` happened to balances and histories, and of the rest
      only allowances may differ. */
  predicate Moves(s: State, m: Move, s': State) {
    && m.amount <= At(s.balances, m.owner)
    && s.txCount + 1 < U64
    && s'.balances == Moved(s.balances, m.owner, m.receiver, m.amount)
    && s' == s.(
         balances := s'.balances,
         txCount := s.txCount + 1,
         history := Recorded(s.history, Numbered(s.txCount + 1, m), m),
         allowances := s'.allowances)
  }

  /** A successful call that moves tokens. */
  lemma MoveEffect(s: State, c: Call, m: Move, s': State)
    requires MoveOf(c) == Some(m)
    requires Succeeds(s, c, s')
    ensures Moves(s, m, s')
    ensures c.msg.Transfer? || c.msg.Send? ==> s'.allowances == s.allowances
    ensures c.msg.TransferFrom? || c.msg.SendFrom? ==>
              var r := SpendAllowance(s, c.env, m.owner, m.amount); r.Ok? && s'.allowances == r.value.allowances
  {
    hide SpendAllowance, PerformTransfer, StoreTransfer, Moved, Recorded;
    Dispatch(s, c, s') by { hide TransferImpl, TransferFromImpl; }
    var s0 := if c.msg.Transfer? || c.msg.Send? then s else SpendAllowance(s, c.env, m.owner, m.amount).value;
    if s0 != s {
      SpendFrame(s, c.env, m.owner, m.amount, s0);
    }
    var s1 := PerformTransfer(s0, m.owner, m.receiver, m.amount).value;
    TransferMoves(s0, m.owner, m.receiver, m.amount, s1);
    StoreRecords(s1, m, s');
  }

  lemma SpendFrame(s: State, env: Env, owner: Addr, amount: u128, s': State)
    requires SpendAllowance(s, env, owner, amount) == Ok(s')
    ensures s' == s.(allowances := s'.allowances)
  {
  }

  /** A successful call that moves nothing between accounts. */
  lemma OtherEffect(s: State, c: Call, s': State)
    requires MoveOf(c) == None
    requires Succeeds(s, c, s')
    ensures s'.history == s.history && s'.txCount == s.txCount
    ensures forall a :: At(s'.balances, a) == At(s.balances, a) + MintOf(c, a) - BurnOf(c, a)
    ensures Sum(s'.balances) == Sum(s.balances) + MintAmount(c) - BurnAmount(c)
    ensures s'.supply == s.supply + MintAmount(c) - BurnAmount(c)
  {
    hide Sum, Handle, Change;
    Dispatch(s, c, s');
    if c.msg.Burn? {
      BurnEffect(s, c.env, c.msg.amount, s');
    } else if c.msg.Mint? {
      MintEffect(s, c.env, c.msg.recipient, c.msg.amount, s');
    } else {
      assert s'.balances == s.balances;
    }
  }

  lemma BurnEffect(s: State, env: Env, amount: u128, s': State)
    requires TryBurn(s, env, amount) == Ok(s')
    ensures s' == s.(balances := s'.balances, supply := s.supply - amount)
    ensures forall a :: At(s'.balances, a) == At(s.balances, a) - if a == env.sender then amount else 0
    ensures Sum(s'.balances) == Sum(s.balances) - amount
  {
    hide Sum;
    SumUpdate(s.balances, env.sender, At(s.balances, env.sender) - amount);
  }

  lemma MintEffect(s: State, env: Env, recipient: Addr, amount: u128, s': State)
    requires TryMint(s, env, recipient, amount) == Ok(s')
    ensures s' == s.(balances := s'.balances, supply := s.supply + amount)
    ensures forall a :: At(s'.balances, a) == At(s.balances, a) + if a == recipient then amount else 0
    ensures Sum(s'.balances) == Sum(s.balances) + amount
  {
    hide Sum;
    SumUpdate(s.balances, recipient, At(s.balances, recipient) + amount);
  }

  // ---- Conservation ----

  /** Supply minus the sum of all balances never changes. */
  lemma {:induction false} SupplyConserved(s0: State, calls: seq<Call>, s: State)
    requires Replay(s0, calls) == Ok(s)
    ensures s.supply - Sum(s.balances) == s0.supply - Sum(s0.balances)
  {
    hide Sum, Handle;
    if calls != [] {
      var c := calls[|calls| - 1];
      var s1 := ReplaySplit(s0, calls, s);
      SupplyConserved(s0, calls[..|calls| - 1], s1);
      match MoveOf(c) {
        case Some(m) =>
          MoveEffect(s1, c, m, s);
          MovedKeepsSum(s1.balances, m.owner, m.receiver, m.amount);
        case None => OtherEffect(s1, c, s);
      }
    }
  }

  function Names(entries: seq<InitialBalance>, a: Addr): bool {
    exists e <- entries :: e.address == a
  }

  /** What `init` counts in the supply and then overwrites: every entry with a later entry for
      the same address. */
  function Overwritten(entries: seq<InitialBalance>): nat {
    if entries == [] then 0 else
      (if Names(entries[1..], entries[0].address) then entries[0].amount else 0) + Overwritten(entries[1..])
  }

  function Latest(entries: seq<InitialBalance>, a: Addr): nat {
    if entries == [] then 0
    else if Names(entries[1..], a) then Latest(entries[1..], a)
    else if entries[0].address == a then entries[0].amount
    else 0
  }

  lemma {:induction false} OverwrittenSnoc(entries: seq<InitialBalance>, e: InitialBalance)
    ensures Overwritten(entries + [e]) == Overwritten(entries) + Latest(entries, e.address)
    ensures forall a :: Latest(entries + [e], a) == if a == e.address then e.amount else Latest(entries, a)
    ensures forall a :: !Names(entries, a) ==> Latest(entries, a) == 0
  {
    var more := entries + [e];
    if entries != [] {
      assert more[1..] == entries[1..] + [e];
      OverwrittenSnoc(entries[1..], e);
      forall a
        ensures Names(more[1..], a) <==> Names(entries[1..], a) || a == e.address
      {
        assert e in more[1..];
      }
      if !Names(entries, e.address) {
        assert entries[0] in entries;
      }
    }
  }

  lemma {:induction false} CreditIsLatest(entries: seq<InitialBalance>)
    requires Credit(entries).Ok?
    ensures var (balances, total) := Credit(entries).value;
            && (forall a :: At(balances, a) == Latest(entries, a))
            && total - Sum(balances) == Overwritten(entries)
  {
    if entries != [] {
      var front, e := entries[..|entries| - 1], entries[|entries| - 1];
      CreditIsLatest(front);
      assert entries == front + [e];
      OverwrittenSnoc(front, e);
      var (balances, total) := Credit(front).value;
      SumUpdate(balances, e.address, e.amount);
    }
  }

  /** No entry that carries an amount is followed by another for its address. */
  ghost predicate NothingOverwritten(entries: seq<InitialBalance>) {
    forall i, j :: 0 <= i < j < |entries| && entries[i].address == entries[j].address ==> entries[i].amount == 0
  }

  lemma {:induction false} OverwrittenZero(entries: seq<InitialBalance>)
    ensures Overwritten(entries) == 0 <==> NothingOverwritten(entries)
  {
    if entries != [] {
      var rest := entries[1..];
      OverwrittenZero(rest);
      if NothingOverwritten(entries) {
        forall i, j | 0 <= i < j < |rest| && rest[i].address == rest[j].address ensures rest[i].amount == 0 {
          assert entries[i + 1] == rest[i] && entries[j + 1] == rest[j];
        }
        if Names(rest, entries[0].address) {
          var j :| 0 <= j < |rest| && rest[j].address == entries[0].address;
          assert entries[j + 1] == rest[j];
        }
      } else {
        var i, j :| 0 <= i < j < |entries| && entries[i].address == entries[j].address && entries[i].amount != 0;
        if i == 0 {
          assert rest[j - 1] == entries[j];
        } else {
          assert rest[i - 1] == entries[i] && rest[j - 1] == entries[j];
        }
      }
    }
  }

  /** The gap between supply and balances of a fresh token is what its initial list overwrites;
      supply equals the sum exactly when no paying entry is repeated. */
  lemma InitGap(entries: seq<InitialBalance>, admin: Addr, s: State)
    requires Init(entries, admin) == Ok(s)
    ensures s.supply - Sum(s.balances) == Overwritten(entries)
    ensures s.supply == Sum(s.balances) <==> NothingOverwritten(entries)
  {
    CreditIsLatest(entries);
    OverwrittenZero(entries);
  }

  /** In every reachable state the supply covers all balances and stays in 128 bits. */
  lemma ReachableBacked(entries: seq<InitialBalance>, admin: Addr, s0: State, calls: seq<Call>)
    requires Init(entries, admin) == Ok(s0)
    ensures var s := Run(s0, calls); Sum(s.balances) + Overwritten(entries) == s.supply < U128
  {
    InitGap(entries, admin, s0);
    RunIsReplay(s0, calls);
    SupplyConserved(s0, Committed(s0, calls), Run(s0, calls));
  }

  predicate OverflowError(e: Error) {
    e.RecipientTooRich? || e.MintAccountOverflow? || e.BurnAboveSupply?
  }

  lemma TransferCannotOverflow(s: State, from: Addr, to: Addr, amount: u128)
    requires Sum(s.balances) <= s.supply
    ensures PerformTransfer(s, from, to, amount) != Err(RecipientTooRich)
  {
    SumAtLeast(s.balances, from);
    if from != to {
      SumAtLeastTwo(s.balances, from, to);
    }
  }

  lemma SpendKeepsMoney(s: State, env: Env, owner: Addr, amount: u128)
    ensures var r := SpendAllowance(s, env, owner, amount);
            if r.Ok? then r.value == s.(allowances := r.value.allowances) else r.error.InsufficientAllowance?
  {
  }

  lemma StoreCannotOverflow(s: State, owner: Addr, sender: Addr, receiver: Addr, amount: u128)
    ensures var r := StoreTransfer(s, owner, sender, receiver, amount); r.Err? ==> r.error == Panic
  {
  }

  lemma TransferImplSafe(s: State, env: Env, to: Addr, amount: u128)
    requires Sum(s.balances) <= s.supply
    ensures var r := TransferImpl(s, env, to, amount); r.Err? ==> !OverflowError(r.error)
  {
    hide Sum;
    TransferCannotOverflow(s, env.sender, to, amount);
    var r := PerformTransfer(s, env.sender, to, amount);
    if r.Ok? {
      StoreCannotOverflow(r.value, env.sender, env.sender, to, amount);
    }
  }

  lemma TransferFromImplSafe(s: State, env: Env, owner: Addr, to: Addr, amount: u128)
    requires Sum(s.balances) <= s.supply
    ensures var r := TransferFromImpl(s, env, owner, to, amount); r.Err? ==> !OverflowError(r.error)
  {
    hide SpendAllowance, Sum;
    SpendKeepsMoney(s, env, owner, amount);
    var r1 := SpendAllowance(s, env, owner, amount);
    if r1.Ok? {
      TransferCannotOverflow(r1.value, owner, to, amount);
      var r2 := PerformTransfer(r1.value, owner, to, amount);
      if r2.Ok? {
        StoreCannotOverflow(r2.value, owner, env.sender, to, amount);
      }
    }
  }

  /** In a state whose supply covers its balances no message takes an overflow branch. */
  lemma NoOverflow(s: State, c: Call)
    requires Sum(s.balances) <= s.supply
    ensures var r := Change(s, c.env, c.msg); r.Err? ==> !OverflowError(r.error)
  {
    hide TransferImpl, TransferFromImpl, Sum;
    match c.msg {
      case Burn(n) => SumAtLeast(s.balances, c.env.sender);
      case Mint(n, r) => SumAtLeast(s.balances, r);
      case Transfer(r, n) => TransferImplSafe(s, c.env, r, n);
      case Send(r, n, _) => TransferImplSafe(s, c.env, r, n);
      case TransferFrom(o, r, n) => TransferFromImplSafe(s, c.env, o, r, n);
      case SendFrom(o, r, n, _) => TransferFromImplSafe(s, c.env, o, r, n);
      case _ =>
    }
  }

  /** The overflow branches of transfer and mint and the underflow branch of burn are dead code:
      from no reachable state does any message take them. */
  lemma DeadBranches(entries: seq<InitialBalance>, admin: Addr, s0: State, calls: seq<Call>, c: Call)
    requires Init(entries, admin) == Ok(s0)
    ensures var r := Handle(Run(s0, calls), c.env, c.msg); r.Err? ==> !OverflowError(r.error)
  {
    ReachableBacked(entries, admin, s0, calls);
    NoOverflow(Run(s0, calls), c);
  }

  // ---- History ----

  /** The list account `a` should hold: the log in order, each transfer numbered by its position
      from 1 and repeated once per mention of `a`. */
  function Index(log: seq<Move>, a: Addr): seq<Tx>
    requires |log| < U64
  {
    if log == [] then [] else
      var m := log[|log| - 1];
      Index(log[..|log| - 1], a) + Copies(Numbered(|log|, m), m, a)
  }

  lemma {:induction false} HistoryIndexed(s0: State, calls: seq<Call>, s: State, a: Addr)
    requires s0.history == map[] && s0.txCount == 0 && Replay(s0, calls) == Ok(s)
    ensures s.txCount == |Log(calls)|
    ensures Listed(s.history, a) == Index(Log(calls), a)
  {
    hide Handle, Recorded, Moved;
    if calls != [] {
      var c, front := calls[|calls| - 1], calls[..|calls| - 1];
      var s1 := ReplaySplit(s0, calls, s);
      HistoryIndexed(s0, front, s1, a);
      match MoveOf(c) {
        case Some(m) =>
          MoveEffect(s1, c, m, s);
          RecordedAt(s1.history, Numbered(s1.txCount + 1, m), m, a);
          assert Log(calls)[..|Log(front)|] == Log(front);
        case None => OtherEffect(s1, c, s);
          assert Log(calls) == Log(front);
      }
    }
  }

  /** Every account's stored history is the exact index of the transfer log, and the transfer ids
      are 1 up to the stored count. */
  lemma HistoryIsIndex(entries: seq<InitialBalance>, admin: Addr, s0: State, calls: seq<Call>)
    requires Init(entries, admin) == Ok(s0)
    ensures var s, log := Run(s0, calls), Log(Committed(s0, calls));
            && s.txCount == |log|
            && (forall a :: History(s, a) == Index(log, a))
  {
    RunIsReplay(s0, calls);
    HistoryIndexed(s0, Committed(s0, calls), Run(s0, calls), s0.admin);
    forall a ensures History(Run(s0, calls), a) == Index(Log(Committed(s0, calls)), a) {
      HistoryIndexed(s0, Committed(s0, calls), Run(s0, calls), a);
    }
  }

  // ---- Balances against the log ----

  function Credited(c: Call, a: Addr): nat {
    match MoveOf(c) case Some(m) => if m.receiver == a then m.amount else 0 case None => 0
  }

  function Debited(c: Call, a: Addr): nat {
    match MoveOf(c) case Some(m) => if m.owner == a then m.amount else 0 case None => 0
  }

  lemma LogLast(calls: seq<Call>, a: Addr)
    requires calls != []
    ensures var front, c := calls[..|calls| - 1], calls[|calls| - 1];
            && Received(Log(calls), a) == Received(Log(front), a) + Credited(c, a)
            && Sent(Log(calls), a) == Sent(Log(front), a) + Debited(c, a)
  {
    hide MoveOf;
    var front := calls[..|calls| - 1];
    match MoveOf(calls[|calls| - 1]) {
      case Some(m) =>
        assert Log(calls) == Log(front) + [m];
        assert Log(calls)[..|Log(front)|] == Log(front);
      case None => assert Log(calls) == Log(front);
    }
  }

  lemma BalanceStep(s: State, c: Call, s': State, a: Addr)
    requires Succeeds(s, c, s')
    ensures Balance(s', a) == Balance(s, a) + MintOf(c, a) - BurnOf(c, a) + Credited(c, a) - Debited(c, a)
  {
    hide Handle, Recorded, Moved, Sum;
    match MoveOf(c) {
      case Some(m) =>
        MoveEffect(s, c, m, s');
        MovedAt(s.balances, m.owner, m.receiver, m.amount, a);
      case None => OtherEffect(s, c, s');
    }
  }

  /** Every account's balance is its initial one plus what was minted to it, minus what it burned,
      plus the log's amounts received, minus the log's amounts sent. */
  lemma {:induction false} BalanceMatchesLog(s0: State, calls: seq<Call>, s: State, a: Addr)
    requires Replay(s0, calls) == Ok(s)
    ensures Balance(s, a) == Balance(s0, a) + Minted(calls, a) - Burned(calls, a)
                             + Received(Log(calls), a) - Sent(Log(calls), a)
  {
    if calls != [] {
      hide Handle, Replay, Balance, Log, Received, Sent, MintOf, BurnOf, Credited, Debited, Succeeds;
      var s1 := ReplaySplit(s0, calls, s);
      BalanceMatchesLog(s0, calls[..|calls| - 1], s1, a);
      BalanceStep(s1, calls[|calls| - 1], s, a);
      LogLast(calls, a);
    }
  }

  // ---- Total minted and burned ----

  function MintedAll(calls: seq<Call>): nat {
    if calls == [] then 0 else
      MintedAll(calls[..|calls| - 1]) + MintAmount(calls[|calls| - 1])
  }

  function BurnedAll(calls: seq<Call>): nat {
    if calls == [] then 0 else
      BurnedAll(calls[..|calls| - 1]) + BurnAmount(calls[|calls| - 1])
  }

  /** The supply is the initial one plus everything minted minus everything burned. */
  lemma {:induction false} SupplyMatchesCalls(s0: State, calls: seq<Call>, s: State)
    requires Replay(s0, calls) == Ok(s)
    ensures s.supply == s0.supply + MintedAll(calls) - BurnedAll(calls)
  {
    hide Handle, Recorded, Moved, Sum;
    if calls != [] {
      var c := calls[|calls| - 1];
      var s1 := ReplaySplit(s0, calls, s);
      SupplyMatchesCalls(s0, calls[..|calls| - 1], s1);
      match MoveOf(c) {
        case Some(m) => MoveEffect(s1, c, m, s);
        case None => OtherEffect(s1, c, s);
      }
    }
  }

  // ---- Allowances ----

  function GrantOf(c: Call, owner: Addr, spender: Addr): nat {
    if c.msg.IncreaseAllowance? && c.env.sender == owner && c.msg.spender == spender then c.msg.amount else 0
  }

  function SpendOf(c: Call, owner: Addr, spender: Addr): nat {
    if (c.msg.TransferFrom? || c.msg.SendFrom?) && c.msg.owner == owner && c.env.sender == spender
    then c.msg.amount else 0
  }

  function LowerOf(c: Call, owner: Addr, spender: Addr): nat {
    if c.msg.DecreaseAllowance? && c.env.sender == owner && c.msg.spender == spender then c.msg.amount else 0
  }

  function Lowered(calls: seq<Call>, owner: Addr, spender: Addr): nat {
    if calls == [] then 0 else
      Lowered(calls[..|calls| - 1], owner, spender) + LowerOf(calls[|calls| - 1], owner, spender)
  }

  function Granted(calls: seq<Call>, owner: Addr, spender: Addr): nat {
    if calls == [] then 0 else
      Granted(calls[..|calls| - 1], owner, spender) + GrantOf(calls[|calls| - 1], owner, spender)
  }

  function Spent(calls: seq<Call>, owner: Addr, spender: Addr): nat {
    if calls == [] then 0 else
      Spent(calls[..|calls| - 1], owner, spender) + SpendOf(calls[|calls| - 1], owner, spender)
  }

  lemma AllowanceStep(s: State, c: Call, s': State, owner: Addr, spender: Addr)
    requires Succeeds(s, c, s')
    ensures AllowanceOf(s', owner, spender).amount + SpendOf(c, owner, spender)
            <= AllowanceOf(s, owner, spender).amount + GrantOf(c, owner, spender)
    ensures AllowanceOf(s, owner, spender).amount + GrantOf(c, owner, spender) < U128 ==>
              AllowanceOf(s', owner, spender).amount + SpendOf(c, owner, spender) + LowerOf(c, owner, spender)
              >= AllowanceOf(s, owner, spender).amount + GrantOf(c, owner, spender)
  {
    hide Handle, SpendAllowance, TryIncreaseAllowance, TryDecreaseAllowance, Moved, Recorded, TransferImpl,
         TransferFromImpl, TryMint, TryBurn;
    match MoveOf(c) {
      case Some(m) =>
        MoveEffect(s, c, m, s');
        if c.msg.TransferFrom? || c.msg.SendFrom? {
          var spent := SpendAllowance(s, c.env, m.owner, m.amount).value;
          SpendStep(s, c.env, m.owner, m.amount, spent, owner, spender);
        }
      case None =>
        Dispatch(s, c, s');
        if c.msg.IncreaseAllowance? || c.msg.DecreaseAllowance? {
          GrantStep(s, c, s', owner, spender);
        } else if c.msg.Burn? {
          BurnEffect(s, c.env, c.msg.amount, s');
        } else if c.msg.Mint? {
          MintEffect(s, c.env, c.msg.recipient, c.msg.amount, s');
        }
    }
  }

  lemma GrantStep(s: State, c: Call, s': State, owner: Addr, spender: Addr)
    requires match c.msg
             case IncreaseAllowance(sp, n, ex) => TryIncreaseAllowance(s, c.env, sp, n, ex) == Ok(s')
             case DecreaseAllowance(sp, n, ex) => TryDecreaseAllowance(s, c.env, sp, n, ex) == Ok(s')
             case _ => false
    ensures AllowanceOf(s', owner, spender).amount
            <= AllowanceOf(s, owner, spender).amount + GrantOf(c, owner, spender)
    ensures AllowanceOf(s, owner, spender).amount + GrantOf(c, owner, spender) < U128 ==>
              AllowanceOf(s', owner, spender).amount + LowerOf(c, owner, spender)
              >= AllowanceOf(s, owner, spender).amount + GrantOf(c, owner, spender)
  {
  }

  lemma SpendStep(s: State, env: Env, from: Addr, amount: u128, s': State, owner: Addr, spender: Addr)
    requires SpendAllowance(s, env, from, amount) == Ok(s')
    ensures AllowanceOf(s', owner, spender).amount + (if owner == from && spender == env.sender then amount else 0)
            == AllowanceOf(s, owner, spender).amount
  {
  }

  /** Over any run, what a spender has spent of an owner's tokens plus what is still allowed never
      exceeds what the owner granted. */
  lemma {:induction false} AllowanceBound(s0: State, calls: seq<Call>, s: State, owner: Addr, spender: Addr)
    requires Replay(s0, calls) == Ok(s)
    ensures Spent(calls, owner, spender) + AllowanceOf(s, owner, spender).amount
            <= Granted(calls, owner, spender) + AllowanceOf(s0, owner, spender).amount
  {
    hide Handle, AllowanceOf;
    if calls != [] {
      var s1 := ReplaySplit(s0, calls, s);
      AllowanceBound(s0, calls[..|calls| - 1], s1, owner, spender);
      AllowanceStep(s1, calls[|calls| - 1], s, owner, spender);
    }
  }

  /** As long as the grants fit 128 bits, nothing granted is lost either, except what the owner took
      back: spent plus still allowed is at least granted less lowered, and without lowering exactly
      granted. */
  lemma {:induction false} AllowanceFloor(s0: State, calls: seq<Call>, s: State, owner: Addr, spender: Addr)
    requires Replay(s0, calls) == Ok(s)
    requires Granted(calls, owner, spender) + AllowanceOf(s0, owner, spender).amount < U128
    ensures Spent(calls, owner, spender) + AllowanceOf(s, owner, spender).amount + Lowered(calls, owner, spender)
            >= Granted(calls, owner, spender) + AllowanceOf(s0, owner, spender).amount
  {
    hide Handle, AllowanceOf;
    if calls != [] {
      var s1 := ReplaySplit(s0, calls, s);
      AllowanceFloor(s0, calls[..|calls| - 1], s1, owner, spender);
      AllowanceBound(s0, calls[..|calls| - 1], s1, owner, spender);
      AllowanceStep(s1, calls[|calls| - 1], s, owner, spender);
    }
  }

  /** Nothing is spent from an allowance after its expiration time. */
  lemma NoExpiredSpending(s: State, c: Call, s': State)
    requires Succeeds(s, c, s') && (c.msg.TransferFrom? || c.msg.SendFrom?)
    ensures !Expired(AllowanceOf(s, c.msg.owner, c.env.sender), c.env.time)
  {
    hide PerformTransfer, StoreTransfer;
  }
}
