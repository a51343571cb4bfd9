/** When the leader may give up on a broadcast: at most one mint per deposit holds exactly as long as
    it gives up only on broadcasts that can never be executed. */
module GivingUp {
  import opened Prelude
  import opened Keys
  import opened MintProtocol
  import opened ProtocolSafety
  import opened ProtocolResults
  import opened Rounds

  /** The broadcast an action gives up on: it sends the row back to be retried, or never learns that
      the broadcast is on its way. */
  function GivesUp(cfg: Config, s: State, a: Action): Option<Broadcast> {
    if a.SetRetry? || (a.ValidateRow? && a.reply == Missing(false)) then
      if IsEthereum(s, a.key, Submitted) && s.rows[a.key].dst.Some? && s.rows[a.key].dst.value < |s.broadcasts|
      then Some(s.broadcasts[s.rows[a.key].dst.value]) else None
    else if a.BroadcastRow? && a.delivery.SentUnread? then
      if IsEthereum(s, a.key, Signed) && |SignaturesOf(s.signatures, a.key)| >= cfg.threshold
      then Some(Assembled(s, a.key)) else None
    else None
  }

  /** A broadcast that can never be executed: the chain rejected it or has used its sequence. */
  predicate Dead(b: Broadcast, chainSequence: nat) {
    b.state.Rejected? || (b.state.Pending? && b.sequence < chainSequence)
  }

  /** The action gives up on nothing that may yet be executed, or has been. */
  predicate CarefulAction(cfg: Config, s: State, a: Action) {
    match GivesUp(cfg, s, a)
    case Some(b) => Dead(b, s.chainSequence)
    case None => true
  }

  predicate Careful(cfg: Config, s: State, actions: seq<Action>) {
    actions == [] ||
    (Careful(cfg, s, actions[..|actions| - 1])
     && CarefulAction(cfg, Run(cfg, s, actions[..|actions| - 1]), actions[|actions| - 1]))
  }

  ghost predicate AbandonedAreDead(s: State) {
    forall i :: 0 <= i < |s.broadcasts| && s.broadcasts[i].abandoned ==> Dead(s.broadcasts[i], s.chainSequence)
  }

  lemma CarefulStep(cfg: Config, s: State, a: Action)
    requires AbandonedAreDead(s) && CarefulAction(cfg, s, a)
    ensures AbandonedAreDead(Next(cfg, s, a))
  {
    hide SignaturesOf, Deleted, Verify, SwapKey, HandleEventStep, RetryRowStep, MarkSignedStep, SignStep,
         InsertSecretStep, SetResultStep;
    match a {
      case HandleEvent(h, i, built) => OnlyRows(cfg, s, a);
      case RetryRow(_) => OnlyRows(cfg, s, a);
      case MarkSigned(_) => OnlyRows(cfg, s, a);
      case Sign(_, _, _, _) => OnlyRows(cfg, s, a);
      case InsertSecret(_, _, _, _) => OnlyRows(cfg, s, a);
      case SetResult(_, _, _) => OnlyRows(cfg, s, a);
      case _ =>
    }
  }

  lemma {:induction false} CarefulRun(cfg: Config, s: State, actions: seq<Action>)
    requires AbandonedAreDead(s) && Careful(cfg, s, actions)
    ensures AbandonedAreDead(Run(cfg, s, actions))
  {
    hide Next, CarefulAction, AbandonedAreDead;
    if actions != [] {
      CarefulRun(cfg, s, actions[..|actions| - 1]);
      CarefulStep(cfg, Run(cfg, s, actions[..|actions| - 1]), actions[|actions| - 1]);
    }
  }

  lemma {:induction false} RunKeeps(cfg: Config, s: State, actions: seq<Action>)
    requires Inv(cfg, s)
    ensures Inv(cfg, Run(cfg, s, actions))
  {
    hide Inv, Next;
    if actions != [] {
      RunKeeps(cfg, s, actions[..|actions| - 1]);
      NextOk(cfg, Run(cfg, s, actions[..|actions| - 1]), actions[|actions| - 1]);
    }
  }

  lemma OnceWhenDead(cfg: Config, s: State, key: string)
    requires Inv(cfg, s) && AbandonedAreDead(s)
    ensures Mints(s.broadcasts, key) <= 1
  {
    hide Mints, StrayMints;
    GlobalFacts(cfg, s);
    NoStray(s.broadcasts, key);
    MintsCounted(s.broadcasts, key);
  }

  /** Some run leads to this state in which every broadcast given up was dead. */
  ghost predicate ReachableWithCare(cfg: Config, s: State) {
    exists chainSequence, actions ::
      Careful(cfg, Init(chainSequence), actions) && s == Run(cfg, Init(chainSequence), actions)
  }

  lemma WithCare(cfg: Config, s: State)
    requires ReachableWithCare(cfg, s)
    ensures Inv(cfg, s) && AbandonedAreDead(s)
  {
    hide Careful, Inv;
    var chainSequence, actions :|
      Careful(cfg, Init(chainSequence), actions) && s == Run(cfg, Init(chainSequence), actions);
    CarefulRun(cfg, Init(chainSequence), actions);
    RunOk(cfg, chainSequence, actions);
  }

  /** If the leader gives up only on broadcasts that are dead, rejected by the chain or with their
      sequence number used up, every deposit is minted at most once. */
  lemma CarefulMintsOnce(cfg: Config, s: State, key: string)
    requires ReachableWithCare(cfg, s)
    ensures Mints(s.broadcasts, key) <= 1
  {
    hide ReachableWithCare, Inv, AbandonedAreDead, Mints;
    WithCare(cfg, s);
    OnceWhenDead(cfg, s, key);
  }

  // ---- Giving up on anything else can mint twice ----

  /** Actions that cannot give up on a broadcast. */
  ghost predicate Quiet(actions: seq<Action>) {
    forall a <- actions :: !a.SetRetry? && !a.ValidateRow? && !(a.BroadcastRow? && a.delivery.SentUnread?)
  }

  lemma {:induction false} QuietIsCareful(cfg: Config, s: State, actions: seq<Action>)
    requires Quiet(actions)
    ensures Careful(cfg, s, actions)
  {
    hide Next, Run;
    if actions != [] {
      var front, last := actions[..|actions| - 1], actions[|actions| - 1];
      assert last in actions && forall a <- front :: a in actions;
      QuietIsCareful(cfg, s, front);
    }
  }

  lemma {:induction false} CarefulAppend(cfg: Config, s: State, a: seq<Action>, b: seq<Action>)
    requires Careful(cfg, s, a) && Careful(cfg, Run(cfg, s, a), b)
    ensures Careful(cfg, s, a + b)
  {
    hide Next, Run, CarefulAction;
    if b == [] {
      assert a + b == a;
    } else {
      var front := b[..|b| - 1];
      assert (a + b)[..|a + b| - 1] == a + front;
      CarefulAppend(cfg, s, a, front);
      RunAppend(cfg, s, a, front);
    }
  }

  /** Rows, receipts and broadcasts there before are still there, unchanged. */
  ghost predicate Kept(s: State, s': State) {
    && (forall k <- s.rows :: k in s'.rows && s'.rows[k] == s.rows[k])
    && (forall h <- s.eth :: h in s'.eth && s'.eth[h] == s.eth[h])
    && s.broadcasts <= s'.broadcasts
  }

  lemma {:induction false} Longer(keys: set<string>) returns (n: nat)
    ensures forall k <- keys :: |k| < n
  {
    if keys == {} {
      n := 0;
    } else {
      var k :| k in keys;
      var m := Longer(keys - {k});
      n := if m > |k| then m else |k| + 1;
      forall j | j in keys ensures |j| < n {
        if j != k {
          assert j in keys - {k};
        }
      }
    }
  }

  /** There is always another transaction hash. */
  lemma NewHash(keys: set<string>) returns (hash: string)
    ensures IsHash(hash) && hash !in keys
  {
    var n := Longer(keys);
    hash := "0x" + seq(n, _ => '0');
    assert hash[..2] == "0x" && hash[2..] == seq(n, _ => '0');
  }

  lemma NewRow(cfg: Config, s: State, hash: string)
    requires Inv(cfg, s) && IsHash(hash) && hash !in s.eth
    ensures hash !in s.rows && forall sig <- s.signatures :: sig.key != hash
  {
    hide Inv, Verify;
    if hash in s.rows {
      RowFact(cfg, s, hash);
      if s.rows[hash].source.FromSecret? {
        SwapKeyIsNoHash(s.rows[hash].source.nonce, s.rows[hash].source.token);
      }
    }
    forall sig | sig in s.signatures ensures sig.key != hash {
      var i :| 0 <= i < |s.signatures| && s.signatures[i] == sig;
      SignatureFact(cfg, s, i);
    }
  }

  lemma QuietArrival(hash: string, log: Log, k: nat, n: nat)
    ensures Quiet(Arrive(hash, log) + Round(hash, k, n))
  {
  }

  /** A fresh deposit brings the chain one sequence number further. */
  lemma Advance(cfg: Config, s: State, coin: string) returns (more: seq<Action>)
    requires Inv(cfg, s) && coin in cfg.tokens
    ensures Quiet(more) && Kept(s, Run(cfg, s, more))
    ensures Run(cfg, s, more).chainSequence == s.chainSequence + 1
  {
    hide Inv, Run, Quiet, Arrive, Round, Open, Given;
    var hash := NewHash(s.eth.Keys);
    var log := Log(false, true, coin, 0, Some(Account(0)));
    NewRow(cfg, s, hash);
    Arrives(cfg, s, hash, log);
    var s1 := Run(cfg, s, Arrive(hash, log));
    RoundMints(cfg, s1, hash);
    more := Arrive(hash, log) + Round(hash, cfg.threshold, |s.broadcasts|);
    RunAppend(cfg, s, Arrive(hash, log), Round(hash, cfg.threshold, |s.broadcasts|));
    QuietArrival(hash, log, cfg.threshold, |s.broadcasts|);
  }

  lemma {:induction false} AdvanceTo(cfg: Config, s: State, coin: string, target: nat) returns (more: seq<Action>)
    requires Inv(cfg, s) && coin in cfg.tokens && s.chainSequence <= target
    ensures Quiet(more) && Kept(s, Run(cfg, s, more))
    ensures Run(cfg, s, more).chainSequence == target
    decreases target - s.chainSequence
  {
    hide Inv, Next;
    if s.chainSequence == target {
      more := [];
    } else {
      hide Run;
      var one := Advance(cfg, s, coin);
      RunKeeps(cfg, s, one);
      var rest := AdvanceTo(cfg, Run(cfg, s, one), coin, target);
      RunAppend(cfg, s, one, rest);
      more := one + rest;
    }
  }

  /** The coin of a row is paired, and its deposit is still there to be checked. */
  lemma CoinOfRow(cfg: Config, s: State, key: string)
    requires Inv(cfg, s) && key in s.rows && s.rows[key].source.FromEthereum?
    ensures s.rows[key].source.coin in cfg.tokens && key in s.eth
  {
    hide Inv, ProgressOk;
    RowFact(cfg, s, key);
  }

  ghost predicate Lives(s: State, i: nat, key: string) {
    i < |s.broadcasts| && s.broadcasts[i].key == key && !Dead(s.broadcasts[i], s.chainSequence)
  }

  /** A broadcast that is not dead can be executed, without touching its row. */
  lemma Land(cfg: Config, s: State, key: string, i: nat) returns (more: seq<Action>)
    requires Inv(cfg, s) && key in s.rows && s.rows[key].source.FromEthereum? && Lives(s, i, key)
    ensures Quiet(more)
    ensures var s' := Run(cfg, s, more);
            && key in s'.rows && s'.rows[key] == s.rows[key]
            && key in s.eth && key in s'.eth && s'.eth[key] == s.eth[key]
            && i < |s'.broadcasts| && s'.broadcasts[i].key == key && s'.broadcasts[i].state.Executed?
  {
    hide Inv, Next;
    CoinOfRow(cfg, s, key);
    if s.broadcasts[i].state.Executed? {
      more := [];
    } else {
      hide Run;
      var wait := AdvanceTo(cfg, s, s.rows[key].source.coin, s.broadcasts[i].sequence);
      var s1 := Run(cfg, s, wait);
      assert s1.broadcasts[i] == s.broadcasts[i];
      RunAppend(cfg, s, wait, [ChainExecute(i, true)]);
      RunOne(cfg, s1, ChainExecute(i, true));
      Executes(cfg, s1, i);
      more := wait + [ChainExecute(i, true)];
    }
  }

  lemma RunOne(cfg: Config, s: State, a: Action)
    ensures Run(cfg, s, [a]) == Next(cfg, s, a)
  {
    hide Next;
    assert [a][..0] == [];
  }

  lemma Executes(cfg: Config, s: State, i: nat)
    requires i < |s.broadcasts| && s.broadcasts[i].state.Pending? && s.broadcasts[i].sequence == s.chainSequence
    ensures Next(cfg, s, ChainExecute(i, true)) ==
            s.(broadcasts := s.broadcasts[i := s.broadcasts[i].(state := Executed)],
               chainSequence := s.chainSequence + 1)
  {
  }

  /** A row sent back starts over under the chain's sequence. */
  lemma Restarts(cfg: Config, s: State, key: string)
    requires IsEthereum(s, key, Status.Retry)
    requires cfg.threshold > 0 ==> Verify(s.eth, key, s.rows[key]).Valid?
    ensures var s' := Run(cfg, s, [UpdateSequence, RetryRow(key)]);
            Open(cfg, s', key) && s'.rows[key].sequence == s'.chainSequence && s'.broadcasts == s.broadcasts
  {
    var s1 := Next(cfg, s, UpdateSequence);
    RunOne(cfg, s, UpdateSequence);
    assert [UpdateSequence, RetryRow(key)][..1] == [UpdateSequence];
    hide Run;
    var s' := Next(cfg, s1, RetryRow(key));
    DeletedOk(s.signatures, key);
    assert s'.signatures == Deleted(s.signatures, key);
    assert Verify(s'.eth, key, s'.rows[key]) == Verify(s.eth, key, s.rows[key]);
  }

  lemma {:induction false} TwoExecuted(bs: seq<Broadcast>, key: string, i: nat, j: nat)
    requires i < j < |bs| && bs[i].key == key && bs[j].key == key
    requires bs[i].state.Executed? && bs[j].state.Executed?
    ensures Mints(bs, key) >= 2
  {
    var n := |bs| - 1;
    var front := bs[..n];
    if j < n {
      TwoExecuted(front, key, i, j);
    } else {
      OneExecuted(front, key, i);
    }
  }

  lemma {:induction false} OneExecuted(bs: seq<Broadcast>, key: string, i: nat)
    requires i < |bs| && bs[i].key == key && bs[i].state.Executed?
    ensures Mints(bs, key) >= 1
  {
    if i < |bs| - 1 {
      OneExecuted(bs[..|bs| - 1], key, i);
    }
  }

  lemma QuietRetry(key: string, k: nat, n: nat)
    ensures Quiet([UpdateSequence, RetryRow(key)]) && Quiet(Round(key, k, n))
  {
  }

  /** A row to be retried while a broadcast of it lives: both can be executed. */
  lemma SecondMint(cfg: Config, s: State, key: string, i: nat) returns (more: seq<Action>)
    requires Inv(cfg, s) && IsEthereum(s, key, Status.Retry) && Lives(s, i, key)
    requires cfg.threshold > 0 ==> Verify(s.eth, key, s.rows[key]).Valid?
    ensures Quiet(more) && Mints(Run(cfg, s, more).broadcasts, key) >= 2
  {
    hide Inv, Next, Run, Open, Verify, Round, Given, Mints;
    var land := Land(cfg, s, key, i);
    var s1 := Run(cfg, s, land);
    assert Verify(s1.eth, key, s1.rows[key]) == Verify(s.eth, key, s.rows[key]) by { SameVerdict(s, s1, key); }
    var again := [UpdateSequence, RetryRow(key)];
    Restarts(cfg, s1, key);
    var s2 := Run(cfg, s1, again);
    var n := |s2.broadcasts|;
    OpenIs(cfg, s2, key);
    RoundMints(cfg, s2, key);
    var s3 := Run(cfg, s2, Round(key, cfg.threshold, n));
    assert s3.broadcasts[i] == s2.broadcasts[i];
    TwoExecuted(s3.broadcasts, key, i, n);
    QuietRetry(key, cfg.threshold, n);
    RunAppend(cfg, s, land, again);
    RunAppend(cfg, s, land + again, Round(key, cfg.threshold, n));
    more := land + again + Round(key, cfg.threshold, n);
  }

  lemma OpenIs(cfg: Config, s: State, key: string)
    requires Open(cfg, s, key)
    ensures IsEthereum(s, key, Unsigned)
  {
  }

  lemma SameVerdict(s: State, s': State, key: string)
    requires key in s.rows && key in s'.rows && s'.rows[key] == s.rows[key]
    requires key in s.eth && key in s'.eth && s'.eth[key] == s.eth[key]
    ensures Verify(s'.eth, key, s'.rows[key]) == Verify(s.eth, key, s.rows[key])
  {
  }

  /** What a careless action leaves behind: the row to be retried, or still signed, and its broadcast
      as it was. */
  lemma Leaves(cfg: Config, s: State, a: Action, b: Broadcast) returns (i: nat)
    requires Inv(cfg, s) && GivesUp(cfg, s, a) == Some(b)
    ensures var s' := Next(cfg, s, a);
            && b.key in s.rows && s.rows[b.key].source.FromEthereum? && Ready(s.rows[b.key].status)
            && IsEthereum(s', b.key, if a.BroadcastRow? then Signed else Status.Retry)
            && s'.rows[b.key] == s.rows[b.key].(status := s'.rows[b.key].status) && s'.eth == s.eth
            && i < |s'.broadcasts| && s'.broadcasts[i] == b.(abandoned := true) && s'.chainSequence == s.chainSequence
  {
    hide Inv, SignaturesOf;
    RowFact(cfg, s, a.key);
    i := if a.BroadcastRow? then |s.broadcasts| else s.rows[a.key].dst.value;
  }

  lemma Accepted(cfg: Config, s: State, key: string)
    requires Inv(cfg, s) && key in s.rows && s.rows[key].source.FromEthereum? && Ready(s.rows[key].status)
    ensures cfg.threshold > 0 ==> Verify(s.eth, key, s.rows[key]).Valid?
  {
    hide Inv, Verify;
    RowFact(cfg, s, key);
    if cfg.threshold > 0 {
      OwnSigned(cfg, s, key);
    }
  }

  lemma SentBack(cfg: Config, s: State, key: string)
    requires IsEthereum(s, key, Signed)
    ensures Next(cfg, s, SetRetry(key)) == s.(rows := s.rows[key := s.rows[key].(status := Status.Retry)])
    ensures CarefulAction(cfg, s, SetRetry(key))
  {
  }

  /** Giving up on a broadcast that is not dead lets a careful run from there mint the deposit twice. */
  lemma CarelessMintsTwice(cfg: Config, s: State, a: Action, b: Broadcast) returns (more: seq<Action>)
    requires Inv(cfg, s) && GivesUp(cfg, s, a) == Some(b) && !Dead(b, s.chainSequence)
    ensures var s' := Next(cfg, s, a);
            Careful(cfg, s', more) && Mints(Run(cfg, s', more).broadcasts, b.key) >= 2
  {
    hide Inv, Next, Run, GivesUp, Verify, Mints, Careful, Quiet;
    var i := Leaves(cfg, s, a, b);
    Accepted(cfg, s, b.key);
    NextOk(cfg, s, a);
    var s' := Next(cfg, s, a);
    SameChecks(s.eth, b.key, s.rows[b.key], s'.rows[b.key]);
    if a.BroadcastRow? {
      SentBack(cfg, s', b.key);
      var s2 := Next(cfg, s', SetRetry(b.key));
      NextOk(cfg, s', SetRetry(b.key));
      SameChecks(s.eth, b.key, s.rows[b.key], s2.rows[b.key]);
      var rest := SecondMint(cfg, s2, b.key, i);
      RunOne(cfg, s', SetRetry(b.key));
      RunAppend(cfg, s', [SetRetry(b.key)], rest);
      CarefulOne(cfg, s', SetRetry(b.key));
      QuietIsCareful(cfg, s2, rest);
      CarefulAppend(cfg, s', [SetRetry(b.key)], rest);
      more := [SetRetry(b.key)] + rest;
    } else {
      more := SecondMint(cfg, s', b.key, i);
      QuietIsCareful(cfg, s', more);
    }
  }

  lemma CarefulOne(cfg: Config, s: State, a: Action)
    requires CarefulAction(cfg, s, a)
    ensures Careful(cfg, s, [a])
  {
    hide CarefulAction, Next;
    assert [a][..0] == [];
    assert Run(cfg, s, []) == s && Careful(cfg, s, []);
  }

  /** A row's status does not matter to signers. */
  lemma SameChecks(eth: map<string, seq<Log>>, key: string, row: Row, row': Row)
    requires row' == row.(status := row'.status)
    ensures Verify(eth, key, row') == Verify(eth, key, row)
  {
    hide FirstLog;
  }

  /** The exact condition for at most one mint per deposit. Where nothing live was given up so far,
      giving up on a broadcast is harmless if and only if it is dead at that moment: only then does
      every careful run afterwards mint the deposit at most once. */
  lemma GiveUpExactly(cfg: Config, s: State, a: Action, b: Broadcast)
    requires Reachable(cfg, s) && AbandonedAreDead(s) && GivesUp(cfg, s, a) == Some(b)
    ensures Dead(b, s.chainSequence) <==>
            forall more :: Careful(cfg, Next(cfg, s, a), more) ==>
              Mints(Run(cfg, Next(cfg, s, a), more).broadcasts, b.key) <= 1
  {
    hide Inv, Next, Run, GivesUp, Reachable, AbandonedAreDead, Mints, Careful, Dead;
    ReachableOk(cfg, s);
    var s' := Next(cfg, s, a);
    if Dead(b, s.chainSequence) {
      assert CarefulAction(cfg, s, a);
      CarefulStep(cfg, s, a);
      NextOk(cfg, s, a);
      forall more | Careful(cfg, s', more) ensures Mints(Run(cfg, s', more).broadcasts, b.key) <= 1 {
        CarefulRun(cfg, s', more);
        RunKeeps(cfg, s', more);
        OnceWhenDead(cfg, Run(cfg, s', more), b.key);
      }
    } else {
      var more := CarelessMintsTwice(cfg, s, a, b);
      assert Careful(cfg, s', more) && Mints(Run(cfg, s', more).broadcasts, b.key) >= 2;
    }
  }
}
