/** What the Ethereum-to-Secret protocol guarantees over every run: threshold safety across retries,
    how often a deposit is minted, which statuses are final, that the two directions do not meddle,
    and how sequence numbers are handed out. */
module ProtocolResults {
  import opened Prelude
  import opened Keys
  import opened MintProtocol
  import opened ProtocolSafety

  // ---- Threshold safety ----

  /** In every reachable state a signed, submitted or confirmed row from Ethereum has enough
      signatures of different signers, all over its current transaction and sequence, however often
      it was retried before. */
  lemma ThresholdSafety(cfg: Config, s: State, key: string)
    requires Reachable(cfg, s) && key in s.rows && s.rows[key].source.FromEthereum? && Ready(s.rows[key].status)
    ensures Authorizes(cfg, SignaturesOf(s.signatures, key), key, s.rows[key].source.mint, s.rows[key].sequence)
  {
    hide Inv, Reachable, Authorizes, SignaturesOf;
    ReachableOk(cfg, s);
    RowFact(cfg, s, key);
    OwnSignatures(cfg, s, key);
  }

  /** The leader's check for missing signatures never fires: from every reachable state a visit to a
      signed row hands it to the chain, or fails it if the client refuses. */
  lemma LeaderNeverShort(cfg: Config, s: State, key: string, delivery: Delivery)
    requires Reachable(cfg, s) && IsEthereum(s, key, Signed)
    ensures var s' := BroadcastStep(cfg, s, key, delivery);
            Is(s', key, match delivery case Sent => Submitted case SentUnread => Signed case _ => Failed)
            && |s'.broadcasts| == |s.broadcasts| + if delivery.Refused? then 0 else 1
  {
    hide Inv, Reachable;
    ReachableOk(cfg, s);
    RowFact(cfg, s, key);
  }

  /** Whatever was ever handed to the Secret chain carried enough signatures of different signers
      over exactly that transaction and sequence. */
  lemma BroadcastsAuthorized(cfg: Config, s: State, i: nat)
    requires Reachable(cfg, s) && i < |s.broadcasts|
    ensures var b := s.broadcasts[i]; Authorizes(cfg, b.signatures, b.key, b.mint, b.sequence)
  {
    hide Inv, Reachable, Authorizes;
    ReachableOk(cfg, s);
    BroadcastFact(cfg, s, i);
  }

  // ---- How often a deposit is minted ----

  /** The number of executed broadcasts for a row. */
  function Mints(broadcasts: seq<Broadcast>, key: string): nat {
    if broadcasts == [] then 0 else
      var b := broadcasts[|broadcasts| - 1];
      Mints(broadcasts[..|broadcasts| - 1], key) + if b.key == key && b.state.Executed? then 1 else 0
  }

  /** Those of them that the leader had given up, before or after they were executed. */
  function StrayMints(broadcasts: seq<Broadcast>, key: string): nat {
    if broadcasts == [] then 0 else
      var b := broadcasts[|broadcasts| - 1];
      StrayMints(broadcasts[..|broadcasts| - 1], key) + if b.key == key && b.state.Executed? && b.abandoned
          then 1 else 0
  }

  ghost predicate LiveMint(broadcasts: seq<Broadcast>, key: string) {
    exists i :: 0 <= i < |broadcasts| && broadcasts[i].key == key && broadcasts[i].state.Executed?
        && !broadcasts[i].abandoned
  }

  lemma {:induction false} MintsCounted(broadcasts: seq<Broadcast>, key: string)
    requires OneLive(broadcasts)
    ensures Mints(broadcasts, key) == StrayMints(broadcasts, key) + if LiveMint(broadcasts, key) then 1 else 0
  {
    if broadcasts != [] {
      var n := |broadcasts| - 1;
      var front, b := broadcasts[..n], broadcasts[n];
      MintsCounted(front, key);
      if b.key == key && b.state.Executed? && !b.abandoned {
        assert broadcasts[n] == b;
        assert !LiveMint(front, key);
      } else if LiveMint(broadcasts, key) {
        var i :| 0 <= i < |broadcasts| && broadcasts[i].key == key && broadcasts[i].state.Executed?
            && !broadcasts[i].abandoned;
        assert front[i] == broadcasts[i];
      }
    }
  }

  /** A deposit is minted once for each executed broadcast the leader gave up on, and at most once
      more; so at most once in all whenever no broadcast given up on is ever executed. */
  lemma AtMostOneMint(cfg: Config, s: State, key: string)
    requires Reachable(cfg, s)
    ensures var bs := s.broadcasts;
            && Mints(bs, key) == StrayMints(bs, key) + (if LiveMint(bs, key) then 1 else 0)
            && (StrayMints(bs, key) == 0 ==> Mints(bs, key) <= 1)
  {
    ReachableOk(cfg, s);
    MintsCounted(s.broadcasts, key);
  }

  /** A confirmed row was minted, and exactly once if no broadcast of it was given up and executed;
      every mint made on its account is of the amount and recipient that a log of the wallet in the
      row's own Ethereum transaction deposited, on the token paired with the deposited coin. */
  lemma ConfirmedMintsDeposit(cfg: Config, s: State, key: string)
    requires Reachable(cfg, s) && IsEthereum(s, key, Confirmed)
    ensures Mints(s.broadcasts, key) == StrayMints(s.broadcasts, key) + 1
    ensures Deposited(cfg, s.eth, key, s.rows[key])
    ensures forall b <- s.broadcasts :: b.key == key ==> b.mint == s.rows[key].source.mint
  {
    hide Inv, Reachable, Deposited, Authorizes;
    ReachableOk(cfg, s);
    GlobalFacts(cfg, s);
    RowFact(cfg, s, key);
    assert LiveMint(s.broadcasts, key);
    MintsCounted(s.broadcasts, key);
    forall b | b in s.broadcasts && b.key == key ensures b.mint == s.rows[key].source.mint {
      var i :| 0 <= i < |s.broadcasts| && s.broadcasts[i] == b;
      BroadcastFact(cfg, s, i);
    }
  }

  /** Provided at least one signature is required, no signed row and nothing broadcast disagrees with
      the log that signers look up themselves. */
  lemma SignedMatchesChain(cfg: Config, s: State, key: string)
    requires Reachable(cfg, s) && cfg.threshold > 0
    requires key in s.rows && s.rows[key].source.FromEthereum? && Ready(s.rows[key].status)
    ensures key in s.eth
    ensures match FirstLog(s.eth[key])
            case Some(log) => log.amount == s.rows[key].source.mint.amount
                              && log.recipient == Some(s.rows[key].source.mint.recipient)
            case None => false
  {
    hide Inv, Reachable, SignaturesOf;
    ReachableOk(cfg, s);
    RowFact(cfg, s, key);
    OwnSigned(cfg, s, key);
  }

  /** What a truthful look at the chain finds for a broadcast. */
  predicate Truthful(reply: Reply, state: BroadcastState) {
    if state.Pending? then reply.Missing? else reply.OnChain?
  }

  /** In every reachable state a truthful look at a submitted row follows the chain: confirmed exactly
      if its broadcast was executed, failed exactly if it was rejected, and otherwise left to wait or,
      when old, sent back. */
  lemma ValidationFollowsChain(cfg: Config, s: State, key: string, reply: Reply)
    requires Reachable(cfg, s) && IsEthereum(s, key, Submitted)
    ensures s.rows[key].dst.Some? && s.rows[key].dst.value < |s.broadcasts|
    ensures var b := s.broadcasts[s.rows[key].dst.value];
            b.key == key &&
            (Truthful(reply, b.state) ==>
               Is(ValidateStep(s, key, reply), key,
                  match b.state
                  case Executed => Confirmed
                  case Rejected => Failed
                  case Pending => if reply.young then Submitted else Retry))
  {
    hide Inv, Reachable;
    ReachableOk(cfg, s);
    RowFact(cfg, s, key);
  }

  lemma OwnSigned(cfg: Config, s: State, key: string)
    requires Inv(cfg, s) && key in s.rows && s.rows[key].source.FromEthereum?
    requires |SignaturesOf(s.signatures, key)| > 0
    ensures Verify(s.eth, key, s.rows[key]).Valid?
  {
    SignaturesOfOk(cfg, s, s.signatures, key);
    hide Inv;
    var sig := SignaturesOf(s.signatures, key)[0];
    assert sig in SignaturesOf(s.signatures, key);
    var i :| 0 <= i < |s.signatures| && s.signatures[i] == sig;
    SignatureFact(cfg, s, i);
  }

  // ---- Final statuses and separation of the two directions ----

  predicate Settled(s: State, key: string) {
    Is(s, key, Confirmed) || Is(s, key, Failed)
  }

  lemma SettledStep(cfg: Config, s: State, a: Action, key: string)
    requires Settled(s, key)
    ensures key in Next(cfg, s, a).rows && Next(cfg, s, a).rows[key] == s.rows[key]
  {
    hide SignaturesOf, Deleted, Verify, SwapKey;
  }

  /** A confirmed or failed row never changes again, whoever acts. */
  lemma {:induction false} SettledForever(cfg: Config, s: State, actions: seq<Action>, key: string)
    requires Settled(s, key)
    ensures key in Run(cfg, s, actions).rows && Run(cfg, s, actions).rows[key] == s.rows[key]
  {
    hide Next;
    if actions != [] {
      SettledForever(cfg, s, actions[..|actions| - 1], key);
      SettledStep(cfg, Run(cfg, s, actions[..|actions| - 1]), actions[|actions| - 1], key);
    }
  }

  predicate EthereumSide(a: Action) {
    !a.InsertSecret? && !a.SetResult?
  }

  lemma SecretRowUntouched(cfg: Config, s: State, a: Action, key: string)
    requires Inv(cfg, s) && key in s.rows && s.rows[key].source.FromSecret? && EthereumSide(a)
    ensures key in Next(cfg, s, a).rows && Next(cfg, s, a).rows[key] == s.rows[key]
  {
    hide Inv;
    RowFact(cfg, s, key);
    assert Is(s, key, Submitted) || Settled(s, key);
    hide RowOk, ProgressOk, SignaturesOf, Deleted, Verify, SwapKey;
  }

  lemma EthereumRowUntouched(cfg: Config, s: State, a: Action, key: string)
    requires Inv(cfg, s) && key in s.rows && s.rows[key].source.FromEthereum? && !EthereumSide(a)
    ensures key in Next(cfg, s, a).rows && Next(cfg, s, a).rows[key] == s.rows[key]
  {
    hide Inv;
    RowFact(cfg, s, key);
    SwapKeyIsNoHash(a.nonce, a.token);
  }

  /** From every reachable state, the workers of one direction leave the other direction's rows
      alone, although they share one table; and rows from Secret are only ever submitted, confirmed
      or failed. */
  lemma DirectionsApart(cfg: Config, s: State, a: Action, key: string)
    requires Reachable(cfg, s) && key in s.rows
    ensures s.rows[key].source.FromEthereum? != EthereumSide(a) ==>
              key in Next(cfg, s, a).rows && Next(cfg, s, a).rows[key] == s.rows[key]
    ensures s.rows[key].source.FromSecret? ==> Is(s, key, Submitted) || Settled(s, key)
  {
    hide Inv, Reachable, Next;
    ReachableOk(cfg, s);
    RowFact(cfg, s, key);
    if s.rows[key].source.FromEthereum? && !EthereumSide(a) {
      EthereumRowUntouched(cfg, s, a, key);
    } else if s.rows[key].source.FromSecret? && EthereumSide(a) {
      SecretRowUntouched(cfg, s, a, key);
    }
  }

  // ---- Confirmations from Ethereum ----

  datatype Result = Result(token: string, nonce: nat, success: bool)

  /** The confirmer working through a list of `Withdraw` and `WithdrawFailure` events. */
  function Confirm(s: State, results: seq<Result>): State {
    if results == [] then s else
      var r := results[|results| - 1];
      SetResultStep(Confirm(s, results[..|results| - 1]), r.token, r.nonce, r.success)
  }

  function FirstResult(results: seq<Result>, key: string): Option<bool> {
    if results == [] then None
    else if SwapKey(results[0].nonce, results[0].token) == key then Some(results[0].success)
    else FirstResult(results[1..], key)
  }

  lemma {:induction false} FirstResultSnoc(results: seq<Result>, r: Result, key: string)
    ensures FirstResult(results + [r], key) ==
            if FirstResult(results, key).Some? then FirstResult(results, key)
            else if SwapKey(r.nonce, r.token) == key then Some(r.success) else None
  {
    hide SwapKey;
    if results != [] {
      assert (results + [r])[1..] == results[1..] + [r];
      FirstResultSnoc(results[1..], r, key);
    } else {
      assert (results + [r])[1..] == [];
    }
  }

  /** After any list of results, a row submitted before has the first result reported for it, and
      every other row is as it was: later and repeated results change nothing. */
  lemma {:induction false} FirstResultWins(s: State, results: seq<Result>)
    ensures Confirm(s, results) == s.(rows := Confirm(s, results).rows)
    ensures Confirm(s, results).rows.Keys == s.rows.Keys
    ensures forall key <- s.rows :: Confirm(s, results).rows[key] ==
              var row := s.rows[key];
              match FirstResult(results, key)
              case Some(success) =>
                if row.status.Submitted? then row.(status := if success then Confirmed else Failed) else row
              case None => row
  {
    hide SwapKey;
    if results != [] {
      var front, r := results[..|results| - 1], results[|results| - 1];
      FirstResultWins(s, front);
      assert results == front + [r];
      forall key | key in s.rows
        ensures Confirm(s, results).rows[key] ==
                var row := s.rows[key];
                match FirstResult(results, key)
                case Some(success) =>
                  if row.status.Submitted? then row.(status := if success then Confirmed else Failed) else row
                case None => row
      {
        FirstResultSnoc(front, r, key);
      }
    }
  }

  // ---- Sequence numbers ----

  /** The sequence numbers an action writes into rows. */
  function Allots(cfg: Config, s: State, a: Action): seq<nat> {
    match a
    case HandleEvent(h, i, built) =>
      if h !in s.rows && h in HandleEventStep(cfg, s, h, i, built).rows
      then [HandleEventStep(cfg, s, h, i, built).rows[h].sequence] else []
    case RetryRow(k) => if Is(s, k, Retry) then [RetryRowStep(s, k).rows[k].sequence] else []
    case _ => []
  }

  /** The action reads the counter back from the chain. */
  predicate Resyncs(s: State, a: Action) {
    || a.UpdateSequence?
    || (a.ValidateRow? && ValidateStep(s, a.key, a.reply) != s
        && !Is(ValidateStep(s, a.key, a.reply), a.key, Confirmed))
  }

  function Allotted(cfg: Config, s: State, actions: seq<Action>): seq<nat> {
    if actions == [] then [] else
      Allotted(cfg, s, actions[..|actions| - 1]) +
          Allots(cfg, Run(cfg, s, actions[..|actions| - 1]), actions[|actions| - 1])
  }

  predicate NeverResyncs(cfg: Config, s: State, actions: seq<Action>) {
    actions == [] ||
    (NeverResyncs(cfg, s, actions[..|actions| - 1])
     && !Resyncs(Run(cfg, s, actions[..|actions| - 1]), actions[|actions| - 1]))
  }

  lemma AllotStep(cfg: Config, s: State, a: Action)
    requires !Resyncs(s, a)
    ensures Allots(cfg, s, a) == if Next(cfg, s, a).sequence == s.sequence then [] else [s.sequence]
    ensures Next(cfg, s, a).sequence == s.sequence + |Allots(cfg, s, a)|
  {
    hide SignaturesOf, Deleted, Verify, SwapKey;
  }

  /** While the counter is not read back from the chain, new events and retries together are given
      the numbers from the counter on, in order, none skipped and none twice. */
  lemma {:induction false} SequencesConsecutive(cfg: Config, s: State, actions: seq<Action>)
    requires NeverResyncs(cfg, s, actions)
    ensures var given := Allotted(cfg, s, actions);
            && given == seq(|given|, i => s.sequence + i)
            && Run(cfg, s, actions).sequence == s.sequence + |given|
  {
    hide Next, Allots, Resyncs;
    if actions != [] {
      var front, last := actions[..|actions| - 1], actions[|actions| - 1];
      SequencesConsecutive(cfg, s, front);
      AllotStep(cfg, Run(cfg, s, front), last);
    }
  }

  /** These actions do not touch the chain side. */
  lemma OnlyRows(cfg: Config, s: State, a: Action)
    requires a.HandleEvent? || a.RetryRow? || a.MarkSigned? || a.Sign? || a.InsertSecret? || a.SetResult?
    ensures Next(cfg, s, a).broadcasts == s.broadcasts && Next(cfg, s, a).chainSequence == s.chainSequence
  {
    hide SignaturesOf, Deleted, Verify, SwapKey;
  }

  lemma {:induction false} NoStray(broadcasts: seq<Broadcast>, key: string)
    requires forall b <- broadcasts :: b.abandoned ==> !b.state.Executed?
    ensures StrayMints(broadcasts, key) == 0
  {
    if broadcasts != [] {
      NoStray(broadcasts[..|broadcasts| - 1], key);
    }
  }
}
