/** What each action of the Ethereum-to-Secret protocol does, said by its outcome on rows, signatures and
    counter, and what signers look at. */
module ProtocolRules {
  import opened Prelude
  import opened Keys
  import opened MintProtocol
  import opened ProtocolSafety
  import opened ProtocolResults

  // ---- What signers check ----

  /** Position of the log a signer takes: the first native one, or the very first if none is native. */
  ghost predicate Picks(logs: seq<Log>, i: nat) {
    && i < |logs|
    && (if logs[i].native then forall j :: 0 <= j < i ==> !logs[j].native
        else i == 0 && forall j :: 0 <= j < |logs| ==> !logs[j].native)
  }

  lemma {:induction false} FirstLogExactly(logs: seq<Log>)
    ensures FirstLog(logs).None? <==> logs == []
    ensures forall i: nat :: Picks(logs, i) ==> FirstLog(logs) == Some(logs[i])
    ensures logs != [] ==> exists i: nat :: Picks(logs, i)
  {
    if logs != [] {
      var rest := logs[1..];
      FirstLogExactly(rest);
      if logs[0].native || rest == [] {
        assert Picks(logs, 0);
      } else {
        var i: nat :| Picks(rest, i);
        if rest[i].native {
          assert forall j :: 0 <= j < i ==> logs[j + 1] == rest[j];
          assert Picks(logs, i + 1);
        } else {
          assert forall j :: 0 <= j < |rest| ==> logs[j + 1] == rest[j];
          assert Picks(logs, 0);
        }
      }
      forall i: nat | Picks(logs, i) ensures FirstLog(logs) == Some(logs[i]) {
        if i > 0 {
          assert logs[i] == rest[i - 1];
          assert forall j :: 0 <= j < i - 1 ==> rest[j] == logs[j + 1];
          assert Picks(rest, i - 1);
        } else if !logs[0].native && rest != [] {
          var k: nat :| Picks(rest, k);
          assert logs[k + 1] == rest[k];
        }
      }
    }
  }

  /** A signer accepts a row if and only if the log it takes names the amount and the recipient that the
      transaction mints, and the row records that amount; it stops at a recipient it cannot decode,
      and turns down everything else. */
  lemma VerifyExactly(eth: map<string, seq<Log>>, key: string, row: Row, i: nat)
    requires key in eth && Picks(eth[key], i) && row.source.FromEthereum?
    ensures var log, mint := eth[key][i], row.source.mint;
            Verify(eth, key, row) ==
              if log.recipient.None? then Raises
              else if log.recipient == Some(mint.recipient) && mint.amount == log.amount == row.amount then Valid
              else Invalid
  {
    FirstLogExactly(eth[key]);
    hide FirstLog;
  }

  /** Without a receipt that has events, or for a row of the other direction, the check fails. */
  lemma VerifyNothing(eth: map<string, seq<Log>>, key: string, row: Row)
    requires key !in eth || eth[key] == [] || row.source.FromSecret?
    ensures Verify(eth, key, row) == Invalid
  {
  }

  /** A signer's visit to a row it has not signed: it signs the row's own transaction and sequence if the
      row checks out and client and database work; it fails the row if the check or the client says
      no; and it changes nothing if the check raises or the signature is not saved. */
  lemma SignExactly(s: State, key: string, who: string, works: bool, saves: bool)
    requires Is(s, key, Unsigned) && !HasSigned(s, key, who) && s.rows[key].source.FromEthereum?
    ensures var s', row := SignStep(s, key, who, works, saves), s.rows[key];
            var verdict := Verify(s.eth, key, row);
            && (HasSigned(s', key, who) <==> verdict.Valid? && works && saves)
            && (HasSigned(s', key, who) ==>
                  s' == s.(signatures := s.signatures + [Signature(key, who, row.source.mint, row.sequence)]))
            && (Is(s', key, Failed) <==> verdict.Invalid? || (verdict.Valid? && !works))
            && (Is(s', key, Failed) ==> s' == s.(rows := s.rows[key := row.(status := Failed)]))
            && (!HasSigned(s', key, who) && !Is(s', key, Failed) ==> s' == s)
  {
    hide Verify;
    var s' := SignStep(s, key, who, works, saves);
    if s'.signatures != s.signatures {
      var sig := Signature(key, who, s.rows[key].source.mint, s.rows[key].sequence);
      assert s'.signatures[|s.signatures|] == sig && sig in s'.signatures;
    }
  }

  // ---- The manager ----

  /** The event is one the manager makes a row of. */
  predicate Due(cfg: Config, s: State, hash: string, index: nat) {
    && hash in s.eth && index < |s.eth[hash]| && hash !in s.rows
    && s.eth[hash][index].ours && s.eth[hash][index].recipient.Some?
    && (if s.eth[hash][index].native then "native" in cfg.tokens else s.eth[hash][index].token in cfg.tokens)
  }

  /** A due event whose transaction the client can build becomes one unsigned row, for the logged amount
      and recipient, the token paired with its coin and the next sequence number; every other event
      leaves everything as it was, so that one not built this time can be handled later. */
  lemma EventExactly(cfg: Config, s: State, hash: string, index: nat, built: bool)
    ensures var s' := HandleEventStep(cfg, s, hash, index, built);
            if Due(cfg, s, hash, index) && built then
              var log := s.eth[hash][index];
              var coin := if log.native then "native" else log.token;
              && s'.rows == s.rows[hash := Row(FromEthereum(coin, MintTx(log.amount, log.recipient.value, hash,
                                                                         cfg.tokens[coin])),
                                               Unsigned, log.amount, s.sequence, None)]
              && s' == s.(rows := s'.rows, sequence := s.sequence + 1)
            else s' == s
  {
  }

  /** Handling the events of one transaction again, or a second one of them, changes nothing more. */
  lemma EventOnce(cfg: Config, s: State, hash: string, i: nat, j: nat, built: bool)
    requires hash in s.rows
    ensures HandleEventStep(cfg, HandleEventStep(cfg, s, hash, i, built), hash, j, built) == s
  {
  }

  lemma {:induction false} CountOf(signatures: seq<Signature>, key: string)
    ensures |SignaturesOf(signatures, key)| == |set i | 0 <= i < |signatures| && signatures[i].key == key|
  {
    if signatures != [] {
      var n := |signatures| - 1;
      var front := signatures[..n];
      CountOf(front, key);
      var before := set i | 0 <= i < |front| && front[i].key == key;
      var all := set i | 0 <= i < |signatures| && signatures[i].key == key;
      assert |SignaturesOf(signatures, key)| == |SignaturesOf(front, key)| + if signatures[n].key == key then 1 else 0;
      hide SignaturesOf;
      if signatures[n].key == key {
        assert all == before + {n};
      } else {
        assert all == before;
      }
    }
  }

  /** The manager marks a row signed if and only if it is unsigned and as many signatures are stored for
      it as the threshold asks. */
  lemma MarkExactly(cfg: Config, s: State, key: string)
    ensures var s' := MarkSignedStep(cfg, s, key);
            var given := set i | 0 <= i < |s.signatures| && s.signatures[i].key == key;
            if Is(s, key, Unsigned) && |given| >= cfg.threshold
            then s' == s.(rows := s.rows[key := s.rows[key].(status := Signed)])
            else s' == s
  {
    CountOf(s.signatures, key);
    hide SignaturesOf;
  }

  /** A retried row starts over: unsigned under the counter's number, without a signature of its own and
      with everybody else's. */
  lemma RetryExactly(s: State, key: string)
    ensures var s' := RetryRowStep(s, key);
            if Is(s, key, Status.Retry) then
              && s'.rows == s.rows[key := s.rows[key].(status := Unsigned, sequence := s.sequence)]
              && (forall sig :: sig in s'.signatures <==> sig in s.signatures && sig.key != key)
              && (forall other :: other != key ==>
                    SignaturesOf(s'.signatures, other) == SignaturesOf(s.signatures, other))
              && s' == s.(rows := s'.rows, signatures := s'.signatures, sequence := s.sequence + 1)
            else s' == s
  {
    DeletedOk(s.signatures, key);
    forall other | other != key
      ensures SignaturesOf(Deleted(s.signatures, key), other) == SignaturesOf(s.signatures, other)
    {
      DeletedOthers(s.signatures, key, other);
    }
    hide SignaturesOf, Deleted;
  }

  // ---- The leader ----

  /** What a broadcast attempt on a fully signed row does, by how it ends: the row's own transaction goes
      out under its own sequence with its own signatures unless the client refuses. */
  lemma BroadcastExactly(cfg: Config, s: State, key: string, delivery: Delivery)
    requires IsEthereum(s, key, Signed) && |SignaturesOf(s.signatures, key)| >= cfg.threshold
    ensures var s', row, n := BroadcastStep(cfg, s, key, delivery), s.rows[key], |s.broadcasts|;
            && s' == s.(rows := s'.rows, broadcasts := s'.broadcasts)
            && (delivery.Refused? ==> s'.broadcasts == s.broadcasts)
            && (!delivery.Refused? ==>
                  s'.broadcasts == s.broadcasts +
                    [Broadcast(key, row.source.mint, row.sequence, SignaturesOf(s.signatures, key), Pending,
                               delivery.SentUnread?)])
            && s'.rows == match delivery
                          case Sent => s.rows[key := row.(status := Submitted, dst := Some(n))]
                          case SentButNotSaved => s.rows[key := row.(status := Failed, dst := Some(n))]
                          case Refused => s.rows[key := row.(status := Failed)]
                          case SentUnread => s.rows
  {
    hide SignaturesOf;
  }

  /** Sending a row back touches that row and the broadcast it gives up, and no other. */
  lemma SetRetryExactly(s: State, key: string)
    ensures var s' := SetRetryStep(s, key);
            if IsEthereum(s, key, Signed) || IsEthereum(s, key, Submitted) then
              && s'.rows == s.rows[key := s.rows[key].(status := Status.Retry)]
              && s' == s.(rows := s'.rows, broadcasts := s'.broadcasts) && |s'.broadcasts| == |s.broadcasts|
              && (forall i :: 0 <= i < |s.broadcasts| ==>
                    s'.broadcasts[i] == if IsEthereum(s, key, Submitted) && s.rows[key].dst == Some(i)
                                        then s.broadcasts[i].(abandoned := true) else s.broadcasts[i])
            else s' == s
  {
  }

  /** A visit to a submitted row: what becomes of the row, of its broadcast, and of the counter, which is
      read back from the chain exactly when the row fails or is sent back. */
  lemma ValidateExactly(s: State, key: string, reply: Reply)
    requires IsEthereum(s, key, Submitted) && s.rows[key].dst.Some? && s.rows[key].dst.value < |s.broadcasts|
    ensures var s', i := ValidateStep(s, key, reply), s.rows[key].dst.value;
            var state := s.broadcasts[i].state;
            var status := if reply == OnChain && state.Executed? then Confirmed
                          else if reply.Garbled? || (reply.OnChain? && state.Rejected?) then Failed
                          else if reply == Missing(false) then Status.Retry
                          else Submitted;
            && s'.rows == s.rows[key := s.rows[key].(status := status)]
            && s'.sequence == (if status == Failed || status == Status.Retry then s.chainSequence else s.sequence)
            && s'.broadcasts == (if status == Status.Retry then s.broadcasts[i := s.broadcasts[i].(abandoned := true)]
                                 else s.broadcasts)
            && s' == s.(rows := s'.rows, sequence := s'.sequence, broadcasts := s'.broadcasts)
  {
    assert s.rows == s.rows[key := s.rows[key].(status := Submitted)];
  }

  /** The chain executes or rejects a broadcast only while it is pending and its sequence is the account's,
      and moves on by one. */
  lemma ChainExactly(s: State, i: nat, ok: bool)
    ensures var s' := ChainExecuteStep(s, i, ok);
            if i < |s.broadcasts| && s.broadcasts[i].state.Pending? && s.broadcasts[i].sequence == s.chainSequence then
              && s'.chainSequence == s.chainSequence + 1 && |s'.broadcasts| == |s.broadcasts|
              && (forall j :: 0 <= j < |s.broadcasts| ==>
                    s'.broadcasts[j] == if j == i then s.broadcasts[i].(state := if ok then Executed else Rejected)
                                        else s.broadcasts[j])
              && s' == s.(broadcasts := s'.broadcasts, chainSequence := s'.chainSequence)
            else s' == s
  {
  }
}
