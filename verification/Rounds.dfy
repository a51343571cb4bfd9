/** Rounds of the Ethereum-to-Secret protocol that go through undisturbed: any number of signers sign a
    row, and it is marked, broadcast and executed. Existence results are built from them. */
module Rounds {
  import opened Prelude
  import opened Keys
  import opened MintProtocol
  import PS = ProtocolSafety

  /** Signers named by their number. */
  function Signings(key: string, k: nat): seq<Action> {
    seq(k, j requires 0 <= j < k => Sign(key, Decimal(j), true, true))
  }

  function Given(key: string, row: Row, k: nat): seq<Signature>
    requires row.source.FromEthereum?
  {
    seq(k, j requires 0 <= j < k => Signature(key, Decimal(j), row.source.mint, row.sequence))
  }

  /** A row nobody has signed yet, which signers will accept. */
  ghost predicate Open(cfg: Config, s: State, key: string) {
    && IsEthereum(s, key, Unsigned)
    && (cfg.threshold > 0 ==> Verify(s.eth, key, s.rows[key]).Valid?)
    && (forall sig <- s.signatures :: sig.key != key)
  }

  lemma {:induction false} SignAll(cfg: Config, s: State, key: string, k: nat)
    requires Open(cfg, s, key) && k <= cfg.threshold
    ensures Run(cfg, s, Signings(key, k)) == s.(signatures := s.signatures + Given(key, s.rows[key], k))
  {
    hide Verify, FirstLog, Decimal;
    if k == 0 {
      assert s.signatures + Given(key, s.rows[key], 0) == s.signatures;
    } else {
      SignAll(cfg, s, key, k - 1);
      assert Signings(key, k)[..k - 1] == Signings(key, k - 1);
      SignNext(cfg, s, key, k - 1);
    }
  }

  lemma SignNext(cfg: Config, s: State, key: string, k: nat)
    requires Open(cfg, s, key) && k < cfg.threshold
    ensures Next(cfg, s.(signatures := s.signatures + Given(key, s.rows[key], k)), Sign(key, Decimal(k), true, true)) ==
            s.(signatures := s.signatures + Given(key, s.rows[key], k + 1))
  {
    hide Verify, FirstLog, Decimal;
    var row := s.rows[key];
    var given := Given(key, row, k);
    var s1 := s.(signatures := s.signatures + given);
    forall sig | sig in s1.signatures && sig.key == key ensures sig.signer != Decimal(k) {
      assert sig in given;
      var j :| 0 <= j < k && given[j] == sig;
      if Decimal(j) == Decimal(k) {
        DecimalInjective(j, k);
      }
    }
    var sig := Signature(key, Decimal(k), row.source.mint, row.sequence);
    assert Next(cfg, s1, Sign(key, Decimal(k), true, true)) == s1.(signatures := s1.signatures + [sig]);
    assert given + [sig] == Given(key, row, k + 1);
    assert s.signatures + given + [sig] == s.signatures + (given + [sig]);
  }

  lemma {:induction false} NoneOf(signatures: seq<Signature>, key: string)
    requires forall sig <- signatures :: sig.key != key
    ensures SignaturesOf(signatures, key) == []
  {
    if signatures != [] {
      NoneOf(signatures[..|signatures| - 1], key);
    }
  }

  lemma {:induction false} OwnAreGiven(signatures: seq<Signature>, key: string, row: Row, k: nat)
    requires row.source.FromEthereum? && forall sig <- signatures :: sig.key != key
    ensures SignaturesOf(signatures + Given(key, row, k), key) == Given(key, row, k)
  {
    hide Decimal;
    if k == 0 {
      NoneOf(signatures, key);
      assert signatures + Given(key, row, 0) == signatures;
    } else {
      OwnAreGiven(signatures, key, row, k - 1);
      var before, given := Given(key, row, k - 1), Given(key, row, k);
      assert given == before + [given[k - 1]];
      PS.SignaturesOfSnoc(signatures + before, given[k - 1], key);
      assert signatures + given == signatures + before + [given[k - 1]];
    }
  }

  function Round(key: string, k: nat, index: nat): seq<Action> {
    Signings(key, k) + [MarkSigned(key), BroadcastRow(key, Sent), ChainExecute(index, true)]
  }

  /** What an undisturbed round leaves: the row submitted as one more broadcast, which is executed. */
  function Minted(cfg: Config, s: State, key: string): State
    requires key in s.rows && s.rows[key].source.FromEthereum?
  {
    var row, n, given := s.rows[key], |s.broadcasts|, Given(key, s.rows[key], cfg.threshold);
    s.(rows := s.rows[key := row.(status := Submitted, dst := Some(n))], signatures := s.signatures + given,
       broadcasts := s.broadcasts + [Broadcast(key, row.source.mint, row.sequence, given, Executed, false)],
       chainSequence := s.chainSequence + 1)
  }

  lemma RunThree(cfg: Config, s: State, a: Action, b: Action, c: Action)
    ensures Run(cfg, s, [a, b, c]) == Next(cfg, Next(cfg, Next(cfg, s, a), b), c)
  {
    hide Next;
    assert [a][..0] == [] && [a, b][..1] == [a] && [a, b, c][..2] == [a, b];
    assert Run(cfg, s, [a]) == Next(cfg, s, a);
    assert Run(cfg, s, [a, b]) == Next(cfg, Next(cfg, s, a), b);
  }

  /** A row fully signed under the chain's sequence. */
  lemma SentRound(cfg: Config, s: State, key: string)
    requires IsEthereum(s, key, Unsigned) && s.rows[key].sequence == s.chainSequence
    requires |SignaturesOf(s.signatures, key)| >= cfg.threshold
    ensures var n, row := |s.broadcasts|, s.rows[key];
            Next(cfg, Next(cfg, Next(cfg, s, MarkSigned(key)), BroadcastRow(key, Sent)), ChainExecute(n, true)) ==
            s.(rows := s.rows[key := row.(status := Submitted, dst := Some(n))],
               broadcasts := s.broadcasts + [Assembled(s, key).(state := Executed)],
               chainSequence := s.chainSequence + 1)
  {
    hide SignaturesOf;
    var n, row := |s.broadcasts|, s.rows[key];
    var s1 := Next(cfg, s, MarkSigned(key));
    var s2 := Next(cfg, s1, BroadcastRow(key, Sent));
    var b := Assembled(s, key);
    assert s2.broadcasts == s.broadcasts + [b];
    assert s2.rows == s.rows[key := row.(status := Submitted, dst := Some(n))];
    assert (s.broadcasts + [b])[n := b.(state := Executed)] == s.broadcasts + [b.(state := Executed)];
  }

  /** An open row under the chain's current sequence goes through, whatever the threshold. */
  lemma RoundMints(cfg: Config, s: State, key: string)
    requires Open(cfg, s, key) && s.rows[key].sequence == s.chainSequence
    ensures Run(cfg, s, Round(key, cfg.threshold, |s.broadcasts|)) == Minted(cfg, s, key)
  {
    hide Next, Run, Verify, SignaturesOf, Given, Signings;
    var n, k := |s.broadcasts|, cfg.threshold;
    SignAll(cfg, s, key, k);
    OwnAreGiven(s.signatures, key, s.rows[key], k);
    GivenLength(key, s.rows[key], k);
    var s1 := Run(cfg, s, Signings(key, k));
    RunAppend(cfg, s, Signings(key, k), [MarkSigned(key), BroadcastRow(key, Sent), ChainExecute(n, true)]);
    RunThree(cfg, s1, MarkSigned(key), BroadcastRow(key, Sent), ChainExecute(n, true));
    SentRound(cfg, s1, key);
  }

  lemma GivenLength(key: string, row: Row, k: nat)
    requires row.source.FromEthereum?
    ensures |Given(key, row, k)| == k
  {
  }

  // ---- A deposit arriving ----

  function Arrive(hash: string, log: Log): seq<Action> {
    [Mine(hash, [log]), UpdateSequence, HandleEvent(hash, 0, true)]
  }

  /** A log the manager turns into a row. */
  predicate Payable(cfg: Config, log: Log) {
    log.ours && log.recipient.Some? && CoinOf(log) in cfg.tokens
  }

  /** A deposit under a new hash becomes an open row under the chain's sequence, and nothing else
      changes. */
  lemma Arrives(cfg: Config, s: State, hash: string, log: Log)
    requires IsHash(hash) && hash !in s.eth && hash !in s.rows && Payable(cfg, log)
    requires forall sig <- s.signatures :: sig.key != hash
    ensures var mint := MintTx(log.amount, log.recipient.value, hash, cfg.tokens[CoinOf(log)]);
            var s' := Run(cfg, s, Arrive(hash, log));
            && s' == s.(eth := s.eth[hash := [log]], sequence := s.chainSequence + 1,
                        rows := s.rows[hash := Row(FromEthereum(CoinOf(log), mint), Unsigned, log.amount,
                                                   s.chainSequence, None)])
            && Open(cfg, s', hash)
  {
    assert FirstLog([log]) == Some(log) by {
      assert [log][1..] == [];
    }
    RunThree(cfg, s, Mine(hash, [log]), UpdateSequence, HandleEvent(hash, 0, true));
    hide Run, FirstLog;
  }
}
