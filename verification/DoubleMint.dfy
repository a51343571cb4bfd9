/** A run of the Ethereum-to-Secret protocol that mints one deposit twice: the swap contract does not
    remember identifiers, so a broadcast given up too early is minted again. */
module DoubleMint {
  import opened Prelude
  import opened MintProtocol
  import opened Rounds
  import Keys
  import PR = ProtocolResults

  /** One deposit, whose executed broadcast the client once fails to find: it is retried, and both
      broadcasts mint. */
  function LostReply(hash: string, log: Log, threshold: nat): seq<Action> {
    Arrive(hash, log) + Round(hash, threshold, 0) + Forget(hash) + Round(hash, threshold, 1)
  }

  function Forget(hash: string): seq<Action> {
    [ValidateRow(hash, Missing(false)), UpdateSequence, RetryRow(hash)]
  }

  /** The executed broadcast is not found, and the row starts over under the next sequence. */
  lemma Forgotten(cfg: Config, s: State, hash: string)
    requires IsEthereum(s, hash, Submitted) && s.rows[hash].dst == Some(0) && |s.broadcasts| == 1
    requires forall sig <- s.signatures :: sig.key == hash
    ensures Run(cfg, s, Forget(hash)) ==
            s.(rows := s.rows[hash := s.rows[hash].(status := Unsigned, sequence := s.chainSequence)], signatures := [],
               sequence := s.chainSequence + 1, broadcasts := [s.broadcasts[0].(abandoned := true)])
  {
    hide Run;
    RunThree(cfg, s, ValidateRow(hash, Missing(false)), UpdateSequence, RetryRow(hash));
    var s1 := Next(cfg, s, ValidateRow(hash, Missing(false)));
    assert s1.broadcasts == [s.broadcasts[0].(abandoned := true)];
    AllDeleted(s.signatures, hash);
    hide Deleted;
    var s2 := Next(cfg, Next(cfg, s1, UpdateSequence), RetryRow(hash));
    assert s2.rows == s.rows[hash := s.rows[hash].(status := Unsigned, sequence := s.chainSequence)];
  }

  lemma {:induction false} AllDeleted(signatures: seq<Signature>, key: string)
    requires forall sig <- signatures :: sig.key == key
    ensures Deleted(signatures, key) == []
  {
    if signatures != [] {
      AllDeleted(signatures[..|signatures| - 1], key);
    }
  }

  lemma GivenAre(key: string, row: Row, k: nat)
    requires row.source.FromEthereum?
    ensures forall sig <- Given(key, row, k) :: sig.key == key
  {
  }

  lemma TwoMints(bs: seq<Broadcast>, hash: string)
    requires |bs| == 2 && forall b <- bs :: b.key == hash && b.state.Executed?
    ensures PR.Mints(bs, hash) == 2
  {
    assert bs[..1][..0] == [];
    assert PR.Mints(bs[..1], hash) == 1;
  }

  /** For any deposit of a paired coin and any number of signatures required, a single missing reply
      is enough for a second mint. */
  lemma LostReplyMintsTwice(cfg: Config, chainSequence: nat, hash: string, log: Log)
    requires Keys.IsHash(hash) && Payable(cfg, log)
    ensures PR.Mints(Run(cfg, Init(chainSequence), LostReply(hash, log, cfg.threshold)).broadcasts, hash) == 2
  {
    hide Next, Run, PR.Mints, Given, Round, Arrive, Forget, FirstLog;
    var s0, k := Init(chainSequence), cfg.threshold;
    var first := Arrive(hash, log) + Round(hash, k, 0);
    RunAppend(cfg, s0, first + Forget(hash), Round(hash, k, 1));
    RunAppend(cfg, s0, first, Forget(hash));
    RunAppend(cfg, s0, Arrive(hash, log), Round(hash, k, 0));
    Arrives(cfg, s0, hash, log);
    var s1 := Run(cfg, s0, Arrive(hash, log));
    RoundMints(cfg, s1, hash);
    var s2 := Run(cfg, s0, first);
    GivenAre(hash, s1.rows[hash], k);
    assert s2.signatures == Given(hash, s1.rows[hash], k);
    Forgotten(cfg, s2, hash);
    var s3 := Run(cfg, s2, Forget(hash));
    assert Verify(s3.eth, hash, s3.rows[hash]) == Verify(s1.eth, hash, s1.rows[hash]);
    hide Verify;
    RoundMints(cfg, s3, hash);
    TwoMints(Run(cfg, s3, Round(hash, k, 1)).broadcasts, hash);
  }
}
