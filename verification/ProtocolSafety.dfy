/** Invariants of the Ethereum-to-Secret protocol over every interleaving. */
module ProtocolSafety {
  import opened Prelude
  import opened Keys
  import opened MintProtocol

  // ---- The invariant ----

  /** Some log of the wallet in transaction `key` deposits what the row mints. */
  ghost predicate Deposited(cfg: Config, eth: map<string, seq<Log>>, key: string, row: Row) {
    && row.source.FromEthereum? && key in eth
    && row.source.coin in cfg.tokens && row.source.mint.token == cfg.tokens[row.source.coin]
    && row.source.mint.hash == key && row.source.mint.amount == row.amount
    && exists log <- eth[key] :: Backs(log, row)
  }

  predicate Backs(log: Log, row: Row)
    requires row.source.FromEthereum?
  {
    log.ours && CoinOf(log) == row.source.coin && log.amount == row.source.mint.amount
    && log.recipient == Some(row.source.mint.recipient)
  }

  ghost predicate RowOk(cfg: Config, s: State, key: string)
    requires key in s.rows
  {
    match s.rows[key].source
    case FromSecret(t, n) => key == SwapKey(n, t)
        && (Is(s, key, Submitted) || Is(s, key, Confirmed) || Is(s, key, Failed))
    case FromEthereum(_, _) => IsHash(key) && Deposited(cfg, s.eth, key, s.rows[key])
  }

  predicate Ready(status: Status) {
    status.Signed? || status.Submitted? || status.Confirmed?
  }

  /** The row's broadcast is there, is its own and is not given up. */
  ghost predicate HasBroadcast(s: State, key: string)
    requires key in s.rows
  {
    var dst := s.rows[key].dst;
    && dst.Some? && dst.value < |s.broadcasts|
    && s.broadcasts[dst.value].key == key && !s.broadcasts[dst.value].abandoned
    && (s.rows[key].status.Confirmed? ==> s.broadcasts[dst.value].state.Executed?)
  }

  ghost predicate ProgressOk(cfg: Config, s: State, key: string)
    requires key in s.rows
  {
    s.rows[key].source.FromEthereum? ==>
      && (Ready(s.rows[key].status) ==> |SignaturesOf(s.signatures, key)| >= cfg.threshold)
      && (s.rows[key].status.Submitted? || s.rows[key].status.Confirmed? ==> HasBroadcast(s, key))
  }

  /** The signature is over its row's current transaction and sequence, and was given because the
      row agrees with the chain. */
  ghost predicate SignatureOk(s: State, sig: Signature) {
    && sig.key in s.rows && s.rows[sig.key].source.FromEthereum?
    && sig.mint == s.rows[sig.key].source.mint && sig.sequence == s.rows[sig.key].sequence
    && Verify(s.eth, sig.key, s.rows[sig.key]).Valid?
  }

  ghost predicate DistinctSigners(signatures: seq<Signature>) {
    forall i, j :: 0 <= i < j < |signatures| && signatures[i].key == signatures[j].key ==>
                     signatures[i].signer != signatures[j].signer
  }

  /** Enough signatures of different signers, all on one transaction and sequence. */
  ghost predicate Authorizes(cfg: Config, signatures: seq<Signature>, key: string, mint: MintTx, sequence: nat) {
    && |signatures| >= cfg.threshold
    && (forall i, j :: 0 <= i < j < |signatures| ==> signatures[i].signer != signatures[j].signer)
    && (forall sig <- signatures :: sig.key == key && sig.mint == mint && sig.sequence == sequence)
  }

  ghost predicate BroadcastOk(cfg: Config, s: State, i: nat)
    requires i < |s.broadcasts|
  {
    var b := s.broadcasts[i];
    && b.key in s.rows && s.rows[b.key].source.FromEthereum? && b.mint == s.rows[b.key].source.mint
    && Authorizes(cfg, b.signatures, b.key, b.mint, b.sequence)
    && (!b.abandoned ==> Is(s, b.key, Submitted) || Is(s, b.key, Confirmed) || Is(s, b.key, Failed))
  }

  ghost predicate OneLive(broadcasts: seq<Broadcast>) {
    forall i, j :: 0 <= i < j < |broadcasts| && !broadcasts[i].abandoned && !broadcasts[j].abandoned ==>
                     broadcasts[i].key != broadcasts[j].key
  }

  ghost predicate Inv(cfg: Config, s: State) {
    && (forall key <- s.rows :: RowOk(cfg, s, key))
    && (forall key <- s.rows :: ProgressOk(cfg, s, key))
    && (forall i :: 0 <= i < |s.signatures| ==> SignatureOk(s, s.signatures[i]))
    && DistinctSigners(s.signatures)
    && (forall i :: 0 <= i < |s.broadcasts| ==> BroadcastOk(cfg, s, i))
    && OneLive(s.broadcasts)
    && (forall h <- s.eth :: IsHash(h))
  }

  // ---- Signature lists ----

  lemma {:induction false} SignaturesOfOk(cfg: Config, s: State, sigs: seq<Signature>, key: string)
    requires sigs <= s.signatures && key in s.rows && s.rows[key].source.FromEthereum?
    requires forall i :: 0 <= i < |s.signatures| ==> SignatureOk(s, s.signatures[i])
    requires DistinctSigners(s.signatures)
    ensures var own := SignaturesOf(sigs, key);
            && (forall sig <- own :: sig in sigs && sig.key == key && sig.mint == s.rows[key].source.mint
                                     && sig.sequence == s.rows[key].sequence)
            && (forall i, j :: 0 <= i < j < |own| ==> own[i].signer != own[j].signer)
  {
    hide Verify;
    if sigs != [] {
      var n := |sigs| - 1;
      var front, last := sigs[..n], sigs[n];
      SignaturesOfOk(cfg, s, front, key);
      assert last == s.signatures[n] && SignatureOk(s, s.signatures[n]);
      if last.key == key {
        var own := SignaturesOf(front, key);
        forall i | 0 <= i < |own| ensures own[i].signer != last.signer {
          assert own[i] in front;
          var j :| 0 <= j < n && front[j] == own[i];
          assert s.signatures[j] == own[i];
        }
      }
    }
  }

  lemma {:induction false} DeletedOk(sigs: seq<Signature>, key: string)
    ensures forall sig :: sig in Deleted(sigs, key) <==> sig in sigs && sig.key != key
    ensures DistinctSigners(sigs) ==> DistinctSigners(Deleted(sigs, key))
  {
    if sigs != [] {
      var n := |sigs| - 1;
      var front, last := sigs[..n], sigs[n];
      assert sigs == front + [last];
      DeletedOk(front, key);
      if DistinctSigners(sigs) {
        var kept := Deleted(front, key);
        forall i | 0 <= i < |kept| && kept[i].key == last.key ensures kept[i].signer != last.signer {
          assert kept[i] in front;
          var j :| 0 <= j < n && front[j] == kept[i];
          assert sigs[j] == kept[i];
        }
      }
    }
  }

  lemma {:induction false} DeletedOthers(sigs: seq<Signature>, key: string, other: string)
    requires other != key
    ensures SignaturesOf(Deleted(sigs, key), other) == SignaturesOf(sigs, other)
  {
    if sigs != [] {
      var front, last := sigs[..|sigs| - 1], sigs[|sigs| - 1];
      DeletedOthers(front, key, other);
      var kept := Deleted(front, key);
      if last.key != key {
        assert (kept + [last])[..|kept|] == kept;
      } else {
        assert kept + [] == kept;
      }
    }
  }

  lemma SignaturesOfSnoc(sigs: seq<Signature>, sig: Signature, key: string)
    ensures SignaturesOf(sigs + [sig], key) == SignaturesOf(sigs, key) + if sig.key == key then [sig] else []
  {
    assert (sigs + [sig])[..|sigs|] == sigs;
  }

  // ---- Every action keeps the invariant ----

  lemma RowFact(cfg: Config, s: State, key: string)
    requires Inv(cfg, s) && key in s.rows
    ensures RowOk(cfg, s, key) && ProgressOk(cfg, s, key)
  {
  }

  lemma SignatureFact(cfg: Config, s: State, i: nat)
    requires Inv(cfg, s) && i < |s.signatures|
    ensures SignatureOk(s, s.signatures[i])
  {
  }

  lemma BroadcastFact(cfg: Config, s: State, i: nat)
    requires Inv(cfg, s) && i < |s.broadcasts|
    ensures BroadcastOk(cfg, s, i)
  {
  }

  lemma GlobalFacts(cfg: Config, s: State)
    requires Inv(cfg, s)
    ensures DistinctSigners(s.signatures) && OneLive(s.broadcasts) && (forall h <- s.eth :: IsHash(h))
  {
  }

  lemma InvIntro(cfg: Config, s: State)
    requires forall key <- s.rows :: RowOk(cfg, s, key) && ProgressOk(cfg, s, key)
    requires forall i :: 0 <= i < |s.signatures| ==> SignatureOk(s, s.signatures[i])
    requires forall i :: 0 <= i < |s.broadcasts| ==> BroadcastOk(cfg, s, i)
    requires DistinctSigners(s.signatures) && OneLive(s.broadcasts) && (forall h <- s.eth :: IsHash(h))
    ensures Inv(cfg, s)
  {
  }

  /** A signature stays right while its row keeps transaction, amount and sequence. */
  lemma SignatureKept(s: State, sig: Signature, s': State)
    requires SignatureOk(s, sig) && sig.key in s'.rows
    requires var row, row' := s.rows[sig.key], s'.rows[sig.key];
             row'.source == row.source && row'.amount == row.amount && row'.sequence == row.sequence
    requires sig.key in s.eth ==> sig.key in s'.eth && s'.eth[sig.key] == s.eth[sig.key]
    ensures SignatureOk(s', sig)
  {
  }

  /** A broadcast stays right while its row keeps the transaction and it is live only when the row
      is past broadcasting. */
  lemma BroadcastKept(cfg: Config, s: State, i: nat, s': State)
    requires i < |s.broadcasts| && BroadcastOk(cfg, s, i) && i < |s'.broadcasts|
    requires var b, b' := s.broadcasts[i], s'.broadcasts[i];
             && b' == b.(state := b'.state, abandoned := b'.abandoned)
             && b.key in s'.rows && s'.rows[b.key].source == s.rows[b.key].source
             && (!b'.abandoned ==> Is(s', b.key, Submitted) || Is(s', b.key, Confirmed) || Is(s', b.key, Failed))
    ensures BroadcastOk(cfg, s', i)
  {
    hide Authorizes;
  }

  /** A row untouched by an action, with the same receipts, signatures and broadcast. */
  lemma RowKept(cfg: Config, s: State, key: string, s': State)
    requires key in s.rows && RowOk(cfg, s, key) && ProgressOk(cfg, s, key)
    requires key in s'.rows && s'.rows[key] == s.rows[key]
    requires key in s.eth ==> key in s'.eth && s'.eth[key] == s.eth[key]
    requires |SignaturesOf(s'.signatures, key)| >= |SignaturesOf(s.signatures, key)|
    requires HasBroadcast(s, key) ==> HasBroadcast(s', key)
    ensures RowOk(cfg, s', key) && ProgressOk(cfg, s', key)
  {
    hide SignaturesOf, HasBroadcast;
  }

  /** A status a row may take: it has what the status needs, and a live broadcast keeps it among
      the submitted, confirmed and failed ones. */
  ghost predicate MayBecome(cfg: Config, s: State, key: string, status: Status)
    requires key in s.rows
  {
    var settled := status.Submitted? || status.Confirmed? || status.Failed?;
    && (s.rows[key].source.FromSecret? ==> settled)
    && (s.rows[key].source.FromEthereum? ==>
          && (Ready(status) ==> |SignaturesOf(s.signatures, key)| >= cfg.threshold)
          && (status.Submitted? || status.Confirmed? ==> HasBroadcast(SetStatus(s, key, status), key))
          && (settled || NoLive(s, key)))
  }

  ghost predicate NoLive(s: State, key: string) {
    forall i :: 0 <= i < |s.broadcasts| && s.broadcasts[i].key == key ==> s.broadcasts[i].abandoned
  }

  lemma SetStatusOk(cfg: Config, s: State, key: string, status: Status)
    requires Inv(cfg, s) && key in s.rows && MayBecome(cfg, s, key, status)
    ensures Inv(cfg, SetStatus(s, key, status))
  {
    hide Inv, SignatureOk, BroadcastOk, OneLive, DistinctSigners, SignaturesOf;
    var s' := SetStatus(s, key, status);
    GlobalFacts(cfg, s);
    forall k | k in s'.rows ensures RowOk(cfg, s', k) && ProgressOk(cfg, s', k) {
      RowFact(cfg, s, k);
    }
    forall i | 0 <= i < |s'.signatures| ensures SignatureOk(s', s'.signatures[i]) {
      SignatureFact(cfg, s, i);
      OfEthereum(s, s.signatures[i]);
      SignatureKept(s, s.signatures[i], s');
    }
    forall i | 0 <= i < |s'.broadcasts| ensures BroadcastOk(cfg, s', i) {
      BroadcastFact(cfg, s, i);
      BroadcastStatus(cfg, s, i);
      BroadcastKept(cfg, s, i, s');
    }
    InvIntro(cfg, s');
  }

  lemma OfEthereum(s: State, sig: Signature)
    requires SignatureOk(s, sig)
    ensures sig.key in s.rows && s.rows[sig.key].source.FromEthereum?
  {
    hide Verify;
  }

  lemma BroadcastStatus(cfg: Config, s: State, i: nat)
    requires i < |s.broadcasts| && BroadcastOk(cfg, s, i)
    ensures var b := s.broadcasts[i];
            && b.key in s.rows && s.rows[b.key].source.FromEthereum?
            && (!b.abandoned ==> Is(s, b.key, Submitted) || Is(s, b.key, Confirmed) || Is(s, b.key, Failed))
  {
    hide Authorizes;
  }

  /** A row that is neither submitted nor settled has no live broadcast. */
  lemma Unsubmitted(cfg: Config, s: State, key: string)
    requires Inv(cfg, s) && key in s.rows
    requires !Is(s, key, Submitted) && !Is(s, key, Confirmed) && !Is(s, key, Failed)
    ensures NoLive(s, key) && s.rows[key].source.FromEthereum?
  {
    hide Inv, Authorizes;
    RowFact(cfg, s, key);
    forall i | 0 <= i < |s.broadcasts| && s.broadcasts[i].key == key ensures s.broadcasts[i].abandoned {
      BroadcastFact(cfg, s, i);
    }
  }

  lemma MineOk(cfg: Config, s: State, h: string, logs: seq<Log>)
    requires Inv(cfg, s)
    ensures Inv(cfg, Next(cfg, s, Mine(h, logs)))
  {
    hide Inv, SignatureOk, BroadcastOk, OneLive, DistinctSigners, SignaturesOf, ProgressOk, RowOk;
    var s' := Next(cfg, s, Mine(h, logs));
    if s' != s {
      GlobalFacts(cfg, s);
      OthersKept(cfg, s, s', {});
    }
  }

  /** Rows outside `touched` are as before; what is left to check is the touched ones, whose
      signatures and broadcasts are either gone or still right. */
  lemma OthersKept(cfg: Config, s: State, s': State, touched: set<string>)
    requires Inv(cfg, s)
    requires forall k <- s.rows :: k in s'.rows && s'.rows[k].source == s.rows[k].source
    requires forall k <- s'.rows :: k !in touched ==> k in s.rows && s'.rows[k] == s.rows[k]
    requires forall k <- s.eth :: k in s'.eth && s'.eth[k] == s.eth[k]
    requires s'.signatures == s.signatures && s'.broadcasts == s.broadcasts
    requires forall k <- touched :: k in s'.rows ==>
      && RowOk(cfg, s', k) && ProgressOk(cfg, s', k) && k !in s.rows
    requires forall h <- s'.eth :: IsHash(h)
    ensures Inv(cfg, s')
  {
    hide Inv, SignatureOk, BroadcastOk, OneLive, DistinctSigners, SignaturesOf, ProgressOk, RowOk;
    GlobalFacts(cfg, s);
    forall k | k in s'.rows ensures RowOk(cfg, s', k) && ProgressOk(cfg, s', k) {
      if k !in touched {
        RowFact(cfg, s, k);
        RowKept(cfg, s, k, s');
      }
    }
    forall i | 0 <= i < |s'.signatures| ensures SignatureOk(s', s'.signatures[i]) {
      SignatureFact(cfg, s, i);
      OfEthereum(s, s.signatures[i]);
      SignatureKept(s, s.signatures[i], s');
    }
    forall i | 0 <= i < |s'.broadcasts| ensures BroadcastOk(cfg, s', i) {
      BroadcastFact(cfg, s, i);
      BroadcastStatus(cfg, s, i);
      BroadcastKept(cfg, s, i, s');
    }
    InvIntro(cfg, s');
  }

  /** A row under a new key disturbs no other. */
  lemma InsertOk(cfg: Config, s: State, key: string, row: Row, sequence: nat)
    requires Inv(cfg, s) && key !in s.rows
    requires var s' := s.(rows := s.rows[key := row], sequence := sequence);
             RowOk(cfg, s', key) && ProgressOk(cfg, s', key)
    ensures Inv(cfg, s.(rows := s.rows[key := row], sequence := sequence))
  {
    hide Inv, OneLive, DistinctSigners, SignaturesOf, ProgressOk, RowOk;
    GlobalFacts(cfg, s);
    OthersKept(cfg, s, s.(rows := s.rows[key := row], sequence := sequence), {key});
  }

  lemma HandleEventOk(cfg: Config, s: State, h: string, i: nat, built: bool)
    requires Inv(cfg, s)
    ensures Inv(cfg, HandleEventStep(cfg, s, h, i, built))
  {
    var s' := HandleEventStep(cfg, s, h, i, built);
    if s' != s {
      assert Backs(s.eth[h][i], s'.rows[h]);
      InsertOk(cfg, s, h, s'.rows[h], s'.sequence);
    }
  }

  lemma InsertSecretOk(cfg: Config, s: State, t: string, n: nat, amount: nat, submitted: bool)
    requires Inv(cfg, s)
    ensures Inv(cfg, InsertSecretStep(s, t, n, amount, submitted))
  {
    var s' := InsertSecretStep(s, t, n, amount, submitted);
    if s' != s {
      InsertOk(cfg, s, SwapKey(n, t), s'.rows[SwapKey(n, t)], s.sequence);
    }
  }

  lemma RetryRowOk(cfg: Config, s: State, key: string)
    requires Inv(cfg, s)
    ensures Inv(cfg, RetryRowStep(s, key))
  {
    hide Inv, SignatureOk, BroadcastOk, OneLive, DistinctSigners, SignaturesOf, Deleted, HasBroadcast;
    var s' := RetryRowStep(s, key);
    if Is(s, key, Retry) {
      Unsubmitted(cfg, s, key);
      GlobalFacts(cfg, s);
      DeletedOk(s.signatures, key);
      forall k | k in s'.rows ensures RowOk(cfg, s', k) && ProgressOk(cfg, s', k) {
        RowFact(cfg, s, k);
        if k != key {
          DeletedOthers(s.signatures, key, k);
          BroadcastsSame(s, k, s');
          RowKept(cfg, s, k, s');
        }
      }
      forall i | 0 <= i < |s'.signatures| ensures SignatureOk(s', s'.signatures[i]) {
        assert s'.signatures[i] in s.signatures;
        var j :| 0 <= j < |s.signatures| && s.signatures[j] == s'.signatures[i];
        SignatureFact(cfg, s, j);
        OfEthereum(s, s.signatures[j]);
        SignatureKept(s, s.signatures[j], s');
      }
      forall i | 0 <= i < |s'.broadcasts| ensures BroadcastOk(cfg, s', i) {
        BroadcastFact(cfg, s, i);
        BroadcastStatus(cfg, s, i);
        BroadcastKept(cfg, s, i, s');
      }
      InvIntro(cfg, s');
    }
  }

  lemma BroadcastsSame(s: State, key: string, s': State)
    requires key in s.rows && key in s'.rows && s'.rows[key] == s.rows[key] && s'.broadcasts == s.broadcasts
    ensures HasBroadcast(s, key) <==> HasBroadcast(s', key)
  {
  }

  lemma SignOk(cfg: Config, s: State, key: string, who: string, works: bool, saves: bool)
    requires Inv(cfg, s)
    ensures Inv(cfg, SignStep(s, key, who, works, saves))
  {
    hide Inv;
    var s' := SignStep(s, key, who, works, saves);
    if s'.signatures != s.signatures {
      SignatureAdded(cfg, s, key, who);
    } else if s' != s {
      SetStatusOk(cfg, s, key, Failed);
    }
  }

  lemma SignatureAdded(cfg: Config, s: State, key: string, who: string)
    requires Inv(cfg, s) && Is(s, key, Unsigned) && !HasSigned(s, key, who) && Verify(s.eth, key, s.rows[key]).Valid?
    requires s.rows[key].source.FromEthereum?
    ensures Inv(cfg, s.(signatures := s.signatures +
                        [Signature(key, who, s.rows[key].source.mint, s.rows[key].sequence)]))
  {
    hide Inv, BroadcastOk, OneLive, SignaturesOf, HasBroadcast, Verify;
    var sig := Signature(key, who, s.rows[key].source.mint, s.rows[key].sequence);
    var s' := s.(signatures := s.signatures + [sig]);
    GlobalFacts(cfg, s);
    forall k | k in s'.rows ensures RowOk(cfg, s', k) && ProgressOk(cfg, s', k) {
      RowFact(cfg, s, k);
      SignaturesOfSnoc(s.signatures, sig, k);
      BroadcastsSame(s, k, s');
      RowKept(cfg, s, k, s');
    }
    forall i | 0 <= i < |s'.signatures| ensures SignatureOk(s', s'.signatures[i]) {
      if i < |s.signatures| {
        SignatureFact(cfg, s, i);
        SignatureKept(s, s.signatures[i], s');
      }
    }
    forall i | 0 <= i < |s.signatures| && s.signatures[i].key == key ensures s.signatures[i].signer != who {
      assert s.signatures[i] in s.signatures;
    }
    forall i | 0 <= i < |s'.broadcasts| ensures BroadcastOk(cfg, s', i) {
      BroadcastFact(cfg, s, i);
      BroadcastStatus(cfg, s, i);
      BroadcastKept(cfg, s, i, s');
    }
    InvIntro(cfg, s');
  }

  lemma BroadcastStepOk(cfg: Config, s: State, key: string, delivery: Delivery)
    requires Inv(cfg, s)
    ensures Inv(cfg, BroadcastStep(cfg, s, key, delivery))
  {
    hide Inv, SignaturesOf;
    var s' := BroadcastStep(cfg, s, key, delivery);
    if s' != s {
      if delivery.Refused? {
        SetStatusOk(cfg, s, key, Failed);
      } else if delivery.SentUnread? {
        UnreadAdded(cfg, s, key);
      } else {
        BroadcastAdded(cfg, s, key, s'.rows[key].status);
      }
    }
  }

  lemma BroadcastAdded(cfg: Config, s: State, key: string, status: Status)
    requires Inv(cfg, s) && IsEthereum(s, key, Signed) && (status.Submitted? || status.Failed?)
    requires |SignaturesOf(s.signatures, key)| >= cfg.threshold
    ensures var row := s.rows[key];
            var b := Broadcast(key, row.source.mint, row.sequence, SignaturesOf(s.signatures, key), Pending, false);
            Inv(cfg, s.(broadcasts := s.broadcasts + [b],
                        rows := s.rows[key := row.(status := status, dst := Some(|s.broadcasts|))]))
  {
    hide Inv, SignatureOk, SignaturesOf, DistinctSigners;
    var row, n := s.rows[key], |s.broadcasts|;
    var b := Broadcast(key, row.source.mint, row.sequence, SignaturesOf(s.signatures, key), Pending, false);
    var s' := s.(broadcasts := s.broadcasts + [b], rows := s.rows[key := row.(status := status, dst := Some(n))]);
    GlobalFacts(cfg, s);
    Unsubmitted(cfg, s, key);
    OwnSignatures(cfg, s, key);
    forall k | k in s'.rows ensures RowOk(cfg, s', k) && ProgressOk(cfg, s', k) {
      RowFact(cfg, s, k);
      if k != key {
        RowKept(cfg, s, k, s');
      }
    }
    forall i | 0 <= i < |s'.signatures| ensures SignatureOk(s', s'.signatures[i]) {
      SignatureFact(cfg, s, i);
      OfEthereum(s, s.signatures[i]);
      SignatureKept(s, s.signatures[i], s');
    }
    forall i | 0 <= i < |s'.broadcasts| ensures BroadcastOk(cfg, s', i) {
      hide Authorizes;
      if i < n {
        BroadcastFact(cfg, s, i);
        BroadcastKept(cfg, s, i, s');
      }
    }
    InvIntro(cfg, s');
  }

  /** A broadcast its row never learned of counts as given up. */
  lemma UnreadAdded(cfg: Config, s: State, key: string)
    requires Inv(cfg, s) && IsEthereum(s, key, Signed) && |SignaturesOf(s.signatures, key)| >= cfg.threshold
    ensures var row := s.rows[key];
            var b := Broadcast(key, row.source.mint, row.sequence, SignaturesOf(s.signatures, key), Pending, true);
            Inv(cfg, s.(broadcasts := s.broadcasts + [b]))
  {
    hide Inv, SignatureOk, SignaturesOf, DistinctSigners;
    var row, n := s.rows[key], |s.broadcasts|;
    var b := Broadcast(key, row.source.mint, row.sequence, SignaturesOf(s.signatures, key), Pending, true);
    var s' := s.(broadcasts := s.broadcasts + [b]);
    GlobalFacts(cfg, s);
    OwnSignatures(cfg, s, key);
    forall k | k in s'.rows ensures RowOk(cfg, s', k) && ProgressOk(cfg, s', k) {
      RowFact(cfg, s, k);
      RowKept(cfg, s, k, s');
    }
    forall i | 0 <= i < |s'.signatures| ensures SignatureOk(s', s'.signatures[i]) {
      SignatureFact(cfg, s, i);
      OfEthereum(s, s.signatures[i]);
      SignatureKept(s, s.signatures[i], s');
    }
    forall i | 0 <= i < |s'.broadcasts| ensures BroadcastOk(cfg, s', i) {
      hide Authorizes;
      if i < n {
        BroadcastFact(cfg, s, i);
        BroadcastStatus(cfg, s, i);
        BroadcastKept(cfg, s, i, s');
      }
    }
    InvIntro(cfg, s');
  }

  /** A row's signatures authorize its current transaction once there are enough of them. */
  lemma OwnSignatures(cfg: Config, s: State, key: string)
    requires Inv(cfg, s) && key in s.rows && s.rows[key].source.FromEthereum?
    ensures |SignaturesOf(s.signatures, key)| >= cfg.threshold ==>
              Authorizes(cfg, SignaturesOf(s.signatures, key), key, s.rows[key].source.mint, s.rows[key].sequence)
  {
    SignaturesOfOk(cfg, s, s.signatures, key);
  }

  lemma AbandonedOk(cfg: Config, s: State, key: string)
    requires Inv(cfg, s) && IsEthereum(s, key, Submitted)
    ensures Inv(cfg, SetStatus(Abandon(s, key), key, Retry))
  {
    hide Inv, SignatureOk, SignaturesOf, DistinctSigners;
    var s' := SetStatus(Abandon(s, key), key, Retry);
    GlobalFacts(cfg, s);
    RowFact(cfg, s, key);
    var dst := s.rows[key].dst.value;
    forall k | k in s'.rows ensures RowOk(cfg, s', k) && ProgressOk(cfg, s', k) {
      RowFact(cfg, s, k);
      if k != key {
        RowKept(cfg, s, k, s');
      }
    }
    forall i | 0 <= i < |s'.signatures| ensures SignatureOk(s', s'.signatures[i]) {
      SignatureFact(cfg, s, i);
      OfEthereum(s, s.signatures[i]);
      SignatureKept(s, s.signatures[i], s');
    }
    forall i | 0 <= i < |s'.broadcasts| ensures BroadcastOk(cfg, s', i) {
      hide Authorizes;
      BroadcastFact(cfg, s, i);
      if i != dst && s.broadcasts[i].key == key {
        assert s.broadcasts[i].abandoned;
      }
      BroadcastKept(cfg, s, i, s');
    }
    InvIntro(cfg, s');
  }

  lemma SequenceOk(cfg: Config, s: State, sequence: nat)
    requires Inv(cfg, s)
    ensures Inv(cfg, s.(sequence := sequence))
  {
    hide Inv, OneLive, DistinctSigners, SignaturesOf, ProgressOk, RowOk;
    GlobalFacts(cfg, s);
    OthersKept(cfg, s, s.(sequence := sequence), {});
  }

  lemma SetRetryOk(cfg: Config, s: State, key: string)
    requires Inv(cfg, s)
    ensures Inv(cfg, SetRetryStep(s, key))
  {
    if IsEthereum(s, key, Submitted) {
      AbandonedOk(cfg, s, key);
    } else if IsEthereum(s, key, Signed) {
      Unsubmitted(cfg, s, key);
      SetStatusOk(cfg, s, key, Retry);
    }
  }

  lemma ValidateOk(cfg: Config, s: State, key: string, reply: Reply)
    requires Inv(cfg, s)
    ensures Inv(cfg, ValidateStep(s, key, reply))
  {
    hide Inv;
    var s' := ValidateStep(s, key, reply);
    if s' != s {
      if reply.Missing? {
        AbandonedOk(cfg, s, key);
        SequenceOk(cfg, SetStatus(Abandon(s, key), key, Retry), s.chainSequence);
      } else {
        Settles(cfg, s, key, s'.rows[key].status);
        SequenceOk(cfg, SetStatus(s, key, s'.rows[key].status), s'.sequence);
      }
    }
  }

  /** A submitted row may fail, and may be confirmed once its broadcast has been executed. */
  lemma Settles(cfg: Config, s: State, key: string, status: Status)
    requires Inv(cfg, s) && IsEthereum(s, key, Submitted) && s.rows[key].dst.Some?
        && s.rows[key].dst.value < |s.broadcasts|
    requires status.Failed? || (status.Confirmed? && s.broadcasts[s.rows[key].dst.value].state.Executed?)
    ensures Inv(cfg, SetStatus(s, key, status))
  {
    RowFact(cfg, s, key);
    SetStatusOk(cfg, s, key, status);
  }

  lemma ChainExecuteOk(cfg: Config, s: State, index: nat, ok: bool)
    requires Inv(cfg, s)
    ensures Inv(cfg, ChainExecuteStep(s, index, ok))
  {
    hide Inv, SignatureOk, SignaturesOf, DistinctSigners;
    var s' := ChainExecuteStep(s, index, ok);
    if s' != s {
      GlobalFacts(cfg, s);
      forall k | k in s'.rows ensures RowOk(cfg, s', k) && ProgressOk(cfg, s', k) {
        RowFact(cfg, s, k);
        RowKept(cfg, s, k, s');
      }
      forall i | 0 <= i < |s'.signatures| ensures SignatureOk(s', s'.signatures[i]) {
        SignatureFact(cfg, s, i);
        OfEthereum(s, s.signatures[i]);
        SignatureKept(s, s.signatures[i], s');
      }
      forall i | 0 <= i < |s'.broadcasts| ensures BroadcastOk(cfg, s', i) {
        hide Authorizes;
        BroadcastFact(cfg, s, i);
        BroadcastKept(cfg, s, i, s');
      }
      InvIntro(cfg, s');
    }
  }

  lemma SetResultOk(cfg: Config, s: State, t: string, n: nat, success: bool)
    requires Inv(cfg, s)
    ensures Inv(cfg, SetResultStep(s, t, n, success))
  {
    var key := SwapKey(n, t);
    if Is(s, key, Submitted) {
      SwapKeyIsNoHash(n, t);
      RowFact(cfg, s, key);
      SetStatusOk(cfg, s, key, if success then Confirmed else Failed);
    }
  }

  lemma MarkSignedOk(cfg: Config, s: State, key: string)
    requires Inv(cfg, s)
    ensures Inv(cfg, MarkSignedStep(cfg, s, key))
  {
    if MarkSignedStep(cfg, s, key) != s {
      Unsubmitted(cfg, s, key);
      SetStatusOk(cfg, s, key, Signed);
    }
  }

  lemma NextOk(cfg: Config, s: State, a: Action)
    requires Inv(cfg, s)
    ensures Inv(cfg, Next(cfg, s, a))
  {
    hide Inv, HandleEventStep, RetryRowStep, MarkSignedStep, SignStep, BroadcastStep, SetRetryStep, ValidateStep,
         ChainExecuteStep, InsertSecretStep, SetResultStep;
    match a {
      case Mine(h, logs) => MineOk(cfg, s, h, logs);
      case HandleEvent(h, i, built) => HandleEventOk(cfg, s, h, i, built);
      case RetryRow(k) => RetryRowOk(cfg, s, k);
      case MarkSigned(k) => MarkSignedOk(cfg, s, k);
      case Sign(k, who, works, saves) => SignOk(cfg, s, k, who, works, saves);
      case BroadcastRow(k, d) => BroadcastStepOk(cfg, s, k, d);
      case SetRetry(k) => SetRetryOk(cfg, s, k);
      case ValidateRow(k, r) => ValidateOk(cfg, s, k, r);
      case UpdateSequence => SequenceOk(cfg, s, s.chainSequence);
      case ChainExecute(i, ok) => ChainExecuteOk(cfg, s, i, ok);
      case InsertSecret(t, n, amount, submitted) => InsertSecretOk(cfg, s, t, n, amount, submitted);
      case SetResult(t, n, success) => SetResultOk(cfg, s, t, n, success);
    }
  }

  lemma {:induction false} RunOk(cfg: Config, chainSequence: nat, actions: seq<Action>)
    ensures Inv(cfg, Run(cfg, Init(chainSequence), actions))
  {
    hide Next;
    if actions != [] {
      RunOk(cfg, chainSequence, actions[..|actions| - 1]);
      NextOk(cfg, Run(cfg, Init(chainSequence), actions[..|actions| - 1]), actions[|actions| - 1]);
    }
  }

  /** Some interleaving of actions leads from the start to this state. */
  ghost predicate Reachable(cfg: Config, s: State) {
    exists chainSequence, actions :: s == Run(cfg, Init(chainSequence), actions)
  }

  lemma ReachableOk(cfg: Config, s: State)
    requires Reachable(cfg, s)
    ensures Inv(cfg, s)
  {
    var chainSequence, actions :| s == Run(cfg, Init(chainSequence), actions);
    RunOk(cfg, chainSequence, actions);
  }
}
