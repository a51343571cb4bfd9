/** The workers of the Ethereum-to-Secret direction as the source writes them: threads looping over
    query results and saving rows. Each pass is proved to be a run of protocol actions, so that every
    result of modules ProtocolSafety and ProtocolResults holds through it. */
module Actors {
  import opened Prelude
  import opened MintProtocol

  /** The collections the workers share. */
  class Database {
    var rows: map<string, Row>
    var signatures: seq<Signature>

    method SetStatus(key: string, status: Status)
      requires key in rows
      modifies this`rows
      ensures rows == old(rows)[key := old(rows)[key].(status := status)]
    {
      rows := rows[key := rows[key].(status := status)];
    }

    /** Deletes a row's signatures one document at a time. */
    method DeleteSignatures(key: string)
      modifies this`signatures
      ensures signatures == Deleted(old(signatures), key)
    {
      var all := signatures;
      signatures := [];
      for i := 0 to |all|
        invariant signatures == Deleted(all[..i], key)
      {
        assert all[..i + 1][..i] == all[..i];
        if all[i].key != key {
          signatures := signatures + [all[i]];
        }
      }
      assert all[..|all|] == all;
    }
  }

  /** The multisig account on the Secret chain, as the command-line client sees it. */
  class SecretChain {
    var broadcasts: seq<Broadcast>
    var sequence: nat
  }

  ghost function View(db: Database, manager: SecretManager, chain: SecretChain, eth: map<string, seq<Log>>): State
    reads db, manager, chain
  {
    State(db.rows, db.signatures, manager.sequence, eth, chain.broadcasts, chain.sequence)
  }

  function Retries(keys: seq<string>): seq<Action> {
    seq(|keys|, i requires 0 <= i < |keys| => RetryRow(keys[i]))
  }

  function Marks(keys: seq<string>): seq<Action> {
    seq(|keys|, i requires 0 <= i < |keys| => MarkSigned(keys[i]))
  }

  lemma RunSnoc(cfg: Config, s: State, actions: seq<Action>, i: nat)
    requires i < |actions|
    ensures Run(cfg, s, actions[..i + 1]) == Next(cfg, Run(cfg, s, actions[..i]), actions[i])
  {
    hide Next;
    assert actions[..i + 1][..i] == actions[..i];
  }

  class SecretManager {
    const db: Database
    const chain: SecretChain
    const cfg: Config
    var sequence: nat

    constructor (db: Database, chain: SecretChain, cfg: Config)
      ensures this.db == db && this.chain == chain && this.cfg == cfg && sequence == chain.sequence
    {
      this.db, this.chain, this.cfg := db, chain, cfg;
      sequence := chain.sequence;
    }

    method UpdateSequence(ghost eth: map<string, seq<Log>>)
      modifies this`sequence
      ensures View(db, this, chain, eth) == Next(cfg, old(View(db, this, chain, eth)), Action.UpdateSequence)
    {
      sequence := chain.sequence;
    }

    method Retry(key: string, ghost eth: map<string, seq<Log>>)
      modifies this`sequence, db
      ensures View(db, this, chain, eth) == RetryRowStep(old(View(db, this, chain, eth)), key)
    {
      if key in db.rows && db.rows[key].status == Status.Retry {
        db.DeleteSignatures(key);
        db.rows := db.rows[key := db.rows[key].(status := Unsigned, sequence := sequence)];
        sequence := sequence + 1;
      }
    }

    method CheckSigned(key: string, ghost eth: map<string, seq<Log>>)
      modifies db`rows
      ensures View(db, this, chain, eth) == MarkSignedStep(cfg, old(View(db, this, chain, eth)), key)
    {
      if key in db.rows && db.rows[key].status == Unsigned {
        if |SignaturesOf(db.signatures, key)| >= cfg.threshold {
          db.SetStatus(key, Signed);
        }
      }
    }

    /** One turn of the manager's loop over the rows two queries return. */
    method Scan(retries: seq<string>, unsigned: seq<string>, ghost eth: map<string, seq<Log>>)
      modifies this`sequence, db
      ensures View(db, this, chain, eth) ==
          Run(cfg, old(View(db, this, chain, eth)), Retries(retries) + Marks(unsigned))
    {
      ghost var s0 := View(db, this, chain, eth);
      for i := 0 to |retries|
        invariant View(db, this, chain, eth) == Run(cfg, s0, Retries(retries)[..i])
      {
        hide Run;
        RunSnoc(cfg, s0, Retries(retries), i);
        Retry(retries[i], eth);
      }
      ghost var s1 := View(db, this, chain, eth);
      assert Retries(retries)[..|retries|] == Retries(retries);
      for i := 0 to |unsigned|
        invariant View(db, this, chain, eth) == Run(cfg, s1, Marks(unsigned)[..i])
      {
        hide Run;
        RunSnoc(cfg, s1, Marks(unsigned), i);
        CheckSigned(unsigned[i], eth);
      }
      assert Marks(unsigned)[..|unsigned|] == Marks(unsigned);
      RunAppend(cfg, s0, Retries(retries), Marks(unsigned));
    }

    /** A confirmed Ethereum event; `built` says whether the client could build the transaction. An
        event of the wallet for a coin that is not paired raises an error nobody catches, which ends
        the listener. */
    method Handle(eth: map<string, seq<Log>>, hash: string, index: nat, built: bool) returns (raised: bool)
      requires hash in eth && index < |eth[hash]|
      modifies this`sequence, db`rows
      ensures View(db, this, chain, eth) == HandleEventStep(cfg, old(View(db, this, chain, eth)), hash, index, built)
      ensures var log := eth[hash][index]; raised <==> log.ours && log.recipient.Some? && CoinOf(log) !in cfg.tokens
    {
      var log := eth[hash][index];
      if !log.ours { return false; }
      if log.recipient.None? { return false; }
      var coin := CoinOf(log);
      if coin !in cfg.tokens { return true; }
      raised := false;
      if !built { return; }
      var mint := MintTx(log.amount, log.recipient.value, hash, cfg.tokens[coin]);
      if hash in db.rows { return; }
      db.rows := db.rows[hash := Row(FromEthereum(coin, mint), Unsigned, log.amount, sequence, None)];
      sequence := sequence + 1;
    }
  }

  // ---- The signer ----

  class Secret20Signer {
    const db: Database
    const name: string

    constructor (db: Database, name: string)
      ensures this.db == db && this.name == name
    {
      this.db, this.name := db, name;
    }

    method ValidateAndSign(eth: map<string, seq<Log>>, key: string, cliWorks: bool, saves: bool,
                           ghost manager: SecretManager, ghost chain: SecretChain)
      returns (ok: bool)
      requires manager.db == db
      modifies db
      ensures View(db, manager, chain, eth) == SignStep(old(View(db, manager, chain, eth)), key, name, cliWorks, saves)
      ensures ok == Signs(old(View(db, manager, chain, eth)), key, name, cliWorks, saves)
    {
      if key !in db.rows || db.rows[key].status != Unsigned { return true; }
      if exists sig <- db.signatures :: sig.key == key && sig.signer == name { return true; }
      var row := db.rows[key];
      var verdict := Verify(eth, key, row);
      if verdict.Raises? { return false; }
      if verdict.Invalid? || !cliWorks {
        db.SetStatus(key, Failed);
        return false;
      }
      if !saves { return false; }
      db.signatures := db.signatures + [Signature(key, name, row.source.mint, row.sequence)];
      return true;
    }

    /** One turn over the unsigned rows: the first failure ends the signer's work for this turn; the
        `RETRY` it sets on the rest is never saved. */
    method Scan(cfg: Config, eth: map<string, seq<Log>>, visits: seq<Visit>, ghost manager: SecretManager,
                ghost chain: SecretChain)
      requires manager.db == db
      modifies db
      ensures View(db, manager, chain, eth) == Run(cfg, old(View(db, manager, chain, eth)),
                SignerPass(cfg, old(View(db, manager, chain, eth)), name, visits))
    {
      hide Run, SignStep, Signs, SignerPass;
      ghost var s0 := View(db, manager, chain, eth);
      ghost var done: seq<Action> := [];
      var failed := false;
      assert visits[0..] == visits;
      assert Run(cfg, s0, []) == s0 && [] + SignerPass(cfg, s0, name, visits) == SignerPass(cfg, s0, name, visits) by {
        RunNothing(cfg, s0);
      }
      for i := 0 to |visits|
        invariant View(db, manager, chain, eth) == Run(cfg, s0, done)
        invariant SignerPass(cfg, s0, name, visits) ==
                  if failed then done else done + SignerPass(cfg, View(db, manager, chain, eth), name, visits[i..])
      {
        if !failed {
          ghost var s1 := View(db, manager, chain, eth);
          var v := visits[i];
          SignerPassStep(cfg, s0, s1, done, name, visits, i);
          var ok := ValidateAndSign(eth, v.key, v.cliWorks, v.saves, manager, chain);
          failed := !ok;
          done := done + [Sign(v.key, name, v.cliWorks, v.saves)];
        }
      }
      SignerPassEnd(cfg, View(db, manager, chain, eth), name, visits[|visits|..]);
      assert done + [] == done;
    }
  }

  datatype Visit = Visit(key: string, cliWorks: bool, saves: bool)

  lemma RunNothing(cfg: Config, s: State)
    ensures Run(cfg, s, []) == s
  {
  }

  /** Whether a visit leaves the signer free to go on to the next row. */
  predicate Signs(s: State, key: string, signer: string, cliWorks: bool, saves: bool) {
    !Is(s, key, Unsigned) || HasSigned(s, key, signer)
    || (Verify(s.eth, key, s.rows[key]).Valid? && cliWorks && saves)
  }

  /** A signer's turn as actions: it visits rows in order up to the first failure. */
  function SignerPass(cfg: Config, s: State, signer: string, visits: seq<Visit>): seq<Action>
    decreases |visits|
  {
    if visits == [] then [] else
      var v := visits[0];
      var a := Sign(v.key, signer, v.cliWorks, v.saves);
      if Signs(s, v.key, signer, v.cliWorks, v.saves)
      then [a] + SignerPass(cfg, Next(cfg, s, a), signer, visits[1..]) else [a]
  }

  lemma SignerPassEnd(cfg: Config, s: State, signer: string, visits: seq<Visit>)
    requires visits == []
    ensures SignerPass(cfg, s, signer, visits) == []
  {
  }

  lemma SignerPassStep(cfg: Config, s0: State, s1: State, done: seq<Action>, signer: string, visits: seq<Visit>, i: nat)
    requires i < |visits| && Run(cfg, s0, done) == s1
    requires SignerPass(cfg, s0, signer, visits) == done + SignerPass(cfg, s1, signer, visits[i..])
    ensures var v := visits[i];
            var a := Sign(v.key, signer, v.cliWorks, v.saves);
            var s2 := SignStep(s1, v.key, signer, v.cliWorks, v.saves);
            && Run(cfg, s0, done + [a]) == s2
            && SignerPass(cfg, s0, signer, visits) ==
               if Signs(s1, v.key, signer, v.cliWorks, v.saves)
               then done + [a] + SignerPass(cfg, s2, signer, visits[i + 1..]) else done + [a]
  {
    hide SignStep, Signs;
    var v := visits[i];
    var a := Sign(v.key, signer, v.cliWorks, v.saves);
    assert visits[i..][1..] == visits[i + 1..];
    assert (done + [a])[..|done|] == done;
    var s2 := Next(cfg, s1, a);
    var rest := SignerPass(cfg, s2, signer, visits[i + 1..]);
    assert done + ([a] + rest) == done + [a] + rest;
  }

  // ---- The leader ----

  class Secret20Leader {
    const db: Database
    const chain: SecretChain
    const manager: SecretManager

    constructor (db: Database, chain: SecretChain, manager: SecretManager)
      requires manager.db == db && manager.chain == chain
      ensures this.db == db && this.chain == chain && this.manager == manager
    {
      this.db, this.chain, this.manager := db, chain, manager;
    }

    ghost predicate Wired()
      reads this
    {
      manager.db == db && manager.chain == chain
    }

    /** A reply to a sent broadcast that cannot be read raises an error the leader does not catch. The
        mark on that broadcast is the model's own bookkeeping. */
    method CreateAndBroadcast(key: string, delivery: Delivery, ghost eth: map<string, seq<Log>>)
      returns (ok: bool, raised: bool)
      requires Wired() && key in db.rows && db.rows[key].status == Signed && db.rows[key].source.FromEthereum?
      modifies db`rows, chain`broadcasts
      ensures View(db, manager, chain, eth) ==
          BroadcastStep(manager.cfg, old(View(db, manager, chain, eth)), key, delivery)
      ensures ok == Is(View(db, manager, chain, eth), key, Submitted)
      ensures raised == Escapes(manager.cfg, old(View(db, manager, chain, eth)), key, delivery)
      ensures raised ==> delivery.SentUnread?
    {
      var row := db.rows[key];
      var signatures := SignaturesOf(db.signatures, key);
      if |signatures| < manager.cfg.threshold { return false, false; }
      if delivery.Refused? {
        db.SetStatus(key, Failed);
        return false, false;
      }
      var hash := |chain.broadcasts|;
      chain.broadcasts := chain.broadcasts +
          [Broadcast(key, row.source.mint, row.sequence, signatures, Pending, delivery.SentUnread?)];
      if delivery.SentUnread? { return false, true; }
      if delivery.Sent? {
        db.rows := db.rows[key := row.(status := Submitted, dst := Some(hash))];
        return true, false;
      }
      db.rows := db.rows[key := row.(status := Failed, dst := Some(hash))];
      return false, false;
    }

    /** Saves `RETRY`; the mark on the broadcast given up is the model's own bookkeeping. */
    method SetRetry(key: string, ghost eth: map<string, seq<Log>>)
      requires Wired() && key in db.rows && db.rows[key].source.FromEthereum?
      requires db.rows[key].status == Signed || db.rows[key].status == Submitted
      modifies db`rows, chain`broadcasts
      ensures View(db, manager, chain, eth) == SetRetryStep(old(View(db, manager, chain, eth)), key)
    {
      var row := db.rows[key];
      if row.status == Submitted && row.dst.Some? && row.dst.value < |chain.broadcasts| {
        chain.broadcasts := chain.broadcasts[row.dst.value := chain.broadcasts[row.dst.value].(abandoned := true)];
      }
      db.SetStatus(key, Status.Retry);
    }

    /** The first pass: once a broadcast fails, every later signed row is sent back; an error that is not
        caught ends the leader. */
    method ScanSigned(attempts: seq<Attempt>, ghost eth: map<string, seq<Log>>) returns (alive: bool)
      requires Wired()
      modifies db`rows, chain`broadcasts
      ensures View(db, manager, chain, eth) == Run(manager.cfg, old(View(db, manager, chain, eth)),
                SignedPass(manager.cfg, old(View(db, manager, chain, eth)), attempts, false))
      ensures !alive ==> exists attempt <- attempts :: attempt.delivery.SentUnread?
    {
      hide Run, BroadcastStep, SetRetryStep, SignedPass, Escapes;
      ghost var cfg := manager.cfg;
      ghost var s0 := View(db, manager, chain, eth);
      ghost var done: seq<Action> := [];
      var failedPrev := false;
      RunNothing(cfg, s0);
      assert attempts[0..] == attempts;
      for i := 0 to |attempts|
        invariant View(db, manager, chain, eth) == Run(cfg, s0, done)
        invariant SignedPass(cfg, s0, attempts, false) ==
                  done + SignedPass(cfg, View(db, manager, chain, eth), attempts[i..], failedPrev)
      {
        ghost var s1 := View(db, manager, chain, eth);
        var key := attempts[i].key;
        SignedPassStep(cfg, s0, s1, done, attempts, i, failedPrev);
        if key in db.rows && db.rows[key].status == Signed && db.rows[key].source.FromEthereum? {
          if failedPrev {
            SetRetry(key, eth);
            done := done + [Action.SetRetry(key)];
          } else {
            var ok, raised := CreateAndBroadcast(key, attempts[i].delivery, eth);
            failedPrev := !ok;
            done := done + [BroadcastRow(key, attempts[i].delivery)];
            if raised { return false; }
          }
        }
      }
      SignedPassEnd(cfg, View(db, manager, chain, eth), attempts[|attempts|..], failedPrev);
      assert done + [] == done;
      return true;
    }

    method BroadcastValidation(key: string, reply: Reply, ghost eth: map<string, seq<Log>>) returns (ok: bool)
      requires Wired()
      requires key in db.rows && db.rows[key].status == Submitted && db.rows[key].source.FromEthereum?
      modifies db`rows, chain`broadcasts, manager`sequence
      ensures View(db, manager, chain, eth) == ValidateStep(old(View(db, manager, chain, eth)), key, reply)
      ensures ok == Validates(old(View(db, manager, chain, eth)), key, reply)
    {
      var row := db.rows[key];
      if row.dst.None? || row.dst.value >= |chain.broadcasts| { return true; }
      var onChain := chain.broadcasts[row.dst.value].state;
      if reply.Missing? {
        if reply.young { return true; }
        chain.broadcasts := chain.broadcasts[row.dst.value := chain.broadcasts[row.dst.value].(abandoned := true)];
        db.SetStatus(key, Status.Retry);
        manager.UpdateSequence(eth);
        return false;
      }
      if reply.OnChain? && onChain.Executed? {
        db.SetStatus(key, Confirmed);
        return true;
      }
      if reply.OnChain? && onChain.Pending? { return true; }
      db.SetStatus(key, Failed);
      manager.UpdateSequence(eth);
      return false;
    }

    /** The second pass: once a validation fails, every later submitted row is sent back without a
        look at its transaction. */
    method ScanSubmitted(checks: seq<Check>, ghost eth: map<string, seq<Log>>)
      requires Wired()
      modifies db`rows, chain`broadcasts, manager`sequence
      ensures View(db, manager, chain, eth) == Run(manager.cfg, old(View(db, manager, chain, eth)),
                SubmittedPass(manager.cfg, old(View(db, manager, chain, eth)), checks, false))
    {
      hide Run, ValidateStep, SetRetryStep, SubmittedPass, Validates;
      ghost var cfg := manager.cfg;
      ghost var s0 := View(db, manager, chain, eth);
      ghost var done: seq<Action> := [];
      var failedPrev := false;
      RunNothing(cfg, s0);
      assert checks[0..] == checks;
      for i := 0 to |checks|
        invariant View(db, manager, chain, eth) == Run(cfg, s0, done)
        invariant SubmittedPass(cfg, s0, checks, false) ==
                  done + SubmittedPass(cfg, View(db, manager, chain, eth), checks[i..], failedPrev)
      {
        ghost var s1 := View(db, manager, chain, eth);
        var key := checks[i].key;
        SubmittedPassStep(cfg, s0, s1, done, checks, i, failedPrev);
        if key in db.rows && db.rows[key].status == Submitted && db.rows[key].source.FromEthereum? {
          if failedPrev {
            SetRetry(key, eth);
            done := done + [Action.SetRetry(key)];
          } else {
            var ok := BroadcastValidation(key, checks[i].reply, eth);
            failedPrev := !ok;
            done := done + [ValidateRow(key, checks[i].reply)];
          }
        }
      }
      SubmittedPassEnd(cfg, View(db, manager, chain, eth), checks[|checks|..], failedPrev);
      assert done + [] == done;
    }
  }

  datatype Attempt = Attempt(key: string, delivery: Delivery)

  /** Whether a broadcast attempt ends in an error nobody catches. */
  predicate Escapes(cfg: Config, s: State, key: string, delivery: Delivery) {
    delivery.SentUnread? && |SignaturesOf(s.signatures, key)| >= cfg.threshold
  }

  /** The leader's first pass as actions: broadcast signed rows in order, and after the first failure
      send the rest back, unless an error escapes. */
  function SignedPass(cfg: Config, s: State, attempts: seq<Attempt>, failed: bool): seq<Action>
    decreases |attempts|
  {
    if attempts == [] then []
    else if !IsEthereum(s, attempts[0].key, Signed) then SignedPass(cfg, s, attempts[1..], failed)
    else if failed then
      [SetRetry(attempts[0].key)] + SignedPass(cfg, SetRetryStep(s, attempts[0].key), attempts[1..], true)
    else
      var s' := BroadcastStep(cfg, s, attempts[0].key, attempts[0].delivery);
      [BroadcastRow(attempts[0].key, attempts[0].delivery)] +
      if Escapes(cfg, s, attempts[0].key, attempts[0].delivery) then []
      else SignedPass(cfg, s', attempts[1..], !Is(s', attempts[0].key, Submitted))
  }

  lemma SignedPassEnd(cfg: Config, s: State, attempts: seq<Attempt>, failed: bool)
    requires attempts == []
    ensures SignedPass(cfg, s, attempts, failed) == []
  {
  }

  lemma SignedPassStep(cfg: Config, s0: State, s1: State, done: seq<Action>, attempts: seq<Attempt>, i: nat,
                       failed: bool)
    requires i < |attempts| && Run(cfg, s0, done) == s1
    requires SignedPass(cfg, s0, attempts, false) == done + SignedPass(cfg, s1, attempts[i..], failed)
    ensures var v := attempts[i];
            var whole, rest := SignedPass(cfg, s0, attempts, false), attempts[i + 1..];
            if !IsEthereum(s1, v.key, Signed) then whole == done + SignedPass(cfg, s1, rest, failed)
            else if failed then
              var s2, next := SetRetryStep(s1, v.key), done + [SetRetry(v.key)];
              Run(cfg, s0, next) == s2 && whole == next + SignedPass(cfg, s2, rest, true)
            else
              var s2, next := BroadcastStep(cfg, s1, v.key, v.delivery), done + [BroadcastRow(v.key, v.delivery)];
              && Run(cfg, s0, next) == s2
              && whole == if Escapes(cfg, s1, v.key, v.delivery) then next
                          else next + SignedPass(cfg, s2, rest, !Is(s2, v.key, Submitted))
  {
    hide SetRetryStep, BroadcastStep, Is, Escapes;
    var v, rest := attempts[i], attempts[i + 1..];
    assert attempts[i..][1..] == rest;
    if IsEthereum(s1, v.key, Signed) {
      var a := if failed then SetRetry(v.key) else BroadcastRow(v.key, v.delivery);
      assert (done + [a])[..|done|] == done;
      var tail := SignedPass(cfg, Next(cfg, s1, a), rest, failed || !Is(Next(cfg, s1, a), v.key, Submitted));
      assert done + ([a] + tail) == done + [a] + tail;
    }
  }

  /** Once something failed, the rest of a pass is sent back and nothing more is broadcast. */
  lemma {:induction false} FailedPassOnlyRetries(cfg: Config, s: State, attempts: seq<Attempt>)
    ensures forall a <- SignedPass(cfg, s, attempts, true) :: a.SetRetry?
    decreases |attempts|
  {
    hide IsEthereum, SetRetryStep;
    if attempts != [] {
      if IsEthereum(s, attempts[0].key, Signed) {
        FailedPassOnlyRetries(cfg, SetRetryStep(s, attempts[0].key), attempts[1..]);
      } else {
        FailedPassOnlyRetries(cfg, s, attempts[1..]);
      }
    }
  }

  /** Whether a validation leaves later submitted rows to be looked at. */
  predicate Validates(s: State, key: string, reply: Reply) {
    var s' := ValidateStep(s, key, reply);
    s' == s || Is(s', key, Confirmed)
  }

  datatype Check = Check(key: string, reply: Reply)

  /** The leader's second pass as actions: look at submitted rows in order, and after the first
      failure send the rest back unseen. */
  function SubmittedPass(cfg: Config, s: State, checks: seq<Check>, failed: bool): seq<Action>
    decreases |checks|
  {
    if checks == [] then []
    else if !IsEthereum(s, checks[0].key, Submitted) then SubmittedPass(cfg, s, checks[1..], failed)
    else if failed then
      [SetRetry(checks[0].key)] + SubmittedPass(cfg, SetRetryStep(s, checks[0].key), checks[1..], true)
    else
      [ValidateRow(checks[0].key, checks[0].reply)] +
      SubmittedPass(cfg, ValidateStep(s, checks[0].key, checks[0].reply), checks[1..],
                    !Validates(s, checks[0].key, checks[0].reply))
  }

  lemma SubmittedPassEnd(cfg: Config, s: State, checks: seq<Check>, failed: bool)
    requires checks == []
    ensures SubmittedPass(cfg, s, checks, failed) == []
  {
  }

  lemma SubmittedPassStep(cfg: Config, s0: State, s1: State, done: seq<Action>, checks: seq<Check>, i: nat,
                          failed: bool)
    requires i < |checks| && Run(cfg, s0, done) == s1
    requires SubmittedPass(cfg, s0, checks, false) == done + SubmittedPass(cfg, s1, checks[i..], failed)
    ensures var v := checks[i];
            var whole, rest := SubmittedPass(cfg, s0, checks, false), checks[i + 1..];
            if !IsEthereum(s1, v.key, Submitted) then whole == done + SubmittedPass(cfg, s1, rest, failed)
            else if failed then
              var s2, next := SetRetryStep(s1, v.key), done + [SetRetry(v.key)];
              Run(cfg, s0, next) == s2 && whole == next + SubmittedPass(cfg, s2, rest, true)
            else
              var s2, next := ValidateStep(s1, v.key, v.reply), done + [ValidateRow(v.key, v.reply)];
              Run(cfg, s0, next) == s2 && whole == next + SubmittedPass(cfg, s2, rest, !Validates(s1, v.key, v.reply))
  {
    hide SetRetryStep, ValidateStep, Validates;
    var v, rest := checks[i], checks[i + 1..];
    assert checks[i..][1..] == rest;
    if IsEthereum(s1, v.key, Submitted) {
      var a := if failed then SetRetry(v.key) else ValidateRow(v.key, v.reply);
      assert (done + [a])[..|done|] == done;
      var tail := SubmittedPass(cfg, Next(cfg, s1, a), rest, failed || !Validates(s1, v.key, v.reply));
      assert done + ([a] + tail) == done + [a] + tail;
    }
  }
}
