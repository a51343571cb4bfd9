/** What a visit of the Ethereum leader saves and what becomes of it: rows, their statuses and their
    settlement by the wallet's events. */
module EthRules {
  import opened Prelude
  import opened Keys
  import opened EthDirection
  import opened EthWorkers
  import P = MintProtocol
  import R = ProtocolResults

  /** The leader raises on a destination that is no address and on a token amount below the fee, turns
      down an amount that just covers the fee or less, and submits everything else. */
  lemma BuildExactly(r: SwapRecord, dst: EthToken, fee: nat)
    ensures Build(r, dst, fee).Raises? <==> r.destination.Garbage? || (dst.Erc20? && r.amount < fee)
    ensures Build(r, dst, fee).Submit? <==> r.destination.EthAddress? && r.amount > fee
    ensures Build(r, dst, fee).Submit? ==>
              var sub := Build(r, dst, fee).submission;
              && sub.nonce == r.nonce && sub.token == dst && sub.fee == fee
              && Takes(sub, dst) == r.amount - fee && (forall coin :: coin != dst ==> Takes(sub, coin) == 0)
              && Decode(sub) == Some((r.destination.account, r.amount - fee))
  {
  }

  /** The row of a record: submitted exactly if the amount exceeds the fee and the submission was sent. */
  function SavedRow(r: SwapRecord, fee: nat, sent: bool): P.Row {
    P.Row(P.FromSecret(r.token, r.nonce), if r.amount > fee && sent then P.Submitted else P.Failed, r.amount, 0, None)
  }

  /** The record is handled: the destination is an address and encoding does not raise. */
  predicate Handled(r: SwapRecord, dst: EthToken, fee: nat) {
    r.destination.EthAddress? && (dst.Native? || r.amount >= fee)
  }

  /** A visit that gets a record handles it: it saves the record's row under the record's own key unless
      that key is taken, touches nothing else, and passes the record. Cut short before the row is saved
      it does nothing; cut short after that it keeps the row and not the step. */
  lemma VisitExactly(d: Desk, token: string, r: SwapRecord, dst: EthToken, fee: nat, sent: bool, crash: Crash)
    requires Handled(r, dst, fee)
    ensures var d', key := ScanStep(d, token, Some(r), dst, fee, sent, crash), SwapKey(r.nonce, r.token);
            && d'.proto.rows == (if crash.BeforeRow? || key in d.proto.rows then d.proto.rows
                                 else d.proto.rows[key := SavedRow(r, fee, sent)])
            && d'.proto == d.proto.(rows := d'.proto.rows)
            && Tracker(d', token) == Tracker(d, token) + (if crash.NoCrash? then 1 else 0)
            && (forall other :: other != token ==> Tracker(d', other) == Tracker(d, other))
  {
    hide SwapKey;
  }

  /** A visit that gets no record, or one that raises, changes no row and passes nothing. */
  lemma VisitNothing(d: Desk, token: string, reply: Option<SwapRecord>, dst: EthToken, fee: nat, sent: bool,
                     crash: Crash)
    requires reply.Some? ==> !Handled(reply.value, dst, fee)
    ensures var d' := ScanStep(d, token, reply, dst, fee, sent, crash);
            d'.proto == d.proto && forall any :: Tracker(d', any) == Tracker(d, any)
  {
    hide SwapKey;
  }

  /** From the record to its end: a new record whose submission was sent is settled by the first event the
      wallet emits for it, confirmed by a `Withdraw` and failed by a `WithdrawFailure`, whatever other
      events come before and after; one that could not be submitted stays failed. */
  lemma WithdrawSettles(d: Desk, token: string, r: SwapRecord, dst: EthToken, fee: nat, sent: bool,
                        results: seq<R.Result>)
    requires Handled(r, dst, fee) && SwapKey(r.nonce, r.token) !in d.proto.rows
    ensures var key := SwapKey(r.nonce, r.token);
            var s := R.Confirm(ScanStep(d, token, Some(r), dst, fee, sent, NoCrash).proto, results);
            && key in s.rows
            && s.rows[key] == SavedRow(r, fee, sent).(status :=
                 if !(r.amount > fee && sent) then P.Failed
                 else match R.FirstResult(results, key)
                      case None => P.Submitted
                      case Some(success) => if success then P.Confirmed else P.Failed)
  {
    hide SwapKey, R.Confirm, R.FirstResult, ScanStep;
    VisitExactly(d, token, r, dst, fee, sent, NoCrash);
    R.FirstResultWins(ScanStep(d, token, Some(r), dst, fee, sent, NoCrash).proto, results);
  }

  ghost predicate Earliest(results: seq<R.Result>, i: int, nonce: nat, token: string) {
    && 0 <= i < |results| && results[i].nonce == nonce && results[i].token == token
    && (forall j :: 0 <= j < i ==> results[j].nonce != nonce || results[j].token != token)
  }

  /** The first result of a row is the earliest one that names its nonce and token. */
  lemma {:induction false} FirstResultExactly(results: seq<R.Result>, nonce: nat, token: string)
    ensures R.FirstResult(results, SwapKey(nonce, token)).None? <==>
              forall r <- results :: r.nonce != nonce || r.token != token
    ensures forall i :: Earliest(results, i, nonce, token) ==>
              R.FirstResult(results, SwapKey(nonce, token)) == Some(results[i].success)
  {
    hide SwapKey;
    if results != [] {
      var first, rest := results[0], results[1..];
      assert results == [first] + rest;
      FirstResultExactly(rest, nonce, token);
      if SwapKey(first.nonce, first.token) == SwapKey(nonce, token) {
        SwapKeyInjective(first.nonce, first.token, nonce, token);
      } else {
        forall i | Earliest(results, i, nonce, token)
          ensures R.FirstResult(results, SwapKey(nonce, token)) == Some(results[i].success)
        {
          assert rest[i - 1] == results[i];
          assert forall j :: 0 <= j < i - 1 ==> rest[j] == results[j + 1];
          assert Earliest(rest, i - 1, nonce, token);
        }
      }
    }
  }

  /** The confirmer notes a nonce if and only if its event settles a row, under the event's token. */
  lemma NotedExactly(s: P.State, confirmed: map<string, nat>, r: R.Result)
    ensures var s' := P.SetResultStep(s, r.token, r.nonce, r.success);
            && Noted(s, confirmed, r) == (if s'.rows != s.rows then confirmed[r.token := r.nonce] else confirmed)
            && (s'.rows != s.rows <==> P.Is(s, SwapKey(r.nonce, r.token), P.Submitted))
  {
    hide SwapKey;
    var key := SwapKey(r.nonce, r.token);
    if P.Is(s, key, P.Submitted) {
      assert P.SetResultStep(s, r.token, r.nonce, r.success).rows[key] != s.rows[key];
    }
  }

  /** A visit ends the leader if and only if it is interrupted or gets a record it cannot handle. */
  lemma EndsExactly(look: Look)
    ensures Ends(look) <==> !look.crash.NoCrash? || (look.reply.Some? && !Handled(look.reply.value, look.dst, look.fee))
  {
  }

  /** What comes after a visit that ends the leader does not matter. */
  lemma {:induction false} ScannedStops(d: Desk, looks: seq<Look>, k: nat)
    requires k < |looks| && Ends(looks[k])
    ensures Scanned(d, looks) == Scanned(d, looks[..k + 1])
    decreases |looks|
  {
    hide ScanStep, Ends;
    assert looks[..k + 1][0] == looks[0] && looks[..k + 1][1..] == looks[1..][..k];
    if !Ends(looks[0]) {
      var first := looks[0];
      var d1 := ScanStep(d, first.token, first.reply, first.dst, first.fee, first.sent, first.crash);
      ScannedStops(d1, looks[1..], k - 1);
    }
  }
}
