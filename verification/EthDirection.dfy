/** The Secret-to-Ethereum direction: the leader turns swap records into submissions to the Ethereum
    wallet, one nonce after another, and the signers check each submission against the record. */
module EthDirection {
  import opened Prelude
  import opened Keys
  import P = MintProtocol

  /** A swap record as the Secret contract's query reports it; the token is spelled as a string. */
  datatype SwapRecord = SwapRecord(nonce: nat, token: string, destination: Destination, amount: nat)

  datatype EthToken = Native | Erc20(contract: nat)

  /** Call data of a submission: none, an ERC-20 `transfer` or `transferFrom`, or anything else. */
  datatype Data =
    | NoData
    | TransferCall(recipient: nat, amount: nat)
    | TransferFromCall(source: nat, recipient: nat, amount: nat)
    | Opaque

  datatype Submission = Submission(dest: nat, amount: nat, nonce: nat, token: EthToken, fee: nat, data: Data)

  // ---- The leader's submission ----

  datatype Built = Submit(submission: Submission) | TooLow | Raises

  /** For a native coin the wallet pays the amount itself; for a token it calls the token's
      `transfer`, whose arguments are encoded before the fee is checked, so that an amount below
      the fee raises instead of being turned down. */
  function Build(r: SwapRecord, dst: EthToken, fee: nat): Built {
    if r.destination.Garbage? then Raises
    else
      match dst
      case Native =>
        if r.amount > fee then Submit(Submission(r.destination.account, r.amount - fee, r.nonce, Native, fee, NoData))
        else TooLow
      case Erc20(c) =>
        if r.amount < fee then Raises
        else if r.amount > fee then
          Submit(Submission(c, 0, r.nonce, dst, fee, TransferCall(r.destination.account, r.amount - fee)))
        else TooLow
  }

  // ---- The signer's check ----

  /** To whom and how much a submission pays, read the way the signer reads it: from the call data
      if there are any and no ether is sent, and then from whichever call names a recipient and an
      amount. Other call data raise. */
  function Decode(sub: Submission): Option<(nat, nat)> {
    if sub.amount == 0 && !sub.data.NoData? then
      if sub.data.Opaque? then None else Some((sub.data.recipient, sub.data.amount))
    else Some((sub.dest, sub.amount))
  }

  /** The coin a submission pays in: that of the contract it calls, or else ether. */
  function Asset(sub: Submission): EthToken {
    if sub.amount == 0 && !sub.data.NoData? then Erc20(sub.dest) else Native
  }

  function Paid(sub: Submission): nat {
    match Decode(sub) case Some((_, amount)) => amount case None => 0
  }

  /** Addresses are compared in checksum form, that is, as accounts. */
  predicate Validates(r: SwapRecord, sub: Submission) {
    match Decode(sub)
    case None => false
    case Some((dest, amount)) =>
      r.amount == amount + sub.fee && r.destination.EthAddress? && r.destination.account == dest
  }

  /** Whether the coin a submission pays in is the one it names: for ether, unless it is only a call;
      for a token, if it is only a call on that token's contract. */
  lemma AssetIsNamed(sub: Submission)
    ensures Asset(sub) == sub.token <==>
            match sub.token
            case Native => sub.amount != 0 || sub.data.NoData?
            case Erc20(c) => sub.amount == 0 && !sub.data.NoData? && sub.dest == c
  {
  }

  /** What executing a submission takes from the wallet in a coin, besides the fee: the ether sent and
      the amount a call transfers on the coin's contract. Other calls are taken to move nothing. */
  function Takes(sub: Submission, coin: EthToken): nat {
    match coin
    case Native => sub.amount
    case Erc20(c) => if sub.dest == c then Called(sub) else 0
  }

  /** The amount of the token transfer among the call data. */
  function Called(sub: Submission): nat {
    if sub.data.TransferCall? || sub.data.TransferFromCall? then sub.data.amount else 0
  }

  /** The submission takes what the signers read, in the coin it names, and nothing else. */
  ghost predicate TakesWhatItSays(sub: Submission) {
    forall coin :: Takes(sub, coin) == if coin == sub.token then Paid(sub) else 0
  }

  /** No call on any contract beside ether, and no ether or call elsewhere beside a token. */
  predicate Fits(sub: Submission) {
    match sub.token
    case Native => Called(sub) == 0
    case Erc20(c) => sub.amount == 0 && (sub.dest == c || Called(sub) == 0)
  }

  /** The exact condition for a submission to pay in the coin under which it is booked. */
  lemma FitsExactly(sub: Submission)
    ensures TakesWhatItSays(sub) <==> Fits(sub)
  {
    if TakesWhatItSays(sub) {
      assert Takes(sub, Native) == if sub.token.Native? then Paid(sub) else 0;
      assert Takes(sub, Erc20(sub.dest)) == if Erc20(sub.dest) == sub.token then Paid(sub) else 0;
    }
  }

  /** The signers' check does not imply it: for every record worth more than the fee and every token
      contract, a submission under the record's own coin that pays in that contract's token instead
      passes the check. */
  lemma CheckMissesCoin(r: SwapRecord, fee: nat, contract: nat)
    requires r.destination.EthAddress? && r.amount > fee
    ensures var sub := Elsewhere(r, fee, contract);
            && Validates(r, sub) && sub.token == Native && Asset(sub) == Erc20(contract)
            && Takes(sub, Native) == 0 && Takes(sub, Erc20(contract)) == r.amount - fee && !Fits(sub)
  {
  }

  function Elsewhere(r: SwapRecord, fee: nat, contract: nat): Submission
    requires r.destination.EthAddress? && r.amount > fee
  {
    Submission(contract, 0, r.nonce, Native, fee, TransferCall(r.destination.account, r.amount - fee))
  }

  /** For every record and either kind of token, what the leader submits passes the signer's check
      against the same record and pays in the coin it names, and it submits exactly when the amount
      exceeds the fee. */
  lemma LeaderAndSignerAgree(r: SwapRecord, dst: EthToken, fee: nat)
    ensures Build(r, dst, fee).Submit? <==> r.destination.EthAddress? && r.amount > fee
    ensures match Build(r, dst, fee)
            case Submit(sub) => && Validates(r, sub) && Paid(sub) > 0
                                && sub.nonce == r.nonce && sub.token == dst && sub.fee == fee
                                && Asset(sub) == dst && Fits(sub)
            case _ => true
  {
  }

  /** Whatever passes the check, whoever submitted it, pays out and charges together exactly the
      amount burned, to the account that was asked for. */
  lemma ValidatedPaysBurned(r: SwapRecord, sub: Submission)
    requires Validates(r, sub)
    ensures Paid(sub) + sub.fee == r.amount
    ensures Decode(sub).Some? && r.destination == EthAddress(Decode(sub).value.0, r.destination.spelling)
  {
  }

  // ---- Scanning for swaps ----

  /** The shared rows and the leader's tracker, which holds the last nonce handled per token. */
  datatype Desk = Desk(proto: P.State, trackers: map<string, int>)

  /** Where a visit may be cut short: not at all, before the row is saved, or before the tracker is. */
  datatype Crash = NoCrash | BeforeRow | BeforeTracker

  function Tracker(d: Desk, token: string): int {
    if token in d.trackers then d.trackers[token] else -1
  }

  /** One visit to a token: ask for the next nonce, handle the record, advance the tracker. A row
      that is already there is left alone. */
  function ScanStep(d: Desk, token: string, reply: Option<SwapRecord>, dst: EthToken, fee: nat, sent: bool,
                    crash: Crash)
    : Desk
  {
    var d1 := d.(trackers := d.trackers[token := Tracker(d, token)]);
    if reply.None? || crash.BeforeRow? then d1 else
      match Build(reply.value, dst, fee)
      case Raises => d1
      case built =>
        var d2 := d1.(proto := P.InsertSecretStep(d.proto, reply.value.token, reply.value.nonce, reply.value.amount,
                                                  built.Submit? && sent));
        if crash.BeforeTracker? then d2 else d2.(trackers := d2.trackers[token := Tracker(d, token) + 1])
  }

  predicate Answers(d: Desk, token: string, reply: Option<SwapRecord>) {
    reply.Some? ==> reply.value.nonce == Tracker(d, token) + 1 && reply.value.token == token
  }

  /** Every nonce the tracker has passed has its row. */
  ghost predicate Complete(d: Desk) {
    forall token <- d.trackers ::
      d.trackers[token] >= -1 && forall n: nat :: n <= d.trackers[token] ==> SwapKey(n, token) in d.proto.rows
  }

  lemma ScanKeepsComplete(d: Desk, token: string, reply: Option<SwapRecord>, dst: EthToken, fee: nat, sent: bool,
                          crash: Crash)
    requires Complete(d) && Answers(d, token, reply)
    ensures Complete(ScanStep(d, token, reply, dst, fee, sent, crash))
  {
    hide SwapKey, Build;
    var d' := ScanStep(d, token, reply, dst, fee, sent, crash);
    assert d.proto.rows.Keys <= d'.proto.rows.Keys;
  }

  /** No protocol action removes a row. */
  lemma ActionKeepsRows(cfg: P.Config, s: P.State, a: P.Action)
    ensures s.rows.Keys <= P.Next(cfg, s, a).rows.Keys
  {
    hide SwapKey, P.SignaturesOf, P.Deleted, P.Verify;
  }

  lemma ActionKeepsComplete(cfg: P.Config, d: Desk, a: P.Action)
    requires Complete(d)
    ensures Complete(d.(proto := P.Next(cfg, d.proto, a)))
  {
    hide P.Next, SwapKey;
    ActionKeepsRows(cfg, d.proto, a);
  }

  /** An uninterrupted visit that gets a well-addressed record passes it, except for a token whose
      amount is below the fee: there the tracker stays. */
  lemma ScanAdvances(d: Desk, token: string, r: SwapRecord, dst: EthToken, fee: nat, sent: bool)
    requires r.destination.EthAddress?
    ensures Tracker(ScanStep(d, token, Some(r), dst, fee, sent, NoCrash), token) ==
            Tracker(d, token) + if dst.Erc20? && r.amount < fee then 0 else 1
  {
    hide SwapKey;
  }
}
