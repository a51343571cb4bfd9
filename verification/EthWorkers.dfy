/** The workers of the Secret-to-Ethereum direction as the source writes them: the leader's scan, the
    signer, the confirmer and the event listener. */
module EthWorkers {
  import opened Prelude
  import opened Keys
  import opened EthDirection
  import P = MintProtocol
  import A = Actors
  import R = ProtocolResults

  /** The tracker documents: the leader's per token, and the confirmer's under names of their own. */
  class TrackerStore {
    var nonces: map<string, int>
    var confirmed: map<string, nat>
  }

  ghost function DeskOf(db: A.Database, trackers: TrackerStore, s: P.State): Desk
    reads db, trackers
  {
    Desk(s.(rows := db.rows), trackers.nonces)
  }

  class EtherLeader {
    const db: A.Database
    const trackers: TrackerStore

    constructor (db: A.Database, trackers: TrackerStore)
      ensures this.db == db && this.trackers == trackers
    {
      this.db, this.trackers := db, trackers;
    }

    method SaveSwap(r: SwapRecord, submitted: bool, ghost s: P.State)
      requires s.rows == db.rows
      modifies db`rows
      ensures s.(rows := db.rows) == P.InsertSecretStep(s, r.token, r.nonce, r.amount, submitted)
    {
      var key := SwapKey(r.nonce, r.token);
      if key !in db.rows {
        db.rows := db.rows[key := P.Row(P.FromSecret(r.token, r.nonce), if submitted then P.Submitted else P.Failed,
                                        r.amount, 0, None)];
      }
    }

    /** One visit of the scan loop to one token. `reply` is the query's answer for the next nonce. */
    method ScanToken(token: string, reply: Option<SwapRecord>, dst: EthToken, fee: nat, sent: bool, crash: Crash,
                     ghost s: P.State)
      requires s.rows == db.rows
      modifies db`rows, trackers`nonces
      ensures DeskOf(db, trackers, s) == ScanStep(old(DeskOf(db, trackers, s)), token, reply, dst, fee, sent, crash)
    {
      if token !in trackers.nonces {
        trackers.nonces := trackers.nonces[token := -1];
      }
      var nextNonce := trackers.nonces[token] + 1;
      if reply.None? || crash.BeforeRow? { return; }
      var built := Build(reply.value, dst, fee);
      if built.Raises? { return; }
      SaveSwap(reply.value, built.Submit? && sent, s);
      if crash.BeforeTracker? { return; }
      trackers.nonces := trackers.nonces[token := nextNonce];
    }

    /** The scan loop over tokens: a query that fails lets it go on, anything else that is raised
        ends the leader. */
    method Scan(looks: seq<Look>, ghost s: P.State) returns (alive: bool)
      requires s.rows == db.rows
      modifies db`rows, trackers`nonces
      ensures DeskOf(db, trackers, s) == Scanned(old(DeskOf(db, trackers, s)), looks)
      ensures alive <==> forall look <- looks :: !Ends(look)
    {
      hide ScanStep, Ends;
      ghost var d0 := DeskOf(db, trackers, s);
      assert looks[0..] == looks;
      for i := 0 to |looks|
        invariant Scanned(d0, looks) == Scanned(DeskOf(db, trackers, s), looks[i..])
        invariant forall k :: 0 <= k < i ==> !Ends(looks[k])
      {
        var look := looks[i];
        assert looks[i..][1..] == looks[i + 1..];
        ScanToken(look.token, look.reply, look.dst, look.fee, look.sent, look.crash, s.(rows := db.rows));
        if Ends(look) { return false; }
      }
      return true;
    }
  }

  /** What one visit of the loop meets. */
  datatype Look = Look(token: string, reply: Option<SwapRecord>, dst: EthToken, fee: nat, sent: bool, crash: Crash)

  predicate Ends(look: Look) {
    look.crash != NoCrash || (look.reply.Some? && Build(look.reply.value, look.dst, look.fee).Raises?)
  }

  function Scanned(d: Desk, looks: seq<Look>): Desk
    decreases |looks|
  {
    if looks == [] then d else
      var look := looks[0];
      var d' := ScanStep(d, look.token, look.reply, look.dst, look.fee, look.sent, look.crash);
      if Ends(look) then d' else Scanned(d', looks[1..])
  }

  /** A submission's data as the signer holds them; decoding a token transfer overwrites the
      destination and the amount in place. */
  class SubmissionData {
    var dest: nat
    var amount: nat
    const fee: nat
    const data: Data
    const executed: bool

    constructor (sub: Submission, executed: bool)
      ensures dest == sub.dest && amount == sub.amount && fee == sub.fee && data == sub.data
      ensures this.executed == executed
    {
      dest, amount, fee, data, this.executed := sub.dest, sub.amount, sub.fee, sub.data, executed;
    }
  }

  /** What asking the Secret contract for a submission's record leads to. */
  datatype Lookup = Found(record: SwapRecord) | Unreadable | QueryFails

  datatype Signing = Approved | TurnedDown | AlreadyDone | Raised

  class EthSigner {
    /** The block of the last submission looked into. */
    var tracker: int

    constructor ()
      ensures tracker == -1
    {
      tracker := -1;
    }

    /** Overwrites destination and amount with those of the call, if there is one to read. */
    method DecodeInPlace(data: SubmissionData) returns (ok: bool)
      modifies data
      ensures var sub := Submission(old(data.dest), old(data.amount), 0, Native, data.fee, data.data);
              if ok then Decode(sub) == Some((data.dest, data.amount)) else Decode(sub) == None
    {
      if data.amount == 0 && data.data != NoData {
        if data.data.Opaque? { return false; }
        data.amount := data.data.amount;
        data.dest := data.data.recipient;
      }
      return true;
    }

    /** The signer approves exactly the submissions that validate against the record found, unless
        they are executed or it has confirmed them before; every look at a record, whatever comes
        of it, moves the tracker to the submission's block, and nothing else does. */
    method Sign(sub: Submission, executed: bool, confirmed: bool, found: Lookup, blockNumber: int) returns (r: Signing)
      modifies this`tracker
      ensures r.Approved? <==> !executed && !confirmed && found.Found? && Validates(found.record, sub)
      ensures r.AlreadyDone? <==> (executed || confirmed) && Decode(sub).Some?
      ensures r.Raised? <==> Decode(sub).None? || (!executed && !confirmed && found.QueryFails?)
      ensures tracker == if Decode(sub).Some? && !executed && !confirmed then blockNumber else old(tracker)
    {
      var data := new SubmissionData(sub, executed);
      var ok := DecodeInPlace(data);
      if !ok { return Raised; }
      if data.executed || confirmed { return AlreadyDone; }
      tracker := blockNumber;
      match found {
        case QueryFails => return Raised;
        case Unreadable => return TurnedDown;
        case Found(record) =>
          if record.amount != data.amount + data.fee { return TurnedDown; }
          if record.destination.Garbage? || record.destination.account != data.dest { return TurnedDown; }
          return Approved;
      }
    }
  }

  class EthConfirmer {
    const db: A.Database
    const trackers: TrackerStore

    constructor (db: A.Database, trackers: TrackerStore)
      ensures this.db == db && this.trackers == trackers
    {
      this.db, this.trackers := db, trackers;
    }

    method SetTxResult(r: R.Result, ghost s: P.State)
      requires s.rows == db.rows
      modifies db`rows, trackers`confirmed
      ensures s.(rows := db.rows) == P.SetResultStep(s, r.token, r.nonce, r.success)
      ensures trackers.confirmed == Noted(s, old(trackers.confirmed), r)
    {
      var key := SwapKey(r.nonce, r.token);
      if key !in db.rows { return; }
      if db.rows[key].status != P.Submitted { return; }
      db.SetStatus(key, if r.success then P.Confirmed else P.Failed);
      trackers.confirmed := trackers.confirmed[r.token := r.nonce];
    }

    /** The confirmer fed a list of events one after another. */
    method Feed(results: seq<R.Result>, ghost s: P.State)
      requires s.rows == db.rows
      modifies db`rows, trackers`confirmed
      ensures s.(rows := db.rows) == R.Confirm(s, results)
      ensures trackers.confirmed == Reported(s, old(trackers.confirmed), results)
    {
      for i := 0 to |results|
        invariant s.(rows := db.rows) == R.Confirm(s, results[..i])
        invariant trackers.confirmed == Reported(s, old(trackers.confirmed), results[..i])
      {
        hide SwapKey, P.SetResultStep, Noted;
        assert results[..i + 1][..i] == results[..i];
        SetTxResult(results[i], s.(rows := db.rows));
      }
      assert results[..|results|] == results;
    }
  }

  /** A result is noted when it settles a row. */
  function Noted(s: P.State, confirmed: map<string, nat>, r: R.Result): map<string, nat> {
    if P.Is(s, SwapKey(r.nonce, r.token), P.Submitted) then confirmed[r.token := r.nonce] else confirmed
  }

  function Reported(s: P.State, confirmed: map<string, nat>, results: seq<R.Result>): map<string, nat> {
    if results == [] then confirmed else
      var front := results[..|results| - 1];
      Noted(R.Confirm(s, front), Reported(s, confirmed, front), results[|results| - 1])
  }

  lemma {:induction false} NothingNoted(s: P.State, confirmed: map<string, nat>, results: seq<R.Result>)
    requires forall r <- results :: !P.Is(s, SwapKey(r.nonce, r.token), P.Submitted)
    ensures R.Confirm(s, results) == s && Reported(s, confirmed, results) == confirmed
  {
    hide SwapKey;
    if results != [] {
      var front, r := results[..|results| - 1], results[|results| - 1];
      assert forall x <- front :: x in results;
      NothingNoted(s, confirmed, front);
      assert r in results;
    }
  }

  /** Replaying every result through the confirmer changes neither a row nor its tracker. */
  lemma ReplayNotesNothing(s: P.State, results: seq<R.Result>, confirmed: map<string, nat>)
    ensures var s' := R.Confirm(s, results);
            R.Confirm(s', results) == s' && Reported(s', confirmed, results) == confirmed
  {
    hide SwapKey, R.Confirm;
    var s' := R.Confirm(s, results);
    R.FirstResultWins(s, results);
    forall r | r in results ensures !P.Is(s', SwapKey(r.nonce, r.token), P.Submitted) {
      FirstOfMember(results, r);
    }
    NothingNoted(s', confirmed, results);
  }

  lemma {:induction false} FirstOfMember(results: seq<R.Result>, r: R.Result)
    requires r in results
    ensures R.FirstResult(results, SwapKey(r.nonce, r.token)).Some?
  {
    hide SwapKey;
    if results[0] != r {
      FirstOfMember(results[1..], r);
    }
  }

  // ---- The event listener ----

  /** A log of interest: the event's name, the block it is in and what it says. */
  datatype Event = Event(name: string, block: int, content: nat)

  function Deep(events: seq<Event>, limit: int): seq<Event> {
    if events == [] then [] else
      Deep(events[..|events| - 1], limit) +
      if events[|events| - 1].block <= limit then [events[|events| - 1]] else []
  }

  function Shallow(events: seq<Event>, limit: int): seq<Event> {
    if events == [] then [] else
      Shallow(events[..|events| - 1], limit) +
      if events[|events| - 1].block <= limit then [] else [events[|events| - 1]]
  }

  /** The list with the first item equal to `e` removed. */
  function RemoveFirst(events: seq<Event>, e: Event): seq<Event> {
    if events == [] then []
    else if events[0] == e then events[1..]
    else [events[0]] + RemoveFirst(events[1..], e)
  }

  lemma {:induction false} ShallowAre(events: seq<Event>, limit: int)
    ensures forall e <- Shallow(events, limit) :: e.block > limit
    ensures forall e <- Deep(events, limit) :: e.block <= limit
  {
    if events != [] {
      ShallowAre(events[..|events| - 1], limit);
    }
  }

  lemma OneMore(all: seq<Event>, e: Event, deep: seq<Event>, shallow: seq<Event>)
    requires multiset(deep) + multiset(shallow) == multiset(all)
    ensures multiset(deep + [e]) + multiset(shallow) == multiset(all + [e])
    ensures multiset(deep) + multiset(shallow + [e]) == multiset(all + [e])
  {
    Bag(all, e);
    Bag(deep, e);
    Bag(shallow, e);
  }

  lemma Bag(s: seq<Event>, e: Event)
    ensures multiset(s + [e]) == multiset(s) + multiset{e}
  {
  }

  /** The deep and the shallow events together are all of them. */
  lemma {:induction false} SplitIsAll(events: seq<Event>, limit: int)
    ensures multiset(Deep(events, limit)) + multiset(Shallow(events, limit)) == multiset(events)
  {
    if events == [] {
      NothingSplit(limit);
    } else {
      hide Deep, Shallow;
      var front, last := events[..|events| - 1], events[|events| - 1];
      SplitIsAll(front, limit);
      SplitLast(events, limit);
      assert events == front + [last];
      OneMore(front, last, Deep(front, limit), Shallow(front, limit));
    }
  }

  lemma SplitLast(events: seq<Event>, limit: int)
    requires events != []
    ensures var front, last := events[..|events| - 1], events[|events| - 1];
            if last.block <= limit
            then Deep(events, limit) == Deep(front, limit) + [last] && Shallow(events, limit) == Shallow(front, limit)
            else Deep(events, limit) == Deep(front, limit) && Shallow(events, limit) == Shallow(front, limit) + [last]
  {
    var front := events[..|events| - 1];
    assert Deep(front, limit) + [] == Deep(front, limit) && Shallow(front, limit) + [] == Shallow(front, limit);
  }

  lemma {:induction false} RemoveAfter(kept: seq<Event>, e: Event, rest: seq<Event>)
    requires e !in kept
    ensures RemoveFirst(kept + ([e] + rest), e) == kept + rest
  {
    var all := kept + ([e] + rest);
    if kept == [] {
      assert all == [e] + rest;
    } else {
      assert all[0] == kept[0] && all[1..] == kept[1..] + ([e] + rest);
      RemoveAfter(kept[1..], e, rest);
      assert [kept[0]] + (kept[1..] + rest) == kept + rest;
    }
  }

  lemma NothingSplit(limit: int)
    ensures Deep([], limit) == [] && Shallow([], limit) == []
  {
  }

  /** One more event of the copy is visited: a deep one is the first of its value in what is left. */
  lemma SplitNext(events: seq<Event>, i: nat, limit: int)
    requires i < |events|
    ensures var e := events[i];
            var left := Shallow(events[..i], limit) + events[i..];
            if e.block <= limit then
              && Deep(events[..i + 1], limit) == Deep(events[..i], limit) + [e]
              && Shallow(events[..i + 1], limit) + events[i + 1..] == RemoveFirst(left, e)
            else
              && Deep(events[..i + 1], limit) == Deep(events[..i], limit)
              && Shallow(events[..i + 1], limit) + events[i + 1..] == left
  {
    var e, kept, rest := events[i], Shallow(events[..i], limit), events[i + 1..];
    assert events[..i + 1][..i] == events[..i];
    assert events[i..] == [e] + rest;
    assert Deep(events[..i + 1], limit) == Deep(events[..i], limit) + (if e.block <= limit then [e] else []);
    assert Shallow(events[..i + 1], limit) == kept + (if e.block <= limit then [] else [e]);
    ShallowAre(events[..i], limit);
    hide Deep, Shallow, RemoveFirst;
    if e.block <= limit {
      RemoveAfter(kept, e, rest);
      assert kept + [] == kept;
    } else {
      assert kept + ([e] + rest) == kept + [e] + rest;
    }
  }

  class EthEventListener {
    const confirmations: nat
    var pending: seq<Event>

    constructor (confirmations: nat)
      ensures this.confirmations == confirmations && pending == []
    {
      this.confirmations := confirmations;
      pending := [];
    }

    method AddEvents(events: seq<Event>)
      modifies this`pending
      ensures pending == old(pending) + events
    {
      for i := 0 to |events|
        invariant pending == old(pending) + events[..i]
      {
        assert events[..i + 1] == events[..i] + [events[i]];
        pending := pending + [events[i]];
      }
      assert events[..|events|] == events;
    }

    /** Walks a copy of the pending list and removes each event deep enough from the list itself, by
        value: exactly the deep ones come out, in order, and the others stay, in order. */
    method ConfirmationHandler(blockNumber: int) returns (delivered: seq<Event>)
      modifies this`pending
      ensures delivered == Deep(old(pending), blockNumber - confirmations)
      ensures pending == Shallow(old(pending), blockNumber - confirmations)
    {
      hide Deep, Shallow, RemoveFirst;
      var copy := pending;
      var limit := blockNumber - confirmations;
      delivered := [];
      NothingSplit(limit);
      assert copy[..0] == [] && [] + copy[0..] == copy;
      for i := 0 to |copy|
        invariant delivered == Deep(copy[..i], limit)
        invariant pending == Shallow(copy[..i], limit) + copy[i..]
      {
        var item := copy[i];
        SplitNext(copy, i, limit);
        if item.block <= limit {
          pending := RemoveFirst(pending, item);
          delivered := delivered + [item];
        }
      }
      assert copy[..|copy|] == copy && Shallow(copy, limit) + copy[|copy|..] == Shallow(copy, limit);
    }

    /** One turn of the listener: new events in, confirmed events out. */
    method Turn(events: seq<Event>, blockNumber: int) returns (delivered: seq<Event>)
      modifies this`pending
      ensures (delivered, pending) == TurnOf(old(pending), confirmations, Tick(events, blockNumber))
    {
      AddEvents(events);
      delivered := ConfirmationHandler(blockNumber);
    }
  }

  datatype Tick = Tick(events: seq<Event>, blockNumber: int)

  function TurnOf(pending: seq<Event>, confirmations: nat, t: Tick): (seq<Event>, seq<Event>) {
    var limit := t.blockNumber - confirmations;
    (Deep(pending + t.events, limit), Shallow(pending + t.events, limit))
  }

  /** What is delivered and what is pending after some turns. */
  function Turns(confirmations: nat, ticks: seq<Tick>): (seq<Event>, seq<Event>) {
    if ticks == [] then ([], []) else
      var (delivered, pending) := Turns(confirmations, ticks[..|ticks| - 1]);
      var (more, rest) := TurnOf(pending, confirmations, ticks[|ticks| - 1]);
      (delivered + more, rest)
  }

  function Fed(ticks: seq<Tick>): seq<Event> {
    if ticks == [] then [] else Fed(ticks[..|ticks| - 1]) + ticks[|ticks| - 1].events
  }

  lemma Regroup(a: multiset<Event>, b: multiset<Event>, c: multiset<Event>, d: multiset<Event>, e: multiset<Event>)
    requires b + c == d + e
    ensures a + b + c == a + d + e
  {
    assert a + b + c == a + (b + c);
    assert a + d + e == a + (d + e);
  }

  lemma TurnConserves(delivered: seq<Event>, pending: seq<Event>, confirmations: nat, t: Tick)
    ensures var (more, rest) := TurnOf(pending, confirmations, t);
            multiset(delivered + more) + multiset(rest) == multiset(delivered) + multiset(pending) + multiset(t.events)
  {
    SplitIsAll(pending + t.events, t.blockNumber - confirmations);
    hide Deep, Shallow;
    var (more, rest) := TurnOf(pending, confirmations, t);
    assert multiset(more) + multiset(rest) == multiset(pending) + multiset(t.events) by {
      assert multiset(pending + t.events) == multiset(pending) + multiset(t.events);
    }
    assert multiset(delivered + more) == multiset(delivered) + multiset(more);
    Regroup(multiset(delivered), multiset(more), multiset(rest), multiset(pending), multiset(t.events));
  }

  /** Over any run of the listener nothing is lost or repeated: the events fed are those delivered
      and those pending, counted with multiplicity. */
  lemma {:induction false} DeliveryConserves(confirmations: nat, ticks: seq<Tick>)
    ensures var (delivered, pending) := Turns(confirmations, ticks);
            multiset(Fed(ticks)) == multiset(delivered) + multiset(pending)
  {
    if ticks != [] {
      hide TurnOf;
      var front, t := ticks[..|ticks| - 1], ticks[|ticks| - 1];
      DeliveryConserves(confirmations, front);
      var (delivered, pending) := Turns(confirmations, front);
      TurnConserves(delivered, pending, confirmations, t);
      assert multiset(Fed(front) + t.events) == multiset(Fed(front)) + multiset(t.events);
    }
  }

  /** An event delivered in a turn was deep enough in that turn, and one still pending afterwards
      is not. */
  lemma DeliveredAtDepth(confirmations: nat, ticks: seq<Tick>)
    requires ticks != []
    ensures var t := ticks[|ticks| - 1];
            var (before, _) := Turns(confirmations, ticks[..|ticks| - 1]);
            var (delivered, pending) := Turns(confirmations, ticks);
            && before <= delivered
            && (forall i :: |before| <= i < |delivered| ==> delivered[i].block + confirmations <= t.blockNumber)
            && (forall e <- pending :: e.block + confirmations > t.blockNumber)
  {
    hide Deep, Shallow;
    var t := ticks[|ticks| - 1];
    var (before, pending) := Turns(confirmations, ticks[..|ticks| - 1]);
    ShallowAre(pending + t.events, t.blockNumber - confirmations);
    var (delivered, _) := Turns(confirmations, ticks);
    var more := Deep(pending + t.events, t.blockNumber - confirmations);
    forall i | |before| <= i < |delivered| ensures delivered[i].block + confirmations <= t.blockNumber {
      assert delivered[i] == more[i - |before|] && more[i - |before|] in more;
    }
  }
}
