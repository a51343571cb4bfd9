/** Reading an account's transfer history page by page, latest transfer first. */
module Paging {
  import opened Prelude
  import opened BridgeToken
  import opened TokenRuns

  function Reverse<T>(s: seq<T>): (r: seq<T>)
    ensures |r| == |s|
    ensures forall i :: 0 <= i < |s| ==> r[i] == s[|s| - 1 - i]
  {
    if s == [] then [] else Reverse(s[1..]) + [s[0]]
  }

  function Skip<T>(s: seq<T>, n: nat): seq<T> {
    if n <= |s| then s[n..] else []
  }

  function Take<T>(s: seq<T>, n: nat): seq<T> {
    if n <= |s| then s[..n] else s
  }

  /** `page * page_size` is computed in 32 bits and overflow panics, but only once the account has
      a list at all. */
  function GetTransfers(history: seq<Tx>, page: u32, pageSize: u32): Result<seq<Tx>, Error> {
    if history == [] then Ok([])
    else if Offset(page, pageSize) >= U32 then Err(Panic)
    else Ok(Take(Skip(Reverse(history), Offset(page, pageSize)), pageSize))
  }

  function Offset(page: nat, pageSize: nat): nat {
    page * pageSize
  }

  function PageCount(n: nat, pageSize: nat): nat
    requires pageSize > 0
  {
    (n + pageSize - 1) / pageSize
  }

  /** The first `count` pages joined; a page that fails contributes nothing. */
  function Pages(history: seq<Tx>, pageSize: u32, count: nat): seq<Tx>
    requires count <= U32
  {
    if count == 0 then [] else
      Pages(history, pageSize, count - 1) +
      match GetTransfers(history, count - 1, pageSize) case Ok(txs) => txs case Err(_) => []
  }

  lemma TakeStep<T>(s: seq<T>, start: nat, n: nat)
    ensures Take(s, start) + Take(Skip(s, start), n) == Take(s, start + n)
  {
  }

  /** The first `count` pages, none of which starts past the end, all answer and join up to a
      prefix of the reversed history. */
  lemma {:induction false} PagesArePrefix(history: seq<Tx>, pageSize: u32, count: nat, end: nat)
    requires pageSize > 0 && |history| < U32 && count <= U32 && end == count * pageSize
    requires count > 0 ==> end - pageSize < |history|
    ensures Pages(history, pageSize, count) == Take(Reverse(history), end)
    ensures forall p: u32 :: p < count ==> GetTransfers(history, p, pageSize).Ok?
  {
    hide Take, Skip, Reverse;
    if count == 0 {
      assert Take(Reverse(history), 0) == [] by { TakeNone(Reverse(history)); }
    } else {
      var start := end - pageSize;
      assert start == (count - 1) * pageSize;
      PagesArePrefix(history, pageSize, count - 1, start);
      TakeStep(Reverse(history), start, pageSize);
    }
  }

  lemma TakeNone<T>(s: seq<T>)
    ensures Take(s, 0) == []
  {
  }

  lemma CeilingBounds(n: nat, d: nat)
    requires d > 0
    ensures n <= PageCount(n, d) * d < n + d
    ensures PageCount(n, d) <= n
  {
    var q := PageCount(n, d);
    assert q * d + (n + d - 1) % d == n + d - 1;
    if q > n {
      MulMonotone(n + 1, q, d);
      assert (n + 1) * d == n * d + d;
      MulMonotone(1, d, n);
      assert false;
    }
  }

  /** The pages tile the history: the ceiling count of them is exactly the history reversed, none
      of those requests overflows, and every later page that answers is empty. */
  lemma PagesTile(history: seq<Tx>, pageSize: u32)
    requires pageSize > 0 && |history| < U32
    ensures PageCount(|history|, pageSize) <= U32
    ensures Pages(history, pageSize, PageCount(|history|, pageSize)) == Reverse(history)
    ensures forall p: u32 :: p < PageCount(|history|, pageSize) ==> GetTransfers(history, p, pageSize).Ok?
    ensures forall p: u32 :: p >= PageCount(|history|, pageSize) ==>
              var r := GetTransfers(history, p, pageSize); r.Ok? ==> r.value == []
  {
    hide PageCount;
    var n, k := |history|, PageCount(|history|, pageSize);
    CeilingBounds(n, pageSize);
    PagesArePrefix(history, pageSize, k, k * pageSize);
    forall p: u32 | p >= k
      ensures var r := GetTransfers(history, p, pageSize); r.Ok? ==> r.value == []
    {
      MulMonotone(k, p, pageSize);
    }
  }

  /** What a page holds, entry by entry: it fails only if there is a list and the offset does not fit 32
      bits, and otherwise gives the transfers from that offset on, latest first, as many as fit. */
  lemma PageExactly(history: seq<Tx>, page: u32, pageSize: u32)
    ensures var (r, n, start) := (GetTransfers(history, page, pageSize), |history|, page * pageSize);
            && (r.Ok? <==> history == [] || start < U32)
            && (r.Ok? ==>
                  && |r.value| == (if start >= n then 0 else if n - start < pageSize then n - start else pageSize)
                  && (forall k :: 0 <= k < |r.value| ==> r.value[k] == history[n - 1 - start - k]))
  {
    hide Reverse;
  }

  lemma MulMonotone(a: nat, b: nat, c: nat)
    requires a <= b
    ensures a * c <= b * c
  {
    assert b * c == a * c + (b - a) * c;
  }

  /** Stored lists never outgrow their 32-bit length. */
  lemma {:induction false} HistoryFits(s0: State, calls: seq<Call>, s: State, a: Addr)
    requires Replay(s0, calls) == Ok(s) && |Listed(s0.history, a)| < U32
    ensures |Listed(s.history, a)| < U32
  {
    hide Handle, Moved, Recorded;
    if calls != [] {
      var c := calls[|calls| - 1];
      var s1 := ReplaySplit(s0, calls, s);
      HistoryFits(s0, calls[..|calls| - 1], s1, a);
      match MoveOf(c) {
        case Some(m) => StoredWithin(s1, c, m, s, a);
        case None => OtherEffect(s1, c, s);
      }
    }
  }

  lemma StoredWithin(s: State, c: Call, m: Move, s': State, a: Addr)
    requires MoveOf(c) == Some(m) && Succeeds(s, c, s') && |Listed(s.history, a)| < U32
    ensures |Listed(s'.history, a)| < U32
  {
    hide SpendAllowance, PerformTransfer, StoreTransfer, Handle, Change;
    Dispatch(s, c, s');
    var s0 := if c.msg.Transfer? || c.msg.Send? then s else SpendAllowance(s, c.env, m.owner, m.amount).value;
    if s0 != s {
      SpendFrame(s, c.env, m.owner, m.amount, s0);
    }
    var s1 := PerformTransfer(s0, m.owner, m.receiver, m.amount).value;
    TransferMoves(s0, m.owner, m.receiver, m.amount, s1);
    StoreWithin(s1, m.owner, m.sender, m.receiver, m.amount, s', a);
  }

  lemma StoreWithin(s: State, owner: Addr, sender: Addr, receiver: Addr, amount: u128, s': State, a: Addr)
    requires StoreTransfer(s, owner, sender, receiver, amount) == Ok(s') && |Listed(s.history, a)| < U32
    ensures |Listed(s'.history, a)| < U32
  {
  }

  /** For every account after every run, the pages of its history join up to the reverse of its
      index in the transfer log. */
  lemma PagesOfRun(entries: seq<InitialBalance>, admin: Addr, s0: State, calls: seq<Call>, a: Addr, pageSize: u32)
    requires Init(entries, admin) == Ok(s0) && pageSize > 0
    ensures var h := History(Run(s0, calls), a);
            && PageCount(|h|, pageSize) <= U32
            && |Log(Committed(s0, calls))| < U64
            && Pages(h, pageSize, PageCount(|h|, pageSize)) == Reverse(Index(Log(Committed(s0, calls)), a))
  {
    HistoryIsIndex(entries, admin, s0, calls);
    RunIsReplay(s0, calls);
    HistoryFits(s0, Committed(s0, calls), Run(s0, calls), a);
    PagesTile(History(Run(s0, calls), a), pageSize);
  }
}
