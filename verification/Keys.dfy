/** The keys of swap rows: Ethereum transaction hashes on one side, `nonce|token` on the other. */
module Keys {

  function Digit(d: nat): char
    requires d < 10
  {
    "0123456789"[d]
  }

  /** Decimal notation, as `str` of a non-negative number. */
  function Decimal(n: nat): string {
    if n < 10 then [Digit(n)] else Decimal(n / 10) + [Digit(n % 10)]
  }

  /** The row key of a swap reported by the Secret contract. */
  function SwapKey(nonce: nat, token: string): string {
    Decimal(nonce) + "|" + token
  }

  /** An Ethereum transaction hash in hex. */
  predicate IsHash(s: string) {
    |s| >= 2 && s[..2] == "0x" && forall c <- s[2..] :: c in "0123456789abcdef"
  }

  lemma {:induction false} DecimalHasNoBar(n: nat)
    ensures '|' !in Decimal(n)
  {
    if n >= 10 {
      DecimalHasNoBar(n / 10);
    }
  }

  /** The number a decimal text denotes. */
  function Value(s: string): int {
    if s == "" then 0 else 10 * Value(s[..|s| - 1]) + (s[|s| - 1] as int - '0' as int)
  }

  lemma ValueSnoc(s: string, c: char)
    ensures Value(s + [c]) == 10 * Value(s) + (c as int - '0' as int)
  {
    assert (s + [c])[..|s|] == s;
  }

  lemma DecimalSplits(n: nat)
    requires n >= 10
    ensures Decimal(n) == Decimal(n / 10) + [Digit(n % 10)]
  {
  }

  /** The notation reads back as the number, and has no needless leading zero. */
  lemma {:induction false} DecimalReads(n: nat)
    ensures forall c <- Decimal(n) :: '0' <= c <= '9'
    ensures Value(Decimal(n)) == n
    ensures Decimal(n)[0] == '0' ==> n == 0
  {
    if n < 10 {
      DigitReads(n);
      assert [Digit(n)][..0] == "";
    } else {
      DecimalSplits(n);
      hide Decimal, Value, Digit;
      DecimalReads(n / 10);
      DigitReads(n % 10);
      ValueSnoc(Decimal(n / 10), Digit(n % 10));
    }
  }

  lemma DigitReads(d: nat)
    requires d < 10
    ensures '0' <= Digit(d) <= '9' && Digit(d) as nat - '0' as nat == d
  {
  }

  lemma DecimalInjective(m: nat, n: nat)
    requires Decimal(m) == Decimal(n)
    ensures m == n
  {
    DecimalReads(m);
    DecimalReads(n);
  }

  lemma DecimalLength(n: nat)
    ensures |Decimal(n)| >= 1 && (|Decimal(n)| == 1 <==> n < 10)
  {
    if n >= 10 {
      assert |Decimal(n / 10)| >= 1;
    }
  }

  /** Different swaps have different keys. */
  lemma SwapKeyInjective(m: nat, s: string, n: nat, t: string)
    requires SwapKey(m, s) == SwapKey(n, t)
    ensures m == n && s == t
  {
    var dm, dn, key := Decimal(m), Decimal(n), SwapKey(m, s);
    DecimalHasNoBar(m);
    DecimalHasNoBar(n);
    assert key[|dm|] == '|' && key[|dn|] == '|';
    assert |dm| == |dn|;
    assert dm == key[..|dm|] && dn == key[..|dn|];
    assert s == key[|dm| + 1..] && t == key[|dn| + 1..];
    DecimalInjective(m, n);
  }

  /** No swap key is an Ethereum hash. */
  lemma SwapKeyIsNoHash(n: nat, t: string)
    ensures !IsHash(SwapKey(n, t))
  {
    var d, key := Decimal(n), SwapKey(n, t);
    DecimalLength(n);
    hide Decimal;
    assert key[|d|] == '|';
    if |d| >= 2 {
      assert key[2..][|d| - 2] == '|';
      assert '|' in key[2..];
    } else {
      assert |d| == 1 && key[..2][1] == '|';
      assert "0x"[1] == 'x';
    }
  }
}
