/** Vocabulary shared by every part of the bridge model: results, machine-integer bounds,
    addresses, and sums over finite maps. */
module Prelude {

  datatype Option<+T> = None | Some(value: T)

  /** A call that either succeeds or is rejected, usable with `:-`. */
  datatype Result<+T, +E> = Ok(value: T) | Err(error: E) {
    predicate IsFailure() { Err? }

    function PropagateFailure<U>(): Result<U, E>
      requires Err?
    {
      Err(error)
    }

    function Extract(): T
      requires Ok?
    {
      value
    }
  }

  const U32: int := 0x1_0000_0000
  const U64: int := 0x1_0000_0000_0000_0000
  const U128: int := 0x1_0000_0000_0000_0000_0000_0000_0000_0000

  type u32 = n: nat | n < U32
  type u64 = n: nat | n < U64
  type u128 = n: nat | n < U128

  /** A human address as messages carry it. Only an `Account` has a canonical form;
      converting a `Malformed` one is an error. */
  datatype Addr = Account(id: nat) | Malformed(id: nat)

  /** Who sends a message, and the block time. */
  datatype Env = Env(sender: Addr, time: u64)

  /** The payload of a `Send`, which the bridge reads as an Ethereum address. Two spellings of
      one address name the same account; `Garbage` is text that does not parse. */
  datatype Destination = EthAddress(account: nat, spelling: nat) | Garbage(text: string)

  /** The total of a finite map's values. */
  ghost function Sum<K>(m: map<K, nat>): nat
    decreases |m|
  {
    if m == map[] then 0 else
      var k :| k in m;
      m[k] + Sum(m - {k})
  }

  lemma SumRemove<K>(m: map<K, nat>, k: K)
    requires k in m
    ensures Sum(m) == m[k] + Sum(m - {k})
    decreases |m|
  {
    var j :| j in m && Sum(m) == m[j] + Sum(m - {j});
    if j != k {
      SumRemove(m - {j}, k);
      SumRemove(m - {k}, j);
      assert m - {j} - {k} == m - {k} - {j};
    }
  }

  function At<K>(m: map<K, nat>, k: K): nat {
    if k in m then m[k] else 0
  }

  lemma SumUpdate<K>(m: map<K, nat>, k: K, v: nat)
    ensures Sum(m[k := v]) == Sum(m) - At(m, k) + v
  {
    var m' := m[k := v];
    SumRemove(m', k);
    assert m' - {k} == m - {k};
    if k in m {
      SumRemove(m, k);
    } else {
      assert m - {k} == m;
    }
  }

  lemma SumAtLeast<K>(m: map<K, nat>, k: K)
    ensures At(m, k) <= Sum(m)
  {
    if k in m {
      SumRemove(m, k);
    }
  }

  lemma SumAtLeastTwo<K>(m: map<K, nat>, j: K, k: K)
    requires j != k
    ensures At(m, j) + At(m, k) <= Sum(m)
  {
    if j in m {
      SumRemove(m, j);
      SumAtLeast(m - {j}, k);
    } else {
      SumAtLeast(m, k);
    }
  }
}
