/** Go's uint64 as a bounded integer, with the guarded operations the platform's counters use. */
module Bounded {

  const MAX_UINT64: int := 0xFFFF_FFFF_FFFF_FFFF

  const TWO_TO_THE_64: int := MAX_UINT64 + 1

  type U64 = x: int | 0 <= x <= MAX_UINT64

  datatype Option<+T> = None | Some(value: T)

  datatype Result<+T, +E> = Ok(value: T) | Err(error: E)

  function Min(a: int, b: int): int {
    if a <= b then a else b
  }

  function Max(a: int, b: int): int {
    if a <= b then b else a
  }

  /** The sum of two counters, or None where Go's addition would wrap. */
  function AddCount(field: U64, n: U64): (r: Option<U64>)
    ensures r.Some? <==> field + n <= MAX_UINT64
    ensures r.Some? ==> r.value == field + n
  {
    if field > MAX_UINT64 - n then None else Some(field + n)
  }

  /** base + factor * value, or None where any step would wrap. The guard divides before it multiplies. */
  function AddMulNoOverflow(base: U64, factor: U64, value: U64): (r: Option<U64>)
    ensures r.Some? <==> base + factor * value <= MAX_UINT64
    ensures r.Some? ==> r.value == base + factor * value
  {
    if value != 0 && factor > MAX_UINT64 / value then
      DivisionGuard(factor, value);
      None
    else
      ProductGuard(factor, value);
      var product := factor * value;
      if product > MAX_UINT64 - base then None else Some(base + product)
  }

  lemma DivisionGuard(factor: U64, value: U64)
    requires value != 0 && factor > MAX_UINT64 / value
    ensures factor * value > MAX_UINT64
  {
    var q := MAX_UINT64 / value;
    assert MAX_UINT64 < (q + 1) * value;
    assert factor * value >= (q + 1) * value;
  }

  lemma ProductGuard(factor: U64, value: U64)
    requires value == 0 || factor <= MAX_UINT64 / value
    ensures 0 <= factor * value <= MAX_UINT64
  {
    if value != 0 {
      var q := MAX_UINT64 / value;
      assert q * value <= MAX_UINT64;
      assert factor * value <= q * value;
    }
  }

  /** The mathematical total of a list of counters. */
  function Total(parts: seq<U64>): nat {
    if parts == [] then 0 else parts[0] + Total(parts[1..])
  }

  lemma {:induction false} TotalAppend(xs: seq<U64>, ys: seq<U64>)
    ensures Total(xs + ys) == Total(xs) + Total(ys)
  {
    if xs == [] {
      assert xs + ys == ys;
    } else {
      assert (xs + ys)[1..] == xs[1..] + ys;
      TotalAppend(xs[1..], ys);
    }
  }

  lemma {:induction false} PartWithinTotal(xs: seq<U64>, i: nat)
    requires i < |xs|
    ensures xs[i] <= Total(xs)
  {
    if i > 0 {
      PartWithinTotal(xs[1..], i - 1);
    }
  }

  /** Adds counters left to right and refuses at the first step that would wrap; that refusal happens exactly
      when the true total does not fit. */
  method SumNoOverflow(parts: seq<U64>) returns (r: Option<U64>)
    ensures r.Some? <==> Total(parts) <= MAX_UINT64
    ensures r.Some? ==> r.value == Total(parts)
  {
    var total: U64 := 0;
    for i := 0 to |parts|
      invariant total == Total(parts[..i])
    {
      assert parts[..i+1] == parts[..i] + [parts[i]];
      assert parts == parts[..i+1] + parts[i+1..];
      TotalAppend(parts[..i], [parts[i]]);
      TotalAppend(parts[..i+1], parts[i+1..]);
      if total > MAX_UINT64 - parts[i] {
        return None;
      }
      total := total + parts[i];
    }
    assert parts[..|parts|] == parts;
    return Some(total);
  }
}
