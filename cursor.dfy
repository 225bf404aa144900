/**
 * The wrap-around cursor arithmetic that the scratchpad's playlist manager
 * and preset manager share: `next` moves forward modulo the list length,
 * `previous` moves back and wraps from 0 to the last index.
 */
module Cursor {
  import Arith

  /** `(current_index + 1) % len`. */
  function Next(i: nat, len: nat): nat
    requires len > 0
  {
    (i + 1) % len
  }

  /** `current_index - 1`, or `len - 1` when the index is 0. */
  function Prev(i: nat, len: nat): nat
    requires len > 0
  {
    if i > 0 then i - 1 else len - 1
  }

  /** Both moves keep an index inside the list. */
  lemma StaysInRange(i: nat, len: nat)
    requires len > 0 && i < len
    ensures Next(i, len) < len && Prev(i, len) < len
  {
  }

  /** `previous` undoes `next`, and `next` undoes `previous`. */
  lemma PrevNextInverse(i: nat, len: nat)
    requires 0 <= i < len
    ensures Prev(Next(i, len), len) == i
    ensures Next(Prev(i, len), len) == i
  {
    if i + 1 < len {
      assert Next(i, len) == i + 1;
    } else {
      assert Next(i, len) == 0;
    }
    if i == 0 {
      assert (len - 1 + 1) % len == 0;
    }
  }

  /** `next` applied `k` times. */
  function NextN(i: nat, len: nat, k: nat): nat
    requires len > 0
  {
    if k == 0 then i else Next(NextN(i, len, k - 1), len)
  }

  /** `k` steps forward from `i` land on `(i + k) % len`: `len` steps return to the start. */
  lemma {:induction false} NextNIsModulo(i: nat, len: nat, k: nat)
    requires len > 0 && i < len
    ensures NextN(i, len, k) == (i + k) % len
  {
    if k > 0 {
      NextNIsModulo(i, len, k - 1);
      var prev := NextN(i, len, k - 1);
      assert prev == (i + k - 1) % len;
      assert NextN(i, len, k) == (prev + 1) % len;
      ModSucc(i + k - 1, len);
    } else {
      Arith.DivModUnique(i, len, 0, i);
    }
  }

  lemma ModSucc(a: nat, len: nat)
    requires len > 0
    ensures (a % len + 1) % len == (a + 1) % len
  {
    var q, r := a / len, a % len;
    assert a == q * len + r;
    if r + 1 < len {
      assert a + 1 == q * len + (r + 1);
      Arith.DivModUnique(a + 1, len, q, r + 1);
      Arith.DivModUnique(r + 1, len, 0, r + 1);
    } else {
      assert a + 1 == (q + 1) * len + 0;
      Arith.DivModUnique(a + 1, len, q + 1, 0);
      Arith.DivModUnique(r + 1, len, 1, 0);
    }
  }
}
