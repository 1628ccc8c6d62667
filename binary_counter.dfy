/**
 * The binary counter behind ValuationIterator: a vector of Troolean values read
 * as a binary number, position 0 least significant, TRUE = 1 and FALSE = 0.
 */
module BinaryCounter {
  import opened Troolean

  function Pow2(n: nat): (r: nat)
    ensures r >= 1
  {
    if n == 0 then 1 else 2 * Pow2(n - 1)
  }

  /** The number a vector stands for; it fits in |b| binary digits. */
  function Number(b: seq<Value>): (r: nat)
    ensures r < Pow2(|b|)
  {
    if b == [] then 0 else (if b[0] == TRUE then 1 else 0) + 2 * Number(b[1..])
  }

  /** The n-digit vector of k (digits above n are dropped). */
  function Bits(k: nat, n: nat): (r: seq<Value>)
    ensures |r| == n && forall i :: 0 <= i < n ==> IsDecided(r[i])
  {
    if n == 0 then [] else [if k % 2 == 1 then TRUE else FALSE] + Bits(k / 2, n - 1)
  }

  /** n FALSE values: the vector a fresh iterator starts from. */
  function Falses(n: nat): (r: seq<Value>)
    ensures |r| == n && forall i :: 0 <= i < n ==> r[i] == FALSE
  {
    seq(n, _ => FALSE)
  }

  /** Reading back the digits of a number that fits gives the number. */
  lemma {:induction false} NumberOfBits(k: nat, n: nat)
    requires k < Pow2(n)
    ensures Number(Bits(k, n)) == k
  {
    if n > 0 {
      NumberOfBits(k / 2, n - 1);
      assert Bits(k, n)[1..] == Bits(k / 2, n - 1);
    }
  }

  /** A two-valued vector is the digit vector of its own number. */
  lemma {:induction false} BitsOfNumber(b: seq<Value>)
    requires forall i :: 0 <= i < |b| ==> IsDecided(b[i])
    ensures Bits(Number(b), |b|) == b
  {
    if b != [] {
      var k := Number(b);
      BitsOfNumber(b[1..]);
      assert k % 2 == (if b[0] == TRUE then 1 else 0);
      assert k / 2 == Number(b[1..]);
    }
  }

  /** Zero is the all-FALSE vector. */
  lemma {:induction false} BitsOfZero(n: nat)
    ensures Bits(0, n) == Falses(n)
  {
    if n > 0 {
      BitsOfZero(n - 1);
    }
  }

  /**
   * One step of the counter, as ValuationIterator.hasNext performs it: the
   * first FALSE position becomes TRUE and every position before it, which
   * is not FALSE, becomes FALSE; the flag is the carry out of the last
   * position. An empty vector never carries.
   */
  function Increment(b: seq<Value>): (r: (seq<Value>, bool))
    ensures |r.0| == |b|
  {
    if b == [] then ([], false)
    else if b[0] == FALSE then ([TRUE] + b[1..], false)
    else if |b| == 1 then ([FALSE], true)
    else
      var (rest, carry) := Increment(b[1..]);
      ([FALSE] + rest, carry)
  }

  /**
   * The counter step adds one to a two-valued vector, and carries out exactly
   * when the vector held the largest number, wrapping to zero.
   */
  lemma {:induction false} IncrementAddsOne(b: seq<Value>)
    requires |b| > 0 && forall i :: 0 <= i < |b| ==> IsDecided(b[i])
    ensures forall i :: 0 <= i < |b| ==> IsDecided(Increment(b).0[i])
    ensures Number(b) + 1 < Pow2(|b|) ==> Number(Increment(b).0) == Number(b) + 1 && !Increment(b).1
    ensures Number(b) + 1 == Pow2(|b|) ==> Number(Increment(b).0) == 0 && Increment(b).1
  {
    var r := Increment(b);
    if b[0] == FALSE {
      assert r.0[1..] == b[1..];
    } else if |b| == 1 {
    } else {
      IncrementAddsOne(b[1..]);
      assert r.0[1..] == Increment(b[1..]).0;
    }
  }

  /** The step as the loop performs it when a FALSE is found at position i. */
  lemma {:induction false} IncrementAtFirstFalse(b: seq<Value>, i: nat)
    requires i < |b| && b[i] == FALSE
    requires forall k :: 0 <= k < i ==> b[k] != FALSE
    ensures Increment(b) == (Falses(i) + [TRUE] + b[i + 1..], false)
  {
    if i > 0 {
      IncrementAtFirstFalse(b[1..], i - 1);
      var tail := [TRUE] + b[i + 1..];
      assert b[1..][i..] == b[i + 1..];
      assert Increment(b[1..]).0 == Falses(i - 1) + tail;
      assert b[0] != FALSE && |b| > 1;
      assert Increment(b) == ([FALSE] + Increment(b[1..]).0, Increment(b[1..]).1);
      assert [FALSE] + Falses(i - 1) == Falses(i);
      assert [FALSE] + (Falses(i - 1) + tail) == Falses(i) + tail;
      assert Falses(i) + tail == Falses(i) + [TRUE] + b[i + 1..];
    } else {
      assert Falses(0) + [TRUE] + b[1..] == [TRUE] + b[1..];
    }
  }

  /** The step as the loop performs it when no position holds FALSE. */
  lemma {:induction false} IncrementWithoutFalse(b: seq<Value>)
    requires forall k :: 0 <= k < |b| ==> b[k] != FALSE
    ensures Increment(b) == (Falses(|b|), |b| > 0)
  {
    if |b| == 1 {
      assert Falses(1) == [FALSE];
    } else if |b| > 1 {
      IncrementWithoutFalse(b[1..]);
      assert [FALSE] + Falses(|b| - 1) == Falses(|b|);
    }
  }

  /** The step on the digits of k: the digits of k + 1, or a carry after the largest number. */
  lemma IncrementBits(k: nat, n: nat)
    requires n > 0 && k < Pow2(n)
    ensures k + 1 < Pow2(n) ==> Increment(Bits(k, n)) == (Bits(k + 1, n), false)
    ensures k + 1 == Pow2(n) ==> Increment(Bits(k, n)).1
  {
    NumberOfBits(k, n);
    IncrementAddsOne(Bits(k, n));
    BitsOfNumber(Increment(Bits(k, n)).0);
  }
}
