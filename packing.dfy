/**
 * `bits_to_bytes` from src/m95160W.py: packs a list of bits received from the
 * EEPROM into one integer, most significant bit first. The Python function
 * reverses its argument in place and then ORs `bit << idx` into an accumulator
 * for every position of the reversed list; both effects are modelled here.
 *
 * The list elements are Python integers of any value, so the OR is Python's
 * `|` on unbounded two's-complement integers. Only for lists of 0/1 values does
 * that accumulation coincide with the positional sum the caller relies on.
 */
module Packing {

  /** 2 to the power k. */
  function Pow2(k: nat): (r: nat)
    ensures r >= 1
  {
    if k == 0 then 1 else 2 * Pow2(k - 1)
  }

  function Abs(x: int): nat { if x < 0 then -x else x }

  /**
   * Python's `a | b` on integers. Python integers behave as infinitely wide
   * two's-complement words: 0 has no bit set, -1 has every bit set, and
   * `a >> 1` is `a` divided by 2 rounded down (Dafny's `/` by a positive
   * divisor rounds down too).
   */
  function IntOr(a: int, b: int): (r: int)
    ensures r % 2 == (if a % 2 == 1 || b % 2 == 1 then 1 else 0)
    ensures r < 0 <==> a < 0 || b < 0
    ensures a == b ==> r == a
    decreases Abs(a) + Abs(b)
  {
    if a == 0 then b
    else if a == -1 || b == -1 then -1
    else if b == 0 then a
    else 2 * IntOr(a / 2, b / 2) + (if a % 2 == 1 || b % 2 == 1 then 1 else 0)
  }

  /**
   * Above the lowest bit, `a | b` is the OR of `a >> 1` and `b >> 1`: with the
   * lowest-bit clause of IntOr's contract this makes IntOr the bitwise OR.
   */
  lemma IntOrHalves(a: int, b: int)
    ensures IntOr(a, b) / 2 == IntOr(a / 2, b / 2)
  {
  }

  /** Every element is 0 or 1, as the lists produced by the bit receiver are. */
  predicate IsBits(s: seq<int>)
  {
    forall i :: 0 <= i < |s| ==> s[i] == 0 || s[i] == 1
  }

  /** Python's `list.reverse()`, as a value: element i comes from position n-1-i. */
  function Reverse(s: seq<int>): (r: seq<int>)
    ensures |r| == |s|
    ensures forall i :: 0 <= i < |s| ==> r[i] == s[|s| - 1 - i]
  {
    if s == [] then [] else Reverse(s[1..]) + [s[0]]
  }

  /**
   * The accumulator of the loop at src/m95160W.py:17-18 after it has visited
   * every element of `r`: the OR over all positions idx of `r[idx] << idx`.
   */
  function OrAccumulate(r: seq<int>): (acc: int)
    ensures acc < 0 <==> exists i :: 0 <= i < |r| && r[i] < 0
  {
    if r == [] then 0
    else
      var n := |r| - 1;
      assert forall i :: 0 <= i < n ==> r[..n][i] == r[i];
      assert r[n] < 0 <==> r[n] * Pow2(n) < 0;
      IntOr(OrAccumulate(r[..n]), r[n] * Pow2(n))
  }

  /** What `bits_to_bytes(data)` returns: the accumulation over the reversed list. */
  function BitsToBytesValue(s: seq<int>): (r: int)
    ensures s == [] ==> r == 0
  {
    OrAccumulate(Reverse(s))
  }

  /** The positional value of `s` read MSB-first: the sum of s[i] * 2^(n-1-i). */
  function PackMSB(s: seq<int>): int
  {
    if s == [] then 0 else s[0] * Pow2(|s| - 1) + PackMSB(s[1..])
  }

  /** The sum of r[i] * 2^i: the value of `r` read LSB-first. */
  function SumLSB(r: seq<int>): int
  {
    if r == [] then 0 else SumLSB(r[..|r| - 1]) + r[|r| - 1] * Pow2(|r| - 1)
  }

  /** Splits v into n bits, MSB first: the inverse of PackMSB on n-bit lists. */
  function UnpackMSB(v: int, n: nat): (r: seq<int>)
    ensures |r| == n
    decreases n
  {
    if n == 0 then [] else UnpackMSB(v / 2, n - 1) + [v % 2]
  }

  // ----- Python's OR as addition -------------------------------------------------

  /** ORing in a power of two above every bit of x is the same as adding it. */
  lemma {:induction false} OrFreshBit(x: int, k: nat)
    requires 0 <= x < Pow2(k)
    ensures IntOr(x, Pow2(k)) == x + Pow2(k)
  {
    if x != 0 {
      assert k > 0;
      var p := Pow2(k - 1);
      assert Pow2(k) == 2 * p;
      assert Pow2(k) / 2 == p && Pow2(k) % 2 == 0;
      OrFreshBit(x / 2, k - 1);
      assert IntOr(x, Pow2(k)) == 2 * IntOr(x / 2, p) + x % 2;
    }
  }

  /**
   * On a 0/1 list the OR-accumulation of line 18 equals plain addition, because
   * each position contributes its own power of two; the value stays below 2^n.
   */
  lemma {:induction false} OrAccumulateIsSum(r: seq<int>)
    requires IsBits(r)
    ensures OrAccumulate(r) == SumLSB(r)
    ensures 0 <= SumLSB(r) < Pow2(|r|)
  {
    if r != [] {
      var k := |r| - 1;
      var prefix := r[..k];
      assert IsBits(prefix) by {
        forall i | 0 <= i < |prefix| ensures prefix[i] == 0 || prefix[i] == 1 {
          assert prefix[i] == r[i];
        }
      }
      OrAccumulateIsSum(prefix);
      var x, p := OrAccumulate(prefix), Pow2(k);
      assert Pow2(k + 1) == 2 * p;
      if r[k] == 1 {
        assert r[k] * p == p;
        OrFreshBit(x, k);
      } else {
        assert r[k] * p == 0;
        assert IntOr(x, 0) == x;
      }
    }
  }

  /** Reading the reversed list LSB-first is reading the list MSB-first. */
  lemma {:induction false} SumOfReversed(s: seq<int>)
    ensures SumLSB(Reverse(s)) == PackMSB(s)
  {
    if s != [] {
      var r := Reverse(s);
      assert r == Reverse(s[1..]) + [s[0]];
      assert r[..|r| - 1] == Reverse(s[1..]);
      SumOfReversed(s[1..]);
    }
  }

  /** Reversing twice restores the list. */
  lemma ReverseTwice(s: seq<int>)
    ensures Reverse(Reverse(s)) == s
  {
    assert forall i :: 0 <= i < |s| ==> Reverse(Reverse(s))[i] == s[i];
  }

  // ----- The functional contract of bits_to_bytes --------------------------------

  /**
   * For a list of 0/1 values, `bits_to_bytes` returns the sum of
   * d[i] * 2^(n-1-i): the first element is the most significant bit.
   */
  lemma BitsToBytesIsPackMSB(s: seq<int>)
    requires IsBits(s)
    ensures BitsToBytesValue(s) == PackMSB(s)
    ensures 0 <= BitsToBytesValue(s) < Pow2(|s|)
  {
    var r := Reverse(s);
    assert IsBits(r);
    OrAccumulateIsSum(r);
    SumOfReversed(s);
  }

  /** Eight received bits give one byte. */
  lemma EightBitsFitAByte(s: seq<int>)
    requires IsBits(s) && |s| == 8
    ensures 0 <= BitsToBytesValue(s) < 256
  {
    BitsToBytesIsPackMSB(s);
  }

  /**
   * Where the OR and the sum part: with an element other than 0 or 1 two
   * positions can share a bit. `[1, 2]` packs to 2 (2 OR 2), not to 1*2 + 2.
   */
  lemma OrIsNotSumBeyondBits()
    ensures BitsToBytesValue([1, 2]) == 2
    ensures PackMSB([1, 2]) == 4
  {
    var r := Reverse([1, 2]);
    assert r == [2, 1];
    assert r[..1] == [2];
    assert [2][..0] == [];
  }

  /** Peeling the last bit: PackMSB(s) == 2 * PackMSB(prefix) + last. */
  lemma {:induction false} PackMSBLast(s: seq<int>)
    requires |s| > 0
    ensures PackMSB(s) == 2 * PackMSB(s[..|s| - 1]) + s[|s| - 1]
  {
    var n := |s|;
    if n > 1 {
      PackMSBLast(s[1..]);
      assert s[1..][..n - 2] == s[..n - 1][1..];
      var p := Pow2(n - 2);
      assert Pow2(n - 1) == 2 * p;
      assert s[0] * (2 * p) == 2 * (s[0] * p);
    } else {
      assert s[..0] == [];
    }
  }

  /** Unpacking the packed value MSB-first into n bits gives back the list. */
  lemma {:induction false} UnpackPack(s: seq<int>)
    requires IsBits(s)
    ensures UnpackMSB(PackMSB(s), |s|) == s
  {
    if s != [] {
      var n := |s|;
      var prefix := s[..n - 1];
      assert IsBits(prefix) by {
        forall i | 0 <= i < |prefix| ensures prefix[i] == 0 || prefix[i] == 1 {
          assert prefix[i] == s[i];
        }
      }
      PackMSBLast(s);
      UnpackPack(prefix);
      var v := PackMSB(s);
      assert v / 2 == PackMSB(prefix) && v % 2 == s[n - 1];
      assert s == prefix + [s[n - 1]];
    }
  }

  /** On 0/1 lists of one length, `bits_to_bytes` tells different lists apart. */
  lemma BitsToBytesInjective(s: seq<int>, t: seq<int>)
    requires IsBits(s) && IsBits(t) && |s| == |t|
    requires BitsToBytesValue(s) == BitsToBytesValue(t)
    ensures s == t
  {
    BitsToBytesIsPackMSB(s);
    BitsToBytesIsPackMSB(t);
    UnpackPack(s);
    UnpackPack(t);
  }

  // ----- The in-place method ----------------------------------------------------

  /** Python's `data.reverse()`: reverses the array in place. */
  method ReverseInPlace(a: array<int>)
    modifies a
    ensures a[..] == Reverse(old(a[..]))
  {
    var lo, hi := 0, a.Length - 1;
    while lo < hi
      invariant 0 <= lo && hi == a.Length - 1 - lo && lo <= hi + 1
      invariant forall k :: 0 <= k < lo ==> a[k] == old(a[a.Length - 1 - k])
      invariant forall k :: hi < k < a.Length ==> a[k] == old(a[a.Length - 1 - k])
      invariant forall k :: lo <= k <= hi ==> a[k] == old(a[k])
    {
      a[lo], a[hi] := a[hi], a[lo];
      lo, hi := lo + 1, hi - 1;
    }
  }

  /**
   * `bits_to_bytes(data)` (src/m95160W.py:12-20): returns the accumulated value
   * and, as a side effect, leaves `data` reversed.
   */
  method BitsToBytes(data: array<int>) returns (result: int)
    modifies data
    ensures data[..] == Reverse(old(data[..]))
    ensures result == BitsToBytesValue(old(data[..]))
    ensures IsBits(old(data[..])) ==> result == PackMSB(old(data[..])) && 0 <= result < Pow2(data.Length)
  {
    result := 0;
    ReverseInPlace(data);
    var idx := 0;
    while idx < data.Length
      invariant 0 <= idx <= data.Length
      invariant data[..] == Reverse(old(data[..]))
      invariant result == OrAccumulate(data[..idx])
    {
      assert data[..idx + 1][..idx] == data[..idx];
      result := IntOr(result, data[idx] * Pow2(idx));
      idx := idx + 1;
    }
    assert data[..idx] == data[..];
    if IsBits(old(data[..])) {
      BitsToBytesIsPackMSB(old(data[..]));
    }
  }

  /**
   * The payload handling at src/m95160W.py:73-77 calls `bits_to_bytes` three
   * times on one list. The second call sees the list reversed by the first and
   * packs it the other way round; the third sees it restored and agrees with
   * the first. The list is left reversed.
   */
  method PackPayloadThrice(payload: array<int>) returns (first: int, second: int, third: int)
    modifies payload
    ensures first == third == BitsToBytesValue(old(payload[..]))
    ensures second == BitsToBytesValue(Reverse(old(payload[..])))
    ensures payload[..] == Reverse(old(payload[..]))
  {
    first := BitsToBytes(payload);
    second := BitsToBytes(payload);
    ReverseTwice(old(payload[..]));
    third := BitsToBytes(payload);
  }
}
