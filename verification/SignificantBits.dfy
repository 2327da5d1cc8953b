/** Truncation of numbers to their leading bits. */
module SignificantBits {
  import opened Arithmetic

  function Pow2(n: nat): (p: nat)
    ensures p > 0
  {
    if n == 0 then 1 else 2 * Pow2(n - 1)
  }

  function BitLength(x: nat): nat {
    if x == 0 then 0 else 1 + BitLength(x / 2)
  }

  /** Clears the lowest k bits. */
  function ClearLow(x: nat, k: nat): nat {
    if k == 0 then x else 2 * ClearLow(x / 2, k - 1)
  }

  /** Keeps the top bits of a number and clears the rest. */
  function TruncateToSignificantBits(x: nat, bits: nat): nat {
    if bits > BitLength(x) then x else ClearLow(x, BitLength(x) - bits)
  }

  /** The number of bits from the highest to the lowest bit that is set. */
  function CountSignificantBits(x: nat): nat {
    if x == 0 then 0 else if x % 2 == 0 then CountSignificantBits(x / 2) else BitLength(x)
  }

  lemma {:induction false} Pow2Monotone(i: nat, j: nat)
    requires i <= j
    ensures Pow2(i) <= Pow2(j)
    decreases j
  {
    if i < j { Pow2Monotone(i, j - 1); }
  }

  lemma {:induction false} BitLengthBounds(x: nat)
    requires x > 0
    ensures BitLength(x) > 0 && Pow2(BitLength(x) - 1) <= x < Pow2(BitLength(x))
  {
    if x > 1 { BitLengthBounds(x / 2); }
  }

  lemma {:induction false} BitLengthUnique(x: nat, n: nat)
    requires n > 0 && Pow2(n - 1) <= x < Pow2(n)
    ensures BitLength(x) == n
  {
    BitLengthBounds(x);
    if BitLength(x) < n { Pow2Monotone(BitLength(x), n - 1); }
    if BitLength(x) > n { Pow2Monotone(n, BitLength(x) - 1); }
  }

  lemma {:induction false} ModuloTwice(x: nat, m: nat)
    requires m > 0
    ensures x % (2 * m) == 2 * ((x / 2) % m) + x % 2
  {
    var q, r := (x / 2) / m, (x / 2) % m;
    assert x == (2 * m) * q + (2 * r + x % 2);
    ModuloUnique(x, 2 * m, q, 2 * r + x % 2);
  }

  /** Divisibility by a power of two is inherited by smaller powers. */
  lemma {:induction false} DivisibleDown(x: nat, i: nat, j: nat)
    requires i <= j && x % Pow2(j) == 0
    ensures x % Pow2(i) == 0
  {
    if i > 0 {
      ModuloTwice(x, Pow2(j - 1));
      ModuloTwice(x, Pow2(i - 1));
      DivisibleDown(x / 2, i - 1, j - 1);
    }
  }

  lemma {:induction false} ClearLowIsMultiple(x: nat, k: nat)
    ensures ClearLow(x, k) == x - x % Pow2(k)
    ensures ClearLow(x, k) % Pow2(k) == 0
  {
    if k > 0 {
      ClearLowIsMultiple(x / 2, k - 1);
      ModuloTwice(x, Pow2(k - 1));
      var half := ClearLow(x / 2, k - 1);
      assert (2 * half) / 2 == half && (2 * half) % 2 == 0;
      ModuloTwice(2 * half, Pow2(k - 1));
    }
  }

  /** Clearing low bits does not pass below a power of two that is itself kept. */
  lemma {:induction false} ClearLowKeeps(x: nat, k: nat, j: nat)
    requires k <= j && Pow2(j) <= x
    ensures Pow2(j) <= ClearLow(x, k) <= x
  {
    if k > 0 { ClearLowKeeps(x / 2, k - 1, j - 1); }
  }

  /** A number whose low bits are clear has only the remaining bits to count. */
  lemma {:induction false} ClearMeansFewBits(x: nat, k: nat)
    requires x % Pow2(k) == 0
    ensures CountSignificantBits(x) <= if BitLength(x) > k then BitLength(x) - k else 0
  {
    if k == 0 {
      CountAtMostLength(x);
    } else if x > 0 {
      ModuloTwice(x, Pow2(k - 1));
      ClearMeansFewBits(x / 2, k - 1);
    }
  }

  lemma {:induction false} CountAtMostLength(x: nat)
    ensures CountSignificantBits(x) <= BitLength(x)
  {
    if x > 0 { CountAtMostLength(x / 2); }
  }

  /** Few significant bits means that the low bits are clear. */
  lemma {:induction false} FewBitsMeansClear(x: nat, k: nat)
    requires x > 0 && k <= BitLength(x) && CountSignificantBits(x) <= BitLength(x) - k
    ensures x % Pow2(k) == 0
  {
    if k > 0 {
      assert x % 2 == 0;
      FewBitsMeansClear(x / 2, k - 1);
      ModuloTwice(x, Pow2(k - 1));
    }
  }

  /** Truncation never grows a number, loses less than the lowest kept bit, keeps the leading bit,
      and leaves at most `bits` bits. */
  lemma {:induction false} TruncateSpec(x: nat, bits: nat)
    requires bits > 0
    ensures TruncateToSignificantBits(x, bits) <= x
    ensures bits > BitLength(x) ==> TruncateToSignificantBits(x, bits) == x
    ensures bits <= BitLength(x) ==> x - TruncateToSignificantBits(x, bits) < Pow2(BitLength(x) - bits)
    ensures BitLength(TruncateToSignificantBits(x, bits)) == BitLength(x)
    ensures CountSignificantBits(TruncateToSignificantBits(x, bits)) <= bits
  {
    CountAtMostLength(x);
    if bits <= BitLength(x) && x > 0 {
      var k := BitLength(x) - bits;
      BitLengthBounds(x);
      ClearLowIsMultiple(x, k);
      ClearLowKeeps(x, k, BitLength(x) - 1);
      BitLengthUnique(ClearLow(x, k), BitLength(x));
      ClearMeansFewBits(ClearLow(x, k), k);
    }
  }

  /** A number with few bits is left as it is. */
  lemma {:induction false} TruncateKeeps(x: nat, bits: nat)
    requires CountSignificantBits(x) <= bits
    ensures TruncateToSignificantBits(x, bits) == x
  {
    if bits <= BitLength(x) && x > 0 {
      FewBitsMeansClear(x, BitLength(x) - bits);
      ClearLowIsMultiple(x, BitLength(x) - bits);
    }
  }

  /** Clearing low bits twice is clearing the larger number of them. */
  lemma {:induction false} ClearTwice(x: nat, i: nat, j: nat)
    ensures ClearLow(ClearLow(x, i), j) == ClearLow(x, if i <= j then j else i)
    decreases i + j
  {
    if i > 0 && j > 0 { ClearTwice(x / 2, i - 1, j - 1); }
  }

  /** Rounding down to a multiple of a power of two costs no significant bits. */
  lemma {:induction false} RoundDownSpec(x: nat, bits: nat, j: nat)
    requires Pow2(j) <= x && CountSignificantBits(x) <= bits
    ensures Pow2(j) <= ClearLow(x, j) <= x
    ensures ClearLow(x, j) % Pow2(j) == 0
    ensures CountSignificantBits(ClearLow(x, j)) <= bits
  {
    BitLengthBounds(x);
    var len := BitLength(x);
    if j >= len { Pow2Monotone(len, j); }
    ClearLowIsMultiple(x, j);
    ClearLowKeeps(x, j, j);
    ClearLowKeeps(x, j, len - 1);
    BitLengthUnique(ClearLow(x, j), len);
    ClearMeansFewBits(ClearLow(x, j), j);
    if bits < len && len - bits > j {
      FewBitsMeansClear(x, len - bits);
      DivisibleDown(x, j, len - bits);
    }
    CountAtMostLength(ClearLow(x, j));
  }
}
