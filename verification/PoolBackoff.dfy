/** How long the pool waits before it retries a task. */
module PoolBackoff {
  import opened Basics

  const SECOND: int := 1_000_000_000
  const MAX_BACKOFF: int := 30 * SECOND
  /** time.Duration(1<<uint(retries-1)) * time.Second, in int64 nanoseconds. A shift by 64 or more, which a negative
      count becomes when converted to uint, gives 0. */
  function Doubled(retries: int): int {
    if retries < 1 || retries > 64 then 0 else Signed64(Signed64(Pow2(retries - 1)) * SECOND)
  }

  function Backoff(retries: int): int {
    if Doubled(retries) > MAX_BACKOFF then MAX_BACKOFF else Doubled(retries)
  }

  lemma {:induction false} Pow2Grows(j: nat, k: nat)
    requires j <= k
    ensures 1 <= Pow2(j) <= Pow2(k)
  {
    if j < k {
      Pow2Grows(j, k - 1);
    } else if j > 0 {
      Pow2Grows(j - 1, j - 1);
    }
  }

  lemma Pow2Plus8(k: nat)
    ensures Pow2(k + 8) == 256 * Pow2(k)
  {
    assert Pow2(k + 2) == 4 * Pow2(k);
    assert Pow2(k + 4) == 16 * Pow2(k);
    assert Pow2(k + 6) == 64 * Pow2(k);
  }

  lemma Pow2At32(k: nat)
    requires k == 32
    ensures Pow2(k) == 0x1_0000_0000 && Pow2(k + 1) == 0x2_0000_0000 && Pow2(k + 2) == 0x4_0000_0000
  {
    Pow2Plus8(0);
    Pow2Plus8(8);
    Pow2Plus8(16);
    Pow2Plus8(24);
  }

  lemma Pow2Small(k: nat)
    requires k <= 33
    ensures 1 <= Pow2(k) <= 0x2_0000_0000
  {
    Pow2At32(32);
    Pow2Grows(k, 33);
  }

  lemma Unwrapped(n: int)
    requires 0 <= n <= 0x2_0000_0000
    ensures Signed64(Signed64(n) * SECOND) == n * SECOND
  {
  }

  /** The first 34 retries wait 1, 2, 4, 8, 16 and then 30 seconds. */
  lemma BackoffSchedule(retries: int)
    requires 1 <= retries <= 34
    ensures Doubled(retries) == Pow2(retries - 1) * SECOND
    ensures Backoff(retries) == (if retries <= 5 then Pow2(retries - 1) else 30) * SECOND
    ensures SECOND <= Backoff(retries) <= MAX_BACKOFF
  {
    Pow2Small(retries - 1);
    Unwrapped(Pow2(retries - 1));
    if retries > 5 {
      Pow2Grows(5, retries - 1);
      assert Pow2(5) == 32;
    } else {
      Pow2Grows(retries - 1, 4);
      assert Pow2(4) == 16;
    }
  }

  /** Between the 35th retry, where the product first overflows, and the 55th, these still come out at 30 seconds. */
  const STILL_CAPPED: set<int> := {38, 42, 43, 46, 48, 51, 52, 54}

  /** The wrapped products of the retries from 34 to 55. */
  const PRODUCTS: seq<int> :=
    [8_589_934_592_000_000_000, -1_266_874_889_709_551_616, -2_533_749_779_419_103_232, -5_067_499_558_838_206_464,
     8_311_744_956_033_138_688, -1_823_254_161_643_274_240, -3_646_508_323_286_548_480, -7_293_016_646_573_096_960,
     3_860_710_780_563_357_696, 7_721_421_561_126_715_392, -3_003_900_951_456_120_832, -6_007_801_902_912_241_664,
     6_431_140_267_885_068_288, -5_584_463_537_939_415_040, 7_277_816_997_830_721_536, -3_891_110_078_048_108_544,
     -7_782_220_156_096_217_088, 2_882_303_761_517_117_440, 5_764_607_523_034_234_880, -6_917_529_027_641_081_856,
     4_611_686_018_427_387_904, -9_223_372_036_854_775_808]

  /** Wrapping takes away the multiple of 2^64 that brings a number into range. */
  lemma Signed64Is(n: int, k: int)
    requires -0x8000_0000_0000_0000 <= n - k * UINT64 < 0x8000_0000_0000_0000
    ensures Signed64(n) == n - k * UINT64
  {
  }

  lemma DoublingWraps(n: int, doubled: int, k: int)
    requires doubled == 2 * Signed64(n) - k * UINT64
    requires -0x8000_0000_0000_0000 <= doubled < 0x8000_0000_0000_0000
    ensures Signed64(2 * n) == doubled
  {
    var q := if n % UINT64 < 0x8000_0000_0000_0000 then n / UINT64 else n / UINT64 + 1;
    assert Signed64(n) == n - q * UINT64;
    Signed64Is(2 * n, 2 * q + k);
  }

  /** How often 2^64 is taken away when product i of the table is doubled. */
  function Carry(i: nat): int
    requires i < |PRODUCTS| - 1
  {
    if PRODUCTS[i + 1] == 2 * PRODUCTS[i] then 0 else if PRODUCTS[i] < 0 then -1 else 1
  }

  lemma ProductsDouble(i: nat)
    requires i < |PRODUCTS| - 1
    ensures PRODUCTS[i + 1] == 2 * PRODUCTS[i] - Carry(i) * UINT64
    ensures -0x8000_0000_0000_0000 <= PRODUCTS[i + 1] < 0x8000_0000_0000_0000
  {
  }

  lemma {:induction false} ProductIs(retries: int)
    requires 34 <= retries <= 55
    ensures Signed64(Pow2(retries - 1) * SECOND) == PRODUCTS[retries - 34]
  {
    if retries == 34 {
      Pow2At32(32);
      Signed64Is(Pow2(33) * SECOND, 0);
    } else {
      ProductIs(retries - 1);
      ProductsDouble(retries - 35);
      var n := Pow2(retries - 2) * SECOND;
      assert Pow2(retries - 1) * SECOND == 2 * n;
      DoublingWraps(n, PRODUCTS[retries - 34], Carry(retries - 35));
    }
  }

  /** The other products are negative then, and the timer fires at once. */
  lemma OverflowSchedule(retries: int)
    requires 35 <= retries <= 55
    ensures if retries in STILL_CAPPED then Backoff(retries) == MAX_BACKOFF else Backoff(retries) < 0
  {
    ProductIs(retries);
    Pow2From55(55);
    Pow2Grows(retries - 1, 55);
    Signed64Is(Pow2(retries - 1), 0);
  }

  /** From the 56th on it is a multiple of 2^64, and there is no backoff at all. */
  lemma NoBackoffFrom56(retries: int)
    requires retries >= 56
    ensures Backoff(retries) == 0
  {
    if retries <= 64 {
      Pow2From55(retries - 1);
      WrapMultiple(Pow2(retries - 1), 1953125 * Pow2(retries - 56));
    }
  }

  lemma WrapMultiple(n: int, q: int)
    requires n * SECOND == q * UINT64
    ensures Signed64(Signed64(n) * SECOND) == 0
  {
    var k := if n % UINT64 < 0x8000_0000_0000_0000 then n / UINT64 else n / UINT64 + 1;
    assert Signed64(n) == n - k * UINT64;
    MultipleWraps(Signed64(n) * SECOND, q - k * SECOND);
  }

  lemma MultipleWraps(n: int, q: int)
    requires n == q * UINT64
    ensures Signed64(n) == 0
  {
  }

  lemma {:induction false} Pow2From55(k: nat)
    requires k >= 55
    ensures 512 * Pow2(k) == UINT64 * Pow2(k - 55)
  {
    if k > 55 {
      Pow2From55(k - 1);
    } else {
      Pow2At32(32);
      Pow2Plus8(32);
      Pow2Plus8(40);
      Pow2Plus8(48);
      assert Pow2(56) == 2 * Pow2(55);
    }
  }

  predicate InRange(retries: int) {
    SECOND <= Backoff(retries) <= MAX_BACKOFF
  }

  /** The backoff is within one and thirty seconds exactly at these retry counts. */
  lemma InRangeIff(retries: int)
    ensures InRange(retries) <==> 1 <= retries <= 34 || retries in STILL_CAPPED
  {
    if 1 <= retries <= 34 {
      BackoffSchedule(retries);
    } else if 35 <= retries <= 55 {
      OverflowSchedule(retries);
    } else if retries >= 56 {
      NoBackoffFrom56(retries);
    }
  }

  /** So all retries that a limit allows wait within one and thirty seconds exactly if the limit is at most 34. */
  lemma AllInRangeIff(maxRetries: int)
    ensures (forall retries | 1 <= retries <= maxRetries :: InRange(retries)) <==> maxRetries <= 34
  {
    if maxRetries <= 34 {
      forall retries | 1 <= retries <= maxRetries ensures InRange(retries) {
        InRangeIff(retries);
      }
    } else {
      InRangeIff(35);
    }
  }
}
