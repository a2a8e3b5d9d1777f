/** The bit mask that turns random words into write offsets. */
module AccessMask {
  import opened Powers

  /** `x` shifted right by `n`. */
  function ShiftRight(x: nat, n: nat): nat {
    if n == 0 then x else ShiftRight(x / 2, n - 1)
  }

  function ShiftLeft(x: nat, n: nat): nat
    decreases n
  {
    if n == 0 then x else ShiftLeft(2 * x, n - 1)
  }

  /** The bits from `l` up to `h`. */
  function Bits(h: nat, l: nat): nat
    requires l <= h
  {
    if l > 0 then 2 * Bits(h - 1, l - 1) else if h > 0 then 1 + 2 * Bits(h - 1, 0) else 0
  }

  lemma {:induction false} BitsValue(h: nat, l: nat)
    requires l <= h
    ensures Bits(h, l) == Pow2(h) - Pow2(l)
  {
    if l > 0 {
      BitsValue(h - 1, l - 1);
    } else if h > 0 {
      BitsValue(h - 1, 0);
    }
  }

  /** The size of a device, 70 GiB.  The mask is made for it, whatever the region that is written. */
  const DEVDAX_FILE_SIZE: nat := 70 * 1024 * 1024 * 1024

  /** The mask for the given alignment: the bits from its logarithm up to that of the size of a device. */
  function Mask(alignment: nat): nat {
    var h, l := Log2(DEVDAX_FILE_SIZE), Log2(alignment);
    if l <= h then Bits(h, l) else 0
  }

  lemma {:induction false} ShiftLeftTwice(x: nat, n: nat)
    ensures ShiftLeft(2 * x, n) == 2 * ShiftLeft(x, n)
    decreases n
  {
    if n != 0 {
      ShiftLeftTwice(2 * x, n - 1);
    }
  }

  /** Shifting `h` ones out to the right by `l` and back clears the lowest `l`. */
  lemma {:induction false} ShiftedMask(h: nat, l: nat)
    ensures ShiftLeft(ShiftRight(Pow2(h) - 1, l), l) == if l <= h then Bits(h, l) else 0
  {
    BitsValue(h, 0);
    if l != 0 {
      if h != 0 {
        assert (Pow2(h) - 1) / 2 == Pow2(h - 1) - 1;
        ShiftedMask(h - 1, l - 1);
        ShiftLeftTwice(ShiftRight(Pow2(h - 1) - 1, l - 1), l - 1);
      } else {
        ShiftedMask(0, l - 1);
        ShiftLeftTwice(ShiftRight(0, l - 1), l - 1);
      }
    }
  }

  lemma {:induction false} ShiftRightNext(x: nat, n: nat)
    ensures ShiftRight(x, n + 1) == ShiftRight(x, n) / 2
  {
    if n != 0 {
      ShiftRightNext(x / 2, n - 1);
    }
  }

  lemma ShiftsEnd(x: nat, n: nat)
    requires n <= Log2(x)
    ensures ShiftRight(x, n) > 1 <==> n < Log2(x)
  {
    ShiftsLog(x, n);
  }

  lemma {:induction false} ShiftsLog(x: nat, n: nat)
    requires n <= Log2(x)
    ensures Log2(ShiftRight(x, n)) == Log2(x) - n
  {
    if n != 0 {
      ShiftsLog(x / 2, n - 1);
    }
  }

  /** Accesses of `ad` bytes are aligned to their size if the flag is set, else to 64 bytes. */
  function Alignment(ad: nat, alignedFlag: bool): nat {
    if alignedFlag then ad else 64
  }

  /** The first loop of get_access_mask sets one bit for every halving. */
  method SizeMask(fileSize: nat) returns (mask: nat)
    ensures mask == Pow2(Log2(fileSize)) - 1
  {
    mask := 0;
    var fs := fileSize / 2;
    ghost var h := 0;
    while fs > 0
      invariant h <= Log2(fileSize) && fs == ShiftRight(fileSize, h) / 2 && mask == Pow2(h) - 1
    {
      ShiftsEnd(fileSize, h);
      ShiftRightNext(fileSize, h);
      mask := mask * 2;
      mask := mask + 1;
      fs := fs / 2;
      h := h + 1;
    }
    ShiftsEnd(fileSize, h);
  }

  /** The second loop counts the halvings of the alignment. */
  method BitCount(alignment: nat) returns (bitCount: nat)
    ensures bitCount == Log2(alignment)
  {
    bitCount := 0;
    var rest := alignment / 2;
    while rest > 0
      invariant bitCount <= Log2(alignment) && rest == ShiftRight(alignment, bitCount) / 2
    {
      ShiftsEnd(alignment, bitCount);
      ShiftRightNext(alignment, bitCount);
      rest := rest / 2;
      bitCount := bitCount + 1;
    }
    ShiftsEnd(alignment, bitCount);
  }

  /** get_access_mask: shifting the mask right and left clears as many bits. */
  method GetAccessMask(ad: nat, alignedFlag: bool) returns (mask: nat)
    ensures mask == Mask(Alignment(ad, alignedFlag))
  {
    mask := SizeMask(DEVDAX_FILE_SIZE);
    var bitCount := BitCount(Alignment(ad, alignedFlag));
    ShiftedMask(Log2(DEVDAX_FILE_SIZE), bitCount);
    mask := ShiftLeft(ShiftRight(mask, bitCount), bitCount);
  }

  // ---------------------------------------------------------------- masked offsets

  /** Bitwise and. */
  function And(x: nat, y: nat): nat {
    if x == 0 || y == 0 then 0 else (x % 2) * (y % 2) + 2 * And(x / 2, y / 2)
  }

  /** A multiple of 2^l. */
  predicate Multiple(x: nat, l: nat) {
    l == 0 || (x % 2 == 0 && Multiple(x / 2, l - 1))
  }

  lemma {:induction false} MultipleMeaning(x: nat, l: nat)
    ensures Multiple(x, l) <==> x == ShiftRight(x, l) * Pow2(l)
  {
    if l != 0 {
      MultipleMeaning(x / 2, l - 1);
      var q, p := ShiftRight(x, l), Pow2(l - 1);
      assert q * Pow2(l) == 2 * (q * p);
    }
  }

  lemma AndEven(x: nat, y: nat)
    ensures And(x, 2 * y) == 2 * And(x / 2, y)
  {
    assert 2 * y / 2 == y && 2 * y % 2 == 0;
  }

  lemma AndOdd(x: nat, y: nat)
    ensures And(x, 1 + 2 * y) == x % 2 + 2 * And(x / 2, y)
  {
    assert (1 + 2 * y) / 2 == y && (1 + 2 * y) % 2 == 1;
  }

  lemma DoubleMultiple(a: nat, l: nat)
    requires l > 0 && Multiple(a, l - 1)
    ensures Multiple(2 * a, l)
  {
    assert 2 * a / 2 == a;
  }

  /** Masking with the bits from `l` to `h` gives a multiple of 2^l that is not above the mask. */
  lemma {:induction false} AndBits(x: nat, h: nat, l: nat)
    requires l <= h
    ensures Multiple(And(x, Bits(h, l)), l) && And(x, Bits(h, l)) <= Bits(h, l)
    decreases h
  {
    if l != 0 {
      var a := And(x / 2, Bits(h - 1, l - 1));
      AndBits(x / 2, h - 1, l - 1);
      assert And(x, Bits(h, l)) == 2 * a by {
        AndEven(x, Bits(h - 1, l - 1));
      }
      DoubleMultiple(a, l);
    } else if h != 0 {
      AndBits(x / 2, h - 1, 0);
      AndOdd(x, Bits(h - 1, 0));
    }
  }

  /** The multiples of 2^l below 2^h are left as they are. */
  lemma {:induction false} AndBitsKeeps(x: nat, h: nat, l: nat)
    requires l <= h && Multiple(x, l) && x < Pow2(h)
    ensures And(x, Bits(h, l)) == x
    decreases h
  {
    if l != 0 {
      AndEven(x, Bits(h - 1, l - 1));
      AndBitsKeeps(x / 2, h - 1, l - 1);
    } else if h != 0 {
      AndOdd(x, Bits(h - 1, 0));
      AndBitsKeeps(x / 2, h - 1, 0);
    }
  }

  lemma {:induction false} Log2Shifted(x: nat, n: nat)
    requires x > 0
    ensures Log2(x * Pow2(n)) == Log2(x) + n
  {
    if n != 0 {
      assert x * Pow2(n) == 2 * (x * Pow2(n - 1));
      assert x * Pow2(n - 1) > 0;
      Log2Shifted(x, n - 1);
    }
  }

  lemma PowersOfDevice()
    ensures Pow2(10) == 1024 && Pow2(30) == 0x4000_0000 && Pow2(36) == 0x10_0000_0000
  {
    assert Pow2(5) == 32;
    Pow2Product(5, 5);
    Pow2Product(10, 10);
    Pow2Product(20, 10);
    assert Pow2(6) == 64;
    Pow2Product(30, 6);
  }

  /** 2^36 is the greatest power of two that is not above the size of a device. */
  lemma DeviceLogarithm()
    ensures Log2(DEVDAX_FILE_SIZE) == 36
  {
    PowersOfDevice();
    Log2Shifted(70, 30);
    assert Log2(70) == 6;
  }

  ghost predicate IsOffset(alignment: nat, offset: nat) {
    exists r: nat :: And(r, Mask(alignment)) == offset
  }

  /** For an alignment up to the size of a device: the offsets that masking can give. */
  lemma OffsetsAreMultiples(alignment: nat, offset: nat)
    requires 1 <= alignment <= DEVDAX_FILE_SIZE
    ensures IsOffset(alignment, offset) <==> Multiple(offset, Log2(alignment)) && offset < Pow2(36)
  {
    var h, l := Log2(DEVDAX_FILE_SIZE), Log2(alignment);
    DeviceLogarithm();
    Log2Monotone(alignment, DEVDAX_FILE_SIZE);
    BitsValue(h, l);
    if IsOffset(alignment, offset) {
      var r: nat :| And(r, Mask(alignment)) == offset;
      AndBits(r, h, l);
    }
    if Multiple(offset, l) && offset < Pow2(h) {
      AndBitsKeeps(offset, h, l);
      assert And(offset, Mask(alignment)) == offset;
    }
  }

  lemma {:induction false} AndItself(x: nat)
    ensures And(x, x) == x
  {
    if x != 0 {
      AndItself(x / 2);
    }
  }

  lemma MaskIsGreatest(alignment: nat, r: nat)
    ensures And(r, Mask(alignment)) <= Mask(alignment)
  {
    var h, l := Log2(DEVDAX_FILE_SIZE), Log2(alignment);
    if l <= h {
      AndBits(r, h, l);
    }
  }

  /** All writes of `ad` bytes stay in a region exactly when the one at the greatest offset, the mask, does. */
  lemma WritesFit(alignment: nat, ad: nat, regionSize: nat)
    ensures (forall r: nat :: And(r, Mask(alignment)) + ad <= regionSize) <==> Mask(alignment) + ad <= regionSize
  {
    forall r: nat ensures And(r, Mask(alignment)) <= Mask(alignment) {
      MaskIsGreatest(alignment, r);
    }
    AndItself(Mask(alignment));
  }

  lemma MaskValue(alignment: nat)
    requires 1 <= alignment <= DEVDAX_FILE_SIZE
    ensures Mask(alignment) == Pow2(36) - Pow2(Log2(alignment))
  {
    DeviceLogarithm();
    Log2Monotone(alignment, DEVDAX_FILE_SIZE);
    BitsValue(36, Log2(alignment));
  }

  /**
   Random writes of a power of two of bytes, aligned to it, stay in the region exactly when it has at least
   64 GiB.
   */
  lemma AlignedWritesFit(n: nat, regionSize: nat)
    requires n <= 36
    ensures (forall r: nat :: And(r, Mask(Alignment(Pow2(n), true))) + Pow2(n) <= regionSize) <==>
      64 * 1024 * 1024 * 1024 <= regionSize
  {
    Pow2Monotone(n, 36);
    PowersOfDevice();
    Log2OfPow2(n);
    MaskValue(Pow2(n));
    WritesFit(Alignment(Pow2(n), true), Pow2(n), regionSize);
  }

  /**
   Random writes aligned to 64 bytes stay in the region exactly when it has as much, and room for what is
   beyond 64 bytes.
   */
  lemma UnalignedWritesFit(ad: nat, regionSize: nat)
    ensures (forall r: nat :: And(r, Mask(Alignment(ad, false))) + ad <= regionSize) <==>
      64 * 1024 * 1024 * 1024 - 64 + ad <= regionSize
  {
    PowersOfDevice();
    assert Log2(64) == 6 && Pow2(6) == 64;
    MaskValue(64);
    WritesFit(Alignment(ad, false), ad, regionSize);
  }

  /** In a device, all random writes whose size is an int stay inside. */
  lemma DeviceWritesFit(ad: nat, alignedFlag: bool, r: nat)
    requires 1 <= ad < 0x8000_0000
    ensures And(r, Mask(Alignment(ad, alignedFlag))) + ad <= DEVDAX_FILE_SIZE
  {
    PowersOfDevice();
    MaskIsGreatest(Alignment(ad, alignedFlag), r);
    MaskValue(Alignment(ad, alignedFlag));
  }
}
