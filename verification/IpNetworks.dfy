/** IPv4 networks as ranges of integers. */
module IpNetworks {
  const ADDRESSES := 0x1_0000_0000

  function Pow2(n: nat): (p: nat)
    ensures p > 0
  {
    if n == 0 then 1 else 2 * Pow2(n - 1)
  }

  datatype Network = Network(address: nat, prefixLength: nat) {
    ghost predicate Valid() {
      address < ADDRESSES && prefixLength <= 32
    }

    /** How many addresses share the prefix. */
    function Block(): (b: nat)
      requires prefixLength <= 32
      ensures b > 0
    {
      Pow2(32 - prefixLength)
    }
  }

  /** Which block an address lies in. */
  function BlockIndex(address: nat, block: nat): nat
    requires block > 0
  {
    address / block
  }

  // ---------------------------------------------------------------- bits

  /** `x & y` */
  function And(x: nat, y: nat): nat {
    if x == 0 || y == 0 then 0
    else 2 * And(x / 2, y / 2) + if x % 2 == 1 && y % 2 == 1 then 1 else 0
  }

  /** `x | y` */
  function Or(x: nat, y: nat): nat {
    if x == 0 then y
    else 2 * Or(x / 2, y / 2) + if x % 2 == 1 || y % 2 == 1 then 1 else 0
  }

  /** `x << n` */
  function ShiftLeft(x: nat, n: nat): nat {
    x * Pow2(n)
  }

  /** `ip_network_tuple_to_min_max_ip(..., force_min_ip_greater_than_zero=True)` */
  function MinMaxIp(n: Network): (int, int)
    requires n.Valid()
  {
    var minIp := And(ShiftLeft(ShiftLeft(1, n.prefixLength) - 1, 32 - n.prefixLength), n.address);
    var maxIp := Or(ShiftLeft(1, 32 - n.prefixLength) - 1, n.address);
    (if minIp <= 0 then 1 else minIp, maxIp)
  }

  /** Bit number `i` */
  predicate Bit(x: nat, i: nat) {
    BlockIndex(x, Pow2(i)) % 2 == 1
  }

  /** Both work bit by bit. */
  lemma {:induction false} BitByBit(x: nat, y: nat, i: nat)
    ensures Bit(And(x, y), i) <==> Bit(x, i) && Bit(y, i)
    ensures Bit(Or(x, y), i) <==> Bit(x, i) || Bit(y, i)
    decreases i
  {
    BitAt(x, i);
    BitAt(y, i);
    BitAt(And(x, y), i);
    BitAt(Or(x, y), i);
    if i > 0 {
      BitByBit(x / 2, y / 2, i - 1);
    }
  }

  lemma BitAt(x: nat, i: nat)
    ensures Bit(x, i) <==> if i == 0 then x % 2 == 1 else Bit(x / 2, i - 1)
  {
    if i > 0 {
      DivideTwice(x, Pow2(i - 1));
    }
  }

  /** The last bit and the others, of a multiple of 2 and of the number after it. */
  lemma Halves(x: nat)
    ensures (2 * x) / 2 == x && (2 * x) % 2 == 0 && (2 * x + 1) / 2 == x && (2 * x + 1) % 2 == 1
  {
  }

  lemma {:induction false} AndOnes(p: nat, x: nat)
    requires x < Pow2(p)
    ensures And(Pow2(p) - 1, x) == x
  {
    if p > 0 && x > 0 {
      Halves(Pow2(p - 1) - 1);
      AndOnes(p - 1, x / 2);
    }
  }

  lemma DivideTwice(x: nat, b: nat)
    requires b > 0
    ensures x / (2 * b) == (x / 2) / b
  {
    var q := (x / 2) / b;
    SameQuotient(x / 2, q, b);
    SameQuotient(x, q, 2 * b);
    assert q * (2 * b) == 2 * (q * b);
  }

  /** Masking with the ones of the prefix keeps the multiple of the block. */
  lemma {:induction false} MaskKeepsBase(p: nat, h: nat, x: nat)
    requires x < Pow2(p) * Pow2(h)
    ensures And((Pow2(p) - 1) * Pow2(h), x) == (x / Pow2(h)) * Pow2(h)
    decreases h
  {
    if h == 0 {
      AndOnes(p, x);
    } else {
      var b := Pow2(h - 1);
      var m := (Pow2(p) - 1) * b;
      DivideTwice(x, b);
      MaskAndDouble(Pow2(p), b, m);
      Halves(m);
      MaskKeepsBase(p, h - 1, x / 2);
      assert And(2 * m, x) == 2 * And(m, x / 2);
      Regroup(x / 2 / b, b);
    }
  }

  lemma MaskAndDouble(ones: nat, b: nat, m: nat)
    requires ones > 0 && m == (ones - 1) * b
    ensures (ones - 1) * (2 * b) == 2 * m && ones * (2 * b) == 2 * (ones * b)
  {
  }

  lemma Regroup(q: nat, b: nat)
    ensures 2 * (q * b) == q * (2 * b)
  {
  }

  lemma OrOdd(c: nat, x: nat)
    ensures Or(2 * c + 1, x) == 2 * Or(c, x / 2) + 1
  {
    Halves(c);
  }

  /** The last number of a block. */
  function BlockEnd(index: nat, block: nat): nat
    requires block > 0
  {
    index * block + block - 1
  }

  lemma EndDoubles(index: nat, block: nat)
    requires block > 0
    ensures BlockEnd(index, 2 * block) == 2 * BlockEnd(index, block) + 1
  {
    Regroup(index, block);
  }

  /** Filling the bits after the prefix reaches the end of the block. */
  lemma {:induction false} OrReachesEnd(h: nat, x: nat)
    ensures Or(Pow2(h) - 1, x) == BlockEnd(BlockIndex(x, Pow2(h)), Pow2(h))
    decreases h
  {
    if h > 0 {
      var b := Pow2(h - 1);
      OrReachesEnd(h - 1, x / 2);
      OrOdd(b - 1, x);
      EndDoubles(BlockIndex(x / 2, b), b);
      assert BlockIndex(x, 2 * b) == BlockIndex(x / 2, b) by {
        DivideTwice(x, b);
      }
    }
  }

  /** The masked and filled addresses are the first and the last of the block. */
  lemma {:induction false} MaskingIsBlock(n: Network)
    requires n.Valid()
    ensures MinMaxIp(n) == BlockRange(BlockIndex(n.address, n.Block()), n.Block())
  {
    var h := 32 - n.prefixLength;
    AddressCount();
    Pow2Monotone(h, 32);
    MaskKeepsBase(n.prefixLength, h, n.address);
    OrReachesEnd(h, n.address);
  }

  /** The addresses of one block, the very first address excepted. */
  function BlockRange(index: nat, block: nat): (int, int) {
    var base := index * block;
    (if base <= 0 then 1 else base, base + block - 1)
  }

  lemma SameQuotient(x: nat, base: nat, b: nat)
    requires b > 0
    ensures BlockIndex(x, b) == base <==> base * b <= x < base * b + b
  {
    var q, r := x / b, x % b;
    assert x == q * b + r && 0 <= r < b;
    if base < q {
      assert (base + 1) * b <= q * b;
    } else if base > q {
      assert (q + 1) * b <= base * b;
    }
  }

  predicate InRange(range: (int, int), ip: int) {
    range.0 <= ip <= range.1
  }

  /** 0.0.0.0 is the mark of a missing address. */
  predicate InBlock(index: nat, block: nat, ip: nat)
    requires block > 0
  {
    ip != 0 && BlockIndex(ip, block) == index
  }

  predicate InNetwork(n: Network, ip: nat)
    requires n.Valid()
  {
    InBlock(BlockIndex(n.address, n.Block()), n.Block(), ip)
  }

  lemma RangeOfBlock(index: nat, block: nat, ip: nat)
    requires block > 0
    ensures InRange(BlockRange(index, block), ip) <==> InBlock(index, block, ip)
  {
    SameQuotient(ip, index, block);
  }

  /** The range holds exactly the addresses with the network's prefix, 0.0.0.0 excepted. */
  lemma {:induction false} RangeIsNetwork(n: Network, ip: nat)
    requires n.Valid()
    ensures InRange(MinMaxIp(n), ip) <==> InNetwork(n, ip)
  {
    MaskingIsBlock(n);
    RangeOfBlock(BlockIndex(n.address, n.Block()), n.Block(), ip);
  }

  lemma {:induction false} Pow2Monotone(m: nat, n: nat)
    requires m <= n
    ensures Pow2(n) == Pow2(n - m) * Pow2(m)
    decreases m
  {
    if m > 0 {
      Pow2Monotone(m - 1, n - 1);
    }
  }

  lemma AddressCount()
    ensures Pow2(32) == ADDRESSES
  {
    assert Pow2(4) == 16;
    Pow2Monotone(4, 8);
    Pow2Monotone(8, 16);
    Pow2Monotone(16, 32);
  }

  lemma MulMonotone(x: nat, y: nat, b: nat)
    requires x <= y
    ensures x * b <= y * b
  {
  }

  lemma RangeInSpace(address: nat, b: nat, blocks: nat)
    requires b > 0 && blocks * b == ADDRESSES && address < ADDRESSES
    ensures BlockRange(BlockIndex(address, b), b) == (1, 0)
            || 1 <= BlockRange(BlockIndex(address, b), b).0 <= BlockRange(BlockIndex(address, b), b).1 < ADDRESSES
  {
    var q := BlockIndex(address, b);
    SameQuotient(address, q, b);
    if q >= blocks {
      MulMonotone(blocks, q, b);
    } else {
      MulMonotone(q + 1, blocks, b);
    }
  }

  /** What is handed to the inside criteria: a range within the address space, or the one empty range. */
  lemma RangeIsLegal(n: Network)
    requires n.Valid()
    ensures MinMaxIp(n) == (1, 0) || 1 <= MinMaxIp(n).0 <= MinMaxIp(n).1 < ADDRESSES
  {
    MaskingIsBlock(n);
    Pow2Monotone(32 - n.prefixLength, 32);
    AddressCount();
    RangeInSpace(n.address, n.Block(), Pow2(n.prefixLength));
  }
}
