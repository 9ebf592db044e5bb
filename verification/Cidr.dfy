/** Expanding and counting CIDR ranges (core/net/iputils/cidr.go). The notation is section 3.1 of RFC
    4632 and section 2.3 of RFC 4291: an address and the number of leading bits that are fixed. */
module Cidr {

  const MAX_EXPAND_HOST_BITS: nat := 20
  const MAX_COUNT_HOST_BITS: nat := 62

  datatype Family = V4 | V6

  /** `Invalid` is what follows the last address of a family. */
  datatype Address = Invalid | Address(family: Family, value: nat)

  datatype Prefix = Prefix(family: Family, value: nat, bits: nat)

  /** What parsing a prefix yields: an address of its family and at most as many bits as it has. */
  type ParsedPrefix = p: Prefix | p.value < Pow2(BitLen(p.family)) && p.bits <= BitLen(p.family)
    witness (Pow2Positive(32); Prefix(V4, 0, 32))

  datatype Text = Malformed | WellFormed(prefix: ParsedPrefix)

  datatype Error = InvalidCIDR | CIDRTooLarge

  datatype Result<T> = Ok(value: T) | Err(error: Error)

  function Pow2(n: nat): nat {
    if n == 0 then 1 else 2 * Pow2(n - 1)
  }

  function BitLen(family: Family): nat {
    if family == V4 then 32 else 128
  }

  function HostBits(p: ParsedPrefix): nat {
    BitLen(p.family) - p.bits
  }

  function BlockSize(p: ParsedPrefix): (size: nat)
    ensures size > 0
  {
    Pow2Positive(HostBits(p));
    Pow2(HostBits(p))
  }

  /** The address after `a`; none after the last one of its family. */
  function Next(a: Address): Address {
    if a.Invalid? || a.value + 1 >= Pow2(BitLen(a.family)) then Invalid else Address(a.family, a.value + 1)
  }

  /** Same family, same leading bits. */
  predicate Contains(p: ParsedPrefix, a: Address) {
    a.Address? && a.family == p.family && a.value / BlockSize(p) == p.value / BlockSize(p)
  }

  function RoundDown(v: nat, size: nat): (base: nat)
    requires size > 0
    ensures base <= v
  {
    v - v % size
  }

  /** The host bits cleared. */
  function Masked(p: ParsedPrefix): ParsedPrefix {
    var base := RoundDown(p.value, BlockSize(p));
    p.(value := base)
  }

  /** int64(1) << n, with the width of the result. */
  function ShiftOne(n: nat): int {
    var wide := if n < 64 then Pow2(n) else 0;
    if wide >= Pow2(63) then wide - Pow2(64) else wide
  }

  function ParseBoundedPrefix(text: Text, maxHostBits: nat): Result<ParsedPrefix> {
    match text
    case Malformed => Err(InvalidCIDR)
    case WellFormed(p) => if HostBits(p) > maxHostBits then Err(CIDRTooLarge) else Ok(p)
  }

  function CountCIDR(text: Text): Result<int> {
    match ParseBoundedPrefix(text, MAX_COUNT_HOST_BITS)
    case Err(e) => Err(e)
    case Ok(p) => Ok(ShiftOne(HostBits(p)))
  }

  // ---------- Powers and blocks ----------

  lemma Pow2Positive(n: nat)
    ensures Pow2(n) > 0
  {
  }

  lemma {:induction false} Pow2Sum(a: nat, b: nat)
    ensures Pow2(a + b) == Pow2(a) * Pow2(b)
  {
    if a == 0 {
    } else {
      Pow2Sum(a - 1, b);
    }
  }

  lemma {:induction false} Pow2Monotone(a: nat, b: nat)
    requires a < b
    ensures Pow2(a) < Pow2(b)
  {
    Pow2Positive(b - 1);
    if a < b - 1 {
      Pow2Monotone(a, b - 1);
    }
  }

  lemma Scale(size: int, a: int, b: int)
    requires size > 0 && a + 1 <= b
    ensures size * a + size <= size * b
  {
    assert size * (b - (a + 1)) >= 0;
  }

  lemma QuotientBelow(size: int, a: int, b: int)
    requires size > 0 && size * a < size * b
    ensures a < b
  {
    if b < a {
      Scale(size, b, a);
    }
  }

  /** A number has the quotient of `v` iff it lies in the block that starts at `v` rounded down. */
  lemma BlockIff(v: nat, w: nat, size: nat)
    requires size > 0
    ensures w / size == v / size <==> RoundDown(v, size) <= w < RoundDown(v, size) + size
  {
    var p, q := v / size, w / size;
    assert v == size * p + v % size && w == size * q + w % size;
    if q < p {
      Scale(size, q, p);
    } else if p < q {
      Scale(size, p, q);
    }
  }

  lemma RoundDownFits(v: nat, size: nat, top: nat)
    requires size > 0 && v < size * top
    ensures RoundDown(v, size) + size <= size * top
  {
    var q := v / size;
    assert v == size * q + v % size;
    QuotientBelow(size, q, top);
    Scale(size, q, top);
  }

  /** The block of a prefix lies within its family. */
  lemma BlockFits(p: ParsedPrefix)
    ensures Masked(p).value + BlockSize(p) <= Pow2(BitLen(p.family))
  {
    var host, bits := HostBits(p), p.bits;
    Pow2Sum(host, bits);
    assert host + bits == BitLen(p.family);
    RoundDownFits(p.value, BlockSize(p), Pow2(bits));
  }

  // ---------- Expansion ----------

  /** The bits a prefix leaves free, of 32 or 128. */
  function FreeBits(p: ParsedPrefix): nat {
    match p.family
    case V4 => 32 - p.bits
    case V6 => 128 - p.bits
  }

  /** The addresses of a prefix that exist in its family. */
  ghost predicate InRange(p: ParsedPrefix, a: Address) {
    Contains(p, a) && a.value < Pow2(BitLen(a.family))
  }

  /** Strictly ascending, and all and only the addresses of the prefix. */
  ghost predicate IsExpansion(p: ParsedPrefix, ips: seq<Address>) {
    && (forall i :: 0 <= i < |ips| ==> InRange(p, ips[i]))
    && (forall i, j :: 0 <= i < j < |ips| ==> ips[i].value < ips[j].value)
    && (forall a :: InRange(p, a) ==> a in ips)
  }

  /** The i-th address of the block. */
  function Nth(p: ParsedPrefix, i: nat): Address {
    if Masked(p).value + i < Pow2(BitLen(p.family)) then Address(p.family, Masked(p).value + i) else Invalid
  }

  lemma NthContained(p: ParsedPrefix, i: nat)
    requires i <= BlockSize(p)
    ensures Contains(Masked(p), Nth(p, i)) <==> i < BlockSize(p)
    ensures i < BlockSize(p) ==> InRange(p, Nth(p, i)) && Nth(p, i).value == Masked(p).value + i
                                 && Next(Nth(p, i)) == Nth(p, i + 1)
  {
    BlockFits(p);
    BlockIff(p.value, Masked(p).value, BlockSize(p));
    BlockIff(p.value, Masked(p).value + i, BlockSize(p));
  }

  lemma NthIsExpansion(p: ParsedPrefix, ips: seq<Address>)
    requires |ips| == BlockSize(p) && forall i :: 0 <= i < |ips| ==> ips[i] == Nth(p, i)
    ensures IsExpansion(p, ips)
  {
    forall i | 0 <= i < |ips| ensures InRange(p, ips[i]) && ips[i].value == Masked(p).value + i {
      NthContained(p, i);
    }
    forall a | InRange(p, a) ensures a in ips {
      BlockIff(p.value, a.value, BlockSize(p));
      var i := a.value - Masked(p).value;
      assert ips[i] == a;
    }
  }

  /** The loop over the addresses, which also ends when the block is the last of its family. */
  method ExpandCIDR(text: Text) returns (r: Result<seq<Address>>)
    ensures r == Err(InvalidCIDR) <==> text.Malformed?
    ensures r == Err(CIDRTooLarge) <==> text.WellFormed? && FreeBits(text.prefix) > 20
    ensures r.Ok? ==> text.WellFormed? && IsExpansion(text.prefix, r.value) && CountCIDR(text) == Ok(|r.value|)
  {
    var parsed := ParseBoundedPrefix(text, MAX_EXPAND_HOST_BITS);
    if parsed.Err? {
      return Err(parsed.error);
    }
    var p := parsed.value;
    var masked := Masked(p);
    var ips: seq<Address> := [];
    var addr := Address(masked.family, masked.value);
    NthContained(p, 0);
    while Contains(masked, addr)
      invariant |ips| <= BlockSize(p) && addr == Nth(p, |ips|)
      invariant forall i :: 0 <= i < |ips| ==> ips[i] == Nth(p, i)
      decreases BlockSize(p) - |ips|
    {
      NthContained(p, |ips|);
      ips := ips + [addr];
      addr := Next(addr);
    }
    NthContained(p, |ips|);
    NthIsExpansion(p, ips);
    CountExact(p);
    return Ok(ips);
  }

  // ---------- Counting ----------

  function Addresses(p: ParsedPrefix): set<Address> {
    set v | 0 <= v < Pow2(BitLen(p.family)) && Contains(p, Address(p.family, v)) :: Address(p.family, v)
  }

  function Interval(family: Family, base: nat, n: nat): set<Address> {
    set v | base <= v < base + n :: Address(family, v)
  }

  lemma {:induction false} IntervalSize(family: Family, base: nat, n: nat)
    ensures |Interval(family, base, n)| == n
  {
    if n == 0 {
    } else {
      IntervalSize(family, base, n - 1);
      assert Interval(family, base, n) == Interval(family, base, n - 1) + {Address(family, base + n - 1)};
    }
  }

  /** Up to 62 host bits the shift is exact; 63 would be the sign bit, and more shift the one out. */
  lemma ShiftIsExactIff(n: nat)
    ensures n == 63 ==> ShiftOne(n) + Pow2(63) == 0
    ensures n > 63 ==> ShiftOne(n) == 0
    ensures ShiftOne(n) == Pow2(n) <==> n <= 62
  {
    Pow2Positive(n);
    if n < 63 {
      Pow2Monotone(n, 63);
    } else if n < 64 {
      Pow2Monotone(n, 64);
    }
  }

  lemma CountExact(p: ParsedPrefix)
    requires HostBits(p) <= MAX_COUNT_HOST_BITS
    ensures CountCIDR(WellFormed(p)) == Ok(BlockSize(p))
  {
    ShiftIsExactIff(HostBits(p));
  }

  /** The closed form counts the addresses that the prefix contains, for every range it accepts. */
  lemma CountIsCardinality(p: ParsedPrefix)
    ensures CountCIDR(Malformed) == Err(InvalidCIDR)
    ensures FreeBits(p) <= 62 ==> CountCIDR(WellFormed(p)) == Ok(|Addresses(p)|)
    ensures FreeBits(p) > 62 ==> CountCIDR(WellFormed(p)) == Err(CIDRTooLarge)
  {
    BlockFits(p);
    forall v: nat ensures Contains(p, Address(p.family, v)) <==> Masked(p).value <= v < Masked(p).value + BlockSize(p) {
      BlockIff(p.value, v, BlockSize(p));
    }
    assert Addresses(p) == Interval(p.family, Masked(p).value, BlockSize(p));
    IntervalSize(p.family, Masked(p).value, BlockSize(p));
    if HostBits(p) <= MAX_COUNT_HOST_BITS {
      CountExact(p);
    }
  }

  /** The range 255.255.255.255/32 ends the address space: one address, after which there is none. */
  lemma LastAddress()
    ensures Pow2(32) == 0x1_0000_0000
    ensures var last := Address(V4, 0xFFFF_FFFF); Next(last) == Invalid && Contains(Prefix(V4, 0xFFFF_FFFF, 32), last)
  {
    Pow2Sum(16, 16);
    Pow2Sum(8, 8);
    assert Pow2(8) == 256;
    assert Pow2(16) == 65536;
  }
}
