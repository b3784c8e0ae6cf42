/**
 Model of the address allocator of src/firejail/arp.c and of the checks in
 src/firejail/network_main.c that it relies on.  Addresses are unsigned 32-bit
 numbers; every sum in the code is taken modulo 2^32.  Whether an address is in
 use, and what rand() returns, are inputs.
 */
module Arp {
  import opened Wrappers

  const U32 := 0x1_0000_0000

  type u32 = x: int | 0 <= x < 0x1_0000_0000

  // ---------------------------------------------------------------------
  // Masks
  // ---------------------------------------------------------------------

  function Pow2(n: nat): (p: nat)
    ensures p > 0
  {
    if n == 0 then 1 else 2 * Pow2(n - 1)
  }

  /** The bitwise operators on n bits. */
  function And(x: nat, y: nat, n: nat): nat {
    if n == 0 then 0 else 2 * And(x / 2, y / 2, n - 1) + (if x % 2 == 1 && y % 2 == 1 then 1 else 0)
  }

  function Or(x: nat, y: nat, n: nat): nat {
    if n == 0 then 0 else 2 * Or(x / 2, y / 2, n - 1) + (if x % 2 == 1 || y % 2 == 1 then 1 else 0)
  }

  function Not(x: u32): u32 { U32 - 1 - x }

  /** A mask with h host bits. */
  predicate MaskOf(mask: u32, h: nat) { h <= 32 && mask == U32 - Pow2(h) }

  lemma {:induction false} Pow2Grows(m: nat, n: nat)
    requires m <= n
    ensures Pow2(m) <= Pow2(n)
  {
    if m < n { Pow2Grows(m, n - 1); }
  }

  lemma Pow32()
    ensures Pow2(32) == U32
  {
    assert Pow2(8) == 256;
    assert Pow2(16) == 65536 by { assert Pow2(12) == 4096; }
    assert Pow2(24) == 0x100_0000 by { assert Pow2(20) == 0x10_0000; }
    assert Pow2(28) == 0x1000_0000;
  }

  /** The host part of an address: its low h bits. */
  function Low(x: nat, h: nat): (l: nat)
    ensures l <= x && l < Pow2(h)
  {
    if h == 0 then 0 else 2 * Low(x / 2, h - 1) + x % 2
  }

  /** The network part, as a number. */
  function NetOf(x: nat, h: nat): nat { x - Low(x, h) }

  lemma Half(y: nat, z: nat, b: nat)
    requires b < 2 && y == 2 * z + b
    ensures y / 2 == z && y % 2 == b
  {
  }

  lemma Halves(x: nat)
    ensures x == 2 * (x / 2) + x % 2
  {
  }

  lemma AndStep(x: nat, y: nat, z: nat, b: nat, n: nat)
    requires n > 0 && b < 2 && y == 2 * z + b
    ensures And(x, y, n) == 2 * And(x / 2, z, n - 1) + if b == 1 then x % 2 else 0
  {
    Half(y, z, b);
  }

  lemma {:induction false} AndOnes(x: nat, n: nat, mask: nat)
    requires x < Pow2(n) && mask == Pow2(n) - 1
    ensures And(x, mask, n) == x
  {
    if n > 0 {
      Halves(x);
      AndOnes(x / 2, n - 1, Pow2(n - 1) - 1);
      AndStep(x, mask, Pow2(n - 1) - 1, 1, n);
    }
  }

  lemma NetStep(x: nat, h: nat)
    requires h > 0
    ensures NetOf(x, h) == 2 * NetOf(x / 2, h - 1)
  {
    Halves(x);
  }

  lemma HalfLess(x: nat, n: nat)
    requires n > 0 && x < Pow2(n)
    ensures x / 2 < Pow2(n - 1)
  {
    Halves(x);
  }

  lemma {:induction false} AndMask(x: nat, h: nat, n: nat, mask: nat)
    requires h <= n && x < Pow2(n) && mask == Pow2(n) - Pow2(h)
    ensures And(x, mask, n) == NetOf(x, h)
  {
    if h == 0 {
      AndOnes(x, n, mask);
    } else {
      Pow2Grows(h - 1, n - 1);
      var m: nat := Pow2(n - 1) - Pow2(h - 1);
      HalfLess(x, n);
      AndMask(x / 2, h - 1, n - 1, m);
      AndStep(x, mask, m, 0, n);
      NetStep(x, h);
    }
  }

  lemma {:induction false} OrZero(x: nat, n: nat)
    requires x < Pow2(n)
    ensures Or(x, 0, n) == x
  {
    if n > 0 { OrZero(x / 2, n - 1); }
  }

  lemma OrStep(x: nat, y: nat, z: nat, n: nat)
    requires n > 0 && y == 2 * z + 1
    ensures Or(x, y, n) == 2 * Or(x / 2, z, n - 1) + 1
  {
    Half(y, z, 1);
  }

  lemma {:induction false} OrMask(x: nat, h: nat, n: nat, hosts: nat)
    requires h <= n && x < Pow2(n) && hosts == Pow2(h) - 1
    ensures Or(x, hosts, n) == NetOf(x, h) + hosts
  {
    if h == 0 {
      OrZero(x, n);
    } else {
      HalfLess(x, n);
      OrMask(x / 2, h - 1, n - 1, Pow2(h - 1) - 1);
      OrStep(x, hosts, Pow2(h - 1) - 1, n);
      NetStep(x, h);
    }
  }

  /** The addresses of a network are a block. */
  lemma {:induction false} Block(x: nat, c: nat, h: nat)
    ensures NetOf(c, h) == NetOf(x, h) <==> NetOf(x, h) <= c < NetOf(x, h) + Pow2(h)
  {
    if h > 0 { Block(x / 2, c / 2, h - 1); }
  }

  lemma {:induction false} BlockEnd(x: nat, h: nat, n: nat)
    requires h <= n && x < Pow2(n)
    ensures NetOf(x, h) + Pow2(h) <= Pow2(n)
  {
    if h > 0 { BlockEnd(x / 2, h - 1, n - 1); }
  }

  function And32(x: u32, y: u32): nat { And(x, y, 32) }

  function Or32(x: u32, y: u32): nat { Or(x, y, 32) }

  /** x + y as the code computes it. */
  function Add(x: int, y: int): u32 { (x + y) % U32 }

  // ---------------------------------------------------------------------
  // in_netrange
  // ---------------------------------------------------------------------

  /** True if in_netrange returns no error. */
  predicate InNetrange(ip: u32, ifip: u32, ifmask: u32) {
    && And32(ip, ifmask) == And32(ifip, ifmask)
    && And32(ip, ifmask) != ip
    && Or32(ip, Not(ifmask)) != ip
  }

  /** A host address of the network of x: not its first and not its last address. */
  predicate Host(c: int, x: u32, h: nat) {
    NetOf(x, h) < c < NetOf(x, h) + Pow2(h) - 1
  }

  lemma NetrangeIsHost(ip: u32, ifip: u32, ifmask: u32, h: nat)
    requires MaskOf(ifmask, h)
    ensures InNetrange(ip, ifip, ifmask) <==> Host(ip, ifip, h)
    ensures And32(ifip, ifmask) == NetOf(ifip, h)
    ensures NetOf(ifip, h) + Pow2(h) <= U32
  {
    NetworkIs(ip, ifmask, h);
    NetworkIs(ifip, ifmask, h);
    Block(ifip, ip, h);
    Between(ip, NetOf(ip, h), NetOf(ifip, h), Pow2(h));
  }

  lemma NetworkIs(x: u32, mask: u32, h: nat)
    requires MaskOf(mask, h)
    ensures And32(x, mask) == NetOf(x, h)
    ensures Or32(x, Not(mask)) == NetOf(x, h) + Pow2(h) - 1
    ensures NetOf(x, h) + Pow2(h) <= U32
  {
    Pow32();
    AndMask(x, h, 32, mask);
    OrMask(x, h, 32, Not(mask));
    BlockEnd(x, h, 32);
  }

  lemma Between(c: int, net: int, other: int, p: int)
    requires net == other <==> other <= c < other + p
    ensures net == other && net != c && net + p - 1 != c <==> other < c < other + p - 1
  {
  }

  // ---------------------------------------------------------------------
  // Masks with gaps
  // ---------------------------------------------------------------------

  /** Leading ones only, on n bits. */
  ghost predicate Leading(mask: nat, n: nat) { exists h: nat :: LeadingTo(mask, n, h) }

  /** Ones down to bit h, and zeros below. */
  predicate LeadingTo(mask: nat, n: nat, h: nat) { h <= n && mask == Pow2(n) - Pow2(h) }

  lemma {:induction false} AndBound(x: nat, y: nat, n: nat)
    ensures And(x, y, n) <= y
  {
    if n > 0 { AndBound(x / 2, y / 2, n - 1); }
  }

  lemma LeadingDouble(m: nat, n: nat)
    requires n > 0 && Leading(m, n - 1)
    ensures Leading(2 * m, n)
  {
    var h: nat :| LeadingTo(m, n - 1, h);
    assert LeadingTo(2 * m, n, h + 1);
  }

  lemma ZeroLeads(mask: nat, n: nat)
    requires mask == 0
    ensures Leading(mask, n)
  {
    assert LeadingTo(mask, n, n);
  }

  lemma LeadingIsMask(mask: u32)
    ensures Leading(mask, 32) <==> exists h: nat :: MaskOf(mask, h)
  {
    Pow32();
    if Leading(mask, 32) {
      var h: nat :| LeadingTo(mask, 32, h);
      assert MaskOf(mask, h);
    }
    if h: nat :| MaskOf(mask, h) { assert LeadingTo(mask, 32, h); }
  }

  lemma GapOdd(ip: nat, mask: nat, n: nat)
    requires n > 0 && mask % 2 == 1
    ensures And(And(ip, mask, n) + 1, mask, n) != And(ip, mask, n)
  {
    var net := And(ip, mask, n);
    assert net % 2 == if ip % 2 == 1 then 1 else 0;
    assert And(net + 1, mask, n) % 2 == (net + 1) % 2;
  }

  lemma GapEven(net: nat, m: nat, d: nat, n: nat, mask: nat)
    requires n > 0 && And(net + d, m, n - 1) != net && mask == 2 * m
    ensures And(2 * net + 2 * d, mask, n) != 2 * net
  {
    Half(2 * net + 2 * d, net + d, 0);
    AndStep(2 * net + 2 * d, mask, m, 0, n);
  }

  /** A mask with a gap has a number behind the network address, among those that
      are counted as its addresses, that belongs to another network. */
  lemma {:induction false} Gap(ip: nat, mask: nat, n: nat) returns (d: nat)
    requires 0 < n && mask < Pow2(n) && !Leading(mask, n)
    ensures 1 <= d < Pow2(n) - 1 - mask && And(And(ip, mask, n) + d, mask, n) != And(ip, mask, n)
  {
    if mask == 0 { ZeroLeads(mask, n); }
    if mask % 2 == 1 {
      assert Pow2(n) == 2 * Pow2(n - 1) && Pow2(0) == 1;
      assert !LeadingTo(mask, n, 0);
      GapOdd(ip, mask, n);
      d := 1;
    } else {
      var m := mask / 2;
      if Leading(m, n - 1) { LeadingDouble(m, n); }
      d := Gap(ip / 2, m, n - 1);
      AndStep(ip, mask, m, 0, n);
      GapEven(And(ip / 2, m, n - 1), m, d, n, mask);
      d := 2 * d;
    }
  }

  /** The address that a random number stands for when no range is given. */
  function Drawn(ip: u32, mask: u32, r: nat): u32
    requires Not(mask) >= 3
  {
    Add(Add(And32(ip, mask), 1), r % (Not(mask) - 1))
  }

  lemma DrawnIs(ip: u32, mask: u32, r: nat)
    requires Not(mask) >= 3
    ensures Drawn(ip, mask, r) == And32(ip, mask) + 1 + r % (Not(mask) - 1)
    ensures And32(ip, mask) < Drawn(ip, mask, r) < And32(ip, mask) + Not(mask)
  {
    AndBound(ip, mask, 32);
    ModRange(r, Not(mask) - 1);
    AddIs(And32(ip, mask), 1);
    AddIs(And32(ip, mask) + 1, r % (Not(mask) - 1));
  }

  lemma DrawnAt(ip: u32, mask: u32, r: nat)
    requires r < Not(mask) - 1 && Not(mask) >= 3
    ensures Drawn(ip, mask, r) == And32(ip, mask) + 1 + r
  {
    DrawnIs(ip, mask, r);
    SmallMod(r, Not(mask) - 1);
  }

  lemma ModRange(r: nat, w: int)
    requires w > 0
    ensures 0 <= r % w < w
  {
  }

  /** Every draw stays in the network exactly when the mask has leading ones only. */
  lemma MaskExact(ip: u32, mask: u32)
    requires Not(mask) >= 3
    ensures (forall r: nat :: And32(Drawn(ip, mask, r), mask) == And32(ip, mask)) <==> exists h: nat :: MaskOf(mask, h)
  {
    Pow32();
    LeadingIsMask(mask);
    if h: nat :| MaskOf(mask, h) {
      forall r: nat ensures And32(Drawn(ip, mask, r), mask) == And32(ip, mask) {
        DrawnIs(ip, mask, r);
        NetrangeIsHost(Drawn(ip, mask, r), ip, mask, h);
      }
    } else {
      var d := Gap(ip, mask, 32);
      SmallMod(d - 1, Not(mask) - 1);
      DrawnIs(ip, mask, d - 1);
      assert And32(Drawn(ip, mask, d - 1), mask) != And32(ip, mask);
    }
  }

  /** With the mask 255.255.255.1 the first address that can be drawn lies in
      another network, whatever the address of the interface is. */
  lemma GapMask(ip: u32)
    ensures Not(0xFFFFFF01) >= 3 && And32(Drawn(ip, 0xFFFFFF01, 0), 0xFFFFFF01) != And32(ip, 0xFFFFFF01)
  {
    DrawnAt(ip, 0xFFFFFF01, 0);
    GapOdd(ip, 0xFFFFFF01, 32);
  }

  // ---------------------------------------------------------------------
  // The reference: which address is assigned
  // ---------------------------------------------------------------------

  /** The fields of a bridge that the allocator reads, and the default gateway. */
  datatype Net = Net(ip: u32, mask: u32, start: u32, end: u32, gw: u32)

  /** What the checks before the allocator establish: a mask that leaves at least 4
      addresses, and a range of two host addresses or none.  The
      option parser lets a range start at 0.0.0.0, which then counts as unset. */
  predicate Configured(b: Net, h: nat) {
    && MaskOf(b.mask, h) && 2 <= h < 32
    && (b.start != 0 ==> Host(b.start, b.ip, h) && b.start < b.end)
    && (b.end != 0 ==> Host(b.end, b.ip, h))
  }

  predicate Taken(b: Net, c: int) { c == b.ip || c == b.gw }

  function First(b: Net, h: nat): int { if b.start != 0 then b.start else NetOf(b.ip, h) + 1 }

  function Last(b: Net, h: nat): int { if b.end != 0 then b.end else NetOf(b.ip, h) + Pow2(h) - 2 }

  /** The number of addresses that a random try can hit. */
  function Width(b: Net, h: nat): int {
    if b.start != 0 && b.end != 0 then b.end - b.start else Pow2(h) - 2
  }

  /** The address that a random number stands for. */
  function Try(b: Net, h: nat, r: nat): int
    requires Width(b, h) > 0
  {
    (if b.end != 0 then First(b, h) else NetOf(b.ip, h) + 1) + r % Width(b, h)
  }

  /** Up to `left` tries from the k-th random number on; also the number of the
      next random number. */
  function Draw(b: Net, h: nat, rand: nat -> nat, k: nat, left: nat): (Option<int>, nat)
    requires Width(b, h) > 0
    decreases left
  {
    if left == 0 then (None, k)
    else
      var d := Try(b, h, rand(k));
      if Taken(b, d) then Draw(b, h, rand, k + 1, left - 1) else (Some(d), k + 1)
  }

  const TRIES := 10

  function Random(b: Net, h: nat, inUse: int -> bool, rand: nat -> nat, k: nat): (Option<int>, nat)
    requires Width(b, h) > 0
  {
    var (d, k') := Draw(b, h, rand, k, TRIES);
    if d.Some? && !inUse(d.value) then (d, k') else (None, k')
  }

  /** The first free address from d on. */
  function Scan(b: Net, inUse: int -> bool, d: int, last: int): Option<int>
    decreases last - d + 1
  {
    if d > last then None
    else if Taken(b, d) || inUse(d) then Scan(b, inUse, d + 1, last)
    else Some(d)
  }

  function Assign(b: Net, h: nat, inUse: int -> bool, rand: nat -> nat): Option<int>
    requires Configured(b, h)
  {
    WidthPositive(b, h);
    var (r1, k1) := Random(b, h, inUse, rand, 0);
    if r1.Some? then r1
    else
      var (r2, _) := Random(b, h, inUse, rand, k1);
      if r2.Some? then r2 else Scan(b, inUse, First(b, h), Last(b, h))
  }

  lemma WidthPositive(b: Net, h: nat)
    requires Configured(b, h)
    ensures Width(b, h) > 0 && Pow2(h) >= 4
  {
    Pow2Grows(2, h);
  }

  // ---------------------------------------------------------------------
  // What is assigned
  // ---------------------------------------------------------------------

  /** The addresses that random tries and the scan have in common: the requested
      range, or all hosts. */
  predicate Candidate(b: Net, h: nat, c: int) {
    First(b, h) <= c <= Last(b, h) && !Taken(b, c)
  }

  lemma {:induction false} DrawHits(b: Net, h: nat, rand: nat -> nat, k: nat, left: nat)
    requires Configured(b, h) && Width(b, h) > 0
    ensures var d := Draw(b, h, rand, k, left).0;
            d.Some? ==> Host(d.value, b.ip, h) && !Taken(b, d.value)
                        && (b.start != 0 || b.end == 0 ==> Candidate(b, h, d.value))
    decreases left
  {
    WidthPositive(b, h);
    if left > 0 { DrawHits(b, h, rand, k + 1, left - 1); }
  }

  lemma {:induction false} ScanFinds(b: Net, inUse: int -> bool, d: int, last: int)
    ensures var r := Scan(b, inUse, d, last);
            && (r.Some? ==> d <= r.value <= last && !Taken(b, r.value) && !inUse(r.value))
            && (r.Some? ==> forall c | d <= c < r.value :: Taken(b, c) || inUse(c))
            && (r.None? <==> forall c | d <= c <= last :: Taken(b, c) || inUse(c))
    decreases last - d + 1
  {
    if d <= last { ScanFinds(b, inUse, d + 1, last); }
  }

  /** Whatever is assigned is a free host address of the network, neither that of
      the interface nor that of the gateway, and inside a range that has a start. */
  lemma AssignSound(b: Net, h: nat, inUse: int -> bool, rand: nat -> nat)
    requires Configured(b, h)
    ensures var r := Assign(b, h, inUse, rand);
            r.Some? ==> && Host(r.value, b.ip, h) && !Taken(b, r.value) && !inUse(r.value)
                        && (b.start != 0 ==> b.start <= r.value <= b.end)
  {
    WidthPositive(b, h);
    DrawHits(b, h, rand, 0, TRIES);
    DrawHits(b, h, rand, Random(b, h, inUse, rand, 0).1, TRIES);
    ScanFinds(b, inUse, First(b, h), Last(b, h));
  }

  /** The allocator gives up only when every candidate is in use.  It does so
      exactly then, whatever the random numbers are, unless the range has an end
      but no start. */
  lemma AssignComplete(b: Net, h: nat, inUse: int -> bool, rand: nat -> nat)
    requires Configured(b, h)
    ensures Assign(b, h, inUse, rand).None? ==> forall c | Candidate(b, h, c) :: inUse(c)
    ensures b.start != 0 || b.end == 0 ==>
              (Assign(b, h, inUse, rand).None? <==> forall c | Candidate(b, h, c) :: inUse(c))
  {
    WidthPositive(b, h);
    DrawHits(b, h, rand, 0, TRIES);
    DrawHits(b, h, rand, Random(b, h, inUse, rand, 0).1, TRIES);
    ScanFinds(b, inUse, First(b, h), Last(b, h));
  }

  /** Every address of the network that is not taken can be drawn at once. */
  lemma DrawReaches(b: Net, h: nat, c: int) returns (inUse: int -> bool, rand: nat -> nat)
    requires Configured(b, h) && b.start == 0 && Host(c, b.ip, h) && !Taken(b, c)
    ensures Assign(b, h, inUse, rand) == Some(c)
  {
    WidthPositive(b, h);
    var r: nat := c - NetOf(b.ip, h) - 1;
    SmallMod(r, Width(b, h));
    inUse, rand := _ => false, _ => r;
    assert rand(0) % Width(b, h) == r;
    assert Draw(b, h, rand, 0, TRIES) == (Some(c), 1);
  }

  lemma SmallMod(r: nat, w: int)
    requires r < w
    ensures r % w == r
  {
  }

  /** A range with an end but no start is not kept to by the random tries: an
      address behind the end can be assigned exactly when there is one. */
  lemma HalfRangeEscapes(b: Net, h: nat)
    requires Configured(b, h) && b.start == 0 && b.end != 0
    ensures (exists inUse: int -> bool, rand: nat -> nat :: Behind(Assign(b, h, inUse, rand), b.end))
            <==> (exists c: int :: b.end < c && Host(c, b.ip, h) && !Taken(b, c))
  {
    if c: int :| b.end < c && Host(c, b.ip, h) && !Taken(b, c) {
      var inUse, rand := DrawReaches(b, h, c);
      assert Behind(Assign(b, h, inUse, rand), b.end);
    }
    if inUse: int -> bool, rand: nat -> nat :| Behind(Assign(b, h, inUse, rand), b.end) {
      AssignSound(b, h, inUse, rand);
    }
  }

  predicate Behind(r: Option<int>, end: int) { r.Some? && r.value > end }

  // ---------------------------------------------------------------------
  // The code
  // ---------------------------------------------------------------------

  /** An address or 0, as the code returns it. */
  function Code(r: Option<int>): int { if r.Some? then r.value else 0 }

  lemma AddIs(x: int, y: int)
    requires 0 <= x + y < U32
    ensures Add(x, y) == x + y
  {
  }

  lemma Sums(net: int, p: int)
    requires 0 <= net && 4 <= p && net + p <= U32
    ensures Add(net, 1) == net + 1
    ensures Add(Add(net + 1, p - 2), -1) == net + p - 2
  {
    AddIs(net, 1);
    AddIs(net + 1, p - 2);
    AddIs(net + p - 1, -1);
  }

  lemma NoWrap(b: Net, h: nat)
    requires Configured(b, h)
    ensures Add(Not(b.mask), 1) == Pow2(h) && Pow2(h) >= 4
    ensures Add(And32(b.ip, b.mask), 1) == NetOf(b.ip, h) + 1
    ensures 0 < First(b, h) && Last(b, h) < U32 - 1
    ensures b.end == 0 ==> Add(Add(First(b, h), Pow2(h) - 2), -1) == Last(b, h)
  {
    Sizes(b.mask, h);
    NetrangeIsHost(b.ip, b.ip, b.mask, h);
    Sums(NetOf(b.ip, h), Pow2(h));
  }

  lemma TryIs(b: Net, h: nat, r: nat, start: int, range: int)
    requires Configured(b, h) && Width(b, h) > 0 && range == Width(b, h)
    requires start == if b.start != 0 && b.end != 0 then b.start else NetOf(b.ip, h) + 1
    ensures Add(start, r % range) == Try(b, h, r) > 0
  {
    NoWrap(b, h);
    StartIs(b, h, start);
    ModRange(r, range);
    AddIs(start, r % range);
  }

  lemma StartIs(b: Net, h: nat, start: int)
    requires Configured(b, h)
    requires start == if b.start != 0 && b.end != 0 then b.start else NetOf(b.ip, h) + 1
    ensures start > 0 && start + Width(b, h) < U32
    ensures start == if b.end != 0 then First(b, h) else NetOf(b.ip, h) + 1
  {
    NetrangeIsHost(b.ip, b.ip, b.mask, h);
  }

  method ArpRandom(b: Net, ghost h: nat, inUse: int -> bool, rand: nat -> nat, k: nat) returns (dest: u32, k': nat)
    requires Configured(b, h) && Width(b, h) > 0
    ensures k' == Random(b, h, inUse, rand, k).1 && dest == Code(Random(b, h, inUse, rand, k).0)
  {
    NoWrap(b, h);
    dest, k' := 0, k;
    var range := Add(Not(b.mask), 1);
    if range < 4 { return; }
    range := range - 2;
    var start := Add(And32(b.ip, b.mask), 1);
    if b.start != 0 && b.end != 0 {
      start := b.start;
      range := (b.end - b.start) % U32;
    }
    dest, k' := ArpTries(b, h, rand, k, start, range);
    if dest != 0 && inUse(dest) { return 0, k'; }
  }

  /** The loop of ten tries: 0 if all of them are taken. */
  method ArpTries(b: Net, ghost h: nat, rand: nat -> nat, k: nat, start: u32, range: u32) returns (dest: u32, k': nat)
    requires Configured(b, h) && Width(b, h) > 0 && range == Width(b, h)
    requires start == if b.start != 0 && b.end != 0 then b.start else NetOf(b.ip, h) + 1
    ensures Draw(b, h, rand, k, TRIES) == (if dest == 0 then None else Some(dest), k')
  {
    k' := k;
    dest := 0;
    var i := 0;
    while i < 10
      invariant 0 <= i <= 10
      invariant Draw(b, h, rand, k, TRIES) == Draw(b, h, rand, k', TRIES - i)
    {
      TryIs(b, h, rand(k'), start, range);
      dest := Add(start, rand(k') % range);
      k' := k' + 1;
      if dest == b.ip || dest == b.gw {
        i := i + 1;
        continue;
      }
      break;
    }
    if i == 10 { return 0, k'; }
  }

  lemma AddOne(x: u32)
    ensures x < U32 - 1 ==> Add(x, 1) == x + 1
  {
  }

  method ArpSequential(b: Net, ghost h: nat, inUse: int -> bool) returns (dest: u32)
    requires Configured(b, h)
    ensures dest == Code(Scan(b, inUse, First(b, h), Last(b, h)))
  {
    NoWrap(b, h);
    dest := 0;
    var range := Add(Not(b.mask), 1);
    if range < 4 { return; }
    range := range - 2;
    dest := Add(And32(b.ip, b.mask), 1);
    if b.start != 0 { dest := b.start; }
    var last := Add(Add(dest, range), -1);
    if b.end != 0 { last := b.end; }
    dest := ArpScan(b, inUse, dest, last);
  }

  /** The scan ends because the last address is not the highest 32-bit number. */
  method ArpScan(b: Net, inUse: int -> bool, first: u32, last: u32) returns (dest: u32)
    requires 0 < first && last < U32 - 1
    ensures dest == Code(Scan(b, inUse, first, last))
  {
    dest := first;
    while dest <= last
      invariant first <= dest
      invariant Scan(b, inUse, first, last) == Scan(b, inUse, dest, last)
      decreases last - dest
    {
      AddOne(dest);
      if dest == b.ip || dest == b.gw {
        dest := Add(dest, 1);
        continue;
      }
      if !inUse(dest) { return dest; }
      dest := Add(dest, 1);
    }
    return 0;
  }

  /** Aborted stands for the assertions that the bridge has an address and a mask. */
  datatype Error = Aborted | AllInUse | NotSupported | NotInRange | InUse

  method ArpAssign(b: Net, ghost h: nat, inUse: int -> bool, rand: nat -> nat) returns (r: Result<u32, Error>)
    requires Configured(b, h)
    ensures var a := Assign(b, h, inUse, rand);
            if b.ip == 0 then r == Failure(Aborted)
            else if a.Some? then r.Success? && r.value == a.value
            else r == Failure(AllInUse)
    ensures r.Success? ==> Host(r.value, b.ip, h) && !Taken(b, r.value) && !inUse(r.value)
    ensures r.Success? && b.start != 0 ==> b.start <= r.value <= b.end
  {
    if b.ip == 0 || b.mask == 0 {
      Sizes(b.mask, h);
      return Failure(Aborted);
    }
    WidthPositive(b, h);
    NoWrap(b, h);
    AssignSound(b, h, inUse, rand);
    DrawHits(b, h, rand, 0, TRIES);
    DrawHits(b, h, rand, Random(b, h, inUse, rand, 0).1, TRIES);
    ScanFinds(b, inUse, First(b, h), Last(b, h));
    var ip, k := ArpRandom(b, h, inUse, rand, 0);
    if ip == 0 { ip, k := ArpRandom(b, h, inUse, rand, k); }
    if ip == 0 { ip := ArpSequential(b, h, inUse); }
    if ip == 0 { return Failure(AllInUse); }
    return Success(ip);
  }

  /** The interface's address, or the network of an address that the user gave. */
  function NetworkKnown(known: u32, ipsandbox: u32, gw: u32, mask: u32): nat {
    if known != 0 then known
    else if ipsandbox != 0 then And32(ipsandbox, mask)
    else if gw != 0 then And32(gw, mask)
    else 0
  }

  lemma RangeOf(mask: u32)
    requires mask != 0
    ensures Add(Not(mask), 1) == Not(mask) + 1
  {
  }

  class Bridge {
    var ip: u32
    var mask: u32
    var iprangeStart: u32
    var iprangeEnd: u32
    var ipsandbox: u32
    var ipNone: bool

    function View(gw: u32): Net
      reads this
    {
      Net(ip, mask, iprangeStart, iprangeEnd, gw)
    }

    /** The address and mask of the interface, if it is configured, replace those
        of the bridge; a mask given by the user may be of any form.  The parser has
        checked that a range starts below its end. */
    method Configure(ifaddr: Option<(u32, u32)>, gw: u32) returns (r: Result<(), Error>)
      requires iprangeStart != 0 ==> iprangeStart < iprangeEnd
      modifies this
      ensures iprangeStart == old(iprangeStart) && iprangeEnd == old(iprangeEnd) && ipsandbox == old(ipsandbox)
      ensures var known := if ifaddr.Some? then ifaddr.value.0 else old(ip);
              && mask == (if ifaddr.Some? then ifaddr.value.1 else old(mask))
              && (r == Failure(NotSupported) <==> mask != 0 && Not(mask) < 3)
              && (r.Success? ==> ipNone == (old(ipNone) || mask == 0 || (known == 0 && ipsandbox == 0 && gw == 0)))
              && (r.Success? && mask != 0 ==> ip == NetworkKnown(known, ipsandbox, gw, mask))
      ensures r.Success? && !ipNone ==> forall h: nat | MaskOf(mask, h) :: Configured(View(gw), h)
    {
      if ifaddr.Some? { ip, mask := ifaddr.value.0, ifaddr.value.1; }
      if mask != 0 {
        RangeOf(mask);
        if Add(Not(mask), 1) < 4 { return Failure(NotSupported); }
      }
      AndBound(ipsandbox, mask, 32);
      AndBound(gw, mask, 32);
      if mask == 0 {
        ipNone := true;
        return Success(());
      } else if ip == 0 && ipsandbox != 0 {
        ip := And32(ipsandbox, mask);
      } else if ip == 0 && gw != 0 {
        ip := And32(gw, mask);
      } else if ip == 0 {
        ipNone := true;
        return Success(());
      }
      if (iprangeStart != 0 && !InNetrange(iprangeStart, ip, mask))
         || (iprangeEnd != 0 && !InNetrange(iprangeEnd, ip, mask)) {
        return Failure(NotInRange);
      }
      forall h: nat | MaskOf(mask, h) ensures Configured(View(gw), h) {
        Sizes(mask, h);
        NetrangeIsHost(iprangeStart, ip, mask, h);
        NetrangeIsHost(iprangeEnd, ip, mask, h);
      }
      return Success(());
    }

    /** The address of the sandbox: a given one is checked, else one is assigned. */
    method ConfigureSandboxIp(gw: u32, ghost h: nat, inUse: int -> bool, rand: nat -> nat)
      returns (r: Result<(), Error>)
      requires ipNone || Configured(View(gw), h)
      modifies this`ipsandbox
      ensures r.Success? && ipNone ==> ipsandbox == 0
      ensures r.Success? && !ipNone ==> Host(ipsandbox, ip, h) && !inUse(ipsandbox)
      ensures !ipNone && old(ipsandbox) != 0 ==> ipsandbox == old(ipsandbox)
      ensures !ipNone && old(ipsandbox) == 0 && r.Success? ==> Assign(View(gw), h, inUse, rand) == Some(ipsandbox)
    {
      if ipNone {
        ipsandbox := 0;
        return Success(());
      }
      if ipsandbox != 0 {
        NetrangeIsHost(ipsandbox, ip, mask, h);
        if !InNetrange(ipsandbox, ip, mask) { return Failure(NotInRange); }
        if inUse(ipsandbox) { return Failure(InUse); }
        return Success(());
      }
      var a := ArpAssign(View(gw), h, inUse, rand);
      if a.Failure? { return Failure(a.error); }
      ipsandbox := a.value;
      return Success(());
    }
  }

  lemma Sizes(mask: u32, h: nat)
    requires MaskOf(mask, h)
    ensures mask != 0 <==> h < 32
    ensures mask != 0 ==> Add(Not(mask), 1) == Pow2(h)
    ensures Pow2(h) >= 4 <==> h >= 2
  {
    Pow32();
    if h < 32 { Pow2Grows(h, 31); }
    assert Pow2(32) == 2 * Pow2(31);
    if h >= 2 { Pow2Grows(2, h); } else { Pow2Grows(h, 1); }
  }
}
