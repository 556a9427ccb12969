/** IP addresses as numbers, and CIDR networks: the interval test and the prefix test of section 3.1 of RFC 4632. */
module Cidr {

  const V4_BITS: nat := 32
  const V6_BITS: nat := 128

  datatype Ip = V4(value: nat) | V6(value: nat)

  /** A network as written: some address in it, and the length of the common prefix. */
  datatype Net = Net(address: Ip, prefix: nat)

  function Pow2(n: nat): (r: nat)
    ensures r > 0
  {
    if n == 0 then 1 else 2 * Pow2(n - 1)
  }

  function Bits(ip: Ip): nat {
    if ip.V4? then V4_BITS else V6_BITS
  }

  ghost predicate ValidIp(ip: Ip) {
    ip.value < Pow2(Bits(ip))
  }

  ghost predicate ValidNet(net: Net) {
    ValidIp(net.address) && net.prefix <= Bits(net.address)
  }

  /** The first address of the block of `size` addresses around `n`. */
  function First(n: nat, size: nat): int
    requires size > 0
  {
    n - n % size
  }

  /** Between network and broadcast address: how an address is looked up in a network. */
  predicate Contains(net: Net, ip: Ip)
    requires net.prefix <= Bits(net.address)
  {
    var size := Pow2(Bits(net.address) - net.prefix);
    net.address.V4? == ip.V4? && First(net.address.value, size) <= ip.value <= First(net.address.value, size) + size - 1
  }

  /** The bit of weight 2^k. */
  function Bit(n: nat, k: nat): nat {
    n / Pow2(k) % 2
  }

  /** The leading `prefix` bits of two addresses agree. */
  ghost predicate SamePrefix(bits: nat, prefix: nat, a: nat, b: nat)
    requires prefix <= bits
  {
    forall k :: bits - prefix <= k < bits ==> Bit(a, k) == Bit(b, k)
  }

  lemma HalvingTwice(n: nat, m: nat)
    requires m > 0
    ensures n / m == 2 * (n / (2 * m)) + n / m % 2
  {
    var q, r := n / m, n % m;
    assert n == q * m + r;
    var h, b := q / 2, q % 2;
    assert n == h * (2 * m) + (b * m + r) by { assert q * m == (2 * h + b) * m; }
    assert 0 <= b * m + r < 2 * m;
    QuotientIs(n, 2 * m, h, b * m + r);
  }

  lemma {:induction false} LaterBlock(x: nat, y: nat, d: nat)
    requires x < y
    ensures x * d + d <= y * d
    decreases y
  {
    assert y * d == (y - 1) * d + d;
    if x < y - 1 { LaterBlock(x, y - 1, d); }
  }

  lemma QuotientIs(n: nat, d: nat, q: nat, r: nat)
    requires d > 0 && n == q * d + r && r < d
    ensures n / d == q && n % d == r
  {
    var q', r' := n / d, n % d;
    Division(n, d);
    if q' < q {
      LaterBlock(q', q, d);
    } else if q < q' {
      LaterBlock(q, q', d);
    }
  }

  lemma Division(n: nat, d: nat)
    requires d > 0
    ensures n == (n / d) * d + n % d && n % d < d
  {
  }

  lemma SmallQuotient(n: nat, d: nat)
    requires n < d
    ensures n / d == 0
  {
    QuotientIs(n, d, 0, n);
  }

  /** Agreeing on the leading bits is having the same quotient. */
  lemma {:induction false} PrefixIsQuotient(bits: nat, prefix: nat, a: nat, b: nat)
    requires prefix <= bits && a < Pow2(bits) && b < Pow2(bits)
    ensures SamePrefix(bits, prefix, a, b) <==> a / Pow2(bits - prefix) == b / Pow2(bits - prefix)
    decreases prefix
  {
    if prefix == 0 {
      SmallQuotient(a, Pow2(bits));
      SmallQuotient(b, Pow2(bits));
    } else {
      var k := bits - prefix;
      PrefixIsQuotient(bits, prefix - 1, a, b);
      HalvingTwice(a, Pow2(k));
      HalvingTwice(b, Pow2(k));
      assert Pow2(k + 1) == 2 * Pow2(k);
      assert SamePrefix(bits, prefix, a, b) <==> Bit(a, k) == Bit(b, k) && SamePrefix(bits, prefix - 1, a, b);
    }
  }

  lemma BlockIsQuotient(a: nat, n: nat, size: nat)
    requires size > 0
    ensures First(n, size) <= a <= First(n, size) + size - 1 <==> a / size == n / size
  {
    var q, k := n / size, a / size;
    Division(n, size);
    Division(a, size);
    if k < q {
      LaterBlock(k, q, size);
    } else if q < k {
      LaterBlock(q, k, size);
    }
  }

  /** An address is in a network exactly when it agrees with the network's address on the whole prefix. */
  lemma ContainsIsPrefixMatch(net: Net, ip: Ip)
    requires ValidNet(net) && ValidIp(ip)
    ensures Contains(net, ip)
      <==> net.address.V4? == ip.V4? && SamePrefix(Bits(net.address), net.prefix, ip.value, net.address.value)
  {
    if net.address.V4? == ip.V4? {
      PrefixIsQuotient(Bits(ip), net.prefix, ip.value, net.address.value);
      BlockIsQuotient(ip.value, net.address.value, Pow2(Bits(ip) - net.prefix));
    }
  }
}
