/** Which addresses a rendered page may load from: public ones, and the page's own loopback origin. */
module ResourcePolicy {
  import opened Outcomes
  import opened Cidr
  import opened Protocol
  import Text

  // -------------------------------------------------------------------------
  // Public addresses
  // -------------------------------------------------------------------------

  function Quad(a: nat, b: nat, c: nat, d: nat): Ip {
    V4(((a * 256 + b) * 256 + c) * 256 + d)
  }

  /** An IPv4 network by its first three octets and its prefix length. */
  datatype Block = Block(p: nat, q: nat, r: nat, prefix: nat)

  const BLOCKS: seq<Block> := [
    Block(0, 0, 0, 8), Block(10, 0, 0, 8), Block(100, 64, 0, 10), Block(127, 0, 0, 8), Block(169, 254, 0, 16),
    Block(172, 16, 0, 12), Block(192, 0, 0, 24), Block(192, 0, 2, 24), Block(192, 88, 99, 24), Block(192, 168, 0, 16),
    Block(198, 18, 0, 15), Block(198, 51, 100, 24), Block(203, 0, 113, 24), Block(224, 0, 0, 4), Block(240, 0, 0, 4)]

  function NetOf(block: Block): Net {
    Net(Quad(block.p, block.q, block.r, 0), block.prefix)
  }

  /** An IPv6 network: its leading groups as a number of `width` bits, the zero bits after them, its prefix length. */
  datatype Range = Range(groups: nat, width: nat, zeros: nat, prefix: nat)

  /** Mapped IPv4, loopback, unspecified, multicast and link-local addresses; then the networks named in the code. */
  const RANGES: seq<Range> := [
    Range(0xffff, 16, 32, 96), Range(1, 16, 0, 128), Range(0, 16, 0, 128), Range(0xff00, 16, 112, 8), Range(0xfe80, 16, 112, 10),
    Range(0x0100, 16, 112, 64), Range(0x2001_0db8, 32, 96, 32), Range(0xfc00, 16, 112, 7), Range(0xfec0, 16, 112, 10)]

  function NetOfRange(range: Range): Net {
    Net(V6(range.groups * Pow2(range.zeros)), range.prefix)
  }

  predicate InBlockedV6(ip: Ip) {
    exists i :: 0 <= i < |RANGES| && RANGES[i].prefix <= V6_BITS && Contains(NetOfRange(RANGES[i]), ip)
  }

  predicate InBlockedV4(ip: Ip) {
    exists i :: 0 <= i < |BLOCKS| && BLOCKS[i].prefix <= V4_BITS && Contains(NetOf(BLOCKS[i]), ip)
  }

  predicate IsLoopback(ip: Ip) {
    if ip.V4? then Contains(Net(Quad(127, 0, 0, 0), 8), ip) else ip == V6(1)
  }

  predicate IsPublic(ip: Ip) {
    match ip
    case V4(_) => !InBlockedV4(ip)
    case V6(_) => !InBlockedV6(ip)
  }

  /** The public IPv4 addresses, octet by octet. */
  predicate PublicOctets(a: nat, b: nat, c: nat) {
    && a != 0 && a != 10 && a != 127 && a < 224
    && !(a == 100 && 64 <= b < 128) && !(a == 169 && b == 254) && !(a == 172 && 16 <= b < 32)
    && !(a == 192 && (b == 168 || (b == 0 && (c == 0 || c == 2)) || (b == 88 && c == 99)))
    && !(a == 198 && (b == 18 || b == 19 || (b == 51 && c == 100)))
    && !(a == 203 && b == 0 && c == 113)
  }

  lemma SmallPowers()
    ensures Pow2(8) == 256 && Pow2(16) == 65536 && Pow2(17) == 131072 && Pow2(20) == 1048576
    ensures Pow2(22) == 4194304 && Pow2(24) == 16777216 && Pow2(28) == 268435456 && Pow2(32) == 4294967296
  {
  }

  /** The octets an address of a block may have. */
  predicate Covers(block: Block, a: nat, b: nat, c: nat) {
    match block.prefix
    case 4 => block.p <= a < block.p + 16
    case 8 => a == block.p
    case 10 => a == block.p && block.q <= b < block.q + 64
    case 12 => a == block.p && block.q <= b < block.q + 16
    case 15 => a == block.p && block.q <= b < block.q + 2
    case 16 => a == block.p && b == block.q
    case _ => a == block.p && b == block.q && c == block.r
  }

  /** A block as the list has them: cut at an octet, or aligned within one. */
  predicate Aligned(block: Block) {
    && block.p < 256 && block.q < 256 && block.r < 256
    && match block.prefix
       case 4 => block.p % 16 == 0 && block.q == block.r == 0
       case 8 => block.q == block.r == 0
       case 10 => block.q % 64 == 0 && block.r == 0
       case 12 => block.q % 16 == 0 && block.r == 0
       case 15 => block.q % 2 == 0 && block.r == 0
       case 16 => block.r == 0
       case 24 => true
       case _ => false
  }

  lemma OneOctetBlock(block: Block, a: nat, b: nat, c: nat, d: nat)
    requires Aligned(block) && block.prefix == 8 && a < 256 && b < 256 && c < 256 && d < 256
    ensures Contains(NetOf(block), Quad(a, b, c, d)) <==> Covers(block, a, b, c)
  {
    SmallPowers();
    assert First(NetOf(block).address.value, 16777216) == block.p * 16777216;
  }

  lemma TwoOctetBlock(block: Block, a: nat, b: nat, c: nat, d: nat)
    requires Aligned(block) && block.prefix == 16 && a < 256 && b < 256 && c < 256 && d < 256
    ensures Contains(NetOf(block), Quad(a, b, c, d)) <==> Covers(block, a, b, c)
  {
    SmallPowers();
    assert First(NetOf(block).address.value, 65536) == (block.p * 256 + block.q) * 65536;
  }

  lemma ThreeOctetBlock(block: Block, a: nat, b: nat, c: nat, d: nat)
    requires Aligned(block) && block.prefix == 24 && a < 256 && b < 256 && c < 256 && d < 256
    ensures Contains(NetOf(block), Quad(a, b, c, d)) <==> Covers(block, a, b, c)
  {
    SmallPowers();
    assert First(NetOf(block).address.value, 256) == ((block.p * 256 + block.q) * 256 + block.r) * 256;
  }

  /** Part of a second octet, `step` wide: the block starts at a multiple of its size. */
  lemma SplitSecondOctet(block: Block, step: nat, a: nat, b: nat, c: nat, d: nat)
    requires Aligned(block) && a < 256 && b < 256 && c < 256 && d < 256
    requires (block.prefix, step) in {(10, 64), (12, 16), (15, 2)}
    ensures Contains(NetOf(block), Quad(a, b, c, d)) <==> Covers(block, a, b, c)
  {
    var n, x, size := NetOf(block).address.value, Quad(a, b, c, d).value, step * 65536;
    assert Pow2(32 - block.prefix) == size by { SmallPowers(); }
    AlignedStart(block.p, block.q, step);
    assert First(n, size) == n;
  }

  lemma AlignedStart(p: nat, q: nat, step: nat)
    requires step in {2, 16, 64} && q % step == 0
    ensures ((p * 256 + q) * 65536) % (step * 65536) == 0
  {
    var k := q / step;
    assert q == k * step;
    if step == 2 {
      assert (p * 256 + q) * 65536 == 131072 * (p * 128 + k);
    } else if step == 16 {
      assert (p * 256 + q) * 65536 == 1048576 * (p * 16 + k);
    } else {
      assert (p * 256 + q) * 65536 == 4194304 * (p * 4 + k);
    }
  }

  lemma SplitFirstOctet(block: Block, a: nat, b: nat, c: nat, d: nat)
    requires Aligned(block) && block.prefix == 4 && a < 256 && b < 256 && c < 256 && d < 256
    ensures Contains(NetOf(block), Quad(a, b, c, d)) <==> Covers(block, a, b, c)
  {
    SmallPowers();
    assert NetOf(block).address.value % 268435456 == 0;
  }

  lemma BlockCovers(block: Block, a: nat, b: nat, c: nat, d: nat)
    requires Aligned(block) && a < 256 && b < 256 && c < 256 && d < 256
    ensures Contains(NetOf(block), Quad(a, b, c, d)) <==> Covers(block, a, b, c)
  {
    if block.prefix == 8 {
      OneOctetBlock(block, a, b, c, d);
    } else if block.prefix == 16 {
      TwoOctetBlock(block, a, b, c, d);
    } else if block.prefix == 24 {
      ThreeOctetBlock(block, a, b, c, d);
    } else if block.prefix == 4 {
      SplitFirstOctet(block, a, b, c, d);
    } else {
      SplitSecondOctet(block, if block.prefix == 10 then 64 else if block.prefix == 12 then 16 else 2, a, b, c, d);
    }
  }

  lemma BlockedBySome(a: nat, b: nat, c: nat, d: nat)
    requires a < 256 && b < 256 && c < 256 && d < 256
    ensures InBlockedV4(Quad(a, b, c, d)) <==> exists i :: 0 <= i < |BLOCKS| && Covers(BLOCKS[i], a, b, c)
  {
    forall i | 0 <= i < |BLOCKS| ensures Contains(NetOf(BLOCKS[i]), Quad(a, b, c, d)) <==> Covers(BLOCKS[i], a, b, c) {
      BlockCovers(BLOCKS[i], a, b, c, d);
    }
  }

  /** The blocked IPv4 networks leave exactly the public octets. */
  lemma PublicV4(a: nat, b: nat, c: nat, d: nat)
    requires a < 256 && b < 256 && c < 256 && d < 256
    ensures IsPublic(Quad(a, b, c, d)) <==> PublicOctets(a, b, c)
  {
    BlockedBySome(a, b, c, d);
    CoveredOctets(a, b, c);
  }

  lemma CoveredOctets(a: nat, b: nat, c: nat)
    requires a < 256
    ensures (exists i :: 0 <= i < |BLOCKS| && Covers(BLOCKS[i], a, b, c)) <==> !PublicOctets(a, b, c)
  {
    if !PublicOctets(a, b, c) {
      var i :=
        if a == 0 then 0 else if a == 10 then 1 else if a == 100 then 2 else if a == 127 then 3 else if a == 169 then 4
        else if a == 172 then 5 else if a == 192 then (if b == 168 then 9 else if b == 88 then 8 else if c == 0 then 6 else 7)
        else if a == 198 then (if b == 51 then 11 else 10) else if a == 203 then 12 else if a < 240 then 13 else 14;
      assert Covers(BLOCKS[i], a, b, c);
    }
  }

  /** In the terms of RFC 4632: an address is public when it shares the prefix of no listed network. */
  lemma PublicSharesNoPrefix(ip: Ip)
    requires ValidIp(ip)
    ensures ip.V4? ==>
      (IsPublic(ip) <==> forall i :: 0 <= i < |BLOCKS| ==>
         !SamePrefix(V4_BITS, BLOCKS[i].prefix, ip.value, NetOf(BLOCKS[i]).address.value))
    ensures ip.V6? ==>
      (IsPublic(ip) <==> forall i :: 0 <= i < |RANGES| ==>
         !SamePrefix(V6_BITS, RANGES[i].prefix, ip.value, NetOfRange(RANGES[i]).address.value))
  {
    if ip.V4? {
      forall i | 0 <= i < |BLOCKS|
        ensures Contains(NetOf(BLOCKS[i]), ip) <==> SamePrefix(V4_BITS, BLOCKS[i].prefix, ip.value, NetOf(BLOCKS[i]).address.value)
      {
        BlockIsValid(i);
        ContainsIsPrefixMatch(NetOf(BLOCKS[i]), ip);
      }
    } else {
      forall i | 0 <= i < |RANGES|
        ensures Contains(NetOfRange(RANGES[i]), ip) <==> SamePrefix(V6_BITS, RANGES[i].prefix, ip.value, NetOfRange(RANGES[i]).address.value)
      {
        NetIsValid(i);
        ContainsIsPrefixMatch(NetOfRange(RANGES[i]), ip);
      }
    }
  }

  lemma BlockIsValid(i: nat)
    requires i < |BLOCKS|
    ensures ValidNet(NetOf(BLOCKS[i]))
  {
    SmallPowers();
  }

  lemma {:induction false} PowersMultiply(a: nat, b: nat)
    ensures Pow2(a + b) == Pow2(a) * Pow2(b)
  {
    if a > 0 { PowersMultiply(a - 1, b); }
  }

  lemma {:induction false} PowersGrow(a: nat, b: nat)
    requires a <= b
    ensures Pow2(a) <= Pow2(b)
  {
    if a < b { PowersGrow(a, b - 1); }
  }

  lemma GroupsFit(groups: nat, width: nat, zeros: nat, total: nat)
    requires groups < Pow2(width) && width + zeros <= total
    ensures groups * Pow2(zeros) < Pow2(total)
  {
    LaterBlock(groups, Pow2(width), Pow2(zeros));
    PowersMultiply(width, zeros);
    PowersGrow(width + zeros, total);
  }

  lemma NetIsValid(i: nat)
    requires i < |RANGES|
    ensures ValidNet(NetOfRange(RANGES[i]))
  {
    var range := RANGES[i];
    SmallPowers();
    assert range.groups < Pow2(range.width) && range.width + range.zeros <= V6_BITS;
    GroupsFit(range.groups, range.width, range.zeros, V6_BITS);
  }

  // -------------------------------------------------------------------------
  // The public IPv6 addresses as numbers
  // -------------------------------------------------------------------------

  /** The leading group of an IPv6 address starts at this bit weight. */
  const GROUP: nat := 0x1_0000_0000_0000_0000_0000_0000_0000

  /** The public IPv6 addresses by their leading group, and the three narrower networks as intervals. */
  predicate PublicNumber(n: nat) {
    var g := n / GROUP;
    && n > 1 && g < 0xff00 && !(0xfc00 <= g <= 0xfdff) && !(0xfe80 <= g <= 0xfeff)
    && !(0xffff_0000_0000 <= n <= 0xffff_ffff_ffff)
    && !(0x0100_0000_0000_0000_0000_0000_0000_0000 <= n <= 0x0100_0000_0000_0000_ffff_ffff_ffff_ffff)
    && !(0x2001_0db8_0000_0000_0000_0000_0000_0000 <= n <= 0x2001_0db8_ffff_ffff_ffff_ffff_ffff_ffff)
  }

  lemma BigPowers()
    ensures Pow2(0) == 1 && Pow2(32) == 0x1_0000_0000 && Pow2(64) == 0x1_0000_0000_0000_0000
    ensures Pow2(96) == 0x1_0000_0000_0000_0000_0000_0000 && Pow2(112) == GROUP
    ensures Pow2(118) == 0x40 * GROUP && Pow2(120) == 0x100 * GROUP && Pow2(121) == 0x200 * GROUP
  {
    SmallPowers();
    assert Pow2(6) == 0x40 && Pow2(9) == 0x200;
    PowersMultiply(32, 32);
    PowersMultiply(64, 32);
    PowersMultiply(96, 16);
    PowersMultiply(112, 6);
    PowersMultiply(112, 8);
    PowersMultiply(112, 9);
  }

  /** Which addresses the `i`-th network holds, as an interval of numbers or of leading groups. */
  predicate Spans(i: nat, n: nat) {
    match i
    case 0 => 0xffff_0000_0000 <= n <= 0xffff_ffff_ffff
    case 1 => n == 1
    case 2 => n == 0
    case 3 => 0xff00 <= n / GROUP <= 0xffff
    case 4 => 0xfe80 <= n / GROUP <= 0xfebf
    case 5 => 0x0100_0000_0000_0000_0000_0000_0000_0000 <= n <= 0x0100_0000_0000_0000_ffff_ffff_ffff_ffff
    case 6 => 0x2001_0db8_0000_0000_0000_0000_0000_0000 <= n <= 0x2001_0db8_ffff_ffff_ffff_ffff_ffff_ffff
    case 7 => 0xfc00 <= n / GROUP <= 0xfdff
    case _ => 0xfec0 <= n / GROUP <= 0xfeff
  }

  /** A network that starts at a multiple of its size is an interval. */
  lemma RangeIsInterval(range: Range, start: nat, size: nat, n: nat)
    requires range.prefix <= V6_BITS && size == Pow2(V6_BITS - range.prefix) && start == range.groups * Pow2(range.zeros)
    requires start % size == 0
    ensures Contains(NetOfRange(range), V6(n)) <==> start <= n < start + size
  {
  }

  lemma WideRangeSpans(i: nat, n: nat)
    requires i in {3, 4, 7, 8}
    ensures RANGES[i].prefix <= V6_BITS && (Contains(NetOfRange(RANGES[i]), V6(n)) <==> Spans(i, n))
  {
    var size := if i == 3 then 0x100 * GROUP else if i == 7 then 0x200 * GROUP else 0x40 * GROUP;
    BigPowers();
    RangeIsInterval(RANGES[i], RANGES[i].groups * GROUP, size, n);
  }

  lemma MappedSpans(n: nat)
    ensures RANGES[0].prefix <= V6_BITS && (Contains(NetOfRange(RANGES[0]), V6(n)) <==> Spans(0, n))
  {
    BigPowers();
    RangeIsInterval(RANGES[0], 0xffff_0000_0000, 0x1_0000_0000, n);
  }

  lemma DiscardSpans(n: nat)
    ensures RANGES[5].prefix <= V6_BITS && (Contains(NetOfRange(RANGES[5]), V6(n)) <==> Spans(5, n))
  {
    BigPowers();
    RangeIsInterval(RANGES[5], 0x0100_0000_0000_0000_0000_0000_0000_0000, 0x1_0000_0000_0000_0000, n);
  }

  lemma DocumentationSpans(n: nat)
    ensures RANGES[6].prefix <= V6_BITS && (Contains(NetOfRange(RANGES[6]), V6(n)) <==> Spans(6, n))
  {
    BigPowers();
    RangeIsInterval(RANGES[6], 0x2001_0db8_0000_0000_0000_0000_0000_0000, 0x1_0000_0000_0000_0000_0000_0000, n);
  }

  lemma SingleAddressSpans(i: nat, n: nat)
    requires i in {1, 2}
    ensures RANGES[i].prefix <= V6_BITS && (Contains(NetOfRange(RANGES[i]), V6(n)) <==> Spans(i, n))
  {
    BigPowers();
    RangeIsInterval(RANGES[i], RANGES[i].groups, 1, n);
  }

  lemma BlockedV6BySome(n: nat)
    ensures InBlockedV6(V6(n)) <==> exists i :: 0 <= i < |RANGES| && Spans(i, n)
  {
    forall i | 0 <= i < |RANGES| ensures RANGES[i].prefix <= V6_BITS && (Contains(NetOfRange(RANGES[i]), V6(n)) <==> Spans(i, n)) {
      if i in {3, 4, 7, 8} {
        WideRangeSpans(i, n);
      } else if i == 5 {
        DiscardSpans(n);
      } else if i == 6 {
        DocumentationSpans(n);
      } else if i == 0 {
        MappedSpans(n);
      } else {
        SingleAddressSpans(i, n);
      }
    }
  }

  lemma SpannedNumbers(n: nat)
    requires n / GROUP <= 0xffff
    ensures (exists i :: 0 <= i < |RANGES| && Spans(i, n)) <==> !PublicNumber(n)
  {
    if !PublicNumber(n) {
      var g := n / GROUP;
      var i :=
        if n == 0 then 2 else if n == 1 then 1 else if g >= 0xff00 then 3 else if 0xfc00 <= g <= 0xfdff then 7
        else if 0xfe80 <= g <= 0xfebf then 4 else if 0xfec0 <= g <= 0xfeff then 8
        else if 0xffff_0000_0000 <= n <= 0xffff_ffff_ffff then 0 else if g == 0x0100 then 5 else 6;
      assert Spans(i, n);
    }
  }

  /** The blocked IPv6 networks leave exactly the public numbers. */
  lemma PublicV6(n: nat)
    requires n < Pow2(V6_BITS)
    ensures IsPublic(V6(n)) <==> PublicNumber(n)
  {
    LeadingGroupFits(n);
    BlockedV6BySome(n);
    SpannedNumbers(n);
  }

  lemma LeadingGroupFits(n: nat)
    requires n < Pow2(V6_BITS)
    ensures n / GROUP <= 0xffff
  {
    BigPowers();
    SmallPowers();
    PowersMultiply(112, 16);
  }

  // -------------------------------------------------------------------------
  // Resolving a target
  // -------------------------------------------------------------------------

  /** A parsed URL as the policy sees it: `knownPort` includes the scheme's default. */
  datatype Target = Target(url: Url, text: string, port: Option<nat>, knownPort: Option<nat>)

  /** Reading literal addresses, and asking a name server. */
  datatype Network = Network(parse: string -> Option<Ip>, resolve: (string, nat) -> Option<seq<Ip>>)

  datatype Approved = Approved(authority: string, address: Ip, port: nat)

  datatype Blocked = Blocked(resource: string)

  function TrimDots(host: string): string {
    Text.ToAsciiLower(Text.TrimEnd(host, c => c == '.'))
  }

  function PortText(n: nat): string {
    if n < 10 then [(n + '0' as int) as char] else PortText(n / 10) + [(n % 10 + '0' as int) as char]
  }

  function Authority(t: Target, host: string): string {
    var name := if ':' in host then "[" + host + "]" else host;
    if t.port.Some? then name + ":" + PortText(t.port.value) else name
  }

  predicate IsExactLoopbackHost(net: Network, host: string) {
    net.parse(host) == Some(Quad(127, 0, 0, 1)) || net.parse(host) == Some(V6(1))
  }

  predicate IsOwnLoopback(net: Network, t: Target, allowed: Option<Origin>) {
    allowed.Some? && SameOrigin(allowed.value, t.url.origin) && t.url.host.Some? && IsExactLoopbackHost(net, t.url.host.value)
  }

  function ApprovedTarget(t: Target, authority: string, address: Ip, port: nat, ownLoopback: bool): Result<Approved, Blocked> {
    if IsPublic(address) || (ownLoopback && IsLoopback(address)) then Ok(Approved(authority, address, port))
    else Err(Blocked(t.text))
  }

  predicate AllPublic(addresses: seq<Ip>) {
    forall i :: 0 <= i < |addresses| ==> IsPublic(addresses[i])
  }

  function ResolveTarget(net: Network, t: Target, allowed: Option<Origin>): Result<Approved, Blocked> {
    var refused := Err(Blocked(t.text));
    if !IsWebScheme(t.url.scheme) || t.url.host.None? then refused
    else
      var host := TrimDots(t.url.host.value);
      if host == "" || host == "localhost" || t.knownPort.None? then refused
      else
        var authority, port := Authority(t, t.url.host.value), t.knownPort.value;
        match net.parse(host)
        case Some(address) => ApprovedTarget(t, authority, address, port, IsOwnLoopback(net, t, allowed))
        case None =>
          match net.resolve(host, port)
          case None => refused
          case Some(addresses) =>
            if addresses == [] || !AllPublic(addresses) then refused
            else ApprovedTarget(t, authority, addresses[0], port, false)
  }

  /** An address the page may reach: public, or loopback named literally by a page of that very origin. */
  ghost predicate MayReach(net: Network, t: Target, allowed: Option<Origin>, address: Ip) {
    || IsPublic(address)
    || (IsOwnLoopback(net, t, allowed) && IsLoopback(address) && net.parse(TrimDots(t.url.host.value)) == Some(address))
  }

  /** Only such addresses are ever approved, at the target's own port; a name with one bad address is refused whole. */
  lemma ApprovedIsReachable(net: Network, t: Target, allowed: Option<Origin>)
    ensures var r := ResolveTarget(net, t, allowed);
            && (r.Ok? ==> MayReach(net, t, allowed, r.value.address) && t.knownPort == Some(r.value.port) && IsWebScheme(t.url.scheme))
            && (r.Err? ==> r.error.resource == t.text)
            && (r.Ok? && net.parse(TrimDots(t.url.host.value)).None? ==>
                  && IsPublic(r.value.address)
                  && net.resolve(TrimDots(t.url.host.value), r.value.port).Some?
                  && AllPublic(net.resolve(TrimDots(t.url.host.value), r.value.port).value))
  {
  }

  /** The target can be looked up at all. */
  ghost predicate Addressable(t: Target) {
    && IsWebScheme(t.url.scheme) && t.url.host.Some? && t.knownPort.Some?
    && TrimDots(t.url.host.value) != "" && TrimDots(t.url.host.value) != "localhost"
  }

  /**
   * For every target: an address that is not public is approved exactly when the target names a loopback address
   * literally and is of the page's very origin, by its exact host. Another origin counts as none.
   */
  lemma LoopbackOnlyForItsOwnOrigin(net: Network, t: Target, allowed: Option<Origin>)
    ensures var r := ResolveTarget(net, t, allowed);
            r.Ok? && !IsPublic(r.value.address) <==>
              && Addressable(t) && IsOwnLoopback(net, t, allowed)
              && net.parse(TrimDots(t.url.host.value)).Some? && IsLoopback(net.parse(TrimDots(t.url.host.value)).value)
    ensures allowed.None? || !SameOrigin(allowed.value, t.url.origin) ==> ResolveTarget(net, t, allowed) == ResolveTarget(net, t, None)
  {
    if Addressable(t) && net.parse(TrimDots(t.url.host.value)).Some? {
      var address := net.parse(TrimDots(t.url.host.value)).value;
      if IsLoopback(address) { LoopbackIsNotPublic(address); }
    }
  }

  lemma LoopbackIsNotPublic(ip: Ip)
    requires IsLoopback(ip)
    ensures !IsPublic(ip)
  {
    if ip.V4? {
      assert NetOf(BLOCKS[3]) == Net(Quad(127, 0, 0, 0), 8);
    } else {
      assert RANGES[1] == Range(1, 16, 0, 128);
      assert Contains(NetOfRange(RANGES[1]), ip);
    }
  }

  /** The authority as a URL has it: an IPv6 host in brackets, and the port if it is written. */
  ghost predicate NamesAuthority(t: Target, authority: string) {
    var host := t.url.host.GetOr("");
    var name := if ':' in host then "[" + host + "]" else host;
    if t.port.None? then authority == name
    else exists digits :: IsDecimal(digits, t.port.value) && authority == name + ":" + digits
  }

  /** The decimal digits of a number, without leading zeros. */
  ghost predicate IsDecimal(digits: string, n: nat) {
    && digits != "" && (forall c :: c in digits ==> '0' <= c <= '9') && (digits[0] == '0' ==> |digits| == 1)
    && ValueOfDigits(digits) == n
  }

  ghost function ValueOfDigits(digits: string): int {
    if digits == "" then 0 else 10 * ValueOfDigits(digits[..|digits| - 1]) + (digits[|digits| - 1] as int - '0' as int)
  }

  lemma {:induction false} PortDigits(n: nat)
    ensures IsDecimal(PortText(n), n) && (n > 0 ==> PortText(n)[0] != '0')
  {
    if n >= 10 {
      PortDigits(n / 10);
      var s := PortText(n);
      assert s[..|s| - 1] == PortText(n / 10);
    } else {
      assert PortText(n)[..0] == "";
    }
  }

  /** The address is what the target's name leads to: itself if literal, otherwise the first of several, all public. */
  ghost predicate LeadsTo(net: Network, t: Target, allowed: Option<Origin>, address: Ip)
    requires t.url.host.Some? && t.knownPort.Some?
  {
    var host := TrimDots(t.url.host.value);
    if net.parse(host).Some? then
      && address == net.parse(host).value
      && (IsPublic(address) || (IsOwnLoopback(net, t, allowed) && IsLoopback(address)))
    else
      var found := net.resolve(host, t.knownPort.value);
      && found.Some? && found.value != [] && address == found.value[0]
      && forall i :: 0 <= i < |found.value| ==> IsPublic(found.value[i])
  }

  /** A target is approved exactly when it can be looked up and leads to an allowed address, with its own port and authority. */
  lemma ApprovedExactly(net: Network, t: Target, allowed: Option<Origin>, approved: Approved)
    requires ResolveTarget(net, t, allowed) == Ok(approved)
    ensures Addressable(t) && approved.port == t.knownPort.value && LeadsTo(net, t, allowed, approved.address)
    ensures NamesAuthority(t, approved.authority)
  {
    if t.port.Some? { PortDigits(t.port.value); }
  }

  lemma ReachableIsApproved(net: Network, t: Target, allowed: Option<Origin>, address: Ip)
    requires Addressable(t) && LeadsTo(net, t, allowed, address)
    ensures ResolveTarget(net, t, allowed).Ok? && ResolveTarget(net, t, allowed).value.address == address
  {
  }
}
