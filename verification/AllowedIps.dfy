/** The client whitelist: cleaning it up, checking its entries, and matching clients against it. */
module AllowedIps {
  import opened Outcomes
  import opened Cidr
  import opened Text

  const REQUIRED_LOOPBACK: string := "127.0.0.1"

  /** How the address library reads text: as one address, or as a network. */
  datatype IpParser = IpParser(address: string -> Option<Ip>, network: string -> Option<Net>)

  // -------------------------------------------------------------------------
  // Normalization
  // -------------------------------------------------------------------------

  /** One more entry: trimmed, and kept unless it is blank or there already. */
  function Extend(kept: seq<string>, entry: string): seq<string> {
    if Trim(entry) == "" || Trim(entry) in kept then kept else kept + [Trim(entry)]
  }

  function Normalized(entries: seq<string>): seq<string> {
    if entries == [] then [REQUIRED_LOOPBACK]
    else Extend(Normalized(entries[..|entries| - 1]), entries[|entries| - 1])
  }

  method NormalizeAllowedIps(entries: seq<string>) returns (normalized: seq<string>)
    ensures normalized == Normalized(entries)
  {
    normalized := [REQUIRED_LOOPBACK];
    for i := 0 to |entries|
      invariant normalized == Normalized(entries[..i]) && REQUIRED_LOOPBACK in normalized
    {
      assert entries[..i + 1][..i] == entries[..i];
      var entry := Trim(entries[i]);
      if entry != "" && entry != REQUIRED_LOOPBACK && entry !in normalized {
        normalized := normalized + [entry];
      }
    }
    assert entries[..|entries|] == entries;
  }

  ghost predicate Distinct(entries: seq<string>) {
    forall i, j :: 0 <= i < j < |entries| ==> entries[i] != entries[j]
  }

  ghost predicate Clean(entries: seq<string>) {
    && entries != [] && entries[0] == REQUIRED_LOOPBACK && Distinct(entries)
    && forall i :: 0 <= i < |entries| ==> entries[i] != "" && Trim(entries[i]) == entries[i]
  }

  /** Loopback, and whatever some entry trims to, unless it is blank. */
  predicate Asked(entries: seq<string>, x: string) {
    x == REQUIRED_LOOPBACK || (x != "" && exists i :: 0 <= i < |entries| && Trim(entries[i]) == x)
  }

  lemma LoopbackIsTrimmed()
    ensures Trim(REQUIRED_LOOPBACK) == REQUIRED_LOOPBACK
  {
    TrimStartResult(REQUIRED_LOOPBACK, IsWhitespace);
    TrimEndResult(REQUIRED_LOOPBACK, IsWhitespace);
    assert !IsWhitespace(REQUIRED_LOOPBACK[0]) && !IsWhitespace(REQUIRED_LOOPBACK[8]);
  }

  /** The result is clean, starts with loopback, and holds exactly the trimmed non-blank entries besides it. */
  lemma {:induction false} NormalizedHolds(entries: seq<string>)
    ensures Clean(Normalized(entries))
    ensures forall x :: x in Normalized(entries) <==> Asked(entries, x)
  {
    if entries == [] {
      LoopbackIsTrimmed();
    } else {
      var n := |entries| - 1;
      NormalizedHolds(entries[..n]);
      TrimIdempotent(entries[n]);
      MembersOfExtension(entries);
    }
  }

  lemma AskedOneMore(before: seq<string>, entry: string, x: string)
    ensures Asked(before + [entry], x) <==> Asked(before, x) || (x != "" && Trim(entry) == x)
  {
    var entries := before + [entry];
    if x != "" && exists i :: 0 <= i < |entries| && Trim(entries[i]) == x {
      var i :| 0 <= i < |entries| && Trim(entries[i]) == x;
      if i < |before| { assert Trim(before[i]) == x; }
    }
    if x != "" && exists i :: 0 <= i < |before| && Trim(before[i]) == x {
      var i :| 0 <= i < |before| && Trim(before[i]) == x;
      assert Trim(entries[i]) == x;
    }
    if x != "" && Trim(entry) == x { assert Trim(entries[|before|]) == x; }
  }

  lemma MembersOfExtension(entries: seq<string>)
    requires entries != []
    requires var before := entries[..|entries| - 1];
             forall x :: x in Normalized(before) <==> Asked(before, x)
    ensures forall x :: x in Normalized(entries) <==> Asked(entries, x)
  {
    var before, entry := entries[..|entries| - 1], entries[|entries| - 1];
    assert entries == before + [entry];
    forall x ensures x in Normalized(entries) <==> Asked(entries, x) {
      AskedOneMore(before, entry, x);
    }
  }

  /** A list that is clean already is left as it is. */
  lemma {:induction false} CleanStays(entries: seq<string>)
    requires Clean(entries)
    ensures Normalized(entries) == entries
  {
    var n := |entries| - 1;
    if n == 0 {
      assert entries == [REQUIRED_LOOPBACK] && entries[..0] == [];
      LoopbackIsTrimmed();
    } else {
      assert entries[..n] + [entries[n]] == entries;
      CleanStays(entries[..n]);
    }
  }

  /** Normalizing twice is normalizing once. */
  lemma NormalizingTwice(entries: seq<string>)
    ensures Normalized(Normalized(entries)) == Normalized(entries)
  {
    NormalizedHolds(entries);
    CleanStays(Normalized(entries));
  }

  // -------------------------------------------------------------------------
  // Validity of entries
  // -------------------------------------------------------------------------

  predicate IsAnyAddress(entry: string) {
    entry == "0.0.0.0" || entry == "::" || entry == "0.0.0.0/0" || entry == "::/0"
  }

  predicate ValidEntry(ip: IpParser, text: string) {
    var entry := Trim(text);
    && entry != "" && !IsAnyAddress(entry)
    && if '/' in entry then ip.network(entry).Some? && ip.network(entry).value.prefix != 0 else ip.address(entry).Some?
  }

  predicate AllValid(ip: IpParser, entries: seq<string>) {
    forall i :: 0 <= i < |entries| ==> ValidEntry(ip, entries[i])
  }

  /** Normalization keeps a list of valid entries valid. */
  lemma ValidStaysValid(ip: IpParser, entries: seq<string>)
    requires AllValid(ip, entries) && ip.address(REQUIRED_LOOPBACK).Some?
    ensures AllValid(ip, Normalized(entries))
  {
    NormalizedHolds(entries);
    LoopbackIsTrimmed();
    forall i | 0 <= i < |Normalized(entries)| ensures ValidEntry(ip, Normalized(entries)[i]) {
      var x := Normalized(entries)[i];
      assert x in Normalized(entries);
      if x != REQUIRED_LOOPBACK {
        var k :| 0 <= k < |entries| && Trim(entries[k]) == x;
        TrimIdempotent(entries[k]);
        assert ValidEntry(ip, entries[k]);
      }
    }
  }

  // -------------------------------------------------------------------------
  // Matching clients
  // -------------------------------------------------------------------------

  predicate IsLoopback(client: Ip) {
    if client.V4? then client.value / 0x100_0000 == 127 else client.value == 1
  }

  predicate EntryMatches(ip: IpParser, entry: string, client: Ip) {
    match ip.address(entry)
    case Some(address) => address == client
    case None =>
      match ip.network(entry)
      case Some(net) => net.prefix <= Bits(net.address) && Contains(net, client)
      case None => false
  }

  predicate IsClientAllowed(ip: IpParser, client: Ip, entries: seq<string>) {
    IsLoopback(client) || exists i :: 0 <= i < |entries| && EntryMatches(ip, entries[i], client)
  }

  /** The parser reads addresses and networks of the right size, and takes no surrounding space. */
  ghost predicate Sane(ip: IpParser) {
    && (forall text :: ip.network(text).Some? ==> ValidNet(ip.network(text).value))
    && (forall text :: ip.address(text).Some? || ip.network(text).Some? ==> Trim(text) == text && text != "")
    && ip.address(REQUIRED_LOOPBACK) == Some(V4(0x7f00_0001))
  }

  /** Normalization shuts nobody out. */
  lemma NormalizationKeepsClients(ip: IpParser, client: Ip, entries: seq<string>)
    requires Sane(ip) && IsClientAllowed(ip, client, entries)
    ensures IsClientAllowed(ip, client, Normalized(entries))
  {
    if !IsLoopback(client) {
      var i :| 0 <= i < |entries| && EntryMatches(ip, entries[i], client);
      NormalizedHolds(entries);
      assert Trim(entries[i]) == entries[i] && entries[i] in Normalized(entries);
    }
  }

  /** It lets in exactly the loopback clients and those that the trimmed entries name, one by one or by prefix. */
  lemma AllowedByNormalized(ip: IpParser, client: Ip, entries: seq<string>)
    requires Sane(ip) && ValidIp(client)
    ensures IsClientAllowed(ip, client, Normalized(entries)) <==>
      || IsLoopback(client)
      || exists i :: 0 <= i < |entries| && NamedBy(ip, Trim(entries[i]), client)
  {
    NormalizedHolds(entries);
    var kept := Normalized(entries);
    if IsClientAllowed(ip, client, kept) && !IsLoopback(client) {
      var k :| 0 <= k < |kept| && EntryMatches(ip, kept[k], client);
      assert kept[k] in kept && kept[k] != REQUIRED_LOOPBACK;
      var i :| 0 <= i < |entries| && Trim(entries[i]) == kept[k];
      MatchIsNaming(ip, kept[k], client);
    }
    if exists i :: 0 <= i < |entries| && NamedBy(ip, Trim(entries[i]), client) {
      var i :| 0 <= i < |entries| && NamedBy(ip, Trim(entries[i]), client);
      MatchIsNaming(ip, Trim(entries[i]), client);
      assert Trim(entries[i]) in kept;
    }
  }

  /** The entry is the client's address, or a network whose prefix the client shares. */
  ghost predicate NamedBy(ip: IpParser, entry: string, client: Ip) {
    || ip.address(entry) == Some(client)
    || (ip.address(entry).None? && ip.network(entry).Some? && ip.network(entry).value.address.V4? == client.V4?
        && ip.network(entry).value.prefix <= Bits(ip.network(entry).value.address)
        && SamePrefix(Bits(client), ip.network(entry).value.prefix, client.value, ip.network(entry).value.address.value))
  }

  lemma MatchIsNaming(ip: IpParser, entry: string, client: Ip)
    requires Sane(ip) && ValidIp(client)
    ensures EntryMatches(ip, entry, client) <==> NamedBy(ip, entry, client)
  {
    if ip.address(entry).None? && ip.network(entry).Some? {
      ContainsIsPrefixMatch(ip.network(entry).value, client);
    }
  }

  // -------------------------------------------------------------------------
  // What an entry may be, and who counts as loopback
  // -------------------------------------------------------------------------

  /** An entry names one address, or a network with a prefix; nothing that stands for all addresses is accepted. */
  lemma EntriesAccepted(ip: IpParser, text: string)
    ensures ValidEntry(ip, text) <==>
      && Trim(text) !in {"", "0.0.0.0", "::", "0.0.0.0/0", "::/0"}
      && ('/' in Trim(text) ==> ip.network(Trim(text)).Some? && ip.network(Trim(text)).value.prefix > 0)
      && ('/' !in Trim(text) ==> ip.address(Trim(text)).Some?)
  {
  }

  lemma HalfOrLess(bits: nat, prefix: nat)
    requires 0 < prefix <= bits
    ensures 2 * Pow2(bits - prefix) <= Pow2(bits)
    decreases prefix
  {
    if prefix > 1 {
      HalfOrLess(bits, prefix - 1);
      assert Pow2(bits - prefix + 1) == 2 * Pow2(bits - prefix);
    }
  }

  lemma NetworkLeavesOut(net: Net) returns (client: Ip)
    requires ValidNet(net) && net.prefix > 0
    ensures ValidIp(client) && client.V4? == net.address.V4? && !Contains(net, client)
  {
    var bits := Bits(net.address);
    var size := Pow2(bits - net.prefix);
    HalfOrLess(bits, net.prefix);
    var value := if First(net.address.value, size) == 0 then Pow2(bits) - 1 else 0;
    client := if net.address.V4? then V4(value) else V6(value);
    FirstIsNotNegative(net.address.value, size);
  }

  lemma FirstIsNotNegative(n: nat, size: nat)
    requires size > 0
    ensures First(n, size) >= 0
  {
    Division(n, size);
    assert n / size * size >= 0;
  }

  lemma TwoAddresses()
    ensures Pow2(V4_BITS) >= 2 && Pow2(V6_BITS) >= 2
  {
    assert Pow2(V4_BITS) == 2 * Pow2(31) && Pow2(V6_BITS) == 2 * Pow2(127);
  }

  /** No single accepted entry lets everyone in: of either family some address is left out. */
  lemma ValidEntryLeavesOut(ip: IpParser, text: string, v4: bool) returns (client: Ip)
    requires Sane(ip) && ValidEntry(ip, text)
    ensures ValidIp(client) && client.V4? == v4 && !EntryMatches(ip, Trim(text), client)
  {
    var entry := Trim(text);
    TwoAddresses();
    client := if v4 then V4(0) else V6(0);
    if ip.address(entry).Some? {
      if ip.address(entry).value == client { client := if v4 then V4(1) else V6(1); }
    } else {
      var net := ip.network(entry).value;
      if net.address.V4? == v4 { client := NetworkLeavesOut(net); }
    }
  }

  /** Loopback clients are 127.0.0.0 to 127.255.255.255, and ::1. */
  lemma LoopbackClients(client: Ip)
    ensures IsLoopback(client) <==> if client.V4? then 0x7f00_0000 <= client.value <= 0x7fff_ffff else client == V6(1)
  {
  }
}
