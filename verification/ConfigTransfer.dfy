/** Exporting a selection of settings, merging it into another configuration, previewing and saving the result. */
module ConfigTransfer {
  import opened Outcomes
  import opened Protocol
  import opened Text
  import AllowedIps
  import Query

  const PAYLOAD_FORMAT: string := "printbridge-config"
  const TRANSFER_VERSION: nat := 1
  const MIN_POLL_SECONDS: nat := 3
  const MIN_RETRIES: nat := 1
  const LOCAL_HOST: string := "127.0.0.1"

  // -------------------------------------------------------------------------
  // Configurations and payloads
  // -------------------------------------------------------------------------

  datatype Remote = Remote(
    enabled: bool, endpoint: Option<string>, token: Option<string>,
    deviceId: Option<string>, deviceName: Option<string>,
    pollSeconds: nat, maxRetries: nat, retentionDays: nat)

  /** Settings that a transfer never touches. */
  datatype Local = Local(defaultPrinter: Option<string>, defaultPaper: Option<Paper>, maxFileSizeMb: nat, autostart: bool)

  datatype Config = Config(host: string, port: nat, origins: seq<string>, ips: seq<string>, remote: Remote, local: Local)

  datatype Options = Options(
    port: bool, origins: bool, ips: bool, enabled: bool, endpoint: bool, token: bool, pollSeconds: bool, maxRetries: bool)

  datatype ServicePart = ServicePart(port: Option<nat>)

  datatype SecurityPart = SecurityPart(origins: Option<seq<string>>, ips: Option<seq<string>>)

  /** A doubly optional field can be left out, or be chosen and empty. */
  datatype RemotePart = RemotePart(
    enabled: Option<bool>, endpoint: Option<Option<string>>, token: Option<Option<string>>,
    pollSeconds: Option<nat>, maxRetries: Option<nat>)

  datatype Payload = Payload(
    format: string, version: nat,
    service: Option<ServicePart>, security: Option<SecurityPart>, remote: Option<RemotePart>)

  datatype Field = Port | Origins | Ips | Enabled | Endpoint | Token | PollSeconds | MaxRetries

  datatype TransferError = InvalidFile | InvalidField(field: Field)

  /** What URLs and addresses are read with. */
  datatype Readers = Readers(parseUrl: string -> Option<Url>, ip: AllowedIps.IpParser)

  function Chosen<T>(b: bool, value: T): Option<T> {
    if b then Some(value) else None
  }

  function PortOf(p: Payload): Option<nat> { if p.service.Some? then p.service.value.port else None }
  function OriginsOf(p: Payload): Option<seq<string>> { if p.security.Some? then p.security.value.origins else None }
  function IpsOf(p: Payload): Option<seq<string>> { if p.security.Some? then p.security.value.ips else None }
  function EnabledOf(p: Payload): Option<bool> { if p.remote.Some? then p.remote.value.enabled else None }
  function EndpointOf(p: Payload): Option<Option<string>> { if p.remote.Some? then p.remote.value.endpoint else None }
  function TokenOf(p: Payload): Option<Option<string>> { if p.remote.Some? then p.remote.value.token else None }
  function PollSecondsOf(p: Payload): Option<nat> { if p.remote.Some? then p.remote.value.pollSeconds else None }
  function MaxRetriesOf(p: Payload): Option<nat> { if p.remote.Some? then p.remote.value.maxRetries else None }

  predicate Selected(p: Payload, f: Field) {
    match f
    case Port => PortOf(p).Some?
    case Origins => OriginsOf(p).Some?
    case Ips => IpsOf(p).Some?
    case Enabled => EnabledOf(p).Some?
    case Endpoint => EndpointOf(p).Some?
    case Token => TokenOf(p).Some?
    case PollSeconds => PollSecondsOf(p).Some?
    case MaxRetries => MaxRetriesOf(p).Some?
  }

  predicate Exports(o: Options, f: Field) {
    match f
    case Port => o.port
    case Origins => o.origins
    case Ips => o.ips
    case Enabled => o.enabled
    case Endpoint => o.endpoint
    case Token => o.token
    case PollSeconds => o.pollSeconds
    case MaxRetries => o.maxRetries
  }

  // -------------------------------------------------------------------------
  // Export
  // -------------------------------------------------------------------------

  function RemoteTransfer(c: Config, o: Options): Option<RemotePart> {
    var part := RemotePart(Chosen(o.enabled, c.remote.enabled), Chosen(o.endpoint, c.remote.endpoint), Chosen(o.token, c.remote.token),
                           Chosen(o.pollSeconds, c.remote.pollSeconds), Chosen(o.maxRetries, c.remote.maxRetries));
    if part.enabled.Some? || part.endpoint.Some? || part.token.Some? || part.pollSeconds.Some? || part.maxRetries.Some?
    then Some(part) else None
  }

  function BuildPayload(c: Config, o: Options): Payload {
    Payload(PAYLOAD_FORMAT, TRANSFER_VERSION,
            Chosen(o.port, ServicePart(Some(c.port))),
            Chosen(o.origins || o.ips, SecurityPart(Chosen(o.origins, c.origins), Chosen(o.ips, c.ips))),
            RemoteTransfer(c, o))
  }

  // -------------------------------------------------------------------------
  // Checks of single fields
  // -------------------------------------------------------------------------

  predicate ValidOrigin(r: Readers, value: string) {
    var url := r.parseUrl(value);
    url.Some? && IsWebScheme(url.value.scheme) && Serialized(url.value.origin) == value
  }

  predicate AllOriginsValid(r: Readers, origins: seq<string>) {
    forall i :: 0 <= i < |origins| ==> ValidOrigin(r, origins[i])
  }

  /** Trimmed, and absent when blank. */
  function NonBlank(value: Option<string>): Option<string> {
    if value.Some? && Trim(value.value) != "" then Some(Trim(value.value)) else None
  }

  predicate ValidEndpoint(r: Readers, value: Option<string>) {
    NonBlank(value).Some? ==>
      r.parseUrl(NonBlank(value).value).Some? && IsWebScheme(r.parseUrl(NonBlank(value).value).value.scheme)
  }

  predicate ValidField(r: Readers, p: Payload, f: Field)
    requires Selected(p, f)
  {
    match f
    case Port => PortOf(p).value != 0
    case Origins => AllOriginsValid(r, OriginsOf(p).value)
    case Ips => AllowedIps.AllValid(r.ip, IpsOf(p).value)
    case Endpoint => ValidEndpoint(r, EndpointOf(p).value)
    case PollSeconds => PollSecondsOf(p).value >= MIN_POLL_SECONDS
    case MaxRetries => MaxRetriesOf(p).value != 0
    case _ => true
  }

  predicate Bad(r: Readers, p: Payload, f: Field) {
    Selected(p, f) && !ValidField(r, p, f)
  }

  /** All fields, in the order they are checked and shown. */
  const FIELDS: seq<Field> := [Port, Origins, Ips, Enabled, Endpoint, Token, PollSeconds, MaxRetries]

  predicate ValidPayload(p: Payload) {
    p.format == PAYLOAD_FORMAT && p.version == TRANSFER_VERSION
  }

  // -------------------------------------------------------------------------
  // Merge
  // -------------------------------------------------------------------------

  function Normalize(c: Config): Config {
    c.(host := LOCAL_HOST, ips := AllowedIps.Normalized(c.ips))
  }

  /** The selected fields of the payload over the current configuration; a blank token selects nothing. */
  function Overlay(c: Config, p: Payload): Config {
    Normalize(Config(
      c.host,
      PortOf(p).GetOr(c.port),
      OriginsOf(p).GetOr(c.origins),
      IpsOf(p).GetOr(c.ips),
      Remote(
        EnabledOf(p).GetOr(c.remote.enabled),
        if EndpointOf(p).Some? then NonBlank(EndpointOf(p).value) else c.remote.endpoint,
        Coalesce(NonBlank(TokenOf(p).GetOr(None)), c.remote.token),
        c.remote.deviceId,
        c.remote.deviceName,
        PollSecondsOf(p).GetOr(c.remote.pollSeconds),
        MaxRetriesOf(p).GetOr(c.remote.maxRetries),
        c.remote.retentionDays),
      c.local))
  }

  /** The result of a merge, in terms of the overlay: refused exactly for a wrong file or a bad selected field. */
  ghost predicate IsMerge(r: Readers, c: Config, p: Payload, result: Result<Config, TransferError>) {
    match result
    case Ok(merged) => ValidPayload(p) && (forall f :: !Bad(r, p, f)) && merged == Overlay(c, p)
    case Err(InvalidFile) => !ValidPayload(p)
    case Err(InvalidField(f)) =>
      && ValidPayload(p) && Bad(r, p, f)
      && exists n :: 0 <= n < |FIELDS| && FIELDS[n] == f && forall k :: 0 <= k < n ==> !Bad(r, p, FIELDS[k])
  }

  method CheckOrigins(r: Readers, origins: seq<string>) returns (ok: bool)
    ensures ok == AllOriginsValid(r, origins)
  {
    for i := 0 to |origins|
      invariant AllOriginsValid(r, origins[..i])
    {
      if !ValidOrigin(r, origins[i]) {
        return false;
      }
    }
    return true;
  }

  method CheckIps(r: Readers, ips: seq<string>) returns (ok: bool)
    ensures ok == AllowedIps.AllValid(r.ip, ips)
  {
    for i := 0 to |ips|
      invariant AllowedIps.AllValid(r.ip, ips[..i])
    {
      if !AllowedIps.ValidEntry(r.ip, ips[i]) {
        return false;
      }
    }
    return true;
  }

  /** The local half of a merge: port, origins, client addresses. */
  method MergeLocal(r: Readers, c: Config, p: Payload) returns (next: Config, bad: Option<Field>)
    ensures bad.None? ==>
      && !Bad(r, p, Port) && !Bad(r, p, Origins) && !Bad(r, p, Ips)
      && next == c.(port := PortOf(p).GetOr(c.port), origins := OriginsOf(p).GetOr(c.origins), ips := IpsOf(p).GetOr(c.ips))
    ensures bad.Some? ==>
      && Bad(r, p, bad.value) && bad.value in {Port, Origins, Ips}
      && (bad.value != Port ==> !Bad(r, p, Port)) && (bad.value == Ips ==> !Bad(r, p, Origins))
  {
    next, bad := c, None;
    if p.service.Some? && p.service.value.port.Some? {
      if p.service.value.port.value == 0 {
        return next, Some(Port);
      }
      next := next.(port := p.service.value.port.value);
    }
    if p.security.Some? {
      var part := p.security.value;
      if part.origins.Some? {
        var ok := CheckOrigins(r, part.origins.value);
        if !ok {
          return next, Some(Origins);
        }
        next := next.(origins := part.origins.value);
      }
      if part.ips.Some? {
        var ok := CheckIps(r, part.ips.value);
        if !ok {
          return next, Some(Ips);
        }
        next := next.(ips := part.ips.value);
      }
    }
  }

  /** The remote half of a merge. */
  method MergeRemote(r: Readers, current: Remote, p: Payload) returns (next: Remote, bad: Option<Field>)
    ensures bad.None? ==>
      && !Bad(r, p, Endpoint) && !Bad(r, p, PollSeconds) && !Bad(r, p, MaxRetries)
      && forall c: Config :: c.remote == current ==> next == Overlay(c, p).remote
    ensures bad.Some? ==>
      && Bad(r, p, bad.value) && bad.value in {Endpoint, PollSeconds, MaxRetries}
      && (bad.value != Endpoint ==> !Bad(r, p, Endpoint)) && (bad.value == MaxRetries ==> !Bad(r, p, PollSeconds))
  {
    next, bad := current, None;
    if p.remote.None? {
      return;
    }
    var part := p.remote.value;
    if part.enabled.Some? {
      next := next.(enabled := part.enabled.value);
    }
    if part.endpoint.Some? {
      if !ValidEndpoint(r, part.endpoint.value) {
        return next, Some(Endpoint);
      }
      next := next.(endpoint := NonBlank(part.endpoint.value));
    }
    if part.token.Some? {
      var token := NonBlank(part.token.value);
      if token.Some? {
        next := next.(token := token);
      }
    }
    if part.pollSeconds.Some? {
      if part.pollSeconds.value < MIN_POLL_SECONDS {
        return next, Some(PollSeconds);
      }
      next := next.(pollSeconds := part.pollSeconds.value);
    }
    if part.maxRetries.Some? {
      if part.maxRetries.value == 0 {
        return next, Some(MaxRetries);
      }
      next := next.(maxRetries := part.maxRetries.value);
    }
  }

  /** Copies the selected fields one by one, checking each, and normalizes the result. */
  method MergePayload(r: Readers, current: Config, p: Payload) returns (result: Result<Config, TransferError>)
    ensures IsMerge(r, current, p, result)
  {
    if !ValidPayload(p) {
      return Err(InvalidFile);
    }
    var next, bad := MergeLocal(r, current, p);
    if bad.Some? {
      BadComesFirst(r, p, bad.value);
      return Err(InvalidField(bad.value));
    }
    var remote;
    remote, bad := MergeRemote(r, current.remote, p);
    if bad.Some? {
      BadComesFirst(r, p, bad.value);
      return Err(InvalidField(bad.value));
    }
    return Ok(Normalize(next.(remote := remote)));
  }

  function Position(f: Field): nat {
    match f
    case Port => 0 case Origins => 1 case Ips => 2 case Enabled => 3
    case Endpoint => 4 case Token => 5 case PollSeconds => 6 case MaxRetries => 7
  }

  lemma BadComesFirst(r: Readers, p: Payload, f: Field)
    requires forall g :: Position(g) < Position(f) ==> !Bad(r, p, g)
    ensures exists n :: 0 <= n < |FIELDS| && FIELDS[n] == f && forall k :: 0 <= k < n ==> !Bad(r, p, FIELDS[k])
  {
    assert FIELDS[Position(f)] == f;
    assert forall k :: 0 <= k < Position(f) ==> Position(FIELDS[k]) == k;
  }

  // -------------------------------------------------------------------------
  // Laws of merging
  // -------------------------------------------------------------------------

  lemma NormalizeTwice(c: Config)
    ensures Normalize(Normalize(c)) == Normalize(c)
  {
    AllowedIps.NormalizingTwice(c.ips);
  }

  /** Merging the same payload again changes nothing. */
  lemma MergeTwice(r: Readers, c: Config, p: Payload, once: Config, twice: Result<Config, TransferError>)
    requires IsMerge(r, c, p, Ok(once)) && IsMerge(r, once, p, twice)
    ensures twice == Ok(once)
  {
    AllowedIps.NormalizingTwice(IpsOf(p).GetOr(c.ips));
  }

  /** The value of a field, for comparing configurations field by field. */
  datatype Value = Number(n: nat) | Flag(b: bool) | Texts(texts: seq<string>) | Maybe(text: Option<string>)

  function ValueOf(c: Config, f: Field): Value {
    match f
    case Port => Number(c.port)
    case Origins => Texts(c.origins)
    case Ips => Texts(c.ips)
    case Enabled => Flag(c.remote.enabled)
    case Endpoint => Maybe(c.remote.endpoint)
    case Token => Maybe(c.remote.token)
    case PollSeconds => Number(c.remote.pollSeconds)
    case MaxRetries => Number(c.remote.maxRetries)
  }

  /** Fields that were not selected, a blank token and everything outside a transfer stay, up to normalization. */
  lemma UnselectedStays(c: Config, p: Payload)
    ensures forall f :: !Selected(p, f) ==> ValueOf(Overlay(c, p), f) == ValueOf(Normalize(c), f)
    ensures NonBlank(TokenOf(p).GetOr(None)).None? ==> Overlay(c, p).remote.token == c.remote.token
    ensures var m := Overlay(c, p);
            && m.local == c.local && m.remote.deviceId == c.remote.deviceId && m.remote.deviceName == c.remote.deviceName
            && m.remote.retentionDays == c.remote.retentionDays && m.host == LOCAL_HOST
  {
  }

  /** A payload selects exactly the exported fields. */
  lemma ExportSelects(source: Config, o: Options)
    ensures forall f :: Selected(BuildPayload(source, o), f) <==> Exports(o, f)
    ensures ValidPayload(BuildPayload(source, o))
  {
  }

  /**
   * Exporting from one configuration and merging into another carries every exported field over, in its normal
   * form; a token is carried exactly when it is not blank, and otherwise the target keeps its own.
   */
  lemma ExportThenMerge(source: Config, target: Config, o: Options)
    ensures var m := Overlay(target, BuildPayload(source, o));
            && (forall f :: Exports(o, f) && f != Endpoint && f != Token ==> ValueOf(m, f) == ValueOf(Normalize(source), f))
            && (o.endpoint ==> m.remote.endpoint == NonBlank(source.remote.endpoint))
            && (o.token ==> m.remote.token == Coalesce(NonBlank(source.remote.token), target.remote.token))
            && (forall f :: !Exports(o, f) ==> ValueOf(m, f) == ValueOf(Normalize(target), f))
  {
    var p := BuildPayload(source, o);
    ExportSelects(source, o);
    UnselectedStays(target, p);
  }

  /** A blank token is the one selected field that a transfer does not carry over. */
  lemma BlankTokenIsNotCarried(source: Config, target: Config, o: Options)
    requires o.token
    ensures Overlay(target, BuildPayload(source, o)).remote.token == NonBlank(source.remote.token)
      <==> NonBlank(source.remote.token).Some? || target.remote.token.None?
  {
    ExportThenMerge(source, target, o);
  }

  // -------------------------------------------------------------------------
  // Saving
  // -------------------------------------------------------------------------

  predicate Saveable(r: Readers, c: Config) {
    && AllOriginsValid(r, c.origins) && AllowedIps.AllValid(r.ip, c.ips)
    && c.remote.pollSeconds >= MIN_POLL_SECONDS && c.remote.maxRetries >= MIN_RETRIES
  }

  datatype SaveError = InvalidInput | WriteFailed

  class ConfigState {
    var config: Config
    var file: Option<Config>
    var wakeups: nat

    constructor (config: Config)
      ensures this.config == config && file == None && wakeups == 0
    {
      this.config, file, wakeups := config, None, 0;
    }

    /** Checks a configuration, writes it, and only then puts it into use and wakes the remote worker. */
    method SaveConfig(r: Readers, next: Config, persistent: bool, writeFault: bool) returns (result: Result<Config, SaveError>)
      modifies this
      ensures !Saveable(r, next) ==> result == Err(InvalidInput)
      ensures Saveable(r, next) && persistent && writeFault ==> result == Err(WriteFailed)
      ensures result.Err? ==> config == old(config) && file == old(file) && wakeups == old(wakeups)
      ensures result.Ok? ==>
        && Saveable(r, next) && result.value == Normalize(next) && config == Normalize(next)
        && file == (if persistent then Some(Normalize(next)) else old(file)) && wakeups == old(wakeups) + 1
      ensures result.Ok? <==> Saveable(r, next) && !(persistent && writeFault)
    {
      var ok := CheckOrigins(r, next.origins);
      if !ok {
        return Err(InvalidInput);
      }
      ok := CheckIps(r, next.ips);
      if !ok {
        return Err(InvalidInput);
      }
      var normalized := Normalize(next);
      if normalized.remote.pollSeconds < MIN_POLL_SECONDS {
        return Err(InvalidInput);
      }
      if normalized.remote.maxRetries < MIN_RETRIES {
        return Err(InvalidInput);
      }
      if persistent {
        if writeFault {
          return Err(WriteFailed);
        }
        file := Some(normalized);
      }
      config := normalized;
      wakeups := wakeups + 1;
      return Ok(normalized);
    }
  }

  /** What is in use can be saved again, and saving it again changes nothing. */
  lemma SavedStaysSaveable(r: Readers, c: Config)
    requires Saveable(r, c) && r.ip.address(AllowedIps.REQUIRED_LOOPBACK).Some?
    ensures Saveable(r, Normalize(c)) && Normalize(Normalize(c)) == Normalize(c)
  {
    AllowedIps.ValidStaysValid(r.ip, c.ips);
    NormalizeTwice(c);
  }

  lemma OverlayOriginsValid(r: Readers, c: Config, p: Payload)
    requires AllOriginsValid(r, c.origins) && !Bad(r, p, Origins)
    ensures AllOriginsValid(r, Overlay(c, p).origins)
  {
  }

  lemma OverlayIpsValid(r: Readers, c: Config, p: Payload)
    requires AllowedIps.AllValid(r.ip, c.ips) && !Bad(r, p, Ips) && r.ip.address(AllowedIps.REQUIRED_LOOPBACK).Some?
    ensures AllowedIps.AllValid(r.ip, Overlay(c, p).ips)
    ensures AllowedIps.Normalized(Overlay(c, p).ips) == Overlay(c, p).ips
  {
    AllowedIps.ValidStaysValid(r.ip, IpsOf(p).GetOr(c.ips));
    AllowedIps.NormalizingTwice(IpsOf(p).GetOr(c.ips));
  }

  lemma OverlayNumbersValid(r: Readers, c: Config, p: Payload)
    requires c.remote.pollSeconds >= MIN_POLL_SECONDS && c.remote.maxRetries >= MIN_RETRIES
    requires !Bad(r, p, PollSeconds) && !Bad(r, p, MaxRetries)
    ensures Overlay(c, p).remote.pollSeconds >= MIN_POLL_SECONDS && Overlay(c, p).remote.maxRetries >= MIN_RETRIES
  {
  }

  /** A merge into a configuration that could be saved can be saved, exactly as it is. */
  lemma MergedIsSaveable(r: Readers, c: Config, p: Payload, merged: Config)
    requires Saveable(r, c) && r.ip.address(AllowedIps.REQUIRED_LOOPBACK).Some?
    requires IsMerge(r, c, p, Ok(merged))
    ensures Saveable(r, merged) && Normalize(merged) == merged
  {
    OverlayOriginsValid(r, c, p);
    OverlayIpsValid(r, c, p);
    OverlayNumbersValid(r, c, p);
  }

  /** A saveable configuration exports to a payload every target can take, unless its port is 0 or its endpoint is no web address. */
  lemma ExportIsMergeable(r: Readers, source: Config, target: Config, o: Options, result: Result<Config, TransferError>)
    requires Saveable(r, source)
    requires IsMerge(r, target, BuildPayload(source, o), result)
    ensures result.Ok? <==> (o.port ==> source.port != 0) && (o.endpoint ==> ValidEndpoint(r, source.remote.endpoint))
  {
    var p := BuildPayload(source, o);
    ExportSelects(source, o);
    assert Bad(r, p, Port) <==> o.port && source.port == 0;
    assert Bad(r, p, Endpoint) <==> o.endpoint && !ValidEndpoint(r, source.remote.endpoint);
    assert forall f :: f != Port && f != Endpoint ==> !Bad(r, p, f);
  }

  /** Exported fields arrive in normal form, a token unless it is blank; everything else is the target's. */
  ghost predicate Transferred(source: Config, target: Config, o: Options, m: Config) {
    && (forall f :: Exports(o, f) && f != Endpoint && f != Token ==> ValueOf(m, f) == ValueOf(Normalize(source), f))
    && (o.endpoint ==> m.remote.endpoint == NonBlank(source.remote.endpoint))
    && (o.token ==> m.remote.token == Coalesce(NonBlank(source.remote.token), target.remote.token))
    && (forall f :: !Exports(o, f) ==> ValueOf(m, f) == ValueOf(Normalize(target), f))
    && m.local == target.local && m.remote.deviceId == target.remote.deviceId && m.remote.deviceName == target.remote.deviceName
    && m.remote.retentionDays == target.remote.retentionDays && m.host == LOCAL_HOST
  }

  /**
   * From one saveable configuration to another: the transfer succeeds exactly when an exported port is not 0 and an
   * exported endpoint is absent or a web address; then it carries what was exported and nothing else, the result can
   * be saved exactly as it is, and transferring again changes nothing.
   */
  lemma TransferRoundTrip(r: Readers, source: Config, target: Config, o: Options, result: Result<Config, TransferError>)
    requires Saveable(r, source) && Saveable(r, target) && r.ip.address(AllowedIps.REQUIRED_LOOPBACK).Some?
    requires IsMerge(r, target, BuildPayload(source, o), result)
    ensures result.Ok? <==> (o.port ==> source.port != 0) && (o.endpoint ==> ValidEndpoint(r, source.remote.endpoint))
    ensures result.Ok? ==>
      && Transferred(source, target, o, result.value)
      && Saveable(r, result.value) && Normalize(result.value) == result.value
      && IsMerge(r, result.value, BuildPayload(source, o), Ok(result.value))
  {
    ExportIsMergeable(r, source, target, o, result);
    if result.Ok? {
      ExportThenMerge(source, target, o);
      UnselectedStays(target, BuildPayload(source, o));
      MergedIsSaveable(r, target, BuildPayload(source, o), result.value);
      MergeTwice(r, target, BuildPayload(source, o), result.value, Ok(Overlay(result.value, BuildPayload(source, o))));
    }
  }

  // -------------------------------------------------------------------------
  // Preview
  // -------------------------------------------------------------------------

  /** What a preview shows: lists by length, tokens never in the clear. */
  datatype Shown =
    | ShownNumber(n: nat) | ShownSeconds(n: nat) | ShownCount(n: nat) | ShownSwitch(on: bool)
    | ShownText(text: string) | NotSet | IsSet | WillReplace | WillKeep

  datatype Item = Item(field: Field, current: Shown, next: Shown)

  function Show(c: Config, f: Field): Shown {
    match f
    case Port => ShownNumber(c.port)
    case Origins => ShownCount(|c.origins|)
    case Ips => ShownCount(|c.ips|)
    case Enabled => ShownSwitch(c.remote.enabled)
    case Endpoint => if c.remote.endpoint.Some? then ShownText(c.remote.endpoint.value) else NotSet
    case Token => if NonBlank(c.remote.token).Some? then IsSet else NotSet
    case PollSeconds => ShownSeconds(c.remote.pollSeconds)
    case MaxRetries => ShownNumber(c.remote.maxRetries)
  }

  function ItemFor(c: Config, merged: Config, p: Payload, f: Field): Item {
    Item(f, Show(c, f),
         if f == Token then if NonBlank(TokenOf(p).GetOr(None)).Some? then WillReplace else WillKeep else Show(merged, f))
  }

  function SelectedFields(p: Payload): seq<Field> {
    Query.Where(FIELDS, (f: Field) => Selected(p, f))
  }

  /** One item per selected field, in the fixed order. */
  ghost predicate IsPreview(c: Config, p: Payload, items: seq<Item>) {
    && |items| == |SelectedFields(p)|
    && forall i :: 0 <= i < |items| ==> items[i] == ItemFor(c, Overlay(c, p), p, SelectedFields(p)[i])
  }

  method PreviewPayload(r: Readers, current: Config, p: Payload) returns (result: Result<seq<Item>, TransferError>)
    ensures result.Ok? ==> IsMerge(r, current, p, Ok(Overlay(current, p))) && IsPreview(current, p, result.value)
    ensures result.Err? ==> IsMerge(r, current, p, Err(result.error))
  {
    var merged := MergePayload(r, current, p);
    if merged.Err? {
      return Err(merged.error);
    }
    var next, items := merged.value, [];
    for n := 0 to |FIELDS|
      invariant |items| == |Query.Where(FIELDS[..n], (f: Field) => Selected(p, f))|
      invariant forall i :: 0 <= i < |items| ==>
        items[i] == ItemFor(current, next, p, Query.Where(FIELDS[..n], (f: Field) => Selected(p, f))[i])
    {
      if Selected(p, FIELDS[n]) {
        items := items + [ItemFor(current, next, p, FIELDS[n])];
      }
      OneMoreField(p, n);
    }
    assert FIELDS[..|FIELDS|] == FIELDS;
    return Ok(items);
  }

  lemma OneMoreField(p: Payload, n: nat)
    requires n < |FIELDS|
    ensures var chosen := (f: Field) => Selected(p, f);
            Query.Where(FIELDS[..n + 1], chosen) == Query.Where(FIELDS[..n], chosen) + if Selected(p, FIELDS[n]) then [FIELDS[n]] else []
  {
    var chosen := (f: Field) => Selected(p, f);
    assert FIELDS[..n + 1] == FIELDS[..n] + [FIELDS[n]];
    Query.WhereConcat(FIELDS[..n], [FIELDS[n]], chosen);
    assert [FIELDS[n]][1..] == [];
  }

  lemma {:induction false} FieldsInOrder(n: nat, chosen: Field -> bool)
    requires n <= |FIELDS|
    ensures var kept := Query.Where(FIELDS[..n], chosen);
            && (forall f :: f in kept <==> Position(f) < n && chosen(f))
            && forall i, j :: 0 <= i < j < |kept| ==> Position(kept[i]) < Position(kept[j])
  {
    if n > 0 {
      FieldsInOrder(n - 1, chosen);
      assert FIELDS[..n] == FIELDS[..n - 1] + [FIELDS[n - 1]];
      Query.WhereConcat(FIELDS[..n - 1], [FIELDS[n - 1]], chosen);
      assert [FIELDS[n - 1]][1..] == [];
      assert Position(FIELDS[n - 1]) == n - 1;
      forall f | Position(f) == n - 1 ensures f == FIELDS[n - 1] {
        assert FIELDS[Position(f)] == f;
      }
      var before := Query.Where(FIELDS[..n - 1], chosen);
      assert forall i :: 0 <= i < |before| ==> before[i] in before;
    }
  }

  /** A preview lists exactly the selected fields, each once and in order, with the values the merge produces. */
  lemma PreviewListsTheSelection(r: Readers, c: Config, p: Payload, items: seq<Item>)
    requires IsPreview(c, p, items)
    ensures forall f :: Selected(p, f) <==> exists i :: 0 <= i < |items| && items[i].field == f
    ensures forall i, j :: 0 <= i < j < |items| ==> Position(items[i].field) < Position(items[j].field)
    ensures forall i :: 0 <= i < |items| ==> ShowsTheMerge(c, p, items[i])
  {
    SelectionInOrder(p);
    var kept := SelectedFields(p);
    forall f | Selected(p, f) ensures exists i :: 0 <= i < |items| && items[i].field == f {
      assert f in kept;
      var i :| 0 <= i < |kept| && kept[i] == f;
      assert items[i].field == f;
    }
    assert forall i :: 0 <= i < |items| ==> items[i].field == kept[i] && kept[i] in kept;
    forall i | 0 <= i < |items| ensures ShowsTheMerge(c, p, items[i]) {
      assert items[i] == ItemFor(c, Overlay(c, p), p, kept[i]);
    }
  }

  lemma SelectionInOrder(p: Payload)
    ensures var kept := SelectedFields(p);
            && (forall f :: f in kept <==> Selected(p, f))
            && forall i, j :: 0 <= i < j < |kept| ==> Position(kept[i]) < Position(kept[j])
  {
    assert FIELDS[..|FIELDS|] == FIELDS;
    FieldsInOrder(|FIELDS|, (f: Field) => Selected(p, f));
  }

  /** What a reader of the preview is told of a field: numbers, switches and texts as they are, lists by length. */
  predicate Tells(shown: Shown, c: Config, f: Field) {
    match f
    case Port => shown.ShownNumber? && shown.n == c.port
    case Origins => shown.ShownCount? && shown.n == |c.origins|
    case Ips => shown.ShownCount? && shown.n == |c.ips|
    case Enabled => shown.ShownSwitch? && shown.on == c.remote.enabled
    case Endpoint => if c.remote.endpoint.Some? then shown.ShownText? && shown.text == c.remote.endpoint.value else shown.NotSet?
    case Token => if NonBlank(c.remote.token).Some? then shown.IsSet? else shown.NotSet?
    case PollSeconds => shown.ShownSeconds? && shown.n == c.remote.pollSeconds
    case MaxRetries => shown.ShownNumber? && shown.n == c.remote.maxRetries
  }

  /** An item shows the field before and after the merge; a token is only ever announced, truthfully. */
  ghost predicate ShowsTheMerge(c: Config, p: Payload, item: Item) {
    && Tells(item.current, c, item.field)
    && (item.field != Token ==> Tells(item.next, Overlay(c, p), item.field))
    && (item.field == Token ==> item.next.WillReplace? || item.next.WillKeep?)
    && (item.field == Token && item.next.WillReplace? ==> Overlay(c, p).remote.token == NonBlank(TokenOf(p).GetOr(None)))
    && (item.field == Token && item.next.WillKeep? ==> Overlay(c, p).remote.token == c.remote.token)
  }

  /** The same but for the token, which is set in both or in neither. */
  ghost predicate SameButToken(c: Config, d: Config) {
    && d == c.(remote := c.remote.(token := d.remote.token))
    && (NonBlank(c.remote.token).Some? <==> NonBlank(d.remote.token).Some?)
  }

  ghost predicate SamePayloadButToken(p: Payload, q: Payload) {
    && (p == q || (p.remote.Some? && q.remote.Some? && q == p.(remote := Some(p.remote.value.(token := q.remote.value.token)))))
    && (TokenOf(p).Some? <==> TokenOf(q).Some?) && (NonBlank(TokenOf(p).GetOr(None)).Some? <==> NonBlank(TokenOf(q).GetOr(None)).Some?)
  }

  lemma {:induction false} SameSelection(fields: seq<Field>, a: Field -> bool, b: Field -> bool)
    requires forall f :: a(f) == b(f)
    ensures Query.Where(fields, a) == Query.Where(fields, b)
  {
    if fields != [] { SameSelection(fields[1..], a, b); }
  }

  lemma OverlayHidesToken(c: Config, d: Config, p: Payload, q: Payload, f: Field)
    requires SameButToken(c, d) && SamePayloadButToken(p, q) && f != Token
    ensures Show(Overlay(c, p), f) == Show(Overlay(d, q), f)
  {
  }

  lemma ItemHidesToken(c: Config, d: Config, p: Payload, q: Payload, f: Field)
    requires SameButToken(c, d) && SamePayloadButToken(p, q)
    ensures ItemFor(c, Overlay(c, p), p, f) == ItemFor(d, Overlay(d, q), q, f)
  {
    if f != Token { OverlayHidesToken(c, d, p, q, f); }
  }

  lemma SelectionHidesToken(p: Payload, q: Payload)
    requires SamePayloadButToken(p, q)
    ensures SelectedFields(p) == SelectedFields(q)
  {
    SameSelection(FIELDS, (f: Field) => Selected(p, f), (f: Field) => Selected(q, f));
  }

  /** A preview never gives a token away: it is the same for all tokens, only whether one is set shows. */
  lemma PreviewHidesTokens(c: Config, d: Config, p: Payload, q: Payload, items: seq<Item>, others: seq<Item>)
    requires SameButToken(c, d) && SamePayloadButToken(p, q)
    requires IsPreview(c, p, items) && IsPreview(d, q, others)
    ensures items == others
  {
    SelectionHidesToken(p, q);
    forall i | 0 <= i < |items| ensures items[i] == others[i] {
      ItemHidesToken(c, d, p, q, SelectedFields(p)[i]);
    }
  }

  // -------------------------------------------------------------------------
  // Which values a merge refuses
  // -------------------------------------------------------------------------

  predicate IsWebAddress(r: Readers, text: string) {
    r.parseUrl(text).Some? && (r.parseUrl(text).value.scheme == "http" || r.parseUrl(text).value.scheme == "https")
  }

  /** An origin is a web address that is written exactly as its own origin. */
  predicate IsWrittenOrigin(r: Readers, text: string) {
    IsWebAddress(r, text) && text == match r.parseUrl(text).value.origin case Tuple(written) => written case Opaque => "null"
  }

  /** The payload holds a value for the field that no merge accepts. */
  ghost predicate HoldsBadValue(r: Readers, p: Payload, f: Field) {
    match f
    case Port => PortOf(p) == Some(0)
    case Origins => OriginsOf(p).Some? && exists i :: 0 <= i < |OriginsOf(p).value| && !IsWrittenOrigin(r, OriginsOf(p).value[i])
    case Ips => IpsOf(p).Some? && exists i :: 0 <= i < |IpsOf(p).value| && !AllowedIps.ValidEntry(r.ip, IpsOf(p).value[i])
    case Enabled => false
    case Endpoint =>
      && EndpointOf(p).Some? && EndpointOf(p).value.Some?
      && Trim(EndpointOf(p).value.value) != "" && !IsWebAddress(r, Trim(EndpointOf(p).value.value))
    case Token => false
    case PollSeconds => PollSecondsOf(p) in {Some(0), Some(1), Some(2)}
    case MaxRetries => MaxRetriesOf(p) == Some(0)
  }

  lemma RefusedValues(r: Readers, p: Payload, f: Field)
    ensures Bad(r, p, f) <==> HoldsBadValue(r, p, f)
  {
    if f == Origins && OriginsOf(p).Some? {
      assert forall i :: 0 <= i < |OriginsOf(p).value| ==>
        (ValidOrigin(r, OriginsOf(p).value[i]) <==> IsWrittenOrigin(r, OriginsOf(p).value[i]));
    }
  }

  /** A merge succeeds exactly for a payload of this format and version without a bad value, and else names the first bad field. */
  lemma MergeSucceedsExactly(r: Readers, c: Config, p: Payload, result: Result<Config, TransferError>)
    requires IsMerge(r, c, p, result)
    ensures result.Ok? <==> p.format == "printbridge-config" && p.version == 1 && forall f :: !HoldsBadValue(r, p, f)
    ensures result.Err? && result.error.InvalidField? ==>
      HoldsBadValue(r, p, result.error.field) && forall f :: Position(f) < Position(result.error.field) ==> !HoldsBadValue(r, p, f)
  {
    forall f ensures Bad(r, p, f) <==> HoldsBadValue(r, p, f) {
      RefusedValues(r, p, f);
    }
    if result.Err? && result.error.InvalidField? {
      var n :| 0 <= n < |FIELDS| && FIELDS[n] == result.error.field && forall k :: 0 <= k < n ==> !Bad(r, p, FIELDS[k]);
      assert forall k :: 0 <= k < |FIELDS| ==> Position(FIELDS[k]) == k;
      forall f | Position(f) < Position(result.error.field) ensures !HoldsBadValue(r, p, f) {
        assert FIELDS[Position(f)] == f;
      }
    }
  }
}
