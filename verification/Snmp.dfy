/**
 * From a decoded SNMP trap PDU to a normalized alert: the collector's mapping
 * of v1 and v2c/v3 PDUs, and the adapter's normalization.
 */
module Snmp {
  import opened Wrappers
  import opened Text
  import opened Alerts

  /** What the JavaScript runtime provides: `toLowerCase`, `Number(s)` when finite, `Date.parse` when it is a date, and SHA-256. */
  datatype Host = Host(
    lower: string -> string, number: string -> Option<int>, date: string -> Option<int>, sha256: string -> string)

  predicate SlugChar(c: char) { 'a' <= c <= 'z' || IsDigit(c) }

  /** Lower-casing leaves ASCII text without capitals alone. */
  ghost predicate Faithful(host: Host) {
    forall s: string :: (forall i :: 0 <= i < |s| ==> s[i] <= '~' && !('A' <= s[i] <= 'Z')) ==> host.lower(s) == s
  }

  // ----- Data -----

  datatype Value = Str(s: string) | Num(n: int) | Bool(b: bool) | Null
  datatype Varbind = Varbind(oid: string, name: Option<string>, value: Value, tag: Option<string>)
  datatype V1Fields = V1Fields(enterprise: Option<string>, genericTrap: Option<int>, specificTrap: Option<int>)

  datatype Trap = Trap(
    ciCode: string, siteCode: Option<string>, trapOid: Option<string>, trapName: Option<string>, agentAddress: string,
    sysUpTimeTicks: Option<int>, receivedAt: Option<string>, version: Option<string>, v1: Option<V1Fields>,
    varbinds: seq<Varbind>, severity: Option<Severity>, clears: bool)

  /** `Buffer` holds the text its octets decode to. */
  datatype RawValue = Plain(v: Value) | Buffer(text: string)
  datatype RawVarbind = RawVarbind(oid: string, tag: Option<string>, value: RawValue)

  datatype Pdu =
    | V2Pdu(version: string, varbinds: seq<RawVarbind>)
    | V1Pdu(enterprise: Option<string>, genericTrap: Option<int>, specificTrap: Option<int>, upTime: Option<int>, varbinds: seq<RawVarbind>)

  datatype Source = Source(address: string, ciCode: Option<string>)

  datatype Attributes = Attributes(
    trapOid: string, trapName: Option<string>, snmpVersion: Option<string>, agentAddress: string,
    sysUpTimeTicks: Option<int>, v1: Option<V1Fields>, varbinds: map<string, Value>)

  datatype Normalized = Normalized(dto: Dto, attributes: Attributes)

  const SYS_UPTIME_OID := "1.3.6.1.2.1.1.3.0"
  const SNMP_TRAP_OID := "1.3.6.1.6.3.1.1.4.1.0"
  const LINK_DOWN := "1.3.6.1.6.3.1.1.5.3"
  const LINK_UP := "1.3.6.1.6.3.1.1.5.4"

  // ----- The collector: PDU to trap -----

  function Scalar(v: RawValue): Value {
    match v case Plain(x) => x case Buffer(text) => Str(text)
  }

  /** An empty string counts as absent. */
  function NonEmpty(s: Option<string>): Option<string> {
    if s == Some("") then None else s
  }

  function ToVarbind(v: RawVarbind): Varbind {
    Varbind(v.oid, None, Scalar(v.value), NonEmpty(v.tag))
  }

  function ToVarbinds(vs: seq<RawVarbind>): seq<Varbind> {
    seq(|vs|, i requires 0 <= i < |vs| => ToVarbind(vs[i]))
  }

  /** `Number(value)` when it is finite. */
  function NumberOf(host: Host, v: Value): Option<int> {
    match v
    case Num(n) => Some(n)
    case Bool(b) => Some(if b then 1 else 0)
    case Null => Some(0)
    case Str(s) => host.number(s)
  }

  predicate Reserved(v: RawVarbind) {
    v.oid == SYS_UPTIME_OID || v.oid == SNMP_TRAP_OID
  }

  predicate Unreserved(v: RawVarbind) {
    !Reserved(v)
  }

  /** The last readable uptime, the last non-empty trap OID, and everything else in order. */
  function UpTimeOf(host: Host, vs: seq<RawVarbind>): Option<int> {
    if vs == [] then None
    else
      var v := vs[|vs| - 1];
      var n := NumberOf(host, Scalar(v.value));
      if v.oid == SYS_UPTIME_OID && n.Some? then n else UpTimeOf(host, vs[..|vs| - 1])
  }

  function TrapOidOf(vs: seq<RawVarbind>): Option<string> {
    if vs == [] then None
    else
      var v := vs[|vs| - 1];
      if v.oid == SNMP_TRAP_OID && Scalar(v.value).Str? && Scalar(v.value).s != "" then Some(Scalar(v.value).s)
      else TrapOidOf(vs[..|vs| - 1])
  }

  function DataOf(vs: seq<RawVarbind>): seq<RawVarbind> {
    Filter(Unreserved, vs)
  }

  function TrapOfPdu(host: Host, pdu: Pdu, source: Source, receivedAt: string): Trap {
    var ci := if source.ciCode.Some? then source.ciCode.value else "";
    match pdu
    case V1Pdu(enterprise, g, s, up, vs) =>
      Trap(ci, None, None, None, source.address, up, Some(receivedAt), Some("v1"),
           Some(V1Fields(NonEmpty(enterprise), g, s)), ToVarbinds(vs), None, false)
    case V2Pdu(version, vs) =>
      Trap(ci, None, TrapOidOf(vs), None, source.address, UpTimeOf(host, vs), Some(receivedAt), Some(version),
           None, ToVarbinds(DataOf(vs)), None, false)
  }

  /** One more varbind, as the loop handles it. */
  lemma ReadOneMore(host: Host, vs: seq<RawVarbind>, v: RawVarbind)
    ensures UpTimeOf(host, vs + [v]) ==
            if v.oid == SYS_UPTIME_OID && NumberOf(host, Scalar(v.value)).Some? then NumberOf(host, Scalar(v.value)) else UpTimeOf(host, vs)
    ensures TrapOidOf(vs + [v]) ==
            if v.oid == SNMP_TRAP_OID && Scalar(v.value).Str? && Scalar(v.value).s != "" then Some(Scalar(v.value).s) else TrapOidOf(vs)
    ensures ToVarbinds(DataOf(vs + [v])) == ToVarbinds(DataOf(vs)) + if Reserved(v) then [] else [ToVarbind(v)]
  {
    hide NumberOf, ToVarbind;
    assert (vs + [v])[..|vs|] == vs;
  }

  lemma ReadNone(host: Host)
    ensures UpTimeOf(host, []) == None && TrapOidOf([]) == None && ToVarbinds(DataOf([])) == []
  {
  }

  method PduToSnmpTrap(host: Host, pdu: Pdu, source: Source, receivedAt: string) returns (trap: Trap)
    ensures trap == TrapOfPdu(host, pdu, source, receivedAt)
  {
    hide UpTimeOf, TrapOidOf, DataOf, ToVarbinds, NumberOf, Scalar, ToVarbind;
    var ci := if source.ciCode.Some? then source.ciCode.value else "";
    if pdu.V1Pdu? {
      return Trap(ci, None, None, None, source.address, pdu.upTime, Some(receivedAt), Some("v1"),
                  Some(V1Fields(NonEmpty(pdu.enterprise), pdu.genericTrap, pdu.specificTrap)), ToVarbinds(pdu.varbinds), None, false);
    }
    var vs := pdu.varbinds;
    var sysUpTimeTicks: Option<int>, trapOid: Option<string>, data: seq<Varbind> := None, None, [];
    ReadNone(host);
    for k := 0 to |vs|
      invariant sysUpTimeTicks == UpTimeOf(host, vs[..k])
      invariant trapOid == TrapOidOf(vs[..k])
      invariant data == ToVarbinds(DataOf(vs[..k]))
    {
      assert vs[..k + 1] == vs[..k] + [vs[k]];
      ReadOneMore(host, vs[..k], vs[k]);
      var vb := vs[k];
      if vb.oid == SYS_UPTIME_OID {
        var n := NumberOf(host, Scalar(vb.value));
        if n.Some? {
          sysUpTimeTicks := n;
        }
        continue;
      }
      if vb.oid == SNMP_TRAP_OID {
        var s := Scalar(vb.value);
        if s.Str? && s.s != "" {
          trapOid := Some(s.s);
        }
        continue;
      }
      data := data + [ToVarbind(vb)];
    }
    assert vs[..|vs|] == vs;
    trap := Trap(ci, None, trapOid, None, source.address, sysUpTimeTicks, Some(receivedAt), Some(pdu.version), None, data, None, false);
  }

  // ----- The adapter: trap to alert -----

  /** Runs of anything but lower-case letters and digits become one underscore. */
  function Collapse(s: string): string {
    if s == [] then []
    else if SlugChar(s[|s| - 1]) then Collapse(s[..|s| - 1]) + [s[|s| - 1]]
    else
      var r := Collapse(s[..|s| - 1]);
      if r != [] && r[|r| - 1] == '_' then r else r + "_"
  }

  function StripLeft(s: string): string {
    if s != [] && s[0] == '_' then StripLeft(s[1..]) else s
  }

  function StripRight(s: string): string {
    if s != [] && s[|s| - 1] == '_' then StripRight(s[..|s| - 1]) else s
  }

  function Slug(host: Host, s: string): string {
    StripRight(StripLeft(Collapse(host.lower(Trim(s)))))
  }

  function AlnumPrefix(s: string): nat {
    if s != [] && ('a' <= s[0] <= 'z' || 'A' <= s[0] <= 'Z' || IsDigit(s[0])) then 1 + AlnumPrefix(s[1..]) else 0
  }

  /** The part of a CI code before its first hyphen or underscore, when it is alphanumeric. */
  function SiteFromCi(ci: string): Option<string> {
    var n := AlnumPrefix(ci);
    if 0 < n < |ci| && (ci[n] == '-' || ci[n] == '_') then Some(ci[..n]) else None
  }

  function TrimmedOrNone(s: Option<string>): Option<string> {
    if s.Some? then NonEmpty(Some(Trim(s.value))) else None
  }

  /** Section 3.1 of RFC 3584: the OIDs of the generic traps 0 to 5. */
  function GenericOid(g: int): string
    requires 0 <= g <= 5
  {
    ["1.3.6.1.6.3.1.1.5.1", "1.3.6.1.6.3.1.1.5.2", LINK_DOWN, LINK_UP, "1.3.6.1.6.3.1.1.5.5", "1.3.6.1.6.3.1.1.5.6"][g]
  }

  function V1Oid(v1: V1Fields): Option<string> {
    if v1.genericTrap.None? then None
    else if 0 <= v1.genericTrap.value <= 5 then Some(GenericOid(v1.genericTrap.value))
    else
      var enterprise := TrimmedOrNone(v1.enterprise);
      if v1.genericTrap.value == 6 && enterprise.Some?
      then Some(enterprise.value + ".0." + IntToString(if v1.specificTrap.Some? then v1.specificTrap.value else 0))
      else None
  }

  function ResolveTrapOid(trap: Trap): Option<string> {
    var direct := TrimmedOrNone(trap.trapOid);
    if direct.Some? then direct else if trap.v1.Some? then V1Oid(trap.v1.value) else None
  }

  datatype KnownTrap = KnownTrap(alertType: string, severity: Severity, state: AlertState, onInterface: bool)

  function Known(oid: string): Option<KnownTrap> {
    if oid == "1.3.6.1.6.3.1.1.5.1" then Some(KnownTrap("device.cold_start", Warning, Open, false))
    else if oid == "1.3.6.1.6.3.1.1.5.2" then Some(KnownTrap("device.warm_start", Info, Open, false))
    else if oid == LINK_DOWN then Some(KnownTrap("network.link_state", High, Open, true))
    else if oid == LINK_UP then Some(KnownTrap("network.link_state", Info, Recovered, true))
    else if oid == "1.3.6.1.6.3.1.1.5.5" then Some(KnownTrap("security.authentication_failure", Warning, Open, false))
    else if oid == "1.3.6.1.6.3.1.1.5.6" then Some(KnownTrap("network.egp_neighbor_loss", High, Open, false))
    else None
  }

  function AsciiLower(s: string): string {
    seq(|s|, i requires 0 <= i < |s| => if 'A' <= s[i] <= 'Z' then s[i] + 32 as char else s[i])
  }

  predicate Named(v: Varbind, names: set<string>) {
    v.name.Some? && AsciiLower(v.name.value) in names
  }

  predicate NamesInterface(v: Varbind) {
    Named(v, {"ifname", "ifdescr"}) || "1.3.6.1.2.1.31.1.1.1.1" <= v.oid || "1.3.6.1.2.1.2.2.1.2" <= v.oid
  }

  predicate IndexesInterface(v: Varbind) {
    Named(v, {"ifindex"}) || "1.3.6.1.2.1.2.2.1.1" <= v.oid
  }

  predicate NamesComponent(v: Varbind) {
    Named(v, {"component", "entity", "entphysicalname", "slot", "sensor", "unit"})
  }

  /** `String(value)`. */
  function Show(v: Value): string {
    match v
    case Str(s) => s
    case Num(n) => IntToString(n)
    case Bool(b) => if b then "true" else "false"
    case Null => "null"
  }

  /** `varbinds.find(p)`. */
  function First(p: Varbind -> bool, vs: seq<Varbind>): Option<Varbind> {
    if vs == [] then None else if p(vs[0]) then Some(vs[0]) else First(p, vs[1..])
  }

  predicate HasText(v: Option<Varbind>) {
    v.Some? && !v.value.value.Null? && Trim(Show(v.value.value)) != ""
  }

  function ComponentKey(vs: seq<Varbind>, onInterface: bool): Option<string> {
    var named, indexed, generic := First(NamesInterface, vs), First(IndexesInterface, vs), First(NamesComponent, vs);
    if onInterface && HasText(named) then Some("if:" + Trim(Show(named.value.value)))
    else if onInterface && indexed.Some? && !indexed.value.value.Null? then Some("ifIndex:" + Trim(Show(indexed.value.value)))
    else if HasText(generic) then Some(Trim(Show(generic.value.value)))
    else None
  }

  function GenericAlertType(host: Host, trapName: Option<string>, oid: string): string {
    var name := TrimmedOrNone(trapName);
    if name.Some? then "snmp." + Slug(host, trapName.value)
    else "snmp.trap_" + Join(LastN(Filter((arc: string) => arc != "", Split(oid, '.')), 2), "_")
  }

  function VarbindLabel(v: Varbind): string {
    var name := TrimmedOrNone(v.name);
    if name.Some? then name.value else v.oid
  }

  function VarbindMap(vs: seq<Varbind>): map<string, Value> {
    if vs == [] then map[] else VarbindMap(vs[..|vs| - 1])[VarbindLabel(vs[|vs| - 1]) := vs[|vs| - 1].value]
  }

  /** Values are kept by label, and the last varbind of a label wins. */
  lemma {:induction false} LastVarbindWins(vs: seq<Varbind>, i: nat)
    requires i < |vs| && forall j :: i < j < |vs| ==> VarbindLabel(vs[j]) != VarbindLabel(vs[i])
    ensures VarbindLabel(vs[i]) in VarbindMap(vs) && VarbindMap(vs)[VarbindLabel(vs[i])] == vs[i].value
    decreases |vs|
  {
    hide VarbindLabel;
    if i < |vs| - 1 {
      LastVarbindWins(vs[..|vs| - 1], i);
    }
  }

  method FillVarbindMap(vs: seq<Varbind>) returns (out: map<string, Value>)
    ensures out == VarbindMap(vs)
  {
    hide VarbindLabel;
    out := map[];
    for k := 0 to |vs|
      invariant out == VarbindMap(vs[..k])
    {
      assert vs[..k + 1][..k] == vs[..k];
      out := out[VarbindLabel(vs[k]) := vs[k].value];
    }
    assert vs[..|vs|] == vs;
  }

  function ComponentSlug(host: Host, component: Option<string>): string {
    Slug(host, if component.Some? then component.value else "device")
  }

  function EventId(host: Host, ci: string, alertType: string, component: Option<string>, occurrence: int): string {
    "snmp-" + Slug(host, ci) + "-" + Slug(host, alertType) + "-" + ComponentSlug(host, component) + "-" + IntToString(occurrence)
  }

  /** When it was received: now when the trap does not say, nothing when it says something unreadable. */
  function OccurredAt(host: Host, receivedAt: Option<string>, now: int): Option<int> {
    var text := TrimmedOrNone(receivedAt);
    if text.None? then Some(now) else host.date(text.value)
  }

  function Summary(trapName: Option<string>, oid: string, component: Option<string>, address: string): string {
    var name := TrimmedOrNone(trapName);
    var title := if name.Some? then name.value else if Known(oid).Some? then Known(oid).value.alertType else "SNMP trap " + oid;
    title + (if component.Some? then " on " + component.value else "") + " from " + address
  }

  /** What a usable trap says: who, when, which trap, on what, and which occurrence of it. */
  datatype Reading = Reading(
    ci: string, site: string, address: string, at: int, oid: string, component: Option<string>, occurrence: int)

  predicate OnInterface(oid: string) {
    Known(oid).Some? && Known(oid).value.onInterface
  }

  /** The reading of a trap, or the name of the field that makes it unusable. */
  function ReadTrap(host: Host, trap: Trap, now: int): Result<Reading, string> {
    var ci, address := Trim(trap.ciCode), Trim(trap.agentAddress);
    var site := Coalesce(TrimmedOrNone(trap.siteCode), SiteFromCi(ci));
    var at, oid := OccurredAt(host, trap.receivedAt, now), ResolveTrapOid(trap);
    if ci == "" then Failure("ciCode")
    else if site.None? then Failure("siteCode")
    else if address == "" then Failure("agentAddress")
    else if at.None? then Failure("receivedAt")
    else if oid.None? then Failure("trapOid")
    else Success(Reading(ci, site.value, address, at.value, oid.value, ComponentKey(trap.varbinds, OnInterface(oid.value)),
                         if trap.sysUpTimeTicks.Some? then trap.sysUpTimeTicks.value else at.value))
  }

  function AlertType(host: Host, trapName: Option<string>, oid: string): string {
    if Known(oid).Some? then Known(oid).value.alertType else GenericAlertType(host, trapName, oid)
  }

  /** The alert of a reading; severity and clearing may be overridden by the collector. */
  function DtoOf(host: Host, trapName: Option<string>, severity: Option<Severity>, clears: bool, r: Reading): Dto {
    var known, alertType := Known(r.oid), AlertType(host, trapName, r.oid);
    Dto(EventKey("SNMP", EventId(host, r.ci, alertType, r.component, r.occurrence)), r.site, r.ci, alertType,
        if severity.Some? then severity.value else if known.Some? then known.value.severity else Warning,
        r.component, r.at, if clears then Recovered else if known.Some? then known.value.state else Open,
        Summary(trapName, r.oid, r.component, r.address), None)
  }

  function NormalizeSnmpTrap(host: Host, trap: Trap, now: int): Result<Normalized, string> {
    match ReadTrap(host, trap, now)
    case Failure(field) => Failure(field)
    case Success(r) => Success(Normalized(
      DtoOf(host, trap.trapName, trap.severity, trap.clears, r),
      Attributes(r.oid, trap.trapName, trap.version, r.address, trap.sysUpTimeTicks, trap.v1, VarbindMap(trap.varbinds))))
  }

  // ----- The fingerprint -----

  function Canonical(host: Host, part: string): string {
    host.lower(Trim(part))
  }

  function Fingerprint(host: Host, d: Dto): string {
    var component := if d.componentKey.Some? then d.componentKey.value else "";
    host.sha256(Join([Canonical(host, d.siteCode), Canonical(host, d.ciCode), Canonical(host, d.alertType), Canonical(host, component)], "|"))
  }
}
