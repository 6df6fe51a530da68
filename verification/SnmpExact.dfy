/**
 * What SNMP normalization computes, in terms of the PDU and its varbinds: which
 * varbinds are read, which alert a trap becomes, and what tells alerts apart.
 */
module SnmpExact {
  import opened Wrappers
  import opened Text
  import opened Alerts
  import opened Snmp
  import SnmpProofs

  // ----- What the collector reads from a PDU -----

  /** `Number(value)` where it is finite; octets read as their text. */
  ghost function Ticks(host: Host, v: RawValue): Option<int> {
    match v
    case Plain(Num(n)) => Some(n)
    case Plain(Bool(b)) => Some(if b then 1 else 0)
    case Plain(Null) => Some(0)
    case Plain(Str(s)) => host.number(s)
    case Buffer(s) => host.number(s)
  }

  ghost predicate GivesUpTime(host: Host, v: RawVarbind) {
    v.oid == "1.3.6.1.2.1.1.3.0" && Ticks(host, v.value).Some?
  }

  ghost predicate GivesTrapOid(v: RawVarbind) {
    && v.oid == "1.3.6.1.6.3.1.1.4.1.0"
    && v.value != Plain(Str("")) && v.value != Buffer("") && (v.value.Buffer? || v.value.v.Str?)
  }

  /** The last varbind that gives the uptime decides it. */
  lemma {:induction false} UpTimeExact(host: Host, vs: seq<RawVarbind>)
    ensures forall i :: 0 <= i < |vs| && GivesUpTime(host, vs[i]) && (forall j :: i < j < |vs| ==> !GivesUpTime(host, vs[j])) ==>
              UpTimeOf(host, vs) == Ticks(host, vs[i].value)
    ensures (forall i :: 0 <= i < |vs| ==> !GivesUpTime(host, vs[i])) ==> UpTimeOf(host, vs) == None
  {
    if vs != [] {
      var n := |vs| - 1;
      UpTimeExact(host, vs[..n]);
      TicksExact(host, vs[n].value);
      hide Ticks, NumberOf, Scalar;
      if GivesUpTime(host, vs[n]) {
        assert UpTimeOf(host, vs) == Ticks(host, vs[n].value);
      } else {
        assert UpTimeOf(host, vs) == UpTimeOf(host, vs[..n]);
        forall i | 0 <= i < n && GivesUpTime(host, vs[i]) && (forall j :: i < j < |vs| ==> !GivesUpTime(host, vs[j]))
          ensures UpTimeOf(host, vs) == Ticks(host, vs[i].value)
        {
          assert vs[..n][i] == vs[i];
        }
      }
    }
  }

  lemma TicksExact(host: Host, v: RawValue)
    ensures NumberOf(host, Scalar(v)) == Ticks(host, v)
  {
  }

  ghost function TextIn(v: RawValue): string {
    match v case Plain(Str(s)) => s case Buffer(s) => s case _ => ""
  }

  /** The last varbind that gives a trap OID decides it. */
  lemma {:induction false} TrapOidExact(vs: seq<RawVarbind>)
    ensures forall i :: 0 <= i < |vs| && GivesTrapOid(vs[i]) && (forall j :: i < j < |vs| ==> !GivesTrapOid(vs[j])) ==>
              TrapOidOf(vs) == Some(TextIn(vs[i].value))
    ensures (forall i :: 0 <= i < |vs| ==> !GivesTrapOid(vs[i])) ==> TrapOidOf(vs) == None
  {
    if vs != [] {
      var n := |vs| - 1;
      TrapOidExact(vs[..n]);
      var s := Scalar(vs[n].value);
      assert s.Str? && s.s != "" && vs[n].oid == SNMP_TRAP_OID <==> GivesTrapOid(vs[n]);
      assert GivesTrapOid(vs[n]) ==> s.s == TextIn(vs[n].value);
      hide Scalar, TextIn, GivesTrapOid;
      if !GivesTrapOid(vs[n]) {
        assert TrapOidOf(vs) == TrapOidOf(vs[..n]);
        forall i | 0 <= i < n && GivesTrapOid(vs[i]) && (forall j :: i < j < |vs| ==> !GivesTrapOid(vs[j]))
          ensures TrapOidOf(vs) == Some(TextIn(vs[i].value))
        {
          assert vs[..n][i] == vs[i];
        }
      }
    }
  }

  /** A varbind that is passed on keeps its OID and value; octets become text, and an empty type is dropped. */
  lemma VarbindExact(v: RawVarbind)
    ensures var r := ToVarbind(v);
            && r.oid == v.oid && r.name == None && r.value == (if v.value.Buffer? then Str(v.value.text) else v.value.v)
            && (v.tag == Some("") ==> r.tag == None) && (v.tag != Some("") ==> r.tag == v.tag)
  {
  }

  /** The other varbinds are passed on, in order and one for one. */
  lemma {:induction false} DataExact(vs: seq<RawVarbind>)
    ensures DataOf(vs) == Filter((v: RawVarbind) => v.oid != "1.3.6.1.2.1.1.3.0" && v.oid != "1.3.6.1.6.3.1.1.4.1.0", vs)
  {
    if vs != [] { DataExact(vs[..|vs| - 1]); }
  }

  /** The trap the collector makes of a PDU: who sent it and when, and for v1 the fields it came with. */
  lemma TrapExact(host: Host, pdu: Pdu, source: Source, receivedAt: string)
    ensures var t := TrapOfPdu(host, pdu, source, receivedAt);
            && t.agentAddress == source.address && t.receivedAt == Some(receivedAt)
            && (source.ciCode.Some? ==> t.ciCode == source.ciCode.value) && (source.ciCode.None? ==> t.ciCode == "")
            && t.siteCode == None && t.trapName == None && t.severity == None && !t.clears
            && (pdu.V1Pdu? ==>
                  && t.version == Some("v1") && t.trapOid == None && t.sysUpTimeTicks == pdu.upTime && t.v1.Some?
                  && t.v1.value.genericTrap == pdu.genericTrap && t.v1.value.specificTrap == pdu.specificTrap
                  && t.v1.value.enterprise == (if pdu.enterprise == Some("") then None else pdu.enterprise)
                  && |t.varbinds| == |pdu.varbinds|)
            && (pdu.V2Pdu? ==>
                  && t.version == Some(pdu.version) && t.v1 == None && t.trapOid == TrapOidOf(pdu.varbinds)
                  && t.sysUpTimeTicks == UpTimeOf(host, pdu.varbinds) && |t.varbinds| == |DataOf(pdu.varbinds)|)
  {
    hide TrapOidOf, UpTimeOf, DataOf;
  }

  // ----- The component -----

  /** The name in any mix of cases; `name` is in lower case. */
  ghost predicate NamedLike(v: Varbind, name: string) {
    && v.name.Some? && |v.name.value| == |name|
    && forall i :: 0 <= i < |name| ==> v.name.value[i] == name[i] || ('a' <= name[i] <= 'z' && v.name.value[i] == name[i] - 32 as char)
  }

  /** ifName or ifDescr, by name or by OID. */
  ghost predicate InterfaceName(v: Varbind) {
    || NamedLike(v, "ifname") || NamedLike(v, "ifdescr")
    || "1.3.6.1.2.1.31.1.1.1.1" <= v.oid || "1.3.6.1.2.1.2.2.1.2" <= v.oid
  }

  ghost predicate InterfaceIndex(v: Varbind) {
    NamedLike(v, "ifindex") || "1.3.6.1.2.1.2.2.1.1" <= v.oid
  }

  ghost predicate NamedPart(v: Varbind) {
    || NamedLike(v, "component") || NamedLike(v, "entity") || NamedLike(v, "entphysicalname")
    || NamedLike(v, "slot") || NamedLike(v, "sensor") || NamedLike(v, "unit")
  }

  /** What a value says, trimmed. */
  ghost function Says(v: Value): string {
    match v
    case Str(s) => Trim(s)
    case Num(n) => IntToString(n)
    case Bool(b) => if b then "true" else "false"
    case Null => ""
  }

  lemma SaysExact(v: Value)
    ensures !v.Null? ==> Trim(Show(v)) == Says(v)
  {
    match v
    case Num(n) =>
      var s := IntToString(n);
      assert s[|s| - 1] != ' ' && (IsDigit(s[0]) || s[0] == '-') && IsDigit(s[|s| - 1]);
      TrimFixed(s);
    case Bool(b) => TrimFixed(if b then "true" else "false");
    case _ =>
  }

  lemma LikeExact(v: Varbind, name: string)
    requires forall i :: 0 <= i < |name| ==> 'a' <= name[i] <= 'z'
    ensures v.name.Some? ==> (AsciiLower(v.name.value) == name <==> NamedLike(v, name))
  {
    if v.name.Some? && NamedLike(v, name) {
      assert forall i :: 0 <= i < |name| ==> AsciiLower(v.name.value)[i] == name[i];
    }
    if v.name.Some? && AsciiLower(v.name.value) == name {
      forall i | 0 <= i < |name| ensures v.name.value[i] == name[i] || v.name.value[i] == name[i] - 32 as char {
        assert AsciiLower(v.name.value)[i] == name[i];
      }
    }
  }

  lemma KindsExact(v: Varbind)
    ensures NamesInterface(v) <==> InterfaceName(v)
    ensures IndexesInterface(v) <==> InterfaceIndex(v)
    ensures NamesComponent(v) <==> NamedPart(v)
  {
    LikeExact(v, "ifname"); LikeExact(v, "ifdescr"); LikeExact(v, "ifindex");
    LikeExact(v, "component"); LikeExact(v, "entity"); LikeExact(v, "entphysicalname");
    LikeExact(v, "slot"); LikeExact(v, "sensor"); LikeExact(v, "unit");
    assert v.name.None? ==> forall n :: !NamedLike(v, n);
    hide NamedLike, AsciiLower;
  }

  /** `vs[k]` is the first that `p` holds of. */
  ghost predicate FirstAt(p: Varbind -> bool, vs: seq<Varbind>, k: int) {
    0 <= k < |vs| && p(vs[k]) && forall j :: 0 <= j < k ==> !p(vs[j])
  }

  lemma {:induction false} FirstExact(p: Varbind -> bool, vs: seq<Varbind>)
    ensures First(p, vs).Some? ==> exists k :: FirstAt(p, vs, k) && First(p, vs).value == vs[k]
    ensures First(p, vs).None? ==> forall k :: 0 <= k < |vs| ==> !p(vs[k])
  {
    if vs != [] {
      if p(vs[0]) {
        assert FirstAt(p, vs, 0);
      } else {
        FirstExact(p, vs[1..]);
        if First(p, vs).Some? {
          var k :| FirstAt(p, vs[1..], k) && First(p, vs[1..]).value == vs[1..][k];
          assert forall j :: 0 < j < k + 1 ==> vs[j] == vs[1..][j - 1];
          assert FirstAt(p, vs, k + 1);
        } else {
          assert forall j :: 0 < j < |vs| ==> vs[j] == vs[1..][j - 1];
        }
      }
    }
  }

  /** The value of the first varbind that `p` holds of. */
  ghost predicate FirstValue(p: Varbind -> bool, vs: seq<Varbind>, value: Value) {
    exists k :: FirstAt(p, vs, k) && vs[k].value == value
  }

  lemma FirstValueExact(p: Varbind -> bool, vs: seq<Varbind>, value: Value)
    ensures FirstValue(p, vs, value) <==> First(p, vs).Some? && First(p, vs).value.value == value
  {
    FirstExact(p, vs);
    if FirstValue(p, vs, value) {
      var k :| FirstAt(p, vs, k) && vs[k].value == value;
    }
  }

  /** The first such varbind says something. */
  ghost predicate Told(p: Varbind -> bool, vs: seq<Varbind>) {
    exists value :: FirstValue(p, vs, value) && Says(value) != ""
  }

  /** The first such varbind holds a value at all. */
  ghost predicate Given(p: Varbind -> bool, vs: seq<Varbind>) {
    exists value :: FirstValue(p, vs, value) && !value.Null?
  }

  lemma ToldExact(p: Varbind -> bool, vs: seq<Varbind>)
    ensures HasText(First(p, vs)) <==> Told(p, vs)
    ensures First(p, vs).Some? && !First(p, vs).value.value.Null? <==> Given(p, vs)
  {
    hide Trim, Show, FirstValue;
    if First(p, vs).Some? {
      var value := First(p, vs).value.value;
      SaysExact(value);
      FirstValueExact(p, vs, value);
    }
    forall value | FirstValue(p, vs, value) ensures First(p, vs).Some? && First(p, vs).value.value == value {
      FirstValueExact(p, vs, value);
    }
  }

  /**
   * The component, in terms of the varbinds. An interface trap takes the first
   * interface name or description, if that says something, whatever indexes
   * there are; else the first interface index, if it has a value; else, as any
   * other trap, the first named part, if that says something; else none.
   */
  lemma ComponentExact(vs: seq<Varbind>, onInterface: bool, value: Value)
    ensures onInterface && Told(NamesInterface, vs) && FirstValue(NamesInterface, vs, value) ==>
              ComponentKey(vs, onInterface) == Some("if:" + Says(value))
    ensures onInterface && !Told(NamesInterface, vs) && Given(IndexesInterface, vs) && FirstValue(IndexesInterface, vs, value) ==>
              ComponentKey(vs, onInterface) == Some("ifIndex:" + Says(value))
    ensures !(onInterface && (Told(NamesInterface, vs) || Given(IndexesInterface, vs))) &&
            Told(NamesComponent, vs) && FirstValue(NamesComponent, vs, value) ==>
              ComponentKey(vs, onInterface) == Some(Says(value))
    ensures ComponentKey(vs, onInterface) == None <==>
            !(onInterface && (Told(NamesInterface, vs) || Given(IndexesInterface, vs))) && !Told(NamesComponent, vs)
  {
    ToldExact(NamesInterface, vs);
    ToldExact(IndexesInterface, vs);
    ToldExact(NamesComponent, vs);
    FirstValueExact(NamesInterface, vs, value);
    FirstValueExact(IndexesInterface, vs, value);
    FirstValueExact(NamesComponent, vs, value);
    SaysExact(value);
    hide Trim, Show, First, Told, Given, FirstValue, Says;
  }

  /** An ordinary linkDown: index 3 and description Gi0/3 make the component if:Gi0/3, in either order. */
  lemma NameBeatsIndex(index: Varbind, description: Varbind)
    requires index.oid == "1.3.6.1.2.1.2.2.1.1.3" && index.name == None && index.value == Num(3)
    requires description.oid == "1.3.6.1.2.1.2.2.1.2.3" && description.name == None && description.value == Str("Gi0/3")
    ensures ComponentKey([index, description], true) == ComponentKey([description, index], true) == Some("if:Gi0/3")
  {
    assert index.oid[18] == '1';
    assert !NamesInterface(index) && NamesInterface(description);
    hide NamesInterface;
    FirstOfTwo(NamesInterface, index, description);
    FirstOfTwo(NamesInterface, description, index);
    hide First, IndexesInterface, NamesComponent;
    TrimFixed("Gi0/3");
    hide Trim;
    assert "if:" + "Gi0/3" == "if:Gi0/3";
  }

  lemma FirstOfTwo(p: Varbind -> bool, x: Varbind, y: Varbind)
    ensures First(p, [x, y]) == if p(x) then Some(x) else if p(y) then Some(y) else None
  {
    assert [x, y][1..] == [y] && [y][1..] == [];
    assert First(p, []) == None;
    assert First(p, [y]) == if p(y) then Some(y) else None;
  }

  // ----- Which alert a trap becomes -----

  /** A site code is what stands before the first hyphen or underscore of a CI code, if that is alphanumeric and not empty. */
  lemma SiteExact(ci: string, site: string)
    ensures SiteFromCi(ci) == Some(site) <==>
            && 0 < |site| < |ci| && site <= ci && ci[|site|] in {'-', '_'} && forall i :: 0 <= i < |site| ==> Alnum(site[i])
  {
    PrefixExact(ci);
    var k := AlnumPrefix(ci);
    if 0 < |site| < |ci| && site <= ci && ci[|site|] in {'-', '_'} && forall i :: 0 <= i < |site| ==> Alnum(site[i]) {
      assert !Alnum(ci[|site|]);
      assert k == |site|;
      assert ci[..k] == site;
    }
  }

  ghost predicate Alnum(c: char) {
    'a' <= c <= 'z' || 'A' <= c <= 'Z' || '0' <= c <= '9'
  }

  lemma {:induction false} PrefixExact(s: string)
    ensures var n := AlnumPrefix(s);
            n <= |s| && (forall i :: 0 <= i < n ==> Alnum(s[i])) && (n < |s| ==> !Alnum(s[n]))
  {
    if s != [] && Alnum(s[0]) {
      PrefixExact(s[1..]);
      assert forall i :: 0 < i < AlnumPrefix(s) ==> s[i] == s[1..][i - 1];
    }
  }

  /** The generic traps in their order: what each is, how severe, in what state, and whether it is about an interface. */
  const GENERIC_ALERTS: seq<(string, Severity, AlertState, bool)> := [
    ("device.cold_start", Warning, Open, false),
    ("device.warm_start", Info, Open, false),
    ("network.link_state", High, Open, true),
    ("network.link_state", Info, Recovered, true),
    ("security.authentication_failure", Warning, Open, false),
    ("network.egp_neighbor_loss", High, Open, false)]

  /** Section 3.1 of RFC 3584: generic trap `g` is the standard trap `g + 1`. */
  lemma GenericOidExact(g: int)
    requires 0 <= g <= 5
    ensures GenericOid(g) == "1.3.6.1.6.3.1.1.5." + IntToString(g + 1)
  {
    assert IntToString(1) == "1" && IntToString(2) == "2" && IntToString(3) == "3";
    assert IntToString(4) == "4" && IntToString(5) == "5" && IntToString(6) == "6";
  }

  /** The alert of a generic trap. */
  lemma GenericAlertExact(g: int)
    requires 0 <= g <= 5
    ensures Known(GenericOid(g)) == Some(KnownTrap(GENERIC_ALERTS[g].0, GENERIC_ALERTS[g].1, GENERIC_ALERTS[g].2, GENERIC_ALERTS[g].3))
  {
    assert forall i :: 0 <= i <= 5 ==> |GenericOid(i)| == 19;
    assert GenericOid(0)[18] == '1' && GenericOid(1)[18] == '2' && GenericOid(2)[18] == '3';
    assert GenericOid(3)[18] == '4' && GenericOid(4)[18] == '5' && GenericOid(5)[18] == '6';
  }

  /** Nothing else is known. */
  lemma OtherTrapsUnknown(oid: string)
    requires forall g :: 0 <= g <= 5 ==> oid != GenericOid(g)
    ensures Known(oid) == None
  {
    assert oid != GenericOid(0) && oid != GenericOid(1) && oid != GenericOid(2) && oid != GenericOid(3) && oid != GenericOid(4) && oid != GenericOid(5);
  }

  lemma {:induction false} SplitLast(front: string, part: string, c: char)
    requires c !in part
    ensures Split(front + [c] + part, c) == Split(front, c) + [part]
  {
    var s := front + [c] + part;
    if part == [] {
      assert s[..|s| - 1] == front;
    } else {
      var n := |part| - 1;
      SplitLast(front, part[..n], c);
      assert s[..|s| - 1] == front + [c] + part[..n];
      assert part == part[..n] + [part[n]];
    }
  }

  /** A trap without a name is typed by the last two arcs of its OID. */
  lemma UnknownTypeExact(host: Host, front: string, a: string, b: string)
    requires a != "" && b != "" && '.' !in a && '.' !in b
    ensures GenericAlertType(host, None, front + "." + a + "." + b) == "snmp.trap_" + a + "_" + b
  {
    hide Split, Filter, Join;
    var oid, arcs, p := front + "." + a + "." + b, Split(front, '.'), (arc: string) => arc != "";
    assert oid == (front + ['.'] + a) + ['.'] + b;
    SplitLast(front + ['.'] + a, b, '.');
    SplitLast(front, a, '.');
    FilterSnoc(p, arcs, a);
    FilterSnoc(p, arcs + [a], b);
    var kept := Filter(p, arcs);
    assert LastN(kept + [a] + [b], 2) == [a, b];
    JoinFew(a, b, "", "", "", "_");
    assert "snmp.trap_" + (a + "_" + b) == "snmp.trap_" + a + "_" + b;
  }

  lemma FilterSnoc(p: string -> bool, s: seq<string>, x: string)
    requires p(x)
    ensures Filter(p, s + [x]) == Filter(p, s) + [x]
  {
    assert (s + [x])[..|s|] == s;
  }

  /** A named trap is typed by the slug of its name. */
  lemma NamedTypeExact(host: Host, name: string, oid: string)
    requires Trim(name) != ""
    ensures GenericAlertType(host, Some(name), oid) == "snmp." + Slug(host, name)
  {
    hide Slug, Trim, Split, Filter;
  }

  /** The alert of a usable trap, field by field: what is known of its OID, unless the collector overrides it. */
  lemma AlertExact(host: Host, trap: Trap, now: int)
    requires ReadTrap(host, trap, now).Success?
    ensures var r, d := ReadTrap(host, trap, now).value, NormalizeSnmpTrap(host, trap, now).value.dto;
            && d.key.source == "SNMP" && d.siteCode == r.site && d.ciCode == r.ci && d.componentKey == r.component && d.occurredAt == r.at
            && (trap.severity.Some? ==> d.severity == trap.severity.value)
            && (trap.severity.None? ==> d.severity == if Known(r.oid).Some? then Known(r.oid).value.severity else Warning)
            && (trap.clears ==> d.state == Recovered)
            && (!trap.clears ==> d.state == if Known(r.oid).Some? then Known(r.oid).value.state else Open)
            && (Known(r.oid).Some? ==> d.alertType == Known(r.oid).value.alertType)
            && (Known(r.oid).None? ==> d.alertType == GenericAlertType(host, trap.trapName, r.oid))
            && d.key.eventId == EventId(host, r.ci, d.alertType, r.component, r.occurrence)
            && d.summary == Summary(trap.trapName, r.oid, r.component, r.address)
            && d.rawReference == None
    ensures var r, x := ReadTrap(host, trap, now).value, NormalizeSnmpTrap(host, trap, now).value.attributes;
            && x.trapOid == r.oid && x.trapName == trap.trapName && x.snmpVersion == trap.version && x.agentAddress == r.address
            && x.sysUpTimeTicks == trap.sysUpTimeTicks && x.v1 == trap.v1 && x.varbinds == VarbindMap(trap.varbinds)
  {
    hide ReadTrap, EventId, Summary, GenericAlertType, VarbindMap, Known;
  }

  /** The event id, part by part. */
  lemma EventIdFormat(host: Host, ci: string, alertType: string, component: Option<string>, occurrence: int)
    ensures EventId(host, ci, alertType, component, occurrence) ==
            Join(["snmp", Slug(host, ci), Slug(host, alertType), Slug(host, if component.Some? then component.value else "device"),
                  IntToString(occurrence)], "-")
  {
    hide Slug, IntToString, Join;
    DashedFive(Slug(host, ci), Slug(host, alertType), ComponentSlug(host, component), IntToString(occurrence));
  }

  lemma DashedFive(a: string, b: string, c: string, d: string)
    ensures Join(["snmp", a, b, c, d], "-") == "snmp-" + a + "-" + b + "-" + c + "-" + d
  {
    hide Join;
    JoinFew("snmp", a, b, c, d, "-");
    assert "snmp" + "-" == "snmp-";
  }

  /** The summary: a title, where, and from whom, with single spaces between. */
  lemma SummaryExact(trapName: Option<string>, oid: string, component: Option<string>, address: string)
    ensures var name := TrimmedOrNone(trapName);
            var title := if name.Some? then name.value else if Known(oid).Some? then Known(oid).value.alertType else "SNMP trap " + oid;
            Summary(trapName, oid, component, address) ==
            Join([title] + (if component.Some? then ["on " + component.value] else []) + ["from " + address], " ")
  {
    hide TrimmedOrNone, Known, Join;
    var name := TrimmedOrNone(trapName);
    var title := if name.Some? then name.value else if Known(oid).Some? then Known(oid).value.alertType else "SNMP trap " + oid;
    if component.Some? {
      JoinFew(title, "on " + component.value, "from " + address, "", "", " ");
      assert [title] + ["on " + component.value] + ["from " + address] == [title, "on " + component.value, "from " + address];
      Spaced(title, component.value, address);
    } else {
      JoinFew(title, "from " + address, "", "", "", " ");
      assert [title] + [] + ["from " + address] == [title, "from " + address];
      assert title + " " + ("from " + address) == title + "" + " from " + address;
    }
  }

  lemma Spaced(title: string, component: string, address: string)
    ensures title + " " + ("on " + component) + " " + ("from " + address) == title + (" on " + component) + " from " + address
  {
    assert title + " " + ("on " + component) == title + (" on " + component);
  }

  /** What makes a trap unusable, in the order it is found out. */
  lemma RejectionExact(host: Host, trap: Trap, now: int)
    ensures var r := ReadTrap(host, trap, now);
            var blank := (s: Option<string>) => s.None? || Trim(s.value) == "";
            var noCi := Trim(trap.ciCode) == "";
            var noSite := blank(trap.siteCode) && SiteFromCi(Trim(trap.ciCode)) == None;
            var noAgent := Trim(trap.agentAddress) == "";
            var noTime := !blank(trap.receivedAt) && host.date(Trim(trap.receivedAt.value)) == None;
            && (r == Failure("ciCode") <==> noCi)
            && (r == Failure("siteCode") <==> !noCi && noSite)
            && (r == Failure("agentAddress") <==> !noCi && !noSite && noAgent)
            && (r == Failure("receivedAt") <==> !noCi && !noSite && !noAgent && noTime)
            && (r == Failure("trapOid") <==> !noCi && !noSite && !noAgent && !noTime && ResolveTrapOid(trap) == None)
            && (r.Success? <==> !noCi && !noSite && !noAgent && !noTime && ResolveTrapOid(trap).Some?)
            && (r.Success? ==>
                  && r.value.ci == Trim(trap.ciCode) && r.value.address == Trim(trap.agentAddress)
                  && Some(r.value.oid) == ResolveTrapOid(trap)
                  && Some(r.value.site) == (if blank(trap.siteCode) then SiteFromCi(Trim(trap.ciCode)) else Some(Trim(trap.siteCode.value)))
                  && Some(r.value.at) == (if blank(trap.receivedAt) then Some(now) else host.date(Trim(trap.receivedAt.value)))
                  && r.value.occurrence == if trap.sysUpTimeTicks.Some? then trap.sysUpTimeTicks.value else r.value.at)
  {
    hide Trim, SiteFromCi, ResolveTrapOid, ComponentKey, OnInterface;
  }

  /** The OID of a trap: its own, or for a v1 trap the generic one, or the enterprise's with two arcs more; else none. */
  lemma OidExact(trap: Trap)
    ensures trap.trapOid.Some? && Trim(trap.trapOid.value) != "" ==> ResolveTrapOid(trap) == Some(Trim(trap.trapOid.value))
    ensures (trap.trapOid.None? || Trim(trap.trapOid.value) == "") && trap.v1.None? ==> ResolveTrapOid(trap) == None
    ensures (trap.trapOid.None? || Trim(trap.trapOid.value) == "") && trap.v1.Some? ==>
              var v := trap.v1.value;
              && (v.genericTrap.None? ==> ResolveTrapOid(trap) == None)
              && (v.genericTrap.Some? && 0 <= v.genericTrap.value <= 5 ==> ResolveTrapOid(trap) == Some(GenericOid(v.genericTrap.value)))
              && (v.genericTrap == Some(6) && v.enterprise.Some? && Trim(v.enterprise.value) != "" ==>
                    ResolveTrapOid(trap) == Some(Trim(v.enterprise.value) + ".0." + IntToString(if v.specificTrap.Some? then v.specificTrap.value else 0)))
              && (v.genericTrap == Some(6) && (v.enterprise.None? || Trim(v.enterprise.value) == "") ==> ResolveTrapOid(trap) == None)
              && (v.genericTrap.Some? && !(0 <= v.genericTrap.value <= 6) ==> ResolveTrapOid(trap) == None)
  {
    hide Trim, GenericOid, IntToString;
  }

  /** A varbind is kept under its name, or under its OID when it has none or a blank one. */
  lemma LabelExact(v: Varbind)
    ensures v.name.None? || Trim(v.name.value) == "" ==> VarbindLabel(v) == v.oid
    ensures v.name.Some? && Trim(v.name.value) != "" ==> VarbindLabel(v) == Trim(v.name.value)
  {
    hide Trim;
  }

  // ----- What tells conditions apart -----

  ghost predicate Injective(f: string -> string) {
    forall x, y :: f(x) == f(y) ==> x == y
  }

  /** The four things a fingerprint is made of, trimmed and lower-cased. */
  ghost function Condition(host: Host, d: Dto): seq<string> {
    [host.lower(Trim(d.siteCode)), host.lower(Trim(d.ciCode)), host.lower(Trim(d.alertType)),
     host.lower(Trim(if d.componentKey.Some? then d.componentKey.value else ""))]
  }

  lemma FourBars(a: string, b: string, c: string, d: string, a': string, b': string, c': string, d': string)
    requires '|' !in a && '|' !in b && '|' !in c && '|' !in a' && '|' !in b' && '|' !in c'
    requires a + "|" + b + "|" + c + "|" + d == a' + "|" + b' + "|" + c' + "|" + d'
    ensures a == a' && b == b' && c == c' && d == d'
  {
    assert a + "|" + b + "|" + c + "|" + d == a + ['|'] + (b + ['|'] + (c + ['|'] + d));
    assert a' + "|" + b' + "|" + c' + "|" + d' == a' + ['|'] + (b' + ['|'] + (c' + ['|'] + d'));
    CutAtFirst('|', a, b + ['|'] + (c + ['|'] + d), a', b' + ['|'] + (c' + ['|'] + d'));
    CutAtFirst('|', b, c + ['|'] + d, b', c' + ['|'] + d');
    CutAtFirst('|', c, d, c', d');
  }

  /**
   * Two alerts have the same fingerprint exactly when site, CI, alert type and
   * component agree after trimming and lower-casing, for a hash without
   * collisions and parts without the separator.
   */
  lemma FingerprintExact(host: Host, d: Dto, e: Dto)
    requires Injective(host.sha256)
    requires forall i :: 0 <= i < 4 ==> '|' !in Condition(host, d)[i] && '|' !in Condition(host, e)[i]
    ensures Fingerprint(host, d) == Fingerprint(host, e) <==> Condition(host, d) == Condition(host, e)
  {
    hide Trim;
    var x, y := Condition(host, d), Condition(host, e);
    JoinFew(x[0], x[1], x[2], x[3], "", "|");
    JoinFew(y[0], y[1], y[2], y[3], "", "|");
    assert x == [x[0], x[1], x[2], x[3]] && y == [y[0], y[1], y[2], y[3]];
    FingerprintIs(host, d);
    FingerprintIs(host, e);
    hide Fingerprint, Join, Condition;
    if Fingerprint(host, d) == Fingerprint(host, e) {
      FourBars(x[0], x[1], x[2], x[3], y[0], y[1], y[2], y[3]);
    }
  }

  lemma FingerprintIs(host: Host, d: Dto)
    ensures Fingerprint(host, d) == host.sha256(Join(Condition(host, d), "|"))
  {
    hide Trim, Join;
  }

}
