/** The whole way of an SNMP trap: PDU, buffer, delivery, normalization and alert row. */
module Pipeline {
  import opened Wrappers
  import opened Text
  import opened Delivery
  import opened Alerts
  import AlertRuns
  import opened Snmp
  import SnmpProofs
  import opened Protocol
  import opened ProtocolRuns

  /** What the collector buffers, one constructor per channel. */
  datatype Body = TrapBody(trap: Trap) | AlertBody(dto: Dto) | HealthBody

  /** The event the API makes of a body received at `now`: a trap it cannot use is rejected, a health snapshot is none. */
  function EventOf(host: Host, body: Body, now: int): Option<Dto> {
    match body
    case AlertBody(dto) => Some(dto)
    case HealthBody => None
    case TrapBody(trap) =>
      var r := NormalizeSnmpTrap(host, trap, now);
      if r.Success? then Some(r.value.dto) else None
  }

  /** A trap that says when it was received reads the same whenever the API gets to it. */
  lemma ReadingIgnoresClock(host: Host, trap: Trap, now: int, now': int)
    requires TrimmedOrNone(trap.receivedAt).Some?
    ensures NormalizeSnmpTrap(host, trap, now) == NormalizeSnmpTrap(host, trap, now')
  {
    hide TrimmedOrNone, Trim, SiteFromCi, ResolveTrapOid, OnInterface, ComponentKey, DtoOf, VarbindMap;
  }

  /**
   * End to end for traps: in every disciplined run, a PDU of any version that
   * the collector accepted and that normalizes was evicted, is still queued, or
   * has exactly one alert row under its event id.
   */
  lemma TrapReachesItsRow(host: Host, cap: Cap, persists: bool, steps: seq<Step<Body>>, t: nat, now: int,
                          pdu: Pdu, source: Source, receivedAt: string)
    requires var decode := (b: Body) => EventOf(host, b, now);
             && Possible(Init<Body>(cap, persists), decode, steps) && DisciplinedRun(Init<Body>(cap, persists), decode, steps)
             && var w := After(Init<Body>(cap, persists), decode, steps);
                t < |w.accepted| && w.accepted[t].payload.body == TrapBody(TrapOfPdu(host, pdu, source, receivedAt))
    requires NormalizeSnmpTrap(host, TrapOfPdu(host, pdu, source, receivedAt), now).Success?
    ensures var w := After(Init<Body>(cap, persists), (b: Body) => EventOf(host, b, now), steps);
            var key := NormalizeSnmpTrap(host, TrapOfPdu(host, pdu, source, receivedAt), now).value.dto.key;
            var rows := AlertRuns.Run(w.log).rows;
            t in w.evicted || Queued(w.buf.items, t) || |set i | 0 <= i < |rows| && rows[i].key == key| == 1
  {
    hide NormalizeSnmpTrap, TrapOfPdu;
    EndToEnd(cap, persists, (b: Body) => EventOf(host, b, now), steps, t);
  }

  /** A v1 trap sent as its v2c translation reaches the row its v1 form names. */
  lemma TranslationReachesItsRow(host: Host, cap: Cap, persists: bool, steps: seq<Step<Body>>, t: nat, now: int,
                                 pdu: Pdu, extras: seq<RawVarbind>, source: Source, receivedAt: string)
    requires SnmpProofs.Translatable(pdu) && forall v :: v in extras ==> SnmpProofs.ProxyVarbind(v)
    requires var decode := (b: Body) => EventOf(host, b, now);
             && Possible(Init<Body>(cap, persists), decode, steps) && DisciplinedRun(Init<Body>(cap, persists), decode, steps)
             && var w := After(Init<Body>(cap, persists), decode, steps);
                && t < |w.accepted|
                && w.accepted[t].payload.body == TrapBody(TrapOfPdu(host, SnmpProofs.Translated(pdu, extras), source, receivedAt))
    requires NormalizeSnmpTrap(host, TrapOfPdu(host, pdu, source, receivedAt), now).Success?
    ensures var w := After(Init<Body>(cap, persists), (b: Body) => EventOf(host, b, now), steps);
            var key := NormalizeSnmpTrap(host, TrapOfPdu(host, pdu, source, receivedAt), now).value.dto.key;
            var rows := AlertRuns.Run(w.log).rows;
            t in w.evicted || Queued(w.buf.items, t) || |set i | 0 <= i < |rows| && rows[i].key == key| == 1
  {
    hide NormalizeSnmpTrap, TrapOfPdu, SnmpProofs.Translated, SnmpProofs.Translatable, SnmpProofs.ProxyVarbind;
    SnmpProofs.TranslationPreservesMeaning(host, pdu, extras, source, receivedAt, now);
    TrapReachesItsRow(host, cap, persists, steps, t, now, SnmpProofs.Translated(pdu, extras), source, receivedAt);
  }

  // ----- The buffer's key is not the event id -----

  /** The part of a buffer key that tells which notification: a v1 trap has only its specific number. */
  function What(trap: Trap): string {
    if trap.trapOid.Some? then trap.trapOid.value
    else if trap.v1.Some? && trap.v1.value.specificTrap.Some? then IntToString(trap.v1.value.specificTrap.value) else "?"
  }

  /** The part that tells which occurrence. */
  function When(host: Host, trap: Trap): string {
    if trap.sysUpTimeTicks.Some? then IntToString(trap.sysUpTimeTicks.value)
    else
      var ms := host.date(if trap.receivedAt.Some? then trap.receivedAt.value else "");
      if ms.Some? then IntToString(ms.value) else "NaN"
  }

  /** The key a trap is buffered under. */
  function BufferKey(host: Host, trap: Trap): string {
    "snmp:" + trap.agentAddress + ":" + What(trap) + ":" + When(host, trap)
  }

  lemma WhenHasNoColon(host: Host, trap: Trap)
    ensures ':' !in When(host, trap)
  {
  }

  /** Two traps of one agent share their buffer key exactly when both parts agree. */
  lemma BufferKeyExact(host: Host, a: Trap, b: Trap)
    requires a.agentAddress == b.agentAddress
    ensures BufferKey(host, a) == BufferKey(host, b) <==> What(a) == What(b) && When(host, a) == When(host, b)
  {
    if BufferKey(host, a) == BufferKey(host, b) {
      WhenHasNoColon(host, a);
      WhenHasNoColon(host, b);
      hide What, When;
      var front := "snmp:" + a.agentAddress + ":";
      CutAtLast(':', front + What(a), When(host, a), front + What(b), When(host, b));
      assert (front + What(a))[|front|..] == What(a) && (front + What(b))[|front|..] == What(b);
    }
  }

  /** Across agents, IPv6 addresses included: a key whose notification part has no colon, as no OID has, also names the agent. */
  lemma BufferKeyNamesAgent(host: Host, a: Trap, b: Trap)
    requires ':' !in What(a) && ':' !in What(b)
    ensures BufferKey(host, a) == BufferKey(host, b) <==>
            a.agentAddress == b.agentAddress && What(a) == What(b) && When(host, a) == When(host, b)
  {
    if BufferKey(host, a) == BufferKey(host, b) {
      WhenHasNoColon(host, a);
      WhenHasNoColon(host, b);
      hide What, When;
      var x, y := "snmp:" + a.agentAddress, "snmp:" + b.agentAddress;
      CutAtLast(':', x + ":" + What(a), When(host, a), y + ":" + What(b), When(host, b));
      CutAtLast(':', x, What(a), y, What(b));
      assert x[5..] == a.agentAddress && y[5..] == b.agentAddress;
    }
  }

  /** The collector stamps every trap with a receive time. */
  predicate Stamped(trap: Trap) {
    trap.receivedAt.Some? && trap.receivedAt.value != "" && Trim(trap.receivedAt.value) == trap.receivedAt.value
  }

  lemma WhenIsOccurrence(host: Host, trap: Trap, now: int)
    requires Stamped(trap) && ReadTrap(host, trap, now).Success?
    ensures When(host, trap) == IntToString(ReadTrap(host, trap, now).value.occurrence)
  {
    hide Trim, SiteFromCi, ResolveTrapOid, OnInterface, ComponentKey, IntToString;
  }

  /**
   * The buffer's identity against the server's, for any two usable traps of one
   * agent. The buffer takes them for one when they agree on `What` and on the
   * occurrence; it is then right exactly when CI, alert type and component have
   * the same slugs.
   */
  lemma SameKeyIsSameEvent(host: Host, a: Trap, b: Trap, now: int, now': int)
    requires a.agentAddress == b.agentAddress && Stamped(a) && Stamped(b)
    requires ReadTrap(host, a, now).Success? && ReadTrap(host, b, now').Success?
    ensures var x, y := ReadTrap(host, a, now).value, ReadTrap(host, b, now').value;
            && (BufferKey(host, a) == BufferKey(host, b) <==> What(a) == What(b) && x.occurrence == y.occurrence)
            && (BufferKey(host, a) == BufferKey(host, b) ==>
                  (NormalizeSnmpTrap(host, a, now).value.dto.key == NormalizeSnmpTrap(host, b, now').value.dto.key <==>
                   && Slug(host, x.ci) == Slug(host, y.ci)
                   && Slug(host, AlertType(host, a.trapName, x.oid)) == Slug(host, AlertType(host, b.trapName, y.oid))
                   && ComponentSlug(host, x.component) == ComponentSlug(host, y.component)))
  {
    hide ReadTrap, NormalizeSnmpTrap, Slug, ComponentSlug, AlertType, What, When, BufferKey, IntToString;
    BufferKeyExact(host, a, b);
    WhenIsOccurrence(host, a, now);
    WhenIsOccurrence(host, b, now');
    OccurrenceTexts(ReadTrap(host, a, now).value.occurrence, ReadTrap(host, b, now').value.occurrence);
    SnmpProofs.EventKeyExact(host, a, b, now, now');
  }

  lemma OccurrenceTexts(m: int, n: int)
    ensures IntToString(m) == IntToString(n) <==> m == n
  {
    if IntToString(m) == IntToString(n) { IntToStringInjective(m, n); }
  }

  /** An item is ignored exactly while its key is queued. */
  lemma IgnoredExact<P>(buf: Delivery.Buffer<P>, item: Item<P>)
    ensures Enqueued(buf, item) == buf <==> HasKey(buf.items, item.key)
  {
    if !HasKey(buf.items, item.key) {
      var r := Enqueued(buf, item).items;
      assert r[|r| - 1] == item;
    }
  }

  /**
   * What ignoring a trap loses, after any run in which the queued trap of the
   * same key was ingested last: the ignored one would have changed the state its
   * event is known in exactly when it is further along than every delivery of
   * that event so far, the queued one included if the server takes both for one.
   */
  lemma IgnoredTrapLoses(host: Host, a: Trap, b: Trap, buf: Delivery.Buffer<Trap>, channel: string, at: int,
                         now: int, now': int, reqs: seq<Request>, c: Context, c': Context)
    requires ReadTrap(host, a, now).Success? && ReadTrap(host, b, now').Success?
    requires BufferKey(host, a) == BufferKey(host, b) && HasKey(buf.items, BufferKey(host, a))
    requires c.fault != FaultBeforeWrite && c'.fault != FaultBeforeWrite
    ensures Enqueued(buf, Item(BufferKey(host, b), channel, b, at)) == buf
    ensures var d, e := NormalizeSnmpTrap(host, a, now).value.dto, NormalizeSnmpTrap(host, b, now').value.dto;
            var without := reqs + [Request(d, c)];
            AlertRuns.StateOf(AlertRuns.Run(without + [Request(e, c')]), e.key) != AlertRuns.StateOf(AlertRuns.Run(without), e.key) <==>
            && (d.key != e.key || Rank(d.state) < Rank(e.state))
            && (forall p :: AlertRuns.Feeds(reqs, p, e.key) ==> Rank(reqs[p].dto.state) < Rank(e.state))
  {
    hide ReadTrap, BufferKey, AlertRuns.StateOf, AlertRuns.Run, DtoOf, VarbindMap, Rank;
    var d, e := NormalizeSnmpTrap(host, a, now).value.dto, NormalizeSnmpTrap(host, b, now').value.dto;
    AlertRuns.DeliveryMatters(reqs + [Request(d, c)], Request(e, c'));
    FeedsAfter(reqs, Request(d, c), e.key, e.state);
  }

  lemma FeedsAfter(reqs: seq<Request>, req: Request, key: EventKey, state: AlertState)
    requires AlertRuns.Wrote(req)
    ensures var all := reqs + [req];
            (forall p :: AlertRuns.Feeds(all, p, key) ==> Rank(all[p].dto.state) < Rank(state)) <==>
            && (req.dto.key != key || Rank(req.dto.state) < Rank(state))
            && (forall p :: AlertRuns.Feeds(reqs, p, key) ==> Rank(reqs[p].dto.state) < Rank(state))
  {
    hide Rank;
    var all := reqs + [req];
    assert forall p :: AlertRuns.Feeds(all, p, key) <==> AlertRuns.Feeds(reqs, p, key) || (p == |reqs| && req.dto.key == key);
    assert forall p :: 0 <= p < |reqs| ==> all[p] == reqs[p];
    assert req.dto.key == key ==> AlertRuns.Feeds(all, |reqs|, key) && all[|reqs|] == req;
  }

  // ----- SNMPv1 traps, which carry no OID -----

  /** The trap the collector makes of a v1 PDU. */
  function V1Trap(host: Host, enterprise: Option<string>, generic: int, specific: Option<int>, upTime: Option<int>,
                  varbinds: seq<RawVarbind>, source: Source, receivedAt: string): Trap
  {
    TrapOfPdu(host, V1Pdu(enterprise, Some(generic), specific, upTime, varbinds), source, receivedAt)
  }

  /**
   * A v1 trap is keyed on its specific number alone: enterprise and generic trap
   * play no part, so traps of one agent and one occurrence share their key
   * exactly when their specific numbers agree.
   */
  lemma V1KeyExact(host: Host, e: Option<string>, g: int, s: Option<int>, e': Option<string>, g': int, s': Option<int>,
                   upTime: Option<int>, vs: seq<RawVarbind>, vs': seq<RawVarbind>, source: Source, receivedAt: string)
    ensures var a := V1Trap(host, e, g, s, upTime, vs, source, receivedAt);
            var b := V1Trap(host, e', g', s', upTime, vs', source, receivedAt);
            BufferKey(host, a) == BufferKey(host, b) <==> s == s'
  {
    hide ToVarbinds, NonEmpty, BufferKey, IntToString;
    var a := V1Trap(host, e, g, s, upTime, vs, source, receivedAt);
    var b := V1Trap(host, e', g', s', upTime, vs', source, receivedAt);
    BufferKeyExact(host, a, b);
    SpecificTexts(s, s');
  }

  /** A v2c or v3 trap is keyed on the trap OID it carries. */
  lemma V2KeyExact(host: Host, version: string, vs: seq<RawVarbind>, vs': seq<RawVarbind>, oid: string, oid': string,
                   source: Source, receivedAt: string)
    requires TrapOidOf(vs) == Some(oid) && TrapOidOf(vs') == Some(oid') && UpTimeOf(host, vs) == UpTimeOf(host, vs')
    ensures var a, b := TrapOfPdu(host, V2Pdu(version, vs), source, receivedAt), TrapOfPdu(host, V2Pdu(version, vs'), source, receivedAt);
            BufferKey(host, a) == BufferKey(host, b) <==> oid == oid'
  {
    hide ToVarbinds, DataOf, TrapOidOf, UpTimeOf, BufferKey, IntToString;
    BufferKeyExact(host, TrapOfPdu(host, V2Pdu(version, vs), source, receivedAt), TrapOfPdu(host, V2Pdu(version, vs'), source, receivedAt));
  }

  lemma SpecificTexts(s: Option<int>, s': Option<int>)
    ensures (if s.Some? then IntToString(s.value) else "?") == (if s'.Some? then IntToString(s'.value) else "?") <==> s == s'
  {
    if s.Some? && s'.Some? { OccurrenceTexts(s.value, s'.value); }
    assert s.Some? ==> IntToString(s.value)[0] != '?';
    assert s'.Some? ==> IntToString(s'.value)[0] != '?';
  }

  lemma V1Reading(host: Host, e: Option<string>, g: int, s: Option<int>, upTime: int, vs: seq<RawVarbind>, source: Source,
                  receivedAt: string, now: int)
    requires 0 <= g <= 5 && ReadTrap(host, V1Trap(host, e, g, s, Some(upTime), vs, source, receivedAt), now).Success?
    ensures var trap := V1Trap(host, e, g, s, Some(upTime), vs, source, receivedAt);
            var r := ReadTrap(host, trap, now).value;
            && trap.trapName == None && !trap.clears
            && r.oid == GenericOid(g) && r.occurrence == upTime && r.ci == Trim(if source.ciCode.Some? then source.ciCode.value else "")
            && r.component == ComponentKey(ToVarbinds(vs), OnInterface(GenericOid(g)))
  {
    hide Trim, SiteFromCi, OccurredAt, ComponentKey, OnInterface, GenericOid, ToVarbinds;
  }

  /** A cold start hides an authentication failure of the same tick, which the server would have told apart. */
  lemma ColdStartHidesAuthenticationFailure(host: Host, e: Option<string>, s: Option<int>, upTime: int, vs: seq<RawVarbind>,
                                            source: Source, receivedAt: string, now: int)
    requires Faithful(host)
    requires ReadTrap(host, V1Trap(host, e, 0, s, Some(upTime), vs, source, receivedAt), now).Success?
    requires ReadTrap(host, V1Trap(host, e, 4, s, Some(upTime), vs, source, receivedAt), now).Success?
    ensures var a, b := V1Trap(host, e, 0, s, Some(upTime), vs, source, receivedAt), V1Trap(host, e, 4, s, Some(upTime), vs, source, receivedAt);
            && BufferKey(host, a) == BufferKey(host, b)
            && NormalizeSnmpTrap(host, a, now).value.dto.key != NormalizeSnmpTrap(host, b, now).value.dto.key
  {
    hide ReadTrap, NormalizeSnmpTrap, V1Trap, BufferKey, Slug, ComponentSlug, AlertType, ComponentKey, GenericOid, Faithful, Trim;
    V1KeyExact(host, e, 0, s, e, 4, s, Some(upTime), vs, vs, source, receivedAt);
    V1Reading(host, e, 0, s, upTime, vs, source, receivedAt, now);
    V1Reading(host, e, 4, s, upTime, vs, source, receivedAt, now);
    StartAndFailureKinds(host);
    SnmpProofs.EventKeyExact(host, V1Trap(host, e, 0, s, Some(upTime), vs, source, receivedAt),
                             V1Trap(host, e, 4, s, Some(upTime), vs, source, receivedAt), now, now);
  }

  lemma StartAndFailureKinds(host: Host)
    requires Faithful(host)
    ensures Slug(host, AlertType(host, None, GenericOid(0))) != Slug(host, AlertType(host, None, GenericOid(4)))
  {
    hide GenericAlertType, Slug, Faithful, SnmpProofs.AllPlain, IsSpace;
    assert AlertType(host, None, GenericOid(0)) == "device.cold_start";
    assert AlertType(host, None, GenericOid(4)) == "security.authentication_failure";
    hide AlertType, GenericOid;
    PlainKinds();
    SnmpProofs.SlugFirst(host, "device.cold_start");
    SnmpProofs.SlugFirst(host, "security.authentication_failure");
  }

  lemma PlainKinds()
    ensures SnmpProofs.AllPlain("device.cold_start") && !IsSpace('t')
    ensures SnmpProofs.AllPlain("security.authentication_failure") && !IsSpace('e')
  {
  }

  /**
   * A queued linkDown swallows its own recovery when the link comes back within
   * the tick: the two v1 traps share buffer key and event id, and the row the
   * linkUp would have recovered stays open.
   */
  lemma LinkDownSwallowsLinkUp(host: Host, e: Option<string>, s: Option<int>, upTime: int, vs: seq<RawVarbind>,
                               source: Source, receivedAt: string, now: int, c: Context, c': Context)
    requires ReadTrap(host, V1Trap(host, e, 2, s, Some(upTime), vs, source, receivedAt), now).Success?
    requires ReadTrap(host, V1Trap(host, e, 3, s, Some(upTime), vs, source, receivedAt), now).Success?
    requires c.fault != FaultBeforeWrite && c'.fault != FaultBeforeWrite
    ensures var a, b := V1Trap(host, e, 2, s, Some(upTime), vs, source, receivedAt), V1Trap(host, e, 3, s, Some(upTime), vs, source, receivedAt);
            var d, u := NormalizeSnmpTrap(host, a, now).value.dto, NormalizeSnmpTrap(host, b, now).value.dto;
            && BufferKey(host, a) == BufferKey(host, b) && d.key == u.key
            && AlertRuns.StateOf(AlertRuns.Run([Request(d, c)]), d.key) == Some(Open)
            && AlertRuns.StateOf(AlertRuns.Run([Request(d, c), Request(u, c')]), d.key) == Some(Recovered)
  {
    hide ReadTrap, V1Trap, BufferKey, Slug, ComponentSlug, AlertType, ComponentKey, GenericOid, Trim, DtoOf, VarbindMap, OnInterface;
    hide AlertRuns.Run, AlertRuns.StateOf;
    var a, b := V1Trap(host, e, 2, s, Some(upTime), vs, source, receivedAt), V1Trap(host, e, 3, s, Some(upTime), vs, source, receivedAt);
    V1KeyExact(host, e, 2, s, e, 3, s, Some(upTime), vs, vs, source, receivedAt);
    V1Reading(host, e, 2, s, upTime, vs, source, receivedAt, now);
    V1Reading(host, e, 3, s, upTime, vs, source, receivedAt, now);
    LinkOids();
    SnmpProofs.LinkKinds(host, None);
    SnmpProofs.EventKeyExact(host, a, b, now, now);
    SnmpProofs.LinkReadingsPair(host, a, b, ReadTrap(host, a, now).value, ReadTrap(host, b, now).value);
    FirstStates(Request(NormalizeSnmpTrap(host, a, now).value.dto, c), Request(NormalizeSnmpTrap(host, b, now).value.dto, c'));
  }

  lemma LinkOids()
    ensures GenericOid(2) == LINK_DOWN && GenericOid(3) == LINK_UP && OnInterface(LINK_DOWN) && OnInterface(LINK_UP)
  {
  }

  lemma FirstStates(first: Request, second: Request)
    requires AlertRuns.Wrote(first) && AlertRuns.Wrote(second) && first.dto.key == second.dto.key
    ensures AlertRuns.StateOf(AlertRuns.Run([first]), first.dto.key) == Some(first.dto.state)
    ensures AlertRuns.StateOf(AlertRuns.Run([first, second]), first.dto.key) == Some(ReduceAlertState(first.dto.state, second.dto.state))
  {
    assert [] + [first] == [first] && [first] + [second] == [first, second];
    assert AlertRuns.StateOf(AlertRuns.Run([]), first.dto.key) == None;
    AlertRuns.EventAfter([], first);
    AlertRuns.EventAfter([first], second);
  }
}
