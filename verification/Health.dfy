/**
 * Hardware health snapshots from Redfish, HPE iLO and Dell OME: which parts are
 * listed as degraded, how they are counted, and the overall verdict.
 */
module Health {
  import opened Wrappers
  import opened Text
  import opened Batches

  datatype State = Unknown | Healthy | Maintenance | Warning | Critical

  datatype Kind =
    | System | Processor | Memory | TemperatureSensor | Fan | PowerSupply | Drive | StorageController | Network

  datatype Degraded = Degraded(kind: Kind, name: string, health: State)
  datatype Count = Count(total: nat, healthy: nat)

  function Rank(s: State): nat {
    match s case Unknown => 0 case Healthy => 1 case Maintenance => 1 case Warning => 2 case Critical => 3
  }

  function Worse(a: State, b: State): State {
    if Rank(b) > Rank(a) then b else a
  }

  /** The first state of highest rank, or Unknown when there is none above it. */
  function WorstOf(states: seq<State>): (w: State)
    ensures forall i :: 0 <= i < |states| ==> Rank(states[i]) <= Rank(w)
    ensures w == Unknown || w in states
  {
    if states == [] then Unknown else Worse(WorstOf(states[..|states| - 1]), states[|states| - 1])
  }

  /** The first state that is not unknown. */
  ghost predicate FirstKnownAt(states: seq<State>, k: int, w: State) {
    0 <= k < |states| && states[k] == w && forall j :: 0 <= j < k ==> states[j] == Unknown
  }

  /**
   * The verdict over some states: CRITICAL if one is, else WARNING if one is,
   * else the first that is known at all, else UNKNOWN.
   */
  ghost predicate IsVerdict(states: seq<State>, w: State) {
    && (w == Critical <==> Critical in states)
    && (w == Warning <==> Critical !in states && Warning in states)
    && (w == Unknown <==> forall i :: 0 <= i < |states| ==> states[i] == Unknown)
    && (w == Healthy || w == Maintenance ==> exists k :: FirstKnownAt(states, k, w))
  }

  lemma {:induction false} WorstExact(states: seq<State>)
    ensures IsVerdict(states, WorstOf(states))
  {
    if states != [] {
      var n := |states| - 1;
      WorstExact(states[..n]);
      VerdictStep(states[..n], states[n], WorstOf(states[..n]));
      assert states[..n] + [states[n]] == states;
    }
  }

  lemma VerdictStep(states: seq<State>, s: State, w: State)
    requires IsVerdict(states, w)
    ensures IsVerdict(states + [s], Worse(w, s))
  {
    var all, r := states + [s], Worse(w, s);
    assert all[|states|] == s && forall i :: 0 <= i < |states| ==> all[i] == states[i];
    if r == Healthy || r == Maintenance {
      if w == Unknown {
        assert FirstKnownAt(all, |states|, r);
      } else {
        var k :| FirstKnownAt(states, k, w);
        assert FirstKnownAt(all, k, r);
      }
    }
  }

  method Worst(states: seq<State>) returns (winner: State)
    ensures winner == WorstOf(states)
    ensures IsVerdict(states, winner)
    ensures forall i :: 0 <= i < |states| ==> Rank(states[i]) <= Rank(winner)
    ensures winner == Unknown || winner in states
  {
    winner := Unknown;
    for i := 0 to |states|
      invariant winner == WorstOf(states[..i])
    {
      assert states[..i + 1][..i] == states[..i];
      if Rank(states[i]) > Rank(winner) {
        winner := states[i];
      }
    }
    assert states[..|states|] == states;
    WorstExact(states);
  }

  /** Taking the worst in two stages is taking it at once, ties included. */
  lemma {:induction false} WorstInStages(a: seq<State>, b: seq<State>)
    ensures WorstOf([WorstOf(a)] + b) == WorstOf(a + b)
  {
    if b == [] {
      assert a + b == a && [WorstOf(a)] + b == [WorstOf(a)];
      assert [WorstOf(a)][..0] == [];
    } else {
      var n := |b| - 1;
      assert (a + b)[..|a + b| - 1] == a + b[..n];
      assert ([WorstOf(a)] + b)[..|b|] == [WorstOf(a)] + b[..n];
      WorstInStages(a, b[..n]);
    }
  }

  function Healths(parts: seq<Degraded>): seq<State> {
    seq(|parts|, i requires 0 <= i < |parts| => parts[i].health)
  }

  function OfKind(parts: seq<Degraded>, kind: Kind): nat {
    if parts == [] then 0 else OfKind(parts[..|parts| - 1], kind) + if parts[|parts| - 1].kind == kind then 1 else 0
  }

  lemma {:induction false} OfKindAdds(a: seq<Degraded>, b: seq<Degraded>, kind: Kind)
    ensures OfKind(a + b, kind) == OfKind(a, kind) + OfKind(b, kind)
  {
    if b == [] {
      assert a + b == a;
    } else {
      assert (a + b)[..|a + b| - 1] == a + b[..|b| - 1];
      OfKindAdds(a, b[..|b| - 1], kind);
    }
  }

  // ----- Parts with a status -----

  /**
   * A part as the snapshots see it. `counted` is false for a part reported as
   * absent, which is neither listed nor counted.
   */
  datatype Part = Part(name: Option<string>, counted: bool, health: State)

  function NameOf(part: Part, prefix: string, i: nat): string {
    if part.name.Some? then part.name.value else prefix + NatToString(i)
  }

  predicate Listed(part: Part) {
    part.counted && part.health != Healthy && part.health != Maintenance
  }

  function DegradedParts(kind: Kind, prefix: string, parts: seq<Part>): seq<Degraded> {
    if parts == [] then []
    else
      var i := |parts| - 1;
      DegradedParts(kind, prefix, parts[..i]) + if Listed(parts[i]) then [Degraded(kind, NameOf(parts[i], prefix, i), parts[i].health)] else []
  }

  function Counted(parts: seq<Part>): Count {
    if parts == [] then Count(0, 0)
    else
      var c, p := Counted(parts[..|parts| - 1]), parts[|parts| - 1];
      if !p.counted then c
      else Count(c.total + 1, if p.health == Healthy then c.healthy + 1 else c.healthy)
  }

  /** No part is mapped to maintenance; only people put things there. */
  ghost predicate Mapped(parts: seq<Part>) {
    forall i :: 0 <= i < |parts| ==> parts[i].health != Maintenance
  }

  method PushParts(into: seq<Degraded>, kind: Kind, prefix: string, parts: seq<Part>) returns (out: seq<Degraded>)
    ensures out == into + DegradedParts(kind, prefix, parts)
  {
    out := into;
    for i := 0 to |parts|
      invariant out == into + DegradedParts(kind, prefix, parts[..i])
    {
      assert parts[..i + 1][..i] == parts[..i];
      if Listed(parts[i]) {
        out := out + [Degraded(kind, NameOf(parts[i], prefix, i), parts[i].health)];
      }
    }
    assert parts[..|parts|] == parts;
  }

  method CountParts(parts: seq<Part>) returns (c: Count)
    ensures c == Counted(parts) && c.healthy <= c.total <= |parts|
  {
    var total, healthy := 0, 0;
    for i := 0 to |parts|
      invariant Count(total, healthy) == Counted(parts[..i]) && healthy <= total <= i
    {
      assert parts[..i + 1][..i] == parts[..i];
      if parts[i].counted {
        total := total + 1;
        if parts[i].health == Healthy {
          healthy := healthy + 1;
        }
      }
    }
    assert parts[..|parts|] == parts;
    c := Count(total, healthy);
  }

  /** Conservation: a list of parts is counted as healthy or listed as degraded, part by part. */
  lemma {:induction false} PartsConserved(kind: Kind, prefix: string, parts: seq<Part>, other: Kind)
    requires Mapped(parts)
    ensures var c := Counted(parts);
            OfKind(DegradedParts(kind, prefix, parts), other) + (if other == kind then c.healthy else 0) == if other == kind then c.total else 0
  {
    if parts != [] {
      var i := |parts| - 1;
      PartsConserved(kind, prefix, parts[..i], other);
      var d := DegradedParts(kind, prefix, parts[..i]);
      if Listed(parts[i]) {
        assert (d + [Degraded(kind, NameOf(parts[i], prefix, i), parts[i].health)])[..|d|] == d;
      } else {
        assert d + [] == d;
      }
    }
  }

  // ----- Redfish -----

  datatype Status = Status(state: Option<string>, health: Option<string>, rollup: Option<string>)

  function StateOf(lower: string -> string, raw: Option<string>): (s: State)
    ensures s != Maintenance
  {
    if raw.None? then Unknown
    else
      var t := lower(Trim(raw.value));
      if t == "ok" then Healthy else if t == "warning" then Warning else if t == "critical" then Critical else Unknown
  }

  function MapHealth(lower: string -> string, status: Option<Status>, preferRollup: bool): (s: State)
    ensures s != Maintenance
  {
    if status.None? then Unknown
    else StateOf(lower, if preferRollup then Coalesce(status.value.rollup, status.value.health) else status.value.health)
  }

  predicate IsAbsent(lower: string -> string, status: Option<Status>) {
    status.Some? && status.value.state.Some? && lower(Trim(status.value.state.value)) == "absent"
  }

  datatype Component = Component(name: Option<string>, status: Option<Status>)
  datatype Temperature = Temperature(part: Component, reading: Option<int>, critical: Option<int>)
  datatype DriveComponent = DriveComponent(part: Component, failurePredicted: bool)

  datatype Bundle = Bundle(
    ciCode: string, system: Option<Component>, processors: Option<Status>, memory: Option<Status>,
    temperatures: seq<Temperature>, fans: seq<Component>, powerSupplies: seq<Component>, drives: seq<DriveComponent>)

  function ToPart(lower: string -> string, c: Component): Part {
    Part(c.name, !IsAbsent(lower, c.status), MapHealth(lower, c.status, false))
  }

  function ToParts(lower: string -> string, cs: seq<Component>): (parts: seq<Part>)
    ensures Mapped(parts)
  {
    seq(|cs|, i requires 0 <= i < |cs| => ToPart(lower, cs[i]))
  }

  /** A reading at or over its critical threshold is critical whatever the sensor's own status says. */
  function SensorPart(lower: string -> string, t: Temperature): Part {
    if t.reading.Some? && t.critical.Some? && t.reading.value >= t.critical.value && !IsAbsent(lower, t.part.status)
    then Part(t.part.name, true, Critical)
    else ToPart(lower, t.part)
  }

  function SensorParts(lower: string -> string, ts: seq<Temperature>): (parts: seq<Part>)
    ensures Mapped(parts)
  {
    seq(|ts|, i requires 0 <= i < |ts| => SensorPart(lower, ts[i]))
  }

  function DriveParts(lower: string -> string, ds: seq<DriveComponent>): (parts: seq<Part>)
    ensures Mapped(parts)
  {
    seq(|ds|, i requires 0 <= i < |ds| => ToPart(lower, ds[i].part))
  }

  datatype Snapshot = Snapshot(
    overall: State, degraded: seq<Degraded>, predicted: nat, drives: Count, fans: Count, powerSupplies: Count)

  function Predicted(ds: seq<DriveComponent>): nat {
    |Filter((d: DriveComponent) => d.failurePredicted, ds)|
  }

  /** Everything the overall verdict is taken over: the system's rollup, the degraded parts, and predicted drive failures. */
  function HealthInputs(lower: string -> string, b: Bundle, degraded: seq<Degraded>): seq<State>
    requires b.system.Some?
  {
    [MapHealth(lower, b.system.value.status, true)] + Healths(degraded) + if Predicted(b.drives) > 0 then [Warning] else []
  }

  /** The degraded parts of a bundle, in the order they are examined. */
  function RedfishDegraded(lower: string -> string, b: Bundle): seq<Degraded>
    requires b.system.Some?
  {
    DegradedParts(System, "System", ToParts(lower, [Component(Some(if b.system.value.name.Some? then b.system.value.name.value else "System"), b.system.value.status)]))
    + DegradedParts(Processor, "", ToParts(lower, [Component(Some("ProcessorSummary"), b.processors)]))
    + DegradedParts(Memory, "", ToParts(lower, [Component(Some("MemorySummary"), b.memory)]))
    + DegradedParts(TemperatureSensor, "Temperature ", SensorParts(lower, b.temperatures))
    + DegradedParts(Fan, "Fan ", ToParts(lower, b.fans))
    + DegradedParts(PowerSupply, "PSU ", ToParts(lower, b.powerSupplies))
    + DegradedParts(Drive, "Drive ", DriveParts(lower, b.drives))
  }

  method NormalizeRedfishSystem(lower: string -> string, b: Bundle) returns (r: Result<Snapshot, string>)
    ensures Trim(b.ciCode) == "" ==> r == Failure("ciCode")
    ensures Trim(b.ciCode) != "" && b.system.None? ==> r == Failure("system")
    ensures Trim(b.ciCode) != "" && b.system.Some? ==>
              && r.Success? && r.value.degraded == RedfishDegraded(lower, b)
              && r.value.overall == WorstOf(HealthInputs(lower, b, r.value.degraded))
              && IsVerdict(HealthInputs(lower, b, r.value.degraded), r.value.overall)
              && r.value.predicted == Predicted(b.drives)
              && r.value.fans == Counted(ToParts(lower, b.fans))
              && r.value.powerSupplies == Counted(ToParts(lower, b.powerSupplies))
              && r.value.drives == Counted(DriveParts(lower, b.drives))
  {
    hide DegradedParts, Counted, ToParts, SensorParts, DriveParts, MapHealth, WorstOf, Predicted, Healths, Trim, IsVerdict;
    if Trim(b.ciCode) == "" {
      return Failure("ciCode");
    }
    if b.system.None? {
      return Failure("system");
    }
    var system := b.system.value;
    var name := if system.name.Some? then system.name.value else "System";
    var degraded := PushParts([], System, "System", ToParts(lower, [Component(Some(name), system.status)]));
    degraded := PushParts(degraded, Processor, "", ToParts(lower, [Component(Some("ProcessorSummary"), b.processors)]));
    degraded := PushParts(degraded, Memory, "", ToParts(lower, [Component(Some("MemorySummary"), b.memory)]));
    degraded := PushParts(degraded, TemperatureSensor, "Temperature ", SensorParts(lower, b.temperatures));
    degraded := PushParts(degraded, Fan, "Fan ", ToParts(lower, b.fans));
    degraded := PushParts(degraded, PowerSupply, "PSU ", ToParts(lower, b.powerSupplies));
    degraded := PushParts(degraded, Drive, "Drive ", DriveParts(lower, b.drives));
    assert degraded == RedfishDegraded(lower, b);
    var overall := Worst(HealthInputs(lower, b, degraded));
    var drives := CountParts(DriveParts(lower, b.drives));
    var fans := CountParts(ToParts(lower, b.fans));
    var powerSupplies := CountParts(ToParts(lower, b.powerSupplies));
    r := Success(Snapshot(overall, degraded, Predicted(b.drives), drives, fans, powerSupplies));
  }

  /**
   * Conservation over the whole snapshot: the fans, power supplies and drives
   * listed as degraded are exactly those counted and not healthy.
   */
  lemma RedfishConserves(lower: string -> string, b: Bundle)
    requires b.system.Some?
    ensures var d := RedfishDegraded(lower, b);
            var fans, psus, drives := Counted(ToParts(lower, b.fans)), Counted(ToParts(lower, b.powerSupplies)), Counted(DriveParts(lower, b.drives));
            && OfKind(d, Fan) == fans.total - fans.healthy
            && OfKind(d, PowerSupply) == psus.total - psus.healthy
            && OfKind(d, Drive) == drives.total - drives.healthy
  {
    hide OfKind, RedfishDegraded, Counted, ToParts, DriveParts;
    OfKindOfRedfish(lower, b, Fan);
    OfKindOfRedfish(lower, b, PowerSupply);
    OfKindOfRedfish(lower, b, Drive);
  }

  lemma OfKindOfRedfish(lower: string -> string, b: Bundle, k: Kind)
    requires b.system.Some? && (k == Fan || k == PowerSupply || k == Drive)
    ensures var c := Counted(if k == Fan then ToParts(lower, b.fans) else if k == PowerSupply then ToParts(lower, b.powerSupplies)
                             else DriveParts(lower, b.drives));
            OfKind(RedfishDegraded(lower, b), k) == c.total - c.healthy
  {
    hide DegradedParts, Counted, OfKind, ToParts, SensorParts, DriveParts;
    var name := if b.system.value.name.Some? then b.system.value.name.value else "System";
    var p1 := ToParts(lower, [Component(Some(name), b.system.value.status)]);
    var p2 := ToParts(lower, [Component(Some("ProcessorSummary"), b.processors)]);
    var p3 := ToParts(lower, [Component(Some("MemorySummary"), b.memory)]);
    var p4, p5 := SensorParts(lower, b.temperatures), ToParts(lower, b.fans);
    var p6, p7 := ToParts(lower, b.powerSupplies), DriveParts(lower, b.drives);
    var d1, d2, d3 := DegradedParts(System, "System", p1), DegradedParts(Processor, "", p2), DegradedParts(Memory, "", p3);
    var d4, d5 := DegradedParts(TemperatureSensor, "Temperature ", p4), DegradedParts(Fan, "Fan ", p5);
    var d6, d7 := DegradedParts(PowerSupply, "PSU ", p6), DegradedParts(Drive, "Drive ", p7);
    assert RedfishDegraded(lower, b) == d1 + d2 + d3 + d4 + d5 + d6 + d7;
    OfKindAdds(d1 + d2 + d3 + d4 + d5 + d6, d7, k);
    OfKindAdds(d1 + d2 + d3 + d4 + d5, d6, k);
    OfKindAdds(d1 + d2 + d3 + d4, d5, k);
    OfKindAdds(d1 + d2 + d3, d4, k);
    OfKindAdds(d1 + d2, d3, k);
    OfKindAdds(d1, d2, k);
    PartsConserved(System, "System", p1, k);
    PartsConserved(Processor, "", p2, k);
    PartsConserved(Memory, "", p3, k);
    PartsConserved(TemperatureSensor, "Temperature ", p4, k);
    PartsConserved(Fan, "Fan ", p5, k);
    PartsConserved(PowerSupply, "PSU ", p6, k);
    PartsConserved(Drive, "Drive ", p7, k);
  }

  // ----- HPE iLO on top of Redfish -----

  /** The subsystems of the aggregate rollup, with the kind each rolls up to. */
  const AGGREGATES: seq<(string, Kind)> := [
    ("BiosOrHardwareHealth", System), ("Fans", Fan), ("Memory", Memory), ("Network", Network), ("PowerSupplies", PowerSupply),
    ("Processors", Processor), ("SmartStorageBattery", System), ("Storage", StorageController), ("Temperatures", TemperatureSensor)]

  datatype Battery = Battery(productName: Option<string>, index: Option<int>, status: Option<Status>)
  datatype HpeBundle = HpeBundle(base: Bundle, aggregate: Option<map<string, Status>>, batteries: seq<Battery>)

  /** Rollups are a fallback: only for kinds the base did not flag, and only warnings and worse. */
  function RollupParts(lower: string -> string, subsystems: seq<(string, Kind)>, aggregate: map<string, Status>, flagged: set<Kind>): seq<Degraded> {
    if subsystems == [] then []
    else
      var (field, kind) := subsystems[|subsystems| - 1];
      var health := MapHealth(lower, if field in aggregate then Some(aggregate[field]) else None, true);
      RollupParts(lower, subsystems[..|subsystems| - 1], aggregate, flagged)
      + if kind !in flagged && (health == Warning || health == Critical)
        then [Degraded(kind, "Hpe.AggregateHealthStatus." + field, health)] else []
  }

  /** A battery without a product name is named by its index, or else by its position. */
  function BatteryName(b: Battery): Option<string> {
    Coalesce(b.productName, if b.index.Some? then Some("SmartStorageBattery " + IntToString(b.index.value)) else None)
  }

  function BatteryParts(lower: string -> string, batteries: seq<Battery>): (parts: seq<Part>)
    ensures Mapped(parts)
  {
    seq(|batteries|, i requires 0 <= i < |batteries| => Part(BatteryName(batteries[i]), true, MapHealth(lower, batteries[i].status, true)))
  }

  function FlaggedKinds(degraded: seq<Degraded>): set<Kind> {
    set d | d in degraded :: d.kind
  }

  /** What HPE adds to the degraded parts of the base. */
  function HpeExtras(lower: string -> string, b: HpeBundle, degraded: seq<Degraded>): seq<Degraded> {
    (if b.aggregate.Some? then RollupParts(lower, AGGREGATES, b.aggregate.value, FlaggedKinds(degraded)) else [])
    + DegradedParts(System, "SmartStorageBattery ", BatteryParts(lower, b.batteries))
  }

  method NormalizeHpeIloSystem(lower: string -> string, b: HpeBundle) returns (r: Result<Snapshot, string>)
    ensures Trim(b.base.ciCode) == "" ==> r == Failure("ciCode")
    ensures Trim(b.base.ciCode) != "" && b.base.system.None? ==> r == Failure("system")
    ensures Trim(b.base.ciCode) != "" && b.base.system.Some? ==>
              && r.Success?
              && var d := RedfishDegraded(lower, b.base);
                 var extras := HpeExtras(lower, b, d);
                 && r.value.degraded == d + extras
                 && r.value.overall == WorstOf(HealthInputs(lower, b.base, d) + Healths(extras))
                 && IsVerdict(HealthInputs(lower, b.base, d) + Healths(extras), r.value.overall)
                 && r.value.fans == Counted(ToParts(lower, b.base.fans))
                 && r.value.powerSupplies == Counted(ToParts(lower, b.base.powerSupplies))
                 && r.value.drives == Counted(DriveParts(lower, b.base.drives))
                 && r.value.predicted == Predicted(b.base.drives)
  {
    hide DegradedParts, Counted, ToParts, DriveParts, WorstOf, Predicted, Trim, RedfishDegraded, HealthInputs, BatteryParts, RollupParts, IsVerdict;
    var base := NormalizeRedfishSystem(lower, b.base);
    if base.Failure? {
      return base;
    }
    var extras: seq<Degraded> := [];
    if b.aggregate.Some? {
      extras := PushRollups(lower, AGGREGATES, b.aggregate.value, FlaggedKinds(base.value.degraded));
    }
    extras := PushParts(extras, System, "SmartStorageBattery ", BatteryParts(lower, b.batteries));
    assert extras == HpeExtras(lower, b, base.value.degraded);
    WorstInStages(HealthInputs(lower, b.base, base.value.degraded), Healths(extras));
    WorstExact(HealthInputs(lower, b.base, base.value.degraded) + Healths(extras));
    if extras == [] {
      assert base.value.degraded + extras == base.value.degraded;
      assert HealthInputs(lower, b.base, base.value.degraded) + Healths(extras) == HealthInputs(lower, b.base, base.value.degraded);
      return base;
    }
    var overall := Worst([base.value.overall] + Healths(extras));
    r := Success(base.value.(overall := overall, degraded := base.value.degraded + extras));
  }

  method PushRollups(lower: string -> string, subsystems: seq<(string, Kind)>, aggregate: map<string, Status>, flagged: set<Kind>)
    returns (extras: seq<Degraded>)
    ensures extras == RollupParts(lower, subsystems, aggregate, flagged)
  {
    extras := [];
    for n := 0 to |subsystems|
      invariant extras == RollupParts(lower, subsystems[..n], aggregate, flagged)
    {
      assert subsystems[..n + 1][..n] == subsystems[..n];
      var (field, kind) := subsystems[n];
      var health := MapHealth(lower, if field in aggregate then Some(aggregate[field]) else None, true);
      if kind !in flagged && (health == Warning || health == Critical) {
        extras := extras + [Degraded(kind, "Hpe.AggregateHealthStatus." + field, health)];
      }
    }
    assert subsystems[..|subsystems|] == subsystems;
  }

  lemma {:induction false} FlaggedIff(d: seq<Degraded>, k: Kind)
    ensures k in FlaggedKinds(d) <==> OfKind(d, k) > 0
  {
    if d != [] {
      FlaggedIff(d[..|d| - 1], k);
      assert d == d[..|d| - 1] + [d[|d| - 1]];
      assert FlaggedKinds(d) == FlaggedKinds(d[..|d| - 1]) + {d[|d| - 1].kind};
    }
  }

  /** No rollup of a kind already flagged, and at most one of another kind that one subsystem rolls up to. */
  lemma {:induction false} RollupsOfKind(lower: string -> string, subsystems: seq<(string, Kind)>, aggregate: map<string, Status>, flagged: set<Kind>,
                                         k: Kind, at: nat)
    requires forall i :: 0 <= i < |subsystems| && subsystems[i].1 == k ==> i == at
    ensures OfKind(RollupParts(lower, subsystems, aggregate, flagged), k) <= if at < |subsystems| && k !in flagged then 1 else 0
  {
    hide MapHealth, Rank;
    if subsystems != [] {
      var front := subsystems[..|subsystems| - 1];
      RollupsOfKind(lower, front, aggregate, flagged, k, at);
      var d := RollupParts(lower, front, aggregate, flagged);
      var tail := RollupParts(lower, subsystems, aggregate, flagged)[|d|..];
      assert RollupParts(lower, subsystems, aggregate, flagged) == d + tail;
      OfKindAdds(d, tail, k);
      assert tail == [] || tail[..0] == [];
    }
  }

  /**
   * HPE keeps the conservation of the base: drives exactly, and fans and power
   * supplies exactly unless all of them are healthy, when one rollup may stand
   * for what the base could not see.
   */
  lemma HpeConserves(lower: string -> string, b: HpeBundle, k: Kind)
    requires b.base.system.Some? && (k == Fan || k == PowerSupply || k == Drive)
    ensures var d := RedfishDegraded(lower, b.base);
            var all := d + HpeExtras(lower, b, d);
            OfKind(all, k) == OfKind(d, k) || (k != Drive && OfKind(d, k) == 0 && OfKind(all, k) == 1)
  {
    hide RedfishDegraded, HpeExtras, OfKind;
    var d := RedfishDegraded(lower, b.base);
    OfKindAdds(d, HpeExtras(lower, b, d), k);
    ExtrasOfKind(lower, b, d, k);
  }

  lemma ExtrasOfKind(lower: string -> string, b: HpeBundle, d: seq<Degraded>, k: Kind)
    requires k == Fan || k == PowerSupply || k == Drive
    ensures OfKind(HpeExtras(lower, b, d), k) <= if k != Drive && OfKind(d, k) == 0 then 1 else 0
  {
    assert OfKind([], k) == 0;
    hide RollupParts, DegradedParts, Counted, FlaggedKinds, OfKind, BatteryParts;
    var rollups := if b.aggregate.Some? then RollupParts(lower, AGGREGATES, b.aggregate.value, FlaggedKinds(d)) else [];
    var batteries := DegradedParts(System, "SmartStorageBattery ", BatteryParts(lower, b.batteries));
    OfKindAdds(rollups, batteries, k);
    PartsConserved(System, "SmartStorageBattery ", BatteryParts(lower, b.batteries), k);
    AggregateRollups(lower, if b.aggregate.Some? then b.aggregate.value else map[], d, k);
  }

  lemma AggregateRollups(lower: string -> string, aggregate: map<string, Status>, d: seq<Degraded>, k: Kind)
    requires k == Fan || k == PowerSupply || k == Drive
    ensures OfKind(RollupParts(lower, AGGREGATES, aggregate, FlaggedKinds(d)), k) <= if k != Drive && OfKind(d, k) == 0 then 1 else 0
  {
    hide RollupParts, FlaggedKinds, OfKind;
    FlaggedIff(d, k);
    var at := if k == Fan then 1 else if k == PowerSupply then 4 else |AGGREGATES|;
    AggregateKinds(k, at);
    RollupsOfKind(lower, AGGREGATES, aggregate, FlaggedKinds(d), k, at);
  }

  lemma AggregateKinds(k: Kind, at: nat)
    requires (k == Fan && at == 1) || (k == PowerSupply && at == 4) || (k == Drive && at == |AGGREGATES|)
    ensures forall i :: 0 <= i < |AGGREGATES| && AGGREGATES[i].1 == k ==> i == at
  {
    forall i | 0 <= i < |AGGREGATES| && AGGREGATES[i].1 == k ensures i == at {
      assert |AGGREGATES| == 9;
      assert i == 0 || i == 1 || i == 2 || i == 3 || i == 4 || i == 5 || i == 6 || i == 7 || i == 8;
    }
  }

  // ----- Dell OME -----

  datatype OmePart = OmePart(name: Option<string>, status: Option<int>)
  datatype OmeDisk = OmeDisk(part: OmePart, predictiveFailureState: string)

  predicate Contains(s: string, t: string) {
    exists i :: 0 <= i <= |s| - |t| && s[i..][..|t|] == t
  }

  predicate SmartAlertPresent(lower: string -> string, disk: OmeDisk) {
    Contains(lower(Trim(disk.predictiveFailureState)), "present")
  }

  function SmartAlerts(lower: string -> string, disks: seq<OmeDisk>): nat {
    |Filter((d: OmeDisk) => SmartAlertPresent(lower, d), disks)|
  }

  function DiskParts(disks: seq<OmeDisk>): (parts: seq<Part>)
    ensures Mapped(parts)
  {
    seq(|disks|, i requires 0 <= i < |disks| => OmeToPart(disks[i].part))
  }

  /** The REST rollup scale and the legacy one. */
  function MapOmeStatus(code: Option<int>): (s: State)
    ensures s != Maintenance
  {
    if code.None? then Unknown
    else if code.value == 1000 || code.value == 3 then Healthy
    else if code.value == 3000 || code.value == 4 then Warning
    else if code.value == 4000 || code.value == 5 || code.value == 6 then Critical
    else Unknown
  }

  function OmeToPart(p: OmePart): Part {
    Part(p.name, true, MapOmeStatus(p.status))
  }

  function OmeToParts(ps: seq<OmePart>): (parts: seq<Part>)
    ensures Mapped(parts)
  {
    seq(|ps|, i requires 0 <= i < |ps| => OmeToPart(ps[i]))
  }

  function SubsystemKind(lower: string -> string, name: Option<string>): (k: Kind)
    ensures k != Drive
  {
    var n := lower(if name.Some? then Trim(name.value) else "");
    if n == "temperature" then TemperatureSensor
    else if n == "fan" || n == "cooling" then Fan
    else if n == "memory" then Memory
    else if n == "processor" || n == "cpu" then Processor
    else if n == "storage" then StorageController
    else if n == "powersupply" || n == "power supply" then PowerSupply
    else if n == "network" || n == "nic" then Network
    else System
  }

  datatype OmeBundle = OmeBundle(
    ciCode: string, device: Option<OmePart>, subSystems: seq<OmePart>, disks: seq<OmeDisk>, powerSupplies: seq<OmePart>, fans: seq<OmePart>)

  function DegradedSubsystems(lower: string -> string, subs: seq<OmePart>): seq<Degraded> {
    if subs == [] then []
    else
      var i := |subs| - 1;
      DegradedSubsystems(lower, subs[..i])
      + if Listed(OmeToPart(subs[i]))
        then [Degraded(SubsystemKind(lower, subs[i].name), NameOf(OmeToPart(subs[i]), "SubSystem ", i), MapOmeStatus(subs[i].status))] else []
  }

  function OmeDegraded(lower: string -> string, b: OmeBundle): seq<Degraded>
    requires b.device.Some?
  {
    var device := OmePart(Some(if b.device.value.name.Some? then b.device.value.name.value else "Device"), b.device.value.status);
    DegradedParts(System, "", OmeToParts([device]))
    + DegradedSubsystems(lower, b.subSystems)
    + DegradedParts(Fan, "Fan ", OmeToParts(b.fans))
    + DegradedParts(PowerSupply, "PSU ", OmeToParts(b.powerSupplies))
    + DegradedParts(Drive, "Disk ", DiskParts(b.disks))
  }

  /** The snapshot of an OME device, or the field that makes the bundle unusable. */
  function DellSnapshot(lower: string -> string, b: OmeBundle): Result<Snapshot, string> {
    if Trim(b.ciCode) == "" then Failure("ciCode")
    else if b.device.None? then Failure("device")
    else
      var d := OmeDegraded(lower, b);
      Success(Snapshot(
        WorstOf([MapOmeStatus(b.device.value.status)] + Healths(d) + if SmartAlerts(lower, b.disks) > 0 then [Warning] else []),
        d, SmartAlerts(lower, b.disks), Counted(DiskParts(b.disks)), Counted(OmeToParts(b.fans)), Counted(OmeToParts(b.powerSupplies))))
  }

  method PushSubsystems(lower: string -> string, into: seq<Degraded>, subs: seq<OmePart>) returns (out: seq<Degraded>)
    ensures out == into + DegradedSubsystems(lower, subs)
  {
    hide SubsystemKind, NameOf;
    out := into;
    for i := 0 to |subs|
      invariant out == into + DegradedSubsystems(lower, subs[..i])
    {
      assert subs[..i + 1][..i] == subs[..i];
      var part := OmeToPart(subs[i]);
      if Listed(part) {
        out := out + [Degraded(SubsystemKind(lower, subs[i].name), NameOf(part, "SubSystem ", i), part.health)];
      }
    }
    assert subs[..|subs|] == subs;
  }

  /** The loops behind `DellSnapshot`. */
  method NormalizeDellOmeDevice(lower: string -> string, b: OmeBundle) returns (r: Result<Snapshot, string>)
    ensures r == DellSnapshot(lower, b)
  {
    hide DegradedParts, DegradedSubsystems, Counted, OmeToParts, DiskParts, WorstOf, SmartAlerts, Healths, Trim, MapOmeStatus;
    if Trim(b.ciCode) == "" {
      return Failure("ciCode");
    }
    if b.device.None? {
      return Failure("device");
    }
    var device := OmePart(Some(if b.device.value.name.Some? then b.device.value.name.value else "Device"), b.device.value.status);
    var degraded := PushParts([], System, "", OmeToParts([device]));
    degraded := PushSubsystems(lower, degraded, b.subSystems);
    degraded := PushParts(degraded, Fan, "Fan ", OmeToParts(b.fans));
    degraded := PushParts(degraded, PowerSupply, "PSU ", OmeToParts(b.powerSupplies));
    degraded := PushParts(degraded, Drive, "Disk ", DiskParts(b.disks));
    assert degraded == OmeDegraded(lower, b);
    var alerts := SmartAlerts(lower, b.disks);
    var overall := Worst([MapOmeStatus(b.device.value.status)] + Healths(degraded) + if alerts > 0 then [Warning] else []);
    var drives := CountParts(DiskParts(b.disks));
    var fans := CountParts(OmeToParts(b.fans));
    var powerSupplies := CountParts(OmeToParts(b.powerSupplies));
    r := Success(Snapshot(overall, degraded, alerts, drives, fans, powerSupplies));
  }

  method NormalizeDellOmeDevices(lower: string -> string, bundles: seq<OmeBundle>)
    returns (snapshots: seq<Snapshot>, rejected: seq<Rejection<string>>)
    ensures Partitions((b: OmeBundle) => DellSnapshot(lower, b), bundles, snapshots, rejected)
  {
    snapshots, rejected := Collect((b: OmeBundle) => DellSnapshot(lower, b), bundles);
  }

  lemma {:induction false} NoDriveSubsystems(lower: string -> string, subs: seq<OmePart>)
    ensures OfKind(DegradedSubsystems(lower, subs), Drive) == 0
  {
    if subs != [] {
      var i := |subs| - 1;
      NoDriveSubsystems(lower, subs[..i]);
      var d := DegradedSubsystems(lower, subs[..i]);
      var tail := DegradedSubsystems(lower, subs)[|d|..];
      assert DegradedSubsystems(lower, subs) == d + tail;
      OfKindAdds(d, tail, Drive);
      assert tail == [] || tail[..0] == [];
    }
  }

  /**
   * Conservation on Dell: drives exactly; fans and power supplies once the
   * degraded subsystem rollups of the same kind are added.
   */
  lemma DellConserves(lower: string -> string, b: OmeBundle)
    requires DellSnapshot(lower, b).Success?
    ensures var s := DellSnapshot(lower, b).value;
            && OfKind(s.degraded, Drive) == s.drives.total - s.drives.healthy
            && OfKind(s.degraded, Fan) == s.fans.total - s.fans.healthy + OfKind(DegradedSubsystems(lower, b.subSystems), Fan)
            && OfKind(s.degraded, PowerSupply) ==
               s.powerSupplies.total - s.powerSupplies.healthy + OfKind(DegradedSubsystems(lower, b.subSystems), PowerSupply)
  {
    hide OfKind, DegradedSubsystems, Counted, OmeDegraded, OmeToParts, DiskParts;
    NoDriveSubsystems(lower, b.subSystems);
    OfKindOfDell(lower, b, Drive);
    OfKindOfDell(lower, b, Fan);
    OfKindOfDell(lower, b, PowerSupply);
  }

  lemma OfKindOfDell(lower: string -> string, b: OmeBundle, k: Kind)
    requires b.device.Some? && (k == Fan || k == PowerSupply || k == Drive)
    ensures var c := Counted(if k == Fan then OmeToParts(b.fans) else if k == PowerSupply then OmeToParts(b.powerSupplies) else DiskParts(b.disks));
            OfKind(OmeDegraded(lower, b), k) == OfKind(DegradedSubsystems(lower, b.subSystems), k) + c.total - c.healthy
  {
    hide DegradedParts, DegradedSubsystems, Counted, OfKind, OmeToParts, DiskParts;
    var device := OmePart(Some(if b.device.value.name.Some? then b.device.value.name.value else "Device"), b.device.value.status);
    var p1, p3, p4, p5 := OmeToParts([device]), OmeToParts(b.fans), OmeToParts(b.powerSupplies), DiskParts(b.disks);
    var d1, d2, d3 := DegradedParts(System, "", p1), DegradedSubsystems(lower, b.subSystems), DegradedParts(Fan, "Fan ", p3);
    var d4, d5 := DegradedParts(PowerSupply, "PSU ", p4), DegradedParts(Drive, "Disk ", p5);
    assert OmeDegraded(lower, b) == d1 + d2 + d3 + d4 + d5;
    OfKindAdds(d1 + d2 + d3 + d4, d5, k);
    OfKindAdds(d1 + d2 + d3, d4, k);
    OfKindAdds(d1 + d2, d3, k);
    OfKindAdds(d1, d2, k);
    PartsConserved(System, "", p1, k);
    PartsConserved(Fan, "Fan ", p3, k);
    PartsConserved(PowerSupply, "PSU ", p4, k);
    PartsConserved(Drive, "Disk ", p5, k);
  }
}
