/**
 * What the health snapshots say in terms of what the hardware reported: which
 * parts are listed, how they are counted, and what the verdict is.
 */
module HealthExact {
  import opened Wrappers
  import opened Text
  import opened Health

  // ----- Lists and counts -----

  /** Part `i` is present and not healthy, and `d` tells so under its name or its number. */
  ghost predicate TellsOf(kind: Kind, prefix: string, parts: seq<Part>, i: int, d: Degraded) {
    && 0 <= i < |parts| && parts[i].counted && parts[i].health in {Unknown, Warning, Critical}
    && d == Degraded(kind, if parts[i].name.Some? then parts[i].name.value else prefix + NatToString(i), parts[i].health)
  }

  /** Exactly the present parts that are not healthy are listed. */
  lemma {:induction false} DegradedExact(kind: Kind, prefix: string, parts: seq<Part>, d: Degraded)
    ensures d in DegradedParts(kind, prefix, parts) <==> exists i :: TellsOf(kind, prefix, parts, i, d)
  {
    if parts != [] {
      var n := |parts| - 1;
      DegradedExact(kind, prefix, parts[..n], d);
      hide NatToString;
      var last := Degraded(kind, NameOf(parts[n], prefix, n), parts[n].health);
      assert TellsOf(kind, prefix, parts, n, d) <==> Listed(parts[n]) && d == last;
      assert DegradedParts(kind, prefix, parts) == DegradedParts(kind, prefix, parts[..n]) + if Listed(parts[n]) then [last] else [];
      hide DegradedParts, Listed;
      if d in DegradedParts(kind, prefix, parts[..n]) {
        var i :| TellsOf(kind, prefix, parts[..n], i, d);
        assert TellsOf(kind, prefix, parts, i, d);
      }
      if i :| TellsOf(kind, prefix, parts, i, d) && i < n {
        assert TellsOf(kind, prefix, parts[..n], i, d);
      }
    }
  }

  /** The positions at which `p` holds. */
  ghost function Where<T(!new)>(p: T -> bool, s: seq<T>): set<int> {
    set i | 0 <= i < |s| && p(s[i])
  }

  lemma WhereGrows<T(!new)>(p: T -> bool, s: seq<T>)
    requires s != []
    ensures |Where(p, s)| == |Where(p, s[..|s| - 1])| + if p(s[|s| - 1]) then 1 else 0
  {
    var n := |s| - 1;
    var front := Where(p, s[..n]);
    assert n !in front;
    assert Where(p, s) == if p(s[n]) then front + {n} else front;
  }

  /** The counts are those of the present parts and of the healthy ones among them. */
  lemma {:induction false} CountExact(parts: seq<Part>)
    ensures Counted(parts).total == |Where((p: Part) => p.counted, parts)|
    ensures Counted(parts).healthy == |Where((p: Part) => p.counted && p.health == Healthy, parts)|
  {
    if parts == [] {
      assert Where((p: Part) => p.counted, parts) == {} && Where((p: Part) => p.counted && p.health == Healthy, parts) == {};
    } else {
      CountExact(parts[..|parts| - 1]);
      WhereGrows((p: Part) => p.counted, parts);
      WhereGrows((p: Part) => p.counted && p.health == Healthy, parts);
      hide Where;
    }
  }

  /** Some present part is in state `s`. */
  ghost predicate SomePart(parts: seq<Part>, s: State) {
    exists i :: 0 <= i < |parts| && parts[i].counted && parts[i].health == s
  }

  lemma ListedState(kind: Kind, prefix: string, parts: seq<Part>, s: State)
    requires s in {Unknown, Warning, Critical}
    ensures s in Healths(DegradedParts(kind, prefix, parts)) <==> SomePart(parts, s)
  {
    var ds := DegradedParts(kind, prefix, parts);
    if s in Healths(ds) {
      var k :| 0 <= k < |ds| && Healths(ds)[k] == s;
      DegradedExact(kind, prefix, parts, ds[k]);
      assert ds[k] in ds;
      var i :| TellsOf(kind, prefix, parts, i, ds[k]);
      assert parts[i].counted && parts[i].health == s;
    }
    if SomePart(parts, s) {
      var i :| 0 <= i < |parts| && parts[i].counted && parts[i].health == s;
      var d := Degraded(kind, if parts[i].name.Some? then parts[i].name.value else prefix + NatToString(i), s);
      DegradedExact(kind, prefix, parts, d);
      assert TellsOf(kind, prefix, parts, i, d);
      var k :| 0 <= k < |ds| && ds[k] == d;
      assert Healths(ds)[k] == s;
    }
  }

  lemma HealthsAdd(a: seq<Degraded>, b: seq<Degraded>)
    ensures Healths(a + b) == Healths(a) + Healths(b)
  {
  }

  // ----- What a status says -----

  const HEALTHS: map<string, State> := map["ok" := Healthy, "warning" := Warning, "critical" := Critical]

  /** A health text, in any case and with any space around it. Everything else is unknown. */
  ghost function Read(lower: string -> string, text: Option<string>): State {
    if text.Some? && lower(Trim(text.value)) in HEALTHS then HEALTHS[lower(Trim(text.value))] else Unknown
  }

  lemma ReadExact(lower: string -> string, text: Option<string>)
    ensures StateOf(lower, text) == Read(lower, text)
  {
    hide Trim;
  }

  /** A part's own health. */
  ghost function Own(lower: string -> string, status: Option<Status>): State {
    if status.Some? then Read(lower, status.value.health) else Unknown
  }

  /** The rollup where there is one, the part's own health elsewhere. */
  ghost function Rolled(lower: string -> string, status: Option<Status>): State {
    if status.Some? && status.value.rollup.Some? then Read(lower, status.value.rollup) else Own(lower, status)
  }

  ghost predicate Absent(lower: string -> string, status: Option<Status>) {
    exists text :: status.Some? && status.value.state == Some(text) && lower(Trim(text)) == "absent"
  }

  lemma StatusExact(lower: string -> string, status: Option<Status>)
    ensures MapHealth(lower, status, false) == Own(lower, status) && MapHealth(lower, status, true) == Rolled(lower, status)
    ensures IsAbsent(lower, status) <==> Absent(lower, status)
  {
    if status.Some? {
      ReadExact(lower, status.value.health);
      ReadExact(lower, status.value.rollup);
    }
    hide Trim, StateOf, Read;
  }

  /** A part is there and in state `s`. */
  ghost predicate PartIs(lower: string -> string, status: Option<Status>, s: State) {
    !Absent(lower, status) && Own(lower, status) == s
  }

  /** A sensor is there, and over its critical threshold or else by its own word in state `s`. */
  ghost predicate SensorIs(lower: string -> string, t: Temperature, s: State) {
    && !Absent(lower, t.part.status)
    && s == if t.reading.Some? && t.critical.Some? && t.reading.value >= t.critical.value then Critical else Own(lower, t.part.status)
  }

  // ----- Redfish -----

  /** Some part of the bundle is in state `s`. */
  ghost predicate Ill(lower: string -> string, b: Bundle, s: State)
    requires b.system.Some?
  {
    || PartIs(lower, b.system.value.status, s) || PartIs(lower, b.processors, s) || PartIs(lower, b.memory, s)
    || (exists i :: 0 <= i < |b.temperatures| && SensorIs(lower, b.temperatures[i], s))
    || (exists i :: 0 <= i < |b.fans| && PartIs(lower, b.fans[i].status, s))
    || (exists i :: 0 <= i < |b.powerSupplies| && PartIs(lower, b.powerSupplies[i].status, s))
    || (exists i :: 0 <= i < |b.drives| && PartIs(lower, b.drives[i].part.status, s))
  }

  lemma PartsState(lower: string -> string, cs: seq<Component>, s: State)
    ensures SomePart(ToParts(lower, cs), s) <==> exists i :: 0 <= i < |cs| && PartIs(lower, cs[i].status, s)
  {
    forall i | 0 <= i < |cs| ensures ToParts(lower, cs)[i].counted && ToParts(lower, cs)[i].health == s <==> PartIs(lower, cs[i].status, s) {
      StatusExact(lower, cs[i].status);
      hide MapHealth, IsAbsent, Own, Rolled, Absent;
    }
    hide PartIs;
    if i :| 0 <= i < |cs| && PartIs(lower, cs[i].status, s) {
      assert ToParts(lower, cs)[i].counted && ToParts(lower, cs)[i].health == s;
    }
  }

  lemma SensorsState(lower: string -> string, ts: seq<Temperature>, s: State)
    ensures SomePart(SensorParts(lower, ts), s) <==> exists i :: 0 <= i < |ts| && SensorIs(lower, ts[i], s)
  {
    forall i | 0 <= i < |ts| ensures SensorParts(lower, ts)[i].counted && SensorParts(lower, ts)[i].health == s <==> SensorIs(lower, ts[i], s) {
      StatusExact(lower, ts[i].part.status);
      hide MapHealth, IsAbsent, Own, Rolled, Absent;
    }
    hide SensorIs;
    if i :| 0 <= i < |ts| && SensorIs(lower, ts[i], s) {
      assert SensorParts(lower, ts)[i].counted && SensorParts(lower, ts)[i].health == s;
    }
  }

  lemma DrivesState(lower: string -> string, ds: seq<DriveComponent>, s: State)
    ensures SomePart(DriveParts(lower, ds), s) <==> exists i :: 0 <= i < |ds| && PartIs(lower, ds[i].part.status, s)
  {
    forall i | 0 <= i < |ds| ensures DriveParts(lower, ds)[i].counted && DriveParts(lower, ds)[i].health == s <==> PartIs(lower, ds[i].part.status, s) {
      StatusExact(lower, ds[i].part.status);
      hide MapHealth, IsAbsent, Own, Rolled, Absent;
    }
    hide PartIs;
    if i :| 0 <= i < |ds| && PartIs(lower, ds[i].part.status, s) {
      assert DriveParts(lower, ds)[i].counted && DriveParts(lower, ds)[i].health == s;
    }
  }

  lemma OneState(lower: string -> string, c: Component, s: State)
    ensures SomePart(ToParts(lower, [c]), s) <==> PartIs(lower, c.status, s)
  {
    hide PartIs, SomePart, ToParts;
    PartsState(lower, [c], s);
    if PartIs(lower, c.status, s) { assert PartIs(lower, [c][0].status, s); }
  }

  lemma RedfishState(lower: string -> string, b: Bundle, s: State)
    requires b.system.Some? && s in {Unknown, Warning, Critical}
    ensures s in Healths(RedfishDegraded(lower, b)) <==> Ill(lower, b, s)
  {
    hide DegradedParts, ToParts, SensorParts, DriveParts, PartIs, SensorIs, SomePart, Healths;
    var name := if b.system.value.name.Some? then b.system.value.name.value else "System";
    var c1, c2, c3 := Component(Some(name), b.system.value.status), Component(Some("ProcessorSummary"), b.processors), Component(Some("MemorySummary"), b.memory);
    OneState(lower, c1, s);
    OneState(lower, c2, s);
    OneState(lower, c3, s);
    SensorsState(lower, b.temperatures, s);
    PartsState(lower, b.fans, s);
    PartsState(lower, b.powerSupplies, s);
    DrivesState(lower, b.drives, s);
    ListedState(System, "System", ToParts(lower, [c1]), s);
    ListedState(Processor, "", ToParts(lower, [c2]), s);
    ListedState(Memory, "", ToParts(lower, [c3]), s);
    ListedState(TemperatureSensor, "Temperature ", SensorParts(lower, b.temperatures), s);
    ListedState(Fan, "Fan ", ToParts(lower, b.fans), s);
    ListedState(PowerSupply, "PSU ", ToParts(lower, b.powerSupplies), s);
    ListedState(Drive, "Drive ", DriveParts(lower, b.drives), s);
    var d1, d2, d3 := DegradedParts(System, "System", ToParts(lower, [c1])), DegradedParts(Processor, "", ToParts(lower, [c2])), DegradedParts(Memory, "", ToParts(lower, [c3]));
    var d4, d5 := DegradedParts(TemperatureSensor, "Temperature ", SensorParts(lower, b.temperatures)), DegradedParts(Fan, "Fan ", ToParts(lower, b.fans));
    var d6, d7 := DegradedParts(PowerSupply, "PSU ", ToParts(lower, b.powerSupplies)), DegradedParts(Drive, "Drive ", DriveParts(lower, b.drives));
    assert RedfishDegraded(lower, b) == d1 + d2 + d3 + d4 + d5 + d6 + d7;
    SevenHealths(d1, d2, d3, d4, d5, d6, d7);
  }

  lemma SevenHealths(a: seq<Degraded>, b: seq<Degraded>, c: seq<Degraded>, d: seq<Degraded>, e: seq<Degraded>, f: seq<Degraded>, g: seq<Degraded>)
    ensures Healths(a + b + c + d + e + f + g) == Healths(a) + Healths(b) + Healths(c) + Healths(d) + Healths(e) + Healths(f) + Healths(g)
  {
    HealthsAdd(a, b);
    HealthsAdd(a + b, c);
    HealthsAdd(a + b + c, d);
    HealthsAdd(a + b + c + d, e);
    HealthsAdd(a + b + c + d + e, f);
    HealthsAdd(a + b + c + d + e + f, g);
    hide Healths;
  }

  ghost predicate FailurePredicted(b: Bundle) {
    exists i :: 0 <= i < |b.drives| && b.drives[i].failurePredicted
  }

  lemma PredictedExact(b: Bundle)
    ensures Predicted(b.drives) > 0 <==> FailurePredicted(b)
  {
    var p := (d: DriveComponent) => d.failurePredicted;
    var r := Filter(p, b.drives);
    if r != [] { assert r[0] in r; var i :| 0 <= i < |b.drives| && b.drives[i] == r[0]; }
    if FailurePredicted(b) { var i :| 0 <= i < |b.drives| && b.drives[i].failurePredicted; assert b.drives[i] in r; }
  }

  /** The four verdicts, from what rolls up, what is ill and what is predicted to fail. */
  ghost predicate Judged(w: State, rollup: State, critical: bool, warning: bool) {
    && (w == Critical <==> rollup == Critical || critical)
    && (w == Warning <==> rollup != Critical && !critical && (rollup == Warning || warning))
    && (w == Healthy <==> rollup == Healthy && !critical && !warning)
    && (w == Unknown <==> rollup == Unknown && !critical && !warning)
  }

  lemma JudgedFrom(rollup: State, rest: seq<State>)
    requires rollup != Maintenance && Healthy !in rest && Maintenance !in rest
    ensures Judged(WorstOf([rollup] + rest), rollup, Critical in rest, Warning in rest)
  {
    var states := [rollup] + rest;
    WorstExact(states);
    hide WorstOf;
    assert states[0] == rollup && forall s :: s in states <==> s == rollup || s in rest;
    assert forall i :: 0 <= i < |states| ==> states[i] in states;
    var w := WorstOf(states);
    if w == Healthy {
      var k :| FirstKnownAt(states, k, w);
    }
  }

  /** The same, with a warning in between when a failure is predicted. */
  lemma JudgedWith(rollup: State, parts: seq<State>, predicted: bool, extras: seq<State>)
    requires rollup != Maintenance && Healthy !in parts + extras && Maintenance !in parts + extras
    ensures Judged(WorstOf([rollup] + parts + (if predicted then [Warning] else []) + extras), rollup,
                   Critical in parts || Critical in extras, Warning in parts || predicted || Warning in extras)
  {
    hide WorstOf;
    var rest := parts + (if predicted then [Warning] else []) + extras;
    assert [rollup] + parts + (if predicted then [Warning] else []) + extras == [rollup] + rest;
    JudgedFrom(rollup, rest);
  }

  lemma ListedAreIll(kind: Kind, prefix: string, parts: seq<Part>, d: Degraded)
    requires d in DegradedParts(kind, prefix, parts)
    ensures d.health in {Unknown, Warning, Critical}
  {
    DegradedExact(kind, prefix, parts, d);
  }

  lemma RedfishAreIll(lower: string -> string, b: Bundle)
    requires b.system.Some?
    ensures Healthy !in Healths(RedfishDegraded(lower, b)) && Maintenance !in Healths(RedfishDegraded(lower, b))
  {
    NoRedfishFit(lower, b, Healthy);
    NoRedfishFit(lower, b, Maintenance);
  }

  lemma NoRedfishFit(lower: string -> string, b: Bundle, s: State)
    requires b.system.Some? && s in {Healthy, Maintenance}
    ensures s !in Healths(RedfishDegraded(lower, b))
  {
    hide DegradedParts, ToParts, SensorParts, DriveParts, Healths;
    var name := if b.system.value.name.Some? then b.system.value.name.value else "System";
    var p1 := ToParts(lower, [Component(Some(name), b.system.value.status)]);
    var p2, p3 := ToParts(lower, [Component(Some("ProcessorSummary"), b.processors)]), ToParts(lower, [Component(Some("MemorySummary"), b.memory)]);
    var p4, p5, p6, p7 := SensorParts(lower, b.temperatures), ToParts(lower, b.fans), ToParts(lower, b.powerSupplies), DriveParts(lower, b.drives);
    NoneFit(System, "System", p1, s);
    NoneFit(Processor, "", p2, s);
    NoneFit(Memory, "", p3, s);
    NoneFit(TemperatureSensor, "Temperature ", p4, s);
    NoneFit(Fan, "Fan ", p5, s);
    NoneFit(PowerSupply, "PSU ", p6, s);
    NoneFit(Drive, "Drive ", p7, s);
    SevenHealths(DegradedParts(System, "System", p1), DegradedParts(Processor, "", p2), DegradedParts(Memory, "", p3),
                 DegradedParts(TemperatureSensor, "Temperature ", p4), DegradedParts(Fan, "Fan ", p5),
                 DegradedParts(PowerSupply, "PSU ", p6), DegradedParts(Drive, "Drive ", p7));
  }

  /**
   * The Redfish verdict, from what the hardware reported: CRITICAL if the rollup
   * or some present part is; else WARNING if the rollup, some present part or a
   * predicted drive failure says so; else what the rollup says.
   */
  lemma RedfishVerdict(lower: string -> string, b: Bundle)
    requires b.system.Some?
    ensures Judged(WorstOf(HealthInputs(lower, b, RedfishDegraded(lower, b))), Rolled(lower, b.system.value.status),
                   Ill(lower, b, Critical), Ill(lower, b, Warning) || FailurePredicted(b))
  {
    RedfishState(lower, b, Critical);
    RedfishState(lower, b, Warning);
    RedfishAreIll(lower, b);
    PredictedExact(b);
    StatusExact(lower, b.system.value.status);
    hide WorstOf, Healths, RedfishDegraded, Ill, MapHealth, Rolled, Predicted, FailurePredicted, Judged;
    var d := RedfishDegraded(lower, b);
    assert HealthInputs(lower, b, d) + [] == HealthInputs(lower, b, d) && Healths(d) + [] == Healths(d);
    JudgedWith(MapHealth(lower, b.system.value.status, true), Healths(d), Predicted(b.drives) > 0, []);
  }

  // ----- HPE iLO -----

  /** How a subsystem's rollup is listed. */
  ghost function RollupEntry(lower: string -> string, subsystem: (string, Kind), status: Status): Degraded {
    Degraded(subsystem.1, "Hpe.AggregateHealthStatus." + subsystem.0, Rolled(lower, Some(status)))
  }

  /** Subsystem `n` was not flagged by the base and rolls up as a warning or worse, and `d` tells so. */
  ghost predicate RollsUp(lower: string -> string, subsystems: seq<(string, Kind)>, aggregate: map<string, Status>, flagged: set<Kind>, n: int, d: Degraded) {
    && 0 <= n < |subsystems| && subsystems[n].1 !in flagged && subsystems[n].0 in aggregate
    && d == RollupEntry(lower, subsystems[n], aggregate[subsystems[n].0]) && d.health in {Warning, Critical}
  }

  /** Exactly those rollups are added. */
  lemma {:induction false} RollupExact(lower: string -> string, subsystems: seq<(string, Kind)>, aggregate: map<string, Status>, flagged: set<Kind>, d: Degraded)
    ensures d in RollupParts(lower, subsystems, aggregate, flagged) <==> exists n :: RollsUp(lower, subsystems, aggregate, flagged, n, d)
  {
    hide RollupParts, RollsUp;
    if subsystems == [] {
      NoRollups(lower, aggregate, flagged, d);
    } else {
      var n := |subsystems| - 1;
      RollupExact(lower, subsystems[..n], aggregate, flagged, d);
      LastRollup(lower, subsystems, aggregate, flagged, d);
      if d in RollupParts(lower, subsystems[..n], aggregate, flagged) {
        var i :| RollsUp(lower, subsystems[..n], aggregate, flagged, i, d);
        assert i != n by { Bounded(lower, subsystems[..n], aggregate, flagged, i, d); }
        RollsEarlier(lower, subsystems, aggregate, flagged, i, d);
      }
      if i :| RollsUp(lower, subsystems, aggregate, flagged, i, d) && i != n {
        RollsEarlier(lower, subsystems, aggregate, flagged, i, d);
      }
    }
  }

  lemma Bounded(lower: string -> string, subsystems: seq<(string, Kind)>, aggregate: map<string, Status>, flagged: set<Kind>, i: int, d: Degraded)
    requires RollsUp(lower, subsystems, aggregate, flagged, i, d)
    ensures 0 <= i < |subsystems|
  {
  }

  lemma NoRollups(lower: string -> string, aggregate: map<string, Status>, flagged: set<Kind>, d: Degraded)
    ensures RollupParts(lower, [], aggregate, flagged) == [] && forall n :: !RollsUp(lower, [], aggregate, flagged, n, d)
  {
  }

  lemma LastRollup(lower: string -> string, subsystems: seq<(string, Kind)>, aggregate: map<string, Status>, flagged: set<Kind>, d: Degraded)
    requires subsystems != []
    ensures d in RollupParts(lower, subsystems, aggregate, flagged) <==>
            d in RollupParts(lower, subsystems[..|subsystems| - 1], aggregate, flagged) || RollsUp(lower, subsystems, aggregate, flagged, |subsystems| - 1, d)
  {
    var n := |subsystems| - 1;
    var field := subsystems[n].0;
    StatusExact(lower, if field in aggregate then Some(aggregate[field]) else None);
    NothingRolls(lower);
    hide MapHealth, Rolled;
  }

  lemma RollsEarlier(lower: string -> string, subsystems: seq<(string, Kind)>, aggregate: map<string, Status>, flagged: set<Kind>, i: int, d: Degraded)
    requires subsystems != [] && i != |subsystems| - 1
    ensures RollsUp(lower, subsystems[..|subsystems| - 1], aggregate, flagged, i, d) <==> RollsUp(lower, subsystems, aggregate, flagged, i, d)
  {
    hide RollupEntry;
  }

  lemma NothingRolls(lower: string -> string)
    ensures MapHealth(lower, None, true) == Unknown
  {
  }

  const ROLLUPS: map<string, Kind> := map[
    "BiosOrHardwareHealth" := System, "Fans" := Fan, "Memory" := Memory, "Network" := Network, "PowerSupplies" := PowerSupply,
    "Processors" := Processor, "SmartStorageBattery" := System, "Storage" := StorageController, "Temperatures" := TemperatureSensor]

  lemma AggregatesExact(field: string, kind: Kind)
    ensures (exists n :: 0 <= n < |AGGREGATES| && AGGREGATES[n] == (field, kind)) <==> field in ROLLUPS && ROLLUPS[field] == kind
  {
    forall n | 0 <= n < |AGGREGATES| ensures AGGREGATES[n].0 in ROLLUPS && ROLLUPS[AGGREGATES[n].0] == AGGREGATES[n].1 {
      AggregateListed(n);
    }
    if field in ROLLUPS && ROLLUPS[field] == kind {
      var n := RollupFound(field);
    }
  }

  lemma AggregateListed(n: nat)
    requires n < |AGGREGATES|
    ensures AGGREGATES[n].0 in ROLLUPS && ROLLUPS[AGGREGATES[n].0] == AGGREGATES[n].1
  {
    assert |AGGREGATES| == 9;
    assert n == 0 || n == 1 || n == 2 || n == 3 || n == 4 || n == 5 || n == 6 || n == 7 || n == 8;
  }

  lemma RollupFound(field: string) returns (n: nat)
    requires field in ROLLUPS
    ensures n < |AGGREGATES| && AGGREGATES[n] == (field, ROLLUPS[field])
  {
    n := if field == "BiosOrHardwareHealth" then 0 else if field == "Fans" then 1 else if field == "Memory" then 2
         else if field == "Network" then 3 else if field == "PowerSupplies" then 4 else if field == "Processors" then 5
         else if field == "SmartStorageBattery" then 6 else if field == "Storage" then 7 else 8;
  }

  /** An unflagged subsystem of the aggregate rolls up as `s`. */
  ghost predicate RollupIs(lower: string -> string, aggregate: map<string, Status>, flagged: set<Kind>, s: State) {
    exists field :: field in ROLLUPS && ROLLUPS[field] !in flagged && field in aggregate && Rolled(lower, Some(aggregate[field])) == s
  }

  /** What the HPE extras say: an unflagged subsystem or a battery is in state `s`. */
  ghost predicate ExtraIll(lower: string -> string, b: HpeBundle, flagged: set<Kind>, s: State) {
    || (b.aggregate.Some? && s in {Warning, Critical} && RollupIs(lower, b.aggregate.value, flagged, s))
    || (exists i :: 0 <= i < |b.batteries| && Rolled(lower, b.batteries[i].status) == s)
  }

  lemma BatteriesState(lower: string -> string, batteries: seq<Battery>, s: State)
    ensures SomePart(BatteryParts(lower, batteries), s) <==> exists i :: 0 <= i < |batteries| && Rolled(lower, batteries[i].status) == s
  {
    var parts := BatteryParts(lower, batteries);
    forall i | 0 <= i < |batteries| ensures parts[i].counted && (parts[i].health == s <==> Rolled(lower, batteries[i].status) == s) {
      StatusExact(lower, batteries[i].status);
      hide MapHealth, Rolled;
    }
    hide Rolled;
    if i :| 0 <= i < |batteries| && Rolled(lower, batteries[i].status) == s {
      assert parts[i].counted && parts[i].health == s;
    }
  }

  lemma RollupState(lower: string -> string, aggregate: map<string, Status>, flagged: set<Kind>, s: State)
    ensures s in Healths(RollupParts(lower, AGGREGATES, aggregate, flagged)) <==> s in {Warning, Critical} && RollupIs(lower, aggregate, flagged, s)
  {
    hide RollupParts, Rolled, Healths;
    var ds := RollupParts(lower, AGGREGATES, aggregate, flagged);
    HealthIn(ds, s);
    if d :| d in ds && d.health == s {
      RollupExact(lower, AGGREGATES, aggregate, flagged, d);
      var n :| RollsUp(lower, AGGREGATES, aggregate, flagged, n, d);
      AggregatesExact(AGGREGATES[n].0, AGGREGATES[n].1);
    }
    if s in {Warning, Critical} && RollupIs(lower, aggregate, flagged, s) {
      var field :| field in ROLLUPS && ROLLUPS[field] !in flagged && field in aggregate && Rolled(lower, Some(aggregate[field])) == s;
      AggregatesExact(field, ROLLUPS[field]);
      var n :| 0 <= n < |AGGREGATES| && AGGREGATES[n] == (field, ROLLUPS[field]);
      var d := RollupEntry(lower, AGGREGATES[n], aggregate[field]);
      RollupExact(lower, AGGREGATES, aggregate, flagged, d);
      assert RollsUp(lower, AGGREGATES, aggregate, flagged, n, d);
    }
  }

  lemma ExtrasState(lower: string -> string, b: HpeBundle, d: seq<Degraded>, s: State)
    ensures s in {Unknown, Warning, Critical} ==> (s in Healths(HpeExtras(lower, b, d)) <==> ExtraIll(lower, b, FlaggedKinds(d), s))
    ensures s in {Healthy, Maintenance} ==> s !in Healths(HpeExtras(lower, b, d))
  {
    hide RollupParts, DegradedParts, BatteryParts, FlaggedKinds, Rolled, Healths, SomePart, RollupIs;
    var rollups := if b.aggregate.Some? then RollupParts(lower, AGGREGATES, b.aggregate.value, FlaggedKinds(d)) else [];
    var batteries := DegradedParts(System, "SmartStorageBattery ", BatteryParts(lower, b.batteries));
    HealthsAdd(rollups, batteries);
    if b.aggregate.Some? { RollupState(lower, b.aggregate.value, FlaggedKinds(d), s); } else { NoHealths(); }
    if s in {Unknown, Warning, Critical} {
      ListedState(System, "SmartStorageBattery ", BatteryParts(lower, b.batteries), s);
      BatteriesState(lower, b.batteries, s);
    } else {
      NoneFit(System, "SmartStorageBattery ", BatteryParts(lower, b.batteries), s);
    }
  }

  lemma NoHealths()
    ensures Healths([]) == []
  {
  }

  lemma NoneFit(kind: Kind, prefix: string, parts: seq<Part>, s: State)
    requires s in {Healthy, Maintenance}
    ensures s !in Healths(DegradedParts(kind, prefix, parts))
  {
    var ds := DegradedParts(kind, prefix, parts);
    forall k | 0 <= k < |ds| ensures ds[k].health != s {
      assert ds[k] in ds;
      ListedAreIll(kind, prefix, parts, ds[k]);
    }
  }

  /** The HPE verdict: that of the base, with the unflagged subsystem rollups and the batteries among what may be ill. */
  lemma HpeVerdict(lower: string -> string, b: HpeBundle)
    requires b.base.system.Some?
    ensures var d := RedfishDegraded(lower, b.base);
            var flagged := FlaggedKinds(d);
            Judged(WorstOf(HealthInputs(lower, b.base, d) + Healths(HpeExtras(lower, b, d))), Rolled(lower, b.base.system.value.status),
                   Ill(lower, b.base, Critical) || ExtraIll(lower, b, flagged, Critical),
                   Ill(lower, b.base, Warning) || FailurePredicted(b.base) || ExtraIll(lower, b, flagged, Warning))
  {
    var d := RedfishDegraded(lower, b.base);
    RedfishState(lower, b.base, Critical);
    RedfishState(lower, b.base, Warning);
    RedfishAreIll(lower, b.base);
    ExtrasState(lower, b, d, Critical);
    ExtrasState(lower, b, d, Warning);
    ExtrasState(lower, b, d, Healthy);
    ExtrasState(lower, b, d, Maintenance);
    PredictedExact(b.base);
    StatusExact(lower, b.base.system.value.status);
    hide WorstOf, Healths, RedfishDegraded, HpeExtras, FlaggedKinds, Ill, ExtraIll, MapHealth, Rolled, Predicted, FailurePredicted, Judged;
    JudgedWith(MapHealth(lower, b.base.system.value.status, true), Healths(d), Predicted(b.base.drives) > 0, Healths(HpeExtras(lower, b, d)));
  }

  // ----- Dell OME -----

  const CODES: map<int, State> := map[
    1000 := Healthy, 3 := Healthy, 3000 := Warning, 4 := Warning, 4000 := Critical, 5 := Critical, 6 := Critical]

  const KINDS: map<string, Kind> := map[
    "temperature" := TemperatureSensor, "fan" := Fan, "cooling" := Fan, "memory" := Memory, "processor" := Processor, "cpu" := Processor,
    "storage" := StorageController, "powersupply" := PowerSupply, "power supply" := PowerSupply, "network" := Network, "nic" := Network]

  ghost function Code(status: Option<int>): State {
    if status.Some? && status.value in CODES then CODES[status.value] else Unknown
  }

  lemma CodeExact(status: Option<int>)
    ensures MapOmeStatus(status) == Code(status)
  {
  }

  lemma KindExact(lower: string -> string, name: Option<string>)
    ensures SubsystemKind(lower, name) ==
            var n := lower(if name.Some? then Trim(name.value) else ""); if n in KINDS then KINDS[n] else System
  {
    hide Trim;
  }

  /** How subsystem `i` is listed: under the kind its name maps to, with its name or its number. */
  ghost function SubsystemEntry(lower: string -> string, sub: OmePart, i: nat): Degraded {
    Degraded(SubsystemKind(lower, sub.name), if sub.name.Some? then sub.name.value else "SubSystem " + NatToString(i), Code(sub.status))
  }

  ghost predicate SubsystemTells(lower: string -> string, subs: seq<OmePart>, i: int, d: Degraded) {
    0 <= i < |subs| && Code(subs[i].status) != Healthy && d == SubsystemEntry(lower, subs[i], i)
  }

  /** Exactly the subsystems that are not healthy are listed. */
  lemma {:induction false} SubsystemsExact(lower: string -> string, subs: seq<OmePart>, d: Degraded)
    ensures d in DegradedSubsystems(lower, subs) <==> exists i :: SubsystemTells(lower, subs, i, d)
  {
    hide DegradedSubsystems, SubsystemEntry, Code, SubsystemTells;
    if subs == [] {
      NoSubsystems(lower, d);
    } else {
      var n := |subs| - 1;
      var front := DegradedSubsystems(lower, subs[..n]);
      SubsystemsExact(lower, subs[..n], d);
      LastSubsystem(lower, subs);
      TellsLast(lower, subs, d);
      if d in front {
        var i :| SubsystemTells(lower, subs[..n], i, d);
        TellsEarlier(lower, subs, i, d);
      }
      if i :| SubsystemTells(lower, subs, i, d) && i < n {
        TellsEarlier(lower, subs, i, d);
      }
    }
  }

  lemma NoSubsystems(lower: string -> string, d: Degraded)
    ensures DegradedSubsystems(lower, []) == [] && forall i :: !SubsystemTells(lower, [], i, d)
  {
  }

  lemma TellsLast(lower: string -> string, subs: seq<OmePart>, d: Degraded)
    requires subs != []
    ensures var n := |subs| - 1;
            && (SubsystemTells(lower, subs, n, d) <==> Code(subs[n].status) != Healthy && d == SubsystemEntry(lower, subs[n], n))
            && forall i :: SubsystemTells(lower, subs, i, d) ==> i <= n
  {
  }

  lemma TellsEarlier(lower: string -> string, subs: seq<OmePart>, i: int, d: Degraded)
    requires subs != [] && (i < |subs| - 1 || SubsystemTells(lower, subs[..|subs| - 1], i, d))
    ensures SubsystemTells(lower, subs[..|subs| - 1], i, d) <==> SubsystemTells(lower, subs, i, d)
  {
    hide SubsystemEntry, Code;
  }

  lemma LastSubsystem(lower: string -> string, subs: seq<OmePart>)
    requires subs != []
    ensures var n := |subs| - 1;
            DegradedSubsystems(lower, subs) == DegradedSubsystems(lower, subs[..n]) +
              if Code(subs[n].status) != Healthy then [SubsystemEntry(lower, subs[n], n)] else []
  {
    hide SubsystemKind, NatToString;
    CodeExact(subs[|subs| - 1].status);
    hide Code, MapOmeStatus;
  }

  /** Some part of the device is in state `s`. */
  ghost predicate OmeIll(b: OmeBundle, s: State)
    requires b.device.Some?
  {
    || Code(b.device.value.status) == s
    || (exists i :: 0 <= i < |b.subSystems| && Code(b.subSystems[i].status) == s)
    || (exists i :: 0 <= i < |b.fans| && Code(b.fans[i].status) == s)
    || (exists i :: 0 <= i < |b.powerSupplies| && Code(b.powerSupplies[i].status) == s)
    || (exists i :: 0 <= i < |b.disks| && Code(b.disks[i].part.status) == s)
  }

  /** The disk's failure state speaks of something present, in any case. */
  ghost predicate Alerting(lower: string -> string, disk: OmeDisk) {
    exists before, after :: lower(Trim(disk.predictiveFailureState)) == before + "present" + after
  }

  lemma AlertingExact(lower: string -> string, disk: OmeDisk)
    ensures SmartAlertPresent(lower, disk) <==> Alerting(lower, disk)
  {
    hide Trim;
    var s := lower(Trim(disk.predictiveFailureState));
    if SmartAlertPresent(lower, disk) {
      var i :| 0 <= i <= |s| - 7 && s[i..][..7] == "present";
      assert s == s[..i] + s[i..][..7] + s[i + 7..];
    }
    if before, after :| s == before + "present" + after {
      assert s[|before|..][..7] == "present";
    }
  }

  ghost predicate SmartAlert(lower: string -> string, b: OmeBundle) {
    exists i :: 0 <= i < |b.disks| && Alerting(lower, b.disks[i])
  }

  lemma OmeState(ps: seq<OmePart>, s: State)
    ensures SomePart(OmeToParts(ps), s) <==> exists i :: 0 <= i < |ps| && Code(ps[i].status) == s
  {
    forall i | 0 <= i < |ps| ensures OmeToParts(ps)[i].counted && OmeToParts(ps)[i].health == Code(ps[i].status) { CodeExact(ps[i].status); }
    hide Code;
    if i :| 0 <= i < |ps| && Code(ps[i].status) == s { assert OmeToParts(ps)[i].health == s; }
  }

  lemma DisksState(ds: seq<OmeDisk>, s: State)
    ensures SomePart(DiskParts(ds), s) <==> exists i :: 0 <= i < |ds| && Code(ds[i].part.status) == s
  {
    forall i | 0 <= i < |ds| ensures DiskParts(ds)[i].counted && DiskParts(ds)[i].health == Code(ds[i].part.status) { CodeExact(ds[i].part.status); }
    hide Code;
    if i :| 0 <= i < |ds| && Code(ds[i].part.status) == s { assert DiskParts(ds)[i].health == s; }
  }

  lemma SubsystemsState(lower: string -> string, subs: seq<OmePart>, s: State)
    requires s != Healthy
    ensures s in Healths(DegradedSubsystems(lower, subs)) <==> exists i :: 0 <= i < |subs| && Code(subs[i].status) == s
    ensures Healthy !in Healths(DegradedSubsystems(lower, subs))
  {
    hide DegradedSubsystems, Code, SubsystemKind, NatToString, Healths;
    var ds := DegradedSubsystems(lower, subs);
    forall d | d in ds ensures exists i :: SubsystemTells(lower, subs, i, d) {
      SubsystemsExact(lower, subs, d);
    }
    forall i | 0 <= i < |subs| && Code(subs[i].status) == s ensures SubsystemEntry(lower, subs[i], i) in ds {
      SubsystemsExact(lower, subs, SubsystemEntry(lower, subs[i], i));
      assert SubsystemTells(lower, subs, i, SubsystemEntry(lower, subs[i], i));
    }
    HealthIn(ds, s);
    HealthIn(ds, Healthy);
  }

  lemma HealthIn(ds: seq<Degraded>, s: State)
    ensures s in Healths(ds) <==> exists d :: d in ds && d.health == s
  {
    if s in Healths(ds) {
      var k :| 0 <= k < |ds| && Healths(ds)[k] == s;
      assert ds[k] in ds;
    }
    if d :| d in ds && d.health == s {
      var k :| 0 <= k < |ds| && ds[k] == d;
      assert Healths(ds)[k] == s;
    }
  }

  lemma DellState(lower: string -> string, b: OmeBundle, s: State)
    requires b.device.Some?
    ensures s in {Warning, Critical} ==> (s in Healths(OmeDegraded(lower, b)) <==> OmeIll(b, s))
    ensures s in {Healthy, Maintenance} ==> s !in Healths(OmeDegraded(lower, b))
  {
    hide DegradedParts, DegradedSubsystems, OmeToParts, DiskParts, Healths, SomePart, Code;
    var device := OmePart(Some(if b.device.value.name.Some? then b.device.value.name.value else "Device"), b.device.value.status);
    var p1, p3, p4, p5 := OmeToParts([device]), OmeToParts(b.fans), OmeToParts(b.powerSupplies), DiskParts(b.disks);
    var d1, d2, d3 := DegradedParts(System, "", p1), DegradedSubsystems(lower, b.subSystems), DegradedParts(Fan, "Fan ", p3);
    var d4, d5 := DegradedParts(PowerSupply, "PSU ", p4), DegradedParts(Drive, "Disk ", p5);
    assert OmeDegraded(lower, b) == d1 + d2 + d3 + d4 + d5;
    hide OmeDegraded;
    NoHealths();
    SevenHealths(d1, d2, d3, d4, d5, [], []);
    assert d1 + d2 + d3 + d4 + d5 + [] + [] == d1 + d2 + d3 + d4 + d5;
    if s in {Warning, Critical} {
      SubsystemsState(lower, b.subSystems, s);
      OmeState([device], s); OmeState(b.fans, s); OmeState(b.powerSupplies, s); DisksState(b.disks, s);
      ListedState(System, "", p1, s); ListedState(Fan, "Fan ", p3, s); ListedState(PowerSupply, "PSU ", p4, s); ListedState(Drive, "Disk ", p5, s);
      assert (exists i :: 0 <= i < |[device]| && Code([device][i].status) == s) <==> Code(device.status) == s by {
        if Code(device.status) == s { assert Code([device][0].status) == s; }
      }
    } else if s in {Healthy, Maintenance} {
      SubsystemsState(lower, b.subSystems, if s == Healthy then Unknown else s);
      NoMaintenanceCode(b.subSystems);
      NoneFit(System, "", p1, s); NoneFit(Fan, "Fan ", p3, s); NoneFit(PowerSupply, "PSU ", p4, s); NoneFit(Drive, "Disk ", p5, s);
    }
  }

  lemma NoMaintenanceCode(subs: seq<OmePart>)
    ensures forall i :: 0 <= i < |subs| ==> Code(subs[i].status) != Maintenance
  {
  }

  lemma SmartExact(lower: string -> string, b: OmeBundle)
    ensures SmartAlerts(lower, b.disks) > 0 <==> SmartAlert(lower, b)
  {
    hide SmartAlertPresent, Alerting;
    var p := (d: OmeDisk) => SmartAlertPresent(lower, d);
    var r := Filter(p, b.disks);
    forall i | 0 <= i < |b.disks| ensures SmartAlertPresent(lower, b.disks[i]) <==> Alerting(lower, b.disks[i]) {
      AlertingExact(lower, b.disks[i]);
    }
    if r != [] { assert r[0] in r; var i :| 0 <= i < |b.disks| && b.disks[i] == r[0]; }
    if SmartAlert(lower, b) { var i :| 0 <= i < |b.disks| && Alerting(lower, b.disks[i]); assert b.disks[i] in r; }
  }

  /** The Dell verdict, from the device's own code, its parts and subsystems, and SMART alerts. */
  lemma DellVerdict(lower: string -> string, b: OmeBundle)
    requires DellSnapshot(lower, b).Success?
    ensures Judged(DellSnapshot(lower, b).value.overall, Code(b.device.value.status), OmeIll(b, Critical), OmeIll(b, Warning) || SmartAlert(lower, b))
  {
    var d, code := OmeDegraded(lower, b), MapOmeStatus(b.device.value.status);
    DellState(lower, b, Critical);
    DellState(lower, b, Warning);
    DellState(lower, b, Healthy);
    DellState(lower, b, Maintenance);
    SmartExact(lower, b);
    CodeExact(b.device.value.status);
    hide WorstOf, Healths, OmeDegraded, OmeIll, MapOmeStatus, Code, SmartAlerts, SmartAlert, Judged, Trim, Counted, OmeToParts, DiskParts;
    var inputs := [code] + Healths(d) + if SmartAlerts(lower, b.disks) > 0 then [Warning] else [];
    assert inputs + [] == inputs && Healths(d) + [] == Healths(d);
    JudgedWith(code, Healths(d), SmartAlerts(lower, b.disks) > 0, []);
  }

  // ----- Predictions and names -----

  lemma {:induction false} FilterCount<T(!new)>(p: T -> bool, s: seq<T>)
    ensures |Filter(p, s)| == |Where(p, s)|
  {
    if s == [] {
      assert Where(p, s) == {};
    } else {
      FilterCount(p, s[..|s| - 1]);
      WhereGrows(p, s);
      hide Where;
    }
  }

  /** As many failures are predicted as drives predict their own, and as disks carry a SMART alert. */
  lemma PredictionsExact(lower: string -> string, drives: seq<DriveComponent>, disks: seq<OmeDisk>)
    ensures Predicted(drives) == |Where((d: DriveComponent) => d.failurePredicted, drives)|
    ensures SmartAlerts(lower, disks) == |Where((d: OmeDisk) => SmartAlertPresent(lower, d), disks)|
  {
    hide Where, Filter;
    FilterCount((d: DriveComponent) => d.failurePredicted, drives);
    FilterCount((d: OmeDisk) => SmartAlertPresent(lower, d), disks);
  }

  /** A battery is listed under its product name, or by its index, or by its position. */
  lemma BatteryNamed(lower: string -> string, batteries: seq<Battery>, i: nat)
    requires i < |batteries|
    ensures var b := batteries[i];
            NameOf(BatteryParts(lower, batteries)[i], "SmartStorageBattery ", i) ==
            if b.productName.Some? then b.productName.value
            else "SmartStorageBattery " + IntToString(if b.index.Some? then b.index.value else i)
  {
  }

  // ----- Every entry of a snapshot -----

  /** One component, listed under a fixed name. */
  ghost predicate Tells1(lower: string -> string, kind: Kind, name: string, status: Option<Status>, d: Degraded) {
    d.kind == kind && d.name == name && PartIs(lower, status, d.health) && d.health in {Unknown, Warning, Critical}
  }

  /** Component `i` of a list, listed under its name or its number. */
  ghost predicate TellsAt(lower: string -> string, kind: Kind, prefix: string, cs: seq<Component>, i: int, d: Degraded) {
    0 <= i < |cs| && Tells1(lower, kind, if cs[i].name.Some? then cs[i].name.value else prefix + NatToString(i), cs[i].status, d)
  }

  lemma ListExact(lower: string -> string, kind: Kind, prefix: string, cs: seq<Component>, d: Degraded)
    ensures d in DegradedParts(kind, prefix, ToParts(lower, cs)) <==> exists i :: TellsAt(lower, kind, prefix, cs, i, d)
  {
    hide NatToString, Own, Absent;
    var parts := ToParts(lower, cs);
    DegradedExact(kind, prefix, parts, d);
    forall i ensures TellsOf(kind, prefix, parts, i, d) <==> TellsAt(lower, kind, prefix, cs, i, d) {
      if 0 <= i < |cs| { StatusExact(lower, cs[i].status); }
    }
    hide DegradedParts, TellsOf, TellsAt;
  }

  lemma OneExact(lower: string -> string, kind: Kind, name: string, prefix: string, status: Option<Status>, d: Degraded)
    ensures d in DegradedParts(kind, prefix, ToParts(lower, [Component(Some(name), status)])) <==> Tells1(lower, kind, name, status, d)
  {
    var cs := [Component(Some(name), status)];
    ListExact(lower, kind, prefix, cs, d);
    hide DegradedParts, Tells1, ToParts;
    assert TellsAt(lower, kind, prefix, cs, 0, d) <==> Tells1(lower, kind, name, status, d);
  }

  /** Sensor `i`, listed under its name or its number. */
  ghost predicate SensorTells(lower: string -> string, ts: seq<Temperature>, i: int, d: Degraded) {
    && 0 <= i < |ts| && d.kind == TemperatureSensor && SensorIs(lower, ts[i], d.health) && d.health in {Unknown, Warning, Critical}
    && d.name == if ts[i].part.name.Some? then ts[i].part.name.value else "Temperature " + NatToString(i)
  }

  lemma SensorsExact(lower: string -> string, ts: seq<Temperature>, d: Degraded)
    ensures d in DegradedParts(TemperatureSensor, "Temperature ", SensorParts(lower, ts)) <==> exists i :: SensorTells(lower, ts, i, d)
  {
    hide NatToString, Own, Absent;
    var parts := SensorParts(lower, ts);
    DegradedExact(TemperatureSensor, "Temperature ", parts, d);
    forall i ensures TellsOf(TemperatureSensor, "Temperature ", parts, i, d) <==> SensorTells(lower, ts, i, d) {
      if 0 <= i < |ts| { StatusExact(lower, ts[i].part.status); }
    }
    hide DegradedParts, TellsOf, SensorTells;
  }

  function Parts(ds: seq<DriveComponent>): seq<Component> {
    seq(|ds|, i requires 0 <= i < |ds| => ds[i].part)
  }

  /** Exactly what a Redfish snapshot lists: every present component that is not healthy, under its own kind and name. */
  lemma RedfishListed(lower: string -> string, b: Bundle, d: Degraded)
    requires b.system.Some?
    ensures d in RedfishDegraded(lower, b) <==>
            || Tells1(lower, System, if b.system.value.name.Some? then b.system.value.name.value else "System", b.system.value.status, d)
            || Tells1(lower, Processor, "ProcessorSummary", b.processors, d)
            || Tells1(lower, Memory, "MemorySummary", b.memory, d)
            || (exists i :: SensorTells(lower, b.temperatures, i, d))
            || (exists i :: TellsAt(lower, Fan, "Fan ", b.fans, i, d))
            || (exists i :: TellsAt(lower, PowerSupply, "PSU ", b.powerSupplies, i, d))
            || (exists i :: TellsAt(lower, Drive, "Drive ", Parts(b.drives), i, d))
  {
    hide Tells1, TellsAt, SensorTells, ToParts, SensorParts, DegradedParts;
    var name := if b.system.value.name.Some? then b.system.value.name.value else "System";
    OneExact(lower, System, name, "System", b.system.value.status, d);
    OneExact(lower, Processor, "ProcessorSummary", "", b.processors, d);
    OneExact(lower, Memory, "MemorySummary", "", b.memory, d);
    SensorsExact(lower, b.temperatures, d);
    ListExact(lower, Fan, "Fan ", b.fans, d);
    ListExact(lower, PowerSupply, "PSU ", b.powerSupplies, d);
    ListExact(lower, Drive, "Drive ", Parts(b.drives), d);
    DrivesAreParts(lower, b.drives);
    hide DriveParts, Parts;
  }

  lemma DrivesAreParts(lower: string -> string, ds: seq<DriveComponent>)
    ensures DriveParts(lower, ds) == ToParts(lower, Parts(ds))
  {
    hide ToPart;
  }

  /** Part `i` of an OME list, listed under its name or its number. */
  ghost predicate OmeTells(kind: Kind, prefix: string, ps: seq<OmePart>, i: int, d: Degraded) {
    && 0 <= i < |ps| && d.kind == kind && d.health == Code(ps[i].status) != Healthy
    && d.name == if ps[i].name.Some? then ps[i].name.value else prefix + NatToString(i)
  }

  lemma OmeListExact(kind: Kind, prefix: string, ps: seq<OmePart>, d: Degraded)
    ensures d in DegradedParts(kind, prefix, OmeToParts(ps)) <==> exists i :: OmeTells(kind, prefix, ps, i, d)
  {
    hide NatToString;
    var parts := OmeToParts(ps);
    DegradedExact(kind, prefix, parts, d);
    forall i ensures TellsOf(kind, prefix, parts, i, d) <==> OmeTells(kind, prefix, ps, i, d) {
      if 0 <= i < |ps| { CodeExact(ps[i].status); }
    }
    hide DegradedParts, TellsOf, OmeTells;
  }

  function DiskOmeParts(ds: seq<OmeDisk>): seq<OmePart> {
    seq(|ds|, i requires 0 <= i < |ds| => ds[i].part)
  }

  /** Exactly what a Dell snapshot lists. */
  lemma DellListed(lower: string -> string, b: OmeBundle, d: Degraded)
    requires b.device.Some?
    ensures d in OmeDegraded(lower, b) <==>
            || (d == Degraded(System, if b.device.value.name.Some? then b.device.value.name.value else "Device", Code(b.device.value.status)) && d.health != Healthy)
            || (exists i :: SubsystemTells(lower, b.subSystems, i, d))
            || (exists i :: OmeTells(Fan, "Fan ", b.fans, i, d))
            || (exists i :: OmeTells(PowerSupply, "PSU ", b.powerSupplies, i, d))
            || (exists i :: OmeTells(Drive, "Disk ", DiskOmeParts(b.disks), i, d))
  {
    hide DegradedParts, DegradedSubsystems, SubsystemTells, OmeToParts, Code;
    var device := OmePart(Some(if b.device.value.name.Some? then b.device.value.name.value else "Device"), b.device.value.status);
    OmeListExact(System, "", [device], d);
    assert (exists i :: OmeTells(System, "", [device], i, d)) <==> d == Degraded(System, device.name.value, Code(device.status)) && d.health != Healthy by {
      if d == Degraded(System, device.name.value, Code(device.status)) && d.health != Healthy { assert OmeTells(System, "", [device], 0, d); }
    }
    hide OmeTells;
    SubsystemsExact(lower, b.subSystems, d);
    OmeListExact(Fan, "Fan ", b.fans, d);
    OmeListExact(PowerSupply, "PSU ", b.powerSupplies, d);
    OmeListExact(Drive, "Disk ", DiskOmeParts(b.disks), d);
    DisksAreParts(b.disks);
    hide DiskParts, DiskOmeParts;
  }

  lemma DisksAreParts(ds: seq<OmeDisk>)
    ensures DiskParts(ds) == OmeToParts(DiskOmeParts(ds))
  {
    hide OmeToPart;
  }
}
