/** Prometheus Alertmanager deliveries: one alert row per firing episode. */
module Alertmanager {
  import opened Wrappers
  import opened Text
  import opened Batches
  import opened Alerts
  import AlertRuns
  import opened Snmp

  datatype Delivery = Delivery(
    status: string, labels: map<string, string>, annotations: map<string, string>,
    startsAt: Option<string>, endsAt: Option<string>, fingerprint: Option<string>)

  /** A label or annotation, trimmed; blank counts as absent. */
  function Field(fields: map<string, string>, name: string): Option<string> {
    TrimmedOrNone(if name in fields then Some(fields[name]) else None)
  }

  function SeverityOf(host: Host, labels: map<string, string>): Severity {
    var raw := Field(labels, "severity");
    if raw.None? then Warning
    else
      var s := host.lower(raw.value);
      if s == "critical" || s == "page" then Critical
      else if s == "error" || s == "high" then High
      else if s == "info" || s == "information" || s == "none" then Info
      else Warning
  }

  /** Whole seconds since the epoch; division rounds down, as `Math.floor` does. */
  function EpochSeconds(host: Host, text: Option<string>): Option<int> {
    if text.None? || text.value == "" then None
    else
      var ms := host.date(text.value);
      if ms.None? then None else Some(ms.value / 1000)
  }

  predicate Positive(n: Option<int>) {
    n.Some? && n.value > 0
  }

  function EpisodeKey(fingerprint: string, startEpoch: int): EventKey {
    EventKey("PROMETHEUS", "prom-" + fingerprint + "-" + IntToString(startEpoch))
  }

  /** The alert of a delivery, or the field that makes it unusable. */
  function Normalize(host: Host, d: Delivery): Result<Dto, string> {
    var name, site, ci := Field(d.labels, "alertname"), Field(d.labels, "site"), Field(d.labels, "ci");
    var fingerprint, start, end := TrimmedOrNone(d.fingerprint), EpochSeconds(host, d.startsAt), EpochSeconds(host, d.endsAt);
    if name.None? then Failure("alertname")
    else if site.None? then Failure("site")
    else if ci.None? then Failure("ci")
    else if fingerprint.None? then Failure("fingerprint")
    else if !Positive(start) then Failure("startsAt")
    else
      var resolved := d.status == "resolved";
      var at := if resolved && Positive(end) then end.value else start.value;
      var component := Coalesce(Field(d.labels, "component"), Coalesce(Field(d.labels, "device"), Field(d.labels, "instance")));
      var summary := Coalesce(Field(d.annotations, "summary"), Coalesce(Field(d.annotations, "description"),
                     Coalesce(Field(d.annotations, "message"), name)));
      Success(Dto(EpisodeKey(fingerprint.value, start.value), site.value, ci.value, name.value, SeverityOf(host, d.labels),
                  component, at * 1000, if resolved then Recovered else Open, summary.value, None))
  }

  // ----- What a delivery becomes, in terms of its labels -----

  ghost predicate Blank(fields: map<string, string>, name: string) {
    name !in fields || Trim(fields[name]) == ""
  }

  /** The first of the named fields that is not blank, trimmed. */
  ghost function FirstOf(fields: map<string, string>, names: seq<string>): Option<string> {
    if names == [] then None
    else if Blank(fields, names[0]) then FirstOf(fields, names[1..]) else Some(Trim(fields[names[0]]))
  }

  const SEVERITIES: map<string, Severity> := map[
    "critical" := Critical, "page" := Critical, "error" := High, "high" := High, "warning" := Warning, "warn" := Warning,
    "info" := Info, "information" := Info, "none" := Info]

  /** A severity label means what the table says, in any case; none, a blank one and an unlisted one mean WARNING. */
  lemma SeverityExact(host: Host, labels: map<string, string>)
    ensures SeverityOf(host, labels) ==
            if Blank(labels, "severity") then Warning
            else var s := host.lower(Trim(labels["severity"])); if s in SEVERITIES then SEVERITIES[s] else Warning
  {
    hide Trim;
  }

  /** A time of the second `second`, whole seconds counted down. */
  lemma SecondExact(host: Host, text: Option<string>, second: int)
    ensures EpochSeconds(host, text) == Some(second) <==>
            && text.Some? && text.value != "" && host.date(text.value).Some?
            && second * 1000 <= host.date(text.value).value < (second + 1) * 1000
  {
  }

  lemma FirstOfThree(fields: map<string, string>, a: string, b: string, c: string)
    ensures FirstOf(fields, [a, b, c]) == Coalesce(Field(fields, a), Coalesce(Field(fields, b), Field(fields, c)))
  {
    hide Trim;
    assert [a, b, c][1..] == [b, c] && [b, c][1..] == [c] && [c][1..] == [];
    assert FirstOf(fields, []) == None;
    assert FirstOf(fields, [c]) == Field(fields, c);
    assert FirstOf(fields, [b, c]) == Coalesce(Field(fields, b), Field(fields, c));
  }

  /** What makes a delivery unusable, in the order it is found out. */
  lemma RejectionExact(host: Host, d: Delivery)
    ensures var r := Normalize(host, d);
            var noName, noSite, noCi := Blank(d.labels, "alertname"), Blank(d.labels, "site"), Blank(d.labels, "ci");
            var noSeries := d.fingerprint.None? || Trim(d.fingerprint.value) == "";
            var start := EpochSeconds(host, d.startsAt);
            var noStart := start.None? || start.value <= 0;
            && (r == Failure("alertname") <==> noName)
            && (r == Failure("site") <==> !noName && noSite)
            && (r == Failure("ci") <==> !noName && !noSite && noCi)
            && (r == Failure("fingerprint") <==> !noName && !noSite && !noCi && noSeries)
            && (r == Failure("startsAt") <==> !noName && !noSite && !noCi && !noSeries && noStart)
            && (r.Success? <==> !noName && !noSite && !noCi && !noSeries && !noStart)
  {
    hide Trim, EpochSeconds, SeverityOf, EpisodeKey;
  }

  /** The alert of a usable delivery: when it fired or, if it resolved and says when, when it ended; on the first component named. */
  lemma AlertExact(host: Host, d: Delivery)
    requires Normalize(host, d).Success?
    ensures var a := Normalize(host, d).value;
            var start, end := EpochSeconds(host, d.startsAt), EpochSeconds(host, d.endsAt);
            && !Blank(d.labels, "alertname") && !Blank(d.labels, "site") && !Blank(d.labels, "ci") && start.Some? && d.fingerprint.Some?
            && a.alertType == Trim(d.labels["alertname"]) && a.siteCode == Trim(d.labels["site"]) && a.ciCode == Trim(d.labels["ci"])
            && a.key == EventKey("PROMETHEUS", Join(["prom", Trim(d.fingerprint.value), IntToString(start.value)], "-"))
            && a.severity == SeverityOf(host, d.labels)
            && (d.status == "resolved" ==> a.state == Recovered) && (d.status != "resolved" ==> a.state == Open)
            && (d.status == "resolved" && end.Some? && end.value > 0 ==> a.occurredAt == end.value * 1000)
            && (d.status != "resolved" || end.None? || end.value <= 0 ==> a.occurredAt == start.value * 1000)
            && a.componentKey == FirstOf(d.labels, ["component", "device", "instance"])
            && Some(a.summary) == Coalesce(FirstOf(d.annotations, ["summary", "description", "message"]), Some(a.alertType))
            && a.rawReference == None
  {
    RejectionExact(host, d);
    FirstOfThree(d.labels, "component", "device", "instance");
    FirstOfThree(d.annotations, "summary", "description", "message");
    KeyFormat(Trim(d.fingerprint.value), EpochSeconds(host, d.startsAt).value);
    hide Trim, EpochSeconds, SeverityOf, EpisodeKey, FirstOf, Join;
  }

  lemma KeyFormat(fingerprint: string, start: int)
    ensures EpisodeKey(fingerprint, start) == EventKey("PROMETHEUS", Join(["prom", fingerprint, IntToString(start)], "-"))
  {
    hide Join, IntToString;
    JoinFew("prom", fingerprint, IntToString(start), "", "", "-");
    assert "prom" + "-" == "prom-";
  }

  /** A whole webhook. An envelope without an alert list is refused; otherwise the batch is partitioned. */
  method NormalizeWebhook(host: Host, alerts: Option<seq<Delivery>>)
    returns (result: Result<(seq<Dto>, seq<Rejection<string>>), string>)
    ensures alerts.None? <==> result.Failure?
    ensures alerts.Some? ==> Partitions((d: Delivery) => Normalize(host, d), alerts.value, result.value.0, result.value.1)
  {
    if alerts.None? {
      return Failure("alerts");
    }
    var accepted, rejected := Collect((d: Delivery) => Normalize(host, d), alerts.value);
    result := Success((accepted, rejected));
  }

  /** An event id names its episode: the series fingerprint, whatever it contains, and the start. */
  lemma EpisodeKeyInjective(f: string, start: int, f': string, start': int)
    requires start > 0 && start' > 0
    requires EpisodeKey(f, start) == EpisodeKey(f', start')
    ensures f == f' && start == start'
  {
    var n, n' := IntToString(start), IntToString(start');
    CutAtLast('-', "prom-" + f, n, "prom-" + f', n');
    assert ("prom-" + f)[5..] == f && ("prom-" + f')[5..] == f';
    IntToStringInjective(start, start');
  }

  /** The payloads of an episode all come from deliveries of it. */
  ghost predicate OnlyDeliveries(host: Host, reqs: seq<Request>, key: EventKey, from: map<Dto, Delivery>) {
    forall d :: d in AlertRuns.Payloads(reqs, key) ==> d in from && Normalize(host, from[d]) == Success(d)
  }

  ghost predicate SomeResolved(reqs: seq<Request>, key: EventKey, from: map<Dto, Delivery>) {
    exists d :: d in AlertRuns.Payloads(reqs, key) && d in from && from[d].status == "resolved"
  }

  /**
   * The life of an episode: over any run, in whatever order its firing and
   * resolved deliveries come and however often, it has one row, which is
   * Recovered if some resolved delivery was ingested and Open otherwise.
   */
  lemma EpisodeLife(host: Host, reqs: seq<Request>, key: EventKey, from: map<Dto, Delivery>)
    requires AlertRuns.Payloads(reqs, key) != {} && OnlyDeliveries(host, reqs, key, from)
    ensures var rows := AlertRuns.Run(reqs).rows;
            && |set i | 0 <= i < |rows| && rows[i].key == key| == 1
            && Find(rows, key).Some?
            && rows[Find(rows, key).value].state == if SomeResolved(reqs, key, from) then Recovered else Open
  {
    hide Normalize, AlertRuns.Run, AlertRuns.Born, AlertRuns.IsJoin, SomeResolved, OnlyDeliveries;
    AlertRuns.OneRowPerEvent(reqs, key);
    AlertRuns.RunReflects(reqs);
    EpisodeState(host, reqs, from, AlertRuns.Run(reqs).rows[Find(AlertRuns.Run(reqs).rows, key).value]);
  }

  lemma EpisodeState(host: Host, reqs: seq<Request>, from: map<Dto, Delivery>, row: Row)
    requires AlertRuns.IsJoin(reqs, row) && OnlyDeliveries(host, reqs, row.key, from)
    ensures row.state == if SomeResolved(reqs, row.key, from) then Recovered else Open
  {
    hide Normalize;
    var key := row.key;
    forall d | d in AlertRuns.Payloads(reqs, key)
      ensures d.state == if from[d].status == "resolved" then Recovered else Open
    {
      StateOfDelivery(host, from[d]);
    }
    if SomeResolved(reqs, key, from) {
      var d :| d in AlertRuns.Payloads(reqs, key) && d in from && from[d].status == "resolved";
      var p :| 0 <= p < |reqs| && AlertRuns.Feeds(reqs, p, key) && reqs[p].dto == d;
      assert Rank(Recovered) <= Rank(row.state);
    } else {
      var p :| AlertRuns.Feeds(reqs, p, key) && reqs[p].dto.state == row.state;
      assert reqs[p].dto in AlertRuns.Payloads(reqs, key);
    }
  }

  lemma StateOfDelivery(host: Host, d: Delivery)
    ensures Normalize(host, d).Success? ==> Normalize(host, d).value.state == if d.status == "resolved" then Recovered else Open
  {
    hide Field, SeverityOf, EpochSeconds, EpisodeKey, TrimmedOrNone;
  }

  /** A resolved episode never reopens, whatever is delivered afterwards. */
  lemma ResolvedStaysResolved(host: Host, reqs: seq<Request>, more: seq<Request>, key: EventKey, from: map<Dto, Delivery>)
    requires OnlyDeliveries(host, reqs, key, from) && SomeResolved(reqs, key, from)
    ensures var i := Find(AlertRuns.Run(reqs).rows, key);
            && i.Some? && i.value < |AlertRuns.Run(reqs + more).rows|
            && AlertRuns.Run(reqs + more).rows[i.value].key == key
            && AlertRuns.Run(reqs + more).rows[i.value].state == Recovered
  {
    EpisodeLife(host, reqs, key, from);
    AlertRuns.RunEvolves(reqs, more, Find(AlertRuns.Run(reqs).rows, key).value);
  }
}
