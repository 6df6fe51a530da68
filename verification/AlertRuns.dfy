/**
 * What holds after every serialised run of ingests, whatever the payloads, the
 * answers of other services and the faults.
 */
module AlertRuns {
  import opened Wrappers
  import opened Alerts

  /** The store after ingesting `reqs` in order, starting from an empty database. */
  ghost function Run(reqs: seq<Request>): (st: Store)
    ensures st.ingests == |reqs|
  {
    if reqs == [] then EMPTY_STORE else Ingested(Run(reqs[..|reqs| - 1]), reqs[|reqs| - 1])
  }

  /** A run is what the service's own batch loop leaves behind. */
  lemma {:induction false} RunIsBatch(reqs: seq<Request>)
    ensures Run(reqs) == IngestedAll(EMPTY_STORE, reqs)
  {
    hide Ingested;
    if reqs != [] { RunIsBatch(reqs[..|reqs| - 1]); }
  }

  ghost predicate Wrote(req: Request) {
    req.ctx.fault != FaultBeforeWrite
  }

  ghost predicate UniqueRows(rows: seq<Row>) {
    forall i, j :: 0 <= i < j < |rows| ==> rows[i].key != rows[j].key
  }

  // ----- One ingest -----

  /** The rows after writing `req`, given the incident link its row ends up with. */
  ghost function WriteRow(rows: seq<Row>, req: Request, ingest: nat, incident: Option<string>): seq<Row> {
    match Find(rows, req.dto.key)
    case None => rows + [NewRow(req, ingest).(correlatedIncidentId := incident)]
    case Some(i) => rows[i := Refreshed(rows[i], req).(correlatedIncidentId := incident)]
  }

  /** The rows after an ingest: the written row, apart from its incident link. */
  lemma IngestedRows(st: Store, req: Request)
    requires Wrote(req)
    ensures var r, a := Ingested(st, req), Target(st, req);
            && a < |r.rows| && r.rows[a].key == req.dto.key
            && r.rows == WriteRow(st.rows, req, st.ingests, r.rows[a].correlatedIncidentId)
            && r.audit == Written(st, Find(st.rows, req.dto.key), req).audit
            && (a < |st.rows| && st.rows[a].correlatedIncidentId.Some? ==>
                  r.rows[a].correlatedIncidentId == st.rows[a].correlatedIncidentId)
  {
    if req.ctx.fault == NoFault {
      var a, before := Target(st, req), Before(st, req);
      var w := Written(st, Find(st.rows, req.dto.key), req);
      var paged := Paged(w, a, before.None?, req);
      TicketedChangesOneLink(paged, a, before, paged.rows[a].state, req);
    }
  }

  // ----- Rows: one per event, holding the join of what arrived -----

  /** The requests of `reqs` that wrote the row of `key`. */
  ghost predicate Feeds(reqs: seq<Request>, p: int, key: EventKey) {
    0 <= p < |reqs| && Wrote(reqs[p]) && reqs[p].dto.key == key
  }

  ghost predicate Born(reqs: seq<Request>, row: Row) {
    && Feeds(reqs, row.bornAt, row.key)
    && row.firstSeenAt == reqs[row.bornAt].dto.occurredAt
    && forall p :: Feeds(reqs, p, row.key) ==> row.bornAt <= p
  }

  ghost predicate IsJoin(reqs: seq<Request>, row: Row) {
    && (forall p :: Feeds(reqs, p, row.key) ==>
          Rank(reqs[p].dto.state) <= Rank(row.state) && reqs[p].dto.occurredAt <= row.lastSeenAt)
    && (exists p :: Feeds(reqs, p, row.key) && reqs[p].dto.state == row.state)
    && (exists p :: Feeds(reqs, p, row.key) && reqs[p].dto.occurredAt == row.lastSeenAt)
  }

  ghost predicate RowsReflect(reqs: seq<Request>, rows: seq<Row>) {
    && UniqueRows(rows)
    && (forall i :: 0 <= i < |rows| ==> Born(reqs, rows[i]) && IsJoin(reqs, rows[i]))
    && (forall p :: 0 <= p < |reqs| && Wrote(reqs[p]) ==> Find(rows, reqs[p].dto.key).Some?)
  }

  /** A row nothing new was written to still reflects the longer run. */
  lemma UntouchedRow(reqs: seq<Request>, req: Request, row: Row)
    requires Born(reqs, row) && IsJoin(reqs, row)
    requires Wrote(req) ==> req.dto.key != row.key
    ensures Born(reqs + [req], row) && IsJoin(reqs + [req], row)
  {
    var all := reqs + [req];
    assert forall p :: Feeds(all, p, row.key) <==> Feeds(reqs, p, row.key);
    var s :| Feeds(reqs, s, row.key) && reqs[s].dto.state == row.state;
    var t :| Feeds(reqs, t, row.key) && reqs[t].dto.occurredAt == row.lastSeenAt;
    assert Feeds(all, s, row.key) && all[s].dto.state == row.state;
    assert Feeds(all, t, row.key) && all[t].dto.occurredAt == row.lastSeenAt;
  }

  lemma RefreshedRow(reqs: seq<Request>, req: Request, row: Row, incident: Option<string>)
    requires Born(reqs, row) && IsJoin(reqs, row) && Wrote(req) && req.dto.key == row.key
    ensures var next := Refreshed(row, req).(correlatedIncidentId := incident);
            Born(reqs + [req], next) && IsJoin(reqs + [req], next)
  {
    var all, next := reqs + [req], Refreshed(row, req).(correlatedIncidentId := incident);
    ReduceIsJoin(row.state, req.dto.state);
    assert forall p :: Feeds(all, p, row.key) <==> p == |reqs| || Feeds(reqs, p, row.key);
    var s :| Feeds(reqs, s, row.key) && reqs[s].dto.state == row.state;
    var t :| Feeds(reqs, t, row.key) && reqs[t].dto.occurredAt == row.lastSeenAt;
    var s' := if next.state == row.state then s else |reqs|;
    var t' := if next.lastSeenAt == row.lastSeenAt then t else |reqs|;
    assert Feeds(all, s', row.key) && all[s'].dto.state == next.state;
    assert Feeds(all, t', row.key) && all[t'].dto.occurredAt == next.lastSeenAt;
  }

  lemma CreatedRow(reqs: seq<Request>, req: Request, incident: Option<string>)
    requires Wrote(req) && forall p :: !Feeds(reqs, p, req.dto.key)
    ensures var next := NewRow(req, |reqs|).(correlatedIncidentId := incident);
            Born(reqs + [req], next) && IsJoin(reqs + [req], next)
  {
    var all, next := reqs + [req], NewRow(req, |reqs|).(correlatedIncidentId := incident);
    forall p | Feeds(all, p, req.dto.key) ensures p == |reqs| {
      assert p < |reqs| ==> Feeds(reqs, p, req.dto.key);
    }
    assert Feeds(all, |reqs|, next.key) && all[|reqs|].dto == req.dto;
  }

  lemma FindMember(rows: seq<Row>, i: nat)
    requires UniqueRows(rows) && i < |rows|
    ensures Find(rows, rows[i].key) == Some(i)
  {
    var found := Find(rows, rows[i].key);
    assert found.Some?;
  }

  lemma ReflectsWriteAt(reqs: seq<Request>, rows: seq<Row>, req: Request, incident: Option<string>, i: nat)
    requires RowsReflect(reqs, rows) && Wrote(req) && i < |WriteRow(rows, req, |reqs|, incident)|
    ensures var row := WriteRow(rows, req, |reqs|, incident)[i]; Born(reqs + [req], row) && IsJoin(reqs + [req], row)
  {
    var found := Find(rows, req.dto.key);
    if found == Some(i) {
      RefreshedRow(reqs, req, rows[i], incident);
    } else if i < |rows| {
      assert found.Some? ==> rows[i].key != rows[found.value].key;
      UntouchedRow(reqs, req, rows[i]);
    } else {
      forall p | 0 <= p < |reqs| && Wrote(reqs[p]) ensures reqs[p].dto.key != req.dto.key {
        assert Find(rows, reqs[p].dto.key).Some?;
      }
      CreatedRow(reqs, req, incident);
    }
  }

  lemma WriteRowFinds(rows: seq<Row>, req: Request, ingest: nat, incident: Option<string>, key: EventKey)
    requires Find(rows, key).Some? || key == req.dto.key
    ensures Find(WriteRow(rows, req, ingest, incident), key).Some?
  {
    var r, found := WriteRow(rows, req, ingest, incident), Find(rows, req.dto.key);
    var i := if key != req.dto.key then Find(rows, key).value else if found.Some? then found.value else |rows|;
    assert r[i].key == key;
  }

  lemma ReflectsWrite(reqs: seq<Request>, rows: seq<Row>, req: Request, incident: Option<string>)
    requires RowsReflect(reqs, rows) && Wrote(req)
    ensures RowsReflect(reqs + [req], WriteRow(rows, req, |reqs|, incident))
  {
    var all, r := reqs + [req], WriteRow(rows, req, |reqs|, incident);
    forall i | 0 <= i < |r| ensures Born(all, r[i]) && IsJoin(all, r[i]) {
      ReflectsWriteAt(reqs, rows, req, incident, i);
    }
    forall p | 0 <= p < |all| && Wrote(all[p]) ensures Find(r, all[p].dto.key).Some? {
      WriteRowFinds(rows, req, |reqs|, incident, all[p].dto.key);
    }
    WriteRowUnique(rows, req, |reqs|, incident);
  }

  lemma WriteRowUnique(rows: seq<Row>, req: Request, ingest: nat, incident: Option<string>)
    requires UniqueRows(rows)
    ensures UniqueRows(WriteRow(rows, req, ingest, incident))
  {
  }

  lemma ReflectsSkip(reqs: seq<Request>, rows: seq<Row>, req: Request)
    requires RowsReflect(reqs, rows) && !Wrote(req)
    ensures RowsReflect(reqs + [req], rows)
  {
    forall i | 0 <= i < |rows| ensures Born(reqs + [req], rows[i]) && IsJoin(reqs + [req], rows[i]) {
      UntouchedRow(reqs, req, rows[i]);
    }
  }

  lemma ReflectsStep(reqs: seq<Request>, st: Store, req: Request)
    requires RowsReflect(reqs, st.rows) && st.ingests == |reqs|
    ensures RowsReflect(reqs + [req], Ingested(st, req).rows)
  {
    if Wrote(req) {
      IngestedRows(st, req);
      ReflectsWrite(reqs, st.rows, req, Ingested(st, req).rows[Target(st, req)].correlatedIncidentId);
    } else {
      ReflectsSkip(reqs, st.rows, req);
    }
  }

  lemma {:induction false} RunReflects(reqs: seq<Request>)
    ensures RowsReflect(reqs, Run(reqs).rows)
  {
    if reqs != [] {
      hide RowsReflect, Ingested;
      var n := |reqs| - 1;
      RunReflects(reqs[..n]);
      ReflectsStep(reqs[..n], Run(reqs[..n]), reqs[n]);
      assert reqs[..n] + [reqs[n]] == reqs;
    }
  }

  /** What reached the row of one event: the set of its payloads, in whatever order and however often they came. */
  ghost function Payloads(reqs: seq<Request>, key: EventKey): set<Dto> {
    set p | 0 <= p < |reqs| && Feeds(reqs, p, key) :: reqs[p].dto
  }

  /**
   * Idempotent ingestion: an event has exactly one row once it was written, and none before.
   */
  lemma OneRowPerEvent(reqs: seq<Request>, key: EventKey)
    ensures var rows := Run(reqs).rows;
            && |set i | 0 <= i < |rows| && rows[i].key == key| == (if Payloads(reqs, key) == {} then 0 else 1)
            && (Find(rows, key).Some? <==> Payloads(reqs, key) != {})
  {
    hide Run, Payloads, RowsReflect;
    RunReflects(reqs);
    KnownIffDelivered(reqs, Run(reqs).rows, key);
    OneRowIfKnown(reqs, Run(reqs).rows, key);
  }

  lemma KnownIffDelivered(reqs: seq<Request>, rows: seq<Row>, key: EventKey)
    requires RowsReflect(reqs, rows)
    ensures Find(rows, key).Some? <==> Payloads(reqs, key) != {}
  {
    hide IsJoin;
    if Payloads(reqs, key) != {} {
      var d :| d in Payloads(reqs, key);
      var p :| 0 <= p < |reqs| && Feeds(reqs, p, key) && reqs[p].dto == d;
      assert Find(rows, reqs[p].dto.key).Some?;
    }
    if Find(rows, key).Some? {
      var row := rows[Find(rows, key).value];
      assert Born(reqs, row);
      assert reqs[row.bornAt].dto in Payloads(reqs, key);
    }
  }

  lemma OneRowIfKnown(reqs: seq<Request>, rows: seq<Row>, key: EventKey)
    requires RowsReflect(reqs, rows)
    ensures |set i | 0 <= i < |rows| && rows[i].key == key| == (if Find(rows, key).Some? then 1 else 0)
  {
    hide IsJoin, Born;
    var here := set i | 0 <= i < |rows| && rows[i].key == key;
    match Find(rows, key) {
      case Some(i) =>
        FindMember(rows, i);
        assert here == {i};
      case None =>
        assert here == {};
    }
  }

  /**
   * Convergence: two runs that delivered the same payloads of an event, in any
   * order and with any repetition, agree on its state and its last sighting.
   */
  lemma Convergence(first: seq<Request>, second: seq<Request>, key: EventKey)
    requires Payloads(first, key) == Payloads(second, key) != {}
    ensures var f, s := Find(Run(first).rows, key), Find(Run(second).rows, key);
            && f.Some? && s.Some?
            && Run(first).rows[f.value].state == Run(second).rows[s.value].state
            && Run(first).rows[f.value].lastSeenAt == Run(second).rows[s.value].lastSeenAt
  {
    hide Run, Payloads, Born;
    OneRowPerEvent(first, key);
    OneRowPerEvent(second, key);
    RunReflects(first);
    RunReflects(second);
    var a := Run(first).rows[Find(Run(first).rows, key).value];
    var b := Run(second).rows[Find(Run(second).rows, key).value];
    JoinBelow(first, second, a, b);
    JoinBelow(second, first, b, a);
  }

  lemma JoinBelow(first: seq<Request>, second: seq<Request>, a: Row, b: Row)
    requires a.key == b.key && IsJoin(first, a) && IsJoin(second, b)
    requires Payloads(first, a.key) <= Payloads(second, a.key)
    ensures Rank(a.state) <= Rank(b.state) && a.lastSeenAt <= b.lastSeenAt
  {
    var s :| Feeds(first, s, a.key) && first[s].dto.state == a.state;
    var t :| Feeds(first, t, a.key) && first[t].dto.occurredAt == a.lastSeenAt;
    assert first[s].dto in Payloads(second, a.key);
    assert first[t].dto in Payloads(second, a.key);
  }

  // ----- The other columns -----

  function SiteOf(ctx: Context): Option<string> { ctx.site }

  /** The first delivery that knew the reference decides it. */
  ghost predicate FirstKnown(reqs: seq<Request>, key: EventKey, get: Context -> Option<string>, value: Option<string>) {
    if value.None? then forall p :: Feeds(reqs, p, key) ==> get(reqs[p].ctx) == None
    else exists p :: && Feeds(reqs, p, key) && get(reqs[p].ctx) == value
                     && forall u :: u < p && Feeds(reqs, u, key) ==> get(reqs[u].ctx) == None
  }

  /** The last delivery decides. */
  ghost predicate LastSays(reqs: seq<Request>, key: EventKey, severity: Severity) {
    exists p :: && Feeds(reqs, p, key) && reqs[p].dto.severity == severity
                && forall u :: Feeds(reqs, u, key) ==> u <= p
  }

  /** Severity is last-arrived; type, fingerprint and raw reference are first-arrived; site and CI are the first ones known. */
  ghost predicate Detailed(reqs: seq<Request>, row: Row) {
    && LastSays(reqs, row.key, row.severity)
    && row.bornAt < |reqs|
    && row.alertType == reqs[row.bornAt].dto.alertType && row.fingerprint == reqs[row.bornAt].ctx.fingerprint
    && (row.rawReference.Some? ==> row.rawReference == reqs[row.bornAt].dto.rawReference && row.rawReference.value != "")
    && (row.rawReference.None? ==> reqs[row.bornAt].dto.rawReference in {None, Some("")})
    && FirstKnown(reqs, row.key, SiteOf, row.siteId)
    && FirstKnown(reqs, row.key, CiOf, row.ciId)
  }

  lemma FirstKnownSkips(reqs: seq<Request>, req: Request, key: EventKey, get: Context -> Option<string>, value: Option<string>)
    requires FirstKnown(reqs, key, get, value) && (Wrote(req) ==> req.dto.key != key)
    ensures FirstKnown(reqs + [req], key, get, value)
  {
    var all := reqs + [req];
    assert forall p :: Feeds(all, p, key) <==> Feeds(reqs, p, key);
    if value.Some? {
      var p :| Feeds(reqs, p, key) && get(reqs[p].ctx) == value && forall u :: u < p && Feeds(reqs, u, key) ==> get(reqs[u].ctx) == None;
      assert Feeds(all, p, key) && all[p] == reqs[p];
    }
  }

  lemma FirstKnownJoins(reqs: seq<Request>, req: Request, key: EventKey, get: Context -> Option<string>, value: Option<string>)
    requires FirstKnown(reqs, key, get, value) && Wrote(req) && req.dto.key == key
    ensures FirstKnown(reqs + [req], key, get, Coalesce(value, get(req.ctx)))
  {
    var all := reqs + [req];
    assert forall p :: Feeds(all, p, key) <==> p == |reqs| || Feeds(reqs, p, key);
    if value.Some? {
      var p :| Feeds(reqs, p, key) && get(reqs[p].ctx) == value && forall u :: u < p && Feeds(reqs, u, key) ==> get(reqs[u].ctx) == None;
      assert Feeds(all, p, key) && all[p] == reqs[p];
    } else if get(req.ctx).Some? {
      assert Feeds(all, |reqs|, key) && all[|reqs|] == req;
    }
  }

  lemma LastSaysSkips(reqs: seq<Request>, req: Request, key: EventKey, severity: Severity)
    requires LastSays(reqs, key, severity) && (Wrote(req) ==> req.dto.key != key)
    ensures LastSays(reqs + [req], key, severity)
  {
    var all := reqs + [req];
    assert forall p :: Feeds(all, p, key) <==> Feeds(reqs, p, key);
    var p :| Feeds(reqs, p, key) && reqs[p].dto.severity == severity && forall u :: Feeds(reqs, u, key) ==> u <= p;
    assert Feeds(all, p, key) && all[p] == reqs[p];
  }

  lemma LastSaysNow(reqs: seq<Request>, req: Request)
    requires Wrote(req)
    ensures LastSays(reqs + [req], req.dto.key, req.dto.severity)
  {
    var all := reqs + [req];
    assert Feeds(all, |reqs|, req.dto.key) && all[|reqs|] == req;
  }

  lemma DetailedSkips(reqs: seq<Request>, req: Request, row: Row)
    requires Detailed(reqs, row) && (Wrote(req) ==> req.dto.key != row.key)
    ensures Detailed(reqs + [req], row)
  {
    hide FirstKnown, LastSays;
    FirstKnownSkips(reqs, req, row.key, SiteOf, row.siteId);
    FirstKnownSkips(reqs, req, row.key, CiOf, row.ciId);
    LastSaysSkips(reqs, req, row.key, row.severity);
  }

  lemma DetailedJoins(reqs: seq<Request>, req: Request, row: Row, incident: Option<string>)
    requires Detailed(reqs, row) && Wrote(req) && req.dto.key == row.key
    ensures Detailed(reqs + [req], Refreshed(row, req).(correlatedIncidentId := incident))
  {
    hide FirstKnown, LastSays;
    FirstKnownJoins(reqs, req, row.key, SiteOf, row.siteId);
    FirstKnownJoins(reqs, req, row.key, CiOf, row.ciId);
    LastSaysNow(reqs, req);
  }

  lemma DetailedBegins(reqs: seq<Request>, req: Request, incident: Option<string>)
    requires Wrote(req) && forall p :: !Feeds(reqs, p, req.dto.key)
    ensures Detailed(reqs + [req], NewRow(req, |reqs|).(correlatedIncidentId := incident))
  {
    var key := req.dto.key;
    FirstKnownJoins(reqs, req, key, SiteOf, None);
    FirstKnownJoins(reqs, req, key, CiOf, None);
    LastSaysNow(reqs, req);
    hide FirstKnown, LastSays;
  }

  lemma DetailedStep(reqs: seq<Request>, st: Store, req: Request, i: nat)
    requires RowsReflect(reqs, st.rows) && st.ingests == |reqs|
    requires forall j :: 0 <= j < |st.rows| ==> Detailed(reqs, st.rows[j])
    requires i < |Ingested(st, req).rows|
    ensures Detailed(reqs + [req], Ingested(st, req).rows[i])
  {
    hide Detailed, IsJoin, Born;
    if Wrote(req) { IngestedRows(st, req); }
    var found, r := Find(st.rows, req.dto.key), Ingested(st, req).rows;
    hide Ingested;
    if Wrote(req) && i == Target(st, req) {
      if found.Some? {
        DetailedJoins(reqs, req, st.rows[i], r[i].correlatedIncidentId);
      } else {
        forall p ensures !Feeds(reqs, p, req.dto.key) {
          if 0 <= p < |reqs| && Wrote(reqs[p]) { assert Find(st.rows, reqs[p].dto.key).Some?; }
        }
        DetailedBegins(reqs, req, r[i].correlatedIncidentId);
      }
    } else {
      assert Wrote(req) && found.Some? ==> st.rows[i].key != st.rows[found.value].key;
      DetailedSkips(reqs, req, st.rows[i]);
    }
  }

  /** Every row of every run shows the last severity, the first type and fingerprint, and the first site and CI known. */
  lemma {:induction false} RunDetails(reqs: seq<Request>, i: nat)
    requires i < |Run(reqs).rows|
    ensures Detailed(reqs, Run(reqs).rows[i])
    decreases |reqs|
  {
    hide Detailed, Ingested;
    var n := |reqs| - 1;
    RunReflects(reqs[..n]);
    forall j | 0 <= j < |Run(reqs[..n]).rows| ensures Detailed(reqs[..n], Run(reqs[..n]).rows[j]) {
      RunDetails(reqs[..n], j);
    }
    DetailedStep(reqs[..n], Run(reqs[..n]), reqs[n], i);
    assert reqs[..n] + [reqs[n]] == reqs;
  }

  // ----- Rows only move forward -----

  /** What later ingests may do to a row: its identity, its first sighting and everything resolved stay as they are. */
  ghost predicate Evolves(a: Row, b: Row) {
    && b.key == a.key && b.firstSeenAt == a.firstSeenAt && b.bornAt == a.bornAt && b.fingerprint == a.fingerprint
    && b.alertType == a.alertType && b.rawReference == a.rawReference
    && Rank(a.state) <= Rank(b.state) && a.lastSeenAt <= b.lastSeenAt
    && (a.siteId.Some? ==> b.siteId == a.siteId)
    && (a.ciId.Some? ==> b.ciId == a.ciId)
    && (a.correlatedIncidentId.Some? ==> b.correlatedIncidentId == a.correlatedIncidentId)
  }

  lemma IngestEvolves(st: Store, req: Request, i: nat)
    requires i < |st.rows|
    ensures Evolves(st.rows[i], Ingested(st, req).rows[i])
  {
    if Wrote(req) {
      IngestedRows(st, req);
      ReduceIsJoin(st.rows[i].state, req.dto.state);
    }
  }

  /**
   * Over every continuation of every run, a row keeps its number and moves only
   * forward: Recovered is absorbing and the incident link is written once.
   */
  lemma {:induction false} RunEvolves(reqs: seq<Request>, more: seq<Request>, i: nat)
    requires i < |Run(reqs).rows|
    ensures i < |Run(reqs + more).rows|
    ensures Evolves(Run(reqs).rows[i], Run(reqs + more).rows[i])
    ensures Run(reqs).rows[i].state == Recovered ==> Run(reqs + more).rows[i].state == Recovered
    decreases |more|
  {
    hide Ingested;
    if more == [] {
      assert reqs + more == reqs;
    } else {
      var n := |more| - 1;
      RunEvolves(reqs, more[..n], i);
      assert (reqs + more)[..|reqs + more| - 1] == reqs + more[..n];
      IngestEvolves(Run(reqs + more[..n]), more[n], i);
    }
  }

  /** What the next delivery does to a row: it moves the row of its own event, and no other. */
  lemma NextDelivery(reqs: seq<Request>, req: Request, i: nat)
    requires i < |Run(reqs).rows| && Wrote(req)
    ensures var row, rows := Run(reqs).rows[i], Run(reqs + [req]).rows;
            && i < |rows|
            && (row.key == req.dto.key ==> rows[i].state == ReduceAlertState(row.state, req.dto.state))
            && (row.key != req.dto.key ==> rows[i] == row)
  {
    hide Ingested, IsJoin, Born, ReduceAlertState;
    assert (reqs + [req])[..|reqs|] == reqs;
    RunReflects(reqs);
    FindMember(Run(reqs).rows, i);
    IngestedRows(Run(reqs), req);
    RowAfterWrite(Run(reqs).rows, req, |reqs|, Run(reqs + [req]).rows[Target(Run(reqs), req)].correlatedIncidentId, i);
  }

  lemma RowAfterWrite(rows: seq<Row>, req: Request, ingest: nat, incident: Option<string>, i: nat)
    requires i < |rows| && Find(rows, rows[i].key) == Some(i)
    ensures var r := WriteRow(rows, req, ingest, incident);
            && i < |r|
            && (rows[i].key == req.dto.key ==> r[i].state == ReduceAlertState(rows[i].state, req.dto.state))
            && (rows[i].key != req.dto.key ==> r[i] == rows[i])
  {
  }

  /** The state an event is known in, if it is known. */
  ghost function StateOf(st: Store, key: EventKey): Option<AlertState> {
    var i := Find(st.rows, key);
    if i.Some? then Some(st.rows[i.value].state) else None
  }

  /**
   * What a delivery that never comes would have changed: the state its event is
   * known in, exactly when every delivery of that event so far was of a lower
   * state. In particular whenever there was none.
   */
  lemma DeliveryMatters(reqs: seq<Request>, req: Request)
    requires Wrote(req)
    ensures StateOf(Run(reqs + [req]), req.dto.key) != StateOf(Run(reqs), req.dto.key) <==>
            forall p :: Feeds(reqs, p, req.dto.key) ==> Rank(reqs[p].dto.state) < Rank(req.dto.state)
  {
    hide Run, IsJoin, Born;
    var key := req.dto.key;
    RunReflects(reqs);
    EventAfter(reqs, req);
    var i := Find(Run(reqs).rows, key);
    if i.Some? {
      assert IsJoin(reqs, Run(reqs).rows[i.value]);
      StateMoves(reqs, Run(reqs).rows[i.value], req);
    } else {
      forall p ensures !Feeds(reqs, p, key) {
        if 0 <= p < |reqs| && Wrote(reqs[p]) { assert Find(Run(reqs).rows, reqs[p].dto.key).Some?; }
      }
    }
  }

  /** The state an event is known in after the next delivery. */
  lemma EventAfter(reqs: seq<Request>, req: Request)
    requires Wrote(req)
    ensures var before, after := StateOf(Run(reqs), req.dto.key), StateOf(Run(reqs + [req]), req.dto.key);
            after == Some(if before.None? then req.dto.state else ReduceAlertState(before.value, req.dto.state))
  {
    var st, next := Run(reqs), Run(reqs + [req]);
    assert (reqs + [req])[..|reqs|] == reqs;
    IngestedRows(st, req);
    RunReflects(reqs + [req]);
    FindMember(next.rows, Target(st, req));
    hide Ingested, Run, IsJoin, Born;
  }

  lemma StateMoves(reqs: seq<Request>, row: Row, req: Request)
    requires IsJoin(reqs, row) && row.key == req.dto.key
    ensures ReduceAlertState(row.state, req.dto.state) != row.state <==>
            forall p :: Feeds(reqs, p, row.key) ==> Rank(reqs[p].dto.state) < Rank(req.dto.state)
  {
    ReduceIsJoin(row.state, req.dto.state);
    var s :| Feeds(reqs, s, row.key) && reqs[s].dto.state == row.state;
  }

  /** First and last sighting are ordered on every row. */
  lemma SightingsOrdered(reqs: seq<Request>, i: nat)
    requires i < |Run(reqs).rows|
    ensures Run(reqs).rows[i].firstSeenAt <= Run(reqs).rows[i].lastSeenAt
  {
    RunReflects(reqs);
    var row := Run(reqs).rows[i];
    assert Born(reqs, row) && IsJoin(reqs, row);
    assert Feeds(reqs, row.bornAt, row.key);
  }

  // ----- The audit trail -----

  /** Replaying one alert's audit records: where they lead and how many changes they hold. */
  datatype Trail = NoTrail | At(state: AlertState, changes: nat) | Broken

  ghost function ReplayOne(t: Trail, r: AuditRecord): Trail {
    match r
    case Raised(_, s, _) => if t.NoTrail? then At(s, 0) else Broken
    case StateChanged(_, before, after, _, _) =>
      if t.At? && t.state == before && before != after then At(after, t.changes + 1) else Broken
  }

  /** Broken when the records do not start with their only Raised, or do not chain. */
  ghost function Replay(audit: seq<AuditRecord>, alert: nat): Trail {
    if audit == [] then NoTrail
    else
      var t := Replay(audit[..|audit| - 1], alert);
      var r := audit[|audit| - 1];
      if r.alert == alert then ReplayOne(t, r) else t
  }

  ghost predicate AuditReflects(st: Store) {
    && (forall i: nat :: i < |st.rows| ==>
          var t := Replay(st.audit, i);
          t.At? && t.state == st.rows[i].state && t.changes <= Rank(t.state))
    && (forall i: nat :: |st.rows| <= i ==> Replay(st.audit, i) == NoTrail)
  }

  lemma AuditStep(st: Store, req: Request)
    requires AuditReflects(st)
    ensures AuditReflects(Ingested(st, req))
  {
    if Wrote(req) {
      var r, a := Ingested(st, req), Target(st, req);
      IngestedRows(st, req);
      if a < |st.rows| { ReduceIsJoin(st.rows[a].state, req.dto.state); }
      if r.audit != st.audit {
        assert r.audit[..|r.audit| - 1] == st.audit;
      }
      forall i: nat
        ensures i < |r.rows| ==> var t := Replay(r.audit, i); t.At? && t.state == r.rows[i].state && t.changes <= Rank(t.state)
        ensures |r.rows| <= i ==> Replay(r.audit, i) == NoTrail
      {
        assert i < |st.rows| ==> Replay(st.audit, i).At?;
        assert |st.rows| <= i ==> Replay(st.audit, i) == NoTrail;
      }
    }
  }

  /**
   * Audit replay: in every run each alert has one Raised record, then at most
   * two StateChanged records that chain without gaps and lead to its current state.
   */
  lemma {:induction false} AuditReplays(reqs: seq<Request>)
    ensures AuditReflects(Run(reqs))
    ensures forall i: nat :: i < |Run(reqs).rows| ==> Replay(Run(reqs).audit, i).At? && Replay(Run(reqs).audit, i).changes <= 2
  {
    if reqs != [] {
      AuditReplays(reqs[..|reqs| - 1]);
      AuditStep(Run(reqs[..|reqs| - 1]), reqs[|reqs| - 1]);
    }
  }

  // ----- What the audit records say -----

  /** Delivery `p` moved the alert from `before` to `after`; delivery `q` was the one before it. */
  ghost predicate ChangeAt(reqs: seq<Request>, key: EventKey, q: int, p: int, r: AuditRecord)
    requires r.StateChanged?
  {
    && Feeds(reqs, q, key) && Feeds(reqs, p, key) && q < p
    && (forall u :: Feeds(reqs, u, key) && u < p ==> u <= q && Rank(reqs[u].dto.state) <= Rank(r.before))
    && (exists u :: Feeds(reqs, u, key) && u < p && reqs[u].dto.state == r.before)
    && r.after == reqs[p].dto.state && Rank(r.before) < Rank(r.after)
    && r.severityBefore == reqs[q].dto.severity && r.severityAfter == reqs[p].dto.severity
  }

  ghost predicate RaisedAt(reqs: seq<Request>, key: EventKey, p: int, r: AuditRecord)
    requires r.Raised?
  {
    && Feeds(reqs, p, key) && (forall u :: Feeds(reqs, u, key) ==> p <= u)
    && r.state == reqs[p].dto.state && r.severity == reqs[p].dto.severity
  }

  /** A record tells what the delivery that caused it carried, and what stood before it. */
  ghost predicate RecordSays(reqs: seq<Request>, key: EventKey, r: AuditRecord) {
    if r.Raised? then exists p :: RaisedAt(reqs, key, p, r) else exists q, p :: ChangeAt(reqs, key, q, p, r)
  }

  lemma RecordStays(reqs: seq<Request>, req: Request, key: EventKey, r: AuditRecord)
    requires RecordSays(reqs, key, r)
    ensures RecordSays(reqs + [req], key, r)
  {
    var all := reqs + [req];
    assert forall u :: u < |reqs| ==> (Feeds(all, u, key) <==> Feeds(reqs, u, key));
    if r.Raised? {
      var p :| RaisedAt(reqs, key, p, r);
      assert all[p] == reqs[p] && RaisedAt(all, key, p, r);
    } else {
      var q, p :| ChangeAt(reqs, key, q, p, r);
      var s :| Feeds(reqs, s, key) && s < p && reqs[s].dto.state == r.before;
      assert all[q] == reqs[q] && all[p] == reqs[p] && all[s] == reqs[s] && Feeds(all, s, key);
      assert ChangeAt(all, key, q, p, r);
    }
  }

  lemma ChangeRecorded(reqs: seq<Request>, req: Request, row: Row, a: nat)
    requires IsJoin(reqs, row) && LastSays(reqs, row.key, row.severity) && Wrote(req) && req.dto.key == row.key
    requires ReduceAlertState(row.state, req.dto.state) != row.state
    ensures RecordSays(reqs + [req], row.key, StateChanged(a, row.state, ReduceAlertState(row.state, req.dto.state), row.severity, req.dto.severity))
  {
    var all, key := reqs + [req], row.key;
    var r := StateChanged(a, row.state, ReduceAlertState(row.state, req.dto.state), row.severity, req.dto.severity);
    ReduceIsJoin(row.state, req.dto.state);
    assert forall u :: u < |reqs| ==> (Feeds(all, u, key) <==> Feeds(reqs, u, key));
    var q :| Feeds(reqs, q, key) && reqs[q].dto.severity == row.severity && forall u :: Feeds(reqs, u, key) ==> u <= q;
    var s :| Feeds(reqs, s, key) && reqs[s].dto.state == row.state;
    assert all[|reqs|] == req && Feeds(all, |reqs|, key) && all[q] == reqs[q] && all[s] == reqs[s] && Feeds(all, s, key);
    assert ChangeAt(all, key, q, |reqs|, r);
  }

  lemma RaiseRecorded(reqs: seq<Request>, req: Request, a: nat)
    requires (forall p :: !Feeds(reqs, p, req.dto.key)) && Wrote(req)
    ensures RecordSays(reqs + [req], req.dto.key, Raised(a, req.dto.state, req.dto.severity))
  {
    var all, key := reqs + [req], req.dto.key;
    assert forall u :: u < |reqs| ==> (Feeds(all, u, key) <==> Feeds(reqs, u, key));
    assert all[|reqs|] == req && RaisedAt(all, key, |reqs|, Raised(a, req.dto.state, req.dto.severity));
  }

  lemma RecordAdded(reqs: seq<Request>, st: Store, req: Request, r: AuditRecord)
    requires RowsReflect(reqs, st.rows) && Wrote(req)
    requires forall j :: 0 <= j < |st.rows| ==> Detailed(reqs, st.rows[j])
    requires r in Written(st, Find(st.rows, req.dto.key), req).audit && r !in st.audit
    ensures r.alert == Target(st, req) && RecordSays(reqs + [req], req.dto.key, r)
  {
    var found := Find(st.rows, req.dto.key);
    if found.Some? {
      var row := st.rows[found.value];
      assert IsJoin(reqs, row) && Detailed(reqs, row);
      hide IsJoin, Born, RecordSays, FirstKnown, LastSays;
      ChangeRecorded(reqs, req, row, found.value);
    } else {
      forall p ensures !Feeds(reqs, p, req.dto.key) {
        if 0 <= p < |reqs| && Wrote(reqs[p]) { assert Find(st.rows, reqs[p].dto.key).Some?; }
      }
      hide IsJoin, Born, RecordSays, Detailed;
      RaiseRecorded(reqs, req, |st.rows|);
    }
  }

  /**
   * What the audit trail tells, over every run: a raised record carries the
   * first delivery's state and severity; a change carries the state and severity
   * of the delivery that caused it, the highest state before it, and the
   * severity of the delivery just before it.
   */
  lemma {:induction false} AuditSays(reqs: seq<Request>, r: AuditRecord)
    requires r in Run(reqs).audit
    ensures r.alert < |Run(reqs).rows| && RecordSays(reqs, Run(reqs).rows[r.alert].key, r)
    decreases |reqs|
  {
    hide RecordSays, Detailed, Ingested, RowsReflect;
    var n := |reqs| - 1;
    var before, req := reqs[..n], reqs[n];
    var st := Run(before);
    assert before + [req] == reqs;
    if Wrote(req) { IngestedRows(st, req); } else { SkippedStore(st, req); }
    if r in st.audit {
      AuditSays(before, r);
      RecordStays(before, req, st.rows[r.alert].key, r);
      IngestEvolves(st, req, r.alert);
    } else {
      RunReflects(before);
      forall j | 0 <= j < |st.rows| ensures Detailed(before, st.rows[j]) { RunDetails(before, j); }
      RecordAdded(before, st, req, r);
    }
  }

  lemma SkippedStore(st: Store, req: Request)
    requires !Wrote(req)
    ensures Ingested(st, req).rows == st.rows && Ingested(st, req).audit == st.audit
  {
  }

  // ----- Flapping -----

  /** Replays never make an alert flap: a delivery no newer than its row's last sighting leaves every occurrence count alone. */
  lemma ReplayDoesNotFlap(st: Store, req: Request, fingerprint: string, since: int)
    requires Find(st.rows, req.dto.key).Some? && req.dto.occurredAt <= st.rows[Find(st.rows, req.dto.key).value].lastSeenAt
    ensures RecentOccurrences(Ingested(st, req).rows, fingerprint, since) == RecentOccurrences(st.rows, fingerprint, since)
  {
    if Wrote(req) { IngestedRows(st, req); }
    var r := Ingested(st, req).rows;
    assert forall i :: 0 <= i < |r| ==> r[i].fingerprint == st.rows[i].fingerprint && r[i].lastSeenAt == st.rows[i].lastSeenAt;
    hide Ingested;
    SameOccurrences(r, st.rows, fingerprint, since);
  }
}
