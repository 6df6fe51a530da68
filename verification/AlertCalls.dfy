/**
 * The calls every serialised run of ingests makes to other services: pages,
 * links, incidents and recovery announcements.
 */
module AlertCalls {
  import opened Wrappers
  import opened Alerts
  import opened AlertRuns

  ghost predicate IsPage(e: Effect, alert: nat) { e.NocPage? && e.alert == alert }
  ghost predicate IsRecovery(e: Effect, alert: nat) { e.RecoveredCall? && e.alert == alert }
  ghost predicate IsTicket(e: Effect) { e.LinkCall? || e.IncidentCall? }

  ghost function Pages(effects: seq<Effect>, alert: nat): nat {
    if effects == [] then 0
    else Pages(effects[..|effects| - 1], alert) + if IsPage(effects[|effects| - 1], alert) then 1 else 0
  }

  ghost function Recoveries(effects: seq<Effect>, alert: nat): nat {
    if effects == [] then 0
    else Recoveries(effects[..|effects| - 1], alert) + if IsRecovery(effects[|effects| - 1], alert) then 1 else 0
  }

  lemma {:induction false} CountsAdd(a: seq<Effect>, b: seq<Effect>, alert: nat)
    ensures Pages(a + b, alert) == Pages(a, alert) + Pages(b, alert)
    ensures Recoveries(a + b, alert) == Recoveries(a, alert) + Recoveries(b, alert)
  {
    if b == [] {
      assert a + b == a;
    } else {
      var n := |b| - 1;
      assert (a + b)[..|a + b| - 1] == a + b[..n];
      CountsAdd(a, b[..n], alert);
    }
  }

  /** The calls correlation makes, and those incident creation makes. */
  ghost function LinkCalls(a: nat, ctx: Context, at: nat): seq<Effect> {
    if ctx.openIncident.Threw? || ctx.openIncident.value.None? || ctx.link.Threw? then []
    else [LinkCall(a, ctx.openIncident.value.value, at)]
  }

  ghost function CreateCalls(a: nat, ctx: Context, at: nat): seq<Effect> {
    if ctx.createIncident.Threw? then [] else [IncidentCall(a, ctx.createIncident.value.0, ctx.createIncident.value.1, at)]
  }

  /** The ticket calls of one ingest, which starts from `existing`. */
  ghost function TicketCalls(a: nat, existing: Option<Row>, state: AlertState, req: Request, at: nat): seq<Effect> {
    var known := if existing.Some? then existing.value.correlatedIncidentId else None;
    var ciId := Coalesce(CiOf(req.ctx), if existing.Some? then existing.value.ciId else None);
    var siteId := Coalesce(req.ctx.site, if existing.Some? then existing.value.siteId else None);
    var links := if CorrelationDue(req, ciId, state, known) then LinkCalls(a, req.ctx, at) else [];
    var linked := if links != [] && req.ctx.linkRowWrite.Answered? then Some(links[0].incident) else known;
    links + if CreationDue(req, ciId, siteId, state, linked) then CreateCalls(a, req.ctx, at) else []
  }

  lemma TicketedCalls(st: Store, a: nat, existing: Option<Row>, state: AlertState, req: Request)
    requires a < |st.rows|
    ensures var (r, incident, _) := Ticketed(st, a, existing, state, req);
            var known := if existing.Some? then existing.value.correlatedIncidentId else None;
            var calls := TicketCalls(a, existing, state, req, st.ingests);
            && r.effects == st.effects + calls
            && (incident.Some? && incident != known ==> calls != [] && calls[|calls| - 1].incident == incident.value)
  {
  }

  /** A page is owed: the ingest completes, its severity pages under the rule, and nothing silences it. */
  ghost predicate PageOwed(req: Request) {
    req.ctx.fault == NoFault && req.dto.severity in req.ctx.rule.pagingSeverities && !Silenced(req.ctx)
  }

  lemma PageOwedExact(req: Request)
    ensures PageDue(req) <==> PageOwed(req)
  {
    SilencedExact(req.ctx);
  }

  ghost function PageCalls(a: nat, first: bool, req: Request, at: nat): seq<Effect> {
    if first && PageOwed(req) then [NocPage(a, at)] else []
  }

  ghost function RecoveryCalls(a: nat, before: Option<Row>, state: AlertState, incident: Option<string>, at: nat): seq<Effect> {
    if state == Recovered && (before.None? || before.value.state != Recovered) && incident.Some?
    then [RecoveredCall(a, incident.value, at)] else []
  }

  /** All calls of an ingest that completes, when its row ends up in `state` and linked to `incident`. */
  ghost function Calls(a: nat, before: Option<Row>, state: AlertState, req: Request, incident: Option<string>, at: nat): seq<Effect> {
    PageCalls(a, before.None?, req, at) + TicketCalls(a, before, state, req, at) + RecoveryCalls(a, before, state, incident, at)
  }

  lemma FollowedCalls(w: Store, a: nat, before: Option<Row>, req: Request)
    requires a < |w.rows|
    requires w.rows[a].correlatedIncidentId == if before.Some? then before.value.correlatedIncidentId else None
    ensures var r := Followed(w, a, before, req);
            var incident := r.rows[a].correlatedIncidentId;
            && r.effects == w.effects + Calls(a, before, w.rows[a].state, req, incident, w.ingests)
            && (incident != w.rows[a].correlatedIncidentId ==>
                  exists e :: e in r.effects && IsTicketOf(e, a, incident.value))
            && (w.rows[a].state == Recovered ==> incident == w.rows[a].correlatedIncidentId)
  {
    NoTicketsOnceRecovered(a, before, req, w.ingests);
    PageOwedExact(req);
    hide Ticketed, TicketCalls, PageOwed, PageDue;
    var paged, state := Paged(w, a, before.None?, req), w.rows[a].state;
    TicketedChangesOneLink(paged, a, before, state, req);
    TicketedCalls(paged, a, before, state, req);
    var tickets := TicketCalls(a, before, state, req, w.ingests);
    TicketCallsAreTickets(a, before, state, req, w.ingests);
    assert paged.effects == w.effects + PageCalls(a, before.None?, req, w.ingests);
    var r := Followed(w, a, before, req);
    var incident := r.rows[a].correlatedIncidentId;
    assert r.effects == paged.effects + tickets + RecoveryCalls(a, before, state, incident, w.ingests);
    if incident != w.rows[a].correlatedIncidentId {
      var e := tickets[|tickets| - 1];
      assert r.effects[|paged.effects| + |tickets| - 1] == e;
      assert e in r.effects;
    }
  }

  lemma NoTicketsOnceRecovered(a: nat, before: Option<Row>, req: Request, at: nat)
    ensures TicketCalls(a, before, Recovered, req, at) == []
  {
  }

  lemma TicketCallsAreTickets(a: nat, before: Option<Row>, state: AlertState, req: Request, at: nat)
    ensures var calls := TicketCalls(a, before, state, req, at);
            forall k :: 0 <= k < |calls| ==> IsTicket(calls[k]) && calls[k].alert == a && calls[k].at == at
  {
  }

  ghost predicate IsTicketOf(e: Effect, alert: nat, incident: string) {
    IsTicket(e) && e.alert == alert && e.incident == incident
  }

  /** Some delivery up to `at` knew the reference. */
  ghost predicate KnownBy(reqs: seq<Request>, key: EventKey, at: int, get: Context -> Option<string>) {
    exists u :: u <= at && Feeds(reqs, u, key) && get(reqs[u].ctx).Some?
  }

  /** No delivery up to `at` had recovered the alert. */
  ghost predicate LiveAt(reqs: seq<Request>, key: EventKey, at: int) {
    forall u :: u <= at && Feeds(reqs, u, key) ==> reqs[u].dto.state != Recovered
  }

  /** The delivery that recovered the alert, the first to say so, did not fail. */
  ghost predicate CleanRecovery(reqs: seq<Request>, key: EventKey) {
    exists p :: && Feeds(reqs, p, key) && reqs[p].dto.state == Recovered && reqs[p].ctx.fault == NoFault
                && LiveAt(reqs, key, p - 1)
  }

  /** Why a link or incident call was allowed, from what was delivered up to the ingest that made it. */
  ghost predicate TicketAllowed(reqs: seq<Request>, key: EventKey, e: Effect)
    requires e.at < |reqs|
  {
    var req := reqs[e.at];
    && req.ctx.rule.autoCorrelateIncidents && !Silenced(req.ctx)
    && LiveAt(reqs, key, e.at) && KnownBy(reqs, key, e.at, CiOf)
    && (e.IncidentCall? ==> KnownBy(reqs, key, e.at, SiteOf) && req.dto.severity in req.ctx.rule.autoCreateSeverities)
  }

  /** Why a call was allowed. */
  ghost predicate Justified(reqs: seq<Request>, row: Row, e: Effect) {
    && e.at < |reqs|
    && reqs[e.at].ctx.fault == NoFault && reqs[e.at].dto.key == row.key
    && match e
       case NocPage(_, at) => at == row.bornAt && PageOwed(reqs[at])
       case RecoveredCall(_, incident, at) =>
         row.state == Recovered && row.correlatedIncidentId == Some(incident) && reqs[at].dto.state == Recovered
       case _ => TicketAllowed(reqs, row.key, e)
  }

  /** Whether the alert of a row was announced as recovered. */
  ghost predicate Announced(reqs: seq<Request>, row: Row) {
    row.state == Recovered && row.correlatedIncidentId.Some? && CleanRecovery(reqs, row.key)
  }

  /** How often an alert was paged and announced as recovered. */
  ghost predicate Counted(reqs: seq<Request>, rows: seq<Row>, effects: seq<Effect>, i: nat) {
    if i < |rows| then
      && rows[i].bornAt < |reqs|
      && Pages(effects, i) == (if PageOwed(reqs[rows[i].bornAt]) then 1 else 0)
      && Recoveries(effects, i) == (if Announced(reqs, rows[i]) then 1 else 0)
    else Pages(effects, i) == 0 && Recoveries(effects, i) == 0
  }

  /** A stored link was made by a call. */
  ghost predicate LinkMade(rows: seq<Row>, effects: seq<Effect>, i: nat) {
    i < |rows| && rows[i].correlatedIncidentId.Some? ==>
      exists e :: e in effects && IsTicketOf(e, i, rows[i].correlatedIncidentId.value)
  }

  ghost predicate AllJustified(reqs: seq<Request>, rows: seq<Row>, effects: seq<Effect>) {
    forall e :: e in effects ==> e.alert < |rows| && Justified(reqs, rows[e.alert], e)
  }

  /** What every run keeps about the calls it made. */
  ghost predicate EffectsReflect(reqs: seq<Request>, rows: seq<Row>, effects: seq<Effect>) {
    && (forall i: nat :: Counted(reqs, rows, effects, i))
    && (forall i: nat :: LinkMade(rows, effects, i))
    && AllJustified(reqs, rows, effects)
  }

  /** Page and recovery counts of the calls of one ingest. */
  lemma CallCounts(a: nat, before: Option<Row>, state: AlertState, req: Request, incident: Option<string>, at: nat, i: nat)
    ensures var calls := Calls(a, before, state, req, incident, at);
            && Pages(calls, i) == (if i == a && before.None? && PageOwed(req) then 1 else 0)
            && Recoveries(calls, i) == (if i == a && state == Recovered && (before.None? || before.value.state != Recovered) && incident.Some? then 1 else 0)
  {
    hide TicketCalls, PageOwed;
    var pages, tickets := PageCalls(a, before.None?, req, at), TicketCalls(a, before, state, req, at);
    CountsAdd(pages + tickets, RecoveryCalls(a, before, state, incident, at), i);
    CountsAdd(pages, tickets, i);
    TicketCallsAreTickets(a, before, state, req, at);
    OnlyTickets(tickets, i);
  }

  lemma {:induction false} OnlyTickets(calls: seq<Effect>, i: nat)
    requires forall k :: 0 <= k < |calls| ==> IsTicket(calls[k])
    ensures Pages(calls, i) == 0 && Recoveries(calls, i) == 0
  {
    if calls != [] { OnlyTickets(calls[..|calls| - 1], i); }
  }

  // ----- What the deliveries so far say about a row -----

  /** The row of `key` before an ingest, as the deliveries so far determine it. */
  ghost predicate Prior(reqs: seq<Request>, key: EventKey, before: Option<Row>) {
    if before.None? then forall p :: !Feeds(reqs, p, key)
    else
      && before.value.key == key && IsJoin(reqs, before.value)
      && FirstKnown(reqs, key, SiteOf, before.value.siteId) && FirstKnown(reqs, key, CiOf, before.value.ciId)
  }

  lemma PriorHolds(reqs: seq<Request>, st: Store, req: Request)
    requires RowsReflect(reqs, st.rows) && forall j :: 0 <= j < |st.rows| ==> Detailed(reqs, st.rows[j])
    ensures Prior(reqs, req.dto.key, Before(st, req))
  {
    hide FirstKnown, IsJoin, Born, LastSays;
    var existing := Find(st.rows, req.dto.key);
    if existing.None? {
      forall p ensures !Feeds(reqs, p, req.dto.key) {
        if 0 <= p < |reqs| && Wrote(reqs[p]) { assert Find(st.rows, reqs[p].dto.key).Some?; }
      }
    } else {
      assert IsJoin(reqs, st.rows[existing.value]) && Detailed(reqs, st.rows[existing.value]);
    }
  }

  lemma LiveSoFar(reqs: seq<Request>, req: Request, before: Option<Row>)
    requires Prior(reqs, req.dto.key, before) && req.dto.state != Recovered
    requires before.Some? ==> before.value.state != Recovered
    ensures LiveAt(reqs + [req], req.dto.key, |reqs|)
  {
    hide FirstKnown;
    var all, key := reqs + [req], req.dto.key;
    forall u | u <= |reqs| && Feeds(all, u, key) ensures all[u].dto.state != Recovered {
      if u < |reqs| { assert Feeds(reqs, u, key) && all[u] == reqs[u]; }
    }
  }

  lemma KnownSoFar(reqs: seq<Request>, req: Request, get: Context -> Option<string>, value: Option<string>)
    requires Wrote(req) && FirstKnown(reqs, req.dto.key, get, value) && Coalesce(get(req.ctx), value).Some?
    ensures KnownBy(reqs + [req], req.dto.key, |reqs|, get)
  {
    var all, key := reqs + [req], req.dto.key;
    if get(req.ctx).Some? {
      assert Feeds(all, |reqs|, key) && all[|reqs|] == req;
    } else {
      var p :| Feeds(reqs, p, key) && get(reqs[p].ctx) == value;
      assert Feeds(all, p, key) && all[p] == reqs[p];
    }
  }

  /** What a ticket call of an ingest needs of the row it starts from. */
  lemma TicketCallsDue(a: nat, before: Option<Row>, state: AlertState, req: Request, at: nat, e: Effect)
    requires e in TicketCalls(a, before, state, req, at)
    ensures IsTicket(e) && e.alert == a && e.at == at && state != Recovered
    ensures req.ctx.rule.autoCorrelateIncidents && !Silenced(req.ctx)
    ensures Coalesce(CiOf(req.ctx), if before.Some? then before.value.ciId else None).Some?
    ensures e.IncidentCall? ==> Coalesce(req.ctx.site, if before.Some? then before.value.siteId else None).Some?
    ensures e.IncidentCall? ==> req.dto.severity in req.ctx.rule.autoCreateSeverities
  {
    SilencedExact(req.ctx);
    hide Silenced, AutoTicketSuppressed;
  }

  lemma TicketJustified(reqs: seq<Request>, req: Request, a: nat, before: Option<Row>, state: AlertState, e: Effect)
    requires Prior(reqs, req.dto.key, before) && req.ctx.fault == NoFault
    requires state == if before.Some? then ReduceAlertState(before.value.state, req.dto.state) else req.dto.state
    requires e in TicketCalls(a, before, state, req, |reqs|)
    ensures e.at == |reqs| && TicketAllowed(reqs + [req], req.dto.key, e)
  {
    TicketCallsDue(a, before, state, req, |reqs|, e);
    hide TicketCalls, IsJoin, FirstKnown, Silenced;
    var siteId, ciId := if before.Some? then before.value.siteId else None, if before.Some? then before.value.ciId else None;
    if before.None? { NobodyKnew(reqs, req.dto.key, SiteOf); NobodyKnew(reqs, req.dto.key, CiOf); }
    LiveSoFar(reqs, req, before);
    KnownSoFar(reqs, req, CiOf, ciId);
    if e.IncidentCall? { KnownSoFar(reqs, req, SiteOf, siteId); }
    hide LiveAt, KnownBy;
    assert (reqs + [req])[|reqs|] == req;
  }

  lemma NobodyKnew(reqs: seq<Request>, key: EventKey, get: Context -> Option<string>)
    requires forall p :: !Feeds(reqs, p, key)
    ensures FirstKnown(reqs, key, get, None)
  {
  }

  lemma {:induction false} CallJustified(reqs: seq<Request>, req: Request, a: nat, before: Option<Row>, row: Row, e: Effect)
    requires Prior(reqs, req.dto.key, before) && req.ctx.fault == NoFault && req.dto.key == row.key
    requires row.bornAt == |reqs| || before.Some?
    requires row.state == if before.Some? then ReduceAlertState(before.value.state, req.dto.state) else req.dto.state
    requires e in Calls(a, before, row.state, req, row.correlatedIncidentId, |reqs|)
    ensures e.alert == a && Justified(reqs + [req], row, e)
  {
    hide TicketCalls, TicketAllowed, Prior;
    assert (reqs + [req])[|reqs|] == req;
    if e in TicketCalls(a, before, row.state, req, |reqs|) {
      TicketCallsAreTickets(a, before, row.state, req, |reqs|);
      TicketJustified(reqs, req, a, before, row.state, e);
    }
  }

  /** What was delivered up to a moment does not change later. */
  lemma UpToSame(reqs: seq<Request>, req: Request, key: EventKey, at: int)
    requires at < |reqs|
    ensures LiveAt(reqs + [req], key, at) <==> LiveAt(reqs, key, at)
    ensures forall get :: KnownBy(reqs, key, at, get) ==> KnownBy(reqs + [req], key, at, get)
  {
    var all := reqs + [req];
    assert forall u :: u <= at ==> (Feeds(all, u, key) <==> Feeds(reqs, u, key));
    forall get | KnownBy(reqs, key, at, get) ensures KnownBy(all, key, at, get) {
      var u :| u <= at && Feeds(reqs, u, key) && get(reqs[u].ctx).Some?;
      assert Feeds(all, u, key) && all[u] == reqs[u];
    }
    if LiveAt(all, key, at) {
      forall u | u <= at && Feeds(reqs, u, key) ensures reqs[u].dto.state != Recovered {
        assert Feeds(all, u, key) && all[u] == reqs[u];
      }
    }
  }

  lemma {:induction false} StillJustified(reqs: seq<Request>, req: Request, before: Row, row: Row, e: Effect)
    requires Justified(reqs, before, e) && Evolves(before, row)
    ensures Justified(reqs + [req], row, e)
  {
    hide LiveAt, KnownBy, PageOwed, Silenced;
    assert (reqs + [req])[e.at] == reqs[e.at];
    UpToSame(reqs, req, row.key, e.at);
  }

  // ----- Who announces a recovery -----

  lemma CleanRecoverySkips(reqs: seq<Request>, req: Request, key: EventKey)
    requires Wrote(req) ==> req.dto.key != key
    ensures CleanRecovery(reqs + [req], key) <==> CleanRecovery(reqs, key)
  {
    hide LiveAt;
    var all := reqs + [req];
    forall p | p < |reqs| ensures Feeds(all, p, key) <==> Feeds(reqs, p, key)
                          ensures LiveAt(all, key, p - 1) <==> LiveAt(reqs, key, p - 1)
    {
      UpToSame(reqs, req, key, p - 1);
    }
    if CleanRecovery(reqs, key) {
      var p :| Feeds(reqs, p, key) && reqs[p].dto.state == Recovered && reqs[p].ctx.fault == NoFault && LiveAt(reqs, key, p - 1);
      assert all[p] == reqs[p] && Feeds(all, p, key);
    }
    if CleanRecovery(all, key) {
      var p :| Feeds(all, p, key) && all[p].dto.state == Recovered && all[p].ctx.fault == NoFault && LiveAt(all, key, p - 1);
      assert p < |reqs| && all[p] == reqs[p] && Feeds(reqs, p, key);
    }
  }

  /** Only the delivery that recovers a live alert decides whether its recovery was clean. */
  lemma CleanRecoveryStep(reqs: seq<Request>, req: Request, before: Option<Row>)
    requires Prior(reqs, req.dto.key, before) && Wrote(req)
    ensures CleanRecovery(reqs + [req], req.dto.key) <==>
            if before.Some? && before.value.state == Recovered then CleanRecovery(reqs, req.dto.key)
            else req.dto.state == Recovered && req.ctx.fault == NoFault
  {
    var all, key := reqs + [req], req.dto.key;
    if before.Some? && before.value.state == Recovered {
      LaterDeliveriesDoNotDecide(reqs, req, before.value);
    } else {
      assert LiveAt(reqs, key, |reqs| - 1) && (reqs == [] || LiveAt(all, key, |reqs| - 1)) by {
        if reqs != [] { UpToSame(reqs, req, key, |reqs| - 1); }
      }
      assert all[|reqs|] == req && Feeds(all, |reqs|, key);
      assert forall p :: Feeds(all, p, key) && all[p].dto.state == Recovered ==> p == |reqs|;
      if req.dto.state == Recovered && req.ctx.fault == NoFault {
        assert LiveAt(all, key, |reqs| - 1);
      }
    }
  }

  lemma LaterDeliveriesDoNotDecide(reqs: seq<Request>, req: Request, before: Row)
    requires IsJoin(reqs, before) && before.key == req.dto.key && before.state == Recovered
    ensures CleanRecovery(reqs + [req], req.dto.key) <==> CleanRecovery(reqs, req.dto.key)
  {
    var all, key := reqs + [req], req.dto.key;
    var s :| Feeds(reqs, s, key) && reqs[s].dto.state == Recovered;
    assert Feeds(all, s, key) && all[s] == reqs[s];
    if CleanRecovery(reqs, key) {
      var p :| Feeds(reqs, p, key) && reqs[p].dto.state == Recovered && reqs[p].ctx.fault == NoFault && LiveAt(reqs, key, p - 1);
      UpToSame(reqs, req, key, p - 1);
      assert Feeds(all, p, key) && all[p] == reqs[p];
    }
    if CleanRecovery(all, key) {
      var p :| Feeds(all, p, key) && all[p].dto.state == Recovered && all[p].ctx.fault == NoFault && LiveAt(all, key, p - 1);
      assert p <= s;
      UpToSame(reqs, req, key, p - 1);
      assert Feeds(reqs, p, key) && all[p] == reqs[p];
    }
  }

  // ----- One ingest -----

  /** The row an ingest writes, in terms of the row it starts from. */
  ghost predicate RowStep(reqs: seq<Request>, st: Store, req: Request, r: Store) {
    var a, before := Target(st, req), Before(st, req);
    && a < |r.rows| && |r.rows| == (if before.None? then |st.rows| + 1 else |st.rows|)
    && (forall i: nat :: i < |st.rows| && i != a ==> r.rows[i] == st.rows[i] && r.rows[i].key != req.dto.key)
    && (before.Some? ==> a < |st.rows| && before.value == st.rows[a] && Evolves(before.value, r.rows[a]))
    && (before.None? ==> a == |st.rows| && r.rows[a].bornAt == |reqs|)
    && r.rows[a].key == req.dto.key
    && r.rows[a].state == (if before.Some? then ReduceAlertState(before.value.state, req.dto.state) else req.dto.state)
    && Prior(reqs, req.dto.key, before)
  }

  /** The calls an ingest adds, and what they do to the link of its row. */
  ghost predicate CallStep(reqs: seq<Request>, st: Store, req: Request, r: Store)
    requires Target(st, req) < |r.rows|
  {
    var a, before := Target(st, req), Before(st, req);
    var known, link := if before.Some? then before.value.correlatedIncidentId else None, r.rows[a].correlatedIncidentId;
    && r.effects == st.effects + (if req.ctx.fault == NoFault then Calls(a, before, r.rows[a].state, req, link, |reqs|) else [])
    && (r.rows[a].state == Recovered ==> link == known)
    && (link.Some? && known.None? ==> exists e :: e in r.effects && IsTicketOf(e, a, link.value))
  }

  lemma WrittenRowIs(rows: seq<Row>, req: Request, ingest: nat, incident: Option<string>)
    ensures var found, r := Find(rows, req.dto.key), WriteRow(rows, req, ingest, incident);
            var a := if found.Some? then found.value else |rows|;
            && |r| == (if found.None? then |rows| + 1 else |rows|)
            && (forall i: nat :: i < |rows| && i != a ==> r[i] == rows[i])
            && (found.None? ==> r[a].bornAt == ingest && r[a].state == req.dto.state)
            && (found.Some? ==> r[a].state == ReduceAlertState(rows[a].state, req.dto.state))
  {
  }

  lemma IngestedRowStep(reqs: seq<Request>, st: Store, req: Request)
    requires Wrote(req) && st.ingests == |reqs|
    requires RowsReflect(reqs, st.rows) && forall j :: 0 <= j < |st.rows| ==> Detailed(reqs, st.rows[j])
    ensures RowStep(reqs, st, req, Ingested(st, req))
  {
    hide Detailed, Prior, Born, IsJoin, Ingested, Written, Evolves, ReduceAlertState;
    PriorHolds(reqs, st, req);
    IngestedRows(st, req);
    var a := Target(st, req);
    WrittenRowIs(st.rows, req, st.ingests, Ingested(st, req).rows[a].correlatedIncidentId);
    if a < |st.rows| { IngestEvolves(st, req, a); }
  }

  lemma IngestedCalls(reqs: seq<Request>, st: Store, req: Request)
    requires Wrote(req) && st.ingests == |reqs|
    ensures Target(st, req) < |Ingested(st, req).rows| && CallStep(reqs, st, req, Ingested(st, req))
  {
    IngestedRows(st, req);
    hide Calls;
    if req.ctx.fault == NoFault {
      FollowedCalls(Written(st, Find(st.rows, req.dto.key), req), Target(st, req), Before(st, req), req);
    }
  }

  lemma CountsElsewhere(reqs: seq<Request>, st: Store, req: Request, r: Store, i: nat)
    requires Counted(reqs, st.rows, st.effects, i) && RowStep(reqs, st, req, r) && CallStep(reqs, st, req, r)
    requires i != Target(st, req)
    ensures Counted(reqs + [req], r.rows, r.effects, i)
  {
    hide Calls, PageOwed, CleanRecovery, Prior;
    var a, before := Target(st, req), Before(st, req);
    var calls := if req.ctx.fault == NoFault then Calls(a, before, r.rows[a].state, req, r.rows[a].correlatedIncidentId, |reqs|) else [];
    CountsAdd(st.effects, calls, i);
    CallCounts(a, before, r.rows[a].state, req, r.rows[a].correlatedIncidentId, |reqs|, i);
    if i < |r.rows| { CleanRecoverySkips(reqs, req, r.rows[i].key); }
  }

  lemma CountsTarget(reqs: seq<Request>, st: Store, req: Request, r: Store)
    requires Wrote(req) && RowStep(reqs, st, req, r) && CallStep(reqs, st, req, r)
    requires Counted(reqs, st.rows, st.effects, Target(st, req))
    ensures Counted(reqs + [req], r.rows, r.effects, Target(st, req))
  {
    hide Calls, PageOwed, CleanRecovery, Prior;
    var a, before := Target(st, req), Before(st, req);
    var calls := if req.ctx.fault == NoFault then Calls(a, before, r.rows[a].state, req, r.rows[a].correlatedIncidentId, |reqs|) else [];
    CountsAdd(st.effects, calls, a);
    CallCounts(a, before, r.rows[a].state, req, r.rows[a].correlatedIncidentId, |reqs|, a);
    CleanRecoveryStep(reqs, req, before);
    PageNeedsNoFault(req);
    assert before.None? ==> (reqs + [req])[r.rows[a].bornAt] == req;
  }

  lemma PageNeedsNoFault(req: Request)
    ensures PageOwed(req) ==> req.ctx.fault == NoFault
  {
  }

  lemma LinksWrite(reqs: seq<Request>, st: Store, req: Request, r: Store, i: nat)
    requires LinkMade(st.rows, st.effects, i) && RowStep(reqs, st, req, r) && CallStep(reqs, st, req, r)
    ensures LinkMade(r.rows, r.effects, i)
  {
    hide Calls, Prior;
    if i < |st.rows| && st.rows[i].correlatedIncidentId.Some? {
      var e :| e in st.effects && IsTicketOf(e, i, st.rows[i].correlatedIncidentId.value);
      assert e in r.effects;
    }
  }

  lemma JustifiedWrite(reqs: seq<Request>, st: Store, req: Request, r: Store, e: Effect)
    requires AllJustified(reqs, st.rows, st.effects) && RowStep(reqs, st, req, r) && CallStep(reqs, st, req, r) && e in r.effects
    ensures e.alert < |r.rows| && Justified(reqs + [req], r.rows[e.alert], e)
  {
    hide Calls, Justified, Prior;
    if e in st.effects {
      StillJustified(reqs, req, st.rows[e.alert], r.rows[e.alert], e);
    } else {
      CallJustified(reqs, req, Target(st, req), Before(st, req), r.rows[Target(st, req)], e);
    }
  }

  lemma EffectsWrite(reqs: seq<Request>, st: Store, req: Request, r: Store)
    requires Wrote(req) && EffectsReflect(reqs, st.rows, st.effects) && RowStep(reqs, st, req, r) && CallStep(reqs, st, req, r)
    ensures EffectsReflect(reqs + [req], r.rows, r.effects)
  {
    hide RowStep, CallStep, Counted, LinkMade, Justified;
    forall i: nat ensures Counted(reqs + [req], r.rows, r.effects, i) {
      if i == Target(st, req) { CountsTarget(reqs, st, req, r); } else { CountsElsewhere(reqs, st, req, r, i); }
    }
    forall i: nat ensures LinkMade(r.rows, r.effects, i) {
      LinksWrite(reqs, st, req, r, i);
    }
    forall e | e in r.effects ensures e.alert < |r.rows| && Justified(reqs + [req], r.rows[e.alert], e) {
      JustifiedWrite(reqs, st, req, r, e);
    }
  }

  lemma EffectsSkip(reqs: seq<Request>, st: Store, req: Request)
    requires EffectsReflect(reqs, st.rows, st.effects) && !Wrote(req)
    ensures EffectsReflect(reqs + [req], st.rows, st.effects)
  {
    hide Justified, CleanRecovery, LinkMade, PageOwed;
    forall i: nat ensures Counted(reqs + [req], st.rows, st.effects, i) {
      assert Counted(reqs, st.rows, st.effects, i);
      if i < |st.rows| { CleanRecoverySkips(reqs, req, st.rows[i].key); }
    }
    forall e | e in st.effects ensures Justified(reqs + [req], st.rows[e.alert], e) {
      StillJustified(reqs, req, st.rows[e.alert], st.rows[e.alert], e);
    }
  }

  lemma EffectsStep(reqs: seq<Request>, st: Store, req: Request)
    requires EffectsReflect(reqs, st.rows, st.effects) && st.ingests == |reqs|
    requires RowsReflect(reqs, st.rows) && forall j :: 0 <= j < |st.rows| ==> Detailed(reqs, st.rows[j])
    ensures EffectsReflect(reqs + [req], Ingested(st, req).rows, Ingested(st, req).effects)
  {
    hide EffectsReflect, RowsReflect, Detailed, RowStep, CallStep;
    if Wrote(req) {
      IngestedRowStep(reqs, st, req);
      IngestedCalls(reqs, st, req);
      EffectsWrite(reqs, st, req, Ingested(st, req));
    } else {
      EffectsSkip(reqs, st, req);
    }
  }

  /**
   * Calls over whole runs. An alert is paged once if the ingest that first saw
   * it reached the paging step unsuppressed with a paging severity, and never
   * otherwise; it is announced as recovered once if it recovered cleanly while
   * linked, and never otherwise. Every link or incident call was made by an
   * unsuppressed ingest under a correlating rule, at a moment when no delivery
   * had recovered the alert and one had known its CI; an incident call also
   * needs a known site and a severity the rule opens incidents for. Every
   * stored link was made by such a call.
   */
  lemma {:induction false} CallsJustified(reqs: seq<Request>)
    ensures EffectsReflect(reqs, Run(reqs).rows, Run(reqs).effects)
  {
    hide EffectsReflect, RowsReflect, Detailed, Ingested;
    if reqs == [] {
      NoCallsYet();
    } else {
      var n := |reqs| - 1;
      CallsJustified(reqs[..n]);
      RunReflects(reqs[..n]);
      forall j | 0 <= j < |Run(reqs[..n]).rows| ensures Detailed(reqs[..n], Run(reqs[..n]).rows[j]) {
        RunDetails(reqs[..n], j);
      }
      EffectsStep(reqs[..n], Run(reqs[..n]), reqs[n]);
      assert reqs[..n] + [reqs[n]] == reqs;
    }
  }

  lemma NoCallsYet()
    ensures EffectsReflect([], [], [])
  {
  }

  /**
   * A page is not retried: when the first ingest of an event fails after its
   * write, no later delivery of that event pages, whatever its severity.
   */
  lemma FaultedFirstSightingNeverPages(reqs: seq<Request>, i: nat)
    requires i < |Run(reqs).rows|
    ensures Run(reqs).rows[i].bornAt < |reqs|
    ensures reqs[Run(reqs).rows[i].bornAt].ctx.fault == FaultAfterWrite ==> Pages(Run(reqs).effects, i) == 0
  {
    CallsJustified(reqs);
    assert Counted(reqs, Run(reqs).rows, Run(reqs).effects, i);
  }

  /**
   * Nor is an announcement: when the delivery that recovers an alert fails
   * after its write, no later delivery announces the recovery.
   */
  lemma FaultedRecoveryIsNeverAnnounced(reqs: seq<Request>, i: nat, p: nat)
    requires i < |Run(reqs).rows| && Feeds(reqs, p, Run(reqs).rows[i].key)
    requires reqs[p].dto.state == Recovered && LiveAt(reqs, Run(reqs).rows[i].key, p - 1)
    ensures Recoveries(Run(reqs).effects, i) ==
            if reqs[p].ctx.fault == NoFault && Run(reqs).rows[i].correlatedIncidentId.Some? then 1 else 0
  {
    hide Run, Born, IsJoin, Pages, Recoveries, PageOwed, AllJustified, LinkMade;
    CallsJustified(reqs);
    RunReflects(reqs);
    assert Counted(reqs, Run(reqs).rows, Run(reqs).effects, i);
    FirstRecoveryDecides(reqs, Run(reqs).rows[i], p);
  }

  lemma FirstRecoveryDecides(reqs: seq<Request>, row: Row, p: nat)
    requires IsJoin(reqs, row) && Feeds(reqs, p, row.key) && reqs[p].dto.state == Recovered && LiveAt(reqs, row.key, p - 1)
    ensures Announced(reqs, row) <==> reqs[p].ctx.fault == NoFault && row.correlatedIncidentId.Some?
  {
    assert row.state == Recovered;
    forall q | Feeds(reqs, q, row.key) && reqs[q].dto.state == Recovered && LiveAt(reqs, row.key, q - 1) ensures p == q {
    }
  }

  /**
   * A failed link is retried: an unlinked live alert is linked by its next
   * delivery for which the services answer, whatever went wrong before.
   */
  lemma UnlinkedAlertIsRetried(reqs: seq<Request>, req: Request, i: nat, incident: string)
    requires i < |Run(reqs).rows| && Run(reqs).rows[i].key == req.dto.key
    requires Run(reqs).rows[i].correlatedIncidentId.None? && Run(reqs).rows[i].state != Recovered
    requires req.ctx.fault == NoFault && req.dto.state != Recovered
    requires req.ctx.rule.autoCorrelateIncidents && !Silenced(req.ctx)
    requires req.ctx.ci.Some? || Run(reqs).rows[i].ciId.Some?
    requires req.ctx.openIncident == Answered(Some(incident)) && req.ctx.link.Answered? && req.ctx.linkRowWrite.Answered?
    ensures i < |Run(reqs + [req]).rows| && Run(reqs + [req]).rows[i].correlatedIncidentId == Some(incident)
  {
    RunReflects(reqs);
    FindMember(Run(reqs).rows, i);
    assert (reqs + [req])[..|reqs|] == reqs;
    UnlinkedRowIsLinked(Run(reqs), req, i, incident);
    hide Ingested, RowsReflect;
  }

  lemma UnlinkedRowIsLinked(st: Store, req: Request, i: nat, incident: string)
    requires i < |st.rows| && Find(st.rows, req.dto.key) == Some(i)
    requires st.rows[i].correlatedIncidentId.None? && st.rows[i].state != Recovered
    requires req.ctx.fault == NoFault && req.dto.state != Recovered
    requires req.ctx.rule.autoCorrelateIncidents && !Silenced(req.ctx)
    requires req.ctx.ci.Some? || st.rows[i].ciId.Some?
    requires req.ctx.openIncident == Answered(Some(incident)) && req.ctx.link.Answered? && req.ctx.linkRowWrite.Answered?
    ensures Ingested(st, req).rows[i].correlatedIncidentId == Some(incident)
  {
    SilencedExact(req.ctx);
    hide Silenced, AutoTicketSuppressed;
    var w := Written(st, Some(i), req);
    var paged := Paged(w, i, false, req);
    TicketedChangesOneLink(paged, i, Some(st.rows[i]), paged.rows[i].state, req);
    assert Ticketed(paged, i, Some(st.rows[i]), paged.rows[i].state, req).1 == Some(incident);
  }

  /**
   * A linked alert's recovery is announced: the delivery that recovers it makes
   * the one recovery call, unless it fails after its write.
   */
  lemma RecoveryIsAnnounced(reqs: seq<Request>, req: Request, i: nat)
    requires i < |Run(reqs).rows| && Run(reqs).rows[i].key == req.dto.key
    requires Run(reqs).rows[i].correlatedIncidentId.Some? && Run(reqs).rows[i].state != Recovered
    requires req.dto.state == Recovered && req.ctx.fault == NoFault
    ensures Recoveries(Run(reqs + [req]).effects, i) == 1
  {
    var all := reqs + [req];
    assert all[..|reqs|] == reqs && all[|reqs|] == req;
    RunReflects(reqs);
    FindMember(Run(reqs).rows, i);
    IngestEvolves(Run(reqs), req, i);
    assert IsJoin(reqs, Run(reqs).rows[i]);
    hide Ingested, RowsReflect, Run;
    var key := req.dto.key;
    forall u | u <= |reqs| - 1 && Feeds(all, u, key) ensures all[u].dto.state != Recovered {
      assert Feeds(reqs, u, key) && all[u] == reqs[u];
    }
    FaultedRecoveryIsNeverAnnounced(all, i, |reqs|);
  }

  /**
   * An unlinked live alert with a known site and CI opens an incident when
   * nothing is open for its CI and its severity asks for one.
   */
  lemma UnlinkedAlertOpensIncident(reqs: seq<Request>, req: Request, i: nat, incident: string, created: bool)
    requires i < |Run(reqs).rows| && Run(reqs).rows[i].key == req.dto.key
    requires Run(reqs).rows[i].correlatedIncidentId.None? && Run(reqs).rows[i].state != Recovered
    requires req.ctx.fault == NoFault && req.dto.state != Recovered
    requires req.ctx.rule.autoCorrelateIncidents && !Silenced(req.ctx) && req.dto.severity in req.ctx.rule.autoCreateSeverities
    requires (req.ctx.ci.Some? || Run(reqs).rows[i].ciId.Some?) && (req.ctx.site.Some? || Run(reqs).rows[i].siteId.Some?)
    requires req.ctx.openIncident == Answered(None)
    requires req.ctx.createIncident == Answered((incident, created)) && req.ctx.createRowWrite.Answered?
    ensures i < |Run(reqs + [req]).rows| && Run(reqs + [req]).rows[i].correlatedIncidentId == Some(incident)
    ensures IncidentCall(i, incident, created, |reqs|) in Run(reqs + [req]).effects
  {
    RunReflects(reqs);
    FindMember(Run(reqs).rows, i);
    assert (reqs + [req])[..|reqs|] == reqs;
    UnlinkedRowOpens(Run(reqs), req, i, incident, created);
    hide Ingested, RowsReflect;
  }

  lemma UnlinkedRowOpens(st: Store, req: Request, i: nat, incident: string, created: bool)
    requires i < |st.rows| && Find(st.rows, req.dto.key) == Some(i)
    requires st.rows[i].correlatedIncidentId.None? && st.rows[i].state != Recovered
    requires req.ctx.fault == NoFault && req.dto.state != Recovered
    requires req.ctx.rule.autoCorrelateIncidents && !Silenced(req.ctx) && req.dto.severity in req.ctx.rule.autoCreateSeverities
    requires (req.ctx.ci.Some? || st.rows[i].ciId.Some?) && (req.ctx.site.Some? || st.rows[i].siteId.Some?)
    requires req.ctx.openIncident == Answered(None)
    requires req.ctx.createIncident == Answered((incident, created)) && req.ctx.createRowWrite.Answered?
    ensures Ingested(st, req).rows[i].correlatedIncidentId == Some(incident)
    ensures IncidentCall(i, incident, created, st.ingests) in Ingested(st, req).effects
  {
    SilencedExact(req.ctx);
    hide Silenced, AutoTicketSuppressed;
    var w := Written(st, Some(i), req);
    var paged := Paged(w, i, false, req);
    TicketedChangesOneLink(paged, i, Some(st.rows[i]), paged.rows[i].state, req);
    var r := Ticketed(paged, i, Some(st.rows[i]), paged.rows[i].state, req);
    assert r.1 == Some(incident) && r.0.effects == paged.effects + [IncidentCall(i, incident, created, st.ingests)];
  }
}
