/**
 * Alert ingestion: one row per (source, eventId), an audit trail, and the calls
 * made to other services. A row's id is its position in the table.
 */
module Alerts {
  import opened Wrappers

  datatype Severity = Critical | High | Warning | Info
  datatype AlertState = Open | Acknowledged | Recovered
  datatype EventKey = EventKey(source: string, eventId: string)

  /** The normalized alert every adapter produces. `occurredAt` is in milliseconds. */
  datatype Dto = Dto(
    key: EventKey, siteCode: string, ciCode: string, alertType: string, severity: Severity,
    componentKey: Option<string>, occurredAt: int, state: AlertState, summary: string,
    rawReference: Option<string>)

  /** The policy an ingest acts on. */
  datatype EffectiveRule = EffectiveRule(
    flappingThreshold: int, flappingWindowMinutes: int, pagingSeverities: set<Severity>,
    autoCorrelateIncidents: bool, suppressAutoTicketDuringMaintenance: bool,
    autoCreateSeverities: set<Severity>)

  datatype Ci = Ci(id: string, inMaintenance: bool)

  /** A call to another service: it throws or answers. */
  datatype Call<+T> = Threw | Answered(value: T)

  /** Where an ingest throws out of `ingest` itself, if it does. */
  datatype Fault = NoFault | FaultBeforeWrite | FaultAfterWrite

  /** Everything one ingest learns from outside: lookups, the clock and the answers of other services. */
  datatype Context = Context(
    fault: Fault, now: int, site: Option<string>, ci: Option<Ci>, rule: EffectiveRule,
    fingerprint: string, maintenance: Call<bool>,
    openIncident: Call<Option<string>>, link: Call<()>, linkRowWrite: Call<()>,
    createIncident: Call<(string, bool)>, createRowWrite: Call<()>)

  datatype Request = Request(dto: Dto, ctx: Context)

  /** `bornAt` is history only: the number of the ingest that created the row. */
  datatype Row = Row(
    key: EventKey, siteId: Option<string>, ciId: Option<string>, alertType: string, severity: Severity,
    fingerprint: string, firstSeenAt: int, lastSeenAt: int, state: AlertState,
    rawReference: Option<string>, correlatedIncidentId: Option<string>, bornAt: nat)

  datatype AuditRecord =
    | Raised(alert: nat, state: AlertState, severity: Severity)
    | StateChanged(alert: nat, before: AlertState, after: AlertState, severityBefore: Severity, severityAfter: Severity)

  /** A call made on behalf of an alert; `at` is the number of the ingest that made it. */
  datatype Effect =
    | NocPage(alert: nat, at: nat)
    | LinkCall(alert: nat, incident: string, at: nat)
    | IncidentCall(alert: nat, incident: string, created: bool, at: nat)
    | RecoveredCall(alert: nat, incident: string, at: nat)

  /** `ingests` counts the ingests performed so far. */
  datatype Store = Store(rows: seq<Row>, audit: seq<AuditRecord>, effects: seq<Effect>, ingests: nat)

  datatype IngestResult = IngestResult(
    alert: nat, deduped: bool, stateChanged: bool, siteResolved: bool, ciResolved: bool,
    flapping: bool, recentOccurrences: nat, suppressedByMaintenance: bool, autoTicketSuppressed: bool,
    correlatedIncidentId: Option<string>, incidentCreated: bool)

  const EMPTY_STORE := Store([], [], [], 0)

  function Rank(s: AlertState): nat {
    match s case Open => 0 case Acknowledged => 1 case Recovered => 2
  }

  /** The lifecycle of a repeated event, branch by branch as the service writes it. */
  function ReduceAlertState(current: AlertState, incoming: AlertState): AlertState {
    if current == Recovered then Recovered
    else if incoming == Recovered then Recovered
    else if incoming == Acknowledged && current == Open then Acknowledged
    else current
  }

  /** Reducing is taking the later state of Open < Acknowledged < Recovered. */
  lemma ReduceIsJoin(a: AlertState, b: AlertState)
    ensures Rank(ReduceAlertState(a, b)) == if Rank(a) < Rank(b) then Rank(b) else Rank(a)
  {
  }

  /** The row of `key`: the unique index on (source, externalEventId). */
  function Find(rows: seq<Row>, key: EventKey): (r: Option<nat>)
    ensures r.Some? ==> r.value < |rows| && rows[r.value].key == key
    ensures r.None? ==> forall i :: 0 <= i < |rows| ==> rows[i].key != key
  {
    if rows == [] then None
    else if rows[|rows| - 1].key == key then Some(|rows| - 1)
    else Find(rows[..|rows| - 1], key)
  }

  function CiOf(ctx: Context): Option<string> {
    if ctx.ci.Some? then Some(ctx.ci.value.id) else None
  }

  /** The maintenance check swallows its own failures. */
  predicate SuppressedByMaintenance(ctx: Context) {
    ctx.ci.Some? && (ctx.ci.value.inMaintenance || ctx.maintenance == Answered(true))
  }

  predicate AutoTicketSuppressed(ctx: Context) {
    SuppressedByMaintenance(ctx) && ctx.rule.suppressAutoTicketDuringMaintenance
  }

  /** The CI is known and in maintenance by its lifecycle, or by a change window the change service knows of. */
  ghost predicate InMaintenance(ctx: Context) {
    exists ci :: ctx.ci == Some(ci) && (ci.inMaintenance || ctx.maintenance == Answered(true))
  }

  /** Such an ingest makes no noise, unless its rule says otherwise. */
  ghost predicate Silenced(ctx: Context) {
    InMaintenance(ctx) && ctx.rule.suppressAutoTicketDuringMaintenance
  }

  lemma SilencedExact(ctx: Context)
    ensures SuppressedByMaintenance(ctx) <==> InMaintenance(ctx)
    ensures AutoTicketSuppressed(ctx) <==> Silenced(ctx)
  {
    if ctx.ci.Some? { assert ctx.ci == Some(ctx.ci.value); }
  }

  function NewRow(req: Request, ingest: nat): Row {
    var d, c := req.dto, req.ctx;
    Row(d.key, c.site, CiOf(c), d.alertType, d.severity, c.fingerprint, d.occurredAt, d.occurredAt, d.state,
        if d.rawReference == Some("") then None else d.rawReference, None, ingest)
  }

  function Refreshed(row: Row, req: Request): Row {
    row.(severity := req.dto.severity,
         state := ReduceAlertState(row.state, req.dto.state),
         lastSeenAt := if req.dto.occurredAt > row.lastSeenAt then req.dto.occurredAt else row.lastSeenAt,
         siteId := Coalesce(row.siteId, req.ctx.site),
         ciId := Coalesce(row.ciId, CiOf(req.ctx)))
  }

  /** The write that starts from `existing`, the row number read before it. */
  function Written(st: Store, existing: Option<nat>, req: Request): Store
    requires existing.Some? ==> existing.value < |st.rows|
  {
    match existing
    case None =>
      st.(rows := st.rows + [NewRow(req, st.ingests)],
          audit := st.audit + [Raised(|st.rows|, req.dto.state, req.dto.severity)])
    case Some(i) =>
      var row, next := st.rows[i], Refreshed(st.rows[i], req);
      st.(rows := st.rows[i := next],
          audit := if next.state == row.state then st.audit
                   else st.audit + [StateChanged(i, row.state, next.state, row.severity, next.severity)])
  }

  /** The written row keeps its link, and is the row of the event. */
  lemma WrittenRow(st: Store, existing: Option<nat>, req: Request)
    requires existing == Find(st.rows, req.dto.key)
    ensures var w, a := Written(st, existing, req), if existing.Some? then existing.value else |st.rows|;
            && a < |w.rows| && w.rows[a].key == req.dto.key && w.ingests == st.ingests
            && w.rows[a].correlatedIncidentId == if existing.Some? then st.rows[a].correlatedIncidentId else None
  {
  }

  predicate PageDue(req: Request) {
    req.ctx.fault == NoFault && req.dto.severity in req.ctx.rule.pagingSeverities && !AutoTicketSuppressed(req.ctx)
  }

  /** A request that may link or open an incident for a live alert with a known CI. */
  predicate CorrelationDue(req: Request, ciId: Option<string>, state: AlertState, incident: Option<string>) {
    req.ctx.rule.autoCorrelateIncidents && !AutoTicketSuppressed(req.ctx) && ciId.Some? && state != Recovered && incident.None?
  }

  predicate CreationDue(req: Request, ciId: Option<string>, siteId: Option<string>, state: AlertState, incident: Option<string>) {
    CorrelationDue(req, ciId, state, incident) && siteId.Some? && req.dto.severity in req.ctx.rule.autoCreateSeverities
  }

  function Linked(st: Store, a: nat, incident: string): Store
    requires a < |st.rows|
  {
    st.(rows := st.rows[a := st.rows[a].(correlatedIncidentId := Some(incident))])
  }

  /** Attach the alert to an open incident of its CI; every failure is swallowed. */
  function Correlated(st: Store, a: nat, ctx: Context): (r: (Store, Option<string>))
    requires a < |st.rows|
    ensures |r.0.rows| == |st.rows|
  {
    if ctx.openIncident.Threw? || ctx.openIncident.value.None? || ctx.link.Threw? then (st, None)
    else
      var incident := ctx.openIncident.value.value;
      var called := st.(effects := st.effects + [LinkCall(a, incident, st.ingests)]);
      if ctx.linkRowWrite.Threw? then (called, None) else (Linked(called, a, incident), Some(incident))
  }

  /** Open an incident for the alert, or link to the one that appeared meanwhile; every failure is swallowed. */
  function Opened(st: Store, a: nat, ctx: Context): (r: (Store, Option<(string, bool)>))
    requires a < |st.rows|
    ensures |r.0.rows| == |st.rows|
  {
    if ctx.createIncident.Threw? then (st, None)
    else
      var (incident, created) := ctx.createIncident.value;
      var called := st.(effects := st.effects + [IncidentCall(a, incident, created, st.ingests)]);
      if ctx.createRowWrite.Threw? then (called, None)
      else (Linked(called, a, incident), Some((incident, created)))
  }

  function Paged(st: Store, a: nat, first: bool, req: Request): (r: Store)
    ensures r.rows == st.rows
  {
    if first && PageDue(req) then st.(effects := st.effects + [NocPage(a, st.ingests)]) else st
  }

  /** Correlation, then incident creation when nothing was linked. Answers the store, the incident and whether it is new. */
  function Ticketed(st: Store, a: nat, existing: Option<Row>, state: AlertState, req: Request): (r: (Store, Option<string>, bool))
    requires a < |st.rows|
    ensures |r.0.rows| == |st.rows|
  {
    var known := if existing.Some? then existing.value.correlatedIncidentId else None;
    var ciId := Coalesce(CiOf(req.ctx), if existing.Some? then existing.value.ciId else None);
    var siteId := Coalesce(req.ctx.site, if existing.Some? then existing.value.siteId else None);
    var (st1, incident) := if CorrelationDue(req, ciId, state, known) then Correlated(st, a, req.ctx) else (st, known);
    if !CreationDue(req, ciId, siteId, state, incident) then (st1, incident, false)
    else
      var (st2, answer) := Opened(st1, a, req.ctx);
      if answer.Some? then (st2, Some(answer.value.0), answer.value.1) else (st2, incident, false)
  }

  /** Ticketing changes one field of one row, and answers what that field then holds. */
  lemma TicketedChangesOneLink(st: Store, a: nat, existing: Option<Row>, state: AlertState, req: Request)
    requires a < |st.rows|
    requires st.rows[a].correlatedIncidentId == if existing.Some? then existing.value.correlatedIncidentId else None
    ensures var (r, incident, _) := Ticketed(st, a, existing, state, req);
            && r.rows == st.rows[a := st.rows[a].(correlatedIncidentId := incident)]
            && (st.rows[a].correlatedIncidentId.Some? ==> r == st && incident == st.rows[a].correlatedIncidentId)
            && r.audit == st.audit && r.ingests == st.ingests
  {
  }

  /** Everything after the write. `existing` is the row as it was before it. */
  function Followed(st: Store, a: nat, existing: Option<Row>, req: Request): (r: Store)
    requires a < |st.rows|
    ensures |r.rows| == |st.rows|
  {
    var state := st.rows[a].state;
    var changed := existing.None? || state != existing.value.state;
    var (st1, incident, _) := Ticketed(Paged(st, a, existing.None?, req), a, existing, state, req);
    if state == Recovered && changed && incident.Some?
    then st1.(effects := st1.effects + [RecoveredCall(a, incident.value, st.ingests)])
    else st1
  }

  /** One whole ingest, serialised: nothing else touches the row between its read and its write. */
  function Ingested(st: Store, req: Request): (r: Store)
    ensures |st.rows| <= |r.rows|
    ensures r.ingests == st.ingests + 1
  {
    if req.ctx.fault == FaultBeforeWrite then st.(ingests := st.ingests + 1)
    else
      var existing := Find(st.rows, req.dto.key);
      var w := Written(st, existing, req);
      if req.ctx.fault == FaultAfterWrite then w.(ingests := st.ingests + 1)
      else
        var a := if existing.Some? then existing.value else |st.rows|;
        Followed(w, a, if existing.Some? then Some(st.rows[a]) else None, req).(ingests := st.ingests + 1)
  }

  /** A batch ingested in order. */
  function IngestedAll(st: Store, reqs: seq<Request>): Store {
    if reqs == [] then st else Ingested(IngestedAll(st, reqs[..|reqs| - 1]), reqs[|reqs| - 1])
  }

  /** How many rows of a fingerprint were last seen at or after `since`. */
  function RecentOccurrences(rows: seq<Row>, fingerprint: string, since: int): nat {
    if rows == [] then 0
    else RecentOccurrences(rows[..|rows| - 1], fingerprint, since) +
         (if rows[|rows| - 1].fingerprint == fingerprint && rows[|rows| - 1].lastSeenAt >= since then 1 else 0)
  }

  /** The answers of a batch: each ingest's, from the store its predecessors left. */
  function AnswersOf(st: Store, reqs: seq<Request>): seq<IngestResult> {
    if reqs == [] then []
    else AnswersOf(st, reqs[..|reqs| - 1]) + [ResultOf(IngestedAll(st, reqs[..|reqs| - 1]), reqs[|reqs| - 1])]
  }

  /** The start of the window in which occurrences count as recent. */
  function Since(ctx: Context): int {
    ctx.now - ctx.rule.flappingWindowMinutes * 60_000
  }

  /** The number of the row an ingest writes. */
  function Target(st: Store, req: Request): nat {
    var existing := Find(st.rows, req.dto.key);
    if existing.Some? then existing.value else |st.rows|
  }

  /** That row as it was before. */
  function Before(st: Store, req: Request): Option<Row> {
    var existing := Find(st.rows, req.dto.key);
    if existing.Some? then Some(st.rows[existing.value]) else None
  }

  /** What an ingest that does not throw answers. */
  function ResultOf(st: Store, req: Request): IngestResult {
    var w, a, before := Written(st, Find(st.rows, req.dto.key), req), Target(st, req), Before(st, req);
    var (_, incident, created) := Ticketed(Paged(w, a, before.None?, req), a, before, w.rows[a].state, req);
    var recent := RecentOccurrences(w.rows, req.ctx.fingerprint, Since(req.ctx));
    IngestResult(a, before.Some?, before.None? || w.rows[a].state != before.value.state, req.ctx.site.Some?, req.ctx.ci.Some?,
                 recent >= req.ctx.rule.flappingThreshold, recent, SuppressedByMaintenance(req.ctx),
                 AutoTicketSuppressed(req.ctx), incident, created)
  }

  /** A row of the ingest's fingerprint, seen within the rule's window. */
  ghost predicate IsRecent(row: Row, ctx: Context) {
    row.fingerprint == ctx.fingerprint && ctx.now - row.lastSeenAt <= ctx.rule.flappingWindowMinutes * 60_000
  }

  ghost function Recent(rows: seq<Row>, ctx: Context): set<int> {
    set i | 0 <= i < |rows| && IsRecent(rows[i], ctx)
  }

  /** The count is that of the recent rows of the fingerprint. */
  lemma {:induction false} RecentExact(rows: seq<Row>, ctx: Context)
    ensures RecentOccurrences(rows, ctx.fingerprint, Since(ctx)) == |Recent(rows, ctx)|
  {
    if rows == [] {
      assert Recent(rows, ctx) == {};
    } else {
      var n := |rows| - 1;
      RecentExact(rows[..n], ctx);
      assert IsRecent(rows[n], ctx) <==> rows[n].fingerprint == ctx.fingerprint && rows[n].lastSeenAt >= Since(ctx);
      RecentGrows(rows, ctx);
      hide IsRecent;
    }
  }

  lemma RecentGrows(rows: seq<Row>, ctx: Context)
    requires rows != []
    ensures var n := |rows| - 1; |Recent(rows, ctx)| == |Recent(rows[..n], ctx)| + if IsRecent(rows[n], ctx) then 1 else 0
  {
    hide IsRecent;
    var n := |rows| - 1;
    var front := Recent(rows[..n], ctx);
    assert n !in front;
    assert Recent(rows, ctx) == if IsRecent(rows[n], ctx) then front + {n} else front;
  }

  /** The window: a row last seen `k` minutes ago counts exactly when the rule's window is that long. */
  lemma WindowExact(rows: seq<Row>, ctx: Context, i: nat, k: int)
    requires i < |rows| && rows[i].lastSeenAt == ctx.now - k * 60_000
    ensures i in Recent(rows, ctx) <==> rows[i].fingerprint == ctx.fingerprint && k <= ctx.rule.flappingWindowMinutes
  {
  }

  lemma {:induction false} SameOccurrences(a: seq<Row>, b: seq<Row>, fingerprint: string, since: int)
    requires |a| == |b|
    requires forall i :: 0 <= i < |a| ==> a[i].fingerprint == b[i].fingerprint && a[i].lastSeenAt == b[i].lastSeenAt
    ensures RecentOccurrences(a, fingerprint, since) == RecentOccurrences(b, fingerprint, since)
  {
    if a != [] { SameOccurrences(a[..|a| - 1], b[..|b| - 1], fingerprint, since); }
  }

  /** An incident is answered as created exactly when this very ticketing created it and linked the alert to it. */
  lemma CreatedMeans(st: Store, a: nat, existing: Option<Row>, state: AlertState, req: Request)
    requires a < |st.rows|
    ensures var (r, incident, created) := Ticketed(st, a, existing, state, req);
            && st.effects <= r.effects
            && (created <==> incident.Some? && IncidentCall(a, incident.value, true, st.ingests) in r.effects[|st.effects|..])
  {
    hide Correlated, Opened, CorrelationDue, AutoTicketSuppressed;
    var known := if existing.Some? then existing.value.correlatedIncidentId else None;
    var ciId := Coalesce(CiOf(req.ctx), if existing.Some? then existing.value.ciId else None);
    var siteId := Coalesce(req.ctx.site, if existing.Some? then existing.value.siteId else None);
    CorrelatedCalls(st, a, req.ctx);
    var (st1, incident) := if CorrelationDue(req, ciId, state, known) then Correlated(st, a, req.ctx) else (st, known);
    var links := st1.effects[|st.effects|..];
    assert st1.effects == st.effects + links && forall e :: e in links ==> e.LinkCall?;
    if CreationDue(req, ciId, siteId, state, incident) {
      assert incident.None? by { DueIsUnlinked(req, ciId, state, incident); }
      OpenedCalls(st1, a, req.ctx);
      var (r, answer) := Opened(st1, a, req.ctx);
      if answer.Some? {
        assert r.effects[|st.effects|..] == links + [IncidentCall(a, answer.value.0, answer.value.1, st.ingests)];
      }
    }
  }

  lemma DueIsUnlinked(req: Request, ciId: Option<string>, state: AlertState, incident: Option<string>)
    ensures CorrelationDue(req, ciId, state, incident) ==> incident.None?
  {
  }

  lemma CorrelatedCalls(st: Store, a: nat, ctx: Context)
    requires a < |st.rows|
    ensures var (r, incident) := Correlated(st, a, ctx);
            && r.ingests == st.ingests && st.effects <= r.effects
            && (forall e :: e in r.effects[|st.effects|..] ==> e.LinkCall?)
  {
  }

  lemma OpenedCalls(st: Store, a: nat, ctx: Context)
    requires a < |st.rows|
    ensures var (r, answer) := Opened(st, a, ctx);
            && st.effects <= r.effects
            && (answer.Some? ==> r.effects == st.effects + [IncidentCall(a, answer.value.0, answer.value.1, st.ingests)])
  {
  }

  /**
   * What the answer says about the store the ingest leaves: the event's row,
   * whether it was known and its state moved, the incident it is linked to and
   * whether this ingest opened it, and how many rows of the same fingerprint
   * were seen recently.
   */
  ghost predicate Describes(r: IngestResult, st: Store, req: Request, post: Store) {
    && r.alert < |post.rows| && post.rows[r.alert].key == req.dto.key
    && (r.deduped <==> exists i :: 0 <= i < |st.rows| && st.rows[i].key == req.dto.key)
    && (r.deduped ==> r.alert < |st.rows|)
    && (r.stateChanged <==> !r.deduped || post.rows[r.alert].state != st.rows[r.alert].state)
    && (r.siteResolved <==> req.ctx.site.Some?) && (r.ciResolved <==> req.ctx.ci.Some?)
    && r.recentOccurrences == |Recent(post.rows, req.ctx)|
    && (r.flapping <==> |Recent(post.rows, req.ctx)| >= req.ctx.rule.flappingThreshold)
    && (r.suppressedByMaintenance <==> InMaintenance(req.ctx))
    && (r.autoTicketSuppressed <==> Silenced(req.ctx))
    && r.correlatedIncidentId == post.rows[r.alert].correlatedIncidentId
    && st.effects <= post.effects
    && (r.incidentCreated <==>
          r.correlatedIncidentId.Some? &&
          IncidentCall(r.alert, r.correlatedIncidentId.value, true, st.ingests) in post.effects[|st.effects|..])
  }

  /** After the write only the incident link moves, and a created incident shows among the new calls. */
  lemma FollowedMeans(w: Store, a: nat, before: Option<Row>, req: Request)
    requires a < |w.rows|
    requires w.rows[a].correlatedIncidentId == if before.Some? then before.value.correlatedIncidentId else None
    ensures var post := Followed(w, a, before, req);
            var (_, incident, created) := Ticketed(Paged(w, a, before.None?, req), a, before, w.rows[a].state, req);
            && post.rows == w.rows[a := w.rows[a].(correlatedIncidentId := incident)]
            && w.effects <= post.effects
            && (created <==> incident.Some? && IncidentCall(a, incident.value, true, w.ingests) in post.effects[|w.effects|..])
  {
    var paged, state := Paged(w, a, before.None?, req), w.rows[a].state;
    TicketedChangesOneLink(paged, a, before, state, req);
    CreatedMeans(paged, a, before, state, req);
    var (t, incident, created) := Ticketed(paged, a, before, state, req);
    hide Ticketed, PageDue;
    CreatedInEffects(w.effects, paged.effects, t.effects, Followed(w, a, before, req).effects, a, incident, w.ingests);
  }

  /** The write is where the calls start from. */
  lemma WrittenShape(st: Store, req: Request)
    ensures var w, a, before := Written(st, Find(st.rows, req.dto.key), req), Target(st, req), Before(st, req);
            && a < |w.rows| && w.rows[a].key == req.dto.key && w.effects == st.effects && w.ingests == st.ingests
            && w.rows[a].correlatedIncidentId == (if before.Some? then before.value.correlatedIncidentId else None)
            && (before.Some? ==> a < |st.rows| && before.value == st.rows[a])
  {
    WrittenRow(st, Find(st.rows, req.dto.key), req);
  }

  lemma IngestedShape(st: Store, req: Request)
    requires req.ctx.fault == NoFault
    ensures var w, a, before := Written(st, Find(st.rows, req.dto.key), req), Target(st, req), Before(st, req);
            && a < |w.rows|
            && Ingested(st, req) == Followed(w, a, before, req).(ingests := st.ingests + 1)
  {
    hide Written, Followed;
    WrittenShape(st, req);
  }

  /** What only repeats what the ingest learned. */
  lemma ResultFlags(st: Store, req: Request)
    ensures var r := ResultOf(st, req);
            && r.alert == Target(st, req)
            && (r.deduped <==> exists i :: 0 <= i < |st.rows| && st.rows[i].key == req.dto.key)
            && (r.deduped <==> Before(st, req).Some?)
            && (r.siteResolved <==> req.ctx.site.Some?) && (r.ciResolved <==> req.ctx.ci.Some?)
            && (r.flapping <==> r.recentOccurrences >= req.ctx.rule.flappingThreshold)
            && (r.suppressedByMaintenance <==> SuppressedByMaintenance(req.ctx))
            && (r.autoTicketSuppressed <==> AutoTicketSuppressed(req.ctx))
  {
    hide Written, Ticketed, Paged, RecentOccurrences, AutoTicketSuppressed, SuppressedByMaintenance;
  }

  /** What tells of the row and of the calls. */
  lemma ResultParts(st: Store, req: Request)
    ensures var r, w, a, before := ResultOf(st, req), Written(st, Find(st.rows, req.dto.key), req), Target(st, req), Before(st, req);
            && a < |w.rows|
            && r.recentOccurrences == RecentOccurrences(w.rows, req.ctx.fingerprint, Since(req.ctx))
            && (r.stateChanged <==> before.None? || w.rows[a].state != before.value.state)
            && var t := Ticketed(Paged(w, a, before.None?, req), a, before, w.rows[a].state, req);
               r.correlatedIncidentId == t.1 && r.incidentCreated == t.2
  {
    hide Written, Ticketed, Paged, RecentOccurrences, AutoTicketSuppressed, SuppressedByMaintenance;
    WrittenShape(st, req);
  }

  lemma ResultMeans(st: Store, req: Request)
    requires req.ctx.fault == NoFault
    ensures Describes(ResultOf(st, req), st, req, Ingested(st, req))
  {
    hide Written, Ticketed, Paged, Followed, RecentOccurrences, AutoTicketSuppressed, SuppressedByMaintenance;
    hide ResultOf, Ingested, Target, Before, InMaintenance, Silenced, Recent;
    var w, a, before := Written(st, Find(st.rows, req.dto.key), req), Target(st, req), Before(st, req);
    WrittenShape(st, req);
    IngestedShape(st, req);
    ResultFlags(st, req);
    ResultParts(st, req);
    FollowedMeans(w, a, before, req);
    SameOccurrences(w.rows, Ingested(st, req).rows, req.ctx.fingerprint, Since(req.ctx));
    RecentExact(Ingested(st, req).rows, req.ctx);
    SilencedExact(req.ctx);
  }

  /** Pages before the ticket calls and recovery calls after them are no incident calls. */
  lemma CreatedInEffects(start: seq<Effect>, paged: seq<Effect>, ticketed: seq<Effect>, end: seq<Effect>, a: nat, incident: Option<string>, at: nat)
    requires paged == start || paged == start + [NocPage(a, at)]
    requires paged <= ticketed
    requires end == ticketed || (incident.Some? && end == ticketed + [RecoveredCall(a, incident.value, at)])
    ensures start <= end
    ensures incident.Some? ==>
              var call := IncidentCall(a, incident.value, true, at); (call in ticketed[|paged|..] <==> call in end[|start|..])
  {
    var tickets := ticketed[|paged|..];
    var pages, tail := paged[|start|..], end[|ticketed|..];
    assert end == start + (pages + tickets + tail);
    assert end[|start|..] == pages + tickets + tail;
  }

  class AlertsService {
    var rows: seq<Row>
    var audit: seq<AuditRecord>
    var effects: seq<Effect>
    var ingests: nat

    ghost function State(): Store
      reads this
    {
      Store(rows, audit, effects, ingests)
    }

    constructor ()
      ensures State() == EMPTY_STORE
    {
      rows, audit, effects, ingests := [], [], [], 0;
    }

    /** Answers None when the ingest throws. */
    method Ingest(req: Request) returns (result: Option<IngestResult>)
      modifies this
      ensures State() == Ingested(old(State()), req)
      ensures result == if req.ctx.fault == NoFault then Some(ResultOf(old(State()), req)) else None
      ensures result.Some? ==> Describes(result.value, old(State()), req, State())
    {
      hide Followed, RecentOccurrences, AutoTicketSuppressed, SuppressedByMaintenance, Describes, Ticketed, Paged;
      var ctx := req.ctx;
      result := None;
      if ctx.fault == FaultBeforeWrite {
        ingests := ingests + 1;
        return;
      }
      var existing := Find(rows, req.dto.key);
      var before := if existing.Some? then Some(rows[existing.value]) else None;
      var alert, deduped, stateChanged, finalState := RecordRow(existing, req);
      WrittenRow(old(State()), existing, req);
      hide Written;
      if ctx.fault == FaultAfterWrite {
        ingests := ingests + 1;
        return;
      }
      var recent := RecentOccurrences(rows, ctx.fingerprint, ctx.now - ctx.rule.flappingWindowMinutes * 60_000);
      var incident, incidentCreated := FollowUp(alert, before, req);
      ingests := ingests + 1;
      result := Some(IngestResult(alert, deduped, stateChanged, ctx.site.Some?, ctx.ci.Some?,
                                  recent >= ctx.rule.flappingThreshold, recent, SuppressedByMaintenance(ctx),
                                  AutoTicketSuppressed(ctx), incident, incidentCreated));
      ResultMeans(old(State()), req);
    }

    /** The calls of an ingest once its row is written: page, tickets, recovery. `before` is the row as it was. */
    method FollowUp(alert: nat, before: Option<Row>, req: Request) returns (incident: Option<string>, created: bool)
      requires alert < |rows|
      requires rows[alert].correlatedIncidentId == if before.Some? then before.value.correlatedIncidentId else None
      modifies this
      ensures State() == Followed(old(State()), alert, before, req) && ingests == old(ingests)
      ensures var t := Ticketed(Paged(old(State()), alert, before.None?, req), alert, before, old(rows)[alert].state, req);
              incident == t.1 && created == t.2
    {
      hide Ticketed, PageDue;
      var finalState := rows[alert].state;
      var stateChanged := before.None? || finalState != before.value.state;
      if before.None? && PageDue(req) {
        effects := effects + [NocPage(alert, ingests)];
      }
      TicketedChangesOneLink(State(), alert, before, finalState, req);
      incident, created := TicketAlert(alert, before, finalState, req);
      if finalState == Recovered && stateChanged && incident.Some? {
        effects := effects + [RecoveredCall(alert, incident.value, ingests)];
      }
    }

    /** The loop of the source webhooks: one ingest after the other, abandoned at the first that throws. */
    method IngestBatch(reqs: seq<Request>) returns (accepted: seq<IngestResult>)
      modifies this
      ensures |accepted| <= |reqs|
      ensures forall i :: 0 <= i < |accepted| ==> reqs[i].ctx.fault == NoFault
      ensures |accepted| < |reqs| ==> reqs[|accepted|].ctx.fault != NoFault
      ensures accepted == AnswersOf(old(State()), reqs[..|accepted|])
      ensures State() == IngestedAll(old(State()), reqs[..if |accepted| < |reqs| then |accepted| + 1 else |reqs|])
    {
      hide Ingested, ResultOf, RecentOccurrences;
      accepted := [];
      for i := 0 to |reqs|
        invariant |accepted| == i && State() == IngestedAll(old(State()), reqs[..i])
        invariant forall k :: 0 <= k < i ==> reqs[k].ctx.fault == NoFault
        invariant accepted == AnswersOf(old(State()), reqs[..i])
      {
        assert reqs[..i + 1][..i] == reqs[..i];
        var result := Ingest(reqs[i]);
        if result.None? {
          return;
        }
        accepted := accepted + [result.value];
      }
    }

    /** The row write of an ingest, with its audit record. */
    method RecordRow(existing: Option<nat>, req: Request)
      returns (alert: nat, deduped: bool, stateChanged: bool, finalState: AlertState)
      requires existing == Find(rows, req.dto.key)
      modifies this
      ensures State() == Written(old(State()), existing, req)
      ensures alert == if existing.Some? then existing.value else |old(rows)|
      ensures deduped == existing.Some? && finalState == rows[alert].state
      ensures stateChanged <==> existing.None? || rows[alert].state != old(rows)[alert].state
    {
      var dto, ctx := req.dto, req.ctx;
      if existing.Some? {
        alert, deduped := existing.value, true;
        var row := rows[alert];
        finalState := ReduceAlertState(row.state, dto.state);
        stateChanged := finalState != row.state;
        rows := rows[alert := row.(
          severity := dto.severity,
          state := finalState,
          lastSeenAt := if dto.occurredAt > row.lastSeenAt then dto.occurredAt else row.lastSeenAt,
          siteId := Coalesce(row.siteId, ctx.site),
          ciId := Coalesce(row.ciId, CiOf(ctx)))];
        if stateChanged {
          audit := audit + [StateChanged(alert, row.state, finalState, row.severity, dto.severity)];
        }
      } else {
        alert, deduped, stateChanged, finalState := |rows|, false, true, dto.state;
        audit := audit + [Raised(alert, dto.state, dto.severity)];
        rows := rows + [NewRow(req, ingests)];
      }
    }

    /** Correlation and incident creation for an ingest. */
    method TicketAlert(alert: nat, before: Option<Row>, finalState: AlertState, req: Request)
      returns (incident: Option<string>, created: bool)
      requires alert < |rows|
      modifies this
      ensures (State(), incident, created) == Ticketed(old(State()), alert, before, finalState, req)
    {
      var ciId := Coalesce(CiOf(req.ctx), if before.Some? then before.value.ciId else None);
      var siteId := Coalesce(req.ctx.site, if before.Some? then before.value.siteId else None);
      incident, created := if before.Some? then before.value.correlatedIncidentId else None, false;
      if CorrelationDue(req, ciId, finalState, incident) {
        incident := CorrelateToOpenIncident(alert, req.ctx);
      }
      if CreationDue(req, ciId, siteId, finalState, incident) {
        var answer := OpenIncidentForAlert(alert, req.ctx);
        if answer.Some? {
          incident, created := Some(answer.value.0), answer.value.1;
        }
      }
    }

    method CorrelateToOpenIncident(alert: nat, ctx: Context) returns (incident: Option<string>)
      requires alert < |rows|
      modifies this
      ensures (State(), incident) == Correlated(old(State()), alert, ctx)
    {
      if ctx.openIncident.Threw? || ctx.openIncident.value.None? || ctx.link.Threw? {
        return None;
      }
      var id := ctx.openIncident.value.value;
      effects := effects + [LinkCall(alert, id, ingests)];
      if ctx.linkRowWrite.Threw? {
        return None;
      }
      rows := rows[alert := rows[alert].(correlatedIncidentId := Some(id))];
      return Some(id);
    }

    method OpenIncidentForAlert(alert: nat, ctx: Context) returns (answer: Option<(string, bool)>)
      requires alert < |rows|
      modifies this
      ensures (State(), answer) == Opened(old(State()), alert, ctx)
    {
      if ctx.createIncident.Threw? {
        return None;
      }
      var (id, created) := ctx.createIncident.value;
      effects := effects + [IncidentCall(alert, id, created, ingests)];
      if ctx.createRowWrite.Threw? {
        return None;
      }
      rows := rows[alert := rows[alert].(correlatedIncidentId := Some(id))];
      return Some((id, created));
    }
  }
}
