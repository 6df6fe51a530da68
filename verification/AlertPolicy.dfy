/**
 * The policy of an ingest in the terms of what it learned: exactly which calls
 * it makes, what its alert ends up linked to, and what maintenance silences.
 */
module AlertPolicy {
  import opened Wrappers
  import opened Alerts
  import opened AlertRuns
  import opened AlertCalls

  function LinkBefore(before: Option<Row>): Option<string> {
    if before.Some? then before.value.correlatedIncidentId else None
  }

  /** The alert may be ticketed: a correlating rule, no silence, a live and unlinked alert, and a CI this or an earlier delivery knew. */
  ghost predicate Ticketable(req: Request, before: Option<Row>, state: AlertState) {
    && req.ctx.rule.autoCorrelateIncidents && !Silenced(req.ctx)
    && state != Recovered && LinkBefore(before) == None
    && (req.ctx.ci.Some? || (before.Some? && before.value.ciId.Some?))
  }

  /** All three calls of a correlation to `incident` answer. */
  ghost predicate LinksTo(ctx: Context, incident: string) {
    ctx.openIncident == Answered(Some(incident)) && ctx.link.Answered? && ctx.linkRowWrite.Answered?
  }

  /** An incident may be opened: nothing was linked, a site is known, and the rule opens incidents at this severity. */
  ghost predicate Openable(req: Request, before: Option<Row>, state: AlertState) {
    && Ticketable(req, before, state) && (forall incident :: !LinksTo(req.ctx, incident))
    && (req.ctx.site.Some? || (before.Some? && before.value.siteId.Some?))
    && req.dto.severity in req.ctx.rule.autoCreateSeverities
  }

  /** Why an ingest that completes makes a call. `before` is the alert's row as it was, `state` what it becomes. */
  ghost predicate Owes(req: Request, before: Option<Row>, state: AlertState, e: Effect) {
    match e
    case NocPage(_, _) => before.None? && req.dto.severity in req.ctx.rule.pagingSeverities && !Silenced(req.ctx)
    case LinkCall(_, incident, _) =>
      Ticketable(req, before, state) && req.ctx.openIncident == Answered(Some(incident)) && req.ctx.link.Answered?
    case IncidentCall(_, incident, created, _) =>
      Openable(req, before, state) && req.ctx.createIncident == Answered((incident, created))
    case RecoveredCall(_, incident, _) =>
      state == Recovered && (before.None? || before.value.state != Recovered) && LinkBefore(before) == Some(incident)
  }

  lemma DueIsTicketable(req: Request, before: Option<Row>, state: AlertState)
    ensures CorrelationDue(req, Coalesce(CiOf(req.ctx), if before.Some? then before.value.ciId else None), state, LinkBefore(before)) <==>
            Ticketable(req, before, state)
  {
    SilencedExact(req.ctx);
    hide Silenced, AutoTicketSuppressed;
  }

  /** The answer that links, if one does. */
  lemma LinkRoute(ctx: Context)
    ensures (exists incident :: LinksTo(ctx, incident)) <==>
            ctx.openIncident.Answered? && ctx.openIncident.value.Some? && ctx.link.Answered? && ctx.linkRowWrite.Answered?
  {
    if ctx.openIncident.Answered? && ctx.openIncident.value.Some? && ctx.link.Answered? && ctx.linkRowWrite.Answered? {
      assert LinksTo(ctx, ctx.openIncident.value.value);
    }
  }

  lemma TicketCallsExact(a: nat, before: Option<Row>, state: AlertState, req: Request, at: nat, e: Effect)
    ensures e in TicketCalls(a, before, state, req, at) <==> IsTicket(e) && e.alert == a && e.at == at && Owes(req, before, state, e)
  {
    DueIsTicketable(req, before, state);
    LinkRoute(req.ctx);
    SilencedExact(req.ctx);
    hide Silenced, AutoTicketSuppressed, LinksTo;
  }

  lemma PageCallsExact(a: nat, before: Option<Row>, state: AlertState, req: Request, at: nat, e: Effect)
    requires req.ctx.fault == NoFault
    ensures e in PageCalls(a, before.None?, req, at) <==> e.NocPage? && e.alert == a && e.at == at && Owes(req, before, state, e)
  {
    hide Silenced, Ticketable, Openable;
  }

  /** Exactly which calls an ingest that completes makes, and in terms of what. */
  lemma CallsExact(st: Store, req: Request, e: Effect)
    requires req.ctx.fault == NoFault
    ensures var a, post := Target(st, req), Ingested(st, req);
            && a < |post.rows| && st.effects <= post.effects
            && (e in post.effects[|st.effects|..] <==>
                e.alert == a && e.at == st.ingests && Owes(req, Before(st, req), post.rows[a].state, e))
  {
    var w, a, before, post := Written(st, Find(st.rows, req.dto.key), req), Target(st, req), Before(st, req), Ingested(st, req);
    WrittenShape(st, req);
    IngestedShape(st, req);
    hide Written, Ingested, Target, Before, Ticketed, Paged, TicketCalls, PageCalls, Ticketable, Openable, Silenced, LinksTo;
    FollowedMeans(w, a, before, req);
    FollowedCalls(w, a, before, req);
    hide Followed;
    var state, link := w.rows[a].state, post.rows[a].correlatedIncidentId;
    TicketCallsExact(a, before, state, req, st.ingests, e);
    PageCallsExact(a, before, state, req, st.ingests, e);
    assert post.effects[|st.effects|..] == Calls(a, before, state, req, link, st.ingests);
  }

  /** Exactly what an alert is linked to after an ingest that completes. A failure on the way leaves it as it was. */
  lemma LinkExact(st: Store, req: Request)
    requires req.ctx.fault == NoFault
    ensures var a, post, before := Target(st, req), Ingested(st, req), Before(st, req);
            && a < |post.rows|
            && var state, link := post.rows[a].state, post.rows[a].correlatedIncidentId;
               && (!Ticketable(req, before, state) ==> link == LinkBefore(before))
               && (Ticketable(req, before, state) ==> forall incident :: LinksTo(req.ctx, incident) ==> link == Some(incident))
               && (Ticketable(req, before, state) && (forall incident :: !LinksTo(req.ctx, incident)) ==>
                     link == if Openable(req, before, state) && req.ctx.createIncident.Answered? && req.ctx.createRowWrite.Answered?
                             then Some(req.ctx.createIncident.value.0) else None)
  {
    var w, a, before := Written(st, Find(st.rows, req.dto.key), req), Target(st, req), Before(st, req);
    WrittenShape(st, req);
    IngestedShape(st, req);
    hide Written, Ingested, Target, Before, Followed, Silenced, RecentOccurrences;
    FollowedMeans(w, a, before, req);
    TicketedLink(Paged(w, a, before.None?, req), a, before, w.rows[a].state, req);
    hide Ticketed, Paged, Ticketable, Openable, LinksTo;
  }

  lemma TicketedLink(st: Store, a: nat, before: Option<Row>, state: AlertState, req: Request)
    requires a < |st.rows|
    ensures var link := Ticketed(st, a, before, state, req).1;
            && (!Ticketable(req, before, state) ==> link == LinkBefore(before))
            && (Ticketable(req, before, state) ==> forall incident :: LinksTo(req.ctx, incident) ==> link == Some(incident))
            && (Ticketable(req, before, state) && (forall incident :: !LinksTo(req.ctx, incident)) ==>
                  link == if Openable(req, before, state) && req.ctx.createIncident.Answered? && req.ctx.createRowWrite.Answered?
                          then Some(req.ctx.createIncident.value.0) else None)
  {
    DueIsTicketable(req, before, state);
    LinkRoute(req.ctx);
    SilencedExact(req.ctx);
    hide Silenced, AutoTicketSuppressed;
  }

  // ----- Maintenance -----

  /**
   * Over every run, an ingest on a known CI that is in maintenance, or that the
   * change service finds in a window, pages nobody and tickets nothing under a
   * rule that suppresses: all it may do is announce a recovery.
   */
  lemma MaintenanceSilences(reqs: seq<Request>, e: Effect, ci: Ci)
    requires e in Run(reqs).effects && e.at < |reqs|
    requires var ctx := reqs[e.at].ctx;
             && ctx.ci == Some(ci) && (ci.inMaintenance || ctx.maintenance == Answered(true))
             && ctx.rule.suppressAutoTicketDuringMaintenance
    ensures e.RecoveredCall?
  {
    CallsJustified(reqs);
    hide Run, Counted, LinkMade, LiveAt, KnownBy;
    assert Silenced(reqs[e.at].ctx);
    assert Justified(reqs, Run(reqs).rows[e.alert], e);
  }

  /** A maintenance check that fails is one that finds no window: same store, same answer. */
  lemma FailedCheckIsNoWindow(st: Store, req: Request)
    ensures var failed, clear := req.(ctx := req.ctx.(maintenance := Threw)), req.(ctx := req.ctx.(maintenance := Answered(false)));
            Ingested(st, failed) == Ingested(st, clear) && ResultOf(st, failed) == ResultOf(st, clear)
  {
    var failed, clear := req.(ctx := req.ctx.(maintenance := Threw)), req.(ctx := req.ctx.(maintenance := Answered(false)));
    assert AutoTicketSuppressed(failed.ctx) == AutoTicketSuppressed(clear.ctx);
    assert SuppressedByMaintenance(failed.ctx) == SuppressedByMaintenance(clear.ctx);
    hide AutoTicketSuppressed, SuppressedByMaintenance, RecentOccurrences;
    var existing := Find(st.rows, req.dto.key);
    assert Written(st, existing, failed) == Written(st, existing, clear);
    hide Written, Ticketed, Paged, Followed;
    WrittenShape(st, failed);
    SameFollowing(Written(st, existing, failed), Target(st, failed), Before(st, failed), failed, clear);
  }

  lemma SameFollowing(w: Store, a: nat, before: Option<Row>, x: Request, y: Request)
    requires a < |w.rows| && x.dto == y.dto && y.ctx == x.ctx.(maintenance := y.ctx.maintenance)
    requires AutoTicketSuppressed(x.ctx) == AutoTicketSuppressed(y.ctx)
    ensures Paged(w, a, before.None?, x) == Paged(w, a, before.None?, y)
    ensures var paged := Paged(w, a, before.None?, x);
            Ticketed(paged, a, before, w.rows[a].state, x) == Ticketed(paged, a, before, w.rows[a].state, y)
    ensures Followed(w, a, before, x) == Followed(w, a, before, y)
  {
    hide AutoTicketSuppressed, Ticketed;
    SameTickets(Paged(w, a, before.None?, x), a, before, w.rows[a].state, x, y);
  }

  lemma SameTickets(st: Store, a: nat, before: Option<Row>, state: AlertState, x: Request, y: Request)
    requires a < |st.rows| && x.dto == y.dto && y.ctx == x.ctx.(maintenance := y.ctx.maintenance)
    requires AutoTicketSuppressed(x.ctx) == AutoTicketSuppressed(y.ctx)
    ensures Ticketed(st, a, before, state, x) == Ticketed(st, a, before, state, y)
  {
    hide AutoTicketSuppressed;
  }

  /** A first sighting of a paging severity is paged when neither its CI nor a change window silences it. */
  lemma FirstSightingIsPaged(reqs: seq<Request>, req: Request)
    requires (forall p :: !Feeds(reqs, p, req.dto.key)) && req.ctx.fault == NoFault
    requires req.dto.severity in req.ctx.rule.pagingSeverities
    requires || req.ctx.ci.None? || !req.ctx.rule.suppressAutoTicketDuringMaintenance
             || (!req.ctx.ci.value.inMaintenance && req.ctx.maintenance != Answered(true))
    ensures var rows := Run(reqs).rows;
            && NocPage(|rows|, |reqs|) in Run(reqs + [req]).effects
            && |Run(reqs + [req]).rows| > |rows| && Run(reqs + [req]).rows[|rows|].key == req.dto.key
  {
    var st := Run(reqs);
    assert (reqs + [req])[..|reqs|] == reqs;
    RunReflects(reqs);
    NoRowYet(reqs, st.rows, req.dto.key);
    IngestedRows(st, req);
    var page := NocPage(|st.rows|, |reqs|);
    CallsExact(st, req, page);
    hide Run, Ingested, RowsReflect, Ticketable, Openable;
    assert page in Ingested(st, req).effects[|st.effects|..];
  }

  lemma NoRowYet(reqs: seq<Request>, rows: seq<Row>, key: EventKey)
    requires RowsReflect(reqs, rows) && forall p :: !Feeds(reqs, p, key)
    ensures Find(rows, key) == None
  {
    hide IsJoin;
  }
}
