/**
 * Ingests of one event that are not serialised. `ingest` reads the row outside
 * the transaction that writes it, so other ingests can finish in between. Two
 * creations cannot both succeed, because the table is unique in the event; the
 * race modelled here is the one between updates.
 */
module AlertRaces {
  import opened Wrappers
  import opened Alerts
  import opened AlertRuns

  /** An ingest that has read its row and not yet written it. */
  datatype Read = Read(alert: nat, row: Row, req: Request)

  datatype World = World(store: Store, pending: map<nat, Read>)

  datatype Step =
    | Whole(req: Request)
    | ReadRow(id: nat, req: Request)
    | WriteRead(id: nat)

  predicate Enabled(w: World, s: Step) {
    match s
    case Whole(_) => true
    case ReadRow(id, req) => id !in w.pending && Find(w.store.rows, req.dto.key).Some?
    case WriteRead(id) => id in w.pending && w.pending[id].alert < |w.store.rows|
  }

  /** The update computes state, sighting and references from the row it read; the other columns are as they are now. */
  function StaleRow(read: Row, current: Row, req: Request): Row {
    var next := Refreshed(read, req);
    current.(severity := next.severity, state := next.state, lastSeenAt := next.lastSeenAt, siteId := next.siteId, ciId := next.ciId)
  }

  /** Its audit record goes from the state it read to the state it writes. */
  function StaleWritten(st: Store, a: nat, read: Row, req: Request): Store
    requires a < |st.rows|
  {
    var next := StaleRow(read, st.rows[a], req);
    st.(rows := st.rows[a := next],
        audit := if next.state == read.state then st.audit
                 else st.audit + [StateChanged(a, read.state, next.state, read.severity, next.severity)])
  }

  function Next(w: World, s: Step): World
    requires Enabled(w, s)
  {
    match s
    case Whole(req) => w.(store := Ingested(w.store, req))
    case ReadRow(id, req) =>
      var a := Find(w.store.rows, req.dto.key).value;
      w.(pending := w.pending[id := Read(a, w.store.rows[a], req)])
    case WriteRead(id) =>
      var read := w.pending[id];
      World(StaleWritten(w.store, read.alert, read.row, read.req), w.pending - {id})
  }

  ghost predicate Possible(w: World, steps: seq<Step>)
    decreases |steps|
  {
    steps == [] || (Enabled(w, steps[0]) && Possible(Next(w, steps[0]), steps[1..]))
  }

  ghost function After(w: World, steps: seq<Step>): World
    requires Possible(w, steps)
    decreases |steps|
  {
    if steps == [] then w else After(Next(w, steps[0]), steps[1..])
  }

  /** With nothing in between, reading and writing is the serialised write. */
  lemma SplitIsSerialised(st: Store, req: Request)
    requires Find(st.rows, req.dto.key).Some?
    ensures var a := Find(st.rows, req.dto.key).value;
            StaleWritten(st, a, st.rows[a], req) == Written(st, Some(a), req)
  {
  }

  // ----- What a stale write stores -----

  /** What the row read and the row found agree on, or the request overrides in both. */
  predicate SameReference(read: Option<string>, current: Option<string>, known: Option<string>) {
    read == current || (read.None? && known == current) || (current.None? && known == read)
  }

  /**
   * A stale write stores what the serialised order would store, column by
   * column, exactly when the row it read and the row it finds agree there or
   * the request covers both.
   */
  lemma StaleWriteAgrees(read: Row, current: Row, req: Request)
    ensures StaleRow(read, current, req).state == Refreshed(current, req).state <==>
            read.state == current.state || (Rank(read.state) <= Rank(req.dto.state) && Rank(current.state) <= Rank(req.dto.state))
    ensures StaleRow(read, current, req).lastSeenAt == Refreshed(current, req).lastSeenAt <==>
            read.lastSeenAt == current.lastSeenAt || (read.lastSeenAt <= req.dto.occurredAt && current.lastSeenAt <= req.dto.occurredAt)
    ensures StaleRow(read, current, req).siteId == Refreshed(current, req).siteId <==>
            SameReference(read.siteId, current.siteId, req.ctx.site)
    ensures StaleRow(read, current, req).ciId == Refreshed(current, req).ciId <==>
            SameReference(read.ciId, current.ciId, CiOf(req.ctx))
  {
    ReduceIsJoin(read.state, req.dto.state);
    ReduceIsJoin(current.state, req.dto.state);
  }

  // ----- When rows only move forward -----

  /** The write finds no state beyond both the one it read and the one it was sent. */
  predicate FitsState(read: Row, current: Row, req: Request) {
    Rank(current.state) <= Rank(read.state) || Rank(current.state) <= Rank(req.dto.state)
  }

  /** A resolved reference is kept: none was resolved, or the one read or, failing that, the one sent is the same. */
  predicate FitsReference(read: Option<string>, current: Option<string>, known: Option<string>) {
    current.None? || current == Coalesce(read, known)
  }

  /** The write finds nothing that it would take back. */
  predicate Fits(read: Row, current: Row, req: Request) {
    && FitsState(read, current, req)
    && (current.lastSeenAt <= read.lastSeenAt || current.lastSeenAt <= req.dto.occurredAt)
    && FitsReference(read.siteId, current.siteId, req.ctx.site)
    && FitsReference(read.ciId, current.ciId, CiOf(req.ctx))
  }

  predicate StateSafe(w: World, s: Step)
    requires Enabled(w, s)
  {
    s.WriteRead? ==> var read := w.pending[s.id]; FitsState(read.row, w.store.rows[read.alert], read.req)
  }

  predicate Safe(w: World, s: Step)
    requires Enabled(w, s)
  {
    s.WriteRead? ==> var read := w.pending[s.id]; Fits(read.row, w.store.rows[read.alert], read.req)
  }

  /** No row's state goes back. */
  ghost predicate StatesForward(a: seq<Row>, b: seq<Row>) {
    |a| <= |b| && forall i :: 0 <= i < |a| ==> Rank(a[i].state) <= Rank(b[i].state)
  }

  /** No row takes anything back. */
  ghost predicate RowsForward(a: seq<Row>, b: seq<Row>) {
    |a| <= |b| && forall i :: 0 <= i < |a| ==> Evolves(a[i], b[i])
  }

  lemma StaleRowForward(read: Row, current: Row, req: Request)
    ensures Rank(current.state) <= Rank(StaleRow(read, current, req).state) <==> FitsState(read, current, req)
    ensures Evolves(current, StaleRow(read, current, req)) <==> Fits(read, current, req)
  {
    ReduceIsJoin(read.state, req.dto.state);
  }

  lemma WholeForward(st: Store, req: Request)
    ensures StatesForward(st.rows, Ingested(st, req).rows) && RowsForward(st.rows, Ingested(st, req).rows)
  {
    var r := Ingested(st, req).rows;
    hide Ingested;
    forall i | 0 <= i < |st.rows| ensures Evolves(st.rows[i], r[i]) {
      IngestEvolves(st, req, i);
    }
  }

  /**
   * Exactly when a step takes nothing back. No row's state goes back if and only
   * if the step is no write that finds a state beyond both the one it read and
   * the one it was sent; nothing at all goes back if and only if the like holds
   * for sightings and references.
   */
  lemma ForwardExact(w: World, s: Step)
    requires Enabled(w, s)
    ensures StatesForward(w.store.rows, Next(w, s).store.rows) <==> StateSafe(w, s)
    ensures RowsForward(w.store.rows, Next(w, s).store.rows) <==> Safe(w, s)
  {
    if s.Whole? {
      WholeForward(w.store, s.req);
      hide Ingested;
    } else if s.WriteRead? {
      var read := w.pending[s.id];
      StaleRowForward(read.row, w.store.rows[read.alert], read.req);
      hide Fits, FitsState, Evolves, Rank, StaleRow;
      OneRowForward(w.store.rows, read.alert, StaleRow(read.row, w.store.rows[read.alert], read.req));
    } else {
      assert forall i :: 0 <= i < |w.store.rows| ==> Evolves(w.store.rows[i], w.store.rows[i]);
    }
  }

  lemma OneRowForward(rows: seq<Row>, a: nat, row: Row)
    requires a < |rows|
    ensures StatesForward(rows, rows[a := row]) <==> Rank(rows[a].state) <= Rank(row.state)
    ensures RowsForward(rows, rows[a := row]) <==> Evolves(rows[a], row)
  {
    var r := rows[a := row];
    assert r[a] == row;
    assert forall i :: 0 <= i < |rows| && i != a ==> r[i] == rows[i];
  }

  ghost predicate StateSafeRun(w: World, steps: seq<Step>)
    requires Possible(w, steps)
    decreases |steps|
  {
    steps == [] || (StateSafe(w, steps[0]) && StateSafeRun(Next(w, steps[0]), steps[1..]))
  }

  ghost predicate SafeRun(w: World, steps: seq<Step>)
    requires Possible(w, steps)
    decreases |steps|
  {
    steps == [] || (Safe(w, steps[0]) && SafeRun(Next(w, steps[0]), steps[1..]))
  }

  /**
   * Over every interleaving in which no write finds a state beyond both the one
   * it read and the one it was sent, states only move forward: a recovered alert
   * stays recovered.
   */
  lemma {:induction false} RaceStatesForward(w: World, steps: seq<Step>, i: nat)
    requires Possible(w, steps) && StateSafeRun(w, steps) && i < |w.store.rows|
    ensures i < |After(w, steps).store.rows|
    ensures Rank(w.store.rows[i].state) <= Rank(After(w, steps).store.rows[i].state)
    ensures w.store.rows[i].state == Recovered ==> After(w, steps).store.rows[i].state == Recovered
    decreases |steps|
  {
    hide Next, Enabled, StateSafe;
    if steps != [] {
      ForwardExact(w, steps[0]);
      RaceStatesForward(Next(w, steps[0]), steps[1..], i);
    }
  }

  /** Over every interleaving of writes that fit, a row takes nothing back at all. */
  lemma {:induction false} RaceRowsForward(w: World, steps: seq<Step>, i: nat)
    requires Possible(w, steps) && SafeRun(w, steps) && i < |w.store.rows|
    ensures i < |After(w, steps).store.rows| && Evolves(w.store.rows[i], After(w, steps).store.rows[i])
    decreases |steps|
  {
    hide Next, Enabled, Safe;
    if steps != [] {
      ForwardExact(w, steps[0]);
      RaceRowsForward(Next(w, steps[0]), steps[1..], i);
      hide RowsForward;
    }
  }

  // ----- The audit trail -----

  /** The write finds the state it read. */
  predicate Unmoved(w: World, s: Step)
    requires Enabled(w, s)
  {
    s.WriteRead? ==> w.store.rows[w.pending[s.id].alert].state == w.pending[s.id].row.state
  }

  /** The trail of another alert does not see a new record, and its own trail takes it. */
  lemma ReplayAppend(audit: seq<AuditRecord>, r: AuditRecord, i: nat)
    ensures Replay(audit + [r], i) == if r.alert == i then ReplayOne(Replay(audit, i), r) else Replay(audit, i)
  {
    assert (audit + [r])[..|audit|] == audit;
  }

  /**
   * A write keeps the audit trail true exactly when it finds the state it read:
   * otherwise the trail breaks, or leads to a state the row is not in.
   */
  lemma StaleAuditExact(w: World, id: nat)
    requires AuditReflects(w.store) && Enabled(w, WriteRead(id))
    ensures AuditReflects(Next(w, WriteRead(id)).store) <==> Unmoved(w, WriteRead(id))
  {
    var read, st, r := w.pending[id], w.store, Next(w, WriteRead(id)).store;
    var a := read.alert;
    ReduceIsJoin(read.row.state, read.req.dto.state);
    assert Replay(st.audit, a).At?;
    forall i: nat
      ensures r.audit == st.audit || Replay(r.audit, i) ==
                if i == a then ReplayOne(Replay(st.audit, a), r.audit[|r.audit| - 1]) else Replay(st.audit, i)
    {
      if r.audit != st.audit { ReplayAppend(st.audit, r.audit[|r.audit| - 1], i); }
    }
    if Unmoved(w, WriteRead(id)) {
      forall i: nat
        ensures i < |r.rows| ==> var t := Replay(r.audit, i); t.At? && t.state == r.rows[i].state && t.changes <= Rank(t.state)
        ensures |r.rows| <= i ==> Replay(r.audit, i) == NoTrail
      {
        assert i < |st.rows| ==> Replay(st.audit, i).At?;
      }
    }
  }

  lemma KeepsAudit(w: World, s: Step)
    requires AuditReflects(w.store) && Enabled(w, s)
    ensures Unmoved(w, s) ==> AuditReflects(Next(w, s).store)
  {
    hide AuditReflects;
    match s
    case Whole(req) => AuditStep(w.store, req);
    case ReadRow(_, _) =>
    case WriteRead(id) => StaleAuditExact(w, id);
  }

  ghost predicate UnmovedRun(w: World, steps: seq<Step>)
    requires Possible(w, steps)
    decreases |steps|
  {
    steps == [] || (Unmoved(w, steps[0]) && UnmovedRun(Next(w, steps[0]), steps[1..]))
  }

  /** Over every interleaving in which each write finds the state it read, the audit trail of every alert stays true. */
  lemma {:induction false} RaceKeepsAudit(w: World, steps: seq<Step>)
    requires AuditReflects(w.store) && Possible(w, steps) && UnmovedRun(w, steps)
    ensures AuditReflects(After(w, steps).store)
    decreases |steps|
  {
    hide AuditReflects, Next, Enabled, Unmoved;
    if steps != [] {
      KeepsAudit(w, steps[0]);
      RaceKeepsAudit(Next(w, steps[0]), steps[1..]);
    }
  }

  /** Three steps, taken one after the other. */
  lemma ThreeSteps(w: World, a: Step, b: Step, c: Step)
    requires Enabled(w, a) && Enabled(Next(w, a), b) && Enabled(Next(Next(w, a), b), c)
    ensures Possible(w, [a, b, c]) && After(w, [a, b, c]) == Next(Next(Next(w, a), b), c)
  {
    var w1, w2, w3 := Next(w, a), Next(Next(w, a), b), Next(Next(Next(w, a), b), c);
    assert [c][1..] == [] && Possible(w3, []) && Possible(w2, [c]) && After(w2, [c]) == w3;
    assert [b, c][1..] == [c] && Possible(w1, [b, c]) && After(w1, [b, c]) == w3;
    assert [a, b, c][1..] == [b, c];
  }

  /**
   * A recovered alert is reopened: an acknowledgement reads the row while it is
   * open, the recovery is ingested, and the acknowledgement writes. This holds
   * from every run that left the alert open, and breaks its audit trail.
   */
  lemma StaleWriteReopens(reqs: seq<Request>, i: nat, ack: Request, recovery: Request)
    requires i < |Run(reqs).rows| && Run(reqs).rows[i].state == Open
    requires ack.dto.key == recovery.dto.key == Run(reqs).rows[i].key
    requires ack.dto.state == Acknowledged && recovery.dto.state == Recovered && Wrote(recovery)
    ensures var w := World(Run(reqs), map[]);
            var steps := [ReadRow(0, ack), Whole(recovery), WriteRead(0)];
            && Possible(w, steps) && i < |After(w, steps).store.rows|
            && Run(reqs + [recovery]).rows[i].state == Recovered
            && After(w, steps).store.rows[i].state == Acknowledged
            && Replay(After(w, steps).store.audit, i) == Broken
  {
    hide RowsReflect, AuditReflects, StaleWritten;
    var st, mid := Run(reqs), Run(reqs + [recovery]);
    RecoveredNow(reqs, i, recovery);
    hide Run, Ingested;
    var w, read := World(st, map[]), Read(i, st.rows[i], ack);
    var w1 := World(st, map[0 := read]);
    assert Next(w, ReadRow(0, ack)) == w1;
    ReopensAudit(mid, i, st.rows[i], ack);
    ThreeSteps(w, ReadRow(0, ack), Whole(recovery), WriteRead(0));
  }

  /** The recovery in between. */
  lemma RecoveredNow(reqs: seq<Request>, i: nat, recovery: Request)
    requires i < |Run(reqs).rows| && Run(reqs).rows[i].key == recovery.dto.key
    requires recovery.dto.state == Recovered && Wrote(recovery)
    ensures var mid := Run(reqs + [recovery]);
            && mid == Ingested(Run(reqs), recovery) && Find(Run(reqs).rows, recovery.dto.key) == Some(i)
            && i < |mid.rows| && mid.rows[i].state == Recovered && AuditReflects(mid)
  {
    assert (reqs + [recovery])[..|reqs|] == reqs;
    RunReflects(reqs);
    FindMember(Run(reqs).rows, i);
    AuditReplays(reqs + [recovery]);
    hide AuditReflects, RowsReflect;
    IngestedRows(Run(reqs), recovery);
  }

  /**
   * A resolved site is forgotten: a delivery that does not know the site reads
   * the row before one that does is ingested, and writes after it.
   */
  lemma StaleWriteForgets(reqs: seq<Request>, i: nat, slow: Request, other: Request)
    requires i < |Run(reqs).rows| && Run(reqs).rows[i].siteId == None
    requires slow.dto.key == other.dto.key == Run(reqs).rows[i].key && Wrote(other)
    requires slow.ctx.site == None && other.ctx.site.Some?
    ensures var w := World(Run(reqs), map[]);
            var steps := [ReadRow(0, slow), Whole(other), WriteRead(0)];
            && Possible(w, steps) && i < |After(w, steps).store.rows|
            && Run(reqs + [other]).rows[i].siteId == other.ctx.site
            && After(w, steps).store.rows[i].siteId == None
  {
    hide RowsReflect, AuditReflects;
    var st, mid := Run(reqs), Run(reqs + [other]);
    ResolvedNow(reqs, i, other);
    hide Run, Ingested;
    var w, read := World(st, map[]), Read(i, st.rows[i], slow);
    assert Next(w, ReadRow(0, slow)) == World(st, map[0 := read]);
    ThreeSteps(w, ReadRow(0, slow), Whole(other), WriteRead(0));
  }

  lemma ResolvedNow(reqs: seq<Request>, i: nat, other: Request)
    requires i < |Run(reqs).rows| && Run(reqs).rows[i].key == other.dto.key && Run(reqs).rows[i].siteId == None && Wrote(other)
    ensures var mid := Run(reqs + [other]);
            && mid == Ingested(Run(reqs), other) && Find(Run(reqs).rows, other.dto.key) == Some(i)
            && i < |mid.rows| && mid.rows[i].siteId == other.ctx.site
  {
    assert (reqs + [other])[..|reqs|] == reqs;
    RunReflects(reqs);
    FindMember(Run(reqs).rows, i);
    hide RowsReflect;
    IngestedRows(Run(reqs), other);
  }

  /** The late write over the recovered row. */
  lemma ReopensAudit(mid: Store, i: nat, read: Row, ack: Request)
    requires AuditReflects(mid) && i < |mid.rows| && mid.rows[i].state == Recovered
    requires read.state == Open && ack.dto.state == Acknowledged
    ensures var r := StaleWritten(mid, i, read, ack); |r.rows| == |mid.rows| && r.rows[i].state == Acknowledged && Replay(r.audit, i) == Broken
  {
    assert Replay(mid.audit, i).At?;
    ReplayAppend(mid.audit, StateChanged(i, Open, Acknowledged, read.severity, ack.dto.severity), i);
  }
}
