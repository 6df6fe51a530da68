/**
 * What the delivery protocol guarantees over whole runs, and what an
 * uninterrupted flush amounts to.
 */
module ProtocolRuns {
  import opened Wrappers
  import opened Delivery
  import opened Alerts
  import opened Protocol
  import AlertRuns

  ghost predicate Possible<B>(w: World<B>, decode: Decoder<B>, steps: seq<Step<B>>)
    decreases |steps|
  {
    steps == [] || (Enabled(w, steps[0]) && Possible(Next(w, decode, steps[0]), decode, steps[1..]))
  }

  ghost function After<B>(w: World<B>, decode: Decoder<B>, steps: seq<Step<B>>): World<B>
    requires Possible(w, decode, steps)
    decreases |steps|
  {
    if steps == [] then w else After(Next(w, decode, steps[0]), decode, steps[1..])
  }

  ghost predicate DisciplinedRun<B>(w: World<B>, decode: Decoder<B>, steps: seq<Step<B>>)
    requires Possible(w, decode, steps)
    decreases |steps|
  {
    steps == [] || (Disciplined(w, steps[0]) && DisciplinedRun(Next(w, decode, steps[0]), decode, steps[1..]))
  }

  lemma {:induction false} RunKeepsInv<B>(w: World<B>, decode: Decoder<B>, steps: seq<Step<B>>)
    requires Possible(w, decode, steps) && DisciplinedRun(w, decode, steps) && Inv(w, decode)
    ensures Inv(After(w, decode, steps), decode)
    decreases |steps|
  {
    if steps != [] {
      KeepsInv(w, decode, steps[0]);
      RunKeepsInv(Next(w, decode, steps[0]), decode, steps[1..]);
    }
  }

  // ----- End to end -----

  /** The server holds the event of the body: exactly one row, or the body carries no event. */
  ghost predicate HeldByServer<B>(w: World<B>, decode: Decoder<B>, t: nat)
    requires t < |w.accepted|
  {
    var event := decode(w.accepted[t].payload.body);
    var rows := AlertRuns.Run(w.log).rows;
    event.Some? ==> |set i | 0 <= i < |rows| && rows[i].key == event.value.key| == 1
  }

  ghost predicate InFile<B>(w: World<B>, t: nat) {
    w.buf.file.Saved? && Queued(w.buf.file.items, t)
  }

  /**
   * At-least-once delivery to an idempotent receiver. In every disciplined run,
   * whatever the network, the server's faults and the crashes, each item the
   * buffer accepted was evicted by the cap, is held by the server as exactly
   * one row, or is still queued: in memory, and in the file when there is one.
   * The queue stays within its cap without repeated keys.
   */
  lemma EndToEnd<B>(cap: Cap, persists: bool, decode: Decoder<B>, steps: seq<Step<B>>, t: nat)
    requires Possible(Init<B>(cap, persists), decode, steps) && DisciplinedRun(Init<B>(cap, persists), decode, steps)
    requires t < |After(Init<B>(cap, persists), decode, steps).accepted|
    ensures var w := After(Init<B>(cap, persists), decode, steps);
            && (|| t in w.evicted
                || (t in w.acted && HeldByServer(w, decode, t))
                || (Queued(w.buf.items, t) && (w.buf.persists ==> InFile(w, t))))
            && |w.buf.items| <= w.buf.cap && UniqueKeys(w.buf.items)
  {
    RunKeepsInv(Init<B>(cap, persists), decode, steps);
    var w := After(Init<B>(cap, persists), decode, steps);
    var event := decode(w.accepted[t].payload.body);
    if t in w.acted {
      if event.Some? { AlertRuns.OneRowPerEvent(w.log, event.value.key); }
    } else if t !in w.evicted {
      assert Queued(w.buf.items, t);
      var i :| 0 <= i < |w.buf.items| && Ticket(w.buf.items[i]) == t;
      if w.buf.persists {
        var file := w.buf.file.items;
        assert file[|file| - |w.buf.items|..][i] == file[|file| - |w.buf.items| + i];
      }
    }
  }

  /**
   * Delivery order: in every disciplined run an item is first posted only once
   * every item accepted before it was completed by the server or evicted.
   */
  lemma PostedInOrder<B>(cap: Cap, persists: bool, decode: Decoder<B>, steps: seq<Step<B>>, t: nat, u: nat)
    requires Possible(Init<B>(cap, persists), decode, steps) && DisciplinedRun(Init<B>(cap, persists), decode, steps)
    requires t in After(Init<B>(cap, persists), decode, steps).posted && u < t
    ensures var w := After(Init<B>(cap, persists), decode, steps); u in w.evicted || u in w.acted
  {
    RunKeepsInv(Init<B>(cap, persists), decode, steps);
  }

  /** The item a settled send removes is the one it sent, and the server has completed it. */
  lemma RemovedIsSent<B>(w: World<B>, decode: Decoder<B>, id: nat)
    requires Inv(w, decode) && Enabled(w, SendOk(id))
    ensures w.buf.items == [w.flights[id].entry] + Next(w, decode, SendOk(id)).buf.items
    ensures Ticket(w.flights[id].entry) in w.acted
  {
  }

  /**
   * Crash durability: reloading at any point of a disciplined run brings back
   * the whole queue, preceded only by items the server already completed.
   */
  lemma ReloadLosesNothing<B>(w: World<B>, decode: Decoder<B>, cap: Cap)
    requires Inv(w, decode) && Disciplined(w, Crash(cap))
    ensures var back := Next(w, decode, Crash(cap)).buf.items;
            && |w.buf.items| <= |back|
            && back[|back| - |w.buf.items|..] == w.buf.items
            && forall i :: 0 <= i < |back| - |w.buf.items| ==> Ticket(back[i]) in w.acted
  {
    ReloadDurable(w.buf, w.accepted, w.acted, cap);
  }

  /** How many items a flush has delivered once a send of it settles. */
  function DeliveredBy<B>(w: World<B>, s: Step<B>): nat
    requires Enabled(w, s) && (s.SendOk? || s.SendFail?)
  {
    if s.SendOk? then w.flights[s.id].delivered + 1 else w.flights[s.id].delivered
  }

  /** The end of a flush rewrites the file exactly when the buffer has one and something was delivered. */
  lemma FlushEndPersists<B>(w: World<B>, decode: Decoder<B>, s: Step<B>)
    requires Enabled(w, s) && (s.SendOk? || s.SendFail?) && s.id !in Next(w, decode, s).flights
    ensures var r := Next(w, decode, s);
            r.buf.file == if w.buf.persists && DeliveredBy(w, s) > 0 then Saved(r.buf.items) else w.buf.file
  {
    hide Enqueued, HasKey;
  }

  /** So a crash right after it, under a cap that holds the queue, brings back exactly the queue and resends nothing. */
  lemma CrashAfterFlush<B>(w: World<B>, decode: Decoder<B>, s: Step<B>, cap: Cap)
    requires Enabled(w, s) && (s.SendOk? || s.SendFail?) && s.id !in Next(w, decode, s).flights
    requires w.buf.persists && DeliveredBy(w, s) > 0 && |Next(w, decode, s).buf.items| <= cap
    ensures Next(Next(w, decode, s), decode, Crash(cap)).buf.items == Next(w, decode, s).buf.items
  {
    FlushEndPersists(w, decode, s);
    var r := Next(w, decode, s);
    assert r.buf.persists by { hide Enqueued, HasKey; }
    hide Enqueued, HasKey, Looped, Finished;
  }

  /** An item of any other channel is never posted: its send can only fail, and leaves it where it is. */
  lemma OtherChannelFails<B>(w: World<B>, decode: Decoder<B>, id: nat, ctx: Context)
    requires id !in w.flights && w.buf.items != [] && w.buf.items[0].channel !in {"snmp", "alert", "health"}
    ensures var r := Next(w, decode, Start(id));
            && !Enabled(r, Acts(id, ctx)) && !Enabled(r, SendOk(id)) && Enabled(r, SendFail(id)) && r.posted == w.posted
            && Next(r, decode, SendFail(id)).buf.items == w.buf.items
  {
    hide Enqueued, HasKey;
  }

  /** A request whose ingest fails, even after its write, is not taken for delivered: its send can only fail, and the item stays. */
  lemma FailedIngestIsKept<B>(w: World<B>, decode: Decoder<B>, id: nat, ctx: Context)
    requires Enabled(w, Acts(id, ctx)) && ctx.fault != NoFault && decode(w.flights[id].entry.payload.body).Some?
    ensures var r := Next(w, decode, Acts(id, ctx));
            && !Enabled(r, SendOk(id)) && Enabled(r, SendFail(id)) && r.acted == w.acted
            && Next(r, decode, SendFail(id)).buf.items == w.buf.items
  {
    hide Enqueued, HasKey;
  }

  // ----- Runs put together -----

  lemma {:induction false} Append<B>(w: World<B>, decode: Decoder<B>, steps: seq<Step<B>>, more: seq<Step<B>>)
    requires Possible(w, decode, steps) && Possible(After(w, decode, steps), decode, more)
    ensures Possible(w, decode, steps + more)
    ensures After(w, decode, steps + more) == After(After(w, decode, steps), decode, more)
    decreases |steps|
  {
    hide Next, Enabled;
    if steps == [] {
      assert steps + more == more;
    } else {
      Append(Next(w, decode, steps[0]), decode, steps[1..], more);
      assert (steps + more)[1..] == steps[1..] + more;
    }
  }

  /** One more step at the end of a run. */
  lemma Snoc<B>(w: World<B>, decode: Decoder<B>, steps: seq<Step<B>>, s: Step<B>)
    requires Possible(w, decode, steps) && Enabled(After(w, decode, steps), s)
    ensures Possible(w, decode, steps + [s])
    ensures After(w, decode, steps + [s]) == Next(After(w, decode, steps), decode, s)
  {
    var mid := After(w, decode, steps);
    assert [s][1..] == [];
    assert Possible(Next(mid, decode, s), decode, []);
    assert Possible(mid, decode, [s]);
    Append(w, decode, steps, [s]);
  }

  /** One more step at the front of a run. */
  lemma Cons<B>(w: World<B>, decode: Decoder<B>, s: Step<B>, mid: World<B>, steps: seq<Step<B>>)
    requires Enabled(w, s) && Next(w, decode, s) == mid && Possible(mid, decode, steps)
    ensures Possible(w, decode, [s] + steps) && After(w, decode, [s] + steps) == After(mid, decode, steps)
  {
    assert ([s] + steps)[1..] == steps;
  }

  // ----- An uninterrupted flush -----

  ghost function Rounds<B>(k: nat, ctx: Context): seq<Step<B>> {
    if k == 0 then [] else [Acts(0, ctx), SendOk(0)] + Rounds(k - 1, ctx)
  }

  /** The run of a flush of `n` items of which the first `k` are delivered. */
  ghost function FlushRun<B>(n: nat, k: nat, ctx: Context): seq<Step<B>> {
    [Start(0)] + Rounds(k, ctx) + if k < n then [SendFail(0)] else []
  }

  ghost predicate InRound<B>(w: World<B>, delivered: nat) {
    && w.buf.items != []
    && w.flights == map[0 := Flight(w.buf.items[0], delivered, false)]
    && forall i :: 0 <= i < |w.buf.items| ==> Known(w.buf.items[i].channel)
  }

  lemma TwoSteps<B>(w: World<B>, decode: Decoder<B>, s: Step<B>, t: Step<B>)
    requires Enabled(w, s) && Enabled(Next(w, decode, s), t)
    ensures Possible(w, decode, [s, t])
    ensures After(w, decode, [s, t]) == Next(Next(w, decode, s), decode, t)
  {
    assert Possible(w, decode, []);
    Snoc(w, decode, [], s);
    assert [] + [s] == [s] && [s] + [t] == [s, t];
    Snoc(w, decode, [s], t);
  }

  /** One delivered item. */
  lemma Round<B>(w: World<B>, decode: Decoder<B>, ctx: Context, delivered: nat)
    requires InRound(w, delivered) && ctx.fault == NoFault
    ensures Enabled(w, Acts(0, ctx)) && Enabled(Next(w, decode, Acts(0, ctx)), SendOk(0))
    ensures var r := Next(Next(w, decode, Acts(0, ctx)), decode, SendOk(0));
            if |w.buf.items| == 1 then r.flights == map[] && r.buf == Finished(w.buf.(items := []), delivered + 1)
            else InRound(r, delivered + 1) && r.buf == w.buf.(items := w.buf.items[1..])
  {
    var w1 := Next(w, decode, Acts(0, ctx));
    assert w1.flights == map[0 := Flight(w.buf.items[0], delivered, true)] && w1.buf == w.buf;
    assert |w.buf.items| == 1 ==> w.buf.items[1..] == [];
  }

  lemma {:induction false} RoundsRun<B>(w: World<B>, decode: Decoder<B>, ctx: Context, k: nat, delivered: nat)
    requires InRound(w, delivered) && ctx.fault == NoFault && k <= |w.buf.items|
    ensures Possible(w, decode, Rounds(k, ctx))
    ensures var r := After(w, decode, Rounds(k, ctx));
            if k == |w.buf.items| then r.flights == map[] && r.buf == Finished(w.buf.(items := []), delivered + k)
            else InRound(r, delivered + k) && r.buf == w.buf.(items := w.buf.items[k..])
    decreases k
  {
    if k == 0 {
      assert w.buf.items[0..] == w.buf.items;
    } else {
      hide Next, Enabled, Possible, After, Finished, Known;
      Round(w, decode, ctx, delivered);
      TwoSteps(w, decode, Acts(0, ctx), SendOk(0));
      var r := After(w, decode, [Acts(0, ctx), SendOk(0)]);
      if |w.buf.items| > 1 {
        RoundsRun(r, decode, ctx, k - 1, delivered + 1);
        assert w.buf.items[1..][k - 1..] == w.buf.items[k..];
      } else {
        NoRounds(r, decode, ctx);
      }
      Append(w, decode, [Acts(0, ctx), SendOk(0)], Rounds(k - 1, ctx));
    }
  }

  lemma NoRounds<B>(w: World<B>, decode: Decoder<B>, ctx: Context)
    ensures Possible(w, decode, Rounds(0, ctx)) && After(w, decode, Rounds(0, ctx)) == w
  {
  }

  /**
   * A flush nothing interleaves with, as the class computes it, is the run that
   * starts, delivers `k` items one by one and, if some are left, fails once.
   * With `k` the whole queue this is the drain on reconnect: it leaves the
   * queue and the file empty.
   */
  lemma FlushIsRun<B>(w: World<B>, decode: Decoder<B>, ctx: Context, k: nat)
    requires w.flights == map[] && ctx.fault == NoFault && k <= |w.buf.items|
    requires forall i :: 0 <= i < |w.buf.items| ==> w.buf.items[i].channel in {"snmp", "alert", "health"}
    ensures var steps := FlushRun(|w.buf.items|, k, ctx);
            && Possible(w, decode, steps)
            && After(w, decode, steps).buf == Finished(w.buf.(items := w.buf.items[k..]), k)
            && After(w, decode, steps).buf.items == w.buf.items[k..]
            && After(w, decode, steps).buf.file == (if w.buf.persists && k > 0 then Saved(w.buf.items[k..]) else w.buf.file)
            && After(w, decode, steps).flights == map[]
  {
    FlushStarts(w, decode);
    if w.buf.items == [] {
      assert FlushRun<B>(0, 0, ctx) == [Start(0)] by { assert Rounds<B>(0, ctx) == []; }
      assert w.buf.items[k..] == w.buf.items;
    } else {
      FlushGoes(w, decode, ctx, k);
    }
  }

  lemma FlushStarts<B>(w: World<B>, decode: Decoder<B>)
    requires w.flights == map[]
    ensures Possible(w, decode, [Start(0)]) && After(w, decode, [Start(0)]) == Next(w, decode, Start(0))
    ensures var w1 := Next(w, decode, Start(0));
            && w1.buf == w.buf
            && w1.flights == if w.buf.items == [] then map[] else map[0 := Flight(w.buf.items[0], 0, false)]
  {
    var start: Step<B> := Start(0);
    assert [] + [start] == [start] && Possible(w, decode, []);
    Snoc(w, decode, [], start);
  }

  /** The rounds of a flush that has started, and the failure that ends it early. */
  lemma FlushGoes<B>(w: World<B>, decode: Decoder<B>, ctx: Context, k: nat)
    requires w.flights == map[] && ctx.fault == NoFault && k <= |w.buf.items| && w.buf.items != []
    requires forall i :: 0 <= i < |w.buf.items| ==> Known(w.buf.items[i].channel)
    ensures var steps := FlushRun(|w.buf.items|, k, ctx);
            && Possible(w, decode, steps)
            && After(w, decode, steps).buf == Finished(w.buf.(items := w.buf.items[k..]), k)
            && After(w, decode, steps).flights == map[]
  {
    FlushStarts(w, decode);
    hide Possible, After, Rounds, Known;
    var n, w1, begun := |w.buf.items|, Next(w, decode, Start(0)), [Start(0)] + Rounds<B>(k, ctx);
    RoundsRun(w1, decode, ctx, k, 0);
    Append(w, decode, [Start(0)], Rounds(k, ctx));
    if k < n {
      var w2 := After(w, decode, begun);
      Snoc(w, decode, begun, SendFail(0));
      assert w2.flights - {0} == map[];
    } else {
      assert FlushRun<B>(n, k, ctx) == begun && w.buf.items[k..] == [];
    }
  }
}
