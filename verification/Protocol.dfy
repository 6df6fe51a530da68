/**
 * The delivery protocol from collector to API as a step system: enqueueing,
 * flushes cut at their `await`, a network that may lose requests or answers,
 * a server that ingests, and crashes of the collector.
 *
 * The buffer is parametric in its payload. Here a payload is tagged with a
 * ticket, the position of the item in the order of acceptance. Tickets are
 * history: no guard and no branch of any step looks at one.
 */
module Protocol {
  import opened Wrappers
  import opened Delivery
  import opened Alerts
  import AlertRuns

  datatype Tagged<+B> = Tagged(ticket: nat, body: B)
  type Entry<B> = Item<Tagged<B>>

  /** A flush waiting for its send of `entry`; `acted` tells that the server completed this request. */
  datatype Flight<B> = Flight(entry: Entry<B>, delivered: nat, acted: bool)

  /**
   * `accepted` lists every item the buffer took, by ticket. `evicted` are the
   * tickets the cap dropped, `posted` those sent at least once, and `acted`
   * those the server completed at least once. `log` is every ingest so far.
   */
  datatype World<B> = World(
    buf: Buffer<Tagged<B>>, flights: map<nat, Flight<B>>, log: seq<Request>,
    accepted: seq<Entry<B>>, evicted: set<nat>, posted: set<nat>, acted: set<nat>)

  datatype Step<B> =
    | Enqueue(key: string, channel: string, body: B, now: int)
    | Start(id: nat)
    | Acts(id: nat, ctx: Context)
    | LateActs(ticket: nat, ctx: Context)
    | SendOk(id: nat)
    | SendFail(id: nat)
    | Crash(cap: Cap)

  /** The event the API makes of a body, if it makes one: a rejected trap and a health snapshot make none. */
  type Decoder<!B> = B -> Option<Dto>

  function Ticket<B>(e: Entry<B>): nat { e.payload.ticket }

  /** The tickets of the first `n` items. */
  function Tickets<B>(items: seq<Entry<B>>, n: nat): set<nat>
    requires n <= |items|
  {
    set i | 0 <= i < n :: Ticket(items[i])
  }

  /** A channel outside these makes the send throw before it posts anything. */
  predicate Known(channel: string) {
    channel == "snmp" || channel == "alert" || channel == "health"
  }

  function Init<B>(cap: Cap, persists: bool): World<B> {
    World(Buffer(cap, persists, [], Absent), map[], [], [], {}, {}, {})
  }

  predicate Enabled<B>(w: World<B>, s: Step<B>) {
    match s
    case Enqueue(_, _, _, _) => true
    case Start(id) => id !in w.flights
    case Acts(id, _) => id in w.flights && Known(w.flights[id].entry.channel) && !w.flights[id].acted
    case LateActs(t, _) => t in w.posted && t < |w.accepted|
    case SendOk(id) => id in w.flights && w.flights[id].acted
    case SendFail(id) => id in w.flights
    case Crash(_) => true
  }

  /** The server handles one request for `e`: it ingests the event the body carries, unless it carries none. */
  function Served<B>(w: World<B>, decode: Decoder<B>, e: Entry<B>, ctx: Context): World<B> {
    var event := decode(e.payload.body);
    w.(log := if event.Some? then w.log + [Request(event.value, ctx)] else w.log,
       acted := if event.None? || ctx.fault == NoFault then w.acted + {Ticket(e)} else w.acted)
  }

  /** The loop test of a flush that has delivered `delivered` items: send the head, or end. */
  function Looped<B>(w: World<B>, id: nat, delivered: nat): World<B> {
    if w.buf.items == [] then w.(buf := Finished(w.buf, delivered), flights := w.flights - {id})
    else
      var head := w.buf.items[0];
      w.(flights := w.flights[id := Flight(head, delivered, false)],
         posted := if Known(head.channel) then w.posted + {Ticket(head)} else w.posted)
  }

  function Next<B>(w: World<B>, decode: Decoder<B>, s: Step<B>): World<B>
    requires Enabled(w, s)
  {
    match s
    case Enqueue(key, channel, body, now) =>
      var e := Item(key, channel, Tagged(|w.accepted|, body), now);
      if HasKey(w.buf.items, key) then w
      else
        var all := w.buf.items + [e];
        w.(buf := Enqueued(w.buf, e),
           accepted := w.accepted + [e],
           evicted := w.evicted + Tickets(all, |all| - |LastN(all, w.buf.cap)|))
    case Start(id) => Looped(w, id, 0)
    case Acts(id, ctx) =>
      var f := w.flights[id];
      var completed := decode(f.entry.payload.body).None? || ctx.fault == NoFault;
      Served(w, decode, f.entry, ctx).(flights := w.flights[id := f.(acted := completed)])
    case LateActs(t, ctx) => Served(w, decode, w.accepted[t], ctx)
    case SendOk(id) => Looped(w.(buf := Shifted(w.buf)), id, w.flights[id].delivered + 1)
    case SendFail(id) => w.(buf := Finished(w.buf, w.flights[id].delivered), flights := w.flights - {id})
    case Crash(cap) =>
      w.(buf := Buffer(cap, w.buf.persists, if w.buf.persists then Loaded(w.buf.file, cap) else [], w.buf.file),
         flights := map[])
  }

  /**
   * The conditions the guarantees need: one flush at a time, no eviction while
   * a send is pending, and restarts only of a file-backed buffer, with a cap
   * that still holds what is queued.
   */
  predicate Disciplined<B>(w: World<B>, s: Step<B>) {
    match s
    case Start(_) => w.flights == map[]
    case Enqueue(key, _, _, _) => w.flights != map[] ==> HasKey(w.buf.items, key) || |w.buf.items| < w.buf.cap
    case Crash(cap) => w.buf.persists && |w.buf.items| <= cap
    case _ => true
  }

  // ----- The invariant -----

  ghost predicate Genuine<B>(accepted: seq<Entry<B>>, e: Entry<B>) {
    Ticket(e) < |accepted| && accepted[Ticket(e)] == e
  }

  /** A stretch of queue: genuine items in order of acceptance, without repeated keys. */
  ghost predicate Ordered<B>(accepted: seq<Entry<B>>, items: seq<Entry<B>>) {
    && (forall i :: 0 <= i < |items| ==> Genuine(accepted, items[i]))
    && (forall i, j :: 0 <= i < j < |items| ==> Ticket(items[i]) < Ticket(items[j]))
    && UniqueKeys(items)
  }

  /** A pending send is always the send of the queue's head, and there is at most one. */
  ghost predicate HeadInFlight<B>(items: seq<Entry<B>>, flights: map<nat, Flight<B>>, posted: set<nat>, acted: set<nat>) {
    && (forall id, id' :: id in flights && id' in flights ==> id == id')
    && (forall id :: id in flights ==>
          && items != [] && flights[id].entry == items[0]
          && (flights[id].acted ==> Ticket(flights[id].entry) in acted)
          && (Known(flights[id].entry.channel) ==> Ticket(flights[id].entry) in posted))
  }

  /** The file is a stretch of delivered items followed by exactly the queue in memory. */
  ghost predicate Durable<B>(buf: Buffer<Tagged<B>>, accepted: seq<Entry<B>>, acted: set<nat>) {
    buf.persists ==>
      if buf.file.Saved? then
        var file, items := buf.file.items, buf.items;
        && Ordered(accepted, file)
        && |items| <= |file| && file[|file| - |items|..] == items
        && (forall i :: 0 <= i < |file| - |items| ==> Ticket(file[i]) in acted)
      else buf.items == []
  }

  ghost predicate Queued<B>(items: seq<Entry<B>>, t: nat) {
    exists i :: 0 <= i < |items| && Ticket(items[i]) == t
  }

  /** Nothing is lost: each of the first `n` tickets was evicted, was completed by the server, or is still queued. */
  ghost predicate Accounted<B>(n: nat, evicted: set<nat>, acted: set<nat>, items: seq<Entry<B>>) {
    forall t: nat :: t < n ==> t in evicted || t in acted || Queued(items, t)
  }

  /** Nothing overtakes: an item is posted only after every earlier one was completed by the server or evicted. */
  ghost predicate NoOvertaking(posted: set<nat>, evicted: set<nat>, acted: set<nat>) {
    forall t: nat, u: nat :: t in posted && u < t ==> u in evicted || u in acted
  }

  ghost predicate Sets(n: nat, posted: set<nat>, evicted: set<nat>, acted: set<nat>) {
    && (forall t :: t in posted || t in evicted ==> t < n)
    && acted <= posted
  }

  ghost predicate Numbered<B>(accepted: seq<Entry<B>>) {
    forall t: nat :: t < |accepted| ==> Ticket(accepted[t]) == t
  }

  /** Every event the server completed was ingested. */
  ghost predicate Recorded<B>(accepted: seq<Entry<B>>, acted: set<nat>, log: seq<Request>, decode: Decoder<B>) {
    forall t: nat :: t < |accepted| && t in acted && decode(accepted[t].payload.body).Some? ==>
      AlertRuns.Payloads(log, decode(accepted[t].payload.body).value.key) != {}
  }

  ghost predicate Inv<B>(w: World<B>, decode: Decoder<B>) {
    && |w.buf.items| <= w.buf.cap
    && Ordered(w.accepted, w.buf.items)
    && HeadInFlight(w.buf.items, w.flights, w.posted, w.acted)
    && Durable(w.buf, w.accepted, w.acted)
    && Accounted(|w.accepted|, w.evicted, w.acted, w.buf.items)
    && NoOvertaking(w.posted, w.evicted, w.acted)
    && Sets(|w.accepted|, w.posted, w.evicted, w.acted)
    && Numbered(w.accepted)
    && Recorded(w.accepted, w.acted, w.log, decode)
  }

  // ----- Every disciplined step keeps it -----

  /** A new item joins the queue's tail, keeping its order and its keys unique. */
  lemma JoinsInOrder<B>(accepted: seq<Entry<B>>, items: seq<Entry<B>>, e: Entry<B>)
    requires Ordered(accepted, items) && Ticket(e) == |accepted| && !HasKey(items, e.key)
    ensures Ordered(accepted + [e], items + [e])
  {
  }

  lemma OrderedTail<B>(accepted: seq<Entry<B>>, items: seq<Entry<B>>, k: nat)
    requires Ordered(accepted, items) && k <= |items|
    ensures Ordered(accepted, items[k..])
  {
  }

  lemma QueuedSplit<B>(items: seq<Entry<B>>, cut: nat, t: nat)
    requires cut <= |items| && Queued(items, t)
    ensures Queued(items[cut..], t) || exists i :: 0 <= i < cut && Ticket(items[i]) == t
  {
    var i :| 0 <= i < |items| && Ticket(items[i]) == t;
    if i >= cut { assert Ticket(items[cut..][i - cut]) == t; }
  }

  lemma EnqueueAccounts<B>(n: nat, evicted: set<nat>, acted: set<nat>, items: seq<Entry<B>>, e: Entry<B>, cut: nat)
    requires Accounted(n, evicted, acted, items) && Ticket(e) == n && cut <= |items|
    ensures Accounted(n + 1, evicted + Tickets(items + [e], cut), acted, (items + [e])[cut..])
  {
    var all := items + [e];
    var dropped := Tickets(all, cut);
    assert all[|items|] == e;
    forall t: nat | t < n + 1 ensures t in evicted + dropped || t in acted || Queued(all[cut..], t) {
      if t == n || Queued(items, t) {
        if t < n {
          var i :| 0 <= i < |items| && Ticket(items[i]) == t;
          assert all[i] == items[i];
        }
        assert Queued(all, t);
        QueuedSplit(all, cut, t);
      }
    }
  }

  lemma EnqueueRecords<B>(accepted: seq<Entry<B>>, acted: set<nat>, log: seq<Request>, decode: Decoder<B>, e: Entry<B>)
    requires Recorded(accepted, acted, log, decode) && |accepted| !in acted && Numbered(accepted) && Ticket(e) == |accepted|
    ensures Recorded(accepted + [e], acted, log, decode) && Numbered(accepted + [e])
  {
  }

  /** What an enqueue of a new key does: it cuts the oldest off when the buffer is full. */
  lemma EnqueueShape<B>(w: World<B>, decode: Decoder<B>, s: Step<B>) returns (e: Entry<B>, cut: nat)
    requires s.Enqueue? && !HasKey(w.buf.items, s.key) && |w.buf.items| <= w.buf.cap
    ensures Ticket(e) == |w.accepted| && e.key == s.key && cut <= |w.buf.items|
    ensures Next(w, decode, s) == w.(buf := Persisted(w.buf.(items := (w.buf.items + [e])[cut..])), accepted := w.accepted + [e],
                                     evicted := w.evicted + Tickets(w.buf.items + [e], cut))
    ensures |w.buf.items| + 1 - cut <= w.buf.cap && (|w.buf.items| < w.buf.cap ==> cut == 0)
  {
    hide Tickets, Persisted;
    e := Item(s.key, s.channel, Tagged(|w.accepted|, s.body), s.now);
    var all := w.buf.items + [e];
    cut := |all| - |LastN(all, w.buf.cap)|;
    assert LastN(all, w.buf.cap) == all[cut..];
  }

  lemma KeepsEnqueue<B>(w: World<B>, decode: Decoder<B>, s: Step<B>)
    requires Inv(w, decode) && s.Enqueue? && Disciplined(w, s)
    ensures Inv(Next(w, decode, s), decode)
  {
    hide Accounted, Recorded, NoOvertaking, Ordered, Numbered, Durable, HeadInFlight, Tickets;
    if !HasKey(w.buf.items, s.key) {
      var e, cut := EnqueueShape(w, decode, s);
      hide Next, HasKey;
      var r, n, all := Next(w, decode, s), |w.accepted|, w.buf.items + [e];
      EnqueueAccounts(n, w.evicted, w.acted, w.buf.items, e, cut);
      EnqueueRecords(w.accepted, w.acted, w.log, decode, e);
      JoinsInOrder(w.accepted, w.buf.items, e);
      OrderedTail(r.accepted, all, cut);
      MoreEvicted(w.posted, w.evicted, w.acted, r.evicted);
      EvictedAreKnown(w.accepted, w.buf.items, e, cut);
      SavedIsDurable(r.buf, r.accepted, r.acted);
      EnqueueKeepsHead(w.buf.items, e, cut, w.flights, w.posted, w.acted);
    }
  }

  lemma MoreEvicted(posted: set<nat>, evicted: set<nat>, acted: set<nat>, more: set<nat>)
    requires NoOvertaking(posted, evicted, acted) && evicted <= more
    ensures NoOvertaking(posted, more, acted)
  {
  }

  lemma EvictedAreKnown<B>(accepted: seq<Entry<B>>, items: seq<Entry<B>>, e: Entry<B>, cut: nat)
    requires Ordered(accepted, items) && cut <= |items|
    ensures forall t :: t in Tickets(items + [e], cut) ==> t < |accepted|
  {
    forall i | 0 <= i < cut ensures Ticket((items + [e])[i]) < |accepted| {
      assert Genuine(accepted, items[i]);
    }
  }

  lemma SavedIsDurable<B>(buf: Buffer<Tagged<B>>, accepted: seq<Entry<B>>, acted: set<nat>)
    requires Ordered(accepted, buf.items) && (buf.persists ==> buf.file == Saved(buf.items))
    ensures Durable(buf, accepted, acted)
  {
    hide Ordered;
    assert buf.items[0..] == buf.items;
  }

  lemma EnqueueKeepsHead<B>(items: seq<Entry<B>>, e: Entry<B>, cut: nat, flights: map<nat, Flight<B>>, posted: set<nat>, acted: set<nat>)
    requires HeadInFlight(items, flights, posted, acted) && cut <= |items| && (flights != map[] ==> cut == 0)
    ensures HeadInFlight((items + [e])[cut..], flights, posted, acted)
  {
  }

  /** Posting the head overtakes nothing: everything before it has left the queue. */
  lemma PostsHead<B>(n: nat, evicted: set<nat>, acted: set<nat>, posted: set<nat>, accepted: seq<Entry<B>>, items: seq<Entry<B>>)
    requires Accounted(n, evicted, acted, items) && Ordered(accepted, items) && |accepted| == n && items != []
    requires NoOvertaking(posted, evicted, acted)
    ensures NoOvertaking(posted + {Ticket(items[0])}, evicted, acted) && Ticket(items[0]) < n
  {
    assert Genuine(accepted, items[0]);
    assert forall i :: 0 <= i < |items| ==> Ticket(items[0]) <= Ticket(items[i]);
    assert forall u: nat :: u < Ticket(items[0]) ==> !Queued(items, u);
  }

  /** The loop test of a flush: the invariant without flights becomes the invariant with at most one. */
  lemma KeepsLooped<B>(w: World<B>, decode: Decoder<B>, id: nat, delivered: nat)
    requires Inv(w.(flights := map[]), decode)
    requires forall k :: k in w.flights ==> k == id
    ensures Inv(Looped(w, id, delivered), decode)
  {
    hide Accounted, Recorded, NoOvertaking, Numbered;
    hide Ordered, Durable;
    SavedIsDurable(Persisted(w.buf), w.accepted, w.acted);
    if w.buf.items != [] {
      PostsHead(|w.accepted|, w.evicted, w.acted, w.posted, w.accepted, w.buf.items);
    }
  }

  lemma ShiftAccounts<B>(n: nat, evicted: set<nat>, acted: set<nat>, items: seq<Entry<B>>)
    requires Accounted(n, evicted, acted, items) && items != [] && Ticket(items[0]) in acted
    ensures Accounted(n, evicted, acted, items[1..])
  {
    forall t: nat | t < n && Queued(items, t) ensures t in acted || Queued(items[1..], t) {
      QueuedSplit(items, 1, t);
    }
  }

  lemma ShiftDurable<B>(buf: Buffer<Tagged<B>>, accepted: seq<Entry<B>>, acted: set<nat>)
    requires Durable(buf, accepted, acted) && buf.items != [] && Ticket(buf.items[0]) in acted
    ensures Durable(buf.(items := buf.items[1..]), accepted, acted)
  {
    hide Ordered;
    if buf.persists {
      var file, n := buf.file.items, |buf.items|;
      assert file[|file| - n] == file[|file| - n..][0];
      assert file[|file| - (n - 1)..] == file[|file| - n..][1..];
    }
  }

  /** Removing the head once the server completed it. */
  lemma KeepsShift<B>(w: World<B>, decode: Decoder<B>)
    requires Inv(w, decode) && w.buf.items != [] && Ticket(w.buf.items[0]) in w.acted
    ensures Inv(w.(buf := Shifted(w.buf), flights := map[]), decode)
  {
    hide Accounted, Recorded, NoOvertaking, Numbered, Ordered, Durable;
    ShiftAccounts(|w.accepted|, w.evicted, w.acted, w.buf.items);
    ShiftDurable(w.buf, w.accepted, w.acted);
    OrderedTail(w.accepted, w.buf.items, 1);
  }

  /** The log only grows, and so do the payloads it delivered. */
  lemma PayloadsGrow(log: seq<Request>, req: Request, key: EventKey)
    ensures AlertRuns.Payloads(log, key) <= AlertRuns.Payloads(log + [req], key)
    ensures AlertRuns.Wrote(req) && req.dto.key == key ==> AlertRuns.Payloads(log + [req], key) != {}
  {
    var all := log + [req];
    forall d | d in AlertRuns.Payloads(log, key) ensures d in AlertRuns.Payloads(all, key) {
      var p :| 0 <= p < |log| && AlertRuns.Feeds(log, p, key) && log[p].dto == d;
      assert AlertRuns.Feeds(all, p, key) && all[p].dto == d;
    }
    if AlertRuns.Wrote(req) && req.dto.key == key {
      assert AlertRuns.Feeds(all, |log|, key) && all[|log|].dto in AlertRuns.Payloads(all, key);
    }
  }

  lemma ServedRecords<B>(w: World<B>, decode: Decoder<B>, e: Entry<B>, ctx: Context)
    requires Recorded(w.accepted, w.acted, w.log, decode) && Genuine(w.accepted, e)
    ensures var r := Served(w, decode, e, ctx); Recorded(r.accepted, r.acted, r.log, decode)
  {
    var r := Served(w, decode, e, ctx);
    forall t: nat | t < |r.accepted| && t in r.acted && decode(r.accepted[t].payload.body).Some?
      ensures AlertRuns.Payloads(r.log, decode(r.accepted[t].payload.body).value.key) != {}
    {
      if decode(e.payload.body).Some? {
        PayloadsGrow(w.log, Request(decode(e.payload.body).value, ctx), decode(r.accepted[t].payload.body).value.key);
      }
    }
  }

  lemma MoreActed<B>(w: World<B>, t: nat)
    requires Durable(w.buf, w.accepted, w.acted) && NoOvertaking(w.posted, w.evicted, w.acted)
    requires Accounted(|w.accepted|, w.evicted, w.acted, w.buf.items)
    ensures var acted := w.acted + {t};
            Durable(w.buf, w.accepted, acted) && NoOvertaking(w.posted, w.evicted, acted)
            && Accounted(|w.accepted|, w.evicted, acted, w.buf.items)
  {
    hide Ordered, Queued;
  }

  lemma KeepsServed<B>(w: World<B>, decode: Decoder<B>, e: Entry<B>, ctx: Context)
    requires Inv(w, decode) && Genuine(w.accepted, e) && Ticket(e) in w.posted
    ensures Inv(Served(w, decode, e, ctx), decode)
  {
    hide Accounted, Recorded, NoOvertaking, Numbered, Ordered, Durable;
    ServedRecords(w, decode, e, ctx);
    MoreActed(w, Ticket(e));
  }

  /** The part of a file a reload brings back, split at the queue it ends with. */
  lemma LastOfFile<B>(file: seq<Entry<B>>, items: seq<Entry<B>>, acted: set<nat>, cap: nat)
    requires |items| <= |file| && file[|file| - |items|..] == items && |items| <= cap
    requires forall i :: 0 <= i < |file| - |items| ==> Ticket(file[i]) in acted
    ensures var back := LastN(file, cap);
            && |items| <= |back| <= cap && back[|back| - |items|..] == items && |back| <= |file| && back == file[|file| - |back|..]
            && forall i :: 0 <= i < |back| - |items| ==> Ticket(back[i]) in acted
  {
    var back := LastN(file, cap);
    assert back == file[|file| - |back|..];
    assert back[|back| - |items|..] == file[|file| - |items|..];
    forall i | 0 <= i < |back| - |items| ensures Ticket(back[i]) in acted {
      assert back[i] == file[|file| - |back| + i];
    }
  }

  lemma ReloadDurable<B>(buf: Buffer<Tagged<B>>, accepted: seq<Entry<B>>, acted: set<nat>, cap: Cap)
    requires Durable(buf, accepted, acted) && buf.persists && |buf.items| <= cap
    ensures var back := Loaded(buf.file, cap);
            && Durable(buf.(cap := cap, items := back), accepted, acted)
            && |buf.items| <= |back| <= cap && back[|back| - |buf.items|..] == buf.items
            && (forall i :: 0 <= i < |back| - |buf.items| ==> Ticket(back[i]) in acted)
            && Ordered(accepted, back)
  {
    if buf.file.Saved? {
      var file, back := buf.file.items, Loaded(buf.file, cap);
      LastOfFile(file, buf.items, acted, cap);
      OrderedTail(accepted, file, |file| - |back|);
      hide Ordered, LastN, UniqueKeys;
      assert |file| - |back| <= |file| - |buf.items|;
    } else {
      assert Ordered(accepted, []);
    }
  }

  lemma QueuedInTail<B>(back: seq<Entry<B>>, items: seq<Entry<B>>, t: nat)
    requires |items| <= |back| && back[|back| - |items|..] == items && Queued(items, t)
    ensures Queued(back, t)
  {
    var i :| 0 <= i < |items| && Ticket(items[i]) == t;
    assert back[|back| - |items| + i] == back[|back| - |items|..][i];
  }

  lemma KeepsCrash<B>(w: World<B>, decode: Decoder<B>, s: Step<B>)
    requires Inv(w, decode) && s.Crash? && Disciplined(w, s)
    ensures Inv(Next(w, decode, s), decode)
  {
    hide Recorded, NoOvertaking, Numbered, Ordered, Durable, Loaded, Queued;
    ReloadDurable(w.buf, w.accepted, w.acted, s.cap);
    var back := Loaded(w.buf.file, s.cap);
    forall t: nat | t < |w.accepted| && Queued(w.buf.items, t) ensures Queued(back, t) {
      QueuedInTail(back, w.buf.items, t);
    }
  }

  lemma KeepsActs<B>(w: World<B>, decode: Decoder<B>, s: Step<B>)
    requires Inv(w, decode) && s.Acts? && Enabled(w, s)
    ensures Inv(Next(w, decode, s), decode)
  {
    KeepsServed(w, decode, w.flights[s.id].entry, s.ctx);
    hide Accounted, Recorded, NoOvertaking, Numbered, Ordered, Durable;
  }

  lemma KeepsFail<B>(w: World<B>, decode: Decoder<B>, s: Step<B>)
    requires Inv(w, decode) && s.SendFail? && Enabled(w, s)
    ensures Inv(Next(w, decode, s), decode)
  {
    hide Accounted, Recorded, NoOvertaking, Numbered, Ordered, Durable;
    SavedIsDurable(Persisted(w.buf), w.accepted, w.acted);
  }

  lemma KeepsOk<B>(w: World<B>, decode: Decoder<B>, s: Step<B>)
    requires Inv(w, decode) && s.SendOk? && Enabled(w, s)
    ensures Inv(Next(w, decode, s), decode)
  {
    hide Accounted, Recorded, NoOvertaking, Numbered, Ordered, Durable, Looped;
    KeepsShift(w, decode);
    KeepsLooped(w.(buf := Shifted(w.buf)), decode, s.id, w.flights[s.id].delivered + 1);
  }

  lemma KeepsLate<B>(w: World<B>, decode: Decoder<B>, s: Step<B>)
    requires Inv(w, decode) && s.LateActs? && Enabled(w, s)
    ensures Inv(Next(w, decode, s), decode)
  {
    KeepsServed(w, decode, w.accepted[s.ticket], s.ctx);
  }

  lemma KeepsStart<B>(w: World<B>, decode: Decoder<B>, s: Step<B>)
    requires Inv(w, decode) && s.Start? && Enabled(w, s) && Disciplined(w, s)
    ensures Inv(Next(w, decode, s), decode)
  {
    hide Accounted, Recorded, NoOvertaking, Numbered, Ordered, Durable, Looped;
    KeepsLooped(w, decode, s.id, 0);
  }

  lemma KeepsInv<B>(w: World<B>, decode: Decoder<B>, s: Step<B>)
    requires Inv(w, decode) && Enabled(w, s) && Disciplined(w, s)
    ensures Inv(Next(w, decode, s), decode)
  {
    hide Inv, Next, Disciplined;
    match s
    case Enqueue(_, _, _, _) => KeepsEnqueue(w, decode, s);
    case Start(_) => KeepsStart(w, decode, s);
    case Acts(_, _) => KeepsActs(w, decode, s);
    case LateActs(_, _) => KeepsLate(w, decode, s);
    case SendOk(_) => KeepsOk(w, decode, s);
    case SendFail(_) => KeepsFail(w, decode, s);
    case Crash(_) => KeepsCrash(w, decode, s);
  }
}
