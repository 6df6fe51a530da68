/**
 * Which conditions of the delivery protocol are needed, and exactly when: what
 * a settled send removes, what a restart brings back, and runs that lose items.
 */
module ProtocolLimits {
  import opened Wrappers
  import opened Delivery
  import opened Alerts
  import opened Protocol
  import opened ProtocolRuns

  // ----- What a settled send removes -----

  /** Every pending send, however many there are, is the send of the present head. */
  ghost predicate OnHead<B>(w: World<B>) {
    forall id :: id in w.flights ==> w.buf.items != [] && w.flights[id].entry == w.buf.items[0]
  }

  /** Then, and only then, each of them would remove the item it sent. */
  lemma OnHeadMeans<B>(w: World<B>)
    ensures OnHead(w) <==> forall id :: id in w.flights ==> w.buf.items == [w.flights[id].entry] + Shifted(w.buf).items
  {
    if w.buf.items != [] { assert w.buf.items == [w.buf.items[0]] + w.buf.items[1..]; }
    forall id | id in w.flights && w.buf.items == [w.flights[id].entry] + Shifted(w.buf).items
      ensures w.buf.items != [] && w.flights[id].entry == w.buf.items[0]
    {
    }
  }

  /** What every run keeps without any discipline: queue and file hold genuine items in order of acceptance. */
  ghost predicate Sound<B>(w: World<B>) {
    && |w.buf.items| <= w.buf.cap
    && Ordered(w.accepted, w.buf.items)
    && (w.buf.file.Saved? ==> Ordered(w.accepted, w.buf.file.items))
  }

  lemma OrderedGrows<B>(accepted: seq<Entry<B>>, e: Entry<B>, items: seq<Entry<B>>)
    requires Ordered(accepted, items)
    ensures Ordered(accepted + [e], items)
  {
  }

  lemma SoundEnqueue<B>(w: World<B>, decode: Decoder<B>, s: Step<B>)
    requires Sound(w) && s.Enqueue?
    ensures Sound(Next(w, decode, s))
  {
    hide Ordered, Tickets;
    if !HasKey(w.buf.items, s.key) {
      var e, cut := EnqueueShape(w, decode, s);
      hide Next, HasKey;
      JoinsInOrder(w.accepted, w.buf.items, e);
      OrderedTail(w.accepted + [e], w.buf.items + [e], cut);
      if w.buf.file.Saved? { OrderedGrows(w.accepted, e, w.buf.file.items); }
    }
  }

  lemma SoundStep<B>(w: World<B>, decode: Decoder<B>, s: Step<B>)
    requires Sound(w) && Enabled(w, s)
    ensures Sound(Next(w, decode, s))
  {
    hide Ordered, HasKey, Enqueued, Tickets;
    match s
    case Enqueue(_, _, _, _) => SoundEnqueue(w, decode, s);
    case SendOk(_) => if w.buf.items != [] { OrderedTail(w.accepted, w.buf.items, 1); }
    case Crash(cap) => SoundReload(w.accepted, if w.buf.persists then w.buf.file else Absent, cap);
    case _ =>
  }

  lemma SoundReload<B>(accepted: seq<Entry<B>>, file: File<Tagged<B>>, cap: Cap)
    requires file.Saved? ==> Ordered(accepted, file.items)
    ensures Ordered(accepted, Loaded(file, cap)) && |Loaded(file, cap)| <= cap
  {
    if file.Saved? && |file.items| > cap { OrderedTail(accepted, file.items, |file.items| - cap); }
  }

  lemma SoundAtFirst<B>(cap: Cap, persists: bool)
    ensures Sound(Init<B>(cap, persists))
  {
  }

  /** Queue and file are sound in every state of every run at all, whatever overlaps, is evicted or crashes. */
  lemma {:induction false} SoundRun<B>(w: World<B>, decode: Decoder<B>, steps: seq<Step<B>>)
    requires Sound(w) && Possible(w, decode, steps)
    ensures Sound(After(w, decode, steps))
    decreases |steps|
  {
    hide Next, Sound, Enabled;
    if steps != [] {
      SoundStep(w, decode, steps[0]);
      SoundRun(Next(w, decode, steps[0]), decode, steps[1..]);
    }
  }

  /**
   * The step leaves every pending send on the head. Both guards can be read off
   * the collector's state before the step.
   */
  predicate Safe<B>(w: World<B>, s: Step<B>) {
    match s
    case Enqueue(key, _, _, _) => w.flights == map[] || HasKey(w.buf.items, key) || |w.buf.items| < w.buf.cap
    case SendOk(id) => w.flights.Keys == {id}
    case _ => true
  }

  lemma EnqueueExact<B>(w: World<B>, decode: Decoder<B>, s: Step<B>)
    requires Sound(w) && OnHead(w) && s.Enqueue?
    ensures OnHead(Next(w, decode, s)) <==> Safe(w, s)
  {
    if !HasKey(w.buf.items, s.key) && w.flights != map[] {
      var id :| id in w.flights;
      var items := w.buf.items;
      var e, cut := EnqueueShape(w, decode, s);
      hide Next, HasKey;
      var r := Next(w, decode, s);
      if |items| < w.buf.cap {
        assert r.buf.items == items + [e] && r.buf.items[0] == items[0];
      } else {
        assert r.buf.items[0] == (items + [e])[cut];
        assert Ticket((items + [e])[cut]) != Ticket(items[0]) by { Genuinely(w.accepted, items, e, cut); }
      }
    }
  }

  /** No item behind the head has the head's ticket. */
  lemma Genuinely<B>(accepted: seq<Entry<B>>, items: seq<Entry<B>>, e: Entry<B>, k: nat)
    requires Ordered(accepted, items) && Ticket(e) == |accepted| && 0 < k <= |items|
    ensures Ticket(items[0]) < Ticket((items + [e])[k])
  {
    assert Genuine(accepted, items[0]);
  }

  lemma SendOkExact<B>(w: World<B>, decode: Decoder<B>, id: nat)
    requires Sound(w) && OnHead(w) && Enabled(w, SendOk(id))
    ensures OnHead(Next(w, decode, SendOk(id))) <==> Safe(w, SendOk(id))
  {
    hide Enqueued, HasKey;
    var items, r := w.buf.items, Next(w, decode, SendOk(id));
    assert r.buf.items == items[1..];
    if w.flights.Keys != {id} {
      assert id in w.flights.Keys;
      var other :| other in w.flights.Keys && other != id;
      assert other in r.flights && r.flights[other].entry == items[0];
      if |items| > 1 {
        assert Ticket(items[0]) < Ticket(items[1]) && r.buf.items[0] == items[1];
      }
    }
  }

  /**
   * Exactly the two guards matter: while every pending send is on the head, a
   * step keeps that if and only if it is no eviction under a pending send and
   * no removal under another one.
   */
  lemma SafeExact<B>(w: World<B>, decode: Decoder<B>, s: Step<B>)
    requires Sound(w) && OnHead(w) && Enabled(w, s)
    ensures OnHead(Next(w, decode, s)) <==> Safe(w, s)
  {
    match s
    case Enqueue(_, _, _, _) => EnqueueExact(w, decode, s);
    case SendOk(id) => SendOkExact(w, decode, id);
    case _ => OtherStepsStay(w, decode, s);
  }

  lemma OtherStepsStay<B>(w: World<B>, decode: Decoder<B>, s: Step<B>)
    requires OnHead(w) && Enabled(w, s) && !s.Enqueue? && !s.SendOk?
    ensures OnHead(Next(w, decode, s))
  {
    hide Enqueued, HasKey;
  }

  ghost predicate SafeRun<B>(w: World<B>, decode: Decoder<B>, steps: seq<Step<B>>)
    requires Possible(w, decode, steps)
    decreases |steps|
  {
    steps == [] || (Safe(w, steps[0]) && SafeRun(Next(w, decode, steps[0]), decode, steps[1..]))
  }

  lemma {:induction false} SafeRunStaysOnHead<B>(w: World<B>, decode: Decoder<B>, steps: seq<Step<B>>)
    requires Sound(w) && OnHead(w) && Possible(w, decode, steps) && SafeRun(w, decode, steps)
    ensures Sound(After(w, decode, steps)) && OnHead(After(w, decode, steps))
    decreases |steps|
  {
    hide Next, Sound, OnHead, Safe, Enabled;
    if steps != [] {
      SoundStep(w, decode, steps[0]);
      SafeExact(w, decode, steps[0]);
      SafeRunStaysOnHead(Next(w, decode, steps[0]), decode, steps[1..]);
    }
  }

  /**
   * In every run of safe steps, with any number of flushes, crashes and caps, a
   * send that resolves removes exactly the item it sent.
   */
  lemma SafeRunRemovesSent<B>(cap: Cap, persists: bool, decode: Decoder<B>, steps: seq<Step<B>>, id: nat)
    requires Possible(Init<B>(cap, persists), decode, steps) && SafeRun(Init<B>(cap, persists), decode, steps)
    requires Enabled(After(Init<B>(cap, persists), decode, steps), SendOk(id))
    ensures var w := After(Init<B>(cap, persists), decode, steps);
            w.buf.items == [w.flights[id].entry] + Next(w, decode, SendOk(id)).buf.items
  {
    hide Enqueued, HasKey, Sound;
    SoundAtFirst<B>(cap, persists);
    SafeRunStaysOnHead(Init<B>(cap, persists), decode, steps);
    OnHeadMeans(After(Init<B>(cap, persists), decode, steps));
  }

  // ----- What the unsafe steps lose -----

  /**
   * From any state of a disciplined run with a completed send pending on a full
   * queue, whatever the cap: accepting a new key evicts the item that was sent,
   * and the settled send then removes the item behind it. Every item is still
   * accounted for if and only if that one had been completed or evicted before.
   */
  lemma EvictionDrops<B>(w: World<B>, decode: Decoder<B>, id: nat, s: Step<B>) returns (e: Entry<B>)
    requires Inv(w, decode) && Enabled(w, SendOk(id)) && |w.buf.items| == w.buf.cap && s.Enqueue? && !HasKey(w.buf.items, s.key)
    ensures e.key == s.key && Ticket(e) == |w.accepted|
    ensures var r := Next(w, decode, s);
            var dropped := (w.buf.items + [e])[1];
            && Enabled(r, SendOk(id)) && r.flights[id].entry == w.buf.items[0] != dropped
            && var end := Next(r, decode, SendOk(id));
               && r.buf.items == [dropped] + end.buf.items && !Queued(end.buf.items, Ticket(dropped))
               && (Accounted(|end.accepted|, end.evicted, end.acted, end.buf.items) <==>
                   Ticket(dropped) in w.acted || Ticket(dropped) in w.evicted)
  {
    hide Next, HasKey, Recorded, NoOvertaking, Numbered, Durable, Accounted, Queued, Ordered;
    e := FullEnqueue(w, decode, s);
    var r, all := Next(w, decode, s), w.buf.items + [e];
    ShiftedAfter(r, decode, id);
    BehindTheHead(w.accepted, w.buf.items, e, w.evicted, w.acted);
    assert r.buf.items == [all[1]] + r.buf.items[1..];
  }

  /** A full queue takes a new key at the cost of its head. */
  lemma FullEnqueue<B>(w: World<B>, decode: Decoder<B>, s: Step<B>) returns (e: Entry<B>)
    requires s.Enqueue? && !HasKey(w.buf.items, s.key) && |w.buf.items| == w.buf.cap
    ensures e.key == s.key && Ticket(e) == |w.accepted|
    ensures var r := Next(w, decode, s);
            && r.buf.items == (w.buf.items + [e])[1..] && r.accepted == w.accepted + [e]
            && r.evicted == w.evicted + {Ticket(w.buf.items[0])} && r.acted == w.acted && r.flights == w.flights
  {
    var cut;
    e, cut := EnqueueShape(w, decode, s);
    OneTicket(w.buf.items + [e]);
    hide Tickets, HasKey;
    assert |Next(w, decode, s).buf.items| == w.buf.cap;
  }

  /** What is left accounted for when a full queue loses its head to the cap and the item behind it to the settled send. */
  lemma BehindTheHead<B>(accepted: seq<Entry<B>>, items: seq<Entry<B>>, e: Entry<B>, evicted: set<nat>, acted: set<nat>)
    requires Ordered(accepted, items) && items != [] && Ticket(e) == |accepted| && !HasKey(items, e.key)
    requires Accounted(|accepted|, evicted, acted, items)
    ensures var rest, dropped := (items + [e])[1..], (items + [e])[1];
            && rest != [] && rest[0] == dropped != items[0] && !Queued(rest[1..], Ticket(dropped))
            && (Accounted(|accepted + [e]|, evicted + {Ticket(items[0])}, acted, rest[1..]) <==>
                Ticket(dropped) in acted || Ticket(dropped) in evicted)
  {
    Genuinely(accepted, items, e, 1);
    JoinsInOrder(accepted, items, e);
    OrderedTail(accepted + [e], items + [e], 1);
    EnqueueAccounts(|accepted|, evicted, acted, items, e, 1);
    OneTicket(items + [e]);
    hide Ordered, Accounted, Queued, Tickets, HasKey;
    RemovalAccounts(accepted + [e], (items + [e])[1..], evicted + {Ticket(items[0])}, acted);
  }

  lemma OneTicket<B>(items: seq<Entry<B>>)
    requires items != []
    ensures Tickets(items, 1) == {Ticket(items[0])}
  {
  }

  /** A resolved send takes one item off the queue; what is completed and evicted stays. */
  lemma ShiftedAfter<B>(w: World<B>, decode: Decoder<B>, id: nat)
    requires Enabled(w, SendOk(id)) && w.buf.items != []
    ensures var r := Next(w, decode, SendOk(id));
            r.buf.items == w.buf.items[1..] && r.accepted == w.accepted && r.evicted == w.evicted && r.acted == w.acted
    ensures forall other :: other in w.flights && other != id ==>
              other in Next(w, decode, SendOk(id)).flights && Next(w, decode, SendOk(id)).flights[other] == w.flights[other]
  {
    hide Enqueued, HasKey;
  }

  /** Removing the head keeps every item accounted for exactly when the head had been completed or evicted. */
  lemma RemovalAccounts<B>(accepted: seq<Entry<B>>, items: seq<Entry<B>>, evicted: set<nat>, acted: set<nat>)
    requires Ordered(accepted, items) && items != [] && Accounted(|accepted|, evicted, acted, items)
    ensures !Queued(items[1..], Ticket(items[0]))
    ensures Accounted(|accepted|, evicted, acted, items[1..]) <==> Ticket(items[0]) in acted || Ticket(items[0]) in evicted
  {
    QueuedTail(accepted, items, 1, Ticket(items[0]));
    CutAccounts(accepted, items, 1, evicted, acted);
  }

  /**
   * From any state in which two completed sends are pending on the head: both
   * settle, and the second removes the item behind it. Every item that was
   * accounted for still is if and only if that one had been completed or evicted.
   */
  lemma OverlapDrops<B>(w: World<B>, decode: Decoder<B>, id: nat, other: nat)
    requires Sound(w) && OnHead(w) && id != other && Enabled(w, SendOk(id)) && Enabled(w, SendOk(other)) && |w.buf.items| > 1
    requires Ticket(w.buf.items[0]) in w.acted && Accounted(|w.accepted|, w.evicted, w.acted, w.buf.items)
    ensures var r := Next(w, decode, SendOk(id));
            && Enabled(r, SendOk(other)) && r.flights[other].entry == w.buf.items[0] != w.buf.items[1]
            && var end := Next(r, decode, SendOk(other));
               && end.buf.items == w.buf.items[2..] && !Queued(end.buf.items, Ticket(w.buf.items[1]))
               && (Accounted(|end.accepted|, end.evicted, end.acted, end.buf.items) <==>
                   Ticket(w.buf.items[1]) in w.acted || Ticket(w.buf.items[1]) in w.evicted)
  {
    hide Accounted, Queued;
    var items := w.buf.items;
    ShiftedAfter(w, decode, id);
    var r := Next(w, decode, SendOk(id));
    hide Next;
    assert items[1..][0] == items[1] && items[1..][1..] == items[2..] && Ticket(items[0]) < Ticket(items[1]);
    ShiftedAfter(r, decode, other);
    ShiftAccounts(|w.accepted|, w.evicted, w.acted, items);
    OrderedTail(w.accepted, items, 1);
    RemovalAccounts(w.accepted, items[1..], w.evicted, w.acted);
  }

  // ----- The head in flight, and restarts -----

  /** While a send is pending, an enqueue keeps the head in flight exactly when it evicts nothing. */
  lemma EvictionExact<B>(w: World<B>, decode: Decoder<B>, s: Step<B>)
    requires Inv(w, decode) && s.Enqueue? && w.flights != map[]
    ensures var r := Next(w, decode, s); HeadInFlight(r.buf.items, r.flights, r.posted, r.acted) <==> Disciplined(w, s)
  {
    var id :| id in w.flights;
    if Disciplined(w, s) {
      KeepsEnqueue(w, decode, s);
    } else {
      var r := Next(w, decode, s);
      var e := Item(s.key, s.channel, Tagged(|w.accepted|, s.body), s.now);
      assert r.buf.items[0] == (w.buf.items + [e])[1];
      assert Ticket(r.buf.items[0]) != Ticket(w.buf.items[0]);
      assert r.flights[id].entry == w.buf.items[0];
    }
  }

  /** A restart whose cap is too small keeps the newest of the queue. */
  lemma ReloadCuts<B>(w: World<B>, decode: Decoder<B>, cap: Cap)
    requires Inv(w, decode) && w.buf.persists && cap < |w.buf.items|
    ensures Next(w, decode, Crash(cap)).buf.items == w.buf.items[|w.buf.items| - cap..]
  {
    hide Ordered, Recorded, Accounted, NoOvertaking, Numbered, HeadInFlight, UniqueKeys;
    NewestOfFile(w.buf.file.items, w.buf.items, cap);
    hide LastN;
  }

  lemma NewestOfFile<T>(file: seq<T>, items: seq<T>, cap: nat)
    requires |items| <= |file| && file[|file| - |items|..] == items && cap < |items|
    ensures LastN(file, cap) == items[|items| - cap..]
  {
    assert file[|file| - cap..] == file[|file| - |items|..][|items| - cap..];
  }

  lemma QueuedTail<B>(accepted: seq<Entry<B>>, items: seq<Entry<B>>, cut: nat, t: nat)
    requires Ordered(accepted, items) && cut <= |items|
    ensures Queued(items[cut..], t) ==> Queued(items, t)
    ensures Queued(items, t) ==> Queued(items[cut..], t) || exists i :: 0 <= i < cut && Ticket(items[i]) == t
    ensures (exists i :: 0 <= i < cut && Ticket(items[i]) == t) ==> !Queued(items[cut..], t)
  {
    if Queued(items, t) {
      var i :| 0 <= i < |items| && Ticket(items[i]) == t;
      if i >= cut { assert Ticket(items[cut..][i - cut]) == t; }
    }
  }

  /** What lies before a cut of the queue is not queued behind it. */
  lemma CutIsGone<B>(accepted: seq<Entry<B>>, items: seq<Entry<B>>, cut: nat)
    requires Ordered(accepted, items) && cut <= |items|
    ensures (forall t: nat :: Queued(items, t) ==> Queued(items[cut..], t)) <==> cut == 0
  {
    if cut == 0 {
      assert items[0..] == items;
    } else {
      assert Queued(items, Ticket(items[0]));
      QueuedTail(accepted, items, cut, Ticket(items[0]));
    }
  }

  /**
   * A restart brings the whole queue back exactly when the new cap holds it. It
   * keeps every item accounted for exactly when what the cap cuts off had been
   * completed or evicted.
   */
  lemma RestartExact<B>(w: World<B>, decode: Decoder<B>, cap: Cap)
    requires Inv(w, decode) && w.buf.persists
    ensures (forall t: nat :: Queued(w.buf.items, t) ==> Queued(Next(w, decode, Crash(cap)).buf.items, t)) <==> |w.buf.items| <= cap
    ensures Accounted(|w.accepted|, w.evicted, w.acted, Next(w, decode, Crash(cap)).buf.items) <==>
            forall i :: 0 <= i < |w.buf.items| - cap ==> Ticket(w.buf.items[i]) in w.acted || Ticket(w.buf.items[i]) in w.evicted
  {
    hide Next, Accounted, Queued, Durable, Recorded, NoOvertaking, Numbered, HeadInFlight, Ordered;
    if |w.buf.items| <= cap {
      RestartWhole(w, decode, cap);
    } else {
      ReloadCuts(w, decode, cap);
      CutIsGone(w.accepted, w.buf.items, |w.buf.items| - cap);
      CutAccounts(w.accepted, w.buf.items, |w.buf.items| - cap, w.evicted, w.acted);
    }
  }

  lemma RestartWhole<B>(w: World<B>, decode: Decoder<B>, cap: Cap)
    requires Inv(w, decode) && w.buf.persists && |w.buf.items| <= cap
    ensures var back := Next(w, decode, Crash(cap)).buf.items;
            && (forall t: nat :: Queued(w.buf.items, t) ==> Queued(back, t))
            && Accounted(|w.accepted|, w.evicted, w.acted, back)
  {
    hide Durable, Recorded, NoOvertaking, Numbered, Ordered, Loaded, Queued;
    var back := Next(w, decode, Crash(cap)).buf.items;
    ReloadLosesNothing(w, decode, cap);
    hide Next;
    forall t: nat | Queued(w.buf.items, t) ensures Queued(back, t) {
      QueuedInTail(back, w.buf.items, t);
    }
  }

  /** Cutting the front off keeps every item accounted for exactly when all that was cut had been completed or evicted. */
  lemma CutAccounts<B>(accepted: seq<Entry<B>>, items: seq<Entry<B>>, cut: nat, evicted: set<nat>, acted: set<nat>)
    requires Ordered(accepted, items) && cut <= |items| && Accounted(|accepted|, evicted, acted, items)
    ensures Accounted(|accepted|, evicted, acted, items[cut..]) <==>
            forall i :: 0 <= i < cut ==> Ticket(items[i]) in acted || Ticket(items[i]) in evicted
  {
    forall t: nat | t < |accepted|
      ensures (exists i :: 0 <= i < cut && Ticket(items[i]) == t) ==> !Queued(items[cut..], t)
      ensures Queued(items, t) ==> Queued(items[cut..], t) || exists i :: 0 <= i < cut && Ticket(items[i]) == t
    {
      QueuedTail(accepted, items, cut, t);
    }
    forall i | 0 <= i < cut ensures Ticket(items[i]) < |accepted| {
      assert Genuine(accepted, items[i]);
    }
    hide Ordered, Queued;
  }

  // ----- Complete runs that lose an item -----

  /** An accepted item that nothing will ever deliver. */
  ghost predicate Lost<B>(w: World<B>, t: nat) {
    && t < |w.accepted| && t !in w.evicted && t !in w.posted && t !in w.acted
    && w.flights == map[] && w.buf.items == [] && w.buf.file == Saved([])
  }

  /** The first item enters an empty buffer. */
  lemma FirstItem<B>(cap: Cap, decode: Decoder<B>, a: B)
    ensures var ea := Item("a", "alert", Tagged(0, a), 0);
            Next(Init(cap, true), decode, Enqueue("a", "alert", a, 0)) ==
            World(Buffer(cap, true, [ea], Saved([ea])), map[], [], [ea], {}, {}, {})
  {
    var ea := Item("a", "alert", Tagged(0, a), 0);
    var w1 := Next(Init(cap, true), decode, Enqueue("a", "alert", a, 0));
    assert [] + [ea] == [ea] && w1.evicted == {};
  }

  /** Its flush starts and the server completes it. */
  lemma FirstSend<B>(cap: Cap, decode: Decoder<B>, a: B, ctx: Context) returns (log: seq<Request>)
    requires ctx.fault == NoFault
    ensures var ea := Item("a", "alert", Tagged(0, a), 0);
            var w1 := World(Buffer(cap, true, [ea], Saved([ea])), map[], [], [ea], {}, {}, {});
            var w2 := w1.(flights := map[0 := Flight(ea, 0, false)], posted := {0});
            var w3 := w2.(flights := map[0 := Flight(ea, 0, true)], acted := {0}, log := log);
            && Next(Init(cap, true), decode, Enqueue("a", "alert", a, 0)) == w1
            && Next(w1, decode, Start(0)) == w2
            && Next(w2, decode, Acts(0, ctx)) == w3
  {
    FirstItem(cap, decode, a);
    hide Enqueued, HasKey;
    log := if decode(a).Some? then [Request(decode(a).value, ctx)] else [];
  }

  /** The full buffer drops the item in flight for a new one, which the settled send then removes. */
  lemma EvictedSend<B>(w: World<B>, decode: Decoder<B>, ea: Entry<B>, b: B)
    requires w.buf == Buffer(1, true, [ea], Saved([ea])) && ea.key != "b" && Ticket(ea) == 0 && w.accepted == [ea]
    requires w.flights == map[0 := Flight(ea, 0, true)] && w.evicted == {}
    ensures var eb := Item("b", "alert", Tagged(1, b), 1);
            var w1 := w.(buf := Buffer(1, true, [eb], Saved([eb])), accepted := [ea, eb], evicted := {0});
            && Next(w, decode, Enqueue("b", "alert", b, 1)) == w1
            && Next(w1, decode, SendOk(0)) == w1.(buf := Buffer(1, true, [], Saved([])), flights := map[])
  {
    var eb := Item("b", "alert", Tagged(1, b), 1);
    var w1 := Next(w, decode, Enqueue("b", "alert", b, 1));
    assert ([ea] + [eb])[0] == ea && LastN([ea] + [eb], 1) == [eb];
    assert w1.evicted == {0} && w1.accepted == [ea, eb];
  }

  ghost function EvictionRun<B>(a: B, b: B, ctx: Context): seq<Step<B>> {
    [Enqueue("a", "alert", a, 0)] + ([Start(0)] + ([Acts(0, ctx)] + ([Enqueue("b", "alert", b, 1)] + ([SendOk(0)] + []))))
  }

  /** An eviction while a send is pending makes the flush drop an item it never sent. */
  lemma EvictionLoses<B>(decode: Decoder<B>, a: B, b: B, ctx: Context)
    requires ctx.fault == NoFault
    ensures Possible(Init(1, true), decode, EvictionRun(a, b, ctx)) && Lost(After(Init(1, true), decode, EvictionRun(a, b, ctx)), 1)
  {
    var log := FirstSend(1, decode, a, ctx);
    var ea, eb := Item("a", "alert", Tagged(0, a), 0), Item("b", "alert", Tagged(1, b), 1);
    var w1 := World(Buffer(1, true, [ea], Saved([ea])), map[], [], [ea], {}, {}, {});
    var w2 := w1.(flights := map[0 := Flight(ea, 0, false)], posted := {0});
    var w3 := w2.(flights := map[0 := Flight(ea, 0, true)], acted := {0}, log := log);
    EvictedSend(w3, decode, ea, b);
    var w4 := w3.(buf := Buffer(1, true, [eb], Saved([eb])), accepted := [ea, eb], evicted := {0});
    var w5 := w4.(buf := Buffer(1, true, [], Saved([])), flights := map[]);
    Cons(w4, decode, SendOk(0), w5, []);
    Cons(w3, decode, Enqueue("b", "alert", b, 1), w4, [SendOk(0)] + []);
    Cons(w2, decode, Acts(0, ctx), w3, [Enqueue("b", "alert", b, 1)] + ([SendOk(0)] + []));
    Cons(w1, decode, Start(0), w2, [Acts(0, ctx)] + ([Enqueue("b", "alert", b, 1)] + ([SendOk(0)] + [])));
    Cons(Init(1, true), decode, Enqueue("a", "alert", a, 0), w1,
         [Start(0)] + ([Acts(0, ctx)] + ([Enqueue("b", "alert", b, 1)] + ([SendOk(0)] + []))));
  }

  /** A second flush sends the same head, and both sends are completed before the first removes it. */
  lemma OverlappedStart<B>(w: World<B>, decode: Decoder<B>, ea: Entry<B>, ctx: Context) returns (log: seq<Request>)
    requires w.buf.items == [ea] && w.buf.persists && ea.channel == "alert" && Ticket(ea) == 0
    requires w.flights == map[0 := Flight(ea, 0, true)] && w.posted == {0} && w.acted == {0} && ctx.fault == NoFault
    ensures var w1 := w.(flights := map[0 := Flight(ea, 0, true), 1 := Flight(ea, 0, false)]);
            var w2 := w1.(flights := map[0 := Flight(ea, 0, true), 1 := Flight(ea, 0, true)], log := log);
            var w3 := w2.(buf := w.buf.(items := [], file := Saved([])), flights := map[1 := Flight(ea, 0, true)]);
            && Next(w, decode, Start(1)) == w1 && Next(w1, decode, Acts(1, ctx)) == w2 && Next(w2, decode, SendOk(0)) == w3
  {
    var w1 := w.(flights := map[0 := Flight(ea, 0, true), 1 := Flight(ea, 0, false)]);
    log := Served(w1, decode, ea, ctx).log;
    var w2 := w1.(flights := map[0 := Flight(ea, 0, true), 1 := Flight(ea, 0, true)], log := log);
    assert Next(w2, decode, SendOk(0)).flights == map[1 := Flight(ea, 0, true)];
    hide Enqueued, HasKey;
  }

  /** Then a new item arrives, and the second flush removes that one. */
  lemma OverlappedEnd<B>(w: World<B>, decode: Decoder<B>, ea: Entry<B>, b: B)
    requires w.buf.items == [] && w.buf.persists && w.accepted == [ea] && w.evicted == {}
    requires w.flights == map[1 := Flight(ea, 0, true)]
    ensures var eb := Item("b", "alert", Tagged(1, b), 1);
            var w1 := w.(buf := w.buf.(items := [eb], file := Saved([eb])), accepted := [ea, eb]);
            && Next(w, decode, Enqueue("b", "alert", b, 1)) == w1
            && Next(w1, decode, SendOk(1)) == w1.(buf := w.buf.(items := [], file := Saved([])), flights := map[])
  {
    var eb := Item("b", "alert", Tagged(1, b), 1);
    assert [] + [eb] == [eb] && Next(w, decode, Enqueue("b", "alert", b, 1)).evicted == {};
  }

  ghost function OverlapRun<B>(a: B, b: B, ctx: Context): seq<Step<B>> {
    var tail := [SendOk(0)] + ([Enqueue("b", "alert", b, 1)] + ([SendOk(1)] + []));
    [Enqueue("a", "alert", a, 0)] + ([Start(0)] + ([Acts(0, ctx)] + ([Start(1)] + ([Acts(1, ctx)] + tail))))
  }

  /** Two overlapping flushes make the second drop an item it never sent, however much room there is. */
  lemma OverlapLoses<B>(cap: Cap, decode: Decoder<B>, a: B, b: B, ctx: Context)
    requires ctx.fault == NoFault
    ensures Possible(Init(cap, true), decode, OverlapRun(a, b, ctx)) && Lost(After(Init(cap, true), decode, OverlapRun(a, b, ctx)), 1)
  {
    var log := FirstSend(cap, decode, a, ctx);
    var ea, eb := Item("a", "alert", Tagged(0, a), 0), Item("b", "alert", Tagged(1, b), 1);
    var w1 := World(Buffer(cap, true, [ea], Saved([ea])), map[], [], [ea], {}, {}, {});
    var w2 := w1.(flights := map[0 := Flight(ea, 0, false)], posted := {0});
    var w3 := w2.(flights := map[0 := Flight(ea, 0, true)], acted := {0}, log := log);
    var log' := OverlappedStart(w3, decode, ea, ctx);
    var w4 := w3.(flights := map[0 := Flight(ea, 0, true), 1 := Flight(ea, 0, false)]);
    var w5 := w4.(flights := map[0 := Flight(ea, 0, true), 1 := Flight(ea, 0, true)], log := log');
    var w6 := w5.(buf := Buffer(cap, true, [], Saved([])), flights := map[1 := Flight(ea, 0, true)]);
    var w7 := w6.(buf := Buffer(cap, true, [eb], Saved([eb])), accepted := [ea, eb]);
    var w8 := w7.(buf := Buffer(cap, true, [], Saved([])), flights := map[]);
    OverlappedEnd(w6, decode, ea, b);
    var enqueueB: Step<B> := Enqueue("b", "alert", b, 1);
    Cons(w7, decode, SendOk(1), w8, []);
    Cons(w6, decode, enqueueB, w7, [SendOk(1)] + []);
    Cons(w5, decode, SendOk(0), w6, [enqueueB] + ([SendOk(1)] + []));
    var tail := [SendOk(0)] + ([enqueueB] + ([SendOk(1)] + []));
    Cons(w4, decode, Acts(1, ctx), w5, tail);
    Cons(w3, decode, Start(1), w4, [Acts(1, ctx)] + tail);
    Cons(w2, decode, Acts(0, ctx), w3, [Start(1)] + ([Acts(1, ctx)] + tail));
    Cons(w1, decode, Start(0), w2, [Acts(0, ctx)] + ([Start(1)] + ([Acts(1, ctx)] + tail)));
    Cons(Init(cap, true), decode, Enqueue("a", "alert", a, 0), w1, [Start(0)] + ([Acts(0, ctx)] + ([Start(1)] + ([Acts(1, ctx)] + tail))));
  }
}
