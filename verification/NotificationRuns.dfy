/**
 * All tabs of a browser together: any interleaving of polls, timer ticks,
 * acknowledgements and preference changes, with atomic claims on a shared list
 * that may fail at any poll.
 */
module NotificationRuns {
  import opened Wrappers
  import opened Notifications

  /** One won notice. */
  datatype Claim = Claim(tab: nat, id: string, urgency: Urgency)

  /** How storage treats a poll: it works, cannot be read, or can be read but not written. */
  datatype Access = Works | Missing | Refuses

  /** `claims` are the wins entered in the shared list, in its order; `unrecorded` are those of polls whose storage failed. */
  datatype World = World(tabs: map<nat, Tab>, announced: seq<string>, claims: seq<Claim>, unrecorded: seq<Claim>)

  datatype Step =
    | Open(tab: nat, prefs: Prefs)
    | Poll(tab: nat, items: seq<Notice>, access: Access)
    | Tick(tab: nat)
    | Acknowledge(tab: nat)
    | Render(tab: nat, prefs: Prefs)
    | PrefsEffect(tab: nat)
    | Close(tab: nat)

  const INIT := World(map[], [], [], [])

  /** A poll lists each notification once. `Acknowledge` is opening the bell here or hearing that another tab did. */
  ghost predicate Enabled(w: World, s: Step) {
    match s
    case Open(k, _) => k !in w.tabs
    case Poll(k, items, _) => k in w.tabs && DistinctIds(items)
    case Tick(k) => k in w.tabs && w.tabs[k].timer
    case _ => s.tab in w.tabs
  }

  ghost function ClaimsOf(tab: nat, won: seq<Notice>): seq<Claim> {
    seq(|won|, i requires 0 <= i < |won| => Claim(tab, won[i].id, won[i].urgency))
  }

  /** The shared list as a poll finds it. */
  ghost function ListSeen(w: World, access: Access): Storage {
    match access
    case Works => Announced(w.announced, true)
    case Missing => Unavailable
    case Refuses => Announced(w.announced, false)
  }

  ghost function Next(w: World, s: Step): World
    requires Enabled(w, s)
  {
    match s
    case Open(k, prefs) => w.(tabs := w.tabs[k := NewTab(prefs)])
    case Poll(k, items, access) =>
      var list, offered := ListSeen(w, access), Offered(w.tabs[k], items);
      var won := Won(list, offered);
      var polled := w.(tabs := w.tabs[k := Polled(w.tabs[k], items, won)]);
      if access.Works? then polled.(announced := ListAfter(list, offered).ids, claims := w.claims + ClaimsOf(k, won))
      else polled.(unrecorded := w.unrecorded + ClaimsOf(k, won))
    case Tick(k) => w.(tabs := w.tabs[k := Ticked(w.tabs[k])])
    case Acknowledge(k) => w.(tabs := w.tabs[k := Stopped(w.tabs[k])])
    case Render(k, prefs) => w.(tabs := w.tabs[k := Rendered(w.tabs[k], prefs)])
    case PrefsEffect(k) => w.(tabs := w.tabs[k := PrefsApplied(w.tabs[k])])
    case Close(k) => w.(tabs := w.tabs - {k})
  }

  ghost predicate Possible(w: World, steps: seq<Step>)
    decreases |steps|
  {
    steps == [] || (Enabled(w, steps[0]) && Possible(Next(w, steps[0]), steps[1..]))
  }

  ghost function After(w: World, steps: seq<Step>): World
    requires Possible(w, steps)
    decreases |steps|
  {
    if steps == [] then w else After(Next(w, steps[0]), steps[1..])
  }

  // ----- Claims -----

  ghost function ClaimIds(claims: seq<Claim>): seq<string> {
    seq(|claims|, i requires 0 <= i < |claims| => claims[i].id)
  }

  /** The shared list is the newest part of the claim order, and repeated wins of an id lie far apart in it. */
  ghost predicate ClaimsInv(w: World) {
    && w.announced == LastN(ClaimIds(w.claims), 200)
    && (forall i, j :: 0 <= i < j < |w.claims| && w.claims[i].id == w.claims[j].id ==> j - i > 200)
  }

  lemma LastNAppend<T>(a: seq<T>, b: seq<T>, n: nat)
    ensures LastN(LastN(a, n) + b, n) == LastN(a + b, n)
  {
  }

  /** The shared list holds exactly the ids of the last 200 claims. */
  lemma Remembered(claims: seq<Claim>, id: string)
    ensures id in LastN(ClaimIds(claims), ANNOUNCED_CAP) <==>
            exists k :: 0 <= k < |claims| && |claims| - k <= ANNOUNCED_CAP && claims[k].id == id
  {
    var ids, n := LastN(ClaimIds(claims), ANNOUNCED_CAP), |claims|;
    forall k | 0 <= k < |ids| ensures ids[k] == claims[k + (n - |ids|)].id {
    }
    forall k | 0 <= k < n && n - k <= ANNOUNCED_CAP ensures claims[k].id in ids {
      assert ids[k - (n - |ids|)] == claims[k].id;
    }
  }

  lemma KeepsClaims(w: World, tab: nat, offered: seq<Notice>)
    requires ClaimsInv(w) && DistinctIds(offered)
    ensures var won := Unclaimed(offered, w.announced);
            && ClaimsInv(w.(announced := if won == [] then w.announced else LastN(w.announced + IdList(won), ANNOUNCED_CAP),
                            claims := w.claims + ClaimsOf(tab, won)))
            && DistinctIds(won)
  {
    var won := Unclaimed(offered, w.announced);
    FilterDistinct((i: Notice) => i.id !in w.announced, offered);
    var claims, n := w.claims + ClaimsOf(tab, won), |w.claims|;
    assert ClaimIds(claims) == ClaimIds(w.claims) + IdList(won);
    LastNAppend(ClaimIds(w.claims), IdList(won), ANNOUNCED_CAP);
    if won == [] { assert claims == w.claims; }
    forall i, j | 0 <= i < j < |claims| && claims[i].id == claims[j].id ensures j - i > ANNOUNCED_CAP {
      if i < n <= j {
        assert won[j - n] in won;
        assert claims[j].id !in w.announced;
        Remembered(w.claims, claims[i].id);
      }
    }
  }

  // ----- Tabs -----

  /** Everything some tab won. */
  ghost function Wins(w: World): set<Claim> {
    (set c | c in w.claims) + (set c | c in w.unrecorded)
  }

  /** The alarm rings exactly for a non-empty set of unread critical notices this tab won, and only while audible. */
  ghost predicate AlarmInv(t: Tab, k: nat, wins: set<Claim>) {
    && (t.timer <==> t.alarmIds != {})
    && (forall id :: id in t.alarmIds ==> Claim(k, id, Critical) in wins)
    && t.alarmIds !! t.lastRead
    && (t.timer && !t.prefsEffectDue ==> !t.prefs.muted && Critical in t.prefs.tiers)
  }

  /** The tracker never answers an id twice, and never one of the baseline. */
  ghost predicate TrackerInv(t: Tab) {
    && (t.seen.None? ==> t.arrived == [] && t.baseline == {})
    && (forall i, j :: 0 <= i < j < |t.arrived| ==> t.arrived[i] != t.arrived[j])
    && (forall i :: 0 <= i < |t.arrived| ==> t.seen.Some? && t.arrived[i] in t.seen.value && t.arrived[i] !in t.baseline)
    && (t.seen.Some? ==> t.baseline <= t.seen.value)
  }

  ghost predicate Inv(w: World) {
    ClaimsInv(w) && (forall c :: c in Wins(w) ==> c.urgency != Silent) && forall k :: k in w.tabs ==> AlarmInv(w.tabs[k], k, Wins(w)) && TrackerInv(w.tabs[k])
  }

  lemma KeepsTracker(t: Tab, items: seq<Notice>, won: seq<Notice>)
    requires TrackerInv(t) && DistinctIds(items)
    ensures TrackerInv(Polled(t, items, won))
  {
    var fresh', n := Arrivals(t.seen, items), |t.arrived|;
    var r := Polled(t, items, won);
    if t.seen.Some? {
      var ids := t.seen.value;
      FilterDistinct((i: Notice) => i.id !in ids && !i.read, items);
      forall i | n <= i < |r.arrived| ensures r.arrived[i] !in ids && r.arrived[i] in r.seen.value {
        assert fresh'[i - n] in fresh';
      }
    }
  }

  lemma KeepsAlarm(t: Tab, k: nat, wins: set<Claim>, items: seq<Notice>, won: seq<Notice>)
    requires AlarmInv(t, k, wins) && DistinctIds(items)
    requires forall i :: i in won ==> i in items && !i.read
    requires forall i :: i in won ==> Claim(k, i.id, i.urgency) in wins
    ensures AlarmInv(Polled(t, items, won), k, wins)
  {
    var r := Polled(t, items, won);
    forall id | id in r.alarmIds ensures id !in r.lastRead && Claim(k, id, Critical) in wins {
      if !(id in t.alarmIds && id !in ReadIds(items)) {
        var i :| i in won && i.urgency == Critical && i.id == id;
        forall x | x in items && x.read ensures x.id != id {
          assert i in items;
        }
      }
    }
    if Rings(won, t.prefs) {
      var j :| 0 <= j < |won| && won[j].urgency == Critical;
      assert won[j] in won && won[j].id in CriticalIds(won);
    }
  }

  lemma OfferedAreUnread(t: Tab, items: seq<Notice>)
    requires DistinctIds(items)
    ensures DistinctIds(Offered(t, items))
    ensures forall i :: i in Offered(t, items) ==> i in items && !i.read
  {
    if t.seen.Some? {
      var ids := t.seen.value;
      FilterDistinct((i: Notice) => i.id !in ids && !i.read, items);
    }
    FilterDistinct((i: Notice) => i.urgency != Silent, Arrivals(t.seen, items));
  }

  lemma OfferedIsAudible(t: Tab, items: seq<Notice>)
    ensures forall i :: i in Offered(t, items) ==> i.urgency != Silent
  {
  }

  /** What a poll wins. */
  ghost function WonBy(w: World, k: nat, items: seq<Notice>, access: Access): seq<Notice>
    requires k in w.tabs
  {
    Won(ListSeen(w, access), Offered(w.tabs[k], items))
  }

  /** What a poll wins is among what it offers, unread and audible. */
  lemma WonAreOffered(w: World, k: nat, items: seq<Notice>, access: Access)
    requires k in w.tabs
    ensures forall i :: i in WonBy(w, k, items, access) ==> i in Offered(w.tabs[k], items) && i.urgency != Silent
  {
    OfferedIsAudible(w.tabs[k], items);
    hide Offered;
  }

  /** Where the wins of a poll are kept. */
  ghost predicate Keeps(w: World, r: World, k: nat, won: seq<Notice>) {
    || (r.claims == w.claims + ClaimsOf(k, won) && r.unrecorded == w.unrecorded)
    || (r.claims == w.claims && r.unrecorded == w.unrecorded + ClaimsOf(k, won))
  }

  lemma PollNext(w: World, k: nat, items: seq<Notice>, access: Access)
    requires Enabled(w, Poll(k, items, access))
    ensures var won, r := WonBy(w, k, items, access), Next(w, Poll(k, items, access));
            && r.tabs == w.tabs[k := Polled(w.tabs[k], items, won)] && Keeps(w, r, k, won)
            && (!access.Works? ==> r.claims == w.claims && r.announced == w.announced)
  {
    hide Offered, Polled, Won, ListAfter, ClaimsOf;
  }

  lemma WinsGrow(w: World, r: World, k: nat, won: seq<Notice>)
    requires Keeps(w, r, k, won)
    ensures Wins(w) <= Wins(r)
    ensures forall i :: i in won ==> Claim(k, i.id, i.urgency) in Wins(r)
    ensures forall c :: c in Wins(r) && c !in Wins(w) ==> exists i :: i in won && c == Claim(k, i.id, i.urgency)
  {
    ClaimsAre(k, won);
    hide ClaimsOf;
  }

  lemma ClaimsAre(k: nat, won: seq<Notice>)
    ensures forall i :: i in won ==> Claim(k, i.id, i.urgency) in ClaimsOf(k, won)
    ensures forall c :: c in ClaimsOf(k, won) ==> exists i :: i in won && c == Claim(k, i.id, i.urgency)
  {
    var claims := ClaimsOf(k, won);
    forall i | i in won ensures Claim(k, i.id, i.urgency) in claims {
      var j :| 0 <= j < |won| && won[j] == i;
      assert claims[j] == Claim(k, i.id, i.urgency);
    }
    forall c | c in claims ensures exists i :: i in won && c == Claim(k, i.id, i.urgency) {
      var j :| 0 <= j < |claims| && claims[j] == c;
      assert won[j] in won;
    }
  }

  /** More wins by anyone break no tab's promise. */
  lemma AlarmGrows(t: Tab, k: nat, wins: set<Claim>, more: set<Claim>)
    requires AlarmInv(t, k, wins) && wins <= more
    ensures AlarmInv(t, k, more)
  {
  }

  lemma KeepsPoll(w: World, k: nat, items: seq<Notice>, access: Access)
    requires Inv(w) && Enabled(w, Poll(k, items, access))
    ensures Inv(Next(w, Poll(k, items, access)))
  {
    var t, r, won := w.tabs[k], Next(w, Poll(k, items, access)), WonBy(w, k, items, access);
    OfferedAreUnread(t, items);
    WonAreOffered(w, k, items, access);
    PollNext(w, k, items, access);
    if access.Works? { PollKeepsClaims(w, k, items); }
    WinsGrow(w, r, k, won);
    assert !access.Works? ==> ClaimsInv(r);
    hide Next, WonBy, Keeps, Offered, Polled, ClaimsInv, Wins, TrackerInv, AlarmInv;
    KeepsTracker(t, items, won);
    forall j | j in w.tabs ensures AlarmInv(w.tabs[j], j, Wins(r)) {
      AlarmGrows(w.tabs[j], j, Wins(w), Wins(r));
    }
    KeepsAlarm(t, k, Wins(r), items, won);
  }

  lemma PollKeepsClaims(w: World, k: nat, items: seq<Notice>)
    requires ClaimsInv(w) && Enabled(w, Poll(k, items, Works))
    ensures ClaimsInv(Next(w, Poll(k, items, Works)))
  {
    OfferedAreUnread(w.tabs[k], items);
    KeepsClaims(w, k, Offered(w.tabs[k], items));
    hide Offered, Polled;
  }

  /**
   * A won critical notification rings: when the tier is audible and the shared
   * list does not hold it, or cannot be read, the tab's alarm holds it and runs.
   */
  lemma CriticalWinRings(w: World, k: nat, items: seq<Notice>, access: Access, item: Notice)
    requires Enabled(w, Poll(k, items, access)) && w.tabs[k].seen.Some? && !w.tabs[k].prefs.muted && Critical in w.tabs[k].prefs.tiers
    requires item in items && item.urgency == Critical && !item.read
    requires item.id !in w.tabs[k].seen.value && (access.Missing? || item.id !in w.announced)
    ensures var r := Next(w, Poll(k, items, access));
            r.tabs[k].timer && item.id in r.tabs[k].alarmIds && Claim(k, item.id, Critical) in Wins(r)
  {
    assert Audible(Critical, w.tabs[k].prefs);
    hide Polled, Offered, Won, ListAfter, Wins, Audible;
    var t, r, won := w.tabs[k], Next(w, Poll(k, items, access)), WonBy(w, k, items, access);
    NewIsOffered(t, items, item);
    OfferedIsWon(w, access, Offered(t, items), item);
    PollNext(w, k, items, access);
    hide Next;
    WinsGrow(w, r, k, won);
    WinRings(t, items, won, item);
  }

  lemma NewIsOffered(t: Tab, items: seq<Notice>, item: Notice)
    requires t.seen.Some? && item in items && item.urgency != Silent && !item.read && item.id !in t.seen.value
    ensures item in Offered(t, items)
  {
    assert item in Arrivals(t.seen, items);
  }

  lemma OfferedIsWon(w: World, access: Access, offered: seq<Notice>, item: Notice)
    requires item in offered && (access.Missing? || item.id !in w.announced)
    ensures item in Won(ListSeen(w, access), offered)
  {
    assert !access.Missing? ==> item in Unclaimed(offered, w.announced);
  }

  lemma WinRings(t: Tab, items: seq<Notice>, won: seq<Notice>, item: Notice)
    requires item in won && item.urgency == Critical && Audible(Critical, t.prefs)
    ensures var r := Polled(t, items, won); r.timer && item.id in r.alarmIds
  {
    hide Audible;
    assert item.id in CriticalIds(won);
  }

  lemma KeepsInv(w: World, s: Step)
    requires Inv(w) && Enabled(w, s)
    ensures Inv(Next(w, s))
  {
    if s.Poll? {
      KeepsPoll(w, s.tab, s.items, s.access);
    }
  }

  /**
   * Over every interleaving of any number of tabs, from empty storage: the
   * shared list is the last 200 claims, two wins of one id have at least 200
   * claims between them, and every tab's alarm and tracker keep their promises.
   */
  lemma {:induction false} RunKeepsInv(w: World, steps: seq<Step>)
    requires Possible(w, steps) && Inv(w)
    ensures Inv(After(w, steps))
    decreases |steps|
  {
    if steps != [] {
      KeepsInv(w, steps[0]);
      RunKeepsInv(Next(w, steps[0]), steps[1..]);
    }
  }

  /**
   * Two tabs ring for the same notification only if at least 200 other claims
   * separate their wins, or storage failed when one of them won it.
   */
  lemma OneTabRings(steps: seq<Step>, a: nat, b: nat, id: string)
    requires Possible(INIT, steps)
    requires var w := After(INIT, steps); a in w.tabs && b in w.tabs && a != b && id in w.tabs[a].alarmIds && id in w.tabs[b].alarmIds
    ensures var w := After(INIT, steps);
            || Claim(a, id, Critical) in w.unrecorded || Claim(b, id, Critical) in w.unrecorded
            || exists i, j :: && 0 <= i < |w.claims| && 0 <= j < |w.claims| && (j - i > 200 || i - j > 200)
                              && w.claims[i] == Claim(a, id, Critical) && w.claims[j] == Claim(b, id, Critical)
  {
    RunKeepsInv(INIT, steps);
    var w := After(INIT, steps);
    if Claim(a, id, Critical) !in w.unrecorded && Claim(b, id, Critical) !in w.unrecorded {
      assert Claim(a, id, Critical) in w.claims && Claim(b, id, Critical) in w.claims;
      var i :| 0 <= i < |w.claims| && w.claims[i] == Claim(a, id, Critical);
      var j :| 0 <= j < |w.claims| && w.claims[j] == Claim(b, id, Critical);
      assert i < j || j < i;
    }
  }

  /** While storage works, nothing is won outside the shared list. */
  lemma {:induction false} WorkingStorageRecords(w: World, steps: seq<Step>)
    requires Possible(w, steps) && w.unrecorded == [] && forall i :: 0 <= i < |steps| && steps[i].Poll? ==> steps[i].access.Works?
    ensures After(w, steps).unrecorded == []
    decreases |steps|
  {
    hide Offered, Polled, Won, ListAfter;
    if steps != [] {
      WorkingStorageRecords(Next(w, steps[0]), steps[1..]);
    }
  }

  // ----- What keeps an alarm going, and what ends it -----

  /**
   * Exactly what alarms after a poll: what alarmed and is not listed as read,
   * and the CRITICAL notices just won if the tier is on and sounds are unmuted.
   */
  lemma PollAlarmExact(t: Tab, items: seq<Notice>, won: seq<Notice>, id: string)
    ensures id in Polled(t, items, won).alarmIds <==>
            || (id in t.alarmIds && forall i :: i in items && i.id == id ==> !i.read)
            || (!t.prefs.muted && Critical in t.prefs.tiers && exists i :: i in won && i.urgency == Critical && i.id == id)
  {
    var kept := t.alarmIds - ReadIds(items);
    assert id in ReadIds(items) <==> exists i :: i in items && i.id == id && i.read;
    if i :| i in won && i.urgency == Critical && i.id == id {
      var k :| 0 <= k < |won| && won[k] == i;
    }
  }

  /** A tick, or a change of preferences once its effect runs, stops the alarm exactly when muted or switched off. */
  lemma QuietExact(t: Tab, id: string)
    ensures id in Ticked(t).alarmIds <==> id in t.alarmIds && !t.prefs.muted && Critical in t.prefs.tiers
    ensures id in PrefsApplied(t).alarmIds <==> id in t.alarmIds && !t.prefs.muted && Critical in t.prefs.tiers
    ensures forall prefs :: Rendered(t, prefs).prefs == prefs && Rendered(t, prefs).alarmIds == t.alarmIds
    ensures forall prefs :: Rendered(t, prefs).prefsEffectDue <==>
              t.prefsEffectDue || prefs.muted != t.prefs.muted || (Critical in prefs.tiers) != (Critical in t.prefs.tiers)
  {
  }

  /** The step does not end the alarm of tab `k` for `id`: no acknowledgement, no closing, no muting, and no poll that lists it as read. */
  ghost predicate Undisturbed(s: Step, k: nat, id: string) {
    s.tab == k ==>
      && !s.Acknowledge? && !s.Close?
      && (s.Poll? ==> forall i :: i in s.items && i.id == id ==> !i.read)
      && (s.Render? ==> !s.prefs.muted && Critical in s.prefs.tiers)
  }

  ghost predicate Alarming(w: World, k: nat, id: string) {
    k in w.tabs && id in w.tabs[k].alarmIds && !w.tabs[k].prefs.muted && Critical in w.tabs[k].prefs.tiers
  }

  lemma StillAlarming(w: World, s: Step, k: nat, id: string)
    requires Alarming(w, k, id) && Enabled(w, s) && Undisturbed(s, k, id)
    ensures Alarming(Next(w, s), k, id)
  {
    QuietExact(w.tabs[k], id);
    if s.Poll? && s.tab == k {
      PollAlarmExact(w.tabs[k], s.items, Won(ListSeen(w, s.access), Offered(w.tabs[k], s.items)), id);
    }
    hide Offered, Won, ListAfter;
  }

  /** A ringing alarm goes on ringing, whatever else happens in any tab, until it is acknowledged, read, muted or closed. */
  lemma {:induction false} AlarmRepeats(w: World, steps: seq<Step>, k: nat, id: string)
    requires Inv(w) && Possible(w, steps) && Alarming(w, k, id)
    requires forall i :: 0 <= i < |steps| ==> Undisturbed(steps[i], k, id)
    ensures Alarming(After(w, steps), k, id) && After(w, steps).tabs[k].timer
    decreases |steps|
  {
    hide Next, Undisturbed, Enabled;
    if steps != [] {
      StillAlarming(w, steps[0], k, id);
      KeepsInv(w, steps[0]);
      hide Inv;
      AlarmRepeats(Next(w, steps[0]), steps[1..], k, id);
    }
  }

  /** The cap is exact: an id is won again as soon as 200 claims have followed its last one, and not before. */
  lemma ClaimedAgainAfterCap(w: World, offered: seq<Notice>, item: Notice, last: nat)
    requires ClaimsInv(w) && item in offered
    requires last < |w.claims| && w.claims[last].id == item.id
    requires forall j :: last < j < |w.claims| ==> w.claims[j].id != item.id
    ensures item in Unclaimed(offered, w.announced) <==> |w.claims| - last > 200
  {
    Remembered(w.claims, item.id);
  }
}
