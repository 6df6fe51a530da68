/**
 * Notification sounds in one browser: which notifications are new to a tab,
 * which tab may announce them, and the alarm that repeats until acknowledged.
 */
module Notifications {
  import opened Wrappers

  datatype Urgency = Critical | High | Normal | Silent

  /** `read` stands for a present `readAt`. */
  datatype Notice = Notice(id: string, urgency: Urgency, read: bool)

  /** `tiers` are the audible tiers the user left on. */
  datatype Prefs = Prefs(muted: bool, tiers: set<Urgency>)

  /** How many announced ids the shared list keeps. */
  const ANNOUNCED_CAP := 200

  function Ids(items: seq<Notice>): set<string> { set i | i in items :: i.id }
  function IdList(items: seq<Notice>): seq<string> { seq(|items|, i requires 0 <= i < |items| => items[i].id) }

  ghost predicate DistinctIds(items: seq<Notice>) {
    forall i, j :: 0 <= i < j < |items| ==> items[i].id != items[j].id
  }

  lemma {:induction false} FilterDistinct(p: Notice -> bool, items: seq<Notice>)
    requires DistinctIds(items)
    ensures DistinctIds(Filter(p, items))
  {
    if items != [] {
      FilterDistinct(p, items[..|items| - 1]);
      var r := Filter(p, items[..|items| - 1]);
      forall i | 0 <= i < |r| ensures r[i].id != items[|items| - 1].id {
        assert r[i] in items[..|items| - 1];
      }
    }
  }

  // ----- What is new to a tab -----

  /** The first list is the baseline and announces nothing. */
  function Arrivals(seen: Option<set<string>>, items: seq<Notice>): seq<Notice> {
    match seen
    case None => []
    case Some(ids) => Filter((i: Notice) => i.id !in ids && !i.read, items)
  }

  function Seen(seen: Option<set<string>>, items: seq<Notice>): set<string> {
    Ids(items) + if seen.Some? then seen.value else {}
  }

  class ArrivalTracker {
    var seen: Option<set<string>>

    constructor ()
      ensures seen == None
    {
      seen := None;
    }

    method Next(items: seq<Notice>) returns (arrivals: seq<Notice>)
      modifies this
      ensures arrivals == Arrivals(old(seen), items)
      ensures forall i :: i in arrivals <==> i in items && old(seen).Some? && i.id !in old(seen).value && !i.read
      ensures seen == Some(Seen(old(seen), items))
    {
      if seen.None? {
        seen := Some(Ids(items));
        assert Ids(items) == Ids(items) + {};
        return [];
      }
      var known := seen.value;
      arrivals := Filter((i: Notice) => i.id !in known && !i.read, items);
      var all := known;
      for k := 0 to |items|
        invariant all == known + Ids(items[..k])
      {
        all := all + {items[k].id};
        assert items[..k + 1] == items[..k] + [items[k]];
      }
      assert items[..|items|] == items;
      assert all == Ids(items) + known;
      seen := Some(all);
    }
  }

  // ----- Who may announce it -----

  /** The browser's shared storage: missing, unparseable, or a list that may or may not accept a write. */
  datatype Storage = Unavailable | Corrupt | Announced(ids: seq<string>, writable: bool)

  function Unclaimed(items: seq<Notice>, announced: seq<string>): seq<Notice> {
    Filter((i: Notice) => i.id !in announced, items)
  }

  /** The items a tab wins. When storage fails at any point, every tab plays. */
  function Won(list: Storage, items: seq<Notice>): seq<Notice> {
    if !list.Announced? then items
    else
      var won := Unclaimed(items, list.ids);
      if won == [] || list.writable then won else items
  }

  function ListAfter(list: Storage, items: seq<Notice>): Storage {
    if !list.Announced? || !list.writable || Unclaimed(items, list.ids) == [] then list
    else Announced(LastN(list.ids + IdList(Unclaimed(items, list.ids)), ANNOUNCED_CAP), true)
  }

  /** What was just claimed is on the list, unless it alone overflows the cap. */
  lemma ClaimedIds(ids: seq<string>, won: seq<Notice>)
    ensures |won| <= 200 ==> forall i :: i in won ==> i.id in LastN(ids + IdList(won), ANNOUNCED_CAP)
  {
    var r := LastN(ids + IdList(won), ANNOUNCED_CAP);
    if |won| <= 200 {
      forall i | i in won ensures i.id in r {
        var k :| 0 <= k < |won| && won[k] == i;
        assert r[|r| - |won| + k] == IdList(won)[k];
      }
    }
  }

  class SharedStorage {
    var list: Storage

    constructor (list: Storage)
      ensures this.list == list
    {
      this.list := list;
    }

    method ClaimArrivals(items: seq<Notice>) returns (won: seq<Notice>)
      modifies this
      ensures won == Won(old(list), items) && list == ListAfter(old(list), items)
      ensures old(list).Announced? && old(list).writable ==>
                && (forall i :: i in won <==> i in items && i.id !in old(list).ids)
                && list.Announced? && |list.ids| <= |old(list).ids| + |won|
                && (forall i :: i in won && |won| <= 200 ==> i.id in list.ids)
      ensures !old(list).Announced? ==> won == items && list == old(list)
      ensures old(list).Announced? && !old(list).writable ==>
                list == old(list) && won == if forall i :: i in items ==> i.id in old(list).ids then [] else items
    {
      if !list.Announced? || items == [] {
        return items;
      }
      won := Unclaimed(items, list.ids);
      assert won == [] <==> forall i :: i in items ==> i.id in list.ids by {
        if won != [] { assert won[0] in won; }
      }
      if won != [] {
        if !list.writable {
          return items;
        }
        ClaimedIds(list.ids, won);
        list := Announced(LastN(list.ids + IdList(won), ANNOUNCED_CAP), true);
      }
    }
  }

  // ----- How loud -----

  function Rank(u: Urgency): nat {
    match u case Critical => 3 case High => 2 case Normal => 1 case Silent => 0
  }

  predicate Audible(u: Urgency, prefs: Prefs) {
    !prefs.muted && u != Silent && u in prefs.tiers
  }

  /** The loudest audible tier among the items. */
  ghost predicate IsLoudest(items: seq<Notice>, prefs: Prefs, tier: Option<Urgency>) {
    match tier
    case None => forall i :: i in items ==> !Audible(i.urgency, prefs)
    case Some(u) =>
      && Audible(u, prefs) && (exists i :: i in items && i.urgency == u)
      && forall i :: i in items && Audible(i.urgency, prefs) ==> Rank(i.urgency) <= Rank(u)
  }

  ghost predicate Holds(items: seq<Notice>, u: Urgency) {
    exists i :: i in items && i.urgency == u
  }

  /** A tier the user lets through and the list holds. */
  ghost predicate Sounds(items: seq<Notice>, prefs: Prefs, u: Urgency) {
    !prefs.muted && u in prefs.tiers && Holds(items, u)
  }

  /** CRITICAL before HIGH before NORMAL, and never a silent tier. */
  lemma LoudestExact(items: seq<Notice>, prefs: Prefs, tier: Option<Urgency>)
    requires IsLoudest(items, prefs, tier)
    ensures tier == if Sounds(items, prefs, Critical) then Some(Critical)
                    else if Sounds(items, prefs, High) then Some(High)
                    else if Sounds(items, prefs, Normal) then Some(Normal) else None
  {
  }

  method LoudestAudible(items: seq<Notice>, prefs: Prefs) returns (best: Option<Urgency>)
    ensures IsLoudest(items, prefs, best)
    ensures best == if Sounds(items, prefs, Critical) then Some(Critical)
                    else if Sounds(items, prefs, High) then Some(High)
                    else if Sounds(items, prefs, Normal) then Some(Normal) else None
  {
    hide Sounds;
    best := None;
    if prefs.muted {
      LoudestExact(items, prefs, best);
      return;
    }
    for k := 0 to |items|
      invariant IsLoudest(items[..k], prefs, best)
    {
      assert items[..k + 1] == items[..k] + [items[k]];
      var u := items[k].urgency;
      if u != Silent && u in prefs.tiers && (best.None? || Rank(u) > Rank(best.value)) {
        best := Some(u);
        assert items[k] in items[..k + 1];
      }
    }
    assert items[..|items|] == items;
    LoudestExact(items, prefs, best);
  }

  /** A list rings the alarm exactly when it holds an audible critical item. */
  predicate Rings(items: seq<Notice>, prefs: Prefs) {
    Audible(Critical, prefs) && exists k :: 0 <= k < |items| && items[k].urgency == Critical
  }

  lemma LoudestRings(items: seq<Notice>, prefs: Prefs, tier: Option<Urgency>)
    requires IsLoudest(items, prefs, tier)
    ensures tier == Some(Critical) <==> Rings(items, prefs)
  {
    if Rings(items, prefs) {
      var k :| 0 <= k < |items| && items[k].urgency == Critical;
      assert items[k] in items;
    }
  }

  // ----- The alarm of one tab -----

  /**
   * `prefsEffectDue` tells that the preferences were rendered but the effect
   * that reacts to them has not run yet. `lastRead`, `baseline` and `arrived`
   * are history: what the last processed poll listed as read, the ids of the
   * first poll, and every id the tracker answered.
   */
  datatype Tab = Tab(
    prefs: Prefs, prefsEffectDue: bool, seen: Option<set<string>>, alarmIds: set<string>, timer: bool,
    lastRead: set<string>, baseline: set<string>, arrived: seq<string>)

  function NewTab(prefs: Prefs): Tab {
    Tab(prefs, true, None, {}, false, {}, {}, [])
  }

  function Stopped(t: Tab): Tab {
    t.(alarmIds := {}, timer := false)
  }

  function ReadIds(items: seq<Notice>): set<string> { set i | i in items && i.read :: i.id }
  function CriticalIds(items: seq<Notice>): set<string> { set i | i in items && i.urgency == Critical :: i.id }

  /** The audible arrivals a poll offers to claim. */
  function Offered(t: Tab, items: seq<Notice>): seq<Notice> {
    Filter((i: Notice) => i.urgency != Silent, Arrivals(t.seen, items))
  }

  /** A processed poll that won `won`. */
  function Polled(t: Tab, items: seq<Notice>, won: seq<Notice>): Tab {
    var kept := t.alarmIds - ReadIds(items);
    var rings := Rings(won, t.prefs);
    var ids := if rings then kept + CriticalIds(won) else kept;
    var next := t.(seen := Some(Seen(t.seen, items)), alarmIds := ids, timer := t.timer || rings,
                   lastRead := ReadIds(items),
                   baseline := if t.seen.None? then Ids(items) else t.baseline,
                   arrived := t.arrived + IdList(Arrivals(t.seen, items)));
    if ids == {} then Stopped(next) else next
  }

  function Ticked(t: Tab): Tab {
    if t.prefs.muted || Critical !in t.prefs.tiers || t.alarmIds == {} then Stopped(t) else t
  }

  function Rendered(t: Tab, prefs: Prefs): Tab {
    t.(prefs := prefs,
       prefsEffectDue := t.prefsEffectDue || prefs.muted != t.prefs.muted || (Critical in prefs.tiers) != (Critical in t.prefs.tiers))
  }

  function PrefsApplied(t: Tab): Tab {
    (if t.prefs.muted || Critical !in t.prefs.tiers then Stopped(t) else t).(prefsEffectDue := false)
  }

  class AlarmTab {
    var prefs: Prefs
    var tracker: ArrivalTracker
    var alarmIds: set<string>
    var timer: bool

    constructor (prefs: Prefs)
      ensures fresh(tracker) && tracker.seen == None
      ensures this.prefs == prefs && alarmIds == {} && !timer
    {
      this.prefs, alarmIds, timer := prefs, {}, false;
      tracker := new ArrivalTracker();
    }

    method StopAlarm()
      modifies this
      ensures alarmIds == {} && !timer && prefs == old(prefs) && tracker == old(tracker)
    {
      alarmIds := {};
      if timer {
        timer := false;
      }
    }

    method StartAlarm()
      modifies this`timer
      ensures timer
    {
      if timer {
        return;
      }
      timer := true;
    }

    /** Read somewhere else: no longer alarming. */
    method DropRead(items: seq<Notice>)
      modifies this`alarmIds
      ensures alarmIds == old(alarmIds) - ReadIds(items)
    {
      for k := 0 to |items|
        invariant alarmIds == old(alarmIds) - ReadIds(items[..k])
      {
        assert items[..k + 1] == items[..k] + [items[k]];
        if items[k].read {
          alarmIds := alarmIds - {items[k].id};
        }
      }
      assert items[..|items|] == items;
    }

    /** The poll effect. The abstract tab `t` names the state it starts from. */
    method OnPoll(items: seq<Notice>, storage: SharedStorage, ghost t: Tab) returns (won: seq<Notice>)
      requires t.prefs == prefs && t.seen == tracker.seen && t.alarmIds == alarmIds && t.timer == timer
      modifies this, tracker, storage
      ensures prefs == old(prefs) && tracker == old(tracker)
      ensures won == Won(old(storage.list), Offered(t, items)) && storage.list == ListAfter(old(storage.list), Offered(t, items))
      ensures var r := Polled(t, items, won);
              tracker.seen == r.seen && alarmIds == r.alarmIds && timer == r.timer
    {
      hide Filter, Won, ListAfter, IsLoudest, Audible;
      DropRead(items);
      var unseen := tracker.Next(items);
      var arrivals := Filter((i: Notice) => i.urgency != Silent, unseen);
      won := storage.ClaimArrivals(arrivals);
      if |won| > 0 {
        var tier := LoudestAudible(won, prefs);
        LoudestRings(won, prefs, tier);
        if tier == Some(Critical) {
          alarmIds := alarmIds + CriticalIds(won);
          StartAlarm();
        }
      }
      if alarmIds == {} {
        StopAlarm();
      }
    }

    method OnTick(ghost t: Tab)
      requires t.prefs == prefs && t.alarmIds == alarmIds && t.timer == timer && timer
      modifies this
      ensures alarmIds == Ticked(t).alarmIds && timer == Ticked(t).timer && prefs == old(prefs) && tracker == old(tracker)
    {
      if prefs.muted || Critical !in prefs.tiers || alarmIds == {} {
        StopAlarm();
      }
    }

    method OnPrefs(ghost t: Tab)
      requires t.prefs == prefs && t.alarmIds == alarmIds && t.timer == timer
      modifies this
      ensures alarmIds == PrefsApplied(t).alarmIds && timer == PrefsApplied(t).timer && prefs == old(prefs) && tracker == old(tracker)
    {
      if prefs.muted || Critical !in prefs.tiers {
        StopAlarm();
      }
    }
  }
}
