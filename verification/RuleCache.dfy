/**
 * The rule cache over time. Reads of the table take time, so a write and its
 * invalidation can happen while one is under way, and other processes write the
 * table without telling this one.
 */
module RuleCache {
  import opened Wrappers
  import opened Alerts
  import opened AlertRules

  /** The table from `at` until the next version. */
  datatype Version = Version(at: int, table: seq<Rule>)

  /** Where some rows came from: history that no step consults. */
  datatype Origin = Origin(version: nat, readAt: int)

  datatype Cached = Cached(cache: Cache, origin: Origin)

  /** A fetch under way, and what its query saw once it ran. */
  datatype Fetch = Fetch(q: Query, seen: Option<(seq<Rule>, Origin)>)

  /** `doneAt` is when the rows behind the answer were fetched; `current` is the newest version at that moment of answering. */
  datatype Answer = Answer(q: Query, at: int, rule: EffectiveRule, origin: Origin, doneAt: int, current: nat)

  datatype World = World(
    now: int, versions: seq<Version>, cache: Option<Cached>, fetches: map<nat, Fetch>, answers: seq<Answer>)

  datatype Step =
    | Advance(dt: nat)
    | Ask(q: Query)
    | FetchBegin(id: nat, q: Query)
    | FetchRead(id: nat)
    | FetchEnd(id: nat)
    | Commit(table: seq<Rule>)
    | Invalidate
    | Write(table: seq<Rule>)

  function Init(now: int, table: seq<Rule>): World {
    World(now, [Version(now, table)], None, map[], [])
  }

  function Current(w: World): nat
    requires w.versions != []
  {
    |w.versions| - 1
  }

  function Table(w: World): seq<Rule>
    requires w.versions != []
  {
    w.versions[Current(w)].table
  }

  predicate Fresh(w: World) {
    w.cache.Some? && w.cache.value.cache.expiresAt > w.now
  }

  predicate Enabled(w: World, s: Step) {
    && w.versions != []
    && match s
       case FetchBegin(id, _) => id !in w.fetches && !Fresh(w)
       case FetchRead(id) => id in w.fetches && w.fetches[id].seen.None?
       case FetchEnd(id) => id in w.fetches && w.fetches[id].seen.Some?
       case _ => true
  }

  function Answered(w: World, q: Query, rules: seq<Rule>, origin: Origin, doneAt: int): World
    requires w.versions != []
  {
    w.(answers := w.answers + [Answer(q, w.now, Resolve(rules, q), origin, doneAt, Current(w))])
  }

  function Installed(w: World, rules: seq<Rule>, origin: Origin): World {
    w.(cache := Some(Cached(Cache(rules, w.now + TTL), origin)))
  }

  /**
   * `Ask` is a whole `resolveRule` with an instantaneous read; the three fetch
   * steps are one whose read takes time. `Write` is a create or an update by
   * this service with its invalidation at once; `Commit` and `Invalidate` are
   * its two halves, and a `Commit` alone is a write by another process.
   */
  function Next(w: World, s: Step): (r: World)
    requires Enabled(w, s)
    ensures r.versions != []
  {
    match s
    case Advance(dt) => w.(now := w.now + dt)
    case Ask(q) =>
      if Fresh(w) then
        var c := w.cache.value;
        Answered(w, q, c.cache.rules, c.origin, c.cache.expiresAt - TTL)
      else
        var origin := Origin(Current(w), w.now);
        Answered(Installed(w, Active(Table(w)), origin), q, Active(Table(w)), origin, w.now)
    case FetchBegin(id, q) => w.(fetches := w.fetches[id := Fetch(q, None)])
    case FetchRead(id) =>
      w.(fetches := w.fetches[id := w.fetches[id].(seen := Some((Active(Table(w)), Origin(Current(w), w.now))))])
    case FetchEnd(id) =>
      var (rules, origin) := w.fetches[id].seen.value;
      Answered(Installed(w, rules, origin), w.fetches[id].q, rules, origin, w.now).(fetches := w.fetches - {id})
    case Commit(table) => w.(versions := w.versions + [Version(w.now, table)])
    case Invalidate => w.(cache := None)
    case Write(table) => w.(versions := w.versions + [Version(w.now, table)], cache := None)
  }

  ghost predicate Possible(w: World, steps: seq<Step>)
    decreases |steps|
  {
    steps == [] || (Enabled(w, steps[0]) && Possible(Next(w, steps[0]), steps[1..]))
  }

  ghost function After(w: World, steps: seq<Step>): World
    requires Possible(w, steps)
    decreases |steps|
  {
    if steps == [] then w else After(Next(w, steps[0]), steps[1..])
  }

  // ----- What every run keeps -----

  /** `t` lies within the time the version was the table. */
  ghost predicate StoodAt(versions: seq<Version>, v: nat, t: int) {
    v < |versions| && versions[v].at <= t && (v + 1 < |versions| ==> t <= versions[v + 1].at)
  }

  ghost predicate Genuine(w: World, rules: seq<Rule>, origin: Origin) {
    && StoodAt(w.versions, origin.version, origin.readAt)
    && rules == Active(w.versions[origin.version].table)
  }

  ghost predicate GoodAnswer(versions: seq<Version>, a: Answer) {
    && StoodAt(versions, a.origin.version, a.origin.readAt)
    && a.rule == Resolve(Active(versions[a.origin.version].table), a.q)
    && a.origin.readAt <= a.doneAt <= a.at < a.doneAt + TTL
    && a.current < |versions|
  }

  ghost predicate Inv(w: World) {
    && w.versions != []
    && (forall v :: 0 <= v < |w.versions| ==> w.versions[v].at <= w.now)
    && (w.cache.Some? ==>
          && Genuine(w, w.cache.value.cache.rules, w.cache.value.origin)
          && w.cache.value.origin.readAt <= w.cache.value.cache.expiresAt - TTL <= w.now)
    && (forall id :: id in w.fetches && w.fetches[id].seen.Some? ==>
          && Genuine(w, w.fetches[id].seen.value.0, w.fetches[id].seen.value.1)
          && w.fetches[id].seen.value.1.readAt <= w.now)
    && (forall a :: a in w.answers ==> a.at <= w.now && GoodAnswer(w.versions, a))
  }

  /** A version keeps having stood when it did, whatever is written later. */
  lemma StoodLonger(versions: seq<Version>, v: nat, t: int, next: Version)
    requires StoodAt(versions, v, t) && t <= next.at
    ensures StoodAt(versions + [next], v, t) && (versions + [next])[v] == versions[v]
  {
  }

  lemma KeepsCommit(w: World, table: seq<Rule>)
    requires Inv(w)
    ensures Inv(Next(w, Commit(table)))
  {
    var next := Version(w.now, table);
    forall v: nat, t | StoodAt(w.versions, v, t) && t <= w.now
      ensures StoodAt(w.versions + [next], v, t) && (w.versions + [next])[v] == w.versions[v]
    {
      StoodLonger(w.versions, v, t, next);
    }
  }

  lemma KeepsAnswered(w: World, q: Query, rules: seq<Rule>, origin: Origin, doneAt: int)
    requires Inv(w) && Genuine(w, rules, origin) && origin.readAt <= doneAt <= w.now < doneAt + TTL
    ensures Inv(Answered(w, q, rules, origin, doneAt))
  {
  }

  lemma KeepsInstalled(w: World, rules: seq<Rule>, origin: Origin)
    requires Inv(w) && Genuine(w, rules, origin) && origin.readAt <= w.now
    ensures Inv(Installed(w, rules, origin))
  {
  }

  lemma KeepsAsk(w: World, q: Query)
    requires Inv(w)
    ensures Inv(Next(w, Ask(q)))
  {
    if Fresh(w) {
      var c := w.cache.value;
      KeepsAnswered(w, q, c.cache.rules, c.origin, c.cache.expiresAt - TTL);
    } else {
      var rules, origin := Active(Table(w)), Origin(Current(w), w.now);
      KeepsInstalled(w, rules, origin);
      KeepsAnswered(Installed(w, rules, origin), q, rules, origin, w.now);
    }
  }

  lemma KeepsFetch(w: World, s: Step)
    requires Inv(w) && Enabled(w, s) && (s.FetchBegin? || s.FetchRead?)
    ensures Inv(Next(w, s))
  {
  }

  lemma KeepsFetchEnd(w: World, s: Step)
    requires Inv(w) && Enabled(w, s) && s.FetchEnd?
    ensures Inv(Next(w, s))
  {
    var (rules, origin) := w.fetches[s.id].seen.value;
    KeepsInstalled(w, rules, origin);
    KeepsAnswered(Installed(w, rules, origin), w.fetches[s.id].q, rules, origin, w.now);
    hide Active, Resolve, GoodAnswer, Genuine, StoodAt;
  }

  lemma KeepsWrite(w: World, table: seq<Rule>)
    requires Inv(w)
    ensures Inv(Next(w, Write(table)))
  {
    KeepsCommit(w, table);
    hide Active, Resolve, GoodAnswer, Genuine, StoodAt;
  }

  lemma KeepsQuiet(w: World, s: Step)
    requires Inv(w) && (s.Advance? || s.Invalidate?)
    ensures Inv(Next(w, s))
  {
    hide Active, Resolve, GoodAnswer, StoodAt;
  }

  lemma KeepsInv(w: World, s: Step)
    requires Inv(w) && Enabled(w, s)
    ensures Inv(Next(w, s))
  {
    hide Inv, Next;
    match s
    case Advance(_) => KeepsQuiet(w, s);
    case Ask(q) => KeepsAsk(w, q);
    case FetchBegin(_, _) => KeepsFetch(w, s);
    case FetchRead(_) => KeepsFetch(w, s);
    case FetchEnd(_) => KeepsFetchEnd(w, s);
    case Commit(table) => KeepsCommit(w, table);
    case Invalidate => KeepsQuiet(w, s);
    case Write(table) => KeepsWrite(w, table);
  }

  lemma {:induction false} RunKeepsInv(w: World, steps: seq<Step>)
    requires Possible(w, steps) && Inv(w)
    ensures Inv(After(w, steps))
    decreases |steps|
  {
    if steps != [] {
      KeepsInv(w, steps[0]);
      RunKeepsInv(Next(w, steps[0]), steps[1..]);
    }
  }

  /**
   * Bounded staleness, with any interleaving of reads, writes and writers: each
   * answer is the uncached resolution on a table that stood when its rows were
   * read, and it was given less than one TTL after that read completed.
   */
  lemma BoundedStaleness(now: int, table: seq<Rule>, steps: seq<Step>, a: Answer)
    requires Possible(Init(now, table), steps) && a in After(Init(now, table), steps).answers
    ensures GoodAnswer(After(Init(now, table), steps).versions, a)
  {
    RunKeepsInv(Init(now, table), steps);
  }

  // ----- When answers are those of the present table -----

  /** The cache, and every read that has not ended yet, hold the active rows of the present table. */
  ghost predicate UpToDate(w: World) {
    && w.versions != []
    && (w.cache.Some? ==> w.cache.value.cache.rules == Active(Table(w)))
    && (forall id :: id in w.fetches && w.fetches[id].seen.Some? ==> w.fetches[id].seen.value.0 == Active(Table(w)))
  }

  /** No fetch is between its read and its end. */
  predicate NoneRead(w: World) {
    forall id :: id in w.fetches ==> w.fetches[id].seen.None?
  }

  /** The step overtakes no rows that are held: a write no read under way, a write without invalidation not the cache either. */
  predicate Prompt(w: World, s: Step)
    requires w.versions != []
  {
    match s
    case Write(table) => NoneRead(w) || Active(table) == Active(Table(w))
    case Commit(table) => (NoneRead(w) && w.cache.None?) || Active(table) == Active(Table(w))
    case _ => true
  }

  /**
   * A step keeps everything up to date exactly when it is prompt: mutations do
   * bust the cache unless one falls between a read of the table and its end, or
   * is made without invalidating, and changes the active rows.
   */
  lemma PromptExact(w: World, s: Step)
    requires UpToDate(w) && Enabled(w, s)
    ensures UpToDate(Next(w, s)) <==> Prompt(w, s)
  {
    if s.Write? || s.Commit? { WritePrompt(w, s); } else { OthersKeepUp(w, s); }
  }

  lemma OthersKeepUp(w: World, s: Step)
    requires UpToDate(w) && Enabled(w, s) && !s.Write? && !s.Commit?
    ensures UpToDate(Next(w, s))
  {
    hide Active, Resolve;
  }

  lemma WritePrompt(w: World, s: Step)
    requires UpToDate(w) && (s.Write? || s.Commit?)
    ensures UpToDate(Next(w, s)) <==> Prompt(w, s)
  {
    var r := Next(w, s);
    assert Table(r) == s.table && r.fetches == w.fetches && r.cache == if s.Write? then None else w.cache;
    hide Active, Next, Table;
    if !NoneRead(w) {
      var id :| id in w.fetches && w.fetches[id].seen.Some?;
      assert r.fetches[id].seen.value.0 == Active(Table(w));
    }
  }

  ghost predicate PromptRun(w: World, steps: seq<Step>)
    requires Possible(w, steps)
    decreases |steps|
  {
    steps == [] || (Prompt(w, steps[0]) && PromptRun(Next(w, steps[0]), steps[1..]))
  }

  /** Every answer so far was that of the table when it was given. */
  ghost predicate AnsweredNow(w: World) {
    forall a :: a in w.answers ==> a.current < |w.versions| && a.rule == Resolve(Active(w.versions[a.current].table), a.q)
  }

  lemma AnsweredNowStep(w: World, s: Step)
    requires UpToDate(w) && AnsweredNow(w) && Enabled(w, s)
    ensures AnsweredNow(Next(w, s))
  {
    hide Active, Resolve;
  }

  lemma {:induction false} PromptRunKeeps(w: World, steps: seq<Step>)
    requires Possible(w, steps) && PromptRun(w, steps) && UpToDate(w) && AnsweredNow(w)
    ensures UpToDate(After(w, steps)) && AnsweredNow(After(w, steps))
    decreases |steps|
  {
    hide Next, UpToDate, AnsweredNow, Enabled, Prompt;
    if steps != [] {
      AnsweredNowStep(w, steps[0]);
      PromptExact(w, steps[0]);
      PromptRunKeeps(Next(w, steps[0]), steps[1..]);
    }
  }

  /**
   * In every run, slow reads included, in which no mutation falls between a read
   * of the table and its end, every answer is the uncached resolution on the
   * table of that very moment.
   */
  lemma PromptAnswersAreCurrent(now: int, table: seq<Rule>, steps: seq<Step>, a: Answer)
    requires Possible(Init(now, table), steps) && PromptRun(Init(now, table), steps)
    requires a in After(Init(now, table), steps).answers
    ensures var vs := After(Init(now, table), steps).versions;
            a.current < |vs| && a.rule == Resolve(Active(vs[a.current].table), a.q)
  {
    PromptRunKeeps(Init(now, table), steps);
  }

  // ----- Mutations whose invalidation comes later -----

  /** Every read that has not ended yet holds the active rows of the present table. */
  ghost predicate ReadsCurrent(w: World) {
    && w.versions != []
    && (forall id :: id in w.fetches && w.fetches[id].seen.Some? ==> w.fetches[id].seen.value.0 == Active(Table(w)))
  }

  /** Whatever the cache held, an invalidation brings everything up to date exactly when the reads under way are. */
  lemma InvalidateExact(w: World)
    requires w.versions != []
    ensures UpToDate(Next(w, Invalidate)) <==> ReadsCurrent(w)
  {
    hide Active;
  }

  /** A mutation, invalidated or not, overtakes no read: none is under way past its query, or the active rows stay. */
  predicate Unovertaking(w: World, s: Step)
    requires w.versions != []
  {
    s.Write? || s.Commit? ==> NoneRead(w) || Active(s.table) == Active(Table(w))
  }

  lemma UnovertakingExact(w: World, s: Step)
    requires ReadsCurrent(w) && Enabled(w, s)
    ensures ReadsCurrent(Next(w, s)) <==> Unovertaking(w, s)
  {
    if s.Write? || s.Commit? {
      var r := Next(w, s);
      assert Table(r) == s.table && r.fetches == w.fetches;
      hide Active, Next, Table;
      if !NoneRead(w) {
        var id :| id in w.fetches && w.fetches[id].seen.Some?;
        assert r.fetches[id].seen.value.0 == Active(Table(w));
      }
    } else {
      OthersLeaveReads(w, s);
    }
  }

  lemma OthersLeaveReads(w: World, s: Step)
    requires ReadsCurrent(w) && Enabled(w, s) && !s.Write? && !s.Commit?
    ensures ReadsCurrent(Next(w, s))
  {
    hide Active, Resolve;
  }

  ghost predicate UnovertakingRun(w: World, steps: seq<Step>)
    requires Possible(w, steps)
    decreases |steps|
  {
    steps == [] || (Unovertaking(w, steps[0]) && UnovertakingRun(Next(w, steps[0]), steps[1..]))
  }

  /** Whether a commit still waits for an invalidation. */
  ghost function InGap(gap: bool, steps: seq<Step>): bool
    decreases |steps|
  {
    if steps == [] then gap
    else InGap(if steps[0].Commit? then true else if steps[0].Invalidate? || steps[0].Write? then false else gap, steps[1..])
  }

  /** Outside a gap everything is up to date, and the reads under way always are. */
  ghost predicate GapInv(w: World, gap: bool) {
    ReadsCurrent(w) && (!gap ==> UpToDate(w))
  }

  lemma GapStep(w: World, s: Step, gap: bool)
    requires GapInv(w, gap) && Enabled(w, s) && Unovertaking(w, s)
    ensures GapInv(Next(w, s), InGap(gap, [s]))
  {
    assert [s][1..] == [];
    hide Active, Resolve;
    UnovertakingExact(w, s);
    if s.Invalidate? {
      InvalidateExact(w);
    } else if s.Write? {
      WriteIsCommitInvalidate(w, s.table);
      UnovertakingExact(w, Commit(s.table));
      InvalidateExact(Next(w, Commit(s.table)));
    } else if !s.Commit? && !gap {
      OthersKeepUp(w, s);
    }
  }

  lemma {:induction false} GapRun(w: World, steps: seq<Step>, gap: bool)
    requires Possible(w, steps) && UnovertakingRun(w, steps) && GapInv(w, gap)
    ensures GapInv(After(w, steps), InGap(gap, steps))
    decreases |steps|
  {
    hide Next, GapInv, Enabled, Unovertaking;
    if steps != [] {
      GapStep(w, steps[0], gap);
      assert [steps[0]][1..] == [];
      GapRun(Next(w, steps[0]), steps[1..], InGap(gap, [steps[0]]));
    }
  }

  /**
   * Every mutation busts the cache, once its invalidation has come and as long
   * as no commit overtakes a read: after every such run, outside the gap between
   * a commit and its invalidation, a question is answered from the present
   * table; and a read that ends is, gap or not.
   */
  lemma AnswersOutsideGaps(now: int, table: seq<Rule>, steps: seq<Step>, s: Step)
    requires Possible(Init(now, table), steps) && UnovertakingRun(Init(now, table), steps)
    requires Enabled(After(Init(now, table), steps), s) && (s.FetchEnd? || (s.Ask? && !InGap(false, steps)))
    ensures var w := After(Init(now, table), steps);
            var answers := Next(w, s).answers;
            && w.versions != [] && answers != []
            && answers[|answers| - 1].rule == Resolve(Active(Table(w)), answers[|answers| - 1].q)
  {
    GapRun(Init(now, table), steps, false);
    hide Active, Resolve, Possible, After;
  }

  // ----- Sequential runs -----

  /** Reads are instantaneous. */
  ghost predicate Sequential(s: Step) {
    !s.FetchBegin? && !s.FetchRead? && !s.FetchEnd?
  }

  /** Only this service writes, and it invalidates at once. */
  ghost predicate SoleWriter(s: Step) {
    Sequential(s) && !s.Commit?
  }

  ghost predicate SequentialInv(w: World) {
    && w.fetches == map[]
    && (w.cache.Some? ==> w.cache.value.origin.readAt == w.cache.value.cache.expiresAt - TTL)
    && (forall a :: a in w.answers ==> a.origin.readAt == a.doneAt)
  }

  lemma SequentialStep(w: World, s: Step)
    requires Enabled(w, s) && SequentialInv(w) && Sequential(s)
    ensures SequentialInv(Next(w, s))
  {
    hide Active, Resolve;
  }

  lemma {:induction false} SequentialRun(w: World, steps: seq<Step>)
    requires Possible(w, steps) && SequentialInv(w)
    requires forall i :: 0 <= i < |steps| ==> Sequential(steps[i])
    ensures SequentialInv(After(w, steps))
    decreases |steps|
  {
    hide Next, SequentialInv, Enabled;
    if steps != [] {
      SequentialStep(w, steps[0]);
      SequentialRun(Next(w, steps[0]), steps[1..]);
    }
  }

  /** Without slow reads a sole writer's writes overtake none. */
  lemma {:induction false} SequentialIsPrompt(w: World, steps: seq<Step>)
    requires Possible(w, steps) && w.fetches == map[]
    requires forall i :: 0 <= i < |steps| ==> SoleWriter(steps[i])
    ensures PromptRun(w, steps)
    decreases |steps|
  {
    hide Active, Resolve, Fresh;
    if steps != [] {
      SequentialIsPrompt(Next(w, steps[0]), steps[1..]);
    }
  }

  /**
   * Cache refinement. In a sequential run each answer is the uncached
   * resolution on the table as it stood less than one TTL before; when this
   * service is the only writer, on the table of that very moment.
   */
  lemma CacheRefines(now: int, table: seq<Rule>, steps: seq<Step>, a: Answer)
    requires Possible(Init(now, table), steps) && a in After(Init(now, table), steps).answers
    requires forall i :: 0 <= i < |steps| ==> Sequential(steps[i])
    ensures var vs := After(Init(now, table), steps).versions;
            && StoodAt(vs, a.origin.version, a.origin.readAt) && a.at - TTL < a.origin.readAt <= a.at
            && a.rule == Resolve(Active(vs[a.origin.version].table), a.q)
            && a.current < |vs|
            && ((forall i :: 0 <= i < |steps| ==> SoleWriter(steps[i])) ==> a.rule == Resolve(Active(vs[a.current].table), a.q))
  {
    RunKeepsInv(Init(now, table), steps);
    SequentialRun(Init(now, table), steps);
    if forall i :: 0 <= i < |steps| ==> SoleWriter(steps[i]) {
      SequentialIsPrompt(Init(now, table), steps);
      PromptAnswersAreCurrent(now, table, steps, a);
    }
  }

  // ----- The service takes these steps -----

  /** The service's fields are those of the step system. */
  ghost predicate Represents(service: AlertRulesService, w: World)
    reads service
  {
    && w.versions != [] && service.table == Table(w)
    && service.cache == if w.cache.Some? then Some(w.cache.value.cache) else None
  }

  /** A whole `resolveRule` is an `Ask`: it gives that step's answer and leaves that step's cache. */
  method AskIsResolveRule(service: AlertRulesService, q: Query, now: int, ghost w: World) returns (rule: EffectiveRule)
    requires Represents(service, w) && now == w.now
    modifies service`cache
    ensures Represents(service, Next(w, Ask(q)))
    ensures var answers := Next(w, Ask(q)).answers; answers != [] && answers[|answers| - 1].q == q && answers[|answers| - 1].rule == rule
  {
    hide Active, Resolve;
    rule := service.ResolveRule(q, now);
  }

  /** The transaction of a `create` is a `Commit`. */
  method CommitIsCreate(service: AlertRulesService, rule: Rule, ghost w: World)
    requires Represents(service, w)
    modifies service`table
    ensures Represents(service, Next(w, Commit(old(service.table) + [rule])))
  {
    hide Active, Resolve;
    service.CommitCreate(rule);
  }

  /** So is that of an `update` that finds its row. */
  method CommitIsUpdate(service: AlertRulesService, id: string, after: Rule -> Rule, ghost w: World) returns (found: bool)
    requires Represents(service, w)
    modifies service`table
    ensures Represents(service, if found then Next(w, Commit(service.table)) else w)
  {
    hide Active, Resolve;
    found := service.CommitUpdate(id, after);
  }

  /** What follows both, after whatever came in between, is an `Invalidate`. */
  method InvalidateIsInvalidate(service: AlertRulesService, ghost w: World)
    requires Represents(service, w)
    modifies service`cache
    ensures Represents(service, Next(w, Invalidate))
  {
    hide Active, Resolve;
    service.InvalidateCache();
  }

  /** With nothing in between, a mutation is a `Write`: a commit and its invalidation. */
  lemma WriteIsCommitInvalidate(w: World, table: seq<Rule>)
    requires w.versions != []
    ensures Next(w, Write(table)) == Next(Next(w, Commit(table)), Invalidate)
  {
  }

  // ----- An overtaken read -----

  /** One more step at the front of a run. */
  lemma Cons(w: World, s: Step, mid: World, steps: seq<Step>)
    requires Enabled(w, s) && Next(w, s) == mid && Possible(mid, steps)
    ensures Possible(w, [s] + steps) && After(w, [s] + steps) == After(mid, steps)
  {
    assert ([s] + steps)[1..] == steps;
  }

  /**
   * How long cached rows are served: a question after a write by another process
   * is answered from the rows read before it for thirty seconds from that read,
   * and from the written table afterwards.
   */
  lemma CacheWindow(w: World, q: Query, table: seq<Rule>, dt: nat, next: Query)
    requires w.versions != [] && w.cache == None
    ensures var steps := [Ask(q)] + ([Commit(table)] + ([Advance(dt)] + ([Ask(next)] + [])));
            && Possible(w, steps)
            && var answers := After(w, steps).answers;
               && answers != []
               && answers[|answers| - 1].rule == Resolve(Active(if dt < 30_000 then Table(w) else table), next)
  {
    hide Active, Resolve;
    var w1 := Next(w, Ask(q));
    var w2 := Next(w1, Commit(table));
    var w3 := Next(w2, Advance(dt));
    var w4 := Next(w3, Ask(next));
    assert w1.cache.value.cache == Cache(Active(Table(w)), w.now + 30_000) && Table(w3) == table;
    hide Next, Table;
    Cons(w3, Ask(next), w4, []);
    Cons(w2, Advance(dt), w3, [Ask(next)] + []);
    Cons(w1, Commit(table), w2, [Advance(dt)] + ([Ask(next)] + []));
    Cons(w, Ask(q), w1, [Commit(table)] + ([Advance(dt)] + ([Ask(next)] + [])));
    AskAnswers(w3, next);
  }

  /** So it is for a slow read, counted from its end. */
  lemma FetchWindow(w: World, id: nat, table: seq<Rule>, dt: nat, next: Query)
    requires Enabled(w, FetchEnd(id))
    ensures var steps := [FetchEnd(id)] + ([Commit(table)] + ([Advance(dt)] + ([Ask(next)] + [])));
            && Possible(w, steps)
            && var answers := After(w, steps).answers;
               && answers != []
               && answers[|answers| - 1].rule == Resolve(if dt < 30_000 then w.fetches[id].seen.value.0 else Active(table), next)
  {
    hide Active, Resolve;
    var w1 := Next(w, FetchEnd(id));
    var w2 := Next(w1, Commit(table));
    var w3 := Next(w2, Advance(dt));
    var w4 := Next(w3, Ask(next));
    assert w1.cache.value.cache == Cache(w.fetches[id].seen.value.0, w.now + 30_000) && Table(w3) == table;
    hide Next, Table;
    Cons(w3, Ask(next), w4, []);
    Cons(w2, Advance(dt), w3, [Ask(next)] + []);
    Cons(w1, Commit(table), w2, [Advance(dt)] + ([Ask(next)] + []));
    Cons(w, FetchEnd(id), w1, [Commit(table)] + ([Advance(dt)] + ([Ask(next)] + [])));
    AskAnswers(w3, next);
  }

  lemma AskAnswers(w: World, q: Query)
    requires w.versions != []
    ensures var answers := Next(w, Ask(q)).answers;
            && answers != [] && answers[|answers| - 1].q == q
            && answers[|answers| - 1].rule ==
               Resolve(if w.cache.Some? && w.now < w.cache.value.cache.expiresAt then w.cache.value.cache.rules else Active(Table(w)), q)
  {
    hide Active, Resolve;
  }

  /** A write passes a fetch that has read the old table. */
  lemma Overtaken(w: World, id: nat, q: Query, table: seq<Rule>)
    requires w.versions != [] && w.cache == None && id !in w.fetches
    ensures var w1 := w.(fetches := w.fetches[id := Fetch(q, None)]);
            var w2 := w.(fetches := w.fetches[id := Fetch(q, Some((Active(Table(w)), Origin(Current(w), w.now))))]);
            && Enabled(w, FetchBegin(id, q)) && Next(w, FetchBegin(id, q)) == w1
            && Next(w1, FetchRead(id)) == w2
            && Next(w2, Write(table)) == w2.(versions := w.versions + [Version(w.now, table)])
  {
  }

  /** The fetch ends, installs what it read, and the next question is answered from that. */
  lemma ServedOld(w: World, id: nat, q: Query, rules: seq<Rule>, origin: Origin) returns (w1: World, w2: World)
    requires w.versions != [] && id in w.fetches && w.fetches[id] == Fetch(q, Some((rules, origin)))
    ensures Next(w, FetchEnd(id)) == w1 && w1.versions == w.versions && Next(w1, Ask(q)) == w2
    ensures w2.versions == w.versions && w2.answers != [] && w2.answers[|w2.answers| - 1].rule == Resolve(rules, q)
  {
    w1 := Next(w, FetchEnd(id));
    assert w1.cache == Some(Cached(Cache(rules, w.now + TTL), origin)) && Fresh(w1);
    w2 := Next(w1, Ask(q));
  }

  /**
   * A read overtaken by a write of this very service reinstalls the old rows:
   * the answer after it is not that of the table, whenever the write matters.
   */
  lemma OvertakenReadServesOldRows(w: World, id: nat, q: Query, table: seq<Rule>)
    requires w.versions != [] && w.cache == None && id !in w.fetches
    requires Resolve(Active(Table(w)), q) != Resolve(Active(table), q)
    ensures var steps := [FetchBegin(id, q)] + ([FetchRead(id)] + ([Write(table)] + ([FetchEnd(id)] + ([Ask(q)] + []))));
            && Possible(w, steps)
            && var r := After(w, steps);
               && r.versions != [] && Table(r) == table && r.answers != []
               && r.answers[|r.answers| - 1].rule == Resolve(Active(Table(w)), q) != Resolve(Active(Table(r)), q)
  {
    var rules, origin := Active(Table(w)), Origin(Current(w), w.now);
    var w1 := w.(fetches := w.fetches[id := Fetch(q, None)]);
    var w2 := w.(fetches := w.fetches[id := Fetch(q, Some((rules, origin)))]);
    var w3 := w2.(versions := w.versions + [Version(w.now, table)]);
    Overtaken(w, id, q, table);
    var w4, w5 := ServedOld(w3, id, q, rules, origin);
    Cons(w4, Ask(q), w5, []);
    Cons(w3, FetchEnd(id), w4, [Ask(q)] + []);
    Cons(w2, Write(table), w3, [FetchEnd(id)] + ([Ask(q)] + []));
    Cons(w1, FetchRead(id), w2, [Write(table)] + ([FetchEnd(id)] + ([Ask(q)] + [])));
    Cons(w, FetchBegin(id, q), w1, [FetchRead(id)] + ([Write(table)] + ([FetchEnd(id)] + ([Ask(q)] + []))));
  }
}
