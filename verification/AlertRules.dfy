/**
 * Which alert rule governs an ingest, and the short-lived cache in front of the
 * rule table.
 */
module AlertRules {
  import opened Wrappers
  import opened Alerts

  /** How long cached rows may be served, in milliseconds. */
  const TTL := 30_000

  datatype Rule = Rule(
    id: string, siteId: Option<string>, alertType: Option<string>, createdAt: int, isActive: bool, policy: EffectiveRule)

  /** What an ingest knows about itself when asking for its policy. */
  datatype Query = Query(siteId: Option<string>, alertType: Option<string>)

  const DEFAULT_ALERT_RULE := EffectiveRule(3, 30, {Critical}, true, true, {Critical})

  predicate Matches(rule: Rule, q: Query) {
    && (rule.siteId.Some? ==> rule.siteId == q.siteId)
    && (rule.alertType.Some? ==> rule.alertType == q.alertType)
  }

  /** A rule governs the sites and types it names, and all of them where it names none. */
  ghost predicate Applies(rule: Rule, q: Query) {
    rule.siteId in {None, q.siteId} && rule.alertType in {None, q.alertType}
  }

  lemma MatchesExact(rule: Rule, q: Query)
    ensures Matches(rule, q) <==> Applies(rule, q)
  {
  }

  function Score(rule: Rule): nat {
    (if rule.siteId.Some? then 2 else 0) + (if rule.alertType.Some? then 1 else 0)
  }

  /** More specific: a site beats a type beats nothing, compared in that order. */
  ghost predicate MoreSpecific(a: Rule, b: Rule) {
    || (a.siteId.Some? && b.siteId.None?)
    || (a.siteId.Some? == b.siteId.Some? && a.alertType.Some? && b.alertType.None?)
  }

  ghost predicate IsChoice(rules: seq<Rule>, q: Query, k: int) {
    && 0 <= k < |rules| && Applies(rules[k], q)
    && (forall j :: 0 <= j < |rules| && Applies(rules[j], q) ==> !MoreSpecific(rules[j], rules[k]))
    && (forall j :: 0 <= j < k && Applies(rules[j], q) ==> MoreSpecific(rules[k], rules[j]))
  }

  /** The position of the winning rule: among the matching rules of greatest specificity, the first listed. */
  function Best(rules: seq<Rule>, q: Query): (k: Option<nat>)
    ensures k.Some? ==> IsChoice(rules, q, k.value)
    ensures k.None? <==> forall j :: 0 <= j < |rules| ==> !Applies(rules[j], q)
  {
    if rules == [] then None
    else
      var n := |rules| - 1;
      var earlier := Best(rules[..n], q);
      if Matches(rules[n], q) && (earlier.None? || Score(rules[n]) > Score(rules[earlier.value])) then Some(n) else earlier
  }

  function Resolve(rules: seq<Rule>, q: Query): EffectiveRule {
    var k := Best(rules, q);
    if k.Some? then rules[k.value].policy else DEFAULT_ALERT_RULE
  }

  /** The choice is unique, so its description says everything about it. */
  lemma ChoiceUnique(rules: seq<Rule>, q: Query, k: int)
    requires IsChoice(rules, q, k)
    ensures Best(rules, q) == Some(k)
  {
    var b := Best(rules, q);
    assert b.Some? && IsChoice(rules, q, b.value);
  }

  // ----- The table -----

  ghost predicate NewestFirst(rules: seq<Rule>) {
    forall i, j :: 0 <= i < j < |rules| ==> rules[i].createdAt >= rules[j].createdAt
  }

  /** The place of a rule in a list that is newest first, behind those of its own age. */
  function Insert(rules: seq<Rule>, rule: Rule): (r: seq<Rule>)
    ensures multiset(r) == multiset(rules) + multiset{rule}
  {
    if rules == [] || rules[|rules| - 1].createdAt >= rule.createdAt then rules + [rule]
    else
      var n := |rules| - 1;
      assert rules == rules[..n] + [rules[n]];
      Insert(rules[..n], rule) + [rules[n]]
  }

  lemma InsertHolds(rules: seq<Rule>, rule: Rule, x: Rule)
    ensures x in Insert(rules, rule) <==> x in rules || x == rule
  {
    var r := Insert(rules, rule);
    assert x in r <==> x in multiset(r);
    assert x in rules <==> x in multiset(rules);
  }

  lemma {:induction false} InsertKeepsOrder(rules: seq<Rule>, rule: Rule)
    requires NewestFirst(rules)
    ensures NewestFirst(Insert(rules, rule))
  {
    var n := |rules| - 1;
    if rules != [] && rules[n].createdAt < rule.createdAt {
      InsertKeepsOrder(rules[..n], rule);
      var front := Insert(rules[..n], rule);
      forall i | 0 <= i < |front| ensures front[i].createdAt >= rules[n].createdAt {
        InsertHolds(rules[..n], rule, front[i]);
      }
    }
  }

  /** The query behind the cache: the active rows, newest first, whatever order the table holds them in. */
  function Active(table: seq<Rule>): seq<Rule> {
    if table == [] then []
    else
      var front, last := Active(table[..|table| - 1]), table[|table| - 1];
      if last.isActive then Insert(front, last) else front
  }

  /** It answers each active row once, and the newest first. */
  lemma {:induction false} ActiveIs(table: seq<Rule>)
    ensures multiset(Active(table)) == multiset(Filter((rule: Rule) => rule.isActive, table))
    ensures NewestFirst(Active(table))
  {
    if table != [] {
      var n := |table| - 1;
      ActiveIs(table[..n]);
      InsertKeepsOrder(Active(table[..n]), table[n]);
    }
  }

  lemma {:induction false} ActiveRows(table: seq<Rule>, rule: Rule)
    ensures rule in Active(table) <==> rule in table && rule.isActive
  {
    ActiveIs(table);
    hide Active;
    var r, filtered := Active(table), Filter((x: Rule) => x.isActive, table);
    assert rule in r <==> rule in multiset(r);
    assert rule in filtered <==> rule in multiset(filtered);
  }

  /**
   * Rule choice: the policy of a matching active rule such that no matching
   * active rule is more specific and none equally specific is newer, or the
   * default exactly when no active rule matches.
   */
  lemma {:induction false} RuleChoice(table: seq<Rule>, q: Query)
    ensures var r := Resolve(Active(table), q);
            || (&& r == DEFAULT_ALERT_RULE
                && forall i :: 0 <= i < |table| && table[i].isActive ==> !Applies(table[i], q))
            || exists k :: && 0 <= k < |table| && table[k].isActive && Applies(table[k], q) && r == table[k].policy
                           && forall i :: 0 <= i < |table| && table[i].isActive && Applies(table[i], q) ==>
                                !MoreSpecific(table[i], table[k]) &&
                                (!MoreSpecific(table[k], table[i]) ==> table[i].createdAt <= table[k].createdAt)
  {
    var rules := Active(table);
    var best := Best(rules, q);
    ActiveIs(table);
    hide Active, MoreSpecific;
    if best.None? {
      forall i | 0 <= i < |table| && table[i].isActive ensures !Applies(table[i], q) {
        ActiveRows(table, table[i]);
      }
    } else {
      ActiveRows(table, rules[best.value]);
      var k :| 0 <= k < |table| && table[k] == rules[best.value];
      forall i | 0 <= i < |table| && table[i].isActive && Applies(table[i], q)
        ensures !MoreSpecific(table[i], table[k])
        ensures !MoreSpecific(table[k], table[i]) ==> table[i].createdAt <= table[k].createdAt
      {
        ActiveRows(table, table[i]);
        ChoiceBeats(rules, q, best.value, table[i]);
      }
    }
  }

  /**
   * Where no rule applies: three sightings of a fingerprint within half an hour
   * flap, CRITICAL alerts and no others page and open incidents, alerts are
   * correlated, and maintenance silences them.
   */
  lemma PolicyWithoutRules(table: seq<Rule>, q: Query)
    requires forall i :: 0 <= i < |table| && table[i].isActive ==> !Applies(table[i], q)
    ensures var r := Resolve(Active(table), q);
            && r.flappingThreshold == 3 && r.flappingWindowMinutes == 30 && r.pagingSeverities == {Critical}
            && r.autoCorrelateIncidents && r.suppressAutoTicketDuringMaintenance && r.autoCreateSeverities == {Critical}
  {
    RuleChoice(table, q);
    hide Resolve, Active, Best;
  }

  /** The choice is not beaten by any matching rule of the list, and is the newest of its specificity. */
  lemma ChoiceBeats(rules: seq<Rule>, q: Query, k: nat, rule: Rule)
    requires IsChoice(rules, q, k) && NewestFirst(rules) && rule in rules && Applies(rule, q)
    ensures !MoreSpecific(rule, rules[k])
    ensures !MoreSpecific(rules[k], rule) ==> rule.createdAt <= rules[k].createdAt
  {
    var j :| 0 <= j < |rules| && rules[j] == rule;
  }

  /**
   * Adding a rule anywhere changes a result only if the rule matches and is at
   * least as specific as the present winner.
   */
  lemma {:induction false} IrrelevantRule(rules: seq<Rule>, q: Query, at: nat, rule: Rule)
    requires at <= |rules|
    requires !Applies(rule, q) || (Best(rules, q).Some? && MoreSpecific(rules[Best(rules, q).value], rule))
    ensures Resolve(rules[..at] + [rule] + rules[at..], q) == Resolve(rules, q)
  {
    var more := rules[..at] + [rule] + rules[at..];
    var best := Best(rules, q);
    if best.None? {
      assert forall j :: 0 <= j < |more| ==> !Applies(more[j], q);
    } else {
      var k := if best.value < at then best.value else best.value + 1;
      ChoiceSurvives(rules, q, at, rule, best.value);
      ChoiceUnique(more, q, k);
    }
  }

  lemma {:induction false} InsertPlace(rules: seq<Rule>, rule: Rule) returns (at: nat)
    ensures at <= |rules| && Insert(rules, rule) == rules[..at] + [rule] + rules[at..]
  {
    var n := |rules| - 1;
    if rules == [] || rules[n].createdAt >= rule.createdAt {
      at := |rules|;
    } else {
      at := InsertPlace(rules[..n], rule);
      assert rules[..n][..at] == rules[..at] && rules[..n][at..] + [rules[n]] == rules[at..];
    }
  }

  /**
   * A new row of the table changes a result only if it is active, matches and
   * is at least as specific as the present winner.
   */
  lemma IrrelevantRow(table: seq<Rule>, q: Query, rule: Rule)
    requires var rules := Active(table);
             !rule.isActive || !Applies(rule, q) || (Best(rules, q).Some? && MoreSpecific(rules[Best(rules, q).value], rule))
    ensures Resolve(Active(table + [rule]), q) == Resolve(Active(table), q)
  {
    assert (table + [rule])[..|table|] == table;
    if rule.isActive {
      var at := InsertPlace(Active(table), rule);
      IrrelevantRule(Active(table), q, at, rule);
    }
  }

  lemma {:induction false} ChoiceSurvives(rules: seq<Rule>, q: Query, at: nat, rule: Rule, k: nat)
    requires at <= |rules| && IsChoice(rules, q, k)
    requires Applies(rule, q) ==> MoreSpecific(rules[k], rule)
    ensures IsChoice(rules[..at] + [rule] + rules[at..], q, if k < at then k else k + 1)
  {
    hide Applies, MoreSpecific;
    var more, k' := rules[..at] + [rule] + rules[at..], if k < at then k else k + 1;
    InsertedAt(rules, at, rule);
    forall j | 0 <= j < |more| && Applies(more[j], q) ensures !MoreSpecific(more[j], more[k']) && (j < k' ==> MoreSpecific(more[k'], more[j])) {
      if j != at {
        assert more[j] == rules[if j < at then j else j - 1];
      } else {
        NotBoth(rules[k], rule);
      }
    }
  }

  lemma NotBoth(a: Rule, b: Rule)
    requires MoreSpecific(a, b)
    ensures !MoreSpecific(b, a)
  {
  }

  lemma InsertedAt(rules: seq<Rule>, at: nat, rule: Rule)
    requires at <= |rules|
    ensures var more := rules[..at] + [rule] + rules[at..];
            forall j :: 0 <= j < |more| ==> more[j] == if j < at then rules[j] else if j == at then rule else rules[j - 1]
  {
  }

  // ----- The service -----

  datatype Cache = Cache(rules: seq<Rule>, expiresAt: int)

  /** The loop of `resolveRule`: a strictly better score wins, so the first of a tie stays. */
  method MostSpecific(rules: seq<Rule>, q: Query) returns (best: Option<nat>)
    ensures best.None? <==> forall j :: 0 <= j < |rules| ==> !Applies(rules[j], q)
    ensures best.Some? ==> IsChoice(rules, q, best.value)
    ensures best == Best(rules, q)
  {
    best := None;
    var bestScore: int := -1;
    for i := 0 to |rules|
      invariant best == Best(rules[..i], q)
      invariant best.Some? ==> best.value < i && bestScore == Score(rules[best.value])
      invariant best.None? ==> bestScore == -1
    {
      assert rules[..i + 1][..i] == rules[..i];
      var candidate := rules[i];
      if candidate.siteId.Some? && candidate.siteId != q.siteId {
        continue;
      }
      if candidate.alertType.Some? && candidate.alertType != q.alertType {
        continue;
      }
      var score := Score(candidate);
      if score > bestScore {
        best, bestScore := Some(i), score;
      }
    }
    assert rules[..|rules|] == rules;
  }

  class AlertRulesService {
    var cache: Option<Cache>
    /** The rule table this service reads and writes. */
    var table: seq<Rule>

    /** The rows `ActiveRules` would answer at `now`. */
    ghost function Rows(now: int): seq<Rule>
      reads this
    {
      if cache.Some? && cache.value.expiresAt > now then cache.value.rules else Active(table)
    }

    constructor (table: seq<Rule>)
      ensures this.table == table && cache == None
    {
      this.table, cache := table, None;
    }

    method ResolveRule(q: Query, now: int) returns (rule: EffectiveRule)
      modifies this`cache
      ensures rule == Resolve(old(Rows(now)), q)
      ensures cache == if old(cache).Some? && old(cache).value.expiresAt > now then old(cache) else Some(Cache(Active(table), now + TTL))
    {
      var rules := ActiveRules(now);
      var best := MostSpecific(rules, q);
      rule := if best.Some? then rules[best.value].policy else DEFAULT_ALERT_RULE;
    }

    method ActiveRules(now: int) returns (rules: seq<Rule>)
      modifies this`cache
      ensures rules == old(Rows(now))
      ensures cache == if old(cache).Some? && old(cache).value.expiresAt > now then old(cache) else Some(Cache(rules, now + TTL))
    {
      if cache.Some? && cache.value.expiresAt > now {
        return cache.value.rules;
      }
      rules := Active(table);
      cache := Some(Cache(rules, now + TTL));
    }

    method InvalidateCache()
      modifies this`cache
      ensures cache == None
    {
      cache := None;
    }

    /** The row with what the database stamps on it, its id and creation time. Other code can run before the invalidation. */
    method Create(rule: Rule)
      modifies this
      ensures table == old(table) + [rule] && cache == None
      ensures forall q, now :: Resolve(Rows(now), q) == Resolve(Active(table), q)
    {
      CommitCreate(rule);
      InvalidateCache();
    }

    /** The transaction of a `create`, which is awaited before the cache is dropped. */
    method CommitCreate(rule: Rule)
      modifies this`table
      ensures table == old(table) + [rule]
    {
      table := table + [rule];
    }

    /** `after` is the stored row with the change applied. Answers false, and changes nothing, when there is no such row. */
    method Update(id: string, after: Rule -> Rule) returns (found: bool)
      modifies this
      ensures found <==> exists i :: 0 <= i < |old(table)| && old(table)[i].id == id
      ensures !found ==> table == old(table) && cache == old(cache)
      ensures found ==> |table| == |old(table)| && cache == None
      ensures found ==> exists i :: 0 <= i < |old(table)| && old(table)[i].id == id && table == old(table)[i := after(old(table)[i])]
      ensures found ==> forall q, now :: Resolve(Rows(now), q) == Resolve(Active(table), q)
    {
      found := CommitUpdate(id, after);
      if found {
        InvalidateCache();
      }
    }

    /** The transaction of an `update`, which is awaited before the cache is dropped. */
    method CommitUpdate(id: string, after: Rule -> Rule) returns (found: bool)
      modifies this`table
      ensures found <==> exists i :: 0 <= i < |old(table)| && old(table)[i].id == id
      ensures !found ==> table == old(table)
      ensures found ==> exists i :: 0 <= i < |old(table)| && old(table)[i].id == id && table == old(table)[i := after(old(table)[i])]
    {
      for i := 0 to |table|
        invariant table == old(table)
        invariant forall j :: 0 <= j < i ==> table[j].id != id
      {
        if table[i].id == id {
          table := table[i := after(table[i])];
          return true;
        }
      }
      return false;
    }
  }
}
