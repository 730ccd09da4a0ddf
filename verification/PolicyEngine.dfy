/** The policy engine object (control_plane/policy/engine.py). */
module PolicyEngine {
  import opened Wrappers
  import opened PolicyTargets
  import opened PolicyCache
  import opened PolicyEvaluation

  // The applicable rules, in the order they were created.
  function Applicable(rules: seq<PolicyRule>, resource: string): seq<PolicyRule> {
    if rules == [] then []
    else
      Applicable(rules[..|rules| - 1], resource)
      + (if Applies(rules[|rules| - 1], resource) then [rules[|rules| - 1]] else [])
  }

  // list.sort by priority: stable.
  function InsertByPriority(sorted: seq<PolicyRule>, r: PolicyRule): (out: seq<PolicyRule>)
    ensures |out| == |sorted| + 1
  {
    if sorted == [] || sorted[|sorted| - 1].priority <= r.priority then sorted + [r]
    else InsertByPriority(sorted[..|sorted| - 1], r) + [sorted[|sorted| - 1]]
  }

  function StableSort(rules: seq<PolicyRule>): (out: seq<PolicyRule>)
    ensures |out| == |rules|
  {
    if rules == [] then []
    else InsertByPriority(StableSort(rules[..|rules| - 1]), rules[|rules| - 1])
  }

  lemma {:induction false} InsertPermutes(sorted: seq<PolicyRule>, r: PolicyRule)
    ensures multiset(InsertByPriority(sorted, r)) == multiset(sorted) + multiset{r}
  {
    if sorted != [] && sorted[|sorted| - 1].priority > r.priority {
      var n := |sorted| - 1;
      InsertPermutes(sorted[..n], r);
      assert sorted == sorted[..n] + [sorted[n]];
    }
  }

  ghost predicate SortedByPriority(rules: seq<PolicyRule>) {
    forall i, j | 0 <= i < j < |rules| :: rules[i].priority <= rules[j].priority
  }

  // Inserting keeps the order, and the head unless the new rule beats it.
  lemma {:induction false} InsertHead(sorted: seq<PolicyRule>, r: PolicyRule)
    requires SortedByPriority(sorted)
    ensures var out := InsertByPriority(sorted, r);
            && SortedByPriority(out) && out != []
            && (forall x | x in out :: x in sorted || x == r)
            && out[0] == (if sorted == [] || r.priority < sorted[0].priority then r else sorted[0])
  {
    if sorted != [] && r.priority < sorted[|sorted| - 1].priority {
      var n := |sorted| - 1;
      InsertHead(sorted[..n], r);
      forall x | x in InsertByPriority(sorted[..n], r) ensures x.priority <= sorted[n].priority {
        if x in sorted[..n] {
          var i :| 0 <= i < n && sorted[..n][i] == x;
        }
      }
    }
  }

  /** The sort is one: ordered by priority, and the same rules. */
  lemma {:induction false} SortIsSorted(rules: seq<PolicyRule>)
    ensures SortedByPriority(StableSort(rules))
    ensures multiset(StableSort(rules)) == multiset(rules)
  {
    if rules != [] {
      var n := |rules| - 1;
      SortIsSorted(rules[..n]);
      InsertHead(StableSort(rules[..n]), rules[n]);
      InsertPermutes(StableSort(rules[..n]), rules[n]);
      assert rules == rules[..n] + [rules[n]];
    }
  }

  lemma SortAppends(rules: seq<PolicyRule>, r: PolicyRule)
    ensures var head := StableSort(rules + [r])[0];
            head == (if rules == [] || r.priority < StableSort(rules)[0].priority then r else StableSort(rules)[0])
  {
    assert (rules + [r])[..|rules|] == rules;
    SortIsSorted(rules);
    InsertHead(StableSort(rules), r);
  }

  // Sorting the applicable rules puts the best one first.
  lemma {:induction false} HeadIsBest(rules: seq<PolicyRule>, resource: string)
    ensures Applicable(rules, resource) == [] <==> Best(rules, resource).None?
    ensures Best(rules, resource).Some? ==>
              StableSort(Applicable(rules, resource))[0] == rules[Best(rules, resource).value]
  {
    if rules != [] {
      var n := |rules| - 1;
      HeadIsBest(rules[..n], resource);
      var earlier, best := Applicable(rules[..n], resource), Best(rules[..n], resource);
      if Applies(rules[n], resource) {
        SortAppends(earlier, rules[n]);
        assert Applicable(rules, resource) == earlier + [rules[n]];
      } else {
        assert Applicable(rules, resource) == earlier && Best(rules, resource) == best;
      }
    }
  }

  class PolicyEngine {
    var policies: seq<PolicyRule>
    var registry: Option<set<string>>
    const cache: InMemoryPolicyCache<Decision>
    const digest: Digest

    ghost predicate Valid()
      reads this, cache
    {
      cache.Valid() && HexDigest(digest)
    }

    ghost function View(): Engine
      reads this, cache
    {
      Engine(policies, cache.entries)
    }

    constructor (registry: Option<set<string>>, digest: Digest)
      requires HexDigest(digest)
      ensures Valid() && fresh(cache) && View() == Engine([], map[])
      ensures Coherent(digest, View()) && CleanCoherent(digest, View())
      ensures this.registry == registry && this.digest == digest
    {
      this.policies := [];
      this.registry := registry;
      this.digest := digest;
      this.cache := new InMemoryPolicyCache<Decision>();
    }

    method DecideBySorting(resource: string) returns (r: Decision)
      ensures r == Decide(policies, resource) && IsDecision(policies, resource, r)
    {
      var matching := [];
      for i := 0 to |policies|
        invariant matching == Applicable(policies[..i], resource)
      {
        assert policies[..i + 1][..i] == policies[..i];
        if policies[i].status != ACTIVE {
          continue;
        }
        if TargetMatches(policies[i].target, resource) {
          matching := matching + [policies[i]];
        }
      }
      assert policies[..|policies|] == policies;
      HeadIsBest(policies, resource);
      DecideIsDecision(policies, resource);
      if matching == [] {
        return Decision(ALLOW, None, "No matching policy rule found");
      }
      var best := StableSort(matching)[0];
      return Decision(best.effect, Some(best.policyId), "Matched rule: " + best.name);
    }

    /** The answer and the new cache; a clean question gets the answer of the
        rules whatever was asked before, a safe one if only safe ones were. */
    method Evaluate(agent: string, action: string, resource: string, now: real)
      returns (r: Decision, ghost victim: string)
      requires Valid()
      modifies cache
      ensures Valid()
      ensures var q := Question.Evaluate(agent, action, resource);
              && r == Ask(digest, old(View()), q, now)
              && View() == AfterAsk(digest, old(View()), q, now, victim)
              && (old(Coherent(digest, View())) && q.Safe() ==>
                    r == Decide(policies, resource) && Coherent(digest, View()))
              && (old(CleanCoherent(digest, View())) ==>
                    CleanCoherent(digest, View()) && (q.Clean() ==> IsDecision(policies, resource, r)))
    {
      DecideIsDecision(policies, resource);
      ghost var q := Question.Evaluate(agent, action, resource);
      ghost var before := View();
      victim := "";
      var key := MakeKey(digest, agent, action, resource, {});
      var cached := cache.Get(key, now);
      if cached.Some? {
        r := cached.value;
      } else {
        r := DecideBySorting(resource);
        victim := cache.Set(key, r, now);
      }
      if Coherent(digest, before) && q.Safe() {
        AskKeeps(digest, before, q, now, victim);
      }
      if CleanCoherent(digest, before) {
        AnyAskKeeps(digest, before, q, now, victim);
      }
    }

    // The first capability, in the set's own order, that is not registered.
    method FindMissing(caps: set<string>) returns (missing: Option<string>)
      requires registry.Some?
      ensures missing.None? <==> caps <= registry.value
      ensures missing.Some? ==> missing.value in caps && missing.value !in registry.value
    {
      var rest := caps;
      while rest != {}
        invariant rest <= caps && caps - rest <= registry.value
        decreases rest
      {
        var cap :| cap in rest;
        if cap !in registry.value {
          return Some(cap);
        }
        rest := rest - {cap};
      }
      return None;
    }

    // The rule loop's early returns.
    method FindBlocked(resource: string) returns (b: Option<Decision>)
      ensures b == Blocked(policies, resource, registry)
    {
      for i := 0 to |policies|
        invariant Blocked(policies, resource, registry) == Blocked(policies[i..], resource, registry)
      {
        var rule := policies[i];
        assert policies[i..][1..] == policies[i + 1..];
        if rule.status == ACTIVE && TargetMatches(rule.target, resource) && rule.requiredCapabilities != [] {
          if registry.None? {
            return Some(Decision(DENY, None, "Capability registry not available for capability validation"));
          }
          var caps := rule.requiredCapabilities;
          for j := 0 to |caps|
            invariant FirstMissing(caps, registry) == FirstMissing(caps[j..], registry)
          {
            assert caps[j..][1..] == caps[j + 1..];
            if caps[j] !in registry.value {
              return Some(NotRegistered(caps[j]));
            }
          }
        }
      }
      return None;
    }

    // What follows a miss: a denial is not cached, a decision is.
    method DecideAnew(key: string, resource: string, now: real) returns (r: Decision, ghost victim: string)
      requires Valid()
      modifies cache
      ensures Valid()
      ensures var blocked := Blocked(policies, resource, registry);
              if blocked.Some? then r == blocked.value && cache.entries == old(cache.entries)
              else
                && r == Decide(policies, resource) && MayEvict(old(cache.entries), victim)
                && cache.entries == AfterSet(old(cache.entries), key, r, now, victim)
    {
      victim := "";
      var blocked := FindBlocked(resource);
      if blocked.Some? {
        return blocked.value, victim;
      }
      r := DecideBySorting(resource);
      victim := cache.Set(key, r, now);
    }

    method EvaluateWithCapabilities(resource: string, caps: set<string>, now: real)
      returns (r: Decision, ghost victim: string, ghost named: string)
      requires Valid()
      modifies cache
      ensures Valid()
      ensures var q := Question.EvaluateWithCapabilities(resource, caps, registry, named);
              && q.WellPosed()
              && r == Ask(digest, old(View()), q, now)
              && View() == AfterAsk(digest, old(View()), q, now, victim)
              && (old(Coherent(digest, View())) && q.Safe() ==> r == Plain(policies, q) && Coherent(digest, View()))
              && (old(CleanCoherent(digest, View())) ==>
                    CleanCoherent(digest, View()) && (q.Clean() ==> r == Plain(policies, q)))
      ensures registry.Some? && !(caps <= registry.value) ==>
                && r.decision == DENY && r.matchedRule == None && View() == old(View())
                && named in caps && named !in registry.value && r.reason == "Capability not registered: " + named
    {
      ghost var before := View();
      victim, named := "", "";
      if registry.Some? {
        var missing := FindMissing(caps);
        if missing.Some? {
          named := missing.value;
          r := NotRegistered(missing.value);
          return;
        }
      }
      ghost var q := Question.EvaluateWithCapabilities(resource, caps, registry, named);
      var key := MakeKey(digest, "", "", resource, caps);
      var cached := cache.Get(key, now);
      if cached.Some? {
        r := cached.value;
      } else {
        r, victim := DecideAnew(key, resource, now);
      }
      if Coherent(digest, before) && q.Safe() {
        AskKeeps(digest, before, q, now, victim);
      }
      if CleanCoherent(digest, before) {
        AnyAskKeeps(digest, before, q, now, victim);
      }
    }

    // A fresh policy id; false is the ValueError of an unknown effect.
    method CreatePolicy(id: string, name: string, target: string, effect: string) returns (ok: bool)
      requires Valid()
      modifies this, cache
      ensures Valid() && View() == AfterCreate(old(View()), id, name, target, effect)
      ensures ok <==> effect in {"ALLOW", "DENY", "REQUIRE_APPROVAL"}
      ensures !ok ==> policies == old(policies) && cache.entries == old(cache.entries)
      ensures ok ==>
                && cache.entries == map[]
                && |policies| == |old(policies)| + 1 && policies[..|old(policies)|] == old(policies)
                && var r := policies[|old(policies)|];
                   && r.policyId == id && r.name == name && r.target == target
                   && r.effect == (if effect == "ALLOW" then ALLOW else if effect == "DENY" then DENY
                                   else REQUIRE_APPROVAL)
                   && r.priority == 100 && r.status == ACTIVE && r.requiredCapabilities == []
      ensures registry == old(registry)
      ensures old(Coherent(digest, View())) ==> Coherent(digest, View())
      ensures old(CleanCoherent(digest, View())) ==> CleanCoherent(digest, View())
    {
      var parsed := ParseEffect(effect);
      if parsed.None? {
        return false;
      }
      policies := policies + [NewRule(id, name, target, parsed.value)];
      cache.Invalidate();
      return true;
    }
  }
}
