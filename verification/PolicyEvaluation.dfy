/** Policy evaluation with a decision cache (control_plane/policy/engine.py). */
module PolicyEvaluation {
  import opened Wrappers
  import opened PolicyTargets
  import opened PolicyCache

  datatype Effect = ALLOW | DENY | REQUIRE_APPROVAL

  function ParseEffect(text: string): Option<Effect> {
    if text == "ALLOW" then Some(ALLOW)
    else if text == "DENY" then Some(DENY)
    else if text == "REQUIRE_APPROVAL" then Some(REQUIRE_APPROVAL)
    else None
  }

  datatype Status = ACTIVE | INACTIVE | DEPRECATED

  datatype PolicyRule = PolicyRule(
    policyId: string, name: string, target: string, effect: Effect,
    priority: int, status: Status, requiredCapabilities: seq<string>)

  datatype Decision = Decision(decision: Effect, matchedRule: Option<string>, reason: string)

  /* ----- Evaluation without a cache ----- */

  predicate Applies(r: PolicyRule, resource: string) {
    r.status == ACTIVE && TargetMatches(r.target, resource)
  }

  // The rule is active and its target matches.
  ghost predicate InForce(rules: seq<PolicyRule>, resource: string, i: int) {
    0 <= i < |rules| && rules[i].status == ACTIVE && TargetMatches(rules[i].target, resource)
  }

  // The earliest of the rules in force with the lowest priority number.
  ghost predicate IsBest(rules: seq<PolicyRule>, resource: string, i: int) {
    && InForce(rules, resource, i)
    && (forall j | InForce(rules, resource, j) :: rules[i].priority <= rules[j].priority)
    && (forall j | InForce(rules, resource, j) && j < i :: rules[i].priority < rules[j].priority)
  }

  function Best(rules: seq<PolicyRule>, resource: string): (best: Option<nat>)
    ensures best.Some? ==> best.value < |rules|
  {
    if rules == [] then None
    else
      var n := |rules| - 1;
      var earlier := Best(rules[..n], resource);
      if !Applies(rules[n], resource) then earlier
      else if earlier.None? || rules[n].priority < rules[earlier.value].priority then Some(n)
      else earlier
  }

  lemma {:induction false} BestIsBest(rules: seq<PolicyRule>, resource: string)
    ensures var best := Best(rules, resource);
            if best.Some? then IsBest(rules, resource, best.value)
            else forall j :: !InForce(rules, resource, j)
  {
    if rules != [] {
      var n := |rules| - 1;
      BestIsBest(rules[..n], resource);
      forall j ensures InForce(rules, resource, j) <==>
                         InForce(rules[..n], resource, j) || (j == n && Applies(rules[n], resource)) {
        if 0 <= j < n { assert rules[..n][j] == rules[j]; }
      }
      assert forall j | 0 <= j < n :: rules[..n][j] == rules[j];
    }
  }

  function Decide(rules: seq<PolicyRule>, resource: string): Decision {
    var best := Best(rules, resource);
    if best.None? then Decision(ALLOW, None, "No matching policy rule found")
    else
      var r := rules[best.value];
      Decision(r.effect, Some(r.policyId), "Matched rule: " + r.name)
  }

  // A decision as promised: that of the best rule in force, its effect and its id;
  // to allow when there is none.
  ghost predicate IsDecision(rules: seq<PolicyRule>, resource: string, d: Decision) {
    if forall j :: !InForce(rules, resource, j) then
      d.decision == ALLOW && d.matchedRule == None && d.reason == "No matching policy rule found"
    else
      exists i :: IsBest(rules, resource, i) && d.decision == rules[i].effect
        && d.matchedRule == Some(rules[i].policyId) && d.reason == "Matched rule: " + rules[i].name
  }

  /** Evaluation answers with the effect and the id of the best rule in force. */
  lemma DecideIsDecision(rules: seq<PolicyRule>, resource: string)
    ensures IsDecision(rules, resource, Decide(rules, resource))
  {
    BestIsBest(rules, resource);
  }

  /** The three effects are named by their own texts, and no other text is one. */
  lemma EffectTexts(text: string)
    ensures ParseEffect(text) == Some(ALLOW) <==> text == "ALLOW"
    ensures ParseEffect(text) == Some(DENY) <==> text == "DENY"
    ensures ParseEffect(text) == Some(REQUIRE_APPROVAL) <==> text == "REQUIRE_APPROVAL"
    ensures ParseEffect(text) == None <==> text !in {"ALLOW", "DENY", "REQUIRE_APPROVAL"}
  {
  }

  // The first applicable rule that asks for a capability nobody registered.
  function Blocked(rules: seq<PolicyRule>, resource: string, registry: Option<set<string>>): Option<Decision> {
    if rules == [] then None
    else
      var r := rules[0];
      if Applies(r, resource) && r.requiredCapabilities != [] && registry.None? then
        Some(Decision(DENY, None, "Capability registry not available for capability validation"))
      else if Applies(r, resource) && FirstMissing(r.requiredCapabilities, registry).Some? then
        Some(NotRegistered(FirstMissing(r.requiredCapabilities, registry).value))
      else Blocked(rules[1..], resource, registry)
  }

  function FirstMissing(caps: seq<string>, registry: Option<set<string>>): Option<string> {
    if caps == [] || registry.None? then None
    else if caps[0] !in registry.value then Some(caps[0])
    else FirstMissing(caps[1..], registry)
  }

  function NotRegistered(cap: string): Decision {
    Decision(DENY, None, "Capability not registered: " + cap)
  }

  // A rule in force whose capabilities are not all registered.
  ghost predicate Unmet(rules: seq<PolicyRule>, resource: string, registry: Option<set<string>>, i: int) {
    && InForce(rules, resource, i) && rules[i].requiredCapabilities != []
    && (registry.None? || exists cap :: cap in rules[i].requiredCapabilities && cap !in registry.value)
  }

  lemma {:induction false} FirstMissingIs(caps: seq<string>, registry: Option<set<string>>)
    requires registry.Some?
    ensures FirstMissing(caps, registry).None? <==> forall cap | cap in caps :: cap in registry.value
    ensures FirstMissing(caps, registry).Some? ==>
              FirstMissing(caps, registry).value in caps && FirstMissing(caps, registry).value !in registry.value
  {
    if caps != [] {
      FirstMissingIs(caps[1..], registry);
      assert caps == [caps[0]] + caps[1..];
    }
  }

  /** The rules block a question exactly when some rule in force asks for a
      capability that is not registered, and blocking is to deny under no rule. */
  lemma {:induction false} BlockedIffUnmet(rules: seq<PolicyRule>, resource: string, registry: Option<set<string>>)
    ensures Blocked(rules, resource, registry).Some? <==> exists i :: Unmet(rules, resource, registry, i)
    ensures var b := Blocked(rules, resource, registry);
            b.Some? ==> b.value.decision == DENY && b.value.matchedRule == None
  {
    if rules != [] {
      var rest := rules[1..];
      BlockedIffUnmet(rest, resource, registry);
      if registry.Some? {
        FirstMissingIs(rules[0].requiredCapabilities, registry);
      }
      forall i | Unmet(rest, resource, registry, i) ensures Unmet(rules, resource, registry, i + 1) {
      }
      forall i | Unmet(rules, resource, registry, i) && i > 0 ensures Unmet(rest, resource, registry, i - 1) {
      }
      if Unmet(rules, resource, registry, 0) {
        assert Blocked(rules, resource, registry).Some?;
      }
    }
  }

  /* ----- Evaluation through the cache ----- */

  // A question; `registry` is what the capability registry holds at that moment
  // and `named` the missing capability that the set iteration meets first.
  datatype Question =
    | Evaluate(agent: string, action: string, resource: string)
    | EvaluateWithCapabilities(resource: string, caps: set<string>, registry: Option<set<string>>, named: string)
  {
    predicate Refused() {
      EvaluateWithCapabilities? && registry.Some? && !(caps <= registry.value)
    }

    predicate WellPosed() {
      Refused() ==> named in caps && named !in registry.value
    }

    // The questions that the cache key tells apart from each other.
    predicate Safe() {
      '|' !in resource || (EvaluateWithCapabilities? && caps != {})
    }

    // The questions that the cache key tells apart from every other.
    predicate Clean() {
      || (EvaluateWithCapabilities? && caps != {})
      || ('|' !in resource && (Evaluate? ==> '|' !in agent && '|' !in action))
    }
  }

  type Digest = set<string> -> string

  // Sixteen hexadecimal digits: never empty, never a separator.
  ghost predicate HexDigest(d: Digest) {
    forall caps: set<string> :: d(caps) != "" && '|' !in d(caps)
  }

  function MakeKey(d: Digest, agent: string, action: string, resource: string, caps: set<string>): string {
    agent + "|" + action + "|" + resource + "|" + (if caps == {} then "" else d(caps))
  }

  function Key(d: Digest, q: Question): string {
    match q
    case Evaluate(agent, action, resource) => MakeKey(d, agent, action, resource, {})
    case EvaluateWithCapabilities(resource, caps, _, _) => MakeKey(d, "", "", resource, caps)
  }

  datatype Engine = Engine(rules: seq<PolicyRule>, cache: Cache<Decision>)

  // The answer of the rules alone.
  function Plain(rules: seq<PolicyRule>, q: Question): Decision {
    if q.Refused() then NotRegistered(q.named)
    else if q.EvaluateWithCapabilities? && Blocked(rules, q.resource, q.registry).Some? then
      Blocked(rules, q.resource, q.registry).value
    else Decide(rules, q.resource)
  }

  function Ask(d: Digest, e: Engine, q: Question, now: real): Decision {
    if q.Refused() then NotRegistered(q.named)
    else
      var hit := Hit(e.cache, Key(d, q), now);
      if hit.Some? then hit.value else Plain(e.rules, q)
  }

  function AfterAsk(d: Digest, e: Engine, q: Question, now: real, victim: string): Engine {
    if q.Refused() then e
    else
      var looked := AfterGet(e.cache, Key(d, q), now);
      if Hit(e.cache, Key(d, q), now).Some? then e
      else if q.EvaluateWithCapabilities? && Blocked(e.rules, q.resource, q.registry).Some? then e.(cache := looked)
      else e.(cache := AfterSet(looked, Key(d, q), Decide(e.rules, q.resource), now, victim))
  }

  function NewRule(id: string, name: string, target: string, effect: Effect): PolicyRule {
    PolicyRule(id, name, target, effect, 100, ACTIVE, [])
  }

  // An unknown effect raises before anything changes; a new rule empties the cache.
  function AfterCreate(e: Engine, id: string, name: string, target: string, effect: string): Engine {
    var parsed := ParseEffect(effect);
    if parsed.None? then e else Engine(e.rules + [NewRule(id, name, target, parsed.value)], map[])
  }

  datatype Event =
    | Asked(question: Question, now: real, victim: string)
    | Created(id: string, name: string, target: string, effect: string)

  function Step(d: Digest, e: Engine, v: Event): Engine {
    match v
    case Asked(q, now, victim) => AfterAsk(d, e, q, now, victim)
    case Created(id, name, target, effect) => AfterCreate(e, id, name, target, effect)
  }

  function Run(d: Digest, e: Engine, events: seq<Event>): Engine {
    if events == [] then e else Step(d, Run(d, e, events[..|events| - 1]), events[|events| - 1])
  }

  ghost predicate OnlySafe(events: seq<Event>) {
    forall i | 0 <= i < |events| && events[i].Asked? :: events[i].question.Safe()
  }

  /* ----- The key determines the resource ----- */

  lemma LastField(a: string, x: string, b: string, y: string)
    requires a + "|" + x == b + "|" + y && '|' !in x && '|' !in y
    ensures a == b && x == y
  {
    var s, t := a + "|" + x, b + "|" + y;
    assert s[|a|] == '|' && s[|a| + 1..] == x && s[..|a|] == a;
    assert t[|b|] == '|' && t[|b| + 1..] == y && t[..|b|] == b;
    forall i | |a| < i < |s| ensures s[i] != '|' {
      assert s[i] == x[i - |a| - 1];
    }
    forall i | |b| < i < |t| ensures t[i] != '|' {
      assert t[i] == y[i - |b| - 1];
    }
  }

  /** Two safe questions with one key ask about the same resource, whatever the
      agent, the action and the capabilities contain. */
  lemma KeyDeterminesResource(d: Digest, p: Question, q: Question)
    requires HexDigest(d) && p.Safe() && q.Safe() && Key(d, p) == Key(d, q)
    ensures p.resource == q.resource
  {
    var (a, h) := Fields(d, p);
    var (b, k) := Fields(d, q);
    LastField(a + "|" + p.resource, h, b + "|" + q.resource, k);
    if h == "" {
      LastField(a, p.resource, b, q.resource);
    } else {
      assert (a + "|" + p.resource)[|a| + 1..] == p.resource;
      assert (b + "|" + q.resource)[|b| + 1..] == q.resource;
    }
  }

  // A key as `agent|action`, the resource and the digest field.
  ghost function Fields(d: Digest, q: Question): (f: (string, string))
    requires HexDigest(d)
    ensures Key(d, q) == f.0 + "|" + q.resource + "|" + f.1 && '|' !in f.1
    ensures f.1 != "" ==> q.EvaluateWithCapabilities? && f.0 == "|"
    ensures f.1 == "" ==> q.Safe() ==> '|' !in q.resource
  {
    match q
    case Evaluate(agent, action, _) => (agent + "|" + action, "")
    case EvaluateWithCapabilities(_, caps, _, _) => ("" + "|" + "", if caps == {} then "" else d(caps))
  }

  /* ----- Transparency ----- */

  ghost predicate NoneRequired(rules: seq<PolicyRule>) {
    forall i | 0 <= i < |rules| :: rules[i].requiredCapabilities == []
  }

  // Whatever is cached under the key of a safe question is the plain answer.
  ghost predicate Coherent(d: Digest, e: Engine) {
    && NoneRequired(e.rules)
    && forall q: Question | q.Safe() && Key(d, q) in e.cache ::
         e.cache[Key(d, q)].value == Decide(e.rules, q.resource)
  }

  lemma {:induction false} NothingBlocked(rules: seq<PolicyRule>, resource: string, registry: Option<set<string>>)
    requires NoneRequired(rules)
    ensures Blocked(rules, resource, registry) == None
  {
    if rules != [] {
      NothingBlocked(rules[1..], resource, registry);
    }
  }

  lemma AskKeeps(d: Digest, e: Engine, q: Question, now: real, victim: string)
    requires HexDigest(d) && Coherent(d, e) && q.Safe()
    ensures Ask(d, e, q, now) == Plain(e.rules, q)
    ensures Coherent(d, AfterAsk(d, e, q, now, victim))
  {
    if !q.Refused() {
      NothingBlocked(e.rules, q.resource, if q.Evaluate? then None else q.registry);
      var e' := AfterAsk(d, e, q, now, victim);
      forall p: Question | p.Safe() && Key(d, p) in e'.cache
        ensures e'.cache[Key(d, p)].value == Decide(e'.rules, p.resource)
      {
        if Key(d, p) == Key(d, q) {
          KeyDeterminesResource(d, p, q);
        }
      }
    }
  }

  lemma {:induction false} RunIsCoherent(d: Digest, e: Engine, events: seq<Event>)
    requires HexDigest(d) && Coherent(d, e) && OnlySafe(events)
    ensures Coherent(d, Run(d, e, events))
  {
    if events != [] {
      var n := |events| - 1;
      RunIsCoherent(d, e, events[..n]);
      if events[n].Asked? {
        AskKeeps(d, Run(d, e, events[..n]), events[n].question, events[n].now, events[n].victim);
      }
    }
  }

  // An engine as constructed: any rules without required capabilities, nothing cached.
  ghost predicate Initial(e: Engine) {
    NoneRequired(e.rules) && e.cache == map[]
  }

  /** Transparency among safe questions: after any mix of them, new rules, clock
      readings, expiries and evictions, a safe question gets the answer of the
      current rules. */
  lemma SafeIsTransparent(d: Digest, e: Engine, events: seq<Event>, q: Question, now: real)
    requires HexDigest(d) && Initial(e) && OnlySafe(events) && q.Safe()
    ensures Ask(d, Run(d, e, events), q, now) == Plain(Run(d, e, events).rules, q)
  {
    RunIsCoherent(d, e, events);
    AskKeeps(d, Run(d, e, events), q, now, "");
  }

  // A question that every history of safe questions leaves rightly answered.
  ghost predicate RightAmongSafe(d: Digest, q: Question) {
    forall e, events, now ::
      Initial(e) && OnlySafe(events) ==> Ask(d, Run(d, e, events), q, now) == Plain(Run(d, e, events).rules, q)
  }

  /** A question is answered rightly after every history of safe questions if and
      only if it is safe, or refused before the cache is reached. */
  lemma TransparentIffSafe(d: Digest, q: Question)
    requires HexDigest(d)
    ensures RightAmongSafe(d, q) <==> (q.Safe() || q.Refused())
  {
    if q.Safe() {
      forall e, events, now | Initial(e) && OnlySafe(events)
        ensures Ask(d, Run(d, e, events), q, now) == Plain(Run(d, e, events).rules, q)
      {
        SafeIsTransparent(d, e, events, q, now);
      }
    } else if !q.Refused() {
      UnsafeIsMisled(d, q);
    }
  }

  // Cutting a text at its last separator.
  lemma {:induction false} LastCut(s: string) returns (head: string, tail: string)
    requires '|' in s
    ensures s == head + "|" + tail && '|' !in tail
  {
    var n := |s| - 1;
    if s[n] == '|' {
      head, tail := s[..n], "";
    } else {
      var i :| 0 <= i < |s| && s[i] == '|';
      assert s[..n][i] == '|';
      var h, t := LastCut(s[..n]);
      head, tail := h, t + [s[n]];
      assert s == s[..n] + [s[n]];
    }
  }

  // A rule that denies a resource with a separator leaves its last field alone.
  lemma DenyOnlyThat(head: string, tail: string)
    requires '|' !in tail
    ensures TargetMatches(head + "|" + tail, head + "|" + tail)
    ensures !TargetMatches(head + "|" + tail, tail)
  {
    var r := head + "|" + tail;
    assert r[|head|] == '|';
    assert r != "*";
    if EndsWith(r, WILDCARD) {
      var prefix := r[..|r| - 2];
      assert r == prefix + WILDCARD && prefix + "." <= r;
      assert r[|r| - 2] == '.' && r[|r| - 1] == '*';
      assert prefix[|head|] == '|' && (prefix + ".")[|head|] == '|';
      assert forall longer: string | prefix + "." <= longer :: longer[|head|] in longer;
    }
  }

  // One safe question leaves its answer under the key of another.
  lemma Poisoned(d: Digest, e: Engine, poison: Question, q: Question)
    requires Initial(e) && poison.Evaluate? && !q.Refused() && Key(d, poison) == Key(d, q)
    ensures Ask(d, Run(d, e, [Asked(poison, 0.0, "")]), q, 0.0) == Decide(e.rules, poison.resource)
    ensures Run(d, e, [Asked(poison, 0.0, "")]).rules == e.rules
  {
    var asked := [Asked(poison, 0.0, "")];
    assert asked[..0] == [];
    assert Run(d, e, asked[..0]) == e;
    assert Run(d, e, asked) == AfterAsk(d, e, poison, 0.0, "");
  }

  lemma UnsafeIsMisled(d: Digest, q: Question)
    requires HexDigest(d) && !q.Safe() && !q.Refused()
    ensures !RightAmongSafe(d, q)
  {
    var head, tail := LastCut(q.resource);
    var agent, action := if q.Evaluate? then q.agent else "", if q.Evaluate? then q.action else "";
    var poison := Evaluate(agent, action + "|" + head, tail);
    SameKey(d, q, head, tail);
    var e := Engine([NewRule("p", "deny", q.resource, DENY)], map[]);
    DenyOnlyThat(head, tail);
    OneDeny(q.resource, tail);
    Poisoned(d, e, poison, q);
    NothingBlocked(e.rules, q.resource, if q.Evaluate? then None else q.registry);
    assert Plain(e.rules, q) == Decide(e.rules, q.resource);
    assert OnlySafe([Asked(poison, 0.0, "")]);
  }

  lemma SameKey(d: Digest, q: Question, head: string, tail: string)
    requires !q.Safe() && q.resource == head + "|" + tail
    ensures var agent, action := if q.Evaluate? then q.agent else "", if q.Evaluate? then q.action else "";
            Key(d, Evaluate(agent, action + "|" + head, tail)) == Key(d, q)
  {
    KeyShifts(if q.Evaluate? then q.agent else "", if q.Evaluate? then q.action else "", head, tail);
  }

  lemma KeyShifts(agent: string, action: string, head: string, tail: string)
    ensures agent + "|" + (action + "|" + head) + "|" + tail == agent + "|" + action + "|" + (head + "|" + tail)
  {
    Regroup(agent + "|", action + "|", head);
    Regroup(agent + "|", action, "|");
    Regroup(agent + "|" + action + "|", head + "|", tail);
    Regroup(agent + "|" + action + "|", head, "|");
  }

  lemma Regroup(x: string, y: string, z: string)
    ensures x + (y + z) == x + y + z
  {
  }

  lemma OneDeny(target: string, other: string)
    requires TargetMatches(target, target) && !TargetMatches(target, other)
    ensures var rules := [NewRule("p", "deny", target, DENY)];
            Decide(rules, target).decision == DENY && Decide(rules, other).decision == ALLOW
  {
    var rules := [NewRule("p", "deny", target, DENY)];
    assert rules[..0] == [];
  }

  /* ----- Transparency over all histories ----- */

  function Bars(s: string): nat {
    if s == "" then 0 else Bars(s[..|s| - 1]) + (if s[|s| - 1] == '|' then 1 else 0)
  }

  lemma {:induction false} BarsAdd(a: string, b: string)
    ensures Bars(a + b) == Bars(a) + Bars(b)
  {
    if b == "" {
      assert a + b == a;
    } else {
      var n := |b| - 1;
      assert (a + b)[..|a + b| - 1] == a + b[..n];
      BarsAdd(a, b[..n]);
    }
  }

  lemma {:induction false} NoBars(s: string)
    ensures Bars(s) == 0 <==> '|' !in s
  {
    if s != "" {
      var n := |s| - 1;
      NoBars(s[..n]);
      assert s == s[..n] + [s[n]];
    }
  }

  lemma BarsOfFields(a: string, b: string)
    ensures Bars(a + "|" + b) == Bars(a) + 1 + Bars(b)
  {
    BarsAdd(a + "|", b);
    BarsAdd(a, "|");
    assert "|"[..0] == "";
  }

  // Every key without a digest has two separators before its resource, and no
  // more when the question is clean.
  lemma FieldBars(d: Digest, q: Question)
    requires HexDigest(d)
    ensures Bars(Fields(d, q).0) >= 1
    ensures q.Clean() && Fields(d, q).1 == "" ==> Bars(Fields(d, q).0) == 1 && '|' !in q.resource
  {
    var agent, action := if q.Evaluate? then q.agent else "", if q.Evaluate? then q.action else "";
    assert Fields(d, q).0 == agent + "|" + action;
    BarsOfFields(agent, action);
    NoBars(agent);
    NoBars(action);
  }

  /** A question with the key of a clean one asks about the same resource,
      whatever its own fields contain. */
  lemma CleanKeyDeterminesResource(d: Digest, p: Question, q: Question)
    requires HexDigest(d) && q.Clean() && Key(d, p) == Key(d, q)
    ensures p.resource == q.resource
  {
    var (a, h) := Fields(d, p);
    var (b, k) := Fields(d, q);
    LastField(a + "|" + p.resource, h, b + "|" + q.resource, k);
    if h == "" {
      FieldBars(d, p);
      FieldBars(d, q);
      BarsOfFields(a, p.resource);
      BarsOfFields(b, q.resource);
      NoBars(p.resource);
      NoBars(q.resource);
      LastField(a, p.resource, b, q.resource);
    } else {
      assert (a + "|" + p.resource)[|a| + 1..] == p.resource;
      assert (b + "|" + q.resource)[|b| + 1..] == q.resource;
    }
  }

  // Whatever is cached under the key of a clean question is the plain answer.
  ghost predicate CleanCoherent(d: Digest, e: Engine) {
    && NoneRequired(e.rules)
    && forall q: Question | q.Clean() && Key(d, q) in e.cache ::
         e.cache[Key(d, q)].value == Decide(e.rules, q.resource)
  }

  // Any question at all keeps that, and a clean one is answered rightly.
  lemma AnyAskKeeps(d: Digest, e: Engine, p: Question, now: real, victim: string)
    requires HexDigest(d) && CleanCoherent(d, e)
    ensures p.Clean() ==> Ask(d, e, p, now) == Plain(e.rules, p)
    ensures CleanCoherent(d, AfterAsk(d, e, p, now, victim))
  {
    if !p.Refused() {
      NothingBlocked(e.rules, p.resource, if p.Evaluate? then None else p.registry);
      var e' := AfterAsk(d, e, p, now, victim);
      forall q: Question | q.Clean() && Key(d, q) in e'.cache
        ensures e'.cache[Key(d, q)].value == Decide(e'.rules, q.resource)
      {
        if Key(d, p) == Key(d, q) {
          CleanKeyDeterminesResource(d, p, q);
        }
      }
    }
  }

  lemma {:induction false} AnyRunIsCoherent(d: Digest, e: Engine, events: seq<Event>)
    requires HexDigest(d) && CleanCoherent(d, e)
    ensures CleanCoherent(d, Run(d, e, events))
  {
    if events != [] {
      var n := |events| - 1;
      AnyRunIsCoherent(d, e, events[..n]);
      if events[n].Asked? {
        AnyAskKeeps(d, Run(d, e, events[..n]), events[n].question, events[n].now, events[n].victim);
      }
    }
  }

  /** Cache transparency: after any history at all, whatever was asked in it, a
      clean question gets the answer of the current rules. */
  lemma CacheIsTransparent(d: Digest, e: Engine, events: seq<Event>, q: Question, now: real)
    requires HexDigest(d) && Initial(e) && q.Clean()
    ensures Ask(d, Run(d, e, events), q, now) == Plain(Run(d, e, events).rules, q)
  {
    AnyRunIsCoherent(d, e, events);
    AnyAskKeeps(d, Run(d, e, events), q, now, "");
  }

  /** What the answers are: after any history a clean question gets the decision of
      the best rule in force, or, if it names a capability that is not registered,
      a denial that says which. */
  lemma CleanAnswers(d: Digest, e: Engine, events: seq<Event>, q: Question, now: real)
    requires HexDigest(d) && Initial(e) && q.Clean()
    ensures var r, rules := Ask(d, Run(d, e, events), q, now), Run(d, e, events).rules;
            if q.EvaluateWithCapabilities? && q.registry.Some? && !(q.caps <= q.registry.value) then
              r == Decision(DENY, None, "Capability not registered: " + q.named)
            else IsDecision(rules, q.resource, r)
  {
    AnyRunIsCoherent(d, e, events);
    CacheIsTransparent(d, e, events, q, now);
    var rules := Run(d, e, events).rules;
    NothingBlocked(rules, q.resource, if q.Evaluate? then None else q.registry);
    DecideIsDecision(rules, q.resource);
  }

  // A question that every history leaves rightly answered.
  ghost predicate AlwaysRight(d: Digest, q: Question) {
    forall e, events, now ::
      Initial(e) ==> Ask(d, Run(d, e, events), q, now) == Plain(Run(d, e, events).rules, q)
  }

  /** And the condition is exact: a question is answered rightly after every
      history if and only if it names capabilities, or none of its agent, action
      and resource contains a separator, or it is refused before the cache. */
  lemma TransparentIffClean(d: Digest, q: Question)
    requires HexDigest(d)
    ensures AlwaysRight(d, q) <==> (q.Clean() || q.Refused())
  {
    if q.Clean() {
      forall e, events, now | Initial(e)
        ensures Ask(d, Run(d, e, events), q, now) == Plain(Run(d, e, events).rules, q)
      {
        CacheIsTransparent(d, e, events, q, now);
      }
    } else if !q.Refused() {
      if q.Safe() {
        SeparatorInAgentOrAction(d, q);
      } else {
        UnsafeIsMisled(d, q);
        assert AlwaysRight(d, q) ==> RightAmongSafe(d, q);
      }
    }
  }

  // A separator in the agent or the action lets an earlier question reach into
  // the resource: the one whose resource starts with the last part of them.
  lemma SeparatorInAgentOrAction(d: Digest, q: Question)
    requires HexDigest(d) && q.Safe() && !q.Clean()
    ensures !AlwaysRight(d, q)
  {
    var agent, action, tail := Recut(q.agent, q.action);
    var poison := Evaluate(agent, action, tail + "|" + q.resource);
    KeyRegroups(agent, action, tail, q);
    var e := Engine([NewRule("p", "deny", poison.resource, DENY)], map[]);
    DenyOnlyThat(tail, q.resource);
    OneDeny(poison.resource, q.resource);
    Poisoned(d, e, poison, q);
    assert Plain(e.rules, q) == Decide(e.rules, q.resource);
  }

  // Two fields with a separator in one of them, cut into three.
  lemma Recut(agent: string, action: string) returns (x: string, y: string, z: string)
    requires '|' in agent || '|' in action
    ensures agent + "|" + action == x + "|" + y + "|" + z
  {
    if '|' in action {
      y, z := LastCut(action);
      x := agent;
      Regroup(x + "|", y + "|", z);
      Regroup(x + "|", y, "|");
    } else {
      x, y := LastCut(agent);
      z := action;
    }
  }

  lemma KeyRegroups(agent: string, action: string, tail: string, q: Question)
    requires q.Evaluate? && q.agent + "|" + q.action == agent + "|" + action + "|" + tail
    ensures agent + "|" + action + "|" + (tail + "|" + q.resource) == q.agent + "|" + q.action + "|" + q.resource
  {
    var head := agent + "|" + action + "|";
    Regroup(head, tail + "|", q.resource);
    Regroup(head, tail, "|");
  }
}
