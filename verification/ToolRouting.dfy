/** The tool registry (kernel/resources/tool_registry.py) and the router that
    picks one tool for an action (control_plane/adapters/to_kernel/router.py). */
module ToolRouting {
  import opened Wrappers
  import opened PolicyTargets

  datatype Tool = Tool(toolId: string, mcpServer: string)
  {
    predicate IsValid() { toolId != "" && mcpServer != "" }
  }

  datatype RegistryError = InvalidTool | AlreadyRegistered(id: string) | NotFound(id: string)

  predicate Distinct(tools: seq<Tool>) {
    forall i, j | 0 <= i < j < |tools| :: tools[i].toolId != tools[j].toolId
  }

  ghost predicate Registered(tools: seq<Tool>, id: string) {
    exists i :: 0 <= i < |tools| && tools[i].toolId == id
  }

  // The registered tools a pattern selects, in registration order.
  function Selection(tools: seq<Tool>, pattern: string): seq<Tool> {
    if tools == [] then []
    else
      Selection(tools[..|tools| - 1], pattern)
      + (if Selects(pattern, tools[|tools| - 1].toolId) then [tools[|tools| - 1]] else [])
  }

  lemma {:induction false} SelectionMembers(tools: seq<Tool>, pattern: string)
    ensures forall t :: t in Selection(tools, pattern) <==> t in tools && Selects(pattern, t.toolId)
  {
    if tools != [] {
      var n := |tools| - 1;
      SelectionMembers(tools[..n], pattern);
      assert tools == tools[..n] + [tools[n]];
    }
  }

  // The registry is a dictionary: distinct ids, kept in insertion order.
  class ToolRegistry {
    var tools: seq<Tool>

    ghost predicate Valid()
      reads this
    {
      Distinct(tools) && forall t | t in tools :: t.IsValid()
    }

    constructor ()
      ensures Valid() && tools == []
    {
      tools := [];
    }

    method Get(id: string) returns (found: Option<Tool>)
      requires Valid()
      ensures found.Some? ==> found.value in tools && found.value.toolId == id
      ensures found.None? <==> !Registered(tools, id)
    {
      for i := 0 to |tools|
        invariant forall k | 0 <= k < i :: tools[k].toolId != id
      {
        if tools[i].toolId == id {
          return Some(tools[i]);
        }
      }
      return None;
    }

    method Register(t: Tool) returns (e: Option<RegistryError>)
      requires Valid()
      modifies this
      ensures Valid()
      ensures e.None? <==> t.toolId != "" && t.mcpServer != "" && !Registered(old(tools), t.toolId)
      ensures e == Some(InvalidTool) <==> t.toolId == "" || t.mcpServer == ""
      ensures tools == if e.None? then old(tools) + [t] else old(tools)
    {
      if !t.IsValid() {
        return Some(InvalidTool);
      }
      var known := Get(t.toolId);
      if known.Some? {
        return Some(AlreadyRegistered(t.toolId));
      }
      tools := tools + [t];
      return None;
    }

    method Unregister(id: string) returns (e: Option<RegistryError>)
      requires Valid()
      modifies this
      ensures Valid() && !Registered(tools, id)
      ensures e.None? <==> Registered(old(tools), id)
      ensures forall t :: t in tools <==> t in old(tools) && t.toolId != id
    {
      ghost var before := tools;
      for i := 0 to |tools|
        invariant tools == before && Valid()
        invariant forall k | 0 <= k < i :: tools[k].toolId != id
      {
        if tools[i].toolId == id {
          assert before == before[..i] + [before[i]] + before[i + 1..];
          tools := tools[..i] + tools[i + 1..];
          forall k | 0 <= k < |tools| ensures tools[k].toolId != id {
            assert tools[k] == before[if k < i then k else k + 1];
          }
          return None;
        }
      }
      return Some(NotFound(id));
    }

    method MatchPattern(pattern: string) returns (matches: seq<Tool>)
      ensures matches == Selection(tools, pattern)
    {
      RegexMeansTokens(pattern);
      var regex := ParseRegex(ReplaceWildcards(Escape(pattern))).value;
      matches := [];
      for i := 0 to |tools|
        invariant matches == Selection(tools[..i], pattern)
      {
        assert tools[..i + 1][..i] == tools[..i];
        if Matches(regex, tools[i].toolId) {
          matches := matches + [tools[i]];
        }
      }
      assert tools[..|tools|] == tools;
    }
  }

  datatype RoutingError = NoTool | Ambiguous(count: nat)

  /** Routing is deterministic: the exact tool when there is one, else the single
      tool the action selects; no match and several matches are errors. */
  method RouteIntent(registry: ToolRegistry, action: string) returns (r: Result<Tool, RoutingError>)
    requires registry.Valid()
    ensures r.Ok? ==> r.value in registry.tools
    ensures Registered(registry.tools, action) ==> r.Ok? && r.value.toolId == action
    ensures r.Ok? && !Registered(registry.tools, action) ==>
              forall t | t in registry.tools :: Selects(action, t.toolId) <==> t == r.value
    ensures r == Err(NoTool) <==>
              !Registered(registry.tools, action) && forall t | t in registry.tools :: !Selects(action, t.toolId)
    ensures r.Err? && r.error.Ambiguous? ==>
              && r.error.count == |Selection(registry.tools, action)|
              && exists s, t :: s in registry.tools && t in registry.tools && s != t
                   && Selects(action, s.toolId) && Selects(action, t.toolId)
  {
    var exact := registry.Get(action);
    if exact.Some? {
      return Ok(exact.value);
    }
    var matches := registry.MatchPattern(action);
    SelectionMembers(registry.tools, action);
    if |matches| == 0 {
      assert forall t | t in registry.tools :: t !in matches;
      return Err(NoTool);
    }
    assert matches[0] in matches;
    if |matches| > 1 {
      SelectionDistinct(registry.tools, action);
      assert matches[1] in matches;
      return Err(Ambiguous(|matches|));
    }
    return Ok(matches[0]);
  }

  lemma {:induction false} SelectionDistinct(tools: seq<Tool>, pattern: string)
    requires Distinct(tools)
    ensures Distinct(Selection(tools, pattern))
  {
    if tools != [] {
      var n := |tools| - 1;
      SelectionDistinct(tools[..n], pattern);
      SelectionMembers(tools[..n], pattern);
      forall t | t in Selection(tools[..n], pattern) ensures t.toolId != tools[n].toolId {
        var i :| 0 <= i < n && tools[..n][i] == t;
      }
    }
  }

  /** A tool that a wildcard action reaches is under the policy target of the
      same text, when the prefix holds no wildcard of its own. */
  lemma RoutedToolIsCovered(tools: seq<Tool>, p: string, t: Tool)
    requires Wilds(p) == 0
    requires t.toolId == p + WILDCARD || t in Selection(tools, p + WILDCARD)
    ensures TargetMatches(p + WILDCARD, t.toolId)
    ensures Split(p, '.') <= Split(t.toolId, '.')
  {
    SelectionMembers(tools, p + WILDCARD);
    WildcardsAgreeIff(p);
    var target := p + WILDCARD;
    assert target[..|target| - 2] == p && target[|target| - 2..] == WILDCARD;
    assert t.toolId == target ==> p + "." <= t.toolId;
    TargetMatchingIsSegmentMatching(p, t.toolId);
  }
}
