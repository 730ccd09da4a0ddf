/** Policy targets (control_plane/policy/engine.py) and tool patterns
    (kernel/resources/tool_registry.py): two matchers over dotted names. */
module PolicyTargets {
  import opened Wrappers

  const WILDCARD := ".*"

  predicate EndsWith(s: string, suffix: string) {
    |suffix| <= |s| && s[|s| - |suffix|..] == suffix
  }

  predicate TargetMatches(target: string, resource: string) {
    if target == "*" then true
    else if EndsWith(target, WILDCARD) then
      var prefix := target[..|target| - 2];
      resource == prefix || prefix + "." <= resource
    else target == resource
  }

  // Python's split on a one-character separator.
  function Split(s: string, sep: char): (parts: seq<string>)
    ensures |parts| >= 1
  {
    if s == "" then [""]
    else
      var rest := Split(s[1..], sep);
      if s[0] == sep then [""] + rest else [[s[0]] + rest[0]] + rest[1..]
  }

  lemma SplitStep(s: string, sep: char)
    requires s != ""
    ensures s[0] == sep ==> Split(s, sep)[0] == "" && Split(s, sep)[1..] == Split(s[1..], sep)
    ensures s[0] != sep ==>
              Split(s, sep)[0] == [s[0]] + Split(s[1..], sep)[0] && Split(s, sep)[1..] == Split(s[1..], sep)[1..]
  {
  }

  lemma PrefixByHead(a: seq<string>, b: seq<string>)
    requires a != [] && b != []
    ensures a <= b <==> a[0] == b[0] && a[1..] <= b[1..]
  {
    if a[0] == b[0] && a[1..] <= b[1..] {
      assert a == [a[0]] + a[1..] && b == [b[0]] + b[1..];
    }
    if a <= b {
      assert b[1..][..|a| - 1] == a[1..];
    }
  }

  lemma PrefixByFirst(p: string, r: string)
    requires p != "" && r != ""
    ensures (r == p || p + "." <= r) <==> p[0] == r[0] && (r[1..] == p[1..] || p[1..] + "." <= r[1..])
  {
    var q := p + ".";
    assert q[1..] == p[1..] + "." && q[0] == p[0];
    assert p == [p[0]] + p[1..] && r == [r[0]] + r[1..] && q == [q[0]] + q[1..];
    if q <= r {
      assert r[1..][..|p|] == q[1..];
    }
    if p[0] == r[0] && q[1..] <= r[1..] {
      assert r[..|q|] == q;
    }
  }

  lemma {:induction false} UnderPrefixIffSegments(p: string, r: string)
    ensures (r == p || p + "." <= r) <==> Split(p, '.') <= Split(r, '.')
  {
    PrefixByHead(Split(p, '.'), Split(r, '.'));
    if r != "" {
      SplitStep(r, '.');
    }
    if p != "" {
      SplitStep(p, '.');
      if r != "" {
        PrefixByFirst(p, r);
        UnderPrefixIffSegments(p[1..], r[1..]);
        PrefixByHead(Split(p[1..], '.'), Split(r[1..], '.'));
        if p[0] != '.' && r[0] != '.' {
          assert Split(p, '.')[0][0] == p[0] && Split(r, '.')[0][0] == r[0];
          assert Split(p, '.')[0][1..] == Split(p[1..], '.')[0] && Split(r, '.')[0][1..] == Split(r[1..], '.')[0];
        }
      }
    }
  }

  /** A wildcard target matches exactly the resources whose dotted segments begin
      with the segments before the wildcard; other targets match themselves, and
      the lone star matches everything. */
  lemma TargetMatchingIsSegmentMatching(p: string, resource: string)
    ensures TargetMatches(p + WILDCARD, resource) <==> Split(p, '.') <= Split(resource, '.')
    ensures TargetMatches("*", resource)
    ensures p != "*" && !EndsWith(p, WILDCARD) ==> (TargetMatches(p, resource) <==> p == resource)
  {
    var target := p + WILDCARD;
    assert |target| >= 2 && target != "*";
    assert target[..|target| - 2] == p && target[|target| - 2..] == WILDCARD;
    UnderPrefixIffSegments(p, resource);
  }

  /* ----- Tool patterns: a regular expression built from text ----- */

  const SPECIAL: set<char> :=
    {'(', ')', '[', ']', '{', '}', '?', '*', '+', '-', '|', '^', '$', '\\', '.', '&', '~', '#',
     ' ', '\t', '\n', '\r', '\U{000b}', '\U{000c}'}

  // re.escape
  function Escape(s: string): string {
    if s == "" then ""
    else (if s[0] in SPECIAL then ['\\', s[0]] else [s[0]]) + Escape(s[1..])
  }

  const ESCAPED_WILDCARD := "\\.\\*"
  const REGEX_WILDCARD := "\\..*"

  // str.replace of the escaped wildcard, left to right.
  function ReplaceWildcards(s: string): string
    decreases |s|
  {
    if ESCAPED_WILDCARD <= s then REGEX_WILDCARD + ReplaceWildcards(s[4..])
    else if s == "" then ""
    else [s[0]] + ReplaceWildcards(s[1..])
  }

  datatype Token = Lit(c: char) | Any

  // What means something of its own in a regular expression, unless escaped.
  const META: set<char> := {'.', '^', '$', '*', '+', '?', '{', '[', '|', '(', ')', '\\'}

  // An escaped one of these is not itself: a class, a back reference, a control.
  predicate LetterOrDigit(c: char) {
    'a' <= c <= 'z' || 'A' <= c <= 'Z' || '0' <= c <= '9'
  }

  function Prepend(t: Token, rest: Option<seq<Token>>): Option<seq<Token>> {
    if rest.Some? then Some([t] + rest.value) else None
  }

  // Regular expressions of literal characters and of dots with a star; none for
  // text that says anything more.
  function ParseRegex(s: string): Option<seq<Token>>
    decreases |s|
  {
    if s == "" then Some([])
    else if s[0] == '\\' then
      if |s| >= 2 && !LetterOrDigit(s[1]) then Prepend(Lit(s[1]), ParseRegex(s[2..])) else None
    else if WILDCARD <= s then Prepend(Any, ParseRegex(s[2..]))
    else if s[0] in META then None
    else Prepend(Lit(s[0]), ParseRegex(s[1..]))
  }

  // What the pattern means: each dot followed by a star is a dot and anything.
  function Tokens(p: string): seq<Token>
    decreases |p|
  {
    if p == "" then []
    else if WILDCARD <= p then [Lit('.'), Any] + Tokens(p[2..])
    else [Lit(p[0])] + Tokens(p[1..])
  }

  lemma EscapeStep(p: string)
    requires p != ""
    ensures Escape(p) == (if p[0] in SPECIAL then ['\\', p[0]] else [p[0]]) + Escape(p[1..])
    ensures Escape(p) != "" && Escape(p)[0] != '.'
  {
  }

  // The escaped wildcard shows up exactly where the pattern has a wildcard.
  lemma EscapedWildcardAt(p: string)
    ensures ESCAPED_WILDCARD <= Escape(p) <==> WILDCARD <= p
  {
    var e, w := Escape(p), ESCAPED_WILDCARD;
    assert w[0] == '\\' && w[1] == '.' && w[2] == '\\' && w[3] == '*';
    if p != "" {
      EscapeStep(p);
      var rest := Escape(p[1..]);
      if p[0] in SPECIAL {
        assert e[0] == '\\' && e[1] == p[0] && e[2..] == rest;
      } else {
        assert e[0] == p[0] && e[0] != '\\';
      }
      if p[1..] != "" {
        EscapeStep(p[1..]);
        assert p[1] in SPECIAL ==> rest[0] == '\\' && rest[1] == p[1];
        assert p[1] !in SPECIAL ==> rest[0] == p[1];
      }
      assert w <= e <==> p[0] == '.' && |rest| >= 2 && rest[0] == '\\' && rest[1] == '*';
      assert WILDCARD <= p <==> p[0] == '.' && |p| >= 2 && p[1] == '*';
    }
  }

  lemma ReplaceCopies(c: char, rest: string)
    requires !(ESCAPED_WILDCARD <= [c] + rest)
    ensures ReplaceWildcards([c] + rest) == [c] + ReplaceWildcards(rest)
  {
    assert ([c] + rest)[1..] == rest;
  }

  lemma WildcardStarts(c: char, rest: string)
    ensures ESCAPED_WILDCARD <= [c] + rest ==> c == '\\' && rest != "" && rest[0] == '.'
  {
    if ESCAPED_WILDCARD <= [c] + rest {
      assert ([c] + rest)[0] == ESCAPED_WILDCARD[0] && ([c] + rest)[1] == ESCAPED_WILDCARD[1];
    }
  }

  // An escaped character is copied whole.
  lemma ReplaceCopiesEscape(c: char, rest: string)
    requires !(ESCAPED_WILDCARD <= ['\\', c] + rest) && (rest != "" ==> rest[0] != '.')
    ensures ReplaceWildcards(['\\', c] + rest) == ['\\', c] + ReplaceWildcards(rest)
  {
    var out := ReplaceWildcards(rest);
    assert ['\\', c] + rest == ['\\'] + ([c] + rest);
    ReplaceCopies('\\', [c] + rest);
    WildcardStarts(c, rest);
    ReplaceCopies(c, rest);
    assert ['\\', c] + out == ['\\'] + ([c] + out);
  }

  lemma EscapeStarts(p: string)
    ensures Escape(p) != "" ==> Escape(p)[0] != '.'
  {
    if p != "" {
      EscapeStep(p);
    }
  }

  // Away from a wildcard, replacing copies one escaped character and goes on.
  lemma ReplaceSkips(p: string)
    requires p != "" && !(WILDCARD <= p)
    ensures ReplaceWildcards(Escape(p))
         == (if p[0] in SPECIAL then ['\\', p[0]] else [p[0]]) + ReplaceWildcards(Escape(p[1..]))
  {
    var c, rest := p[0], Escape(p[1..]);
    EscapedWildcardAt(p);
    EscapeStarts(p[1..]);
    if c in SPECIAL {
      assert Escape(p) == ['\\', c] + rest by { EscapeStep(p); }
      ReplaceCopiesEscape(c, rest);
    } else {
      assert Escape(p) == [c] + rest by { EscapeStep(p); }
      ReplaceCopies(c, rest);
    }
  }

  // At a wildcard, replacing writes the regular expression for it.
  lemma ReplaceRewrites(p: string)
    requires WILDCARD <= p
    ensures ReplaceWildcards(Escape(p)) == REGEX_WILDCARD + ReplaceWildcards(Escape(p[2..]))
  {
    EscapedWildcardAt(p);
    assert p[0] == '.' && p[1..][0] == '*' && p[1..][1..] == p[2..];
    EscapeStep(p);
    EscapeStep(p[1..]);
    assert Escape(p) == ESCAPED_WILDCARD + Escape(p[2..]);
    assert Escape(p)[4..] == Escape(p[2..]);
  }

  lemma ParseWildcard(rest: string)
    ensures ParseRegex(REGEX_WILDCARD + rest) == Prepend(Lit('.'), Prepend(Any, ParseRegex(rest)))
  {
    var out := REGEX_WILDCARD + rest;
    assert out[2..] == WILDCARD + rest;
    assert (WILDCARD + rest)[2..] == rest;
    assert ParseRegex(WILDCARD + rest) == Prepend(Any, ParseRegex(rest));
  }

  // Escaping covers all that means something, and no letter or digit.
  lemma SpecialIsEnough(c: char)
    ensures c in META ==> c in SPECIAL
    ensures c in SPECIAL ==> !LetterOrDigit(c)
  {
  }

  lemma ParseCopied(c: char, rest: string)
    ensures c in SPECIAL ==> ParseRegex(['\\', c] + rest) == Prepend(Lit(c), ParseRegex(rest))
    ensures c !in SPECIAL ==> ParseRegex([c] + rest) == Prepend(Lit(c), ParseRegex(rest))
  {
    SpecialIsEnough(c);
    assert (['\\', c] + rest)[2..] == rest && ([c] + rest)[1..] == rest;
    assert !(WILDCARD <= [c] + rest) || ([c] + rest)[0] == '.';
  }

  /** The regular expression assembled by escaping and replacing text means what
      the pattern says, and nothing more, for every pattern. */
  lemma {:induction false} RegexMeansTokens(p: string)
    ensures ParseRegex(ReplaceWildcards(Escape(p))) == Some(Tokens(p))
    decreases |p|
  {
    if p == "" {
    } else if WILDCARD <= p {
      ReplaceRewrites(p);
      ParseWildcard(ReplaceWildcards(Escape(p[2..])));
      RegexMeansTokens(p[2..]);
      assert [Lit('.')] + ([Any] + Tokens(p[2..])) == Tokens(p);
    } else {
      ReplaceSkips(p);
      ParseCopied(p[0], ReplaceWildcards(Escape(p[1..])));
      RegexMeansTokens(p[1..]);
    }
  }

  // re.match of the tokens followed by `$`, which also matches before a final newline.
  predicate Matches(ts: seq<Token>, s: string)
    decreases |ts| + |s|
  {
    if ts == [] then s == "" || s == "\n"
    else if ts[0].Lit? then s != "" && s[0] == ts[0].c && Matches(ts[1..], s[1..])
    else Matches(ts[1..], s) || (s != "" && s[0] != '\n' && Matches(ts, s[1..]))
  }

  predicate Selects(pattern: string, toolId: string) {
    var regex := ParseRegex(ReplaceWildcards(Escape(pattern)));
    regex.Some? && Matches(regex.value, toolId)
  }

  function Wilds(p: string): nat
    decreases |p|
  {
    if p == "" then 0 else if WILDCARD <= p then 1 + Wilds(p[2..]) else Wilds(p[1..])
  }

  // Appending a wildcard makes none where the text had none.
  lemma NoNewWildcard(p: string)
    requires p != "" && !(WILDCARD <= p)
    ensures !(WILDCARD <= p + WILDCARD)
    ensures (p + WILDCARD)[1..] == p[1..] + WILDCARD && (p + WILDCARD)[0] == p[0]
  {
    var q := p + WILDCARD;
    assert q[0] == p[0] && q[1] == (if |p| > 1 then p[1] else '.');
    assert WILDCARD <= p <==> |p| > 1 && p[0] == '.' && p[1] == '*';
    assert WILDCARD <= q <==> q[0] == '.' && q[1] == '*';
  }

  // No newline, except perhaps as the last character.
  predicate OneLine(s: string) {
    forall i | 0 <= i < |s| - 1 :: s[i] != '\n'
  }

  lemma {:induction false} AnyMatchesOneLine(s: string)
    ensures Matches([Any], s) <==> OneLine(s)
    decreases |s|
  {
    assert [Any][1..] == [];
    if s != "" {
      AnyMatchesOneLine(s[1..]);
      if OneLine(s[1..]) && s[0] != '\n' {
        forall i | 0 <= i < |s| - 1 ensures s[i] != '\n' {
          if i > 0 { assert s[i] == s[1..][i - 1]; }
        }
      }
      if OneLine(s) && |s| > 1 {
        assert forall i | 0 <= i < |s[1..]| - 1 :: s[1..][i] == s[i + 1];
      }
    }
  }

  lemma SameTail(p: string, s: string, end: string)
    requires p != ""
    ensures s == p + end <==> s != "" && s[0] == p[0] && s[1..] == p[1..] + end
  {
    var q := p + end;
    assert q[0] == p[0] && q[1..] == p[1..] + end && q == [q[0]] + q[1..];
    if s != "" {
      assert s == [s[0]] + s[1..];
    }
  }

  lemma {:induction false} LiteralSelection(p: string, toolId: string)
    requires Wilds(p) == 0
    ensures Matches(Tokens(p), toolId) <==> toolId == p + "" || toolId == p + "\n"
    decreases |p|
  {
    if p != "" {
      assert !(WILDCARD <= p) && Tokens(p) == [Lit(p[0])] + Tokens(p[1..]);
      assert Tokens(p)[1..] == Tokens(p[1..]);
      SameTail(p, toolId, "");
      SameTail(p, toolId, "\n");
      if toolId != "" {
        LiteralSelection(p[1..], toolId[1..]);
      }
    }
  }

  /** A pattern without wildcard selects the tool of that id, and one whose id ends
      in a newline more. */
  lemma ExactSelection(p: string, toolId: string)
    requires Wilds(p) == 0
    ensures Selects(p, toolId) <==> toolId == p || toolId == p + "\n"
  {
    RegexMeansTokens(p);
    LiteralSelection(p, toolId);
    assert p + "" == p;
  }

  /** What a wildcard pattern with a star-free prefix selects. */
  lemma {:induction false} WildcardSelection(p: string, toolId: string)
    requires Wilds(p) == 0
    ensures Matches(Tokens(p + WILDCARD), toolId)
       <==> (p + "." <= toolId && OneLine(toolId[|p| + 1..]))
    decreases |p|
  {
    var q := p + WILDCARD;
    if p == "" {
      assert q == WILDCARD && q[2..] == "";
      assert Tokens(q) == [Lit('.'), Any] && Tokens(q)[1..] == [Any];
      if toolId != "" {
        AnyMatchesOneLine(toolId[1..]);
      }
    } else {
      NoNewWildcard(p);
      assert Tokens(q) == [Lit(p[0])] + Tokens(p[1..] + WILDCARD);
      assert Tokens(q)[1..] == Tokens(p[1..] + WILDCARD);
      if toolId != "" && toolId[0] == p[0] {
        WildcardSelection(p[1..], toolId[1..]);
        DotPrefixStep(p, toolId);
      }
    }
  }

  lemma DotPrefixStep(p: string, s: string)
    requires p != "" && s != "" && p[0] == s[0]
    ensures p + "." <= s <==> p[1..] + "." <= s[1..]
    ensures p + "." <= s ==> s[|p| + 1..] == s[1..][|p|..]
  {
    var q := p + ".";
    assert q[1..] == p[1..] + "." && q == [q[0]] + q[1..] && s == [s[0]] + s[1..];
    if q <= s {
      assert s[1..][..|p|] == q[1..];
    }
    if q[1..] <= s[1..] {
      assert s[..|q|] == q;
    }
  }

  /* ----- Coverage ----- */

  function Stars(s: string): nat {
    if s == "" then 0 else (if s[0] == '*' then 1 else 0) + Stars(s[1..])
  }

  lemma {:induction false} StarsAdd(a: string, b: string)
    ensures Stars(a + b) == Stars(a) + Stars(b)
  {
    if a == "" {
      assert a + b == b;
    } else {
      assert (a + b)[1..] == a[1..] + b;
      StarsAdd(a[1..], b);
    }
  }

  // The shortest name a pattern selects: its wildcards stand for nothing.
  function Shortest(p: string): string
    decreases |p|
  {
    if p == "" then "" else if WILDCARD <= p then "." + Shortest(p[2..]) else [p[0]] + Shortest(p[1..])
  }

  lemma {:induction false} ShortestIsSelected(p: string)
    ensures Matches(Tokens(p), Shortest(p))
    ensures Stars(Shortest(p)) + Wilds(p) == Stars(p)
    decreases |p|
  {
    if p == "" {
    } else if WILDCARD <= p {
      assert p[0] == '.' && p[1] == '*' && p[1..][1..] == p[2..];
      ShortestIsSelected(p[2..]);
      assert Tokens(p)[1..] == [Any] + Tokens(p[2..]);
      assert Tokens(p)[1..][1..] == Tokens(p[2..]);
      assert Shortest(p)[1..] == Shortest(p[2..]);
    } else {
      ShortestIsSelected(p[1..]);
      assert Tokens(p)[1..] == Tokens(p[1..]);
      assert Shortest(p)[1..] == Shortest(p[1..]);
    }
  }

  lemma {:induction false} WildsAdd(p: string)
    ensures Wilds(p + WILDCARD) == Wilds(p) + 1
    decreases |p|
  {
    var q := p + WILDCARD;
    if p == "" {
      assert q == WILDCARD && q[2..] == "";
    } else if WILDCARD <= p {
      assert q[2..] == p[2..] + WILDCARD && WILDCARD <= q;
      WildsAdd(p[2..]);
    } else {
      NoNewWildcard(p);
      WildsAdd(p[1..]);
    }
  }

  /** Every tool a wildcard action selects is covered by the same wildcard as a
      policy target, exactly when the prefix holds no wildcard of its own. */
  lemma WildcardsAgreeIff(p: string)
    ensures (forall toolId :: Selects(p + WILDCARD, toolId) ==> TargetMatches(p + WILDCARD, toolId))
       <==> Wilds(p) == 0
  {
    var q := p + WILDCARD;
    assert q[..|q| - 2] == p && q[|q| - 2..] == WILDCARD && q != "*";
    RegexMeansTokens(q);
    if Wilds(p) == 0 {
      forall toolId | Selects(q, toolId) ensures TargetMatches(q, toolId) {
        WildcardSelection(p, toolId);
      }
    } else {
      var toolId := Shortest(q);
      ShortestIsSelected(q);
      WildsAdd(p);
      StarsAdd(p, WILDCARD);
      assert Stars(WILDCARD) == 1 by { assert WILDCARD[1..] == "*" && "*"[1..] == ""; }
      assert Selects(q, toolId) && Stars(toolId) < Stars(p);
      CoveredKeepsStars(p, toolId);
    }
  }

  lemma CoveredKeepsStars(p: string, toolId: string)
    ensures toolId == p || p + "." <= toolId ==> Stars(toolId) >= Stars(p)
  {
    if p + "." <= toolId {
      assert toolId == p + toolId[|p|..];
      StarsAdd(p, toolId[|p|..]);
    }
  }
}
