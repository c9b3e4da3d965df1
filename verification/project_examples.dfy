/**
 * The four-id routing example: ids `*`, `api`, `api.app` and `*.app`
 * registered in any order.
 */
module ProjectExamples {
  import opened Ids
  import opened Patterns
  import opened Projects

  /** The table order the priority rule demands. */
  const Expected: seq<string> := ["api.app", "*.app", "api", "*"]

  lemma ExpectedLabels()
    ensures Split("api.app") == ["api", "app"] && Split("*.app") == ["*", "app"]
    ensures Split("api") == ["api"] && Split("*") == ["*"]
  {
    SplitJoin(["api", "app"]);
    SplitJoin(["*", "app"]);
    SplitJoin(["api"]);
    SplitJoin(["*"]);
  }

  /** Each of the four ids strictly outranks the ones after it. */
  lemma ExpectedStrictlyOrdered()
    ensures Compare("api.app", "*.app") < 0 && Compare("api.app", "api") < 0 && Compare("api.app", "*") < 0
    ensures Compare("*.app", "api") < 0 && Compare("*.app", "*") < 0
    ensures Compare("api", "*") < 0
  {
    ExpectedLabels();
    CompareSpec("api.app", "*.app");
    assert RightmostWildDifference(Split("api.app"), Split("*.app"), 0);
    CompareSpec("api.app", "api");
    CompareSpec("api.app", "*");
    CompareSpec("*.app", "api");
    CompareSpec("*.app", "*");
    CompareSpec("api", "*");
    assert RightmostWildDifference(Split("api"), Split("*"), 0);
  }

  /** Four ids in strictly decreasing priority are ordered. */
  lemma OrderedFour(a: string, b: string, c: string, d: string)
    requires Compare(a, b) < 0 && Compare(a, c) < 0 && Compare(a, d) < 0
    requires Compare(b, c) < 0 && Compare(b, d) < 0 && Compare(c, d) < 0
    ensures Ordered([a, b, c, d])
  {
  }

  /** ... and no two of them tie. */
  lemma DistinctFour(a: string, b: string, c: string, d: string)
    requires Compare(a, b) < 0 && Compare(a, c) < 0 && Compare(a, d) < 0
    requires Compare(b, c) < 0 && Compare(b, d) < 0 && Compare(c, d) < 0
    ensures forall x, y :: x in [a, b, c, d] && y in [a, b, c, d] && x != y ==> Compare(x, y) != 0
  {
    CompareAntisymmetric(b, a);
    CompareAntisymmetric(c, a);
    CompareAntisymmetric(d, a);
    CompareAntisymmetric(c, b);
    CompareAntisymmetric(d, b);
    CompareAntisymmetric(d, c);
  }

  lemma ExpectedSupported()
    ensures forall id :: id in Expected ==> Supported(id)
  {
  }

  lemma ExpectedFacts()
    ensures forall id :: id in Expected ==> Supported(id)
    ensures Ordered(Expected)
    ensures forall x, y :: x in Expected && y in Expected && x != y ==> Compare(x, y) != 0
  {
    ExpectedSupported();
    ExpectedStrictlyOrdered();
    OrderedFour("api.app", "*.app", "api", "*");
    DistinctFour("api.app", "*.app", "api", "*");
  }

  /** Registered in any order, the four ids are kept as `api.app`, `*.app`,
      `api`, `*`. */
  lemma PriorityIds(ids: seq<string>)
    requires multiset(ids) == multiset(Expected)
    ensures IdsOf(BuildTable(ids)) == Expected
    ensures Compiled(BuildTable(ids))
  {
    ExpectedFacts();
    forall id | id in ids ensures Supported(id) {
      assert id in multiset(Expected);
    }
    BuildTableSpec(ids);
    OrderedUnique(Expected, IdsOf(BuildTable(ids)));
  }

  /** A compiled route matches a string exactly when the string matches its
      id's own pattern. */
  lemma RouteMeaning(r: Route, s: string)
    requires Supported(r.id) && r == RouteFor(r.id)
    ensures Anchored(r.regexp.source)
    ensures Test(r.regexp, s) <==> MatchTokens(IdPattern(r.id), s, true)
  {
    CompileMeaning(r.id);
  }

  lemma CompiledAnchored(t: seq<Route>)
    requires Compiled(t)
    ensures forall r :: r in t ==> Anchored(r.regexp.source)
  {
    forall r | r in t ensures Anchored(r.regexp.source) {
      RouteMeaning(r, "");
    }
  }

  /** In the table the four ids produce, the four example queries resolve
      to the most specific pattern: `api.app` to `api.app`, `other.app` to
      `*.app`, `api` to `api` and `other` to `*`. */
  lemma PriorityQueries(t: seq<Route>)
    requires Compiled(t) && IdsOf(t) == Expected
    ensures forall r :: r in t ==> Anchored(r.regexp.source)
    ensures FirstMatch(t, "api.app") == 0
    ensures FirstMatch(t, "other.app") == 1
    ensures FirstMatch(t, "api") == 2
    ensures FirstMatch(t, "other") == 3
  {
    QueryApiApp(t);
    QueryOtherApp(t);
    QueryApi(t);
    QueryOther(t);
  }

  /** Route i of a compiled table matches s exactly when s matches the
      pattern of route i's id. */
  lemma CompiledAt(t: seq<Route>, i: nat, s: string)
    requires Compiled(t) && i < |t|
    ensures Anchored(t[i].regexp.source)
    ensures Test(t[i].regexp, s) <==> MatchTokens(IdPattern(t[i].id), s, true)
  {
    assert t[i] in t;
    RouteMeaning(t[i], s);
  }

  /** The contract of `FirstMatch` read backwards: the first route that
      matches is the one found. */
  lemma FirstMatchIs(t: seq<Route>, s: string, k: nat)
    requires forall r :: r in t ==> Anchored(r.regexp.source)
    requires k < |t| && Test(t[k].regexp, s)
    requires forall i :: 0 <= i < k ==> !Test(t[i].regexp, s)
    ensures FirstMatch(t, s) == k
  {
  }

  /** In a compiled table, the route found for s is the first whose id's
      pattern matches s. */
  lemma FirstMatchByIds(t: seq<Route>, s: string, k: nat)
    requires Compiled(t) && k < |t|
    requires MatchTokens(IdPattern(IdsOf(t)[k]), s, true)
    requires forall id :: id in IdsOf(t)[..k] ==> !MatchTokens(IdPattern(id), s, true)
    ensures forall r :: r in t ==> Anchored(r.regexp.source)
    ensures FirstMatch(t, s) == k
  {
    CompiledAnchored(t);
    forall i | 0 <= i < k ensures !Test(t[i].regexp, s) {
      CompiledAt(t, i, s);
      assert IdsOf(t)[..k][i] == t[i].id;
    }
    CompiledAt(t, k, s);
    FirstMatchIs(t, s, k);
  }

  lemma QueryApiApp(t: seq<Route>)
    requires Compiled(t) && IdsOf(t) == Expected
    ensures forall r :: r in t ==> Anchored(r.regexp.source)
    ensures FirstMatch(t, "api.app") == 0
  {
    ApiAppPattern();
    FirstMatchByIds(t, "api.app", 0);
  }

  lemma QueryOtherApp(t: seq<Route>)
    requires Compiled(t) && IdsOf(t) == Expected
    ensures forall r :: r in t ==> Anchored(r.regexp.source)
    ensures FirstMatch(t, "other.app") == 1
  {
    PatternsOnOtherApp();
    assert IdsOf(t)[..1] == ["api.app"];
    FirstMatchByIds(t, "other.app", 1);
  }

  lemma QueryApi(t: seq<Route>)
    requires Compiled(t) && IdsOf(t) == Expected
    ensures forall r :: r in t ==> Anchored(r.regexp.source)
    ensures FirstMatch(t, "api") == 2
  {
    PatternsOnApi();
    assert IdsOf(t)[..2] == ["api.app", "*.app"];
    FirstMatchByIds(t, "api", 2);
  }

  lemma QueryOther(t: seq<Route>)
    requires Compiled(t) && IdsOf(t) == Expected
    ensures forall r :: r in t ==> Anchored(r.regexp.source)
    ensures FirstMatch(t, "other") == 3
  {
    PatternsOnOther();
    assert IdsOf(t)[..3] == ["api.app", "*.app", "api"];
    FirstMatchByIds(t, "other", 3);
  }

  /** Which of the four patterns each query matches. */
  lemma PatternsOnOtherApp()
    ensures forall id :: id in ["api.app"] ==> !MatchTokens(IdPattern(id), "other.app", true)
    ensures MatchTokens(IdPattern("*.app"), "other.app", true)
  {
    ApiAppPattern();
    WildAppMatches();
  }

  lemma PatternsOnApi()
    ensures forall id :: id in ["api.app", "*.app"] ==> !MatchTokens(IdPattern(id), "api", true)
    ensures MatchTokens(IdPattern("api"), "api", true)
  {
    ApiAppPattern();
    WildAppPattern();
    ApiPattern();
  }

  lemma PatternsOnOther()
    ensures forall id :: id in ["api.app", "*.app", "api"] ==> !MatchTokens(IdPattern(id), "other", true)
    ensures MatchTokens(IdPattern("*"), "other", true)
  {
    ApiAppPattern();
    WildAppPattern();
    ApiPattern();
    WildPattern();
  }

  /** `api.app` matches only itself among the example queries. */
  lemma ApiAppPattern()
    ensures MatchTokens(IdPattern("api.app"), "api.app", true)
    ensures !MatchTokens(IdPattern("api.app"), "other.app", true)
    ensures !MatchTokens(IdPattern("api.app"), "api", true)
    ensures !MatchTokens(IdPattern("api.app"), "other", true)
  {
    var t := ApiAppTokens();
    assert MatchTokens(t, "api.app", true);
    ExactLength(t, "other.app");
    ExactLength(t, "api");
    ExactLength(t, "other");
  }

  lemma ApiAppTokens() returns (t: seq<Token>)
    ensures t == IdPattern("api.app")
    ensures t == [Lit('a'), Lit('p'), Lit('i'), Lit('.'), Lit('a'), Lit('p'), Lit('p')]
  {
    t := IdPattern("api.app");
    assert t == [Lit('a'), Lit('p'), Lit('i'), Lit('.'), Lit('a'), Lit('p'), Lit('p')];
  }

  /** A pattern without `.+` only matches strings of its own length. */
  lemma ExactLength(t: seq<Token>, s: string)
    requires AnyPlus !in t && |s| != |t|
    ensures !MatchTokens(t, s, true)
  {
    if MatchTokens(t, s, true) {
      MatchTokensLength(t, s, true);
    }
  }

  /** `*.app` rejects the single-label queries. */
  lemma WildAppPattern()
    ensures !MatchTokens(IdPattern("*.app"), "api", true)
    ensures !MatchTokens(IdPattern("*.app"), "other", true)
  {
    var t := IdPattern("*.app");
    assert t == [AnyPlus, Lit('.'), Lit('a'), Lit('p'), Lit('p')];
    if MatchTokens(t, "api", true) {
      MatchTokensLength(t, "api", true);
    }
    assert t == [AnyPlus] + t[1..];
    AnyPlusThenDot(t[1..], "other");
  }

  lemma WildAppMatches()
    ensures MatchTokens(IdPattern("*.app"), "other.app", true)
  {
    var rest := [Lit('.'), Lit('a'), Lit('p'), Lit('p')];
    assert IdPattern("*.app") == [AnyPlus] + rest;
    assert MatchTokens(rest, ".app", true);
    AnyPlusPrefix(rest, "other", ".app", true);
    assert "other" + ".app" == "other.app";
  }

  /** `.+` followed by a literal `.` cannot match a word without a dot. */
  lemma {:induction false} AnyPlusThenDot(rest: seq<Token>, s: string)
    requires rest != [] && rest[0] == Lit('.') && '.' !in s
    ensures !MatchTokens([AnyPlus] + rest, s, true)
    decreases |s|
  {
    if s != [] {
      assert ([AnyPlus] + rest)[1..] == rest;
      assert !MatchTokens(rest, s[1..], true) by {
        if s[1..] != [] {
          assert s[1..][0] in s;
        }
      }
      assert forall c :: c in s[1..] ==> c in s;
      AnyPlusThenDot(rest, s[1..]);
    }
  }

  lemma ApiPattern()
    ensures MatchTokens(IdPattern("api"), "api", true)
    ensures !MatchTokens(IdPattern("api"), "other", true)
  {
    var t := IdPattern("api");
    assert t == [Lit('a'), Lit('p'), Lit('i')];
    ExactLength(t, "other");
  }

  lemma WildPattern()
    ensures MatchTokens(IdPattern("*"), "other", true)
  {
    assert IdPattern("*") == [AnyPlus] + [];
    assert MatchTokens([], "", true);
    AnyPlusPrefix([], "other", "", true);
    assert "other" + "" == "other";
  }

  /** Only the first `.` of an id is escaped: in `a.b.c` the second `.`
      matches any character, so the compiled pattern also accepts `a.bxc`. */
  lemma OnlyFirstDotEscaped()
    ensures Test(Compile("a.b.c"), "a.bxc")
  {
    AbcSupported();
    SecondDotAnyChar();
    CompileMeaning("a.b.c");
  }

  lemma AbcSupported()
    ensures Supported("a.b.c")
  {
    assert forall c :: c in "a.b.c" ==> c in "abc.";
  }

  lemma SecondDotAnyChar()
    ensures MatchTokens(IdPattern("a.b.c"), "a.bxc", true)
  {
    var t := IdPattern("a.b.c");
    assert t == [Lit('a'), Lit('.'), Lit('b'), AnyChar, Lit('c')];
  }

  /** The same, stated on a project whose services have these four ids,
      registered in any order. */
  lemma ProjectResolves(p: Project, cs: seq<ServiceConfig>)
    requires p.Valid() && p.serviceRegexps == BuildTable(ConfigIds(cs))
    requires multiset(ConfigIds(cs)) == multiset(Expected)
    ensures forall id :: id in Expected ==> id in p.services
    ensures p.MatchService("api.app") == Hit(p.services["api.app"])
    ensures p.MatchService("other.app") == Hit(p.services["*.app"])
    ensures p.MatchService("api") == Hit(p.services["api"])
    ensures p.MatchService("other") == Hit(p.services["*"])
  {
    var t := p.serviceRegexps;
    PriorityIds(ConfigIds(cs));
    PriorityQueries(t);
    assert forall i :: 0 <= i < 4 ==> t[i] in t && t[i].id == Expected[i];
  }
}
