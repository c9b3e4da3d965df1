/**
 * A project: its microservices keyed by id, and the match table that keeps
 * one compiled pattern per registered id in priority order.
 */
module Projects {
  import opened Wrappers
  import opened Ids
  import opened Patterns

  /** The microservice record the project consumes: only `id` and `match`. */
  datatype Microservice = Microservice(id: string, matchPattern: Option<string>)

  datatype ServiceConfig = ServiceConfig(id: string, matchPattern: Option<string>)

  datatype ProjectConfig = ProjectConfig(id: string, services: seq<ServiceConfig>)

  /** One `[id, regexp]` entry of `serviceRegexps`. */
  datatype Route = Route(id: string, regexp: RegExp)

  /** The result of `matchService`: `-1` when nothing matches. */
  datatype Match = Miss | Hit(service: Microservice)

  /** What `handleRequest` does with a request. */
  datatype RequestOutcome =
    | NotFound(body: string)             // `res.send(...)`, no service is called
    | Delegated(service: Microservice)   // `service.handleRequest(req, res, next)`

  function RouteFor(id: string): Route
  {
    Route(id, Compile(id))
  }

  function IdsOf(t: seq<Route>): (ids: seq<string>)
    ensures |ids| == |t|
    ensures forall i :: 0 <= i < |t| ==> ids[i] == t[i].id
  {
    seq(|t|, i requires 0 <= i < |t| => t[i].id)
  }

  function RouteIds(t: seq<Route>): set<string>
  {
    set r | r in t :: r.id
  }

  /** The table is in non-decreasing priority order. */
  predicate Sorted(t: seq<Route>)
  {
    forall i, j :: 0 <= i < j < |t| ==> Compare(t[i].id, t[j].id) <= 0
  }

  /** Reference definition of the insertion: walk past every entry of
      strictly higher priority than the new one and insert it there. */
  function InsertSorted(t: seq<Route>, r: Route): (u: seq<Route>)
    ensures |u| == |t| + 1
  {
    if t == [] then [r]
    else if Compare(t[0].id, r.id) < 0 then [t[0]] + InsertSorted(t[1..], r)
    else [r] + t
  }

  /** Insertion at k: the first k entries rank strictly higher, the entry
      at k (if any) does not. */
  lemma {:induction false} InsertSortedAt(t: seq<Route>, r: Route, k: nat)
    requires k <= |t|
    requires forall i :: 0 <= i < k ==> Compare(t[i].id, r.id) < 0
    requires k < |t| ==> Compare(t[k].id, r.id) >= 0
    ensures InsertSorted(t, r) == t[..k] + [r] + t[k..]
  {
    if k > 0 {
      InsertSortedAt(t[1..], r, k - 1);
      assert t[1..][..k - 1] == t[1..k];
      assert t[1..][k - 1..] == t[k..];
      assert t[..k] == [t[0]] + t[1..k];
    } else {
      assert t[k..] == t;
    }
  }

  /** In a sorted table, the entries of strictly higher priority than `id`
      form a prefix. */
  lemma HigherPriorityPrefix(t: seq<Route>, id: string, k: nat)
    requires Sorted(t) && k < |t| && Compare(t[k].id, id) >= 0
    ensures forall i :: k <= i < |t| ==> Compare(t[i].id, id) >= 0
  {
    forall i | k < i < |t| ensures Compare(t[i].id, id) >= 0 {
      CompareTransitive(t[k].id, t[i].id, id);
    }
  }

  /** The lower-bound search of `insertServiceRegex`: the number of entries
      that rank strictly higher than `id`. */
  method LowerBound(t: seq<Route>, id: string) returns (low: nat)
    requires Sorted(t)
    ensures low <= |t|
    ensures forall i :: 0 <= i < low ==> Compare(t[i].id, id) < 0
    ensures forall i :: low <= i < |t| ==> Compare(t[i].id, id) >= 0
  {
    low := 0;
    var high := |t|;
    while low < high
      invariant 0 <= low <= high <= |t|
      invariant forall i :: 0 <= i < low ==> Compare(t[i].id, id) < 0
      invariant forall i :: high <= i < |t| ==> Compare(t[i].id, id) >= 0
    {
      var mid := (low + high) / 2;
      if Compare(t[mid].id, id) < 0 {
        forall i | low <= i < mid ensures Compare(t[i].id, id) < 0 {
          CompareTransitive(t[i].id, t[mid].id, id);
        }
        low := mid + 1;
      } else {
        HigherPriorityPrefix(t, id, mid);
        high := mid;
      }
    }
  }

  /** Where `InsertSorted` puts the new entry: after every entry of
      strictly higher priority, before the first one that is not. */
  lemma InsertSortedPosition(t: seq<Route>, r: Route) returns (k: nat)
    ensures k <= |t| && InsertSorted(t, r) == t[..k] + [r] + t[k..]
    ensures forall i :: 0 <= i < k ==> Compare(t[i].id, r.id) < 0
    ensures k < |t| ==> Compare(t[k].id, r.id) >= 0
  {
    k := 0;
    while k < |t| && Compare(t[k].id, r.id) < 0
      invariant k <= |t|
      invariant forall i :: 0 <= i < k ==> Compare(t[i].id, r.id) < 0
    {
      k := k + 1;
    }
    InsertSortedAt(t, r, k);
  }

  /** Inserting at a lower bound keeps a sorted table sorted. */
  lemma InsertAtLowerBoundSorted(t: seq<Route>, r: Route, k: nat)
    requires Sorted(t) && k <= |t|
    requires forall i :: 0 <= i < k ==> Compare(t[i].id, r.id) < 0
    requires forall i :: k <= i < |t| ==> Compare(t[i].id, r.id) >= 0
    ensures Sorted(t[..k] + [r] + t[k..])
  {
    var u := t[..k] + [r] + t[k..];
    assert forall i :: 0 <= i < k ==> u[i] == t[i];
    assert u[k] == r;
    assert forall i :: k < i < |u| ==> u[i] == t[i - 1];
    forall i, j | 0 <= i < j < |u| ensures Compare(u[i].id, u[j].id) <= 0 {
      if i == k {
        CompareAntisymmetric(r.id, t[j - 1].id);
      }
    }
  }

  /** Inserting into a sorted table adds exactly the one entry, keeps the old
      entries in their relative order, places the new entry after every entry
      of strictly higher priority and before every other one (so before
      earlier entries of equal priority), and keeps the table sorted. */
  lemma InsertSortedSpec(t: seq<Route>, r: Route)
    requires Sorted(t)
    ensures Sorted(InsertSorted(t, r))
    ensures multiset(InsertSorted(t, r)) == multiset(t) + multiset{r}
    ensures exists k :: (0 <= k <= |t| && InsertSorted(t, r) == t[..k] + [r] + t[k..]
      && (forall i :: 0 <= i < k ==> Compare(t[i].id, r.id) < 0)
      && (forall i :: k <= i < |t| ==> Compare(t[i].id, r.id) >= 0))
  {
    var k := InsertSortedPosition(t, r);
    if k < |t| {
      HigherPriorityPrefix(t, r.id, k);
    }
    InsertAtLowerBoundSorted(t, r, k);
    SpliceMultiset(t, r, k);
  }

  lemma SpliceMultiset(t: seq<Route>, r: Route, k: nat)
    requires k <= |t|
    ensures multiset(t[..k] + [r] + t[k..]) == multiset(t) + multiset{r}
  {
    assert t == t[..k] + t[k..];
  }

  /** Every entry holds the compiled pattern of a supported id. */
  predicate Compiled(t: seq<Route>)
  {
    forall r :: r in t ==> Supported(r.id) && r == RouteFor(r.id)
  }

  /** Registering a supported id keeps the table sorted and compiled and
      adds exactly that id to the ids it knows. */
  lemma InsertRoute(t: seq<Route>, id: string)
    requires Sorted(t) && Compiled(t) && Supported(id)
    ensures Sorted(InsertSorted(t, RouteFor(id)))
    ensures Compiled(InsertSorted(t, RouteFor(id)))
    ensures RouteIds(InsertSorted(t, RouteFor(id))) == RouteIds(t) + {id}
  {
    var r := RouteFor(id);
    InsertSortedSpec(t, r);
    InsertSortedMembers(t, r);
  }

  lemma {:induction false} InsertSortedMembers(t: seq<Route>, r: Route)
    ensures forall x :: x in InsertSorted(t, r) <==> x in t || x == r
  {
    if t != [] && Compare(t[0].id, r.id) < 0 {
      InsertSortedMembers(t[1..], r);
      assert t == [t[0]] + t[1..];
    }
  }

  /** The match table after registering `ids` in this order. */
  function BuildTable(ids: seq<string>): seq<Route>
  {
    if ids == [] then [] else InsertSorted(BuildTable(ids[..|ids| - 1]), RouteFor(ids[|ids| - 1]))
  }

  lemma {:induction false} InsertSortedIds(t: seq<Route>, r: Route)
    ensures multiset(IdsOf(InsertSorted(t, r))) == multiset(IdsOf(t)) + multiset{r.id}
  {
    if t != [] && Compare(t[0].id, r.id) < 0 {
      var u := InsertSorted(t[1..], r);
      InsertSortedIds(t[1..], r);
      IdsOfCons(t[0], u);
      IdsOfCons(t[0], t[1..]);
      assert t == [t[0]] + t[1..];
    } else if t != [] {
      IdsOfCons(r, t);
    }
  }

  lemma IdsOfCons(x: Route, t: seq<Route>)
    ensures IdsOf([x] + t) == [x.id] + IdsOf(t)
  {
    assert forall i :: 0 <= i < |t| + 1 ==> IdsOf([x] + t)[i] == ([x.id] + IdsOf(t))[i];
  }

  /** Registering supported ids in any order gives a sorted, compiled table
      holding exactly those ids, one entry per registration. */
  lemma BuildTableSpec(ids: seq<string>)
    requires forall id :: id in ids ==> Supported(id)
    ensures Sorted(BuildTable(ids)) && Compiled(BuildTable(ids))
    ensures Ordered(IdsOf(BuildTable(ids)))
    ensures multiset(IdsOf(BuildTable(ids))) == multiset(ids)
  {
    BuildTableWellFormed(ids);
    BuildTableIds(ids);
  }

  lemma {:induction false} BuildTableWellFormed(ids: seq<string>)
    requires forall id :: id in ids ==> Supported(id)
    ensures Sorted(BuildTable(ids)) && Compiled(BuildTable(ids))
  {
    if ids != [] {
      var init, last := ids[..|ids| - 1], ids[|ids| - 1];
      assert forall id :: id in init ==> id in ids;
      BuildTableWellFormed(init);
      InsertRoute(BuildTable(init), last);
    }
  }

  lemma {:induction false} BuildTableIds(ids: seq<string>)
    ensures multiset(IdsOf(BuildTable(ids))) == multiset(ids)
  {
    if ids != [] {
      var init, last := ids[..|ids| - 1], ids[|ids| - 1];
      BuildTableIds(init);
      InsertSortedIds(BuildTable(init), RouteFor(last));
      assert ids == init + [last];
    }
  }

  /** A compiled table is determined by its sequence of ids. */
  lemma CompiledByIds(t1: seq<Route>, t2: seq<Route>)
    requires Compiled(t1) && Compiled(t2) && IdsOf(t1) == IdsOf(t2)
    ensures t1 == t2
  {
    forall i | 0 <= i < |t1| ensures t1[i] == t2[i] {
      assert t1[i] in t1 && t2[i] in t2;
    }
  }

  /** Membership carries over between sequences with the same multiset. */
  lemma SameMembers<T>(a: seq<T>, b: seq<T>)
    requires multiset(a) == multiset(b)
    ensures forall x :: x in a <==> x in b
  {
    forall x ensures x in a <==> x in b {
      assert x in a <==> x in multiset(a);
      assert x in b <==> x in multiset(b);
    }
  }

  /** When no two distinct ids tie under the priority rule, the table does
      not depend on the order in which the services were registered. */
  lemma RegistrationOrderIrrelevant(ids1: seq<string>, ids2: seq<string>)
    requires forall id :: id in ids1 ==> Supported(id)
    requires multiset(ids1) == multiset(ids2)
    requires forall x, y :: x in ids1 && y in ids1 && x != y ==> Compare(x, y) != 0
    ensures BuildTable(ids1) == BuildTable(ids2)
  {
    SameMembers(ids1, ids2);
    BuildTableSpec(ids1);
    BuildTableSpec(ids2);
    var a, b := IdsOf(BuildTable(ids1)), IdsOf(BuildTable(ids2));
    SameMembers(a, ids1);
    OrderedUnique(a, b);
    CompiledByIds(BuildTable(ids1), BuildTable(ids2));
  }

  /** The service map after registering `cs` in this order: a later config
      with the same id overwrites the earlier one. */
  function ServiceMap(cs: seq<ServiceConfig>): map<string, Microservice>
  {
    if cs == [] then map[]
    else
      var c := cs[|cs| - 1];
      ServiceMap(cs[..|cs| - 1])[c.id := Microservice(c.id, c.matchPattern)]
  }

  /** One more registration extends both the table and the service map. */
  lemma RegisterStep(cs: seq<ServiceConfig>, i: nat)
    requires i < |cs|
    ensures BuildTable(ConfigIds(cs[..i + 1])) == InsertSorted(BuildTable(ConfigIds(cs[..i])), RouteFor(cs[i].id))
    ensures ServiceMap(cs[..i + 1]) == ServiceMap(cs[..i])[cs[i].id := Microservice(cs[i].id, cs[i].matchPattern)]
  {
    var ids := ConfigIds(cs[..i + 1]);
    assert ids[..i] == ConfigIds(cs[..i]);
    assert cs[..i + 1][..i] == cs[..i];
  }

  function ConfigIds(cs: seq<ServiceConfig>): (ids: seq<string>)
    ensures |ids| == |cs|
    ensures forall i :: 0 <= i < |cs| ==> ids[i] == cs[i].id
  {
    seq(|cs|, i requires 0 <= i < |cs| => cs[i].id)
  }

  /** Index of the first entry whose pattern matches `s`, or -1. */
  function FirstMatch(t: seq<Route>, s: string): (k: int)
    requires forall r :: r in t ==> Anchored(r.regexp.source)
    ensures -1 <= k < |t|
    ensures k == -1 <==> forall i :: 0 <= i < |t| ==> !Test(t[i].regexp, s)
    ensures k >= 0 ==> Test(t[k].regexp, s) && forall i :: 0 <= i < k ==> !Test(t[i].regexp, s)
  {
    if t == [] then -1
    else if Test(t[0].regexp, s) then 0
    else
      var k := FirstMatch(t[1..], s);
      if k == -1 then -1 else k + 1
  }

  function Reverse(s: seq<string>): (r: seq<string>)
    ensures |r| == |s|
    ensures forall i :: 0 <= i < |s| ==> r[i] == s[|s| - 1 - i]
  {
    if s == [] then [] else Reverse(s[1..]) + [s[0]]
  }

  /** `req.subdomains.slice(1)`: everything after the project label. */
  function Remainder(subdomains: seq<string>): seq<string>
  {
    if subdomains == [] then [] else subdomains[1..]
  }

  /** The routing query of `handleRequest`: the labels after the project
      label, most significant last, joined by dots; `@` if that is empty. */
  function ServiceQuery(subdomains: seq<string>): (q: string)
    ensures q != ""
    ensures |subdomains| <= 1 ==> q == "@"
  {
    var joined := JoinDot(Reverse(Remainder(subdomains)));
    if joined == "" then "@" else joined
  }

  /** The query is never empty; it is `@` exactly when the joined remainder
      is empty, and otherwise it splits back into the remaining labels in
      reverse order (given labels without dots, as host labels are). */
  lemma ServiceQueryLabels(subdomains: seq<string>)
    requires forall l :: l in subdomains ==> '.' !in l
    ensures ServiceQuery(subdomains) == "@" <==> JoinDot(Reverse(Remainder(subdomains))) in {"", "@"}
    ensures JoinDot(Reverse(Remainder(subdomains))) != "" ==>
      Split(ServiceQuery(subdomains)) == Reverse(Remainder(subdomains))
  {
    var rest := Reverse(Remainder(subdomains));
    if JoinDot(rest) != "" {
      assert rest != [];
      forall l | l in rest ensures '.' !in l {
        var i :| 0 <= i < |rest| && rest[i] == l;
        assert l in subdomains;
      }
      SplitJoin(rest);
    }
  }

  class Project {
    var id: string
    var services: map<string, Microservice>
    var serviceRegexps: seq<Route>

    /** The table is sorted, every entry holds its id's compiled pattern, and
        the table and the service map know the same ids. */
    ghost predicate Valid()
      reads this
    {
      && Sorted(serviceRegexps)
      && Compiled(serviceRegexps)
      && RouteIds(serviceRegexps) == services.Keys
      && (forall k :: k in services ==> services[k].id == k)
    }

    constructor (config: ProjectConfig)
      requires forall c :: c in config.services ==> Supported(c.id)
      ensures Valid()
      ensures id == config.id
      ensures services == ServiceMap(config.services)
      ensures serviceRegexps == BuildTable(ConfigIds(config.services))
    {
      id := config.id;
      services := map[];
      serviceRegexps := [];
      new;
      var cs := config.services;
      for i := 0 to |cs|
        invariant Valid()
        invariant id == config.id
        invariant services == ServiceMap(cs[..i])
        invariant serviceRegexps == BuildTable(ConfigIds(cs[..i]))
      {
        assert cs[i] in cs;
        AddMicroservice(cs[i]);
        RegisterStep(cs, i);
      }
      assert cs[..|cs|] == cs;
    }

    method AddMicroservice(config: ServiceConfig)
      requires Valid() && Supported(config.id)
      modifies this
      ensures Valid()
      ensures id == old(id)
      ensures services == old(services)[config.id := Microservice(config.id, config.matchPattern)]
      ensures serviceRegexps == InsertSorted(old(serviceRegexps), RouteFor(config.id))
    {
      var microservice := Microservice(config.id, config.matchPattern);
      var regexp := Compile(microservice.id);
      InsertServiceRegex(microservice.id, regexp);
      services := services[microservice.id := microservice];
      InsertRoute(old(serviceRegexps), config.id);
    }

    method InsertServiceRegex(serviceId: string, regexp: RegExp)
      requires Sorted(serviceRegexps)
      modifies this`serviceRegexps
      ensures Sorted(serviceRegexps)
      ensures serviceRegexps == InsertSorted(old(serviceRegexps), Route(serviceId, regexp))
    {
      var low := LowerBound(serviceRegexps, serviceId);
      InsertSortedAt(serviceRegexps, Route(serviceId, regexp), low);
      InsertSortedSpec(serviceRegexps, Route(serviceId, regexp));
      serviceRegexps := serviceRegexps[..low] + [Route(serviceId, regexp)] + serviceRegexps[low..];
    }

    /** The service of the first entry whose pattern matches `s`, or a miss
        when none does. */
    function MatchService(s: string): (m: Match)
      reads this
      requires Valid()
      ensures m.Miss? <==> forall i :: 0 <= i < |serviceRegexps| ==> !Test(serviceRegexps[i].regexp, s)
      ensures m.Hit? ==> var k := FirstMatch(serviceRegexps, s);
        && 0 <= k
        && serviceRegexps[k].id in services
        && m.service == services[serviceRegexps[k].id]
        && m.service.id == serviceRegexps[k].id
    {
      var k := FirstMatch(serviceRegexps, s);
      if k == -1 then Miss
      else
        assert serviceRegexps[k] in serviceRegexps;
        assert serviceRegexps[k].id in RouteIds(serviceRegexps);
        Hit(services[serviceRegexps[k].id])
    }

    /** A miss answers `Service '<query>' not found` and calls no service;
        a hit hands the request to exactly the matched service. */
    function HandleRequest(subdomains: seq<string>): (o: RequestOutcome)
      reads this
      requires Valid()
      ensures o.NotFound? <==> MatchService(ServiceQuery(subdomains)).Miss?
      ensures o.NotFound? ==> o.body == "Service '" + ServiceQuery(subdomains) + "' not found"
      ensures o.Delegated? ==> o == Delegated(MatchService(ServiceQuery(subdomains)).service)
    {
      var serviceId := ServiceQuery(subdomains);
      match MatchService(serviceId)
      case Miss => NotFound("Service '" + serviceId + "' not found")
      case Hit(service) => Delegated(service)
    }
  }
}
