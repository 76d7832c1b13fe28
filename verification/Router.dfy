// The plugin registry of internal/plugins/router.go: which route serves a request,
// and the answer cache in front of the plugins.

module Routes {
  import opened Outcomes
  import opened Text
  import opened DnsName

  datatype Route = Route(
    name: string, domains: seq<string>, suffixes: seq<string>, clientViews: seq<string>, tenants: seq<string>,
    policyTags: seq<string>, plugin: string, priority: int)

  /** What routing and caching look at in a request. */
  datatype Request = Request(qname: string, qtype: string, clientView: string, tenant: string, policyTags: seq<string>)

  /** The case tables and the upper-case conversion. */
  datatype Tables = Tables(unicode: Unicode, upper: string -> string)

  // ------------------------------------------------------------------ ordering

  /** One more route goes behind all routes of its priority or a higher one. */
  function Insert(sorted: seq<Route>, r: Route): seq<Route> {
    if sorted == [] then [r]
    else if sorted[0].priority >= r.priority then [sorted[0]] + Insert(sorted[1..], r)
    else [r] + sorted
  }

  /** sort.SliceStable by falling priority. */
  function StableSort(routes: seq<Route>): seq<Route> {
    if routes == [] then [] else Insert(StableSort(routes[..|routes| - 1]), routes[|routes| - 1])
  }

  predicate Falling(routes: seq<Route>) {
    forall i, j | 0 <= i < j < |routes| :: routes[i].priority >= routes[j].priority
  }

  /** The first route that may be used. */
  function First(routes: seq<Route>, eligible: Route -> bool): Option<Route> {
    if routes == [] then None
    else if eligible(routes[0]) then Some(routes[0])
    else First(routes[1..], eligible)
  }

  /** The route a configuration asks for: of the eligible ones the one with the highest
      priority, and of those with this priority the one configured first. */
  ghost predicate Best(routes: seq<Route>, eligible: Route -> bool, best: Option<Route>) {
    match best
    case None => forall i | 0 <= i < |routes| :: !eligible(routes[i])
    case Some(r) => exists i | 0 <= i < |routes| :: r == routes[i] && BestAt(routes, eligible, i)
  }

  ghost predicate BestAt(routes: seq<Route>, eligible: Route -> bool, i: int)
    requires 0 <= i < |routes|
  {
    && eligible(routes[i])
    && forall j | 0 <= j < |routes| && eligible(routes[j]) ::
         routes[j].priority < routes[i].priority || (routes[j].priority == routes[i].priority && i <= j)
  }

  lemma {:induction false} InsertCounts(sorted: seq<Route>, r: Route)
    ensures multiset(Insert(sorted, r)) == multiset(sorted) + multiset{r}
  {
    if sorted != [] {
      assert sorted == [sorted[0]] + sorted[1..];
      InsertCounts(sorted[1..], r);
    }
  }

  lemma {:induction false} InsertFalls(sorted: seq<Route>, r: Route)
    requires Falling(sorted)
    ensures Falling(Insert(sorted, r))
  {
    if sorted != [] && sorted[0].priority >= r.priority {
      var rest := Insert(sorted[1..], r);
      InsertFalls(sorted[1..], r);
      InsertBelow(sorted[1..], r, sorted[0].priority);
      assert Insert(sorted, r) == [sorted[0]] + rest;
    }
  }

  lemma {:induction false} InsertBelow(sorted: seq<Route>, r: Route, p: int)
    requires r.priority <= p && forall i | 0 <= i < |sorted| :: sorted[i].priority <= p
    ensures forall i | 0 <= i < |Insert(sorted, r)| :: Insert(sorted, r)[i].priority <= p
  {
    if sorted != [] && sorted[0].priority >= r.priority {
      InsertBelow(sorted[1..], r, p);
    }
  }

  lemma {:induction false} SortedFalls(routes: seq<Route>)
    ensures Falling(StableSort(routes))
    ensures multiset(StableSort(routes)) == multiset(routes)
  {
    if routes != [] {
      var n := |routes| - 1;
      SortedFalls(routes[..n]);
      InsertFalls(StableSort(routes[..n]), routes[n]);
      InsertCounts(StableSort(routes[..n]), routes[n]);
      assert routes == routes[..n] + [routes[n]];
    }
  }

  /** A later route wins only with a strictly higher priority. */
  lemma {:induction false} FirstAfterInsert(sorted: seq<Route>, r: Route, eligible: Route -> bool)
    requires Falling(sorted)
    ensures var was := First(sorted, eligible);
      First(Insert(sorted, r), eligible)
        == if eligible(r) && (was.None? || was.value.priority < r.priority) then Some(r) else was
  {
    if sorted != [] {
      if sorted[0].priority >= r.priority {
        FirstAfterInsert(sorted[1..], r, eligible);
        assert Insert(sorted, r)[1..] == Insert(sorted[1..], r);
      } else {
        FirstBelow(sorted, eligible, sorted[0].priority);
        assert ([r] + sorted)[1..] == sorted;
      }
    }
  }

  lemma {:induction false} FirstBelow(routes: seq<Route>, eligible: Route -> bool, p: int)
    requires forall i | 0 <= i < |routes| :: routes[i].priority <= p
    ensures First(routes, eligible).Some? ==> First(routes, eligible).value.priority <= p
  {
    if routes != [] { FirstBelow(routes[1..], eligible, p); }
  }

  lemma BestOfOneMore(front: seq<Route>, r: Route, eligible: Route -> bool, was: Option<Route>)
    requires Best(front, eligible, was)
    ensures Best(front + [r], eligible,
                 if eligible(r) && (was.None? || was.value.priority < r.priority) then Some(r) else was)
  {
    var all, n := front + [r], |front|;
    assert all[n] == r && forall i | 0 <= i < n :: all[i] == front[i];
    if eligible(r) && (was.None? || was.value.priority < r.priority) {
      if was.Some? {
        var i :| 0 <= i < n && was.value == front[i] && BestAt(front, eligible, i);
        assert forall j | 0 <= j < n && eligible(front[j]) :: front[j].priority <= front[i].priority;
      }
      assert BestAt(all, eligible, n);
    } else if was.Some? {
      var i :| 0 <= i < n && was.value == front[i] && BestAt(front, eligible, i);
      assert BestAt(all, eligible, i);
    }
  }

  /** Taking the first eligible route of the sorted list is taking the best one. */
  lemma {:induction false} FirstOfSortedIsBest(routes: seq<Route>, eligible: Route -> bool)
    ensures Best(routes, eligible, First(StableSort(routes), eligible))
  {
    if routes != [] {
      var front, r := routes[..|routes| - 1], routes[|routes| - 1];
      FirstOfSortedIsBest(front, eligible);
      SortedFalls(front);
      FirstAfterInsert(StableSort(front), r, eligible);
      BestOfOneMore(front, r, eligible, First(StableSort(front), eligible));
      assert routes == front + [r];
    }
  }

  // --------------------------------------------------------------- eligibility

  function RouteValue(u: Unicode, value: string): string { ToLower(u, TrimSpace(value)) }

  /** The value that a list of client views or tenants is searched for. */
  function Wanted(u: Unicode, value: string): string {
    if RouteValue(u, value) == "" then "default" else RouteValue(u, value)
  }

  predicate ContainsOrEmpty(u: Unicode, values: seq<string>, value: string) {
    values == [] || exists v | v in values :: RouteValue(u, v) == Wanted(u, value)
  }

  predicate ContainsAll(u: Unicode, required: seq<string>, provided: seq<string>) {
    forall r | r in required :: RouteValue(u, r) in Values(u, provided)
  }

  function Values(u: Unicode, tags: seq<string>): (r: seq<string>)
    ensures |r| == |tags|
  {
    seq(|tags|, i requires 0 <= i < |tags| => RouteValue(u, tags[i]))
  }

  predicate MatchSuffix(u: Unicode, qname: string, suffix: string) {
    var q := NormalizeQName(u, qname);
    var s := TrimSuffix(TrimPrefix(ToLower(u, TrimSpace(suffix)), "."), ".");
    s != "" && (q == s + "." || HasSuffix(q, "." + s + "."))
  }

  predicate RouteMatchesName(u: Unicode, route: Route, qname: string) {
    var normalized := NormalizeQName(u, qname);
    || (exists d | d in route.domains :: normalized == NormalizeQName(u, d))
    || (exists s | s in route.suffixes :: MatchSuffix(u, normalized, s))
  }

  predicate Eligible(u: Unicode, req: Request, route: Route) {
    && ContainsOrEmpty(u, route.clientViews, req.clientView)
    && ContainsOrEmpty(u, route.tenants, req.tenant)
    && ContainsAll(u, route.policyTags, req.policyTags)
    && RouteMatchesName(u, route, req.qname)
  }

  function EligibleFor(u: Unicode, req: Request): Route -> bool { route => Eligible(u, req, route) }

  /** The route that the sorted list `routes` gives a request. */
  function Selected(u: Unicode, routes: seq<Route>, req: Request): Option<Route> {
    First(routes, EligibleFor(u, req))
  }

  // -------------------------------------------------------------- the cache key

  function NormalizeQType(t: Tables, qtype: string): string { t.upper(TrimSpace(qtype)) }

  /** The request as Resolve passes it on. */
  function Normalized(t: Tables, req: Request): Request {
    req.(qname := NormalizeQName(t.unicode, req.qname), qtype := NormalizeQType(t, req.qtype))
  }

  function KeyFields(t: Tables, req: Request): seq<string> {
    [NormalizeQName(t.unicode, req.qname), NormalizeQType(t, req.qtype),
     RouteValue(t.unicode, req.tenant), RouteValue(t.unicode, req.clientView),
     Join(Sort(Values(t.unicode, req.policyTags)), ",")]
  }

  function CacheKey(t: Tables, req: Request): string { Join(KeyFields(t, req), "|") }

  /** No field contains a separator and no tag is blank. */
  predicate Separable(t: Tables, req: Request) {
    && (forall f | f in KeyFields(t, req) :: '|' !in f)
    && (forall v | v in Values(t.unicode, req.policyTags) :: v != "" && ',' !in v)
  }

  lemma SameTags(a: seq<string>, b: seq<string>)
    requires forall v | v in a :: v != "" && ',' !in v
    requires forall v | v in b :: v != "" && ',' !in v
    ensures Join(Sort(a), ",") == Join(Sort(b), ",") <==> multiset(a) == multiset(b)
  {
    SameElements(a, Sort(a));
    SameElements(b, Sort(b));
    SortIffMultiset(a, b);
    if a != [] && b != [] {
      JoinInjective(Sort(a), Sort(b), ',');
    } else if a != [] {
      JoinedNotEmpty(Sort(a));
    } else if b != [] {
      JoinedNotEmpty(Sort(b));
    }
  }

  lemma JoinedNotEmpty(tags: seq<string>)
    requires tags != [] && forall v | v in tags :: v != ""
    ensures Join(tags, ",") != ""
  {
    assert tags[0] in tags;
  }

  /** The same question from the same place: name and type in normal form, tenant, client
      view, and the tags with their repetitions. */
  predicate SameQuestion(t: Tables, a: Request, b: Request) {
    && NormalizeQName(t.unicode, a.qname) == NormalizeQName(t.unicode, b.qname)
    && NormalizeQType(t, a.qtype) == NormalizeQType(t, b.qtype)
    && RouteValue(t.unicode, a.tenant) == RouteValue(t.unicode, b.tenant)
    && RouteValue(t.unicode, a.clientView) == RouteValue(t.unicode, b.clientView)
    && multiset(Values(t.unicode, a.policyTags)) == multiset(Values(t.unicode, b.policyTags))
  }

  lemma SameFields(t: Tables, a: Request, b: Request)
    requires Separable(t, a) && Separable(t, b)
    ensures CacheKey(t, a) == CacheKey(t, b) <==> KeyFields(t, a) == KeyFields(t, b)
  {
    JoinInjective(KeyFields(t, a), KeyFields(t, b), '|');
  }

  /** Separable requests share a key exactly when they ask the same question: the plugin
      would be asked for the same name and type. */
  lemma KeyIffSameQuestion(t: Tables, a: Request, b: Request)
    requires Separable(t, a) && Separable(t, b)
    ensures CacheKey(t, a) == CacheKey(t, b) <==> SameQuestion(t, a, b)
    ensures SameQuestion(t, a, b) ==>
      Normalized(t, a).qname == Normalized(t, b).qname && Normalized(t, a).qtype == Normalized(t, b).qtype
  {
    SameFields(t, a, b);
    SameTags(Values(t.unicode, a.policyTags), Values(t.unicode, b.policyTags));
    var fa, fb := KeyFields(t, a), KeyFields(t, b);
    assert fa == fb <==> fa[0] == fb[0] && fa[1] == fb[1] && fa[2] == fb[2] && fa[3] == fb[3] && fa[4] == fb[4];
  }

  /** What routing can tell of a request. */
  ghost predicate SameForRouting(u: Unicode, a: Request, b: Request) {
    && NormalizeQName(u, a.qname) == NormalizeQName(u, b.qname)
    && Wanted(u, a.clientView) == Wanted(u, b.clientView)
    && Wanted(u, a.tenant) == Wanted(u, b.tenant)
    && forall v :: v in Values(u, a.policyTags) <==> v in Values(u, b.policyTags)
  }

  lemma SameEligibility(u: Unicode, a: Request, b: Request, route: Route)
    requires SameForRouting(u, a, b)
    ensures Eligible(u, a, route) == Eligible(u, b, route)
  {
  }

  lemma {:induction false} SameFirst(routes: seq<Route>, e: Route -> bool, f: Route -> bool)
    requires forall i | 0 <= i < |routes| :: e(routes[i]) == f(routes[i])
    ensures First(routes, e) == First(routes, f)
  {
    if routes != [] { SameFirst(routes[1..], e, f); }
  }

  lemma SameSelection(u: Unicode, routes: seq<Route>, a: Request, b: Request)
    requires SameForRouting(u, a, b)
    ensures Selected(u, routes, a) == Selected(u, routes, b)
  {
    forall i | 0 <= i < |routes| ensures EligibleFor(u, a)(routes[i]) == EligibleFor(u, b)(routes[i]) {
      SameEligibility(u, a, b, routes[i]);
    }
    SameFirst(routes, EligibleFor(u, a), EligibleFor(u, b));
  }

  /** A value that a route can list to accept exactly the requests that want the same. */
  function Listed(u: Unicode, value: string): string { if RouteValue(u, value) == "" then "default" else value }

  /** The narrowest route that serves the request. */
  function OnlyFor(u: Unicode, req: Request): Route {
    Route("", [req.qname], [], [Listed(u, req.clientView)], [Listed(u, req.tenant)], req.policyTags, "", 0)
  }

  lemma ListedIsWanted(u: Unicode, value: string)
    requires Conforms(u)
    ensures RouteValue(u, Listed(u, value)) == Wanted(u, value)
  {
    PlainTag(u, "default");
  }

  lemma OneListed(u: Unicode, value: string, other: string)
    requires Conforms(u)
    ensures ContainsOrEmpty(u, [Listed(u, value)], other) <==> Wanted(u, value) == Wanted(u, other)
  {
    ListedIsWanted(u, value);
    assert Listed(u, value) in [Listed(u, value)];
  }

  lemma OwnTags(u: Unicode, a: seq<string>, b: seq<string>)
    ensures ContainsAll(u, a, b) <==> forall v | v in Values(u, a) :: v in Values(u, b)
  {
    forall r | r in a ensures RouteValue(u, r) in Values(u, a) {
      var i :| 0 <= i < |a| && a[i] == r;
      assert Values(u, a)[i] == RouteValue(u, r);
    }
  }

  lemma NarrowestRoute(u: Unicode, a: Request, b: Request)
    requires Conforms(u)
    ensures Eligible(u, b, OnlyFor(u, a)) <==>
      && NormalizeQName(u, a.qname) == NormalizeQName(u, b.qname)
      && Wanted(u, a.clientView) == Wanted(u, b.clientView) && Wanted(u, a.tenant) == Wanted(u, b.tenant)
      && forall v | v in Values(u, a.policyTags) :: v in Values(u, b.policyTags)
  {
    OneListed(u, a.clientView, b.clientView);
    OneListed(u, a.tenant, b.tenant);
    OwnTags(u, a.policyTags, b.policyTags);
    assert a.qname in [a.qname];
  }

  lemma SelectedOne(u: Unicode, route: Route, req: Request)
    ensures Selected(u, [route], req) == if Eligible(u, req, route) then Some(route) else None
  {
    assert [route][1..] == [];
    assert First([], EligibleFor(u, req)) == None;
    assert EligibleFor(u, req)(route) == Eligible(u, req, route);
  }

  /** Two requests get the same route from every table exactly when they agree in the
      normalised name, in the client view and the tenant with "default" for a blank one,
      and in the set of normalised tags. */
  lemma RoutingIsDetermined(u: Unicode, a: Request, b: Request)
    requires Conforms(u)
    ensures (forall routes :: Selected(u, routes, a) == Selected(u, routes, b)) <==> SameForRouting(u, a, b)
  {
    if SameForRouting(u, a, b) {
      forall routes ensures Selected(u, routes, a) == Selected(u, routes, b) { SameSelection(u, routes, a, b); }
    }
    if forall routes :: Selected(u, routes, a) == Selected(u, routes, b) {
      assert Selected(u, [OnlyFor(u, a)], a) == Selected(u, [OnlyFor(u, a)], b);
      assert Selected(u, [OnlyFor(u, b)], a) == Selected(u, [OnlyFor(u, b)], b);
      SelectedSame(u, a, b);
      SelectedSame(u, b, a);
    }
  }

  lemma SelectedSame(u: Unicode, a: Request, b: Request)
    requires Conforms(u) && Selected(u, [OnlyFor(u, a)], a) == Selected(u, [OnlyFor(u, a)], b)
    ensures Eligible(u, b, OnlyFor(u, a))
    ensures NormalizeQName(u, a.qname) == NormalizeQName(u, b.qname)
    ensures Wanted(u, a.clientView) == Wanted(u, b.clientView) && Wanted(u, a.tenant) == Wanted(u, b.tenant)
    ensures forall v | v in Values(u, a.policyTags) :: v in Values(u, b.policyTags)
  {
    NarrowestRoute(u, a, a);
    NarrowestRoute(u, a, b);
    SelectedOne(u, OnlyFor(u, a), a);
    SelectedOne(u, OnlyFor(u, a), b);
  }

  /** For separable requests the key determines the route. */
  lemma KeyDeterminesRoute(t: Tables, routes: seq<Route>, a: Request, b: Request)
    requires Separable(t, a) && Separable(t, b) && CacheKey(t, a) == CacheKey(t, b)
    ensures Selected(t.unicode, routes, a) == Selected(t.unicode, routes, b)
  {
    KeyIffSameQuestion(t, a, b);
    SameElements(Values(t.unicode, a.policyTags), Values(t.unicode, b.policyTags));
    SameSelection(t.unicode, routes, a, b);
  }

  /** In general a shared key is wrong for some table exactly when the requests differ in
      one of the four things that routing looks at. */
  lemma KeyConfusesIff(t: Tables, a: Request, b: Request)
    requires Conforms(t.unicode) && CacheKey(t, a) == CacheKey(t, b)
    ensures (exists routes :: Selected(t.unicode, routes, a) != Selected(t.unicode, routes, b))
        <==> !SameForRouting(t.unicode, a, b)
    ensures Separable(t, a) && Separable(t, b) ==> SameForRouting(t.unicode, a, b)
  {
    RoutingIsDetermined(t.unicode, a, b);
    assert (exists routes :: Selected(t.unicode, routes, a) != Selected(t.unicode, routes, b))
        <==> !forall routes :: Selected(t.unicode, routes, a) == Selected(t.unicode, routes, b);
    if Separable(t, a) && Separable(t, b) {
      forall routes ensures Selected(t.unicode, routes, a) == Selected(t.unicode, routes, b) {
        KeyDeterminesRoute(t, routes, a, b);
      }
    }
  }

  /** With a comma inside a tag the key no longer does: one tag "a,b" and the two tags "a"
      and "b" share a key, but only the latter get a route that requires "a". */
  lemma CommaInTagConfusesRoutes(t: Tables, req: Request)
    requires Conforms(t.unicode)
    ensures var one, two := req.(policyTags := ["a,b"]), req.(policyTags := ["a", "b"]);
      var table := [OnlyFor(t.unicode, req.(policyTags := ["a"]))];
      && CacheKey(t, one) == CacheKey(t, two)
      && Selected(t.unicode, table, one) == None && Selected(t.unicode, table, two) == Some(table[0])
  {
    var u, one, two := t.unicode, req.(policyTags := ["a,b"]), req.(policyTags := ["a", "b"]);
    var route := OnlyFor(u, req.(policyTags := ["a"]));
    TagValues(u);
    JoinedTags(u);
    assert KeyFields(t, one) == KeyFields(t, two);
    RequiresTag(u, req, one.policyTags);
    RequiresTag(u, req, two.policyTags);
    SelectedOne(u, route, one);
    SelectedOne(u, route, two);
  }

  lemma RequiresTag(u: Unicode, req: Request, tags: seq<string>)
    requires Conforms(u)
    ensures Eligible(u, req.(policyTags := tags), OnlyFor(u, req.(policyTags := ["a"])))
        <==> ContainsAll(u, ["a"], tags)
  {
    NarrowestRoute(u, req.(policyTags := ["a"]), req.(policyTags := tags));
    OwnTags(u, ["a"], tags);
  }

  lemma TagValues(u: Unicode)
    requires Conforms(u)
    ensures Values(u, ["a,b"]) == ["a,b"] && Values(u, ["a", "b"]) == ["a", "b"]
    ensures !ContainsAll(u, ["a"], ["a,b"]) && ContainsAll(u, ["a"], ["a", "b"])
  {
    PlainTag(u, "a");
    PlainTag(u, "b");
    PlainTag(u, "a,b");
    assert Values(u, ["a,b"]) == ["a,b"];
    assert Values(u, ["a", "b"]) == ["a", "b"];
    assert "a" in ["a", "b"] && "a" !in ["a,b"];
    assert ["a"][0] in ["a"];
  }

  lemma JoinedTags(u: Unicode)
    requires Values(u, ["a,b"]) == ["a,b"] && Values(u, ["a", "b"]) == ["a", "b"]
    ensures Join(Sort(Values(u, ["a,b"])), ",") == Join(Sort(Values(u, ["a", "b"])), ",")
  {
    SortOne("a,b");
    SortTwo();
    JoinTwo();
    assert Join(["a,b"], ",") == "a,b";
  }

  lemma JoinTwo()
    ensures Join(["a", "b"], ",") == "a,b"
  {
    assert ["a", "b"][1..] == ["b"];
    assert "a" + "," + "b" == "a,b";
  }

  lemma PlainTag(u: Unicode, tag: string)
    requires Conforms(u) && tag != "" && forall c | c in tag :: 'a' <= c <= 'z' || c == ','
    ensures RouteValue(u, tag) == tag
  {
    assert tag[0] in tag && tag[|tag| - 1] in tag;
    TrimSpaceFixed(tag);
    forall i | 0 <= i < |tag| ensures u.lower(tag[i]) == tag[i] { assert tag[i] in tag; }
  }

  lemma SortOne(s: string)
    ensures Sort([s]) == [s]
  {
    assert [s][1..] == [];
  }

  lemma SortTwo()
    ensures Sort(["a", "b"]) == ["a", "b"]
  {
    assert ["a", "b"][1..] == ["b"];
    SortOne("b");
    assert AtMost("a", "b");
    assert ["a"] + ["b"] == ["a", "b"];
  }
}

module RouteCache {
  import opened Outcomes
  import opened Text
  import opened DnsName
  import opened Routes

  const SECOND := 1_000_000_000

  // ------------------------------------------------------------------ the cache

  datatype Entry<+R> = Entry(result: R, expiresAt: int)

  type Cache<R> = map<string, map<string, Entry<R>>>

  function Lookup<R>(cache: Cache<R>, plugin: string, key: string, now: int): Option<R> {
    if plugin in cache && key in cache[plugin] && now <= cache[plugin][key].expiresAt
    then Some(cache[plugin][key].result)
    else None
  }

  function Put<R>(cache: Cache<R>, plugin: string, key: string, result: R, ttl: int, at: int): Cache<R> {
    if ttl <= 0 then cache
    else
      var entries := if plugin in cache then cache[plugin] else map[];
      cache[plugin := entries[key := Entry(result, at + ttl * SECOND)]]
  }

  // ------------------------------------------------------------- whole runs

  /** A successful answer of a plugin, and the time at which it is stored. */
  datatype Success<+R> = Success(result: R, ttl: int, at: int)

  /** A request that reaches the cache at `now`, with what the plugin answers if it is
      asked; or a flush. */
  datatype Op<+R> =
    | Asked(plugin: string, request: Request, key: string, now: int, outcome: Option<Success<R>>)
    | Flushed

  function Apply<R>(cache: Cache<R>, op: Op<R>): Cache<R> {
    match op
    case Flushed => map[]
    case Asked(plugin, _, key, now, outcome) =>
      if Lookup(cache, plugin, key, now).Some? || outcome.None? then cache
      else Put(cache, plugin, key, outcome.value.result, outcome.value.ttl, outcome.value.at)
  }

  function CacheAfter<R>(ops: seq<Op<R>>): Cache<R> {
    if ops == [] then map[] else Apply(CacheAfter(ops[..|ops| - 1]), ops[|ops| - 1])
  }

  /** The clock of a sequential run never falls, and ends no later than `until`. */
  ghost predicate Timed<R>(ops: seq<Op<R>>, until: int) {
    if ops == [] then true
    else
      match ops[|ops| - 1]
      case Flushed => Timed(ops[..|ops| - 1], until)
      case Asked(_, _, _, now, outcome) =>
        && now <= until
        && (outcome.Some? ==> now <= outcome.value.at <= until)
        && Timed(ops[..|ops| - 1], now)
  }

  /** The latest successful call of the plugin for the key since the last flush; a
      request that the cache answers is no call. */
  function LatestCall<R>(ops: seq<Op<R>>, plugin: string, key: string): Option<Success<R>> {
    if ops == [] then None
    else
      var front, op := ops[..|ops| - 1], ops[|ops| - 1];
      if op.Flushed? then None
      else if op.plugin == plugin && op.key == key && op.outcome.Some?
           && Lookup(CacheAfter(front), plugin, key, op.now).None?
      then op.outcome
      else LatestCall(front, plugin, key)
  }

  lemma {:induction false} TimedLater<R>(ops: seq<Op<R>>, early: int, late: int)
    requires Timed(ops, early) && early <= late
    ensures Timed(ops, late)
  {
    if ops != [] && ops[|ops| - 1].Flushed? { TimedLater(ops[..|ops| - 1], early, late); }
  }

  lemma PutAnswers<R>(cache: Cache<R>, plugin: string, key: string, s: Success<R>, p: string, k: string, now: int)
    ensures Lookup(Put(cache, plugin, key, s.result, s.ttl, s.at), p, k, now)
         == if s.ttl > 0 && p == plugin && k == key
            then (if now <= s.at + s.ttl * SECOND then Some(s.result) else None)
            else Lookup(cache, p, k, now)
  {
  }

  /** A call answers later requests for TTL seconds, and not at all when its TTL is not positive. */
  function StillFresh<R>(call: Option<Success<R>>, now: int): Option<R> {
    match call
    case None => None
    case Some(s) => if s.ttl > 0 && now <= s.at + s.ttl * SECOND then Some(s.result) else None
  }

  lemma CacheGrows<R>(ops: seq<Op<R>>, op: Op<R>)
    ensures CacheAfter(ops + [op]) == Apply(CacheAfter(ops), op)
  {
    assert (ops + [op])[..|ops|] == ops;
  }

  /** What the cache answers is exactly the latest successful call of the same plugin for
      the same key since the last flush, as long as it is fresh. */
  lemma {:induction false} CacheIsLatestCall<R>(ops: seq<Op<R>>, plugin: string, key: string, now: int)
    requires Timed(ops, now)
    ensures Lookup(CacheAfter(ops), plugin, key, now) == StillFresh(LatestCall(ops, plugin, key), now)
  {
    if ops != [] {
      var front, op := ops[..|ops| - 1], ops[|ops| - 1];
      match op {
        case Flushed =>
        case Asked(p, _, k, at, outcome) =>
          TimedLater(front, at, now);
          CacheIsLatestCall(front, plugin, key, now);
          if outcome.Some? {
            CacheIsLatestCall(front, plugin, key, at);
            PutAnswers(CacheAfter(front), p, k, outcome.value, plugin, key, now);
          }
      }
    }
  }

  /** Every request of the run is filed under its own key, and its key can be taken apart. */
  ghost predicate Keyed<R>(t: Tables, ops: seq<Op<R>>) {
    forall op | op in ops && op.Asked? :: op.key == CacheKey(t, op.request)
  }

  ghost predicate AllSeparable<R>(t: Tables, ops: seq<Op<R>>) {
    forall op | op in ops && op.Asked? :: Separable(t, op.request)
  }

  /** The latest answer that the plugin has given to the same question since the last flush;
      it is asked only while it has no fresh answer. */
  function LatestAnswer<R>(t: Tables, ops: seq<Op<R>>, plugin: string, req: Request): Option<Success<R>> {
    if ops == [] then None
    else
      var front, op := ops[..|ops| - 1], ops[|ops| - 1];
      if op.Flushed? then None
      else if op.plugin == plugin && SameQuestion(t, op.request, req) && op.outcome.Some?
           && StillFresh(LatestAnswer(t, front, plugin, op.request), op.now).None?
      then op.outcome
      else LatestAnswer(t, front, plugin, req)
  }

  lemma LastAgrees<R>(t: Tables, ops: seq<Op<R>>, plugin: string, req: Request, key: string)
    requires ops != [] && ops[|ops| - 1].Asked?
    requires var front, op := ops[..|ops| - 1], ops[|ops| - 1];
      && LatestCall(front, plugin, key) == LatestAnswer(t, front, plugin, req)
      && (op.key == key <==> SameQuestion(t, op.request, req))
      && (op.plugin == plugin && op.key == key ==>
            Lookup(CacheAfter(front), plugin, key, op.now)
              == StillFresh(LatestAnswer(t, front, plugin, op.request), op.now))
    ensures LatestCall(ops, plugin, key) == LatestAnswer(t, ops, plugin, req)
  {
  }

  lemma {:induction false} CallIsAnswer<R>(t: Tables, ops: seq<Op<R>>, plugin: string, req: Request, key: string,
                                           now: int)
    requires Keyed(t, ops) && AllSeparable(t, ops) && Separable(t, req) && key == CacheKey(t, req) && Timed(ops, now)
    ensures LatestCall(ops, plugin, key) == LatestAnswer(t, ops, plugin, req)
  {
    if ops != [] && ops[|ops| - 1].Asked? {
      var front, op := ops[..|ops| - 1], ops[|ops| - 1];
      FrontOf(t, ops, now);
      CallIsAnswer(t, front, plugin, req, key, now);
      KeyIffSameQuestion(t, op.request, req);
      if op.plugin == plugin && op.key == key {
        CallIsAnswer(t, front, plugin, op.request, key, op.now);
        CacheIsLatestCall(front, plugin, key, op.now);
      }
      LastAgrees(t, ops, plugin, req, key);
    }
  }

  lemma FrontOf<R>(t: Tables, ops: seq<Op<R>>, now: int)
    requires ops != [] && ops[|ops| - 1].Asked? && Keyed(t, ops) && AllSeparable(t, ops) && Timed(ops, now)
    ensures var front, op := ops[..|ops| - 1], ops[|ops| - 1];
      && Keyed(t, front) && AllSeparable(t, front) && Timed(front, op.now) && Timed(front, now)
      && op.key == CacheKey(t, op.request) && Separable(t, op.request)
  {
    var front, op := ops[..|ops| - 1], ops[|ops| - 1];
    assert op in ops && forall x | x in front :: x in ops;
    TimedLater(front, op.now, now);
  }

  /** What the cache answers to a request is the latest answer of that plugin to the same
      question, as long as it is fresh. */
  lemma CacheIsLatestAnswer<R>(t: Tables, ops: seq<Op<R>>, plugin: string, req: Request, now: int)
    requires Keyed(t, ops) && AllSeparable(t, ops) && Separable(t, req) && Timed(ops, now)
    ensures Lookup(CacheAfter(ops), plugin, CacheKey(t, req), now) == StillFresh(LatestAnswer(t, ops, plugin, req), now)
  {
    CallIsAnswer(t, ops, plugin, req, CacheKey(t, req), now);
    CacheIsLatestCall(ops, plugin, CacheKey(t, req), now);
  }

  // ------------------------------------------------------------------ the class

  /** The audit metadata of an answer, a Go map. */
  class Metadata {
    var entries: map<string, string>

    constructor (entries: map<string, string>)
      ensures this.entries == entries
    {
      this.entries := entries;
    }
  }

  datatype Answer = Answer(rcode: string, source: string, ttl: int, records: seq<string>,
                           audit: Metadata?, latency: int)

  datatype RouteError = NoRoute | PluginDisabled | PluginFailed

  /** Resolve's result; the route is missing when none was found. */
  datatype Resolved = Resolved(answer: Answer, route: Option<Route>, error: Option<RouteError>)

  function AsSuccess(outcome: Option<Answer>, at: int): Option<Success<Answer>> {
    if outcome.None? then None else Some(Success(outcome.value, outcome.value.ttl, at))
  }

  class Registry {
    const tables: Tables
    const routes: seq<Route>
    /** The registered plugins and whether they are enabled. */
    var enabled: map<string, bool>
    var cache: Cache<Answer>
    /** The routes as configured, and what has reached the cache so far. */
    ghost const configured: seq<Route>
    ghost var log: seq<Op<Answer>>

    ghost predicate Valid()
      reads this
    {
      routes == StableSort(configured) && cache == CacheAfter(log) && Keyed(tables, log)
    }

    constructor (tables: Tables, configured: seq<Route>, plugins: map<string, bool>)
      ensures Valid() && log == []
      ensures this.tables == tables && this.configured == configured && enabled == plugins
    {
      this.tables := tables;
      routes := StableSort(configured);
      enabled := plugins;
      cache := map[];
      this.configured := configured;
      log := [];
    }

    /** The loop over the sorted routes finds the best configured one. */
    method Match(req: Request) returns (route: Option<Route>, found: bool)
      requires Valid()
      ensures route == Selected(tables.unicode, routes, req)
      ensures Best(configured, EligibleFor(tables.unicode, req), route)
      ensures found == (route.Some? && route.value.plugin in enabled)
    {
      ghost var eligible := EligibleFor(tables.unicode, req);
      FirstOfSortedIsBest(configured, eligible);
      for i := 0 to |routes|
        invariant First(routes, eligible) == First(routes[i..], eligible)
      {
        assert routes[i..][1..] == routes[i + 1..];
        if Eligible(tables.unicode, req, routes[i]) {
          return Some(routes[i]), routes[i].plugin in enabled;
        }
      }
      return None, false;
    }

    /** Nothing stored before is served again. */
    method FlushCache()
      requires Valid()
      modifies this`cache, this`log
      ensures Valid() && log == old(log) + [Flushed]
      ensures forall plugin, key, now :: Lookup(cache, plugin, key, now) == None
    {
      CacheGrows(log, Flushed);
      cache := map[];
      log := log + [Flushed];
    }

    method SetPluginEnabled(name: string, on: bool) returns (known: bool)
      modifies this`enabled
      ensures known == (name in old(enabled))
      ensures enabled == if known then old(enabled)[name := on] else old(enabled)
    {
      known := name in enabled;
      if known {
        enabled := enabled[name := on];
      }
    }

    /** Resolve at the time `now`.  If the plugin is asked it answers `outcome`, which is
        stored at the time `at`.  Only the cache of the registry changes, and no metadata
        object that existed before. */
    method Resolve(req: Request, now: int, outcome: Option<Answer>, at: int, latency: int) returns (r: Resolved)
      requires Valid()
      modifies this`cache, this`log
      ensures Valid()
      ensures var asked := Normalized(tables, req);
        var route := Selected(tables.unicode, routes, asked);
        if route.None? || route.value.plugin !in enabled then
          && r == Resolved(Answer("NXDOMAIN", "router", 30, [], null, latency), None, Some(NoRoute))
          && log == old(log)
        else
          var plugin, key := route.value.plugin, CacheKey(tables, asked);
          && r.route == route
          && (!enabled[plugin] ==>
                && r.error == Some(PluginDisabled) && r.answer == Answer("SERVFAIL", plugin, 5, [], null, latency)
                && log == old(log))
          && (enabled[plugin] ==>
                && r.error == (if Lookup(old(cache), plugin, key, now).None? && outcome.None?
                               then Some(PluginFailed) else None)
                && Served(old(cache), plugin, key, now, outcome, latency, r.answer)
                && log == old(log) + [Asked(plugin, asked, key, now, AsSuccess(outcome, at))])
    {
      var normalized := Normalized(tables, req);
      var route, ok := Match(normalized);
      if !ok {
        return Resolved(Answer("NXDOMAIN", "router", 30, [], null, latency), None, Some(NoRoute));
      }
      var plugin := route.value.plugin;
      if !enabled[plugin] {
        return Resolved(Answer("SERVFAIL", plugin, 5, [], null, latency), route, Some(PluginDisabled));
      }
      var answer, failed := Consult(plugin, normalized, CacheKey(tables, normalized), now, outcome, at, latency);
      return Resolved(answer, route, if failed then Some(PluginFailed) else None);
    }

    /** What an enabled plugin's request is answered: a hit with metadata of its own, the
        failure, or the plugin's answer. */
    twostate predicate Served(cache: Cache<Answer>, plugin: string, key: string, now: int, outcome: Option<Answer>,
                              latency: int, new answer: Answer)
      reads if answer.audit == null then {} else {answer.audit}
    {
      match Lookup(cache, plugin, key, now)
      case Some(stored) =>
        && answer.audit != null && fresh(answer.audit)
        && answer.audit.entries
           == (if stored.audit == null then map[] else old(stored.audit.entries))["cache_hit" := "true"]
        && answer == stored.(audit := answer.audit, latency := latency)
      case None =>
        answer == if outcome.None? then Answer("SERVFAIL", plugin, 5, [], null, latency) else outcome.value
    }

    /** The part of Resolve behind the route: the cache, or else the plugin. */
    method Consult(plugin: string, req: Request, key: string, now: int, outcome: Option<Answer>, at: int,
                   latency: int)
      returns (answer: Answer, failed: bool)
      requires Valid() && key == CacheKey(tables, req)
      modifies this`cache, this`log
      ensures Valid() && log == old(log) + [Asked(plugin, req, key, now, AsSuccess(outcome, at))]
      ensures failed <==> Lookup(old(cache), plugin, key, now).None? && outcome.None?
      ensures Served(old(cache), plugin, key, now, outcome, latency, answer)
    {
      ghost var op := Asked(plugin, req, key, now, AsSuccess(outcome, at));
      CacheGrows(log, op);
      log := log + [op];
      var cached := GetCached(plugin, key, now);
      if cached.Some? {
        var audit := CloneMap(cached.value.audit);
        audit.entries := audit.entries["cache_hit" := "true"];
        return cached.value.(audit := audit, latency := latency), false;
      }
      if outcome.None? {
        return Answer("SERVFAIL", plugin, 5, [], null, latency), true;
      }
      SetCached(plugin, key, outcome.value, at);
      return outcome.value, false;
    }

    method GetCached(plugin: string, key: string, now: int) returns (r: Option<Answer>)
      ensures r == Lookup(cache, plugin, key, now)
    {
      if plugin !in cache || key !in cache[plugin] || now > cache[plugin][key].expiresAt {
        return None;
      }
      r := Some(cache[plugin][key].result);
    }

    /** In a sequential run of separable requests a hit is the latest answer of that plugin
        to the same question: name, type, tenant, client view and tags. */
    lemma HitIsLatestCall(plugin: string, req: Request, now: int)
      requires Valid() && Timed(log, now) && AllSeparable(tables, log) && Separable(tables, req)
      ensures Lookup(cache, plugin, CacheKey(tables, req), now)
           == StillFresh(LatestAnswer(tables, log, plugin, req), now)
    {
      CacheIsLatestAnswer(tables, log, plugin, req, now);
    }

    method SetCached(plugin: string, key: string, result: Answer, at: int)
      modifies this`cache
      ensures cache == Put(old(cache), plugin, key, result, result.ttl, at)
    {
      if result.ttl <= 0 {
        return;
      }
      var entries := if plugin in cache then cache[plugin] else map[];
      entries := entries[key := Entry(result, at + result.ttl * SECOND)];
      cache := cache[plugin := entries];
    }
  }

  method CloneMap(source: Metadata?) returns (copy: Metadata)
    ensures fresh(copy) && copy.entries == if source == null then map[] else source.entries
  {
    if source == null {
      copy := new Metadata(map[]);
    } else {
      copy := new Metadata(source.entries);
    }
  }
}
