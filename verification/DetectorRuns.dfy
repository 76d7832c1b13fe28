// The verdicts of the detectors (internal/security/analyzer.go:265-322) over whole runs:
// for subdomains, of queries as they arrive, a client and the text of a name.

module DetectorRuns {
  import opened Outcomes
  import opened Text
  import opened Detectors

  datatype Ask = Ask(clientIp: string, qname: string, now: int)

  /** The maps after a run of tracked calls. */
  function SeenAsked(asks: seq<Ask>, window: int): map<string, map<string, int>> {
    if asks == [] then map[]
    else
      var before, a := SeenAsked(asks[..|asks| - 1], window), asks[|asks| - 1];
      match PartsOf(a.qname)
      case None => before
      case Some(parts) => Noted(before, a.clientIp, parts, window, a.now)
  }

  /** The verdict of a call after the run. */
  function Verdict(asks: seq<Ask>, a: Ask, window: int, threshold: int): bool {
    match PartsOf(a.qname)
    case None => false
    case Some(parts) =>
      |NamesAt(SeenAsked(asks + [a], window), SubdomainKey(a.clientIp, parts.base))| >= threshold
  }

  /** A call on maps left by the run leaves those of the longer run and answers its verdict. */
  lemma CallContinuesRun(asks: seq<Ask>, a: Ask, window: int, threshold: int, seen: map<string, map<string, int>>,
                         hit: bool)
    requires if PartsOf(a.qname).None? then !hit && seen == SeenAsked(asks, window)
             else
               && seen == Noted(SeenAsked(asks, window), a.clientIp, PartsOf(a.qname).value, window, a.now)
               && hit == (|NamesAt(seen, SubdomainKey(a.clientIp, PartsOf(a.qname).value.base))| >= threshold)
    ensures seen == SeenAsked(asks + [a], window) && hit == Verdict(asks, a, window, threshold)
  {
    assert (asks + [a])[..|asks|] == asks;
  }

  // ------------------------------------------------------------ names and labels

  /** The text is these labels with dots between them, with or without a final dot. */
  ghost predicate Named(qname: string, labels: seq<string>) {
    && labels != [] && (forall s | s in labels :: '.' !in s)
    && (qname == Join(labels, ".") + "." || (qname == Join(labels, ".") && !HasSuffix(qname, ".")))
  }

  lemma LabelsOfNamed(qname: string, labels: seq<string>)
    requires Named(qname, labels)
    ensures Split(TrimSuffix(qname, "."), '.') == labels
  {
    SplitJoin(labels, '.');
    if qname == Join(labels, ".") + "." {
      assert TrimSuffix(qname, ".") == Join(labels, ".");
    }
  }

  /** Every text is some such name. */
  lemma EveryNameIsNamed(qname: string) returns (labels: seq<string>)
    ensures Named(qname, labels)
  {
    var text := TrimSuffix(qname, ".");
    labels := Split(text, '.');
    SplitParts(text, '.');
    JoinSplit(text, '.');
    if HasSuffix(qname, ".") { assert qname == text + "."; }
  }

  function Base(labels: seq<string>): seq<string>
    requires |labels| >= 2
  {
    labels[|labels| - 2..]
  }

  function Front(labels: seq<string>): seq<string>
    requires |labels| >= 2
  {
    labels[..|labels| - 2]
  }

  lemma PartsOfNamed(qname: string, labels: seq<string>)
    requires Named(qname, labels)
    ensures PartsOf(qname) == if |labels| < 3 then None
                              else Some(Parts(Join(Base(labels), "."), Join(Front(labels), ".")))
  {
    LabelsOfNamed(qname, labels);
  }

  // ------------------------------------------------------- runs of raw queries

  function QueryOf(a: Ask): seq<Query> {
    match PartsOf(a.qname)
    case None => []
    case Some(parts) => [Query(a.clientIp, parts.base, parts.subdomain, a.now)]
  }

  /** The tracked queries of a run, cut into base and subdomain. */
  function Queries(asks: seq<Ask>): seq<Query> {
    if asks == [] then [] else Queries(asks[..|asks| - 1]) + QueryOf(asks[|asks| - 1])
  }

  lemma QueriesSnoc(asks: seq<Ask>, a: Ask)
    ensures Queries(asks + [a]) == Queries(asks) + QueryOf(a)
  {
    assert (asks + [a])[..|asks|] == asks;
  }

  lemma {:induction false} SeenAskedIs(asks: seq<Ask>, window: int)
    ensures SeenAsked(asks, window) == SeenAfter(Queries(asks), window)
  {
    if asks != [] {
      var front, a := asks[..|asks| - 1], asks[|asks| - 1];
      SeenAskedIs(front, window);
      if PartsOf(a.qname).Some? {
        var q := Query(a.clientIp, PartsOf(a.qname).value.base, PartsOf(a.qname).value.subdomain, a.now);
        assert (Queries(front) + [q])[..|Queries(front)|] == Queries(front);
      } else {
        assert Queries(front) + [] == Queries(front);
      }
    }
  }

  ghost predicate InOrder(asks: seq<Ask>) {
    forall i, j | 0 <= i < j < |asks| :: asks[i].now <= asks[j].now
  }

  lemma {:induction false} QueriesInOrder(asks: seq<Ask>)
    requires InOrder(asks)
    ensures Nondecreasing(QueryTimes(Queries(asks)))
    ensures forall q | q in Queries(asks) :: asks != [] && q.now <= asks[|asks| - 1].now
  {
    if asks != [] {
      var n := |asks| - 1;
      var front := asks[..n];
      QueriesInOrder(front);
      assert front != [] ==> asks[n - 1].now <= asks[n].now;
      var before, more := Queries(front), QueryOf(asks[n]);
      var times := QueryTimes(before + more);
      forall i, j | 0 <= i < j < |times| ensures times[i] <= times[j] {
        if j < |before| {
          assert times[i] == QueryTimes(before)[i] && times[j] == QueryTimes(before)[j];
        } else {
          assert before[i] in before;
        }
      }
    }
  }

  /** The queries that the key of `client` and `base` counts. */
  ghost predicate CountedAsk(a: Ask, labels: seq<string>, client: string, base: seq<string>) {
    && |labels| >= 3
    && Counted(Query(a.clientIp, Join(Base(labels), "."), Join(Front(labels), "."), a.now), client, Join(base, "."))
  }

  ghost function Fronts(asks: seq<Ask>, names: seq<seq<string>>, client: string, base: seq<string>, cutoff: int)
    : set<seq<string>>
    requires |asks| == |names|
  {
    set i | 0 <= i < |asks| && CountedAsk(asks[i], names[i], client, base) && asks[i].now > cutoff :: Front(names[i])
  }

  ghost predicate AllNamed(asks: seq<Ask>, names: seq<seq<string>>) {
    |asks| == |names| && forall i {:trigger names[i]} | 0 <= i < |asks| :: Named(asks[i].qname, names[i])
  }

  function Joined(fronts: set<seq<string>>): set<string> { set f | f in fronts :: Join(f, ".") }

  lemma {:induction false} DistinctFronts(asks: seq<Ask>, names: seq<seq<string>>, client: string, base: seq<string>,
                                          cutoff: int)
    requires AllNamed(asks, names)
    ensures Distinct(Queries(asks), SubdomainKey(client, Join(base, ".")), cutoff)
         == Joined(Fronts(asks, names, client, base, cutoff))
  {
    if asks != [] {
      var n := |asks| - 1;
      var front, labels := asks[..n], names[..n];
      FrontNamed(asks, names);
      DistinctFronts(front, labels, client, base, cutoff);
      PartsOfNamed(asks[n].qname, names[n]);
      LastFront(front, labels, asks[n], names[n], client, base, cutoff);
    }
  }

  lemma FrontNamed(asks: seq<Ask>, names: seq<seq<string>>)
    requires AllNamed(asks, names) && asks != []
    ensures var n := |asks| - 1;
      && AllNamed(asks[..n], names[..n]) && Named(asks[n].qname, names[n])
      && asks == asks[..n] + [asks[n]] && names == names[..n] + [names[n]]
  {
    var n := |asks| - 1;
    forall i | 0 <= i < n ensures Named(asks[..n][i].qname, names[..n][i]) { assert Named(asks[i].qname, names[i]); }
    assert Named(asks[n].qname, names[n]);
  }

  lemma LastFront(asks: seq<Ask>, names: seq<seq<string>>, a: Ask, name: seq<string>, client: string,
                  base: seq<string>, cutoff: int)
    requires |asks| == |names|
    requires PartsOf(a.qname) == if |name| < 3 then None
                                 else Some(Parts(Join(Base(name), "."), Join(Front(name), ".")))
    requires Distinct(Queries(asks), SubdomainKey(client, Join(base, ".")), cutoff)
          == Joined(Fronts(asks, names, client, base, cutoff))
    ensures Distinct(Queries(asks + [a]), SubdomainKey(client, Join(base, ".")), cutoff)
         == Joined(Fronts(asks + [a], names + [name], client, base, cutoff))
  {
    QueriesSnoc(asks, a);
    DistinctMore(Queries(asks), QueryOf(a), SubdomainKey(client, Join(base, ".")), cutoff);
    FrontsSnoc(asks, names, a, name, client, base, cutoff);
    JoinedMore(Fronts(asks, names, client, base, cutoff), name);
    LastCounts(a, name, client, base);
  }

  lemma JoinedMore(fronts: set<seq<string>>, name: seq<string>)
    ensures Joined(fronts + {}) == Joined(fronts)
    ensures |name| >= 2 ==> Joined(fronts + {Front(name)}) == Joined(fronts) + {Join(Front(name), ".")}
  {
    assert fronts + {} == fronts;
  }

  lemma LastCounts(a: Ask, name: seq<string>, client: string, base: seq<string>)
    requires PartsOf(a.qname) == if |name| < 3 then None
                                 else Some(Parts(Join(Base(name), "."), Join(Front(name), ".")))
    ensures CountedAsk(a, name, client, base) <==>
      QueryOf(a) != [] && KeyOf(QueryOf(a)[0]) == SubdomainKey(client, Join(base, "."))
    ensures |name| >= 3 ==> QueryOf(a)[0].subdomain == Join(Front(name), ".") && QueryOf(a)[0].now == a.now
  {
    if |name| >= 3 { KeysCollideIff(a.clientIp, Join(Base(name), "."), client, Join(base, ".")); }
  }

  lemma DistinctMore(queries: seq<Query>, more: seq<Query>, key: string, cutoff: int)
    requires |more| <= 1
    ensures Distinct(queries + more, key, cutoff) == Distinct(queries, key, cutoff) +
            if more != [] && KeyOf(more[0]) == key && more[0].now > cutoff then {more[0].subdomain} else {}
  {
    var all := queries + more;
    forall s ensures s in Distinct(all, key, cutoff) <==>
        s in Distinct(queries, key, cutoff)
        || (more != [] && KeyOf(more[0]) == key && more[0].now > cutoff && s == more[0].subdomain)
    {
      if s in Distinct(queries, key, cutoff) {
        var i :| 0 <= i < |queries| && KeyOf(queries[i]) == key && queries[i].now > cutoff && s == queries[i].subdomain;
        assert all[i] == queries[i];
      }
      if more != [] { assert all[|queries|] == more[0]; }
    }
  }

  lemma FrontsSnoc(asks: seq<Ask>, names: seq<seq<string>>, a: Ask, name: seq<string>, client: string,
                   base: seq<string>, cutoff: int)
    requires |asks| == |names|
    ensures Fronts(asks + [a], names + [name], client, base, cutoff) == Fronts(asks, names, client, base, cutoff) +
            if CountedAsk(a, name, client, base) && a.now > cutoff then {Front(name)} else {}
  {
    var all, allNames := asks + [a], names + [name];
    forall f ensures f in Fronts(all, allNames, client, base, cutoff) <==>
        f in Fronts(asks, names, client, base, cutoff)
        || (CountedAsk(a, name, client, base) && a.now > cutoff && f == Front(name))
    {
      if f in Fronts(asks, names, client, base, cutoff) {
        var i :| 0 <= i < |asks| && CountedAsk(asks[i], names[i], client, base) && asks[i].now > cutoff
              && f == Front(names[i]);
        assert all[i] == asks[i] && allNames[i] == names[i];
      }
      assert all[|asks|] == a && allNames[|asks|] == name;
    }
  }

  predicate Dotless(labels: seq<string>) { labels != [] && forall s | s in labels :: '.' !in s }

  /** Joining keeps different label lists apart. */
  lemma {:induction false} JoinedCount(fronts: set<seq<string>>)
    requires forall f | f in fronts :: Dotless(f)
    ensures |Joined(fronts)| == |fronts|
  {
    if fronts == {} {
      assert Joined(fronts) == {};
    } else {
      var f :| f in fronts;
      var rest := fronts - {f};
      JoinedCount(rest);
      assert Joined(fronts) == Joined(rest) + {Join(f, ".")};
      if Join(f, ".") in Joined(rest) {
        var g :| g in rest && Join(g, ".") == Join(f, ".");
        JoinInjective(f, g, '.');
      }
    }
  }

  lemma FrontsDotless(asks: seq<Ask>, names: seq<seq<string>>, client: string, base: seq<string>, cutoff: int)
    requires AllNamed(asks, names)
    ensures forall f | f in Fronts(asks, names, client, base, cutoff) :: Dotless(f)
  {
    forall f | f in Fronts(asks, names, client, base, cutoff) ensures Dotless(f) {
      var i :| 0 <= i < |asks| && CountedAsk(asks[i], names[i], client, base) && asks[i].now > cutoff
            && f == Front(names[i]);
      assert Named(asks[i].qname, names[i]);
    }
  }

  // ---------------------------------------------------------------- the verdict

  /** The verdict on a name of at least three labels is whether the different fronts asked
      for under the key of its client and its last two labels, strictly inside the window and
      with this query, reach the threshold.  A shorter name never counts. */
  lemma VerdictCountsFronts(asks: seq<Ask>, names: seq<seq<string>>, a: Ask, name: seq<string>, window: int,
                            threshold: int)
    requires AllNamed(asks, names) && Named(a.qname, name) && InOrder(asks + [a]) && window > 0 && threshold > 0
    ensures Verdict(asks, a, window, threshold) <==>
      |name| >= 3
      && |Fronts(asks + [a], names + [name], a.clientIp, Base(name), a.now - window)| >= threshold
  {
    PartsOfNamed(a.qname, name);
    AllNamedSnoc(asks, names, a, name);
    if |name| >= 3 {
      NotedNames(asks + [a], names + [name], a, name, window, SubdomainKey(a.clientIp, Join(Base(name), ".")));
    }
  }

  lemma SeenCount(queries: seq<Query>, q: Query, window: int)
    requires window > 0 && Nondecreasing(QueryTimes(queries + [q]))
    ensures |NamesAt(SeenAfter(queries + [q], window), KeyOf(q))|
         == |Distinct(queries + [q], KeyOf(q), q.now - window)|
  {
    SubdomainVerdictIsHistorical(queries, q, window);
    SeenSnoc(queries, q, window);
  }

  /** The map of the key holds the distinct subdomains. */
  lemma SeenNames(asks: seq<Ask>, a: Ask, parts: Parts, window: int, key: string)
    requires InOrder(asks) && asks != [] && a == asks[|asks| - 1] && window > 0 && PartsOf(a.qname) == Some(parts)
    requires key == SubdomainKey(a.clientIp, parts.base)
    ensures |NamesAt(SeenAsked(asks, window), key)| == |Distinct(Queries(asks), key, a.now - window)|
  {
    QueriesInOrder(asks);
    SeenAskedIs(asks, window);
    SeenCount(Queries(asks[..|asks| - 1]), Query(a.clientIp, parts.base, parts.subdomain, a.now), window);
  }

  lemma NotedNames(asks: seq<Ask>, names: seq<seq<string>>, a: Ask, name: seq<string>, window: int, key: string)
    requires AllNamed(asks, names) && InOrder(asks) && asks != [] && window > 0
    requires a == asks[|asks| - 1] && name == names[|names| - 1] && |name| >= 3
    requires key == SubdomainKey(a.clientIp, Join(Base(name), "."))
    ensures |NamesAt(SeenAsked(asks, window), key)| == |Fronts(asks, names, a.clientIp, Base(name), a.now - window)|
  {
    FrontNamed(asks, names);
    PartsOfNamed(a.qname, name);
    SeenNames(asks, a, Parts(Join(Base(name), "."), Join(Front(name), ".")), window, key);
    FrontsCount(asks, names, a.clientIp, Base(name), a.now - window);
  }

  lemma FrontsCount(asks: seq<Ask>, names: seq<seq<string>>, client: string, base: seq<string>, cutoff: int)
    requires AllNamed(asks, names)
    ensures |Distinct(Queries(asks), SubdomainKey(client, Join(base, ".")), cutoff)|
         == |Fronts(asks, names, client, base, cutoff)|
  {
    DistinctFronts(asks, names, client, base, cutoff);
    FrontsDotless(asks, names, client, base, cutoff);
    JoinedCount(Fronts(asks, names, client, base, cutoff));
  }

  lemma AllNamedSnoc(asks: seq<Ask>, names: seq<seq<string>>, a: Ask, name: seq<string>)
    requires AllNamed(asks, names) && Named(a.qname, name)
    ensures AllNamed(asks + [a], names + [name])
  {
    forall i | 0 <= i < |asks| + 1 ensures Named((asks + [a])[i].qname, (names + [name])[i]) {
      if i < |asks| { assert Named(asks[i].qname, names[i]); }
    }
  }

  ghost function OwnFronts(asks: seq<Ask>, names: seq<seq<string>>, client: string, base: seq<string>, cutoff: int)
    : set<seq<string>>
    requires |asks| == |names|
  {
    set i | 0 <= i < |asks| && |names[i]| >= 3 && ClientKey(asks[i].clientIp) == ClientKey(client)
            && Base(names[i]) == base && asks[i].now > cutoff :: Front(names[i])
  }

  /** When no client contains a bar, these are the fronts asked for by this client under the
      same last two labels. */
  lemma VerdictPerClient(asks: seq<Ask>, names: seq<seq<string>>, a: Ask, name: seq<string>, window: int,
                         threshold: int)
    requires AllNamed(asks, names) && Named(a.qname, name) && InOrder(asks + [a]) && window > 0 && threshold > 0
    requires forall b | b in asks + [a] :: '|' !in b.clientIp
    ensures Verdict(asks, a, window, threshold) <==>
      |name| >= 3
      && |OwnFronts(asks + [a], names + [name], a.clientIp, Base(name), a.now - window)| >= threshold
  {
    VerdictCountsFronts(asks, names, a, name, window, threshold);
    AllNamedSnoc(asks, names, a, name);
    if |name| >= 3 { OwnOfLast(asks + [a], names + [name], a, name, a.now - window); }
  }

  lemma OwnOfLast(asks: seq<Ask>, names: seq<seq<string>>, a: Ask, name: seq<string>, cutoff: int)
    requires AllNamed(asks, names) && (forall b | b in asks :: '|' !in b.clientIp)
    requires asks != [] && a == asks[|asks| - 1] && name == names[|asks| - 1] && |name| >= 3
    ensures Fronts(asks, names, a.clientIp, Base(name), cutoff)
         == OwnFronts(asks, names, a.clientIp, Base(name), cutoff)
  {
    OwnAreAll(asks, names, a.clientIp, Base(name), cutoff, |asks| - 1);
  }

  lemma OwnAreAll(asks: seq<Ask>, names: seq<seq<string>>, client: string, base: seq<string>, cutoff: int, at: nat)
    requires AllNamed(asks, names) && (forall b | b in asks :: '|' !in b.clientIp)
    requires at < |asks| && asks[at].clientIp == client && |names[at]| >= 2 && base == Base(names[at])
    ensures Fronts(asks, names, client, base, cutoff) == OwnFronts(asks, names, client, base, cutoff)
  {
    assert asks[at] in asks && Named(asks[at].qname, names[at]);
    forall i | 0 <= i < |asks| && |names[i]| >= 3
      ensures CountedAsk(asks[i], names[i], client, base) <==>
              ClientKey(asks[i].clientIp) == ClientKey(client) && Base(names[i]) == base
    {
      assert asks[i] in asks && Named(asks[i].qname, names[i]);
      OwnIsCounted(asks[i], names[i], client, base);
    }
  }

  lemma OwnIsCounted(a: Ask, labels: seq<string>, client: string, base: seq<string>)
    requires |labels| >= 3 && Dotless(labels) && |base| == 2 && Dotless(base)
    requires '|' !in a.clientIp && '|' !in client
    ensures CountedAsk(a, labels, client, base) <==> ClientKey(a.clientIp) == ClientKey(client) && Base(labels) == base
  {
    var text := Join(Base(labels), ".");
    JoinInjective(Base(labels), base, '.');
    if CutLater(ClientKey(a.clientIp), text, ClientKey(client), Join(base, ".")) {
      CutHasBar(ClientKey(a.clientIp), text, ClientKey(client), Join(base, "."));
    }
    if CutLater(ClientKey(client), Join(base, "."), ClientKey(a.clientIp), text) {
      CutHasBar(ClientKey(client), Join(base, "."), ClientKey(a.clientIp), text);
    }
  }

  // --------------------------------------------------------------- query rates

  /** The calls for a key after the cutoff, by their positions. */
  function Recent(calls: seq<Call>, key: string, cutoff: int): set<int> {
    set i | 0 <= i < |calls| && calls[i].key == key && calls[i].now > cutoff
  }

  lemma {:induction false} RecentCount(calls: seq<Call>, key: string, cutoff: int)
    ensures |After(History(calls, key), cutoff)| == |Recent(calls, key, cutoff)|
  {
    if calls != [] {
      var n := |calls| - 1;
      RecentCount(calls[..n], key, cutoff);
      RecentSnoc(calls, key, cutoff);
      if calls[n].key == key {
        AfterAppend(History(calls[..n], key), [calls[n].now], cutoff);
        AfterOne(calls[n].now, cutoff);
      }
    }
  }

  lemma AfterOne(now: int, cutoff: int)
    ensures After([now], cutoff) == if now > cutoff then [now] else []
  {
    assert [now][..0] == [] && After([], cutoff) == [];
  }

  lemma RecentSnoc(calls: seq<Call>, key: string, cutoff: int)
    requires calls != []
    ensures var n := |calls| - 1;
      |Recent(calls, key, cutoff)|
        == |Recent(calls[..n], key, cutoff)| + if calls[n].key == key && calls[n].now > cutoff then 1 else 0
  {
    var n := |calls| - 1;
    var before := Recent(calls[..n], key, cutoff);
    assert n !in before;
    assert Recent(calls, key, cutoff) == before + if calls[n].key == key && calls[n].now > cutoff then {n} else {};
  }

  /** The count that a rate verdict compares is that of the calls for the key strictly inside the
      window, the present one included. */
  lemma RateCountsCalls(calls: seq<Call>, call: Call, window: int)
    requires window > 0 && Nondecreasing(Times(calls + [call]))
    ensures var before := Record(calls, window);
      |Tracked(if call.key in before then before[call.key] else [], call.now, window)|
        == |Recent(calls + [call], call.key, call.now - window)|
  {
    VerdictIsHistorical(calls, call, window);
    RecentCount(calls + [call], call.key, call.now - window);
  }
}
