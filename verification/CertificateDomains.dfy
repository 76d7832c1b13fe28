// The domain list of a certificate request: normalizeDomains in
// internal/certificates/manager.go.

module CertificateDomains {
  import opened Outcomes
  import opened Text
  import opened DnsName

  datatype DomainsError = WrongCount | Invalid(index: nat) | Required(index: nat)

  const MAX_DOMAINS := 10
  const NUL := 0 as char

  datatype DomainFault = BadName | Missing

  /** One list entry, once trimmed and in lower case. */
  function ConvertDomain(u: Unicode, domain: string): Result<string, DomainFault> {
    var wildcard := HasPrefix(domain, "*.");
    match ToAscii(u, if wildcard then TrimPrefix(domain, "*.") else domain)
    case Err(_) => Err(BadName)
    case Ok(name) =>
      var ascii := TrimSuffix(name, ".");
      if ascii == "" || ascii == "." then Err(Missing)
      else Ok(if wildcard then "*." + ascii else ascii)
  }

  function NormalizeDomain(u: Unicode, raw: string): Result<string, DomainFault> {
    ConvertDomain(u, ToLower(u, TrimSuffix(TrimSpace(raw), ".")))
  }

  /** Appends the members of `domains` from `index` on that `out` does not hold yet. */
  function Collect(u: Unicode, domains: seq<string>, index: nat, out: seq<string>): Result<seq<string>, DomainsError>
    requires index <= |domains|
    decreases |domains| - index
  {
    if index == |domains| then Ok(out)
    else match NormalizeDomain(u, domains[index])
      case Err(BadName) => Err(Invalid(index))
      case Err(Missing) => Err(Required(index))
      case Ok(ascii) => Collect(u, domains, index + 1, if ascii in out then out else out + [ascii])
  }

  function NormalizeDomains(u: Unicode, domains: seq<string>): Result<seq<string>, DomainsError> {
    if |domains| == 0 || |domains| > MAX_DOMAINS then Err(WrongCount)
    else match Collect(u, domains, 0, [])
      case Err(e) => Err(e)
      case Ok(out) => Ok(Sort(out))
  }

  method NormalizeEntry(u: Unicode, raw: string) returns (result: Result<string, DomainFault>)
    ensures result == NormalizeDomain(u, raw)
  {
    var domain := ToLower(u, TrimSuffix(TrimSpace(raw), "."));
    var wildcard := HasPrefix(domain, "*.");
    if wildcard {
      domain := TrimPrefix(domain, "*.");
    }
    var converted := ConvertName(u, domain);
    if converted.Err? {
      return Err(BadName);
    }
    var ascii := TrimSuffix(converted.value, ".");
    if ascii == "" || ascii == "." {
      return Err(Missing);
    }
    return Ok(if wildcard then "*." + ascii else ascii);
  }

  function Members(domains: seq<string>): set<string> { set s | s in domains }

  lemma MembersSnoc(domains: seq<string>, s: string)
    ensures Members(domains + [s]) == Members(domains) + {s}
  {
  }

  lemma CollectOne(u: Unicode, domains: seq<string>, index: nat, out: seq<string>)
    requires index < |domains|
    ensures match NormalizeDomain(u, domains[index])
            case Err(BadName) => Collect(u, domains, index, out) == Err(Invalid(index))
            case Err(Missing) => Collect(u, domains, index, out) == Err(Required(index))
            case Ok(ascii) =>
              Collect(u, domains, index, out)
                == Collect(u, domains, index + 1, if ascii in out then out else out + [ascii])
  {
  }

  /** The variables of the loop on the way to the goal. */
  ghost predicate CollectsTo(u: Unicode, domains: seq<string>, index: nat, out: seq<string>, seen: set<string>,
                             goal: Result<seq<string>, DomainsError>)
  {
    index <= |domains| && seen == Members(out) && goal == Collect(u, domains, index, out)
  }

  /** One turn of the loop. */
  method CollectNext(u: Unicode, domains: seq<string>, index: nat, out: seq<string>, seen: set<string>,
                     ghost goal: Result<seq<string>, DomainsError>)
    returns (fault: Option<DomainsError>, more: seq<string>, known: set<string>)
    requires index < |domains| && CollectsTo(u, domains, index, out, seen, goal)
    ensures fault.Some? ==> goal == Err(fault.value)
    ensures fault.None? ==> CollectsTo(u, domains, index + 1, more, known, goal)
  {
    fault, more, known := None, out, seen;
    var entry := NormalizeEntry(u, domains[index]);
    CollectOne(u, domains, index, out);
    if entry.Err? {
      fault := Some(if entry.error.BadName? then Invalid(index) else Required(index));
    } else if entry.value !in seen {
      MembersSnoc(out, entry.value);
      more, known := out + [entry.value], seen + {entry.value};
    }
  }

  lemma CollectsAll(u: Unicode, domains: seq<string>, out: seq<string>, seen: set<string>,
                    goal: Result<seq<string>, DomainsError>)
    requires CollectsTo(u, domains, |domains|, out, seen, goal)
    ensures goal == Ok(out)
  {
  }

  method CollectAll(u: Unicode, domains: seq<string>) returns (result: Result<seq<string>, DomainsError>)
    ensures result == Collect(u, domains, 0, [])
  {
    result := CollectRest(u, domains, 0, [], {}, Collect(u, domains, 0, []));
  }

  /** The loop, from the entry `start` on. */
  method CollectRest(u: Unicode, domains: seq<string>, start: nat, found: seq<string>, known: set<string>,
                     ghost goal: Result<seq<string>, DomainsError>)
    returns (result: Result<seq<string>, DomainsError>)
    requires CollectsTo(u, domains, start, found, known, goal)
    ensures result == goal
  {
    var index, out, seen := start, found, known;
    while index < |domains|
      invariant index <= |domains| && CollectsTo(u, domains, index, out, seen, goal)
    {
      var fault;
      fault, out, seen := CollectNext(u, domains, index, out, seen, goal);
      if fault.Some? {
        return Err(fault.value);
      }
      index := index + 1;
    }
    CollectsAll(u, domains, out, seen, goal);
    return Ok(out);
  }

  method Normalize(u: Unicode, domains: seq<string>) returns (result: Result<seq<string>, DomainsError>)
    ensures result == NormalizeDomains(u, domains)
  {
    if |domains| == 0 || |domains| > MAX_DOMAINS {
      return Err(WrongCount);
    }
    var collected := CollectAll(u, domains);
    if collected.Err? {
      return collected;
    }
    return Ok(Sort(collected.value));
  }

  // -------------------------------------------------------------- properties

  /** The shape of every accepted domain. */
  ghost predicate Accepted(domain: string) {
    exists labels | CanonicalLabels(labels) :: domain == Join(labels, ".") || domain == "*." + Join(labels, ".")
  }

  lemma NormalizedIsAccepted(u: Unicode, raw: string)
    requires Conforms(u) && NormalizeDomain(u, raw).Ok?
    ensures Accepted(NormalizeDomain(u, raw).value)
  {
    var domain := ToLower(u, TrimSuffix(TrimSpace(raw), "."));
    var name := if HasPrefix(domain, "*.") then TrimPrefix(domain, "*.") else domain;
    AcceptedIsCanonical(u, name);
    var ascii := ToAscii(u, name).value;
    assert ascii != "" && ascii != ".";
    NameIsCanonical(LabelsOf(ascii));
  }

  lemma WildcardIsFixed(u: Unicode, labels: seq<string>)
    requires Conforms(u) && CanonicalLabels(labels)
    ensures ConvertDomain(u, "*." + Join(labels, ".")) == Ok("*." + Join(labels, "."))
  {
    var domain := "*." + Join(labels, ".");
    CanonicalIsFixed(u, labels);
    NameIsCanonical(labels);
    LabelCharIsNotDot(labels);
    assert HasPrefix(domain, "*.");
    assert TrimPrefix(domain, "*.") == Join(labels, ".");
  }

  lemma PlainIsFixed(u: Unicode, labels: seq<string>)
    requires Conforms(u) && CanonicalLabels(labels)
    ensures ConvertDomain(u, Join(labels, ".")) == Ok(Join(labels, "."))
  {
    var text := Join(labels, ".");
    if HasPrefix(text, "*.") {
      var rest := StarThenRest(labels);
      WildcardIsFixed(u, rest);
      assert text == "*." + Join(rest, ".");
    } else {
      CanonicalIsFixed(u, labels);
      NameIsCanonical(labels);
      LabelCharIsNotDot(labels);
    }
  }

  lemma AlreadyLower(u: Unicode, labels: seq<string>, prefix: string)
    requires Conforms(u) && CanonicalLabels(labels) && (prefix == "" || prefix == "*.")
    ensures var domain := prefix + Join(labels, ".");
            ToLower(u, TrimSuffix(TrimSpace(domain), ".")) == domain
  {
    var text := Join(labels, ".");
    var domain := prefix + text;
    JoinNonEmpty(labels);
    assert domain[|domain| - 1] == text[|text| - 1];
    TrimSpaceFixed(domain);
    assert domain[|domain| - 1..] == [text[|text| - 1]];
    LowerFixed(u, domain);
  }

  lemma StarThenRest(labels: seq<string>) returns (rest: seq<string>)
    requires CanonicalLabels(labels) && HasPrefix(Join(labels, "."), "*.")
    ensures CanonicalLabels(rest) && Join(rest, ".") == TrimPrefix(Join(labels, "."), "*.")
  {
    var text := Join(labels, ".");
    NameIsCanonical(labels);
    assert text == "*" + "." + text[2..];
    SplitFirst("*", '.', text[2..]);
    assert labels[0] == "*";
    rest := labels[1..];
    assert forall s | s in rest :: s in labels;
  }

  lemma LabelCharIsNotDot(labels: seq<string>)
    requires CanonicalLabels(labels)
    ensures Join(labels, ".") != "" && Join(labels, ".") != "."
  {
    JoinNonEmpty(labels);
  }

  lemma AcceptedIsFixed(u: Unicode, domain: string)
    requires Conforms(u) && Accepted(domain)
    ensures NormalizeDomain(u, domain) == Ok(domain)
  {
    var labels :| CanonicalLabels(labels) && (domain == Join(labels, ".") || domain == "*." + Join(labels, "."));
    WildcardIsFixed(u, labels);
    PlainIsFixed(u, labels);
    AlreadyLower(u, labels, if domain == Join(labels, ".") then "" else "*.");
    assert "" + Join(labels, ".") == Join(labels, ".");
  }

  predicate AllValid(u: Unicode, domains: seq<string>) {
    forall d | d in domains :: NormalizeDomain(u, d).Ok?
  }

  /** Some member of the list has this normal form. */
  predicate Yields(u: Unicode, domains: seq<string>, s: string) {
    exists d :: d in domains && NormalizeDomain(u, d) == Ok(s)
  }

  lemma YieldsSplit(u: Unicode, d: string, rest: seq<string>, s: string)
    ensures Yields(u, [d] + rest, s) <==> NormalizeDomain(u, d) == Ok(s) || Yields(u, rest, s)
  {
    assert forall x :: x in [d] + rest <==> x == d || x in rest;
  }

  lemma TailOf(domains: seq<string>, index: nat)
    requires index < |domains|
    ensures domains[index..] == [domains[index]] + domains[index + 1..]
  {
  }

  lemma AllValidSplit(u: Unicode, d: string, rest: seq<string>)
    ensures AllValid(u, [d] + rest) <==> NormalizeDomain(u, d).Ok? && AllValid(u, rest)
  {
    assert forall x :: x in [d] + rest <==> x == d || x in rest;
  }

  lemma {:induction false} CollectSucceeds(u: Unicode, domains: seq<string>, index: nat, out: seq<string>)
    requires index <= |domains|
    ensures Collect(u, domains, index, out).Ok? <==> AllValid(u, domains[index..])
    decreases |domains| - index
  {
    if index < |domains| {
      var head := NormalizeDomain(u, domains[index]);
      CollectOne(u, domains, index, out);
      TailOf(domains, index);
      AllValidSplit(u, domains[index], domains[index + 1..]);
      if head.Ok? {
        CollectSucceeds(u, domains, index + 1, if head.value in out then out else out + [head.value]);
      }
    }
  }

  lemma {:induction false} CollectIsDistinct(u: Unicode, domains: seq<string>, index: nat, out: seq<string>)
    requires index <= |domains| && NoDuplicates(out) && Collect(u, domains, index, out).Ok?
    ensures var r := Collect(u, domains, index, out).value;
      NoDuplicates(r) && |out| <= |r| <= |out| + |domains| - index
    decreases |domains| - index
  {
    if index < |domains| {
      var head := NormalizeDomain(u, domains[index]);
      CollectOne(u, domains, index, out);
      CollectIsDistinct(u, domains, index + 1, if head.value in out then out else out + [head.value]);
    }
  }

  lemma {:induction false} CollectYields(u: Unicode, domains: seq<string>, index: nat, out: seq<string>, s: string)
    requires index <= |domains| && Collect(u, domains, index, out).Ok?
    ensures s in Collect(u, domains, index, out).value <==> s in out || Yields(u, domains[index..], s)
    decreases |domains| - index
  {
    if index < |domains| {
      var head := NormalizeDomain(u, domains[index]);
      CollectOne(u, domains, index, out);
      TailOf(domains, index);
      YieldsSplit(u, domains[index], domains[index + 1..], s);
      CollectYields(u, domains, index + 1, if head.value in out then out else out + [head.value], s);
    }
  }

  /** The members of a successful collection are the normalised inputs. */
  lemma CollectMembers(u: Unicode, domains: seq<string>, index: nat, out: seq<string>)
    requires index <= |domains| && NoDuplicates(out)
    ensures Collect(u, domains, index, out).Ok? <==> AllValid(u, domains[index..])
    ensures Collect(u, domains, index, out).Ok? ==>
              var r := Collect(u, domains, index, out).value;
              && NoDuplicates(r) && |out| <= |r| <= |out| + |domains| - index
              && forall s :: s in r <==> s in out || Yields(u, domains[index..], s)
  {
    CollectSucceeds(u, domains, index, out);
    if Collect(u, domains, index, out).Ok? {
      CollectIsDistinct(u, domains, index, out);
      forall s { CollectYields(u, domains, index, out, s); }
    }
  }

  lemma NormalizedMembers(u: Unicode, domains: seq<string>)
    requires Conforms(u) && NormalizeDomains(u, domains).Ok?
    ensures var list := NormalizeDomains(u, domains).value;
            && 0 < |list| <= MAX_DOMAINS && NoDuplicates(list)
            && forall s | s in list :: Accepted(s) && NormalizeDomain(u, s) == Ok(s)
  {
    CollectMembers(u, domains, 0, []);
    var out := Collect(u, domains, 0, []).value;
    SameElements(out, Sort(out));
    NoDuplicatesPermuted(out, Sort(out));
    assert domains[0] in domains[0..];
    assert NormalizeDomain(u, domains[0]).value in out;
    forall s | s in Sort(out) ensures Accepted(s) && NormalizeDomain(u, s) == Ok(s) {
      assert s in out;
      var d :| d in domains[0..] && NormalizeDomain(u, d) == Ok(s);
      NormalizedIsAccepted(u, d);
      AcceptedIsFixed(u, s);
    }
  }

  /** normalizeDomains is idempotent, so a stored list is its own normal form. */
  lemma NormalizeDomainsIdempotent(u: Unicode, domains: seq<string>)
    requires Conforms(u) && NormalizeDomains(u, domains).Ok?
    ensures NormalizeDomains(u, NormalizeDomains(u, domains).value) == NormalizeDomains(u, domains)
  {
    NormalizedMembers(u, domains);
    var list := NormalizeDomains(u, domains).value;
    CollectFixed(u, list, 0);
    assert list[..0] == [];
    CollectIsDistinct(u, domains, 0, []);
    SortIdempotent(Collect(u, domains, 0, []).value);
  }

  lemma SortIdempotent(s: seq<string>)
    requires NoDuplicates(s)
    ensures Sort(Sort(s)) == Sort(s)
  {
    NoDuplicatesPermuted(s, Sort(s));
    SameElements(s, Sort(s));
    SortByMembers(Sort(s), s);
  }

  lemma NextIsNew(list: seq<string>, index: nat)
    requires index < |list| && NoDuplicates(list)
    ensures list[index] in list && list[index] !in list[..index]
    ensures list[..index] + [list[index]] == list[..index + 1]
  {
  }

  /** Distinct normal forms are collected as they are. */
  lemma {:induction false} CollectFixed(u: Unicode, list: seq<string>, index: nat)
    requires index <= |list| && NoDuplicates(list)
    requires forall s | s in list :: NormalizeDomain(u, s) == Ok(s)
    ensures Collect(u, list, index, list[..index]) == Ok(list)
    decreases |list| - index
  {
    if index < |list| {
      NextIsNew(list, index);
      CollectOne(u, list, index, list[..index]);
      CollectFixed(u, list, index + 1);
    } else {
      assert list[..index] == list;
    }
  }

  /** The collection of a whole list, as a set. */
  lemma CollectWhole(u: Unicode, domains: seq<string>)
    ensures Collect(u, domains, 0, []).Ok? <==> AllValid(u, domains)
    ensures Collect(u, domains, 0, []).Ok? ==>
              var r := Collect(u, domains, 0, []).value;
              NoDuplicates(r) && forall s :: s in r <==> Yields(u, domains, s)
  {
    CollectMembers(u, domains, 0, []);
    assert domains[0..] == domains;
  }

  lemma SameInputs(u: Unicode, a: seq<string>, b: seq<string>)
    requires forall d :: d in a <==> d in b
    ensures AllValid(u, a) <==> AllValid(u, b)
    ensures forall s :: Yields(u, a, s) <==> Yields(u, b, s)
  {
  }

  lemma SameCollected(u: Unicode, a: seq<string>, b: seq<string>)
    requires forall d :: d in a <==> d in b
    ensures Collect(u, a, 0, []).Ok? <==> Collect(u, b, 0, []).Ok?
    ensures Collect(u, a, 0, []).Ok? ==> Sort(Collect(u, a, 0, []).value) == Sort(Collect(u, b, 0, []).value)
  {
    CollectWhole(u, a);
    CollectWhole(u, b);
    SameInputs(u, a, b);
    if Collect(u, a, 0, []).Ok? {
      SortByMembers(Collect(u, a, 0, []).value, Collect(u, b, 0, []).value);
    }
  }

  /** Replaying the same domains in any order, or with repetitions, gives the same list. */
  lemma OrderInsensitive(u: Unicode, a: seq<string>, b: seq<string>)
    requires 0 < |a| <= MAX_DOMAINS && 0 < |b| <= MAX_DOMAINS
    requires forall d :: d in a <==> d in b
    ensures NormalizeDomains(u, a).Ok? <==> NormalizeDomains(u, b).Ok?
    ensures NormalizeDomains(u, a).Ok? ==> NormalizeDomains(u, a) == NormalizeDomains(u, b)
  {
    SameCollected(u, a, b);
  }

  predicate NormalList(u: Unicode, domains: seq<string>) { NormalizeDomains(u, domains) == Ok(domains) }

  /** How Start compares the stored list with the requested one. */
  predicate SameJoined(a: seq<string>, b: seq<string>) { Join(a, [NUL]) == Join(b, [NUL]) }

  lemma NormalListHasNoNul(u: Unicode, domains: seq<string>)
    requires Conforms(u) && NormalList(u, domains)
    ensures domains != [] && forall d | d in domains :: NUL !in d
  {
    NormalizedMembers(u, domains);
    forall d | d in domains ensures NUL !in d {
      AcceptedHasNoNul(d);
    }
  }

  lemma AcceptedHasNoNul(domain: string)
    requires Accepted(domain)
    ensures NUL !in domain
  {
    var labels :| CanonicalLabels(labels) && (domain == Join(labels, ".") || domain == "*." + Join(labels, "."));
    JoinNonEmpty(labels);
  }

  /** Comparing the NUL-joined texts compares the lists. */
  lemma SameJoinedIsEquality(u: Unicode, a: seq<string>, b: seq<string>)
    requires Conforms(u) && NormalList(u, a) && NormalList(u, b)
    ensures SameJoined(a, b) <==> a == b
  {
    NormalListHasNoNul(u, a);
    NormalListHasNoNul(u, b);
    JoinInjective(a, b, NUL);
  }
}
