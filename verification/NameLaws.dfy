// What the functions on names do to whole names: spellings, suffixes, and the mapping
// between the names clients ask for and those asked of the backend.

module NameLaws {
  import opened Outcomes
  import opened Text
  import opened DnsName
  import opened DnsResponseTheorems
  import CertificateDomains
  import Routes

  // ------------------------------------------------------------------ spellings

  /** The same text but for the case of ASCII letters; `t` has no capitals where they differ. */
  predicate SpellingOf(s: string, t: string) {
    |s| == |t| && forall i | 0 <= i < |s| :: s[i] == t[i] || (IsUpper(s[i]) && (s[i] as int + 32) as char == t[i])
  }

  lemma SpellingLowers(u: Unicode, s: string, t: string)
    requires Conforms(u) && SpellingOf(s, t) && forall c | c in t :: IsLabelChar(c) || c == '.'
    ensures ToLower(u, s) == t
  {
    forall i | 0 <= i < |s| ensures u.lower(s[i]) == t[i] { assert t[i] in t; }
  }

  predicate SpelledEach(a: seq<string>, b: seq<string>) {
    |a| == |b| && forall i | 0 <= i < |a| :: SpellingOf(a[i], b[i])
  }

  lemma FirstGrows(c: string, d: string, a: seq<string>, b: seq<string>)
    requires SpelledEach(a, b) && a != [] && SpellingOf(c, d)
    ensures SpelledEach([c + a[0]] + a[1..], [d + b[0]] + b[1..])
  {
    assert SpellingOf(a[0], b[0]);
    assert forall i | 0 < i < |a| :: SpellingOf(a[i], b[i]);
  }

  lemma {:induction false} SplitSpelling(s: string, t: string)
    requires SpellingOf(s, t) && forall c | c in t :: IsLabelChar(c) || c == '.'
    ensures SpelledEach(Split(s, '.'), Split(t, '.'))
  {
    if s != "" {
      var front, rest := s[1..], t[1..];
      assert t[0] in t && forall c | c in rest :: c in t;
      assert SpellingOf([s[0]], [t[0]]);
      SplitSpelling(front, rest);
      FirstGrows([s[0]], [t[0]], Split(front, '.'), Split(rest, '.'));
    }
  }

  lemma SpellingConverts(u: Unicode, s: string, t: string)
    requires Conforms(u) && SpellingOf(s, t) && CanonicalLabel(t)
    ensures ConvertLabel(u, s) == Ok(t)
  {
    forall c | c in s ensures IsGraphic(c) && IsAscii(c) {
      var i :| 0 <= i < |s| && s[i] == c;
      assert t[i] in t;
    }
    SpellingLowers(u, s, t);
  }

  /** However the letters of a canonical name are written, and with or without its final dot,
      both conversions give the name itself. */
  lemma EverySpellingIsTheName(u: Unicode, spelled: string, labels: seq<string>)
    requires Conforms(u) && CanonicalLabels(labels)
    requires SpellingOf(spelled, Join(labels, ".")) || SpellingOf(spelled, NameOf(labels))
    ensures ToAscii(u, spelled) == Ok(NameOf(labels))
    ensures NormalizeQName(u, spelled) == NameOf(labels)
  {
    JoinNonEmpty(labels);
    var text := if SpellingOf(spelled, NameOf(labels)) then NameOf(labels) else Join(labels, ".");
    SpellingIsTrimmed(spelled, text, labels);
    SpellingLowers(u, spelled, text);
    NameIsCanonical(labels);
    var core := TrimSuffix(spelled, ".");
    SplitSpelling(core, Join(labels, "."));
    var parts := Split(core, '.');
    forall k | 0 <= k < |parts| ensures ConvertLabel(u, parts[k]) == Ok(labels[k]) {
      assert labels[k] in labels;
      SpellingConverts(u, parts[k], labels[k]);
    }
    ConvertSucceeds(u, parts, labels);
    CanonicalSurvivesTrimming(labels);
  }

  lemma SpellingIsTrimmed(spelled: string, text: string, labels: seq<string>)
    requires CanonicalLabels(labels) && SpellingOf(spelled, text)
    requires text == Join(labels, ".") || text == NameOf(labels)
    ensures TrimSpace(spelled) == spelled && ReplaceDots(spelled) == spelled && spelled != "" && spelled != "."
    ensures SpellingOf(TrimSuffix(spelled, "."), Join(labels, "."))
  {
    JoinNonEmpty(labels);
    var core := Join(labels, ".");
    assert forall i | 0 <= i < |core| :: core[i] in core && text[i] == core[i];
    forall i | 0 <= i < |spelled| ensures !IsSpace(spelled[i]) && IsAscii(spelled[i]) {
      if i < |core| { assert IsLabelChar(core[i]) || core[i] == '.'; }
    }
    TrimSpaceFixed(spelled);
    assert ReplaceDots(spelled) == spelled;
    var n := |spelled| - 1;
    assert spelled[n..] == [spelled[n]];
  }

  /** A domain of a certificate in any spelling, with or without final dot, is stored as itself. */
  lemma EverySpellingIsTheDomain(u: Unicode, raw: string, domain: string)
    requires Conforms(u) && CertificateDomains.Accepted(domain)
    requires SpellingOf(raw, domain) || SpellingOf(raw, domain + ".")
    ensures CertificateDomains.NormalizeDomain(u, raw) == Ok(domain)
  {
    var labels, prefix := DomainShape(domain);
    CertificateDomains.AcceptedIsFixed(u, domain);
    CertificateDomains.AlreadyLower(u, labels, prefix);
    LowerDomain(u, raw, domain);
    SameNormalForm(u, raw, domain);
  }

  lemma SameNormalForm(u: Unicode, a: string, b: string)
    requires ToLower(u, TrimSuffix(TrimSpace(a), ".")) == ToLower(u, TrimSuffix(TrimSpace(b), "."))
    ensures CertificateDomains.NormalizeDomain(u, a) == CertificateDomains.NormalizeDomain(u, b)
  {
  }

  lemma DomainShape(domain: string) returns (labels: seq<string>, prefix: string)
    requires CertificateDomains.Accepted(domain)
    ensures CanonicalLabels(labels) && (prefix == "" || prefix == "*.") && domain == prefix + Join(labels, ".")
    ensures domain != "" && IsLabelChar(domain[0]) && IsLabelChar(domain[|domain| - 1])
    ensures forall c | c in domain :: IsLabelChar(c) || c == '.'
  {
    labels :| CanonicalLabels(labels) && (domain == Join(labels, ".") || domain == "*." + Join(labels, "."));
    JoinNonEmpty(labels);
    var text := Join(labels, ".");
    prefix := if domain == text then "" else "*.";
    assert "" + text == text;
    assert domain[|domain| - 1] == text[|text| - 1];
  }

  lemma LowerDomain(u: Unicode, raw: string, domain: string)
    requires Conforms(u) && domain != "" && forall c | c in domain :: IsLabelChar(c) || c == '.'
    requires IsLabelChar(domain[0]) && IsLabelChar(domain[|domain| - 1])
    requires SpellingOf(raw, domain) || SpellingOf(raw, domain + ".")
    ensures ToLower(u, TrimSuffix(TrimSpace(raw), ".")) == domain
  {
    TrimSpaceFixed(raw);
    if |raw| == |domain| {
      assert raw[|raw| - 1..] == [raw[|raw| - 1]];
      SpellingLowers(u, raw, domain);
    } else {
      DottedSpelling(raw, domain);
      SpellingLowers(u, TrimSuffix(raw, "."), domain);
    }
  }

  lemma DottedSpelling(raw: string, domain: string)
    requires SpellingOf(raw, domain + ".")
    ensures SpellingOf(TrimSuffix(raw, "."), domain)
  {
    var text := domain + ".";
    assert raw[|domain|] == text[|domain|];
    assert raw[|domain|..] == ".";
    assert forall i | 0 <= i < |domain| :: text[i] == domain[i];
  }

  /** A list of one to ten such domains is accepted, and only lists of that length are. */
  lemma DomainsAccepted(u: Unicode, domains: seq<string>)
    ensures CertificateDomains.NormalizeDomains(u, domains).Ok? <==>
              1 <= |domains| <= 10 && forall d | d in domains :: CertificateDomains.NormalizeDomain(u, d).Ok?
  {
    if domains != [] {
      CertificateDomains.CollectMembers(u, domains, 0, []);
      assert domains[0..] == domains;
    }
  }

  // ------------------------------------------------------------------ separators

  /** The full stop, and the three dots of ideographic scripts. */
  predicate IsSeparator(c: char) { c as int in {0x2E, 0x3002, 0xFF0E, 0xFF61} }

  predicate Unseparated(labels: seq<string>) { forall s | s in labels :: forall c | c in s :: !IsSeparator(c) }

  /** The ASCII form of one label: itself if it is ASCII and visible, else the one of the IDNA library. */
  predicate FormOfLabel(u: Unicode, s: string, form: string) {
    s != "" && |form| <= 63 &&
    if forall c | c in s :: c < 128 as char then form == s && forall c | c in s :: ' ' < c < 127 as char
    else u.idna(s) == Some(form)
  }

  predicate FormsOf(u: Unicode, labels: seq<string>, forms: seq<string>) {
    |forms| == |labels| && forall i | 0 <= i < |labels| :: FormOfLabel(u, labels[i], forms[i])
  }

  function LowerAll(u: Unicode, forms: seq<string>): seq<string> {
    seq(|forms|, i requires 0 <= i < |forms| => ToLower(u, forms[i]))
  }

  /** Labels written with any separator, with or without a final one. */
  ghost predicate Written(text: string, labels: seq<string>, sep: char) {
    && labels != [] && labels != [""] && Unseparated(labels) && IsSeparator(sep) && Trimmed(text)
    && (text == Join(labels, [sep]) + [sep] || (text == Join(labels, [sep]) && labels[|labels| - 1] != ""))
  }

  /** ToASCII accepts a name exactly when each label has a form of at most 63 octets and all of them
      at most 253, and answers these forms in lower case, with dots between and behind them. */
  lemma ToAsciiIff(u: Unicode, text: string, labels: seq<string>, sep: char, name: string)
    requires Written(text, labels, sep)
    ensures ToAscii(u, text) == Ok(name) <==>
      exists forms :: FormsOf(u, labels, forms) && |Join(LowerAll(u, forms), ".")| <= 253
                      && name == Join(LowerAll(u, forms), ".") + "."
  {
    TrimSpaceFixed(text);
    DotsReplaced(text, labels, sep);
    forall forms | FormsOf(u, labels, forms) ensures ConvertLabels(u, labels) == Ok(LowerAll(u, forms)) {
      FormsConvert(u, labels, forms);
    }
    if ConvertLabels(u, labels).Ok? {
      var forms := ConvertedForms(u, labels);
      assert FormsOf(u, labels, forms);
    }
  }

  lemma NothingReplaced(labels: seq<string>, s: string)
    requires Unseparated(labels) && s in labels
    ensures ReplaceDots(s) == s && '.' !in s
  {
    forall i | 0 <= i < |s| ensures ReplaceDots(s)[i] == s[i] {
      assert s[i] in s;
      assert !IsSeparator(s[i]);
    }
    assert IsSeparator('.');
  }

  lemma ReplacedSum(a: string, b: string, c: string)
    ensures ReplaceDots(a + b + c) == ReplaceDots(a) + ReplaceDots(b) + ReplaceDots(c)
  {
  }

  lemma {:induction false} ReplacedJoin(labels: seq<string>, sep: char)
    requires IsSeparator(sep) && Unseparated(labels)
    ensures ReplaceDots(Join(labels, [sep])) == Join(labels, ".")
  {
    if labels != [] {
      NothingReplaced(labels, labels[0]);
      if |labels| > 1 {
        assert forall s | s in labels[1..] :: s in labels;
        ReplacedJoin(labels[1..], sep);
        var rest := Join(labels[1..], [sep]);
        ReplacedSum(labels[0], [sep], rest);
        assert ReplaceDots([sep]) == ".";
      }
    }
  }

  lemma DotsReplaced(text: string, labels: seq<string>, sep: char)
    requires Written(text, labels, sep)
    ensures ReplaceDots(text) != "" && ReplaceDots(text) != "."
    ensures Split(TrimSuffix(ReplaceDots(text), "."), '.') == labels
  {
    ReplacedJoin(labels, sep);
    forall s | s in labels ensures '.' !in s { NothingReplaced(labels, s); }
    SplitJoin(labels, '.');
    var joined := Join(labels, ".");
    if labels[|labels| - 1] != "" { LastNotDot(labels); }
    assert Split("", '.') == [""];
    assert ReplaceDots(Join(labels, [sep]) + [sep]) == joined + ".";
    SuffixOfSum(joined, ".");
  }

  lemma LastNotDot(labels: seq<string>)
    requires labels != [] && (forall s | s in labels :: '.' !in s) && labels[|labels| - 1] != ""
    ensures Join(labels, ".") != "" && !HasSuffix(Join(labels, "."), ".")
  {
    var n := |labels| - 1;
    var last := labels[n];
    if n > 0 { JoinBoth(labels[..n], [last], "."); }
    assert labels == labels[..n] + [last] && Join([last], ".") == last;
    var joined := Join(labels, ".");
    assert joined[|joined| - 1] == last[|last| - 1];
    assert last in labels && last[|last| - 1] in last;
  }

  lemma FormsConvert(u: Unicode, labels: seq<string>, forms: seq<string>)
    requires FormsOf(u, labels, forms)
    ensures ConvertLabels(u, labels) == Ok(LowerAll(u, forms))
  {
    forall k | 0 <= k < |labels| ensures ConvertLabel(u, labels[k]) == Ok(LowerAll(u, forms)[k]) {
      assert FormOfLabel(u, labels[k], forms[k]);
    }
    ConvertSucceeds(u, labels, LowerAll(u, forms));
  }

  lemma {:induction false} ConvertedForms(u: Unicode, labels: seq<string>) returns (forms: seq<string>)
    requires ConvertLabels(u, labels).Ok?
    ensures FormsOf(u, labels, forms) && ConvertLabels(u, labels).value == LowerAll(u, forms)
  {
    if labels == [] {
      forms := [];
    } else {
      var rest := ConvertedForms(u, labels[1..]);
      forms := [LabelToAscii(u, labels[0]).value] + rest;
      assert LowerAll(u, forms) == [ToLower(u, forms[0])] + LowerAll(u, rest);
    }
  }

  // -------------------------------------------------------------------- suffixes

  predicate EndsWith(labels: seq<string>, tail: seq<string>) {
    |tail| <= |labels| && labels[|labels| - |tail|..] == tail
  }

  lemma SuffixOfSum(x: string, y: string)
    ensures HasSuffix(x + y, y) && TrimSuffix(x + y, y) == x
  {
  }

  lemma SumOfSuffix(s: string, y: string)
    requires HasSuffix(s, y)
    ensures s == s[..|s| - |y|] + y
  {
  }

  lemma EndsFromText(labels: seq<string>, tail: seq<string>)
    requires labels != [] && tail != []
    requires (forall s | s in labels :: '.' !in s) && (forall s | s in tail :: '.' !in s)
    requires HasSuffix(Join(labels, "."), "." + Join(tail, "."))
    ensures |tail| < |labels| && EndsWith(labels, tail)
  {
    var text, end := Join(labels, "."), Join(tail, ".");
    SplitJoin(labels, '.');
    SplitJoin(tail, '.');
    SumOfSuffix(text, "." + end);
    var front := text[..|text| - |"." + end|];
    assert text == front + "." + end;
    SplitBoth(front, '.', end);
    assert labels == Split(front, '.') + tail;
  }

  lemma TextFromEnds(front: seq<string>, tail: seq<string>)
    requires front != [] && tail != []
    ensures Join(front + tail, ".") == Join(front, ".") + ("." + Join(tail, "."))
    ensures HasSuffix(Join(front + tail, "."), "." + Join(tail, "."))
    ensures TrimSuffix(Join(front + tail, "."), "." + Join(tail, ".")) == Join(front, ".")
  {
    JoinBoth(front, tail, ".");
    Regroup(Join(front, "."), ".", Join(tail, "."));
    SuffixOfSum(Join(front, "."), "." + Join(tail, "."));
  }

  lemma Regroup(a: string, b: string, c: string)
    ensures a + b + c == a + (b + c)
  {
  }

  /** One text ends with a dot and another exactly when its labels do. */
  lemma JoinedEnds(labels: seq<string>, tail: seq<string>)
    requires labels != [] && tail != []
    requires (forall s | s in labels :: '.' !in s) && (forall s | s in tail :: '.' !in s)
    ensures HasSuffix(Join(labels, "."), "." + Join(tail, ".")) <==> |tail| < |labels| && EndsWith(labels, tail)
  {
    if HasSuffix(Join(labels, "."), "." + Join(tail, ".")) { EndsFromText(labels, tail); }
    if |tail| < |labels| && EndsWith(labels, tail) {
      var front := labels[..|labels| - |tail|];
      assert labels == front + tail;
      TextFromEnds(front, tail);
    }
  }

  /** A suffix as it may be configured, with or without its first and its last dot. */
  predicate Configured(suffix: string, tail: seq<string>) {
    var text := Join(tail, ".");
    suffix == text || suffix == "." + text || suffix == text + "." || suffix == "." + text + "."
  }

  lemma CoreOf(text: string, suffix: string)
    requires text != "" && text[0] != '.' && text[|text| - 1] != '.'
    requires suffix == text || suffix == "." + text || suffix == text + "." || suffix == "." + text + "."
    ensures TrimSuffix(TrimPrefix(suffix, "."), ".") == text
  {
    var core := TrimPrefix(suffix, ".");
    assert core == text || core == text + "." by {
      if suffix == "." + text { assert suffix[1..] == text; }
      if suffix == "." + text + "." { assert suffix[1..] == text + "."; }
    }
    SuffixOfSum(text, ".");
    assert text[|text| - 1..] == [text[|text| - 1]];
  }

  lemma ConfiguredCore(u: Unicode, suffix: string, tail: seq<string>)
    requires Conforms(u) && CanonicalLabels(tail) && Configured(suffix, tail)
    ensures TrimSuffix(TrimPrefix(ToLower(u, TrimSpace(suffix)), "."), ".") == Join(tail, ".")
  {
    JoinNonEmpty(tail);
    ConfiguredChars(suffix, Join(tail, "."));
    TrimSpaceFixed(suffix);
    LowerFixed(u, suffix);
    CoreOf(Join(tail, "."), suffix);
  }

  lemma ConfiguredChars(suffix: string, text: string)
    requires text != "" && forall c | c in text :: IsLabelChar(c) || c == '.'
    requires suffix == text || suffix == "." + text || suffix == text + "." || suffix == "." + text + "."
    ensures suffix != "" && forall c | c in suffix :: IsLabelChar(c) || c == '.'
    ensures !IsSpace(suffix[0]) && !IsSpace(suffix[|suffix| - 1])
  {
    assert suffix[0] in suffix && suffix[|suffix| - 1] in suffix;
  }

  /** A name matches a suffix exactly when its labels end with those of the suffix. */
  lemma SuffixMatchesIff(u: Unicode, labels: seq<string>, suffix: string, tail: seq<string>)
    requires Conforms(u) && CanonicalLabels(labels) && CanonicalLabels(tail) && Configured(suffix, tail)
    ensures Routes.MatchSuffix(u, NameOf(labels), suffix) <==> EndsWith(labels, tail)
  {
    ConfiguredCore(u, suffix, tail);
    NameIsCanonical(labels);
    JoinNonEmpty(labels);
    JoinNonEmpty(tail);
    NormalizeCanonical(u, NameOf(labels));
    DotFree(labels);
    DotFree(tail);
    JoinedEnds(labels, tail);
    JoinInjective(labels, tail, '.');
    DottedEnds(Join(labels, "."), "." + Join(tail, "."));
    if |labels| == |tail| { assert labels[0..] == labels; }
    assert NameOf(labels) == Join(tail, ".") + "." <==> Join(labels, ".") == Join(tail, ".") by {
      if NameOf(labels) == Join(tail, ".") + "." {
        assert NameOf(labels)[..|NameOf(labels)| - 1] == (Join(tail, ".") + ".")[..|Join(tail, ".")|];
      }
    }
  }

  /** A list of client views or tenants takes everything if it is empty, and else the given
      value, blank for "default". */
  ghost predicate Takes(u: Unicode, list: seq<string>, value: string) {
    var given := ToLower(u, TrimSpace(value));
    list == [] || (if given == "" then "default" else given) in TrimmedLower(u, list)
  }

  ghost function TrimmedLower(u: Unicode, list: seq<string>): set<string> {
    set v | v in list :: ToLower(u, TrimSpace(v))
  }

  /** A route serves exactly the requests for one of its domains or for names at or below one of
      its suffixes, from a client view and a tenant that it takes, with all the tags it demands. */
  lemma ServedIff(u: Unicode, req: Routes.Request, labels: seq<string>, route: Routes.Route,
                  domains: seq<seq<string>>, tails: seq<seq<string>>)
    requires Conforms(u) && CanonicalLabels(labels) && NormalizeQName(u, req.qname) == NameOf(labels)
    requires |domains| == |route.domains| && |tails| == |route.suffixes|
    requires forall i | 0 <= i < |domains| ::
               CanonicalLabels(domains[i]) && NormalizeQName(u, route.domains[i]) == NameOf(domains[i])
    requires forall i | 0 <= i < |tails| :: CanonicalLabels(tails[i]) && Configured(route.suffixes[i], tails[i])
    ensures Routes.Eligible(u, req, route) <==>
              && (labels in domains || exists tail | tail in tails :: EndsWith(labels, tail))
              && Takes(u, route.clientViews, req.clientView) && Takes(u, route.tenants, req.tenant)
              && TrimmedLower(u, route.policyTags) <= TrimmedLower(u, req.policyTags)
  {
    NamedIff(u, req.qname, labels, route, domains, tails);
    TakesIff(u, route.clientViews, req.clientView);
    TakesIff(u, route.tenants, req.tenant);
    TagsIff(u, route.policyTags, req.policyTags);
  }

  lemma NamedIff(u: Unicode, qname: string, labels: seq<string>, route: Routes.Route,
                 domains: seq<seq<string>>, tails: seq<seq<string>>)
    requires Conforms(u) && CanonicalLabels(labels) && NormalizeQName(u, qname) == NameOf(labels)
    requires |domains| == |route.domains| && |tails| == |route.suffixes|
    requires forall i | 0 <= i < |domains| ::
               CanonicalLabels(domains[i]) && NormalizeQName(u, route.domains[i]) == NameOf(domains[i])
    requires forall i | 0 <= i < |tails| :: CanonicalLabels(tails[i]) && Configured(route.suffixes[i], tails[i])
    ensures Routes.RouteMatchesName(u, route, qname) <==>
              labels in domains || exists tail | tail in tails :: EndsWith(labels, tail)
  {
    DotFree(labels);
    forall i | 0 <= i < |domains|
      ensures NameOf(labels) == NormalizeQName(u, route.domains[i]) <==> labels == domains[i]
    {
      DotFree(domains[i]);
      SameNames(labels, domains[i]);
    }
    forall i | 0 <= i < |tails|
      ensures Routes.MatchSuffix(u, NameOf(labels), route.suffixes[i]) <==> EndsWith(labels, tails[i])
    {
      SuffixMatchesIff(u, labels, route.suffixes[i], tails[i]);
    }
    ExactlyIn(route.domains, domains, d => NameOf(labels) == NormalizeQName(u, d), l => labels == l);
    ExactlyIn(route.suffixes, tails, s => Routes.MatchSuffix(u, NameOf(labels), s), t => EndsWith(labels, t));
  }

  /** Lists that agree place by place agree on whether some entry is taken. */
  lemma ExactlyIn<A, B>(a: seq<A>, b: seq<B>, f: A -> bool, g: B -> bool)
    requires |a| == |b| && forall i | 0 <= i < |a| :: f(a[i]) <==> g(b[i])
    ensures (exists x | x in a :: f(x)) <==> (exists y | y in b :: g(y))
  {
    if x :| x in a && f(x) {
      var i :| 0 <= i < |a| && a[i] == x;
      assert b[i] in b && g(b[i]);
    }
    if y :| y in b && g(y) {
      var i :| 0 <= i < |b| && b[i] == y;
      assert a[i] in a && f(a[i]);
    }
  }

  lemma TakesIff(u: Unicode, list: seq<string>, value: string)
    ensures Routes.ContainsOrEmpty(u, list, value) <==> Takes(u, list, value)
  {
  }

  lemma TagsIff(u: Unicode, required: seq<string>, provided: seq<string>)
    ensures Routes.ContainsAll(u, required, provided)
        <==> TrimmedLower(u, required) <= TrimmedLower(u, provided)
  {
    forall t ensures t in Routes.Values(u, provided) <==> t in TrimmedLower(u, provided) {
      if t in Routes.Values(u, provided) {
        var i :| 0 <= i < |provided| && Routes.Values(u, provided)[i] == t;
        assert provided[i] in provided;
      }
      if v :| v in provided && ToLower(u, TrimSpace(v)) == t {
        var i :| 0 <= i < |provided| && provided[i] == v;
        assert Routes.Values(u, provided)[i] == t;
      }
    }
  }

  lemma DotFree(labels: seq<string>)
    requires CanonicalLabels(labels)
    ensures forall s | s in labels :: '.' !in s
  {
  }

  lemma DottedEnds(text: string, end: string)
    ensures HasSuffix(text + ".", end + ".") <==> HasSuffix(text, end)
  {
    var dotted := text + ".";
    if |end| <= |text| {
      assert dotted[|dotted| - |end| - 1..] == text[|text| - |end|..] + ".";
      if HasSuffix(dotted, end + ".") {
        assert text[|text| - |end|..] == (text[|text| - |end|..] + ".")[..|end|] == (end + ".")[..|end|];
      }
    }
  }

  // ------------------------------------------------------------- the name mapping

  predicate IsRoot(label_: string) { label_ == "hns" || label_ == "hsd" }

  /** The name asked of the backend lacks the last label exactly when this is hns or hsd and
      not the only one. */
  lemma BackendCutsRoot(u: Unicode, labels: seq<string>)
    requires Conforms(u) && CanonicalLabels(labels)
    ensures var n := |labels| - 1;
      BackendName(u, NameOf(labels)) == if n > 0 && IsRoot(labels[n]) then NameOf(labels[..n]) else NameOf(labels)
  {
    Plain(u, labels);
    RootLabelEnds(labels, "hns", ".hns.");
    RootLabelEnds(labels, "hsd", ".hsd.");
  }

  /** What is left then is asked exactly when its last label consists of letters, digits and
      inner hyphens. */
  lemma BackendAsks(u: Unicode, labels: seq<string>, kept: seq<string>)
    requires Conforms(u) && CanonicalLabels(labels)
    requires var n := |labels| - 1; kept == if n > 0 && IsRoot(labels[n]) then labels[..n] else labels
    ensures var root := kept[|kept| - 1];
      && root != ""
      && BackendQName(u, NameOf(labels))
      == if (forall c | c in root :: 'a' <= c <= 'z' || '0' <= c <= '9' || c == '-')
            && root[0] != '-' && root[|root| - 1] != '-'
         then Some(NameOf(kept)) else None
  {
    BackendCutsRoot(u, labels);
    KeptIsCanonical(labels, kept);
    AskedIff(u, NameOf(labels), NameOf(kept), kept);
  }

  lemma AskedIff(u: Unicode, qname: string, name: string, kept: seq<string>)
    requires Conforms(u) && CanonicalLabels(kept) && name == NameOf(kept) && BackendName(u, qname) == name
    ensures kept[|kept| - 1] != ""
    ensures BackendQName(u, qname) == if RootLabel(kept[|kept| - 1]) then Some(name) else None
  {
    NameIsCanonical(kept);
    JoinNonEmpty(kept);
    CanonicalNameIsFixed(u, name);
    RootOf(name, Join(kept, "."), kept);
    assert kept[|kept| - 1] in kept;
  }

  lemma RootOf(name: string, text: string, kept: seq<string>)
    requires TrimSuffix(name, ".") == text && text != "" && Split(text, '.') == kept
    ensures ValidRoot(name) <==> RootLabel(kept[|kept| - 1])
  {
  }

  lemma KeptIsCanonical(labels: seq<string>, kept: seq<string>)
    requires CanonicalLabels(labels) && kept != [] && kept <= labels
    ensures CanonicalLabels(kept)
  {
    assert labels == kept + labels[|kept|..];
    if kept != labels { JoinBoth(kept, labels[|kept|..], "."); }
  }

  lemma RootLabelEnds(labels: seq<string>, root: string, ending: string)
    requires CanonicalLabels(labels) && '.' !in root && root != "" && ending == "." + root + "."
    ensures HasSuffix(NameOf(labels), ending) <==> |labels| > 1 && labels[|labels| - 1] == root
    ensures |labels| > 1 && labels[|labels| - 1] == root ==>
              && TrimSuffix(NameOf(labels), ending) + "." == NameOf(labels[..|labels| - 1])
              && |NameOf(labels)| > |ending|
  {
    var n := |labels| - 1;
    DotFree(labels);
    JoinedEnds(labels, [root]);
    DottedEnds(Join(labels, "."), "." + root);
    assert Join([root], ".") == root;
    LastLabel(labels, root);
    if n > 0 && labels[n] == root {
      CutLast(labels[..n], root, ending);
      assert labels[0] in labels;
      FirstNotEmpty(labels[..n]);
      assert labels == labels[..n] + [root];
    }
  }

  lemma LastLabel(labels: seq<string>, root: string)
    requires labels != []
    ensures EndsWith(labels, [root]) <==> labels[|labels| - 1] == root
  {
    assert labels[|labels| - 1..] == [labels[|labels| - 1]];
  }

  lemma CutLast(front: seq<string>, root: string, ending: string)
    requires front != [] && ending == "." + root + "."
    ensures NameOf(front + [root]) == Join(front, ".") + ending
    ensures TrimSuffix(NameOf(front + [root]), ending) == Join(front, ".")
  {
    JoinBoth(front, [root], ".");
    OneLabel(root);
    BelowText(Join(front, "."), root, ending);
  }

  lemma OneLabel(root: string)
    ensures Join([root], ".") == root
  {
  }

  lemma FirstNotEmpty(labels: seq<string>)
    requires labels != [] && labels[0] != ""
    ensures |Join(labels, ".")| > 0
  {
  }

  /** Answers at or below the backend name are shown at or below the original name, and all
      others as they are. */
  lemma RestoreMovesNames(u: Unicode, answer: seq<string>, backend: seq<string>, original: seq<string>)
    requires Conforms(u) && CanonicalLabels(answer) && CanonicalLabels(backend) && CanonicalLabels(original)
    ensures RestoreName(u, NameOf(answer), NameOf(backend), NameOf(original))
         == if EndsWith(answer, backend) then NameOf(answer[..|answer| - |backend|] + original) else NameOf(answer)
  {
    Plain(u, answer);
    Plain(u, backend);
    Plain(u, original);
    var suffix := "." + Join(backend, ".") + ".";
    JoinedEnds(answer, backend);
    DottedEnds(Join(answer, "."), "." + Join(backend, "."));
    if |answer| > |backend| && EndsWith(answer, backend) {
      var front := answer[..|answer| - |backend|];
      assert answer == front + backend;
      BelowMoves(front, backend, original, suffix);
    }
    SameNames(answer, backend);
    WholeEnds(answer, backend, original);
  }

  lemma WholeEnds(answer: seq<string>, backend: seq<string>, original: seq<string>)
    ensures |answer| == |backend| ==> (EndsWith(answer, backend) <==> answer == backend)
    ensures answer == backend ==> answer[..0] + original == original
  {
    if |answer| == |backend| { assert answer[0..] == answer; }
  }

  lemma SameNames(a: seq<string>, b: seq<string>)
    requires a != [] && b != [] && (forall s | s in a :: '.' !in s) && (forall s | s in b :: '.' !in s)
    ensures NameOf(a) == NameOf(b) <==> a == b
  {
    JoinInjective(a, b, '.');
    if NameOf(a) == NameOf(b) {
      assert NameOf(a)[..|NameOf(a)| - 1] == Join(a, ".") && NameOf(b)[..|NameOf(b)| - 1] == Join(b, ".");
    }
  }

  lemma Plain(u: Unicode, labels: seq<string>)
    requires Conforms(u) && CanonicalLabels(labels)
    ensures NormalizeQName(u, NameOf(labels)) == NameOf(labels)
    ensures TrimSuffix(NameOf(labels), ".") == Join(labels, ".") && Join(labels, ".") != ""
    ensures forall s | s in labels :: '.' !in s
  {
    NameIsCanonical(labels);
    JoinNonEmpty(labels);
    NormalizeCanonical(u, NameOf(labels));
    DotFree(labels);
  }

  lemma BelowMoves(front: seq<string>, backend: seq<string>, original: seq<string>, suffix: string)
    requires front != [] && backend != [] && original != [] && suffix == "." + Join(backend, ".") + "."
    ensures TrimSuffix(NameOf(front + backend), suffix) == Join(front, ".")
    ensures Join(front, ".") + "." + Join(original, ".") + "." == NameOf(front + original)
  {
    JoinBoth(front, backend, ".");
    JoinBoth(front, original, ".");
    BelowText(Join(front, "."), Join(backend, "."), suffix);
  }

  lemma BelowText(a: string, b: string, suffix: string)
    requires suffix == "." + b + "."
    ensures a + "." + b + "." == a + suffix && TrimSuffix(a + "." + b + ".", suffix) == a
  {
    assert a + "." + b + "." == a + suffix;
    SuffixOfSum(a, suffix);
  }
}
