// Domain-name normalisation: internal/dnsname/idna.go, and the query-name
// normal form of internal/plugins/types.go.

module DnsName {
  import opened Outcomes
  import opened Text

  datatype NameError = EmptyLabel | BadLabel | LongLabel | LongName

  const MAX_LABEL := 63
  const MAX_NAME := 253

  function ReplaceDots(s: string): (r: string)
    ensures |r| == |s|
  {
    seq(|s|, i requires 0 <= i < |s| =>
      if s[i] in {0x3002 as char, 0xFF0E as char, 0xFF61 as char} then '.' else s[i])
  }

  function LabelToAscii(u: Unicode, name: string): Option<string> {
    if forall c | c in name :: IsAscii(c) then
      if forall c | c in name :: IsGraphic(c) then Some(name) else None
    else u.idna(name)
  }

  function ConvertLabel(u: Unicode, name: string): Result<string, NameError> {
    if name == "" then Err(EmptyLabel)
    else match LabelToAscii(u, name)
      case None => Err(BadLabel)
      case Some(ascii) => if |ascii| > MAX_LABEL then Err(LongLabel) else Ok(ToLower(u, ascii))
  }

  /** The first failing label decides the error. */
  function ConvertLabels(u: Unicode, labels: seq<string>): (r: Result<seq<string>, NameError>)
    ensures r.Ok? ==> |r.value| == |labels|
  {
    if labels == [] then Ok([])
    else match ConvertLabel(u, labels[0])
      case Err(e) => Err(e)
      case Ok(ascii) =>
        match ConvertLabels(u, labels[1..])
        case Err(e) => Err(e)
        case Ok(rest) => Ok([ascii] + rest)
  }

  function ToAscii(u: Unicode, raw: string): Result<string, NameError> {
    var name := ReplaceDots(TrimSpace(raw));
    if name == "" || name == "." then Ok(name)
    else match ConvertLabels(u, Split(TrimSuffix(name, "."), '.'))
      case Err(e) => Err(e)
      case Ok(labels) =>
        var ascii := Join(labels, ".");
        if |ascii| > MAX_NAME then Err(LongName) else Ok(ascii + ".")
  }

  /** The loop of the source, which overwrites the label list in place. */
  method ConvertName(u: Unicode, raw: string) returns (result: Result<string, NameError>)
    ensures result == ToAscii(u, raw)
  {
    var name := ReplaceDots(TrimSpace(raw));
    if name == "" || name == "." {
      return Ok(name);
    }
    name := TrimSuffix(name, ".");
    var labels := Split(name, '.');
    ghost var original := labels;
    var index := 0;
    while index < |labels|
      invariant 0 <= index <= |labels| == |original|
      invariant labels[index..] == original[index..]
      invariant forall k | 0 <= k < index :: ConvertLabel(u, original[k]) == Ok(labels[k])
    {
      assert labels[index] == original[index];
      var part := labels[index];
      if part == "" {
        ConvertFails(u, original, index);
        return Err(EmptyLabel);
      }
      var ascii := LabelToAscii(u, part);
      if ascii.None? {
        ConvertFails(u, original, index);
        return Err(BadLabel);
      }
      if |ascii.value| > MAX_LABEL {
        ConvertFails(u, original, index);
        return Err(LongLabel);
      }
      labels := labels[index := ToLower(u, ascii.value)];
      index := index + 1;
    }
    ConvertSucceeds(u, original, labels);
    var ascii := Join(labels, ".");
    if |ascii| > MAX_NAME {
      return Err(LongName);
    }
    return Ok(ascii + ".");
  }

  lemma {:induction false} ConvertSucceeds(u: Unicode, labels: seq<string>, converted: seq<string>)
    requires |labels| == |converted|
    requires forall k | 0 <= k < |labels| :: ConvertLabel(u, labels[k]) == Ok(converted[k])
    ensures ConvertLabels(u, labels) == Ok(converted)
  {
    if labels != [] {
      ConvertSucceeds(u, labels[1..], converted[1..]);
      assert [converted[0]] + converted[1..] == converted;
    }
  }

  lemma {:induction false} ConvertFails(u: Unicode, labels: seq<string>, i: nat)
    requires i < |labels| && ConvertLabel(u, labels[i]).Err?
    requires forall k | 0 <= k < i :: ConvertLabel(u, labels[k]).Ok?
    ensures ConvertLabels(u, labels) == Err(ConvertLabel(u, labels[i]).error)
  {
    if i > 0 {
      ConvertFails(u, labels[1..], i - 1);
    }
  }

  // ------------------------------------------------------- canonical names

  predicate CanonicalLabel(s: string) {
    1 <= |s| <= MAX_LABEL && forall c | c in s :: IsLabelChar(c)
  }

  predicate CanonicalLabels(labels: seq<string>) {
    && labels != []
    && (forall s | s in labels :: CanonicalLabel(s))
    && |Join(labels, ".")| <= MAX_NAME
  }

  /** The absolute spelling of a list of labels. */
  function NameOf(labels: seq<string>): string { Join(labels, ".") + "." }

  /** Everything ToASCII can answer: the empty name, the root or a canonical name. */
  predicate Canonical(name: string) {
    name == "" || name == "." || (CanonicalLabels(LabelsOf(name)) && name == NameOf(LabelsOf(name)))
  }

  function LabelsOf(name: string): seq<string> { Split(TrimSuffix(name, "."), '.') }

  lemma JoinNonEmpty(labels: seq<string>)
    requires labels != [] && forall s | s in labels :: CanonicalLabel(s)
    ensures Join(labels, ".") != ""
    ensures IsLabelChar(Join(labels, ".")[0])
    ensures IsLabelChar(Join(labels, ".")[|Join(labels, ".")| - 1])
    ensures forall c | c in Join(labels, ".") :: IsLabelChar(c) || c == '.'
  {
    assert labels[0] in labels;
    JoinChars(labels, ".");
    if |labels| > 1 {
      assert forall s | s in labels[1..] :: s in labels;
      JoinNonEmpty(labels[1..]);
      var text, rest := Join(labels, "."), Join(labels[1..], ".");
      assert text[|text| - 1] == rest[|rest| - 1];
    }
  }

  lemma LowerFixed(u: Unicode, s: string)
    requires Conforms(u) && forall c | c in s :: IsLabelChar(c) || c == '.'
    ensures ToLower(u, s) == s
  {
    assert forall i | 0 <= i < |s| :: s[i] in s;
  }

  lemma {:induction false} ConvertCanonical(u: Unicode, labels: seq<string>)
    requires Conforms(u) && forall s | s in labels :: CanonicalLabel(s)
    ensures ConvertLabels(u, labels) == Ok(labels)
  {
    if labels != [] {
      assert labels[0] in labels;
      LowerFixed(u, labels[0]);
      assert forall s | s in labels[1..] :: s in labels;
      ConvertCanonical(u, labels[1..]);
      assert [labels[0]] + labels[1..] == labels;
    }
  }

  lemma ConvertedLabel(u: Unicode, name: string)
    requires Conforms(u) && '.' !in name && ConvertLabel(u, name).Ok?
    ensures CanonicalLabel(ConvertLabel(u, name).value)
  {
    var ascii := LabelToAscii(u, name).value;
    var r := ToLower(u, ascii);
    forall c | c in r ensures IsLabelChar(c) {
      var i :| 0 <= i < |r| && r[i] == c;
      assert ascii[i] in ascii;
    }
  }

  lemma {:induction false} ConvertedLabels(u: Unicode, labels: seq<string>)
    requires Conforms(u) && ConvertLabels(u, labels).Ok?
    requires forall s | s in labels :: '.' !in s
    ensures forall s | s in ConvertLabels(u, labels).value :: CanonicalLabel(s)
  {
    if labels != [] {
      assert labels[0] in labels;
      ConvertedLabel(u, labels[0]);
      assert forall s | s in labels[1..] :: s in labels;
      ConvertedLabels(u, labels[1..]);
    }
  }

  /** Whatever ToASCII accepts is canonical: labels of 1 to 63 octets, at most
      253 octets without the final dot, lower case, no blanks. */
  lemma AcceptedIsCanonical(u: Unicode, raw: string)
    requires Conforms(u) && ToAscii(u, raw).Ok?
    ensures Canonical(ToAscii(u, raw).value)
    ensures ToAscii(u, raw).value == "" <==> TrimSpace(raw) == ""
  {
    var name := ReplaceDots(TrimSpace(raw));
    if name != "" && name != "." {
      var parts := Split(TrimSuffix(name, "."), '.');
      SplitParts(TrimSuffix(name, "."), '.');
      ConvertedLabels(u, parts);
      var labels := ConvertLabels(u, parts).value;
      NameIsCanonical(labels);
    }
  }

  lemma NameIsCanonical(labels: seq<string>)
    requires CanonicalLabels(labels)
    ensures Canonical(NameOf(labels))
    ensures TrimSuffix(NameOf(labels), ".") == Join(labels, ".")
    ensures Split(Join(labels, "."), '.') == labels
  {
    SplitJoin(labels, '.');
    assert NameOf(labels)[..|NameOf(labels)| - 1] == Join(labels, ".");
  }

  /** ToASCII leaves a canonical name alone, with or without the final dot. */
  lemma {:induction false} CanonicalIsFixed(u: Unicode, labels: seq<string>)
    requires Conforms(u) && CanonicalLabels(labels)
    ensures ToAscii(u, NameOf(labels)) == Ok(NameOf(labels))
    ensures ToAscii(u, Join(labels, ".")) == Ok(NameOf(labels))
  {
    CanonicalSurvivesTrimming(labels);
    NameIsCanonical(labels);
    ConvertCanonical(u, labels);
  }

  lemma CanonicalSurvivesTrimming(labels: seq<string>)
    requires CanonicalLabels(labels)
    ensures var text, name := Join(labels, "."), NameOf(labels);
            && text != "" && ReplaceDots(TrimSpace(text)) == text && TrimSuffix(text, ".") == text
            && ReplaceDots(TrimSpace(name)) == name && name != "."
  {
    var text, name := Join(labels, "."), NameOf(labels);
    JoinNonEmpty(labels);
    assert forall i | 0 <= i < |text| :: text[i] in text;
    TrimSpaceFixed(text);
    TrimSpaceFixed(name);
    assert ReplaceDots(text) == text;
    assert ReplaceDots(name) == name;
    assert text[|text| - 1..] == [text[|text| - 1]];
  }

  lemma CanonicalNameIsFixed(u: Unicode, name: string)
    requires Conforms(u) && Canonical(name)
    ensures ToAscii(u, name) == Ok(name)
  {
    if name == "" || name == "." {
      TrimSpaceFixed(name);
      assert ReplaceDots(name) == name;
    } else {
      CanonicalIsFixed(u, LabelsOf(name));
    }
  }

  /** ToASCII is idempotent on everything it accepts. */
  lemma ToAsciiIdempotent(u: Unicode, raw: string)
    requires Conforms(u) && ToAscii(u, raw).Ok?
    ensures ToAscii(u, ToAscii(u, raw).value) == ToAscii(u, raw)
  {
    AcceptedIsCanonical(u, raw);
    CanonicalNameIsFixed(u, ToAscii(u, raw).value);
  }

  // --------------------------------------------------------- query names

  function NormalizeQName(u: Unicode, qname: string): string {
    var q := TrimSuffix(ToLower(u, TrimSpace(qname)), ".");
    if q == "" then "." else q + "."
  }

  lemma {:induction false} NormalizeCanonical(u: Unicode, name: string)
    requires Conforms(u) && Canonical(name) && name != ""
    ensures NormalizeQName(u, name) == name
  {
    if name != "." {
      var labels := LabelsOf(name);
      JoinNonEmpty(labels);
      TrimSpaceFixed(name);
      LowerFixed(u, name);
      NameIsCanonical(labels);
    } else {
      TrimSpaceFixed(".");
      LowerFixed(u, ".");
    }
  }

  lemma {:induction false} NormalizeIdempotent(u: Unicode, qname: string)
    requires Conforms(u)
    ensures NormalizeQName(u, NormalizeQName(u, qname)) == NormalizeQName(u, qname)
  {
    var lower := ToLower(u, TrimSpace(qname));
    var once := NormalizeQName(u, qname);
    TrimSpaceShape(qname);
    var q := TrimSuffix(lower, ".");
    if q == "" {
      NormalizeCanonical(u, ".");
    } else {
      assert !IsSpace(once[0]) by { assert once[0] == lower[0]; }
      TrimSpaceFixed(once);
      forall i | 0 <= i < |once| ensures u.lower(once[i]) == once[i] {
        if i < |q| { assert once[i] == lower[i]; }
      }
      assert ToLower(u, once) == once;
      assert once[..|once| - 1] == q;
    }
  }
}
