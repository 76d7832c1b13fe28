// ensNamehash of internal/plugins/wave1/plugin.go and the recursive definition of
// EIP-137.

module Namehash {
  import opened Outcomes
  import opened Text
  import opened KeccakSponge
  import Hex

  // ----------------------------------------------------------------- digests

  function BitsToBytes(bits: seq<bool>): (bytes: seq<byte>)
    requires |bits| % 8 == 0
    ensures |bytes| == |bits| / 8
  {
    seq(|bits| / 8, k requires 0 <= k < |bits| / 8 => ByteOf(bits[8 * k..8 * k + 8]))
  }

  lemma BytesRoundTrip(bytes: seq<byte>)
    ensures BitsToBytes(BytesToBits(bytes)) == bytes
  {
    var bits := BytesToBits(bytes);
    forall k | 0 <= k < |bytes| ensures BitsToBytes(bits)[k] == bytes[k] {
      var slice := bits[8 * k..8 * k + 8];
      forall j | 0 <= j < 8 ensures slice[j] == BitAt(bytes[k], j) {
        assert slice[j] == bits[8 * k + j] && (8 * k + j) / 8 == k && (8 * k + j) % 8 == j;
      }
      ByteOfBits(bytes[k], slice);
    }
  }

  /** The Keccak-256 digest of octets. */
  function Digest(input: seq<byte>): (digest: seq<byte>)
    ensures |digest| == 32
  {
    BitsToBytes(Keccak256(BytesToBits(input)))
  }

  method Hash(input: seq<byte>) returns (out: seq<byte>)
    ensures out == Digest(input)
  {
    out := LegacyKeccak256(input);
    BytesRoundTrip(out);
  }

  // ------------------------------------------------------------------- names

  /** The UTF-8 octets of one character. */
  function Utf8Char(c: char): seq<byte> {
    var n := c as int;
    if n < 0x80 then [n]
    else if n < 0x800 then [(0xC0 + n / 64), (0x80 + n % 64)]
    else if n < 0x10000 then [(0xE0 + n / 4096), (0x80 + n / 64 % 64), (0x80 + n % 64)]
    else
      [(0xF0 + n / 262144), (0x80 + n / 4096 % 64), (0x80 + n / 64 % 64),
       (0x80 + n % 64)]
  }

  function Utf8(s: string): seq<byte> {
    if s == "" then [] else Utf8Char(s[0]) + Utf8(s[1..])
  }

  const ROOT: seq<byte> := Hex.Zeros(32)

  /** EIP-137: the node of a name is the digest of its parent's node and the digest of
      its first label; the empty name has the zero node. */
  function Node(labels: seq<string>): (node: seq<byte>)
    ensures |node| == 32
  {
    if labels == [] then ROOT
    else Digest(Node(labels[1..]) + Digest(Utf8(labels[0])))
  }

  datatype NamehashError = EmptyLabel

  function Trimmed(labels: seq<string>): (r: seq<string>)
    ensures |r| == |labels|
  {
    seq(|labels|, i requires 0 <= i < |labels| => TrimSpace(labels[i]))
  }

  function Normalized(u: Unicode, name: string): string {
    TrimSuffix(ToLower(u, TrimSpace(name)), ".")
  }

  /** The labels whose node the name has: none for the root, else the normalized name
      cut at its dots, each piece trimmed; no piece may be blank. */
  function NameLabels(u: Unicode, name: string): Result<seq<string>, NamehashError> {
    var normalized := Normalized(u, name);
    if normalized == "" then Ok([])
    else
      var labels := Trimmed(Split(normalized, '.'));
      if "" in labels then Err(EmptyLabel) else Ok(labels)
  }

  function NodeText(labels: seq<string>): string { Hex.Encode(Node(labels)) }

  /** The loop from the last label to the first computes the recursive definition. */
  method EnsNamehash(u: Unicode, name: string) returns (r: Result<string, NamehashError>)
    ensures r == match NameLabels(u, name)
                 case Ok(labels) => Ok(NodeText(labels))
                 case Err(e) => Err(e)
  {
    var normalized := TrimSuffix(ToLower(u, TrimSpace(name)), ".");
    var node := Hex.Zeros(32);
    if normalized == "" {
      return Ok(Hex.Encode(node));
    }
    var labels := Split(normalized, '.');
    ghost var trimmed := Trimmed(labels);
    var i := |labels| - 1;
    while i >= 0
      invariant -1 <= i < |labels|
      invariant node == Node(trimmed[i + 1..])
      invariant "" !in trimmed[i + 1..]
    {
      var label_ := TrimSpace(labels[i]);
      assert trimmed[i] == label_;
      if label_ == "" {
        assert "" in trimmed;
        return Err(EmptyLabel);
      }
      assert trimmed[i..] == [label_] + trimmed[i + 1..];
      var labelHash := Hash(Utf8(label_));
      node := Hash(node + labelHash);
      i := i - 1;
    }
    assert trimmed[0..] == trimmed;
    r := Ok(Hex.Encode(node));
  }

  // -------------------------------------------------------- names and subnames

  /** A lower-case label without white space and dots. */
  ghost predicate PlainLabel(u: Unicode, s: string) {
    s != "" && ToLower(u, s) == s && forall c | c in s :: c != '.' && !IsSpace(c)
  }

  lemma PlainTrimmed(u: Unicode, s: string)
    requires PlainLabel(u, s)
    ensures TrimSpace(s) == s
  {
    assert s[0] in s && s[|s| - 1] in s;
    TrimSpaceFixed(s);
  }

  lemma {:induction false} JoinedIsLower(u: Unicode, labels: seq<string>)
    requires Conforms(u) && forall l | l in labels :: PlainLabel(u, l)
    ensures forall c | c in Join(labels, ".") :: u.lower(c) == c && !IsSpace(c)
  {
    JoinChars(labels, ".");
    forall c | c in Join(labels, ".") ensures u.lower(c) == c && !IsSpace(c) {
      if c !in "." {
        var l :| l in labels && c in l;
        var k :| 0 <= k < |l| && l[k] == c;
        assert ToLower(u, l)[k] == u.lower(l[k]);
      }
    }
  }

  lemma {:induction false} JoinedEnds(u: Unicode, labels: seq<string>)
    requires labels != [] && forall l | l in labels :: PlainLabel(u, l)
    ensures Join(labels, ".") != "" && Join(labels, ".")[|Join(labels, ".")| - 1] != '.'
  {
    assert labels[0] in labels;
    if |labels| > 1 {
      assert forall l | l in labels[1..] :: l in labels;
      JoinedEnds(u, labels[1..]);
    } else {
      assert labels[0][|labels[0]| - 1] in labels[0];
    }
  }

  /** A dotted name of plain labels, with or without the final dot, has exactly the node
      that EIP-137 gives to the list of its labels. */
  lemma DottedNameHasItsNode(u: Unicode, labels: seq<string>)
    requires Conforms(u) && labels != [] && forall l | l in labels :: PlainLabel(u, l)
    ensures NameLabels(u, Join(labels, ".")) == Ok(labels)
    ensures NameLabels(u, Join(labels, ".") + ".") == Ok(labels)
  {
    NormalizedDotted(u, labels);
    TrimmedPlain(u, labels);
    assert forall l | l in labels :: '.' !in l;
    SplitJoin(labels, '.');
  }

  /** And so has every name that is such a name in lower case. */
  lemma EveryCaseHasTheNode(u: Unicode, name: string, labels: seq<string>)
    requires Conforms(u) && labels != [] && forall l | l in labels :: PlainLabel(u, l)
    requires ToLower(u, name) == Join(labels, ".") || ToLower(u, name) == Join(labels, ".") + "."
    ensures NameLabels(u, name) == Ok(labels)
  {
    DottedNameHasItsNode(u, labels);
    NormalizedDotted(u, labels);
    NormalizedCase(u, name, ToLower(u, name), labels);
  }

  lemma NormalizedCase(u: Unicode, name: string, text: string, labels: seq<string>)
    requires Conforms(u) && labels != [] && forall l | l in labels :: PlainLabel(u, l)
    requires text == ToLower(u, name) && (text == Join(labels, ".") || text == Join(labels, ".") + ".")
    ensures Normalized(u, name) == Normalized(u, text)
  {
    JoinedIsLower(u, labels);
    JoinedEnds(u, labels);
    forall i | 0 <= i < |name| ensures !IsSpace(name[i]) && u.lower(text[i]) == text[i] {
      assert text[i] == u.lower(name[i]) && text[i] in text;
    }
    TrimSpaceFixed(name);
    TrimSpaceFixed(text);
    assert ToLower(u, text) == text;
  }

  lemma NormalizedDotted(u: Unicode, labels: seq<string>)
    requires Conforms(u) && labels != [] && forall l | l in labels :: PlainLabel(u, l)
    ensures var name := Join(labels, ".");
      name != "" && Normalized(u, name) == name && Normalized(u, name + ".") == name
  {
    var name := Join(labels, ".");
    JoinedIsLower(u, labels);
    JoinedEnds(u, labels);
    assert name[0] in name && name[|name| - 1] in name;
    TrimSpaceFixed(name);
    TrimSpaceFixed(name + ".");
    assert ToLower(u, name) == name;
    assert ToLower(u, name + ".") == name + ".";
    assert name[|name| - 1..] == [name[|name| - 1]];
    assert (name + ".")[..|name|] == name;
  }

  lemma TrimmedPlain(u: Unicode, labels: seq<string>)
    requires forall l | l in labels :: PlainLabel(u, l)
    ensures Trimmed(labels) == labels && "" !in labels
  {
    forall i | 0 <= i < |labels| ensures Trimmed(labels)[i] == labels[i] {
      assert labels[i] in labels;
      PlainTrimmed(u, labels[i]);
    }
  }

  /** Registering a label below a name hashes the name's node with the label's digest. */
  lemma SubnameNode(u: Unicode, label_: string, labels: seq<string>)
    requires Conforms(u) && PlainLabel(u, label_) && forall l | l in labels :: PlainLabel(u, l)
    ensures NameLabels(u, Join([label_] + labels, ".")) == Ok([label_] + labels)
    ensures Node([label_] + labels) == Digest(Node(labels) + Digest(Utf8(label_)))
  {
    DottedNameHasItsNode(u, [label_] + labels);
    assert ([label_] + labels)[1..] == labels;
  }
}
