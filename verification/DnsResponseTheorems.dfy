// What an accepted response guarantees, and the query that precedes it.

module DnsResponseTheorems {
  import opened Outcomes
  import opened Text
  import opened DnsName
  import opened DnsWire
  import opened DnsReader
  import opened DnsResponse

  // ----------------------------------------------------------------- tiling

  /** One record fills the octets from `a` up to `b`. */
  ghost predicate Spans(p: seq<byte>, a: nat, b: nat) {
    RecordAt(p, a).Some? && End(RecordAt(p, a).value) == b
  }

  /** Consecutive cuts enclose exactly one record each. */
  ghost predicate Tiles(p: seq<byte>, cuts: seq<nat>) {
    && cuts != []
    && forall i {:trigger Spans(p, cuts[i], cuts[i + 1])} | 0 <= i < |cuts| - 1 :: Spans(p, cuts[i], cuts[i + 1])
  }

  /** `k` applications of a partial successor. */
  function Iterate(next: nat -> Option<nat>, offset: nat, k: nat): Option<nat> {
    if k == 0 then Some(offset)
    else match Iterate(next, offset, k - 1)
      case None => None
      case Some(here) => next(here)
  }

  lemma {:induction false} IterateAdds(next: nat -> Option<nat>, offset: nat, a: nat, middle: nat, b: nat)
    requires Iterate(next, offset, a) == Some(middle)
    ensures Iterate(next, offset, a + b) == Iterate(next, middle, b)
  {
    if b > 0 { IterateAdds(next, offset, a, middle, b - 1); }
  }

  ghost function EndAt(p: seq<byte>): nat -> Option<nat> {
    (offset: nat) => if RecordAt(p, offset).Some? then Some(End(RecordAt(p, offset).value)) else None
  }

  ghost function EndOf(section: Option<Section>): Option<nat> {
    if section.Some? then Some(section.value.end) else None
  }

  lemma {:induction false} SectionIterates(p: seq<byte>, offset: nat, count: nat)
    ensures EndOf(SectionAt(p, offset, count)) == Iterate(EndAt(p), offset, count)
  {
    if count > 0 { SectionIterates(p, offset, count - 1); }
  }

  /** The places visited by the applications. */
  function Visited(next: nat -> Option<nat>, offset: nat, k: nat): (cuts: seq<nat>)
    requires Iterate(next, offset, k).Some?
    ensures |cuts| == k + 1
  {
    if k == 0 then [offset] else Visited(next, offset, k - 1) + [Iterate(next, offset, k).value]
  }

  lemma {:induction false} VisitedChain(next: nat -> Option<nat>, offset: nat, k: nat)
    requires Iterate(next, offset, k).Some?
    ensures var cuts := Visited(next, offset, k);
            && cuts[0] == offset && cuts[k] == Iterate(next, offset, k).value
            && forall i | 0 <= i < k :: next(cuts[i]) == Some(cuts[i + 1])
  {
    if k > 0 { VisitedChain(next, offset, k - 1); }
  }

  /** A NOERROR result means that the header, the question and all the records
      counted in the header cover the packet without gap or remainder. */
  lemma NoErrorTilesPacket(p: seq<byte>, id: nat, qname: string, qtype: nat, norm: string -> string)
    returns (cuts: seq<nat>)
    requires Meaning(p, id, qname, qtype, norm).Some? && Meaning(p, id, qname, qtype, norm).value.NoError?
    ensures Tiles(p, cuts) && |cuts| == U16(p, 6) + (U16(p, 8) + U16(p, 10)) + 1
    ensures cuts[0] == NameAt(p, 12).value.next + 4 && cuts[|cuts| - 1] == |p|
  {
    cuts := BodyTiles(p, NameAt(p, 12).value.next + 4);
  }

  lemma BodyTiles(p: seq<byte>, start: nat) returns (cuts: seq<nat>)
    requires |p| >= 12 && Body(p, start).Some?
    ensures Tiles(p, cuts) && |cuts| == U16(p, 6) + (U16(p, 8) + U16(p, 10)) + 1
    ensures cuts[0] == start && cuts[|cuts| - 1] == |p|
  {
    var a, b := U16(p, 6), U16(p, 8) + U16(p, 10);
    var middle := BodyMiddle(p, start);
    IterateAdds(EndAt(p), start, a, middle, b);
    cuts := Visited(EndAt(p), start, a + b);
    VisitedChain(EndAt(p), start, a + b);
    ChainTiles(p, cuts);
  }

  lemma ChainTiles(p: seq<byte>, cuts: seq<nat>)
    requires cuts != [] && forall i | 0 <= i < |cuts| - 1 :: EndAt(p)(cuts[i]) == Some(cuts[i + 1])
    ensures Tiles(p, cuts)
  {
    forall i | 0 <= i < |cuts| - 1 ensures Spans(p, cuts[i], cuts[i + 1]) {
      assert EndAt(p)(cuts[i]) == Some(cuts[i + 1]);
    }
  }

  lemma BodyMiddle(p: seq<byte>, start: nat) returns (middle: nat)
    requires |p| >= 12 && Body(p, start).Some?
    ensures Iterate(EndAt(p), start, U16(p, 6)) == Some(middle)
    ensures Iterate(EndAt(p), middle, U16(p, 8) + U16(p, 10)) == Some(|p|)
  {
    middle := SectionAt(p, start, U16(p, 6)).value.end;
    SectionIterates(p, start, U16(p, 6));
    SectionIterates(p, middle, U16(p, 8) + U16(p, 10));
  }

  // ---------------------------------------------------------- names and TTL

  lemma {:induction false} KeptNames(p: seq<byte>, records: seq<Record>, qname: string, norm: string -> string)
    requires InPacket(p, records) && qname != ""
    ensures forall rr | rr in KeptAll(p, records, qname, norm) :: rr.name == norm(qname)
  {
    if records != [] { KeptNames(p, records[..|records| - 1], qname, norm); }
  }

  /** Every record returned bears the queried name. */
  lemma AnswersBearQueryName(p: seq<byte>, id: nat, qname: string, qtype: nat, norm: string -> string)
    requires qname != ""
    requires Meaning(p, id, qname, qtype, norm).Some? && Meaning(p, id, qname, qtype, norm).value.NoError?
    ensures forall rr | rr in Meaning(p, id, qname, qtype, norm).value.rrset :: rr.name == norm(qname)
  {
    var start := NameAt(p, 12).value.next + 4;
    SectionInPacket(p, start, U16(p, 6));
    KeptNames(p, Body(p, start).value, qname, norm);
  }

  /** The pieces of a name between dots, whether these separate labels or stand in one. */
  function DotParts(labels: seq<Label>): seq<string> {
    if labels == [] then [] else Split(Spell(labels[0]), '.') + DotParts(labels[1..])
  }

  lemma {:induction false} SplitText(labels: seq<Label>)
    requires labels != []
    ensures Split(Join(SpellAll(labels), "."), '.') == DotParts(labels)
  {
    var spelled := SpellAll(labels);
    assert spelled[1..] == SpellAll(labels[1..]);
    if |labels| == 1 {
      assert DotParts(labels[1..]) == [];
    } else {
      SplitText(labels[1..]);
      SplitBoth(spelled[0], '.', Join(spelled[1..], "."));
    }
  }

  /** Names are compared as texts.  Two lists of nonempty labels have one text exactly when
      they have the same pieces between dots. */
  lemma SameTextIff(a: seq<Label>, b: seq<Label>)
    requires (forall s | s in a :: s != []) && (forall s | s in b :: s != [])
    ensures NameText(a) == NameText(b) <==> DotParts(a) == DotParts(b)
  {
    LongerText(a);
    LongerText(b);
    if a != [] && b != [] {
      var ta, tb := Join(SpellAll(a), "."), Join(SpellAll(b), ".");
      SplitText(a);
      SplitText(b);
      JoinSplit(ta, '.');
      JoinSplit(tb, '.');
      if NameText(a) == NameText(b) {
        assert ta == NameText(a)[..|ta|] && tb == NameText(b)[..|tb|];
      }
    }
  }

  lemma LongerText(labels: seq<Label>)
    requires forall s | s in labels :: s != []
    ensures labels != [] ==> |NameText(labels)| > 1 && DotParts(labels) != []
  {
    if labels != [] {
      assert labels[0] in labels;
      assert SpellAll(labels)[0] == Spell(labels[0]);
    }
  }

  predicate Dotless(labels: seq<Label>) { forall s | s in labels :: '.' as int !in s }

  lemma {:induction false} DotlessParts(labels: seq<Label>)
    requires Dotless(labels)
    ensures DotParts(labels) == SpellAll(labels)
  {
    if labels != [] {
      assert labels[0] in labels && forall s | s in labels[1..] :: s in labels;
      DotlessParts(labels[1..]);
      SplitFirst(Spell(labels[0]), '.', "");
      assert SpellAll(labels) == [Spell(labels[0])] + SpellAll(labels[1..]);
    }
  }

  lemma SpellDecides(a: Label, b: Label)
    requires Spell(a) == Spell(b)
    ensures a == b
  {
    assert |Spell(a)| == |Spell(b)|;
    forall k | 0 <= k < |a| ensures a[k] == b[k] {
      assert Spell(a)[k] as int == a[k] && Spell(b)[k] as int == b[k];
    }
  }

  lemma SpelledSame(a: seq<Label>, b: seq<Label>)
    requires SpellAll(a) == SpellAll(b)
    ensures a == b
  {
    assert |SpellAll(a)| == |SpellAll(b)|;
    forall i | 0 <= i < |a| ensures a[i] == b[i] {
      assert SpellAll(a)[i] == SpellAll(b)[i];
      SpellDecides(a[i], b[i]);
    }
  }

  /** So without dot octets the text determines the labels. */
  lemma DotlessTextDecides(a: seq<Label>, b: seq<Label>)
    requires (forall s | s in a :: s != []) && (forall s | s in b :: s != []) && Dotless(a) && Dotless(b)
    ensures NameText(a) == NameText(b) <==> a == b
  {
    SameTextIff(a, b);
    DotlessParts(a);
    DotlessParts(b);
    if SpellAll(a) == SpellAll(b) { SpelledSame(a, b); }
  }

  lemma {:induction false} LeastTtlIsLeast(rrset: seq<RR>)
    ensures LeastTtl(rrset) == 0 <==> forall rr | rr in rrset :: rr.ttl == 0
    ensures LeastTtl(rrset) > 0 ==>
              && (exists rr :: rr in rrset && rr.ttl == LeastTtl(rrset))
              && forall rr | rr in rrset && rr.ttl > 0 :: LeastTtl(rrset) <= rr.ttl
  {
    if rrset != [] {
      var before, last := rrset[..|rrset| - 1], rrset[|rrset| - 1];
      LeastTtlIsLeast(before);
      assert rrset == before + [last];
      assert last in rrset;
    }
  }

  /** The TTL of the answer is the least positive one returned, or 60. */
  lemma AnswerTtl(p: seq<byte>, id: nat, qname: string, qtype: nat, norm: string -> string)
    requires Meaning(p, id, qname, qtype, norm).Some? && Meaning(p, id, qname, qtype, norm).value.NoError?
    ensures var NoError(ttl, rrset) := Meaning(p, id, qname, qtype, norm).value;
            if exists rr :: rr in rrset && rr.ttl > 0
            then
              && (exists rr :: rr in rrset && rr.ttl == ttl)
              && (forall rr | rr in rrset && rr.ttl > 0 :: 0 < ttl <= rr.ttl)
            else ttl == DEFAULT_TTL
  {
    LeastTtlIsLeast(Meaning(p, id, qname, qtype, norm).value.rrset);
  }

  // -------------------------------------------------------------- TXT data

  predicate Strings(parts: seq<seq<byte>>) { forall s | s in parts :: |s| < 256 }

  function EncodeText(parts: seq<seq<byte>>): seq<byte>
    requires Strings(parts)
  {
    if parts == [] then []
    else
      assert parts[0] in parts;
      [|parts[0]|] + parts[0] + EncodeText(parts[1..])
  }

  function Flatten(parts: seq<seq<byte>>): seq<byte> {
    if parts == [] then [] else parts[0] + Flatten(parts[1..])
  }

  /** TXT data is accepted iff it is a series of character strings (RFC 1035
      section 3.3.14), and then their concatenation is returned. */
  lemma {:induction false} TextDecodes(parts: seq<seq<byte>>, rdata: seq<byte>, i: nat)
    requires Strings(parts) && i <= |rdata| && rdata[i..] == EncodeText(parts)
    ensures TextFrom(rdata, i) == Some(Flatten(parts))
    decreases parts
  {
    if parts == [] {
      assert i == |rdata|;
    } else {
      var text := parts[0];
      assert text in parts;
      var tail := rdata[i..];
      assert tail == [|text|] + text + EncodeText(parts[1..]);
      assert rdata[i] == tail[0] == |text|;
      assert rdata[i + 1..i + 1 + |text|] == tail[1..1 + |text|] == text;
      assert rdata[i + 1 + |text|..] == tail[1 + |text|..] == EncodeText(parts[1..]);
      TextDecodes(parts[1..], rdata, i + 1 + |text|);
    }
  }

  lemma {:induction false} TextEncoded(rdata: seq<byte>, i: nat) returns (parts: seq<seq<byte>>)
    requires i <= |rdata| && TextFrom(rdata, i).Some?
    ensures Strings(parts) && rdata[i..] == EncodeText(parts)
    decreases |rdata| - i
  {
    if i >= |rdata| {
      parts := [];
    } else {
      var length: int := rdata[i];
      var text := rdata[i + 1..i + 1 + length];
      var rest := TextEncoded(rdata, i + 1 + length);
      parts := [text] + rest;
      assert parts[1..] == rest;
      assert rdata[i..] == [rdata[i]] + text + rdata[i + 1 + length..];
    }
  }

  // -------------------------------------------------------------- the query

  function Header(id: nat, flags: nat): seq<byte>
    requires id < 0x10000 && flags < 0x10000
  {
    Uint16(id) + Uint16(flags) + Uint16(1) + Uint16(0) + Uint16(0) + Uint16(0)
  }

  function Query(id: nat, flags: nat, labels: seq<Label>, qtype: nat): seq<byte>
    requires id < 0x10000 && flags < 0x10000 && qtype < 0x10000 && forall s | s in labels :: WireLabel(s)
  {
    Header(id, flags) + Encode(labels) + Uint16(qtype) + Uint16(1)
  }

  /** buildDNSQuery, with the random identifier as a parameter. */
  method BuildQuery(u: Unicode, id: nat, qname: string, qtype: nat) returns (packet: Option<seq<byte>>)
    requires id < 0x10000 && qtype < 0x10000
    ensures packet.Some? ==>
              && ToAscii(u, qname).Ok?
              && WireLabels(OctetsAll(NameLabels(ToAscii(u, qname).value)))
              && packet.value == Query(id, 0x0100, OctetsAll(NameLabels(ToAscii(u, qname).value)), qtype)
    ensures packet.None? <==> ToAscii(u, qname).Err? || !WireLabels(OctetsAll(NameLabels(ToAscii(u, qname).value)))
  {
    var buf := new Buffer();
    buf.WriteUint16(id);
    buf.WriteUint16(0x0100);
    buf.WriteUint16(1);
    buf.WriteUint16(0);
    buf.WriteUint16(0);
    buf.WriteUint16(0);
    assert buf.bytes == Header(id, 0x0100);
    var ok := WriteName(buf, u, qname);
    if !ok {
      return None;
    }
    buf.WriteUint16(qtype);
    buf.WriteUint16(1);
    return Some(buf.bytes);
  }

  /** A query that comes back with the response bit set and nothing added is an
      empty NOERROR answer to itself, for every name that can be asked, exactly when
      the written name and the given one have the same normal form. */
  lemma EchoedQueryIsEmptyAnswer(u: Unicode, qname: string, name: string, id: nat, qtype: nat, norm: string -> string)
    requires Conforms(u) && ToAscii(u, qname) == Ok(name) && id < 0x10000 && qtype < 0x10000
    ensures WireLabels(OctetsAll(NameLabels(name)))
    ensures Meaning(Query(id, 0x8100, OctetsAll(NameLabels(name)), qtype), id, qname, qtype, norm)
         == if qname == "" || norm(Shown(name)) == norm(qname) then Some(NoError(DEFAULT_TTL, [])) else None
  {
    var labels := WrittenLabels(u, qname, name);
    EchoedMeaning(labels, Shown(name), qname, id, qtype, norm);
  }

  lemma EchoedMeaning(labels: seq<Label>, shown: string, qname: string, id: nat, qtype: nat, norm: string -> string)
    requires WireLabels(labels) && NameText(labels) == shown && id < 0x10000 && qtype < 0x10000
    ensures Meaning(Query(id, 0x8100, labels, qtype), id, qname, qtype, norm)
         == if qname == "" || norm(shown) == norm(qname) then Some(NoError(DEFAULT_TTL, [])) else None
  {
    EchoedHeader(id, labels, qtype);
    EchoedQuestion(labels, shown, id, qtype);
    NothingFollows(Query(id, 0x8100, labels, qtype));
  }

  lemma EchoedHeader(id: nat, labels: seq<Label>, qtype: nat)
    requires id < 0x10000 && qtype < 0x10000 && forall s | s in labels :: WireLabel(s)
    ensures var p := Query(id, 0x8100, labels, qtype);
      HeaderMatches(p, id) && p[3] % 16 == 0 && U16(p, 6) == 0 && U16(p, 8) == 0 && U16(p, 10) == 0
  {
    var p := Query(id, 0x8100, labels, qtype);
    assert p[..12] == Header(id, 0x8100);
    HeaderFields(p, id);
  }

  lemma EchoedQuestion(labels: seq<Label>, shown: string, id: nat, qtype: nat)
    requires WireLabels(labels) && NameText(labels) == shown && id < 0x10000 && qtype < 0x10000
    ensures var p := Query(id, 0x8100, labels, qtype);
      && |p| >= 16 && NameAt(p, 12) == Some(ReadName(shown, |p| - 4))
      && U16(p, |p| - 4) == qtype && U16(p, |p| - 2) == 1
  {
    QueryQuestion(id, labels, qtype);
    WireReads(Query(id, 0x8100, labels, qtype), 12, labels, Encode(labels), shown);
  }

  lemma NothingFollows(p: seq<byte>)
    requires |p| >= 12 && U16(p, 6) == 0 && U16(p, 8) == 0 && U16(p, 10) == 0
    ensures Body(p, |p|) == Some([])
  {
  }

  lemma QueryQuestion(id: nat, labels: seq<Label>, qtype: nat)
    requires id < 0x10000 && qtype < 0x10000 && forall s | s in labels :: WireLabel(s)
    ensures var p := Query(id, 0x8100, labels, qtype);
            var next := 12 + |Encode(labels)|;
            && |p| == next + 4 && p[12..next] == Encode(labels)
            && U16(p, next) == qtype && U16(p, next + 2) == 1
  {
    var p := Query(id, 0x8100, labels, qtype);
    var next := 12 + |Encode(labels)|;
    var tail := Uint16(qtype) + Uint16(1);
    assert p == Header(id, 0x8100) + Encode(labels) + tail;
    assert forall i | 0 <= i < 4 :: p[next + i] == tail[i];
  }

  lemma HeaderFields(p: seq<byte>, id: nat)
    requires id < 0x10000 && |p| >= 12 && p[..12] == Header(id, 0x8100)
    ensures U16(p, 0) == id && p[2] == 0x81 && p[3] == 0 && U16(p, 4) == 1
    ensures U16(p, 6) == 0 && U16(p, 8) == 0 && U16(p, 10) == 0
  {
    var h := Header(id, 0x8100);
    assert forall i | 0 <= i < 12 :: p[i] == p[..12][i] == h[i];
  }

  // ---------------------------------------------------- the name mapping

  function BackendName(u: Unicode, qname: string): string {
    var name := NormalizeQName(u, qname);
    if HasSuffix(name, ".hns.") && |name| > 5 then TrimSuffix(name, ".hns.") + "."
    else if HasSuffix(name, ".hsd.") && |name| > 5 then TrimSuffix(name, ".hsd.") + "."
    else name
  }

  predicate RootLabel(s: string) {
    s != "" && s[0] != '-' && s[|s| - 1] != '-' && forall c | c in s :: 'a' <= c <= 'z' || '0' <= c <= '9' || c == '-'
  }

  predicate ValidRoot(qname: string) {
    var name := TrimSuffix(qname, ".");
    name != "" && var labels := Split(name, '.'); RootLabel(labels[|labels| - 1])
  }

  /** hnsDNSBackendQName. */
  function BackendQName(u: Unicode, qname: string): Option<string> {
    match ToAscii(u, BackendName(u, qname))
    case Err(_) => None
    case Ok(ascii) => if ValidRoot(ascii) then Some(ascii) else None
  }

  /** restoreHNSDNSAnswerName. */
  function RestoreName(u: Unicode, answerName: string, backendQName: string, originalQName: string): string {
    var answer := NormalizeQName(u, answerName);
    var backend := NormalizeQName(u, backendQName);
    var original := NormalizeQName(u, originalQName);
    if answer == backend then original
    else
      var base := TrimSuffix(backend, ".");
      if base == "" then answer
      else if HasSuffix(answer, "." + base + ".")
      then TrimSuffix(answer, "." + base + ".") + "." + TrimSuffix(original, ".") + "."
      else answer
  }

  lemma BackendQNameIsCanonical(u: Unicode, qname: string)
    requires Conforms(u) && BackendQName(u, qname).Some?
    ensures var name := BackendQName(u, qname).value;
            Canonical(name) && name != "" && name != "." && NormalizeQName(u, name) == name
  {
    AcceptedIsCanonical(u, BackendName(u, qname));
    NormalizeCanonical(u, BackendQName(u, qname).value);
  }

  /** The whole exchange: every record that resolveDNSBackend hands out bears the
      name that was asked for, whatever the backend answered. */
  lemma ResolvedNamesAreTheOriginal(u: Unicode, asked: string, p: seq<byte>, id: nat, qtype: nat,
                                    norm: string -> string)
    requires Conforms(u) && BackendQName(u, NormalizeQName(u, asked)).Some?
    requires forall name | Canonical(name) && name != "" :: norm(name) == name
    requires var q := BackendQName(u, NormalizeQName(u, asked)).value;
             Meaning(p, id, q, qtype, norm).Some? && Meaning(p, id, q, qtype, norm).value.NoError?
    ensures var original := NormalizeQName(u, asked);
            var q := BackendQName(u, original).value;
            forall rr | rr in Meaning(p, id, q, qtype, norm).value.rrset ::
              rr.name == q && RestoreName(u, rr.name, q, original) == original
  {
    var original := NormalizeQName(u, asked);
    var q := BackendQName(u, original).value;
    BackendQNameIsCanonical(u, original);
    AnswersBearQueryName(p, id, q, qtype, norm);
    NormalizeIdempotent(u, asked);
  }

  /** And the query itself can always be built, in at most 271 octets. */
  lemma BackendQueryFits(u: Unicode, qname: string, id: nat, qtype: nat)
    requires Conforms(u) && BackendQName(u, qname).Some? && id < 0x10000 && qtype < 0x10000
    ensures var name := BackendQName(u, qname).value;
            && ToAscii(u, name) == Ok(name)
            && WireLabels(OctetsAll(NameLabels(name)))
            && |Query(id, 0x0100, OctetsAll(NameLabels(name)), qtype)| == |name| + 17 <= 271
  {
    var name := BackendQName(u, qname).value;
    BackendQNameIsCanonical(u, qname);
    CanonicalNameIsFixed(u, name);
    CanonicalFits(name);
    EncodeLength(OctetsAll(NameLabels(name)));
    assert HasSuffix(name, ".");
  }
}
