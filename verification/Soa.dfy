// SOA records of authoritative zones (internal/powerdns/client.go): their text
// form, and the read-modify-write update of serial and timers.

module Soa {
  import opened Outcomes
  import opened Text
  import opened DnsName
  import Numbers

  const UINT32 := 0x1_0000_0000

  type uint32 = n: int | 0 <= n < 0x1_0000_0000

  datatype SoaRecord = SoaRecord(
    primaryNs: string, hostmaster: string, serial: uint32, ttl: uint32,
    refresh: uint32, retry: uint32, expire: uint32, minimum: uint32)

  /** An update; empty names and zeros leave the field alone, a zero serial counts up. */
  datatype SoaConfig = SoaConfig(
    primaryNs: string, hostmaster: string, serial: uint32, ttl: uint32,
    refresh: uint32, retry: uint32, expire: uint32, minimum: uint32)

  datatype SoaFault =
    | BadZoneId | ZoneMissing | NoActiveSoa | WrongApex | FieldCount | BadName | BadNumber | Invalid
    | SerialTooLow | SerialExhausted | UnsafeContent

  // ---------------------------------------------------------------- text form

  function WordEnd(s: string): (n: nat)
    ensures n <= |s|
  {
    if s == "" || IsSpace(s[0]) then 0 else 1 + WordEnd(s[1..])
  }

  /** strings.Fields */
  function Fields(s: string): seq<string>
    decreases |s|
  {
    if s == "" then []
    else if IsSpace(s[0]) then Fields(s[1..])
    else [s[..WordEnd(s)]] + Fields(s[WordEnd(s)..])
  }

  predicate IsWord(s: string) { s != "" && forall c | c in s :: !IsSpace(c) }

  lemma {:induction false} WordEndOf(w: string, rest: string)
    requires IsWord(w) && (rest != "" ==> IsSpace(rest[0]))
    ensures WordEnd(w + rest) == |w|
  {
    assert w[0] in w;
    assert (w + rest)[1..] == w[1..] + rest;
    if |w| > 1 {
      WordEndOf(w[1..], rest);
    } else {
      assert w[1..] + rest == rest;
    }
  }

  lemma {:induction false} FieldsOfJoined(words: seq<string>)
    requires forall w | w in words :: IsWord(w)
    ensures Fields(Join(words, " ")) == words
  {
    if words != [] {
      var w := words[0];
      assert w in words && w[0] in w;
      if |words| == 1 {
        WordEndOf(w, "");
        assert w + "" == w && w[..|w|] == w && w[|w|..] == "";
      } else {
        var rest := Join(words[1..], " ");
        assert forall x | x in words[1..] :: x in words;
        FieldsOfJoined(words[1..]);
        WordEndOf(w, " " + rest);
        var text := w + (" " + rest);
        assert Join(words, " ") == text;
        assert text[..|w|] == w && text[|w|..] == " " + rest && (" " + rest)[1..] == rest;
      }
    }
  }

  function Words(s: SoaRecord): seq<string> {
    [s.primaryNs, s.hostmaster, Numbers.Itoa(s.serial), Numbers.Itoa(s.refresh), Numbers.Itoa(s.retry),
     Numbers.Itoa(s.expire), Numbers.Itoa(s.minimum)]
  }

  /** The text of the record: seven fields with single blanks between them. */
  function Content(s: SoaRecord): string { Join(Words(s), " ") }

  predicate ValidSoa(s: SoaRecord) {
    && TrimSpace(s.primaryNs) != "" && TrimSpace(s.hostmaster) != ""
    && s.serial != 0
    && (s.ttl == 0 || s.ttl >= 60)
    && s.refresh >= 60 && s.retry >= 60 && s.expire >= 300 && s.minimum >= 60
  }

  function ParseNumber(field: string): Option<uint32> {
    var n := Numbers.ParseUint(field, UINT32);
    if n.None? || n.value >= UINT32 then None else Some(n.value)
  }

  function ParseNumbers(fields: seq<string>): (r: Option<seq<uint32>>)
    ensures r.Some? ==> |r.value| == |fields|
  {
    if fields == [] then Some([])
    else
      var first, rest := ParseNumber(fields[0]), ParseNumbers(fields[1..]);
      if first.None? || rest.None? then None else Some([first.value] + rest.value)
  }

  function ParseSoaContent(u: Unicode, content: string): Result<SoaRecord, SoaFault> {
    var fields := Fields(content);
    if |fields| != 7 then Err(FieldCount)
    else
      var primary, hostmaster := ToAscii(u, fields[0]), ToAscii(u, fields[1]);
      if primary.Err? || hostmaster.Err? then Err(BadName)
      else
        var values := ParseNumbers(fields[2..]);
        if values.None? then Err(BadNumber)
        else
          var v := values.value;
          var soa := SoaRecord(primary.value, hostmaster.value, v[0], 0, v[1], v[2], v[3], v[4]);
          if ValidSoa(soa) then Ok(soa) else Err(Invalid)
  }

  /** Names as the program holds them: what ToASCII answers for a name that is not blank. */
  predicate CanonicalSoa(s: SoaRecord) {
    && Canonical(s.primaryNs) && s.primaryNs != "" && Canonical(s.hostmaster) && s.hostmaster != ""
  }

  lemma CanonicalIsWord(name: string)
    requires Canonical(name) && name != ""
    ensures IsWord(name) && |name| <= MAX_NAME + 1
    ensures forall c | c in name :: ' ' < c < 127 as char
  {
    if name != "." { JoinNonEmpty(LabelsOf(name)); }
  }

  lemma NumberIsWord(n: uint32)
    ensures IsWord(Numbers.Itoa(n)) && ParseNumber(Numbers.Itoa(n)) == Some(n)
    ensures forall c | c in Numbers.Itoa(n) :: ' ' < c < 127 as char
  {
    Numbers.ItoaDigits(n);
    Numbers.ParseItoa(n, UINT32);
  }

  lemma WordsAreWords(s: SoaRecord)
    requires CanonicalSoa(s)
    ensures forall w | w in Words(s) :: IsWord(w) && forall c | c in w :: ' ' < c < 127 as char
  {
    CanonicalIsWord(s.primaryNs);
    CanonicalIsWord(s.hostmaster);
    NumberIsWord(s.serial);
    NumberIsWord(s.refresh);
    NumberIsWord(s.retry);
    NumberIsWord(s.expire);
    NumberIsWord(s.minimum);
  }

  function Numerals(values: seq<uint32>): seq<string> {
    seq(|values|, i requires 0 <= i < |values| => Numbers.Itoa(values[i]))
  }

  lemma {:induction false} NumeralsParse(values: seq<uint32>)
    ensures ParseNumbers(Numerals(values)) == Some(values)
  {
    if values != [] {
      NumberIsWord(values[0]);
      NumeralsParse(values[1..]);
      assert Numerals(values)[1..] == Numerals(values[1..]);
      assert [values[0]] + values[1..] == values;
    }
  }

  lemma NumbersRoundTrip(s: SoaRecord)
    ensures ParseNumbers(Words(s)[2..]) == Some([s.serial, s.refresh, s.retry, s.expire, s.minimum])
  {
    var values: seq<uint32> := [s.serial, s.refresh, s.retry, s.expire, s.minimum];
    NumeralsParse(values);
    assert Words(s)[2..] == Numerals(values);
  }

  /** Parsing the text of a valid record returns it, except for the TTL, which the text
      does not carry. */
  lemma ContentRoundTrip(u: Unicode, s: SoaRecord)
    requires Conforms(u) && CanonicalSoa(s) && ValidSoa(s)
    ensures ParseSoaContent(u, Content(s)) == Ok(s.(ttl := 0))
  {
    WordsAreWords(s);
    FieldsOfJoined(Words(s));
    CanonicalNameIsFixed(u, s.primaryNs);
    CanonicalNameIsFixed(u, s.hostmaster);
    NumbersRoundTrip(s);
  }

  lemma ParsedIsCanonical(u: Unicode, content: string)
    requires Conforms(u) && ParseSoaContent(u, content).Ok?
    ensures CanonicalSoa(ParseSoaContent(u, content).value)
  {
    var fields := Fields(content);
    AcceptedIsCanonical(u, fields[0]);
    AcceptedIsCanonical(u, fields[1]);
  }

  // -------------------------------------------------------------------- zones

  datatype Record = Record(content: string, disabled: bool)

  datatype RRSet = RRSet(name: string, rtype: string, ttl: uint32, records: seq<Record>)

  datatype Zone = Zone(name: string, rrsets: seq<RRSet>)

  predicate IsSoa(upper: string -> string, rtype: string) { upper(TrimSpace(rtype)) == "SOA" }

  function ActiveContent(records: seq<Record>): Option<string> {
    if records == [] then None
    else if records[0].disabled then ActiveContent(records[1..])
    else Some(records[0].content)
  }

  function DefaultUint32(value: uint32, fallback: uint32): uint32 { if value == 0 then fallback else value }

  function SoaOf(u: Unicode, upper: string -> string, name: string, rrsets: seq<RRSet>): Result<SoaRecord, SoaFault> {
    if rrsets == [] then Err(NoActiveSoa)
    else
      var r := rrsets[0];
      if !IsSoa(upper, r.rtype) then SoaOf(u, upper, name, rrsets[1..])
      else if r.name != name then Err(WrongApex)
      else
        var content := ActiveContent(r.records);
        if content.None? then SoaOf(u, upper, name, rrsets[1..])
        else
          match ParseSoaContent(u, content.value)
          case Err(e) => Err(e)
          case Ok(soa) => Ok(soa.(ttl := DefaultUint32(r.ttl, 300)))
  }

  lemma {:induction false} SoaOfIsCanonical(u: Unicode, upper: string -> string, name: string, rrsets: seq<RRSet>)
    requires Conforms(u) && SoaOf(u, upper, name, rrsets).Ok?
    ensures CanonicalSoa(SoaOf(u, upper, name, rrsets).value)
  {
    var r := rrsets[0];
    if IsSoa(upper, r.rtype) && ActiveContent(r.records).Some? {
      ParsedIsCanonical(u, ActiveContent(r.records).value);
    } else {
      SoaOfIsCanonical(u, upper, name, rrsets[1..]);
    }
  }

  // --------------------------------------------------------------- the update

  function WithNames(u: Unicode, s: SoaRecord, update: SoaConfig): Result<SoaRecord, SoaFault> {
    var primary := if TrimSpace(update.primaryNs) == "" then Ok(s.primaryNs) else ToAscii(u, update.primaryNs);
    var hostmaster := if TrimSpace(update.hostmaster) == "" then Ok(s.hostmaster) else ToAscii(u, update.hostmaster);
    if primary.Err? || hostmaster.Err? then Err(BadName)
    else Ok(s.(primaryNs := primary.value, hostmaster := hostmaster.value))
  }

  function NextSerial(current: uint32, wanted: uint32): Result<uint32, SoaFault> {
    if wanted != 0 && wanted <= current then Err(SerialTooLow)
    else if wanted == 0 && current == UINT32 - 1 then Err(SerialExhausted)
    else Ok(if wanted != 0 then wanted else current + 1)
  }

  /** The record that an update turns the current one into. */
  function Updated(u: Unicode, current: SoaRecord, update: SoaConfig): Result<SoaRecord, SoaFault> {
    match WithNames(u, current, update)
    case Err(e) => Err(e)
    case Ok(named) =>
      match NextSerial(current.serial, update.serial)
      case Err(e) => Err(e)
      case Ok(serial) =>
        var next := WithTimers(named.(serial := serial), update);
        if ValidSoa(next) then Ok(next) else Err(Invalid)
  }

  function WithTimers(s: SoaRecord, update: SoaConfig): SoaRecord {
    s.(ttl := DefaultUint32(update.ttl, s.ttl), refresh := DefaultUint32(update.refresh, s.refresh),
       retry := DefaultUint32(update.retry, s.retry), expire := DefaultUint32(update.expire, s.expire),
       minimum := DefaultUint32(update.minimum, s.minimum))
  }

  /** normalizeRecordContent of an SOA record. */
  function NormalizeContent(u: Unicode, content: string): Result<string, SoaFault> {
    var fields := Fields(TrimSpace(content));
    if |fields| != 7 then Err(FieldCount)
    else
      var primary := if fields[0] == "." then Ok(".") else ToAscii(u, fields[0]);
      var hostmaster := if fields[1] == "." then Ok(".") else ToAscii(u, fields[1]);
      if primary.Err? || hostmaster.Err? then Err(BadName)
      else Ok(Join([primary.value, hostmaster.value] + fields[2..], " "))
  }

  const MAX_CONTENT := 4096

  predicate SafeContent(content: string) {
    ByteLength(TrimSpace(content)) <= MAX_CONTENT && forall c | c in TrimSpace(content) :: c >= ' ' && c != 127 as char
  }

  /** What the server does with a REPLACE: the set of the same name and type gives way,
      or a new one is added. */
  function Replace(rrsets: seq<RRSet>, set_: RRSet): seq<RRSet> {
    if rrsets == [] then [set_]
    else if rrsets[0].name == set_.name && rrsets[0].rtype == set_.rtype then [set_] + rrsets[1..]
    else [rrsets[0]] + Replace(rrsets[1..], set_)
  }

  /** PatchAuthoritativeZone with one replacement of the apex SOA set. */
  function PatchSoa(u: Unicode, zone: Zone, zoneId: string, ttl: uint32, content: string): Result<Zone, SoaFault> {
    var id := ToAscii(u, zoneId);
    if id.Err? || id.value == "." || TrimSpace(id.value) == "" then Err(BadZoneId)
    else if !SafeContent(content) then Err(UnsafeContent)
    else
      match NormalizeContent(u, content)
      case Err(e) => Err(e)
      case Ok(text) =>
        var set_ := RRSet(id.value, "SOA", DefaultUint32(ttl, 300), [Record(text, false)]);
        Ok(Zone(zone.name, Replace(zone.rrsets, set_)))
  }

  /** An update as a function of the stored zone: the returned record and the new zone. */
  function Update(u: Unicode, upper: string -> string, zone: Zone, zoneId: string, update: SoaConfig)
    : Result<(SoaRecord, Zone), SoaFault>
  {
    match SoaOf(u, upper, zone.name, zone.rrsets)
    case Err(e) => Err(e)
    case Ok(current) =>
      match Updated(u, current, update)
      case Err(e) => Err(e)
      case Ok(next) =>
        match PatchSoa(u, zone, zoneId, next.ttl, Content(next))
        case Err(e) => Err(e)
        case Ok(patched) => Ok((next, patched))
  }

  // ---------------------------------------------------- the stored text is safe

  lemma {:induction false} ItoaLength(n: nat, k: nat)
    requires k > 0 && n < Pow10(k)
    ensures |Numbers.Itoa(n)| <= k
  {
    if n >= 10 { ItoaLength(n / 10, k - 1); }
  }

  function Pow10(n: nat): nat { if n == 0 then 1 else 10 * Pow10(n - 1) }

  lemma {:induction false} AsciiLength(s: string)
    requires forall c | c in s :: c < 128 as char
    ensures ByteLength(s) == |s|
  {
    if s != "" {
      assert s[0] in s && forall c | c in s[1..] :: c in s;
      AsciiLength(s[1..]);
    }
  }

  lemma {:induction false} JoinLength(words: seq<string>)
    requires forall w | w in words :: |w| <= MAX_NAME + 1
    ensures |Join(words, " ")| <= |words| * (MAX_NAME + 2)
  {
    if words != [] {
      assert words[0] in words;
      assert forall w | w in words[1..] :: w in words;
      JoinLength(words[1..]);
    }
  }

  lemma NumberLength(n: uint32)
    ensures |Numbers.Itoa(n)| <= 10
  {
    assert Pow10(5) == 100000;
    assert Pow10(10) == 10000000000;
    ItoaLength(n, 10);
  }

  lemma WordLengths(s: SoaRecord)
    requires CanonicalSoa(s)
    ensures forall w | w in Words(s) :: |w| <= MAX_NAME + 1
  {
    CanonicalIsWord(s.primaryNs);
    CanonicalIsWord(s.hostmaster);
    NumberLength(s.serial);
    NumberLength(s.refresh);
    NumberLength(s.retry);
    NumberLength(s.expire);
    NumberLength(s.minimum);
  }

  lemma ContentIsSafe(s: SoaRecord)
    requires CanonicalSoa(s)
    ensures TrimSpace(Content(s)) == Content(s) && SafeContent(Content(s))
  {
    var text := Content(s);
    WordsAreWords(s);
    WordLengths(s);
    JoinLength(Words(s));
    JoinChars(Words(s), " ");
    assert forall c | c in text :: ' ' <= c < 127 as char;
    AsciiLength(text);
    JoinEnds(Words(s));
    TrimSpaceFixed(text);
  }

  lemma {:induction false} JoinEnds(words: seq<string>)
    requires words != [] && forall w | w in words :: IsWord(w)
    ensures Trimmed(Join(words, " ")) && Join(words, " ") != ""
  {
    var w := words[0];
    assert w in words && w[0] in w && w[|w| - 1] in w;
    if |words| > 1 {
      assert forall x | x in words[1..] :: x in words;
      JoinEnds(words[1..]);
    }
  }

  lemma ContentFields(s: SoaRecord)
    requires CanonicalSoa(s)
    ensures Fields(TrimSpace(Content(s))) == Fields(Content(s)) == Words(s)
  {
    ContentIsSafe(s);
    WordsAreWords(s);
    FieldsOfJoined(Words(s));
  }

  /** Normalizing the stored text again changes nothing. */
  lemma ContentIsNormal(u: Unicode, s: SoaRecord)
    requires Conforms(u) && CanonicalSoa(s)
    ensures NormalizeContent(u, Content(s)) == Ok(Content(s))
  {
    ContentFields(s);
    CanonicalNameIsFixed(u, s.primaryNs);
    CanonicalNameIsFixed(u, s.hostmaster);
    SameWords(s);
  }

  lemma SameWords(s: SoaRecord)
    ensures [s.primaryNs, s.hostmaster] + Words(s)[2..] == Words(s)
  {
  }

  // --------------------------------------------------------- reading it back

  /** A zone as the server delivers it: the identifier is its name, and SOA sets carry the
      type in upper case. */
  ghost predicate Served(u: Unicode, upper: string -> string, zone: Zone, zoneId: string) {
    && Conforms(u) && upper("SOA") == "SOA"
    && Canonical(zoneId) && zoneId != "" && zoneId != "."
    && zone.name == zoneId
    && forall r | r in zone.rrsets :: IsSoa(upper, r.rtype) ==> r.rtype == "SOA"
  }

  lemma {:induction false} ReplacedIsRead(u: Unicode, upper: string -> string, name: string, rrsets: seq<RRSet>,
                                          set_: RRSet, next: SoaRecord)
    requires upper("SOA") == "SOA" && SoaOf(u, upper, name, rrsets).Ok?
    requires forall r | r in rrsets :: IsSoa(upper, r.rtype) ==> r.rtype == "SOA"
    requires set_.name == name && set_.rtype == "SOA" && next.ttl != 0 && set_.ttl == next.ttl
    requires set_.records == [Record(Content(next), false)]
    requires ParseSoaContent(u, Content(next)) == Ok(next.(ttl := 0))
    ensures SoaOf(u, upper, name, Replace(rrsets, set_)) == Ok(next)
    ensures forall r | r in Replace(rrsets, set_) :: IsSoa(upper, r.rtype) ==> r.rtype == "SOA"
  {
    var r := rrsets[0];
    assert r in rrsets;
    TrimSpaceFixed("SOA");
    if IsSoa(upper, r.rtype) {
      assert Replace(rrsets, set_) == [set_] + rrsets[1..];
      assert ActiveContent(set_.records) == Some(Content(next));
      assert forall x | x in rrsets[1..] :: x in rrsets;
    } else {
      assert forall x | x in rrsets[1..] :: x in rrsets;
      ReplacedIsRead(u, upper, name, rrsets[1..], set_, next);
      assert Replace(rrsets, set_)[1..] == Replace(rrsets[1..], set_);
    }
  }

  lemma UpdatedIsCanonical(u: Unicode, current: SoaRecord, update: SoaConfig)
    requires Conforms(u) && CanonicalSoa(current) && Updated(u, current, update).Ok?
    ensures CanonicalSoa(Updated(u, current, update).value)
  {
    if TrimSpace(update.primaryNs) != "" { AcceptedIsCanonical(u, update.primaryNs); }
    if TrimSpace(update.hostmaster) != "" { AcceptedIsCanonical(u, update.hostmaster); }
  }

  lemma {:induction false} SoaOfHasTtl(u: Unicode, upper: string -> string, name: string, rrsets: seq<RRSet>)
    requires SoaOf(u, upper, name, rrsets).Ok?
    ensures SoaOf(u, upper, name, rrsets).value.ttl != 0
    ensures SoaOf(u, upper, name, rrsets).value.serial != 0
  {
    var r := rrsets[0];
    if !(IsSoa(upper, r.rtype) && ActiveContent(r.records).Some?) {
      SoaOfHasTtl(u, upper, name, rrsets[1..]);
    }
  }

  /** The record set that an update leaves at the apex. */
  function Stored(zoneId: string, s: SoaRecord): RRSet { RRSet(zoneId, "SOA", s.ttl, [Record(Content(s), false)]) }

  lemma NextIsFit(u: Unicode, current: SoaRecord, update: SoaConfig)
    requires Conforms(u) && CanonicalSoa(current) && current.ttl != 0 && Updated(u, current, update).Ok?
    ensures var next := Updated(u, current, update).value;
      CanonicalSoa(next) && ValidSoa(next) && next.ttl != 0 && current.serial < next.serial
  {
    UpdatedIsCanonical(u, current, update);
  }

  /** The patch goes through and stores the record's own text. */
  lemma PatchStores(u: Unicode, zone: Zone, zoneId: string, next: SoaRecord)
    requires Conforms(u) && Canonical(zoneId) && zoneId != "" && zoneId != "." && CanonicalSoa(next) && next.ttl != 0
    ensures PatchSoa(u, zone, zoneId, next.ttl, Content(next))
         == Ok(Zone(zone.name, Replace(zone.rrsets, Stored(zoneId, next))))
  {
    ContentIsSafe(next);
    ContentIsNormal(u, next);
    CanonicalNameIsFixed(u, zoneId);
    CanonicalIsWord(zoneId);
    assert zoneId[0] in zoneId && zoneId[|zoneId| - 1] in zoneId;
    TrimSpaceFixed(zoneId);
  }

  /** An update succeeds as soon as the new record is valid; then reading the zone again
      gives exactly the record it returned, and its serial is above the old one. */
  lemma UpdateReadsBack(u: Unicode, upper: string -> string, zone: Zone, zoneId: string, update: SoaConfig)
    requires Served(u, upper, zone, zoneId) && SoaOf(u, upper, zoneId, zone.rrsets).Ok?
    ensures var current := SoaOf(u, upper, zoneId, zone.rrsets).value;
      var result := Update(u, upper, zone, zoneId, update);
      && result.Ok? == Updated(u, current, update).Ok?
      && (result.Ok? ==>
            && result.value.0 == Updated(u, current, update).value
            && Served(u, upper, result.value.1, zoneId)
            && SoaOf(u, upper, zoneId, result.value.1.rrsets) == Ok(result.value.0)
            && current.serial < result.value.0.serial)
  {
    var current := SoaOf(u, upper, zoneId, zone.rrsets).value;
    if Updated(u, current, update).Ok? {
      var next := Updated(u, current, update).value;
      SoaOfIsCanonical(u, upper, zoneId, zone.rrsets);
      SoaOfHasTtl(u, upper, zoneId, zone.rrsets);
      NextIsFit(u, current, update);
      PatchStores(u, zone, zoneId, next);
      ContentRoundTrip(u, next);
      ReplacedIsRead(u, upper, zoneId, zone.rrsets, Stored(zoneId, next), next);
    }
  }

  /** A field that the update sets takes its value, any other keeps its own. */
  predicate Takes(before: int, wanted: int, after: int) { after == if wanted != 0 then wanted else before }

  predicate TakesName(u: Unicode, before: string, wanted: string, after: string) {
    if TrimSpace(wanted) == "" then after == before else ToAscii(u, wanted) == Ok(after)
  }

  /** The record that a zone holds after an update, against the one before. */
  predicate Follows(u: Unicode, before: SoaRecord, update: SoaConfig, after: SoaRecord) {
    && TakesName(u, before.primaryNs, update.primaryNs, after.primaryNs)
    && TakesName(u, before.hostmaster, update.hostmaster, after.hostmaster)
    && after.serial == (if update.serial != 0 then update.serial else before.serial + 1)
    && Takes(before.ttl, update.ttl, after.ttl)
    && Takes(before.refresh, update.refresh, after.refresh)
    && Takes(before.retry, update.retry, after.retry)
    && Takes(before.expire, update.expire, after.expire)
    && Takes(before.minimum, update.minimum, after.minimum)
  }

  /** The least timers. */
  predicate TimersOk(s: SoaRecord) {
    s.ttl >= 60 && s.refresh >= 60 && s.retry >= 60 && s.expire >= 300 && s.minimum >= 60
  }

  /** Reading the zone after an update gives the wanted fields, and the update succeeds exactly
      when there is such a record with a larger serial and sufficient timers. */
  lemma UpdateSetsFields(u: Unicode, upper: string -> string, zone: Zone, zoneId: string, update: SoaConfig)
    requires Served(u, upper, zone, zoneId) && SoaOf(u, upper, zoneId, zone.rrsets).Ok?
    ensures var before := SoaOf(u, upper, zoneId, zone.rrsets).value;
      var result := Update(u, upper, zone, zoneId, update);
      && (result.Ok? ==>
            && SoaOf(u, upper, zoneId, result.value.1.rrsets).Ok?
            && var after := SoaOf(u, upper, zoneId, result.value.1.rrsets).value;
            Follows(u, before, update, after) && before.serial < after.serial && TimersOk(after))
      && (result.Err? ==>
            forall after | Follows(u, before, update, after) && TimersOk(after) :: after.serial <= before.serial)
  {
    var before := SoaOf(u, upper, zoneId, zone.rrsets).value;
    UpdateReadsBack(u, upper, zone, zoneId, update);
    SoaOfIsCanonical(u, upper, zoneId, zone.rrsets);
    SoaOfHasTtl(u, upper, zoneId, zone.rrsets);
    if Updated(u, before, update).Ok? { UpdatedFollows(u, before, update); }
    forall after | Follows(u, before, update, after) && TimersOk(after) && after.serial > before.serial
      ensures Updated(u, before, update).Ok?
    {
      FollowerIsUpdate(u, before, update, after);
    }
  }

  lemma UpdatedFollows(u: Unicode, before: SoaRecord, update: SoaConfig)
    requires Updated(u, before, update).Ok? && before.ttl != 0
    ensures var after := Updated(u, before, update).value; Follows(u, before, update, after) && TimersOk(after)
  {
  }

  lemma NamesFollow(u: Unicode, before: SoaRecord, update: SoaConfig, after: SoaRecord)
    requires Follows(u, before, update, after)
    ensures WithNames(u, before, update) == Ok(before.(primaryNs := after.primaryNs, hostmaster := after.hostmaster))
  {
  }

  lemma TimersFollow(u: Unicode, before: SoaRecord, update: SoaConfig, after: SoaRecord)
    requires Follows(u, before, update, after)
    ensures WithTimers(before.(primaryNs := after.primaryNs, hostmaster := after.hostmaster, serial := after.serial),
                       update) == after
  {
  }

  lemma SerialFollows(u: Unicode, before: SoaRecord, update: SoaConfig, after: SoaRecord)
    requires Follows(u, before, update, after) && after.serial > before.serial
    ensures NextSerial(before.serial, update.serial) == Ok(after.serial)
  {
  }

  lemma FollowerIsUpdate(u: Unicode, before: SoaRecord, update: SoaConfig, after: SoaRecord)
    requires Conforms(u) && CanonicalSoa(before) && Follows(u, before, update, after) && TimersOk(after)
    requires after.serial > before.serial
    ensures Updated(u, before, update) == Ok(after)
  {
    NamesFollow(u, before, update, after);
    SerialFollows(u, before, update, after);
    TimersFollow(u, before, update, after);
    FollowerIsValid(u, before, update, after);
  }

  lemma FollowerIsValid(u: Unicode, before: SoaRecord, update: SoaConfig, after: SoaRecord)
    requires Conforms(u) && CanonicalSoa(before) && Follows(u, before, update, after) && TimersOk(after)
    requires after.serial > before.serial
    ensures ValidSoa(after)
  {
    NameStays(u, before.primaryNs, update.primaryNs, after.primaryNs);
    NameStays(u, before.hostmaster, update.hostmaster, after.hostmaster);
  }

  lemma NameStays(u: Unicode, before: string, wanted: string, after: string)
    requires Conforms(u) && Canonical(before) && before != "" && TakesName(u, before, wanted, after)
    ensures TrimSpace(after) != ""
  {
    if TrimSpace(wanted) != "" { AcceptedIsCanonical(u, wanted); }
    CanonicalIsWord(after);
    assert after[0] in after && after[|after| - 1] in after;
    TrimSpaceFixed(after);
  }

  // ------------------------------------------------------------- whole runs

  function AfterUpdate(u: Unicode, upper: string -> string, zone: Zone, zoneId: string, update: SoaConfig): Zone {
    var result := Update(u, upper, zone, zoneId, update);
    if result.Ok? then result.value.1 else zone
  }

  function AfterUpdates(u: Unicode, upper: string -> string, zone: Zone, zoneId: string, updates: seq<SoaConfig>)
    : Zone
  {
    if updates == [] then zone
    else
      AfterUpdate(u, upper, AfterUpdates(u, upper, zone, zoneId, updates[..|updates| - 1]), zoneId,
                  updates[|updates| - 1])
  }

  /** The records that the successful updates of a run return, in order. */
  function Returned(u: Unicode, upper: string -> string, zone: Zone, zoneId: string, updates: seq<SoaConfig>)
    : seq<SoaRecord>
  {
    if updates == [] then []
    else
      var front := updates[..|updates| - 1];
      var result := Update(u, upper, AfterUpdates(u, upper, zone, zoneId, front), zoneId, updates[|updates| - 1]);
      var before := Returned(u, upper, zone, zoneId, front);
      if result.Ok? then before + [result.value.0] else before
  }

  ghost predicate Rising(first: int, records: seq<SoaRecord>) {
    && (forall i | 0 <= i < |records| :: first < records[i].serial)
    && (forall i, j | 0 <= i < j < |records| :: records[i].serial < records[j].serial)
  }

  lemma RisingSnoc(first: int, records: seq<SoaRecord>, r: SoaRecord)
    requires Rising(first, records)
    requires r.serial > if records == [] then first else records[|records| - 1].serial
    ensures Rising(first, records + [r])
  {
  }

  /** The serials of the records returned rise from the first, and the zone holds the last. */
  ghost predicate Risen(u: Unicode, upper: string -> string, first: SoaRecord, returned: seq<SoaRecord>, end: Zone,
                        zoneId: string)
  {
    && Served(u, upper, end, zoneId)
    && Rising(first.serial, returned)
    && SoaOf(u, upper, zoneId, end.rrsets) == Ok(if returned == [] then first else returned[|returned| - 1])
  }

  /** Over any run of updates the serials of the returned records rise strictly from the
      stored one, so that they never wrap and never become zero, and the zone always holds
      the record returned last. */
  lemma {:induction false} SerialsRise(u: Unicode, upper: string -> string, zone: Zone, zoneId: string,
                                       updates: seq<SoaConfig>, first: SoaRecord)
    requires Served(u, upper, zone, zoneId) && SoaOf(u, upper, zoneId, zone.rrsets) == Ok(first)
    ensures Risen(u, upper, first, Returned(u, upper, zone, zoneId, updates),
                  AfterUpdates(u, upper, zone, zoneId, updates), zoneId)
  {
    if updates == [] {
      NothingReturned(u, upper, zone, zoneId);
    } else {
      var front, update := updates[..|updates| - 1], updates[|updates| - 1];
      SerialsRise(u, upper, zone, zoneId, front, first);
      NextSerialRises(u, upper, AfterUpdates(u, upper, zone, zoneId, front), zoneId, update, first,
                      Returned(u, upper, zone, zoneId, front));
      RunOfUpdates(u, upper, zone, zoneId, updates);
    }
  }

  lemma NothingReturned(u: Unicode, upper: string -> string, zone: Zone, zoneId: string)
    ensures Returned(u, upper, zone, zoneId, []) == [] && AfterUpdates(u, upper, zone, zoneId, []) == zone
  {
  }

  lemma RunOfUpdates(u: Unicode, upper: string -> string, zone: Zone, zoneId: string, updates: seq<SoaConfig>)
    requires updates != []
    ensures var front, update := updates[..|updates| - 1], updates[|updates| - 1];
      var before := AfterUpdates(u, upper, zone, zoneId, front);
      && AfterUpdates(u, upper, zone, zoneId, updates) == AfterUpdate(u, upper, before, zoneId, update)
      && Returned(u, upper, zone, zoneId, updates)
         == More(Returned(u, upper, zone, zoneId, front), Update(u, upper, before, zoneId, update))
  {
  }

  function More(returned: seq<SoaRecord>, result: Result<(SoaRecord, Zone), SoaFault>): seq<SoaRecord> {
    if result.Ok? then returned + [result.value.0] else returned
  }

  lemma NextSerialRises(u: Unicode, upper: string -> string, zone: Zone, zoneId: string, update: SoaConfig,
                        first: SoaRecord, returned: seq<SoaRecord>)
    requires Risen(u, upper, first, returned, zone, zoneId)
    ensures Risen(u, upper, first, More(returned, Update(u, upper, zone, zoneId, update)),
                  AfterUpdate(u, upper, zone, zoneId, update), zoneId)
  {
    UpdateReadsBack(u, upper, zone, zoneId, update);
    var result := Update(u, upper, zone, zoneId, update);
    if result.Ok? { RisingSnoc(first.serial, returned, result.value.0); }
  }

  /** At the largest serial every further update is refused. */
  lemma LargestSerialIsFinal(u: Unicode, upper: string -> string, zone: Zone, zoneId: string, update: SoaConfig)
    requires Served(u, upper, zone, zoneId) && SoaOf(u, upper, zoneId, zone.rrsets).Ok?
    requires SoaOf(u, upper, zoneId, zone.rrsets).value.serial == UINT32 - 1
    ensures Update(u, upper, zone, zoneId, update).Err?
  {
    UpdateReadsBack(u, upper, zone, zoneId, update);
  }

  // -------------------------------------------------------------- the program

  /** The zones of a PowerDNS server. */
  class Server {
    var zones: map<string, Zone>

    constructor (zones: map<string, Zone>)
      ensures this.zones == zones
    {
      this.zones := zones;
    }
  }

  method ZoneSoa(u: Unicode, upper: string -> string, zone: Zone) returns (r: Result<SoaRecord, SoaFault>)
    ensures r == SoaOf(u, upper, zone.name, zone.rrsets)
  {
    for i := 0 to |zone.rrsets|
      invariant SoaOf(u, upper, zone.name, zone.rrsets) == SoaOf(u, upper, zone.name, zone.rrsets[i..])
    {
      var rrset := zone.rrsets[i];
      assert zone.rrsets[i..][1..] == zone.rrsets[i + 1..];
      if !IsSoa(upper, rrset.rtype) {
        continue;
      }
      if rrset.name != zone.name {
        return Err(WrongApex);
      }
      var active: Option<string> := None;
      for k := 0 to |rrset.records|
        invariant active == None && ActiveContent(rrset.records) == ActiveContent(rrset.records[k..])
      {
        assert rrset.records[k..][1..] == rrset.records[k + 1..];
        if !rrset.records[k].disabled {
          active := Some(rrset.records[k].content);
          break;
        }
      }
      if active.Some? {
        var soa := ParseSoaContent(u, active.value);
        if soa.Err? {
          return Err(soa.error);
        }
        return Ok(soa.value.(ttl := DefaultUint32(rrset.ttl, 300)));
      }
    }
    r := Err(NoActiveSoa);
  }

  method SetTimers(s: SoaRecord, update: SoaConfig) returns (next: SoaRecord)
    ensures next == WithTimers(s, update)
  {
    next := s;
    if update.ttl != 0 {
      next := next.(ttl := update.ttl);
    }
    if update.refresh != 0 {
      next := next.(refresh := update.refresh);
    }
    if update.retry != 0 {
      next := next.(retry := update.retry);
    }
    if update.expire != 0 {
      next := next.(expire := update.expire);
    }
    if update.minimum != 0 {
      next := next.(minimum := update.minimum);
    }
  }

  method SetNames(u: Unicode, s: SoaRecord, update: SoaConfig) returns (r: Result<SoaRecord, SoaFault>)
    ensures r == WithNames(u, s, update)
  {
    var next := s;
    if TrimSpace(update.primaryNs) != "" {
      var primary := ToAscii(u, update.primaryNs);
      if primary.Err? {
        return Err(BadName);
      }
      next := next.(primaryNs := primary.value);
    }
    if TrimSpace(update.hostmaster) != "" {
      var hostmaster := ToAscii(u, update.hostmaster);
      if hostmaster.Err? {
        return Err(BadName);
      }
      next := next.(hostmaster := hostmaster.value);
    }
    r := Ok(next);
  }

  /** The new record, built field by field. */
  method NextRecord(u: Unicode, current: SoaRecord, update: SoaConfig) returns (r: Result<SoaRecord, SoaFault>)
    ensures r == Updated(u, current, update)
  {
    var named := SetNames(u, current, update);
    if named.Err? {
      return Err(named.error);
    }
    var serial := 0;
    if update.serial != 0 {
      if update.serial <= current.serial {
        return Err(SerialTooLow);
      }
      serial := update.serial;
    } else {
      if current.serial == UINT32 - 1 {
        return Err(SerialExhausted);
      }
      serial := current.serial + 1;
    }
    assert NextSerial(current.serial, update.serial) == Ok(serial);
    var next := SetTimers(named.value.(serial := serial), update);
    if !ValidSoa(next) {
      return Err(Invalid);
    }
    r := Ok(next);
  }

  /** The read-modify-write of UpdateAuthoritativeSOA. */
  method UpdateAuthoritativeSoa(u: Unicode, upper: string -> string, server: Server, rawZoneId: string,
                                update: SoaConfig)
    returns (r: Result<SoaRecord, SoaFault>)
    modifies server
    ensures var id := ToAscii(u, rawZoneId);
      if id.Err? || id.value == "" || id.value == "." then r == Err(BadZoneId) && server.zones == old(server.zones)
      else if id.value !in old(server.zones) then r == Err(ZoneMissing) && server.zones == old(server.zones)
      else
        match Update(u, upper, old(server.zones)[id.value], id.value, update)
        case Err(e) => r == Err(e) && server.zones == old(server.zones)
        case Ok(done) => r == Ok(done.0) && server.zones == old(server.zones)[id.value := done.1]
  {
    var id := ToAscii(u, rawZoneId);
    if id.Err? || id.value == "" || id.value == "." {
      return Err(BadZoneId);
    }
    if id.value !in server.zones {
      return Err(ZoneMissing);
    }
    var zone := server.zones[id.value];
    var read := ZoneSoa(u, upper, zone);
    if read.Err? {
      return Err(read.error);
    }
    var updated := NextRecord(u, read.value, update);
    if updated.Err? {
      return Err(updated.error);
    }
    var next := updated.value;
    var patched := PatchSoa(u, zone, id.value, next.ttl, Content(next));
    if patched.Err? {
      return Err(patched.error);
    }
    server.zones := server.zones[id.value := patched.value];
    r := Ok(next);
  }
}
