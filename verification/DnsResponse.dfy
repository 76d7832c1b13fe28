// Queries and responses: buildDNSQuery, parseDNSResponse, skipDNSRR, formatRDATA
// and the name mapping of internal/plugins/hns/dns_backend.go (RFC 1035 section 4.1).

module DnsResponse {
  import opened Outcomes
  import opened Text
  import opened DnsName
  import opened DnsWire
  import opened DnsReader

  function U16(p: seq<byte>, i: nat): nat
    requires i + 2 <= |p|
  {
    var high: nat, low: nat := p[i], p[i + 1];
    high * 256 + low
  }

  function U32(p: seq<byte>, i: nat): nat
    requires i + 4 <= |p|
  {
    U16(p, i) * 65536 + U16(p, i + 2)
  }

  // ---------------------------------------------------------------- records

  /** A resource record, RFC 1035 section 4.1.3; `rdata` is the offset of its data. */
  datatype Record = Record(name: string, typ: nat, class_: nat, ttl: nat, rdata: nat, length: nat)

  function End(r: Record): nat { r.rdata + r.length }

  ghost function RecordAt(p: seq<byte>, offset: nat): (r: Option<Record>)
    ensures r.Some? ==> offset < End(r.value) <= |p| && r.value.rdata >= 10
  {
    match NameAt(p, offset)
    case None => None
    case Some(ReadName(name, next)) =>
      NameAtInBounds(p, offset);
      if next + 10 > |p| || next + 10 + U16(p, next + 8) > |p| then None
      else Some(Record(name, U16(p, next), U16(p, next + 2), U32(p, next + 4), next + 10, U16(p, next + 8)))
  }

  datatype Section = Section(records: seq<Record>, end: nat)

  /** `count` records standing one behind the other from `offset` on. */
  ghost function SectionAt(p: seq<byte>, offset: nat, count: nat): (r: Option<Section>)
    ensures r.Some? ==> |r.value.records| == count
  {
    if count == 0 then Some(Section([], offset))
    else match SectionAt(p, offset, count - 1)
      case None => None
      case Some(Section(records, end)) =>
        match RecordAt(p, end)
        case None => None
        case Some(r) => Some(Section(records + [r], End(r)))
  }

  lemma {:induction false} SectionPrefix(p: seq<byte>, offset: nat, count: nat, more: nat)
    requires count <= more && SectionAt(p, offset, count).None?
    ensures SectionAt(p, offset, more).None?
  {
    if count < more { SectionPrefix(p, offset, count, more - 1); }
  }

  // ------------------------------------------------------------------ RDATA

  /** The content of a record before it is printed. */
  datatype RData =
    | Address(octets: seq<byte>)
    | Target(name: string)
    | Exchange(preference: nat, name: string)
    | TextData(octets: seq<byte>)
    | Service(priority: nat, weight: nat, port: nat, name: string)
    | Digest(first: nat, second: nat, third: nat, data: seq<byte>)
    | Authority(flags: nat, tag: seq<byte>, value: seq<byte>)
    | Unknown(octets: seq<byte>)

  /** A name inside RDATA must end within it. */
  ghost function NameWithin(p: seq<byte>, offset: nat, end: nat): Option<string> {
    match NameAt(p, offset)
    case None => None
    case Some(ReadName(name, next)) => if next > end then None else Some(name)
  }

  /** Length-prefixed character strings, which must tile the data. */
  function TextFrom(rdata: seq<byte>, i: nat): Option<seq<byte>>
    decreases |rdata| - i
  {
    if i >= |rdata| then Some([])
    else
      var length: int := rdata[i];
      if i + 1 + length > |rdata| then None
      else match TextFrom(rdata, i + 1 + length)
        case None => None
        case Some(rest) => Some(rdata[i + 1..i + 1 + length] + rest)
  }

  /** The types whose data are octets only. */
  function OctetData(rdata: seq<byte>, typ: nat): Option<RData> {
    if typ == 1 then if |rdata| != 4 then None else Some(Address(rdata))
    else if typ == 28 then if |rdata| != 16 then None else Some(Address(rdata))
    else if typ == 43 || typ == 48 then
      if |rdata| < 4 then None else Some(Digest(U16(rdata, 0), rdata[2], rdata[3], rdata[4..]))
    else if typ == 52 then
      if |rdata| < 3 then None else Some(Digest(rdata[0], rdata[1], rdata[2], rdata[3..]))
    else if typ == 257 then
      if |rdata| < 2 then None
      else
        var tagLength: int := rdata[1];
        if 2 + tagLength > |rdata| then None
        else Some(Authority(rdata[0], rdata[2..2 + tagLength], rdata[2 + tagLength..]))
    else Some(Unknown(rdata))
  }

  ghost function RDataOf(p: seq<byte>, offset: nat, length: nat, typ: nat, norm: string -> string): Option<RData>
    requires offset + length <= |p|
  {
    var rdata := p[offset..offset + length];
    var end := offset + length;
    if typ == 2 || typ == 5 then
      match NameWithin(p, offset, end)
      case None => None
      case Some(name) => Some(Target(norm(name)))
    else if typ == 15 then
      if length < 3 then None
      else match NameWithin(p, offset + 2, end)
        case None => None
        case Some(name) => Some(Exchange(U16(rdata, 0), norm(name)))
    else if typ == 16 then
      match TextFrom(rdata, 0)
      case None => None
      case Some(octets) => Some(TextData(octets))
    else if typ == 33 then
      if length < 7 then None
      else match NameWithin(p, offset + 6, end)
        case None => None
        case Some(name) => Some(Service(U16(rdata, 0), U16(rdata, 2), U16(rdata, 4), norm(name)))
    else OctetData(rdata, typ)
  }

  method ReadWithin(p: seq<byte>, offset: nat, end: nat) returns (name: Option<string>)
    ensures name == NameWithin(p, offset, end)
  {
    var read := Read(p, offset);
    match read
    case Err(_) => return None;
    case Ok(ReadName(text, next)) =>
      if next > end {
        return None;
      }
      return Some(text);
  }

  /** The TXT case of formatRDATA. */
  method FormatText(rdata: seq<byte>) returns (octets: Option<seq<byte>>)
    ensures octets == TextFrom(rdata, 0)
  {
    var parts: seq<byte> := [];
    var i := 0;
    assert forall rest: seq<byte> :: [] + rest == rest;
    while i < |rdata|
      invariant 0 <= i <= |rdata|
      invariant TextFrom(rdata, 0) ==
                match TextFrom(rdata, i) case None => None case Some(rest) => Some(parts + rest)
    {
      var l: int := rdata[i];
      i := i + 1;
      if i + l > |rdata| {
        return None;
      }
      ghost var before := parts;
      parts := parts + rdata[i..i + l];
      assert forall rest: seq<byte> :: before + (rdata[i..i + l] + rest) == parts + rest;
      i := i + l;
    }
    assert parts + [] == parts;
    return Some(parts);
  }

  method FormatOctets(rdata: seq<byte>, typ: nat) returns (value: Option<RData>)
    ensures value == OctetData(rdata, typ)
  {
    if typ == 1 || typ == 28 {
      return if |rdata| != (if typ == 1 then 4 else 16) then None else Some(Address(rdata));
    }
    if typ == 43 || typ == 48 {
      return if |rdata| < 4 then None else Some(Digest(U16(rdata, 0), rdata[2], rdata[3], rdata[4..]));
    }
    if typ == 52 {
      return if |rdata| < 3 then None else Some(Digest(rdata[0], rdata[1], rdata[2], rdata[3..]));
    }
    if typ == 257 {
      if |rdata| < 2 {
        return None;
      }
      var tagLength: int := rdata[1];
      return if 2 + tagLength > |rdata| then None
             else Some(Authority(rdata[0], rdata[2..2 + tagLength], rdata[2 + tagLength..]));
    }
    return Some(Unknown(rdata));
  }

  method FormatRData(p: seq<byte>, offset: nat, rdata: seq<byte>, typ: nat, norm: string -> string)
    returns (value: Option<RData>)
    requires offset + |rdata| <= |p| && rdata == p[offset..offset + |rdata|]
    ensures value == RDataOf(p, offset, |rdata|, typ, norm)
  {
    var end := offset + |rdata|;
    if typ == 2 || typ == 5 {
      var name := ReadWithin(p, offset, end);
      return if name.None? then None else Some(Target(norm(name.value)));
    }
    if typ == 15 {
      if |rdata| < 3 {
        return None;
      }
      var name := ReadWithin(p, offset + 2, end);
      return if name.None? then None else Some(Exchange(U16(rdata, 0), norm(name.value)));
    }
    if typ == 16 {
      var octets := FormatText(rdata);
      return if octets.None? then None else Some(TextData(octets.value));
    }
    if typ == 33 {
      if |rdata| < 7 {
        return None;
      }
      var name := ReadWithin(p, offset + 6, end);
      return if name.None? then None
             else Some(Service(U16(rdata, 0), U16(rdata, 2), U16(rdata, 4), norm(name.value)));
    }
    value := FormatOctets(rdata, typ);
  }

  // --------------------------------------------------------------- responses

  datatype RR = RR(name: string, typ: nat, ttl: nat, value: RData)

  datatype Answer = NxDomain | NoError(ttl: nat, rrset: seq<RR>)

  datatype ParseError =
    | ShortResponse | IdMismatch | NotAResponse | QuestionCount | BadName(fault: NameFault) | ShortQuestion
    | QuestionName | QuestionType | QuestionClass | BadRCode(rcode: nat) | ShortHeader | ShortRData | ExtraData

  const DEFAULT_TTL := 60

  /** An answer record is returned when it has class IN, the queried name and usable data. */
  ghost function Kept(p: seq<byte>, r: Record, qname: string, norm: string -> string): Option<RR>
    requires End(r) <= |p|
  {
    if r.class_ != 1 || (qname != "" && norm(r.name) != norm(qname)) then None
    else match RDataOf(p, r.rdata, r.length, r.typ, norm)
      case None => None
      case Some(value) => Some(RR(norm(r.name), r.typ, r.ttl, value))
  }

  ghost predicate InPacket(p: seq<byte>, records: seq<Record>) { forall r | r in records :: End(r) <= |p| }

  ghost function KeptAll(p: seq<byte>, records: seq<Record>, qname: string, norm: string -> string): seq<RR>
    requires InPacket(p, records)
  {
    if records == [] then []
    else
      var last := records[|records| - 1];
      KeptAll(p, records[..|records| - 1], qname, norm) +
      match Kept(p, last, qname, norm)
      case None => []
      case Some(rr) => [rr]
  }

  /** The running minimum of the source; 0 while no positive TTL has been seen. */
  function LeastTtl(rrset: seq<RR>): nat {
    if rrset == [] then 0
    else
      var ttl, next := LeastTtl(rrset[..|rrset| - 1]), rrset[|rrset| - 1].ttl;
      if next > 0 && (ttl == 0 || next < ttl) then next else ttl
  }

  lemma {:induction false} SectionInPacket(p: seq<byte>, offset: nat, count: nat)
    requires SectionAt(p, offset, count).Some?
    ensures InPacket(p, SectionAt(p, offset, count).value.records)
  {
    if count > 0 { SectionInPacket(p, offset, count - 1); }
  }

  ghost predicate QuestionMatches(p: seq<byte>, qname: string, qtype: nat, norm: string -> string) {
    NameAt(p, 12).Some? &&
    var ReadName(name, next) := NameAt(p, 12).value;
    && next + 4 <= |p|
    && (qname != "" ==> norm(name) == norm(qname))
    && (qtype != 0 ==> U16(p, next) == qtype)
    && U16(p, next + 2) == 1
  }

  ghost predicate HeaderMatches(p: seq<byte>, id: nat) {
    |p| >= 12 && U16(p, 0) == id && p[2] >= 0x80 && U16(p, 4) == 1
  }

  /** The three record sections reach exactly to the end of the packet. */
  ghost function Body(p: seq<byte>, start: nat): Option<seq<Record>>
    requires |p| >= 12
  {
    match SectionAt(p, start, U16(p, 6))
    case None => None
    case Some(Section(answers, middle)) =>
      match SectionAt(p, middle, U16(p, 8) + U16(p, 10))
      case None => None
      case Some(Section(_, end)) => if end == |p| then Some(answers) else None
  }

  /** What a packet means as the response to a query. */
  ghost function Meaning(p: seq<byte>, id: nat, qname: string, qtype: nat, norm: string -> string): Option<Answer> {
    if !HeaderMatches(p, id) || !QuestionMatches(p, qname, qtype, norm) then None
    else if p[3] % 16 == 3 then Some(NxDomain)
    else if p[3] % 16 != 0 then None
    else match Body(p, NameAt(p, 12).value.next + 4)
      case None => None
      case Some(answers) =>
        SectionInPacket(p, NameAt(p, 12).value.next + 4, U16(p, 6));
        var rrset := KeptAll(p, answers, qname, norm);
        Some(NoError(if LeastTtl(rrset) == 0 then DEFAULT_TTL else LeastTtl(rrset), rrset))
  }

  method SkipRR(p: seq<byte>, offset: nat) returns (result: Result<nat, ParseError>)
    ensures result.Ok? ==> RecordAt(p, offset).Some? && result.value == End(RecordAt(p, offset).value)
    ensures result.Err? ==> RecordAt(p, offset).None?
  {
    var read := Read(p, offset);
    if read.Err? {
      return Err(BadName(read.error));
    }
    NameAtInBounds(p, offset);
    var next := read.value.next;
    if next + 10 > |p| {
      return Err(ShortHeader);
    }
    var rdlen := U16(p, next + 8);
    if next + 10 + rdlen > |p| {
      return Err(ShortRData);
    }
    return Ok(next + 10 + rdlen);
  }

  /** The name, the ten fixed octets and the data of one answer record. */
  method ReadRR(p: seq<byte>, offset: nat) returns (result: Result<Record, ParseError>)
    ensures result.Ok? ==> RecordAt(p, offset) == Some(result.value)
    ensures result.Err? ==> RecordAt(p, offset).None?
  {
    var read := Read(p, offset);
    if read.Err? {
      return Err(BadName(read.error));
    }
    NameAtInBounds(p, offset);
    var next := read.value.next;
    if next + 10 > |p| {
      return Err(ShortHeader);
    }
    var rdlen := U16(p, next + 8);
    if next + 10 + rdlen > |p| {
      return Err(ShortRData);
    }
    return Ok(Record(read.value.name, U16(p, next), U16(p, next + 2), U32(p, next + 4), next + 10, rdlen));
  }

  method ReadQuestion(p: seq<byte>, qname: string, qtype: nat, norm: string -> string)
    returns (result: Result<nat, ParseError>)
    ensures result.Ok? ==> QuestionMatches(p, qname, qtype, norm) && result.value == NameAt(p, 12).value.next + 4
    ensures result.Err? ==> !QuestionMatches(p, qname, qtype, norm)
  {
    var read := Read(p, 12);
    if read.Err? {
      return Err(BadName(read.error));
    }
    var offset := read.value.next;
    if offset + 4 > |p| {
      return Err(ShortQuestion);
    }
    if qname != "" && norm(read.value.name) != norm(qname) {
      return Err(QuestionName);
    }
    if qtype != 0 && U16(p, offset) != qtype {
      return Err(QuestionType);
    }
    if U16(p, offset + 2) != 1 {
      return Err(QuestionClass);
    }
    return Ok(offset + 4);
  }

  method KeepRR(p: seq<byte>, r: Record, qname: string, norm: string -> string) returns (kept: Option<RR>)
    requires End(r) <= |p|
    ensures kept == Kept(p, r, qname, norm)
  {
    if r.class_ != 1 || (qname != "" && norm(r.name) != norm(qname)) {
      return None;
    }
    var value := FormatRData(p, r.rdata, p[r.rdata..r.rdata + r.length], r.typ, norm);
    return if value.None? then None else Some(RR(norm(r.name), r.typ, r.ttl, value.value));
  }

  /** The loop over the answer section. */
  method ReadAnswers(p: seq<byte>, start: nat, count: nat, qname: string, norm: string -> string)
    returns (result: Result<(seq<RR>, nat, nat), ParseError>)
    ensures result.Err? ==> SectionAt(p, start, count).None?
    ensures result.Ok? ==>
              && SectionAt(p, start, count).Some?
              && var Section(records, end) := SectionAt(p, start, count).value;
              && InPacket(p, records)
              && result.value.0 == KeptAll(p, records, qname, norm)
              && result.value.1 == LeastTtl(result.value.0)
              && result.value.2 == end
  {
    var rrset: seq<RR> := [];
    var ttl, offset := 0, start;
    ghost var records: seq<Record> := [];
    var i := 0;
    while i < count
      invariant 0 <= i <= count
      invariant AnswersSoFar(p, start, i, qname, norm, records, offset, rrset, ttl)
    {
      var read := ReadRR(p, offset);
      if read.Err? {
        NoNextAnswer(p, start, i, records, offset);
        SectionPrefix(p, start, i + 1, count);
        return Err(read.error);
      }
      var r := read.value;
      var kept := KeepRR(p, r, qname, norm);
      NextAnswer(p, start, i, qname, norm, records, offset, rrset, ttl, r, kept);
      records := records + [r];
      if kept.Some? {
        rrset := rrset + [kept.value];
        if kept.value.ttl > 0 && (ttl == 0 || kept.value.ttl < ttl) {
          ttl := kept.value.ttl;
        }
      }
      offset := End(r);
      i := i + 1;
    }
    return Ok((rrset, ttl, offset));
  }

  /** The variables of the answer loop after i records. */
  ghost predicate AnswersSoFar(p: seq<byte>, start: nat, i: nat, qname: string, norm: string -> string,
                               records: seq<Record>, offset: nat, rrset: seq<RR>, ttl: nat)
  {
    && SectionAt(p, start, i) == Some(Section(records, offset))
    && InPacket(p, records)
    && rrset == KeptAll(p, records, qname, norm)
    && ttl == LeastTtl(rrset)
  }

  function Grown(rrset: seq<RR>, kept: Option<RR>): seq<RR> { if kept.Some? then rrset + [kept.value] else rrset }

  function SmallerTtl(ttl: nat, kept: Option<RR>): nat {
    if kept.Some? && kept.value.ttl > 0 && (ttl == 0 || kept.value.ttl < ttl) then kept.value.ttl else ttl
  }

  lemma NoNextAnswer(p: seq<byte>, start: nat, i: nat, records: seq<Record>, offset: nat)
    requires SectionAt(p, start, i) == Some(Section(records, offset)) && RecordAt(p, offset).None?
    ensures SectionAt(p, start, i + 1).None?
  {
  }

  lemma SectionSnoc(p: seq<byte>, start: nat, i: nat, records: seq<Record>, offset: nat, r: Record)
    requires SectionAt(p, start, i) == Some(Section(records, offset)) && RecordAt(p, offset) == Some(r)
    ensures SectionAt(p, start, i + 1) == Some(Section(records + [r], End(r)))
  {
  }

  lemma NextAnswer(p: seq<byte>, start: nat, i: nat, qname: string, norm: string -> string,
                   records: seq<Record>, offset: nat, rrset: seq<RR>, ttl: nat, r: Record, kept: Option<RR>)
    requires AnswersSoFar(p, start, i, qname, norm, records, offset, rrset, ttl)
    requires RecordAt(p, offset) == Some(r) && End(r) <= |p| && kept == Kept(p, r, qname, norm)
    ensures AnswersSoFar(p, start, i + 1, qname, norm, records + [r], End(r), Grown(rrset, kept), SmallerTtl(ttl, kept))
  {
    SectionSnoc(p, start, i, records, offset, r);
    KeptSnoc(p, records, r, qname, norm);
    if kept.Some? { LeastSnoc(rrset, kept.value); }
  }

  lemma KeptSnoc(p: seq<byte>, records: seq<Record>, r: Record, qname: string, norm: string -> string)
    requires InPacket(p, records) && End(r) <= |p|
    ensures InPacket(p, records + [r])
    ensures KeptAll(p, records + [r], qname, norm) == KeptAll(p, records, qname, norm) +
            match Kept(p, r, qname, norm) case None => [] case Some(rr) => [rr]
  {
    assert (records + [r])[..|records|] == records;
  }

  lemma LeastSnoc(rrset: seq<RR>, rr: RR)
    ensures LeastTtl(rrset + [rr]) ==
            if rr.ttl > 0 && (LeastTtl(rrset) == 0 || rr.ttl < LeastTtl(rrset)) then rr.ttl else LeastTtl(rrset)
  {
    assert (rrset + [rr])[..|rrset|] == rrset;
  }

  /** The first i records from `start` end at the offset. */
  ghost predicate SkippedTo(p: seq<byte>, start: nat, i: nat, offset: nat) {
    SectionAt(p, start, i).Some? && SectionAt(p, start, i).value.end == offset
  }

  lemma SkipOne(p: seq<byte>, start: nat, i: nat, offset: nat)
    requires SkippedTo(p, start, i, offset)
    ensures match RecordAt(p, offset)
            case None => SectionAt(p, start, i + 1).None?
            case Some(r) => SkippedTo(p, start, i + 1, End(r))
  {
  }

  /** The loop over the authority and additional sections. */
  method SkipRRs(p: seq<byte>, start: nat, count: nat) returns (result: Result<nat, ParseError>)
    ensures result.Err? ==> SectionAt(p, start, count).None?
    ensures result.Ok? ==> SkippedTo(p, start, count, result.value)
  {
    var offset := start;
    var i := 0;
    while i < count
      invariant 0 <= i <= count && SkippedTo(p, start, i, offset)
    {
      SkipOne(p, start, i, offset);
      var skipped := SkipRR(p, offset);
      if skipped.Err? {
        SectionPrefix(p, start, i + 1, count);
        return Err(skipped.error);
      }
      offset := skipped.value;
      i := i + 1;
    }
    return Ok(offset);
  }

  /** parseDNSResponse. */
  method Parse(p: seq<byte>, id: nat, qname: string, qtype: nat, norm: string -> string)
    returns (result: Result<Answer, ParseError>)
    ensures result.Ok? ==> Meaning(p, id, qname, qtype, norm) == Some(result.value)
    ensures result.Err? ==> Meaning(p, id, qname, qtype, norm) == None
  {
    if |p| < 12 {
      return Err(ShortResponse);
    }
    if U16(p, 0) != id {
      return Err(IdMismatch);
    }
    if p[2] < 0x80 {
      return Err(NotAResponse);
    }
    var rcode := p[3] % 16;
    if U16(p, 4) != 1 {
      return Err(QuestionCount);
    }
    var question := ReadQuestion(p, qname, qtype, norm);
    if question.Err? {
      return Err(question.error);
    }
    var start := question.value;
    if rcode == 3 {
      return Ok(NxDomain);
    }
    if rcode != 0 {
      return Err(BadRCode(rcode));
    }
    var answers := ReadAnswers(p, start, U16(p, 6), qname, norm);
    if answers.Err? {
      return Err(answers.error);
    }
    var (rrset, ttl, middle) := answers.value;
    var skipped := SkipRRs(p, middle, U16(p, 8) + U16(p, 10));
    if skipped.Err? {
      return Err(skipped.error);
    }
    var offset := skipped.value;
    if offset != |p| {
      return Err(ExtraData);
    }
    return Ok(NoError(if ttl == 0 then DEFAULT_TTL else ttl, rrset));
  }
}
