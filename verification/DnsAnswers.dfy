// Round trip of responses: what parseDNSResponse of internal/plugins/hns/dns_backend.go
// makes of a packet written octet by octet after RFC 1035 sections 3.3 and 4.1.

module DnsAnswers {
  import opened Outcomes
  import opened Text
  import opened DnsName
  import opened DnsWire
  import opened DnsReader
  import opened DnsResponse
  import opened DnsResponseTheorems

  // ---------------------------------------------------------------- writing

  /** Labels, and behind them the root octet or a pointer to the name of the question. */
  datatype Form = Form(labels: seq<Label>, pointed: bool)

  /** The offset of the question, behind the header. */
  const QUESTION := 12

  function FormLabels(question: seq<Label>, form: Form): seq<Label> {
    form.labels + if form.pointed then question else []
  }

  predicate FormFits(question: seq<Label>, form: Form) {
    (forall s | s in form.labels :: WireLabel(s)) && WireLength(FormLabels(question, form)) <= MAX_WIRE
  }

  function Ending(pointed: bool): seq<byte> { if pointed then [0xC0, 12] else [0] }

  function FormOctets(form: Form): seq<byte>
    requires forall s | s in form.labels :: WireLabel(s)
  {
    Prefixes(form.labels) + Ending(form.pointed)
  }

  /** The data of a record.  What follows a name inside the data is ignored; `Endless`
      is a name that the data cut off, `Cut` are data too short for their type. */
  datatype Content =
    | Plain(octets: seq<byte>)
    | Host(form: Form, rest: seq<byte>)
    | Mail(preference: nat, form: Form, rest: seq<byte>)
    | Server(priority: nat, weight: nat, port: nat, form: Form, rest: seq<byte>)
    | Texts(parts: seq<seq<byte>>)
    | Key(tag: nat, second: byte, third: byte, key: seq<byte>)
    | Match(usage: byte, selector: byte, matching: byte, data: seq<byte>)
    | Issuer(flags: byte, property: seq<byte>, value: seq<byte>)
    | Endless(head: seq<byte>, labels: seq<Label>)
    | Cut(octets: seq<byte>)

  /** The data cannot be of this type. */
  ghost predicate TooShort(typ: nat, octets: seq<byte>) {
    || (typ == 15 && |octets| < 3)
    || (typ == 16 && forall parts | Strings(parts) :: EncodeText(parts) != octets)
    || (typ == 33 && |octets| < 7)
    || ((typ == 43 || typ == 48) && |octets| < 4)
    || (typ == 52 && |octets| < 3)
    || (typ == 257 && (|octets| < 2 || |octets| < 2 + octets[1] as int))
  }

  ghost predicate ContentFits(question: seq<Label>, typ: nat, content: Content) {
    match content
    case Plain(_) => typ !in {2, 5, 15, 16, 33, 43, 48, 52, 257}
    case Host(form, _) => (typ == 2 || typ == 5) && FormFits(question, form)
    case Mail(preference, form, _) => typ == 15 && preference < 0x10000 && FormFits(question, form)
    case Server(priority, weight, port, form, _) =>
      typ == 33 && priority < 0x10000 && weight < 0x10000 && port < 0x10000 && FormFits(question, form)
    case Texts(parts) => typ == 16 && Strings(parts)
    case Key(tag, _, _, _) => (typ == 43 || typ == 48) && tag < 0x10000
    case Match(_, _, _, _) => typ == 52
    case Issuer(_, property, _) => typ == 257 && |property| < 256
    case Endless(head, labels) =>
      && |head| == (if typ == 15 then 2 else if typ == 33 then 6 else 0)
      && typ in {2, 5, 15, 33}
      && forall s | s in labels :: WireLabel(s)
    case Cut(octets) => TooShort(typ, octets)
  }

  ghost function ContentOctets(question: seq<Label>, typ: nat, content: Content): seq<byte>
    requires ContentFits(question, typ, content)
  {
    match content
    case Plain(octets) => octets
    case Host(form, rest) => FormOctets(form) + rest
    case Mail(preference, form, rest) => Uint16(preference) + (FormOctets(form) + rest)
    case Server(priority, weight, port, form, rest) =>
      Uint16(priority) + Uint16(weight) + Uint16(port) + (FormOctets(form) + rest)
    case Texts(parts) => EncodeText(parts)
    case Key(tag, second, third, key) => Uint16(tag) + [second, third] + key
    case Match(usage, selector, matching, data) => [usage, selector, matching] + data
    case Issuer(flags, property, value) => [flags, |property|] + property + value
    case Endless(head, labels) => head + Prefixes(labels)
    case Cut(octets) => octets
  }

  /** What the data say; nothing if they cannot be used. */
  ghost function ContentValue(question: seq<Label>, typ: nat, content: Content, norm: string -> string): Option<RData> {
    match content
    case Plain(octets) =>
      if typ == 1 then if |octets| == 4 then Some(Address(octets)) else None
      else if typ == 28 then if |octets| == 16 then Some(Address(octets)) else None
      else Some(Unknown(octets))
    case Host(form, _) => Some(Target(norm(NameText(FormLabels(question, form)))))
    case Mail(preference, form, _) => Some(Exchange(preference, norm(NameText(FormLabels(question, form)))))
    case Server(priority, weight, port, form, _) =>
      Some(Service(priority, weight, port, norm(NameText(FormLabels(question, form)))))
    case Texts(parts) => Some(TextData(Flatten(parts)))
    case Key(tag, second, third, key) => Some(Digest(tag, second, third, key))
    case Match(usage, selector, matching, data) => Some(Digest(usage, selector, matching, data))
    case Issuer(flags, property, value) => Some(Authority(flags, property, value))
    case Endless(_, _) => None
    case Cut(_) => None
  }

  /** A record as it is written, RFC 1035 section 4.1.3. */
  datatype Item = Item(owner: Form, typ: nat, class_: nat, ttl: nat, content: Content)

  ghost predicate ItemFits(question: seq<Label>, item: Item) {
    && FormFits(question, item.owner)
    && item.typ < 0x10000 && item.class_ < 0x10000 && item.ttl < 0x1_0000_0000
    && ContentFits(question, item.typ, item.content)
    && |ContentOctets(question, item.typ, item.content)| < 0x10000
  }

  function Uint32(n: nat): seq<byte>
    requires n < 0x1_0000_0000
  {
    [n / 0x100_0000, n / 0x1_0000 % 256, n / 0x100 % 256, n % 256]
  }

  function Fixed(typ: nat, class_: nat, ttl: nat, length: nat): seq<byte>
    requires typ < 0x10000 && class_ < 0x10000 && ttl < 0x1_0000_0000 && length < 0x10000
  {
    Uint16(typ) + Uint16(class_) + Uint32(ttl) + Uint16(length)
  }

  ghost function ItemOctets(question: seq<Label>, item: Item): seq<byte>
    requires ItemFits(question, item)
  {
    var data := ContentOctets(question, item.typ, item.content);
    FormOctets(item.owner) + (Fixed(item.typ, item.class_, item.ttl, |data|) + data)
  }

  ghost predicate ItemsFit(question: seq<Label>, items: seq<Item>) {
    forall i {:trigger ItemFits(question, items[i])} | 0 <= i < |items| :: ItemFits(question, items[i])
  }

  function Concat<T>(parts: seq<seq<T>>): seq<T> {
    if parts == [] then [] else Concat(parts[..|parts| - 1]) + parts[|parts| - 1]
  }

  ghost function Wires(question: seq<Label>, items: seq<Item>): seq<seq<byte>>
    requires ItemsFit(question, items)
  {
    seq(|items|, i requires 0 <= i < |items| && ItemFits(question, items[i]) => ItemOctets(question, items[i]))
  }

  ghost function ItemsOctets(question: seq<Label>, items: seq<Item>): seq<byte>
    requires ItemsFit(question, items)
  {
    Concat(Wires(question, items))
  }

  /** The records that a query is answered with, in the order of the items. */
  ghost function Returned(question: seq<Label>, items: seq<Item>, qname: string, norm: string -> string): seq<RR> {
    Concat(ShowsAll(question, items, qname, norm))
  }

  ghost function ShowsAll(question: seq<Label>, items: seq<Item>, qname: string, norm: string -> string): seq<seq<RR>> {
    seq(|items|, i requires 0 <= i < |items| => Shows(question, items[i], qname, norm))
  }

  /** An item is returned when it has class IN, the queried name and usable data. */
  ghost function Shows(question: seq<Label>, item: Item, qname: string, norm: string -> string): seq<RR> {
    var name := norm(NameText(FormLabels(question, item.owner)));
    var value := ContentValue(question, item.typ, item.content, norm);
    if item.class_ == 1 && (qname == "" || name == norm(qname)) && value.Some?
    then [RR(name, item.typ, item.ttl, value.value)]
    else []
  }

  // ------------------------------------------------------------ reading back

  /** These octets stand at an offset of the packet. */
  predicate Stands(p: seq<byte>, at: nat, octets: seq<byte>) {
    at + |octets| <= |p| && p[at..at + |octets|] == octets
  }

  lemma StandsSplit(p: seq<byte>, at: nat, a: seq<byte>, b: seq<byte>)
    requires Stands(p, at, a + b)
    ensures Stands(p, at, a) && Stands(p, at + |a|, b)
  {
    SliceOfSlice(p, at, a + b, 0, |a|);
    SliceOfSlice(p, at, a + b, |a|, |a + b|);
    assert (a + b)[0..|a|] == a && (a + b)[|a|..|a + b|] == b;
  }

  lemma StandsAt(p: seq<byte>, at: nat, octets: seq<byte>, k: nat)
    requires Stands(p, at, octets) && k < |octets|
    ensures p[at + k] == octets[k]
  {
    assert p[at..at + |octets|][k] == p[at + k];
  }

  lemma StandsNumber(p: seq<byte>, at: nat, n: nat)
    requires n < 0x10000 && Stands(p, at, Uint16(n))
    ensures U16(p, at) == n
  {
    StandsAt(p, at, Uint16(n), 0);
    StandsAt(p, at, Uint16(n), 1);
  }

  lemma StandsLong(p: seq<byte>, at: nat, n: nat)
    requires n < 0x1_0000_0000 && Stands(p, at, Uint32(n))
    ensures U32(p, at) == n
  {
    forall k | 0 <= k < 4 ensures p[at + k] == Uint32(n)[k] { StandsAt(p, at, Uint32(n), k); }
    Quarters(n);
  }

  lemma Quarters(n: nat)
    requires n < 0x1_0000_0000
    ensures ((n / 0x100_0000) * 256 + n / 0x1_0000 % 256) * 65536 + ((n / 0x100 % 256) * 256 + n % 256) == n
  {
  }

  /** A walk takes these labels on its way from `at` to `end`. */
  predicate Passes(p: seq<byte>, at: nat, labels: seq<Label>, end: nat)
    decreases labels
  {
    if labels == [] then at == end
    else MoveAt(p, at) == Piece(labels[0], at + 1 + |labels[0]|) && Passes(p, at + 1 + |labels[0]|, labels[1..], end)
  }

  lemma {:induction false} PrefixesPass(p: seq<byte>, at: nat, labels: seq<Label>, wire: seq<byte>)
    requires (forall s | s in labels :: WireLabel(s)) && wire == Prefixes(labels) && Stands(p, at, wire)
    ensures Passes(p, at, labels, at + |wire|)
    decreases labels
  {
    if labels != [] {
      assert WireLabel(labels[0]);
      var more := Prefixes(labels[1..]);
      assert wire == [|labels[0]|] + (labels[0] + more);
      FirstPiece(p, at, labels[0], more, wire);
      PrefixesPass(p, at + 1 + |labels[0]|, labels[1..], more);
    }
  }

  lemma FirstPiece(p: seq<byte>, at: nat, text: Label, more: seq<byte>, wire: seq<byte>)
    requires WireLabel(text) && wire == [|text|] + (text + more) && Stands(p, at, wire)
    ensures MoveAt(p, at) == Piece(text, at + 1 + |text|) && Stands(p, at + 1 + |text|, more)
  {
    StandsSplit(p, at, [|text|], text + more);
    StandsSplit(p, at + 1, text, more);
    StandsAt(p, at, [|text|], 0);
  }

  lemma {:induction false} PassSpells(p: seq<byte>, at: nat, labels: seq<Label>, end: nat, n: nat, rest: seq<Label>)
    requires Passes(p, at, labels, end) && Spells(p, end, n, rest)
    ensures Spells(p, at, |labels| + n, labels + rest)
    decreases labels
  {
    if labels == [] {
      assert labels + rest == rest;
    } else {
      var next, more := at + 1 + |labels[0]|, labels[1..];
      PassSpells(p, next, more, end, n, rest);
      HeadThenRest(labels, rest);
      PieceSpells(p, at, next, |more| + n, labels[0], more + rest, labels + rest);
    }
  }

  lemma HeadThenRest(labels: seq<Label>, rest: seq<Label>)
    requires labels != []
    ensures labels + rest == [labels[0]] + (labels[1..] + rest)
  {
  }

  lemma PieceSpells(p: seq<byte>, at: nat, next: nat, n: nat, text: Label, labels: seq<Label>, all: seq<Label>)
    requires MoveAt(p, at) == Piece(text, next) && Spells(p, next, n, labels) && all == [text] + labels
    ensures Spells(p, at, n + 1, all)
  {
    StepSpells(p, at, next, n, labels);
  }

  /** The name ends where what follows the labels ends, and so behind them. */
  lemma {:induction false} PassNext(p: seq<byte>, at: nat, labels: seq<Label>, end: nat)
    requires Passes(p, at, labels, end)
    ensures NextOffset(p, at) == NextOffset(p, end)
    decreases labels
  {
    if labels != [] { PassNext(p, at + 1 + |labels[0]|, labels[1..], end); }
  }

  lemma {:induction false} PassRest(p: seq<byte>, at: nat, labels: seq<Label>, end: nat, n: nat, all: seq<Label>)
    returns (m: nat, rest: seq<Label>)
    requires Passes(p, at, labels, end) && Spells(p, at, n, all)
    ensures Spells(p, end, m, rest)
    decreases labels
  {
    if labels == [] {
      m, rest := n, all;
    } else {
      m, rest := PassRest(p, at + 1 + |labels[0]|, labels[1..], end, n - 1, all[1..]);
    }
  }

  /** The name of the question stands behind the header. */
  predicate QuestionStands(p: seq<byte>, question: seq<Label>) {
    QUESTION < |p| && Spells(p, QUESTION, |question|, question)
  }

  /** A name is read with its labels and those of the question if it points there. */
  lemma FormReads(p: seq<byte>, at: nat, question: seq<Label>, form: Form, wire: seq<byte>, name: string)
    requires QuestionStands(p, question) && FormFits(question, form)
    requires wire == FormOctets(form) && Stands(p, at, wire)
    requires name == NameText(FormLabels(question, form))
    ensures NameAt(p, at) == Some(ReadName(name, at + |wire|))
  {
    var labels := FormLabels(question, form);
    var n := FormSpells(p, at, question, form, wire, labels);
    SpelledIs(p, at, n, labels, name, at + |wire|);
  }

  lemma FormSpells(p: seq<byte>, at: nat, question: seq<Label>, form: Form, wire: seq<byte>, all: seq<Label>)
    returns (n: nat)
    requires QuestionStands(p, question) && (forall s | s in form.labels :: WireLabel(s))
    requires wire == FormOctets(form) && Stands(p, at, wire) && all == FormLabels(question, form)
    ensures Spells(p, at, n, all) && NextOffset(p, at) == at + |wire|
  {
    var prefixes, ending := Prefixes(form.labels), Ending(form.pointed);
    StandsSplit(p, at, prefixes, ending);
    PrefixesPass(p, at, form.labels, prefixes);
    var k, rest := EndingSpells(p, at + |prefixes|, question, form.pointed);
    n := PassedSpells(p, at, form.labels, at + |prefixes|, k, rest, all);
  }

  lemma PassedSpells(p: seq<byte>, at: nat, labels: seq<Label>, end: nat, n: nat, rest: seq<Label>, all: seq<Label>)
    returns (m: nat)
    requires Passes(p, at, labels, end) && Spells(p, end, n, rest) && all == labels + rest
    ensures Spells(p, at, m, all) && NextOffset(p, at) == NextOffset(p, end)
  {
    PassSpells(p, at, labels, end, n, rest);
    PassNext(p, at, labels, end);
    m := |labels| + n;
  }

  lemma SpelledIs(p: seq<byte>, at: nat, n: nat, labels: seq<Label>, name: string, next: nat)
    requires Spells(p, at, n, labels) && WireLength(labels) <= MAX_WIRE
    requires name == NameText(labels) && next == NextOffset(p, at)
    ensures NameAt(p, at) == Some(ReadName(name, next))
  {
    NameAtIs(p, at, n, labels);
  }

  lemma EndingSpells(p: seq<byte>, at: nat, question: seq<Label>, pointed: bool) returns (n: nat, rest: seq<Label>)
    requires QuestionStands(p, question) && Stands(p, at, Ending(pointed))
    ensures rest == if pointed then question else []
    ensures Spells(p, at, n, rest) && NextOffset(p, at) == at + |Ending(pointed)|
  {
    StandsAt(p, at, Ending(pointed), 0);
    if pointed {
      StandsAt(p, at, Ending(pointed), 1);
      assert MoveAt(p, at) == Jump(QUESTION);
      n, rest := |question| + 1, question;
    } else {
      assert MoveAt(p, at) == Stop;
      n, rest := 0, [];
    }
  }

  // ------------------------------------------------------------- record data

  /** A name with something behind it inside the data. */
  lemma HostReads(p: seq<byte>, at: nat, end: nat, question: seq<Label>, form: Form, rest: seq<byte>, name: string)
    requires QuestionStands(p, question) && FormFits(question, form)
    requires Stands(p, at, FormOctets(form) + rest) && end == at + |FormOctets(form) + rest|
    requires name == NameText(FormLabels(question, form))
    ensures NameWithin(p, at, end) == Some(name)
  {
    StandsSplit(p, at, FormOctets(form), rest);
    FormReads(p, at, question, form, FormOctets(form), name);
  }

  lemma NumberThen(p: seq<byte>, at: nat, n: nat, rest: seq<byte>)
    requires n < 0x10000 && Stands(p, at, Uint16(n) + rest)
    ensures U16(p, at) == n && Stands(p, at + 2, rest)
  {
    StandsSplit(p, at, Uint16(n), rest);
    StandsNumber(p, at, n);
  }

  /** Numbers of the data are those of the packet. */
  lemma InnerNumber(p: seq<byte>, at: nat, data: seq<byte>, k: nat)
    requires Stands(p, at, data) && k + 2 <= |data|
    ensures U16(data, k) == U16(p, at + k)
  {
    StandsAt(p, at, data, k);
    StandsAt(p, at, data, k + 1);
  }

  lemma FormIsNonEmpty(form: Form)
    requires forall s | s in form.labels :: WireLabel(s)
    ensures |FormOctets(form)| >= 1
  {
  }

  lemma OneNumber(p: seq<byte>, at: nat, a: nat, rest: seq<byte>, data: seq<byte>)
    requires a < 0x10000 && data == Uint16(a) + rest && Stands(p, at, data)
    ensures |data| == 2 + |rest| && U16(data, 0) == a && Stands(p, at + 2, rest)
  {
    NumberThen(p, at, a, rest);
    InnerNumber(p, at, data, 0);
  }

  lemma MailReads(p: seq<byte>, at: nat, question: seq<Label>, preference: nat, form: Form, rest: seq<byte>,
                  data: seq<byte>, norm: string -> string)
    requires QuestionStands(p, question) && FormFits(question, form) && preference < 0x10000
    requires data == Uint16(preference) + (FormOctets(form) + rest) && Stands(p, at, data)
    ensures RDataOf(p, at, |data|, 15, norm)
         == Some(Exchange(preference, norm(NameText(FormLabels(question, form)))))
  {
    OneNumber(p, at, preference, FormOctets(form) + rest, data);
    FormIsNonEmpty(form);
    HostReads(p, at + 2, at + |data|, question, form, rest, NameText(FormLabels(question, form)));
  }

  lemma ThreeNumbers(p: seq<byte>, at: nat, a: nat, b: nat, c: nat, rest: seq<byte>, data: seq<byte>)
    requires a < 0x10000 && b < 0x10000 && c < 0x10000
    requires data == Uint16(a) + Uint16(b) + Uint16(c) + rest && Stands(p, at, data)
    ensures |data| == 6 + |rest| && U16(data, 0) == a && U16(data, 2) == b && U16(data, 4) == c
    ensures Stands(p, at + 6, rest)
  {
    assert data == Uint16(a) + (Uint16(b) + (Uint16(c) + rest));
    NumberThen(p, at, a, Uint16(b) + (Uint16(c) + rest));
    NumberThen(p, at + 2, b, Uint16(c) + rest);
    NumberThen(p, at + 4, c, rest);
    InnerNumber(p, at, data, 0);
    InnerNumber(p, at, data, 2);
    InnerNumber(p, at, data, 4);
  }

  lemma ServiceReads(p: seq<byte>, at: nat, question: seq<Label>, priority: nat, weight: nat, port: nat, form: Form,
                     rest: seq<byte>, data: seq<byte>, norm: string -> string)
    requires QuestionStands(p, question) && FormFits(question, form)
    requires priority < 0x10000 && weight < 0x10000 && port < 0x10000
    requires data == Uint16(priority) + Uint16(weight) + Uint16(port) + (FormOctets(form) + rest)
    requires Stands(p, at, data)
    ensures RDataOf(p, at, |data|, 33, norm)
         == Some(Service(priority, weight, port, norm(NameText(FormLabels(question, form)))))
  {
    var name := NameText(FormLabels(question, form));
    ThreeNumbers(p, at, priority, weight, port, FormOctets(form) + rest, data);
    FormIsNonEmpty(form);
    HostReads(p, at + 6, at + |data|, question, form, rest, name);
    NumbersAndName(p, at, data, name, norm);
  }

  lemma NumbersAndName(p: seq<byte>, at: nat, data: seq<byte>, name: string, norm: string -> string)
    requires Stands(p, at, data) && |data| >= 7 && NameWithin(p, at + 6, at + |data|) == Some(name)
    ensures RDataOf(p, at, |data|, 33, norm)
         == Some(Service(U16(data, 0), U16(data, 2), U16(data, 4), norm(name)))
  {
  }

  lemma KeyReads(tag: nat, second: byte, third: byte, key: seq<byte>, typ: nat, data: seq<byte>)
    requires (typ == 43 || typ == 48) && tag < 0x10000 && data == Uint16(tag) + [second, third] + key
    ensures OctetData(data, typ) == Some(Digest(tag, second, third, key))
  {
    assert data[0] == Uint16(tag)[0] && data[1] == Uint16(tag)[1] && data[4..] == key;
  }

  lemma MatchReads(usage: byte, selector: byte, matching: byte, text: seq<byte>, data: seq<byte>)
    requires data == [usage, selector, matching] + text
    ensures OctetData(data, 52) == Some(Digest(usage, selector, matching, text))
  {
    assert data[3..] == text;
  }

  lemma IssuerReads(flags: byte, property: seq<byte>, value: seq<byte>, data: seq<byte>)
    requires |property| < 256 && data == [flags, |property|] + property + value
    ensures OctetData(data, 257) == Some(Authority(flags, property, value))
  {
    assert data[2..2 + |property|] == property && data[2 + |property|..] == value;
  }

  lemma TextsRead(parts: seq<seq<byte>>, data: seq<byte>)
    requires Strings(parts) && data == EncodeText(parts)
    ensures TextFrom(data, 0) == Some(Flatten(parts))
  {
    assert data[0..] == data;
    TextDecodes(parts, data, 0);
  }

  lemma NoTexts(data: seq<byte>)
    requires forall parts | Strings(parts) :: EncodeText(parts) != data
    ensures TextFrom(data, 0) == None
  {
    assert data[0..] == data;
    if TextFrom(data, 0).Some? { var _ := TextEncoded(data, 0); }
  }

  /** A name that does not end within the data is refused, whatever follows these. */
  lemma EndlessName(p: seq<byte>, at: nat, labels: seq<Label>, wire: seq<byte>)
    requires (forall s | s in labels :: WireLabel(s)) && wire == Prefixes(labels) && Stands(p, at, wire)
    ensures NameWithin(p, at, at + |wire|) == None
  {
    PrefixesPass(p, at, labels, wire);
    if NameAt(p, at).Some? {
      var n, all :| Spells(p, at, n, all) && WireLength(all) <= MAX_WIRE;
      NameAtIs(p, at, n, all);
      PassNext(p, at, labels, at + |wire|);
      var m, rest := PassRest(p, at, labels, at + |wire|, n, all);
      NextInBounds(p, at + |wire|, m, rest);
    }
  }

  lemma EndlessReads(p: seq<byte>, at: nat, head: seq<byte>, labels: seq<Label>, typ: nat, data: seq<byte>,
                     norm: string -> string)
    requires |head| == (if typ == 15 then 2 else if typ == 33 then 6 else 0) && typ in {2, 5, 15, 33}
    requires (forall s | s in labels :: WireLabel(s))
    requires data == head + Prefixes(labels) && Stands(p, at, data)
    ensures RDataOf(p, at, |data|, typ, norm) == None
  {
    StandsSplit(p, at, head, Prefixes(labels));
    EndlessName(p, at + |head|, labels, Prefixes(labels));
  }

  /** What formatRDATA makes of written data. */
  lemma ContentReads(p: seq<byte>, at: nat, question: seq<Label>, typ: nat, content: Content, data: seq<byte>,
                     norm: string -> string)
    requires QuestionStands(p, question) && ContentFits(question, typ, content)
    requires data == ContentOctets(question, typ, content) && Stands(p, at, data)
    ensures RDataOf(p, at, |data|, typ, norm) == ContentValue(question, typ, content, norm)
  {
    assert p[at..at + |data|] == data;
    match content
    case Plain(_) =>
    case Host(form, rest) =>
      HostReads(p, at, at + |data|, question, form, rest, NameText(FormLabels(question, form)));
    case Mail(preference, form, rest) => MailReads(p, at, question, preference, form, rest, data, norm);
    case Server(priority, weight, port, form, rest) =>
      ServiceReads(p, at, question, priority, weight, port, form, rest, data, norm);
    case Texts(parts) => TextsRead(parts, data);
    case Key(tag, second, third, key) => KeyReads(tag, second, third, key, typ, data);
    case Match(usage, selector, matching, text) => MatchReads(usage, selector, matching, text, data);
    case Issuer(flags, property, value) => IssuerReads(flags, property, value, data);
    case Endless(head, labels) => EndlessReads(p, at, head, labels, typ, data, norm);
    case Cut(_) => if typ == 16 { NoTexts(data); }
  }

  // ----------------------------------------------------------------- records

  lemma FixedReads(p: seq<byte>, at: nat, typ: nat, class_: nat, ttl: nat, length: nat)
    requires typ < 0x10000 && class_ < 0x10000 && ttl < 0x1_0000_0000 && length < 0x10000
    requires Stands(p, at, Fixed(typ, class_, ttl, length))
    ensures U16(p, at) == typ && U16(p, at + 2) == class_ && U32(p, at + 4) == ttl && U16(p, at + 8) == length
  {
    assert Fixed(typ, class_, ttl, length) == Uint16(typ) + (Uint16(class_) + (Uint32(ttl) + Uint16(length)));
    NumberThen(p, at, typ, Uint16(class_) + (Uint32(ttl) + Uint16(length)));
    NumberThen(p, at + 2, class_, Uint32(ttl) + Uint16(length));
    StandsSplit(p, at + 4, Uint32(ttl), Uint16(length));
    StandsLong(p, at + 4, ttl);
    StandsNumber(p, at + 8, length);
  }

  /** A written record is read with its name, its fields and the place of its data. */
  lemma ItemReads(p: seq<byte>, at: nat, question: seq<Label>, item: Item, wire: seq<byte>, data: seq<byte>)
    returns (r: Record)
    requires QuestionStands(p, question) && ItemFits(question, item)
    requires wire == ItemOctets(question, item) && Stands(p, at, wire)
    requires data == ContentOctets(question, item.typ, item.content)
    ensures RecordAt(p, at) == Some(r) && End(r) == at + |wire| && Stands(p, r.rdata, data) && r.length == |data|
    ensures r.name == NameText(FormLabels(question, item.owner))
    ensures r.typ == item.typ && r.class_ == item.class_ && r.ttl == item.ttl
  {
    var owner := FormOctets(item.owner);
    var fixed := Fixed(item.typ, item.class_, item.ttl, |data|);
    var name := NameText(FormLabels(question, item.owner));
    var next := at + |owner|;
    StandsSplit(p, at, owner, fixed + data);
    StandsSplit(p, next, fixed, data);
    FormReads(p, at, question, item.owner, owner, name);
    FixedReads(p, next, item.typ, item.class_, item.ttl, |data|);
    r := Record(name, item.typ, item.class_, item.ttl, next + 10, |data|);
  }

  /** What is returned for the record. */
  ghost predicate KeptAs(p: seq<byte>, r: Record, shown: seq<RR>, qname: string, norm: string -> string) {
    End(r) <= |p| && shown == match Kept(p, r, qname, norm) case None => [] case Some(rr) => [rr]
  }

  ghost predicate ReadAs(p: seq<byte>, at: nat, end: nat, shown: seq<RR>, qname: string, norm: string -> string) {
    && RecordAt(p, at).Some? && End(RecordAt(p, at).value) == end
    && KeptAs(p, RecordAt(p, at).value, shown, qname, norm)
  }

  lemma ItemReadsKept(p: seq<byte>, at: nat, question: seq<Label>, item: Item, wire: seq<byte>, qname: string,
                      norm: string -> string)
    requires QuestionStands(p, question) && ItemFits(question, item)
    requires wire == ItemOctets(question, item) && Stands(p, at, wire)
    ensures ReadAs(p, at, at + |wire|, Shows(question, item, qname, norm), qname, norm)
  {
    var data := ContentOctets(question, item.typ, item.content);
    var r := ItemReads(p, at, question, item, wire, data);
    ContentReads(p, r.rdata, question, item.typ, item.content, data, norm);
    FieldsKeep(p, question, item, r, qname, norm);
  }

  lemma FieldsKeep(p: seq<byte>, question: seq<Label>, item: Item, r: Record, qname: string, norm: string -> string)
    requires End(r) <= |p|
    requires RDataOf(p, r.rdata, r.length, r.typ, norm) == ContentValue(question, item.typ, item.content, norm)
    requires r.name == NameText(FormLabels(question, item.owner))
    requires r.typ == item.typ && r.class_ == item.class_ && r.ttl == item.ttl
    ensures KeptAs(p, r, Shows(question, item, qname, norm), qname, norm)
  {
  }

  lemma {:induction false} ConcatStands(p: seq<byte>, at: nat, parts: seq<seq<byte>>, k: nat)
    requires Stands(p, at, Concat(parts)) && k < |parts|
    ensures Stands(p, at + |Concat(parts[..k])|, parts[k])
    ensures |Concat(parts[..k + 1])| == |Concat(parts[..k])| + |parts[k]|
    decreases |parts|
  {
    var front, last := parts[..|parts| - 1], parts[|parts| - 1];
    StandsSplit(p, at, Concat(front), last);
    if k < |front| {
      ConcatStands(p, at, front, k);
      assert front[..k] == parts[..k] && front[..k + 1] == parts[..k + 1];
    } else {
      assert parts[..k + 1] == parts;
    }
  }

  ghost predicate AllReadAs(p: seq<byte>, cuts: seq<nat>, shows: seq<seq<RR>>, qname: string, norm: string -> string) {
    && |cuts| == |shows| + 1
    && forall i {:trigger shows[i]} | 0 <= i < |shows| :: ReadAs(p, cuts[i], cuts[i + 1], shows[i], qname, norm)
  }

  /** Records that join without a gap are a section. */
  lemma {:induction false} JoinedSection(p: seq<byte>, at: nat, count: nat, end: nat, cuts: seq<nat>,
                                         shows: seq<seq<RR>>, qname: string, norm: string -> string)
    returns (records: seq<Record>)
    requires AllReadAs(p, cuts, shows, qname, norm)
    requires count == |shows| && at == cuts[0] && end == cuts[count]
    ensures SectionAt(p, at, count) == Some(Section(records, end))
    ensures InPacket(p, records) && KeptAll(p, records, qname, norm) == Concat(shows)
    decreases count
  {
    if count == 0 {
      records := [];
    } else {
      var n := count - 1;
      var front := JoinedSection(p, at, n, cuts[n], cuts[..n + 1], shows[..n], qname, norm);
      assert ReadAs(p, cuts[n], cuts[n + 1], shows[n], qname, norm);
      var r := RecordAt(p, cuts[n]).value;
      SectionSnoc(p, at, n, front, cuts[n], r);
      KeptSnoc(p, front, r, qname, norm);
      records := front + [r];
    }
  }

  /** Written records are read one behind the other, and those to be returned are kept. */
  lemma ItemsRead(p: seq<byte>, at: nat, count: nat, end: nat, question: seq<Label>, items: seq<Item>,
                  wires: seq<seq<byte>>, qname: string, norm: string -> string) returns (records: seq<Record>)
    requires QuestionStands(p, question) && ItemsFit(question, items) && wires == Wires(question, items)
    requires Stands(p, at, Concat(wires)) && count == |items| && end == at + |Concat(wires)|
    ensures SectionAt(p, at, count) == Some(Section(records, end)) && InPacket(p, records)
    ensures KeptAll(p, records, qname, norm) == Returned(question, items, qname, norm)
  {
    var cuts, shows := Cuts(at, wires), ShowsAll(question, items, qname, norm);
    CutsPlace(p, at, wires);
    EachReads(p, question, items, wires, cuts, shows, qname, norm);
    records := JoinedSection(p, at, count, end, cuts, shows, qname, norm);
  }

  /** The parts stand between the cuts. */
  ghost predicate Placed(p: seq<byte>, cuts: seq<nat>, parts: seq<seq<byte>>) {
    && |cuts| == |parts| + 1
    && forall i {:trigger parts[i]} | 0 <= i < |parts| ::
         Stands(p, cuts[i], parts[i]) && cuts[i + 1] == cuts[i] + |parts[i]|
  }

  lemma CutsPlace(p: seq<byte>, at: nat, parts: seq<seq<byte>>)
    requires Stands(p, at, Concat(parts))
    ensures Placed(p, Cuts(at, parts), parts)
  {
    var cuts := Cuts(at, parts);
    forall i | 0 <= i < |parts| ensures Stands(p, cuts[i], parts[i]) && cuts[i + 1] == cuts[i] + |parts[i]| {
      ConcatStands(p, at, parts, i);
    }
  }

  lemma EachReads(p: seq<byte>, question: seq<Label>, items: seq<Item>, wires: seq<seq<byte>>,
                  cuts: seq<nat>, shows: seq<seq<RR>>, qname: string, norm: string -> string)
    requires QuestionStands(p, question) && ItemsFit(question, items) && wires == Wires(question, items)
    requires Placed(p, cuts, wires) && shows == ShowsAll(question, items, qname, norm)
    ensures AllReadAs(p, cuts, shows, qname, norm)
  {
    forall i | 0 <= i < |items| ensures ReadAs(p, cuts[i], cuts[i + 1], shows[i], qname, norm) {
      OneReads(p, cuts[i], cuts[i + 1], question, items[i], wires[i], shows[i], qname, norm);
    }
  }

  lemma OneReads(p: seq<byte>, at: nat, end: nat, question: seq<Label>, item: Item, wire: seq<byte>,
                 shown: seq<RR>, qname: string, norm: string -> string)
    requires QuestionStands(p, question) && ItemFits(question, item)
    requires wire == ItemOctets(question, item) && Stands(p, at, wire) && end == at + |wire|
    requires shown == Shows(question, item, qname, norm)
    ensures ReadAs(p, at, end, shown, qname, norm)
  {
    ItemReadsKept(p, at, question, item, wire, qname, norm);
  }

  function Cuts(at: nat, wires: seq<seq<byte>>): (cuts: seq<nat>)
    ensures |cuts| == |wires| + 1 && cuts[0] == at && cuts[|wires|] == at + |Concat(wires)|
  {
    assert wires[..|wires|] == wires;
    seq(|wires| + 1, i requires 0 <= i <= |wires| => at + |Concat(wires[..i])|)
  }

  // ------------------------------------------------------------- the packet

  /** The header of RFC 1035 section 4.1.1, the question and the three sections; `rest` follows them. */
  datatype Packet = Packet(id: nat, flags: nat, questions: nat, authority: nat, additional: nat,
                           question: seq<Label>, qtype: nat, qclass: nat,
                           answers: seq<Item>, others: seq<Item>, rest: seq<byte>)

  ghost predicate PacketFits(m: Packet) {
    && m.id < 0x10000 && m.flags < 0x10000 && m.questions < 0x10000 && m.authority < 0x10000 && m.additional < 0x10000
    && m.qtype < 0x10000 && m.qclass < 0x10000 && |m.answers| < 0x10000
    && |m.others| == m.authority + m.additional
    && WireLabels(m.question) && ItemsFit(m.question, m.answers) && ItemsFit(m.question, m.others)
  }

  function Counts(id: nat, flags: nat, questions: nat, answers: nat, authority: nat, additional: nat): seq<byte>
    requires id < 0x10000 && flags < 0x10000 && questions < 0x10000
    requires answers < 0x10000 && authority < 0x10000 && additional < 0x10000
  {
    Uint16(id) + Uint16(flags) + Uint16(questions) + Uint16(answers) + Uint16(authority) + Uint16(additional)
  }

  ghost function PacketOctets(m: Packet): seq<byte>
    requires PacketFits(m)
  {
    Counts(m.id, m.flags, m.questions, |m.answers|, m.authority, m.additional)
    + (Encode(m.question) + (Uint16(m.qtype) + (Uint16(m.qclass)
    + (ItemsOctets(m.question, m.answers) + (ItemsOctets(m.question, m.others) + m.rest)))))
  }

  /** The packet answers this query. */
  predicate Matches(m: Packet, id: nat, qname: string, qtype: nat, norm: string -> string) {
    && m.id == id && m.flags >= 0x8000 && m.questions == 1
    && (qname == "" || norm(NameText(m.question)) == norm(qname))
    && (qtype == 0 || m.qtype == qtype) && m.qclass == 1
  }

  lemma CountsRead(p: seq<byte>, id: nat, flags: nat, questions: nat, answers: nat, authority: nat, additional: nat)
    requires id < 0x10000 && flags < 0x10000 && questions < 0x10000
    requires answers < 0x10000 && authority < 0x10000 && additional < 0x10000
    requires Stands(p, 0, Counts(id, flags, questions, answers, authority, additional))
    ensures U16(p, 0) == id && p[2] == flags / 256 && p[3] == flags % 256 && U16(p, 4) == questions
    ensures U16(p, 6) == answers && U16(p, 8) == authority && U16(p, 10) == additional
  {
    var h := Counts(id, flags, questions, answers, authority, additional);
    forall k | 0 <= k < 12 ensures p[k] == h[k] { StandsAt(p, 0, h, k); }
  }

  lemma HeaderReads(p: seq<byte>, m: Packet, header: seq<byte>, id: nat)
    requires PacketFits(m) && Stands(p, 0, header)
    requires header == Counts(m.id, m.flags, m.questions, |m.answers|, m.authority, m.additional)
    ensures |p| >= 12 && p[3] % 16 == m.flags % 16
    ensures HeaderMatches(p, id) <==> m.id == id && m.flags >= 0x8000 && m.questions == 1
    ensures U16(p, 6) == |m.answers| && U16(p, 8) + U16(p, 10) == |m.others|
  {
    CountsRead(p, m.id, m.flags, m.questions, |m.answers|, m.authority, m.additional);
  }

  lemma SixParts(p: seq<byte>, a: seq<byte>, b: seq<byte>, c: seq<byte>, d: seq<byte>, e: seq<byte>, f: seq<byte>,
                 g: seq<byte>, next: nat, middle: nat, end: nat)
    requires p == a + (b + (c + (d + (e + (f + g))))) && |c| == |d| == 2
    requires next == |a| + |b| && middle == next + 4 + |e| && end == middle + |f|
    ensures Stands(p, 0, a) && Stands(p, |a|, b) && Stands(p, next, c) && Stands(p, next + 2, d)
    ensures Stands(p, next + 4, e) && Stands(p, middle, f) && |p| == end + |g|
  {
    assert p[0..0 + |p|] == p;
    ThreeParts(p, 0, a, b, c, d + (e + (f + g)));
    ThreeParts(p, next + 2, d, e, f, g);
  }

  lemma ThreeParts(p: seq<byte>, at: nat, a: seq<byte>, b: seq<byte>, c: seq<byte>, rest: seq<byte>)
    requires Stands(p, at, a + (b + (c + rest)))
    ensures Stands(p, at, a) && Stands(p, at + |a|, b) && Stands(p, at + |a| + |b|, c)
    ensures Stands(p, at + |a| + |b| + |c|, rest)
  {
    StandsSplit(p, at, a, b + (c + rest));
    StandsSplit(p, at + |a|, b, c + rest);
    StandsSplit(p, at + |a| + |b|, c, rest);
  }

  lemma QuestionReads(p: seq<byte>, question: seq<Label>, wire: seq<byte>, name: string)
    requires WireLabels(question) && wire == Encode(question) && Stands(p, 12, wire) && name == NameText(question)
    ensures QuestionStands(p, question) && NameAt(p, 12) == Some(ReadName(name, 12 + |wire|))
  {
    EncodedIsWire(p, 12, question, wire);
    EncodedSpells(p, 12, question);
    EncodedReads(p, 12, question, name);
  }

  lemma QuestionAccepted(p: seq<byte>, question: seq<Label>, asked: nat, class_: nat, next: nat,
                         qname: string, qtype: nat, norm: string -> string)
    requires WireLabels(question) && asked < 0x10000 && class_ < 0x10000
    requires Stands(p, 12, Encode(question)) && next == 12 + |Encode(question)|
    requires Stands(p, next, Uint16(asked)) && Stands(p, next + 2, Uint16(class_))
    ensures QuestionStands(p, question) && NameAt(p, 12).Some? && NameAt(p, 12).value.next == next
    ensures QuestionMatches(p, qname, qtype, norm) <==>
              (qname == "" || norm(NameText(question)) == norm(qname)) && (qtype == 0 || asked == qtype) && class_ == 1
  {
    QuestionReads(p, question, Encode(question), NameText(question));
    StandsNumber(p, next, asked);
    StandsNumber(p, next + 2, class_);
  }

  lemma BodyReads(p: seq<byte>, m: Packet, start: nat, middle: nat, end: nat, qname: string, norm: string -> string)
    returns (records: seq<Record>)
    requires PacketFits(m) && QuestionStands(p, m.question)
    requires |p| >= 12 && U16(p, 6) == |m.answers| && U16(p, 8) + U16(p, 10) == |m.others|
    requires Stands(p, start, ItemsOctets(m.question, m.answers))
    requires middle == start + |ItemsOctets(m.question, m.answers)|
    requires Stands(p, middle, ItemsOctets(m.question, m.others))
    requires end == middle + |ItemsOctets(m.question, m.others)|
    ensures Body(p, start) == if end == |p| then Some(records) else None
    ensures InPacket(p, records) && KeptAll(p, records, qname, norm) == Returned(m.question, m.answers, qname, norm)
  {
    var a, b := U16(p, 6), U16(p, 8) + U16(p, 10);
    records := ItemsRead(p, start, a, middle, m.question, m.answers, Wires(m.question, m.answers), qname, norm);
    var skipped := ItemsRead(p, middle, b, end, m.question, m.others, Wires(m.question, m.others), qname, norm);
    SectionsEnd(p, start, middle, end, records, skipped);
  }

  lemma SectionsEnd(p: seq<byte>, start: nat, middle: nat, end: nat, records: seq<Record>, skipped: seq<Record>)
    requires |p| >= 12 && SectionAt(p, start, U16(p, 6)) == Some(Section(records, middle))
    requires SectionAt(p, middle, U16(p, 8) + U16(p, 10)) == Some(Section(skipped, end))
    ensures Body(p, start) == if end == |p| then Some(records) else None
  {
  }

  /** The least positive TTL of the records, or 60. */
  ghost predicate LeastPositive(ttl: nat, rrset: seq<RR>) {
    if exists rr :: rr in rrset && rr.ttl > 0
    then (exists rr :: rr in rrset && rr.ttl == ttl) && forall rr | rr in rrset && rr.ttl > 0 :: 0 < ttl <= rr.ttl
    else ttl == 60
  }

  lemma MeaningOf(p: seq<byte>, id: nat, qname: string, qtype: nat, norm: string -> string, next: nat,
                  body: Option<seq<Record>>, answer: Option<Answer>)
    requires HeaderMatches(p, id) && QuestionMatches(p, qname, qtype, norm) && p[3] % 16 == 0
    requires next == NameAt(p, 12).value.next && body == Body(p, next + 4) && (body.Some? ==> InPacket(p, body.value))
    requires answer == Meaning(p, id, qname, qtype, norm)
    ensures match body
            case None => answer == None
            case Some(records) =>
              && answer.Some? && answer.value.NoError? && answer.value.rrset == KeptAll(p, records, qname, norm)
              && LeastPositive(answer.value.ttl, answer.value.rrset)
  {
    if answer.Some? { AnswerTtl(p, id, qname, qtype, norm); }
  }

  lemma MeaningElse(p: seq<byte>, id: nat, qname: string, qtype: nat, norm: string -> string, answer: Option<Answer>)
    requires answer == Meaning(p, id, qname, qtype, norm)
    ensures !(HeaderMatches(p, id) && QuestionMatches(p, qname, qtype, norm)) ==> answer == None
    ensures HeaderMatches(p, id) && QuestionMatches(p, qname, qtype, norm) && p[3] % 16 != 0 ==>
              answer == if p[3] % 16 == 3 then Some(NxDomain) else None
  {
  }

  /** What becomes of a packet that was written in this form. */
  ghost predicate Decided(m: Packet, answer: Option<Answer>, id: nat, qname: string, qtype: nat,
                          norm: string -> string)
  {
    if !Matches(m, id, qname, qtype, norm) then answer == None
    else if m.flags % 16 == 3 then answer == Some(NxDomain)
    else if m.flags % 16 != 0 || m.rest != [] then answer == None
    else
      && answer.Some? && answer.value.NoError?
      && answer.value.rrset == Returned(m.question, m.answers, qname, norm)
      && LeastPositive(answer.value.ttl, answer.value.rrset)
  }

  /** Header and question are accepted when the packet answers the query, and only then. */
  lemma FrontReads(p: seq<byte>, m: Packet, header: seq<byte>, name: seq<byte>, next: nat, id: nat,
                   qname: string, qtype: nat, norm: string -> string)
    requires PacketFits(m) && Stands(p, 0, header) && Stands(p, 12, name) && next == 12 + |name|
    requires header == Counts(m.id, m.flags, m.questions, |m.answers|, m.authority, m.additional)
    requires name == Encode(m.question)
    requires Stands(p, next, Uint16(m.qtype)) && Stands(p, next + 2, Uint16(m.qclass))
    ensures HeaderMatches(p, id) && QuestionMatches(p, qname, qtype, norm) <==> Matches(m, id, qname, qtype, norm)
    ensures QuestionStands(p, m.question) && NameAt(p, 12).Some? && NameAt(p, 12).value.next == next
    ensures |p| >= 12 && p[3] % 16 == m.flags % 16
    ensures U16(p, 6) == |m.answers| && U16(p, 8) + U16(p, 10) == |m.others|
  {
    HeaderReads(p, m, header, id);
    QuestionAccepted(p, m.question, m.qtype, m.qclass, next, qname, qtype, norm);
  }

  lemma PacketPlaces(m: Packet, p: seq<byte>) returns (next: nat, middle: nat, end: nat)
    requires PacketFits(m) && p == PacketOctets(m)
    ensures Stands(p, 0, Counts(m.id, m.flags, m.questions, |m.answers|, m.authority, m.additional))
    ensures Stands(p, 12, Encode(m.question)) && next == 12 + |Encode(m.question)|
    ensures Stands(p, next, Uint16(m.qtype)) && Stands(p, next + 2, Uint16(m.qclass))
    ensures Stands(p, next + 4, ItemsOctets(m.question, m.answers))
    ensures middle == next + 4 + |ItemsOctets(m.question, m.answers)|
    ensures Stands(p, middle, ItemsOctets(m.question, m.others))
    ensures end == middle + |ItemsOctets(m.question, m.others)| && |p| == end + |m.rest|
  {
    var header := Counts(m.id, m.flags, m.questions, |m.answers|, m.authority, m.additional);
    var name := Encode(m.question);
    var answers, others := ItemsOctets(m.question, m.answers), ItemsOctets(m.question, m.others);
    next, middle, end := 12 + |name|, 12 + |name| + 4 + |answers|, 12 + |name| + 4 + |answers| + |others|;
    SixParts(p, header, name, Uint16(m.qtype), Uint16(m.qclass), answers, others, m.rest, next, middle, end);
  }

  lemma PacketReads(m: Packet, p: seq<byte>, id: nat, qname: string, qtype: nat, norm: string -> string)
    returns (next: nat, middle: nat, end: nat)
    requires PacketFits(m) && p == PacketOctets(m)
    ensures HeaderMatches(p, id) && QuestionMatches(p, qname, qtype, norm) <==> Matches(m, id, qname, qtype, norm)
    ensures QuestionStands(p, m.question) && NameAt(p, 12).Some? && NameAt(p, 12).value.next == next
    ensures |p| >= 12 && p[3] % 16 == m.flags % 16
    ensures U16(p, 6) == |m.answers| && U16(p, 8) + U16(p, 10) == |m.others|
    ensures Stands(p, next + 4, ItemsOctets(m.question, m.answers))
    ensures middle == next + 4 + |ItemsOctets(m.question, m.answers)|
    ensures Stands(p, middle, ItemsOctets(m.question, m.others))
    ensures end == middle + |ItemsOctets(m.question, m.others)| && |p| == end + |m.rest|
  {
    next, middle, end := PacketPlaces(m, p);
    var header := Counts(m.id, m.flags, m.questions, |m.answers|, m.authority, m.additional);
    FrontReads(p, m, header, Encode(m.question), next, id, qname, qtype, norm);
  }

  /** The round trip.  A packet written in this form is refused unless it answers the query; its
      response code makes it NXDOMAIN or refused; and with code zero and nothing behind the sections
      it is answered with exactly the records of class IN and the queried name whose data are usable,
      in order, each with its type, its TTL and the values written. */
  lemma AnswerRoundTrip(m: Packet, p: seq<byte>, id: nat, qname: string, qtype: nat, norm: string -> string)
    requires PacketFits(m) && p == PacketOctets(m)
    ensures Decided(m, Meaning(p, id, qname, qtype, norm), id, qname, qtype, norm)
  {
    var answer := Meaning(p, id, qname, qtype, norm);
    var next, middle, end := PacketReads(m, p, id, qname, qtype, norm);
    if Matches(m, id, qname, qtype, norm) && m.flags % 16 == 0 {
      var records := BodyReads(p, m, next + 4, middle, end, qname, norm);
      MeaningOf(p, id, qname, qtype, norm, next, if m.rest == [] then Some(records) else None, answer);
    } else {
      MeaningElse(p, id, qname, qtype, norm, answer);
    }
  }
}
