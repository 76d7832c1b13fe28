// readDNSName and writeDNSName themselves, and their round trip.

module DnsReader {
  import opened Outcomes
  import opened Text
  import opened DnsName
  import opened DnsWire

  /** What a fault of readDNSName says about the walk from the offset. */
  ghost predicate Blames(p: seq<byte>, start: nat, fault: NameFault) {
    match fault
    case PointerLoop => Cyclic(p, start)
    case NameTooLong => exists k: nat :: At(p, start, k).Some? && WireLength(Collected(p, start, k)) > MAX_WIRE
    case _ => exists k: nat :: At(p, start, k).Some? && MoveAt(p, At(p, start, k).value) == Bad(fault)
  }

  /** The variables of the loop after `moves` moves. */
  ghost predicate ReadSoFar(p: seq<byte>, start: nat, moves: nat, offset: nat, labels: seq<Label>, wireLen: nat,
                            next: nat, jumped: bool)
  {
    && At(p, start, moves) == Some(offset)
    && labels == Collected(p, start, moves)
    && wireLen == WireLength(labels) <= MAX_WIRE
    && NextOffset(p, start) == if jumped then next else NextOffset(p, offset)
  }

  /** readDNSName.  It answers a name exactly when following labels and pointers
      spells one of at most 255 octets; otherwise its fault is justified by the walk,
      and a pointer loop is blamed only on a genuine cycle. */
  method Read(p: seq<byte>, start: nat) returns (result: Result<ReadName, NameFault>)
    ensures result.Ok? ==> NameAt(p, start) == Some(result.value)
    ensures result.Err? ==> NameAt(p, start) == None && Blames(p, start, result.error)
  {
    var labels: seq<Label> := [];
    var offset: nat, next: nat, jumped, seen: nat, wireLen: nat := start, start, false, 0, 1;
    ghost var moves: nat := 0;
    while true
      invariant ReadSoFar(p, start, moves, offset, labels, wireLen, next, jumped)
      invariant seen <= |p| && seen <= moves && wireLen <= MAX_WIRE
      decreases MAX_WIRE - wireLen + |p| - seen
    {
      match MoveAt(p, offset)
      case Bad(fault) =>
        BadNeverReads(p, start, moves, offset, fault);
        return Err(fault);
      case Jump(ptr) =>
        JumpReads(p, start, moves, offset, labels, wireLen, next, jumped, ptr);
        if !jumped {
          next := offset + 2;
        }
        offset := ptr;
        jumped := true;
        seen := seen + 1;
        moves := moves + 1;
        if seen > |p| {
          LoopNeverReads(p, start, moves, offset);
          return Err(PointerLoop);
        }
      case Stop =>
        StopReads(p, start, moves, offset, labels, wireLen, next, jumped);
        if !jumped {
          next := offset + 1;
        }
        if |labels| == 0 {
          return Ok(ReadName(".", next));
        }
        return Ok(ReadName(Join(SpellAll(labels), ".") + ".", next));
      case Piece(text, after) =>
        PieceReads(p, start, moves, offset, labels, wireLen, next, jumped, text, after);
        wireLen := wireLen + 1 + |text|;
        moves := moves + 1;
        if wireLen > MAX_WIRE {
          return Err(NameTooLong);
        }
        labels := labels + [text];
        offset := after;
    }
  }

  lemma JumpReads(p: seq<byte>, start: nat, moves: nat, offset: nat, labels: seq<Label>, wireLen: nat,
                  next: nat, jumped: bool, target: nat)
    requires ReadSoFar(p, start, moves, offset, labels, wireLen, next, jumped) && MoveAt(p, offset) == Jump(target)
    ensures At(p, start, moves + 1) == Some(target)
    ensures ReadSoFar(p, start, moves + 1, target, labels, wireLen, if jumped then next else offset + 2, true)
  {
    JumpStep(p, start, moves, offset, target);
  }

  lemma PieceReads(p: seq<byte>, start: nat, moves: nat, offset: nat, labels: seq<Label>, wireLen: nat,
                   next: nat, jumped: bool, text: Label, after: nat)
    requires ReadSoFar(p, start, moves, offset, labels, wireLen, next, jumped)
    requires MoveAt(p, offset) == Piece(text, after)
    ensures if wireLen + 1 + |text| > MAX_WIRE then NameAt(p, start) == None && Blames(p, start, NameTooLong)
            else ReadSoFar(p, start, moves + 1, after, labels + [text], wireLen + 1 + |text|, next, jumped)
  {
    PieceStep(p, start, moves, offset, text, after);
    if wireLen + 1 + |text| > MAX_WIRE { LongNeverReads(p, start, moves + 1); }
  }

  lemma StopReads(p: seq<byte>, start: nat, moves: nat, offset: nat, labels: seq<Label>, wireLen: nat,
                  next: nat, jumped: bool)
    requires ReadSoFar(p, start, moves, offset, labels, wireLen, next, jumped) && MoveAt(p, offset).Stop?
    ensures NameAt(p, start) == Some(ReadName(NameText(labels), if jumped then next else offset + 1))
  {
    StopSpells(p, start, moves, offset);
    NameAtIs(p, start, moves, labels);
  }

  lemma LoopNeverReads(p: seq<byte>, start: nat, moves: nat, offset: nat)
    requires At(p, start, moves) == Some(offset) && moves > |p|
    ensures NameAt(p, start) == None && Blames(p, start, PointerLoop)
  {
    LongWalkIsCyclic(p, start, moves);
    CyclicNeverReads(p, start);
  }

  lemma JumpStep(p: seq<byte>, start: nat, moves: nat, offset: nat, target: nat)
    requires At(p, start, moves) == Some(offset) && MoveAt(p, offset) == Jump(target)
    ensures At(p, start, moves + 1) == Some(target)
    ensures Collected(p, start, moves + 1) == Collected(p, start, moves)
    ensures NextOffset(p, offset) == offset + 2
  {
  }

  lemma PieceStep(p: seq<byte>, start: nat, moves: nat, offset: nat, text: Label, next: nat)
    requires At(p, start, moves) == Some(offset) && MoveAt(p, offset) == Piece(text, next)
    ensures At(p, start, moves + 1) == Some(next)
    ensures Collected(p, start, moves + 1) == Collected(p, start, moves) + [text]
    ensures WireLength(Collected(p, start, moves) + [text]) == WireLength(Collected(p, start, moves)) + 1 + |text|
    ensures NextOffset(p, offset) == NextOffset(p, next)
  {
    WireLengthAppend(Collected(p, start, moves), [text]);
  }

  lemma BadNeverReads(p: seq<byte>, start: nat, moves: nat, offset: nat, fault: NameFault)
    requires At(p, start, moves) == Some(offset) && MoveAt(p, offset) == Bad(fault)
    ensures NameAt(p, start) == None && Blames(p, start, fault)
  {
    BadIsNamed(p, offset, fault);
    forall n, labels ensures !Spells(p, start, n, labels) {
      if Spells(p, start, n, labels) { SpellsAlong(p, start, moves, n, labels); }
    }
  }

  /** A single move is never blamed for a loop or for the length of the name. */
  lemma BadIsNamed(p: seq<byte>, offset: nat, fault: NameFault)
    requires MoveAt(p, offset) == Bad(fault)
    ensures fault != PointerLoop && fault != NameTooLong
  {
  }

  lemma CyclicNeverReads(p: seq<byte>, start: nat)
    requires Cyclic(p, start)
    ensures NameAt(p, start) == None
  {
    forall n, labels ensures !Spells(p, start, n, labels) {
      CycleNeverSpells(p, start, n, labels);
    }
  }

  lemma LongNeverReads(p: seq<byte>, start: nat, moves: nat)
    requires At(p, start, moves).Some? && WireLength(Collected(p, start, moves)) > MAX_WIRE
    ensures NameAt(p, start) == None && Blames(p, start, NameTooLong)
  {
    forall n, labels | Spells(p, start, n, labels) ensures WireLength(labels) > MAX_WIRE {
      SpellsAlong(p, start, moves, n, labels);
      LongerThanPrefix(Collected(p, start, moves), labels);
    }
  }

  lemma LongerThanPrefix(done: seq<Label>, labels: seq<Label>)
    requires done <= labels
    ensures WireLength(done) <= WireLength(labels)
  {
    assert labels == done + labels[|done|..];
    WireLengthAppend(done, labels[|done|..]);
  }

  lemma StopSpells(p: seq<byte>, start: nat, moves: nat, offset: nat)
    requires At(p, start, moves) == Some(offset) && MoveAt(p, offset).Stop?
    ensures Spells(p, start, moves, Collected(p, start, moves))
  {
    var labels := Collected(p, start, moves);
    assert labels + [] == labels;
    WalkSpells(p, start, moves, 0, [], moves, labels);
  }

  // ------------------------------------------------------------- the writer

  /** bytes.Buffer. */
  class Buffer {
    var bytes: seq<byte>

    constructor ()
      ensures bytes == []
    {
      bytes := [];
    }

    method WriteByte(b: byte)
      modifies this
      ensures bytes == old(bytes) + [b]
    {
      bytes := bytes + [b];
    }

    method WriteString(s: string)
      modifies this
      ensures bytes == old(bytes) + Octets(s)
    {
      bytes := bytes + Octets(s);
    }

    method WriteUint16(n: nat)
      requires n < 0x10000
      modifies this
      ensures bytes == old(bytes) + Uint16(n)
    {
      bytes := bytes + Uint16(n);
    }
  }

  function Uint16(n: nat): seq<byte>
    requires n < 0x10000
  {
    [n / 256, n % 256]
  }

  /** The octets of a string of chars below 256. */
  function Octets(s: string): Label {
    seq(|s|, i requires 0 <= i < |s| => s[i] as int % 256)
  }

  function OctetsAll(labels: seq<string>): seq<Label> {
    seq(|labels|, i requires 0 <= i < |labels| => Octets(labels[i]))
  }

  predicate WireLabel(label_: Label) { 1 <= |label_| <= MAX_LABEL }

  predicate WireLabels(labels: seq<Label>) {
    (forall s | s in labels :: WireLabel(s)) && WireLength(labels) <= MAX_WIRE
  }

  /** Labels with their length octets, without the root octet. */
  function Prefixes(labels: seq<Label>): seq<byte>
    requires forall s | s in labels :: WireLabel(s)
  {
    if labels == [] then []
    else
      assert WireLabel(labels[0]);
      [|labels[0]|] + labels[0] + Prefixes(labels[1..])
  }

  /** RFC 1035 section 3.1. */
  function Encode(labels: seq<Label>): seq<byte>
    requires forall s | s in labels :: WireLabel(s)
  {
    Prefixes(labels) + [0]
  }

  lemma {:induction false} PrefixesAppend(a: seq<Label>, b: Label)
    requires (forall s | s in a :: WireLabel(s)) && WireLabel(b)
    ensures Prefixes(a + [b]) == Prefixes(a) + [|b|] + b
  {
    if a == [] {
      assert a + [b] == [b];
    } else {
      assert (a + [b])[1..] == a[1..] + [b];
      PrefixesAppend(a[1..], b);
    }
  }

  lemma {:induction false} EncodeLength(labels: seq<Label>)
    requires forall s | s in labels :: WireLabel(s)
    ensures |Encode(labels)| == WireLength(labels)
  {
    if labels != [] { EncodeLength(labels[1..]); }
  }

  /** The labels that a name has after ToASCII. */
  function NameLabels(name: string): seq<string> {
    if TrimSuffix(name, ".") == "" then [] else Split(TrimSuffix(name, "."), '.')
  }

  /** writeDNSName.  The label checks of the source never fire on what ToASCII accepts. */
  method WriteName(buf: Buffer, u: Unicode, qname: string) returns (ok: bool)
    modifies buf
    ensures ok ==> ToAscii(u, qname).Ok? &&
                   var labels := OctetsAll(NameLabels(ToAscii(u, qname).value));
                   WireLabels(labels) && buf.bytes == old(buf.bytes) + Encode(labels)
    ensures !ok <==> ToAscii(u, qname).Err? || !WireLabels(OctetsAll(NameLabels(ToAscii(u, qname).value)))
  {
    var converted := ConvertName(u, qname);
    if converted.Err? {
      return false;
    }
    ok := WriteAscii(buf, converted.value);
  }

  method WriteAscii(buf: Buffer, ascii: string) returns (ok: bool)
    modifies buf
    ensures ok <==> WireLabels(OctetsAll(NameLabels(ascii)))
    ensures ok ==> buf.bytes == old(buf.bytes) + Encode(OctetsAll(NameLabels(ascii)))
  {
    var name := TrimSuffix(ascii, ".");
    if name == "" {
      buf.WriteByte(0);
      return true;
    }
    ok := WriteLabels(buf, Split(name, '.'));
  }

  /** One turn of the loop: a length octet and the label. */
  method WriteOne(buf: Buffer, part: string, wireLen: nat) returns (ok: bool, next: nat)
    modifies buf
    ensures next == wireLen + 1 + |part|
    ensures ok <==> 1 <= |part| <= MAX_LABEL && next <= MAX_WIRE
    ensures ok ==> buf.bytes == old(buf.bytes) + [|part|] + Octets(part)
  {
    next := wireLen + 1 + |part|;
    if |part| == 0 || |part| > MAX_LABEL {
      return false, next;
    }
    if next > MAX_WIRE {
      return false, next;
    }
    buf.WriteByte(|part|);
    buf.WriteString(part);
    return true, next;
  }

  /** The loop of writeDNSName and the root octet behind it. */
  method WriteLabels(buf: Buffer, labels: seq<string>) returns (ok: bool)
    modifies buf
    ensures ok <==> WireLabels(OctetsAll(labels))
    ensures ok ==> buf.bytes == old(buf.bytes) + Encode(OctetsAll(labels))
  {
    ghost var octets := OctetsAll(labels);
    var wireLen := 1;
    var i := 0;
    while i < |labels|
      invariant 0 <= i <= |labels|
      invariant forall s | s in octets[..i] :: WireLabel(s)
      invariant wireLen == WireLength(octets[..i]) <= MAX_WIRE
      invariant buf.bytes == old(buf.bytes) + Prefixes(octets[..i])
    {
      TakeOne(octets, i);
      var written;
      written, wireLen := WriteOne(buf, labels[i], wireLen);
      if !written {
        return false;
      }
      Reassociate(old(buf.bytes), Prefixes(octets[..i]), [|labels[i]|], octets[i]);
      i := i + 1;
    }
    assert octets[..i] == octets;
    buf.WriteByte(0);
    return true;
  }

  lemma Reassociate(a: seq<byte>, b: seq<byte>, c: seq<byte>, d: seq<byte>)
    ensures a + b + c + d == a + (b + c + d)
  {
  }

  lemma TakeOne(octets: seq<Label>, i: nat)
    requires i < |octets| && forall s | s in octets[..i] :: WireLabel(s)
    ensures octets[i] in octets
    ensures forall s | s in octets[..i + 1] :: s in octets[..i] || s == octets[i]
    ensures WireLength(octets[..i + 1]) == WireLength(octets[..i]) + 1 + |octets[i]| <= WireLength(octets)
    ensures WireLabel(octets[i]) ==>
              (forall s | s in octets[..i + 1] :: WireLabel(s))
              && Prefixes(octets[..i + 1]) == Prefixes(octets[..i]) + [|octets[i]|] + octets[i]
  {
    assert octets[..i + 1] == octets[..i] + [octets[i]];
    assert octets == octets[..i + 1] + octets[i + 1..];
    WireLengthAppend(octets[..i], [octets[i]]);
    WireLengthAppend(octets[..i + 1], octets[i + 1..]);
    if WireLabel(octets[i]) { PrefixesAppend(octets[..i], octets[i]); }
  }

  // ------------------------------------------------------------- round trip

  lemma {:induction false} JoinedWireLength(labels: seq<string>)
    requires labels != []
    ensures WireLength(OctetsAll(labels)) == |Join(labels, ".")| + 2
  {
    assert OctetsAll(labels)[1..] == OctetsAll(labels[1..]);
    if |labels| > 1 {
      JoinedWireLength(labels[1..]);
    } else {
      assert OctetsAll(labels[1..]) == [];
    }
  }

  /** writeDNSName cannot fail on a name that ToASCII accepts, and emits exactly
      two octets more than the name without its final dot; one for the root. */
  lemma AcceptedNamesFit(u: Unicode, qname: string)
    requires Conforms(u) && ToAscii(u, qname).Ok?
    ensures var name := ToAscii(u, qname).value;
            var labels := OctetsAll(NameLabels(name));
            && WireLabels(labels)
            && |Encode(labels)| == (if TrimSuffix(name, ".") == "" then 1 else |TrimSuffix(name, ".")| + 2)
            && |Encode(labels)| <= MAX_WIRE
  {
    var name := ToAscii(u, qname).value;
    AcceptedIsCanonical(u, qname);
    CanonicalFits(name);
    EncodeLength(OctetsAll(NameLabels(name)));
  }

  lemma CanonicalFits(name: string)
    requires Canonical(name)
    ensures WireLabels(OctetsAll(NameLabels(name)))
    ensures WireLength(OctetsAll(NameLabels(name))) ==
            if TrimSuffix(name, ".") == "" then 1 else |TrimSuffix(name, ".")| + 2
  {
    if name == "" || name == "." {
    } else {
      var labels := LabelsOf(name);
      NameIsCanonical(labels);
      JoinNonEmpty(labels);
      JoinedWireLength(labels);
      forall s | s in OctetsAll(labels) ensures WireLabel(s) {
        var i :| 0 <= i < |labels| && s == Octets(labels[i]);
        assert labels[i] in labels;
      }
    }
  }

  /** Labels with their length octets and the root octet stand at the offset. */
  predicate WireAt(p: seq<byte>, offset: nat, labels: seq<Label>)
    decreases labels
  {
    if labels == [] then offset < |p| && p[offset] == 0
    else
      && WireLabel(labels[0]) && offset + 1 + |labels[0]| <= |p|
      && p[offset] == |labels[0]| && p[offset + 1..offset + 1 + |labels[0]|] == labels[0]
      && WireAt(p, offset + 1 + |labels[0]|, labels[1..])
  }

  lemma {:induction false} EncodedIsWire(p: seq<byte>, offset: nat, labels: seq<Label>, wire: seq<byte>)
    requires (forall s | s in labels :: WireLabel(s)) && wire == Encode(labels)
    requires offset + |wire| <= |p| && p[offset..offset + |wire|] == wire
    ensures WireAt(p, offset, labels) && |wire| == WireLength(labels)
    decreases labels
  {
    assert p[offset] == wire[0];
    if labels != [] {
      var text, rest := labels[0], labels[1..];
      assert WireLabel(text);
      assert wire == [|text|] + text + Encode(rest);
      SliceOfSlice(p, offset, wire, 1, 1 + |text|);
      SliceOfSlice(p, offset, wire, 1 + |text|, |wire|);
      EncodedIsWire(p, offset + 1 + |text|, rest, Encode(rest));
    }
  }

  /** Reading a name on the wire at any position of any packet gives its labels. */
  lemma {:induction false} EncodedSpells(p: seq<byte>, offset: nat, labels: seq<Label>)
    requires WireAt(p, offset, labels)
    ensures Spells(p, offset, |labels|, labels)
    ensures NextOffset(p, offset) == offset + WireLength(labels)
    decreases labels
  {
    if labels != [] {
      var next := offset + 1 + |labels[0]|;
      assert MoveAt(p, offset) == Piece(labels[0], next);
      EncodedSpells(p, next, labels[1..]);
    }
  }

  lemma SliceOfSlice(p: seq<byte>, offset: nat, wire: seq<byte>, from: nat, to: nat)
    requires offset + |wire| <= |p| && p[offset..offset + |wire|] == wire && from <= to <= |wire|
    ensures p[offset + from..offset + to] == wire[from..to]
  {
    forall k | from <= k < to ensures p[offset + k] == wire[k] {
      assert p[offset..offset + |wire|][k] == p[offset + k];
    }
  }

  lemma SpelledOctets(labels: seq<string>)
    requires forall s | s in labels :: CanonicalLabel(s)
    ensures SpellAll(OctetsAll(labels)) == labels
  {
    forall i | 0 <= i < |labels| ensures Spell(Octets(labels[i])) == labels[i] {
      assert labels[i] in labels;
      assert forall k | 0 <= k < |labels[i]| :: labels[i][k] in labels[i];
    }
  }

  /** How a reader shows a name: the empty name is written as the root. */
  function Shown(name: string): string { if name == "" then "." else name }

  /** The labels of a canonical name, with what its readers rely on. */
  lemma FormOf(name: string) returns (labels: seq<Label>)
    requires Canonical(name)
    ensures labels == WireForm(name) && WireLength(labels) <= MAX_WIRE && NameText(labels) == Shown(name)
  {
    CanonicalFits(name);
    labels := WireForm(name);
    if name != "" && name != "." {
      var parts := LabelsOf(name);
      NameIsCanonical(parts);
      JoinNonEmpty(parts);
      SpelledOctets(parts);
      assert OctetsAll(parts) != [];
    }
  }

  /** A name written by writeDNSName is read back, wherever it stands. */
  lemma NameRoundTrip(name: string, wire: seq<byte>, p: seq<byte>, offset: nat)
    requires Canonical(name) && wire == Encode(WireForm(name))
    requires offset + |wire| <= |p| && p[offset..offset + |wire|] == wire
    ensures NameAt(p, offset) == Some(ReadName(Shown(name), offset + |wire|))
  {
    var labels := FormOf(name);
    WireReads(p, offset, labels, wire, Shown(name));
  }

  lemma WireReads(p: seq<byte>, offset: nat, labels: seq<Label>, wire: seq<byte>, name: string)
    requires (forall s | s in labels :: WireLabel(s)) && wire == Encode(labels)
    requires WireLength(labels) <= MAX_WIRE && NameText(labels) == name
    requires offset + |wire| <= |p| && p[offset..offset + |wire|] == wire
    ensures NameAt(p, offset) == Some(ReadName(name, offset + |wire|))
  {
    EncodedIsWire(p, offset, labels, wire);
    EncodedReads(p, offset, labels, name);
  }

  lemma EncodedReads(p: seq<byte>, offset: nat, labels: seq<Label>, name: string)
    requires WireAt(p, offset, labels) && WireLength(labels) <= MAX_WIRE && NameText(labels) == name
    ensures NameAt(p, offset) == Some(ReadName(name, offset + WireLength(labels)))
  {
    EncodedSpells(p, offset, labels);
    SpelledReads(p, offset, labels, name, offset + WireLength(labels));
  }

  /** Labels on the wire are read exactly when with the root octet they take at most 255 octets. */
  lemma ReadIffWithinLimit(p: seq<byte>, offset: nat, labels: seq<Label>)
    requires WireAt(p, offset, labels)
    ensures NameAt(p, offset).Some? <==> WireLength(labels) <= 255
  {
    EncodedSpells(p, offset, labels);
    if WireLength(labels) <= 255 {
      EncodedReads(p, offset, labels, NameText(labels));
    } else if NameAt(p, offset).Some? {
      var n, other :| Spells(p, offset, n, other) && WireLength(other) <= MAX_WIRE;
      SpellsUnique(p, offset, |labels|, labels, n, other);
    }
  }

  /** Length octets from 64 to 191 are refused, as is a label or a pointer that the packet cuts
      off or that leads out of it. */
  lemma RefusedOctets(p: seq<byte>, offset: nat)
    ensures offset >= |p| ==> NameAt(p, offset) == None && Blames(p, offset, ExceedsPacket)
    ensures offset < |p| && 64 <= p[offset] < 192 ==> NameAt(p, offset) == None && Blames(p, offset, UnsupportedLabel)
    ensures offset < |p| && 0 < p[offset] < 64 && offset + 1 + p[offset] > |p| ==>
              NameAt(p, offset) == None && Blames(p, offset, ShortLabel)
    ensures offset == |p| - 1 && p[offset] >= 192 ==> NameAt(p, offset) == None && Blames(p, offset, ShortPointer)
    ensures offset + 1 < |p| && p[offset] >= 192 && (p[offset] - 192) * 256 + p[offset + 1] >= |p| ==>
              NameAt(p, offset) == None && Blames(p, offset, PointerOutOfRange)
  {
    assert At(p, offset, 0) == Some(offset);
    if MoveAt(p, offset).Bad? { BadNeverReads(p, offset, 0, offset, MoveAt(p, offset).fault); }
  }

  lemma SpelledReads(p: seq<byte>, offset: nat, labels: seq<Label>, name: string, next: nat)
    requires Spells(p, offset, |labels|, labels) && WireLength(labels) <= MAX_WIRE
    requires NameText(labels) == name && NextOffset(p, offset) == next
    ensures NameAt(p, offset) == Some(ReadName(name, next))
  {
    NameAtIs(p, offset, |labels|, labels);
  }

  /** The same through any compression pointer to it, forwards or backwards. */
  lemma PointerRoundTrip(name: string, wire: seq<byte>, p: seq<byte>, target: nat, pointer: nat)
    requires Canonical(name) && wire == Encode(WireForm(name)) && target < 0x4000
    requires target + |wire| <= |p| && p[target..target + |wire|] == wire
    requires pointer + 2 <= |p| && p[pointer] == 0xC0 + target / 256 && p[pointer + 1] == target % 256
    ensures NameAt(p, pointer) == Some(ReadName(Shown(name), pointer + 2))
  {
    var labels := FormOf(name);
    EncodedIsWire(p, target, labels, wire);
    EncodedSpells(p, target, labels);
    PointerSpells(p, target, pointer, labels);
  }

  /** From the name as given to the name as read: for every name that ToASCII accepts
      writeDNSName appends `wire`, and wherever this stands the ASCII name is read. */
  lemma WrittenIsRead(u: Unicode, qname: string, name: string, wire: seq<byte>, p: seq<byte>, offset: nat)
    requires Conforms(u) && ToAscii(u, qname) == Ok(name)
    requires WireLabels(OctetsAll(NameLabels(name))) ==> wire == Encode(OctetsAll(NameLabels(name)))
    requires offset + |wire| <= |p| && p[offset..offset + |wire|] == wire
    ensures WireLabels(OctetsAll(NameLabels(name)))
    ensures NameAt(p, offset) == Some(ReadName(Shown(name), offset + |wire|))
  {
    var labels := WrittenLabels(u, qname, name);
    WireReads(p, offset, labels, wire, Shown(name));
  }

  lemma WrittenLabels(u: Unicode, qname: string, name: string) returns (labels: seq<Label>)
    requires Conforms(u) && ToAscii(u, qname) == Ok(name)
    ensures labels == OctetsAll(NameLabels(name)) && WireLabels(labels) && NameText(labels) == Shown(name)
  {
    AcceptedIsCanonical(u, qname);
    labels := FormOf(name);
  }

  lemma PointerSpells(p: seq<byte>, target: nat, pointer: nat, labels: seq<Label>)
    requires target < 0x4000 && target < |p| && Spells(p, target, |labels|, labels) && WireLength(labels) <= MAX_WIRE
    requires pointer + 2 <= |p| && p[pointer] == 0xC0 + target / 256 && p[pointer + 1] == target % 256
    ensures NameAt(p, pointer) == Some(ReadName(NameText(labels), pointer + 2))
  {
    assert MoveAt(p, pointer) == Jump(target);
    NameAtIs(p, pointer, |labels| + 1, labels);
  }

  /** The labels of a canonical name as octets. */
  function WireForm(name: string): (labels: seq<Label>)
    requires Canonical(name)
    ensures forall s | s in labels :: WireLabel(s)
  {
    CanonicalFits(name);
    OctetsAll(NameLabels(name))
  }
}
