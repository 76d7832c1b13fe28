// Domain names on the wire: readDNSName and writeDNSName of
// internal/plugins/hns/dns_backend.go, after RFC 1035 sections 3.1 and 4.1.4.

module DnsWire {
  import opened Outcomes
  import opened Text
  import opened DnsName

  type Label = seq<byte>

  const MAX_WIRE := 255

  /** A Go string of octets, one char below 256 for each of them. */
  function Spell(label_: Label): string {
    seq(|label_|, i requires 0 <= i < |label_| => label_[i] as char)
  }

  function SpellAll(labels: seq<Label>): seq<string> {
    seq(|labels|, i requires 0 <= i < |labels| => Spell(labels[i]))
  }

  /** The text of a name that has been read. */
  function NameText(labels: seq<Label>): string {
    if labels == [] then "." else Join(SpellAll(labels), ".") + "."
  }

  /** Octets of a name on the wire, the root octet included. */
  function WireLength(labels: seq<Label>): nat {
    if labels == [] then 1 else 1 + |labels[0]| + WireLength(labels[1..])
  }

  lemma {:induction false} WireLengthAppend(a: seq<Label>, b: seq<Label>)
    ensures WireLength(a + b) == WireLength(a) + WireLength(b) - 1
  {
    if a == [] {
      assert a + b == b;
    } else {
      assert (a + b)[1..] == a[1..] + b;
      WireLengthAppend(a[1..], b);
    }
  }

  // --------------------------------------------------- what a name means

  datatype NameFault =
    ExceedsPacket | ShortPointer | PointerOutOfRange | PointerLoop | UnsupportedLabel | ShortLabel | NameTooLong

  /** What stands at one offset of a packet. */
  datatype Move = Stop | Piece(text: Label, next: nat) | Jump(target: nat) | Bad(fault: NameFault)

  function MoveAt(p: seq<byte>, offset: nat): Move {
    if offset >= |p| then Bad(ExceedsPacket)
    else
      var length: int := p[offset];
      if length >= 0xC0 then
        if offset + 1 >= |p| then Bad(ShortPointer)
        else
          var target: nat := (length - 0xC0) * 256 + p[offset + 1];
          if target >= |p| then Bad(PointerOutOfRange) else Jump(target)
      else if length >= 0x40 then Bad(UnsupportedLabel)
      else if length == 0 then Stop
      else if offset + 1 + length > |p| then Bad(ShortLabel)
      else Piece(p[offset + 1..offset + 1 + length], offset + 1 + length)
  }

  /** Following labels and pointers from `offset` meets the root octet after
      exactly `n` moves, with these labels on the way. */
  predicate Spells(p: seq<byte>, offset: nat, n: nat, labels: seq<Label>)
    decreases n
  {
    match MoveAt(p, offset)
    case Stop => n == 0 && labels == []
    case Piece(text, next) => n > 0 && labels != [] && labels[0] == text && Spells(p, next, n - 1, labels[1..])
    case Jump(target) => n > 0 && Spells(p, target, n - 1, labels)
    case Bad(_) => false
  }

  /** Where the message goes on after the name: behind the root octet or behind
      the first pointer. */
  function NextOffset(p: seq<byte>, offset: nat): nat
    decreases |p| - offset
  {
    match MoveAt(p, offset)
    case Stop => offset + 1
    case Piece(_, next) => NextOffset(p, next)
    case Jump(_) => offset + 2
    case Bad(_) => offset
  }

  ghost predicate Readable(p: seq<byte>, offset: nat) {
    exists n, labels :: Spells(p, offset, n, labels) && WireLength(labels) <= MAX_WIRE
  }

  datatype ReadName = ReadName(name: string, next: nat)

  /** The meaning of the name at an offset, if it has one. */
  ghost function NameAt(p: seq<byte>, offset: nat): Option<ReadName> {
    if Readable(p, offset) then
      var n, labels :| Spells(p, offset, n, labels) && WireLength(labels) <= MAX_WIRE;
      Some(ReadName(NameText(labels), NextOffset(p, offset)))
    else None
  }

  lemma {:induction false} SpellsUnique(p: seq<byte>, offset: nat, n: nat, a: seq<Label>, m: nat, b: seq<Label>)
    requires Spells(p, offset, n, a) && Spells(p, offset, m, b)
    ensures n == m && a == b
    decreases n
  {
    match MoveAt(p, offset)
    case Stop =>
    case Piece(text, next) =>
      SpellsUnique(p, next, n - 1, a[1..], m - 1, b[1..]);
      assert a == [text] + a[1..] && b == [text] + b[1..];
    case Jump(target) => SpellsUnique(p, target, n - 1, a, m - 1, b);
    case Bad(_) =>
  }

  lemma NameAtIs(p: seq<byte>, offset: nat, n: nat, labels: seq<Label>)
    requires Spells(p, offset, n, labels) && WireLength(labels) <= MAX_WIRE
    ensures NameAt(p, offset) == Some(ReadName(NameText(labels), NextOffset(p, offset)))
  {
    assert Readable(p, offset);
    var m, other :| Spells(p, offset, m, other) && WireLength(other) <= MAX_WIRE
                    && NameAt(p, offset) == Some(ReadName(NameText(other), NextOffset(p, offset)));
    SpellsUnique(p, offset, n, labels, m, other);
  }

  lemma {:induction false} NextInBounds(p: seq<byte>, offset: nat, n: nat, labels: seq<Label>)
    requires Spells(p, offset, n, labels)
    ensures offset < NextOffset(p, offset) <= |p|
    decreases n
  {
    match MoveAt(p, offset)
    case Stop =>
    case Piece(_, next) => NextInBounds(p, next, n - 1, labels[1..]);
    case Jump(_) =>
    case Bad(_) =>
  }

  lemma NameAtInBounds(p: seq<byte>, offset: nat)
    requires NameAt(p, offset).Some?
    ensures offset < NameAt(p, offset).value.next <= |p|
  {
    var n, labels :| Spells(p, offset, n, labels) && WireLength(labels) <= MAX_WIRE;
    NameAtIs(p, offset, n, labels);
    NextInBounds(p, offset, n, labels);
  }

  // ---------------------------------------------------------------- walks

  function Follow(p: seq<byte>, offset: nat): Option<nat> {
    match MoveAt(p, offset)
    case Stop => None
    case Piece(_, next) => Some(next)
    case Jump(target) => Some(target)
    case Bad(_) => None
  }

  /** The offset reached after `k` moves. */
  function At(p: seq<byte>, offset: nat, k: nat): Option<nat> {
    if k == 0 then Some(offset)
    else match At(p, offset, k - 1)
      case None => None
      case Some(here) => Follow(p, here)
  }

  /** The labels met during the first `k` moves. */
  function Collected(p: seq<byte>, offset: nat, k: nat): seq<Label> {
    if k == 0 then []
    else match At(p, offset, k - 1)
      case None => Collected(p, offset, k - 1)
      case Some(here) => Collected(p, offset, k - 1) + PieceAt(p, here)
  }

  /** The label at an offset, if one stands there. */
  function PieceAt(p: seq<byte>, offset: nat): seq<Label> {
    if MoveAt(p, offset).Piece? then [MoveAt(p, offset).text] else []
  }

  /** The walk from `offset` comes back to a place where it has been. */
  ghost predicate Cyclic(p: seq<byte>, offset: nat) {
    exists i: nat, j: nat :: i < j && At(p, offset, j).Some? && At(p, offset, i) == At(p, offset, j)
  }

  /** The rest of the name, from `here` on, when these labels are done. */
  predicate Remains(p: seq<byte>, here: nat, n: nat, done: seq<Label>, labels: seq<Label>) {
    done <= labels && Spells(p, here, n, labels[|done|..])
  }

  /** What a whole name says about the rest of its walk. */
  lemma {:induction false} SpellsAlong(p: seq<byte>, offset: nat, k: nat, n: nat, labels: seq<Label>)
    requires At(p, offset, k).Some? && Spells(p, offset, n, labels)
    ensures n >= k && Remains(p, At(p, offset, k).value, n - k, Collected(p, offset, k), labels)
  {
    if k > 0 {
      SpellsAlong(p, offset, k - 1, n, labels);
      SpellsOn(p, At(p, offset, k - 1).value, At(p, offset, k).value, n - (k - 1), Collected(p, offset, k - 1), labels);
    } else {
      assert labels[0..] == labels;
    }
  }

  lemma SpellsOn(p: seq<byte>, here: nat, next: nat, n: nat, done: seq<Label>, labels: seq<Label>)
    requires Follow(p, here) == Some(next) && Remains(p, here, n, done, labels)
    ensures n > 0 && Remains(p, next, n - 1, done + PieceAt(p, here), labels)
  {
    SpellsOneMove(p, here, next, n, labels[|done|..]);
    PrefixGrows(done, PieceAt(p, here), labels);
  }

  lemma SpellsOneMove(p: seq<byte>, here: nat, next: nat, n: nat, labels: seq<Label>)
    requires Follow(p, here) == Some(next) && Spells(p, here, n, labels)
    ensures n > 0 && PieceAt(p, here) <= labels
    ensures Spells(p, next, n - 1, labels[|PieceAt(p, here)|..])
  {
    if !MoveAt(p, here).Piece? { assert labels[0..] == labels; }
  }

  lemma PrefixGrows(done: seq<Label>, piece: seq<Label>, labels: seq<Label>)
    requires done <= labels && piece <= labels[|done|..]
    ensures done + piece <= labels && labels[|done|..][|piece|..] == labels[|done + piece|..]
  {
    assert labels == done + labels[|done|..];
  }

  /** Conversely a walk to the root octet spells the labels collected. */
  lemma {:induction false} WalkSpells(p: seq<byte>, offset: nat, k: nat, n: nat, labels: seq<Label>,
                                      total: nat, all: seq<Label>)
    requires At(p, offset, k).Some? && Spells(p, At(p, offset, k).value, n, labels)
    requires total == n + k && all == Collected(p, offset, k) + labels
    ensures Spells(p, offset, total, all)
  {
    if k > 0 {
      var before := Collected(p, offset, k - 1);
      var piece := PieceAt(p, At(p, offset, k - 1).value);
      AppendAssociates(before, piece, labels);
      StepSpells(p, At(p, offset, k - 1).value, At(p, offset, k).value, n, labels);
      WalkSpells(p, offset, k - 1, n + 1, piece + labels, total, all);
    } else {
      EmptyAppend(labels);
    }
  }

  lemma AppendAssociates(a: seq<Label>, b: seq<Label>, c: seq<Label>)
    ensures a + b + c == a + (b + c)
  {
  }

  lemma EmptyAppend(a: seq<Label>)
    ensures [] + a == a
  {
  }

  lemma StepSpells(p: seq<byte>, here: nat, next: nat, n: nat, labels: seq<Label>)
    requires Follow(p, here) == Some(next) && Spells(p, next, n, labels)
    ensures Spells(p, here, n + 1, PieceAt(p, here) + labels)
  {
    var more := PieceAt(p, here) + labels;
    if MoveAt(p, here).Piece? {
      assert more[1..] == labels;
    } else {
      assert more == labels;
    }
  }

  /** A name on a cycle never ends. */
  lemma CycleNeverSpells(p: seq<byte>, offset: nat, n: nat, labels: seq<Label>)
    requires Cyclic(p, offset)
    ensures !Spells(p, offset, n, labels)
  {
    if Spells(p, offset, n, labels) {
      var i: nat, j: nat :| i < j && At(p, offset, j).Some? && At(p, offset, i) == At(p, offset, j);
      SpellsAlong(p, offset, i, n, labels);
      SpellsAlong(p, offset, j, n, labels);
      SpellsUnique(p, At(p, offset, i).value, n - i, labels[|Collected(p, offset, i)|..],
                   n - j, labels[|Collected(p, offset, j)|..]);
    }
  }

  /** Pigeonhole: more entries than values below `bound` means a repetition. */
  lemma Pigeonhole(s: seq<nat>, bound: nat)
    requires |s| > bound && forall i | 0 <= i < |s| :: s[i] < bound
    ensures exists i, j :: 0 <= i < j < |s| && s[i] == s[j]
  {
    if forall i, j | 0 <= i < j < |s| :: s[i] != s[j] {
      DistinctBelow(s, bound);
    }
  }

  function Members(s: seq<nat>): set<nat> { set x | x in s }

  lemma DistinctBelow(s: seq<nat>, bound: nat)
    requires forall i | 0 <= i < |s| :: s[i] < bound
    requires forall i, j | 0 <= i < j < |s| :: s[i] != s[j]
    ensures |s| <= bound
  {
    MemberCount(s);
    BelowCount(Members(s), bound);
  }

  lemma {:induction false} MemberCount(s: seq<nat>)
    requires forall i, j | 0 <= i < j < |s| :: s[i] != s[j]
    ensures |Members(s)| == |s|
  {
    if s != [] {
      var rest := s[1..];
      MemberCount(rest);
      assert s[0] !in rest;
      assert Members(s) == Members(rest) + {s[0]};
    }
  }

  lemma {:induction false} BelowCount(members: set<nat>, bound: nat)
    requires forall x | x in members :: x < bound
    ensures |members| <= bound
  {
    if bound == 0 {
      assert members == {};
    } else {
      BelowCount(members - {bound - 1}, bound - 1);
    }
  }

  lemma {:induction false} WalkPrefix(p: seq<byte>, offset: nat, k: nat, i: nat)
    requires i <= k && At(p, offset, k).Some?
    ensures At(p, offset, i).Some?
    ensures i < k ==> At(p, offset, i).value < |p|
  {
    if i < k { WalkPrefix(p, offset, k - 1, i); }
  }

  /** More moves than octets can only happen on a cycle. */
  lemma LongWalkIsCyclic(p: seq<byte>, offset: nat, k: nat)
    requires At(p, offset, k).Some? && k > |p|
    ensures Cyclic(p, offset)
  {
    forall i: nat | i < k ensures At(p, offset, i).Some? && At(p, offset, i).value < |p| {
      WalkPrefix(p, offset, k, i);
    }
    var visited := seq(k, i requires 0 <= i < k => At(p, offset, i).value);
    Pigeonhole(visited, |p|);
    var i: nat, j: nat :| i < j < |visited| && visited[i] == visited[j];
    assert At(p, offset, i) == At(p, offset, j);
  }
}
