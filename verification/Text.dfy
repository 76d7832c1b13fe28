// Strings as the Go standard library treats them: one `char` stands for one
// rune (one octet in the ASCII range).  The Unicode tables and the IDNA library
// are represented by an oracle.

module Outcomes {
  datatype Option<+T> = None | Some(value: T)

  datatype Result<+T, +E> = Ok(value: T) | Err(error: E)
}

module Text {
  import opened Outcomes

  type byte = n: int | 0 <= n < 256

  /** The Unicode case tables and the IDNA lookup conversion of one label. */
  datatype Unicode = Unicode(lower: char -> char, idna: string -> Option<string>)

  predicate IsAscii(c: char) { c < 128 as char }

  predicate IsUpper(c: char) { 'A' <= c <= 'Z' }

  /** The white space that strings.TrimSpace and strings.Fields recognise. */
  predicate IsSpace(c: char) {
    || 9 as char <= c <= 13 as char || c == ' '
    || c == 0x85 as char || c == 0xA0 as char || c == 0x1680 as char
    || 0x2000 as char <= c <= 0x200A as char
    || c == 0x2028 as char || c == 0x2029 as char || c == 0x202F as char
    || c == 0x205F as char || c == 0x3000 as char
  }

  /** An ASCII character that is neither white space nor a control character. */
  predicate IsGraphic(c: char) { ' ' < c < 127 as char }

  /** A graphic character that can stand inside one canonical DNS label. */
  predicate IsLabelChar(c: char) { IsGraphic(c) && c != '.' && !IsUpper(c) }

  /** What the model assumes of the case tables and of the IDNA library. */
  ghost predicate Conforms(u: Unicode) {
    && (forall c {:trigger u.lower(c)} | IsUpper(c) :: u.lower(c) == (c as int + 32) as char)
    && (forall c {:trigger u.lower(c)} | IsAscii(c) && !IsUpper(c) :: u.lower(c) == c)
    && (forall c {:trigger u.lower(c)} | !IsAscii(c) :: IsAscii(u.lower(c)) ==> 'a' <= u.lower(c) <= 'z')
    && (forall c {:trigger IsSpace(u.lower(c))} :: IsSpace(u.lower(c)) == IsSpace(c))
    && (forall c {:trigger u.lower(u.lower(c))} :: u.lower(u.lower(c)) == u.lower(c))
    && (forall s {:trigger u.idna(s)} :: u.idna(s).Some? ==>
          && |u.idna(s).value| > 0
          && forall c | c in u.idna(s).value :: IsGraphic(c) && c != '.')
  }

  /** len of a Go string: the octets of its UTF-8 encoding. */
  function ByteLength(s: string): nat {
    if s == "" then 0
    else (if s[0] < 0x80 as char then 1 else if s[0] < 0x800 as char then 2
          else if s[0] as int < 0x10000 then 3 else 4) + ByteLength(s[1..])
  }

  function ToLower(u: Unicode, s: string): (r: string)
    ensures |r| == |s|
    ensures forall i | 0 <= i < |s| :: r[i] == u.lower(s[i])
  {
    seq(|s|, i requires 0 <= i < |s| => u.lower(s[i]))
  }

  function TrimLeft(s: string): string {
    if s != "" && IsSpace(s[0]) then TrimLeft(s[1..]) else s
  }

  function TrimRight(s: string): string {
    if s != "" && IsSpace(s[|s| - 1]) then TrimRight(s[..|s| - 1]) else s
  }

  function TrimSpace(s: string): string { TrimRight(TrimLeft(s)) }

  predicate Trimmed(s: string) {
    s != "" ==> !IsSpace(s[0]) && !IsSpace(s[|s| - 1])
  }

  lemma {:induction false} TrimLeftShape(s: string)
    ensures |TrimLeft(s)| <= |s| && TrimLeft(s) == s[|s| - |TrimLeft(s)|..]
    ensures TrimLeft(s) != "" ==> !IsSpace(TrimLeft(s)[0])
  {
    if s != "" && IsSpace(s[0]) { TrimLeftShape(s[1..]); }
  }

  lemma {:induction false} TrimRightShape(s: string)
    ensures TrimRight(s) <= s
    ensures TrimRight(s) != "" ==> !IsSpace(TrimRight(s)[|TrimRight(s)| - 1])
  {
    if s != "" && IsSpace(s[|s| - 1]) { TrimRightShape(s[..|s| - 1]); }
  }

  lemma TrimSpaceShape(s: string)
    ensures Trimmed(TrimSpace(s))
    ensures |TrimSpace(s)| <= |s|
    ensures forall c | c in TrimSpace(s) :: c in s
  {
    TrimLeftShape(s);
    TrimRightShape(TrimLeft(s));
  }

  lemma TrimSpaceFixed(s: string)
    requires Trimmed(s)
    ensures TrimSpace(s) == s
  {
  }

  predicate HasSuffix(s: string, suffix: string) {
    |suffix| <= |s| && s[|s| - |suffix|..] == suffix
  }

  function TrimSuffix(s: string, suffix: string): string {
    if HasSuffix(s, suffix) then s[..|s| - |suffix|] else s
  }

  predicate HasPrefix(s: string, prefix: string) { prefix <= s }

  function TrimPrefix(s: string, prefix: string): string {
    if HasPrefix(s, prefix) then s[|prefix|..] else s
  }

  // ---------------------------------------------------------------- splitting

  function Split(s: string, sep: char): (parts: seq<string>)
    ensures |parts| >= 1
  {
    if s == "" then [""]
    else if s[0] == sep then [""] + Split(s[1..], sep)
    else
      var rest := Split(s[1..], sep);
      [[s[0]] + rest[0]] + rest[1..]
  }

  function Join(parts: seq<string>, sep: string): string {
    if parts == [] then ""
    else if |parts| == 1 then parts[0]
    else parts[0] + sep + Join(parts[1..], sep)
  }

  lemma {:induction false} SplitParts(s: string, sep: char)
    ensures forall p | p in Split(s, sep) :: sep !in p && forall c | c in p :: c in s
  {
    if s != "" {
      SplitParts(s[1..], sep);
      var rest := Split(s[1..], sep);
      assert forall p | p in rest :: sep !in p && forall c | c in p :: c in s;
      if s[0] != sep {
        assert rest[0] in rest;
        assert forall p | p in rest[1..] :: p in rest;
      }
    }
  }

  lemma {:induction false} SplitFirst(a: string, sep: char, b: string)
    requires sep !in a
    ensures Split(a, sep) == [a]
    ensures Split(a + [sep] + b, sep) == [a] + Split(b, sep)
  {
    if a == "" {
      assert a + [sep] + b == [sep] + b;
    } else {
      SplitFirst(a[1..], sep, b);
      assert (a + [sep] + b)[1..] == a[1..] + [sep] + b;
      assert [a[0]] + a[1..] == a;
    }
  }

  lemma {:induction false} SplitJoin(parts: seq<string>, sep: char)
    requires parts != []
    requires forall p | p in parts :: sep !in p
    ensures Split(Join(parts, [sep]), sep) == parts
  {
    assert parts[0] in parts;
    if |parts| == 1 {
      SplitFirst(parts[0], sep, "");
    } else {
      assert forall p | p in parts[1..] :: p in parts;
      SplitJoin(parts[1..], sep);
      SplitFirst(parts[0], sep, Join(parts[1..], [sep]));
    }
  }

  lemma {:induction false} JoinSplit(s: string, sep: char)
    ensures Join(Split(s, sep), [sep]) == s
  {
    if s != "" {
      JoinSplit(s[1..], sep);
      var rest := Split(s[1..], sep);
      if s[0] == sep {
        assert ([""] + rest)[1..] == rest;
        assert "" + [sep] + s[1..] == s;
      } else {
        var parts := [[s[0]] + rest[0]] + rest[1..];
        if |rest| == 1 {
          assert Join(parts, [sep]) == [s[0]] + Join(rest, [sep]);
        } else {
          assert parts[1..] == rest[1..];
          assert Join(parts, [sep]) == [s[0]] + Join(rest, [sep]);
        }
      }
    }
  }

  /** Joining lists whose members avoid the separator loses nothing. */
  lemma JoinInjective(a: seq<string>, b: seq<string>, sep: char)
    requires a != [] && b != []
    requires forall p | p in a :: sep !in p
    requires forall p | p in b :: sep !in p
    ensures Join(a, [sep]) == Join(b, [sep]) <==> a == b
  {
    SplitJoin(a, sep);
    SplitJoin(b, sep);
  }

  /** One more character in front of a text that splits into these parts. */
  function InFront(c: char, sep: char, parts: seq<string>): seq<string>
    requires parts != []
  {
    if c == sep then [""] + parts else [[c] + parts[0]] + parts[1..]
  }

  lemma SplitInFront(c: char, s: string, sep: char)
    ensures Split([c] + s, sep) == InFront(c, sep, Split(s, sep))
  {
    assert ([c] + s)[1..] == s;
  }

  lemma InFrontOf(c: char, sep: char, parts: seq<string>, more: seq<string>)
    requires parts != []
    ensures InFront(c, sep, parts + more) == InFront(c, sep, parts) + more
  {
  }

  /** Splitting two texts with a separator between them splits each. */
  lemma {:induction false} SplitBoth(a: string, sep: char, b: string)
    ensures Split(a + [sep] + b, sep) == Split(a, sep) + Split(b, sep)
  {
    if a == "" {
      SplitInFront(sep, b, sep);
      assert a + [sep] + b == [sep] + b;
    } else {
      var c, rest := a[0], a[1..];
      SplitBoth(rest, sep, b);
      SplitInFront(c, rest, sep);
      SplitInFront(c, rest + [sep] + b, sep);
      InFrontOf(c, sep, Split(rest, sep), Split(b, sep));
      assert a == [c] + rest && a + [sep] + b == [c] + (rest + [sep] + b);
    }
  }

  lemma {:induction false} JoinBoth(a: seq<string>, b: seq<string>, sep: string)
    requires a != [] && b != []
    ensures Join(a + b, sep) == Join(a, sep) + sep + Join(b, sep)
  {
    if |a| == 1 {
      assert (a + b)[1..] == b;
    } else {
      assert (a + b)[1..] == a[1..] + b;
      JoinBoth(a[1..], b, sep);
    }
  }

  lemma {:induction false} JoinSnoc(parts: seq<string>, last: string, sep: string)
    requires parts != []
    ensures Join(parts + [last], sep) == Join(parts, sep) + sep + last
  {
    if |parts| > 1 {
      JoinSnoc(parts[1..], last, sep);
      assert (parts + [last])[1..] == parts[1..] + [last];
    } else {
      assert (parts + [last])[1..] == [last];
    }
  }

  lemma {:induction false} JoinChars(parts: seq<string>, sep: string)
    ensures forall c | c in Join(parts, sep) :: c in sep || exists p :: p in parts && c in p
  {
    if |parts| > 1 {
      JoinChars(parts[1..], sep);
      forall c | c in Join(parts, sep) ensures c in sep || exists p :: p in parts && c in p {
        if c in parts[0] {
        } else if c !in sep {
          assert c in Join(parts[1..], sep);
          var p :| p in parts[1..] && c in p;
          assert p in parts;
        }
      }
    } else if |parts| == 1 {
      assert parts[0] in parts;
    }
  }

  // ------------------------------------------------------------------ sorting

  /** The byte order of sort.Strings (for UTF-8 it is the code point order). */
  predicate Less(a: string, b: string) {
    b != "" && (a == "" || a[0] < b[0] || (a[0] == b[0] && Less(a[1..], b[1..])))
  }

  predicate AtMost(a: string, b: string) { !Less(b, a) }

  lemma {:induction false} LessTransitive(a: string, b: string, c: string)
    requires AtMost(a, b) && AtMost(b, c)
    ensures AtMost(a, c)
  {
    if a != "" && b != "" && c != "" && a[0] == b[0] == c[0] {
      LessTransitive(a[1..], b[1..], c[1..]);
    }
  }

  lemma {:induction false} LessConnected(a: string, b: string)
    ensures Less(a, b) || Less(b, a) || a == b
    ensures !(Less(a, b) && Less(b, a))
  {
    if a != "" && b != "" && a[0] == b[0] {
      LessConnected(a[1..], b[1..]);
      assert a == [a[0]] + a[1..] && b == [b[0]] + b[1..];
    }
  }

  predicate Sorted(s: seq<string>) {
    forall i, j | 0 <= i < j < |s| :: AtMost(s[i], s[j])
  }

  predicate NoDuplicates(s: seq<string>) {
    forall i, j | 0 <= i < j < |s| :: s[i] != s[j]
  }

  function Insert(x: string, s: seq<string>): (r: seq<string>)
    ensures multiset(r) == multiset(s) + multiset{x}
  {
    if s == [] then [x]
    else if AtMost(x, s[0]) then assert s == [s[0]] + s[1..]; [x] + s
    else assert s == [s[0]] + s[1..]; [s[0]] + Insert(x, s[1..])
  }

  /** sort.Strings, by insertion. */
  function Sort(s: seq<string>): (r: seq<string>)
    ensures multiset(r) == multiset(s)
  {
    if s == [] then [] else assert s == [s[0]] + s[1..]; Insert(s[0], Sort(s[1..]))
  }

  lemma SameElements(a: seq<string>, b: seq<string>)
    requires multiset(a) == multiset(b)
    ensures |a| == |b|
    ensures forall x :: x in a <==> x in b
  {
    assert |a| == |multiset(a)| == |multiset(b)| == |b|;
    forall x ensures x in a <==> x in b {
      assert x in a <==> x in multiset(a);
      assert x in b <==> x in multiset(b);
    }
  }

  lemma {:induction false} InsertSorted(x: string, s: seq<string>)
    requires Sorted(s)
    ensures Sorted(Insert(x, s))
  {
    if s != [] {
      LessConnected(x, s[0]);
      if AtMost(x, s[0]) {
        forall j | 0 <= j < |s| ensures AtMost(x, s[j]) {
          if j > 0 { LessTransitive(x, s[0], s[j]); }
        }
      } else {
        InsertSorted(x, s[1..]);
        var r := Insert(x, s[1..]);
        assert multiset(r) == multiset(s[1..] + [x]);
        SameElements(r, s[1..] + [x]);
        forall j | 0 <= j < |r| ensures AtMost(s[0], r[j]) {
          assert r[j] in s[1..] + [x];
        }
      }
    }
  }

  lemma {:induction false} SortSorted(s: seq<string>)
    ensures Sorted(Sort(s))
  {
    if s != [] {
      SortSorted(s[1..]);
      InsertSorted(s[0], Sort(s[1..]));
    }
  }

  lemma NoDuplicatesPermuted(a: seq<string>, b: seq<string>)
    requires multiset(a) == multiset(b) && NoDuplicates(a)
    ensures NoDuplicates(b)
  {
    forall i, j | 0 <= i < j < |b| ensures b[i] != b[j] {
      if b[i] == b[j] {
        var x := b[i];
        assert b[..j] == b[..i] + [x] + b[i + 1..j];
        assert b == b[..j] + [x] + b[j + 1..];
        assert multiset(b)[x] >= 2;
        AtMostOnce(a, x);
      }
    }
  }

  lemma {:induction false} AtMostOnce(a: seq<string>, x: string)
    requires NoDuplicates(a)
    ensures multiset(a)[x] <= 1
  {
    if a != [] {
      assert a == [a[0]] + a[1..];
      AtMostOnce(a[1..], x);
    }
  }

  lemma FirstIsMember(s: seq<string>)
    requires s != []
    ensures s[0] in s
  {
  }

  /** Two sorted lists without repetition and with the same members are equal. */
  lemma {:induction false} SortedUnique(a: seq<string>, b: seq<string>)
    requires Sorted(a) && Sorted(b) && NoDuplicates(a) && NoDuplicates(b)
    requires forall x :: x in a <==> x in b
    ensures a == b
  {
    if a == [] {
      if b != [] {
        FirstIsMember(b);
        assert false;
      }
    } else {
      assert a[0] in b;
      assert b[0] in a;
      var i :| 0 <= i < |b| && b[i] == a[0];
      var j :| 0 <= j < |a| && a[j] == b[0];
      LessConnected(a[0], b[0]);
      assert a[0] == b[0];
      forall x ensures x in a[1..] <==> x in b[1..] {
        assert x in a <==> x == a[0] || x in a[1..];
        assert x in b <==> x == b[0] || x in b[1..];
        assert a[0] !in a[1..] && b[0] !in b[1..];
      }
      SortedUnique(a[1..], b[1..]);
    }
  }

  lemma SameLeast(a: seq<string>, b: seq<string>)
    requires a != [] && b != [] && Sorted(a) && Sorted(b) && a[0] in b && b[0] in a
    ensures a[0] == b[0]
  {
    var i :| 0 <= i < |b| && b[i] == a[0];
    var j :| 0 <= j < |a| && a[j] == b[0];
    LessConnected(a[0], b[0]);
  }

  lemma RestMultiset(a: seq<string>)
    requires a != []
    ensures multiset(a[1..]) == multiset(a) - multiset{a[0]} && (Sorted(a) ==> Sorted(a[1..]))
  {
    assert a == [a[0]] + a[1..];
  }

  /** Two sorted lists with the same members, counted, are equal. */
  lemma {:induction false} SortedSame(a: seq<string>, b: seq<string>)
    requires Sorted(a) && Sorted(b) && multiset(a) == multiset(b)
    ensures a == b
  {
    SameElements(a, b);
    if a != [] {
      FirstIsMember(a);
      FirstIsMember(b);
      SameLeast(a, b);
      RestMultiset(a);
      RestMultiset(b);
      SortedSame(a[1..], b[1..]);
      assert a == [a[0]] + a[1..] && b == [b[0]] + b[1..];
    }
  }

  /** sort.Strings depends only on how often each member occurs. */
  lemma SortIffMultiset(a: seq<string>, b: seq<string>)
    ensures Sort(a) == Sort(b) <==> multiset(a) == multiset(b)
  {
    if multiset(a) == multiset(b) {
      SortSorted(a);
      SortSorted(b);
      SortedSame(Sort(a), Sort(b));
    }
  }

  /** sort.Strings depends only on the set of its distinct members. */
  lemma SortByMembers(a: seq<string>, b: seq<string>)
    requires NoDuplicates(a) && NoDuplicates(b)
    requires forall x :: x in a <==> x in b
    ensures Sort(a) == Sort(b)
  {
    SortSorted(a);
    SortSorted(b);
    NoDuplicatesPermuted(a, Sort(a));
    NoDuplicatesPermuted(b, Sort(b));
    SameElements(a, Sort(a));
    SameElements(b, Sort(b));
    SortedUnique(Sort(a), Sort(b));
  }
}
