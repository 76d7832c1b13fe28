// Hexadecimal text: encoding/hex and strconv.FormatInt in base 16.

module Hex {
  import opened Outcomes
  import opened Text

  function Nibble(n: nat): char
    requires n < 16
  {
    if n < 10 then ('0' as int + n) as char else ('a' as int + n - 10) as char
  }

  function NibbleValue(c: char): Option<nat> {
    if '0' <= c <= '9' then Some(c as int - '0' as int)
    else if 'a' <= c <= 'f' then Some(c as int - 'a' as int + 10)
    else if 'A' <= c <= 'F' then Some(c as int - 'A' as int + 10)
    else None
  }

  /** hex.EncodeToString */
  function Encode(data: seq<byte>): (s: string)
    ensures |s| == 2 * |data|
  {
    if data == [] then ""
    else
      var b: nat := data[0];
      [Nibble(b / 16), Nibble(b % 16)] + Encode(data[1..])
  }

  /** hex.DecodeString; digits of either case are read. */
  function Decode(s: string): (data: Option<seq<byte>>)
    ensures data.Some? ==> |s| == 2 * |data.value|
  {
    if s == "" then Some([])
    else if |s| == 1 then None
    else
      var first, rest := OctetOf(s[0], s[1]), Decode(s[2..]);
      if first.None? || rest.None? then None else Some([first.value] + rest.value)
  }

  function OctetOf(high: char, low: char): Option<byte> {
    var h, l := NibbleValue(high), NibbleValue(low);
    if h.None? || l.None? || h.value >= 16 || l.value >= 16 then None else Some(16 * h.value + l.value)
  }

  lemma OctetOfDigits(b: nat)
    requires b < 256
    ensures OctetOf(Nibble(b / 16), Nibble(b % 16)) == Some(b)
  {
    NibbleRoundTrip(b / 16);
    NibbleRoundTrip(b % 16);
    assert 16 * (b / 16) + b % 16 == b;
  }

  lemma NibbleRoundTrip(n: nat)
    requires n < 16
    ensures NibbleValue(Nibble(n)) == Some(n)
  {
  }

  lemma {:induction false} RoundTrip(data: seq<byte>)
    ensures Decode(Encode(data)) == Some(data)
  {
    if data != [] {
      RoundTrip(data[1..]);
      OctetOfDigits(data[0]);
      assert Encode(data)[2..] == Encode(data[1..]);
      assert data == [data[0]] + data[1..];
    }
  }

  lemma {:induction false} EncodeAppend(a: seq<byte>, b: seq<byte>)
    ensures Encode(a + b) == Encode(a) + Encode(b)
  {
    if a == [] {
      assert a + b == b;
    } else {
      assert (a + b)[1..] == a[1..] + b;
      EncodeAppend(a[1..], b);
    }
  }

  lemma {:induction false} EncodeZeros(n: nat)
    ensures Encode(Zeros(n)) == seq(2 * n, _ => '0')
  {
    if n > 0 {
      assert Zeros(n)[1..] == Zeros(n - 1);
      EncodeZeros(n - 1);
    }
  }

  function Zeros(n: nat): (z: seq<byte>)
    ensures |z| == n && forall i | 0 <= i < n :: z[i] == 0
  {
    seq(n, _ => 0)
  }

  /** strconv.FormatInt(n, 16) of a number that is not negative, and the verb %x. */
  function Format(n: nat): string {
    if n < 16 then [Nibble(n)] else Format(n / 16) + [Nibble(n % 16)]
  }

  /** An odd number of digits gets a leading zero. */
  function Even(digits: string): string {
    if |digits| % 2 != 0 then "0" + digits else digits
  }

  // ------------------------------------------------- big-endian numbers

  /** The value of octets, the most significant first. */
  function Value(word: seq<byte>): nat {
    if word == [] then 0 else Value(word[..|word| - 1]) * 256 + word[|word| - 1]
  }

  /** n in `width` octets, modulo 256 to that power. */
  function BigEndian(n: nat, width: nat): (word: seq<byte>)
    ensures |word| == width
  {
    if width == 0 then [] else BigEndian(n / 256, width - 1) + [n % 256]
  }

  lemma {:induction false} BigEndianOfValue(word: seq<byte>)
    ensures BigEndian(Value(word), |word|) == word
  {
    if word != [] {
      BigEndianOfValue(word[..|word| - 1]);
      assert word == word[..|word| - 1] + [word[|word| - 1]];
    }
  }

  function Pow256(n: nat): nat { if n == 0 then 1 else 256 * Pow256(n - 1) }

  lemma {:induction false} ValueOfBigEndian(n: nat, width: nat)
    requires n < Pow256(width)
    ensures Value(BigEndian(n, width)) == n
  {
    if width > 0 {
      ValueOfBigEndian(n / 256, width - 1);
      assert BigEndian(n, width)[..width - 1] == BigEndian(n / 256, width - 1);
    }
  }

  /** More octets make no number smaller. */
  lemma {:induction false} ValueOfPrefix(word: seq<byte>, i: nat)
    requires i <= |word|
    ensures Value(word[..i]) <= Value(word)
  {
    if i < |word| {
      ValueOfPrefix(word[..|word| - 1], i);
      assert word[..|word| - 1][..i] == word[..i];
    } else {
      assert word[..i] == word;
    }
  }

  lemma {:induction false} LeadingZeros(n: nat, word: seq<byte>)
    ensures Value(Zeros(n) + word) == Value(word)
  {
    if word != [] {
      assert (Zeros(n) + word)[..n + |word| - 1] == Zeros(n) + word[..|word| - 1];
      LeadingZeros(n, word[..|word| - 1]);
    } else if n > 0 {
      assert (Zeros(n) + word)[..n - 1] == Zeros(n - 1) + word;
      LeadingZeros(n - 1, word);
    }
  }

  /** The two digits of one octet. */
  function Digits(b: nat): (d: string)
    requires b < 256
    ensures |d| == 2
  {
    [Nibble(b / 16), Nibble(b % 16)]
  }

  lemma DecodeDigits(b: nat)
    requires b < 256
    ensures Decode(Digits(b)) == Some([b])
  {
    OctetOfDigits(b);
    assert Digits(b)[2..] == "";
    var first: seq<byte> := [b];
    assert first + [] == first;
  }

  /** Decoding works from the front, two digits at a time. */
  lemma {:induction false} DecodeAppend(s: string, t: string)
    requires |s| % 2 == 0 && Decode(s).Some? && Decode(t).Some?
    ensures Decode(s + t) == Some(Decode(s).value + Decode(t).value)
  {
    if s == "" {
      assert s + t == t && Decode(s).value + Decode(t).value == Decode(t).value;
    } else {
      assert (s + t)[2..] == s[2..] + t && (s + t)[0] == s[0] && (s + t)[1] == s[1];
      DecodeAppend(s[2..], t);
      var x, a, b := OctetOf(s[0], s[1]).value, Decode(s[2..]).value, Decode(t).value;
      assert [x] + (a + b) == ([x] + a) + b;
    }
  }

  lemma FormatTwoDigits(n: nat)
    requires n >= 256
    ensures Format(n) == Format(n / 256) + [Nibble(n % 256 / 16), Nibble(n % 16)]
  {
    assert n / 16 / 16 == n / 256 && n / 16 % 16 == n % 256 / 16;
    assert Format(n / 16) == Format(n / 256) + [Nibble(n % 256 / 16)];
  }

  lemma SmallDigits(n: nat)
    requires n < 256
    ensures Even(Format(n)) == Digits(n)
  {
    if n < 16 {
      assert Format(n) == [Nibble(n)];
    } else {
      assert Format(n / 16) == [Nibble(n / 16)];
    }
  }

  lemma LargeDigits(n: nat)
    requires n >= 256
    ensures Even(Format(n)) == Even(Format(n / 256)) + Digits(n % 256)
  {
    FormatTwoDigits(n);
    assert n % 256 % 16 == n % 16;
  }

  lemma ValueSnoc(word: seq<byte>, b: byte)
    ensures Value(word + [b]) == Value(word) * 256 + b
  {
    assert (word + [b])[..|word|] == word;
  }

  lemma EvenIsEven(digits: string)
    ensures |Even(digits)| % 2 == 0
  {
  }

  /** Printing in base 16, padding to whole octets and decoding gives the number's octets. */
  lemma {:induction false} FormatDecodes(n: nat)
    ensures Decode(Even(Format(n))).Some? && Value(Decode(Even(Format(n))).value) == n
  {
    if n < 256 {
      SmallDigits(n);
      DecodeDigits(n);
      ValueSnoc([], n);
    } else {
      var front := Even(Format(n / 256));
      FormatDecodes(n / 256);
      LargeDigits(n);
      EvenIsEven(Format(n / 256));
      DecodeDigits(n % 256);
      DecodeAppend(front, Digits(n % 256));
      ValueSnoc(Decode(front).value, n % 256);
    }
  }

  /** A number below 2^(8k) prints in at most 2k digits. */
  lemma {:induction false} FormatLength(n: nat, k: nat)
    requires k > 0 && n < Pow256(k)
    ensures 1 <= |Format(n)| <= 2 * k
  {
    if n >= 256 {
      assert n / 16 / 16 == n / 256;
      FormatLength(n / 256, k - 1);
    }
  }
}
