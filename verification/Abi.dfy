// The Ethereum ABI codec of internal/plugins/wave1/ccip.go and plugin.go: words,
// byte strings, and the OffchainLookup error and callback of EIP-3668.

module Abi {
  import opened Outcomes
  import opened Text
  import Hex

  // ------------------------------------------------------------------- words

  /** Go's division, which truncates toward zero. */
  function TruncDiv(a: int, b: int): int
    requires b > 0
  {
    if a >= 0 then a / b else -((-a) / b)
  }

  /** What abiOffset is for: the number in a word, if it is within the limit. */
  function Offset(word: seq<byte>, limit: int): Option<nat> {
    if |word| == 32 && Hex.Value(word) <= limit then Some(Hex.Value(word)) else None
  }

  /** The guard of abiOffset, although its dividend may be negative, stops only
      words beyond the limit and lets no intermediate value pass the larger of the limit
      and 255. */
  lemma GuardIsSound(value: nat, b: byte, limit: int)
    ensures value > TruncDiv(limit - b, 256) ==> value * 256 + b > limit
    ensures value <= TruncDiv(limit - b, 256) ==> value * 256 + b <= limit || (value == 0 && b <= 255)
  {
  }

  lemma ValueOfNext(word: seq<byte>, i: nat)
    requires i < |word|
    ensures Hex.Value(word[..i + 1]) == Hex.Value(word[..i]) * 256 + word[i]
    ensures Hex.Value(word[..i + 1]) <= Hex.Value(word)
  {
    assert word[..i + 1][..i] == word[..i];
    Hex.ValueOfPrefix(word, i + 1);
  }

  method AbiOffset(word: seq<byte>, limit: int) returns (value: int, ok: bool)
    ensures ok == Offset(word, limit).Some?
    ensures ok ==> value == Offset(word, limit).value
  {
    if |word| != 32 {
      return 0, false;
    }
    value := 0;
    for i := 0 to |word|
      invariant value == Hex.Value(word[..i])
      invariant value <= if limit > 255 then limit else 255
    {
      ValueOfNext(word, i);
      GuardIsSound(value, word[i], limit);
      if value > TruncDiv(limit - word[i], 256) {
        return 0, false;
      }
      value := value * 256 + word[i];
    }
    assert word[..|word|] == word;
    ok := value >= 0 && value <= limit;
  }

  const MAX_INT32 := 0x7fff_ffff

  /** The number in a word if it is below 2^31, and -1 otherwise. */
  function WordUint(word: seq<byte>): int {
    if Offset(word, MAX_INT32).Some? then Offset(word, MAX_INT32).value else -1
  }

  method AbiWordUint(word: seq<byte>) returns (n: int)
    ensures n == WordUint(word)
  {
    if |word| != 32 {
      return -1;
    }
    n := 0;
    for i := 0 to |word|
      invariant n == Hex.Value(word[..i]) <= MAX_INT32
    {
      ValueOfNext(word, i);
      if n > (MAX_INT32 - word[i]) / 256 {
        return -1;
      }
      n := n * 256 + word[i];
    }
    assert word[..|word|] == word;
  }

  const INT64 := 0x8000_0000_0000_0000

  /** The word of a number. */
  function Word(n: nat): (word: seq<byte>)
    ensures |word| == 32
  {
    Hex.BigEndian(n, 32)
  }

  lemma Small(n: nat)
    requires n < INT64
    ensures n < Hex.Pow256(8) && n < Hex.Pow256(32)
  {
    assert Hex.Pow256(4) == 0x1_0000_0000;
    assert Hex.Pow256(6) == 0x1_0000_0000_0000;
    assert Hex.Pow256(8) == 0x1_0000_0000_0000_0000;
    PowGrows(8, 32);
  }

  lemma {:induction false} PowGrows(a: nat, b: nat)
    requires a <= b
    ensures Hex.Pow256(a) <= Hex.Pow256(b)
  {
    if a < b { PowGrows(a, b - 1); }
  }

  /** Reading a word gives back the number it was written for, up to the limit. */
  lemma OffsetOfWord(n: nat, limit: int)
    requires n < INT64
    ensures Offset(Word(n), limit) == if n <= limit then Some(n) else None
  {
    Small(n);
    Hex.ValueOfBigEndian(n, 32);
  }

  /** putABIUint into the octets [lo, hi) of a, which are zero: hexadecimal text,
      decoded and copied to the end. */
  method PutAbiUint(a: array<byte>, lo: nat, hi: nat, value: nat)
    requires lo + 32 == hi <= a.Length && value < INT64
    requires forall i | lo <= i < hi :: a[i] == 0
    modifies a
    ensures a[lo..hi] == Word(value)
    ensures forall i | 0 <= i < lo || hi <= i < a.Length :: a[i] == old(a[i])
  {
    var encoded := Hex.Format(value);
    if |encoded| % 2 != 0 {
      encoded := "0" + encoded;
    }
    RawOctets(value);
    var raw := Hex.Decode(encoded);
    var from := hi - |raw.value|;
    forall i | 0 <= i < |raw.value| { a[from + i] := raw.value[i]; }
    assert a[lo..hi] == Hex.Zeros(32 - |raw.value|) + raw.value;
  }

  /** The hexadecimal text of a number holds the last octets of its word, and the
      others are zero. */
  lemma RawOctets(value: nat)
    requires value < INT64
    ensures var raw := Hex.Decode(Hex.Even(Hex.Format(value)));
      raw.Some? && |raw.value| <= 8 && Hex.Zeros(32 - |raw.value|) + raw.value == Word(value)
  {
    Hex.FormatDecodes(value);
    Small(value);
    var raw := Hex.Decode(Hex.Even(Hex.Format(value))).value;
    Hex.FormatLength(value, 8);
    Hex.LeadingZeros(32 - |raw|, raw);
    Hex.BigEndianOfValue(Hex.Zeros(32 - |raw|) + raw);
  }

  // ------------------------------------------------------------ byte strings

  function PaddedLength(n: nat): nat { (n + 31) / 32 * 32 }

  /** The ABI encoding of a dynamic byte string: its length, itself, zeros. */
  function Tail(value: seq<byte>): (r: seq<byte>)
    ensures |r| == 32 + PaddedLength(|value|)
  {
    Word(|value|) + value + Hex.Zeros(PaddedLength(|value|) - |value|)
  }

  method EncodeAbiBytes(value: seq<byte>) returns (out: array<byte>)
    requires |value| < INT64
    ensures fresh(out) && out[..] == Tail(value)
  {
    var padded := (|value| + 31) / 32 * 32;
    out := new byte[32 + padded](_ => 0);
    PutAbiUint(out, 0, 32, |value|);
    forall i | 0 <= i < |value| { out[32 + i] := value[i]; }
    assert out[..32] == Word(|value|);
    assert out[32..32 + |value|] == value;
    assert out[..] == out[..32] + out[32..32 + |value|] + out[32 + |value|..];
  }

  function BytesAt(payload: seq<byte>, offset: int): Option<seq<byte>> {
    if offset < 0 || offset + 32 > |payload| then None
    else
      var length := Offset(payload[offset..offset + 32], |payload| - offset - 32);
      if length.None? || offset + 32 + length.value > |payload| then None
      else Some(payload[offset + 32..offset + 32 + length.value])
  }

  function DynamicBytes(payload: seq<byte>, word: seq<byte>): Option<seq<byte>> {
    var offset := Offset(word, |payload|);
    if offset.None? then None else BytesAt(payload, offset.value)
  }

  predicate Stands(payload: seq<byte>, offset: nat, part: seq<byte>) {
    offset + |part| <= |payload| && payload[offset..offset + |part|] == part
  }

  lemma Within(payload: seq<byte>, offset: nat, part: seq<byte>, i: nat, j: nat)
    requires Stands(payload, offset, part) && i <= j <= |part|
    ensures payload[offset + i..offset + j] == part[i..j]
  {
    var slice := payload[offset + i..offset + j];
    forall k | 0 <= k < j - i ensures slice[k] == part[i..j][k] {
      assert slice[k] == payload[offset..offset + |part|][i + k];
    }
  }

  /** The encoding of a byte string stands at the offset. */
  predicate Holds(payload: seq<byte>, offset: nat, value: seq<byte>) { Stands(payload, offset, Tail(value)) }

  lemma HeldBytes(payload: seq<byte>, offset: nat, value: seq<byte>)
    requires Holds(payload, offset, value) && |payload| < INT64
    ensures BytesAt(payload, offset) == Some(value)
  {
    var t := Tail(value);
    Within(payload, offset, t, 0, 32);
    Within(payload, offset, t, 32, 32 + |value|);
    TailParts(value);
    OffsetOfWord(|value|, |payload| - offset - 32);
  }

  lemma TailParts(value: seq<byte>)
    ensures Tail(value)[0..32] == Word(|value|) && Tail(value)[32..32 + |value|] == value
  {
  }

  lemma HoldsBetween(before: seq<byte>, value: seq<byte>, after: seq<byte>)
    ensures Holds(before + Tail(value) + after, |before|, value)
  {
  }

  // ------------------------------------------------------------ the callback

  /** The arguments of a CCIP-Read callback, function(bytes response, bytes extraData). */
  function CallbackArguments(response: seq<byte>, extraData: seq<byte>): seq<byte> {
    Word(64) + Word(64 + |Tail(response)|) + Tail(response) + Tail(extraData)
  }

  method EncodeCcipCallback(selector: seq<byte>, response: seq<byte>, extraData: seq<byte>) returns (r: string)
    requires |CallbackArguments(response, extraData)| < INT64
    ensures r == "0x" + Hex.Encode(selector + CallbackArguments(response, extraData))
  {
    var head := new byte[64](_ => 0);
    PutAbiUint(head, 0, 32, 64);
    var responseEncoded := EncodeAbiBytes(response);
    PutAbiUint(head, 32, 64, 64 + responseEncoded.Length);
    assert head[..] == head[0..32] + head[32..64];
    assert head[0..32] == Word(64);
    var extraEncoded := EncodeAbiBytes(extraData);
    var payload := head[..] + responseEncoded[..] + extraEncoded[..];
    r := "0x" + Hex.Encode(selector + payload);
  }

  /** Decoding an encoded callback at its two head words returns the response and the
      extra data. */
  lemma CallbackRoundTrip(selector: seq<byte>, response: seq<byte>, extraData: seq<byte>)
    requires |selector| == 4 && |CallbackArguments(response, extraData)| < INT64
    ensures var text := "0x" + Hex.Encode(selector + CallbackArguments(response, extraData));
      var data := Hex.Decode(TrimPrefix(text, "0x"));
      && data.Some? && |data.value| >= 68 && data.value[..4] == selector
      && var payload := data.value[4..];
      && DynamicBytes(payload, payload[..32]) == Some(response)
      && DynamicBytes(payload, payload[32..64]) == Some(extraData)
  {
    var payload := CallbackArguments(response, extraData);
    Hex.RoundTrip(selector + payload);
    assert ("0x" + Hex.Encode(selector + payload))[2..] == Hex.Encode(selector + payload);
    assert (selector + payload)[4..] == payload;
    ArgumentsRoundTrip(response, extraData);
  }

  lemma ArgumentsRoundTrip(response: seq<byte>, extraData: seq<byte>)
    requires |CallbackArguments(response, extraData)| < INT64
    ensures var payload := CallbackArguments(response, extraData);
      && DynamicBytes(payload, payload[..32]) == Some(response)
      && DynamicBytes(payload, payload[32..64]) == Some(extraData)
  {
    var payload := CallbackArguments(response, extraData);
    TwoTails(Word(64), Word(64 + |Tail(response)|), response, extraData);
    OffsetOfWord(64, |payload|);
    OffsetOfWord(64 + |Tail(response)|, |payload|);
    HeldBytes(payload, 64, response);
    HeldBytes(payload, 64 + |Tail(response)|, extraData);
  }

  lemma TwoTails(first: seq<byte>, second: seq<byte>, a: seq<byte>, b: seq<byte>)
    requires |first| == |second| == 32
    ensures var payload := first + second + Tail(a) + Tail(b);
      && payload[..32] == first && payload[32..64] == second
      && Holds(payload, 64, a) && Holds(payload, 64 + |Tail(a)|, b)
  {
    HoldsBetween(first + second, a, Tail(b));
    HoldsBetween(first + second + Tail(a), b, []);
    assert first + second + Tail(a) + Tail(b) == first + second + Tail(a) + Tail(b) + [];
  }

  // --------------------------------------------------------- arrays of strings

  datatype LookupFault =
    | NotOffchainLookup | BadPayload | BadUrlOffset | BadCallData | BadExtraData | BadUrls | BadUrlCount

  /** The element of a string array whose head word is the i-th after `base`. */
  function Element(payload: seq<byte>, base: nat, i: nat): Option<seq<byte>>
    requires base + i * 32 + 32 <= |payload|
  {
    var relative := Offset(payload[base + i * 32..base + i * 32 + 32], |payload| - base);
    if relative.None? then None else BytesAt(payload, base + relative.value)
  }

  /** The first n elements of a string array whose element heads start at `base`. */
  function Strings(payload: seq<byte>, base: nat, n: nat): Option<seq<seq<byte>>>
    requires base + n * 32 <= |payload|
  {
    if n == 0 then Some([])
    else
      var front := Strings(payload, base, n - 1);
      var last := Element(payload, base, n - 1);
      if front.None? || last.None? then None else Some(front.value + [last.value])
  }

  function StringArray(payload: seq<byte>, offset: nat): Option<seq<seq<byte>>> {
    if offset + 32 > |payload| then None
    else
      var count := Offset(payload[offset..offset + 32], 8);
      if count.None? || offset + 32 + count.value * 32 > |payload| then None
      else Strings(payload, offset + 32, count.value)
  }

  lemma {:induction false} StringsFailFirst(payload: seq<byte>, base: nat, i: nat, n: nat)
    requires i <= n && base + n * 32 <= |payload|
    requires Strings(payload, base, i).None?
    ensures Strings(payload, base, n).None?
    decreases n
  {
    if i < n { StringsFailFirst(payload, base, i, n - 1); }
  }

  /** One turn of the loop. */
  method AbiElement(payload: seq<byte>, base: nat, index: nat) returns (value: Option<seq<byte>>)
    requires base + index * 32 + 32 <= |payload|
    ensures value == Element(payload, base, index)
  {
    var relative, ok := AbiOffset(payload[base + index * 32..base + index * 32 + 32], |payload| - base);
    if !ok {
      return None;
    }
    value := BytesAt(payload, base + relative);
  }

  method AbiStringArray(payload: seq<byte>, offset: nat) returns (r: Option<seq<seq<byte>>>)
    ensures r == StringArray(payload, offset)
  {
    if offset + 32 > |payload| {
      return None;
    }
    var count, ok := AbiOffset(payload[offset..offset + 32], 8);
    if !ok || count < 0 || count > 8 {
      return None;
    }
    var base := offset + 32;
    if base + count * 32 > |payload| {
      return None;
    }
    var out: seq<seq<byte>> := [];
    for index := 0 to count
      invariant Strings(payload, base, index) == Some(out)
    {
      var value := AbiElement(payload, base, index);
      if value.None? {
        StringsFailFirst(payload, base, index + 1, count);
        return None;
      }
      out := out + [value.value];
    }
    r := Some(out);
  }

  // ------------------------------------------------------- OffchainLookup

  datatype Lookup = Lookup(
    sender: string, urls: seq<seq<byte>>, callData: seq<byte>, callbackFunction: seq<byte>, extraData: seq<byte>)

  function DecodePayload(payload: seq<byte>): Result<Lookup, LookupFault> {
    if |payload| < 160 then Err(BadPayload)
    else
      var urlsOffset := Offset(payload[32..64], |payload|);
      if urlsOffset.None? then Err(BadUrlOffset)
      else
        var callData := DynamicBytes(payload, payload[64..96]);
        if callData.None? then Err(BadCallData)
        else
          var extraData := DynamicBytes(payload, payload[128..160]);
          if extraData.None? then Err(BadExtraData)
          else
            var urls := StringArray(payload, urlsOffset.value);
            if urls.None? then Err(BadUrls)
            else if |urls.value| == 0 || |urls.value| > 8 then Err(BadUrlCount)
            else Ok(Lookup("0x" + Hex.Encode(payload[12..32]), urls.value, callData.value,
                           payload[96..100], extraData.value))
  }

  const SELECTOR: seq<byte> := [0x55, 0x6f, 0x18, 0x30]

  /** strings.EqualFold against the selector, whose letters are ASCII. */
  predicate IsSelector(s: string) { Hex.Decode(s) == Some(SELECTOR) }

  function DecodeOffchainLookup(value: string): Result<Lookup, LookupFault> {
    var raw := TrimPrefix(TrimSpace(value), "0x");
    if |raw| < 8 || !IsSelector(raw[..8]) then Err(NotOffchainLookup)
    else
      var payload := Hex.Decode(raw[8..]);
      if payload.None? then Err(BadPayload) else DecodePayload(payload.value)
  }

  // ---------------------------------------------- the standard encoding of it

  function Tails(values: seq<seq<byte>>): seq<byte> {
    if values == [] then []
    else Tails(values[..|values| - 1]) + Tail(values[|values| - 1])
  }

  /** Where the element i stands, counted from the first element head. */
  function ElementOffset(values: seq<seq<byte>>, i: nat): nat
    requires i <= |values|
  {
    32 * |values| + |Tails(values[..i])|
  }

  function Heads(values: seq<seq<byte>>, n: nat): (r: seq<byte>)
    requires n <= |values|
    ensures |r| == 32 * n
  {
    if n == 0 then [] else Heads(values, n - 1) + Word(ElementOffset(values, n - 1))
  }

  function ArrayTail(values: seq<seq<byte>>): seq<byte> {
    Word(|values|) + Heads(values, |values|) + Tails(values)
  }

  /** OffchainLookup(address sender, string[] urls, bytes callData, bytes4 callback,
      bytes extraData), with the parts in the order of the arguments. */
  function LookupArguments(sender: seq<byte>, urls: seq<seq<byte>>, callData: seq<byte>,
                           callback: seq<byte>, extraData: seq<byte>): seq<byte>
    requires |sender| == 20 && |callback| == 4
  {
    LookupHead(sender, urls, callData, callback) + ArrayTail(urls) + Tail(callData) + Tail(extraData)
  }

  function LookupHead(sender: seq<byte>, urls: seq<seq<byte>>, callData: seq<byte>, callback: seq<byte>)
    : (r: seq<byte>)
    requires |sender| == 20 && |callback| == 4
    ensures |r| == 160
  {
    Hex.Zeros(12) + sender + Word(160) + Word(160 + |ArrayTail(urls)|) + (callback + Hex.Zeros(28))
    + Word(160 + |ArrayTail(urls)| + |Tail(callData)|)
  }

  lemma {:induction false} HeadAt(values: seq<seq<byte>>, n: nat, i: nat)
    requires i < n <= |values|
    ensures Heads(values, n)[32 * i..32 * i + 32] == Word(ElementOffset(values, i))
  {
    if i < n - 1 {
      HeadAt(values, n - 1, i);
      assert Heads(values, n)[32 * i..32 * i + 32] == Heads(values, n - 1)[32 * i..32 * i + 32];
    }
  }

  lemma {:induction false} TailsSplit(values: seq<seq<byte>>, i: nat) returns (after: seq<byte>)
    requires i < |values|
    ensures Tails(values) == Tails(values[..i]) + Tail(values[i]) + after
  {
    var n := |values| - 1;
    if i == n {
      after := [];
    } else {
      after := TailsSplit(values[..n], i);
      assert values[..n][..i] == values[..i];
      assert Tails(values[..i]) + Tail(values[i]) + after + Tail(values[n])
          == Tails(values[..i]) + Tail(values[i]) + (after + Tail(values[n]));
      after := after + Tail(values[n]);
    }
  }

  /** An array encoding stands at the offset. */
  predicate HoldsArray(payload: seq<byte>, offset: nat, values: seq<seq<byte>>) {
    Stands(payload, offset, ArrayTail(values))
  }

  lemma HeldHead(payload: seq<byte>, offset: nat, values: seq<seq<byte>>, i: nat)
    requires HoldsArray(payload, offset, values) && i < |values|
    ensures offset + 32 + 32 * i + 32 <= |payload|
    ensures payload[offset + 32 + 32 * i..offset + 32 + 32 * i + 32] == Word(ElementOffset(values, i))
  {
    var t := ArrayTail(values);
    Within(payload, offset, t, 32 + 32 * i, 32 + 32 * i + 32);
    HeadAt(values, |values|, i);
    assert t[32 + 32 * i..32 + 32 * i + 32] == Heads(values, |values|)[32 * i..32 * i + 32];
  }

  lemma HeldElement(payload: seq<byte>, offset: nat, values: seq<seq<byte>>, i: nat)
    requires HoldsArray(payload, offset, values) && i < |values|
    ensures Holds(payload, offset + 32 + ElementOffset(values, i), values[i])
  {
    var t := ArrayTail(values);
    var after := TailsSplit(values, i);
    var before := Word(|values|) + Heads(values, |values|) + Tails(values[..i]);
    assert t == before + Tail(values[i]) + after;
    Within(payload, offset, t, |before|, |before| + |Tail(values[i])|);
  }

  lemma HeldElementReads(payload: seq<byte>, offset: nat, values: seq<seq<byte>>, i: nat)
    requires HoldsArray(payload, offset, values) && i < |values| && |payload| < INT64
    ensures offset + 32 + i * 32 + 32 <= |payload|
    ensures Element(payload, offset + 32, i) == Some(values[i])
  {
    var at := ElementOffset(values, i);
    HeldHead(payload, offset, values, i);
    HeldElement(payload, offset, values, i);
    OffsetOfWord(at, |payload| - (offset + 32));
    HeldBytes(payload, offset + 32 + at, values[i]);
  }

  lemma {:induction false} HeldStrings(payload: seq<byte>, offset: nat, values: seq<seq<byte>>, n: nat)
    requires HoldsArray(payload, offset, values) && n <= |values| && |payload| < INT64
    ensures offset + 32 + n * 32 <= |payload|
    ensures Strings(payload, offset + 32, n) == Some(values[..n])
  {
    if n > 0 {
      HeldStrings(payload, offset, values, n - 1);
      HeldElementReads(payload, offset, values, n - 1);
      assert values[..n] == values[..n - 1] + [values[n - 1]];
    }
  }

  lemma HeldArray(payload: seq<byte>, offset: nat, values: seq<seq<byte>>)
    requires HoldsArray(payload, offset, values) && |payload| < INT64
    ensures StringArray(payload, offset) == if |values| <= 8 then Some(values) else None
  {
    var t := ArrayTail(values);
    Within(payload, offset, t, 0, 32);
    assert t[0..32] == Word(|values|);
    OffsetOfWord(|values|, 8);
    HeldStrings(payload, offset, values, |values|);
    assert values[..|values|] == values;
  }

  /** Only lookups with one to eight URLs are accepted. */
  function Accepted(l: Lookup): Result<Lookup, LookupFault> {
    if l.urls == [] then Err(BadUrlCount) else if |l.urls| > 8 then Err(BadUrls) else Ok(l)
  }

  /** Any payload whose head words lead to encodings of the fields, in whatever order
      these are laid out, decodes to the fields exactly when there are one to eight URLs. */
  lemma PayloadDecodes(payload: seq<byte>, l: Lookup, sender: seq<byte>, urlsAt: nat, callDataAt: nat, extraAt: nat)
    requires 160 <= |payload| < INT64 && payload[12..32] == sender && l.sender == "0x" + Hex.Encode(sender)
    requires payload[32..64] == Word(urlsAt) && HoldsArray(payload, urlsAt, l.urls)
    requires payload[64..96] == Word(callDataAt) && Holds(payload, callDataAt, l.callData)
    requires payload[96..100] == l.callbackFunction
    requires payload[128..160] == Word(extraAt) && Holds(payload, extraAt, l.extraData)
    ensures DecodePayload(payload) == Accepted(l)
  {
    OffsetOfWord(urlsAt, |payload|);
    OffsetOfWord(callDataAt, |payload|);
    OffsetOfWord(extraAt, |payload|);
    HeldBytes(payload, callDataAt, l.callData);
    HeldBytes(payload, extraAt, l.extraData);
    HeldArray(payload, urlsAt, l.urls);
  }

  lemma FirstHeadWords(sender: seq<byte>, urls: seq<seq<byte>>, callData: seq<byte>, callback: seq<byte>,
                       rest: seq<byte>)
    requires |sender| == 20 && |callback| == 4
    ensures var payload := LookupHead(sender, urls, callData, callback) + rest;
      payload[12..32] == sender && payload[32..64] == Word(160)
  {
  }

  lemma LastHeadWords(sender: seq<byte>, urls: seq<seq<byte>>, callData: seq<byte>, callback: seq<byte>,
                      rest: seq<byte>)
    requires |sender| == 20 && |callback| == 4
    ensures var payload := LookupHead(sender, urls, callData, callback) + rest;
      && payload[64..96] == Word(160 + |ArrayTail(urls)|) && payload[96..100] == callback
      && payload[128..160] == Word(160 + |ArrayTail(urls)| + |Tail(callData)|)
  {
  }

  lemma HeadWords(sender: seq<byte>, urls: seq<seq<byte>>, callData: seq<byte>, callback: seq<byte>,
                  extraData: seq<byte>, payload: seq<byte>, list: nat, data: nat)
    requires |sender| == 20 && |callback| == 4
    requires payload == LookupArguments(sender, urls, callData, callback, extraData)
    requires list == |ArrayTail(urls)| && data == |Tail(callData)|
    ensures |payload| >= 160 && payload[12..32] == sender && payload[32..64] == Word(160)
    ensures payload[64..96] == Word(160 + list) && payload[96..100] == callback
    ensures payload[128..160] == Word(160 + list + data)
  {
    Regroup(LookupHead(sender, urls, callData, callback), ArrayTail(urls), Tail(callData), Tail(extraData));
    FirstHeadWords(sender, urls, callData, callback, ArrayTail(urls) + Tail(callData) + Tail(extraData));
    LastHeadWords(sender, urls, callData, callback, ArrayTail(urls) + Tail(callData) + Tail(extraData));
  }

  lemma ArgumentsDecode(sender: seq<byte>, urls: seq<seq<byte>>, callData: seq<byte>,
                        callback: seq<byte>, extraData: seq<byte>)
    requires |sender| == 20 && |callback| == 4
    requires |LookupArguments(sender, urls, callData, callback, extraData)| < INT64
    ensures DecodePayload(LookupArguments(sender, urls, callData, callback, extraData))
         == Accepted(Lookup("0x" + Hex.Encode(sender), urls, callData, callback, extraData))
  {
    var list, data := |ArrayTail(urls)|, |Tail(callData)|;
    var payload := LookupArguments(sender, urls, callData, callback, extraData);
    HeadWords(sender, urls, callData, callback, extraData, payload, list, data);
    LaidOut(LookupHead(sender, urls, callData, callback), urls, callData, extraData);
    PayloadDecodes(payload, Lookup("0x" + Hex.Encode(sender), urls, callData, callback, extraData),
                   sender, 160, 160 + list, 160 + list + data);
  }

  lemma LaidOut(head: seq<byte>, urls: seq<seq<byte>>, callData: seq<byte>, extraData: seq<byte>)
    ensures var payload := head + ArrayTail(urls) + Tail(callData) + Tail(extraData);
      && HoldsArray(payload, |head|, urls)
      && Holds(payload, |head| + |ArrayTail(urls)|, callData)
      && Holds(payload, |head| + |ArrayTail(urls)| + |Tail(callData)|, extraData)
  {
    Regroup(head, ArrayTail(urls), Tail(callData), Tail(extraData));
    HoldsBetween(head + ArrayTail(urls), callData, Tail(extraData));
    HoldsBetween(head + ArrayTail(urls) + Tail(callData), extraData, []);
  }

  lemma Regroup(head: seq<byte>, list: seq<byte>, data: seq<byte>, extra: seq<byte>)
    ensures head + list + data + extra == head + (list + data + extra)
    ensures head + list + data + extra == head + list + data + extra + []
    ensures Stands(head + list + data + extra, |head|, list)
  {
  }

  /** The standard encoding of an OffchainLookup decodes to its fields, as hexadecimal text
      with the selector in front, exactly when it has one to eight URLs. */
  lemma LookupRoundTrip(sender: seq<byte>, urls: seq<seq<byte>>, callData: seq<byte>,
                        callback: seq<byte>, extraData: seq<byte>)
    requires |sender| == 20 && |callback| == 4
    requires |LookupArguments(sender, urls, callData, callback, extraData)| < INT64
    ensures var arguments := LookupArguments(sender, urls, callData, callback, extraData);
      DecodeOffchainLookup("0x" + Hex.Encode(SELECTOR + arguments))
        == Accepted(Lookup("0x" + Hex.Encode(sender), urls, callData, callback, extraData))
  {
    ArgumentsDecode(sender, urls, callData, callback, extraData);
    SelectorThenPayload(LookupArguments(sender, urls, callData, callback, extraData));
  }

  lemma HexIsTrimmed(data: seq<byte>)
    ensures TrimSpace("0x" + Hex.Encode(data)) == "0x" + Hex.Encode(data)
  {
    HexDigits(data);
    var s := "0x" + Hex.Encode(data);
    assert data != [] ==> s[|s| - 1] == Hex.Encode(data)[|Hex.Encode(data)| - 1];
    TrimSpaceFixed(s);
  }

  lemma {:induction false} HexDigits(data: seq<byte>)
    ensures forall i | 0 <= i < |Hex.Encode(data)| :: !IsSpace(Hex.Encode(data)[i])
  {
    if data != [] { HexDigits(data[1..]); }
  }

  lemma SelectorThenPayload(payload: seq<byte>)
    ensures DecodeOffchainLookup("0x" + Hex.Encode(SELECTOR + payload)) == DecodePayload(payload)
  {
    HexIsTrimmed(SELECTOR + payload);
    var raw := Hex.Encode(SELECTOR + payload);
    assert TrimPrefix("0x" + raw, "0x") == raw;
    Hex.EncodeAppend(SELECTOR, payload);
    assert raw[..8] == Hex.Encode(SELECTOR) && raw[8..] == Hex.Encode(payload);
    Hex.RoundTrip(SELECTOR);
    Hex.RoundTrip(payload);
  }

  // -------------------------------------------- arguments and results of a call

  function LeftPadHex(value: string, width: nat): string {
    var digits := TrimPrefix(value, "0x");
    if |digits| >= width then digits else seq(width - |digits|, _ => '0') + digits
  }

  function RightPadHex(value: string, block: nat): string
    requires block > 0
  {
    if |value| % block != 0 then value + seq(block - |value| % block, _ => '0') else value
  }

  function AbiStringArg(value: seq<byte>): string {
    LeftPadHex("40", 64) + LeftPadHex(Hex.Format(|value|), 64) + RightPadHex(Hex.Encode(value), 64)
  }

  /** The dynamic value that abiStringResult and abiBytesResult look for. */
  function ResultBytes(value: string): Option<seq<byte>> {
    var data := Hex.Decode(TrimPrefix(TrimSpace(value), "0x"));
    if data.None? then None else ResultData(data.value)
  }

  function ResultData(data: seq<byte>): Option<seq<byte>> {
    if |data| < 64 then None
    else
      var offset := WordUint(data[..32]);
      if offset < 0 || offset + 32 > |data| then None
      else
        var length := WordUint(data[offset..offset + 32]);
        if length < 0 || offset + 32 + length > |data| then None
        else Some(data[offset + 32..offset + 32 + length])
  }

  function AbiStringResult(value: string): seq<byte> {
    var found := ResultBytes(value);
    if found.None? then [] else found.value
  }

  function AbiBytesResult(value: string): string {
    var found := ResultBytes(value);
    if found.None? || found.value == [] then "" else "0x" + Hex.Encode(found.value)
  }

  lemma {:induction false} FormatHasNoX(n: nat)
    ensures Hex.Format(n) != "" && 'x' !in Hex.Format(n)
  {
    if n >= 16 { FormatHasNoX(n / 16); }
  }

  function Noughts(n: nat): string { seq(n, _ => '0') }

  lemma LastOctetHex(n: nat, width: nat)
    requires width > 0
    ensures Hex.Encode(Hex.BigEndian(n, width))
         == Hex.Encode(Hex.BigEndian(n / 256, width - 1)) + [Hex.Nibble(n % 256 / 16), Hex.Nibble(n % 16)]
  {
    LowDigit(n);
    EncodeSnoc(Hex.BigEndian(n, width), Hex.BigEndian(n / 256, width - 1), n % 256);
  }

  lemma LowDigit(n: nat)
    ensures n % 256 % 16 == n % 16
  {
  }

  lemma EncodeSnoc(word: seq<byte>, front: seq<byte>, b: nat)
    requires b < 256 && word == front + [b]
    ensures Hex.Encode(word) == Hex.Encode(front) + [Hex.Nibble(b / 16), Hex.Nibble(b % 16)]
  {
    Hex.EncodeAppend(front, [b]);
    assert [b][1..] == [];
  }

  lemma {:induction false} PaddedFormat(n: nat, width: nat)
    requires width > 0 && n < Hex.Pow256(width)
    ensures |Hex.Format(n)| <= 2 * width
    ensures Hex.Encode(Hex.BigEndian(n, width)) == Noughts(2 * width - |Hex.Format(n)|) + Hex.Format(n)
  {
    LastOctetHex(n, width);
    Hex.FormatLength(n, width);
    if n < 256 {
      ZeroWord(width - 1);
      Hex.EncodeZeros(width - 1);
    } else {
      PaddedFormat(n / 256, width - 1);
      Hex.FormatTwoDigits(n);
    }
  }

  lemma {:induction false} ZeroWord(width: nat)
    ensures Hex.BigEndian(0, width) == Hex.Zeros(width)
  {
    if width > 0 { ZeroWord(width - 1); }
  }

  lemma PaddedWord(n: nat)
    requires n < INT64
    ensures LeftPadHex(Hex.Format(n), 64) == Hex.Encode(Word(n))
  {
    Small(n);
    PaddedTo(n, 32);
  }

  lemma PaddedTo(n: nat, width: nat)
    requires width > 0 && n < Hex.Pow256(width)
    ensures LeftPadHex(Hex.Format(n), 2 * width) == Hex.Encode(Hex.BigEndian(n, width))
  {
    FormatHasNoX(n);
    PaddedFormat(n, width);
  }

  /** The argument text is the standard encoding of the second, dynamic argument
      of text(bytes32, string). */
  lemma StringArgIsStandard(value: seq<byte>)
    requires |value| < INT64
    ensures AbiStringArg(value) == Hex.Encode(Word(64) + Tail(value))
  {
    HeadOfArg();
    PaddedWord(|value|);
    PaddedValue(value);
    EncodeFour(Word(64), Word(|value|), value, Hex.Zeros(PaddedLength(|value|) - |value|));
  }

  lemma HeadOfArg()
    ensures LeftPadHex("40", 64) == Hex.Encode(Word(64))
  {
    PaddedWord(64);
    assert Hex.Format(64) == Hex.Format(4) + "0" == "40";
  }

  lemma EncodeFour(a: seq<byte>, b: seq<byte>, c: seq<byte>, d: seq<byte>)
    ensures Hex.Encode(a + (b + c + d)) == Hex.Encode(a) + Hex.Encode(b) + (Hex.Encode(c) + Hex.Encode(d))
  {
    Hex.EncodeAppend(a, b + c + d);
    Hex.EncodeAppend(b + c, d);
    Hex.EncodeAppend(b, c);
    RegroupFour(Hex.Encode(a), Hex.Encode(b), Hex.Encode(c), Hex.Encode(d));
  }

  lemma RegroupFour(a: string, b: string, c: string, d: string)
    ensures a + (b + c + d) == a + b + (c + d)
  {
  }

  lemma RestOf(a: nat, q: nat, r: nat)
    requires a == 64 * q + r && r < 64
    ensures a % 64 == r
  {
  }

  lemma RoundedUp(n: nat, q: nat, r: nat)
    requires n == 32 * q + r && r < 32
    ensures PaddedLength(n) - n == if r == 0 then 0 else 32 - r
  {
    assert (n + 31) / 32 == if r == 0 then q else q + 1;
  }

  lemma DoubledRest(n: nat)
    ensures 2 * n % 64 == 2 * (n % 32)
    ensures PaddedLength(n) - n == if n % 32 == 0 then 0 else 32 - n % 32
  {
    RestOf(2 * n, n / 32, 2 * (n % 32));
    RoundedUp(n, n / 32, n % 32);
  }

  lemma PaddedValue(value: seq<byte>)
    ensures RightPadHex(Hex.Encode(value), 64)
         == Hex.Encode(value) + Hex.Encode(Hex.Zeros(PaddedLength(|value|) - |value|))
  {
    DoubledRest(|value|);
    Hex.EncodeZeros(PaddedLength(|value|) - |value|);
  }

  /** A contract's answer in the standard encoding is read back, unless its length
      does not fit in 31 bits. */
  lemma ResultRoundTrip(value: seq<byte>)
    requires |Tail(value)| < INT64 - 64
    ensures ResultBytes("0x" + Hex.Encode(Word(32) + Tail(value)))
         == if |value| <= MAX_INT32 then Some(value) else None
  {
    var data := Word(32) + Tail(value);
    HexIsTrimmed(data);
    assert TrimPrefix("0x" + Hex.Encode(data), "0x") == Hex.Encode(data);
    Hex.RoundTrip(data);
    DataRoundTrip(value);
  }

  lemma DataRoundTrip(value: seq<byte>)
    requires |Tail(value)| < INT64 - 64
    ensures ResultData(Word(32) + Tail(value)) == if |value| <= MAX_INT32 then Some(value) else None
  {
    var data := Word(32) + Tail(value);
    TailParts(value);
    assert data[..32] == Word(32) && data[32..64] == Tail(value)[0..32];
    assert data[64..64 + |value|] == Tail(value)[32..32 + |value|];
    OffsetOfWord(32, MAX_INT32);
    OffsetOfWord(|value|, MAX_INT32);
  }

  lemma ResultsRoundTrip(value: seq<byte>)
    requires |value| <= MAX_INT32
    ensures var text := "0x" + Hex.Encode(Word(32) + Tail(value));
      && AbiStringResult(text) == value
      && AbiBytesResult(text) == if value == [] then "" else "0x" + Hex.Encode(value)
  {
    ResultRoundTrip(value);
  }
}
