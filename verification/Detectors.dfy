// The sliding-window detectors of internal/security/analyzer.go: trackWindowCount,
// which compacts a slice in place, and trackRandomSubdomain, which purges a map.

module Detectors {
  import opened Outcomes
  import opened Text

  // ------------------------------------------------------------ the counter

  /** The times after the cutoff, in order. */
  function After(times: seq<int>, cutoff: int): seq<int> {
    if times == [] then []
    else
      var front, last := After(times[..|times| - 1], cutoff), times[|times| - 1];
      if last > cutoff then front + [last] else front
  }

  /** What one tracked call at `now` leaves of the times on record. */
  function Tracked(times: seq<int>, now: int, window: int): seq<int> { After(times, now - window) + [now] }

  /** A slice: an array and how much of it is in use. */
  datatype Slice = Slice(data: array<int>, len: nat)

  class WindowStore {
    var slices: map<string, Slice>
    /** The key each array belongs to: no two keys share one. */
    ghost var owner: map<array<int>, string>

    ghost predicate Owned(k: string)
      requires k in slices
      reads this
    {
      && slices[k].len <= slices[k].data.Length
      && slices[k].data in owner && owner[slices[k].data] == k
    }

    ghost predicate Valid()
      reads this
    {
      forall k {:trigger Owned(k)} | k in slices :: Owned(k)
    }

    ghost function Arrays(): set<object>
      reads this
    {
      set k | k in slices :: slices[k].data
    }

    ghost function Content(k: string): seq<int>
      requires Valid()
      reads this, Arrays()
    {
      if k in slices then assert Owned(k); slices[k].data[..slices[k].len] else []
    }

    constructor ()
      ensures Valid() && slices == map[]
    {
      slices := map[];
      owner := map[];
    }

    /** Whether `threshold` calls for the key fall into the window that ends now; the
        records of the other keys stay as they are. */
    method TrackWindowCount(key: string, window: int, threshold: int, now: int) returns (hit: bool)
      requires Valid()
      modifies this, Arrays()
      ensures Valid() && fresh(Arrays() - old(Arrays()))
      ensures threshold <= 0 || window <= 0 ==> !hit && slices == old(slices)
      ensures forall k | k != key || threshold <= 0 || window <= 0 :: Content(k) == old(Content(k))
      ensures threshold > 0 && window > 0 ==>
        && slices.Keys == old(slices).Keys + {key}
        && Content(key) == Tracked(old(Content(key)), now, window)
        && hit == (|Tracked(old(Content(key)), now, window)| >= threshold)
    {
      if threshold <= 0 || window <= 0 {
        return false;
      }
      var kept := Track(key, window, now);
      hit := kept >= threshold;
    }

    method Track(key: string, window: int, now: int) returns (count: nat)
      requires Valid()
      modifies this, Arrays()
      ensures Valid() && fresh(Arrays() - old(Arrays()))
      ensures slices.Keys == old(slices).Keys + {key}
      ensures forall k | k != key :: Content(k) == old(Content(k))
      ensures Content(key) == Tracked(old(Content(key)), now, window)
      ensures count == |Content(key)|
    {
      var values := Lookup(key);
      var kept := CompactAndAppend(values.data, values.len, now - window, now);
      Store(key, kept);
      count := kept.len;
    }

    /** store[key] = kept, into the key's own array or one that no key has. */
    method Store(key: string, kept: Slice)
      requires Valid() && kept.len <= kept.data.Length
      requires forall k | k in slices && k != key :: slices[k].data != kept.data
      modifies this
      ensures Valid() && slices == old(slices)[key := kept]
    {
      assert forall k | k in slices :: Owned(k);
      slices := slices[key := kept];
      owner := owner[kept.data := key];
      assert forall k | k in slices :: Owned(k);
    }

    /** The slice of the key; a missing key has an empty one. */
    method Lookup(key: string) returns (values: Slice)
      requires Valid()
      ensures values.len <= values.data.Length
      ensures key in slices ==> values == slices[key]
      ensures key !in slices ==> values.len == 0 && fresh(values.data)
      ensures values.data[..values.len] == Content(key)
      ensures forall k | k in slices && k != key :: Owned(k) && slices[k].data != values.data
    {
      assert forall k | k in slices :: Owned(k);
      if key in slices {
        return slices[key];
      }
      var none := new int[0];
      values := Slice(none, 0);
    }
  }

  lemma AfterOne(times: seq<int>, i: nat, cutoff: int)
    requires i < |times|
    ensures After(times[..i + 1], cutoff)
         == After(times[..i], cutoff) + if times[i] > cutoff then [times[i]] else []
  {
    assert times[..i + 1][..i] == times[..i];
  }

  /** The loop writes the kept values to the front of the same array; the last one goes
      behind them, in place while there is room and else in a larger copy. */
  method CompactAndAppend(data: array<int>, len: nat, cutoff: int, now: int) returns (r: Slice)
    requires len <= data.Length
    modifies data
    ensures r.data == data || fresh(r.data)
    ensures r.len <= r.data.Length
    ensures r.data[..r.len] == After(old(data[..len]), cutoff) + [now]
  {
    ghost var was := data[..len];
    var kept := 0;
    for i := 0 to len
      invariant kept <= i
      invariant data[..kept] == After(was[..i], cutoff)
      invariant forall k | i <= k < len :: data[k] == was[k]
    {
      AfterOne(was, i, cutoff);
      if data[i] > cutoff {
        data[kept] := data[i];
        kept := kept + 1;
      }
    }
    assert was[..len] == was;
    var target := data;
    if kept == data.Length {
      target := new int[2 * kept + 1];
      forall i | 0 <= i < kept { target[i] := data[i]; }
    }
    target[kept] := now;
    r := Slice(target, kept + 1);
  }

  // ---------------------------------------------- the counter over a whole run

  datatype Call = Call(key: string, now: int)

  ghost predicate Nondecreasing(times: seq<int>) {
    forall i, j | 0 <= i < j < |times| :: times[i] <= times[j]
  }

  function Times(calls: seq<Call>): seq<int> { seq(|calls|, i requires 0 <= i < |calls| => calls[i].now) }

  /** The record after a run of calls from the empty store. */
  function Record(calls: seq<Call>, window: int): map<string, seq<int>> {
    if calls == [] then map[]
    else
      var before, call := Record(calls[..|calls| - 1], window), calls[|calls| - 1];
      before[call.key := Tracked(if call.key in before then before[call.key] else [], call.now, window)]
  }

  /** All the times at which the key was tracked. */
  function History(calls: seq<Call>, key: string): seq<int> {
    if calls == [] then []
    else
      var front, call := History(calls[..|calls| - 1], key), calls[|calls| - 1];
      if call.key == key then front + [call.now] else front
  }

  lemma {:induction false} AfterAppend(a: seq<int>, b: seq<int>, cutoff: int)
    ensures After(a + b, cutoff) == After(a, cutoff) + After(b, cutoff)
  {
    if b == [] {
      assert a + b == a;
    } else {
      assert (a + b)[..|a + b| - 1] == a + b[..|b| - 1];
      AfterAppend(a, b[..|b| - 1], cutoff);
    }
  }

  /** A later cutoff undoes an earlier one. */
  lemma {:induction false} AfterAfter(times: seq<int>, early: int, late: int)
    requires early <= late
    ensures After(After(times, early), late) == After(times, late)
  {
    if times != [] {
      var n := |times| - 1;
      AfterAfter(times[..n], early, late);
      var last := if times[n] > early then [times[n]] else [];
      AfterAppend(After(times[..n], early), last, late);
      assert After(last, late) == if times[n] > late then [times[n]] else [];
    }
  }

  lemma {:induction false} HistoryTimes(calls: seq<Call>, key: string)
    requires Nondecreasing(Times(calls))
    ensures Nondecreasing(History(calls, key))
    ensures forall t | t in History(calls, key) :: calls != [] && t <= calls[|calls| - 1].now
  {
    if calls != [] {
      var front := calls[..|calls| - 1];
      FrontTimes(calls);
      HistoryTimes(front, key);
      assert front != [] ==> Times(calls)[|front| - 1] <= Times(calls)[|front|];
      var h := History(front, key);
      forall i | 0 <= i < |h| ensures h[i] <= calls[|calls| - 1].now { assert h[i] in h; }
    }
  }

  /** The window of a history before its last call. */
  function LastWindow(times: seq<int>, window: int): seq<int> {
    if times == [] then [] else After(times, times[|times| - 1] - window)
  }

  lemma AfterSnoc(times: seq<int>, now: int, cutoff: int)
    requires now > cutoff
    ensures After(times + [now], cutoff) == After(times, cutoff) + [now]
  {
    assert (times + [now])[..|times|] == times;
  }

  lemma LastOfSnoc(times: seq<int>, now: int)
    ensures times + [now] != [] && (times + [now])[|times + [now]| - 1] == now
  {
  }

  lemma NextWindow(times: seq<int>, now: int, window: int)
    requires window > 0 && (times != [] ==> times[|times| - 1] <= now)
    ensures Tracked(LastWindow(times, window), now, window) == LastWindow(times + [now], window)
  {
    AfterSnoc(times, now, now - window);
    LastOfSnoc(times, now);
    if times != [] {
      AfterAfter(times, times[|times| - 1] - window, now - window);
    }
  }

  lemma FrontTimes(calls: seq<Call>)
    requires calls != [] && Nondecreasing(Times(calls))
    ensures Nondecreasing(Times(calls[..|calls| - 1]))
  {
    var front := calls[..|calls| - 1];
    assert forall i | 0 <= i < |front| :: Times(front)[i] == Times(calls)[i];
  }

  /** The store keeps for each key exactly the calls of its full history that lie in the
      window before its last call. */
  lemma {:induction false} RecordIsWindow(calls: seq<Call>, window: int, key: string)
    requires window > 0 && Nondecreasing(Times(calls))
    ensures key in Record(calls, window) <==> History(calls, key) != []
    ensures key in Record(calls, window) ==>
      Record(calls, window)[key] == LastWindow(History(calls, key), window)
  {
    if calls != [] {
      var front, call := calls[..|calls| - 1], calls[|calls| - 1];
      FrontTimes(calls);
      RecordIsWindow(front, window, key);
      if call.key == key {
        var h := History(front, key);
        HistoryTimes(calls, key);
        assert History(calls, key) == h + [call.now];
        NextWindow(h, call.now, window);
      }
    }
  }

  /** So the verdict of a call is the verdict on the whole history. */
  lemma VerdictIsHistorical(calls: seq<Call>, call: Call, window: int)
    requires window > 0 && Nondecreasing(Times(calls + [call]))
    ensures var before := Record(calls, window);
      Tracked(if call.key in before then before[call.key] else [], call.now, window)
        == After(History(calls + [call], call.key), call.now - window)
  {
    var all := calls + [call];
    RecordIsWindow(all, window, call.key);
    assert all[..|all| - 1] == calls;
  }

  ghost predicate IsSuffix(times: seq<int>, cutoff: int, k: nat) {
    && k <= |times| && After(times, cutoff) == times[k..]
    && forall i | 0 <= i < |times| :: times[i] > cutoff <==> i >= k
  }

  lemma SuffixGrows(front: seq<int>, last: int, cutoff: int, k: nat)
    requires IsSuffix(front, cutoff, k) && forall i | 0 <= i < |front| :: front[i] <= last
    ensures IsSuffix(front + [last], cutoff, if last > cutoff then k else |front| + 1)
  {
    var times := front + [last];
    assert times[..|front|] == front;
    if last > cutoff {
      assert times[k..] == front[k..] + [last];
    }
  }

  lemma FrontInOrder(times: seq<int>)
    requires times != [] && Nondecreasing(times)
    ensures var n := |times| - 1;
      && Nondecreasing(times[..n]) && times == times[..n] + [times[n]]
      && forall i | 0 <= i < n :: times[..n][i] <= times[n]
  {
  }

  /** In a history in time order the window is a suffix. */
  lemma {:induction false} WindowIsSuffix(times: seq<int>, cutoff: int) returns (k: nat)
    requires Nondecreasing(times)
    ensures IsSuffix(times, cutoff, k)
  {
    if times == [] {
      k := 0;
    } else {
      var front, last := times[..|times| - 1], times[|times| - 1];
      FrontInOrder(times);
      k := WindowIsSuffix(front, cutoff);
      SuffixGrows(front, last, cutoff, k);
      k := if last > cutoff then k else |front| + 1;
    }
  }

  // ------------------------------------------------------ distinct subdomains

  /** The parts of a name with at least three labels: its last two, and those before. */
  datatype Parts = Parts(base: string, subdomain: string)

  function PartsOf(qname: string): Option<Parts> {
    var labels := Split(TrimSuffix(qname, "."), '.');
    if |labels| < 3 then None
    else Some(Parts(Join(labels[|labels| - 2..], "."), Join(labels[..|labels| - 2], ".")))
  }

  function ClientKey(clientIp: string): string { if clientIp == "" then "unknown" else clientIp }

  function SubdomainKey(clientIp: string, base: string): string { ClientKey(clientIp) + "|" + base }

  /** One client and base behind a bar extends the other: the same text, cut elsewhere. */
  ghost predicate CutLater(client1: string, base1: string, client2: string, base2: string) {
    exists x: string {:trigger x + "|" + base1} :: client1 == client2 + "|" + x && base2 == x + "|" + base1
  }

  lemma LongerClient(client1: string, base1: string, client2: string, base2: string)
    requires |client1| > |client2| && client1 + "|" + base1 == client2 + "|" + base2
    ensures CutLater(client1, base1, client2, base2)
  {
    var key, x := client1 + "|" + base1, client1[|client2| + 1..];
    assert key[..|client1|] == client1 && key[..|client2|] == client2 && key[|client2|] == '|';
    assert client1 == client2 + "|" + x;
    assert key[|client2| + 1..] == base2 && key[|client2| + 1..] == x + "|" + base1;
  }

  lemma EqualClients(client1: string, base1: string, client2: string, base2: string)
    requires |client1| == |client2| && client1 + "|" + base1 == client2 + "|" + base2
    ensures client1 == client2 && base1 == base2
  {
    var key := client1 + "|" + base1;
    assert key[..|client1|] == client1 && key[..|client1|] == client2;
    assert key[|client1| + 1..] == base1 && key[|client1| + 1..] == base2;
  }

  lemma CutLaterIsSame(client1: string, base1: string, client2: string, base2: string)
    requires CutLater(client1, base1, client2, base2)
    ensures client1 + "|" + base1 == client2 + "|" + base2
  {
    var x: string :| client1 == client2 + "|" + x && base2 == x + "|" + base1;
    assert client2 + "|" + x + "|" + base1 == client2 + "|" + (x + "|" + base1);
  }

  /** Keys are joined without escaping.  Two of them are equal exactly when client and base
      are, or when a bar inside one client makes it a longer cut of the same text. */
  lemma KeysCollideIff(client1: string, base1: string, client2: string, base2: string)
    ensures SubdomainKey(client1, base1) == SubdomainKey(client2, base2) <==>
      || (ClientKey(client1) == ClientKey(client2) && base1 == base2)
      || CutLater(ClientKey(client1), base1, ClientKey(client2), base2)
      || CutLater(ClientKey(client2), base2, ClientKey(client1), base1)
  {
    var c1, c2 := ClientKey(client1), ClientKey(client2);
    if SubdomainKey(client1, base1) == SubdomainKey(client2, base2) {
      if |c1| > |c2| {
        LongerClient(c1, base1, c2, base2);
      } else if |c2| > |c1| {
        LongerClient(c2, base2, c1, base1);
      } else {
        EqualClients(c1, base1, c2, base2);
      }
    } else {
      if CutLater(c1, base1, c2, base2) { CutLaterIsSame(c1, base1, c2, base2); }
      if CutLater(c2, base2, c1, base1) { CutLaterIsSame(c2, base2, c1, base1); }
    }
  }

  /** So only a client with a bar can be the longer cut ... */
  lemma CutHasBar(client1: string, base1: string, client2: string, base2: string)
    requires CutLater(client1, base1, client2, base2)
    ensures '|' in client1
  {
    var x: string :| client1 == client2 + "|" + x && base2 == x + "|" + base1;
    assert client1[|client2|] == '|';
  }

  /** ... and every bar inside a client lets some key collide. */
  lemma BarCollides(client: string, base: string, i: nat) returns (other: string, otherBase: string)
    requires 0 < i < |client| && client[i] == '|'
    ensures other != client && SubdomainKey(client, base) == SubdomainKey(other, otherBase)
  {
    var x := client[i + 1..];
    other, otherBase := client[..i], x + "|" + base;
    assert client == other + "|" + x;
    CutLaterIsSame(client, base, other, otherBase);
  }

  function Purged(seen: map<string, int>, cutoff: int): map<string, int> {
    map name | name in seen && seen[name] > cutoff :: seen[name]
  }

  function Seen(seen: map<string, int>, subdomain: string, now: int, window: int): map<string, int> {
    Purged(seen, now - window)[subdomain := now]
  }

  /** One tracked query: the map of its key is purged and gets the subdomain. */
  function Noted(seen: map<string, map<string, int>>, clientIp: string, parts: Parts, window: int, now: int)
    : map<string, map<string, int>>
  {
    var key := SubdomainKey(clientIp, parts.base);
    seen[key := Seen(NamesAt(seen, key), parts.subdomain, now, window)]
  }

  function NamesAt(seen: map<string, map<string, int>>, key: string): map<string, int> {
    if key in seen then seen[key] else map[]
  }

  class SubdomainStore {
    var seen: map<string, map<string, int>>

    constructor ()
      ensures seen == map[]
    {
      seen := map[];
    }

    /** Names are visited, and deleted when too old, in any order. */
    method Purge(names: map<string, int>, cutoff: int) returns (kept: map<string, int>)
      ensures kept == Purged(names, cutoff)
    {
      kept := names;
      var todo := names.Keys;
      while todo != {}
        invariant todo <= names.Keys
        invariant kept == map name | name in names && (name in todo || names[name] > cutoff) :: names[name]
      {
        var name :| name in todo;
        if kept[name] <= cutoff {
          kept := kept - {name};
        }
        todo := todo - {name};
      }
    }

    method TrackRandomSubdomain(clientIp: string, qname: string, window: int, threshold: int, now: int)
      returns (hit: bool)
      modifies this
      ensures
        if threshold <= 0 || window <= 0 || PartsOf(qname).None? then !hit && seen == old(seen)
        else
          var parts := PartsOf(qname).value;
          && seen == Noted(old(seen), clientIp, parts, window, now)
          && hit == (|NamesAt(seen, SubdomainKey(clientIp, parts.base))| >= threshold)
    {
      if threshold <= 0 || window <= 0 {
        return false;
      }
      var labels := Split(TrimSuffix(qname, "."), '.');
      if |labels| < 3 {
        return false;
      }
      var base := Join(labels[|labels| - 2..], ".");
      var subdomain := Join(labels[..|labels| - 2], ".");
      var key := SubdomainKey(clientIp, base);
      var names := Purge(if key in seen then seen[key] else map[], now - window);
      names := names[subdomain := now];
      seen := seen[key := names];
      hit := |names| >= threshold;
    }
  }

  // ------------------------------------- distinct subdomains over a whole run

  datatype Query = Query(clientIp: string, base: string, subdomain: string, now: int)

  function QueryTimes(queries: seq<Query>): seq<int> {
    seq(|queries|, i requires 0 <= i < |queries| => queries[i].now)
  }

  function KeyOf(q: Query): string { SubdomainKey(q.clientIp, q.base) }

  function SeenAfter(queries: seq<Query>, window: int): map<string, map<string, int>> {
    if queries == [] then map[]
    else
      var before, q := SeenAfter(queries[..|queries| - 1], window), queries[|queries| - 1];
      Noted(before, q.clientIp, Parts(q.base, q.subdomain), window, q.now)
  }

  /** The distinct subdomains queried under the key after the cutoff, in the full history. */
  function Distinct(queries: seq<Query>, key: string, cutoff: int): set<string> {
    set i | 0 <= i < |queries| && KeyOf(queries[i]) == key && queries[i].now > cutoff :: queries[i].subdomain
  }

  /** The names on record under the key, as of a cutoff, and the times they carry. */
  ghost predicate Agrees(queries: seq<Query>, key: string, names: map<string, int>, cutoff: int) {
    && (forall s | s in names :: exists i | 0 <= i < |queries| ::
          KeyOf(queries[i]) == key && queries[i].subdomain == s && queries[i].now == names[s])
    && (forall i {:trigger queries[i]} | 0 <= i < |queries| && KeyOf(queries[i]) == key && queries[i].now > cutoff ::
          queries[i].subdomain in names && names[queries[i].subdomain] >= queries[i].now)
  }

  lemma AgreesAfterQuery(queries: seq<Query>, q: Query, names: map<string, int>, cutoff: int, window: int)
    requires window > 0 && cutoff <= q.now - window
    requires forall i {:trigger queries[i]} | 0 <= i < |queries| :: queries[i].now <= q.now
    requires Agrees(queries, KeyOf(q), names, cutoff)
    ensures Agrees(queries + [q], KeyOf(q), Seen(names, q.subdomain, q.now, window), q.now - window)
  {
    var all, next := queries + [q], Seen(names, q.subdomain, q.now, window);
    forall s | s in next
      ensures exists i | 0 <= i < |all| ::
        KeyOf(all[i]) == KeyOf(q) && all[i].subdomain == s && all[i].now == next[s]
    {
      if s == q.subdomain {
        assert all[|queries|] == q;
      } else {
        var i :| 0 <= i < |queries| && KeyOf(queries[i]) == KeyOf(q) && queries[i].subdomain == s
              && queries[i].now == names[s];
        assert all[i] == queries[i];
      }
    }
    forall i | 0 <= i < |all| && KeyOf(all[i]) == KeyOf(q) && all[i].now > q.now - window
      ensures all[i].subdomain in next && next[all[i].subdomain] >= all[i].now
    {
      if i < |queries| { assert all[i] == queries[i]; }
    }
  }

  /** The time of the last query under the key, minus the window. */
  function LastCutoff(queries: seq<Query>, key: string, window: int): int
    requires queries != []
  {
    var n := |queries| - 1;
    if KeyOf(queries[n]) == key || n == 0 then queries[n].now - window
    else LastCutoff(queries[..n], key, window)
  }

  lemma SeenSnoc(front: seq<Query>, q: Query, window: int)
    ensures var before := SeenAfter(front, window);
      SeenAfter(front + [q], window)
        == before[KeyOf(q) := Seen(NamesAt(before, KeyOf(q)), q.subdomain, q.now, window)]
  {
    assert (front + [q])[..|front|] == front;
  }

  lemma CutoffSnoc(front: seq<Query>, q: Query, key: string, window: int)
    ensures LastCutoff(front + [q], key, window)
         == if KeyOf(q) == key || front == [] then q.now - window else LastCutoff(front, key, window)
  {
    assert (front + [q])[..|front|] == front;
  }

  ghost predicate SeenIsRight(queries: seq<Query>, key: string, window: int)
    requires queries != []
  {
    && LastCutoff(queries, key, window) <= queries[|queries| - 1].now - window
    && Agrees(queries, key, NamesAt(SeenAfter(queries, window), key), LastCutoff(queries, key, window))
  }

  lemma FirstSeen(q: Query, key: string, window: int)
    requires window > 0
    ensures SeenIsRight([q], key, window)
  {
    assert [] + [q] == [q];
    SeenSnoc([], q, window);
    CutoffSnoc([], q, key, window);
    assert SeenAfter([], window) == map[];
    if KeyOf(q) == key {
      AgreesAfterQuery([], q, map[], q.now - window, window);
    } else {
      AgreesBesides([], q, key, map[], q.now - window);
    }
  }

  lemma NextSeen(front: seq<Query>, q: Query, key: string, window: int)
    requires window > 0 && front != [] && SeenIsRight(front, key, window)
    requires forall i {:trigger front[i]} | 0 <= i < |front| :: front[i].now <= q.now
    ensures SeenIsRight(front + [q], key, window)
  {
    var names, cutoff := NamesAt(SeenAfter(front, window), key), LastCutoff(front, key, window);
    assert front[|front| - 1].now <= q.now;
    SeenSnoc(front, q, window);
    CutoffSnoc(front, q, key, window);
    if KeyOf(q) == key {
      AgreesAfterQuery(front, q, names, cutoff, window);
    } else {
      AgreesBesides(front, q, key, names, cutoff);
    }
  }

  lemma FrontQueries(queries: seq<Query>)
    requires queries != [] && Nondecreasing(QueryTimes(queries))
    ensures var n := |queries| - 1;
      && Nondecreasing(QueryTimes(queries[..n])) && queries == queries[..n] + [queries[n]]
      && forall i {:trigger queries[..n][i]} | 0 <= i < n :: queries[..n][i].now <= queries[n].now
  {
    var n := |queries| - 1;
    assert QueryTimes(queries[..n]) == QueryTimes(queries)[..n];
    forall i | 0 <= i < n ensures queries[..n][i].now <= queries[n].now {
      assert QueryTimes(queries)[i] <= QueryTimes(queries)[n];
    }
  }

  lemma {:induction false} SeenAgrees(queries: seq<Query>, key: string, window: int)
    requires window > 0 && queries != [] && Nondecreasing(QueryTimes(queries))
    ensures SeenIsRight(queries, key, window)
  {
    var n := |queries| - 1;
    var front, q := queries[..n], queries[n];
    FrontQueries(queries);
    if front == [] {
      FirstSeen(q, key, window);
      assert [] + [q] == [q];
    } else {
      SeenAgrees(front, key, window);
      NextSeen(front, q, key, window);
    }
  }

  lemma AgreesBesides(queries: seq<Query>, q: Query, key: string, names: map<string, int>, cutoff: int)
    requires Agrees(queries, key, names, cutoff) && KeyOf(q) != key
    ensures Agrees(queries + [q], key, names, cutoff)
  {
    var all := queries + [q];
    forall s | s in names
      ensures exists i | 0 <= i < |all| ::
        KeyOf(all[i]) == key && all[i].subdomain == s && all[i].now == names[s]
    {
      var i :| 0 <= i < |queries| && KeyOf(queries[i]) == key && queries[i].subdomain == s
            && queries[i].now == names[s];
      assert all[i] == queries[i];
    }
    forall i | 0 <= i < |all| && KeyOf(all[i]) == key && all[i].now > cutoff
      ensures all[i].subdomain in names && names[all[i].subdomain] >= all[i].now
    {
      if i < |queries| { assert all[i] == queries[i]; }
    }
  }

  /** A query's verdict counts the distinct subdomains of the full history, with the
      query itself, that lie strictly inside the window. */
  lemma SubdomainVerdictIsHistorical(queries: seq<Query>, q: Query, window: int)
    requires window > 0 && Nondecreasing(QueryTimes(queries + [q]))
    ensures var next := Seen(NamesAt(SeenAfter(queries, window), KeyOf(q)), q.subdomain, q.now, window);
      && next.Keys == Distinct(queries + [q], KeyOf(q), q.now - window)
      && |next| == |Distinct(queries + [q], KeyOf(q), q.now - window)|
  {
    var all, names := queries + [q], NamesAt(SeenAfter(queries, window), KeyOf(q));
    var next, cutoff := Seen(names, q.subdomain, q.now, window), q.now - window;
    assert all[..|queries|] == queries;
    SeenAgrees(all, KeyOf(q), window);
    assert SeenAfter(all, window)[KeyOf(q)] == next;
    NamesAreDistinct(all, KeyOf(q), next, cutoff);
  }

  lemma NamesAreDistinct(queries: seq<Query>, key: string, names: map<string, int>, cutoff: int)
    requires Agrees(queries, key, names, cutoff) && forall s | s in names :: names[s] > cutoff
    ensures names.Keys == Distinct(queries, key, cutoff)
  {
    forall s ensures s in names <==> s in Distinct(queries, key, cutoff) {
      if s in names {
        var i :| 0 <= i < |queries| && KeyOf(queries[i]) == key && queries[i].subdomain == s
              && queries[i].now == names[s];
        assert queries[i].now > cutoff;
      }
    }
  }

  /** The queries that a key counts. */
  ghost predicate Counted(q: Query, client: string, base: string) {
    || (ClientKey(q.clientIp) == ClientKey(client) && q.base == base)
    || CutLater(ClientKey(q.clientIp), q.base, ClientKey(client), base)
    || CutLater(ClientKey(client), base, ClientKey(q.clientIp), q.base)
  }

  /** The count for a client and a base takes in exactly their own queries and those
      whose keys collide with theirs; ... */
  lemma DistinctCounts(queries: seq<Query>, client: string, base: string, cutoff: int)
    ensures Distinct(queries, SubdomainKey(client, base), cutoff)
         == set i | 0 <= i < |queries| && Counted(queries[i], client, base) && queries[i].now > cutoff
              :: queries[i].subdomain
  {
    forall i | 0 <= i < |queries|
      ensures KeyOf(queries[i]) == SubdomainKey(client, base) <==> Counted(queries[i], client, base)
    {
      KeysCollideIff(queries[i].clientIp, queries[i].base, client, base);
    }
  }

  /** ... without bars in the clients this is the count of their own queries. */
  lemma DistinctPerClient(queries: seq<Query>, client: string, base: string, cutoff: int)
    requires '|' !in client && forall q | q in queries :: '|' !in q.clientIp
    ensures Distinct(queries, SubdomainKey(client, base), cutoff)
         == set i | 0 <= i < |queries| && ClientKey(queries[i].clientIp) == ClientKey(client)
                    && queries[i].base == base && queries[i].now > cutoff :: queries[i].subdomain
  {
    DistinctCounts(queries, client, base, cutoff);
    forall i | 0 <= i < |queries|
      ensures Counted(queries[i], client, base)
          <==> ClientKey(queries[i].clientIp) == ClientKey(client) && queries[i].base == base
    {
      var q := queries[i];
      assert q in queries;
      if CutLater(ClientKey(q.clientIp), q.base, ClientKey(client), base) {
        CutHasBar(ClientKey(q.clientIp), q.base, ClientKey(client), base);
      }
      if CutLater(ClientKey(client), base, ClientKey(q.clientIp), q.base) {
        CutHasBar(ClientKey(client), base, ClientKey(q.clientIp), q.base);
      }
    }
  }
}
