// The DNS event log (internal/dnslog/dnslog.go): a bounded buffer with a JSON
// lines file behind it, filtered listings and cursor pagination.

module EventLog {
  import opened Outcomes
  import opened BoundedLog
  import Text
  import Numbers

  /** EventFilter: the field tests are one predicate, the order is kept apart. */
  datatype Filter<!E> = Filter(matches: E -> bool, order: string)

  datatype Page<+E> = Page(events: seq<E>, nextCursor: string)

  // --------------------------------------------------------------- the listing

  function Filtered<E>(events: seq<E>, matches: E -> bool): seq<E> {
    if events == [] then []
    else if matches(events[0]) then [events[0]] + Filtered(events[1..], matches)
    else Filtered(events[1..], matches)
  }

  function Reversed<E>(s: seq<E>): (r: seq<E>)
    ensures |r| == |s|
    ensures forall i | 0 <= i < |s| :: r[i] == s[|s| - 1 - i]
  {
    seq(|s|, i requires 0 <= i < |s| => s[|s| - 1 - i])
  }

  function Ordered<E>(events: seq<E>, filter: Filter<E>): seq<E> {
    var kept := Filtered(events, filter.matches);
    if filter.order == "desc" then Reversed(kept) else kept
  }

  function Listing<E>(events: seq<E>, filter: Filter<E>, limit: int): seq<E> {
    var ordered := Ordered(events, filter);
    var count := if limit <= 0 || limit > |ordered| then |ordered| else limit;
    if filter.order == "" then ordered[|ordered| - count..] else ordered[..count]
  }

  lemma {:induction false} FilteredAppend<E>(events: seq<E>, more: seq<E>, matches: E -> bool)
    ensures Filtered(events + more, matches) == Filtered(events, matches) + Filtered(more, matches)
  {
    if events == [] {
      assert events + more == more;
    } else {
      assert (events + more)[1..] == events[1..] + more;
      FilteredAppend(events[1..], more, matches);
    }
  }

  /** A listing holds every matching event as often as the buffer does, and no other. */
  lemma {:induction false} OrderedCounts<E>(events: seq<E>, filter: Filter<E>, e: E)
    ensures multiset(Ordered(events, filter))[e]
         == if filter.matches(e) then multiset(events)[e] else 0
  {
    FilteredCounts(events, filter.matches, e);
    ReversedCounts(Filtered(events, filter.matches), e);
  }

  lemma {:induction false} FilteredCounts<E>(events: seq<E>, matches: E -> bool, e: E)
    ensures multiset(Filtered(events, matches))[e] == if matches(e) then multiset(events)[e] else 0
  {
    if events != [] {
      FilteredCounts(events[1..], matches, e);
      assert events == [events[0]] + events[1..];
    }
  }

  lemma {:induction false} ReversedCounts<E>(s: seq<E>, e: E)
    ensures multiset(Reversed(s))[e] == multiset(s)[e]
  {
    if s != [] {
      ReversedCounts(s[1..], e);
      assert Reversed(s) == Reversed(s[1..]) + [s[0]];
      assert s == [s[0]] + s[1..];
    }
  }

  /** The default listing shows the newest events oldest first: it is the
      newest-first listing with the same limit, read backwards. */
  lemma TailIsReversedDescending<E>(events: seq<E>, matches: E -> bool, limit: int)
    ensures Listing(events, Filter(matches, ""), limit)
         == Reversed(Listing(events, Filter(matches, "desc"), limit))
  {
    var kept := Filtered(events, matches);
    var count := if limit <= 0 || limit > |kept| then |kept| else limit;
    ReversedPrefix(kept, count);
  }

  lemma ReversedPrefix<E>(s: seq<E>, count: nat)
    requires count <= |s|
    ensures Reversed(Reversed(s)[..count]) == s[|s| - count..]
  {
    var r, tail := Reversed(s), s[|s| - count..];
    forall i | 0 <= i < count ensures Reversed(r[..count])[i] == tail[i] {
      assert Reversed(r[..count])[i] == r[count - 1 - i] == s[|s| - count + i];
    }
  }

  /** The newest matching event stands first in descending order and last in any other. */
  lemma NewestEnd<E>(events: seq<E>, e: E, matches: E -> bool, order: string)
    requires matches(e)
    ensures var before, after := Ordered(events, Filter(matches, order)), Ordered(events + [e], Filter(matches, order));
      after == if order == "desc" then [e] + before else before + [e]
  {
    FilteredAppend(events, [e], matches);
    assert [e][1..] == [] && Filtered([e], matches) == [e] + Filtered([], matches);
    var kept := Filtered(events, matches);
    assert Reversed(kept + [e]) == [e] + Reversed(kept);
  }

  lemma ReversedTail<E>(s: seq<E>, n: nat)
    requires n <= |s|
    ensures Reversed(s)[..n] == Reversed(s[|s| - n..])
  {
    forall i | 0 <= i < n ensures Reversed(s)[..n][i] == Reversed(s[|s| - n..])[i] {
      assert s[|s| - n..][n - 1 - i] == s[|s| - 1 - i];
    }
  }

  /** A listing with a limit shows the newest matching events, oldest first by default and
      newest first in descending order, and the oldest ones for any other order. */
  lemma ListingShows<E>(events: seq<E>, matches: E -> bool, order: string, limit: nat, kept: seq<E>)
    requires kept == Filtered(events, matches) && 0 < limit <= |kept|
    ensures order == "" ==> Listing(events, Filter(matches, order), limit) == kept[|kept| - limit..]
    ensures order == "desc" ==> Listing(events, Filter(matches, order), limit) == Reversed(kept[|kept| - limit..])
    ensures order != "" && order != "desc" ==> Listing(events, Filter(matches, order), limit) == kept[..limit]
  {
    ReversedTail(kept, limit);
  }

  // ------------------------------------------------------------------ the pages

  function ParseCursor(cursor: string): nat {
    var trimmed := Text.TrimSpace(cursor);
    if trimmed == "" then 0
    else
      var offset := Numbers.Atoi(trimmed);
      if offset.None? || offset.value < 0 then 0 else offset.value
  }

  function PageSize(limit: int): (size: nat)
    ensures 1 <= size <= 1000
  {
    if limit <= 0 || limit > 1000 then 1000 else limit
  }

  function StartOf<E>(events: seq<E>, cursor: string): (start: nat)
    ensures start <= |events|
  {
    if ParseCursor(cursor) > |events| then |events| else ParseCursor(cursor)
  }

  function PageOf<E>(events: seq<E>, limit: int, cursor: string): Page<E> {
    var start := StartOf(events, cursor);
    var end := if start + PageSize(limit) > |events| then |events| else start + PageSize(limit);
    Page(events[start..end], if end < |events| then Numbers.Itoa(end) else "")
  }

  lemma CursorRoundTrip(n: nat)
    requires n < Numbers.INT64
    ensures Numbers.Itoa(n) != "" && ParseCursor(Numbers.Itoa(n)) == n
  {
    var s := Numbers.Itoa(n);
    Numbers.ItoaDigits(n);
    assert s[0] in s && s[|s| - 1] in s;
    Text.TrimSpaceFixed(s);
    Numbers.AtoiItoa(n);
  }

  lemma NextCursorAdvances<E>(events: seq<E>, limit: int, cursor: string)
    requires |events| < Numbers.INT64
    ensures var page := PageOf(events, limit, cursor);
      if page.nextCursor == "" then
        page.events == events[StartOf(events, cursor)..]
      else
        && |page.events| == PageSize(limit)
        && StartOf(events, page.nextCursor) == StartOf(events, cursor) + PageSize(limit)
        && page.events == events[StartOf(events, cursor)..StartOf(events, page.nextCursor)]
  {
    var end := StartOf(events, cursor) + PageSize(limit);
    if end < |events| { CursorRoundTrip(end); }
  }

  /** The pages a client sees that follows each page's cursor until there is none. */
  function Pages<E>(events: seq<E>, limit: int, cursor: string): seq<seq<E>>
    requires |events| < Numbers.INT64
    decreases |events| - StartOf(events, cursor)
  {
    NextCursorAdvances(events, limit, cursor);
    var page := PageOf(events, limit, cursor);
    if page.nextCursor == "" then [page.events]
    else [page.events] + Pages(events, limit, page.nextCursor)
  }

  function Concat<E>(pages: seq<seq<E>>): seq<E> {
    if pages == [] then [] else pages[0] + Concat(pages[1..])
  }

  lemma {:induction false} PagesCoverTheRest<E>(events: seq<E>, limit: int, cursor: string)
    requires |events| < Numbers.INT64
    ensures Concat(Pages(events, limit, cursor)) == events[StartOf(events, cursor)..]
    ensures forall i | 0 <= i < |Pages(events, limit, cursor)| - 1 ::
              |Pages(events, limit, cursor)[i]| == PageSize(limit)
    decreases |events| - StartOf(events, cursor)
  {
    NextCursorAdvances(events, limit, cursor);
    var page := PageOf(events, limit, cursor);
    var start := StartOf(events, cursor);
    var pages := Pages(events, limit, cursor);
    if page.nextCursor == "" {
      assert pages[1..] == [];
    } else {
      var next := StartOf(events, page.nextCursor);
      PagesCoverTheRest(events, limit, page.nextCursor);
      assert pages[1..] == Pages(events, limit, page.nextCursor);
      assert events[start..next] + events[next..] == events[start..];
      forall i | 0 <= i < |pages| - 1 ensures |pages[i]| == PageSize(limit) {
        if i > 0 { assert pages[i] == pages[1..][i - 1]; }
      }
    }
  }

  /** Following the cursors from the first page ends, and shows the whole
      filtered and ordered list once, in order, whatever the limit. */
  lemma PaginationIsComplete<E>(events: seq<E>, filter: Filter<E>, limit: int)
    requires |Ordered(events, filter)| < Numbers.INT64
    ensures Concat(Pages(Ordered(events, filter), limit, "")) == Ordered(events, filter)
  {
    PagesCoverTheRest(Ordered(events, filter), limit, "");
  }

  // ------------------------------------------------------------- whole runs

  /** What the process and its disk hold. */
  datatype Log<+E> = Log(events: seq<E>, file: seq<E>, limit: nat)

  /** An event is logged, or the process starts again with some limit. */
  datatype Change<+E> = Logged(event: E) | Restarted(limit: nat)

  function Apply<E>(log: Log<E>, change: Change<E>): Log<E> {
    match change
    case Logged(e) => Log(Push(log.events, e, log.limit), log.file + [e], log.limit)
    case Restarted(limit) => Log(PushAll([], log.file, limit), log.file, limit)
  }

  function ApplyAll<E>(log: Log<E>, changes: seq<Change<E>>): Log<E> {
    if changes == [] then log
    else Apply(ApplyAll(log, changes[..|changes| - 1]), changes[|changes| - 1])
  }

  function LoggedEvents<E>(changes: seq<Change<E>>): seq<E> {
    if changes == [] then []
    else
      LoggedEvents(changes[..|changes| - 1]) +
      match changes[|changes| - 1] case Logged(e) => [e] case Restarted(_) => []
  }

  /** After every run of appends and restarts the file holds every event ever
      logged, and the buffer its newest `limit`; so a further restart with the
      same limit changes nothing. */
  lemma {:induction false} BufferIsEndOfFile<E>(file: seq<E>, limit: nat, changes: seq<Change<E>>)
    ensures var log := ApplyAll(Apply(Log([], file, 0), Restarted(limit)), changes);
      && log.file == file + LoggedEvents(changes)
      && log.events == LastOf(log.file, log.limit)
      && Apply(log, Restarted(log.limit)) == log
  {
    var loaded := Apply(Log([], file, 0), Restarted(limit));
    var log := ApplyAll(loaded, changes);
    if changes == [] {
      LoadedIsLast(file, limit);
    } else {
      var before := ApplyAll(loaded, changes[..|changes| - 1]);
      BufferIsEndOfFile(file, limit, changes[..|changes| - 1]);
      match changes[|changes| - 1] {
        case Logged(e) => PushTracksFile(before.file, e, before.limit);
        case Restarted(l) => LoadedIsLast(before.file, l);
      }
    }
    LoadedIsLast(log.file, log.limit);
  }

  // ------------------------------------------------------------------ the class

  /** The loop that swaps from both ends. */
  method ReverseInPlace<E>(a: array<E>)
    modifies a
    ensures a[..] == Reversed(old(a[..]))
  {
    var i, j := 0, a.Length - 1;
    while i < j
      invariant 0 <= i && j == a.Length - 1 - i && i <= j + 1
      invariant forall k | 0 <= k < i || j < k < a.Length :: a[k] == old(a[a.Length - 1 - k])
      invariant forall k | i <= k <= j :: a[k] == old(a[k])
    {
      a[i], a[j] := a[j], a[i];
      i, j := i + 1, j - 1;
    }
  }

  class Store<E> {
    var events: seq<E>
    const limit: nat
    const persistent: bool
    var file: seq<E>

    ghost predicate Valid()
      reads this
    {
      persistent ==> events == LastOf(file, limit)
    }

    /** NewPersistentStore and load; without a path the file stays empty. */
    constructor (limit: int, persistent: bool, file: seq<E>)
      ensures Valid() && this.persistent == persistent && this.file == file
      ensures this.limit == if limit <= 0 then 1000 else limit
      ensures events == if persistent then LastOf(file, this.limit) else []
    {
      this.limit := if limit <= 0 then 1000 else limit;
      this.persistent := persistent;
      this.file := file;
      events := [];
      new;
      if persistent {
        for i := 0 to |file|
          invariant this.limit == (if limit <= 0 then 1000 else limit)
          invariant this.persistent == persistent && this.file == file
          invariant events == PushAll([], file[..i], this.limit)
        {
          assert file[..i + 1][..i] == file[..i];
          events := events + [file[i]];
          if |events| > this.limit {
            events := MoveDown(events, |events| - this.limit);
            events := events[..this.limit];
          }
        }
        assert file[..|file|] == file;
        LoadedIsLast(file, this.limit);
      }
    }

    method Append(event: E)
      requires Valid()
      modifies this
      ensures Valid()
      ensures events == Push(old(events), event, limit)
      ensures file == if persistent then old(file) + [event] else old(file)
    {
      ghost var before := file;
      events := events + [event];
      if |events| > limit {
        events := MoveDown(events, |events| - limit);
        events := events[..limit];
      }
      if persistent {
        file := file + [event];
        PushTracksFile(before, event, limit);
      }
    }

    method FilteredOrderedEvents(filter: Filter<E>) returns (r: array<E>)
      ensures fresh(r) && r[..] == Ordered(events, filter)
    {
      var kept: seq<E> := [];
      for i := 0 to |events|
        invariant kept == Filtered(events[..i], filter.matches)
      {
        assert events[..i + 1] == events[..i] + [events[i]];
        FilteredAppend(events[..i], [events[i]], filter.matches);
        if filter.matches(events[i]) {
          kept := kept + [events[i]];
        }
      }
      assert events[..|events|] == events;
      r := new E[|kept|](i requires 0 <= i < |kept| => kept[i]);
      assert r[..] == kept;
      if filter.order == "desc" {
        ReverseInPlace(r);
      }
    }

    method ListFiltered(filter: Filter<E>, limit: int) returns (r: seq<E>)
      ensures r == Listing(events, filter, limit)
    {
      var ordered := FilteredOrderedEvents(filter);
      var count := limit;
      if count <= 0 || count > ordered.Length {
        count := ordered.Length;
      }
      if filter.order == "" {
        return ordered[ordered.Length - count..];
      }
      r := ordered[..count];
    }

    method ListFilteredPage(filter: Filter<E>, limit: int, cursor: string) returns (page: Page<E>)
      ensures page == PageOf(Ordered(events, filter), limit, cursor)
    {
      var ordered := FilteredOrderedEvents(filter);
      var size := limit;
      if size <= 0 || size > 1000 {
        size := 1000;
      }
      var offset := ParseCursor(cursor);
      if offset > ordered.Length {
        offset := ordered.Length;
      }
      var end := offset + size;
      if end > ordered.Length {
        end := ordered.Length;
      }
      page := Page(ordered[offset..end], "");
      if end < ordered.Length {
        page := page.(nextCursor := Numbers.Itoa(end));
      }
      assert ordered[offset..end] == ordered[..][offset..end];
    }
  }
}
