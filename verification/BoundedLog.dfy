// The bounded buffer with an append-only file behind it that the DNS log
// (internal/dnslog/dnslog.go) and the retry queue (internal/honeypot/client.go)
// have in common.

module BoundedLog {

  /** The newest `limit` entries. */
  function LastOf<T>(entries: seq<T>, limit: nat): seq<T> {
    if |entries| <= limit then entries else entries[|entries| - limit..]
  }

  /** copy(s, s[from..]) on one slice: the tail moves to the front, what lies behind stays. */
  function MoveDown<T>(s: seq<T>, from: nat): seq<T>
    requires from <= |s|
  {
    s[from..] + s[|s| - from..]
  }

  /** append, then copy and reslice when the buffer is over its limit. */
  function Push<T>(entries: seq<T>, x: T, limit: nat): seq<T> {
    var grown := entries + [x];
    if |grown| > limit then MoveDown(grown, |grown| - limit)[..limit] else grown
  }

  function PushAll<T>(entries: seq<T>, more: seq<T>, limit: nat): seq<T> {
    if more == [] then entries else Push(PushAll(entries, more[..|more| - 1], limit), more[|more| - 1], limit)
  }

  lemma PushKeepsLast<T>(entries: seq<T>, x: T, limit: nat)
    ensures Push(entries, x, limit) == LastOf(entries + [x], limit)
  {
  }

  lemma LastOfLast<T>(all: seq<T>, x: T, limit: nat)
    ensures LastOf(LastOf(all, limit) + [x], limit) == LastOf(all + [x], limit)
  {
  }

  /** Appending to the buffer and to the file keeps the buffer equal to the end of the file. */
  lemma PushTracksFile<T>(file: seq<T>, x: T, limit: nat)
    ensures Push(LastOf(file, limit), x, limit) == LastOf(file + [x], limit)
  {
    PushKeepsLast(LastOf(file, limit), x, limit);
    LastOfLast(file, x, limit);
  }

  lemma {:induction false} PushAllIsLast<T>(file: seq<T>, more: seq<T>, limit: nat)
    ensures PushAll(LastOf(file, limit), more, limit) == LastOf(file + more, limit)
  {
    if more == [] {
      assert file + more == file;
    } else {
      var front, x := more[..|more| - 1], more[|more| - 1];
      PushAllIsLast(file, front, limit);
      PushTracksFile(file + front, x, limit);
      assert file + front + [x] == file + more;
    }
  }

  /** load reads the file line by line with the same trimming, and so arrives at
      exactly the live buffer. */
  lemma {:induction false} LoadedIsLast<T>(file: seq<T>, limit: nat)
    ensures PushAll([], file, limit) == LastOf(file, limit)
  {
    PushAllIsLast([], file, limit);
    assert [] + file == file;
  }
}
