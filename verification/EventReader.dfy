/**
 Reading the event log in pages: `Events` (firestore/events.go) builds a query and
 `eventIterator` (firestore/iterator.go) cuts it off at the limit.  A client reads on by
 passing the last index it has seen.
 */
module EventReader {
  import opened Wrappers
  import opened CounterDoc
  import EventSystem
  import EventGuarantees

  datatype Direction = Ascending | Descending

  datatype Event = Event(document: Doc, index: int)

  /** The index of a document of the log.  There every document has one. */
  function Pos(d: Doc): int {
    if HasIdx(d) then Idx(d) else 0
  }

  // ---------- the query ----------

  function InsertByIdx(s: seq<Doc>, d: Doc): seq<Doc>
  {
    if s == [] || Pos(s[|s| - 1]) <= Pos(d) then s + [d]
    else InsertByIdx(s[..|s| - 1], d) + [s[|s| - 1]]
  }

  /** OrderBy(idx, Asc). */
  function OrderByIdx(s: seq<Doc>): seq<Doc>
  {
    if s == [] then [] else InsertByIdx(OrderByIdx(s[..|s| - 1]), s[|s| - 1])
  }

  /** Where(idx, ">", bound) or Where(idx, "<", bound). */
  function WhereIdx(s: seq<Doc>, dir: Direction, bound: int): seq<Doc>
  {
    if s == [] then []
    else
      var d := s[|s| - 1];
      WhereIdx(s[..|s| - 1], dir, bound)
      + if (if dir.Ascending? then Pos(d) > bound else Pos(d) < bound) then [d] else []
  }

  function Reverse(s: seq<Doc>): (r: seq<Doc>) {
    seq(|s|, i requires 0 <= i < |s| => s[|s| - 1 - i])
  }

  /** The rows of the query in `Events`: index 0 means no bound. */
  function Rows(log: seq<Doc>, dir: Direction, index: int): (r: seq<Doc>)
  {
    var rows := OrderByIdx(if index == 0 then log else WhereIdx(log, dir, index));
    if dir.Ascending? then rows else Reverse(rows)
  }

  /** What an iterator with this limit yields of its rows: 0 means all of them. */
  function Page(rows: seq<Doc>, limit: int): seq<Doc> {
    if limit == 0 then rows
    else if limit < 0 then []
    else if limit < |rows| then rows[..limit]
    else rows
  }

  // ---------- the iterator ----------

  datatype Failure = QueryFailed

  /** `rows` are the rows that arrive; with `fails` the query then breaks off with an error. */
  class EventIterator {
    const rows: seq<Doc>
    const fails: bool
    const limit: int
    var next: nat
    var count: int

    ghost predicate Valid()
      reads this
    {
      && next <= |rows|
      && (limit == 0 ==> count == next)
      && (limit < 0 ==> count == 0)
      && (limit > 0 ==> count == if next < limit then next else limit)
    }

    constructor (rows: seq<Doc>, fails: bool, limit: int)
      ensures Valid() && count == next == 0 && this.rows == rows && this.fails == fails && this.limit == limit
    {
      this.rows, this.fails, this.limit := rows, fails, limit;
      next, count := 0, 0;
    }

    /** The next event of the page, and none for ever once the page is through, except that a
        query that broke off says so. */
    method Next() returns (e: Result<Option<Event>, Failure>)
      requires Valid()
      modifies this
      ensures Valid() && 0 <= old(count) <= |Page(rows, limit)|
      ensures old(count) < |Page(rows, limit)| ==>
                var d := Page(rows, limit)[old(count)];
                e == Ok(Some(Event(d, Pos(d)))) && count == old(count) + 1 && next == old(next) + 1
      ensures old(count) == |Page(rows, limit)| ==>
                count == old(count) && e == if fails && old(next) == |rows| then Err(QueryFailed) else Ok(None)
    {
      if next >= |rows| {
        return if fails then Err(QueryFailed) else Ok(None);
      }
      var doc := rows[next];
      next := next + 1;
      if limit != 0 && count >= limit {
        return Ok(None);
      }
      count := count + 1;
      return Ok(Some(Event(doc, Pos(doc))));
    }
  }

  function EventsOf(page: seq<Doc>): seq<Event> {
    seq(|page|, i requires 0 <= i < |page| => Event(page[i], Pos(page[i])))
  }

  /** Iterate until nothing comes. */
  method ReadPage(rows: seq<Doc>, fails: bool, limit: int) returns (r: Result<seq<Event>, Failure>)
    ensures r == if fails && |Page(rows, limit)| == |rows| then Err(QueryFailed) else Ok(EventsOf(Page(rows, limit)))
    ensures r.Err? <==> fails && (rows == [] || limit == 0 || limit >= |rows|)
    ensures r.Ok? ==>
              && |r.value| == (if limit < 0 then 0 else if limit == 0 || limit > |rows| then |rows| else limit)
              && forall i :: 0 <= i < |r.value| ==>
                   r.value[i].document == rows[i] && (HasIdx(rows[i]) ==> r.value[i].index == Idx(rows[i]))
  {
    var iter := new EventIterator(rows, fails, limit);
    ghost var page := Page(rows, limit);
    var events: seq<Event> := [];
    var e := iter.Next();
    while e.Ok? && e.value.Some?
      invariant iter.Valid() && fresh(iter) && |events| <= |page|
      invariant if |events| < |page|
        then e == Ok(Some(Event(page[|events|], Pos(page[|events|])))) && iter.count == iter.next == |events| + 1
        else e == if fails && |page| == |rows| then Err(QueryFailed) else Ok(None)
      invariant events == EventsOf(page[..|events|])
      decreases |page| - |events|
    {
      assert page[..|events| + 1] == page[..|events|] + [page[|events|]];
      events := events + [e.value.value];
      e := iter.Next();
    }
    if e.Err? {
      return Err(e.error);
    }
    assert page[..|page|] == page;
    return Ok(events);
  }

  /** A query on the log: exactly the page with each event's index, or the error of a query that
      breaks off (after `breaks` rows) no later than behind the page. */
  method ReadAll(log: seq<Doc>, dir: Direction, index: int, limit: int, breaks: Option<nat>)
    returns (r: Result<seq<Event>, Failure>)
    ensures var page := Page(Rows(log, dir, index), limit);
            r == if breaks.Some? && breaks.value <= |page| then Err(QueryFailed) else Ok(EventsOf(page))
    ensures breaks.None? ==> r.Ok?
    ensures r.Ok? && Increasing(log) ==>
              && (limit != 0 ==> |r.value| <= if limit < 0 then 0 else limit)
              && (forall i :: 0 <= i < |r.value| ==>
                    var e := r.value[i];
                    && e.document in log && e.index == Idx(e.document)
                    && (index != 0 ==> if dir == Ascending then e.index > index else e.index < index))
              && (forall i, j :: 0 <= i < j < |r.value| ==>
                    if dir == Ascending then r.value[i].index < r.value[j].index
                    else r.value[i].index > r.value[j].index)
              && (forall d :: d in log ==>
                    || Event(d, Idx(d)) in r.value
                    || (index != 0 && if dir == Ascending then Idx(d) <= index else Idx(d) >= index)
                    || (&& limit != 0 && |r.value| == (if limit < 0 then 0 else limit)
                        && forall i :: 0 <= i < |r.value| ==>
                             if dir == Ascending then r.value[i].index < Idx(d) else r.value[i].index > Idx(d)))
  {
    if Increasing(log) {
      PageEntries(log, dir, index, limit);
      PageMissing(log, dir, index, limit);
    }
    var rows := Rows(log, dir, index);
    if breaks.Some? && breaks.value <= |rows| {
      PageCut(rows, breaks.value, limit);
      r := ReadPage(rows[..breaks.value], true, limit);
    } else {
      r := ReadPage(rows, false, limit);
    }
  }

  /** The page of the first n rows. */
  lemma PageCut(rows: seq<Doc>, n: nat, limit: int)
    requires n <= |rows|
    ensures |Page(rows[..n], limit)| == n <==> n <= |Page(rows, limit)|
    ensures n > |Page(rows, limit)| ==> Page(rows[..n], limit) == Page(rows, limit)
  {
  }

  // ---------- queries on an increasing log ----------

  lemma IncreasingPrefix(log: seq<Doc>, n: nat)
    requires Increasing(log) && n <= |log|
    ensures Increasing(log[..n])
  {
  }

  lemma OrderStep(s: seq<Doc>, d: Doc)
    requires OrderByIdx(s) == s && (s != [] ==> Pos(s[|s| - 1]) <= Pos(d))
    ensures OrderByIdx(s + [d]) == s + [d]
  {
    assert (s + [d])[..|s + [d]| - 1] == s;
    assert OrderByIdx(s + [d]) == InsertByIdx(s, d);
  }

  lemma OrderFront(log: seq<Doc>)
    requires Increasing(log) && log != [] && OrderByIdx(log[..|log| - 1]) == log[..|log| - 1]
    ensures OrderByIdx(log) == log
  {
    hide OrderByIdx;
    var front, d := log[..|log| - 1], log[|log| - 1];
    assert front != [] ==> front[|front| - 1] == log[|log| - 2] && Idx(log[|log| - 2]) < Idx(d);
    OrderStep(front, d);
    assert log == front + [d];
  }

  lemma {:induction false} OrderByIsIdentity(log: seq<Doc>)
    requires Increasing(log)
    ensures OrderByIdx(log) == log
  {
    if log == [] {
    } else {
      IncreasingPrefix(log, |log| - 1);
      OrderByIsIdentity(log[..|log| - 1]);
      OrderFront(log);
    }
  }

  lemma WhereStep(s: seq<Doc>, d: Doc, dir: Direction, bound: int)
    ensures WhereIdx(s + [d], dir, bound) == WhereIdx(s, dir, bound)
            + if (if dir.Ascending? then Pos(d) > bound else Pos(d) < bound) then [d] else []
  {
    assert (s + [d])[..|s + [d]| - 1] == s;
  }

  lemma {:induction false} WhereAbove(log: seq<Doc>, n: nat, bound: int)
    requires n <= |log|
    requires forall i :: 0 <= i < n ==> Pos(log[i]) <= bound
    requires forall i :: n <= i < |log| ==> Pos(log[i]) > bound
    ensures WhereIdx(log, Ascending, bound) == log[n..]
    decreases |log|
  {
    if log == [] {
    } else {
      var front, d := log[..|log| - 1], log[|log| - 1];
      assert log == front + [d];
      WhereAbove(front, if n == |log| then n - 1 else n, bound);
      WhereStep(front, d, Ascending, bound);
    }
  }

  lemma {:induction false} WhereBelow(log: seq<Doc>, n: nat, bound: int)
    requires n <= |log|
    requires forall i :: 0 <= i < n ==> Pos(log[i]) < bound
    requires forall i :: n <= i < |log| ==> Pos(log[i]) >= bound
    ensures WhereIdx(log, Descending, bound) == log[..n]
    decreases |log|
  {
    if log == [] {
    } else {
      var front, d := log[..|log| - 1], log[|log| - 1];
      assert log == front + [d];
      WhereBelow(front, if n == |log| then n - 1 else n, bound);
      WhereStep(front, d, Descending, bound);
      assert n < |log| ==> front[..n] == log[..n];
    }
  }

  /** The query without a bound agrees with the bounded one, because no event has index 0. */
  lemma ZeroIsNoBound(log: seq<Doc>)
    requires Increasing(log)
    ensures Rows(log, Ascending, 0) == log == WhereIdx(log, Ascending, 0)
  {
    WhereAbove(log, 0, 0);
    assert log[0..] == log;
    OrderByIsIdentity(log);
  }

  lemma RowsAbove(log: seq<Doc>, n: nat)
    requires Increasing(log) && 0 < n <= |log|
    ensures Rows(log, Ascending, Idx(log[n - 1])) == log[n..]
  {
    var bound := Idx(log[n - 1]);
    WhereAbove(log, n, bound);
    IncreasingSuffix(log, n);
    OrderByIsIdentity(log[n..]);
  }

  /** Reading upwards from the n-th event continues right behind it. */
  lemma RowsAscending(log: seq<Doc>, n: nat)
    requires Increasing(log) && n <= |log|
    ensures Rows(log, Ascending, LastSeen(log[..n])) == log[n..]
  {
    if n == 0 {
      ZeroIsNoBound(log);
      assert log[0..] == log;
    } else {
      assert log[..n][n - 1] == log[n - 1];
      assert LastSeen(log[..n]) == Idx(log[n - 1]);
      RowsAbove(log, n);
    }
  }

  lemma IncreasingSuffix(log: seq<Doc>, n: nat)
    requires Increasing(log) && n <= |log|
    ensures Increasing(log[n..])
  {
  }

  /** Reading downwards from the event at position n continues right below it. */
  lemma RowsDescending(log: seq<Doc>, n: nat)
    requires Increasing(log) && n <= |log|
    ensures Rows(log, Descending, if n == |log| then 0 else Idx(log[n])) == Reverse(log[..n])
  {
    if n == |log| {
      OrderByIsIdentity(log);
      assert log[..n] == log;
    } else {
      WhereBelow(log, n, Idx(log[n]));
      assert Idx(log[n]) != 0;
      IncreasingPrefix(log, n);
      OrderByIsIdentity(log[..n]);
      assert OrderByIdx(WhereIdx(log, Descending, Idx(log[n]))) == log[..n];
    }
  }

  /** The n-th and later events have indices on the wanted side of a bound. */
  lemma CutPoint(log: seq<Doc>, bound: int) returns (n: nat)
    requires Increasing(log)
    ensures n <= |log| && (forall i :: 0 <= i < n ==> Idx(log[i]) <= bound)
    ensures forall i :: n <= i < |log| ==> Idx(log[i]) > bound
  {
    n := 0;
    while n < |log| && Idx(log[n]) <= bound
      invariant n <= |log| && forall i :: 0 <= i < n ==> Idx(log[i]) <= bound
    {
      n := n + 1;
    }
  }

  /** The rows of a query on an increasing log are a slice of it, read one way or the other. */
  lemma RowsAreSlice(log: seq<Doc>, dir: Direction, index: int) returns (lo: nat, hi: nat)
    requires Increasing(log)
    ensures lo <= hi <= |log|
    ensures Rows(log, dir, index) == if dir == Ascending then log[lo..hi] else Reverse(log[lo..hi])
    ensures forall i :: 0 <= i < |log| ==>
              (lo <= i < hi <==> index == 0 || if dir == Ascending then Idx(log[i]) > index else Idx(log[i]) < index)
  {
    hide OrderByIdx;
    hide WhereIdx;
    if index == 0 {
      lo, hi := 0, |log|;
      OrderByIsIdentity(log);
      assert log[0..|log|] == log;
    } else if dir == Ascending {
      lo := CutPoint(log, index);
      hi := |log|;
      WhereAbove(log, lo, index);
      IncreasingSuffix(log, lo);
      OrderByIsIdentity(log[lo..]);
      assert log[lo..hi] == log[lo..];
    } else {
      lo := 0;
      hi := CutPoint(log, index - 1);
      WhereBelow(log, hi, index);
      IncreasingPrefix(log, hi);
      OrderByIsIdentity(log[..hi]);
      assert log[lo..hi] == log[..hi];
    }
  }

  /** The k-th row of a query is the k-th event of its slice, from one end or the other. */
  function RowAt(lo: nat, hi: nat, dir: Direction, k: int): int {
    if dir == Ascending then lo + k else hi - 1 - k
  }

  lemma SliceAt(log: seq<Doc>, lo: nat, hi: nat, dir: Direction)
    requires lo <= hi <= |log|
    ensures var rows := if dir == Ascending then log[lo..hi] else Reverse(log[lo..hi]);
            |rows| == hi - lo && forall k :: 0 <= k < hi - lo ==> rows[k] == log[RowAt(lo, hi, dir, k)]
  {
  }

  lemma RowsAt(log: seq<Doc>, dir: Direction, index: int) returns (lo: nat, hi: nat)
    requires Increasing(log)
    ensures lo <= hi <= |log| && |Rows(log, dir, index)| == hi - lo
    ensures forall k :: 0 <= k < hi - lo ==> Rows(log, dir, index)[k] == log[RowAt(lo, hi, dir, k)]
    ensures forall i :: 0 <= i < |log| ==>
              (lo <= i < hi <==> index == 0 || if dir == Ascending then Idx(log[i]) > index else Idx(log[i]) < index)
  {
    hide Rows;
    hide Reverse;
    lo, hi := RowsAreSlice(log, dir, index);
    SliceAt(log, lo, hi, dir);
  }

  /** What a page of an increasing log holds: events on the wanted side of the bound, in order. */
  lemma PageEntries(log: seq<Doc>, dir: Direction, index: int, limit: int)
    requires Increasing(log)
    ensures var es := EventsOf(Page(Rows(log, dir, index), limit));
            && (limit != 0 ==> |es| <= if limit < 0 then 0 else limit)
            && (forall i :: 0 <= i < |es| ==>
                  && es[i].document in log && es[i].index == Idx(es[i].document)
                  && (index != 0 ==> if dir == Ascending then es[i].index > index else es[i].index < index))
            && (forall i, j :: 0 <= i < j < |es| ==>
                  if dir == Ascending then es[i].index < es[j].index else es[i].index > es[j].index)
  {
    hide Rows;
    var lo, hi := RowsAt(log, dir, index);
    var es := EventsOf(Page(Rows(log, dir, index), limit));
    forall i | 0 <= i < |es|
      ensures es[i] == Event(log[RowAt(lo, hi, dir, i)], Idx(log[RowAt(lo, hi, dir, i)]))
    {
    }
  }

  /** When an event on the wanted side of the bound is missing, the limit is reached in front of
      it. */
  lemma PageMissing(log: seq<Doc>, dir: Direction, index: int, limit: int)
    requires Increasing(log)
    ensures var es := EventsOf(Page(Rows(log, dir, index), limit));
            forall d :: d in log ==>
              || Event(d, Idx(d)) in es
              || (index != 0 && if dir == Ascending then Idx(d) <= index else Idx(d) >= index)
              || (&& limit != 0 && |es| == (if limit < 0 then 0 else limit)
                  && forall i :: 0 <= i < |es| ==>
                       if dir == Ascending then es[i].index < Idx(d) else es[i].index > Idx(d))
  {
    hide Rows;
    var lo, hi := RowsAt(log, dir, index);
    var es := EventsOf(Page(Rows(log, dir, index), limit));
    forall i | 0 <= i < |es|
      ensures es[i] == Event(log[RowAt(lo, hi, dir, i)], Idx(log[RowAt(lo, hi, dir, i)])) && es[i] in es
    {
    }
    forall d | d in log && (index == 0 || if dir == Ascending then Idx(d) > index else Idx(d) < index)
      ensures Event(d, Idx(d)) in es
              || (&& limit != 0 && |es| == (if limit < 0 then 0 else limit)
                  && forall i :: 0 <= i < |es| ==>
                       if dir == Ascending then es[i].index < Idx(d) else es[i].index > Idx(d))
    {
      var k :| 0 <= k < |log| && log[k] == d;
      var j := if dir == Ascending then k - lo else hi - 1 - k;
      assert RowAt(lo, hi, dir, j) == k;
      if j < |es| {
        assert es[j] == Event(d, Idx(d));
      }
    }
  }

  // ---------- paging ----------

  /** Snapshots of one log: later ones extend earlier ones. */
  ghost predicate Growing(logs: seq<seq<Doc>>) {
    && (forall k :: 0 <= k < |logs| ==> Increasing(logs[k]))
    && (forall j, k :: 0 <= j <= k < |logs| ==> logs[j] <= logs[k])
  }

  /** The index a client passes on: of the last event it got, 0 when it got none. */
  function LastSeen(got: seq<Doc>): int {
    if got == [] then 0 else Pos(got[|got| - 1])
  }

  /** Everything a client gets that reads page k from snapshot logs[k] with limits[k]. */
  ghost function Paged(logs: seq<seq<Doc>>, limits: seq<int>, dir: Direction): seq<Doc>
    requires |logs| == |limits|
  {
    if logs == [] then []
    else
      var n := |logs| - 1;
      var got := Paged(logs[..n], limits[..n], dir);
      got + Page(Rows(logs[n], dir, LastSeen(got)), limits[n])
  }

  lemma PagedStep(logs: seq<seq<Doc>>, limits: seq<int>, dir: Direction)
    requires |logs| == |limits| > 0
    ensures var n := |logs| - 1;
            var got := Paged(logs[..n], limits[..n], dir);
            && Paged(logs, limits, dir) == got + Page(Rows(logs[n], dir, LastSeen(got)), limits[n])
            && (n == 0 ==> got == [])
  {
  }

  /** How many events have been read after a page with this limit, n being available. */
  function After(read: nat, limit: int, n: nat): nat {
    if limit < 0 || n <= read then read
    else if limit == 0 || read + limit > n then n
    else read + limit
  }

  lemma PageSlice(rows: seq<Doc>, limit: int)
    ensures Page(rows, limit) == rows[..After(0, limit, |rows|)]
  {
    assert rows[..|rows|] == rows;
  }

  lemma ReadOn(log: seq<Doc>, n: nat, m: nat)
    requires n <= m <= |log|
    ensures log[..n] + log[n..][..m - n] == log[..m]
  {
  }

  lemma AscendingPage(log: seq<Doc>, n: nat, limit: int)
    requires Increasing(log) && n <= |log|
    ensures n <= After(n, limit, |log|) <= |log|
    ensures log[..n] + Page(Rows(log, Ascending, LastSeen(log[..n])), limit) == log[..After(n, limit, |log|)]
  {
    RowsAscending(log, n);
    PageSlice(log[n..], limit);
    ReadOn(log, n, After(n, limit, |log|));
  }

  /** Upwards: the pages together are a prefix of the log, every event once and in order,
      whatever the limits and whatever is appended between the pages.  A page is short of its
      limit only when it reaches the end of its snapshot. */
  lemma {:induction false} AscendingPages(logs: seq<seq<Doc>>, limits: seq<int>) returns (read: nat)
    requires Growing(logs) && |logs| == |limits| > 0
    ensures read <= |logs[|logs| - 1]|
    ensures Paged(logs, limits, Ascending) == logs[|logs| - 1][..read]
    ensures read == After(|Paged(logs[..|logs| - 1], limits[..|logs| - 1], Ascending)|, limits[|logs| - 1],
            |logs[|logs| - 1]|)
    decreases |logs|
  {
    hide Paged;
    hide OrderByIdx;
    hide WhereIdx;
    PagedStep(logs, limits, Ascending);
    var n := |logs| - 1;
    var log, got, before := logs[n], Paged(logs[..n], limits[..n], Ascending), 0;
    if n > 0 {
      before := AscendingPages(logs[..n], limits[..n]);
      assert logs[n - 1] <= log;
      PrefixSlice(logs[n - 1], log, before);
    }
    assert got == log[..before];
    AscendingPage(log, before, limits[n]);
    read := After(before, limits[n], |log|);
  }

  lemma PrefixSlice(a: seq<Doc>, b: seq<Doc>, n: nat)
    requires a <= b && n <= |a|
    ensures a[..n] == b[..n]
  {
  }

  lemma ReverseSlices(s: seq<Doc>, read: nat, more: nat)
    requires read + more <= |s|
    ensures Reverse(s)[..read] + Reverse(s[..|s| - read])[..more] == Reverse(s)[..read + more]
  {
  }

  lemma DescendingPage(first: seq<Doc>, log: seq<Doc>, read: nat, limit: int)
    requires Increasing(log) && first <= log && 0 < read <= |first|
    ensures read <= After(read, limit, |first|) <= |first|
    ensures LastSeen(Reverse(first)[..read]) >= 1
    ensures var got := Reverse(first)[..read];
            got + Page(Rows(log, Descending, LastSeen(got)), limit) == Reverse(first)[..After(read, limit, |first|)]
  {
    var m, got := |first| - read, Reverse(first)[..read];
    assert got[|got| - 1] == first[m] == log[m];
    assert LastSeen(got) == Idx(log[m]);
    RowsDescending(log, m);
    PrefixSlice(first, log, m);
    assert Rows(log, Descending, LastSeen(got)) == Reverse(first[..m]);
    PageSlice(Reverse(first[..m]), limit);
    ReverseSlices(first, read, After(0, limit, m));
  }

  /** Downwards: once a page brought something, everything read so far is a prefix of the
      reversed snapshot of that page: appended events do not show and nothing repeats.  When
      the snapshot is through the client has seen its first index, which is not 0, and every
      later page of any later log is empty. */
  lemma {:induction false} DescendingPages(logs: seq<seq<Doc>>, limits: seq<int>) returns (read: nat)
    requires Growing(logs) && |logs| == |limits| > 0
    requires Page(Rows(logs[0], Descending, 0), limits[0]) != []
    ensures 0 < read <= |logs[0]|
    ensures Paged(logs, limits, Descending) == Reverse(logs[0])[..read]
    ensures |logs| > 1 ==>
              read == After(|Paged(logs[..|logs| - 1], limits[..|logs| - 1], Descending)|, limits[|logs| - 1],
                  |logs[0]|)
    ensures LastSeen(Paged(logs, limits, Descending)) >= 1
    decreases |logs|
  {
    hide Paged;
    hide OrderByIdx;
    hide WhereIdx;
    PagedStep(logs, limits, Descending);
    var n, first := |logs| - 1, logs[0];
    if n == 0 {
      RowsDescending(first, |first|);
      assert first[..|first|] == first;
      PageSlice(Reverse(first), limits[0]);
      read := After(0, limits[0], |first|);
    } else {
      var before := DescendingPages(logs[..n], limits[..n]);
      DescendingPage(first, logs[n], before, limits[n]);
      read := After(before, limits[n], |first|);
    }
    DescendingPage(first, first, read, 0);
  }

  /** A first page that brings nothing, from an empty log or with a limit below 0, is as if it
      had not been read: the next one starts from the top again. */
  lemma {:induction false} EmptyFirstPage(logs: seq<seq<Doc>>, limits: seq<int>)
    requires |logs| == |limits| > 0 && Page(Rows(logs[0], Descending, 0), limits[0]) == []
    ensures Paged(logs, limits, Descending) == Paged(logs[1..], limits[1..], Descending)
    decreases |logs|
  {
    var n := |logs| - 1;
    if n == 0 {
      assert logs[..0] == logs[1..] == [];
      assert LastSeen(Paged(logs[..0], limits[..0], Descending)) == 0;
    } else {
      EmptyFirstPage(logs[..n], limits[..n]);
      CutBothEnds(logs, n);
      CutBothEnds(limits, n);
    }
  }

  lemma CutBothEnds<T>(s: seq<T>, n: nat)
    requires 1 <= n < |s|
    ensures s[..n][1..] == s[1..][..n - 1] && s[1..][n - 1] == s[n]
  {
  }

  /** The end of reading downwards: no page of any later log brings anything more. */
  lemma DescendingEnds(first: seq<Doc>, log: seq<Doc>, limit: int)
    requires Increasing(log) && first <= log && first != []
    ensures Page(Rows(log, Descending, LastSeen(Reverse(first))), limit) == []
  {
    hide Rows;
    assert LastSeen(Reverse(first)) == Idx(log[0]) by {
      assert Reverse(first)[|first| - 1] == log[0];
    }
    RowsDescending(log, 0);
    assert Reverse(log[..0]) == [];
  }

  /** States that follow each other in a run of the event system. */
  ghost predicate Follow(states: seq<EventSystem.Sys>, runs: seq<seq<EventSystem.Step>>, counters: set<string>) {
    && |states| == |runs| + 1
    && EventSystem.Inv(states[0], counters)
    && forall k :: 0 <= k < |runs| ==> EventSystem.Run(states[k], runs[k], counters) == Some(states[k + 1])
  }

  function Logs(states: seq<EventSystem.Sys>): seq<seq<Doc>> {
    seq(|states|, k requires 0 <= k < |states| => states[k].store.log)
  }

  lemma GrowingMore(logs: seq<seq<Doc>>, log: seq<Doc>)
    requires Growing(logs) && Increasing(log) && (logs != [] ==> logs[|logs| - 1] <= log)
    ensures Growing(logs + [log])
  {
    var all := logs + [log];
    forall j, k | 0 <= j <= k < |all|
      ensures all[j] <= all[k]
    {
      if j < k == |logs| {
        assert logs[j] <= logs[|logs| - 1];
      }
    }
  }

  /** Snapshots taken while clients keep adding events are what the paging results need. */
  lemma {:induction false} SnapshotsGrow(states: seq<EventSystem.Sys>, runs: seq<seq<EventSystem.Step>>,
                                         counters: set<string>)
    requires Follow(states, runs, counters)
    ensures Growing(Logs(states))
    ensures EventSystem.Inv(states[|states| - 1], counters)
    decreases |runs|
  {
    hide EventSystem.Run;
    hide LogOf;
    hide Chained;
    hide LastEnd;
    var n := |runs|;
    var earlier := states[..n];
    if n > 0 {
      SnapshotsGrow(earlier, runs[..n - 1], counters);
      assert earlier[n - 1] == states[n - 1];
      EventSystem.RunKeepsInv(states[n - 1], runs[n - 1], states[n], counters);
      EventGuarantees.NothingAppearsBehind(states[n - 1], runs[n - 1], states[n], counters);
    }
    SnapshotIncreases(states[n], counters);
    GrowingMore(Logs(earlier), states[n].store.log);
    assert Logs(states) == Logs(earlier) + [states[n].store.log];
  }

  lemma SnapshotIncreases(s: EventSystem.Sys, counters: set<string>)
    requires EventSystem.Inv(s, counters)
    ensures Increasing(s.store.log)
  {
    LogSound(s.store, counters);
  }
}
