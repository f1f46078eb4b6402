/**
 * `scheduleByDelay(items, onRun)` (js/pcb-loader.js lines 94-112): sort the
 * items by delay, then on every animation frame run each item whose delay
 * has elapsed, advancing one index that never goes back.
 */
module Scheduling {

  /** An item of a trace queue or a fade-in queue: its start time and what it starts. */
  datatype Timed<T> = Timed(delay: real, what: T)

  predicate SortedByDelay<T>(s: seq<Timed<T>>) {
    forall i, j :: 0 <= i < j < |s| ==> s[i].delay <= s[j].delay
  }

  /** x placed after every element whose delay is at most its own. */
  function Insert<T>(x: Timed<T>, s: seq<Timed<T>>): (r: seq<Timed<T>>)
    requires SortedByDelay(s)
    ensures SortedByDelay(r)
    ensures multiset(r) == multiset(s) + multiset{x}
    ensures |r| == |s| + 1
    decreases |s|
  {
    if s == [] || x.delay < s[0].delay then [x] + s
    else
      var rest := Insert(x, s[1..]);
      assert s == [s[0]] + s[1..];
      HeadFirst(s[0], x, s[1..], rest);
      [s[0]] + rest
  }

  /** The head of a sorted sequence stays first when a later element is inserted into its tail. */
  lemma HeadFirst<T>(h: Timed<T>, x: Timed<T>, t: seq<Timed<T>>, rest: seq<Timed<T>>)
    requires SortedByDelay([h] + t) && h.delay <= x.delay
    requires multiset(rest) == multiset(t) + multiset{x}
    ensures forall k :: 0 <= k < |rest| ==> h.delay <= rest[k].delay
  {
    forall k | 0 <= k < |rest|
      ensures h.delay <= rest[k].delay
    {
      assert rest[k] in multiset(rest);
      if rest[k] != x {
        assert rest[k] in t;
        var m :| 0 <= m < |t| && t[m] == rest[k];
        assert ([h] + t)[0] == h && ([h] + t)[m + 1] == t[m];
      }
    }
  }

  /**
   * `items.sort((a, b) => a.delay - b.delay)`: a stable sort by delay, here
   * an insertion sort.
   */
  function SortByDelay<T>(s: seq<Timed<T>>): (r: seq<Timed<T>>)
    ensures SortedByDelay(r)
    ensures multiset(r) == multiset(s)
    decreases |s|
  {
    if s == [] then []
    else
      var init := s[..|s| - 1];
      assert s == init + [s[|s| - 1]];
      Insert(s[|s| - 1], SortByDelay(init))
  }

  /** An element no later than everything in a sorted sequence goes to its end. */
  lemma {:induction false} InsertLast<T>(x: Timed<T>, s: seq<Timed<T>>)
    requires SortedByDelay(s)
    requires forall k :: 0 <= k < |s| ==> s[k].delay <= x.delay
    ensures Insert(x, s) == s + [x]
    decreases |s|
  {
    if s != [] {
      InsertLast(x, s[1..]);
      assert s == [s[0]] + s[1..];
    }
  }

  /** Sorting keeps a sequence that is already in delay order as it is. */
  lemma {:induction false} SortSorted<T>(s: seq<Timed<T>>)
    requires SortedByDelay(s)
    ensures SortByDelay(s) == s
    decreases |s|
  {
    if s != [] {
      var init := s[..|s| - 1];
      SortSorted(init);
      InsertLast(s[|s| - 1], init);
      assert init + [s[|s| - 1]] == s;
    }
  }

  /** The state of one `scheduleByDelay` call. */
  class Scheduler<T(==)> {
    /** The items as they were handed over. */
    const queue: seq<Timed<T>>
    /** `items` after the in-place sort. */
    var items: seq<Timed<T>>
    /** The next item to run. */
    var idx: nat
    /** The `onRun` calls made so far, in order. */
    var ran: seq<Timed<T>>
    /** Whether a `tick` is requested for the next animation frame. */
    var pending: bool

    ghost predicate Valid()
      reads this
    {
      SortedByDelay(items) && multiset(items) == multiset(queue)
      && idx <= |items| && ran == items[..idx]
      && pending == (idx < |items|)
    }

    /** The call itself: an empty list returns at once, otherwise the sort and the first frame request. */
    constructor(queue: seq<Timed<T>>)
      ensures Valid()
      ensures this.queue == queue
      ensures items == (if queue == [] then queue else SortByDelay(queue))
      ensures idx == 0 && ran == []
      ensures pending == (queue != [])
    {
      this.queue := queue;
      if queue == [] {
        items := queue;
      } else {
        items := SortByDelay(queue);
      }
      idx := 0;
      ran := [];
      pending := queue != [];
    }

    /** A requested `tick`, `elapsed` milliseconds after the call. */
    method Tick(elapsed: real)
      requires Valid() && pending
      modifies this
      ensures Valid()
      ensures items == old(items)
      ensures old(idx) <= idx
      ensures ran == old(ran) + items[old(idx)..idx]
      ensures forall k :: old(idx) <= k < idx ==> items[k].delay <= elapsed
      ensures forall k :: 0 <= k < |items| && items[k].delay <= elapsed ==> k < idx
      ensures idx < |items| ==> items[idx].delay > elapsed
      ensures SortedByDelay(ran)
      ensures !pending ==> multiset(ran) == multiset(queue)
    {
      while idx < |items| && items[idx].delay <= elapsed
        invariant old(idx) <= idx <= |items|
        invariant items == old(items)
        invariant ran == items[..idx]
        invariant forall k :: old(idx) <= k < idx ==> items[k].delay <= elapsed
        decreases |items| - idx
      {
        ran := ran + [items[idx]];
        idx := idx + 1;
        assert items[..idx] == items[..idx - 1] + [items[idx - 1]];
      }
      pending := idx < |items|;
      if idx == |items| {
        assert items[..idx] == items;
      }
    }
  }
}
