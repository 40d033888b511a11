/**
 * The order the registry keeps its queue in: ascending priority, entries
 * of equal priority in the order they were registered.
 *
 * The registry re-sorts its whole queue after every insertion, with a
 * comparator that answers `b.priority < a.priority` -- a boolean where
 * `Array.prototype.sort` expects a signed number. It never answers
 * "negative", and for every pair with `a.priority < b.priority` it answers
 * `false`, read as 0, "equal"; so it is inconsistent for every pair of
 * distinct priorities, and the order it yields is whatever the engine's
 * sort algorithm makes of that. The error text for
 * priorities documents the intent (priority 1 runs before priority 2);
 * `SortByPriority` is that intent, a stable ascending sort.
 */
module QueueOrder {
  import opened Handlers

  /** Lower priorities come first. */
  ghost predicate Sorted<V>(q: seq<Entry<V>>) {
    forall j, k :: 0 <= j < k < |q| ==> q[j].priority <= q[k].priority
  }

  /** The entries of `q` with priority `p`, in the order `q` has them. */
  function WithPriority<V>(q: seq<Entry<V>>, p: int): seq<Entry<V>> {
    if q == [] then []
    else (if q[0].priority == p then [q[0]] else []) + WithPriority(q[1..], p)
  }

  /** Places `e` before the first entry of `q` whose priority is greater than its own. */
  function InsertByPriority<V>(q: seq<Entry<V>>, e: Entry<V>): seq<Entry<V>> {
    if q == [] then [e]
    else if e.priority < q[0].priority then [e] + q
    else [q[0]] + InsertByPriority(q[1..], e)
  }

  /** Stable ascending sort by priority: inserts the entries one by one, in their order. */
  function SortByPriority<V>(s: seq<Entry<V>>): seq<Entry<V>> {
    if s == [] then []
    else InsertByPriority(SortByPriority(s[..|s| - 1]), s[|s| - 1])
  }

  // ---------------------------------------------------------------------
  // WithPriority

  lemma {:induction false} WithPriorityAppend<V>(a: seq<Entry<V>>, b: seq<Entry<V>>, p: int)
    ensures WithPriority(a + b, p) == WithPriority(a, p) + WithPriority(b, p)
  {
    if a == [] {
      assert a + b == b;
    } else {
      assert (a + b)[1..] == a[1..] + b;
      WithPriorityAppend(a[1..], b, p);
    }
  }

  lemma WithPrioritySingleton<V>(x: Entry<V>, p: int)
    ensures WithPriority([x], p) == if x.priority == p then [x] else []
  {
    assert WithPriority([x], p) == (if x.priority == p then [x] else []) + WithPriority([], p);
  }

  lemma {:induction false} WithPriorityMembers<V>(q: seq<Entry<V>>, p: int, x: Entry<V>)
    ensures x in WithPriority(q, p) <==> x in q && x.priority == p
  {
    if q != [] {
      WithPriorityMembers(q[1..], p, x);
      assert q == [q[0]] + q[1..];
    }
  }

  /** A priority below every priority in `q` selects nothing from it. */
  lemma {:induction false} WithPriorityBelowAll<V>(q: seq<Entry<V>>, p: int)
    requires forall k :: 0 <= k < |q| ==> p < q[k].priority
    ensures WithPriority(q, p) == []
  {
    if q != [] {
      WithPriorityBelowAll(q[1..], p);
    }
  }

  // ---------------------------------------------------------------------
  // InsertByPriority

  /** Inserting adds exactly the new entry and loses none. */
  lemma {:induction false} InsertPermutes<V>(q: seq<Entry<V>>, e: Entry<V>)
    ensures |InsertByPriority(q, e)| == |q| + 1
    ensures multiset(InsertByPriority(q, e)) == multiset(q) + multiset{e}
  {
    if q != [] && e.priority >= q[0].priority {
      InsertPermutes(q[1..], e);
      assert q == [q[0]] + q[1..];
    }
  }

  /** Inserting into a sorted queue keeps it sorted. */
  lemma {:induction false} InsertSorted<V>(q: seq<Entry<V>>, e: Entry<V>)
    requires Sorted(q)
    ensures Sorted(InsertByPriority(q, e))
  {
    if q != [] && e.priority >= q[0].priority {
      var rest := InsertByPriority(q[1..], e);
      InsertSorted(q[1..], e);
      InsertPermutes(q[1..], e);
      forall x | x in rest
        ensures q[0].priority <= x.priority
      {
        assert x in multiset(rest);
        assert x == e || x in q[1..];
      }
    }
  }

  /**
   * In a sorted queue the new entry goes after every entry of priority
   * not greater than its own and before every entry of greater priority.
   */
  lemma {:induction false} InsertPlacesAfterNotGreater<V>(q: seq<Entry<V>>, e: Entry<V>, k: nat)
    requires k <= |q|
    requires forall j :: 0 <= j < k ==> q[j].priority <= e.priority
    requires forall j :: k <= j < |q| ==> e.priority < q[j].priority
    ensures InsertByPriority(q, e) == q[..k] + [e] + q[k..]
  {
    if k == 0 {
      assert q[..0] + [e] + q[0..] == [e] + q;
    } else {
      InsertPlacesAfterNotGreater(q[1..], e, k - 1);
      assert q[..k] == [q[0]] + q[1..][..k - 1];
      assert q[k..] == q[1..][k - 1..];
    }
  }

  /** Inserting keeps the order among entries of every priority, the new entry last. */
  lemma {:induction false} InsertStable<V>(q: seq<Entry<V>>, e: Entry<V>, p: int)
    requires Sorted(q)
    ensures WithPriority(InsertByPriority(q, e), p)
         == WithPriority(q, p) + (if e.priority == p then [e] else [])
  {
    WithPrioritySingleton(e, p);
    if q != [] && e.priority < q[0].priority {
      WithPriorityAppend([e], q, p);
      if e.priority == p {
        WithPriorityBelowAll(q, p);
      }
    } else if q != [] {
      InsertStable(q[1..], e, p);
      WithPriorityAppend([q[0]], InsertByPriority(q[1..], e), p);
      WithPrioritySingleton(q[0], p);
    }
  }

  // ---------------------------------------------------------------------
  // SortByPriority

  lemma {:induction false} SortPermutes<V>(s: seq<Entry<V>>)
    ensures |SortByPriority(s)| == |s|
    ensures multiset(SortByPriority(s)) == multiset(s)
  {
    if s != [] {
      var init, last := s[..|s| - 1], s[|s| - 1];
      SortPermutes(init);
      InsertPermutes(SortByPriority(init), last);
      assert s == init + [last];
    }
  }

  lemma {:induction false} SortSorted<V>(s: seq<Entry<V>>)
    ensures Sorted(SortByPriority(s))
  {
    if s != [] {
      SortSorted(s[..|s| - 1]);
      InsertSorted(SortByPriority(s[..|s| - 1]), s[|s| - 1]);
    }
  }

  /** Entries of equal priority come out in the order they went in. */
  lemma {:induction false} SortStable<V>(s: seq<Entry<V>>, p: int)
    ensures WithPriority(SortByPriority(s), p) == WithPriority(s, p)
  {
    if s != [] {
      var init, last := s[..|s| - 1], s[|s| - 1];
      SortStable(init, p);
      SortSorted(init);
      InsertStable(SortByPriority(init), last, p);
      assert s == init + [last];
      WithPriorityAppend(init, [last], p);
      WithPrioritySingleton(last, p);
    }
  }

  /** Sorting a queue that is already sorted leaves it as it is. */
  lemma {:induction false} SortedFixpoint<V>(q: seq<Entry<V>>)
    requires Sorted(q)
    ensures SortByPriority(q) == q
  {
    if q != [] {
      var init, last := q[..|q| - 1], q[|q| - 1];
      SortedFixpoint(init);
      InsertPlacesAfterNotGreater(init, last, |init|);
      assert init[..|init|] == init && init[|init|..] == [];
      assert q == init + [last];
    }
  }

  /** Sorting the queue with one more entry at its end is inserting that entry into the sorted queue. */
  lemma SortAppend<V>(s: seq<Entry<V>>, e: Entry<V>)
    ensures SortByPriority(s + [e]) == InsertByPriority(SortByPriority(s), e)
  {
    assert (s + [e])[..|s + [e]| - 1] == s;
  }

  lemma HeadHasItsPriority<V>(q: seq<Entry<V>>)
    requires q != []
    ensures WithPriority(q, q[0].priority) != []
  {
  }

  lemma {:induction false} SortedHeadIsLowest<V>(q: seq<Entry<V>>, p: int)
    requires Sorted(q) && q != []
    requires WithPriority(q, p) != []
    ensures q[0].priority <= p
  {
    var x := WithPriority(q, p)[0];
    WithPriorityMembers(q, p, x);
    var k :| 0 <= k < |q| && q[k] == x;
  }

  /** Two sorted queues that agree on every priority start with the same entry. */
  lemma SortedSameHead<V>(a: seq<Entry<V>>, b: seq<Entry<V>>)
    requires Sorted(a) && Sorted(b) && a != [] && b != []
    requires forall p :: WithPriority(a, p) == WithPriority(b, p)
    ensures a[0] == b[0]
  {
    var m := a[0].priority;
    HeadHasItsPriority(a);
    HeadHasItsPriority(b);
    SortedHeadIsLowest(b, m);
    SortedHeadIsLowest(a, b[0].priority);
    assert a[0] == WithPriority(a, m)[0] == WithPriority(b, m)[0] == b[0];
  }

  lemma SortedTail<V>(q: seq<Entry<V>>)
    requires Sorted(q) && q != []
    ensures Sorted(q[1..])
  {
    forall j, k | 0 <= j < k < |q| - 1
      ensures q[1..][j].priority <= q[1..][k].priority
    {
      assert q[1..][j] == q[j + 1] && q[1..][k] == q[k + 1];
    }
  }

  /** Dropping the head of a queue drops it from the entries of its priority only. */
  lemma WithPriorityTail<V>(q: seq<Entry<V>>, p: int)
    requires q != []
    ensures WithPriority(q[1..], p) == WithPriority(q, p)[(if q[0].priority == p then 1 else 0)..]
  {
    var head := if q[0].priority == p then [q[0]] else [];
    assert WithPriority(q, p) == head + WithPriority(q[1..], p);
    assert WithPriority(q[1..], p) == (head + WithPriority(q[1..], p))[|head|..];
  }

  /**
   * Sorted order plus the order within every priority determine a queue:
   * two sorted queues that agree on the entries of every priority are equal.
   */
  lemma {:induction false} SortedUnique<V>(a: seq<Entry<V>>, b: seq<Entry<V>>)
    requires Sorted(a) && Sorted(b)
    requires forall p :: WithPriority(a, p) == WithPriority(b, p)
    ensures a == b
  {
    if a != [] {
      HeadHasItsPriority(a);
    }
    if b != [] {
      HeadHasItsPriority(b);
    }
    if a != [] && b != [] {
      SortedSameHead(a, b);
      forall p
        ensures WithPriority(a[1..], p) == WithPriority(b[1..], p)
      {
        WithPriorityTail(a, p);
        WithPriorityTail(b, p);
      }
      SortedTail(a);
      SortedTail(b);
      SortedUnique(a[1..], b[1..]);
      assert a == [a[0]] + a[1..];
      assert b == [b[0]] + b[1..];
    }
  }

  /** `r` is a stable ascending sort of `s`. */
  ghost predicate StableSortOf<V>(r: seq<Entry<V>>, s: seq<Entry<V>>) {
    Sorted(r) && forall p :: WithPriority(r, p) == WithPriority(s, p)
  }

  /**
   * `SortByPriority` is THE stable ascending sort: it is one, and every
   * stable ascending sort of the same queue equals it.
   */
  lemma StableSortCharacterised<V>(s: seq<Entry<V>>, r: seq<Entry<V>>)
    ensures StableSortOf(r, s) <==> r == SortByPriority(s)
  {
    SortSorted(s);
    forall p
      ensures WithPriority(SortByPriority(s), p) == WithPriority(s, p)
    {
      SortStable(s, p);
    }
    if StableSortOf(r, s) {
      SortedUnique(r, SortByPriority(s));
    }
  }
}
