/** The bounded set of recently seen elements. */
module LruHashSet {
  /** Elements of `s` other than `e`, in their order. */
  function Without<T(==)>(s: seq<T>, e: T): seq<T> {
    if s == [] then [] else (if s[0] == e then [] else [s[0]]) + Without(s[1..], e)
  }

  /** The distinct elements of a history, the most recently inserted last. */
  function Recent<T(==)>(history: seq<T>): seq<T>
    decreases |history|
  {
    if history == [] then []
    else
      var e := history[|history| - 1];
      Without(Recent(history[..|history| - 1]), e) + [e]
  }

  /** The last `n` elements, or all if there are fewer. */
  function Last<T>(s: seq<T>, n: nat): seq<T> {
    if |s| <= n then s else s[|s| - n..]
  }

  ghost predicate Distinct<T>(s: seq<T>) {
    forall i, j | 0 <= i < j < |s| :: s[i] != s[j]
  }

  lemma {:induction false} WithoutMembers<T>(s: seq<T>, e: T, x: T)
    ensures x in Without(s, e) <==> x in s && x != e
  {
    if s != [] {
      WithoutMembers(s[1..], e, x);
    }
  }

  lemma {:induction false} WithoutAbsent<T>(s: seq<T>, e: T)
    requires e !in s
    ensures Without(s, e) == s
  {
    if s != [] {
      WithoutAbsent(s[1..], e);
    }
  }

  lemma {:induction false} WithoutAppend<T>(s: seq<T>, t: seq<T>, e: T)
    ensures Without(s + t, e) == Without(s, e) + Without(t, e)
  {
    if s == [] {
      assert s + t == t;
    } else {
      assert (s + t)[1..] == s[1..] + t;
      WithoutAppend(s[1..], t, e);
    }
  }

  /** Removing an element that occurs once shortens a sequence by one and keeps it distinct. */
  lemma {:induction false} WithoutOnce<T>(s: seq<T>, e: T)
    requires Distinct(s)
    ensures Distinct(Without(s, e))
    ensures |Without(s, e)| == |s| - (if e in s then 1 else 0)
  {
    if s != [] {
      var rest := s[1..];
      assert s == [s[0]] + rest && s[0] !in rest;
      WithoutOnce(rest, e);
      if s[0] == e {
        WithoutAbsent(rest, e);
      } else {
        WithoutMembers(rest, e, s[0]);
      }
    }
  }

  /** The recency list holds each element of the history exactly once. */
  lemma {:induction false} RecentFacts<T>(history: seq<T>, x: T)
    ensures Distinct(Recent(history))
    ensures x in Recent(history) <==> x in history
    decreases |history|
  {
    if history != [] {
      var n := |history| - 1;
      var e := history[n];
      RecentFacts(history[..n], x);
      RecentFacts(history[..n], e);
      WithoutOnce(Recent(history[..n]), e);
      WithoutMembers(Recent(history[..n]), e, x);
      WithoutMembers(Recent(history[..n]), e, e);
      assert history == history[..n] + [e];
    }
  }

  lemma LastOfAppend<T>(front: seq<T>, x: seq<T>, n: nat)
    requires |x| >= n || front == []
    ensures Last(front + x, n) == Last(x, n)
  {
    if front == [] {
      assert front + x == x;
    } else {
      var k := |x| - n;
      assert (front + x)[|front + x| - n..] == x[k..];
    }
  }

  /** Moving `e` to the back of a sequence and then keeping the last `n` elements is the same as
      keeping the last `n` first, then moving `e` to the back, and cutting again. */
  lemma LastWithout<T>(s: seq<T>, e: T, n: nat)
    requires Distinct(s)
    ensures Last(Without(s, e) + [e], n) == Last(Without(Last(s, n), e) + [e], n)
    ensures e in Last(s, n) ==> |Without(Last(s, n), e) + [e]| == |Last(s, n)|
  {
    var k := if |s| <= n then 0 else |s| - n;
    var front, kept := s[..k], s[k..];
    assert s == front + kept && kept == Last(s, n);
    assert Distinct(kept);
    WithoutAppend(front, kept, e);
    WithoutOnce(kept, e);
    assert Without(s, e) + [e] == Without(front, e) + (Without(kept, e) + [e]);
    LastOfAppend(Without(front, e), Without(kept, e) + [e], n);
  }

  class LruHashSet<T(==)> {
    /** The linked set, oldest entry first. */
    var entries: seq<T>
    const limit: nat
    /** Everything ever inserted, oldest first. */
    ghost var history: seq<T>

    /** The set holds the `limit - 1` most recent distinct elements, in order of recency. */
    ghost predicate Valid()
      reads this
    {
      limit > 0 && entries == Last(Recent(history), limit - 1)
    }

    constructor (limit: nat)
      requires limit > 0
      ensures Valid() && history == [] && this.limit == limit
    {
      entries := [];
      history := [];
      this.limit := limit;
    }

    /** Tells whether the element was not among those held. */
    method Insert(e: T) returns (added: bool)
      requires Valid()
      modifies this
      ensures Valid() && history == old(history) + [e]
      ensures added <==> e !in old(entries)
    {
      assert (history + [e])[..|history|] == history;
      RecentFacts(history, e);
      LastWithout(Recent(history), e, limit - 1);
      history := history + [e];
      if e in entries {
        entries := Without(entries, e) + [e];
        return false;
      }
      WithoutAbsent(entries, e);
      entries := entries + [e];
      if |entries| == limit {
        entries := entries[1..];
      }
      return true;
    }
  }
}
