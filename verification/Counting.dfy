/** Occurrences in sequences. */
module Counting {
  /** How often `x` occurs in `s`. */
  function Occ<T(==)>(s: seq<T>, x: T): nat {
    if s == [] then 0 else Occ(s[..|s| - 1], x) + if s[|s| - 1] == x then 1 else 0
  }

  lemma {:induction false} OccAppend<T>(s: seq<T>, t: seq<T>, x: T)
    ensures Occ(s + t, x) == Occ(s, x) + Occ(t, x)
    decreases |t|
  {
    if t == [] {
      assert s + t == s;
    } else {
      assert (s + t)[..|s + t| - 1] == s + t[..|t| - 1];
      OccAppend(s, t[..|t| - 1], x);
    }
  }

  lemma {:induction false} OccAbsent<T>(s: seq<T>, x: T)
    requires x !in s
    ensures Occ(s, x) == 0
    decreases |s|
  {
    if s != [] {
      OccAbsent(s[..|s| - 1], x);
    }
  }

  lemma OccOne<T>(a: T, x: T)
    ensures Occ([a], x) == if a == x then 1 else 0
  {
    assert [a][..0] == [];
  }
}
