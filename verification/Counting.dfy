/** Counting in lists and finite sets: occurrences, what a set leaves over, and the pigeonhole principle. */
module Counting {
  import opened Text

  function Occurrences<T(==)>(s: seq<T>, x: T): (n: nat)
    ensures n > 0 <==> x in s
    ensures n <= |s|
  {
    if s == [] then 0 else Occurrences(s[..|s| - 1], x) + (if s[|s| - 1] == x then 1 else 0)
  }

  /** How many entries of `s`, repeats included, lie outside `done`. */
  function Remaining<T(==)>(s: seq<T>, done: set<T>): (n: nat)
    ensures n == 0 <==> forall x :: x in s ==> x in done
    ensures n <= |s|
  {
    if s == [] then 0 else Remaining(s[..|s| - 1], done) + (if s[|s| - 1] in done then 0 else 1)
  }

  lemma {:induction false} RemainingOfNone<T>(s: seq<T>)
    ensures Remaining(s, {}) == |s|
  {
    if s != [] {
      RemainingOfNone(s[..|s| - 1]);
    }
  }

  lemma {:induction false} RemainingDrops<T>(s: seq<T>, done: set<T>, x: T)
    requires x !in done
    ensures Remaining(s, done + {x}) == Remaining(s, done) - Occurrences(s, x)
  {
    if s != [] {
      RemainingDrops(s[..|s| - 1], done, x);
    }
  }

  lemma {:induction false} RemainingShrinks<T>(s: seq<T>, done: set<T>, more: set<T>)
    requires done <= more
    ensures Remaining(s, more) <= Remaining(s, done)
  {
    if s != [] {
      RemainingShrinks(s[..|s| - 1], done, more);
    }
  }

  lemma OccurrencesAppend<T>(s: seq<T>, y: T, x: T)
    ensures Occurrences(s + [y], x) == Occurrences(s, x) + (if y == x then 1 else 0)
  {
    assert (s + [y])[..|s|] == s;
  }

  lemma OccurrencesStep<T>(s: seq<T>, j: nat, x: T)
    requires j < |s|
    ensures Occurrences(s[..j + 1], x) == Occurrences(s[..j], x) + (if s[j] == x then 1 else 0)
  {
    assert s[..j + 1][..j] == s[..j];
  }

  lemma {:induction false} OccurrencesOfPrefix<T>(s: seq<T>, j: nat, x: T)
    requires j <= |s|
    ensures Occurrences(s[..j], x) <= Occurrences(s, x)
    decreases |s| - j
  {
    if j == |s| {
      assert s[..j] == s;
    } else {
      OccurrencesStep(s, j, x);
      OccurrencesOfPrefix(s, j + 1, x);
    }
  }

  function Members<T(==)>(s: seq<T>): set<T>
  {
    set x | x in s
  }

  lemma {:induction false} DistinctCount<T>(s: seq<T>)
    requires Distinct(s)
    ensures |Members(s)| == |s|
  {
    if s == [] {
      assert Members(s) == {};
    } else {
      var init, last := s[..|s| - 1], s[|s| - 1];
      DistinctCount(init);
      assert s == init + [last];
      assert Members(s) == Members(init) + {last};
    }
  }

  lemma SubsetCount<T>(a: set<T>, b: set<T>)
    requires a <= b
    ensures |a| <= |b| && (|a| == |b| ==> a == b)
  {
    assert b == a + (b - a);
    assert |b| == |a| + |b - a|;
  }

  lemma SomethingLeft<T>(a: set<T>, b: set<T>)
    requires a <= b && a != b
    ensures b - a != {}
  {
    assert !(b <= a);
    var x :| x in b && x !in a;
    assert x in b - a;
  }

  /** A list that is longer than the set it draws from repeats an entry. */
  lemma Pigeonhole<T>(s: seq<T>, pool: set<T>)
    requires |s| > |pool| && forall x :: x in s ==> x in pool
    ensures exists i, j :: 0 <= i < j < |s| && s[i] == s[j]
  {
    if Distinct(s) {
      DistinctCount(s);
      SubsetCount(Members(s), pool);
    }
  }
}
