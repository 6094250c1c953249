/** Sorting, removing duplicates and filtering lists of numbers, as the standard library does it. */
module OrderedSets {
  predicate StrictlyIncreasing(s: seq<int>) {
    forall i, j | 0 <= i < j < |s| :: s[i] < s[j]
  }

  predicate NonDecreasing(s: seq<int>) {
    forall i, j | 0 <= i < j < |s| :: s[i] <= s[j]
  }

  /** The check over neighbouring pairs the source uses. */
  predicate Ascending(s: seq<int>) {
    forall i | 0 < i < |s| :: s[i - 1] < s[i]
  }

  lemma {:induction false} AscendingIsStrict(s: seq<int>)
    ensures Ascending(s) <==> StrictlyIncreasing(s)
  {
    if Ascending(s) && s != [] {
      var front := s[..|s| - 1];
      AscendingIsStrict(front);
      forall i, j | 0 <= i < j < |s| ensures s[i] < s[j] {
        if j == |s| - 1 && i < j - 1 {
          assert front[i] < front[j - 1];
        } else if j < |s| - 1 {
          assert front[i] < front[j];
        }
      }
    }
  }

  function Insert(x: int, s: seq<int>): (r: seq<int>)
    ensures forall y :: y in r <==> y == x || y in s
  {
    if s == [] || x <= s[0] then [x] + s else [s[0]] + Insert(x, s[1..])
  }

  lemma {:induction false} InsertKeepsOrder(x: int, s: seq<int>)
    requires NonDecreasing(s)
    ensures NonDecreasing(Insert(x, s))
  {
    if s != [] && x > s[0] {
      InsertKeepsOrder(x, s[1..]);
      var rest := Insert(x, s[1..]);
      forall j | 0 <= j < |rest| ensures s[0] <= rest[j] {
        assert rest[j] in rest;
      }
    }
  }

  function Sort(s: seq<int>): (r: seq<int>)
    ensures forall x :: x in r <==> x in s
  {
    if s == [] then [] else Insert(s[0], Sort(s[1..]))
  }

  lemma {:induction false} SortOrders(s: seq<int>)
    ensures NonDecreasing(Sort(s))
  {
    if s != [] {
      SortOrders(s[1..]);
      InsertKeepsOrder(s[0], Sort(s[1..]));
    }
  }

  /** Removes equal neighbours. */
  function Dedup(s: seq<int>): (r: seq<int>)
    ensures forall x :: x in r <==> x in s
    ensures s != [] ==> r != [] && r[0] == s[0]
  {
    if |s| <= 1 then s
    else if s[0] == s[1] then Dedup(s[1..])
    else [s[0]] + Dedup(s[1..])
  }

  lemma {:induction false} DedupIncreases(s: seq<int>)
    requires NonDecreasing(s)
    ensures StrictlyIncreasing(Dedup(s))
  {
    if |s| > 1 {
      DedupIncreases(s[1..]);
      if s[0] != s[1] {
        var rest := Dedup(s[1..]);
        forall j | 0 <= j < |rest| ensures s[0] < rest[j] {
          assert rest[0] <= rest[j];
        }
      }
    }
  }

  function Without(s: seq<int>, x: int): (r: seq<int>)
    ensures forall y :: y in r <==> y in s && y != x
    ensures |r| <= |s|
  {
    if s == [] then [] else if s[0] == x then Without(s[1..], x) else [s[0]] + Without(s[1..], x)
  }

  lemma {:induction false} WithoutIncreases(s: seq<int>, x: int)
    requires StrictlyIncreasing(s)
    ensures StrictlyIncreasing(Without(s, x))
  {
    if s != [] {
      WithoutIncreases(s[1..], x);
      var rest := Without(s[1..], x);
      forall j | 0 <= j < |rest| ensures s[0] < rest[j] {
        assert rest[j] in s[1..];
      }
    }
  }

  /** A set has one increasing list. */
  lemma {:induction false} IncreasingIsUnique(s: seq<int>, t: seq<int>)
    requires StrictlyIncreasing(s) && StrictlyIncreasing(t)
    requires forall x :: x in s <==> x in t
    ensures s == t
  {
    assert s != [] ==> s[0] in s;
    assert t != [] ==> t[0] in t;
    if s != [] && t != [] {
      forall x ensures x in s[1..] <==> x in t[1..] {
        assert x in s[1..] <==> x in s && x != s[0];
        assert x in t[1..] <==> x in t && x != t[0];
      }
      IncreasingIsUnique(s[1..], t[1..]);
    }
  }

  /** The increasing list of a list's elements. */
  function Sorted(s: seq<int>): (r: seq<int>)
    ensures forall x :: x in r <==> x in s
  {
    Dedup(Sort(s))
  }

  lemma SortedIncreases(s: seq<int>)
    ensures StrictlyIncreasing(Sorted(s))
  {
    SortOrders(s);
    DedupIncreases(Sort(s));
  }

  /** An increasing list is the sorted form of every list with the same elements, and of no other. */
  lemma SortedIsCanonical(s: seq<int>, t: seq<int>)
    ensures t == Sorted(s) <==> StrictlyIncreasing(t) && forall x :: x in t <==> x in s
  {
    SortedIncreases(s);
    if StrictlyIncreasing(t) && forall x :: x in t <==> x in s {
      IncreasingIsUnique(t, Sorted(s));
    }
  }
}
