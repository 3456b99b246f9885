/** Times of day at minute resolution and the `sort` + `dedup` normalisation the
    repository applies to every list of departure times. */
module Times {

  /** A `NaiveTime` truncated to whole minutes since midnight. */
  type MinuteOfDay = m: int | 0 <= m < 1440

  const MinutesPerDay := 1440

  predicate Sorted(s: seq<int>)
  {
    forall i, j :: 0 <= i <= j < |s| ==> s[i] <= s[j]
  }

  predicate StrictlyIncreasing(s: seq<int>)
  {
    forall i, j :: 0 <= i < j < |s| ==> s[i] < s[j]
  }

  /** Strictness between neighbours is enough for strictness everywhere. */
  lemma {:induction false} NeighboursStrictlyIncreasing(s: seq<int>)
    requires forall k :: 0 < k < |s| ==> s[k - 1] < s[k]
    ensures StrictlyIncreasing(s)
    decreases |s|
  {
    if |s| > 1 {
      NeighboursStrictlyIncreasing(s[1..]);
      forall i, j | 0 <= i < j < |s|
        ensures s[i] < s[j]
      {
        if i > 0 {
          assert s[1..][i - 1] < s[1..][j - 1];
        } else if j > 1 {
          assert s[1..][0] < s[1..][j - 1];
        }
      }
    }
  }

  function Insert(x: MinuteOfDay, s: seq<MinuteOfDay>): (r: seq<MinuteOfDay>)
    requires Sorted(s)
    ensures Sorted(r)
    ensures multiset(r) == multiset(s) + multiset{x}
    decreases |s|
  {
    if s == [] then [x]
    else if x <= s[0] then [x] + s
    else
      assert s == [s[0]] + s[1..];
      var rest := Insert(x, s[1..]);
      InsertedAbove(s[0], x, s[1..], rest);
      [s[0]] + rest
  }

  /** Putting `h` in front of a list of elements no smaller keeps it sorted. */
  lemma InsertedAbove(h: MinuteOfDay, x: MinuteOfDay, t: seq<MinuteOfDay>, rest: seq<MinuteOfDay>)
    requires Sorted([h] + t) && h < x && Sorted(rest)
    requires multiset(rest) == multiset(t) + multiset{x}
    ensures Sorted([h] + rest)
  {
    forall k | 0 <= k < |rest|
      ensures h <= rest[k]
    {
      assert rest[k] in multiset(rest);
      if rest[k] != x {
        assert rest[k] in t;
        var i :| 0 <= i < |t| && t[i] == rest[k];
        assert ([h] + t)[0] == h && ([h] + t)[i + 1] == rest[k];
      }
    }
  }

  /** `Vec::sort` on departure times: an ordered permutation. */
  function Sort(s: seq<MinuteOfDay>): (r: seq<MinuteOfDay>)
    ensures Sorted(r)
    ensures multiset(r) == multiset(s)
    decreases |s|
  {
    if s == [] then []
    else
      assert s == [s[0]] + s[1..];
      Insert(s[0], Sort(s[1..]))
  }

  /** `Vec::dedup`: drops every element equal to the one kept before it. */
  function Dedup(s: seq<MinuteOfDay>): (r: seq<MinuteOfDay>)
    ensures |r| <= |s|
    ensures |s| > 0 ==> |r| > 0 && r[0] == s[0]
    ensures forall x :: x in r <==> x in s
    ensures Sorted(s) ==> StrictlyIncreasing(r)
    decreases |s|
  {
    if |s| <= 1 then s
    else
      var rest := Dedup(s[1..]);
      if s[0] == s[1] then rest
      else
        assert forall x :: x in rest ==> x in s[1..];
        [s[0]] + rest
  }

  /** `sort()` followed by `dedup()`: the distinct times in increasing order. */
  function SortDedup(s: seq<MinuteOfDay>): (r: seq<MinuteOfDay>)
    ensures StrictlyIncreasing(r)
    ensures forall x :: x in r <==> x in s
  {
    var sorted := Sort(s);
    assert forall x :: x in sorted <==> x in multiset(s);
    Dedup(sorted)
  }

  /** Normalising twice changes nothing: a strictly increasing list is its own
      sorted, deduplicated form. */
  lemma SortDedupOfIncreasing(s: seq<MinuteOfDay>)
    requires StrictlyIncreasing(s)
    ensures SortDedup(s) == s
  {
    var r := SortDedup(s);
    IncreasingDetermined(r, s);
  }

  /** Two strictly increasing lists with the same elements are equal. */
  lemma {:induction false} IncreasingDetermined(a: seq<int>, b: seq<int>)
    requires StrictlyIncreasing(a) && StrictlyIncreasing(b)
    requires forall x :: x in a <==> x in b
    ensures a == b
    decreases |a| + |b|
  {
    assert a != [] ==> a[0] in a;
    assert b != [] ==> b[0] in b;
    if a != [] && b != [] {
      assert a[0] == b[0] by {
        assert a[0] in b && b[0] in a;
      }
      forall x
        ensures x in a[1..] <==> x in b[1..]
      {
        if x in a[1..] {
          assert x in b && x > a[0];
        }
        if x in b[1..] {
          assert x in a && x > b[0];
        }
      }
      IncreasingDetermined(a[1..], b[1..]);
      assert a == [a[0]] + a[1..] && b == [b[0]] + b[1..];
    }
  }
}
