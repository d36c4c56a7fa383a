/**
  The ordered set of the Python client: a sorted list without repeats, with insertion by
  binary search and a merge that walks two lists in lockstep.
 */
module OrderedSets {

  predicate Ascending(s: seq<int>) {
    forall i, j | 0 <= i < j < |s| :: s[i] < s[j]
  }

  function Elements(s: seq<int>): set<int> {
    set x | x in s
  }

  lemma AscendingSnoc(s: seq<int>, x: int)
    requires Ascending(s) && forall y | y in s :: y < x
    ensures Ascending(s + [x])
  {
    forall i, j | 0 <= i < j < |s + [x]| ensures (s + [x])[i] < (s + [x])[j] {
      assert s[i] in s;
    }
  }

  /** The last element is the greatest, and the list without it has the others. */
  lemma LastIsGreatest(s: seq<int>)
    requires Ascending(s) && s != []
    ensures var last := s[|s| - 1];
            && last in Elements(s) && (forall x | x in Elements(s) :: x <= last)
            && Elements(s[..|s| - 1]) == Elements(s) - {last}
  {
  }

  /** A set has one ascending list. */
  lemma {:induction false} AscendingIsCanonical(s: seq<int>, t: seq<int>)
    requires Ascending(s) && Ascending(t) && Elements(s) == Elements(t)
    ensures s == t
  {
    if s != [] {
      LastIsGreatest(s);
      assert t != [];
    }
    if t != [] {
      LastIsGreatest(t);
      assert s != [];
      AscendingIsCanonical(s[..|s| - 1], t[..|t| - 1]);
      assert s == s[..|s| - 1] + [s[|s| - 1]] && t == t[..|t| - 1] + [t[|t| - 1]];
    }
  }

  /** `value` fits between the elements before and from `at`. */
  predicate Fits(s: seq<int>, at: nat, value: int) {
    at <= |s| && (forall i | 0 <= i < at :: s[i] < value) && forall i | at <= i < |s| :: value < s[i]
  }

  method IndexOf(s: seq<int>, value: int) returns (index: nat, present: bool)
    requires Ascending(s)
    ensures present <==> value in s
    ensures if present then index < |s| && s[index] == value else Fits(s, index, value)
  {
    var low, high := 0, |s|;
    while low < high
      invariant 0 <= low <= high <= |s|
      invariant forall i | 0 <= i < low :: s[i] < value
      invariant forall i | high <= i < |s| :: value < s[i]
    {
      var middle := low + (high - low) / 2;
      if value == s[middle] {
        return middle, true;
      } else if value < s[middle] {
        high := middle;
      } else {
        low := middle + 1;
      }
    }
    return low, false;
  }

  lemma InsertAt(s: seq<int>, at: nat, value: int)
    requires Ascending(s) && Fits(s, at, value)
    ensures Ascending(s[..at] + [value] + s[at..])
    ensures Elements(s[..at] + [value] + s[at..]) == Elements(s) + {value}
  {
  }

  lemma ElementsOneMore(s: seq<int>, i: nat)
    requires i < |s|
    ensures Elements(s[..i + 1]) == Elements(s[..i]) + {s[i]}
  {
  }

  class ListBasedOrderedSet {
    var lst: seq<int>

    ghost predicate Valid()
      reads this
    {
      Ascending(lst)
    }

    constructor ()
      ensures Valid() && lst == []
    {
      lst := [];
    }

    /** The values are inserted one by one; a list that is already ascending stays as it is. */
    constructor FromList(values: seq<int>)
      ensures Valid() && Elements(lst) == Elements(values)
      ensures Ascending(values) ==> lst == values
    {
      lst := [];
      new;
      for i := 0 to |values|
        invariant Valid() && Elements(lst) == Elements(values[..i])
      {
        ElementsOneMore(values, i);
        Insert(values[i]);
      }
      assert values[..|values|] == values;
      if Ascending(values) {
        AscendingIsCanonical(lst, values);
      }
    }

    method Insert(value: int)
      requires Valid()
      modifies this
      ensures Valid() && Elements(lst) == Elements(old(lst)) + {value}
    {
      if |lst| == 0 || value > lst[|lst| - 1] {
        assert Fits(lst, |lst|, value);
        InsertAt(lst, |lst|, value);
        assert lst[..|lst|] + [value] + lst[|lst|..] == lst + [value];
        lst := lst + [value];
      } else {
        var index, present := IndexOf(lst, value);
        if !present {
          InsertAt(lst, index, value);
          lst := lst[..index] + [value] + lst[index..];
        }
      }
    }
  }

  /** The lists are merged up to `i` and `j`: what is left is greater. */
  ghost predicate MergedUpTo(us: seq<int>, other: seq<int>, i: nat, j: nat, merged: seq<int>) {
    && i <= |us| && j <= |other| && Ascending(merged)
    && (forall k | 0 <= k < i :: us[k] in merged) && (forall k | 0 <= k < j :: other[k] in merged)
    && (forall x | x in merged :: x in us || x in other)
    && (forall x, k | x in merged && i <= k < |us| :: x < us[k])
    && forall x, k | x in merged && j <= k < |other| :: x < other[k]
  }

  /** The lesser of the two next elements comes next. */
  lemma MergeOneMore(us: seq<int>, other: seq<int>, i: nat, j: nat, merged: seq<int>, i': nat, j': nat, x: int)
    requires Ascending(us) && Ascending(other) && MergedUpTo(us, other, i, j, merged)
    requires i' == i + (if i < |us| && us[i] == x then 1 else 0)
    requires j' == j + (if j < |other| && other[j] == x then 1 else 0)
    requires (i < |us| ==> x <= us[i]) && (j < |other| ==> x <= other[j])
    requires i' > i || j' > j
    ensures MergedUpTo(us, other, i', j', merged + [x])
  {
    AscendingSnoc(merged, x);
  }

  /** One list is exhausted; the rest of the other follows. */
  lemma MergeRest(us: seq<int>, other: seq<int>, j: nat, merged: seq<int>)
    requires Ascending(other) && MergedUpTo(us, other, |us|, j, merged)
    ensures Ascending(merged + other[j..]) && Elements(merged + other[j..]) == Elements(us) + Elements(other)
  {
    var all := merged + other[j..];
    forall k, n | 0 <= k < n < |all| ensures all[k] < all[n] {
      if k < |merged| {
        assert merged[k] in merged;
      }
    }
    forall k | 0 <= k < |other| ensures other[k] in all {
      if k >= j {
        assert other[k] == all[|merged| + k - j];
      }
    }
    forall x | x in all ensures x in us || x in other {
    }
  }

  lemma MergedUpToSwapped(us: seq<int>, other: seq<int>, i: nat, j: nat, merged: seq<int>)
    requires MergedUpTo(us, other, i, j, merged)
    ensures MergedUpTo(other, us, j, i, merged)
  {
  }

  /** The lockstep merge is the ascending list of the union. */
  method Merge(us: seq<int>, other: seq<int>) returns (merged: seq<int>)
    requires Ascending(us) && Ascending(other)
    ensures Ascending(merged) && Elements(merged) == Elements(us) + Elements(other)
  {
    merged := [];
    var i, j := 0, 0;
    while i < |us| || j < |other|
      invariant MergedUpTo(us, other, i, j, merged)
      decreases |us| - i + |other| - j
    {
      if i == |us| {
        MergeRest(us, other, j, merged);
        return merged + other[j..];
      } else if j == |other| {
        MergedUpToSwapped(us, other, i, j, merged);
        MergeRest(other, us, i, merged);
        return merged + us[i..];
      } else {
        var a, b := us[i], other[j];
        if a == b {
          MergeOneMore(us, other, i, j, merged, i + 1, j + 1, a);
          merged, i, j := merged + [a], i + 1, j + 1;
        } else if a < b {
          MergeOneMore(us, other, i, j, merged, i + 1, j, a);
          merged, i := merged + [a], i + 1;
        } else {
          MergeOneMore(us, other, i, j, merged, i, j + 1, b);
          merged, j := merged + [b], j + 1;
        }
      }
    }
    MergeRest(us, other, j, merged);
    assert merged + other[j..] == merged;
  }

  /** The relation between arguments and result that `Merge` establishes. */
  ghost predicate IsMerge(a: seq<int>, b: seq<int>, r: seq<int>) {
    Ascending(r) && Elements(r) == Elements(a) + Elements(b)
  }

  /** Merging commutes, associates and is idempotent, as lists and not only as sets. */
  lemma MergeLaws(a: seq<int>, b: seq<int>, c: seq<int>, ab: seq<int>, ba: seq<int>, bc: seq<int>, l: seq<int>, r: seq<int>,
                  aa: seq<int>)
    requires Ascending(a) && IsMerge(a, a, aa)
    requires IsMerge(a, b, ab) && IsMerge(b, a, ba) && IsMerge(b, c, bc) && IsMerge(ab, c, l) && IsMerge(a, bc, r)
    ensures ab == ba && l == r && aa == a
  {
    AscendingIsCanonical(ab, ba);
    AscendingIsCanonical(l, r);
    AscendingIsCanonical(aa, a);
  }
}
