/**
 * Dot-separated service ids (`*`, `api`, `api.app`) and the priority order
 * that `Project.insertServiceRegex` keeps its match table sorted by.
 */
module Ids {

  /** Labels of `s` as JavaScript's `s.split('.')` gives them: never empty;
      leading, trailing or doubled dots give empty labels. */
  function Split(s: string): (labels: seq<string>)
    ensures |labels| >= 1
    decreases |s|
  {
    if s == [] then [""]
    else
      var rest := Split(s[1..]);
      if s[0] == '.' then [""] + rest
      else [[s[0]] + rest[0]] + rest[1..]
  }

  /** No label of a split id contains a dot. */
  lemma {:induction false} SplitNoDots(s: string)
    ensures forall l :: l in Split(s) ==> '.' !in l
    decreases |s|
  {
    if s != [] {
      SplitNoDots(s[1..]);
      var rest := Split(s[1..]);
      if s[0] != '.' {
        assert rest[0] in rest;
        assert forall l :: l in rest[1..] ==> l in rest;
      }
    }
  }

  /** `labels.join('.')`. */
  function JoinDot(labels: seq<string>): string
  {
    if labels == [] then ""
    else if |labels| == 1 then labels[0]
    else labels[0] + "." + JoinDot(labels[1..])
  }

  /** Joining the labels of an id gives back the id. */
  lemma {:induction false} JoinSplit(s: string)
    ensures JoinDot(Split(s)) == s
    decreases |s|
  {
    if s != [] {
      JoinSplit(s[1..]);
      var rest := Split(s[1..]);
      if s[0] == '.' {
        assert s == "." + s[1..];
      } else {
        if |rest| == 1 {
          assert s == [s[0]] + rest[0];
        } else {
          assert rest == [rest[0]] + rest[1..];
          assert JoinDot(rest) == rest[0] + "." + JoinDot(rest[1..]);
          assert s == [s[0]] + rest[0] + "." + JoinDot(rest[1..]);
        }
      }
    }
  }

  /** Splitting a word without dots followed by more text glues the word to
      the first label of the rest. */
  lemma {:induction false} SplitWordPrefix(w: string, rest: string)
    requires '.' !in w
    ensures Split(w + rest) == [w + Split(rest)[0]] + Split(rest)[1..]
    decreases |w|
  {
    if w != [] {
      assert (w + rest)[1..] == w[1..] + rest;
      assert (w + rest)[0] == w[0];
      SplitWordPrefix(w[1..], rest);
      assert [w[0]] + (w[1..] + Split(rest)[0]) == w + Split(rest)[0];
    } else {
      assert w + rest == rest;
      assert w + Split(rest)[0] == Split(rest)[0];
      assert Split(rest) == [Split(rest)[0]] + Split(rest)[1..];
    }
  }

  /** Splitting joined labels gives the labels back, provided none contains a
      dot (otherwise the split would cut it apart). */
  lemma {:induction false} SplitJoin(labels: seq<string>)
    requires |labels| >= 1
    requires forall l :: l in labels ==> '.' !in l
    ensures Split(JoinDot(labels)) == labels
  {
    if |labels| == 1 {
      SplitWordPrefix(labels[0], "");
      assert labels[0] + "" == labels[0];
    } else {
      var tail := labels[1..];
      assert forall l :: l in tail ==> l in labels;
      SplitJoin(tail);
      var w := labels[0];
      assert JoinDot(labels) == w + ("." + JoinDot(tail));
      SplitWordPrefix(w, "." + JoinDot(tail));
      assert ("." + JoinDot(tail))[1..] == JoinDot(tail);
      assert Split("." + JoinDot(tail)) == [""] + tail;
      assert w + "" == w;
    }
  }

  /** Whether a label is the wildcard label. */
  predicate IsWild(part: string)
  {
    part == "*"
  }

  /** The wildcard tie-break: scans positions i-1 down to 0 and decides at the
      first (rightmost) one where exactly one side is a wildcard. */
  function WildDiff(a: seq<string>, b: seq<string>, i: nat): (r: int)
    requires i <= |a| && i <= |b|
    ensures -1 <= r <= 1
  {
    if i == 0 then 0
    else if IsWild(a[i - 1]) == IsWild(b[i - 1]) then WildDiff(a, b, i - 1)
    else if IsWild(a[i - 1]) then 1
    else -1
  }

  /** The comparator of `insertServiceRegex`: negative when `a` has the higher
      priority (it sorts first), positive when `b` has, zero on a tie. */
  function Compare(a: string, b: string): (r: int)
    ensures |Split(a)| != |Split(b)| ==> (r < 0 <==> |Split(a)| > |Split(b)|)
  {
    var la, lb := Split(a), Split(b);
    var lengthSort := |lb| - |la|;
    if lengthSort != 0 then lengthSort else WildDiff(la, lb, |la|)
  }

  /** Position k is where two label sequences of equal length first differ
      in wildcard status, scanning from the right. */
  ghost predicate RightmostWildDifference(a: seq<string>, b: seq<string>, k: int)
    requires |a| == |b|
  {
    && 0 <= k < |a|
    && IsWild(a[k]) != IsWild(b[k])
    && forall j :: k < j < |a| ==> IsWild(a[j]) == IsWild(b[j])
  }

  lemma {:induction false} WildDiffSpec(a: seq<string>, b: seq<string>, i: nat)
    requires |a| == |b| && i <= |a|
    ensures WildDiff(a, b, i) == 0 <==> forall j :: 0 <= j < i ==> IsWild(a[j]) == IsWild(b[j])
    ensures forall k :: 0 <= k < i && IsWild(a[k]) != IsWild(b[k])
              && (forall j :: k < j < i ==> IsWild(a[j]) == IsWild(b[j]))
              ==> WildDiff(a, b, i) == (if IsWild(a[k]) then 1 else -1)
  {
    if i > 0 {
      WildDiffSpec(a, b, i - 1);
    }
  }

  /** The priority rule: more labels first; on equal label counts, the
      rightmost position where exactly one label is `*` decides, the
      non-wildcard side first; a tie when there is no such position. */
  lemma CompareSpec(a: string, b: string)
    ensures |Split(a)| > |Split(b)| ==> Compare(a, b) < 0
    ensures |Split(a)| < |Split(b)| ==> Compare(a, b) > 0
    ensures |Split(a)| == |Split(b)| ==>
      (Compare(a, b) == 0 <==> forall j :: 0 <= j < |Split(a)| ==> IsWild(Split(a)[j]) == IsWild(Split(b)[j]))
    ensures forall k :: |Split(a)| == |Split(b)| && RightmostWildDifference(Split(a), Split(b), k) ==>
      Compare(a, b) == (if IsWild(Split(a)[k]) then 1 else -1)
  {
    var la, lb := Split(a), Split(b);
    if |la| == |lb| {
      WildDiffSpec(la, lb, |la|);
    }
  }

  lemma {:induction false} WildDiffAntisymmetric(a: seq<string>, b: seq<string>, i: nat)
    requires i <= |a| && i <= |b|
    ensures WildDiff(a, b, i) == -WildDiff(b, a, i)
  {
    if i > 0 {
      WildDiffAntisymmetric(a, b, i - 1);
    }
  }

  /** Swapping the arguments negates the comparison. */
  lemma CompareAntisymmetric(a: string, b: string)
    ensures Compare(a, b) == -Compare(b, a)
  {
    var la, lb := Split(a), Split(b);
    if |la| == |lb| {
      WildDiffAntisymmetric(la, lb, |la|);
    }
  }

  lemma {:induction false} WildDiffTransitive(a: seq<string>, b: seq<string>, c: seq<string>, i: nat)
    requires i <= |a| && i <= |b| && i <= |c|
    ensures WildDiff(a, b, i) <= 0 && WildDiff(b, c, i) <= 0 ==> WildDiff(a, c, i) <= 0
    ensures WildDiff(a, b, i) < 0 && WildDiff(b, c, i) <= 0 ==> WildDiff(a, c, i) < 0
    ensures WildDiff(a, b, i) <= 0 && WildDiff(b, c, i) < 0 ==> WildDiff(a, c, i) < 0
  {
    if i > 0 {
      WildDiffTransitive(a, b, c, i - 1);
    }
  }

  /** Compare is a total preorder: "sorts no later than" is transitive, and
      so is "sorts strictly before" when chained with it on either side. */
  lemma CompareTransitive(a: string, b: string, c: string)
    ensures Compare(a, b) <= 0 && Compare(b, c) <= 0 ==> Compare(a, c) <= 0
    ensures Compare(a, b) < 0 && Compare(b, c) <= 0 ==> Compare(a, c) < 0
    ensures Compare(a, b) <= 0 && Compare(b, c) < 0 ==> Compare(a, c) < 0
  {
    var la, lb, lc := Split(a), Split(b), Split(c);
    if |la| == |lb| == |lc| {
      WildDiffTransitive(la, lb, lc, |la|);
    }
  }

  /** Ids in non-decreasing priority order (highest priority first). */
  predicate Ordered(ids: seq<string>)
  {
    forall i, j :: 0 <= i < j < |ids| ==> Compare(ids[i], ids[j]) <= 0
  }

  ghost predicate SortedBy(a: seq<string>, cmp: (string, string) -> int)
  {
    forall i, j :: 0 <= i < j < |a| ==> cmp(a[i], a[j]) <= 0
  }

  lemma SortedByTail(a: seq<string>, cmp: (string, string) -> int)
    requires a != [] && SortedBy(a, cmp)
    ensures SortedBy(a[1..], cmp)
  {
    forall i, j | 0 <= i < j < |a| - 1 ensures cmp(a[1..][i], a[1..][j]) <= 0 {
      assert a[1..][i] == a[i + 1] && a[1..][j] == a[j + 1];
    }
  }

  /** The first element of a sorted list is ranked no lower than any member. */
  lemma SortedByHead(a: seq<string>, cmp: (string, string) -> int, x: string)
    requires SortedBy(a, cmp) && x in a && cmp(a[0], a[0]) == 0
    ensures cmp(a[0], x) <= 0
  {
    var m :| 0 <= m < |a| && a[m] == x;
    if m > 0 {
      assert cmp(a[0], a[m]) <= 0;
    }
  }

  lemma MultisetTail(a: seq<string>, b: seq<string>)
    requires a != [] && b != [] && a[0] == b[0] && multiset(a) == multiset(b)
    ensures multiset(a[1..]) == multiset(b[1..])
  {
    assert a == [a[0]] + a[1..];
    assert b == [b[0]] + b[1..];
    assert multiset(a) == multiset{a[0]} + multiset(a[1..]);
    assert multiset(b) == multiset{b[0]} + multiset(b[1..]);
    assert multiset(a[1..]) == multiset(a) - multiset{a[0]};
    assert multiset(b[1..]) == multiset(b) - multiset{b[0]};
  }

  lemma MultisetHeads(a: seq<string>, b: seq<string>)
    requires a != [] && multiset(a) == multiset(b)
    ensures b != [] && a[0] in b && b[0] in a
  {
    assert a[0] in multiset(b);
    assert b != [] && b[0] in multiset(a);
  }

  lemma HeadTail(a: seq<string>, b: seq<string>)
    requires a != [] && b != [] && a[0] == b[0] && a[1..] == b[1..]
    ensures a == b
  {
    assert a == [a[0]] + a[1..] && b == [b[0]] + b[1..];
  }

  lemma TailMembers(a: seq<string>)
    requires a != []
    ensures forall x :: x in a[1..] ==> x in a
  {
  }

  /** Sorting with an antisymmetric comparator has only one possible outcome
      when no two different elements tie. */
  lemma {:induction false} SortedUniqueBy(a: seq<string>, b: seq<string>, cmp: (string, string) -> int)
    requires forall x, y :: cmp(x, y) == -cmp(y, x)
    requires SortedBy(a, cmp) && SortedBy(b, cmp) && multiset(a) == multiset(b)
    requires forall x, y :: x in a && y in a && x != y ==> cmp(x, y) != 0
    ensures a == b
  {
    if a != [] {
      MultisetHeads(a, b);
      assert cmp(b[0], b[0]) == -cmp(b[0], b[0]);
      assert cmp(a[0], a[0]) == -cmp(a[0], a[0]);
      SortedByHead(a, cmp, b[0]);
      SortedByHead(b, cmp, a[0]);
      assert cmp(a[0], b[0]) == 0;
      MultisetTail(a, b);
      SortedByTail(a, cmp);
      SortedByTail(b, cmp);
      TailMembers(a);
      SortedUniqueBy(a[1..], b[1..], cmp);
      HeadTail(a, b);
    }
  }

  /** A list of ids ordered by priority is determined by its contents when
      no two different ids tie. */
  lemma OrderedUnique(a: seq<string>, b: seq<string>)
    requires Ordered(a) && Ordered(b) && multiset(a) == multiset(b)
    requires forall x, y :: x in a && y in a && x != y ==> Compare(x, y) != 0
    ensures a == b
  {
    forall x, y ensures Compare(x, y) == -Compare(y, x) {
      CompareAntisymmetric(x, y);
    }
    SortedUniqueBy(a, b, Compare);
  }
}
