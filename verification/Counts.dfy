/**
 Count maps: `matchCounts` and `equalCounts`. A map holds how often each token was
 counted, and the comparison of two maps is that of the collections counted.
 */
module Counts {

  /** A count map holds a multiset: a key is present exactly when it was counted. */
  ghost predicate Holds<K(!new)>(counts: map<K, nat>, counted: multiset<K>) {
    forall key :: (key in counts <==> key in counted) && (key in counts ==> counts[key] == counted[key])
  }

  /** A missing key reads as zero. */
  function Count<K>(counts: map<K, nat>, key: K): nat {
    if key in counts then counts[key] else 0
  }

  lemma OneCounted<K(!new)>(counts: map<K, nat>, counted: multiset<K>, key: K)
    requires Holds(counts, counted)
    ensures Holds(counts[key := Count(counts, key) + 1], counted + multiset{key})
  {
  }

  method MatchCounts<K(!new, ==)>(tokens: seq<K>) returns (counts: map<K, nat>)
    ensures Holds(counts, multiset(tokens))
  {
    counts := map[];
    for n := 0 to |tokens|
      invariant Holds(counts, multiset(tokens[..n]))
    {
      assert tokens[..n + 1] == tokens[..n] + [tokens[n]];
      OneCounted(counts, multiset(tokens[..n]), tokens[n]);
      counts := counts[tokens[n] := Count(counts, tokens[n]) + 1];
    }
    assert tokens[..|tokens|] == tokens;
  }

  /** `equalCounts` as it decides: as many keys, and every key of the left counted as often on the right. */
  ghost predicate Agree<K(!new)>(left: map<K, nat>, right: map<K, nat>) {
    |left| == |right| && forall key :: key in left ==> Count(right, key) == left[key]
  }

  method EqualCounts<K(!new, ==)>(left: map<K, nat>, right: map<K, nat>) returns (same: bool)
    ensures same <==> Agree(left, right)
  {
    if |left| != |right| {
      return false;
    }
    var todo := left.Keys;
    while todo != {}
      invariant todo <= left.Keys
      invariant forall key :: key in left.Keys - todo ==> Count(right, key) == left[key]
      decreases todo
    {
      var key :| key in todo;
      if Count(right, key) != left[key] {
        return false;
      }
      todo := todo - {key};
    }
    return true;
  }

  /** For maps that count something, agreeing means that the same tokens were counted as often. */
  lemma AgreeMeansEqual<K(!new)>(left: map<K, nat>, right: map<K, nat>, a: multiset<K>, b: multiset<K>)
    requires Holds(left, a) && Holds(right, b)
    ensures Agree(left, right) <==> a == b
  {
    if Agree(left, right) {
      assert forall key :: key in left.Keys ==> key in right.Keys;
      SameSize(left.Keys, right.Keys);
      assert forall key :: a[key] == b[key];
    } else if a == b {
      SameCounts(left, right, a);
    }
  }

  lemma SameCounts<K(!new)>(left: map<K, nat>, right: map<K, nat>, counted: multiset<K>)
    requires Holds(left, counted) && Holds(right, counted)
    ensures Agree(left, right)
  {
    assert left.Keys == right.Keys;
    assert |left.Keys| == |left| && |right.Keys| == |right|;
  }

  lemma SameSize<K>(a: set<K>, b: set<K>)
    requires |a| == |b| && a <= b
    ensures a == b
  {
    assert |b - a| == 0;
  }

  /** `comparePattern`: an issue exactly when some token occurs more or less often. */
  method ComparePattern<K(!new, ==)>(source: seq<K>, output: seq<K>) returns (changed: bool)
    ensures changed <==> multiset(source) != multiset(output)
  {
    var expected := MatchCounts(source);
    var actual := MatchCounts(output);
    var same := EqualCounts(expected, actual);
    AgreeMeansEqual(expected, actual, multiset(source), multiset(output));
    changed := !same;
  }
}
