/**
 What the text modules share: the order of strings and the sorted enumeration of
 a set of them. A string is a sequence of bytes.
 */
module Strings {

  /** Byte-wise lexicographic order, as `sort.Strings` uses it. */
  predicate Before(a: string, b: string) {
    b != [] && (a == [] || a[0] < b[0] || (a[0] == b[0] && Before(a[1..], b[1..])))
  }

  lemma {:induction false} BeforeIsTotal(a: string, b: string)
    ensures Before(a, b) || Before(b, a) || a == b
    ensures !(Before(a, b) && Before(b, a)) && (a == b ==> !Before(a, b))
  {
    if a != [] && b != [] && a[0] == b[0] {
      BeforeIsTotal(a[1..], b[1..]);
      assert a == [a[0]] + a[1..] && b == [b[0]] + b[1..];
    }
  }

  lemma {:induction false} BeforeIsTransitive(a: string, b: string, c: string)
    requires Before(a, b) && Before(b, c)
    ensures Before(a, c)
  {
    if a != [] && a[0] == b[0] == c[0] {
      BeforeIsTransitive(a[1..], b[1..], c[1..]);
    }
  }

  /** The strings first differ at k, and there the character of the one is less. */
  predicate LessAt(a: string, b: string, k: nat) {
    k < |a| && k < |b| && a[..k] == b[..k] && a[k] < b[k]
  }

  /** A proper prefix comes first; otherwise the first difference decides. */
  lemma {:induction false} BeforeMeans(a: string, b: string)
    ensures Before(a, b) <==> a < b || exists k: nat :: LessAt(a, b, k)
  {
    if a != [] && b != [] {
      if a[0] == b[0] {
        BeforeMeans(a[1..], b[1..]);
        LessLater(a, b);
      } else {
        assert a[0] < b[0] ==> LessAt(a, b, 0);
        assert forall k: nat :: LessAt(a, b, k) ==> k == 0 || a[..k][0] == b[..k][0];
      }
    }
  }

  lemma LessLater(a: string, b: string)
    requires a != [] && b != [] && a[0] == b[0]
    ensures a < b <==> a[1..] < b[1..]
    ensures (exists k: nat :: LessAt(a, b, k)) <==> (exists k: nat :: LessAt(a[1..], b[1..], k))
  {
    assert a == [a[0]] + a[1..] && b == [b[0]] + b[1..];
    if k: nat :| LessAt(a, b, k) {
      assert a[1..][..k - 1] == a[..k][1..] && b[1..][..k - 1] == b[..k][1..];
      assert LessAt(a[1..], b[1..], k - 1);
    }
    if k: nat :| LessAt(a[1..], b[1..], k) {
      assert a[..k + 1] == [a[0]] + a[1..][..k] && b[..k + 1] == [b[0]] + b[1..][..k];
      assert LessAt(a, b, k + 1);
    }
  }

  predicate Ordered(s: seq<string>) {
    forall i, k :: 0 <= i < k < |s| ==> !Before(s[k], s[i])
  }

  ghost function Members(s: seq<string>): set<string> {
    set x | x in s
  }

  lemma OneMore(s: seq<string>, x: string)
    ensures Members(s + [x]) == Members(s) + {x}
  {
    assert forall y :: y in s + [x] <==> y in s || y == x;
  }

  /** There is one way to put strings in order, whatever order they come in. */
  lemma {:induction false} OrderedIsUnique(s: seq<string>, t: seq<string>)
    requires Ordered(s) && Ordered(t) && multiset(s) == multiset(t)
    ensures s == t
    decreases |s|
  {
    SameLength(s, t);
    if s != [] {
      var m := |s| - 1;
      SameLast(s, t);
      WithoutLast(s);
      WithoutLast(t);
      OrderedIsUnique(s[..m], t[..m]);
      assert s == s[..m] + [s[m]] && t == t[..m] + [t[m]];
    }
  }

  lemma SameLast(s: seq<string>, t: seq<string>)
    requires Ordered(s) && Ordered(t) && multiset(s) == multiset(t) && s != [] && t != []
    ensures s[|s| - 1] == t[|t| - 1]
  {
    NoneAfterLast(s, t[|t| - 1]);
    NoneAfterLast(t, s[|s| - 1]);
    BeforeIsTotal(s[|s| - 1], t[|t| - 1]);
  }

  lemma NoneAfterLast(s: seq<string>, x: string)
    requires Ordered(s) && s != []
    ensures s[|s| - 1] in multiset(s)
    ensures x in multiset(s) ==> !Before(s[|s| - 1], x)
  {
    if x in multiset(s) {
      var i :| 0 <= i < |s| && s[i] == x;
      BeforeIsTotal(x, x);
    }
  }

  lemma WithoutLast(s: seq<string>)
    requires s != []
    ensures multiset(s[..|s| - 1]) == multiset(s) - multiset{s[|s| - 1]}
  {
    assert s == s[..|s| - 1] + [s[|s| - 1]];
  }

  lemma SameLength(s: seq<string>, t: seq<string>)
    requires multiset(s) == multiset(t)
    ensures |s| == |t|
  {
    assert |multiset(s)| == |s| && |multiset(t)| == |t|;
  }

  lemma {:induction false} GreatestExists(keys: set<string>)
    requires keys != {}
    ensures exists key :: IsGreatest(keys, key)
    decreases keys
  {
    var some :| some in keys;
    if keys == {some} {
      assert IsGreatest(keys, some);
    } else {
      GreatestExists(keys - {some});
      var key :| IsGreatest(keys - {some}, key);
      BeforeIsTotal(some, key);
      if Before(key, some) {
        forall other | other in keys && other != some ensures Before(other, some) {
          if other != key {
            BeforeIsTransitive(other, key, some);
          }
        }
        assert IsGreatest(keys, some);
      } else {
        assert IsGreatest(keys, key);
      }
    }
  }

  predicate IsGreatest(keys: set<string>, key: string) {
    key in keys && forall other :: other in keys && other != key ==> Before(other, key)
  }

  lemma LastExists(m: multiset<string>)
    requires m != multiset{}
    ensures exists x :: IsLast(m, x)
  {
    var keys := set x | x in m;
    var some :| some in m;
    assert some in keys;
    GreatestExists(keys);
    var key :| IsGreatest(keys, key);
    forall other | other in m ensures !Before(key, other) {
      assert other in keys;
      BeforeIsTotal(key, other);
    }
    assert IsLast(m, key);
  }

  ghost predicate IsLast(m: multiset<string>, x: string) {
    x in m && forall other :: other in m ==> !Before(x, other)
  }

  /** The strings in the order `sort.Strings` puts them. */
  ghost function Sorted(m: multiset<string>): (s: seq<string>)
    ensures Ordered(s) && multiset(s) == m
    decreases |m|
  {
    if m == multiset{} then [] else
      LastExists(m);
      var last :| IsLast(m, last);
      var front := Sorted(m - multiset{last});
      LastAdded(m, front, last);
      front + [last]
  }

  lemma LastAdded(m: multiset<string>, front: seq<string>, last: string)
    requires IsLast(m, last) && Ordered(front) && multiset(front) == m - multiset{last}
    ensures Ordered(front + [last]) && multiset(front + [last]) == m
  {
    assert forall i :: 0 <= i < |front| ==> front[i] in multiset(front);
  }

  /** The keys of a map in order. */
  ghost function InOrder(keys: set<string>): (s: seq<string>)
    ensures forall i :: 0 <= i < |s| ==> s[i] in keys
    ensures forall key :: key in keys ==> key in s
  {
    var s := Sorted(multiset(keys));
    assert forall key :: key in s <==> key in multiset(s);
    assert forall i :: 0 <= i < |s| ==> s[i] in multiset(s);
    s
  }

  lemma SameKeys(a: set<string>, b: set<string>)
    requires InOrder(a) == InOrder(b)
    ensures a == b
  {
  }

  lemma SortedOne(x: string)
    ensures Sorted(multiset([x])) == [x]
  {
    OrderedIsUnique([x], Sorted(multiset([x])));
  }

  /** `sort.Strings`, by insertion. */
  method SortStrings(s: seq<string>) returns (t: seq<string>)
    ensures t == Sorted(multiset(s))
  {
    t := [];
    for n := 0 to |s|
      invariant Ordered(t) && multiset(t) == multiset(s[..n])
    {
      assert s[..n + 1] == s[..n] + [s[n]];
      t := Insert(t, s[n]);
    }
    assert s[..|s|] == s;
    OrderedIsUnique(t, Sorted(multiset(s)));
  }

  method Insert(t: seq<string>, x: string) returns (u: seq<string>)
    requires Ordered(t)
    ensures Ordered(u) && multiset(u) == multiset(t) + multiset{x}
  {
    var k := 0;
    while k < |t| && !Before(x, t[k])
      invariant k <= |t| && forall i :: 0 <= i < k ==> !Before(x, t[i])
    {
      k := k + 1;
    }
    u := t[..k] + [x] + t[k..];
    assert t == t[..k] + t[k..];
    forall i | k <= i < |t| ensures !Before(t[i], x) {
      BeforeIsTotal(x, t[k]);
      if Before(t[i], x) {
        BeforeIsTransitive(t[i], x, t[k]);
      }
    }
  }

  /** The keys of a map, taken in any order and then sorted. */
  method SortedKeys(all: set<string>) returns (keys: seq<string>)
    ensures keys == InOrder(all)
  {
    keys := [];
    var left := all;
    while left != {}
      invariant left <= all && multiset(keys) == multiset(all - left)
      decreases left
    {
      var key :| key in left;
      assert all - (left - {key}) == (all - left) + {key};
      OneMoreKey(all - left, key);
      keys, left := keys + [key], left - {key};
    }
    assert all - left == all;
    keys := SortStrings(keys);
  }

  lemma OneMoreKey(keys: set<string>, key: string)
    requires key !in keys
    ensures multiset(keys + {key}) == multiset(keys) + multiset{key}
  {
  }

  // ---------- Concatenation ----------

  lemma Assoc(a: string, b: string, c: string)
    ensures (a + b) + c == a + (b + c)
  {
  }

  /** What follows a common beginning. */
  lemma Drop(word: string, x: string, y: string)
    requires word + x == word + y
    ensures x == y
  {
    assert x == (word + x)[|word|..];
    assert y == (word + y)[|word|..];
  }

  function Join(s: seq<string>, separator: string): string {
    if s == [] then "" else if |s| == 1 then s[0] else s[0] + (separator + Join(s[1..], separator))
  }

  lemma {:induction false} JoinEnds(s: seq<string>, last: string, separator: string)
    requires s != []
    ensures Join(s + [last], separator) == Join(s, separator) + separator + last
  {
    assert (s + [last])[0] == s[0] && (s + [last])[1..] == s[1..] + [last];
    if |s| > 1 {
      JoinEnds(s[1..], last, separator);
      var front := Join(s[1..], separator);
      assert s[0] + (separator + (front + separator + last)) == s[0] + (separator + front) + separator + last;
    } else {
      assert Join([last], separator) == last;
      assert s[0] + (separator + last) == s[0] + separator + last;
    }
  }
}
