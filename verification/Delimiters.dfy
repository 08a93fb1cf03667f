/**
 `delimiterSequence`: the delimiters of a text in order, by one greedy scan over
 a list that an unstable sort has put longest first. The result is a function of
 the set of delimiters alone; and text printed with a prefix-free set of
 delimiters, whatever stands between them, reads back as the delimiters printed.
 */
module Delimiters {
  import opened Strings

  // ---------- What the scan means ----------

  /** The longest delimiter the text starts with; empty delimiters never match. */
  ghost predicate Longest(delimiters: set<string>, text: string, d: string) {
    && d in delimiters && d != "" && d <= text
    && forall e :: e in delimiters && e <= text ==> |e| <= |d|
  }

  ghost predicate Starts(delimiters: set<string>, text: string) {
    exists d :: Longest(delimiters, text, d)
  }

  /** There is one longest delimiter at most: ties of length never differ. */
  lemma LongestIsUnique(delimiters: set<string>, text: string, d: string, e: string)
    requires Longest(delimiters, text, d) && Longest(delimiters, text, e)
    ensures d == e
  {
    assert d == text[..|d|] && e == text[..|e|];
  }

  /** Leftmost, longest, not overlapping. */
  ghost function Scan(delimiters: set<string>, text: string): seq<string>
    decreases |text|
  {
    if text == "" then []
    else if d :| Longest(delimiters, text, d) then [d] + Scan(delimiters, text[|d|..])
    else Scan(delimiters, text[1..])
  }

  lemma ScanFound(delimiters: set<string>, text: string, d: string)
    requires Longest(delimiters, text, d)
    ensures Scan(delimiters, text) == [d] + Scan(delimiters, text[|d|..])
  {
    forall e | Longest(delimiters, text, e) ensures e == d {
      LongestIsUnique(delimiters, text, d, e);
    }
  }

  // ---------- The loops ----------

  /** The distinct non-empty delimiters, in the order given. */
  method Candidates(delimiters: seq<string>) returns (candidates: seq<string>)
    ensures Members(candidates) == Members(delimiters) - {""}
    ensures forall i, k :: 0 <= i < k < |candidates| ==> candidates[i] != candidates[k]
  {
    candidates := [];
    for n := 0 to |delimiters|
      invariant Members(candidates) == Members(delimiters[..n]) - {""}
      invariant forall i, k :: 0 <= i < k < |candidates| ==> candidates[i] != candidates[k]
    {
      assert delimiters[..n + 1] == delimiters[..n] + [delimiters[n]];
      OneMore(delimiters[..n], delimiters[n]);
      OneMore(candidates, delimiters[n]);
      if delimiters[n] != "" && delimiters[n] !in candidates {
        candidates := candidates + [delimiters[n]];
      }
    }
    assert delimiters[..|delimiters|] == delimiters;
  }

  predicate LongestFirst(s: seq<string>) {
    forall i, k :: 0 <= i < k < |s| ==> |s[i]| >= |s[k]|
  }

  /** `sort.Slice` by falling length: which of several equally long strings comes first is left open. */
  method SortByLength(s: seq<string>) returns (t: seq<string>)
    ensures multiset(t) == multiset(s) && LongestFirst(t)
  {
    t := [];
    var left := s;
    while left != []
      invariant multiset(t) + multiset(left) == multiset(s)
      invariant LongestFirst(t)
      invariant forall i, k :: 0 <= i < |t| && 0 <= k < |left| ==> |t[i]| >= |left[k]|
      decreases |left|
    {
      LongestExists(left);
      var k :| 0 <= k < |left| && IsLongest(left, k);
      assert left == left[..k] + [left[k]] + left[k + 1..];
      t, left := t + [left[k]], left[..k] + left[k + 1..];
    }
  }

  predicate IsLongest(s: seq<string>, k: nat)
    requires k < |s|
  {
    forall i :: 0 <= i < |s| ==> |s[i]| <= |s[k]|
  }

  lemma {:induction false} LongestExists(s: seq<string>)
    requires s != []
    ensures exists k: nat :: k < |s| && IsLongest(s, k)
  {
    var n := |s| - 1;
    if n > 0 {
      LongestExists(s[..n]);
      var k: nat :| k < |s[..n]| && IsLongest(s[..n], k);
      assert forall i :: 0 <= i < n ==> s[i] == s[..n][i];
      assert IsLongest(s, if |s[n]| > |s[k]| then n else k);
    } else {
      assert IsLongest(s, 0);
    }
  }

  /** The first candidate the text starts with, or the empty string. */
  method FirstMatch(candidates: seq<string>, text: string) returns (found: string)
    requires LongestFirst(candidates) && "" !in candidates
    ensures found == "" ==> !Starts(Members(candidates), text)
    ensures found != "" ==> Longest(Members(candidates), text, found)
  {
    for n := 0 to |candidates|
      invariant forall i :: 0 <= i < n ==> !(candidates[i] <= text)
    {
      if candidates[n] <= text {
        return candidates[n];
      }
    }
    return "";
  }

  /** Order, repetition and the sort's ties drop out: the result depends on the set alone. */
  method DelimiterSequence(text: string, delimiters: seq<string>) returns (sequence: seq<string>)
    ensures sequence == Scan(Members(delimiters), text)
  {
    var candidates := Candidates(delimiters);
    candidates := SortedMembers(candidates);
    sequence := ScanWith(text, candidates);
    SameScan(Members(delimiters), text);
  }

  method ScanWith(text: string, candidates: seq<string>) returns (sequence: seq<string>)
    requires LongestFirst(candidates) && "" !in candidates
    ensures sequence == Scan(Members(candidates), text)
  {
    ghost var all := Members(candidates);
    ghost var left := Scan(all, text);
    sequence := [];
    var offset := 0;
    assert text[0..] == text;
    while offset < |text|
      invariant offset <= |text| && left == Scan(all, text[offset..])
      invariant sequence + left == Scan(all, text)
    {
      var found := FirstMatch(candidates, text[offset..]);
      if found == "" {
        StepOver(all, text, offset);
        offset := offset + 1;
      } else {
        StepTo(all, text, offset, found);
        sequence, left := sequence + [found], left[1..];
        offset := offset + |found|;
      }
    }
  }

  lemma StepOver(delimiters: set<string>, text: string, offset: nat)
    requires offset < |text| && !Starts(delimiters, text[offset..])
    ensures Scan(delimiters, text[offset..]) == Scan(delimiters, text[offset + 1..])
  {
    assert text[offset..][1..] == text[offset + 1..];
  }

  lemma StepTo(delimiters: set<string>, text: string, offset: nat, d: string)
    requires offset < |text| && Longest(delimiters, text[offset..], d)
    ensures offset + |d| <= |text|
    ensures Scan(delimiters, text[offset..]) == [d] + Scan(delimiters, text[offset + |d|..])
  {
    ScanFound(delimiters, text[offset..], d);
    assert text[offset..][|d|..] == text[offset + |d|..];
  }

  method SortedMembers(s: seq<string>) returns (t: seq<string>)
    requires "" !in s
    ensures Members(t) == Members(s) && LongestFirst(t) && "" !in t
  {
    t := SortByLength(s);
    assert forall x :: x in t <==> x in multiset(t);
    assert forall x :: x in s <==> x in multiset(s);
  }

  /** An empty delimiter would match nothing: dropping it changes no result. */
  lemma {:induction false} SameScan(delimiters: set<string>, text: string)
    ensures Scan(delimiters - {""}, text) == Scan(delimiters, text)
    decreases |text|
  {
    if text != "" {
      assert forall d :: Longest(delimiters - {""}, text, d) <==> Longest(delimiters, text, d);
      if d :| Longest(delimiters, text, d) {
        ScanFound(delimiters, text, d);
        ScanFound(delimiters - {""}, text, d);
        SameScan(delimiters, text[|d|..]);
      } else {
        SameScan(delimiters, text[1..]);
      }
    }
  }

  /** `equalStrings`; a missing list and an empty one are alike. */
  method EqualStrings(left: seq<string>, right: seq<string>) returns (same: bool)
    ensures same <==> left == right
  {
    if |left| != |right| {
      return false;
    }
    for i := 0 to |left|
      invariant left[..i] == right[..i]
    {
      if left[i] != right[i] {
        return false;
      }
      assert left[..i + 1] == left[..i] + [left[i]] && right[..i + 1] == right[..i] + [right[i]];
    }
    return true;
  }

  // ---------- Print and scan ----------

  /** The text g0 d1 g1 ... dk gk. */
  function Weave(gaps: seq<string>, marks: seq<string>): string
    requires |gaps| == |marks| + 1
  {
    if marks == [] then gaps[0] else gaps[0] + (marks[0] + Weave(gaps[1..], marks[1..]))
  }

  /** Every delimiter starts with the marker. */
  ghost predicate Marked(delimiters: set<string>, marker: char) {
    forall d :: d in delimiters ==> d != "" && d[0] == marker
  }

  ghost predicate PrefixFree(delimiters: set<string>) {
    forall d, e :: d in delimiters && e in delimiters && d <= e ==> d == e
  }

  /** Delimiters of the set with marker-free segments around them. */
  ghost predicate Printed(delimiters: set<string>, marker: char, gaps: seq<string>, marks: seq<string>) {
    && |gaps| == |marks| + 1
    && (forall i :: 0 <= i < |marks| ==> marks[i] in delimiters)
    && (forall i :: 0 <= i < |gaps| ==> marker !in gaps[i])
  }

  lemma {:induction false} SkipGap(delimiters: set<string>, marker: char, gap: string, rest: string)
    requires Marked(delimiters, marker) && marker !in gap
    ensures Scan(delimiters, gap + rest) == Scan(delimiters, rest)
  {
    var text := gap + rest;
    if gap == "" {
      assert text == rest;
    } else {
      assert text[0] == gap[0] && gap[0] in gap;
      assert !Starts(delimiters, text);
      assert text[1..] == gap[1..] + rest;
      SkipGap(delimiters, marker, gap[1..], rest);
    }
  }

  lemma PrefixesOfOne(d: string, e: string, text: string)
    requires d <= text && e <= text
    ensures |d| <= |e| ==> d <= e
  {
  }

  lemma TakeMark(delimiters: set<string>, d: string, rest: string)
    requires PrefixFree(delimiters) && d in delimiters && d != ""
    ensures Scan(delimiters, d + rest) == [d] + Scan(delimiters, rest)
  {
    var text := d + rest;
    forall e | e in delimiters && e <= text ensures |e| <= |d| {
      PrefixesOfOne(d, e, text);
    }
    assert text[|d|..] == rest;
    ScanFound(delimiters, text, d);
  }

  /** What was printed is what is read. */
  lemma {:induction false} ReadsBack(delimiters: set<string>, marker: char, gaps: seq<string>, marks: seq<string>)
    requires Marked(delimiters, marker) && PrefixFree(delimiters) && Printed(delimiters, marker, gaps, marks)
    ensures Scan(delimiters, Weave(gaps, marks)) == marks
    decreases |marks|
  {
    if marks == [] {
      SkipGap(delimiters, marker, gaps[0], "");
      assert gaps[0] + "" == gaps[0];
    } else {
      var rest := Weave(gaps[1..], marks[1..]);
      SkipGap(delimiters, marker, gaps[0], marks[0] + rest);
      TakeMark(delimiters, marks[0], rest);
      ReadsBack(delimiters, marker, gaps[1..], marks[1..]);
      assert marks == [marks[0]] + marks[1..];
    }
  }

  /** A translation that changes only the segments passes the delimiter check. */
  lemma SegmentsAreFree(delimiters: set<string>, marker: char,
                        gaps: seq<string>, translated: seq<string>, marks: seq<string>)
    requires Marked(delimiters, marker) && PrefixFree(delimiters)
    requires Printed(delimiters, marker, gaps, marks) && Printed(delimiters, marker, translated, marks)
    ensures Scan(delimiters, Weave(translated, marks)) == Scan(delimiters, Weave(gaps, marks))
  {
    ReadsBack(delimiters, marker, gaps, marks);
    ReadsBack(delimiters, marker, translated, marks);
  }

  ghost predicate AlwaysReadsBack(delimiters: set<string>, marker: char) {
    forall gaps, marks :: Printed(delimiters, marker, gaps, marks) ==> Scan(delimiters, Weave(gaps, marks)) == marks
  }

  /** With the marker nowhere but in front, prefix-freedom is also needed. */
  lemma ReadsBackExactly(delimiters: set<string>, marker: char)
    requires Marked(delimiters, marker)
    requires forall d :: d in delimiters ==> marker !in d[1..]
    ensures AlwaysReadsBack(delimiters, marker) <==> PrefixFree(delimiters)
  {
    if PrefixFree(delimiters) {
      forall gaps, marks | Printed(delimiters, marker, gaps, marks)
        ensures Scan(delimiters, Weave(gaps, marks)) == marks
      {
        ReadsBack(delimiters, marker, gaps, marks);
      }
    } else {
      var d, e :| d in delimiters && e in delimiters && d <= e && d != e;
      ShorterMisread(delimiters, marker, d, e);
    }
  }

  /** A delimiter followed by what makes it a longer one is read as the longer one. */
  lemma ShorterMisread(delimiters: set<string>, marker: char, d: string, e: string)
    requires Marked(delimiters, marker) && d in delimiters && e in delimiters && d <= e && d != e
    requires marker !in e[1..]
    ensures Printed(delimiters, marker, ["", e[|d|..]], [d])
    ensures Scan(delimiters, Weave(["", e[|d|..]], [d])) != [d]
  {
    NotInRest(e, |d|, marker);
    WeaveOne(d, e[|d|..]);
    assert d + e[|d|..] == e;
    LongerFirst(delimiters, d, e);
  }

  lemma NotInRest(e: string, n: nat, marker: char)
    requires 1 <= n <= |e| && marker !in e[1..]
    ensures marker !in e[n..]
  {
    assert e[n..] == e[1..][n - 1..];
  }

  lemma WeaveOne(d: string, rest: string)
    ensures Weave(["", rest], [d]) == d + rest
  {
    assert ["", rest][1..] == [rest] && [d][1..] == [];
  }

  /** A text that is itself a delimiter is not read as a shorter one. */
  lemma LongerFirst(delimiters: set<string>, d: string, e: string)
    requires e in delimiters && |d| < |e|
    ensures Scan(delimiters, e) != [d]
  {
    assert Longest(delimiters, e, e);
    ScanFound(delimiters, e, e);
    assert Scan(delimiters, e)[0] == e;
  }

  // ---------- Scan and print ----------

  /** The stretches the scan steps over. */
  ghost function Gaps(delimiters: set<string>, text: string): (gaps: seq<string>)
    ensures |gaps| == |Scan(delimiters, text)| + 1
    decreases |text|
  {
    if text == "" then [""]
    else if d :| Longest(delimiters, text, d) then
      ScanFound(delimiters, text, d);
      [""] + Gaps(delimiters, text[|d|..])
    else
      var gaps := Gaps(delimiters, text[1..]);
      [[text[0]] + gaps[0]] + gaps[1..]
  }

  /** What is read, printed with the stretches in between, is the text: nothing is read twice or out of order. */
  lemma {:induction false} ScanKeepsText(delimiters: set<string>, text: string)
    ensures Weave(Gaps(delimiters, text), Scan(delimiters, text)) == text
    decreases |text|
  {
    var gaps, marks := Gaps(delimiters, text), Scan(delimiters, text);
    if text == "" {
    } else if d :| Longest(delimiters, text, d) {
      ScanFound(delimiters, text, d);
      GapsFound(delimiters, text, d);
      ScanKeepsText(delimiters, text[|d|..]);
      WeaveMark(Gaps(delimiters, text[|d|..]), Scan(delimiters, text[|d|..]), d);
      assert text == d + text[|d|..];
    } else {
      ScanKeepsText(delimiters, text[1..]);
      WeaveFront([text[0]], Gaps(delimiters, text[1..]), marks);
      assert text == [text[0]] + text[1..];
    }
  }

  lemma WeaveMark(gaps: seq<string>, marks: seq<string>, d: string)
    requires |gaps| == |marks| + 1
    ensures Weave([""] + gaps, [d] + marks) == d + Weave(gaps, marks)
  {
    assert ([""] + gaps)[1..] == gaps && ([d] + marks)[1..] == marks;
  }

  lemma WeaveFront(front: string, gaps: seq<string>, marks: seq<string>)
    requires |gaps| == |marks| + 1
    ensures Weave([front + gaps[0]] + gaps[1..], marks) == front + Weave(gaps, marks)
  {
    assert ([front + gaps[0]] + gaps[1..])[1..] == gaps[1..];
  }

  lemma GapsFound(delimiters: set<string>, text: string, d: string)
    requires Longest(delimiters, text, d)
    ensures Gaps(delimiters, text) == [""] + Gaps(delimiters, text[|d|..])
  {
    forall e | Longest(delimiters, text, e) ensures e == d {
      LongestIsUnique(delimiters, text, d, e);
    }
  }
}
