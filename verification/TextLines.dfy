/**
 The lines of a text, as line feeds part them, and the search for a separator.
 */
module TextLines {
  import opened Wrappers
  import opened Strings
  import opened Fence

  /** Where the first line feed stands, or the end. */
  function Feed(s: string): (n: nat)
    ensures n <= |s| && (forall i :: 0 <= i < n ==> s[i] != '\n') && (n < |s| ==> s[n] == '\n')
  {
    if s == "" || s[0] == '\n' then 0 else 1 + Feed(s[1..])
  }

  lemma {:induction false} FeedIs(s: string, n: nat)
    requires n <= |s| && (forall i :: 0 <= i < n ==> s[i] != '\n') && (n < |s| ==> s[n] == '\n')
    ensures Feed(s) == n
  {
    if n > 0 {
      FeedIs(s[1..], n - 1);
    }
  }

  /** A text with a line feed and more after it: its first line is the text's. */
  lemma FirstFeed(text: string, rest: string)
    ensures Feed(text + "\n" + rest) == Feed(text)
  {
    var s, feed := text + "\n" + rest, Feed(text);
    assert feed < |text| ==> s[feed] == text[feed];
    assert feed == |text| ==> s[feed] == '\n';
    FeedIs(s, feed);
  }

  lemma FirstSplits(text: string, rest: string, feed: nat)
    requires feed <= |text|
    ensures (text + "\n" + rest)[..feed] == text[..feed]
    ensures (text + "\n" + rest)[feed + 1..] == if feed < |text| then text[feed + 1..] + "\n" + rest else rest
  {
    BodySplits(text, rest, feed);
    BodySplits(text, rest, feed + 1);
  }

  // ---------- All lines ----------

  function Lines(s: string): (lines: seq<string>)
    ensures lines != []
    decreases |s|
  {
    if Feed(s) == |s| then [s] else [s[..Feed(s)]] + Lines(s[Feed(s) + 1..])
  }

  lemma OneLine(s: string)
    requires '\n' !in s
    ensures Lines(s) == [s]
  {
    FeedIs(s, |s|);
  }

  lemma {:induction false} LinesOfTwo(a: string, b: string)
    ensures Lines(a + "\n" + b) == Lines(a) + Lines(b)
    decreases |a|
  {
    if Feed(a) < |a| {
      var line, rest := LinesGoOn(a, b);
      LinesOfTwo(rest, b);
    } else {
      LinesEnd(a, b);
    }
  }

  lemma LinesGoOn(a: string, b: string) returns (line: string, rest: string)
    requires Feed(a) < |a|
    ensures |rest| < |a| && Lines(a) == [line] + Lines(rest)
    ensures Lines(a + "\n" + b) == [line] + Lines(rest + "\n" + b)
  {
    line, rest := a[..Feed(a)], a[Feed(a) + 1..];
    FirstFeed(a, b);
    FirstSplits(a, b, Feed(a));
    FirstThenRest(a + "\n" + b, Feed(a), line, rest + "\n" + b);
    FirstThenRest(a, Feed(a), line, rest);
  }

  lemma LinesEnd(a: string, b: string)
    requires Feed(a) == |a|
    ensures Lines(a) == [a] && Lines(a + "\n" + b) == [a] + Lines(b)
  {
    FirstFeed(a, b);
    FirstSplits(a, b, |a|);
    assert a[..|a|] == a;
    FirstThenRest(a + "\n" + b, |a|, a, b);
  }

  lemma FirstThenRest(s: string, feed: nat, line: string, rest: string)
    requires Feed(s) == feed < |s| && s[..feed] == line && s[feed + 1..] == rest
    ensures Lines(s) == [line] + Lines(rest)
  {
  }

  /** The lines of several texts, one after the other. */
  function Flat(texts: seq<string>): seq<string> {
    if texts == [] then [] else Lines(texts[0]) + Flat(texts[1..])
  }

  lemma {:induction false} LinesOfJoin(texts: seq<string>)
    requires texts != []
    ensures Lines(Join(texts, "\n")) == Flat(texts)
  {
    if |texts| > 1 {
      LinesOfJoin(texts[1..]);
      LinesOfTwo(texts[0], Join(texts[1..], "\n"));
      assert texts == [texts[0]] + texts[1..];
      JoinOfMore(texts[0], texts[1..], "\n");
      Assoc(texts[0], "\n", Join(texts[1..], "\n"));
    } else {
      assert Flat(texts[1..]) == [];
    }
  }

  lemma {:induction false} FlatOfTwo(a: seq<string>, b: seq<string>)
    ensures Flat(a + b) == Flat(a) + Flat(b)
  {
    if a == [] {
      assert a + b == b;
    } else {
      assert (a + b)[0] == a[0] && (a + b)[1..] == a[1..] + b;
      FlatOfTwo(a[1..], b);
    }
  }

  ghost predicate SingleLines(texts: seq<string>) {
    forall i :: 0 <= i < |texts| ==> '\n' !in texts[i]
  }

  lemma {:induction false} FlatOfSingles(texts: seq<string>)
    requires SingleLines(texts)
    ensures Flat(texts) == texts
  {
    if texts != [] {
      OneLine(texts[0]);
      FlatOfSingles(texts[1..]);
    }
  }

  /** The lines of a text, joined again, are the text. */
  lemma {:induction false} JoinOfLines(s: string)
    ensures Join(Lines(s), "\n") == s
    decreases |s|
  {
    if Feed(s) < |s| {
      var line, rest := FirstOff(s);
      JoinOfLines(rest);
      JoinOfMore(line, Lines(rest), "\n");
    }
  }

  lemma FirstOff(s: string) returns (line: string, rest: string)
    requires Feed(s) < |s|
    ensures |rest| < |s| && s == line + ("\n" + rest) && Lines(s) == [line] + Lines(rest)
  {
    line, rest := s[..Feed(s)], s[Feed(s) + 1..];
    FirstThenRest(s, Feed(s), line, rest);
  }

  lemma JoinOfMore(first: string, rest: seq<string>, separator: string)
    requires rest != []
    ensures Join([first] + rest, separator) == first + (separator + Join(rest, separator))
  {
    assert ([first] + rest)[1..] == rest;
  }

  // ---------- Lines up to an empty one ----------

  function Filled(lines: seq<string>): (n: nat)
    ensures n <= |lines|
  {
    if lines == [] || lines[0] == "" then 0 else 1 + Filled(lines[1..])
  }

  lemma {:induction false} FilledThenEmpty(filled: seq<string>, rest: seq<string>)
    requires (forall i :: 0 <= i < |filled| ==> filled[i] != "") && rest != [] && rest[0] == ""
    ensures Filled(filled + rest) == |filled|
    ensures (filled + rest)[..|filled|] == filled && (filled + rest)[|filled|..] == rest
  {
    if filled == [] {
      assert filled + rest == rest;
    } else {
      assert (filled + rest)[1..] == filled[1..] + rest;
      FilledThenEmpty(filled[1..], rest);
    }
  }

  // ---------- Separators ----------

  function Find(s: string, w: string): (at: Option<nat>)
    ensures at.Some? ==> at.value + |w| <= |s|
  {
    if w <= s then Some(0)
    else if s == "" then None
    else match Find(s[1..], w)
         case None => None
         case Some(i) => Some(i + 1)
  }

  predicate Has(s: string, w: string) {
    w <= s || (s != "" && Has(s[1..], w))
  }

  /**
   A core that starts with its only blank, closed by a blank, is found where it stands exactly if it does not
   occur before, with the first blank of its own.
   */
  lemma {:induction false} FindAfter(a: string, core: string, x: string)
    requires core != "" && core[0] == ' ' && ' ' !in core[1..] && !Has(a + " ", core + " ")
    ensures Find(a + (core + " " + x), core + " ") == Some(|a|)
  {
    var s := a + (core + " " + x);
    if a == "" {
      assert s == core + " " + x;
    } else {
      NotAtStart(a, core, x);
      assert s[1..] == a[1..] + (core + " " + x) && (a + " ")[1..] == a[1..] + " ";
      FindAfter(a[1..], core, x);
    }
  }

  lemma {:induction false} FindBefore(a: string, core: string, x: string)
    requires core != "" && core[0] == ' ' && Has(a + " ", core + " ")
    ensures var at := Find(a + (core + " " + x), core + " "); at.Some? && at.value < |a|
  {
    var s := a + (core + " " + x);
    NotInBlank(a, core);
    assert a + " " <= s;
    if !(core + " " <= a + " ") {
      assert s[1..] == a[1..] + (core + " " + x) && (a + " ")[1..] == a[1..] + " ";
      FindBefore(a[1..], core, x);
    }
  }

  lemma NotInBlank(a: string, core: string)
    requires core != "" && Has(a + " ", core + " ")
    ensures a != ""
  {
    BlankHasNone(core);
    assert a == "" ==> a + " " == " ";
  }

  lemma BlankHasNone(core: string)
    requires core != ""
    ensures !Has(" ", core + " ")
  {
    assert " "[1..] == "";
  }

  lemma NotAtStart(a: string, core: string, x: string)
    requires core != "" && core[0] == ' ' && ' ' !in core[1..] && a != "" && !(core + " " <= a + " ")
    ensures !(core + " " <= a + (core + " " + x))
  {
    if core + " " <= a + (core + " " + x) {
      StartsWith(a, core, x);
    }
  }

  lemma StartsWith(a: string, core: string, x: string)
    requires core != "" && core[0] == ' ' && ' ' !in core[1..] && a != ""
    requires core + " " <= a + (core + " " + x)
    ensures core + " " <= a + " "
  {
    var s := a + (core + " " + x);
    if |a| < |core| {
      SecondBlank(a, core, x);
    } else {
      assert s[..|a| + 1] == a + " ";
      assert (core + " ")[..|core| + 1] == s[..|a| + 1][..|core| + 1];
    }
  }

  lemma SecondBlank(a: string, core: string, x: string)
    requires 0 < |a| < |core| && core[0] == ' ' && core + " " <= a + (core + " " + x)
    ensures ' ' in core[1..]
  {
    var s := a + (core + " " + x);
    assert s[|a|] == ' ' && s[|a|] == (core + " ")[|a|];
    assert core[1..][|a| - 1] == ' ';
  }
}
