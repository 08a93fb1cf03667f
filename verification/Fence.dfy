/**
 `LongestBacktickRun`, `RequiredFenceLength` and `FenceSource`: a fence longer
 than every backtick run of the text. Read back by the rules of section 4.5 of
 CommonMark 0.31.2, the fenced text closes at its last line only and its
 content is the text with one line ending more.
 */
module Fence {
  import opened Wrappers

  // ---------- Backtick runs ----------

  ghost predicate RunAt(text: string, i: nat, n: nat) {
    i + n <= |text| && forall k :: i <= k < i + n ==> text[k] == '`'
  }

  ghost predicate HasRun(text: string, n: nat) {
    exists i: nat :: RunAt(text, i, n)
  }

  /** How many backticks a text ends with. */
  function TailRun(text: string): nat {
    if text == "" || text[|text| - 1] != '`' then 0 else 1 + TailRun(text[..|text| - 1])
  }

  function LongestRun(text: string): nat {
    if text == "" then 0 else
      var before, tail := LongestRun(text[..|text| - 1]), TailRun(text);
      if tail > before then tail else before
  }

  /** The loop, and what its two counters come to. */
  method LongestBacktickRun(text: string) returns (longest: nat)
    ensures longest == LongestRun(text)
    ensures HasRun(text, longest) && forall n: nat :: HasRun(text, n) ==> n <= longest
  {
    longest := 0;
    var current := 0;
    for i := 0 to |text|
      invariant current == TailRun(text[..i]) && longest == LongestRun(text[..i])
    {
      assert text[..i + 1][..i] == text[..i];
      if text[i] == '`' {
        current := current + 1;
        if current > longest {
          longest := current;
        }
      } else {
        current := 0;
      }
    }
    assert text[..|text|] == text;
    LongestRunHolds(text);
  }

  lemma {:induction false} TailRunHolds(text: string)
    ensures TailRun(text) <= |text| && RunAt(text, |text| - TailRun(text), TailRun(text))
  {
    if text != "" && text[|text| - 1] == '`' {
      TailRunHolds(text[..|text| - 1]);
    }
  }

  /** A run that reaches the end is no longer than the tail run. */
  lemma {:induction false} TailCovers(text: string, i: nat)
    requires i <= |text| && RunAt(text, i, |text| - i)
    ensures |text| - i <= TailRun(text)
  {
    if i < |text| {
      TailCovers(text[..|text| - 1], i);
    }
  }

  /** `LongestRun` is the greatest length of a run of backticks. */
  lemma {:induction false} LongestRunHolds(text: string)
    ensures HasRun(text, LongestRun(text))
    ensures forall n: nat :: HasRun(text, n) ==> n <= LongestRun(text)
  {
    if text == "" {
      assert RunAt(text, 0, 0);
    } else {
      var m := |text| - 1;
      LongestRunHolds(text[..m]);
      TailRunHolds(text);
      var i: nat :| RunAt(text[..m], i, LongestRun(text[..m]));
      assert RunAt(text, i, LongestRun(text[..m]));
      assert RunAt(text, |text| - TailRun(text), TailRun(text));
      forall n: nat | HasRun(text, n) ensures n <= LongestRun(text) {
        var k: nat :| RunAt(text, k, n);
        if k + n <= m {
          assert RunAt(text[..m], k, n);
          assert HasRun(text[..m], n);
        } else {
          TailCovers(text, k);
        }
      }
    }
  }

  // ---------- The writer ----------

  datatype FenceError = MinimumNotPositive | TooManyLabels | BadLabel

  /** The least length that is at least the minimum and longer than every run. */
  function RequiredFenceLength(text: string, minimum: int): (r: Result<nat, FenceError>)
    ensures r.Err? <==> minimum < 1
    ensures r.Ok? ==> minimum <= r.value && !HasRun(text, r.value)
    ensures r.Ok? ==> forall m: nat :: minimum <= m && !HasRun(text, m) ==> r.value <= m
  {
    LongestRunHolds(text);
    ShorterRuns(text);
    if minimum < 1 then Err(MinimumNotPositive)
    else if LongestRun(text) + 1 < minimum then Ok(minimum)
    else Ok(LongestRun(text) + 1)
  }

  /** A run holds every shorter run. */
  lemma ShorterRuns(text: string)
    ensures forall m: nat, n: nat :: m <= n && HasRun(text, n) ==> HasRun(text, m)
  {
    forall m: nat, n: nat | m <= n && HasRun(text, n) ensures HasRun(text, m) {
      var i: nat :| RunAt(text, i, n);
      assert RunAt(text, i, m);
    }
  }

  function Ticks(n: nat): string {
    seq(n, i => '`')
  }

  function Enclose(info: string, text: string, n: nat): string {
    Ticks(n) + (info + "\n" + (text + "\n" + Ticks(n)))
  }

  predicate LabelAllowed(info: string) {
    '`' !in info && '\r' !in info && '\n' !in info
  }

  /** At most one label, on one line and without a backtick; a fence has four backticks at least. */
  function FenceSource(text: string, labels: seq<string>): (r: Result<string, FenceError>)
    ensures r.Ok? <==> |labels| == 0 || (|labels| == 1 && forall c :: c in labels[0] ==> c !in {'`', '\r', '\n'})
    ensures r.Err? ==> r.error == if |labels| > 1 then TooManyLabels else BadLabel
    ensures r.Ok? ==> "````" <= r.value
  {
    if |labels| > 1 then Err(TooManyLabels) else
      var info := if |labels| == 1 then labels[0] else "";
      if !LabelAllowed(info) then Err(BadLabel) else
        match RequiredFenceLength(text, 4)
        case Err(error) => Err(error)
        case Ok(length) => Ok(Enclose(info, text, length))
  }

  // ---------- The reader ----------

  /** The length of the first line with its ending: LF, CR LF, CR, or the end of the text. */
  function FirstLine(s: string): (n: nat)
    requires s != ""
    ensures 1 <= n <= |s|
  {
    if s[0] == '\n' then 1
    else if s[0] == '\r' then if |s| > 1 && s[1] == '\n' then 2 else 1
    else if |s| == 1 then 1
    else 1 + FirstLine(s[1..])
  }

  /** How many characters of one kind a text starts with. */
  function Lead(s: string, c: char): (n: nat)
    ensures n <= |s| && (forall i :: 0 <= i < n ==> s[i] == c) && (n < |s| ==> s[n] != c)
  {
    if s == "" || s[0] != c then 0 else 1 + Lead(s[1..], c)
  }

  predicate IsBlank(c: char) {
    c == ' ' || c == '\t' || c == '\r' || c == '\n'
  }

  predicate Blank(s: string) {
    forall c :: c in s ==> IsBlank(c)
  }

  /** At most three spaces, at least as many backticks as the opening has, then blanks to the end of the line. */
  predicate Closes(line: string, n: nat) {
    var indent := Lead(line, ' ');
    var run := Lead(line[indent..], '`');
    indent <= 3 && n <= run && Blank(line[indent + run..])
  }

  datatype Body = Closed(content: string, rest: string) | Unclosed(content: string)

  function Before(line: string, body: Body): Body {
    match body
    case Closed(content, rest) => Closed(line + content, rest)
    case Unclosed(content) => Unclosed(line + content)
  }

  /** A content line loses as many leading spaces as the opening fence had. */
  function Outdent(line: string, indent: nat): string {
    var spaces := Lead(line, ' ');
    if spaces < indent then line[spaces..] else line[indent..]
  }

  /** The lines up to the first that closes. */
  function ReadBody(s: string, n: nat, indent: nat): Body
    decreases |s|
  {
    if s == "" then Unclosed("") else
      var line := FirstLine(s);
      if Closes(s[..line], n) then Closed("", s[line..])
      else Before(Outdent(s[..line], indent), ReadBody(s[line..], n, indent))
  }

  function Trim(s: string): string {
    if s != "" && IsBlank(s[0]) then Trim(s[1..])
    else if s != "" && IsBlank(s[|s| - 1]) then Trim(s[..|s| - 1])
    else s
  }

  datatype Block = Block(info: string, body: Body)

  /** A block opens with at most three spaces, at least three backticks, and an info string without a backtick. */
  function ReadFenced(s: string): Option<Block> {
    var indent := Lead(s, ' ');
    ReadOpening(s, indent, Lead(s[indent..], '`'))
  }

  function ReadOpening(s: string, indent: nat, n: nat): Option<Block>
    requires indent + n <= |s|
  {
    if indent > 3 || n < 3 then None else
      var line := FirstLine(s);
      if line < indent + n || '`' in s[indent + n..line] then None
      else Some(Block(Trim(s[indent + n..line]), ReadBody(s[line..], n, indent)))
  }

  // ---------- The round trip ----------

  /** A line that closes holds a run as long as the fence. */
  lemma ClosingHasRun(line: string, n: nat)
    requires Closes(line, n)
    ensures HasRun(line, n)
  {
    var indent := Lead(line, ' ');
    assert forall k :: indent <= k < indent + n ==> line[k] == line[indent..][k - indent];
    assert RunAt(line, indent, n);
  }

  /** The first line of a text that goes on after a line feed ends there at the latest. */
  lemma {:induction false} LineEndsAtFeed(a: string, b: string)
    ensures FirstLine(a + "\n" + b) <= |a| + 1
  {
    var s := a + "\n" + b;
    if a == "" {
      assert s[0] == '\n';
    } else if a[0] != '\n' && a[0] != '\r' {
      assert s[0] == a[0] && s[1..] == a[1..] + "\n" + b;
      LineEndsAtFeed(a[1..], b);
    } else {
      assert s[0] == a[0];
    }
  }

  lemma {:induction false} LineWithoutEnding(s: string)
    requires s != "" && '\n' !in s && '\r' !in s
    ensures FirstLine(s) == |s|
  {
    assert s[0] in s;
    if |s| > 1 {
      assert forall c :: c in s[1..] ==> c in s;
      LineWithoutEnding(s[1..]);
    }
  }

  /** No line before the last closes, and the last does. */
  lemma {:induction false} BodyReadsBack(text: string, n: nat)
    requires n > 0 && !HasRun(text, n)
    ensures ReadBody(text + "\n" + Ticks(n), n, 0) == Closed(text + "\n", "")
    decreases |text|
  {
    var s := text + "\n" + Ticks(n);
    LineEndsAtFeed(text, Ticks(n));
    var line := FirstLine(s);
    LineDoesNotClose(text, n, line);
    OutdentNothing(s[..line]);
    BodySplits(text, Ticks(n), line);
    if line == |text| + 1 {
      FenceCloses(n);
    } else {
      NoLongerRun(text, line, n);
      BodyReadsBack(text[line..], n);
    }
  }

  lemma BodySplits(text: string, fence: string, line: nat)
    requires line <= |text| + 1
    ensures line == |text| + 1 ==> (text + "\n" + fence)[..line] == text + "\n"
    ensures line == |text| + 1 ==> (text + "\n" + fence)[line..] == fence
    ensures line <= |text| ==> (text + "\n" + fence)[..line] == text[..line]
    ensures line <= |text| ==> (text + "\n" + fence)[line..] == text[line..] + "\n" + fence
    ensures line <= |text| ==> text[..line] + (text[line..] + "\n") == text + "\n"
  {
  }

  /** Without an indent of the opening, a content line stays as it is. */
  lemma OutdentNothing(line: string)
    ensures Outdent(line, 0) == line && line + "" == line
  {
  }

  lemma LineDoesNotClose(text: string, n: nat, line: nat)
    requires n > 0 && !HasRun(text, n) && line <= |text| + 1
    ensures !Closes((text + "\n" + Ticks(n))[..line], n)
  {
    if Closes((text + "\n" + Ticks(n))[..line], n) {
      ClosingHasRun((text + "\n" + Ticks(n))[..line], n);
      RunBeforeFeed(text, Ticks(n), n, line);
    }
  }

  /** A run in the text or its line feed lies in the text. */
  lemma RunBeforeFeed(text: string, fence: string, n: nat, line: nat)
    requires n > 0 && line <= |text| + 1 && HasRun((text + "\n" + fence)[..line], n)
    ensures HasRun(text, n)
  {
    var start := (text + "\n" + fence)[..line];
    var i: nat :| RunAt(start, i, n);
    assert start[i + n - 1] == '`';
    assert forall k :: i <= k < i + n ==> start[k] == text[k];
    assert RunAt(text, i, n);
  }

  lemma NoLongerRun(text: string, i: nat, n: nat)
    requires i <= |text|
    ensures HasRun(text[i..], n) ==> HasRun(text, n)
  {
    if HasRun(text[i..], n) {
      var k: nat :| RunAt(text[i..], k, n);
      assert forall j :: i + k <= j < i + k + n ==> text[j] == text[i..][j - i];
      assert RunAt(text, i + k, n);
    }
  }

  lemma FenceCloses(n: nat)
    requires n > 0
    ensures ReadBody(Ticks(n), n, 0) == Closed("", "")
  {
    var s := Ticks(n);
    LineWithoutEnding(s);
    assert s[..n] == s && s[n..] == "";
    assert Lead(s, ' ') == 0 && s[0..] == s && Lead(s, '`') == n;
  }

  /** Every text, every accepted label: the block closes at its last line and holds the text and one line feed. */
  lemma FenceReadsBack(text: string, labels: seq<string>)
    requires FenceSource(text, labels).Ok?
    ensures ReadFenced(FenceSource(text, labels).value)
         == Some(Block(Trim(if |labels| == 1 then labels[0] else ""), Closed(text + "\n", "")))
  {
    var info := if |labels| == 1 then labels[0] else "";
    var n := RequiredFenceLength(text, 4).value;
    EnclosedReadsBack(info, text, n);
  }

  lemma EnclosedReadsBack(info: string, text: string, n: nat)
    requires n >= 3 && !HasRun(text, n) && LabelAllowed(info)
    ensures ReadFenced(Enclose(info, text, n)) == Some(Block(Trim(info), Closed(text + "\n", "")))
  {
    var rest := text + "\n" + Ticks(n);
    OpensAtMargin(info, rest, n);
    BodyReadsBack(text, n);
  }

  lemma Opening(info: string, rest: string, n: nat)
    requires n >= 3 && LabelAllowed(info)
    ensures var s := Ticks(n) + (info + "\n" + rest); var line := n + |info| + 1;
      && line <= |s| && s[n..line] == info + "\n" && s[line..] == rest && '`' !in s[n..line]
      && s[0] == '`' && Lead(s, '`') == n && FirstLine(s) == line
  {
    OpeningLine(info, rest, n);
    OpeningSplits(info, rest, n);
    assert '`' !in info + "\n";
    var s := Ticks(n) + (info + "\n" + rest);
    assert s[n] == (info + "\n" + rest)[0];
    LeadIs(s, '`', n);
  }

  lemma OpensAtMargin(info: string, rest: string, n: nat)
    requires n >= 3 && LabelAllowed(info)
    ensures ReadFenced(Ticks(n) + (info + "\n" + rest)) == Some(Block(Trim(info), ReadBody(rest, n, 0)))
  {
    Opening(info, rest, n);
    ReadsOpening(Ticks(n) + (info + "\n" + rest), info, rest, n, n + |info| + 1);
  }

  lemma ReadsOpening(s: string, info: string, rest: string, n: nat, line: nat)
    requires s != "" && Lead(s, '`') == n >= 3 && FirstLine(s) == line >= n && '`' !in s[n..line]
    requires s[n..line] == info + "\n" && s[line..] == rest
    ensures ReadFenced(s) == Some(Block(Trim(info), ReadBody(rest, n, 0)))
  {
    assert Lead(s, ' ') == 0 && s[0..] == s;
    assert ReadFenced(s) == ReadOpening(s, 0, n);
    TrimDropsFeed(info);
  }

  lemma OpeningSplits(info: string, rest: string, n: nat)
    ensures n + |info| + 1 <= |Ticks(n) + (info + "\n" + rest)|
    ensures (Ticks(n) + (info + "\n" + rest))[n..n + |info| + 1] == info + "\n"
    ensures (Ticks(n) + (info + "\n" + rest))[n + |info| + 1..] == rest
  {
    var s := Ticks(n) + (info + "\n" + rest);
    assert s[n..] == info + "\n" + rest;
    assert s[n..][..|info| + 1] == info + "\n";
    assert s[n..][|info| + 1..] == rest;
  }

  lemma {:induction false} LeadIs(s: string, c: char, n: nat)
    requires n <= |s| && (forall i :: 0 <= i < n ==> s[i] == c) && (n < |s| ==> s[n] != c)
    ensures Lead(s, c) == n
  {
    if n > 0 {
      LeadIs(s[1..], c, n - 1);
    }
  }

  /** The opening line runs to the first line feed. */
  lemma {:induction false} OpeningLine(info: string, rest: string, n: nat)
    requires LabelAllowed(info)
    ensures FirstLine(Ticks(n) + (info + "\n" + rest)) == n + |info| + 1
  {
    FeedAfter(Ticks(n) + info, rest);
    assert Ticks(n) + (info + "\n" + rest) == Ticks(n) + info + "\n" + rest;
  }

  lemma {:induction false} FeedAfter(line: string, rest: string)
    requires '\n' !in line && '\r' !in line
    ensures FirstLine(line + "\n" + rest) == |line| + 1
  {
    var s := line + "\n" + rest;
    if line == "" {
      assert s[0] == '\n';
    } else {
      assert s[0] == line[0] && s[0] in line && s[1..] == line[1..] + "\n" + rest;
      FeedAfter(line[1..], rest);
    }
  }

  lemma {:induction false} TrimDropsFeed(info: string)
    ensures Trim(info + "\n") == Trim(info)
  {
    var s := info + "\n";
    if info == "" {
      assert s == ['\n'];
    } else if IsBlank(info[0]) {
      assert s[0] == info[0] && s[1..] == info[1..] + "\n";
      TrimDropsFeed(info[1..]);
    } else {
      assert s[0] == info[0] && s[..|s| - 1] == info && s[|s| - 1] == '\n';
    }
  }
}
