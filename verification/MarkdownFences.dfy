/**
 `markdownFences` counts the fence lines of a text by marker and length, reading
 lines with a scanner whose buffer is bounded. The counter agrees with the writer of
 `Fence`: enclosing a text adds two fences of the chosen length and nothing else,
 exactly as long as every line fits the scanner.
 */
module MarkdownFences {
  import opened Wrappers
  import opened Fence
  import opened Counts
  import opened TextLines

  /** The longest line, without its line feed, that the scanner's buffer of 64 * 1024 bytes can hold. */
  const LINE_LIMIT: nat := 65535

  /** A key of the count map: the marker followed by the length. */
  datatype FenceKey = FenceKey(marker: char, length: nat)

  // ---------- Lines ----------

  /** Every line fits the scanner's buffer. */
  predicate LinesFit(s: string)
    decreases |s|
  {
    Feed(s) <= LINE_LIMIT && (Feed(s) < |s| ==> LinesFit(s[Feed(s) + 1..]))
  }

  function DropReturn(line: string): string {
    if line != "" && line[|line| - 1] == '\r' then line[..|line| - 1] else line
  }

  /** How many spaces and tabs a line starts with. */
  function Indent(line: string): (n: nat)
    ensures n <= |line| && (forall i :: 0 <= i < n ==> line[i] == ' ' || line[i] == '\t')
    ensures n < |line| ==> line[n] != ' ' && line[n] != '\t'
  {
    if line == "" || (line[0] != ' ' && line[0] != '\t') then 0 else 1 + Indent(line[1..])
  }

  /** At most three blanks, then a run of at least three equal markers. */
  function FenceOf(line: string): Option<FenceKey> {
    var text := DropReturn(line);
    var trimmed := text[Indent(text)..];
    if Indent(text) > 3 || trimmed == "" || (trimmed[0] != '`' && trimmed[0] != '~') then None
    else if Lead(trimmed, trimmed[0]) < 3 then None
    else Some(FenceKey(trimmed[0], Lead(trimmed, trimmed[0])))
  }

  ghost function Counted(line: string): multiset<FenceKey> {
    match FenceOf(line)
    case None => multiset{}
    case Some(key) => multiset{key}
  }

  /** The fence lines up to the first line that does not fit. */
  ghost function Fences(s: string): multiset<FenceKey>
    decreases |s|
  {
    if Feed(s) > LINE_LIMIT then multiset{}
    else Counted(s[..Feed(s)]) + if Feed(s) < |s| then Fences(s[Feed(s) + 1..]) else multiset{}
  }

  // ---------- The loop ----------

  method MarkdownFences(text: string) returns (counts: map<FenceKey, nat>)
    ensures Holds(counts, Fences(text))
  {
    counts := map[];
    ghost var done, total := multiset{}, Fences(text);
    var rest := text;
    while Feed(rest) <= LINE_LIMIT
      invariant Holds(counts, done) && done + Fences(rest) == total
      decreases |rest|
    {
      var feed := Feed(rest);
      LineCounted(rest, done, total);
      counts := CountLine(counts, rest[..feed], done);
      done := done + Counted(rest[..feed]);
      if feed == |rest| {
        return;
      }
      rest := rest[feed + 1..];
    }
  }

  lemma LineCounted(rest: string, done: multiset<FenceKey>, total: multiset<FenceKey>)
    requires done + Fences(rest) == total && Feed(rest) <= LINE_LIMIT
    ensures Feed(rest) < |rest| ==> done + Counted(rest[..Feed(rest)]) + Fences(rest[Feed(rest) + 1..]) == total
    ensures Feed(rest) == |rest| ==> done + Counted(rest[..Feed(rest)]) == total
  {
    var here, later := FirstCounted(rest);
    Sums(done, here, later, Fences(rest), total);
  }

  lemma FirstCounted(rest: string) returns (here: multiset<FenceKey>, later: multiset<FenceKey>)
    requires Feed(rest) <= LINE_LIMIT
    ensures Fences(rest) == here + later && here == Counted(rest[..Feed(rest)])
    ensures later == if Feed(rest) < |rest| then Fences(rest[Feed(rest) + 1..]) else multiset{}
  {
    here, later := Counted(rest[..Feed(rest)]), multiset{};
    if Feed(rest) < |rest| {
      later := Fences(rest[Feed(rest) + 1..]);
    }
  }

  lemma Sums(done: multiset<FenceKey>, here: multiset<FenceKey>, later: multiset<FenceKey>,
             whole: multiset<FenceKey>, total: multiset<FenceKey>)
    requires done + whole == total && whole == here + later
    ensures done + here + later == total && (later == multiset{} ==> done + here == total)
  {
  }

  method CountLine(counts: map<FenceKey, nat>, line: string, ghost done: multiset<FenceKey>)
    returns (more: map<FenceKey, nat>)
    requires Holds(counts, done)
    ensures Holds(more, done + Counted(line))
  {
    more := counts;
    var key := ScanFence(line);
    if key.Some? {
      OneCounted(counts, done, key.value);
      more := counts[key.value := Count(counts, key.value) + 1];
    } else {
      assert done + Counted(line) == done;
    }
  }

  /** One line: the markers are counted one by one. */
  method ScanFence(line: string) returns (key: Option<FenceKey>)
    ensures key == FenceOf(line)
  {
    var text := DropReturn(line);
    var trimmed := text[Indent(text)..];
    if |text| - |trimmed| > 3 || |trimmed| < 3 {
      return None;
    }
    var marker := trimmed[0];
    if marker != '`' && marker != '~' {
      return None;
    }
    var length := 0;
    while length < |trimmed| && trimmed[length] == marker
      invariant length <= |trimmed| && forall i :: 0 <= i < length ==> trimmed[i] == marker
    {
      length := length + 1;
    }
    LeadIs(trimmed, marker, length);
    key := if length >= 3 then Some(FenceKey(marker, length)) else None;
  }

  // ---------- What a fence line is ----------

  /** `indent` blanks, three at most, and then a run of three backticks or tildes or more. */
  ghost predicate IsFenceLine(line: string, indent: nat, key: FenceKey) {
    var end := indent + key.length;
    && indent <= 3 && key.length >= 3 && (key.marker == '`' || key.marker == '~') && end <= |line|
    && (forall i :: 0 <= i < indent ==> line[i] == ' ' || line[i] == '\t')
    && (forall i :: indent <= i < end ==> line[i] == key.marker)
    && (end < |line| ==> line[end] != key.marker)
  }

  /** Whatever follows the run, and whether or not a carriage return ends the line. */
  lemma FenceOfMeans(line: string, key: FenceKey)
    ensures FenceOf(line) == Some(key) <==> exists indent :: IsFenceLine(line, indent, key)
  {
    if FenceOf(line) == Some(key) {
      FenceIsLine(line, key);
    }
    if indent :| IsFenceLine(line, indent, key) {
      LineIsFence(line, indent, key);
    }
  }

  lemma FenceIsLine(line: string, key: FenceKey)
    requires FenceOf(line) == Some(key)
    ensures IsFenceLine(line, Indent(DropReturn(line)), key)
  {
    var text, indent := DropReturn(line), Indent(DropReturn(line));
    assert forall i :: indent <= i < indent + key.length ==> line[i] == text[indent..][i - indent];
    assert indent + key.length < |text| ==> line[indent + key.length] == text[indent..][key.length];
  }

  lemma LineIsFence(line: string, indent: nat, key: FenceKey)
    requires IsFenceLine(line, indent, key)
    ensures FenceOf(line) == Some(key)
  {
    var text := DropReturn(line);
    assert line[indent + key.length - 1] == key.marker;
    assert line[indent] == key.marker;
    IndentIs(text, indent);
    assert forall i :: 0 <= i < key.length ==> text[indent..][i] == line[indent + i];
    LeadIs(text[indent..], key.marker, key.length);
  }

  lemma {:induction false} IndentIs(line: string, n: nat)
    requires n < |line| && (forall i :: 0 <= i < n ==> line[i] == ' ' || line[i] == '\t')
    requires line[n] != ' ' && line[n] != '\t'
    ensures Indent(line) == n
  {
    if n > 0 {
      IndentIs(line[1..], n - 1);
    }
  }

  // ---------- Counter and writer ----------

  /** A fence of the text is a run of the text. */
  lemma FenceHasRun(line: string)
    requires FenceOf(line).Some? && FenceOf(line).value.marker == '`'
    ensures HasRun(line, FenceOf(line).value.length)
  {
    var text := DropReturn(line);
    var n := FenceOf(line).value.length;
    assert forall k :: Indent(text) <= k < Indent(text) + n ==> line[k] == text[Indent(text)..][k - Indent(text)];
    assert RunAt(line, Indent(text), n);
  }

  lemma {:induction false} FencesHaveRuns(s: string, n: nat)
    requires FenceKey('`', n) in Fences(s)
    ensures HasRun(s, n)
    decreases |s|
  {
    var feed := Feed(s);
    FrontOrRest(s, FenceKey('`', n));
    if feed < |s| && FenceKey('`', n) in Fences(s[feed + 1..]) {
      FencesHaveRuns(s[feed + 1..], n);
      NoLongerRun(s, feed + 1, n);
    } else {
      CountedHasRun(s[..feed], n);
      RunInFront(s, feed, n);
    }
  }

  lemma CountedHasRun(line: string, n: nat)
    requires FenceKey('`', n) in Counted(line)
    ensures HasRun(line, n)
  {
    FenceHasRun(line);
  }

  lemma FrontOrRest(s: string, key: FenceKey)
    requires key in Fences(s)
    ensures key in Counted(s[..Feed(s)]) || (Feed(s) < |s| && key in Fences(s[Feed(s) + 1..]))
  {
  }

  lemma RunInFront(s: string, i: nat, n: nat)
    requires i <= |s| && HasRun(s[..i], n)
    ensures HasRun(s, n)
  {
    var k: nat :| RunAt(s[..i], k, n);
    assert forall j :: k <= j < k + n ==> s[j] == s[..i][j];
    assert RunAt(s, k, n);
  }

  lemma FenceLine(info: string, n: nat)
    requires n >= 3 && LabelAllowed(info)
    ensures FenceOf(Ticks(n) + info) == Some(FenceKey('`', n))
  {
    var line := Ticks(n) + info;
    assert line[|line| - 1] != '\r' by {
      assert info != "" ==> line[|line| - 1] in info;
    }
    assert Indent(line) == 0 && line[0..] == line;
    assert n < |line| ==> line[n] in info;
    LeadIs(line, '`', n);
  }

  /** The text, its line feed and the closing fence: the fence counts unless the scanner stopped before it. */
  lemma {:induction false} BodyCounts(text: string, n: nat)
    requires n >= 3
    ensures Fences(text + "\n" + Ticks(n))
         == Fences(text) + if LinesFit(text) && n <= LINE_LIMIT then multiset{FenceKey('`', n)} else multiset{}
    decreases |text|
  {
    var s, feed := text + "\n" + Ticks(n), Feed(text);
    FirstFeed(text, Ticks(n));
    FirstSplits(text, Ticks(n), feed);
    FencesAre(s, feed, text[..feed], s[feed + 1..]);
    if feed < |text| {
      FencesAre(text, feed, text[..feed], text[feed + 1..]);
      if feed <= LINE_LIMIT {
        BodyCounts(text[feed + 1..], n);
        OneMoreLine(Fences(s), Fences(text), Counted(text[..feed]), Fences(text[feed + 1..]), Fences(s[feed + 1..]),
                    if LinesFit(text) && n <= LINE_LIMIT then multiset{FenceKey('`', n)} else multiset{});
      }
    } else {
      assert text[..feed] == text;
      ClosingCounts(n);
    }
  }

  lemma OneMoreLine(whole: multiset<FenceKey>, text: multiset<FenceKey>, here: multiset<FenceKey>,
                    later: multiset<FenceKey>, more: multiset<FenceKey>, end: multiset<FenceKey>)
    requires whole == here + more && text == here + later && more == later + end
    ensures whole == text + end
  {
  }

  lemma FencesAre(s: string, feed: nat, line: string, rest: string)
    requires Feed(s) == feed < |s| && s[..feed] == line && s[feed + 1..] == rest
    ensures feed > LINE_LIMIT ==> Fences(s) == multiset{}
    ensures feed <= LINE_LIMIT ==> Fences(s) == Counted(line) + Fences(rest)
  {
    if feed <= LINE_LIMIT {
      var here, later := FirstCounted(s);
      assert here == Counted(line) && later == Fences(rest);
    }
  }

  lemma ClosingCounts(n: nat)
    requires n >= 3
    ensures Fences(Ticks(n)) == if n <= LINE_LIMIT then multiset{FenceKey('`', n)} else multiset{}
  {
    FeedIs(Ticks(n), n);
    FenceLine("", n);
    assert Ticks(n)[..n] == Ticks(n) + "";
  }

  /** The opening fence counts if its line fits; otherwise the scanner stops at once. */
  lemma EnclosedCounts(info: string, rest: string, n: nat)
    requires n >= 3 && LabelAllowed(info)
    ensures Fences(Ticks(n) + (info + "\n" + rest))
         == if n + |info| > LINE_LIMIT then multiset{} else multiset{FenceKey('`', n)} + Fences(rest)
  {
    var s, feed := Ticks(n) + (info + "\n" + rest), n + |info|;
    assert s == Ticks(n) + info + "\n" + rest;
    assert forall i :: n <= i < feed ==> s[i] in info;
    FeedIs(s, feed);
    assert s[..feed] == Ticks(n) + info && s[feed + 1..] == rest;
    FenceLine(info, n);
  }

  /** Enclosing adds two fences of a length the text does not have: exactly when the scanner can hold every line. */
  lemma EnclosingAddsTwo(info: string, text: string, n: nat)
    requires n >= 3 && !HasRun(text, n) && LabelAllowed(info)
    ensures FenceKey('`', n) !in Fences(text)
    ensures (Fences(Enclose(info, text, n)) == Fences(text) + multiset{FenceKey('`', n), FenceKey('`', n)})
        <==> (LinesFit(text) && n + |info| <= LINE_LIMIT)
  {
    EnclosedCounts(info, text + "\n" + Ticks(n), n);
    BodyCounts(text, n);
    if FenceKey('`', n) in Fences(text) {
      FencesHaveRuns(text, n);
    }
    TwoOrFewer(Fences(text), FenceKey('`', n));
  }

  lemma TwoOrFewer(fences: multiset<FenceKey>, key: FenceKey)
    ensures multiset{key} + (fences + multiset{key}) == fences + multiset{key, key}
    ensures multiset{key} + (fences + multiset{}) != fences + multiset{key, key}
    ensures multiset{} != fences + multiset{key, key}
  {
    assert (multiset{key} + (fences + multiset{}))[key] == fences[key] + 1;
    assert (fences + multiset{key, key})[key] == fences[key] + 2;
  }

  /** The same for what `FenceSource` yields, as the count maps show it. */
  lemma FencedCounts(text: string, labels: seq<string>, before: map<FenceKey, nat>, after: map<FenceKey, nat>)
    requires FenceSource(text, labels).Ok?
    requires Holds(before, Fences(text)) && Holds(after, Fences(FenceSource(text, labels).value))
    ensures var info := if |labels| == 1 then labels[0] else ""; var n := RequiredFenceLength(text, 4).value;
      FenceKey('`', n) !in before
      && (after == before[FenceKey('`', n) := 2] <==> LinesFit(text) && n + |info| <= LINE_LIMIT)
  {
    var info := if |labels| == 1 then labels[0] else "";
    var n := RequiredFenceLength(text, 4).value;
    EnclosingAddsTwo(info, text, n);
    TwoMore(before, after, Fences(text), Fences(Enclose(info, text, n)), FenceKey('`', n));
  }

  lemma TwoMore(before: map<FenceKey, nat>, after: map<FenceKey, nat>,
                fences: multiset<FenceKey>, more: multiset<FenceKey>, key: FenceKey)
    requires Holds(before, fences) && Holds(after, more) && key !in fences
    ensures after == before[key := 2] <==> more == fences + multiset{key, key}
  {
    if after == before[key := 2] {
      assert forall k :: more[k] == (fences + multiset{key, key})[k];
    } else if more == fences + multiset{key, key} {
      assert forall k :: k in after <==> k in before[key := 2];
    }
  }
}
