/**
 `htmlStructure` over the tokens a tokenizer yields: a stack of open tags, with
 skip-and-continue after a closing tag that does not fit. Despite the recovery it
 reports nothing exactly when the tags nest. The events decide the tags, so equal
 events carry a clean source over to the output.
 */
module HtmlStructure {
  import opened Wrappers
  import opened Strings
  import opened Quoting
  import opened Counts

  datatype Attribute = Attribute(key: string, value: string)

  datatype Token =
    | StartTag(name: string, attributes: seq<Attribute>)
    | SelfClosingTag(name: string, attributes: seq<Attribute>)
    | EndTag(name: string)
    | Comment(data: string)
    | Doctype(data: string)
    | TextToken(text: string)

  /** Tokens up to the error that ends them; none stands for the end of the input. */
  datatype Document = Document(tokens: seq<Token>, failure: Option<string>)

  /** What `htmlStructure` keeps of a token. */
  datatype Event =
    | Start(tag: string, attributes: seq<string>)
    | Empty(tag: string, attributes: seq<string>)
    | End(tag: string)
    | CommentEvent(data: string)
    | DoctypeEvent(data: string)

  datatype MarkupError =
    | UnexpectedClosing(tag: string)
    | TokenizerFailed(message: string)
    | Unclosed(stack: seq<string>)

  function LowerChar(c: char): char {
    if 'A' <= c <= 'Z' then c - 'A' + 'a' else c
  }

  function Lower(s: string): string {
    seq(|s|, i requires 0 <= i < |s| => LowerChar(s[i]))
  }

  predicate VoidTag(tag: string) {
    tag in {"area", "base", "br", "col", "embed", "hr", "img", "input",
            "link", "meta", "param", "source", "track", "wbr"}
  }

  // ---------- Events ----------

  function AttributeText(attribute: Attribute, translatable: set<string>): string {
    var key := Lower(attribute.key);
    key + "=" + Quote(if key in translatable then "<translated>" else attribute.value)
  }

  function AttributeTexts(attributes: seq<Attribute>, translatable: set<string>): seq<string> {
    seq(|attributes|, i requires 0 <= i < |attributes| => AttributeText(attributes[i], translatable))
  }

  ghost function SortedAttributes(attributes: seq<Attribute>, translatable: set<string>): seq<string> {
    Sorted(multiset(AttributeTexts(attributes, translatable)))
  }

  ghost function EventsOf(token: Token, translatable: set<string>): seq<Event> {
    match token
    case StartTag(name, attributes) => [Start(Lower(name), SortedAttributes(attributes, translatable))]
    case SelfClosingTag(name, attributes) => [Empty(Lower(name), SortedAttributes(attributes, translatable))]
    case EndTag(name) => [End(Lower(name))]
    case Comment(data) => [CommentEvent(data)]
    case Doctype(data) => [DoctypeEvent(data)]
    case TextToken(_) => []
  }

  ghost function Events(tokens: seq<Token>, translatable: set<string>): seq<Event> {
    if tokens == [] then [] else
      var n := |tokens| - 1;
      Events(tokens[..n], translatable) + EventsOf(tokens[n], translatable)
  }

  // ---------- Nesting ----------

  /** What the stack sees: start tags that are not void, and end tags. */
  datatype Tag = Open(name: string) | Close(name: string)

  function TagsOf(event: Event): seq<Tag> {
    match event
    case Start(tag, _) => if VoidTag(tag) then [] else [Open(tag)]
    case End(tag) => [Close(tag)]
    case _ => []
  }

  ghost function Tags(events: seq<Event>): seq<Tag> {
    if events == [] then [] else
      var n := |events| - 1;
      Tags(events[..n]) + TagsOf(events[n])
  }

  datatype Tree = Node(name: string, children: seq<Tree>)

  ghost function Flatten(forest: seq<Tree>): seq<Tag> {
    if forest == [] then [] else
      [Open(forest[0].name)] + Flatten(forest[0].children) + [Close(forest[0].name)] + Flatten(forest[1..])
  }

  /** The tags are those of a forest: every tag is closed by its own end tag, inside out. */
  ghost predicate Balanced(tags: seq<Tag>) {
    exists forest :: Flatten(forest) == tags
  }

  /** The stack and the end tags it rejected. */
  datatype Nesting = Nesting(stack: seq<string>, rejected: seq<string>)

  function Take(state: Nesting, tag: Tag): Nesting {
    var n := |state.stack| - 1;
    match tag
    case Open(name) => state.(stack := state.stack + [name])
    case Close(name) =>
      if n < 0 || state.stack[n] != name then state.(rejected := state.rejected + [name])
      else state.(stack := state.stack[..n])
  }

  ghost function Nest(tags: seq<Tag>): Nesting {
    if tags == [] then Nesting([], []) else
      var n := |tags| - 1;
      Take(Nest(tags[..n]), tags[n])
  }

  lemma NestMore(tags: seq<Tag>, tag: Tag)
    ensures Nest(tags + [tag]) == Take(Nest(tags), tag)
  {
    assert (tags + [tag])[..|tags|] == tags;
  }

  /** A forest leaves the stack as it found it. */
  lemma {:induction false} ForestNests(before: seq<Tag>, forest: seq<Tree>)
    ensures Nest(before + Flatten(forest)) == Nest(before)
    decreases forest
  {
    if forest == [] {
      assert before + Flatten(forest) == before;
    } else {
      var name, inner := forest[0].name, Flatten(forest[0].children);
      FirstTree(before, forest);
      NestMore(before, Open(name));
      ForestNests(before + [Open(name)], forest[0].children);
      NestMore(before + [Open(name)] + inner, Close(name));
      PopsWhatItPushed(Nest(before), name);
      ForestNests(before + [Open(name)] + inner + [Close(name)], forest[1..]);
    }
  }

  lemma FirstTree(before: seq<Tag>, forest: seq<Tree>)
    requires forest != []
    ensures before + Flatten(forest)
      == before + [Open(forest[0].name)] + Flatten(forest[0].children) + [Close(forest[0].name)] + Flatten(forest[1..])
  {
    Regroup(before, [Open(forest[0].name)], Flatten(forest[0].children), [Close(forest[0].name)], Flatten(forest[1..]));
  }

  lemma Regroup<T>(before: seq<T>, a: seq<T>, b: seq<T>, c: seq<T>, d: seq<T>)
    ensures before + (a + b + c + d) == before + a + b + c + d
  {
  }

  lemma PopsWhatItPushed(state: Nesting, name: string)
    ensures Take(Take(state, Open(name)), Close(name)) == state
  {
    assert (state.stack + [name])[..|state.stack|] == state.stack;
  }

  /** The forests between the tags still open: forests[0] open[0] forests[1] ... open[k-1] forests[k]. */
  ghost function Unfinished(forests: seq<seq<Tree>>, stack: seq<string>): seq<Tag>
    requires |forests| == |stack| + 1
  {
    var k := |stack|;
    if k == 0 then Flatten(forests[0])
    else Unfinished(forests[..k], stack[..k - 1]) + [Open(stack[k - 1])] + Flatten(forests[k])
  }

  ghost predicate Explains(forests: seq<seq<Tree>>, tags: seq<Tag>) {
    |forests| == |Nest(tags).stack| + 1 && Unfinished(forests, Nest(tags).stack) == tags
  }

  /** Tags read without a rejection are explained by forests between what is still open. */
  lemma {:induction false} Explained(tags: seq<Tag>)
    requires Nest(tags).rejected == []
    ensures exists forests :: Explains(forests, tags)
  {
    if tags == [] {
      assert Explains([[]], tags);
    } else {
      var n := |tags| - 1;
      assert tags == tags[..n] + [tags[n]];
      Explained(tags[..n]);
      var forests :| Explains(forests, tags[..n]);
      OneMoreExplained(forests, tags[..n], tags[n]);
    }
  }

  lemma OneMoreExplained(forests: seq<seq<Tree>>, tags: seq<Tag>, tag: Tag)
    requires Explains(forests, tags) && Nest(tags + [tag]).rejected == []
    ensures exists more :: Explains(more, tags + [tag])
  {
    NestMore(tags, tag);
    var stack := Nest(tags).stack;
    match tag
    case Open(name) =>
      OpenExplained(forests, stack, name);
      assert Explains(forests + [[]], tags + [tag]);
    case Close(name) =>
      CloseExplained(forests, stack);
      assert Explains(Closed(forests, stack), tags + [tag]);
  }

  lemma OpenExplained(forests: seq<seq<Tree>>, stack: seq<string>, name: string)
    requires |forests| == |stack| + 1
    ensures Unfinished(forests + [[]], stack + [name]) == Unfinished(forests, stack) + [Open(name)]
  {
    assert (forests + [[]])[..|stack| + 1] == forests && (stack + [name])[..|stack|] == stack;
  }

  /** The innermost open tag becomes the last tree of the forest before it. */
  function Closed(forests: seq<seq<Tree>>, stack: seq<string>): seq<seq<Tree>>
    requires |forests| == |stack| + 1 && stack != []
  {
    var k := |stack|;
    forests[..k - 1] + [forests[k - 1] + [Node(stack[k - 1], forests[k])]]
  }

  lemma CloseExplained(forests: seq<seq<Tree>>, stack: seq<string>)
    requires |forests| == |stack| + 1 && stack != []
    ensures Unfinished(Closed(forests, stack), stack[..|stack| - 1])
         == Unfinished(forests, stack) + [Close(stack[|stack| - 1])]
  {
    var k := |stack|;
    var front, node := forests[..k], Node(stack[k - 1], forests[k]);
    var open, inner, close := [Open(node.name)], Flatten(node.children), [Close(node.name)];
    FlattenLast(forests[k - 1], node);
    LastForest(front, stack[..k - 1], open + inner + close, forests[k - 1] + [node]);
    assert front[..k - 1] == forests[..k - 1];
    var before := Unfinished(front, stack[..k - 1]);
    assert before + (open + inner + close) == before + open + inner + close;
  }

  /** Only the last forest is written last. */
  lemma LastForest(forests: seq<seq<Tree>>, stack: seq<string>, more: seq<Tag>, last: seq<Tree>)
    requires |forests| == |stack| + 1
    requires Flatten(last) == Flatten(forests[|stack|]) + more
    ensures Unfinished(forests[..|stack|] + [last], stack) == Unfinished(forests, stack) + more
  {
    var changed := forests[..|stack|] + [last];
    assert changed[..|stack|] == forests[..|stack|];
  }

  lemma {:induction false} FlattenLast(forest: seq<Tree>, node: Tree)
    ensures Flatten(forest + [node])
         == Flatten(forest) + ([Open(node.name)] + Flatten(node.children) + [Close(node.name)])
    decreases |forest|
  {
    var all := forest + [node];
    if forest == [] {
      assert all == [node] && all[1..] == [];
    } else {
      assert all[0] == forest[0] && all[1..] == forest[1..] + [node];
      FlattenLast(forest[1..], node);
    }
  }

  /** Nothing rejected and nothing left open: exactly the balanced tags. */
  lemma CleanMeansBalanced(tags: seq<Tag>)
    ensures Nest(tags) == Nesting([], []) <==> Balanced(tags)
  {
    if Nest(tags) == Nesting([], []) {
      Explained(tags);
      var forests :| Explains(forests, tags);
      assert Flatten(forests[0]) == tags;
    }
    if Balanced(tags) {
      var forest :| Flatten(forest) == tags;
      ForestNests([], forest);
      assert [] + Flatten(forest) == tags;
    }
  }

  // ---------- The loop ----------

  function Rejections(rejected: seq<string>): seq<MarkupError> {
    seq(|rejected|, i requires 0 <= i < |rejected| => UnexpectedClosing(rejected[i]))
  }

  /** The complaints about a document: rejected end tags in order, the tokenizer's failure, the tags left open. */
  function Complaints(state: Nesting, failure: Option<string>): seq<MarkupError> {
    Rejections(state.rejected)
    + (if failure.Some? then [TokenizerFailed(failure.value)] else [])
    + (if state.stack != [] then [Unclosed(state.stack)] else [])
  }

  ghost predicate Tracks(events: seq<Event>, stack: seq<string>, errors: seq<MarkupError>) {
    Nest(Tags(events)).stack == stack && errors == Rejections(Nest(Tags(events)).rejected)
  }

  /** The events in order, and no error exactly for tokens that end well and tags that nest. */
  method HtmlStructure(document: Document, translatable: set<string>)
    returns (events: seq<Event>, errors: seq<MarkupError>)
    ensures events == Events(document.tokens, translatable)
    ensures errors == Complaints(Nest(Tags(events)), document.failure)
    ensures errors == [] <==> document.failure.None? && Balanced(Tags(events))
  {
    var stack;
    events, stack, errors := ReadTokens(document.tokens, translatable);
    if document.failure.Some? {
      errors := errors + [TokenizerFailed(document.failure.value)];
    }
    if |stack| > 0 {
      errors := errors + [Unclosed(stack)];
    }
    CleanMeansBalanced(Tags(events));
    NoComplaints(Nest(Tags(events)), document.failure);
  }

  method ReadTokens(tokens: seq<Token>, translatable: set<string>)
    returns (events: seq<Event>, stack: seq<string>, errors: seq<MarkupError>)
    ensures events == Events(tokens, translatable) && Tracks(events, stack, errors)
  {
    events, stack, errors := [], [], [];
    for n := 0 to |tokens|
      invariant events == Events(tokens[..n], translatable)
      invariant Tracks(events, stack, errors)
    {
      assert tokens[..n + 1][..n] == tokens[..n];
      events, stack, errors := TakeToken(tokens[n], translatable, events, stack, errors);
    }
    assert tokens[..|tokens|] == tokens;
  }

  lemma NoComplaints(state: Nesting, failure: Option<string>)
    ensures Complaints(state, failure) == [] <==> failure.None? && state == Nesting([], [])
  {
    assert |Rejections(state.rejected)| == |state.rejected|;
  }

  /** One round of the loop. */
  method TakeToken(token: Token, translatable: set<string>,
                   events: seq<Event>, stack: seq<string>, errors: seq<MarkupError>)
    returns (moreEvents: seq<Event>, newStack: seq<string>, moreErrors: seq<MarkupError>)
    requires Tracks(events, stack, errors)
    ensures moreEvents == events + EventsOf(token, translatable)
    ensures Tracks(moreEvents, newStack, moreErrors)
  {
    moreEvents, newStack, moreErrors := events, stack, errors;
    match token {
      case StartTag(name, attributes) =>
        var tag := Lower(name);
        var texts := SortAttributes(attributes, translatable);
        moreEvents := events + [Start(tag, texts)];
        if !VoidTag(tag) {
          newStack := stack + [tag];
        }
        Tracked(events, stack, errors, Start(tag, texts));
      case SelfClosingTag(name, attributes) =>
        var texts := SortAttributes(attributes, translatable);
        moreEvents := events + [Empty(Lower(name), texts)];
        Tracked(events, stack, errors, Empty(Lower(name), texts));
      case EndTag(name) =>
        var tag := Lower(name);
        moreEvents := events + [End(tag)];
        if |stack| == 0 || stack[|stack| - 1] != tag {
          moreErrors := errors + [UnexpectedClosing(tag)];
        } else {
          newStack := stack[..|stack| - 1];
        }
        Tracked(events, stack, errors, End(tag));
      case Comment(data) =>
        moreEvents := events + [CommentEvent(data)];
        Tracked(events, stack, errors, CommentEvent(data));
      case Doctype(data) =>
        moreEvents := events + [DoctypeEvent(data)];
        Tracked(events, stack, errors, DoctypeEvent(data));
      case TextToken(_) =>
    }
  }

  /** The state of the loop after one more event. */
  lemma Tracked(events: seq<Event>, stack: seq<string>, errors: seq<MarkupError>, event: Event)
    requires Tracks(events, stack, errors)
    ensures TagsOf(event) == [] ==> Tracks(events + [event], stack, errors)
    ensures TagsOf(event) != [] && TagsOf(event)[0].Open?
        ==> Tracks(events + [event], stack + [TagsOf(event)[0].name], errors)
    ensures event.End? && stack != [] && stack[|stack| - 1] == event.tag
        ==> Tracks(events + [event], stack[..|stack| - 1], errors)
    ensures event.End? && (stack == [] || stack[|stack| - 1] != event.tag)
        ==> Tracks(events + [event], stack, errors + [UnexpectedClosing(event.tag)])
  {
    EventAdded(events, event);
    if event.End? {
      RejectedMore(Nest(Tags(events)).rejected, event.tag);
    }
  }

  lemma RejectedMore(rejected: seq<string>, tag: string)
    ensures Rejections(rejected + [tag]) == Rejections(rejected) + [UnexpectedClosing(tag)]
  {
  }

  method SortAttributes(attributes: seq<Attribute>, translatable: set<string>) returns (texts: seq<string>)
    ensures texts == SortedAttributes(attributes, translatable)
  {
    texts := ListAttributes(attributes, translatable);
    texts := SortStrings(texts);
  }

  method ListAttributes(attributes: seq<Attribute>, translatable: set<string>) returns (texts: seq<string>)
    ensures texts == AttributeTexts(attributes, translatable)
  {
    texts := [];
    ghost var all := AttributeTexts(attributes, translatable);
    for n := 0 to |attributes|
      invariant texts == all[..n]
    {
      texts := texts + [AttributeText(attributes[n], translatable)];
      assert all[..n + 1] == all[..n] + [all[n]];
    }
    assert all[..|attributes|] == all;
  }

  lemma EventAdded(events: seq<Event>, event: Event)
    ensures Tags(events + [event]) == Tags(events) + TagsOf(event)
    ensures TagsOf(event) == [] ==> Nest(Tags(events + [event])) == Nest(Tags(events))
    ensures |TagsOf(event)| == 1 ==> Nest(Tags(events + [event])) == Take(Nest(Tags(events)), TagsOf(event)[0])
  {
    assert (events + [event])[..|events|] == events;
    var tags := Tags(events);
    if TagsOf(event) == [] {
      assert tags + TagsOf(event) == tags;
    } else {
      NestMore(tags, TagsOf(event)[0]);
      assert tags + TagsOf(event) == tags + [TagsOf(event)[0]];
    }
  }

  // ---------- Events as the strings that are compared ----------

  function Render(event: Event): string {
    match event
    case Start(tag, attributes) => "start:" + (tag + (":" + Join(attributes, ",")))
    case Empty(tag, attributes) => "empty:" + (tag + (":" + Join(attributes, ",")))
    case End(tag) => "end:" + tag
    case CommentEvent(data) => "comment:" + data
    case DoctypeEvent(data) => "doctype:" + data
  }

  /** An attribute as the tokenizer can yield it: a key without an equals sign behind its first character. */
  ghost predicate IsAttribute(text: string) {
    exists key, value :: IsKey(key) && text == key + ("=" + Quote(value))
  }

  predicate IsKey(key: string) {
    key != "" && '=' !in key[1..]
  }

  ghost predicate Readable(event: Event) {
    (event.Start? || event.Empty?) ==> forall i :: 0 <= i < |event.attributes| ==> IsAttribute(event.attributes[i])
  }

  function Colons(s: string): nat {
    if s == "" then 0 else (if s[0] == ':' then 1 else 0) + Colons(s[1..])
  }

  /** Two attributes followed by anything: equal texts have equal attributes and equal rests. */
  lemma AttributeUnique(a: string, b: string, x: string, y: string)
    requires IsAttribute(a) && IsAttribute(b) && a + x == b + y
    ensures a == b && x == y
  {
    var k, v :| IsKey(k) && a == k + ("=" + Quote(v));
    var l, w :| IsKey(l) && b == l + ("=" + Quote(w));
    Assoc(k, "=" + Quote(v), x);
    Assoc("=", Quote(v), x);
    Assoc(l, "=" + Quote(w), y);
    Assoc("=", Quote(w), y);
    KeyUnique(k, l, Quote(v) + x, Quote(w) + y);
    QuoteThenRest(v, x);
    QuoteThenRest(w, y);
    QuoteUnique(v, w, x, y);
  }

  /** The first equals sign behind the first character ends the key. */
  lemma KeyUnique(k: string, l: string, x: string, y: string)
    requires IsKey(k) && IsKey(l) && k + ("=" + x) == l + ("=" + y)
    ensures k == l && x == y
  {
    KeyNotLonger(k, l, x, y);
    KeyNotLonger(l, k, y, x);
    assert k == (k + ("=" + x))[..|k|] && l == (l + ("=" + y))[..|l|];
    Drop(k, "=" + x, "=" + y);
    Drop("=", x, y);
  }

  lemma KeyNotLonger(k: string, l: string, x: string, y: string)
    requires IsKey(k) && IsKey(l) && k + ("=" + x) == l + ("=" + y)
    ensures |k| <= |l|
  {
    if |l| < |k| {
      KeyCutShort(k, l, x, y);
    }
  }

  lemma KeyCutShort(k: string, l: string, x: string, y: string)
    requires 0 < |l| < |k| && k + ("=" + x) == l + ("=" + y)
    ensures !IsKey(k)
  {
    assert (l + ("=" + y))[|l|] == '=' == k[|l|];
    assert k[1..][|l| - 1] == '=';
  }

  lemma {:induction false} AttributesUnique(a: seq<string>, b: seq<string>)
    requires forall i :: 0 <= i < |a| ==> IsAttribute(a[i])
    requires forall i :: 0 <= i < |b| ==> IsAttribute(b[i])
    requires Join(a, ",") == Join(b, ",")
    ensures a == b
  {
    if a != [] && b != [] {
      var x := if |a| == 1 then "" else "," + Join(a[1..], ",");
      var y := if |b| == 1 then "" else "," + Join(b[1..], ",");
      assert Join(a, ",") == a[0] + x && Join(b, ",") == b[0] + y;
      AttributeUnique(a[0], b[0], x, y);
      if |a| > 1 {
        Drop(",", Join(a[1..], ","), Join(b[1..], ","));
        AttributesUnique(a[1..], b[1..]);
      }
      assert a == [a[0]] + a[1..] && b == [b[0]] + b[1..];
    } else {
      JoinEmpty(a);
      JoinEmpty(b);
    }
  }

  lemma JoinEmpty(a: seq<string>)
    requires forall i :: 0 <= i < |a| ==> IsAttribute(a[i])
    ensures Join(a, ",") == "" <==> a == []
  {
    if a != [] {
      assert a[0] != "";
    }
  }

  /** Events that render alike are equal exactly when their tags have as many colons. */
  lemma RenderDecides(e: Event, f: Event)
    requires Readable(e) && Readable(f) && Render(e) == Render(f)
    ensures SameKind(e, f)
    ensures e.Start? || e.Empty? ==> (e == f <==> Colons(e.tag) == Colons(f.tag))
    ensures e.End? || e.CommentEvent? || e.DoctypeEvent? ==> e == f
  {
    WordDecides(e, f);
    match e
    case Start(tag, attributes) => TagDecides(tag, attributes, f.tag, f.attributes);
    case Empty(tag, attributes) => TagDecides(tag, attributes, f.tag, f.attributes);
    case _ =>
  }

  predicate SameKind(e: Event, f: Event) {
    && (e.Start? <==> f.Start?) && (e.Empty? <==> f.Empty?) && (e.End? <==> f.End?)
    && (e.CommentEvent? <==> f.CommentEvent?) && (e.DoctypeEvent? <==> f.DoctypeEvent?)
  }

  function Word(event: Event): string {
    match event
    case Start(_, _) => "start:"
    case Empty(_, _) => "empty:"
    case End(_) => "end:"
    case CommentEvent(_) => "comment:"
    case DoctypeEvent(_) => "doctype:"
  }

  function AfterWord(event: Event): string {
    match event
    case Start(tag, attributes) => tag + (":" + Join(attributes, ","))
    case Empty(tag, attributes) => tag + (":" + Join(attributes, ","))
    case End(tag) => tag
    case CommentEvent(data) => data
    case DoctypeEvent(data) => data
  }

  lemma WordDecides(e: Event, f: Event)
    requires Render(e) == Render(f)
    ensures SameKind(e, f) && AfterWord(e) == AfterWord(f)
  {
    var x, y := Render(e), Render(f);
    assert x == Word(e) + AfterWord(e) && y == Word(f) + AfterWord(f);
    assert x[0] == Word(e)[0] && x[1] == Word(e)[1];
    assert y[0] == Word(f)[0] && y[1] == Word(f)[1];
    Drop(Word(e), AfterWord(e), AfterWord(f));
  }

  lemma TagDecides(s: string, a: seq<string>, t: string, b: seq<string>)
    requires forall i :: 0 <= i < |a| ==> IsAttribute(a[i])
    requires forall i :: 0 <= i < |b| ==> IsAttribute(b[i])
    requires s + (":" + Join(a, ",")) == t + (":" + Join(b, ","))
    ensures s == t && a == b <==> Colons(s) == Colons(t)
  {
    ShorterTag(s, Join(a, ","), t, Join(b, ","));
    ShorterTag(t, Join(b, ","), s, Join(a, ","));
    if |s| == |t| {
      assert s == (s + (":" + Join(a, ",")))[..|s|] && t == (t + (":" + Join(b, ",")))[..|t|];
      Drop(s, ":" + Join(a, ","), ":" + Join(b, ","));
      Drop(":", Join(a, ","), Join(b, ","));
      AttributesUnique(a, b);
    }
  }

  lemma ShorterTag(s: string, x: string, t: string, y: string)
    requires s + (":" + x) == t + (":" + y)
    ensures |s| < |t| ==> Colons(s) < Colons(t)
  {
    if |s| < |t| {
      assert (s + (":" + x))[|s|] == ':' == t[|s|];
      assert s == (s + (":" + x))[..|s|] == t[..|s|];
      ColonsSplit(t, |s|);
    }
  }

  lemma {:induction false} ColonsSplit(t: string, n: nat)
    requires n <= |t|
    ensures Colons(t) == Colons(t[..n]) + Colons(t[n..])
  {
    if n > 0 {
      ColonsSplit(t[1..], n - 1);
      assert t[1..][..n - 1] == t[..n][1..] && t[1..][n - 1..] == t[n..];
    } else {
      assert t[n..] == t;
    }
  }

  // ---------- What equal strings mean ----------

  function RenderAll(events: seq<Event>): seq<string> {
    seq(|events|, i requires 0 <= i < |events| => Render(events[i]))
  }

  /** A token as the tokenizer can yield it. */
  predicate Tokenized(token: Token) {
    (token.StartTag? || token.SelfClosingTag?) ==>
      forall i :: 0 <= i < |token.attributes| ==> IsKey(token.attributes[i].key)
  }

  /** No colon in the name of a tag that has attributes. */
  predicate Plain(token: Token) {
    (token.StartTag? || token.SelfClosingTag?) ==> ':' !in token.name
  }

  /** The colons that could be moved between a tag and its first attribute. */
  function TagColons(event: Event): nat {
    if event.Start? || event.Empty? then Colons(event.tag) else 0
  }

  ghost predicate SameColons(before: seq<Event>, after: seq<Event>)
    requires |before| == |after|
  {
    forall i :: 0 <= i < |before| ==> TagColons(before[i]) == TagColons(after[i])
  }

  lemma {:induction false} NoColons(s: string)
    requires ':' !in s
    ensures Colons(Lower(s)) == 0
  {
    if s != "" {
      assert s[0] in s && forall c :: c in s[1..] ==> c in s;
      assert Lower(s)[1..] == Lower(s[1..]);
      NoColons(s[1..]);
    }
  }

  lemma LowerKey(key: string)
    requires IsKey(key)
    ensures IsKey(Lower(key))
  {
    var low := Lower(key)[1..];
    assert forall i :: 0 <= i < |low| ==> low[i] == LowerChar(key[1..][i]) && key[1..][i] != '=';
  }

  lemma PlainAttributes(attributes: seq<Attribute>, translatable: set<string>)
    requires forall i :: 0 <= i < |attributes| ==> IsKey(attributes[i].key)
    ensures forall i :: 0 <= i < |SortedAttributes(attributes, translatable)|
              ==> IsAttribute(SortedAttributes(attributes, translatable)[i])
  {
    var texts, ordered := AttributeTexts(attributes, translatable), SortedAttributes(attributes, translatable);
    forall i | 0 <= i < |ordered| ensures IsAttribute(ordered[i]) {
      assert ordered[i] in multiset(ordered);
      var k :| 0 <= k < |texts| && texts[k] == ordered[i];
      PlainAttribute(attributes[k], translatable);
    }
  }

  lemma PlainAttribute(attribute: Attribute, translatable: set<string>)
    requires IsKey(attribute.key)
    ensures IsAttribute(AttributeText(attribute, translatable))
  {
    var key := Lower(attribute.key);
    var value := if key in translatable then "<translated>" else attribute.value;
    LowerKey(attribute.key);
    Assoc(key, "=", Quote(value));
    assert AttributeText(attribute, translatable) == key + ("=" + Quote(value));
  }

  lemma {:induction false} ReadableEvents(tokens: seq<Token>, translatable: set<string>)
    requires forall i :: 0 <= i < |tokens| ==> Tokenized(tokens[i])
    ensures forall i :: 0 <= i < |Events(tokens, translatable)| ==> Readable(Events(tokens, translatable)[i])
  {
    if tokens != [] {
      var token := tokens[|tokens| - 1];
      ReadableEvents(tokens[..|tokens| - 1], translatable);
      if token.StartTag? || token.SelfClosingTag? {
        PlainAttributes(token.attributes, translatable);
      }
    }
  }

  lemma {:induction false} PlainEvents(tokens: seq<Token>, translatable: set<string>)
    requires forall i :: 0 <= i < |tokens| ==> Plain(tokens[i])
    ensures forall i :: 0 <= i < |Events(tokens, translatable)| ==> TagColons(Events(tokens, translatable)[i]) == 0
  {
    if tokens != [] {
      var token := tokens[|tokens| - 1];
      PlainEvents(tokens[..|tokens| - 1], translatable);
      if token.StartTag? || token.SelfClosingTag? {
        NoColons(token.name);
      }
    }
  }

  /** Lists of events that render alike are equal exactly when their tags have as many colons, one by one. */
  lemma RenderAllDecides(before: seq<Event>, after: seq<Event>)
    requires forall i :: 0 <= i < |before| ==> Readable(before[i])
    requires forall i :: 0 <= i < |after| ==> Readable(after[i])
    requires RenderAll(before) == RenderAll(after)
    ensures |before| == |after| && (before == after <==> SameColons(before, after))
  {
    assert |RenderAll(before)| == |RenderAll(after)|;
    if SameColons(before, after) {
      forall i | 0 <= i < |before| ensures before[i] == after[i] {
        assert RenderAll(before)[i] == RenderAll(after)[i];
        RenderDecides(before[i], after[i]);
      }
    }
  }

  /** Two documents as the tokenizer can yield them that pass the comparison: when it has told the truth. */
  lemma ComparisonDecides(source: seq<Token>, output: seq<Token>, translatable: set<string>)
    requires forall i :: 0 <= i < |source| ==> Tokenized(source[i])
    requires forall i :: 0 <= i < |output| ==> Tokenized(output[i])
    requires RenderAll(Events(source, translatable)) == RenderAll(Events(output, translatable))
    ensures |Events(source, translatable)| == |Events(output, translatable)|
    ensures Events(source, translatable) == Events(output, translatable)
       <==> SameColons(Events(source, translatable), Events(output, translatable))
  {
    ReadableEvents(source, translatable);
    ReadableEvents(output, translatable);
    RenderAllDecides(Events(source, translatable), Events(output, translatable));
  }

  /**
   Without colons in tags, equal strings mean equal events; so a clean source makes the output clean,
   unless its tokenizer failed.
   */
  lemma CleanCarriesOver(source: Document, output: Document, translatable: set<string>)
    requires forall i :: 0 <= i < |source.tokens| ==> Tokenized(source.tokens[i]) && Plain(source.tokens[i])
    requires forall i :: 0 <= i < |output.tokens| ==> Tokenized(output.tokens[i]) && Plain(output.tokens[i])
    requires RenderAll(Events(source.tokens, translatable)) == RenderAll(Events(output.tokens, translatable))
    ensures Events(source.tokens, translatable) == Events(output.tokens, translatable)
    ensures ComplaintsOf(source, translatable) == [] ==>
      (ComplaintsOf(output, translatable) == [] <==> output.failure.None?)
  {
    ComparisonDecides(source.tokens, output.tokens, translatable);
    PlainEvents(source.tokens, translatable);
    PlainEvents(output.tokens, translatable);
  }

  ghost function ComplaintsOf(document: Document, translatable: set<string>): seq<MarkupError> {
    Complaints(Nest(Tags(Events(document.tokens, translatable))), document.failure)
  }

  lemma OneAttribute(attribute: Attribute)
    ensures SortedAttributes([attribute], {}) == [AttributeText(attribute, {})]
  {
    var text := AttributeText(attribute, {});
    assert AttributeTexts([attribute], {}) == [text];
    SortedOne(text);
  }

  lemma OneToken(token: Token)
    ensures Events([token], {}) == EventsOf(token, {})
  {
    assert [token][..0] == [] && Events([token][..0], {}) == [];
  }

  /** An event that opens and closes nothing nests. */
  lemma NoTagsBalanced(event: Event)
    requires TagsOf(event) == []
    ensures Balanced(Tags([event]))
  {
    assert [event][..0] == [] && Tags([event]) == [];
    assert Flatten([]) == Tags([event]);
  }

  /** The events of one self-closing tag with one attribute. */
  lemma OneTag(name: string, key: string, value: string)
    requires Lower(name) == name && Lower(key) == key
    ensures Events([SelfClosingTag(name, [Attribute(key, value)])], {}) == [Empty(name, [key + "=" + Quote(value)])]
    ensures Balanced(Tags([Empty(name, [key + "=" + Quote(value)])]))
  {
    OneAttribute(Attribute(key, value));
    OneToken(SelfClosingTag(name, [Attribute(key, value)]));
    NoTagsBalanced(Empty(name, [key + "=" + Quote(value)]));
  }

  /** A colon can stand for the end of the tag or within the name of the first attribute. */
  lemma ColonRenders(tag: string, prefix: string, attribute: string)
    ensures Render(Empty(tag, [prefix + (":" + attribute)])) == Render(Empty(tag + (":" + prefix), [attribute]))
  {
    Assoc(tag, ":" + prefix, ":" + attribute);
    Assoc(":", prefix, ":" + attribute);
  }

  predicate IsLower(s: string) {
    Lower(s) == s
  }

  /**
   The colon moves from the attribute into the tag, as from `<a b:x="1"/>` to `<a:b x="1"/>`: the tag has changed,
   and yet both documents nest and their events render alike, so the check finds no issue.
   */
  lemma ColonMoves(tag: string, prefix: string, key: string, value: string)
    requires IsLower(tag) && IsLower(key) && IsLower(prefix + (":" + key)) && IsLower(tag + (":" + prefix))
    ensures var source := [SelfClosingTag(tag, [Attribute(prefix + (":" + key), value)])];
      var output := [SelfClosingTag(tag + (":" + prefix), [Attribute(key, value)])];
      && Events(source, {}) != Events(output, {})
      && RenderAll(Events(source, {})) == RenderAll(Events(output, {}))
      && Balanced(Tags(Events(source, {}))) && Balanced(Tags(Events(output, {})))
  {
    OneTag(tag, prefix + (":" + key), value);
    OneTag(tag + (":" + prefix), key, value);
    var attribute := key + "=" + Quote(value);
    Assoc(prefix, ":" + key, "=" + Quote(value));
    Assoc(":", key, "=" + Quote(value));
    Assoc(prefix + (":" + key), "=", Quote(value));
    Assoc(key, "=", Quote(value));
    assert prefix + (":" + key) + "=" + Quote(value) == prefix + (":" + attribute);
    ColonRenders(tag, prefix, attribute);
    OneRendered(Empty(tag, [prefix + (":" + attribute)]), Empty(tag + (":" + prefix), [attribute]));
  }

  lemma OneRendered(e: Event, f: Event)
    requires Render(e) == Render(f)
    ensures RenderAll([e]) == RenderAll([f])
  {
  }

  // ---------- The check ----------

  datatype Issue = XmlInvalid | SourceMarkupInvalid | MarkupInvalid | MarkupStructureChanged | EntitiesChanged

  /** The tokenizer came to the end of the input, and the tags nest. */
  ghost predicate Clean(document: Document, translatable: set<string>) {
    document.failure.None? && Balanced(Tags(Events(document.tokens, translatable)))
  }

  function Lowered(attributes: seq<string>): set<string> {
    set i | 0 <= i < |attributes| :: Lower(attributes[i])
  }

  function When(condition: bool, issue: Issue): seq<Issue> {
    if condition then [issue] else []
  }

  /** The rendered events of a document, and whether it is clean. */
  datatype Reading = Reading(rendered: seq<string>, clean: bool)

  ghost function Read(document: Document, translatable: set<string>): Reading {
    Reading(RenderAll(Events(document.tokens, translatable)), Clean(document, translatable))
  }

  /** A source that is not clean ends the check. */
  ghost function Verdict(source: Reading, output: Reading, xmlFailure: Option<string>,
                         sourceEntities: seq<string>, outputEntities: seq<string>): seq<Issue> {
    When(xmlFailure.Some?, XmlInvalid)
    + if !source.clean then [SourceMarkupInvalid]
      else When(!output.clean, MarkupInvalid) + When(source.rendered != output.rendered, MarkupStructureChanged)
           + When(multiset(sourceEntities) != multiset(outputEntities), EntitiesChanged)
  }

  method Judge(source: Reading, output: Reading, xmlFailure: Option<string>,
               sourceEntities: seq<string>, outputEntities: seq<string>)
    returns (issues: seq<Issue>)
    ensures issues == Verdict(source, output, xmlFailure, sourceEntities, outputEntities)
  {
    issues := When(xmlFailure.Some?, XmlInvalid);
    if !source.clean {
      return issues + [SourceMarkupInvalid];
    }
    var differences := [];
    if !output.clean {
      differences := differences + [MarkupInvalid];
    }
    assert differences == When(!output.clean, MarkupInvalid);
    if source.rendered != output.rendered {
      differences := differences + [MarkupStructureChanged];
    }
    var changed := ComparePattern(sourceEntities, outputEntities);
    differences := differences + When(changed, EntitiesChanged);
    issues := issues + differences;
  }

  method ReadDocument(document: Document, translatable: set<string>) returns (reading: Reading)
    ensures reading == Read(document, translatable)
  {
    var events, errors := HtmlStructure(document, translatable);
    reading := Reading(RenderAll(events), errors == []);
  }

  /**
   `addMarkupChecks`. What the XML decoder says of the output, if the source is XML, and the entities of both texts
   are given.
   */
  method AddMarkupChecks(source: Document, output: Document, attributes: seq<string>, xmlFailure: Option<string>,
                         sourceEntities: seq<string>, outputEntities: seq<string>)
    returns (issues: seq<Issue>)
    ensures issues == Verdict(Read(source, Lowered(attributes)), Read(output, Lowered(attributes)), xmlFailure,
                              sourceEntities, outputEntities)
  {
    var allowed := Lowered(attributes);
    var before := ReadDocument(source, allowed);
    var after := ReadDocument(output, allowed);
    issues := Judge(before, after, xmlFailure, sourceEntities, outputEntities);
  }

  /** No issue exactly when the output holds up in every respect. */
  lemma NoIssueExactly(source: Reading, output: Reading, xmlFailure: Option<string>,
                       sourceEntities: seq<string>, outputEntities: seq<string>)
    ensures Verdict(source, output, xmlFailure, sourceEntities, outputEntities) == [] <==>
      (xmlFailure.None? && source.clean && output.clean && source.rendered == output.rendered
       && multiset(sourceEntities) == multiset(outputEntities))
  {
  }

  /** The change of tag of `ColonMoves` passes the whole check. */
  lemma TagChangePasses(tag: string, prefix: string, key: string, value: string, entities: seq<string>)
    requires IsLower(tag) && IsLower(key) && IsLower(prefix + (":" + key)) && IsLower(tag + (":" + prefix))
    ensures var source := Document([SelfClosingTag(tag, [Attribute(prefix + (":" + key), value)])], None);
      var output := Document([SelfClosingTag(tag + (":" + prefix), [Attribute(key, value)])], None);
      Verdict(Read(source, {}), Read(output, {}), None, entities, entities) == []
  {
    var source := Document([SelfClosingTag(tag, [Attribute(prefix + (":" + key), value)])], None);
    var output := Document([SelfClosingTag(tag + (":" + prefix), [Attribute(key, value)])], None);
    ColonMoves(tag, prefix, key, value);
    NoIssueExactly(Read(source, {}), Read(output, {}), None, entities, entities);
  }
}
