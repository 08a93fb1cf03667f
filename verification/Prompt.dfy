/**
 `ValidateTranslationRequest`, `promptOptions` and `BuildPrompt`: the prompt ends
 with the fenced source, and a reader that starts from the end of the prompt gets
 exactly the source back, whatever the rest of the prompt holds. The fixed wording
 and the language table are parameters.
 */
module Prompt {
  import opened Wrappers
  import opened Strings
  import opened Fence
  import Jobs
  import opened Quoting
  import opened TextLines
  import opened PromptReader

  const TEXT := "text"
  const HTML_XML := "html_xml"
  const STYLE_AUDIENCE := "style_audience"
  const SEGMENTED := "segmented"

  /** The constants of the package: the common contract, the rules of each kind, the known languages. */
  datatype Wording = Wording(contract: string, rules: map<string, string>, languages: set<string>)

  /** A missing glossary is not an empty one. */
  type Request = Jobs.Translation

  datatype RequestError =
    | TargetMissing | TargetUnknown | SourceLanguageUnknown | KindUnknown
    | GlossaryMissing | StyleMissing | DelimitersMissing

  // ---------- Validation ----------

  predicate IsSpace(c: char) {
    '\t' <= c <= '\r' || c == ' '
  }

  function KindOf(request: Request): string {
    if request.kind == "" then TEXT else request.kind
  }

  /** What a request must meet. */
  predicate Acceptable(wording: Wording, request: Request) {
    && (exists i :: 0 <= i < |request.targetLanguage| && !IsSpace(request.targetLanguage[i]))
    && request.targetLanguage in wording.languages
    && request.sourceLanguage in wording.languages + {""}
    && KindOf(request) in wording.rules
    && request.glossary.Some?
    && (KindOf(request) == STYLE_AUDIENCE ==> request.style + request.audience != "")
    && (KindOf(request) == SEGMENTED ==> request.delimiters != [])
  }

  /** The first complaint, or none exactly for an acceptable request. */
  function Validate(wording: Wording, request: Request): (error: Option<RequestError>)
    ensures error.None? <==> Acceptable(wording, request)
  {
    if forall i :: 0 <= i < |request.targetLanguage| ==> IsSpace(request.targetLanguage[i]) then Some(TargetMissing)
    else if request.targetLanguage !in wording.languages then Some(TargetUnknown)
    else if request.sourceLanguage != "" && request.sourceLanguage !in wording.languages
    then Some(SourceLanguageUnknown)
    else if KindOf(request) !in wording.rules then Some(KindUnknown)
    else if request.glossary.None? then Some(GlossaryMissing)
    else if KindOf(request) == STYLE_AUDIENCE && request.style == "" && request.audience == "" then Some(StyleMissing)
    else if KindOf(request) == SEGMENTED && |request.delimiters| == 0 then Some(DelimitersMissing)
    else None
  }

  // ---------- What the prompt says ----------

  ghost function Terms(glossary: map<string, string>, keys: seq<string>): seq<string>
    requires forall i :: 0 <= i < |keys| ==> keys[i] in glossary
  {
    seq(|keys|, i requires 0 <= i < |keys| => "- " + keys[i] + " => " + glossary[keys[i]])
  }

  function Quoted(s: seq<string>): seq<string> {
    seq(|s|, i requires 0 <= i < |s| => Quote(s[i]))
  }

  /** The glossary in sorted order: one text for one map. */
  ghost function GlossaryLines(glossary: map<string, string>): seq<string> {
    if glossary == map[] then [] else
      ["", "Glossary (source => required target):"] + Terms(glossary, InOrder(glossary.Keys))
  }

  /** An optional section: a blank line and its text. */
  function Section(shown: bool, line: string): seq<string> {
    if shown then ["", line] else []
  }

  function AttributeList(request: Request): string {
    if request.attributes == [] then "(none)" else Join(request.attributes, ", ")
  }

  ghost function OptionLines(request: Request): seq<string>
    requires request.glossary.Some?
  {
    GlossaryLines(request.glossary.value)
    + Section(request.style != "", "Required style: " + request.style)
    + Section(request.audience != "", "Intended audience: " + request.audience)
    + Section(request.kind == HTML_XML, "Translatable attributes: " + AttributeList(request))
    + Section(request.delimiters != [], "Exact segment delimiters: " + Join(Quoted(request.delimiters), ", "))
  }

  function TaskLine(request: Request): string {
    "Translate the following"
    + (if request.sourceLanguage == "" then "" else " from " + request.sourceLanguage)
    + " into " + request.targetLanguage + "."
  }

  /** Everything above the fenced source. */
  ghost function Preamble(wording: Wording, request: Request): seq<string>
    requires Acceptable(wording, request)
  {
    [TaskLine(request), "", "Translation contract:", wording.contract, "", "Format-specific rules:",
     wording.rules[KindOf(request)]]
    + OptionLines(request.(kind := KindOf(request))) + ["", "Source:", ""]
  }

  ghost function PromptText(wording: Wording, request: Request): string
    requires Acceptable(wording, request)
  {
    Join(Preamble(wording, request), "\n") + "\n"
    + Enclose("", request.source, RequiredFenceLength(request.source, 4).value)
  }

  // ---------- The steps ----------

  method TermLines(glossary: map<string, string>, keys: seq<string>) returns (lines: seq<string>)
    requires forall i :: 0 <= i < |keys| ==> keys[i] in glossary
    ensures lines == Terms(glossary, keys)
  {
    lines := [];
    for n := 0 to |keys|
      invariant lines == Terms(glossary, keys)[..n]
    {
      lines := lines + ["- " + keys[n] + " => " + glossary[keys[n]]];
    }
  }

  method GlossaryOptions(glossary: map<string, string>) returns (lines: seq<string>)
    ensures lines == GlossaryLines(glossary)
  {
    lines := [];
    if glossary != map[] {
      var keys := SortedKeys(glossary.Keys);
      lines := TermLines(glossary, keys);
      lines := ["", "Glossary (source => required target):"] + lines;
    }
  }

  method PromptOptions(request: Request) returns (lines: seq<string>)
    requires request.glossary.Some?
    ensures lines == OptionLines(request)
  {
    lines := GlossaryOptions(request.glossary.value);
    ghost var all := lines;
    var line := "Required style: " + request.style;
    if request.style != "" {
      lines := lines + ["", line];
    }
    all := all + Section(request.style != "", line);
    assert lines == all;
    line := "Intended audience: " + request.audience;
    if request.audience != "" {
      lines := lines + ["", line];
    }
    all := all + Section(request.audience != "", line);
    assert lines == all;
    line := "(none)";
    if request.attributes != [] {
      line := Join(request.attributes, ", ");
    }
    line := "Translatable attributes: " + line;
    if request.kind == HTML_XML {
      lines := lines + ["", line];
    }
    all := all + Section(request.kind == HTML_XML, line);
    assert lines == all;
    var quoted := QuoteAll(request.delimiters);
    line := "Exact segment delimiters: " + Join(quoted, ", ");
    if request.delimiters != [] {
      lines := lines + ["", line];
    }
    all := all + Section(request.delimiters != [], line);
    assert lines == all;
  }

  method QuoteAll(s: seq<string>) returns (quoted: seq<string>)
    ensures quoted == Quoted(s)
  {
    quoted := [];
    for n := 0 to |s|
      invariant quoted == Quoted(s)[..n]
    {
      quoted := quoted + [Quote(s[n])];
    }
  }

  /** A prompt for every acceptable request, and the source can be read from its end. */
  method BuildPrompt(wording: Wording, request: Request) returns (r: Result<string, RequestError>)
    ensures r.Ok? <==> Acceptable(wording, request)
    ensures r.Err? ==> Validate(wording, request) == Some(r.error)
    ensures r.Ok? ==> r.value == PromptText(wording, request)
    ensures r.Ok? ==> ReadSource(r.value) == Some(request.source)
    ensures r.Ok? && request.sourceLanguage == "" ==>
              "Translate the following into " + request.targetLanguage + ".\n" <= r.value
    ensures r.Ok? && request.sourceLanguage != "" ==>
              "Translate the following from " + request.sourceLanguage + " into " + request.targetLanguage + ".\n"
              <= r.value
    ensures r.Ok? && Legible(request) && LegibleRules(wording) ==>
              ReadPrompt(wording.contract, r.value) == Some(ContentOf(wording, request))
  {
    var error := Validate(wording, request);
    if error.Some? {
      return Err(error.value);
    }
    var kinded := request.(kind := KindOf(request));
    var sections := [TaskLine(kinded), "", "Translation contract:", wording.contract, "", "Format-specific rules:",
                     wording.rules[kinded.kind]];
    var options := PromptOptions(kinded);
    sections := sections + options + ["", "Source:", ""];
    assert sections == Preamble(wording, request);
    var fenced := FenceSource(request.source, []).value;
    JoinEnds(sections, fenced, "\n");
    r := Ok(Join(sections + [fenced], "\n"));
    PromptIsRead(wording, request, r.value);
  }

  /** What a prompt holds, for a reader who knows only its fixed words. */
  lemma PromptIsRead(wording: Wording, request: Request, prompt: string)
    requires Acceptable(wording, request) && prompt == PromptText(wording, request)
    ensures ReadSource(prompt) == Some(request.source)
    ensures request.sourceLanguage == "" ==>
              "Translate the following into " + request.targetLanguage + ".\n" <= prompt
    ensures request.sourceLanguage != "" ==>
              "Translate the following from " + request.sourceLanguage + " into " + request.targetLanguage + ".\n"
              <= prompt
    ensures Legible(request) && LegibleRules(wording) ==>
              ReadPrompt(wording.contract, prompt) == Some(ContentOf(wording, request))
  {
    var n := RequiredFenceLength(request.source, 4).value;
    SourceReadsBack(Join(Preamble(wording, request), "\n") + "\n", request.source, n);
    StartsWithTask(wording, request, Enclose("", request.source, n));
    TaskWords(request);
    if Legible(request) && LegibleRules(wording) {
      PromptReadsBack(wording, request, n);
    }
  }

  /** The first sentence, in its own words. */
  lemma TaskWords(request: Request)
    ensures request.sourceLanguage == "" ==>
              TaskLine(request) + "\n" == "Translate the following into " + request.targetLanguage + ".\n"
    ensures request.sourceLanguage != "" ==>
              TaskLine(request) + "\n"
              == "Translate the following from " + request.sourceLanguage + " into " + request.targetLanguage + ".\n"
  {
  }

  lemma StartsWithTask(wording: Wording, request: Request, fenced: string)
    requires Acceptable(wording, request)
    ensures TaskLine(request) + "\n" <= Join(Preamble(wording, request), "\n") + "\n" + fenced
  {
    var lines := Preamble(wording, request);
    assert lines[0] == TaskLine(request) && |lines| > 1;
    StartsText(Join(lines, "\n"), lines[0], Join(lines[1..], "\n"), fenced);
  }

  lemma StartsText(text: string, first: string, rest: string, fenced: string)
    requires text == first + ("\n" + rest)
    ensures first + "\n" <= text + "\n" + fenced
  {
    assert text + "\n" + fenced == first + "\n" + (rest + "\n" + fenced);
  }

  // ---------- The source reads back ----------

  /** Whatever stands before the fence, and whatever the source holds. */
  lemma SourceReadsBack(head: string, source: string, n: nat)
    requires n > 0 && !HasRun(source, n)
    ensures ReadSource(head + Enclose("", source, n)) == Some(source)
    ensures OpeningAt(head + Enclose("", source, n)) == Some(|head|)
  {
    var before := head + Ticks(n) + "\n" + source + "\n";
    EnclosedParts(head, source, n);
    TailIsFence(before, n);
    RunIsOpening(head, source, n, |before|);
  }

  lemma EnclosedParts(head: string, source: string, n: nat)
    ensures var prompt := head + Enclose("", source, n);
      var before := head + Ticks(n) + "\n" + source + "\n";
      prompt == before + Ticks(n) && prompt[..|prompt| - n] == before
      && prompt[|head| + n + 1..|prompt| - n - 1] == source
  {
    var prompt := head + Enclose("", source, n);
    var before := head + Ticks(n) + "\n" + source + "\n";
    assert prompt == before + Ticks(n);
    assert before[|head| + n + 1..|before| - 1] == source;
  }

  lemma {:induction false} TailIsFence(before: string, n: nat)
    requires before != "" && before[|before| - 1] != '`'
    ensures TailRun(before + Ticks(n)) == n
  {
    if n == 0 {
      assert before + Ticks(n) == before;
    } else {
      assert (before + Ticks(n))[..|before| + n - 1] == before + Ticks(n - 1);
      TailIsFence(before, n - 1);
    }
  }

  /** No run of the fence's length starts behind the opening fence. */
  lemma {:induction false} RunIsOpening(head: string, source: string, n: nat, i: nat)
    requires n > 0 && !HasRun(source, n) && i >= |head|
    ensures RunBefore(head + Ticks(n) + "\n" + source + "\n", n, i) == Some(|head|)
  {
    var before := head + Ticks(n) + "\n" + source + "\n";
    if i == |head| {
      assert forall k :: i <= k < i + n ==> before[k] == Ticks(n)[k - i];
      assert RunAt(before, i, n);
    } else {
      if RunAt(before, i, n) {
        RunInSource(head, source, n, i);
      }
      RunIsOpening(head, source, n, i - 1);
    }
  }

  lemma RunInSource(head: string, source: string, n: nat, i: nat)
    requires n > 0 && i > |head| && RunAt(head + Ticks(n) + "\n" + source + "\n", i, n)
    ensures HasRun(source, n)
  {
    var before, start := head + Ticks(n) + "\n" + source + "\n", |head| + n + 1;
    assert before[start - 1] == '\n' && before[|before| - 1] == '\n';
    assert before[i + n - 1] == '`';
    assert i >= start by {
      assert forall k :: i <= k < i + n ==> before[k] == '`';
    }
    assert forall k :: 0 <= k < |source| ==> source[k] == before[start + k];
    assert RunAt(source, i - start, n);
  }

  // ---------- The delimiters of the prompt ----------

  /** The line of quoted delimiters reads in one way only. */
  lemma {:induction false} DelimiterLineUnique(a: seq<string>, b: seq<string>)
    requires a != [] && b != [] && Join(Quoted(a), ", ") == Join(Quoted(b), ", ")
    ensures a == b
  {
    JoinStartsQuoted(a);
    JoinStartsQuoted(b);
    var x := if |a| == 1 then "" else ", " + Join(Quoted(a[1..]), ", ");
    var y := if |b| == 1 then "" else ", " + Join(Quoted(b[1..]), ", ");
    QuoteThenRest(a[0], x);
    QuoteThenRest(b[0], y);
    QuoteUnique(a[0], b[0], x, y);
    if |a| > 1 {
      Drop(", ", Join(Quoted(a[1..]), ", "), Join(Quoted(b[1..]), ", "));
      DelimiterLineUnique(a[1..], b[1..]);
    }
    assert a == [a[0]] + a[1..] && b == [b[0]] + b[1..];
  }

  lemma JoinStartsQuoted(s: seq<string>)
    requires s != []
    ensures Join(Quoted(s), ", ") == Quote(s[0]) + if |s| == 1 then "" else ", " + Join(Quoted(s[1..]), ", ")
  {
    assert Quoted(s)[1..] == Quoted(s[1..]);
  }

  // ---------- The rest of the prompt reads back ----------

  /** What stands on a line holds no line feed, and no separator occurs before its place. */
  ghost predicate Legible(request: Request)
    requires request.glossary.Some?
  {
    && SingleLines([request.sourceLanguage, request.targetLanguage, request.style, request.audience])
    && !Has(request.sourceLanguage + " ", " into ")
    && (forall key :: key in request.glossary.value ==>
          '\n' !in key && '\n' !in request.glossary.value[key] && !Has(key + " ", " => "))
    && (request.kind == "html_xml" ==> SingleLines(request.attributes))
  }

  /** No rule has an empty line. */
  predicate LegibleRules(wording: Wording) {
    forall kind :: kind in wording.rules ==> "" !in Lines(wording.rules[kind])
  }

  ghost function Pairs(glossary: map<string, string>): seq<(string, string)> {
    var keys := InOrder(glossary.Keys);
    seq(|keys|, i requires 0 <= i < |keys| => (keys[i], glossary[keys[i]]))
  }

  /** What the prompt of a request says. */
  ghost function ContentOf(wording: Wording, request: Request): Content
    requires Acceptable(wording, request)
  {
    Content(request.source, request.sourceLanguage, request.targetLanguage,
            wording.rules[if request.kind == "" then "text" else request.kind],
            Pairs(request.glossary.value), request.style, request.audience,
            if request.kind != "html_xml" then None else Some(AttributeList(request)),
            if request.delimiters == [] then None else Some(Join(Quoted(request.delimiters), ", ")))
  }

  /** The first line gives both languages back exactly if its separator does not occur in the first of them. */
  lemma TaskReads(request: Request)
    ensures ReadTask(TaskLine(request)) == Some((request.sourceLanguage, request.targetLanguage))
       <==> !Has(request.sourceLanguage + " ", " into ")
  {
    var source, target := request.sourceLanguage, request.targetLanguage;
    if source == "" {
      assert TaskLine(request) == "Translate the following into " + target + ".";
      assert (source + " ")[1..] == "";
      IntoReads(target);
    } else {
      assert TaskLine(request) == "Translate the following from " + (source + (" into" + " " + target)) + ".";
      FromReads(source, target);
    }
  }

  lemma IntoReads(target: string)
    ensures ReadTask("Translate the following into " + target + ".") == Some(("", target))
  {
    var line := "Translate the following into " + target + ".";
    assert line[..|line| - 1] == "Translate the following into " + target;
    assert line[29..|line| - 1] == target;
  }

  lemma FromReads(source: string, target: string)
    ensures var line := "Translate the following from " + (source + (" into" + " " + target)) + ".";
      ReadTask(line) == Some((source, target)) <==> !Has(source + " ", " into ")
  {
    var languages := source + (" into" + " " + target);
    assert " into" + " " == " into ";
    if Has(source + " ", " into ") {
      FindBefore(source, " into", target);
    } else {
      FindAfter(source, " into", target);
      assert languages[..|source|] == source && languages[|source| + 6..] == target;
    }
    FromReadsBoth("Translate the following from " + languages + ".", languages);
  }

  lemma FromReadsBoth(line: string, languages: string)
    requires line == "Translate the following from " + languages + "." && Find(languages, " into ").Some?
    ensures var at := Find(languages, " into ").value;
      ReadTask(line) == Some((languages[..at], languages[at + 6..]))
  {
    assert line[..|line| - 1] == "Translate the following from " + languages;
    assert line[24] == 'f' && line[29..|line| - 1] == languages;
  }

  /** A glossary line gives both terms back exactly if its separator does not occur in the first of them. */
  lemma TermReads(key: string, value: string)
    ensures ReadTerm("- " + key + " => " + value) == (key, value) <==> !Has(key + " ", " => ")
  {
    var line, term := "- " + key + " => " + value, key + (" =>" + " " + value);
    assert line == "- " + term;
    assert line[2..] == term;
    assert " =>" + " " == " => ";
    if Has(key + " ", " => ") {
      FindBefore(key, " =>", value);
    } else {
      FindAfter(key, " =>", value);
      assert term[..|key|] == key && term[|key| + 4..] == value;
    }
  }

  // ---------- Sections ----------

  /** An empty line, and then one that starts with one of these letters. */
  predicate NextStarts(lines: seq<string>, letters: set<char>) {
    |lines| >= 2 && lines[0] == "" && lines[1] != "" && lines[1][0] in letters
  }

  lemma SectionReads(shown: bool, title: string, line: string, rest: seq<string>, letters: set<char>)
    requires title != "" && title <= line && NextStarts(rest, letters) && title[0] !in letters
    ensures ReadField(Section(shown, line) + rest, title)
         == Field(if shown then Some(line[|title|..]) else None, rest)
    ensures NextStarts(Section(shown, line) + rest, letters + {title[0]})
  {
    var lines := Section(shown, line) + rest;
    if shown {
      assert lines[0] == "" && lines[1] == line && lines[2..] == rest;
    } else {
      assert lines == rest;
    }
  }

  lemma GlossaryReads(glossary: map<string, string>, rest: seq<string>, letters: set<char>)
    requires forall key :: key in glossary ==> !Has(key + " ", " => ")
    requires NextStarts(rest, letters) && 'G' !in letters
    ensures ReadTerms(GlossaryLines(glossary) + rest) == PromptReader.Terms(Pairs(glossary), rest)
    ensures NextStarts(GlossaryLines(glossary) + rest, letters + {'G'})
  {
    if glossary == map[] {
      NoPairs(glossary);
      assert GlossaryLines(glossary) + rest == rest;
    } else {
      var terms := Terms(glossary, InOrder(glossary.Keys));
      HeadedTermsRead(terms, rest);
      TermsRead(glossary);
    }
  }

  lemma HeadedTermsRead(terms: seq<string>, rest: seq<string>)
    requires (forall i :: 0 <= i < |terms| ==> terms[i] != "") && rest != [] && rest[0] == ""
    ensures ReadTerms(["", "Glossary (source => required target):"] + terms + rest)
         == PromptReader.Terms(ReadTermLines(terms), rest)
    ensures NextStarts(["", "Glossary (source => required target):"] + terms + rest, {'G'})
  {
    var header := ["", "Glossary (source => required target):"];
    var lines := header + terms + rest;
    assert lines == header + (terms + rest);
    assert lines[..2] == header && lines[2..] == terms + rest;
    FilledThenEmpty(terms, rest);
  }

  lemma NoPairs(glossary: map<string, string>)
    requires glossary == map[]
    ensures Pairs(glossary) == []
  {
  }

  lemma TermsRead(glossary: map<string, string>)
    requires forall key :: key in glossary ==> !Has(key + " ", " => ")
    ensures ReadTermLines(Terms(glossary, InOrder(glossary.Keys))) == Pairs(glossary)
  {
    var keys := InOrder(glossary.Keys);
    forall i | 0 <= i < |keys| ensures ReadTerm(Terms(glossary, keys)[i]) == (keys[i], glossary[keys[i]]) {
      TermReads(keys[i], glossary[keys[i]]);
    }
  }

  /** The lines of the sections and what follows them. */
  ghost function Tail(request: Request): seq<string>
    requires request.glossary.Some?
  {
    OptionLines(request) + ["", "Source:", "", ""]
  }

  /** The four sections of one line each, whatever their lines hold. */
  lemma FieldsRead(style: string, audience: string, attributes: string, delimiters: string,
                   styled: bool, aimed: bool, attributed: bool, delimited: bool, e: seq<string>)
    returns (a: seq<string>, b: seq<string>, c: seq<string>, d: seq<string>)
    requires "Required style: " <= style && "Intended audience: " <= audience
    requires "Translatable attributes: " <= attributes && "Exact segment delimiters: " <= delimiters
    requires NextStarts(e, {'S'})
    ensures a == Section(styled, style) + b && b == Section(aimed, audience) + c
    ensures c == Section(attributed, attributes) + d && d == Section(delimited, delimiters) + e
    ensures ReadField(a, "Required style: ") == Field(if styled then Some(style[16..]) else None, b)
    ensures ReadField(b, "Intended audience: ") == Field(if aimed then Some(audience[19..]) else None, c)
    ensures ReadField(c, "Translatable attributes: ") == Field(if attributed then Some(attributes[25..]) else None, d)
    ensures ReadField(d, "Exact segment delimiters: ") == Field(if delimited then Some(delimiters[26..]) else None, e)
    ensures NextStarts(a, {'S', 'E', 'T', 'I', 'R'})
  {
    d := Section(delimited, delimiters) + e;
    c := Section(attributed, attributes) + d;
    b := Section(aimed, audience) + c;
    a := Section(styled, style) + b;
    SectionReads(delimited, "Exact segment delimiters: ", delimiters, e, {'S'});
    SectionReads(attributed, "Translatable attributes: ", attributes, d, {'S', 'E'});
    SectionReads(aimed, "Intended audience: ", audience, c, {'S', 'E', 'T'});
    SectionReads(styled, "Required style: ", style, b, {'S', 'E', 'T', 'I'});
  }

  lemma Regrouped<T>(u: seq<T>, v: seq<T>, w: seq<T>, x: seq<T>, y: seq<T>, z: seq<T>)
    ensures u + v + w + x + y + z == u + (v + (w + (x + (y + z))))
  {
  }

  lemma SectionsRead(request: Request, rules: seq<string>, languages: (string, string))
    requires request.glossary.Some? && Legible(request) && forall i :: 0 <= i < |rules| ==> rules[i] != ""
    ensures ReadSections(rules + Tail(request), languages, request.source)
         == Some(Content(request.source, languages.0, languages.1, Join(rules, "\n"), Pairs(request.glossary.value),
                         request.style, request.audience,
                         if request.kind != "html_xml" then None else Some(AttributeList(request)),
                         if request.delimiters == [] then None else Some(Join(Quoted(request.delimiters), ", "))))
  {
    var glossary, style, audience, attributes, delimiters := TailReads(request, Tail(request));
    Assembled(rules, Tail(request), glossary, style, audience, attributes, delimiters, languages, request.source);
  }

  /** What the reader makes of each section. */
  lemma TailReads(request: Request, tail: seq<string>)
    returns (glossary: PromptReader.Terms, style: Field, audience: Field, attributes: Field, delimiters: Field)
    requires request.glossary.Some? && Legible(request) && tail == Tail(request)
    ensures tail != [] && tail[0] == "" && ReadTerms(tail) == glossary
    ensures ReadField(glossary.rest, "Required style: ") == style
    ensures ReadField(style.rest, "Intended audience: ") == audience
    ensures ReadField(audience.rest, "Translatable attributes: ") == attributes
    ensures ReadField(attributes.rest, "Exact segment delimiters: ") == delimiters
    ensures delimiters.rest == ["", "Source:", "", ""]
    ensures glossary.terms == Pairs(request.glossary.value)
    ensures OrEmpty(style.value) == request.style && OrEmpty(audience.value) == request.audience
    ensures attributes.value == if request.kind != "html_xml" then None else Some(AttributeList(request))
    ensures delimiters.value == if request.delimiters == [] then None
                                else Some(Join(Quoted(request.delimiters), ", "))
  {
    var e := ["", "Source:", "", ""];
    var manner, readers := "Required style: " + request.style, "Intended audience: " + request.audience;
    var listed := "Translatable attributes: " + AttributeList(request);
    var quoted := "Exact segment delimiters: " + Join(Quoted(request.delimiters), ", ");
    TextsAfter(request.style, request.audience, AttributeList(request), Join(Quoted(request.delimiters), ", "));
    var a, b, c, d := FieldsRead(manner, readers, listed, quoted, request.style != "", request.audience != "",
                                 request.kind == "html_xml", request.delimiters != [], e);
    GlossaryReads(request.glossary.value, a, {'S', 'E', 'T', 'I', 'R'});
    TailSplits(request, a, b, c, d);
    glossary, style, audience := ReadTerms(tail), ReadField(a, "Required style: "), ReadField(b, "Intended audience: ");
    attributes, delimiters := ReadField(c, "Translatable attributes: "), ReadField(d, "Exact segment delimiters: ");
  }

  lemma Assembled(rules: seq<string>, tail: seq<string>, glossary: PromptReader.Terms, style: Field, audience: Field,
                  attributes: Field, delimiters: Field, languages: (string, string), source: string)
    requires (forall i :: 0 <= i < |rules| ==> rules[i] != "") && tail != [] && tail[0] == ""
    requires ReadTerms(tail) == glossary && ReadField(glossary.rest, "Required style: ") == style
    requires ReadField(style.rest, "Intended audience: ") == audience
    requires ReadField(audience.rest, "Translatable attributes: ") == attributes
    requires ReadField(attributes.rest, "Exact segment delimiters: ") == delimiters
    requires delimiters.rest == ["", "Source:", "", ""]
    ensures ReadSections(rules + tail, languages, source)
         == Some(Content(source, languages.0, languages.1, Join(rules, "\n"), glossary.terms,
                         OrEmpty(style.value), OrEmpty(audience.value), attributes.value, delimiters.value))
  {
    FilledThenEmpty(rules, tail);
  }

  lemma TailSplits(request: Request, a: seq<string>, b: seq<string>, c: seq<string>, d: seq<string>)
    requires request.glossary.Some?
    requires a == Section(request.style != "", "Required style: " + request.style) + b
    requires b == Section(request.audience != "", "Intended audience: " + request.audience) + c
    requires c == Section(request.kind == "html_xml", "Translatable attributes: " + AttributeList(request)) + d
    requires d == Section(request.delimiters != [],
                          "Exact segment delimiters: " + Join(Quoted(request.delimiters), ", "))
                  + ["", "Source:", "", ""]
    ensures Tail(request) == GlossaryLines(request.glossary.value) + a
  {
    Regrouped(GlossaryLines(request.glossary.value),
              Section(request.style != "", "Required style: " + request.style),
              Section(request.audience != "", "Intended audience: " + request.audience),
              Section(request.kind == "html_xml", "Translatable attributes: " + AttributeList(request)),
              Section(request.delimiters != [],
                      "Exact segment delimiters: " + Join(Quoted(request.delimiters), ", ")),
              ["", "Source:", "", ""]);
  }

  lemma TextsAfter(style: string, audience: string, attributes: string, delimiters: string)
    ensures ("Required style: " + style)[16..] == style
    ensures ("Intended audience: " + audience)[19..] == audience
    ensures ("Translatable attributes: " + attributes)[25..] == attributes
    ensures ("Exact segment delimiters: " + delimiters)[26..] == delimiters
  {
  }

  // ---------- Lines of the part above the fence ----------

  lemma {:induction false} JoinSingle(s: seq<string>, separator: string)
    requires SingleLines(s) && '\n' !in separator
    ensures '\n' !in Join(s, separator)
  {
    if |s| > 1 {
      JoinSingle(s[1..], separator);
    }
  }

  lemma {:induction false} EscapedSingle(s: string)
    ensures '\n' !in Escaped(s)
  {
    if s != "" {
      EscapedSingle(s[1..]);
    }
  }

  lemma QuotedSingle(s: seq<string>)
    ensures SingleLines(Quoted(s))
  {
    forall i | 0 <= i < |s| ensures '\n' !in Quoted(s)[i] {
      EscapedSingle(s[i]);
    }
  }

  lemma TermsSingle(glossary: map<string, string>)
    requires forall key :: key in glossary ==> '\n' !in key && '\n' !in glossary[key]
    ensures SingleLines(GlossaryLines(glossary))
  {
    if glossary != map[] {
      var terms := Terms(glossary, InOrder(glossary.Keys));
      TermLinesSingle(glossary, InOrder(glossary.Keys));
      TitleSingle();
      SinglesOfTwo(["", "Glossary (source => required target):"], terms);
    }
  }

  lemma TitleSingle()
    ensures SingleLines(["", "Glossary (source => required target):"])
  {
  }

  lemma TermLinesSingle(glossary: map<string, string>, keys: seq<string>)
    requires forall key :: key in glossary ==> '\n' !in key && '\n' !in glossary[key]
    requires forall i :: 0 <= i < |keys| ==> keys[i] in glossary
    ensures SingleLines(Terms(glossary, keys))
  {
    forall i | 0 <= i < |keys| ensures '\n' !in Terms(glossary, keys)[i] {
      TermSingle(keys[i], glossary[keys[i]]);
    }
  }

  lemma TermSingle(key: string, value: string)
    requires '\n' !in key && '\n' !in value
    ensures '\n' !in "- " + key + " => " + value
  {
  }

  lemma SectionSingle(shown: bool, title: string, line: string)
    requires '\n' !in title && (shown ==> '\n' !in line)
    ensures SingleLines(Section(shown, title + line))
  {
  }

  lemma SinglesOfTwo(a: seq<string>, b: seq<string>)
    requires SingleLines(a) && SingleLines(b)
    ensures SingleLines(a + b)
  {
  }

  lemma LegibleFields(request: Request)
    requires request.glossary.Some? && Legible(request)
    ensures '\n' !in request.sourceLanguage && '\n' !in request.targetLanguage
    ensures '\n' !in request.style && '\n' !in request.audience
  {
    var fields := [request.sourceLanguage, request.targetLanguage, request.style, request.audience];
    assert '\n' !in fields[0] && '\n' !in fields[1] && '\n' !in fields[2] && '\n' !in fields[3];
  }

  lemma OptionsSingle(request: Request)
    requires request.glossary.Some? && Legible(request)
    ensures SingleLines(OptionLines(request))
  {
    var attributes, delimiters := AttributeList(request), Join(Quoted(request.delimiters), ", ");
    LegibleFields(request);
    TermsSingle(request.glossary.value);
    ListsSingle(request);
    SectionSingle(request.style != "", "Required style: ", request.style);
    SectionSingle(request.audience != "", "Intended audience: ", request.audience);
    SectionSingle(request.kind == "html_xml", "Translatable attributes: ", attributes);
    SectionSingle(request.delimiters != [], "Exact segment delimiters: ", delimiters);
    SinglesOfFive(GlossaryLines(request.glossary.value),
                  Section(request.style != "", "Required style: " + request.style),
                  Section(request.audience != "", "Intended audience: " + request.audience),
                  Section(request.kind == "html_xml", "Translatable attributes: " + attributes),
                  Section(request.delimiters != [], "Exact segment delimiters: " + delimiters));
  }

  lemma ListsSingle(request: Request)
    requires request.glossary.Some? && Legible(request)
    ensures request.kind == "html_xml" ==> '\n' !in AttributeList(request)
    ensures '\n' !in Join(Quoted(request.delimiters), ", ")
  {
    if request.kind == "html_xml" {
      JoinSingle(request.attributes, ", ");
    }
    QuotedSingle(request.delimiters);
    JoinSingle(Quoted(request.delimiters), ", ");
  }

  lemma SinglesOfFive(u: seq<string>, v: seq<string>, w: seq<string>, x: seq<string>, y: seq<string>)
    requires SingleLines(u) && SingleLines(v) && SingleLines(w) && SingleLines(x) && SingleLines(y)
    ensures SingleLines(u + v + w + x + y)
  {
  }

  lemma TaskSingle(request: Request)
    requires request.glossary.Some? && Legible(request)
    ensures '\n' !in TaskLine(request)
  {
    LegibleFields(request);
  }

  /** The lines above the fence, and the empty one that the last line feed leaves. */
  lemma HeadLines(wording: Wording, request: Request)
    requires Acceptable(wording, request) && request.kind == KindOf(request) && Legible(request)
    ensures Lines(Join(Preamble(wording, request), "\n") + "\n")
         == [TaskLine(request)] + (Middle(wording.contract) + (Lines(wording.rules[request.kind]) + Tail(request)))
  {
    TaskSingle(request);
    OptionsSingle(request);
    LinesOfHead(TaskLine(request), wording.contract, wording.rules[request.kind], OptionLines(request));
  }

  lemma LinesOfHead(task: string, contract: string, rules: string, options: seq<string>)
    requires '\n' !in task && SingleLines(options)
    ensures Lines(Join([task, "", "Translation contract:", contract, "", "Format-specific rules:", rules]
                       + options + ["", "Source:", ""], "\n") + "\n")
         == [task] + (Middle(contract) + (Lines(rules) + (options + ["", "Source:", "", ""])))
  {
    var a, b, d := [task, "", "Translation contract:"], ["", "Format-specific rules:"], ["", "Source:", ""];
    FixedLines(task);
    TextsRegrouped(task, contract, rules, options);
    LinesOfTexts(a, contract, b, rules, options, d);
    HeadRegrouped(task, Lines(contract), Lines(rules), options);
  }

  lemma FixedLines(task: string)
    requires '\n' !in task
    ensures SingleLines([task, "", "Translation contract:"])
    ensures SingleLines(["", "Format-specific rules:"]) && SingleLines(["", "Source:", ""])
  {
  }

  lemma TextsRegrouped(task: string, contract: string, rules: string, options: seq<string>)
    ensures [task, "", "Translation contract:", contract, "", "Format-specific rules:", rules]
            + options + ["", "Source:", ""]
         == [task, "", "Translation contract:"] + [contract] + ["", "Format-specific rules:"] + [rules]
            + options + ["", "Source:", ""]
  {
  }

  lemma LinesOfTexts(a: seq<string>, contract: string, b: seq<string>, rules: string, c: seq<string>, d: seq<string>)
    requires SingleLines(a) && SingleLines(b) && SingleLines(c) && SingleLines(d)
    ensures Lines(Join(a + [contract] + b + [rules] + c + d, "\n") + "\n")
         == a + Lines(contract) + b + Lines(rules) + c + d + [""]
  {
    var texts := a + [contract] + b + [rules] + c + d;
    assert contract in texts;
    EndedLines(Join(texts, "\n"));
    LinesOfJoin(texts);
    FlatParts(a, contract, b, rules, c, d);
  }

  lemma EndedLines(s: string)
    ensures Lines(s + "\n") == Lines(s) + [""]
  {
    LinesOfTwo(s, "");
    assert s + "\n" + "" == s + "\n";
    OneLine("");
  }

  lemma FlatParts(a: seq<string>, contract: string, b: seq<string>, rules: string, c: seq<string>, d: seq<string>)
    requires SingleLines(a) && SingleLines(b) && SingleLines(c) && SingleLines(d)
    ensures Flat(a + [contract] + b + [rules] + c + d) == a + Lines(contract) + b + Lines(rules) + c + d
  {
    FlatOfTwo(a + [contract] + b + [rules] + c, d);
    FlatOfTwo(a + [contract] + b + [rules], c);
    FlatOfTwo(a + [contract] + b, [rules]);
    FlatOfTwo(a + [contract], b);
    FlatOfTwo(a, [contract]);
    FlatOfSingles(a);
    FlatOfSingles(b);
    FlatOfSingles(c);
    FlatOfSingles(d);
    FlatOfOne(contract);
    FlatOfOne(rules);
  }

  lemma FlatOfOne(text: string)
    ensures Flat([text]) == Lines(text)
  {
    assert [text][1..] == [];
  }

  lemma HeadRegrouped(task: string, contract: seq<string>, rules: seq<string>, options: seq<string>)
    ensures [task, "", "Translation contract:"] + contract + ["", "Format-specific rules:"] + rules + options
            + ["", "Source:", ""] + [""]
         == [task] + ((["", "Translation contract:"] + contract + ["", "Format-specific rules:"])
                      + (rules + (options + ["", "Source:", "", ""])))
  {
  }

  /** A legible prompt reads back in full: a reader that knows its fixed words gets all that it says. */
  lemma PromptReadsBack(wording: Wording, request: Request, n: nat)
    requires Acceptable(wording, request) && Legible(request) && LegibleRules(wording)
    requires n > 0 && !HasRun(request.source, n)
    ensures ReadPrompt(wording.contract, Join(Preamble(wording, request), "\n") + "\n" + Enclose("", request.source, n))
         == Some(ContentOf(wording, request))
  {
    var kinded := request.(kind := KindOf(request));
    var head := Join(Preamble(wording, request), "\n") + "\n";
    var prompt := head + Enclose("", request.source, n);
    assert Preamble(wording, request) == Preamble(wording, kinded);
    SourceReadsBack(head, request.source, n);
    assert prompt[..|head|] == head;
    HeadReads(wording, kinded);
  }

  lemma HeadReads(wording: Wording, request: Request)
    requires Acceptable(wording, request) && request.kind == KindOf(request)
    requires Legible(request) && LegibleRules(wording)
    ensures ReadHead(wording.contract, Lines(Join(Preamble(wording, request), "\n") + "\n"), request.source)
         == Some(ContentOf(wording, request))
  {
    var rules := wording.rules[request.kind];
    var languages := (request.sourceLanguage, request.targetLanguage);
    HeadLines(wording, request);
    TaskReads(request);
    assert forall i :: 0 <= i < |Lines(rules)| ==> Lines(rules)[i] != "";
    SectionsRead(request, Lines(rules), languages);
    JoinOfLines(rules);
    HeadIsRead(wording.contract, TaskLine(request), Lines(rules) + Tail(request), languages, request.source);
  }

  lemma HeadIsRead(contract: string, task: string, rest: seq<string>, languages: (string, string), source: string)
    requires ReadTask(task) == Some(languages)
    ensures ReadHead(contract, [task] + (Middle(contract) + rest), source) == ReadSections(rest, languages, source)
  {
    ThreeParts(task, Middle(contract), rest);
  }

  lemma ThreeParts(first: string, second: seq<string>, third: seq<string>)
    ensures var all := [first] + (second + third);
      all[0] == first && all[1..1 + |second|] == second && all[1 + |second|..] == third
  {
  }

  // ---------- Equal prompts ----------

  /** What two prompts have in common that say the same. */
  ghost predicate SayTheSame(wording: Wording, a: Request, b: Request)
    requires Acceptable(wording, a) && Acceptable(wording, b)
  {
    && a.source == b.source && a.sourceLanguage == b.sourceLanguage && a.targetLanguage == b.targetLanguage
    && wording.rules[KindOf(a)] == wording.rules[KindOf(b)] && a.glossary == b.glossary
    && a.style == b.style && a.audience == b.audience && a.delimiters == b.delimiters
    && (a.kind == "html_xml" <==> b.kind == "html_xml")
    && (a.kind == "html_xml" ==> AttributeList(a) == AttributeList(b))
  }

  /** Legible requests have one prompt exactly if they agree in all that a prompt says. */
  lemma PromptDecides(wording: Wording, a: Request, b: Request)
    requires Acceptable(wording, a) && Legible(a) && Acceptable(wording, b) && Legible(b) && LegibleRules(wording)
    ensures PromptText(wording, a) == PromptText(wording, b) <==> SayTheSame(wording, a, b)
  {
    PromptReadsBack(wording, a, RequiredFenceLength(a.source, 4).value);
    PromptReadsBack(wording, b, RequiredFenceLength(b.source, 4).value);
    if PromptText(wording, a) == PromptText(wording, b) {
      SameContent(wording, a, b);
    }
    if SayTheSame(wording, a, b) {
      SamePrompt(wording, a, b);
    }
  }

  lemma SameContent(wording: Wording, a: Request, b: Request)
    requires Acceptable(wording, a) && Acceptable(wording, b) && ContentOf(wording, a) == ContentOf(wording, b)
    ensures SayTheSame(wording, a, b)
  {
    PairsUnique(a.glossary.value, b.glossary.value);
    if a.delimiters != [] {
      DelimiterLineUnique(a.delimiters, b.delimiters);
    }
  }

  lemma SamePrompt(wording: Wording, a: Request, b: Request)
    requires Acceptable(wording, a) && Acceptable(wording, b) && SayTheSame(wording, a, b)
    ensures PromptText(wording, a) == PromptText(wording, b)
  {
    assert OptionLines(a.(kind := KindOf(a))) == OptionLines(b.(kind := KindOf(b)));
  }

  lemma PairsUnique(a: map<string, string>, b: map<string, string>)
    requires Pairs(a) == Pairs(b)
    ensures a == b
  {
    PairsHold(a);
    PairsHold(b);
    Lists(a, b, Pairs(a));
  }

  ghost predicate IsListed(glossary: map<string, string>, pairs: seq<(string, string)>) {
    && (forall key :: key in glossary ==> (key, glossary[key]) in pairs)
    && (forall i :: 0 <= i < |pairs| ==> pairs[i].0 in glossary && glossary[pairs[i].0] == pairs[i].1)
  }

  lemma Lists(a: map<string, string>, b: map<string, string>, pairs: seq<(string, string)>)
    requires IsListed(a, pairs) && IsListed(b, pairs)
    ensures a == b
  {
    Within(a, b, pairs);
    Within(b, a, pairs);
  }

  lemma Within(a: map<string, string>, b: map<string, string>, pairs: seq<(string, string)>)
    requires IsListed(a, pairs) && IsListed(b, pairs)
    ensures forall key :: key in a ==> key in b && a[key] == b[key]
  {
    forall key | key in a ensures key in b && a[key] == b[key] {
      assert (key, a[key]) in pairs;
      var i :| 0 <= i < |pairs| && pairs[i] == (key, a[key]);
    }
  }

  lemma PairsHold(glossary: map<string, string>)
    ensures IsListed(glossary, Pairs(glossary))
  {
    forall key | key in glossary ensures (key, glossary[key]) in Pairs(glossary) {
      PairHolds(glossary, key, InOrder(glossary.Keys));
    }
  }

  lemma PairHolds(glossary: map<string, string>, key: string, keys: seq<string>)
    requires key in glossary && keys == InOrder(glossary.Keys)
    ensures (key, glossary[key]) in Pairs(glossary)
  {
    assert key in glossary.Keys;
    var i :| 0 <= i < |keys| && keys[i] == key;
    assert Pairs(glossary)[i] == (key, glossary[key]);
  }
}
