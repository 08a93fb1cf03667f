/**
 A reader of prompts: from the end it finds the fence and the source, and above the
 fence, line by line, the languages, the rules, the glossary and the options. It
 knows the fixed words of a prompt and nothing of how one is built.
 */
module PromptReader {
  import opened Wrappers
  import opened Strings
  import opened Fence
  import opened TextLines

  /** What a prompt says. An option that is not there is `None`; a missing style or audience is empty. */
  datatype Content = Content(
    source: string, sourceLanguage: string, targetLanguage: string, rules: string, terms: seq<(string, string)>,
    style: string, audience: string, attributes: Option<string>, delimiters: Option<string>)

  // ---------- From the end ----------

  /** The rightmost run of n backticks that starts at i or before. */
  ghost function RunBefore(s: string, n: nat, i: nat): (at: Option<nat>)
    ensures at.Some? ==> at.value + n <= |s|
  {
    if RunAt(s, i, n) then Some(i) else if i == 0 then None else RunBefore(s, n, i - 1)
  }

  /** Where the rightmost run stands that is as long as the closing one and before it. */
  ghost function OpeningAt(prompt: string): (at: Option<nat>)
    ensures at.Some? ==> at.value <= |prompt|
  {
    TailRunHolds(prompt);
    var before := prompt[..|prompt| - TailRun(prompt)];
    RunBefore(before, TailRun(prompt), |before|)
  }

  /** What the two line feeds within the fences enclose. */
  ghost function ReadSource(prompt: string): Option<string> {
    var n := TailRun(prompt);
    TailRunHolds(prompt);
    match OpeningAt(prompt)
    case None => None
    case Some(i) => if i + n + 2 > |prompt| - n then None else Some(prompt[i + n + 1..|prompt| - n - 1])
  }

  // ---------- Above the fence ----------

  /** The two languages of the first line; no source language reads as an empty one. */
  function ReadTask(line: string): Option<(string, string)> {
    var into, from := "Translate the following into ", "Translate the following from ";
    if line == "" || line[|line| - 1] != '.' then None
    else if into <= line[..|line| - 1] then Some(("", line[|into|..|line| - 1]))
    else if from <= line[..|line| - 1] then
      var languages := line[|from|..|line| - 1];
      match Find(languages, " into ")
      case None => None
      case Some(i) => Some((languages[..i], languages[i + 6..]))
    else None
  }

  /** A glossary line; one that is none reads as a term without a target. */
  function ReadTerm(line: string): (string, string) {
    var term := if "- " <= line then line[2..] else line;
    match Find(term, " => ")
    case None => (term, "")
    case Some(i) => (term[..i], term[i + 4..])
  }

  function ReadTermLines(lines: seq<string>): seq<(string, string)> {
    seq(|lines|, i requires 0 <= i < |lines| => ReadTerm(lines[i]))
  }

  /** What was read, and the lines after it. */
  datatype Terms = Terms(terms: seq<(string, string)>, rest: seq<string>)
  datatype Field = Field(value: Option<string>, rest: seq<string>)

  function ReadTerms(lines: seq<string>): Terms {
    if |lines| >= 2 && lines[..2] == ["", "Glossary (source => required target):"] then
      var n := Filled(lines[2..]);
      Terms(ReadTermLines(lines[2..][..n]), lines[2..][n..])
    else Terms([], lines)
  }

  /** A section of one line after an empty one, if it is next. */
  function ReadField(lines: seq<string>, title: string): Field {
    if |lines| >= 2 && lines[0] == "" && title <= lines[1] then Field(Some(lines[1][|title|..]), lines[2..])
    else Field(None, lines)
  }

  function OrEmpty(value: Option<string>): string {
    if value.Some? then value.value else ""
  }

  /** The rules up to the first empty line, then the sections in their order. */
  function ReadSections(lines: seq<string>, languages: (string, string), source: string): Option<Content> {
    var n := Filled(lines);
    var glossary := ReadTerms(lines[n..]);
    var style := ReadField(glossary.rest, "Required style: ");
    var audience := ReadField(style.rest, "Intended audience: ");
    var attributes := ReadField(audience.rest, "Translatable attributes: ");
    var delimiters := ReadField(attributes.rest, "Exact segment delimiters: ");
    if delimiters.rest != ["", "Source:", "", ""] then None
    else Some(Content(source, languages.0, languages.1, Join(lines[..n], "\n"), glossary.terms,
                      OrEmpty(style.value), OrEmpty(audience.value), attributes.value, delimiters.value))
  }

  /** The lines between the first one and the rules. */
  function Middle(contract: string): seq<string> {
    ["", "Translation contract:"] + Lines(contract) + ["", "Format-specific rules:"]
  }

  function ReadHead(contract: string, lines: seq<string>, source: string): Option<Content> {
    var n := |Middle(contract)|;
    if |lines| < 1 + n || lines[1..1 + n] != Middle(contract) then None else
      match ReadTask(lines[0])
      case None => None
      case Some(languages) => ReadSections(lines[1 + n..], languages, source)
  }

  ghost function ReadPrompt(contract: string, prompt: string): Option<Content> {
    match (OpeningAt(prompt), ReadSource(prompt))
    case (Some(i), Some(source)) => ReadHead(contract, Lines(prompt[..i]), source)
    case _ => None
  }
}
