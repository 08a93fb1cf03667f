/**
 `jsonShape`: a value is printed without the text of its strings, and two values
 are compared by their prints. The print can be read in one way only, so equal
 prints mean equal values up to the text of strings, and the other way round.
 */
module JsonShape {
  import opened Strings
  import opened Quoting

  /** A decoded value; a number keeps its literal. */
  datatype Json =
    | Object(members: map<string, Json>)
    | Array(items: seq<Json>)
    | Number(literal: string)
    | Boolean(value: bool)
    | Null
    | Text(text: string)

  /** Characters of the number literals of section 6 of RFC 8259. */
  predicate IsNumberChar(c: char) {
    '0' <= c <= '9' || c == '+' || c == '-' || c == '.' || c == 'e' || c == 'E'
  }

  /** What the decoder can yield: number literals are made of number characters. */
  ghost predicate Decoded(v: Json) {
    match v
    case Object(members) => forall key :: key in members ==> Decoded(members[key])
    case Array(items) => forall i :: 0 <= i < |items| ==> Decoded(items[i])
    case Number(literal) => forall c :: c in literal ==> IsNumberChar(c)
    case _ => true
  }

  /** The value with the text of every string forgotten. */
  ghost function Erase(v: Json): Json {
    match v
    case Object(members) => Object(map key | key in members :: Erase(members[key]))
    case Array(items) => Array(seq(|items|, i requires 0 <= i < |items| => Erase(items[i])))
    case Text(_) => Text("")
    case _ => v
  }

  // ---------- The printer ----------

  ghost function Shape(v: Json): string
    decreases v, 1
  {
    match v
    case Object(members) => "object{" + ShapeMembers(v, InOrder(members.Keys)) + "}"
    case Array(items) => "array[" + ShapeItems(items) + "]"
    case Number(literal) => "number:" + literal
    case Boolean(value) => if value then "boolean:true" else "boolean:false"
    case Null => "null"
    case Text(_) => "string"
  }

  ghost function ShapeMembers(v: Json, keys: seq<string>): string
    requires v.Object? && forall i :: 0 <= i < |keys| ==> keys[i] in v.members
    decreases v, 0, |keys|
  {
    if keys == [] then "" else
      Quote(keys[0]) + ":" + Shape(v.members[keys[0]]) + ";" + ShapeMembers(v, keys[1..])
  }

  ghost function ShapeItems(items: seq<Json>): string
    decreases items, 0
  {
    if items == [] then "" else Shape(items[0]) + ";" + ShapeItems(items[1..])
  }

  // ---------- The print with what follows it ----------

  ghost function Print(v: Json, rest: string): string
    decreases v, 2
  {
    Word(v) + PrintBody(v, rest)
  }

  /** The word each kind of value starts its print with. */
  function Word(v: Json): string {
    match v
    case Object(_) => "object{"
    case Array(_) => "array["
    case Number(_) => "number:"
    case Boolean(_) => "boolean:"
    case Null => "null"
    case Text(_) => "string"
  }

  ghost function PrintBody(v: Json, rest: string): string
    decreases v, 1
  {
    match v
    case Object(members) => PrintMembers(v, InOrder(members.Keys), "}" + rest)
    case Array(items) => PrintItems(items, "]" + rest)
    case Number(literal) => literal + rest
    case Boolean(value) => (if value then "true" else "false") + rest
    case _ => rest
  }

  ghost function PrintMembers(v: Json, keys: seq<string>, rest: string): string
    requires v.Object? && forall i :: 0 <= i < |keys| ==> keys[i] in v.members
    decreases v, 0, |keys|
  {
    if keys == [] then rest else
      PrintQuote(keys[0], ":" + Print(v.members[keys[0]], ";" + PrintMembers(v, keys[1..], rest)))
  }

  ghost function PrintItems(items: seq<Json>, rest: string): string
    decreases items, 0
  {
    if items == [] then rest else Print(items[0], ";" + PrintItems(items[1..], rest))
  }

  lemma {:induction false} ShapeThenRest(v: Json, rest: string)
    ensures Shape(v) + rest == Print(v, rest)
    decreases v, 2
  {
    match v
    case Object(members) =>
      var keys := InOrder(members.Keys);
      var shape := ShapeMembers(v, keys);
      Assoc("object{" + shape, "}", rest);
      Assoc("object{", shape, "}" + rest);
      MembersThenRest(v, keys, "}" + rest);
    case Array(items) =>
      var shape := ShapeItems(items);
      Assoc("array[" + shape, "]", rest);
      Assoc("array[", shape, "]" + rest);
      ItemsThenRest(items, "]" + rest);
    case Number(literal) => Assoc("number:", literal, rest);
    case Boolean(value) =>
      assert Shape(v) == "boolean:" + if value then "true" else "false";
      Assoc("boolean:", if value then "true" else "false", rest);
    case _ =>
  }

  lemma {:induction false} MembersThenRest(v: Json, keys: seq<string>, rest: string)
    requires v.Object? && forall i :: 0 <= i < |keys| ==> keys[i] in v.members
    ensures ShapeMembers(v, keys) + rest == PrintMembers(v, keys, rest)
    decreases v, 1, |keys|
  {
    if keys == [] {
      assert ShapeMembers(v, keys) + rest == rest;
    } else {
      var quote, shape, more := Quote(keys[0]), Shape(v.members[keys[0]]), ShapeMembers(v, keys[1..]);
      MembersThenRest(v, keys[1..], rest);
      ShapeThenRest(v.members[keys[0]], ";" + (more + rest));
      QuoteThenRest(keys[0], ":" + (shape + (";" + (more + rest))));
      Assoc(quote + ":" + shape + ";", more, rest);
      Assoc(quote + ":" + shape, ";", more + rest);
      Assoc(quote + ":", shape, ";" + (more + rest));
      Assoc(quote, ":", shape + (";" + (more + rest)));
    }
  }

  lemma {:induction false} ItemsThenRest(items: seq<Json>, rest: string)
    ensures ShapeItems(items) + rest == PrintItems(items, rest)
    decreases items, 0
  {
    if items == [] {
      assert ShapeItems(items) + rest == rest;
    } else {
      var shape, more := Shape(items[0]), ShapeItems(items[1..]);
      ItemsThenRest(items[1..], rest);
      ShapeThenRest(items[0], ";" + (more + rest));
      assert shape + ";" + more + rest == shape + (";" + (more + rest));
    }
  }

  // ---------- Reading a print ----------

  /** What may follow a print: its end, or the mark that closes a child. */
  predicate Tail(x: string) {
    x == "" || x[0] == ';'
  }

  /** How many number characters a text starts with. */
  function Span(s: string): nat {
    if s == "" || !IsNumberChar(s[0]) then 0 else 1 + Span(s[1..])
  }

  lemma {:induction false} SpanOfLiteral(l: string, x: string)
    requires Tail(x) && forall c :: c in l ==> IsNumberChar(c)
    ensures Span(l + x) == |l|
  {
    if l == "" {
      assert l + x == x;
    } else {
      assert (l + x)[0] == l[0] && l[0] in l && (l + x)[1..] == l[1..] + x;
      SpanOfLiteral(l[1..], x);
    }
  }

  lemma LiteralUnique(l: string, m: string, x: string, y: string)
    requires (forall c :: c in l ==> IsNumberChar(c)) && (forall c :: c in m ==> IsNumberChar(c))
    requires Tail(x) && Tail(y) && l + x == m + y
    ensures l == m && x == y
  {
    SpanOfLiteral(l, x);
    SpanOfLiteral(m, y);
    assert l == (l + x)[..|l|] && m == (m + y)[..|m|];
    Drop(l, x, y);
  }

  predicate SameKind(a: Json, b: Json) {
    && (a.Object? <==> b.Object?) && (a.Array? <==> b.Array?) && (a.Number? <==> b.Number?)
    && (a.Boolean? <==> b.Boolean?) && (a.Null? <==> b.Null?) && (a.Text? <==> b.Text?)
  }

  /** The first and the third character of a word tell the kind. */
  lemma WordUnique(a: Json, b: Json, x: string, y: string)
    requires Word(a) + x == Word(b) + y
    ensures SameKind(a, b) && x == y
  {
    assert (Word(a) + x)[0] == Word(a)[0] && (Word(a) + x)[2] == Word(a)[2];
    assert (Word(b) + y)[0] == Word(b)[0] && (Word(b) + y)[2] == Word(b)[2];
    assert SameKind(a, b);
    Drop(Word(a), x, y);
  }

  // ---------- Unique readability ----------

  /** Prints followed by anything that may follow them: equal texts have equal values and equal rests. */
  lemma {:induction false} PrintUnique(a: Json, b: Json, x: string, y: string)
    requires Decoded(a) && Decoded(b) && Tail(x) && Tail(y) && Print(a, x) == Print(b, y)
    ensures Erase(a) == Erase(b) && x == y
    decreases a, 2
  {
    WordUnique(a, b, PrintBody(a, x), PrintBody(b, y));
    match a
    case Object(_) => ObjectsUnique(a, b, x, y);
    case Array(items) => ItemsUnique(items, b.items, x, y);
    case Number(literal) => LiteralUnique(literal, b.literal, x, y);
    case Boolean(value) =>
      assert PrintBody(a, x)[0] == if value then 't' else 'f';
      assert PrintBody(b, y)[0] == if b.value then 't' else 'f';
      Drop(if value then "true" else "false", x, y);
    case _ =>
  }

  lemma {:induction false} ItemsUnique(s: seq<Json>, t: seq<Json>, x: string, y: string)
    requires forall i :: 0 <= i < |s| ==> Decoded(s[i])
    requires forall i :: 0 <= i < |t| ==> Decoded(t[i])
    requires PrintItems(s, "]" + x) == PrintItems(t, "]" + y)
    ensures |s| == |t| && (forall i :: 0 <= i < |s| ==> Erase(s[i]) == Erase(t[i])) && x == y
    decreases s, 0
  {
    ItemsHead(s, x);
    ItemsHead(t, y);
    if s == [] {
      Drop("]", x, y);
    } else {
      var u, w := PrintItems(s[1..], "]" + x), PrintItems(t[1..], "]" + y);
      PrintUnique(s[0], t[0], ";" + u, ";" + w);
      Drop(";", u, w);
      ItemsUnique(s[1..], t[1..], x, y);
      assert forall i :: 0 < i < |s| ==> s[i] == s[1..][i - 1] && t[i] == t[1..][i - 1];
    }
  }

  /** The closing bracket is not the start of any print. */
  lemma ItemsHead(s: seq<Json>, x: string)
    ensures PrintItems(s, "]" + x) != []
    ensures PrintItems(s, "]" + x)[0] == ']' <==> s == []
  {
  }

  lemma {:induction false} ObjectsUnique(a: Json, b: Json, x: string, y: string)
    requires a.Object? && b.Object? && Decoded(a) && Decoded(b) && PrintBody(a, x) == PrintBody(b, y)
    ensures Erase(a) == Erase(b) && x == y
    decreases a, 1
  {
    var ks, ls := InOrder(a.members.Keys), InOrder(b.members.Keys);
    MembersUnique(a, ks, b, ls, x, y);
    SameKeys(a.members.Keys, b.members.Keys);
    AllErased(a, b, ks);
    SameErased(a, b);
  }

  lemma AllErased(a: Json, b: Json, keys: seq<string>)
    requires a.Object? && b.Object? && a.members.Keys == b.members.Keys
    requires forall key :: key in a.members ==> key in keys
    requires forall i :: 0 <= i < |keys| ==> keys[i] in a.members
    requires forall i :: 0 <= i < |keys| ==> Erase(a.members[keys[i]]) == Erase(b.members[keys[i]])
    ensures forall key :: key in a.members ==> Erase(a.members[key]) == Erase(b.members[key])
  {
  }

  lemma SameErased(a: Json, b: Json)
    requires a.Object? && b.Object? && a.members.Keys == b.members.Keys
    requires forall key :: key in a.members ==> Erase(a.members[key]) == Erase(b.members[key])
    ensures Erase(a) == Erase(b)
  {
    assert Erase(a).members == Erase(b).members;
  }

  lemma {:induction false} MembersUnique(a: Json, ks: seq<string>, b: Json, ls: seq<string>, x: string, y: string)
    requires a.Object? && b.Object? && Decoded(a) && Decoded(b)
    requires forall i :: 0 <= i < |ks| ==> ks[i] in a.members
    requires forall i :: 0 <= i < |ls| ==> ls[i] in b.members
    requires PrintMembers(a, ks, "}" + x) == PrintMembers(b, ls, "}" + y)
    ensures ks == ls && x == y
    ensures forall i :: 0 <= i < |ks| ==> Erase(a.members[ks[i]]) == Erase(b.members[ks[i]])
    decreases a, 0, |ks|
  {
    MembersHead(a, ks, x);
    MembersHead(b, ls, y);
    if ks == [] {
      Drop("}", x, y);
    } else {
      var u, w := PrintMembers(a, ks[1..], "}" + x), PrintMembers(b, ls[1..], "}" + y);
      var m, n := Print(a.members[ks[0]], ";" + u), Print(b.members[ls[0]], ";" + w);
      QuoteUnique(ks[0], ls[0], ":" + m, ":" + n);
      Drop(":", m, n);
      PrintUnique(a.members[ks[0]], b.members[ls[0]], ";" + u, ";" + w);
      Drop(";", u, w);
      MembersUnique(a, ks[1..], b, ls[1..], x, y);
      assert ks == [ks[0]] + ks[1..] && ls == [ls[0]] + ls[1..];
    }
  }

  lemma MembersHead(v: Json, keys: seq<string>, x: string)
    requires v.Object? && forall i :: 0 <= i < |keys| ==> keys[i] in v.members
    ensures PrintMembers(v, keys, "}" + x) != []
    ensures PrintMembers(v, keys, "}" + x)[0] == '}' <==> keys == []
  {
  }

  // ---------- The other direction ----------

  lemma {:induction false} ErasedShape(v: Json)
    ensures Shape(Erase(v)) == Shape(v)
    decreases v, 1
  {
    match v
    case Object(members) =>
      var keys := InOrder(members.Keys);
      assert Erase(v).members.Keys == members.Keys;
      ErasedMembers(v, keys);
    case Array(items) => ErasedItems(items);
    case _ =>
  }

  lemma {:induction false} ErasedMembers(v: Json, keys: seq<string>)
    requires v.Object? && forall i :: 0 <= i < |keys| ==> keys[i] in v.members
    ensures ShapeMembers(Erase(v), keys) == ShapeMembers(v, keys)
    decreases v, 0, |keys|
  {
    if keys != [] {
      ErasedShape(v.members[keys[0]]);
      ErasedMembers(v, keys[1..]);
    }
  }

  lemma {:induction false} ErasedItems(items: seq<Json>)
    ensures ShapeItems(Erase(Array(items)).items) == ShapeItems(items)
    decreases items, 0
  {
    if items != [] {
      ErasedShape(items[0]);
      ErasedItems(items[1..]);
      ErasedRest(items);
    }
  }

  lemma ErasedRest(items: seq<Json>)
    requires items != []
    ensures Erase(Array(items)).items[1..] == Erase(Array(items[1..])).items
  {
  }

  /** Two decoded values print alike exactly when they are equal up to the text of their strings. */
  lemma ShapeDecidesStructure(a: Json, b: Json)
    requires Decoded(a) && Decoded(b)
    ensures Shape(a) == Shape(b) <==> Erase(a) == Erase(b)
  {
    if Shape(a) == Shape(b) {
      ShapeThenRest(a, "");
      ShapeThenRest(b, "");
      PrintUnique(a, b, "", "");
    }
    ErasedShape(a);
    ErasedShape(b);
  }

  // ---------- The loops that print ----------

  /** The builder loops; the order in which a map yields its keys is left open. */
  method PrintShape(v: Json) returns (s: string)
    ensures s == Shape(v)
    decreases v, 1
  {
    match v
    case Object(members) =>
      var keys := SortedKeys(members.Keys);
      ObjectPrinted(v, keys);
      s := PrintObject(v, keys, Shape(v));
    case Array(items) => s := PrintArray(v);
    case Number(literal) => s := "number:" + literal;
    case Boolean(value) =>
      var word := if value then "true" else "false";
      s := "boolean:" + word;
    case Null => s := "null";
    case Text(_) => s := "string";
  }

  method PrintObject(v: Json, keys: seq<string>, ghost shape: string) returns (s: string)
    requires v.Object? && forall i :: 0 <= i < |keys| ==> keys[i] in v.members
    requires "object{" + PrintMembers(v, keys, "}") == shape
    ensures s == shape
    decreases v, 0
  {
    s := "object{";
    ghost var left := keys;
    for n := 0 to |keys|
      invariant left == keys[n..] && forall i :: 0 <= i < |left| ==> left[i] in v.members
      invariant s + PrintMembers(v, left, "}") == shape
    {
      var child := PrintShape(v.members[keys[n]]);
      MemberPrinted(v, left, s, "}");
      s := s + Quote(keys[n]) + ":" + child + ";";
      left := left[1..];
    }
    s := s + "}";
  }

  lemma ObjectPrinted(v: Json, keys: seq<string>)
    requires v.Object? && keys == InOrder(v.members.Keys)
    requires forall i :: 0 <= i < |keys| ==> keys[i] in v.members
    ensures "object{" + PrintMembers(v, keys, "}") == Shape(v)
  {
    MembersThenRest(v, keys, "}");
    Assoc("object{", ShapeMembers(v, keys), "}");
  }

  method PrintArray(v: Json) returns (s: string)
    requires v.Array?
    ensures s == Shape(v)
    decreases v, 0
  {
    s := "array[";
    ItemsThenRest(v.items, "]");
    Assoc(s, ShapeItems(v.items), "]");
    ghost var left := v.items;
    for n := 0 to |v.items|
      invariant left == v.items[n..] && s + PrintItems(left, "]") == Shape(v)
    {
      var child := PrintShape(v.items[n]);
      ItemPrinted(left, s, "]");
      s := s + child + ";";
      left := left[1..];
    }
    s := s + "]";
  }

  /** What has been written, and the print of what is left: one round of the loop keeps their sum. */
  lemma MemberPrinted(v: Json, keys: seq<string>, s: string, rest: string)
    requires v.Object? && keys != [] && forall i :: 0 <= i < |keys| ==> keys[i] in v.members
    ensures s + PrintMembers(v, keys, rest)
      == s + Quote(keys[0]) + ":" + Shape(v.members[keys[0]]) + ";" + PrintMembers(v, keys[1..], rest)
  {
    var quote, shape, more := Quote(keys[0]), Shape(v.members[keys[0]]), PrintMembers(v, keys[1..], rest);
    ShapeThenRest(v.members[keys[0]], ";" + more);
    QuoteThenRest(keys[0], ":" + (shape + (";" + more)));
    Assoc(s, quote, ":" + (shape + (";" + more)));
    Assoc(s + quote, ":", shape + (";" + more));
    Assoc(s + quote + ":", shape, ";" + more);
    Assoc(s + quote + ":" + shape, ";", more);
  }

  lemma ItemPrinted(items: seq<Json>, s: string, rest: string)
    requires items != []
    ensures s + PrintItems(items, rest) == s + Shape(items[0]) + ";" + PrintItems(items[1..], rest)
  {
    var shape, more := Shape(items[0]), PrintItems(items[1..], rest);
    ShapeThenRest(items[0], ";" + more);
    Assoc(s, shape, ";" + more);
    Assoc(s + shape, ";", more);
  }
}
