/**
 What `htmlStructure` sees of a document, and what it is blind to: the text, the case
 of names, the order of attributes and the values of translatable attributes. Two
 documents have equal events exactly when they agree in all the rest.
 */
module Masking {
  import opened Wrappers
  import opened Strings
  import opened Quoting
  import opened HtmlStructure

  /** What is seen of an attribute: its key in lower case, and its value unless that key is translatable. */
  datatype Seen = Seen(key: string, value: Option<string>)

  function See(attribute: Attribute, translatable: set<string>): Seen {
    var key := Lower(attribute.key);
    Seen(key, if key in translatable then None else Some(attribute.value))
  }

  function SeeAll(attributes: seq<Attribute>, translatable: set<string>): seq<Seen> {
    seq(|attributes|, i requires 0 <= i < |attributes| => See(attributes[i], translatable))
  }

  /** What is seen of a token. */
  datatype Sight =
    | SeenStart(tag: string, attributes: multiset<Seen>)
    | SeenEmpty(tag: string, attributes: multiset<Seen>)
    | SeenEnd(tag: string)
    | SeenComment(data: string)
    | SeenDoctype(data: string)

  function SightsOf(token: Token, translatable: set<string>): seq<Sight> {
    match token
    case StartTag(name, attributes) => [SeenStart(Lower(name), multiset(SeeAll(attributes, translatable)))]
    case SelfClosingTag(name, attributes) => [SeenEmpty(Lower(name), multiset(SeeAll(attributes, translatable)))]
    case EndTag(name) => [SeenEnd(Lower(name))]
    case Comment(data) => [SeenComment(data)]
    case Doctype(data) => [SeenDoctype(data)]
    case TextToken(_) => []
  }

  function Sights(tokens: seq<Token>, translatable: set<string>): seq<Sight> {
    if tokens == [] then [] else
      var n := |tokens| - 1;
      Sights(tokens[..n], translatable) + SightsOf(tokens[n], translatable)
  }

  // ---------- Collections of images ----------

  function Images<A, B>(s: seq<A>, f: A -> B): seq<B> {
    seq(|s|, i requires 0 <= i < |s| => f(s[i]))
  }

  /** If `f` tells apart whatever `g` does, lists with one collection of `f`-images have one of `g`-images. */
  lemma {:induction false} ImagesFollow<A, B, C>(a: seq<A>, b: seq<A>, f: A -> B, g: A -> C)
    requires forall i, k :: 0 <= i < |a| && 0 <= k < |b| && f(a[i]) == f(b[k]) ==> g(a[i]) == g(b[k])
    requires multiset(Images(a, f)) == multiset(Images(b, f))
    ensures multiset(Images(a, g)) == multiset(Images(b, g))
    decreases |a|
  {
    if a == [] {
      assert |multiset(Images(b, f))| == |b|;
    } else {
      var n := |a| - 1;
      WithoutImage(a, n, f);
      WithoutImage(a, n, g);
      assert f(a[n]) in multiset(Images(b, f));
      var k :| 0 <= k < |Images(b, f)| && Images(b, f)[k] == f(a[n]);
      WithoutImage(b, k, f);
      WithoutImage(b, k, g);
      StillFollow(a, n, b, k, f, g);
      SameRest(multiset(Images(Without(a, n), f)), multiset(Images(Without(b, k), f)), f(a[n]));
      ImagesFollow(Without(a, n), Without(b, k), f, g);
    }
  }

  function Without<A>(s: seq<A>, k: nat): (r: seq<A>)
    requires k < |s|
    ensures |r| == |s| - 1
  {
    s[..k] + s[k + 1..]
  }

  lemma SameRest<T>(m: multiset<T>, n: multiset<T>, x: T)
    requires m + multiset{x} == n + multiset{x}
    ensures m == n
  {
    assert m == (m + multiset{x}) - multiset{x} && n == (n + multiset{x}) - multiset{x};
  }

  lemma StillFollow<A, B, C>(a: seq<A>, n: nat, b: seq<A>, k: nat, f: A -> B, g: A -> C)
    requires forall i, k :: 0 <= i < |a| && 0 <= k < |b| && f(a[i]) == f(b[k]) ==> g(a[i]) == g(b[k])
    requires n < |a| && k < |b|
    ensures forall i, j :: 0 <= i < |a| - 1 && 0 <= j < |b| - 1 && f(Without(a, n)[i]) == f(Without(b, k)[j]) ==>
              g(Without(a, n)[i]) == g(Without(b, k)[j])
  {
    forall i, j | 0 <= i < |a| - 1 && 0 <= j < |b| - 1 && f(Without(a, n)[i]) == f(Without(b, k)[j])
      ensures g(Without(a, n)[i]) == g(Without(b, k)[j])
    {
      assert Without(a, n)[i] == a[if i < n then i else i + 1];
      assert Without(b, k)[j] == b[if j < k then j else j + 1];
    }
  }

  lemma WithoutImage<A, B>(s: seq<A>, k: nat, f: A -> B)
    requires k < |s|
    ensures multiset(Images(s, f)) == multiset(Images(Without(s, k), f)) + multiset{f(s[k])}
  {
    var images := Images(s, f);
    assert images == images[..k] + [f(s[k])] + images[k + 1..];
    assert Images(Without(s, k), f) == images[..k] + images[k + 1..];
  }

  // ---------- Attributes ----------

  predicate UpperCase(c: char) {
    'A' <= c <= 'Z'
  }

  /** The distance of a lower-case letter from its upper-case one. */
  const CASE_DISTANCE := 32

  predicate SameLetter(c: char, d: char) {
    || c == d
    || (UpperCase(c) && d as int == c as int + CASE_DISTANCE)
    || (UpperCase(d) && c as int == d as int + CASE_DISTANCE)
  }

  /** Names are one in lower case exactly if they differ in case only. */
  lemma LowerDecides(s: string, t: string)
    ensures Lower(s) == Lower(t) <==> |s| == |t| && forall i :: 0 <= i < |s| ==> SameLetter(s[i], t[i])
  {
    if Lower(s) == Lower(t) {
      assert |Lower(s)| == |Lower(t)|;
      forall i | 0 <= i < |s| ensures SameLetter(s[i], t[i]) {
        assert Lower(s)[i] == Lower(t)[i];
      }
    }
    if |s| == |t| && forall i :: 0 <= i < |s| ==> SameLetter(s[i], t[i]) {
      forall i | 0 <= i < |s| ensures Lower(s)[i] == Lower(t)[i] {
        assert SameLetter(s[i], t[i]);
      }
    }
  }

  predicate Keyed(attributes: seq<Attribute>) {
    forall i :: 0 <= i < |attributes| ==> IsKey(attributes[i].key)
  }

  /** The text of an attribute decides what is seen of it, and conversely. */
  lemma TextDecides(a: Attribute, b: Attribute, translatable: set<string>)
    requires IsKey(a.key) && IsKey(b.key)
    ensures AttributeText(a, translatable) == AttributeText(b, translatable)
       <==> See(a, translatable) == See(b, translatable)
  {
    var k, l := Lower(a.key), Lower(b.key);
    var v := if k in translatable then "<translated>" else a.value;
    var w := if l in translatable then "<translated>" else b.value;
    if AttributeText(a, translatable) == AttributeText(b, translatable) {
      LowerKey(a.key);
      LowerKey(b.key);
      Assoc(k, "=", Quote(v));
      Assoc(l, "=", Quote(w));
      KeyUnique(k, l, Quote(v), Quote(w));
      QuoteThenRest(v, "");
      QuoteThenRest(w, "");
      QuoteUnique(v, w, "", "");
    }
  }

  lemma TextsDecide(a: seq<Attribute>, b: seq<Attribute>, translatable: set<string>)
    requires Keyed(a) && Keyed(b)
    ensures SortedAttributes(a, translatable) == SortedAttributes(b, translatable)
       <==> multiset(SeeAll(a, translatable)) == multiset(SeeAll(b, translatable))
  {
    var text, see := (x: Attribute) => AttributeText(x, translatable), (x: Attribute) => See(x, translatable);
    assert Images(a, text) == AttributeTexts(a, translatable) && Images(b, text) == AttributeTexts(b, translatable);
    assert Images(a, see) == SeeAll(a, translatable) && Images(b, see) == SeeAll(b, translatable);
    forall i, k | 0 <= i < |a| && 0 <= k < |b| ensures text(a[i]) == text(b[k]) <==> see(a[i]) == see(b[k]) {
      TextDecides(a[i], b[k], translatable);
    }
    if multiset(Images(a, text)) == multiset(Images(b, text)) {
      ImagesFollow(a, b, text, see);
    }
    if multiset(Images(a, see)) == multiset(Images(b, see)) {
      ImagesFollow(a, b, see, text);
    }
  }

  // ---------- Tokens and documents ----------

  lemma TokenDecides(t: Token, u: Token, translatable: set<string>)
    requires Tokenized(t) && Tokenized(u)
    ensures EventsOf(t, translatable) == EventsOf(u, translatable)
       <==> SightsOf(t, translatable) == SightsOf(u, translatable)
    ensures |EventsOf(t, translatable)| == |SightsOf(t, translatable)| == if t.TextToken? then 0 else 1
  {
    if (t.StartTag? && u.StartTag?) || (t.SelfClosingTag? && u.SelfClosingTag?) {
      TextsDecide(t.attributes, u.attributes, translatable);
    }
  }

  /**
   Two documents as the tokenizer can yield them have equal events exactly when they agree in what is seen of them:
   they may differ in text, in the case of names, in the order of attributes and in translatable values only.
   */
  lemma {:induction false} EventsDecide(a: seq<Token>, b: seq<Token>, translatable: set<string>)
    requires (forall i :: 0 <= i < |a| ==> Tokenized(a[i])) && (forall i :: 0 <= i < |b| ==> Tokenized(b[i]))
    ensures Events(a, translatable) == Events(b, translatable) <==> Sights(a, translatable) == Sights(b, translatable)
    ensures |Events(a, translatable)| == |Sights(a, translatable)|
    decreases |a| + |b|
  {
    var m, n := |a| - 1, |b| - 1;
    if a != [] && a[m].TextToken? {
      EventsDecide(a[..m], b, translatable);
      TextIsUnseen(a, a[..m], translatable);
    } else if b != [] && b[n].TextToken? {
      EventsDecide(a, b[..n], translatable);
      TextIsUnseen(b, b[..n], translatable);
    } else if a != [] && b != [] {
      EventsDecide(a[..m], b[..n], translatable);
      LastTokenDecides(a, b, translatable);
    } else {
      LastIsSeen(a, translatable);
      LastIsSeen(b, translatable);
      if a != [] {
        EventsDecide(a[..m], [], translatable);
      }
    }
  }

  lemma TextIsUnseen(a: seq<Token>, front: seq<Token>, translatable: set<string>)
    requires a != [] && a[|a| - 1].TextToken? && a[..|a| - 1] == front
    ensures Events(a, translatable) == Events(front, translatable)
    ensures Sights(a, translatable) == Sights(front, translatable)
  {
    var events, event := LastEvent(a, front, translatable);
    var sights, sight := LastSight(a, front, translatable);
    assert events + event == events && sights + sight == sights;
  }

  lemma LastEvent(a: seq<Token>, front: seq<Token>, translatable: set<string>)
    returns (events: seq<Event>, event: seq<Event>)
    requires a != [] && a[..|a| - 1] == front
    ensures events == Events(front, translatable) && Events(a, translatable) == events + event
    ensures |event| == if a[|a| - 1].TextToken? then 0 else 1
  {
    events, event := Events(front, translatable), EventsOf(a[|a| - 1], translatable);
  }

  lemma LastSight(a: seq<Token>, front: seq<Token>, translatable: set<string>)
    returns (sights: seq<Sight>, sight: seq<Sight>)
    requires a != [] && a[..|a| - 1] == front
    ensures sights == Sights(front, translatable) && Sights(a, translatable) == sights + sight
    ensures |sight| == if a[|a| - 1].TextToken? then 0 else 1
  {
    sights, sight := Sights(front, translatable), SightsOf(a[|a| - 1], translatable);
  }

  lemma LastIsSeen(a: seq<Token>, translatable: set<string>)
    requires a != [] ==> !a[|a| - 1].TextToken?
    ensures a == [] <==> Events(a, translatable) == []
    ensures a == [] <==> Sights(a, translatable) == []
    ensures a != [] ==> |Events(a, translatable)| == |Events(a[..|a| - 1], translatable)| + 1
    ensures a != [] ==> |Sights(a, translatable)| == |Sights(a[..|a| - 1], translatable)| + 1
  {
  }

  lemma LastTokenDecides(a: seq<Token>, b: seq<Token>, translatable: set<string>)
    requires a != [] && b != [] && !a[|a| - 1].TextToken? && !b[|b| - 1].TextToken?
    requires Tokenized(a[|a| - 1]) && Tokenized(b[|b| - 1])
    requires Events(a[..|a| - 1], translatable) == Events(b[..|b| - 1], translatable)
        <==> Sights(a[..|a| - 1], translatable) == Sights(b[..|b| - 1], translatable)
    requires |Events(a[..|a| - 1], translatable)| == |Sights(a[..|a| - 1], translatable)|
    ensures Events(a, translatable) == Events(b, translatable) <==> Sights(a, translatable) == Sights(b, translatable)
    ensures |Events(a, translatable)| == |Sights(a, translatable)|
  {
    var t, u := a[|a| - 1], b[|b| - 1];
    TokenDecides(t, u, translatable);
    TokenDecides(u, t, translatable);
    LastsDecide(Events(a[..|a| - 1], translatable), Events(b[..|b| - 1], translatable),
                EventsOf(t, translatable), EventsOf(u, translatable));
    LastsDecide(Sights(a[..|a| - 1], translatable), Sights(b[..|b| - 1], translatable),
                SightsOf(t, translatable), SightsOf(u, translatable));
  }

  lemma LastsDecide<T>(s: seq<T>, t: seq<T>, x: seq<T>, y: seq<T>)
    requires |x| == 1 == |y|
    ensures s + x == t + y <==> s == t && x == y
  {
    if s + x == t + y {
      assert |s + x| == |s| + 1 && |t + y| == |t| + 1;
      assert s == (s + x)[..|s|] && t == (t + y)[..|t|];
      assert x == (s + x)[|s|..] && y == (t + y)[|t|..];
    }
  }

  // ---------- Values changed ----------

  /** The tokens are equal but for the values of translatable attributes. */
  predicate AllowedDiffer(t: Token, u: Token, translatable: set<string>) {
    t == u ||
    (&& ((t.StartTag? && u.StartTag?) || (t.SelfClosingTag? && u.SelfClosingTag?))
     && t.name == u.name && |t.attributes| == |u.attributes|
     && forall k :: 0 <= k < |t.attributes| ==>
          && t.attributes[k].key == u.attributes[k].key
          && (t.attributes[k].value == u.attributes[k].value || Lower(t.attributes[k].key) in translatable))
  }

  /** Whatever becomes of the values of translatable attributes, in any number of tags: the events stay the same. */
  lemma {:induction false} AllowedIsUnseen(a: seq<Token>, b: seq<Token>, translatable: set<string>)
    requires |a| == |b| && forall i :: 0 <= i < |a| ==> AllowedDiffer(a[i], b[i], translatable)
    ensures Events(a, translatable) == Events(b, translatable)
  {
    if a != [] {
      var n := |a| - 1;
      AllowedIsUnseen(a[..n], b[..n], translatable);
      assert AllowedDiffer(a[n], b[n], translatable);
      if a[n].StartTag? || a[n].SelfClosingTag? {
        AllowedTexts(a[n].attributes, b[n].attributes, translatable);
      }
    }
  }

  lemma AllowedTexts(a: seq<Attribute>, b: seq<Attribute>, translatable: set<string>)
    requires |a| == |b|
    requires forall k :: 0 <= k < |a| ==>
      a[k].key == b[k].key && (a[k].value == b[k].value || Lower(a[k].key) in translatable)
    ensures AttributeTexts(a, translatable) == AttributeTexts(b, translatable)
  {
  }

  function WithValue(token: Token, k: nat, value: string): Token
    requires (token.StartTag? || token.SelfClosingTag?) && k < |token.attributes|
  {
    token.(attributes := token.attributes[k := Attribute(token.attributes[k].key, value)])
  }

  /** Another value of one attribute changes the events exactly if the attribute is not translatable. */
  lemma ValueChangeIsSeen(tokens: seq<Token>, i: nat, k: nat, value: string, translatable: set<string>)
    requires forall n :: 0 <= n < |tokens| ==> Tokenized(tokens[n])
    requires i < |tokens| && (tokens[i].StartTag? || tokens[i].SelfClosingTag?) && k < |tokens[i].attributes|
    requires value != tokens[i].attributes[k].value
    ensures Events(tokens[i := WithValue(tokens[i], k, value)], translatable) == Events(tokens, translatable)
       <==> Lower(tokens[i].attributes[k].key) in translatable
  {
    var changed := WithValue(tokens[i], k, value);
    AttributeChange(tokens[i].attributes, k, value, translatable);
    OneChange(tokens, i, changed, translatable);
    EventsDecide(tokens[i := changed], tokens, translatable);
  }

  lemma AttributeChange(attributes: seq<Attribute>, k: nat, value: string, translatable: set<string>)
    requires k < |attributes| && value != attributes[k].value
    ensures var changed := attributes[k := Attribute(attributes[k].key, value)];
      multiset(SeeAll(changed, translatable)) == multiset(SeeAll(attributes, translatable))
      <==> Lower(attributes[k].key) in translatable
  {
    var changed := attributes[k := Attribute(attributes[k].key, value)];
    var see := (x: Attribute) => See(x, translatable);
    assert Images(attributes, see) == SeeAll(attributes, translatable);
    assert Images(changed, see) == SeeAll(changed, translatable);
    assert Without(changed, k) == Without(attributes, k);
    WithoutImage(attributes, k, see);
    WithoutImage(changed, k, see);
    OtherLast(multiset(Images(Without(attributes, k), see)), see(attributes[k]), see(changed[k]));
  }

  lemma OtherLast<T>(m: multiset<T>, x: T, y: T)
    ensures m + multiset{x} == m + multiset{y} <==> x == y
  {
    if m + multiset{x} == m + multiset{y} {
      assert (m + multiset{x})[x] == (m + multiset{y})[x];
    }
  }

  /** Exchanging one token that is not text for another shows exactly if it looks different. */
  lemma {:induction false} OneChange(tokens: seq<Token>, i: nat, changed: Token, translatable: set<string>)
    requires i < |tokens| && !tokens[i].TextToken? && !changed.TextToken?
    ensures Sights(tokens[i := changed], translatable) == Sights(tokens, translatable)
       <==> SightsOf(changed, translatable) == SightsOf(tokens[i], translatable)
  {
    var n, other := |tokens| - 1, tokens[i := changed];
    if i == n {
      assert other[..n] == tokens[..n];
      LastsDecide(Sights(tokens[..n], translatable), Sights(other[..n], translatable),
                  SightsOf(tokens[n], translatable), SightsOf(other[n], translatable));
    } else {
      assert other[..n] == tokens[..n][i := changed];
      OneChange(tokens[..n], i, changed, translatable);
      SameEnds(Sights(tokens[..n], translatable), Sights(other[..n], translatable), SightsOf(tokens[n], translatable));
    }
  }

  lemma SameEnds<T>(s: seq<T>, t: seq<T>, end: seq<T>)
    ensures s + end == t + end <==> s == t
  {
    if s + end == t + end {
      assert |s + end| == |s| + |end| && |t + end| == |t| + |end|;
      assert s == (s + end)[..|s|] && t == (t + end)[..|t|];
    }
  }
}
