/** Documents, with white space, quotes and entities to taste, are read back as they were written
    (cfgui/picoxml.h). */
module PicoXmlDocuments {
  import opened Strings
  import opened PicoXml

  /** A piece of text: a character, one of the five named by an entity, or an entity that is not known. */
  datatype Chunk = Char(c: char) | Ref(c: char) | Unknown(code: string)

  /** An attribute: white space in front, around the equals sign, and the quote character. */
  datatype Attr = Attr(gap: string, name: string, pre: string, post: string, quote: char, value: seq<Chunk>)

  /** A start or an empty element, or an end, with attributes, perhaps a stray character, and white space behind it; a
      comment with its marks. */
  datatype Markup =
    | Open(name: string, attrs: seq<Attr>, stray: string, trail: string, empty: bool)
    | Close(name: string, attrs: seq<Attr>, stray: string, trail: string)
    | Note(text: string)

  /** A markup and the text that follows it. */
  datatype Piece = Piece(markup: Markup, text: seq<Chunk>)

  // ---- writing ----

  function EntityOf(c: char): string {
    if c == '"' then "quot" else if c == '&' then "amp" else if c == '\'' then "apos"
    else if c == '<' then "lt" else if c == '>' then "gt" else ""
  }

  function ChunkText(x: Chunk): string {
    match x
    case Char(c) => [c]
    case Ref(c) => ['&'] + EntityOf(c) + [';']
    case Unknown(code) => ['&'] + code + [';']
  }

  function Written(text: seq<Chunk>): string {
    if text == [] then "" else ChunkText(text[0]) + Written(text[1..])
  }

  function AttrText(a: Attr, more: string): string {
    a.name + (a.pre + (['='] + (a.post + ([a.quote] + (Written(a.value) + ([a.quote] + more))))))
  }

  function AttrsText(attrs: seq<Attr>, stray: string): string {
    if attrs == [] then stray else attrs[0].gap + AttrText(attrs[0], AttrsText(attrs[1..], stray))
  }

  function TagText(name: string, attrs: seq<Attr>, stray: string): string {
    name + AttrsText(attrs, stray)
  }

  function Between(head: string, tag: string, trail: string, tail: string): string {
    head + tag + trail + tail + ['>']
  }

  /** What stands between the brackets, and the closing one. */
  function Inside(m: Markup): string
    requires !m.Note?
  {
    match m
    case Open(name, attrs, stray, trail, empty) =>
      Between("", TagText(name, attrs, stray), trail, if empty then "/" else "")
    case Close(name, attrs, stray, trail) => Between("/", TagText(name, attrs, stray), trail, "")
  }

  function MarkupText(m: Markup): string {
    if m.Note? then m.text else ['<'] + Inside(m)
  }

  /** Behind the text of the last markup, anything may follow. */
  function DocText(doc: seq<Piece>, tail: string): string {
    if doc == [] then tail else MarkupText(doc[0].markup) + (Written(doc[0].text) + DocText(doc[1..], tail))
  }

  // ---- what may be written ----

  const KNOWN: set<string> := {"quot", "amp", "apos", "lt", "gt"}

  /** A character is not an ampersand or one of the forbidden ones; an unknown entity is none of the five. */
  predicate ChunkOk(x: Chunk, not: string) {
    match x
    case Char(c) => c != '&' && c !in not
    case Ref(c) => EntityOf(c) != ""
    case Unknown(code) => code !in KNOWN && forall i :: 0 <= i < |code| ==> code[i] != ';' && code[i] !in not
  }

  predicate TextOk(text: seq<Chunk>, not: string) {
    forall i :: 0 <= i < |text| ==> ChunkOk(text[i], not)
  }

  predicate AttrOk(a: Attr) {
    && AllIn(a.gap, WS) && AllIn(a.pre, WS) && AllIn(a.post, WS)
    && a.name != "" && (forall i :: 0 <= i < |a.name| ==> a.name[i] !in " \t\n\r=" && a.name[i] != '>')
    && (a.quote == '"' || a.quote == '\'') && TextOk(a.value, [a.quote, '>'])
  }

  predicate AttrsOk(attrs: seq<Attr>) {
    forall i :: 0 <= i < |attrs| ==> AttrOk(attrs[i])
  }

  /** A tag name with its attributes: white space must come between it and the first of them, and one of the two must be
      there. */
  predicate TagOk(name: string, attrs: seq<Attr>, stray: string) {
    && (forall i :: 0 <= i < |name| ==> name[i] !in WS && name[i] != '>')
    && AttrsOk(attrs) && StrayOk(stray)
    && if attrs == [] then name != "" && stray == "" else attrs[0].gap != ""
  }

  /** Nothing, or white space and one character that the attribute loop leaves alone. */
  predicate StrayOk(stray: string) {
    stray == "" ||
    (AllIn(stray[..|stray| - 1], WS) && stray[|stray| - 1] !in WS && stray[|stray| - 1] != '>')
  }

  predicate At(s: string, pat: string, k: nat) {
    k + |pat| <= |s| && s[k..k + |pat|] == pat
  }

  /** The text up to the first end mark of a comment. */
  predicate NoteOk(text: string) {
    && |text| >= 5 && text[..4] == "<!--" && At(text, "-->", |text| - 3)
    && forall k :: 0 <= k < |text| - 3 ==> !At(text, "-->", k)
  }

  /** A slash behind the opening bracket would make an end of a start, one in front of the closing bracket an empty
      element, and a start must not look like a comment. */
  predicate MarkupOk(m: Markup) {
    match m
    case Open(name, attrs, stray, trail, empty) =>
      var t := TagText(name, attrs, stray) + trail;
      && TagOk(name, attrs, stray) && AllIn(trail, WS)
      && t != "" && t[0] != '/' && (!empty ==> t[|t| - 1] != '/') && !("!--" <= t)
    case Close(name, attrs, stray, trail) =>
      var t := TagText(name, attrs, stray) + trail;
      TagOk(name, attrs, stray) && AllIn(trail, WS) && t != "" && t[|t| - 1] != '/'
    case Note(text) => NoteOk(text)
  }

  predicate PieceOk(x: Piece) {
    MarkupOk(x.markup) && TextOk(x.text, "<")
  }

  predicate DocOk(doc: seq<Piece>, tail: string) {
    && (forall i :: 0 <= i < |doc| ==> PieceOk(doc[i]))
    && '<' !in tail && (doc == [] ==> tail == "")
  }

  // ---- what it means ----

  /** Unknown entities disappear. */
  function Meant(text: seq<Chunk>): string {
    if text == [] then ""
    else (if text[0].Unknown? then "" else [text[0].c]) + Meant(text[1..])
  }

  /** The last attribute of a name counts. */
  function AttrMap(attrs: seq<Attr>, m: Attrs): Attrs
    decreases |attrs|
  {
    if attrs == [] then m else AttrMap(attrs[1..], m[attrs[0].name := Meant(attrs[0].value)])
  }

  /** The calls and the elements open after one markup, None for an end that does not match. */
  function Meaning(m: Markup, open: seq<string>): Option<(seq<Event>, seq<string>)> {
    match m
    case Note(_) => Some(([], open))
    case Close(name, _, _, _) =>
      if open != [] && open[|open| - 1] == name then Some(([End(name)], open[..|open| - 1])) else None
    case Open(name, attrs, _, _, empty) =>
      var start := Start(name, AttrMap(attrs, map[]));
      if empty then Some(([start, End(name)], open)) else Some(([start], open + [name]))
  }

  /** Text is reported when something follows. */
  function TextCalls(text: seq<Chunk>, last: bool): seq<Event> {
    if text == [] || last then [] else [Data(Meant(text))]
  }

  function Expected(doc: seq<Piece>, open: seq<string>): Result
    decreases |doc|
  {
    if doc == [] then Result(open == [], [])
    else
      match Meaning(doc[0].markup, open)
      case None => Result(false, [])
      case Some((calls, next)) =>
        Before(calls, Before(TextCalls(doc[0].text, |doc| == 1), Expected(doc[1..], next)))
  }

  // ---- text ----

  lemma ChunkRead(x: Chunk, not: string, t: string)
    requires ChunkOk(x, not)
    ensures Unquote(ChunkText(x) + t) == Glue(if x.Unknown? then "" else [x.c], Unquote(t))
  {
    var s := ChunkText(x) + t;
    if x.Char? {
      assert s[1..] == t;
    } else {
      var code := if x.Ref? then EntityOf(x.c) else x.code;
      assert s[1..] == code + [';'] + t;
      if x.Ref? { CodeOk(x.c); } else { UnknownCode(x.code); }
      FindAfter(code, ';', t);
    }
  }

  lemma UnknownCode(code: string)
    ensures Entity(code) == "" <==> code !in KNOWN
  {
  }

  lemma CodeOk(c: char)
    requires EntityOf(c) != ""
    ensures ';' !in EntityOf(c) && Entity(EntityOf(c)) == [c]
    ensures forall d :: d in EntityOf(c) ==> d !in "<>\"'&"
  {
  }

  /** Text in which some characters are written as entities stands for those characters. */
  lemma {:induction false} WrittenRead(text: seq<Chunk>, not: string)
    requires TextOk(text, not)
    ensures Unquote(Written(text)) == Some(Meant(text))
  {
    if text != [] {
      ChunkRead(text[0], not, Written(text[1..]));
      WrittenRead(text[1..], not);
    }
  }

  /** An ampersand that no semicolon follows is an error, wherever it stands. */
  lemma {:induction false} UnfinishedEntity(text: seq<Chunk>, t: string)
    requires TextOk(text, "") && ';' !in t
    ensures Unquote(Written(text) + (['&'] + t)) == None
    decreases |text|
  {
    var s := ['&'] + t;
    if text == [] {
      assert Written(text) + s == s && s[1..] == t;
    } else {
      UnfinishedEntity(text[1..], t);
      Regroup(ChunkText(text[0]), Written(text[1..]), s);
      ChunkRead(text[0], "", Written(text[1..]) + s);
    }
  }

  lemma {:induction false} WrittenClean(text: seq<Chunk>, not: string, c: char)
    requires TextOk(text, not) && c in not && c in "<>\"'"
    ensures c !in Written(text)
  {
    if text != [] {
      WrittenClean(text[1..], not, c);
      if text[0].Ref? { CodeOk(text[0].c); }
      assert c !in ChunkText(text[0]);
    }
  }

  /** Every one of the five characters quoted. */
  function Quoted(s: string): seq<Chunk> {
    if s == "" then [] else [if EntityOf(s[0]) != "" then Ref(s[0]) else Char(s[0])] + Quoted(s[1..])
  }

  lemma {:induction false} QuotedMeans(s: string)
    ensures TextOk(Quoted(s), "<>\"'&") && Meant(Quoted(s)) == s
  {
    if s != "" {
      QuotedMeans(s[1..]);
      assert Quoted(s)[1..] == Quoted(s[1..]);
    }
  }

  lemma UnquoteQuote(s: string)
    ensures TextOk(Quoted(s), "<>\"'&") && Meant(Quoted(s)) == s
    ensures Unquote(Written(Quoted(s))) == Some(s)
  {
    QuotedMeans(s);
    WrittenRead(Quoted(s), "<>\"'&");
  }

  /** Text before a tag is reported; behind the last markup nothing is even looked at. */
  lemma TextRead(text: seq<Chunk>, last: bool, rest: string)
    requires TextOk(text, "<") && if last then '<' !in rest else rest != "" && rest[0] == '<'
    ensures CharData(Written(text) + rest) == Read(Some(if last then "" else rest), TextCalls(text, last))
  {
    var w := Written(text);
    WrittenClean(text, "<", '<');
    WrittenRead(text, "<");
    if !last {
      if text != [] { assert w != "" by { assert ChunkText(text[0]) != ""; } }
      TextThenTag(w, text, rest);
    }
  }

  lemma TextThenTag(w: string, text: seq<Chunk>, rest: string)
    requires '<' !in w && Unquote(w) == Some(Meant(text)) && rest != "" && rest[0] == '<' && (w == "" <==> text == [])
    ensures CharData(w + rest) == Read(Some(rest), TextCalls(text, false))
  {
    assert rest == ['<'] + rest[1..];
    FindAfter(w, '<', rest[1..]);
    Regroup(w, ['<'], rest[1..]);
    assert (w + rest)[|w|..] == rest && (w + rest)[..|w|] == w;
  }

  // ---- attributes ----

  /** A name ends at the first of some characters. */
  lemma NameEnds(n: string, set_: string, rest: string)
    requires rest != "" && rest[0] in set_ && forall i :: 0 <= i < |n| ==> n[i] !in set_
    ensures FindAny(n + rest, set_) == |n| && (n + rest)[..|n|] == n && (n + rest)[|n|..] == rest
  {
    var s := n + rest;
    assert s[|n|] == rest[0];
    assert forall i :: 0 <= i < |n| ==> s[i] == n[i];
  }

  /** White space, and then something else. */
  lemma GapSkipped(gap: string, t: string)
    requires AllIn(gap, WS) && t != "" && t[0] !in WS
    ensures SkipWS(gap + t) == t
  {
    TrimLeftCut(gap, t, WS);
  }

  lemma EqRead(a: Attr, q: string, t: string)
    requires AttrOk(a) && q != "" && t == a.name + (a.pre + (['='] + q)) && Solid(t)
    ensures AttrEq(t) == Some((a.name, q))
  {
    var eq := ['='] + q;
    BlanksThenEq(a.pre, q);
    NameEnds(a.name, " \t\n\r=", a.pre + eq);
    GapSkipped(a.pre, eq);
    EqIs(t, |a.name|, eq);
  }

  lemma BlanksThenEq(pre: string, q: string)
    requires AllIn(pre, WS)
    ensures (pre + (['='] + q))[0] in " \t\n\r="
  {
    if pre != "" { assert pre[0] in pre; }
  }

  lemma EqIs(t: string, e: nat, eq: string)
    requires Solid(t) && 0 < e < |t| && e == FindAny(t, " \t\n\r=") && SkipWS(t[e..]) == eq
    requires |eq| > 1 && eq[0] == '='
    ensures AttrEq(t) == Some((t[..e], eq[1..]))
  {
    SolidSkip(t, e);
  }

  lemma QuoteFollows(a: Attr, q: string, t: string)
    requires AttrOk(a) && Solid(t) && |q| > 1 && q[0] == a.quote && AttrEq(t) == Some((a.name, a.post + q))
    ensures AttrName(t) == Some((a.name, q))
  {
    GapSkipped(a.post, q);
  }

  lemma NameRead(a: Attr, more: string, t: string, q: string)
    requires AttrOk(a) && t == AttrText(a, more) && Solid(t)
    requires q == [a.quote] + (Written(a.value) + ([a.quote] + more))
    ensures AttrName(t) == Some((a.name, q))
  {
    EqRead(a, a.post + q, t);
    QuoteFollows(a, q, t);
  }

  lemma ValuePieces(c: char, v: string, more: string, q: string)
    requires c !in v && q == [c] + (v + ([c] + more))
    ensures |q| == |v| + |more| + 2 && Find(q[1..], q[0]) == |v| && q[1..][..|v|] == v && q[|v| + 2..] == more
  {
    Regroup(v, [c], more);
    assert q[1..] == v + [c] + more;
    FindAfter(v, c, more);
  }

  lemma ValueAt(q: string, v: string, value: string, more: string)
    requires Solid(q) && |q| == |v| + |more| + 2 && |v| == Find(q[1..], q[0])
    requires q[1..][..|v|] == v && q[|v| + 2..] == more && Unquote(v) == Some(value)
    ensures AttrValue(q) == Some((value, more))
  {
  }

  lemma ValueRead(c: char, v: string, value: string, more: string, q: string)
    requires c !in v && Unquote(v) == Some(value)
    requires q == [c] + (v + ([c] + more)) && Solid(q)
    ensures |q| > 1 && AttrValue(q) == Some((value, more))
  {
    ValuePieces(c, v, more, q);
    ValueAt(q, v, value, more);
  }

  /** One attribute, and the text of the others. */
  lemma AttrRead(a: Attr, more: string, t: string) returns (q: string)
    requires AttrOk(a) && t == AttrText(a, more) && Solid(t)
    ensures AttrName(t) == Some((a.name, q)) && AttrValue(q) == Some((Meant(a.value), more))
    ensures more == "" || Solid(more)
  {
    q := [a.quote] + (Written(a.value) + ([a.quote] + more));
    NameRead(a, more, t, q);
    assert Solid(q) by { assert AttrName(t).value.1 == q; }
    WrittenClean(a.value, [a.quote, '>'], a.quote);
    WrittenRead(a.value, [a.quote, '>']);
    ValueRead(a.quote, Written(a.value), Meant(a.value), more, q);
    if more != "" {
      assert Solid(more) by { assert AttrValue(q).value.1 == more; }
    }
  }

  /** One turn of the loop. */
  lemma LoopTurn(t: string, m: Attrs, nm: string, q: string, value: string, after: string)
    requires Solid(t) && AttrName(t) == Some((nm, q)) && AttrValue(q) == Some((value, after))
    ensures after == "" ==> ParseAttrLoop(t, m) == Some(m[nm := value])
    ensures after != "" ==>
              && Solid(after) && Solid(SkipWS(after))
              && ParseAttrLoop(t, m) == if |SkipWS(after)| == 1 then Some(m[nm := value])
                                        else ParseAttrLoop(SkipWS(after), m[nm := value])
  {
    if after != "" { SolidRest(after); }
  }

  /** No bracket inside, and no white space at the end. */
  predicate Compact(t: string) {
    '>' !in t && (t != "" ==> t[|t| - 1] !in WS)
  }

  lemma CompactAppend(a: string, b: string)
    requires '>' !in a && Compact(b) && b != ""
    ensures Compact(a + b)
  {
    assert (a + b)[|a + b| - 1] == b[|b| - 1];
  }

  lemma ValueCompact(a: Attr, more: string, w: string)
    requires AttrOk(a) && Compact(more)
    requires w == a.post + ([a.quote] + (Written(a.value) + ([a.quote] + more)))
    ensures Compact(w) && w != ""
  {
    WrittenClean(a.value, [a.quote, '>'], '>');
    var q := [a.quote] + more;
    assert Compact(q) by { assert q[|q| - 1] == if more == "" then a.quote else more[|more| - 1]; }
    CompactAppend(Written(a.value), q);
    CompactAppend([a.quote], Written(a.value) + q);
    CompactAppend(a.post, [a.quote] + (Written(a.value) + q));
  }

  lemma AttrCompact(a: Attr, more: string)
    requires AttrOk(a) && Compact(more)
    ensures AttrText(a, more) != "" && AttrText(a, more)[0] == a.name[0] && Compact(AttrText(a, more))
    ensures Compact(a.gap + AttrText(a, more)) && |AttrText(a, more)| > 1
  {
    var w := a.post + ([a.quote] + (Written(a.value) + ([a.quote] + more)));
    ValueCompact(a, more, w);
    CompactAppend(['='], w);
    CompactAppend(a.pre, ['='] + w);
    CompactAppend(a.name, a.pre + (['='] + w));
    CompactAppend(a.gap, AttrText(a, more));
  }

  lemma StrayCompact(stray: string)
    requires StrayOk(stray)
    ensures Compact(stray)
  {
    if stray != "" {
      var n := |stray| - 1;
      assert stray == stray[..n] + [stray[n]];
      CompactAppend(stray[..n], [stray[n]]);
    }
  }

  /** Attributes end in a quote or a stray character, and hold no bracket. */
  lemma {:induction false} AttrsCompact(attrs: seq<Attr>, stray: string)
    requires AttrsOk(attrs) && StrayOk(stray)
    ensures Compact(AttrsText(attrs, stray))
    decreases |attrs|
  {
    if attrs == [] {
      StrayCompact(stray);
    } else {
      AttrsCompact(attrs[1..], stray);
      assert AttrOk(attrs[0]);
      AttrCompact(attrs[0], AttrsText(attrs[1..], stray));
    }
  }

  /** White space in front of attributes. */
  lemma ToNextAttr(attrs: seq<Attr>, stray: string) returns (t: string)
    requires attrs != [] && AttrsOk(attrs) && StrayOk(stray)
    ensures t == AttrText(attrs[0], AttrsText(attrs[1..], stray)) && AttrsText(attrs, stray) == attrs[0].gap + t
    ensures SkipWS(AttrsText(attrs, stray)) == t && |t| > 1 && Solid(t)
  {
    t := AttrText(attrs[0], AttrsText(attrs[1..], stray));
    assert AttrOk(attrs[0]);
    AttrsCompact(attrs[1..], stray);
    AttrCompact(attrs[0], AttrsText(attrs[1..], stray));
    GapSkipped(attrs[0].gap, t);
  }

  lemma {:induction false} AttrsRead(attrs: seq<Attr>, stray: string, m: Attrs, t: string)
    requires attrs != [] && AttrsOk(attrs) && StrayOk(stray)
    requires t == AttrText(attrs[0], AttrsText(attrs[1..], stray)) && Solid(t)
    ensures ParseAttrLoop(t, m) == Some(AttrMap(attrs, m))
    decreases |attrs|
  {
    var a, rest := attrs[0], attrs[1..];
    var m1 := m[a.name := Meant(a.value)];
    FirstAttr(a, AttrsText(rest, stray), m, t);
    if rest == [] {
      if stray != "" { StraySkipped(stray); }
      assert AttrMap(rest, m1) == m1;
    } else {
      var next := ToNextAttr(rest, stray);
      AttrsRead(rest, stray, m1, next);
    }
  }

  /** The first attribute, and the loop on what is left. */
  lemma FirstAttr(a: Attr, more: string, m: Attrs, t: string)
    requires AttrOk(a) && t == AttrText(a, more) && Solid(t)
    ensures more == "" ==> ParseAttrLoop(t, m) == Some(m[a.name := Meant(a.value)])
    ensures more != "" ==>
              && Solid(SkipWS(more))
              && ParseAttrLoop(t, m) == if |SkipWS(more)| == 1 then Some(m[a.name := Meant(a.value)])
                                        else ParseAttrLoop(SkipWS(more), m[a.name := Meant(a.value)])
  {
    var q := AttrRead(a, more, t);
    LoopTurn(t, m, a.name, q, Meant(a.value), more);
  }

  lemma StraySkipped(stray: string)
    requires StrayOk(stray) && stray != ""
    ensures |SkipWS(stray)| == 1
  {
    var n := |stray| - 1;
    assert stray == stray[..n] + [stray[n]];
    GapSkipped(stray[..n], [stray[n]]);
  }

  lemma BodyRead(name: string, attrs: seq<Attr>, stray: string, tag: string)
    requires TagOk(name, attrs, stray) && tag == TagText(name, attrs, stray) && Solid(tag)
    ensures ParseAttrs(tag) == Some((name, AttrMap(attrs, map[])))
  {
    if attrs == [] {
      assert tag == name && FindAny(tag, WS) == |tag|;
    } else {
      var t := ToNextAttr(attrs, stray);
      assert AttrOk(attrs[0]) && attrs[0].gap[0] in attrs[0].gap;
      NameEnds(name, WS, attrs[0].gap + t);
      SkipStops(tag);
      AttrsRead(attrs, stray, map[], t);
    }
  }

  // ---- tags ----

  lemma BodyClean(name: string, attrs: seq<Attr>, stray: string)
    requires TagOk(name, attrs, stray)
    ensures Compact(TagText(name, attrs, stray)) && Solid(TagText(name, attrs, stray))
  {
    if attrs == [] {
      assert TagText(name, attrs, stray) == name;
    } else {
      var t := ToNextAttr(attrs, stray);
      AttrsCompact(attrs, stray);
      CompactAppend(name, AttrsText(attrs, stray));
    }
  }

  /** Where the closing bracket stands. */
  lemma BracketFound(upTo: string, rest: string, body: string, from: nat, to: nat)
    requires '>' !in upTo && upTo != "" && body == upTo + ['>'] + rest && from <= to <= |upTo|
    ensures Find(body, '>') == |upTo| && body[from..to] == upTo[from..to] && body[|upTo| + 1..] == rest
    ensures body[0] == upTo[0] && body[|upTo| - 1] == upTo[|upTo| - 1]
  {
    FindAfter(upTo, '>', rest);
  }

  /** The text between two brackets. */
  lemma RawRead(isend: bool, empty: bool, tag: string, trail: string, rest: string, body: string)
    requires AllIn(trail, WS) && Solid(tag) && Compact(tag) && !(isend && empty)
    requires !isend ==> (tag + trail)[0] != '/'
    requires !empty ==> (tag + trail)[|tag + trail| - 1] != '/'
    requires body == Between(if isend then "/" else "", tag, trail, if empty then "/" else "") + rest
    ensures PicoXml.TagText(body) == Some(Raw(isend, empty, tag, rest))
  {
    var t, upTo := tag + trail, UpTo(isend, empty, tag + trail);
    RawUpTo(isend, empty, tag, trail, rest, body);
    assert '>' !in t by { assert '>' !in trail; }
    RawEnds(isend, empty, t, upTo);
    var from, to := if isend then 1 else 0, if empty then |upTo| - 1 else |upTo|;
    BracketFound(upTo, rest, body, from, to);
    TrimRightCut(tag, trail, WS);
    RawIs(isend, empty, tag, rest, body, |upTo|, from, to);
  }

  function UpTo(isend: bool, empty: bool, t: string): string {
    (if isend then "/" else "") + t + (if empty then "/" else "")
  }

  lemma RawUpTo(isend: bool, empty: bool, tag: string, trail: string, rest: string, body: string)
    requires body == Between(if isend then "/" else "", tag, trail, if empty then "/" else "") + rest
    ensures body == UpTo(isend, empty, tag + trail) + ['>'] + rest
  {
    Regroup(if isend then "/" else "", tag, trail);
  }

  lemma RawIs(isend: bool, empty: bool, tag: string, rest: string, body: string, g: nat, from: nat,
             to: nat)
    requires 0 < g < |body| && g == Find(body, '>') && body[g + 1..] == rest && Solid(tag) && !(isend && empty)
    requires (body[0] == '/' <==> isend) && (body[g - 1] == '/' <==> empty)
    requires from == (if isend then 1 else 0) && to == (if empty then g - 1 else g)
    requires from <= to && TrimRight(body[from..to], WS) == tag
    ensures PicoXml.TagText(body) == Some(Raw(isend, empty, tag, rest))
  {
  }

  lemma RawEnds(isend: bool, empty: bool, t: string, upTo: string)
    requires t != "" && '>' !in t && (!isend ==> t[0] != '/') && (!empty ==> t[|t| - 1] != '/')
    requires upTo == UpTo(isend, empty, t)
    ensures upTo != "" && (upTo[0] == '/' <==> isend) && (upTo[|upTo| - 1] == '/' <==> empty) && '>' !in upTo
    ensures |upTo| == |t| + (if isend then 1 else 0) + (if empty then 1 else 0)
    ensures upTo[(if isend then 1 else 0)..(if empty then |upTo| - 1 else |upTo|)] == t
  {
    assert upTo[0] == if isend then '/' else t[0];
    assert upTo[|upTo| - 1] == if empty then '/' else t[|t| - 1];
  }

  lemma TagIs(body: string, raw: Raw, name: string, attrs: Attrs)
    requires PicoXml.TagText(body) == Some(raw) && ParseAttrs(raw.text) == Some((name, attrs))
    ensures ReadTag(body) == if raw.isend then CloseTag(name, raw.rest) else OpenTag(name, attrs, raw.empty, raw.rest)
  {
  }

  lemma TagRead(isend: bool, empty: bool, name: string, attrs: seq<Attr>, stray: string, trail: string, rest: string,
                body: string)
    requires TagOk(name, attrs, stray) && AllIn(trail, WS) && !(isend && empty)
    requires var t := TagText(name, attrs, stray) + trail;
             t != "" && (!isend ==> t[0] != '/') && (!empty ==> t[|t| - 1] != '/')
    requires body == Between(if isend then "/" else "", TagText(name, attrs, stray), trail,
                             if empty then "/" else "") + rest
    ensures ReadTag(body)
         == if isend then CloseTag(name, rest) else OpenTag(name, AttrMap(attrs, map[]), empty, rest)
  {
    var tag := TagText(name, attrs, stray);
    BodyClean(name, attrs, stray);
    BodyRead(name, attrs, stray, tag);
    RawRead(isend, empty, tag, trail, rest, body);
    TagIs(body, Raw(isend, empty, tag, rest), name, AttrMap(attrs, map[]));
  }

  lemma {:induction false} FindStrAt(s: string, pat: string, k: nat)
    requires pat != "" && At(s, pat, k) && forall j :: 0 <= j < k ==> !At(s, pat, j)
    ensures FindStr(s, pat) == k
    decreases k
  {
    assert s[..|pat|] == s[0..|pat|];
    assert At(s, pat, 0) <==> s[..|pat|] == pat;
    if k > 0 {
      forall j | 0 <= j < |s| ensures At(s[1..], pat, j) <==> At(s, pat, j + 1) {
        AtTail(s, pat, j);
      }
      assert At(s, pat, k - 1 + 1);
      FindStrAt(s[1..], pat, k - 1);
    }
  }

  lemma AtTail(s: string, pat: string, j: nat)
    requires s != ""
    ensures At(s[1..], pat, j) <==> At(s, pat, j + 1)
  {
    if j + 1 + |pat| <= |s| {
      assert s[1..][j..j + |pat|] == s[j + 1..j + 1 + |pat|];
    }
  }

  lemma AtPrefix(a: string, b: string, pat: string, j: nat)
    requires j + |pat| <= |a|
    ensures At(a + b, pat, j) <==> At(a, pat, j)
  {
    assert (a + b)[j..j + |pat|] == a[j..j + |pat|];
  }

  /** What the first pat, right at the end of a, leaves. */
  lemma CutAt(a: string, b: string, pat: string)
    requires pat != "" && |pat| <= |a| && At(a, pat, |a| - |pat|)
    requires forall j :: 0 <= j < |a| - |pat| ==> !At(a, pat, j)
    ensures FindStr(a + b, pat) == |a| - |pat| && (a + b)[|a|..] == b
  {
    var k := |a| - |pat|;
    AtPrefix(a, b, pat, k);
    forall j | 0 <= j < k ensures !At(a + b, pat, j) {
      AtPrefix(a, b, pat, j);
    }
    FindStrAt(a + b, pat, k);
  }

  lemma NoteRead(text: string, rest: string, s: string)
    requires NoteOk(text) && s == text + rest
    ensures s[0] == '<' && AtComment(s) && SkipComment(s) == CharData(rest)
  {
    CutAt(text, rest, "-->");
    assert text[..4][1] == text[1] && text[..4][2] == text[2] && text[..4][3] == text[3] && text[..4][0] == text[0];
  }

  // ---- documents ----

  /** The parse of the rest, after one markup and its text. */
  function Continue(r: Option<(seq<Event>, seq<string>)>, text: seq<Chunk>, last: bool, rest: string): Result
    requires rest == "" || rest[0] == '<'
  {
    match r
    case None => Result(false, [])
    case Some((calls, next)) => Before(calls, Before(TextCalls(text, last), ParseFrom(rest, next)))
  }

  /** What is left to parse, after the last markup nothing. */
  function Left(last: bool, rest: string): string {
    if last then "" else rest
  }

  predicate Follows(last: bool, rest: string) {
    if last then '<' !in rest else rest != "" && rest[0] == '<'
  }

  /** One markup with the text after it. */
  lemma PieceRead(x: Piece, last: bool, rest: string, open: seq<string>, s: string)
    requires PieceOk(x) && Follows(last, rest) && s == MarkupText(x.markup) + (Written(x.text) + rest)
    ensures s != "" && s[0] == '<'
    ensures ParseFrom(s, open) == Continue(Meaning(x.markup, open), x.text, last, Left(last, rest))
  {
    if x.markup.Note? {
      NotePiece(x, last, rest, open, s);
    } else {
      TagPiece(x, last, rest, open, s);
    }
  }

  lemma TagPiece(x: Piece, last: bool, rest: string, open: seq<string>, s: string)
    requires PieceOk(x) && !x.markup.Note? && Follows(last, rest)
    requires s == ['<'] + Inside(x.markup) + (Written(x.text) + rest)
    ensures s != "" && s[0] == '<'
    ensures ParseFrom(s, open) == Continue(Meaning(x.markup, open), x.text, last, Left(last, rest))
  {
    var after := Written(x.text) + rest;
    var t := TagOf(x.markup, after);
    TagInside(x.markup, after, s);
    CallsAsMeant(x.markup, after, open);
    TextRead(x.text, last, rest);
    match TagCalls(t, open)
    case None =>
    case Some((calls, next)) =>
      var d := TextCalls(x.text, last);
      OneTagIs(s, open, t, Read(Some(Left(last, rest)), d), calls, next);
      BeforeTwice(calls, d, ParseFrom(Left(last, rest), next));
  }

  function TagOf(m: Markup, rest: string): (t: Tag)
    requires !m.Note?
    ensures !t.BadTag? && t.rest == rest
  {
    if m.Open? then OpenTag(m.name, AttrMap(m.attrs, map[]), m.empty, rest) else CloseTag(m.name, rest)
  }

  lemma CallsAsMeant(m: Markup, rest: string, open: seq<string>)
    requires !m.Note?
    ensures TagCalls(TagOf(m, rest), open) == Meaning(m, open)
  {
    if m.Open? {
      var start := Start(m.name, AttrMap(m.attrs, map[]));
      assert [start] + [End(m.name)] == [start, End(m.name)] && [start] + [] == [start];
    }
  }

  lemma TagInside(m: Markup, after: string, s: string)
    requires MarkupOk(m) && !m.Note? && s == ['<'] + Inside(m) + after
    ensures s != "" && s[0] == '<' && !AtComment(s) && ReadTag(s[1..]) == TagOf(m, after)
  {
    match m
    case Open(name, attrs, stray, trail, empty) => OpenInside(name, attrs, stray, trail, empty, after, s);
    case Close(name, attrs, stray, trail) => CloseInside(name, attrs, stray, trail, after, s);
  }

  lemma OpenInside(name: string, attrs: seq<Attr>, stray: string, trail: string, empty: bool, after: string, s: string)
    requires MarkupOk(Open(name, attrs, stray, trail, empty))
    requires s == ['<'] + Between("", TagText(name, attrs, stray), trail, if empty then "/" else "") + after
    ensures s != "" && s[0] == '<' && !AtComment(s)
    ensures ReadTag(s[1..]) == OpenTag(name, AttrMap(attrs, map[]), empty, after)
  {
    var tag, tail := TagText(name, attrs, stray), if empty then "/" else "";
    AfterBracket(Between("", tag, trail, tail), after, s);
    TagRead(false, empty, name, attrs, stray, trail, after, s[1..]);
    InsideOpen(tag, trail, tail, Between("", tag, trail, tail));
    BodyClean(name, attrs, stray);
    NoComment(tag + trail, tail, after, s);
  }

  lemma CloseInside(name: string, attrs: seq<Attr>, stray: string, trail: string, after: string, s: string)
    requires MarkupOk(Close(name, attrs, stray, trail))
    requires s == ['<'] + Between("/", TagText(name, attrs, stray), trail, "") + after
    ensures s != "" && s[0] == '<' && !AtComment(s) && ReadTag(s[1..]) == CloseTag(name, after)
  {
    AfterBracket(Between("/", TagText(name, attrs, stray), trail, ""), after, s);
    TagRead(true, false, name, attrs, stray, trail, after, s[1..]);
  }

  lemma InsideOpen(tag: string, trail: string, tail: string, inside: string)
    requires inside == Between("", tag, trail, tail)
    ensures inside == tag + trail + tail + ['>']
  {
    assert "" + tag == tag;
  }

  lemma AfterBracket(inside: string, after: string, s: string)
    requires s == ['<'] + inside + after && inside != ""
    ensures |s| > 1 && s[0] == '<' && s[1] == inside[0] && s[1..] == inside + after
  {
  }

  lemma NoComment(t: string, tail: string, after: string, s: string)
    requires t != "" && !("!--" <= t) && (tail == "" || tail == "/")
    requires s == ['<'] + (t + tail + ['>']) + after
    ensures !AtComment(s)
  {
    assert forall i :: 0 <= i < |t| ==> s[i + 1] == t[i];
    assert s[|t| + 1] == if tail == "" then '>' else '/';
    if |t| >= 3 { assert t[..3] == [t[0], t[1], t[2]]; }
  }

  lemma NotePiece(x: Piece, last: bool, rest: string, open: seq<string>, s: string)
    requires PieceOk(x) && x.markup.Note? && Follows(last, rest)
    requires s == x.markup.text + (Written(x.text) + rest)
    ensures s != "" && s[0] == '<' && ParseFrom(s, open) == Continue(Some(([], open)), x.text, last, Left(last, rest))
  {
    TextRead(x.text, last, rest);
    NoteRead(x.markup.text, Written(x.text) + rest, s);
    BeforeNothing(Before(TextCalls(x.text, last), ParseFrom(Left(last, rest), open)));
  }

  lemma OneTagIs(s: string, open: seq<string>, t: Tag, r: Read, calls: seq<Event>, next: seq<string>)
    requires s != "" && s[0] == '<' && t == ReadTag(s[1..]) && TagCalls(t, open) == Some((calls, next))
    requires r == CharData(t.rest)
    ensures OneTag(s, open) == (r.(events := calls + r.events), next)
  {
  }

  lemma DocStart(doc: seq<Piece>, tail: string)
    requires doc != [] && DocOk(doc, tail)
    ensures DocText(doc, tail) != "" && DocText(doc, tail)[0] == '<'
  {
    assert PieceOk(doc[0]);
    var m := doc[0].markup;
    if m.Note? { assert m.text[..4][0] == m.text[0]; }
  }

  lemma {:induction false} DocRead(doc: seq<Piece>, tail: string, open: seq<string>)
    requires DocOk(doc, tail)
    ensures DocText(doc, tail) == "" || DocText(doc, tail)[0] == '<'
    ensures ParseFrom(DocText(doc, tail), open) == Expected(doc, open)
    decreases |doc|
  {
    if doc != [] {
      assert PieceOk(doc[0]);
      DocStart(doc, tail);
      var last, rest := |doc| == 1, DocText(doc[1..], tail);
      if !last { DocStart(doc[1..], tail); }
      PieceRead(doc[0], last, rest, open, DocText(doc, tail));
      match Meaning(doc[0].markup, open)
      case None =>
      case Some((_, next)) => if last { LastRead(doc[1..], next); } else { DocRead(doc[1..], tail, next); }
    }
  }

  lemma LastRead(none: seq<Piece>, open: seq<string>)
    requires none == []
    ensures Expected(none, open) == ParseFrom("", open)
  {
  }

  /** The calls for a written document are those it stands for, whatever its layout, comments left out and entities
      decoded, and the parse succeeds exactly when every element is closed in turn. It must not start like a
      declaration. */
  lemma DocumentRead(doc: seq<Piece>, tail: string)
    requires DocOk(doc, tail) && !("<?" <= DocText(doc, tail))
    ensures Parse(DocText(doc, tail)) == Expected(doc, [])
  {
    var s := DocText(doc, tail);
    DocRead(doc, tail, []);
    if doc != [] {
      DocStart(doc, tail);
      if |s| > 1 { assert s[..2] == [s[0], s[1]]; }
      ParseStarts(s);
    }
  }

  lemma ParseStarts(s: string)
    requires s != "" && s[0] == '<' && (|s| == 1 || s[1] != '?')
    ensures Parse(s) == ParseFrom(s, [])
  {
    NoBlankFirst(s);
  }

  /** White space in front of a document makes no difference. */
  lemma BlanksSkipped(blanks: string, input: string)
    requires AllIn(blanks, WS)
    ensures Parse(blanks + input) == Parse(input)
  {
    TrimLeftCut(blanks, input, WS);
  }

  /** The text up to the first end mark of a declaration. */
  predicate DeclOk(decl: string) {
    && |decl| >= 3 && decl[..2] == "<?" && At(decl, "?>", |decl| - 2)
    && forall k :: 0 <= k < |decl| - 2 ==> !At(decl, "?>", k)
  }

  /** Nor does a declaration. */
  lemma DeclSkipped(decl: string, input: string)
    requires DeclOk(decl)
    ensures Parse(decl + input) == Parse(input)
  {
    assert decl[..2][0] == decl[0] && decl[..2][1] == decl[1];
    CutAt(decl, input, "?>");
    DeclStep(decl + input, |decl| - 2);
  }

  lemma DeclStep(s: string, k: nat)
    requires |s| > 1 && s[0] == '<' && s[1] == '?' && k == FindStr(s, "?>") < |s|
    ensures SkipDecl(s) == SkipDecl(s[k + 2..])
  {
    NoBlankFirst(s);
  }

  lemma NoBlankFirst(s: string)
    requires s != "" && s[0] !in WS
    ensures SkipWS(s) == s
  {
  }
}
