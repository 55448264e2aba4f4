/** Whatever the parser accepts is a written document, so that it accepts these and nothing else (cfgui/picoxml.h). */
module PicoXmlAccepted {
  import opened Strings
  import opened PicoXml
  import opened PicoXmlDocuments

  /** Nothing of some characters in a text. */
  predicate Without(s: string, not: string) {
    forall i :: 0 <= i < |s| ==> s[i] !in not
  }

  // ---- text ----

  /** The entity at the start of a text. */
  lemma EntityIs(code: string, not: string) returns (x: Chunk)
    requires ';' !in code && Without(code, not)
    ensures ChunkOk(x, not) && ChunkText(x) == ['&'] + code + [';']
  {
    UnknownCode(code);
    if Entity(code) == "" {
      x := Unknown(code);
    } else {
      x := Ref(Entity(code)[0]);
      assert EntityOf(x.c) == code;
    }
  }

  lemma EntityFirst(s: string, k: nat, not: string) returns (x: Chunk)
    requires k < |s| - 1 && s[0] == '&' && s[k + 1] == ';' && ';' !in s[1..k + 1] && Without(s, not)
    ensures ChunkOk(x, not) && s == ChunkText(x) + s[k + 2..]
  {
    x := EntityIs(s[1..k + 1], not);
    assert s == ['&'] + s[1..k + 1] + [';'] + s[k + 2..];
  }

  /** The first character or entity of a text. */
  lemma FirstChunk(s: string, not: string) returns (x: Chunk, rest: string)
    requires s != "" && Unquote(s).Some? && Without(s, not)
    ensures ChunkOk(x, not) && s == ChunkText(x) + rest && |rest| < |s| && Unquote(rest).Some?
  {
    if s[0] != '&' {
      x, rest := Char(s[0]), s[1..];
    } else {
      var k := Find(s[1..], ';');
      assert s[1..][..k] == s[1..k + 1] && s[1..][k + 1..] == s[k + 2..];
      rest := s[k + 2..];
      x := EntityFirst(s, k, not);
    }
  }

  /** Text that can be decoded is made of characters and entities. */
  lemma {:induction false} Chunked(s: string, not: string) returns (text: seq<Chunk>)
    requires Unquote(s).Some? && Without(s, not)
    ensures TextOk(text, not) && Written(text) == s
    decreases |s|
  {
    if s == "" {
      text := [];
    } else {
      var x, rest := FirstChunk(s, not);
      OnePart(s, ChunkText(x), rest, not);
      var more := Chunked(rest, not);
      text := [x] + more;
      assert text[1..] == more;
    }
  }

  lemma OnePart(t: string, a: string, b: string, not: string)
    requires t == a + b && Without(t, not)
    ensures Without(a, not) && Without(b, not)
  {
    assert forall i :: 0 <= i < |a| ==> t[i] == a[i];
    assert forall i :: 0 <= i < |b| ==> t[|a| + i] == b[i];
  }

  // ---- attributes ----

  /** What an attribute name and an equals sign are made of. */
  lemma EqParts(t: string, nm: string, rest: string) returns (pre: string)
    requires Solid(t) && AttrEq(t) == Some((nm, rest))
    ensures AllIn(pre, WS) && t == nm + (pre + (['='] + rest)) && nm != "" && Without(nm, " \t\n\r=")
  {
    var e := FindAny(t, " \t\n\r=");
    pre := TrimLeftSplit(t[e..], WS);
    assert t == t[..e] + t[e..];
    assert SkipWS(t[e..]) == ['='] + rest;
  }

  /** What a value in quotes is made of. */
  lemma ValueParts(q: string, value: string, after: string) returns (v: string)
    requires Solid(q) && |q| > 1 && AttrValue(q) == Some((value, after))
    ensures q == [q[0]] + (v + ([q[0]] + after)) && q[0] !in v && Unquote(v).Some?
  {
    var c := Find(q[1..], q[0]);
    v := q[1..][..c];
    assert q[1..] == v + ([q[0]] + after);
  }

  /** One attribute at the start of a text. */
  lemma AttrIs(t: string, gap: string, nm: string, q: string, value: string, after: string) returns (a: Attr)
    requires Solid(t) && Without(t, ">") && AllIn(gap, WS)
    requires AttrName(t) == Some((nm, q)) && AttrValue(q) == Some((value, after))
    ensures AttrOk(a) && t == AttrText(a, after) && a.gap == gap && Without(after, ">")
  {
    var rest := AttrEq(t).value.1;
    var pre := EqParts(t, nm, rest);
    var post := TrimLeftSplit(rest, WS);
    var v := ValueParts(q, value, after);
    OnePart(t, nm, pre + (['='] + rest), ">");
    OnePart(pre + (['='] + rest), pre, ['='] + rest, ">");
    OnePart(['='] + rest, ['='], rest, ">");
    OnePart(rest, post, q, ">");
    OnePart(q, [q[0]], v + ([q[0]] + after), ">");
    OnePart(v + ([q[0]] + after), v, [q[0]] + after, ">");
    OnePart([q[0]] + after, [q[0]], after, ">");
    var text := Chunked(v, [q[0], '>']);
    a := Attr(gap, nm, pre, post, q[0], text);
  }

  /** White space in front of what follows, perhaps of one stray character. */
  lemma GapBefore(t: string) returns (gap: string)
    requires Solid(SkipWS(t)) && Without(t, ">")
    ensures AllIn(gap, WS) && t == gap + SkipWS(t) && Without(SkipWS(t), ">")
    ensures |SkipWS(t)| == 1 ==> StrayOk(t)
  {
    gap := TrimLeftSplit(t, WS);
    OnePart(t, gap, SkipWS(t), ">");
    assert t[..|gap|] == gap && t[|t| - 1] == SkipWS(t)[|SkipWS(t)| - 1];
  }

  /** The first turn of the attribute loop. */
  lemma FirstAttrIs(t: string, gap: string, m: Attrs) returns (a: Attr, after: string, next: Attrs)
    requires Solid(t) && Without(t, ">") && AllIn(gap, WS) && ParseAttrLoop(t, m).Some?
    ensures AttrOk(a) && a.gap == gap && t == AttrText(a, after) && Without(after, ">") && |after| < |t|
    ensures after != "" ==> Solid(after) && Solid(SkipWS(after)) && |SkipWS(after)| <= |after|
    ensures after != "" && |SkipWS(after)| != 1 ==> ParseAttrLoop(SkipWS(after), next).Some?
  {
    var nm, q := AttrName(t).value.0, AttrName(t).value.1;
    var value := AttrValue(q).value.0;
    after, next := AttrValue(q).value.1, m[nm := value];
    a := AttrIs(t, gap, nm, q, value, after);
    LoopTurn(t, m, nm, q, value, after);
  }

  /** What the attribute loop accepts. */
  lemma {:induction false} AttrsAre(t: string, gap: string, m: Attrs) returns (attrs: seq<Attr>, stray: string)
    requires Solid(t) && Without(t, ">") && AllIn(gap, WS) && ParseAttrLoop(t, m).Some?
    ensures attrs != [] && AttrsOk(attrs) && StrayOk(stray) && attrs[0].gap == gap
    ensures gap + t == AttrsText(attrs, stray)
    decreases |t|
  {
    var a, after, next := FirstAttrIs(t, gap, m);
    var more: seq<Attr> := [];
    stray := after;
    if after != "" {
      var ahead := GapBefore(after);
      if |SkipWS(after)| != 1 {
        more, stray := AttrsAre(SkipWS(after), ahead, next);
      }
    }
    attrs := AttrsCons(a, more, after, stray, gap, t);
  }

  lemma AttrsCons(a: Attr, more: seq<Attr>, after: string, stray: string, gap: string, t: string)
    returns (attrs: seq<Attr>)
    requires AttrOk(a) && a.gap == gap && t == AttrText(a, after) && AttrsOk(more) && after == AttrsText(more, stray)
    ensures attrs != [] && attrs[0] == a && AttrsOk(attrs) && gap + t == AttrsText(attrs, stray)
  {
    attrs := [a] + more;
    assert attrs[1..] == more;
  }

  /** What stands between the brackets of an accepted tag, white space at the end left out. */
  lemma TagTextIs(tag: string, name: string, m: Attrs) returns (attrs: seq<Attr>, stray: string)
    requires Solid(tag) && Without(tag, ">") && ParseAttrs(tag) == Some((name, m))
    ensures TagOk(name, attrs, stray) && tag == PicoXmlDocuments.TagText(name, attrs, stray)
  {
    var s := FindAny(tag, WS);
    if s == |tag| {
      attrs, stray := [], "";
      assert tag + "" == tag;
    } else {
      SolidSkip(tag, s);
      attrs, stray := AfterName(tag[..s], tag[s..], tag);
    }
  }

  /** White space and attributes behind a name. */
  lemma AfterName(name: string, more: string, tag: string) returns (attrs: seq<Attr>, stray: string)
    requires tag == name + more && Without(tag, ">") && Without(name, WS) && more != "" && more[0] in WS
    requires Solid(SkipWS(more)) && ParseAttrLoop(SkipWS(more), map[]).Some?
    ensures TagOk(name, attrs, stray) && tag == PicoXmlDocuments.TagText(name, attrs, stray)
  {
    OnePart(tag, name, more, ">");
    var gap := TrimLeftSplit(more, WS);
    OnePart(more, gap, SkipWS(more), ">");
    attrs, stray := AttrsAre(SkipWS(more), gap, map[]);
    assert gap != "" by { assert SkipWS(more)[0] !in WS; }
  }

  // ---- tags ----

  /** The text up to a closing bracket. */
  lemma RawParts(body: string, raw: Raw) returns (t: string, tail: string)
    requires PicoXml.TagText(body) == Some(raw)
    ensures tail == (if raw.empty then "/" else "") && !(raw.isend && raw.empty)
    ensures t != "" && raw.text == TrimTag(t) && Without(t, ">")
    ensures body == (if raw.isend then "/" else "") + t + tail + ['>'] + raw.rest
    ensures (!raw.isend ==> t[0] != '/') && (!raw.empty ==> t[|t| - 1] != '/')
  {
    var g := Find(body, '>');
    var from, to := if raw.isend then 1 else 0, if raw.empty then g - 1 else g;
    t, tail := body[from..to], if raw.empty then "/" else "";
    InFront(body, g, from, to);
    assert body[..from] == (if raw.isend then "/" else "") && body[to..g] == tail;
  }

  lemma InFront(body: string, g: nat, from: nat, to: nat)
    requires from <= to <= g < |body| && body[g] == '>' && '>' !in body[..g]
    ensures body == body[..from] + body[from..to] + body[to..g] + ['>'] + body[g + 1..]
    ensures Without(body[from..to], ">")
  {
    assert forall i :: 0 <= i < g ==> body[i] == body[..g][i];
  }

  /** An accepted tag is made of a name, attributes and white space. */
  lemma TagParts(body: string, raw: Raw, name: string, m: Attrs)
      returns (attrs: seq<Attr>, stray: string, trail: string)
    requires PicoXml.TagText(body) == Some(raw) && ParseAttrs(raw.text) == Some((name, m))
    ensures TagOk(name, attrs, stray) && AllIn(trail, WS) && !(raw.isend && raw.empty)
    ensures var t := PicoXmlDocuments.TagText(name, attrs, stray) + trail;
            t != "" && (!raw.isend ==> t[0] != '/') && (!raw.empty ==> t[|t| - 1] != '/')
    ensures body == Between(if raw.isend then "/" else "", PicoXmlDocuments.TagText(name, attrs, stray), trail,
                            if raw.empty then "/" else "") + raw.rest
  {
    var t, tail := RawParts(body, raw);
    trail := TrimRightSplit(t, WS);
    SolidTag(t, raw.text, trail, name, m);
    OnePart(t, raw.text, trail, ">");
    attrs, stray := TagTextIs(raw.text, name, m);
    Regroup(if raw.isend then "/" else "", raw.text, trail);
  }

  /** A tag of white space alone is refused. */
  lemma SolidTag(t: string, tag: string, trail: string, name: string, m: Attrs)
    requires t != "" && tag == TrimTag(t) && t == TrimRight(t, WS) + trail && AllIn(trail, WS)
    requires (tag == "" || Solid(tag) || SkipWS(tag) == "") && ParseAttrs(tag) == Some((name, m))
    ensures Solid(tag) && t == tag + trail
  {
    assert t[0] in t && (TrimRight(t, WS) == "" ==> t == trail);
  }

  lemma TagReadFrom(body: string) returns (raw: Raw, name: string, m: Attrs)
    requires !ReadTag(body).BadTag?
    ensures PicoXml.TagText(body) == Some(raw) && ParseAttrs(raw.text) == Some((name, m))
    ensures ReadTag(body).rest == raw.rest
  {
    raw := PicoXml.TagText(body).value;
    name, m := ParseAttrs(raw.text).value.0, ParseAttrs(raw.text).value.1;
  }

  /** An accepted tag is a written one, and no comment. */
  lemma TagAccepted(s: string) returns (m: Markup, rest: string)
    requires s != "" && s[0] == '<' && !AtComment(s) && !ReadTag(s[1..]).BadTag?
    ensures MarkupOk(m) && !m.Note? && s == MarkupText(m) + rest && rest == ReadTag(s[1..]).rest
  {
    var raw, name, found := TagReadFrom(s[1..]);
    var attrs, stray, trail := TagParts(s[1..], raw, name, found);
    rest := raw.rest;
    m := MarkupIs(s, raw, name, attrs, stray, trail);
  }

  lemma MarkupIs(s: string, raw: Raw, name: string, attrs: seq<Attr>, stray: string, trail: string) returns (m: Markup)
    requires s != "" && s[0] == '<' && !AtComment(s)
    requires TagOk(name, attrs, stray) && AllIn(trail, WS) && !(raw.isend && raw.empty)
    requires var t := PicoXmlDocuments.TagText(name, attrs, stray) + trail;
             t != "" && (!raw.isend ==> t[0] != '/') && (!raw.empty ==> t[|t| - 1] != '/')
    requires s[1..] == Between(if raw.isend then "/" else "", PicoXmlDocuments.TagText(name, attrs, stray), trail,
                               if raw.empty then "/" else "") + raw.rest
    ensures MarkupOk(m) && !m.Note? && s == MarkupText(m) + raw.rest
  {
    var tag, tail := PicoXmlDocuments.TagText(name, attrs, stray), if raw.empty then "/" else "";
    if raw.isend {
      m := Close(name, attrs, stray, trail);
      CloseIs(m, s, tag, raw.rest);
    } else {
      m := Open(name, attrs, stray, trail, raw.empty);
      NotNote(s, tag, trail, tail, raw.rest);
      OpenIs(m, s, tag, tail, raw.rest);
    }
  }

  lemma CloseIs(m: Markup, s: string, tag: string, rest: string)
    requires m.Close? && tag == PicoXmlDocuments.TagText(m.name, m.attrs, m.stray) && s != "" && s[0] == '<'
    requires TagOk(m.name, m.attrs, m.stray) && AllIn(m.trail, WS)
    requires tag + m.trail != "" && (tag + m.trail)[|tag + m.trail| - 1] != '/'
    requires s[1..] == Between("/", tag, m.trail, "") + rest
    ensures MarkupOk(m) && s == MarkupText(m) + rest
  {
    Bracketed(s, Inside(m), rest);
  }

  lemma OpenIs(m: Markup, s: string, tag: string, tail: string, rest: string)
    requires m.Open? && tag == PicoXmlDocuments.TagText(m.name, m.attrs, m.stray) && s != "" && s[0] == '<'
    requires TagOk(m.name, m.attrs, m.stray) && AllIn(m.trail, WS) && tail == (if m.empty then "/" else "")
    requires var t := tag + m.trail; t != "" && t[0] != '/' && (!m.empty ==> t[|t| - 1] != '/') && !("!--" <= t)
    requires s[1..] == Between("", tag, m.trail, tail) + rest
    ensures MarkupOk(m) && s == MarkupText(m) + rest
  {
    Bracketed(s, Inside(m), rest);
  }

  lemma Bracketed(s: string, inside: string, rest: string)
    requires s != "" && s[0] == '<' && s[1..] == inside + rest
    ensures s == ['<'] + inside + rest
  {
  }

  /** The text of a start does not look like a comment. */
  lemma NotNote(s: string, tag: string, trail: string, tail: string, rest: string)
    requires s != "" && s[0] == '<' && s[1..] == Between("", tag, trail, tail) + rest
    ensures "!--" <= tag + trail ==> AtComment(s)
  {
    var t := tag + trail;
    assert s[1..] == t + (tail + ['>'] + rest);
    assert forall i :: 0 <= i < |t| ==> s[i + 1] == t[i];
    assert "!--" <= t ==> t[0] == '!' && t[1] == '-' && t[2] == '-';
  }

  // ---- comments ----

  lemma {:induction false} FindStrFirst(s: string, pat: string, j: nat)
    requires pat != "" && j < FindStr(s, pat)
    ensures !At(s, pat, j)
    decreases |s|
  {
    if |s| >= |pat| {
      if j == 0 {
        assert s[..|pat|] == s[0..|pat|];
      } else {
        FindStrFirst(s[1..], pat, j - 1);
        AtTail(s, pat, j - 1);
      }
    }
  }

  lemma NoteAccepted(s: string) returns (text: string, rest: string)
    requires s != "" && s[0] == '<' && AtComment(s) && FindStr(s, "-->") < |s|
    ensures NoteOk(text) && s == text + rest && SkipComment(s) == CharData(rest)
  {
    var k := FindStr(s, "-->");
    text, rest := s[..k + 3], s[k + 3..];
    assert s[k] == s[k..k + 3][0];
    assert s[k + 1] == s[k..k + 3][1];
    forall j | 0 <= j < k ensures !At(text, "-->", j) {
      FindStrFirst(s, "-->", j);
      AtPrefix(text, rest, "-->", j);
      assert s == text + rest;
    }
    assert text[|text| - 3..|text|] == s[k..k + 3];
    assert text[..4] == [s[0], s[1], s[2], s[3]];
  }

  // ---- documents ----

  /** Text that is accepted, up to the next tag or the end. */
  lemma TextAccepted(s: string) returns (text: seq<Chunk>, rest: string)
    requires CharData(s).rest.Some?
    ensures TextOk(text, "<") && s == Written(text) + rest
    ensures rest == "" || rest[0] == '<' || (text == [] && '<' !in rest)
    ensures CharData(s).rest.value == if '<' in rest then rest else ""
  {
    var k := Find(s, '<');
    text, rest := [], s;
    if 0 < k < |s| {
      text, rest := TextBefore(s, k);
    }
  }

  lemma TextBefore(s: string, k: nat) returns (text: seq<Chunk>, rest: string)
    requires k < |s| && s[k] == '<' && '<' !in s[..k] && Unquote(s[..k]).Some?
    ensures TextOk(text, "<") && s == Written(text) + rest && rest == s[k..] && rest[0] == '<' && '<' in rest
  {
    rest := s[k..];
    var w := s[..k];
    assert s == w + rest && rest[0] == '<';
    text := Chunked(w, "<");
  }

  lemma StepAccepted(s: string, open: seq<string>) returns (m: Markup, after: string, next: seq<string>)
    requires s != "" && s[0] == '<' && ParseFrom(s, open).ok
    ensures MarkupOk(m) && s == MarkupText(m) + after && |after| < |s| && CharData(after).rest.Some?
    ensures ParseFrom(CharData(after).rest.value, next).ok
  {
    if AtComment(s) {
      var text;
      text, after := NoteAccepted(s);
      m, next := Note(text), open;
    } else {
      m, after := TagAccepted(s);
      next := OneTag(s, open).1;
    }
  }

  /** What is parsed without an error was written as a document. */
  lemma {:induction false} Accepted(s: string, open: seq<string>) returns (doc: seq<Piece>, tail: string)
    requires (s == "" || s[0] == '<') && ParseFrom(s, open).ok
    ensures DocOk(doc, tail) && DocText(doc, tail) == s
    decreases |s|
  {
    if s == "" {
      doc, tail := [], "";
    } else {
      var m, after, next := StepAccepted(s, open);
      var text, rest := TextAccepted(after);
      var more: seq<Piece> := [];
      if '<' in rest {
        more, tail := Accepted(rest, next);
      } else {
        tail := rest;
      }
      doc := [Piece(m, text)] + more;
      assert doc[1..] == more;
    }
  }

  /** White space and declarations. */
  datatype Prologue = Done(blanks: string) | Decl(blanks: string, decl: string, more: Prologue)

  function PrologueText(p: Prologue, rest: string): string {
    match p
    case Done(blanks) => blanks + rest
    case Decl(blanks, decl, more) => blanks + (decl + PrologueText(more, rest))
  }

  predicate PrologueOk(p: Prologue) {
    AllIn(p.blanks, WS) && (p.Decl? ==> DeclOk(p.decl) && PrologueOk(p.more))
  }

  lemma {:induction false} PrologueSkipped(p: Prologue, rest: string)
    requires PrologueOk(p)
    ensures Parse(PrologueText(p, rest)) == Parse(rest)
  {
    match p
    case Done(blanks) => BlanksSkipped(blanks, rest);
    case Decl(blanks, decl, more) =>
      BlanksSkipped(blanks, decl + PrologueText(more, rest));
      DeclSkipped(decl, PrologueText(more, rest));
      PrologueSkipped(more, rest);
  }

  lemma DeclIs(t: string, k: nat) returns (decl: string)
    requires |t| > 1 && t[0] == '<' && t[1] == '?' && k == FindStr(t, "?>") < |t|
    ensures DeclOk(decl) && t == decl + t[k + 2..]
  {
    decl := t[..k + 2];
    assert t == decl + t[k + 2..];
    assert t[k] == t[k..k + 2][0];
    forall j | 0 <= j < k ensures !At(decl, "?>", j) {
      FindStrFirst(t, "?>", j);
      AtPrefix(decl, t[k + 2..], "?>", j);
    }
    assert decl[k..k + 2] == t[k..k + 2];
    assert decl[..2] == [t[0], t[1]];
  }

  lemma DeclStart(t: string)
    ensures "<?" <= t ==> |t| > 1 && t[1] == '?'
  {
  }

  /** What is skipped in front of a document. */
  lemma {:induction false} PrologueIs(s: string, rest: string) returns (p: Prologue)
    requires SkipDecl(s) == Some(rest)
    ensures PrologueOk(p) && s == PrologueText(p, rest) && !("<?" <= rest)
    decreases |s|
  {
    var t := SkipWS(s);
    var blanks := TrimLeftSplit(s, WS);
    if t == "" {
      p := Done(blanks);
    } else if |t| > 1 && t[1] == '?' {
      var k := FindStr(t, "?>");
      var decl := DeclIs(t, k);
      var more := PrologueIs(t[k + 2..], rest);
      p := Decl(blanks, decl, more);
    } else {
      p := Done(blanks);
      DeclStart(t);
    }
  }

  /** The input is white space and declarations, and then a document in which every element is closed in turn. */
  ghost predicate Document(input: string, p: Prologue, doc: seq<Piece>, tail: string) {
    && PrologueOk(p) && DocOk(doc, tail) && !("<?" <= DocText(doc, tail))
    && input == PrologueText(p, DocText(doc, tail)) && Expected(doc, []).ok
  }

  lemma DocumentCalls(input: string)
    ensures forall p, doc, tail :: Document(input, p, doc, tail) ==> Parse(input) == Expected(doc, [])
  {
    forall p, doc, tail | Document(input, p, doc, tail) ensures Parse(input) == Expected(doc, []) {
      PrologueSkipped(p, DocText(doc, tail));
      DocumentRead(doc, tail);
    }
  }

  /** The parse succeeds exactly for the inputs that can be written as documents. */
  lemma AcceptedIff(input: string)
    ensures Parse(input).ok <==> exists p, doc, tail :: Document(input, p, doc, tail)
  {
    DocumentCalls(input);
    if Parse(input).ok {
      var s := SkipDecl(input).value;
      var p := PrologueIs(input, s);
      if s == "" {
        assert DocText([], "") == s && Document(input, p, [], "");
      } else {
        var doc, tail := Accepted(s, []);
        DocumentRead(doc, tail);
        PrologueSkipped(p, s);
        assert Document(input, p, doc, tail);
      }
    }
  }
}
