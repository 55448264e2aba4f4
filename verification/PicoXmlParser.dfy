/** The parser object: its position, its two stacks and its handlers (cfgui/picoxml.h). */
module PicoXmlParser {
  import opened Strings
  import opened PicoXml
  import Accepted = PicoXmlAccepted
  import Documents = PicoXmlDocuments

  datatype StackEl = StackEl(name: string, startIndex: nat, attributes: Attrs)

  function Names(path: seq<StackEl>): (r: seq<string>)
    ensures |r| == |path| && forall i :: 0 <= i < |r| ==> r[i] == path[i].name
  {
    seq(|path|, i requires 0 <= i < |path| => path[i].name)
  }

  lemma UnquoteGlue(out: string, s: string, i: nat, more: string, next: nat, whole: Option<string>)
    requires i < next <= |s| && Glue(out, Unquote(s[i..])) == whole
    requires Unquote(s[i..]) == Glue(more, Unquote(s[next..]))
    ensures Glue(out + more, Unquote(s[next..])) == whole
  {
    var r := Unquote(s[next..]);
    if r.Some? { Regroup(out, more, r.value); }
  }

  lemma GlueNothing(r: Option<string>)
    ensures Glue("", r) == r
  {
    if r.Some? { assert "" + r.value == r.value; }
  }

  /** unQuote() */
  method UnQuote(s: string) returns (out: string, error: bool)
    ensures Unquote(s) == if error then None else Some(out)
  {
    out, error := "", false;
    var it := 0;
    assert s[0..] == s;
    GlueNothing(Unquote(s));
    while it < |s|
      invariant 0 <= it <= |s| && Glue(out, Unquote(s[it..])) == Unquote(s)
    {
      ghost var at := it;
      assert s[at..][1..] == s[at + 1..];
      if s[it] != '&' {
        UnquoteGlue(out, s, at, [s[at]], at + 1, Unquote(s));
        out := out + [s[it]];
        it := it + 1;
      } else {
        it := it + 1;
        var k := Find(s[it..], ';');
        var code := s[it..][..k];
        if it + k == |s| {
          return "", true;
        }
        assert s[at + 1..][k + 1..] == s[it + k + 1..];
        UnquoteGlue(out, s, at, Entity(code), it + k + 1, Unquote(s));
        it := it + k + 1;
        if code == "quot" {
          out := out + ['"'];
        } else if code == "amp" {
          out := out + ['&'];
        } else if code == "apos" {
          out := out + ['\''];
        } else if code == "lt" {
          out := out + ['<'];
        } else if code == "gt" {
          out := out + ['>'];
        } else {
          assert out + "" == out;
        }
      }
    }
    assert out + "" == out;
  }

  /** skipWS(): |s| stands for no position. */
  method SkipBlanks(s: string, start: nat) returns (pos: nat)
    requires start <= |s|
    ensures start <= pos <= |s| && s[pos..] == SkipWS(s[start..])
  {
    pos := start;
    while pos < |s| && s[pos] in WS
      invariant start <= pos <= |s| && SkipWS(s[pos..]) == SkipWS(s[start..])
    {
      assert s[pos..][1..] == s[pos + 1..];
      pos := pos + 1;
    }
  }

  /** An attribute name at the start of t, and the position after its equals sign. */
  method TakeEq(t: string) returns (ok: bool, attrnm: string, next: nat)
    requires Solid(t)
    ensures ok ==> 0 < next < |t| && AttrEq(t) == Some((attrnm, t[next..]))
    ensures !ok ==> AttrEq(t) == None
  {
    var epos := FindAny(t, " \t\n\r=");
    ok, attrnm, next := false, t[..epos], 0;
    if epos == |t| || attrnm == "" { return; }
    SolidSkip(t, epos);
    epos := SkipBlanks(t, epos);
    if epos == |t| - 1 || t[epos] != '=' { return; }
    assert t[epos..][1..] == t[epos + 1..];
    ok, next := true, epos + 1;
  }

  /** An attribute name, and the position of the opening quote. */
  method TakeName(t: string) returns (ok: bool, attrnm: string, qpos: nat)
    requires Solid(t)
    ensures ok ==> 0 < qpos < |t| && AttrName(t) == Some((attrnm, t[qpos..]))
    ensures !ok ==> AttrName(t) == None
  {
    ok, attrnm, qpos := TakeEq(t);
    if !ok { return; }
    SolidRest(t[qpos..]);
    qpos := SkipBlanks(t, qpos);
    ok := (t[qpos] == '"' || t[qpos] == '\'') && qpos != |t| - 1;
  }

  /** A quoted value, and the position after its closing quote. */
  method TakeValue(t: string, qpos: nat) returns (ok: bool, value: string, next: nat)
    requires qpos < |t| - 1 && Solid(t[qpos..])
    ensures ok ==> qpos < next <= |t| && AttrValue(t[qpos..]) == Some((value, t[next..]))
    ensures !ok ==> AttrValue(t[qpos..]) == None
  {
    ghost var q := t[qpos..];
    ok, value, next := false, "", qpos;
    var spos := qpos + 1;
    assert q[1..] == t[spos..];
    var c := Find(t[spos..], t[qpos]);
    if spos + c == |t| { return; }
    assert q[1..][..c] == t[spos..spos + c] && q[c + 2..] == t[spos + c + 1..];
    var error;
    value, error := UnQuote(t[spos..spos + c]);
    ok, next := !error, spos + c + 1;
  }

  /** One attribute: whether the syntax is good, and where the next one begins, |t| after the last. */
  method OneAttr(t: string, attrs: Attrs) returns (ok: bool, more: Attrs, next: nat)
    requires Solid(t)
    ensures !ok ==> ParseAttrLoop(t, attrs) == None
    ensures ok ==> 0 < next <= |t| && (next < |t| ==> Solid(t[next..]))
    ensures ok ==> ParseAttrLoop(t, attrs) == if next == |t| then Some(more) else ParseAttrLoop(t[next..], more)
  {
    var attrnm, qpos, value;
    ok, attrnm, qpos := TakeName(t);
    more, next := attrs, 0;
    if !ok { return; }
    ok, value, next := TakeValue(t, qpos);
    if !ok { return; }
    ghost var after := t[next..];
    more := attrs[attrnm := value];
    LoopStep(t, attrs, attrnm, t[qpos..], value, after);
    if next == |t| { return; }
    SolidRest(after);
    next := SkipBlanks(t, next);
    if next == |t| - 1 {
      next := |t|;
    }
  }

  /** One turn of the attribute loop, once its attribute was read. */
  lemma LoopStep(t: string, attrs: Attrs, nm: string, q: string, value: string, after: string)
    requires Solid(t) && AttrName(t) == Some((nm, q)) && AttrValue(q) == Some((value, after))
    ensures after == "" ==> ParseAttrLoop(t, attrs) == Some(attrs[nm := value])
    ensures after != "" ==> Solid(SkipWS(after))
    ensures after != "" && |SkipWS(after)| == 1 ==> ParseAttrLoop(t, attrs) == Some(attrs[nm := value])
    ensures after != "" && |SkipWS(after)| > 1 ==>
              ParseAttrLoop(t, attrs) == ParseAttrLoop(SkipWS(after), attrs[nm := value])
  {
    if after != "" { SolidRest(after); }
  }

  /** The loop of parseattrs(), from the first attribute on. */
  method AttrLoop(tag: string) returns (r: Option<Attrs>)
    requires Solid(tag)
    ensures r == ParseAttrLoop(tag, map[])
  {
    var t, attrs: Attrs := tag, map[];
    while true
      invariant Solid(t) && ParseAttrLoop(tag, map[]) == ParseAttrLoop(t, attrs)
      decreases |t|
    {
      var ok, more, next := OneAttr(t, attrs);
      if !ok { return None; }
      if next == |t| { return Some(more); }
      t, attrs := t[next..], more;
    }
  }

  /** parseattrs() */
  method ParseAttributes(tag: string) returns (r: Option<(string, Attrs)>)
    requires tag == "" || Solid(tag) || SkipWS(tag) == ""
    ensures r == ParseAttrs(tag)
  {
    var spos := FindAny(tag, WS);
    if spos == |tag| { return Some((tag, map[])); }
    var tagname := tag[..spos];
    if SkipWS(tag) == "" {
      BlankRest(tag, spos);
    } else {
      SolidSkip(tag, spos);
    }
    spos := SkipBlanks(tag, spos);
    if spos == |tag| { return None; }
    var attrs := AttrLoop(tag[spos..]);
    if attrs.None? { return None; }
    r := Some((tagname, attrs.value));
  }

  lemma {:induction false} BlankRest(tag: string, k: nat)
    requires SkipWS(tag) == "" && k <= |tag|
    ensures SkipWS(tag[k..]) == ""
  {
    if k > 0 {
      BlankRest(tag[1..], k - 1);
      assert tag[1..][k - 1..] == tag[k..];
    } else {
      assert tag[0..] == tag;
    }
  }

  /** White space goes first. */
  lemma DeclTurn(s: string, t: string)
    requires t == SkipWS(s)
    ensures SkipDecl(s) == SkipDecl(t)
    ensures t == "" ==> SkipDecl(s) == Some("")
    ensures t != "" && t[0] != '<' ==> SkipDecl(s) == None
    ensures t != "" && t[0] == '<' && (|t| == 1 || t[1] != '?') ==> SkipDecl(s) == Some(t)
  {
  }

  lemma DropTwice(s: string, i: nat, k: nat)
    requires i + k <= |s|
    ensures s[i..][k..] == s[i + k..]
  {
  }

  /** Where the declaration at a position ends, 0 when it does not. */
  method DeclEnd(s: string, at: nat) returns (end: nat)
    requires at + 1 < |s| && s[at] == '<' && s[at + 1] == '?'
    ensures end == 0 ==> SkipDecl(s[at..]) == None
    ensures end > 0 ==> at < end <= |s| && SkipDecl(s[at..]) == SkipDecl(s[end..])
  {
    ghost var t := s[at..];
    assert t[0] == '<' && t[1] == '?' && SkipWS(t) == t;
    var k := FindStr(s[at..], "?>");
    if at + k == |s| { return 0; }
    DropTwice(s, at, k + 2);
    end := at + k + 2;
  }

  /** A tag cut at its closing bracket, which is at g. */
  method CutTag(body: string) returns (raw: Option<Raw>, g: nat)
    ensures raw == TagText(body)
    ensures raw.Some? ==> g < |body| && raw.value.rest == body[g + 1..]
  {
    g := Find(body, '>');
    if g == |body| || g == 0 { return None, g; }
    var isendtag, emptyel := body[0] == '/', body[g - 1] == '/';
    if emptyel && isendtag { return None, g; }
    var tag := body[if isendtag then 1 else 0..if emptyel then g - 1 else g];
    raw := Some(Raw(isendtag, emptyel, TrimTag(tag), body[g + 1..]));
  }

  class PicoXMLParser {
    const input: string
    var pos: nat                  // |input| also stands for no position
    var tagstart: nat
    var tagstack: seq<string>
    var path: seq<StackEl>
    var calls: seq<Event>         // the handler calls made so far

    constructor (input: string)
      ensures this.input == input && pos == 0 && tagstack == [] && path == [] && calls == []
    {
      this.input := input;
      pos, tagstart, tagstack, path, calls := 0, 0, [], [], [];
    }

    /** At a tag, or at the end. */
    ghost predicate Valid()
      reads this
    {
      pos <= |input| && (pos == |input| || input[pos] == '<') && Names(path) == tagstack
    }

    /** The handlers: while one runs, the path has the element of the call and the tag stack has not. */
    method StartElement(nm: string, attrs: Attrs)
      requires Names(path) == tagstack + [nm] && path[|path| - 1].attributes == attrs
      requires path[|path| - 1].startIndex == tagstart
      modifies this`calls
      ensures calls == old(calls) + [Start(nm, attrs)]
    {
      calls := calls + [Start(nm, attrs)];
    }

    method EndElement(nm: string)
      requires Names(path) == tagstack + [nm]
      modifies this`calls
      ensures calls == old(calls) + [End(nm)]
    {
      calls := calls + [End(nm)];
    }

    method CharacterData(data: string)
      requires Names(path) == tagstack
      modifies this`calls
      ensures calls == old(calls) + [Data(data)]
    {
      calls := calls + [Data(data)];
    }

    /** _startelem() */
    method StartElem(tagname: string, attrs: Attrs, empty: bool)
      requires Names(path) == tagstack
      modifies this`path, this`tagstack, this`calls
      ensures Names(path) == tagstack
      ensures tagstack == if empty then old(tagstack) else old(tagstack) + [tagname]
      ensures calls == old(calls) + ([Start(tagname, attrs)] + if empty then [End(tagname)] else [])
    {
      path := path + [StackEl(tagname, tagstart, attrs)];
      StartElement(tagname, attrs);
      tagstack := tagstack + [tagname];
      if empty {
        EndElem(tagname);
        assert tagstack == old(tagstack);
      }
    }

    /** _endelem() */
    method EndElem(tagname: string)
      requires Names(path) == tagstack && tagstack != [] && tagstack[|tagstack| - 1] == tagname
      modifies this`path, this`tagstack, this`calls
      ensures Names(path) == tagstack == old(tagstack)[..|old(tagstack)| - 1]
      ensures calls == old(calls) + [End(tagname)]
    {
      tagstack := tagstack[..|tagstack| - 1];
      EndElement(tagname);
      path := path[..|path| - 1];
    }

    /** _chardata() */
    method Chars() returns (ok: bool)
      requires pos <= |input| && Names(path) == tagstack
      modifies this`pos, this`calls
      ensures calls == old(calls) + CharData(old(input[pos..])).events
      ensures ok ==> Valid() && pos >= old(pos) && CharData(old(input[pos..])).rest == Some(input[pos..])
      ensures !ok ==> CharData(old(input[pos..])).rest == None
    {
      var spos := pos;
      pos := spos + Find(input[spos..], '<');
      assert input[|input|..] == "";
      if pos == |input| { return true; }
      assert input[spos..][pos - spos..] == input[pos..];
      if pos != spos {
        var data, error := UnQuote(input[spos..][..pos - spos]);
        if error { return false; }
        CharacterData(data);
      }
      ok := true;
    }

    /** skipDecl() */
    method SkipProlog() returns (ok: bool)
      requires pos == 0 && path == [] && tagstack == []
      modifies this`pos
      ensures ok ==> Valid() && SkipDecl(input) == Some(input[pos..])
      ensures !ok ==> SkipDecl(input) == None
    {
      assert input[0..] == input;
      while true
        invariant pos <= |input| && SkipDecl(input) == SkipDecl(input[pos..])
        decreases |input| - pos
      {
        ghost var from := pos;
        pos := SkipBlanks(input, pos);
        DeclTurn(input[from..], input[pos..]);
        if pos == |input| { return true; }
        assert input[pos..][0] == input[pos];
        if input[pos] != '<' { return false; }
        if pos + 1 == |input| || input[pos + 1] != '?' { return true; }
        var end := DeclEnd(input, pos);
        if end == 0 { return false; }
        pos := end;
      }
    }

    /** skipComment() on a comment. */
    method SkipOneComment() returns (ok: bool)
      requires Valid() && pos < |input| && AtComment(input[pos..])
      modifies this`pos, this`calls
      ensures calls == old(calls) + SkipComment(old(input[pos..])).events
      ensures ok ==> Valid() && pos > old(pos) && SkipComment(old(input[pos..])).rest == Some(input[pos..])
      ensures !ok ==> SkipComment(old(input[pos..])).rest == None
    {
      ghost var s := input[pos..];
      var k := FindStr(input[pos..], "-->");
      if pos + k == |input| {
        assert calls + [] == calls;
        return false;
      }
      assert s[k + 3..] == input[pos + k + 3..];
      pos := pos + k + 3;
      ok := Chars();
    }

    /** The text of the tag at pos, up to its closing bracket. */
    method TakeText() returns (raw: Option<Raw>)
      requires Valid() && pos < |input|
      modifies this`pos, this`tagstart
      ensures raw == TagText(old(input[pos + 1..]))
      ensures raw.Some? ==> old(pos) < pos <= |input| && raw.value.rest == input[pos..]
      ensures tagstart == old(pos)
    {
      tagstart := pos;
      pos := pos + 1;
      if pos == |input| { return None; }
      var g;
      raw, g := CutTag(input[pos..]);
      if raw.Some? {
        DropTwice(input, pos, g + 1);
        pos := pos + g + 1;
      }
    }

    /** The tag at pos, with its name and attributes. */
    method TakeTag() returns (t: Tag)
      requires Valid() && pos < |input|
      modifies this`pos, this`tagstart
      ensures t == ReadTag(old(input[pos + 1..])) && tagstart == old(pos)
      ensures !t.BadTag? ==> old(pos) < pos <= |input| && t.rest == input[pos..]
    {
      var raw := TakeText();
      if raw.None? { return BadTag; }
      var parsed := ParseAttributes(raw.value.text);
      if parsed.None? { return BadTag; }
      t := if raw.value.isend then CloseTag(parsed.value.0, raw.value.rest)
           else OpenTag(parsed.value.0, parsed.value.1, raw.value.empty, raw.value.rest);
    }

    /** The handler calls for a tag. */
    method Element(t: Tag) returns (ok: bool)
      requires Names(path) == tagstack
      modifies this`path, this`tagstack, this`calls
      ensures Names(path) == tagstack
      ensures !ok ==> TagCalls(t, old(tagstack)) == None && calls == old(calls)
      ensures ok ==> exists first ::
                       TagCalls(t, old(tagstack)) == Some((first, tagstack)) && calls == old(calls) + first
    {
      match t {
        case BadTag =>
          return false;
        case CloseTag(name, _) =>
          if tagstack == [] || name != tagstack[|tagstack| - 1] { return false; }
          EndElem(name);
        case OpenTag(name, attrs, empty, _) =>
          StartElem(name, attrs, empty);
      }
      ok := true;
    }

    /** One turn of the main loop on a tag. */
    method TakeElement() returns (ok: bool)
      requires Valid() && pos < |input|
      modifies this`pos, this`tagstart, this`path, this`tagstack, this`calls
      ensures calls == old(calls) + OneTag(old(input[pos..]), old(tagstack)).0.events
      ensures ok ==> Valid() && pos > old(pos) && tagstack == OneTag(old(input[pos..]), old(tagstack)).1
      ensures OneTag(old(input[pos..]), old(tagstack)).0.rest == if ok then Some(input[pos..]) else None
    {
      ghost var s, calls0, stack0 := input[pos..], calls, tagstack;
      assert s[1..] == input[pos + 1..];
      var t := TakeTag();
      ok := Element(t);
      if !ok {
        assert calls + [] == calls;
        return;
      }
      ghost var first := TagCalls(t, stack0).value.0;
      ghost var d := CharData(t.rest).events;
      ok := Chars();
      Regroup(calls0, first, d);
    }

    /** parse() */
    method Run() returns (ok: bool)
      requires pos == 0 && path == [] && tagstack == [] && calls == []
      modifies this
      ensures Result(ok, calls) == Parse(input)
      ensures ok ==> tagstack == [] && path == []
      ensures ok <==> exists p, doc, tail :: Accepted.Document(input, p, doc, tail)
      ensures forall p, doc, tail ::
                Accepted.Document(input, p, doc, tail) ==> calls == Documents.Expected(doc, []).events
    {
      Accepted.AcceptedIff(input);
      Accepted.DocumentCalls(input);
      ok := SkipProlog();
      if !ok { return false; }
      if pos == |input| { return true; }
      ghost var whole := Parse(input);
      BeforeNothing(whole);
      while true
        invariant Valid() && whole == Before(calls, ParseFrom(input[pos..], tagstack))
        decreases |input| - pos
      {
        ghost var s, calls0, stack0 := input[pos..], calls, tagstack;
        if pos < |input| && AtComment(input[pos..]) {
          ok := SkipOneComment();
          BeforeMore(calls0, SkipComment(s), s, stack0, stack0, whole);
          if !ok { return; }
        } else {
          if pos == |input| {
            BeforeEnd(calls0, stack0);
            return tagstack == [];
          }
          ok := TakeElement();
          BeforeMore(calls0, OneTag(s, stack0).0, s, stack0, OneTag(s, stack0).1, whole);
          if !ok { return; }
        }
      }
    }
  }

  lemma BeforeEnd(calls: seq<Event>, stack: seq<string>)
    ensures Before(calls, ParseFrom("", stack)) == Result(stack == [], calls)
  {
    assert calls + [] == calls;
  }

  /** One turn of the main loop, with what it adds to the calls. */
  lemma BeforeMore(calls: seq<Event>, r: Read, s: string, stack: seq<string>, next: seq<string>, whole: Result)
    requires s != "" && s[0] == '<' && whole == Before(calls, ParseFrom(s, stack))
    requires if AtComment(s) then r == SkipComment(s) && next == stack else (r, next) == OneTag(s, stack)
    ensures r.rest.None? ==> whole == Result(false, calls + r.events)
    ensures r.rest.Some? ==> r.rest.value == "" || r.rest.value[0] == '<'
    ensures r.rest.Some? ==> whole == Before(calls + r.events, ParseFrom(r.rest.value, next))
  {
    if !AtComment(s) { OneTagShorter(s, stack, r); }
    if r.rest.Some? {
      BeforeTwice(calls, r.events, ParseFrom(r.rest.value, next));
    }
  }
}
