/** What the small XML parser accepts, and the callbacks it makes (cfgui/picoxml.h). */
module PicoXml {
  import opened Strings

  const WS: string := " \t\n\r"

  type Attrs = map<string, string>

  datatype Event = Start(name: string, attrs: Attrs) | End(name: string) | Data(text: string)

  /** The rest of the input after a part was read, and the callbacks made; None is a false return, after which
      only the callbacks matter. */
  datatype Read = Read(rest: Option<string>, events: seq<Event>)

  datatype Result = Result(ok: bool, events: seq<Event>)

  // ---- searching ----

  /** Position of the first pat, |s| when there is none. */
  function FindStr(s: string, pat: string): (k: nat)
    requires pat != ""
    ensures k <= |s| && (k < |s| ==> k + |pat| <= |s| && s[k..k + |pat|] == pat)
  {
    if |s| < |pat| then |s|
    else if s[..|pat|] == pat then 0
    else
      var k := FindStr(s[1..], pat);
      assert k + 1 < |s| ==> s[1..][k..k + |pat|] == s[k + 1..k + 1 + |pat|];
      k + 1
  }

  function SkipWS(s: string): string {
    TrimLeft(s, WS)
  }

  // ---- character data ----

  function Entity(code: string): string {
    if code == "quot" then ['"'] else if code == "amp" then ['&'] else if code == "apos" then ['\'']
    else if code == "lt" then ['<'] else if code == "gt" then ['>'] else ""
  }

  /** unQuote(): an unknown entity disappears, an unfinished one is an error. */
  function Unquote(s: string): Option<string>
    decreases |s|
  {
    if s == "" then Some("")
    else if s[0] != '&' then Glue([s[0]], Unquote(s[1..]))
    else
      var k := Find(s[1..], ';');
      if k == |s| - 1 then None else Glue(Entity(s[1..][..k]), Unquote(s[1..][k + 1..]))
  }

  function Glue(a: string, r: Option<string>): Option<string> {
    match r case None => None case Some(b) => Some(a + b)
  }

  /** _chardata(): text is reported only when a tag follows. */
  function CharData(s: string): (r: Read)
    ensures r.rest.Some? ==> |r.rest.value| <= |s| && (r.rest.value == "" || r.rest.value[0] == '<')
    ensures forall e :: e in r.events ==> e.Data?
  {
    var k := Find(s, '<');
    if k == |s| then Read(Some(""), [])
    else if k == 0 then Read(Some(s), [])
    else
      match Unquote(s[..k])
      case None => Read(None, [])
      case Some(data) => Read(Some(s[k..]), [Data(data)])
  }

  // ---- tags ----

  /** No white space at the end. */
  predicate Solid(t: string) {
    t != "" && t[|t| - 1] !in WS
  }

  lemma SolidSkip(t: string, k: nat)
    requires Solid(t) && k < |t|
    ensures Solid(t[k..]) && Solid(SkipWS(t[k..])) && |SkipWS(t[k..])| <= |t| - k
    ensures SkipWS(t[k..])[0] !in WS
  {
    assert t[k..][|t| - k - 1] == t[|t| - 1];
    SkipStops(t[k..]);
  }

  lemma SolidRest(t: string)
    requires Solid(t)
    ensures Solid(SkipWS(t)) && |SkipWS(t)| <= |t|
  {
    assert t[0..] == t;
    SolidSkip(t, 0);
  }

  lemma {:induction false} SkipStops(s: string)
    requires Solid(s)
    ensures SkipWS(s) != ""
  {
    if s[0] in WS { SkipStops(s[1..]); }
  }

  /** The name of an attribute, and what follows its equals sign. */
  function AttrEq(t: string): (r: Option<(string, string)>)
    requires Solid(t)
    ensures r.Some? ==> |r.value.1| < |t| && Solid(r.value.1)
  {
    var e := FindAny(t, " \t\n\r=");
    if e == |t| || e == 0 then None
    else
      SolidSkip(t, e);
      var eq := SkipWS(t[e..]);
      if |eq| == 1 || eq[0] != '=' then None else Some((t[..e], eq[1..]))
  }

  /** The name of an attribute, and what follows from its opening quote on. */
  function AttrName(t: string): (r: Option<(string, string)>)
    requires Solid(t)
    ensures r.Some? ==> |r.value.1| < |t| && Solid(r.value.1) && |r.value.1| > 1
  {
    match AttrEq(t)
    case None => None
    case Some((nm, rest)) =>
      SolidRest(rest);
      var q := SkipWS(rest);
      if (q[0] != '"' && q[0] != '\'') || |q| == 1 then None else Some((nm, q))
  }

  /** A quoted value, and what follows its closing quote. */
  function AttrValue(q: string): (r: Option<(string, string)>)
    requires Solid(q) && |q| > 1
    ensures r.Some? ==> |r.value.1| < |q| && (r.value.1 == "" || Solid(r.value.1))
  {
    var c := Find(q[1..], q[0]);
    if c == |q| - 1 then None
    else
      match Unquote(q[1..][..c])
      case None => None
      case Some(value) => Some((value, q[c + 2..]))
  }

  /** The loop of parseattrs() from an attribute name on. One last character alone is left out of account. */
  function ParseAttrLoop(t: string, attrs: Attrs): Option<Attrs>
    requires Solid(t)
    decreases |t|
  {
    match AttrName(t)
    case None => None
    case Some((nm, q)) =>
      match AttrValue(q)
      case None => None
      case Some((value, after)) =>
        var more := attrs[nm := value];
        if after == "" then Some(more)
        else
          SolidRest(after);
          var next := SkipWS(after);
          if |next| == 1 then Some(more) else ParseAttrLoop(next, more)
  }

  function TrimTag(tag: string): string {
    var t := TrimRight(tag, WS);
    if t == "" then tag else t
  }

  /** parseattrs(): the name of a tag, and its attributes. */
  function ParseAttrs(tag: string): Option<(string, Attrs)>
    requires tag == "" || Solid(tag) || SkipWS(tag) == ""
  {
    var s := FindAny(tag, WS);
    if s == |tag| then Some((tag, map[]))
    else if SkipWS(tag) == "" then None
    else
      SolidSkip(tag, s);
      match ParseAttrLoop(SkipWS(tag[s..]), map[])
      case None => None
      case Some(attrs) => Some((tag[..s], attrs))
  }

  lemma TrimTagOk(tag: string)
    ensures TrimTag(tag) == "" || Solid(TrimTag(tag)) || SkipWS(TrimTag(tag)) == ""
  {
    var tail := TrimRightSplit(tag, WS);
    if TrimRight(tag, WS) == "" && tag != "" {
      assert tag == tail;
      AllBlank(tag);
    }
  }

  lemma {:induction false} AllBlank(s: string)
    requires AllIn(s, WS)
    ensures SkipWS(s) == ""
  {
    if s != "" {
      assert s[0] in s;
      forall c | c in s[1..] ensures c in WS { assert c in s; }
      AllBlank(s[1..]);
    }
  }

  /** A tag up to its closing bracket: body is what follows the opening one. */
  datatype Tag =
    | BadTag
    | OpenTag(name: string, attrs: Attrs, empty: bool, rest: string)
    | CloseTag(name: string, rest: string)

  /** What is between the brackets, and the text after. */
  datatype Raw = Raw(isend: bool, empty: bool, text: string, rest: string)

  function TagText(body: string): (r: Option<Raw>)
    ensures r.Some? ==> |r.value.rest| < |body|
    ensures r.Some? ==> r.value.text == "" || Solid(r.value.text) || SkipWS(r.value.text) == ""
  {
    var g := Find(body, '>');
    if body == "" || g == |body| || g == 0 then None
    else
      var isend, emptyel := body[0] == '/', body[g - 1] == '/';
      if isend && emptyel then None
      else
        var text := body[if isend then 1 else 0..if emptyel then g - 1 else g];
        TrimTagOk(text);
        Some(Raw(isend, emptyel, TrimTag(text), body[g + 1..]))
  }

  function ReadTag(body: string): (t: Tag)
    ensures !t.BadTag? ==> |t.rest| < |body|
  {
    match TagText(body)
    case None => BadTag
    case Some(raw) =>
      match ParseAttrs(raw.text)
      case None => BadTag
      case Some((name, attrs)) =>
        if raw.isend then CloseTag(name, raw.rest) else OpenTag(name, attrs, raw.empty, raw.rest)
  }

  // ---- the document ----

  predicate AtComment(s: string) {
    |s| >= 4 && s[1] == '!' && s[2] == '-' && s[3] == '-'
  }

  /** A comment and the text after it. */
  function SkipComment(s: string): (r: Read)
    requires s != "" && s[0] == '<' && AtComment(s)
    ensures r.rest.Some? ==> |r.rest.value| < |s| && (r.rest.value == "" || r.rest.value[0] == '<')
    ensures forall e :: e in r.events ==> e.Data?
  {
    var k := FindStr(s, "-->");
    if k == |s| then Read(None, []) else CharData(s[k + 3..])
  }

  /** The calls for a tag, and the elements open after it; None when it closes what is not open. */
  function TagCalls(t: Tag, stack: seq<string>): Option<(seq<Event>, seq<string>)> {
    match t
    case BadTag => None
    case CloseTag(name, _) =>
      if stack == [] || name != stack[|stack| - 1] then None
      else Some(([End(name)], stack[..|stack| - 1]))
    case OpenTag(name, attrs, empty, _) =>
      Some(([Start(name, attrs)] + if empty then [End(name)] else [], if empty then stack else stack + [name]))
  }

  /** One tag with the elements open before it, and the text after it. */
  function OneTag(s: string, stack: seq<string>): (Read, seq<string>)
    requires s != "" && s[0] == '<'
  {
    var t := ReadTag(s[1..]);
    match TagCalls(t, stack)
    case None => (Read(None, []), stack)
    case Some((first, next)) =>
      var r := CharData(t.rest);
      (r.(events := first + r.events), next)
  }

  lemma OneTagShorter(s: string, stack: seq<string>, r: Read)
    requires s != "" && s[0] == '<' && r == OneTag(s, stack).0
    ensures r.rest.Some? ==> |r.rest.value| < |s| && (r.rest.value == "" || r.rest.value[0] == '<')
  {
  }

  function Before(events: seq<Event>, r: Result): Result {
    r.(events := events + r.events)
  }

  lemma BeforeNothing(r: Result)
    ensures Before([], r) == r
  {
    assert [] + r.events == r.events;
  }

  lemma BeforeTwice(a: seq<Event>, b: seq<Event>, r: Result)
    ensures Before(a, Before(b, r)) == Before(a + b, r)
  {
    Regroup(a, b, r.events);
  }

  /** The main loop from a tag on, with the elements that are open. */
  function ParseFrom(s: string, stack: seq<string>): Result
    requires s == "" || s[0] == '<'
    decreases |s|
  {
    if s == "" then Result(stack == [], [])
    else if AtComment(s) then
      var r := SkipComment(s);
      match r.rest
      case None => Result(false, r.events)
      case Some(rest) => Before(r.events, ParseFrom(rest, stack))
    else
      var (r, next) := OneTag(s, stack);
      OneTagShorter(s, stack, r);
      match r.rest
      case None => Result(false, r.events)
      case Some(rest) => Before(r.events, ParseFrom(rest, next))
  }

  /** skipDecl(): white space and declarations before the first tag; "" when nothing follows. */
  function SkipDecl(s: string): (r: Option<string>)
    ensures r.Some? ==> r.value == "" || r.value[0] == '<'
    decreases |s|
  {
    var t := SkipWS(s);
    if t == "" then Some("")
    else if t[0] != '<' then None
    else if |t| > 1 && t[1] == '?' then
      var k := FindStr(t, "?>");
      if k == |t| then None else SkipDecl(t[k + 2..])
    else Some(t)
  }

  /** parse(): an input without any tag is fine. */
  function Parse(input: string): Result {
    match SkipDecl(input)
    case None => Result(false, [])
    case Some("") => Result(true, [])
    case Some(s) => ParseFrom(s, [])
  }

  // ---- the callbacks are well nested ----

  /** The elements open after the callbacks, None when an end does not match. */
  function Opened(stack: seq<string>, events: seq<Event>): Option<seq<string>>
    decreases |events|
  {
    if events == [] then Some(stack)
    else
      match events[0]
      case Start(name, _) => Opened(stack + [name], events[1..])
      case Data(_) => Opened(stack, events[1..])
      case End(name) =>
        if stack == [] || stack[|stack| - 1] != name then None else Opened(stack[..|stack| - 1], events[1..])
  }

  lemma {:induction false} OpenedAppend(stack: seq<string>, a: seq<Event>, b: seq<Event>)
    ensures Opened(stack, a + b)
         == match Opened(stack, a) case None => None case Some(next) => Opened(next, b)
    decreases |a|
  {
    if a == [] {
      assert a + b == b;
    } else {
      assert (a + b)[1..] == a[1..] + b;
      match a[0]
      case Start(name, _) => OpenedAppend(stack + [name], a[1..], b);
      case Data(_) => OpenedAppend(stack, a[1..], b);
      case End(name) =>
        if stack != [] && stack[|stack| - 1] == name { OpenedAppend(stack[..|stack| - 1], a[1..], b); }
    }
  }

  lemma {:induction false} OnlyData(stack: seq<string>, events: seq<Event>)
    requires forall e :: e in events ==> e.Data?
    ensures Opened(stack, events) == Some(stack)
  {
    if events != [] {
      assert events[0] in events;
      OnlyData(stack, events[1..]);
    }
  }

  lemma OneTagOpened(s: string, stack: seq<string>, r: Read, next: seq<string>)
    requires s != "" && s[0] == '<' && (r, next) == OneTag(s, stack)
    ensures Opened(stack, r.events) == Some(next)
  {
    var t := ReadTag(s[1..]);
    match TagCalls(t, stack)
    case None =>
    case Some((first, _)) =>
      var d := CharData(t.rest).events;
      OnlyData(next, d);
      if t.OpenTag? {
        FirstOpened(stack, t.name, t.attrs, t.empty, first);
      } else {
        assert [End(t.name)][1..] == [];
      }
      OpenedAppend(stack, first, d);
  }

  lemma FirstOpened(stack: seq<string>, name: string, attrs: Attrs, empty: bool, first: seq<Event>)
    requires first == [Start(name, attrs)] + if empty then [End(name)] else []
    ensures Opened(stack, first) == Some(if empty then stack else stack + [name])
  {
    var more := stack + [name];
    assert first[1..] == if empty then [End(name)] else [];
    assert more[..|more| - 1] == stack && more[|more| - 1] == name;
    if empty {
      assert [End(name)][1..] == [];
      assert Opened(more, [End(name)]) == Opened(stack, []);
    }
  }

  /** Whatever the input, the ends match the starts so far, and all are closed when the parse succeeds. */
  lemma {:induction false} Nested(s: string, stack: seq<string>)
    requires s == "" || s[0] == '<'
    ensures Opened(stack, ParseFrom(s, stack).events).Some?
    ensures ParseFrom(s, stack).ok ==> Opened(stack, ParseFrom(s, stack).events) == Some([])
    decreases |s|
  {
    if s != "" {
      if AtComment(s) {
        var r := SkipComment(s);
        OnlyData(stack, r.events);
        if r.rest.Some? {
          Nested(r.rest.value, stack);
          OpenedAppend(stack, r.events, ParseFrom(r.rest.value, stack).events);
        }
      } else {
        var (r, next) := OneTag(s, stack);
        OneTagShorter(s, stack, r);
        OneTagOpened(s, stack, r, next);
        if r.rest.Some? {
          Nested(r.rest.value, next);
          OpenedAppend(stack, r.events, ParseFrom(r.rest.value, next).events);
        }
      }
    }
  }

  lemma ParseNested(input: string)
    ensures Opened([], Parse(input).events).Some?
    ensures Parse(input).ok ==> Opened([], Parse(input).events) == Some([])
  {
    match SkipDecl(input)
    case None =>
    case Some(s) => if s != "" { Nested(s, []); }
  }
}
