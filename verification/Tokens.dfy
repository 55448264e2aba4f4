/** Cutting strings into tokens, with and without quotes, and putting them back together (src/smallut.cpp). */
module Tokens {
  import opened Strings

  // ---- stringToStrings(), stringsToString() ----

  datatype State = SPACE | TOKEN | INQUOTE | ESCAPE

  /** The scanner between two characters: its state, and the token being read. */
  datatype Scanner = Scanner(state: State, current: string)

  predicate Blank(c: char) {
    c == ' ' || c == '\t' || c == '\n'
  }

  /** What one character does: the next scanner, and the tokens that are complete. */
  function Scan(p: Scanner, c: char, addseps: string): (Scanner, seq<string>) {
    var more := p.current + [c];
    if c == '"' then
      match p.state
      case SPACE => (p.(state := INQUOTE), [])
      case TOKEN => (p.(current := more), [])
      case INQUOTE => (Scanner(SPACE, ""), [p.current])
      case ESCAPE => (Scanner(INQUOTE, more), [])
    else if c == '\\' then
      match p.state
      case SPACE => (Scanner(TOKEN, more), [])
      case TOKEN => (Scanner(TOKEN, more), [])
      case INQUOTE => (p.(state := ESCAPE), [])
      case ESCAPE => (Scanner(INQUOTE, more), [])
    else if Blank(c) || c == '\r' then
      match p.state
      case SPACE => (p, [])
      case TOKEN => (Scanner(SPACE, ""), [p.current])
      case INQUOTE => (p.(current := more), [])
      case ESCAPE => (p.(current := more), [])
    else if c in addseps && p.state == SPACE then (p, [[c]])
    else if c in addseps && p.state == TOKEN then (Scanner(SPACE, ""), [p.current, [c]])
    else
      (Scanner(match p.state case SPACE => TOKEN case TOKEN => TOKEN case INQUOTE => INQUOTE case ESCAPE => INQUOTE,
               more), [])
  }

  function Prepend(a: seq<string>, r: Option<seq<string>>): Option<seq<string>> {
    match r case None => None case Some(b) => Some(a + b)
  }

  /** The tokens in a text, None when a quote is left open. */
  function ScanAll(p: Scanner, text: string, addseps: string): Option<seq<string>>
    decreases |text|
  {
    if text == "" then
      match p.state
      case SPACE => Some([])
      case TOKEN => Some([p.current])
      case INQUOTE => None
      case ESCAPE => None
    else
      var (q, out) := Scan(p, text[0], addseps);
      Prepend(out, ScanAll(q, text[1..], addseps))
  }

  const START := Scanner(SPACE, "")

  predicate HasBlanks(t: string) {
    exists i :: 0 <= i < |t| && Blank(t[i])
  }

  function Escaped(t: string): string {
    if t == "" then "" else (if t[0] == '"' then ['\\', '"'] else [t[0]]) + Escaped(t[1..])
  }

  function TokenText(t: string): string {
    if t == "" then ['"', '"']
    else if HasBlanks(t) then ['"'] + Escaped(t) + ['"']
    else Escaped(t)
  }

  function StringsText(tokens: seq<string>): string {
    if tokens == [] then ""
    else if |tokens| == 1 then TokenText(tokens[0])
    else TokenText(tokens[0]) + [' '] + StringsText(tokens[1..])
  }

  /** The tokens that survive: backslashes are not escaped between quotes, nor quotes outside of them. */
  predicate Printable(t: string) {
    if HasBlanks(t) then '\\' !in t else '\r' !in t && '"' !in t
  }

  // ---- scanning what was printed ----

  lemma Then(p: Scanner, c: char, rest: string)
    ensures ScanAll(p, [c] + rest, "") == Prepend(Scan(p, c, "").1, ScanAll(Scan(p, c, "").0, rest, ""))
  {
    assert ([c] + rest)[1..] == rest;
  }

  /** A character that ends no token. */
  lemma Quiet(p: Scanner, c: char, q: Scanner, rest: string)
    requires Scan(p, c, "") == (q, [])
    ensures ScanAll(p, [c] + rest, "") == ScanAll(q, rest, "")
  {
    Then(p, c, rest);
    PrependNothing(ScanAll(q, rest, ""));
  }

  lemma PrependNothing(r: Option<seq<string>>)
    ensures Prepend([], r) == r
  {
    if r.Some? { assert [] + r.value == r.value; }
  }

  /** Between quotes, text without backslashes is taken as it is. */
  lemma {:induction false} ScanQuoted(cur: string, t: string, rest: string)
    requires '\\' !in t
    ensures ScanAll(Scanner(INQUOTE, cur), Escaped(t) + rest, "") == ScanAll(Scanner(INQUOTE, cur + t), rest, "")
    decreases |t|
  {
    if t == "" {
      assert cur + "" == cur && "" + rest == rest;
    } else {
      var c, tail := t[0], Escaped(t[1..]) + rest;
      assert (cur + [c]) + t[1..] == cur + t;
      if c == '"' {
        assert Escaped(t) + rest == ['\\'] + (['"'] + tail);
        Quiet(Scanner(INQUOTE, cur), '\\', Scanner(ESCAPE, cur), ['"'] + tail);
        Quiet(Scanner(ESCAPE, cur), '"', Scanner(INQUOTE, cur + [c]), tail);
      } else {
        assert Escaped(t) + rest == [c] + tail;
        Quiet(Scanner(INQUOTE, cur), c, Scanner(INQUOTE, cur + [c]), tail);
      }
      ScanQuoted(cur + [c], t[1..], rest);
    }
  }

  predicate Plain(t: string) {
    !HasBlanks(t) && '\r' !in t && '"' !in t
  }

  lemma PlainTail(t: string)
    requires Plain(t) && t != ""
    ensures Plain(t[1..]) && !Blank(t[0]) && t[0] != '\r' && t[0] != '"'
  {
    assert forall i :: 0 <= i < |t[1..]| ==> t[1..][i] == t[i + 1];
  }

  /** Outside of quotes, plain text is taken as it is, backslashes included. */
  lemma {:induction false} ScanPlain(cur: string, t: string, rest: string)
    requires Plain(t)
    ensures ScanAll(Scanner(TOKEN, cur), Escaped(t) + rest, "") == ScanAll(Scanner(TOKEN, cur + t), rest, "")
    decreases |t|
  {
    if t == "" {
      assert cur + "" == cur && "" + rest == rest;
    } else {
      var c, tail := t[0], Escaped(t[1..]) + rest;
      PlainTail(t);
      assert (cur + [c]) + t[1..] == cur + t;
      assert Escaped(t) + rest == [c] + tail;
      Quiet(Scanner(TOKEN, cur), c, Scanner(TOKEN, cur + [c]), tail);
      ScanPlain(cur + [c], t[1..], rest);
    }
  }

  /** The same from between two tokens. */
  lemma ScanPlainFirst(t: string, rest: string)
    requires Plain(t) && t != ""
    ensures ScanAll(START, Escaped(t) + rest, "") == ScanAll(Scanner(TOKEN, t), rest, "")
  {
    var c, tail := t[0], Escaped(t[1..]) + rest;
    PlainTail(t);
    assert Escaped(t) + rest == [c] + tail;
    assert "" + [c] == [c] && [c] + t[1..] == t;
    Quiet(START, c, Scanner(TOKEN, [c]), tail);
    ScanPlain([c], t[1..], rest);
  }

  /** A printed token that survives is read back, at the end of the text or in front of a space. */
  lemma ScanPrintable(t: string, rest: string)
    requires Printable(t) && (rest == "" || rest[0] == ' ')
    ensures ScanAll(START, TokenText(t) + rest, "") == Prepend([t], ScanAll(START, rest, ""))
  {
    if t == "" || HasBlanks(t) {
      var tail := ['"'] + rest;
      assert TokenText(t) + rest == ['"'] + (Escaped(t) + tail);
      Quiet(START, '"', Scanner(INQUOTE, ""), Escaped(t) + tail);
      ScanQuoted("", t, tail);
      assert "" + t == t;
      Then(Scanner(INQUOTE, t), '"', rest);
    } else {
      ScanPlainFirst(t, rest);
      if rest != "" {
        assert rest == [' '] + rest[1..];
        Then(Scanner(TOKEN, t), ' ', rest[1..]);
        Quiet(START, ' ', START, rest[1..]);
      } else {
        assert [t] + [] == [t];
      }
    }
  }

  // ---- what does not survive ----

  /** A token that has begun is the first to come out. */
  lemma {:induction false} Grows(p: Scanner, text: string, r: seq<string>)
    requires p.state != SPACE && ScanAll(p, text, "") == Some(r)
    ensures r != [] && p.current <= r[0]
    decreases |text|
  {
    if text != "" {
      var (q, out) := Scan(p, text[0], "");
      var s := ScanAll(q, text[1..], "").value;
      if out == [] {
        assert r == s;
        Grows(q, text[1..], s);
      }
    }
  }

  ghost predicate NotFirst(t: string, r: Option<seq<string>>) {
    r.Some? && r.value != [] ==> r.value[0] != t
  }

  /** Once it differs from t, it stays different. */
  lemma Differs(p: Scanner, text: string, t: string)
    requires p.state != SPACE && !(p.current <= t)
    ensures NotFirst(t, ScanAll(p, text, ""))
  {
    var r := ScanAll(p, text, "");
    if r.Some? { Grows(p, text, r.value); }
  }

  /** A quoted token comes out wrong from its first backslash on, at j: each pair of them gives one, and what
      follows the run is not one, or ends the token early. */
  lemma {:induction false} ScanBackslashes(t: string, j: nat, k: nat, rest: string)
    requires j <= k <= |t| && j < |t| && t[j] == '\\'
    requires forall i :: j <= i < k ==> t[i] == '\\'
    ensures NotFirst(t, ScanAll(Scanner(INQUOTE, t[..j]), Escaped(t[k..]) + (['"'] + rest), ""))
    decreases |t| - k
  {
    var p, tail := Scanner(INQUOTE, t[..j]), ['"'] + rest;
    if k == |t| {
      assert Escaped(t[k..]) + tail == tail;
      Then(p, '"', rest);
    } else {
      var c, more := t[k], Escaped(t[k + 1..]) + tail;
      assert t[k..][1..] == t[k + 1..];
      if c == '\\' {
        assert Escaped(t[k..]) + tail == ['\\'] + more;
        Quiet(p, '\\', Scanner(ESCAPE, t[..j]), more);
        AfterBackslash(t, j, k + 1, rest);
      } else {
        WrongChar(p, c, Escaped(t[k..]) + tail, more, t, j);
      }
    }
  }

  /** The scanner has one backslash of the run pending. */
  lemma AfterBackslash(t: string, j: nat, k: nat, rest: string)
    requires j < k <= |t| && t[j] == '\\'
    requires forall i :: j <= i < k ==> t[i] == '\\'
    ensures NotFirst(t, ScanAll(Scanner(ESCAPE, t[..j]), Escaped(t[k..]) + (['"'] + rest), ""))
    decreases |t| - k
  {
    var p, tail := Scanner(ESCAPE, t[..j]), ['"'] + rest;
    assert t[..j] + ['\\'] == t[..j + 1];
    if k == |t| {
      assert Escaped(t[k..]) + tail == ['"'] + rest;
      Quiet(p, '"', Scanner(INQUOTE, t[..j] + ['"']), rest);
      assert (t[..j] + ['"'])[j] != t[j];
      Differs(Scanner(INQUOTE, t[..j] + ['"']), rest, t);
    } else {
      var c, more := t[k], Escaped(t[k + 1..]) + tail;
      assert t[k..][1..] == t[k + 1..];
      if c == '\\' {
        assert Escaped(t[k..]) + tail == ['\\'] + more;
        Quiet(p, '\\', Scanner(INQUOTE, t[..j + 1]), more);
        ScanBackslashes(t, j + 1, k + 1, rest);
      } else if c == '"' {
        assert Escaped(t[k..]) + tail == ['\\'] + (['"'] + more);
        Quiet(p, '\\', Scanner(INQUOTE, t[..j + 1]), ['"'] + more);
        Then(Scanner(INQUOTE, t[..j + 1]), '"', more);
      } else {
        assert Escaped(t[k..]) + tail == [c] + more;
        var q := Scan(p, c, "").0;
        assert q.current == t[..j] + [c] && q.current[j] != t[j];
        Quiet(p, c, q, more);
        Differs(q, more, t);
      }
    }
  }

  lemma WrongChar(p: Scanner, c: char, text: string, more: string, t: string, j: nat)
    requires j < |t| && p == Scanner(INQUOTE, t[..j]) && c != t[j] && c != '\\'
    requires text == (if c == '"' then ['\\', '"'] else [c]) + more
    ensures NotFirst(t, ScanAll(p, text, ""))
  {
    var q := Scanner(INQUOTE, t[..j] + [c]);
    assert q.current[j] != t[j];
    if c == '"' {
      assert text == ['\\'] + (['"'] + more);
      Quiet(p, '\\', Scanner(ESCAPE, t[..j]), ['"'] + more);
      Quiet(Scanner(ESCAPE, t[..j]), '"', q, more);
    } else {
      Quiet(p, c, q, more);
    }
    Differs(q, more, t);
  }

  /** Quoted, a token with a backslash does not come back. */
  lemma BadQuoted(t: string, rest: string)
    requires HasBlanks(t) && '\\' in t
    ensures NotFirst(t, ScanAll(START, TokenText(t) + rest, ""))
  {
    var j := Find(t, '\\');
    var tail := ['"'] + rest;
    QuotedText(t, j, rest);
    Quiet(START, '"', Scanner(INQUOTE, ""), Escaped(t[..j]) + (Escaped(t[j..]) + tail));
    ScanQuoted("", t[..j], Escaped(t[j..]) + tail);
    assert "" + t[..j] == t[..j];
    ScanBackslashes(t, j, j, rest);
  }

  lemma QuotedText(t: string, j: nat, rest: string)
    requires HasBlanks(t) && j <= |t|
    ensures TokenText(t) + rest == ['"'] + (Escaped(t[..j]) + (Escaped(t[j..]) + (['"'] + rest)))
  {
    var a, b, e := Escaped(t[..j]), Escaped(t[j..]), Escaped(t);
    EscapedAt(t, j);
    Regroup(['"'], e, ['"'] + rest);
    Regroup(['"'] + e, ['"'], rest);
    Regroup(a, b, ['"'] + rest);
  }

  lemma {:induction false} EscapedAt(t: string, j: nat)
    requires j <= |t|
    ensures Escaped(t) == Escaped(t[..j]) + Escaped(t[j..])
  {
    if j == 0 {
      assert t[0..] == t && "" + Escaped(t) == Escaped(t);
    } else {
      EscapedAt(t[1..], j - 1);
      assert t[..j][1..] == t[1..][..j - 1] && t[j..] == t[1..][j - 1..];
      Regroup(if t[0] == '"' then ['\\', '"'] else [t[0]], Escaped(t[1..][..j - 1]), Escaped(t[j..]));
    }
  }

  /** The plain text in front of what cannot be printed without quotes. */
  function PlainPrefix(t: string): (i: nat)
    requires !HasBlanks(t)
    ensures i <= |t| && Plain(t[..i])
    ensures i < |t| ==> t[i] == '\r' || t[i] == '"'
  {
    if t == "" || t[0] == '\r' || t[0] == '"' then 0
    else
      assert forall k :: 0 <= k < |t[1..]| ==> t[1..][k] == t[k + 1];
      var i := PlainPrefix(t[1..]) + 1;
      assert t[..i] == [t[0]] + t[1..][..i - 1];
      i
  }

  /** A quote outside of quotes gets a backslash in front. */
  lemma BackslashAdded(p: Scanner, a: string, t: string, more: string)
    requires a <= t && |a| < |t| && t[|a|] == '"' && p == (if a == "" then START else Scanner(TOKEN, a))
    ensures NotFirst(t, ScanAll(p, ['\\', '"'] + more, ""))
  {
    var q := Scanner(TOKEN, a + ['\\']);
    assert ['\\', '"'] + more == ['\\'] + (['"'] + more);
    assert q.current[|a|] != t[|a|];
    Quiet(p, '\\', q, ['"'] + more);
    Differs(q, ['"'] + more, t);
  }

  lemma PlainText(t: string, i: nat, rest: string)
    requires !HasBlanks(t) && t != "" && i < |t|
    ensures TokenText(t) + rest
         == Escaped(t[..i]) + ((if t[i] == '"' then ['\\', '"'] else [t[i]]) + (Escaped(t[i + 1..]) + rest))
  {
    EscapedAt(t, i);
    assert t[i..][1..] == t[i + 1..];
  }

  /** Unquoted, a quote gets a backslash in front, and a carriage return cuts the token in two. */
  lemma BadPlain(t: string, i: nat, rest: string)
    requires !HasBlanks(t) && i == PlainPrefix(t) < |t| && (i > 0 || t[i] == '"')
    ensures NotFirst(t, ScanAll(START, TokenText(t) + rest, ""))
  {
    var a, c, more := t[..i], t[i], Escaped(t[i + 1..]) + rest;
    var p := if i == 0 then START else Scanner(TOKEN, a);
    var text := (if c == '"' then ['\\', '"'] else [c]) + more;
    PlainText(t, i, rest);
    if i > 0 {
      ScanPlainFirst(a, text);
    } else {
      assert Escaped(a) + text == text;
    }
    if c == '"' { BackslashAdded(p, a, t, more); } else { Then(p, c, more); }
  }

  // ---- carriage returns are never made up ----

  function Crs(s: string): nat {
    if s == "" then 0 else (if s[0] == '\r' then 1 else 0) + Crs(s[1..])
  }

  function AllCrs(v: seq<string>): nat {
    if v == [] then 0 else Crs(v[0]) + AllCrs(v[1..])
  }

  lemma {:induction false} CrsAppend(a: string, b: string)
    ensures Crs(a + b) == Crs(a) + Crs(b)
  {
    if a == "" {
      assert a + b == b;
    } else {
      assert (a + b)[1..] == a[1..] + b;
      CrsAppend(a[1..], b);
    }
  }

  lemma CrsMore(cur: string, c: char)
    ensures Crs(cur + [c]) == Crs(cur) + if c == '\r' then 1 else 0
  {
    CrsAppend(cur, [c]);
    assert [c][1..] == "";
  }

  /** One character: what it adds to the token and the tokens it completes. */
  lemma CrsStep(p: Scanner, c: char, q: Scanner, out: seq<string>)
    requires (q, out) == Scan(p, c, "") && (p.state == SPACE ==> p.current == "")
    ensures out == [] || out == [p.current]
    ensures Crs(q.current) + AllCrs(out) <= Crs(p.current) + if c == '\r' then 1 else 0
    ensures q.state == SPACE ==> q.current == ""
  {
    CrsMore(p.current, c);
    if out != [] { assert out[1..] == []; }
  }

  lemma {:induction false} CrsScanned(p: Scanner, text: string, r: seq<string>)
    requires ScanAll(p, text, "") == Some(r) && (p.state == SPACE ==> p.current == "")
    ensures AllCrs(r) <= Crs(p.current) + Crs(text)
    decreases |text|
  {
    if text == "" {
      assert r == [] || (r == [p.current] && r[1..] == []);
    } else {
      var (q, out) := Scan(p, text[0], "");
      var s := ScanAll(q, text[1..], "").value;
      CrsStep(p, text[0], q, out);
      CrsScanned(q, text[1..], s);
      assert r == out + s;
      AllCrsAppend(out, s);
    }
  }

  lemma {:induction false} AllCrsAppend(a: seq<string>, b: seq<string>)
    ensures AllCrs(a + b) == AllCrs(a) + AllCrs(b)
  {
    if a == [] {
      assert a + b == b;
    } else {
      assert (a + b)[1..] == a[1..] + b;
      AllCrsAppend(a[1..], b);
    }
  }

  lemma {:induction false} CrsEscaped(t: string)
    ensures Crs(Escaped(t)) == Crs(t)
  {
    if t != "" {
      CrsEscaped(t[1..]);
      var head := if t[0] == '"' then ['\\', '"'] else [t[0]];
      CrsAppend(head, Escaped(t[1..]));
      assert [t[0]][1..] == "" && ['\\', '"'][1..] == ['"'] && ['"'][1..] == "";
    }
  }

  lemma CrsToken(t: string)
    ensures Crs(TokenText(t)) == Crs(t)
  {
    assert ['"'][1..] == "" && ['"', '"'][1..] == ['"'];
    CrsEscaped(t);
    if HasBlanks(t) {
      CrsAppend(['"'] + Escaped(t), ['"']);
      CrsAppend(['"'], Escaped(t));
    }
  }

  lemma {:induction false} CrsPrinted(v: seq<string>)
    ensures Crs(StringsText(v)) == AllCrs(v)
  {
    if v != [] {
      CrsToken(v[0]);
      CrsPrinted(v[1..]);
      if |v| == 1 {
        assert v[1..] == [];
      } else {
        assert [' '][1..] == "";
        CrsAppend(TokenText(v[0]) + [' '], StringsText(v[1..]));
        CrsAppend(TokenText(v[0]), [' ']);
      }
    }
  }

  /** A token that begins with a bare carriage return loses it. */
  lemma LostCr(v: seq<string>, text: string)
    requires v != [] && v[0] != "" && !HasBlanks(v[0]) && v[0][0] == '\r' && text == StringsText(v)
    ensures ScanAll(START, text, "") != Some(v)
  {
    assert text[0] == '\r';
    var more := text[1..];
    assert text == ['\r'] + more;
    Quiet(START, '\r', START, more);
    CrsPrinted(v);
    var r := ScanAll(START, more, "");
    if r.Some? { CrsScanned(START, more, r.value); }
  }

  // ---- the round trip ----

  /** What follows the first token. */
  function AfterFirst(v: seq<string>): string
    requires v != []
  {
    if |v| == 1 then "" else [' '] + StringsText(v[1..])
  }

  lemma FirstPrinted(v: seq<string>)
    requires v != []
    ensures StringsText(v) == TokenText(v[0]) + AfterFirst(v)
    ensures ScanAll(START, AfterFirst(v), "") == ScanAll(START, StringsText(v[1..]), "")
  {
    if |v| == 1 {
      assert v[1..] == [] && TokenText(v[0]) + "" == TokenText(v[0]);
    } else {
      Quiet(START, ' ', START, StringsText(v[1..]));
      Regroup(TokenText(v[0]), [' '], StringsText(v[1..]));
    }
  }

  lemma BadFirst(v: seq<string>)
    requires v != [] && !Printable(v[0])
    ensures ScanAll(START, StringsText(v), "") != Some(v)
  {
    var t := v[0];
    FirstPrinted(v);
    if HasBlanks(t) {
      BadQuoted(t, AfterFirst(v));
    } else {
      var i := PlainPrefix(t);
      assert t[..|t|] == t;
      assert i < |t|;
      if i == 0 && t[0] == '\r' {
        LostCr(v, StringsText(v));
      } else {
        BadPlain(t, i, AfterFirst(v));
      }
    }
  }

  lemma GoodFirst(v: seq<string>, tail: Option<seq<string>>)
    requires v != [] && Printable(v[0]) && tail == ScanAll(START, StringsText(v[1..]), "")
    ensures ScanAll(START, StringsText(v), "") == Prepend([v[0]], tail)
  {
    FirstPrinted(v);
    ScanPrintable(v[0], AfterFirst(v));
  }

  lemma PrependIs(v: seq<string>, tail: Option<seq<string>>)
    requires v != []
    ensures Prepend([v[0]], tail) == Some(v) <==> tail == Some(v[1..])
  {
    assert v == [v[0]] + v[1..];
    if tail.Some? { assert ([v[0]] + tail.value)[1..] == tail.value; }
  }

  /** The strings come back from their text exactly when each one is empty, or has blanks and no backslash, or
      has neither blanks nor carriage returns nor quotes. */
  lemma {:induction false} StringsRoundTripIff(v: seq<string>)
    ensures ScanAll(START, StringsText(v), "") == Some(v) <==> forall i :: 0 <= i < |v| ==> Printable(v[i])
  {
    if v != [] {
      if Printable(v[0]) {
        var tail := ScanAll(START, StringsText(v[1..]), "");
        GoodFirst(v, tail);
        PrependIs(v, tail);
        StringsRoundTripIff(v[1..]);
        assert forall i :: 0 < i < |v| ==> v[i] == v[1..][i - 1];
      } else {
        BadFirst(v);
      }
    }
  }

  // ---- the loops ----

  /** stringToStrings(): the result is None when it returns false. */
  method StringToStrings(s: string, addseps: string) returns (r: Option<seq<string>>)
    ensures r == ScanAll(START, s, addseps)
  {
    var tokens: seq<string> := [];
    var current, state := "", SPACE;
    assert s[0..] == s;
    PrependNothing(ScanAll(START, s, addseps));
    for i := 0 to |s|
      invariant Prepend(tokens, ScanAll(Scanner(state, current), s[i..], addseps)) == ScanAll(START, s, addseps)
    {
      var c := s[i];
      ghost var p, before := Scanner(state, current), tokens;
      var pushed: seq<string> := [];
      if c == '"' {
        match state {
          case SPACE => state := INQUOTE;
          case TOKEN => current := current + ['"'];
          case INQUOTE => pushed, current, state := [current], "", SPACE;
          case ESCAPE => current, state := current + ['"'], INQUOTE;
        }
      } else if c == '\\' {
        match state {
          case SPACE => current, state := current + ['\\'], TOKEN;
          case TOKEN => current, state := current + ['\\'], TOKEN;
          case INQUOTE => state := ESCAPE;
          case ESCAPE => current, state := current + ['\\'], INQUOTE;
        }
      } else if c == ' ' || c == '\t' || c == '\n' || c == '\r' {
        match state {
          case SPACE =>
          case TOKEN => pushed, current, state := [current], "", SPACE;
          case INQUOTE => current := current + [c];
          case ESCAPE => current := current + [c];
        }
      } else if c in addseps && state == SPACE {
        pushed := [[c]];
      } else if c in addseps && state == TOKEN {
        pushed, current, state := [current, [c]], "", SPACE;
      } else {
        match state {
          case SPACE => state := TOKEN;
          case TOKEN =>
          case INQUOTE =>
          case ESCAPE => state := INQUOTE;
        }
        current := current + [c];
      }
      assert Scan(p, c, addseps) == (Scanner(state, current), pushed);
      tokens := tokens + pushed;
      assert s[i..][0] == c && s[i..][1..] == s[i + 1..];
      PrependTwice(before, pushed, ScanAll(Scanner(state, current), s[i + 1..], addseps));
    }
    match state {
      case SPACE =>
        assert tokens + [] == tokens;
        r := Some(tokens);
      case TOKEN => r := Some(tokens + [current]);
      case INQUOTE => r := None;
      case ESCAPE => r := None;
    }
  }

  lemma PrependTwice(a: seq<string>, b: seq<string>, r: Option<seq<string>>)
    ensures Prepend(a, Prepend(b, r)) == Prepend(a + b, r)
  {
    if r.Some? { assert a + (b + r.value) == a + b + r.value; }
  }

  /** stringsToString(): every token is followed by a space, and the last one is taken back. */
  method StringsToString(tokens: seq<string>) returns (s: string)
    ensures s == StringsText(tokens)
  {
    s := "";
    if tokens == [] { return; }
    assert tokens[0..] == tokens;
    for i := 0 to |tokens|
      invariant if i == |tokens| then s == StringsText(tokens) + [' ']
                else s + StringsText(tokens[i..]) == StringsText(tokens)
    {
      assert tokens[i..][1..] == tokens[i + 1..];
      var text := OneToken(tokens[i]);
      PrintedNext(tokens[i..], text, s, StringsText(tokens));
      s := s + text;
      s := s + [' '];
    }
    s := s[..|s| - 1];
  }

  lemma PrintedNext(v: seq<string>, text: string, s: string, whole: string)
    requires v != [] && text == TokenText(v[0]) && s + StringsText(v) == whole
    ensures if |v| == 1 then s + text == whole else s + text + [' '] + StringsText(v[1..]) == whole
  {
    if |v| > 1 {
      Regroup(s, text + [' '], StringsText(v[1..]));
      Regroup(s, text, [' ']);
    }
  }

  lemma EscapedMore(tok: string, i: nat)
    requires i < |tok|
    ensures Escaped(tok[..i + 1]) == Escaped(tok[..i]) + if tok[i] == '"' then ['\\', '"'] else [tok[i]]
  {
    EscapedAt(tok[..i + 1], i);
    assert tok[..i + 1][..i] == tok[..i] && tok[..i + 1][i..] == [tok[i]] && [tok[i]][1..] == "";
  }

  method OneToken(tok: string) returns (s: string)
    ensures s == TokenText(tok)
  {
    if tok == "" { return ['"', '"']; }
    var hasblanks := exists i :: 0 <= i < |tok| && Blank(tok[i]);
    s := if hasblanks then ['"'] else "";
    ghost var head := s;
    for i := 0 to |tok|
      invariant s == head + Escaped(tok[..i])
    {
      EscapedMore(tok, i);
      Regroup(head, Escaped(tok[..i]), if tok[i] == '"' then ['\\', '"'] else [tok[i]]);
      if tok[i] == '"' {
        s := s + ['\\', tok[i]];
      } else {
        s := s + [tok[i]];
      }
    }
    assert tok[..|tok|] == tok;
    assert "" + Escaped(tok) == Escaped(tok);
    if hasblanks {
      s := s + ['"'];
    }
  }

  // ---- stringToTokens() ----

  /** What lies between the delimiters; nothing after a delimiter that ends the text. */
  function Fields(s: string, delims: string): (r: seq<string>)
    ensures forall t :: t in r ==> forall c :: c in t ==> c !in delims
    decreases |s|
  {
    var k := FindAny(s, delims);
    if s == "" then [] else if k == |s| then [s] else [s[..k]] + Fields(s[k + 1..], delims)
  }

  function NonEmpties(v: seq<string>): (r: seq<string>)
    ensures "" !in r
  {
    if v == [] then [] else (if v[0] == "" then [] else [v[0]]) + NonEmpties(v[1..])
  }

  /** Without allowempty only a first empty token is kept. */
  function Kept(v: seq<string>, tokens: seq<string>, allowempty: bool): seq<string>
    decreases |v|
  {
    if v == [] then tokens
    else if v[0] != "" || allowempty || tokens == [] then Kept(v[1..], tokens + [v[0]], allowempty)
    else Kept(v[1..], tokens, allowempty)
  }

  lemma {:induction false} KeptNonEmpties(v: seq<string>, tokens: seq<string>)
    requires tokens != [] || (v != [] ==> v[0] != "")
    ensures Kept(v, tokens, false) == tokens + NonEmpties(v)
    decreases |v|
  {
    if v != [] {
      if v[0] != "" {
        KeptNonEmpties(v[1..], tokens + [v[0]]);
        assert tokens + [v[0]] + NonEmpties(v[1..]) == tokens + ([v[0]] + NonEmpties(v[1..]));
      } else {
        KeptNonEmpties(v[1..], tokens);
        assert [] + NonEmpties(v[1..]) == NonEmpties(v[1..]);
      }
    } else {
      assert tokens + [] == tokens;
    }
  }

  /** The tokens by default: the non-empty fields. */
  function TokensOf(s: string, delims: string): (r: seq<string>)
    ensures "" !in r
  {
    NonEmpties(Fields(s, delims))
  }

  lemma {:induction false} SkippedTokens(s: string, delims: string)
    ensures TokensOf(TrimLeft(s, delims), delims) == TokensOf(s, delims)
    ensures Fields(TrimLeft(s, delims), delims) != [] ==> Fields(TrimLeft(s, delims), delims)[0] != ""
  {
    if s != "" && s[0] in delims {
      SkippedTokens(s[1..], delims);
      assert s[..0] == "" && Fields(s, delims) == [""] + Fields(s[1..], delims);
      assert Fields(s, delims)[1..] == Fields(s[1..], delims);
    }
  }

  lemma FieldAt(s: string, start: nat, delims: string, pos: nat)
    requires start < |s| && pos == start + FindAny(s[start..], delims)
    ensures pos <= |s|
    ensures Fields(s[start..], delims)
         == if pos == |s| then [s[start..]] else [s[start..pos]] + Fields(s[pos + 1..], delims)
  {
    if pos < |s| {
      assert s[start..][..pos - start] == s[start..pos] && s[start..][pos - start + 1..] == s[pos + 1..];
    }
  }

  method FirstNotOf(str: string, delims: string) returns (pos: nat)
    ensures pos <= |str| && str[pos..] == TrimLeft(str, delims)
  {
    pos := 0;
    while pos < |str| && str[pos] in delims
      invariant 0 <= pos <= |str| && TrimLeft(str[pos..], delims) == TrimLeft(str, delims)
    {
      assert str[pos..][1..] == str[pos + 1..];
      pos := pos + 1;
    }
  }

  method StringToTokens(str: string, delims: string, skipinit: bool, allowempty: bool) returns (tokens: seq<string>)
    ensures tokens == Kept(Fields(if skipinit then TrimLeft(str, delims) else str, delims), [], allowempty)
    ensures skipinit && !allowempty ==> tokens == TokensOf(str, delims)
  {
    var startPos := 0;
    if skipinit {
      startPos := FirstNotOf(str, delims);
    }
    tokens := TokensFrom(str, startPos, delims, allowempty);
    if skipinit && !allowempty {
      SkippedTokens(str, delims);
      KeptNonEmpties(Fields(str[startPos..], delims), []);
      assert [] + TokensOf(str, delims) == TokensOf(str, delims);
    }
  }

  /** The loop of stringToTokens(). */
  method TokensFrom(str: string, start: nat, delims: string, allowempty: bool) returns (tokens: seq<string>)
    requires start <= |str|
    ensures tokens == Kept(Fields(str[start..], delims), [], allowempty)
  {
    tokens := [];
    var startPos := start;
    while startPos < |str|
      invariant 0 <= startPos <= |str|
      invariant Kept(Fields(str[startPos..], delims), tokens, allowempty)
             == Kept(Fields(str[start..], delims), [], allowempty)
    {
      startPos, tokens := TakeField(str, startPos, delims, allowempty, tokens);
    }
  }

  /** One turn of the loop, up to the next delimiter. */
  method TakeField(str: string, start: nat, delims: string, allowempty: bool, before: seq<string>)
    returns (startPos: nat, tokens: seq<string>)
    requires start < |str|
    ensures start < startPos <= |str|
    ensures Kept(Fields(str[startPos..], delims), tokens, allowempty)
         == Kept(Fields(str[start..], delims), before, allowempty)
  {
    var pos := start + FindAny(str[start..], delims);
    ghost var fields := Fields(str[start..], delims);
    ghost var next := NextFields(str, start, delims, fields, pos);
    KeptNext(fields, str[start..pos], next, before, allowempty);
    if pos == |str| {
      assert str[start..pos] == str[start..];
      return |str|, before + [str[start..]];
    }
    tokens := before;
    if pos == start {
      if allowempty || tokens == [] {
        tokens := tokens + [""];
      }
    } else {
      tokens := tokens + [str[start..pos]];
    }
    startPos := pos + 1;
  }

  /** What the delimiter at pos leaves to cut. */
  lemma NextFields(str: string, start: nat, delims: string, fields: seq<string>, pos: nat) returns (next: seq<string>)
    requires start < |str| && pos == start + FindAny(str[start..], delims) && fields == Fields(str[start..], delims)
    ensures pos <= |str|
    ensures fields == [str[start..pos]] + next && fields[1..] == next
    ensures if pos == |str| then next == [] else next == Fields(str[pos + 1..], delims)
  {
    FieldAt(str, start, delims, pos);
    next := fields[1..];
    assert str[start..|str|] == str[start..];
  }

  lemma KeptNext(fields: seq<string>, x: string, next: seq<string>, tokens: seq<string>, allowempty: bool)
    requires fields == [x] + next
    ensures Kept(fields, tokens, allowempty)
         == Kept(next, if x != "" || allowempty || tokens == [] then tokens + [x] else tokens, allowempty)
  {
    assert fields[1..] == next;
  }
}
