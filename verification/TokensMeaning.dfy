/** What any text means to the two tokenizers, told by the parts it is written with (src/smallut.cpp). */
module TokensMeaning {
  import opened Strings
  import opened Tokens

  const WHITE := " \t\n\r"

  // ---- stringToStrings() ----

  /** Between quotes: a character, or a backslash that takes the next character literally, which leaves white space in
      between as it is. */
  datatype Unit = Raw(c: char) | Esc(blanks: string, c: char)

  /** White space, a separator, a token without quotes, and one with them. */
  datatype Item = Gap(c: char) | Sep(c: char) | Bare(t: string) | Quoted(units: seq<Unit>)

  /** The end of the text, perhaps with a quote left open, perhaps behind a backslash and white space. */
  datatype End = Complete | Open(units: seq<Unit>, pending: bool, blanks: string)

  function UnitsText(units: seq<Unit>, rest: string): string {
    if units == [] then rest
    else
      match units[0]
      case Raw(c) => [c] + UnitsText(units[1..], rest)
      case Esc(blanks, c) => ['\\'] + (blanks + ([c] + UnitsText(units[1..], rest)))
  }

  function ItemText(x: Item, rest: string): string {
    match x
    case Gap(c) => [c] + rest
    case Sep(c) => [c] + rest
    case Bare(t) => t + rest
    case Quoted(units) => ['"'] + UnitsText(units, ['"'] + rest)
  }

  function EndText(end: End): string {
    match end
    case Complete => ""
    case Open(units, pending, blanks) => ['"'] + UnitsText(units, if pending then ['\\'] + blanks else "")
  }

  function ItemsText(items: seq<Item>, end: End): string {
    if items == [] then EndText(end) else ItemText(items[0], ItemsText(items[1..], end))
  }

  predicate UnitOk(u: Unit) {
    match u
    case Raw(c) => c != '"' && c != '\\'
    case Esc(blanks, c) => AllIn(blanks, WHITE) && c !in WHITE
  }

  predicate UnitsOk(units: seq<Unit>) {
    forall i :: 0 <= i < |units| ==> UnitOk(units[i])
  }

  /** A character that can stand inside a token without quotes. */
  predicate Inner(c: char, addseps: string) {
    c !in WHITE && (c == '"' || c == '\\' || c !in addseps)
  }

  predicate IsSep(c: char, addseps: string) {
    c in addseps && c !in WHITE && c != '"' && c != '\\'
  }

  predicate ItemOk(x: Item, addseps: string) {
    match x
    case Gap(c) => c in WHITE
    case Sep(c) => IsSep(c, addseps)
    case Bare(t) => t != "" && t[0] != '"' && forall i :: 0 <= i < |t| ==> Inner(t[i], addseps)
    case Quoted(units) => UnitsOk(units)
  }

  predicate EndOk(end: End) {
    end.Open? ==> UnitsOk(end.units) && AllIn(end.blanks, WHITE)
  }

  /** A token without quotes only ends at white space, at a separator or at the end. */
  predicate AfterBare(items: seq<Item>, end: End) {
    if items == [] then end.Complete? else items[0].Gap? || items[0].Sep?
  }

  predicate ItemsOk(items: seq<Item>, end: End, addseps: string) {
    && EndOk(end) && (forall i :: 0 <= i < |items| ==> ItemOk(items[i], addseps))
    && forall i :: 0 <= i < |items| && items[i].Bare? ==> AfterBare(items[i + 1..], end)
  }

  lemma ItemsCons(x: Item, items: seq<Item>, end: End, addseps: string)
    ensures ItemsOk([x] + items, end, addseps)
       <==> ItemOk(x, addseps) && ItemsOk(items, end, addseps) && (x.Bare? ==> AfterBare(items, end))
  {
    var all := [x] + items;
    assert all[0] == x && all[1..] == items;
    forall i | 0 <= i < |items| ensures all[i + 1] == items[i] && all[i + 2..] == items[i + 1..] {
    }
    assert forall i :: 0 < i < |all| ==> all[i] == items[i - 1] && all[i + 1..] == items[i..];
  }

  function UnitsMean(units: seq<Unit>): string {
    if units == [] then ""
    else (if units[0].Raw? then "" else units[0].blanks) + [units[0].c] + UnitsMean(units[1..])
  }

  function ItemsMean(items: seq<Item>): seq<string> {
    if items == [] then []
    else
      (match items[0]
       case Gap(_) => []
       case Sep(c) => [[c]]
       case Bare(t) => [t]
       case Quoted(units) => [UnitsMean(units)]) + ItemsMean(items[1..])
  }

  /** One character that completes some tokens. */
  lemma Scanned(p: Scanner, c: char, rest: string, addseps: string, q: Scanner, out: seq<string>)
    requires Scan(p, c, addseps) == (q, out)
    ensures ScanAll(p, [c] + rest, addseps) == Prepend(out, ScanAll(q, rest, addseps))
    ensures out == [] ==> ScanAll(p, [c] + rest, addseps) == ScanAll(q, rest, addseps)
  {
    assert ([c] + rest)[1..] == rest;
    PrependNothing(ScanAll(q, rest, addseps));
  }

  /** White space behind a backslash. */
  lemma {:induction false} BlanksEscaped(cur: string, blanks: string, rest: string, addseps: string)
    requires AllIn(blanks, WHITE)
    ensures ScanAll(Scanner(ESCAPE, cur), blanks + rest, addseps)
         == ScanAll(Scanner(ESCAPE, cur + blanks), rest, addseps)
    decreases |blanks|
  {
    if blanks == "" {
      assert blanks + rest == rest && cur + blanks == cur;
    } else {
      var c := blanks[0];
      assert c in blanks && forall d :: d in blanks[1..] ==> d in blanks;
      Scanned(Scanner(ESCAPE, cur), c, blanks[1..] + rest, addseps, Scanner(ESCAPE, cur + [c]), []);
      assert blanks + rest == [c] + (blanks[1..] + rest);
      BlanksEscaped(cur + [c], blanks[1..], rest, addseps);
      assert cur + [c] + blanks[1..] == cur + blanks;
    }
  }

  lemma UnitRead(cur: string, u: Unit, rest: string, addseps: string)
    requires UnitOk(u)
    ensures ScanAll(Scanner(INQUOTE, cur), UnitsText([u], rest), addseps)
         == ScanAll(Scanner(INQUOTE, cur + ((if u.Raw? then "" else u.blanks) + [u.c])), rest, addseps)
  {
    match u
    case Raw(c) =>
      assert "" + [c] == [c];
      Scanned(Scanner(INQUOTE, cur), c, rest, addseps, Scanner(INQUOTE, cur + [c]), []);
    case Esc(blanks, c) =>
      Scanned(Scanner(INQUOTE, cur), '\\', blanks + ([c] + rest), addseps, Scanner(ESCAPE, cur), []);
      BlanksEscaped(cur, blanks, [c] + rest, addseps);
      Scanned(Scanner(ESCAPE, cur + blanks), c, rest, addseps, Scanner(INQUOTE, cur + blanks + [c]), []);
      Regroup(cur, blanks, [c]);
  }

  lemma {:induction false} UnitsRead(cur: string, units: seq<Unit>, rest: string, addseps: string)
    requires UnitsOk(units)
    ensures ScanAll(Scanner(INQUOTE, cur), UnitsText(units, rest), addseps)
         == ScanAll(Scanner(INQUOTE, cur + UnitsMean(units)), rest, addseps)
    decreases |units|
  {
    if units == [] {
      assert cur + "" == cur;
    } else {
      var u, more := units[0], UnitsText(units[1..], rest);
      var first := (if u.Raw? then "" else u.blanks) + [u.c];
      assert UnitsText([u], more) == UnitsText(units, rest);
      UnitRead(cur, u, more, addseps);
      UnitsRead(cur + first, units[1..], rest, addseps);
      Regroup(cur, first, UnitsMean(units[1..]));
    }
  }

  lemma QuotedRead(units: seq<Unit>, rest: string, addseps: string)
    requires UnitsOk(units)
    ensures ScanAll(START, ['"'] + UnitsText(units, ['"'] + rest), addseps)
         == Prepend([UnitsMean(units)], ScanAll(START, rest, addseps))
  {
    var t := UnitsMean(units);
    Scanned(START, '"', UnitsText(units, ['"'] + rest), addseps, Scanner(INQUOTE, ""), []);
    UnitsRead("", units, ['"'] + rest, addseps);
    assert "" + t == t;
    Scanned(Scanner(INQUOTE, t), '"', rest, addseps, START, [t]);
  }

  /** A quote that is left open is an error. */
  lemma OpenRead(end: End, addseps: string)
    requires end.Open? && EndOk(end)
    ensures ScanAll(START, EndText(end), addseps) == None
  {
    var t, last := UnitsMean(end.units), if end.pending then ['\\'] + end.blanks else "";
    Scanned(START, '"', UnitsText(end.units, last), addseps, Scanner(INQUOTE, ""), []);
    UnitsRead("", end.units, last, addseps);
    assert "" + t == t;
    if end.pending {
      Scanned(Scanner(INQUOTE, t), '\\', end.blanks, addseps, Scanner(ESCAPE, t), []);
      BlanksEscaped(t, end.blanks, "", addseps);
      assert end.blanks + "" == end.blanks;
    }
  }

  lemma {:induction false} BareMore(cur: string, t: string, rest: string, addseps: string)
    requires forall i :: 0 <= i < |t| ==> Inner(t[i], addseps)
    ensures ScanAll(Scanner(TOKEN, cur), t + rest, addseps) == ScanAll(Scanner(TOKEN, cur + t), rest, addseps)
    decreases |t|
  {
    if t == "" {
      assert t + rest == rest && cur + t == cur;
    } else {
      var c := t[0];
      Scanned(Scanner(TOKEN, cur), c, t[1..] + rest, addseps, Scanner(TOKEN, cur + [c]), []);
      assert t + rest == [c] + (t[1..] + rest);
      BareMore(cur + [c], t[1..], rest, addseps);
      assert cur + [c] + t[1..] == cur + t;
    }
  }

  lemma BareEnds(t: string, rest: string, addseps: string)
    requires rest == "" || rest[0] in WHITE || IsSep(rest[0], addseps)
    ensures ScanAll(Scanner(TOKEN, t), rest, addseps) == Prepend([t], ScanAll(START, rest, addseps))
  {
    if rest == "" {
      assert [t] + [] == [t];
    } else {
      var c, more := rest[0], rest[1..];
      assert rest == [c] + more;
      if c in WHITE {
        Scanned(Scanner(TOKEN, t), c, more, addseps, START, [t]);
        Scanned(START, c, more, addseps, START, []);
      } else {
        Scanned(Scanner(TOKEN, t), c, more, addseps, START, [t, [c]]);
        Scanned(START, c, more, addseps, START, [[c]]);
        PrependTwice([t], [[c]], ScanAll(START, more, addseps));
        assert [t] + [[c]] == [t, [c]];
      }
    }
  }

  lemma BareRead(t: string, rest: string, addseps: string)
    requires ItemOk(Bare(t), addseps) && (rest == "" || rest[0] in WHITE || IsSep(rest[0], addseps))
    ensures ScanAll(START, t + rest, addseps) == Prepend([t], ScanAll(START, rest, addseps))
  {
    var c := t[0];
    assert t + rest == [c] + (t[1..] + rest) && "" + [c] == [c] && [c] + t[1..] == t;
    assert Inner(c, addseps);
    Scanned(START, c, t[1..] + rest, addseps, Scanner(TOKEN, [c]), []);
    BareMore([c], t[1..], rest, addseps);
    BareEnds(t, rest, addseps);
  }

  lemma ItemRead(x: Item, rest: string, addseps: string, r: Option<seq<string>>)
    requires ItemOk(x, addseps) && r == ScanAll(START, rest, addseps)
    requires x.Bare? ==> rest == "" || rest[0] in WHITE || IsSep(rest[0], addseps)
    ensures r.None? ==> ScanAll(START, ItemText(x, rest), addseps) == None
    ensures r.Some? ==> var first := match x
                                     case Gap(_) => []
                                     case Sep(c) => [[c]]
                                     case Bare(t) => [t]
                                     case Quoted(units) => [UnitsMean(units)];
                        ScanAll(START, ItemText(x, rest), addseps) == Some(first + r.value)
  {
    match x
    case Gap(c) =>
      Scanned(START, c, rest, addseps, START, []);
      if r.Some? { assert [] + r.value == r.value; }
    case Sep(c) => Scanned(START, c, rest, addseps, START, [[c]]);
    case Bare(t) => BareRead(t, rest, addseps);
    case Quoted(units) => QuotedRead(units, rest, addseps);
  }

  /** The tokens of a text, quotes, backslashes and separators included: those it is written with, unless a quote is
      left open. */
  lemma {:induction false} TextRead(items: seq<Item>, end: End, addseps: string)
    requires ItemsOk(items, end, addseps)
    ensures ScanAll(START, ItemsText(items, end), addseps) == if end.Open? then None else Some(ItemsMean(items))
    decreases |items|
  {
    if items == [] {
      if end.Open? { OpenRead(end, addseps); }
    } else {
      assert items == [items[0]] + items[1..];
      ItemsCons(items[0], items[1..], end, addseps);
      TextRead(items[1..], end, addseps);
      var rest := ItemsText(items[1..], end);
      if items[0].Bare? && |items| > 1 { assert ItemOk(items[1], addseps) && rest[0] == items[1].c; }
      ItemRead(items[0], rest, addseps, ScanAll(START, rest, addseps));
    }
  }

  // ---- every text is written so ----

  /** How the text behind a quote can end: at the other quote, or inside. */
  predicate Ends(last: string) {
    last == "" || last[0] == '"' || (last[0] == '\\' && AllIn(last[1..], WHITE))
  }

  /** What stands behind a quote. */
  lemma {:induction false} UnitsAre(s: string) returns (units: seq<Unit>, last: string)
    ensures UnitsOk(units) && Ends(last) && |last| <= |s| && s == UnitsText(units, last)
    decreases |s|
  {
    units, last := [], s;
    if !Ends(s) {
      var u, rest := UnitFirst(s);
      units, last := UnitsAre(rest);
      units := UnitsCons(u, units, last);
    }
  }

  lemma UnitFirst(s: string) returns (u: Unit, rest: string)
    requires !Ends(s)
    ensures UnitOk(u) && |rest| < |s| && s == UnitsText([u], rest)
  {
    if s[0] == '\\' {
      var blanks := TrimLeftSplit(s[1..], WHITE);
      var left := TrimLeft(s[1..], WHITE);
      assert s[1..] == blanks + left && blanks + "" == blanks;
      u, rest := Esc(blanks, left[0]), left[1..];
      assert left == [u.c] + rest && s == [s[0]] + s[1..];
    } else {
      u, rest := Raw(s[0]), s[1..];
    }
  }

  lemma UnitsCons(u: Unit, units: seq<Unit>, last: string) returns (all: seq<Unit>)
    requires UnitOk(u) && UnitsOk(units)
    ensures UnitsOk(all) && UnitsText(all, last) == UnitsText([u], UnitsText(units, last))
  {
    all := [u] + units;
    assert all[1..] == units;
  }

  /** The characters of a token without quotes. */
  function BareLength(s: string, addseps: string): (n: nat)
    ensures n <= |s| && forall i :: 0 <= i < n ==> Inner(s[i], addseps)
    ensures n < |s| ==> !Inner(s[n], addseps)
  {
    if s == "" || !Inner(s[0], addseps) then 0 else 1 + BareLength(s[1..], addseps)
  }

  /** Any text is made of such items. */
  lemma {:induction false} EveryText(s: string, addseps: string) returns (items: seq<Item>, end: End)
    ensures ItemsOk(items, end, addseps) && ItemsText(items, end) == s
    ensures s == "" ==> items == [] && end.Complete?
    ensures s != "" && s[0] in WHITE ==> items != [] && items[0].Gap?
    ensures s != "" && IsSep(s[0], addseps) ==> items != [] && items[0].Sep?
    decreases |s|
  {
    items, end := [], Complete;
    if s != "" {
      var x, rest, open := FirstItem(s, addseps);
      if open.Open? {
        end := open;
      } else {
        items, end := EveryText(rest, addseps);
        ItemsCons(x, items, end, addseps);
        var all := [x] + items;
        assert all[1..] == items;
        items := all;
      }
    }
  }

  /** The first item of a text, or the quote that is left open. */
  lemma FirstItem(s: string, addseps: string) returns (x: Item, rest: string, open: End)
    requires s != ""
    ensures open.Complete? ==>
              && ItemOk(x, addseps) && |rest| < |s| && ItemText(x, rest) == s
              && (x.Bare? ==> rest == "" || rest[0] in WHITE || IsSep(rest[0], addseps))
              && (s[0] in WHITE ==> x.Gap?) && (IsSep(s[0], addseps) ==> x.Sep?)
    ensures open.Open? ==> EndOk(open) && EndText(open) == s && s[0] == '"'
  {
    x, rest, open := Gap(s[0]), s[1..], Complete;
    if s[0] in WHITE {
    } else if IsSep(s[0], addseps) {
      x := Sep(s[0]);
    } else if s[0] == '"' {
      x, rest, open := QuotedItem(s);
    } else {
      var n := BareLength(s, addseps);
      x, rest := Bare(s[..n]), s[n..];
    }
  }

  lemma QuotedItem(s: string) returns (x: Item, rest: string, open: End)
    requires s != "" && s[0] == '"'
    ensures open.Complete? ==> x.Quoted? && UnitsOk(x.units) && |rest| < |s| && ItemText(x, rest) == s
    ensures open.Open? ==> EndOk(open) && EndText(open) == s
  {
    var units, last := UnitsAre(s[1..]);
    assert s == ['"'] + s[1..];
    x, rest, open := Quoted(units), "", Complete;
    if last != "" && last[0] == '"' {
      rest := last[1..];
      assert last == ['"'] + rest;
    } else if last == "" {
      open := Open(units, false, "");
    } else {
      open := Open(units, true, last[1..]);
      assert last == ['\\'] + last[1..];
    }
  }

  // ---- stringToTokens() ----

  /** Fields, each with the delimiter behind it, and what follows the last of these. */
  function Delimited(fields: seq<(string, char)>, last: string): string {
    if fields == [] then last else fields[0].0 + [fields[0].1] + Delimited(fields[1..], last)
  }

  predicate DelimitedOk(fields: seq<(string, char)>, last: string, delims: string) {
    && (forall i :: 0 <= i < |fields| ==> Clean(fields[i].0, delims) && fields[i].1 in delims)
    && Clean(last, delims)
  }

  /** No delimiter inside. */
  predicate Clean(s: string, delims: string) {
    forall i :: 0 <= i < |s| ==> s[i] !in delims
  }

  /** All fields; an empty last one does not count. */
  lemma {:induction false} FieldsRead(fields: seq<(string, char)>, last: string, delims: string, r: seq<string>)
    requires DelimitedOk(fields, last, delims) && r == Fields(Delimited(fields, last), delims)
    ensures |r| == |fields| + (if last == "" then 0 else 1)
    ensures forall i :: 0 <= i < |r| ==> r[i] == if i < |fields| then fields[i].0 else last
    decreases |fields|
  {
    if fields != [] {
      var more := Fields(Delimited(fields[1..], last), delims);
      FieldsRead(fields[1..], last, delims, more);
      FirstField(fields[0].0, fields[0].1, Delimited(fields[1..], last), delims);
    } else if last != "" {
      assert FindAny(last, delims) == |last|;
    }
  }

  lemma DelimiterFound(f: string, d: char, rest: string, delims: string, s: string)
    requires Clean(f, delims) && d in delims && s == f + [d] + rest
    ensures FindAny(s, delims) == |f| && s[..|f|] == f && s[|f| + 1..] == rest
  {
    assert s[|f|] == d && forall i :: 0 <= i < |f| ==> s[i] == f[i];
  }

  lemma FirstField(f: string, d: char, rest: string, delims: string)
    requires Clean(f, delims) && d in delims
    ensures Fields(f + [d] + rest, delims) == [f] + Fields(rest, delims)
  {
    DelimiterFound(f, d, rest, delims, f + [d] + rest);
  }

  /** With allowempty all fields are kept. */
  lemma {:induction false} AllKept(v: seq<string>, tokens: seq<string>)
    ensures Kept(v, tokens, true) == tokens + v
    decreases |v|
  {
    if v != [] {
      AllKept(v[1..], tokens + [v[0]]);
      assert tokens + [v[0]] + v[1..] == tokens + v;
    } else {
      assert tokens + v == tokens;
    }
  }

  /** Without it, empty ones are dropped, except in front of all others. */
  lemma EmptiesDropped(v: seq<string>)
    ensures Kept(v, [], false) == (if v != [] && v[0] == "" then [""] else []) + NonEmpties(v)
  {
    if v != [] && v[0] == "" {
      assert Kept(v, [], false) == Kept(v[1..], [""], false) by { assert [] + [""] == [""]; }
      KeptNonEmpties(v[1..], [""]);
      assert [] + NonEmpties(v[1..]) == NonEmpties(v[1..]);
    } else {
      KeptNonEmpties(v, []);
    }
  }

  /** Words, each with the delimiters behind it. */
  function WordsText(words: seq<(string, string)>): string {
    if words == [] then "" else words[0].0 + words[0].1 + WordsText(words[1..])
  }

  predicate WordsOk(words: seq<(string, string)>, delims: string) {
    forall i :: 0 <= i < |words| ==>
      && words[i].0 != "" && Clean(words[i].0, delims)
      && AllIn(words[i].1, delims) && (i + 1 < |words| ==> words[i].1 != "")
  }

  /** By default the tokens are the words, however many delimiters stand in front, between and behind them. */
  lemma {:induction false} WordsRead(lead: string, words: seq<(string, string)>, delims: string, r: seq<string>)
    requires AllIn(lead, delims) && WordsOk(words, delims) && r == TokensOf(lead + WordsText(words), delims)
    ensures |r| == |words| && forall i :: 0 <= i < |r| ==> r[i] == words[i].0
    decreases |words|
  {
    var s := WordsText(words);
    LeadSkipped(lead, s, delims);
    if words != [] {
      var w, d, rest := words[0].0, words[0].1, WordsText(words[1..]);
      if |words| == 1 { assert rest == ""; }
      WordFirst(w, d, rest, delims);
      WordsRead(d, words[1..], delims, TokensOf(d + rest, delims));
      Regroup(w, d, rest);
    }
  }

  lemma {:induction false} LeadSkipped(lead: string, s: string, delims: string)
    requires AllIn(lead, delims)
    ensures TokensOf(lead + s, delims) == TokensOf(s, delims)
    decreases |lead|
  {
    if lead == "" {
      assert lead + s == s;
    } else {
      var t := lead[1..] + s;
      assert lead[0] in lead && forall c :: c in lead[1..] ==> c in lead;
      assert lead + s == "" + [lead[0]] + t;
      FirstField("", lead[0], t, delims);
      DropEmpty(Fields(t, delims));
      LeadSkipped(lead[1..], s, delims);
    }
  }

  lemma DropEmpty(v: seq<string>)
    ensures NonEmpties([""] + v) == NonEmpties(v)
  {
    assert ([""] + v)[1..] == v;
  }

  lemma WordFirst(w: string, d: string, rest: string, delims: string)
    requires w != "" && Clean(w, delims) && AllIn(d, delims) && (d == "" ==> rest == "")
    ensures TokensOf(w + (d + rest), delims) == [w] + TokensOf(d + rest, delims)
  {
    if d == "" {
      assert w + (d + rest) == w && d + rest == "" && FindAny(w, delims) == |w|;
      assert Fields(w, delims) == [w] && [w][1..] == [];
    } else {
      var t := d[1..] + rest;
      assert d[0] in d && d + rest == "" + [d[0]] + t && w + (d + rest) == w + [d[0]] + t;
      FirstField(w, d[0], t, delims);
      FirstField("", d[0], t, delims);
      DropEmpty(Fields(t, delims));
      assert ([w] + Fields(t, delims))[1..] == Fields(t, delims);
    }
  }
}
