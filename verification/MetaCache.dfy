/** The metadata cache file: percent coding, writing and reading back (src/ohmetacache.cxx, src/smallut.cpp). */
module MetaCache {
  import opened Strings

  /** What istream::getline() stores at most in the line buffer, given one less than its 20 * 1024 bytes. */
  const LINE_MAX: nat := 20 * 1024 - 2

  const HEX: string := "0123456789ABCDEF"

  // ---- percent coding ----

  predicate Special(c: char) {
    c == '%' || c == '=' || c == '\n' || c == '\r'
  }

  function EncodeChar(c: char): string {
    if Special(c) then ['%', HEX[(c as int / 16) % 16], HEX[c as int % 16]] else [c]
  }

  function Encode(s: string): string {
    if s == "" then "" else EncodeChar(s[0]) + Encode(s[1..])
  }

  /** h2d(): -1 when c is not a hexadecimal digit. */
  function H2d(c: char): (d: int)
    ensures -1 <= d < 16
    ensures d >= 0 ==> HEX[d] == c || (d >= 10 && HEX[d] as int + 32 == c as int)
  {
    if '0' <= c <= '9' then c as int - '0' as int
    else if 'A' <= c <= 'F' then 10 + c as int - 'A' as int
    else if 'a' <= c <= 'f' then 10 + c as int - 'a' as int
    else -1
  }

  /** One %xy of the text: what is not two hexadecimal digits is left alone, and skipped. */
  function DecodeThree(x: char, y: char): string {
    if H2d(x) != -1 && H2d(y) != -1 then [(H2d(x) * 16 + H2d(y)) as char] else ['%', x, y]
  }

  function PcDecode(s: string): string {
    if |s| <= 2 then s
    else if s[0] == '%' then DecodeThree(s[1], s[2]) + PcDecode(s[3..])
    else [s[0]] + PcDecode(s[1..])
  }

  lemma {:induction false} EncodeAppend(a: string, b: string)
    ensures Encode(a + b) == Encode(a) + Encode(b)
  {
    if a == "" {
      assert a + b == b;
    } else {
      assert (a + b)[1..] == a[1..] + b;
      EncodeAppend(a[1..], b);
    }
  }

  /** Encoded text holds nothing that ends a line or a key, and a NUL exactly where the text has one. */
  lemma {:induction false} EncodedIsClean(s: string, c: char)
    requires c == '=' || c == '\n' || c == '\r' || c == '\0'
    ensures c in Encode(s) <==> c == '\0' && c in s
  {
    if s != "" {
      EncodedIsClean(s[1..], c);
      assert c in s <==> c == s[0] || c in s[1..];
      assert c in Encode(s) <==> c in EncodeChar(s[0]) || c in Encode(s[1..]);
    }
  }

  lemma DecodeFirst(c: char, t: string)
    ensures PcDecode(EncodeChar(c) + t) == [c] + PcDecode(t)
  {
    if Special(c) {
      SpecialDigits(c);
      DecodePercent(EncodeChar(c)[1], EncodeChar(c)[2], t);
      assert EncodeChar(c) == ['%', EncodeChar(c)[1], EncodeChar(c)[2]];
    } else {
      DecodePlain(c, t);
    }
  }

  lemma SpecialDigits(c: char)
    requires Special(c)
    ensures var e := EncodeChar(c);
            |e| == 3 && H2d(e[1]) != -1 && H2d(e[2]) != -1 && H2d(e[1]) * 16 + H2d(e[2]) == c as int
  {
    assert c as int == 37 || c as int == 61 || c as int == 10 || c as int == 13;
    assert HEX[0] == '0' && HEX[2] == '2' && HEX[3] == '3' && HEX[5] == '5' && HEX[10] == 'A' && HEX[13] == 'D';
  }

  lemma {:induction false} DecodeEncode(s: string)
    ensures PcDecode(Encode(s)) == s
  {
    if s != "" {
      DecodeFirst(s[0], Encode(s[1..]));
      DecodeEncode(s[1..]);
    }
  }

  /** Any text, in pieces: a character, a code of two digits of either case, or a percent sign with two characters
      that are no code. */
  datatype Coded = Plain(c: char) | Code(hi: Digit, lo: Digit, x: char, y: char) | NoCode(x: char, y: char)

  type Digit = d: nat | d < 16

  predicate IsDigit(c: char, d: int) {
    0 <= d < 16 && (c == "0123456789abcdef"[d] || c == "0123456789ABCDEF"[d])
  }

  predicate CodedOk(p: Coded) {
    match p
    case Plain(c) => c != '%'
    case Code(hi, lo, x, y) => IsDigit(x, hi) && IsDigit(y, lo)
    case NoCode(x, y) => (forall d :: 0 <= d < 16 ==> !IsDigit(x, d)) || (forall d :: 0 <= d < 16 ==> !IsDigit(y, d))
  }

  function PieceText(p: Coded): string {
    match p
    case Plain(c) => [c]
    case Code(_, _, x, y) => ['%', x, y]
    case NoCode(x, y) => ['%', x, y]
  }

  function PieceMeans(p: Coded): string {
    match p
    case Plain(c) => [c]
    case Code(hi, lo, _, _) => [(hi * 16 + lo) as char]
    case NoCode(x, y) => ['%', x, y]
  }

  function CodedText(pieces: seq<Coded>): string {
    if pieces == [] then "" else PieceText(pieces[0]) + CodedText(pieces[1..])
  }

  function CodedMeans(pieces: seq<Coded>): string {
    if pieces == [] then "" else PieceMeans(pieces[0]) + CodedMeans(pieces[1..])
  }

  lemma DigitRead(c: char, d: int)
    ensures IsDigit(c, d) <==> H2d(c) == d && d != -1
  {
    if IsDigit(c, d) {
      assert d == 0 || d == 1 || d == 2 || d == 3 || d == 4 || d == 5 || d == 6 || d == 7 || d == 8 || d == 9
             || d == 10 || d == 11 || d == 12 || d == 13 || d == 14 || d == 15;
    }
  }

  lemma NoDigit(c: char)
    ensures H2d(c) == -1 <==> forall d :: 0 <= d < 16 ==> !IsDigit(c, d)
  {
    DigitRead(c, H2d(c));
    forall d | 0 <= d < 16 && IsDigit(c, d) ensures H2d(c) == d { DigitRead(c, d); }
  }

  /** Decoding takes the codes for their characters and leaves everything else, in particular up to two characters at
      the end. */
  lemma {:induction false} DecodeCoded(pieces: seq<Coded>, tail: string)
    requires |tail| <= 2 && forall p :: p in pieces ==> CodedOk(p)
    ensures PcDecode(CodedText(pieces) + tail) == CodedMeans(pieces) + tail
    decreases |pieces|
  {
    if pieces == [] {
      assert CodedText(pieces) + tail == tail && CodedMeans(pieces) + tail == tail;
    } else {
      var p, rest := pieces[0], CodedText(pieces[1..]) + tail;
      assert CodedOk(p);
      DecodeCoded(pieces[1..], tail);
      DecodePiece(p, rest);
      Regroup(PieceText(p), CodedText(pieces[1..]), tail);
      Regroup(PieceMeans(p), CodedMeans(pieces[1..]), tail);
    }
  }

  lemma DecodePiece(p: Coded, rest: string)
    requires CodedOk(p)
    ensures PcDecode(PieceText(p) + rest) == PieceMeans(p) + PcDecode(rest)
  {
    match p
    case Plain(c) =>
      DecodePlain(c, rest);
    case Code(hi, lo, x, y) =>
      DigitRead(x, hi);
      DigitRead(y, lo);
      DecodePercent(x, y, rest);
    case NoCode(x, y) =>
      NoDigit(x);
      NoDigit(y);
      DecodePercent(x, y, rest);
  }

  lemma DecodePlain(c: char, t: string)
    requires c != '%'
    ensures PcDecode([c] + t) == [c] + PcDecode(t)
  {
    assert ([c] + t)[1..] == t;
  }

  lemma DecodePercent(x: char, y: char, t: string)
    ensures PcDecode(['%', x, y] + t) == DecodeThree(x, y) + PcDecode(t)
  {
    assert (['%', x, y] + t)[3..] == t;
  }

  /** Every text is of this form. */
  lemma {:induction false} AllCoded(s: string) returns (pieces: seq<Coded>, tail: string)
    ensures |tail| <= 2 && (forall p :: p in pieces ==> CodedOk(p)) && s == CodedText(pieces) + tail
    decreases |s|
  {
    if |s| <= 2 {
      pieces, tail := [], s;
      assert CodedText([]) + s == s;
    } else {
      var n := if s[0] == '%' then 3 else 1;
      var more;
      more, tail := AllCoded(s[n..]);
      var p := if s[0] != '%' then Plain(s[0])
               else if H2d(s[1]) != -1 && H2d(s[2]) != -1 then Code(H2d(s[1]), H2d(s[2]), s[1], s[2])
               else NoCode(s[1], s[2]);
      NoDigit(s[1]);
      NoDigit(s[2]);
      DigitRead(s[1], H2d(s[1]));
      DigitRead(s[2], H2d(s[2]));
      pieces := [p] + more;
      assert pieces[1..] == more && s == s[..n] + s[n..];
      assert CodedText(pieces) == s[..n] + CodedText(more) by { if n == 3 { assert s[..3] == ['%', s[1], s[2]]; } }
      Regroup(s[..n], CodedText(more), tail);
    }
  }

  lemma EncodeOneMore(s: string, i: nat, out: string)
    requires i < |s| && out == Encode(s[..i])
    ensures out + EncodeChar(s[i]) == Encode(s[..i + 1])
  {
    EncodeAppend(s[..i], [s[i]]);
    assert s[..i + 1] == s[..i] + [s[i]];
    assert [s[i]][1..] == "";
  }

  /** encode(): builds the result one character at a time. */
  method EncodeText(s: string) returns (out: string)
    ensures out == Encode(s)
  {
    out := "";
    for i := 0 to |s|
      invariant out == Encode(s[..i])
    {
      var c := s[i];
      EncodeOneMore(s, i, out);
      if c == '%' || c == '=' || c == '\n' || c == '\r' {
        Regroup(out, ['%'], [HEX[(c as int / 16) % 16]]);
        Regroup(out, ['%'] + [HEX[(c as int / 16) % 16]], [HEX[c as int % 16]]);
        out := out + ['%'];
        out := out + [HEX[(c as int / 16) % 16]];
        out := out + [HEX[c as int % 16]];
      } else {
        out := out + [c];
      }
    }
    assert s[..|s|] == s;
  }

  /** The decoding of the text from i on, after one turn of the loop at i. */
  lemma DecodeTurn(s: string, i: nat, out: string, whole: string)
    requires i < |s| - 2 && out + PcDecode(s[i..]) == whole
    ensures if s[i] == '%' then (out + DecodeThree(s[i + 1], s[i + 2])) + PcDecode(s[i + 3..]) == whole
            else (out + [s[i]]) + PcDecode(s[i + 1..]) == whole
  {
    var rest := s[i..];
    assert rest[1..] == s[i + 1..] && rest[3..] == s[i + 3..];
    if s[i] == '%' {
      Regroup(out, DecodeThree(s[i + 1], s[i + 2]), PcDecode(s[i + 3..]));
    } else {
      Regroup(out, [s[i]], PcDecode(s[i + 1..]));
    }
  }

  /** pc_decode(): the last two characters cannot start a code. */
  method PcDecodeText(s: string) returns (out: string)
    ensures out == PcDecode(s)
  {
    if |s| <= 2 { return s; }
    out := "";
    var i := 0;
    assert s[0..] == s;
    while i < |s| - 2
      invariant 0 <= i <= |s| && out + PcDecode(s[i..]) == PcDecode(s)
    {
      DecodeTurn(s, i, out, PcDecode(s));
      if s[i] == '%' {
        var d1, d2 := H2d(s[i + 1]), H2d(s[i + 2]);
        if d1 != -1 && d2 != -1 {
          out := out + [(d1 * 16 + d2) as char];
        } else {
          out := out + ['%', s[i + 1], s[i + 2]];
        }
        i := i + 2;
      } else {
        out := out + [s[i]];
      }
      i := i + 1;
    }
    while i < |s|
      invariant 0 <= i <= |s| && out + s[i..] == PcDecode(s)
    {
      assert s[i..] == [s[i]] + s[i + 1..];
      Regroup(out, [s[i]], s[i + 1..]);
      out := out + [s[i]];
      i := i + 1;
    }
  }

  // ---- the file ----

  type Cache = map<string, string>

  type Entry = (string, string)

  function SavedLine(e: Entry): string {
    Encode(e.0) + ['='] + Encode(e.1)
  }

  /** What the save thread writes for the entries, in the order in which they come. */
  function SavedText(entries: seq<Entry>): string {
    if entries == [] then "" else SavedLine(entries[0]) + ['\n'] + SavedText(entries[1..])
  }

  /** The entries are those of the cache, each once, in any order. */
  ghost predicate Lists(entries: seq<Entry>, cache: Cache) {
    && (forall i, j :: 0 <= i < j < |entries| ==> entries[i].0 != entries[j].0)
    && (forall i :: 0 <= i < |entries| ==> entries[i].0 in cache && cache[entries[i].0] == entries[i].1)
    && (forall k :: k in cache ==> (k, cache[k]) in entries)
  }

  datatype Got = AtEof | TooLong | Got(line: string, rest: string)

  /** istream::getline(): the end of file is seen first, then the newline, then the lack of room. */
  function ReadLine(text: string): (g: Got)
    ensures g.Got? ==> text == g.line + ['\n'] + g.rest && '\n' !in g.line && |g.line| <= LINE_MAX
  {
    var k := Find(text, '\n');
    if k > LINE_MAX then TooLong
    else if k == |text| then AtEof
    else Got(text[..k], text[k + 1..])
  }

  datatype Restored = Restored(ok: bool, cache: Cache)

  /** The entry on one line, cut at its first equals sign. */
  function TakeEntry(line: string): Option<Entry> {
    var c := CString(line);
    var k := Find(c, '=');
    if k == |c| then None else Some((PcDecode(c[..k]), PcDecode(c[k + 1..])))
  }

  function Restore(text: string, cache: Cache): Restored
    decreases |text|
  {
    match ReadLine(text)
    case AtEof => Restored(true, cache)
    case TooLong => Restored(false, cache)
    case Got(line, rest) =>
      match TakeEntry(line)
      case None => Restored(false, cache)
      case Some((key, value)) => Restore(rest, cache[key := value])
  }

  lemma SaveOneMore(entries: seq<Entry>, i: nat, out: string, whole: string)
    requires i < |entries| && out + SavedText(entries[i..]) == whole
    ensures out + (SavedLine(entries[i]) + ['\n']) + SavedText(entries[i + 1..]) == whole
  {
    assert entries[i..][1..] == entries[i + 1..];
    Regroup(out, SavedLine(entries[i]) + ['\n'], SavedText(entries[i + 1..]));
  }

  /** The loop of dmcacheSaveWorker() over the cache. */
  method Save(cache: seq<Entry>) returns (output: string)
    ensures output == SavedText(cache)
  {
    output := "";
    assert cache[0..] == cache;
    for i := 0 to |cache|
      invariant output + SavedText(cache[i..]) == SavedText(cache)
    {
      SaveOneMore(cache, i, output, SavedText(cache));
      var key := EncodeText(cache[i].0);
      var value := EncodeText(cache[i].1);
      output := output + (key + ['='] + value + ['\n']);
    }
  }

  /** The loop of dmcacheRestore(). */
  method RestoreFrom(text: string, start: Cache) returns (ok: bool, cache: Cache)
    ensures Restored(ok, cache) == Restore(text, start)
  {
    var input := text;
    cache := start;
    while true
      invariant Restore(text, start) == Restore(input, cache)
      decreases |input|
    {
      var got := ReadLine(input);
      if got.AtEof? { return true, cache; }
      if got.TooLong? { return false, cache; }
      var cline := CString(got.line);
      var cp := Find(cline, '=');
      if cp == |cline| { return false, cache; }
      var key := PcDecodeText(cline[..cp]);
      var value := PcDecodeText(cline[cp + 1..]);
      cache := cache[key := value];
      input := got.rest;
    }
  }

  // ---- any file ----

  /** A line with a key and a value, or without an equals sign; what a NUL hides does not count. */
  datatype FileLine = Pair(key: string, value: string, hidden: string) | NoPair(text: string, hidden: string)

  function LineText(l: FileLine): string {
    match l
    case Pair(key, value, hidden) => key + ['='] + value + hidden
    case NoPair(text, hidden) => text + hidden
  }

  predicate LineOk(l: FileLine) {
    && '\n' !in LineText(l) && (l.hidden == "" || l.hidden[0] == '\0')
    && match l
       case Pair(key, value, _) => '=' !in key && '\0' !in key && '\0' !in value
       case NoPair(text, _) => '=' !in text && '\0' !in text
  }

  /** The lines, and what follows the last newline. */
  function FileText(lines: seq<FileLine>, tail: string): string {
    if lines == [] then tail else LineText(lines[0]) + ['\n'] + FileText(lines[1..], tail)
  }

  /** getline() is given 20479 bytes, and needs one for the final zero. */
  predicate Fits(text: string) {
    |text| < 20479
  }

  /** The keys and values of the lines, up to the first one that is too long or has no equals sign, which is an error.
      The last line does not count without its newline, but must not be too long either. */
  function FileMeans(lines: seq<FileLine>, tail: string, cache: Cache): Restored
    decreases |lines|
  {
    if lines == [] then Restored(Fits(tail), cache)
    else if lines[0].NoPair? || !Fits(LineText(lines[0])) then Restored(false, cache)
    else FileMeans(lines[1..], tail, cache[PcDecode(lines[0].key) := PcDecode(lines[0].value)])
  }

  lemma HiddenCut(text: string, hidden: string)
    requires '\0' !in text && (hidden == "" || hidden[0] == '\0')
    ensures CString(text + hidden) == text
  {
    if hidden == "" {
      assert text + hidden == text;
    } else {
      assert hidden == ['\0'] + hidden[1..];
      Regroup(text, ['\0'], hidden[1..]);
      FindAfter(text, '\0', hidden[1..]);
    }
  }

  lemma LineTaken(l: FileLine)
    requires LineOk(l)
    ensures TakeEntry(LineText(l)) == if l.NoPair? then None else Some((PcDecode(l.key), PcDecode(l.value)))
  {
    match l
    case Pair(key, value, hidden) =>
      HiddenCut(key + ['='] + value, hidden);
      FindAfter(key, '=', value);
    case NoPair(text, hidden) => HiddenCut(text, hidden);
  }

  lemma LineRead(line: string, rest: string)
    requires '\n' !in line
    ensures ReadLine(line + ['\n'] + rest) == if Fits(line) then Got(line, rest) else TooLong
  {
    FindAfter(line, '\n', rest);
  }

  /** What any file is read as. */
  lemma {:induction false} FileRead(lines: seq<FileLine>, tail: string, start: Cache)
    requires (forall i :: 0 <= i < |lines| ==> LineOk(lines[i])) && '\n' !in tail
    ensures Restore(FileText(lines, tail), start) == FileMeans(lines, tail, start)
    decreases |lines|
  {
    if lines != [] {
      var l := lines[0];
      LineTaken(l);
      LineRead(LineText(l), FileText(lines[1..], tail));
      if l.Pair? { FileRead(lines[1..], tail, start[PcDecode(l.key) := PcDecode(l.value)]); }
    }
  }

  lemma LineIs(line: string) returns (l: FileLine)
    requires '\n' !in line
    ensures LineOk(l) && LineText(l) == line
  {
    var c := CString(line);
    var hidden := line[|c|..];
    var k := Find(c, '=');
    l := if k == |c| then NoPair(c, hidden) else Pair(c[..k], c[k + 1..], hidden);
    assert line == c + hidden;
    if k < |c| { assert c == c[..k] + ['='] + c[k + 1..]; }
  }

  /** And every text is such a file. */
  lemma {:induction false} EveryFile(text: string) returns (lines: seq<FileLine>, tail: string)
    ensures (forall i :: 0 <= i < |lines| ==> LineOk(lines[i])) && '\n' !in tail && text == FileText(lines, tail)
    decreases |text|
  {
    var k := Find(text, '\n');
    if k == |text| {
      lines, tail := [], text;
    } else {
      var l := LineIs(text[..k]);
      var more;
      more, tail := EveryFile(text[k + 1..]);
      lines := [l] + more;
      assert lines[1..] == more && text == text[..k] + ['\n'] + text[k + 1..];
    }
  }

  // ---- the round trip ----

  /** An entry whose line can be read: it fits in the buffer, and no NUL hides the equals sign. */
  predicate Readable(e: Entry) {
    Fits(SavedLine(e)) && '\0' !in e.0
  }

  lemma SavedLineHasNoNewline(e: Entry)
    ensures '\n' !in SavedLine(e)
  {
    EncodedIsClean(e.0, '\n');
    EncodedIsClean(e.1, '\n');
  }

  /** Where a NUL cuts the encoded text, it cuts the text. */
  lemma {:induction false} CutEncoded(s: string)
    ensures CString(Encode(s)) == Encode(CString(s))
  {
    if s != "" {
      CutEncoded(s[1..]);
      var e, t := EncodeChar(s[0]), Encode(s[1..]);
      if s[0] == '\0' {
        assert Encode(s)[0] == '\0';
      } else {
        CutAfter(e, t);
        CutFirst(s);
      }
    }
  }

  lemma CutFirst(s: string)
    requires s != "" && s[0] != '\0'
    ensures Encode(CString(s)) == EncodeChar(s[0]) + Encode(CString(s[1..]))
  {
    CutAfter([s[0]], s[1..]);
    assert [s[0]] + s[1..] == s;
    var c := CString(s);
    assert c[0] == s[0] && c[1..] == CString(s[1..]);
  }

  lemma CutAfter(a: string, b: string)
    requires '\0' !in a
    ensures CString(a + b) == a + CString(b)
  {
    var r := CString(a + b);
    var k := |a| + Find(b, '\0');
    assert forall j :: 0 <= j < k ==> (a + b)[j] != '\0';
    assert k < |a + b| ==> (a + b)[k] == '\0';
    assert |r| == k;
  }

  /** One saved line, read back: a key with a NUL makes it unreadable, a value is cut at its first NUL. */
  lemma LineReadBack(key: string, value: string)
    ensures TakeEntry(SavedLine((key, value))) == if '\0' in key then None else Some((key, CString(value)))
  {
    var k, v, line := Encode(key), Encode(value), SavedLine((key, value));
    EncodedIsClean(key, '\0');
    EncodedIsClean(key, '=');
    if '\0' in key {
      assert line == k + (['='] + v);
      CutInside(k, ['='] + v);
    } else {
      CutAfter(k + ['='], v);
      CutEncoded(value);
      FindAfter(k, '=', Encode(CString(value)));
      DecodeEncode(key);
      DecodeEncode(CString(value));
    }
  }

  lemma CutInside(a: string, b: string)
    requires '\0' in a
    ensures CString(a + b) == CString(a)
  {
    var k := Find(a, '\0');
    assert (a + b)[k] == '\0' && forall j :: 0 <= j < k ==> (a + b)[j] == a[j] != '\0';
    assert Find(a + b, '\0') == k;
  }

  function Cut(e: Entry): Entry {
    (e.0, CString(e.1))
  }

  /** The entries as they come back. */
  function CutAll(entries: seq<Entry>): (r: seq<Entry>)
    ensures |r| == |entries| && forall i :: 0 <= i < |r| ==> r[i] == Cut(entries[i])
  {
    if entries == [] then [] else [Cut(entries[0])] + CutAll(entries[1..])
  }

  /** The entries put in a cache one after the other. */
  function PutAll(cache: Cache, entries: seq<Entry>): Cache
    decreases |entries|
  {
    if entries == [] then cache else PutAll(cache[entries[0].0 := entries[0].1], entries[1..])
  }

  /** Reading goes on after the first saved line exactly when that line is readable. */
  lemma RestoreStep(e: Entry, rest: string, start: Cache)
    ensures Restore(SavedLine(e) + ['\n'] + rest, start)
         == if Readable(e) then Restore(rest, start[e.0 := CString(e.1)]) else Restored(false, start)
  {
    SavedLineHasNoNewline(e);
    LineRead(SavedLine(e), rest);
    LineReadBack(e.0, e.1);
  }

  /** How many entries come before the first one that cannot be read. */
  function ReadableFirst(entries: seq<Entry>): (r: nat)
    ensures r <= |entries|
    ensures forall i :: 0 <= i < r ==> Readable(entries[i])
    ensures r < |entries| ==> !Readable(entries[r])
  {
    if entries == [] || !Readable(entries[0]) then 0 else 1 + ReadableFirst(entries[1..])
  }

  /** Reading the file back: it stops with an error at the first entry that cannot be read, and values are cut. */
  lemma {:induction false} RestoreSaved(entries: seq<Entry>, start: Cache, r: nat)
    requires r == ReadableFirst(entries)
    ensures Restore(SavedText(entries), start) == Restored(r == |entries|, PutAll(start, CutAll(entries[..r])))
    decreases |entries|
  {
    if entries != [] {
      var e, rest := entries[0], entries[1..];
      RestoreStep(e, SavedText(rest), start);
      if r > 0 {
        RestoreSaved(rest, start[e.0 := CString(e.1)], r - 1);
        CutAllFirst(entries, r);
      }
    }
  }

  lemma CutAllFirst(entries: seq<Entry>, r: nat)
    requires 0 < r <= |entries|
    ensures CutAll(entries[..r]) == [Cut(entries[0])] + CutAll(entries[1..][..r - 1])
    ensures CutAll(entries[..r])[1..] == CutAll(entries[1..][..r - 1])
  {
    assert entries[..r][1..] == entries[1..][..r - 1];
  }

  /** With distinct keys the entries put are those found, and the only ones. */
  lemma {:induction false} PutAllFinds(cache: Cache, entries: seq<Entry>, k: string)
    requires forall i, j :: 0 <= i < j < |entries| ==> entries[i].0 != entries[j].0
    ensures forall i :: 0 <= i < |entries| && entries[i].0 == k ==>
              k in PutAll(cache, entries) && PutAll(cache, entries)[k] == entries[i].1
    ensures (forall i :: 0 <= i < |entries| ==> entries[i].0 != k) ==>
              (k in PutAll(cache, entries) <==> k in cache) &&
              (k in cache ==> PutAll(cache, entries)[k] == cache[k])
    decreases |entries|
  {
    if entries != [] {
      PutAllFinds(cache[entries[0].0 := entries[0].1], entries[1..], k);
      assert forall i :: 0 < i < |entries| ==> entries[i] == entries[1..][i - 1];
    }
  }

  /** The listed entries, cut or not, make up the cache exactly when none of them was cut. */
  lemma PutAllListed(entries: seq<Entry>, cache: Cache)
    requires Lists(entries, cache)
    ensures PutAll(map[], CutAll(entries)) == cache <==> forall k :: k in cache ==> '\0' !in cache[k]
  {
    var cut := CutAll(entries);
    var got := PutAll(map[], cut);
    forall k ensures k in got <==> k in cache
             ensures k in cache ==> got[k] == CString(cache[k])
    {
      PutAllFinds(map[], cut, k);
      if k in cache {
        var i :| 0 <= i < |entries| && entries[i] == (k, cache[k]);
        assert cut[i].0 == k;
      } else {
        assert forall i :: 0 <= i < |cut| ==> cut[i].0 in cache;
      }
    }
  }

  /** The file gives back the cache it was made from, in whatever order the entries were written, exactly when
      no key or value has a NUL and every line fits in the buffer. */
  lemma CacheRoundTripIff(entries: seq<Entry>, cache: Cache)
    requires Lists(entries, cache)
    ensures Restore(SavedText(entries), map[]) == Restored(true, cache)
       <==> forall k :: k in cache ==> Readable((k, cache[k])) && '\0' !in cache[k]
  {
    var r := ReadableFirst(entries);
    RestoreSaved(entries, map[], r);
    AllReadable(entries, cache, r);
    if r == |entries| {
      assert entries[..r] == entries;
      PutAllListed(entries, cache);
    }
  }

  lemma AllReadable(entries: seq<Entry>, cache: Cache, r: nat)
    requires Lists(entries, cache) && r == ReadableFirst(entries)
    ensures r == |entries| <==> forall k :: k in cache ==> Readable((k, cache[k]))
  {
    if r == |entries| {
      forall k | k in cache ensures Readable((k, cache[k])) {
        var i :| 0 <= i < |entries| && entries[i] == (k, cache[k]);
        assert Readable(entries[i]);
      }
    } else {
      var e := entries[r];
      assert e == (e.0, cache[e.0]) && !Readable(e);
    }
  }

  // ---- a file cut short ----

  /** How many of the saved lines are whole in the first n characters of the file. */
  function WholeLines(entries: seq<Entry>, n: nat): (w: nat)
    ensures w <= |entries|
  {
    if entries == [] || n <= |SavedLine(entries[0])| then 0
    else 1 + WholeLines(entries[1..], n - |SavedLine(entries[0])| - 1)
  }

  /** They are the most that the n characters can hold. */
  lemma {:induction false} WholeLinesIs(entries: seq<Entry>, n: nat, w: nat)
    requires w == WholeLines(entries, n)
    ensures |SavedText(entries[..w])| <= n
    ensures w < |entries| ==> n < |SavedText(entries[..w + 1])|
    decreases |entries|
  {
    if w > 0 {
      WholeLinesIs(entries[1..], n - |SavedLine(entries[0])| - 1, w - 1);
      assert entries[..w][1..] == entries[1..][..w - 1];
    }
    if w < |entries| {
      assert entries[..w + 1][1..] == entries[1..][..w];
    }
  }

  /** A line whose newline did not get written is dropped. */
  lemma TornLine(line: string, rest: string, start: Cache, n: nat)
    requires '\n' !in line && n <= |line| && Fits(line)
    ensures Restore((line + ['\n'] + rest)[..n], start) == Restored(true, start)
  {
    assert (line + ['\n'] + rest)[..n] == line[..n];
  }

  lemma TornLater(line: string, rest: string, n: nat)
    requires |line| < n <= |line| + 1 + |rest|
    ensures (line + ['\n'] + rest)[..n] == line + ['\n'] + rest[..n - |line| - 1]
  {
  }

  lemma TornStep(e: Entry, later: string, start: Cache, n: nat)
    requires Readable(e) && n <= |SavedLine(e)| + 1 + |later|
    ensures Restore((SavedLine(e) + ['\n'] + later)[..n], start)
         == if n <= |SavedLine(e)| then Restored(true, start)
            else Restore(later[..n - |SavedLine(e)| - 1], start[e.0 := CString(e.1)])
  {
    var line := SavedLine(e);
    SavedLineHasNoNewline(e);
    if n <= |line| {
      TornLine(line, later, start, n);
    } else {
      TornLater(line, later, n);
      RestoreStep(e, later[..n - |line| - 1], start);
    }
  }

  /** A file whose writing was cut short anywhere still reads without error, and gives exactly the entries whose
      lines were wholly written. */
  lemma {:induction false} TornFile(entries: seq<Entry>, start: Cache, n: nat, torn: string, w: nat)
    requires forall i :: 0 <= i < |entries| ==> Readable(entries[i])
    requires n <= |SavedText(entries)| && torn == SavedText(entries)[..n] && w == WholeLines(entries, n)
    ensures Restore(torn, start) == Restored(true, PutAll(start, CutAll(entries[..w])))
    decreases |entries|
  {
    if w == 0 {
      TornNone(entries, start, n, torn);
      NothingWhole(entries[..w], start);
    } else {
      var next, left, short := TornMore(entries, start, n, torn);
      TornFile(entries[1..], next, left, short, w - 1);
      PutFirst(entries, w, start);
    }
  }

  /** One whole line, and the file after it. */
  lemma TornMore(entries: seq<Entry>, start: Cache, n: nat, torn: string)
    returns (next: Cache, left: nat, short: string)
    requires forall i :: 0 <= i < |entries| ==> Readable(entries[i])
    requires n <= |SavedText(entries)| && torn == SavedText(entries)[..n] && WholeLines(entries, n) > 0
    ensures left <= |SavedText(entries[1..])| && short == SavedText(entries[1..])[..left]
    ensures WholeLines(entries[1..], left) == WholeLines(entries, n) - 1
    ensures next == start[entries[0].0 := CString(entries[0].1)] && Restore(torn, start) == Restore(short, next)
  {
    var e, later := entries[0], SavedText(entries[1..]);
    next, left := start[e.0 := CString(e.1)], n - |SavedLine(e)| - 1;
    short := later[..left];
    assert SavedText(entries) == SavedLine(e) + ['\n'] + later;
    TornStep(e, later, start, n);
  }

  lemma TornNone(entries: seq<Entry>, start: Cache, n: nat, torn: string)
    requires forall i :: 0 <= i < |entries| ==> Readable(entries[i])
    requires n <= |SavedText(entries)| && torn == SavedText(entries)[..n] && WholeLines(entries, n) == 0
    ensures Restore(torn, start) == Restored(true, start)
  {
    if entries != [] {
      TornStep(entries[0], SavedText(entries[1..]), start, n);
    }
  }

  lemma PutFirst(entries: seq<Entry>, w: nat, start: Cache)
    requires 0 < w <= |entries|
    ensures PutAll(start, CutAll(entries[..w]))
         == PutAll(start[entries[0].0 := CString(entries[0].1)], CutAll(entries[1..][..w - 1]))
  {
    CutAllFirst(entries, w);
  }

  lemma NothingWhole(entries: seq<Entry>, start: Cache)
    requires entries == []
    ensures PutAll(start, CutAll(entries)) == start
  {
  }
}
