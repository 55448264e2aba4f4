/** The ini format of src/conftree.cpp on values: what parsing a text yields and what is printed.
    Names and sections are case-sensitive, values are trimmed, no tilde expansion. */
module ConfText {
  import opened Strings

  /** One presentation line (ConfLine). */
  datatype ConfLine =
    | Comment(data: string)
    | VarComment(data: string, aux: string)
    | Sk(data: string)
    | Var(data: string, value: string)

  type Submaps = map<string, map<string, string>>

  /** The data (m_submaps) and the presentation (m_order, m_subkeys_unsorted). */
  datatype Conf = Conf(submaps: Submaps, order: seq<ConfLine>, subkeys: seq<string>)

  const EMPTY := Conf(map[], [], [])

  predicate HasEol(s: string) {
    '\n' in s || '\r' in s
  }

  predicate Live(m: Submaps, sk: string, nm: string) {
    sk in m && nm in m[sk]
  }

  function Put(m: Submaps, sk: string, nm: string, val: string): Submaps {
    m[sk := (if sk in m then m[sk] else map[])[nm := val]]
  }

  // ---------- storing a variable (i_set) ----------

  /** A new section gets an SK entry unless a dead one is still there. */
  function EnsureSk(c: Conf, sk: string): seq<ConfLine> {
    if sk !in c.submaps && sk != "" && Sk(sk) !in c.order then c.order + [Sk(sk)] else c.order
  }

  /** i_set() while parsing: new variables go to the end of the presentation. */
  function SetInit(c: Conf, nm: string, val: string, sk: string): Conf {
    if HasEol(val) then c
    else if Live(c.submaps, sk, nm) then c.(submaps := Put(c.submaps, sk, nm, val))
    else c.(submaps := Put(c.submaps, sk, nm, val), order := EnsureSk(c, sk) + [Var(nm, val)])
  }

  /** First entry at or after i that satisfies f. */
  function FirstFrom(order: seq<ConfLine>, i: nat, end: nat, f: ConfLine -> bool): (k: nat)
    requires i <= end <= |order|
    ensures i <= k <= end
    ensures forall j :: i <= j < k ==> !f(order[j])
    ensures k < end ==> f(order[k])
    decreases end - i
  {
    if i == end || f(order[i]) then i else FirstFrom(order, i + 1, end, f)
  }

  function IsSk(sk: string): ConfLine -> bool {
    (l: ConfLine) => l == Sk(sk)
  }

  function AnySk(): ConfLine -> bool {
    (l: ConfLine) => l.Sk?
  }

  function VarNamed(nm: string): ConfLine -> bool {
    (l: ConfLine) => l.Var? && l.data == nm
  }

  function CommentedOut(nm: string): ConfLine -> bool {
    (l: ConfLine) => l.VarComment? && l.aux == nm
  }

  /** Where the zone of a section starts: None is the "logical failure" that aborts the program. */
  function ZoneStart(order: seq<ConfLine>, sk: string): (r: Option<nat>)
    ensures r.Some? ==> r.value <= |order|
  {
    if sk == "" then Some(0)
    else
      var k := FirstFrom(order, 0, |order|, IsSk(sk));
      if k == |order| then None else Some(k + 1)
  }

  function ZoneEnd(order: seq<ConfLine>, start: nat): (k: nat)
    requires start <= |order|
    ensures start <= k <= |order|
  {
    FirstFrom(order, start, |order|, AnySk())
  }

  function InsertAt(order: seq<ConfLine>, pos: nat, line: ConfLine): seq<ConfLine>
    requires pos <= |order|
  {
    order[..pos] + [line] + order[pos..]
  }

  /** A new variable goes behind its commented-out assignment, or to the end of its zone;
      an entry left behind by an erase is used again. */
  function PlaceVar(order: seq<ConfLine>, start: nat, nm: string): seq<ConfLine>
    requires start <= |order|
  {
    var fin := ZoneEnd(order, start);
    if FirstFrom(order, start, fin, VarNamed(nm)) < fin then order
    else
      var vc := FirstFrom(order, start, fin, CommentedOut(nm));
      InsertAt(order, if vc < fin then vc + 1 else fin, Var(nm, ""))
  }

  /** i_set() on a parsed object. */
  function SetEdit(c: Conf, nm: string, val: string, sk: string): Option<Conf> {
    if HasEol(val) then Some(c)
    else if Live(c.submaps, sk, nm) then Some(c.(submaps := Put(c.submaps, sk, nm, val)))
    else
      var order := EnsureSk(c, sk);
      match ZoneStart(order, sk)
      case None => None
      case Some(start) =>
        Some(c.(submaps := Put(c.submaps, sk, nm, val), order := PlaceVar(order, start, nm)))
  }

  /** erase(): the presentation is left alone. */
  function EraseVar(c: Conf, nm: string, sk: string): Conf {
    if sk !in c.submaps then c
    else
      var rest := c.submaps[sk] - {nm};
      c.(submaps := if rest == map[] then c.submaps - {sk} else c.submaps[sk := rest])
  }

  // ---------- parsing ----------

  predicate IsAlnum(c: char) {
    'a' <= c <= 'z' || 'A' <= c <= 'Z' || '0' <= c <= '9'
  }

  function SkipWhile(s: string, i: nat, f: char -> bool): (k: nat)
    requires i <= |s|
    ensures i <= k <= |s|
    decreases |s| - i
  {
    if i < |s| && f(s[i]) then SkipWhile(s, i + 1, f) else i
  }

  /** The name in a commented-out assignment: the first "# name =" found in the line. */
  function VarCommentName(line: string, h: nat): Option<string>
    requires h <= |line|
    decreases |line| - h
  {
    if h == |line| then None
    else
      var a := SkipWhile(line, h + 1, c => c in BLANKS);
      var b := SkipWhile(line, a, IsAlnum);
      var e := SkipWhile(line, b, c => c in BLANKS);
      if line[h] == '#' && a < b && e < |line| && line[e] == '=' then Some(line[a..b])
      else VarCommentName(line, h + 1)
  }

  predicate IsNoteLine(line: string) {
    line == "" || line[0] == '#'
  }

  /** The presentation entry of a line that sets nothing; the regular expression matches a C string. */
  function NoteEntry(line: string): ConfLine {
    if !IsNoteLine(line) then Comment(line)
    else
      match VarCommentName(CString(line), 0)
      case Some(nm) => VarComment(line, nm)
      case None => Comment(line)
  }

  function AddNote(c: Conf, line: string): Conf {
    c.(order := c.order + [NoteEntry(line)])
  }

  /** A complete logical line: a section, an assignment, or neither. */
  function LogicalLine(c: Conf, sk: string, line: string): (Conf, string)
    requires !IsNoteLine(line)
  {
    if line[0] == '[' then
      var k := Trim(line, "[] \t");
      (c.(order := c.order + [Sk(k)], subkeys := c.subkeys + [k]), k)
    else
      var eq := Find(line, '=');
      if eq == |line| then (AddNote(c, line), sk)
      else
        var nm := Trim(line[..eq], BLANKS);
        if nm == "" then (AddNote(c, line), sk)
        else (SetInit(c, nm, Trim(line[eq + 1..], BLANKS), sk), sk)
  }

  /** The parser between two physical lines: the pending text is that of a continued line. */
  datatype Parser = Parser(conf: Conf, sk: string, pending: Option<string>)

  function StripEol(s: string): string {
    TrimRight(s, EOLS)
  }

  function Joined(p: Parser, cline: string): (line: string)
    ensures Trimmed(line, BLANKS)
    ensures |line| <= |cline| + (if p.pending.Some? then |p.pending.value| else 0)
  {
    Trim((if p.pending.Some? then p.pending.value else "") + StripEol(cline), BLANKS)
  }

  /** One physical line. A note inside a continued line does not end the continuation. */
  function Step(p: Parser, cline: string): Parser {
    var line := Joined(p, cline);
    if IsNoteLine(line) then
      Parser(AddNote(p.conf, line), p.sk, if p.pending.Some? then Some(line) else None)
    else if line[|line| - 1] == '\\' then p.(pending := Some(line[..|line| - 1]))
    else
      var (c, k) := LogicalLine(p.conf, p.sk, line);
      Parser(c, k, None)
  }

  /** What follows the last newline, and then the empty lines read at the end of the input. */
  function Final(p: Parser, cline: string): Conf
    decreases |cline| + if p.pending.Some? then |p.pending.value| else 0
  {
    var line := Joined(p, cline);
    if IsNoteLine(line) then p.conf
    else if line[|line| - 1] == '\\' then Final(p.(pending := Some(line[..|line| - 1])), "")
    else LogicalLine(p.conf, p.sk, line).0
  }

  function ParseText(p: Parser, text: string): Conf
    decreases |text|
  {
    var i := Find(text, '\n');
    if i == |text| then Final(p, text) else ParseText(Step(p, text[..i]), text[i + 1..])
  }

  /** parseinput() into an empty object. */
  function Parse(text: string): Conf {
    ParseText(Parser(EMPTY, "", None), text)
  }

  // ---------- printing ----------

  /** A long value: a continuation after white space past column 50, when enough is left. */
  function FoldFrom(value: string, pos: nat, ll: nat): string
    requires pos <= |value|
    decreases |value| - pos
  {
    if pos == |value| then ""
    else
      var c := value[pos];
      if ll + 1 > 50 && |value| - pos > 10 && c in BLANKS then
        [c] + "\\\n" + FoldFrom(value, pos + 1, 0)
      else [c] + FoldFrom(value, pos + 1, ll + 1)
  }

  /** varprinter() */
  function VarText(nm: string, value: string): string {
    if nm == "" then "\n[" + value + "]\n"
    else nm + " = " + (if |nm| + |value| < 75 then value else FoldFrom(value, 0, 0)) + "\n"
  }

  /** The section an entry belongs to: the nearest SK entry before it. */
  function SecAt(order: seq<ConfLine>, i: nat): string
    requires i <= |order|
  {
    if i == 0 then "" else if order[i - 1].Sk? then order[i - 1].data else SecAt(order, i - 1)
  }

  function LineText(order: seq<ConfLine>, i: nat, m: Submaps): string
    requires i < |order|
  {
    match order[i]
    case Comment(d) => d + "\n"
    case VarComment(d, _) => d + "\n"
    case Sk(k) => if k in m then "[" + k + "]" + "\n" else ""
    case Var(nm, _) =>
      var sk := SecAt(order, i);
      if Live(m, sk, nm) then VarText(nm, m[sk][nm]) else ""
  }

  function OrderText(order: seq<ConfLine>, i: nat, m: Submaps): string
    requires i <= |order|
    decreases |order| - i
  {
    if i == |order| then "" else LineText(order, i, m) + OrderText(order, i + 1, m)
  }

  function NamesText(names: seq<string>, vars: map<string, string>): string
    requires forall nm :: nm in names ==> nm in vars
  {
    if names == [] then "" else VarText(names[0], vars[names[0]]) + NamesText(names[1..], vars)
  }

  /** sortwalk() hands a section name over as a C string. */
  function HeaderText(k: string): string {
    if k == "" then "" else VarText("", CString(k))
  }

  /** content_write(): the data alone, in the order of the maps. */
  ghost function ContentFrom(keys: seq<string>, m: Submaps): string
    requires forall k :: k in keys ==> k in m
  {
    if keys == [] then ""
    else
      HeaderText(keys[0])
      + NamesText(Sorted(m[keys[0]].Keys), m[keys[0]]) + ContentFrom(keys[1..], m)
  }

  ghost function ContentText(m: Submaps): string {
    ContentFrom(Sorted(m.Keys), m)
  }

  /** write(): the content alone when there is no presentation. */
  ghost function WriteText(c: Conf): string {
    if c.order == [] then ContentText(c.submaps) else OrderText(c.order, 0, c.submaps)
  }
}
