/** What a text and the edits after it say about a variable: the last word counts (src/conftree.cpp). */
module ConfMeaning {
  import opened Strings
  import opened ConfText
  import opened ConfRoundTrip
  import opened ConfRewrite
  import opened ConfRuns
  import opened ConfParsed

  function Lookup(m: Submaps, sk: string, nm: string): Option<string> {
    if Live(m, sk, nm) then Some(m[sk][nm]) else None
  }

  // ---------- the assignments of a text ----------

  datatype Assign = Assign(sk: string, nm: string, val: string)

  /** What a complete logical line assigns: a name, and a value without line ends. */
  function LineSays(sk: string, line: string): seq<Assign>
    requires !IsNoteLine(line)
  {
    var eq := Find(line, '=');
    if line[0] == '[' || eq == |line| then []
    else
      var nm, val := Trim(line[..eq], BLANKS), Trim(line[eq + 1..], BLANKS);
      if nm == "" || HasEol(val) then [] else [Assign(sk, nm, val)]
  }

  function StepSays(p: Parser, cline: string): seq<Assign> {
    var line := Joined(p, cline);
    if IsNoteLine(line) || line[|line| - 1] == '\\' then [] else LineSays(p.sk, line)
  }

  function FinalSays(p: Parser, cline: string): seq<Assign>
    decreases |cline| + if p.pending.Some? then |p.pending.value| else 0
  {
    var line := Joined(p, cline);
    if IsNoteLine(line) then []
    else if line[|line| - 1] == '\\' then FinalSays(p.(pending := Some(line[..|line| - 1])), "")
    else LineSays(p.sk, line)
  }

  /** All assignments of a text, in order, with the section they stand in. */
  function Says(p: Parser, text: string): seq<Assign>
    decreases |text|
  {
    var i := Find(text, '\n');
    if i == |text| then FinalSays(p, text)
    else StepSays(p, text[..i]) + Says(Step(p, text[..i]), text[i + 1..])
  }

  predicate About(a: Assign, sk: string, nm: string) {
    a.sk == sk && a.nm == nm
  }

  /** The value that the last assignment gives, the earlier one when there is none. */
  predicate LastSaid(says: seq<Assign>, sk: string, nm: string, before: Option<string>, r: Option<string>) {
    || (exists i :: 0 <= i < |says| && About(says[i], sk, nm) && r == Some(says[i].val)
          && forall j :: i < j < |says| ==> !About(says[j], sk, nm))
    || (r == before && forall j :: 0 <= j < |says| ==> !About(says[j], sk, nm))
  }

  lemma SaidTwice(a: seq<Assign>, b: seq<Assign>, sk: string, nm: string, x: Option<string>, y: Option<string>,
                  z: Option<string>)
    requires LastSaid(a, sk, nm, x, y) && LastSaid(b, sk, nm, y, z)
    ensures LastSaid(a + b, sk, nm, x, z)
  {
    var ab := a + b;
    assert forall j :: 0 <= j < |ab| ==> ab[j] == if j < |a| then a[j] else b[j - |a|];
    if i :| 0 <= i < |b| && About(b[i], sk, nm) && z == Some(b[i].val)
            && forall j :: i < j < |b| ==> !About(b[j], sk, nm) {
      assert About(ab[|a| + i], sk, nm);
    } else if i :| 0 <= i < |a| && About(a[i], sk, nm) && y == Some(a[i].val)
                   && forall j :: i < j < |a| ==> !About(a[j], sk, nm) {
      assert About(ab[i], sk, nm);
    }
  }

  lemma LookupPut(m: Submaps, sk: string, nm: string, val: string, s: string, n: string)
    ensures Lookup(Put(m, sk, nm, val), s, n) == if s == sk && n == nm then Some(val) else Lookup(m, s, n)
  {
  }

  /** An assignment that is parsed, the first of its name or not. */
  lemma AssignmentCounts(c: Conf, nm: string, val: string, sk: string, s: string, n: string)
    ensures Lookup(SetInit(c, nm, val, sk).submaps, s, n)
         == if !HasEol(val) && s == sk && n == nm then Some(val) else Lookup(c.submaps, s, n)
  {
    LookupPut(c.submaps, sk, nm, val, s, n);
  }

  lemma LineCounts(c: Conf, sk: string, line: string, r: Conf, s: string, n: string)
    requires !IsNoteLine(line) && r == LogicalLine(c, sk, line).0
    ensures LastSaid(LineSays(sk, line), s, n, Lookup(c.submaps, s, n), Lookup(r.submaps, s, n))
  {
    var eq := Find(line, '=');
    if line[0] != '[' && eq < |line| {
      var nm, val := Trim(line[..eq], BLANKS), Trim(line[eq + 1..], BLANKS);
      AssignmentCounts(c, nm, val, sk, s, n);
      if nm != "" && !HasEol(val) {
        assert LineSays(sk, line) == [Assign(sk, nm, val)];
        assert About([Assign(sk, nm, val)][0], s, n) <==> s == sk && n == nm;
      }
    }
  }

  lemma StepCounts(p: Parser, cline: string, r: Parser, s: string, n: string)
    requires r == Step(p, cline)
    ensures LastSaid(StepSays(p, cline), s, n, Lookup(p.conf.submaps, s, n), Lookup(r.conf.submaps, s, n))
  {
    var line := Joined(p, cline);
    if !IsNoteLine(line) && line[|line| - 1] != '\\' {
      LineCounts(p.conf, p.sk, line, LogicalLine(p.conf, p.sk, line).0, s, n);
      StepCompletes(p, cline, LogicalLine(p.conf, p.sk, line));
    }
  }

  lemma {:induction false} FinalCounts(p: Parser, cline: string, r: Conf, s: string, n: string)
    requires r == Final(p, cline)
    ensures LastSaid(FinalSays(p, cline), s, n, Lookup(p.conf.submaps, s, n), Lookup(r.submaps, s, n))
    decreases |cline| + if p.pending.Some? then |p.pending.value| else 0
  {
    var line := Joined(p, cline);
    if !IsNoteLine(line) {
      if line[|line| - 1] == '\\' {
        FinalCounts(p.(pending := Some(line[..|line| - 1])), "", r, s, n);
      } else {
        LineCounts(p.conf, p.sk, line, r, s, n);
      }
    }
  }

  /** Every text: each variable has the value of the last assignment to its name in its section, and one that the text
      does not assign is as it was. */
  lemma {:induction false} LastAssignmentCounts(p: Parser, text: string, r: Conf, sk: string, nm: string)
    requires r == ParseText(p, text)
    ensures LastSaid(Says(p, text), sk, nm, Lookup(p.conf.submaps, sk, nm), Lookup(r.submaps, sk, nm))
    decreases |text|
  {
    var i := Find(text, '\n');
    if i == |text| {
      FinalCounts(p, text, r, sk, nm);
    } else {
      var q := Step(p, text[..i]);
      StepCounts(p, text[..i], q, sk, nm);
      LastAssignmentCounts(q, text[i + 1..], r, sk, nm);
      SaidTwice(StepSays(p, text[..i]), Says(q, text[i + 1..]), sk, nm, Lookup(p.conf.submaps, sk, nm),
                Lookup(q.conf.submaps, sk, nm), Lookup(r.submaps, sk, nm));
    }
  }

  /** The same of all variables at once. */
  ghost predicate AllLastSaid(says: seq<Assign>, before: Submaps, after: Submaps) {
    forall sk, nm :: LastSaid(says, sk, nm, Lookup(before, sk, nm), Lookup(after, sk, nm))
  }

  lemma AllLastAssignmentsCount(p: Parser, text: string, r: Conf)
    requires r == ParseText(p, text)
    ensures AllLastSaid(Says(p, text), p.conf.submaps, r.submaps)
  {
    forall sk, nm ensures LastSaid(Says(p, text), sk, nm, Lookup(p.conf.submaps, sk, nm), Lookup(r.submaps, sk, nm)) {
      LastAssignmentCounts(p, text, r, sk, nm);
    }
  }

  /** A printed variable replaces the value there was. */
  lemma PrintedVarCounts(p: Parser, nm: string, v: string)
    requires p.pending.None? && WfName(nm) && WfValue(v)
    ensures ParseText(p, VarText(nm, v)).submaps == Put(p.conf.submaps, p.sk, nm, v)
  {
    assert VarText(nm, v) + "" == VarText(nm, v);
    VarParsed(p, nm, v, "");
    NothingLeft(p.(conf := SetInit(p.conf, nm, v, p.sk)));
  }

  // ---------- lines in any layout ----------

  /** White space around the name, around the value and at the end, and carriage returns. */
  datatype Layout = Layout(b1: string, b2: string, b3: string, b4: string, crs: string)

  predicate LayoutOk(l: Layout) {
    AllIn(l.b1, BLANKS) && AllIn(l.b2, BLANKS) && AllIn(l.b3, BLANKS) && AllIn(l.b4, BLANKS) && AllIn(l.crs, EOLS)
  }

  function AssignmentLine(nm: string, v: string, l: Layout): string {
    l.b1 + (nm + l.b2 + "=" + (l.b3 + v)) + l.b4 + l.crs
  }

  lemma AnyAssignment(p: Parser, nm: string, v: string, l: Layout, cline: string)
    requires p.pending.None? && WfName(nm) && WfValue(v) && LayoutOk(l) && cline == AssignmentLine(nm, v, l)
    ensures StepSays(p, cline) == [Assign(p.sk, nm, v)]
    ensures Step(p, cline).sk == p.sk && Step(p, cline).pending.None?
  {
    var text := AssignmentTrimmed(nm, v, l, cline);
    NormAssigns(p, cline, text, Find(text, '='), nm, v);
  }

  lemma NormAssigns(p: Parser, cline: string, text: string, eq: nat, nm: string, v: string)
    requires p.pending.None? && WfName(nm) && WfValue(v)
    requires Norm(cline) == text && text != "" && text[0] == nm[0] && text[|text| - 1] != '\\'
    requires eq == Find(text, '=') < |text| && Trim(text[..eq], BLANKS) == nm && Trim(text[eq + 1..], BLANKS) == v
    ensures StepSays(p, cline) == [Assign(p.sk, nm, v)]
    ensures Step(p, cline).sk == p.sk && Step(p, cline).pending.None?
  {
    NameFirst(nm, text);
    JoinedAlone(p, cline);
    StepAssigns(p, cline, text, eq, nm, v);
  }

  lemma NameFirst(nm: string, text: string)
    requires WfName(nm) && text != "" && text[0] == nm[0]
    ensures !IsNoteLine(text) && text[0] != '['
  {
  }

  lemma StepAssigns(p: Parser, cline: string, text: string, eq: nat, nm: string, v: string)
    requires Joined(p, cline) == text && !IsNoteLine(text) && text[|text| - 1] != '\\' && text[0] != '['
    requires eq == Find(text, '=') < |text| && nm != "" && !HasEol(v)
    requires Trim(text[..eq], BLANKS) == nm && Trim(text[eq + 1..], BLANKS) == v
    ensures StepSays(p, cline) == [Assign(p.sk, nm, v)]
    ensures Step(p, cline).sk == p.sk && Step(p, cline).pending.None?
  {
    var r := LogicalLine(p.conf, p.sk, text);
    StepCompletes(p, cline, r);
    assert r.1 == p.sk;
  }

  lemma AssignmentTrimmed(nm: string, v: string, l: Layout, cline: string) returns (text: string)
    requires WfName(nm) && WfValue(v) && LayoutOk(l) && cline == AssignmentLine(nm, v, l)
    ensures Norm(cline) == text && text != "" && text[0] == nm[0] && text[|text| - 1] != '\\'
    ensures var eq := Find(text, '=');
            eq < |text| && Trim(text[..eq], BLANKS) == nm && Trim(text[eq + 1..], BLANKS) == v
  {
    var body := nm + l.b2 + "=" + (l.b3 + v);
    text := TrimRight(body, BLANKS);
    EolsCut(l.b1 + body + l.b4, l.crs, l.b1, body, l.b4);
    TrimRightCut(l.b1 + body, l.b4, BLANKS);
    BodyTrimmed(l.b1, body, nm, l.b2, l.b3, v, text);
  }

  lemma EolsCut(s: string, crs: string, b1: string, body: string, b4: string)
    requires AllIn(crs, EOLS) && AllIn(b4, BLANKS) && s == b1 + body + b4 && body != ""
    requires body[|body| - 1] !in EOLS
    ensures StripEol(s + crs) == s
  {
    TrimRightCut(s, crs, EOLS);
    if b4 != "" {
      assert s[|s| - 1] == b4[|b4| - 1] && b4[|b4| - 1] in b4;
    } else {
      assert s[|s| - 1] == body[|body| - 1];
    }
  }

  lemma BodyTrimmed(b1: string, body: string, nm: string, b2: string, b3: string, v: string, text: string)
    requires WfName(nm) && WfValue(v) && AllIn(b1, BLANKS) && AllIn(b2, BLANKS) && AllIn(b3, BLANKS)
    requires body == nm + b2 + "=" + (b3 + v) && text == TrimRight(body, BLANKS)
    ensures Trim(b1 + body, BLANKS) == text && text != "" && text[0] == nm[0] && text[|text| - 1] != '\\'
    ensures var eq := Find(text, '=');
            eq < |text| && Trim(text[..eq], BLANKS) == nm && Trim(text[eq + 1..], BLANKS) == v
  {
    var right := if v == "" then "" else b3 + v;
    ValueEnds(nm + b2 + "=", b3, v, body, text);
    TwoSides(nm, b2, right, text);
    TrimMore(b3, v, BLANKS);
    TrimMore(b1, body, BLANKS);
    WholeTrimmed(body, text);
  }

  lemma WholeTrimmed(body: string, text: string)
    requires text == TrimRight(body, BLANKS) && text != "" && text[0] !in BLANKS
    ensures Trim(body, BLANKS) == text
  {
  }

  lemma TwoSides(nm: string, b2: string, right: string, text: string)
    requires WfName(nm) && AllIn(b2, BLANKS) && text == nm + b2 + "=" + right
    ensures var eq := Find(text, '=');
            eq < |text| && Trim(text[..eq], BLANKS) == nm && text[eq + 1..] == right
    ensures text[0] == nm[0] && nm[0] !in BLANKS
  {
    assert text == (nm + b2) + ['='] + right;
    FindAfter(nm + b2, '=', right);
    assert "" + nm + b2 == nm + b2;
    TrimPadded("", nm, b2, BLANKS);
  }

  lemma ValueEnds(left: string, b3: string, v: string, body: string, text: string)
    requires WfValue(v) && AllIn(b3, BLANKS) && left != "" && left[|left| - 1] == '='
    requires body == left + (b3 + v) && text == TrimRight(body, BLANKS)
    ensures text == left + (if v == "" then "" else b3 + v) && text[|text| - 1] != '\\'
  {
    if v == "" {
      assert b3 + v == b3;
      TrimRightCut(left, b3, BLANKS);
    } else {
      assert body[|body| - 1] == v[|v| - 1];
    }
  }

  /** White space and brackets around a section name. */
  lemma AnySection(p: Parser, b1: string, h: string, k: string, t: string, b2: string, crs: string, cline: string)
    requires p.pending.None? && WfSection(k) && AllIn(b1, BLANKS) && AllIn(b2, BLANKS) && AllIn(crs, EOLS)
    requires AllIn(h, "[] \t") && AllIn(t, "[] \t") && cline == b1 + ("[" + h + k + t + "]") + b2 + crs
    ensures StepSays(p, cline) == []
    ensures Step(p, cline) == Parser(p.conf.(order := p.conf.order + [Sk(k)], subkeys := p.conf.subkeys + [k]), k, None)
  {
    var body := "[" + h + k + t + "]";
    EolsCut(b1 + body + b2, crs, b1, body, b2);
    TrimPadded(b1, body, b2, BLANKS);
    JoinedAlone(p, cline);
    assert body == ("[" + h) + k + (t + "]");
    assert AllIn("[", "[] \t") && AllIn("]", "[] \t");
    TrimPadded("[" + h, k, t + "]", "[] \t");
    StepCompletes(p, cline, LogicalLine(p.conf, p.sk, body));
  }

  // ---------- the edits ----------

  /** What an edit says about a variable: nothing, or its new value, or that it is gone. */
  function OpSays(op: Op, sk: string, nm: string): Option<Option<string>> {
    match op
    case Set(n, val, k) => if n == nm && k == sk && !HasEol(val) then Some(Some(val)) else None
    case Erase(n, k) => if n == nm && k == sk then Some(None) else None
    case EraseKey(k) => if k == sk then Some(None) else None
    case Clear => Some(None)
  }

  lemma EditCounts(c: Conf, op: Op, r: Conf, sk: string, nm: string)
    requires Presentation(c) && Apply(c, op) == Some(r)
    ensures Lookup(r.submaps, sk, nm)
         == match OpSays(op, sk, nm) case Some(word) => word case None => Lookup(c.submaps, sk, nm)
  {
    match op
    case Set(n, val, k) => LookupPut(c.submaps, k, n, val, sk, nm);
    case Erase(n, k) => LookupErased(c, n, k, r, sk, nm);
    case EraseKey(k) =>
    case Clear =>
  }

  lemma LookupErased(c: Conf, n: string, k: string, r: Conf, sk: string, nm: string)
    requires r == EraseVar(c, n, k)
    ensures Lookup(r.submaps, sk, nm) == if n == nm && k == sk then None else Lookup(c.submaps, sk, nm)
  {
    if k in c.submaps && nm in c.submaps[k] && n != nm {
      assert nm in c.submaps[k] - {n};
    }
  }

  /** The last edit that says something, the earlier value when none does. */
  predicate LastEdit(ops: seq<Op>, sk: string, nm: string, before: Option<string>, r: Option<string>) {
    || (exists i :: 0 <= i < |ops| && OpSays(ops[i], sk, nm) == Some(r)
          && forall j :: i < j < |ops| ==> OpSays(ops[j], sk, nm) == None)
    || (r == before && forall j :: 0 <= j < |ops| ==> OpSays(ops[j], sk, nm) == None)
  }

  lemma {:induction false} LastEditCounts(c: Conf, ops: seq<Op>, r: Conf, sk: string, nm: string)
    requires Presentation(c) && Run(c, ops) == Some(r)
    ensures LastEdit(ops, sk, nm, Lookup(c.submaps, sk, nm), Lookup(r.submaps, sk, nm))
    decreases |ops|
  {
    if ops != [] {
      ApplyKeeps(c, ops[0]);
      var c1 := Apply(c, ops[0]).value;
      EditCounts(c, ops[0], c1, sk, nm);
      LastEditCounts(c1, ops[1..], r, sk, nm);
      var rest := ops[1..];
      assert forall j :: 0 < j < |ops| ==> ops[j] == rest[j - 1];
      if i :| 0 <= i < |rest| && OpSays(rest[i], sk, nm) == Some(Lookup(r.submaps, sk, nm))
              && forall j :: i < j < |rest| ==> OpSays(rest[j], sk, nm) == None {
        assert OpSays(ops[i + 1], sk, nm) == Some(Lookup(r.submaps, sk, nm));
      } else if OpSays(ops[0], sk, nm) == None {
      }
    }
  }

  /** The last word of the text, and then of the edits, is what a variable has. */
  lemma LastWordCounts(text: string, ops: seq<Op>, sk: string, nm: string) returns (parsed: Option<string>)
    ensures Run(Parse(text), ops).Some?
    ensures LastSaid(Says(Parser(EMPTY, "", None), text), sk, nm, None, parsed)
    ensures LastEdit(ops, sk, nm, parsed, Lookup(Run(Parse(text), ops).value.submaps, sk, nm))
  {
    ParseOk(text);
    RunKeeps(Parse(text), ops);
    parsed := Lookup(Parse(text).submaps, sk, nm);
    LastAssignmentCounts(Parser(EMPTY, "", None), text, Parse(text), sk, nm);
    LastEditCounts(Parse(text), ops, Run(Parse(text), ops).value, sk, nm);
  }

  /** Erasing leaves the presentation alone, clearing empties it, and nothing is written then. */
  lemma PresentationAfter(c: Conf, op: Op, r: Conf)
    requires Presentation(c) && Apply(c, op) == Some(r)
    ensures op.Erase? || op.EraseKey? ==> r.order == c.order && r.subkeys == c.subkeys
    ensures op.Clear? ==> r.order == [] && r.submaps == map[] && WriteText(r) == ""
  {
    if op.Clear? { assert Sorted({}) == []; }
  }

  // ---------- where a new variable goes ----------

  /** The zone of a section starts behind its first line; that of the global one with the file. */
  predicate StartsZone(order: seq<ConfLine>, sk: string, start: nat) {
    if sk == "" then start == 0
    else 0 < start <= |order| && order[start - 1] == Sk(sk) && Sk(sk) !in order[..start - 1]
  }

  /** It goes on up to the next section. */
  predicate InZone(order: seq<ConfLine>, start: nat, i: int) {
    start <= i < |order| && forall j :: start <= j <= i ==> !order[j].Sk?
  }

  predicate CommentedOutAt(order: seq<ConfLine>, i: int, nm: string)
    requires 0 <= i < |order|
  {
    order[i].VarComment? && order[i].aux == nm
  }

  /** The section line that a new section gets at the end, unless one is left from before. */
  predicate WithSection(c: Conf, sk: string, order: seq<ConfLine>) {
    if sk == "" || sk in c.submaps || Sk(sk) in c.order then order == c.order else order == c.order + [Sk(sk)]
  }

  /** An entry in the zone, left by an erase, is used again. If there is none, one line is added: right behind the first
      commented-out assignment of the name in the zone, else at the end of the zone. */
  ghost predicate NewLine(order: seq<ConfLine>, start: nat, nm: string, r: seq<ConfLine>, pos: nat) {
    && start <= pos <= |order|
    && (if exists i :: InZone(order, start, i) && order[i].Var? && order[i].data == nm then r == order
        else r == order[..pos] + [Var(nm, "")] + order[pos..])
    && (pos > start ==> InZone(order, start, pos - 1))
    && if exists i :: InZone(order, start, i) && CommentedOutAt(order, i, nm)
       then pos > start && CommentedOutAt(order, pos - 1, nm)
            && forall j :: start <= j < pos - 1 ==> !CommentedOutAt(order, j, nm)
       else !InZone(order, start, pos)
  }

  ghost predicate OneNewLine(order: seq<ConfLine>, start: nat, nm: string, r: seq<ConfLine>) {
    exists pos: nat :: NewLine(order, start, nm, r, pos)
  }

  /** Setting a new variable. */
  lemma NewVarPlaced(c: Conf, nm: string, val: string, sk: string, r: Conf)
    returns (order: seq<ConfLine>, start: nat, pos: nat)
    requires Presentation(c) && !Live(c.submaps, sk, nm) && !HasEol(val) && SetEdit(c, nm, val, sk) == Some(r)
    ensures WithSection(c, sk, order) && StartsZone(order, sk, start) && NewLine(order, start, nm, r.order, pos)
  {
    order := EnsureSk(c, sk);
    if sk != "" && sk in c.submaps { LiveSectionHasSk(c, sk); }
    ZoneFound(order, sk);
    start := ZoneStart(order, sk).value;
    pos := PlaceVarIs(order, start, nm, PlaceVar(order, start, nm));
  }

  lemma PlaceVarIs(order: seq<ConfLine>, start: nat, nm: string, r: seq<ConfLine>) returns (pos: nat)
    requires start <= |order| && r == PlaceVar(order, start, nm)
    ensures NewLine(order, start, nm, r, pos)
  {
    var fin := ZoneEnd(order, start);
    var reused := FirstFrom(order, start, fin, VarNamed(nm));
    var vc := FirstFrom(order, start, fin, CommentedOut(nm));
    pos := if vc < fin then vc + 1 else fin;
    ZoneIs(order, start, fin);
    ReusedIs(order, start, fin, nm, reused);
    CommentedOutIs(order, start, fin, nm, vc);
  }

  lemma PlaceVarOneLine(order: seq<ConfLine>, start: nat, nm: string)
    requires start <= |order|
    ensures OneNewLine(order, start, nm, PlaceVar(order, start, nm))
  {
    var pos := PlaceVarIs(order, start, nm, PlaceVar(order, start, nm));
    assert NewLine(order, start, nm, PlaceVar(order, start, nm), pos);
  }

  lemma ReusedIs(order: seq<ConfLine>, start: nat, fin: nat, nm: string, k: nat)
    requires start <= fin <= |order| && fin == ZoneEnd(order, start) && k == FirstFrom(order, start, fin, VarNamed(nm))
    ensures k < fin <==> exists i :: InZone(order, start, i) && order[i].Var? && order[i].data == nm
  {
    ZoneIs(order, start, fin);
    if k < fin { assert InZone(order, start, k); }
  }

  lemma CommentedOutIs(order: seq<ConfLine>, start: nat, fin: nat, nm: string, k: nat)
    requires start <= fin <= |order| && fin == ZoneEnd(order, start)
    requires k == FirstFrom(order, start, fin, CommentedOut(nm))
    ensures k < fin <==> exists i :: InZone(order, start, i) && CommentedOutAt(order, i, nm)
    ensures (k < fin ==> CommentedOutAt(order, k, nm)) && forall j :: start <= j < k ==> !CommentedOutAt(order, j, nm)
  {
    ZoneIs(order, start, fin);
    if k < fin { assert InZone(order, start, k) && CommentedOutAt(order, k, nm); }
  }

  lemma ZoneIs(order: seq<ConfLine>, start: nat, fin: nat)
    requires start <= |order| && fin == ZoneEnd(order, start)
    ensures forall i :: InZone(order, start, i) <==> start <= i < fin
  {
    forall i ensures InZone(order, start, i) <==> start <= i < fin {
      if start <= fin <= i < |order| {
        assert order[fin].Sk?;
      }
    }
  }

  // ---------- the sections of a file, in order ----------

  /** The section that a complete line names. */
  function LineHead(line: string): seq<string> {
    if line != "" && line[0] == '[' then [Trim(line, "[] \t")] else []
  }

  function StepHeads(p: Parser, cline: string): seq<string> {
    var line := Joined(p, cline);
    if IsNoteLine(line) || line[|line| - 1] == '\\' then [] else LineHead(line)
  }

  function FinalHeads(p: Parser, cline: string): seq<string>
    decreases |cline| + if p.pending.Some? then |p.pending.value| else 0
  {
    var line := Joined(p, cline);
    if IsNoteLine(line) then []
    else if line[|line| - 1] == '\\' then FinalHeads(p.(pending := Some(line[..|line| - 1])), "")
    else LineHead(line)
  }

  /** All sections that a text names, in order, repetitions included. */
  function Heads(p: Parser, text: string): seq<string>
    decreases |text|
  {
    var i := Find(text, '\n');
    if i == |text| then FinalHeads(p, text)
    else StepHeads(p, text[..i]) + Heads(Step(p, text[..i]), text[i + 1..])
  }

  lemma {:induction false} FinalNames(p: Parser, cline: string)
    ensures Final(p, cline).subkeys == p.conf.subkeys + FinalHeads(p, cline)
    decreases |cline| + if p.pending.Some? then |p.pending.value| else 0
  {
    var line := Joined(p, cline);
    if !IsNoteLine(line) && line[|line| - 1] == '\\' {
      FinalNames(p.(pending := Some(line[..|line| - 1])), "");
    }
  }

  lemma StepNames(p: Parser, cline: string)
    ensures Step(p, cline).conf.subkeys == p.conf.subkeys + StepHeads(p, cline)
  {
  }

  /** getSubKeys_unsorted(): the sections in file order. */
  lemma {:induction false} SectionsInOrder(p: Parser, text: string, r: Conf)
    requires r == ParseText(p, text)
    ensures r.subkeys == p.conf.subkeys + Heads(p, text)
    decreases |text|
  {
    var i := Find(text, '\n');
    if i == |text| {
      FinalNames(p, text);
    } else {
      StepNames(p, text[..i]);
      SectionsInOrder(Step(p, text[..i]), text[i + 1..], r);
      Regroup(p.conf.subkeys, StepHeads(p, text[..i]), Heads(Step(p, text[..i]), text[i + 1..]));
    }
  }

  // ---------- commented-out assignments ----------

  /** An ASCII letter or digit. */
  predicate Letter(c: char) {
    97 <= c as int <= 122 || 65 <= c as int <= 90 || 48 <= c as int <= 57
  }

  predicate AllFrom(line: string, i: nat, k: nat, f: char -> bool)
    requires i <= k <= |line|
  {
    forall j :: i <= j < k ==> f(line[j])
  }

  /** At h stands a number sign, then white space, a name of letters and digits, white space, and an equals sign. */
  predicate NameAt(line: string, h: nat, a: nat, b: nat, e: nat) {
    && h < a < b <= e < |line| && line[h] == '#' && line[e] == '='
    && AllFrom(line, h + 1, a, c => c in BLANKS) && AllFrom(line, a, b, Letter) && AllFrom(line, b, e, c => c in BLANKS)
  }

  lemma {:induction false} SkipWhileIs(s: string, i: nat, f: char -> bool, k: nat)
    requires i <= k <= |s|
    ensures SkipWhile(s, i, f) == k <==> AllFrom(s, i, k, f) && (k == |s| || !f(s[k]))
    decreases |s| - i
  {
    if i < |s| && f(s[i]) {
      if i < k { SkipWhileIs(s, i + 1, f, k); }
    }
  }

  /** The name in a commented-out assignment. */
  ghost predicate NamesAt(line: string, h: nat, nm: string) {
    exists a: nat, b: nat, e: nat :: NameAt(line, h, a, b, e) && nm == line[a..b]
  }

  /** There is at most one name behind a number sign. */
  lemma NamedAt(line: string, h: nat, a: nat, b: nat, e: nat, a1: nat, b1: nat, e1: nat)
    requires h < |line| && a == SkipWhile(line, h + 1, c => c in BLANKS) && b == SkipWhile(line, a, IsAlnum)
    requires e == SkipWhile(line, b, c => c in BLANKS) && NameAt(line, h, a1, b1, e1)
    ensures a == a1 && b == b1 && e == e1
  {
    SkipWhileIs(line, h + 1, c => c in BLANKS, a1);
    SkipWhileIs(line, a1, IsAlnum, b1);
    SkipWhileIs(line, b1, c => c in BLANKS, e1);
  }

  lemma FoundAt(line: string, h: nat, a: nat, b: nat, e: nat)
    requires h < |line| && a == SkipWhile(line, h + 1, c => c in BLANKS) && b == SkipWhile(line, a, IsAlnum)
    requires e == SkipWhile(line, b, c => c in BLANKS)
    ensures line[h] == '#' && a < b && e < |line| && line[e] == '=' ==> NameAt(line, h, a, b, e)
  {
    SkipWhileIs(line, h + 1, c => c in BLANKS, a);
    SkipWhileIs(line, a, IsAlnum, b);
    SkipWhileIs(line, b, c => c in BLANKS, e);
  }

  /** The first name from a position on. */
  ghost predicate FirstNamed(line: string, h: nat, g: nat, nm: string) {
    g >= h && NamesAt(line, g, nm) && forall k: nat, n :: h <= k < g ==> !NamesAt(line, k, n)
  }

  ghost predicate NameFrom(line: string, h: nat, r: Option<string>) {
    match r
    case None => forall g: nat, nm :: g >= h ==> !NamesAt(line, g, nm)
    case Some(nm) => exists g: nat :: FirstNamed(line, h, g, nm)
  }

  lemma NameLater(line: string, h: nat, r: Option<string>)
    requires NameFrom(line, h + 1, r) && forall nm :: !NamesAt(line, h, nm)
    ensures NameFrom(line, h, r)
  {
    if r.Some? {
      var g: nat :| FirstNamed(line, h + 1, g, r.value);
      assert FirstNamed(line, h, g, r.value);
    }
  }

  /** The name found in a comment is that behind the first number sign that is followed by one and an equals sign. */
  lemma {:induction false} CommentedNameIs(line: string, h: nat, r: Option<string>)
    requires h <= |line| && r == VarCommentName(line, h)
    ensures NameFrom(line, h, r)
    decreases |line| - h
  {
    if h < |line| {
      var a := SkipWhile(line, h + 1, c => c in BLANKS);
      var b := SkipWhile(line, a, IsAlnum);
      var e := SkipWhile(line, b, c => c in BLANKS);
      if line[h] == '#' && a < b && e < |line| && line[e] == '=' {
        FoundAt(line, h, a, b, e);
        assert FirstNamed(line, h, h, line[a..b]);
      } else {
        NoneAt(line, h, a, b, e);
        CommentedNameIs(line, h + 1, r);
        NameLater(line, h, r);
      }
    } else {
      assert forall g: nat, nm :: NamesAt(line, g, nm) ==> g < |line|;
    }
  }

  lemma NoneAt(line: string, h: nat, a: nat, b: nat, e: nat)
    requires h < |line| && a == SkipWhile(line, h + 1, c => c in BLANKS)
    requires b == SkipWhile(line, a, IsAlnum) && e == SkipWhile(line, b, c => c in BLANKS)
    requires !(line[h] == '#' && a < b && e < |line| && line[e] == '=')
    ensures forall nm :: !NamesAt(line, h, nm)
  {
    FoundAt(line, h, a, b, e);
    forall nm ensures !NamesAt(line, h, nm) {
      if NamesAt(line, h, nm) {
        var a1: nat, b1: nat, e1: nat :| NameAt(line, h, a1, b1, e1) && nm == line[a1..b1];
        NamedAt(line, h, a, b, e, a1, b1, e1);
      }
    }
  }

  /** A blank line or a comment is kept as a commented-out assignment of a name exactly when it holds one before any
      NUL; the first counts. */
  lemma NoteKind(c: Conf, line: string, l: ConfLine)
    requires IsNoteLine(line) && AddNote(c, line).order == c.order + [l]
    ensures l.data == line
    ensures l.Comment? <==> forall g: nat, nm :: !NamesAt(CString(line), g, nm)
    ensures l.VarComment? ==> exists g: nat :: FirstNamed(CString(line), 0, g, l.aux)
  {
    assert AddNote(c, line).order[|c.order|] == l;
    CommentedNameIs(CString(line), 0, VarCommentName(CString(line), 0));
  }
}
