/** Printing and parsing undo each other (src/conftree.cpp). */
module ConfRoundTrip {
  import opened Strings
  import opened ConfText

  // ---------- what a printed file can carry ----------

  predicate WfName(nm: string) {
    nm != "" && Trimmed(nm, BLANKS) && '=' !in nm && '\n' !in nm && nm[0] != '#' && nm[0] != '['
  }

  predicate WfValue(v: string) {
    Trimmed(v, BLANKS) && !HasEol(v) && (v != "" ==> v[|v| - 1] != '\\')
  }

  predicate WfSection(sk: string) {
    Trimmed(sk, "[] \t") && '\n' !in sk
  }

  predicate WfMap(m: Submaps) {
    forall sk :: sk in m ==>
      WfSection(sk) && m[sk] != map[] && forall nm :: nm in m[sk] ==> WfName(nm) && WfValue(m[sk][nm])
  }

  predicate IsNote(line: ConfLine) {
    line.Comment? || line.VarComment?
  }

  /** A stored note as the next parse sees it. */
  function Norm(d: string): string {
    Trim(StripEol(d), BLANKS)
  }

  /** What parsing guarantees about the text of a note. */
  predicate StoredNote(d: string) {
    && '\n' !in d && Trimmed(d, BLANKS)
    && (IsNoteLine(d) || (d[0] != '[' && d[|d| - 1] != '\\' && (d[0] == '=' || '=' !in d)))
  }

  /** The note does not turn into a continued line when its trailing CRs are stripped. */
  predicate Harmless(d: string) {
    var n := Norm(d);
    IsNoteLine(n) || n[|n| - 1] != '\\'
  }

  predicate NotesStored(order: seq<ConfLine>) {
    forall l :: l in order && IsNote(l) ==> StoredNote(l.data)
  }

  predicate NotesHarmless(order: seq<ConfLine>) {
    forall l :: l in order && IsNote(l) ==> StoredNote(l.data) && Harmless(l.data)
  }

  // ---------- reading one line ----------

  lemma ParseLine(p: Parser, line: string, rest: string)
    requires '\n' !in line
    ensures ParseText(p, line + "\n" + rest) == ParseText(Step(p, line), rest)
  {
    FindAfter(line, '\n', rest);
    assert line + ['\n'] + rest == line + "\n" + rest;
  }

  lemma StripEolKept(s: string)
    requires s == "" || s[|s| - 1] !in EOLS
    ensures StripEol(s) == s
  {
  }

  /** A physical line read when nothing is pending. */
  lemma JoinedAlone(p: Parser, cline: string)
    requires p.pending.None?
    ensures Joined(p, cline) == Norm(cline)
  {
    assert "" + StripEol(cline) == StripEol(cline);
  }

  lemma NormHead(d: string)
    requires Trimmed(d, BLANKS)
    ensures Norm(d) != "" ==> Norm(d)[0] == d[0]
    ensures '\n' !in d ==> '\n' !in Norm(d)
    ensures '=' !in d ==> '=' !in Norm(d)
  {
    var tail := TrimRightSplit(d, EOLS);
    TrimKeeps(StripEol(d), BLANKS);
    if StripEol(d) != "" {
      assert StripEol(d)[0] == d[0];
      assert Norm(d) == TrimLeft(TrimRight(StripEol(d), BLANKS), BLANKS);
    }
  }

  /** A harmless stored note parses to a note again, whatever surrounds it. */
  lemma NoteStep(p: Parser, d: string)
    requires p.pending.None? && StoredNote(d) && Harmless(d)
    ensures Step(p, d) == p.(conf := AddNote(p.conf, Norm(d)))
  {
    var n := Norm(d);
    JoinedAlone(p, d);
    NormHead(d);
    if !IsNoteLine(n) {
      if d[0] == '=' {
        assert Find(n, '=') == 0;
        assert Trim(n[..0], BLANKS) == "";
      } else {
        assert '=' !in d;
        assert '=' !in n;
      }
    }
  }

  lemma SectionStep(p: Parser, k: string)
    requires p.pending.None? && WfSection(k)
    ensures Step(p, "[" + k + "]")
         == Parser(p.conf.(order := p.conf.order + [Sk(k)], subkeys := p.conf.subkeys + [k]), k, None)
  {
    var line := "[" + k + "]";
    SectionText(k, line);
    JoinedAlone(p, line);
    StepCompletes(p, line, LogicalLine(p.conf, p.sk, line));
  }

  lemma SectionText(k: string, line: string)
    requires WfSection(k) && line == "[" + k + "]"
    ensures Norm(line) == line && line[0] == '[' && line[|line| - 1] == ']' && Trim(line, "[] \t") == k
  {
    StripEolKept(line);
    assert AllIn("[", "[] \t") && AllIn("]", "[] \t");
    TrimPadded("[", k, "]", "[] \t");
  }

  lemma StepCompletes(p: Parser, cline: string, r: (Conf, string))
    requires !IsNoteLine(Joined(p, cline)) && Joined(p, cline)[|Joined(p, cline)| - 1] != '\\'
    requires r == LogicalLine(p.conf, p.sk, Joined(p, cline))
    ensures Step(p, cline) == Parser(r.0, r.1, None)
  {
  }

  /** What a complete line with an equals sign does. */
  lemma StepSets(p: Parser, cline: string, text: string, eq: nat, nm: string, v: string)
    requires p.pending.None? && Joined(p, cline) == text && eq == Find(text, '=') < |text|
    requires text[0] != '#' && text[0] != '[' && text[|text| - 1] != '\\'
    requires Trim(text[..eq], BLANKS) == nm && Trim(text[eq + 1..], BLANKS) == v && nm != ""
    ensures Step(p, cline) == p.(conf := SetInit(p.conf, nm, v, p.sk))
  {
    StepCompletes(p, cline, LogicalLine(p.conf, p.sk, text));
  }

  /** An assignment line, complete. */
  lemma VarStep(p: Parser, nm: string, v: string)
    requires p.pending.None? && WfName(nm) && WfValue(v)
    ensures Step(p, nm + " = " + v) == p.(conf := SetInit(p.conf, nm, v, p.sk))
  {
    var line := nm + " = " + v;
    var text := JoinedAssignment(p, nm, v);
    AssignmentParts(nm, v, text, Find(text, '='));
    StepSets(p, line, text, Find(text, '='), nm, v);
  }

  lemma JoinedAssignment(p: Parser, nm: string, v: string) returns (text: string)
    requires p.pending.None? && WfName(nm) && WfValue(v)
    ensures text == nm + " =" + (if v == "" then "" else " " + v) && Joined(p, nm + " = " + v) == text
  {
    JoinedAlone(p, nm + " = " + v);
    StripEolKept(nm + " = " + v);
    text := TrimmedAssignment(nm, v);
  }

  lemma TrimmedAssignment(nm: string, v: string) returns (text: string)
    requires WfName(nm) && WfValue(v)
    ensures text == nm + " =" + if v == "" then "" else " " + v
    ensures Trim(nm + " = " + v, BLANKS) == text
  {
    text := nm + " =" + if v == "" then "" else " " + v;
    var tail := if v == "" then " " else "";
    assert Trimmed(text, BLANKS);
    assert nm + " = " + v == "" + text + tail;
    TrimPadded("", text, tail, BLANKS);
  }

  lemma AssignmentParts(nm: string, v: string, text: string, eq: nat)
    requires WfName(nm) && WfValue(v) && text == nm + " =" + (if v == "" then "" else " " + v)
    requires eq == Find(text, '=')
    ensures eq < |text| && Trim(text[..eq], BLANKS) == nm && Trim(text[eq + 1..], BLANKS) == v
    ensures text[0] == nm[0] && text[|text| - 1] != '\\'
  {
    var a, value := nm + " ", if v == "" then "" else " " + v;
    AssignmentText(nm, value, text);
    FindAfter(a, '=', value);
    PaddedName(nm);
    PaddedValue(v, value);
  }

  lemma AssignmentText(nm: string, value: string, text: string)
    requires nm != "" && text == nm + " =" + value && (value != "" ==> value[|value| - 1] != '\\')
    ensures text == (nm + " ") + ['='] + value && text[0] == nm[0] && text[|text| - 1] != '\\'
    ensures '=' !in nm ==> '=' !in nm + " "
  {
    assert " =" == " " + ['='];
    Regroup(nm, " ", ['=']);
  }

  lemma PaddedName(nm: string)
    requires Trimmed(nm, BLANKS)
    ensures Trim(nm + " ", BLANKS) == nm
  {
    assert "" + nm + " " == nm + " ";
    TrimPadded("", nm, " ", BLANKS);
  }

  lemma PaddedValue(v: string, value: string)
    requires Trimmed(v, BLANKS) && value == if v == "" then "" else " " + v
    ensures Trim(value, BLANKS) == v
  {
    if v != "" {
      assert " " + v + "" == " " + v;
      TrimPadded(" ", v, "", BLANKS);
    }
  }

  // ---------- folded lines ----------

  /** The logical line, and the same line cut into physical lines. */
  function Unfolded(chunks: seq<string>): string {
    if chunks == [] then "" else chunks[0] + Unfolded(chunks[1..])
  }

  function Folded(chunks: seq<string>): string
    requires chunks != []
  {
    if |chunks| == 1 then chunks[0] else chunks[0] + "\\\n" + Folded(chunks[1..])
  }

  predicate Assignment(line: string) {
    && '\n' !in line
    && (line == "" || line[|line| - 1] !in EOLS)
    && !IsNoteLine(Trim(line, BLANKS))
  }

  lemma TrimHead(head: string, l: string, b: string)
    requires AllIn(head, BLANKS) && (l != "" ==> l[0] !in BLANKS) && b != "" && Trimmed(b, BLANKS)
    ensures Trim(head + (l + b), BLANKS) == l + b
  {
    TrimMore(head, l + b, BLANKS);
    assert Trimmed(l + b, BLANKS);
  }

  lemma TrimContinued(l0: string, c: string, b: string, l: string)
    requires b != "" && Trimmed(b, BLANKS) && l == TrimLeft(l0 + c, BLANKS)
    ensures Trim(TrimLeft(l0, BLANKS) + (c + b), BLANKS) == l + b
  {
    TrimEarly(l0, c + b, BLANKS);
    Regroup(l0, c, b);
    var head := TrimLeftSplit(l0 + c, BLANKS);
    Regroup(head, l, b);
    TrimHead(head, l, b);
  }

  lemma JoinedContinued(p: Parser, l0: string, c: string, l: string)
    requires p.pending == Some(TrimLeft(l0, BLANKS)) && l == TrimLeft(l0 + c, BLANKS)
    ensures Joined(p, c + "\\") == l + "\\"
  {
    StripEolKept(c + "\\");
    TrimContinued(l0, c, "\\", l);
  }

  /** A part of an assignment does not look like a comment. */
  lemma StartsAssignment(l0: string, c: string, more: string, l: string)
    requires Assignment(l0 + c + more) && l == TrimLeft(l0 + c, BLANKS)
    ensures l == "" || l[0] != '#'
  {
    if l != "" {
      var head := TrimLeftSplit(l0 + c, BLANKS);
      Regroup(head, l, more);
      TrimMore(head, l + more, BLANKS);
      HeadOfTrim(l, more);
    }
  }

  lemma StepOpens(p: Parser, cline: string, l: string)
    requires Joined(p, cline) == l + "\\" && (l == "" || l[0] != '#')
    ensures !IsNoteLine(Joined(p, cline)) && Step(p, cline) == p.(pending := Some(l))
  {
    assert (l + "\\")[..|l|] == l;
  }

  /** One continued physical line after the raw prefix l0. */
  lemma ContinuedStep(p: Parser, l0: string, c: string, more: string)
    requires p.pending == Some(TrimLeft(l0, BLANKS))
    requires Assignment(l0 + c + more)
    ensures !IsNoteLine(Joined(p, c + "\\"))
    ensures Step(p, c + "\\") == p.(pending := Some(TrimLeft(l0 + c, BLANKS)))
  {
    var l := TrimLeft(l0 + c, BLANKS);
    JoinedContinued(p, l0, c, l);
    StartsAssignment(l0, c, more, l);
    StepOpens(p, c + "\\", l);
  }

  lemma HeadOfTrim(l: string, more: string)
    requires l != "" && l[0] !in BLANKS
    ensures Trim(l + more, BLANKS) != "" && Trim(l + more, BLANKS)[0] == l[0]
  {
    TrimRightStops(l + more, BLANKS);
  }

  /** What may follow a line: nothing, or its newline and the rest of the text. */
  predicate LineEnd(end: string) {
    end == "" || end[0] == '\n'
  }

  lemma {:induction false} FoldedTail(p0: Parser, l0: string, chunks: seq<string>, end: string)
    requires chunks != [] && Assignment(l0 + Unfolded(chunks)) && LineEnd(end)
    requires p0.pending.None?
    ensures ParseText(p0.(pending := Some(TrimLeft(l0, BLANKS))), Folded(chunks) + end)
         == ParseText(p0, l0 + Unfolded(chunks) + end)
    decreases |chunks|
  {
    var c, tail := chunks[0], Unfolded(chunks[1..]);
    NoNewlineIn(l0, c, tail);
    Regroup(l0, c, tail);
    if |chunks| == 1 {
      assert tail == "" && c + "" == c;
      LastLine(p0, l0, c, end);
    } else {
      ContinuedLine(p0, l0, c, tail, Folded(chunks[1..]), end);
      FoldedTail(p0, l0 + c, chunks[1..], end);
      Regroup(c, "\\\n", Folded(chunks[1..]));
    }
  }

  lemma NoNewlineIn(a: string, b: string, c: string)
    requires '\n' !in a + (b + c)
    ensures '\n' !in b
  {
    forall i | 0 <= i < |b| ensures b[i] != '\n' {
      assert (a + (b + c))[|a| + i] == b[i];
    }
  }

  lemma LastLine(p0: Parser, l0: string, c: string, end: string)
    requires p0.pending.None? && Assignment(l0 + c) && '\n' !in c && LineEnd(end)
    ensures ParseText(p0.(pending := Some(TrimLeft(l0, BLANKS))), c + end) == ParseText(p0, l0 + c + end)
  {
    var p := p0.(pending := Some(TrimLeft(l0, BLANKS)));
    LastStep(p0, l0, c);
    SameRest(p, p0, c, l0 + c, end);
  }

  /** Two lines with the same effect, each followed by the same. */
  lemma SameRest(p: Parser, q: Parser, a: string, b: string, end: string)
    requires '\n' !in a && '\n' !in b && LineEnd(end)
    requires Step(p, a) == Step(q, b) && Final(p, a) == Final(q, b)
    ensures ParseText(p, a + end) == ParseText(q, b + end)
  {
    if end == "" {
      assert a + end == a && b + end == b;
    } else {
      var rest := end[1..];
      assert end == "\n" + rest;
      Regroup(a, "\n", rest);
      Regroup(b, "\n", rest);
      ParseLine(p, a, rest);
      ParseLine(q, b, rest);
    }
  }

  lemma FoldText(c: string, more: string, end: string)
    ensures c + "\\\n" + more + end == (c + "\\") + "\n" + (more + end)
  {
  }

  lemma ContinuedLine(p0: Parser, l0: string, c: string, tail: string, more: string, end: string)
    requires Assignment(l0 + c + tail) && '\n' !in c
    ensures ParseText(p0.(pending := Some(TrimLeft(l0, BLANKS))), c + "\\\n" + more + end)
         == ParseText(p0.(pending := Some(TrimLeft(l0 + c, BLANKS))), more + end)
  {
    var p := p0.(pending := Some(TrimLeft(l0, BLANKS)));
    ContinuedStep(p, l0, c, tail);
    ParseLine(p, c + "\\", more + end);
    FoldText(c, more, end);
  }

  lemma LastStep(p0: Parser, l0: string, c: string)
    requires p0.pending.None? && Assignment(l0 + c)
    ensures Step(p0.(pending := Some(TrimLeft(l0, BLANKS))), c) == Step(p0, l0 + c)
    ensures Final(p0.(pending := Some(TrimLeft(l0, BLANKS))), c) == Final(p0, l0 + c)
  {
    StripEolKept(c);
    StripEolKept(l0 + c);
    TrimEarly(l0, c, BLANKS);
    JoinedAlone(p0, l0 + c);
  }

  /** Cutting an assignment line into backslash-continued physical lines, at any places, does not
      change what the whole text parses to, whether a newline and more follow or the text ends there. */
  lemma FoldingIsTransparent(p: Parser, chunks: seq<string>, end: string)
    requires chunks != [] && p.pending.None? && Assignment(Unfolded(chunks)) && LineEnd(end)
    ensures ParseText(p, Folded(chunks) + end) == ParseText(p, Unfolded(chunks) + end)
  {
    if |chunks| == 1 {
      assert Unfolded(chunks) == chunks[0];
    } else {
      var line := Unfolded(chunks);
      assert "" + line == line;
      FoldedTail(p, "", chunks, end);
      var c, tail := chunks[0], Unfolded(chunks[1..]);
      assert "" + (c + tail) == line;
      NoNewlineIn("", c, tail);
      FirstLine(p, c, tail, Folded(chunks[1..]), end);
    }
  }

  lemma FirstLine(p: Parser, c: string, tail: string, more: string, end: string)
    requires p.pending.None? && Assignment(c + tail) && '\n' !in c
    ensures ParseText(p, c + "\\\n" + more + end) == ParseText(p.(pending := Some("")), c + "\\\n" + more + end)
  {
    FirstStep(p, c, tail);
    FoldText(c, more, end);
    ParseLine(p, c + "\\", more + end);
    ParseLine(p.(pending := Some("")), c + "\\", more + end);
  }

  lemma FirstStep(p: Parser, c: string, more: string)
    requires p.pending.None? && Assignment(c + more)
    ensures Step(p, c + "\\") == Step(p.(pending := Some("")), c + "\\")
  {
    assert "" + c == c;
    ContinuedStep(p.(pending := Some("")), "", c, more);
    StepWithoutPending(p, c + "\\");
  }

  lemma StepWithoutPending(p: Parser, cline: string)
    requires p.pending.None? && !IsNoteLine(Joined(p.(pending := Some("")), cline))
    ensures Step(p, cline) == Step(p.(pending := Some("")), cline)
  {
  }

  /** A fold comes right after a blank past column 50 that is not among the last ten characters, and after every
      such blank. The columns are counted from the last fold, ll of them before the first chunk. */
  predicate WellFolded(chunks: seq<string>, ll: nat)
    requires chunks != []
  {
    var c, n := chunks[0], |chunks[0]|;
    if |chunks| == 1 then forall j :: 0 <= j < n && c[j] in BLANKS && ll + j + 1 > 50 ==> n - j <= 10
    else
      && n > 0 && c[n - 1] in BLANKS && ll + n > 50 && |Unfolded(chunks[1..])| + 1 > 10
      && (forall j :: 0 <= j < n - 1 && c[j] in BLANKS ==> ll + j + 1 <= 50)
      && WellFolded(chunks[1..], 0)
  }

  /** varprinter() folds by cutting the value into chunks. */
  lemma {:induction false} FoldCuts(v: string, pos: nat, ll: nat) returns (chunks: seq<string>)
    requires pos <= |v|
    ensures chunks != []
    ensures Folded(chunks) == FoldFrom(v, pos, ll) && Unfolded(chunks) == v[pos..]
    ensures WellFolded(chunks, ll)
    decreases |v| - pos
  {
    if pos == |v| {
      chunks := [""];
    } else {
      var c := v[pos];
      assert v[pos..] == [c] + v[pos + 1..];
      if ll + 1 > 50 && |v| - pos > 10 && c in BLANKS {
        var cs := FoldCuts(v, pos + 1, 0);
        chunks := [[c]] + cs;
        assert chunks[1..] == cs;
      } else {
        var cs := FoldCuts(v, pos + 1, ll + 1);
        chunks := [[c] + cs[0]] + cs[1..];
        assert chunks[1..] == cs[1..];
        OneMoreInFront(c, cs, chunks, ll, |v| - pos);
        if |cs| > 1 {
          assert [c] + (cs[0] + "\\\n" + Folded(cs[1..])) == ([c] + cs[0]) + "\\\n" + Folded(cs[1..]);
        }
        assert [c] + (cs[0] + Unfolded(cs[1..])) == ([c] + cs[0]) + Unfolded(cs[1..]);
      }
    }
  }

  /** A character put in front of the first chunk, which does not call for a fold. */
  lemma OneMoreInFront(c: char, cs: seq<string>, chunks: seq<string>, ll: nat, n: nat)
    requires cs != [] && WellFolded(cs, ll + 1) && chunks == [[c] + cs[0]] + cs[1..] && n == 1 + |Unfolded(cs)|
    requires !(ll + 1 > 50 && n > 10 && c in BLANKS)
    ensures WellFolded(chunks, ll)
  {
    assert chunks[1..] == cs[1..];
    var a, b := chunks[0], cs[0];
    assert forall j :: 0 < j < |a| ==> a[j] == b[j - 1];
    if |cs| == 1 { assert Unfolded(cs) == b + "" == b; }
  }

  /** A printed variable takes one line when it is short, and is folded where needed otherwise. */
  lemma VarLayout(nm: string, v: string) returns (chunks: seq<string>)
    requires nm != ""
    ensures chunks != [] && Unfolded(chunks) == v && VarText(nm, v) == nm + " = " + Folded(chunks) + "\n"
    ensures if |nm| + |v| < 75 then chunks == [v] else WellFolded(chunks, 0)
  {
    if |nm| + |v| < 75 {
      chunks := [v];
      assert Unfolded([v]) == v + "" == v;
    } else {
      chunks := FoldCuts(v, 0, 0);
    }
  }

  /** A printed variable, folded or not, sets that variable and nothing else. */
  lemma VarParsed(p: Parser, nm: string, v: string, rest: string)
    requires p.pending.None? && WfName(nm) && WfValue(v)
    ensures ParseText(p, VarText(nm, v) + rest)
         == ParseText(p.(conf := SetInit(p.conf, nm, v, p.sk)), rest)
  {
    var line := nm + " = " + v;
    VarStep(p, nm, v);
    ParseLine(p, line, rest);
    if |nm| + |v| < 75 {
      assert VarText(nm, v) + rest == line + "\n" + rest;
    } else {
      FoldedVar(p, nm, v, rest);
    }
  }

  lemma FoldedVar(p: Parser, nm: string, v: string, rest: string)
    requires p.pending.None? && WfName(nm) && WfValue(v) && |nm| + |v| >= 75
    ensures ParseText(p, VarText(nm, v) + rest) == ParseText(p, nm + " = " + v + "\n" + rest)
  {
    var cs := FoldCuts(v, 0, 0);
    var chunks := [nm + " = " + cs[0]] + cs[1..];
    FoldedAssignment(nm, v, cs, chunks);
    FoldedText(nm, v, Folded(chunks), rest);
    var text := TrimmedAssignment(nm, v);
    Regroup(nm + " = " + v, "\n", rest);
    FoldingIsTransparent(p, chunks, "\n" + rest);
  }

  lemma FoldedText(nm: string, v: string, folded: string, rest: string)
    requires nm != "" && |nm| + |v| >= 75 && folded == nm + " = " + FoldFrom(v, 0, 0)
    ensures VarText(nm, v) + rest == folded + ("\n" + rest)
  {
    Regroup(folded, "\n", rest);
  }

  lemma FoldedAssignment(nm: string, v: string, cs: seq<string>, chunks: seq<string>)
    requires cs != [] && Unfolded(cs) == v && chunks == [nm + " = " + cs[0]] + cs[1..]
    ensures chunks != [] && Unfolded(chunks) == nm + " = " + v
    ensures Folded(chunks) == nm + " = " + Folded(cs)
  {
    assert chunks[1..] == cs[1..];
    var a := nm + " = ";
    assert (a + cs[0]) + Unfolded(cs[1..]) == a + (cs[0] + Unfolded(cs[1..]));
    if |cs| > 1 {
      assert (a + cs[0]) + "\\\n" + Folded(cs[1..]) == a + (cs[0] + "\\\n" + Folded(cs[1..]));
    }
  }
}
