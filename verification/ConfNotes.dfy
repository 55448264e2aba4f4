/** Exactly which stored comment lines leave the rest of the file alone when it is parsed again
    (src/conftree.cpp). */
module ConfNotes {
  import opened Strings
  import opened ConfText
  import opened ConfRoundTrip

  /** The presentation has no influence on the data that parsing yields. */
  predicate SameData(p: Parser, q: Parser) {
    p.conf.submaps == q.conf.submaps && p.sk == q.sk && p.pending == q.pending
  }

  lemma {:induction false} FinalSame(p: Parser, q: Parser, cline: string)
    requires SameData(p, q)
    ensures Final(p, cline).submaps == Final(q, cline).submaps
    decreases |cline| + if p.pending.Some? then |p.pending.value| else 0
  {
    var line := Joined(p, cline);
    assert line == Joined(q, cline);
    if IsNoteLine(line) {
    } else if line[|line| - 1] == '\\' {
      var l := Some(line[..|line| - 1]);
      FinalSame(p.(pending := l), q.(pending := l), "");
    } else {
      var r, s := LogicalLine(p.conf, p.sk, line), LogicalLine(q.conf, p.sk, line);
      FinalLine(p, cline, line, r.0);
      FinalLine(q, cline, line, s.0);
      LogicalSame(p.conf, q.conf, p.sk, line, r, s);
    }
  }

  lemma FinalLine(p: Parser, cline: string, line: string, c: Conf)
    requires Joined(p, cline) == line && !IsNoteLine(line) && line[|line| - 1] != '\\'
    requires c == LogicalLine(p.conf, p.sk, line).0
    ensures Final(p, cline) == c
  {
  }

  lemma StepSame(p: Parser, q: Parser, cline: string)
    requires SameData(p, q)
    ensures SameData(Step(p, cline), Step(q, cline))
  {
    var line := Joined(p, cline);
    assert line == Joined(q, cline);
    if IsNoteLine(line) {
    } else if line[|line| - 1] == '\\' {
    } else {
      var r, s := LogicalLine(p.conf, p.sk, line), LogicalLine(q.conf, p.sk, line);
      LogicalSame(p.conf, q.conf, p.sk, line, r, s);
      assert Step(p, cline) == Parser(r.0, r.1, None) && Step(q, cline) == Parser(s.0, s.1, None);
    }
  }

  lemma LogicalSame(c: Conf, d: Conf, sk: string, line: string, r: (Conf, string), s: (Conf, string))
    requires !IsNoteLine(line) && c.submaps == d.submaps
    requires r == LogicalLine(c, sk, line) && s == LogicalLine(d, sk, line)
    ensures r.0.submaps == s.0.submaps && r.1 == s.1
  {
  }

  lemma {:induction false} ParseSame(p: Parser, q: Parser, text: string)
    requires SameData(p, q)
    ensures ParseText(p, text).submaps == ParseText(q, text).submaps
    decreases |text|
  {
    var i := Find(text, '\n');
    if i == |text| {
      FinalSame(p, q, text);
    } else {
      StepSame(p, q, text[..i]);
      ParseSame(Step(p, text[..i]), Step(q, text[..i]), text[i + 1..]);
    }
  }

  /** The line d in front of the text changes nothing in the data. */
  ghost predicate Unseen(p: Parser, d: string, rest: string) {
    p.pending.None? ==> ParseText(p, d + "\n" + rest).submaps == ParseText(p, rest).submaps
  }

  /** A stored note that parsing produced goes unnoticed in front of every text exactly when it does
      not end, its trailing carriage returns and blanks removed, with a backslash. */
  lemma NoteTransparentIff(d: string)
    requires StoredNote(d)
    ensures Harmless(d) <==> forall p: Parser, rest: string :: Unseen(p, d, rest)
  {
    if Harmless(d) {
      forall p: Parser, rest: string ensures Unseen(p, d, rest) {
        if p.pending.None? {
          NoteStep(p, d);
          ParseLine(p, d, rest);
          ParseSame(Step(p, d), p, rest);
        }
      }
    } else {
      var rest := HarmfulNote(d);
      assert !Unseen(Parser(EMPTY, "", None), d, rest);
    }
  }

  lemma OneLine(p: Parser, line: string)
    requires '\n' !in line && Step(p, line).pending.None?
    ensures ParseText(p, line + "\n") == Step(p, line).conf
  {
    assert line + "\n" + "" == line + "\n";
    ParseLine(p, line, "");
    assert Joined(Step(p, line), "") == "";
  }

  /** The continued line left by a harmful note. */
  lemma HarmfulStep(p: Parser, d: string) returns (l: string)
    requires StoredNote(d) && !Harmless(d) && p.pending.None?
    ensures Step(p, d) == p.(pending := Some(l)) && l + "\\" == Norm(d)
    ensures l != "" ==> l[0] !in BLANKS && l[0] != '#' && l[0] != '[' && (l[0] == '=' || '=' !in l)
    ensures '\n' !in l
  {
    var n := Norm(d);
    l := n[..|n| - 1];
    JoinedAlone(p, d);
    NormHead(d);
  }

  /** A file in which the note swallows the assignment that follows it. */
  lemma HarmfulNote(d: string) returns (rest: string)
    requires StoredNote(d) && !Harmless(d)
    ensures !Unseen(Parser(EMPTY, "", None), d, rest)
  {
    var p := Parser(EMPTY, "", None);
    var nm, v := "q", "1";
    var line := nm + " = " + v + "\n";
    var l := HarmfulStep(p, d);
    if l == "" {
      rest := "#" + "\n" + line;
      SwallowedByComment(p.(pending := Some(l)), nm, v);
      AfterComment(p, nm, v);
    } else {
      rest := line;
      Glued(p, l, nm, v);
      Assigned(p, nm, v);
    }
    ParseLine(p, d, rest);
  }

  lemma AfterComment(p: Parser, nm: string, v: string)
    requires p.pending.None? && WfName(nm) && WfValue(v)
    ensures Live(ParseText(p, "#" + "\n" + (nm + " = " + v + "\n")).submaps, p.sk, nm)
  {
    ParseLine(p, "#", nm + " = " + v + "\n");
    CommentRead(p);
    Assigned(Step(p, "#"), nm, v);
  }

  lemma CommentRead(p: Parser)
    requires p.pending.None?
    ensures Step(p, "#").pending.None? && Step(p, "#").conf.submaps == p.conf.submaps && Step(p, "#").sk == p.sk
  {
    JoinedAlone(p, "#");
    StripEolKept("#");
  }

  lemma Assigned(p: Parser, nm: string, v: string)
    requires p.pending.None? && WfName(nm) && WfValue(v)
    ensures Live(ParseText(p, nm + " = " + v + "\n").submaps, p.sk, nm)
  {
    VarStep(p, nm, v);
    OneLine(p, nm + " = " + v);
  }

  lemma JoinedPending(p: Parser, l: string, cline: string)
    requires p.pending.None? && StripEol(cline) == cline && StripEol(l + cline) == l + cline
    ensures Joined(p.(pending := Some(l)), cline) == Joined(p, l + cline)
  {
    JoinedAlone(p, l + cline);
  }

  /** A pending text goes in front of the name. */
  lemma Glued(p: Parser, l: string, nm: string, v: string)
    requires p == Parser(EMPTY, "", None) && WfName(nm) && WfValue(v) && v != ""
    requires l != "" && l[0] !in BLANKS && l[0] != '#' && l[0] != '[' && '\n' !in l
    requires l[0] == '=' || '=' !in l
    ensures !Live(ParseText(p.(pending := Some(l)), nm + " = " + v + "\n").submaps, "", nm)
  {
    var line := nm + " = " + v;
    GluedStep(p, l, nm, v);
    assert '\n' !in line;
    OneLine(p.(pending := Some(l)), line);
  }

  lemma GluedStep(p: Parser, l: string, nm: string, v: string)
    requires p == Parser(EMPTY, "", None) && WfName(nm) && WfValue(v) && v != ""
    requires l != "" && l[0] !in BLANKS && l[0] != '#' && l[0] != '[' && '\n' !in l
    requires l[0] == '=' || '=' !in l
    ensures var p' := Step(p.(pending := Some(l)), nm + " = " + v);
            p'.pending.None? && !Live(p'.conf.submaps, "", nm)
  {
    if l[0] == '=' {
      GluedJoin(p, l, nm, v);
      GluedNote(p.(pending := Some(l)), nm + " = " + v);
    } else {
      GluedName(p, l, nm, v);
      NotTheName(l, nm, v);
    }
  }

  lemma GluedName(p: Parser, l: string, nm: string, v: string)
    requires p.pending.None? && WfName(nm) && WfValue(v) && v != ""
    requires l != "" && l[0] !in BLANKS && l[0] != '#' && l[0] != '[' && '\n' !in l && '=' !in l
    ensures Step(p.(pending := Some(l)), nm + " = " + v) == p.(conf := SetInit(p.conf, l + nm, v, p.sk))
  {
    var name := l + nm;
    assert WfName(name);
    GluedJoin(p, l, nm, v);
    VarStep(p, name, v);
    SameLine(p.(pending := Some(l)), p, nm + " = " + v, name + " = " + v);
  }

  lemma NotTheName(l: string, nm: string, v: string)
    requires l != ""
    ensures !Live(SetInit(EMPTY, l + nm, v, "").submaps, "", nm)
  {
    assert |l + nm| > |nm|;
  }

  lemma SameLine(p: Parser, q: Parser, a: string, b: string)
    requires p.conf == q.conf && p.sk == q.sk && Joined(p, a) == Joined(q, b)
    requires !IsNoteLine(Joined(p, a))
    ensures Step(p, a) == Step(q, b)
  {
  }

  lemma GluedJoin(p: Parser, l: string, nm: string, v: string)
    requires p.pending.None? && WfName(nm) && WfValue(v) && v != ""
    requires l != "" && l[0] !in BLANKS
    ensures Joined(p.(pending := Some(l)), nm + " = " + v) == Joined(p, l + nm + " = " + v) == l + nm + " = " + v
  {
    var line := nm + " = " + v;
    var long := l + nm + " = " + v;
    assert l + line == long;
    StripEolKept(line);
    StripEolKept(long);
    JoinedPending(p, l, line);
    JoinedAlone(p, long);
  }

  lemma GluedNote(p1: Parser, line: string)
    requires Joined(p1, line) != "" && Joined(p1, line)[0] == '='
    requires Joined(p1, line)[|Joined(p1, line)| - 1] != '\\'
    ensures Step(p1, line).pending.None? && Step(p1, line).conf.submaps == p1.conf.submaps
  {
    var n := Joined(p1, line);
    assert Find(n, '=') == 0;
    assert Trim(n[..0], BLANKS) == "";
  }

  /** With nothing but a backslash left, the next comment stays open and takes the next line in. */
  lemma SwallowedByComment(p: Parser, nm: string, v: string)
    requires p == Parser(EMPTY, "", Some("")) && WfName(nm) && WfValue(v) && v != ""
    ensures ParseText(p, "#" + "\n" + (nm + " = " + v + "\n")).submaps == map[]
  {
    var line := nm + " = " + v;
    StripEolKept("#");
    assert "" + "#" == "#";
    var p1 := Step(p, "#");
    assert p1 == Parser(AddNote(EMPTY, "#"), "", Some("#"));
    ParseLine(p, "#", line + "\n");
    StaysOpen(p1, "#", nm, v);
  }

  lemma StaysOpen(p: Parser, l: string, nm: string, v: string)
    requires p.pending == Some(l) && l != "" && l[0] == '#' && WfName(nm) && WfValue(v) && v != ""
    ensures ParseText(p, nm + " = " + v + "\n").submaps == p.conf.submaps
  {
    assert p == p.(pending := None).(pending := Some(l));
    GluedJoin(p.(pending := None), l, nm, v);
    OpenAfter(p, nm + " = " + v, l + nm + " = " + v);
  }

  lemma OpenAfter(p: Parser, line: string, long: string)
    requires p.pending.Some? && Joined(p, line) == long && long != "" && long[0] == '#' && '\n' !in line
    ensures ParseText(p, line + "\n").submaps == p.conf.submaps
  {
    StillOpen(p, line, long);
    assert line + "\n" + "" == line + "\n";
    ParseLine(p, line, "");
    OpenComment(Step(p, line));
  }

  lemma StillOpen(p: Parser, line: string, long: string)
    requires p.pending.Some? && Joined(p, line) == long && long != "" && long[0] == '#'
    ensures Step(p, line).pending == Some(long) && Step(p, line).conf.submaps == p.conf.submaps
  {
  }

  lemma OpenComment(p: Parser)
    requires p.pending.Some? && p.pending.value != "" && p.pending.value[0] == '#'
    ensures ParseText(p, "").submaps == p.conf.submaps
  {
    assert p.pending.value + "" == p.pending.value;
    HeadOfTrim(p.pending.value, "");
  }

  /** A text for which the round trip fails: its first line is a comment only because blanks follow
      the carriage return, and those are not written back. */
  lemma StrayCrBreaksRoundTrip()
    ensures var text := "a\\\r" + " " + "\n" + ("q" + " = " + "1" + "\n");
            Parse(WriteText(Parse(text))).submaps != Parse(text).submaps
  {
    var d := "a\\\r";
    assert StripEol(d) == "a\\" by { assert d[..2] == "a\\"; }
    assert Norm(d) == "a\\";
    LosesVar(d, "q", "1");
  }

  lemma LosesVar(d: string, nm: string, v: string)
    requires StoredNote(d) && NoteEntry(d) == Comment(d) && d != "" && !Harmless(d) && |Norm(d)| > 1
    requires nm == "q" && v == "1"
    ensures var text := d + " " + "\n" + (nm + " = " + v + "\n");
            Parse(WriteText(Parse(text))).submaps != Parse(text).submaps
  {
    var c := Conf(map["" := map[nm := v]], [Comment(d), Var(nm, v)], []);
    StrayCrParsed(d, nm, v);
    StrayCrText(c, d, nm, v);
    HarmfulRead(d, nm, v);
    assert Live(c.submaps, "", nm);
  }

  lemma StrayCrParsed(d: string, nm: string, v: string)
    requires StoredNote(d) && NoteEntry(d) == Comment(d) && d != "" && WfName(nm) && WfValue(v)
    ensures Parse(d + " " + "\n" + (nm + " = " + v + "\n"))
         == Conf(map["" := map[nm := v]], [Comment(d), Var(nm, v)], [])
  {
    var p := Parser(EMPTY, "", None);
    var p1 := Parser(Conf(map[], [Comment(d)], []), "", None);
    assert Step(p, d + " ") == p1 by {
      BlankPadded(p, d);
      NotePadded(p, d);
    }
    ParseLine(p, d + " ", nm + " = " + v + "\n");
    VarStep(p1, nm, v);
    OneLine(p1, nm + " = " + v);
    FirstVar(p1.conf, nm, v);
  }

  lemma FirstVar(c: Conf, nm: string, v: string)
    requires c.submaps == map[] && |c.order| == 1 && !HasEol(v)
    ensures SetInit(c, nm, v, "") == Conf(map["" := map[nm := v]], [c.order[0], Var(nm, v)], c.subkeys)
  {
  }

  lemma BlankPadded(p: Parser, d: string)
    requires p.pending.None? && Trimmed(d, BLANKS)
    ensures Joined(p, d + " ") == d
  {
    StripEolKept(d + " ");
    JoinedAlone(p, d + " ");
    assert d + " " == "" + d + " ";
    TrimPadded("", d, " ", BLANKS);
  }

  lemma NotePadded(p: Parser, d: string)
    requires p == Parser(EMPTY, "", None) && StoredNote(d) && NoteEntry(d) == Comment(d) && Joined(p, d + " ") == d
    ensures Step(p, d + " ") == Parser(Conf(map[], [Comment(d)], []), "", None)
  {
    if !IsNoteLine(d) && d[0] == '=' {
      assert Find(d, '=') == 0;
      assert Trim(d[..0], BLANKS) == "";
    }
  }

  lemma HarmfulRead(d: string, nm: string, v: string)
    requires StoredNote(d) && !Harmless(d) && |Norm(d)| > 1 && WfName(nm) && WfValue(v) && v != ""
    ensures !Live(Parse(d + "\n" + (nm + " = " + v + "\n")).submaps, "", nm)
  {
    var p := Parser(EMPTY, "", None);
    ParseLine(p, d, nm + " = " + v + "\n");
    var l := HarmfulStep(p, d);
    Glued(p, l, nm, v);
  }

  lemma StrayCrText(c: Conf, d: string, nm: string, v: string)
    requires nm == "q" && v == "1"
    requires c == Conf(map["" := map[nm := v]], [Comment(d), Var(nm, v)], [])
    ensures WriteText(c) == d + "\n" + (nm + " = " + v + "\n")
  {
    var line := nm + " = " + v + "\n";
    assert SecAt(c.order, 1) == SecAt(c.order, 0) == "";
    assert LineText(c.order, 1, c.submaps) == line;
    assert OrderText(c.order, 2, c.submaps) == "";
    assert OrderText(c.order, 1, c.submaps) == line + "" == line;
    assert OrderText(c.order, 0, c.submaps) == d + "\n" + line;
  }
}
