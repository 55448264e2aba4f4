/** What parsing establishes for every text, and the round trip theorems (src/conftree.cpp). */
module ConfParsed {
  import opened Strings
  import opened ConfText
  import opened ConfRoundTrip
  import opened ConfRewrite
  import opened ConfRuns

  /** Carriage returns stand only before a newline or at the end. */
  predicate CrOnlyInEols(text: string) {
    forall i :: 0 <= i < |text| && text[i] == '\r' ==> i + 1 == |text| || text[i + 1] == '\n'
  }

  ghost predicate NotesParsed(order: seq<ConfLine>, plain: bool) {
    forall l :: l in order && IsNote(l) ==>
      StoredNote(l.data) && l == NoteEntry(l.data) && (plain ==> '\r' !in l.data)
  }

  ghost predicate ConfOk(c: Conf, plain: bool) {
    Presentation(c) && WfMap(c.submaps) && NotesParsed(c.order, plain)
  }

  ghost predicate ParserOk(p: Parser, plain: bool) {
    && ConfOk(p.conf, plain)
    && WfSection(p.sk) && SecAt(p.conf.order, |p.conf.order|) == p.sk
    && (p.pending.Some? ==> Clean(p.pending.value, plain))
  }

  predicate Clean(s: string, plain: bool) {
    '\n' !in s && (plain ==> '\r' !in s)
  }

  lemma AddNoteOk(c: Conf, line: string, plain: bool)
    requires ConfOk(c, plain) && StoredNote(line) && Clean(line, plain)
    ensures ConfOk(AddNote(c, line), plain)
    ensures SecAt(AddNote(c, line).order, |c.order| + 1) == SecAt(c.order, |c.order|)
  {
    var order := c.order + [NoteEntry(line)];
    SecAtPrefix(c.order, [NoteEntry(line)], |c.order|);
    assert order[|c.order|] == NoteEntry(line);
    forall sk, nm | Live(c.submaps, sk, nm) ensures Placed(order, sk, nm) {
      PlacedPrefix(c.order, [NoteEntry(line)], sk, nm);
    }
  }

  lemma AddSkOk(c: Conf, k: string, plain: bool)
    requires ConfOk(c, plain)
    ensures ConfOk(c.(order := c.order + [Sk(k)], subkeys := c.subkeys + [k]), plain)
  {
    forall sk, nm | Live(c.submaps, sk, nm) ensures Placed(c.order + [Sk(k)], sk, nm) {
      PlacedPrefix(c.order, [Sk(k)], sk, nm);
    }
  }

  lemma SetInitOrder(c: Conf, nm: string, val: string, sk: string)
    requires Presentation(c) && SecAt(c.order, |c.order|) == sk
    requires !HasEol(val) && !Live(c.submaps, sk, nm)
    ensures SetInit(c, nm, val, sk) == c.(submaps := Put(c.submaps, sk, nm, val), order := c.order + [Var(nm, val)])
  {
    if sk != "" {
      SecAtHasSk(c.order, |c.order|);
    }
  }

  lemma SetInitOk(c: Conf, nm: string, val: string, sk: string, plain: bool)
    requires ConfOk(c, plain) && SecAt(c.order, |c.order|) == sk
    requires WfSection(sk) && WfName(nm) && (HasEol(val) || WfValue(val))
    ensures var c' := SetInit(c, nm, val, sk);
            ConfOk(c', plain) && SecAt(c'.order, |c'.order|) == sk
  {
    if !HasEol(val) {
      WfPut(c.submaps, sk, nm, val);
      NonEmptyPut(c.submaps, sk, nm, val);
      if Live(c.submaps, sk, nm) {
        forall s, n | Live(Put(c.submaps, sk, nm, val), s, n) ensures Placed(c.order, s, n) {
          LivePut(c.submaps, sk, nm, val, s, n);
        }
      } else {
        SetInitOrder(c, nm, val, sk);
        AppendVarPlaced(c, nm, val, sk);
      }
    }
  }

  lemma WfPut(m: Submaps, sk: string, nm: string, val: string)
    requires WfMap(m) && WfSection(sk) && WfName(nm) && WfValue(val)
    ensures WfMap(Put(m, sk, nm, val))
  {
    var m' := Put(m, sk, nm, val);
    assert nm in m'[sk];
    forall s | s in m'
      ensures WfSection(s) && m'[s] != map[] && forall n :: n in m'[s] ==> WfName(n) && WfValue(m'[s][n])
    {
    }
  }

  lemma AppendVarPlaced(c: Conf, nm: string, val: string, sk: string)
    requires Presentation(c) && SecAt(c.order, |c.order|) == sk
    ensures var order := c.order + [Var(nm, val)];
            AllPlaced(order, Put(c.submaps, sk, nm, val)) && SecAt(order, |order|) == sk
  {
    var order := c.order + [Var(nm, val)];
    SecAtPrefix(c.order, [Var(nm, val)], |c.order|);
    assert order[|c.order|] == Var(nm, val);
    forall s, n | Live(Put(c.submaps, sk, nm, val), s, n) ensures Placed(order, s, n) {
      LivePut(c.submaps, sk, nm, val, s, n);
      if Live(c.submaps, s, n) {
        PlacedPrefix(c.order, [Var(nm, val)], s, n);
      }
    }
  }

  lemma NameOk(line: string, eq: nat)
    requires Trimmed(line, BLANKS) && eq < |line| && eq == Find(line, '=') && '\n' !in line
    requires line[0] != '#' && line[0] != '['
    ensures var nm := Trim(line[..eq], BLANKS); nm == "" || WfName(nm)
    ensures Trim(line[..eq], BLANKS) == "" ==> line[0] == '='
  {
    var left := line[..eq];
    TrimKeeps(left, BLANKS);
    if left != "" {
      TrimRightStops(left, BLANKS);
      assert Trim(left, BLANKS) == TrimRight(left, BLANKS);
    }
  }

  lemma ValueOk(line: string, i: nat)
    requires Trimmed(line, BLANKS) && i < |line| && line[|line| - 1] != '\\'
    ensures var v := Trim(line[i + 1..], BLANKS); HasEol(v) || WfValue(v)
  {
    var right := line[i + 1..];
    if right != "" {
      assert right[|right| - 1] == line[|line| - 1];
      assert TrimRight(right, BLANKS) == right;
    }
  }

  lemma LogicalOk(c: Conf, sk: string, line: string, plain: bool)
    requires ConfOk(c, plain) && WfSection(sk) && SecAt(c.order, |c.order|) == sk
    requires !IsNoteLine(line) && Trimmed(line, BLANKS) && Clean(line, plain) && line[|line| - 1] != '\\'
    ensures var (c', k) := LogicalLine(c, sk, line);
            ConfOk(c', plain) && WfSection(k) && SecAt(c'.order, |c'.order|) == k
  {
    if line[0] == '[' {
      TrimKeeps(line, "[] \t");
      AddSkOk(c, Trim(line, "[] \t"), plain);
    } else {
      var eq := Find(line, '=');
      if eq == |line| {
        AddNoteOk(c, line, plain);
      } else {
        NameOk(line, eq);
        ValueOk(line, eq);
        var nm := Trim(line[..eq], BLANKS);
        if nm == "" {
          AddNoteOk(c, line, plain);
        } else {
          SetInitOk(c, nm, Trim(line[eq + 1..], BLANKS), sk, plain);
        }
      }
    }
  }

  lemma JoinedClean(p: Parser, cline: string, plain: bool)
    requires p.pending.Some? ==> Clean(p.pending.value, plain)
    requires Clean(StripEol(cline), plain)
    ensures Clean(Joined(p, cline), plain)
  {
    TrimKeeps((if p.pending.Some? then p.pending.value else "") + StripEol(cline), BLANKS);
  }

  lemma StepOk(p: Parser, cline: string, plain: bool)
    requires ParserOk(p, plain) && Clean(StripEol(cline), plain)
    ensures ParserOk(Step(p, cline), plain)
  {
    var line := Joined(p, cline);
    JoinedClean(p, cline, plain);
    if IsNoteLine(line) {
      AddNoteOk(p.conf, line, plain);
    } else if line[|line| - 1] != '\\' {
      LogicalOk(p.conf, p.sk, line, plain);
    }
  }

  lemma {:induction false} FinalOk(p: Parser, cline: string, plain: bool)
    requires ParserOk(p, plain) && Clean(StripEol(cline), plain)
    ensures ConfOk(Final(p, cline), plain)
    decreases |cline| + if p.pending.Some? then |p.pending.value| else 0
  {
    var line := Joined(p, cline);
    JoinedClean(p, cline, plain);
    if !IsNoteLine(line) {
      if line[|line| - 1] == '\\' {
        FinalOk(p.(pending := Some(line[..|line| - 1])), "", plain);
      } else {
        LogicalOk(p.conf, p.sk, line, plain);
      }
    }
  }

  lemma StripEolClean(cline: string, plain: bool)
    requires '\n' !in cline
    requires plain ==> forall i :: 0 <= i < |cline| - 1 ==> cline[i] != '\r'
    ensures Clean(StripEol(cline), plain)
  {
    var tail := TrimRightSplit(cline, EOLS);
    assert forall c :: c in StripEol(cline) ==> c in cline by {
      assert forall c :: c in StripEol(cline) ==> c in StripEol(cline) + tail;
    }
    if plain && '\r' in StripEol(cline) {
      assert false;
    }
  }

  lemma CrHead(text: string, i: nat)
    requires i <= |text| && '\n' !in text[..i]
    ensures CrOnlyInEols(text) ==> forall j :: 0 <= j < i - 1 ==> text[..i][j] != '\r'
  {
    if CrOnlyInEols(text) {
      forall j | 0 <= j < i - 1 ensures text[..i][j] != '\r' {
        assert text[..i][j] == text[j] && text[..i][j + 1] == text[j + 1];
      }
    }
  }

  lemma CrTail(text: string, i: nat)
    requires i <= |text|
    ensures CrOnlyInEols(text) ==> CrOnlyInEols(text[i..])
  {
    if CrOnlyInEols(text) {
      forall j | 0 <= j < |text[i..]| && text[i..][j] == '\r'
        ensures j + 1 == |text[i..]| || text[i..][j + 1] == '\n'
      {
        assert text[i + j] == '\r';
      }
    }
  }

  lemma {:induction false} ParseTextOk(p: Parser, text: string, plain: bool)
    requires ParserOk(p, plain) && (plain ==> CrOnlyInEols(text))
    ensures ConfOk(ParseText(p, text), plain)
    decreases |text|
  {
    var i := Find(text, '\n');
    CrHead(text, i);
    StripEolClean(text[..i], plain);
    if i == |text| {
      assert text[..i] == text;
      FinalOk(p, text, plain);
    } else {
      StepOk(p, text[..i], plain);
      CrTail(text, i + 1);
      ParseTextOk(Step(p, text[..i]), text[i + 1..], plain);
    }
  }

  /** Every parsed text is well formed; without stray carriage returns its notes have none. */
  lemma ParseOk(text: string)
    ensures ConfOk(Parse(text), CrOnlyInEols(text))
  {
    ParseTextOk(Parser(EMPTY, "", None), text, CrOnlyInEols(text));
  }

  // ---------- the round trip ----------

  lemma WriteReread(c: Conf)
    requires Presentation(c) && NotesHarmless(c.order) && WfMap(c.submaps)
    ensures Parse(WriteText(c)) == Reread(c.order, 0, c.submaps, EMPTY)
  {
    if c.order == [] {
      assert c.submaps == map[] by {
        if sk :| sk in c.submaps {
          var nm :| nm in c.submaps[sk];
          assert Live(c.submaps, sk, nm);
          assert false;
        }
      }
      assert Sorted({}) == [];
    }
    ReadBack(c);
  }

  /** With harmless notes, what is written reads back to the same data exactly when every name, value and
      section is one that a file can hold. */
  lemma DataRoundTripIff(c: Conf)
    requires Presentation(c) && NotesHarmless(c.order)
    ensures Parse(WriteText(c)).submaps == c.submaps <==> WfMap(c.submaps)
  {
    ParseOk(WriteText(c));
    if WfMap(c.submaps) {
      WriteReread(c);
      RereadComplete(c);
    }
  }

  lemma PlainNotesHarmless(order: seq<ConfLine>)
    requires NotesParsed(order, true)
    ensures NotesHarmless(order)
  {
    forall l | l in order && IsNote(l) ensures Harmless(l.data) {
      NormPlain(l.data);
    }
  }

  /** A text whose carriage returns are all in line ends has only harmless notes. */
  lemma PlainTextHarmless(text: string)
    requires CrOnlyInEols(text)
    ensures NotesHarmless(Parse(text).order)
  {
    ParseOk(text);
    PlainNotesHarmless(Parse(text).order);
  }

  lemma NormPlain(d: string)
    requires StoredNote(d) && '\r' !in d
    ensures Norm(d) == d
  {
    StripEolKept(d);
  }

  /** Well-formed edits: names, sections and accepted values that a file can hold. */
  predicate WfOp(op: Op) {
    op.Set? ==> WfName(op.nm) && WfSection(op.sk) && (HasEol(op.val) || WfValue(op.val))
  }

  lemma {:induction false} WfRun(c: Conf, ops: seq<Op>)
    requires Presentation(c) && WfMap(c.submaps) && forall op :: op in ops ==> WfOp(op)
    ensures Run(c, ops).Some? && WfMap(Run(c, ops).value.submaps)
    decreases |ops|
  {
    if ops != [] {
      ApplyKeeps(c, ops[0]);
      assert WfOp(ops[0]);
      WfApply(c, ops[0]);
      WfRun(Apply(c, ops[0]).value, ops[1..]);
    }
  }

  lemma WfApply(c: Conf, op: Op)
    requires Presentation(c) && WfMap(c.submaps) && WfOp(op) && Apply(c, op).Some?
    ensures WfMap(Apply(c, op).value.submaps)
  {
    if op.Set? && !HasEol(op.val) {
      WfPut(c.submaps, op.sk, op.nm, op.val);
    }
  }
}
