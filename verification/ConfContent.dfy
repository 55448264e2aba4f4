/** The data-only form that is written for an object without a presentation, such as a copy
    (src/conftree.cpp, src/conftree.h). */
module ConfContent {
  import opened Strings
  import opened ConfText
  import opened ConfRoundTrip
  import opened ConfRewrite
  import opened ConfRuns
  import opened ConfParsed

  // ---------- reading back ----------

  /** The section that is read back for a printed name: cut at its first NUL, and trimmed where it was cut. */
  function ReadName(k: string): string {
    Trim(CString(k), "[] \t")
  }

  function HeaderConf(c: Conf, k: string): Conf {
    if k == "" then c
    else AddNote(c, "").(order := AddNote(c, "").order + [Sk(ReadName(k))], subkeys := c.subkeys + [ReadName(k)])
  }

  lemma BracketTrim(c: string)
    ensures Trim("[" + c + "]", "[] \t") == Trim(c, "[] \t")
  {
    var head, tail := TrimSplit(c, "[] \t");
    assert "[" + c + "]" == ("[" + head) + Trim(c, "[] \t") + (tail + "]");
    assert AllIn("[", "[] \t") && AllIn("]", "[] \t");
    TrimPadded("[" + head, Trim(c, "[] \t"), tail + "]", "[] \t");
  }

  /** A line in brackets names a section, whatever stands between them. */
  lemma BracketStep(p: Parser, c: string, k: string)
    requires p.pending.None? && '\n' !in c && k == Trim(c, "[] \t")
    ensures Step(p, "[" + c + "]")
         == Parser(p.conf.(order := p.conf.order + [Sk(k)], subkeys := p.conf.subkeys + [k]), k, None)
  {
    var line := "[" + c + "]";
    StripEolKept(line);
    JoinedAlone(p, line);
    assert Trimmed(line, BLANKS);
    BracketTrim(c);
    StepCompletes(p, line, LogicalLine(p.conf, p.sk, line));
  }

  lemma HeaderReadBack(p: Parser, k: string, rest: string)
    requires p.pending.None? && '\n' !in k && (k == "" ==> p.sk == "")
    ensures ParseText(p, HeaderText(k) + rest) == ParseText(Parser(HeaderConf(p.conf, k), ReadName(k), None), rest)
  {
    if k == "" {
      assert "" + rest == rest;
    } else {
      var line := "[" + CString(k) + "]";
      assert HeaderText(k) + rest == "" + "\n" + (line + "\n" + rest);
      ParseLine(p, "", line + "\n" + rest);
      assert Joined(p, "") == "";
      BracketStep(Step(p, ""), CString(k), ReadName(k));
      ParseLine(Step(p, ""), line, rest);
    }
  }

  function PutAll(c: Conf, sk: string, names: seq<string>, vars: map<string, string>): Conf
    requires forall nm :: nm in names ==> nm in vars
    decreases |names|
  {
    if names == [] then c else PutAll(SetInit(c, names[0], vars[names[0]], sk), sk, names[1..], vars)
  }

  lemma {:induction false} NamesReadBack(p: Parser, names: seq<string>, vars: map<string, string>, rest: string)
    requires p.pending.None?
    requires forall nm :: nm in names ==> nm in vars && WfName(nm) && WfValue(vars[nm])
    ensures ParseText(p, NamesText(names, vars) + rest)
         == ParseText(Parser(PutAll(p.conf, p.sk, names, vars), p.sk, None), rest)
    decreases |names|
  {
    if names == [] {
      assert "" + rest == rest;
    } else {
      var nm, tail := names[0], NamesText(names[1..], vars);
      NameReadBack(p, nm, vars[nm], tail, rest);
      NamesReadBack(p.(conf := SetInit(p.conf, nm, vars[nm], p.sk)), names[1..], vars, rest);
    }
  }

  lemma NameReadBack(p: Parser, nm: string, v: string, tail: string, rest: string)
    requires p.pending.None? && WfName(nm) && WfValue(v)
    ensures ParseText(p, VarText(nm, v) + tail + rest)
         == ParseText(p.(conf := SetInit(p.conf, nm, v, p.sk)), tail + rest)
  {
    Regroup(VarText(nm, v), tail, rest);
    VarParsed(p, nm, v, tail + rest);
  }

  ghost function ContentConf(c: Conf, keys: seq<string>, m: Submaps): Conf
    requires forall k :: k in keys ==> k in m
    decreases |keys|
  {
    if keys == [] then c
    else
      var k := keys[0];
      ContentConf(PutAll(HeaderConf(c, k), ReadName(k), Sorted(m[k].Keys), m[k]), keys[1..], m)
  }

  lemma {:induction false} ContentReadBack(p: Parser, keys: seq<string>, m: Submaps)
    requires p.pending.None? && WfMap(m) && forall k :: k in keys ==> k in m
    requires forall i :: 0 <= i < |keys| && keys[i] == "" ==> i == 0 && p.sk == ""
    ensures ParseText(p, ContentFrom(keys, m)) == ContentConf(p.conf, keys, m)
    decreases |keys|
  {
    if keys == [] {
      assert Joined(p, "") == "";
    } else {
      var k := keys[0];
      var names, rest := NamesText(Sorted(m[k].Keys), m[k]), ContentFrom(keys[1..], m);
      Regroup(HeaderText(k), names, rest);
      HeaderReadBack(p, k, names + rest);
      var p1 := Parser(HeaderConf(p.conf, k), ReadName(k), None);
      NamesReadBack(p1, Sorted(m[k].Keys), m[k], rest);
      ContentReadBack(p1.(conf := PutAll(p1.conf, p1.sk, Sorted(m[k].Keys), m[k])), keys[1..], m);
    }
  }

  lemma {:induction false} PutAllSound(c: Conf, sk: string, names: seq<string>, m: Submaps)
    requires Sub(c.submaps, m) && NonEmpty(c.submaps) && NoEols(m) && sk in m
    requires forall nm :: nm in names ==> nm in m[sk]
    ensures var r := PutAll(c, sk, names, m[sk]).submaps;
            Sub(c.submaps, r) && Sub(r, m) && NonEmpty(r) && forall nm :: nm in names ==> Live(r, sk, nm)
    decreases |names|
  {
    if names != [] {
      assert Live(m, sk, names[0]);
      PutSound(c.submaps, m, sk, names[0]);
      var c1 := SetInit(c, names[0], m[sk][names[0]], sk);
      PutAllSound(c1, sk, names[1..], m);
      SubTransitive(c.submaps, c1.submaps, PutAll(c, sk, names, m[sk]).submaps);
    }
  }

  /** No section name holds a NUL. */
  predicate NoNulSections(m: Submaps) {
    forall sk :: sk in m ==> '\0' !in sk
  }

  lemma {:induction false} ContentConfSound(c: Conf, keys: seq<string>, m: Submaps)
    requires Sub(c.submaps, m) && NonEmpty(c.submaps) && NoEols(m)
    requires forall k :: k in keys ==> k in m && ReadName(k) == k
    ensures var r := ContentConf(c, keys, m).submaps;
            Sub(c.submaps, r) && Sub(r, m) && NonEmpty(r)
            && forall k, nm :: k in keys && nm in m[k] ==> Live(r, k, nm)
    decreases |keys|
  {
    if keys != [] {
      var k := keys[0];
      var names := Sorted(m[k].Keys);
      PutAllSound(HeaderConf(c, k), k, names, m);
      var c1 := PutAll(HeaderConf(c, k), k, names, m[k]);
      ContentConfSound(c1, keys[1..], m);
      SubTransitive(c.submaps, c1.submaps, ContentConf(c, keys, m).submaps);
    }
  }

  lemma {:induction false} PutAllNoNul(c: Conf, sk: string, names: seq<string>, vars: map<string, string>)
    requires NoNulSections(c.submaps) && '\0' !in sk && forall nm :: nm in names ==> nm in vars
    ensures NoNulSections(PutAll(c, sk, names, vars).submaps)
    decreases |names|
  {
    if names != [] { PutAllNoNul(SetInit(c, names[0], vars[names[0]], sk), sk, names[1..], vars); }
  }

  lemma {:induction false} ContentConfNoNul(c: Conf, keys: seq<string>, m: Submaps)
    requires NoNulSections(c.submaps) && forall k :: k in keys ==> k in m
    ensures NoNulSections(ContentConf(c, keys, m).submaps)
    decreases |keys|
  {
    if keys != [] {
      var k := keys[0];
      TrimKeeps(CString(k), "[] \t");
      PutAllNoNul(HeaderConf(c, k), ReadName(k), Sorted(m[k].Keys), m[k]);
      ContentConfNoNul(PutAll(HeaderConf(c, k), ReadName(k), Sorted(m[k].Keys), m[k]), keys[1..], m);
    }
  }

  /** content_write() cuts section names: none that is read back holds a NUL. */
  lemma ContentReadBackNoNul(m: Submaps)
    requires WfMap(m)
    ensures NoNulSections(Parse(ContentText(m)).submaps)
  {
    SortedEmptyFirst(m.Keys);
    ContentReadBack(Parser(EMPTY, "", None), Sorted(m.Keys), m);
    ContentConfNoNul(EMPTY, Sorted(m.Keys), m);
  }

  /** The data alone reads back exactly when a file can hold it and no section name holds a NUL. */
  lemma ContentRoundTripIff(m: Submaps)
    requires NonEmpty(m)
    ensures Parse(ContentText(m)).submaps == m <==> WfMap(m) && NoNulSections(m)
  {
    ParseOk(ContentText(m));
    if WfMap(m) {
      ContentReadBackNoNul(m);
      if NoNulSections(m) {
        SortedEmptyFirst(m.Keys);
        var keys := Sorted(m.Keys);
        ContentReadBack(Parser(EMPTY, "", None), keys, m);
        ContentConfSound(EMPTY, keys, m);
        SubBoth(Parse(ContentText(m)).submaps, m);
      }
    }
  }

  // ---------- copies ----------

  /** The copy constructor and the assignment leave the presentation behind. */
  function Copy(c: Conf): Conf {
    Conf(c.submaps, [], [])
  }

  /** Any text, any well-formed edits, and then a copy: what is written for the copy reads back to the same data
      exactly when no section name holds a NUL. */
  lemma CopyRoundTripIff(text: string, ops: seq<Op>)
    requires forall op :: op in ops ==> WfOp(op)
    ensures Run(Parse(text), ops).Some?
    ensures var c := Run(Parse(text), ops).value;
            Parse(WriteText(Copy(c))).submaps == c.submaps <==> NoNulSections(c.submaps)
  {
    ParseOk(text);
    RunKeeps(Parse(text), ops);
    WfRun(Parse(text), ops);
    ContentRoundTripIff(Run(Parse(text), ops).value.submaps);
  }

  /** Parsed texts whose copies come back with another section. */
  lemma NulSectionCut(a: string, b: string, nm: string, v: string)
    requires '\0' !in a && a != "" && WfSection(a) && WfSection(a + "\0" + b) && WfName(nm) && WfValue(v)
    ensures var c := Parse("[" + (a + "\0" + b) + "]" + "\n" + (nm + " = " + v + "\n"));
            c.submaps == map[a + "\0" + b := map[nm := v]]
            && Parse(WriteText(Copy(c))).submaps == map[a := map[nm := v]]
  {
    var k := a + "\0" + b;
    OneSectionParsed(k, nm, v);
    CutAt(a, b);
    OneSectionCopied(k, nm, v, map[k := map[nm := v]]);
  }

  lemma OneSectionParsed(k: string, nm: string, v: string)
    requires WfSection(k) && WfName(nm) && WfValue(v)
    ensures Parse("[" + k + "]" + "\n" + (nm + " = " + v + "\n")).submaps == map[k := map[nm := v]]
  {
    var c := EMPTY.(order := EMPTY.order + [Sk(k)], subkeys := EMPTY.subkeys + [k]);
    SectionReadBack(Parser(EMPTY, "", None), k, nm + " = " + v + "\n");
    VarAtEnd(Parser(c, k, None), nm, v);
    FirstPut(c, nm, v, k);
  }

  lemma FirstPut(c: Conf, nm: string, v: string, sk: string)
    requires c.submaps == map[] && !HasEol(v)
    ensures SetInit(c, nm, v, sk).submaps == map[sk := map[nm := v]]
  {
  }

  lemma VarAtEnd(p: Parser, nm: string, v: string)
    requires p.pending.None? && WfName(nm) && WfValue(v)
    ensures ParseText(p, nm + " = " + v + "\n") == SetInit(p.conf, nm, v, p.sk)
  {
    var line := nm + " = " + v;
    VarStep(p, nm, v);
    assert line + "\n" + "" == line + "\n";
    ParseLine(p, line, "");
    NothingLeft(Step(p, line));
  }

  lemma OneSectionCopied(k: string, nm: string, v: string, m: Submaps)
    requires k != "" && WfSection(k) && WfName(nm) && WfValue(v) && m == map[k := map[nm := v]]
    ensures Parse(ContentText(m)).submaps == map[ReadName(k) := map[nm := v]]
  {
    assert nm in m[k];
    SortedOne(k, m.Keys);
    SortedOne(nm, m[k].Keys);
    ContentReadBack(Parser(EMPTY, "", None), [k], m);
    var c := HeaderConf(EMPTY, k);
    var r := SetInit(c, nm, v, ReadName(k));
    assert PutAll(c, ReadName(k), [nm], m[k]) == PutAll(r, ReadName(k), [], m[k]) == r;
    assert ContentConf(EMPTY, [k], m) == ContentConf(r, [], m) == r;
  }

  lemma SortedOne(k: string, s: set<string>)
    requires s == {k}
    ensures Sorted(s) == [k]
  {
    assert Sorted(s)[0] in s;
  }

  lemma CutAt(a: string, b: string)
    requires '\0' !in a && Trimmed(a, "[] \t")
    ensures ReadName(a + "\0" + b) == a
  {
    assert a + "\0" + b == a + ['\0'] + b;
    FindAfter(a, '\0', b);
  }
}
