/** Exactly when rewriting a file that was already rewritten changes nothing (src/conftree.cpp). */
module ConfStable {
  import opened Strings
  import opened ConfText
  import opened ConfRoundTrip
  import opened ConfRewrite
  import opened ConfRuns
  import opened ConfParsed
  import opened ConfReadBack

  lemma SameRereadLine(order: seq<ConfLine>, longer: seq<ConfLine>, i: nat, m: Submaps, c: Conf)
    requires i < |order| <= |longer| && longer[..|order|] == order
    ensures RereadLine(longer, i, m, c) == RereadLine(order, i, m, c)
  {
    assert longer == order + longer[|order|..];
    SecAtPrefix(order, longer[|order|..], i);
    assert longer[i] == order[i];
  }

  lemma {:induction false} RereadAppend(order: seq<ConfLine>, i: nat, l: ConfLine, m: Submaps, c: Conf)
    requires i <= |order|
    ensures Reread(order + [l], i, m, c) == RereadLine(order + [l], |order|, m, Reread(order, i, m, c))
    decreases |order| - i
  {
    var longer := order + [l];
    if i < |order| {
      SameRereadLine(order, longer, i, m, c);
      RereadAppend(order, i + 1, l, m, RereadLine(order, i, m, c));
    } else {
      var r := RereadLine(longer, i, m, c);
      assert Reread(longer, i + 1, m, r) == r;
    }
  }

  /** Reading a note back a second time gives what the first time gave. Not so for a carriage return behind
      blanks behind another one. */
  predicate Steady(d: string) {
    Norm(Norm(d)) == Norm(d)
  }

  predicate NotesSteady(order: seq<ConfLine>) {
    forall l :: l in order && IsNote(l) ==> Steady(l.data)
  }

  /** Such a note is stored for the line with a blank more at its end. */
  lemma UnsteadyNote()
    ensures var d := "x\r \r"; StoredNote(d) && Harmless(d) && !Steady(d) && Norm(d + " ") == d
  {
    var d := "x\r \r";
    assert d[..3] == "x\r " && d[..3][..2] == "x\r" && "x\r"[..1] == "x";
    assert StripEol(d) == "x\r " && Norm(d) == "x\r";
    assert StripEol("x\r") == "x" && Norm("x\r") == "x";
    StripEolKept(d + " ");
    assert (d + " ")[..4] == d;
    assert Norm(d + " ") == d;
  }

  /** A note that has nothing left to trim. */
  predicate SettledNote(l: ConfLine) {
    StoredNote(l.data) && l == NoteEntry(l.data) && Norm(l.data) == l.data
  }

  lemma NoteSettles(d: string)
    requires StoredNote(d) && Harmless(d)
    ensures Steady(d) <==> SettledNote(NoteEntry(Norm(d)))
  {
    NormHead(d);
  }

  /** The object that re-reading has built so far would itself be re-read unchanged. */
  ghost predicate Settled(c: Conf, m: Submaps) {
    Reread(c.order, 0, m, EMPTY) == c && forall l :: l in c.order && IsNote(l) ==> SettledNote(l)
  }

  lemma SettledAppend(c: Conf, m: Submaps, l: ConfLine, c': Conf)
    requires Settled(c, m) && c'.order == c.order + [l]
    requires RereadLine(c'.order, |c.order|, m, c) == c'
    requires IsNote(l) ==> SettledNote(l)
    ensures Settled(c', m)
  {
    RereadAppend(c.order, 0, l, m, EMPTY);
  }

  /** Well-formed data with harmless and steady notes. */
  type Steadied = c: Conf | NotesHarmless(c.order) && NotesSteady(c.order) && NoEols(c.submaps) witness EMPTY

  /** c is settled, and ready for the i-th line. */
  ghost predicate Settling(o: Steadied, i: nat, c: Conf)
    requires i <= |o.order|
  {
    && Settled(c, o.submaps) && Sub(c.submaps, o.submaps) && NonEmpty(c.submaps)
    && (SecAt(o.order, i) in o.submaps ==> SecAt(c.order, |c.order|) == SecAt(o.order, i))
  }

  lemma SettleNext(o: Steadied, i: nat, c: Conf) returns (c': Conf)
    requires i < |o.order| && Settling(o, i, c)
    ensures Settling(o, i + 1, c')
    ensures Reread(o.order, i + 1, o.submaps, c') == Reread(o.order, i, o.submaps, c)
  {
    c' := RereadLine(o.order, i, o.submaps, c);
    RereadLineSound(o.order, i, o.submaps, c);
    SettleLine(o.order, i, o.submaps, c, c');
  }

  lemma {:induction false} RereadSettles(o: Steadied, i: nat, c: Conf, r: Conf)
    requires i <= |o.order| && Settling(o, i, c) && r == Reread(o.order, i, o.submaps, c)
    ensures Settled(r, o.submaps)
    decreases |o.order| - i
  {
    if i < |o.order| {
      var c' := SettleNext(o, i, c);
      RereadSettles(o, i + 1, c', r);
    }
  }

  lemma SettleLine(order: seq<ConfLine>, i: nat, m: Submaps, c: Conf, c': Conf)
    requires i < |order| && NotesHarmless(order) && NotesSteady(order) && NoEols(m)
    requires Settled(c, m) && Sub(c.submaps, m)
    requires SecAt(order, i) in m ==> SecAt(c.order, |c.order|) == SecAt(order, i)
    requires c' == RereadLine(order, i, m, c)
    ensures Settled(c', m)
    ensures SecAt(order, i + 1) in m ==> SecAt(c'.order, |c'.order|) == SecAt(order, i + 1)
  {
    var l := order[i];
    if IsNote(l) {
      NoteSettles(l.data);
      SettleNote(c, m, Norm(l.data));
    } else if l.Sk? {
      if l.data in m {
        SettledAppend(c, m, l, c');
      }
    } else if Live(m, SecAt(order, i), l.data) {
      SettleVar(c, m, SecAt(order, i), l.data);
    }
  }

  lemma SettleNote(c: Conf, m: Submaps, n: string)
    requires Settled(c, m) && SettledNote(NoteEntry(n))
    ensures var c' := AddNote(c, n);
            Settled(c', m) && SecAt(c'.order, |c'.order|) == SecAt(c.order, |c.order|)
  {
    var c' := AddNote(c, n);
    assert c'.order[|c.order|] == NoteEntry(n);
    SecAtPrefix(c.order, [NoteEntry(n)], |c.order|);
    SettledAppend(c, m, NoteEntry(n), c');
  }

  lemma SettleVar(c: Conf, m: Submaps, sk: string, nm: string)
    requires Settled(c, m) && Sub(c.submaps, m) && Live(m, sk, nm) && NoEols(m)
    requires SecAt(c.order, |c.order|) == sk
    ensures var c' := SetInit(c, nm, m[sk][nm], sk);
            Settled(c', m) && SecAt(c'.order, |c'.order|) == sk
  {
    var c' := SetInit(c, nm, m[sk][nm], sk);
    if Live(c.submaps, sk, nm) {
      assert Live(c.submaps, sk, nm) && c.submaps[sk][nm] == m[sk][nm];
      assert c'.submaps[sk] == c.submaps[sk];
      assert c'.submaps == c.submaps;
    } else {
      if sk != "" { SecAtHasSk(c.order, |c.order|); }
      var l := Var(nm, m[sk][nm]);
      assert c'.order == c.order + [l];
      assert c'.order[|c.order|] == l;
      SecAtPrefix(c.order, [l], |c.order|);
      SettledAppend(c, m, l, c');
    }
  }

  lemma SettledReadsBack(c: Conf, c1: Conf)
    requires Presentation(c) && WfMap(c.submaps) && NotesHarmless(c.order) && NotesSteady(c.order)
    requires c1 == Parse(WriteText(c))
    ensures NotesHarmless(c1.order) && Parse(WriteText(c1)) == c1
  {
    WriteReread(c);
    RereadComplete(c);
    assert SecAt([], 0) == "";
    RereadSettles(c, 0, EMPTY, c1);
    ParseOk(WriteText(c));
    WriteReread(c1);
  }

  lemma {:induction false} NotesPaired(order: seq<ConfLine>)
    ensures |NotesBack(order)| == |Notes(order)|
  {
    if order != [] { NotesPaired(order[..|order| - 1]); }
  }

  lemma {:induction false} NotesBackSame(order: seq<ConfLine>, i: nat)
    requires NotesBack(order) == Notes(order) && i < |order| && IsNote(order[i])
    ensures NoteEntry(Norm(order[i].data)) == order[i]
  {
    var front := order[..|order| - 1];
    var k := |Notes(front)|;
    NotesPaired(front);
    assert Notes(order)[..k] == Notes(front) && NotesBack(order)[..k] == NotesBack(front);
    if i < |order| - 1 {
      NotesBackSame(front, i);
    } else {
      assert Notes(order)[k] == order[i] && NotesBack(order)[k] == NoteEntry(Norm(order[i].data));
    }
  }

  lemma UnchangedMeansSteady(order: seq<ConfLine>, order1: seq<ConfLine>)
    requires Notes(order1) == NotesBack(order) && NotesBack(order1) == Notes(order1)
    ensures NotesSteady(order)
  {
    forall l | l in order && IsNote(l) ensures Steady(l.data) {
      var i :| 0 <= i < |order| && order[i] == l;
      NoteInNotes(order, i);
      var n := NoteEntry(Norm(l.data));
      NotesInOrder(order1, n);
      var j :| 0 <= j < |order1| && order1[j] == n;
      NotesBackSame(order1, j);
    }
  }

  /** A file that was written and read back stays what it is through any further rewrite, with all its notes,
      exactly when every note is steady. */
  lemma RewriteSettlesIff(c: Conf, c1: Conf)
    requires Presentation(c) && WfMap(c.submaps) && NotesHarmless(c.order) && c1 == Parse(WriteText(c))
    ensures c1.submaps == c.submaps
    ensures ReadsBack(c1) <==> NotesHarmless(c1.order)
    ensures ReadsBack(c1) && Parse(WriteText(c1)) == c1 <==> NotesSteady(c.order)
  {
    DataRoundTripIff(c);
    RoundTripIff(c);
    ParseOk(WriteText(c));
    RoundTripIff(c1);
    if NotesSteady(c.order) {
      SettledReadsBack(c, c1);
    } else if ReadsBack(c1) && Parse(WriteText(c1)) == c1 {
      UnchangedMeansSteady(c.order, c1.order);
    }
  }

  lemma PlainNotesSteady(order: seq<ConfLine>)
    requires NotesParsed(order, true)
    ensures NotesHarmless(order) && NotesSteady(order) && NotesBack(order) == Notes(order)
  {
    PlainNotesHarmless(order);
    forall l | l in order && IsNote(l) ensures Norm(l.data) == l.data { NormPlain(l.data); }
    SameNotes(order);
  }

  lemma {:induction false} SameNotes(order: seq<ConfLine>)
    requires forall l :: l in order && IsNote(l) ==> NoteEntry(Norm(l.data)) == l
    ensures NotesBack(order) == Notes(order)
  {
    if order != [] {
      SameNotes(order[..|order| - 1]);
      assert order[|order| - 1] in order;
    }
  }

  /** Every text and every run of well-formed edits: what is written reads back now and after any further
      rewrite exactly when every note is harmless and steady. Carriage returns at line ends only: then it does,
      and no note changes at all. */
  lemma RunStable(text: string, ops: seq<Op>)
    requires forall op :: op in ops ==> WfOp(op)
    ensures Run(Parse(text), ops).Some?
    ensures var c := Run(Parse(text), ops).value;
            var c1 := Parse(WriteText(c));
            && (ReadsBack(c) && ReadsBack(c1) && Parse(WriteText(c1)) == c1
                <==> NotesHarmless(c.order) && NotesSteady(c.order))
            && (CrOnlyInEols(text) ==>
                  NotesHarmless(c.order) && NotesSteady(c.order) && Notes(c1.order) == Notes(c.order))
  {
    ParseOk(text);
    RunKeeps(Parse(text), ops);
    WfRun(Parse(text), ops);
    var c := Run(Parse(text), ops).value;
    RoundTripIff(c);
    if NotesHarmless(c.order) {
      RewriteSettlesIff(c, Parse(WriteText(c)));
    }
    if CrOnlyInEols(text) {
      PlainNotesSteady(c.order);
    }
  }
}
