/** The round trip of a whole file: when the data and the notes come back from what was written, exactly, for
    every text and every edit (src/conftree.cpp). */
module ConfReadBack {
  import opened Strings
  import opened ConfText
  import opened ConfRoundTrip
  import opened ConfRewrite
  import opened ConfRuns
  import opened ConfParsed

  /** Comments, commented-out assignments and blank lines, in order. */
  function Notes(order: seq<ConfLine>): seq<ConfLine> {
    if order == [] then []
    else Notes(order[..|order| - 1]) + if IsNote(order[|order| - 1]) then [order[|order| - 1]] else []
  }

  /** The same as a parser finds them again, trimmed. */
  function NotesBack(order: seq<ConfLine>): seq<ConfLine> {
    if order == [] then []
    else
      var l := order[|order| - 1];
      NotesBack(order[..|order| - 1]) + if IsNote(l) then [NoteEntry(Norm(l.data))] else []
  }

  lemma NotesAppend(order: seq<ConfLine>, l: ConfLine)
    ensures Notes(order + [l]) == Notes(order) + if IsNote(l) then [l] else []
    ensures NotesBack(order + [l]) == NotesBack(order) + if IsNote(l) then [NoteEntry(Norm(l.data))] else []
  {
    assert (order + [l])[..|order|] == order;
  }

  lemma {:induction false} NoteInNotes(order: seq<ConfLine>, i: nat)
    requires i < |order| && IsNote(order[i])
    ensures order[i] in Notes(order) && NoteEntry(Norm(order[i].data)) in NotesBack(order)
  {
    if i < |order| - 1 { NoteInNotes(order[..|order| - 1], i); }
  }

  lemma {:induction false} NotesInOrder(order: seq<ConfLine>, l: ConfLine)
    requires l in Notes(order)
    ensures l in order && IsNote(l)
  {
    if l in Notes(order[..|order| - 1]) { NotesInOrder(order[..|order| - 1], l); }
  }

  lemma SetInitNotes(c: Conf, nm: string, val: string, sk: string)
    ensures Notes(SetInit(c, nm, val, sk).order) == Notes(c.order)
  {
    NotesAppend(c.order, Sk(sk));
    NotesAppend(c.order, Var(nm, val));
    NotesAppend(c.order + [Sk(sk)], Var(nm, val));
  }

  lemma RereadLineNotes(order: seq<ConfLine>, i: nat, m: Submaps, c: Conf, c': Conf)
    requires i < |order| && Notes(c.order) == NotesBack(order[..i]) && c' == RereadLine(order, i, m, c)
    ensures Notes(c'.order) == NotesBack(order[..i + 1])
  {
    var l := order[i];
    assert order[..i + 1] == order[..i] + [l];
    NotesAppend(order[..i], l);
    NotesAppend(c.order, NoteEntry(Norm(l.data)));
    NotesAppend(c.order, l);
    if l.Var? && Live(m, SecAt(order, i), l.data) {
      SetInitNotes(c, l.data, m[SecAt(order, i)][l.data], SecAt(order, i));
    }
  }

  /** Re-reading finds every note, and no other. */
  lemma {:induction false} RereadNotes(order: seq<ConfLine>, i: nat, m: Submaps, c: Conf, r: Conf)
    requires i <= |order| && Notes(c.order) == NotesBack(order[..i]) && r == Reread(order, i, m, c)
    ensures Notes(r.order) == NotesBack(order)
    decreases |order| - i
  {
    if i < |order| {
      var c' := RereadLine(order, i, m, c);
      RereadLineNotes(order, i, m, c, c');
      RereadNotes(order, i + 1, m, c', r);
    } else {
      assert order[..i] == order;
    }
  }

  /** No text parses to a note like the one that a harmful one would have to come back as. */
  lemma HarmfulNeverBack(text: string, order: seq<ConfLine>)
    requires NotesStored(order) && Notes(Parse(text).order) == NotesBack(order)
    ensures NotesHarmless(order)
  {
    ParseOk(text);
    forall l | l in order && IsNote(l) ensures Harmless(l.data) {
      var i :| 0 <= i < |order| && order[i] == l;
      NoteInNotes(order, i);
      NotesInOrder(Parse(text).order, NoteEntry(Norm(l.data)));
    }
  }

  /** Parsing the printed lines has the effect of re-reading the live ones exactly when every note is harmless. */
  lemma ReadBackIff(c: Conf)
    requires WfMap(c.submaps) && NotesStored(c.order)
    ensures Parse(OrderText(c.order, 0, c.submaps)) == Reread(c.order, 0, c.submaps, EMPTY) <==> NotesHarmless(c.order)
  {
    RereadNotes(c.order, 0, c.submaps, EMPTY, Reread(c.order, 0, c.submaps, EMPTY));
    if NotesHarmless(c.order) {
      ReadBack(c);
    } else if Parse(OrderText(c.order, 0, c.submaps)) == Reread(c.order, 0, c.submaps, EMPTY) {
      HarmfulNeverBack(OrderText(c.order, 0, c.submaps), c.order);
    }
  }

  /** What is written reads back: the same data, and all notes in order. */
  ghost predicate ReadsBack(c: Conf) {
    var r := Parse(WriteText(c));
    r.submaps == c.submaps && Notes(r.order) == NotesBack(c.order)
  }

  /** It does exactly when every name, value and section is one that a file can hold, and every note harmless. */
  lemma RoundTripIff(c: Conf)
    requires Presentation(c) && NotesStored(c.order)
    ensures ReadsBack(c) <==> WfMap(c.submaps) && NotesHarmless(c.order)
  {
    ParseOk(WriteText(c));
    if WfMap(c.submaps) && NotesHarmless(c.order) {
      WriteReread(c);
      RereadComplete(c);
      RereadNotes(c.order, 0, c.submaps, EMPTY, Reread(c.order, 0, c.submaps, EMPTY));
    } else if ReadsBack(c) {
      HarmfulNeverBack(WriteText(c), c.order);
    }
  }

  /** Every text and every run of edits: nothing aborts, and the file written at the end reads back exactly when
      the edits left only data that a file can hold, and no harmful note. */
  lemma RunRoundTrip(text: string, ops: seq<Op>)
    ensures Run(Parse(text), ops).Some?
    ensures var c := Run(Parse(text), ops).value;
            && (ReadsBack(c) <==> WfMap(c.submaps) && NotesHarmless(c.order))
            && (NotesHarmless(c.order) ==> (Parse(WriteText(c)).submaps == c.submaps <==> WfMap(c.submaps)))
  {
    ParseOk(text);
    RunKeeps(Parse(text), ops);
    var c := Run(Parse(text), ops).value;
    RoundTripIff(c);
    if NotesHarmless(c.order) { DataRoundTripIff(c); }
  }

  /** With well-formed edits only the notes matter. */
  lemma WfRunRoundTrip(text: string, ops: seq<Op>)
    requires forall op :: op in ops ==> WfOp(op)
    ensures Run(Parse(text), ops).Some?
    ensures var c := Run(Parse(text), ops).value;
            && (ReadsBack(c) <==> NotesHarmless(c.order))
            && (CrOnlyInEols(text) ==> ReadsBack(c))
  {
    ParseOk(text);
    WfRun(Parse(text), ops);
    RunKeeps(Parse(text), ops);
    RunRoundTrip(text, ops);
    if CrOnlyInEols(text) {
      PlainNotesHarmless(Run(Parse(text), ops).value.order);
    }
  }
}
