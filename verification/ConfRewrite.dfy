/** The two structures of a configuration agree, so that what is written reads back (src/conftree.cpp). */
module ConfRewrite {
  import opened Strings
  import opened ConfText
  import opened ConfRoundTrip

  // ---------- the presentation invariant ----------

  ghost predicate Placed(order: seq<ConfLine>, sk: string, nm: string) {
    exists i :: 0 <= i < |order| && order[i].Var? && order[i].data == nm && SecAt(order, i) == sk
  }

  ghost predicate AllPlaced(order: seq<ConfLine>, m: Submaps) {
    forall sk, nm :: Live(m, sk, nm) ==> Placed(order, sk, nm)
  }

  predicate NonEmpty(m: Submaps) {
    forall sk :: sk in m ==> m[sk] != map[]
  }

  /** Every live variable has an entry in the zone of its section, and no section is empty. */
  ghost predicate Presentation(c: Conf) {
    AllPlaced(c.order, c.submaps) && NonEmpty(c.submaps)
  }

  lemma {:induction false} SecAtHasSk(order: seq<ConfLine>, i: nat)
    requires i <= |order| && SecAt(order, i) != ""
    ensures exists j :: 0 <= j < i && order[j] == Sk(SecAt(order, i))
  {
    if !order[i - 1].Sk? {
      SecAtHasSk(order, i - 1);
    } else {
      assert order[i - 1] == Sk(SecAt(order, i));
    }
  }

  /** Every live non-empty section has an SK entry. */
  lemma LiveSectionHasSk(c: Conf, sk: string)
    requires Presentation(c) && sk in c.submaps && sk != ""
    ensures Sk(sk) in c.order
  {
    var nm :| nm in c.submaps[sk];
    assert Live(c.submaps, sk, nm);
    var i :| 0 <= i < |c.order| && c.order[i].Var? && c.order[i].data == nm && SecAt(c.order, i) == sk;
    SecAtHasSk(c.order, i);
  }

  lemma {:induction false} SecAtPrefix(order: seq<ConfLine>, more: seq<ConfLine>, i: nat)
    requires i <= |order|
    ensures SecAt(order + more, i) == SecAt(order, i)
  {
    if i > 0 { SecAtPrefix(order, more, i - 1); }
  }

  lemma PlacedPrefix(order: seq<ConfLine>, more: seq<ConfLine>, sk: string, nm: string)
    requires Placed(order, sk, nm)
    ensures Placed(order + more, sk, nm)
  {
    var i :| 0 <= i < |order| && order[i].Var? && order[i].data == nm && SecAt(order, i) == sk;
    SecAtPrefix(order, more, i);
    assert (order + more)[i] == order[i];
  }

  // ---------- what reading back does, without the text ----------

  function RereadLine(order: seq<ConfLine>, i: nat, m: Submaps, c: Conf): Conf
    requires i < |order|
  {
    match order[i]
    case Comment(d) => AddNote(c, Norm(d))
    case VarComment(d, _) => AddNote(c, Norm(d))
    case Sk(k) => if k in m then c.(order := c.order + [Sk(k)], subkeys := c.subkeys + [k]) else c
    case Var(nm, _) =>
      var sk := SecAt(order, i);
      if Live(m, sk, nm) then SetInit(c, nm, m[sk][nm], sk) else c
  }

  function Reread(order: seq<ConfLine>, i: nat, m: Submaps, c: Conf): Conf
    requires i <= |order|
    decreases |order| - i
  {
    if i == |order| then c else Reread(order, i + 1, m, RereadLine(order, i, m, c))
  }

  /** The parser once it has read back one printed line. */
  function AfterLine(order: seq<ConfLine>, i: nat, m: Submaps, p: Parser): Parser
    requires i < |order|
  {
    Parser(RereadLine(order, i, m, p.conf), if order[i].Sk? && order[i].data in m then order[i].data else p.sk, None)
  }

  /** The current section is that of the next line, unless that one is dead. */
  lemma SectionFollows(order: seq<ConfLine>, i: nat, m: Submaps, p: Parser)
    requires i < |order| && (SecAt(order, i) in m ==> p.sk == SecAt(order, i))
    ensures SecAt(order, i + 1) in m ==> AfterLine(order, i, m, p).sk == SecAt(order, i + 1)
  {
  }

  /** A configuration that can be written and read back. */
  type Writable = c: Conf | NotesHarmless(c.order) && WfMap(c.submaps) witness EMPTY

  /** From the i-th line on, parsing what is printed re-reads the live lines. */
  ghost predicate ReadsFrom(c: Writable, i: nat, p: Parser)
    requires i <= |c.order|
  {
    ParseText(p, OrderText(c.order, i, c.submaps)) == Reread(c.order, i, c.submaps, p.conf)
  }

  /** The parser is ready for the i-th line: in its section, unless that one is dead. */
  ghost predicate Ready(c: Writable, i: nat, p: Parser)
    requires i <= |c.order|
  {
    p.pending.None? && (SecAt(c.order, i) in c.submaps ==> p.sk == SecAt(c.order, i))
  }

  /** The parser after the i-th line, and what is left to show for it. */
  lemma ReadsNext(c: Writable, i: nat, p: Parser) returns (p': Parser)
    requires i < |c.order| && Ready(c, i, p)
    ensures Ready(c, i + 1, p')
    ensures ReadsFrom(c, i + 1, p') ==> ReadsFrom(c, i, p)
  {
    p' := AfterLine(c.order, i, c.submaps, p);
    SectionFollows(c.order, i, c.submaps, p);
    var rest := OrderText(c.order, i + 1, c.submaps);
    LineReadBack(c.order, i, c.submaps, p, p', rest);
    assert OrderText(c.order, i, c.submaps) == LineText(c.order, i, c.submaps) + rest;
    assert Reread(c.order, i, c.submaps, p.conf) == Reread(c.order, i + 1, c.submaps, p'.conf);
  }

  lemma ReadsEnd(c: Writable, p: Parser)
    requires p.pending.None?
    ensures ReadsFrom(c, |c.order|, p)
  {
    NothingLeft(p);
  }

  lemma {:induction false} ReadLines(c: Writable, i: nat, p: Parser)
    requires i <= |c.order| && Ready(c, i, p)
    ensures ReadsFrom(c, i, p)
    decreases |c.order| - i
  {
    if i < |c.order| {
      var p' := ReadsNext(c, i, p);
      ReadLines(c, i + 1, p');
    } else {
      ReadsEnd(c, p);
    }
  }

  /** Parsing the printed lines has exactly the effect of re-reading the live ones. */
  lemma ReadBack(c: Conf)
    requires NotesHarmless(c.order) && WfMap(c.submaps)
    ensures Parse(OrderText(c.order, 0, c.submaps)) == Reread(c.order, 0, c.submaps, EMPTY)
  {
    ReadLines(c, 0, Parser(EMPTY, "", None));
  }

  lemma NothingLeft(p: Parser)
    requires p.pending.None?
    ensures ParseText(p, "") == p.conf
  {
    assert Joined(p, "") == "";
  }

  lemma LineReadBack(order: seq<ConfLine>, i: nat, m: Submaps, p: Parser, p': Parser, rest: string)
    requires i < |order| && NotesHarmless(order) && WfMap(m) && p.pending.None?
    requires SecAt(order, i) in m ==> p.sk == SecAt(order, i)
    requires p' == AfterLine(order, i, m, p)
    ensures ParseText(p, LineText(order, i, m) + rest) == ParseText(p', rest)
  {
    match order[i]
    case Comment(d) => NoteReadBack(p, d, rest);
    case VarComment(d, _) => NoteReadBack(p, d, rest);
    case Sk(k) =>
      if k in m {
        SectionReadBack(p, k, rest);
      } else {
        assert "" + rest == rest;
      }
    case Var(nm, _) =>
      var sk := SecAt(order, i);
      if Live(m, sk, nm) {
        VarParsed(p, nm, m[sk][nm], rest);
      } else {
        assert "" + rest == rest;
      }
  }

  lemma NoteReadBack(p: Parser, d: string, rest: string)
    requires p.pending.None? && StoredNote(d) && Harmless(d)
    ensures ParseText(p, d + "\n" + rest) == ParseText(Parser(AddNote(p.conf, Norm(d)), p.sk, None), rest)
  {
    NoteStep(p, d);
    ParseLine(p, d, rest);
  }

  lemma SectionReadBack(p: Parser, k: string, rest: string)
    requires p.pending.None? && WfSection(k)
    ensures ParseText(p, "[" + k + "]" + "\n" + rest)
         == ParseText(Parser(p.conf.(order := p.conf.order + [Sk(k)], subkeys := p.conf.subkeys + [k]), k, None), rest)
  {
    SectionStep(p, k);
    ParseLine(p, "[" + k + "]", rest);
  }

  // ---------- nothing is lost, nothing is invented ----------

  ghost predicate Sub(a: Submaps, b: Submaps) {
    forall sk, nm :: Live(a, sk, nm) ==> Live(b, sk, nm) && a[sk][nm] == b[sk][nm]
  }

  ghost predicate NoEols(m: Submaps) {
    forall sk, nm :: Live(m, sk, nm) ==> !HasEol(m[sk][nm])
  }

  lemma SubBoth(a: Submaps, b: Submaps)
    requires Sub(a, b) && Sub(b, a) && NonEmpty(a) && NonEmpty(b)
    ensures a == b
  {
    SubKeys(a, b);
    SubKeys(b, a);
    forall sk | sk in a ensures a[sk] == b[sk] {
      assert forall nm :: nm in a[sk] ==> Live(a, sk, nm);
      assert forall nm :: nm in b[sk] ==> Live(b, sk, nm);
    }
  }

  lemma SubKeys(a: Submaps, b: Submaps)
    requires Sub(a, b) && NonEmpty(a)
    ensures a.Keys <= b.Keys
  {
    forall sk | sk in a ensures sk in b {
      var nm :| nm in a[sk];
      assert Live(a, sk, nm);
    }
  }

  lemma PutSound(a: Submaps, m: Submaps, sk: string, nm: string)
    requires Sub(a, m) && NonEmpty(a) && Live(m, sk, nm)
    ensures var r := Put(a, sk, nm, m[sk][nm]);
            Sub(a, r) && Sub(r, m) && NonEmpty(r) && Live(r, sk, nm)
  {
    var r := Put(a, sk, nm, m[sk][nm]);
    assert nm in r[sk];
    forall s, n | Live(a, s, n) ensures Live(r, s, n) && a[s][n] == r[s][n] {}
    forall s, n | Live(r, s, n) ensures Live(m, s, n) && r[s][n] == m[s][n] {
      assert (s == sk && n == nm) || Live(a, s, n);
    }
  }

  lemma RereadLineSound(order: seq<ConfLine>, i: nat, m: Submaps, c: Conf)
    requires i < |order| && NoEols(m) && Sub(c.submaps, m) && NonEmpty(c.submaps)
    ensures var r := RereadLine(order, i, m, c).submaps;
            Sub(c.submaps, r) && Sub(r, m) && NonEmpty(r)
            && (order[i].Var? && Live(m, SecAt(order, i), order[i].data)
                ==> Live(r, SecAt(order, i), order[i].data))
  {
    if order[i].Var? && Live(m, SecAt(order, i), order[i].data) {
      PutSound(c.submaps, m, SecAt(order, i), order[i].data);
    }
  }

  lemma SubTransitive(a: Submaps, b: Submaps, c: Submaps)
    requires Sub(a, b) && Sub(b, c)
    ensures Sub(a, c)
  {
    forall sk, nm | Live(a, sk, nm) ensures Live(c, sk, nm) && a[sk][nm] == c[sk][nm] {
      assert Live(b, sk, nm);
    }
  }

  lemma {:induction false} RereadSound(order: seq<ConfLine>, i: nat, m: Submaps, c: Conf)
    requires i <= |order| && NoEols(m) && Sub(c.submaps, m) && NonEmpty(c.submaps)
    ensures var r := Reread(order, i, m, c).submaps; Sub(c.submaps, r) && Sub(r, m) && NonEmpty(r)
    decreases |order| - i
  {
    if i < |order| {
      var c' := RereadLine(order, i, m, c);
      RereadLineSound(order, i, m, c);
      RereadSound(order, i + 1, m, c');
      SubTransitive(c.submaps, c'.submaps, Reread(order, i, m, c).submaps);
    }
  }

  lemma {:induction false} RereadHits(order: seq<ConfLine>, i: nat, m: Submaps, c: Conf, at: nat)
    requires i <= at < |order| && NoEols(m) && Sub(c.submaps, m) && NonEmpty(c.submaps)
    requires order[at].Var? && Live(m, SecAt(order, at), order[at].data)
    ensures Live(Reread(order, i, m, c).submaps, SecAt(order, at), order[at].data)
    decreases at - i
  {
    var c' := RereadLine(order, i, m, c);
    RereadLineSound(order, i, m, c);
    if i < at {
      RereadHits(order, i + 1, m, c', at);
    } else {
      RereadSound(order, i + 1, m, c');
    }
  }

  /** Every live variable is printed in its section, and only live ones are. */
  lemma RereadComplete(c: Conf)
    requires Presentation(c) && NoEols(c.submaps)
    ensures Reread(c.order, 0, c.submaps, EMPTY).submaps == c.submaps
  {
    var m := c.submaps;
    var r := Reread(c.order, 0, m, EMPTY).submaps;
    RereadSound(c.order, 0, m, EMPTY);
    forall sk, nm | Live(m, sk, nm) ensures Live(r, sk, nm) && r[sk][nm] == m[sk][nm] {
      assert Placed(c.order, sk, nm);
      var i :| 0 <= i < |c.order| && c.order[i].Var? && c.order[i].data == nm && SecAt(c.order, i) == sk;
      RereadHits(c.order, 0, m, EMPTY, i);
    }
    SubBoth(r, m);
  }
}
