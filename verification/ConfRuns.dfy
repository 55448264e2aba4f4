/** What every parsed text and every later edit keeps (src/conftree.cpp). */
module ConfRuns {
  import opened Strings
  import opened ConfText
  import opened ConfRoundTrip
  import opened ConfRewrite

  // ---------- edits ----------

  lemma {:induction false} SecAtInsert(order: seq<ConfLine>, pos: nat, x: ConfLine, i: nat)
    requires pos <= |order| && !x.Sk? && i <= |order|
    ensures i <= pos ==> SecAt(InsertAt(order, pos, x), i) == SecAt(order, i)
    ensures i >= pos ==> SecAt(InsertAt(order, pos, x), i + 1) == SecAt(order, i)
  {
    var order' := InsertAt(order, pos, x);
    assert forall j :: 0 <= j < |order| ==> order[j] == if j < pos then order'[j] else order'[j + 1];
    assert order'[pos] == x;
    if i > 0 { SecAtInsert(order, pos, x, i - 1); }
  }

  lemma PlacedInsert(order: seq<ConfLine>, pos: nat, x: ConfLine, sk: string, nm: string)
    requires pos <= |order| && !x.Sk? && Placed(order, sk, nm)
    ensures Placed(InsertAt(order, pos, x), sk, nm)
  {
    var i :| 0 <= i < |order| && order[i].Var? && order[i].data == nm && SecAt(order, i) == sk;
    SecAtInsert(order, pos, x, i);
    var k := if i < pos then i else i + 1;
    assert InsertAt(order, pos, x)[k] == order[i];
  }

  /** From its start to its end, a zone belongs to its section. */
  lemma {:induction false} ZoneSection(order: seq<ConfLine>, sk: string, start: nat, i: nat)
    requires ZoneStart(order, sk) == Some(start) && start <= i <= ZoneEnd(order, start)
    ensures SecAt(order, i) == sk
    decreases i
  {
    if i > start { ZoneSection(order, sk, start, i - 1); }
  }

  lemma PlaceVarPlaces(order: seq<ConfLine>, sk: string, start: nat, nm: string)
    requires ZoneStart(order, sk) == Some(start)
    ensures Placed(PlaceVar(order, start, nm), sk, nm)
  {
    var fin := ZoneEnd(order, start);
    var at := FirstFrom(order, start, fin, VarNamed(nm));
    if at < fin {
      ZoneSection(order, sk, start, at);
    } else {
      var vc := FirstFrom(order, start, fin, CommentedOut(nm));
      var pos := if vc < fin then vc + 1 else fin;
      ZoneSection(order, sk, start, pos);
      SecAtInsert(order, pos, Var(nm, ""), pos);
      assert InsertAt(order, pos, Var(nm, ""))[pos] == Var(nm, "");
    }
  }

  lemma PlaceVarKeeps(order: seq<ConfLine>, start: nat, nm: string, sk: string, n: string)
    requires start <= |order| && Placed(order, sk, n)
    ensures Placed(PlaceVar(order, start, nm), sk, n)
  {
    var fin := ZoneEnd(order, start);
    var vc := FirstFrom(order, start, fin, CommentedOut(nm));
    PlacedInsert(order, if vc < fin then vc + 1 else fin, Var(nm, ""), sk, n);
  }

  lemma EnsureSkKeeps(c: Conf, sk: string, s: string, n: string)
    requires Placed(c.order, s, n)
    ensures Placed(EnsureSk(c, sk), s, n)
  {
    PlacedPrefix(c.order, [Sk(sk)], s, n);
  }

  lemma LivePut(m: Submaps, sk: string, nm: string, val: string, s: string, n: string)
    ensures Live(Put(m, sk, nm, val), s, n) <==> (s == sk && n == nm) || Live(m, s, n)
  {
  }

  lemma NonEmptyPut(m: Submaps, sk: string, nm: string, val: string)
    requires NonEmpty(m)
    ensures NonEmpty(Put(m, sk, nm, val))
  {
    assert nm in Put(m, sk, nm, val)[sk];
  }

  /** The "logical failure" abort of i_set() cannot be reached, and the two structures still agree. */
  lemma SetKeepsPresentation(c: Conf, nm: string, val: string, sk: string)
    requires Presentation(c)
    ensures SetEdit(c, nm, val, sk).Some? && Presentation(SetEdit(c, nm, val, sk).value)
  {
    if !HasEol(val) {
      NonEmptyPut(c.submaps, sk, nm, val);
      if !Live(c.submaps, sk, nm) {
        SetNewVar(c, nm, val, sk);
      } else {
        forall s, n | Live(Put(c.submaps, sk, nm, val), s, n) ensures Placed(c.order, s, n) {
          assert Live(c.submaps, s, n);
        }
      }
    }
  }

  lemma ZoneFound(order: seq<ConfLine>, sk: string)
    requires sk == "" || Sk(sk) in order
    ensures ZoneStart(order, sk).Some?
  {
  }

  lemma SetNewVar(c: Conf, nm: string, val: string, sk: string)
    requires Presentation(c) && !HasEol(val) && !Live(c.submaps, sk, nm)
    ensures SetEdit(c, nm, val, sk).Some? && AllPlaced(SetEdit(c, nm, val, sk).value.order, Put(c.submaps, sk, nm, val))
  {
    var order := EnsureSk(c, sk);
    if sk in c.submaps && sk != "" { LiveSectionHasSk(c, sk); }
    ZoneFound(order, sk);
    var start := ZoneStart(order, sk).value;
    PlaceVarPlaces(order, sk, start, nm);
    forall s, n | Live(Put(c.submaps, sk, nm, val), s, n) ensures Placed(PlaceVar(order, start, nm), s, n) {
      LivePut(c.submaps, sk, nm, val, s, n);
      if !(s == sk && n == nm) {
        EnsureSkKeeps(c, sk, s, n);
        PlaceVarKeeps(order, start, nm, s, n);
      }
    }
  }

  lemma EraseKeepsPresentation(c: Conf, nm: string, sk: string)
    requires Presentation(c)
    ensures Presentation(EraseVar(c, nm, sk))
  {
    forall s, n | Live(EraseVar(c, nm, sk).submaps, s, n) ensures Placed(c.order, s, n) {
      assert Live(c.submaps, s, n);
    }
  }

  // ---------- runs ----------

  datatype Op =
    | Set(nm: string, val: string, sk: string)
    | Erase(nm: string, sk: string)
    | EraseKey(sk: string)
    | Clear

  /** The effect of a call on a writable object; None is the abort. */
  function Apply(c: Conf, op: Op): Option<Conf> {
    match op
    case Set(nm, val, sk) => SetEdit(c, nm, val, sk)
    case Erase(nm, sk) => Some(EraseVar(c, nm, sk))
    case EraseKey(sk) => Some(c.(submaps := c.submaps - {sk}))
    case Clear => Some(c.(submaps := map[], order := []))
  }

  function Run(c: Conf, ops: seq<Op>): Option<Conf>
    decreases |ops|
  {
    if ops == [] then Some(c)
    else
      match Apply(c, ops[0])
      case None => None
      case Some(c') => Run(c', ops[1..])
  }

  /** Notes are only ever removed all together, by clear(). */
  ghost predicate NotesFrom(a: seq<ConfLine>, b: seq<ConfLine>) {
    forall l :: l in b && IsNote(l) ==> l in a
  }

  lemma SetNotes(c: Conf, nm: string, val: string, sk: string)
    requires SetEdit(c, nm, val, sk).Some?
    ensures NotesFrom(c.order, SetEdit(c, nm, val, sk).value.order)
  {
    if !HasEol(val) && !Live(c.submaps, sk, nm) {
      PlaceVarNotes(EnsureSk(c, sk), ZoneStart(EnsureSk(c, sk), sk).value, nm);
    }
  }

  lemma PlaceVarNotes(order: seq<ConfLine>, start: nat, nm: string)
    requires start <= |order|
    ensures NotesFrom(order, PlaceVar(order, start, nm))
  {
  }

  lemma ApplyKeeps(c: Conf, op: Op)
    requires Presentation(c)
    ensures Apply(c, op).Some? && Presentation(Apply(c, op).value)
    ensures NotesFrom(c.order, Apply(c, op).value.order)
  {
    match op
    case Set(nm, val, sk) =>
      SetKeepsPresentation(c, nm, val, sk);
      SetNotes(c, nm, val, sk);
    case Erase(nm, sk) => EraseKeepsPresentation(c, nm, sk);
    case EraseKey(sk) =>
      forall s, n | Live(c.submaps - {sk}, s, n) ensures Placed(c.order, s, n) {
        assert Live(c.submaps, s, n);
      }
    case Clear =>
  }

  lemma {:induction false} RunKeeps(c: Conf, ops: seq<Op>)
    requires Presentation(c)
    ensures Run(c, ops).Some? && Presentation(Run(c, ops).value)
    ensures NotesFrom(c.order, Run(c, ops).value.order)
    decreases |ops|
  {
    if ops != [] {
      ApplyKeeps(c, ops[0]);
      RunKeeps(Apply(c, ops[0]).value, ops[1..]);
    }
  }
}
