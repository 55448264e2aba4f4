/** Several configuration files, the first ones overriding the others (ConfStack<ConfSimple>, src/conftree.h). */
module ConfStack {
  import opened Strings
  import opened ConfText
  import opened ConfSimple

  /** The value that the first layer with the name gives. */
  function Lookup(layers: seq<Submaps>, nm: string, sk: string): Option<string> {
    if layers == [] then None
    else if Live(layers[0], sk, nm) then Some(layers[0][sk][nm])
    else Lookup(layers[1..], nm, sk)
  }

  function Drop(m: Submaps, nm: string, sk: string): Submaps {
    EraseVar(Conf(m, [], []), nm, sk).submaps
  }

  /** One request to a stack whose top layer can be written or not, and its answer. */
  datatype Request = Set(nm: string, val: string, sk: string) | Erase(nm: string, sk: string)

  datatype Answer = Answer(layers: seq<Submaps>, ok: bool)

  /** set() leaves out an entry that would repeat what the deeper layers say. */
  function Serve(layers: seq<Submaps>, rw: bool, q: Request): (a: Answer)
    requires layers != []
    ensures |a.layers| == |layers|
  {
    match q
    case Set(nm, val, sk) =>
      if Lookup(layers[1..], nm, sk) == Some(val) then
        Answer(if rw then layers[0 := Drop(layers[0], nm, sk)] else layers, true)
      else if rw && !HasEol(val) then Answer(layers[0 := Put(layers[0], sk, nm, val)], true)
      else Answer(layers, false)
    case Erase(nm, sk) =>
      Answer(if rw then layers[0 := Drop(layers[0], nm, sk)] else layers, rw && sk in layers[0])
  }

  lemma DropLive(m: Submaps, nm: string, sk: string, n: string, s: string)
    ensures Live(Drop(m, nm, sk), s, n) <==> Live(m, s, n) && !(n == nm && s == sk)
    ensures Live(Drop(m, nm, sk), s, n) ==> Drop(m, nm, sk)[s][n] == m[s][n]
  {
    if sk in m {
      var rest := m[sk] - {nm};
      assert n in m[sk] && n != nm <==> n in rest;
    }
  }

  lemma ServeLower(layers: seq<Submaps>, rw: bool, q: Request, a: Answer)
    requires layers != [] && a == Serve(layers, rw, q)
    ensures a.layers[1..] == layers[1..]
  {
  }

  /** After a set() that answered true the value is read back, exactly unless the top file could not be written
      and has another value of its own. */
  lemma ReadYourWritesIff(layers: seq<Submaps>, rw: bool, nm: string, val: string, sk: string, a: Answer)
    requires layers != [] && a == Serve(layers, rw, Request.Set(nm, val, sk)) && a.ok
    ensures Lookup(a.layers, nm, sk) == Some(val)
       <==> rw || !Live(layers[0], sk, nm) || layers[0][sk][nm] == val
  {
    ServeLower(layers, rw, Request.Set(nm, val, sk), a);
    DropLive(layers[0], nm, sk, nm, sk);
  }

  /** A request that failed changed nothing. */
  lemma RefusedChangesNothing(layers: seq<Submaps>, rw: bool, q: Request, a: Answer)
    requires layers != [] && a == Serve(layers, rw, q) && !a.ok
    ensures a.layers == layers
  {
    if q.Erase? && rw {
      assert layers[0 := layers[0]] == layers;
    }
  }

  /** Every other variable reads as before. */
  lemma OthersUnchanged(layers: seq<Submaps>, rw: bool, q: Request, a: Answer, n: string, s: string)
    requires layers != [] && a == Serve(layers, rw, q) && (n, s) != (q.nm, q.sk)
    ensures Lookup(a.layers, n, s) == Lookup(layers, n, s)
  {
    ServeLower(layers, rw, q, a);
    DropLive(layers[0], q.nm, q.sk, n, s);
  }

  /** The top layer says nothing that the deeper ones say already. */
  ghost predicate Lean(layers: seq<Submaps>)
    requires layers != []
  {
    forall nm, sk :: Live(layers[0], sk, nm) ==> Lookup(layers[1..], nm, sk) != Some(layers[0][sk][nm])
  }

  lemma ServeLean(layers: seq<Submaps>, rw: bool, q: Request, a: Answer)
    requires layers != [] && Lean(layers) && a == Serve(layers, rw, q)
    ensures Lean(a.layers)
  {
    ServeLower(layers, rw, q, a);
    forall n, s | Live(a.layers[0], s, n) ensures Lookup(a.layers[1..], n, s) != Some(a.layers[0][s][n]) {
      DropLive(layers[0], q.nm, q.sk, n, s);
      assert (n, s) == (q.nm, q.sk) || Live(layers[0], s, n);
    }
  }

  /** After an erasure the deeper layers answer. It says true when the top file can be written and has the section, with
      the variable or without. */
  lemma ErasureReveals(layers: seq<Submaps>, rw: bool, nm: string, sk: string, a: Answer)
    requires layers != [] && a == Serve(layers, rw, Request.Erase(nm, sk))
    ensures a.ok <==> rw && sk in layers[0].Keys
    ensures rw ==> Lookup(a.layers, nm, sk) == Lookup(layers[1..], nm, sk)
  {
    ServeLower(layers, rw, Request.Erase(nm, sk), a);
    DropLive(layers[0], nm, sk, nm, sk);
  }

  /** The entry for the variable that was set is not one that the deeper layers make needless. */
  lemma SetElides(layers: seq<Submaps>, nm: string, val: string, sk: string, a: Answer)
    requires layers != [] && a == Serve(layers, true, Request.Set(nm, val, sk)) && a.ok
    ensures Live(a.layers[0], sk, nm) <==> Lookup(a.layers[1..], nm, sk) != Some(val)
  {
    ServeLower(layers, true, Request.Set(nm, val, sk), a);
    DropLive(layers[0], nm, sk, nm, sk);
  }

  // ---------- runs ----------

  function ServeAll(layers: seq<Submaps>, rw: bool, qs: seq<Request>): (r: seq<Submaps>)
    requires layers != []
    ensures |r| == |layers|
  {
    if qs == [] then layers
    else Serve(ServeAll(layers, rw, qs[..|qs| - 1]), rw, qs[|qs| - 1]).layers
  }

  /** What a variable should read as: the last value set, or what the deeper layers say after an erase. */
  function Expected(layers: seq<Submaps>, qs: seq<Request>, nm: string, sk: string): Option<string>
    requires layers != []
  {
    if qs == [] then Lookup(layers, nm, sk)
    else
      var q := qs[|qs| - 1];
      if (q.nm, q.sk) != (nm, sk) || (q.Set? && HasEol(q.val) && Lookup(layers[1..], nm, sk) != Some(q.val))
      then Expected(layers, qs[..|qs| - 1], nm, sk)
      else if q.Set? then Some(q.val)
      else Lookup(layers[1..], nm, sk)
  }

  /** Whatever is left out of the top file, a writable stack reads like one that writes every value down; the
      deeper files do not change, and the top file stays lean. */
  lemma {:induction false} RunReads(layers: seq<Submaps>, qs: seq<Request>, nm: string, sk: string)
    requires layers != []
    ensures Lookup(ServeAll(layers, true, qs), nm, sk) == Expected(layers, qs, nm, sk)
    ensures ServeAll(layers, true, qs)[1..] == layers[1..]
    ensures Lean(layers) ==> Lean(ServeAll(layers, true, qs))
  {
    if qs != [] {
      var before, q := ServeAll(layers, true, qs[..|qs| - 1]), qs[|qs| - 1];
      var a := Serve(before, true, q);
      RunReads(layers, qs[..|qs| - 1], nm, sk);
      ServeLower(before, true, q, a);
      if Lean(layers) { ServeLean(before, true, q, a); }
      if (q.nm, q.sk) != (nm, sk) {
        OthersUnchanged(before, true, q, a, nm, sk);
      } else if !a.ok {
        RefusedChangesNothing(before, true, q, a);
        if q.Erase? { NotThere(before, nm, sk); }
      } else if q.Set? {
        ReadYourWritesIff(before, true, nm, q.val, sk, a);
      } else {
        DropLive(before[0], nm, sk, nm, sk);
      }
    }
  }

  lemma NotThere(layers: seq<Submaps>, nm: string, sk: string)
    requires layers != [] && sk !in layers[0]
    ensures Lookup(layers, nm, sk) == Lookup(layers[1..], nm, sk)
  {
  }

  // ---------- the object ----------

  class ConfStack {
    var ok: bool
    var confs: seq<ConfSimple>

    ghost predicate Valid()
      reads this, confs
    {
      && (ok ==> confs != [])
      && (forall i, j :: 0 <= i < j < |confs| ==> confs[i] != confs[j])
      && (forall i :: 0 <= i < |confs| ==> confs[i].Valid() && confs[i].status != STATUS_ERROR)
    }

    ghost function Layers(): (r: seq<Submaps>)
      reads this, confs
      ensures |r| == |confs| && forall i :: 0 <= i < |r| ==> r[i] == confs[i].submaps
    {
      seq(|confs|, i requires 0 <= i < |confs| reads this, confs => confs[i].submaps)
    }

    /** The files that could be opened, the topmost first. */
    constructor (confs: seq<ConfSimple>)
      requires confs != [] && forall i, j :: 0 <= i < j < |confs| ==> confs[i] != confs[j]
      requires forall i :: 0 <= i < |confs| ==> confs[i].Valid() && confs[i].status != STATUS_ERROR
      ensures Valid() && ok && this.confs == confs
    {
      ok := true;
      this.confs := confs;
    }

    method Get(nm: string, sk: string, shallow: bool) returns (r: Option<string>)
      requires Valid()
      ensures r == Lookup(if shallow && confs != [] then Layers()[..1] else Layers(), nm, sk)
    {
      ghost var layers := if shallow && confs != [] then Layers()[..1] else Layers();
      var i := 0;
      while i < |confs|
        invariant 0 <= i <= |confs| && (shallow ==> i == 0)
        invariant Lookup(layers[i..], nm, sk) == Lookup(layers, nm, sk)
      {
        r := confs[i].Get(nm, sk);
        assert layers[i..][0] == confs[i].submaps && layers[i..][1..] == layers[i + 1..];
        if r.Some? { return; }
        if shallow {
          assert layers[1..] == [];
          break;
        }
        i := i + 1;
      }
      r := None;
    }

    /** The loop of set() over the deeper files: whether they say the value already. */
    method LowerSays(nm: string, val: string, sk: string) returns (same: bool)
      requires Valid() && confs != []
      ensures same == (Lookup(Layers()[1..], nm, sk) == Some(val))
    {
      ghost var lower := Layers()[1..];
      var i := 1;
      while i < |confs|
        invariant 1 <= i <= |confs| && Lookup(lower[i - 1..], nm, sk) == Lookup(lower, nm, sk)
      {
        var value := confs[i].Get(nm, sk);
        assert lower[i - 1..][0] == confs[i].submaps && lower[i - 1..][1..] == lower[i..];
        if value.Some? {
          return value.value == val;
        }
        i := i + 1;
      }
      same := false;
    }

    method Set(nm: string, val: string, sk: string) returns (done: bool)
      requires Valid()
      modifies if confs == [] then {} else {confs[0]}
      ensures Valid()
      ensures !ok ==> !done && Layers() == old(Layers())
      ensures ok ==>
        Answer(Layers(), done) == Serve(old(Layers()), confs[0].status == STATUS_RW, Request.Set(nm, val, sk))
    {
      if !ok { return false; }
      var same := LowerSays(nm, val, sk);
      ghost var top := confs[0].State();
      if same {
        var _ := confs[0].Erase(nm, sk);
        assert EraseVar(top, nm, sk).submaps == Drop(top.submaps, nm, sk);
        done := true;
      } else {
        done := confs[0].Set(nm, val, sk);
      }
    }

    method Erase(nm: string, sk: string) returns (done: bool)
      requires Valid() && confs != []
      modifies confs[0]
      ensures Valid()
      ensures Answer(Layers(), done) == Serve(old(Layers()), confs[0].status == STATUS_RW, Request.Erase(nm, sk))
    {
      ghost var top := confs[0].State();
      done := confs[0].Erase(nm, sk);
      assert EraseVar(top, nm, sk).submaps == Drop(top.submaps, nm, sk);
    }
  }
}
