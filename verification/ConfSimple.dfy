/** The configuration object: parsing, editing and rewriting in place (src/conftree.cpp, src/conftree.h). */
module ConfSimple {
  import opened Strings
  import opened ConfText
  import Meaning = ConfMeaning
  import opened ConfRewrite
  import opened ConfRuns
  import opened ConfParsed

  datatype Status = STATUS_ERROR | STATUS_RO | STATUS_RW

  /** varprinter() */
  method PrintVar(out: string, nm: string, value: string) returns (r: string)
    ensures r == out + VarText(nm, value)
  {
    if nm == "" {
      r := out + ("\n[" + value + "]\n");
    } else {
      r := out + nm + " = ";
      if |nm| + |value| < 75 {
        r := r + value;
      } else {
        ghost var head := r;
        var ll, pos := 0, 0;
        while pos < |value|
          invariant 0 <= pos <= |value| && 0 <= ll
          invariant r + FoldFrom(value, pos, ll) == head + FoldFrom(value, 0, 0)
        {
          var c := value[pos];
          FoldTurn(value, pos, ll, r);
          r := r + [c];
          ll := ll + 1;
          if ll > 50 && |value| - pos > 10 && (c == ' ' || c == '\t') {
            ll := 0;
            r := r + "\\\n";
          }
          pos := pos + 1;
        }
        assert r + "" == r;
      }
      r := r + "\n";
    }
  }

  lemma FoldTurn(value: string, pos: nat, ll: nat, r: string)
    requires pos < |value|
    ensures var c := value[pos];
            var fold := ll + 1 > 50 && |value| - pos > 10 && (c == ' ' || c == '\t');
            r + FoldFrom(value, pos, ll)
            == (if fold then r + [c] + "\\\n" else r + [c]) + FoldFrom(value, pos + 1, if fold then 0 else ll + 1)
  {
    var c := value[pos];
    if ll + 1 > 50 && |value| - pos > 10 && (c == ' ' || c == '\t') {
      Regroup(r, [c] + "\\\n", FoldFrom(value, pos + 1, 0));
      Regroup(r, [c], "\\\n");
    } else {
      Regroup(r, [c], FoldFrom(value, pos + 1, ll + 1));
    }
  }

  method FindIf(order: seq<ConfLine>, start: nat, end: nat, f: ConfLine -> bool) returns (k: nat)
    requires start <= end <= |order|
    ensures k == FirstFrom(order, start, end, f)
  {
    k := start;
    while k < end && !f(order[k])
      invariant start <= k <= end
      invariant FirstFrom(order, k, end, f) == FirstFrom(order, start, end, f)
    {
      k := k + 1;
    }
  }

  method LeastKey(s: set<string>) returns (k: string)
    requires s != {}
    ensures IsLeast(k, s)
  {
    LeastExists(s);
    k :| k in s && IsLeast(k, s);
  }

  /** What the parse loop will end with. */
  ghost function Outcome(p: Parser, rest: string, eof: bool): Conf {
    if eof then Final(p, "") else ParseText(p, rest)
  }

  /** One turn of the loop: the first physical line of stream, or the empty one at the end of input. */
  lemma OutcomeStep(p: Parser, stream: string, ended: bool, cline: string, line: string, q: Parser,
                    rest: string, last: bool)
    requires ended ==> stream == ""
    requires var i := Find(stream, '\n');
             last == (i == |stream|) && cline == stream[..i] && rest == if last then "" else stream[i + 1..]
    requires line == Joined(p, cline) && q == Step(p, cline)
    ensures Outcome(p, stream, ended) == if last && IsNoteLine(line) then p.conf else Outcome(q, rest, last)
    ensures StepOf(p, line, q)
  {
    if last {
      assert cline == stream;
      if !IsNoteLine(line) && q.pending.None? {
        OutcomeDone(q);
      }
    }
  }

  /** q is the parser after a physical line that was joined to line. */
  ghost predicate StepOf(p: Parser, line: string, q: Parser) {
    exists cline :: Joined(p, cline) == line && Step(p, cline) == q
  }

  lemma OutcomeDone(p: Parser)
    requires p.pending.None?
    ensures Outcome(p, "", true) == p.conf
  {
    assert Joined(p, "") == "";
  }

  lemma JoinedLine(p: Parser, raw: string, line: string, appending: bool)
    requires p.pending == if appending then Some(line) else None
    ensures Joined(p, raw) == Trim(if appending then line + TrimRight(raw, EOLS) else TrimRight(raw, EOLS), BLANKS)
  {
    assert "" + TrimRight(raw, EOLS) == TrimRight(raw, EOLS);
  }

  class ConfSimple {
    var status: Status
    var submaps: Submaps
    var order: seq<ConfLine>
    var subkeysUnsorted: seq<string>
    var filename: string
    var file: string  // contents of the backing file
    var holdWrites: bool

    ghost function State(): Conf
      reads this
    {
      Conf(submaps, order, subkeysUnsorted)
    }

    /** The data and the presentation agree. */
    ghost predicate Valid()
      reads this
    {
      Presentation(State())
    }

    constructor FromString(data: string, readonly: bool)
      ensures Valid() && State() == Parse(data)
      ensures status == (if readonly then STATUS_RO else STATUS_RW) && filename == "" && !holdWrites
    {
      status := if readonly then STATUS_RO else STATUS_RW;
      submaps, order, subkeysUnsorted := map[], [], [];
      filename, file, holdWrites := "", "", false;
      new;
      ParseInput(data);
      ParseOk(data);
    }

    constructor FromFile(fname: string, contents: string, readonly: bool)
      requires fname != ""
      ensures Valid() && State() == Parse(contents)
      ensures status == (if readonly then STATUS_RO else STATUS_RW)
      ensures filename == fname && file == contents && !holdWrites
    {
      status := if readonly then STATUS_RO else STATUS_RW;
      submaps, order, subkeysUnsorted := map[], [], [];
      filename, file, holdWrites := fname, contents, false;
      new;
      ParseInput(contents);
      ParseOk(contents);
    }

    /** parseinput(): rest is what is left to read of the stream. */
    method ParseInput(input: string)
      modifies this`submaps, this`order, this`subkeysUnsorted
      ensures State() == ParseText(Parser(old(State()), "", None), input)
      ensures Meaning.AllLastSaid(Meaning.Says(Parser(old(State()), "", None), input), old(submaps), submaps)
    {
      var submapkey, line, rest := "", "", input;
      var appending, eof, done := false, false, false;
      while !done
        invariant eof ==> rest == ""
        invariant (if done then State() else Outcome(Reader(submapkey, appending, line), rest, eof))
               == old(Outcome(Parser(State(), "", None), input, false))
        decreases !done, !eof, |rest|, if appending then |line| + 1 else 0
      {
        submapkey, line, appending, rest, eof, done := ParseTurn(submapkey, line, appending, rest, eof);
      }
      Meaning.AllLastAssignmentsCount(Parser(old(State()), "", None), input, State());
    }

    /** One turn of the parse loop. */
    method ParseTurn(submapkey: string, before: string, open: bool, stream: string, ended: bool)
      returns (sk: string, line: string, appending: bool, rest: string, eof: bool, done: bool)
      requires ended ==> stream == ""
      modifies this`submaps, this`order, this`subkeysUnsorted
      ensures eof ==> rest == ""
      ensures (if done then State() else Outcome(Reader(sk, appending, line), rest, eof))
           == old(Outcome(Reader(submapkey, open, before), stream, ended))
      ensures !done ==>
        || (eof && !ended)
        || (!eof && !ended && |rest| < |stream|)
        || (eof && ended && open && (appending ==> |line| < |before|))
    {
      ghost var p := Reader(submapkey, open, before);
      var i := Find(stream, '\n');
      var cline := stream[..i];
      ghost var q := Step(p, cline);
      eof := i == |stream|;
      rest := if eof then "" else stream[i + 1..];
      line := JoinLine(p, cline, before, open);
      OutcomeStep(p, stream, ended, cline, line, q, rest, eof);
      sk, appending, done := submapkey, open, eof && (line == "" || line[0] == '#');
      if !done {
        var isVar;
        sk, line, appending, isVar := TakePhysical(line, sk, appending, p, q);
        if eof && isVar {
          OutcomeDone(q);
          done := true;
        }
      }
    }

    /** A physical line loses its end, is joined to the pending text, and is trimmed. */
    static method JoinLine(ghost p: Parser, raw: string, before: string, open: bool) returns (line: string)
      requires p.pending == if open then Some(before) else None
      ensures line == Joined(p, raw)
    {
      JoinedLine(p, raw, before, open);
      line := TrimRight(raw, EOLS);
      if open {
        line := before + line;
      }
      line := Trim(line, BLANKS);
    }

    /** The body of the parse loop once the physical line is joined to what was pending. */
    method TakePhysical(joined: string, submapkey: string, open: bool, ghost p: Parser, ghost q: Parser)
      returns (sk: string, line: string, appending: bool, isVar: bool)
      requires p.conf == State() && p.sk == submapkey && p.pending.Some? == open
      requires StepOf(p, joined, q)
      modifies this`submaps, this`order, this`subkeysUnsorted
      ensures Reader(sk, appending, line) == q
      ensures isVar ==> !appending
      ensures appending && !IsNoteLine(joined) ==> |line| < |joined|
    {
      sk, line, appending, isVar := submapkey, joined, open, false;
      if line == "" || line[0] == '#' {
        AppendNote(line);
      } else if line[|line| - 1] == '\\' {
        line := line[..|line| - 1];
        appending := true;
      } else {
        appending := false;
        sk, isVar := TakeLine(line, submapkey);
      }
    }

    /** The parser that the local variables of ParseInput stand for. */
    ghost function Reader(submapkey: string, appending: bool, line: string): Parser
      reads this
    {
      Parser(State(), submapkey, if appending then Some(line) else None)
    }

    method AppendNote(line: string)
      requires line == "" || line[0] == '#'
      modifies this`order
      ensures State() == AddNote(old(State()), line)
    {
      match VarCommentName(CString(line), 0)
      case Some(nm) => order := order + [VarComment(line, nm)];
      case None => order := order + [Comment(line)];
    }

    /** The end of the parse loop: a section, an assignment, or neither. */
    method TakeLine(line: string, submapkey: string) returns (sk: string, isVar: bool)
      requires !IsNoteLine(line)
      modifies this`submaps, this`order, this`subkeysUnsorted
      ensures (State(), sk) == LogicalLine(old(State()), submapkey, line)
    {
      sk, isVar := submapkey, false;
      if line[0] == '[' {
        sk := Trim(line, "[] \t");
        subkeysUnsorted := subkeysUnsorted + [sk];
        order := order + [Sk(sk)];
        return;
      }
      var eqpos := Find(line, '=');
      if eqpos == |line| {
        order := order + [Comment(line)];
        return;
      }
      var nm := Trim(line[..eqpos], BLANKS);
      var val := Trim(line[eqpos + 1..], BLANKS);
      if |nm| == 0 {
        order := order + [Comment(line)];
        return;
      }
      var _ := SetWhileParsing(nm, val, sk);
      isVar := true;
    }

    /** The part of i_set() that updates the data; existing tells whether nm was there. */
    method StoreValue(nm: string, value: string, sk: string) returns (existing: bool)
      modifies this`submaps, this`order
      ensures existing == Live(old(submaps), sk, nm)
      ensures submaps == Put(old(submaps), sk, nm, value)
      ensures order == EnsureSk(old(State()), sk)
    {
      existing := false;
      if sk !in submaps {
        var submap := map[nm := value];
        submaps := submaps[sk := submap];
        if sk != "" {
          var at := FindIf(order, 0, |order|, IsSk(sk));
          if at == |order| {
            order := order + [Sk(sk)];
          }
        }
      } else {
        existing := nm in submaps[sk];
        submaps := submaps[sk := submaps[sk][nm := value]];
      }
    }

    /** i_set() with init set */
    method SetWhileParsing(nm: string, value: string, sk: string) returns (ok: bool)
      modifies this`submaps, this`order
      ensures ok == !HasEol(value) && State() == SetInit(old(State()), nm, value, sk)
    {
      if '\n' in value || '\r' in value { return false; }
      var existing := StoreValue(nm, value, sk);
      if !existing {
        order := order + [Var(nm, value)];
      }
      ok := true;
    }

    /** i_set() on a parsed object. The zone of the section is always found. */
    method ISet(nm: string, value: string, sk: string) returns (ok: bool)
      requires Valid()
      modifies this`submaps, this`order
      ensures Valid()
      ensures ok == !HasEol(value) && Some(State()) == SetEdit(old(State()), nm, value, sk)
    {
      SetKeepsPresentation(State(), nm, value, sk);
      if '\n' in value || '\r' in value { return false; }
      var existing := StoreValue(nm, value, sk);
      if existing { return true; }
      var start := FindZone(sk);
      InsertVar(start, nm);
      ok := true;
    }

    /** Where the zone of a section starts. */
    method FindZone(sk: string) returns (start: nat)
      requires ZoneStart(order, sk).Some?
      ensures ZoneStart(order, sk) == Some(start)
    {
      start := 0;
      if sk != "" {
        start := FindIf(order, 0, |order|, IsSk(sk));
        if start == |order| {
          assert false;  // the "logical failure" abort
        }
        start := start + 1;
      }
    }

    /** The end of i_set(): the entry of a new variable, in the zone that begins at start. */
    method InsertVar(start: nat, nm: string)
      requires start <= |order|
      modifies this`order
      ensures order == PlaceVar(old(order), start, nm)
      ensures Meaning.OneNewLine(old(order), start, nm, order)
    {
      Meaning.PlaceVarOneLine(order, start, nm);
      var fin := FindIf(order, start, |order|, AnySk());
      var at := FindIf(order, start, fin, VarNamed(nm));
      if at == fin {
        var vc := FindIf(order, start, fin, CommentedOut(nm));
        var pos := if vc < fin then vc + 1 else fin;
        order := order[..pos] + [Var(nm, "")] + order[pos..];
      }
    }

    method Get(nm: string, sk: string) returns (r: Option<string>)
      ensures r == if status != STATUS_ERROR && Live(submaps, sk, nm) then Some(submaps[sk][nm]) else None
    {
      if status == STATUS_ERROR || sk !in submaps || nm !in submaps[sk] { return None; }
      r := Some(submaps[sk][nm]);
    }

    method Set(nm: string, value: string, sk: string) returns (ok: bool)
      requires Valid()
      modifies this
      ensures Valid() && SameSettings(old(status), old(filename), old(holdWrites))
      ensures ok == (status == STATUS_RW && !HasEol(value))
      ensures status == STATUS_RW ==> Some(State()) == Apply(old(State()), Op.Set(nm, value, sk))
      ensures status != STATUS_RW ==> State() == old(State())
      ensures file == if ok then FileAfter(old(file)) else old(file)
    {
      if status != STATUS_RW { return false; }
      ok := ISet(nm, value, sk);
      if !ok { return false; }
      ok := Write();
    }

    method Erase(nm: string, sk: string) returns (ok: bool)
      requires Valid()
      modifies this
      ensures Valid() && SameSettings(old(status), old(filename), old(holdWrites))
      ensures ok == (status == STATUS_RW && sk in old(submaps))
      ensures status == STATUS_RW ==> Some(State()) == Apply(old(State()), Op.Erase(nm, sk))
      ensures status != STATUS_RW ==> State() == old(State())
      ensures file == if ok then FileAfter(old(file)) else old(file)
    {
      EraseKeepsPresentation(State(), nm, sk);
      if status != STATUS_RW || sk !in submaps { return false; }
      submaps := submaps[sk := submaps[sk] - {nm}];
      if submaps[sk] == map[] {
        submaps := submaps - {sk};
      }
      assert State() == EraseVar(old(State()), nm, sk);
      ok := Write();
    }

    method EraseKey(sk: string) returns (ok: bool)
      requires Valid()
      modifies this
      ensures Valid() && SameSettings(old(status), old(filename), old(holdWrites))
      ensures ok == (status != STATUS_ERROR)
      ensures status == STATUS_RW ==> Some(State()) == Apply(old(State()), Op.EraseKey(sk))
      ensures status != STATUS_RW ==> State() == old(State())
      ensures file == FileAfter(old(file))
    {
      var names := if status != STATUS_ERROR && sk in submaps then submaps[sk].Keys else {};
      while names != {}
        invariant Valid() && SameSettings(old(status), old(filename), old(holdWrites))
        invariant order == old(order) && subkeysUnsorted == old(subkeysUnsorted)
        invariant status != STATUS_RW ==> submaps == old(submaps)
        invariant status == STATUS_RW ==> submaps - {sk} == old(submaps) - {sk}
        invariant status == STATUS_RW ==> (names == {} <==> sk !in submaps)
        invariant status == STATUS_RW && sk in submaps ==> submaps[sk].Keys == names
        invariant status == STATUS_ERROR ==> names == {}
        invariant file == old(file) || file == WriteText(State()) || status == STATUS_RW
        invariant status != STATUS_RW || holdWrites || filename == "" ==> file == old(file)
        decreases names
      {
        var nm :| nm in names;
        var _ := Erase(nm, sk);
        names := names - {nm};
      }
      assert status == STATUS_RW ==> submaps == old(submaps) - {sk};
      ok := Write();
    }

    method Clear() returns (ok: bool)
      modifies this
      ensures Valid() && SameSettings(old(status), old(filename), old(holdWrites))
      ensures ok == (status != STATUS_ERROR)
      ensures Some(State()) == Apply(old(State()), Op.Clear)
      ensures file == FileAfter(old(file))
    {
      submaps := map[];
      order := [];
      ok := Write();
    }

    /** What a rewrite leaves in the backing file. */
    ghost function FileAfter(before: string): string
      reads this
    {
      if status != STATUS_ERROR && !holdWrites && filename != "" then WriteText(State()) else before
    }

    ghost predicate SameSettings(st: Status, fn: string, hold: bool)
      reads this
    {
      status == st && filename == fn && holdWrites == hold
    }

    /** holdWrites() */
    method HoldWrites(on: bool) returns (ok: bool)
      modifies this
      ensures holdWrites == on && State() == old(State()) && status == old(status) && filename == old(filename)
      ensures ok == (on || status != STATUS_ERROR)
      ensures file == FileAfter(old(file))
    {
      holdWrites := on;
      if on { return true; }
      ok := Write();
    }

    /** write(): rewrites the backing file, if there is one. */
    method Write() returns (ok: bool)
      modifies this`file
      ensures ok == (status != STATUS_ERROR) && file == FileAfter(old(file))
    {
      if status == STATUS_ERROR { return false; }
      if holdWrites { return true; }
      if filename != "" {
        var text;
        ok, text := WriteTo();
        file := text;
      } else {
        ok := true;
      }
    }

    /** write(ostream) */
    method WriteTo() returns (ok: bool, out: string)
      ensures ok == (status != STATUS_ERROR)
      ensures ok ==> out == WriteText(State())
    {
      out := "";
      if status == STATUS_ERROR { return false, out; }
      if order == [] {
        out := ContentWrite();
      }
      ghost var head := out;
      var sk := "";
      for i := 0 to |order|
        invariant sk == SecAt(order, i)
        invariant out + OrderText(order, i, submaps) == head + OrderText(order, 0, submaps)
      {
        ghost var was := out;
        match order[i] {
          case Comment(data) => out := out + (data + "\n");
          case VarComment(data, _) => out := out + (data + "\n");
          case Sk(data) =>
            sk := data;
            if sk in submaps {
              out := out + ("[" + data + "]" + "\n");
            }
          case Var(nm, _) =>
            if sk in submaps && nm in submaps[sk] {
              out := PrintVar(out, nm, submaps[sk][nm]);
            }
        }
        assert was + "" == was;
        assert out == was + LineText(order, i, submaps);
        Regroup(was, LineText(order, i, submaps), OrderText(order, i + 1, submaps));
      }
      assert out + "" == out;
      assert "" + OrderText(order, 0, submaps) == OrderText(order, 0, submaps);
      assert order == [] ==> head + "" == head;
      ok := true;
    }

    /** content_write(): sortwalk() with varprinter(). */
    method ContentWrite() returns (out: string)
      ensures out == ContentText(submaps)
    {
      out := "";
      var keys := submaps.Keys;
      while keys != {}
        invariant keys <= submaps.Keys
        invariant out + ContentFrom(Sorted(keys), submaps) == ContentText(submaps)
        decreases keys
      {
        var k := LeastKey(keys);
        SortedHead(keys, k);
        ghost var was := out;
        out := SectionWrite(out, k, submaps[k]);
        keys := keys - {k};
        Regroup(was, SectionText(k, submaps[k]), ContentFrom(Sorted(keys), submaps));
      }
      assert out + "" == out;
    }
  }

  ghost function SectionText(k: string, vars: map<string, string>): string {
    HeaderText(k) + NamesText(Sorted(vars.Keys), vars)
  }

  method SectionWrite(out: string, k: string, vars: map<string, string>) returns (r: string)
    ensures r == out + SectionText(k, vars)
  {
    r := out;
    if k != "" {
      r := PrintVar(r, "", CString(k));
    } else {
      assert out + "" == out;
    }
    r := NamesWrite(r, vars);
    Regroup(out, HeaderText(k), NamesText(Sorted(vars.Keys), vars));
  }

  lemma SortedHead(s: set<string>, k: string)
    requires IsLeast(k, s)
    ensures Sorted(s) == [k] + Sorted(s - {k})
  {
    LeastUnique(Sorted(s)[0], k, s);
  }

  method NamesWrite(out: string, vars: map<string, string>) returns (r: string)
    ensures r == out + NamesText(Sorted(vars.Keys), vars)
  {
    r := out;
    var names := vars.Keys;
    while names != {}
      invariant names <= vars.Keys
      invariant r + NamesText(Sorted(names), vars) == out + NamesText(Sorted(vars.Keys), vars)
      decreases names
    {
      var nm := LeastKey(names);
      SortedHead(names, nm);
      ghost var was := r;
      r := PrintVar(r, nm, vars[nm]);
      names := names - {nm};
      Regroup(was, VarText(nm, vars[nm]), NamesText(Sorted(names), vars));
    }
    assert r + "" == r;
  }
}
