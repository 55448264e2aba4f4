/** String helpers shared by the models: searching and trimming (src/smallut.cpp). */
module Strings {

  datatype Option<+T> = None | Some(value: T)

  const BLANKS: string := " \t"
  const EOLS: string := "\n\r"

  /** Position of the first c at or after i, |s| when there is none. */
  function FindFrom(s: string, c: char, i: nat): (k: nat)
    requires i <= |s|
    ensures i <= k <= |s|
    ensures forall j :: i <= j < k ==> s[j] != c
    ensures k < |s| ==> s[k] == c
    decreases |s| - i
  {
    if i == |s| || s[i] == c then i else FindFrom(s, c, i + 1)
  }

  function Find(s: string, c: char): (k: nat)
    ensures k <= |s|
    ensures c !in s[..k]
    ensures k < |s| <==> c in s
    ensures k < |s| ==> s[k] == c
  {
    FindFrom(s, c, 0)
  }

  /** What C sees of a string with NUL characters. */
  function CString(s: string): (r: string)
    ensures '\0' !in r && r <= s
    ensures r == s <==> '\0' !in s
  {
    s[..Find(s, '\0')]
  }

  /** rfind(): the last position of c, -1 when there is none. */
  function RFind(s: string, c: char): (k: int)
    ensures -1 <= k < |s|
    ensures k >= 0 ==> s[k] == c
    ensures forall j :: k < j < |s| ==> s[j] != c
  {
    if s == "" then -1 else if s[|s| - 1] == c then |s| - 1 else RFind(s[..|s| - 1], c)
  }

  /** Position of the first character that is in set_, |s| when there is none. */
  function FindAny(s: string, set_: string): (k: nat)
    ensures k <= |s| && (k < |s| ==> s[k] in set_)
    ensures forall j :: 0 <= j < k ==> s[j] !in set_
  {
    if s == "" || s[0] in set_ then 0 else 1 + FindAny(s[1..], set_)
  }

  /** A separator after a prefix without it is where Find stops. */
  lemma FindAfter(a: string, c: char, b: string)
    requires c !in a
    ensures Find(a + [c] + b, c) == |a|
    ensures (a + [c] + b)[..|a|] == a
    ensures (a + [c] + b)[|a| + 1..] == b
  {
    var s := a + [c] + b;
    assert s[|a|] == c;
    assert forall j :: 0 <= j < |a| ==> s[j] == a[j];
  }

  predicate AllIn(s: string, ws: string) {
    forall c :: c in s ==> c in ws
  }

  predicate Trimmed(s: string, ws: string) {
    s == "" || (s[0] !in ws && s[|s| - 1] !in ws)
  }

  function TrimLeft(s: string, ws: string): (r: string)
    ensures |r| <= |s|
    ensures r != "" ==> r[0] !in ws && r[|r| - 1] == s[|s| - 1]
    ensures s == "" || s[0] !in ws ==> r == s
  {
    if s != "" && s[0] in ws then TrimLeft(s[1..], ws) else s
  }

  function TrimRight(s: string, ws: string): (r: string)
    ensures |r| <= |s|
    ensures r != "" ==> r[|r| - 1] !in ws && r[0] == s[0]
    ensures s == "" || s[|s| - 1] !in ws ==> r == s
  {
    if s != "" && s[|s| - 1] in ws then TrimRight(s[..|s| - 1], ws) else s
  }

  /** trimstring(): the right end goes first, then the left one. */
  function Trim(s: string, ws: string): (r: string)
    ensures Trimmed(r, ws)
    ensures |r| <= |s|
    ensures Trimmed(s, ws) ==> r == s
  {
    TrimLeft(TrimRight(s, ws), ws)
  }

  lemma {:induction false} TrimLeftSplit(s: string, ws: string) returns (head: string)
    ensures s == head + TrimLeft(s, ws) && AllIn(head, ws)
  {
    if s != "" && s[0] in ws {
      var h := TrimLeftSplit(s[1..], ws);
      head := [s[0]] + h;
    } else {
      head := "";
    }
  }

  lemma {:induction false} TrimRightSplit(s: string, ws: string) returns (tail: string)
    ensures s == TrimRight(s, ws) + tail && AllIn(tail, ws)
  {
    if s != "" && s[|s| - 1] in ws {
      var t := TrimRightSplit(s[..|s| - 1], ws);
      tail := t + [s[|s| - 1]];
    } else {
      tail := "";
    }
  }

  lemma {:induction false} TrimRightStops(s: string, ws: string)
    requires s != "" && s[0] !in ws
    ensures TrimRight(s, ws) != ""
  {
    if s[|s| - 1] in ws { TrimRightStops(s[..|s| - 1], ws); }
  }

  lemma {:induction false} TrimLeftCut(a: string, b: string, ws: string)
    requires AllIn(a, ws)
    ensures TrimLeft(a + b, ws) == TrimLeft(b, ws)
  {
    if a == "" {
      assert a + b == b;
    } else {
      assert (a + b)[1..] == a[1..] + b;
      TrimLeftCut(a[1..], b, ws);
    }
  }

  lemma {:induction false} TrimRightCut(a: string, b: string, ws: string)
    requires AllIn(b, ws)
    ensures TrimRight(a + b, ws) == TrimRight(a, ws)
  {
    if b == "" {
      assert a + b == a;
    } else {
      assert (a + b)[..|a + b| - 1] == a + b[..|b| - 1];
      assert (a + b)[|a + b| - 1] == b[|b| - 1];
      TrimRightCut(a, b[..|b| - 1], ws);
    }
  }

  /** Trimming what is already trimmed, with white space put around it. */
  lemma TrimPadded(head: string, r: string, tail: string, ws: string)
    requires AllIn(head, ws) && AllIn(tail, ws) && Trimmed(r, ws)
    ensures Trim(head + r + tail, ws) == r
  {
    TrimRightCut(head + r, tail, ws);
    if r == "" {
      assert head + r == "" + head;
      TrimRightCut("", head, ws);
    } else {
      TrimLeftCut(head, r, ws);
    }
  }

  /** The trimmed text is the middle of the original one. */
  lemma TrimSplit(s: string, ws: string) returns (head: string, tail: string)
    ensures s == head + Trim(s, ws) + tail && AllIn(head, ws) && AllIn(tail, ws)
  {
    tail := TrimRightSplit(s, ws);
    head := TrimLeftSplit(TrimRight(s, ws), ws);
  }

  lemma TrimKeeps(s: string, ws: string)
    ensures forall c :: c in Trim(s, ws) ==> c in s
  {
    var head, tail := TrimSplit(s, ws);
    assert forall c :: c in Trim(s, ws) ==> c in head + Trim(s, ws) + tail;
  }

  /** Only the left end of a text that will be appended to may be trimmed early. */
  lemma TrimEarly(a: string, b: string, ws: string)
    ensures Trim(TrimLeft(a, ws) + b, ws) == Trim(a + b, ws)
  {
    var cut := TrimLeftSplit(a, ws);
    var l := TrimLeft(a, ws) + b;
    assert cut + l == a + b by { Regroup(cut, TrimLeft(a, ws), b); }
    TrimMore(cut, l, ws);
  }

  lemma Regroup<T>(a: seq<T>, b: seq<T>, c: seq<T>)
    ensures a + (b + c) == a + b + c
  {
  }

  lemma TrimMore(cut: string, l: string, ws: string)
    requires AllIn(cut, ws)
    ensures Trim(cut + l, ws) == Trim(l, ws)
  {
    var head, tail := TrimSplit(l, ws);
    assert cut + l == (cut + head) + Trim(l, ws) + tail;
    TrimPadded(cut + head, Trim(l, ws), tail, ws);
  }

  predicate StrLeq(a: string, b: string) {
    a == "" || (b != "" && (a[0] < b[0] || (a[0] == b[0] && StrLeq(a[1..], b[1..]))))
  }

  lemma {:induction false} StrLeqAntisymmetric(a: string, b: string)
    requires StrLeq(a, b) && StrLeq(b, a)
    ensures a == b
  {
    if a != "" {
      StrLeqAntisymmetric(a[1..], b[1..]);
      assert a == [a[0]] + a[1..] && b == [b[0]] + b[1..];
    }
  }

  lemma {:induction false} StrLeqTotal(a: string, b: string)
    ensures StrLeq(a, b) || StrLeq(b, a)
  {
    if a != "" && b != "" { StrLeqTotal(a[1..], b[1..]); }
  }

  lemma {:induction false} StrLeqTransitive(a: string, b: string, c: string)
    requires StrLeq(a, b) && StrLeq(b, c)
    ensures StrLeq(a, c)
  {
    if a != "" && a[0] == b[0] && b[0] == c[0] { StrLeqTransitive(a[1..], b[1..], c[1..]); }
  }

  predicate IsLeast(k: string, s: set<string>) {
    k in s && forall j :: j in s ==> StrLeq(k, j)
  }

  lemma {:induction false} LeastExists(s: set<string>)
    requires s != {}
    ensures exists k :: IsLeast(k, s)
  {
    var x :| x in s;
    StrLeqTotal(x, x);
    if s == {x} {
      assert IsLeast(x, s);
    } else {
      LeastExists(s - {x});
      var y :| IsLeast(y, s - {x});
      StrLeqTotal(x, y);
      var k := if StrLeq(x, y) then x else y;
      forall j | j in s ensures StrLeq(k, j) {
        if j != x { StrLeqTransitive(k, y, j); }
      }
      assert IsLeast(k, s);
    }
  }

  lemma LeastUnique(k: string, j: string, s: set<string>)
    requires IsLeast(k, s) && IsLeast(j, s)
    ensures k == j
  {
    StrLeqAntisymmetric(k, j);
  }

  /** The keys in the order a std::map walks them. */
  ghost function Sorted(s: set<string>): (r: seq<string>)
    ensures forall k :: k in r <==> k in s
    ensures |r| == |s|
  {
    if s == {} then []
    else
      LeastExists(s);
      var k :| IsLeast(k, s);
      [k] + Sorted(s - {k})
  }

  /** The order of a dictionary: the first difference decides, a shorter string comes before a longer one. */
  predicate ComesBefore(a: string, b: string) {
    exists k :: 0 <= k <= |a| && k < |b| && a[..k] == b[..k] && (k == |a| || a[k] < b[k])
  }

  lemma {:induction false} LeqComesBefore(a: string, b: string)
    requires StrLeq(a, b) && a != b
    ensures ComesBefore(a, b)
  {
    if a == "" || a[0] < b[0] {
      assert a[..0] == b[..0];
    } else {
      assert a == [a[0]] + a[1..] && b == [b[0]] + b[1..];
      LeqComesBefore(a[1..], b[1..]);
      var k :| 0 <= k <= |a[1..]| && k < |b[1..]| && a[1..][..k] == b[1..][..k]
               && (k == |a[1..]| || a[1..][k] < b[1..][k]);
      assert a[..k + 1] == [a[0]] + a[1..][..k] && b[..k + 1] == [b[0]] + b[1..][..k];
    }
  }

  lemma SortedParts(s: set<string>) returns (k: string, rest: seq<string>)
    requires s != {}
    ensures IsLeast(k, s) && rest == Sorted(s - {k}) && Sorted(s) == [k] + rest && |s - {k}| == |s| - 1
  {
    k, rest := Sorted(s)[0], Sorted(s)[1..];
  }

  lemma LeastBefore(k: string, s: set<string>, other: string)
    requires IsLeast(k, s) && other in s - {k}
    ensures ComesBefore(k, other)
  {
    LeqComesBefore(k, other);
  }

  /** Each of the strings comes before those behind it. */
  predicate Ascending(r: seq<string>) {
    forall i, j :: 0 <= i < j < |r| ==> ComesBefore(r[i], r[j])
  }

  /** Keys are walked in ascending order. */
  lemma {:induction false} SortedAscending(s: set<string>)
    ensures Ascending(Sorted(s))
    decreases |s|
  {
    if s != {} {
      var k, rest := SortedParts(s);
      SortedAscending(s - {k});
      forall j | 0 <= j < |rest| ensures ComesBefore(k, rest[j]) {
        LeastBefore(k, s, rest[j]);
      }
    }
  }

  /** The empty string, when it is a key, comes first. */
  lemma SortedEmptyFirst(s: set<string>)
    ensures forall i :: 0 < i < |s| ==> Sorted(s)[i] != ""
  {
    if "" in s {
      assert IsLeast("", s);
      var k := Sorted(s)[0];
      LeastUnique(k, "", s);
      assert forall i :: 0 < i < |s| ==> Sorted(s)[i] in s - {""};
    }
  }
}
