/** How many elements of a sequence satisfy a predicate. */
module Counting {

  function Count<T>(s: seq<T>, f: T -> bool): nat {
    if s == [] then 0 else (if f(s[0]) then 1 else 0) + Count(s[1..], f)
  }

  lemma {:induction false} CountUpdate<T>(s: seq<T>, i: nat, x: T, f: T -> bool)
    requires i < |s|
    ensures Count(s[i := x], f) + (if f(s[i]) then 1 else 0) == Count(s, f) + if f(x) then 1 else 0
  {
    if i == 0 {
      assert s[0 := x][1..] == s[1..];
    } else {
      assert s[i := x][1..] == s[1..][i - 1 := x];
      CountUpdate(s[1..], i - 1, x, f);
    }
  }

  lemma {:induction false} CountNone<T>(s: seq<T>, f: T -> bool)
    ensures Count(s, f) == 0 <==> forall i :: 0 <= i < |s| ==> !f(s[i])
  {
    if s != [] {
      CountNone(s[1..], f);
      assert forall i :: 1 <= i < |s| ==> s[i] == s[1..][i - 1];
      assert forall i :: 0 <= i < |s[1..]| ==> s[1..][i] == s[i + 1];
    }
  }

  lemma {:induction false} CountMost<T>(s: seq<T>, f: T -> bool)
    ensures Count(s, f) <= |s|
    ensures Count(s, f) == |s| <==> forall i :: 0 <= i < |s| ==> f(s[i])
  {
    if s != [] {
      CountMost(s[1..], f);
      assert forall i :: 1 <= i < |s| ==> s[i] == s[1..][i - 1];
      assert forall i :: 0 <= i < |s[1..]| ==> s[1..][i] == s[i + 1];
    }
  }

  /** Two sequences that satisfy the predicates at the same places. */
  lemma {:induction false} CountSame<T>(s: seq<T>, t: seq<T>, f: T -> bool, g: T -> bool)
    requires |s| == |t| && forall i :: 0 <= i < |s| ==> f(s[i]) == g(t[i])
    ensures Count(s, f) == Count(t, g)
  {
    if s != [] { CountSame(s[1..], t[1..], f, g); }
  }

  /** Disjoint predicates that make up a third one. */
  lemma {:induction false} CountSum<T>(s: seq<T>, f: T -> bool, g: T -> bool, h: T -> bool)
    requires forall x :: h(x) <==> f(x) || g(x)
    requires forall x :: !(f(x) && g(x))
    ensures Count(s, h) == Count(s, f) + Count(s, g)
  {
    if s != [] { CountSum(s[1..], f, g, h); }
  }
}
