/** Canonical paths and the test for descendants (src/pathut.cpp). */
module PathUtil {
  import opened Strings
  import opened Tokens

  /** path_catslash() */
  function CatSlash(s: string): string {
    if s == "" || s[|s| - 1] != '/' then s + "/" else s
  }

  function PathCat(s1: string, s2: string): string {
    var res := if s1 == "" then "./" else s1;
    if s2 == "" then res else CatSlash(res) + s2
  }

  function GetFather(s: string): string {
    if s == "" then "./"
    else if s == "/" then s
    else
      var father := if s[|s| - 1] == '/' then s[..|s| - 1] else s;
      var slp := RFind(father, '/');
      if slp < 0 then "./" else CatSlash(father[..slp])
  }

  /** The path that path_canon() cleans up: a relative one is taken from the current directory. */
  function Absolute(s: string, cwd: string): string {
    if s != "" && s[0] == '/' then s else PathCat(cwd, s)
  }

  function CleanOne(elem: string, cleaned: seq<string>): seq<string> {
    if elem == ".." then if cleaned == [] then [] else cleaned[..|cleaned| - 1]
    else if elem == "" || elem == "." then cleaned
    else cleaned + [elem]
  }

  function Clean(elems: seq<string>, cleaned: seq<string>): seq<string>
    decreases |elems|
  {
    if elems == [] then cleaned else Clean(elems[1..], CleanOne(elems[0], cleaned))
  }

  function Slashed(elems: seq<string>): string {
    if elems == [] then "" else "/" + elems[0] + Slashed(elems[1..])
  }

  function PathOf(elems: seq<string>): string {
    if elems == [] then "/" else Slashed(elems)
  }

  /** The components that a path leads to. */
  function Components(s: string, cwd: string): seq<string> {
    Clean(TokensOf(Absolute(s, cwd), "/"), [])
  }

  function Canon(s: string, cwd: string): string {
    PathOf(Components(s, cwd))
  }

  // ---- tokens of paths ----

  predicate Component(t: string) {
    t != "" && '/' !in t
  }

  ghost predicate NoSlash(v: seq<string>) {
    forall i :: 0 <= i < |v| ==> Component(v[i])
  }

  /** No component is empty, a dot or two dots. */
  ghost predicate Proper(v: seq<string>) {
    NoSlash(v) && forall i :: 0 <= i < |v| ==> v[i] != "." && v[i] != ".."
  }

  lemma {:induction false} NonEmptiesNoSlash(v: seq<string>)
    requires forall i :: 0 <= i < |v| ==> '/' !in v[i]
    ensures NoSlash(NonEmpties(v))
  {
    if v != [] {
      NonEmptiesNoSlash(v[1..]);
    }
  }

  lemma TokensNoSlash(s: string)
    ensures NoSlash(TokensOf(s, "/"))
  {
    var fields := Fields(s, "/");
    forall i | 0 <= i < |fields| ensures '/' !in fields[i] {
      assert fields[i] in fields && '/' in "/";
    }
    NonEmptiesNoSlash(fields);
  }

  lemma FindSlash(a: string, b: string)
    requires '/' !in a
    ensures FindAny(a + "/" + b, "/") == |a|
  {
    var s := a + "/" + b;
    assert s[|a|] == '/';
    assert forall j :: 0 <= j < |a| ==> s[j] == a[j];
  }

  /** The tokens of two paths put together. */
  lemma {:induction false} TokensCat(a: string, b: string)
    ensures TokensOf(a + "/" + b, "/") == TokensOf(a, "/") + TokensOf(b, "/")
    decreases |a|
  {
    var k := FindAny(a, "/");
    if k == |a| {
      NoDelim(a);
      FirstToken(a, b);
      TokenAlone(a);
    } else {
      var a1, a2 := a[..k], a[k + 1..];
      assert '/' !in a1;
      assert a == a1 + "/" + a2;
      assert a + "/" + b == a1 + "/" + (a2 + "/" + b);
      FirstToken(a1, a2 + "/" + b);
      FirstToken(a1, a2);
      TokensCat(a2, b);
      Regroup(if a1 == "" then [] else [a1], TokensOf(a2, "/"), TokensOf(b, "/"));
    }
  }

  lemma NoDelim(a: string)
    requires FindAny(a, "/") == |a|
    ensures '/' !in a
  {
    assert '/' in "/";
  }

  lemma FirstToken(a: string, b: string)
    requires '/' !in a
    ensures TokensOf(a + "/" + b, "/") == (if a == "" then [] else [a]) + TokensOf(b, "/")
  {
    var s := a + "/" + b;
    FindSlash(a, b);
    assert s[..|a|] == a && s[|a| + 1..] == b;
    FirstField(s, |a|);
  }

  lemma TokenAlone(t: string)
    requires '/' !in t
    ensures TokensOf(t, "/") == if t == "" then [] else [t]
  {
    if t != "" {
      assert FindAny(t, "/") == |t|;
      assert Fields(t, "/") == [t] && [t][1..] == [];
      assert NonEmpties([t]) == [t] + NonEmpties([t][1..]);
    }
  }

  lemma FirstField(s: string, k: nat)
    requires k == FindAny(s, "/") < |s|
    ensures TokensOf(s, "/") == (if k == 0 then [] else [s[..k]]) + TokensOf(s[k + 1..], "/")
  {
    assert Fields(s, "/") == [s[..k]] + Fields(s[k + 1..], "/");
    assert Fields(s, "/")[1..] == Fields(s[k + 1..], "/");
  }

  lemma {:induction false} TokensSlashed(v: seq<string>)
    requires NoSlash(v)
    ensures TokensOf(Slashed(v), "/") == v
  {
    if v != [] {
      var c, rest := v[0], Slashed(v[1..]);
      assert Component(c);
      TokensSlashed(v[1..]);
      assert "/" + c + rest == "" + "/" + (c + rest);
      FirstToken("", c + rest);
      assert [] + TokensOf(c + rest, "/") == TokensOf(c + rest, "/");
      assert v == [c] + v[1..];
      if v[1..] == [] {
        assert c + rest == c;
        TokenAlone(c);
      } else {
        assert rest == "" + "/" + rest[1..];
        assert c + rest == c + "/" + rest[1..];
        FirstToken(c, rest[1..]);
        FirstToken("", rest[1..]);
        assert [] + TokensOf(rest[1..], "/") == TokensOf(rest[1..], "/");
      }
    }
  }

  lemma TokensOfPath(v: seq<string>)
    requires NoSlash(v)
    ensures TokensOf(PathOf(v), "/") == v
  {
    TokensSlashed(v);
    if v == [] {
      assert "/" == "" + "/" + "";
      FirstToken("", "");
    }
  }

  // ---- path_canon() ----

  lemma {:induction false} CleanProper(elems: seq<string>, cleaned: seq<string>)
    requires NoSlash(elems) && Proper(cleaned)
    ensures Proper(Clean(elems, cleaned))
    decreases |elems|
  {
    if elems != [] {
      assert Component(elems[0]);
      CleanProper(elems[1..], CleanOne(elems[0], cleaned));
    }
  }

  lemma {:induction false} CleanKeeps(elems: seq<string>, cleaned: seq<string>)
    requires Proper(elems)
    ensures Clean(elems, cleaned) == cleaned + elems
    decreases |elems|
  {
    if elems != [] {
      assert Component(elems[0]) && CleanOne(elems[0], cleaned) == cleaned + [elems[0]];
      CleanKeeps(elems[1..], cleaned + [elems[0]]);
      assert cleaned + [elems[0]] + elems[1..] == cleaned + elems;
    }
  }

  lemma {:induction false} CleanCat(a: seq<string>, b: seq<string>, cleaned: seq<string>)
    ensures Clean(a + b, cleaned) == Clean(b, Clean(a, cleaned))
    decreases |a|
  {
    if a == [] {
      assert a + b == b;
    } else {
      assert (a + b)[1..] == a[1..] + b;
      CleanCat(a[1..], b, CleanOne(a[0], cleaned));
    }
  }

  /** The canonical path is the one made of the components, absolute and without empty, dot or dot-dot ones. */
  lemma CanonProper(s: string, cwd: string)
    ensures Proper(Components(s, cwd)) && TokensOf(Canon(s, cwd), "/") == Components(s, cwd)
    ensures Canon(s, cwd) != "" && Canon(s, cwd)[0] == '/'
    ensures Canon(s, cwd) == "/" || Canon(s, cwd)[|Canon(s, cwd)| - 1] != '/'
  {
    TokensNoSlash(Absolute(s, cwd));
    CleanProper(TokensOf(Absolute(s, cwd), "/"), []);
    TokensOfPath(Components(s, cwd));
    LastOfSlashed(Components(s, cwd));
  }

  lemma {:induction false} LastOfSlashed(v: seq<string>)
    requires NoSlash(v)
    ensures v != [] ==> Slashed(v) != "" && Slashed(v)[|Slashed(v)| - 1] != '/'
  {
    if v != [] {
      assert Component(v[0]) && v[0][|v[0]| - 1] != '/';
      LastOfSlashed(v[1..]);
    }
  }

  /** Canonical paths are equal exactly when they lead to the same components. */
  lemma CanonDecides(s: string, t: string, cwd: string)
    ensures Canon(s, cwd) == Canon(t, cwd) <==> Components(s, cwd) == Components(t, cwd)
  {
    CanonProper(s, cwd);
    CanonProper(t, cwd);
  }

  lemma DotSlash()
    ensures TokensOf("./", "/") == ["."]
  {
    assert "./" == "." + "/" + "";
    FirstToken(".", "");
    TokenAlone("");
    assert ["."] + [] == ["."];
  }

  lemma SlashTokens(res: string, s2: string)
    requires res != "" && s2 != ""
    ensures TokensOf(CatSlash(res) + s2, "/") == TokensOf(res, "/") + TokensOf(s2, "/")
  {
    if res[|res| - 1] == '/' {
      var r := res[..|res| - 1];
      assert res + s2 == r + "/" + s2 && res == r + "/" + "";
      TokensCat(r, s2);
      TokensCat(r, "");
      TokenAlone("");
      assert TokensOf(r, "/") + [] == TokensOf(r, "/");
    } else {
      TokensCat(res, s2);
    }
  }

  lemma CatTokens(s1: string, s2: string)
    ensures TokensOf(PathCat(s1, s2), "/") == (if s1 == "" then ["."] else TokensOf(s1, "/")) + TokensOf(s2, "/")
  {
    var res := if s1 == "" then "./" else s1;
    DotSlash();
    if s2 == "" {
      TokenAlone("");
      assert TokensOf(res, "/") + [] == TokensOf(res, "/");
    } else {
      SlashTokens(res, s2);
    }
  }

  /** What a relative path starts from. */
  function Start(s: string, cwd: string): seq<string> {
    if s != "" && s[0] == '/' then [] else Clean(TokensOf(cwd, "/"), [])
  }

  lemma AbsoluteClean(s: string, cwd: string)
    ensures Components(s, cwd) == Clean(TokensOf(s, "/"), Start(s, cwd))
  {
    if !(s != "" && s[0] == '/') {
      CatTokens(cwd, s);
      DotOrTokens(cwd, TokensOf(s, "/"), []);
    }
  }

  lemma DotOrTokens(s: string, more: seq<string>, cleaned: seq<string>)
    ensures Clean((if s == "" then ["."] else TokensOf(s, "/")) + more, cleaned)
         == Clean(more, Clean(TokensOf(s, "/"), cleaned))
  {
    if s == "" {
      CleanCat(["."], more, cleaned);
      assert ["."][1..] == [] && TokensOf(s, "/") == [];
    } else {
      CleanCat(TokensOf(s, "/"), more, cleaned);
    }
  }

  lemma ComponentsCat(a: string, b: string, cwd: string)
    ensures Components(PathCat(a, b), cwd) == Clean(TokensOf(b, "/"), Components(a, cwd))
  {
    AbsoluteClean(PathCat(a, b), cwd);
    AbsoluteClean(a, cwd);
    CatTokens(a, b);
    assert Start(PathCat(a, b), cwd) == Start(a, cwd);
    DotOrTokens(a, TokensOf(b, "/"), Start(a, cwd));
  }

  /** One step: two dots go up, at the root they stay there, one dot goes nowhere, and anything else goes down. */
  lemma PathStep(p: string, c: string, cwd: string, from: seq<string>, to: seq<string>)
    requires Component(c) && from == Components(p, cwd) && to == Components(PathCat(p, c), cwd)
    ensures c == "." ==> to == from
    ensures c == ".." ==> |to| == (if from == [] then 0 else |from| - 1) && to <= from
    ensures c != "." && c != ".." ==> to == from + [c]
  {
    ComponentsCat(p, c, cwd);
    TokenAlone(c);
    assert [c][1..] == [];
  }

  /** Where the steps start: at the root, or at the current directory. */
  lemma PathStart(s: string, cwd: string)
    requires cwd != "" && cwd[0] == '/'
    ensures Components("/", cwd) == []
    ensures s == "" || s[0] != '/' ==> Components(s, cwd) == Components(PathCat(cwd, s), "/")
  {
    assert "/" == "" + "/" + "";
    FirstToken("", "");
    TokenAlone("");
    assert PathCat(cwd, s)[0] == '/';
  }

  lemma CanonIdempotent(s: string, cwd: string, cwd2: string)
    ensures Canon(Canon(s, cwd), cwd2) == Canon(s, cwd)
  {
    CanonComponents(s, cwd, cwd2);
  }

  /** A path may be cleaned before something is appended to it: the result is the same. */
  lemma CanonCat(a: string, b: string, cwd: string, cwd2: string)
    ensures Canon(PathCat(Canon(a, cwd), b), cwd2) == Canon(PathCat(a, b), cwd)
  {
    ComponentsCat(a, b, cwd);
    ComponentsCat(Canon(a, cwd), b, cwd2);
    CanonComponents(a, cwd, cwd2);
  }

  lemma CanonComponents(s: string, cwd: string, cwd2: string)
    ensures Components(Canon(s, cwd), cwd2) == Components(s, cwd)
  {
    CanonProper(s, cwd);
    CleanKeeps(Components(s, cwd), []);
    assert [] + Components(s, cwd) == Components(s, cwd);
  }

  /** path_canon() */
  method PathCanon(s: string, cwd: string) returns (ret: string)
    ensures ret == Canon(s, cwd)
  {
    var elems := StringToTokens(Absolute(s, cwd), "/", true, false);
    var cleaned: seq<string> := [];
    assert elems[0..] == elems;
    for i := 0 to |elems|
      invariant Clean(elems[i..], cleaned) == Clean(elems, [])
    {
      var elem := elems[i];
      assert elems[i..][1..] == elems[i + 1..];
      if elem == ".." {
        if cleaned != [] {
          cleaned := cleaned[..|cleaned| - 1];
        }
      } else if elem == "" || elem == "." {
      } else {
        cleaned := cleaned + [elem];
      }
    }
    ret := "";
    if cleaned != [] {
      assert cleaned[0..] == cleaned;
      for i := 0 to |cleaned|
        invariant ret + Slashed(cleaned[i..]) == Slashed(cleaned)
      {
        assert cleaned[i..][1..] == cleaned[i + 1..];
        Regroup(ret, "/" + cleaned[i], Slashed(cleaned[i + 1..]));
        Regroup(ret, "/", cleaned[i]);
        ret := ret + "/";
        ret := ret + cleaned[i];
      }
      assert ret + "" == ret;
    } else {
      ret := "/";
    }
  }

  // ---- path_isdesc() ----

  /** The form in which path_isdesc() compares paths. */
  function Dir(v: seq<string>): string {
    Slashed(v) + "/"
  }

  lemma DirOfCanon(s: string, cwd: string)
    ensures CatSlash(Canon(s, cwd)) == Dir(Components(s, cwd))
  {
    CanonProper(s, cwd);
    LastOfSlashed(Components(s, cwd));
    assert "" + "/" == "/";
  }

  lemma {:induction false} SlashedMore(v: seq<string>, t: string)
    ensures Slashed(v + [t]) == Slashed(v) + "/" + t
  {
    if v == [] {
      assert [t][1..] == [] && [] + [t] == [t];
    } else {
      assert (v + [t])[1..] == v[1..] + [t];
      SlashedMore(v[1..], t);
      Regroup("/" + v[0], Slashed(v[1..]) + "/", t);
      Regroup("/" + v[0], Slashed(v[1..]), "/");
    }
  }

  /** Going up from a directory takes its last component away, and the root stays where it is. */
  lemma FatherOfDir(v: seq<string>)
    requires NoSlash(v)
    ensures v == [] ==> GetFather(Dir(v)) == Dir(v) == "/"
    ensures v != [] ==> GetFather(Dir(v)) == Dir(v[..|v| - 1]) && |Dir(v[..|v| - 1])| < |Dir(v)|
  {
    if v != [] {
      var up, t := v[..|v| - 1], v[|v| - 1];
      assert v == up + [t] && Component(v[|v| - 1]);
      SlashedMore(up, t);
      var father := Slashed(v);
      assert Dir(v)[..|Dir(v)| - 1] == father;
      assert father == Slashed(up) + "/" + t;
      LastSlash(Slashed(up), t);
      FatherText(up, father);
    }
  }

  /** Going up drops the last name, with or without a slash behind it; a name alone leads to the current directory. */
  lemma FatherIs(a: string, t: string)
    requires '/' !in t
    ensures GetFather(a + "/" + t + "/") == CatSlash(a) && (t != "" ==> GetFather(a + "/" + t) == CatSlash(a))
    ensures GetFather(t) == "./" && (t != "" ==> GetFather(t + "/") == "./") && GetFather("/") == "/"
  {
    LastSlash(a, t);
    var s := a + "/" + t;
    assert (s + "/")[..|s|] == s && (t + "/")[..|t|] == t;
    if t != "" { assert s[|s| - 1] == t[|t| - 1]; }
  }

  lemma LastSlash(a: string, t: string)
    requires '/' !in t
    ensures RFind(a + "/" + t, '/') == |a| && (a + "/" + t)[..|a|] == a
  {
    var s := a + "/" + t;
    assert s[|a|] == '/';
    assert forall j :: |a| < j < |s| ==> s[j] == t[j - |a| - 1];
  }

  lemma FatherText(up: seq<string>, father: string)
    requires NoSlash(up) && father != ""
    requires RFind(father, '/') == |Slashed(up)| && father[..|Slashed(up)|] == Slashed(up)
    ensures GetFather(father + "/") == Dir(up)
  {
    assert (father + "/")[..|father|] == father;
    LastOfSlashed(up);
  }

  lemma {:induction false} DirPrefix(v: seq<string>, k: nat)
    requires NoSlash(v) && k <= |v|
    ensures |Dir(v[..k])| <= |Dir(v)| && (k < |v| ==> |Dir(v[..k])| < |Dir(v)|)
    decreases |v|
  {
    if k < |v| {
      FatherOfDir(v);
      DirPrefix(v[..|v| - 1], k);
      assert v[..|v| - 1][..k] == v[..k];
    } else {
      assert v[..k] == v;
    }
  }

  lemma DirInjective(a: seq<string>, b: seq<string>)
    requires NoSlash(a) && NoSlash(b) && Dir(a) == Dir(b)
    ensures a == b
  {
    assert Slashed(a) == Dir(a)[..|Dir(a)| - 1] == Slashed(b);
    TokensSlashed(a);
    TokensSlashed(b);
  }

  /** Once sub is shorter than top, or the root, no prefix of it is left to try but itself. */
  lemma NoMorePrefix(top: seq<string>, cur: seq<string>)
    requires NoSlash(top) && NoSlash(cur) && (cur == [] || |Dir(cur)| < |Dir(top)|)
    ensures top <= cur <==> Dir(cur) == Dir(top)
  {
    if top <= cur {
      DirPrefix(cur, |top|);
      assert cur[..|top|] == top;
    }
    if Dir(cur) == Dir(top) { DirInjective(cur, top); }
  }

  /** One step up from a directory that is not the one searched for. */
  lemma OneUp(top: seq<string>, cur: seq<string>, up: seq<string>)
    requires NoSlash(top) && NoSlash(cur) && Dir(top) != Dir(cur)
    requires up == if cur == [] then [] else cur[..|cur| - 1]
    ensures GetFather(Dir(cur)) == Dir(up) && NoSlash(up)
    ensures |Dir(up)| <= |Dir(cur)| && (|Dir(up)| == |Dir(cur)| ==> up == [])
    ensures top <= cur <==> top <= up
  {
    FatherOfDir(cur);
    ShorterPrefix(top, cur, up);
  }

  lemma ShorterPrefix(top: seq<string>, cur: seq<string>, up: seq<string>)
    requires top != cur && up == if cur == [] then [] else cur[..|cur| - 1]
    ensures top <= cur <==> top <= up
  {
    assert cur[..|cur|] == cur;
    if top <= cur {
      assert top == cur[..|top|];
    }
  }

  /** The loop of path_isdesc() on two directories. */
  method IsDescDir(top: string, sub0: string, ghost ts: seq<string>, ghost ss: seq<string>) returns (r: bool)
    requires NoSlash(ts) && NoSlash(ss) && top == Dir(ts) && sub0 == Dir(ss)
    ensures r <==> ts <= ss
  {
    var sub := sub0;
    ghost var cur := ss;
    while true
      invariant sub == Dir(cur) && NoSlash(cur) && (ts <= ss <==> ts <= cur)
      decreases |sub|
    {
      if sub == top {
        DirInjective(ts, cur);
        return true;
      }
      var l := |sub|;
      ghost var up := if cur == [] then [] else cur[..|cur| - 1];
      OneUp(ts, cur, up);
      sub := GetFather(sub);
      cur := up;
      if |sub| == l || |sub| < |top| {
        NoMorePrefix(ts, cur);
        return sub == top;
      }
    }
  }

  /** path_isdesc(): whether the components of one path begin those of the other. */
  method IsDesc(top0: string, sub0: string, cwd: string) returns (r: bool)
    ensures r <==> top0 != "" && sub0 != "" && TokensOf(Canon(top0, cwd), "/") <= TokensOf(Canon(sub0, cwd), "/")
  {
    if top0 == "" || sub0 == "" { return false; }
    CanonProper(top0, cwd);
    CanonProper(sub0, cwd);
    DirOfCanon(top0, cwd);
    DirOfCanon(sub0, cwd);
    var top := PathCanon(top0, cwd);
    var sub := PathCanon(sub0, cwd);
    r := IsDescDir(CatSlash(top), CatSlash(sub), Components(top0, cwd), Components(sub0, cwd));
  }
}
