/** Sections named after paths inherit from the enclosing ones (ConfTree, src/conftree.cpp). */
module ConfTree {
  import opened Strings
  import opened ConfText
  import opened ConfSimple
  import opened PathUtil

  /** The section where the search begins: only absolute paths have enclosing sections. */
  function StartSection(sk: string): string {
    if sk == "" || sk[0] != '/' then sk else CatSlash(sk)
  }

  /** The sections searched: the path itself, then what comes before any of its slashes. */
  predicate Encloses(p: string, sk: string) {
    p == StartSection(sk) || (sk != "" && sk[0] == '/' && p < StartSection(sk) && StartSection(sk)[|p|] == '/')
  }

  /** The value comes from the longest enclosing section that has the name. */
  ghost predicate Nearest(m: Submaps, nm: string, sk: string, r: Option<string>) {
    match r
    case None => forall p :: Encloses(p, sk) ==> !Live(m, p, nm)
    case Some(v) => exists p :: NearestAt(m, nm, sk, p) && v == m[p][nm]
  }

  ghost predicate NearestAt(m: Submaps, nm: string, sk: string, p: string) {
    Encloses(p, sk) && Live(m, p, nm) && forall q :: Encloses(q, sk) && Live(m, q, nm) ==> |q| <= |p|
  }

  /** There is only one answer. */
  lemma NearestUnique(m: Submaps, nm: string, sk: string, r: Option<string>, s: Option<string>)
    requires Nearest(m, nm, sk, r) && Nearest(m, nm, sk, s)
    ensures r == s
  {
    if r.Some? && s.Some? {
      var p :| NearestAt(m, nm, sk, p) && r.value == m[p][nm];
      var q :| NearestAt(m, nm, sk, q) && s.value == m[q][nm];
      assert |p| == |q| && p == StartSection(sk)[..|p|] && q == StartSection(sk)[..|q|];
    }
  }

  /** An absolute path falls back to the global section last. */
  lemma GlobalEncloses(sk: string)
    requires sk != "" && sk[0] == '/'
    ensures Encloses("", sk) && forall p :: Encloses(p, sk) ==> "" <= p
  {
    assert "" < StartSection(sk) && StartSection(sk)[0] == '/';
  }

  /** The next section to try is the longest enclosing one that is shorter. */
  lemma NextSection(sk: string, msk: string)
    requires Encloses(msk, sk) && sk != "" && sk[0] == '/'
    ensures var pos := RFind(msk, '/');
            if pos < 0 then msk == ""
            else Encloses(msk[..pos], sk) && forall q :: Encloses(q, sk) && |q| < |msk| ==> |q| <= pos
  {
    var pos, all := RFind(msk, '/'), StartSection(sk);
    assert msk == all[..|msk|];
    assert all[0] == '/' && (msk != "" ==> msk[0] == '/');
    if pos >= 0 {
      assert msk[..pos] == all[..pos] && all[pos] == '/';
      forall q | Encloses(q, sk) && |q| < |msk| ensures |q| <= pos {
        assert all[|q|] == '/' && msk[|q|] == '/';
      }
    }
  }

  /** ConfTree::get() */
  method Get(c: ConfSimple, nm: string, sk: string) returns (r: Option<string>)
    ensures c.status != STATUS_ERROR ==> Nearest(c.submaps, nm, sk, r)
    ensures c.status == STATUS_ERROR ==> r == None
  {
    if sk == "" || sk[0] != '/' {
      r := c.Get(nm, sk);
      assert Encloses(sk, sk);
      if r.Some? { assert NearestAt(c.submaps, nm, sk, sk); }
      return;
    }
    var msk := CatSlash(sk);
    while true
      invariant Encloses(msk, sk)
      invariant c.status == STATUS_ERROR || forall q :: Encloses(q, sk) && Live(c.submaps, q, nm) ==> |q| <= |msk|
      decreases |msk|
    {
      r := c.Get(nm, msk);
      if r.Some? {
        assert NearestAt(c.submaps, nm, sk, msk);
        return;
      }
      NextSection(sk, msk);
      OneOfEachLength(sk, msk);
      var pos := RFind(msk, '/');
      if pos < 0 {
        return None;
      }
      msk := msk[..pos];
    }
  }

  lemma OneOfEachLength(sk: string, msk: string)
    requires Encloses(msk, sk)
    ensures forall q :: Encloses(q, sk) && |q| == |msk| ==> q == msk
  {
    forall q | Encloses(q, sk) && |q| == |msk| ensures q == msk {
      assert q == StartSection(sk)[..|q|] && msk == StartSection(sk)[..|msk|];
    }
  }
}
