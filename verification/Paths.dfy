/**
 Overlay paths: relative, '/'-separated strings. `Below` and `AtOrBelow` are the
 component-boundary prefix tests every subtree operation is built on.
 */
module Paths {
  import opened Machine

  type Path = string

  datatype PathError = InvalidPath

  /** p starts with dir + "/". */
  predicate Below(p: Path, dir: Path) {
    |dir| < |p| && p[|dir|] == '/' && p[..|dir|] == dir
  }

  predicate AtOrBelow(p: Path, dir: Path) {
    p == dir || Below(p, dir)
  }

  function PrefixMatch(p: Path, dir: Path): Option<string> {
    if p == dir then Some("")
    else if Below(p, dir) then Some(p[|dir| + 1..])
    else None
  }

  function ToPath(dir: Path, rest: string): Path {
    if rest == "" then dir else dir + "/" + rest
  }

  /** Child `name` of `dir`, where the root is "". */
  function Join(dir: Path, name: string): Path {
    if dir == "" then name else dir + "/" + name
  }

  /** p moved from the subtree `from` to the subtree `to`; paths elsewhere stay. */
  function Rebase(p: Path, from: Path, to: Path): Path {
    match PrefixMatch(p, from)
    case Some(rest) => ToPath(to, rest)
    case None => p
  }

  /** Neither path is the other or lies below it. */
  predicate Incomparable(a: Path, b: Path) {
    !AtOrBelow(a, b) && !AtOrBelow(b, a)
  }

  // --------------------------------------------------------- canonical paths

  /** The index of the first '/' in p, or |p|. */
  function FirstSlash(p: Path): (i: nat)
    ensures i <= |p|
    ensures i < |p| ==> p[i] == '/'
    ensures forall k :: 0 <= k < i ==> p[k] != '/'
  {
    if p == "" || p[0] == '/' then 0 else 1 + FirstSlash(p[1..])
  }

  /** strings.Split(p, "/"). */
  function Components(p: Path): (cs: seq<string>)
    decreases |p|
  {
    var i := FirstSlash(p);
    if i == |p| then [p] else [p[..i]] + Components(p[i + 1..])
  }

  predicate RealName(c: string) {
    c != "" && c != "." && c != ".."
  }

  /** A non-empty relative path all of whose components are real names. */
  predicate Canonical(p: Path) {
    forall c :: c in Components(p) ==> RealName(c)
  }

  /** One component of a canonical path. */
  predicate IsName(c: string) {
    RealName(c) && '/' !in c
  }

  // ------------------------------------------------------------------ lemmas

  lemma AtOrBelowTransitive(p: Path, q: Path, r: Path)
    requires AtOrBelow(p, q) && AtOrBelow(q, r)
    ensures AtOrBelow(p, r)
  {
    if p != q && q != r {
      assert p[..|r|] == q[..|r|];
      assert p[|r|] == q[|r|];
    }
  }

  /** Two directories above one path lie on one branch. */
  lemma SharedDescendant(p: Path, a: Path, b: Path)
    requires AtOrBelow(p, a) && AtOrBelow(p, b) && |a| <= |b|
    ensures AtOrBelow(b, a)
  {
    if |a| < |b| {
      assert b == p[..|b|];
      assert b[..|a|] == p[..|a|] == a;
      assert b[|a|] == p[|a|];
    } else {
      assert p == a || p[..|a|] == a;
      assert p == b || p[..|b|] == b;
      assert a == b;
    }
  }

  lemma SubtreesDisjoint(p: Path, a: Path, b: Path)
    requires Incomparable(a, b)
    ensures !(AtOrBelow(p, a) && AtOrBelow(p, b))
  {
    if AtOrBelow(p, a) && AtOrBelow(p, b) {
      if |a| <= |b| { SharedDescendant(p, a, b); } else { SharedDescendant(p, b, a); }
    }
  }

  lemma ToPathMatches(dir: Path, rest: string)
    ensures AtOrBelow(ToPath(dir, rest), dir)
    ensures PrefixMatch(ToPath(dir, rest), dir) == Some(rest)
  {
    if rest != "" {
      var p := dir + "/" + rest;
      assert p == (dir + "/") + rest;
      assert p[..|dir|] == dir && p[|dir| + 1..] == rest;
    }
  }

  lemma MatchRejoins(p: Path, dir: Path)
    requires AtOrBelow(p, dir) && Canonical(p)
    ensures PrefixMatch(p, dir).Some? && ToPath(dir, PrefixMatch(p, dir).value) == p
    ensures PrefixMatch(p, dir).value == "" <==> p == dir
  {
    if p != dir {
      var rest := p[|dir| + 1..];
      assert p == dir + "/" + rest;
      CanonicalJoin(dir, rest);
    }
  }

  /** Moving a subtree there and back again is the identity. */
  lemma RebaseBack(p: Path, from: Path, to: Path)
    requires AtOrBelow(p, from) && Canonical(p)
    ensures AtOrBelow(Rebase(p, from, to), to)
    ensures Rebase(Rebase(p, from, to), to, from) == p
    ensures Rebase(p, from, to) == to <==> p == from
  {
    MatchRejoins(p, from);
    ToPathMatches(to, PrefixMatch(p, from).value);
  }

  lemma ComponentsAt(p: Path, i: nat)
    requires i < |p| && p[i] == '/' && forall k :: 0 <= k < i ==> p[k] != '/'
    ensures Components(p) == [p[..i]] + Components(p[i + 1..])
  {
    FirstSlashUnique(p, i);
  }

  lemma ComponentsOfName(p: Path)
    requires FirstSlash(p) == |p|
    ensures Components(p) == [p]
  {
  }

  lemma {:induction false} ComponentsJoin(a: Path, b: Path)
    ensures Components(a + "/" + b) == Components(a) + Components(b)
    decreases |a|
  {
    var p, i := a + "/" + b, FirstSlash(a);
    hide Components, FirstSlash;
    JoinSlices(a, b, i);
    ComponentsAt(p, i);
    if i < |a| {
      ComponentsJoin(a[i + 1..], b);
      ComponentsAt(a, i);
    } else {
      ComponentsOfName(a);
      assert a[..i] == a;
    }
  }

  lemma JoinSlices(a: Path, b: Path, i: nat)
    requires i <= |a| && (i < |a| ==> a[i] == '/') && forall k :: 0 <= k < i ==> a[k] != '/'
    ensures var p := a + "/" + b;
            && i < |p| && p[i] == '/' && (forall k :: 0 <= k < i ==> p[k] != '/')
            && p[..i] == a[..i]
            && p[i + 1..] == if i == |a| then b else a[i + 1..] + "/" + b
  {
    var p := a + "/" + b;
    assert p[..i] == a[..i];
    if i == |a| {
      assert p[i + 1..] == b;
    } else {
      assert p[i + 1..] == a[i + 1..] + "/" + b;
    }
  }

  lemma FirstSlashUnique(p: Path, i: nat)
    requires i < |p| && p[i] == '/' && forall k :: 0 <= k < i ==> p[k] != '/'
    ensures FirstSlash(p) == i
  {
    var _ := FirstSlash(p);
  }

  /** Splitting at a component boundary and re-joining both stay canonical. */
  lemma CanonicalJoin(a: Path, b: Path)
    ensures Canonical(a + "/" + b) <==> Canonical(a) && Canonical(b)
    ensures Canonical(b) ==> b != ""
  {
    ComponentsJoin(a, b);
    var cs := Components(a + "/" + b);
    assert forall c :: c in cs <==> c in Components(a) || c in Components(b);
    if b == "" { assert "" in Components(b); }
  }

  lemma RebaseCanonical(p: Path, from: Path, to: Path)
    requires Canonical(p) && Canonical(to)
    ensures Canonical(Rebase(p, from, to))
  {
    if Below(p, from) {
      var rest := p[|from| + 1..];
      assert p == from + "/" + rest;
      CanonicalJoin(from, rest);
      CanonicalJoin(to, rest);
    }
  }

  lemma NameIsCanonical(c: string)
    requires IsName(c)
    ensures Canonical(c)
  {
    assert FirstSlash(c) == |c|;
  }

  /** The ancestors-or-self of a child are the child and those of its parent. */
  lemma AboveChild(dir: Path, name: string, q: Path)
    requires IsName(name) && q != ""
    ensures AtOrBelow(Join(dir, name), q) <==> q == Join(dir, name) || (dir != "" && AtOrBelow(dir, q))
  {
    var p := Join(dir, name);
    assert forall k :: 0 <= k < |name| ==> name[k] in name;
    if dir != "" {
      assert p[..|dir|] == dir && p[|dir|] == '/';
      assert forall k :: |dir| < k < |p| ==> p[k] == name[k - |dir| - 1] != '/';
      if Below(p, q) && |q| <= |dir| {
        assert p[..|q|] == dir[..|q|];
      }
      if AtOrBelow(dir, q) {
        assert AtOrBelow(p, dir);
        AtOrBelowTransitive(p, dir, q);
      }
    }
  }

  lemma SelfBelow(p: Path)
    ensures AtOrBelow(p, p)
  {
  }

  /** An ancestor of a path below dir that is not at or below dir is strictly above dir. */
  lemma AboveOrInside(p: Path, dir: Path, q: Path)
    requires AtOrBelow(p, dir) && AtOrBelow(p, q)
    ensures AtOrBelow(q, dir) || Below(dir, q)
  {
    if |dir| <= |q| { SharedDescendant(p, dir, q); } else { SharedDescendant(p, q, dir); }
  }

  /** Re-basing keeps who is above whom. */
  lemma RebaseMonotone(p: Path, q: Path, from: Path, to: Path)
    requires AtOrBelow(p, q) && AtOrBelow(q, from) && Canonical(p) && Canonical(q)
    ensures AtOrBelow(Rebase(p, from, to), Rebase(q, from, to))
  {
    hide Canonical;
    AtOrBelowTransitive(p, q, from);
    RebaseBack(p, from, to);
    RebaseBack(q, from, to);
    if q != from && p != q {
      RestPrefix(p, q, from);
      MatchRejoins(p, from);
      MatchRejoins(q, from);
      PrefixUnder(to, p[|from| + 1..], q[|from| + 1..]);
    }
  }

  lemma RestPrefix(p: Path, q: Path, from: Path)
    requires Below(p, q) && Below(q, from) && Below(p, from)
    ensures var rp, rq := p[|from| + 1..], q[|from| + 1..];
            |rq| < |rp| && rp[|rq|] == '/' && rp[..|rq|] == rq
  {
    var rp, rq := p[|from| + 1..], q[|from| + 1..];
    assert p[..|q|] == q;
    assert rp[..|rq|] == p[..|q|][|from| + 1..];
  }

  lemma PrefixUnder(to: Path, rp: string, rq: string)
    requires rq != "" && |rq| < |rp| && rp[|rq|] == '/' && rp[..|rq|] == rq
    ensures Below(ToPath(to, rp), ToPath(to, rq))
  {
    var a, b := to + "/" + rp, to + "/" + rq;
    assert a[|b|] == rp[|rq|];
    assert a[..|b|] == to + "/" + rp[..|rq|];
  }

  lemma SuffixCarries(p: Path, from: Path, to: Path)
    requires AtOrBelow(p, from) && Canonical(p)
    ensures |to| <= |Rebase(p, from, to)| && from + Rebase(p, from, to)[|to|..] == p
  {
    MatchRejoins(p, from);
    var t := Rebase(p, from, to);
    assert t[|to|..] == p[|from|..];
  }

  // ------------------------------------------------------------ normalization

  /** Accepts exactly the canonical paths and returns them unchanged. */
  method NormalizePath(p: Path) returns (r: Result<Path, PathError>)
    ensures r == if Canonical(p) then Ok(p) else Err(InvalidPath)
    ensures Canonical(p) ==> p != "" && p[0] != '/' && p[|p| - 1] != '/'
  {
    EdgeSlashes(p);
    if p == "" || p[0] == '/' {
      return Err(InvalidPath);
    }
    var cs := Components(p);
    for i := 0 to |cs|
      invariant forall k :: 0 <= k < i ==> RealName(cs[k])
    {
      if cs[i] == "" || cs[i] == "." || cs[i] == ".." {
        assert cs[i] in cs;
        return Err(InvalidPath);
      }
    }
    return Ok(p);
  }

  lemma EdgeSlashes(p: Path)
    ensures Canonical(p) ==> p != "" && p[0] != '/' && p[|p| - 1] != '/'
  {
    if p == "" {
      assert "" in Components(p);
    } else {
      if p[0] == '/' {
        assert p == "" + "/" + p[1..];
        CanonicalJoin("", p[1..]);
        assert "" in Components("");
      }
      if p[|p| - 1] == '/' {
        assert p == p[..|p| - 1] + "/" + "";
        CanonicalJoin(p[..|p| - 1], "");
      }
    }
  }

  /** p[i..j] is one whole component: between boundaries, with no slash inside. */
  predicate IsComponent(p: Path, i: int, j: int) {
    && 0 <= i <= j <= |p| && (i == 0 || p[i - 1] == '/') && (j == |p| || p[j] == '/')
    && forall k :: i <= k < j ==> p[k] != '/'
  }

  /** Every component of a path is one of its pieces between slashes. */
  lemma {:induction false} ComponentPlace(p: Path, c: string) returns (i: int, j: int)
    requires c in Components(p)
    ensures IsComponent(p, i, j) && p[i..j] == c
    decreases |p|
  {
    hide Components, FirstSlash;
    var n := FirstSlash(p);
    if n == |p| {
      ComponentsOfName(p);
      i, j := 0, n;
      assert p[0..n] == p;
    } else {
      ComponentsAt(p, n);
      if c == p[..n] {
        i, j := 0, n;
        assert p[0..n] == p[..n];
      } else {
        i, j := ComponentPlace(p[n + 1..], c);
        RestComponent(p, n, i, j);
        i, j := i + n + 1, j + n + 1;
      }
    }
  }

  /** Every piece of a path between slashes is one of its components. */
  lemma {:induction false} PieceIsComponent(p: Path, i: int, j: int)
    requires IsComponent(p, i, j)
    ensures p[i..j] in Components(p)
    decreases |p|
  {
    hide Components, FirstSlash, IsComponent;
    var n := FirstSlash(p);
    PiecePlace(p, i, j, n);
    if n == |p| {
      ComponentsOfName(p);
      assert p[0..n] == p;
    } else {
      ComponentsAt(p, n);
      if i == 0 {
        assert p[0..n] == p[..n];
      } else {
        RestComponent(p, n, i - n - 1, j - n - 1);
        PieceIsComponent(p[n + 1..], i - n - 1, j - n - 1);
      }
    }
  }

  /** A piece ends at the first slash or starts after it. */
  lemma PiecePlace(p: Path, i: int, j: int, n: nat)
    requires IsComponent(p, i, j) && n == FirstSlash(p)
    ensures 0 <= i <= j <= |p| && if i == 0 then j == n else n < i
    ensures n == |p| ==> i == 0
  {
  }

  lemma RestComponent(p: Path, n: nat, i: int, j: int)
    requires n < |p| && p[n] == '/' && 0 <= i <= j <= |p| - n - 1
    ensures IsComponent(p[n + 1..], i, j) <==> IsComponent(p, i + n + 1, j + n + 1)
    ensures p[n + 1..][i..j] == p[i + n + 1..j + n + 1]
  {
    var rest := p[n + 1..];
    assert forall k :: 0 <= k < |rest| ==> rest[k] == p[k + n + 1];
    assert i > 0 ==> rest[i - 1] == p[i + n];
    if IsComponent(rest, i, j) {
      forall k | i + n + 1 <= k < j + n + 1 ensures p[k] != '/' { assert rest[k - n - 1] == p[k]; }
    }
  }

  /** A path is accepted exactly when none of its pieces between slashes is empty, "." or "..". */
  lemma CanonicalIff(p: Path)
    ensures Canonical(p) <==>
            forall i, j :: IsComponent(p, i, j) ==> p[i..j] != "" && p[i..j] != "." && p[i..j] != ".."
  {
    if Canonical(p) {
      forall i, j | IsComponent(p, i, j) ensures p[i..j] != "" && p[i..j] != "." && p[i..j] != ".." {
        PieceIsComponent(p, i, j);
      }
    } else {
      var c :| c in Components(p) && !RealName(c);
      var i, j := ComponentPlace(p, c);
    }
  }

  /** strings.LastIndexByte(p, '/'). */
  function LastSlash(p: Path): (i: int)
    ensures -1 <= i < |p|
    ensures 0 <= i ==> p[i] == '/'
    ensures forall k :: i < k < |p| ==> p[k] != '/'
  {
    if p == "" then -1
    else if p[|p| - 1] == '/' then |p| - 1
    else LastSlash(p[..|p| - 1])
  }
}
