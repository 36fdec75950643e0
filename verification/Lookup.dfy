/** Visibility queries on the overlay: whiteout coverage and redirect resolution. */
module Lookup {
  import opened Machine
  import opened Paths
  import opened Overlay

  /** p or one of its ancestors is whiteouted. */
  predicate Hidden(whiteouts: set<Path>, p: Path) {
    exists q | q in whiteouts :: AtOrBelow(p, q)
  }

  lemma HiddenBy(w: set<Path>, p: Path) returns (q: Path)
    requires Hidden(w, p)
    ensures q in w && AtOrBelow(p, q)
  {
    q :| q in w && AtOrBelow(p, q);
  }

  lemma Hides(w: set<Path>, p: Path, q: Path)
    requires q in w && AtOrBelow(p, q)
    ensures Hidden(w, p)
  {
  }

  /** The prefix of rel of length n, if it ends at a component boundary and is redirected. */
  predicate RedirectedPrefix(redirects: map<Path, Path>, rel: Path, n: nat)
    requires n <= |rel|
  {
    (n == |rel| || rel[n] == '/') && rel[..n] in redirects
  }

  /** The longest redirected ancestor-or-self of rel among the prefixes of length at most n. */
  function Deepest(redirects: map<Path, Path>, rel: Path, n: nat): (q: Option<Path>)
    requires n <= |rel|
    ensures q.Some? ==> q.value in redirects && AtOrBelow(rel, q.value) && |q.value| <= n
    ensures forall k :: 0 <= k <= n && RedirectedPrefix(redirects, rel, k) ==> q.Some? && k <= |q.value|
  {
    if RedirectedPrefix(redirects, rel, n) then Some(rel[..n])
    else if n == 0 then None
    else Deepest(redirects, rel, n - 1)
  }

  /** Where rel lives in the lower tree: the longest redirected prefix is replaced by its source. */
  function LowerPath(redirects: map<Path, Path>, rel: Path): Path {
    match Deepest(redirects, rel, |rel|)
    case Some(q) => redirects[q] + rel[|q|..]
    case None => rel
  }

  lemma BoundaryPrefix(redirects: map<Path, Path>, rel: Path, q: Path)
    requires q in redirects && AtOrBelow(rel, q)
    ensures RedirectedPrefix(redirects, rel, |q|) && rel[..|q|] == q
  {
    if q == rel { assert rel[..|q|] == rel; }
  }

  /** LowerPath follows the longest redirected prefix and no other. */
  lemma LowerPathBy(redirects: map<Path, Path>, rel: Path, q: Path)
    requires q in redirects && AtOrBelow(rel, q)
    requires forall p :: p in redirects && AtOrBelow(rel, p) ==> |p| <= |q|
    ensures LowerPath(redirects, rel) == redirects[q] + rel[|q|..]
  {
    BoundaryPrefix(redirects, rel, q);
    var d := Deepest(redirects, rel, |rel|).value;
    BoundaryPrefix(redirects, rel, d);
    assert d == q;
  }

  lemma LowerPathNone(redirects: map<Path, Path>, rel: Path)
    requires forall p :: p in redirects ==> !AtOrBelow(rel, p)
    ensures LowerPath(redirects, rel) == rel
  {
  }

  /** Redirect tables that agree above rel resolve it alike. */
  lemma LowerPathFrame(r1: map<Path, Path>, r2: map<Path, Path>, rel: Path)
    requires forall q :: AtOrBelow(rel, q) ==> (q in r1 <==> q in r2) && (q in r1 ==> r1[q] == r2[q])
    ensures LowerPath(r1, rel) == LowerPath(r2, rel)
  {
    match Deepest(r1, rel, |rel|)
    case None => LowerPathNone(r2, rel) by {
      forall p | p in r2 && AtOrBelow(rel, p) ensures false { BoundaryPrefix(r1, rel, p); }
    }
    case Some(q) => LowerPathBy(r2, rel, q) by {
      forall p | p in r2 && AtOrBelow(rel, p) ensures |p| <= |q| { BoundaryPrefix(r1, rel, p); }
    }
  }

  /** A child that is not itself redirected lives inside its parent's lower directory. */
  lemma LowerPathChild(redirects: map<Path, Path>, dir: Path, name: string)
    requires IsName(name) && dir != "" && "" !in redirects && Join(dir, name) !in redirects
    ensures LowerPath(redirects, Join(dir, name)) == LowerPath(redirects, dir) + "/" + name
  {
    var p := Join(dir, name);
    forall q | q in redirects ensures AtOrBelow(p, q) <==> AtOrBelow(dir, q) {
      AboveChild(dir, name, q);
    }
    match Deepest(redirects, dir, |dir|)
    case None => LowerPathNone(redirects, p) by {
      forall q | q in redirects && AtOrBelow(dir, q) ensures false { BoundaryPrefix(redirects, dir, q); }
    }
    case Some(q) =>
      LowerPathBy(redirects, p, q) by {
        forall r | r in redirects && AtOrBelow(p, r) ensures |r| <= |q| { BoundaryPrefix(redirects, dir, r); }
      }
      assert p[|q|..] == dir[|q|..] + "/" + name;
  }

  // ----------------------------------------------------------------- children

  /** The name of p inside dir, when p is a direct child of it. */
  function ChildName(p: Path, dir: Path): Option<string> {
    if dir == "" then (if p != "" && '/' !in p then Some(p) else None)
    else if Below(p, dir) && p[|dir| + 1..] != "" && '/' !in p[|dir| + 1..] then Some(p[|dir| + 1..])
    else None
  }

  function ChildNames(keys: set<Path>, dir: Path): set<string> {
    set p | p in keys && ChildName(p, dir).Some? :: ChildName(p, dir).value
  }

  lemma ChildNameOfJoin(dir: Path, name: string)
    requires name != "" && '/' !in name
    ensures ChildName(Join(dir, name), dir) == Some(name)
  {
    if dir != "" {
      var p := dir + "/" + name;
      assert p[..|dir|] == dir && p[|dir|] == '/' && p[|dir| + 1..] == name;
    }
  }

  lemma JoinOfChildName(p: Path, dir: Path)
    requires ChildName(p, dir).Some?
    ensures Join(dir, ChildName(p, dir).value) == p
  {
    if dir != "" { assert p == dir + "/" + p[|dir| + 1..]; }
  }

  /** A name is a child of dir in a key set exactly when the joined path is a key. */
  lemma IsChild(keys: set<Path>, dir: Path, name: string)
    requires name != "" && '/' !in name
    ensures name in ChildNames(keys, dir) <==> Join(dir, name) in keys
  {
    ChildNameOfJoin(dir, name);
    if name in ChildNames(keys, dir) {
      var p :| p in keys && ChildName(p, dir) == Some(name);
      JoinOfChildName(p, dir);
    }
  }

  lemma ChildNamesJoin(keys: set<Path>, dir: Path)
    ensures forall c :: c in ChildNames(keys, dir) ==> Join(dir, c) in keys
  {
    forall p | p in keys && ChildName(p, dir).Some? ensures Join(dir, ChildName(p, dir).value) == p {
      JoinOfChildName(p, dir);
    }
  }

  lemma ChildNamesAdd(keys: set<Path>, dir: Path, p: Path)
    ensures ChildNames(keys + {p}, dir) ==
            ChildNames(keys, dir) + if ChildName(p, dir).Some? then {ChildName(p, dir).value} else {}
  {
    hide ChildName;
  }
}
