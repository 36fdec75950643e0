/** The loops behind readdir and rmdir's emptiness test, over the overlay object and the lower tree. */
module Readdir {
  import opened Machine
  import opened Paths
  import opened Names
  import opened Overlay
  import opened MergedView
  import opened UpperObject
  import Lookup

  /** kind None is an entry typed later by a lookup. */
  datatype DirEntry = DirEntry(name: string, kind: Option<Kind>)

  function EntryNames(es: seq<DirEntry>): (ns: seq<string>)
    ensures |ns| == |es| && forall i :: 0 <= i < |es| ==> ns[i] == es[i].name
  {
    seq(|es|, i requires 0 <= i < |es| => es[i].name)
  }

  lemma EntryNamesAppend(es: seq<DirEntry>, e: DirEntry)
    ensures EntryNames(es + [e]) == EntryNames(es) + [e.name]
    ensures Elems(EntryNames(es + [e])) == Elems(EntryNames(es)) + {e.name}
    ensures Distinct(EntryNames(es)) && e.name !in EntryNames(es) ==> Distinct(EntryNames(es + [e]))
  {
    assert EntryNames(es + [e]) == EntryNames(es) + [e.name];
    if Distinct(EntryNames(es)) && e.name !in EntryNames(es) { DistinctAppend(EntryNames(es), e.name); }
  }

  lemma {:induction false} DistinctIndex(xs: seq<string>, i: nat)
    requires Distinct(xs) && i < |xs|
    ensures xs[i] !in xs[..i]
  {
    if i == 0 {
    } else {
      DistinctIndex(xs[1..], i - 1);
      assert xs[..i] == [xs[0]] + xs[1..][..i - 1];
      assert xs[i] == xs[1..][i - 1];
      assert xs[0] != xs[i];
    }
  }

  /** The overlay nodes directly inside dir, by name. */
  function Kids(s: State, dir: Path): map<string, Node> {
    map c | c in Lookup.ChildNames(s.nodes.Keys, dir) && Join(dir, c) in s.nodes :: s.nodes[Join(dir, c)]
  }

  /** The kinds a listing reports: an overlay child's own kind, unknown for the rest. */
  ghost predicate Typed(es: seq<DirEntry>, kids: map<string, Node>) {
    forall e :: e in es ==> e.kind == if e.name in kids then Some(kids[e.name].kind) else None
  }

  /** Names that are neither whiteouted nor shadowed by a node nor (when asked) already seen. */
  method AppendVisible(es: seq<DirEntry>, names: seq<string>, skip: set<string>, checkSeen: bool,
                       ghost kids: map<string, Node>)
    returns (r: seq<DirEntry>)
    requires Typed(es, kids) && kids.Keys <= skip
    ensures Typed(r, kids)
    ensures forall c :: c in EntryNames(r) <==> c in EntryNames(es) || (c in names && c !in skip)
    ensures Distinct(EntryNames(es)) && (checkSeen || (es == [] && Distinct(names))) ==> Distinct(EntryNames(r))
  {
    r := es;
    var seen := set c | c in EntryNames(es);
    for i := 0 to |names|
      invariant Typed(r, kids)
      invariant seen == Elems(EntryNames(r))
      invariant forall c :: c in EntryNames(r) <==> c in EntryNames(es) || (c in names[..i] && c !in skip)
      invariant Distinct(EntryNames(es)) && (checkSeen || (es == [] && Distinct(names))) ==> Distinct(EntryNames(r))
    {
      if names[i] !in skip && !(checkSeen && names[i] in seen) {
        EntryNamesAppend(r, DirEntry(names[i], None));
        if Distinct(names) { DistinctIndex(names, i); }
        r := r + [DirEntry(names[i], None)];
        seen := seen + {names[i]};
      }
      assert names[..i + 1] == names[..i] + [names[i]];
    }
    assert names[..|names|] == names;
  }

  /** Overlay children last, each with its node's kind. */
  method AppendChildren(es: seq<DirEntry>, kids: map<string, Node>)
    returns (r: seq<DirEntry>)
    requires Typed(es, kids)
    requires forall c :: c in EntryNames(es) ==> c !in kids
    ensures Typed(r, kids)
    ensures forall c :: c in EntryNames(r) <==> c in EntryNames(es) || c in kids
    ensures Distinct(EntryNames(es)) ==> Distinct(EntryNames(r))
  {
    var upperNames := SortedKeys(kids.Keys);
    AscendingDistinct(upperNames);
    assert forall c :: c in upperNames <==> c in Elems(upperNames);
    r := es;
    for i := 0 to |upperNames|
      invariant Typed(r, kids)
      invariant forall c :: c in EntryNames(r) <==> c in EntryNames(es) || c in upperNames[..i]
      invariant Distinct(EntryNames(es)) ==> Distinct(EntryNames(r))
    {
      var name := upperNames[i];
      assert name in upperNames;
      DistinctIndex(upperNames, i);
      EntryNamesAppend(r, DirEntry(name, Some(kids[name].kind)));
      r := r + [DirEntry(name, Some(kids[name].kind))];
      assert upperNames[..i + 1] == upperNames[..i] + [name];
    }
    assert upperNames[..|upperNames|] == upperNames;
  }

  /** Where rel lives in the lower tree, following redirects. */
  method Locate(u: Upper, rel: Path) returns (at: Path)
    ensures at == LowerLocation(u.View(), rel)
  {
    if rel == "" {
      return "";
    }
    var applied;
    at, applied := u.LowerPath(rel);
  }

  lemma KindsShown(s: State, dir: Path, es: seq<DirEntry>)
    requires Typed(es, Kids(s, dir))
    ensures forall e :: e in es ==>
      e.kind == if e.name in Lookup.ChildNames(s.nodes.Keys, dir) && Join(dir, e.name) in s.nodes
                then Some(s.nodes[Join(dir, e.name)].kind) else None
  {
  }

  /** Lists each visible child once: lower names, then names renamed in, then overlay nodes. */
  method MergedEntries(u: Upper, tree: Lower, dir: Path) returns (r: Result<seq<DirEntry>, Errno>)
    ensures r.Err? <==> LowerNames(u.View(), tree, dir).Err?
    ensures r.Ok? && Distinct(LowerNames(u.View(), tree, dir).value) ==>
      IsListing(u.View(), tree, dir, EntryNames(r.value))
    ensures r.Ok? ==> forall e :: e in r.value ==>
      e.kind == if e.name in Lookup.ChildNames(u.nodes.Keys, dir) && Join(dir, e.name) in u.nodes
                then Some(u.nodes[Join(dir, e.name)].kind) else None
  {
    hide Lookup.Hidden, Lookup.ChildNames, Lookup.LowerPath, LowerLocation, Typed;
    var names: seq<string> := [];
    var hidden := u.Hidden(dir);
    if !hidden {
      var at := Locate(u, dir);
      match tree.list(at) {
        case Entries(ns) => names := ns;
        case NoDirectory =>
        case Unlistable => return Err(EIO);
      }
    }
    ghost var s := u.View();
    assert LowerNames(s, tree, dir) == Ok(names);
    var kids, white := u.Children(dir);
    var reds := u.Redirected(dir);
    assert forall c :: c in reds <==> c in Elems(reds);
    assert kids == Kids(s, dir);
    var es := AppendVisible([], names, white + kids.Keys, false, kids);
    es := AppendVisible(es, reds, white + kids.Keys, true, kids);
    es := AppendChildren(es, kids);
    KindsShown(s, dir, es);
    r := Ok(es);
  }

  /** No visible child: no node, no un-whiteouted redirect, no un-whiteouted lower name. */
  method IsEmpty(u: Upper, tree: Lower, dir: Path) returns (r: Result<bool, Errno>)
    ensures r == MergedEmpty(u.View(), tree, dir)
  {
    hide Lookup.Hidden, Lookup.ChildNames, Lookup.LowerPath, LowerLocation;
    var kids, white := u.Children(dir);
    if kids != map[] {
      assert exists c :: c in kids.Keys;
      return Ok(false);
    }
    assert kids.Keys == {};
    var reds := u.Redirected(dir);
    assert forall c :: c in reds <==> c in Elems(reds);
    for i := 0 to |reds|
      invariant forall k :: 0 <= k < i ==> reds[k] in white
    {
      if reds[i] !in white {
        assert reds[i] in reds;
        return Ok(false);
      }
    }
    var hidden := u.Hidden(dir);
    if hidden {
      return Ok(true);
    }
    var at := Locate(u, dir);
    match tree.list(at) {
      case Entries(names) =>
        for i := 0 to |names|
          invariant forall k :: 0 <= k < i ==> names[k] in white
        {
          if names[i] !in white {
            assert names[i] in names;
            return Ok(false);
          }
        }
        return Ok(true);
      case NoDirectory => return Ok(true);
      case Unlistable => return Err(EIO);
    }
  }
}
