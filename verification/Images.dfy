/**
 State images: the overlay listed as ascending entry lists, and its restoration.
 The JSON text is one injective encoding of a `View`.
 */
module Images {
  import opened Machine
  import opened Paths
  import opened Names
  import opened Overlay

  datatype View = View(
    lowerId: string,
    seqLast: nat,
    nodes: seq<(Path, Node)>,
    whiteouts: seq<Path>,
    overrides: seq<(Path, Patch)>,
    redirects: seq<(Path, Path)>)

  function Keys<V>(es: seq<(Path, V)>): (ks: seq<Path>)
    ensures |ks| == |es| && forall i :: 0 <= i < |es| ==> ks[i] == es[i].0
  {
    seq(|es|, i requires 0 <= i < |es| => es[i].0)
  }

  /** es lists m: each key once, in dictionary order, with its value. */
  ghost predicate Lists<V>(es: seq<(Path, V)>, m: map<Path, V>) {
    && Ascending(Keys(es)) && Elems(Keys(es)) == m.Keys
    && forall i :: 0 <= i < |es| ==> es[i].0 in m && es[i].1 == m[es[i].0]
  }

  ghost predicate IsView(v: View, s: State) {
    && v.lowerId == s.lowerId && v.seqLast == s.seqLast
    && Lists(v.nodes, s.nodes) && Lists(v.overrides, s.overrides) && Lists(v.redirects, s.redirects)
    && Ascending(v.whiteouts) && Elems(v.whiteouts) == s.whiteouts
  }

  /** The map built by storing the entries in order. */
  function Load<V>(es: seq<(Path, V)>): map<Path, V> {
    if es == [] then map[] else Load(es[..|es| - 1])[es[|es| - 1].0 := es[|es| - 1].1]
  }

  function Restore(v: View): State {
    State(v.lowerId, Load(v.nodes), (set p | p in v.whiteouts), Load(v.overrides), Load(v.redirects), v.seqLast)
  }

  lemma ListsUnique<V>(es: seq<(Path, V)>, fs: seq<(Path, V)>, m: map<Path, V>)
    requires Lists(es, m) && Lists(fs, m)
    ensures es == fs
  {
    AscendingUnique(Keys(es), Keys(fs));
    assert |es| == |Keys(es)| == |fs|;
    forall i | 0 <= i < |es| ensures es[i] == fs[i] {
      assert Keys(es)[i] == es[i].0 && Keys(fs)[i] == fs[i].0;
    }
  }

  /** The image is a function of the state alone, whatever order the maps were visited in. */
  lemma ViewUnique(v: View, w: View, s: State)
    requires IsView(v, s) && IsView(w, s)
    ensures v == w
  {
    ListsUnique(v.nodes, w.nodes, s.nodes);
    ListsUnique(v.overrides, w.overrides, s.overrides);
    ListsUnique(v.redirects, w.redirects, s.redirects);
    AscendingUnique(v.whiteouts, w.whiteouts);
  }

  lemma {:induction false} LoadKeys<V>(es: seq<(Path, V)>)
    ensures Load(es).Keys == Elems(Keys(es))
    ensures forall p :: p in Load(es) ==> exists i :: 0 <= i < |es| && es[i] == (p, Load(es)[p])
  {
    if es == [] {
    } else {
      var n := |es| - 1;
      var prefix := es[..n];
      LoadKeys(prefix);
      assert Keys(es) == Keys(prefix) + [es[n].0];
      forall p | p in Load(es) ensures exists i :: 0 <= i < |es| && es[i] == (p, Load(es)[p]) {
        if p == es[n].0 {
          assert es[n] == (p, Load(es)[p]);
        } else {
          var i :| 0 <= i < n && prefix[i] == (p, Load(prefix)[p]);
          assert es[i] == (p, Load(es)[p]);
        }
      }
    }
  }

  lemma LoadInverts<V>(es: seq<(Path, V)>, m: map<Path, V>)
    requires Lists(es, m)
    ensures Load(es) == m
  {
    LoadKeys(es);
    forall p | p in m ensures p in Load(es) && Load(es)[p] == m[p] {
      assert p in m.Keys;
    }
  }

  /** Restoring an image gives back the state it was taken from. */
  lemma RestoreInverts(v: View, s: State)
    requires IsView(v, s)
    ensures Restore(v) == s
  {
    LoadInverts(v.nodes, s.nodes);
    LoadInverts(v.overrides, s.overrides);
    LoadInverts(v.redirects, s.redirects);
    assert (set p | p in v.whiteouts) == s.whiteouts;
  }

  /** Replaying a suffix on a restored image equals replaying the whole list. */
  lemma ImageThenSuffix(s: State, a: seq<Event>, b: seq<Event>, v: View)
    requires Replay(s, a).Ok? && IsView(v, Replay(s, a).value)
    ensures Replay(Restore(v), b) == Replay(s, a + b)
  {
    RestoreInverts(v, Replay(s, a).value);
    ReplayAppend(s, a, b);
  }

  // ------------------------------------------------------------------- loops

  method ListEntries<V>(m: map<Path, V>) returns (es: seq<(Path, V)>)
    ensures Lists(es, m)
  {
    var ks := SortedKeys(m.Keys);
    es := [];
    for i := 0 to |ks|
      invariant |es| == i && forall j :: 0 <= j < i ==> ks[j] in m && es[j] == (ks[j], m[ks[j]])
    {
      assert ks[i] in Elems(ks);
      es := es + [(ks[i], m[ks[i]])];
    }
    assert Keys(es) == ks;
  }

  method Marshal(s: State) returns (v: View)
    ensures IsView(v, s)
  {
    var nodes := ListEntries(s.nodes);
    var whiteouts := SortedKeys(s.whiteouts);
    var overrides := ListEntries(s.overrides);
    var redirects := ListEntries(s.redirects);
    v := View(s.lowerId, s.seqLast, nodes, whiteouts, overrides, redirects);
  }

  method LoadEntries<V>(es: seq<(Path, V)>) returns (m: map<Path, V>)
    ensures m == Load(es)
  {
    m := map[];
    for i := 0 to |es|
      invariant m == Load(es[..i])
    {
      assert es[..i + 1][..i] == es[..i];
      m := m[es[i].0 := es[i].1];
    }
    assert es[..|es|] == es;
  }

  method UnmarshalState(v: View) returns (s: State)
    ensures s == Restore(v)
  {
    var nodes := LoadEntries(v.nodes);
    var whiteouts: set<Path> := {};
    for i := 0 to |v.whiteouts|
      invariant whiteouts == set p | p in v.whiteouts[..i]
    {
      whiteouts := whiteouts + {v.whiteouts[i]};
    }
    assert v.whiteouts[..|v.whiteouts|] == v.whiteouts;
    var overrides := LoadEntries(v.overrides);
    var redirects := LoadEntries(v.redirects);
    s := State(v.lowerId, nodes, whiteouts, overrides, redirects, v.seqLast);
  }
}
