/** Strings in dictionary order, and the one ascending list of a set of them. */
module Names {

  predicate Less(a: string, b: string) {
    if b == "" then false
    else if a == "" then true
    else if a[0] != b[0] then a[0] < b[0]
    else Less(a[1..], b[1..])
  }

  lemma {:induction false} LessTransitive(a: string, b: string, c: string)
    requires Less(a, b) && Less(b, c)
    ensures Less(a, c)
  {
    if a == "" || a[0] != b[0] || b[0] != c[0] {
    } else {
      LessTransitive(a[1..], b[1..], c[1..]);
    }
  }

  lemma {:induction false} LessTotal(a: string, b: string)
    ensures Less(a, b) || a == b || Less(b, a)
    ensures !(Less(a, b) && Less(b, a)) && !Less(a, a)
  {
    if a == "" {
    } else {
      LessTotal(a[1..], a[1..]);
    }
    if a != "" && b != "" && a[0] == b[0] {
      LessTotal(a[1..], b[1..]);
      assert a == [a[0]] + a[1..] && b == [b[0]] + b[1..];
    }
  }

  /** Strictly ascending. */
  ghost predicate Ascending(xs: seq<string>) {
    |xs| <= 1 || (Less(xs[0], xs[1]) && Ascending(xs[1..]))
  }

  ghost function Elems(xs: seq<string>): set<string> {
    set x | x in xs
  }

  /** The first element is below every other one. */
  lemma {:induction false} HeadIsLeast(xs: seq<string>, x: string)
    requires Ascending(xs) && x in xs && x != xs[0]
    ensures Less(xs[0], x)
  {
    assert x in xs[1..];
    if x == xs[1] {
    } else {
      HeadIsLeast(xs[1..], x);
      LessTransitive(xs[0], xs[1], x);
    }
  }

  lemma TailElems(xs: seq<string>)
    requires Ascending(xs) && xs != []
    ensures Elems(xs[1..]) == Elems(xs) - {xs[0]}
  {
    forall x | x in xs[1..] ensures x != xs[0] {
      if x == xs[0] { TailAbove(xs, x); LessTotal(x, x); }
    }
  }

  lemma TailAbove(xs: seq<string>, x: string)
    requires Ascending(xs) && xs != [] && x in xs[1..]
    ensures Less(xs[0], x)
  {
    if x != xs[1] {
      HeadIsLeast(xs[1..], x);
      LessTransitive(xs[0], xs[1], x);
    }
  }

  lemma BothEmpty(xs: seq<string>, ys: seq<string>)
    requires Elems(xs) == Elems(ys)
    ensures xs == [] ==> ys == []
  {
    if ys != [] { assert ys[0] in Elems(ys); }
  }

  /** A set of strings has one ascending list. */
  lemma {:induction false} AscendingUnique(xs: seq<string>, ys: seq<string>)
    requires Ascending(xs) && Ascending(ys) && Elems(xs) == Elems(ys)
    ensures xs == ys
  {
    BothEmpty(xs, ys);
    BothEmpty(ys, xs);
    if xs == [] {
    } else {
      assert xs[0] in Elems(ys) && ys[0] in Elems(xs);
      if xs[0] != ys[0] {
        HeadIsLeast(xs, ys[0]);
        HeadIsLeast(ys, xs[0]);
        LessTotal(xs[0], ys[0]);
      }
      TailElems(xs);
      TailElems(ys);
      AscendingUnique(xs[1..], ys[1..]);
      assert xs == [xs[0]] + xs[1..] && ys == [ys[0]] + ys[1..];
    }
  }

  function Place(x: string, ys: seq<string>): seq<string> {
    if ys == [] then [x]
    else if Less(x, ys[0]) then [x] + ys
    else [ys[0]] + Place(x, ys[1..])
  }

  /** sort.Strings. */
  function SortNames(xs: seq<string>): seq<string> {
    if xs == [] then [] else Place(xs[0], SortNames(xs[1..]))
  }

  lemma {:induction false} PlaceElems(x: string, ys: seq<string>)
    ensures Elems(Place(x, ys)) == Elems(ys) + {x}
  {
    if ys != [] && !Less(x, ys[0]) {
      PlaceElems(x, ys[1..]);
      ElemsCons(ys[0], Place(x, ys[1..]));
      ElemsCons(ys[0], ys[1..]);
      assert ys == [ys[0]] + ys[1..];
    } else {
      ElemsCons(x, ys);
      assert ys == [] ==> [x] + ys == [x];
    }
  }

  lemma ElemsCons(x: string, ys: seq<string>)
    ensures Elems([x] + ys) == {x} + Elems(ys)
  {
  }

  lemma {:induction false} PlaceAscending(x: string, ys: seq<string>)
    requires Ascending(ys) && x !in ys
    ensures Ascending(Place(x, ys))
    ensures ys != [] ==> Place(x, ys)[0] == x || Place(x, ys)[0] == ys[0]
  {
    if ys != [] && !Less(x, ys[0]) {
      LessTotal(x, ys[0]);
      PlaceAscending(x, ys[1..]);
      var tail := Place(x, ys[1..]);
      assert ([ys[0]] + tail)[1..] == tail;
    } else {
      assert ([x] + ys)[1..] == ys;
    }
  }

  ghost predicate Distinct(xs: seq<string>) {
    xs == [] || (xs[0] !in xs[1..] && Distinct(xs[1..]))
  }

  lemma {:induction false} SortAscending(xs: seq<string>)
    requires Distinct(xs)
    ensures Ascending(SortNames(xs)) && Elems(SortNames(xs)) == Elems(xs)
  {
    if xs == [] {
    } else {
      SortAscending(xs[1..]);
      var s := SortNames(xs[1..]);
      assert forall x :: x in s <==> x in Elems(s);
      PlaceAscending(xs[0], s);
      PlaceElems(xs[0], s);
      ElemsCons(xs[0], xs[1..]);
      assert xs == [xs[0]] + xs[1..];
    }
  }

  lemma {:induction false} AscendingDistinct(xs: seq<string>)
    requires Ascending(xs)
    ensures Distinct(xs)
  {
    if xs == [] {
    } else {
      TailElems(xs);
      assert xs[0] !in Elems(xs[1..]);
      AscendingDistinct(xs[1..]);
    }
  }

  lemma {:induction false} DistinctAppend(xs: seq<string>, x: string)
    requires Distinct(xs) && x !in xs
    ensures Distinct(xs + [x])
  {
    if xs == [] {
      assert xs + [x] == [x];
    } else {
      assert (xs + [x])[1..] == xs[1..] + [x];
      DistinctAppend(xs[1..], x);
    }
  }

  /** The keys of a Go map, visited in any order, in dictionary order. */
  method SortedKeys(keys: set<string>) returns (r: seq<string>)
    ensures Ascending(r) && Elems(r) == keys
  {
    var todo := keys;
    r := [];
    while todo != {}
      invariant todo <= keys && Distinct(r) && Elems(r) == keys - todo
    {
      var k :| k in todo;
      assert k !in Elems(r);
      DistinctAppend(r, k);
      assert Elems(r + [k]) == Elems(r) + {k};
      r := r + [k];
      todo := todo - {k};
    }
    SortAscending(r);
    r := SortNames(r);
  }
}
