/** The built-in stable sort, as insertion from the right, and what its callers rely on. */
module Sorting {
  import opened Prelude

  ghost predicate TotalPreorder<T(!new)>(le: (T, T) -> bool) {
    && (forall x, y :: le(x, y) || le(y, x))
    && (forall x, y, z :: le(x, y) && le(y, z) ==> le(x, z))
  }

  ghost predicate SortedBy<T>(xs: seq<T>, le: (T, T) -> bool) {
    forall i, j :: 0 <= i < j < |xs| ==> le(xs[i], xs[j])
  }

  /** Places `x` before every later element that is not strictly smaller, so equal elements keep their order. */
  function Insert<T>(x: T, xs: seq<T>, le: (T, T) -> bool): seq<T> {
    if xs == [] || le(x, xs[0]) then [x] + xs else [xs[0]] + Insert(x, xs[1..], le)
  }

  function Sort<T>(xs: seq<T>, le: (T, T) -> bool): seq<T> {
    if xs == [] then [] else Insert(xs[0], Sort(xs[1..], le), le)
  }

  lemma {:induction false} InsertAdds<T>(x: T, xs: seq<T>, le: (T, T) -> bool)
    ensures multiset(Insert(x, xs, le)) == multiset(xs) + multiset{x}
  {
    if xs != [] {
      InsertAdds(x, xs[1..], le);
      assert xs == [xs[0]] + xs[1..];
    }
  }

  lemma HeadBelow<T(!new)>(head: T, x: T, xs: seq<T>, le: (T, T) -> bool)
    requires le(head, x) && forall i :: 0 <= i < |xs| ==> le(head, xs[i])
    ensures forall i :: 0 <= i < |Insert(x, xs, le)| ==> le(head, Insert(x, xs, le)[i])
  {
    InsertAdds(x, xs, le);
    forall i | 0 <= i < |Insert(x, xs, le)| ensures le(head, Insert(x, xs, le)[i]) {
      assert Insert(x, xs, le)[i] in multiset(Insert(x, xs, le));
      assert Insert(x, xs, le)[i] == x || Insert(x, xs, le)[i] in xs;
    }
  }

  lemma {:induction false} InsertSorts<T(!new)>(x: T, xs: seq<T>, le: (T, T) -> bool)
    requires TotalPreorder(le) && SortedBy(xs, le)
    ensures SortedBy(Insert(x, xs, le), le)
    ensures multiset(Insert(x, xs, le)) == multiset(xs) + multiset{x}
  {
    InsertAdds(x, xs, le);
    if xs != [] && !le(x, xs[0]) {
      InsertSorts(x, xs[1..], le);
      HeadBelow(xs[0], x, xs[1..], le);
    } else if xs != [] {
      assert forall i :: 0 <= i < |xs| ==> le(x, xs[i]);
    }
  }

  lemma {:induction false} SortSorts<T(!new)>(xs: seq<T>, le: (T, T) -> bool)
    requires TotalPreorder(le)
    ensures SortedBy(Sort(xs, le), le)
    ensures multiset(Sort(xs, le)) == multiset(xs)
    ensures |Sort(xs, le)| == |xs|
  {
    if xs != [] {
      SortSorts(xs[1..], le);
      InsertSorts(xs[0], Sort(xs[1..], le), le);
      assert xs == [xs[0]] + xs[1..];
      assert |multiset(Sort(xs, le))| == |multiset(xs)|;
    }
  }

  lemma SortMembers<T(!new)>(xs: seq<T>, le: (T, T) -> bool)
    requires TotalPreorder(le)
    ensures forall x :: x in Sort(xs, le) <==> x in xs
  {
    SortSorts(xs, le);
    forall x ensures x in Sort(xs, le) <==> x in xs {
      assert x in multiset(Sort(xs, le)) <==> x in multiset(xs);
    }
  }

  /** A sequence already in order is left alone. */
  lemma {:induction false} SortedIsFixed<T(!new)>(xs: seq<T>, le: (T, T) -> bool)
    requires SortedBy(xs, le)
    ensures Sort(xs, le) == xs
  {
    if xs != [] {
      SortedIsFixed(xs[1..], le);
    }
  }

  // ----- where the sort puts each element -------------------------------------------

  /** How many elements go strictly before `x`. */
  function Smaller<T>(xs: seq<T>, x: T, le: (T, T) -> bool): nat {
    if xs == [] then 0 else (if le(x, xs[0]) then 0 else 1) + Smaller(xs[1..], x, le)
  }

  /** How many are tied with `x`. */
  function Tied<T>(xs: seq<T>, x: T, le: (T, T) -> bool): nat {
    if xs == [] then 0 else (if le(x, xs[0]) && le(xs[0], x) then 1 else 0) + Tied(xs[1..], x, le)
  }

  /** The place of the `i`-th element: after all smaller ones and after the ties that come before it. */
  function Place<T>(xs: seq<T>, i: nat, le: (T, T) -> bool): nat
    requires i < |xs|
  {
    Smaller(xs, xs[i], le) + Tied(xs[..i], xs[i], le)
  }

  lemma {:induction false} SmallerInsert<T>(x: T, xs: seq<T>, y: T, le: (T, T) -> bool)
    ensures Smaller(Insert(x, xs, le), y, le) == Smaller(xs, y, le) + (if le(y, x) then 0 else 1)
  {
    if xs != [] && !le(x, xs[0]) {
      SmallerInsert(x, xs[1..], y, le);
    }
  }

  lemma {:induction false} SmallerSort<T>(xs: seq<T>, y: T, le: (T, T) -> bool)
    ensures Smaller(Sort(xs, le), y, le) == Smaller(xs, y, le)
  {
    if xs != [] {
      SmallerSort(xs[1..], y, le);
      SmallerInsert(xs[0], Sort(xs[1..], le), y, le);
    }
  }

  lemma {:induction false} NoneSmaller<T(!new)>(xs: seq<T>, x: T, le: (T, T) -> bool)
    requires forall i :: 0 <= i < |xs| ==> le(x, xs[i])
    ensures Smaller(xs, x, le) == 0
  {
    if xs != [] {
      NoneSmaller(xs[1..], x, le);
    }
  }

  lemma SortedTail<T(!new)>(xs: seq<T>, le: (T, T) -> bool)
    requires SortedBy(xs, le) && xs != []
    ensures SortedBy(xs[1..], le) && forall i :: 0 <= i < |xs[1..]| ==> le(xs[0], xs[1..][i])
  {
  }

  lemma HeadNotAfter<T(!new)>(xs: seq<T>, x: T, le: (T, T) -> bool)
    requires TotalPreorder(le) && SortedBy(xs, le) && xs != [] && le(x, xs[0])
    ensures Smaller(xs, x, le) == 0
  {
    forall i | 0 <= i < |xs| ensures le(x, xs[i]) {
      assert i == 0 || le(xs[0], xs[i]);
    }
    NoneSmaller(xs, x, le);
  }

  /** `xs` with `x` put in front of position `p`. */
  function InsertAt<T>(xs: seq<T>, p: nat, x: T): seq<T>
    requires p <= |xs|
  {
    xs[..p] + [x] + xs[p..]
  }

  lemma InsertAtNext<T>(xs: seq<T>, p: nat, x: T)
    requires xs != [] && p <= |xs[1..]|
    ensures InsertAt(xs, p + 1, x) == [xs[0]] + InsertAt(xs[1..], p, x)
  {
    assert xs[..p + 1] == [xs[0]] + xs[1..][..p] && xs[p + 1..] == xs[1..][p..];
  }

  lemma InsertedAt<T>(xs: seq<T>, p: nat, x: T, q: nat)
    requires p <= |xs|
    ensures |InsertAt(xs, p, x)| == |xs| + 1 && InsertAt(xs, p, x)[p] == x
    ensures q < |xs| ==> InsertAt(xs, p, x)[if q < p then q else q + 1] == xs[q]
  {
  }

  /** Where an element lands in a sorted sequence. */
  lemma {:induction false} InsertPlaces<T(!new)>(x: T, xs: seq<T>, le: (T, T) -> bool)
    requires TotalPreorder(le) && SortedBy(xs, le)
    ensures Smaller(xs, x, le) <= |xs| && Insert(x, xs, le) == InsertAt(xs, Smaller(xs, x, le), x)
  {
    if xs == [] {
    } else if le(x, xs[0]) {
      HeadNotAfter(xs, x, le);
    } else {
      SortedTail(xs, le);
      InsertPlaces(x, xs[1..], le);
      InsertAtNext(xs, Smaller(xs[1..], x, le), x);
    }
  }

  lemma {:induction false} SmallerOrder<T(!new)>(xs: seq<T>, x: T, y: T, le: (T, T) -> bool)
    requires TotalPreorder(le)
    ensures le(x, y) ==> Smaller(xs, x, le) <= Smaller(xs, y, le)
    ensures !le(y, x) ==> Smaller(xs, x, le) + Tied(xs, x, le) <= Smaller(xs, y, le)
  {
    if xs != [] {
      SmallerOrder(xs[1..], x, y, le);
    }
  }

  lemma {:induction false} TiedPrefix<T(!new)>(xs: seq<T>, i: nat, le: (T, T) -> bool)
    requires i < |xs| && TotalPreorder(le)
    ensures Tied(xs[..i], xs[i], le) < Tied(xs, xs[i], le)
    decreases i
  {
    if i > 0 {
      TiedPrefix(xs[1..], i - 1, le);
      assert xs[..i][1..] == xs[1..][..i - 1];
    }
  }

  lemma PlaceNext<T(!new)>(xs: seq<T>, i: nat, le: (T, T) -> bool)
    requires 0 < i < |xs| && TotalPreorder(le)
    ensures Place(xs, i, le) == Place(xs[1..], i - 1, le) + (if le(xs[0], xs[i]) then 1 else 0)
  {
    assert xs[..i][1..] == xs[1..][..i - 1];
  }

  /** Whether the head of the sequence ends up before or after a later element. */
  lemma HeadPlace<T(!new)>(xs: seq<T>, i: nat, le: (T, T) -> bool)
    requires TotalPreorder(le) && 0 < i < |xs|
    ensures le(xs[0], xs[i]) <==> Smaller(xs[1..], xs[0], le) <= Place(xs[1..], i - 1, le)
  {
    SmallerOrder(xs[1..], xs[0], xs[i], le);
    SmallerOrder(xs[1..], xs[i], xs[0], le);
    TiedPrefix(xs[1..], i - 1, le);
  }

  lemma SortInserts<T(!new)>(xs: seq<T>, le: (T, T) -> bool)
    requires TotalPreorder(le) && xs != []
    ensures var rest, p := Sort(xs[1..], le), Smaller(xs[1..], xs[0], le);
      |rest| == |xs| - 1 && p <= |rest| && Sort(xs, le) == InsertAt(rest, p, xs[0])
  {
    SortSorts(xs[1..], le);
    InsertPlaces(xs[0], Sort(xs[1..], le), le);
    SmallerSort(xs[1..], xs[0], le);
  }

  /** The head of the sequence shifts the places of the elements that come after it. */
  lemma PlaceShifts<T(!new)>(xs: seq<T>, i: nat, le: (T, T) -> bool)
    requires TotalPreorder(le) && 0 < i < |xs|
    ensures var q := Place(xs[1..], i - 1, le);
      Place(xs, i, le) == if q < Smaller(xs[1..], xs[0], le) then q else q + 1
  {
    PlaceNext(xs, i, le);
    HeadPlace(xs, i, le);
  }

  /** The sort is stable, and this is where it puts every element. */
  lemma {:induction false} SortPlaces<T(!new)>(xs: seq<T>, i: nat, le: (T, T) -> bool)
    requires TotalPreorder(le) && i < |xs|
    ensures |Sort(xs, le)| == |xs| && Place(xs, i, le) < |xs| && Sort(xs, le)[Place(xs, i, le)] == xs[i]
    decreases |xs|
  {
    var rest, p := Sort(xs[1..], le), Smaller(xs[1..], xs[0], le);
    SortInserts(xs, le);
    if i == 0 {
      InsertedAt(rest, p, xs[0], 0);
      assert Place(xs, 0, le) == p;
    } else {
      SortPlaces(xs[1..], i - 1, le);
      PlaceShifts(xs, i, le);
      InsertedAt(rest, p, xs[0], Place(xs[1..], i - 1, le));
    }
  }

  /** Every place is taken by some element. */
  lemma {:induction false} PlaceTaken<T(!new)>(xs: seq<T>, k: nat, le: (T, T) -> bool) returns (i: nat)
    requires TotalPreorder(le) && k < |xs|
    ensures |Sort(xs, le)| == |xs| && i < |xs| && Place(xs, i, le) == k && Sort(xs, le)[k] == xs[i]
    decreases |xs|
  {
    var p := Smaller(xs[1..], xs[0], le);
    if k == p {
      i := 0;
    } else {
      SortPlaces(xs, 0, le);
      var j := PlaceTaken(xs[1..], if k < p then k else k - 1, le);
      i := j + 1;
      HeadPlace(xs, i, le);
      PlaceNext(xs, i, le);
    }
    SortPlaces(xs, i, le);
  }

  lemma {:induction false} DistinctCounts<T>(xs: seq<T>, x: T)
    requires Distinct(xs)
    ensures multiset(xs)[x] <= 1
  {
    if xs != [] {
      DistinctCounts(xs[1..], x);
      assert xs == [xs[0]] + xs[1..];
      if xs[0] == x {
        assert x !in multiset(xs[1..]);
      }
    }
  }

  lemma MultisetDistinct<T>(xs: seq<T>, ys: seq<T>)
    requires multiset(xs) == multiset(ys) && Distinct(xs)
    ensures Distinct(ys)
  {
    forall i, j | 0 <= i < j < |ys|
      ensures ys[i] != ys[j]
    {
      if ys[i] == ys[j] {
        assert ys == ys[..i] + [ys[i]] + ys[i + 1..j] + [ys[j]] + ys[j + 1..];
        assert multiset(ys)[ys[i]] >= 2;
        DistinctCounts(xs, ys[i]);
      }
    }
  }

  lemma HeadIsLeast<T(!new)>(xs: seq<T>, le: (T, T) -> bool, x: T)
    requires SortedBy(xs, le) && x in multiset(xs)
    ensures xs[0] == x || le(xs[0], x)
  {
    assert x in xs;
  }

  lemma DropHead<T>(xs: seq<T>)
    requires xs != []
    ensures multiset(xs[1..]) == multiset(xs) - multiset{xs[0]}
  {
    assert xs == [xs[0]] + xs[1..];
  }

  /** Sorting by an antisymmetric order forgets the order of the input. */
  lemma {:induction false} SortedUnique<T(!new)>(xs: seq<T>, ys: seq<T>, le: (T, T) -> bool)
    requires SortedBy(xs, le) && SortedBy(ys, le) && multiset(xs) == multiset(ys)
    requires forall x, y :: le(x, y) && le(y, x) ==> x == y
    ensures xs == ys
  {
    assert |multiset(xs)| == |xs| && |multiset(ys)| == |ys|;
    if xs != [] {
      assert xs[0] in multiset(ys) && ys[0] in multiset(xs);
      HeadIsLeast(ys, le, xs[0]);
      HeadIsLeast(xs, le, ys[0]);
      DropHead(xs);
      DropHead(ys);
      SortedUnique(xs[1..], ys[1..], le);
      assert xs == [xs[0]] + xs[1..] && ys == [ys[0]] + ys[1..];
    }
  }

  // ----- alphabetical order ---------------------------------------------------------

  predicate LexLe(a: string, b: string) {
    if a == [] then true
    else if b == [] then false
    else if a[0] == b[0] then LexLe(a[1..], b[1..])
    else a[0] < b[0]
  }

  const Alphabetical: (string, string) -> bool := (a: string, b: string) => LexLe(a, b)

  lemma {:induction false} LexTotal(a: string, b: string)
    ensures LexLe(a, b) || LexLe(b, a)
    ensures LexLe(a, b) && LexLe(b, a) ==> a == b
  {
    if a != [] && b != [] && a[0] == b[0] {
      LexTotal(a[1..], b[1..]);
    }
  }

  lemma {:induction false} LexTransitive(a: string, b: string, c: string)
    requires LexLe(a, b) && LexLe(b, c)
    ensures LexLe(a, c)
  {
    if a != [] && b != [] && c != [] && a[0] == b[0] == c[0] {
      LexTransitive(a[1..], b[1..], c[1..]);
    }
  }

  /** The first difference decides, and a prefix comes before what it starts. */
  lemma {:induction false} LexDecided(a: string, b: string, k: nat)
    requires k <= |a| && k <= |b| && a[..k] == b[..k]
    ensures k == |a| ==> LexLe(a, b)
    ensures k == |b| < |a| ==> !LexLe(a, b)
    ensures k < |a| && k < |b| && a[k] < b[k] ==> LexLe(a, b) && !LexLe(b, a)
    decreases k
  {
    if k > 0 {
      assert a[0] == a[..k][0] == b[..k][0] == b[0];
      assert a[1..][..k - 1] == a[..k][1..] == b[..k][1..] == b[1..][..k - 1];
      LexDecided(a[1..], b[1..], k - 1);
    }
  }

  lemma AlphabeticalOrder()
    ensures TotalPreorder(Alphabetical)
    ensures forall a, b :: Alphabetical(a, b) && Alphabetical(b, a) ==> a == b
  {
    forall a, b ensures Alphabetical(a, b) || Alphabetical(b, a)
      ensures Alphabetical(a, b) && Alphabetical(b, a) ==> a == b
    {
      LexTotal(a, b);
    }
    forall a, b, c | Alphabetical(a, b) && Alphabetical(b, c) ensures Alphabetical(a, c) {
      LexTransitive(a, b, c);
    }
  }

  // ----- sorted sets ------------------------------------------------------------------

  /** An enumeration of the symbols, as iterating a set gives it: each symbol once, in an arbitrary order. */
  ghost predicate Enumerates(enumeration: seq<string>, symbols: set<string>) {
    Distinct(enumeration) && forall s :: s in enumeration <==> s in symbols
  }

  lemma EnumerationMultiset(xs: seq<string>, ys: seq<string>)
    requires Distinct(xs) && Distinct(ys) && forall s :: s in xs <==> s in ys
    ensures multiset(xs) == multiset(ys)
  {
    forall s ensures multiset(xs)[s] == multiset(ys)[s] {
      DistinctCounts(xs, s);
      DistinctCounts(ys, s);
      assert s in multiset(xs) <==> s in xs;
      assert s in multiset(ys) <==> s in ys;
    }
  }

  /** `sorted(set)`: the same list for every order of iteration. */
  lemma SortedSetUnique(xs: seq<string>, ys: seq<string>, symbols: set<string>)
    requires Enumerates(xs, symbols) && Enumerates(ys, symbols)
    ensures Sort(xs, Alphabetical) == Sort(ys, Alphabetical)
  {
    AlphabeticalOrder();
    EnumerationMultiset(xs, ys);
    SortSorts(xs, Alphabetical);
    SortSorts(ys, Alphabetical);
    SortedUnique(Sort(xs, Alphabetical), Sort(ys, Alphabetical), Alphabetical);
  }

  /** Iterating a set: visits every member once, in an arbitrary order. */
  method EnumerateSet(symbols: set<string>) returns (xs: seq<string>)
    ensures Enumerates(xs, symbols)
  {
    xs := [];
    var todo := symbols;
    while todo != {}
      invariant todo <= symbols && Distinct(xs)
      invariant forall s :: s in xs <==> s in symbols && s !in todo
      decreases |todo|
    {
      var s :| s in todo;
      xs := xs + [s];
      todo := todo - {s};
    }
  }
}
