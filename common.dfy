/**
 * Shared vocabulary of the dashboard model: optional cells, the string-valued
 * filter store, the multi-select "activity" test, and the small pieces of
 * Python string and list semantics (split, join, strip, lower, replace,
 * sorted(unique(...))) that the callbacks are built from.
 */
module Common {

  datatype Option<T> = None | Some(value: T)

  /** A multi-select dropdown value: None when the component never fired. */
  type Selection = Option<seq<string>>

  /**
   * The store a filter panel writes: the two date entries, and one text entry
   * per dropdown. Dates are whole days since an arbitrary epoch.
   */
  datatype Store = Store(dates: map<string, int>, text: map<string, string>)

  /** The dictionary lookup `store.get(key, '')`. */
  function TextOr(store: Store, key: string): (r: string)
    ensures key !in store.text ==> r == ""
    ensures key in store.text ==> r == store.text[key]
  {
    if key in store.text then store.text[key] else ""
  }

  /** The dictionary lookup `store.get(key)` on a date entry. */
  function DateOf(store: Store, key: string): (r: Option<int>)
    ensures r.Some? <==> key in store.dates
  {
    if key in store.dates then Some(store.dates[key]) else None
  }

  const AllSentinel: string := "All"

  /**
   * A selection narrows the data iff it is present, non-empty and does not
   * contain the "All" sentinel (`sel is not None and len(sel) > 0 and "All" not in sel`).
   */
  predicate IsActive(sel: Selection)
  {
    sel.Some? && |sel.value| > 0 && AllSentinel !in sel.value
  }

  /** `column.isin(sel)` on a nullable cell, after the activity test: an inactive selection admits everything, a null cell matches no selection. */
  predicate Admits(sel: Selection, cell: Option<string>)
  {
    !IsActive(sel) || (cell.Some? && cell.value in sel.value)
  }

  /** `f"'{x}'"`. */
  function Quote(x: string): string
  {
    "'" + x + "'"
  }

  /**
   * The store encoding every filter panel uses for a multi-select:
   * `", ".join(f"'{x}'" for x in sel)` when the selection is active, else "".
   */
  function QuotedList(sel: Selection): string
  {
    if IsActive(sel) then Join(Map(sel.value, Quote), ", ") else ""
  }

  /** One entry of a dropdown's option list: `{"label": caption, "value": value}`. */
  datatype DropOption = DropOption(caption: string, value: string)

  // ---------------------------------------------------------------------
  // Sequences

  /** Order-preserving filter (pandas boolean indexing). */
  function Filter<T(!new)>(xs: seq<T>, p: T -> bool): (r: seq<T>)
    ensures |r| <= |xs|
    ensures forall x :: x in r <==> x in xs && p(x)
    ensures forall i :: 0 <= i < |r| ==> p(r[i])
  {
    if |xs| == 0 then []
    else if p(xs[0]) then [xs[0]] + Filter(xs[1..], p)
    else Filter(xs[1..], p)
  }

  /** A rejected element is not in the filtered sequence. */
  lemma DroppedBy<T(!new)>(items: seq<T>, kept: seq<T>, keep: T -> bool, x: T)
    requires kept == Filter(items, keep) && !keep(x)
    ensures x !in kept
  {
  }

  /** Of a prefix and the whole, an element of the prefix sits before an element left out of it. */
  lemma PrefixPositions<T>(all: seq<T>, view: seq<T>, c: T, e: T) returns (i: nat, k: nat)
    requires view <= all && c in view && e in all && e !in view
    ensures i < |view| <= k < |all| && all[i] == c && all[k] == e
  {
    assert all == view + all[|view|..];
    i :| i < |view| && view[i] == c;
    assert e in all[|view|..];
    var m: nat :| m < |all| - |view| && all[|view|..][m] == e;
    k := |view| + m;
  }

  /** Filtering twice is filtering by the conjunction. */
  lemma {:induction false} FilterFilter<T(!new)>(xs: seq<T>, p: T -> bool, q: T -> bool)
    ensures Filter(Filter(xs, p), q) == Filter(xs, x => p(x) && q(x))
  {
    if |xs| > 0 {
      FilterFilter(xs[1..], p, q);
      if p(xs[0]) {
        assert Filter(xs, p) == [xs[0]] + Filter(xs[1..], p);
        assert Filter(xs, p)[1..] == Filter(xs[1..], p);
      }
    }
  }

  /** Filters that agree on every element give the same result. */
  lemma {:induction false} FilterExt<T(!new)>(xs: seq<T>, p: T -> bool, q: T -> bool)
    requires forall x :: x in xs ==> p(x) == q(x)
    ensures Filter(xs, p) == Filter(xs, q)
  {
    if |xs| > 0 {
      assert forall x :: x in xs[1..] ==> x in xs;
      FilterExt(xs[1..], p, q);
    }
  }

  /** Concatenation regroups freely. */
  lemma AppendAssoc<T>(a: seq<T>, b: seq<T>, c: seq<T>)
    ensures (a + b) + c == a + (b + c)
  {
  }

  /** A predicate true of every element keeps the sequence whole. */
  lemma {:induction false} FilterAll<T(!new)>(xs: seq<T>, p: T -> bool)
    requires forall x :: x in xs ==> p(x)
    ensures Filter(xs, p) == xs
  {
    if |xs| > 0 {
      assert xs[0] in xs;
      assert forall x :: x in xs[1..] ==> x in xs;
      FilterAll(xs[1..], p);
      assert xs == [xs[0]] + xs[1..];
    }
  }

  /** A predicate that no element satisfies keeps nothing. */
  lemma {:induction false} FilterNone<T(!new)>(xs: seq<T>, p: T -> bool)
    requires forall x :: x in xs ==> !p(x)
    ensures Filter(xs, p) == []
  {
    if |xs| > 0 {
      assert forall x :: x in xs[1..] ==> x in xs;
      FilterNone(xs[1..], p);
    }
  }

  /** Filtering distributes over concatenation. */
  lemma {:induction false} FilterAppend<T(!new)>(xs: seq<T>, ys: seq<T>, p: T -> bool)
    ensures Filter(xs + ys, p) == Filter(xs, p) + Filter(ys, p)
  {
    if |xs| == 0 {
      assert xs + ys == ys;
    } else {
      assert (xs + ys)[1..] == xs[1..] + ys;
      FilterAppend(xs[1..], ys, p);
    }
  }

  /** Two tests no element passes together select at most as many elements as there are. */
  lemma {:induction false} DisjointFilters<T(!new)>(xs: seq<T>, p: T -> bool, q: T -> bool)
    requires forall x :: x in xs ==> !(p(x) && q(x))
    ensures |Filter(xs, p)| + |Filter(xs, q)| <= |xs|
  {
    if |xs| > 0 {
      assert forall x :: x in xs[1..] ==> x in xs;
      DisjointFilters(xs[1..], p, q);
    }
  }

  /** A weaker test keeps at least as many elements. */
  lemma {:induction false} FilterImplies<T(!new)>(xs: seq<T>, p: T -> bool, q: T -> bool)
    requires forall x :: x in xs ==> p(x) ==> q(x)
    ensures |Filter(xs, p)| <= |Filter(xs, q)|
  {
    if |xs| > 0 {
      assert forall x :: x in xs[1..] ==> x in xs;
      FilterImplies(xs[1..], p, q);
    }
  }

  /** Filtering a sequence without repeats leaves none. */
  lemma {:induction false} FilterNoDuplicates<T(!new)>(xs: seq<T>, p: T -> bool)
    requires NoDuplicates(xs)
    ensures NoDuplicates(Filter(xs, p))
  {
    if |xs| > 0 {
      var rest := xs[1..];
      assert NoDuplicates(rest) by {
        forall i, j | 0 <= i < j < |rest| ensures rest[i] != rest[j] {
          assert xs[i + 1] != xs[j + 1];
        }
      }
      FilterNoDuplicates(rest, p);
      if p(xs[0]) {
        assert xs[0] !in rest by {
          forall j | 0 <= j < |rest| ensures rest[j] != xs[0] {
            assert xs[j + 1] != xs[0];
          }
        }
        ConsNoDuplicates(xs[0], Filter(rest, p));
      }
    }
  }

  lemma ConsNoDuplicates<T>(h: T, r: seq<T>)
    requires NoDuplicates(r) && h !in r
    ensures NoDuplicates([h] + r)
  {
    var s := [h] + r;
    forall i, j | 0 <= i < j < |s| ensures s[i] != s[j] {
      assert s[j] == r[j - 1];
      if i > 0 { assert s[i] == r[i - 1]; }
    }
  }

  /** The positions of the elements that pass `p`. */
  function Positions<T>(xs: seq<T>, p: T -> bool): set<nat>
  {
    set i: nat | i < |xs| && p(xs[i])
  }

  /** A filter keeps one element per passing position. */
  lemma {:induction false} FilterCountsPositions<T(!new)>(xs: seq<T>, p: T -> bool)
    ensures |Filter(xs, p)| == |Positions(xs, p)|
    decreases |xs|
  {
    if |xs| > 0 {
      var init, last := xs[..|xs| - 1], xs[|xs| - 1];
      assert xs == init + [last];
      FilterAppend(init, [last], p);
      FilterCountsPositions(init, p);
      assert Filter([last], p) == if p(last) then [last] else [] by {
        assert [last][1..] == [];
      }
      PositionsSnoc(init, last, p);
    }
  }

  /** Appending one element adds its position exactly when it passes. */
  lemma PositionsSnoc<T>(init: seq<T>, last: T, p: T -> bool)
    ensures |Positions(init + [last], p)| == |Positions(init, p)| + (if p(last) then 1 else 0)
  {
    var xs := init + [last];
    var before := Positions(init, p);
    var extra: set<nat> := if p(last) then {|init|} else {};
    forall i: nat ensures i in Positions(xs, p) <==> i in before + extra {
      if i < |init| {
        assert xs[i] == init[i];
      }
    }
    assert Positions(xs, p) == before + extra;
    assert |init| !in before;
  }

  /** At most one passing position per element. */
  lemma PositionsBound<T(!new)>(xs: seq<T>, p: T -> bool)
    ensures |Positions(xs, p)| <= |xs|
  {
    FilterCountsPositions(xs, p);
  }

  /** Inclusion and exclusion: two tests' counts add up to the union's and the intersection's. */
  lemma {:induction false} FilterInclusionExclusion<T(!new)>(xs: seq<T>, p: T -> bool, q: T -> bool, either: T -> bool, both: T -> bool)
    requires forall x :: x in xs ==> either(x) == (p(x) || q(x)) && both(x) == (p(x) && q(x))
    ensures |Filter(xs, p)| + |Filter(xs, q)| == |Filter(xs, either)| + |Filter(xs, both)|
  {
    if |xs| > 0 {
      assert forall x :: x in xs[1..] ==> x in xs;
      FilterInclusionExclusion(xs[1..], p, q, either, both);
    }
  }

  /** The number of distinct values is the size of the set of values. */
  lemma DistinctCount<T(!new)>(xs: seq<T>)
    ensures |Distinct(xs)| == |set x | x in xs|
  {
    DistinctCard(Distinct(xs));
    assert (set x | x in Distinct(xs)) == (set x | x in xs);
  }

  /** Filtering twice is filtering once by a test that holds exactly when both do. */
  lemma {:induction false} FilterThen<T(!new)>(xs: seq<T>, p: T -> bool, q: T -> bool, both: T -> bool)
    requires forall x :: x in xs ==> both(x) == (p(x) && q(x))
    ensures Filter(Filter(xs, p), q) == Filter(xs, both)
  {
    if |xs| > 0 {
      assert forall x :: x in xs[1..] ==> x in xs;
      FilterThen(xs[1..], p, q, both);
    }
  }

  /** Element-wise map (a list comprehension without a guard). */
  function Map<T, U>(xs: seq<T>, f: T -> U): (r: seq<U>)
    ensures |r| == |xs|
    ensures forall i :: 0 <= i < |xs| ==> r[i] == f(xs[i])
  {
    if |xs| == 0 then [] else [f(xs[0])] + Map(xs[1..], f)
  }

  /** The present values of a sequence of nullable cells, in order (`dropna()`). */
  function Somes<T(!new)>(xs: seq<Option<T>>): (r: seq<T>)
    ensures |r| <= |xs|
    ensures forall v :: v in r <==> Some(v) in xs
  {
    if |xs| == 0 then []
    else
      assert forall v :: Some(v) in xs <==> Some(v) == xs[0] || Some(v) in xs[1..];
      if xs[0].Some? then [xs[0].value] + Somes(xs[1..]) else Somes(xs[1..])
  }

  /** Number of occurrences of `x` in `xs`. */
  function Count<T(==)>(xs: seq<T>, x: T): (n: nat)
    ensures n <= |xs|
    ensures n > 0 <==> x in xs
  {
    if |xs| == 0 then 0 else (if xs[0] == x then 1 else 0) + Count(xs[1..], x)
  }

  lemma {:induction false} CountAppend<T>(xs: seq<T>, ys: seq<T>, x: T)
    ensures Count(xs + ys, x) == Count(xs, x) + Count(ys, x)
  {
    if |xs| == 0 {
      assert xs + ys == ys;
    } else {
      assert (xs + ys)[1..] == xs[1..] + ys;
      CountAppend(xs[1..], ys, x);
    }
  }

  /** Distinct values in first-occurrence order (pandas `unique()`, `drop_duplicates()`). */
  function Distinct<T(==,!new)>(xs: seq<T>): (r: seq<T>)
    ensures forall x :: x in r <==> x in xs
    ensures NoDuplicates(r)
    ensures |r| <= |xs|
  {
    if |xs| == 0 then []
    else
      var rest := Distinct(xs[..|xs| - 1]);
      if xs[|xs| - 1] in rest then rest else rest + [xs[|xs| - 1]]
  }

  predicate NoDuplicates<T(==)>(xs: seq<T>)
  {
    forall i, j :: 0 <= i < j < |xs| ==> xs[i] != xs[j]
  }

  /** Sum of the occurrence counts of `keys` in `xs`. */
  function SumCounts<T(==)>(keys: seq<T>, xs: seq<T>): nat
  {
    if |keys| == 0 then 0 else Count(xs, keys[0]) + SumCounts(keys[1..], xs)
  }

  lemma {:induction false} SumCountsAppend<T>(keys: seq<T>, xs: seq<T>, x: T)
    ensures SumCounts(keys, xs + [x]) == SumCounts(keys, xs) + Count(keys, x)
  {
    if |keys| > 0 {
      CountAppend(xs, [x], keys[0]);
      SumCountsAppend(keys[1..], xs, x);
    }
  }

  /**
   * Grouping by a key and counting loses nothing: over the distinct keys of a
   * sequence the group sizes add up to its length (`groupby().size().sum() == len`).
   */
  lemma {:induction false} GroupCountsSum<T>(keys: seq<T>, xs: seq<T>)
    requires NoDuplicates(keys)
    requires forall x :: x in xs ==> x in keys
    ensures SumCounts(keys, xs) == |xs|
  {
    if |xs| == 0 {
      SumCountsEmpty(keys, xs);
    } else {
      var init, last := xs[..|xs| - 1], xs[|xs| - 1];
      assert xs == init + [last];
      assert forall x :: x in init ==> x in xs;
      GroupCountsSum(keys, init);
      SumCountsAppend(keys, init, last);
      CountDistinctMember(keys, last);
    }
  }

  lemma {:induction false} SumCountsEmpty<T>(keys: seq<T>, xs: seq<T>)
    requires |xs| == 0
    ensures SumCounts(keys, xs) == 0
  {
    if |keys| > 0 { SumCountsEmpty(keys[1..], xs); }
  }

  lemma {:induction false} CountDistinctMember<T>(keys: seq<T>, x: T)
    requires NoDuplicates(keys)
    requires x in keys
    ensures Count(keys, x) == 1
  {
    if keys[0] != x {
      CountDistinctMember(keys[1..], x);
    } else {
      assert x !in keys[1..] by {
        forall j | 0 <= j < |keys[1..]| ensures keys[1..][j] != x {
          assert keys[0] != keys[j + 1];
        }
      }
    }
  }

  /** Occurrences of `x` in a mapped sequence are the elements the test `p` (`f(e) == x`) keeps. */
  lemma {:induction false} CountMapFilter<T(!new), U>(xs: seq<T>, f: T -> U, x: U, p: T -> bool)
    requires forall e :: e in xs ==> p(e) == (f(e) == x)
    ensures Count(Map(xs, f), x) == |Filter(xs, p)|
  {
    if |xs| > 0 {
      assert forall e :: e in xs[1..] ==> e in xs;
      CountMapFilter(xs[1..], f, x, p);
      assert Map(xs, f)[1..] == Map(xs[1..], f);
    }
  }

  /** Two different values together occur no more often than the sequence is long. */
  lemma {:induction false} CountTwo<T>(xs: seq<T>, a: T, b: T)
    requires a != b
    ensures Count(xs, a) + Count(xs, b) <= |xs|
  {
    if |xs| > 0 { CountTwo(xs[1..], a, b); }
  }

  /** Membership in `xs`, as a test. */
  function OccursIn<T(==)>(xs: seq<T>): T -> bool
  {
    k => k in xs
  }

  /** Each key with its number of occurrences in `cats` (`value_counts()` restricted to `keys`). */
  function CountedBy<K(==)>(keys: seq<K>, cats: seq<K>): (r: seq<(K, nat)>)
    ensures |r| == |keys|
    ensures forall i :: 0 <= i < |keys| ==> r[i] == (keys[i], Count(cats, keys[i]))
  {
    if |keys| == 0 then [] else [(keys[0], Count(cats, keys[0]))] + CountedBy(keys[1..], cats)
  }

  function CountOf<K>(e: (K, nat)): int
  {
    e.1
  }

  function KeyOf<K>(e: (K, nat)): K
  {
    e.0
  }

  /** The counts listed add up to the summed occurrence counts of the keys. */
  lemma {:induction false} CountedBySum<K>(keys: seq<K>, cats: seq<K>)
    ensures Sum(Map(CountedBy(keys, cats), CountOf)) == SumCounts(keys, cats)
  {
    if |keys| > 0 {
      CountedBySum(keys[1..], cats);
      assert CountedBy(keys, cats)[1..] == CountedBy(keys[1..], cats);
      assert Map(CountedBy(keys, cats), CountOf)[1..] == Map(CountedBy(keys, cats)[1..], CountOf);
    }
  }

  /**
   * `value_counts()` re-ordered by a fixed order of categories: the categories
   * of `order` that occur, in that order, each with its count.
   */
  function CountsInOrder<K(==,!new)>(order: seq<K>, cats: seq<K>): (r: seq<(K, nat)>)
    ensures forall e :: e in r ==> e.0 in order && e.0 in cats && e.1 == Count(cats, e.0) && e.1 > 0
    ensures forall k :: k in order && k in cats ==> exists e :: e in r && e.0 == k
  {
    var keys := Filter(order, OccursIn(cats));
    var r := CountedBy(keys, cats);
    assert forall k :: k in order && k in cats ==> k in keys && r[IndexOf(keys, k)] == (k, Count(cats, k));
    r
  }

  function IndexOf<T(==)>(xs: seq<T>, x: T): (i: nat)
    requires x in xs
    ensures i < |xs| && xs[i] == x
  {
    if xs[0] == x then 0 else 1 + IndexOf(xs[1..], x)
  }

  /** When every category is in a repeat-free order, the listed counts add up to the number of categories. */
  lemma CountsInOrderTotal<K(!new)>(order: seq<K>, cats: seq<K>)
    requires NoDuplicates(order)
    requires forall c :: c in cats ==> c in order
    ensures Sum(Map(CountsInOrder(order, cats), CountOf)) == |cats|
  {
    var keys := Filter(order, OccursIn(cats));
    FilterNoDuplicates(order, OccursIn(cats));
    CountedBySum(keys, cats);
    GroupCountsSum(keys, cats);
  }

  /** The sort key of a descending count. */
  function ByCountDescending<K>(e: (K, nat)): int
  {
    0 - e.1
  }

  /**
   * `value_counts()` (or `groupby(key).size()` sorted descending): each
   * distinct value once with its number of occurrences, most frequent first.
   */
  function ValueCounts<K(==,!new)>(xs: seq<K>): seq<(K, nat)>
  {
    SortBy(CountedBy(Distinct(xs), xs), ByCountDescending)
  }

  /** A counted entry is an occurring value with its number of occurrences. */
  lemma ValueCountsEntry<K(!new)>(xs: seq<K>, e: (K, nat))
    requires e in ValueCounts(xs)
    ensures e.0 in xs && e.1 == Count(xs, e.0) && e.1 >= 1
  {
    var rows := CountedBy(Distinct(xs), xs);
    assert e in multiset(ValueCounts(xs));
    assert e in multiset(rows);
    var k :| 0 <= k < |rows| && rows[k] == e;
    assert Distinct(xs)[k] in Distinct(xs);
  }

  /** Every occurring value is counted. */
  lemma ValueCountsCover<K(!new)>(xs: seq<K>, x: K)
    requires x in xs
    ensures (x, Count(xs, x)) in ValueCounts(xs)
  {
    var d := Distinct(xs);
    var k :| 0 <= k < |d| && d[k] == x;
    SortByKeeps(CountedBy(d, xs), ByCountDescending, k);
  }

  /** Along the counts the numbers never increase. */
  lemma ValueCountsOrdered<K(!new)>(xs: seq<K>, i: nat, j: nat)
    requires i < j < |ValueCounts(xs)|
    ensures ValueCounts(xs)[i].1 >= ValueCounts(xs)[j].1
  {
    var r := ValueCounts(xs);
    assert ByCountDescending(r[i]) <= ByCountDescending(r[j]);
  }

  /** The counted entries are pairwise different, since their values are. */
  lemma ValueCountsNoDuplicates<K(!new)>(xs: seq<K>)
    ensures NoDuplicates(ValueCounts(xs))
  {
    var d := Distinct(xs);
    var c := CountedBy(d, xs);
    forall a, b | 0 <= a < b < |c| ensures c[a] != c[b] {
      assert c[a].0 == d[a] && c[b].0 == d[b];
    }
    PermutationNoDuplicates(c, ValueCounts(xs));
  }

  /** The counted values are exactly the occurring ones, each once. */
  lemma ValueCountsKeys<K(!new)>(xs: seq<K>)
    ensures var keys := Map(ValueCounts(xs), KeyOf);
      NoDuplicates(keys) && forall x :: x in keys <==> x in xs
  {
    var r := ValueCounts(xs);
    var keys := Map(r, KeyOf);
    ValueCountsNoDuplicates(xs);
    forall i, j | 0 <= i < j < |keys| ensures keys[i] != keys[j] {
      ValueCountsEntry(xs, r[i]);
      ValueCountsEntry(xs, r[j]);
      assert r[i] != r[j];
    }
    forall x | x in keys ensures x in xs {
      var i :| 0 <= i < |keys| && keys[i] == x;
      ValueCountsEntry(xs, r[i]);
    }
    forall x | x in xs ensures x in keys {
      ValueCountsCover(xs, x);
      var i :| 0 <= i < |r| && r[i] == (x, Count(xs, x));
      assert keys[i] == x;
    }
  }

  /** The counts add up to the number of values: nothing is lost by counting. */
  lemma ValueCountsTotal<K(!new)>(xs: seq<K>)
    ensures Sum(Map(ValueCounts(xs), CountOf)) == |xs|
  {
    var d := Distinct(xs);
    SumMapSort(CountedBy(d, xs), ByCountDescending, CountOf);
    CountedBySum(d, xs);
    GroupCountsSum(d, xs);
  }

  /** The first entry carries the largest count of any value. */
  lemma ValueCountsTop<K(!new)>(xs: seq<K>, x: K)
    requires x in xs
    ensures |ValueCounts(xs)| > 0 && ValueCounts(xs)[0].1 >= Count(xs, x)
  {
    var r := ValueCounts(xs);
    ValueCountsCover(xs, x);
    var i :| 0 <= i < |r| && r[i] == (x, Count(xs, x));
    if i > 0 {
      ValueCountsOrdered(xs, 0, i);
    }
  }

  /** Sum of a sequence of integers. */
  function Sum(xs: seq<int>): int
  {
    if |xs| == 0 then 0 else xs[0] + Sum(xs[1..])
  }

  /** A sum of non-negative values is non-negative. */
  lemma {:induction false} SumNonNegative(xs: seq<int>)
    requires forall x :: x in xs ==> x >= 0
    ensures Sum(xs) >= 0
  {
    if |xs| > 0 {
      assert xs[0] in xs;
      assert forall x :: x in xs[1..] ==> x in xs;
      SumNonNegative(xs[1..]);
    }
  }

  lemma {:induction false} SumAppend(xs: seq<int>, ys: seq<int>)
    ensures Sum(xs + ys) == Sum(xs) + Sum(ys)
  {
    if |xs| == 0 {
      assert xs + ys == ys;
    } else {
      assert (xs + ys)[1..] == xs[1..] + ys;
      SumAppend(xs[1..], ys);
    }
  }

  /** `df.head(n)`: the first `n` rows, or all of them. */
  function Head<T>(xs: seq<T>, n: nat): (r: seq<T>)
    ensures |r| == if n < |xs| then n else |xs|
    ensures r <= xs
  {
    if n < |xs| then xs[..n] else xs
  }

  /** `xs[-n:]` for n > 0: the last `n` items, or all of them. */
  function Tail<T>(xs: seq<T>, n: nat): (r: seq<T>)
    ensures |r| == if n < |xs| then n else |xs|
    ensures forall i :: 0 <= i < |r| ==> r[i] == xs[|xs| - |r| + i]
  {
    if n < |xs| then xs[|xs| - n..] else xs
  }

  /** Python's `xs[:n]`. */
  function SliceTo<T>(xs: seq<T>, n: int): (r: seq<T>)
    ensures r <= xs
    ensures n >= 0 ==> r == Head(xs, n)
  {
    if n >= 0 then Head(xs, n) else xs[..Max0(|xs| + n)]
  }

  /** Python's `xs[-n:]`. */
  function SliceLast<T>(xs: seq<T>, n: int): (r: seq<T>)
    ensures n > 0 ==> r == Tail(xs, n)
    ensures exists k :: 0 <= k <= |xs| && r == xs[k..]
  {
    if n > 0 then
      var r := Tail(xs, n);
      assert r == xs[|xs| - |r|..];
      r
    else if -n < |xs| then xs[-n..]
    else xs[|xs|..]
  }

  // ---------------------------------------------------------------------
  // Strings (Python `str` semantics on code points)

  /** `sep` occurs in `s` at position `i`. */
  predicate OccursAt(s: string, sep: string, i: int)
  {
    0 <= i && i + |sep| <= |s| && s[i..i + |sep|] == sep
  }

  /** `sub in s`. */
  predicate Contains(s: string, sub: string)
  {
    exists i :: 0 <= i <= |s| - |sub| && OccursAt(s, sub, i)
  }

  /** `s.startswith(p)`. */
  predicate StartsWith(s: string, p: string)
  {
    |p| <= |s| && s[..|p|] == p
  }

  /** `s.endswith(p)`. */
  predicate EndsWith(s: string, p: string)
  {
    |p| <= |s| && s[|s| - |p|..] == p
  }

  /** Position of the first occurrence of `sep` at or after `from`, if any (`s.find(sep, from)`). */
  function FindFrom(s: string, sep: string, from: nat): (r: Option<nat>)
    requires |sep| > 0
    ensures r.Some? ==> from <= r.value && OccursAt(s, sep, r.value)
    ensures r.Some? ==> forall j :: from <= j < r.value ==> !OccursAt(s, sep, j)
    ensures r.None? ==> forall j :: from <= j ==> !OccursAt(s, sep, j)
    decreases |s| - from
  {
    if from + |sep| > |s| then None
    else if s[from..from + |sep|] == sep then Some(from)
    else FindFrom(s, sep, from + 1)
  }

  /** `s.split(sep)` for a non-empty separator. */
  function Split(s: string, sep: string): (r: seq<string>)
    requires |sep| > 0
    ensures |r| > 0
    decreases |s|
  {
    match FindFrom(s, sep, 0)
    case None => [s]
    case Some(i) => [s[..i]] + Split(s[i + |sep|..], sep)
  }

  /** `sep.join(xs)`. */
  function Join(xs: seq<string>, sep: string): string
  {
    if |xs| == 0 then ""
    else if |xs| == 1 then xs[0]
    else xs[0] + sep + Join(xs[1..], sep)
  }

  /** The items can be joined by `sep` and split apart again: no piece creates an early occurrence of `sep`. */
  predicate Separable(item: string, sep: string)
  {
    forall j :: 0 <= j < |item| ==> !OccursAt(item + sep, sep, j)
  }

  /** A first occurrence found by hand is the one `FindFrom` reports. */
  lemma {:induction false} FindFromFirst(s: string, sep: string, from: nat, k: nat)
    requires |sep| > 0 && from <= k && OccursAt(s, sep, k)
    requires forall j :: from <= j < k ==> !OccursAt(s, sep, j)
    ensures FindFrom(s, sep, from) == Some(k)
    decreases k - from
  {
    if from < k {
      assert !OccursAt(s, sep, from);
      FindFromFirst(s, sep, from + 1, k);
    }
  }

  /** No occurrence at or after `from` means `FindFrom` reports none. */
  lemma {:induction false} FindFromNone(s: string, sep: string, from: nat)
    requires |sep| > 0
    requires forall j :: from <= j ==> !OccursAt(s, sep, j)
    ensures FindFrom(s, sep, from) == None
    decreases |s| - from
  {
    if from + |sep| <= |s| {
      assert !OccursAt(s, sep, from);
      FindFromNone(s, sep, from + 1);
    }
  }

  /** Splitting what was joined gives the items back, for non-empty lists of separable items. */
  lemma {:induction false} SplitJoin(xs: seq<string>, sep: string)
    requires |sep| > 0 && |xs| > 0
    requires forall i :: 0 <= i < |xs| ==> Separable(xs[i], sep)
    ensures Split(Join(xs, sep), sep) == xs
  {
    var s := Join(xs, sep);
    var item := xs[0];
    assert Separable(item, sep);
    if |xs| == 1 {
      assert s == item;
      forall j | 0 <= j ensures !OccursAt(item, sep, j) {
        if j + |sep| <= |item| {
          assert !OccursAt(item + sep, sep, j);
          assert item[j..j + |sep|] == (item + sep)[j..j + |sep|];
        }
      }
      FindFromNone(item, sep, 0);
    } else {
      var rest := Join(xs[1..], sep);
      assert s == (item + sep) + rest;
      assert s[|item|..|item| + |sep|] == sep;
      forall j | 0 <= j < |item| ensures !OccursAt(s, sep, j) {
        assert !OccursAt(item + sep, sep, j);
        assert s[j..j + |sep|] == (item + sep)[j..j + |sep|];
      }
      FindFromFirst(s, sep, 0, |item|);
      assert s[..|item|] == item;
      assert s[|item| + |sep|..] == rest;
      SplitJoin(xs[1..], sep);
    }
  }

  /** The pieces `", ".join(xs)` leaves between commas: every item after the first carries the space. */
  function Spaced(xs: seq<string>): (r: seq<string>)
    ensures |r| == |xs|
    ensures |xs| > 0 ==> r[0] == xs[0]
    ensures forall i :: 0 < i < |xs| ==> r[i] == " " + xs[i]
  {
    if |xs| == 0 then [] else [xs[0]] + Map(xs[1..], LeadSpace)
  }

  function LeadSpace(x: string): string
  {
    " " + x
  }

  /** Joining by ", " is joining the spaced pieces by ",". */
  lemma JoinSpaced(xs: seq<string>)
    ensures Join(xs, ", ") == Join(Spaced(xs), ",")
  {
    if |xs| > 1 {
      JoinLeadSpace(xs[1..]);
      assert Spaced(xs)[1..] == Map(xs[1..], LeadSpace);
    }
  }

  lemma {:induction false} JoinLeadSpace(ys: seq<string>)
    requires |ys| > 0
    ensures Join(Map(ys, LeadSpace), ",") == " " + Join(ys, ", ")
  {
    var m := Map(ys, LeadSpace);
    if |ys| > 1 {
      JoinLeadSpace(ys[1..]);
      assert m[1..] == Map(ys[1..], LeadSpace);
      assert Join(m, ",") == " " + ys[0] + "," + (" " + Join(ys[1..], ", "));
    }
  }

  /** The characters Python's argument-less `strip()` removes (ASCII whitespace). */
  const Whitespace: set<char> := {' ', '\t', '\n', '\r', '\U{0B}', '\U{0C}'}

  /** `s.lstrip(chars)`. */
  function LStrip(s: string, chars: set<char>): (r: string)
    ensures |r| <= |s| && r == s[|s| - |r|..]
    ensures |r| > 0 ==> r[0] !in chars
    ensures forall i :: 0 <= i < |s| - |r| ==> s[i] in chars
  {
    if |s| > 0 && s[0] in chars then LStrip(s[1..], chars) else s
  }

  /** `s.rstrip(chars)`. */
  function RStrip(s: string, chars: set<char>): (r: string)
    ensures |r| <= |s| && r == s[..|r|]
    ensures |r| > 0 ==> r[|r| - 1] !in chars
    ensures forall i :: |r| <= i < |s| ==> s[i] in chars
  {
    if |s| > 0 && s[|s| - 1] in chars then RStrip(s[..|s| - 1], chars) else s
  }

  /** `s.strip(chars)`: removes every leading and trailing character in `chars`. */
  function StripChars(s: string, chars: set<char>): (r: string)
  {
    RStrip(LStrip(s, chars), chars)
  }

  /** `s.strip()`. */
  function Strip(s: string): string
  {
    StripChars(s, Whitespace)
  }

  /** A string neither starting nor ending with a character of `chars` is left alone by `strip(chars)`. */
  lemma StripCharsNoop(s: string, chars: set<char>)
    requires |s| > 0 ==> s[0] !in chars && s[|s| - 1] !in chars
    ensures StripChars(s, chars) == s
  {
  }

  /** `strip(chars)` on `c + s + c` with `c` in `chars` and `s` trimmed gives `s` back. */
  lemma StripWrapped(s: string, c: char, chars: set<char>)
    requires c in chars
    requires |s| > 0 ==> s[0] !in chars && s[|s| - 1] !in chars
    ensures StripChars([c] + s + [c], chars) == s
  {
    var w := [c] + s + [c];
    assert w[1..] == s + [c];
    if |s| > 0 {
      assert (s + [c])[0] == s[0];
      LStripKeeps(s + [c], chars);
      assert (s + [c])[..|s|] == s;
      RStripKeeps(s, chars);
    } else {
      assert w == [c, c];
      assert w[1..][1..] == [];
    }
  }

  lemma LStripKeeps(s: string, chars: set<char>)
    requires |s| > 0 && s[0] !in chars
    ensures LStrip(s, chars) == s
  {
  }

  lemma RStripKeeps(s: string, chars: set<char>)
    requires |s| > 0 && s[|s| - 1] !in chars
    ensures RStrip(s, chars) == s
  {
  }

  /** Blank in Python's sense: `s.strip() == ""`. */
  predicate IsBlank(s: string)
  {
    forall i :: 0 <= i < |s| ==> s[i] in Whitespace
  }

  lemma StripEmptyIffBlank(s: string)
    ensures (Strip(s) == "") <==> IsBlank(s)
  {
    var l := LStrip(s, Whitespace);
    if l == "" {
      assert forall i :: 0 <= i < |s| ==> s[i] in Whitespace;
    } else {
      assert l[0] !in Whitespace;
      assert s[|s| - |l|] !in Whitespace;
      var r := RStrip(l, Whitespace);
      assert |r| > 0;
    }
  }

  function LowerChar(c: char): char
  {
    if 'A' <= c <= 'Z' then (c as int + 32) as char else c
  }

  function UpperChar(c: char): char
  {
    if 'a' <= c <= 'z' then (c as int - 32) as char else c
  }

  /** `s.lower()` on ASCII letters. */
  function Lower(s: string): (r: string)
    ensures |r| == |s|
    ensures forall i :: 0 <= i < |s| ==> r[i] == LowerChar(s[i])
  {
    if |s| == 0 then "" else [LowerChar(s[0])] + Lower(s[1..])
  }

  /** `s.upper()` on ASCII letters. */
  function Upper(s: string): (r: string)
    ensures |r| == |s|
    ensures forall i :: 0 <= i < |s| ==> r[i] == UpperChar(s[i])
  {
    if |s| == 0 then "" else [UpperChar(s[0])] + Upper(s[1..])
  }

  /** `s.replace(pat, rep)` for a non-empty `pat`: left to right, non-overlapping. */
  function Replace(s: string, pat: string, rep: string): (r: string)
    requires |pat| > 0
    decreases |s|
  {
    if |s| < |pat| then s
    else if s[..|pat|] == pat then rep + Replace(s[|pat|..], pat, rep)
    else [s[0]] + Replace(s[1..], pat, rep)
  }

  /** Replacing by a string free of `pat` leaves no occurrence of it, when `pat` is a single character. */
  lemma {:induction false} ReplaceRemovesChar(s: string, c: char, rep: string)
    requires c !in rep
    ensures c !in Replace(s, [c], rep)
    decreases |s|
  {
    if |s| >= 1 {
      ReplaceRemovesChar(s[1..], c, rep);
      if s[..1] == [c] {
        assert s[1..] == s[|[c]|..];
      }
    }
  }

  /** Replacing one character by another keeps every other character. */
  lemma {:induction false} ReplaceCharKeeps(s: string, c: char, rep: string, d: char)
    requires d != c && d !in rep
    ensures (d in Replace(s, [c], rep)) <==> (d in s)
    decreases |s|
  {
    if |s| >= 1 {
      ReplaceCharKeeps(s[1..], c, rep, d);
      assert s == [s[0]] + s[1..];
      if s[..1] == [c] {
        assert s[1..] == s[|[c]|..];
      }
    }
  }

  function DigitChar(d: nat): char
    requires d < 10
  {
    "0123456789"[d]
  }

  /** `str(n)` for a natural number. */
  function NatToString(n: nat): (r: string)
    ensures |r| > 0
    ensures forall i :: 0 <= i < |r| ==> '0' <= r[i] <= '9'
    decreases n
  {
    if n < 10 then [DigitChar(n)] else NatToString(n / 10) + [DigitChar(n % 10)]
  }

  /** `str(i)` for an integer. */
  function IntToString(i: int): (r: string)
    ensures |r| > 0
  {
    if i < 0 then "-" + NatToString(-i) else NatToString(i)
  }

  predicate IsDigit(c: char)
  {
    '0' <= c <= '9'
  }

  /** Value of a string of decimal digits. */
  function DigitsValue(s: string): nat
    requires forall i :: 0 <= i < |s| ==> IsDigit(s[i])
  {
    if |s| == 0 then 0
    else
      var d := s[|s| - 1];
      assert IsDigit(d);
      DigitsValue(s[..|s| - 1]) * 10 + (d as int - '0' as int)
  }

  /** Reading back what `NatToString` wrote. */
  lemma {:induction false} DigitsValueOfNatToString(n: nat)
    ensures DigitsValue(NatToString(n)) == n
    decreases n
  {
    var s := NatToString(n);
    if n >= 10 {
      DigitsValueOfNatToString(n / 10);
      assert s[..|s| - 1] == NatToString(n / 10);
    }
  }

  /** `int(s)` for the plain decimal forms the model needs: optional "-", at least one digit. */
  function ParseInt(s: string): (r: Option<int>)
  {
    if |s| > 0 && s[0] == '-' then
      (if |s| > 1 && forall i :: 1 <= i < |s| ==> IsDigit(s[i]) then Some(-(DigitsValue(s[1..]) as int)) else None)
    else if |s| > 0 && forall i :: 0 <= i < |s| ==> IsDigit(s[i]) then Some(DigitsValue(s))
    else None
  }

  /** A non-empty run of digits parses as its value. */
  lemma ParseDigits(s: string)
    requires |s| > 0 && forall k :: 0 <= k < |s| ==> IsDigit(s[k])
    ensures ParseInt(s) == Some(DigitsValue(s))
  {
    assert s[0] != '-';
  }

  /** A minus sign before a non-empty run of digits parses as the negated value. */
  lemma ParseMinusDigits(d: string)
    requires |d| > 0 && forall k :: 0 <= k < |d| ==> IsDigit(d[k])
    ensures ParseInt("-" + d) == Some(-(DigitsValue(d) as int))
  {
    var s := "-" + d;
    assert s[1..] == d;
    assert forall k :: 1 <= k < |s| ==> s[k] == d[k - 1];
  }

  /** `int(str(i)) == i`. */
  lemma ParseIntOfIntToString(i: int)
    ensures ParseInt(IntToString(i)) == Some(i)
  {
    if i < 0 {
      var n: nat := -i;
      var d := NatToString(n);
      assert IntToString(i) == "-" + d;
      DigitsValueOfNatToString(n);
      ParseMinusDigits(d);
    } else {
      var n: nat := i;
      var d := NatToString(n);
      assert IntToString(i) == d;
      DigitsValueOfNatToString(n);
      ParseDigits(d);
    }
  }

  // ---------------------------------------------------------------------
  // Python's string ordering, for sorted(...)

  /** Lexicographic code-point order, as Python's `<` on `str`. */
  predicate StrLess(a: string, b: string)
    decreases |a|
  {
    if |a| == 0 then |b| > 0
    else if |b| == 0 then false
    else if a[0] != b[0] then a[0] < b[0]
    else StrLess(a[1..], b[1..])
  }

  lemma {:induction false} StrLessIrreflexive(a: string)
    ensures !StrLess(a, a)
    decreases |a|
  {
    if |a| > 0 { StrLessIrreflexive(a[1..]); }
  }

  lemma {:induction false} StrLessTotal(a: string, b: string)
    requires a != b
    ensures StrLess(a, b) || StrLess(b, a)
    decreases |a|
  {
    if |a| > 0 && |b| > 0 && a[0] == b[0] {
      assert a == [a[0]] + a[1..] && b == [b[0]] + b[1..];
      StrLessTotal(a[1..], b[1..]);
    }
  }

  lemma {:induction false} StrLessTransitive(a: string, b: string, c: string)
    requires StrLess(a, b) && StrLess(b, c)
    ensures StrLess(a, c)
    decreases |a|
  {
    if |a| > 0 && |b| > 0 && |c| > 0 && a[0] == b[0] && b[0] == c[0] {
      StrLessTransitive(a[1..], b[1..], c[1..]);
    }
  }

  lemma StrLessAsymmetric(a: string, b: string)
    requires StrLess(a, b)
    ensures !StrLess(b, a)
  {
    if StrLess(b, a) {
      StrLessTransitive(a, b, a);
      StrLessIrreflexive(a);
    }
  }

  /** Every character of a replacement result comes from the input or from the replacement text. */
  lemma {:induction false} ReplaceChars(s: string, pat: string, rep: string, d: char)
    requires |pat| > 0
    ensures d in Replace(s, pat, rep) ==> d in s || d in rep
    decreases |s|
  {
    if |s| >= |pat| {
      if s[..|pat|] == pat {
        ReplaceChars(s[|pat|..], pat, rep, d);
        assert forall c :: c in s[|pat|..] ==> c in s;
      } else {
        ReplaceChars(s[1..], pat, rep, d);
        assert forall c :: c in s[1..] ==> c in s;
      }
    }
  }

  /** Each string is strictly below its successor. */
  predicate StrictlyAscending(xs: seq<string>)
  {
    forall i :: 0 <= i < |xs| - 1 ==> StrLess(xs[i], xs[i + 1])
  }

  /** Adjacent strict order gives strict order between any two positions. */
  lemma {:induction false} AscendingPairs(xs: seq<string>, i: nat, j: nat)
    requires StrictlyAscending(xs)
    requires i < j < |xs|
    ensures StrLess(xs[i], xs[j])
    decreases j - i
  {
    if j > i + 1 {
      AscendingPairs(xs, i, j - 1);
      StrLessTransitive(xs[i], xs[j - 1], xs[j]);
    }
  }

  lemma AscendingDistinct(xs: seq<string>)
    requires StrictlyAscending(xs)
    ensures NoDuplicates(xs)
  {
    forall i, j | 0 <= i < j < |xs| ensures xs[i] != xs[j] {
      AscendingPairs(xs, i, j);
      StrLessIrreflexive(xs[i]);
    }
  }

  /** Insert `x` into an ascending list unless it is already there. */
  function InsertUnique(x: string, xs: seq<string>): (r: seq<string>)
    requires StrictlyAscending(xs)
    ensures StrictlyAscending(r)
    ensures forall y :: y in r <==> y == x || y in xs
    ensures |r| > 0 && |xs| > 0 ==> r[0] == x || r[0] == xs[0]
  {
    if |xs| == 0 then [x]
    else if x == xs[0] then xs
    else if StrLess(x, xs[0]) then [x] + xs
    else
      var rest := InsertUnique(x, xs[1..]);
      StrLessTotal(x, xs[0]);
      assert |xs| > 1 ==> StrLess(xs[0], xs[1]);
      [xs[0]] + rest
  }

  /** `sorted(set(xs))`: the distinct values in ascending order. */
  function SortedUnique(xs: seq<string>): (r: seq<string>)
    ensures StrictlyAscending(r)
    ensures forall y :: y in r <==> y in xs
  {
    if |xs| == 0 then [] else InsertUnique(xs[|xs| - 1], SortedUnique(xs[..|xs| - 1]))
  }

  /** Ascending integers, for `sorted(...)` over an integer column. */
  predicate IntsAscending(xs: seq<int>)
  {
    forall i :: 0 <= i < |xs| - 1 ==> xs[i] < xs[i + 1]
  }

  function InsertUniqueInt(x: int, xs: seq<int>): (r: seq<int>)
    requires IntsAscending(xs)
    ensures IntsAscending(r)
    ensures forall y :: y in r <==> y == x || y in xs
    ensures |r| > 0 && |xs| > 0 ==> r[0] == x || r[0] == xs[0]
  {
    if |xs| == 0 then [x]
    else if x == xs[0] then xs
    else if x < xs[0] then [x] + xs
    else [xs[0]] + InsertUniqueInt(x, xs[1..])
  }

  function SortedUniqueInts(xs: seq<int>): (r: seq<int>)
    ensures IntsAscending(r)
    ensures forall y :: y in r <==> y in xs
  {
    if |xs| == 0 then [] else InsertUniqueInt(xs[|xs| - 1], SortedUniqueInts(xs[..|xs| - 1]))
  }

  /** Adjacent strict order gives strict order between any two positions. */
  lemma {:induction false} IntsAscendingPairs(xs: seq<int>, i: nat, j: nat)
    requires IntsAscending(xs)
    requires i < j < |xs|
    ensures xs[i] < xs[j]
    decreases j - i
  {
    if j > i + 1 {
      IntsAscendingPairs(xs, i, j - 1);
    }
  }

  /** The position of a string among the distinct strings present, in ascending order. */
  function StrRank(present: seq<string>, x: string): nat
  {
    var sorted := SortedUnique(present);
    if x in sorted then IndexOf(sorted, x) else |sorted|
  }

  /** Ranks order present strings as Python's `<` does. */
  lemma StrRankOrder(present: seq<string>, a: string, b: string)
    requires a in present && b in present
    requires StrRank(present, a) <= StrRank(present, b)
    ensures a == b || StrLess(a, b)
  {
    var sorted := SortedUnique(present);
    var ia, ib := IndexOf(sorted, a), IndexOf(sorted, b);
    if ia < ib {
      AscendingPairs(sorted, ia, ib);
    }
  }

  // ---------------------------------------------------------------------
  // Keys for sorting by two columns

  /** `r * m` by repeated addition. */
  function Scaled(r: nat, m: nat): nat
  {
    if r == 0 then 0 else m + Scaled(r - 1, m)
  }

  /** A higher rank puts the scaled value at least one step `m` higher. */
  lemma {:induction false} ScaledGap(ri: nat, rj: nat, m: nat)
    ensures ri > rj ==> Scaled(ri, m) >= Scaled(rj, m) + m
    decreases ri
  {
    if ri > rj + 1 {
      ScaledGap(ri - 1, rj, m);
    }
  }

  /** One integer key ordering by `major` first and by `minor` (below `width`) second. */
  function LexKey(major: nat, minor: nat, width: nat): int
  {
    Scaled(major, width) + minor
  }

  /** Ordered keys mean ordered majors, and ordered minors under equal majors. */
  lemma LexKeyOrder(a1: nat, b1: nat, a2: nat, b2: nat, width: nat)
    requires b1 < width && b2 < width
    requires LexKey(a1, b1, width) <= LexKey(a2, b2, width)
    ensures a1 < a2 || (a1 == a2 && b1 <= b2)
  {
    ScaledGap(a1, a2, width);
  }

  /**
   * The rank of an optional number among the present numbers, ascending,
   * a missing one ranking after all of them (`na_position='last'`).
   */
  function NaLastRank(present: seq<int>, h: Option<int>): (r: nat)
    ensures r <= |SortedUniqueInts(present)|
  {
    var hs := SortedUniqueInts(present);
    if h.Some? && h.value in hs then IndexOf(hs, h.value) else |hs|
  }

  /** Ranks order present numbers by value and put missing ones last. */
  lemma NaLastRankOrder(present: seq<int>, a: Option<int>, b: Option<int>)
    requires a.Some? ==> a.value in present
    requires b.Some? ==> b.value in present
    requires NaLastRank(present, a) <= NaLastRank(present, b)
    ensures a.None? ==> b.None?
    ensures a.Some? && b.Some? ==> a.value <= b.value
  {
    var hs := SortedUniqueInts(present);
    if a.Some? && b.Some? {
      var ia, ib := IndexOf(hs, a.value), IndexOf(hs, b.value);
      if ia < ib {
        IntsAscendingPairs(hs, ia, ib);
      }
    }
  }

  // ---------------------------------------------------------------------
  // Number formatting

  /** Python's `int(a / b)` for a positive divisor: the quotient truncated toward zero. */
  function TruncDiv(a: int, b: int): (q: int)
    requires b > 0
    ensures a >= 0 ==> q == a / b
    ensures a < 0 ==> q == -((-a) / b)
  {
    if a >= 0 then a / b else -((-a) / b)
  }

  /** Two zero-padded digits. */
  function Pad2(k: nat): (r: string)
    requires k < 100
    ensures |r| == 2 && IsDigit(r[0]) && IsDigit(r[1])
  {
    [DigitChar(k / 10), DigitChar(k % 10)]
  }

  lemma DigitValue(k: nat)
    requires k < 10
    ensures DigitChar(k) as int - '0' as int == k && IsDigit(DigitChar(k))
  {
  }

  lemma Pad2Value(k: nat)
    requires k < 100
    ensures DigitsValue(Pad2(k)) == k
  {
    var p := Pad2(k);
    DigitValue(k / 10);
    DigitValue(k % 10);
    assert p[..1] == [DigitChar(k / 10)];
    assert p[..1][..0] == [];
  }

  /** Three zero-padded digits. */
  function Pad3(k: nat): (r: string)
    requires k < 1000
    ensures |r| == 3 && forall i :: 0 <= i < 3 ==> IsDigit(r[i])
  {
    [DigitChar(k / 100), DigitChar(k / 10 % 10), DigitChar(k % 10)]
  }

  /** `f"{n:,}"`: decimal digits with a comma between groups of three. */
  function Grouped(n: nat): string
    decreases n
  {
    if n < 1000 then NatToString(n) else Grouped(n / 1000) + "," + Pad3(n % 1000)
  }

  /** The last three digits of a number of four or more digits are its remainder by 1000, zero-padded. */
  lemma NatToStringSplit(n: nat)
    requires n >= 1000
    ensures NatToString(n) == NatToString(n / 1000) + Pad3(n % 1000)
  {
    var q, r := n / 1000, n % 1000;
    assert n == 1000 * q + r;
    assert n / 10 == 100 * q + r / 10;
    assert n / 10 / 10 == 10 * q + r / 100;
    assert n / 10 / 10 / 10 == q;
    assert n % 10 == r % 10;
    assert n / 10 % 10 == r / 10 % 10;
    assert n / 10 / 10 % 10 == r / 100;
    assert NatToString(n) == NatToString(n / 10) + [DigitChar(n % 10)];
    assert NatToString(n / 10) == NatToString(n / 10 / 10) + [DigitChar(n / 10 % 10)];
    assert NatToString(n / 10 / 10) == NatToString(q) + [DigitChar(n / 10 / 10 % 10)];
  }

  function NotComma(c: char): bool
  {
    c != ','
  }

  /** Deleting the thousands separators gives back `str(n)`. */
  lemma {:induction false} GroupedDigits(n: nat)
    ensures Filter(Grouped(n), NotComma) == NatToString(n)
    decreases n
  {
    if n < 1000 {
      FilterAll(NatToString(n), NotComma);
    } else {
      var hi, lo := Grouped(n / 1000), Pad3(n % 1000);
      GroupedDigits(n / 1000);
      FilterAppend(hi + ",", lo, NotComma);
      FilterAppend(hi, ",", NotComma);
      assert Filter(",", NotComma) == [];
      FilterAll(lo, NotComma);
      NatToStringSplit(n);
      assert Grouped(n) == hi + "," + lo;
      assert Filter(hi + "," + lo, NotComma) == NatToString(n / 1000) + [] + lo;
    }
  }

  /** An item free of the one-character separator splits off cleanly. */
  lemma CharFreeSeparable(item: string, c: char)
    requires c !in item
    ensures Separable(item, [c])
  {
    forall j | 0 <= j < |item| ensures !OccursAt(item + [c], [c], j) {
      assert (item + [c])[j] == item[j];
    }
  }

  // ---------------------------------------------------------------------
  // Period labels of the time-series charts

  /** `s.zfill(2)`: zeros on the left up to width two. */
  function ZFill2(s: string): (r: string)
    ensures |s| >= 2 ==> r == s
    ensures |s| < 2 ==> |r| == 2 && r[2 - |s|..] == s && forall i :: 0 <= i < 2 - |s| ==> r[i] == '0'
  {
    if |s| >= 2 then s else seq(2 - |s|, _ => '0') + s
  }

  /** "YYYY-MM": the year, "-", the month zero-filled to two digits (also `strftime('%Y-%m')`). */
  function MonthLabel(y: int, m: int): string
  {
    IntToString(y) + "-" + ZFill2(IntToString(m))
  }

  /** "YYYY-Qn". */
  function QuarterLabel(y: int, q: int): string
  {
    IntToString(y) + "-Q" + IntToString(q)
  }

  /** "YYYY-Wnn". */
  function WeekLabel(y: int, w: int): string
  {
    IntToString(y) + "-W" + ZFill2(IntToString(w))
  }

  /** A number below 100 zero-filled is its two digits. */
  lemma ZFill2Pad(k: nat)
    requires k < 100
    ensures ZFill2(IntToString(k)) == Pad2(k)
  {
    if k < 10 {
      assert IntToString(k) == [DigitChar(k)];
      assert k / 10 == 0 && k % 10 == k;
    } else {
      assert NatToString(k) == NatToString(k / 10) + [DigitChar(k % 10)];
      assert NatToString(k / 10) == [DigitChar(k / 10)];
    }
  }

  /** A four-digit year is written with four digits. */
  lemma YearDigits(y: int)
    requires 1000 <= y <= 9999
    ensures |IntToString(y)| == 4 && AllDigits(IntToString(y)) && DigitsValue(IntToString(y)) == y
  {
    var n: nat := y;
    var q1: nat := n / 10;
    var q2: nat := q1 / 10;
    var q3: nat := q2 / 10;
    assert q1 >= 100 && q2 >= 10 && 1 <= q3 < 10;
    assert NatToString(n) == NatToString(q1) + [DigitChar(n % 10)];
    assert NatToString(q1) == NatToString(q2) + [DigitChar(q1 % 10)];
    assert NatToString(q2) == NatToString(q3) + [DigitChar(q2 % 10)];
    assert |NatToString(q3)| == 1;
    DigitsValueOfNatToString(n);
  }

  predicate AllDigits(s: string)
  {
    forall i :: 0 <= i < |s| ==> IsDigit(s[i])
  }

  /** Two equal joins with suffixes of one length have equal parts. */
  lemma SplitEqualJoins(a1: string, s1: string, a2: string, s2: string)
    requires a1 + s1 == a2 + s2 && |s1| == |s2|
    ensures a1 == a2 && s1 == s2
  {
    var l := a1 + s1;
    assert a1 == l[..|a1|] && a2 == l[..|a2|];
    assert s1 == l[|a1|..] && s2 == l[|a2|..];
  }

  /** `str` of an integer is injective. */
  lemma IntToStringInjective(i: int, j: int)
    requires IntToString(i) == IntToString(j)
    ensures i == j
  {
    ParseIntOfIntToString(i);
    ParseIntOfIntToString(j);
  }

  /** A month label (months below 100) is the year, "-" and the month's two digits. */
  lemma MonthLabelJoin(y: int, m: nat)
    requires m < 100
    ensures MonthLabel(y, m) == IntToString(y) + ("-" + Pad2(m))
  {
    ZFill2Pad(m);
  }

  /** A quarter label (one-digit quarters) is the year, "-Q" and the quarter's digit. */
  lemma QuarterLabelJoin(y: int, q: nat)
    requires q < 10
    ensures QuarterLabel(y, q) == IntToString(y) + ("-Q" + [DigitChar(q)])
  {
    assert IntToString(q) == [DigitChar(q)];
  }

  /** Equal joins with a "-MM" tail have equal heads and months. */
  lemma DashMonthTails(a1: string, m1: nat, a2: string, m2: nat)
    requires m1 < 100 && m2 < 100
    requires a1 + ("-" + Pad2(m1)) == a2 + ("-" + Pad2(m2))
    ensures a1 == a2 && m1 == m2
  {
    SplitEqualJoins(a1, "-" + Pad2(m1), a2, "-" + Pad2(m2));
    assert Pad2(m1) == ("-" + Pad2(m1))[1..];
    assert Pad2(m2) == ("-" + Pad2(m2))[1..];
    Pad2Value(m1);
    Pad2Value(m2);
  }

  /** Equal joins with a "-Qn" tail have equal heads and quarters. */
  lemma DashQuarterTails(a1: string, q1: nat, a2: string, q2: nat)
    requires q1 < 10 && q2 < 10
    requires a1 + ("-Q" + [DigitChar(q1)]) == a2 + ("-Q" + [DigitChar(q2)])
    ensures a1 == a2 && q1 == q2
  {
    SplitEqualJoins(a1, "-Q" + [DigitChar(q1)], a2, "-Q" + [DigitChar(q2)]);
    assert ("-Q" + [DigitChar(q1)])[2] == DigitChar(q1);
    DigitValue(q1);
    DigitValue(q2);
  }

  /** Month labels (months below 100) are equal exactly for equal years and months. */
  lemma MonthLabelInjective(y1: int, m1: nat, y2: int, m2: nat)
    requires m1 < 100 && m2 < 100
    ensures MonthLabel(y1, m1) == MonthLabel(y2, m2) <==> y1 == y2 && m1 == m2
  {
    MonthLabelJoin(y1, m1);
    MonthLabelJoin(y2, m2);
    if MonthLabel(y1, m1) == MonthLabel(y2, m2) {
      DashMonthTails(IntToString(y1), m1, IntToString(y2), m2);
      IntToStringInjective(y1, y2);
    }
  }

  /** Quarter labels (one-digit quarters) are equal exactly for equal years and quarters. */
  lemma QuarterLabelInjective(y1: int, q1: nat, y2: int, q2: nat)
    requires q1 < 10 && q2 < 10
    ensures QuarterLabel(y1, q1) == QuarterLabel(y2, q2) <==> y1 == y2 && q1 == q2
  {
    QuarterLabelJoin(y1, q1);
    QuarterLabelJoin(y2, q2);
    if QuarterLabel(y1, q1) == QuarterLabel(y2, q2) {
      DashQuarterTails(IntToString(y1), q1, IntToString(y2), q2);
      IntToStringInjective(y1, y2);
    }
  }

  /** Comparing joins whose first parts have one length: first parts first, then the rest. */
  lemma {:induction false} StrLessJoin(p1: string, s1: string, p2: string, s2: string)
    requires |p1| == |p2|
    ensures StrLess(p1 + s1, p2 + s2) <==> StrLess(p1, p2) || (p1 == p2 && StrLess(s1, s2))
    decreases |p1|
  {
    if |p1| == 0 {
      assert p1 + s1 == s1 && p2 + s2 == s2;
    } else {
      assert (p1 + s1)[0] == p1[0] && (p2 + s2)[0] == p2[0];
      if p1[0] == p2[0] {
        assert (p1 + s1)[1..] == p1[1..] + s1 && (p2 + s2)[1..] == p2[1..] + s2;
        StrLessJoin(p1[1..], s1, p2[1..], s2);
        assert p1 == [p1[0]] + p1[1..] && p2 == [p2[0]] + p2[1..];
      }
    }
  }

  /** On digit strings of one length, Python's `<` is `<` on their values. */
  lemma {:induction false} DigitsOrder(a: string, b: string)
    requires |a| == |b| && AllDigits(a) && AllDigits(b)
    ensures StrLess(a, b) <==> DigitsValue(a) < DigitsValue(b)
    ensures a == b <==> DigitsValue(a) == DigitsValue(b)
    decreases |a|
  {
    if |a| > 0 {
      var n := |a|;
      var a', b' := a[..n - 1], b[..n - 1];
      assert a == a' + [a[n - 1]] && b == b' + [b[n - 1]];
      DigitsOrder(a', b');
      StrLessJoin(a', [a[n - 1]], b', [b[n - 1]]);
      if a' != b' {
        StrLessTotal(a', b');
      }
    }
  }

  /** Joins led by digit strings of one length compare by those values first, then by the rest. */
  lemma DigitsLedOrder(a: string, s1: string, b: string, s2: string)
    requires |a| == |b| && AllDigits(a) && AllDigits(b)
    ensures StrLess(a + s1, b + s2) <==>
      DigitsValue(a) < DigitsValue(b) || (DigitsValue(a) == DigitsValue(b) && StrLess(s1, s2))
  {
    StrLessJoin(a, s1, b, s2);
    DigitsOrder(a, b);
  }

  /** The "-MM" tails compare as their months. */
  lemma DashMonthOrder(m1: nat, m2: nat)
    requires m1 < 100 && m2 < 100
    ensures StrLess("-" + Pad2(m1), "-" + Pad2(m2)) <==> m1 < m2
  {
    StrLessJoin("-", Pad2(m1), "-", Pad2(m2));
    DigitsOrder(Pad2(m1), Pad2(m2));
    Pad2Value(m1);
    Pad2Value(m2);
  }

  /**
   * Month labels of four-digit years sort as strings in calendar order, so
   * `sorted(...)` over them is chronological.
   */
  lemma MonthLabelOrder(y1: int, m1: nat, y2: int, m2: nat)
    requires 1000 <= y1 <= 9999 && 1000 <= y2 <= 9999 && m1 < 100 && m2 < 100
    ensures StrLess(MonthLabel(y1, m1), MonthLabel(y2, m2)) <==> y1 < y2 || (y1 == y2 && m1 < m2)
  {
    YearDigits(y1);
    YearDigits(y2);
    MonthLabelJoin(y1, m1);
    MonthLabelJoin(y2, m2);
    DigitsLedOrder(IntToString(y1), "-" + Pad2(m1), IntToString(y2), "-" + Pad2(m2));
    DashMonthOrder(m1, m2);
  }

  /** The "-Qn" tails compare as their quarters. */
  lemma DashQuarterOrder(q1: nat, q2: nat)
    requires q1 < 10 && q2 < 10
    ensures StrLess("-Q" + [DigitChar(q1)], "-Q" + [DigitChar(q2)]) <==> q1 < q2
  {
    DigitValue(q1);
    DigitValue(q2);
    StrLessJoin("-Q", [DigitChar(q1)], "-Q", [DigitChar(q2)]);
  }

  /** Quarter labels of four-digit years sort as strings in calendar order. */
  lemma QuarterLabelOrder(y1: int, q1: nat, y2: int, q2: nat)
    requires 1000 <= y1 <= 9999 && 1000 <= y2 <= 9999 && q1 < 10 && q2 < 10
    ensures StrLess(QuarterLabel(y1, q1), QuarterLabel(y2, q2)) <==> y1 < y2 || (y1 == y2 && q1 < q2)
  {
    YearDigits(y1);
    YearDigits(y2);
    QuarterLabelJoin(y1, q1);
    QuarterLabelJoin(y2, q2);
    DigitsLedOrder(IntToString(y1), "-Q" + [DigitChar(q1)], IntToString(y2), "-Q" + [DigitChar(q2)]);
    DashQuarterOrder(q1, q2);
  }

  /** Year labels of four-digit years sort as strings in calendar order. */
  lemma YearLabelOrder(y1: int, y2: int)
    requires 1000 <= y1 <= 9999 && 1000 <= y2 <= 9999
    ensures StrLess(IntToString(y1), IntToString(y2)) <==> y1 < y2
  {
    YearDigits(y1);
    YearDigits(y2);
    DigitsOrder(IntToString(y1), IntToString(y2));
  }

  // ---------------------------------------------------------------------
  // Ordering by a numeric key (`sort_values`)

  /** Keys never decrease along the sequence. */
  predicate SortedBy<T>(xs: seq<T>, key: T -> int)
  {
    forall i, j :: 0 <= i < j < |xs| ==> key(xs[i]) <= key(xs[j])
  }

  /** Insert after every element whose key is not greater, so equal keys keep their order. */
  function InsertBy<T>(x: T, xs: seq<T>, key: T -> int): (r: seq<T>)
    requires SortedBy(xs, key)
    ensures |r| == |xs| + 1
    ensures SortedBy(r, key)
    ensures multiset(r) == multiset(xs) + multiset{x}
  {
    if |xs| == 0 then [x]
    else if key(x) < key(xs[0]) then [x] + xs
    else
      var rest := InsertBy(x, xs[1..], key);
      assert xs == [xs[0]] + xs[1..];
      InsertLowerBound(x, xs, rest, key);
      ConsSorted(xs[0], rest, key);
      [xs[0]] + rest
  }

  /** Inserting an element no smaller than the head into the tail keeps the head a lower bound. */
  lemma InsertLowerBound<T>(x: T, xs: seq<T>, rest: seq<T>, key: T -> int)
    requires |xs| > 0 && SortedBy(xs, key) && key(xs[0]) <= key(x)
    requires multiset(rest) == multiset(xs[1..]) + multiset{x}
    ensures forall j :: 0 <= j < |rest| ==> key(xs[0]) <= key(rest[j])
  {
    forall j | 0 <= j < |rest| ensures key(xs[0]) <= key(rest[j]) {
      assert rest[j] in multiset(rest);
      if rest[j] != x {
        assert rest[j] in multiset(xs[1..]);
        var k :| 0 <= k < |xs[1..]| && xs[1..][k] == rest[j];
        assert xs[k + 1] == rest[j];
      }
    }
  }

  /** A head no greater than any element of a sorted tail keeps the sequence sorted. */
  lemma ConsSorted<T>(h: T, rest: seq<T>, key: T -> int)
    requires SortedBy(rest, key)
    requires forall j :: 0 <= j < |rest| ==> key(h) <= key(rest[j])
    ensures SortedBy([h] + rest, key)
  {
    var s := [h] + rest;
    forall i, j | 0 <= i < j < |s| ensures key(s[i]) <= key(s[j]) {
      assert s[j] == rest[j - 1];
      if i > 0 { assert s[i] == rest[i - 1]; }
    }
  }

  /** A stable sort by key: ascending keys, the same elements. */
  function SortBy<T>(xs: seq<T>, key: T -> int): (r: seq<T>)
    ensures |r| == |xs|
    ensures SortedBy(r, key)
    ensures multiset(r) == multiset(xs)
  {
    if |xs| == 0 then []
    else
      var init := xs[..|xs| - 1];
      assert xs == init + [xs[|xs| - 1]];
      InsertBy(xs[|xs| - 1], SortBy(init, key), key)
  }

  // ---------------------------------------------------------------------
  // Ordering by a comparison (`sort_values` on a key that is not a whole number)

  /** `le` is a total preorder: any two values compare, and comparisons chain. */
  ghost predicate TotalPreorder<T(!new)>(le: (T, T) -> bool)
  {
    (forall a, b :: le(a, b) || le(b, a)) && (forall a, b, c :: le(a, b) && le(b, c) ==> le(a, c))
  }

  /** Every element is `le` every later one. */
  predicate SortedWith<T>(xs: seq<T>, le: (T, T) -> bool)
  {
    forall i, j :: 0 <= i < j < |xs| ==> le(xs[i], xs[j])
  }

  /** Insert after every element `le` it, so equivalent elements keep their order. */
  function InsertWith<T(!new)>(x: T, xs: seq<T>, le: (T, T) -> bool): (r: seq<T>)
    requires TotalPreorder(le) && SortedWith(xs, le)
    ensures |r| == |xs| + 1
    ensures SortedWith(r, le)
    ensures multiset(r) == multiset(xs) + multiset{x}
  {
    if |xs| == 0 then [x]
    else if !le(xs[0], x) then
      ConsSortedWith(x, xs, le);
      [x] + xs
    else
      var rest := InsertWith(x, xs[1..], le);
      assert xs == [xs[0]] + xs[1..];
      InsertWithLowerBound(x, xs, rest, le);
      assert SortedWith(xs[1..], le);
      ConsSortedWithHead(xs[0], rest, le);
      [xs[0]] + rest
  }

  /** An element before the head of a sorted sequence, by totality and chaining, precedes all of it. */
  lemma ConsSortedWith<T(!new)>(x: T, xs: seq<T>, le: (T, T) -> bool)
    requires TotalPreorder(le) && SortedWith(xs, le) && |xs| > 0 && !le(xs[0], x)
    ensures SortedWith([x] + xs, le)
  {
    assert le(x, xs[0]);
    forall j | 0 <= j < |xs| ensures le(x, xs[j]) {
      if j > 0 { assert le(xs[0], xs[j]); }
    }
    ConsSortedWithHead(x, xs, le);
  }

  /** Inserting an element the head precedes into the tail keeps the head first. */
  lemma InsertWithLowerBound<T>(x: T, xs: seq<T>, rest: seq<T>, le: (T, T) -> bool)
    requires |xs| > 0 && SortedWith(xs, le) && le(xs[0], x)
    requires multiset(rest) == multiset(xs[1..]) + multiset{x}
    ensures forall j :: 0 <= j < |rest| ==> le(xs[0], rest[j])
  {
    forall j | 0 <= j < |rest| ensures le(xs[0], rest[j]) {
      assert rest[j] in multiset(rest);
      if rest[j] != x {
        assert rest[j] in multiset(xs[1..]);
        var k :| 0 <= k < |xs[1..]| && xs[1..][k] == rest[j];
        assert xs[k + 1] == rest[j];
      }
    }
  }

  /** A head preceding every element of a sorted tail keeps the sequence sorted. */
  lemma ConsSortedWithHead<T>(h: T, rest: seq<T>, le: (T, T) -> bool)
    requires SortedWith(rest, le)
    requires forall j :: 0 <= j < |rest| ==> le(h, rest[j])
    ensures SortedWith([h] + rest, le)
  {
    var s := [h] + rest;
    forall i, j | 0 <= i < j < |s| ensures le(s[i], s[j]) {
      assert s[j] == rest[j - 1];
      if i > 0 { assert s[i] == rest[i - 1]; }
    }
  }

  /** A stable insertion sort by a total preorder: the same elements, in order. */
  function SortWith<T(!new)>(xs: seq<T>, le: (T, T) -> bool): (r: seq<T>)
    requires TotalPreorder(le)
    ensures |r| == |xs|
    ensures SortedWith(r, le)
    ensures multiset(r) == multiset(xs)
  {
    if |xs| == 0 then []
    else
      var init := xs[..|xs| - 1];
      assert xs == init + [xs[|xs| - 1]];
      InsertWith(xs[|xs| - 1], SortWith(init, le), le)
  }

  /** Sorting loses no element. */
  lemma SortByKeeps<T>(xs: seq<T>, key: T -> int, i: nat)
    requires i < |xs|
    ensures xs[i] in SortBy(xs, key)
  {
    assert xs[i] in multiset(xs);
  }

  lemma {:induction false} MapAppend<T, U>(xs: seq<T>, ys: seq<T>, f: T -> U)
    ensures Map(xs + ys, f) == Map(xs, f) + Map(ys, f)
  {
    if |xs| > 0 {
      assert (xs + ys)[1..] == xs[1..] + ys;
      MapAppend(xs[1..], ys, f);
    } else {
      assert xs + ys == ys;
    }
  }

  /** Inserting adds one summand. */
  lemma {:induction false} SumMapInsert<T>(x: T, xs: seq<T>, key: T -> int, f: T -> int)
    requires SortedBy(xs, key)
    ensures Sum(Map(InsertBy(x, xs, key), f)) == f(x) + Sum(Map(xs, f))
  {
    if |xs| > 0 {
      if key(x) < key(xs[0]) {
        assert Map([x] + xs, f) == [f(x)] + Map(xs, f);
      } else {
        SumMapInsert(x, xs[1..], key, f);
        assert Map([xs[0]] + InsertBy(x, xs[1..], key), f) == [f(xs[0])] + Map(InsertBy(x, xs[1..], key), f);
        assert Map(xs, f) == [f(xs[0])] + Map(xs[1..], f);
      }
    }
  }

  /** Sorting does not change a column's total. */
  lemma {:induction false} SumMapSort<T>(xs: seq<T>, key: T -> int, f: T -> int)
    ensures Sum(Map(SortBy(xs, key), f)) == Sum(Map(xs, f))
  {
    if |xs| > 0 {
      var init, last := xs[..|xs| - 1], xs[|xs| - 1];
      var sorted := SortBy(init, key);
      assert SortBy(xs, key) == InsertBy(last, sorted, key);
      SumMapSort(init, key, f);
      SumMapInsert(last, sorted, key, f);
      SumOfMapLast(xs, f);
    }
  }

  lemma SumOfMapLast<T>(xs: seq<T>, f: T -> int)
    requires |xs| > 0
    ensures Sum(Map(xs, f)) == Sum(Map(xs[..|xs| - 1], f)) + f(xs[|xs| - 1])
  {
    var init, last := xs[..|xs| - 1], xs[|xs| - 1];
    assert xs == init + [last];
    SumOfMapSnoc(init, last, f);
  }

  lemma SumOfMapSnoc<T>(init: seq<T>, last: T, f: T -> int)
    ensures Sum(Map(init + [last], f)) == Sum(Map(init, f)) + f(last)
  {
    MapAppend(init, [last], f);
    assert Map([last], f) == [f(last)];
    SumSnoc(Map(init, f), f(last));
  }

  lemma SumSnoc(ys: seq<int>, v: int)
    ensures Sum(ys + [v]) == Sum(ys) + v
  {
    SumAppend(ys, [v]);
    assert Sum([v]) == v + Sum([v][1..]);
  }

  function Max0(x: int): nat
  {
    if x < 0 then 0 else x
  }

  // ---------------------------------------------------------------------
  // Grouped sums (`groupby(key)[col].sum()`)

  /** The rows whose key is `k`, and the others, in order. */
  function Where<T(!new), K(==)>(xs: seq<T>, key: T -> K, k: K): seq<T>
  {
    Filter(xs, (x: T) => key(x) == k)
  }

  function WhereNot<T(!new), K(==)>(xs: seq<T>, key: T -> K, k: K): seq<T>
  {
    Filter(xs, (x: T) => key(x) != k)
  }

  /** A column total splits into the rows with a key and the rest. */
  lemma {:induction false} SumWhereSplit<T(!new), K>(xs: seq<T>, key: T -> K, k: K, f: T -> int)
    ensures Sum(Map(xs, f)) == Sum(Map(Where(xs, key, k), f)) + Sum(Map(WhereNot(xs, key, k), f))
  {
    if |xs| > 0 {
      SumWhereSplit(xs[1..], key, k, f);
      assert Map(xs, f) == [f(xs[0])] + Map(xs[1..], f);
      if key(xs[0]) == k {
        assert Where(xs, key, k) == [xs[0]] + Where(xs[1..], key, k);
        assert Map([xs[0]] + Where(xs[1..], key, k), f) == [f(xs[0])] + Map(Where(xs[1..], key, k), f);
      } else {
        assert WhereNot(xs, key, k) == [xs[0]] + WhereNot(xs[1..], key, k);
        assert Map([xs[0]] + WhereNot(xs[1..], key, k), f) == [f(xs[0])] + Map(WhereNot(xs[1..], key, k), f);
      }
    }
  }

  /** Removing the rows of another key does not change a key's group. */
  lemma {:induction false} WhereOfWhereNot<T(!new), K>(xs: seq<T>, key: T -> K, k0: K, k: K)
    requires k != k0
    ensures Where(WhereNot(xs, key, k0), key, k) == Where(xs, key, k)
  {
    if |xs| > 0 {
      WhereOfWhereNot(xs[1..], key, k0, k);
      if key(xs[0]) != k0 {
        assert WhereNot(xs, key, k0) == [xs[0]] + WhereNot(xs[1..], key, k0);
        assert ([xs[0]] + WhereNot(xs[1..], key, k0))[1..] == WhereNot(xs[1..], key, k0);
      }
    }
  }

  /** The total of a group. */
  function GroupSum<T(!new), K(==)>(xs: seq<T>, key: T -> K, f: T -> int, k: K): int
  {
    Sum(Map(Where(xs, key, k), f))
  }

  /** The group totals over a list of keys, added up. */
  function GroupSums<T(!new), K(==)>(keys: seq<K>, xs: seq<T>, key: T -> K, f: T -> int): int
  {
    if |keys| == 0 then 0 else GroupSum(xs, key, f, keys[0]) + GroupSums(keys[1..], xs, key, f)
  }

  lemma {:induction false} GroupSumsWithout<T(!new), K>(keys: seq<K>, xs: seq<T>, key: T -> K, f: T -> int, k0: K)
    requires k0 !in keys
    ensures GroupSums(keys, WhereNot(xs, key, k0), key, f) == GroupSums(keys, xs, key, f)
  {
    if |keys| > 0 {
      WhereOfWhereNot(xs, key, k0, keys[0]);
      GroupSumsWithout(keys[1..], xs, key, f, k0);
    }
  }

  /**
   * Grouping loses nothing: over distinct keys covering every row, the group
   * totals add up to the column total.
   */
  lemma {:induction false} GroupSumsTotal<T(!new), K>(keys: seq<K>, xs: seq<T>, key: T -> K, f: T -> int)
    requires NoDuplicates(keys)
    requires forall x :: x in xs ==> key(x) in keys
    ensures GroupSums(keys, xs, key, f) == Sum(Map(xs, f))
    decreases |keys|
  {
    if |keys| == 0 {
      FilterAll(xs, (x: T) => key(x) in keys);
      FilterNone(xs, (x: T) => key(x) in keys);
    } else {
      var k0, rest := keys[0], keys[1..];
      assert k0 !in rest;
      assert NoDuplicates(rest) by {
        forall i, j | 0 <= i < j < |rest| ensures rest[i] != rest[j] {
          assert keys[i + 1] != keys[j + 1];
        }
      }
      var others := WhereNot(xs, key, k0);
      forall x | x in others ensures key(x) in rest {
        assert key(x) in keys && key(x) != k0;
      }
      GroupSumsTotal(rest, others, key, f);
      GroupSumsWithout(rest, xs, key, f, k0);
      SumWhereSplit(xs, key, k0, f);
    }
  }

  /** Lower-casing twice is lower-casing once. */
  lemma LowerIdempotent(s: string)
    ensures Lower(Lower(s)) == Lower(s)
  {
  }

  /** In a sequence without repeats every value occurs at most once. */
  lemma {:induction false} NoDuplicatesMultiplicity<T>(xs: seq<T>, x: T)
    requires NoDuplicates(xs)
    ensures multiset(xs)[x] <= 1
  {
    if |xs| > 0 {
      assert xs == [xs[0]] + xs[1..];
      assert NoDuplicates(xs[1..]) by {
        forall i, j | 0 <= i < j < |xs[1..]| ensures xs[1..][i] != xs[1..][j] {
          assert xs[i + 1] != xs[j + 1];
        }
      }
      assert xs[0] !in xs[1..] by {
        forall j | 0 <= j < |xs[1..]| ensures xs[1..][j] != xs[0] {
          assert xs[j + 1] != xs[0];
        }
      }
      NoDuplicatesMultiplicity(xs[1..], x);
    }
  }

  /** A value at two positions occurs at least twice. */
  lemma RepeatMultiplicity<T>(ys: seq<T>, i: nat, j: nat)
    requires i < j < |ys|
    ensures multiset(ys)[ys[j]] >= 2 || ys[i] != ys[j]
  {
    assert ys == ys[..j] + ys[j..];
    assert ys[i] in ys[..j];
    assert ys[j..][0] == ys[j];
  }

  /** A rearrangement of a sequence without repeats has none either. */
  lemma PermutationNoDuplicates<T>(xs: seq<T>, ys: seq<T>)
    requires NoDuplicates(xs)
    requires multiset(xs) == multiset(ys)
    ensures NoDuplicates(ys)
  {
    forall i, j | 0 <= i < j < |ys| ensures ys[i] != ys[j] {
      NoDuplicatesMultiplicity(xs, ys[j]);
      RepeatMultiplicity(ys, i, j);
    }
  }

  /** A sequence without repeats whose values all occur in `ys` is no longer than `ys`. */
  lemma DistinctWithin<T>(xs: seq<T>, ys: seq<T>)
    requires NoDuplicates(xs)
    requires forall x :: x in xs ==> x in ys
    ensures |xs| <= |ys|
  {
    var a, b := set x | x in xs, set y | y in ys;
    assert b == a + (b - a);
    DistinctCard(xs);
    SeqSetCard(ys);
  }

  lemma {:induction false} DistinctCard<T>(xs: seq<T>)
    requires NoDuplicates(xs)
    ensures |set x | x in xs| == |xs|
  {
    if |xs| > 0 {
      var rest := xs[1..];
      assert NoDuplicates(rest) by {
        forall i, j | 0 <= i < j < |rest| ensures rest[i] != rest[j] {
          assert xs[i + 1] != xs[j + 1];
        }
      }
      DistinctCard(rest);
      assert xs[0] !in rest by {
        forall j | 0 <= j < |rest| ensures rest[j] != xs[0] {
          assert xs[j + 1] != xs[0];
        }
      }
      assert (set x | x in xs) == (set x | x in rest) + {xs[0]};
    }
  }

  lemma {:induction false} SeqSetCard<T>(ys: seq<T>)
    ensures |set y | y in ys| <= |ys|
  {
    if |ys| > 0 {
      SeqSetCard(ys[1..]);
      assert (set y | y in ys) == (set y | y in ys[1..]) + {ys[0]};
    }
  }

  // ---------------------------------------------------------------------
  // Narrowing a table by one selection

  /** The row test of one selection on one column: `df[col].isin(sel)` once the selection is active. */
  function Admitted<T>(sel: Selection, cell: T -> Option<string>): T -> bool
  {
    (x: T) => Admits(sel, cell(x))
  }

  /** `if <sel active>: df = df[df[col].isin(sel)]`: a table narrowed only when the selection is active. */
  function NarrowBy<T(!new)>(xs: seq<T>, sel: Selection, cell: T -> Option<string>): (r: seq<T>)
    ensures forall x :: x in r <==> x in xs && Admits(sel, cell(x))
    ensures |r| <= |xs|
  {
    if IsActive(sel) then Filter(xs, Admitted(sel, cell)) else xs
  }

  /** Narrowing only when active is the same as filtering by `Admits` always. */
  lemma NarrowBySpec<T(!new)>(xs: seq<T>, sel: Selection, cell: T -> Option<string>)
    ensures NarrowBy(xs, sel, cell) == Filter(xs, Admitted(sel, cell))
  {
    if !IsActive(sel) {
      FilterAll(xs, Admitted(sel, cell));
    }
  }

  /** The image of a member is in the mapped sequence. */
  lemma MapMember<T, U>(xs: seq<T>, f: T -> U, x: T)
    requires x in xs
    ensures f(x) in Map(xs, f)
  {
    var i :| 0 <= i < |xs| && xs[i] == x;
    assert Map(xs, f)[i] == f(x);
  }

  /** Filtering and reading after a mapping is filtering and reading the original rows. */
  lemma {:induction false} FilterAfterMap<T(!new), U(!new), V>(xs: seq<T>, f: T -> U, p: U -> bool, v: U -> V, q: T -> bool, w: T -> V)
    requires forall x :: q(x) == p(f(x))
    requires forall x :: w(x) == v(f(x))
    ensures Map(Filter(Map(xs, f), p), v) == Map(Filter(xs, q), w)
  {
    if |xs| > 0 {
      assert Map(xs, f)[1..] == Map(xs[1..], f);
      FilterAfterMap(xs[1..], f, p, v, q, w);
    }
  }

  /** An entry of a mapped filter comes from a kept row, and every kept row gives one. */
  lemma MapFilterMember<T(!new), U>(xs: seq<T>, keep: T -> bool, f: T -> U, o: U)
    ensures o in Map(Filter(xs, keep), f) <==> exists x :: x in xs && keep(x) && f(x) == o
  {
    var kept := Filter(xs, keep);
    if o in Map(kept, f) {
      var i :| 0 <= i < |kept| && Map(kept, f)[i] == o;
      assert kept[i] in xs && keep(kept[i]);
    }
    if exists x :: x in xs && keep(x) && f(x) == o {
      var x :| x in xs && keep(x) && f(x) == o;
      assert x in kept;
      var i :| 0 <= i < |kept| && kept[i] == x;
      assert Map(kept, f)[i] == o;
    }
  }

  // ---------------------------------------------------------------------
  // Most frequent values (`mode().iloc[0]`, `idxmax()`)

  /** The position of the first of `keys` with the highest count in `xs`. */
  function FirstMostAt(keys: seq<string>, xs: seq<string>): (i: nat)
    requires |keys| > 0
    ensures i < |keys|
    ensures forall k :: k in keys ==> Count(xs, k) <= Count(xs, keys[i])
    ensures forall j :: 0 <= j < i ==> Count(xs, keys[j]) < Count(xs, keys[i])
  {
    if |keys| == 1 then 0
    else
      var rest := keys[1..];
      var i := FirstMostAt(rest, xs);
      assert forall k :: k in keys ==> k == keys[0] || k in rest;
      assert keys[i + 1] == rest[i];
      if Count(xs, keys[0]) >= Count(xs, rest[i]) then 0
      else
        assert forall j :: 1 <= j < i + 1 ==> keys[j] == rest[j - 1];
        i + 1
  }

  /** The first of `keys` with the highest count in `xs`. */
  function FirstMost(keys: seq<string>, xs: seq<string>): (r: string)
    requires |keys| > 0
    ensures r in keys
    ensures forall k :: k in keys ==> Count(xs, k) <= Count(xs, r)
  {
    keys[FirstMostAt(keys, xs)]
  }

  /** The most frequent value, the alphabetically first among ties; "N/A" for no values. */
  function TopValue(xs: seq<string>): string
  {
    if |xs| == 0 then "N/A" else FirstMost(SortedUnique(xs), xs)
  }

  /** The top value occurs at least as often as any other, and no equally frequent value sorts before it. */
  lemma TopValueIsMode(xs: seq<string>, v: string)
    requires v in xs
    ensures TopValue(xs) in xs
    ensures Count(xs, v) <= Count(xs, TopValue(xs))
    ensures Count(xs, v) == Count(xs, TopValue(xs)) ==> !StrLess(v, TopValue(xs))
  {
    var keys := SortedUnique(xs);
    var i := FirstMostAt(keys, xs);
    var top := keys[i];
    var j :| 0 <= j < |keys| && keys[j] == v;
    if Count(xs, v) == Count(xs, top) {
      if j > i {
        AscendingPairs(keys, i, j);
        StrLessAsymmetric(top, v);
      } else {
        assert j == i;
        StrLessIrreflexive(v);
      }
    }
  }

  // ---------------------------------------------------------------------
  // Sums and means of reals

  function RealSum(xs: seq<real>): real
  {
    if |xs| == 0 then 0.0 else xs[0] + RealSum(xs[1..])
  }

  /** `Series.mean()` of a non-empty series. */
  function Mean(xs: seq<real>): real
    requires |xs| > 0
  {
    RealSum(xs) / |xs| as real
  }

  lemma {:induction false} RealSumAtLeast(xs: seq<real>, lo: real)
    requires forall i :: 0 <= i < |xs| ==> lo <= xs[i]
    ensures |xs| as real * lo <= RealSum(xs)
  {
    if |xs| > 0 {
      RealSumAtLeast(xs[1..], lo);
    }
  }

  lemma {:induction false} RealSumAtMost(xs: seq<real>, hi: real)
    requires forall i :: 0 <= i < |xs| ==> xs[i] <= hi
    ensures RealSum(xs) <= |xs| as real * hi
  {
    if |xs| > 0 {
      RealSumAtMost(xs[1..], hi);
    }
  }

  lemma {:induction false} RealSumAbove(xs: seq<real>, lo: real)
    requires |xs| > 0
    requires forall i :: 0 <= i < |xs| ==> lo < xs[i]
    ensures |xs| as real * lo < RealSum(xs)
  {
    if |xs| > 1 {
      RealSumAbove(xs[1..], lo);
    }
  }

  /** A mean is at least any lower bound of its values. */
  lemma MeanAtLeast(xs: seq<real>, lo: real)
    requires |xs| > 0
    requires forall i :: 0 <= i < |xs| ==> lo <= xs[i]
    ensures lo <= Mean(xs)
  {
    var n := |xs| as real;
    RealSumAtLeast(xs, lo);
    assert Mean(xs) * n == RealSum(xs);
  }

  /** A mean is at most any upper bound of its values. */
  lemma MeanAtMost(xs: seq<real>, hi: real)
    requires |xs| > 0
    requires forall i :: 0 <= i < |xs| ==> xs[i] <= hi
    ensures Mean(xs) <= hi
  {
    var n := |xs| as real;
    RealSumAtMost(xs, hi);
    assert Mean(xs) * n == RealSum(xs);
  }

  /** Not every value can lie above the mean: some value is at most the mean. */
  lemma SomeAtMostMean(xs: seq<real>) returns (k: nat)
    requires |xs| > 0
    ensures k < |xs| && xs[k] <= Mean(xs)
  {
    var n := |xs| as real;
    assert Mean(xs) * n == RealSum(xs);
    if forall i :: 0 <= i < |xs| ==> Mean(xs) < xs[i] {
      RealSumAbove(xs, Mean(xs));
      assert false;
    }
    k :| 0 <= k < |xs| && xs[k] <= Mean(xs);
  }
}
