/**
 * A two-key `groupby(...).agg(...)` as the dashboard uses it: one row per
 * pair of keys met, sorted by key, holding the sum or the mean of its cell.
 */
module GroupedCells {
  import opened Common

  /** One row's part in a two-key `groupby`: its two keys and the value it brings. */
  datatype Entry = Entry(major: string, minor: string, value: real)

  /** The aggregation applied to each cell: `'sum'` or `'mean'`. */
  datatype Aggregation = Summed | Averaged

  function ValueOfEntry(e: Entry): real
  {
    e.value
  }

  function MajorOf(e: Entry): string
  {
    e.major
  }

  function MinorOf(e: Entry): string
  {
    e.minor
  }

  function AtMajor(major: string): Entry -> bool
  {
    (e: Entry) => e.major == major
  }

  function AtKeys(major: string, minor: string): Entry -> bool
  {
    (e: Entry) => e.major == major && e.minor == minor
  }

  /** The values falling in one cell, in row order. */
  function CellValues(es: seq<Entry>, major: string, minor: string): seq<real>
  {
    Map(Filter(es, AtKeys(major, minor)), ValueOfEntry)
  }

  /** The cell's sum or mean; a cell the grouping produces is never empty. */
  function Combine(agg: Aggregation, xs: seq<real>): real
  {
    if |xs| == 0 then 0.0
    else match agg
      case Summed => RealSum(xs)
      case Averaged => Mean(xs)
  }

  /** The major keys present, ascending. */
  function Majors(es: seq<Entry>): (r: seq<string>)
    ensures StrictlyAscending(r)
    ensures forall a :: a in r <==> exists e :: e in es && e.major == a
  {
    var ks := Map(es, MajorOf);
    forall a | a in ks ensures exists e :: e in es && e.major == a {
      var i :| 0 <= i < |ks| && ks[i] == a;
      assert es[i] in es;
    }
    forall e | e in es ensures e.major in ks {
      MapMember(es, MajorOf, e);
    }
    SortedUnique(ks)
  }

  /** The minor keys present under one major key, ascending. */
  function MinorsAt(es: seq<Entry>, major: string): (r: seq<string>)
    ensures StrictlyAscending(r)
    ensures forall b :: b in r <==> exists e :: e in es && e.major == major && e.minor == b
  {
    var under := Filter(es, AtMajor(major));
    var ks := Map(under, MinorOf);
    forall b | b in ks ensures exists e :: e in es && e.major == major && e.minor == b {
      var i :| 0 <= i < |ks| && ks[i] == b;
      assert under[i] in under;
    }
    forall e | e in es && e.major == major ensures e.minor in ks {
      assert e in under;
      MapMember(under, MinorOf, e);
    }
    SortedUnique(ks)
  }

  function CellsAt(es: seq<Entry>, agg: Aggregation, major: string, minors: seq<string>): (r: seq<Entry>)
    ensures |r| == |minors|
    ensures forall k :: 0 <= k < |r| ==> r[k] == Entry(major, minors[k], Combine(agg, CellValues(es, major, minors[k])))
  {
    if |minors| == 0 then []
    else [Entry(major, minors[0], Combine(agg, CellValues(es, major, minors[0])))] + CellsAt(es, agg, major, minors[1..])
  }

  /** Rows in (major, minor) order, each key compared as Python compares strings. */
  predicate KeyLess(p: Entry, q: Entry)
  {
    StrLess(p.major, q.major) || (p.major == q.major && StrLess(p.minor, q.minor))
  }

  predicate KeysAscending(es: seq<Entry>)
  {
    forall i :: 0 <= i < |es| - 1 ==> KeyLess(es[i], es[i + 1])
  }

  lemma CellsAtAscending(es: seq<Entry>, agg: Aggregation, major: string, minors: seq<string>)
    requires StrictlyAscending(minors)
    ensures KeysAscending(CellsAt(es, agg, major, minors))
  {
  }

  /** One major key's rows followed by rows of later major keys stay in order. */
  lemma JoinAscending(head: seq<Entry>, rest: seq<Entry>, majors: seq<string>)
    requires |majors| > 0 && StrictlyAscending(majors)
    requires KeysAscending(head) && KeysAscending(rest)
    requires forall k :: 0 <= k < |head| ==> head[k].major == majors[0]
    requires forall k :: 0 <= k < |rest| ==> rest[k].major in majors[1..]
    ensures KeysAscending(head + rest)
  {
    var r := head + rest;
    if |head| > 0 && |rest| > 0 {
      var j :| 0 <= j < |majors[1..]| && majors[1..][j] == rest[0].major;
      AscendingPairs(majors, 0, j + 1);
      assert r[|head| - 1] == head[|head| - 1] && r[|head|] == rest[0];
    }
    forall k | 0 <= k < |r| - 1 ensures KeyLess(r[k], r[k + 1]) {
      if k + 1 < |head| {
        assert r[k] == head[k] && r[k + 1] == head[k + 1];
      } else if k >= |head| {
        assert r[k] == rest[k - |head|] && r[k + 1] == rest[k + 1 - |head|];
      }
    }
  }

  function CellsOver(es: seq<Entry>, agg: Aggregation, majors: seq<string>): (r: seq<Entry>)
    requires StrictlyAscending(majors)
    ensures KeysAscending(r)
    ensures forall k :: 0 <= k < |r| ==> r[k].major in majors
  {
    if |majors| == 0 then []
    else
      var minors := MinorsAt(es, majors[0]);
      var head := CellsAt(es, agg, majors[0], minors);
      var rest := CellsOver(es, agg, majors[1..]);
      CellsAtAscending(es, agg, majors[0], minors);
      JoinAscending(head, rest, majors);
      head + rest
  }

  /** The rows of `groupby([major, minor]).agg(...)`, in the order `groupby` returns them. */
  function GroupBy(es: seq<Entry>, agg: Aggregation): seq<Entry>
  {
    CellsOver(es, agg, Majors(es))
  }

  /** A row of the result is a non-empty cell, aggregated. */
  predicate Occupied(es: seq<Entry>, agg: Aggregation, g: Entry)
  {
    (exists e :: e in es && e.major == g.major && e.minor == g.minor)
    && g.value == Combine(agg, CellValues(es, g.major, g.minor))
  }

  lemma {:induction false} CellsOverOccupied(es: seq<Entry>, agg: Aggregation, majors: seq<string>)
    requires StrictlyAscending(majors)
    ensures forall k :: 0 <= k < |CellsOver(es, agg, majors)| ==> Occupied(es, agg, CellsOver(es, agg, majors)[k])
  {
    if |majors| > 0 {
      var minors := MinorsAt(es, majors[0]);
      var head := CellsAt(es, agg, majors[0], minors);
      var rest := CellsOver(es, agg, majors[1..]);
      CellsOverOccupied(es, agg, majors[1..]);
      var r := head + rest;
      assert CellsOver(es, agg, majors) == r;
      forall k | 0 <= k < |r| ensures Occupied(es, agg, r[k]) {
        if k < |head| {
          assert r[k] == head[k];
          assert minors[k] in minors;
        } else {
          assert r[k] == rest[k - |head|];
        }
      }
    }
  }

  predicate HasKeys(rs: seq<Entry>, major: string, minor: string)
  {
    exists k :: 0 <= k < |rs| && rs[k].major == major && rs[k].minor == minor
  }

  lemma CellsAtCover(es: seq<Entry>, agg: Aggregation, major: string, minors: seq<string>, minor: string)
    requires minor in minors
    ensures HasKeys(CellsAt(es, agg, major, minors), major, minor)
  {
    var k :| 0 <= k < |minors| && minors[k] == minor;
    assert CellsAt(es, agg, major, minors)[k].minor == minor;
  }

  lemma HasKeysAppend(head: seq<Entry>, rest: seq<Entry>, major: string, minor: string)
    requires HasKeys(head, major, minor) || HasKeys(rest, major, minor)
    ensures HasKeys(head + rest, major, minor)
  {
    if HasKeys(head, major, minor) {
      var k :| 0 <= k < |head| && head[k].major == major && head[k].minor == minor;
      assert (head + rest)[k] == head[k];
    } else {
      var k :| 0 <= k < |rest| && rest[k].major == major && rest[k].minor == minor;
      assert (head + rest)[|head| + k] == rest[k];
    }
  }

  lemma {:induction false} CellsOverCover(es: seq<Entry>, agg: Aggregation, majors: seq<string>, e: Entry)
    requires StrictlyAscending(majors)
    requires e in es && e.major in majors
    ensures HasKeys(CellsOver(es, agg, majors), e.major, e.minor)
  {
    var minors := MinorsAt(es, majors[0]);
    var head := CellsAt(es, agg, majors[0], minors);
    var rest := CellsOver(es, agg, majors[1..]);
    assert CellsOver(es, agg, majors) == head + rest;
    if e.major == majors[0] {
      assert e.minor in minors;
      CellsAtCover(es, agg, majors[0], minors, e.minor);
    } else {
      assert e.major in majors[1..];
      CellsOverCover(es, agg, majors[1..], e);
    }
    HasKeysAppend(head, rest, e.major, e.minor);
  }

  /**
   * The grouping has one row per key pair present, in ascending key order,
   * and each row holds the sum or mean of the values in its cell, which is
   * never empty.
   */
  lemma GroupBySpec(es: seq<Entry>, agg: Aggregation)
    ensures KeysAscending(GroupBy(es, agg))
    ensures forall e :: e in es ==> HasKeys(GroupBy(es, agg), e.major, e.minor)
    ensures forall k :: 0 <= k < |GroupBy(es, agg)| ==>
      var g := GroupBy(es, agg)[k];
      |CellValues(es, g.major, g.minor)| > 0 && g.value == Combine(agg, CellValues(es, g.major, g.minor))
  {
    var r := GroupBy(es, agg);
    CellsOverOccupied(es, agg, Majors(es));
    forall e | e in es ensures HasKeys(r, e.major, e.minor) {
      CellsOverCover(es, agg, Majors(es), e);
    }
    forall k | 0 <= k < |r| ensures |CellValues(es, r[k].major, r[k].minor)| > 0 {
      var g := r[k];
      assert Occupied(es, agg, g);
      var e :| e in es && e.major == g.major && e.minor == g.minor;
      assert e in Filter(es, AtKeys(g.major, g.minor));
    }
  }

  /** Ascending keys are distinct keys. */
  lemma {:induction false} KeysAscendingPairs(es: seq<Entry>, i: nat, j: nat)
    requires KeysAscending(es) && i < j < |es|
    ensures KeyLess(es[i], es[j])
    decreases j - i
  {
    if j > i + 1 {
      KeysAscendingPairs(es, i, j - 1);
      var a, b, c := es[i], es[j - 1], es[j];
      if StrLess(a.major, b.major) && StrLess(b.major, c.major) {
        StrLessTransitive(a.major, b.major, c.major);
      } else if a.major == b.major && b.major == c.major {
        StrLessTransitive(a.minor, b.minor, c.minor);
      }
    }
  }

  lemma KeysDistinct(es: seq<Entry>, i: nat, j: nat)
    requires KeysAscending(es) && i < j < |es|
    ensures es[i].major != es[j].major || es[i].minor != es[j].minor
  {
    KeysAscendingPairs(es, i, j);
    StrLessIrreflexive(es[i].major);
    StrLessIrreflexive(es[i].minor);
  }


  /** Grouping a non-empty list leaves a row. */
  lemma GroupByNonEmpty(es: seq<Entry>, agg: Aggregation)
    requires |es| > 0
    ensures |GroupBy(es, agg)| > 0
  {
    GroupBySpec(es, agg);
    assert es[0] in es;
    assert HasKeys(GroupBy(es, agg), es[0].major, es[0].minor);
  }

  /** One row of a grouping: its cell is never empty and it holds the cell's sum or mean. */
  lemma GroupByCell(es: seq<Entry>, agg: Aggregation, k: nat)
    requires k < |GroupBy(es, agg)|
    ensures var e := GroupBy(es, agg)[k];
      |CellValues(es, e.major, e.minor)| > 0 && e.value == Combine(agg, CellValues(es, e.major, e.minor))
  {
    GroupBySpec(es, agg);
  }

  /** Every entry's keys have a row in the grouping. */
  lemma GroupByRow(es: seq<Entry>, agg: Aggregation, e: Entry) returns (k: nat)
    requires e in es
    ensures k < |GroupBy(es, agg)| && GroupBy(es, agg)[k].major == e.major && GroupBy(es, agg)[k].minor == e.minor
  {
    GroupBySpec(es, agg);
    assert HasKeys(GroupBy(es, agg), e.major, e.minor);
    k :| 0 <= k < |GroupBy(es, agg)| && GroupBy(es, agg)[k].major == e.major && GroupBy(es, agg)[k].minor == e.minor;
  }

  /** Neighbouring rows of a grouping have ascending keys. */
  lemma GroupByStep(es: seq<Entry>, agg: Aggregation, i: nat)
    requires i + 1 < |GroupBy(es, agg)|
    ensures KeyLess(GroupBy(es, agg)[i], GroupBy(es, agg)[i + 1])
  {
    GroupBySpec(es, agg);
  }

  /** Every row of a grouping comes from an entry with its keys. */
  lemma GroupBySource(es: seq<Entry>, agg: Aggregation, k: nat) returns (e: Entry)
    requires k < |GroupBy(es, agg)|
    ensures e in es && e.major == GroupBy(es, agg)[k].major && e.minor == GroupBy(es, agg)[k].minor
  {
    var r := GroupBy(es, agg)[k];
    GroupByCell(es, agg, k);
    var cell := Filter(es, AtKeys(r.major, r.minor));
    assert |cell| > 0;
    e := cell[0];
  }
}
