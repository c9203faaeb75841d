/**
 * Data frames as the data-table panels see them: a header and rows of cells
 * aligned with it, the emptiness test, cell lookup by column name, and the
 * select-and-rename step (`df[cols].rename(columns=mapping)`) every report
 * is built with.
 */
module Frames {
  import opened Common

  // ---------------------------------------------------------------------
  // Frames

  /** A cell: null (None/NaN/NaT), text, a whole number, or a timestamp in minutes. */
  datatype Cell = Null | Text(text: string) | Number(n: int) | Stamp(minutes: int)

  datatype Frame = Frame(columns: seq<string>, rows: seq<seq<Cell>>)

  const EmptyFrame: Frame := Frame([], [])

  /** Every row has one cell per column, as in any DataFrame. */
  predicate WellFormed(f: Frame)
  {
    forall i :: 0 <= i < |f.rows| ==> |f.rows[i]| == |f.columns|
  }

  /** `DataFrame.empty`: no rows or no columns. */
  predicate IsEmpty(f: Frame)
  {
    |f.rows| == 0 || |f.columns| == 0
  }

  /** The cell of column `c` in a row (the first column of that name); null when the frame has no such column. */
  function Get(columns: seq<string>, row: seq<Cell>, c: string): Cell
  {
    if c in columns && IndexOf(columns, c) < |row| then row[IndexOf(columns, c)] else Null
  }

  /** The text `isin` compares with a list of strings; a non-text cell never matches. */
  function TextOf(c: Cell): Option<string>
  {
    if c.Text? then Some(c.text) else None
  }

  // ---------------------------------------------------------------------
  // Selecting and renaming columns

  /** `[c for c in mapping if c in df.columns]`: the mapping entries whose source column the frame has, in mapping order. */
  function Present(mapping: seq<(string, string)>, columns: seq<string>): seq<(string, string)>
  {
    Filter(mapping, (p: (string, string)) => p.0 in columns)
  }

  function NewName(p: (string, string)): string
  {
    p.1
  }

  /** One row's cells of the kept source columns, in the kept order. */
  function Pick(columns: seq<string>, row: seq<Cell>, kept: seq<(string, string)>): (r: seq<Cell>)
    ensures |r| == |kept|
    ensures forall j :: 0 <= j < |kept| ==> r[j] == Get(columns, row, kept[j].0)
  {
    if |kept| == 0 then [] else [Get(columns, row, kept[0].0)] + Pick(columns, row, kept[1..])
  }

  function PickRows(columns: seq<string>, rows: seq<seq<Cell>>, kept: seq<(string, string)>): (r: seq<seq<Cell>>)
    ensures |r| == |rows|
    ensures forall i :: 0 <= i < |rows| ==> r[i] == Pick(columns, rows[i], kept)
  {
    if |rows| == 0 then [] else [Pick(columns, rows[0], kept)] + PickRows(columns, rows[1..], kept)
  }

  /** `df[cols].rename(columns=mapping)`. */
  function SelectRename(f: Frame, mapping: seq<(string, string)>): Frame
  {
    Project(f, Present(mapping, f.columns))
  }

  /** `df[[src for src, _ in kept]]` with each column renamed to its partner. */
  function Project(f: Frame, kept: seq<(string, string)>): (r: Frame)
    ensures r.columns == Map(kept, NewName)
    ensures |r.rows| == |f.rows| && WellFormed(r)
    ensures forall i, j :: 0 <= i < |r.rows| && 0 <= j < |kept| ==> r.rows[i][j] == Get(f.columns, f.rows[i], kept[j].0)
  {
    Frame(Map(kept, NewName), PickRows(f.columns, f.rows, kept))
  }

  /**
   * The report keeps every row and is well formed; its columns are the new
   * names of the mapping entries whose source column exists, in mapping
   * order, and each column carries its source column's cells.
   */
  lemma SelectRenameSpec(f: Frame, mapping: seq<(string, string)>)
    ensures var r := SelectRename(f, mapping);
      |r.rows| == |f.rows| && WellFormed(r) &&
      (forall p :: p in mapping && p.0 in f.columns ==> p.1 in r.columns) &&
      (forall j :: 0 <= j < |r.columns| ==>
         Present(mapping, f.columns)[j] in mapping && Present(mapping, f.columns)[j].0 in f.columns &&
         r.columns[j] == Present(mapping, f.columns)[j].1 &&
         forall i :: 0 <= i < |r.rows| ==> r.rows[i][j] == Get(f.columns, f.rows[i], Present(mapping, f.columns)[j].0))
  {
    var kept := Present(mapping, f.columns);
    forall p | p in mapping && p.0 in f.columns ensures p.1 in Map(kept, NewName) {
      var j :| 0 <= j < |kept| && kept[j] == p;
    }
    forall j | 0 <= j < |kept| ensures kept[j] in mapping && kept[j].0 in f.columns {
      assert kept[j] in kept;
    }
  }

  /**
   * A column renamed from `src` to `dst`, where no other entry is renamed to
   * `dst`, carries the cells of `src` in every row.
   */
  lemma RenamedCell(f: Frame, mapping: seq<(string, string)>, src: string, dst: string, i: nat)
    requires (src, dst) in mapping && src in f.columns
    requires forall p :: p in mapping && p.1 == dst ==> p.0 == src
    requires i < |f.rows|
    ensures var r := SelectRename(f, mapping);
      dst in r.columns && Get(r.columns, r.rows[i], dst) == Get(f.columns, f.rows[i], src)
  {
    var r := SelectRename(f, mapping);
    SelectRenameSpec(f, mapping);
    var j := IndexOf(r.columns, dst);
    assert Present(mapping, f.columns)[j] in mapping;
  }
}
